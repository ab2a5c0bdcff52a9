# Lane ROI editor: a verified model of its lane state machine

The program lets an operator outline up to three polygonal lanes on a road
image. Left clicks add points to the active lane. A right click closes the
lane's polygon. Keys switch the active lane, reset one lane or all three,
save the lanes to a JSON file, load them back, show a combined overlay, or
quit. All of this lives in `roi.py`.

This project models the state that those events change and proves what each
event does to it:

- `lanes`: three point lists.
- `complete`: three completion flags.
- `current_lane`: the active lane.

Modules:

- `LaneState` (lane_state.dfy) defines the three lanes, their dictionary
  keys `"lane1"`, `"lane2"` and `"lane3"`, and the state. Its invariant
  `Valid` says that a complete lane always has more than two points. The two
  dictionaries always have exactly these three keys: keys are never added or
  removed, only overwritten. So each dictionary is modelled as a total
  per-lane record, `ByLane`, read with `Get` and written with `Set`.
- `Persistence` (persistence.dfy) covers `save_to_json` and `load_from_json`
  over the parsed document `{"lanes": {name: [[x, y], ...]}}`. The document
  is modelled, not its JSON text:
  - A `Table` holds the "lanes" object's keys in document order, each key at
    most once.
  - An entry is a list of points, or `Unconvertible` when the conversion at
    line 119 raises.
  - The "lanes" field is `Absent` when the key is missing, `NotAnObject` when
    its `.items()` raises, or an `Object`.
  - Reading the file is an `Option<Document>`. `None` means `open`,
    `json.load` or `data.get` raised. That happens before the reset at
    lines 113-114, so the state stays untouched.
  - Errors raised after the reset leave the lanes reset, or filled up to the
    entry that raised. The model keeps this behaviour.
- `Events` (events.dfy) defines one step of `mouse_callback` and one key of
  the loop in `main`, as functions on the state. Each step also returns an
  `Effect`: a mask shown, mask windows closed, the document written, the
  load's result, the lanes of the overlay, or exit.
- `Editor` (editor.dfy) defines the class `RoiEditor`, whose fields are the
  three module-level variables. Its methods update those fields in place,
  with the same branches and loops as the source. Each method is proved to
  perform exactly the step that `Events` or `Persistence` defines. A client
  method, `CloseSaveResetReload`, goes through one whole session using only
  those contracts: close lane 1, save, reset all lanes, reload.

`create_mask`, `destroyWindow`, `imshow` and writing the file are recorded as
`Effect` values and not carried out.

An unreadable or unparseable file leaves the state unchanged, because the
reset (lines 113-114) runs only after `open` and `json.load` (lines 106-107)
succeed. Only failures after the reset leave lanes empty or partly filled.

## Model

| member | source | states |
|---|---|---|
| LaneState.Parse | roi.py:118 | a key is recognised as lane `l` exactly when it is that lane's name, in both directions |
| LaneState.Initial | roi.py:8-10 | the program starts with every lane empty and incomplete and lane 1 active, and the invariant holds |
| Persistence.SavedTable | roi.py:86-89 | every saved entry's key is the name of a lane from the iteration order; which lanes and points are saved is stated by Persistence.SavedTableLookup |
| Persistence.SaveDoc | roi.py:86-94 | the written document always has a "lanes" object; what it holds is stated by Persistence.SaveEmitsLongLanes |
| Persistence.SavedTableLookup | roi.py:86-89 | looking up a lane's key in the saved entries finds exactly its points when it has more than two points, and nothing otherwise |
| Persistence.SaveEmitsLongLanes | roi.py:86-94 | every saved key is a lane name; a lane is saved exactly when it has more than two points, with the same points in the same order; completion is not recorded |
| Persistence.SavedTableDistinct | roi.py:86-89 | each lane is saved at most once, so the saved object has distinct keys |
| Persistence.SavedTableOnlyReadsLongLanes | roi.py:86-89 | lanes with two points or fewer do not affect the saved document |
| Persistence.Assign | roi.py:118-122 | a recognised lane takes the entry's points; with more than two it becomes complete and its mask is shown; no other lane changes |
| Persistence.ApplyTable | roi.py:117-122 | the load loop never turns failure into success, never un-completes a lane, and only appends to the masks shown; its full effect is stated by the three lemmas below |
| Persistence.ApplyTableKeepsComplete | roi.py:117-122 | the load loop keeps "complete iff more than two points" and "mask shown iff complete" for every lane |
| Persistence.ApplyTableSucceeds | roi.py:117-128 | the load loop gets through exactly when no recognised lane's entry is unconvertible |
| Persistence.ApplyTableCopiesPoints | roi.py:117-121 | each lane ends with its reset value or exactly its entry's points; on success, each recognised lane holds its entry's points and unrecognised keys are ignored |
| Persistence.LoadState | roi.py:102-128 | a load keeps the active lane; an unreadable or unparseable file returns false and leaves the state exactly as it was; success needs a readable file whose "lanes" value is an object; the rest is stated by Persistence.LoadFromDocument |
| Persistence.LoadFromDocument | roi.py:105-128 | after a readable file, the state is reset and then filled; a lane is complete iff it has more than two points; masks are shown for exactly the complete lanes; the call succeeds iff "lanes" is an object with no unconvertible recognised entry, and then each lane holds exactly its entry's points (none if the file omits it); on failure each lane is empty or holds its entry's points; the active lane is kept |
| Persistence.SaveLoadRoundTrip | roi.py:86-121 | loading what save wrote succeeds, into any state; every lane that had more than two points comes back with identical points and complete; every other lane comes back empty and incomplete; the active lane is unchanged |
| Persistence.SaveLoadSaveStable | roi.py:86-121 | saving again after that reload writes the same document |
| Events.KeyCode | roi.py:206 | the key code is the raw code modulo 256, in 0..255 |
| Events.OnMouse | roi.py:45-57 | a mouse event keeps the invariant and the active lane, and never changes another lane's points or flag |
| Events.LeftClickAppends | roi.py:46-47 | a left click appends the point to the end of the active lane iff that lane is not complete; otherwise nothing changes; completion flags are never touched |
| Events.RightClickCloses | roi.py:51-57 | a right click marks the active lane complete and shows its mask iff the lane has more than two points and is not complete; point lists are never changed; otherwise nothing changes |
| Events.OtherMouseEventsIgnored | roi.py:45-57 | events other than the two button presses change nothing |
| Events.ClickThreeThenClose | roi.py:46-57 | clicking (10,10), (50,10), (50,50) on a fresh lane 1 and right-clicking leaves lane 1 complete with exactly those points and shows its mask |
| Events.OverlaySelection | roi.py:143-144 | the overlay draws a lane iff it is listed, has more than two points and is complete |
| Events.OverlayLanes | roi.py:143-144 | the overlay's lanes are exactly those with more than two points that are complete |
| Events.ResetLane | roi.py:219-224 | the active lane becomes empty and incomplete, every other lane and the active lane choice stay, its mask windows close, and the invariant is kept |
| Events.ResetAll | roi.py:225-234 | every lane becomes empty and incomplete, the active lane stays, and every lane's mask windows close |
| Events.OnKey | roi.py:208-240 | every key keeps the invariant; only Esc exits; only `r`, `a` and `l` change points or flags; only `1`, `2` and `3` change the active lane |
| Events.EscExits | roi.py:208-209 | Esc ends the loop and changes no state |
| Events.VisualizeKeyShows | roi.py:239-240 | `v` shows the overlay of the selected lanes and changes no state |
| Events.LoadFromDocumentValid | roi.py:105-128 | loading keeps the invariant, whether or not the file could be read |
| Events.SwitchLane | roi.py:210-218 | `1`, `2`, `3` make lane 1, 2, 3 active and change no points or flags |
| Events.ResetLaneOnlyTouchesActive | roi.py:219-224 | `r` empties and un-completes the active lane only, keeps the active lane, and closes that lane's mask windows |
| Events.ResetAllClears | roi.py:225-234 | `a` leaves all three lanes empty and incomplete whatever the state before, and closes every lane's mask windows |
| Events.SaveKeyWrites | roi.py:235-236 | `s` writes the saved document of the current lanes and changes no state |
| Events.LoadKeyReads | roi.py:237-238 | `l` has exactly the effect of loading the file's content |
| Events.UnboundKeyIgnored | roi.py:208-240 | any other key changes nothing and has no effect |
| Events.NoKeyIsIgnored | roi.py:206 | "no key" (-1) becomes 255, which changes nothing |
| Events.OverlayShowsCompleteLanes | roi.py:143-144 | under the invariant, the overlay draws exactly the complete lanes |
| Events.OverlayEmptyWithoutCompleteLanes | roi.py:140-144 | with no complete lane, the overlay draws no lane |
| Editor.RoiEditor.constructor | roi.py:8-10 | the fields start as the initial state |
| Editor.RoiEditor.MouseCallback | roi.py:45-57 | updates the fields in place exactly as `OnMouse` does and keeps the invariant |
| Editor.RoiEditor.Save | roi.py:82-98 | its loop over the lanes builds exactly the saved document; each lane is present iff it has more than two points, with its points |
| Editor.RoiEditor.Load | roi.py:102-128 | the reset and the loop over the document's entries, with the early exit on an unconvertible entry, produce exactly `LoadState`'s state, return value and masks, and keep the invariant |
| Editor.RoiEditor.VisualizeAllLanes | roi.py:143-144 | its loop selects exactly the overlay's lanes, each of them complete |
| Editor.RoiEditor.HandleKey | roi.py:208-240 | dispatches one key in place exactly as `OnKey` does and keeps the invariant |

## Left out

- Drawing is left out because it is display output through OpenCV: the live preview, markers, lines and label in `mouse_callback` (lines 16-43, 59-61), and the windows of `create_mask` and the key loop.
- Mask rasterisation and masked images (`fillPoly`, `bitwise_and`, `bitwise_or`, lines 63-80 and 146-158) are calls into OpenCV on image buffers. Showing a mask appears only as the `ShowMask` effect, or in a load's mask list.
- The 0.3 alpha blend and polygon outlines of `visualize_all_lanes` (lines 154-170) are floating-point image work. Only its lane selection (line 144) is modelled.
- Image loading, the `waitKey` polling loop and the final `destroyAllWindows` (lines 172-206, 242) are I/O and the event source. One dispatch step is modelled per key and per mouse event.
- Writing and reading the file, and JSON text encoding and decoding (lines 97-98, 106-107), are I/O. Save returns the document; load takes the result of reading as an `Option<Document>`.
- `print` diagnostics are left out.
- Only integer pairs are modelled as points. `Unconvertible` stands for a recognised entry that line 119 cannot convert: the entry, or one of its points, is not iterable (a number, for instance, including a bare float point).
- Persistence.LoadFromDocument: line 119 turns any iterable of iterables into tuples, so a string such as `"abc"`, points of other lengths, string coordinates or pairs of floats get past it. Such values are outside the model. With more than two of them the lane is marked complete and `create_mask` (line 122) converts them with `np.array(..., dtype=np.int32)` (line 70), which raises for strings or ragged points, and possibly for integers outside the 32-bit range. The load then returns false with that lane complete and the later entries not applied, a failure the model, whose `create_mask` never raises, does not have.
- `r` calls `destroyWindow` without the `try` that `a` uses (lines 222-223). Whether OpenCV raises for a window that was never opened is library behaviour, so the model treats the step as always completing.
- Events.OnMouse: point coordinates are assumed to fit in a 32-bit C `int`, as OpenCV's drawing calls convert them. A loaded point outside that range (a lane with one or two such points loads successfully) makes the drawing at lines 23-39 raise before the update at lines 46-57, so in the source no mouse event changes the state while such a point remains, whereas the model still applies the click. The same assumption lies behind Persistence.SaveLoadRoundTrip's success, since `create_mask` would raise on reloading a complete lane with such a point.
- Events.OnKey: `v` with at least one complete lane calls `cv2.addWeighted` with a `mask` keyword (line 160), which that function's documented signature does not have. If OpenCV raises there, the exception is not caught and the program ends. The model treats `v` as completing with its `ShowOverlay` effect.
- Events.OnKey: `s` opens the file for writing without a `try` (line 97). If that fails, the exception is not caught and the program ends. The model treats `s` as completing with its `WriteFile` effect.
- A JSON object with a repeated key parses to one value for that key. The `Table` type therefore has distinct keys, and what the parser does with duplicates is not modelled.
- Persistence.SaveDoc: its own contract states only that the document has a "lanes" object; what that object holds is stated by Persistence.SaveEmitsLongLanes.
