/**
 * One step of the editor: the state changes of `mouse_callback`
 * (roi.py lines 45-57) and of the key dispatch in `main`
 * (roi.py lines 206-240), each with the display or file effect it triggers.
 */
module Events {
  import opened Wrappers
  import opened LaneState
  import opened Persistence

  /** The mouse events the callback distinguishes; moves, releases and the rest are `OtherMouseEvent`. */
  datatype MouseEvent = LeftButtonDown | RightButtonDown | OtherMouseEvent

  /** What a step asks of the display or the file system, besides its state change. */
  datatype Effect =
    | Quiet                                // nothing beyond the redraw
    | ShowMask(lane: Lane)                 // `create_mask(lane)`
    | CloseMaskWindows(lanes: seq<Lane>)   // `destroyWindow` of each lane's two mask windows
    | WriteFile(doc: Document)             // `save_to_json()`
    | ReadFile(ok: bool, masks: seq<Lane>) // `load_from_json()`: its return value and the masks it showed
    | ShowOverlay(lanes: seq<Lane>)        // `visualize_all_lanes()` and the lanes it draws
    | Exit                                 // leave the event loop

  datatype Outcome = Outcome(state: State, effect: Effect)

  // Key codes after `& 0xFF` (roi.py line 206).
  const KeyEsc: int := 27
  const KeyLane1: int := '1' as int
  const KeyLane2: int := '2' as int
  const KeyLane3: int := '3' as int
  const KeyResetLane: int := 'r' as int
  const KeyResetAll: int := 'a' as int
  const KeySave: int := 's' as int
  const KeyLoad: int := 'l' as int
  const KeyVisualize: int := 'v' as int

  /** `cv2.waitKey(1) & 0xFF`: the low eight bits of the raw code, so "no key" (-1) reads 255. */
  function KeyCode(raw: int): (k: int)
    ensures 0 <= k < 256 && (raw - k) % 256 == 0
  {
    raw % 256
  }

  /**
   * `mouse_callback`: a left click appends the cursor position to the active
   * lane unless it is complete; a right click completes the active lane when
   * it has more than two points and is not yet complete, and shows its mask;
   * every other event changes nothing. No click touches another lane.
   */
  function OnMouse(s: State, event: MouseEvent, x: int, y: int): (r: Outcome)
    requires Valid(s)
    ensures Valid(r.state) && r.state.current == s.current
    ensures forall l: Lane :: l != s.current ==>
      r.state.lanes.Get(l) == s.lanes.Get(l) && r.state.complete.Get(l) == s.complete.Get(l)
  {
    var c := s.current;
    if event == LeftButtonDown && !s.complete.Get(c) then
      Outcome(s.(lanes := s.lanes.Set(c, s.lanes.Get(c) + [(x, y)])), Quiet)
    else if event == RightButtonDown && |s.lanes.Get(c)| > 2 && !s.complete.Get(c) then
      Outcome(s.(complete := s.complete.Set(c, true)), ShowMask(c))
    else
      Outcome(s, Quiet)
  }

  /** The lanes among `order` that the combined visualisation draws (roi.py line 144). */
  function OverlaySelection(s: State, order: seq<Lane>): (r: seq<Lane>)
    ensures forall l: Lane :: l in r <==> l in order && |s.lanes.Get(l)| > 2 && s.complete.Get(l)
    ensures |r| <= |order|
  {
    if order == [] then []
    else
      var l := order[0];
      (if |s.lanes.Get(l)| > 2 && s.complete.Get(l) then [l] else []) + OverlaySelection(s, order[1..])
  }

  /** The lanes `visualize_all_lanes` fills and outlines, in dictionary order. */
  function OverlayLanes(s: State): (r: seq<Lane>)
    ensures forall l: Lane :: l in r <==> |s.lanes.Get(l)| > 2 && s.complete.Get(l)
  {
    assert AllLanes == [Lane1, Lane2, Lane3];
    OverlaySelection(s, AllLanes)
  }

  /** `r`: the active lane becomes empty and incomplete; its mask windows close. */
  function ResetLane(s: State): (r: Outcome)
    ensures r.state.current == s.current && r.effect == CloseMaskWindows([s.current])
    ensures r.state.lanes.Get(s.current) == [] && !r.state.complete.Get(s.current)
    ensures forall l: Lane :: l != s.current ==>
      r.state.lanes.Get(l) == s.lanes.Get(l) && r.state.complete.Get(l) == s.complete.Get(l)
    ensures Valid(s) ==> Valid(r.state)
  {
    Outcome(s.(lanes := s.lanes.Set(s.current, []), complete := s.complete.Set(s.current, false)),
            CloseMaskWindows([s.current]))
  }

  /** `a`: every lane becomes empty and incomplete; every lane's mask windows close. */
  function ResetAll(s: State): (r: Outcome)
    ensures r.state.current == s.current && r.effect == CloseMaskWindows(AllLanes)
    ensures forall l: Lane :: r.state.lanes.Get(l) == [] && !r.state.complete.Get(l)
    ensures Valid(r.state)
  {
    Outcome(State(EmptyLanes(), NoneComplete(), s.current), CloseMaskWindows(AllLanes))
  }

  /**
   * One key of the event loop. `file` is what reading the lanes file would
   * produce at that moment; only the load key looks at it.
   */
  function OnKey(s: State, key: int, file: Option<Document>): (r: Outcome)
    requires Valid(s)
    ensures Valid(r.state)
    ensures r.effect == Exit <==> key == KeyEsc
    ensures key != KeyResetLane && key != KeyResetAll && key != KeyLoad ==>
      r.state.lanes == s.lanes && r.state.complete == s.complete
    ensures key != KeyLane1 && key != KeyLane2 && key != KeyLane3 ==> r.state.current == s.current
  {
    if key == KeyEsc then Outcome(s, Exit)
    else if key == KeyLane1 then Outcome(s.(current := Lane1), Quiet)
    else if key == KeyLane2 then Outcome(s.(current := Lane2), Quiet)
    else if key == KeyLane3 then Outcome(s.(current := Lane3), Quiet)
    else if key == KeyResetLane then ResetLane(s)
    else if key == KeyResetAll then ResetAll(s)
    else if key == KeySave then Outcome(s, WriteFile(SaveDoc(s)))
    else if key == KeyLoad then
      LoadFromDocumentValid(s, file);
      var r := LoadState(s, file);
      Outcome(r.state, ReadFile(r.ok, r.masks))
    else if key == KeyVisualize then Outcome(s, ShowOverlay(OverlayLanes(s)))
    else Outcome(s, Quiet)
  }

  /** Loading keeps the invariant, whether or not the file was read. */
  lemma LoadFromDocumentValid(s: State, file: Option<Document>)
    requires Valid(s)
    ensures Valid(LoadState(s, file).state)
  {
    if file.Some? {
      LoadFromDocument(s, file.value);
    }
  }

  // ---------------------------------------------------------------- clicks

  /**
   * A left click appends the point at the end of the active lane iff that
   * lane is not complete; otherwise the state is unchanged. It never touches
   * the completion flags.
   */
  lemma LeftClickAppends(s: State, x: int, y: int)
    requires Valid(s)
    ensures var r := OnMouse(s, LeftButtonDown, x, y);
      && r.effect == Quiet
      && r.state.complete == s.complete
      && (r.state.lanes.Get(s.current) == s.lanes.Get(s.current) + [(x, y)] <==> !s.complete.Get(s.current))
      && (s.complete.Get(s.current) ==> r.state == s)
  {
  }

  /**
   * A right click completes the active lane iff it has more than two points
   * and is not complete yet, and then shows that lane's mask; it never
   * changes a point list.
   */
  lemma RightClickCloses(s: State, x: int, y: int)
    requires Valid(s)
    ensures var r := OnMouse(s, RightButtonDown, x, y);
      && r.state.lanes == s.lanes
      && var closes := |s.lanes.Get(s.current)| > 2 && !s.complete.Get(s.current);
      && (r.effect == ShowMask(s.current) <==> closes)
      && (r.state.complete.Get(s.current) <==> closes || s.complete.Get(s.current))
      && (!closes ==> r.state == s)
  {
  }

  /** Events other than the two button presses change nothing. */
  lemma OtherMouseEventsIgnored(s: State, x: int, y: int)
    requires Valid(s)
    ensures OnMouse(s, OtherMouseEvent, x, y) == Outcome(s, Quiet)
  {
  }

  /**
   * The click sequence (10,10), (50,10), (50,50) on a fresh lane 1 followed
   * by a right click leaves lane 1 complete with exactly those points.
   */
  lemma ClickThreeThenClose()
    ensures var s1 := OnMouse(Initial(), LeftButtonDown, 10, 10).state;
      var s2 := OnMouse(s1, LeftButtonDown, 50, 10).state;
      var s3 := OnMouse(s2, LeftButtonDown, 50, 50).state;
      var r := OnMouse(s3, RightButtonDown, 50, 50);
      && r.state.complete.Get(Lane1)
      && r.state.lanes.Get(Lane1) == [(10, 10), (50, 10), (50, 50)]
      && r.effect == ShowMask(Lane1)
  {
  }

  // ---------------------------------------------------------------- keys

  /** `1`, `2`, `3` select a lane and change no points or flags. */
  lemma SwitchLane(s: State, key: int, file: Option<Document>)
    requires Valid(s)
    requires key == KeyLane1 || key == KeyLane2 || key == KeyLane3
    ensures var r := OnKey(s, key, file);
      && r.state.lanes == s.lanes && r.state.complete == s.complete && r.effect == Quiet
      && r.state.current == (if key == KeyLane1 then Lane1 else if key == KeyLane2 then Lane2 else Lane3)
  {
  }

  /** `r` empties and un-completes the active lane only; the active lane stays the same. */
  lemma ResetLaneOnlyTouchesActive(s: State, file: Option<Document>)
    requires Valid(s)
    ensures var r := OnKey(s, KeyResetLane, file);
      && r.state.current == s.current
      && r.state.lanes.Get(s.current) == [] && !r.state.complete.Get(s.current)
      && (forall l: Lane :: l != s.current ==>
            r.state.lanes.Get(l) == s.lanes.Get(l) && r.state.complete.Get(l) == s.complete.Get(l))
      && r.effect == CloseMaskWindows([s.current])
  {
  }

  /** `a` leaves every lane empty and incomplete, whatever the state before. */
  lemma ResetAllClears(s: State, file: Option<Document>)
    requires Valid(s)
    ensures var r := OnKey(s, KeyResetAll, file);
      && r.state.current == s.current
      && (forall l: Lane :: r.state.lanes.Get(l) == [] && !r.state.complete.Get(l))
      && r.effect == CloseMaskWindows(AllLanes)
  {
  }

  /** `s` writes the saved projection of the lanes and changes no state. */
  lemma SaveKeyWrites(s: State, file: Option<Document>)
    requires Valid(s)
    ensures OnKey(s, KeySave, file) == Outcome(s, WriteFile(SaveDoc(s)))
  {
  }

  /** `l` is `load_from_json` on what the file holds. */
  lemma LoadKeyReads(s: State, file: Option<Document>)
    requires Valid(s)
    ensures var r := OnKey(s, KeyLoad, file); var l := LoadState(s, file);
      r.state == l.state && r.effect == ReadFile(l.ok, l.masks)
  {
  }

  /** Esc ends the loop and changes nothing. */
  lemma EscExits(s: State, file: Option<Document>)
    requires Valid(s)
    ensures OnKey(s, KeyEsc, file) == Outcome(s, Exit)
  {
  }

  /** `v` shows the overlay of the complete lanes and changes nothing. */
  lemma VisualizeKeyShows(s: State, file: Option<Document>)
    requires Valid(s)
    ensures OnKey(s, KeyVisualize, file) == Outcome(s, ShowOverlay(OverlayLanes(s)))
  {
  }

  /** A key bound to nothing, including "no key pressed", changes nothing. */
  lemma UnboundKeyIgnored(s: State, key: int, file: Option<Document>)
    requires Valid(s)
    requires key !in {KeyEsc, KeyLane1, KeyLane2, KeyLane3, KeyResetLane, KeyResetAll, KeySave, KeyLoad, KeyVisualize}
    ensures OnKey(s, key, file) == Outcome(s, Quiet)
  {
  }

  /** With no key pressed, `waitKey` returns -1, which the mask turns into the unbound code 255. */
  lemma NoKeyIsIgnored(s: State, file: Option<Document>)
    requires Valid(s)
    ensures KeyCode(-1) == 255 && OnKey(s, KeyCode(-1), file) == Outcome(s, Quiet)
  {
  }

  /**
   * Under the invariant the visualisation draws exactly the complete lanes;
   * its "more than two points" test never excludes one.
   */
  lemma OverlayShowsCompleteLanes(s: State)
    requires Valid(s)
    ensures forall l: Lane :: l in OverlayLanes(s) <==> s.complete.Get(l)
  {
  }

  /** With no complete lane the visualisation draws nothing. */
  lemma OverlayEmptyWithoutCompleteLanes(s: State)
    requires forall l: Lane :: !s.complete.Get(l)
    ensures OverlayLanes(s) == []
  {
    var order := AllLanes;
    assert OverlaySelection(s, order) == OverlaySelection(s, order[1..]);
    assert OverlaySelection(s, order[1..]) == OverlaySelection(s, order[2..]);
    assert OverlaySelection(s, order[2..]) == OverlaySelection(s, order[3..]);
    assert order[3..] == [];
  }
}
