/**
 * The editor as the program runs it: the module-level `lanes`, `complete`
 * and `current_lane` of roi.py (lines 8-10), updated in place by the mouse
 * callback and the key loop. Each method is proved to perform exactly the
 * step that `Events` and `Persistence` define on values.
 */
module Editor {
  import opened Wrappers
  import opened LaneState
  import opened Persistence
  import opened Events

  class RoiEditor {
    var lanes: ByLane<seq<Point>>
    var complete: ByLane<bool>
    var current: Lane

    /** The three fields as one value. */
    function Snapshot(): State
      reads this
    {
      State(lanes, complete, current)
    }

    /** A completed lane always has more than two points. */
    ghost predicate Valid()
      reads this
    {
      LaneState.Valid(Snapshot())
    }

    /** Program start: every lane empty and open, lane 1 active. */
    constructor ()
      ensures Valid() && Snapshot() == Initial()
    {
      lanes := EmptyLanes();
      complete := NoneComplete();
      current := Lane1;
    }

    /** `mouse_callback` (roi.py lines 45-57), without the drawing. */
    method MouseCallback(event: MouseEvent, x: int, y: int) returns (effect: Effect)
      requires Valid()
      modifies this
      ensures Valid()
      ensures Outcome(Snapshot(), effect) == OnMouse(old(Snapshot()), event, x, y)
    {
      effect := Quiet;
      if event == LeftButtonDown && !complete.Get(current) {
        lanes := lanes.Set(current, lanes.Get(current) + [(x, y)]);
      } else if event == RightButtonDown && |lanes.Get(current)| > 2 && !complete.Get(current) {
        complete := complete.Set(current, true);
        effect := ShowMask(current);
      }
    }

    /** `save_to_json` (roi.py lines 82-98): the document it writes. */
    method Save() returns (doc: Document)
      ensures doc == SaveDoc(Snapshot())
      ensures forall l: Lane ::
        Lookup(TableOf(doc), Name(l)) == if |lanes.Get(l)| > 2 then Some(Points(lanes.Get(l))) else None
    {
      var entries: seq<(string, Entry)> := [];
      for i := 0 to |AllLanes|
        invariant SavedTable(lanes, AllLanes) == entries + SavedTable(lanes, AllLanes[i..])
      {
        var l := AllLanes[i];
        assert AllLanes[i..][1..] == AllLanes[i + 1..];
        if |lanes.Get(l)| > 2 {
          entries := entries + [(Name(l), Points(lanes.Get(l)))];
        }
      }
      assert AllLanes[|AllLanes|..] == [];
      assert entries == SavedTable(lanes, AllLanes);
      SavedTableDistinct(lanes, AllLanes);
      doc := Document(Object(entries));
      SaveEmitsLongLanes(Snapshot());
    }

    /**
     * `load_from_json` (roi.py lines 102-128) given what reading the file
     * produced: its return value and the lanes whose masks it showed.
     */
    method Load(file: Option<Document>) returns (ok: bool, masks: seq<Lane>)
      requires Valid()
      modifies this
      ensures Valid()
      ensures LoadResult(Snapshot(), ok, masks) == LoadState(old(Snapshot()), file)
    {
      masks := [];
      if file.None? {
        ok := false;
        return;
      }
      var doc := file.value;
      LoadFromDocument(Snapshot(), doc);
      lanes := EmptyLanes();
      complete := NoneComplete();
      if doc.lanes.NotAnObject? {
        ok := false;
        return;
      }
      var table := TableOf(doc);
      ghost var final := ApplyTable(Reset, table);
      ok := true;
      var i := 0;
      while i < |table| && ok
        invariant 0 <= i <= |table|
        invariant current == old(current)
        invariant ok ==> ApplyTable(Loading(lanes, complete, masks, true), table[i..]) == final
        invariant !ok ==> Loading(lanes, complete, masks, false) == final
      {
        assert table[i..][1..] == table[i + 1..];
        var (key, entry) := table[i];
        var recognised := Parse(key);
        if recognised.Some? {
          var l := recognised.value;
          match entry
          case Unconvertible =>
            ok := false;
          case Points(ps) =>
            lanes := lanes.Set(l, ps);
            if |ps| > 2 {
              complete := complete.Set(l, true);
              masks := masks + [l];
            }
        }
        i := i + 1;
      }
      assert table[|table|..] == [];
    }

    /** The lane selection of `visualize_all_lanes` (roi.py lines 143-144): the lanes it fills and outlines. */
    method VisualizeAllLanes() returns (shown: seq<Lane>)
      ensures shown == OverlayLanes(Snapshot())
      ensures forall l: Lane :: l in shown ==> complete.Get(l)
    {
      shown := [];
      for i := 0 to |AllLanes|
        invariant OverlaySelection(Snapshot(), AllLanes) == shown + OverlaySelection(Snapshot(), AllLanes[i..])
      {
        var l := AllLanes[i];
        assert AllLanes[i..][1..] == AllLanes[i + 1..];
        ghost var rest := OverlaySelection(Snapshot(), AllLanes[i + 1..]);
        if |lanes.Get(l)| > 2 && complete.Get(l) {
          assert OverlaySelection(Snapshot(), AllLanes[i..]) == [l] + rest;
          shown := shown + [l];
        } else {
          assert OverlaySelection(Snapshot(), AllLanes[i..]) == rest;
        }
      }
      assert AllLanes[|AllLanes|..] == [];
    }

    /**
     * One key of the loop in `main` (roi.py lines 208-240). `file` is what
     * reading the lanes file produces if the key is the load key.
     */
    method HandleKey(key: int, file: Option<Document>) returns (effect: Effect)
      requires Valid()
      modifies this
      ensures Valid()
      ensures Outcome(Snapshot(), effect) == OnKey(old(Snapshot()), key, file)
    {
      if key == KeyEsc {
        effect := Exit;
      } else if key == KeyLane1 {
        current := Lane1;
        effect := Quiet;
      } else if key == KeyLane2 {
        current := Lane2;
        effect := Quiet;
      } else if key == KeyLane3 {
        current := Lane3;
        effect := Quiet;
      } else if key == KeyResetLane {
        lanes := lanes.Set(current, []);
        complete := complete.Set(current, false);
        effect := CloseMaskWindows([current]);
      } else if key == KeyResetAll {
        lanes := EmptyLanes();
        complete := NoneComplete();
        effect := CloseMaskWindows(AllLanes);
      } else if key == KeySave {
        var doc := Save();
        effect := WriteFile(doc);
      } else if key == KeyLoad {
        var ok, masks := Load(file);
        effect := ReadFile(ok, masks);
      } else if key == KeyVisualize {
        var shown := VisualizeAllLanes();
        effect := ShowOverlay(shown);
      } else {
        effect := Quiet;
      }
    }
  }

  /**
   * A session on a fresh editor: three clicks and a right click close lane 1;
   * saving writes lane 1 alone; loading that document back into a reset
   * editor restores lane 1 complete and leaves lanes 2 and 3 empty.
   */
  method CloseSaveResetReload()
  {
    var editor := new RoiEditor();
    var e := editor.MouseCallback(LeftButtonDown, 10, 10);
    e := editor.MouseCallback(LeftButtonDown, 50, 10);
    e := editor.MouseCallback(LeftButtonDown, 50, 50);
    e := editor.MouseCallback(RightButtonDown, 50, 50);
    assert e == ShowMask(Lane1);
    var points := [(10, 10), (50, 10), (50, 50)];
    assert editor.lanes.Get(Lane1) == points && editor.complete.Get(Lane1);

    var doc := editor.Save();
    assert Lookup(TableOf(doc), "lane1") == Some(Points(points)) by {
      assert Name(Lane1) == "lane1";
    }
    assert Lookup(TableOf(doc), Name(Lane2)) == None;

    e := editor.HandleKey(KeyResetAll, None);
    assert editor.lanes.Get(Lane1) == [];
    var ok, masks := editor.Load(Some(doc));
    SaveLoadRoundTrip(State(Uniform(points).Set(Lane2, []).Set(Lane3, []), Uniform(true), Lane1), editor.Snapshot());
    assert ok;
    assert editor.lanes.Get(Lane1) == points && editor.complete.Get(Lane1);
    assert editor.lanes.Get(Lane2) == [] && !editor.complete.Get(Lane2);
  }
}
