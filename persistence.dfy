/**
 * Saving and loading the lanes (roi.py `save_to_json`, lines 82-100, and
 * `load_from_json`, lines 102-128), over the parsed JSON document rather than
 * its text.
 */
module Persistence {
  import opened Wrappers
  import opened LaneState

  /**
   * The value stored under one key of the "lanes" object, as line 119 sees it:
   * a list of points, or something whose conversion to points raises
   * (the list itself or one of its points is not iterable).
   */
  datatype Entry = Points(points: seq<Point>) | Unconvertible

  /** No key occurs twice. */
  predicate DistinctKeys(t: seq<(string, Entry)>)
  {
    forall i, j :: 0 <= i < j < |t| ==> t[i].0 != t[j].0
  }

  /** A JSON object: its keys in document order, each at most once. */
  type Table = t: seq<(string, Entry)> | DistinctKeys(t) witness []

  /**
   * What `data.get('lanes', {})` finds: no "lanes" key (the default `{}`),
   * a value that is not an object (its `.items()` raises), or an object.
   */
  datatype LanesField = Absent | NotAnObject | Object(table: Table)

  /** The parsed file, `{"lanes": {...}}`. */
  datatype Document = Document(lanes: LanesField)

  /** The value of the first entry with the given key. */
  function Lookup(t: seq<(string, Entry)>, key: string): (r: Option<Entry>)
    ensures r.None? <==> forall k :: 0 <= k < |t| ==> t[k].0 != key
    ensures r.Some? ==> exists k :: 0 <= k < |t| && t[k] == (key, r.value)
  {
    if t == [] then None
    else if t[0].0 == key then Some(t[0].1)
    else Lookup(t[1..], key)
  }

  /** In a table with distinct keys, the key at the head is absent from the tail. */
  lemma LookupHead(t: seq<(string, Entry)>)
    requires |t| > 0 && DistinctKeys(t)
    ensures DistinctKeys(t[1..])
    ensures Lookup(t[1..], t[0].0) == None
  {
    var tail := t[1..];
    forall k | 0 <= k < |tail| ensures tail[k].0 != t[0].0 {
      assert tail[k] == t[k + 1];
    }
  }

  // ---------------------------------------------------------------- save

  /**
   * The entries `save_to_json` writes for the lanes in `order`
   * (roi.py lines 86-89): a lane appears iff it has more than two points,
   * with exactly its points.
   */
  function SavedTable(lanes: ByLane<seq<Point>>, order: seq<Lane>): (t: seq<(string, Entry)>)
    ensures forall k :: 0 <= k < |t| ==>
      Parse(t[k].0).Some? && Parse(t[k].0).value in order
  {
    if order == [] then []
    else
      var l := order[0];
      var rest := SavedTable(lanes, order[1..]);
      if |lanes.Get(l)| > 2 then [(Name(l), Points(lanes.Get(l)))] + rest else rest
  }

  /** Looking a lane up in what was saved finds its points iff it has more than two. */
  lemma {:induction false} SavedTableLookup(lanes: ByLane<seq<Point>>, order: seq<Lane>, l: Lane)
    ensures Lookup(SavedTable(lanes, order), Name(l)) ==
      if l in order && |lanes.Get(l)| > 2 then Some(Points(lanes.Get(l))) else None
  {
    if order != [] {
      var rest := SavedTable(lanes, order[1..]);
      NamesDistinct(order[0], l);
      SavedTableLookup(lanes, order[1..], l);
      if |lanes.Get(order[0])| > 2 {
        assert ([(Name(order[0]), Points(lanes.Get(order[0])))] + rest)[1..] == rest;
      }
    }
  }

  /** A lane listed once in `order` is saved at most once, so the saved keys are distinct. */
  lemma {:induction false} SavedTableDistinct(lanes: ByLane<seq<Point>>, order: seq<Lane>)
    requires forall i, j :: 0 <= i < j < |order| ==> order[i] != order[j]
    ensures DistinctKeys(SavedTable(lanes, order))
  {
    if order != [] {
      var l := order[0];
      var tail := order[1..];
      var rest := SavedTable(lanes, tail);
      assert forall i, j :: 0 <= i < j < |tail| ==> tail[i] != tail[j] by {
        forall i, j | 0 <= i < j < |tail| ensures tail[i] != tail[j] {
          assert tail[i] == order[i + 1] && tail[j] == order[j + 1];
        }
      }
      SavedTableDistinct(lanes, tail);
      if |lanes.Get(l)| > 2 {
        var t := [(Name(l), Points(lanes.Get(l)))] + rest;
        forall k | 0 <= k < |rest| ensures rest[k].0 != Name(l) {
          var m := Parse(rest[k].0).value;
          var i :| 0 <= i < |tail| && tail[i] == m;
          assert order[i + 1] == m;
        }
        forall i, j | 0 <= i < j < |t| ensures t[i].0 != t[j].0 {
          assert t[j] == rest[j - 1];
          if i > 0 { assert t[i] == rest[i - 1]; }
        }
      }
    }
  }

  /** The document `save_to_json` writes: `{"lanes": lanes_dict}` (roi.py lines 92-94). */
  function SaveDoc(s: State): (d: Document)
    ensures d.lanes.Object?
  {
    SavedTableDistinct(s.lanes, AllLanes);
    Document(Object(SavedTable(s.lanes, AllLanes)))
  }

  /** Save emits exactly the lanes with more than two points, each with its own points. */
  lemma SaveEmitsLongLanes(s: State)
    ensures forall k :: 0 <= k < |SaveDoc(s).lanes.table| ==>
      Parse(SaveDoc(s).lanes.table[k].0).Some?
    ensures forall l: Lane ::
      Lookup(SaveDoc(s).lanes.table, Name(l)) == if |s.lanes.Get(l)| > 2 then Some(Points(s.lanes.Get(l))) else None
  {
    forall l: Lane
      ensures Lookup(SaveDoc(s).lanes.table, Name(l)) ==
        if |s.lanes.Get(l)| > 2 then Some(Points(s.lanes.Get(l))) else None
    {
      InAllLanes(l);
      SavedTableLookup(s.lanes, AllLanes, l);
    }
  }

  /** Only the lanes with more than two points decide what is saved. */
  lemma {:induction false} SavedTableOnlyReadsLongLanes(a: ByLane<seq<Point>>, b: ByLane<seq<Point>>, order: seq<Lane>)
    requires forall l: Lane :: |a.Get(l)| > 2 || |b.Get(l)| > 2 ==> a.Get(l) == b.Get(l)
    ensures SavedTable(a, order) == SavedTable(b, order)
  {
    if order != [] {
      SavedTableOnlyReadsLongLanes(a, b, order[1..]);
    }
  }

  // ---------------------------------------------------------------- load

  /** The lane dictionaries while `load_from_json` runs, the masks it has shown, and whether it got through. */
  datatype Loading = Loading(lanes: ByLane<seq<Point>>, complete: ByLane<bool>, masks: seq<Lane>, ok: bool)

  /** The reset of roi.py lines 113-114. */
  const Reset: Loading := Loading(EmptyLanes(), NoneComplete(), [], true)

  /**
   * The loop of roi.py lines 117-122: unrecognised keys are skipped; a
   * recognised lane takes the entry's points and, with more than two, is
   * marked complete and has its mask shown; an entry that cannot be converted
   * raises, which ends the load with what was filled so far.
   */
  function ApplyTable(a: Loading, t: seq<(string, Entry)>): (r: Loading)
    ensures r.ok ==> a.ok
    ensures forall l: Lane :: a.complete.Get(l) ==> r.complete.Get(l)
    ensures |a.masks| <= |r.masks| && r.masks[..|a.masks|] == a.masks
    decreases |t|
  {
    if t == [] then a
    else match Parse(t[0].0)
      case None => ApplyTable(a, t[1..])
      case Some(l) =>
        match t[0].1
        case Unconvertible => a.(ok := false)
        case Points(ps) => ApplyTable(Assign(a, l, ps), t[1..])
  }

  /** `lanes[l] = ps`, and with more than two points `complete[l] = True` and `create_mask(l)`. */
  function Assign(a: Loading, l: Lane, ps: seq<Point>): (r: Loading)
    ensures r.lanes.Get(l) == ps && r.ok == a.ok
    ensures r.complete.Get(l) <==> |ps| > 2 || a.complete.Get(l)
    ensures l in r.masks <==> |ps| > 2 || l in a.masks
    ensures forall m: Lane :: m != l ==>
      r.lanes.Get(m) == a.lanes.Get(m) && r.complete.Get(m) == a.complete.Get(m) && (m in r.masks <==> m in a.masks)
  {
    if |ps| > 2 then Loading(a.lanes.Set(l, ps), a.complete.Set(l, true), a.masks + [l], a.ok)
    else a.(lanes := a.lanes.Set(l, ps))
  }

  /** The result of one `load_from_json` call: the new state, its return value, and the lanes whose masks it showed. */
  datatype LoadResult = LoadResult(state: State, ok: bool, masks: seq<Lane>)

  /** The entries of the "lanes" object that the loop visits. */
  function TableOf(d: Document): seq<(string, Entry)>
  {
    match d.lanes
    case Object(t) => t
    case _ => []
  }

  /**
   * `load_from_json` given what reading the file produced: `None` when
   * `open`, `json.load` or `data.get` raised (lines 106-110), which happens
   * before the reset and so leaves the state as it was.
   */
  function LoadState(s: State, file: Option<Document>): (r: LoadResult)
    ensures r.state.current == s.current
    ensures file.None? ==> r == LoadResult(s, false, [])
    ensures r.ok ==> file.Some? && !file.value.lanes.NotAnObject?
  {
    match file
    case None => LoadResult(s, false, [])
    case Some(d) =>
      if d.lanes.NotAnObject? then
        LoadResult(State(Reset.lanes, Reset.complete, s.current), false, [])
      else
        var a := ApplyTable(Reset, TableOf(d));
        LoadResult(State(a.lanes, a.complete, s.current), a.ok, a.masks)
  }

  /** The points a lane gets from an entry, or `otherwise` when it has none. */
  function PointsOr(e: Option<Entry>, otherwise: seq<Point>): seq<Point>
  {
    match e
    case Some(Points(ps)) => ps
    case _ => otherwise
  }

  /** Looking up a lane's key in a non-empty table: the head entry or the rest. */
  lemma LookupStep(t: seq<(string, Entry)>, l: Lane)
    requires |t| > 0
    ensures Lookup(t, Name(l)) == if t[0].0 == Name(l) then Some(t[0].1) else Lookup(t[1..], Name(l))
  {
  }

  /**
   * The head entry of a table with distinct keys, recognised as lane `l0`:
   * no other lane's key is it, and the rest of the table does not mention `l0`.
   */
  lemma HeadNamesOneLane(t: seq<(string, Entry)>, l0: Lane, l: Lane)
    requires |t| > 0 && DistinctKeys(t) && Parse(t[0].0) == Some(l0)
    ensures DistinctKeys(t[1..])
    ensures Lookup(t, Name(l0)) == Some(t[0].1) && Lookup(t[1..], Name(l0)) == None
    ensures l != l0 ==> Lookup(t, Name(l)) == Lookup(t[1..], Name(l))
  {
    LookupHead(t);
    NamesDistinct(l, l0);
  }

  /**
   * The loop keeps "complete iff more than two points" and "mask shown iff
   * complete", provided every lane the table names starts out incomplete.
   */
  lemma {:induction false} ApplyTableKeepsComplete(a: Loading, t: seq<(string, Entry)>)
    requires DistinctKeys(t)
    requires forall l: Lane :: a.complete.Get(l) <==> |a.lanes.Get(l)| > 2
    requires forall l: Lane :: l in a.masks <==> a.complete.Get(l)
    requires forall l: Lane :: Lookup(t, Name(l)).Some? ==> !a.complete.Get(l)
    ensures forall l: Lane :: ApplyTable(a, t).complete.Get(l) <==> |ApplyTable(a, t).lanes.Get(l)| > 2
    ensures forall l: Lane :: l in ApplyTable(a, t).masks <==> ApplyTable(a, t).complete.Get(l)
    decreases |t|
  {
    if t != [] {
      LookupHead(t);
      match Parse(t[0].0)
      case None =>
        forall l: Lane ensures Lookup(t[1..], Name(l)) == Lookup(t, Name(l)) {
          LookupStep(t, l);
        }
        ApplyTableKeepsComplete(a, t[1..]);
      case Some(l0) =>
        match t[0].1
        case Unconvertible =>
        case Points(ps) =>
          var b := Assign(a, l0, ps);
          HeadNamesOneLane(t, l0, l0);
          forall l: Lane ensures Lookup(t[1..], Name(l)).Some? ==> !b.complete.Get(l) {
            HeadNamesOneLane(t, l0, l);
          }
          ApplyTableKeepsComplete(b, t[1..]);
    }
  }

  /** The loop gets through iff no recognised lane's entry is unconvertible. */
  lemma {:induction false} ApplyTableSucceeds(a: Loading, t: seq<(string, Entry)>)
    requires a.ok && DistinctKeys(t)
    ensures ApplyTable(a, t).ok <==> forall l: Lane :: Lookup(t, Name(l)) != Some(Unconvertible)
    decreases |t|
  {
    if t != [] {
      LookupHead(t);
      match Parse(t[0].0)
      case None =>
        forall l: Lane ensures Lookup(t[1..], Name(l)) == Lookup(t, Name(l)) {
          LookupStep(t, l);
        }
        ApplyTableSucceeds(a, t[1..]);
      case Some(l0) =>
        HeadNamesOneLane(t, l0, l0);
        match t[0].1
        case Unconvertible =>
        case Points(ps) =>
          forall l: Lane ensures Lookup(t, Name(l)) != Some(Unconvertible) <==> Lookup(t[1..], Name(l)) != Some(Unconvertible) {
            HeadNamesOneLane(t, l0, l);
          }
          ApplyTableSucceeds(Assign(a, l0, ps), t[1..]);
    }
  }

  /**
   * Each lane ends with its starting points or with exactly its entry's
   * points; when the loop gets through, every lane the table names holds its
   * entry's points and every other lane keeps its starting points.
   */
  lemma {:induction false} ApplyTableCopiesPoints(a: Loading, t: seq<(string, Entry)>)
    requires DistinctKeys(t)
    ensures forall l: Lane ::
      ApplyTable(a, t).lanes.Get(l) == a.lanes.Get(l) || Lookup(t, Name(l)) == Some(Points(ApplyTable(a, t).lanes.Get(l)))
    ensures ApplyTable(a, t).ok ==> forall l: Lane ::
      ApplyTable(a, t).lanes.Get(l) == PointsOr(Lookup(t, Name(l)), a.lanes.Get(l))
    decreases |t|
  {
    if t != [] {
      LookupHead(t);
      match Parse(t[0].0)
      case None =>
        forall l: Lane ensures Lookup(t[1..], Name(l)) == Lookup(t, Name(l)) {
          LookupStep(t, l);
        }
        ApplyTableCopiesPoints(a, t[1..]);
      case Some(l0) =>
        HeadNamesOneLane(t, l0, l0);
        match t[0].1
        case Unconvertible =>
        case Points(ps) =>
          var b := Assign(a, l0, ps);
          ApplyTableCopiesPoints(b, t[1..]);
          forall l: Lane | l != l0 ensures Lookup(t, Name(l)) == Lookup(t[1..], Name(l)) {
            HeadNamesOneLane(t, l0, l);
          }
    }
  }

  /**
   * Load, whenever the file was read: every lane is reset first; a lane is
   * complete iff it ends with more than two points, and its mask was shown
   * iff it is complete; the call succeeds iff the "lanes" value is an object
   * with no unconvertible recognised entry, and then each lane holds exactly
   * its entry's points (none when the file omits it); after a failure each
   * lane is empty or holds its entry's points.
   */
  lemma LoadFromDocument(s: State, d: Document)
    ensures var r := LoadState(s, Some(d));
      && Valid(r.state)
      && r.state.current == s.current
      && (forall l: Lane :: r.state.complete.Get(l) <==> |r.state.lanes.Get(l)| > 2)
      && (forall l: Lane :: l in r.masks <==> r.state.complete.Get(l))
      && (r.ok <==> !d.lanes.NotAnObject? && forall l: Lane :: Lookup(TableOf(d), Name(l)) != Some(Unconvertible))
      && (forall l: Lane :: r.state.lanes.Get(l) == [] || Lookup(TableOf(d), Name(l)) == Some(Points(r.state.lanes.Get(l))))
      && (r.ok ==> forall l: Lane :: r.state.lanes.Get(l) == PointsOr(Lookup(TableOf(d), Name(l)), []))
  {
    if !d.lanes.NotAnObject? {
      ApplyTableKeepsComplete(Reset, TableOf(d));
      ApplyTableSucceeds(Reset, TableOf(d));
      ApplyTableCopiesPoints(Reset, TableOf(d));
    }
  }

  /**
   * Round trip: loading what `save_to_json` wrote, into any state, succeeds;
   * every lane that had more than two points comes back with the same points
   * and complete, every other lane comes back empty and incomplete, and the
   * active lane is the one of the state loaded into.
   */
  lemma SaveLoadRoundTrip(s: State, into: State)
    ensures var r := LoadState(into, Some(SaveDoc(s)));
      && r.ok
      && r.state.current == into.current
      && forall l: Lane ::
           if |s.lanes.Get(l)| > 2 then r.state.lanes.Get(l) == s.lanes.Get(l) && r.state.complete.Get(l)
           else r.state.lanes.Get(l) == [] && !r.state.complete.Get(l)
  {
    SaveEmitsLongLanes(s);
    LoadFromDocument(into, SaveDoc(s));
  }

  /** Saving again after such a reload writes the same document. */
  lemma SaveLoadSaveStable(s: State, into: State)
    ensures SaveDoc(LoadState(into, Some(SaveDoc(s))).state) == SaveDoc(s)
  {
    var r := LoadState(into, Some(SaveDoc(s)));
    SaveLoadRoundTrip(s, into);
    SavedTableOnlyReadsLongLanes(r.state.lanes, s.lanes, AllLanes);
  }
}
