/**
 * The editor's lane state (roi.py lines 5-10): three fixed lanes, each an
 * ordered list of image-space points and a completion flag, and the lane
 * that currently receives clicks.
 */
module LaneState {
  import opened Wrappers

  /** An image-space pixel coordinate (x, y). */
  type Point = (int, int)

  /** The three lanes of the program; they are never created or destroyed. */
  datatype Lane = Lane1 | Lane2 | Lane3

  /** The order in which the program's lane dictionaries are iterated. */
  const AllLanes: seq<Lane> := [Lane1, Lane2, Lane3]

  /** The dictionary key under which a lane is kept and persisted. */
  function Name(l: Lane): string
  {
    match l
    case Lane1 => "lane1"
    case Lane2 => "lane2"
    case Lane3 => "lane3"
  }

  /** Recognises a dictionary key as a lane name (`lane_name in lanes`). */
  function Parse(key: string): (r: Option<Lane>)
    ensures forall l: Lane :: r == Some(l) <==> Name(l) == key
  {
    if key == "lane1" then Some(Lane1)
    else if key == "lane2" then Some(Lane2)
    else if key == "lane3" then Some(Lane3)
    else None
  }

  /**
   * A dictionary whose keys are exactly the three lane names, as `lanes` and
   * `complete` are for the whole run: it can be read and overwritten at any
   * lane, but no key is ever added or removed.
   */
  datatype ByLane<T> = ByLane(lane1: T, lane2: T, lane3: T)
  {
    /** `d[name]` */
    function Get(l: Lane): T
    {
      match l
      case Lane1 => lane1
      case Lane2 => lane2
      case Lane3 => lane3
    }

    /** `d[name] = v`: that lane reads `v` afterwards and every other lane is untouched. */
    function Set(l: Lane, v: T): (r: ByLane<T>)
      ensures r.Get(l) == v
      ensures forall m: Lane :: m != l ==> r.Get(m) == Get(m)
    {
      match l
      case Lane1 => this.(lane1 := v)
      case Lane2 => this.(lane2 := v)
      case Lane3 => this.(lane3 := v)
    }
  }

  /** A dictionary holding `v` at every lane. */
  function Uniform<T>(v: T): (d: ByLane<T>)
    ensures forall l: Lane :: d.Get(l) == v
  {
    ByLane(v, v, v)
  }

  /** `{"lane1": [], "lane2": [], "lane3": []}` */
  function EmptyLanes(): ByLane<seq<Point>>
  {
    Uniform([])
  }

  /** `{"lane1": False, "lane2": False, "lane3": False}` */
  function NoneComplete(): ByLane<bool>
  {
    Uniform(false)
  }

  /** `lanes`, `complete` and `current_lane` together. */
  datatype State = State(lanes: ByLane<seq<Point>>, complete: ByLane<bool>, current: Lane)

  /** The editor's invariant: a completed lane always has more than two points. */
  predicate Valid(s: State)
  {
    forall l: Lane :: s.complete.Get(l) ==> |s.lanes.Get(l)| > 2
  }

  /** The state at program start (roi.py lines 8-10): every lane empty and open, lane 1 active. */
  function Initial(): (s: State)
    ensures Valid(s) && s.current == Lane1
    ensures forall l: Lane :: s.lanes.Get(l) == [] && !s.complete.Get(l)
  {
    State(EmptyLanes(), NoneComplete(), Lane1)
  }

  /** Every lane is visited by a loop over `AllLanes`. */
  lemma InAllLanes(l: Lane)
    ensures l in AllLanes
  {
    assert AllLanes[0] == Lane1 && AllLanes[1] == Lane2 && AllLanes[2] == Lane3;
  }

  /** Each lane has its own name, so a persisted key identifies one lane. */
  lemma NamesDistinct(a: Lane, b: Lane)
    ensures Name(a) == Name(b) <==> a == b
  {
    assert Parse(Name(a)) == Some(a);
  }
}
