/**
 * The route model shared by the floor-plan pages: the whole cross-floor route
 * (`fullPath`), the order-preserving current-floor segment (`Array.filter`),
 * the first index of the current floor (`Array.findIndex`) and the remaining
 * suffix handed to the next page (`Array.slice`).
 */
module Route {
  import opened Wrappers
  import opened Geometry

  /** `transition_to` of a transition node; an empty string stands for a
      missing or empty (falsy) field. */
  datatype Target = Target(building: string, floor: string)

  /**
   * One node as the routing and lookup services return it. `id` is the
   * database key, `qrId` the nullable `qr_id`; `pos` is `None` when one of the
   * coordinates is not a number. The route nodes' `x`/`y` keys and the lookup
   * nodes' `pixel_x`/`pixel_y` keys both become `pos`.
   */
  datatype Waypoint = Waypoint(
    id: int,
    qrId: Option<string>,
    building: string,
    floor: string,
    pos: Option<Point>,
    isTransition: bool,
    transitionType: string,
    transitionTo: Option<Target>)

  predicate OnFloor(w: Waypoint, building: string, floor: string) {
    w.building == building && w.floor == floor
  }

  /** `path.filter(node => node.building === building && node.floor === floor)` */
  function FloorSegment(path: seq<Waypoint>, building: string, floor: string): (seg: seq<Waypoint>)
    ensures |seg| <= |path|
    ensures forall k :: 0 <= k < |seg| ==> OnFloor(seg[k], building, floor)
  {
    if path == [] then []
    else if OnFloor(path[0], building, floor) then [path[0]] + FloorSegment(path[1..], building, floor)
    else FloorSegment(path[1..], building, floor)
  }

  /** The positions in `path` (counted from `base`) of the nodes on the floor, in order. */
  function FloorIndices(path: seq<Waypoint>, building: string, floor: string, base: nat): seq<nat>
  {
    if path == [] then []
    else if OnFloor(path[0], building, floor) then [base] + FloorIndices(path[1..], building, floor, base + 1)
    else FloorIndices(path[1..], building, floor, base + 1)
  }

  predicate Increasing(idx: seq<nat>) {
    forall j, k :: 0 <= j < k < |idx| ==> idx[j] < idx[k]
  }

  /** `seg` is picked out of `path` at the strictly increasing positions `idx`. */
  ghost predicate SelectedAt(seg: seq<Waypoint>, path: seq<Waypoint>, idx: seq<nat>) {
    SelectedFrom(seg, path, idx, 0) && Increasing(idx)
  }

  /**
   * The current-floor segment keeps the route's order and drops exactly the
   * nodes of other floors: it is `path` read at increasing positions, and
   * every node of `path` on the floor is read at one of them.
   */
  lemma {:induction false} FloorSegmentIsOrderedSelection(path: seq<Waypoint>, building: string, floor: string)
    ensures SelectedAt(FloorSegment(path, building, floor), path, FloorIndices(path, building, floor, 0))
    ensures forall i :: 0 <= i < |path| && OnFloor(path[i], building, floor) ==>
              i in FloorIndices(path, building, floor, 0)
  {
    SelectionFrom(path, building, floor, 0);
  }

  lemma {:induction false} SelectionFrom(path: seq<Waypoint>, building: string, floor: string, base: nat)
    ensures var idx := FloorIndices(path, building, floor, base);
      && SelectedFrom(FloorSegment(path, building, floor), path, idx, base)
      && Increasing(idx)
      && (forall i :: 0 <= i < |path| && OnFloor(path[i], building, floor) ==> base + i in idx)
  {
    SelectedPositions(path, building, floor, base);
    IncreasingPositions(path, building, floor, base);
    AllPositions(path, building, floor, base);
  }

  /** `seg[k]` is `path[idx[k] - base]`, and every position lies inside `path`. */
  ghost predicate SelectedFrom(seg: seq<Waypoint>, path: seq<Waypoint>, idx: seq<nat>, base: nat) {
    && |idx| == |seg|
    && forall k :: 0 <= k < |idx| ==>
         (base <= idx[k] < base + |path| && seg[k] == path[idx[k] - base])
  }

  lemma {:induction false} SelectedPositions(path: seq<Waypoint>, building: string, floor: string, base: nat)
    ensures SelectedFrom(FloorSegment(path, building, floor), path, FloorIndices(path, building, floor, base), base)
  {
    if path != [] {
      SelectedPositions(path[1..], building, floor, base + 1);
    }
  }

  lemma {:induction false} IncreasingPositions(path: seq<Waypoint>, building: string, floor: string, base: nat)
    ensures Increasing(FloorIndices(path, building, floor, base))
  {
    if path != [] {
      IncreasingPositions(path[1..], building, floor, base + 1);
      SelectedPositions(path[1..], building, floor, base + 1);
      var rest := FloorIndices(path[1..], building, floor, base + 1);
      assert forall m :: 0 <= m < |rest| ==> base + 1 <= rest[m];
      if OnFloor(path[0], building, floor) {
        var idx := [base] + rest;
        assert FloorIndices(path, building, floor, base) == idx;
        forall j, k | 0 <= j < k < |idx| ensures idx[j] < idx[k] {
          assert idx[k] == rest[k - 1];
          if j > 0 { assert idx[j] == rest[j - 1]; }
        }
      } else {
        assert FloorIndices(path, building, floor, base) == rest;
      }
    }
  }

  lemma {:induction false} AllPositions(path: seq<Waypoint>, building: string, floor: string, base: nat)
    ensures forall i :: 0 <= i < |path| && OnFloor(path[i], building, floor) ==>
              base + i in FloorIndices(path, building, floor, base)
  {
    if path != [] {
      AllPositions(path[1..], building, floor, base + 1);
      var rest := FloorIndices(path[1..], building, floor, base + 1);
      forall i | 0 < i < |path| && OnFloor(path[i], building, floor)
        ensures base + i in FloorIndices(path, building, floor, base)
      {
        assert path[1..][i - 1] == path[i];
        assert base + 1 + (i - 1) in rest;
      }
    }
  }

  /** `path.findIndex(node => node.building === building && node.floor === floor)` */
  function FindFirstIndex(path: seq<Waypoint>, building: string, floor: string): (i: int)
    ensures -1 <= i < |path|
    ensures i == -1 <==> forall j :: 0 <= j < |path| ==> !OnFloor(path[j], building, floor)
    ensures i >= 0 ==> OnFloor(path[i], building, floor)
    ensures i >= 0 ==> forall j :: 0 <= j < i ==> !OnFloor(path[j], building, floor)
  {
    if path == [] then -1
    else if OnFloor(path[0], building, floor) then 0
    else
      var r := FindFirstIndex(path[1..], building, floor);
      assert forall j :: 1 <= j < |path| ==> path[1..][j - 1] == path[j];
      if r == -1 then -1 else r + 1
  }

  /** The first current-floor index exists exactly when the segment is non-empty,
      and it points at the segment's first node. */
  lemma {:induction false} FirstIndexStartsSegment(path: seq<Waypoint>, building: string, floor: string)
    ensures FindFirstIndex(path, building, floor) == -1 <==> FloorSegment(path, building, floor) == []
    ensures FindFirstIndex(path, building, floor) >= 0 ==>
              FloorSegment(path, building, floor)[0] == path[FindFirstIndex(path, building, floor)]
  {
    if path != [] && !OnFloor(path[0], building, floor) {
      FirstIndexStartsSegment(path[1..], building, floor);
    }
  }

  /** `s.slice(begin)` for any integer `begin`, negative ones counting from the end. */
  function Slice(s: seq<Waypoint>, begin: int): seq<Waypoint> {
    var from := if begin < 0 then (if |s| + begin < 0 then 0 else |s| + begin)
                else if begin > |s| then |s| else begin;
    s[from..]
  }

  /** The route handed to the next page: `fullPath.slice(pathIndex + 1)`. */
  function RemainingAfter(path: seq<Waypoint>, index: int): seq<Waypoint> {
    Slice(path, index + 1)
  }

  /** For an index on the route, the handed-over route is exactly the nodes after
      it: the route is the consumed prefix followed by the remainder. */
  lemma RemainingIsSuffix(path: seq<Waypoint>, index: int)
    requires 0 <= index < |path|
    ensures |RemainingAfter(path, index)| == |path| - index - 1
    ensures path[..index + 1] + RemainingAfter(path, index) == path
    ensures forall k :: 0 <= k < |RemainingAfter(path, index)| ==>
              RemainingAfter(path, index)[k] == path[index + 1 + k]
  {
    assert path[..index + 1] + path[index + 1..] == path;
  }
}
