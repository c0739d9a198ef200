/**
 * The page state of the floor-plan scripts as one value, and each operation of
 * the route-following engine as a function from the old state to the new one.
 * The class in `Navigation` updates its fields in place and is proved to agree
 * with these functions; the lemmas in `Properties` state what they guarantee.
 */
module Machine {
  import opened Wrappers
  import opened Geometry
  import opened Route
  import opened Variants
  import opened Labels
  import opened MarkerText
  import opened Render

  /** The session-storage key of the route handed to the next page. */
  const RemainingPathKey: string := "remainingPath"

  /**
   * Where the marker animation stands. `Animating` means a frame has been
   * requested (`animationFrameId` is live); `Arrived` follows the arrival
   * alert; `HandedOff` follows the navigation to the next floor's page;
   * `Halted` is a stop without a new frame (a logged error, a failed
   * check, or an exception that ended the frame callback).
   */
  datatype Phase = Idle | Animating | Arrived | HandedOff | Halted

  /** The alerts of the route request. */
  datatype Outcome = Requested | ChooseBoth | SameStartAndDestination | RouteFailed

  /**
   * What a page knows from outside: its variant, the `building` and `floor`
   * query parameters, and the browser's `Math.sqrt`, number-to-text and
   * `parseFloat`.
   */
  datatype Env = Env(
    variant: Variant,
    building: string,
    floor: string,
    sqrt: real -> real,
    show: real -> string,
    parse: string -> real)

  /** The host's square root is the exact non-negative root. */
  ghost predicate ExactSqrt(env: Env) {
    forall x :: 0.0 <= x ==> 0.0 <= env.sqrt(x) && env.sqrt(x) * env.sqrt(x) == x
  }

  /** The texts written for the two coordinates of `q` hold no `p` or `(` and
      parse back to those coordinates. (No text map can do this for every
      real number, so it is asked only of the points a lemma writes.) */
  predicate ReadsBack(env: Env, q: Point) {
    && NumberText(env.show(q.x)) && NumberText(env.show(q.y))
    && env.parse(env.show(q.x)) == q.x && env.parse(env.show(q.y)) == q.y
  }

  /** Asking it of one point is no contradiction: some text map and parser
      read any given point back. */
  lemma ReadsBackCanHold(q: Point)
    ensures exists env: Env :: ReadsBack(env, q)
  {
    var show := (r: real) => if r == q.x then "1" else "2";
    var parse := (t: string) => if t == "1" then q.x else q.y;
    var env := Env(Frontend, "", "", (x: real) => x, show, parse);
    assert ReadsBack(env, q);
  }

  /**
   * Every variable of a page script that the engine changes. `mapTarget` is
   * the building and floor `setupMap` was called with; `marker` is the
   * marker's `left`/`top` as numbers, `transform` its CSS transform; `storage`
   * is `sessionStorage`; `location` the URL the page navigated to.
   */
  datatype Page = Page(
    startNode: Option<Waypoint>,
    destinationNode: Option<Waypoint>,
    startLocked: bool,
    mapTarget: Target,
    image: Option<Image>,
    scale: real,
    fullPath: seq<Waypoint>,
    pathIndex: int,
    marker: Point,
    transform: string,
    markerShown: bool,
    canvas: Canvas,
    storage: map<string, seq<Waypoint>>,
    location: Option<string>,
    phase: Phase)

  // The host functions are applied only inside these three, so that the
  // class's methods and the functions below apply them the same way.

  /** `Math.sqrt(dx * dx + dy * dy)` */
  function Distance(sqrt: real -> real, a: Point, b: Point): real {
    sqrt(SqDist(a, b))
  }

  /** The transform written for the screen point `q`. */
  function TransformFor(show: real -> string, q: Point): string {
    TranslateText(show(q.x), show(q.y))
  }

  /** `parseFloat` of the two texts read back from the transform. */
  function ParsedPoint(parse: string -> real, xs: string, ys: string): Point {
    Point(parse(xs), parse(ys))
  }

  /** The scale is positive and the image, if any, is well formed. */
  predicate Consistent(p: Page) {
    p.scale > 0.0 && (p.image.Some? ==> WellFormed(p.image.value))
  }

  /** The page right after its script has run: nothing chosen, no route, the
      map image requested but not loaded (the first two variants, opened with
      a `qr_id`, wait for the node lookup before they request an image). */
  function Initial(env: Env, storage: map<string, seq<Waypoint>>, withQr: bool): (p: Page)
    ensures Consistent(p) && p.storage == storage && p.phase == Idle && p.fullPath == []
  {
    Page(None, None, false,
         if StartNodeDriven(env.variant) then Target(env.building, StripFirstF(env.floor))
         else Target(env.building, env.floor),
         if withQr && StartNodeDriven(env.variant) then None else Some(Unloaded),
         1.0, [], 0, Origin, "", false, Blank, storage, None, Idle)
  }

  /** The image's offset inside the map container, for the variants that use it. */
  function Offset(env: Env, p: Page): Point {
    if UsesOffset(env.variant) && p.image.Some? then p.image.value.offset else Origin
  }

  /** The building and floor the page shows: the start node's in the first two
      variants when there is one, otherwise the query parameters (with the
      first `F` removed in the first two variants). */
  function CurrentFloor(env: Env, p: Page): Target {
    if StartNodeDriven(env.variant) then
      match p.startNode
      case Some(n) => Target(n.building, n.floor)
      case None => Target(env.building, StripFirstF(env.floor))
    else Target(env.building, env.floor)
  }

  function SegmentOn(p: Page, here: Target): seq<Waypoint> {
    FloorSegment(p.fullPath, here.building, here.floor)
  }

  /**
   * `updateMarkerPosition(x, y)`. The first variant needs a loaded image; a
   * coordinate that is not a number leaves the marker alone (checked in the
   * first two variants; in the second version the `NaN` transform is refused
   * by the browser). The third version has no such function: its
   * `updateScaleAndPositions` writes `left`/`top` (refused when `NaN`) and
   * always shows the marker.
   */
  function MarkerAt(env: Env, p: Page, pos: Option<Point>): (q: Page)
    ensures q.(marker := p.marker, transform := p.transform, markerShown := p.markerShown) == p
  {
    match env.variant
    case Frontend =>
      if pos.None? || p.image.None? || !p.image.value.complete then p
      else p.(marker := ToScreen(p.image.value.offset, p.scale, pos.value), markerShown := true)
    case Frontend1 =>
      if pos.None? then p
      else p.(marker := ToScreen(Origin, p.scale, pos.value), markerShown := true)
    case FrontendVer2 =>
      if pos.None? then p.(markerShown := true)
      else p.(transform := TransformFor(env.show, ToScreen(Origin, p.scale, pos.value)), markerShown := true)
    case FrontendVer3 =>
      if pos.None? then p.(markerShown := true)
      else p.(marker := ToScreen(Offset(env, p), p.scale, pos.value), markerShown := true)
  }

  /** Where `animateMarker` finds the marker: `parseFloat` of `left`/`top`, or,
      in the second version, the two regular-expression reads of the
      transform (`None` when either finds nothing, which throws). */
  function ReadMarker(env: Env, p: Page): Option<Point> {
    if env.variant == FrontendVer2 then
      match (MatchTranslate('X', p.transform), MatchTranslate('Y', p.transform))
      case (Some(xs), Some(ys)) => Some(ParsedPoint(env.parse, xs, ys))
      case _ => None
    else Some(p.marker)
  }

  /** The image is there, has a natural size, and (in the first two variants)
      has finished loading. */
  predicate CanRescale(env: Env, p: Page) {
    p.image.Some? && p.image.value.naturalWidth != 0.0 &&
    (StartNodeDriven(env.variant) ==> p.image.value.complete)
  }

  /** `updateScaleAndPositions`: recompute the scale, redraw the current
      floor's path and put the marker back on its node. */
  function Rescale(env: Env, p: Page): (q: Page)
    requires Consistent(p)
    ensures Consistent(q)
  {
    if !CanRescale(env, p) then p
    else
      var p1 := p.(scale := ImageScale(p.image.value));
      var n := |p.fullPath|;
      match env.variant
      case FrontendVer2 =>
        var p2 := p1.(marker := p.image.value.offset);
        if n == 0 then p2
        else
          var p3 := p2.(canvas := DrawPath(env.variant, SegmentOn(p, CurrentFloor(env, p)), p1.scale));
          if 0 < p.pathIndex < n then MarkerAt(env, p3, p.fullPath[p.pathIndex].pos) else p3
      case FrontendVer3 =>
        var p2 := if n > 0 then p1.(canvas := DrawPath(env.variant, SegmentOn(p, CurrentFloor(env, p)), p1.scale)) else p1;
        var node := if n == 0 then p.startNode
                    else if 0 <= p.pathIndex < n then Some(p.fullPath[p.pathIndex]) else None;
        if node.Some? then MarkerAt(env, p2, node.value.pos) else p2
      case _ =>
        var here := CurrentFloor(env, p);
        var p2 := p1.(canvas := if n > 0 then DrawPath(env.variant, SegmentOn(p, here), p1.scale) else Blank);
        if 0 <= p.pathIndex < n && OnFloor(p.fullPath[p.pathIndex], here.building, here.floor) then
          MarkerAt(env, p2, p.fullPath[p.pathIndex].pos)
        else if p.startNode.Some? && OnFloor(p.startNode.value, here.building, here.floor) then
          MarkerAt(env, p2, p.startNode.value.pos)
        else p2
  }

  /** The floor a route is started on: the start node's in the first two
      variants, the page's in the others. */
  function StartFloor(env: Env, p: Page): Target
    requires StartNodeDriven(env.variant) ==> p.startNode.Some?
  {
    if StartNodeDriven(env.variant) then Target(p.startNode.value.building, p.startNode.value.floor)
    else Target(env.building, env.floor)
  }

  /** `startPathAnimation`. The synchronous first call of `animateMarker` is
      the first requested frame. */
  function Start(env: Env, p: Page): (q: Page)
    requires Consistent(p)
    ensures Consistent(q)
  {
    if StartNodeDriven(env.variant) && p.startNode.None? then p
    else if |p.fullPath| < 2 then p
    else
      var here := StartFloor(env, p);
      var i := FindFirstIndex(p.fullPath, here.building, here.floor);
      var p1 := p.(canvas := DrawPath(env.variant, SegmentOn(p, here), p.scale), pathIndex := i);
      if i == -1 then p1
      else if env.variant == FrontendVer3 then Rescale(env, p1).(phase := Animating)
      else if env.variant == FrontendVer2 then MarkerAt(env, p1, p.fullPath[i].pos).(phase := Animating)
      else if p.fullPath[i].pos.None? then p1
      else MarkerAt(env, p1, p.fullPath[i].pos).(phase := Animating)
  }

  /** The label suffix a variant adds to the target floor when navigating. */
  function FloorSuffix(v: Variant): string {
    if StartNodeDriven(v) then "F" else ""
  }

  /** `handleTransition(node)`: the first two variants refuse a missing or
      partial `transition_to`; the others throw on a missing one. */
  function Handoff(env: Env, p: Page, node: Waypoint): (q: Page)
    ensures Consistent(p) ==> Consistent(q)
  {
    match node.transitionTo
    case None => p.(phase := Halted)
    case Some(t) =>
      if StartNodeDriven(env.variant) && (t.building == "" || t.floor == "") then p.(phase := Halted)
      else p.(storage := p.storage[RemainingPathKey := RemainingAfter(p.fullPath, p.pathIndex)],
              location := Some(NavigationUrl(t.building, t.floor, FloorSuffix(env.variant))),
              phase := HandedOff)
  }

  /** The page a handoff navigates to: the same scripts, now reading their
      `building` and `floor` query parameters from `url`. `None` when either
      parameter is missing (a `null` the pages do not guard against). */
  function Navigated(env: Env, url: string): (next: Option<Env>)
    ensures next.Some? ==> next.value.variant == env.variant
    ensures next.Some? <==> UrlParam(url, "building").Some? && UrlParam(url, "floor").Some?
  {
    match (UrlParam(url, "building"), UrlParam(url, "floor"))
    case (Some(b), Some(f)) => Some(env.(building := b, floor := f))
    case _ => None
  }

  /** The marker's move in one frame: it is `dist` from `target`. */
  function Step(env: Env, p: Page, cur: Point, target: Point): (q: Page)
    requires Consistent(p) && 0 <= p.pathIndex < |p.fullPath| - 1
    ensures Consistent(q)
  {
    var dist := Distance(env.sqrt, cur, target);
    if dist < MarkerSpeed then
      if env.variant == FrontendVer2 then
        MarkerAt(env, p, p.fullPath[p.pathIndex + 1].pos).(pathIndex := p.pathIndex + 1)
      else if env.variant == FrontendVer3 then Rescale(env, p.(pathIndex := p.pathIndex + 1))
      else p.(pathIndex := p.pathIndex + 1)
    else
      var moved := MoveToward(cur, target, dist, MarkerSpeed);
      if env.variant == FrontendVer2 then p.(transform := TransformFor(env.show, moved))
      else p.(marker := moved)
  }

  /** One call of the `animateMarker` frame callback. */
  function Animate(env: Env, p: Page): (q: Page)
    requires Consistent(p)
    ensures Consistent(q)
  {
    var n := |p.fullPath|;
    var i := p.pathIndex;
    if StartNodeDriven(env.variant) then
      if i < 0 || i >= n - 1 then
        if i == n - 1 then (if i >= 0 then MarkerAt(env, p, p.fullPath[i].pos) else p).(phase := Arrived)
        else p.(phase := Halted)
      else if p.fullPath[i].pos.None? || p.fullPath[i + 1].pos.None? then p.(phase := Halted)
      else if p.fullPath[i].isTransition then Handoff(env, p, p.fullPath[i])
      else if env.variant == Frontend && (p.image.None? || !p.image.value.complete) then p.(phase := Halted)
      else Step(env, p, p.marker, ToScreen(Offset(env, p), p.scale, p.fullPath[i + 1].pos.value))
    else
      if i >= n - 1 then p.(phase := Arrived)
      else if i < 0 then p.(phase := Halted)
      else if p.fullPath[i].isTransition then Handoff(env, p, p.fullPath[i])
      else if env.variant == FrontendVer3 && p.image.None? then p.(phase := Halted)
      else match ReadMarker(env, p)
        case None => p.(phase := Halted)
        case Some(cur) =>
          match p.fullPath[i + 1].pos
          case None => p
          case Some(next) => Step(env, p, cur, ToScreen(Offset(env, p), p.scale, next))
  }

  /** The stored-route restore of the image's `onload`: read, remove, start. */
  function Restore(env: Env, p: Page): (q: Page)
    requires Consistent(p)
    ensures Consistent(q)
  {
    if RemainingPathKey in p.storage then
      Start(env, p.(fullPath := p.storage[RemainingPathKey], storage := p.storage - {RemainingPathKey}))
    else p
  }

  /** The image's `onload`: rescale, show the start node if it is on the
      loaded map (first two variants), restore a handed-over route. */
  function Loaded(env: Env, p: Page, img: Image): (q: Page)
    requires Consistent(p) && WellFormed(img)
    ensures Consistent(q)
  {
    var p1 := Rescale(env, p.(image := Some(img)));
    var p2 :=
      if StartNodeDriven(env.variant) && p1.startNode.Some? &&
         OnFloor(p1.startNode.value, p.mapTarget.building, p.mapTarget.floor)
      then MarkerAt(env, p1, p1.startNode.value.pos)
      else p1;
    Restore(env, p2)
  }

  /** A window resize: the image is shown at a new width and position. */
  function Resized(env: Env, p: Page, clientWidth: real, offset: Point): (q: Page)
    requires Consistent(p) && clientWidth > 0.0
    ensures Consistent(q)
  {
    if p.image.None? then Rescale(env, p)
    else Rescale(env, p.(image := Some(p.image.value.(clientWidth := clientWidth, offset := offset))))
  }

  /** Start and destination count as the same node: equal `qr_id` in the first
      two variants, equal `id` in the others. */
  predicate SameNode(env: Env, a: Waypoint, b: Waypoint) {
    if StartNodeDriven(env.variant) then a.qrId == b.qrId else a.id == b.id
  }

  /** Cancel the requested frame, if any. */
  function Cancelled(p: Page): Page {
    if p.phase == Animating then p.(phase := Idle) else p
  }

  /** The route button: check both ends, cancel the animation, then install and
      start the route the service answered (`None` for a failed request). */
  function RequestRoute(env: Env, p: Page, response: Option<seq<Waypoint>>): (r: (Page, Outcome))
    requires Consistent(p)
    ensures Consistent(r.0)
  {
    if p.startNode.None? || p.destinationNode.None? then (p, ChooseBoth)
    else if SameNode(env, p.startNode.value, p.destinationNode.value) then (p, SameStartAndDestination)
    else
      var p1 := Cancelled(p);
      match response
      case None => (p1, RouteFailed)
      case Some(route) =>
        if StartNodeDriven(env.variant) && route == [] then (p1, RouteFailed)
        else (Start(env, p1.(fullPath := route)), Requested)
  }

  /** The swap button; a start fixed by a scan stays. */
  function Swapped(p: Page): Page {
    if p.startLocked then p else p.(startNode := p.destinationNode, destinationNode := p.startNode)
  }

  /** A click on a search result for the start or the destination field. */
  function Chosen(p: Page, asStart: bool, node: Waypoint): Page {
    if asStart then p.(startNode := Some(node)) else p.(destinationNode := Some(node))
  }

  /** A successful QR lookup: the node becomes the fixed start; the first two
      variants load that node's floor map, the second version shows the
      marker on it, the third rescales. */
  function Scanned(env: Env, p: Page, node: Waypoint): (q: Page)
    requires Consistent(p)
    ensures Consistent(q)
  {
    var p1 := p.(startNode := Some(node), startLocked := true);
    if StartNodeDriven(env.variant) then
      p1.(mapTarget := Target(node.building, node.floor), image := Some(Unloaded))
    else if env.variant == FrontendVer2 then MarkerAt(env, p1, node.pos)
    else Rescale(env, p1)
  }
}
