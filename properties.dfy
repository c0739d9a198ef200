/**
 * What the page operations guarantee, stated over the functions of `Machine`
 * (and so, through the methods' postconditions, over `NavigationSession`).
 */
module Properties {
  import opened Wrappers
  import opened Geometry
  import opened Route
  import opened Variants
  import opened Labels
  import opened MarkerText
  import opened Render
  import opened Machine

  // ---------------------------------------------------------------- marker

  /** In the first two variants a coordinate that is not a number, or (first
      variant) an image that has not loaded, leaves the marker alone; the
      other two show the marker regardless and leave its position alone.
      Otherwise the marker is placed at `offset + p * scale`. */
  lemma MarkerPlacement(env: Env, p: Page, pos: Option<Point>)
    ensures StartNodeDriven(env.variant) && pos.None? ==> MarkerAt(env, p, pos) == p
    ensures !StartNodeDriven(env.variant) && pos.None? ==> MarkerAt(env, p, pos) == p.(markerShown := true)
    ensures env.variant == Frontend && (p.image.None? || !p.image.value.complete) ==> MarkerAt(env, p, pos) == p
    ensures pos.Some? && env.variant != FrontendVer2 &&
            (env.variant == Frontend ==> p.image.Some? && p.image.value.complete) ==>
              MarkerAt(env, p, pos).marker == ToScreen(Offset(env, p), p.scale, pos.value) &&
              MarkerAt(env, p, pos).markerShown
  {
  }

  /** A transform written for a screen point reads back as that point. */
  lemma TransformReadsBack(env: Env, p: Page, q: Point)
    requires env.variant == FrontendVer2 && ReadsBack(env, q)
    ensures ReadMarker(env, p.(transform := TransformFor(env.show, q))) == Some(q)
  {
    ReadBackTranslate(env.show(q.x), env.show(q.y));
  }

  /** Wherever the marker is placed, the next frame reads it back there: from
      `left`/`top`, or from the second version's transform through the regular
      expressions. */
  lemma MarkerReadsBack(env: Env, p: Page, pt: Point)
    requires env.variant == FrontendVer2 ==> ReadsBack(env, ToScreen(Origin, p.scale, pt))
    requires env.variant == Frontend ==> p.image.Some? && p.image.value.complete
    ensures ReadMarker(env, MarkerAt(env, p, Some(pt))) == Some(ToScreen(Offset(env, p), p.scale, pt))
  {
    if env.variant == FrontendVer2 {
      TransformReadsBack(env, p.(markerShown := true), ToScreen(Origin, p.scale, pt));
    }
  }

  // ---------------------------------------------------------------- rescale

  /** Rescaling is skipped without an image, with a zero natural width or, in
      the first two variants, before the image has loaded; otherwise the scale
      becomes `clientWidth / naturalWidth`. Route, index, storage and phase
      never change. */
  lemma RescaleSetsScale(env: Env, p: Page)
    requires Consistent(p)
    ensures !CanRescale(env, p) ==> Rescale(env, p) == p
    ensures CanRescale(env, p) ==>
              Rescale(env, p).scale == p.image.value.clientWidth / p.image.value.naturalWidth
    ensures var q := Rescale(env, p);
      q.fullPath == p.fullPath && q.pathIndex == p.pathIndex && q.storage == p.storage &&
      q.phase == p.phase && q.location == p.location && q.image == p.image
  {
    if CanRescale(env, p) {
      match env.variant
      case FrontendVer2 =>
      case FrontendVer3 =>
      case _ =>
    }
  }

  /** First two variants: on a rescale the marker follows `fullPath[pathIndex]`
      when that node is on the current floor, otherwise the start node when it
      is; the current floor's segment is redrawn, or the canvas cleared for an
      empty route. */
  lemma RescaleFollowsNode(env: Env, p: Page)
    requires Consistent(p) && StartNodeDriven(env.variant) && CanRescale(env, p)
    ensures var q := Rescale(env, p);
      var here := CurrentFloor(env, p);
      var n := |p.fullPath|;
      var onRoute := 0 <= p.pathIndex < n && OnFloor(p.fullPath[p.pathIndex], here.building, here.floor);
      && (onRoute && p.fullPath[p.pathIndex].pos.Some? ==>
            q.marker == ToScreen(Offset(env, p), q.scale, p.fullPath[p.pathIndex].pos.value))
      && (!onRoute && p.startNode.Some? && OnFloor(p.startNode.value, here.building, here.floor) &&
          p.startNode.value.pos.Some? ==>
            q.marker == ToScreen(Offset(env, p), q.scale, p.startNode.value.pos.value))
      && (n > 0 ==> q.canvas == DrawPath(env.variant, SegmentOn(p, here), q.scale))
      && (n == 0 ==> q.canvas == Blank)
  {
  }

  /** Third version: on a rescale the marker goes to `fullPath[pathIndex]`
      when there is a route, to the start node when there is none, and stays
      put when the index points outside the route. */
  lemma Ver3RescalePlacesMarker(env: Env, p: Page)
    requires Consistent(p) && env.variant == FrontendVer3 && CanRescale(env, p)
    ensures var q := Rescale(env, p);
      var n := |p.fullPath|;
      var offset := p.image.value.offset;
      && (0 <= p.pathIndex < n && p.fullPath[p.pathIndex].pos.Some? ==>
            q.marker == ToScreen(offset, q.scale, p.fullPath[p.pathIndex].pos.value) && q.markerShown)
      && (n == 0 && p.startNode.Some? && p.startNode.value.pos.Some? ==>
            q.marker == ToScreen(offset, q.scale, p.startNode.value.pos.value) && q.markerShown)
      && (n > 0 && !(0 <= p.pathIndex < n) ==> q.marker == p.marker)
      && (n > 0 ==> q.canvas == DrawPath(env.variant, SegmentOn(p, CurrentFloor(env, p)), q.scale))
  {
  }

  /** Second version: on a rescale the marker's `left`/`top` follow the
      canvas to the image's offset, the path is redrawn for a non-empty route,
      and the transform is rewritten for `fullPath[pathIndex]` only when
      `pathIndex > 0`. */
  lemma Ver2RescaleRepositions(env: Env, p: Page)
    requires Consistent(p) && env.variant == FrontendVer2 && CanRescale(env, p)
    ensures var q := Rescale(env, p);
      var n := |p.fullPath|;
      && q.marker == p.image.value.offset
      && (n > 0 ==> q.canvas == DrawPath(env.variant, SegmentOn(p, CurrentFloor(env, p)), q.scale))
      && (0 < p.pathIndex < n && p.fullPath[p.pathIndex].pos.Some? &&
          ReadsBack(env, ToScreen(Origin, q.scale, p.fullPath[p.pathIndex].pos.value)) ==>
            ReadMarker(env, q) == Some(ToScreen(Origin, q.scale, p.fullPath[p.pathIndex].pos.value)))
      && (0 < p.pathIndex < n ==> q.markerShown)
      && (p.pathIndex <= 0 ==> q.transform == p.transform)
  {
    var q := Rescale(env, p);
    var n := |p.fullPath|;
    var p1 := p.(scale := ImageScale(p.image.value), marker := p.image.value.offset);
    if 0 < p.pathIndex < n && p.fullPath[p.pathIndex].pos.Some? &&
       ReadsBack(env, ToScreen(Origin, p1.scale, p.fullPath[p.pathIndex].pos.value)) {
      var p3 := p1.(canvas := DrawPath(env.variant, SegmentOn(p, CurrentFloor(env, p)), p1.scale));
      MarkerReadsBack(env, p3, p.fullPath[p.pathIndex].pos.value);
    }
  }

  // ---------------------------------------------------------------- start

  /** Without a start node (first two variants) or with fewer than two route
      nodes, starting does nothing. */
  lemma StartGuard(env: Env, p: Page)
    requires Consistent(p)
    requires (StartNodeDriven(env.variant) && p.startNode.None?) || |p.fullPath| < 2
    ensures Start(env, p) == p
  {
  }

  /** Otherwise the index becomes the first position of a node on the start
      floor; −1 starts nothing; a found index starts the animation (in the
      first two variants only when that node has coordinates). The route and
      the storage are untouched. */
  lemma StartPicksFirstIndex(env: Env, p: Page)
    requires Consistent(p)
    requires StartNodeDriven(env.variant) ==> p.startNode.Some?
    requires |p.fullPath| >= 2
    ensures var here := StartFloor(env, p);
      var q := Start(env, p);
      && q.pathIndex == FindFirstIndex(p.fullPath, here.building, here.floor)
      && q.fullPath == p.fullPath && q.storage == p.storage && q.location == p.location
      && (q.pathIndex == -1 ==> q.phase == p.phase && q.marker == p.marker && q.transform == p.transform)
      && (q.pathIndex >= 0 && (!StartNodeDriven(env.variant) || p.fullPath[q.pathIndex].pos.Some?) ==>
            q.phase == Animating)
      && (q.pathIndex >= 0 && StartNodeDriven(env.variant) && p.fullPath[q.pathIndex].pos.None? ==>
            q.phase == p.phase)
  {
    var here := StartFloor(env, p);
    var i := FindFirstIndex(p.fullPath, here.building, here.floor);
    var p1 := p.(canvas := DrawPath(env.variant, SegmentOn(p, here), p.scale), pathIndex := i);
    if i >= 0 && env.variant == FrontendVer3 {
      RescaleSetsScale(env, p1);
    }
  }

  /** A found index puts the marker on that node's screen position: at the
      current scale in the first two versions and the second version (read
      back from its transform), at the rescaled scale in the third. */
  lemma StartPlacesMarker(env: Env, p: Page)
    requires Consistent(p)
    requires StartNodeDriven(env.variant) ==> p.startNode.Some?
    requires |p.fullPath| >= 2
    ensures var here := StartFloor(env, p);
      var q := Start(env, p);
      var i := FindFirstIndex(p.fullPath, here.building, here.floor);
      && (i >= 0 && p.fullPath[i].pos.Some? && StartNodeDriven(env.variant) &&
          (env.variant == Frontend ==> p.image.Some? && p.image.value.complete) ==>
            q.marker == ToScreen(Offset(env, p), p.scale, p.fullPath[i].pos.value) && q.markerShown)
      && (i >= 0 && p.fullPath[i].pos.Some? && env.variant == FrontendVer2 &&
          ReadsBack(env, ToScreen(Origin, p.scale, p.fullPath[i].pos.value)) ==>
            ReadMarker(env, q) == Some(ToScreen(Origin, p.scale, p.fullPath[i].pos.value)) && q.markerShown)
      && (i >= 0 && p.fullPath[i].pos.Some? && env.variant == FrontendVer3 && CanRescale(env, p) ==>
            q.marker == ToScreen(p.image.value.offset, q.scale, p.fullPath[i].pos.value) && q.markerShown &&
            q.scale == ImageScale(p.image.value))
      && ((i >= 0 && p.fullPath[i].pos.None? &&
           (env.variant == FrontendVer2 || (env.variant == FrontendVer3 && CanRescale(env, p)))) ==>
            q.markerShown)
  {
    var here := StartFloor(env, p);
    var i := FindFirstIndex(p.fullPath, here.building, here.floor);
    var p1 := p.(canvas := DrawPath(env.variant, SegmentOn(p, here), p.scale), pathIndex := i);
    if i >= 0 {
      match env.variant
      case FrontendVer3 =>
        if CanRescale(env, p) {
          Ver3RescalePlacesMarker(env, p1);
          RescaleSetsScale(env, p1);
        }
      case FrontendVer2 =>
        if p.fullPath[i].pos.Some? && ReadsBack(env, ToScreen(Origin, p.scale, p.fullPath[i].pos.value)) {
          MarkerReadsBack(env, p1, p.fullPath[i].pos.value);
        }
      case _ =>
    }
  }

  /** The path drawn when a route starts is the start floor's nodes of the
      route, in route order, and every node of that floor. */
  lemma StartDrawsFloorSegment(env: Env, p: Page)
    requires Consistent(p)
    requires StartNodeDriven(env.variant) ==> p.startNode.Some?
    requires |p.fullPath| >= 2
    requires env.variant != FrontendVer3
    ensures var here := StartFloor(env, p);
      var q := Start(env, p);
      var seg := FloorSegment(p.fullPath, here.building, here.floor);
      && q.canvas == DrawPath(env.variant, seg, p.scale)
      && SelectedAt(seg, p.fullPath, FloorIndices(p.fullPath, here.building, here.floor, 0))
      && (forall k :: 0 <= k < |seg| ==> OnFloor(seg[k], here.building, here.floor))
      && (forall i :: 0 <= i < |p.fullPath| && OnFloor(p.fullPath[i], here.building, here.floor) ==>
            i in FloorIndices(p.fullPath, here.building, here.floor, 0))
  {
    var here := StartFloor(env, p);
    FloorSegmentIsOrderedSelection(p.fullPath, here.building, here.floor);
  }

  // ---------------------------------------------------------------- frames

  /** At the last index the first two variants snap the marker to the final
      node and stop with the arrival alert; the other two stop with the alert
      at any index from the last one on, without moving the marker. */
  lemma ArrivalStops(env: Env, p: Page)
    requires Consistent(p)
    ensures StartNodeDriven(env.variant) && 0 <= p.pathIndex == |p.fullPath| - 1 ==>
              Animate(env, p) == MarkerAt(env, p, p.fullPath[p.pathIndex].pos).(phase := Arrived)
    ensures !StartNodeDriven(env.variant) && p.pathIndex >= |p.fullPath| - 1 ==>
              Animate(env, p) == p.(phase := Arrived)
  {
  }

  /** First two variants: any other index outside the route's inner nodes, or
      a current or next node without coordinates, stops with an error and
      changes nothing else. */
  lemma BadFrameHalts(env: Env, p: Page)
    requires Consistent(p) && StartNodeDriven(env.variant)
    ensures (p.pathIndex < 0 || p.pathIndex >= |p.fullPath| - 1) && p.pathIndex != |p.fullPath| - 1 ==>
              Animate(env, p) == p.(phase := Halted)
    ensures 0 <= p.pathIndex < |p.fullPath| - 1 &&
            (p.fullPath[p.pathIndex].pos.None? || p.fullPath[p.pathIndex + 1].pos.None?) ==>
              Animate(env, p) == p.(phase := Halted)
  {
  }

  /** A transition node is handed off before any movement. */
  lemma TransitionComesFirst(env: Env, p: Page)
    requires Consistent(p) && 0 <= p.pathIndex < |p.fullPath| - 1
    requires p.fullPath[p.pathIndex].isTransition
    requires StartNodeDriven(env.variant) ==>
               p.fullPath[p.pathIndex].pos.Some? && p.fullPath[p.pathIndex + 1].pos.Some?
    ensures Animate(env, p) == Handoff(env, p, p.fullPath[p.pathIndex])
  {
  }

  /** The handoff stores exactly the nodes after the current one and navigates
      to the target floor (with an `F` appended in the first two variants);
      a missing target, or in the first two variants a partial one, stops
      without touching the storage or the location. */
  lemma HandoffStoresSuffix(env: Env, p: Page, node: Waypoint)
    requires 0 <= p.pathIndex < |p.fullPath|
    ensures var q := Handoff(env, p, node);
      && q.fullPath == p.fullPath && q.pathIndex == p.pathIndex
      && q.marker == p.marker && q.transform == p.transform
      && (q.phase == HandedOff <==>
            node.transitionTo.Some? &&
            (StartNodeDriven(env.variant) ==>
               node.transitionTo.value.building != "" && node.transitionTo.value.floor != ""))
      && (q.phase == HandedOff ==>
            q.storage == p.storage[RemainingPathKey := p.fullPath[p.pathIndex + 1..]] &&
            q.location == Some(NavigationUrl(node.transitionTo.value.building, node.transitionTo.value.floor,
                                             FloorSuffix(env.variant))))
      && (q.phase != HandedOff ==> q.phase == Halted && q.storage == p.storage && q.location == p.location)
  {
    RemainingIsSuffix(p.fullPath, p.pathIndex);
  }

  /** In the moving part of a frame, the first two variants move from the
      marker's `left`/`top`; the others from the marker as read back, and a
      next node without coordinates makes the frame change nothing (a `NaN`
      target). */
  lemma AnimateSteps(env: Env, p: Page)
    requires Consistent(p) && 0 <= p.pathIndex < |p.fullPath| - 1
    requires !p.fullPath[p.pathIndex].isTransition
    requires env.variant == Frontend ==> p.image.Some? && p.image.value.complete
    requires env.variant == FrontendVer3 ==> p.image.Some?
    ensures var next := p.fullPath[p.pathIndex + 1].pos;
      && (StartNodeDriven(env.variant) && p.fullPath[p.pathIndex].pos.Some? && next.Some? ==>
            Animate(env, p) == Step(env, p, p.marker, ToScreen(Offset(env, p), p.scale, next.value)))
      && (!StartNodeDriven(env.variant) && ReadMarker(env, p).Some? && next.Some? ==>
            Animate(env, p) == Step(env, p, ReadMarker(env, p).value, ToScreen(Offset(env, p), p.scale, next.value)))
      && (!StartNodeDriven(env.variant) && ReadMarker(env, p).Some? && next.None? ==> Animate(env, p) == p)
      && (env.variant == FrontendVer2 && ReadMarker(env, p).None? ==> Animate(env, p) == p.(phase := Halted))
  {
  }

  /** Closer than the marker speed, a frame advances the index by exactly one
      and requests the next frame; the first two variants leave the marker
      where it is, the second version snaps it onto the next node, the third
      re-syncs it to the next node's screen position. */
  lemma StepAdvances(env: Env, p: Page, cur: Point, target: Point)
    requires Consistent(p) && 0 <= p.pathIndex < |p.fullPath| - 1
    requires Distance(env.sqrt, cur, target) < MarkerSpeed
    ensures var q := Step(env, p, cur, target);
      var next := p.fullPath[p.pathIndex + 1].pos;
      && q.pathIndex == p.pathIndex + 1 && q.fullPath == p.fullPath
      && q.phase == p.phase && q.storage == p.storage && q.location == p.location
      && (StartNodeDriven(env.variant) ==> q.marker == p.marker && q.transform == p.transform)
      && (env.variant == FrontendVer2 && next.Some? && ReadsBack(env, ToScreen(Origin, p.scale, next.value)) ==>
            ReadMarker(env, q) == Some(ToScreen(Origin, p.scale, next.value)))
      && (env.variant == FrontendVer3 && CanRescale(env, p) && next.Some? ==>
            q.marker == ToScreen(p.image.value.offset, q.scale, next.value))
  {
    var next := p.fullPath[p.pathIndex + 1].pos;
    if env.variant == FrontendVer2 && next.Some? && ReadsBack(env, ToScreen(Origin, p.scale, next.value)) {
      MarkerReadsBack(env, p, next.value);
    }
  }

  /** Otherwise a frame keeps the index and moves the marker by exactly the
      marker speed toward the target, leaving it `dist − speed` away. */
  lemma StepMovesBySpeed(env: Env, p: Page, cur: Point, target: Point)
    requires ExactSqrt(env) && Consistent(p) && 0 <= p.pathIndex < |p.fullPath| - 1
    requires Distance(env.sqrt, cur, target) >= MarkerSpeed
    requires env.variant == FrontendVer2 ==>
               ReadsBack(env, MoveToward(cur, target, Distance(env.sqrt, cur, target), MarkerSpeed))
    ensures var q := Step(env, p, cur, target);
      var dist := Distance(env.sqrt, cur, target);
      && q.pathIndex == p.pathIndex && q.fullPath == p.fullPath && q.phase == p.phase
      && q.storage == p.storage && q.location == p.location
      && ReadMarker(env, q).Some?
      && SqDist(cur, ReadMarker(env, q).value) == MarkerSpeed * MarkerSpeed
      && SqDist(ReadMarker(env, q).value, target) == (dist - MarkerSpeed) * (dist - MarkerSpeed)
  {
    var dist := Distance(env.sqrt, cur, target);
    var moved := MoveToward(cur, target, dist, MarkerSpeed);
    assert dist * dist == SqDist(cur, target);
    MoveCoversSpeed(cur, target, dist, MarkerSpeed);
    MoveLeavesRemainder(cur, target, dist, MarkerSpeed);
    if env.variant == FrontendVer2 {
      TransformReadsBack(env, p, moved);
    }
  }

  /** With an exact square root, a moving frame brings the marker exactly
      `MarkerSpeed` closer to its target, so the count of moving frames left
      on the segment drops by one. */
  lemma StepShortensCount(env: Env, p: Page, cur: Point, target: Point)
    requires ExactSqrt(env) && Consistent(p) && 0 <= p.pathIndex < |p.fullPath| - 1
    requires Distance(env.sqrt, cur, target) >= MarkerSpeed
    requires env.variant == FrontendVer2 ==>
               ReadsBack(env, MoveToward(cur, target, Distance(env.sqrt, cur, target), MarkerSpeed))
    ensures var q := Step(env, p, cur, target);
      var dist := Distance(env.sqrt, cur, target);
      && ReadMarker(env, q).Some?
      && Distance(env.sqrt, ReadMarker(env, q).value, target) == dist - MarkerSpeed
      && MovesToArrive(Distance(env.sqrt, ReadMarker(env, q).value, target), MarkerSpeed) ==
         MovesToArrive(dist, MarkerSpeed) - 1
  {
    var dist := Distance(env.sqrt, cur, target);
    StepMovesBySpeed(env, p, cur, target);
    var now := ReadMarker(env, Step(env, p, cur, target)).value;
    var sq := SqDist(now, target);
    var r := env.sqrt(sq);
    assert 0.0 <= r && r * r == sq;
    RootUnique(r, dist - MarkerSpeed);
  }

  /** `k` successive frames. */
  function AnimateTimes(env: Env, p: Page, k: nat): (q: Page)
    requires Consistent(p)
    ensures Consistent(q)
    decreases k
  {
    if k == 0 then p else AnimateTimes(env, Animate(env, p), k - 1)
  }

  /** The screen point of the next node, which a frame moves the marker toward. */
  function NextTarget(env: Env, p: Page): Point
    requires 0 <= p.pathIndex < |p.fullPath| - 1 && p.fullPath[p.pathIndex + 1].pos.Some?
  {
    ToScreen(Offset(env, p), p.scale, p.fullPath[p.pathIndex + 1].pos.value)
  }

  /** The frames that can run on a segment: an inner, non-transition node whose
      successor has coordinates (and the current node too in the first two
      variants), with the image each variant needs. */
  predicate OnSegment(env: Env, p: Page) {
    && 0 <= p.pathIndex < |p.fullPath| - 1
    && !p.fullPath[p.pathIndex].isTransition
    && p.fullPath[p.pathIndex + 1].pos.Some?
    && (StartNodeDriven(env.variant) ==> p.fullPath[p.pathIndex].pos.Some?)
    && (env.variant == Frontend ==> p.image.Some? && p.image.value.complete)
    && (env.variant == FrontendVer3 ==> p.image.Some?)
  }

  /**
   * With an exact square root, the variants that keep the marker in
   * `left`/`top` spend exactly `MovesToArrive(dist, MarkerSpeed)` frames
   * moving along a segment: after them the index is unchanged and the
   * marker is within `MarkerSpeed` of the next node, and the frame after
   * that advances the index.
   */
  lemma {:induction false} SegmentTakesMovesToArrive(env: Env, p: Page)
    requires ExactSqrt(env) && Consistent(p) && env.variant != FrontendVer2 && OnSegment(env, p)
    ensures var k := MovesToArrive(Distance(env.sqrt, p.marker, NextTarget(env, p)), MarkerSpeed);
      var q := AnimateTimes(env, p, k);
      && q.pathIndex == p.pathIndex && q.fullPath == p.fullPath && q.phase == p.phase
      && Distance(env.sqrt, q.marker, NextTarget(env, p)) < MarkerSpeed
      && Animate(env, q).pathIndex == p.pathIndex + 1
    decreases MovesToArrive(Distance(env.sqrt, p.marker, NextTarget(env, p)), MarkerSpeed)
  {
    var target := NextTarget(env, p);
    var dist := Distance(env.sqrt, p.marker, target);
    AnimateSteps(env, p);
    assert Animate(env, p) == Step(env, p, p.marker, target);
    if dist < MarkerSpeed {
      StepAdvancesIndex(env, p, p.marker, target);
    } else {
      var p1 := Animate(env, p);
      StepShortensCount(env, p, p.marker, target);
      assert p1 == p.(marker := MoveToward(p.marker, target, dist, MarkerSpeed));
      assert NextTarget(env, p1) == target;
      SegmentTakesMovesToArrive(env, p1);
    }
  }

  lemma StepAdvancesIndex(env: Env, p: Page, cur: Point, target: Point)
    requires Consistent(p) && 0 <= p.pathIndex < |p.fullPath| - 1
    requires Distance(env.sqrt, cur, target) < MarkerSpeed
    ensures Step(env, p, cur, target).pathIndex == p.pathIndex + 1
  {
    StepAdvances(env, p, cur, target);
  }

  // ---------------------------------------------------------------- restore

  lemma StartKeepsRouteAndStorage(env: Env, p: Page)
    requires Consistent(p)
    ensures Start(env, p).fullPath == p.fullPath && Start(env, p).storage == p.storage
  {
    if !(StartNodeDriven(env.variant) && p.startNode.None?) && |p.fullPath| >= 2 {
      StartPicksFirstIndex(env, p);
    }
  }

  /** A stored route is read, removed and started, so it is consumed once: a
      second restore finds nothing and changes nothing. */
  lemma RestoreConsumesOnce(env: Env, p: Page)
    requires Consistent(p)
    ensures var q := Restore(env, p);
      && RemainingPathKey !in q.storage
      && (RemainingPathKey in p.storage ==>
            q.fullPath == p.storage[RemainingPathKey] && q.storage == p.storage - {RemainingPathKey})
      && (RemainingPathKey !in p.storage ==> q == p)
      && Restore(env, q) == q
  {
    if RemainingPathKey in p.storage {
      StartKeepsRouteAndStorage(env, p.(fullPath := p.storage[RemainingPathKey],
                                        storage := p.storage - {RemainingPathKey}));
    }
  }

  /** A page that handed off stored what the next page of the second or third
      version then follows: the next page's route is exactly the nodes after
      the transition node, the stored copy is gone, and the animation starts
      at the first node of the new floor. */
  lemma HandoffResumesOnNextPage(envA: Env, p: Page, envB: Env, img: Image)
    requires Consistent(p) && !StartNodeDriven(envA.variant) && envB.variant == envA.variant
    requires p.phase == Animating && Animate(envA, p).phase == HandedOff
    requires WellFormed(img)
    ensures 0 <= p.pathIndex < |p.fullPath| - 1
    ensures var stored := p.fullPath[p.pathIndex + 1..];
      var b := Loaded(envB, Initial(envB, Animate(envA, p).storage, false), img);
      && b.fullPath == stored && RemainingPathKey !in b.storage
      && (|stored| >= 2 ==> b.pathIndex == FindFirstIndex(stored, envB.building, envB.floor))
      && (|stored| >= 2 && b.pathIndex >= 0 ==> b.phase == Animating)
  {
    OnlyTransitionsHandOff(envA, p);
    var node := p.fullPath[p.pathIndex];
    HandoffStoresSuffix(envA, p, node);
    var stored := p.fullPath[p.pathIndex + 1..];
    var b0 := Initial(envB, Animate(envA, p).storage, false);
    var p1 := Rescale(envB, b0.(image := Some(img)));
    RescaleSetsScale(envB, b0.(image := Some(img)));
    assert p1.storage[RemainingPathKey] == stored;
    RestoreConsumesOnce(envB, p1);
    var started := p1.(fullPath := stored, storage := p1.storage - {RemainingPathKey});
    if |stored| >= 2 {
      StartPicksFirstIndex(envB, started);
    }
  }

  /** A running animation hands off only at a transition node inside the route. */
  lemma OnlyTransitionsHandOff(env: Env, p: Page)
    requires Consistent(p) && p.phase == Animating && Animate(env, p).phase == HandedOff
    ensures 0 <= p.pathIndex < |p.fullPath| - 1 && p.fullPath[p.pathIndex].isTransition
    ensures Animate(env, p) == Handoff(env, p, p.fullPath[p.pathIndex])
  {
    var n := |p.fullPath|;
    var i := p.pathIndex;
    if 0 <= i < n - 1 && !p.fullPath[i].isTransition {
      if StartNodeDriven(env.variant) {
        if p.fullPath[i].pos.Some? && p.fullPath[i + 1].pos.Some? &&
           !(env.variant == Frontend && (p.image.None? || !p.image.value.complete)) {
          StepKeepsPhase(env, p, p.marker, ToScreen(Offset(env, p), p.scale, p.fullPath[i + 1].pos.value));
        }
      } else if !(env.variant == FrontendVer3 && p.image.None?) && ReadMarker(env, p).Some? &&
                p.fullPath[i + 1].pos.Some? {
        StepKeepsPhase(env, p, ReadMarker(env, p).value,
                       ToScreen(Offset(env, p), p.scale, p.fullPath[i + 1].pos.value));
      }
    }
  }

  lemma StepKeepsPhase(env: Env, p: Page, cur: Point, target: Point)
    requires Consistent(p) && 0 <= p.pathIndex < |p.fullPath| - 1
    ensures Step(env, p, cur, target).phase == p.phase
  {
    if env.variant == FrontendVer3 {
      RescaleSetsScale(env, p.(pathIndex := p.pathIndex + 1));
    }
  }

  /** The first two variants, opened by a handoff (no `qr_id`, so no start
      node), read and remove the stored route but neither draw nor animate
      it: `startPathAnimation` returns at once without a start node. */
  lemma StartNodeDrivenRestoreDropsRoute(env: Env, storage: map<string, seq<Waypoint>>, img: Image)
    requires StartNodeDriven(env.variant) && RemainingPathKey in storage && WellFormed(img)
    ensures var b := Loaded(env, Initial(env, storage, false), img);
      && b.fullPath == storage[RemainingPathKey] && RemainingPathKey !in b.storage
      && b.phase == Idle && b.canvas == Blank && b.location == None
  {
  }

  /** A handoff to a target whose names hold no `&` navigates to the page of
      that building and floor: its `building` parameter is the target's
      building and its `floor` parameter the target's floor with the label
      suffix of the variant. */
  lemma NextPageIsTargetFloor(env: Env, p: Page, node: Waypoint)
    requires Handoff(env, p, node).phase == HandedOff
    requires node.transitionTo.Some? && '&' !in node.transitionTo.value.building &&
             '&' !in node.transitionTo.value.floor
    ensures var q := Handoff(env, p, node);
      var t := node.transitionTo.value;
      && q.location.Some?
      && Navigated(env, q.location.value) ==
           Some(env.(building := t.building, floor := t.floor + FloorSuffix(env.variant)))
  {
    var t := node.transitionTo.value;
    var fs := t.floor + FloorSuffix(env.variant);
    assert forall k :: 0 <= k < |fs| ==> fs[k] != '&';
    NavigationUrlReadsBack(t.building, t.floor, FloorSuffix(env.variant));
  }

  /** The first two variants navigate with `floor=<f>F`; for a database floor
      without an `F` the page the handoff opens works on exactly the target's
      building and floor, and loads the image labelled `<f>F`. */
  lemma HandedOffPageShowsTarget(env: Env, p: Page, node: Waypoint)
    requires StartNodeDriven(env.variant) && Handoff(env, p, node).phase == HandedOff
    requires node.transitionTo.Some? && '&' !in node.transitionTo.value.building &&
             '&' !in node.transitionTo.value.floor && 'F' !in node.transitionTo.value.floor
    ensures var q := Handoff(env, p, node);
      var t := node.transitionTo.value;
      && q.location.Some? && Navigated(env, q.location.value).Some?
      && var next := Navigated(env, q.location.value).value;
         var b := Initial(next, q.storage, false);
         && b.mapTarget == t && CurrentFloor(next, b) == t
         && ImageUrl(next.building, NormaliseFloor(b.mapTarget.floor)) == ImageUrl(t.building, t.floor + "F")
  {
    NextPageIsTargetFloor(env, p, node);
    HandedOffLabel(node.transitionTo.value.floor);
  }

  // ---------------------------------------------------------------- buttons

  /** The route button alerts and changes nothing without both ends or with
      the same node at both; otherwise it cancels the pending frame before it
      installs and starts the answered route (the first two variants refuse an
      empty route). */
  lemma RequestChecks(env: Env, p: Page, response: Option<seq<Waypoint>>)
    requires Consistent(p)
    ensures var r := RequestRoute(env, p, response);
      && (p.startNode.None? || p.destinationNode.None? ==> r == (p, ChooseBoth))
      && ((p.startNode.Some? && p.destinationNode.Some? &&
           SameNode(env, p.startNode.value, p.destinationNode.value)) ==> r == (p, SameStartAndDestination))
      && (p.startNode.Some? && p.destinationNode.Some? &&
          !SameNode(env, p.startNode.value, p.destinationNode.value) ==>
            && (response.None? ==> r.1 == RouteFailed && r.0 == Cancelled(p) && r.0.phase != Animating)
            && (response.Some? && StartNodeDriven(env.variant) && response.value == [] ==>
                  r.1 == RouteFailed && r.0.fullPath == p.fullPath && r.0.phase != Animating)
            && (response.Some? && !(StartNodeDriven(env.variant) && response.value == []) ==>
                  r.1 == Requested && r.0 == Start(env, Cancelled(p).(fullPath := response.value)) &&
                  r.0.fullPath == response.value))
  {
    if response.Some? {
      StartKeepsRouteAndStorage(env, Cancelled(p).(fullPath := response.value));
    }
  }

  /** The swap exchanges start and destination unless the start was fixed by
      a scan; swapping twice restores the page. */
  lemma SwapExchanges(p: Page)
    ensures p.startLocked ==> Swapped(p) == p
    ensures !p.startLocked ==>
              Swapped(p).startNode == p.destinationNode && Swapped(p).destinationNode == p.startNode &&
              Swapped(p).(startNode := p.startNode, destinationNode := p.destinationNode) == p
    ensures Swapped(Swapped(p)) == p
  {
  }

  /** Picking a search result fills only the chosen field. */
  lemma ChoiceFillsField(p: Page, asStart: bool, node: Waypoint)
    ensures asStart ==> Chosen(p, true, node) == p.(startNode := Some(node))
    ensures !asStart ==> Chosen(p, false, node) == p.(destinationNode := Some(node))
    ensures Chosen(p, asStart, node).startLocked == p.startLocked
  {
  }

  /** A scanned node becomes the start and stays it: a later swap leaves it,
      and the first two variants switch the map to the node's floor, which is
      then the floor the route is followed on. */
  lemma ScanLocksStart(env: Env, p: Page, node: Waypoint)
    requires Consistent(p)
    ensures var q := Scanned(env, p, node);
      && q.startNode == Some(node) && q.startLocked
      && Swapped(q) == q
      && q.fullPath == p.fullPath && q.storage == p.storage && q.phase == p.phase
      && (StartNodeDriven(env.variant) ==>
            q.mapTarget == Target(node.building, node.floor) &&
            CurrentFloor(env, q) == q.mapTarget && q.image == Some(Unloaded))
  {
    var p1 := p.(startNode := Some(node), startLocked := true);
    if env.variant == FrontendVer3 {
      RescaleSetsScale(env, p1);
    }
  }

  /** A resize of the second version rescales to the new displayed width and
      moves the canvas and the marker to the image's new offset. */
  lemma ResizeRescales(env: Env, p: Page, clientWidth: real, offset: Point)
    requires Consistent(p) && clientWidth > 0.0 && env.variant == FrontendVer2
    requires p.image.Some? && p.image.value.naturalWidth > 0.0
    ensures var q := Resized(env, p, clientWidth, offset);
      && q.scale * p.image.value.naturalWidth == clientWidth
      && q.marker == offset
      && q.fullPath == p.fullPath && q.pathIndex == p.pathIndex && q.phase == p.phase
  {
    var img := p.image.value.(clientWidth := clientWidth, offset := offset);
    RescaleSetsScale(env, p.(image := Some(img)));
  }
}
