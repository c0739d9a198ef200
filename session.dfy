/**
 * A floor-plan page as its script runs it: the module-level variables of
 * `floor.js` are the fields of one object, and each handler or helper that
 * changes them is a method. Every method is proved to change the fields
 * exactly as the matching function of `Machine` says.
 */
module Navigation {
  import opened Wrappers
  import opened Geometry
  import opened Route
  import opened Variants
  import opened Labels
  import opened MarkerText
  import opened Render
  import opened Machine

  class NavigationSession {
    const variant: Variant
    const urlBuilding: string
    const urlFloor: string
    /** The browser's `Math.sqrt`, number-to-text conversion and `parseFloat`. */
    const sqrt: real -> real
    const show: real -> string
    const parse: string -> real

    var startNode: Option<Waypoint>
    var destinationNode: Option<Waypoint>
    var startLocked: bool
    var mapTarget: Target
    var image: Option<Image>
    var scale: real
    var fullPath: seq<Waypoint>
    var pathIndex: int
    var marker: Point
    var transform: string
    var markerShown: bool
    var canvas: Canvas
    var storage: map<string, seq<Waypoint>>
    var location: Option<string>
    var phase: Phase

    function Environment(): Env {
      Env(variant, urlBuilding, urlFloor, sqrt, show, parse)
    }

    function State(): Page
      reads this
    {
      Page(startNode, destinationNode, startLocked, mapTarget, image, scale, fullPath, pathIndex,
           marker, transform, markerShown, canvas, storage, location, phase)
    }

    ghost predicate Valid()
      reads this
    {
      Consistent(State())
    }

    /** The page after its script has run, with the session storage it found. */
    constructor(variant: Variant, building: string, floor: string,
                storage: map<string, seq<Waypoint>>, withQr: bool,
                sqrt: real -> real, show: real -> string, parse: string -> real)
      ensures Valid()
      ensures this.variant == variant && urlBuilding == building && urlFloor == floor
      ensures this.sqrt == sqrt && this.show == show && this.parse == parse
      ensures State() == Initial(Environment(), storage, withQr)
    {
      this.variant := variant;
      urlBuilding := building;
      urlFloor := floor;
      this.sqrt := sqrt;
      this.show := show;
      this.parse := parse;
      startNode := None;
      destinationNode := None;
      startLocked := false;
      mapTarget := if StartNodeDriven(variant) then Target(building, StripFirstF(floor)) else Target(building, floor);
      image := if withQr && StartNodeDriven(variant) then None else Some(Unloaded);
      scale := 1.0;
      fullPath := [];
      pathIndex := 0;
      marker := Origin;
      transform := "";
      markerShown := false;
      canvas := Blank;
      this.storage := storage;
      location := None;
      phase := Idle;
    }

    /** `updateMarkerPosition(x, y)` (the third version's marker update inside
        `updateScaleAndPositions`). */
    method PlaceMarker(pos: Option<Point>)
      requires Valid()
      modifies this
      ensures Valid()
      ensures State() == MarkerAt(Environment(), old(State()), pos)
    {
      match variant {
        case Frontend =>
          if pos.Some? && image.Some? && image.value.complete {
            marker := ToScreen(image.value.offset, scale, pos.value);
            markerShown := true;
          }
        case Frontend1 =>
          if pos.Some? {
            marker := ToScreen(Origin, scale, pos.value);
            markerShown := true;
          }
        case FrontendVer2 =>
          if pos.Some? {
            transform := TransformFor(show, ToScreen(Origin, scale, pos.value));
          }
          markerShown := true;
        case FrontendVer3 =>
          if pos.Some? {
            marker := ToScreen(if image.Some? then image.value.offset else Origin, scale, pos.value);
          }
          markerShown := true;
      }
    }

    /** `updateScaleAndPositions`. */
    method UpdateScaleAndPositions()
      requires Valid()
      modifies this
      ensures Valid()
      ensures State() == Rescale(Environment(), old(State()))
    {
      if image.None? || image.value.naturalWidth == 0.0 || (StartNodeDriven(variant) && !image.value.complete) {
        return;
      }
      scale := ImageScale(image.value);
      var n := |fullPath|;
      if variant == FrontendVer2 {
        marker := image.value.offset;
        if n > 0 {
          canvas := DrawPath(variant, FloorSegment(fullPath, urlBuilding, urlFloor), scale);
          if 0 < pathIndex < n {
            PlaceMarker(fullPath[pathIndex].pos);
          }
        }
      } else if variant == FrontendVer3 {
        if n > 0 {
          canvas := DrawPath(variant, FloorSegment(fullPath, urlBuilding, urlFloor), scale);
        }
        var node := if n == 0 then startNode else if 0 <= pathIndex < n then Some(fullPath[pathIndex]) else None;
        if node.Some? {
          PlaceMarker(node.value.pos);
        }
      } else {
        var here := if startNode.Some? then Target(startNode.value.building, startNode.value.floor)
                    else Target(urlBuilding, StripFirstF(urlFloor));
        canvas := if n > 0 then DrawPath(variant, FloorSegment(fullPath, here.building, here.floor), scale) else Blank;
        if 0 <= pathIndex < n && OnFloor(fullPath[pathIndex], here.building, here.floor) {
          PlaceMarker(fullPath[pathIndex].pos);
        } else if startNode.Some? && OnFloor(startNode.value, here.building, here.floor) {
          PlaceMarker(startNode.value.pos);
        }
      }
    }

    /** `startPathAnimation`; its first `animateMarker` call is the first
        requested frame. */
    method StartPathAnimation()
      requires Valid()
      modifies this
      ensures Valid()
      ensures State() == Start(Environment(), old(State()))
    {
      if StartNodeDriven(variant) && startNode.None? {
        return;
      }
      if |fullPath| < 2 {
        return;
      }
      var here := if StartNodeDriven(variant) then Target(startNode.value.building, startNode.value.floor)
                  else Target(urlBuilding, urlFloor);
      canvas := DrawPath(variant, FloorSegment(fullPath, here.building, here.floor), scale);
      pathIndex := FindFirstIndex(fullPath, here.building, here.floor);
      if pathIndex == -1 {
        return;
      }
      if variant == FrontendVer3 {
        UpdateScaleAndPositions();
      } else if variant == FrontendVer2 {
        PlaceMarker(fullPath[pathIndex].pos);
      } else if fullPath[pathIndex].pos.None? {
        return;
      } else {
        PlaceMarker(fullPath[pathIndex].pos);
      }
      phase := Animating;
    }

    /** `handleTransition(node)`. */
    method HandleTransition(node: Waypoint)
      requires Valid()
      modifies this
      ensures Valid()
      ensures State() == Handoff(Environment(), old(State()), node)
    {
      match node.transitionTo {
        case None =>
          phase := Halted;
        case Some(t) =>
          if StartNodeDriven(variant) && (t.building == "" || t.floor == "") {
            phase := Halted;
            return;
          }
          storage := storage[RemainingPathKey := RemainingAfter(fullPath, pathIndex)];
          location := Some(NavigationUrl(t.building, t.floor, FloorSuffix(variant)));
          phase := HandedOff;
      }
    }

    /** The last part of `animateMarker`: advance the index when the target is
        closer than the marker speed, otherwise move the marker one step. */
    method MoveMarker(cur: Point, target: Point)
      requires Valid() && 0 <= pathIndex < |fullPath| - 1
      modifies this
      ensures Valid()
      ensures State() == Step(Environment(), old(State()), cur, target)
    {
      var distance := Distance(sqrt, cur, target);
      if distance < MarkerSpeed {
        if variant == FrontendVer2 {
          PlaceMarker(fullPath[pathIndex + 1].pos);
          pathIndex := pathIndex + 1;
        } else if variant == FrontendVer3 {
          pathIndex := pathIndex + 1;
          UpdateScaleAndPositions();
        } else {
          pathIndex := pathIndex + 1;
        }
      } else {
        var moved := MoveToward(cur, target, distance, MarkerSpeed);
        if variant == FrontendVer2 {
          transform := TransformFor(show, moved);
        } else {
          marker := moved;
        }
      }
    }

    /** One `animateMarker` frame callback. */
    method AnimateMarker()
      requires Valid() && phase == Animating
      modifies this
      ensures Valid()
      ensures State() == Animate(Environment(), old(State()))
    {
      var n := |fullPath|;
      var i := pathIndex;
      if StartNodeDriven(variant) {
        if i < 0 || i >= n - 1 {
          if i == n - 1 {
            if i >= 0 {
              PlaceMarker(fullPath[i].pos);
            }
            phase := Arrived;
          } else {
            phase := Halted;
          }
          return;
        }
        var current := fullPath[i];
        var next := fullPath[i + 1];
        if current.pos.None? || next.pos.None? {
          phase := Halted;
          return;
        }
        if current.isTransition {
          HandleTransition(current);
          return;
        }
        if variant == Frontend && (image.None? || !image.value.complete) {
          phase := Halted;
          return;
        }
        var offset := if variant == Frontend then image.value.offset else Origin;
        MoveMarker(marker, ToScreen(offset, scale, next.pos.value));
      } else {
        if i >= n - 1 {
          phase := Arrived;
          return;
        }
        if i < 0 {
          phase := Halted;
          return;
        }
        var current := fullPath[i];
        if current.isTransition {
          HandleTransition(current);
          return;
        }
        if variant == FrontendVer3 && image.None? {
          phase := Halted;
          return;
        }
        var cur := marker;
        if variant == FrontendVer2 {
          var xs := MatchTranslate('X', transform);
          var ys := MatchTranslate('Y', transform);
          if xs.None? || ys.None? {
            phase := Halted;
            return;
          }
          cur := ParsedPoint(parse, xs.value, ys.value);
        }
        var next := fullPath[i + 1].pos;
        if next.None? {
          return;
        }
        var offset := if variant == FrontendVer3 then image.value.offset else Origin;
        MoveMarker(cur, ToScreen(offset, scale, next.value));
      }
    }

    /** The stored-route part of the image's `onload`. */
    method RestoreRoute()
      requires Valid()
      modifies this
      ensures Valid()
      ensures State() == Restore(Environment(), old(State()))
    {
      if RemainingPathKey in storage {
        fullPath := storage[RemainingPathKey];
        storage := storage - {RemainingPathKey};
        StartPathAnimation();
      }
    }

    /** The map image's `onload`. */
    method ImageLoaded(img: Image)
      requires Valid() && WellFormed(img)
      modifies this
      ensures Valid()
      ensures State() == Loaded(Environment(), old(State()), img)
    {
      ghost var before := State();
      image := Some(img);
      assert State() == before.(image := Some(img));
      UpdateScaleAndPositions();
      ghost var rescaled := State();
      if StartNodeDriven(variant) && startNode.Some? && OnFloor(startNode.value, mapTarget.building, mapTarget.floor) {
        PlaceMarker(startNode.value.pos);
      }
      assert State() == (if StartNodeDriven(variant) && rescaled.startNode.Some? &&
                            OnFloor(rescaled.startNode.value, before.mapTarget.building, before.mapTarget.floor)
                         then MarkerAt(Environment(), rescaled, rescaled.startNode.value.pos)
                         else rescaled);
      RestoreRoute();
    }

    /** The window's `resize` handler, with the image's new layout. */
    method Resize(clientWidth: real, offset: Point)
      requires Valid() && clientWidth > 0.0
      modifies this
      ensures Valid()
      ensures State() == Resized(Environment(), old(State()), clientWidth, offset)
    {
      if image.Some? {
        image := Some(image.value.(clientWidth := clientWidth, offset := offset));
      }
      UpdateScaleAndPositions();
    }

    /** The route button's `click` handler, given the service's answer. */
    method RequestPath(response: Option<seq<Waypoint>>) returns (outcome: Outcome)
      requires Valid()
      modifies this
      ensures Valid()
      ensures (State(), outcome) == RequestRoute(Environment(), old(State()), response)
    {
      if startNode.None? || destinationNode.None? {
        return ChooseBoth;
      }
      if SameNode(Environment(), startNode.value, destinationNode.value) {
        return SameStartAndDestination;
      }
      if phase == Animating {
        phase := Idle;
      }
      match response {
        case None =>
          return RouteFailed;
        case Some(route) =>
          if StartNodeDriven(variant) && route == [] {
            return RouteFailed;
          }
          fullPath := route;
          StartPathAnimation();
          return Requested;
      }
    }

    /** The swap button's `click` handler. */
    method Swap()
      requires Valid()
      modifies this
      ensures Valid()
      ensures State() == Swapped(old(State()))
    {
      if startLocked {
        return;
      }
      startNode, destinationNode := destinationNode, startNode;
    }

    /** A click on a search result. */
    method ChooseNode(asStart: bool, node: Waypoint)
      requires Valid()
      modifies this
      ensures Valid()
      ensures State() == Chosen(old(State()), asStart, node)
    {
      if asStart {
        startNode := Some(node);
      } else {
        destinationNode := Some(node);
      }
    }

    /** A successful `fetchNodeByQrId`. */
    method ScanStart(node: Waypoint)
      requires Valid()
      modifies this
      ensures Valid()
      ensures State() == Scanned(Environment(), old(State()), node)
    {
      startNode := Some(node);
      startLocked := true;
      if StartNodeDriven(variant) {
        mapTarget := Target(node.building, node.floor);
        image := Some(Unloaded);
      } else if variant == FrontendVer2 {
        PlaceMarker(node.pos);
      } else {
        UpdateScaleAndPositions();
      }
    }
  }
}
