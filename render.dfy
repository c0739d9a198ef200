/**
 * `drawPath` of each page: clear the canvas, draw nothing for fewer than two
 * points, otherwise stroke the current-floor polyline with a width and a dash
 * pattern.
 *
 * The canvas's backing store has the image's natural size and is displayed at
 * the image's displayed size, so one canvas unit covers `scale` screen pixels.
 * A drawing transform set with `ctx.scale(k, k)` multiplies by `k` before that.
 */
module Render {
  import opened Geometry
  import opened Route
  import opened Variants

  /** The canvas after a redraw: cleared, or the stroked segment with the
      drawing transform's factor, the line width and the dash length (the dash
      pattern is always `[dash, dash]`). */
  datatype Canvas =
    | Blank
    | Stroked(segment: seq<Waypoint>, ctxScale: real, width: real, dash: real)

  function Max(a: real, b: real): real {
    if a < b then b else a
  }

  /** The stroke of each variant; the third version's is the corrected one
      (see DrawPathVer3AsWritten). */
  function DrawPath(v: Variant, segment: seq<Waypoint>, scale: real): (c: Canvas)
    requires scale > 0.0
    ensures c.Blank? <==> |segment| < 2
    ensures c.Stroked? ==> c.segment == segment && c.ctxScale == 1.0 && c.width > 0.0 && c.dash > 0.0
  {
    if |segment| < 2 then Blank
    else match v
      case Frontend => Stroked(segment, 1.0, Max(1.0, 7.0 / scale), Max(2.0, 10.0 / scale))
      case Frontend1 => Stroked(segment, 1.0, 7.0, 10.0)
      case FrontendVer2 => Stroked(segment, 1.0, 7.0, 10.0)
      case FrontendVer3 => Stroked(segment, 1.0, 7.0 / scale, 10.0 / scale)
  }

  /** The third version's stroke as written: `ctx.scale(scale, scale)` on a
      canvas that the page already displays at `scale`. */
  function DrawPathVer3AsWritten(segment: seq<Waypoint>, scale: real): (c: Canvas)
    requires scale > 0.0
    ensures c.Blank? <==> |segment| < 2
    ensures c.Stroked? ==> c.segment == segment && c.ctxScale == scale
  {
    if |segment| < 2 then Blank else Stroked(segment, scale, 7.0 / scale, 10.0 / scale)
  }

  /** Line width in screen pixels. */
  function ScreenWidth(c: Canvas, scale: real): real
    requires c.Stroked?
  {
    c.width * c.ctxScale * scale
  }

  /** Dash length in screen pixels. */
  function ScreenDash(c: Canvas, scale: real): real
    requires c.Stroked?
  {
    c.dash * c.ctxScale * scale
  }

  /** Where a native point of the stroke appears on screen, the canvas being
      placed at `offset` in the map container. */
  function DrawnAt(c: Canvas, offset: Point, scale: real, p: Point): Point
    requires c.Stroked?
  {
    ToScreen(offset, c.ctxScale * scale, p)
  }

  /** The first page keeps the line at least 1 unit wide and the dash at least
      2 units; while the image is shown at no more than 7 times (5 times for the
      dash) its natural size, the line is 7 and the dash 10 screen pixels. */
  lemma FrontendStroke(segment: seq<Waypoint>, scale: real)
    requires scale > 0.0 && |segment| >= 2
    ensures var c := DrawPath(Frontend, segment, scale);
      && c.width >= 1.0 && c.dash >= 2.0
      && (scale <= 7.0 ==> ScreenWidth(c, scale) == 7.0)
      && (scale <= 5.0 ==> ScreenDash(c, scale) == 10.0)
  {
    var c := DrawPath(Frontend, segment, scale);
    if scale <= 7.0 {
      assert 7.0 / scale >= 1.0;
      assert (7.0 / scale) * scale == 7.0;
    }
    if scale <= 5.0 {
      assert 10.0 / scale >= 2.0;
      assert (10.0 / scale) * scale == 10.0;
    }
  }

  /** The second and the second-version pages use a fixed width 7 and dash 10
      whatever the scale, so on screen both grow and shrink with the image. */
  lemma FixedStroke(v: Variant, segment: seq<Waypoint>, scale: real)
    requires v == Frontend1 || v == FrontendVer2
    requires scale > 0.0 && |segment| >= 2
    ensures var c := DrawPath(v, segment, scale);
      && c.width == 7.0 && c.dash == 10.0
      && ScreenWidth(c, scale) == 7.0 * scale && ScreenDash(c, scale) == 10.0 * scale
  {
  }

  /** With the corrected stroke the third version's line is 7 and its dash 10
      screen pixels at every scale, and every node is drawn exactly where the
      marker is placed for it. */
  lemma Ver3StrokeMatchesMarker(segment: seq<Waypoint>, scale: real, offset: Point, p: Point)
    requires scale > 0.0 && |segment| >= 2
    ensures var c := DrawPath(FrontendVer3, segment, scale);
      && ScreenWidth(c, scale) == 7.0 && ScreenDash(c, scale) == 10.0
      && DrawnAt(c, offset, scale, p) == ToScreen(offset, scale, p)
  {
    assert (7.0 / scale) * 1.0 * scale == 7.0;
    assert (10.0 / scale) * 1.0 * scale == 10.0;
  }

  /** As written, the third version draws a node where the marker goes only
      for the image origin or at scale 1. */
  lemma Ver3AsWrittenMisplaces(segment: seq<Waypoint>, scale: real, offset: Point, p: Point)
    requires scale > 0.0 && |segment| >= 2
    ensures var c := DrawPathVer3AsWritten(segment, scale);
      DrawnAt(c, offset, scale, p) == ToScreen(offset, scale, p) <==> p == Origin || scale == 1.0
  {
    if scale != 1.0 {
      assert scale * scale != scale;
      ScreenDependsOnScale(offset, scale * scale, scale, p);
    }
  }

  /** A concrete instance: at half size the node (100, 0) is drawn at x = 25
      while the marker for it stands at x = 50, and the line is 3.5 screen
      pixels wide instead of 7. */
  lemma Ver3AsWrittenExample(segment: seq<Waypoint>)
    requires |segment| >= 2
    ensures var c := DrawPathVer3AsWritten(segment, 0.5);
      && DrawnAt(c, Origin, 0.5, Point(100.0, 0.0)) == Point(25.0, 0.0)
      && ToScreen(Origin, 0.5, Point(100.0, 0.0)) == Point(50.0, 0.0)
      && ScreenWidth(c, 0.5) == 3.5
  {
  }
}
