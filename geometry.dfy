/**
 * Viewport transform of the floor-plan pages: a point in the floor plan's
 * native pixel space is shown at `offset + p * scale` on screen, where
 * `scale = clientWidth / naturalWidth` of the displayed image and `offset`
 * is the image's top-left corner inside its container.
 */
module Geometry {

  datatype Point = Point(x: real, y: real)

  /** The measured state of the floor-plan <img>: loaded or not, natural and
      displayed widths, and its offset inside the map container. */
  datatype Image = Image(complete: bool, naturalWidth: real, clientWidth: real, offset: Point)

  /** Widths are never negative, and an image with a natural size is displayed
      with a positive width. */
  predicate WellFormed(img: Image) {
    img.naturalWidth >= 0.0 && img.clientWidth >= 0.0 &&
    (img.naturalWidth > 0.0 ==> img.clientWidth > 0.0)
  }

  /** A freshly created `new Image()` that has not loaded yet and is not in the page. */
  const Unloaded: Image := Image(false, 0.0, 0.0, Point(0.0, 0.0))

  /** `clientWidth / naturalWidth` of a displayed image with a natural size. */
  function ImageScale(img: Image): (s: real)
    requires WellFormed(img) && img.naturalWidth > 0.0
    ensures s > 0.0
    ensures s * img.naturalWidth == img.clientWidth
  {
    img.clientWidth / img.naturalWidth
  }

  /** The marker speed of every variant, in screen pixels per frame. */
  const MarkerSpeed: real := 2.0

  const Origin: Point := Point(0.0, 0.0)

  function ToScreen(offset: Point, scale: real, p: Point): Point {
    Point(offset.x + p.x * scale, offset.y + p.y * scale)
  }

  /** The inverse of ToScreen for one snapshot of scale and offset. */
  function FromScreen(offset: Point, scale: real, q: Point): Point
    requires scale != 0.0
  {
    Point((q.x - offset.x) / scale, (q.y - offset.y) / scale)
  }

  lemma ScreenRoundTrip(offset: Point, scale: real, p: Point, q: Point)
    requires scale != 0.0
    ensures FromScreen(offset, scale, ToScreen(offset, scale, p)) == p
    ensures ToScreen(offset, scale, FromScreen(offset, scale, q)) == q
  {
    assert (p.x * scale) / scale == p.x;
    assert (p.y * scale) / scale == p.y;
    assert ((q.x - offset.x) / scale) * scale == q.x - offset.x;
    assert ((q.y - offset.y) / scale) * scale == q.y - offset.y;
  }

  /** Two snapshots that differ in scale place the same native point at different
      screen points unless the point is the image origin: the transform must be
      recomputed on every resize. */
  lemma ScreenDependsOnScale(offset: Point, s1: real, s2: real, p: Point)
    requires s1 != s2
    ensures ToScreen(offset, s1, p) == ToScreen(offset, s2, p) <==> p == Origin
  {
    if ToScreen(offset, s1, p) == ToScreen(offset, s2, p) {
      assert p.x * (s1 - s2) == 0.0;
      assert p.y * (s1 - s2) == 0.0;
    }
  }

  function SqDist(a: Point, b: Point): (d: real)
    ensures d >= 0.0
  {
    (b.x - a.x) * (b.x - a.x) + (b.y - a.y) * (b.y - a.y)
  }

  // Arithmetic steps kept apart, each with one nonlinear fact, so that the
  // solver never has to combine several of them at once.

  lemma ScaledSquares(a: real, b: real, k: real)
    ensures (k * a) * (k * a) + (k * b) * (k * b) == (k * k) * (a * a + b * b)
  {
  }

  lemma SquareOfProduct(q: real, s: real, d: real)
    requires q * d == s
    ensures (q * q) * (d * d) == s * s
  {
    assert (q * q) * (d * d) == (q * d) * (q * d);
  }

  lemma MulBoth(a: real, b: real, c: real)
    requires a == b
    ensures c * a == c * b
  {
  }

  lemma SquareBoth(a: real, b: real)
    requires a == b
    ensures a * a == b * b
  {
  }

  lemma SwapQuotient(a: real, b: real, d: real)
    requires d != 0.0
    ensures (a / d) * b == (b / d) * a
  {
    assert (a / d) * b == a * b / d;
  }

  lemma OneMinusTimes(q: real, a: real)
    ensures (1.0 - q) * a == a - q * a
  {
  }

  lemma CancelQuotient(s: real, d: real)
    requires d != 0.0
    ensures (s / d) * d == s
  {
  }

  lemma QuotientLessOne(a: real, b: real)
    requires b > 0.0
    ensures (a - b) / b == a / b - 1.0
  {
    assert (a - b) / b == a / b - b / b;
  }

  lemma MulPositive(a: real, b: real)
    requires a > 0.0 && b > 0.0
    ensures a * b > 0.0
  {
  }

  lemma QuotientBelowOne(a: real, b: real)
    requires 0.0 <= a < b
    ensures 0.0 <= a / b < 1.0
  {
  }

  lemma FloorShift(q: real)
    ensures (q - 1.0).Floor == q.Floor - 1
  {
  }

  /** Scaling the vector (dx, dy), whose length is d, by k with k * d == s gives length s. */
  lemma ScaledLength(dx: real, dy: real, k: real, d: real, s: real)
    requires d * d == dx * dx + dy * dy && k * d == s
    ensures (k * dx) * (k * dx) + (k * dy) * (k * dy) == s * s
  {
    ScaledSquares(dx, dy, k);
    SquareOfProduct(k, s, d);
    MulBoth(d * d, dx * dx + dy * dy, k * k);
  }

  /** One moving frame: `speed` pixels from `cur` along the unit vector towards
      `target`, where `dist` is the host's square root of SqDist(cur, target). */
  function MoveToward(cur: Point, target: Point, dist: real, speed: real): Point
    requires dist != 0.0
  {
    Point(cur.x + ((target.x - cur.x) / dist) * speed,
          cur.y + ((target.y - cur.y) / dist) * speed)
  }

  /** A moving frame covers exactly `speed` pixels. */
  lemma MoveCoversSpeed(cur: Point, target: Point, dist: real, speed: real)
    requires dist > 0.0 && dist * dist == SqDist(cur, target)
    ensures SqDist(cur, MoveToward(cur, target, dist, speed)) == speed * speed
  {
    var dx, dy, k := target.x - cur.x, target.y - cur.y, speed / dist;
    var n := MoveToward(cur, target, dist, speed);
    SwapQuotient(dx, speed, dist);
    SwapQuotient(dy, speed, dist);
    CancelQuotient(speed, dist);
    ScaledVector(dx, dy, n.x - cur.x, n.y - cur.y, k, dist, speed);
    SqDistIs(cur, n, n.x - cur.x, n.y - cur.y);
  }

  /** After a moving frame the remaining distance is exactly dist - speed: with
      dist >= speed the marker neither overshoots nor leaves the segment. */
  lemma MoveLeavesRemainder(cur: Point, target: Point, dist: real, speed: real)
    requires dist > 0.0 && dist * dist == SqDist(cur, target)
    ensures SqDist(MoveToward(cur, target, dist, speed), target) == (dist - speed) * (dist - speed)
  {
    var dx, dy, q := target.x - cur.x, target.y - cur.y, speed / dist;
    var k := 1.0 - q;
    var n := MoveToward(cur, target, dist, speed);
    SwapQuotient(dx, speed, dist);
    SwapQuotient(dy, speed, dist);
    CancelQuotient(speed, dist);
    OneMinusTimes(q, dx);
    OneMinusTimes(q, dy);
    OneMinusTimes(q, dist);
    ScaledVector(dx, dy, target.x - n.x, target.y - n.y, k, dist, dist - speed);
    SqDistIs(n, target, target.x - n.x, target.y - n.y);
  }

  lemma SqDistIs(a: Point, b: Point, ex: real, ey: real)
    requires ex == b.x - a.x && ey == b.y - a.y
    ensures SqDist(a, b) == ex * ex + ey * ey
  {
  }

  /** (ex, ey) = k (dx, dy) with |(dx, dy)| = d and k d = s has squared length s². */
  lemma ScaledVector(dx: real, dy: real, ex: real, ey: real, k: real, d: real, s: real)
    requires d * d == dx * dx + dy * dy && k * d == s
    requires ex == k * dx && ey == k * dy
    ensures ex * ex + ey * ey == s * s
  {
    SquareBoth(ex, k * dx);
    SquareBoth(ey, k * dy);
    ScaledLength(dx, dy, k, d, s);
  }

  /** A non-negative number is the only non-negative root of its square. */
  lemma RootUnique(r: real, x: real)
    requires r >= 0.0 && x >= 0.0 && r * r == x * x
    ensures r == x
  {
    assert (r - x) * (r + x) == r * r - x * x;
    if r + x == 0.0 {
    } else {
      assert r - x == 0.0;
    }
  }

  /** Number of moving frames before a marker `dist` pixels away from the next
      waypoint comes within `speed` of it (and the index advances). */
  function MovesToArrive(dist: real, speed: real): nat
    requires speed > 0.0
    decreases if dist < speed then 0 else (dist / speed).Floor
  {
    if dist < speed then 0
    else
      assert ((dist - speed) / speed).Floor == (dist / speed).Floor - 1 by {
        QuotientLessOne(dist, speed);
      }
      1 + MovesToArrive(dist - speed, speed)
  }

  /** The moves on one segment are floor(dist / speed): the animation on a segment
      of native length L at scale s ends after floor(L * s / speed) + 1 frames. */
  lemma {:induction false} MovesToArriveIsFloor(dist: real, speed: real)
    requires speed > 0.0 && dist >= 0.0
    ensures MovesToArrive(dist, speed) == (dist / speed).Floor
    decreases if dist < speed then 0 else (dist / speed).Floor
  {
    if dist < speed {
      QuotientBelowOne(dist, speed);
    } else {
      QuotientLessOne(dist, speed);
      FloorShift(dist / speed);
      MovesToArriveIsFloor(dist - speed, speed);
    }
  }
}
