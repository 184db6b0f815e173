/** The `RandomShape` class of the sketch: its random set-up, its per-frame
    update (fade counter and scale oscillation) and its polygon vertices.
    A shape is a record here; the scene updates it in place by replacing the
    record at its index. */
module Shapes {

  /** The four type tags the sketch draws a shape type from. */
  datatype ShapeType = Circle | Rectangle | Triangle | Polygon

  /** An RGBA colour as built by p5's `color(r, g, b, a)`. */
  datatype Color = Color(red: real, green: real, blue: real, alpha: real)

  /** A vertex as built by p5's `createVector(x, y)`. */
  datatype Point = Point(x: real, y: real)

  /** The host's trigonometry: `cos`, `sin` and the constant `TWO_PI`. */
  datatype Trig = Trig(cos: real -> real, sin: real -> real, twoPi: real)

  /** The values one call of the constructor takes from p5's `random`,
      in the order the constructor asks for them. */
  datatype Draws = Draws(
    size: real, red: real, green: real, blue: real, speed: real,
    rotation: real, scaleFactor: real, angleSpeed: real, scaleSpeed: real,
    numPointsRaw: real)

  /** A shape: every field the constructor sets. */
  datatype RandomShape = RandomShape(
    x: real, y: real, shapeType: ShapeType, size: real, alpha: int,
    color: Color, speed: real, rotation: real, scaleFactor: real,
    angleSpeed: real, scaleSpeed: real, points: seq<Point>, numPoints: int)

  /** The fade counter every shape starts with. */
  const MaxAlpha: int := 255
  /** The scale factor bounds outside which the scale direction reverses. */
  const MinScale: real := 0.5
  const MaxScale: real := 2.0

  function Abs(v: real): real { if v < 0.0 then -v else v }

  /** p5's `random(lo, hi)` returns a value in [lo, hi); `random(hi)` one in [0, hi). */
  predicate DrawsInRange(d: Draws, trig: Trig) {
    && 30.0 <= d.size < 100.0
    && 0.0 <= d.red < 255.0 && 0.0 <= d.green < 255.0 && 0.0 <= d.blue < 255.0
    && 0.5 <= d.speed < 2.0
    && 0.0 <= d.rotation < trig.twoPi
    && 0.5 <= d.scaleFactor < 1.5
    && 0.01 <= d.angleSpeed < 0.05
    && 0.01 <= d.scaleSpeed < 0.05
    && 3.0 <= d.numPointsRaw < 8.0
  }

  /** p5's `int(n)` on a number: truncation toward zero. */
  function Trunc(r: real): (n: int)
    ensures 0.0 <= r ==> n as real <= r < n as real + 1.0
    ensures r <= 0.0 ==> n as real - 1.0 < r <= n as real
  {
    if r >= 0.0 then r.Floor else -((-r).Floor)
  }

  /** Vertex k of an n-gon around (x, y): p5's `map(k, 0, n, 0, TWO_PI)` gives
      its angle, and the radius is half the size. */
  function Vertex(x: real, y: real, size: real, n: int, k: int, trig: Trig): Point
    requires 0 <= k < n
  {
    var angle := k as real / n as real * trig.twoPi;
    var radius := size / 2.0;
    Point(x + trig.cos(angle) * radius, y + trig.sin(angle) * radius)
  }

  /** The vertex list of an n-gon, empty when n is not positive. */
  function PolygonPoints(x: real, y: real, size: real, n: int, trig: Trig): seq<Point> {
    if n <= 0 then [] else seq(n, k requires 0 <= k < n => Vertex(x, y, size, n, k, trig))
  }

  /** `createPolygon()`: pushes one vertex per index below `numPoints`. */
  method CreatePolygon(x: real, y: real, size: real, numPoints: int, trig: Trig)
    returns (points: seq<Point>)
    ensures |points| == if numPoints <= 0 then 0 else numPoints
    ensures forall k :: 0 <= k < |points| ==> points[k] == Vertex(x, y, size, numPoints, k, trig)
  {
    points := [];
    var i := 0;
    while i < numPoints
      invariant 0 <= i <= if numPoints <= 0 then 0 else numPoints
      invariant |points| == i
      invariant forall k :: 0 <= k < i ==> points[k] == Vertex(x, y, size, numPoints, k, trig)
    {
      points := points + [Vertex(x, y, size, numPoints, i, trig)];
      i := i + 1;
    }
  }

  /** The shape the constructor builds at (x, y) from the draws `d`. */
  function Spawned(x: real, y: real, shapeType: ShapeType, d: Draws, trig: Trig): RandomShape {
    var numPoints := Trunc(d.numPointsRaw);
    RandomShape(x, y, shapeType, d.size, MaxAlpha,
                Color(d.red, d.green, d.blue, MaxAlpha as real),
                d.speed, d.rotation, d.scaleFactor, d.angleSpeed, d.scaleSpeed,
                PolygonPoints(x, y, d.size, numPoints, trig), numPoints)
  }

  /** The constructor: sets every field and runs `createPolygon()`, whatever the type. */
  method NewShape(x: real, y: real, shapeType: ShapeType, d: Draws, trig: Trig)
    returns (s: RandomShape)
    ensures s == Spawned(x, y, shapeType, d, trig)
  {
    var numPoints := Trunc(d.numPointsRaw);
    s := RandomShape(x, y, shapeType, d.size, MaxAlpha,
                     Color(d.red, d.green, d.blue, MaxAlpha as real),
                     d.speed, d.rotation, d.scaleFactor, d.angleSpeed, d.scaleSpeed,
                     [], numPoints);
    var points := CreatePolygon(x, y, d.size, numPoints, trig);
    s := s.(points := points);
  }

  /** `update()`: one frame of fading, drifting, rotating and scaling. */
  function Updated(s: RandomShape, trig: Trig): (r: RandomShape)
    ensures r.alpha == s.alpha - 1
    ensures r.scaleFactor == s.scaleFactor + s.scaleSpeed
    ensures r.scaleFactor > MaxScale || r.scaleFactor < MinScale ==> r.scaleSpeed == -s.scaleSpeed
    ensures MinScale <= r.scaleFactor <= MaxScale ==> r.scaleSpeed == s.scaleSpeed
    ensures Abs(r.scaleSpeed) == Abs(s.scaleSpeed)
    ensures r.shapeType == s.shapeType && r.size == s.size && r.color == s.color
    ensures r.speed == s.speed && r.angleSpeed == s.angleSpeed
    ensures r.points == s.points && r.numPoints == s.numPoints
  {
    var scaleFactor := s.scaleFactor + s.scaleSpeed;
    s.(alpha := s.alpha - 1,
       x := s.x + trig.cos(s.rotation) * s.speed,
       y := s.y + trig.sin(s.rotation) * s.speed,
       rotation := s.rotation + s.angleSpeed,
       scaleFactor := scaleFactor,
       scaleSpeed := if scaleFactor > MaxScale || scaleFactor < MinScale then -s.scaleSpeed else s.scaleSpeed)
  }

  /** The shape after n calls of `update()`. */
  function UpdatedN(s: RandomShape, n: nat, trig: Trig): RandomShape
    decreases n
  {
    if n == 0 then s else UpdatedN(Updated(s, trig), n - 1, trig)
  }

  /** Each update takes exactly one off the fade counter. */
  lemma {:induction false} AlphaAfterUpdates(s: RandomShape, n: nat, trig: Trig)
    ensures UpdatedN(s, n, trig).alpha == s.alpha - n
    decreases n
  {
    if n > 0 {
      AlphaAfterUpdates(Updated(s, trig), n - 1, trig);
    }
  }

  /** A shape whose counter is a > 0 is still alive after updates 1 .. a-1
      and has reached zero after update a. */
  lemma Lifetime(s: RandomShape, n: nat, trig: Trig)
    requires s.alpha > 0
    ensures UpdatedN(s, n, trig).alpha > 0 <==> n < s.alpha
    ensures n == s.alpha ==> UpdatedN(s, n, trig).alpha == 0
  {
    AlphaAfterUpdates(s, n, trig);
  }

  /** The scale oscillation stays in a band around [0.5, 2]: it overshoots a
      bound by at most one step, and once outside it is heading back. */
  predicate ScaleBounded(s: RandomShape) {
    var v := Abs(s.scaleSpeed);
    && v <= MaxScale - MinScale
    && MinScale - v <= s.scaleFactor <= MaxScale + v
    && (s.scaleFactor > MaxScale ==> s.scaleSpeed < 0.0)
    && (s.scaleFactor < MinScale ==> s.scaleSpeed > 0.0)
  }

  lemma ScaleBoundedStep(s: RandomShape, trig: Trig)
    requires ScaleBounded(s)
    ensures ScaleBounded(Updated(s, trig))
  {
  }

  /** Under exact arithmetic the scale factor never escapes the band, however many frames pass. */
  lemma {:induction false} ScaleBoundedForever(s: RandomShape, n: nat, trig: Trig)
    requires ScaleBounded(s)
    ensures ScaleBounded(UpdatedN(s, n, trig))
    ensures Abs(UpdatedN(s, n, trig).scaleSpeed) == Abs(s.scaleSpeed)
    decreases n
  {
    if n > 0 {
      ScaleBoundedStep(s, trig);
      ScaleBoundedForever(Updated(s, trig), n - 1, trig);
    }
  }

  /** What every shape in the scene satisfies: a live fade counter, a vertex
      list of 3 to 7 entries, and a scale speed of its drawn magnitude kept in band. */
  predicate Healthy(s: RandomShape) {
    && 0 < s.alpha <= MaxAlpha
    && 3 <= s.numPoints <= 7
    && |s.points| == s.numPoints
    && 0.01 <= Abs(s.scaleSpeed) < 0.05
    && ScaleBounded(s)
  }

  /** A freshly constructed shape is healthy: `int(random(3, 8))` is in 3..7,
      and `createPolygon()` gives that many vertices. */
  lemma SpawnedHealthy(x: real, y: real, shapeType: ShapeType, d: Draws, trig: Trig)
    requires DrawsInRange(d, trig)
    ensures Healthy(Spawned(x, y, shapeType, d, trig))
    ensures Spawned(x, y, shapeType, d, trig).alpha == MaxAlpha
    ensures Spawned(x, y, shapeType, d, trig).x == x && Spawned(x, y, shapeType, d, trig).y == y
  {
  }

  /** An update keeps a shape healthy as long as it is still alive afterwards. */
  lemma UpdatedHealthy(s: RandomShape, trig: Trig)
    requires Healthy(s)
    ensures Updated(s, trig).alpha > 0 <==> s.alpha > 1
    ensures s.alpha > 1 ==> Healthy(Updated(s, trig))
  {
  }
}
