/**
 * The geometry behind the overlay's corner edits, on values: the vertex
 * centroid, the corner proposals of scaleBy, rotateBy and dragBy, the
 * rectangle that restore rebuilds, the latitude guard of the bulk setters,
 * and the way a bulk setter lays the values of its key/value object onto
 * corner indices 0, 1, ... in key order.
 *
 * map.project and map.unproject are taken to be the identity: every corner is
 * held as a projected point.
 */
module CornerGeometry {
  import opened Geometry

  /** The four corners of an overlay: upper left, upper right, lower left, lower right. */
  type Corners = cs: seq<Point> | |cs| == 4 witness [Origin, Origin, Origin, Origin]

  // ---------------------------------------------------------------------
  // getCenter

  /** The reduce of getCenter: add the corners one by one onto agg. */
  function SumFrom(agg: Point, cs: seq<Point>): Point
    decreases |cs|
  {
    if |cs| == 0 then agg else SumFrom(agg.Add(cs[0]), cs[1..])
  }

  /** getCenter: the sum of the corners from the origin, divided by 4. */
  function Centroid(cs: seq<Point>): Point {
    SumFrom(Origin, cs).DivideBy(4.0)
  }

  /** The reduce adds the four corners left to right. */
  lemma {:induction false} CentroidOfFour(cs: Corners)
    ensures Centroid(cs)
         == Point((((0.0 + cs[0].x) + cs[1].x) + cs[2].x + cs[3].x) / 4.0,
                  (((0.0 + cs[0].y) + cs[1].y) + cs[2].y + cs[3].y) / 4.0)
  {
    var s1 := Origin.Add(cs[0]);
    var s2 := s1.Add(cs[1]);
    var s3 := s2.Add(cs[2]);
    var s4 := s3.Add(cs[3]);
    calc {
      SumFrom(Origin, cs);
      SumFrom(s1, cs[1..]);
      { assert cs[1..][1..] == cs[2..]; }
      SumFrom(s2, cs[2..]);
      { assert cs[2..][1..] == cs[3..]; }
      SumFrom(s3, cs[3..]);
      { assert cs[3..][1..] == []; }
      SumFrom(s4, []);
      s4;
    }
  }

  // ---------------------------------------------------------------------
  // Corner proposals

  /** The corner p of scaleBy: p.subtract(center).multiplyBy(s).add(center). */
  function ScaleAbout(p: Point, center: Point, s: real): Point {
    p.Subtract(center).MultiplyBy(s).Add(center)
  }

  /** The four corners that scaleBy(s) proposes, about the centroid. */
  function ScaledCorners(cs: Corners, s: real): Corners {
    var c := Centroid(cs);
    [ScaleAbout(cs[0], c, s), ScaleAbout(cs[1], c, s), ScaleAbout(cs[2], c, s), ScaleAbout(cs[3], c, s)]
  }

  /** The corner p of rotateBy: p - center turned by the angle whose cosine and sine are given, plus center. */
  function RotateAbout(p: Point, center: Point, cos: real, sin: real): Point {
    var d := p.Subtract(center);
    Point(cos * d.x - sin * d.y, sin * d.x + cos * d.y).Add(center)
  }

  /** The four corners that rotateBy proposes, about the centroid. */
  function RotatedCorners(cs: Corners, cos: real, sin: real): Corners {
    var c := Centroid(cs);
    [RotateAbout(cs[0], c, cos, sin), RotateAbout(cs[1], c, cos, sin),
     RotateAbout(cs[2], c, cos, sin), RotateAbout(cs[3], c, cos, sin)]
  }

  /** The four corners that dragBy(former, newPoint) proposes: each corner minus (former - newPoint). */
  function DraggedCorners(cs: Corners, former: Point, newPoint: Point): Corners {
    var delta := former.Subtract(newPoint);
    [cs[0].Subtract(delta), cs[1].Subtract(delta), cs[2].Subtract(delta), cs[3].Subtract(delta)]
  }

  /** The rectangle of restore (and of the default corners): center -/+ offset. */
  function InitialRectangle(center: Point, offset: Point): Corners {
    [
      center.Subtract(offset),
      center.Add(Point(offset.x, -offset.y)),
      center.Add(Point(-offset.x, offset.y)),
      center.Add(offset)
    ]
  }

  // ---------------------------------------------------------------------
  // The latitude guard

  /** Math.pow(2, zoom) for an integer zoom level. */
  function Pow2(zoom: int): (r: real)
    ensures r > 0.0
    decreases if zoom < 0 then -zoom else zoom
  {
    if zoom == 0 then 1.0
    else if zoom > 0 then 2.0 * Pow2(zoom - 1)
    else Pow2(zoom + 1) / 2.0
  }

  /**
   * _cornerExceedsMapLats: at zoom 0 the projected y must lie in [2, 255);
   * otherwise the top test divides y by zoom and the bottom test by 2^zoom.
   */
  predicate CornerExceedsMapLats(zoom: int, corner: Point) {
    if zoom == 0 then corner.y < 2.0 || corner.y >= 255.0
    else corner.y / (zoom as real) < 2.0 || corner.y / Pow2(zoom) >= 255.0
  }

  // ---------------------------------------------------------------------
  // Bulk setters: key order and the write pattern

  /** The key/value objects the bulk setters receive, keyed by corner number. */
  predicate CornerKeys(m: map<int, Point>) {
    forall k :: k in m ==> 0 <= k < 4
  }

  /**
   * The values of m under keys 0 .. n-1, in the order a for-in loop visits
   * integer keys: ascending.
   */
  function KeyOrderBelow(m: map<int, Point>, n: nat): seq<Point>
    decreases n
  {
    if n == 0 then [] else KeyOrderBelow(m, n - 1) + (if n - 1 in m then [m[n - 1]] else [])
  }

  /** The values of a corner-keyed object in for-in order. */
  function InKeyOrder(m: map<int, Point>): seq<Point> {
    KeyOrderBelow(m, 4)
  }

  /** The keys of m below n. */
  function KeysBelow(m: map<int, Point>, n: nat): (r: set<int>)
    ensures forall k :: k in r <==> 0 <= k < n && k in m
    decreases n
  {
    if n == 0 then {} else if n - 1 in m then KeysBelow(m, n - 1) + {n - 1} else KeysBelow(m, n - 1)
  }

  /** Writing vs over indices 0, 1, ... of cs and leaving the rest. */
  function Overwrite(cs: Corners, vs: seq<Point>): Corners
    requires |vs| <= 4
  {
    vs + cs[|vs|..]
  }

  /** Some candidate value fails the latitude guard. */
  predicate AnyExceeds(zoom: int, m: map<int, Point>) {
    exists k :: k in m && CornerExceedsMapLats(zoom, m[k])
  }

  /** The four corner values as the object {0: .., 1: .., 2: .., 3: ..} the proposals build. */
  function AsObject(cs: Corners): map<int, Point> {
    map[0 := cs[0], 1 := cs[1], 2 := cs[2], 3 := cs[3]]
  }

  /** The corners after a bulk setter: unchanged when any candidate exceeds, else overwritten in key order. */
  function Committed(cs: Corners, m: map<int, Point>, zoom: int): Corners
    requires CornerKeys(m)
  {
    if AnyExceeds(zoom, m) then cs else Overwrite(cs, InKeyOrder(m))
  }

  // ---------------------------------------------------------------------
  // Properties of the bulk setters' write pattern

  /** The for-in order up to n lists one value per key below n. */
  lemma {:induction false} KeyOrderBelowLength(m: map<int, Point>, n: nat)
    ensures |KeyOrderBelow(m, n)| == |KeysBelow(m, n)|
    decreases n
  {
    if n > 0 {
      KeyOrderBelowLength(m, n - 1);
    }
  }

  /** The key order lists every value once: its length is the number of keys. */
  lemma InKeyOrderLength(m: map<int, Point>)
    requires CornerKeys(m)
    ensures |InKeyOrder(m)| == |m|
  {
    KeyOrderBelowLength(m, 4);
    assert m.Keys == KeysBelow(m, 4);
  }

  /**
   * The value under key k sits at index |KeyOrderBelow(m, k)|: the running
   * counter of the write loop when it reaches k, which is the number of
   * smaller keys.
   */
  lemma {:induction false} KeyOrderBelowRank(m: map<int, Point>, k: nat, n: nat)
    requires k in m && k < n
    ensures |KeyOrderBelow(m, k)| < |KeyOrderBelow(m, n)|
    ensures KeyOrderBelow(m, n)[|KeyOrderBelow(m, k)|] == m[k]
    decreases n
  {
    if k < n - 1 {
      KeyOrderBelowRank(m, k, n - 1);
    }
  }

  /** The value under key k is written at the index that counts the smaller keys. */
  lemma InKeyOrderRank(m: map<int, Point>, k: nat)
    requires CornerKeys(m) && k in m
    ensures |KeyOrderBelow(m, k)| == |KeysBelow(m, k)|
    ensures |KeysBelow(m, k)| < |InKeyOrder(m)| && InKeyOrder(m)[|KeysBelow(m, k)|] == m[k]
  {
    KeyOrderBelowLength(m, k);
    KeyOrderBelowRank(m, k, 4);
  }

  /** One more step of the write loop: the next value lands at the running counter. */
  lemma OverwriteStep(cs: Corners, vs: seq<Point>, v: Point)
    requires |vs| < 4
    ensures Overwrite(cs, vs + [v]) == Overwrite(cs, vs)[|vs| := v]
  {
  }

  /** A full object {0..3} is written back in place. */
  lemma FullObjectInPlace(cs: Corners, vs: Corners)
    ensures CornerKeys(AsObject(vs)) && Overwrite(cs, InKeyOrder(AsObject(vs))) == vs
  {
    assert InKeyOrder(AsObject(vs)) == vs;
  }

  /** A one-key object such as {2: p} overwrites corner 0, not corner 2. */
  lemma SingleKeyWritesCornerZero(cs: Corners, k: int, p: Point)
    requires 0 <= k < 4
    ensures CornerKeys(map[k := p])
    ensures Overwrite(cs, InKeyOrder(map[k := p])) == [p, cs[1], cs[2], cs[3]]
  {
    assert InKeyOrder(map[k := p]) == [p];
  }

  /**
   * The bulk setters are all-or-nothing: when a value exceeds nothing is
   * written; otherwise the value under key k lands at the index counting the
   * keys below k, and the corners past the number of keys keep their values.
   */
  lemma CommittedAllOrNothing(cs: Corners, m: map<int, Point>, zoom: int)
    requires CornerKeys(m)
    ensures AnyExceeds(zoom, m) ==> Committed(cs, m, zoom) == cs
    ensures !AnyExceeds(zoom, m) ==>
      forall k: nat :: k in m ==> Committed(cs, m, zoom)[|KeysBelow(m, k)|] == m[k]
    ensures !AnyExceeds(zoom, m) ==>
      forall i :: |m| <= i < 4 ==> Committed(cs, m, zoom)[i] == cs[i]
  {
    InKeyOrderLength(m);
    forall k: nat | k in m
      ensures |KeysBelow(m, k)| < |InKeyOrder(m)| && InKeyOrder(m)[|KeysBelow(m, k)|] == m[k]
    {
      InKeyOrderRank(m, k);
    }
  }

  // ---------------------------------------------------------------------
  // The latitude guard

  /** At zoom 0 the guard is exactly "y outside [2, 255)". */
  lemma GuardAtZoomZero(corner: Point)
    ensures CornerExceedsMapLats(0, corner) <==> !(2.0 <= corner.y < 255.0)
  {
  }

  /**
   * At any positive zoom, a corner whose y scaled by 2^zoom lies below 2 can
   * pass the top test, since that test divides by zoom instead: at zoom 3,
   * y = 10 gives 10 / 8 < 2 and yet is not reported.
   */
  lemma TopTestUsesZoomNotPow2()
    ensures Pow2(3) == 8.0
    ensures 10.0 / Pow2(3) < 2.0 && !CornerExceedsMapLats(3, Point(0.0, 10.0))
  {
  }

  /** At a positive zoom the guard is "y below 2 zoom, or y at least 255 2^zoom". */
  lemma GuardAtPositiveZoom(zoom: int, corner: Point)
    requires zoom >= 1
    ensures CornerExceedsMapLats(zoom, corner)
        <==> corner.y < 2.0 * (zoom as real) || corner.y >= 255.0 * Pow2(zoom)
  {
    var z, p := zoom as real, Pow2(zoom);
    DividedBelow(corner.y, z, 2.0);
    DividedBelow(corner.y, p, 255.0);
  }

  /** For a positive divisor d, y / d < b exactly when y < b d. */
  lemma DividedBelow(y: real, d: real, b: real)
    requires d > 0.0
    ensures y / d < b <==> y < b * d
  {
    var q := y / d;
    assert q * d == y;
    if q < b {
      assert q * d < b * d;
    } else {
      assert q * d >= b * d;
    }
  }

  /** The zoom level stays below 2^zoom. */
  lemma {:induction false} ZoomBelowPow2(zoom: int)
    requires zoom >= 1
    ensures (zoom as real) < Pow2(zoom)
    decreases zoom
  {
    if zoom > 1 {
      ZoomBelowPow2(zoom - 1);
    }
  }

  /**
   * At every positive zoom, the corner with y = 2 zoom passes the guard,
   * although y scaled by 2^zoom lies below 2: the top test divides by zoom.
   */
  lemma TopTestUsesZoomAtEveryZoom(zoom: int, x: real)
    requires zoom >= 1
    ensures var corner := Point(x, 2.0 * (zoom as real));
      corner.y / Pow2(zoom) < 2.0 && !CornerExceedsMapLats(zoom, corner)
  {
    var corner := Point(x, 2.0 * (zoom as real));
    ZoomBelowPow2(zoom);
    GuardAtPositiveZoom(zoom, corner);
    DividedBelow(corner.y, Pow2(zoom), 2.0);
  }

  // ---------------------------------------------------------------------
  // Centroid arithmetic over plain reals

  /** Moving four values about their mean by a common factor keeps the mean. */
  lemma ScaleKeepsMean(s: real, a0: real, a1: real, a2: real, a3: real, m: real,
                       q0: real, q1: real, q2: real, q3: real)
    requires m == (((0.0 + a0) + a1) + a2 + a3) / 4.0
    requires q0 == (a0 - m) * s + m && q1 == (a1 - m) * s + m
    requires q2 == (a2 - m) * s + m && q3 == (a3 - m) * s + m
    ensures (((0.0 + q0) + q1) + q2 + q3) / 4.0 == m
  {
    assert (a0 - m) * s + (a1 - m) * s + (a2 - m) * s + (a3 - m) * s == (a0 + a1 + a2 + a3 - 4.0 * m) * s;
  }

  /** Turning four points about their mean keeps the mean: the x coordinate. */
  lemma TurnKeepsMeanX(cos: real, sin: real, a0: real, a1: real, a2: real, a3: real, ma: real,
                       b0: real, b1: real, b2: real, b3: real, mb: real,
                       q0: real, q1: real, q2: real, q3: real)
    requires ma == (((0.0 + a0) + a1) + a2 + a3) / 4.0
    requires mb == (((0.0 + b0) + b1) + b2 + b3) / 4.0
    requires q0 == cos * (a0 - ma) - sin * (b0 - mb) + ma
    requires q1 == cos * (a1 - ma) - sin * (b1 - mb) + ma
    requires q2 == cos * (a2 - ma) - sin * (b2 - mb) + ma
    requires q3 == cos * (a3 - ma) - sin * (b3 - mb) + ma
    ensures (((0.0 + q0) + q1) + q2 + q3) / 4.0 == ma
  {
    assert cos * (a0 - ma) + cos * (a1 - ma) + cos * (a2 - ma) + cos * (a3 - ma) == cos * (a0 + a1 + a2 + a3 - 4.0 * ma);
    assert sin * (b0 - mb) + sin * (b1 - mb) + sin * (b2 - mb) + sin * (b3 - mb) == sin * (b0 + b1 + b2 + b3 - 4.0 * mb);
  }

  /** Turning four points about their mean keeps the mean: the y coordinate. */
  lemma TurnKeepsMeanY(cos: real, sin: real, a0: real, a1: real, a2: real, a3: real, ma: real,
                       b0: real, b1: real, b2: real, b3: real, mb: real,
                       q0: real, q1: real, q2: real, q3: real)
    requires ma == (((0.0 + a0) + a1) + a2 + a3) / 4.0
    requires mb == (((0.0 + b0) + b1) + b2 + b3) / 4.0
    requires q0 == sin * (a0 - ma) + cos * (b0 - mb) + mb
    requires q1 == sin * (a1 - ma) + cos * (b1 - mb) + mb
    requires q2 == sin * (a2 - ma) + cos * (b2 - mb) + mb
    requires q3 == sin * (a3 - ma) + cos * (b3 - mb) + mb
    ensures (((0.0 + q0) + q1) + q2 + q3) / 4.0 == mb
  {
    assert sin * (a0 - ma) + sin * (a1 - ma) + sin * (a2 - ma) + sin * (a3 - ma) == sin * (a0 + a1 + a2 + a3 - 4.0 * ma);
    assert cos * (b0 - mb) + cos * (b1 - mb) + cos * (b2 - mb) + cos * (b3 - mb) == cos * (b0 + b1 + b2 + b3 - 4.0 * mb);
  }

  // ---------------------------------------------------------------------
  // Properties of the proposals

  /** scaleBy proposes corners with the same centroid. */
  lemma ScaledKeepsCentroid(cs: Corners, s: real)
    ensures Centroid(ScaledCorners(cs, s)) == Centroid(cs)
  {
    var c := Centroid(cs);
    var q := ScaledCorners(cs, s);
    CentroidOfFour(cs);
    CentroidOfFour(q);
    ScaleKeepsMean(s, cs[0].x, cs[1].x, cs[2].x, cs[3].x, c.x, q[0].x, q[1].x, q[2].x, q[3].x);
    ScaleKeepsMean(s, cs[0].y, cs[1].y, cs[2].y, cs[3].y, c.y, q[0].y, q[1].y, q[2].y, q[3].y);
  }

  /** scaleBy(1) proposes the corners themselves. */
  lemma ScaleByOne(cs: Corners)
    ensures ScaledCorners(cs, 1.0) == cs
  {
  }

  /** Scaling by s and then by t proposes the corners of scaling by s t. */
  lemma ScaledTwice(cs: Corners, s: real, t: real)
    ensures ScaledCorners(ScaledCorners(cs, s), t) == ScaledCorners(cs, s * t)
  {
    var c := Centroid(cs);
    ScaledKeepsCentroid(cs, s);
    forall i | 0 <= i < 4
      ensures ScaleAbout(ScaleAbout(cs[i], c, s), c, t) == ScaleAbout(cs[i], c, s * t)
    {
      ScaleAboutTwice(cs[i], c, s, t);
    }
  }

  lemma ScaleAboutTwice(p: Point, c: Point, s: real, t: real)
    ensures ScaleAbout(ScaleAbout(p, c, s), c, t) == ScaleAbout(p, c, s * t)
  {
    assert ((p.x - c.x) * s) * t == (p.x - c.x) * (s * t);
    assert ((p.y - c.y) * s) * t == (p.y - c.y) * (s * t);
  }

  /** For s != 0, scaling by 1/s undoes scaling by s. */
  lemma ScaleUndone(cs: Corners, s: real)
    requires s != 0.0
    ensures ScaledCorners(ScaledCorners(cs, s), 1.0 / s) == cs
  {
    var inv := 1.0 / s;
    assert s * inv == 1.0;
    ScaledTwice(cs, s, inv);
    calc {
      ScaledCorners(ScaledCorners(cs, s), inv);
      ScaledCorners(cs, s * inv);
      ScaledCorners(cs, 1.0);
      { ScaleByOne(cs); }
      cs;
    }
  }

  /** rotateBy proposes corners with the same centroid. */
  lemma RotatedKeepsCentroid(cs: Corners, cos: real, sin: real)
    ensures Centroid(RotatedCorners(cs, cos, sin)) == Centroid(cs)
  {
    var c := Centroid(cs);
    var q := RotatedCorners(cs, cos, sin);
    CentroidOfFour(cs);
    CentroidOfFour(q);
    RotatedMeanX(cs, c, cos, sin, q);
    RotatedMeanY(cs, c, cos, sin, q);
  }

  lemma RotateAboutCoordinates(p: Point, c: Point, cos: real, sin: real)
    ensures RotateAbout(p, c, cos, sin).x == cos * (p.x - c.x) - sin * (p.y - c.y) + c.x
    ensures RotateAbout(p, c, cos, sin).y == sin * (p.x - c.x) + cos * (p.y - c.y) + c.y
  {
  }

  lemma RotatedMeanX(cs: Corners, c: Point, cos: real, sin: real, q: Corners)
    requires c.x == (((0.0 + cs[0].x) + cs[1].x) + cs[2].x + cs[3].x) / 4.0
    requires c.y == (((0.0 + cs[0].y) + cs[1].y) + cs[2].y + cs[3].y) / 4.0
    requires q == [RotateAbout(cs[0], c, cos, sin), RotateAbout(cs[1], c, cos, sin),
                   RotateAbout(cs[2], c, cos, sin), RotateAbout(cs[3], c, cos, sin)]
    ensures (((0.0 + q[0].x) + q[1].x) + q[2].x + q[3].x) / 4.0 == c.x
  {
    RotateAboutCoordinates(cs[0], c, cos, sin);
    RotateAboutCoordinates(cs[1], c, cos, sin);
    RotateAboutCoordinates(cs[2], c, cos, sin);
    RotateAboutCoordinates(cs[3], c, cos, sin);
    TurnKeepsMeanX(cos, sin, cs[0].x, cs[1].x, cs[2].x, cs[3].x, c.x, cs[0].y, cs[1].y, cs[2].y, cs[3].y, c.y,
                   q[0].x, q[1].x, q[2].x, q[3].x);
  }

  lemma RotatedMeanY(cs: Corners, c: Point, cos: real, sin: real, q: Corners)
    requires c.x == (((0.0 + cs[0].x) + cs[1].x) + cs[2].x + cs[3].x) / 4.0
    requires c.y == (((0.0 + cs[0].y) + cs[1].y) + cs[2].y + cs[3].y) / 4.0
    requires q == [RotateAbout(cs[0], c, cos, sin), RotateAbout(cs[1], c, cos, sin),
                   RotateAbout(cs[2], c, cos, sin), RotateAbout(cs[3], c, cos, sin)]
    ensures (((0.0 + q[0].y) + q[1].y) + q[2].y + q[3].y) / 4.0 == c.y
  {
    RotateAboutCoordinates(cs[0], c, cos, sin);
    RotateAboutCoordinates(cs[1], c, cos, sin);
    RotateAboutCoordinates(cs[2], c, cos, sin);
    RotateAboutCoordinates(cs[3], c, cos, sin);
    TurnKeepsMeanY(cos, sin, cs[0].x, cs[1].x, cs[2].x, cs[3].x, c.x, cs[0].y, cs[1].y, cs[2].y, cs[3].y, c.y,
                   q[0].y, q[1].y, q[2].y, q[3].y);
  }

  function SquaredDistance(p: Point, q: Point): real {
    (p.x - q.x) * (p.x - q.x) + (p.y - q.y) * (p.y - q.y)
  }

  /** With cos^2 + sin^2 = 1, turning about c keeps the distance to c. */
  lemma RotateAboutKeepsDistance(p: Point, c: Point, cos: real, sin: real)
    requires cos * cos + sin * sin == 1.0
    ensures SquaredDistance(RotateAbout(p, c, cos, sin), c) == SquaredDistance(p, c)
  {
    var dx, dy := p.x - c.x, p.y - c.y;
    calc {
      (cos * dx - sin * dy) * (cos * dx - sin * dy) + (sin * dx + cos * dy) * (sin * dx + cos * dy);
      (cos * cos + sin * sin) * (dx * dx + dy * dy);
      dx * dx + dy * dy;
    }
  }

  /** A proper rotation keeps every corner's distance from the centroid. */
  lemma RotatedKeepsDistances(cs: Corners, cos: real, sin: real, i: int)
    requires cos * cos + sin * sin == 1.0 && 0 <= i < 4
    ensures SquaredDistance(RotatedCorners(cs, cos, sin)[i], Centroid(cs)) == SquaredDistance(cs[i], Centroid(cs))
  {
    RotateAboutKeepsDistance(cs[i], Centroid(cs), cos, sin);
  }

  /** Turning by one angle and then another is turning by their sum (angle-addition formulas). */
  lemma RotateAboutTwice(p: Point, c: Point, c1: real, s1: real, c2: real, s2: real)
    ensures RotateAbout(RotateAbout(p, c, c1, s1), c, c2, s2)
         == RotateAbout(p, c, c2 * c1 - s2 * s1, s2 * c1 + c2 * s1)
  {
    var dx, dy := p.x - c.x, p.y - c.y;
    assert c2 * (c1 * dx - s1 * dy) - s2 * (s1 * dx + c1 * dy) == (c2 * c1 - s2 * s1) * dx - (s2 * c1 + c2 * s1) * dy;
    assert s2 * (c1 * dx - s1 * dy) + c2 * (s1 * dx + c1 * dy) == (s2 * c1 + c2 * s1) * dx + (c2 * c1 - s2 * s1) * dy;
  }

  /** Two rotateBy proposals in a row are one rotateBy by the summed angle. */
  lemma RotatedTwice(cs: Corners, c1: real, s1: real, c2: real, s2: real)
    ensures RotatedCorners(RotatedCorners(cs, c1, s1), c2, s2)
         == RotatedCorners(cs, c2 * c1 - s2 * s1, s2 * c1 + c2 * s1)
  {
    var c := Centroid(cs);
    RotatedKeepsCentroid(cs, c1, s1);
    forall i | 0 <= i < 4
      ensures RotateAbout(RotateAbout(cs[i], c, c1, s1), c, c2, s2)
           == RotateAbout(cs[i], c, c2 * c1 - s2 * s1, s2 * c1 + c2 * s1)
    {
      RotateAboutTwice(cs[i], c, c1, s1, c2, s2);
    }
  }

  /** dragBy moves the centroid by newPoint - former. */
  lemma DraggedMovesCentroid(cs: Corners, former: Point, newPoint: Point)
    ensures Centroid(DraggedCorners(cs, former, newPoint)) == Centroid(cs).Add(newPoint.Subtract(former))
  {
    CentroidOfFour(cs);
    CentroidOfFour(DraggedCorners(cs, former, newPoint));
  }

  /** Dragging from a to b and then from b to c is dragging from a to c. */
  lemma DraggedTwice(cs: Corners, a: Point, b: Point, c: Point)
    ensures DraggedCorners(DraggedCorners(cs, a, b), b, c) == DraggedCorners(cs, a, c)
  {
  }

  /** Dragging back undoes a drag. */
  lemma DragBack(cs: Corners, a: Point, b: Point)
    ensures DraggedCorners(DraggedCorners(cs, a, b), b, a) == cs
  {
    DraggedTwice(cs, a, b, a);
  }

  /** Every corner moves by the same vector newPoint - former. */
  lemma DraggedIsTranslation(cs: Corners, former: Point, newPoint: Point, i: int)
    requires 0 <= i < 4
    ensures DraggedCorners(cs, former, newPoint)[i].Subtract(cs[i]) == newPoint.Subtract(former)
  {
  }

  /** The restored rectangle is centred on the initial center and spans twice the offset. */
  lemma InitialRectangleShape(center: Point, offset: Point)
    ensures Centroid(InitialRectangle(center, offset)) == center
    ensures InitialRectangle(center, offset)[3].Subtract(InitialRectangle(center, offset)[0])
         == Point(2.0 * offset.x, 2.0 * offset.y)
    ensures InitialRectangle(center, offset)[0].y == InitialRectangle(center, offset)[1].y
    ensures InitialRectangle(center, offset)[0].x == InitialRectangle(center, offset)[2].x
  {
    CentroidOfFour(InitialRectangle(center, offset));
  }
}
