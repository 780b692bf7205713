/** Ring geometry over exact reals. The cosine scale and the square root are
    parameters, so results hold for every choice of them that is named. */
module Geometry {
  import opened Domain

  // ---------- point in polygon ----------

  /** The ray from (x, y) towards growing x crosses the edge a-b. */
  predicate Crosses(x: real, y: real, a: Point, b: Point) {
    (a.latitude > y) != (b.latitude > y) &&
    x < (b.longitude - a.longitude) * (y - a.latitude) / (b.latitude - a.latitude) + a.longitude
  }

  // Where the line through a and b meets height y, described without division.
  lemma CrossesByProduct(x: real, y: real, a: Point, b: Point)
    requires (a.latitude > y) != (b.latitude > y)
    ensures Crosses(x, y, a, b) <==>
            if b.latitude > a.latitude
            then (x - a.longitude) * (b.latitude - a.latitude) < (b.longitude - a.longitude) * (y - a.latitude)
            else (x - a.longitude) * (b.latitude - a.latitude) > (b.longitude - a.longitude) * (y - a.latitude)
  {
    var d := b.latitude - a.latitude;
    var n := (b.longitude - a.longitude) * (y - a.latitude);
    QuotientCompare(x - a.longitude, n, d);
  }

  lemma QuotientCompare(u: real, n: real, d: real)
    requires d != 0.0
    ensures u < n / d <==> if d > 0.0 then u * d < n else u * d > n
  {
    var q := n / d;
    assert q * d == n;
    ProductCompare(u, q, d);
  }

  lemma ProductCompare(u: real, q: real, d: real)
    requires d != 0.0
    ensures u < q <==> if d > 0.0 then u * d < q * d else u * d > q * d
  {
    assert (q - u) * d == q * d - u * d;
    ProductSign(q - u, d);
  }

  lemma ProductSign(p: real, d: real)
    requires d != 0.0
    ensures p > 0.0 <==> if d > 0.0 then p * d > 0.0 else p * d < 0.0
  {
  }

  // The test does not depend on the direction in which an edge is traversed.
  lemma CrossesSymmetric(x: real, y: real, a: Point, b: Point)
    ensures Crosses(x, y, a, b) == Crosses(x, y, b, a)
  {
    if (a.latitude > y) != (b.latitude > y) {
      CrossesByProduct(x, y, a, b);
      CrossesByProduct(x, y, b, a);
      SwapProducts(x, y, a.longitude, a.latitude, b.longitude, b.latitude);
    }
  }

  lemma SwapProducts(x: real, y: real, ax: real, ay: real, bx: real, bz: real)
    ensures (x - ax) * (bz - ay) - (bx - ax) * (y - ay) == -((x - bx) * (ay - bz) - (ax - bx) * (y - bz))
  {
  }

  function Xor(b: seq<bool>): bool {
    if b == [] then false else Xor(b[..|b| - 1]) != b[|b| - 1]
  }

  lemma {:induction false} XorAppend(a: seq<bool>, b: seq<bool>)
    ensures Xor(a + b) == (Xor(a) != Xor(b))
  {
    if b == [] {
      assert a + b == a;
    } else {
      assert (a + b)[..|a + b| - 1] == a + b[..|b| - 1];
      XorAppend(a, b[..|b| - 1]);
    }
  }

  function Reverse<T>(s: seq<T>): (r: seq<T>)
    ensures |r| == |s|
    ensures forall i :: 0 <= i < |s| ==> r[i] == s[|s| - 1 - i]
  {
    if s == [] then [] else [s[|s| - 1]] + Reverse(s[..|s| - 1])
  }

  lemma {:induction false} XorReverse(b: seq<bool>)
    ensures Xor(Reverse(b)) == Xor(b)
  {
    if b != [] {
      var front := b[..|b| - 1];
      XorReverse(front);
      XorAppend([b[|b| - 1]], Reverse(front));
    }
  }

  function Previous(n: nat, i: nat): nat
    requires i < n
  {
    if i == 0 then n - 1 else i - 1
  }

  /** Which of the ring's edges (vertex i back to its predecessor) the ray crosses. */
  function Crossings(x: real, y: real, ring: seq<Point>): seq<bool> {
    seq(|ring|, i requires 0 <= i < |ring| => Crosses(x, y, ring[i], ring[Previous(|ring|, i)]))
  }

  predicate Inside(x: real, y: real, ring: seq<Point>) {
    |ring| >= 3 && Xor(Crossings(x, y, ring))
  }

  method PointInPolygon(x: real, y: real, ring: seq<Point>) returns (inside: bool)
    ensures inside == Inside(x, y, ring)
  {
    hide Crosses;
    if |ring| < 3 { return false; }
    inside := false;
    ghost var c := Crossings(x, y, ring);
    var i, j := 0, |ring| - 1;
    while i < |ring|
      invariant 0 <= i <= |ring|
      invariant i < |ring| ==> j == Previous(|ring|, i)
      invariant inside == Xor(c[..i])
    {
      if Crosses(x, y, ring[i], ring[j]) {
        inside := !inside;
      }
      assert c[..i + 1][..i] == c[..i];
      j, i := i, i + 1;
    }
    assert c[..i] == c;
  }

  function Rotate<T>(s: seq<T>, k: nat): seq<T>
    requires k <= |s|
  {
    s[k..] + s[..k]
  }

  lemma RotatedEnds(ring: seq<Point>, k: nat, i: nat)
    requires k <= |ring| && i < |ring|
    ensures var n := |ring|;
            var j := if i + k < n then i + k else i + k - n;
            && Rotate(ring, k)[i] == ring[j]
            && Rotate(ring, k)[Previous(n, i)] == ring[Previous(n, j)]
  {
  }

  lemma {:induction false} InsideRotated(x: real, y: real, ring: seq<Point>, k: nat)
    requires k <= |ring|
    ensures Inside(x, y, Rotate(ring, k)) == Inside(x, y, ring)
  {
    hide Crosses;
    var c, r := Crossings(x, y, ring), Crossings(x, y, Rotate(ring, k));
    forall i | 0 <= i < |ring| ensures r[i] == (c[k..] + c[..k])[i] {
      RotatedEnds(ring, k, i);
    }
    assert r == c[k..] + c[..k];
    XorAppend(c[k..], c[..k]);
    XorAppend(c[..k], c[k..]);
    assert c == c[..k] + c[k..];
  }

  // Edge i of the reversed ring is edge n - i of the ring, traversed backwards.
  lemma {:induction false} ReversedEnds(ring: seq<Point>, i: nat)
    requires i < |ring|
    ensures var j := if i == 0 then 0 else |ring| - i;
            && Reverse(ring)[i] == ring[Previous(|ring|, j)]
            && Reverse(ring)[Previous(|ring|, i)] == ring[j]
  {
  }

  lemma {:induction false} InsideReversed(x: real, y: real, ring: seq<Point>)
    ensures Inside(x, y, Reverse(ring)) == Inside(x, y, ring)
  {
    hide Crosses;
    if |ring| >= 3 {
      var n := |ring|;
      var c, r := Crossings(x, y, ring), Crossings(x, y, Reverse(ring));
      forall i | 0 <= i < n ensures r[i] == c[if i == 0 then 0 else n - i] {
        var j := if i == 0 then 0 else n - i;
        ReversedEnds(ring, i);
        CrossesSymmetric(x, y, ring[j], ring[Previous(n, j)]);
      }
      assert r == [c[0]] + Reverse(c[1..]);
      XorAppend([c[0]], Reverse(c[1..]));
      XorReverse(c[1..]);
      XorAppend([c[0]], c[1..]);
      assert c == [c[0]] + c[1..];
    }
  }

  lemma PointNotCrossed(x: real, y: real, a: Point)
    ensures !Crosses(x, y, a, a)
  {
  }

  // Repeating the first vertex to close a ring explicitly is invisible.
  lemma {:induction false} InsideClosed(x: real, y: real, ring: seq<Point>)
    requires |ring| >= 3
    ensures Inside(x, y, ring + [ring[0]]) == Inside(x, y, ring)
  {
    hide Crosses;
    PointNotCrossed(x, y, ring[0]);
    var c := Crossings(x, y, ring);
    assert Crossings(x, y, ring + [ring[0]]) == [false] + (c[1..] + [c[0]]);
    XorAppend([false], c[1..] + [c[0]]);
    XorAppend(c[1..], [c[0]]);
    XorAppend([c[0]], c[1..]);
    assert c == [c[0]] + c[1..];
  }

  // ---------- distance to a ring ----------

  const LAT_SCALE := 111132.0

  /** lonScale stands for the cosine scale at a latitude, root for the square root. */
  datatype Metric = Metric(lonScale: real -> real, root: real -> real)

  ghost predicate Monotone(f: real -> real) {
    forall p, q :: 0.0 <= p <= q ==> f(p) <= f(q)
  }

  datatype Vec = Vec(x: real, y: real)

  // A ring vertex in metres relative to the observed position.
  function Offset(m: Metric, lat: real, lon: real, p: Point): Vec {
    Vec((p.longitude - lon) * m.lonScale(lat), (p.latitude - lat) * LAT_SCALE)
  }

  function Square(v: Vec): real { v.x * v.x + v.y * v.y }

  function Along(a: Vec, b: Vec, t: real): Vec {
    Vec(a.x + t * (b.x - a.x), a.y + t * (b.y - a.y))
  }

  function Dot(a: Vec, b: Vec): real { a.x * b.x + a.y * b.y }

  function Minus(b: Vec, a: Vec): Vec { Vec(b.x - a.x, b.y - a.y) }

  function Clamp(q: real): (t: real)
    ensures 0.0 <= t <= 1.0
  {
    if q < 0.0 then 0.0 else if q > 1.0 then 1.0 else q
  }

  /** Clamped projection parameter of the origin on the segment a-b. */
  function Project(a: Vec, b: Vec): (t: real)
    ensures 0.0 <= t <= 1.0
  {
    var d := Minus(b, a);
    if Square(d) > 0.0 then Clamp(-Dot(a, d) / Square(d)) else 0.0
  }

  lemma PositiveProduct(x: real, y: real, p: real)
    requires x > 0.0 && y > 0.0 && p == x * y
    ensures p > 0.0
  {
  }

  lemma SquareOf(x: real) returns (p: real)
    ensures p == x * x && p >= 0.0
    ensures x != 0.0 ==> p > 0.0
  {
    p := x * x;
    if x > 0.0 { PositiveProduct(x, x, p); }
    if x < 0.0 { PositiveProduct(-x, -x, p); }
  }

  lemma SquareNonnegative(v: Vec)
    ensures Square(v) >= 0.0
    ensures Square(v) == 0.0 ==> v.x == 0.0 && v.y == 0.0
  {
    var p := SquareOf(v.x);
    var q := SquareOf(v.y);
  }

  // |a + s(b-a)|^2 as a quadratic in s.
  lemma Quadratic(a: Vec, b: Vec, s: real)
    ensures Square(Along(a, b, s)) ==
            Square(a) + s * (2.0 * Dot(a, Minus(b, a))) + (s * s) * Square(Minus(b, a))
  {
    var d := Minus(b, a);
    assert (a.x + s * d.x) * (a.x + s * d.x) == a.x * a.x + s * (2.0 * (a.x * d.x)) + (s * s) * (d.x * d.x);
    assert (a.y + s * d.y) * (a.y + s * d.y) == a.y * a.y + s * (2.0 * (a.y * d.y)) + (s * s) * (d.y * d.y);
  }

  // A quadratic c + 2Bs + Ds^2 is least on [0, 1] at the clamp of -B/D.
  lemma ClampedMinimum(B: real, D: real, s: real)
    requires D > 0.0 && 0.0 <= s <= 1.0
    ensures var t := Clamp(-B / D);
            t * (2.0 * B) + (t * t) * D <= s * (2.0 * B) + (s * s) * D
  {
    var q := -B / D;
    var t := Clamp(q);
    assert q * D == -B;
    var rise := s * (2.0 * B) + (s * s) * D - (t * (2.0 * B) + (t * t) * D);
    assert rise == (s - t) * ((s + t) * D + 2.0 * B);
    assert (s + t) * D + 2.0 * B == ((s - q) + (t - q)) * D;
    if t == q {
      assert rise == ((s - t) * (s - t)) * D;
    } else if t == 0.0 {
      assert (s - q) + (t - q) >= 0.0;
      assert ((s - q) + (t - q)) * D >= 0.0;
      assert rise >= 0.0;
    } else {
      assert (s - q) + (t - q) <= 0.0;
      assert ((s - q) + (t - q)) * D <= 0.0;
      assert s - t <= 0.0;
      NonpositiveProduct(s - t, ((s - q) + (t - q)) * D);
    }
  }

  lemma NonpositiveProduct(p: real, q: real)
    requires p <= 0.0 && q <= 0.0
    ensures p * q >= 0.0
  {
  }

  // The same comparison with the constant term, free of vectors.
  lemma QuadraticLeast(c: real, B: real, D: real, s: real)
    requires D > 0.0 && 0.0 <= s <= 1.0
    ensures var t := Clamp(-B / D);
            c + t * (2.0 * B) + (t * t) * D <= c + s * (2.0 * B) + (s * s) * D
  {
    ClampedMinimum(B, D, s);
  }

  lemma AlongPoint(a: Vec, s: real)
    ensures Along(a, a, s) == a
  {
    assert s * (a.x - a.x) == 0.0 && s * (a.y - a.y) == 0.0;
  }

  // The clamped projection is at least as close as any other point of the segment.
  lemma ProjectionMinimal(a: Vec, b: Vec, s: real)
    requires 0.0 <= s <= 1.0
    ensures Square(Along(a, b, Project(a, b))) <= Square(Along(a, b, s))
  {
    hide Project, Square, Along;
    var d := Minus(b, a);
    SquareNonnegative(d);
    if Square(d) > 0.0 {
      ProjectionMinimalProper(a, b, s);
    } else {
      assert a == b;
      AlongPoint(a, s);
      AlongPoint(a, Project(a, b));
    }
  }

  lemma ProjectProper(a: Vec, b: Vec)
    requires Square(Minus(b, a)) > 0.0
    ensures Project(a, b) == Clamp(-Dot(a, Minus(b, a)) / Square(Minus(b, a)))
  {
    hide Square, Dot;
  }

  lemma ProjectionMinimalProper(a: Vec, b: Vec, s: real)
    requires 0.0 <= s <= 1.0 && Square(Minus(b, a)) > 0.0
    ensures Square(Along(a, b, Project(a, b))) <= Square(Along(a, b, s))
  {
    hide Square, Along, Dot, Project;
    var c, B, D := Square(a), Dot(a, Minus(b, a)), Square(Minus(b, a));
    var t := Project(a, b);
    ProjectProper(a, b);
    calc {
      Square(Along(a, b, t));
      { Quadratic(a, b, t); }
      c + t * (2.0 * B) + (t * t) * D;
      <= { QuadraticLeast(c, B, D, s); }
      c + s * (2.0 * B) + (s * s) * D;
      { Quadratic(a, b, s); }
      Square(Along(a, b, s));
    }
  }

  function Next(n: nat, i: nat): nat
    requires i < n
  {
    if i + 1 == n then 0 else i + 1
  }

  /** Distance from the origin to the segment a-b. */
  function SegmentDistance(m: Metric, a: Vec, b: Vec): real {
    m.root(Square(Along(a, b, Project(a, b))))
  }

  function Offsets(m: Metric, lat: real, lon: real, ring: seq<Point>): seq<Vec> {
    seq(|ring|, i requires 0 <= i < |ring| => Offset(m, lat, lon, ring[i]))
  }

  function EdgeDistances(m: Metric, vs: seq<Vec>): seq<real> {
    seq(|vs|, i requires 0 <= i < |vs| => SegmentDistance(m, vs[i], vs[Next(|vs|, i)]))
  }

  function Least(ds: seq<real>): (d: real)
    requires ds != []
    ensures d in ds
    ensures forall i :: 0 <= i < |ds| ==> d <= ds[i]
  {
    var last := ds[|ds| - 1];
    if |ds| == 1 then last
    else
      var rest := Least(ds[..|ds| - 1]);
      if last < rest then last else rest
  }

  /** None stands for the infinite distance of a ring with fewer than two points. */
  function RingDistance(m: Metric, lat: real, lon: real, ring: seq<Point>): (d: Option<real>)
    ensures d.Some? <==> |ring| >= 2
  {
    if |ring| < 2 then None else Some(Least(EdgeDistances(m, Offsets(m, lat, lon, ring))))
  }

  method DistanceToRing(m: Metric, lat: real, lon: real, ring: seq<Point>) returns (best: Option<real>)
    ensures best == RingDistance(m, lat, lon, ring)
  {
    hide SegmentDistance, Offset;
    best := None;
    if |ring| < 2 { return; }
    ghost var ds := EdgeDistances(m, Offsets(m, lat, lon, ring));
    for i := 0 to |ring|
      invariant best == if i == 0 then None else Some(Least(ds[..i]))
    {
      var j := if i + 1 == |ring| then 0 else i + 1;
      var distance := SegmentDistance(m, Offset(m, lat, lon, ring[i]), Offset(m, lat, lon, ring[j]));
      assert distance == ds[i];
      assert ds[..i + 1][..i] == ds[..i];
      if best.None? || distance < best.value { best := Some(distance); }
    }
    assert ds[..|ring|] == ds;
  }

  lemma {:induction false} SegmentDistanceMinimal(m: Metric, a: Vec, b: Vec, s: real)
    requires 0.0 <= s <= 1.0 && Monotone(m.root)
    ensures SegmentDistance(m, a, b) <= m.root(Square(Along(a, b, s)))
  {
    ProjectionMinimal(a, b, s);
    SquareNonnegative(Along(a, b, Project(a, b)));
  }

  // The reported distance is attained at a point of some edge and no point of
  // any edge is nearer.
  lemma {:induction false} RingDistanceMinimal(m: Metric, lat: real, lon: real, ring: seq<Point>)
    requires |ring| >= 2 && Monotone(m.root)
    ensures var vs := Offsets(m, lat, lon, ring);
            var d := RingDistance(m, lat, lon, ring).value;
            && (exists i, t ::
                  0 <= i < |vs| && 0.0 <= t <= 1.0 && d == m.root(Square(Along(vs[i], vs[Next(|vs|, i)], t))))
            && (forall i, s :: 0 <= i < |vs| && 0.0 <= s <= 1.0 ==>
                 d <= m.root(Square(Along(vs[i], vs[Next(|vs|, i)], s))))
  {
    var vs := Offsets(m, lat, lon, ring);
    var ds := EdgeDistances(m, vs);
    var d := Least(ds);
    var e :| 0 <= e < |ds| && ds[e] == d;
    var t := Project(vs[e], vs[Next(|vs|, e)]);
    assert d == m.root(Square(Along(vs[e], vs[Next(|vs|, e)], t)));
    forall i, s | 0 <= i < |vs| && 0.0 <= s <= 1.0
      ensures d <= m.root(Square(Along(vs[i], vs[Next(|vs|, i)], s)))
    {
      SegmentDistanceMinimal(m, vs[i], vs[Next(|vs|, i)], s);
      assert d <= ds[i];
    }
  }

  // The zero-length closing edge is no nearer than the edge that starts at the same vertex.
  lemma {:induction false} ClosingEdge(m: Metric, a: Vec, b: Vec)
    requires Monotone(m.root)
    ensures SegmentDistance(m, a, b) <= SegmentDistance(m, a, a)
  {
    hide Project, Square;
    AlongPoint(a, Project(a, a));
    assert Along(a, b, 0.0) == a;
    SegmentDistanceMinimal(m, a, b, 0.0);
  }

  // Closing a ring explicitly does not change its distance.
  lemma {:induction false} RingDistanceClosed(m: Metric, lat: real, lon: real, ring: seq<Point>)
    requires |ring| >= 2 && Monotone(m.root)
    ensures RingDistance(m, lat, lon, ring + [ring[0]]) == RingDistance(m, lat, lon, ring)
  {
    hide SegmentDistance, Offset;
    var vs := Offsets(m, lat, lon, ring);
    var n := |vs|;
    assert Offsets(m, lat, lon, ring + [ring[0]]) == vs + [vs[0]];
    var ds := EdgeDistances(m, vs);
    var closed := EdgeDistances(m, vs + [vs[0]]);
    assert closed == ds + [SegmentDistance(m, vs[0], vs[0])];
    assert closed[..n] == ds;
    ClosingEdge(m, vs[0], vs[1]);
    assert Least(ds) <= ds[0] <= closed[n];
  }
}
