/** What point-in-polygon answers, without counting crossings: nothing outside the
    bounding box, and for convex rings exactly the side of the edges. */
module Convexity {
  import opened Domain
  import opened Geometry

  // ---------- sides ----------

  /** Positive when (x, y) lies to the left of the directed line from a to b. */
  function Side(a: Point, b: Point, x: real, y: real): real {
    (b.longitude - a.longitude) * (y - a.latitude) - (x - a.longitude) * (b.latitude - a.latitude)
  }

  predicate Rises(a: Point, b: Point, y: real) { a.latitude <= y < b.latitude }

  // A crossing is a rising edge with the point on its left, or a falling one with it on the right.
  lemma CrossesBySide(x: real, y: real, a: Point, b: Point)
    ensures Crosses(x, y, b, a) <==>
            (Rises(a, b, y) && Side(a, b, x, y) > 0.0) || (Rises(b, a, y) && Side(a, b, x, y) < 0.0)
  {
    hide Crosses;
    CrossesSymmetric(x, y, a, b);
    if (a.latitude > y) != (b.latitude > y) {
      CrossesByProduct(x, y, a, b);
      if b.latitude > a.latitude {
        assert Rises(a, b, y) && !Rises(b, a, y);
      } else {
        assert Rises(b, a, y) && !Rises(a, b, y);
      }
    } else {
      NeverCrosses(x, y, a, b);
    }
  }

  lemma NeverCrosses(x: real, y: real, a: Point, b: Point)
    requires (a.latitude > y) == (b.latitude > y)
    ensures !Crosses(x, y, a, b)
  {
  }

  // How far along the edge the height y is met.
  function Share(a: Point, b: Point, y: real): real
    requires a.latitude != b.latitude
  {
    (y - a.latitude) / (b.latitude - a.latitude)
  }

  function MeetX(a: Point, b: Point, y: real): real
    requires a.latitude != b.latitude
  {
    a.longitude + Share(a, b, y) * (b.longitude - a.longitude)
  }

  lemma DivideTimes(n: real, d: real)
    requires d != 0.0
    ensures (n / d) * d == n
  {
  }

  lemma ShareBounds(a: Point, b: Point, y: real)
    requires Rises(a, b, y) || Rises(b, a, y)
    ensures var s := Share(a, b, y);
            && s * (b.latitude - a.latitude) == y - a.latitude && 0.0 <= s <= 1.0
            && (Rises(a, b, y) ==> s < 1.0) && (Rises(b, a, y) ==> s > 0.0)
  {
    hide Share;
    var d, n := b.latitude - a.latitude, y - a.latitude;
    var s := Share(a, b, y);
    assert s == n / d by { ShareIs(a, b, y); }
    DivideTimes(n, d);
    UnitQuotient(s, d, n);
  }

  lemma ShareIs(a: Point, b: Point, y: real)
    requires a.latitude != b.latitude
    ensures Share(a, b, y) == (y - a.latitude) / (b.latitude - a.latitude)
  {
  }

  lemma UnitQuotient(s: real, d: real, n: real)
    requires s * d == n && d != 0.0
    ensures d > 0.0 && 0.0 <= n < d ==> 0.0 <= s < 1.0
    ensures d < 0.0 && d <= n < 0.0 ==> 0.0 < s <= 1.0
  {
    assert (1.0 - s) * d == d - n;
    ProductSign(s, d);
    ProductSign(1.0 - s, d);
    if s < 0.0 { ProductSign(-s, d); assert (-s) * d == -n; }
    if s > 1.0 { ProductSign(s - 1.0, d); assert (s - 1.0) * d == n - d; }
  }

  lemma Distribute(p: real, u: real, v: real, s: real)
    ensures p * (u + s * (v - u)) == (1.0 - s) * (p * u) + s * (p * v)
  {
    assert p * (s * (v - u)) == s * (p * v) - s * (p * u);
  }

  // Along an edge the side of any line changes affinely.
  lemma SideAlong(c: Point, d: Point, a: Point, b: Point, s: real)
    ensures Side(c, d, a.longitude + s * (b.longitude - a.longitude), a.latitude + s * (b.latitude - a.latitude)) ==
            (1.0 - s) * Side(c, d, a.longitude, a.latitude) + s * Side(c, d, b.longitude, b.latitude)
  {
    var p, q := d.longitude - c.longitude, d.latitude - c.latitude;
    var ax, ay, bx, bz := a.longitude - c.longitude, a.latitude - c.latitude, b.longitude - c.longitude,
      b.latitude - c.latitude;
    Distribute(p, ay, bz, s);
    Distribute(q, ax, bx, s);
    assert a.latitude + s * (b.latitude - a.latitude) - c.latitude == ay + s * (bz - ay);
    assert a.longitude + s * (b.longitude - a.longitude) - c.longitude == ax + s * (bx - ax);
    Combine(p * ay, q * ax, p * bz, q * bx, s);
  }

  lemma Combine(i: real, j: real, k: real, l: real, s: real)
    ensures ((1.0 - s) * i + s * k) - ((1.0 - s) * j + s * l) == (1.0 - s) * (i - j) + s * (k - l)
  {
  }

  lemma SideShift(c: Point, d: Point, x: real, w: real, y: real)
    ensures Side(c, d, x, y) == Side(c, d, w, y) + (w - x) * (d.latitude - c.latitude)
  {
    var q := d.latitude - c.latitude;
    assert (w - c.longitude) * q - (x - c.longitude) * q == (w - x) * q;
  }

  lemma SideOfEnds(a: Point, b: Point)
    ensures Side(a, b, a.longitude, a.latitude) == 0.0 && Side(a, b, b.longitude, b.latitude) == 0.0
  {
    ZeroProduct(b.longitude - a.longitude);
    ZeroProduct(b.latitude - a.latitude);
    assert a.latitude - a.latitude == 0.0 && a.longitude - a.longitude == 0.0;
  }

  lemma ZeroProduct(u: real)
    ensures u * 0.0 == 0.0 && 0.0 * u == 0.0
  {
  }

  // The sign of a side that is a multiple of the distance to a meeting point.
  lemma SideSign(side: real, m: real, x: real, h: real)
    requires side == (m - x) * h && h != 0.0
    ensures h > 0.0 ==> (side > 0.0 <==> x < m) && (side >= 0.0 <==> x <= m)
    ensures h < 0.0 ==> (side < 0.0 <==> x < m) && (side > 0.0 <==> m < x)
  {
    ProductSign(m - x, h);
    ProductSign(x - m, h);
    assert (x - m) * h == -((m - x) * h);
  }

  // The side of any line at the meeting point, and the side of the edge itself.
  lemma SideAtMeet(c: Point, d: Point, a: Point, b: Point, x: real, y: real)
    requires Rises(a, b, y) || Rises(b, a, y)
    ensures var s, m := Share(a, b, y), MeetX(a, b, y);
            && Side(c, d, m, y) ==
               (1.0 - s) * Side(c, d, a.longitude, a.latitude) + s * Side(c, d, b.longitude, b.latitude)
            && Side(a, b, x, y) == (m - x) * (b.latitude - a.latitude)
  {
    hide Side, Share;
    var s, m := Share(a, b, y), MeetX(a, b, y);
    ShareBounds(a, b, y);
    assert a.latitude + s * (b.latitude - a.latitude) == y && a.longitude + s * (b.longitude - a.longitude) == m;
    SideAlong(c, d, a, b, s);
    SideAlong(a, b, a, b, s);
    SideOfEnds(a, b);
    ZeroProduct(1.0 - s);
    ZeroProduct(s);
    assert Side(a, b, m, y) == 0.0;
    SideShift(a, b, x, m, y);
  }

  lemma WeightedSum(s: real, p: real, q: real)
    requires 0.0 <= s <= 1.0 && p >= 0.0 && q >= 0.0
    ensures (1.0 - s) * p + s * q >= 0.0
    ensures (1.0 - s) * p + s * q == 0.0 ==> (s < 1.0 ==> p == 0.0) && (s > 0.0 ==> q == 0.0)
  {
    NonnegativeProduct(1.0 - s, p);
    NonnegativeProduct(s, q);
  }

  lemma NonnegativeProduct(u: real, v: real)
    requires u >= 0.0 && v >= 0.0
    ensures u * v >= 0.0 && (u * v == 0.0 ==> u == 0.0 || v == 0.0)
  {
  }

  // ---------- parity ----------

  predicate RisesAt(ring: seq<Point>, i: nat, y: real)
    requires i < |ring|
  {
    Rises(ring[Previous(|ring|, i)], ring[i], y)
  }

  predicate FallsAt(ring: seq<Point>, i: nat, y: real)
    requires i < |ring|
  {
    Rises(ring[i], ring[Previous(|ring|, i)], y)
  }

  function Straddles(ring: seq<Point>, y: real): seq<bool> {
    seq(|ring|, i requires 0 <= i < |ring| => RisesAt(ring, i, y) || FallsAt(ring, i, y))
  }

  // Around a ring, as many edges rise through a height as fall.
  lemma {:induction false} StraddlesBalance(ring: seq<Point>, y: real, k: nat)
    requires 1 <= k <= |ring|
    ensures Xor(Straddles(ring, y)[..k]) == ((ring[k - 1].latitude > y) != (ring[|ring| - 1].latitude > y))
  {
    var t := Straddles(ring, y);
    assert t[..k][..k - 1] == t[..k - 1];
    if k > 1 { StraddlesBalance(ring, y, k - 1); } else { assert t[..0] == []; }
  }

  lemma StraddlesEven(ring: seq<Point>, y: real)
    requires ring != []
    ensures !Xor(Straddles(ring, y))
  {
    StraddlesBalance(ring, y, |ring|);
    assert Straddles(ring, y)[..|ring|] == Straddles(ring, y);
  }

  // At most the entries u and d are set.
  lemma {:induction false} XorTwo(c: seq<bool>, u: nat, d: nat)
    requires u != d && forall i :: 0 <= i < |c| && c[i] ==> i == u || i == d
    ensures Xor(c) == ((u < |c| && c[u]) != (d < |c| && c[d]))
  {
    if c != [] { XorTwo(c[..|c| - 1], u, d); }
  }

  // ---------- outside the bounding box ----------

  predicate Beyond(x: real, y: real, ring: seq<Point>) {
    || (forall i :: 0 <= i < |ring| ==> y < ring[i].latitude) || (forall i :: 0 <= i < |ring| ==> ring[i].latitude <= y)
    || (forall i :: 0 <= i < |ring| ==> x < ring[i].longitude)
    || (forall i :: 0 <= i < |ring| ==> ring[i].longitude <= x)
  }

  lemma MeetBetween(a: Point, b: Point, y: real)
    requires Rises(a, b, y) || Rises(b, a, y)
    ensures var m := MeetX(a, b, y);
            (a.longitude <= m || b.longitude <= m) && (m <= a.longitude || m <= b.longitude)
  {
    hide Share;
    ShareBounds(a, b, y);
    var s, w := Share(a, b, y), b.longitude - a.longitude;
    if w >= 0.0 {
      NonnegativeProduct(s, w);
      NonnegativeProduct(1.0 - s, w);
    } else {
      NonnegativeProduct(s, -w);
      NonnegativeProduct(1.0 - s, -w);
    }
    assert (1.0 - s) * w == w - s * w && s * (-w) == -(s * w) && (1.0 - s) * (-w) == -w + s * w;
  }

  // An edge wholly to one side of the point in longitude.
  lemma CrossesAside(x: real, y: real, a: Point, b: Point)
    ensures x < a.longitude && x < b.longitude ==> (Crosses(x, y, b, a) <==> Rises(a, b, y) || Rises(b, a, y))
    ensures a.longitude <= x && b.longitude <= x ==> !Crosses(x, y, b, a)
  {
    hide Side, MeetX, Crosses;
    CrossesBySide(x, y, a, b);
    if Rises(a, b, y) || Rises(b, a, y) {
      SideAtMeet(a, b, a, b, x, y);
      MeetBetween(a, b, y);
      SideSign(Side(a, b, x, y), MeetX(a, b, y), x, b.latitude - a.latitude);
    }
  }

  /** A point outside the ring's bounding box is never inside, for any ring. */
  lemma OutsideBox(x: real, y: real, ring: seq<Point>)
    requires Beyond(x, y, ring)
    ensures !Inside(x, y, ring)
  {
    hide Crosses;
    if |ring| >= 3 {
      var c, t := Crossings(x, y, ring), Straddles(ring, y);
      forall i | 0 <= i < |ring| ensures c[i] ==> t[i] {
        CrossesBySide(x, y, ring[Previous(|ring|, i)], ring[i]);
      }
      forall i | 0 <= i < |ring|
        ensures x < ring[i].longitude && x < ring[Previous(|ring|, i)].longitude ==> c[i] == t[i]
        ensures ring[i].longitude <= x && ring[Previous(|ring|, i)].longitude <= x ==> !c[i]
      {
        CrossesAside(x, y, ring[Previous(|ring|, i)], ring[i]);
      }
      if forall i :: 0 <= i < |ring| ==> x < ring[i].longitude {
        assert c == t;
        StraddlesEven(ring, y);
      } else {
        XorTwo(c, |ring|, |ring| + 1);
      }
    }
  }

  // ---------- convex rings ----------

  function SideAt(ring: seq<Point>, i: nat, x: real, y: real): real
    requires i < |ring|
  {
    Side(ring[Previous(|ring|, i)], ring[i], x, y)
  }

  /** Counter-clockwise, and every other vertex strictly to the left of every edge. */
  predicate StrictlyConvex(ring: seq<Point>) {
    |ring| >= 3 &&
    forall i: nat, j: nat :: i < |ring| && j < |ring| && j != i && j != Previous(|ring|, i) ==>
      SideAt(ring, i, ring[j].longitude, ring[j].latitude) > 0.0
  }

  lemma VertexSide(ring: seq<Point>, i: nat, j: nat)
    requires StrictlyConvex(ring) && i < |ring| && j < |ring|
    ensures SideAt(ring, i, ring[j].longitude, ring[j].latitude) >= 0.0
    ensures SideAt(ring, i, ring[j].longitude, ring[j].latitude) == 0.0 ==> j == i || j == Previous(|ring|, i)
  {
    hide Side;
    SideOfEnds(ring[Previous(|ring|, i)], ring[i]);
  }

  function MeetAt(ring: seq<Point>, k: nat, y: real): real
    requires k < |ring| && (RisesAt(ring, k, y) || FallsAt(ring, k, y))
  {
    MeetX(ring[Previous(|ring|, k)], ring[k], y)
  }

  // Every edge has the meeting points of the others on its left or on itself.
  lemma MeetSide(ring: seq<Point>, i: nat, k: nat, y: real)
    requires StrictlyConvex(ring) && i < |ring| && k < |ring| && (RisesAt(ring, k, y) || FallsAt(ring, k, y))
    ensures SideAt(ring, i, MeetAt(ring, k, y), y) >= 0.0
    ensures SideAt(ring, i, MeetAt(ring, k, y), y) == 0.0 && RisesAt(ring, k, y) ==>
              Previous(|ring|, k) == i || Previous(|ring|, k) == Previous(|ring|, i)
    ensures SideAt(ring, i, MeetAt(ring, k, y), y) == 0.0 && FallsAt(ring, k, y) ==> k == i || k == Previous(|ring|, i)
  {
    hide Side, Share, MeetX, StrictlyConvex;
    var a, b := Previous(|ring|, k), k;
    SideAtMeet(ring[Previous(|ring|, i)], ring[i], ring[a], ring[b], 0.0, y);
    ShareBounds(ring[a], ring[b], y);
    VertexSide(ring, i, a);
    VertexSide(ring, i, b);
    WeightedSum(Share(ring[a], ring[b], y), SideAt(ring, i, ring[a].longitude, ring[a].latitude),
      SideAt(ring, i, ring[b].longitude, ring[b].latitude));
  }

  // The side of an edge in terms of where it meets the height.
  lemma SideByMeet(ring: seq<Point>, i: nat, x: real, y: real)
    requires i < |ring| && (RisesAt(ring, i, y) || FallsAt(ring, i, y))
    ensures var s := SideAt(ring, i, x, y);
            && (RisesAt(ring, i, y) ==>
                 (s > 0.0 <==> x < MeetAt(ring, i, y)) && (s >= 0.0 <==> x <= MeetAt(ring, i, y)))
            && (FallsAt(ring, i, y) ==> (s < 0.0 <==> x < MeetAt(ring, i, y)) && (s > 0.0 <==> MeetAt(ring, i, y) < x))
  {
    hide Side, MeetX;
    var a, b := ring[Previous(|ring|, i)], ring[i];
    SideAtMeet(a, b, a, b, x, y);
    SideSign(Side(a, b, x, y), MeetX(a, b, y), x, b.latitude - a.latitude);
  }

  /** A convex ring rises through a height at most once, and falls at most once. */
  lemma OneRise(ring: seq<Point>, i: nat, k: nat, y: real)
    requires StrictlyConvex(ring) && i < |ring| && k < |ring| && RisesAt(ring, i, y) && RisesAt(ring, k, y)
    ensures i == k
  {
    hide StrictlyConvex, MeetAt, SideAt;
    MeetSide(ring, i, k, y);
    MeetSide(ring, k, i, y);
    SideByMeet(ring, i, MeetAt(ring, k, y), y);
    SideByMeet(ring, k, MeetAt(ring, i, y), y);
  }

  lemma OneFall(ring: seq<Point>, i: nat, k: nat, y: real)
    requires StrictlyConvex(ring) && i < |ring| && k < |ring| && FallsAt(ring, i, y) && FallsAt(ring, k, y)
    ensures i == k
  {
    hide StrictlyConvex, MeetAt, SideAt;
    MeetSide(ring, i, k, y);
    MeetSide(ring, k, i, y);
    SideByMeet(ring, i, MeetAt(ring, k, y), y);
    SideByMeet(ring, k, MeetAt(ring, i, y), y);
  }

  // A convex ring either misses the height or rises and falls through it once.
  lemma RiseAndFall(ring: seq<Point>, y: real) returns (met: bool, u: nat, d: nat)
    requires StrictlyConvex(ring)
    ensures !met ==> forall i: nat :: i < |ring| ==> !RisesAt(ring, i, y) && !FallsAt(ring, i, y)
    ensures met ==> u < |ring| && d < |ring| && u != d && RisesAt(ring, u, y) && FallsAt(ring, d, y)
    ensures met ==>
              forall i: nat :: i < |ring| ==> (RisesAt(ring, i, y) <==> i == u) && (FallsAt(ring, i, y) <==> i == d)
  {
    hide StrictlyConvex, Rises;
    var t := Straddles(ring, y);
    met, u, d := false, |ring|, |ring| + 1;
    if i: nat :| i < |ring| && RisesAt(ring, i, y) { u := i; }
    if i: nat :| i < |ring| && FallsAt(ring, i, y) { d := i; }
    forall i: nat | i < |ring| && RisesAt(ring, i, y) ensures i == u { OneRise(ring, i, u, y); }
    forall i: nat | i < |ring| && FallsAt(ring, i, y) ensures i == d { OneFall(ring, i, d, y); }
    NotBoth(ring, y);
    ConvexSize(ring);
    StraddlesEven(ring, y);
    XorTwo(t, u, d);
    met := u < |ring|;
  }

  lemma NotBoth(ring: seq<Point>, y: real)
    ensures forall i: nat :: i < |ring| ==> !(RisesAt(ring, i, y) && FallsAt(ring, i, y))
  {
  }

  // ---------- the interior ----------

  function CrossOf(a: Point, b: Point, x: real, y: real): real {
    (a.longitude - x) * (b.latitude - y) - (a.latitude - y) * (b.longitude - x)
  }

  lemma SideIsCross(a: Point, b: Point, x: real, y: real)
    ensures Side(a, b, x, y) == CrossOf(a, b, x, y)
  {
    var ux, uy, wx, wy := a.longitude - x, a.latitude - y, b.longitude - x, b.latitude - y;
    assert b.longitude - a.longitude == wx - ux && b.latitude - a.latitude == wy - uy;
    assert (wx - ux) * (-uy) - (-ux) * (wy - uy) == ux * wy - uy * wx;
  }

  // Seen from a point below or above a whole edge, the left side means a falling slope.
  lemma SlopeFalls(ux: real, uy: real, wx: real, wy: real)
    requires ux * wy - uy * wx > 0.0 && ((uy > 0.0 && wy > 0.0) || (uy < 0.0 && wy < 0.0))
    ensures ux / uy > wx / wy
  {
    var r, t := ux / uy, wx / wy;
    DivideTimes(ux, uy);
    DivideTimes(wx, wy);
    var p := uy * wy;
    assert p > 0.0 by { if uy < 0.0 { NonnegativeProduct(-uy, -wy); } else { NonnegativeProduct(uy, wy); } }
    assert ux * wy == r * p && uy * wx == t * p by {
      assert ux * wy == (r * uy) * wy && uy * wx == uy * (t * wy);
    }
    assert (r - t) * p > 0.0;
    ProductSign(r - t, p);
  }

  predicate OnLeft(ring: seq<Point>, x: real, y: real) {
    forall i: nat :: i < |ring| ==> SideAt(ring, i, x, y) > 0.0
  }

  function Slope(ring: seq<Point>, i: nat, x: real, y: real): real
    requires i < |ring| && ring[i].latitude != y
  {
    (ring[i].longitude - x) / (ring[i].latitude - y)
  }

  lemma SlopeStep(ring: seq<Point>, i: nat, x: real, y: real)
    requires i < |ring| && SideAt(ring, i, x, y) > 0.0
    requires var p := ring[Previous(|ring|, i)];
             (p.latitude > y && ring[i].latitude > y) || (p.latitude < y && ring[i].latitude < y)
    ensures Slope(ring, Previous(|ring|, i), x, y) > Slope(ring, i, x, y)
  {
    hide Side;
    var a, b := ring[Previous(|ring|, i)], ring[i];
    SideIsCross(a, b, x, y);
    SlopeFalls(a.longitude - x, a.latitude - y, b.longitude - x, b.latitude - y);
  }

  lemma {:induction false} SlopesFall(ring: seq<Point>, k: nat, x: real, y: real)
    requires OnLeft(ring, x, y) && k < |ring|
    requires || (forall i: nat :: i < |ring| ==> ring[i].latitude > y)
             || (forall i: nat :: i < |ring| ==> ring[i].latitude < y)
    ensures Slope(ring, k, x, y) <= Slope(ring, 0, x, y)
  {
    hide Slope, SideAt;
    if k > 0 {
      SlopesFall(ring, k - 1, x, y);
      SlopeStep(ring, k, x, y);
    }
  }

  // A vertex level with the point cannot close a turn below it.
  lemma NoneLevel(ring: seq<Point>, i: nat, x: real, y: real)
    requires OnLeft(ring, x, y) && i < |ring| && forall j: nat :: j < |ring| ==> ring[j].latitude <= y
    ensures ring[i].latitude < y
  {
    hide Side;
    var p, n := Previous(|ring|, i), Next(|ring|, i);
    assert Previous(|ring|, n) == i;
    assert SideAt(ring, i, x, y) > 0.0 && SideAt(ring, n, x, y) > 0.0;
    SideIsCross(ring[p], ring[i], x, y);
    SideIsCross(ring[i], ring[n], x, y);
    LevelSigns(ring[p].longitude - x, y - ring[p].latitude, ring[i].longitude - x, y - ring[i].latitude,
      ring[n].longitude - x, y - ring[n].latitude);
  }

  lemma LevelSigns(px: real, py: real, ix: real, iy: real, nx: real, ny: real)
    requires py >= 0.0 && iy >= 0.0 && ny >= 0.0
    requires px * (-iy) - (-py) * ix > 0.0 && ix * (-ny) - (-iy) * nx > 0.0
    ensures iy > 0.0
  {
    assert iy == 0.0 ==> px * (-iy) == 0.0 && (-iy) * nx == 0.0 by {
      ZeroProduct(px);
      ZeroProduct(nx);
    }
    assert (-py) * ix == -(py * ix) && ix * (-ny) == -(ix * ny);
    OppositeSigns(py, ix, ny);
  }

  lemma OppositeSigns(p: real, i: real, n: real)
    requires p >= 0.0 && n >= 0.0
    ensures p * i > 0.0 ==> i * n >= 0.0
  {
    if i >= 0.0 {
      NonnegativeProduct(i, n);
    } else {
      NonnegativeProduct(p, -i);
      assert p * (-i) == -(p * i);
    }
  }

  /** A point to the left of every edge is level with some part of the ring. */
  lemma LeftIsLevel(ring: seq<Point>, x: real, y: real)
    requires |ring| >= 3 && OnLeft(ring, x, y)
    ensures exists i: nat :: i < |ring| && (RisesAt(ring, i, y) || FallsAt(ring, i, y))
  {
    hide SideAt;
    if forall i: nat :: i < |ring| ==> !RisesAt(ring, i, y) && !FallsAt(ring, i, y) {
      forall k: nat | k < |ring| ensures (ring[k].latitude > y) == (ring[0].latitude > y) { SameHeight(ring, k, y); }
      if ring[0].latitude <= y {
        forall i: nat | i < |ring| ensures ring[i].latitude < y { NoneLevel(ring, i, x, y); }
      }
      var n := |ring| - 1;
      SlopesFall(ring, n, x, y);
      SlopeStep(ring, 0, x, y);
    }
  }

  lemma {:induction false} SameHeight(ring: seq<Point>, k: nat, y: real)
    requires k < |ring| && forall i: nat :: i < |ring| ==> !RisesAt(ring, i, y) && !FallsAt(ring, i, y)
    ensures (ring[k].latitude > y) == (ring[0].latitude > y)
  {
    if k > 0 {
      SameHeight(ring, k - 1, y);
      assert !RisesAt(ring, k, y) && !FallsAt(ring, k, y);
    }
  }

  // The crossings of a convex ring are decided by its two meeting points.
  lemma ConvexCrossings(ring: seq<Point>, x: real, y: real, u: nat, d: nat)
    requires StrictlyConvex(ring) && u < |ring| && d < |ring| && u != d && RisesAt(ring, u, y) && FallsAt(ring, d, y)
    requires forall i: nat :: i < |ring| ==> (RisesAt(ring, i, y) <==> i == u) && (FallsAt(ring, i, y) <==> i == d)
    ensures MeetAt(ring, d, y) <= MeetAt(ring, u, y)
    ensures Inside(x, y, ring) <==> MeetAt(ring, d, y) <= x < MeetAt(ring, u, y)
  {
    hide StrictlyConvex, MeetAt, Crosses;
    var c := Crossings(x, y, ring);
    forall i: nat | i < |ring|
      ensures c[i] <==> (i == u && SideAt(ring, u, x, y) > 0.0) || (i == d && SideAt(ring, d, x, y) < 0.0)
    {
      CrossesBySide(x, y, ring[Previous(|ring|, i)], ring[i]);
      assert (RisesAt(ring, i, y) <==> i == u) && (FallsAt(ring, i, y) <==> i == d);
    }
    hide SideAt;
    XorTwo(c, u, d);
    SideByMeet(ring, u, x, y);
    SideByMeet(ring, d, x, y);
    MeetSide(ring, u, d, y);
    SideByMeet(ring, u, MeetAt(ring, d, y), y);
    assert |ring| >= 3 by { ConvexSize(ring); }
  }

  lemma ConvexSize(ring: seq<Point>)
    requires StrictlyConvex(ring)
    ensures |ring| >= 3
  {
  }

  /** A point strictly to the left of every edge of a convex ring is inside. */
  lemma ConvexInterior(x: real, y: real, ring: seq<Point>)
    requires StrictlyConvex(ring) && OnLeft(ring, x, y)
    ensures Inside(x, y, ring)
  {
    hide StrictlyConvex, MeetAt, SideAt, Inside, Rises;
    ConvexSize(ring);
    LeftIsLevel(ring, x, y);
    var met, u, d := RiseAndFall(ring, y);
    ConvexCrossings(ring, x, y, u, d);
    SideByMeet(ring, u, x, y);
    SideByMeet(ring, d, x, y);
    assert SideAt(ring, u, x, y) > 0.0 && SideAt(ring, d, x, y) > 0.0;
  }

  /** A point strictly to the right of some edge of a convex ring is not inside. */
  lemma ConvexExterior(x: real, y: real, ring: seq<Point>, e: nat)
    requires StrictlyConvex(ring) && e < |ring| && SideAt(ring, e, x, y) < 0.0
    ensures !Inside(x, y, ring)
  {
    hide StrictlyConvex, MeetAt, Rises, Crosses;
    var met, u, d := RiseAndFall(ring, y);
    if met {
      ConvexCrossings(ring, x, y, u, d);
      MeetSide(ring, e, u, y);
      MeetSide(ring, e, d, y);
      var p, q := ring[Previous(|ring|, e)], ring[e];
      BetweenSides(p, q, MeetAt(ring, d, y), x, MeetAt(ring, u, y), y);
    } else {
      var c := Crossings(x, y, ring);
      forall i: nat | i < |ring| ensures !c[i] {
        CrossesBySide(x, y, ring[Previous(|ring|, i)], ring[i]);
        assert !RisesAt(ring, i, y) && !FallsAt(ring, i, y);
      }
      XorTwo(c, |ring|, |ring| + 1);
    }
  }

  // Between two points on the left of a line one stays on the left.
  lemma BetweenSides(p: Point, q: Point, l: real, x: real, r: real, y: real)
    requires Side(p, q, l, y) >= 0.0 && Side(p, q, r, y) >= 0.0
    ensures l <= x <= r ==> Side(p, q, x, y) >= 0.0
  {
    hide Side;
    if l <= x <= r && p.latitude <= q.latitude {
      SideShift(p, q, x, r, y);
      ShiftKeeps(Side(p, q, x, y), Side(p, q, r, y), r - x, q.latitude - p.latitude);
    } else if l <= x <= r {
      SideShift(p, q, x, l, y);
      ShiftKeeps(Side(p, q, x, y), Side(p, q, l, y), l - x, q.latitude - p.latitude);
    }
  }

  lemma ShiftKeeps(side: real, base: real, g: real, h: real)
    requires base >= 0.0 && side == base + g * h && ((g >= 0.0 && h >= 0.0) || (g <= 0.0 && h <= 0.0))
    ensures side >= 0.0
  {
    SameSign(g, h);
  }

  lemma SameSign(u: real, v: real)
    requires (u >= 0.0 && v >= 0.0) || (u <= 0.0 && v <= 0.0)
    ensures u * v >= 0.0
  {
  }

  /** Clockwise rings answer alike: the answer does not depend on the direction. */
  lemma ClockwiseInterior(x: real, y: real, ring: seq<Point>)
    requires StrictlyConvex(Reverse(ring)) && OnLeft(Reverse(ring), x, y)
    ensures Inside(x, y, ring)
  {
    hide StrictlyConvex, Inside, OnLeft;
    InsideReversed(x, y, ring);
    ConvexInterior(x, y, Reverse(ring));
  }

  lemma ClockwiseExterior(x: real, y: real, ring: seq<Point>, e: nat)
    requires StrictlyConvex(Reverse(ring)) && e < |ring| && SideAt(Reverse(ring), e, x, y) < 0.0
    ensures !Inside(x, y, ring)
  {
    hide StrictlyConvex, Inside, SideAt;
    InsideReversed(x, y, ring);
    ConvexExterior(x, y, Reverse(ring), e);
  }
}
