/** Canonical sequences: the strictly ascending listing of a finite set under a
    caller-supplied order. Telemetry reads and history pages are both specified
    as the canonical listing of a set of rows. */
module Ordering {

  ghost predicate StrictOrder<T(!new)>(less: (T, T) -> bool) {
    && (forall x :: !less(x, x))
    && (forall x, y, z :: less(x, y) && less(y, z) ==> less(x, z))
  }

  ghost predicate TotalOn<T(!new)>(less: (T, T) -> bool, s: set<T>) {
    forall x, y :: x in s && y in s && x != y ==> less(x, y) || less(y, x)
  }

  ghost predicate Ascending<T(!new)>(less: (T, T) -> bool, q: seq<T>) {
    forall i, j :: 0 <= i < j < |q| ==> less(q[i], q[j])
  }

  ghost predicate Below<T(!new)>(less: (T, T) -> bool, a: set<T>, b: set<T>) {
    forall x, y :: x in a && y in b ==> less(x, y)
  }

  ghost function Elems<T>(q: seq<T>): set<T> {
    set x | x in q
  }

  // q lists exactly the members of s, each once, in ascending order.
  ghost predicate IsCanon<T(!new)>(less: (T, T) -> bool, q: seq<T>, s: set<T>) {
    Ascending(less, q) && Elems(q) == s
  }

  lemma CanonTail<T(!new)>(less: (T, T) -> bool, q: seq<T>, s: set<T>)
    requires StrictOrder(less) && IsCanon(less, q, s) && q != []
    ensures IsCanon(less, q[1..], s - {q[0]})
  {
    forall x | x in s - {q[0]} ensures x in q[1..] {
      var i :| 0 <= i < |q| && q[i] == x;
      assert q[1..][i - 1] == x;
    }
    forall x | x in q[1..] ensures x in s && x != q[0] {
      var i :| 0 <= i < |q[1..]| && q[1..][i] == x;
      assert less(q[0], q[i + 1]);
    }
  }

  lemma ElemsEmpty<T>(q: seq<T>)
    ensures Elems(q) == {} <==> q == []
  {
    if q != [] { assert q[0] in Elems(q); }
  }

  lemma HeadLeast<T(!new)>(less: (T, T) -> bool, q: seq<T>, i: nat)
    requires Ascending(less, q) && i < |q|
    ensures q[i] == q[0] || less(q[0], q[i])
  {
  }

  // A set has at most one canonical listing.
  lemma {:induction false} CanonUnique<T(!new)>(less: (T, T) -> bool, p: seq<T>, q: seq<T>, s: set<T>)
    requires StrictOrder(less) && IsCanon(less, p, s) && IsCanon(less, q, s)
    ensures p == q
    decreases |p|
  {
    if p == [] {
      ElemsEmpty(q);
    } else {
      assert p[0] in Elems(p);
      assert q != [];
      assert q[0] in Elems(q);
      var i :| 0 <= i < |q| && q[i] == p[0];
      var j :| 0 <= j < |p| && p[j] == q[0];
      HeadLeast(less, p, j);
      HeadLeast(less, q, i);
      CanonTail(less, p, s);
      CanonTail(less, q, s);
      CanonUnique(less, p[1..], q[1..], s - {p[0]});
    }
  }

  // Listings of two sets, one entirely below the other, concatenate.
  lemma CanonAppend<T(!new)>(less: (T, T) -> bool, p: seq<T>, s: set<T>, q: seq<T>, t: set<T>)
    requires IsCanon(less, p, s) && IsCanon(less, q, t) && Below(less, s, t)
    ensures IsCanon(less, p + q, s + t)
  {
    var r := p + q;
    forall i, j | 0 <= i < j < |r| ensures less(r[i], r[j]) {
      if i < |p| <= j {
        assert r[i] in Elems(p) && r[j] in Elems(q);
      }
    }
    assert Elems(r) == s + t;
  }

  lemma {:induction false} LeastExists<T(!new)>(less: (T, T) -> bool, s: set<T>) returns (m: T)
    requires StrictOrder(less) && TotalOn(less, s) && s != {}
    ensures m in s && forall x :: x in s && x != m ==> less(m, x)
    decreases |s|
  {
    var x :| x in s;
    if s == {x} {
      m := x;
    } else {
      var rest := s - {x};
      assert s == {x} + rest;
      var m' := LeastExists(less, rest);
      m := if less(x, m') then x else m';
    }
  }

  lemma {:induction false} CanonExists<T(!new)>(less: (T, T) -> bool, s: set<T>) returns (q: seq<T>)
    requires StrictOrder(less) && TotalOn(less, s)
    ensures IsCanon(less, q, s)
    decreases |s|
  {
    if s == {} {
      q := [];
    } else {
      var m := LeastExists(less, s);
      var rest := CanonExists(less, s - {m});
      assert Elems([m]) == {m};
      CanonAppend(less, [m], {m}, rest, s - {m});
      q := [m] + rest;
      assert {m} + (s - {m}) == s;
    }
  }

  lemma HasCanon<T(!new)>(less: (T, T) -> bool, s: set<T>)
    requires StrictOrder(less) && TotalOn(less, s)
    ensures exists q :: IsCanon(less, q, s)
  {
    var q := CanonExists(less, s);
  }

  /** The canonical listing of a totally ordered finite set. */
  ghost function Canon<T(!new)>(less: (T, T) -> bool, s: set<T>): (q: seq<T>)
    requires StrictOrder(less) && TotalOn(less, s)
    ensures IsCanon(less, q, s)
  {
    HasCanon(less, s);
    var q :| IsCanon(less, q, s);
    q
  }

  // In an ascending sequence position and order agree, and no element repeats.
  lemma AscendingDistinct<T(!new)>(less: (T, T) -> bool, q: seq<T>, i: nat, j: nat)
    requires StrictOrder(less) && Ascending(less, q) && i < |q| && j < |q|
    ensures q[i] == q[j] ==> i == j
    ensures less(q[i], q[j]) ==> i < j
  {
    if j < i { assert less(q[j], q[i]); }
  }

  // ---------- sorting ----------

  ghost predicate WeakOrder<T(!new)>(less: (T, T) -> bool) {
    && (forall x, y :: less(x, y) ==> !less(y, x))
    && (forall x, y, z :: !less(x, y) && !less(y, z) ==> !less(x, z))
  }

  ghost predicate NonDescending<T(!new)>(less: (T, T) -> bool, q: seq<T>) {
    forall i, j :: 0 <= i < j < |q| ==> !less(q[j], q[i])
  }

  function Insert<T>(less: (T, T) -> bool, x: T, q: seq<T>): seq<T> {
    if q == [] || !less(x, q[|q| - 1]) then q + [x]
    else Insert(less, x, q[..|q| - 1]) + [q[|q| - 1]]
  }

  /** Stands for the library sorts: a stable insertion sort. */
  function SortBy<T>(less: (T, T) -> bool, q: seq<T>): seq<T> {
    if q == [] then [] else Insert(less, q[|q| - 1], SortBy(less, q[..|q| - 1]))
  }

  lemma {:induction false} InsertSorted<T(!new)>(less: (T, T) -> bool, x: T, q: seq<T>)
    requires WeakOrder(less) && NonDescending(less, q)
    ensures NonDescending(less, Insert(less, x, q)) && Elems(Insert(less, x, q)) == Elems(q) + {x}
  {
    if q == [] || !less(x, q[|q| - 1]) {
      forall i | 0 <= i < |q| ensures !less(x, q[i]) {
        if i < |q| - 1 { assert !less(q[|q| - 1], q[i]); }
      }
    } else {
      var front, last := q[..|q| - 1], q[|q| - 1];
      InsertSorted(less, x, front);
      var r := Insert(less, x, front);
      assert Elems(q) == Elems(front) + {last};
      forall i | 0 <= i < |r| ensures !less(last, r[i]) {
        assert r[i] in Elems(r);
        assert r[i] == x || r[i] in front;
      }
      assert Elems(r + [last]) == Elems(r) + {last};
    }
  }

  lemma {:induction false} SortBySorts<T(!new)>(less: (T, T) -> bool, q: seq<T>)
    requires WeakOrder(less)
    ensures NonDescending(less, SortBy(less, q)) && Elems(SortBy(less, q)) == Elems(q)
  {
    if q != [] {
      var front, last := q[..|q| - 1], q[|q| - 1];
      SortBySorts(less, front);
      InsertSorted(less, last, SortBy(less, front));
      assert Elems(q) == Elems(front) + {last};
    }
  }

  ghost predicate Distinct<T>(q: seq<T>) {
    forall i, j :: 0 <= i < j < |q| ==> q[i] != q[j]
  }

  lemma {:induction false} InsertMultiset<T(!new)>(less: (T, T) -> bool, x: T, q: seq<T>)
    ensures multiset(Insert(less, x, q)) == multiset(q) + multiset{x}
  {
    if q != [] && less(x, q[|q| - 1]) {
      InsertMultiset(less, x, q[..|q| - 1]);
      assert q == q[..|q| - 1] + [q[|q| - 1]];
    }
  }

  lemma {:induction false} SortByMultiset<T(!new)>(less: (T, T) -> bool, q: seq<T>)
    ensures multiset(SortBy(less, q)) == multiset(q)
  {
    if q != [] {
      SortByMultiset(less, q[..|q| - 1]);
      InsertMultiset(less, q[|q| - 1], SortBy(less, q[..|q| - 1]));
      assert q == q[..|q| - 1] + [q[|q| - 1]];
    }
  }

  lemma {:induction false} DistinctMultiset<T(!new)>(q: seq<T>)
    requires Distinct(q)
    ensures forall x :: multiset(q)[x] <= 1
  {
    if q != [] {
      var front := q[..|q| - 1];
      DistinctMultiset(front);
      assert q == front + [q[|q| - 1]];
      assert q[|q| - 1] !in multiset(front);
    }
  }

  lemma TwiceInMultiset<T(!new)>(q: seq<T>, i: nat, j: nat)
    requires i < j < |q|
    ensures q[i] == q[j] ==> multiset(q)[q[i]] >= 2
  {
    var a, b := q[..j], q[j..];
    assert q == a + b;
    assert a[i] in multiset(a) && b[0] in multiset(b);
  }

  // Sorting distinct, totally ordered elements lists them canonically.
  lemma SortIsCanon<T(!new)>(less: (T, T) -> bool, q: seq<T>)
    requires WeakOrder(less) && Distinct(q) && TotalOn(less, Elems(q))
    ensures IsCanon(less, SortBy(less, q), Elems(q))
  {
    var r := SortBy(less, q);
    SortBySorts(less, q);
    SortByMultiset(less, q);
    DistinctMultiset(q);
    forall i, j | 0 <= i < j < |r| ensures less(r[i], r[j]) {
      TwiceInMultiset(r, i, j);
      assert r[i] in Elems(r) && r[j] in Elems(r);
    }
  }
}
