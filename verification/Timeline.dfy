/** The authority timeline of every logical assignment. */
module Timeline {
  import opened Domain
  import opened Tables

  predicate HasAuthority(r: AssignmentRow) { r.authorityFrom.Some? && r.authorityUntil.Some? }

  // The CHECK constraints of the assignments table.
  predicate SchemaOk(r: AssignmentRow) {
    && (r.authorityFrom.Some? && r.authorityUntil.Some? ==> r.authorityUntil.value > r.authorityFrom.value)
    && (r.lifecycle in {CandidateReceived, CandidateArmed, Cancelled} ==>
         r.authorityFrom.None? && r.authorityUntil.None?)
    && (r.lifecycle in {Active, Ending} ==> HasAuthority(r))
    && (r.lifecycle == Superseded ==> r.authorityFrom.Some? == r.authorityUntil.Some?)
  }

  predicate RowOk(k: Key, r: AssignmentRow) {
    && SchemaOk(r) && k == KeyOf(r.spec) && 0 < k.gen
    && r.lifecycle != Ending && r.lifecycle != Completed
    && Supported(r.spec.effectiveUntil)
    && (r.lifecycle == Active ==> r.authorityUntil.value == r.spec.effectiveUntil)
    && (HasAuthority(r) ==> Supported(r.authorityFrom.value) && Supported(r.authorityUntil.value) &&
                            r.spec.effectiveFrom <= r.authorityFrom.value &&
                            r.authorityUntil.value <= r.spec.effectiveUntil)
  }

  ghost predicate RowsOk(m: Assignments) { forall k :: k in m ==> RowOk(k, m[k]) }

  ghost predicate OneCurrent(m: Assignments) {
    forall a, b :: a in m && b in m && a.id == b.id && IsCurrent(m[a].lifecycle) && IsCurrent(m[b].lifecycle) ==> a == b
  }

  // A candidate is the highest generation, so there is at most one.
  ghost predicate CandidateHighest(m: Assignments) {
    forall a, c :: a in m && c in m && a.id == c.id && IsCandidate(m[c].lifecycle) ==> a.gen <= c.gen
  }

  ghost predicate Ordered(m: Assignments) {
    forall a, b :: a in m && b in m && a.id == b.id && a.gen < b.gen && HasAuthority(m[a]) && HasAuthority(m[b]) ==>
      m[a].authorityUntil.value <= m[b].authorityFrom.value
  }

  // b's interval starts where a's ends.
  ghost predicate Succeeds(m: Assignments, a: Key, b: Key) {
    a in m && b in m && a.id == b.id && a.gen < b.gen && HasAuthority(m[a]) && HasAuthority(m[b]) &&
    m[b].authorityFrom.value == m[a].authorityUntil.value
  }

  ghost predicate Chained(m: Assignments) {
    forall a :: a in m && HasAuthority(m[a]) && !IsCurrent(m[a].lifecycle) ==> exists b :: Succeeds(m, a, b)
  }

  ghost predicate CurrentLast(m: Assignments) {
    forall a, c :: a in m && c in m && a.id == c.id && HasAuthority(m[a]) && IsCurrent(m[c].lifecycle) ==>
        a.gen <= c.gen
  }

  ghost predicate Tiled(m: Assignments) {
    RowsOk(m) && OneCurrent(m) && CandidateHighest(m) && Ordered(m) && Chained(m) && CurrentLast(m)
  }

  // ---------- what the timeline means ----------

  lemma NoOverlap(m: Assignments, a: Key, b: Key, t: Time)
    requires Tiled(m) && a in m && b in m && a.id == b.id && Authorizes(m[a], t) && Authorizes(m[b], t)
    ensures a == b
  {
    assert RowOk(a, m[a]) && RowOk(b, m[b]);
  }

  // From any authoritative generation to the current one there is no gap.
  lemma {:induction false} NoGap(m: Assignments, a: Key, c: Key, t: Time) returns (b: Key)
    requires Tiled(m) && a in m && c in m && a.id == c.id && HasAuthority(m[a]) && IsCurrent(m[c].lifecycle)
    requires m[a].authorityFrom.value <= t < m[c].authorityUntil.value
    ensures b in m && b.id == a.id && Authorizes(m[b], t)
    decreases c.gen - a.gen
  {
    if t < m[a].authorityUntil.value {
      b := a;
    } else {
      assert a != c && !IsCurrent(m[a].lifecycle);
      var n :| Succeeds(m, a, n);
      b := NoGap(m, n, c, t);
    }
  }

  // Superseded authority is always followed by a current generation.
  lemma {:induction false} AuthorityHasCurrent(m: Assignments, a: Key, bound: nat) returns (c: Key)
    requires Tiled(m) && a in m && HasAuthority(m[a]) && (forall k :: k in m ==> k.gen <= bound)
    ensures c in m && c.id == a.id && IsCurrent(m[c].lifecycle)
    decreases bound - a.gen
  {
    if IsCurrent(m[a].lifecycle) {
      c := a;
    } else {
      var n :| Succeeds(m, a, n);
      c := AuthorityHasCurrent(m, n, bound);
    }
  }

  /** ResolveAssignmentAt: a matching row of latest authority start. */
  ghost predicate IsResolution(m: Assignments, id: string, t: Time, k: Key) {
    k in m && k.id == id && Authorizes(m[k], t) &&
    forall b :: b in m && b.id == id && Authorizes(m[b], t) ==> m[b].authorityFrom.value <= m[k].authorityFrom.value
  }

  /** The authority intervals of one assignment tile one contiguous interval, so
      exactly one generation is resolved inside it and none outside. */
  lemma TimelineTiles(m: Assignments, first: Key, c: Key, t: Time)
    requires Tiled(m) && first in m && c in m && first.id == c.id && HasAuthority(m[first]) && IsCurrent(m[c].lifecycle)
    requires forall b :: b in m && b.id == c.id && HasAuthority(m[b]) ==> first.gen <= b.gen
    ensures m[first].authorityFrom.value <= t < m[c].authorityUntil.value <==> exists k :: IsResolution(m, c.id, t, k)
    ensures forall k :: k in m && k.id == c.id ==> (IsResolution(m, c.id, t, k) <==> Authorizes(m[k], t))
    ensures forall k, l :: IsResolution(m, c.id, t, k) && IsResolution(m, c.id, t, l) ==> k == l
  {
    forall k | k in m && k.id == c.id && Authorizes(m[k], t) ensures IsResolution(m, c.id, t, k) {
      forall b | b in m && b.id == c.id && Authorizes(m[b], t) ensures b == k { NoOverlap(m, b, k, t); }
    }
    forall k, l | IsResolution(m, c.id, t, k) && IsResolution(m, c.id, t, l) ensures k == l { NoOverlap(m, k, l, t); }
    if m[first].authorityFrom.value <= t < m[c].authorityUntil.value {
      var b := NoGap(m, first, c, t);
      assert IsResolution(m, c.id, t, b);
    }
    forall k | IsResolution(m, c.id, t, k) ensures m[first].authorityFrom.value <= t < m[c].authorityUntil.value {
      assert RowOk(k, m[k]) && RowOk(first, m[first]) && RowOk(c, m[c]);
      assert k.gen <= c.gen && first.gen <= k.gen;
    }
  }

  // ---------- preservation ----------

  // Leases, schedules and revisions do not touch the timeline.
  ghost predicate SameAuthority(m: Assignments, m': Assignments) {
    m.Keys == m'.Keys && forall k :: k in m ==> SameRow(m[k], m'[k])
  }

  predicate SameRow(r: AssignmentRow, r': AssignmentRow) {
    r.spec == r'.spec && r.lifecycle == r'.lifecycle && r.authorityFrom == r'.authorityFrom &&
    r.authorityUntil == r'.authorityUntil
  }

  lemma RowOkSame(k: Key, r: AssignmentRow, r': AssignmentRow)
    requires RowOk(k, r) && SameRow(r, r')
    ensures RowOk(k, r')
  {
  }

  lemma SuccessorKept(m: Assignments, m': Assignments, a: Key)
    requires Chained(m) && a in m && HasAuthority(m[a]) && !IsCurrent(m[a].lifecycle)
    requires forall k :: k in m && HasAuthority(m[k]) ==>
               k in m' && m'[k].authorityFrom == m[k].authorityFrom && m'[k].authorityUntil == m[k].authorityUntil
    ensures exists b :: Succeeds(m', a, b)
  {
    var b :| Succeeds(m, a, b);
    assert Succeeds(m', a, b);
  }

  lemma SameAuthorityKeeps(m: Assignments, m': Assignments)
    requires Tiled(m) && SameAuthority(m, m')
    ensures Tiled(m')
  {
    hide RowOk, Succeeds;
    forall k | k in m' ensures RowOk(k, m'[k]) { RowOkSame(k, m[k], m'[k]); }
    forall a | a in m' && HasAuthority(m'[a]) && !IsCurrent(m'[a].lifecycle) ensures exists b :: Succeeds(m', a, b) {
      SuccessorKept(m, m', a);
    }
    SameOrders(m, m');
  }

  lemma SameOrders(m: Assignments, m': Assignments)
    requires SameAuthority(m, m') && OneCurrent(m) && CandidateHighest(m) && Ordered(m) && CurrentLast(m)
    ensures OneCurrent(m') && CandidateHighest(m') && Ordered(m') && CurrentLast(m')
  {
    hide OneCurrent, CandidateHighest, Ordered, CurrentLast;
    SameCurrent(m, m');
    SameCandidate(m, m');
    SameIntervals(m, m');
  }

  lemma SameCurrent(m: Assignments, m': Assignments)
    requires SameAuthority(m, m') && OneCurrent(m) && CurrentLast(m)
    ensures OneCurrent(m') && CurrentLast(m')
  {
    assert forall k :: k in m' ==> SameRow(m[k], m'[k]);
  }

  lemma SameCandidate(m: Assignments, m': Assignments)
    requires SameAuthority(m, m') && CandidateHighest(m)
    ensures CandidateHighest(m')
  {
    assert forall k :: k in m' ==> SameRow(m[k], m'[k]);
  }

  lemma SameIntervals(m: Assignments, m': Assignments)
    requires SameAuthority(m, m') && Ordered(m)
    ensures Ordered(m')
  {
    assert forall k :: k in m' ==> SameRow(m[k], m'[k]);
  }

  // Rows after a preparation, compared with the rows before.
  lemma PreparedRow(m: Assignments, a: Assignment, now: Time, k: Key)
    requires KeyOf(a) !in m
    ensures var m' := SupersedeCandidates(m, a.id)[KeyOf(a) := NewRow(a, now)];
            && (k in m' <==> k in m || k == KeyOf(a))
            && (k in m ==>
                  && m'[k].authorityFrom == m[k].authorityFrom && m'[k].authorityUntil == m[k].authorityUntil
                  && (IsCurrent(m'[k].lifecycle) <==> IsCurrent(m[k].lifecycle))
                  && (IsCandidate(m'[k].lifecycle) <==> IsCandidate(m[k].lifecycle) && k.id != a.id))
            && (k == KeyOf(a) ==> m'[k] == NewRow(a, now))
  {
  }

  lemma PreparedRowOk(m: Assignments, a: Assignment, now: Time, k: Key)
    requires k in m && RowOk(k, m[k]) && KeyOf(a) !in m
    ensures RowOk(k, SupersedeCandidates(m, a.id)[KeyOf(a) := NewRow(a, now)][k])
  {
  }

  lemma PrepareKeeps(m: Assignments, a: Assignment, now: Time)
    requires Tiled(m) && 0 < a.generation && Supported(a.effectiveUntil)
    requires forall g :: g in Generations(m, a.id) ==> g < a.generation
    ensures Tiled(SupersedeCandidates(m, a.id)[KeyOf(a) := NewRow(a, now)])
  {
    var m' := SupersedeCandidates(m, a.id)[KeyOf(a) := NewRow(a, now)];
    assert forall k :: k in m && k.id == a.id ==> k.gen < a.generation by {
      assert forall k :: k in m && k.id == a.id ==> k.gen in Generations(m, a.id);
    }
    assert KeyOf(a) !in m;
    PrepareShape(m, m', a, now);
  }

  lemma PrepareShape(m: Assignments, m': Assignments, a: Assignment, now: Time)
    requires Tiled(m) && 0 < a.generation && Supported(a.effectiveUntil)
    requires forall k :: k in m && k.id == a.id ==> k.gen < a.generation
    requires m' == SupersedeCandidates(m, a.id)[KeyOf(a) := NewRow(a, now)]
    ensures Tiled(m')
  {
    hide RowOk, Succeeds, SupersedeCandidates;
    forall k ensures (k in m' <==> k in m || k == KeyOf(a))
      ensures k in m ==> m'[k].authorityFrom == m[k].authorityFrom && m'[k].authorityUntil == m[k].authorityUntil
      ensures k in m ==> (IsCurrent(m'[k].lifecycle) <==> IsCurrent(m[k].lifecycle))
      ensures k in m ==> (IsCandidate(m'[k].lifecycle) <==> IsCandidate(m[k].lifecycle) && k.id != a.id)
    {
      PreparedRow(m, a, now, k);
    }
    forall k | k in m' ensures RowOk(k, m'[k]) {
      if k in m { PreparedRowOk(m, a, now, k); } else { NewRowOk(a, now); }
    }
    forall k | k in m' && HasAuthority(m'[k]) && !IsCurrent(m'[k].lifecycle) ensures exists b :: Succeeds(m', k, b) {
      SuccessorKept(m, m', k);
    }
  }

  lemma NewRowOk(a: Assignment, now: Time)
    requires 0 < a.generation && Supported(a.effectiveUntil)
    ensures RowOk(KeyOf(a), NewRow(a, now))
  {
  }

  // Arming or cancelling touches only the candidate's lifecycle.
  lemma CandidateKeeps(m: Assignments, k: Key, r: AssignmentRow)
    requires Tiled(m) && k in m && IsCandidate(m[k].lifecycle)
    requires r.spec == m[k].spec && r.authorityFrom == m[k].authorityFrom && r.authorityUntil == m[k].authorityUntil
    requires r.lifecycle == CandidateArmed || r.lifecycle == Cancelled
    ensures Tiled(m[k := r])
  {
    hide RowOk, Succeeds, OneCurrent, CandidateHighest, Ordered, CurrentLast;
    var m' := m[k := r];
    CandidateRowOk(k, m[k], r);
    forall j | j in m' ensures RowOk(j, m'[j]) { assert j != k ==> RowOk(j, m[j]); }
    forall a | a in m' && HasAuthority(m'[a]) && !IsCurrent(m'[a].lifecycle) ensures exists b :: Succeeds(m', a, b) {
      SuccessorKept(m, m', a);
    }
    CandidateOrders(m, k, r);
  }

  lemma CandidateRowOk(k: Key, r: AssignmentRow, r': AssignmentRow)
    requires RowOk(k, r) && IsCandidate(r.lifecycle) && (r'.lifecycle == CandidateArmed || r'.lifecycle == Cancelled)
    requires r'.spec == r.spec && r'.authorityFrom == r.authorityFrom && r'.authorityUntil == r.authorityUntil
    ensures RowOk(k, r') && !HasAuthority(r)
  {
  }

  lemma CandidateOrders(m: Assignments, k: Key, r: AssignmentRow)
    requires OneCurrent(m) && CandidateHighest(m) && Ordered(m) && CurrentLast(m) && k in m &&
             IsCandidate(m[k].lifecycle)
    requires !HasAuthority(m[k]) && !HasAuthority(r) && !IsCurrent(r.lifecycle)
    ensures OneCurrent(m[k := r]) && CandidateHighest(m[k := r]) && Ordered(m[k := r]) && CurrentLast(m[k := r])
  {
    var m' := m[k := r];
    assert OneCurrent(m') by { hide CandidateHighest, Ordered, CurrentLast; }
    assert CandidateHighest(m') by { hide OneCurrent, Ordered, CurrentLast; }
    assert Ordered(m') by { hide CandidateHighest, OneCurrent, CurrentLast; }
    assert CurrentLast(m') by { hide CandidateHighest, Ordered, OneCurrent; }
  }

  // The first activation of an assignment.
  lemma ActivateKeeps(m: Assignments, k: Key, at: Time, now: Time)
    requires Tiled(m) && k in m && m[k].lifecycle == CandidateArmed && Supported(at)
    requires m[k].spec.effectiveFrom <= at < m[k].spec.effectiveUntil
    requires forall a :: a in m && a.id == k.id ==> !HasAuthority(m[a])
    ensures Tiled(m[k := Activated(m[k], at, now)])
  {
    hide RowOk, Succeeds, OneCurrent, CandidateHighest, Ordered, CurrentLast;
    var m' := m[k := Activated(m[k], at, now)];
    ActivatedRowOk(k, m[k], at, now);
    forall j | j in m' ensures RowOk(j, m'[j]) { assert j != k ==> RowOk(j, m[j]); }
    forall a | a in m' && HasAuthority(m'[a]) && !IsCurrent(m'[a].lifecycle) ensures exists b :: Succeeds(m', a, b) {
      SuccessorKept(m, m', a);
    }
    forall a | a in m && a.id == k.id ensures !IsCurrent(m[a].lifecycle) { CurrentIsAuthoritative(a, m[a]); }
    ActivatedOrders(m, m', k);
  }

  lemma CurrentIsAuthoritative(k: Key, r: AssignmentRow)
    requires RowOk(k, r)
    ensures IsCurrent(r.lifecycle) ==> HasAuthority(r)
  {
  }

  lemma ActivatedRowOk(k: Key, r: AssignmentRow, at: Time, now: Time)
    requires RowOk(k, r) && r.lifecycle == CandidateArmed && Supported(at) &&
             r.spec.effectiveFrom <= at < r.spec.effectiveUntil
    ensures RowOk(k, Activated(r, at, now))
  {
  }

  lemma ActivatedOrders(m: Assignments, m': Assignments, k: Key)
    requires OneCurrent(m) && CandidateHighest(m) && Ordered(m) && CurrentLast(m)
    requires k in m && k in m' && m' == m[k := m'[k]] && m'[k].lifecycle == Active
    requires forall a :: a in m && a.id == k.id ==> !HasAuthority(m[a]) && !IsCurrent(m[a].lifecycle)
    ensures OneCurrent(m') && CandidateHighest(m') && Ordered(m') && CurrentLast(m')
  {
    assert OneCurrent(m') by { hide CandidateHighest, Ordered, CurrentLast; }
    assert CandidateHighest(m') by { hide OneCurrent, Ordered, CurrentLast; }
    assert Ordered(m') by { hide CandidateHighest, OneCurrent, CurrentLast; }
    assert CurrentLast(m') by { hide CandidateHighest, Ordered, OneCurrent; }
  }

  lemma CandidateIsNotCurrent(m: Assignments, k: Key)
    requires Tiled(m) && k in m && IsCandidate(m[k].lifecycle)
    ensures forall a :: a in m && a.id == k.id && a != k ==> a.gen < k.gen && !IsCandidate(m[a].lifecycle)
    ensures !HasAuthority(m[k])
  {
    assert RowOk(k, m[k]);
    forall a | a in m && a.id == k.id && a != k ensures a.gen < k.gen && !IsCandidate(m[a].lifecycle) {
      assert RowOk(a, m[a]);
    }
  }

  lemma CutoverRows(m: Assignments, c: Key, k: Key, at: Time, now: Time)
    requires k in m && c in m
    requires RowOk(k, m[k]) && RowOk(c, m[c]) && m[k].lifecycle == CandidateArmed && HasAuthority(m[c])
    requires Supported(at) && m[k].spec.effectiveFrom <= at < m[k].spec.effectiveUntil
    requires m[c].authorityFrom.value < at <= m[c].authorityUntil.value
    ensures RowOk(c, Closed(m[c], at)) && RowOk(k, Activated(m[k], at, now))
  {
  }

  lemma AuthorityBefore(m: Assignments, a: Key, c: Key)
    requires a in m && c in m && a.id == c.id && a != c && RowOk(a, m[a]) && CurrentLast(m) && Ordered(m)
    requires HasAuthority(m[a]) && HasAuthority(m[c]) && IsCurrent(m[c].lifecycle)
    ensures a.gen < c.gen && m[a].authorityUntil.value <= m[c].authorityFrom.value
  {
    assert a.gen <= c.gen;
  }

  // A cutover closes the current interval exactly where the new one opens.
  lemma CutoverKeeps(m: Assignments, c: Key, k: Key, at: Time, now: Time)
    requires Tiled(m) && k in m && c in m && c.id == k.id && m[k].lifecycle == CandidateArmed &&
             IsCurrent(m[c].lifecycle)
    requires Supported(at) && m[k].spec.effectiveFrom <= at < m[k].spec.effectiveUntil
    requires HasAuthority(m[c]) && m[c].authorityFrom.value < at <= m[c].authorityUntil.value
    ensures Tiled(m[c := Closed(m[c], at)][k := Activated(m[k], at, now)])
  {
    hide RowOk;
    var m' := m[c := Closed(m[c], at)][k := Activated(m[k], at, now)];
    CandidateIsNotCurrent(m, k);
    CutoverRows(m, c, k, at, now);
    assert RowsOk(m');
    assert Succeeds(m', c, k);
    forall a | a in m' && HasAuthority(m'[a]) && !IsCurrent(m'[a].lifecycle) ensures exists b :: Succeeds(m', a, b) {
      if a != c {
        var b :| Succeeds(m, a, b);
        assert Succeeds(m', a, b);
      }
    }
    forall a | a in m && a.id == k.id && HasAuthority(m[a]) && a != c
      ensures a.gen < c.gen && m[a].authorityUntil.value <= m[c].authorityFrom.value
    {
      AuthorityBefore(m, a, c);
    }
    CutoverOneCurrent(m, m', c, k);
    CutoverCandidates(m, m', c, k);
    CutoverOrdered(m, m', c, k, at);
    CutoverCurrentLast(m, m', c, k);
  }

  // How the rows of a cutover relate to the rows before it.
  ghost predicate CutOver(m: Assignments, m': Assignments, c: Key, k: Key) {
    && k in m && c in m && c.id == k.id && c != k && m'.Keys == m.Keys
    && m'[c].lifecycle == Superseded && m'[k].lifecycle == Active
    && (forall a :: a in m && a != c && a != k ==> m'[a] == m[a])
    && (forall a :: a in m && a.id == k.id && a != k ==> a.gen < k.gen)
  }

  lemma CutoverOneCurrent(m: Assignments, m': Assignments, c: Key, k: Key)
    requires CutOver(m, m', c, k) && OneCurrent(m) && IsCurrent(m[c].lifecycle)
    ensures OneCurrent(m')
  {
  }

  lemma CutoverCandidates(m: Assignments, m': Assignments, c: Key, k: Key)
    requires CutOver(m, m', c, k) && CandidateHighest(m)
    ensures CandidateHighest(m')
  {
  }

  lemma CutoverOrdered(m: Assignments, m': Assignments, c: Key, k: Key, at: Time)
    requires CutOver(m, m', c, k) && Ordered(m) && HasAuthority(m[c]) && m[c].authorityFrom.value < at
    requires m'[c].authorityFrom == m[c].authorityFrom && m'[c].authorityUntil == Some(at) &&
             m'[k].authorityFrom == Some(at)
    requires forall a :: a in m && a.id == k.id && HasAuthority(m[a]) && a != c ==>
               a.gen < c.gen && m[a].authorityUntil.value <= m[c].authorityFrom.value
    ensures Ordered(m')
  {
    forall a, b | a in m' && b in m' && a.id == b.id && a.gen < b.gen && HasAuthority(m'[a]) && HasAuthority(m'[b])
      ensures m'[a].authorityUntil.value <= m'[b].authorityFrom.value
    {
      if b == k && a != c { assert HasAuthority(m[a]); }
    }
  }

  lemma CutoverCurrentLast(m: Assignments, m': Assignments, c: Key, k: Key)
    requires CutOver(m, m', c, k) && CurrentLast(m) && OneCurrent(m) && IsCurrent(m[c].lifecycle)
    ensures CurrentLast(m')
  {
    forall a, n | a in m' && n in m' && a.id == n.id && HasAuthority(m'[a]) && IsCurrent(m'[n].lifecycle)
      ensures a.gen <= n.gen
    {
      if n.id == k.id { assert n == k; }
    }
  }
}
