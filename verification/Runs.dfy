/** Safety over every run of store transactions, whatever clock each one reads. */
module Runs {
  import opened Domain
  import opened Tables
  import opened Timeline
  import opened Evidence
  import opened Delivery

  ghost predicate Inv(t: Tables) {
    Tiled(t.assignments) && Recorded(t) && InOrder(t.outbox) && InboxOk(t)
  }

  // What no transaction ever undoes.
  ghost predicate Monotone(t: Tables, t': Tables) {
    && (forall k :: k in t.assignments ==> k in t'.assignments && RowAdvances(t.assignments[k], t'.assignments[k]))
    && EventsKept(t.events, t'.events)
    && (forall r :: r in t.checkpoints ==> r in t'.checkpoints && t'.checkpoints[r] == t.checkpoints[r])
    && (forall m :: m in t.inbox ==> m in t'.inbox && t'.inbox[m] == t.inbox[m])
    && (forall o :: o in t.outbox ==> o in t'.outbox && t'.outbox[o].payload == t.outbox[o].payload)
    && (forall o :: Delivered(t.outbox, o) ==> Delivered(t'.outbox, o))
    && (forall k, n :: k in t.assignments && Retired(t.assignments[k].lifecycle) && Registry(k, n) in t'.outbox ==>
         Registry(k, n) in t.outbox)
  }

  predicate Retired(l: Lifecycle) { l == Superseded || l == Cancelled }

  predicate RowAdvances(r: AssignmentRow, r': AssignmentRow) {
    && r'.spec == r.spec && r.revision <= r'.revision && r.leaseGeneration <= r'.leaseGeneration
    && (Retired(r.lifecycle) ==>
         r'.lifecycle == r.lifecycle && r'.authorityFrom == r.authorityFrom && r'.authorityUntil == r.authorityUntil)
    && (r.lifecycle == Active ==> r'.lifecycle == Active || r'.lifecycle == Superseded)
    && (IsCandidate(r'.lifecycle) ==> IsCandidate(r.lifecycle))
    && (r.authorityFrom.Some? ==> r'.authorityFrom == r.authorityFrom)
    && (r.authorityUntil.Some? ==> r'.authorityUntil.Some? && r'.authorityUntil.value <= r.authorityUntil.value)
  }

  lemma MonotoneRefl(t: Tables)
    ensures Monotone(t, t)
  {
  }

  lemma RowAdvancesTrans(a: AssignmentRow, b: AssignmentRow, c: AssignmentRow)
    requires RowAdvances(a, b) && RowAdvances(b, c) && SchemaOk(b)
    ensures RowAdvances(a, c)
  {
  }

  lemma MonotoneTrans(a: Tables, b: Tables, c: Tables)
    requires Monotone(a, b) && Monotone(b, c) && Inv(b)
    ensures Monotone(a, c)
  {
    hide Recorded, InOrder, InboxOk, RowAdvances, Delivered, OneCurrent, CandidateHighest, Ordered, Chained,
      CurrentLast;
    forall k | k in a.assignments ensures k in c.assignments && RowAdvances(a.assignments[k], c.assignments[k]) {
      assert RowOk(k, b.assignments[k]);
      RowAdvancesTrans(a.assignments[k], b.assignments[k], c.assignments[k]);
    }
    forall k, n | k in a.assignments && Retired(a.assignments[k].lifecycle) && Registry(k, n) in c.outbox
      ensures Registry(k, n) in a.outbox
    {
      RetiredStays(a.assignments[k], b.assignments[k]);
      assert Registry(k, n) in b.outbox;
    }
  }

  lemma RetiredStays(r: AssignmentRow, r': AssignmentRow)
    requires RowAdvances(r, r') && Retired(r.lifecycle)
    ensures Retired(r'.lifecycle)
  {
  }

  // ---------- leases ----------

  // Leases and schedules only.
  ghost predicate OnlyLeases(m: Assignments, m': Assignments) {
    SameAuthority(m, m') && forall k :: k in m ==>
        m'[k].revision == m[k].revision && m[k].leaseGeneration <= m'[k].leaseGeneration
  }

  lemma LeaseKeeps(t: Tables, m': Assignments)
    requires Inv(t) && OnlyLeases(t.assignments, m')
    ensures Inv(t.(assignments := m')) && Monotone(t, t.(assignments := m'))
  {
    hide Tiled, LedgerOk, RegistryRowsOk, RegistryLive, RegistryStrict, InOrder, CheckpointsIn, CursorsOrdered,
      SummariesOk, RevisionsOk, SpansOf, RowAdvances, SameRow;
    var m := t.assignments;
    SameAuthorityKeeps(m, m');
    KeepsRowsSame(t, m');
    EvidenceFrame(t, t.(assignments := m'));
    forall k | k in m ensures RowAdvances(m[k], m'[k]) { LeaseAdvances(m[k], m'[k]); }
  }

  lemma LeaseAdvances(r: AssignmentRow, r': AssignmentRow)
    requires SameRow(r, r') && r.revision <= r'.revision && r.leaseGeneration <= r'.leaseGeneration
    ensures RowAdvances(r, r')
  {
  }

  lemma KeepsRowsSame(t: Tables, m': Assignments)
    requires RevisionsOk(t.assignments, t.checkpoints) && SummariesOk(t.assignments, t.checkpoints, t.summaries)
    requires SameAuthority(t.assignments, m') && forall k :: k in m' ==> m'[k].revision == t.assignments[k].revision
    ensures KeepsEvidenceRows(t.assignments, m', t.summaries)
  {
    forall k | k in t.assignments && 0 < t.assignments[k].revision
      ensures SameRow(t.assignments[k], m'[k]) && k in t.summaries &&
              SummaryOk(t.assignments, t.checkpoints, k, t.summaries[k])
    {}
  }

  lemma OneLease(m: Assignments, k: Key, r: AssignmentRow)
    requires k in m && SameRow(m[k], r) && r.revision == m[k].revision && r.leaseGeneration == m[k].leaseGeneration
    ensures OnlyLeases(m, m[k := r])
  {
  }

  lemma ManyLeases(m: Assignments, chosen: set<Key>, worker: string, lease: int, now: Time)
    ensures OnlyLeases(m, map k | k in m :: if k in chosen then Leased(m[k], worker, lease, now) else m[k])
  {
  }

  lemma ClaimStepKeeps(t: Tables, worker: string, lease: int, grace: int, limit: int, now: Time, chosen: set<Key>)
    requires Inv(t)
    ensures var t' := ClaimDue(t, worker, lease, grace, limit, now, chosen).tables; Inv(t') && Monotone(t, t')
  {
    hide Inv, Monotone, OnlyLeases, ValidClaim, Leased;
    MonotoneRefl(t);
    if ValidClaim(t.assignments, worker, lease, grace, limit, now, chosen) {
      ManyLeases(t.assignments, chosen, worker, lease, now);
      LeaseKeeps(t, ClaimDue(t, worker, lease, grace, limit, now, chosen).tables.assignments);
    }
  }

  lemma HeldRow(m: Assignments, c: Claim)
    ensures Holds(m, c) ==> c.Key() in m
  {
  }

  lemma RenewStepKeeps(t: Tables, c: Claim, extension: int, now: Time)
    requires Inv(t)
    ensures var t' := Renew(t, c, extension, now).tables; Inv(t') && Monotone(t, t')
  {
    hide Inv, Monotone, OnlyLeases, Holds, WithinGrace, Unexpired;
    MonotoneRefl(t);
    HeldRow(t.assignments, c);
    if Renew(t, c, extension, now).reply == Done {
      var r := t.assignments[c.Key()].(leaseUntil := Some(now + extension));
      OneLease(t.assignments, c.Key(), r);
      LeaseKeeps(t, t.assignments[c.Key() := r]);
    }
  }

  lemma DeferStepKeeps(t: Tables, c: Claim, next: Time, now: Time)
    requires Inv(t)
    ensures var t' := Defer(t, c, next, now).tables; Inv(t') && Monotone(t, t')
  {
    hide Inv, Monotone, OnlyLeases, Holds, WithinGrace, Unexpired;
    MonotoneRefl(t);
    HeldRow(t.assignments, c);
    if Defer(t, c, next, now).reply == Done {
      var r := Unleased(t.assignments[c.Key()]).(nextEvaluationAt := next);
      OneLease(t.assignments, c.Key(), r);
      LeaseKeeps(t, t.assignments[c.Key() := r]);
    }
  }

  // ---------- outbox ----------

  lemma OutboxKeeps(t: Tables, x': Outbox)
    requires Inv(t) && InOrder(x') && OutboxAdvances(t.outbox, x') && KeepsRegistry(t.outbox, x')
    requires forall o :: o in x' ==> o in t.outbox
    ensures Inv(t.(outbox := x')) && Monotone(t, t.(outbox := x'))
  {
    hide LedgerOk, RegistryRowsOk, RegistryLive, RegistryStrict, InOrder, CheckpointsIn, CursorsOrdered, Tiled,
      SummariesOk, RevisionsOk, SpansOf, KeepsEvidenceRows, RowAdvances;
    forall k | k in t.assignments ensures RowAdvances(t.assignments[k], t.assignments[k]) {
      LeaseAdvances(t.assignments[k], t.assignments[k]);
    }
    KeepsRowsSame(t, t.assignments);
    EvidenceFrame(t, t.(outbox := x'));
  }

  lemma OutboxClaimStepKeeps(
    t: Tables, d: Destination, worker: string, lease: int, limit: int, now: Time, chosen: set<OutboxId>)
    requires Inv(t)
    ensures var t' := ClaimOutbox(t, d, worker, lease, limit, now, chosen).tables; Inv(t') && Monotone(t, t')
  {
    hide Inv, Monotone, Tiled, Recorded, InboxOk, InOrder, OutboxAdvances, KeepsRegistry, ValidOutboxClaim;
    ApplyInv(t);
    MonotoneRefl(t);
    ClaimKeepsOrder(t, d, worker, lease, limit, now, chosen);
    OutboxKeeps(t, ClaimOutbox(t, d, worker, lease, limit, now, chosen).tables.outbox);
  }

  lemma DeliveredStepKeeps(t: Tables, c: OutboxClaim, now: Time)
    requires Inv(t)
    ensures var t' := MarkDelivered(t, c, now).tables; Inv(t') && Monotone(t, t')
  {
    hide Inv, Monotone, Tiled, Recorded, InboxOk, InOrder, OutboxAdvances, KeepsRegistry;
    ApplyInv(t);
    MonotoneRefl(t);
    DeliverKeepsOrder(t, c, now);
    OutboxKeeps(t, MarkDelivered(t, c, now).tables.outbox);
  }

  lemma RetryStepKeeps(t: Tables, c: OutboxClaim, delay: int, failed: bool, now: Time)
    requires Inv(t)
    ensures var t' := Retry(t, c, delay, failed, now).tables; Inv(t') && Monotone(t, t')
  {
    hide Inv, Monotone, Tiled, Recorded, InboxOk, InOrder, OutboxAdvances, KeepsRegistry;
    ApplyInv(t);
    MonotoneRefl(t);
    RetryKeepsOrder(t, c, delay, failed, now);
    OutboxKeeps(t, Retry(t, c, delay, failed, now).tables.outbox);
  }

  // ---------- commands ----------

  // One applied command: new rows for the timeline, one inbox row and one notification.
  lemma CommandKeeps(t: Tables, m': Assignments, o: OutboxId, m: MessageId, e: Envelope, now: Time)
    requires Inv(t) && Tiled(m') && KeepsEvidenceRows(t.assignments, m', t.summaries)
    requires forall k :: k in t.assignments ==> k in m' && RowAdvances(t.assignments[k], m'[k])
    requires m !in t.inbox && o == NotificationOf(m, e)
    requires e.CommandEnvelope? ==> Key(e.id, e.gen) in m'
    ensures var r := Notify(t.(assignments := m'), o, m, e, now);
            !r.reply.Refused? && Inv(r.tables) && Monotone(t, r.tables)
  {
    hide Recorded, InOrder, Tiled, KeepsEvidenceRows, RowAdvances, Monotone, InboxOk, OutboxAdvances, KeepsRegistry;
    var t' := Notify(t.(assignments := m'), o, m, e, now).tables;
    NoticeIsNew(t, o);
    InsertKeepsOrder(t.outbox, o, CommandPayload(e), now);
    EvidenceFrame(t, t');
    CommandInbox(t, m', o, m, e, now);
    CommandMonotone(t, m', o, m, e, now);
  }

  lemma NoticeIsNew(t: Tables, o: OutboxId)
    requires InboxOk(t) && !IsRegistry(o) && o.message !in t.inbox
    ensures o !in t.outbox
  {
  }

  lemma CommandInbox(t: Tables, m': Assignments, o: OutboxId, m: MessageId, e: Envelope, now: Time)
    requires InboxOk(t) && o == NotificationOf(m, e) && o !in t.outbox && m !in t.inbox
    requires t.assignments.Keys <= m'.Keys && (e.CommandEnvelope? ==> Key(e.id, e.gen) in m')
    ensures InboxOk(Notify(t.(assignments := m'), o, m, e, now).tables)
  {
  }

  lemma CommandMonotone(t: Tables, m': Assignments, o: OutboxId, m: MessageId, e: Envelope, now: Time)
    requires forall k :: k in t.assignments ==> k in m' && RowAdvances(t.assignments[k], m'[k])
    requires m !in t.inbox && o !in t.outbox && !IsRegistry(o)
    ensures Monotone(t, Notify(t.(assignments := m'), o, m, e, now).tables)
  {
    hide RowAdvances;
  }

  lemma RecordKeeps(t: Tables, m: MessageId, e: Envelope, d: Disposition)
    requires Inv(t) && m !in t.inbox && e.PrepareEnvelope? && d != Applied
    ensures Inv(Record(t, m, e, d)) && Monotone(t, Record(t, m, e, d))
  {
    hide IncidentOk, EventOk, RowOk, CursorLess, LedgerOk, RegistryRowsOk, RegistryLive, RegistryStrict, InOrder,
      CheckpointsIn, CursorsOrdered, Tiled,
      SummariesOk, RevisionsOk, RowAdvances;
    MonotoneRefl(t);
  }

  lemma PrepareEvidence(t: Tables, a: Assignment, now: Time)
    requires Inv(t) && KeyOf(a) !in t.assignments
    ensures var m' := SupersedeCandidates(t.assignments, a.id)[KeyOf(a) := NewRow(a, now)];
            && KeepsEvidenceRows(t.assignments, m', t.summaries)
            && forall k :: k in t.assignments ==> k in m' && RowAdvances(t.assignments[k], m'[k])
  {
    hide LedgerOk, RegistryRowsOk, RegistryLive, RegistryStrict, InOrder, CheckpointsIn, CursorsOrdered, SpansOf, RowOk,
      RowAdvances, SummaryOk,
      OneCurrent, CandidateHighest, Ordered, Chained, CurrentLast;
    var m := t.assignments;
    forall k | k in m
      ensures var r := SupersedeCandidates(m, a.id)[k];
              RowAdvances(m[k], r) && r.revision == m[k].revision &&
              (0 < m[k].revision ==> r == m[k] && EvidenceRow(m[k], k, t.summaries))
    {
      if 0 < m[k].revision { EvidencedRow(m, t.checkpoints, t.summaries, k); }
      PreparedRowAdvances(k, m[k]);
    }
  }

  // A row with evidence is authoritative beyond its watermark.
  ghost predicate EvidenceRow(r: AssignmentRow, k: Key, summaries: map<Key, Summary>) {
    HasAuthority(r) && k in summaries && summaries[k].evaluation.observedAt < r.authorityUntil.value
  }

  lemma EvidencedRow(m: Assignments, cps: Checkpoints, summaries: map<Key, Summary>, k: Key)
    requires RowsOk(m) && RevisionsOk(m, cps) && SummariesOk(m, cps, summaries) && k in m && 0 < m[k].revision
    ensures EvidenceRow(m[k], k, summaries) && !IsCandidate(m[k].lifecycle)
  {
    assert RowOk(k, m[k]);
    assert SummaryOk(m, cps, k, summaries[k]);
  }

  lemma PreparedRowAdvances(k: Key, r: AssignmentRow)
    requires RowOk(k, r)
    ensures RowAdvances(r, r) && (IsCandidate(r.lifecycle) ==> RowAdvances(r, Unleased(r).(lifecycle := Superseded)))
  {
  }

  /** A known assignment has a highest generation. */
  lemma {:induction false} LatestExists(m: Assignments, k: Key, seen: set<Key>)
    requires k in m && seen <= m.Keys && (forall j :: j in m.Keys - seen && j.id == k.id ==> j.gen <= k.gen)
    ensures Latest(m, k.id).Some?
    decreases seen
  {
    if h :| h in seen && h.id == k.id && h.gen > k.gen {
      LatestExists(m, h, seen - {h});
    } else {
      assert IsLatest(m, k);
    }
  }

  lemma AboveAll(m: Assignments, a: Assignment)
    requires Latest(m, a.id).None? || Latest(m, a.id).value.gen < a.generation
    ensures forall g :: g in Generations(m, a.id) ==> g < a.generation
    ensures KeyOf(a) !in m
  {
    assert KeyOf(a) in m ==> a.generation in Generations(m, a.id) by {
      assert KeyOf(a) in m ==> KeyOf(a).gen in Generations(m, a.id);
    }
    if k :| k in m && k.id == a.id {
      LatestExists(m, k, m.Keys);
      var l := Latest(m, a.id).value;
      assert IsLatest(m, l);
    }
  }

  lemma PrepareStepKeeps(t: Tables, m: MessageId, messageType: string, a: Assignment, now: Time)
    requires Inv(t)
    ensures var t' := Prepare(t, m, messageType, a, now).tables; Inv(t') && Monotone(t, t')
  {
    hide Inv, Monotone, Latest, SupersedeCandidates, Notify, Generations;
    MonotoneRefl(t);
    if ValidPrepare(m, messageType, a) && m !in t.inbox {
      var e, l := PrepareEnvelope(messageType, a), Latest(t.assignments, a.id);
      RecordKeeps(t, m, e, Stale);
      RecordKeeps(t, m, e, Idempotent);
      if l.None? || l.value.gen < a.generation {
        AboveAll(t.assignments, a);
        assert Tiled(t.assignments) by { ApplyInv(t); }
        PrepareKeeps(t.assignments, a, now);
        PrepareEvidence(t, a, now);
        CommandKeeps(t, SupersedeCandidates(t.assignments, a.id)[KeyOf(a) := NewRow(a, now)], Receipt(m), m, e, now);
      }
    }
  }

  lemma ApplyInv(t: Tables)
    requires Inv(t)
    ensures Tiled(t.assignments) && Recorded(t) && InOrder(t.outbox) && InboxOk(t)
  {
  }

  // Replacing rows that hold no evidence.
  lemma ReplaceKeepsEvidence(t: Tables, k: Key, r: AssignmentRow)
    requires RowsOk(t.assignments) && RevisionsOk(t.assignments, t.checkpoints) &&
             SummariesOk(t.assignments, t.checkpoints, t.summaries)
    requires k in t.assignments && IsCandidate(t.assignments[k].lifecycle) && r.revision == t.assignments[k].revision
    ensures KeepsEvidenceRows(t.assignments, t.assignments[k := r], t.summaries) && r.revision == 0
  {
    hide RowOk, SummaryOk, SummariesOk, RevisionsOk, RowsOk;
    forall j | j in t.assignments && 0 < t.assignments[j].revision
      ensures EvidenceRow(t.assignments[j], j, t.summaries) && !IsCandidate(t.assignments[j].lifecycle)
    {
      EvidencedRow(t.assignments, t.checkpoints, t.summaries, j);
    }
  }

  lemma CandidateAdvances(k: Key, r: AssignmentRow, l: Lifecycle)
    requires RowOk(k, r) && IsCandidate(r.lifecycle) && (l == CandidateArmed || l == Cancelled)
    ensures RowAdvances(r, r.(lifecycle := l)) && RowAdvances(r, Unleased(r).(lifecycle := l))
  {
  }

  lemma AllAdvance(m: Assignments, k: Key)
    requires k in m && RowsOk(m)
    ensures RowAdvances(m[k], m[k])
  {
  }

  lemma CandidateApplied(t: Tables, k: Key, r: AssignmentRow, o: OutboxId, m: MessageId, e: Envelope, now: Time)
    requires Inv(t) && k in t.assignments && IsCandidate(t.assignments[k].lifecycle)
    requires r == t.assignments[k].(lifecycle := CandidateArmed) ||
             r == Unleased(t.assignments[k]).(lifecycle := Cancelled)
    requires m !in t.inbox && o == Notice(m) && e.CommandEnvelope? && Key(e.id, e.gen) == k
    ensures var x := Notify(t.(assignments := t.assignments[k := r]), o, m, e, now);
            !x.reply.Refused? && Inv(x.tables) && Monotone(t, x.tables)
  {
    hide Inv, Monotone, Notify, RowOk, RowAdvances, KeepsEvidenceRows, RevisionsOk, SummariesOk, OneCurrent,
      CandidateHighest, Ordered, Chained, CurrentLast;
    ApplyInv(t);
    CandidateKeeps(t.assignments, k, r);
    ReplaceKeepsEvidence(t, k, r);
    assert RowOk(k, t.assignments[k]);
    CandidateAdvances(k, t.assignments[k], r.lifecycle);
    forall j | j in t.assignments ensures RowAdvances(t.assignments[j], t.assignments[k := r][j]) {
      AllAdvance(t.assignments, j);
    }
    CommandKeeps(t, t.assignments[k := r], o, m, e, now);
  }

  lemma CandidateStepKeeps(t: Tables, m: MessageId, c: CandidateCommand, id: string, gen: nat, now: Time)
    requires Inv(t)
    ensures var t' := TransitionCandidate(t, m, c, id, gen, now).tables; Inv(t') && Monotone(t, t')
  {
    hide Inv, Monotone, Notify, IsLatest;
    MonotoneRefl(t);
    var k, e := Key(id, gen), CommandEnvelope(CommandType(c), id, gen, None);
    if m !in t.inbox && k in t.assignments && IsCandidate(t.assignments[k].lifecycle) {
      if c == Arm {
        CandidateApplied(t, k, t.assignments[k].(lifecycle := CandidateArmed), Notice(m), m, e, now);
      } else {
        CandidateApplied(t, k, Unleased(t.assignments[k]).(lifecycle := Cancelled), Notice(m), m, e, now);
      }
    }
  }

  // ---------- cutover ----------

  lemma {:induction false} Bounded(keys: set<Key>) returns (bound: nat)
    ensures forall k :: k in keys ==> k.gen <= bound
  {
    bound := 0;
    if keys != {} {
      var k :| k in keys;
      var b := Bounded(keys - {k});
      bound := if k.gen > b then k.gen else b;
    }
  }

  lemma AuthorityMeansCurrent(m: Assignments, a: Key)
    requires Tiled(m) && a in m && HasAuthority(m[a])
    ensures CurrentOf(m, a.id).Some?
  {
    hide Tiled;
    var bound := Bounded(m.Keys);
    var c := AuthorityHasCurrent(m, a, bound);
    assert IsCurrentOf(m, a.id, c);
  }

  lemma NoAuthorityWithoutCurrent(m: Assignments, id: string)
    requires Tiled(m) && CurrentOf(m, id).None?
    ensures forall a :: a in m && a.id == id ==> !HasAuthority(m[a])
  {
    hide Tiled, CurrentOf;
    forall a | a in m && a.id == id ensures !HasAuthority(m[a]) {
      if HasAuthority(m[a]) { AuthorityMeansCurrent(m, a); }
    }
  }

  lemma ActivationAdvances(k: Key, r: AssignmentRow, at: Time, now: Time)
    requires RowOk(k, r) && r.lifecycle == CandidateArmed
    ensures RowAdvances(r, Activated(r, at, now))
  {
  }

  lemma ClosureAdvances(k: Key, r: AssignmentRow, at: Time)
    requires RowOk(k, r) && r.lifecycle == Active && at <= r.authorityUntil.value
    ensures RowAdvances(r, Closed(r, at))
  {
  }

  lemma ActivateApplied(t: Tables, k: Key, at: Time, m: MessageId, e: Envelope, now: Time)
    requires Inv(t) && k in t.assignments && t.assignments[k].lifecycle == CandidateArmed && Supported(at)
    requires t.assignments[k].spec.effectiveFrom <= at < t.assignments[k].spec.effectiveUntil &&
             CurrentOf(t.assignments, k.id).None?
    requires m !in t.inbox && e.CommandEnvelope? && Key(e.id, e.gen) == k
    ensures var x := Notify(t.(assignments := t.assignments[k := Activated(t.assignments[k], at, now)]), Notice(m), m,
            e, now);
            !x.reply.Refused? && Inv(x.tables) && Monotone(t, x.tables)
  {
    hide Inv, Monotone, Notify, RowOk, RowAdvances, KeepsEvidenceRows, RevisionsOk, SummariesOk, OneCurrent,
      CandidateHighest, Ordered, Chained, CurrentLast, CurrentOf;
    var r := Activated(t.assignments[k], at, now);
    ApplyInv(t);
    NoAuthorityWithoutCurrent(t.assignments, k.id);
    ActivateKeeps(t.assignments, k, at, now);
    ReplaceKeepsEvidence(t, k, r);
    assert RowOk(k, t.assignments[k]);
    ActivationAdvances(k, t.assignments[k], at, now);
    forall j | j in t.assignments ensures RowAdvances(t.assignments[j], t.assignments[k := r][j]) {
      AllAdvance(t.assignments, j);
    }
    CommandKeeps(t, t.assignments[k := r], Notice(m), m, e, now);
  }

  /** A cut is refused on or before the committed watermark, so evidence stays inside. */
  lemma CutKeepsEvidence(t: Tables, c: Key, k: Key, at: Time, now: Time)
    requires RowsOk(t.assignments) && RevisionsOk(t.assignments, t.checkpoints) &&
             SummariesOk(t.assignments, t.checkpoints, t.summaries)
    requires k in t.assignments && c in t.assignments && c != k && IsCandidate(t.assignments[k].lifecycle) &&
             HasAuthority(t.assignments[c])
    requires c in t.summaries ==> t.summaries[c].evaluation.observedAt < at
    ensures var m' := t.assignments[c := Closed(t.assignments[c], at)][k := Activated(t.assignments[k], at, now)];
            KeepsEvidenceRows(t.assignments, m', t.summaries)
  {
    hide RowOk, SummaryOk, SummariesOk, RevisionsOk, RowsOk;
    forall j | j in t.assignments && 0 < t.assignments[j].revision
      ensures EvidenceRow(t.assignments[j], j, t.summaries) && !IsCandidate(t.assignments[j].lifecycle)
    {
      EvidencedRow(t.assignments, t.checkpoints, t.summaries, j);
    }
  }

  lemma CutApplied(t: Tables, c: Key, k: Key, at: Time, m: MessageId, e: Envelope, now: Time)
    requires Inv(t) && k in t.assignments && c in t.assignments && c.id == k.id
    requires t.assignments[k].lifecycle == CandidateArmed && IsCurrent(t.assignments[c].lifecycle) &&
             HasAuthority(t.assignments[c])
    requires Supported(at) && t.assignments[k].spec.effectiveFrom <= at < t.assignments[k].spec.effectiveUntil
    requires t.assignments[c].authorityFrom.value < at <= t.assignments[c].authorityUntil.value
    requires c in t.summaries ==> t.summaries[c].evaluation.observedAt < at
    requires m !in t.inbox && e.CommandEnvelope? && Key(e.id, e.gen) == k
    ensures var m' := t.assignments[c := Closed(t.assignments[c], at)][k := Activated(t.assignments[k], at, now)];
            var x := Notify(t.(assignments := m'), Notice(m), m, e, now);
            !x.reply.Refused? && Inv(x.tables) && Monotone(t, x.tables)
  {
    hide Inv, Monotone, Notify, RowOk, RowAdvances, KeepsEvidenceRows, RevisionsOk, SummariesOk, OneCurrent,
      CandidateHighest, Ordered, Chained, CurrentLast;
    var m' := t.assignments[c := Closed(t.assignments[c], at)][k := Activated(t.assignments[k], at, now)];
    ApplyInv(t);
    CutoverKeeps(t.assignments, c, k, at, now);
    CutKeepsEvidence(t, c, k, at, now);
    assert RowOk(k, t.assignments[k]) && RowOk(c, t.assignments[c]);
    NeverEnding(c, t.assignments[c]);
    ActivationAdvances(k, t.assignments[k], at, now);
    ClosureAdvances(c, t.assignments[c], at);
    forall j | j in t.assignments ensures RowAdvances(t.assignments[j], m'[j]) { AllAdvance(t.assignments, j); }
    CommandKeeps(t, m', Notice(m), m, e, now);
  }

  lemma NeverEnding(k: Key, r: AssignmentRow)
    requires RowOk(k, r) && IsCurrent(r.lifecycle)
    ensures r.lifecycle == Active
  {
  }

  lemma CutoverStepKeeps(t: Tables, m: MessageId, id: string, gen: nat, at: Time, now: Time)
    requires Inv(t)
    ensures var t' := Cutover(t, m, id, gen, at, now).tables; Inv(t') && Monotone(t, t')
  {
    hide Inv, Monotone, Notify, CurrentOf, ValidCommand, Supported, Activated, Closed;
    MonotoneRefl(t);
    var k, e := Key(id, gen), CutoverEnvelope(id, gen, at);
    if Supported(at) && m !in t.inbox && k in t.assignments && t.assignments[k].lifecycle == CandidateArmed &&
       t.assignments[k].spec.effectiveFrom <= at < t.assignments[k].spec.effectiveUntil {
      var current := CurrentOf(t.assignments, id);
      if current.None? {
        ActivateApplied(t, k, at, m, e, now);
      } else {
        CurrentOfIs(t.assignments, id);
        var c := current.value;
        if HasAuthority(t.assignments[c]) &&
           t.assignments[c].authorityFrom.value < at <= t.assignments[c].authorityUntil.value &&
           (c in t.summaries ==> t.summaries[c].evaluation.observedAt < at) {
          CutApplied(t, c, k, at, m, e, now);
        }
      }
    }
  }

  lemma CurrentOfIs(m: Assignments, id: string)
    requires CurrentOf(m, id).Some?
    ensures IsCurrentOf(m, id, CurrentOf(m, id).value)
  {
  }

  // ---------- evaluation commits ----------

  lemma WriteStepKeeps(t: Tables, m': Assignments, k: Key, ev: Evaluation, publish: bool, now: Time)
    requires Inv(t) && AdvancesRow(t.assignments, m', k) && IsCurrent(t.assignments[k].lifecycle) == publish
    requires forall j :: j in t.assignments ==> t.assignments[j].leaseGeneration <= m'[j].leaseGeneration
    requires Admitted(ev, t.assignments[k].authorityFrom.value, t.assignments[k].authorityUntil.value)
    requires WriteEvaluation(t.(assignments := m'), k, m'[k].revision, ev, !publish, publish, now).Ok?
    ensures var t' := WriteEvaluation(t.(assignments := m'), k, m'[k].revision, ev, !publish, publish, now).value;
            Inv(t') && Monotone(t, t')
  {
    hide Tiled, LedgerOk, RegistryRowsOk, RegistryLive, RegistryStrict, InOrder, CheckpointsIn, CursorsOrdered,
      SummariesPublished, SummariesOk, RevisionsOk, SpansOf, RowAdvances, SameRow, EventsKept, Delivered,
      StaleCursor, Admitted, ApplyTransitions;
    var t' := WriteEvaluation(t.(assignments := m'), k, m'[k].revision, ev, !publish, publish, now).value;
    WriteKeeps(t, m', k, ev, publish, now);
    SameAuthorityKeeps(t.assignments, m');
    forall j | j in t.assignments ensures RowAdvances(t.assignments[j], m'[j]) {
      LeaseAdvances(t.assignments[j], m'[j]);
    }
    ProjectionKeepsOrder(t, k, m'[k].revision, ev.(recording := Confirmed), publish, now);
    PublishOnlyLive(t, m', k, t'.outbox, ev.(recording := Confirmed), publish, now);
  }

  lemma ProjectionKeepsOrder(t: Tables, k: Key, n: nat, ev: Evaluation, publish: bool, now: Time)
    requires Inv(t) && k in t.assignments && IsCurrent(t.assignments[k].lifecycle) == publish &&
             t.assignments[k].revision < n
    ensures var x' := Projected(t.outbox, k, n, ev, publish, now);
            && InOrder(x') && (forall o :: Delivered(t.outbox, o) ==> Delivered(x', o))
            && (forall o :: o in t.outbox ==> o in x' && x'[o] == t.outbox[o])
            && (forall o :: o in x' && !IsRegistry(o) ==> o in t.outbox)
  {
    hide Tiled, Recorded, InOrder, Earlier;
    if publish && Registry(k, n) !in t.outbox {
      forall q | q in t.outbox && IsRegistry(q) ensures !Earlier(Registry(k, n), q) { NewRevisionIsLast(t, k, n, q); }
      InsertKeepsOrder(t.outbox, Registry(k, n), EvaluationPayload(ev), now);
    }
  }

  lemma PublishOnlyLive(t: Tables, m': Assignments, k: Key, x': Outbox, ev: Evaluation, publish: bool, now: Time)
    requires k in t.assignments && IsCurrent(t.assignments[k].lifecycle) == publish && k in m'
    requires x' == Projected(t.outbox, k, m'[k].revision, ev, publish, now)
    ensures forall j, n :: j in t.assignments && Retired(t.assignments[j].lifecycle) && Registry(j, n) in x' ==>
              Registry(j, n) in t.outbox
  {
  }

  lemma CommitStepKeeps(t: Tables, c: Claim, ev: Evaluation, next: Time, now: Time)
    requires Inv(t)
    ensures var t' := Commit(t, c, ev, next, now).tables; Inv(t') && Monotone(t, t')
  {
    hide Inv, Monotone, WriteEvaluation, ValidCommit, WithinAuthority, Admitted;
    MonotoneRefl(t);
    var k := c.Key();
    if ValidCommit(ev, next) && MayCommit(t.assignments, c, ev.observedAt, now) &&
       WithinAuthority(ev, t.assignments[k].authorityFrom.value, t.assignments[k].authorityUntil.value) {
      var m' := t.assignments[k := Advanced(Consumed(t.assignments[k], next))];
      ValidatedIsAdmitted(ev, next, t.assignments[k].authorityFrom.value, t.assignments[k].authorityUntil.value);
      assert AdvancesRow(t.assignments, m', k);
      if WriteEvaluation(t.(assignments := m'), k, m'[k].revision, ev, false, true, now).Ok? {
        WriteStepKeeps(t, m', k, ev, true, now);
      }
    }
  }

  lemma HistoricalStepKeeps(t: Tables, c: Claim, gen: nat, ev: Evaluation, next: Time, now: Time)
    requires Inv(t)
    ensures var t' := CommitHistorical(t, c, gen, ev, next, now).tables; Inv(t') && Monotone(t, t')
  {
    hide Inv, Monotone, WriteEvaluation, ValidCommit, WithinAuthority, Admitted;
    MonotoneRefl(t);
    var k, h := c.Key(), Key(c.assignment.id, gen);
    var m := t.assignments;
    if ValidCommit(ev, next) && gen < c.assignment.generation && MayReconcile(m, c, now) && h in m &&
       m[h].lifecycle == Superseded &&
       HasAuthority(m[h]) && WithinAuthority(ev, m[h].authorityFrom.value, m[h].authorityUntil.value) {
      var m' := m[k := Consumed(m[k], next)][h := Advanced(m[h])];
      ValidatedIsAdmitted(ev, next, m[h].authorityFrom.value, m[h].authorityUntil.value);
      assert AdvancesRow(m, m', h);
      if WriteEvaluation(t.(assignments := m'), h, m'[h].revision, ev, true, false, now).Ok? {
        WriteStepKeeps(t, m', h, ev, false, now);
      }
    }
  }

  // The generation whose revision a commit writes.
  function WrittenKey(s: Step): Key
    requires s.CommitStep? || s.HistoricalStep?
  {
    if s.CommitStep? then s.claim.Key() else Key(s.claim.assignment.id, s.target)
  }

  /** A successful commit, live or historical, stores the evaluation as it was
      given, confirmed, as the summary and checkpoint of one new revision, publishes
      it exactly when live, and leaves every other row of those tables alone. */
  lemma CommitStores(t: Tables, s: Step)
    requires (s.CommitStep? || s.HistoricalStep?) && Perform(t, s).reply == Done
    ensures var k, t', ev := WrittenKey(s), Next(t, s), s.evaluation.(recording := Confirmed);
      && k in t.assignments && k in t'.assignments && t'.assignments[k].revision == t.assignments[k].revision + 1
      && var n := t'.assignments[k].revision;
      && k in t'.summaries && t'.summaries[k] == Summary(n, ev)
      && (forall j :: j != k ==> (j in t.summaries <==> j in t'.summaries))
      && (forall j :: j != k && j in t.summaries ==> t'.summaries[j] == t.summaries[j])
      && RevisionKey(k, n) in t'.checkpoints && t'.checkpoints[RevisionKey(k, n)] == Checkpoint(ev.Position(), ev.state)
      && (forall r :: r != RevisionKey(k, n) ==> (r in t.checkpoints <==> r in t'.checkpoints))
      && (Registry(k, n) !in t.outbox && s.CommitStep? ==>
            Registry(k, n) in t'.outbox && t'.outbox[Registry(k, n)].payload == EvaluationPayload(ev))
      && (s.HistoricalStep? ==> t'.outbox == t.outbox)
      && EventsAdded(t.events, t'.events, k, n, ev.transitions)
  {
    hide EventsAdded, StaleCursor, ApplyTransitions, ValidCommit, WithinAuthority, Unexpired;
    if s.CommitStep? {
      LiveCommitStores(t, s);
    } else {
      HistoricalCommitStores(t, s);
    }
  }

  // Every transition has its event row; the rows that are new are theirs, under revision n.
  ghost predicate EventsAdded(x: Events, y: Events, k: Key, n: nat, trs: seq<Transition>) {
    && (forall e :: e in x ==> e in y && y[e] == x[e])
    && (forall j :: 0 <= j < |trs| ==> EventOf(k, trs[j]) in y && y[EventOf(k, trs[j])].transition == trs[j])
    && (forall e :: e in y && e !in x ==>
         y[e].revision == n && exists j :: 0 <= j < |trs| && e == EventOf(k, trs[j]))
  }

  lemma {:induction false} TransitionsAddEvents(x: Ledger, k: Key, n: nat, trs: seq<Transition>)
    requires ApplyTransitions(x, k, n, trs).Ok?
    ensures EventsAdded(x.events, ApplyTransitions(x, k, n, trs).value.events, k, n, trs)
  {
    hide EventsAdded, OpenStep, ResolveIncident, EventStep;
    if trs == [] {
      NothingAdded(x.events, k, n);
    } else {
      var front := trs[..|trs| - 1];
      TransitionsAddEvents(x, k, n, front);
      AddsEvent(x.events, ApplyTransitions(x, k, n, front).value.events, k, n, front, trs[|trs| - 1]);
      assert front + [trs[|trs| - 1]] == trs;
    }
  }

  lemma NothingAdded(x: Events, k: Key, n: nat)
    ensures EventsAdded(x, x, k, n, [])
  {
  }

  lemma AddsEvent(x: Events, y: Events, k: Key, n: nat, trs: seq<Transition>, tr: Transition)
    requires EventsAdded(x, y, k, n, trs) && EventStep(y, k, n, tr).Ok?
    ensures EventsAdded(x, EventStep(y, k, n, tr).value, k, n, trs + [tr])
  {
    hide EventOf, IncidentOf;
    var z, all := EventStep(y, k, n, tr).value, trs + [tr];
    forall e | e in z && e !in x ensures z[e].revision == n && exists j :: 0 <= j < |all| && e == EventOf(k, all[j]) {
      if e in y {
        var j :| 0 <= j < |trs| && e == EventOf(k, trs[j]);
        assert all[j] == trs[j];
      } else {
        assert all[|trs|] == tr;
      }
    }
  }

  // What one written revision leaves in the tables.
  ghost predicate Stored(t: Tables, t': Tables, k: Key, n: nat, ev: Evaluation, publish: bool, now: Time) {
    && t'.summaries == t.summaries[k := Summary(n, ev.(recording := Confirmed))]
    && t'.checkpoints == t.checkpoints[RevisionKey(k, n) := Checkpoint(ev.Position(), ev.state)]
    && t'.outbox == Projected(t.outbox, k, n, ev.(recording := Confirmed), publish, now)
    && EventsAdded(t.events, t'.events, k, n, ev.transitions)
  }

  lemma WriteStores(t: Tables, m': Assignments, k: Key, n: nat, ev: Evaluation, publish: bool, now: Time)
    requires WriteEvaluation(t.(assignments := m'), k, n, ev, !publish, publish, now).Ok?
    ensures var t' := WriteEvaluation(t.(assignments := m'), k, n, ev, !publish, publish, now).value;
            Stored(t, t', k, n, ev, publish, now) && t'.assignments == m'
  {
    hide StaleCursor, ApplyTransitions, EventsAdded;
    TransitionsAddEvents(Ledger(t.incidents, t.events), k, n, ev.transitions);
  }

  lemma LiveCommitStores(t: Tables, s: Step)
    requires s.CommitStep? && Perform(t, s).reply == Done
    ensures var k := WrittenKey(s);
      && k in t.assignments && k in Next(t, s).assignments
      && Next(t, s).assignments[k].revision == t.assignments[k].revision + 1
      && Stored(t, Next(t, s), k, t.assignments[k].revision + 1, s.evaluation, true, s.now)
  {
    hide WriteEvaluation, ValidCommit, WithinAuthority, Unexpired, Stored;
    var k := s.claim.Key();
    var row := Advanced(Consumed(t.assignments[k], s.next));
    WriteStores(t, t.assignments[k := row], k, row.revision, s.evaluation, true, s.now);
  }

  lemma HistoricalCommitStores(t: Tables, s: Step)
    requires s.HistoricalStep? && Perform(t, s).reply == Done
    ensures var k := WrittenKey(s);
      && k in t.assignments && k in Next(t, s).assignments
      && Next(t, s).assignments[k].revision == t.assignments[k].revision + 1
      && Stored(t, Next(t, s), k, t.assignments[k].revision + 1, s.evaluation, false, s.now)
  {
    hide WriteEvaluation, ValidCommit, WithinAuthority, Unexpired, Stored;
    var k, h := s.claim.Key(), WrittenKey(s);
    var m := t.assignments[k := Consumed(t.assignments[k], s.next)];
    WriteStores(t, m[h := Advanced(m[h])], h, Advanced(m[h]).revision, s.evaluation, false, s.now);
  }

  // ---------- every run ----------

  lemma NextKeeps(t: Tables, s: Step)
    requires Inv(t)
    ensures Inv(Next(t, s)) && Monotone(t, Next(t, s))
  {
    hide Inv, Monotone, Prepare, TransitionCandidate, Cutover, ClaimDue, Renew, Defer, Commit, CommitHistorical,
      ClaimOutbox, MarkDelivered, Retry;
    match s
    case PrepareStep(m, mt, a, now) => PrepareStepKeeps(t, m, mt, a, now);
    case CandidateStep(m, c, id, gen, now) => CandidateStepKeeps(t, m, c, id, gen, now);
    case CutoverStep(m, id, gen, at, now) => CutoverStepKeeps(t, m, id, gen, at, now);
    case ClaimStep(w, lease, grace, limit, now, chosen) => ClaimStepKeeps(t, w, lease, grace, limit, now, chosen);
    case RenewStep(c, ext, now) => RenewStepKeeps(t, c, ext, now);
    case DeferStep(c, next, now) => DeferStepKeeps(t, c, next, now);
    case CommitStep(c, ev, next, now) => CommitStepKeeps(t, c, ev, next, now);
    case HistoricalStep(c, gen, ev, next, now) => HistoricalStepKeeps(t, c, gen, ev, next, now);
    case OutboxClaimStep(d, w, lease, limit, now, chosen) => OutboxClaimStepKeeps(t, d, w, lease, limit, now, chosen);
    case DeliveredStep(c, now) => DeliveredStepKeeps(t, c, now);
    case RetryStep(c, delay, failed, now) => RetryStepKeeps(t, c, delay, failed, now);
  }

  /** Every run from the empty store keeps every invariant. */
  lemma {:induction false} RunsKeep(steps: seq<Step>)
    ensures Inv(Exec(EMPTY, steps))
  {
    if steps == [] {
      assert SpansOf(EMPTY.assignments, EMPTY.summaries) == map[];
    } else {
      RunsKeep(steps[..|steps| - 1]);
      NextKeeps(Exec(EMPTY, steps[..|steps| - 1]), steps[|steps| - 1]);
    }
  }

  lemma {:induction false} ExecMonotone(t: Tables, steps: seq<Step>)
    requires Inv(t)
    ensures Inv(Exec(t, steps)) && Monotone(t, Exec(t, steps))
  {
    hide Inv, Monotone, Next;
    MonotoneRefl(t);
    if steps != [] {
      ExecMonotone(t, steps[..|steps| - 1]);
      var u := Exec(t, steps[..|steps| - 1]);
      NextKeeps(u, steps[|steps| - 1]);
      MonotoneTrans(t, u, Next(u, steps[|steps| - 1]));
    }
  }

  // ---------- what every run guarantees ----------

  lemma {:induction false} FirstAuthority(m: Assignments, a: Key) returns (first: Key)
    requires a in m && HasAuthority(m[a])
    ensures first in m && first.id == a.id && HasAuthority(m[first])
    ensures forall b :: b in m && b.id == a.id && HasAuthority(m[b]) ==> first.gen <= b.gen
    decreases a.gen
  {
    if b :| b in m && b.id == a.id && HasAuthority(m[b]) && b.gen < a.gen {
      first := FirstAuthority(m, b);
    } else {
      first := a;
    }
  }

  ghost predicate Resolvable(m: Assignments, id: string, t: Time) { exists k :: IsResolution(m, id, t, k) }

  /** Authority timeline: one current and one candidate generation at most, the
      candidate highest, every CHECK true, and the authority intervals of one
      assignment tile [first.from, current.until) so that resolution is exact. */
  lemma AuthorityTimeline(steps: seq<Step>, a: Key) returns (first: Key, c: Key)
    requires a in Exec(EMPTY, steps).assignments && HasAuthority(Exec(EMPTY, steps).assignments[a])
    ensures var m := Exec(EMPTY, steps).assignments;
      && (forall k :: k in m ==> SchemaOk(m[k])) && OneCurrent(m) && CandidateHighest(m)
      && first in m && c in m && first.id == a.id == c.id && HasAuthority(m[first]) && IsCurrent(m[c].lifecycle)
      && HasAuthority(m[c])
      && (forall t :: Resolvable(m, a.id, t) <==> m[first].authorityFrom.value <= t < m[c].authorityUntil.value)
      && (forall t, k :: k in m && k.id == a.id ==> (IsResolution(m, a.id, t, k) <==> Authorizes(m[k], t)))
      && (forall t, k, l :: IsResolution(m, a.id, t, k) && IsResolution(m, a.id, t, l) ==> k == l)
  {
    hide IsResolution, OneCurrent, CandidateHighest, Ordered, Chained, CurrentLast, Recorded, InOrder, InboxOk;
    var m := Exec(EMPTY, steps).assignments;
    RunsKeep(steps);
    var bound := Bounded(m.Keys);
    first := FirstAuthority(m, a);
    c := AuthorityHasCurrent(m, a, bound);
    forall k | k in m ensures SchemaOk(m[k]) { assert RowOk(k, m[k]); }
    assert RowOk(c, m[c]);
    forall t ensures Resolvable(m, a.id, t) <==> m[first].authorityFrom.value <= t < m[c].authorityUntil.value {
      TimelineTiles(m, first, c, t);
    }
    forall t, k | k in m && k.id == a.id ensures IsResolution(m, a.id, t, k) <==> Authorizes(m[k], t) {
      TimelineTiles(m, first, c, t);
    }
    forall t, k, l | IsResolution(m, a.id, t, k) && IsResolution(m, a.id, t, l) ensures k == l {
      TimelineTiles(m, first, c, t);
    }
  }

  /** An applied cutover is an event-time boundary: earlier times resolve as
      before, times from the boundary to the candidate's end resolve to the
      candidate, and later times to nothing. */
  lemma CutoverIsABoundary(t: Tables, m: MessageId, id: string, gen: nat, at: Time, now: Time, x: Time, k: Key)
    requires Inv(t) && Cutover(t, m, id, gen, at, now).reply == Accepted(Applied)
    ensures var rows, rows' := t.assignments, Cutover(t, m, id, gen, at, now).tables.assignments;
      && (x < at ==> (IsResolution(rows', id, x, k) <==> IsResolution(rows, id, x, k)))
      && (x >= at ==>
           (IsResolution(rows', id, x, k) <==> k == Key(id, gen) && k in rows' && x < rows'[k].spec.effectiveUntil))
  {
    hide Inv, Cutover, CurrentOf, Tiled, Recorded, InOrder, InboxOk, IsResolution, Monotone, Authorizes;
    CutoverStepKeeps(t, m, id, gen, at, now);
    var rows, rows' := t.assignments, Cutover(t, m, id, gen, at, now).tables.assignments;
    ApplyInv(t);
    ApplyInv(Cutover(t, m, id, gen, at, now).tables);
    ResolutionIsAuthority(rows, id, x, k);
    ResolutionIsAuthority(rows', id, x, k);
    CutoverChanges(t, m, id, gen, at, now);
    CutAuthority(rows, rows', Key(id, gen), CurrentOf(rows, id), at, x, k);
  }

  lemma ResolutionIsAuthority(m: Assignments, id: string, t: Time, k: Key)
    requires Tiled(m)
    ensures IsResolution(m, id, t, k) <==> k in m && k.id == id && Authorizes(m[k], t)
  {
    hide Tiled;
    if k in m && k.id == id && Authorizes(m[k], t) {
      forall b | b in m && b.id == id && Authorizes(m[b], t) ensures b == k { NoOverlap(m, b, k, t); }
    }
  }

  // The rows before and after an applied cutover.
  ghost predicate CutRows(m: Assignments, m': Assignments, n: Key, current: Option<Key>, at: Time) {
    && n in m && n in m' && m'.Keys == m.Keys && m[n].lifecycle == CandidateArmed && at < m[n].spec.effectiveUntil
    && m'[n].spec == m[n].spec && m'[n].authorityFrom == Some(at)
    && m'[n].authorityUntil == Some(m[n].spec.effectiveUntil)
    && (forall k :: k in m && k != n && current != Some(k) ==> m'[k] == m[k])
    && (current.Some? ==>
          && current.value in m && current.value.id == n.id && IsCurrent(m[current.value].lifecycle)
          && HasAuthority(m[current.value])
          && m[current.value].authorityFrom.value < at <= m[current.value].authorityUntil.value
          && m'[current.value].authorityFrom == m[current.value].authorityFrom
          && m'[current.value].authorityUntil == Some(at))
    && (current.None? ==> CurrentOf(m, n.id).None?)
  }

  lemma CutoverChanges(t: Tables, m: MessageId, id: string, gen: nat, at: Time, now: Time)
    requires Cutover(t, m, id, gen, at, now).reply == Accepted(Applied)
    ensures CutRows(t.assignments, Cutover(t, m, id, gen, at, now).tables.assignments, Key(id, gen),
            CurrentOf(t.assignments, id), at)
  {
    hide CurrentOf, ValidCommand, Supported;
    if CurrentOf(t.assignments, id).Some? { CurrentOfIs(t.assignments, id); }
  }

  lemma CutAuthority(m: Assignments, m': Assignments, n: Key, current: Option<Key>, at: Time, x: Time, k: Key)
    requires Tiled(m) && CutRows(m, m', n, current, at)
    ensures k in m && k.id == n.id && x < at ==> (Authorizes(m'[k], x) <==> Authorizes(m[k], x))
    ensures k in m && k.id == n.id && x >= at ==> (Authorizes(m'[k], x) <==> k == n && x < m'[n].spec.effectiveUntil)
  {
    hide CurrentOf, Chained, CandidateHighest;
    assert RowOk(n, m[n]);
    if k in m && k.id == n.id && k != n {
      assert RowOk(k, m[k]);
      if current.None? {
        NoAuthorityWithoutCurrent(m, n.id);
      } else if k != current.value {
        if HasAuthority(m[k]) { AuthorityBefore(m, k, current.value); }
        assert RowOk(current.value, m[current.value]);
      }
    }
  }

  // t is inside the current authority interval of generation k.
  predicate Inside(m: Assignments, k: Key, t: Time) { k in m && Authorizes(m[k], t) }

  predicate InsideOrUnset(m: Assignments, k: Key, t: Time) { IsZero(t) || Inside(m, k, t) }

  predicate StateInside(m: Assignments, k: Key, s: EvaluatorState) {
    forall v :: v in s ==>
      InsideOrUnset(m, k, s[v].firstSuspectedAt) && InsideOrUnset(m, k, s[v].openedAt) &&
      InsideOrUnset(m, k, s[v].lastObservedAt)
  }

  predicate TransitionsInside(m: Assignments, k: Key, trs: seq<Transition>) {
    forall i :: 0 <= i < |trs| ==> Inside(m, k, trs[i].observedAt)
  }

  // Every timestamp of a published evaluation.
  predicate PayloadInside(m: Assignments, k: Key, ev: Evaluation) {
    Inside(m, k, ev.observedAt) && Inside(m, k, ev.causalFrom) && StateInside(m, k, ev.state) &&
    TransitionsInside(m, k, ev.transitions)
  }

  lemma WindowInside(t: Tables, k: Key, x: Time)
    requires Inv(t) && In(SpansOf(t.assignments, t.summaries), k, x)
    ensures Inside(t.assignments, k, x)
  {
    hide Tiled, LedgerOk, RegistryRowsOk, RegistryLive, RegistryStrict, InOrder, CheckpointsIn, CursorsOrdered,
      RevisionsOk;
    assert SummaryOk(t.assignments, t.checkpoints, k, t.summaries[k]);
  }

  /** No stranded evidence: after any run, with any number of cutovers, every
      recorded timestamp lies inside its own generation's authority interval. */
  lemma NoStrandedEvidence(steps: seq<Step>)
    ensures var t := Exec(EMPTY, steps);
      && (forall r :: r in t.checkpoints ==>
            Inside(t.assignments, r.key, t.checkpoints[r].cursor.at) &&
            StateInside(t.assignments, r.key, t.checkpoints[r].state))
      && (forall k :: k in t.summaries ==>
            Inside(t.assignments, k, t.summaries[k].evaluation.observedAt) &&
            Inside(t.assignments, k, t.summaries[k].evaluation.causalFrom) &&
            StateInside(t.assignments, k, t.summaries[k].evaluation.state) &&
            TransitionsInside(t.assignments, k, t.summaries[k].evaluation.transitions))
      && (forall e :: e in t.events ==> Inside(t.assignments, e.key, t.events[e].transition.observedAt))
      && (forall i :: i in t.incidents ==>
            Inside(t.assignments, i.key, t.incidents[i].openedAt) &&
            Inside(t.assignments, i.key, t.incidents[i].lastObservedAt) &&
            (t.incidents[i].resolvedAt.Some? ==> Inside(t.assignments, i.key, t.incidents[i].resolvedAt.value)))
      && (forall o :: o in t.outbox && o.Registry? ==>
            t.outbox[o].payload.EvaluationPayload? &&
            PayloadInside(t.assignments, o.key, t.outbox[o].payload.evaluation))
  {
    hide Inv, Inside, StateInside, TransitionsInside, PayloadInside, Exec;
    var t := Exec(EMPTY, steps);
    RunsKeep(steps);
    CheckpointsInside(t);
    SummariesInside(t);
    LedgerInside(t);
    RegistryInside(t);
  }

  lemma CheckpointsInside(t: Tables)
    requires Inv(t)
    ensures forall r :: r in t.checkpoints ==>
              Inside(t.assignments, r.key, t.checkpoints[r].cursor.at) &&
              StateInside(t.assignments, r.key, t.checkpoints[r].state)
  {
    hide Tiled, LedgerOk, RegistryRowsOk, RegistryLive, RegistryStrict, InOrder, CursorsOrdered, RevisionsOk,
      SummariesOk, SpansOf, Inside;
    var w := SpansOf(t.assignments, t.summaries);
    forall k, x | In(w, k, x) ensures Inside(t.assignments, k, x) { WindowInside(t, k, x); }
  }

  lemma SummariesInside(t: Tables)
    requires Inv(t)
    ensures forall k :: k in t.summaries ==>
              Inside(t.assignments, k, t.summaries[k].evaluation.observedAt) &&
              Inside(t.assignments, k, t.summaries[k].evaluation.causalFrom) &&
              StateInside(t.assignments, k, t.summaries[k].evaluation.state) &&
              TransitionsInside(t.assignments, k, t.summaries[k].evaluation.transitions)
  {
    hide Tiled, LedgerOk, RegistryRowsOk, RegistryLive, RegistryStrict, InOrder, CheckpointsIn, CursorsOrdered,
      RevisionsOk, SpansOf, StateInside;
    CheckpointsInside(t);
    forall k | k in t.summaries
      ensures Inside(t.assignments, k, t.summaries[k].evaluation.observedAt)
      ensures Inside(t.assignments, k, t.summaries[k].evaluation.causalFrom)
      ensures StateInside(t.assignments, k, t.summaries[k].evaluation.state)
      ensures TransitionsInside(t.assignments, k, t.summaries[k].evaluation.transitions)
    {
      assert SummaryOk(t.assignments, t.checkpoints, k, t.summaries[k]);
    }
  }

  lemma LedgerInside(t: Tables)
    requires Inv(t)
    ensures forall e :: e in t.events ==> Inside(t.assignments, e.key, t.events[e].transition.observedAt)
    ensures forall i :: i in t.incidents ==>
              Inside(t.assignments, i.key, t.incidents[i].openedAt) &&
              Inside(t.assignments, i.key, t.incidents[i].lastObservedAt) &&
              (t.incidents[i].resolvedAt.Some? ==> Inside(t.assignments, i.key, t.incidents[i].resolvedAt.value))
  {
    hide Tiled, RegistryRowsOk, RegistryLive, RegistryStrict, InOrder, CheckpointsIn, CursorsOrdered, RevisionsOk,
      SummariesOk, SpansOf, Inside;
    var w := SpansOf(t.assignments, t.summaries);
    forall k, x | In(w, k, x) ensures Inside(t.assignments, k, x) { WindowInside(t, k, x); }
    forall e | e in t.events ensures In(w, e.key, t.events[e].transition.observedAt) {
      assert EventOk(w, Ledger(t.incidents, t.events), e, t.events[e]);
    }
    forall i | i in t.incidents ensures IncidentOk(w, Ledger(t.incidents, t.events), i, t.incidents[i]) {}
  }

  lemma RegistryInside(t: Tables)
    requires Inv(t)
    ensures forall o :: o in t.outbox && o.Registry? ==>
              t.outbox[o].payload.EvaluationPayload? &&
              PayloadInside(t.assignments, o.key, t.outbox[o].payload.evaluation)
  {
    hide Tiled, LedgerOk, RegistryLive, RegistryStrict, InOrder, CheckpointsIn, CursorsOrdered, RevisionsOk,
      SummariesOk, SpansOf, Inside, StateInside, In;
    CheckpointsInside(t);
    var w := SpansOf(t.assignments, t.summaries);
    forall k, x | In(w, k, x) ensures Inside(t.assignments, k, x) { WindowInside(t, k, x); }
    forall o | o in t.outbox && o.Registry?
      ensures t.outbox[o].payload.EvaluationPayload? &&
              PayloadInside(t.assignments, o.key, t.outbox[o].payload.evaluation)
    {
      assert IsRegistry(o);
      assert RegistryRowOk(w, t.checkpoints, o, t.outbox[o]);
      assert RevisionKey(o.key, o.revision) in t.checkpoints;
    }
  }

  /** Storable evidence: after every run, every checkpoint and event names its
      frames and WAL position in a form the columns hold, every incident names its
      opening, and a published summary is the publication itself. */
  lemma StorableEvidence(steps: seq<Step>)
    ensures var t := Exec(EMPTY, steps);
      && (forall r :: r in t.checkpoints ==> StorableCursor(t.checkpoints[r].cursor))
      && (forall e :: e in t.events ==> StorableEvent(t.events[e].transition))
      && (forall i :: i in t.incidents ==>
           i.openingFrame != "" && (t.incidents[i].open <==> t.incidents[i].revision == 1))
      && SummariesPublished(t.summaries, t.outbox)
  {
    hide Tiled, RegistryRowsOk, RegistryLive, RegistryStrict, InOrder, CursorsOrdered, RevisionsOk, SummariesOk,
      SpansOf, SummariesPublished, InboxOk;
    var t := Exec(EMPTY, steps);
    RunsKeep(steps);
    var w, x := SpansOf(t.assignments, t.summaries), Ledger(t.incidents, t.events);
    forall r | r in t.checkpoints ensures StorableCursor(t.checkpoints[r].cursor) {
      assert CheckpointOk(w, r.key, t.checkpoints[r]);
    }
    forall e | e in t.events ensures StorableEvent(t.events[e].transition) { assert EventOk(w, x, e, t.events[e]); }
    forall i | i in t.incidents
      ensures i.openingFrame != "" && (t.incidents[i].open <==> t.incidents[i].revision == 1)
    {
      assert IncidentOk(w, x, i, t.incidents[i]);
    }
  }

  /** Registry order: delivered rows are a prefix of the (generation, revision)
      order, and along that order event-time cursors strictly increase, across
      cutovers too. */
  lemma RegistryOrder(steps: seq<Step>, p: OutboxId, o: OutboxId)
    requires p in Exec(EMPTY, steps).outbox && o in Exec(EMPTY, steps).outbox && p.Registry? && o.Registry? &&
             Earlier(p, o)
    ensures var x := Exec(EMPTY, steps).outbox;
      && (Delivered(x, o) || InFlight(x, o) ==> Delivered(x, p))
      && x[p].payload.EvaluationPayload? && x[o].payload.EvaluationPayload?
      && CursorLess(x[p].payload.evaluation.Position(), x[o].payload.evaluation.Position())
  {
    hide CursorLess;
    var t := Exec(EMPTY, steps);
    RunsKeep(steps);
    DeliveredPrefix(t.outbox, p, o);
    if p.key == o.key {
      RegistryOrderSame(t, p, o);
    } else {
      RegistryOrderAcross(t, p, o);
    }
  }

  lemma DeliveredPrefix(x: Outbox, p: OutboxId, o: OutboxId)
    requires InOrder(x) && p in x && o in x && p.Registry? && o.Registry? && Earlier(p, o)
    ensures Delivered(x, o) || InFlight(x, o) ==> Delivered(x, p)
  {
    assert IsRegistry(o);
  }

  lemma RegistryOrderSame(t: Tables, p: OutboxId, o: OutboxId)
    requires Inv(t) && p in t.outbox && o in t.outbox && p.Registry? && o.Registry? && p.key == o.key &&
             p.revision < o.revision
    ensures t.outbox[p].payload.EvaluationPayload? && t.outbox[o].payload.EvaluationPayload?
    ensures CursorLess(t.outbox[p].payload.evaluation.Position(), t.outbox[o].payload.evaluation.Position())
  {
    hide CursorLess, Tiled, LedgerOk, RegistryLive, InOrder, CheckpointsIn, CursorsOrdered, RevisionsOk, SummariesOk,
      SpansOf, In;
    var w := SpansOf(t.assignments, t.summaries);
    assert IsRegistry(o) && IsRegistry(p);
    assert RegistryRowOk(w, t.checkpoints, p, t.outbox[p]) && RegistryRowOk(w, t.checkpoints, o, t.outbox[o]);
    assert p == Registry(p.key, p.revision) && o == Registry(p.key, o.revision);
  }

  lemma RegistryOrderAcross(t: Tables, p: OutboxId, o: OutboxId)
    requires Inv(t) && p in t.outbox && o in t.outbox && p.Registry? && o.Registry? && p.key.id == o.key.id &&
             p.key.gen < o.key.gen
    ensures t.outbox[p].payload.EvaluationPayload? && t.outbox[o].payload.EvaluationPayload?
    ensures CursorLess(t.outbox[p].payload.evaluation.Position(), t.outbox[o].payload.evaluation.Position())
  {
    hide Recorded, RowOk, OneCurrent, CandidateHighest, Chained, CurrentLast, InOrder, InboxOk;
    RegistryInside(t);
    EvidenceAuthority(t, p);
    EvidenceAuthority(t, o);
  }

  lemma EvidenceAuthority(t: Tables, o: OutboxId)
    requires Inv(t) && o in t.outbox && o.Registry?
    ensures o.key in t.assignments && HasAuthority(t.assignments[o.key])
  {
    hide Tiled, LedgerOk, RegistryLive, InOrder, CheckpointsIn, CursorsOrdered, RegistryStrict;
    var w := SpansOf(t.assignments, t.summaries);
    assert IsRegistry(o);
    assert RegistryRowOk(w, t.checkpoints, o, t.outbox[o]);
    assert SummaryOk(t.assignments, t.checkpoints, o.key, t.summaries[o.key]);
  }

  lemma {:induction false} LivePrefix(x: Outbox, k: Key, n: nat) returns (live: nat)
    requires forall i: nat, j: nat :: Registry(k, i) in x && 1 <= j <= i ==> Registry(k, j) in x
    requires forall i: nat :: Registry(k, i) in x ==> 1 <= i <= n
    ensures live <= n && forall i: nat :: Registry(k, i) in x <==> 1 <= i <= live
  {
    if n == 0 || Registry(k, n) in x {
      live := n;
    } else {
      live := LivePrefix(x, k, n - 1);
    }
  }

  /** Revision and evidence conservation: checkpoints carry exactly revisions
      1..n, registry rows exactly a prefix 1..live, all of them while current,
      and a resolved incident points at its own resolution event. */
  lemma RevisionConservation(steps: seq<Step>, k: Key) returns (live: nat)
    requires k in Exec(EMPTY, steps).assignments
    ensures var t := Exec(EMPTY, steps); var n := t.assignments[k].revision;
      && (forall i: nat :: RevisionKey(k, i) in t.checkpoints <==> 1 <= i <= n)
      && (forall i: nat, j: nat :: 1 <= i <= j <= n ==>
           CursorAtMost(t.checkpoints[RevisionKey(k, i)].cursor, t.checkpoints[RevisionKey(k, j)].cursor))
      && live <= n && (forall i: nat :: Registry(k, i) in t.outbox <==> 1 <= i <= live)
      && (IsCurrent(t.assignments[k].lifecycle) ==> live == n)
      && (forall i :: i in t.incidents && !t.incidents[i].open ==>
            && t.incidents[i].resolution.Some? && t.incidents[i].resolution.value in t.events
            && t.incidents[i].resolution.value.kind == Resolved
            && t.events[t.incidents[i].resolution.value].incident == i
            && t.events[t.incidents[i].resolution.value].transition.openingFrame == i.openingFrame)
  {
    hide CursorLess, Tiled, InOrder, InboxOk, CheckpointsIn, SummariesOk, SpansOf, In, RegistryStrict;
    var t := Exec(EMPTY, steps);
    RunsKeep(steps);
    var w := SpansOf(t.assignments, t.summaries);
    forall i: nat | Registry(k, i) in t.outbox ensures 1 <= i <= t.assignments[k].revision {
      assert IsRegistry(Registry(k, i));
      assert RegistryRowOk(w, t.checkpoints, Registry(k, i), t.outbox[Registry(k, i)]);
    }
    live := LivePrefix(t.outbox, k, t.assignments[k].revision);
    var n := t.assignments[k].revision;
    assert IsCurrent(t.assignments[k].lifecycle) && 1 <= n ==> Registry(k, n) in t.outbox;
    ResolutionsPoint(w, Ledger(t.incidents, t.events));
  }

  lemma ResolutionsPoint(w: Spans, x: Ledger)
    requires LedgerOk(w, x)
    ensures forall i :: i in x.incidents && !x.incidents[i].open ==>
              && x.incidents[i].resolution.Some? && x.incidents[i].resolution.value in x.events
              && x.incidents[i].resolution.value.kind == Resolved
              && x.events[x.incidents[i].resolution.value].incident == i
              && x.events[x.incidents[i].resolution.value].transition.openingFrame == i.openingFrame
  {
    forall i | i in x.incidents ensures IncidentOk(w, x, i, x.incidents[i]) {}
    forall e | e in x.events ensures EventOk(w, x, e, x.events[e]) {}
  }
}
