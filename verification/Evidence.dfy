/** What every transaction keeps about the recorded evidence: revisions,
    checkpoints, summaries, incidents and events. */
module Evidence {
  import opened Domain
  import opened Tables
  import opened Timeline

  // ---------- evidence windows ----------

  /** From the start of authority to the durable watermark, with the number of
      revisions written. */
  datatype Span = Span(lo: Time, hi: Time, revision: nat)

  type Spans = map<Key, Span>

  ghost function SpansOf(m: Assignments, summaries: map<Key, Summary>): Spans {
    map k | k in summaries && k in m && m[k].authorityFrom.Some? ::
      Span(m[k].authorityFrom.value, summaries[k].evaluation.observedAt, m[k].revision)
  }

  predicate In(w: Spans, k: Key, t: Time) { k in w && w[k].lo <= t <= w[k].hi }

  predicate InOrUnset(w: Spans, k: Key, t: Time) { IsZero(t) || In(w, k, t) }

  predicate StateIn(w: Spans, k: Key, s: EvaluatorState) {
    forall v :: v in s ==>
        InOrUnset(w, k, s[v].firstSuspectedAt) && InOrUnset(w, k, s[v].openedAt) && InOrUnset(w, k, s[v].lastObservedAt)
  }

  predicate TransitionsIn(w: Spans, k: Key, trs: seq<Transition>) {
    forall i :: 0 <= i < |trs| ==> In(w, k, trs[i].observedAt)
  }

  // What the columns of a checkpoint and of an event can hold.
  predicate StorableCursor(c: Cursor) { c.frameId != "" && c.walId != "" && c.walSeq <= MAX_INT64 }

  predicate StorableEvent(tr: Transition) {
    tr.frameId != "" && tr.openingFrame != "" && tr.walId != "" && tr.walSeq <= MAX_INT64
  }

  // Windows only ever extend at the watermark end.
  ghost predicate Extends(w: Spans, w': Spans) {
    forall k :: k in w ==> k in w' && w'[k].lo == w[k].lo && w[k].hi <= w'[k].hi && w[k].revision <= w'[k].revision
  }

  // ---------- revisions, summaries, checkpoints ----------

  ghost predicate RevisionsOk(m: Assignments, cps: Checkpoints) {
    && (forall r :: r in cps ==> r.key in m && 1 <= r.revision <= m[r.key].revision)
    && (forall k, n :: k in m && 1 <= n <= m[k].revision ==> RevisionKey(k, n) in cps)
  }

  predicate SummaryOk(m: Assignments, cps: Checkpoints, k: Key, s: Summary) {
    && k in m && HasAuthority(m[k]) && s.revision == m[k].revision && 0 < s.revision
    && RevisionKey(k, s.revision) in cps
    && cps[RevisionKey(k, s.revision)] == Checkpoint(s.evaluation.Position(), s.evaluation.state)
    && s.evaluation.recording == Confirmed
    && m[k].authorityFrom.value <= s.evaluation.causalFrom <= s.evaluation.observedAt < m[k].authorityUntil.value
    && TransitionsWithin(s.evaluation.transitions, m[k].authorityFrom.value, s.evaluation.observedAt)
  }

  ghost predicate SummariesOk(m: Assignments, cps: Checkpoints, summaries: map<Key, Summary>) {
    && (forall k :: k in summaries ==> SummaryOk(m, cps, k, summaries[k]))
    && (forall k :: k in m && 0 < m[k].revision ==> k in summaries)
  }

  predicate CheckpointOk(w: Spans, k: Key, c: Checkpoint) {
    In(w, k, c.cursor.at) && StateIn(w, k, c.state) && StorableCursor(c.cursor)
  }

  ghost predicate CheckpointsIn(w: Spans, cps: Checkpoints) {
    forall r :: r in cps ==> CheckpointOk(w, r.key, cps[r])
  }

  ghost predicate CursorsOrdered(cps: Checkpoints) {
    forall a, b :: a in cps && b in cps && a.key == b.key && a.revision <= b.revision ==>
        CursorAtMost(cps[a].cursor, cps[b].cursor)
  }

  // ---------- incidents and events ----------

  predicate IncidentOk(w: Spans, x: Ledger, i: IncidentId, r: IncidentRow) {
    && In(w, i.key, r.openedAt) && In(w, i.key, r.lastObservedAt) && r.openedAt <= r.lastObservedAt
    && r.open == r.resolution.None? && r.open == r.resolvedAt.None? && r.open == (r.revision == 1) && 1 <= r.revision
    && i.openingFrame != ""
    && (!r.open ==>
          && r.resolution.value in x.events && x.events[r.resolution.value].incident == i
          && r.resolution.value.kind == Resolved
          && r.resolvedAt.value == r.lastObservedAt == x.events[r.resolution.value].transition.observedAt)
  }

  predicate EventOk(w: Spans, x: Ledger, e: EventId, r: EventRow) {
    && In(w, e.key, r.transition.observedAt) && 1 <= r.revision <= w[e.key].revision
    && StorableEvent(r.transition) && e == EventOf(e.key, r.transition)
    && r.incident == IncidentOf(e.key, r.transition) && r.incident in x.incidents
  }

  ghost predicate OneOpen(inc: Incidents) {
    forall i, j :: i in inc && j in inc && SameSlot(i, j) && inc[i].open && inc[j].open ==> i == j
  }

  // One incident per assignment generation and violation may be open.
  predicate SameSlot(i: IncidentId, j: IncidentId) {
    i.key == j.key && i.violation == j.violation
  }

  ghost predicate LedgerOk(w: Spans, x: Ledger) {
    && (forall i :: i in x.incidents ==> IncidentOk(w, x, i, x.incidents[i]))
    && (forall e :: e in x.events ==> EventOk(w, x, e, x.events[e]))
    && OneOpen(x.incidents)
  }

  // ---------- registry projection ----------

  predicate IsRegistry(o: OutboxId) { o.Registry? }

  predicate RegistryRowOk(w: Spans, cps: Checkpoints, o: OutboxId, r: OutboxRow)
    requires o.Registry?
  {
    && RevisionKey(o.key, o.revision) in cps && r.payload.EvaluationPayload?
    && r.payload.evaluation.recording == Confirmed
    && In(w, o.key, r.payload.evaluation.causalFrom) && TransitionsIn(w, o.key, r.payload.evaluation.transitions)
    && cps[RevisionKey(o.key, o.revision)] == Checkpoint(r.payload.evaluation.Position(), r.payload.evaluation.state)
  }

  ghost predicate RegistryRowsOk(w: Spans, cps: Checkpoints, x: Outbox) {
    forall o :: o in x && IsRegistry(o) ==> RegistryRowOk(w, cps, o, x[o])
  }

  // Projected revisions are a prefix 1..n of the written ones, and all of them while current.
  ghost predicate RegistryLive(m: Assignments, x: Outbox) {
    && (forall k, n, j :: Registry(k, n) in x && 1 <= j <= n ==> Registry(k, j) in x)
    && (forall k, n :: k in m && IsCurrent(m[k].lifecycle) && 1 <= n <= m[k].revision ==> Registry(k, n) in x)
  }

  // Revision n of k is checkpointed and published.
  predicate Projects(x: Outbox, cps: Checkpoints, k: Key, n: nat) { Registry(k, n) in x && RevisionKey(k, n) in cps }

  ghost predicate RegistryStrict(cps: Checkpoints, x: Outbox) {
    forall k, i, j :: Projects(x, cps, k, i) && Projects(x, cps, k, j) && i < j ==>
      CursorLess(cps[RevisionKey(k, i)].cursor, cps[RevisionKey(k, j)].cursor)
  }

  // A summary whose revision was published is that publication.
  ghost predicate SummariesPublished(summaries: map<Key, Summary>, x: Outbox) {
    forall k :: k in summaries && Registry(k, summaries[k].revision) in x ==>
      x[Registry(k, summaries[k].revision)].payload == EvaluationPayload(summaries[k].evaluation)
  }

  /** The invariant over all evidence tables. */
  ghost predicate Recorded(t: Tables) {
    var w := SpansOf(t.assignments, t.summaries);
    && RevisionsOk(t.assignments, t.checkpoints) && SummariesOk(t.assignments, t.checkpoints, t.summaries)
    && CheckpointsIn(w, t.checkpoints) && CursorsOrdered(t.checkpoints)
    && LedgerOk(w, Ledger(t.incidents, t.events))
    && RegistryRowsOk(w, t.checkpoints, t.outbox) && RegistryLive(t.assignments, t.outbox)
    && RegistryStrict(t.checkpoints, t.outbox) && SummariesPublished(t.summaries, t.outbox)
  }

  // ---------- transactions that write no evidence ----------

  // Revisions stay, authority starts stay where evidence exists, and no cut falls on evidence.
  ghost predicate KeepsEvidenceRows(m: Assignments, m': Assignments, summaries: map<Key, Summary>) {
    && (forall k :: k in m ==> k in m' && m'[k].revision == m[k].revision)
    && (forall k :: k in m' && k !in m ==> m'[k].revision == 0)
    && (forall k :: k in m && 0 < m[k].revision ==>
          && m'[k].authorityFrom == m[k].authorityFrom && HasAuthority(m'[k])
          && (IsCurrent(m'[k].lifecycle) ==> IsCurrent(m[k].lifecycle))
          && (k in summaries ==> summaries[k].evaluation.observedAt < m'[k].authorityUntil.value))
  }

  // Registry rows keep their identity and payload.
  ghost predicate KeepsRegistry(x: Outbox, x': Outbox) {
    && (forall o :: IsRegistry(o) ==> (o in x <==> o in x'))
    && (forall o :: o in x && o in x' ==> x'[o].payload == x[o].payload)
  }

  lemma EvidenceFrame(t: Tables, t': Tables)
    requires Recorded(t) && t'.checkpoints == t.checkpoints && t'.summaries == t.summaries
    requires t'.incidents == t.incidents && t'.events == t.events
    requires KeepsEvidenceRows(t.assignments, t'.assignments, t.summaries) && KeepsRegistry(t.outbox, t'.outbox)
    ensures Recorded(t')
  {
    hide CheckpointsIn, CursorsOrdered, LedgerOk, RegistryRowsOk, RegistryLive, RegistryStrict, SummariesOk,
      RevisionsOk, SpansOf, SummariesPublished;
    SpansFrame(t.assignments, t'.assignments, t.checkpoints, t.summaries);
    SummariesFrame(t.assignments, t'.assignments, t.checkpoints, t.summaries);
    RevisionsFrame(t.assignments, t'.assignments, t.checkpoints, t.summaries);
    RegistryFrame(t, t');
  }

  lemma SpansFrame(m: Assignments, m': Assignments, cps: Checkpoints, summaries: map<Key, Summary>)
    requires SummariesOk(m, cps, summaries) && KeepsEvidenceRows(m, m', summaries)
    ensures SpansOf(m', summaries) == SpansOf(m, summaries)
  {
    forall k | k in summaries ensures k in m && k in m' && m'[k].authorityFrom == m[k].authorityFrom {
      assert SummaryOk(m, cps, k, summaries[k]);
    }
  }

  lemma SummariesFrame(m: Assignments, m': Assignments, cps: Checkpoints, summaries: map<Key, Summary>)
    requires SummariesOk(m, cps, summaries) && KeepsEvidenceRows(m, m', summaries)
    ensures SummariesOk(m', cps, summaries)
  {
    forall k | k in summaries ensures SummaryOk(m', cps, k, summaries[k]) {
      assert SummaryOk(m, cps, k, summaries[k]);
    }
  }

  lemma RevisionsFrame(m: Assignments, m': Assignments, cps: Checkpoints, summaries: map<Key, Summary>)
    requires RevisionsOk(m, cps) && KeepsEvidenceRows(m, m', summaries)
    ensures RevisionsOk(m', cps)
  {
    forall r | r in cps ensures r.key in m' && 1 <= r.revision <= m'[r.key].revision {
      assert r.key in m;
    }
    forall k, n | k in m' && 1 <= n <= m'[k].revision ensures RevisionKey(k, n) in cps {
      assert k in m;
    }
  }

  lemma RegistryFrame(t: Tables, t': Tables)
    requires KeepsRegistry(t.outbox, t'.outbox) && KeepsEvidenceRows(t.assignments, t'.assignments, t.summaries)
    requires RegistryLive(t.assignments, t.outbox)
    ensures forall w, cps :: RegistryRowsOk(w, cps, t.outbox) ==> RegistryRowsOk(w, cps, t'.outbox)
    ensures RegistryLive(t'.assignments, t'.outbox)
    ensures forall cps :: RegistryStrict(cps, t.outbox) ==> RegistryStrict(cps, t'.outbox)
    ensures SummariesPublished(t.summaries, t.outbox) ==> SummariesPublished(t.summaries, t'.outbox)
  {
    assert forall k, n :: Registry(k, n) in t'.outbox <==> Registry(k, n) in t.outbox by {
      assert forall k, n :: IsRegistry(Registry(k, n));
    }
    assert forall o :: o in t.outbox && IsRegistry(o) ==> o in t'.outbox;
  }

  // ---------- one more transition in the ledger ----------

  lemma LedgerExtends(w: Spans, w': Spans, x: Ledger)
    requires LedgerOk(w, x) && Extends(w, w')
    ensures LedgerOk(w', x)
  {
  }

  lemma OpenStepKeeps(w: Spans, x: Ledger, k: Key, tr: Transition)
    requires LedgerOk(w, x) && In(w, k, tr.observedAt) && StorableEvent(tr) && OpenStep(x.incidents, k, tr).Ok?
    ensures var inc := OpenStep(x.incidents, k, tr).value;
            LedgerOk(w, Ledger(inc, x.events)) && IncidentOf(k, tr) in inc
            && (tr.kind == Resolved ==> inc[IncidentOf(k, tr)].openedAt <= tr.observedAt)
  {
    hide EventOk, In;
    var inc := OpenStep(x.incidents, k, tr).value;
    var y := Ledger(inc, x.events);
    forall e | e in y.events ensures EventOk(w, y, e, y.events[e]) { EventKept(w, x, y, e); }
    forall i | i in inc ensures IncidentOk(w, y, i, inc[i]) {
      if i in x.incidents { assert IncidentOk(w, x, i, x.incidents[i]); }
    }
  }

  lemma EventKept(w: Spans, x: Ledger, y: Ledger, e: EventId)
    requires LedgerOk(w, x) && e in x.events && e in y.events && y.events[e] == x.events[e] &&
             x.incidents.Keys <= y.incidents.Keys
    ensures EventOk(w, y, e, y.events[e])
  {
    assert EventOk(w, x, e, x.events[e]);
  }

  lemma EventStepKeeps(w: Spans, x: Ledger, k: Key, revision: nat, tr: Transition)
    requires LedgerOk(w, x) && In(w, k, tr.observedAt) && 1 <= revision <= w[k].revision &&
             IncidentOf(k, tr) in x.incidents
    requires EventStep(x.events, k, revision, tr).Ok? && StorableEvent(tr)
    ensures var evs := EventStep(x.events, k, revision, tr).value;
            LedgerOk(w, Ledger(x.incidents, evs)) && EventOf(k, tr) in evs &&
            evs[EventOf(k, tr)].incident == IncidentOf(k, tr) && evs[EventOf(k, tr)].transition == tr
  {
    hide In;
    var evs := EventStep(x.events, k, revision, tr).value;
    var y := Ledger(x.incidents, evs);
    forall i | i in y.incidents ensures IncidentOk(w, y, i, y.incidents[i]) {
      assert IncidentOk(w, x, i, x.incidents[i]);
    }
    forall e | e in evs ensures EventOk(w, y, e, evs[e]) {
      if e in x.events { EventKept(w, x, y, e); }
    }
  }

  lemma ResolveKeeps(w: Spans, x: Ledger, k: Key, tr: Transition)
    requires LedgerOk(w, x) && In(w, k, tr.observedAt) && tr.kind == Resolved
    requires IncidentOf(k, tr) in x.incidents && x.incidents[IncidentOf(k, tr)].openedAt <= tr.observedAt
    requires EventOf(k, tr) in x.events && x.events[EventOf(k, tr)].incident == IncidentOf(k, tr) &&
             x.events[EventOf(k, tr)].transition == tr
    ensures var i := IncidentOf(k, tr);
            LedgerOk(w, Ledger(x.incidents[i := ResolveIncident(x.incidents[i], tr, EventOf(k, tr))], x.events))
  {
    hide EventOk, In;
    var i := IncidentOf(k, tr);
    var y := Ledger(x.incidents[i := ResolveIncident(x.incidents[i], tr, EventOf(k, tr))], x.events);
    forall e | e in y.events ensures EventOk(w, y, e, y.events[e]) { EventKept(w, x, y, e); }
    assert IncidentOk(w, x, i, x.incidents[i]);
    forall j | j in y.incidents ensures IncidentOk(w, y, j, y.incidents[j]) {
      if j != i { assert IncidentOk(w, x, j, x.incidents[j]); }
    }
  }

  lemma ApplyTransitionKeeps(w: Spans, x: Ledger, k: Key, revision: nat, tr: Transition)
    requires LedgerOk(w, x) && In(w, k, tr.observedAt) && 1 <= revision <= w[k].revision
    requires ApplyTransition(x, k, revision, tr).Ok? && StorableEvent(tr)
    ensures LedgerOk(w, ApplyTransition(x, k, revision, tr).value)
    ensures EventsKept(x.events, ApplyTransition(x, k, revision, tr).value.events)
  {
    hide LedgerOk, In, OpenStep, EventStep, ResolveIncident;
    OpenStepKeeps(w, x, k, tr);
    var inc := OpenStep(x.incidents, k, tr).value;
    EventStepKeeps(w, Ledger(inc, x.events), k, revision, tr);
    EventStepGrows(x.events, k, revision, tr);
    if tr.kind == Resolved {
      ResolveKeeps(w, Ledger(inc, EventStep(x.events, k, revision, tr).value), k, tr);
    }
  }

  // Event rows are never removed or altered.
  ghost predicate EventsKept(evs: Events, evs': Events) {
    forall e :: e in evs ==> e in evs' && evs'[e] == evs[e]
  }

  lemma EventStepGrows(evs: Events, k: Key, revision: nat, tr: Transition)
    requires EventStep(evs, k, revision, tr).Ok?
    ensures EventsKept(evs, EventStep(evs, k, revision, tr).value)
  {
  }

  lemma {:induction false} ApplyTransitionsKeep(w: Spans, x: Ledger, k: Key, revision: nat, trs: seq<Transition>)
    requires LedgerOk(w, x) && k in w && 1 <= revision <= w[k].revision
    requires forall i :: 0 <= i < |trs| ==> In(w, k, trs[i].observedAt) && StorableEvent(trs[i])
    requires ApplyTransitions(x, k, revision, trs).Ok?
    ensures LedgerOk(w, ApplyTransitions(x, k, revision, trs).value)
    ensures EventsKept(x.events, ApplyTransitions(x, k, revision, trs).value.events)
  {
    hide LedgerOk, ApplyTransition, In;
    if trs != [] {
      ApplyTransitionsKeep(w, x, k, revision, trs[..|trs| - 1]);
      ApplyTransitionKeeps(w, ApplyTransitions(x, k, revision, trs[..|trs| - 1]).value, k, revision, trs[|trs| - 1]);
    }
  }

  // ---------- transactions that write one revision ----------

  // Only the revision count of k moves, by one.
  ghost predicate AdvancesRow(m: Assignments, m': Assignments, k: Key) {
    && SameAuthority(m, m') && k in m && k in m' && HasAuthority(m[k]) && m'[k].revision == m[k].revision + 1
    && forall j :: j in m && j != k ==> m'[j].revision == m[j].revision
  }

  /** The newest revision is the row's own count. */
  lemma NewestIsRevision(m: Assignments, cps: Checkpoints, k: Key)
    requires RevisionsOk(m, cps) && k in m
    ensures Newest(cps, k) == if m[k].revision == 0 then None else Some(m[k].revision)
  {
    var n := m[k].revision;
    assert forall r :: r in Revisions(cps, k) ==> RevisionKey(k, r) in cps;
    if n != 0 {
      assert RevisionKey(k, n) in cps;
      assert IsNewest(cps, k, n);
      forall r | IsNewest(cps, k, r) ensures r == n {
        assert RevisionKey(k, n).revision in Revisions(cps, k);
      }
    }
  }

  lemma CursorAdvances(m: Assignments, cps: Checkpoints, k: Key, ev: Evaluation, allowEqual: bool)
    requires RevisionsOk(m, cps) && CursorsOrdered(cps) && k in m && !StaleCursor(cps, k, ev, allowEqual)
    ensures forall r :: r in cps && r.key == k ==> CursorAtMost(cps[r].cursor, ev.Position())
    ensures !allowEqual ==> forall r :: r in cps && r.key == k ==> CursorLess(cps[r].cursor, ev.Position())
  {
    hide CursorLess;
    NewestIsRevision(m, cps, k);
    forall r | r in cps && r.key == k
      ensures CursorAtMost(cps[r].cursor, ev.Position()) && (!allowEqual ==> CursorLess(cps[r].cursor, ev.Position()))
    {
      assert RevisionKey(k, m[k].revision) in cps;
      CursorAtMostTransitive(cps[r].cursor, cps[RevisionKey(k, m[k].revision)].cursor, ev.Position());
    }
  }

  // An evaluation that passed both validations has every timestamp in its own window.
  predicate Admitted(ev: Evaluation, from: Time, until: Time) {
    && from <= ev.causalFrom <= ev.observedAt < until
    && TransitionsWithin(ev.transitions, from, ev.observedAt) && StateWithin(ev.state, from, ev.observedAt)
    && StorableCursor(ev.Position()) && forall i :: 0 <= i < |ev.transitions| ==> StorableEvent(ev.transitions[i])
  }

  lemma ValidatedIsAdmitted(ev: Evaluation, next: Time, from: Time, until: Time)
    requires ValidCommit(ev, next) && WithinAuthority(ev, from, until)
    ensures Admitted(ev, from, until)
  {
    forall i | 0 <= i < |ev.transitions|
      ensures !IsZero(ev.transitions[i].observedAt) && from <= ev.transitions[i].observedAt <= ev.observedAt
      ensures StorableEvent(ev.transitions[i])
    {
      assert ValidTransition(ev.transitions[i], ev.observedAt);
    }
    forall v | v in ev.state ensures IncidentWithin(ev.state[v], from, ev.observedAt) {
      assert IncidentTimesOk(ev.state[v], from, until, ev.observedAt);
    }
  }

  lemma SpansExtend(
    m: Assignments, m': Assignments, cps: Checkpoints, summaries: map<Key, Summary>, k: Key, ev: Evaluation, s: Summary)
    requires SummariesOk(m, cps, summaries) && AdvancesRow(m, m', k) && s.evaluation.observedAt == ev.observedAt
    requires forall r :: r in cps && r.key == k ==> CursorAtMost(cps[r].cursor, ev.Position())
    ensures var w' := SpansOf(m', summaries[k := s]);
            Extends(SpansOf(m, summaries), w') && k in w' &&
            w'[k] == Span(m[k].authorityFrom.value, ev.observedAt, m[k].revision + 1)
  {
    forall j | j in SpansOf(m, summaries)
      ensures j in m && j in m' && SameRow(m[j], m'[j]) && SummaryOk(m, cps, j, summaries[j]) {}
    if k in summaries {
      assert SummaryOk(m, cps, k, summaries[k]);
      assert RevisionKey(k, summaries[k].revision) in cps;
    }
  }

  lemma CheckpointsExtend(w: Spans, w': Spans, cps: Checkpoints, k: Key, n: nat, ev: Evaluation, until: Time)
    requires CheckpointsIn(w, cps) && Extends(w, w') && k in w' && w'[k].hi == ev.observedAt &&
             Admitted(ev, w'[k].lo, until)
    ensures CheckpointsIn(w', cps[RevisionKey(k, n) := Checkpoint(ev.Position(), ev.state)])
  {
    forall r | r in cps ensures CheckpointOk(w', r.key, cps[r]) {
      assert CheckpointOk(w, r.key, cps[r]);
    }
    assert StateIn(w', k, ev.state);
  }

  lemma CursorsExtend(m: Assignments, cps: Checkpoints, k: Key, c: Checkpoint)
    requires RevisionsOk(m, cps) && CursorsOrdered(cps) && k in m
    requires forall r :: r in cps && r.key == k ==> CursorAtMost(cps[r].cursor, c.cursor)
    ensures CursorsOrdered(cps[RevisionKey(k, m[k].revision + 1) := c])
  {
    hide CursorLess;
  }

  lemma RevisionsExtend(m: Assignments, m': Assignments, cps: Checkpoints, k: Key, c: Checkpoint)
    requires RevisionsOk(m, cps) && AdvancesRow(m, m', k)
    ensures RevisionsOk(m', cps[RevisionKey(k, m'[k].revision) := c])
  {
    forall j, n | j in m' && 1 <= n <= m'[j].revision
      ensures RevisionKey(j, n) in cps[RevisionKey(k, m'[k].revision) := c]
    {
      assert j in m;
      if j != k || n <= m[k].revision { assert RevisionKey(j, n) in cps; }
    }
  }

  lemma SummariesExtend(
    m: Assignments, m': Assignments, cps: Checkpoints, summaries: map<Key, Summary>, k: Key, ev: Evaluation)
    requires RevisionsOk(m, cps) && SummariesOk(m, cps, summaries) && AdvancesRow(m, m', k)
    requires Admitted(ev, m[k].authorityFrom.value, m[k].authorityUntil.value)
    ensures SummariesOk(m', cps[RevisionKey(k, m'[k].revision) := Checkpoint(ev.Position(), ev.state)],
                        summaries[k := Summary(m'[k].revision, ev.(recording := Confirmed))])
  {
    var cps' := cps[RevisionKey(k, m'[k].revision) := Checkpoint(ev.Position(), ev.state)];
    var s := Summary(m'[k].revision, ev.(recording := Confirmed));
    hide SummaryOk, Admitted, SameRow;
    NewSummaryOk(m, m', cps, k, ev);
    forall j | j in summaries && j != k ensures SummaryOk(m', cps', j, summaries[j]) {
      OtherSummaryOk(m, m', cps, cps', j, summaries[j], RevisionKey(k, m'[k].revision));
    }
    forall j | j in m' && 0 < m'[j].revision ensures j in summaries[k := s] { assert j in m; }
  }

  lemma NewSummaryOk(m: Assignments, m': Assignments, cps: Checkpoints, k: Key, ev: Evaluation)
    requires AdvancesRow(m, m', k) && Admitted(ev, m[k].authorityFrom.value, m[k].authorityUntil.value)
    ensures SummaryOk(m', cps[RevisionKey(k, m'[k].revision) := Checkpoint(ev.Position(), ev.state)], k,
                      Summary(m'[k].revision, ev.(recording := Confirmed)))
  {
    assert SameRow(m[k], m'[k]);
  }

  lemma OtherSummaryOk(
    m: Assignments, m': Assignments, cps: Checkpoints, cps': Checkpoints, j: Key, s: Summary, written: RevisionKey)
    requires SummaryOk(m, cps, j, s) && j in m' && SameRow(m[j], m'[j]) && m'[j].revision == m[j].revision
    requires j != written.key && forall r :: r in cps && r != written ==> r in cps' && cps'[r] == cps[r]
    ensures SummaryOk(m', cps', j, s)
  {
  }

  // The new registry row, when there is one.
  function Projected(x: Outbox, k: Key, n: nat, ev: Evaluation, publish: bool, now: Time): Outbox {
    if publish && Registry(k, n) !in x then x[Registry(k, n) := QueuedRow(EvaluationPayload(ev), now)] else x
  }

  lemma NotYetProjected(w: Spans, m: Assignments, cps: Checkpoints, x: Outbox, k: Key, n: nat)
    requires RevisionsOk(m, cps) && RegistryRowsOk(w, cps, x) && k in m && m[k].revision < n
    ensures Registry(k, n) !in x
  {
    assert IsRegistry(Registry(k, n));
    assert Registry(k, n) in x ==> RevisionKey(k, n) in cps;
  }

  lemma RegistryRowsExtend(
    w: Spans, w': Spans, cps: Checkpoints, x: Outbox, k: Key, n: nat, ev: Evaluation, until: Time, publish: bool,
    now: Time)
    requires RegistryRowsOk(w, cps, x) && Extends(w, w') && RevisionKey(k, n) !in cps
    requires k in w' && w'[k].hi == ev.observedAt && Admitted(ev, w'[k].lo, until)
    ensures RegistryRowsOk(w', cps[RevisionKey(k, n) := Checkpoint(ev.Position(), ev.state)],
                           Projected(x, k, n, ev.(recording := Confirmed), publish, now))
  {
    var cps' := cps[RevisionKey(k, n) := Checkpoint(ev.Position(), ev.state)];
    var x' := Projected(x, k, n, ev.(recording := Confirmed), publish, now);
    forall o | o in x' && IsRegistry(o) ensures RegistryRowOk(w', cps', o, x'[o]) {
      if o in x { assert RegistryRowOk(w, cps, o, x[o]); }
    }
  }

  lemma RegistryLiveExtends(
    m: Assignments, m': Assignments, x: Outbox, k: Key, ev: Evaluation, publish: bool, now: Time)
    requires RegistryLive(m, x) && AdvancesRow(m, m', k) && IsCurrent(m[k].lifecycle) == publish
    ensures RegistryLive(m', Projected(x, k, m'[k].revision, ev, publish, now))
  {
    var x' := Projected(x, k, m'[k].revision, ev, publish, now);
    forall j, n | j in m' && IsCurrent(m'[j].lifecycle) && 1 <= n <= m'[j].revision ensures Registry(j, n) in x' {
      assert j in m && SameRow(m[j], m'[j]);
      if j != k || n <= m[k].revision { assert Registry(j, n) in x; }
    }
    forall j, n, i | Registry(j, n) in x' && 1 <= i <= n ensures Registry(j, i) in x' {
      if Registry(j, n) in x { assert Registry(j, i) in x; }
    }
  }

  lemma RegistryStrictExtends(
    cps: Checkpoints, x: Outbox, k: Key, n: nat, c: Checkpoint, ev: Evaluation, publish: bool, now: Time)
    requires RegistryStrict(cps, x) && RevisionKey(k, n) !in cps
    requires forall r :: r in cps && r.key == k ==> r.revision < n
    requires publish ==> forall r :: r in cps && r.key == k ==> CursorLess(cps[r].cursor, c.cursor)
    requires !publish ==> Registry(k, n) !in x
    ensures RegistryStrict(cps[RevisionKey(k, n) := c], Projected(x, k, n, ev, publish, now))
  {
    hide CursorLess;
    var cps', x' := cps[RevisionKey(k, n) := c], Projected(x, k, n, ev, publish, now);
    forall l, i, j | Projects(x', cps', l, i) && Projects(x', cps', l, j) && i < j
      ensures CursorLess(cps'[RevisionKey(l, i)].cursor, cps'[RevisionKey(l, j)].cursor)
    {
      assert l == k && j != n ==> RevisionKey(l, j) in cps;
    }
  }

  /** Writing one admitted revision keeps all evidence. */
  lemma WriteKeeps(t: Tables, m': Assignments, k: Key, ev: Evaluation, publish: bool, now: Time)
    requires Recorded(t) && AdvancesRow(t.assignments, m', k) && IsCurrent(t.assignments[k].lifecycle) == publish
    requires Admitted(ev, t.assignments[k].authorityFrom.value, t.assignments[k].authorityUntil.value)
    requires WriteEvaluation(t.(assignments := m'), k, m'[k].revision, ev, !publish, publish, now).Ok?
    ensures Recorded(WriteEvaluation(t.(assignments := m'), k, m'[k].revision, ev, !publish, publish, now).value)
    ensures var t' := WriteEvaluation(t.(assignments := m'), k, m'[k].revision, ev, !publish, publish, now).value;
            EventsKept(t.events, t'.events)
  {
    hide RevisionsOk, SummariesOk, CheckpointsIn, CursorsOrdered, LedgerOk, RegistryRowsOk, RegistryLive,
      RegistryStrict, SpansOf, Extends, StaleCursor, CursorLess, EventsKept, SummariesPublished;
    var m, n, cps, sums := t.assignments, m'[k].revision, t.checkpoints, t.summaries;
    var c, s := Checkpoint(ev.Position(), ev.state), Summary(n, ev.(recording := Confirmed));
    var w, w' := SpansOf(m, sums), SpansOf(m', sums[k := s]);
    CursorAdvances(m, cps, k, ev, !publish);
    SpansExtend(m, m', cps, sums, k, ev, s);
    FreshRevision(m, cps, k);
    NotYetProjected(w, m, cps, t.outbox, k, n);
    RevisionsExtend(m, m', cps, k, c);
    SummariesExtend(m, m', cps, sums, k, ev);
    CheckpointsExtend(w, w', cps, k, n, ev, m[k].authorityUntil.value);
    CursorsExtend(m, cps, k, c);
    LedgerExtends(w, w', Ledger(t.incidents, t.events));
    ApplyTransitionsKeep(w', Ledger(t.incidents, t.events), k, n, ev.transitions);
    RegistryRowsExtend(w, w', cps, t.outbox, k, n, ev, m[k].authorityUntil.value, publish, now);
    RegistryLiveExtends(m, m', t.outbox, k, ev.(recording := Confirmed), publish, now);
    RegistryStrictExtends(cps, t.outbox, k, n, c, ev.(recording := Confirmed), publish, now);
    PublishedExtends(sums, t.outbox, k, s, publish, now);
  }

  lemma PublishedExtends(summaries: map<Key, Summary>, x: Outbox, k: Key, s: Summary, publish: bool, now: Time)
    requires SummariesPublished(summaries, x) && Registry(k, s.revision) !in x
    ensures SummariesPublished(summaries[k := s], Projected(x, k, s.revision, s.evaluation, publish, now))
  {
  }

  lemma FreshRevision(m: Assignments, cps: Checkpoints, k: Key)
    requires RevisionsOk(m, cps) && k in m
    ensures RevisionKey(k, m[k].revision + 1) !in cps
    ensures forall r :: r in cps && r.key == k ==> r.revision < m[k].revision + 1
  {
  }
}
