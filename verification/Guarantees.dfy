/** What every behaviour of workers, store and telemetry guarantees. */
module Guarantees {
  import opened Domain
  import opened Evaluator
  import opened Tables
  import opened Timeline
  import EvidenceTables = Evidence
  import opened Delivery
  import opened Runs
  import opened Incidents
  import opened Worker
  import opened Replay
  import opened System
  import Evaluation
  import opened Ordering
  import opened Conditions

  /** Exactly-once replay: whatever claims, crashes, takeovers, deferrals and
      commits came before, every live checkpoint holds the state of one batch from
      the empty state over all attributed observations inside authority up to its
      cursor, and the transitions published so far are the transitions of that batch. */
  lemma ExactlyOnceReplay(engine: Engine, zs: seq<State>, acts: seq<Action>, i: nat, k: Key, n: nat)
    requires Behaviour(engine, zs, acts) && i < |zs| && Registry(k, n) in zs[i].tables.outbox
    ensures var t := zs[i].tables;
            && k in t.assignments && RevisionKey(k, n) in t.checkpoints
            && IsWhole(engine, zs[i].telemetry, t.assignments[k], t.checkpoints[RevisionKey(k, n)],
              Told(t.outbox, k, n))
  {
    hide Inv, LedgersTell, FramesUnique, IsWhole, WorkOk, Act, Conclusions;
    BehavioursKeep(engine, zs, acts, i);
    RegistryKey(zs[i].tables, k, n);
    assert LiveAt(zs[i].tables, k, n);
  }

  /** What is shown is what the whole stream concludes: the payload published with
      a live revision carries the condition of that one batch, and the summary of a
      generation without reconciliations is its newest publication, confirmed. */
  lemma ShownIsConcluded(engine: Engine, zs: seq<State>, acts: seq<Action>, i: nat, k: Key, n: nat)
    requires Behaviour(engine, zs, acts) && i < |zs| && Registry(k, n) in zs[i].tables.outbox
    ensures var t := zs[i].tables;
            && k in t.assignments && k in t.summaries && t.outbox[Registry(k, n)].payload.EvaluationPayload?
            && var ev := t.outbox[Registry(k, n)].payload.evaluation;
            && ev.recording == Confirmed && Concludes(engine, zs[i].telemetry, t.assignments[k], ev)
            && (t.assignments[k].revision == n ==> t.summaries[k] == Summary(n, ev))
            && (IsCurrent(t.assignments[k].lifecycle) ==> Registry(k, t.assignments[k].revision) in t.outbox)
  {
    hide Inv, LedgersTell, FramesUnique, WorkOk, Act, Replays, Concludes;
    BehavioursKeep(engine, zs, acts, i);
    var t := zs[i].tables;
    RegistryKey(t, k, n);
    assert LiveAt(t, k, n);
    SummaryIsPublished(t, k, n);
  }

  /** The condition shown for a generation, by what its telemetry did: the runs of
      breached and inside samples over its whole attributed stream decide it. */
  lemma ShownByRuns(engine: Engine, zs: seq<State>, acts: seq<Action>, i: nat, k: Key, n: nat)
    requires Behaviour(engine, zs, acts) && i < |zs| && Registry(k, n) in zs[i].tables.outbox && engine.policy.Valid()
    ensures var t := zs[i].tables;
            && k in t.assignments && t.outbox[Registry(k, n)].payload.EvaluationPayload?
            && var ev, a := t.outbox[Registry(k, n)].payload.evaluation, Governing(t.assignments[k]);
               var obs := Timewise(Stream(zs[i].telemetry, t.assignments[k], ev.Position()));
            && obs != [] && Evaluator.ValidVolumes(a.volumes)
            && ev.condition == if SomeOpen(engine, a, obs) then NonConforming
                               else if SomeSuspected(engine, a, obs) then Suspicious
                               else if SomeRecovering(engine, a, obs) then Recuperating
                               else if ComparableAt(a, obs[|obs| - 1]) then Conforming else Unknown
  {
    hide Stream, Timewise, Governing, Evaluation.JudgeAll, SomeOpen, SomeSuspected, SomeRecovering, Behaviour,
      ComparableAt;
    ShownIsConcluded(engine, zs, acts, i, k, n);
    var row, ev := zs[i].tables.assignments[k], zs[i].tables.outbox[Registry(k, n)].payload.evaluation;
    BatchCondition(engine, Governing(row), Timewise(Stream(zs[i].telemetry, row, ev.Position())));
  }

  lemma SummaryIsPublished(t: Tables, k: Key, n: nat)
    requires Inv(t) && k in t.assignments && 1 <= n <= t.assignments[k].revision && Registry(k, n) in t.outbox
    requires t.outbox[Registry(k, n)].payload.EvaluationPayload?
    ensures k in t.summaries
    ensures t.assignments[k].revision == n ==> t.summaries[k] == Summary(n, t.outbox[Registry(k, n)].payload.evaluation)
    ensures IsCurrent(t.assignments[k].lifecycle) ==> Registry(k, t.assignments[k].revision) in t.outbox
  {
    hide Tiled, InOrder, InboxOk, EvidenceTables.LedgerOk, EvidenceTables.CheckpointsIn, EvidenceTables.CursorsOrdered,
      EvidenceTables.RegistryRowsOk, EvidenceTables.RegistryStrict, EvidenceTables.RevisionsOk;
    assert EvidenceTables.SummaryOk(t.assignments, t.checkpoints, k, t.summaries[k]);
  }

  /** The event rows of a generation without reconciliations are exactly the
      transitions of that one batch. */
  lemma EventsAreTheStory(engine: Engine, zs: seq<State>, acts: seq<Action>, i: nat, k: Key)
    requires Behaviour(engine, zs, acts) && i < |zs| && Unamended(zs[i].tables, k)
    ensures var t := zs[i].tables; var trs := Told(t.outbox, k, t.assignments[k].revision);
            && (forall j :: 0 <= j < |trs| ==>
                 EventOf(k, trs[j]) in t.events && t.events[EventOf(k, trs[j])].transition == trs[j])
            && (forall e :: e in t.events && e.key == k ==> exists j :: ReportedBy(trs, k, e, j))
  {
    hide Inv, Replays, FramesUnique, WorkOk, Act, Told, OpenAfter, Conclusions;
    BehavioursKeep(engine, zs, acts, i);
    var t := zs[i].tables;
    var trs := Told(t.outbox, k, t.assignments[k].revision);
    var x := Ledger(t.incidents, t.events);
    assert LedgerTells(x, k, trs);
    forall j | 0 <= j < |trs|
      ensures EventOf(k, trs[j]) in t.events && t.events[EventOf(k, trs[j])].transition == trs[j]
    {
      assert ReportedBy(trs, k, EventOf(k, trs[j]), j);
    }
  }

  /** The incident table agrees with the state machine: transitions alternate per
      violation, and an incident row is open exactly when the checkpointed phase is
      open or recovering with that opening frame. */
  lemma IncidentsAgree(engine: Engine, zs: seq<State>, acts: seq<Action>, i: nat, k: Key)
    requires Behaviour(engine, zs, acts) && i < |zs| && Unamended(zs[i].tables, k) &&
             0 < zs[i].tables.assignments[k].revision
    ensures var t := zs[i].tables; var n := t.assignments[k].revision;
            && RevisionKey(k, n) in t.checkpoints && Alternating(Told(t.outbox, k, n))
            && forall v, f :: Showing(t.incidents, IncidentId(k, v, f)) <==>
               OpenFrame(Lookup(t.checkpoints[RevisionKey(k, n)].state, v)) == Some(f)
  {
    hide Inv, Replays, WorkOk, Act, Told, IsWhole, Alternating, Conclusions;
    BehavioursKeep(engine, zs, acts, i);
    var t := zs[i].tables;
    var n := t.assignments[k].revision;
    var trs := Told(t.outbox, k, n);
    ExactlyOnceReplay(engine, zs, acts, i, k, n);
    WholeAlternates(engine, zs[i].telemetry, t.assignments[k], t.checkpoints[RevisionKey(k, n)], trs);
    StoryShows(Ledger(t.incidents, t.events), k, trs, t.checkpoints[RevisionKey(k, n)].state);
  }

  predicate Showing(inc: map<IncidentId, IncidentRow>, i: IncidentId) { i in inc && inc[i].open }

  lemma StoryShows(x: Ledger, k: Key, trs: seq<Transition>, s: EvaluatorState)
    requires LedgerTells(x, k, trs) && Tells(trs, s)
    ensures forall v, f :: Showing(x.incidents, IncidentId(k, v, f)) <==> OpenFrame(Lookup(s, v)) == Some(f)
  {
    hide OpenFrame, Lookup, OpenAfter, Alternating;
    forall v, f ensures Showing(x.incidents, IncidentId(k, v, f)) <==> OpenFrame(Lookup(s, v)) == Some(f) {
      assert OpenAfter(trs, v) == OpenFrame(Lookup(s, v));
      if OpenAfter(trs, v) == Some(f) {
        var j := OpenHasOpening(trs, k, v);
        assert OpenedBy(trs, k, IncidentId(k, v, f), j);
      }
    }
  }

  // ---------- worker commits fail only on fences ----------

  // WAL sequences that the tables can hold.
  predicate Storable(ev: Domain.Evaluation) {
    ev.walSeq <= MAX_INT64 && forall i :: 0 <= i < |ev.transitions| ==> ev.transitions[i].walSeq <= MAX_INT64
  }

  // The worker's lease is neither lost nor expired at the time the commit reads.
  predicate Unfenced(m: Assignments, c: Claim, now: Time) {
    Holds(m, c) && m[c.Key()].revision == c.revision && Unexpired(m[c.Key()], now)
  }

  /** Every evaluation in any worker's hands, in any behaviour, is sound and
      strictly after the checkpoint it was resumed from. */
  lemma EvaluationSound(engine: Engine, zs: seq<State>, acts: seq<Action>, i: nat, x: Evaluated)
    requires Behaviour(engine, zs, acts) && i < |zs| && x in zs[i].evaluated
    ensures Sound(x.evaluation, x.from.claim.authorityFrom, x.from.claim.authorityUntil)
    ensures x.from.checkpoint.Some? ==> CursorLess(x.from.checkpoint.value.cursor, x.evaluation.Position())
  {
    hide Inv, LedgersTell, FramesUnique, Replays, CursorLess, Sound, Resumes, Act, Conclusions;
    BehavioursKeep(engine, zs, acts, i);
    assert EvaluatedOk(engine, zs[i], x);
  }

  lemma SoundIsValid(ev: Domain.Evaluation, from: Time, until: Time, next: Time)
    requires Sound(ev, from, until) && Supported(from) && Supported(until) && !IsZero(next)
    ensures ValidCommit(ev, next) <==> Storable(ev)
    ensures WithinAuthority(ev, from, until)
  {
    forall i | 0 <= i < |ev.transitions|
      ensures ValidTransition(ev.transitions[i], ev.observedAt) <==> ev.transitions[i].walSeq <= MAX_INT64
    {}
    forall v | v in ev.state ensures IncidentTimesOk(ev.state[v], from, until, ev.observedAt) {
      assert IncidentWithin(ev.state[v], from, ev.observedAt);
    }
  }

  // The interval a claim carries is the one its row keeps while current.
  lemma ClaimAuthority(t: Tables, c: Claim)
    requires Inv(t) && c.Key() in t.assignments && ClaimsRow(c, t.assignments[c.Key()])
    ensures Supported(c.authorityFrom) && Supported(c.authorityUntil)
    ensures IsCurrent(t.assignments[c.Key()].lifecycle) ==>
              t.assignments[c.Key()].authorityUntil == Some(c.authorityUntil)
  {
    hide EvidenceTables.Recorded, InOrder, InboxOk, OneCurrent, CandidateHighest, Ordered, Chained, CurrentLast;
    assert RowOk(c.Key(), t.assignments[c.Key()]);
  }

  lemma NotStale(engine: Engine, z: State, x: Evaluated)
    requires SystemInv(engine, z) && x in z.evaluated
    requires x.from.claim.Key() in z.tables.assignments &&
             z.tables.assignments[x.from.claim.Key()].revision == x.from.claim.revision
    ensures !StaleCursor(z.tables.checkpoints, x.from.claim.Key(), x.evaluation, false)
    ensures RevisionKey(x.from.claim.Key(), x.from.claim.revision + 1) !in z.tables.checkpoints
  {
    hide LedgersTell, FramesUnique, Replays, CursorLess, Newest, Sound, Resumes, Tiled, InOrder, InboxOk,
      EvidenceTables.LedgerOk, EvidenceTables.CheckpointsIn, EvidenceTables.CursorsOrdered,
        EvidenceTables.RegistryRowsOk,
      EvidenceTables.RegistryLive, EvidenceTables.RegistryStrict, EvidenceTables.SummariesOk;
    assert EvaluatedOk(engine, z, x);
    EvidenceTables.NewestIsRevision(z.tables.assignments, z.tables.checkpoints, x.from.claim.Key());
    assert RestoredMatches(z.tables.checkpoints, x.from);
  }

  lemma StoryContinues(engine: Engine, z: State, x: Evaluated)
    requires SystemInv(engine, z) && x in z.evaluated && Holds(z.tables.assignments, x.from.claim)
    requires z.tables.assignments[x.from.claim.Key()].revision == x.from.claim.revision
    ensures var c := x.from.claim;
            ApplyTransitions(Ledger(z.tables.incidents, z.tables.events), c.Key(), c.revision + 1,
              x.evaluation.transitions).Ok?
  {
    hide Inv, FramesUnique, IsWhole, WorkOk, Replays, Told, LedgerTells, ApplyTransitions, OthersKept, Alternating,
      LedgersTell, Conclusions, Concludes, OpenAfter, OpenFrame;
    var c, ev := x.from.claim, x.evaluation;
    HeldIsWhole(engine, z, x);
    var row, prior := z.tables.assignments[c.Key()], Told(z.tables.outbox, c.Key(), c.revision);
    WholeAlternates(engine, z.telemetry, row, Checkpoint(ev.Position(), ev.state), prior + ev.transitions);
    StorySoFar(z.tables, c.Key());
    BatchTells(Ledger(z.tables.incidents, z.tables.events), c.Key(), prior, c.revision + 1, ev.transitions);
  }

  lemma CommitOutcome(t: Tables, c: Claim, ev: Domain.Evaluation, next: Time, now: Time)
    requires ValidCommit(ev, next) && Unfenced(t.assignments, c, now)
    requires t.assignments[c.Key()].authorityFrom == Some(c.authorityFrom) &&
             t.assignments[c.Key()].authorityUntil == Some(c.authorityUntil)
    requires c.authorityFrom <= ev.observedAt < c.authorityUntil &&
             WithinAuthority(ev, c.authorityFrom, c.authorityUntil)
    requires !StaleCursor(t.checkpoints, c.Key(), ev, false) && RevisionKey(c.Key(), c.revision + 1) !in t.checkpoints
    requires ApplyTransitions(Ledger(t.incidents, t.events), c.Key(), c.revision + 1, ev.transitions).Ok?
    ensures Commit(t, c, ev, next, now).reply == Done
  {
    hide StaleCursor, ApplyTransitions, ValidCommit, WithinAuthority;
  }

  lemma CommitReply(engine: Engine, z: State, x: Evaluated, next: Time, now: Time)
    requires SystemInv(engine, z) && x in z.evaluated && !IsZero(next)
    ensures Commit(z.tables, x.from.claim, x.evaluation, next, now).reply ==
              if !Storable(x.evaluation) then Refused(IncompleteEvaluation)
              else if !Unfenced(z.tables.assignments, x.from.claim, now) then Refused(LeaseLost)
              else Done
  {
    hide SystemInv, Inv, Sound, ValidCommit, WithinAuthority, StaleCursor, ApplyTransitions, WriteEvaluation, Storable;
    var c, ev := x.from.claim, x.evaluation;
    SystemTables(engine, z);
    HeldKnown(engine, z, x);
    ClaimAuthority(z.tables, c);
    SoundIsValid(ev, c.authorityFrom, c.authorityUntil, next);
    if Unfenced(z.tables.assignments, c, now) && Storable(ev) {
      NotStale(engine, z, x);
      StoryContinues(engine, z, x);
      SoundWindow(ev, c.authorityFrom, c.authorityUntil);
      CommitOutcome(z.tables, c, ev, next, now);
    }
  }

  /** Worker commits fail only on fences: in every behaviour, the commit of any
      worker's evaluation is incomplete exactly when a sequence cannot be stored,
      loses its lease exactly when the lease, revision or lifecycle fence is gone
      or expired, and succeeds in every other case. */
  lemma CommitsFailOnlyOnFences(
    engine: Engine, zs: seq<State>, acts: seq<Action>, i: nat, x: Evaluated, next: Time, now: Time)
    requires Behaviour(engine, zs, acts) && i < |zs| && x in zs[i].evaluated && !IsZero(next)
    ensures var t, c := zs[i].tables, x.from.claim;
            Commit(t, c, x.evaluation, next, now).reply ==
              if !Storable(x.evaluation) then Refused(IncompleteEvaluation)
              else if !Unfenced(t.assignments, c, now) then Refused(LeaseLost)
              else Done
  {
    hide SystemInv, Act, Commit, Storable, Unfenced;
    BehavioursKeep(engine, zs, acts, i);
    CommitReply(engine, zs[i], x, next, now);
  }

  lemma HeldKnown(engine: Engine, z: State, x: Evaluated)
    requires SystemInv(engine, z) && x in z.evaluated
    ensures var c := x.from.claim;
            c.Key() in z.tables.assignments && ClaimsRow(c, z.tables.assignments[c.Key()]) &&
            Sound(x.evaluation, c.authorityFrom, c.authorityUntil)
  {
    hide Inv, LedgersTell, FramesUnique, Replays, Sound, Resumes, ClaimsRow, Conclusions;
    assert EvaluatedOk(engine, z, x) && ClaimMatches(z.tables.assignments, x.from.claim);
  }

  // The checkpoint of the claimed revision, if there is one.
  function ClaimedCheckpoint(cps: Checkpoints, c: Claim): Option<Checkpoint> {
    if RevisionKey(c.Key(), c.revision) in cps then Some(cps[RevisionKey(c.Key(), c.revision)]) else None
  }

  /** A worker that keeps its lease gets through: whenever its unseen suffix up to
      an end at or past the watermark evaluates to something storable, it can
      restore, evaluate and commit, and the commit adds exactly its revision. */
  lemma UnfencedWorkerSucceeds(engine: Engine, z: State, c: Claim, end: Time, next: Time, now: Time)
    returns (z1: State, z2: State, z3: State)
    requires SystemInv(engine, z) && c in z.claims && Unfenced(z.tables.assignments, c, now) && !IsZero(next)
    requires c.authorityFrom < end <= c.authorityUntil
    requires c.Key() in z.tables.summaries ==> z.tables.summaries[c.Key()].evaluation.observedAt <= end
    requires var r := Assessment(engine, z.telemetry, c, end, ClaimedCheckpoint(z.tables.checkpoints, c));
             r.Ok? && Storable(r.value)
    ensures var cp := ClaimedCheckpoint(z.tables.checkpoints, c);
            var r := Restored(c, end, cp);
            var x := Evaluated(r, Assessment(engine, z.telemetry, c, end, cp).value);
            && Act(engine, z, Restore(r, Expected(c)), z1) && Act(engine, z1, Assess(x, z.telemetry), z2)
            && Act(engine, z2, CommitLive(x, next, now), z3)
            && Advances(z3.tables, c, x.evaluation)
  {
    hide SystemInv, Assessment, Commit, Storable, IsReplayCheckpoint, Unfenced, Act, Advances;
    var cp := ClaimedCheckpoint(z.tables.checkpoints, c);
    var r := Restored(c, end, cp);
    var x := Evaluated(r, Assessment(engine, z.telemetry, c, end, cp).value);
    z1 := z.(restored := z.restored + {r});
    RestoreEnabled(engine, z, c, end, now);
    ActKeeps(engine, z, Restore(r, Expected(c)), z1);
    z2 := z1.(evaluated := z1.evaluated + {x});
    AssessEnabled(engine, z1, x);
    ActKeeps(engine, z1, Assess(x, z1.telemetry), z2);
    z3 := z2.(tables := Commit(z2.tables, c, x.evaluation, next, now).tables);
    CommitAdvances(engine, z2, x, next, now);
  }

  function Expected(c: Claim): Option<nat> { if c.revision == 0 then None else Some(c.revision) }

  // The commit added exactly the claim's next revision.
  ghost predicate Advances(t: Tables, c: Claim, ev: Domain.Evaluation) {
    && c.Key() in t.assignments && t.assignments[c.Key()].revision == c.revision + 1
    && RevisionKey(c.Key(), c.revision + 1) in t.checkpoints
    && t.checkpoints[RevisionKey(c.Key(), c.revision + 1)] == Checkpoint(ev.Position(), ev.state)
  }

  lemma RestoreEnabled(engine: Engine, z: State, c: Claim, end: Time, now: Time)
    requires SystemInv(engine, z) && c in z.claims && Unfenced(z.tables.assignments, c, now)
    requires c.authorityFrom < end <= c.authorityUntil
    requires c.Key() in z.tables.summaries ==> z.tables.summaries[c.Key()].evaluation.observedAt <= end
    ensures var r := Restored(c, end, ClaimedCheckpoint(z.tables.checkpoints, c));
            Act(engine, z, Restore(r, Expected(c)), z.(restored := z.restored + {r}))
  {
    hide SystemInv, Inv, IsReplayCheckpoint, Holds;
    SystemTables(engine, z);
    HeldIsCurrent(z.tables.assignments, c);
    ClaimedIsStored(z.tables, c);
    NewestCheckpointIsClaimed(z.tables, c.Key(), end, Expected(c));
  }

  lemma AssessEnabled(engine: Engine, z: State, x: Evaluated)
    requires x.from in z.restored &&
             Assessment(engine, z.telemetry, x.from.claim, x.from.end, x.from.checkpoint) == Ok(x.evaluation)
    ensures Act(engine, z, Assess(x, z.telemetry), z.(evaluated := z.evaluated + {x}))
  {
    hide Assessment;
  }

  lemma CommitAdvances(engine: Engine, z: State, x: Evaluated, next: Time, now: Time)
    requires SystemInv(engine, z) && x in z.evaluated && Storable(x.evaluation) &&
             Unfenced(z.tables.assignments, x.from.claim, now) && !IsZero(next)
    ensures var t' := Commit(z.tables, x.from.claim, x.evaluation, next, now).tables;
            Act(engine, z, CommitLive(x, next, now), z.(tables := t')) && Advances(t', x.from.claim, x.evaluation)
  {
    hide SystemInv, Commit, Storable, Unfenced, ApplyTransitions;
    CommitReply(engine, z, x, next, now);
    CommitEffect(z.tables, x.from.claim, x.evaluation, next, now);
  }

  lemma HeldIsCurrent(m: Assignments, c: Claim)
    requires Holds(m, c)
    ensures c.Key() in m && IsCurrent(m[c.Key()].lifecycle)
  {
  }

  lemma ClaimedIsStored(t: Tables, c: Claim)
    requires Inv(t) && c.Key() in t.assignments && t.assignments[c.Key()].revision == c.revision
    ensures RevisionKey(c.Key(), c.revision) in t.checkpoints <==> c.revision > 0
  {
    hide Tiled, InOrder, InboxOk, EvidenceTables.LedgerOk, EvidenceTables.RegistryRowsOk, EvidenceTables.CheckpointsIn,
      EvidenceTables.CursorsOrdered, EvidenceTables.RegistryLive, EvidenceTables.RegistryStrict,
        EvidenceTables.SummariesOk;
  }

  lemma SoundWindow(ev: Domain.Evaluation, from: Time, until: Time)
    requires Sound(ev, from, until)
    ensures from <= ev.observedAt < until
  {
  }

  lemma SystemTables(engine: Engine, z: State)
    requires SystemInv(engine, z)
    ensures Inv(z.tables)
  {
  }

  /** With a query end at or past the watermark, the newest checkpoint by cursor of
      a current generation is its newest revision, the one a live claim expects. */
  lemma NewestCheckpointIsClaimed(t: Tables, k: Key, end: Time, found: Option<nat>)
    requires Inv(t) && k in t.assignments && IsCurrent(t.assignments[k].lifecycle)
    requires k in t.summaries ==> t.summaries[k].evaluation.observedAt <= end
    ensures IsReplayCheckpoint(t.checkpoints, k, end, found) <==>
            found == if t.assignments[k].revision == 0 then None else Some(t.assignments[k].revision)
  {
    hide Tiled, InOrder, InboxOk, EvidenceTables.LedgerOk, EvidenceTables.RegistryRowsOk,
      EvidenceTables.SummariesPublished, CursorLess;
    var n, cps := t.assignments[k].revision, t.checkpoints;
    if n > 0 {
      assert RevisionKey(k, n) in cps;
      assert EvidenceTables.SummaryOk(t.assignments, cps, k, t.summaries[k]);
      forall r | r in cps && r.key == k
        ensures CursorAtMost(cps[r].cursor, cps[RevisionKey(k, n)].cursor) &&
                (r.revision < n ==> CursorLess(cps[r].cursor, cps[RevisionKey(k, n)].cursor))
      {
        assert r == RevisionKey(k, r.revision);
        assert Registry(k, r.revision) in t.outbox && Registry(k, n) in t.outbox;
      }
      NewestByCursor(cps, k, n, end, found);
    }
  }

  lemma NewestByCursor(cps: Checkpoints, k: Key, n: nat, end: Time, found: Option<nat>)
    requires RevisionKey(k, n) in cps && cps[RevisionKey(k, n)].cursor.at <= end
    requires forall r :: r in cps && r.key == k ==>
               r.revision <= n && CursorAtMost(cps[r].cursor, cps[RevisionKey(k, n)].cursor)
    requires forall r :: r in cps && r.key == k && r.revision < n ==>
               CursorLess(cps[r].cursor, cps[RevisionKey(k, n)].cursor)
    ensures IsReplayCheckpoint(cps, k, end, found) <==> found == Some(n)
  {
    hide CursorLess;
    if IsReplayCheckpoint(cps, k, end, found) && found.Some? && found.value != n {
      CursorNotBoth(cps[RevisionKey(k, n)].cursor, cps[RevisionKey(k, found.value)].cursor);
    }
  }
}
