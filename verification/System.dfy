/** Workers, store and telemetry together: any number of workers claim, restore,
    read, evaluate and commit, may stop anywhere, and interleave with every other
    store transaction. */
module System {
  import opened Domain
  import opened Evaluator
  import opened Evaluation
  import opened Tables
  import opened Timeline
  import EvidenceTables = Evidence
  import opened Delivery
  import opened Runs
  import Fencing
  import opened Incidents
  import opened Worker
  import opened Replay

  // A worker that restored its checkpoint and is about to read up to `end`.
  datatype Restored = Restored(claim: Claim, end: Time, checkpoint: Option<Checkpoint>)

  // A worker that is about to commit.
  datatype Evaluated = Evaluated(from: Restored, evaluation: Domain.Evaluation)

  /** Work in progress is never withdrawn: a worker that stops is one that takes
      no further step, a slow one may act long after it lost its lease. */
  datatype State = State(
    tables: Tables, telemetry: set<Observation>,
    claims: set<Claim>, restored: set<Restored>, evaluated: set<Evaluated>)

  const START := State(EMPTY, {}, {}, {}, {})

  datatype Action =
    | Transact(step: Step)
    | Restore(restored: Restored, found: Option<nat>)
    | Assess(evaluated: Evaluated, seen: set<Observation>)
    | CommitLive(evaluated: Evaluated, next: Time, now: Time)
    | Ingest(o: Observation)

  // The claims handed out by a claim transaction.
  ghost function Granted(t: Tables, s: Step): set<Claim> {
    if s.ClaimStep? && Perform(t, s).reply == Done then
      set k | k in s.chosen && k in Next(t, s).assignments && HasAuthority(Next(t, s).assignments[k]) &&
      Next(t, s).assignments[k].leaseUntil.Some? ::
        ClaimOf(Next(t, s).assignments[k], s.worker, s.grace)
    else {}
  }

  // Revision n of k was committed live.
  ghost predicate LiveAt(t: Tables, k: Key, n: nat) {
    Registry(k, n) in t.outbox && k in t.assignments && RevisionKey(k, n) in t.checkpoints
  }

  // o belongs to the stream of the claim's row at or before this evaluation.
  predicate Covers(m: Assignments, x: Evaluated, o: Observation) {
    x.from.claim.Key() in m && InStream(m[x.from.claim.Key()], x.evaluation.Position(), o)
  }

  /** o sorts behind a durable cursor of its own stream, or behind an evaluation
      whose worker still holds its lease. */
  ghost predicate SortsBehind(z: State, o: Observation) {
    || (exists k, n :: LiveAt(z.tables, k, n) &&
          InStream(z.tables.assignments[k], z.tables.checkpoints[RevisionKey(k, n)].cursor, o))
    || (exists x :: x in z.evaluated && Holds(z.tables.assignments, x.from.claim) && Covers(z.tables.assignments, x, o))
  }

  /** One step of the whole system. Live commits come from workers only. Telemetry
      may become visible at any time, during and behind reads too, unless it sorts
      behind a cursor that is durable or may yet become so. */
  ghost predicate Act(engine: Engine, z: State, a: Action, z': State) {
    match a
    case Transact(s) =>
      !s.CommitStep? && z' == z.(tables := Next(z.tables, s), claims := z.claims + Granted(z.tables, s))
    case Restore(r, found) =>
      && r.claim in z.claims && r.claim.authorityFrom < r.end <= r.claim.authorityUntil
      && IsReplayCheckpoint(z.tables.checkpoints, r.claim.Key(), r.end, found) && Matches(r.claim, found)
      && r.checkpoint == StoredAt(z.tables.checkpoints, r.claim.Key(), found)
      && z' == z.(restored := z.restored + {r})
    case Assess(x, seen) =>
      && x.from in z.restored && seen <= z.telemetry
      && Assessment(engine, seen, x.from.claim, x.from.end, x.from.checkpoint) == Ok(x.evaluation)
      && (Holds(z.tables.assignments, x.from.claim) ==> MissesOnlyLater(z, x, seen))
      && z' == z.(evaluated := z.evaluated + {x})
    case CommitLive(x, next, now) =>
      x in z.evaluated && z' == z.(tables := Commit(z.tables, x.from.claim, x.evaluation, next, now).tables)
    case Ingest(o) =>
      && (forall p :: p in z.telemetry ==> p.frameId != o.frameId) && !SortsBehind(z, o)
      && z' == z.(telemetry := z.telemetry + {o})
  }

  // What a read did not see sorts after the evaluation it yields.
  ghost predicate MissesOnlyLater(z: State, x: Evaluated, seen: set<Observation>) {
    forall o :: o in z.telemetry && o !in seen ==> !Covers(z.tables.assignments, x, o)
  }

  // ---------- the live story ----------

  // The transitions published with live revisions 1..n.
  ghost function Told(x: Outbox, k: Key, n: nat): seq<Transition> {
    if n == 0 then []
    else
      var more := if Registry(k, n) in x &&
        x[Registry(k, n)].payload.EvaluationPayload? then x[Registry(k, n)].payload.evaluation.transitions else [];
      Told(x, k, n - 1) + more
  }

  // The live revisions of every generation are evaluations of the whole stream.
  ghost predicate Replays(engine: Engine, t: Tables, telemetry: set<Observation>) {
    forall k, n :: LiveAt(t, k, n) ==>
      IsWhole(engine, telemetry, t.assignments[k], t.checkpoints[RevisionKey(k, n)], Told(t.outbox, k, n))
  }

  // What was published with a live revision is the conclusion of the whole stream.
  ghost predicate Conclusions(engine: Engine, t: Tables, telemetry: set<Observation>) {
    forall k, n :: LiveAt(t, k, n) && t.outbox[Registry(k, n)].payload.EvaluationPayload? ==>
      Concludes(engine, telemetry, t.assignments[k], t.outbox[Registry(k, n)].payload.evaluation)
  }

  // No reconciliation has been written over the live revisions of k.
  ghost predicate Unamended(t: Tables, k: Key) {
    k in t.assignments && (t.assignments[k].revision == 0 || Registry(k, t.assignments[k].revision) in t.outbox)
  }

  ghost predicate LedgersTell(t: Tables) {
    forall k :: Unamended(t, k) ==>
        LedgerTells(Ledger(t.incidents, t.events), k, Told(t.outbox, k, t.assignments[k].revision))
  }

  // A claim was read from its row, whose specification and authority start do not move.
  predicate ClaimMatches(m: Assignments, c: Claim) {
    c.Key() in m && ClaimsRow(c, m[c.Key()]) && c.revision <= m[c.Key()].revision &&
    c.leaseGeneration <= m[c.Key()].leaseGeneration
  }

  // The claimed revision was written live.
  predicate LiveRevision(x: Outbox, c: Claim) { c.revision == 0 || Registry(c.Key(), c.revision) in x }

  predicate RestoredMatches(cps: Checkpoints, r: Restored) {
    if r.claim.revision == 0 then r.checkpoint.None?
    else
      var rk := RevisionKey(r.claim.Key(), r.claim.revision);
      rk in cps && r.checkpoint == Some(cps[rk])
  }

  ghost predicate WorkOk(engine: Engine, z: State) {
    && (forall c :: c in z.claims ==> ClaimMatches(z.tables.assignments, c) && LiveRevision(z.tables.outbox, c))
    && (forall r :: r in z.restored ==> r.claim in z.claims && RestoredMatches(z.tables.checkpoints, r))
    && (forall x :: x in z.evaluated ==> x.from in z.restored && EvaluatedOk(engine, z, x))
  }

  /** What is known of an evaluation in a worker's hands: always sound and after
      its checkpoint, and the judgement of its whole suffix while the lease is held. */
  ghost predicate EvaluatedOk(engine: Engine, z: State, x: Evaluated) {
    var c, cp := x.from.claim, x.from.checkpoint;
    && Sound(x.evaluation, c.authorityFrom, c.authorityUntil)
    && (cp.Some? ==> CursorLess(cp.value.cursor, x.evaluation.Position()))
    && (Holds(z.tables.assignments, c) ==> Resumes(engine, z.telemetry, c, cp, x.evaluation))
  }

  ghost predicate SystemInv(engine: Engine, z: State) {
    Inv(z.tables) && FramesUnique(z.telemetry) && WorkOk(engine, z) &&
    Replays(engine, z.tables, z.telemetry) && Conclusions(engine, z.tables, z.telemetry) && LedgersTell(z.tables)
  }

  // ---------- new telemetry ----------

  lemma IngestKeepsResumes(engine: Engine, z: State, o: Observation, x: Evaluated)
    requires WorkOk(engine, z) && x in z.evaluated && Holds(z.tables.assignments, x.from.claim) && !SortsBehind(z, o)
    ensures Resumes(engine, z.telemetry + {o}, x.from.claim, x.from.checkpoint, x.evaluation)
  {
    hide Resumes, InStream, Sound, RestoredMatches;
    assert EvaluatedOk(engine, z, x) && ClaimMatches(z.tables.assignments, x.from.claim);
    assert !Covers(z.tables.assignments, x, o);
    MissedAfter(engine, z.telemetry, z.telemetry + {o}, z.tables.assignments[x.from.claim.Key()], x.from.claim,
      x.from.checkpoint, x.evaluation);
  }

  lemma IngestKeepsWhole(
    engine: Engine, telemetry: set<Observation>, o: Observation, row: AssignmentRow, cp: Checkpoint,
      trs: seq<Transition>)
    requires IsWhole(engine, telemetry, row, cp, trs) && !InStream(row, cp.cursor, o)
    ensures IsWhole(engine, telemetry + {o}, row, cp, trs)
  {
    hide JudgeAll, Timewise, InStream;
    StreamMissed(telemetry, telemetry + {o}, row, cp.cursor);
  }

  lemma IngestKeepsConclusion(
    engine: Engine, telemetry: set<Observation>, o: Observation, row: AssignmentRow, ev: Domain.Evaluation)
    requires Concludes(engine, telemetry, row, ev) && !InStream(row, ev.Position(), o)
    ensures Concludes(engine, telemetry + {o}, row, ev)
  {
    hide JudgeAll, Timewise, InStream;
    StreamMissed(telemetry, telemetry + {o}, row, ev.Position());
  }

  lemma IngestKeepsConclusions(engine: Engine, z: State, o: Observation)
    requires Inv(z.tables) && Conclusions(engine, z.tables, z.telemetry) && !SortsBehind(z, o)
    ensures Conclusions(engine, z.tables, z.telemetry + {o})
  {
    hide Inv, Concludes, InStream, Holds, Covers;
    var t := z.tables;
    forall k, n | LiveAt(t, k, n) && t.outbox[Registry(k, n)].payload.EvaluationPayload?
      ensures Concludes(engine, z.telemetry + {o}, t.assignments[k], t.outbox[Registry(k, n)].payload.evaluation)
    {
      RegistryKey(t, k, n);
      IngestKeepsConclusion(engine, z.telemetry, o, t.assignments[k], t.outbox[Registry(k, n)].payload.evaluation);
    }
  }

  lemma IngestKeeps(engine: Engine, z: State, o: Observation)
    requires SystemInv(engine, z)
    requires (forall p :: p in z.telemetry ==> p.frameId != o.frameId) && !SortsBehind(z, o)
    ensures SystemInv(engine, z.(telemetry := z.telemetry + {o}))
  {
    hide Inv, LedgersTell, ClaimMatches, RestoredMatches, Resumes, IsWhole, InStream, Told, Sound, Holds, Conclusions;
    IngestKeepsConclusions(engine, z, o);
    var t, telemetry := z.tables, z.telemetry + {o};
    forall x | x in z.evaluated && Holds(t.assignments, x.from.claim)
      ensures Resumes(engine, telemetry, x.from.claim, x.from.checkpoint, x.evaluation)
    {
      IngestKeepsResumes(engine, z, o, x);
    }
    forall k, n | LiveAt(t, k, n)
      ensures IsWhole(engine, telemetry, t.assignments[k], t.checkpoints[RevisionKey(k, n)], Told(t.outbox, k, n))
    {
      IngestKeepsWhole(engine, z.telemetry, o, t.assignments[k], t.checkpoints[RevisionKey(k, n)],
        Told(t.outbox, k, n));
    }
  }

  // ---------- restoring and reading ----------

  lemma RestoreKeeps(engine: Engine, z: State, r: Restored, found: Option<nat>, z': State)
    requires SystemInv(engine, z) && Act(engine, z, Restore(r, found), z')
    ensures SystemInv(engine, z')
  {
    hide Inv, LedgersTell, ClaimMatches, Replays, FramesUnique, Sound, Resumes, Holds, Conclusions;
    assert RestoredMatches(z.tables.checkpoints, r);
  }

  // Every worker restored the whole story up to its claimed revision.
  lemma RestoredTells(engine: Engine, z: State, r: Restored)
    requires SystemInv(engine, z) && r in z.restored
    ensures var c := r.claim;
            && c.Key() in z.tables.assignments && ClaimsRow(c, z.tables.assignments[c.Key()])
            && Restores(engine, z.telemetry, z.tables.assignments[c.Key()], r.checkpoint,
              Told(z.tables.outbox, c.Key(), c.revision))
  {
    hide Inv, LedgersTell, FramesUnique, IsWhole, EvaluatedOk, Conclusions;
    var c := r.claim;
    assert ClaimMatches(z.tables.assignments, c) && LiveRevision(z.tables.outbox, c);
    assert RestoredMatches(z.tables.checkpoints, r);
    assert c.revision > 0 ==> LiveAt(z.tables, c.Key(), c.revision);
  }

  lemma AssessOk(engine: Engine, z: State, x: Evaluated, seen: set<Observation>, z': State)
    requires SystemInv(engine, z) && Act(engine, z, Assess(x, seen), z')
    ensures EvaluatedOk(engine, z, x)
  {
    hide Inv, LedgersTell, ClaimMatches, RestoredMatches, Assessment, Replays, WorkOk, Restores, Resumes, Sound,
      InStream,
      Told, CursorLess, FramesUnique;
    var c, cp, ev := x.from.claim, x.from.checkpoint, x.evaluation;
    RestoredTells(engine, z, x.from);
    var row, trs := z.tables.assignments[c.Key()], Told(z.tables.outbox, c.Key(), c.revision);
    ReadSound(engine, seen, z.telemetry, row, c, x.from.end, cp, trs, ev);
    StreamFrames(seen, z.telemetry);
    AssessmentResumes(engine, seen, c, x.from.end, cp, ev);
    if Holds(z.tables.assignments, c) {
      forall o | o in z.telemetry && o !in seen ensures !InStream(row, ev.Position(), o) {
        assert !Covers(z.tables.assignments, x, o);
      }
      MissedAfter(engine, seen, z.telemetry, row, c, cp, ev);
    }
  }

  lemma AssessKeeps(engine: Engine, z: State, x: Evaluated, seen: set<Observation>, z': State)
    requires SystemInv(engine, z) && Act(engine, z, Assess(x, seen), z')
    ensures SystemInv(engine, z')
  {
    hide Inv, LedgersTell, ClaimMatches, RestoredMatches, Assessment, FramesUnique, Replays, Sound, Resumes, Holds,
      MissesOnlyLater;
    AssessOk(engine, z, x, seen, z');
  }

  // ---------- store transactions other than live commits ----------

  // Registry rows, incidents, events and revisions are untouched.
  ghost predicate Quiet(t: Tables, t': Tables) {
    && EvidenceTables.KeepsRegistry(t.outbox, t'.outbox) && t'.incidents == t.incidents && t'.events == t.events
    && (forall k :: k in t'.assignments ==>
         t'.assignments[k].revision == if k in t.assignments then t.assignments[k].revision else 0)
  }

  lemma NotifyQuiet(t: Tables, m': Assignments, o: OutboxId, m: MessageId, e: Envelope, now: Time)
    requires !o.Registry?
    requires forall k :: k in m' ==> m'[k].revision == if k in t.assignments then t.assignments[k].revision else 0
    ensures Quiet(t, Committed(t, Notify(t.(assignments := m'), o, m, e, now)).tables)
  {
    hide EvidenceTables.KeepsRegistry;
    RegistryReflexive(t.outbox);
    if o !in t.outbox { InsertKeepsRegistry(t.outbox, o, QueuedRow(CommandPayload(e), now)); }
  }

  lemma InsertKeepsRegistry(x: Outbox, o: OutboxId, r: OutboxRow)
    requires !o.Registry? && o !in x
    ensures EvidenceTables.KeepsRegistry(x, x[o := r])
  {
  }

  lemma QuietRefl(t: Tables)
    ensures Quiet(t, t)
  {
  }

  lemma PrepareQuiet(t: Tables, m: MessageId, mt: string, a: Assignment, now: Time)
    ensures Quiet(t, Prepare(t, m, mt, a, now).tables)
  {
    hide Latest, ValidPrepare, Notify, Committed, Generations, Quiet;
    QuietRefl(t);
    var e, l := PrepareEnvelope(mt, a), Latest(t.assignments, a.id);
    RecordQuiet(t, m, e, Stale);
    RecordQuiet(t, m, e, Idempotent);
    if l.None? || l.value.gen < a.generation {
      AboveAll(t.assignments, a);
      NotifyQuiet(t, SupersedeCandidates(t.assignments, a.id)[KeyOf(a) := NewRow(a, now)], Receipt(m), m, e, now);
    }
  }

  lemma RecordQuiet(t: Tables, m: MessageId, e: Envelope, d: Disposition)
    ensures Quiet(t, Record(t, m, e, d))
  {
  }

  lemma CandidateQuiet(t: Tables, m: MessageId, c: CandidateCommand, id: string, gen: nat, now: Time)
    ensures Quiet(t, TransitionCandidate(t, m, c, id, gen, now).tables)
  {
    hide IsLatest, ValidCommand, CommandType, Notify, Committed, Quiet;
    QuietRefl(t);
    var k, e := Key(id, gen), CommandEnvelope(CommandType(c), id, gen, None);
    if k in t.assignments {
      NotifyQuiet(t, t.assignments[k := t.assignments[k].(lifecycle := CandidateArmed)], Notice(m), m, e, now);
      NotifyQuiet(t, t.assignments[k := Unleased(t.assignments[k]).(lifecycle := Cancelled)], Notice(m), m, e, now);
    }
  }

  lemma CutoverQuiet(t: Tables, m: MessageId, id: string, gen: nat, at: Time, now: Time)
    ensures Quiet(t, Cutover(t, m, id, gen, at, now).tables)
  {
    hide CurrentOf, ValidCommand, Supported, Notify, Committed, Quiet;
    QuietRefl(t);
    var k, e := Key(id, gen), CutoverEnvelope(id, gen, at);
    var current := CurrentOf(t.assignments, id);
    if k in t.assignments && current.None? {
      NotifyQuiet(t, t.assignments[k := Activated(t.assignments[k], at, now)], Notice(m), m, e, now);
    } else if k in t.assignments {
      CurrentOfIs(t.assignments, id);
      var c := current.value;
      var rows := t.assignments[c := Closed(t.assignments[c], at)][k := Activated(t.assignments[k], at, now)];
      NotifyQuiet(t, rows, Notice(m), m, e, now);
    }
  }

  lemma LeasesQuiet(t: Tables, m': Assignments)
    requires m'.Keys == t.assignments.Keys && forall k :: k in m' ==> m'[k].revision == t.assignments[k].revision
    ensures Quiet(t, t.(assignments := m'))
  {
    hide EvidenceTables.KeepsRegistry;
    RegistryReflexive(t.outbox);
  }

  lemma ClaimQuiet(t: Tables, worker: string, lease: int, grace: int, limit: int, now: Time, chosen: set<Key>)
    ensures Quiet(t, ClaimDue(t, worker, lease, grace, limit, now, chosen).tables)
  {
    hide ValidClaim, Quiet;
    QuietRefl(t);
    if ValidClaim(t.assignments, worker, lease, grace, limit, now, chosen) {
      LeasesQuiet(t, ClaimDue(t, worker, lease, grace, limit, now, chosen).tables.assignments);
    }
  }

  lemma RenewQuiet(t: Tables, c: Claim, extension: int, now: Time)
    ensures Quiet(t, Renew(t, c, extension, now).tables)
  {
    hide Quiet, WithinGrace, Unexpired, Holds;
    QuietRefl(t);
    HeldRow(t.assignments, c);
    if Renew(t, c, extension, now).reply == Done {
      LeasesQuiet(t, Renew(t, c, extension, now).tables.assignments);
    }
  }

  lemma DeferQuiet(t: Tables, c: Claim, next: Time, now: Time)
    ensures Quiet(t, Defer(t, c, next, now).tables)
  {
    hide Quiet, WithinGrace, Unexpired, Holds;
    QuietRefl(t);
    HeldRow(t.assignments, c);
    if Defer(t, c, next, now).reply == Done {
      LeasesQuiet(t, Defer(t, c, next, now).tables.assignments);
    }
  }

  lemma OutboxQuiet(t: Tables, x': Outbox)
    requires EvidenceTables.KeepsRegistry(t.outbox, x')
    ensures Quiet(t, t.(outbox := x'))
  {
    hide EvidenceTables.KeepsRegistry;
  }

  lemma OutboxClaimQuiet(t: Tables, d: Destination, w: string, lease: int, limit: int, now: Time, chosen: set<OutboxId>)
    requires InOrder(t.outbox)
    ensures Quiet(t, ClaimOutbox(t, d, w, lease, limit, now, chosen).tables)
  {
    hide ValidOutboxClaim, InOrder, OutboxAdvances, EvidenceTables.KeepsRegistry, Quiet;
    QuietRefl(t);
    ClaimKeepsOrder(t, d, w, lease, limit, now, chosen);
    OutboxQuiet(t, ClaimOutbox(t, d, w, lease, limit, now, chosen).tables.outbox);
  }

  lemma DeliveredQuiet(t: Tables, c: OutboxClaim, now: Time)
    requires InOrder(t.outbox)
    ensures Quiet(t, MarkDelivered(t, c, now).tables)
  {
    hide InOrder, OutboxAdvances, EvidenceTables.KeepsRegistry, Quiet;
    QuietRefl(t);
    DeliverKeepsOrder(t, c, now);
    OutboxQuiet(t, MarkDelivered(t, c, now).tables.outbox);
  }

  lemma RetryQuiet(t: Tables, c: OutboxClaim, delay: int, failed: bool, now: Time)
    requires InOrder(t.outbox)
    ensures Quiet(t, Retry(t, c, delay, failed, now).tables)
  {
    hide InOrder, OutboxAdvances, EvidenceTables.KeepsRegistry, Quiet;
    QuietRefl(t);
    RetryKeepsOrder(t, c, delay, failed, now);
    OutboxQuiet(t, Retry(t, c, delay, failed, now).tables.outbox);
  }

  lemma StepQuiet(t: Tables, s: Step)
    requires InOrder(t.outbox) && !s.CommitStep? && !s.HistoricalStep?
    ensures Quiet(t, Next(t, s))
  {
    hide Prepare, TransitionCandidate, Cutover, ClaimDue, Renew, Defer, ClaimOutbox, MarkDelivered, Retry, Quiet,
      InOrder;
    match s
    case PrepareStep(m, mt, a, now) => PrepareQuiet(t, m, mt, a, now);
    case CandidateStep(m, c, id, gen, now) => CandidateQuiet(t, m, c, id, gen, now);
    case CutoverStep(m, id, gen, at, now) => CutoverQuiet(t, m, id, gen, at, now);
    case ClaimStep(w, lease, grace, limit, now, chosen) => ClaimQuiet(t, w, lease, grace, limit, now, chosen);
    case RenewStep(c, ext, now) => RenewQuiet(t, c, ext, now);
    case DeferStep(c, next, now) => DeferQuiet(t, c, next, now);
    case OutboxClaimStep(d, w, lease, limit, now, chosen) => OutboxClaimQuiet(t, d, w, lease, limit, now, chosen);
    case DeliveredStep(c, now) => DeliveredQuiet(t, c, now);
    case RetryStep(c, delay, failed, now) => RetryQuiet(t, c, delay, failed, now);
  }

  // ---------- a reconciliation touches only its own superseded generation ----------

  lemma {:induction false} BatchOthers(x: Ledger, k: Key, revision: nat, trs: seq<Transition>)
    requires ApplyTransitions(x, k, revision, trs).Ok?
    ensures OthersKept(x, ApplyTransitions(x, k, revision, trs).value, k)
  {
    hide OthersKept, ApplyTransition;
    if trs == [] {
      OthersKeptRefl(x, k);
    } else {
      var y := ApplyTransitions(x, k, revision, trs[..|trs| - 1]).value;
      BatchOthers(x, k, revision, trs[..|trs| - 1]);
      ApplyOthers(y, k, revision, trs[|trs| - 1]);
      OthersKeptTrans(x, y, ApplyTransition(y, k, revision, trs[|trs| - 1]).value, k);
    }
  }

  // Only generation h gains a revision, and it is not published.
  ghost predicate Amends(t: Tables, t': Tables, h: Key) {
    && t'.outbox == t.outbox && t'.assignments.Keys == t.assignments.Keys && h in t.assignments
    && t'.assignments[h].revision == t.assignments[h].revision + 1
    && (forall k :: k in t.assignments && k != h ==> t'.assignments[k].revision == t.assignments[k].revision)
    && OthersKept(Ledger(t.incidents, t.events), Ledger(t'.incidents, t'.events), h)
  }

  lemma WriteAmends(t: Tables, m': Assignments, h: Key, revision: nat, ev: Domain.Evaluation, now: Time)
    requires WriteEvaluation(t.(assignments := m'), h, revision, ev, true, false, now).Ok?
    ensures var t' := WriteEvaluation(t.(assignments := m'), h, revision, ev, true, false, now).value;
            t'.outbox == t.outbox && t'.assignments == m' &&
            OthersKept(Ledger(t.incidents, t.events), Ledger(t'.incidents, t'.events), h)
  {
    hide StaleCursor, ApplyTransitions, OthersKept;
    BatchOthers(Ledger(t.incidents, t.events), h, revision, ev.transitions);
  }

  lemma HistoricalAmends(t: Tables, s: Step)
    requires s.HistoricalStep?
    ensures Next(t, s) == t || Amends(t, Next(t, s), Key(s.claim.assignment.id, s.target))
  {
    hide WriteEvaluation, ValidCommit, WithinAuthority, OthersKept;
    if Perform(t, s).reply == Done {
      var h := Key(s.claim.assignment.id, s.target);
      var m := t.assignments[s.claim.Key() := Consumed(t.assignments[s.claim.Key()], s.next)];
      WriteAmends(t, m[h := Advanced(m[h])], h, Advanced(m[h]).revision, s.evaluation, s.now);
    }
  }

  // ---------- what stays of the live story ----------

  lemma {:induction false} ToldSame(x: Outbox, x': Outbox, k: Key, n: nat)
    requires EvidenceTables.KeepsRegistry(x, x')
    ensures Told(x', k, n) == Told(x, k, n)
  {
    if n > 0 {
      ToldSame(x, x', k, n - 1);
      assert EvidenceTables.IsRegistry(Registry(k, n));
    }
  }

  // The story does not depend on lease, lifecycle or the end of authority.
  lemma WholeSame(
    engine: Engine, telemetry: set<Observation>, r: AssignmentRow, r': AssignmentRow, cp: Checkpoint,
    trs: seq<Transition>)
    requires IsWhole(engine, telemetry, r, cp, trs) && r'.spec == r.spec && r'.authorityFrom == r.authorityFrom
    ensures IsWhole(engine, telemetry, r', cp, trs)
  {
    hide JudgeAll, Timewise, Trim, CursorLess;
    assert Stream(telemetry, r', cp.cursor) == Stream(telemetry, r, cp.cursor);
  }

  lemma RegistryKey(t: Tables, k: Key, n: nat)
    requires Inv(t) && Registry(k, n) in t.outbox
    ensures k in t.assignments && t.assignments[k].authorityFrom.Some? && RevisionKey(k, n) in t.checkpoints &&
            1 <= n <= t.assignments[k].revision
    ensures var p := t.outbox[Registry(k, n)].payload;
            p.EvaluationPayload? && p.evaluation.Position() == t.checkpoints[RevisionKey(k, n)].cursor &&
            p.evaluation.recording == Confirmed
  {
    hide Tiled, InOrder, InboxOk, EvidenceTables.LedgerOk, EvidenceTables.CheckpointsIn, EvidenceTables.CursorsOrdered,
      EvidenceTables.RegistryLive, EvidenceTables.RegistryStrict, EvidenceTables.SummariesOk;
    var w := EvidenceTables.SpansOf(t.assignments, t.summaries);
    assert EvidenceTables.IsRegistry(Registry(k, n));
    assert EvidenceTables.RegistryRowOk(w, t.checkpoints, Registry(k, n), t.outbox[Registry(k, n)]);
  }

  lemma ConcludesSame(
    engine: Engine, telemetry: set<Observation>, r: AssignmentRow, r': AssignmentRow, ev: Domain.Evaluation)
    requires Concludes(engine, telemetry, r, ev) && r'.spec == r.spec && r'.authorityFrom == r.authorityFrom
    ensures Concludes(engine, telemetry, r', ev)
  {
    hide JudgeAll, Timewise, Trim, CursorLess;
    assert Stream(telemetry, r', ev.Position()) == Stream(telemetry, r, ev.Position());
  }

  lemma ConclusionsKept(engine: Engine, t: Tables, t': Tables, telemetry: set<Observation>)
    requires Inv(t) && Conclusions(engine, t, telemetry) && Monotone(t, t')
    requires EvidenceTables.KeepsRegistry(t.outbox, t'.outbox)
    ensures Conclusions(engine, t', telemetry)
  {
    hide Inv, Concludes, Delivered, EvidenceTables.EventsKept;
    forall k, n | LiveAt(t', k, n) && t'.outbox[Registry(k, n)].payload.EvaluationPayload?
      ensures Concludes(engine, telemetry, t'.assignments[k], t'.outbox[Registry(k, n)].payload.evaluation)
    {
      assert EvidenceTables.IsRegistry(Registry(k, n));
      RegistryKey(t, k, n);
      assert LiveAt(t, k, n);
      var ev := t.outbox[Registry(k, n)].payload.evaluation;
      ConcludesSame(engine, telemetry, t.assignments[k], t'.assignments[k], ev);
    }
  }

  lemma ReplaysKept(engine: Engine, t: Tables, t': Tables, telemetry: set<Observation>)
    requires Inv(t) && Replays(engine, t, telemetry) && Monotone(t, t')
    requires EvidenceTables.KeepsRegistry(t.outbox, t'.outbox)
    ensures Replays(engine, t', telemetry)
  {
    hide Inv, IsWhole, Told, Delivered, EvidenceTables.EventsKept;
    forall k, n | LiveAt(t', k, n)
      ensures IsWhole(engine, telemetry, t'.assignments[k], t'.checkpoints[RevisionKey(k, n)], Told(t'.outbox, k, n))
    {
      assert EvidenceTables.IsRegistry(Registry(k, n));
      RegistryKey(t, k, n);
      assert LiveAt(t, k, n);
      ToldSame(t.outbox, t'.outbox, k, n);
      WholeSame(engine, telemetry, t.assignments[k], t'.assignments[k], t.checkpoints[RevisionKey(k, n)],
        Told(t.outbox, k, n));
    }
  }

  // A generation without revisions has no incidents and no events.
  lemma NothingYet(t: Tables, k: Key)
    requires Inv(t) && (k !in t.assignments || t.assignments[k].revision == 0)
    ensures LedgerTells(Ledger(t.incidents, t.events), k, [])
  {
    hide Tiled, InOrder, InboxOk, EvidenceTables.RegistryRowsOk, EvidenceTables.CheckpointsIn,
      EvidenceTables.CursorsOrdered,
      EvidenceTables.RegistryLive, EvidenceTables.RegistryStrict, EvidenceTables.RevisionsOk;
    var w, x := EvidenceTables.SpansOf(t.assignments, t.summaries), Ledger(t.incidents, t.events);
    assert k in t.summaries ==> EvidenceTables.SummaryOk(t.assignments, t.checkpoints, k, t.summaries[k]);
    forall i | i in t.incidents ensures i.key != k { assert EvidenceTables.IncidentOk(w, x, i, t.incidents[i]); }
    forall e | e in t.events ensures e.key != k { assert EvidenceTables.EventOk(w, x, e, t.events[e]); }
  }

  lemma QuietLedgers(t: Tables, t': Tables)
    requires Inv(t) && Inv(t') && LedgersTell(t) && Quiet(t, t')
    ensures LedgersTell(t')
  {
    hide Inv, LedgerTells, Told;
    forall k | Unamended(t', k)
      ensures LedgerTells(Ledger(t'.incidents, t'.events), k, Told(t'.outbox, k, t'.assignments[k].revision))
    {
      var n := t'.assignments[k].revision;
      if n == 0 {
        NothingYet(t', k);
        ToldNothing(t'.outbox, k);
      } else {
        assert EvidenceTables.IsRegistry(Registry(k, n));
        assert Unamended(t, k);
        ToldSame(t.outbox, t'.outbox, k, n);
      }
    }
  }

  lemma ToldNothing(x: Outbox, k: Key)
    ensures Told(x, k, 0) == []
  {
  }

  lemma OthersTell(x: Ledger, y: Ledger, h: Key, k: Key, trs: seq<Transition>)
    requires OthersKept(x, y, h) && k != h && LedgerTells(x, k, trs)
    ensures LedgerTells(y, k, trs)
  {
    hide OpenAfter;
    forall i, j | OpenedBy(trs, k, i, j) ensures i in y.incidents && y.incidents[i].openedAt == trs[j].observedAt
    {
      assert i.key == k;
    }
    forall e, j | ReportedBy(trs, k, e, j) ensures e in y.events && y.events[e].transition == trs[j] {
      assert e.key == k;
    }
  }

  lemma AmendedLedgers(t: Tables, t': Tables, h: Key)
    requires Inv(t) && LedgersTell(t) && Amends(t, t', h)
    ensures LedgersTell(t')
  {
    hide Inv, LedgerTells, Told, OthersKept;
    forall k | Unamended(t', k)
      ensures LedgerTells(Ledger(t'.incidents, t'.events), k, Told(t'.outbox, k, t'.assignments[k].revision))
    {
      assert k != h by {
        if Registry(h, t.assignments[h].revision + 1) in t.outbox { RegistryKey(t, h, t.assignments[h].revision + 1); }
      }
      assert Unamended(t, k);
      OthersTell(Ledger(t.incidents, t.events), Ledger(t'.incidents, t'.events), h, k,
        Told(t.outbox, k, t.assignments[k].revision));
    }
  }

  // ---------- claims ----------

  lemma ClaimStillMatches(m: Assignments, m': Assignments, c: Claim)
    requires ClaimMatches(m, c) && c.Key() in m' && RowAdvances(m[c.Key()], m'[c.Key()])
    ensures ClaimMatches(m', c)
  {
  }

  lemma GrantedMatch(t: Tables, s: Step, c: Claim)
    requires Inv(t) && c in Granted(t, s)
    ensures ClaimMatches(Next(t, s).assignments, c) && LiveRevision(Next(t, s).outbox, c)
  {
    hide EvidenceTables.Recorded, InOrder, InboxOk, OneCurrent, CandidateHighest, Ordered, Chained, CurrentLast;
    var m := Next(t, s).assignments;
    var k :| k in s.chosen && k in m && HasAuthority(m[k]) && m[k].leaseUntil.Some? &&
      c == ClaimOf(m[k], s.worker, s.grace);
    assert RowOk(k, t.assignments[k]);
    assert Due(t.assignments[k], s.grace, s.now);
    LiveProjected(t, k);
  }

  lemma WorkKept(engine: Engine, z: State, t': Tables, claims: set<Claim>)
    requires WorkOk(engine, z) && Monotone(z.tables, t') && z.claims <= claims
    requires forall c :: c in z.claims && Holds(t'.assignments, c) ==> Holds(z.tables.assignments, c)
    requires forall c :: c in claims && c !in z.claims ==> ClaimMatches(t'.assignments, c) && LiveRevision(t'.outbox, c)
    ensures WorkOk(engine, z.(tables := t', claims := claims))
  {
    hide Resumes, Sound, Holds, Delivered, EvidenceTables.EventsKept, RowAdvances, ClaimMatches;
    forall c | c in claims ensures ClaimMatches(t'.assignments, c) {
      if c in z.claims {
        ClaimHasRow(z.tables.assignments, c);
        ClaimStillMatches(z.tables.assignments, t'.assignments, c);
      }
    }
  }

  /** A lease that is lost is lost for good. */
  lemma LostForGood(t: Tables, s: Step, c: Claim)
    requires Inv(t) && ClaimMatches(t.assignments, c) && Holds(Next(t, s).assignments, c)
    ensures Holds(t.assignments, c)
  {
    hide Inv, Next;
    if !Holds(t.assignments, c) {
      LostIsFenced(t, c);
      Fencing.FenceHolds(t, s, c);
    }
  }

  lemma LostIsFenced(t: Tables, c: Claim)
    requires Inv(t) && ClaimMatches(t.assignments, c) && !Holds(t.assignments, c)
    ensures Fencing.Fenced(t.assignments, c)
  {
    hide EvidenceTables.Recorded, InOrder, InboxOk, OneCurrent, CandidateHighest, Ordered, Chained, CurrentLast;
    assert RowOk(c.Key(), t.assignments[c.Key()]);
  }

  lemma ClaimHasRow(m: Assignments, c: Claim)
    requires ClaimMatches(m, c)
    ensures c.Key() in m
  {
  }

  lemma TransactKeeps(engine: Engine, z: State, s: Step, z': State)
    requires SystemInv(engine, z) && Act(engine, z, Transact(s), z')
    ensures SystemInv(engine, z')
  {
    hide Inv, Monotone, FramesUnique, WorkOk, Replays, LedgersTell, Next, Granted, Quiet, Amends, Holds, Conclusions;
    var t, t' := z.tables, Next(z.tables, s);
    NextKeeps(t, s);
    forall c | c in Granted(t, s) ensures ClaimMatches(t'.assignments, c) && LiveRevision(t'.outbox, c)
    {
      GrantedMatch(t, s, c);
    }
    forall c | c in z.claims && Holds(t'.assignments, c) ensures Holds(t.assignments, c) { StillHeld(engine, z, s, c); }
    WorkKept(engine, z, t', z.claims + Granted(t, s));
    ApplyInv(t);
    if s.HistoricalStep? {
      HistoricalAmends(t, s);
      if t' != t {
        var h := Key(s.claim.assignment.id, s.target);
        AmendsKeepsRegistry(t, t', h);
        AmendedLedgers(t, t', h);
      } else {
        RegistryReflexive(t.outbox);
      }
    } else {
      StepQuiet(t, s);
      QuietKeepsRegistry(t, t');
      QuietLedgers(t, t');
    }
    ReplaysKept(engine, t, t', z.telemetry);
    ConclusionsKept(engine, t, t', z.telemetry);
  }

  lemma StillHeld(engine: Engine, z: State, s: Step, c: Claim)
    requires SystemInv(engine, z) && c in z.claims && Holds(Next(z.tables, s).assignments, c)
    ensures Holds(z.tables.assignments, c)
  {
    hide Inv, Next, Holds, Replays, LedgersTell, FramesUnique, EvaluatedOk, Conclusions;
    LostForGood(z.tables, s, c);
  }

  lemma RegistryReflexive(x: Outbox)
    ensures EvidenceTables.KeepsRegistry(x, x)
  {
  }

  lemma AmendsKeepsRegistry(t: Tables, t': Tables, h: Key)
    requires Amends(t, t', h)
    ensures EvidenceTables.KeepsRegistry(t.outbox, t'.outbox)
  {
  }

  lemma QuietKeepsRegistry(t: Tables, t': Tables)
    requires Quiet(t, t')
    ensures EvidenceTables.KeepsRegistry(t.outbox, t'.outbox)
  {
  }

  // ---------- live commits ----------

  /** What a successful live commit writes. */
  ghost predicate Committing(t: Tables, t': Tables, c: Claim, ev: Domain.Evaluation, now: Time) {
    var k := c.Key();
    && k in t.assignments && k in t'.assignments && Holds(t.assignments, c) && t.assignments[k].revision == c.revision
    && var n := c.revision + 1;
    && t'.assignments[k].revision == n && t'.assignments.Keys == t.assignments.Keys
    && (forall j :: j in t.assignments && j != k ==> t'.assignments[j] == t.assignments[j])
    && t'.checkpoints == t.checkpoints[RevisionKey(k, n) := Checkpoint(ev.Position(), ev.state)]
    && t'.summaries == t.summaries[k := Summary(n, ev.(recording := Confirmed))]
    && t'.outbox == EvidenceTables.Projected(t.outbox, k, n, ev.(recording := Confirmed), true, now)
    && ApplyTransitions(Ledger(t.incidents, t.events), k, n, ev.transitions) == Ok(Ledger(t'.incidents, t'.events))
  }

  lemma CommitEffect(t: Tables, c: Claim, ev: Domain.Evaluation, next: Time, now: Time)
    ensures var o := Commit(t, c, ev, next, now);
            if o.reply == Done then Committing(t, o.tables, c, ev, now) else o.tables == t
  {
    hide StaleCursor, ApplyTransitions, ValidCommit, WithinAuthority;
  }

  lemma {:induction false} ToldExtends(x: Outbox, k: Key, n: nat, ev: Domain.Evaluation, now: Time, j: Key, m: nat)
    requires Registry(k, n) !in x && (j == k ==> m < n)
    ensures Told(EvidenceTables.Projected(x, k, n, ev, true, now), j, m) == Told(x, j, m)
  {
    if m > 0 { ToldExtends(x, k, n, ev, now, j, m - 1); }
  }

  lemma NextUnprojected(t: Tables, k: Key)
    requires Inv(t) && k in t.assignments
    ensures Registry(k, t.assignments[k].revision + 1) !in t.outbox
    ensures IsCurrent(t.assignments[k].lifecycle) && 0 < t.assignments[k].revision ==>
              Registry(k, t.assignments[k].revision) in t.outbox
  {
    hide Inv;
    if Registry(k, t.assignments[k].revision + 1) in t.outbox { RegistryKey(t, k, t.assignments[k].revision + 1); }
    LiveProjected(t, k);
  }

  lemma LiveProjected(t: Tables, k: Key)
    requires Inv(t) && k in t.assignments
    ensures IsCurrent(t.assignments[k].lifecycle) && 0 < t.assignments[k].revision ==>
              Registry(k, t.assignments[k].revision) in t.outbox
  {
    hide Tiled, InOrder, InboxOk, EvidenceTables.LedgerOk, EvidenceTables.CheckpointsIn, EvidenceTables.CursorsOrdered,
      EvidenceTables.RegistryRowsOk, EvidenceTables.RegistryStrict, EvidenceTables.SummariesOk,
        EvidenceTables.RevisionsOk;
    var n := t.assignments[k].revision;
    assert 0 < n && IsCurrent(t.assignments[k].lifecycle) ==> Registry(k, n) in t.outbox;
  }

  // A worker that still holds its lease has judged its whole suffix.
  lemma HeldResumes(engine: Engine, z: State, x: Evaluated)
    requires SystemInv(engine, z) && x in z.evaluated && Holds(z.tables.assignments, x.from.claim)
    ensures x.from in z.restored && Resumes(engine, z.telemetry, x.from.claim, x.from.checkpoint, x.evaluation)
  {
    hide Inv, LedgersTell, FramesUnique, Replays, Resumes, Sound, Holds, ClaimMatches, RestoredMatches, Conclusions;
    assert EvaluatedOk(engine, z, x);
  }

  // The checkpoint of a held evaluation is the whole stream up to it.
  lemma HeldIsWhole(engine: Engine, z: State, x: Evaluated)
    requires SystemInv(engine, z) && x in z.evaluated && Holds(z.tables.assignments, x.from.claim)
    ensures var c := x.from.claim;
            c.Key() in z.tables.assignments && FramesUnique(z.telemetry) &&
            IsWhole(engine, z.telemetry, z.tables.assignments[c.Key()],
              Checkpoint(x.evaluation.Position(), x.evaluation.state),
              Told(z.tables.outbox, c.Key(), c.revision) + x.evaluation.transitions)
    ensures Concludes(engine, z.telemetry, z.tables.assignments[x.from.claim.Key()], x.evaluation)
  {
    hide Inv, LedgersTell, IsWhole, Replays, Resumes, Restores, WorkOk, Told, Holds, Conclusions, Concludes;
    var c := x.from.claim;
    HeldResumes(engine, z, x);
    RestoredTells(engine, z, x.from);
    SuffixCompletesWhole(engine, z.telemetry, z.tables.assignments[c.Key()], c, x.from.checkpoint,
      Told(z.tables.outbox, c.Key(), c.revision), x.evaluation);
  }

  lemma CommitReplays(engine: Engine, z: State, x: Evaluated, t': Tables, now: Time)
    requires SystemInv(engine, z) && x in z.evaluated && Committing(z.tables, t', x.from.claim, x.evaluation, now)
    requires Monotone(z.tables, t')
    ensures Replays(engine, t', z.telemetry)
    ensures Told(t'.outbox, x.from.claim.Key(), x.from.claim.revision + 1) ==
            Told(z.tables.outbox, x.from.claim.Key(), x.from.claim.revision) + x.evaluation.transitions
    ensures FramesUnique(z.telemetry) && IsWhole(engine, z.telemetry, z.tables.assignments[x.from.claim.Key()],
              Checkpoint(x.evaluation.Position(), x.evaluation.state),
                Told(t'.outbox, x.from.claim.Key(), x.from.claim.revision + 1))
  {
    hide Inv, LedgersTell, FramesUnique, IsWhole, RowAdvances, ApplyTransitions, EvidenceTables.EventsKept, Delivered,
      WorkOk, Holds, Conclusions, Concludes;
    var t, c, ev := z.tables, x.from.claim, x.evaluation;
    var k, n := c.Key(), c.revision + 1;
    var cp := Checkpoint(ev.Position(), ev.state);
    NextUnprojected(t, k);
    HeldIsWhole(engine, z, x);
    ToldExtends(t.outbox, k, n, ev.(recording := Confirmed), now, k, c.revision);
    forall j, m | LiveAt(t', j, m)
      ensures IsWhole(engine, z.telemetry, t'.assignments[j], t'.checkpoints[RevisionKey(j, m)], Told(t'.outbox, j, m))
    {
      SameStart(t, t', j);
      if j == k && m == n {
        ClaimedStart(engine, z, x);
        WholeSame(engine, z.telemetry, t.assignments[k], t'.assignments[k], cp, Told(t'.outbox, k, n));
      } else {
        assert Registry(j, m) in t.outbox;
        RegistryKey(t, j, m);
        assert LiveAt(t, j, m);
        ToldExtends(t.outbox, k, n, ev.(recording := Confirmed), now, j, m);
        WholeSame(engine, z.telemetry, t.assignments[j], t'.assignments[j], t.checkpoints[RevisionKey(j, m)],
          Told(t.outbox, j, m));
      }
    }
  }

  lemma CommitConclusions(engine: Engine, z: State, x: Evaluated, t': Tables, now: Time)
    requires SystemInv(engine, z) && x in z.evaluated && Committing(z.tables, t', x.from.claim, x.evaluation, now)
    requires Monotone(z.tables, t')
    ensures Conclusions(engine, t', z.telemetry)
  {
    hide Inv, LedgersTell, FramesUnique, IsWhole, RowAdvances, ApplyTransitions, EvidenceTables.EventsKept, Delivered,
      WorkOk, Holds, Concludes, Replays, Told;
    var t, c, ev := z.tables, x.from.claim, x.evaluation;
    var k, n := c.Key(), c.revision + 1;
    NextUnprojected(t, k);
    HeldIsWhole(engine, z, x);
    ClaimedStart(engine, z, x);
    forall j, m | LiveAt(t', j, m) && t'.outbox[Registry(j, m)].payload.EvaluationPayload?
      ensures Concludes(engine, z.telemetry, t'.assignments[j], t'.outbox[Registry(j, m)].payload.evaluation)
    {
      SameStart(t, t', j);
      if j == k && m == n {
        ConfirmedConcludes(engine, z.telemetry, t.assignments[k], ev);
        ConcludesSame(engine, z.telemetry, t.assignments[k], t'.assignments[k], ev.(recording := Confirmed));
      } else {
        assert Registry(j, m) in t.outbox;
        RegistryKey(t, j, m);
        assert LiveAt(t, j, m);
        var was := t.outbox[Registry(j, m)].payload.evaluation;
        ConcludesSame(engine, z.telemetry, t.assignments[j], t'.assignments[j], was);
      }
    }
  }

  lemma ConfirmedConcludes(engine: Engine, telemetry: set<Observation>, row: AssignmentRow, ev: Domain.Evaluation)
    requires Concludes(engine, telemetry, row, ev)
    ensures Concludes(engine, telemetry, row, ev.(recording := Confirmed))
  {
    hide Whole;
    assert ev.(recording := Confirmed).Position() == ev.Position();
  }

  lemma ClaimedStart(engine: Engine, z: State, x: Evaluated)
    requires SystemInv(engine, z) && x in z.evaluated
    ensures x.from.claim.Key() in z.tables.assignments && z.tables.assignments[x.from.claim.Key()].authorityFrom.Some?
  {
    hide Inv, LedgersTell, FramesUnique, Replays, EvaluatedOk, RestoredMatches, Conclusions;
    assert ClaimMatches(z.tables.assignments, x.from.claim);
  }

  lemma SameStart(t: Tables, t': Tables, j: Key)
    requires Monotone(t, t') && j in t.assignments
    ensures j in t'.assignments && t'.assignments[j].spec == t.assignments[j].spec
    ensures t.assignments[j].authorityFrom.Some? ==> t'.assignments[j].authorityFrom == t.assignments[j].authorityFrom
  {
    hide EvidenceTables.EventsKept, Delivered;
    assert RowAdvances(t.assignments[j], t'.assignments[j]);
  }

  // The story so far of an unfenced worker is in the tables.
  lemma StorySoFar(t: Tables, k: Key)
    requires Inv(t) && LedgersTell(t) && k in t.assignments && IsCurrent(t.assignments[k].lifecycle)
    ensures LedgerTells(Ledger(t.incidents, t.events), k, Told(t.outbox, k, t.assignments[k].revision))
  {
    hide Inv, LedgerTells, Told;
    NextUnprojected(t, k);
    assert Unamended(t, k);
  }

  lemma CommitLedgers(engine: Engine, z: State, x: Evaluated, t': Tables, now: Time)
    requires SystemInv(engine, z) && x in z.evaluated && Committing(z.tables, t', x.from.claim, x.evaluation, now) &&
             Monotone(z.tables, t')
    ensures LedgersTell(t')
  {
    hide Inv, LedgerTells, FramesUnique, IsWhole, ApplyTransitions, Monotone, OthersKept, WorkOk, Replays, Alternating,
      OpenAfter,
      OpenFrame, Conclusions;
    var t, c, ev := z.tables, x.from.claim, x.evaluation;
    var k, n := c.Key(), c.revision + 1;
    var was, now' := Ledger(t.incidents, t.events), Ledger(t'.incidents, t'.events);
    CommitReplays(engine, z, x, t', now);
    StorySoFar(t, k);
    WholeAlternates(engine, z.telemetry, t.assignments[k], Checkpoint(ev.Position(), ev.state), Told(t'.outbox, k, n));
    BatchTells(was, k, Told(t.outbox, k, c.revision), n, ev.transitions);
    NextUnprojected(t, k);
    forall j | Unamended(t', j) ensures LedgerTells(now', j, Told(t'.outbox, j, t'.assignments[j].revision)) {
      if j != k {
        ToldExtends(t.outbox, k, n, ev.(recording := Confirmed), now, j, t.assignments[j].revision);
        assert Unamended(t, j);
        OthersTell(was, now', k, j, Told(t.outbox, j, t.assignments[j].revision));
      }
    }
  }

  lemma CommitKeeps(engine: Engine, z: State, x: Evaluated, next: Time, now: Time, z': State)
    requires SystemInv(engine, z) && Act(engine, z, CommitLive(x, next, now), z')
    ensures SystemInv(engine, z')
  {
    hide Inv, Monotone, FramesUnique, WorkOk, Replays, LedgersTell, Committing, Commit, Holds, Conclusions;
    CommitEffect(z.tables, x.from.claim, x.evaluation, next, now);
    CommitStepKeeps(z.tables, x.from.claim, x.evaluation, next, now);
    if Commit(z.tables, x.from.claim, x.evaluation, next, now).reply == Done {
      var s := CommitStep(x.from.claim, x.evaluation, next, now);
      forall c | c in z.claims && Holds(z'.tables.assignments, c) ensures Holds(z.tables.assignments, c) {
        StillHeld(engine, z, s, c);
      }
      WorkKept(engine, z, z'.tables, z.claims);
      CommitReplays(engine, z, x, z'.tables, now);
      CommitConclusions(engine, z, x, z'.tables, now);
      CommitLedgers(engine, z, x, z'.tables, now);
    }
  }

  // ---------- every behaviour ----------

  ghost predicate Behaviour(engine: Engine, zs: seq<State>, acts: seq<Action>) {
    |zs| == |acts| + 1 && zs[0] == START && forall i :: 0 <= i < |acts| ==> Act(engine, zs[i], acts[i], zs[i + 1])
  }

  lemma ActKeeps(engine: Engine, z: State, a: Action, z': State)
    requires SystemInv(engine, z) && Act(engine, z, a, z')
    ensures SystemInv(engine, z')
  {
    hide SystemInv;
    match a
    case Transact(s) => TransactKeeps(engine, z, s, z');
    case Restore(r, found) => RestoreKeeps(engine, z, r, found, z');
    case Assess(x, seen) => AssessKeeps(engine, z, x, seen, z');
    case CommitLive(x, next, now) => CommitKeeps(engine, z, x, next, now, z');
    case Ingest(o) => IngestKeeps(engine, z, o);
  }

  lemma StartOk(engine: Engine)
    ensures SystemInv(engine, START)
  {
    RunsKeep([]);
  }

  lemma {:induction false} BehavioursKeep(engine: Engine, zs: seq<State>, acts: seq<Action>, i: nat)
    requires Behaviour(engine, zs, acts) && i < |zs|
    ensures SystemInv(engine, zs[i])
  {
    hide SystemInv, Act;
    if i == 0 {
      StartOk(engine);
    } else {
      BehavioursKeep(engine, zs, acts, i - 1);
      ActKeeps(engine, zs[i - 1], acts[i - 1], zs[i]);
    }
  }
}
