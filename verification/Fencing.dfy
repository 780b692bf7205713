/** Lease fencing under arbitrary clocks: safety comes from the owner and the
    lease generation, never from the time a transaction reads. */
module Fencing {
  import opened Domain
  import opened Tables
  import opened Timeline
  import opened Evidence
  import opened Delivery
  import opened Runs

  /** The lease of this claim was consumed, taken over or cut over. */
  ghost predicate Fenced(m: Assignments, c: Claim) {
    c.Key() in m &&
    var r := m[c.Key()];
    || c.leaseGeneration < r.leaseGeneration
    || (c.leaseGeneration == r.leaseGeneration && r.leaseOwner != Some(c.worker))
    || Retired(r.lifecycle)
  }

  // The transaction presents the lease of claim c.
  predicate SameLease(c: Claim, d: Claim) {
    c.Key() == d.Key() && c.worker == d.worker && c.leaseGeneration == d.leaseGeneration
  }

  predicate Uses(s: Step, c: Claim) {
    (s.RenewStep? || s.DeferStep? || s.CommitStep? || s.HistoricalStep?) && SameLease(s.claim, c)
  }

  predicate Consumes(s: Step, c: Claim) { Uses(s, c) && !s.RenewStep? }

  // ---------- a fence never lifts ----------

  predicate RowLease(r: AssignmentRow, r': AssignmentRow) {
    r.leaseGeneration < r'.leaseGeneration ||
    (r'.leaseGeneration == r.leaseGeneration && (r'.leaseOwner == r.leaseOwner || r'.leaseOwner == None))
  }

  predicate Moves(m: Assignments, m': Assignments, k: Key)
    requires k in m
  {
    k in m' && RowLease(m[k], m'[k])
  }

  lemma NotifyRows(t: Tables, o: OutboxId, m: MessageId, e: Envelope, now: Time)
    ensures Notify(t, o, m, e, now).tables.assignments == t.assignments
  {
  }

  lemma ApplyMovesLeases(t: Tables, m: MessageId, e: Envelope, a: Assignment, now: Time, k: Key)
    requires k in t.assignments && k != KeyOf(a)
    ensures Moves(t.assignments, ApplyPrepare(t, m, e, a, now).tables.assignments, k)
  {
    hide Notify;
    NotifyRows(t.(assignments := SupersedeCandidates(t.assignments, a.id)[KeyOf(a) := NewRow(a, now)]), Receipt(m), m,
      e, now);
  }

  lemma PrepareMovesLeases(t: Tables, m: MessageId, mt: string, a: Assignment, now: Time, k: Key)
    requires k in t.assignments
    ensures Moves(t.assignments, Prepare(t, m, mt, a, now).tables.assignments, k)
  {
    hide Latest, ValidPrepare, Generations, ApplyPrepare;
    var l := Latest(t.assignments, a.id);
    if l.None? || l.value.gen < a.generation {
      AboveAll(t.assignments, a);
      ApplyMovesLeases(t, m, PrepareEnvelope(mt, a), a, now, k);
    }
  }

  lemma CandidateMovesLeases(t: Tables, m: MessageId, c: CandidateCommand, id: string, gen: nat, now: Time, k: Key)
    requires k in t.assignments
    ensures Moves(t.assignments, TransitionCandidate(t, m, c, id, gen, now).tables.assignments, k)
  {
    hide IsLatest, ValidCommand, CommandType, Notify;
    var h, e := Key(id, gen), CommandEnvelope(CommandType(c), id, gen, None);
    if h in t.assignments {
      NotifyRows(t.(assignments := t.assignments[h := t.assignments[h].(lifecycle := CandidateArmed)]), Notice(m), m, e,
        now);
      NotifyRows(t.(assignments := t.assignments[h := Unleased(t.assignments[h]).(lifecycle := Cancelled)]), Notice(m),
        m, e, now);
    }
  }

  lemma CutoverMovesLeases(t: Tables, m: MessageId, id: string, gen: nat, at: Time, now: Time, k: Key)
    requires k in t.assignments
    ensures Moves(t.assignments, Cutover(t, m, id, gen, at, now).tables.assignments, k)
  {
    hide CurrentOf, ValidCommand, Supported, Notify;
    var h, e := Key(id, gen), CutoverEnvelope(id, gen, at);
    var current := CurrentOf(t.assignments, id);
    if h in t.assignments && current.None? {
      NotifyRows(t.(assignments := t.assignments[h := Activated(t.assignments[h], at, now)]), Notice(m), m, e, now);
    } else if h in t.assignments {
      CurrentOfIs(t.assignments, id);
      var c := current.value;
      var rows := t.assignments[c := Closed(t.assignments[c], at)][h := Activated(t.assignments[h], at, now)];
      NotifyRows(t.(assignments := rows), Notice(m), m, e, now);
    }
  }

  lemma WriteRows(t: Tables, k: Key, revision: nat, ev: Evaluation, allowEqual: bool, publish: bool, now: Time)
    requires WriteEvaluation(t, k, revision, ev, allowEqual, publish, now).Ok?
    ensures WriteEvaluation(t, k, revision, ev, allowEqual, publish, now).value.assignments == t.assignments
  {
  }

  lemma CommitMovesLeases(t: Tables, c: Claim, ev: Evaluation, next: Time, now: Time, k: Key)
    requires k in t.assignments
    ensures Moves(t.assignments, Commit(t, c, ev, next, now).tables.assignments, k)
  {
    hide WriteEvaluation, ValidCommit, WithinAuthority;
    if Commit(t, c, ev, next, now).reply == Done {
      var row := Advanced(Consumed(t.assignments[c.Key()], next));
      WriteRows(t.(assignments := t.assignments[c.Key() := row]), c.Key(), row.revision, ev, false, true, now);
    }
  }

  lemma HistoricalMovesLeases(t: Tables, c: Claim, gen: nat, ev: Evaluation, next: Time, now: Time, k: Key)
    requires k in t.assignments
    ensures Moves(t.assignments, CommitHistorical(t, c, gen, ev, next, now).tables.assignments, k)
  {
    hide WriteEvaluation, ValidCommit, WithinAuthority;
    if CommitHistorical(t, c, gen, ev, next, now).reply == Done {
      var h := Key(c.assignment.id, gen);
      var m := t.assignments[c.Key() := Consumed(t.assignments[c.Key()], next)];
      WriteRows(t.(assignments := m[h := Advanced(m[h])]), h, Advanced(m[h]).revision, ev, true, false, now);
    }
  }

  lemma LeasesMove(t: Tables, s: Step, k: Key)
    requires k in t.assignments
    ensures Moves(t.assignments, Next(t, s).assignments, k)
  {
    hide Prepare, TransitionCandidate, Cutover, Commit, CommitHistorical, ClaimDue, Renew, Defer, ClaimOutbox,
      MarkDelivered, Retry;
    match s
    case PrepareStep(m, mt, a, now) => PrepareMovesLeases(t, m, mt, a, now, k);
    case CandidateStep(m, c, id, gen, now) => CandidateMovesLeases(t, m, c, id, gen, now, k);
    case CutoverStep(m, id, gen, at, now) => CutoverMovesLeases(t, m, id, gen, at, now, k);
    case CommitStep(c, ev, next, now) => CommitMovesLeases(t, c, ev, next, now, k);
    case HistoricalStep(c, gen, ev, next, now) => HistoricalMovesLeases(t, c, gen, ev, next, now, k);
    case ClaimStep(w, lease, grace, limit, now, chosen) => ClaimMovesLeases(t, w, lease, grace, limit, now, chosen, k);
    case RenewStep(c, ext, now) => RenewMovesLeases(t, c, ext, now, k);
    case DeferStep(c, next, now) => DeferMovesLeases(t, c, next, now, k);
    case OutboxClaimStep(d, w, lease, limit, now, chosen) => OutboxClaimRows(t, d, w, lease, limit, now, chosen);
    case DeliveredStep(c, now) => DeliveredRows(t, c, now);
    case RetryStep(c, delay, failed, now) => RetryRows(t, c, delay, failed, now);
  }

  lemma OutboxClaimRows(t: Tables, d: Destination, w: string, lease: int, limit: int, now: Time, chosen: set<OutboxId>)
    ensures ClaimOutbox(t, d, w, lease, limit, now, chosen).tables.assignments == t.assignments
  {
    hide ValidOutboxClaim;
  }

  lemma DeliveredRows(t: Tables, c: OutboxClaim, now: Time)
    ensures MarkDelivered(t, c, now).tables.assignments == t.assignments
  {
  }

  lemma RetryRows(t: Tables, c: OutboxClaim, delay: int, failed: bool, now: Time)
    ensures Retry(t, c, delay, failed, now).tables.assignments == t.assignments
  {
  }

  lemma ClaimMovesLeases(t: Tables, w: string, lease: int, grace: int, limit: int, now: Time, chosen: set<Key>, k: Key)
    requires k in t.assignments
    ensures Moves(t.assignments, ClaimDue(t, w, lease, grace, limit, now, chosen).tables.assignments, k)
  {
    hide ValidClaim;
  }

  lemma RenewMovesLeases(t: Tables, c: Claim, extension: int, now: Time, k: Key)
    requires k in t.assignments
    ensures Moves(t.assignments, Renew(t, c, extension, now).tables.assignments, k)
  {
  }

  lemma DeferMovesLeases(t: Tables, c: Claim, next: Time, now: Time, k: Key)
    requires k in t.assignments
    ensures Moves(t.assignments, Defer(t, c, next, now).tables.assignments, k)
  {
  }

  /** Whatever transaction runs next, at whatever time, a fenced claim stays fenced. */
  lemma FenceHolds(t: Tables, s: Step, c: Claim)
    requires Inv(t) && Fenced(t.assignments, c)
    ensures Fenced(Next(t, s).assignments, c)
  {
    hide Inv, Next;
    NextKeeps(t, s);
    LeasesMove(t, s, c.Key());
    assert RowAdvances(t.assignments[c.Key()], Next(t, s).assignments[c.Key()]);
  }

  /** A fenced claim is refused by renewal, deferral and both commits, which then change nothing. */
  lemma FencedIsRefused(t: Tables, s: Step, c: Claim)
    requires Fenced(t.assignments, c) && Uses(s, c)
    ensures Perform(t, s).reply.Refused? && Next(t, s) == t
  {
    hide ApplyTransitions, StaleCursor, ValidCommit, WithinAuthority, WriteEvaluation;
    assert !Holds(t.assignments, s.claim);
  }

  // ---------- what raises a fence ----------

  // The claims name the same row and lease generation, whoever presents them.
  predicate SameGeneration(c: Claim, d: Claim) { c.Key() == d.Key() && c.leaseGeneration == d.leaseGeneration }

  /** A successful commit, historical commit or deferral consumes the lease
      generation, for every worker that might present it. */
  lemma ConsumptionFences(t: Tables, s: Step, c: Claim, d: Claim)
    requires Consumes(s, c) && Perform(t, s).reply == Done && SameGeneration(c, d)
    ensures Fenced(Next(t, s).assignments, d)
    ensures Next(t, s).assignments[c.Key()].leaseUntil.None? &&
            Next(t, s).assignments[c.Key()].nextEvaluationAt == s.next
  {
    hide ApplyTransitions, StaleCursor, ValidCommit, WithinAuthority;
  }

  // The claim was issued from this row or an earlier state of it.
  ghost predicate Issued(m: Assignments, c: Claim) {
    c.Key() in m && c.leaseGeneration <= m[c.Key()].leaseGeneration
  }

  lemma TakeoverFences(t: Tables, s: Step, c: Claim)
    requires s.ClaimStep? && Perform(t, s).reply == Done && Issued(t.assignments, c) && c.Key() in s.chosen
    ensures Fenced(Next(t, s).assignments, c)
  {
  }

  lemma CutoverFences(t: Tables, s: Step, c: Claim)
    requires Inv(t) && s.CutoverStep? && Perform(t, s).reply == Accepted(Applied)
    requires c.Key() in t.assignments && c.Key().id == s.id && IsCurrent(t.assignments[c.Key()].lifecycle)
    ensures Fenced(Next(t, s).assignments, c)
  {
    hide Cutover, CurrentOf, Recorded, InOrder, InboxOk, RowsOk, CandidateHighest, Ordered, Chained, CurrentLast;
    CurrentFound(t.assignments, s.id, c.Key());
    CutoverChanges(t, s.message, s.id, s.gen, s.at, s.now);
    CutoverIsApplied(t, s.message, s.id, s.gen, s.at, s.now, c.Key());
  }

  lemma CutoverIsApplied(t: Tables, m: MessageId, id: string, gen: nat, at: Time, now: Time, c: Key)
    requires Cutover(t, m, id, gen, at, now).reply == Accepted(Applied) && CurrentOf(t.assignments, id) == Some(c) &&
             c in t.assignments
    ensures c in Cutover(t, m, id, gen, at, now).tables.assignments
    ensures Cutover(t, m, id, gen, at, now).tables.assignments[c].lifecycle == Superseded
  {
    hide ValidCommand, Supported, CurrentOf;
  }

  lemma CurrentFound(m: Assignments, id: string, k: Key)
    requires OneCurrent(m) && IsCurrentOf(m, id, k)
    ensures CurrentOf(m, id) == Some(k)
  {
  }

  /** Renewal extends a held lease and leaves the claim as good as it was. */
  lemma RenewalKeepsClaim(t: Tables, s: Step, c: Claim)
    requires s.RenewStep? && SameLease(s.claim, c) && Perform(t, s).reply == Done && !Fenced(t.assignments, c)
    ensures !Fenced(Next(t, s).assignments, c) && Holds(Next(t, s).assignments, c)
    ensures Next(t, s).assignments[c.Key()].leaseUntil == Some(s.now + s.extension)
    ensures Next(t, s).assignments[c.Key()].revision == t.assignments[c.Key()].revision
  {
  }

  /** A fresh claim holds its row and is not fenced, until one of the above happens. */
  lemma FreshClaimHolds(t: Tables, s: Step, k: Key)
    requires Inv(t) && s.ClaimStep? && Perform(t, s).reply == Done && k in s.chosen
    ensures var r := Next(t, s).assignments[k];
            && HasAuthority(r) && r.leaseUntil.Some?
            && var c := ClaimOf(r, s.worker, s.grace);
               c.Key() == k && Holds(Next(t, s).assignments, c) && !Fenced(Next(t, s).assignments, c)
  {
    hide Recorded, InOrder, InboxOk, OneCurrent, CandidateHighest, Ordered, Chained, CurrentLast;
    assert RowOk(k, t.assignments[k]);
    assert Due(t.assignments[k], s.grace, s.now);
  }

  // ---------- over whole runs ----------

  lemma {:induction false} FencedForever(t: Tables, steps: seq<Step>, c: Claim)
    requires Inv(t) && Fenced(t.assignments, c)
    ensures Fenced(Exec(t, steps).assignments, c)
  {
    hide Inv, Fenced, Next;
    if steps != [] {
      FencedForever(t, steps[..|steps| - 1], c);
      ExecMonotone(t, steps[..|steps| - 1]);
      FenceHolds(Exec(t, steps[..|steps| - 1]), steps[|steps| - 1], c);
    }
  }

  lemma {:induction false} ExecSplit(t: Tables, a: seq<Step>, b: seq<Step>)
    ensures Exec(t, a + b) == Exec(Exec(t, a), b)
  {
    hide Next;
    if b == [] {
      assert a + b == a;
    } else {
      ExecSplit(t, a, b[..|b| - 1]);
      assert (a + b)[..|a + b| - 1] == a + b[..|b| - 1];
    }
  }

  /** Once a step of a run has raised the fence, no later step of that run
      succeeds with the claim. */
  lemma NoUseAfterFence(steps: seq<Step>, i: nat, j: nat, c: Claim)
    requires i < j < |steps| && Fenced(Exec(EMPTY, steps[..i + 1]).assignments, c) && Uses(steps[j], c)
    ensures Perform(Exec(EMPTY, steps[..j]), steps[j]).reply.Refused?
    ensures Exec(EMPTY, steps[..j + 1]) == Exec(EMPTY, steps[..j])
  {
    hide Inv, Fenced, Perform;
    assert steps[..j] == steps[..i + 1] + steps[i + 1..j];
    ExecSplit(EMPTY, steps[..i + 1], steps[i + 1..j]);
    RunsKeep(steps[..i + 1]);
    FencedForever(Exec(EMPTY, steps[..i + 1]), steps[i + 1..j], c);
    FencedIsRefused(Exec(EMPTY, steps[..j]), steps[j], c);
    assert steps[..j + 1][..j] == steps[..j];
  }

  /** Each lease generation is consumed by at most one successful commit,
      historical commit or deferral of a run, and by nothing after it, whichever
      worker presents it. */
  lemma ConsumedAtMostOnce(steps: seq<Step>, i: nat, j: nat, c: Claim, d: Claim)
    requires i < j < |steps| && Consumes(steps[i], c) && Uses(steps[j], d) && SameGeneration(c, d)
    requires Perform(Exec(EMPTY, steps[..i]), steps[i]).reply == Done
    ensures Perform(Exec(EMPTY, steps[..j]), steps[j]).reply.Refused?
  {
    hide Perform, Fenced;
    ConsumptionFences(Exec(EMPTY, steps[..i]), steps[i], c, d);
    assert steps[..i + 1][..i] == steps[..i];
    NoUseAfterFence(steps, i, j, d);
  }

  /** After a takeover or a cutover of a run, the displaced claim never succeeds again. */
  lemma DisplacedNeverSucceeds(steps: seq<Step>, i: nat, j: nat, c: Claim)
    requires i < j < |steps| && Uses(steps[j], c)
    requires var t := Exec(EMPTY, steps[..i]);
      || (steps[i].ClaimStep? && Perform(t, steps[i]).reply == Done && Issued(t.assignments, c) &&
         c.Key() in steps[i].chosen)
      || (steps[i].CutoverStep? && Perform(t, steps[i]).reply == Accepted(Applied) && c.Key() in t.assignments &&
          c.Key().id == steps[i].id && IsCurrent(t.assignments[c.Key()].lifecycle))
    ensures Perform(Exec(EMPTY, steps[..j]), steps[j]).reply.Refused?
  {
    hide Perform, Fenced, Inv, Issued;
    var t := Exec(EMPTY, steps[..i]);
    RunsKeep(steps[..i]);
    if steps[i].ClaimStep? { TakeoverFences(t, steps[i], c); } else { CutoverFences(t, steps[i], c); }
    assert steps[..i + 1][..i] == steps[..i];
    NoUseAfterFence(steps, i, j, c);
  }
}
