/** Outbox publication by any number of publishers: delivery leases fence each
    other, a message is delivered at most once, and order never blocks for good. */
module Publishing {
  import opened Domain
  import opened Tables
  import opened Delivery
  import opened Runs
  import Fencing

  /** The delivery lease was used, taken over, or the message is delivered. */
  ghost predicate Spent(x: Outbox, c: OutboxClaim) {
    c.id in x &&
    (c.leaseGeneration < x[c.id].leaseGeneration ||
     (c.leaseGeneration == x[c.id].leaseGeneration && x[c.id].leaseOwner != Some(c.worker)) ||
     x[c.id].deliveredAt.Some?)
  }

  predicate Presents(s: Step, c: OutboxClaim) { (s.DeliveredStep? || s.RetryStep?) && s.outboxClaim == c }

  // Delivery leases only move on, and delivery is final.
  predicate MessageMoves(r: OutboxRow, r': OutboxRow) {
    && (r.deliveredAt.Some? ==> r'.deliveredAt == r.deliveredAt)
    && r'.attempts - r.attempts == r'.leaseGeneration - r.leaseGeneration
    && (r.leaseGeneration < r'.leaseGeneration ||
        (r'.leaseGeneration == r.leaseGeneration && (r'.leaseOwner == r.leaseOwner || r'.leaseOwner == None)))
  }

  // A message just enqueued.
  predicate Fresh(r: OutboxRow) {
    r.attempts == 0 && r.leaseGeneration == 0 && r.leaseOwner.None? && r.deliveredAt.None?
  }

  predicate RowMoves(x: Outbox, x': Outbox, o: OutboxId) {
    (o in x ==> o in x' && MessageMoves(x[o], x'[o])) && (o in x' && o !in x ==> Fresh(x'[o]))
  }

  lemma NotifyKeepsMessages(t: Tables, n: OutboxId, m: MessageId, e: Envelope, now: Time, o: OutboxId)
    ensures RowMoves(t.outbox, Notify(t, n, m, e, now).tables.outbox, o)
  {
  }

  lemma ApplyKeepsMessages(t: Tables, m: MessageId, e: Envelope, a: Assignment, now: Time, o: OutboxId)
    ensures RowMoves(t.outbox, ApplyPrepare(t, m, e, a, now).tables.outbox, o)
  {
    hide Notify, SupersedeCandidates, NewRow;
    NotifyKeepsMessages(t.(assignments := SupersedeCandidates(t.assignments, a.id)[KeyOf(a) := NewRow(a, now)]),
      Receipt(m), m, e, now, o);
  }

  lemma RowStays(x: Outbox, o: OutboxId)
    ensures RowMoves(x, x, o)
  {
  }

  lemma PrepareKeepsMessages(t: Tables, m: MessageId, mt: string, a: Assignment, now: Time, o: OutboxId)
    ensures RowMoves(t.outbox, Prepare(t, m, mt, a, now).tables.outbox, o)
  {
    hide Latest, ValidPrepare, ApplyPrepare, RowMoves;
    RowStays(t.outbox, o);
    ApplyKeepsMessages(t, m, PrepareEnvelope(mt, a), a, now, o);
  }

  lemma CandidateKeepsMessages(
    t: Tables, m: MessageId, c: CandidateCommand, id: string, gen: nat, now: Time, o: OutboxId)
    ensures RowMoves(t.outbox, TransitionCandidate(t, m, c, id, gen, now).tables.outbox, o)
  {
    hide IsLatest, ValidCommand, CommandType, Notify;
    var k, e := Key(id, gen), CommandEnvelope(CommandType(c), id, gen, None);
    if k in t.assignments {
      NotifyKeepsMessages(t.(assignments := t.assignments[k := t.assignments[k].(lifecycle := CandidateArmed)]),
        Notice(m), m, e, now, o);
      NotifyKeepsMessages(t.(assignments := t.assignments[k := Unleased(t.assignments[k]).(lifecycle := Cancelled)]),
        Notice(m), m, e, now, o);
    }
  }

  lemma CutoverKeepsMessages(t: Tables, m: MessageId, id: string, gen: nat, at: Time, now: Time, o: OutboxId)
    ensures RowMoves(t.outbox, Cutover(t, m, id, gen, at, now).tables.outbox, o)
  {
    hide CurrentOf, ValidCommand, Supported, Notify;
    var k, e := Key(id, gen), CutoverEnvelope(id, gen, at);
    var current := CurrentOf(t.assignments, id);
    if k in t.assignments && current.None? {
      NotifyKeepsMessages(t.(assignments := t.assignments[k := Activated(t.assignments[k], at, now)]), Notice(m), m, e,
        now, o);
    } else if k in t.assignments {
      CurrentOfIs(t.assignments, id);
      var c := current.value;
      var rows := t.assignments[c := Closed(t.assignments[c], at)][k := Activated(t.assignments[k], at, now)];
      NotifyKeepsMessages(t.(assignments := rows), Notice(m), m, e, now, o);
    }
  }

  lemma WriteKeepsMessages(
    t: Tables, k: Key, n: nat, ev: Evaluation, allowEqual: bool, publish: bool, now: Time, o: OutboxId)
    requires WriteEvaluation(t, k, n, ev, allowEqual, publish, now).Ok?
    ensures RowMoves(t.outbox, WriteEvaluation(t, k, n, ev, allowEqual, publish, now).value.outbox, o)
  {
    hide StaleCursor, ApplyTransitions;
  }

  lemma CommitsKeepMessages(t: Tables, s: Step, o: OutboxId)
    requires (s.CommitStep? || s.HistoricalStep?)
    ensures RowMoves(t.outbox, Next(t, s).outbox, o)
  {
    hide WriteEvaluation, ValidCommit, WithinAuthority;
    if Perform(t, s).reply == Done {
      var k := s.claim.Key();
      if s.CommitStep? {
        var row := Advanced(Consumed(t.assignments[k], s.next));
        WriteKeepsMessages(t.(assignments := t.assignments[k := row]), k, row.revision, s.evaluation, false, true,
          s.now, o);
      } else {
        var h := Key(s.claim.assignment.id, s.target);
        var m := t.assignments[k := Consumed(t.assignments[k], s.next)];
        WriteKeepsMessages(t.(assignments := m[h := Advanced(m[h])]), h, Advanced(m[h]).revision, s.evaluation, true,
          false, s.now, o);
      }
    }
  }

  lemma MessagesMove(t: Tables, s: Step, o: OutboxId)
    ensures RowMoves(t.outbox, Next(t, s).outbox, o)
  {
    hide Prepare, TransitionCandidate, Cutover, Commit, CommitHistorical, ClaimDue, Renew, Defer, ClaimOutbox,
      MarkDelivered, Retry;
    match s
    case PrepareStep(m, mt, a, now) => PrepareKeepsMessages(t, m, mt, a, now, o);
    case CandidateStep(m, c, id, gen, now) => CandidateKeepsMessages(t, m, c, id, gen, now, o);
    case CutoverStep(m, id, gen, at, now) => CutoverKeepsMessages(t, m, id, gen, at, now, o);
    case CommitStep(_, _, _, _) => CommitsKeepMessages(t, s, o);
    case HistoricalStep(_, _, _, _, _) => CommitsKeepMessages(t, s, o);
    case OutboxClaimStep(d, w, lease, limit, now, chosen) => ClaimMovesMessages(t, d, w, lease, limit, now, chosen, o);
    case DeliveredStep(c, now) => DeliveryMovesMessages(t, c, now, o);
    case RetryStep(c, delay, failed, now) => RetryMovesMessages(t, c, delay, failed, now, o);
    case _ => LeasesKeepOutbox(t, s);
  }

  lemma LeasesKeepOutbox(t: Tables, s: Step)
    requires s.ClaimStep? || s.RenewStep? || s.DeferStep?
    ensures Next(t, s).outbox == t.outbox
  {
    hide Holds, ValidClaim;
    if !s.ClaimStep? { HeldRow(t.assignments, s.claim); }
  }

  lemma ClaimMovesMessages(
    t: Tables, d: Destination, w: string, lease: int, limit: int, now: Time, chosen: set<OutboxId>, o: OutboxId)
    ensures RowMoves(t.outbox, ClaimOutbox(t, d, w, lease, limit, now, chosen).tables.outbox, o)
  {
    hide HeadOfLine, Blank;
    if o in chosen && ValidOutboxClaim(t.outbox, d, w, lease, limit, now, chosen) {
      assert Claimable(t.outbox, o, d, now);
    }
  }

  lemma DeliveryMovesMessages(t: Tables, c: OutboxClaim, now: Time, o: OutboxId)
    ensures RowMoves(t.outbox, MarkDelivered(t, c, now).tables.outbox, o)
  {
  }

  lemma RetryMovesMessages(t: Tables, c: OutboxClaim, delay: int, failed: bool, now: Time, o: OutboxId)
    ensures RowMoves(t.outbox, Retry(t, c, delay, failed, now).tables.outbox, o)
  {
  }

  lemma {:induction false} SpentForever(t: Tables, steps: seq<Step>, c: OutboxClaim)
    requires Spent(t.outbox, c)
    ensures Spent(Exec(t, steps).outbox, c)
  {
    hide Next;
    if steps != [] {
      SpentForever(t, steps[..|steps| - 1], c);
      MessagesMove(Exec(t, steps[..|steps| - 1]), steps[|steps| - 1], c.id);
    }
  }

  lemma UseSpends(t: Tables, s: Step, c: OutboxClaim)
    requires Presents(s, c) && Perform(t, s).reply == Done
    ensures Spent(Next(t, s).outbox, c)
    ensures s.DeliveredStep? ==> Delivered(Next(t, s).outbox, c.id)
    ensures s.RetryStep? ==>
              !Delivered(Next(t, s).outbox, c.id) && Next(t, s).outbox[c.id].nextAttemptAt == s.now + s.delay
  {
  }

  lemma SpentIsRefused(t: Tables, s: Step, c: OutboxClaim)
    requires Presents(s, c) && Spent(t.outbox, c)
    ensures Perform(t, s).reply.Refused? && Next(t, s) == t
  {
  }

  /** Each delivery lease ends in at most one successful delivery or retry of a run. */
  lemma DeliveryLeaseUsedOnce(steps: seq<Step>, i: nat, j: nat, c: OutboxClaim)
    requires i < j < |steps| && Presents(steps[i], c) && Presents(steps[j], c)
    requires Perform(Exec(EMPTY, steps[..i]), steps[i]).reply == Done
    ensures Perform(Exec(EMPTY, steps[..j]), steps[j]).reply.Refused?
  {
    hide Perform, Spent;
    UseSpends(Exec(EMPTY, steps[..i]), steps[i], c);
    assert steps[..i + 1][..i] == steps[..i];
    assert steps[..j] == steps[..i + 1] + steps[i + 1..j];
    Fencing.ExecSplit(EMPTY, steps[..i + 1], steps[i + 1..j]);
    SpentForever(Exec(EMPTY, steps[..i + 1]), steps[i + 1..j], c);
    SpentIsRefused(Exec(EMPTY, steps[..j]), steps[j], c);
  }

  /** A message is delivered at most once in a run, by whatever claims. */
  lemma DeliveredAtMostOnce(steps: seq<Step>, i: nat, j: nat)
    requires i < j < |steps| && steps[i].DeliveredStep? && steps[j].DeliveredStep?
    requires steps[i].outboxClaim.id == steps[j].outboxClaim.id &&
             Perform(Exec(EMPTY, steps[..i]), steps[i]).reply == Done
    ensures Perform(Exec(EMPTY, steps[..j]), steps[j]).reply.Refused?
  {
    hide Perform;
    var c := steps[j].outboxClaim;
    UseSpends(Exec(EMPTY, steps[..i]), steps[i], steps[i].outboxClaim);
    assert steps[..i + 1][..i] == steps[..i];
    assert Spent(Exec(EMPTY, steps[..i + 1]).outbox, c);
    assert steps[..j] == steps[..i + 1] + steps[i + 1..j];
    Fencing.ExecSplit(EMPTY, steps[..i + 1], steps[i + 1..j]);
    SpentForever(Exec(EMPTY, steps[..i + 1]), steps[i + 1..j], c);
    SpentIsRefused(Exec(EMPTY, steps[..j]), steps[j], c);
  }

  /** Over every run, a message's attempts are the delivery leases taken on it. */
  lemma {:induction false} AttemptsCountLeases(steps: seq<Step>, o: OutboxId)
    requires o in Exec(EMPTY, steps).outbox
    ensures var r := Exec(EMPTY, steps).outbox[o]; r.attempts == r.leaseGeneration
  {
    hide Next;
    if steps != [] {
      var t := Exec(EMPTY, steps[..|steps| - 1]);
      MessagesMove(t, steps[|steps| - 1], o);
      if o in t.outbox { AttemptsCountLeases(steps[..|steps| - 1], o); }
    }
  }

  /** Order never blocks an assignment for good: some undelivered row is always at the head of the line. */
  lemma {:induction false} HeadExists(x: Outbox, o: OutboxId) returns (head: OutboxId)
    requires o in x && o.Registry? && !Delivered(x, o)
    ensures head in x && head.Registry? && head.key.id == o.key.id && !Delivered(x, head) && HeadOfLine(x, head)
    ensures head == o || Earlier(head, o)
    decreases o.key.gen, o.revision
  {
    if p :| p in x && p.Registry? && Earlier(p, o) && x[p].deliveredAt.None? {
      head := HeadExists(x, p);
    } else {
      head := o;
    }
  }
}
