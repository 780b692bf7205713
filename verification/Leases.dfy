/** What a lease is worth while it lasts: nobody else takes the row or the
    message, and what it is not worth afterwards. */
module Leases {
  import opened Domain
  import opened Tables
  import opened Timeline
  import opened Evidence
  import opened Delivery
  import opened Runs
  import opened Fencing
  import Publishing

  // ---------- evaluation leases ----------

  // A lease that has not ended by `now`.
  predicate UnderLease(r: AssignmentRow, now: Time) { r.leaseUntil.Some? && now <= r.leaseUntil.value }

  /** A claim transaction leaves every row under a lease that has not ended, and
      every row that is not due, exactly as it was. */
  lemma ClaimSparesLeased(t: Tables, s: Step, k: Key)
    requires s.ClaimStep? && k in t.assignments
    requires || UnderLease(t.assignments[k], s.now) || s.now < t.assignments[k].nextEvaluationAt
             || !IsCurrent(t.assignments[k].lifecycle)
             || (t.assignments[k].authorityUntil.Some? && t.assignments[k].authorityUntil.value + s.grace < s.now)
    ensures k in Next(t, s).assignments && Next(t, s).assignments[k] == t.assignments[k]
  {
    hide ValidClaim;
    ChosenIsDue(t.assignments, s.worker, s.lease, s.grace, s.limit, s.now, s.chosen, k);
  }

  lemma ChosenIsDue(
    m: Assignments, worker: string, lease: int, grace: int, limit: int, now: Time, chosen: set<Key>, k: Key)
    ensures ValidClaim(m, worker, lease, grace, limit, now, chosen) && k in chosen ==> k in m && Due(m[k], grace, now)
  {
  }

  /** A claimed row was current, due, within grace and free; it is then leased to the
      worker until now + lease under the next generation, and is otherwise unchanged. */
  lemma ClaimTakesFree(t: Tables, s: Step, k: Key)
    requires s.ClaimStep? && Perform(t, s).reply == Done && k in s.chosen
    ensures k in t.assignments && k in Next(t, s).assignments
    ensures var r, r' := t.assignments[k], Next(t, s).assignments[k];
      && IsCurrent(r.lifecycle) && r.nextEvaluationAt <= s.now && !UnderLease(r, s.now)
      && r.authorityUntil.Some? && s.now <= r.authorityUntil.value + s.grace
      && r'.leaseOwner == Some(s.worker) && r'.leaseGeneration == r.leaseGeneration + 1
      && r'.leaseUntil == Some(s.now + s.lease) && UnderLease(r', s.now)
      && r' == r.(leaseOwner := r'.leaseOwner, leaseGeneration := r'.leaseGeneration, leaseUntil := r'.leaseUntil)
  {
    assert Due(t.assignments[k], s.grace, s.now);
  }

  // The claim's row is held and its lease has an end.
  predicate Secured(m: Assignments, c: Claim) { Holds(m, c) && m[c.Key()].leaseUntil.Some? }

  // The step gives the lease up or cuts the row's authority over.
  predicate EndsLease(s: Step, c: Claim) { Consumes(s, c) || (s.CutoverStep? && s.id == c.Key().id) }

  // A held row is current, so no candidate command touches it.
  lemma HeldIsNoCandidate(t: Tables, c: Claim)
    requires Secured(t.assignments, c)
    ensures !IsCandidate(t.assignments[c.Key()].lifecycle)
  {
  }

  lemma PrepareSparesLease(t: Tables, s: Step, c: Claim)
    requires Secured(t.assignments, c) && s.PrepareStep?
    ensures Secured(Next(t, s).assignments, c)
  {
    hide Latest, ApplyPrepare, ValidPrepare, Generations, Holds;
    var a, l := s.assignment, Latest(t.assignments, s.assignment.id);
    if l.None? || l.value.gen < a.generation {
      AboveAll(t.assignments, a);
      ApplySparesLease(t, s.message, PrepareEnvelope(s.messageType, a), a, s.now, c);
    }
  }

  lemma ApplySparesLease(t: Tables, m: MessageId, e: Envelope, a: Assignment, now: Time, c: Claim)
    requires Secured(t.assignments, c) && KeyOf(a) !in t.assignments
    ensures Secured(ApplyPrepare(t, m, e, a, now).tables.assignments, c)
  {
    hide Notify;
    var rows := SupersedeCandidates(t.assignments, a.id)[KeyOf(a) := NewRow(a, now)];
    NotifyRows(t.(assignments := rows), Receipt(m), m, e, now);
  }

  lemma CandidateSparesLease(t: Tables, s: Step, c: Claim)
    requires Secured(t.assignments, c) && s.CandidateStep?
    ensures Secured(Next(t, s).assignments, c)
  {
    hide IsLatest, ValidCommand, CommandType, Notify;
    var h, e, m := Key(s.id, s.gen), CommandEnvelope(CommandType(s.command), s.id, s.gen, None), s.message;
    HeldIsNoCandidate(t, c);
    if h in t.assignments {
      var armed := t.assignments[h := t.assignments[h].(lifecycle := CandidateArmed)];
      NotifyRows(t.(assignments := armed), Notice(m), m, e, s.now);
      var cancelled := t.assignments[h := Unleased(t.assignments[h]).(lifecycle := Cancelled)];
      NotifyRows(t.(assignments := cancelled), Notice(m), m, e, s.now);
    }
  }

  lemma CutoverSparesOthers(t: Tables, s: Step, c: Claim)
    requires Secured(t.assignments, c) && s.CutoverStep? && s.id != c.Key().id
    ensures Secured(Next(t, s).assignments, c)
  {
    hide CurrentOf, ValidCommand, Supported, Notify, CloseCurrent;
    var k, e, m := Key(s.id, s.gen), CutoverEnvelope(s.id, s.gen, s.at), s.message;
    var rows := CloseCurrent(t, s.id, s.gen, s.at);
    if k in t.assignments && rows.Ok? {
      CloseSparesOthers(t, s.id, s.gen, s.at, c);
      NotifyRows(t.(assignments := rows.value[k := Activated(t.assignments[k], s.at, s.now)]), Notice(m), m, e, s.now);
    }
  }

  lemma CloseSparesOthers(t: Tables, id: string, gen: nat, at: Time, c: Claim)
    requires Secured(t.assignments, c) && id != c.Key().id && CloseCurrent(t, id, gen, at).Ok?
    ensures Secured(CloseCurrent(t, id, gen, at).value, c)
  {
    hide CurrentOf;
    if CurrentOf(t.assignments, id).Some? { CurrentOfIs(t.assignments, id); }
  }

  lemma UsesSpareLease(t: Tables, s: Step, c: Claim)
    requires Secured(t.assignments, c) && (s.RenewStep? || s.DeferStep?) && !Consumes(s, c)
    ensures Secured(Next(t, s).assignments, c)
  {
  }

  lemma CommitSparesLease(t: Tables, s: Step, c: Claim)
    requires Secured(t.assignments, c) && (s.CommitStep? || s.HistoricalStep?) && !Consumes(s, c)
    ensures Secured(Next(t, s).assignments, c)
  {
    hide WriteEvaluation, ValidCommit, WithinAuthority;
    if Perform(t, s).reply == Done {
      var k := s.claim.Key();
      if s.CommitStep? {
        var row := Advanced(Consumed(t.assignments[k], s.next));
        WriteRows(t.(assignments := t.assignments[k := row]), k, row.revision, s.evaluation, false, true, s.now);
      } else {
        var h := Key(s.claim.assignment.id, s.target);
        var m := t.assignments[k := Consumed(t.assignments[k], s.next)];
        WriteRows(t.(assignments := m[h := Advanced(m[h])]), h, Advanced(m[h]).revision, s.evaluation, true, false,
          s.now);
      }
    }
  }

  /** One step, at a time the lease has not ended, takes it from nobody. */
  lemma LeaseExcludes(t: Tables, s: Step, c: Claim)
    requires Inv(t) && Secured(t.assignments, c) && s.now <= t.assignments[c.Key()].leaseUntil.value && !EndsLease(s, c)
    ensures Secured(Next(t, s).assignments, c)
  {
    hide Inv, Next, Secured;
    match s
    case PrepareStep(_, _, _, _) => PrepareSparesLease(t, s, c);
    case CandidateStep(_, _, _, _, _) => CandidateSparesLease(t, s, c);
    case CutoverStep(_, _, _, _, _) => CutoverSparesOthers(t, s, c);
    case ClaimStep(_, _, _, _, _, _) => SparedStaysSecured(t, s, c);
    case RenewStep(_, _, _) => UsesSpareLease(t, s, c);
    case DeferStep(_, _, _) => UsesSpareLease(t, s, c);
    case CommitStep(_, _, _, _) => CommitSparesLease(t, s, c);
    case HistoricalStep(_, _, _, _, _) => CommitSparesLease(t, s, c);
    case _ => OutboxSparesLease(t, s, c);
  }

  lemma SparedStaysSecured(t: Tables, s: Step, c: Claim)
    requires s.ClaimStep? && Secured(t.assignments, c) && s.now <= t.assignments[c.Key()].leaseUntil.value
    ensures Secured(Next(t, s).assignments, c)
  {
    hide Next;
    ClaimSparesLeased(t, s, c.Key());
  }

  lemma OutboxSparesLease(t: Tables, s: Step, c: Claim)
    requires Secured(t.assignments, c) && (s.OutboxClaimStep? || s.DeliveredStep? || s.RetryStep?)
    ensures Secured(Next(t, s).assignments, c)
  {
    hide ClaimOutbox, MarkDelivered, Retry;
    match s
    case OutboxClaimStep(d, w, lease, limit, now, chosen) => OutboxClaimRows(t, d, w, lease, limit, now, chosen);
    case DeliveredStep(d, now) => DeliveredRows(t, d, now);
    case RetryStep(d, delay, failed, now) => RetryRows(t, d, delay, failed, now);
  }

  // No step of the run reads a time after the lease end it finds on row k.
  ghost predicate Punctual(t: Tables, steps: seq<Step>, k: Key) {
    forall i :: 0 <= i < |steps| ==> InTime(Exec(t, steps[..i]).assignments, k, steps[i].now)
  }

  predicate InTime(m: Assignments, k: Key, now: Time) {
    k in m && m[k].leaseUntil.Some? ==> now <= m[k].leaseUntil.value
  }

  /** A lease is exclusive while it lasts: in any run whose clocks stay at or before
      the lease end, renewed or not, its owner and generation stay until the claim
      itself gives it up or its assignment is cut over. */
  lemma {:induction false} LeaseIsExclusive(t: Tables, steps: seq<Step>, c: Claim)
    requires Inv(t) && Secured(t.assignments, c) && Punctual(t, steps, c.Key())
    requires forall i :: 0 <= i < |steps| ==> !EndsLease(steps[i], c)
    ensures Secured(Exec(t, steps).assignments, c)
  {
    hide Inv, Next, EndsLease;
    if steps != [] {
      var n := |steps| - 1;
      var front := steps[..n];
      forall i | 0 <= i < n ensures InTime(Exec(t, front[..i]).assignments, c.Key(), front[i].now) {
        assert front[..i] == steps[..i];
        assert InTime(Exec(t, steps[..i]).assignments, c.Key(), steps[i].now);
      }
      LeaseIsExclusive(t, front, c);
      ExecMonotone(t, front);
      assert InTime(Exec(t, steps[..n]).assignments, c.Key(), steps[n].now);
      LeaseExcludes(Exec(t, front), steps[n], c);
    }
  }

  /** Once the lease has ended by the time a transaction reads, nothing succeeds with it. */
  lemma ExpiredIsRefused(t: Tables, s: Step, c: Claim)
    requires Uses(s, c) && c.Key() in t.assignments
    requires t.assignments[c.Key()].leaseUntil.None? || t.assignments[c.Key()].leaseUntil.value <= s.now
    ensures Perform(t, s).reply.Refused? && Next(t, s) == t
  {
    hide ApplyTransitions, StaleCursor, ValidCommit, WithinAuthority, WriteEvaluation;
  }

  /** A claim of another revision neither commits nor defers. */
  lemma StaleRevisionIsRefused(t: Tables, s: Step)
    requires s.DeferStep? || s.CommitStep? || s.HistoricalStep?
    requires s.claim.Key() in t.assignments && t.assignments[s.claim.Key()].revision != s.claim.revision
    ensures Perform(t, s).reply.Refused? && Next(t, s) == t
  {
    hide ApplyTransitions, StaleCursor, ValidCommit, WithinAuthority, WriteEvaluation;
  }

  /** Past the end of authority plus the claim's grace a lease can no longer be
      renewed or deferred, and past the end itself it reconciles nothing. */
  lemma PastAuthorityIsRefused(t: Tables, s: Step)
    requires s.RenewStep? || s.DeferStep? || s.HistoricalStep?
    requires s.claim.Key() in t.assignments && t.assignments[s.claim.Key()].authorityUntil.Some?
    requires var until := t.assignments[s.claim.Key()].authorityUntil.value;
             if s.HistoricalStep? then until <= s.now else until + s.claim.grace < s.now
    ensures Perform(t, s).reply.Refused? && Next(t, s) == t
  {
    hide ApplyTransitions, StaleCursor, ValidCommit, WithinAuthority, WriteEvaluation;
  }

  // Everything but the claimed row is as it was.
  predicate OnlyRow(t: Tables, t': Tables, k: Key) {
    && k in t.assignments && k in t'.assignments
    && t' == t.(assignments := t.assignments[k := t'.assignments[k]])
  }

  /** A lease is renewed or given back exactly while it is held, unexpired and
      within grace, and only the named columns of its own row change. */
  lemma LeaseUseDecided(t: Tables, s: Step)
    requires s.RenewStep? || s.DeferStep?
    ensures var c, o := s.claim, Perform(t, s);
            && (o.reply == Done <==>
                 && c.Key() in t.assignments
                 && (if s.RenewStep? then s.extension > 0
                     else s.next != ZERO_TIME && t.assignments[c.Key()].revision == c.revision)
                 && var r := t.assignments[c.Key()];
                    IsCurrent(r.lifecycle) && r.leaseOwner == Some(c.worker) &&
                    r.leaseGeneration == c.leaseGeneration && r.leaseUntil.Some? && s.now < r.leaseUntil.value &&
                    r.authorityUntil.Some? && s.now <= r.authorityUntil.value + c.grace)
            && (o.reply == Done ==>
                 && OnlyRow(t, o.tables, c.Key())
                 && var r, r' := t.assignments[c.Key()], o.tables.assignments[c.Key()];
                    if s.RenewStep? then r' == r.(leaseUntil := Some(s.now + s.extension))
                    else r' == r.(leaseOwner := None, leaseUntil := None, nextEvaluationAt := s.next))
            && (o.reply != Done ==> o.tables == t)
  {
  }

  // ---------- delivery leases ----------

  predicate InDelivery(r: OutboxRow, now: Time) { r.leaseUntil.Some? && now <= r.leaseUntil.value }

  /** Claiming leaves a message exactly as it was while another publisher's lease on
      it lasts, before its next attempt, once delivered, or for another destination. */
  lemma ClaimSparesMessages(t: Tables, s: Step, o: OutboxId)
    requires s.OutboxClaimStep? && o in t.outbox
    requires || InDelivery(t.outbox[o], s.now) || s.now < t.outbox[o].nextAttemptAt || t.outbox[o].deliveredAt.Some?
             || DestinationOf(o) != s.destination
    ensures o in Next(t, s).outbox && Next(t, s).outbox[o] == t.outbox[o]
  {
    hide HeadOfLine, Blank;
    hide ValidOutboxClaim;
    ChosenIsClaimable(t.outbox, s.destination, s.worker, s.lease, s.limit, s.now, s.messages, o);
  }

  lemma ChosenIsClaimable(
    x: Outbox, d: Destination, worker: string, lease: int, limit: int, now: Time, chosen: set<OutboxId>, o: OutboxId)
    ensures ValidOutboxClaim(x, d, worker, lease, limit, now, chosen) && o in chosen ==> Claimable(x, o, d, now)
  {
  }

  /** A claimed message was due, undelivered, free and at the head of its line; it is
      then leased until now + lease with one more attempt, and otherwise unchanged. */
  lemma ClaimTakesMessage(t: Tables, s: Step, o: OutboxId)
    requires s.OutboxClaimStep? && Perform(t, s).reply == Done && o in s.messages
    ensures o in t.outbox && o in Next(t, s).outbox
    ensures var r, r' := t.outbox[o], Next(t, s).outbox[o];
      && DestinationOf(o) == s.destination && r.deliveredAt.None? && r.nextAttemptAt <= s.now && !InDelivery(r, s.now)
      && HeadOfLine(t.outbox, o)
      && r'.leaseOwner == Some(s.worker) && r'.leaseUntil == Some(s.now + s.lease)
      && r'.leaseGeneration == r.leaseGeneration + 1 && r'.attempts == r.attempts + 1
      && r' == r.(leaseOwner := r'.leaseOwner, leaseUntil := r'.leaseUntil, leaseGeneration := r'.leaseGeneration,
                  attempts := r'.attempts)
  {
    hide HeadOfLine, Blank;
    assert Claimable(t.outbox, o, s.destination, s.now);
  }

  /** A message is delivered or rescheduled exactly while its delivery lease is held
      and unexpired, and only its own row changes. */
  lemma DeliveryUseDecided(t: Tables, s: Step)
    requires s.DeliveredStep? || s.RetryStep?
    ensures var c, o := s.outboxClaim, Perform(t, s);
            && (o.reply == Done <==>
                 && c.id in t.outbox && (s.RetryStep? ==> s.failed && s.delay > 0)
                 && var r := t.outbox[c.id];
                    r.leaseOwner == Some(c.worker) && r.leaseGeneration == c.leaseGeneration &&
                    r.deliveredAt.None? && r.leaseUntil.Some? && s.now < r.leaseUntil.value)
            && (o.reply == Done ==>
                 && c.id in o.tables.outbox
                 && o.tables == t.(outbox := t.outbox[c.id := o.tables.outbox[c.id]])
                 && var r, r' := t.outbox[c.id], o.tables.outbox[c.id];
                    r'.payload == r.payload && r'.attempts == r.attempts && r'.leaseGeneration == r.leaseGeneration &&
                    r'.leaseOwner.None? && r'.leaseUntil.None? &&
                    (if s.RetryStep? then r'.deliveredAt.None? && r'.nextAttemptAt == s.now + s.delay
                     else r'.deliveredAt == Some(s.now) && r'.nextAttemptAt == r.nextAttemptAt))
            && (o.reply != Done ==> o.tables == t)
  {
  }

  /** A delivery lease that has ended by the time read delivers and reschedules nothing. */
  lemma ExpiredDeliveryIsRefused(t: Tables, s: Step, c: OutboxClaim)
    requires Publishing.Presents(s, c) && c.id in t.outbox
    requires t.outbox[c.id].leaseUntil.None? || t.outbox[c.id].leaseUntil.value <= s.now
    ensures Perform(t, s).reply.Refused? && Next(t, s) == t
  {
  }
}
