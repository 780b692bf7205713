/** Exactly which commands are accepted, what they do, and what every run keeps
    about assignment identity and notifications. */
module Acceptance {
  import opened Domain
  import opened Tables
  import opened Timeline
  import opened Evidence
  import opened Delivery
  import opened Runs
  import Fencing

  // ---------- identity ----------

  predicate SameIdentity(a: Assignment, b: Assignment) {
    a.aircraftId == b.aircraftId && a.flightId == b.flightId && a.intentId == b.intentId
  }

  /** All generations of one assignment speak of the same aircraft, flight and intent. */
  ghost predicate IdentityStable(m: Assignments) {
    forall j, k :: j in m && k in m && j.id == k.id ==> SameIdentity(m[j].spec, m[k].spec)
  }

  lemma WriteKeys(t: Tables, s: Step)
    requires s.CommitStep? || s.HistoricalStep?
    ensures forall k :: k in Next(t, s).assignments ==> k in t.assignments
  {
    hide WriteEvaluation, ValidCommit, WithinAuthority;
    if Perform(t, s).reply == Done {
      var k := s.claim.Key();
      if s.CommitStep? {
        var row := Advanced(Consumed(t.assignments[k], s.next));
        var rows := t.(assignments := t.assignments[k := row]);
        Fencing.WriteRows(rows, k, row.revision, s.evaluation, false, true, s.now);
      } else {
        var h := Key(s.claim.assignment.id, s.target);
        var m := t.assignments[k := Consumed(t.assignments[k], s.next)];
        var rows := t.(assignments := m[h := Advanced(m[h])]);
        Fencing.WriteRows(rows, h, Advanced(m[h]).revision, s.evaluation, true, false, s.now);
      }
    }
  }

  lemma CandidateKeys(t: Tables, s: Step)
    requires s.CandidateStep?
    ensures forall k :: k in Next(t, s).assignments ==> k in t.assignments
  {
    hide IsLatest, ValidCommand, CommandType, Notify;
    var h, e, m := Key(s.id, s.gen), CommandEnvelope(CommandType(s.command), s.id, s.gen, None), s.message;
    if h in t.assignments {
      var armed := t.assignments[h := t.assignments[h].(lifecycle := CandidateArmed)];
      Fencing.NotifyRows(t.(assignments := armed), Notice(m), m, e, s.now);
      var cancelled := t.assignments[h := Unleased(t.assignments[h]).(lifecycle := Cancelled)];
      Fencing.NotifyRows(t.(assignments := cancelled), Notice(m), m, e, s.now);
    }
  }

  lemma CutoverKeys(t: Tables, s: Step)
    requires s.CutoverStep?
    ensures forall k :: k in Next(t, s).assignments ==> k in t.assignments
  {
    hide CurrentOf, ValidCommand, Supported, Notify, CloseCurrent, Activated;
    var k, e, m := Key(s.id, s.gen), CutoverEnvelope(s.id, s.gen, s.at), s.message;
    CloseKeys(t, s.id, s.gen, s.at);
    var rows := CloseCurrent(t, s.id, s.gen, s.at);
    if k in t.assignments && rows.Ok? {
      var activated := rows.value[k := Activated(t.assignments[k], s.at, s.now)];
      Fencing.NotifyRows(t.(assignments := activated), Notice(m), m, e, s.now);
    }
  }

  lemma CloseKeys(t: Tables, id: string, gen: nat, at: Time)
    ensures CloseCurrent(t, id, gen, at).Ok? ==> CloseCurrent(t, id, gen, at).value.Keys == t.assignments.Keys
  {
    hide CurrentOf;
    if CurrentOf(t.assignments, id).Some? { CurrentOfIs(t.assignments, id); }
  }

  lemma LeaseKeys(t: Tables, s: Step)
    requires s.ClaimStep? || s.RenewStep? || s.DeferStep?
    ensures forall k :: k in Next(t, s).assignments ==> k in t.assignments
  {
    hide ValidClaim, WithinGrace, Unexpired;
  }

  // Only preparation adds a generation.
  lemma OnlyPreparationAdds(t: Tables, s: Step, k: Key)
    requires !s.PrepareStep? && k in Next(t, s).assignments
    ensures k in t.assignments
  {
    hide Next;
    match s
    case CandidateStep(_, _, _, _, _) => CandidateKeys(t, s);
    case CutoverStep(_, _, _, _, _) => CutoverKeys(t, s);
    case CommitStep(_, _, _, _) => WriteKeys(t, s);
    case HistoricalStep(_, _, _, _, _) => WriteKeys(t, s);
    case OutboxClaimStep(_, _, _, _, _, _) => OutboxKeys(t, s);
    case DeliveredStep(_, _) => OutboxKeys(t, s);
    case RetryStep(_, _, _, _) => OutboxKeys(t, s);
    case _ => LeaseKeys(t, s);
  }

  lemma OutboxKeys(t: Tables, s: Step)
    requires s.OutboxClaimStep? || s.DeliveredStep? || s.RetryStep?
    ensures Next(t, s).assignments == t.assignments
  {
    hide ClaimOutbox, MarkDelivered, Retry;
    match s
    case OutboxClaimStep(d, w, lease, limit, now, chosen) =>
      Fencing.OutboxClaimRows(t, d, w, lease, limit, now, chosen);
    case DeliveredStep(c, now) => Fencing.DeliveredRows(t, c, now);
    case RetryStep(c, delay, failed, now) => Fencing.RetryRows(t, c, delay, failed, now);
  }

  // What preparation does to the rows.
  lemma PrepareRows(t: Tables, m: MessageId, mt: string, a: Assignment, now: Time, k: Key)
    requires k in Prepare(t, m, mt, a, now).tables.assignments && k !in t.assignments
    ensures k == KeyOf(a) && Prepare(t, m, mt, a, now).tables.assignments[k].spec == a
    ensures var l := Latest(t.assignments, a.id); l.None? || SameIdentity(t.assignments[l.value].spec, a)
  {
    hide Latest, ValidPrepare, ApplyPrepare;
    ApplyRows(t, m, PrepareEnvelope(mt, a), a, now, k);
    var l := Latest(t.assignments, a.id);
    if l.Some? { LatestIsKnown(t.assignments, a.id); }
  }

  lemma LatestIsKnown(m: Assignments, id: string)
    requires Latest(m, id).Some?
    ensures IsLatest(m, Latest(m, id).value) && Latest(m, id).value.id == id
  {
  }

  lemma ApplyRows(t: Tables, m: MessageId, e: Envelope, a: Assignment, now: Time, k: Key)
    ensures var rows := ApplyPrepare(t, m, e, a, now).tables.assignments;
            k in rows && k !in t.assignments ==> k == KeyOf(a) && rows[k].spec == a
  {
    hide Notify;
    var rows := SupersedeCandidates(t.assignments, a.id)[KeyOf(a) := NewRow(a, now)];
    Fencing.NotifyRows(t.(assignments := rows), Receipt(m), m, e, now);
  }

  lemma IdentityKept(t: Tables, s: Step)
    requires Inv(t) && IdentityStable(t.assignments)
    ensures IdentityStable(Next(t, s).assignments)
  {
    hide Inv, Next, EventsKept, Delivered, SameIdentity, Latest;
    var m, m' := t.assignments, Next(t, s).assignments;
    NextKeeps(t, s);
    forall k | k in m ensures k in m' && m'[k].spec == m[k].spec { assert RowAdvances(m[k], m'[k]); }
    forall j, k | j in m' && k in m' && j.id == k.id ensures SameIdentity(m'[j].spec, m'[k].spec) {
      if j !in m { NewIdentity(t, s, j, k); } else if k !in m { NewIdentity(t, s, k, j); }
      IdentitySymmetric(m'[j].spec, m'[k].spec);
    }
  }

  lemma IdentitySymmetric(a: Assignment, b: Assignment)
    ensures SameIdentity(a, b) == SameIdentity(b, a)
  {
  }

  lemma NewIdentity(t: Tables, s: Step, j: Key, k: Key)
    requires Inv(t) && IdentityStable(t.assignments) && j.id == k.id
    requires j in Next(t, s).assignments && j !in t.assignments && k in Next(t, s).assignments
    ensures SameIdentity(Next(t, s).assignments[j].spec, Next(t, s).assignments[k].spec)
  {
    hide Inv, Prepare, EventsKept, Delivered, Latest;
    if !s.PrepareStep? { OnlyPreparationAdds(t, s, j); }
    var a := s.assignment;
    PrepareRows(t, s.message, s.messageType, a, s.now, j);
    if k in t.assignments {
      NextKeeps(t, s);
      assert RowAdvances(t.assignments[k], Next(t, s).assignments[k]);
      LatestExists(t.assignments, k, t.assignments.Keys);
      LatestIsKnown(t.assignments, a.id);
    } else {
      PrepareRows(t, s.message, s.messageType, a, s.now, k);
    }
  }

  /** Over every run an assignment keeps its aircraft, flight and intent. */
  lemma {:induction false} IdentityIsStable(steps: seq<Step>)
    ensures IdentityStable(Exec(EMPTY, steps).assignments)
  {
    hide Next, IdentityStable;
    if steps == [] {
      NothingUnstable();
    } else {
      IdentityIsStable(steps[..|steps| - 1]);
      RunsKeep(steps[..|steps| - 1]);
      IdentityKept(Exec(EMPTY, steps[..|steps| - 1]), steps[|steps| - 1]);
    }
  }

  lemma NothingUnstable()
    ensures IdentityStable(map[])
  {
  }

  // ---------- preparation ----------

  // No generation of the assignment is above g.
  ghost predicate NoneAbove(m: Assignments, id: string, g: nat) {
    forall k :: k in m && k.id == id ==> k.gen <= g
  }

  /** The answer to a valid preparation under a new message identity: stale below a
      known generation, idempotent for the newest one word for word, applied above
      all of them with the same identity, and otherwise a conflict. */
  lemma PreparationDecided(t: Tables, m: MessageId, mt: string, a: Assignment, now: Time)
    requires Inv(t) && IdentityStable(t.assignments) && ValidPrepare(m, mt, a) && m !in t.inbox
    ensures Prepare(t, m, mt, a, now).reply ==
              if !NoneAbove(t.assignments, a.id, a.generation) then Accepted(Stale)
              else if KeyOf(a) in t.assignments then
                if t.assignments[KeyOf(a)].spec == a then Accepted(Idempotent) else Refused(MessageConflict)
              else if forall k :: k in t.assignments && k.id == a.id ==> SameIdentity(t.assignments[k].spec, a)
              then Accepted(Applied) else Refused(MessageConflict)
  {
    hide Inv, Latest, ValidPrepare, ApplyPrepare, Generations;
    var rows, l := t.assignments, Latest(t.assignments, a.id);
    PreparationApplies(t, m, mt, a, now);
    if l.None? {
      AboveAll(rows, a);
      NoneKnown(rows, a.id);
    } else {
      LatestIsKnown(rows, a.id);
      LatestBounds(rows, l.value);
      if l.value.gen < a.generation { AboveAll(rows, a); }
    }
  }

  lemma NoneKnown(m: Assignments, id: string)
    requires Latest(m, id).None?
    ensures forall k :: k in m ==> k.id != id
  {
    hide Latest;
    if k :| k in m && k.id == id { LatestExists(m, k, m.Keys); }
  }

  lemma LatestBounds(m: Assignments, l: Key)
    requires IsLatest(m, l)
    ensures l in m && forall k :: k in m && k.id == l.id ==> k.gen <= l.gen
  {
    forall k | k in m && k.id == l.id ensures k.gen <= l.gen { assert k.gen in Generations(m, l.id); }
  }

  lemma PreparationApplies(t: Tables, m: MessageId, mt: string, a: Assignment, now: Time)
    requires Inv(t) && ValidPrepare(m, mt, a) && m !in t.inbox
    ensures var l := Latest(t.assignments, a.id);
            l.None? || l.value.gen < a.generation ==>
                ApplyPrepare(t, m, PrepareEnvelope(mt, a), a, now).reply == Accepted(Applied)
  {
    hide Inv, Monotone, Latest, Notify, SupersedeCandidates, Generations;
    var e, l := PrepareEnvelope(mt, a), Latest(t.assignments, a.id);
    if l.None? || l.value.gen < a.generation {
      AboveAll(t.assignments, a);
      assert Tiled(t.assignments) by { ApplyInv(t); }
      PrepareKeeps(t.assignments, a, now);
      PrepareEvidence(t, a, now);
      var rows := SupersedeCandidates(t.assignments, a.id)[KeyOf(a) := NewRow(a, now)];
      CommandKeeps(t, rows, Receipt(m), m, e, now);
      NotifyReplies(t.(assignments := rows), Receipt(m), m, e, now);
    }
  }

  lemma NotifyReplies(t: Tables, o: OutboxId, m: MessageId, e: Envelope, now: Time)
    ensures var r := Notify(t, o, m, e, now).reply; r.Refused? || r == Accepted(Applied)
  {
  }

  // ---------- candidates ----------

  /** The answer to a valid arming or cancelling command under a new message
      identity, and the one row it moves. */
  lemma CandidateDecided(t: Tables, m: MessageId, c: CandidateCommand, id: string, gen: nat, now: Time)
    requires Inv(t) && ValidCommand(m, id, gen) && m !in t.inbox
    ensures var k, o := Key(id, gen), TransitionCandidate(t, m, c, id, gen, now);
      && o.reply == (if k !in t.assignments then Refused(InvalidTransition)
                     else if !NoneAbove(t.assignments, id, gen) then Refused(StaleAssignment)
                     else if if c == Arm then t.assignments[k].lifecycle == CandidateReceived
                             else IsCandidate(t.assignments[k].lifecycle)
                     then Accepted(Applied) else Refused(InvalidTransition))
      && (o.reply == Accepted(Applied) ==>
            && k in o.tables.assignments && o.tables.assignments[k].authorityFrom.None?
            && o.tables.assignments[k].lifecycle == (if c == Arm then CandidateArmed else Cancelled)
            && forall j :: j in t.assignments && j != k ==>
                 j in o.tables.assignments && o.tables.assignments[j] == t.assignments[j])
  {
    hide Inv, ValidCommand, CommandType, Notify, Monotone, IsLatest;
    var k, e := Key(id, gen), CommandEnvelope(CommandType(c), id, gen, None);
    if k in t.assignments {
      LatestIsNoneAbove(t.assignments, k);
      if IsCandidate(t.assignments[k].lifecycle) {
        CandidateUnauthorized(t, k);
        var armed := t.assignments[k].(lifecycle := CandidateArmed);
        var cancelled := Unleased(t.assignments[k]).(lifecycle := Cancelled);
        CandidateApplied(t, k, armed, Notice(m), m, e, now);
        CandidateApplied(t, k, cancelled, Notice(m), m, e, now);
        NotifyReplies(t.(assignments := t.assignments[k := armed]), Notice(m), m, e, now);
        NotifyReplies(t.(assignments := t.assignments[k := cancelled]), Notice(m), m, e, now);
        Fencing.NotifyRows(t.(assignments := t.assignments[k := armed]), Notice(m), m, e, now);
        Fencing.NotifyRows(t.(assignments := t.assignments[k := cancelled]), Notice(m), m, e, now);
      }
    }
  }

  lemma LatestIsNoneAbove(m: Assignments, k: Key)
    requires k in m
    ensures IsLatest(m, k) <==> NoneAbove(m, k.id, k.gen)
  {
    if IsLatest(m, k) { LatestBounds(m, k); }
  }

  lemma CandidateUnauthorized(t: Tables, k: Key)
    requires Inv(t) && k in t.assignments && IsCandidate(t.assignments[k].lifecycle)
    ensures t.assignments[k].authorityFrom.None?
  {
    hide Recorded, InOrder, InboxOk, OneCurrent, CandidateHighest, Ordered, Chained, CurrentLast;
    assert RowOk(k, t.assignments[k]);
  }

  // ---------- cutover ----------

  // The current generation, if any, may be closed at this time.
  ghost predicate MayClose(t: Tables, id: string, gen: nat, at: Time) {
    forall c :: c in t.assignments && c.id == id && IsCurrent(t.assignments[c].lifecycle) ==>
      && c.gen < gen && t.assignments[c].authorityFrom.Some? && t.assignments[c].authorityUntil.Some?
      && t.assignments[c].authorityFrom.value < at <= t.assignments[c].authorityUntil.value
      && (c in t.summaries ==> t.summaries[c].evaluation.observedAt < at)
  }

  /** A valid cutover under a new message identity is applied exactly when the
      candidate is armed, the time is not in the database's future and inside the
      candidate's window, and the current generation is older, covers that time and
      has no evidence at or after it. The new generation is then due at once, unleased. */
  lemma CutoverDecided(t: Tables, m: MessageId, id: string, gen: nat, at: Time, now: Time)
    requires Inv(t) && ValidCommand(m, id, gen) && !IsZero(at) && Supported(at) && m !in t.inbox
    ensures var k, o := Key(id, gen), Cutover(t, m, id, gen, at, now);
      && (o.reply == Accepted(Applied) <==>
            && at <= now && k in t.assignments && t.assignments[k].lifecycle == CandidateArmed
            && t.assignments[k].spec.effectiveFrom <= at < t.assignments[k].spec.effectiveUntil
            && MayClose(t, id, gen, at))
      && (o.reply != Accepted(Applied) ==> o.reply.Refused? && o.tables == t)
      && (o.reply == Accepted(Applied) ==>
            && k in o.tables.assignments && o.tables.assignments[k].lifecycle == Active
            && o.tables.assignments[k].authorityFrom == Some(at)
            && o.tables.assignments[k].nextEvaluationAt == now && o.tables.assignments[k].leaseOwner.None?
            && o.tables.assignments[k].leaseUntil.None?)
  {
    hide Inv, ValidCommand, Notify, Monotone, Supported, CurrentOf, Closed;
    var k, e := Key(id, gen), CutoverEnvelope(id, gen, at);
    ClosingDecided(t, id, gen, at);
    var rows := CloseCurrent(t, id, gen, at);
    if MayActivate(t.assignments, k, at, now) && rows.Ok? {
      var activated := rows.value[k := Activated(t.assignments[k], at, now)];
      CutoverApplies(t, m, id, gen, at, now);
      NotifyReplies(t.(assignments := activated), Notice(m), m, e, now);
      Fencing.NotifyRows(t.(assignments := activated), Notice(m), m, e, now);
    }
  }

  lemma ClosingDecided(t: Tables, id: string, gen: nat, at: Time)
    requires Inv(t)
    ensures CloseCurrent(t, id, gen, at).Ok? <==> MayClose(t, id, gen, at)
  {
    hide Recorded, InOrder, InboxOk, CandidateHighest, Ordered, Chained, CurrentLast, RowOk;
    if CurrentOf(t.assignments, id).Some? {
      var c := CurrentOf(t.assignments, id).value;
      assert IsCurrentOf(t.assignments, id, c);
      forall d | d in t.assignments && d.id == id && IsCurrent(t.assignments[d].lifecycle) ensures d == c {}
    } else {
      forall d | d in t.assignments && d.id == id ensures !IsCurrent(t.assignments[d].lifecycle) {
        assert !IsCurrentOf(t.assignments, id, d);
      }
    }
  }

  // A cutover that may close and activate is never refused by its notification.
  lemma CutoverApplies(t: Tables, m: MessageId, id: string, gen: nat, at: Time, now: Time)
    requires Inv(t) && m !in t.inbox && Supported(at) && MayActivate(t.assignments, Key(id, gen), at, now)
    requires CloseCurrent(t, id, gen, at).Ok?
    ensures var rows :=
              CloseCurrent(t, id, gen, at).value[Key(id, gen) := Activated(t.assignments[Key(id, gen)], at, now)];
            !Notify(t.(assignments := rows), Notice(m), m, CutoverEnvelope(id, gen, at), now).reply.Refused?
  {
    hide Inv, Notify, Monotone, Supported, CurrentOf, Activated, Closed;
    var k, e := Key(id, gen), CutoverEnvelope(id, gen, at);
    if CurrentOf(t.assignments, id).None? {
      ActivateApplied(t, k, at, m, e, now);
    } else {
      CurrentOfIs(t.assignments, id);
      CutApplied(t, CurrentOf(t.assignments, id).value, k, at, m, e, now);
    }
  }

  // ---------- notifications ----------

  /** Over every run, exactly the applied commands are notified, each with its own
      envelope: preparations by a receipt, lifecycle commands by a notice. */
  lemma NotificationsMatchCommands(steps: seq<Step>, o: OutboxId)
    requires !o.Registry?
    ensures var t := Exec(EMPTY, steps);
      && (o in t.outbox <==> o.message in t.inbox && t.inbox[o.message].disposition == Applied &&
                             (o.Receipt? <==> t.inbox[o.message].envelope.PrepareEnvelope?))
      && (o in t.outbox ==> t.outbox[o].payload == CommandPayload(t.inbox[o.message].envelope))
  {
    hide Tiled, Recorded, InOrder;
    RunsKeep(steps);
    var t := Exec(EMPTY, steps);
    assert !IsRegistry(o);
    if o.message in t.inbox && t.inbox[o.message].disposition == Applied {
      assert NotificationOf(o.message, t.inbox[o.message].envelope) in t.outbox;
    }
  }
}
