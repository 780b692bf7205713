/** The store itself: every method is one transaction that updates the tables in
    place, proved equal to its effect on the tables and to keep every invariant. */
module Store {
  import opened Domain
  import opened Spec = Tables
  import opened Timeline
  import EvidenceTables = Evidence
  import opened Delivery
  import opened Runs
  import opened Worker

  class Store {
    var assignments: Assignments
    var inbox: map<MessageId, InboxRow>
    var checkpoints: Checkpoints
    var summaries: map<Key, Summary>
    var incidents: Incidents
    var events: Events
    var outbox: Outbox

    function View(): Spec.Tables
      reads this
    {
      Spec.Tables.Tables(assignments, inbox, checkpoints, summaries, incidents, events, outbox)
    }

    /** Everything that Runs proves of every reachable store. */
    ghost predicate Valid()
      reads this
    {
      Inv(View())
    }

    constructor ()
      ensures Valid() && View() == EMPTY
    {
      assignments, inbox, checkpoints, summaries := map[], map[], map[], map[];
      incidents, events, outbox := map[], map[], map[];
      new;
      RunsKeep([]);
    }

    // A transaction that fails is rolled back to what it began with.
    method Rollback(t: Spec.Tables)
      modifies this
      ensures View() == t
    {
      assignments, inbox, checkpoints, summaries := t.assignments, t.inbox, t.checkpoints, t.summaries;
      incidents, events, outbox := t.incidents, t.events, t.outbox;
    }

    // ---------- queries ----------

    /** ORDER BY assignment_generation DESC LIMIT 1. */
    method LatestGeneration(id: string) returns (latest: Option<Key>)
      ensures latest == Latest(assignments, id)
    {
      latest := None;
      var rest := assignments.Keys;
      while rest != {}
        invariant rest <= assignments.Keys
        invariant latest.None? ==> forall k :: k in assignments.Keys - rest ==> k.id != id
        invariant latest.Some? ==> latest.value in assignments && latest.value.id == id &&
                                   forall k :: k in assignments.Keys - rest && k.id == id ==> k.gen <= latest.value.gen
        decreases rest
      {
        var k :| k in rest;
        rest := rest - {k};
        if k.id == id && (latest.None? || latest.value.gen < k.gen) { latest := Some(k); }
      }
      LatestIs(assignments, id, latest);
    }

    /** The row whose lifecycle is active or ending. */
    method CurrentGeneration(id: string) returns (current: Option<Key>)
      requires OneCurrent(assignments)
      ensures current == CurrentOf(assignments, id)
    {
      current := None;
      var rest := assignments.Keys;
      while rest != {} && current.None?
        invariant rest <= assignments.Keys
        invariant current.None? ==> forall k :: k in assignments.Keys - rest ==> !IsCurrentOf(assignments, id, k)
        invariant current.Some? ==> IsCurrentOf(assignments, id, current.value)
        decreases rest
      {
        var k :| k in rest;
        rest := rest - {k};
        if k.id == id && IsCurrent(assignments[k].lifecycle) { current := Some(k); }
      }
      CurrentIs(assignments, id, current);
    }

    /** ORDER BY evaluation_revision DESC LIMIT 1. */
    method NewestRevision(k: Key) returns (newest: Option<nat>)
      ensures newest == Newest(checkpoints, k)
    {
      newest := None;
      var rest := checkpoints.Keys;
      while rest != {}
        invariant rest <= checkpoints.Keys
        invariant newest.None? ==> forall r :: r in checkpoints.Keys - rest ==> r.key != k
        invariant newest.Some? ==> RevisionKey(k, newest.value) in checkpoints &&
                                   forall r :: r in checkpoints.Keys - rest && r.key == k ==> r.revision <= newest.value
        decreases rest
      {
        var r :| r in rest;
        rest := rest - {r};
        if r.key == k && (newest.None? || newest.value < r.revision) { newest := Some(r.revision); }
      }
      NewestIs(checkpoints, k, newest);
    }

    /** ResolveAssignmentAt: the unique generation that authorizes the event time. */
    method ResolveAssignmentAt(id: string, t: Time) returns (r: Result<Option<Key>, StoreError>)
      requires Valid()
      ensures r.Err? <==> !Supported(t)
      ensures r.Ok? && r.value.Some? ==>
                r.value.value in assignments && r.value.value.id == id && Authorizes(assignments[r.value.value], t) &&
                forall k :: k in assignments && k.id == id && Authorizes(assignments[k], t) ==> k == r.value.value
      ensures r.Ok? && r.value.None? ==> forall k :: k in assignments && k.id == id ==> !Authorizes(assignments[k], t)
    {
      hide Tiled, EvidenceTables.Recorded, InOrder, InboxOk;
      if !Supported(t) { return Err(InvalidCommand); }
      var best := None;
      var rest := assignments.Keys;
      while rest != {}
        invariant rest <= assignments.Keys
        invariant best.None? ==>
                    forall k :: k in assignments.Keys - rest && k.id == id ==> !Authorizes(assignments[k], t)
        invariant best.Some? ==>
                    best.value in assignments && best.value.id == id && Authorizes(assignments[best.value], t)
        decreases rest
      {
        var k :| k in rest;
        rest := rest - {k};
        if k.id == id && Authorizes(assignments[k], t) &&
           (best.None? || assignments[best.value].authorityFrom.value < assignments[k].authorityFrom.value) {
          best := Some(k);
        }
      }
      if best.Some? {
        forall k | k in assignments && k.id == id && Authorizes(assignments[k], t) ensures k == best.value {
          NoOverlap(assignments, k, best.value, t);
        }
      }
      return Ok(best);
    }

    /** GetReplayCheckpoint: the newest cursor at or before the boundary. */
    method GetReplayCheckpoint(k: Key, atOrBefore: Time) returns (found: Option<nat>)
      ensures IsReplayCheckpoint(checkpoints, k, atOrBefore, found)
    {
      hide CursorLess;
      found := None;
      var rest := checkpoints.Keys;
      while rest != {}
        invariant rest <= checkpoints.Keys
        invariant found.None? ==>
                    forall r :: r in checkpoints.Keys - rest && r.key == k ==> atOrBefore < checkpoints[r].cursor.at
        invariant found.Some? ==>
          && RevisionKey(k, found.value) in checkpoints
          && checkpoints[RevisionKey(k, found.value)].cursor.at <= atOrBefore
          && forall r :: r in checkpoints.Keys - rest && r.key == k && checkpoints[r].cursor.at <= atOrBefore ==>
               CursorAtMost(checkpoints[r].cursor, checkpoints[RevisionKey(k, found.value)].cursor)
        decreases rest
      {
        var r :| r in rest;
        rest := rest - {r};
        if r.key == k && checkpoints[r].cursor.at <= atOrBefore {
          if found.None? {
            found := Some(r.revision);
          } else {
            var best := checkpoints[RevisionKey(k, found.value)].cursor;
            if CompareCursor(best, checkpoints[r].cursor) < 0 {
              forall q | q in checkpoints.Keys - rest && q.key == k && checkpoints[q].cursor.at <= atOrBefore
                ensures CursorAtMost(checkpoints[q].cursor, checkpoints[r].cursor)
              {
                if q != r { CursorAtMostTransitive(checkpoints[q].cursor, best, checkpoints[r].cursor); }
              }
              found := Some(r.revision);
            }
          }
        }
      }
    }

    // ---------- commands ----------

    // Inserts the inbox row and the API notification of an applied command.
    method RecordApplied(o: OutboxId, m: MessageId, e: Envelope, now: Time) returns (reply: Reply)
      modifies this
      ensures Outcome(View(), reply) == Notify(old(View()), o, m, e, now)
    {
      if o in outbox { return Refused(IntegrityViolation); }
      inbox := inbox[m := InboxRow(e, Applied)];
      outbox := outbox[o := QueuedRow(CommandPayload(e), now)];
      return Accepted(Applied);
    }

    // Writes the new rows of a command with its inbox row and notification, or nothing.
    method Install(rows: Assignments, o: OutboxId, m: MessageId, e: Envelope, now: Time) returns (reply: Reply)
      modifies this
      ensures Outcome(View(), reply) == Committed(old(View()), Notify(old(View()).(assignments := rows), o, m, e, now))
    {
      hide Notify;
      var begun := View();
      assignments := rows;
      reply := RecordApplied(o, m, e, now);
      if reply.Refused? { Rollback(begun); }
    }

    // Replaces a waiting candidate and inserts the new generation.
    method InsertCandidate(m: MessageId, e: Envelope, a: Assignment, now: Time) returns (reply: Reply)
      modifies this
      ensures Outcome(View(), reply) == ApplyPrepare(old(View()), m, e, a, now)
    {
      hide Notify, Committed;
      var rows := SupersedeCandidates(assignments, a.id);
      rows := rows[KeyOf(a) := NewRow(a, now)];
      reply := Install(rows, Receipt(m), m, e, now);
    }

    // Inserts the inbox row of a command that changes nothing else.
    method RecordOnly(m: MessageId, e: Envelope, d: Disposition)
      modifies this
      ensures View() == Record(old(View()), m, e, d)
    {
      inbox := inbox[m := InboxRow(e, d)];
    }

    method PrepareAssignment(m: MessageId, messageType: string, a: Assignment, now: Time) returns (reply: Reply)
      requires Valid()
      modifies this
      ensures Valid() && Outcome(View(), reply) == Prepare(old(View()), m, messageType, a, now)
    {
      hide Inv, ValidPrepare, Latest, ApplyPrepare, Monotone, Record;
      PrepareStepKeeps(View(), m, messageType, a, now);
      if !ValidPrepare(m, messageType, a) { return Refused(InvalidCommand); }
      var e := PrepareEnvelope(messageType, a);
      if m in inbox {
        if inbox[m].envelope != e { return Refused(MessageConflict); }
        return Accepted(if inbox[m].disposition == Stale then Stale else Idempotent);
      }
      var latest := LatestGeneration(a.id);
      if latest.Some? {
        LatestFound(assignments, a.id);
        var known := assignments[latest.value].spec;
        if a.generation < latest.value.gen {
          RecordOnly(m, e, Stale);
          return Accepted(Stale);
        }
        if a.generation == latest.value.gen {
          if a != known { return Refused(MessageConflict); }
          RecordOnly(m, e, Idempotent);
          return Accepted(Idempotent);
        }
        if a.aircraftId != known.aircraftId || a.flightId != known.flightId || a.intentId != known.intentId {
          return Refused(MessageConflict);
        }
      }
      reply := InsertCandidate(m, e, a, now);
    }

    method TransitionCandidate(m: MessageId, c: CandidateCommand, id: string, gen: nat, now: Time)
      returns (reply: Reply)
      requires Valid()
      modifies this
      ensures Valid() && Outcome(View(), reply) == Spec.TransitionCandidate(old(View()), m, c, id, gen, now)
    {
      hide Inv, ValidCommand, Notify, Committed, Monotone, Latest;
      CandidateStepKeeps(View(), m, c, id, gen, now);
      var k, e := Key(id, gen), CommandEnvelope(CommandType(c), id, gen, None);
      if !ValidCommand(m, id, gen) { return Refused(InvalidCommand); }
      if m in inbox {
        if inbox[m].envelope != e { return Refused(MessageConflict); }
        if k !in assignments { return Refused(InvalidTransition); }
        return Accepted(Idempotent);
      }
      if k !in assignments { return Refused(InvalidTransition); }
      var latest := LatestGeneration(id);
      LatestDecides(assignments, k);
      if latest != Some(k) { return Refused(StaleAssignment); }
      var rows, row := assignments, assignments[k];
      if c == Arm && row.lifecycle == CandidateReceived {
        rows := rows[k := row.(lifecycle := CandidateArmed)];
      } else if c == Cancel && IsCandidate(row.lifecycle) {
        rows := rows[k := Unleased(row).(lifecycle := Cancelled)];
      } else {
        return Refused(InvalidTransition);
      }
      reply := Install(rows, Notice(m), m, e, now);
    }

    // The rows with the current interval closed, or why it may not be.
    method CloseCurrentGeneration(id: string, gen: nat, at: Time) returns (r: Result<Assignments, StoreError>)
      requires Valid()
      ensures r == CloseCurrent(View(), id, gen, at)
    {
      hide Inv, CurrentOf, Closed;
      CurrentUnique(View());
      var current := CurrentGeneration(id);
      if current.None? { return Ok(assignments); }
      CurrentOfIs(assignments, id);
      var c := current.value;
      var was := assignments[c];
      if was.authorityFrom.None? || was.authorityUntil.None? { return Err(IntegrityViolation); }
      if c.gen >= gen || at <= was.authorityFrom.value || at > was.authorityUntil.value { return Err(StaleAssignment); }
      if c in summaries && summaries[c].evaluation.observedAt >= at { return Err(InvalidTransition); }
      return Ok(assignments[c := Closed(was, at)]);
    }

    method CutoverAssignment(m: MessageId, id: string, gen: nat, at: Time, now: Time) returns (reply: Reply)
      requires Valid()
      modifies this
      ensures Valid() && Outcome(View(), reply) == Cutover(old(View()), m, id, gen, at, now)
    {
      hide Inv, ValidCommand, Notify, Committed, Monotone, CloseCurrent, Supported, Activated, CutoverEnvelope;
      CutoverStepKeeps(View(), m, id, gen, at, now);
      var k, e := Key(id, gen), CutoverEnvelope(id, gen, at);
      if !ValidCommand(m, id, gen) || IsZero(at) || !Supported(at) { return Refused(InvalidCommand); }
      if m in inbox {
        if inbox[m].envelope != e { return Refused(MessageConflict); }
        if k !in assignments { return Refused(InvalidTransition); }
        return Accepted(Idempotent);
      }
      if at > now || k !in assignments || assignments[k].lifecycle != CandidateArmed {
        return Refused(InvalidTransition);
      }
      var row := assignments[k];
      if at < row.spec.effectiveFrom || at >= row.spec.effectiveUntil { return Refused(InvalidTransition); }
      var rows := CloseCurrentGeneration(id, gen, at);
      if rows.Err? { return Refused(rows.error); }
      reply := Install(rows.value[k := Activated(row, at, now)], Notice(m), m, e, now);
    }

    // ---------- leases ----------

    // ORDER BY next_evaluation_at.
    method EarliestDue(due: set<Key>) returns (first: Key)
      requires due != {} && due <= assignments.Keys
      ensures first in due && forall k :: k in due ==>
                assignments[first].nextEvaluationAt <= assignments[k].nextEvaluationAt
    {
      first :| first in due;
      var rest := due - {first};
      while rest != {}
        invariant first in due && rest <= due
        invariant forall k :: k in due - rest ==> assignments[first].nextEvaluationAt <= assignments[k].nextEvaluationAt
        decreases rest
      {
        var k :| k in rest;
        rest := rest - {k};
        if assignments[k].nextEvaluationAt < assignments[first].nextEvaluationAt { first := k; }
      }
    }

    // The rows the claim query selects: earliest due first, skipping rows locked by others.
    method SelectDue(grace: int, limit: nat, now: Time, locked: set<Key>) returns (chosen: set<Key>)
      ensures |chosen| <= limit && forall k :: k in chosen ==>
                k in assignments && k !in locked && Due(assignments[k], grace, now)
      ensures EarliestFirst(assignments, grace, limit, now, locked, chosen)
      ensures forall k :: k in chosen ==> Free(assignments[k], now) && assignments[k].nextEvaluationAt <= now
    {
      hide Due, EarliestFirst;
      var rest := set k | k in assignments && k !in locked && Due(assignments[k], grace, now);
      ghost var due := rest;
      chosen := {};
      while |chosen| < limit && rest != {}
        invariant chosen + rest == due && chosen !! rest && |chosen| <= limit
        invariant forall c, k :: c in chosen && k in rest ==>
                    assignments[c].nextEvaluationAt <= assignments[k].nextEvaluationAt
        decreases rest
      {
        var k := EarliestDue(rest);
        chosen, rest := chosen + {k}, rest - {k};
      }
      DueSplit(assignments, grace, limit, now, locked, chosen, rest);
      forall k | k in chosen ensures Free(assignments[k], now) && assignments[k].nextEvaluationAt <= now {
        DueIsCurrent(assignments[k], grace, now);
      }
    }

    // Takes the lease of every chosen row; RETURNING the claims.
    method LeaseRows(worker: string, lease: int, grace: int, now: Time, chosen: set<Key>) returns (claims: set<Claim>)
      requires forall k :: k in chosen ==>
                 k in assignments && HasAuthority(assignments[k]) && KeyOf(assignments[k].spec) == k &&
                 IsCurrent(assignments[k].lifecycle)
      modifies this`assignments
      ensures assignments == map k | k in old(assignments) ::
                if k in chosen then Leased(old(assignments)[k], worker, lease, now) else old(assignments)[k]
      ensures OneClaimEach(assignments, claims, chosen)
    {
      assignments := map k | k in assignments :: if k in chosen then Leased(assignments[k], worker, lease, now)
        else assignments[k];
      claims := set k | k in chosen :: ClaimOf(assignments[k], worker, grace);
      forall k | k in chosen ensures exists c :: c in claims && c.Key() == k {
        assert ClaimOf(assignments[k], worker, grace) in claims;
      }
    }

    method ClaimDueAssignments(worker: string, lease: int, grace: int, limit: int, now: Time, locked: set<Key>)
      returns (reply: Reply, claims: set<Claim>, chosen: set<Key>)
      requires Valid()
      modifies this
      ensures Valid() && Outcome(View(), reply) == ClaimDue(old(View()), worker, lease, grace, limit, now, chosen)
      ensures reply.Refused? <==> worker == "" || lease <= 0 || grace < 0 || limit < 1
      ensures OneClaimEach(assignments, claims, chosen)
      ensures reply == Done ==> EarliestFirst(old(assignments), grace, limit, now, locked, chosen)
      ensures forall k :: k in chosen ==>
                k in old(assignments) && Free(old(assignments)[k], now) && old(assignments)[k].nextEvaluationAt <= now
      ensures forall k :: k in old(assignments) && k !in chosen ==>
                k in assignments && assignments[k] == old(assignments)[k]
    {
      hide Inv, Monotone, Leased, EarliestFirst, Due, OneClaimEach, Free;
      if worker == "" || lease <= 0 || grace < 0 || limit < 1 {
        NothingClaimed(assignments);
        return Refused(InvalidCommand), {}, {};
      }
      chosen := SelectDue(grace, limit, now, locked);
      ClaimStepKeeps(View(), worker, lease, grace, limit, now, chosen);
      forall k | k in chosen
        ensures HasAuthority(assignments[k]) && KeyOf(assignments[k].spec) == k && IsCurrent(assignments[k].lifecycle)
      {
        DueIsCurrent(assignments[k], grace, now);
        CurrentHasAuthority(View(), k);
      }
      claims := LeaseRows(worker, lease, grace, now, chosen);
      reply := Done;
    }

    method RenewAssignmentLease(c: Claim, extension: int, now: Time) returns (reply: Reply)
      requires Valid()
      modifies this
      ensures Valid() && Outcome(View(), reply) == Renew(old(View()), c, extension, now)
    {
      hide Inv, Monotone;
      RenewStepKeeps(View(), c, extension, now);
      if extension <= 0 { return Refused(InvalidCommand); }
      if !Holds(assignments, c) || !Unexpired(assignments[c.Key()], now) ||
         !WithinGrace(assignments[c.Key()], c.grace, now) {
        return Refused(LeaseLost);
      }
      assignments := assignments[c.Key() := assignments[c.Key()].(leaseUntil := Some(now + extension))];
      return Done;
    }

    method DeferAssignmentEvaluation(c: Claim, next: Time, now: Time) returns (reply: Reply)
      requires Valid()
      modifies this
      ensures Valid() && Outcome(View(), reply) == Defer(old(View()), c, next, now)
    {
      hide Inv, Monotone;
      DeferStepKeeps(View(), c, next, now);
      if IsZero(next) { return Refused(InvalidCommand); }
      if !Holds(assignments, c) || assignments[c.Key()].revision != c.revision ||
         !Unexpired(assignments[c.Key()], now) || !WithinGrace(assignments[c.Key()], c.grace, now) {
        return Refused(LeaseLost);
      }
      assignments := assignments[c.Key() := Consumed(assignments[c.Key()], next)];
      return Done;
    }

    // ---------- evaluation commits ----------

    // One transition: open or find the incident, insert the event, resolve.
    method RecordTransition(k: Key, revision: nat, tr: Transition) returns (failed: Option<StoreError>)
      modifies this`incidents, this`events
      ensures match ApplyTransition(Ledger(old(incidents), old(events)), k, revision, tr)
              case Ok(x) => failed == None && x == Ledger(incidents, events)
              case Err(e) => failed == Some(e)
    {
      var i, e := IncidentOf(k, tr), EventOf(k, tr);
      match tr.kind {
        case Opened =>
          if i in incidents {
            if incidents[i].openedAt != tr.observedAt { return Some(MessageConflict); }
          } else {
            if OpenExists(incidents, k, tr.violation) { return Some(IntegrityViolation); }
            incidents := incidents[i := OpenIncident(tr)];
          }
        case Resolved =>
          if i !in incidents || tr.observedAt < incidents[i].openedAt { return Some(OpeningNotFound); }
        case Updated =>
          if i !in incidents { return Some(IntegrityViolation); }
      }
      if e in events {
        if events[e].incident != i || events[e].transition != tr { return Some(MessageConflict); }
      } else {
        events := events[e := EventRow(i, tr, revision)];
      }
      if tr.kind == Resolved { incidents := incidents[i := ResolveIncident(incidents[i], tr, e)]; }
      return None;
    }

    method RecordTransitions(k: Key, revision: nat, trs: seq<Transition>) returns (failed: Option<StoreError>)
      modifies this`incidents, this`events
      ensures match ApplyTransitions(Ledger(old(incidents), old(events)), k, revision, trs)
              case Ok(x) => failed == None && x == Ledger(incidents, events)
              case Err(e) => failed == Some(e)
    {
      hide ApplyTransition;
      ghost var before := Ledger(incidents, events);
      for i := 0 to |trs|
        invariant ApplyTransitions(before, k, revision, trs[..i]) == Ok(Ledger(incidents, events))
      {
        assert trs[..i + 1][..i] == trs[..i];
        failed := RecordTransition(k, revision, trs[i]);
        if failed.Some? {
          FailureStays(before, k, revision, trs, i + 1);
          return;
        }
      }
      assert trs[..|trs|] == trs;
      failed := None;
    }

    method WriteEvaluation(k: Key, revision: nat, ev: Domain.Evaluation, allowEqual: bool, publish: bool, now: Time)
      returns (failed: Option<StoreError>)
      modifies this
      ensures match Spec.WriteEvaluation(old(View()), k, revision, ev, allowEqual, publish, now)
              case Ok(t) => failed == None && View() == t
              case Err(e) => failed == Some(e)
    {
      hide ApplyTransitions, Newest, CursorLess;
      var newest := NewestRevision(k);
      if newest.Some? {
        NewestFound(checkpoints, k);
        var c := CompareCursor(ev.Position(), checkpoints[RevisionKey(k, newest.value)].cursor);
        if c < 0 || (c == 0 && !allowEqual) { return Some(StaleEvaluation); }
      }
      failed := RecordTransitions(k, revision, ev.transitions);
      if failed.Some? { return; }
      var confirmed := ev.(recording := Confirmed);
      if RevisionKey(k, revision) in checkpoints { return Some(IntegrityViolation); }
      checkpoints := checkpoints[RevisionKey(k, revision) := Checkpoint(ev.Position(), ev.state)];
      summaries := summaries[k := Summary(revision, confirmed)];
      if publish && Registry(k, revision) !in outbox {
        outbox := outbox[Registry(k, revision) := QueuedRow(EvaluationPayload(confirmed), now)];
      }
    }

    method CommitEvaluation(c: Claim, ev: Domain.Evaluation, next: Time, now: Time) returns (reply: Reply)
      requires Valid()
      modifies this
      ensures Valid() && Outcome(View(), reply) == Commit(old(View()), c, ev, next, now)
    {
      hide Inv, Monotone, Spec.WriteEvaluation, ValidCommit, WithinAuthority;
      CommitStepKeeps(View(), c, ev, next, now);
      if !ValidCommit(ev, next) { return Refused(IncompleteEvaluation); }
      if !MayCommit(assignments, c, ev.observedAt, now) { return Refused(LeaseLost); }
      var begun, k := View(), c.Key();
      var row := Advanced(Consumed(assignments[k], next));
      assignments := assignments[k := row];
      if !WithinAuthority(ev, row.authorityFrom.value, row.authorityUntil.value) {
        Rollback(begun);
        return Refused(InvalidTransition);
      }
      var failed := WriteEvaluation(k, row.revision, ev, false, true, now);
      if failed.Some? {
        Rollback(begun);
        return Refused(failed.value);
      }
      return Done;
    }

    method CommitHistoricalEvaluation(c: Claim, gen: nat, ev: Domain.Evaluation, next: Time, now: Time)
      returns (reply: Reply)
      requires Valid()
      modifies this
      ensures Valid() && Outcome(View(), reply) == CommitHistorical(old(View()), c, gen, ev, next, now)
    {
      hide Inv, Monotone, Spec.WriteEvaluation, ValidCommit, WithinAuthority;
      HistoricalStepKeeps(View(), c, gen, ev, next, now);
      if !ValidCommit(ev, next) { return Refused(IncompleteEvaluation); }
      if gen == 0 || gen > MAX_INT64 || gen >= c.assignment.generation { return Refused(InvalidCommand); }
      if !MayReconcile(assignments, c, now) { return Refused(LeaseLost); }
      var begun, k, h := View(), c.Key(), Key(c.assignment.id, gen);
      assignments := assignments[k := Consumed(assignments[k], next)];
      if h !in assignments || assignments[h].lifecycle != Superseded || assignments[h].authorityFrom.None? ||
         assignments[h].authorityUntil.None? || !Authorizes(assignments[h], ev.observedAt) ||
         !WithinAuthority(ev, assignments[h].authorityFrom.value, assignments[h].authorityUntil.value) {
        Rollback(begun);
        return Refused(InvalidTransition);
      }
      var row := Advanced(assignments[h]);
      assignments := assignments[h := row];
      var failed := WriteEvaluation(h, row.revision, ev, true, false, now);
      if failed.Some? {
        Rollback(begun);
        return Refused(failed.value);
      }
      return Done;
    }

    // ---------- outbox ----------

    // ORDER BY next_attempt_at.
    method EarliestMessage(due: set<OutboxId>) returns (first: OutboxId)
      requires due != {} && due <= outbox.Keys
      ensures first in due && forall o :: o in due ==> outbox[first].nextAttemptAt <= outbox[o].nextAttemptAt
    {
      first :| first in due;
      var rest := due - {first};
      while rest != {}
        invariant first in due && rest <= due
        invariant forall o :: o in due - rest ==> outbox[first].nextAttemptAt <= outbox[o].nextAttemptAt
        decreases rest
      {
        var o :| o in rest;
        rest := rest - {o};
        if outbox[o].nextAttemptAt < outbox[first].nextAttemptAt { first := o; }
      }
    }

    // The messages the claim query selects, earliest attempt first, skipping rows locked by others.
    method SelectMessages(d: Destination, limit: nat, now: Time, locked: set<OutboxId>) returns (chosen: set<OutboxId>)
      ensures |chosen| <= limit && forall o :: o in chosen ==> o !in locked && Claimable(outbox, o, d, now)
      ensures EarliestMessagesFirst(outbox, d, limit, now, locked, chosen)
      ensures forall o :: o in chosen ==>
                o in outbox && Idle(outbox[o], now) && outbox[o].nextAttemptAt <= now && outbox[o].deliveredAt.None?
    {
      hide HeadOfLine, EarliestMessagesFirst;
      var rest := set o | o in outbox && o !in locked && Claimable(outbox, o, d, now);
      ghost var due := rest;
      chosen := {};
      while |chosen| < limit && rest != {}
        invariant chosen + rest == due && chosen !! rest && |chosen| <= limit
        invariant forall c, o :: c in chosen && o in rest ==> outbox[c].nextAttemptAt <= outbox[o].nextAttemptAt
        decreases rest
      {
        var o := EarliestMessage(rest);
        chosen, rest := chosen + {o}, rest - {o};
      }
      MessageSplit(outbox, d, limit, now, locked, chosen, rest);
    }

    method LeaseMessages(worker: string, lease: int, now: Time, chosen: set<OutboxId>)
      returns (claims: set<OutboxClaim>)
      requires lease > 0 && forall o :: o in chosen ==> o in outbox && outbox[o].deliveredAt.None?
      modifies this`outbox
      ensures outbox == map o | o in old(outbox) :: if o in chosen
        then LeasedMessage(old(outbox)[o], worker, lease, now) else old(outbox)[o]
      ensures forall c :: c in claims ==> c.id in chosen && HoldsMessage(outbox, c, now)
      ensures forall o :: o in chosen ==> exists c :: c in claims && c.id == o
    {
      outbox := map o | o in outbox :: if o in chosen then LeasedMessage(outbox[o], worker, lease, now) else outbox[o];
      claims := set o | o in chosen :: OutboxClaim(o, worker, outbox[o].leaseGeneration);
      forall o | o in chosen ensures exists c :: c in claims && c.id == o {
        assert OutboxClaim(o, worker, outbox[o].leaseGeneration) in claims;
      }
    }

    method ClaimOutbox(d: Destination, worker: string, lease: int, limit: int, now: Time, locked: set<OutboxId>)
      returns (reply: Reply, claims: set<OutboxClaim>, chosen: set<OutboxId>)
      requires Valid()
      modifies this
      ensures Valid() && Outcome(View(), reply) == Spec.ClaimOutbox(old(View()), d, worker, lease, limit, now, chosen)
      ensures reply.Refused? <==> Blank(worker) || lease <= 0 || limit < 1
      ensures forall c :: c in claims ==> c.id in chosen && HoldsMessage(outbox, c, now)
      ensures forall o :: o in chosen ==> exists c :: c in claims && c.id == o
      ensures reply == Done ==> EarliestMessagesFirst(old(outbox), d, limit, now, locked, chosen)
      ensures forall o :: o in chosen ==>
                o in old(outbox) && Idle(old(outbox)[o], now) && old(outbox)[o].nextAttemptAt <= now &&
                old(outbox)[o].deliveredAt.None?
      ensures forall o :: o in old(outbox) && o !in chosen ==> o in outbox && outbox[o] == old(outbox)[o]
    {
      hide Inv, Monotone, Blank, HeadOfLine, HoldsMessage, LeasedMessage, EarliestMessagesFirst, Idle;
      if Blank(worker) || lease <= 0 || limit < 1 { return Refused(InvalidCommand), {}, {}; }
      chosen := SelectMessages(d, limit, now, locked);
      OutboxClaimStepKeeps(View(), d, worker, lease, limit, now, chosen);
      claims := LeaseMessages(worker, lease, now, chosen);
      reply := Done;
    }

    method MarkOutboxDelivered(c: OutboxClaim, now: Time) returns (reply: Reply)
      requires Valid()
      modifies this
      ensures Valid() && Outcome(View(), reply) == MarkDelivered(old(View()), c, now)
    {
      hide Inv, Monotone;
      DeliveredStepKeeps(View(), c, now);
      if !HoldsMessage(outbox, c, now) { return Refused(OutboxLeaseLost); }
      outbox := outbox[c.id := outbox[c.id].(deliveredAt := Some(now), leaseOwner := None, leaseUntil := None)];
      return Done;
    }

    method RetryOutbox(c: OutboxClaim, delay: int, failed: bool, now: Time) returns (reply: Reply)
      requires Valid()
      modifies this
      ensures Valid() && Outcome(View(), reply) == Retry(old(View()), c, delay, failed, now)
    {
      hide Inv, Monotone;
      RetryStepKeeps(View(), c, delay, failed, now);
      if delay <= 0 || !failed { return Refused(InvalidCommand); }
      if !HoldsMessage(outbox, c, now) { return Refused(OutboxLeaseLost); }
      outbox := outbox[c.id := outbox[c.id].(nextAttemptAt := now + delay, leaseOwner := None, leaseUntil := None)];
      return Done;
    }
  }

  // ---------- what the queries find ----------

  lemma LatestIs(m: Assignments, id: string, latest: Option<Key>)
    requires latest.None? ==> forall k :: k in m ==> k.id != id
    requires latest.Some? ==>
               latest.value in m && latest.value.id == id && forall k :: k in m && k.id == id ==>
                   k.gen <= latest.value.gen
    ensures latest == Latest(m, id)
  {
    if latest.Some? { assert IsLatest(m, latest.value); }
    forall k: Key | k.id == id && IsLatest(m, k) ensures latest == Some(k) {
      assert k in m;
      assert latest.value.gen in Generations(m, id);
    }
  }

  lemma LatestFound(m: Assignments, id: string)
    requires Latest(m, id).Some?
    ensures IsLatest(m, Latest(m, id).value) && Latest(m, id).value.id == id
  {
  }

  lemma LatestDecides(m: Assignments, k: Key)
    requires k in m
    ensures IsLatest(m, k) <==> Latest(m, k.id) == Some(k)
  {
    if IsLatest(m, k) {
      LatestIs(m, k.id, Some(k)) by {
        forall j | j in m && j.id == k.id ensures j.gen <= k.gen { assert j.gen in Generations(m, k.id); }
      }
    }
  }

  lemma CurrentIs(m: Assignments, id: string, current: Option<Key>)
    requires OneCurrent(m)
    requires current.None? ==> forall k :: !IsCurrentOf(m, id, k)
    requires current.Some? ==> IsCurrentOf(m, id, current.value)
    ensures current == CurrentOf(m, id)
  {
  }

  lemma CurrentUnique(t: Spec.Tables)
    requires Inv(t)
    ensures OneCurrent(t.assignments)
  {
  }

  lemma NewestIs(cps: Checkpoints, k: Key, newest: Option<nat>)
    requires newest.None? ==> forall r :: r in cps ==> r.key != k
    requires newest.Some? ==>
               RevisionKey(k, newest.value) in cps && forall r :: r in cps && r.key == k ==> r.revision <= newest.value
    ensures newest == Newest(cps, k)
  {
    if newest.Some? {
      assert IsNewest(cps, k, newest.value);
      assert RevisionKey(k, newest.value).revision in Revisions(cps, k);
    }
  }

  // No lease on the row lasts until now.
  predicate Free(r: AssignmentRow, now: Time) { r.leaseUntil.Some? ==> r.leaseUntil.value < now }

  // No delivery lease on the message lasts until now.
  predicate Idle(r: OutboxRow, now: Time) { r.leaseUntil.Some? ==> r.leaseUntil.value < now }

  // A due row is left behind only for lack of room, and only for rows due no later.
  ghost predicate EarliestFirst(m: Assignments, grace: int, limit: int, now: Time, locked: set<Key>, chosen: set<Key>) {
    forall k :: k in m && k !in locked && Due(m[k], grace, now) && k !in chosen ==>
      |chosen| == limit && forall c :: c in chosen && c in m ==> m[c].nextEvaluationAt <= m[k].nextEvaluationAt
  }

  ghost predicate EarliestMessagesFirst(
    x: Outbox, d: Destination, limit: int, now: Time, locked: set<OutboxId>, chosen: set<OutboxId>)
  {
    forall o :: o in x && o !in locked && Claimable(x, o, d, now) && o !in chosen ==>
      |chosen| == limit && forall c :: c in chosen && c in x ==> x[c].nextAttemptAt <= x[o].nextAttemptAt
  }

  lemma MessageSplit(
    x: Outbox, d: Destination, limit: int, now: Time, locked: set<OutboxId>, chosen: set<OutboxId>, rest: set<OutboxId>)
    requires chosen + rest == (set o | o in x && o !in locked && Claimable(x, o, d, now)) &&
             (rest == {} || |chosen| == limit)
    requires forall c, o :: c in chosen && o in rest ==> c in x && o in x && x[c].nextAttemptAt <= x[o].nextAttemptAt
    ensures EarliestMessagesFirst(x, d, limit, now, locked, chosen)
  {
    hide Claimable;
    forall o | o in x && o !in locked && Claimable(x, o, d, now) && o !in chosen
      ensures |chosen| == limit && forall c :: c in chosen && c in x ==> x[c].nextAttemptAt <= x[o].nextAttemptAt
    {
      assert o in chosen + rest;
    }
  }

  lemma DueSplit(m: Assignments, grace: int, limit: int, now: Time, locked: set<Key>, chosen: set<Key>, rest: set<Key>)
    requires chosen + rest == (set k | k in m && k !in locked && Due(m[k], grace, now)) &&
             (rest == {} || |chosen| == limit)
    requires forall c, k :: c in chosen && k in rest ==>
               c in m && k in m && m[c].nextEvaluationAt <= m[k].nextEvaluationAt
    ensures EarliestFirst(m, grace, limit, now, locked, chosen)
  {
    hide Due;
    forall k | k in m && k !in locked && Due(m[k], grace, now) && k !in chosen
      ensures |chosen| == limit && forall c :: c in chosen && c in m ==> m[c].nextEvaluationAt <= m[k].nextEvaluationAt
    {
      assert k in chosen + rest;
    }
  }

  /** Exactly the chosen rows are claimed, each held by its claim at its revision. */
  ghost predicate OneClaimEach(m: Assignments, claims: set<Claim>, chosen: set<Key>) {
    && (forall c :: c in claims ==> c.Key() in chosen && Holds(m, c) && Describes(c, m[c.Key()]))
    && (forall k :: k in chosen ==> exists c :: c in claims && c.Key() == k)
  }

  // The claim carries what its row says.
  predicate Describes(c: Claim, r: AssignmentRow) {
    && c.assignment == r.spec && c.revision == r.revision && r.leaseUntil == Some(c.leaseUntil)
    && r.authorityFrom == Some(c.authorityFrom) && r.authorityUntil == Some(c.authorityUntil)
  }

  lemma NothingClaimed(m: Assignments)
    ensures OneClaimEach(m, {}, {})
  {
  }

  lemma DueIsCurrent(r: AssignmentRow, grace: int, now: Time)
    requires Due(r, grace, now)
    ensures IsCurrent(r.lifecycle) && Free(r, now) && r.nextEvaluationAt <= now
  {
  }

  lemma NewestFound(cps: Checkpoints, k: Key)
    requires Newest(cps, k).Some?
    ensures RevisionKey(k, Newest(cps, k).value) in cps
  {
  }

  lemma CurrentHasAuthority(t: Spec.Tables, k: Key)
    requires Inv(t) && k in t.assignments && IsCurrent(t.assignments[k].lifecycle)
    ensures HasAuthority(t.assignments[k]) && k == KeyOf(t.assignments[k].spec)
  {
    hide EvidenceTables.Recorded, InOrder, InboxOk, OneCurrent, CandidateHighest, Ordered, Chained, CurrentLast;
    assert RowOk(k, t.assignments[k]);
  }

  // A transition that cannot be recorded fails the whole list.
  lemma {:induction false} FailureStays(x: Ledger, k: Key, revision: nat, trs: seq<Transition>, n: nat)
    requires n <= |trs| && ApplyTransitions(x, k, revision, trs[..n]).Err?
    ensures ApplyTransitions(x, k, revision, trs) == ApplyTransitions(x, k, revision, trs[..n])
  {
    if n == |trs| {
      assert trs[..n] == trs;
    } else {
      assert trs[..|trs| - 1][..n] == trs[..n];
      FailureStays(x, k, revision, trs[..|trs| - 1], n);
    }
  }
}
