/** What every transaction keeps about the inbox and the outbox. */
module Delivery {
  import opened Domain
  import opened Tables
  import opened Timeline
  import opened Evidence

  predicate Delivered(x: Outbox, o: OutboxId) { o in x && x[o].deliveredAt.Some? }

  predicate InFlight(x: Outbox, o: OutboxId) { o in x && x[o].leaseOwner.Some? && x[o].deliveredAt.None? }

  /** A registry row that is leased or delivered has no undelivered predecessor. */
  ghost predicate InOrder(x: Outbox) {
    forall o :: o in x && IsRegistry(o) && (Delivered(x, o) || InFlight(x, o)) ==> HeadOfLine(x, o)
  }

  // The notification that an applied command enqueues.
  function NotificationOf(m: MessageId, e: Envelope): OutboxId { if e.PrepareEnvelope? then Receipt(m) else Notice(m) }

  // The notification o repeats the applied command recorded for its message.
  predicate Notifies(inbox: map<MessageId, InboxRow>, o: OutboxId, p: Payload)
    requires !o.Registry?
  {
    o.message in inbox && inbox[o.message].disposition == Applied &&
    o == NotificationOf(o.message, inbox[o.message].envelope) &&
    p == CommandPayload(inbox[o.message].envelope)
  }

  /** Notifications are exactly those of the applied commands, and recorded
      lifecycle commands name existing rows. */
  ghost predicate InboxOk(t: Tables) {
    && (forall o :: o in t.outbox && !IsRegistry(o) ==> Notifies(t.inbox, o, t.outbox[o].payload))
    && (forall m :: m in t.inbox && t.inbox[m].disposition == Applied ==>
         NotificationOf(m, t.inbox[m].envelope) in t.outbox)
    && (forall m :: m in t.inbox && t.inbox[m].envelope.CommandEnvelope? ==>
         Key(t.inbox[m].envelope.id, t.inbox[m].envelope.gen) in t.assignments)
  }

  // Delivery never goes back and no row slips in before an existing one.
  ghost predicate OutboxAdvances(x: Outbox, x': Outbox) {
    && (forall o :: o in x ==> o in x')
    && (forall o :: Delivered(x, o) ==> Delivered(x', o))
    && (forall p, o :: p in x' && p !in x && o in x && IsRegistry(p) && IsRegistry(o) ==> !Earlier(p, o))
  }

  lemma HeadKept(x: Outbox, x': Outbox, o: OutboxId)
    requires OutboxAdvances(x, x') && o in x && IsRegistry(o) && HeadOfLine(x, o)
    ensures HeadOfLine(x', o)
  {
    forall p | p in x' && p.Registry? && Earlier(p, o) ensures x'[p].deliveredAt.Some? {
      assert IsRegistry(p);
      assert p in x && Delivered(x, p);
      assert Delivered(x', p);
    }
  }

  // Any step in which rows newly leased or delivered were at the head of the line.
  lemma InOrderKept(x: Outbox, x': Outbox)
    requires InOrder(x) && OutboxAdvances(x, x')
    requires forall o :: o in x' && IsRegistry(o) && (Delivered(x', o) || InFlight(x', o)) ==>
               o in x && (Delivered(x, o) || InFlight(x, o) || HeadOfLine(x, o))
    ensures InOrder(x')
  {
    forall o | o in x' && IsRegistry(o) && (Delivered(x', o) || InFlight(x', o)) ensures HeadOfLine(x', o) {
      HeadKept(x, x', o);
    }
  }

  lemma ClaimKeepsOrder(
    t: Tables, d: Destination, worker: string, lease: int, limit: int, now: Time, chosen: set<OutboxId>)
    requires InOrder(t.outbox)
    ensures var t' := ClaimOutbox(t, d, worker, lease, limit, now, chosen).tables;
            InOrder(t'.outbox) && OutboxAdvances(t.outbox, t'.outbox) && KeepsRegistry(t.outbox, t'.outbox)
  {
    hide HeadOfLine, Earlier;
    var t' := ClaimOutbox(t, d, worker, lease, limit, now, chosen).tables;
    if ValidOutboxClaim(t.outbox, d, worker, lease, limit, now, chosen) {
      forall o | o in chosen ensures HeadOfLine(t.outbox, o) { assert Claimable(t.outbox, o, d, now); }
      InOrderKept(t.outbox, t'.outbox);
    }
  }

  lemma DeliverKeepsOrder(t: Tables, c: OutboxClaim, now: Time)
    requires InOrder(t.outbox)
    ensures var t' := MarkDelivered(t, c, now).tables;
            InOrder(t'.outbox) && OutboxAdvances(t.outbox, t'.outbox) && KeepsRegistry(t.outbox, t'.outbox)
  {
    hide HeadOfLine, Earlier;
    var t' := MarkDelivered(t, c, now).tables;
    if HoldsMessage(t.outbox, c, now) {
      assert InFlight(t.outbox, c.id);
      InOrderKept(t.outbox, t'.outbox);
    }
  }

  lemma RetryKeepsOrder(t: Tables, c: OutboxClaim, delay: int, failed: bool, now: Time)
    requires InOrder(t.outbox)
    ensures var t' := Retry(t, c, delay, failed, now).tables;
            InOrder(t'.outbox) && OutboxAdvances(t.outbox, t'.outbox) && KeepsRegistry(t.outbox, t'.outbox)
  {
    hide HeadOfLine, Earlier, InOrder;
    var t' := Retry(t, c, delay, failed, now).tables;
    if HoldsMessage(t.outbox, c, now) { assert InFlight(t.outbox, c.id); }
    InOrderKept(t.outbox, t'.outbox);
  }

  // Adding one undelivered row that precedes no existing registry row.
  lemma InsertKeepsOrder(x: Outbox, o: OutboxId, p: Payload, now: Time)
    requires InOrder(x) && o !in x
    requires IsRegistry(o) ==> forall q :: q in x && IsRegistry(q) ==> !Earlier(o, q)
    ensures var x' := x[o := QueuedRow(p, now)]; InOrder(x') && OutboxAdvances(x, x')
    ensures !IsRegistry(o) ==> KeepsRegistry(x, x[o := QueuedRow(p, now)])
  {
    InOrderKept(x, x[o := QueuedRow(p, now)]);
  }

  /** A new live revision comes after every registry row of its assignment. */
  lemma NewRevisionIsLast(t: Tables, k: Key, n: nat, q: OutboxId)
    requires Tiled(t.assignments) && Recorded(t) && k in t.assignments && IsCurrent(t.assignments[k].lifecycle)
    requires t.assignments[k].revision < n && q in t.outbox && IsRegistry(q)
    ensures !Earlier(Registry(k, n), q)
  {
    hide IncidentOk, EventOk, RowOk, CursorLess;
    var w := SpansOf(t.assignments, t.summaries);
    assert RegistryRowOk(w, t.checkpoints, q, t.outbox[q]);
    assert q.key in t.summaries && SummaryOk(t.assignments, t.checkpoints, q.key, t.summaries[q.key]);
    assert q.revision <= t.assignments[q.key].revision;
  }
}
