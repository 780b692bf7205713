/** Command replay: the inbox makes every accepted command a stuttering step
    from then on, and refuses altered reuse of its message identity. */
module Commands {
  import opened Domain
  import opened Tables
  import opened Timeline
  import opened Evidence
  import opened Delivery
  import opened Runs
  import Fencing

  predicate IsCommand(s: Step) { s.PrepareStep? || s.CandidateStep? || s.CutoverStep? }

  function EnvelopeOf(s: Step): Envelope
    requires IsCommand(s)
  {
    match s
    case PrepareStep(_, mt, a, _) => PrepareEnvelope(mt, a)
    case CandidateStep(_, c, id, gen, _) => CommandEnvelope(CommandType(c), id, gen, None)
    case CutoverStep(_, id, gen, at, _) => CutoverEnvelope(id, gen, at)
  }

  predicate WellFormedCommand(s: Step)
    requires IsCommand(s)
  {
    match s
    case PrepareStep(m, mt, a, _) => ValidPrepare(m, mt, a)
    case CandidateStep(m, _, id, gen, _) => ValidCommand(m, id, gen)
    case CutoverStep(m, id, gen, at, _) => ValidCommand(m, id, gen) && !IsZero(at) && Supported(at)
  }

  /** The same command delivered again; only the database time may differ. */
  predicate SameCommand(s: Step, d: Step) {
    match s
    case PrepareStep(m, mt, a, _) => d.PrepareStep? && d == PrepareStep(m, mt, a, d.now)
    case CandidateStep(m, c, id, gen, _) => d.CandidateStep? && d == CandidateStep(m, c, id, gen, d.now)
    case CutoverStep(m, id, gen, at, _) => d.CutoverStep? && d == CutoverStep(m, id, gen, at, d.now)
    case _ => false
  }

  lemma NotifyRecords(t: Tables, o: OutboxId, m: MessageId, e: Envelope, now: Time)
    ensures var r := Notify(t, o, m, e, now);
            (r.reply.Accepted? ==>
                m in r.tables.inbox && r.tables.inbox[m] == InboxRow(e, Applied) && r.reply == Accepted(Applied)) &&
            (r.reply.Accepted? || r.reply.Refused?)
  {
  }

  lemma ApplyPrepareRecords(t: Tables, m: MessageId, e: Envelope, a: Assignment, now: Time)
    ensures var r := ApplyPrepare(t, m, e, a, now);
            (r.reply.Accepted? ==>
                m in r.tables.inbox && r.tables.inbox[m] == InboxRow(e, Applied) && r.reply == Accepted(Applied)) &&
            (r.reply.Accepted? || r.reply.Refused?)
  {
    hide Notify, SupersedeCandidates, NewRow;
    NotifyRecords(t.(assignments := SupersedeCandidates(t.assignments, a.id)[KeyOf(a) := NewRow(a, now)]), Receipt(m),
      m, e, now);
  }

  // What an accepted preparation leaves in the inbox.
  ghost predicate PrepareRecorded(o: Outcome, m: MessageId, e: Envelope) {
    o.reply.Accepted? ==>
      m in o.tables.inbox && o.tables.inbox[m].envelope == e &&
      (o.reply.disposition == Stale <==> o.tables.inbox[m].disposition == Stale)
  }

  lemma PrepareRecords(t: Tables, m: MessageId, mt: string, a: Assignment, now: Time)
    ensures PrepareRecorded(Prepare(t, m, mt, a, now), m, PrepareEnvelope(mt, a))
    ensures Prepare(t, m, mt, a, now).reply.Accepted? ==> ValidPrepare(m, mt, a)
  {
    hide Latest, ValidPrepare, ApplyPrepare;
    var e, l := PrepareEnvelope(mt, a), Latest(t.assignments, a.id);
    ApplyPrepareRecords(t, m, e, a, now);
    if ValidPrepare(m, mt, a) && m !in t.inbox && l.Some? {
      var k := l.value;
      if a.generation < k.gen {
        assert Prepare(t, m, mt, a, now) == Outcome(Record(t, m, e, Stale), Accepted(Stale));
      } else if a.generation > k.gen {
        assert Prepare(t, m, mt, a, now) == ApplyPrepare(t, m, e, a, now) || Prepare(t, m, mt, a, now).reply.Refused?;
      }
    }
  }

  lemma CandidateRecords(t: Tables, s: Step)
    requires s.CandidateStep? && Perform(t, s).reply.Accepted?
    ensures ValidCommand(s.message, s.id, s.gen) && s.message in Next(t, s).inbox
    ensures Next(t, s).inbox[s.message].envelope == EnvelopeOf(s) && Perform(t, s).reply.disposition != Stale
  {
    hide IsLatest, ValidCommand, CommandType, Notify;
    var k := Key(s.id, s.gen);
    if k in t.assignments {
      NotifyRecords(t.(assignments := t.assignments[k := t.assignments[k].(lifecycle := CandidateArmed)]),
        Notice(s.message), s.message, EnvelopeOf(s), s.now);
      NotifyRecords(t.(assignments := t.assignments[k := Unleased(t.assignments[k]).(lifecycle := Cancelled)]),
        Notice(s.message), s.message, EnvelopeOf(s), s.now);
    }
  }

  lemma CutoverRecords(t: Tables, s: Step)
    requires s.CutoverStep? && Perform(t, s).reply.Accepted?
    ensures WellFormedCommand(s) && s.message in Next(t, s).inbox
    ensures Next(t, s).inbox[s.message].envelope == EnvelopeOf(s) && Perform(t, s).reply.disposition != Stale
  {
    hide CurrentOf, ValidCommand, Supported, Notify;
    var k, current, m := Key(s.id, s.gen), CurrentOf(t.assignments, s.id), t.assignments;
    if k in m && current.None? {
      NotifyRecords(t.(assignments := m[k := Activated(m[k], s.at, s.now)]), Notice(s.message), s.message,
        EnvelopeOf(s), s.now);
    } else if k in m {
      CurrentOfIs(m, s.id);
      var rows := m[current.value := Closed(m[current.value], s.at)][k := Activated(m[k], s.at, s.now)];
      NotifyRecords(t.(assignments := rows), Notice(s.message), s.message, EnvelopeOf(s), s.now);
    }
  }

  // The inbox remembers this command, and remembers that it was stale.
  ghost predicate Remembers(t: Tables, s: Step, stale: bool) {
    IsCommand(s) && WellFormedCommand(s) && s.message in t.inbox && t.inbox[s.message].envelope == EnvelopeOf(s) &&
    (s.PrepareStep? ==> (t.inbox[s.message].disposition == Stale) == stale) && (!s.PrepareStep? ==> !stale)
  }

  lemma PrepareIsRemembered(t: Tables, s: Step)
    requires s.PrepareStep? && Perform(t, s).reply.Accepted?
    ensures Remembers(Next(t, s), s, Perform(t, s).reply.disposition == Stale)
  {
    hide Prepare, ValidPrepare;
    PrepareRecords(t, s.message, s.messageType, s.assignment, s.now);
  }

  lemma AcceptedIsRemembered(t: Tables, s: Step)
    requires IsCommand(s) && Perform(t, s).reply.Accepted?
    ensures Remembers(Next(t, s), s, Perform(t, s).reply.disposition == Stale)
  {
    hide Perform, ValidPrepare, ValidCommand;
    match s
    case PrepareStep(_, _, _, _) => PrepareIsRemembered(t, s);
    case CandidateStep(_, _, _, _, _) => CandidateRecords(t, s);
    case CutoverStep(_, _, _, _, _) => CutoverRecords(t, s);
  }

  lemma RememberedForever(t: Tables, s: Step, stale: bool, more: seq<Step>)
    requires Inv(t) && Remembers(t, s, stale)
    ensures Remembers(Exec(t, more), s, stale) && Inv(Exec(t, more))
  {
    hide Inv, Exec, WellFormedCommand, RowAdvances, EventsKept, Delivered;
    ExecMonotone(t, more);
  }

  /** Re-delivering a remembered command changes nothing and answers idempotent,
      or stale when it was stale. */
  lemma RememberedStutters(t: Tables, s: Step, d: Step, stale: bool)
    requires Inv(t) && Remembers(t, s, stale) && SameCommand(s, d)
    ensures Perform(t, d) == Outcome(t, Accepted(if stale then Stale else Idempotent))
  {
    hide Tiled, Recorded, InOrder, ValidPrepare, ValidCommand, Supported, Latest, CommandType;
  }

  /** A different envelope under a remembered message identity changes nothing. */
  lemma AlteredReuseConflicts(t: Tables, s: Step, d: Step, stale: bool)
    requires Remembers(t, s, stale) && IsCommand(d) && d.message == s.message && EnvelopeOf(d) != EnvelopeOf(s)
    ensures Perform(t, d) == Refuse(t, if WellFormedCommand(d) then MessageConflict else InvalidCommand)
  {
    hide ValidPrepare, ValidCommand, Supported, Latest, CommandType;
  }

  // ---------- over whole runs ----------

  // Step j of the run re-sends an earlier accepted command.
  ghost predicate IsDuplicate(steps: seq<Step>, j: nat)
    requires j < |steps|
  {
    exists i :: AcceptedEarlier(steps, i, j)
  }

  ghost predicate AcceptedEarlier(steps: seq<Step>, i: int, j: nat)
    requires j < |steps|
  {
    0 <= i < j && SameCommand(steps[i], steps[j]) && Perform(Exec(EMPTY, steps[..i]), steps[i]).reply.Accepted?
  }

  lemma DuplicateStutters(steps: seq<Step>, i: nat, j: nat)
    requires j < |steps| && AcceptedEarlier(steps, i, j)
    ensures Exec(EMPTY, steps[..j + 1]) == Exec(EMPTY, steps[..j])
    ensures Perform(Exec(EMPTY, steps[..j]), steps[j]).reply in {Accepted(Idempotent), Accepted(Stale)}
  {
    hide Inv, Perform, Remembers;
    var t := Exec(EMPTY, steps[..i]);
    var stale := Perform(t, steps[i]).reply.disposition == Stale;
    AcceptedIsRemembered(t, steps[i]);
    assert steps[..i + 1][..i] == steps[..i];
    RunsKeep(steps[..i + 1]);
    RememberedForever(Exec(EMPTY, steps[..i + 1]), steps[i], stale, steps[i + 1..j]);
    assert steps[..j] == steps[..i + 1] + steps[i + 1..j];
    Fencing.ExecSplit(EMPTY, steps[..i + 1], steps[i + 1..j]);
    RememberedStutters(Exec(EMPTY, steps[..j]), steps[i], steps[j], stale);
    assert steps[..j + 1][..j] == steps[..j];
  }

  /** The run without its marked steps. */
  function Unmarked(steps: seq<Step>, marks: set<nat>): seq<Step> {
    if steps == [] then []
    else
      var rest := Unmarked(steps[..|steps| - 1], marks);
      if |steps| - 1 in marks then rest else rest + [steps[|steps| - 1]]
  }

  /** Command replay is stuttering: dropping any set of re-sent commands from a
      run, wherever they were inserted, leaves the same final tables. */
  lemma {:induction false} ReplayIsStuttering(steps: seq<Step>, marks: set<nat>)
    requires forall j :: j in marks && j < |steps| ==> IsDuplicate(steps, j)
    ensures Exec(EMPTY, Unmarked(steps, marks)) == Exec(EMPTY, steps)
  {
    hide Next, Perform;
    if steps != [] {
      var n := |steps| - 1;
      var front := steps[..n];
      forall j | j in marks && j < n ensures IsDuplicate(front, j) {
        var i :| AcceptedEarlier(steps, i, j);
        assert front[..i] == steps[..i];
        assert AcceptedEarlier(front, i, j);
      }
      ReplayIsStuttering(front, marks);
      if n in marks {
        var i :| AcceptedEarlier(steps, i, n);
        DuplicateStutters(steps, i, n);
        assert steps[..n + 1] == steps;
      } else {
        var kept := Unmarked(front, marks) + [steps[n]];
        assert kept[..|kept| - 1] == Unmarked(front, marks);
      }
    }
  }

  /** Altered reuse of an accepted message identity, anywhere later in a run, is refused and changes nothing. */
  lemma AlteredReuseIsRefused(steps: seq<Step>, i: nat, more: seq<Step>, d: Step)
    requires i < |steps| && IsCommand(steps[i]) && Perform(Exec(EMPTY, steps[..i]), steps[i]).reply.Accepted?
    requires IsCommand(d) && d.message == steps[i].message && EnvelopeOf(d) != EnvelopeOf(steps[i])
    ensures Perform(Exec(EMPTY, steps[..i + 1] + more), d) ==
            Refuse(Exec(EMPTY, steps[..i + 1] + more), if WellFormedCommand(d) then MessageConflict else InvalidCommand)
  {
    hide Inv, Perform, Remembers;
    var t := Exec(EMPTY, steps[..i]);
    var stale := Perform(t, steps[i]).reply.disposition == Stale;
    AcceptedIsRemembered(t, steps[i]);
    assert steps[..i + 1][..i] == steps[..i];
    RunsKeep(steps[..i + 1]);
    RememberedForever(Exec(EMPTY, steps[..i + 1]), steps[i], stale, more);
    Fencing.ExecSplit(EMPTY, steps[..i + 1], more);
    AlteredReuseConflicts(Exec(EMPTY, steps[..i + 1] + more), steps[i], d, stale);
  }
}
