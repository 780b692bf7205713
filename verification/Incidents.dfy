/** The transitions of one ordered stream alternate per violation, and the
    incident and event tables tell exactly that story. */
module Incidents {
  import opened Domain
  import opened Hysteresis
  import opened Evaluator
  import opened Evaluation
  import opened Tables

  // ---------- alternating streams ----------

  // The opening frame of the incident left open by a stream of transitions.
  function OpenAfter(trs: seq<Transition>, v: Violation): Option<string> {
    if trs == [] then None
    else
      var l := Last(trs);
      if l.violation != v || l.kind == Updated then OpenAfter(Front(trs), v)
      else if l.kind == Opened then Some(l.openingFrame)
      else None
  }

  /** tr may follow `prior`: an opening finds the violation closed and names its
      own frame, a resolution names the open frame, and no frame reports twice. */
  ghost predicate Follows(prior: seq<Transition>, tr: Transition) {
    && tr.kind != Updated
    && (tr.kind == Opened ==> OpenAfter(prior, tr.violation) == None && tr.openingFrame == tr.frameId)
    && (tr.kind == Resolved ==> OpenAfter(prior, tr.violation) == Some(tr.openingFrame))
    && (forall i :: 0 <= i < |prior| && prior[i].violation == tr.violation ==> prior[i].frameId != tr.frameId)
    && (forall i :: 0 <= i < |prior| ==> prior[i].observedAt <= tr.observedAt)
  }

  ghost predicate Alternating(trs: seq<Transition>) {
    trs == [] || (Alternating(Front(trs)) && Follows(Front(trs), Last(trs)))
  }

  function OpenFrame(i: IncidentState): Option<string> {
    if InEpisode(i.phase) then Some(i.openingFrame) else None
  }

  // What one sample reports is what it does to the episode.
  lemma AdvanceTells(p: Policy, v: Violation, i: IncidentState, breached: bool, deviation: real, o: Observation)
    ensures var (i', t) := Advance(p, v, i, breached, deviation, o);
            match t
            case None => OpenFrame(i') == OpenFrame(i)
            case Some(tr) =>
              && tr.violation == v && tr.frameId == o.frameId && tr.observedAt == o.observedAt
              && tr.walId == o.walId && tr.walSeq == o.walSeq
              && (tr.kind == Opened || tr.kind == Resolved)
              && (tr.kind == Opened ==>
                   OpenFrame(i) == None && OpenFrame(i') == Some(o.frameId) && tr.openingFrame == o.frameId)
              && (tr.kind == Resolved ==> OpenFrame(i) == Some(tr.openingFrame) && OpenFrame(i') == None)
  {
  }

  // ---------- evaluating a stream ----------

  // The transitions so far tell the state so far.
  ghost predicate Tells(trs: seq<Transition>, s: EvaluatorState) {
    Alternating(trs) && forall v :: OpenAfter(trs, v) == OpenFrame(Lookup(s, v))
  }

  // No transition of violation v carries this frame yet, and none is later.
  ghost predicate Unreported(trs: seq<Transition>, v: Violation, o: Observation) {
    && (forall i :: 0 <= i < |trs| && trs[i].violation == v ==> trs[i].frameId != o.frameId)
    && (forall i :: 0 <= i < |trs| ==> trs[i].observedAt <= o.observedAt)
  }

  // The states agree on every violation but v.
  ghost predicate OnlyAt(s: EvaluatorState, s': EvaluatorState, v: Violation) {
    forall u :: u != v ==> Lookup(s', u) == Lookup(s, u)
  }

  lemma EmitTells(
    trs: seq<Transition>, s: EvaluatorState, s': EvaluatorState, v: Violation, tr: Transition, o: Observation)
    requires Tells(trs, s) && Unreported(trs, v, o) && OnlyAt(s, s', v)
    requires tr.violation == v && tr.frameId == o.frameId && tr.observedAt == o.observedAt
    requires tr.kind != Updated
    requires tr.kind == Opened ==>
               tr.openingFrame == o.frameId && OpenFrame(Lookup(s, v)) == None &&
               OpenFrame(Lookup(s', v)) == Some(o.frameId)
    requires tr.kind == Resolved ==>
               OpenFrame(Lookup(s, v)) == Some(tr.openingFrame) && OpenFrame(Lookup(s', v)) == None
    ensures Tells(trs + [tr], s') && forall u :: u != v && Unreported(trs, u, o) ==> Unreported(trs + [tr], u, o)
  {
    hide OpenFrame, Lookup;
    assert Front(trs + [tr]) == trs && Last(trs + [tr]) == tr;
    assert OpenAfter(trs, v) == OpenFrame(Lookup(s, v));
    forall u ensures OpenAfter(trs + [tr], u) == OpenFrame(Lookup(s', u)) {
      assert OpenAfter(trs, u) == OpenFrame(Lookup(s, u));
    }
  }

  lemma ObserveTells(p: Policy, trs: seq<Transition>, s: EvaluatorState, v: Violation, ev: Evidence, o: Observation)
    requires Tells(trs, s) && Unreported(trs, v, o)
    ensures var trs' := trs + Emits(p, s, v, ev, o);
            Tells(trs', Observe(p, s, v, ev, o)) &&
            (forall u :: u != v && Unreported(trs, u, o) ==> Unreported(trs', u, o))
  {
    hide Advance, Alternating, Unreported, OpenAfter;
    var s' := Observe(p, s, v, ev, o);
    var es := Emits(p, s, v, ev, o);
    if ev.Known? { AdvanceTells(p, v, Lookup(s, v), ev.breached, ev.deviation, o); }
    if es == [] {
      assert trs + es == trs;
      forall u ensures OpenFrame(Lookup(s', u)) == OpenFrame(Lookup(s, u)) {}
    } else {
      EmitTells(trs, s, s', v, es[0], o);
    }
  }

  ghost predicate FreshFor(trs: seq<Transition>, o: Observation) {
    forall i :: 0 <= i < |trs| ==> trs[i].frameId != o.frameId && trs[i].observedAt <= o.observedAt
  }

  lemma NextTells(p: Policy, trs: seq<Transition>, s: EvaluatorState, g: Signals, o: Observation)
    requires Tells(trs, s) && FreshFor(trs, o)
    ensures Tells(trs + AllEmitted(p, s, g, o), NextState(p, s, g, o))
  {
    hide Observe, Emits, Tells, Lookup;
    var s1 := Observe(p, s, Lateral, g.lateral, o);
    var s2 := Observe(p, s1, Vertical, g.vertical, o);
    var l, w, t := Emits(p, s, Lateral, g.lateral, o), Emits(p, s1, Vertical, g.vertical, o),
      Emits(p, s2, Temporal, g.temporal, o);
    assert Unreported(trs, Lateral, o) && Unreported(trs, Vertical, o) && Unreported(trs, Temporal, o);
    ObserveTells(p, trs, s, Lateral, g.lateral, o);
    ObserveTells(p, trs + l, s1, Vertical, g.vertical, o);
    ObserveTells(p, trs + l + w, s2, Temporal, g.temporal, o);
    ObserveOther(p, s, Lateral, g.lateral, o, Vertical);
    ObserveOther(p, s, Lateral, g.lateral, o, Temporal);
    ObserveOther(p, s1, Vertical, g.vertical, o, Temporal);
    ObserveSame(p, s, s1, Vertical, g.vertical, o);
    ObserveSame(p, s, s2, Temporal, g.temporal, o);
    assert trs + (l + w + t) == trs + l + w + t;
  }

  // Which observation a transition reports.
  predicate Reports(tr: Transition, o: Observation) {
    tr.frameId == o.frameId && tr.observedAt == o.observedAt && tr.walId == o.walId && tr.walSeq == o.walSeq
  }

  ghost predicate ReportsFrom(tr: Transition, obs: seq<Observation>) { exists o :: o in obs && Reports(tr, o) }

  lemma EmitsReports(p: Policy, s: EvaluatorState, v: Violation, ev: Evidence, o: Observation)
    ensures forall i :: 0 <= i < |Emits(p, s, v, ev, o)| ==> Reports(Emits(p, s, v, ev, o)[i], o)
  {
    hide Advance;
    if ev.Known? { AdvanceTells(p, v, Lookup(s, v), ev.breached, ev.deviation, o); }
  }

  lemma AllEmittedReports(p: Policy, s: EvaluatorState, g: Signals, o: Observation)
    ensures forall i :: 0 <= i < |AllEmitted(p, s, g, o)| ==> Reports(AllEmitted(p, s, g, o)[i], o)
  {
    hide Emits;
    EmitsReports(p, s, Lateral, g.lateral, o);
    EmitsReports(p, s, Vertical, g.vertical, o);
    EmitsReports(p, s, Temporal, g.temporal, o);
  }

  // Observations of a stream carry distinct frames.
  ghost predicate DistinctFrames(obs: seq<Observation>) {
    forall i, j :: 0 <= i < j < |obs| ==> obs[i].frameId != obs[j].frameId
  }

  lemma {:induction false} StreamReports(e: Engine, a: Assignment, obs: seq<Observation>, s: EvaluatorState)
    requires JudgeAll(e, a, obs, s).Ok?
    ensures forall i :: 0 <= i < |JudgeAll(e, a, obs, s).value.transitions| ==>
              ReportsFrom(JudgeAll(e, a, obs, s).value.transitions[i], obs)
    ensures forall i :: 0 <= i < |obs| ==> obs[i].observedAt <= JudgeAll(e, a, obs, s).value.observedAt
  {
    hide Judge, Reports;
    var r := JudgeAll(e, a, obs, s).value;
    if |obs| == 1 {
      JudgeReports(e, a, obs[0], s);
    } else {
      var front, o := Front(obs), Last(obs);
      StreamReports(e, a, front, s);
      var sofar := JudgeAll(e, a, front, s).value;
      BatchCursor(e, a, front, s);
      var last := Judge(e, a, o, sofar.state).value;
      JudgeReports(e, a, o, sofar.state);
      forall i | 0 <= i < |r.transitions| ensures ReportsFrom(r.transitions[i], obs) {
        if i < |sofar.transitions| {
          assert ReportsFrom(sofar.transitions[i], front);
          var x :| x in front && Reports(sofar.transitions[i], x);
          assert x in obs;
        } else {
          assert r.transitions[i] == last.transitions[i - |sofar.transitions|];
          assert o in obs;
        }
      }
    }
  }

  lemma JudgeReports(e: Engine, a: Assignment, o: Observation, s: EvaluatorState)
    requires Judge(e, a, o, s).Ok?
    ensures forall i :: 0 <= i < |Judge(e, a, o, s).value.transitions| ==>
              Reports(Judge(e, a, o, s).value.transitions[i], o)
    ensures Judge(e, a, o, s).value.observedAt == o.observedAt
  {
    hide Signal, NextState, AllEmitted, Reports;
    JudgeValid(e, a, o, s);
    AllEmittedReports(e.policy, s, Signal(e, a, o), o);
  }

  lemma JudgeTells(e: Engine, a: Assignment, o: Observation, trs: seq<Transition>, s: EvaluatorState)
    requires Judge(e, a, o, s).Ok? && Tells(trs, s) && FreshFor(trs, o)
    ensures Tells(trs + Judge(e, a, o, s).value.transitions, Judge(e, a, o, s).value.state)
  {
    hide Signal, NextState, AllEmitted, Tells;
    JudgeValid(e, a, o, s);
    NextTells(e.policy, trs, s, Signal(e, a, o), o);
  }

  /** From the empty state, every violation's transitions alternate opened and
      resolved with matching opening frames, and the open frame of the stream is
      the open frame of the state. */
  lemma {:induction false} StreamAlternates(e: Engine, a: Assignment, obs: seq<Observation>)
    requires JudgeAll(e, a, obs, map[]).Ok? && DistinctFrames(obs)
    ensures var r := JudgeAll(e, a, obs, map[]).value; Tells(r.transitions, r.state)
  {
    hide Judge, Tells;
    assert Tells([], map[]) by { NothingTold(); }
    if |obs| == 1 {
      JudgeTells(e, a, obs[0], [], map[]);
      assert [] + Judge(e, a, obs[0], map[]).value.transitions == Judge(e, a, obs[0], map[]).value.transitions;
    } else {
      var front, o := Front(obs), Last(obs);
      var sofar := JudgeAll(e, a, front, map[]).value;
      StreamAlternates(e, a, front);
      StreamReports(e, a, front, map[]);
      BatchCursor(e, a, front, map[]);
      forall i | 0 <= i < |sofar.transitions|
        ensures sofar.transitions[i].frameId != o.frameId && sofar.transitions[i].observedAt <= o.observedAt
      {
        assert ReportsFrom(sofar.transitions[i], front);
        var x :| x in front && Reports(sofar.transitions[i], x);
      }
      JudgeTells(e, a, o, sofar.transitions, sofar.state);
    }
  }

  lemma NothingTold()
    ensures Tells([], map[])
  {
  }

  // ---------- the incident and event tables ----------

  // Transition j of the stream opened incident i.
  predicate OpenedBy(trs: seq<Transition>, k: Key, i: IncidentId, j: int) {
    0 <= j < |trs| && trs[j].kind == Opened && IncidentOf(k, trs[j]) == i
  }

  predicate ReportedBy(trs: seq<Transition>, k: Key, e: EventId, j: int) {
    0 <= j < |trs| && EventOf(k, trs[j]) == e
  }

  /** The rows of generation k are exactly the story of `trs`. */
  ghost predicate LedgerTells(x: Ledger, k: Key, trs: seq<Transition>) {
    && (forall i :: i in x.incidents && i.key == k ==>
          (exists j :: OpenedBy(trs, k, i, j)) &&
          (x.incidents[i].open <==> OpenAfter(trs, i.violation) == Some(i.openingFrame)))
    && (forall i, j :: OpenedBy(trs, k, i, j) ==> i in x.incidents && x.incidents[i].openedAt == trs[j].observedAt)
    && (forall e :: e in x.events && e.key == k ==> exists j :: ReportedBy(trs, k, e, j))
    && (forall e, j :: ReportedBy(trs, k, e, j) ==> e in x.events && x.events[e].transition == trs[j])
  }

  ghost predicate OthersKept(x: Ledger, y: Ledger, k: Key) {
    && (forall i: IncidentId :: i.key != k ==>
         (i in x.incidents <==> i in y.incidents) &&
         (i in x.incidents && i in y.incidents ==> x.incidents[i] == y.incidents[i]))
    && (forall e: EventId :: e.key != k ==>
         (e in x.events <==> e in y.events) && (e in x.events && e in y.events ==> x.events[e] == y.events[e]))
  }

  lemma {:induction false} OpenHasOpening(trs: seq<Transition>, k: Key, v: Violation) returns (j: nat)
    requires Alternating(trs) && OpenAfter(trs, v).Some?
    ensures OpenedBy(trs, k, IncidentId(k, v, OpenAfter(trs, v).value), j)
  {
    var l := Last(trs);
    if l.violation == v && l.kind == Opened {
      j := |trs| - 1;
    } else {
      j := OpenHasOpening(Front(trs), k, v);
      assert Front(trs)[j] == trs[j];
    }
  }

  lemma {:induction false} OpeningNamesItself(trs: seq<Transition>, j: nat)
    requires Alternating(trs) && j < |trs| && trs[j].kind == Opened
    ensures trs[j].openingFrame == trs[j].frameId
  {
    if j < |trs| - 1 { OpeningNamesItself(Front(trs), j); }
  }

  lemma OpenStepTells(x: Ledger, k: Key, trs: seq<Transition>, tr: Transition)
    requires LedgerTells(x, k, trs) && Alternating(trs) && Follows(trs, tr)
    ensures OpenStep(x.incidents, k, tr) ==
            Ok(if tr.kind == Opened then x.incidents[IncidentOf(k, tr) := OpenIncident(tr)] else x.incidents)
    ensures tr.kind == Opened <==> IncidentOf(k, tr) !in x.incidents
  {
    var i := IncidentOf(k, tr);
    if tr.kind == Opened {
      if i in x.incidents {
        var j :| OpenedBy(trs, k, i, j);
        OpeningNamesItself(trs, j);
      }
    } else {
      var j := OpenHasOpening(trs, k, tr.violation);
    }
  }

  lemma EventStepTells(x: Ledger, k: Key, trs: seq<Transition>, revision: nat, tr: Transition)
    requires LedgerTells(x, k, trs) && Follows(trs, tr)
    ensures EventStep(x.events, k, revision, tr) ==
            Ok(x.events[EventOf(k, tr) := EventRow(IncidentOf(k, tr), tr, revision)])
    ensures EventOf(k, tr) !in x.events
  {
    assert forall j :: !ReportedBy(trs, k, EventOf(k, tr), j);
  }

  lemma SnocOpened(trs: seq<Transition>, tr: Transition, k: Key, i: IncidentId, j: int)
    ensures OpenedBy(trs + [tr], k, i, j) <==>
            OpenedBy(trs, k, i, j) || (j == |trs| && tr.kind == Opened && IncidentOf(k, tr) == i)
  {
  }

  lemma SnocReported(trs: seq<Transition>, tr: Transition, k: Key, e: EventId, j: int)
    ensures ReportedBy(trs + [tr], k, e, j) <==> ReportedBy(trs, k, e, j) || (j == |trs| && EventOf(k, tr) == e)
  {
  }

  lemma SnocOpenAfter(trs: seq<Transition>, tr: Transition, v: Violation)
    requires tr.kind != Updated
    ensures OpenAfter(trs + [tr], v) ==
            if tr.violation != v then OpenAfter(trs, v) else if tr.kind == Opened then Some(tr.openingFrame) else None
  {
    assert Front(trs + [tr]) == trs && Last(trs + [tr]) == tr;
  }

  lemma ApplyOthers(x: Ledger, k: Key, revision: nat, tr: Transition)
    requires ApplyTransition(x, k, revision, tr).Ok?
    ensures OthersKept(x, ApplyTransition(x, k, revision, tr).value, k)
  {
  }

  /** A transition that follows the story is always recorded, and extends it. */
  lemma ApplyTells(x: Ledger, k: Key, trs: seq<Transition>, revision: nat, tr: Transition)
    requires LedgerTells(x, k, trs) && Alternating(trs) && Follows(trs, tr)
    ensures ApplyTransition(x, k, revision, tr).Ok?
    ensures LedgerTells(ApplyTransition(x, k, revision, tr).value, k, trs + [tr])
    ensures OthersKept(x, ApplyTransition(x, k, revision, tr).value, k)
  {
    hide OpenStep, EventStep, OpenAfter, Alternating, OthersKept, OpenIncident, ResolveIncident, OpenedBy, ReportedBy;
    OpenStepTells(x, k, trs, tr);
    EventStepTells(x, k, trs, revision, tr);
    var y := ApplyTransition(x, k, revision, tr).value;
    EventsTell(x, y, k, trs, revision, tr);
    IncidentsTell(x, y, k, trs, tr);
    ApplyOthers(x, k, revision, tr);
  }

  lemma EventsTell(x: Ledger, y: Ledger, k: Key, trs: seq<Transition>, revision: nat, tr: Transition)
    requires LedgerTells(x, k, trs) && EventOf(k, tr) !in x.events
    requires y.events == x.events[EventOf(k, tr) := EventRow(IncidentOf(k, tr), tr, revision)]
    ensures forall e :: e in y.events && e.key == k ==> exists j :: ReportedBy(trs + [tr], k, e, j)
    ensures forall e, j :: ReportedBy(trs + [tr], k, e, j) ==>
              e in y.events && y.events[e].transition == (trs + [tr])[j]
  {
    forall e | e in y.events && e.key == k ensures exists j :: ReportedBy(trs + [tr], k, e, j) {
      if e == EventOf(k, tr) {
        SnocReported(trs, tr, k, e, |trs|);
      } else {
        var j :| ReportedBy(trs, k, e, j);
        SnocReported(trs, tr, k, e, j);
      }
    }
    forall e, j | ReportedBy(trs + [tr], k, e, j) ensures e in y.events && y.events[e].transition == (trs + [tr])[j] {
      SnocReported(trs, tr, k, e, j);
    }
  }

  lemma IncidentsTell(x: Ledger, y: Ledger, k: Key, trs: seq<Transition>, tr: Transition)
    requires LedgerTells(x, k, trs) && Follows(trs, tr) && (tr.kind == Opened <==> IncidentOf(k, tr) !in x.incidents)
    requires var i := IncidentOf(k, tr);
             y.incidents == if tr.kind == Opened then x.incidents[i := OpenIncident(tr)]
                            else x.incidents[i := ResolveIncident(x.incidents[i], tr, EventOf(k, tr))]
    ensures forall i :: i in y.incidents && i.key == k ==>
              (exists j :: OpenedBy(trs + [tr], k, i, j)) &&
              (y.incidents[i].open <==> OpenAfter(trs + [tr], i.violation) == Some(i.openingFrame))
    ensures forall i, j :: OpenedBy(trs + [tr], k, i, j) ==>
              i in y.incidents && y.incidents[i].openedAt == (trs + [tr])[j].observedAt
  {
    hide OpenAfter;
    forall i | i in y.incidents && i.key == k
      ensures (exists j :: OpenedBy(trs + [tr], k, i, j)) &&
              (y.incidents[i].open <==> OpenAfter(trs + [tr], i.violation) == Some(i.openingFrame))
    {
      SnocOpenAfter(trs, tr, i.violation);
      if i == IncidentOf(k, tr) && tr.kind == Opened {
        SnocOpened(trs, tr, k, i, |trs|);
      } else {
        var j :| OpenedBy(trs, k, i, j);
        SnocOpened(trs, tr, k, i, j);
      }
    }
    forall i, j | OpenedBy(trs + [tr], k, i, j)
      ensures i in y.incidents && y.incidents[i].openedAt == (trs + [tr])[j].observedAt
    {
      SnocOpened(trs, tr, k, i, j);
    }
  }

  lemma AlternatingPrefix(xs: seq<Transition>, ys: seq<Transition>)
    requires Alternating(xs + ys)
    ensures Alternating(xs)
  {
    if ys == [] {
      assert xs + ys == xs;
    } else {
      assert Front(xs + ys) == xs + Front(ys);
      AlternatingPrefix(xs, Front(ys));
    }
  }

  lemma OthersKeptTrans(x: Ledger, y: Ledger, z: Ledger, k: Key)
    requires OthersKept(x, y, k) && OthersKept(y, z, k)
    ensures OthersKept(x, z, k)
  {
  }

  /** A batch that continues an alternating stream is always recorded in full. */
  lemma {:induction false} BatchTells(x: Ledger, k: Key, prior: seq<Transition>, revision: nat, trs: seq<Transition>)
    requires LedgerTells(x, k, prior) && Alternating(prior + trs)
    ensures ApplyTransitions(x, k, revision, trs).Ok?
    ensures LedgerTells(ApplyTransitions(x, k, revision, trs).value, k, prior + trs)
    ensures OthersKept(x, ApplyTransitions(x, k, revision, trs).value, k)
  {
    hide LedgerTells, ApplyTransition, Follows, OthersKept;
    AlternatingPrefix(prior, trs);
    if trs == [] {
      assert prior + trs == prior;
      assert OthersKept(x, x, k) by { OthersKeptRefl(x, k); }
    } else {
      var front, l := trs[..|trs| - 1], trs[|trs| - 1];
      assert Front(prior + trs) == prior + front && Last(prior + trs) == l;
      BatchTells(x, k, prior, revision, front);
      var y := ApplyTransitions(x, k, revision, front).value;
      ApplyTells(y, k, prior + front, revision, l);
      assert prior + front + [l] == prior + trs;
      OthersKeptTrans(x, y, ApplyTransition(y, k, revision, l).value, k);
    }
  }

  lemma OthersKeptRefl(x: Ledger, k: Key)
    ensures OthersKept(x, x, k)
  {
  }
}
