/** The per-violation state machine clear -> suspected -> open -> recovering and
    its meaning in terms of runs of consecutive samples. */
module Hysteresis {
  import opened Domain

  datatype Policy = Policy(
    version: string, horizontalM: real, verticalM: real,
    openAfter: int, recoverAfter: int, freshness: int)
  {
    predicate Valid() {
      version != "" && horizontalM >= 0.0 && verticalM >= 0.0 &&
      openAfter >= 1 && recoverAfter >= 1 && freshness > 0
    }
  }

  /** One sample applied to one violation's state. */
  function Advance(p: Policy, v: Violation, state: IncidentState, breached: bool, deviation: real, o: Observation)
    : (IncidentState, Option<Transition>)
  {
    if breached then
      var s := state.(lastObservedAt := o.observedAt, inside := 0, outside := state.outside + 1,
                      worst := if deviation > state.worst then deviation else state.worst);
      var s := if AtRest(s.phase) then s.(phase := Suspected, firstSuspectedAt := o.observedAt)
               else if s.phase == Recovering then s.(phase := Open)
               else s;
      if s.phase == Suspected && s.outside >= p.openAfter then
        (s.(phase := Open, openedAt := s.firstSuspectedAt, openingFrame := o.frameId),
         Some(Transition(v, Opened, o.observedAt, o.frameId, o.frameId, o.walId, o.walSeq, deviation)))
      else (s, None)
    else
      var s := state.(lastObservedAt := o.observedAt, outside := 0, inside := state.inside + 1);
      if s.phase == Suspected then (Cleared(o), None)
      else
        var s := if s.phase == Open then s.(phase := Recovering) else s;
        if s.phase == Recovering && s.inside >= p.recoverAfter then
          (Cleared(o),
           Some(Transition(v, Resolved, o.observedAt, o.frameId, s.openingFrame, o.walId, o.walSeq, 0.0)))
        else if s.phase == Unset then (s.(phase := Clear), None)
        else (s, None)
  }

  function Cleared(o: Observation): IncidentState {
    NO_INCIDENT.(phase := Clear, lastObservedAt := o.observedAt)
  }

  // ---------- traces of known evidence ----------

  datatype Sample = Sample(breached: bool, deviation: real, o: Observation)

  function Front<T>(s: seq<T>): seq<T>
    requires s != []
  {
    s[..|s| - 1]
  }

  function Last<T>(s: seq<T>): T
    requires s != []
  {
    s[|s| - 1]
  }

  function Step(p: Policy, v: Violation, s: IncidentState, x: Sample): (IncidentState, Option<Transition>) {
    Advance(p, v, s, x.breached, x.deviation, x.o)
  }

  function Run(p: Policy, v: Violation, trace: seq<Sample>): IncidentState {
    if trace == [] then NO_INCIDENT else Step(p, v, Run(p, v, Front(trace)), Last(trace)).0
  }

  function Emitted(p: Policy, v: Violation, trace: seq<Sample>): Option<Transition>
    requires trace != []
  {
    Step(p, v, Run(p, v, Front(trace)), Last(trace)).1
  }

  // The n samples before index j are all breached, or all inside.
  ghost predicate AllBreached(trace: seq<Sample>, j: int, n: int) {
    n <= j <= |trace| && forall k :: j - n <= k < j && 0 <= k ==> trace[k].breached
  }

  ghost predicate AllInside(trace: seq<Sample>, j: int, n: int) {
    n <= j <= |trace| && forall k :: j - n <= k < j && 0 <= k ==> !trace[k].breached
  }

  /** Some openAfter consecutive breaches end at i and no recoverAfter
      consecutive inside samples lie after them. */
  ghost predicate OpenSince(p: Policy, trace: seq<Sample>, i: int) {
    && AllBreached(trace, i, p.openAfter)
    && forall j :: i + p.recoverAfter <= j <= |trace| ==> !AllInside(trace, j, p.recoverAfter)
  }

  ghost predicate OpenByRuns(p: Policy, trace: seq<Sample>) {
    exists i :: OpenSince(p, trace, i)
  }

  // Lengths of the breached and inside runs that end the trace.
  function BreachRun(trace: seq<Sample>): (n: nat)
    ensures n <= |trace|
    ensures AllBreached(trace, |trace|, n)
    ensures n < |trace| ==> !trace[|trace| - n - 1].breached
  {
    if trace == [] || !Last(trace).breached then 0 else BreachRun(Front(trace)) + 1
  }

  function InsideRun(trace: seq<Sample>): (n: nat)
    ensures n <= |trace|
    ensures AllInside(trace, |trace|, n)
    ensures n < |trace| ==> trace[|trace| - n - 1].breached
  {
    if trace == [] || Last(trace).breached then 0 else InsideRun(Front(trace)) + 1
  }

  lemma RunsMeasureWindows(trace: seq<Sample>, n: int)
    requires n >= 1
    ensures AllBreached(trace, |trace|, n) <==> BreachRun(trace) >= n
    ensures AllInside(trace, |trace|, n) <==> InsideRun(trace) >= n
  {
  }

  // What the counters and phases say about the runs that end the trace.
  ghost predicate CountersMatch(p: Policy, s: IncidentState, trace: seq<Sample>) {
    var b, w := BreachRun(trace), InsideRun(trace);
    && s.outside == b
    && (s.phase == Suspected <==> !InEpisode(s.phase) && b > 0)
    && (s.phase == Recovering <==> InEpisode(s.phase) && w > 0)
    && (InEpisode(s.phase) ==> s.inside == w < p.recoverAfter)
    && (!InEpisode(s.phase) ==> b < p.openAfter)
    && (s.phase == Suspected ==> s.firstSuspectedAt == trace[|trace| - b].o.observedAt)
    && (AtRest(s.phase) ==> Rested(s))
  }

  lemma {:induction false} CountersAlwaysMatch(p: Policy, v: Violation, trace: seq<Sample>)
    requires p.Valid()
    ensures CountersMatch(p, Run(p, v, trace), trace)
  {
    hide CountersMatch, Advance;
    if trace == [] {
      NothingCounted(p);
    } else {
      CountersAlwaysMatch(p, v, Front(trace));
      if Last(trace).breached {
        CountBreach(p, v, Run(p, v, Front(trace)), trace);
      } else {
        CountInside(p, v, Run(p, v, Front(trace)), trace);
      }
    }
  }

  lemma NothingCounted(p: Policy)
    requires p.Valid()
    ensures CountersMatch(p, NO_INCIDENT, [])
  {
  }

  lemma CountBreach(p: Policy, v: Violation, s: IncidentState, trace: seq<Sample>)
    requires p.Valid() && trace != [] && Last(trace).breached && CountersMatch(p, s, Front(trace))
    ensures CountersMatch(p, Step(p, v, s, Last(trace)).0, trace)
  {
    assert InsideRun(trace) == 0;
  }

  lemma CountInside(p: Policy, v: Violation, s: IncidentState, trace: seq<Sample>)
    requires p.Valid() && trace != [] && !Last(trace).breached && CountersMatch(p, s, Front(trace))
    ensures CountersMatch(p, Step(p, v, s, Last(trace)).0, trace)
  {
    assert BreachRun(trace) == 0;
  }

  lemma FrontWindows(trace: seq<Sample>)
    requires trace != []
    ensures forall j, n :: j < |trace| ==> (AllInside(trace, j, n) <==> AllInside(Front(trace), j, n))
    ensures forall j, n :: j < |trace| ==> (AllBreached(trace, j, n) <==> AllBreached(Front(trace), j, n))
  {
  }

  // Openness since i survives one more sample unless that sample completes a recovery.
  lemma ExtendOpen(p: Policy, trace: seq<Sample>, i: int)
    requires p.Valid() && trace != [] && i < |trace|
    ensures OpenSince(p, trace, i) <==>
            OpenSince(p, Front(trace), i) && (i + p.recoverAfter <= |trace| ==> InsideRun(trace) < p.recoverAfter)
  {
    FrontWindows(trace);
    RunsMeasureWindows(trace, p.recoverAfter);
  }

  // After a breach at i - 1 the trailing inside run cannot reach back past it.
  lemma InsideRunAfter(trace: seq<Sample>, i: int)
    requires 1 <= i <= |trace| && trace[i - 1].breached
    ensures InsideRun(trace) <= |trace| - i
  {
  }

  lemma ExtendBreached(p: Policy, trace: seq<Sample>)
    requires p.Valid() && trace != [] && Last(trace).breached
    ensures OpenByRuns(p, trace) <==> OpenByRuns(p, Front(trace)) || BreachRun(trace) >= p.openAfter
  {
    RunsMeasureWindows(trace, p.openAfter);
    if BreachRun(trace) >= p.openAfter { assert OpenSince(p, trace, |trace|); }
    if i :| OpenSince(p, Front(trace), i) { ExtendOpen(p, trace, i); }
    if i :| OpenSince(p, trace, i) {
      if i < |trace| { ExtendOpen(p, trace, i); }
    }
  }

  lemma ExtendInside(p: Policy, trace: seq<Sample>)
    requires p.Valid() && trace != [] && !Last(trace).breached
    ensures OpenByRuns(p, trace) <==> OpenByRuns(p, Front(trace)) && InsideRun(trace) < p.recoverAfter
  {
    if i :| OpenSince(p, Front(trace), i) { ExtendOpen(p, trace, i); }
    if i :| OpenSince(p, trace, i) {
      InsideRunAfter(trace, i);
      ExtendOpen(p, trace, i);
    }
  }

  // An incident is open after a trace exactly when the runs say so.
  lemma {:induction false} EpisodeIffRuns(p: Policy, v: Violation, trace: seq<Sample>)
    requires p.Valid()
    ensures InEpisode(Run(p, v, trace).phase) <==> OpenByRuns(p, trace)
  {
    if trace == [] {
      assert forall i :: OpenSince(p, trace, i) ==> i - p.openAfter >= 0 && i <= 0;
    } else {
      EpisodeIffRuns(p, v, Front(trace));
      CountersAlwaysMatch(p, v, Front(trace));
      CountersAlwaysMatch(p, v, trace);
      if Last(trace).breached { ExtendBreached(p, trace); } else { ExtendInside(p, trace); }
    }
  }

  // ---------- transitions and the retained episode ----------

  // The greatest positive deviation of the breaches in trace[i..].
  function WorstFrom(trace: seq<Sample>, i: nat): (d: real)
    requires i <= |trace|
    ensures d >= 0.0
    ensures forall k :: i <= k < |trace| && trace[k].breached ==> trace[k].deviation <= d
    ensures d == 0.0 || exists k :: i <= k < |trace| && trace[k].breached && trace[k].deviation == d
  {
    if i == |trace| then 0.0
    else
      var d := WorstFrom(Front(trace), i);
      if Last(trace).breached && Last(trace).deviation > d then Last(trace).deviation else d
  }

  // The state of the current episode: it opened at the frame before index i,
  // which completed the openAfter breaches that start the episode.
  ghost predicate OpenedAtIndex(p: Policy, s: IncidentState, trace: seq<Sample>, i: nat) {
    && 1 <= p.openAfter && OpenSince(p, trace, i)
    && !OpenByRuns(p, trace[..i - 1])
    && BreachRun(trace[..i]) == p.openAfter
    && s.openingFrame == trace[i - 1].o.frameId
    && s.firstSuspectedAt == s.openedAt == trace[i - p.openAfter].o.observedAt
    && s.worst == WorstFrom(trace, i - p.openAfter)
  }

  ghost predicate SuspectedFrom(s: IncidentState, trace: seq<Sample>) {
    s.phase == Suspected ==> s.worst == WorstFrom(trace, |trace| - BreachRun(trace)) && s.openedAt == ZERO_TIME
  }

  lemma {:induction false} SuspectedWorst(p: Policy, v: Violation, trace: seq<Sample>)
    requires p.Valid()
    ensures SuspectedFrom(Run(p, v, trace), trace)
  {
    if trace != [] {
      SuspectedWorst(p, v, Front(trace));
      CountersAlwaysMatch(p, v, Front(trace));
      CountersAlwaysMatch(p, v, trace);
    }
  }

  // Every open episode has its opening frame, start and worst deviation.
  lemma {:induction false} EpisodeRecordsOpening(p: Policy, v: Violation, trace: seq<Sample>) returns (i: nat)
    requires p.Valid() && InEpisode(Run(p, v, trace).phase)
    ensures OpenedAtIndex(p, Run(p, v, trace), trace, i)
  {
    if InEpisode(Run(p, v, Front(trace)).phase) {
      i := EpisodeRecordsOpening(p, v, Front(trace));
      EpisodeContinues(p, v, trace, i);
    } else {
      i := |trace|;
      EpisodeStarts(p, v, trace);
    }
  }

  lemma {:induction false} EpisodeContinues(p: Policy, v: Violation, trace: seq<Sample>, i: nat)
    requires p.Valid() && trace != []
    requires InEpisode(Run(p, v, trace).phase) && InEpisode(Run(p, v, Front(trace)).phase)
    requires OpenedAtIndex(p, Run(p, v, Front(trace)), Front(trace), i)
    ensures OpenedAtIndex(p, Run(p, v, trace), trace, i)
  {
    hide OpenByRuns, OpenSince, BreachRun;
    CountersAlwaysMatch(p, v, trace);
    OpenIndexBounds(p, Front(trace), i);
    var front := Front(trace);
    assert front[..i - 1] == trace[..i - 1] && front[..i] == trace[..i];
    ExtendOpen(p, trace, i);
    assert InsideRun(trace) < p.recoverAfter;
  }

  lemma OpenIndexBounds(p: Policy, trace: seq<Sample>, i: int)
    requires OpenSince(p, trace, i)
    ensures p.openAfter <= i <= |trace|
  {
  }

  lemma {:induction false} EpisodeStarts(p: Policy, v: Violation, trace: seq<Sample>)
    requires p.Valid() && trace != []
    requires InEpisode(Run(p, v, trace).phase) && !InEpisode(Run(p, v, Front(trace)).phase)
    ensures OpenedAtIndex(p, Run(p, v, trace), trace, |trace|)
  {
    hide OpenByRuns, OpenSince, Advance, WorstFrom, BreachRun, CountersMatch;
    assert trace[..|trace|] == trace && trace[..|trace| - 1] == Front(trace);
    EpisodeIffRuns(p, v, Front(trace));
    OpeningSample(p, v, trace);
    OpenNow(p, trace);
  }

  lemma OpenNow(p: Policy, trace: seq<Sample>)
    requires p.Valid() && BreachRun(trace) >= p.openAfter
    ensures OpenSince(p, trace, |trace|)
  {
    RunsMeasureWindows(trace, p.openAfter);
  }

  // The sample that opens an episode completes a run of exactly openAfter breaches.
  lemma {:induction false} OpeningSample(p: Policy, v: Violation, trace: seq<Sample>)
    requires p.Valid() && trace != []
    requires InEpisode(Run(p, v, trace).phase) && !InEpisode(Run(p, v, Front(trace)).phase)
    ensures var s, i := Run(p, v, trace), |trace| - p.openAfter;
            && BreachRun(trace) == p.openAfter
            && s.openingFrame == Last(trace).o.frameId
            && s.firstSuspectedAt == s.openedAt == trace[i].o.observedAt
            && s.worst == WorstFrom(trace, i)
  {
    var front, was := Front(trace), Run(p, v, Front(trace));
    CountersAlwaysMatch(p, v, front);
    SuspectedWorst(p, v, front);
    assert Last(trace).breached;
    assert BreachRun(trace) == BreachRun(front) + 1;
    assert was.phase != Suspected ==> WorstFrom(front, |front|) == 0.0 == was.worst;
  }

  lemma LastSampleIsRecorded(p: Policy, v: Violation, trace: seq<Sample>)
    requires trace != []
    ensures Run(p, v, trace).lastObservedAt == Last(trace).o.observedAt
  {
  }

  // Transitions are emitted exactly when openness changes, with the evidence of
  // the sample that changed it; a resolution names the opening frame.
  lemma EmittedIffChanged(p: Policy, v: Violation, trace: seq<Sample>)
    requires p.Valid() && trace != []
    ensures var o := Last(trace).o;
            var was, now := OpenByRuns(p, Front(trace)), OpenByRuns(p, trace);
            match Emitted(p, v, trace)
            case None => was == now
            case Some(t) =>
              && was != now
              && t.violation == v && t.observedAt == o.observedAt && t.frameId == o.frameId
              && t.walId == o.walId && t.walSeq == o.walSeq
              && t.kind == (if now then Opened else Resolved)
              && t.openingFrame == (if now then o.frameId else Run(p, v, Front(trace)).openingFrame)
              && t.deviation == (if now then Last(trace).deviation else 0.0)
  {
    EpisodeIffRuns(p, v, Front(trace));
    EpisodeIffRuns(p, v, trace);
    CountersAlwaysMatch(p, v, Front(trace));
    CountersAlwaysMatch(p, v, trace);
  }

  // ---------- dropping a clear entry ----------

  // A clear entry carries no memory apart from its inside counter and last sample time.
  predicate Rested(s: IncidentState) {
    AtRest(s.phase) && s.outside == 0 && s.worst == 0.0 && s.openingFrame == "" &&
    s.firstSuspectedAt == ZERO_TIME && s.openedAt == ZERO_TIME
  }

  predicate Alike(a: IncidentState, b: IncidentState) {
    a == b || (Rested(a) && Rested(b))
  }

  // Alike states react identically for ever.
  lemma AdvanceAlike(
    p: Policy, v: Violation, a: IncidentState, b: IncidentState, breached: bool, deviation: real, o: Observation)
    requires Alike(a, b)
    ensures var (a', ta) := Advance(p, v, a, breached, deviation, o);
            var (b', tb) := Advance(p, v, b, breached, deviation, o);
            Alike(a', b') && ta == tb
  {
  }
}
