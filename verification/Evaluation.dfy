/** One observation and whole ordered batches applied to evaluator state. */
module Evaluation {
  import opened Ordering
  import opened Domain
  import opened Hysteresis
  import opened Evaluator

  datatype Signals = Signals(lateral: Evidence, vertical: Evidence, temporal: Evidence)

  function ClampTime(value: Time, lower: Time, upper: Time): Time {
    if value < lower then lower else if value > upper then upper else value
  }

  function Seconds(a: Time, b: Time): real {
    (if a < b then b - a else a - b) as real / 1_000_000_000.0
  }

  function TemporalEvidence(a: Assignment, at: Time): (e: Evidence)
    ensures e.Known?
  {
    if ActiveVolumes(a.volumes, at) == [] then Known(true, 0.0)
    else if WithinEffective(a, at) then Known(false, 0.0)
    else Known(true, Seconds(at, ClampTime(at, a.effectiveFrom, a.effectiveUntil)))
  }

  lemma SpatialVolumesValid(a: Assignment, at: Time)
    requires ValidVolumes(a.volumes)
    ensures ValidVolumes(SpatialVolumes(a, at))
  {
    hide ValidVolume;
    var active := ActiveVolumes(a.volumes, at);
    ActiveVolumesAreActive(a.volumes, at);
    assert forall i :: 0 <= i < |active| ==> active[i] in a.volumes;
  }

  function Signal(e: Engine, a: Assignment, o: Observation): (s: Signals)
    requires ValidVolumes(a.volumes)
    ensures s.temporal.Known?
  {
    SpatialVolumesValid(a, o.observedAt);
    var (lateral, vertical) := Spatial(e, o, SpatialVolumes(a, o.observedAt));
    Signals(lateral, vertical, TemporalEvidence(a, o.observedAt))
  }

  // ---------- state update ----------

  /** Known evidence advances the violation; missing evidence only forgets a clear entry. */
  function Observe(p: Policy, s: EvaluatorState, v: Violation, ev: Evidence, o: Observation): EvaluatorState {
    match ev
    case Known(breached, deviation) => s[v := Advance(p, v, Lookup(s, v), breached, deviation, o).0]
    case NotEvaluated => if AtRest(Lookup(s, v).phase) then s - {v} else s
  }

  function Emits(p: Policy, s: EvaluatorState, v: Violation, ev: Evidence, o: Observation): seq<Transition> {
    match ev
    case Known(breached, deviation) =>
      (match Advance(p, v, Lookup(s, v), breached, deviation, o).1 case Some(t) => [t] case None => [])
    case NotEvaluated => []
  }

  function NextState(p: Policy, s: EvaluatorState, g: Signals, o: Observation): EvaluatorState {
    Observe(p, Observe(p, Observe(p, s, Lateral, g.lateral, o), Vertical, g.vertical, o), Temporal, g.temporal, o)
  }

  function AllEmitted(p: Policy, s: EvaluatorState, g: Signals, o: Observation): seq<Transition> {
    Emits(p, s, Lateral, g.lateral, o) + Emits(p, s, Vertical, g.vertical, o) + Emits(p, s, Temporal, g.temporal, o)
  }

  predicate AnyPhase(s: EvaluatorState, p: Phase) {
    exists v :: v in s && v != TelemetryLoss && s[v].phase == p
  }

  function Verdict(s: EvaluatorState, verticalKnown: bool): Condition {
    if AnyPhase(s, Open) then NonConforming
    else if AnyPhase(s, Suspected) then Suspicious
    else if AnyPhase(s, Recovering) then Recuperating
    else if verticalKnown then Conforming
    else Unknown
  }

  function EarlierOf(i: IncidentState, t: Time): Time {
    if AtRest(i.phase) then t
    else
      var t := if !IsZero(i.firstSuspectedAt) && i.firstSuspectedAt < t then i.firstSuspectedAt else t;
      if !IsZero(i.openedAt) && i.openedAt < t then i.openedAt else t
  }

  /** Earliest of the fallback and the timestamps of incidents that are not clear. */
  function Earliest(s: EvaluatorState, fallback: Time): Time {
    EarlierOf(Lookup(s, TelemetryLoss), EarlierOf(Lookup(s, Temporal),
      EarlierOf(Lookup(s, Vertical), EarlierOf(Lookup(s, Lateral), fallback))))
  }

  // ---------- evaluation ----------

  /** The result of one observation. */
  function Judge(e: Engine, a: Assignment, o: Observation, s: EvaluatorState): Result<Domain.Evaluation, InvalidInput> {
    if !ValidAssignment(a, e.policy) || !ValidObservation(a, o) then Err(InvalidInput)
    else
      var g := Signal(e, a, o);
      var s' := NextState(e.policy, s, g, o);
      Ok(Domain.Evaluation.Evaluation(
           Verdict(s', g.vertical.Known?), Pending, s', AllEmitted(e.policy, s, g, o),
           Earliest(s, o.observedAt), o.observedAt, o.frameId, o.walId, o.walSeq))
  }

  /** The result of a non-empty, canonically ordered batch. */
  function JudgeAll(e: Engine, a: Assignment, obs: seq<Observation>, s: EvaluatorState)
    : Result<Domain.Evaluation, InvalidInput>
  {
    if obs == [] then Err(InvalidInput)
    else if |obs| == 1 then Judge(e, a, obs[0], s)
    else
      match JudgeAll(e, a, Front(obs), s)
      case Err(x) => Err(x)
      case Ok(sofar) =>
        if ObsBefore(Last(obs), Last(Front(obs))) then Err(InvalidInput)
        else match Judge(e, a, Last(obs), sofar.state)
          case Err(x) => Err(x)
          case Ok(r) => Ok(Chain(sofar, r))
  }

  // The later evaluation, with the transitions and causal start of the earlier one.
  function Chain(x: Domain.Evaluation, y: Domain.Evaluation): Domain.Evaluation {
    y.(transitions := x.transitions + y.transitions, causalFrom := x.causalFrom)
  }

  // ---------- batch splitting ----------

  /** Evaluating xs and then ys from the resulting state is evaluating xs + ys. */
  lemma {:induction false} BatchSplit(
    e: Engine, a: Assignment, xs: seq<Observation>, ys: seq<Observation>, s: EvaluatorState)
    requires xs != [] && ys != []
    ensures var whole, left := JudgeAll(e, a, xs + ys, s), JudgeAll(e, a, xs, s);
            if left.Ok? && !ObsBefore(ys[0], Last(xs)) && JudgeAll(e, a, ys, left.value.state).Ok?
            then whole == Ok(Chain(left.value, JudgeAll(e, a, ys, left.value.state).value))
            else whole.Err?
    decreases |ys|
  {
    assert Front(xs + ys) == xs + Front(ys) && Last(xs + ys) == Last(ys);
    hide Judge;
    if |ys| == 1 {
      assert xs + Front(ys) == xs;
      assert ys[0] == Last(ys);
    } else {
      BatchSplit(e, a, xs, Front(ys), s);
      assert Last(xs + Front(ys)) == Last(Front(ys));
      if JudgeAll(e, a, xs, s).Ok? && JudgeAll(e, a, Front(ys), JudgeAll(e, a, xs, s).value.state).Ok? {
        var l, m := JudgeAll(e, a, xs, s).value, JudgeAll(e, a, Front(ys), JudgeAll(e, a, xs, s).value.state).value;
        if Judge(e, a, Last(ys), m.state).Ok? {
          ChainAssociative(l, m, Judge(e, a, Last(ys), m.state).value);
        }
      }
    }
  }

  lemma ChainAssociative(x: Domain.Evaluation, y: Domain.Evaluation, z: Domain.Evaluation)
    ensures Chain(Chain(x, y), z) == Chain(x, Chain(y, z))
  {
    assert (x.transitions + y.transitions) + z.transitions == x.transitions + (y.transitions + z.transitions);
  }

  // A successful batch reports the cursor of its last observation.
  lemma BatchCursor(e: Engine, a: Assignment, obs: seq<Observation>, s: EvaluatorState)
    requires JudgeAll(e, a, obs, s).Ok?
    ensures obs != []
    ensures var r := JudgeAll(e, a, obs, s).value;
            r.Position() == Last(obs).Position() && r.causalFrom == Earliest(s, obs[0].observedAt) &&
            r.recording == Pending
  {
    if |obs| > 1 { BatchCursor(e, a, Front(obs), s); }
  }

  // A successful batch is evaluated observation by observation.
  lemma {:induction false} BatchValid(e: Engine, a: Assignment, obs: seq<Observation>, s: EvaluatorState)
    requires JudgeAll(e, a, obs, s).Ok?
    ensures ValidAssignment(a, e.policy)
    ensures forall i :: 0 <= i < |obs| ==> ValidObservation(a, obs[i])
  {
    hide Judge, ValidAssignment, ValidObservation;
    if |obs| == 1 {
      JudgeValid(e, a, obs[0], s);
    } else {
      BatchValid(e, a, Front(obs), s);
      JudgeValid(e, a, Last(obs), JudgeAll(e, a, Front(obs), s).value.state);
    }
  }

  lemma JudgeValid(e: Engine, a: Assignment, o: Observation, s: EvaluatorState)
    requires Judge(e, a, o, s).Ok?
    ensures ValidAssignment(a, e.policy) && ValidObservation(a, o)
  {
    hide ValidAssignment, ValidObservation, Signal, NextState;
  }

  /** A batch fails only on invalid input: valid observations in order always evaluate. */
  lemma {:induction false} ValidBatchEvaluates(e: Engine, a: Assignment, obs: seq<Observation>, s: EvaluatorState)
    requires ValidAssignment(a, e.policy) && obs != [] && Ascending(ObsBefore, obs)
    requires forall i :: 0 <= i < |obs| ==> ValidObservation(a, obs[i])
    ensures JudgeAll(e, a, obs, s).Ok?
  {
    hide Signal, NextState, AllEmitted, Verdict, Earliest, ValidAssignment, ValidObservation, ObsBefore;
    if |obs| > 1 {
      ValidBatchEvaluates(e, a, Front(obs), s);
      ObsBeforeTrichotomy(Last(obs), Last(Front(obs)));
      assert ObsBefore(obs[|obs| - 2], obs[|obs| - 1]);
    }
  }

  // ---------- reachable states and causal bounds ----------

  // What every state produced by evaluation looks like at time `at`.
  ghost predicate WellFormedIncident(i: IncidentState, at: Time) {
    && i.phase != Unset
    && !IsZero(i.lastObservedAt) && i.lastObservedAt <= at
    && (AtRest(i.phase) ==> Rested(i))
    && (!AtRest(i.phase) ==> !IsZero(i.firstSuspectedAt) && i.firstSuspectedAt <= i.lastObservedAt)
    && (i.phase == Suspected ==> IsZero(i.openedAt))
    && (InEpisode(i.phase) ==> i.openedAt == i.firstSuspectedAt)
  }

  ghost predicate WellFormed(s: EvaluatorState, at: Time) {
    TelemetryLoss !in s && forall v :: v in s ==> WellFormedIncident(s[v], at)
  }

  // Incidents that are not clear started no earlier than lo.
  ghost predicate StartedFrom(s: EvaluatorState, lo: Time) {
    forall v :: v in s && !AtRest(s[v].phase) ==> lo <= s[v].firstSuspectedAt
  }

  lemma EarliestBounds(s: EvaluatorState, at: Time, t: Time)
    requires WellFormed(s, at)
    ensures Earliest(s, t) <= t && StartedFrom(s, Earliest(s, t))
    ensures Earliest(s, t) == t || exists v :: v in s && !AtRest(s[v].phase) && Earliest(s, t) == s[v].firstSuspectedAt
  {
    forall v | v in s && !AtRest(s[v].phase) ensures Earliest(s, t) <= s[v].firstSuspectedAt {
      assert v == Lateral || v == Vertical || v == Temporal;
    }
  }

  lemma AdvanceWithin(
    p: Policy, v: Violation, i: IncidentState, breached: bool, deviation: real, o: Observation, lo: Time)
    requires !IsZero(o.observedAt) && lo <= o.observedAt
    requires i == NO_INCIDENT || WellFormedIncident(i, o.observedAt)
    requires !AtRest(i.phase) ==> lo <= i.firstSuspectedAt
    ensures var (i', t) := Advance(p, v, i, breached, deviation, o);
            && WellFormedIncident(i', o.observedAt) && IncidentWithin(i', lo, o.observedAt)
            && (!AtRest(i'.phase) ==> lo <= i'.firstSuspectedAt)
            && (t.Some? ==> t.value.observedAt == o.observedAt)
  {
  }

  lemma ObserveWithin(p: Policy, s: EvaluatorState, v: Violation, ev: Evidence, o: Observation, lo: Time)
    requires v != TelemetryLoss && !IsZero(o.observedAt) && lo <= o.observedAt
    requires WellFormed(s, o.observedAt) && StartedFrom(s, lo)
    ensures var s' := Observe(p, s, v, ev, o);
            && WellFormed(s', o.observedAt) && StartedFrom(s', lo)
            && (v in s' ==> IncidentWithin(s'[v], lo, o.observedAt))
            && (forall u :: u != v ==> (u in s' <==> u in s) && (u in s' ==> s'[u] == s[u]))
    ensures forall i :: 0 <= i < |Emits(p, s, v, ev, o)| ==> Emits(p, s, v, ev, o)[i].observedAt == o.observedAt
  {
    hide Advance;
    if ev.Known? {
      AdvanceWithin(p, v, Lookup(s, v), ev.breached, ev.deviation, o, lo);
    } else if v in s {
      RetainedWithin(s[v], o.observedAt, lo);
    }
  }

  lemma RetainedWithin(i: IncidentState, at: Time, lo: Time)
    requires WellFormedIncident(i, at) && (!AtRest(i.phase) ==> lo <= i.firstSuspectedAt)
    ensures !AtRest(i.phase) ==> IncidentWithin(i, lo, at)
  {
  }

  lemma JudgeWithin(e: Engine, a: Assignment, o: Observation, s: EvaluatorState, lo: Time)
    requires Judge(e, a, o, s).Ok? && lo <= o.observedAt
    requires WellFormed(s, o.observedAt) && StartedFrom(s, lo)
    ensures var r := Judge(e, a, o, s).value;
            && WellFormed(r.state, o.observedAt) && StartedFrom(r.state, lo)
            && StateWithin(r.state, lo, o.observedAt)
            && (forall i :: 0 <= i < |r.transitions| ==> r.transitions[i].observedAt == o.observedAt)
  {
    hide Advance, Spatial, TemporalEvidence, WellFormedIncident, IncidentWithin;
    var p, g := e.policy, Signal(e, a, o);
    var s1 := Observe(p, s, Lateral, g.lateral, o);
    var s2 := Observe(p, s1, Vertical, g.vertical, o);
    ObserveWithin(p, s, Lateral, g.lateral, o, lo);
    ObserveWithin(p, s1, Vertical, g.vertical, o, lo);
    ObserveWithin(p, s2, Temporal, g.temporal, o, lo);
    ObserveWithin(p, s, Vertical, g.vertical, o, lo);
    ObserveWithin(p, s, Temporal, g.temporal, o, lo);
  }

  /** From a reachable state, every timestamp of the result lies between the
      causal start and the watermark. */
  lemma {:induction false} CausalBounds(e: Engine, a: Assignment, obs: seq<Observation>, s: EvaluatorState)
    requires JudgeAll(e, a, obs, s).Ok? && WellFormed(s, obs[0].observedAt)
    ensures var r := JudgeAll(e, a, obs, s).value;
            && r.causalFrom <= obs[0].observedAt <= r.observedAt
            && WellFormed(r.state, r.observedAt) && StartedFrom(r.state, r.causalFrom)
            && StateWithin(r.state, r.causalFrom, r.observedAt)
            && TransitionsWithin(r.transitions, r.causalFrom, r.observedAt)
  {
    hide WellFormedIncident, IncidentWithin, Signal, NextState, AllEmitted;
    BatchCursor(e, a, obs, s);
    BatchValid(e, a, obs, s);
    EarliestBounds(s, obs[0].observedAt, obs[0].observedAt);
    if |obs| == 1 {
      JudgeWithin(e, a, obs[0], s, Earliest(s, obs[0].observedAt));
    } else {
      var front := Front(obs);
      CausalBounds(e, a, front, s);
      var m := JudgeAll(e, a, front, s).value;
      BatchCursor(e, a, front, s);
      assert m.observedAt <= Last(obs).observedAt;
      WellFormedLater(m.state, m.observedAt, Last(obs).observedAt);
      JudgeWithin(e, a, Last(obs), m.state, m.causalFrom);
    }
  }

  lemma WellFormedLater(s: EvaluatorState, at: Time, later: Time)
    requires WellFormed(s, at) && at <= later
    ensures WellFormed(s, later)
  {
  }

  /** s is the state after evaluating xs from the empty state. */
  ghost predicate Reaches(e: Engine, a: Assignment, xs: seq<Observation>, s: EvaluatorState) {
    if xs == [] then s == map[] else JudgeAll(e, a, xs, map[]).Ok? && JudgeAll(e, a, xs, map[]).value.state == s
  }

  // Reached states are well formed from then on.
  lemma ReachableWellFormed(e: Engine, a: Assignment, xs: seq<Observation>, s: EvaluatorState, at: Time)
    requires Reaches(e, a, xs, s) && (xs != [] ==> Last(xs).observedAt <= at)
    ensures WellFormed(s, at)
  {
    hide JudgeAll;
    if xs != [] {
      BatchCursor(e, a, xs, map[]);
      CausalBounds(e, a, xs, map[]);
      WellFormedLater(s, Last(xs).observedAt, at);
    }
  }

  /** Whatever was evaluated before, every timestamp of the next batch's result
      lies between its causal start and its watermark. */
  lemma ReachableBounds(e: Engine, a: Assignment, xs: seq<Observation>, s: EvaluatorState, ys: seq<Observation>)
    requires Reaches(e, a, xs, s) && JudgeAll(e, a, ys, s).Ok?
    requires xs != [] ==> !ObsBefore(ys[0], Last(xs))
    ensures var r := JudgeAll(e, a, ys, s).value;
            && r.causalFrom <= ys[0].observedAt <= r.observedAt
            && StateWithin(r.state, r.causalFrom, r.observedAt)
            && TransitionsWithin(r.transitions, r.causalFrom, r.observedAt)
  {
    hide JudgeAll, WellFormed;
    BatchCursor(e, a, ys, s);
    ReachableWellFormed(e, a, xs, s, ys[0].observedAt);
    CausalBounds(e, a, ys, s);
  }

  // ---------- dropping clear entries ----------

  ghost predicate AlikeStates(s: EvaluatorState, t: EvaluatorState) {
    forall v :: Alike(Lookup(s, v), Lookup(t, v))
  }

  lemma ObserveAlike(p: Policy, s: EvaluatorState, t: EvaluatorState, v: Violation, ev: Evidence, o: Observation)
    requires AlikeStates(s, t)
    ensures AlikeStates(Observe(p, s, v, ev, o), Observe(p, t, v, ev, o))
    ensures Emits(p, s, v, ev, o) == Emits(p, t, v, ev, o)
  {
    hide Advance;
    if ev.Known? { AdvanceAlike(p, v, Lookup(s, v), Lookup(t, v), ev.breached, ev.deviation, o); }
    forall u ensures Alike(Lookup(Observe(p, s, v, ev, o), u), Lookup(Observe(p, t, v, ev, o), u)) {
      assert Alike(Lookup(s, u), Lookup(t, u));
    }
  }

  lemma ObserveOther(p: Policy, s: EvaluatorState, v: Violation, ev: Evidence, o: Observation, u: Violation)
    requires u != v
    ensures Lookup(Observe(p, s, v, ev, o), u) == Lookup(s, u)
  {
  }

  lemma NextStateAlike(p: Policy, s: EvaluatorState, t: EvaluatorState, g: Signals, o: Observation)
    requires AlikeStates(s, t)
    ensures AlikeStates(NextState(p, s, g, o), NextState(p, t, g, o))
    ensures AllEmitted(p, s, g, o) == AllEmitted(p, t, g, o)
  {
    hide Observe, Emits, AlikeStates;
    var s1, t1 := Observe(p, s, Lateral, g.lateral, o), Observe(p, t, Lateral, g.lateral, o);
    var s2, t2 := Observe(p, s1, Vertical, g.vertical, o), Observe(p, t1, Vertical, g.vertical, o);
    ObserveAlike(p, s, t, Lateral, g.lateral, o);
    ObserveAlike(p, s1, t1, Vertical, g.vertical, o);
    ObserveAlike(p, s2, t2, Temporal, g.temporal, o);
    ObserveAlike(p, s, t, Vertical, g.vertical, o);
    ObserveAlike(p, s, t, Temporal, g.temporal, o);
  }

  lemma EarliestAlike(s: EvaluatorState, t: EvaluatorState, at: Time)
    requires AlikeStates(s, t)
    ensures Earliest(s, at) == Earliest(t, at)
  {
    assert Alike(Lookup(s, Lateral), Lookup(t, Lateral)) && Alike(Lookup(s, Vertical), Lookup(t, Vertical));
    assert Alike(Lookup(s, Temporal), Lookup(t, Temporal)) && Alike(Lookup(s, TelemetryLoss), Lookup(t, TelemetryLoss));
  }

  lemma JudgeAlike(e: Engine, a: Assignment, o: Observation, s: EvaluatorState, t: EvaluatorState)
    requires AlikeStates(s, t) && Judge(e, a, o, s).Ok?
    ensures var x, y := Judge(e, a, o, s), Judge(e, a, o, t);
            && y.Ok? && AlikeStates(x.value.state, y.value.state)
            && x.value.transitions == y.value.transitions && x.value.condition == y.value.condition
            && x.value.causalFrom == y.value.causalFrom
  {
    hide NextState, AllEmitted, Earliest, AlikeStates, Signal, AnyPhase;
    JudgeValid(e, a, o, s);
    var p, g := e.policy, Signal(e, a, o);
    NextStateAlike(p, s, t, g, o);
    PhasesAlike(NextState(p, s, g, o), NextState(p, t, g, o));
    EarliestAlike(s, t, o.observedAt);
  }

  lemma PhasesAlike(s: EvaluatorState, t: EvaluatorState)
    requires AlikeStates(s, t)
    ensures forall ph :: !AtRest(ph) ==> (AnyPhase(s, ph) <==> AnyPhase(t, ph))
  {
    forall ph | !AtRest(ph) ensures AnyPhase(s, ph) <==> AnyPhase(t, ph) {
      assert forall v :: Alike(Lookup(s, v), Lookup(t, v));
      if AnyPhase(s, ph) { var v :| v in s && v != TelemetryLoss && s[v].phase == ph; assert Lookup(t, v) == s[v]; }
      if AnyPhase(t, ph) { var v :| v in t && v != TelemetryLoss && t[v].phase == ph; assert Lookup(s, v) == t[v]; }
    }
  }

  lemma {:induction false} BatchAlike(
    e: Engine, a: Assignment, obs: seq<Observation>, s: EvaluatorState, t: EvaluatorState)
    requires AlikeStates(s, t) && JudgeAll(e, a, obs, s).Ok?
    ensures var x, y := JudgeAll(e, a, obs, s), JudgeAll(e, a, obs, t);
            && y.Ok? && AlikeStates(x.value.state, y.value.state)
            && x.value.transitions == y.value.transitions && x.value.condition == y.value.condition
            && x.value.causalFrom == y.value.causalFrom
  {
    if |obs| == 1 {
      JudgeAlike(e, a, obs[0], s, t);
    } else {
      BatchAlike(e, a, Front(obs), s, t);
      JudgeAlike(e, a, Last(obs), JudgeAll(e, a, Front(obs), s).value.state, JudgeAll(e, a, Front(obs), t).value.state);
    }
  }

  /** Forgetting any clear entry of a reachable state is invisible to every later
      batch: same transitions, same condition, same causal start. */
  lemma DroppingClearIsInvisible(
    e: Engine, a: Assignment, obs: seq<Observation>, s: EvaluatorState, at: Time, v: Violation)
    requires WellFormed(s, at) && AtRest(Lookup(s, v).phase) && JudgeAll(e, a, obs, s).Ok?
    ensures var x, y := JudgeAll(e, a, obs, s), JudgeAll(e, a, obs, s - {v});
            && y.Ok? && x.value.transitions == y.value.transitions
            && x.value.condition == y.value.condition && x.value.causalFrom == y.value.causalFrom
  {
    BatchAlike(e, a, obs, s, s - {v});
  }

  /** After any batch from the empty state, forgetting a clear entry is invisible
      to every later batch. */
  lemma ReachableDropsClear(
    e: Engine, a: Assignment, xs: seq<Observation>, s: EvaluatorState, ys: seq<Observation>, v: Violation)
    requires Reaches(e, a, xs, s) && AtRest(Lookup(s, v).phase) && JudgeAll(e, a, ys, s).Ok?
    ensures var x, y := JudgeAll(e, a, ys, s), JudgeAll(e, a, ys, s - {v});
            && y.Ok? && x.value.transitions == y.value.transitions
            && x.value.condition == y.value.condition && x.value.causalFrom == y.value.causalFrom
  {
    hide JudgeAll, WellFormed;
    var at := if xs == [] then 0 else Last(xs).observedAt;
    ReachableWellFormed(e, a, xs, s, at);
    DroppingClearIsInvisible(e, a, ys, s, at, v);
  }

  // ---------- batches follow the run-length specification ----------

  function EvidenceFor(g: Signals, v: Violation): Evidence {
    match v
    case Lateral => g.lateral
    case Vertical => g.vertical
    case Temporal => g.temporal
    case TelemetryLoss => NotEvaluated
  }

  // The known evidence of one violation in a sequence of observations.
  function Samples(e: Engine, a: Assignment, obs: seq<Observation>, v: Violation): seq<Sample>
    requires ValidVolumes(a.volumes)
  {
    if obs == [] then []
    else Samples(e, a, Front(obs), v) + SampleOf(EvidenceFor(Signal(e, a, Last(obs)), v), Last(obs))
  }

  function SampleOf(ev: Evidence, o: Observation): seq<Sample> {
    if ev.Known? then [Sample(ev.breached, ev.deviation, o)] else []
  }

  function EmittedAlong(p: Policy, v: Violation, trace: seq<Sample>): seq<Transition> {
    if trace == [] then []
    else EmittedAlong(p, v, Front(trace)) + match Emitted(p, v, trace) case Some(t) => [t] case None => []
  }

  function OfViolation(ts: seq<Transition>, v: Violation): seq<Transition> {
    if ts == [] then [] else OfViolation(Front(ts), v) + if Last(ts).violation == v then [Last(ts)] else []
  }

  lemma {:induction false} OfViolationAppend(xs: seq<Transition>, ys: seq<Transition>, v: Violation)
    ensures OfViolation(xs + ys, v) == OfViolation(xs, v) + OfViolation(ys, v)
  {
    if ys == [] {
      assert xs + ys == xs;
    } else {
      assert Front(xs + ys) == xs + Front(ys);
      OfViolationAppend(xs, Front(ys), v);
    }
  }

  lemma OfViolationSingle(ts: seq<Transition>, u: Violation, v: Violation)
    requires |ts| <= 1 && forall i :: 0 <= i < |ts| ==> ts[i].violation == u
    ensures OfViolation(ts, v) == if u == v then ts else []
  {
    if ts != [] { assert Front(ts) == [] && OfViolation([], v) == []; }
  }

  lemma EmitsOwn(p: Policy, s: EvaluatorState, v: Violation, ev: Evidence, o: Observation)
    ensures var ts := Emits(p, s, v, ev, o); |ts| <= 1 && forall i :: 0 <= i < |ts| ==> ts[i].violation == v
  {
  }

  // One observation changes and reports a violation through its own evidence only.
  lemma NextStateAt(p: Policy, s: EvaluatorState, g: Signals, o: Observation, v: Violation)
    requires v != TelemetryLoss
    ensures Lookup(NextState(p, s, g, o), v) == Lookup(Observe(p, s, v, EvidenceFor(g, v), o), v)
  {
    hide Observe, Lookup;
    var s1 := Observe(p, s, Lateral, g.lateral, o);
    var s2 := Observe(p, s1, Vertical, g.vertical, o);
    match v {
      case Lateral => ObserveOther(p, s1, Vertical, g.vertical, o, v); ObserveOther(p, s2, Temporal, g.temporal, o, v);
      case Vertical => ObserveOther(p, s, Lateral, g.lateral, o, v); ObserveOther(p, s2, Temporal, g.temporal, o, v);
                       ObserveSame(p, s, s1, v, g.vertical, o);
      case Temporal => ObserveOther(p, s, Lateral, g.lateral, o, v); ObserveOther(p, s1, Vertical, g.vertical, o, v);
                       ObserveSame(p, s, s2, v, g.temporal, o);
    }
  }

  lemma ObserveSame(p: Policy, s: EvaluatorState, t: EvaluatorState, v: Violation, ev: Evidence, o: Observation)
    requires Lookup(s, v) == Lookup(t, v)
    ensures Lookup(Observe(p, s, v, ev, o), v) == Lookup(Observe(p, t, v, ev, o), v)
    ensures Emits(p, s, v, ev, o) == Emits(p, t, v, ev, o)
  {
    hide Advance;
  }

  lemma EmittedAt(p: Policy, s: EvaluatorState, g: Signals, o: Observation, v: Violation)
    requires v != TelemetryLoss
    ensures OfViolation(AllEmitted(p, s, g, o), v) == Emits(p, s, v, EvidenceFor(g, v), o)
  {
    hide Emits, OfViolation;
    var l, w, t := Emits(p, s, Lateral, g.lateral, o), Emits(p, s, Vertical, g.vertical, o),
      Emits(p, s, Temporal, g.temporal, o);
    EmitsOwn(p, s, Lateral, g.lateral, o);
    EmitsOwn(p, s, Vertical, g.vertical, o);
    EmitsOwn(p, s, Temporal, g.temporal, o);
    OfViolationSingle(l, Lateral, v);
    OfViolationSingle(w, Vertical, v);
    OfViolationSingle(t, Temporal, v);
    OfViolationAppend(l + w, t, v);
    OfViolationAppend(l, w, v);
  }

  lemma SampleFollows(p: Policy, v: Violation, s: EvaluatorState, ev: Evidence, o: Observation, trace: seq<Sample>)
    requires p.Valid() && Alike(Lookup(s, v), Run(p, v, trace))
    ensures var trace' := trace + SampleOf(ev, o);
            && Alike(Lookup(Observe(p, s, v, ev, o), v), Run(p, v, trace'))
            && EmittedAlong(p, v, trace') == EmittedAlong(p, v, trace) + Emits(p, s, v, ev, o)
  {
    hide Advance;
    var trace' := trace + SampleOf(ev, o);
    if ev.Known? {
      assert Front(trace') == trace;
      AdvanceAlike(p, v, Lookup(s, v), Run(p, v, trace), ev.breached, ev.deviation, o);
    } else {
      assert trace' == trace;
      CountersAlwaysMatch(p, v, trace);
    }
  }

  lemma {:induction false} BatchFollowsRuns(e: Engine, a: Assignment, obs: seq<Observation>, v: Violation)
    requires e.policy.Valid() && v != TelemetryLoss && JudgeAll(e, a, obs, map[]).Ok? && ValidVolumes(a.volumes)
    ensures var r := JudgeAll(e, a, obs, map[]).value;
            var trace := Samples(e, a, obs, v);
            && Alike(Lookup(r.state, v), Run(e.policy, v, trace))
            && OfViolation(r.transitions, v) == EmittedAlong(e.policy, v, trace)
  {
    hide Signal, NextState, AllEmitted, Alike, Run, SampleOf, Observe, Emits, EmittedAlong;
    var p := e.policy;
    if |obs| == 1 {
      var g := Signal(e, a, obs[0]);
      EmptyTrace(p, v);
      assert Samples(e, a, Front(obs), v) == [];
      NextStateAt(p, map[], g, obs[0], v);
      EmittedAt(p, map[], g, obs[0], v);
      SampleFollows(p, v, map[], EvidenceFor(g, v), obs[0], []);
    } else {
      BatchFollowsRuns(e, a, Front(obs), v);
      var m := JudgeAll(e, a, Front(obs), map[]).value;
      var g := Signal(e, a, Last(obs));
      NextStateAt(p, m.state, g, Last(obs), v);
      EmittedAt(p, m.state, g, Last(obs), v);
      SampleFollows(p, v, m.state, EvidenceFor(g, v), Last(obs), Samples(e, a, Front(obs), v));
      OfViolationAppend(m.transitions, AllEmitted(p, m.state, g, Last(obs)), v);
    }
  }

  lemma EmptyTrace(p: Policy, v: Violation)
    ensures Alike(Lookup(map[], v), Run(p, v, [])) && EmittedAlong(p, v, []) == []
  {
  }

  /** After a batch a violation is open exactly when some openAfter consecutive
      breaches were not yet followed by recoverAfter consecutive inside samples. */
  lemma BatchOpenIffRuns(e: Engine, a: Assignment, obs: seq<Observation>, v: Violation)
    requires e.policy.Valid() && v != TelemetryLoss && JudgeAll(e, a, obs, map[]).Ok? && ValidVolumes(a.volumes)
    ensures InEpisode(Lookup(JudgeAll(e, a, obs, map[]).value.state, v).phase) <==>
            OpenByRuns(e.policy, Samples(e, a, obs, v))
  {
    BatchFollowsRuns(e, a, obs, v);
    EpisodeIffRuns(e.policy, v, Samples(e, a, obs, v));
  }

  // ---------- the loops that compute it ----------

  ghost predicate CausalCandidate(s: EvaluatorState, v: Violation, t: Time) {
    v in s && !AtRest(s[v].phase) && !IsZero(t) && (t == s[v].firstSuspectedAt || t == s[v].openedAt)
  }

  // r is the least of the fallback and the candidates of the violations in `done`.
  ghost predicate LeastCandidate(s: EvaluatorState, done: set<Violation>, fallback: Time, r: Time) {
    && r <= fallback
    && (forall v, t :: v in done && CausalCandidate(s, v, t) ==> r <= t)
    && (r == fallback || exists v :: v in done && CausalCandidate(s, v, r))
  }

  lemma EarliestIsLeast(s: EvaluatorState, fallback: Time)
    ensures LeastCandidate(s, s.Keys, fallback, Earliest(s, fallback))
  {
    var r := Earliest(s, fallback);
    forall v, t | v in s.Keys && CausalCandidate(s, v, t) ensures r <= t {
      assert v == Lateral || v == Vertical || v == Temporal || v == TelemetryLoss;
    }
    assert r == fallback || CausalCandidate(s, Lateral, r) || CausalCandidate(s, Vertical, r) ||
           CausalCandidate(s, Temporal, r) || CausalCandidate(s, TelemetryLoss, r);
  }

  /** Map iteration order is arbitrary; the minimum does not depend on it. */
  method EarliestCausalTimestamp(s: EvaluatorState, fallback: Time) returns (earliest: Time)
    ensures earliest == Earliest(s, fallback)
  {
    earliest := fallback;
    var todo := s.Keys;
    while todo != {}
      invariant todo <= s.Keys
      invariant LeastCandidate(s, s.Keys - todo, fallback, earliest)
      decreases |todo|
    {
      var v :| v in todo;
      ghost var was := earliest;
      if !AtRest(s[v].phase) {
        if !IsZero(s[v].firstSuspectedAt) && s[v].firstSuspectedAt < earliest { earliest := s[v].firstSuspectedAt; }
        if !IsZero(s[v].openedAt) && s[v].openedAt < earliest { earliest := s[v].openedAt; }
      }
      assert earliest == was || CausalCandidate(s, v, earliest);
      todo := todo - {v};
    }
    assert s.Keys - todo == s.Keys;
    EarliestIsLeast(s, fallback);
  }

  ghost predicate AnyIn(s: EvaluatorState, done: set<Violation>, p: Phase) {
    exists v :: v in done && v in s && v != TelemetryLoss && s[v].phase == p
  }

  method ConditionOf(s: EvaluatorState, verticalKnown: bool) returns (condition: Condition)
    ensures condition == Verdict(s, verticalKnown)
  {
    condition := Conforming;
    var todo := s.Keys;
    while todo != {}
      invariant todo <= s.Keys
      invariant condition == if AnyIn(s, s.Keys - todo, Open) then NonConforming
                             else if AnyIn(s, s.Keys - todo, Suspected) then Suspicious
                             else if AnyIn(s, s.Keys - todo, Recovering) then Recuperating
                             else Conforming
      decreases |todo|
    {
      var v :| v in todo;
      ghost var done, more := s.Keys - todo, s.Keys - (todo - {v});
      AnyInAdd(s, done, more, v);
      if v != TelemetryLoss {
        match s[v].phase {
          case Open => condition := NonConforming;
          case Suspected => if condition != NonConforming { condition := Suspicious; }
          case Recovering => if condition == Conforming { condition := Recuperating; }
          case _ =>
        }
      }
      todo := todo - {v};
    }
    assert s.Keys - todo == s.Keys;
    assert forall p :: AnyIn(s, s.Keys, p) <==> AnyPhase(s, p);
    if !verticalKnown && condition == Conforming { condition := Unknown; }
  }

  lemma AnyInAdd(s: EvaluatorState, done: set<Violation>, more: set<Violation>, v: Violation)
    requires v in s && more == done + {v}
    ensures forall p :: AnyIn(s, more, p) <==> AnyIn(s, done, p) || (v != TelemetryLoss && s[v].phase == p)
  {
    forall p ensures AnyIn(s, more, p) <==> AnyIn(s, done, p) || (v != TelemetryLoss && s[v].phase == p) {
      if AnyIn(s, more, p) {
        var u :| u in more && u in s && u != TelemetryLoss && s[u].phase == p;
        assert u in done || u == v;
      }
      if AnyIn(s, done, p) {
        var u :| u in done && u in s && u != TelemetryLoss && s[u].phase == p;
        assert u in more;
      }
      if v != TelemetryLoss && s[v].phase == p { assert v in more; }
    }
  }

  method MarkNotEvaluated(states: EvaluatorState, v: Violation) returns (r: EvaluatorState)
    ensures forall p, o :: r == Observe(p, states, v, NotEvaluated, o)
  {
    r := states;
    if v !in states || AtRest(states[v].phase) { r := states - {v}; }
  }

  method AdvanceViolation(
    p: Policy, states: EvaluatorState, v: Violation, ev: Evidence, o: Observation, sofar: seq<Transition>)
    returns (next: EvaluatorState, transitions: seq<Transition>)
    ensures ev.Known? ==> next == Observe(p, states, v, ev, o)
    ensures ev.NotEvaluated? ==> next == states
    ensures transitions == sofar + Emits(p, states, v, ev, o)
  {
    next, transitions := states, sofar;
    if ev.Known? {
      var (state, transition) := Advance(p, v, Lookup(states, v), ev.breached, ev.deviation, o);
      next := states[v := state];
      if transition.Some? { transitions := transitions + [transition.value]; }
    }
  }

  // Forgetting unevaluated clear entries first does not change the next state.
  lemma MarkingCommutes(p: Policy, s: EvaluatorState, g: Signals, o: Observation)
    ensures var s0 := if g.lateral.NotEvaluated? then Observe(p, s, Lateral, NotEvaluated, o) else s;
            var s1 := if g.vertical.NotEvaluated? then Observe(p, s0, Vertical, NotEvaluated, o) else s0;
            var s2 := if g.lateral.Known? then Observe(p, s1, Lateral, g.lateral, o) else s1;
            var s3 := if g.vertical.Known? then Observe(p, s2, Vertical, g.vertical, o) else s2;
            s3 == Observe(p, Observe(p, s, Lateral, g.lateral, o), Vertical, g.vertical, o)
  {
    hide Advance;
  }

  method GatherEvidence(e: Engine, a: Assignment, o: Observation) returns (g: Signals)
    requires ValidVolumes(a.volumes)
    ensures g == Signal(e, a, o)
  {
    hide Spatial, TerminalOverrun, ValidVolume;
    var at := o.observedAt;
    var active := [];
    for i := 0 to |a.volumes|
      invariant active == ActiveVolumes(a.volumes[..i], at)
    {
      assert Front(a.volumes[..i + 1]) == a.volumes[..i];
      if !(at < a.volumes[i].startsAt || at >= a.volumes[i].endsAt) { active := active + [a.volumes[i]]; }
    }
    assert a.volumes[..|a.volumes|] == a.volumes;
    var temporal := NotEvaluated;
    if at < a.effectiveFrom || at >= a.effectiveUntil {
      temporal := Known(true, Seconds(at, ClampTime(at, a.effectiveFrom, a.effectiveUntil)));
    }
    if active == [] {
      temporal := Known(true, 0.0);
    } else if temporal.NotEvaluated? {
      temporal := Known(false, 0.0);
    }
    var spatial := active;
    if spatial == [] { spatial := TerminalOverrunVolumes(a, at); }
    SpatialVolumesValid(a, at);
    var lateral, vertical := AssessSpatial(e, o, spatial);
    return Signals(lateral, vertical, temporal);
  }

  method ApplyEvidence(p: Policy, previous: EvaluatorState, g: Signals, o: Observation)
    returns (cloned: EvaluatorState, transitions: seq<Transition>)
    requires g.temporal.Known?
    ensures cloned == NextState(p, previous, g, o)
    ensures transitions == AllEmitted(p, previous, g, o)
  {
    hide Observe, Emits;
    MarkingCommutes(p, previous, g, o);
    EmitsUnmarked(p, previous, g, o);
    cloned, transitions := previous, [];
    if g.lateral.NotEvaluated? { cloned := MarkNotEvaluated(cloned, Lateral); }
    if g.vertical.NotEvaluated? { cloned := MarkNotEvaluated(cloned, Vertical); }
    cloned, transitions := AdvanceViolation(p, cloned, Lateral, g.lateral, o, transitions);
    cloned, transitions := AdvanceViolation(p, cloned, Vertical, g.vertical, o, transitions);
    cloned, transitions := AdvanceViolation(p, cloned, Temporal, g.temporal, o, transitions);
  }

  // Transitions depend only on the violation's own entry.
  lemma EmitsUnmarked(p: Policy, s: EvaluatorState, g: Signals, o: Observation)
    ensures var s0 := if g.lateral.NotEvaluated? then Observe(p, s, Lateral, NotEvaluated, o) else s;
            var s1 := if g.vertical.NotEvaluated? then Observe(p, s0, Vertical, NotEvaluated, o) else s0;
            var s2 := if g.lateral.Known? then Observe(p, s1, Lateral, g.lateral, o) else s1;
            var s3 := if g.vertical.Known? then Observe(p, s2, Vertical, g.vertical, o) else s2;
            && Emits(p, s1, Lateral, g.lateral, o) == Emits(p, s, Lateral, g.lateral, o)
            && Emits(p, s2, Vertical, g.vertical, o) == Emits(p, s, Vertical, g.vertical, o)
            && Emits(p, s3, Temporal, g.temporal, o) == Emits(p, s, Temporal, g.temporal, o)
  {
    hide Advance;
  }

  method Evaluate(e: Engine, a: Assignment, o: Observation, previous: EvaluatorState)
    returns (r: Result<Domain.Evaluation, InvalidInput>)
    ensures r == Judge(e, a, o, previous)
  {
    hide Signal, NextState, AllEmitted, Verdict, Earliest;
    if !ValidAssignment(a, e.policy) { return Err(InvalidInput); }
    if !ValidObservation(a, o) { return Err(InvalidInput); }
    var causalFrom := EarliestCausalTimestamp(previous, o.observedAt);
    var g := GatherEvidence(e, a, o);
    var cloned, transitions := ApplyEvidence(e.policy, previous, g, o);
    var condition := ConditionOf(cloned, g.vertical.Known?);
    return Ok(Domain.Evaluation.Evaluation(
                condition, Pending, cloned, transitions, causalFrom, o.observedAt, o.frameId, o.walId, o.walSeq));
  }

  method EvaluateBatch(e: Engine, a: Assignment, obs: seq<Observation>, initial: EvaluatorState)
    returns (r: Result<Domain.Evaluation, InvalidInput>)
    ensures r == JudgeAll(e, a, obs, initial)
  {
    hide Judge, Earliest;
    if |obs| == 0 { return Err(InvalidInput); }
    var causalFrom := EarliestCausalTimestamp(initial, obs[0].observedAt);
    var previous, all := initial, [];
    r := Err(InvalidInput);
    for i := 0 to |obs|
      invariant i == 0 ==> previous == initial && all == []
      invariant i > 0 ==> r.Ok? && previous == r.value.state &&
                          JudgeAll(e, a, obs[..i], initial) == Ok(r.value.(transitions := all,
                            causalFrom := causalFrom))
    {
      ghost var sofar := obs[..i + 1];
      assert i > 0 ==> Front(sofar) == obs[..i] && Last(Front(sofar)) == obs[i - 1];
      assert Last(sofar) == obs[i] && |sofar| == i + 1;
      if i > 0 && ObsBefore(obs[i], obs[i - 1]) {
        BatchErrExtends(e, a, obs, i + 1, initial);
        return Err(InvalidInput);
      }
      r := Evaluate(e, a, obs[i], previous);
      if r.Err? {
        BatchErrExtends(e, a, obs, i + 1, initial);
        return Err(InvalidInput);
      }
      JudgeCausalStart(e, a, obs[i], previous);
      ghost var was := r.value;
      assert i == 0 ==>
               all + was.transitions == was.transitions &&
               was == was.(transitions := all + was.transitions, causalFrom := causalFrom);
      previous := r.value.state;
      all := all + r.value.transitions;
      assert i == 0 ==> sofar == [obs[0]] && JudgeAll(e, a, sofar, initial) == Judge(e, a, obs[0], initial);
    }
    assert obs[..|obs|] == obs;
    r := Ok(r.value.(transitions := all, causalFrom := causalFrom));
  }

  lemma JudgeCausalStart(e: Engine, a: Assignment, o: Observation, s: EvaluatorState)
    requires Judge(e, a, o, s).Ok?
    ensures Judge(e, a, o, s).value.causalFrom == Earliest(s, o.observedAt)
  {
  }

  // A batch with a failing prefix fails.
  lemma {:induction false} BatchErrExtends(e: Engine, a: Assignment, obs: seq<Observation>, k: nat, s: EvaluatorState)
    requires 0 < k <= |obs| && JudgeAll(e, a, obs[..k], s).Err?
    ensures JudgeAll(e, a, obs, s) == Err(InvalidInput)
    decreases |obs|
  {
    hide Judge;
    assert InvalidInput == JudgeAll(e, a, obs[..k], s).error;
    if k == |obs| {
      assert obs[..k] == obs;
    } else {
      assert Front(obs)[..k] == obs[..k];
      BatchErrExtends(e, a, Front(obs), k, s);
    }
  }
}
