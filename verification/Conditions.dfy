/** What one observation's evidence means geometrically, and what the condition
    reported for a whole batch means in terms of runs of samples. */
module Conditions {
  import opened Domain
  import opened Geometry
  import opened Convexity
  import opened Hysteresis
  import opened Evaluator
  import opened Evaluation

  // ---------- distances ----------

  function Gap(x: real, y: real): real { if x < y then y - x else x - y }

  predicate InBand(v: Volume, h: real) { v.lowerM <= h <= v.upperM }

  /** The altitude deviation is the distance to the volume's altitude band. */
  lemma AltitudeDeviationIsDistance(o: Observation, v: Volume)
    requires v.lowerM <= v.upperM
    ensures forall h :: InBand(v, h) ==> AltitudeDeviation(o, v) <= Gap(o.altitudeM, h)
    ensures exists h :: InBand(v, h) && AltitudeDeviation(o, v) == Gap(o.altitudeM, h)
  {
    var h := o.altitudeM;
    var nearest := if h < v.lowerM then v.lowerM else if h > v.upperM then v.upperM else h;
    assert InBand(v, nearest) && AltitudeDeviation(o, v) == Gap(o.altitudeM, nearest);
  }

  /** Volumes whose windows abut hand over without gap or overlap. */
  lemma AbuttingVolumesHandOver(v: Volume, w: Volume, at: Time)
    requires ValidVolume(v) && ValidVolume(w) && v.endsAt == w.startsAt
    ensures ActiveAt(v, at) || ActiveAt(w, at) <==> v.startsAt <= at < w.endsAt
    ensures !(ActiveAt(v, at) && ActiveAt(w, at)) && (at == v.endsAt ==> ActiveAt(w, at))
  {
    hide ValidCoordinate;
  }

  /** One volume contains the observation exactly when the altitude is known in the
      volume's own reference, the position is inside or near enough, and some altitude
      of its band is near enough. */
  lemma ContainsMeaning(e: Engine, o: Observation, v: Volume)
    requires ValidVolume(v)
    ensures Contains(e, o, v) <==>
            && o.altitudeKnown && o.reference == v.reference
            && (Inside(o.longitude, o.latitude, v.polygon) || LateralDistance(e, o, v) <= e.policy.horizontalM)
            && exists h :: InBand(v, h) && Gap(o.altitudeM, h) <= e.policy.verticalM
  {
    hide Inside, LateralDistance, AltitudeDeviation, Gap, InBand;
    AltitudeDeviationIsDistance(o, v);
  }

  /** A volume scores zero exactly when it is within both tolerances. */
  lemma ScoreMeasuresExcess(e: Engine, o: Observation, v: Volume)
    requires |v.polygon| >= 3
    ensures Score(e, o, v) >= 0.0
    ensures Score(e, o, v) == 0.0 <==>
            LateralDistance(e, o, v) <= e.policy.horizontalM && AltitudeDeviation(o, v) <= e.policy.verticalM
  {
    hide LateralDistance, AltitudeDeviation;
  }

  /** The chosen volume is the first comparable one of least score. */
  lemma {:induction false} BestIsLeast(e: Engine, o: Observation, vs: seq<Volume>, i: nat)
    requires ValidVolumes(vs) && i < |vs| && Comparable(o, vs[i])
    ensures Best(e, o, vs).Some?
    ensures var b := Best(e, o, vs).value;
            Score(e, o, vs[b]) <= Score(e, o, vs[i]) && (i < b ==> Score(e, o, vs[b]) < Score(e, o, vs[i]))
  {
    hide Score, Comparable, ValidVolume;
    var front := Front(vs);
    if i < |vs| - 1 {
      assert front[i] == vs[i];
      BestIsLeast(e, o, front, i);
      var r := Best(e, o, front).value;
      assert vs[r] == front[r];
    } else if Best(e, o, front).Some? {
      var r := Best(e, o, front).value;
      assert vs[r] == front[r];
    }
  }

  /** The reported lateral distance is that of the nearest volume. */
  lemma {:induction false} NearestIsLeast(e: Engine, o: Observation, vs: seq<Volume>) returns (n: nat)
    requires vs != [] && ValidVolumes(vs)
    ensures n < |vs| && Nearest(e, o, vs) == LateralDistance(e, o, vs[n])
    ensures forall i :: 0 <= i < |vs| ==> Nearest(e, o, vs) <= LateralDistance(e, o, vs[i])
  {
    hide LateralDistance;
    n := |vs| - 1;
    if |vs| > 1 {
      var front := Front(vs);
      var f := NearestIsLeast(e, o, front);
      assert forall i :: 0 <= i < |front| ==> vs[i] == front[i];
      if LateralDistance(e, o, Last(vs)) >= Nearest(e, o, front) { n := f; }
    }
  }

  /** A degree of latitude is 111132 metres and a degree of longitude is the scale of
      the observed latitude, each along its own axis. */
  lemma OffsetAxes(m: Metric, lat: real, lon: real, p: Point)
    ensures p.longitude == lon ==> Offset(m, lat, lon, p) == Vec(0.0, (p.latitude - lat) * 111132.0)
    ensures p.latitude == lat ==> Offset(m, lat, lon, p) == Vec((p.longitude - lon) * m.lonScale(lat), 0.0)
  {
  }

  /** Over a convex footprint, an observation in the altitude band is contained when
      its position is on the inner side of every edge. */
  lemma ConvexVolumeContains(e: Engine, o: Observation, v: Volume)
    requires |v.polygon| >= 3 && Comparable(o, v) && AltitudeDeviation(o, v) <= e.policy.verticalM
    requires StrictlyConvex(v.polygon) && OnLeft(v.polygon, o.longitude, o.latitude)
    ensures Contains(e, o, v)
  {
    hide Inside, StrictlyConvex, OnLeft, LateralDistance, AltitudeDeviation;
    ConvexInterior(o.longitude, o.latitude, v.polygon);
  }

  /** It is not contained beyond some edge, further from the ring than the tolerance. */
  lemma ConvexVolumeExcludes(e: Engine, o: Observation, v: Volume, i: nat)
    requires |v.polygon| >= 3 && LateralDistance(e, o, v) > e.policy.horizontalM
    requires StrictlyConvex(v.polygon) && i < |v.polygon| && SideAt(v.polygon, i, o.longitude, o.latitude) < 0.0
    ensures !Contains(e, o, v)
  {
    hide Inside, StrictlyConvex, SideAt, LateralDistance, AltitudeDeviation;
    ConvexExterior(o.longitude, o.latitude, v.polygon, i);
  }

  // ---------- evidence ----------

  ghost predicate AnyComparable(o: Observation, vs: seq<Volume>) {
    exists i :: 0 <= i < |vs| && Comparable(o, vs[i])
  }

  // Volume b is comparable and no comparable volume exceeds the tolerances by less.
  ghost predicate Decisive(e: Engine, o: Observation, vs: seq<Volume>, b: nat)
    requires ValidVolumes(vs)
  {
    b < |vs| && Comparable(o, vs[b]) &&
    forall i :: 0 <= i < |vs| && Comparable(o, vs[i]) ==> Score(e, o, vs[b]) <= Score(e, o, vs[i])
  }

  // Volume n is laterally nearest.
  ghost predicate NearestVolume(e: Engine, o: Observation, vs: seq<Volume>, n: nat)
    requires ValidVolumes(vs)
  {
    n < |vs| && forall i :: 0 <= i < |vs| ==> LateralDistance(e, o, vs[n]) <= LateralDistance(e, o, vs[i])
  }

  /** How lateral and vertical evidence read against the considered volumes:
      nothing without a volume, no breach inside one single volume, the excess of the
      decisive volume otherwise, and only lateral evidence without a comparable one. */
  ghost predicate ReadsSpatially(e: Engine, o: Observation, vs: seq<Volume>, lateral: Evidence, vertical: Evidence)
    requires ValidVolumes(vs)
  {
    if vs == [] then lateral == NotEvaluated && vertical == NotEvaluated
    else if exists v :: v in vs && Contains(e, o, v) then lateral == Known(false, 0.0) && vertical == Known(false, 0.0)
    else if AnyComparable(o, vs) then
      exists b: nat :: Decisive(e, o, vs, b) &&
        lateral == Known(LateralDistance(e, o, vs[b]) > e.policy.horizontalM, LateralDistance(e, o, vs[b])) &&
        vertical == Known(AltitudeDeviation(o, vs[b]) > e.policy.verticalM, AltitudeDeviation(o, vs[b]))
    else
      && vertical == NotEvaluated && lateral.Known?
      && (lateral.breached <==> forall i :: 0 <= i < |vs| ==> !InsideLaterally(e, o, vs[i]))
      && exists n: nat :: NearestVolume(e, o, vs, n) && lateral.deviation == LateralDistance(e, o, vs[n])
  }

  lemma SpatialMeaning(e: Engine, o: Observation, vs: seq<Volume>)
    requires ValidVolumes(vs)
    ensures ReadsSpatially(e, o, vs, Spatial(e, o, vs).0, Spatial(e, o, vs).1)
  {
    hide Contains, LateralDistance, AltitudeDeviation, Score, InsideLaterally;
    assert Contained(e, o, vs) <==> exists v :: v in vs && Contains(e, o, v);
    if vs != [] && !Contained(e, o, vs) {
      if AnyComparable(o, vs) {
        var b := Best(e, o, vs).value;
        forall i | 0 <= i < |vs| && Comparable(o, vs[i]) ensures Score(e, o, vs[b]) <= Score(e, o, vs[i]) {
          BestIsLeast(e, o, vs, i);
        }
        assert Decisive(e, o, vs, b);
      } else {
        var n := NearestIsLeast(e, o, vs);
        assert NearestVolume(e, o, vs, n);
      }
    }
  }

  // d is the distance in seconds from `at` to the closed window.
  ghost predicate SecondsToWindow(at: Time, from: Time, until: Time, d: real) {
    && (forall u :: from <= u <= until ==> d <= Seconds(at, u))
    && exists u :: from <= u <= until && d == Seconds(at, u)
  }

  /** Temporal evidence: a breach exactly outside the effective window or without an
      active volume, with the distance to the window when some volume is active. */
  ghost predicate ReadsTemporally(a: Assignment, at: Time, temporal: Evidence) {
    && temporal.Known?
    && (temporal.breached <==> !WithinEffective(a, at) || !AnyActive(a.volumes, at))
    && (!AnyActive(a.volumes, at) ==> temporal.deviation == 0.0)
    && (AnyActive(a.volumes, at) ==> SecondsToWindow(at, a.effectiveFrom, a.effectiveUntil, temporal.deviation))
  }

  lemma SecondsNonnegative(a: Time, b: Time)
    ensures Seconds(a, b) >= 0.0 && (Seconds(a, b) == 0.0 <==> a == b)
  {
  }

  lemma SecondsMonotone(at: Time, u: Time, w: Time)
    requires at <= u <= w || w <= u <= at
    ensures Seconds(at, u) <= Seconds(at, w)
  {
  }

  lemma ClampIsNearest(at: Time, from: Time, until: Time)
    requires from <= until
    ensures SecondsToWindow(at, from, until, Seconds(at, ClampTime(at, from, until)))
  {
    hide Seconds;
    var c := ClampTime(at, from, until);
    assert from <= c <= until;
    forall u | from <= u <= until ensures Seconds(at, c) <= Seconds(at, u) {
      if c == at { SecondsNonnegative(at, u); SecondsNonnegative(at, at); } else { SecondsMonotone(at, c, u); }
    }
  }

  lemma TemporalMeaning(a: Assignment, at: Time)
    requires a.effectiveFrom < a.effectiveUntil
    ensures ReadsTemporally(a, at, TemporalEvidence(a, at))
  {
    hide Seconds, SecondsToWindow;
    var active := ActiveVolumes(a.volumes, at);
    ActiveVolumesAreActive(a.volumes, at);
    if active != [] { assert active[0] in active; }
    ClampIsNearest(at, a.effectiveFrom, a.effectiveUntil);
    SecondsNonnegative(at, at);
  }

  /** Each kind of evidence of one observation stands in its own place. */
  lemma SignalMeaning(e: Engine, a: Assignment, o: Observation)
    requires ValidVolumes(a.volumes) && a.effectiveFrom < a.effectiveUntil
    ensures ValidVolumes(SpatialVolumes(a, o.observedAt))
    ensures var s, vs := Signal(e, a, o), SpatialVolumes(a, o.observedAt);
            && ReadsSpatially(e, o, vs, s.lateral, s.vertical) && ReadsTemporally(a, o.observedAt, s.temporal)
            && (s.lateral.Known? <==> vs != []) && (s.vertical.Known? <==> AnyComparable(o, vs))
  {
    hide Spatial, TemporalEvidence, ReadsTemporally, LateralDistance, Score, InsideLaterally, AltitudeDeviation;
    SpatialVolumesValid(a, o.observedAt);
    var vs := SpatialVolumes(a, o.observedAt);
    SpatialMeaning(e, o, vs);
    TemporalMeaning(a, o.observedAt);
    forall v | v in vs && Contains(e, o, v) ensures AnyComparable(o, vs) {
      var i :| 0 <= i < |vs| && vs[i] == v;
      assert Comparable(o, vs[i]);
    }
  }

  // ---------- conditions ----------

  // The incident is open and the last known sample breached.
  ghost predicate NowOpen(p: Policy, trace: seq<Sample>) { OpenByRuns(p, trace) && InsideRun(trace) == 0 }

  // No incident is open and the trace ends in breaches.
  ghost predicate NowSuspected(p: Policy, trace: seq<Sample>) { !OpenByRuns(p, trace) && BreachRun(trace) > 0 }

  // The incident is open and the trace ends inside.
  ghost predicate NowRecovering(p: Policy, trace: seq<Sample>) { OpenByRuns(p, trace) && InsideRun(trace) > 0 }

  lemma PhaseByRuns(p: Policy, v: Violation, trace: seq<Sample>)
    requires p.Valid()
    ensures var phase := Run(p, v, trace).phase;
            && (phase == Open <==> NowOpen(p, trace)) && (phase == Suspected <==> NowSuspected(p, trace))
            && (phase == Recovering <==> NowRecovering(p, trace))
  {
    hide OpenByRuns, BreachRun, InsideRun, Run;
    EpisodeIffRuns(p, v, trace);
    CountersAlwaysMatch(p, v, trace);
  }

  // After a batch, what every violation's known samples say.
  ghost predicate SomeOpen(e: Engine, a: Assignment, obs: seq<Observation>)
    requires ValidVolumes(a.volumes)
  {
    exists v :: v != TelemetryLoss && NowOpen(e.policy, Samples(e, a, obs, v))
  }

  ghost predicate SomeSuspected(e: Engine, a: Assignment, obs: seq<Observation>)
    requires ValidVolumes(a.volumes)
  {
    exists v :: v != TelemetryLoss && NowSuspected(e.policy, Samples(e, a, obs, v))
  }

  ghost predicate SomeRecovering(e: Engine, a: Assignment, obs: seq<Observation>)
    requires ValidVolumes(a.volumes)
  {
    exists v :: v != TelemetryLoss && NowRecovering(e.policy, Samples(e, a, obs, v))
  }

  // Some volume in force speaks about the observation's altitude.
  ghost predicate ComparableAt(a: Assignment, o: Observation)
    requires ValidVolumes(a.volumes)
  {
    AnyComparable(o, SpatialVolumes(a, o.observedAt))
  }

  lemma BatchPhase(e: Engine, a: Assignment, obs: seq<Observation>, v: Violation)
    requires e.policy.Valid() && v != TelemetryLoss && JudgeAll(e, a, obs, map[]).Ok? && ValidVolumes(a.volumes)
    ensures var phase, trace := Lookup(JudgeAll(e, a, obs, map[]).value.state, v).phase, Samples(e, a, obs, v);
            && (phase == Open <==> NowOpen(e.policy, trace)) && (phase == Suspected <==> NowSuspected(e.policy, trace))
            && (phase == Recovering <==> NowRecovering(e.policy, trace))
  {
    hide JudgeAll, Samples, NowOpen, NowSuspected, NowRecovering, Run, Lookup;
    BatchFollowsRuns(e, a, obs, v);
    PhaseByRuns(e.policy, v, Samples(e, a, obs, v));
  }

  lemma AnyPhaseAt(s: EvaluatorState, p: Phase)
    requires p != Unset
    ensures AnyPhase(s, p) <==> exists v :: v != TelemetryLoss && Lookup(s, v).phase == p
  {
    if AnyPhase(s, p) {
      var v :| v in s && v != TelemetryLoss && s[v].phase == p;
      assert Lookup(s, v).phase == p;
    }
    if v :| v != TelemetryLoss && Lookup(s, v).phase == p { assert v in s; }
  }

  // A batch reports the verdict on its final state and last observation.
  lemma BatchVerdict(e: Engine, a: Assignment, obs: seq<Observation>)
    requires JudgeAll(e, a, obs, map[]).Ok? && ValidVolumes(a.volumes) && obs != []
    ensures var r := JudgeAll(e, a, obs, map[]).value;
            r.condition == Verdict(r.state, Signal(e, a, Last(obs)).vertical.Known?)
  {
    hide Signal, NextState, AllEmitted, Verdict;
  }

  /** The reported condition, in terms of runs alone: non-conforming while some
      incident is open and its last known sample breached, suspicious while some
      violation without incident ends in breaches, recovering while some open
      incident is in an inside run, and otherwise conforming or unknown by whether
      the last observation had a comparable volume. */
  lemma BatchCondition(e: Engine, a: Assignment, obs: seq<Observation>)
    requires e.policy.Valid() && JudgeAll(e, a, obs, map[]).Ok?
    ensures ValidVolumes(a.volumes) && obs != []
    ensures JudgeAll(e, a, obs, map[]).value.condition ==
              if SomeOpen(e, a, obs) then NonConforming
              else if SomeSuspected(e, a, obs) then Suspicious
              else if SomeRecovering(e, a, obs) then Recuperating
              else if ComparableAt(a, Last(obs)) then Conforming
              else Unknown
  {
    hide JudgeAll, Samples, NowOpen, NowSuspected, NowRecovering, Lookup, Signal, AnyComparable, AnyPhase,
      ReadsSpatially, ReadsTemporally;
    BatchCursor(e, a, obs, map[]);
    BatchValid(e, a, obs, map[]);
    var r := JudgeAll(e, a, obs, map[]).value;
    BatchVerdict(e, a, obs);
    SignalMeaning(e, a, Last(obs));
    AnyPhaseAt(r.state, Open);
    AnyPhaseAt(r.state, Suspected);
    AnyPhaseAt(r.state, Recovering);
    forall v | v != TelemetryLoss
      ensures Lookup(r.state, v).phase == Open <==> NowOpen(e.policy, Samples(e, a, obs, v))
      ensures Lookup(r.state, v).phase == Suspected <==> NowSuspected(e.policy, Samples(e, a, obs, v))
      ensures Lookup(r.state, v).phase == Recovering <==> NowRecovering(e.policy, Samples(e, a, obs, v))
    {
      BatchPhase(e, a, obs, v);
    }
  }
}
