/** Deterministic event-time evaluation of observations against one assignment. */
module Evaluator {
  import opened Domain
  import opened Geometry
  import opened Hysteresis

  /** The evaluator: a validated policy and the metric it measures with. */
  datatype Engine = Engine(policy: Policy, metric: Metric)

  datatype Evidence = NotEvaluated | Known(breached: bool, deviation: real)

  datatype InvalidInput = InvalidInput

  // ---------- validation ----------

  predicate ValidCoordinate(lat: real, lon: real) {
    -90.0 <= lat <= 90.0 && -180.0 <= lon <= 180.0
  }

  predicate ValidVolume(v: Volume) {
    v.id != "" && |v.polygon| >= 3 && v.endsAt > v.startsAt && v.lowerM <= v.upperM &&
    forall i :: 0 <= i < |v.polygon| ==> ValidCoordinate(v.polygon[i].latitude, v.polygon[i].longitude)
  }

  predicate ValidVolumes(vs: seq<Volume>) {
    forall i :: 0 <= i < |vs| ==> ValidVolume(vs[i])
  }

  predicate ValidAssignment(a: Assignment, p: Policy) {
    a.id != "" && a.generation != 0 && a.aircraftId != "" && a.agentId != "" && a.flightId != "" &&
    a.intentId != "" && a.intentVersion != 0 && a.policyVersion == p.version && !IsZero(a.effectiveFrom) &&
    a.effectiveUntil > a.effectiveFrom && a.volumes != [] && ValidVolumes(a.volumes)
  }

  predicate ValidObservation(a: Assignment, o: Observation) {
    o.frameId != "" && o.agentId != "" && o.walId != "" && o.aircraftId == a.aircraftId &&
    o.agentId == a.agentId && o.flightId == a.flightId && o.intentId == a.intentId &&
    o.intentVersion == a.intentVersion && !IsZero(o.observedAt) && ValidCoordinate(o.latitude, o.longitude)
  }

  // ---------- which volumes are compared ----------

  predicate ActiveAt(v: Volume, at: Time) { v.startsAt <= at < v.endsAt }

  function ActiveVolumes(vs: seq<Volume>, at: Time): seq<Volume> {
    if vs == [] then []
    else ActiveVolumes(Front(vs), at) + if ActiveAt(Last(vs), at) then [Last(vs)] else []
  }

  predicate WithinEffective(a: Assignment, at: Time) { a.effectiveFrom <= at < a.effectiveUntil }

  datatype LatestEnd = LatestEnd(end: Time, index: int, ambiguous: bool)

  function ScanEnds(vs: seq<Volume>): (l: LatestEnd)
    ensures -1 <= l.index < |vs|
  {
    if vs == [] then LatestEnd(ZERO_TIME, -1, false)
    else
      var l, v := ScanEnds(Front(vs)), Last(vs);
      if IsZero(l.end) || v.endsAt > l.end then LatestEnd(v.endsAt, |vs| - 1, false)
      else if v.endsAt == l.end then l.(ambiguous := true)
      else l
  }

  function TerminalOverrun(a: Assignment, at: Time): seq<Volume> {
    if !WithinEffective(a, at) then []
    else
      var l := ScanEnds(a.volumes);
      if l.index < 0 || at < l.end || l.ambiguous then [] else [a.volumes[l.index]]
  }

  method TerminalOverrunVolumes(a: Assignment, at: Time) returns (r: seq<Volume>)
    ensures r == TerminalOverrun(a, at)
  {
    if at < a.effectiveFrom || at >= a.effectiveUntil { return []; }
    var latestEnd, latestIndex, ambiguous := ZERO_TIME, -1, false;
    for index := 0 to |a.volumes|
      invariant ScanEnds(a.volumes[..index]) == LatestEnd(latestEnd, latestIndex, ambiguous)
    {
      var volume := a.volumes[index];
      assert Front(a.volumes[..index + 1]) == a.volumes[..index];
      if latestEnd == ZERO_TIME || volume.endsAt > latestEnd {
        latestEnd, latestIndex, ambiguous := volume.endsAt, index, false;
      } else if volume.endsAt == latestEnd {
        ambiguous := true;
      }
    }
    assert a.volumes[..|a.volumes|] == a.volumes;
    if latestIndex < 0 || at < latestEnd || ambiguous { return []; }
    return [a.volumes[latestIndex]];
  }

  // Volume i ends last, and later than every other volume.
  ghost predicate EndsLast(vs: seq<Volume>, i: int) {
    0 <= i < |vs| && forall j :: 0 <= j < |vs| && j != i ==> vs[j].endsAt < vs[i].endsAt
  }

  ghost predicate LastEnd(vs: seq<Volume>, t: Time) {
    (exists i :: 0 <= i < |vs| && vs[i].endsAt == t) && forall i :: 0 <= i < |vs| ==> vs[i].endsAt <= t
  }

  ghost predicate ScanCorrect(vs: seq<Volume>, l: LatestEnd, t: Time) {
    && l.end == t && 0 <= l.index < |vs| && vs[l.index].endsAt == t
    && (l.ambiguous <==> !EndsLast(vs, l.index))
  }

  lemma LastEndExists(vs: seq<Volume>) returns (t: Time)
    requires vs != []
    ensures LastEnd(vs, t)
  {
    if |vs| == 1 {
      t := vs[0].endsAt;
    } else {
      var f := LastEndExists(Front(vs));
      var i :| 0 <= i < |Front(vs)| && Front(vs)[i].endsAt == f;
      t := if Last(vs).endsAt > f then Last(vs).endsAt else f;
      assert vs[i].endsAt == f;
    }
  }

  lemma ScanEndIsSomeEnd(vs: seq<Volume>, t: Time)
    requires vs != [] && forall i :: 0 <= i < |vs| ==> vs[i].endsAt <= t
    ensures ScanEnds(vs).index >= 0 && ScanEnds(vs).end <= t
  {
    if |vs| > 1 { ScanEndIsSomeEnd(Front(vs), t); }
  }

  // The scan finds the last end, unless that end is the zero time itself.
  lemma {:induction false} ScanFindsLast(vs: seq<Volume>, t: Time)
    requires LastEnd(vs, t) && t != ZERO_TIME
    ensures ScanCorrect(vs, ScanEnds(vs), t)
  {
    hide ScanEnds, EndsLast, ScanCorrect;
    if |vs| == 1 {
      ScanOne(vs, t);
    } else {
      var f := LastEndExists(Front(vs));
      if f == t {
        ScanFindsLast(Front(vs), t);
        ScanKeepsLast(vs, t);
      } else {
        ScanMovesLast(vs, f, t);
      }
    }
  }

  lemma ScanOne(vs: seq<Volume>, t: Time)
    requires |vs| == 1 && LastEnd(vs, t)
    ensures ScanCorrect(vs, ScanEnds(vs), t)
  {
    assert Front(vs) == [];
  }

  // The last volume of the list ends with or before the latest end so far.
  lemma ScanKeepsLast(vs: seq<Volume>, t: Time)
    requires |vs| > 1 && LastEnd(vs, t) && t != ZERO_TIME && ScanCorrect(Front(vs), ScanEnds(Front(vs)), t)
    ensures ScanCorrect(vs, ScanEnds(vs), t)
  {
    hide EndsLast;
    var l := ScanEnds(Front(vs));
    assert vs[l.index] == Front(vs)[l.index];
    assert Last(vs).endsAt <= t;
    EndsLastSnoc(vs, l.index);
  }

  lemma EndsLastSnoc(vs: seq<Volume>, i: nat)
    requires i < |vs| - 1
    ensures EndsLast(vs, i) <==> EndsLast(Front(vs), i) && Last(vs).endsAt < vs[i].endsAt
  {
    var front := Front(vs);
    if EndsLast(front, i) && Last(vs).endsAt < vs[i].endsAt {
      forall j | 0 <= j < |vs| && j != i ensures vs[j].endsAt < vs[i].endsAt {
        if j < |vs| - 1 { assert vs[j] == front[j]; }
      }
    }
    if EndsLast(vs, i) {
      forall j | 0 <= j < |front| && j != i ensures front[j].endsAt < front[i].endsAt { assert front[j] == vs[j]; }
    }
  }

  // The last volume of the list ends later than all before it.
  lemma ScanMovesLast(vs: seq<Volume>, f: Time, t: Time)
    requires |vs| > 1 && LastEnd(vs, t) && LastEnd(Front(vs), f) && f != t
    ensures ScanCorrect(vs, ScanEnds(vs), t)
  {
    ScanEndIsSomeEnd(Front(vs), f);
    var k :| 0 <= k < |vs| && vs[k].endsAt == t;
    assert forall i :: 0 <= i < |Front(vs)| ==> vs[i].endsAt <= f by {
      assert forall i :: 0 <= i < |Front(vs)| ==> vs[i] == Front(vs)[i];
    }
    assert k == |vs| - 1;
    assert EndsLast(vs, |vs| - 1);
  }

  /** The intended terminal reference: while the assignment is in force, the
      unique latest-ending volume once it has ended, and nothing otherwise. */
  ghost predicate IsTerminalReference(a: Assignment, at: Time, r: seq<Volume>) {
    if WithinEffective(a, at) && exists i :: EndsLast(a.volumes, i) && a.volumes[i].endsAt <= at
    then exists i :: EndsLast(a.volumes, i) && r == [a.volumes[i]]
    else r == []
  }

  lemma ProperEndIsFound(a: Assignment, at: Time, t: Time)
    requires LastEnd(a.volumes, t) && t != ZERO_TIME
    ensures IsTerminalReference(a, at, TerminalOverrun(a, at))
  {
    ScanFindsLast(a.volumes, t);
    assert forall i :: EndsLast(a.volumes, i) ==> a.volumes[i].endsAt == t;
  }

  // Volume p is the last in the list that ends at the zero time, and none ends later.
  ghost predicate LastZero(vs: seq<Volume>, p: int) {
    && 0 <= p < |vs| && vs[p].endsAt == ZERO_TIME
    && (forall i :: 0 <= i < |vs| ==> vs[i].endsAt <= ZERO_TIME)
    && (forall i :: p < i < |vs| ==> vs[i].endsAt < ZERO_TIME)
  }

  // The scan starts over after a volume that ends at the zero time.
  lemma {:induction false} ScanRestarts(vs: seq<Volume>, p: nat)
    requires LastZero(vs, p)
    ensures p == |vs| - 1 ==> ScanEnds(vs) == LatestEnd(ZERO_TIME, p, false)
    ensures p < |vs| - 1 ==>
              var l := ScanEnds(vs[p + 1..]); ScanEnds(vs) == LatestEnd(l.end, p + 1 + l.index, l.ambiguous)
  {
    var v := Last(vs);
    if p == |vs| - 1 {
      if |vs| > 1 { ScanEndIsSomeEnd(Front(vs), ZERO_TIME); }
    } else {
      var rest := vs[p + 1..];
      ScanRestarts(Front(vs), p);
      assert Last(rest) == v && Front(rest) == Front(vs)[p + 1..];
      assert |rest| == 1 ==> ScanEnds(Front(rest)) == LatestEnd(ZERO_TIME, -1, false);
      if |rest| > 1 { ScanOfEarlier(Front(rest)); }
    }
  }

  lemma {:induction false} ScanOfEarlier(vs: seq<Volume>)
    requires vs != [] && forall i :: 0 <= i < |vs| ==> vs[i].endsAt < ZERO_TIME
    ensures ScanEnds(vs).end < ZERO_TIME && ScanEnds(vs).index >= 0
  {
    if |vs| > 1 { ScanOfEarlier(Front(vs)); } else { assert Front(vs) == []; }
  }

  ghost predicate NoneEndsLast(vs: seq<Volume>) { forall i :: !EndsLast(vs, i) }

  /** When volumes that end last at Go's zero time do no harm. By then the only
      one is the last of the list, or they tie; and what follows them in the list
      ties too or has not all ended. */
  ghost predicate ZeroEndsHarmless(vs: seq<Volume>, at: Time) {
    exists p: nat :: LastZero(vs, p) && (at < ZERO_TIME || ZeroDecides(vs, p)) && RestSilent(vs, p, at)
  }

  ghost predicate ZeroDecides(vs: seq<Volume>, p: nat) {
    if p == |vs| - 1 then EndsLast(vs, p) else NoneEndsLast(vs)
  }

  ghost predicate RestSilent(vs: seq<Volume>, p: nat, at: Time) {
    p < |vs| - 1 ==> NoneEndsLast(vs[p + 1..]) || exists i :: p < i < |vs| && at < vs[i].endsAt
  }

  lemma LastZeroExists(vs: seq<Volume>) returns (p: nat)
    requires LastEnd(vs, ZERO_TIME)
    ensures LastZero(vs, p)
  {
    p := |vs| - 1;
    while vs[p].endsAt != ZERO_TIME
      invariant p < |vs| && forall i :: p < i < |vs| ==> vs[i].endsAt < ZERO_TIME
      decreases p
    {
      p := p - 1;
    }
  }

  lemma LastZeroUnique(vs: seq<Volume>, p: nat, q: nat)
    requires LastZero(vs, p) && LastZero(vs, q)
    ensures p == q
  {
  }

  /** Exactly when the terminal reference is the intended one: outside the
      effective window, when the last end is not Go's zero time, and otherwise
      when the volumes that end there do no harm. */
  lemma TerminalOverrunExact(a: Assignment, at: Time)
    ensures IsTerminalReference(a, at, TerminalOverrun(a, at)) <==>
            !WithinEffective(a, at) || !LastEnd(a.volumes, ZERO_TIME) || ZeroEndsHarmless(a.volumes, at)
  {
    var vs := a.volumes;
    if WithinEffective(a, at) && vs != [] {
      var t := LastEndExists(vs);
      if t != ZERO_TIME {
        ProperEndIsFound(a, at, t);
        assert !LastEnd(vs, ZERO_TIME);
      } else {
        var p := LastZeroExists(vs);
        HarmlessAt(vs, p, at);
        if p == |vs| - 1 { OverrunOfLast(a, at, p); } else { OverrunOfRest(a, at, p); }
      }
    }
  }

  lemma HarmlessAt(vs: seq<Volume>, p: nat, at: Time)
    requires LastZero(vs, p)
    ensures ZeroEndsHarmless(vs, at) <==> (at < ZERO_TIME || ZeroDecides(vs, p)) && RestSilent(vs, p, at)
  {
    hide LastZero, ZeroDecides, RestSilent;
    forall q: nat | LastZero(vs, q) ensures q == p { LastZeroUnique(vs, p, q); }
  }

  lemma OverrunOfLast(a: Assignment, at: Time, p: nat)
    requires LastZero(a.volumes, p) && p == |a.volumes| - 1 && WithinEffective(a, at)
    ensures IsTerminalReference(a, at, TerminalOverrun(a, at)) <==> at < ZERO_TIME || ZeroDecides(a.volumes, p)
  {
    ScanRestarts(a.volumes, p);
    assert forall i :: EndsLast(a.volumes, i) ==> i == p;
  }

  lemma OverrunOfRest(a: Assignment, at: Time, p: nat)
    requires LastZero(a.volumes, p) && p < |a.volumes| - 1 && WithinEffective(a, at)
    ensures IsTerminalReference(a, at, TerminalOverrun(a, at)) <==>
            (at < ZERO_TIME || ZeroDecides(a.volumes, p)) && RestSilent(a.volumes, p, at)
  {
    hide ScanEnds, EndsLast, LastZero, LastEnd, ScanCorrect;
    var vs := a.volumes;
    var rest := vs[p + 1..];
    var u := LastEndExists(rest);
    ScanRestarts(vs, p);
    ZeroEndsBeforeRest(vs, p, u);
    ScanFindsLast(rest, u);
    AmbiguousMeansNone(rest, ScanEnds(rest), u);
    RestRunning(vs, p, u, at);
    ScanPoints(rest, ScanEnds(rest), u);
    assert NoneEndsLast(vs) <==> !exists i :: EndsLast(vs, i) && vs[i].endsAt <= ZERO_TIME;
  }

  lemma ScanPoints(vs: seq<Volume>, l: LatestEnd, t: Time)
    requires ScanCorrect(vs, l, t)
    ensures 0 <= l.index < |vs| && l.end == t
  {
  }

  lemma RestRunning(vs: seq<Volume>, p: nat, u: Time, at: Time)
    requires p < |vs| - 1 && LastEnd(vs[p + 1..], u)
    ensures at < u <==> exists i :: p < i < |vs| && at < vs[i].endsAt
  {
    var rest := vs[p + 1..];
    var i :| 0 <= i < |rest| && rest[i].endsAt == u;
    assert vs[p + 1 + i].endsAt == u;
    forall i | p < i < |vs| ensures vs[i].endsAt <= u { assert rest[i - p - 1] == vs[i]; }
  }

  lemma AmbiguousMeansNone(vs: seq<Volume>, l: LatestEnd, t: Time)
    requires LastEnd(vs, t) && ScanCorrect(vs, l, t)
    ensures l.ambiguous <==> NoneEndsLast(vs)
  {
    forall i | EndsLast(vs, i) ensures i == l.index {}
  }

  // Only a zero-time end can be the last one, and it is not in the rest.
  lemma ZeroEndsBeforeRest(vs: seq<Volume>, p: nat, u: Time)
    requires LastZero(vs, p) && p < |vs| - 1 && LastEnd(vs[p + 1..], u)
    ensures u < ZERO_TIME && !EndsLast(vs, |vs| - 1)
    ensures forall i :: EndsLast(vs, i) ==> i == p
    ensures vs[p].endsAt == ZERO_TIME && forall i :: p < i < |vs| ==> vs[i] != vs[p]
  {
    assert vs[p + 1..][0] == vs[p + 1];
    assert vs[|vs| - 1].endsAt < vs[p].endsAt;
  }

  /** A valid assignment on which a tie at Go's zero time is not recognised. */
  lemma TerminalOverrunMissesZeroTie(p: Policy) returns (a: Assignment)
    requires p.Valid()
    ensures ValidAssignment(a, p) && WithinEffective(a, a.effectiveFrom)
    ensures NoneEndsLast(a.volumes) && |TerminalOverrun(a, a.effectiveFrom)| == 1
  {
    var ring := [Point(0.0, 0.0), Point(0.0, 1.0), Point(1.0, 0.0)];
    var v := Volume("volume", ring, 0.0, 1.0, MSL, ZERO_TIME - 1, ZERO_TIME);
    a := Assignment("assignment", 1, "operator", "aircraft", "agent", "flight", "intent", 1, p.version,
                    ZERO_TIME + 1, ZERO_TIME + 2, [v, v]);
    assert a.volumes[0].endsAt == a.volumes[1].endsAt;
    assert Front(a.volumes) == [v] && Front([v]) == [];
    assert ScanEnds([v]) == LatestEnd(ZERO_TIME, 0, false);
  }

  function SpatialVolumes(a: Assignment, at: Time): seq<Volume> {
    var active := ActiveVolumes(a.volumes, at);
    if active == [] then TerminalOverrun(a, at) else active
  }

  lemma ActiveVolumesAreActive(vs: seq<Volume>, at: Time)
    ensures forall v :: v in ActiveVolumes(vs, at) <==> v in vs && ActiveAt(v, at)
  {
    if vs != [] {
      ActiveVolumesAreActive(Front(vs), at);
      assert vs == Front(vs) + [Last(vs)];
    }
  }

  /** The active volumes; with none active, the terminal reference. */
  ghost predicate IsConsidered(a: Assignment, at: Time, considered: seq<Volume>) {
    if AnyActive(a.volumes, at) then forall v :: v in considered <==> v in a.volumes && ActiveAt(v, at)
    else IsTerminalReference(a, at, considered)
  }

  ghost predicate AnyActive(vs: seq<Volume>, at: Time) { exists v :: v in vs && ActiveAt(v, at) }

  /** Compared volumes are the active ones, or the terminal reference exactly when
      the scan finds it. */
  lemma ConsideredVolumes(a: Assignment, at: Time)
    ensures IsConsidered(a, at, SpatialVolumes(a, at)) <==>
            AnyActive(a.volumes, at) || !WithinEffective(a, at) || !LastEnd(a.volumes, ZERO_TIME) ||
            ZeroEndsHarmless(a.volumes, at)
  {
    hide TerminalOverrun, ScanEnds, ActiveVolumes, IsTerminalReference, ZeroEndsHarmless, LastEnd;
    var active := ActiveVolumes(a.volumes, at);
    ActiveVolumesAreActive(a.volumes, at);
    TerminalOverrunExact(a, at);
    if active != [] { assert active[0] in active; }
  }

  // ---------- spatial evidence ----------

  function LateralDistance(e: Engine, o: Observation, v: Volume): real
    requires |v.polygon| >= 3
  {
    RingDistance(e.metric, o.latitude, o.longitude, v.polygon).value
  }

  function AltitudeDeviation(o: Observation, v: Volume): real {
    if o.altitudeM < v.lowerM then v.lowerM - o.altitudeM
    else if o.altitudeM > v.upperM then o.altitudeM - v.upperM
    else 0.0
  }

  predicate InsideLaterally(e: Engine, o: Observation, v: Volume)
    requires |v.polygon| >= 3
  {
    Inside(o.longitude, o.latitude, v.polygon) || LateralDistance(e, o, v) <= e.policy.horizontalM
  }

  predicate Comparable(o: Observation, v: Volume) {
    o.altitudeKnown && o.reference == v.reference
  }

  // One single volume holds the observation laterally and vertically.
  predicate Contains(e: Engine, o: Observation, v: Volume)
    requires |v.polygon| >= 3
  {
    Comparable(o, v) && InsideLaterally(e, o, v) && AltitudeDeviation(o, v) <= e.policy.verticalM
  }

  function Positive(x: real): real { if x > 0.0 then x else 0.0 }

  function Score(e: Engine, o: Observation, v: Volume): real
    requires |v.polygon| >= 3
  {
    Positive(LateralDistance(e, o, v) - e.policy.horizontalM) + Positive(AltitudeDeviation(o, v) - e.policy.verticalM)
  }

  // Index of the first comparable volume of least score.
  function Best(e: Engine, o: Observation, vs: seq<Volume>): (r: Option<nat>)
    requires ValidVolumes(vs)
    ensures r.None? <==> forall i :: 0 <= i < |vs| ==> !Comparable(o, vs[i])
    ensures r.Some? ==> r.value < |vs| && Comparable(o, vs[r.value])
  {
    if vs == [] then None
    else
      var r, v := Best(e, o, Front(vs)), Last(vs);
      if Comparable(o, v) && (r.None? || Score(e, o, v) < Score(e, o, vs[r.value])) then Some(|vs| - 1) else r
  }

  function Nearest(e: Engine, o: Observation, vs: seq<Volume>): real
    requires vs != [] && ValidVolumes(vs)
  {
    var d := LateralDistance(e, o, Last(vs));
    if |vs| == 1 then d
    else
      var rest := Nearest(e, o, Front(vs));
      if d < rest then d else rest
  }

  predicate Contained(e: Engine, o: Observation, vs: seq<Volume>)
    requires ValidVolumes(vs)
  {
    exists i :: 0 <= i < |vs| && Contains(e, o, vs[i])
  }

  predicate AnyInside(e: Engine, o: Observation, vs: seq<Volume>)
    requires ValidVolumes(vs)
  {
    exists i :: 0 <= i < |vs| && InsideLaterally(e, o, vs[i])
  }

  /** Lateral and vertical evidence of one observation. */
  function Spatial(e: Engine, o: Observation, vs: seq<Volume>): (Evidence, Evidence)
    requires ValidVolumes(vs)
  {
    if vs == [] then (NotEvaluated, NotEvaluated)
    else if Contained(e, o, vs) then (Known(false, 0.0), Known(false, 0.0))
    else match Best(e, o, vs)
      case Some(i) =>
        var lateral, vertical := LateralDistance(e, o, vs[i]), AltitudeDeviation(o, vs[i]);
        (Known(lateral > e.policy.horizontalM, lateral), Known(vertical > e.policy.verticalM, vertical))
      case None => (Known(!AnyInside(e, o, vs), Nearest(e, o, vs)), NotEvaluated)
  }

  method AssessSpatial(e: Engine, o: Observation, vs: seq<Volume>) returns (lateral: Evidence, vertical: Evidence)
    requires ValidVolumes(vs)
    ensures (lateral, vertical) == Spatial(e, o, vs)
  {
    hide RingDistance, Inside, Contained, AnyInside;
    lateral, vertical := NotEvaluated, NotEvaluated;
    if vs == [] { return; }
    var bestScore, bestLateral, bestVertical := 0.0, 0.0, 0.0;
    var nearest := 0.0;
    var anyLateralPass, compatible, jointPass := false, false, false;
    var i := 0;
    NothingInside(e, o);
    while i < |vs|
      invariant 0 <= i <= |vs|
      invariant !jointPass && !Contained(e, o, vs[..i])
      invariant anyLateralPass == AnyInside(e, o, vs[..i])
      invariant i > 0 ==> nearest == Nearest(e, o, vs[..i])
      invariant compatible == Best(e, o, vs[..i]).Some?
      invariant compatible ==>
                  var b := vs[Best(e, o, vs[..i]).value];
                  bestScore == Score(e, o, b) && bestLateral == LateralDistance(e, o, b) &&
                  bestVertical == AltitudeDeviation(o, b)
    {
      var volume := vs[i];
      assert Front(vs[..i + 1]) == vs[..i] && Last(vs[..i + 1]) == volume;
      var distance := DistanceToRing(e.metric, o.latitude, o.longitude, volume.polygon);
      var lateralDistance := distance.value;
      if i == 0 || lateralDistance < nearest { nearest := lateralDistance; }
      var inside := PointInPolygon(o.longitude, o.latitude, volume.polygon);
      var insideLateral := inside || lateralDistance <= e.policy.horizontalM;
      anyLateralPass := anyLateralPass || insideLateral;
      assert AnyInside(e, o, vs[..i + 1]) <==> AnyInside(e, o, vs[..i]) || insideLateral by {
        AnyInsideSnoc(e, o, vs[..i + 1]);
      }
      ContainedSnoc(e, o, vs[..i + 1]);
      if o.altitudeKnown && o.reference == volume.reference {
        var verticalDeviation := AltitudeDeviation(o, volume);
        var score :=
          Positive(lateralDistance - e.policy.horizontalM) + Positive(verticalDeviation - e.policy.verticalM);
        if !compatible || score < bestScore {
          bestScore, bestLateral, bestVertical := score, lateralDistance, verticalDeviation;
        }
        compatible := true;
        if insideLateral && verticalDeviation <= e.policy.verticalM {
          ContainedBy(e, o, vs, i);
          jointPass := true;
          break;
        }
      }
      i := i + 1;
    }
    assert vs[..|vs|] == vs;
    if jointPass {
      lateral, vertical := Known(false, 0.0), Known(false, 0.0);
    } else if compatible {
      lateral := Known(bestLateral > e.policy.horizontalM, bestLateral);
      vertical := Known(bestVertical > e.policy.verticalM, bestVertical);
    } else {
      lateral := Known(!anyLateralPass, nearest);
    }
  }

  lemma NothingInside(e: Engine, o: Observation)
    ensures !Contained(e, o, []) && !AnyInside(e, o, [])
  {
  }

  lemma ContainedBy(e: Engine, o: Observation, vs: seq<Volume>, i: nat)
    requires ValidVolumes(vs) && i < |vs| && Contains(e, o, vs[i])
    ensures Contained(e, o, vs)
  {
  }

  lemma AnyInsideSnoc(e: Engine, o: Observation, vs: seq<Volume>)
    requires vs != [] && ValidVolumes(vs)
    ensures AnyInside(e, o, vs) <==> AnyInside(e, o, Front(vs)) || InsideLaterally(e, o, Last(vs))
  {
    hide InsideLaterally;
    if AnyInside(e, o, Front(vs)) {
      var i :| 0 <= i < |Front(vs)| && InsideLaterally(e, o, Front(vs)[i]);
      assert InsideLaterally(e, o, vs[i]);
    }
    if AnyInside(e, o, vs) {
      var i :| 0 <= i < |vs| && InsideLaterally(e, o, vs[i]);
      if i < |vs| - 1 { assert InsideLaterally(e, o, Front(vs)[i]); }
    }
  }

  lemma ContainedSnoc(e: Engine, o: Observation, vs: seq<Volume>)
    requires vs != [] && ValidVolumes(vs)
    ensures Contained(e, o, vs) <==> Contained(e, o, Front(vs)) || Contains(e, o, Last(vs))
  {
    hide Contains;
    if Contained(e, o, Front(vs)) {
      var i :| 0 <= i < |Front(vs)| && Contains(e, o, Front(vs)[i]);
      assert Contains(e, o, vs[i]);
    }
    if Contained(e, o, vs) {
      var i :| 0 <= i < |vs| && Contains(e, o, vs[i]);
      if i < |vs| - 1 { assert Contains(e, o, Front(vs)[i]); }
    }
  }

  /** With a comparable volume, an observation breaches neither laterally nor
      vertically exactly when one single volume contains it in both. */
  lemma SingleVolumeContainment(e: Engine, o: Observation, vs: seq<Volume>)
    requires ValidVolumes(vs) && exists i :: 0 <= i < |vs| && Comparable(o, vs[i])
    ensures var (lateral, vertical) := Spatial(e, o, vs);
            && lateral.Known? && vertical.Known?
            && (!lateral.breached && !vertical.breached <==> exists v :: v in vs && Contains(e, o, v))
  {
    hide RingDistance, Inside;
    assert Contained(e, o, vs) <==> exists v :: v in vs && Contains(e, o, v);
    if !Contained(e, o, vs) {
      var b := Best(e, o, vs).value;
      assert !Contains(e, o, vs[b]);
    }
  }

  // The verdict is a property of the set of volumes, not of their order.
  lemma ContainmentIgnoresOrder(e: Engine, o: Observation, vs: seq<Volume>, ws: seq<Volume>)
    requires ValidVolumes(vs) && ValidVolumes(ws) && multiset(vs) == multiset(ws)
    requires exists i :: 0 <= i < |vs| && Comparable(o, vs[i])
    ensures var (l, v) := Spatial(e, o, vs);
            var (l', v') := Spatial(e, o, ws);
            && l.Known? && v.Known? && l'.Known? && v'.Known?
            && (l.breached || v.breached <==> l'.breached || v'.breached)
  {
    hide Contains, Spatial, Contained, Comparable;
    SameMembers(vs, ws);
    var i :| 0 <= i < |vs| && Comparable(o, vs[i]);
    assert vs[i] in ws;
    SingleVolumeContainment(e, o, vs);
    SingleVolumeContainment(e, o, ws);
  }

  lemma SameMembers(vs: seq<Volume>, ws: seq<Volume>)
    requires multiset(vs) == multiset(ws)
    ensures forall v :: v in vs <==> v in ws
  {
    assert forall v :: v in vs <==> v in multiset(vs);
  }
}
