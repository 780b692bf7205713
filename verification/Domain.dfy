/** Infrastructure-independent data: times, strings, assignments, observations,
    incident state and evaluations. */
module Domain {
  import opened Ordering

  datatype Option<+T> = None | Some(value: T)

  datatype Result<+R, +E> = Ok(value: R) | Err(error: E)

  // ---------- time ----------

  /** Nanoseconds since the Unix epoch, unbounded. */
  type Time = int

  // Go's zero time.Time, 1 January of year 1.
  const ZERO_TIME: Time := -62135596800_000000000
  // Years 1678 through 2261 inclusive.
  const MIN_SUPPORTED: Time := -9214560000_000000000
  const END_SUPPORTED: Time := 9214646400_000000000
  const MAX_INT64: int := 0x7FFF_FFFF_FFFF_FFFF
  const MAX_INT32: int := 0x7FFF_FFFF

  predicate IsZero(t: Time) { t == ZERO_TIME }

  predicate Supported(t: Time) { MIN_SUPPORTED <= t < END_SUPPORTED }

  /** Supported times fit a signed 64-bit nanosecond count, and the unset time is not one. */
  lemma SupportedFits(t: Time)
    requires Supported(t)
    ensures -MAX_INT64 <= t <= MAX_INT64 && !IsZero(t)
  {
  }

  // ---------- strings ----------

  // Unicode white space, as strings.TrimSpace removes it.
  predicate IsSpace(c: char) {
    c == ' ' || '\t' <= c <= '\r' || c == '\U{85}' || c == '\U{A0}' || c == '\U{1680}' ||
    '\U{2000}' <= c <= '\U{200A}' ||
    c == '\U{2028}' || c == '\U{2029}' || c == '\U{202F}' || c == '\U{205F}' || c == '\U{3000}'
  }

  function TrimLeft(s: string): string {
    if s != [] && IsSpace(s[0]) then TrimLeft(s[1..]) else s
  }

  function TrimRight(s: string): string {
    if s != [] && IsSpace(s[|s| - 1]) then TrimRight(s[..|s| - 1]) else s
  }

  function Trim(s: string): string { TrimRight(TrimLeft(s)) }

  predicate Blank(s: string) { Trim(s) == "" }

  /** The one total order on strings. */
  predicate StrLess(a: string, b: string) {
    b != [] && (a == [] || a[0] < b[0] || (a[0] == b[0] && StrLess(a[1..], b[1..])))
  }

  lemma {:induction false} StrLessIrreflexive(a: string)
    ensures !StrLess(a, a)
  {
    if a != [] { StrLessIrreflexive(a[1..]); }
  }

  lemma {:induction false} StrLessTransitive(a: string, b: string, c: string)
    requires StrLess(a, b) && StrLess(b, c)
    ensures StrLess(a, c)
  {
    if a != [] && a[0] == b[0] == c[0] { StrLessTransitive(a[1..], b[1..], c[1..]); }
  }

  lemma {:induction false} StrLessTotal(a: string, b: string)
    ensures a == b || StrLess(a, b) || StrLess(b, a)
  {
    if a != [] && b != [] && a[0] == b[0] {
      StrLessTotal(a[1..], b[1..]);
      if a[1..] == b[1..] {
        assert a == [a[0]] + a[1..] && b == [b[0]] + b[1..];
      }
    }
  }

  /** The order is lexicographic: the first difference decides, and a proper prefix comes first. */
  lemma {:induction false} StrLessLexicographic(p: string, a: string, b: string)
    requires b != [] && (a == [] || a[0] < b[0])
    ensures StrLess(p + a, p + b) && !StrLess(p + b, p + a)
  {
    if p == [] {
      assert p + a == a && p + b == b;
    } else {
      assert (p + a)[1..] == p[1..] + a && (p + b)[1..] == p[1..] + b;
      StrLessLexicographic(p[1..], a, b);
    }
  }

  // ---------- cursors ----------

  /** A durable telemetry position inside one agent's stream. */
  datatype Cursor = CursorAt(at: Time, walId: string, walSeq: nat, frameId: string)

  predicate CursorLess(a: Cursor, b: Cursor) {
    if a.at != b.at then a.at < b.at
    else if a.walId != b.walId then StrLess(a.walId, b.walId)
    else if a.walSeq != b.walSeq then a.walSeq < b.walSeq
    else StrLess(a.frameId, b.frameId)
  }

  predicate CursorAtMost(a: Cursor, b: Cursor) { a == b || CursorLess(a, b) }

  lemma CursorIrreflexive(a: Cursor)
    ensures !CursorLess(a, a)
  {
    StrLessIrreflexive(a.frameId);
  }

  lemma CursorTransitive(a: Cursor, b: Cursor, c: Cursor)
    requires CursorLess(a, b) && CursorLess(b, c)
    ensures CursorLess(a, c)
  {
    if StrLess(a.walId, b.walId) && StrLess(b.walId, c.walId) {
      StrLessTransitive(a.walId, b.walId, c.walId);
      StrLessIrreflexive(a.walId);
      if a.walId == c.walId { StrLessTransitive(b.walId, c.walId, b.walId); StrLessIrreflexive(b.walId); }
    }
    if StrLess(a.frameId, b.frameId) && StrLess(b.frameId, c.frameId) {
      StrLessTransitive(a.frameId, b.frameId, c.frameId);
    }
  }

  /** Event time decides first, then WAL identity, then position in the WAL, then the frame. */
  lemma CursorPrecedence(a: Cursor, b: Cursor)
    ensures a.at < b.at ==> CursorLess(a, b)
    ensures a.at == b.at && StrLess(a.walId, b.walId) ==> CursorLess(a, b)
    ensures a.at == b.at && a.walId == b.walId && a.walSeq < b.walSeq ==> CursorLess(a, b)
    ensures a.at == b.at && a.walId == b.walId && a.walSeq == b.walSeq && StrLess(a.frameId, b.frameId) ==>
              CursorLess(a, b)
  {
    StrLessIrreflexive(a.walId);
  }

  lemma CursorTotal(a: Cursor, b: Cursor)
    ensures a == b || CursorLess(a, b) || CursorLess(b, a)
  {
    StrLessTotal(a.walId, b.walId);
    StrLessTotal(a.frameId, b.frameId);
  }

  lemma CursorAtMostTransitive(a: Cursor, b: Cursor, c: Cursor)
    requires CursorAtMost(a, b) && CursorAtMost(b, c)
    ensures CursorAtMost(a, c)
    ensures CursorLess(a, b) || CursorLess(b, c) ==> CursorLess(a, c)
  {
    if a != b && b != c { CursorTransitive(a, b, c); }
  }

  lemma CursorNotBoth(a: Cursor, b: Cursor)
    ensures !(CursorAtMost(a, b) && CursorLess(b, a))
  {
    if CursorAtMost(a, b) && CursorLess(b, a) {
      CursorAtMostTransitive(b, a, b);
      CursorIrreflexive(b);
    }
  }

  // ---------- assignments ----------

  datatype AltitudeReference = MSL | AGL

  datatype Point = Point(latitude: real, longitude: real)

  datatype Volume = Volume(
    id: string, polygon: seq<Point>, lowerM: real, upperM: real,
    reference: AltitudeReference, startsAt: Time, endsAt: Time)

  datatype Assignment = Assignment(
    id: string, generation: nat, operatorId: string, aircraftId: string, agentId: string,
    flightId: string, intentId: string, intentVersion: nat, policyVersion: string,
    effectiveFrom: Time, effectiveUntil: Time, volumes: seq<Volume>)

  datatype Lifecycle =
    CandidateReceived | CandidateArmed | Active | Ending | Completed | Cancelled | Superseded

  // ---------- observations ----------

  datatype Observation = Observation(
    frameId: string, agentId: string, walId: string, walSeq: nat, aircraftId: string,
    flightId: string, intentId: string, intentVersion: nat, latitude: real, longitude: real,
    altitudeM: real, altitudeKnown: bool, reference: AltitudeReference, observedAt: Time)
  {
    function Position(): Cursor { CursorAt(observedAt, walId, walSeq, frameId) }
  }

  /** Canonical telemetry order: event time, agent, WAL identity, sequence, frame. */
  predicate ObsBefore(a: Observation, b: Observation) {
    if a.observedAt != b.observedAt then a.observedAt < b.observedAt
    else if a.agentId != b.agentId then StrLess(a.agentId, b.agentId)
    else if a.walId != b.walId then StrLess(a.walId, b.walId)
    else if a.walSeq != b.walSeq then a.walSeq < b.walSeq
    else StrLess(a.frameId, b.frameId)
  }

  /** Event time decides first, then the agent, then the agent's own stream. */
  lemma ObsPrecedence(a: Observation, b: Observation)
    ensures a.observedAt < b.observedAt ==> ObsBefore(a, b)
    ensures a.observedAt == b.observedAt && StrLess(a.agentId, b.agentId) ==> ObsBefore(a, b)
    ensures a.agentId == b.agentId ==> (ObsBefore(a, b) <==> CursorLess(a.Position(), b.Position()))
  {
    StrLessIrreflexive(a.agentId);
  }

  predicate SameKey(a: Observation, b: Observation) {
    a.observedAt == b.observedAt && a.agentId == b.agentId && a.walId == b.walId &&
    a.walSeq == b.walSeq && a.frameId == b.frameId
  }

  lemma ObsBeforeTransitive(a: Observation, b: Observation, c: Observation)
    requires ObsBefore(a, b) && ObsBefore(b, c)
    ensures ObsBefore(a, c)
  {
    if a.observedAt == b.observedAt == c.observedAt {
      if a.agentId == b.agentId == c.agentId {
        CursorTransitive(a.Position(), b.Position(), c.Position());
      } else if a.agentId != b.agentId && b.agentId != c.agentId {
        StrLessTransitive(a.agentId, b.agentId, c.agentId);
        StrLessIrreflexive(a.agentId);
      }
    }
  }

  // Canonical order leaves two observations unordered only when their whole key agrees.
  lemma ObsBeforeTrichotomy(a: Observation, b: Observation)
    ensures SameKey(a, b) || ObsBefore(a, b) || ObsBefore(b, a)
    ensures SameKey(a, b) ==> !ObsBefore(a, b)
    ensures !(ObsBefore(a, b) && ObsBefore(b, a))
  {
    StrLessTotal(a.agentId, b.agentId);
    CursorTotal(a.Position(), b.Position());
    StrLessIrreflexive(a.frameId);
    if ObsBefore(a, b) && ObsBefore(b, a) {
      ObsBeforeTransitive(a, b, a);
      StrLessIrreflexive(a.frameId);
    }
  }

  lemma ObsOrder()
    ensures StrictOrder(ObsBefore)
  {
    forall x ensures !ObsBefore(x, x) { ObsBeforeTrichotomy(x, x); }
    forall x, y, z | ObsBefore(x, y) && ObsBefore(y, z) ensures ObsBefore(x, z) {
      ObsBeforeTransitive(x, y, z);
    }
  }

  lemma ObsWeakOrder()
    ensures WeakOrder(ObsBefore)
  {
    forall x, y, z | !ObsBefore(x, y) && !ObsBefore(y, z) ensures !ObsBefore(x, z) {
      ObsBeforeTrichotomy(x, y);
      ObsBeforeTrichotomy(y, z);
      ObsBeforeTrichotomy(x, z);
      if ObsBefore(x, z) {
        if ObsBefore(y, x) {
          ObsBeforeTransitive(y, x, z);
        } else if ObsBefore(z, y) {
          ObsBeforeTransitive(x, z, y);
        }
      }
    }
    forall x, y | ObsBefore(x, y) ensures !ObsBefore(y, x) { ObsBeforeTrichotomy(x, y); }
  }

  lemma StrOrder()
    ensures StrictOrder(StrLess) && WeakOrder(StrLess)
  {
    hide StrLess;
    forall x ensures !StrLess(x, x) { StrLessIrreflexive(x); }
    forall x, y, z | StrLess(x, y) && StrLess(y, z) ensures StrLess(x, z) { StrLessTransitive(x, y, z); }
    assert StrictOrder(StrLess);
    forall x, y, z | !StrLess(x, y) && !StrLess(y, z) ensures !StrLess(x, z) {
      StrLessTotal(x, y);
      StrLessTotal(y, z);
    }
  }

  lemma StrTotalOn(s: set<string>)
    ensures TotalOn(StrLess, s)
  {
    forall x, y | x in s && y in s && x != y ensures StrLess(x, y) || StrLess(y, x) { StrLessTotal(x, y); }
  }

  // ---------- incidents and evaluations ----------

  datatype Violation = Lateral | Vertical | Temporal | TelemetryLoss

  // Unset is Go's empty phase string, the value of a missing map entry.
  datatype Phase = Unset | Clear | Suspected | Open | Recovering

  datatype IncidentState = IncidentState(
    phase: Phase, openingFrame: string, outside: nat, inside: nat,
    firstSuspectedAt: Time, openedAt: Time, lastObservedAt: Time, worst: real)

  const NO_INCIDENT := IncidentState(Unset, "", 0, 0, ZERO_TIME, ZERO_TIME, ZERO_TIME, 0.0)

  type EvaluatorState = map<Violation, IncidentState>

  function Lookup(s: EvaluatorState, v: Violation): IncidentState {
    if v in s then s[v] else NO_INCIDENT
  }

  predicate InEpisode(p: Phase) { p == Open || p == Recovering }

  predicate AtRest(p: Phase) { p == Unset || p == Clear }

  datatype TransitionKind = Opened | Updated | Resolved

  datatype Transition = Transition(
    violation: Violation, kind: TransitionKind, observedAt: Time, frameId: string,
    openingFrame: string, walId: string, walSeq: nat, deviation: real)

  datatype Condition = Unknown | Conforming | Suspicious | NonConforming | Recuperating

  datatype Recording = Pending | Confirmed

  datatype Evaluation = Evaluation(
    condition: Condition, recording: Recording, state: EvaluatorState, transitions: seq<Transition>,
    causalFrom: Time, observedAt: Time, frameId: string, walId: string, walSeq: nat)
  {
    function Position(): Cursor { CursorAt(observedAt, walId, walSeq, frameId) }
  }

  // ---------- timestamps inside a window ----------

  // Go's zero time stands for a timestamp that was never set.
  predicate TimeWithin(t: Time, lo: Time, hi: Time) { IsZero(t) || lo <= t <= hi }

  // Every recorded timestamp of the incident lies in [lo, hi].
  predicate IncidentWithin(i: IncidentState, lo: Time, hi: Time) {
    TimeWithin(i.firstSuspectedAt, lo, hi) && TimeWithin(i.openedAt, lo, hi) && TimeWithin(i.lastObservedAt, lo, hi)
  }

  predicate StateWithin(s: EvaluatorState, lo: Time, hi: Time) {
    forall v :: v in s ==> IncidentWithin(s[v], lo, hi)
  }

  predicate TransitionsWithin(ts: seq<Transition>, lo: Time, hi: Time) {
    forall i :: 0 <= i < |ts| ==> !IsZero(ts[i].observedAt) && lo <= ts[i].observedAt <= hi
  }
}
