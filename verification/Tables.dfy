/** The durable tables and the effect of every store transaction on them. A
    transaction that is refused leaves the tables as they were. */
module Tables {
  import opened Domain

  // ---------- rows ----------

  datatype Key = Key(id: string, gen: nat)

  datatype AssignmentRow = AssignmentRow(
    spec: Assignment, lifecycle: Lifecycle, authorityFrom: Option<Time>, authorityUntil: Option<Time>,
    nextEvaluationAt: Time, leaseOwner: Option<string>, leaseGeneration: nat, leaseUntil: Option<Time>,
    revision: nat)

  type Assignments = map<Key, AssignmentRow>

  predicate IsCurrent(l: Lifecycle) { l == Active || l == Ending }

  predicate IsCandidate(l: Lifecycle) { l == CandidateReceived || l == CandidateArmed }

  /** AssignmentRecord.Authorizes: the half-open authority interval holds t. */
  predicate Authorizes(r: AssignmentRow, t: Time) {
    r.authorityFrom.Some? && r.authorityFrom.value <= t && (r.authorityUntil.None? || t < r.authorityUntil.value)
  }

  datatype MessageId = MessageId(source: string, message: string)

  /** What the inbox hash covers. */
  datatype Envelope =
    | PrepareEnvelope(messageType: string, assignment: Assignment)
    | CommandEnvelope(messageType: string, id: string, gen: nat, effectiveAt: Option<Time>)

  datatype Disposition = Applied | Idempotent | Stale

  datatype InboxRow = InboxRow(envelope: Envelope, disposition: Disposition)

  datatype RevisionKey = RevisionKey(key: Key, revision: nat)

  datatype Checkpoint = Checkpoint(cursor: Cursor, state: EvaluatorState)

  type Checkpoints = map<RevisionKey, Checkpoint>

  datatype Summary = Summary(revision: nat, evaluation: Evaluation)

  /** Identities derived with stableID, which is injective. */
  datatype IncidentId = IncidentId(key: Key, violation: Violation, openingFrame: string)

  datatype EventId = EventId(key: Key, violation: Violation, kind: TransitionKind, frameId: string)

  datatype IncidentRow = IncidentRow(
    open: bool, openedAt: Time, lastObservedAt: Time, resolvedAt: Option<Time>,
    resolution: Option<EventId>, revision: nat)

  type Incidents = map<IncidentId, IncidentRow>

  datatype EventRow = EventRow(incident: IncidentId, transition: Transition, revision: nat)

  type Events = map<EventId, EventRow>

  datatype Destination = Api | RegistryService

  datatype OutboxId =
    | Receipt(message: MessageId)
    | Notice(message: MessageId)
    | Registry(key: Key, revision: nat)

  function DestinationOf(o: OutboxId): Destination { if o.Registry? then RegistryService else Api }

  datatype Payload = CommandPayload(envelope: Envelope) | EvaluationPayload(evaluation: Evaluation)

  datatype OutboxRow = OutboxRow(
    payload: Payload, attempts: nat, nextAttemptAt: Time, leaseOwner: Option<string>,
    leaseGeneration: nat, leaseUntil: Option<Time>, deliveredAt: Option<Time>)

  type Outbox = map<OutboxId, OutboxRow>

  datatype Tables = Tables(
    assignments: Assignments, inbox: map<MessageId, InboxRow>, checkpoints: Checkpoints,
    summaries: map<Key, Summary>, incidents: Incidents, events: Events, outbox: Outbox)

  const EMPTY := Tables(map[], map[], map[], map[], map[], map[], map[])

  datatype StoreError =
    | InvalidCommand | MessageConflict | InvalidTransition | StaleAssignment | LeaseLost
    | StaleEvaluation | IncompleteEvaluation | OpeningNotFound | IntegrityViolation | OutboxLeaseLost

  datatype Reply = Accepted(disposition: Disposition) | Done | Refused(error: StoreError)

  datatype Outcome = Outcome(tables: Tables, reply: Reply)

  function Refuse(t: Tables, e: StoreError): Outcome { Outcome(t, Refused(e)) }

  // ---------- commands ----------

  ghost function Generations(m: Assignments, id: string): set<nat> {
    set k | k in m && k.id == id :: k.gen
  }

  ghost predicate IsLatest(m: Assignments, k: Key) {
    k in m && forall g :: g in Generations(m, k.id) ==> g <= k.gen
  }

  // The row of the highest generation, when the assignment is known at all.
  ghost function Latest(m: Assignments, id: string): Option<Key> {
    if exists k: Key :: k.id == id && IsLatest(m, k) then
      var k: Key :| k.id == id && IsLatest(m, k);
      Some(k)
    else None
  }

  predicate ValidPrepare(m: MessageId, messageType: string, a: Assignment) {
    !Blank(m.source) && !Blank(m.message) && !Blank(messageType) && !Blank(a.id) &&
    a.generation != 0 && a.generation <= MAX_INT64 && !Blank(a.aircraftId) && !Blank(a.agentId) &&
    !Blank(a.flightId) && !Blank(a.intentId) && a.intentVersion != 0 && a.intentVersion <= MAX_INT32 &&
    !Blank(a.policyVersion) && a.effectiveUntil > a.effectiveFrom &&
    Supported(a.effectiveFrom) && Supported(a.effectiveUntil)
  }

  function KeyOf(a: Assignment): Key { Key(a.id, a.generation) }

  function NewRow(a: Assignment, now: Time): AssignmentRow {
    AssignmentRow(a, CandidateReceived, None, None, now, None, 0, None, 0)
  }

  function Unleased(r: AssignmentRow): AssignmentRow { r.(leaseOwner := None, leaseUntil := None) }

  function SupersedeCandidates(m: Assignments, id: string): Assignments {
    map k | k in m :: if k.id == id &&
    IsCandidate(m[k].lifecycle) then Unleased(m[k]).(lifecycle := Superseded) else m[k]
  }

  function QueuedRow(p: Payload, now: Time): OutboxRow { OutboxRow(p, 0, now, None, 0, None, None) }

  function Record(t: Tables, m: MessageId, e: Envelope, d: Disposition): Tables {
    t.(inbox := t.inbox[m := InboxRow(e, d)])
  }

  // The inbox row and the API notification written with an applied command.
  function Notify(t: Tables, o: OutboxId, m: MessageId, e: Envelope, now: Time): Outcome {
    if o in t.outbox then Refuse(t, IntegrityViolation)
    else Outcome(Record(t, m, e, Applied).(outbox := t.outbox[o := QueuedRow(CommandPayload(e), now)]),
      Accepted(Applied))
  }

  function Committed(before: Tables, o: Outcome): Outcome {
    if o.reply.Refused? then Refuse(before, o.reply.error) else o
  }

  ghost function Prepare(t: Tables, m: MessageId, messageType: string, a: Assignment, now: Time): Outcome {
    if !ValidPrepare(m, messageType, a) then Refuse(t, InvalidCommand)
    else
      var e := PrepareEnvelope(messageType, a);
      if m in t.inbox then
        if t.inbox[m].envelope != e then Refuse(t, MessageConflict)
        else Outcome(t, Accepted(if t.inbox[m].disposition == Stale then Stale else Idempotent))
      else
        match Latest(t.assignments, a.id)
        case None => ApplyPrepare(t, m, e, a, now)
        case Some(k) =>
          var latest := t.assignments[k].spec;
          if a.generation < k.gen then Outcome(Record(t, m, e, Stale), Accepted(Stale))
          else if a.generation == k.gen then
            if a != latest then Refuse(t, MessageConflict)
              else Outcome(Record(t, m, e, Idempotent), Accepted(Idempotent))
          else if a.aircraftId != latest.aircraftId || a.flightId != latest.flightId ||
                  a.intentId != latest.intentId then
            Refuse(t, MessageConflict)
          else ApplyPrepare(t, m, e, a, now)
  }

  function ApplyPrepare(t: Tables, m: MessageId, e: Envelope, a: Assignment, now: Time): Outcome {
    Committed(t, Notify(t.(assignments := SupersedeCandidates(t.assignments, a.id)[KeyOf(a) := NewRow(a, now)]),
      Receipt(m), m, e, now))
  }

  datatype CandidateCommand = Arm | Cancel

  function CommandType(c: CandidateCommand): string {
    if c == Arm then "assignment_armed" else "assignment_cancelled"
  }

  predicate ValidCommand(m: MessageId, id: string, gen: nat) {
    !Blank(m.source) && !Blank(m.message) && !Blank(id) && gen != 0 && gen <= MAX_INT64
  }

  // Re-delivery of a recorded lifecycle command.
  function Redelivered(t: Tables, m: MessageId, e: Envelope, k: Key): Outcome
    requires m in t.inbox
  {
    if t.inbox[m].envelope != e then Refuse(t, MessageConflict)
    else if k !in t.assignments then Refuse(t, InvalidTransition)
    else Outcome(t, Accepted(Idempotent))
  }

  ghost function TransitionCandidate(t: Tables, m: MessageId, c: CandidateCommand, id: string, gen: nat, now: Time)
    : Outcome
  {
    var k, e := Key(id, gen), CommandEnvelope(CommandType(c), id, gen, None);
    if !ValidCommand(m, id, gen) then Refuse(t, InvalidCommand)
    else if m in t.inbox then Redelivered(t, m, e, k)
    else if k !in t.assignments then Refuse(t, InvalidTransition)
    else if !IsLatest(t.assignments, k) then Refuse(t, StaleAssignment)
    else
      var row := t.assignments[k];
      if c == Arm && row.lifecycle == CandidateReceived then
        Committed(t, Notify(t.(assignments := t.assignments[k := row.(lifecycle := CandidateArmed)]), Notice(m), m, e,
          now))
      else if c == Cancel && IsCandidate(row.lifecycle) then
        Committed(t, Notify(t.(assignments := t.assignments[k := Unleased(row).(lifecycle := Cancelled)]), Notice(m), m,
          e, now))
      else Refuse(t, InvalidTransition)
  }

  ghost predicate IsCurrentOf(m: Assignments, id: string, k: Key) {
    k in m && k.id == id && IsCurrent(m[k].lifecycle)
  }

  ghost function CurrentOf(m: Assignments, id: string): Option<Key> {
    if exists k :: IsCurrentOf(m, id, k) then
      var k :| IsCurrentOf(m, id, k);
      Some(k)
    else None
  }

  // The armed row takes authority from `at` to its own effective end.
  function Activated(r: AssignmentRow, at: Time, now: Time): AssignmentRow {
    Unleased(r).(lifecycle := Active, authorityFrom := Some(at), authorityUntil := Some(r.spec.effectiveUntil),
      nextEvaluationAt := now)
  }

  function Closed(r: AssignmentRow, at: Time): AssignmentRow {
    Unleased(r).(lifecycle := Superseded, authorityUntil := Some(at))
  }

  function CutoverEnvelope(id: string, gen: nat, at: Time): (e: Envelope)
    ensures e.CommandEnvelope? && e.id == id && e.gen == gen
  {
    CommandEnvelope("assignment_cutover", id, gen, Some(at))
  }

  // The rows with the current interval closed at `at`, or why it may not be.
  ghost function CloseCurrent(t: Tables, id: string, gen: nat, at: Time): Result<Assignments, StoreError> {
    match CurrentOf(t.assignments, id)
    case None => Ok(t.assignments)
    case Some(c) =>
      var was := t.assignments[c];
      if was.authorityFrom.None? || was.authorityUntil.None? then Err(IntegrityViolation)
      else if c.gen >= gen || at <= was.authorityFrom.value || at > was.authorityUntil.value then Err(StaleAssignment)
      else if c in t.summaries && t.summaries[c].evaluation.observedAt >= at then Err(InvalidTransition)
      else Ok(t.assignments[c := Closed(was, at)])
  }

  // The candidate may take over at this time.
  predicate MayActivate(m: Assignments, k: Key, at: Time, now: Time) {
    at <= now && k in m && m[k].lifecycle == CandidateArmed && m[k].spec.effectiveFrom <= at < m[k].spec.effectiveUntil
  }

  ghost function Cutover(t: Tables, m: MessageId, id: string, gen: nat, at: Time, now: Time): Outcome {
    var k, e := Key(id, gen), CutoverEnvelope(id, gen, at);
    if !ValidCommand(m, id, gen) || IsZero(at) || !Supported(at) then Refuse(t, InvalidCommand)
    else if m in t.inbox then Redelivered(t, m, e, k)
    else if !MayActivate(t.assignments, k, at, now) then Refuse(t, InvalidTransition)
    else
      match CloseCurrent(t, id, gen, at)
      case Err(x) => Refuse(t, x)
      case Ok(rows) =>
        var activated := rows[k := Activated(t.assignments[k], at, now)];
        Committed(t, Notify(t.(assignments := activated), Notice(m), m, e, now))
  }

  // ---------- leases ----------

  datatype Claim = Claim(
    assignment: Assignment, authorityFrom: Time, authorityUntil: Time, grace: int,
    worker: string, leaseGeneration: nat, leaseUntil: Time, revision: nat)
  {
    function Key(): Key { KeyOf(assignment) }
  }

  predicate Due(r: AssignmentRow, grace: int, now: Time) {
    IsCurrent(r.lifecycle) && r.authorityUntil.Some? && r.authorityUntil.value + grace >= now &&
    r.nextEvaluationAt <= now && (r.leaseUntil.None? || r.leaseUntil.value < now)
  }

  function Leased(r: AssignmentRow, worker: string, lease: int, now: Time): AssignmentRow {
    r.(leaseOwner := Some(worker), leaseGeneration := r.leaseGeneration + 1, leaseUntil := Some(now + lease))
  }

  predicate ValidClaim(m: Assignments, worker: string, lease: int, grace: int, limit: int, now: Time, chosen: set<Key>)
    {
    worker != "" && lease > 0 && grace >= 0 && limit >= 1 && |chosen| <= limit &&
    forall k :: k in chosen ==> k in m && Due(m[k], grace, now)
  }

  /** `chosen` is the set of due rows that the skip-locked query picked. */
  function ClaimDue(t: Tables, worker: string, lease: int, grace: int, limit: int, now: Time, chosen: set<Key>)
    : Outcome
  {
    if !ValidClaim(t.assignments, worker, lease, grace, limit, now, chosen) then Refuse(t, InvalidCommand)
    else
      Outcome(t.(assignments := map k | k in t.assignments ::
                   if k in chosen then Leased(t.assignments[k], worker, lease, now) else t.assignments[k]), Done)
  }

  // The claim handed to the worker for a leased row.
  function ClaimOf(r: AssignmentRow, worker: string, grace: int): Claim
    requires r.authorityFrom.Some? && r.authorityUntil.Some? && r.leaseUntil.Some?
  {
    Claim(r.spec, r.authorityFrom.value, r.authorityUntil.value, grace, worker, r.leaseGeneration, r.leaseUntil.value,
      r.revision)
  }

  /** The row is current and leased to exactly this claim's worker and generation. */
  predicate Holds(m: Assignments, c: Claim) {
    c.Key() in m &&
    var r := m[c.Key()];
    r.leaseOwner == Some(c.worker) && r.leaseGeneration == c.leaseGeneration && IsCurrent(r.lifecycle)
  }

  predicate Unexpired(r: AssignmentRow, now: Time) { r.leaseUntil.Some? && r.leaseUntil.value > now }

  predicate WithinGrace(r: AssignmentRow, grace: int, now: Time) {
    r.authorityUntil.Some? && r.authorityUntil.value + grace >= now
  }

  function Renew(t: Tables, c: Claim, extension: int, now: Time): Outcome {
    if extension <= 0 then Refuse(t, InvalidCommand)
    else if !Holds(t.assignments, c) || !Unexpired(t.assignments[c.Key()], now) ||
            !WithinGrace(t.assignments[c.Key()], c.grace, now) then
      Refuse(t, LeaseLost)
    else
      Outcome(t.(assignments := t.assignments[c.Key() := t.assignments[c.Key()].(leaseUntil := Some(now + extension))]),
        Done)
  }

  function Defer(t: Tables, c: Claim, next: Time, now: Time): Outcome {
    if IsZero(next) then Refuse(t, InvalidCommand)
    else if !Holds(t.assignments, c) || t.assignments[c.Key()].revision != c.revision ||
            !Unexpired(t.assignments[c.Key()], now) || !WithinGrace(t.assignments[c.Key()], c.grace, now) then
      Refuse(t, LeaseLost)
    else
      Outcome(t.(assignments := t.assignments[c.Key() := Unleased(t.assignments[c.Key()]).(nextEvaluationAt := next)]),
        Done)
  }

  // ---------- evaluation commits ----------

  predicate ValidTransition(tr: Transition, watermark: Time) {
    !IsZero(tr.observedAt) && Supported(tr.observedAt) && tr.observedAt <= watermark && tr.frameId != "" &&
    tr.openingFrame != "" && tr.walId != "" && tr.walSeq <= MAX_INT64
  }

  predicate ValidCommit(ev: Evaluation, next: Time) {
    !IsZero(next) && !IsZero(ev.causalFrom) && !IsZero(ev.observedAt) && Supported(ev.causalFrom) &&
    Supported(ev.observedAt) && ev.causalFrom <= ev.observedAt && ev.frameId != "" && ev.walId != "" &&
    ev.walSeq <= MAX_INT64 && forall i :: 0 <= i < |ev.transitions| ==>
        ValidTransition(ev.transitions[i], ev.observedAt)
  }

  predicate TimestampOk(t: Time, from: Time, until: Time, watermark: Time) {
    IsZero(t) || (Supported(t) && t <= watermark && from <= t < until)
  }

  predicate IncidentTimesOk(i: IncidentState, from: Time, until: Time, watermark: Time) {
    TimestampOk(i.firstSuspectedAt, from, until, watermark) && TimestampOk(i.openedAt, from, until, watermark) &&
    TimestampOk(i.lastObservedAt, from, until, watermark)
  }

  predicate StateTimesOk(s: EvaluatorState, from: Time, until: Time, watermark: Time) {
    forall v :: v in s ==> IncidentTimesOk(s[v], from, until, watermark)
  }

  predicate WithinAuthority(ev: Evaluation, from: Time, until: Time) {
    from < until && TimestampOk(ev.observedAt, from, until, ev.observedAt) &&
    TimestampOk(ev.causalFrom, from, until, ev.observedAt) &&
    (forall i :: 0 <= i < |ev.transitions| ==> TimestampOk(ev.transitions[i].observedAt, from, until, ev.observedAt)) &&
    StateTimesOk(ev.state, from, until, ev.observedAt)
  }

  ghost function Revisions(cps: Checkpoints, k: Key): set<nat> {
    set r | r in cps && r.key == k :: r.revision
  }

  ghost predicate IsNewest(cps: Checkpoints, k: Key, r: nat) {
    RevisionKey(k, r) in cps && forall n :: n in Revisions(cps, k) ==> n <= r
  }

  ghost function Newest(cps: Checkpoints, k: Key): Option<nat> {
    if exists r :: IsNewest(cps, k, r) then
      var r :| IsNewest(cps, k, r);
      Some(r)
    else None
  }

  /** compareEvaluationCursor. */
  function CompareCursor(a: Cursor, b: Cursor): (r: int)
    ensures r < 0 <==> CursorLess(a, b)
    ensures r == 0 <==> a == b
    ensures r > 0 <==> CursorLess(b, a)
  {
    CursorTotal(a, b);
    CursorNotBoth(a, b);
    CursorIrreflexive(a);
    if a.at != b.at then if a.at < b.at then -1 else 1
    else if a.walId != b.walId then CompareStrings(a.walId, b.walId)
    else if a.walSeq != b.walSeq then if a.walSeq < b.walSeq then -1 else 1
    else CompareStrings(a.frameId, b.frameId)
  }

  function CompareStrings(a: string, b: string): (r: int)
    ensures r < 0 <==> StrLess(a, b)
    ensures r == 0 <==> a == b
    ensures r > 0 <==> StrLess(b, a)
  {
    StrLessTotal(a, b);
    StrLessIrreflexive(a);
    CursorNotBoth(CursorAt(0, a, 0, ""), CursorAt(0, b, 0, ""));
    if a == b then 0 else if StrLess(a, b) then -1 else 1
  }

  datatype Ledger = Ledger(incidents: Incidents, events: Events)

  function IncidentOf(k: Key, tr: Transition): IncidentId { IncidentId(k, tr.violation, tr.openingFrame) }

  function EventOf(k: Key, tr: Transition): EventId { EventId(k, tr.violation, tr.kind, tr.frameId) }

  // Another open incident of the same violation: the one-open-incident index.
  predicate OpenExists(inc: Incidents, k: Key, v: Violation) {
    exists i :: i in inc && i.key == k && i.violation == v && inc[i].open
  }

  function OpenIncident(tr: Transition): IncidentRow {
    IncidentRow(true, tr.observedAt, tr.observedAt, None, None, 1)
  }

  function ResolveIncident(r: IncidentRow, tr: Transition, e: EventId): IncidentRow {
    IncidentRow(false, r.openedAt, tr.observedAt, Some(tr.observedAt), Some(e),
                r.revision + if r.resolution != Some(e) then 1 else 0)
  }

  // Opening inserts or confirms the incident; anything else must find it.
  function OpenStep(inc: Incidents, k: Key, tr: Transition): Result<Incidents, StoreError> {
    var i := IncidentOf(k, tr);
    match tr.kind
    case Opened =>
      if i in inc then if inc[i].openedAt == tr.observedAt then Ok(inc) else Err(MessageConflict)
      else if OpenExists(inc, k, tr.violation) then Err(IntegrityViolation)
      else Ok(inc[i := OpenIncident(tr)])
    case Resolved => if i in inc && inc[i].openedAt <= tr.observedAt then Ok(inc) else Err(OpeningNotFound)
    case Updated => if i in inc then Ok(inc) else Err(IntegrityViolation)
  }

  // Event rows are inserted once and never changed.
  function EventStep(evs: Events, k: Key, revision: nat, tr: Transition): Result<Events, StoreError> {
    var e := EventOf(k, tr);
    if e in evs then
      if evs[e].incident == IncidentOf(k, tr) && evs[e].transition == tr then Ok(evs) else Err(MessageConflict)
    else Ok(evs[e := EventRow(IncidentOf(k, tr), tr, revision)])
  }

  function ApplyTransition(x: Ledger, k: Key, revision: nat, tr: Transition): Result<Ledger, StoreError> {
    match OpenStep(x.incidents, k, tr)
    case Err(e) => Err(e)
    case Ok(inc) =>
      match EventStep(x.events, k, revision, tr)
      case Err(e) => Err(e)
      case Ok(evs) =>
        var i := IncidentOf(k, tr);
        if tr.kind == Resolved && i in inc then Ok(Ledger(inc[i := ResolveIncident(inc[i], tr, EventOf(k, tr))], evs))
        else Ok(Ledger(inc, evs))
  }

  function ApplyTransitions(x: Ledger, k: Key, revision: nat, trs: seq<Transition>): Result<Ledger, StoreError> {
    if trs == [] then Ok(x)
    else
      match ApplyTransitions(x, k, revision, trs[..|trs| - 1])
      case Err(e) => Err(e)
      case Ok(y) => ApplyTransition(y, k, revision, trs[|trs| - 1])
  }

  /** Everything one evaluation writes, or the reason it may not be written. */
  ghost function WriteEvaluation(
    t: Tables, k: Key, revision: nat, ev: Evaluation, allowEqual: bool, publish: bool, now: Time)
    : Result<Tables, StoreError>
  {
    if StaleCursor(t.checkpoints, k, ev, allowEqual) then Err(StaleEvaluation)
    else
      match ApplyTransitions(Ledger(t.incidents, t.events), k, revision, ev.transitions)
      case Err(e) => Err(e)
      case Ok(x) =>
        var rk, confirmed := RevisionKey(k, revision), ev.(recording := Confirmed);
        if rk in t.checkpoints then Err(IntegrityViolation)
        else
          Ok(t.(incidents := x.incidents, events := x.events,
                checkpoints := t.checkpoints[rk := Checkpoint(ev.Position(), ev.state)],
                summaries := t.summaries[k := Summary(revision, confirmed)],
                outbox := if publish && Registry(k, revision) !in t.outbox
                          then t.outbox[Registry(k, revision) := QueuedRow(EvaluationPayload(confirmed), now)]
                            else t.outbox))
  }

  ghost predicate StaleCursor(cps: Checkpoints, k: Key, ev: Evaluation, allowEqual: bool) {
    match Newest(cps, k)
    case None => false
    case Some(r) =>
      var c := CompareCursor(ev.Position(), cps[RevisionKey(k, r)].cursor);
      c < 0 || (c == 0 && !allowEqual)
  }

  // The fence of a live commit.
  predicate MayCommit(m: Assignments, c: Claim, at: Time, now: Time) {
    Holds(m, c) &&
    var r := m[c.Key()];
    r.revision == c.revision && Unexpired(r, now) && r.authorityFrom.Some? && r.authorityUntil.Some? &&
    r.authorityFrom.value <= at < r.authorityUntil.value
  }

  function Advanced(r: AssignmentRow): AssignmentRow { r.(revision := r.revision + 1) }

  function Consumed(r: AssignmentRow, next: Time): AssignmentRow { Unleased(r).(nextEvaluationAt := next) }

  ghost function Commit(t: Tables, c: Claim, ev: Evaluation, next: Time, now: Time): Outcome {
    if !ValidCommit(ev, next) then Refuse(t, IncompleteEvaluation)
    else if !MayCommit(t.assignments, c, ev.observedAt, now) then Refuse(t, LeaseLost)
    else
      var k := c.Key();
      var row := Advanced(Consumed(t.assignments[k], next));
      if !WithinAuthority(ev, row.authorityFrom.value, row.authorityUntil.value) then Refuse(t, InvalidTransition)
      else
        match WriteEvaluation(t.(assignments := t.assignments[k := row]), k, row.revision, ev, false, true, now)
        case Err(e) => Refuse(t, e)
        case Ok(t') => Outcome(t', Done)
  }

  predicate MayReconcile(m: Assignments, c: Claim, now: Time) {
    Holds(m, c) &&
    var r := m[c.Key()];
    r.revision == c.revision && Unexpired(r, now) && r.authorityUntil.Some? && r.authorityUntil.value > now
  }

  ghost function CommitHistorical(t: Tables, c: Claim, gen: nat, ev: Evaluation, next: Time, now: Time): Outcome {
    if !ValidCommit(ev, next) then Refuse(t, IncompleteEvaluation)
    else if gen == 0 || gen > MAX_INT64 || gen >= c.assignment.generation then Refuse(t, InvalidCommand)
    else if !MayReconcile(t.assignments, c, now) then Refuse(t, LeaseLost)
    else
      var k, h := c.Key(), Key(c.assignment.id, gen);
      var m := t.assignments[k := Consumed(t.assignments[k], next)];
      if h !in m || m[h].lifecycle != Superseded || m[h].authorityFrom.None? || m[h].authorityUntil.None? ||
         !(m[h].authorityFrom.value <= ev.observedAt < m[h].authorityUntil.value) then Refuse(t, InvalidTransition)
      else if !WithinAuthority(ev, m[h].authorityFrom.value, m[h].authorityUntil.value)
        then Refuse(t, InvalidTransition)
      else
        var row := Advanced(m[h]);
        match WriteEvaluation(t.(assignments := m[h := row]), h, row.revision, ev, true, false, now)
        case Err(e) => Refuse(t, e)
        case Ok(t') => Outcome(t', Done)
  }

  // ---------- outbox ----------

  predicate Earlier(a: OutboxId, b: OutboxId)
    requires a.Registry? && b.Registry?
  {
    a.key.id == b.key.id && (a.key.gen < b.key.gen || (a.key.gen == b.key.gen && a.revision < b.revision))
  }

  // Every earlier registry row of the same assignment has been delivered.
  predicate HeadOfLine(x: Outbox, o: OutboxId) {
    o.Registry? ==> forall p :: p in x && p.Registry? && Earlier(p, o) ==> x[p].deliveredAt.Some?
  }

  predicate Claimable(x: Outbox, o: OutboxId, d: Destination, now: Time) {
    o in x && DestinationOf(o) == d && x[o].deliveredAt.None? && x[o].nextAttemptAt <= now &&
    (x[o].leaseUntil.None? || x[o].leaseUntil.value < now) && HeadOfLine(x, o)
  }

  datatype OutboxClaim = OutboxClaim(id: OutboxId, worker: string, leaseGeneration: nat)

  function LeasedMessage(r: OutboxRow, worker: string, lease: int, now: Time): OutboxRow {
    r.(leaseOwner := Some(worker), leaseGeneration := r.leaseGeneration + 1, leaseUntil := Some(now + lease),
      attempts := r.attempts + 1)
  }

  predicate ValidOutboxClaim(
    x: Outbox, d: Destination, worker: string, lease: int, limit: int, now: Time, chosen: set<OutboxId>)
  {
    !Blank(worker) && lease > 0 && limit >= 1 && |chosen| <= limit && forall o :: o in chosen ==>
        Claimable(x, o, d, now)
  }

  function ClaimOutbox(
    t: Tables, d: Destination, worker: string, lease: int, limit: int, now: Time, chosen: set<OutboxId>): Outcome
  {
    if !ValidOutboxClaim(t.outbox, d, worker, lease, limit, now, chosen) then Refuse(t, InvalidCommand)
    else
      Outcome(t.(outbox := map o | o in t.outbox ::
                   if o in chosen then LeasedMessage(t.outbox[o], worker, lease, now) else t.outbox[o]), Done)
  }

  predicate HoldsMessage(x: Outbox, c: OutboxClaim, now: Time) {
    c.id in x &&
    var r := x[c.id];
    r.leaseOwner == Some(c.worker) && r.leaseGeneration == c.leaseGeneration && r.leaseUntil.Some? &&
    r.leaseUntil.value > now && r.deliveredAt.None?
  }

  function MarkDelivered(t: Tables, c: OutboxClaim, now: Time): Outcome {
    if !HoldsMessage(t.outbox, c, now) then Refuse(t, OutboxLeaseLost)
    else
      Outcome(t.(outbox := t.outbox[c.id := t.outbox[c.id].(deliveredAt := Some(now), leaseOwner := None,
        leaseUntil := None)]), Done)
  }

  function Retry(t: Tables, c: OutboxClaim, delay: int, failed: bool, now: Time): Outcome {
    if delay <= 0 || !failed then Refuse(t, InvalidCommand)
    else if !HoldsMessage(t.outbox, c, now) then Refuse(t, OutboxLeaseLost)
    else
      Outcome(t.(outbox := t.outbox[c.id := t.outbox[c.id].(nextAttemptAt := now + delay, leaseOwner := None,
        leaseUntil := None)]), Done)
  }

  // ---------- runs ----------

  /** One transaction, with the database time it reads. */
  datatype Step =
    | PrepareStep(message: MessageId, messageType: string, assignment: Assignment, now: Time)
    | CandidateStep(message: MessageId, command: CandidateCommand, id: string, gen: nat, now: Time)
    | CutoverStep(message: MessageId, id: string, gen: nat, at: Time, now: Time)
    | ClaimStep(worker: string, lease: int, grace: int, limit: int, now: Time, chosen: set<Key>)
    | RenewStep(claim: Claim, extension: int, now: Time)
    | DeferStep(claim: Claim, next: Time, now: Time)
    | CommitStep(claim: Claim, evaluation: Evaluation, next: Time, now: Time)
    | HistoricalStep(claim: Claim, target: nat, evaluation: Evaluation, next: Time, now: Time)
    | OutboxClaimStep(destination: Destination, worker: string, lease: int, limit: int, now: Time,
      messages: set<OutboxId>)
    | DeliveredStep(outboxClaim: OutboxClaim, now: Time)
    | RetryStep(outboxClaim: OutboxClaim, delay: int, failed: bool, now: Time)

  ghost function Perform(t: Tables, s: Step): Outcome {
    match s
    case PrepareStep(m, mt, a, now) => Prepare(t, m, mt, a, now)
    case CandidateStep(m, c, id, gen, now) => TransitionCandidate(t, m, c, id, gen, now)
    case CutoverStep(m, id, gen, at, now) => Cutover(t, m, id, gen, at, now)
    case ClaimStep(w, lease, grace, limit, now, chosen) => ClaimDue(t, w, lease, grace, limit, now, chosen)
    case RenewStep(c, ext, now) => Renew(t, c, ext, now)
    case DeferStep(c, next, now) => Defer(t, c, next, now)
    case CommitStep(c, ev, next, now) => Commit(t, c, ev, next, now)
    case HistoricalStep(c, gen, ev, next, now) => CommitHistorical(t, c, gen, ev, next, now)
    case OutboxClaimStep(d, w, lease, limit, now, chosen) => ClaimOutbox(t, d, w, lease, limit, now, chosen)
    case DeliveredStep(c, now) => MarkDelivered(t, c, now)
    case RetryStep(c, delay, failed, now) => Retry(t, c, delay, failed, now)
  }

  ghost function Next(t: Tables, s: Step): Tables { Perform(t, s).tables }

  /** The tables after a run of transactions, in order. */
  ghost function Exec(t: Tables, steps: seq<Step>): Tables {
    if steps == [] then t else Next(Exec(t, steps[..|steps| - 1]), steps[|steps| - 1])
  }
}
