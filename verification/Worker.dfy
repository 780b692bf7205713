/** The sequential part of one claimed evaluation: restore, read the overlap,
    keep the unseen suffix, evaluate, and commit or defer. */
module Worker {
  import opened Ordering
  import opened Domain
  import opened Hysteresis
  import opened Evaluator
  import opened Evaluation
  import opened Tables
  import Reader

  datatype Config = Config(poll: int, settle: int, overlap: int) {
    predicate Valid() { poll > 0 && settle >= 0 && overlap > 0 }
  }

  // ---------- the unseen suffix ----------

  predicate AttributedTo(a: Assignment, o: Observation) {
    o.agentId == a.agentId && o.flightId == a.flightId && o.intentId == a.intentId && o.intentVersion == a.intentVersion
  }

  /** afterCheckpoint: strictly after the stored cursor. */
  function AfterCheckpoint(o: Observation, c: Cursor): (r: bool)
    ensures r <==> CursorLess(c, o.Position())
  {
    if o.observedAt != c.at then o.observedAt > c.at
    else if o.walId != c.walId then StrLess(c.walId, o.walId)
    else if o.walSeq != c.walSeq then o.walSeq > c.walSeq
    else StrLess(c.frameId, o.frameId)
  }

  predicate Evaluable(claim: Claim, after: Option<Cursor>, o: Observation) {
    AttributedTo(claim.assignment, o) && claim.authorityFrom <= o.observedAt < claim.authorityUntil &&
    (after.Some? ==> CursorLess(after.value, o.Position()))
  }

  function Kept(obs: seq<Observation>, claim: Claim, after: Option<Cursor>): seq<Observation> {
    if obs == [] then []
      else Kept(Front(obs), claim, after) + if Evaluable(claim, after, Last(obs)) then [Last(obs)] else []
  }

  lemma {:induction false} KeptIsSublist(obs: seq<Observation>, claim: Claim, after: Option<Cursor>)
    ensures forall o :: o in Kept(obs, claim, after) <==> o in obs && Evaluable(claim, after, o)
    ensures Ascending(ObsBefore, obs) ==> Ascending(ObsBefore, Kept(obs, claim, after))
  {
    hide ObsBefore, Evaluable;
    if obs != [] {
      KeptIsSublist(Front(obs), claim, after);
      var kept := Kept(Front(obs), claim, after);
      if Ascending(ObsBefore, obs) {
        forall i | 0 <= i < |kept| ensures ObsBefore(kept[i], Last(obs)) { assert kept[i] in Front(obs); }
      }
    }
  }

  /** The observations of s that the claim still has to evaluate. */
  ghost function Suffix(s: set<Observation>, claim: Claim, after: Option<Cursor>): set<Observation> {
    set o | o in s && Evaluable(claim, after, o)
  }

  lemma SortedSuffix(obs: seq<Observation>, s: set<Observation>, claim: Claim, after: Option<Cursor>)
    requires IsCanon(ObsBefore, obs, s)
    ensures IsCanon(ObsBefore, SortBy(ObsBefore, Kept(obs, claim, after)), Suffix(s, claim, after))
  {
    hide ObsBefore, Evaluable;
    var kept := Kept(obs, claim, after);
    KeptIsSublist(obs, claim, after);
    assert Elems(kept) == Suffix(s, claim, after);
    ObsWeakOrder();
    ObsOrder();
    AscendingIsTotal(kept);
    SortIsCanon(ObsBefore, kept);
  }

  lemma AscendingIsTotal(q: seq<Observation>)
    requires Ascending(ObsBefore, q)
    ensures Distinct(q) && TotalOn(ObsBefore, Elems(q))
  {
    hide ObsBefore;
    ObsOrder();
    forall i, j | 0 <= i < j < |q| ensures q[i] != q[j] { AscendingDistinct(ObsBefore, q, i, j); }
    forall x, y | x in Elems(q) && y in Elems(q) && x != y ensures ObsBefore(x, y) || ObsBefore(y, x) {
      var i :| 0 <= i < |q| && q[i] == x;
      var j :| 0 <= j < |q| && q[j] == y;
    }
  }

  method EvaluableSuffix(obs: seq<Observation>, claim: Claim, after: Option<Cursor>) returns (r: seq<Observation>)
    ensures r == SortBy(ObsBefore, Kept(obs, claim, after))
    ensures forall s :: IsCanon(ObsBefore, obs, s) ==> IsCanon(ObsBefore, r, Suffix(s, claim, after))
  {
    hide SortBy, IsCanon;
    var result := [];
    for i := 0 to |obs|
      invariant result == Kept(obs[..i], claim, after)
    {
      assert Front(obs[..i + 1]) == obs[..i] && Last(obs[..i + 1]) == obs[i];
      if !AttributedTo(claim.assignment, obs[i]) { continue; }
      if obs[i].observedAt < claim.authorityFrom || claim.authorityUntil <= obs[i].observedAt { continue; }
      if after.Some? && !AfterCheckpoint(obs[i], after.value) { continue; }
      result := result + [obs[i]];
    }
    assert obs[..|obs|] == obs;
    forall s | IsCanon(ObsBefore, obs, s)
      ensures IsCanon(ObsBefore, SortBy(ObsBefore, Kept(obs, claim, after)), Suffix(s, claim, after))
    {
      SortedSuffix(obs, s, claim, after);
    }
    return SortBy(ObsBefore, result);
  }

  // ---------- telemetry ----------

  /** A frame identity determines its observation. */
  ghost predicate FramesUnique(s: set<Observation>) {
    forall a, b :: a in s && b in s && a.frameId == b.frameId ==> a == b
  }

  // The observations of s in canonical order.
  ghost function Timewise(s: set<Observation>): (q: seq<Observation>)
    ensures FramesUnique(s) ==> IsCanon(ObsBefore, q, s)
  {
    if Reader.KeysDetermine(s) then
      ObsOrder();
      Reader.TotalOnKeys(s);
      Canon(ObsBefore, s)
    else []
  }

  lemma TimewiseIs(q: seq<Observation>, s: set<Observation>)
    requires FramesUnique(s) && IsCanon(ObsBefore, q, s)
    ensures q == Timewise(s)
  {
    hide ObsBefore;
    ObsOrder();
    CanonUnique(ObsBefore, q, Timewise(s), s);
  }

  /** Everything of the claim's aircraft before `end` that the claim has yet to evaluate. */
  ghost function Unseen(telemetry: set<Observation>, claim: Claim, end: Time, after: Option<Cursor>): set<Observation> {
    set o | o in telemetry && o.aircraftId == Trim(claim.assignment.aircraftId) && o.observedAt < end &&
    Evaluable(claim, after, o)
  }

  // Reading from the overlap start finds all of it.
  lemma OverlapCoversUnseen(table: seq<Reader.Row>, claim: Claim, start: Time, end: Time, after: Option<Cursor>)
    requires FramesUnique(Reader.AcceptedIn(table))
    requires start <= claim.authorityFrom || (after.Some? && start <= after.value.at)
    ensures Suffix(Reader.FirstFrames(Reader.Decodable(table, {Trim(claim.assignment.aircraftId)}, start, end)), claim,
            after) ==
            Unseen(Reader.AcceptedIn(table), claim, end, after)
  {
    hide Trim, Evaluable, ObsBefore, CursorLess;
    var id := Trim(claim.assignment.aircraftId);
    var seen := Reader.Decodable(table, {id}, start, end);
    Reader.MatchingMembers(table, {id}, start, end);
    forall o ensures o in seen <==> o in Reader.AcceptedIn(table) && o.aircraftId == id && start <= o.observedAt < end {
      DecodedRow(table, id, start, end, o);
    }
    forall o | o in seen ensures o in Reader.FirstFrames(seen) {
      Reader.FirstInExists(seen, o);
    }
    forall o | Evaluable(claim, after, o) ensures start <= o.observedAt { EvaluableStarts(claim, after, o, start); }
  }

  lemma EvaluableStarts(claim: Claim, after: Option<Cursor>, o: Observation, start: Time)
    requires Evaluable(claim, after, o) && (start <= claim.authorityFrom || (after.Some? && start <= after.value.at))
    ensures start <= o.observedAt
  {
  }

  lemma DecodedRow(table: seq<Reader.Row>, id: string, start: Time, end: Time, o: Observation)
    ensures o in Reader.Decodable(table, {id}, start, end) <==>
            o in Reader.AcceptedIn(table) && o.aircraftId == id && start <= o.observedAt < end
  {
    Reader.MatchingMembers(table, {id}, start, end);
    if o in Reader.AcceptedIn(table) {
      var r :| r in table && Reader.Decode(r).Accepted? && Reader.Decode(r).o == o;
      if o.aircraftId == id && start <= o.observedAt < end { assert r in Reader.Matching(table, {id}, start, end); }
    }
  }

  lemma NotBlank(s: string)
    ensures !Blank(s) ==> s != ""
  {
  }

  /** Every decoded observation of a valid assignment's own stream is valid input for the evaluator. */
  lemma DecodedIsValid(table: seq<Reader.Row>, a: Assignment, p: Policy, o: Observation)
    requires o in Reader.AcceptedIn(table) && ValidAssignment(a, p) && !IsZero(o.observedAt)
    requires o.aircraftId == a.aircraftId && AttributedTo(a, o)
    ensures ValidObservation(a, o)
  {
    hide Blank, Reader.Decode;
    var r :| r in table && Reader.Decode(r).Accepted? && Reader.Decode(r).o == o;
    Reader.DecodeMeaning(r);
    NotBlank(r.frameId);
    NotBlank(r.walId);
  }

  /** A complete read of a valid assignment never fails evaluation: it yields an
      evaluation exactly when there is something unseen. */
  lemma ReadsAlwaysEvaluate(engine: Engine, table: seq<Reader.Row>, claim: Claim, end: Time, cp: Option<Checkpoint>)
    requires FramesUnique(Reader.AcceptedIn(table)) && ValidAssignment(EvaluationAssignment(claim), engine.policy)
    requires Trim(claim.assignment.aircraftId) == claim.assignment.aircraftId && ZERO_TIME < claim.authorityFrom
    ensures var telemetry := Reader.AcceptedIn(table);
            Assessment(engine, telemetry, claim, end, cp).Ok? <==> Unseen(telemetry, claim, end, CursorOf(cp)) != {}
  {
    hide Trim, JudgeAll, Timewise, ValidAssignment, ValidObservation, CursorLess, AttributedTo, Reader.AcceptedIn;
    var telemetry, a := Reader.AcceptedIn(table), EvaluationAssignment(claim);
    var u := Unseen(telemetry, claim, end, CursorOf(cp));
    var q := Timewise(u);
    UnseenFrames(telemetry, claim, end, CursorOf(cp));
    ElemsEmpty(q);
    if u != {} {
      forall i | 0 <= i < |q| ensures ValidObservation(a, q[i]) {
        assert q[i] in Elems(q);
        SameAttribution(claim, q[i]);
        DecodedIsValid(table, a, engine.policy, q[i]);
      }
      ValidBatchEvaluates(engine, a, q, StateOf(cp));
    } else {
      NothingJudged(engine, a, StateOf(cp));
    }
  }

  lemma SameAttribution(claim: Claim, o: Observation)
    ensures AttributedTo(EvaluationAssignment(claim), o) <==> AttributedTo(claim.assignment, o)
  {
  }

  lemma NothingJudged(e: Engine, a: Assignment, s: EvaluatorState)
    ensures JudgeAll(e, a, [], s).Err?
  {
  }

  // ---------- one claim ----------

  /** GetReplayCheckpoint: a newest cursor at or before the boundary, if any. */
  ghost predicate IsReplayCheckpoint(cps: Checkpoints, k: Key, end: Time, found: Option<nat>) {
    match found
    case None => forall r :: r in cps && r.key == k ==> end < cps[r].cursor.at
    case Some(n) =>
      RevisionKey(k, n) in cps && cps[RevisionKey(k, n)].cursor.at <= end &&
      forall r :: r in cps && r.key == k && cps[r].cursor.at <= end ==>
          CursorAtMost(cps[r].cursor, cps[RevisionKey(k, n)].cursor)
  }

  // The stored checkpoint is the one the claim expects.
  predicate Matches(claim: Claim, found: Option<nat>) {
    if claim.revision == 0 then found.None? else found == Some(claim.revision)
  }

  function QueryEnd(cfg: Config, claim: Claim, now: Time): Time {
    if claim.authorityUntil < now - cfg.settle then claim.authorityUntil else now - cfg.settle
  }

  function EvaluationAssignment(claim: Claim): Assignment {
    claim.assignment.(effectiveFrom := claim.authorityFrom, effectiveUntil := claim.authorityUntil)
  }

  function CursorOf(cp: Option<Checkpoint>): Option<Cursor> { if cp.Some? then Some(cp.value.cursor) else None }

  function StateOf(cp: Option<Checkpoint>): EvaluatorState { if cp.Some? then cp.value.state else map[] }

  /** The evaluation of everything unseen before `end`, from the restored state. */
  ghost function Assessment(
    engine: Engine, telemetry: set<Observation>, claim: Claim, end: Time, cp: Option<Checkpoint>)
    : Result<Domain.Evaluation, InvalidInput>
  {
    JudgeAll(engine, EvaluationAssignment(claim), Timewise(Unseen(telemetry, claim, end, CursorOf(cp))), StateOf(cp))
  }

  datatype Decision = DeferTo(next: Time) | FailAndDefer(next: Time) | Fail | CommitWith(evaluation: Domain.Evaluation,
    next: Time)

  function StoredAt(cps: Checkpoints, k: Key, found: Option<nat>): Option<Checkpoint>
    requires found.Some? ==> RevisionKey(k, found.value) in cps
  {
    if found.Some? then Some(cps[RevisionKey(k, found.value)]) else None
  }

  function ReadStart(cfg: Config, claim: Claim, cp: Option<Checkpoint>): Time {
    if cp.None? then claim.authorityFrom
    else
      var overlap := cp.value.cursor.at - cfg.overlap;
      if claim.authorityFrom <= overlap then overlap else claim.authorityFrom
  }

  /** What processClaim decides against one snapshot, case by case. */
  ghost predicate IsDecision(
    cfg: Config, engine: Engine, b: Reader.Backend, cps: Checkpoints, found: Option<nat>, claim: Claim, now: Time,
      d: Decision)
    requires found.Some? ==> RevisionKey(claim.Key(), found.value) in cps
  {
    var end, cp, next := QueryEnd(cfg, claim, now), StoredAt(cps, claim.Key(), found), now + cfg.poll;
    var id, start, telemetry := Trim(claim.assignment.aircraftId), ReadStart(cfg, claim, cp),
      Reader.AcceptedIn(b.table);
    var assessed := Assessment(engine, telemetry, claim, end, cp);
    if end <= claim.authorityFrom then d == DeferTo(next)
    else if !Matches(claim, found) then d == FailAndDefer(next)
    else if Reader.WalMissingFirst(b, id, start, end) then d == Fail
    else if Reader.SaturatedFirst(b, id, start, end) then d == FailAndDefer(next)
    else if Unseen(telemetry, claim, end, CursorOf(cp)) == {} then d == DeferTo(next)
    else if assessed.Err? then d == FailAndDefer(next)
    else d == CommitWith(assessed.value, next)
  }

  /** processClaim against one snapshot: it commits the evaluation of the whole
      unseen suffix, defers when there is nothing to evaluate yet, fails and defers
      on a mismatch, a saturated instant or an evaluation error, and fails without
      deferring on a missing WAL identity. */
  method ProcessClaim(
    cfg: Config, engine: Engine, b: Reader.Backend, cps: Checkpoints, found: Option<nat>, claim: Claim, now: Time)
    returns (d: Decision)
    requires cfg.Valid() && b.Valid() && FramesUnique(Reader.AcceptedIn(b.table))
    requires IsReplayCheckpoint(cps, claim.Key(), QueryEnd(cfg, claim, now), found)
    requires !Blank(claim.assignment.aircraftId) && ZERO_TIME < claim.authorityFrom
    ensures IsDecision(cfg, engine, b, cps, found, claim, now, d)
  {
    hide Trim, Blank, IsDecision, Assessment, IsReplayCheckpoint, IsSuffixRead, JudgeAll, FramesUnique;
    StoredBefore(cps, claim.Key(), QueryEnd(cfg, claim, now), found);
    DecisionBeforeRead(cfg, engine, b, cps, found, claim, now);
    var end := now - cfg.settle;
    if claim.authorityUntil < end { end := claim.authorityUntil; }
    if end <= claim.authorityFrom { return DeferTo(now + cfg.poll); }
    if (claim.revision == 0 && found.Some?) || (claim.revision > 0 && (found.None? || found.value != claim.revision)) {
      return FailAndDefer(now + cfg.poll);
    }
    var start, checkpoint := claim.authorityFrom, None;
    if found.Some? {
      checkpoint := Some(cps[RevisionKey(claim.Key(), found.value)]);
      start := checkpoint.value.cursor.at - cfg.overlap;
      if start < claim.authorityFrom { start := claim.authorityFrom; }
    }
    assert start == ReadStart(cfg, claim, checkpoint) && checkpoint == StoredAt(cps, claim.Key(), found);
    var read := ReadSuffix(b, claim, start, end, CursorOf(checkpoint));
    DecisionAfterRead(cfg, engine, b, cps, found, claim, now, read);
    if read.Err? {
      return if read.error.WalIdentityUnavailable? then Fail else FailAndDefer(now + cfg.poll);
    }
    SuffixIs(b, claim, start, end, CursorOf(checkpoint), read);
    if |read.value| == 0 { return DeferTo(now + cfg.poll); }
    var evaluation := EvaluateBatch(engine, EvaluationAssignment(claim), read.value, StateOf(checkpoint));
    AssessmentIs(engine, Reader.AcceptedIn(b.table), claim, end, checkpoint, read.value);
    if evaluation.Err? { return FailAndDefer(now + cfg.poll); }
    return CommitWith(evaluation.value, now + cfg.poll);
  }

  lemma SuffixIs(
    b: Reader.Backend, claim: Claim, start: Time, end: Time, after: Option<Cursor>, r: Result<seq<Observation>,
      Reader.ReadError>)
    requires IsSuffixRead(b, claim, start, end, after, r) && r.Ok?
    ensures r.value == Timewise(Unseen(Reader.AcceptedIn(b.table), claim, end, after))
  {
    hide Reader.SaturatedFirst, Reader.WalMissingFirst, Unseen, Timewise, Trim;
  }

  lemma AssessmentIs(
    engine: Engine, telemetry: set<Observation>, claim: Claim, end: Time, cp: Option<Checkpoint>, q: seq<Observation>)
    requires q == Timewise(Unseen(telemetry, claim, end, CursorOf(cp)))
    ensures Assessment(engine, telemetry, claim, end, cp) == JudgeAll(engine, EvaluationAssignment(claim), q,
            StateOf(cp))
  {
  }

  // A restored checkpoint is not after the query end.
  lemma StoredBefore(cps: Checkpoints, k: Key, end: Time, found: Option<nat>)
    requires IsReplayCheckpoint(cps, k, end, found)
    ensures found.Some? ==> RevisionKey(k, found.value) in cps && cps[RevisionKey(k, found.value)].cursor.at <= end
  {
  }

  // The read of one claim: its unseen suffix, or how the first failing instant fails it.
  ghost predicate IsSuffixRead(
    b: Reader.Backend, claim: Claim, start: Time, end: Time, after: Option<Cursor>, r: Result<seq<Observation>,
      Reader.ReadError>)
  {
    var id, unseen := Trim(claim.assignment.aircraftId), Unseen(Reader.AcceptedIn(b.table), claim, end, after);
    if Reader.WalMissingFirst(b, id, start, end) then r.Err? && r.error.WalIdentityUnavailable?
    else if Reader.SaturatedFirst(b, id, start, end) then r.Err? && r.error.Saturated?
    else r == Ok(Timewise(unseen)) && (unseen == {} <==> r.value == [])
  }

  method ReadSuffix(b: Reader.Backend, claim: Claim, start: Time, end: Time, after: Option<Cursor>)
    returns (r: Result<seq<Observation>, Reader.ReadError>)
    requires b.Valid() && FramesUnique(Reader.AcceptedIn(b.table))
    requires !Blank(claim.assignment.aircraftId) && ZERO_TIME < start < end
    requires start <= claim.authorityFrom || (after.Some? && start <= after.value.at)
    ensures IsSuffixRead(b, claim, start, end, after, r)
  {
    hide Trim, Blank, Reader.Readable, Reader.SaturatedFirst, Reader.WalMissingFirst, Unseen, Evaluable, Timewise;
    ghost var telemetry := Reader.AcceptedIn(b.table);
    Reader.OutcomesExclude(b, Trim(claim.assignment.aircraftId), start, end);
    var read := Reader.ReadComplete(b, claim.assignment.aircraftId, start, end);
    if read.Err? { return Err(read.error); }
    var observations := EvaluableSuffix(read.value.observations, claim, after);
    OverlapCoversUnseen(b.table, claim, start, end, after);
    UnseenFrames(telemetry, claim, end, after);
    TimewiseIs(observations, Unseen(telemetry, claim, end, after));
    ElemsEmpty(observations);
    return Ok(observations);
  }

  lemma UnseenFrames(telemetry: set<Observation>, claim: Claim, end: Time, after: Option<Cursor>)
    requires FramesUnique(telemetry)
    ensures FramesUnique(Unseen(telemetry, claim, end, after))
  {
  }

  // The decision, given how the read went.
  function Decide(
    r: Result<seq<Observation>, Reader.ReadError>, assessed: Result<Domain.Evaluation, InvalidInput>, next: Time)
    : Decision
  {
    match r
    case Err(e) => if e.WalIdentityUnavailable? then Fail else FailAndDefer(next)
    case Ok(q) =>
      if q == [] then DeferTo(next) else if assessed.Err? then FailAndDefer(next) else CommitWith(assessed.value, next)
  }

  lemma DecisionAfterRead(
    cfg: Config, engine: Engine, b: Reader.Backend, cps: Checkpoints, found: Option<nat>, claim: Claim, now: Time,
    r: Result<seq<Observation>, Reader.ReadError>)
    requires found.Some? ==> RevisionKey(claim.Key(), found.value) in cps
    requires QueryEnd(cfg, claim, now) > claim.authorityFrom && Matches(claim, found)
    requires var cp := StoredAt(cps, claim.Key(), found);
             IsSuffixRead(b, claim, ReadStart(cfg, claim, cp), QueryEnd(cfg, claim, now), CursorOf(cp), r)
    ensures var cp := StoredAt(cps, claim.Key(), found);
            var assessed := Assessment(engine, Reader.AcceptedIn(b.table), claim, QueryEnd(cfg, claim, now), cp);
            IsDecision(cfg, engine, b, cps, found, claim, now, Decide(r, assessed, now + cfg.poll))
  {
    hide Trim, Assessment, Reader.SaturatedFirst, Reader.WalMissingFirst, Unseen, Timewise;
  }

  lemma DecisionBeforeRead(
    cfg: Config, engine: Engine, b: Reader.Backend, cps: Checkpoints, found: Option<nat>, claim: Claim, now: Time)
    requires found.Some? ==> RevisionKey(claim.Key(), found.value) in cps
    ensures var end, next := QueryEnd(cfg, claim, now), now + cfg.poll;
            && (end <= claim.authorityFrom ==> IsDecision(cfg, engine, b, cps, found, claim, now, DeferTo(next)))
            && (end > claim.authorityFrom && !Matches(claim, found) ==>
                  IsDecision(cfg, engine, b, cps, found, claim, now, FailAndDefer(next)))
  {
    hide Trim, Assessment, Unseen;
  }
}
