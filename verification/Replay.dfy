/** Evaluating the unseen suffix from the restored state is evaluating the whole
    stream once more from the beginning. */
module Replay {
  import opened Ordering
  import opened Domain
  import opened Hysteresis
  import opened Evaluator
  import opened Evaluation
  import opened Incidents
  import opened Worker
  import Tables

  type Claim = Tables.Claim
  type Checkpoint = Tables.Checkpoint
  type AssignmentRow = Tables.AssignmentRow

  // ---------- the whole stream ----------

  /** o is attributed to the row, inside its authority, with cursor at most c. */
  predicate InStream(row: AssignmentRow, c: Cursor, o: Observation) {
    row.authorityFrom.Some? && o.aircraftId == Trim(row.spec.aircraftId) && AttributedTo(row.spec, o) &&
    row.authorityFrom.value <= o.observedAt < row.spec.effectiveUntil && CursorAtMost(o.Position(), c)
  }

  ghost function Stream(telemetry: set<Observation>, row: AssignmentRow, c: Cursor): set<Observation> {
    set o | o in telemetry && InStream(row, c, o)
  }

  // The assignment that live evaluation uses: authority starts at the cutover.
  function Governing(row: AssignmentRow): Assignment {
    if row.authorityFrom.Some? then row.spec.(effectiveFrom := row.authorityFrom.value) else row.spec
  }

  /** One batch from the empty state over the whole ordered stream. */
  ghost function Whole(engine: Engine, telemetry: set<Observation>, row: AssignmentRow, c: Cursor)
    : Result<Domain.Evaluation, InvalidInput>
  {
    JudgeAll(engine, Governing(row), Timewise(Stream(telemetry, row, c)), map[])
  }

  /** The checkpoint and the transitions are those of the whole stream. */
  ghost predicate IsWhole(
    engine: Engine, telemetry: set<Observation>, row: AssignmentRow, cp: Checkpoint, trs: seq<Transition>)
  {
    var r := Whole(engine, telemetry, row, cp.cursor);
    r.Ok? && r.value.Position() == cp.cursor && r.value.state == cp.state && r.value.transitions == trs
  }

  /** The evaluation concludes what the whole stream up to its cursor concludes. */
  ghost predicate Concludes(engine: Engine, telemetry: set<Observation>, row: AssignmentRow, ev: Domain.Evaluation) {
    var r := Whole(engine, telemetry, row, ev.Position());
    r.Ok? && r.value.condition == ev.condition && r.value.state == ev.state
  }

  // The claim speaks about this row.
  predicate ClaimsRow(claim: Claim, row: AssignmentRow) {
    row.spec == claim.assignment && row.authorityFrom == Some(claim.authorityFrom) &&
    claim.authorityUntil == claim.assignment.effectiveUntil
  }

  // The restored checkpoint tells the stream so far; without one there is no stream.
  ghost predicate Restores(
    engine: Engine, telemetry: set<Observation>, row: AssignmentRow, cp: Option<Checkpoint>, trs: seq<Transition>)
  {
    if cp.Some? then IsWhole(engine, telemetry, row, cp.value, trs) else trs == []
  }

  ghost function Prior(telemetry: set<Observation>, row: AssignmentRow, cp: Option<Checkpoint>): set<Observation> {
    if cp.Some? then Stream(telemetry, row, cp.value.cursor) else {}
  }

  // ---------- orders ----------

  // Within one agent's stream canonical order is cursor order.
  lemma SameAgentOrder(a: Assignment, x: Observation, y: Observation)
    requires AttributedTo(a, x) && AttributedTo(a, y)
    ensures ObsBefore(x, y) <==> CursorLess(x.Position(), y.Position())
  {
  }

  lemma LastIsGreatest(q: seq<Observation>, s: set<Observation>, o: Observation)
    requires IsCanon(ObsBefore, q, s) && q != [] && o in s
    ensures o == Last(q) || ObsBefore(o, Last(q))
  {
    hide ObsBefore;
    assert o in Elems(q);
    var i :| 0 <= i < |q| && q[i] == o;
  }

  lemma StreamFrames(s: set<Observation>, telemetry: set<Observation>)
    requires s <= telemetry && FramesUnique(telemetry)
    ensures FramesUnique(s)
  {
  }

  // ---------- the resumed suffix ----------

  /** What a claim resumed after one cursor evaluates to reach another. */
  ghost function Resumption(telemetry: set<Observation>, claim: Claim, after: Option<Cursor>, c: Cursor)
    : set<Observation>
  {
    set o | o in telemetry && o.aircraftId == Trim(claim.assignment.aircraftId) && Evaluable(claim, after, o) &&
            CursorAtMost(o.Position(), c)
  }

  /** The evaluation is the judgement of everything between the restored cursor and its own. */
  ghost predicate Resumes(
    engine: Engine, telemetry: set<Observation>, claim: Claim, cp: Option<Checkpoint>, ev: Domain.Evaluation)
  {
    var q := Timewise(Resumption(telemetry, claim, CursorOf(cp), ev.Position()));
    JudgeAll(engine, EvaluationAssignment(claim), q, StateOf(cp)) == Ok(ev)
  }

  lemma UnseenUpToLast(
    telemetry: set<Observation>, claim: Claim, end: Time, after: Option<Cursor>, q: seq<Observation>, o: Observation)
    requires FramesUnique(telemetry) && q == Timewise(Unseen(telemetry, claim, end, after)) && q != []
    ensures var u := Unseen(telemetry, claim, end, after);
            && Last(q) in u
            && (o in u ==> CursorAtMost(o.Position(), Last(q).Position()))
  {
    hide ObsBefore, CursorLess;
    var u := Unseen(telemetry, claim, end, after);
    StreamFrames(u, telemetry);
    assert Last(q) in Elems(q);
    if o in u {
      LastIsGreatest(q, u, o);
      SameAgentOrder(claim.assignment, o, Last(q));
    }
  }

  /** Evaluating everything unseen before a query end resumes the stream up to the last observation read. */
  lemma AssessmentResumes(
    engine: Engine, telemetry: set<Observation>, claim: Claim, end: Time, cp: Option<Checkpoint>, ev: Domain.Evaluation)
    requires FramesUnique(telemetry) && Assessment(engine, telemetry, claim, end, cp) == Ok(ev)
    ensures Resumes(engine, telemetry, claim, cp, ev)
  {
    hide ObsBefore, CursorLess, Trim, Timewise, Evaluable, JudgeAll;
    var after := CursorOf(cp);
    var u := Unseen(telemetry, claim, end, after);
    var q := Timewise(u);
    BatchCursor(engine, EvaluationAssignment(claim), q, StateOf(cp));
    var c := Last(q).Position();
    UnseenUpToLast(telemetry, claim, end, after, q, Last(q));
    forall o ensures o in Resumption(telemetry, claim, after, c) <==> o in u {
      UnseenUpToLast(telemetry, claim, end, after, q, o);
      if CursorAtMost(o.Position(), c) { AtMostIsNoLater(o.Position(), c); }
    }
    assert Resumption(telemetry, claim, after, c) == u;
  }

  /** A commit decided at `now` covers exactly what has settled: it stays behind the
      settle delay and inside authority, and leaves nothing of its stream behind
      that is older than both. */
  lemma CommitsWhatHasSettled(
    cfg: Config, engine: Engine, telemetry: set<Observation>, claim: Claim, cp: Option<Checkpoint>, now: Time,
    ev: Domain.Evaluation, o: Observation)
    requires FramesUnique(telemetry) && Assessment(engine, telemetry, claim, QueryEnd(cfg, claim, now), cp) == Ok(ev)
    ensures claim.authorityFrom <= ev.observedAt && ev.observedAt < claim.authorityUntil &&
            ev.observedAt < now - cfg.settle
    ensures o in telemetry && o.aircraftId == Trim(claim.assignment.aircraftId) && Evaluable(claim, CursorOf(cp), o) &&
            o.observedAt < now - cfg.settle ==>
              CursorAtMost(o.Position(), ev.Position())
  {
    hide ObsBefore, CursorLess, Trim, Timewise, JudgeAll, AttributedTo;
    var end := QueryEnd(cfg, claim, now);
    var q := Timewise(Unseen(telemetry, claim, end, CursorOf(cp)));
    BatchCursor(engine, EvaluationAssignment(claim), q, StateOf(cp));
    UnseenUpToLast(telemetry, claim, end, CursorOf(cp), q, Last(q));
    UnseenUpToLast(telemetry, claim, end, CursorOf(cp), q, o);
  }

  lemma AtMostIsNoLater(a: Cursor, b: Cursor)
    requires CursorAtMost(a, b)
    ensures a.at <= b.at
  {
  }

  /** Observations that sort after an evaluation, or outside its stream, do not matter to it. */
  lemma MissedAfter(
    engine: Engine, seen: set<Observation>, telemetry: set<Observation>, row: AssignmentRow, claim: Claim,
    cp: Option<Checkpoint>, ev: Domain.Evaluation)
    requires seen <= telemetry && ClaimsRow(claim, row) && Resumes(engine, seen, claim, cp, ev)
    requires forall o :: o in telemetry && o !in seen ==> !InStream(row, ev.Position(), o)
    ensures Resumes(engine, telemetry, claim, cp, ev)
  {
    hide ObsBefore, CursorLess, Trim, Timewise, JudgeAll, AttributedTo;
    var after, c := CursorOf(cp), ev.Position();
    assert Resumption(telemetry, claim, after, c) == Resumption(seen, claim, after, c);
  }

  lemma StreamMissed(seen: set<Observation>, telemetry: set<Observation>, row: AssignmentRow, c: Cursor)
    requires seen <= telemetry && forall o :: o in telemetry && o !in seen ==> !InStream(row, c, o)
    ensures Stream(telemetry, row, c) == Stream(seen, row, c)
  {
    hide InStream;
  }

  /** The stream up to the new cursor is the stream so far and all of the resumed suffix. */
  lemma StreamGrows(telemetry: set<Observation>, row: AssignmentRow, claim: Claim, cp: Option<Checkpoint>, c: Cursor)
    requires ClaimsRow(claim, row) && (cp.Some? ==> CursorLess(cp.value.cursor, c))
    ensures Stream(telemetry, row, c) == Prior(telemetry, row, cp) + Resumption(telemetry, claim, CursorOf(cp), c)
  {
    hide ObsBefore, CursorLess, Trim, AttributedTo;
    var u := Resumption(telemetry, claim, CursorOf(cp), c);
    forall o ensures o in Stream(telemetry, row, c) <==> o in Prior(telemetry, row, cp) + u {
      if cp.Some? {
        CursorTotal(o.Position(), cp.value.cursor);
        if CursorAtMost(o.Position(), cp.value.cursor) { CursorAtMostTransitive(o.Position(), cp.value.cursor, c); }
      }
    }
  }

  lemma PriorBelow(telemetry: set<Observation>, row: AssignmentRow, claim: Claim, cp: Option<Checkpoint>, c: Cursor)
    requires ClaimsRow(claim, row)
    ensures Below(ObsBefore, Prior(telemetry, row, cp), Resumption(telemetry, claim, CursorOf(cp), c))
  {
    hide ObsBefore, CursorLess, Trim, AttributedTo;
    var p, u := Prior(telemetry, row, cp), Resumption(telemetry, claim, CursorOf(cp), c);
    forall x, y | x in p && y in u ensures ObsBefore(x, y) {
      CursorAtMostTransitive(x.Position(), cp.value.cursor, y.Position());
      SameAgentOrder(claim.assignment, x, y);
    }
  }

  lemma TimewiseGrows(
    telemetry: set<Observation>, row: AssignmentRow, claim: Claim, cp: Option<Checkpoint>, c: Cursor,
      q: seq<Observation>)
    requires FramesUnique(telemetry) && ClaimsRow(claim, row) && (cp.Some? ==> CursorLess(cp.value.cursor, c))
    requires q == Timewise(Resumption(telemetry, claim, CursorOf(cp), c)) && q != []
    ensures Timewise(Stream(telemetry, row, c)) == Timewise(Prior(telemetry, row, cp)) + q
    ensures var p := Timewise(Prior(telemetry, row, cp)); p != [] ==> !ObsBefore(q[0], Last(p))
  {
    hide ObsBefore, CursorLess, Trim, Timewise, Stream, Resumption;
    var p, u := Prior(telemetry, row, cp), Resumption(telemetry, claim, CursorOf(cp), c);
    var whole := Stream(telemetry, row, c);
    DrawnFromTelemetry(telemetry, row, claim, cp, c);
    StreamFrames(p, telemetry);
    StreamFrames(u, telemetry);
    StreamFrames(whole, telemetry);
    StreamGrows(telemetry, row, claim, cp, c);
    PriorBelow(telemetry, row, claim, cp, c);
    CanonAppend(ObsBefore, Timewise(p), p, q, u);
    TimewiseIs(Timewise(p) + q, whole);
    if Timewise(p) != [] {
      assert Last(Timewise(p)) in Elems(Timewise(p)) && q[0] in Elems(q);
      ObsBeforeTrichotomy(Last(Timewise(p)), q[0]);
    }
  }

  lemma DrawnFromTelemetry(
    telemetry: set<Observation>, row: AssignmentRow, claim: Claim, cp: Option<Checkpoint>, c: Cursor)
    ensures Prior(telemetry, row, cp) <= telemetry && Stream(telemetry, row, c) <= telemetry
    ensures Resumption(telemetry, claim, CursorOf(cp), c) <= telemetry
  {
  }

  // ---------- exactly once ----------

  /** Restoring the state at one cursor and evaluating everything after it is one
      evaluation of the whole stream: nothing is skipped and nothing counted twice. */
  lemma SuffixCompletesWhole(
    engine: Engine, telemetry: set<Observation>, row: AssignmentRow, claim: Claim, cp: Option<Checkpoint>,
    trs: seq<Transition>, ev: Domain.Evaluation)
    requires FramesUnique(telemetry) && ClaimsRow(claim, row)
    requires Restores(engine, telemetry, row, cp, trs) && Resumes(engine, telemetry, claim, cp, ev)
    ensures IsWhole(engine, telemetry, row, Tables.Checkpoint.Checkpoint(ev.Position(), ev.state), trs + ev.transitions)
    ensures Concludes(engine, telemetry, row, ev)
    ensures cp.Some? ==> CursorLess(cp.value.cursor, ev.Position())
    ensures claim.authorityFrom <= ev.observedAt < claim.authorityUntil
  {
    hide ObsBefore, CursorLess, Timewise, Stream, Resumption, JudgeAll, FramesUnique, Resumes;
    ResumedAfter(engine, telemetry, claim, cp, ev);
    TimewiseGrows(telemetry, row, claim, cp, ev.Position(), Suffixed(telemetry, claim, cp, ev));
    if cp.Some? {
      ResumedWhole(engine, telemetry, row, claim, cp.value, trs, ev);
    } else {
      assert Timewise(Prior(telemetry, row, cp)) == [] by { NothingBefore(); }
      assert [] + Suffixed(telemetry, claim, cp, ev) == Suffixed(telemetry, claim, cp, ev);
      assert trs + ev.transitions == ev.transitions;
    }
  }

  ghost function Suffixed(
    telemetry: set<Observation>, claim: Claim, cp: Option<Checkpoint>, ev: Domain.Evaluation): seq<Observation>
  {
    Timewise(Resumption(telemetry, claim, CursorOf(cp), ev.Position()))
  }

  lemma ResumedAfter(
    engine: Engine, telemetry: set<Observation>, claim: Claim, cp: Option<Checkpoint>, ev: Domain.Evaluation)
    requires FramesUnique(telemetry) && Resumes(engine, telemetry, claim, cp, ev)
    ensures var q := Suffixed(telemetry, claim, cp, ev);
            q != [] && JudgeAll(engine, EvaluationAssignment(claim), q, StateOf(cp)) == Ok(ev)
    ensures cp.Some? ==> CursorLess(cp.value.cursor, ev.Position())
    ensures claim.authorityFrom <= ev.observedAt < claim.authorityUntil
  {
    hide CursorLess, Timewise, Resumption, JudgeAll, FramesUnique;
    var q := Suffixed(telemetry, claim, cp, ev);
    BatchCursor(engine, EvaluationAssignment(claim), q, StateOf(cp));
    ResumptionWindow(telemetry, claim, CursorOf(cp), ev.Position(), q);
  }

  lemma ResumedWhole(
    engine: Engine, telemetry: set<Observation>, row: AssignmentRow, claim: Claim, cp: Checkpoint,
    trs: seq<Transition>, ev: Domain.Evaluation)
    requires ClaimsRow(claim, row) && IsWhole(engine, telemetry, row, cp, trs)
    requires var q := Suffixed(telemetry, claim, Some(cp), ev);
             var p := Timewise(Stream(telemetry, row, cp.cursor));
             && q != [] && JudgeAll(engine, EvaluationAssignment(claim), q, cp.state) == Ok(ev)
             && (p != [] ==> !ObsBefore(q[0], Last(p)))
             && Timewise(Stream(telemetry, row, ev.Position())) == p + q
    ensures IsWhole(engine, telemetry, row, Tables.Checkpoint.Checkpoint(ev.Position(), ev.state), trs + ev.transitions)
    ensures Concludes(engine, telemetry, row, ev)
  {
    hide ObsBefore, CursorLess, Timewise, Stream, Resumption, JudgeAll;
    var p, q := Timewise(Stream(telemetry, row, cp.cursor)), Suffixed(telemetry, claim, Some(cp), ev);
    BatchCursor(engine, Governing(row), p, map[]);
    PartsMakeWhole(engine, Governing(row), p, q, cp.state, trs, ev);
  }

  // A batch that continues from the state of another one.
  lemma PartsMakeWhole(
    engine: Engine, a: Assignment, p: seq<Observation>, q: seq<Observation>, s: EvaluatorState, trs: seq<Transition>,
    ev: Domain.Evaluation)
    requires p != [] && q != [] && !ObsBefore(q[0], Last(p))
    requires var l := JudgeAll(engine, a, p, map[]); l.Ok? && l.value.state == s && l.value.transitions == trs
    requires JudgeAll(engine, a, q, s) == Ok(ev)
    ensures var r := JudgeAll(engine, a, p + q, map[]);
            && r.Ok? && r.value.Position() == ev.Position() && r.value.state == ev.state
            && r.value.transitions == trs + ev.transitions && r.value.condition == ev.condition
  {
    hide JudgeAll, ObsBefore;
    BatchSplit(engine, a, p, q, map[]);
  }

  lemma NothingBefore()
    ensures Timewise({}) == []
  {
    var none: set<Observation> := {};
    assert FramesUnique(none);
    ElemsEmpty(Timewise(none));
  }

  lemma ResumptionWindow(
    telemetry: set<Observation>, claim: Claim, after: Option<Cursor>, c: Cursor, q: seq<Observation>)
    requires FramesUnique(telemetry) && q == Timewise(Resumption(telemetry, claim, after, c)) && q != []
    ensures claim.authorityFrom <= q[0].observedAt
    ensures claim.authorityFrom <= Last(q).observedAt < claim.authorityUntil
    ensures after.Some? ==> CursorLess(after.value, q[0].Position()) && CursorLess(after.value, Last(q).Position())
  {
    hide ObsBefore, CursorLess, Trim, AttributedTo, Timewise;
    StreamFrames(Resumption(telemetry, claim, after, c), telemetry);
    assert q[0] in Elems(q) && Last(q) in Elems(q);
  }

  // ---------- what the worker hands to the store ----------

  lemma StreamDistinct(telemetry: set<Observation>, s: set<Observation>)
    requires FramesUnique(telemetry) && s <= telemetry
    ensures DistinctFrames(Timewise(s))
  {
    hide ObsBefore;
    StreamFrames(s, telemetry);
    ObsOrder();
    var q := Timewise(s);
    forall i, j | 0 <= i < j < |q| ensures q[i].frameId != q[j].frameId {
      AscendingDistinct(ObsBefore, q, i, j);
      assert q[i] in Elems(q) && q[j] in Elems(q);
    }
  }

  // The transitions of a whole stream alternate and tell its state.
  lemma WholeAlternates(
    engine: Engine, telemetry: set<Observation>, row: AssignmentRow, cp: Checkpoint, trs: seq<Transition>)
    requires FramesUnique(telemetry) && IsWhole(engine, telemetry, row, cp, trs)
    ensures Tells(trs, cp.state)
  {
    hide Tells, JudgeAll, Trim, CursorLess;
    StreamDistinct(telemetry, Stream(telemetry, row, cp.cursor));
    StreamAlternates(engine, Governing(row), Timewise(Stream(telemetry, row, cp.cursor)));
  }

  // Every timestamp of a whole stream is between the start of authority and its cursor.
  lemma WholeBounds(
    engine: Engine, telemetry: set<Observation>, row: AssignmentRow, cp: Checkpoint, trs: seq<Transition>)
    requires FramesUnique(telemetry) && IsWhole(engine, telemetry, row, cp, trs) && row.authorityFrom.Some?
    ensures StateWithin(cp.state, row.authorityFrom.value, cp.cursor.at) && WellFormed(cp.state, cp.cursor.at)
    ensures TransitionsWithin(trs, row.authorityFrom.value, cp.cursor.at)
  {
    hide JudgeAll, Trim, CursorLess, WellFormed, AttributedTo, IncidentWithin, ObsBefore;
    var s := Stream(telemetry, row, cp.cursor);
    var q := Timewise(s);
    var r := JudgeAll(engine, Governing(row), q, map[]).value;
    StreamFrames(s, telemetry);
    BatchCursor(engine, Governing(row), q, map[]);
    assert q[0] in Elems(q);
    assert WellFormed(map[], q[0].observedAt) by { NothingMalformed(q[0].observedAt); }
    CausalBounds(engine, Governing(row), q, map[]);
    assert r.causalFrom == q[0].observedAt by { EarliestOfNothing(q[0].observedAt); }
    forall v | v in r.state ensures IncidentWithin(r.state[v], row.authorityFrom.value, r.observedAt) {
      WidenIncident(r.state[v], r.causalFrom, row.authorityFrom.value, r.observedAt);
    }
  }

  lemma NothingMalformed(at: Time)
    ensures WellFormed(map[], at)
  {
  }

  lemma EarliestOfNothing(at: Time)
    ensures Earliest(map[], at) == at
  {
  }

  lemma WidenIncident(i: IncidentState, lo: Time, lower: Time, hi: Time)
    requires IncidentWithin(i, lo, hi) && lower <= lo
    ensures IncidentWithin(i, lower, hi)
  {
  }

  /** The causal start of a resumed evaluation is inside authority. */
  lemma CausalStart(
    engine: Engine, telemetry: set<Observation>, row: AssignmentRow, claim: Claim, cp: Option<Checkpoint>,
    trs: seq<Transition>, ev: Domain.Evaluation)
    requires FramesUnique(telemetry) && ClaimsRow(claim, row)
    requires Restores(engine, telemetry, row, cp, trs) && Resumes(engine, telemetry, claim, cp, ev)
    ensures claim.authorityFrom <= ev.causalFrom <= ev.observedAt
  {
    hide ObsBefore, CursorLess, Trim, Timewise, Stream, Resumption, Judge, JudgeAll, WellFormed, IsWhole;
    var q := Timewise(Resumption(telemetry, claim, CursorOf(cp), ev.Position()));
    var s := StateOf(cp);
    BatchCursor(engine, EvaluationAssignment(claim), q, s);
    ResumptionWindow(telemetry, claim, CursorOf(cp), ev.Position(), q);
    var at := q[0].observedAt;
    if cp.Some? {
      WholeBounds(engine, telemetry, row, cp.value, trs);
      LessIsNoLater(cp.value.cursor, q[0].Position());
      WellFormedLater(s, cp.value.cursor.at, at);
    } else {
      NothingMalformed(at);
    }
    CausalBounds(engine, EvaluationAssignment(claim), q, s);
    EarliestFrom(s, at, claim.authorityFrom, if cp.Some? then cp.value.cursor.at else at);
  }

  lemma LessIsNoLater(a: Cursor, b: Cursor)
    requires CursorLess(a, b)
    ensures a.at <= b.at
  {
  }

  lemma EarliestFrom(s: EvaluatorState, at: Time, lo: Time, hi: Time)
    requires WellFormed(s, at) && lo <= at && StateWithin(s, lo, hi)
    ensures lo <= Earliest(s, at)
  {
    hide Earliest;
    EarliestBounds(s, at, at);
  }

  lemma {:induction false} OpeningsNamed(trs: seq<Transition>)
    requires Alternating(trs) && forall i :: 0 <= i < |trs| ==> trs[i].frameId != ""
    ensures forall i :: 0 <= i < |trs| ==> trs[i].openingFrame != ""
  {
    if trs != [] {
      OpeningsNamed(Front(trs));
      var l := Last(trs);
      if l.kind == Resolved {
        var k := Tables.Key("", 0);
        var j := OpenHasOpening(Front(trs), k, l.violation);
        assert Front(trs)[j].openingFrame == l.openingFrame;
      }
      forall i | 0 <= i < |trs| ensures trs[i].openingFrame != "" {
        if i < |trs| - 1 { assert trs[i] == Front(trs)[i]; }
      }
    }
  }

  // Transitions name frames, openings and WAL positions of valid observations.
  lemma WholeNamed(
    engine: Engine, telemetry: set<Observation>, row: AssignmentRow, cp: Checkpoint, trs: seq<Transition>)
    requires FramesUnique(telemetry) && IsWhole(engine, telemetry, row, cp, trs)
    ensures cp.cursor.frameId != "" && cp.cursor.walId != ""
    ensures forall i :: 0 <= i < |trs| ==> trs[i].frameId != "" && trs[i].walId != "" && trs[i].openingFrame != ""
  {
    hide JudgeAll, Trim, CursorLess, AttributedTo, ObsBefore, OpenAfter, ValidAssignment;
    var q := Timewise(Stream(telemetry, row, cp.cursor));
    BatchCursor(engine, Governing(row), q, map[]);
    BatchValid(engine, Governing(row), q, map[]);
    StreamReports(engine, Governing(row), q, map[]);
    forall i | 0 <= i < |trs| ensures trs[i].frameId != "" && trs[i].walId != "" {
      assert ReportsFrom(trs[i], q);
      var o :| o in q && Reports(trs[i], o);
    }
    WholeAlternates(engine, telemetry, row, cp, trs);
    OpeningsNamed(trs);
  }

  // ---------- what a read hands on ----------

  // Every timestamp and name in the evaluation, relative to the authority of its row.
  predicate Sound(ev: Domain.Evaluation, from: Time, until: Time) {
    && from <= ev.causalFrom <= ev.observedAt < until && ev.frameId != "" && ev.walId != ""
    && StateWithin(ev.state, from, ev.observedAt) && TransitionsWithin(ev.transitions, from, ev.observedAt)
    && forall i :: 0 <= i < |ev.transitions| ==> Named(ev.transitions[i])
  }

  predicate Named(tr: Transition) { tr.frameId != "" && tr.walId != "" && tr.openingFrame != "" }

  lemma ResumedSound(
    engine: Engine, telemetry: set<Observation>, row: AssignmentRow, claim: Claim, cp: Option<Checkpoint>,
    trs: seq<Transition>, ev: Domain.Evaluation)
    requires FramesUnique(telemetry) && ClaimsRow(claim, row)
    requires Restores(engine, telemetry, row, cp, trs) && Resumes(engine, telemetry, claim, cp, ev)
    ensures Sound(ev, claim.authorityFrom, claim.authorityUntil)
    ensures cp.Some? ==> CursorLess(cp.value.cursor, ev.Position())
  {
    hide FramesUnique, IsWhole, Resumes, Restores, CursorLess, IncidentWithin;
    var whole, all := Tables.Checkpoint.Checkpoint(ev.Position(), ev.state), trs + ev.transitions;
    SuffixCompletesWhole(engine, telemetry, row, claim, cp, trs, ev);
    WholeBounds(engine, telemetry, row, whole, all);
    WholeNamed(engine, telemetry, row, whole, all);
    CausalStart(engine, telemetry, row, claim, cp, trs, ev);
    forall i | 0 <= i < |ev.transitions| ensures ev.transitions[i] == all[|trs| + i] {}
  }

  /** Whatever part of the telemetry a read saw, what it hands on is sound. */
  lemma ReadSound(
    engine: Engine, seen: set<Observation>, telemetry: set<Observation>, row: AssignmentRow, claim: Claim, end: Time,
    cp: Option<Checkpoint>, trs: seq<Transition>, ev: Domain.Evaluation)
    requires FramesUnique(telemetry) && seen <= telemetry && ClaimsRow(claim, row)
    requires Restores(engine, telemetry, row, cp, trs) && Assessment(engine, seen, claim, end, cp) == Ok(ev)
    ensures Sound(ev, claim.authorityFrom, claim.authorityUntil)
    ensures cp.Some? ==> CursorLess(cp.value.cursor, ev.Position())
  {
    hide Sound, JudgeAll, Timewise, CursorLess, InStream, Evaluable, Trim;
    var known := seen + Prior(telemetry, row, cp);
    DrawnFromTelemetry(telemetry, row, claim, cp, ev.Position());
    StreamFrames(known, telemetry);
    if cp.Some? {
      assert Stream(known, row, cp.value.cursor) == Stream(telemetry, row, cp.value.cursor);
    }
    forall o | o in Prior(telemetry, row, cp) ensures !Evaluable(claim, CursorOf(cp), o) {
      PriorIsDone(row, claim, cp, o);
    }
    assert Unseen(known, claim, end, CursorOf(cp)) == Unseen(seen, claim, end, CursorOf(cp));
    AssessmentResumes(engine, known, claim, end, cp, ev);
    ResumedSound(engine, known, row, claim, cp, trs, ev);
  }

  lemma PriorIsDone(row: AssignmentRow, claim: Claim, cp: Option<Checkpoint>, o: Observation)
    requires cp.Some? && InStream(row, cp.value.cursor, o)
    ensures !Evaluable(claim, CursorOf(cp), o)
  {
    CursorNotBoth(o.Position(), cp.value.cursor);
  }
}
