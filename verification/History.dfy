/** Newest-first history pages over immutable transition evidence. */
module History {
  import opened Ordering
  import opened Domain

  /** One stored event joined with the volumes of its assignment generation. */
  datatype Row = Row(
    id: string, assignmentId: string, generation: nat, observedAt: Time,
    violation: Violation, deviation: real, volumes: seq<Volume>)

  datatype HistoryCursor = HistoryCursor(
    version: int, assignmentId: string, generation: nat, from: Option<Time>, until: Option<Time>, at: Time, id: string)

  /** The opaque token text: absent, undecodable, or an encoded cursor. */
  datatype PageToken = NoToken | Malformed | Encoded(cursor: HistoryCursor)

  datatype HistoryQuery = HistoryQuery(
    assignmentId: string, generation: nat, from: Option<Time>, until: Option<Time>, pageSize: int, token: PageToken)

  datatype Refusal = InvalidHistoryQuery

  predicate BoundTo(c: HistoryCursor, q: HistoryQuery) {
    c.version == 1 && c.assignmentId == q.assignmentId && c.generation == q.generation &&
    c.from == q.from && c.until == q.until && !IsZero(c.at) && c.id != "" && |c.id| <= 1024
  }

  predicate ValidFilters(q: HistoryQuery) {
    !Blank(q.assignmentId) && |q.assignmentId| <= 512 && q.generation <= MAX_INT64 && 0 <= q.pageSize <= 200 &&
    (q.from.Some? && q.until.Some? ==> q.from.value < q.until.value)
  }

  // The token continues this query.
  predicate Usable(token: PageToken, q: HistoryQuery) {
    token == NoToken || (token.Encoded? && BoundTo(token.cursor, q))
  }

  /** Effective page size and the cursor to continue after. */
  function Bounds(q: HistoryQuery): (r: Result<(nat, Option<HistoryCursor>), Refusal>)
    ensures r.Ok? <==> ValidFilters(q) && Usable(q.token, q)
    ensures r.Ok? ==> 1 <= r.value.0 <= 200 && r.value.0 == (if q.pageSize == 0 then 50 else q.pageSize)
    ensures r.Ok? ==>
              (r.value.1.None? <==> q.token.NoToken?) && (r.value.1.Some? ==> q.token == Encoded(r.value.1.value))
  {
    if !ValidFilters(q) then Err(InvalidHistoryQuery)
    else
      var size := if q.pageSize == 0 then 50 else q.pageSize;
      match q.token
      case NoToken => Ok((size, None))
      case Malformed => Err(InvalidHistoryQuery)
      case Encoded(c) => if BoundTo(c, q) then Ok((size, Some(c))) else Err(InvalidHistoryQuery)
  }

  // ---------- order and selection ----------

  predicate NewerThan(at: Time, id: string, at': Time, id': string) {
    at' < at || (at' == at && StrLess(id', id))
  }

  /** Descending event time, then descending event ID. */
  predicate Newer(a: Row, b: Row) { NewerThan(a.observedAt, a.id, b.observedAt, b.id) }

  predicate Selected(e: Row, q: HistoryQuery, after: Option<HistoryCursor>) {
    && e.assignmentId == q.assignmentId && (q.generation == 0 || e.generation == q.generation)
    && (q.from.Some? ==> q.from.value <= e.observedAt)
    && (q.until.Some? ==> e.observedAt < q.until.value)
    && (after.Some? ==> NewerThan(after.value.at, after.value.id, e.observedAt, e.id))
  }

  ghost function Selection(t: set<Row>, q: HistoryQuery, after: Option<HistoryCursor>): set<Row> {
    set e | e in t && Selected(e, q, after)
  }

  // Event IDs are a primary key, usable as cursors.
  ghost predicate ValidTable(t: set<Row>) {
    && (forall a, b :: a in t && b in t && a.id == b.id ==> a == b)
    && (forall e :: e in t ==> e.id != "" && |e.id| <= 1024 && !IsZero(e.observedAt))
  }

  lemma NewerOrder()
    ensures StrictOrder(Newer) && WeakOrder(Newer)
  {
    StrOrder();
    forall x, y, z | !Newer(x, y) && !Newer(y, z) ensures !Newer(x, z) {
      StrLessTotal(x.id, y.id);
      StrLessTotal(y.id, z.id);
      StrLessTotal(x.id, z.id);
    }
  }

  lemma NewerTotal(t: set<Row>)
    requires ValidTable(t)
    ensures TotalOn(Newer, t)
  {
    forall x, y | x in t && y in t && x != y ensures Newer(x, y) || Newer(y, x) { StrLessTotal(x.id, y.id); }
  }

  lemma SelectionTotal(t: set<Row>, q: HistoryQuery, after: Option<HistoryCursor>)
    requires ValidTable(t)
    ensures StrictOrder(Newer) && TotalOn(Newer, Selection(t, q, after))
  {
    NewerOrder();
    NewerTotal(t);
  }

  /** The event belongs to the assignment asked for, to the generation if one is
      given, and lies in the half-open time range if one is given. */
  predicate Answers(e: Row, q: HistoryQuery) {
    e.assignmentId == q.assignmentId && (q.generation != 0 ==> e.generation == q.generation) &&
    (q.from.Some? ==> e.observedAt >= q.from.value) && (q.until.Some? ==> e.observedAt < q.until.value)
  }

  lemma SelectionAnswers(t: set<Row>, q: HistoryQuery, e: Row)
    ensures e in Selection(t, q, None) <==> e in t && Answers(e, q)
  {
  }

  // ---------- one page ----------

  datatype Page = Page(rows: seq<Row>, next: PageToken)

  function TokenAfter(q: HistoryQuery, e: Row): PageToken {
    Encoded(HistoryCursor(1, q.assignmentId, q.generation, q.from, q.until, e.observedAt, e.id))
  }

  /** The first `size` selected rows, with a token when more remain. */
  ghost function PageOf(t: set<Row>, q: HistoryQuery): Result<Page, Refusal>
    requires ValidTable(t)
  {
    match Bounds(q)
    case Err(x) => Err(x)
    case Ok((size, after)) =>
      SelectionTotal(t, q, after);
      var rows := Canon(Newer, Selection(t, q, after));
      Ok(if |rows| > size then Page(rows[..size], TokenAfter(q, rows[size - 1])) else Page(rows, NoToken))
  }

  datatype HistoryEvent = HistoryEvent(
    row: Row, deviationM: Option<real>, plannedStart: Option<Time>, plannedEnd: Option<Time>)

  // The SQL read: selected rows, newest first, at most `limit` of them.
  method ReadRows(table: seq<Row>, q: HistoryQuery, after: Option<HistoryCursor>, limit: nat) returns (rows: seq<Row>)
    requires Distinct(table) && ValidTable(Elems(table))
    ensures var all := Selection(Elems(table), q, after);
            StrictOrder(Newer) && TotalOn(Newer, all) &&
            rows == if |Canon(Newer, all)| <= limit then Canon(Newer, all) else Canon(Newer, all)[..limit]
  {
    ghost var all := Selection(Elems(table), q, after);
    SelectionTotal(Elems(table), q, after);
    NewerOrder();
    rows := [];
    for i := 0 to |table|
      invariant Distinct(rows) && Elems(rows) == Selection(Elems(table[..i]), q, after)
    {
      assert table[..i + 1] == table[..i] + [table[i]];
      assert Elems(table[..i + 1]) == Elems(table[..i]) + {table[i]};
      assert table[i] !in Elems(table[..i]);
      assert Elems(rows + [table[i]]) == Elems(rows) + {table[i]};
      if Selected(table[i], q, after) { rows := rows + [table[i]]; }
    }
    assert table[..|table|] == table;
    SortIsCanon(Newer, rows);
    rows := SortBy(Newer, rows);
    CanonUnique(Newer, rows, Canon(Newer, all), all);
    if |rows| > limit { rows := rows[..limit]; }
  }

  method ListConformanceEvents(table: seq<Row>, q: HistoryQuery)
    returns (events: seq<HistoryEvent>, next: PageToken, refused: bool)
    requires Distinct(table) && ValidTable(Elems(table))
    ensures refused <==> PageOf(Elems(table), q).Err?
    ensures !refused ==>
              var page := PageOf(Elems(table), q).value;
              && next == page.next && |events| == |page.rows|
              && (forall i :: 0 <= i < |events| ==> Answers(events[i].row, q))
              && forall i :: 0 <= i < |events| ==>
                   && events[i].row == page.rows[i]
                   && MetersFor(page.rows[i], events[i].deviationM)
                   && PlanBounds(page.rows[i].volumes, events[i].plannedStart, events[i].plannedEnd)
  {
    hide PlanBounds, MetersFor, ValidFilters, BoundTo, Selected, Answers;
    events, next, refused := [], NoToken, false;
    var bounds := Bounds(q);
    if bounds.Err? { return [], NoToken, true; }
    var (size, after) := bounds.value;
    var rows := ReadRows(table, q, after, size + 1);
    events := Describe(rows);
    forall i | 0 <= i < |events| ensures Answers(events[i].row, q) { ReadAnswers(table, q, after, rows, i); }
    if |events| > size {
      events := events[..size];
      next := TokenAfter(q, events[size - 1].row);
    }
  }

  lemma ReadAnswers(table: seq<Row>, q: HistoryQuery, after: Option<HistoryCursor>, rows: seq<Row>, i: nat)
    requires ValidTable(Elems(table)) && i < |rows|
    requires var all := Selection(Elems(table), q, after);
             StrictOrder(Newer) && TotalOn(Newer, all) &&
             (rows == Canon(Newer, all) || (|rows| <= |Canon(Newer, all)| && rows == Canon(Newer, all)[..|rows|]))
    ensures Answers(rows[i], q)
  {
    var all := Selection(Elems(table), q, after);
    assert rows[i] == Canon(Newer, all)[i];
    assert rows[i] in Elems(Canon(Newer, all));
  }

  predicate MetersFor(r: Row, deviation: Option<real>) {
    deviation == if r.violation in {Lateral, Vertical} then Some(r.deviation) else None
  }

  method Describe(rows: seq<Row>) returns (events: seq<HistoryEvent>)
    ensures |events| == |rows|
    ensures forall i :: 0 <= i < |events| ==>
              events[i].row == rows[i] && MetersFor(rows[i], events[i].deviationM) &&
              PlanBounds(rows[i].volumes, events[i].plannedStart, events[i].plannedEnd)
  {
    hide PlanBounds;
    events := [];
    for i := 0 to |rows|
      invariant |events| == i
      invariant forall k :: 0 <= k < i ==>
                  events[k].row == rows[k] && MetersFor(rows[k], events[k].deviationM) &&
                  PlanBounds(rows[k].volumes, events[k].plannedStart, events[k].plannedEnd)
    {
      var metric := rows[i].violation == Lateral || rows[i].violation == Vertical;
      var deviation := if metric then Some(rows[i].deviation) else None;
      var start, end := HistoryPlanBounds(rows[i].volumes);
      events := events + [HistoryEvent(rows[i], deviation, start, end)];
    }
  }

  // ---------- planned window ----------

  predicate ProperWindow(v: Volume) { !IsZero(v.startsAt) && !IsZero(v.endsAt) && v.startsAt < v.endsAt }

  // Least start and greatest end of the volumes, or nothing when any is incomplete.
  ghost predicate PlanBounds(vs: seq<Volume>, start: Option<Time>, end: Option<Time>) {
    if vs == [] || exists v :: v in vs && !ProperWindow(v) then start == end == None
    else
      && start.Some? && (exists v :: v in vs && v.startsAt == start.value)
      && (forall v :: v in vs ==> start.value <= v.startsAt)
      && end.Some? && (exists v :: v in vs && v.endsAt == end.value) && (forall v :: v in vs ==> v.endsAt <= end.value)
  }

  method HistoryPlanBounds(vs: seq<Volume>) returns (start: Option<Time>, end: Option<Time>)
    ensures PlanBounds(vs, start, end)
  {
    if |vs| == 0 { return None, None; }
    var s, e := vs[0].startsAt, vs[0].endsAt;
    for i := 0 to |vs|
      invariant forall k :: 0 <= k < i ==> ProperWindow(vs[k]) && s <= vs[k].startsAt && vs[k].endsAt <= e
      invariant exists v :: v in vs && v.startsAt == s
      invariant exists v :: v in vs && v.endsAt == e
    {
      if IsZero(vs[i].startsAt) || IsZero(vs[i].endsAt) || vs[i].startsAt >= vs[i].endsAt {
        assert !ProperWindow(vs[i]) && vs[i] in vs;
        return None, None;
      }
      if vs[i].startsAt < s { s := vs[i].startsAt; }
      if vs[i].endsAt > e { e := vs[i].endsAt; }
    }
    return Some(s), Some(e);
  }

  // ---------- following tokens ----------

  /** A token continues exactly the query it was issued for: any other assignment,
      generation or time filter refuses it, and any page size resumes after its row. */
  lemma TokenBindsQuery(t: set<Row>, q: HistoryQuery, e: Row, q': HistoryQuery)
    requires ValidTable(t) && e in t && ValidFilters(q')
    ensures var r := Bounds(q'.(token := TokenAfter(q, e)));
            && (r.Ok? <==>
               q'.assignmentId == q.assignmentId && q'.generation == q.generation && q'.from == q.from &&
               q'.until == q.until)
            && (r.Ok? ==> forall x :: Selected(x, q', r.value.1) <==> Selected(x, q', None) && Newer(e, x))
  {
  }

  /** One request of a walk: the table at that moment and the page size asked for. */
  datatype Visit = Visit(table: set<Row>, size: int)

  function Request(q: HistoryQuery, token: PageToken, size: int): HistoryQuery {
    q.(token := token, pageSize := size)
  }

  ghost predicate Resumable(q: HistoryQuery, token: PageToken) {
    ValidFilters(q) && (token == NoToken || (token.Encoded? && BoundTo(token.cursor, q)))
  }

  ghost predicate ValidVisit(v: Visit) { ValidTable(v.table) && 0 <= v.size <= 200 }

  // Tables only gain rows between visits.
  ghost predicate Walkable(q: HistoryQuery, token: PageToken, visits: seq<Visit>) {
    && Resumable(q, token)
    && (forall i :: 0 <= i < |visits| ==> ValidVisit(visits[i]))
    && (forall i, j :: 0 <= i < j < |visits| ==> visits[i].table <= visits[j].table)
  }

  function After(token: PageToken): Option<HistoryCursor> {
    if token.Encoded? then Some(token.cursor) else None
  }

  lemma PageShape(q: HistoryQuery, token: PageToken, v: Visit)
    requires Resumable(q, token) && ValidVisit(v)
    ensures var t, p := v.table, PageOf(v.table, Request(q, token, v.size));
            && p.Ok?
            && Ascending(Newer, p.value.rows)
            && Elems(p.value.rows) <= Selection(t, q, After(token))
            && (p.value.next == NoToken ==> Elems(p.value.rows) == Selection(t, q, After(token)))
            && (p.value.next != NoToken ==>
                  && p.value.rows != [] && p.value.next == TokenAfter(q, p.value.rows[|p.value.rows| - 1])
                  && (forall e :: e in Selection(t, q, After(token)) && e !in p.value.rows ==>
                       Newer(p.value.rows[|p.value.rows| - 1], e)))
  {
    var r := Request(q, token, v.size);
    var (size, after) := Bounds(r).value;
    SelectionTotal(v.table, r, after);
    var s := Selection(v.table, r, after);
    assert s == Selection(v.table, q, After(token));
    var all := Canon(Newer, s);
    if |all| > size {
      var rows := all[..size];
      forall e | e in s && e !in rows ensures Newer(rows[size - 1], e) {
        assert e in Elems(all);
        var i :| 0 <= i < |all| && all[i] == e;
        assert forall k :: 0 <= k < size ==> rows[k] == all[k] && rows[k] in rows;
      }
    }
  }

  /** Rows returned by following tokens through the visits, and the token left over. */
  ghost function Walk(q: HistoryQuery, token: PageToken, visits: seq<Visit>): (r: (seq<Row>, PageToken))
    requires Walkable(q, token, visits)
    decreases |visits|
  {
    if visits == [] then ([], token)
    else
      PageShape(q, token, visits[0]);
      var page := PageOf(visits[0].table, Request(q, token, visits[0].size)).value;
      if page.next == NoToken then (page.rows, NoToken)
      else
        NextWalkable(q, token, visits);
        var (rest, left) := Walk(q, page.next, visits[1..]);
        (page.rows + rest, left)
  }

  lemma NextWalkable(q: HistoryQuery, token: PageToken, visits: seq<Visit>)
    requires Walkable(q, token, visits) && visits != []
    ensures var p := PageOf(visits[0].table, Request(q, token, visits[0].size));
            p.Ok? && (p.value.next != NoToken ==> Walkable(q, p.value.next, visits[1..]))
  {
    PageShape(q, token, visits[0]);
    var p := PageOf(visits[0].table, Request(q, token, visits[0].size)).value;
    if p.next != NoToken {
      assert p.rows[|p.rows| - 1] in Elems(p.rows);
    }
  }

  /** However the table grows between pages, a walk returns rows in strictly
      descending order, so never twice, and a finished walk has returned every
      selected row that existed when it began. */
  lemma {:induction false} WalkExactlyOnce(q: HistoryQuery, token: PageToken, visits: seq<Visit>)
    requires Walkable(q, token, visits) && visits != []
    ensures var (rows, left) := Walk(q, token, visits);
            && Ascending(Newer, rows) && Distinct(rows)
            && Elems(rows) <= Selection(visits[|visits| - 1].table, q, After(token))
            && (left == NoToken ==> Selection(visits[0].table, q, After(token)) <= Elems(rows))
    decreases |visits|
  {
    hide PageOf, Selected, BoundTo;
    PageShape(q, token, visits[0]);
    var page := PageOf(visits[0].table, Request(q, token, visits[0].size)).value;
    var (rows, left) := Walk(q, token, visits);
    NewerOrder();
    SelectionGrows(visits[0].table, visits[|visits| - 1].table, q, After(token));
    if page.next != NoToken {
      NextWalkable(q, token, visits);
      var last := page.rows[|page.rows| - 1];
      if |visits| == 1 {
        assert Walk(q, page.next, visits[1..]) == ([], page.next);
        assert rows == page.rows;
      } else {
        WalkExactlyOnce(q, page.next, visits[1..]);
        var (rest, _) := Walk(q, page.next, visits[1..]);
        assert last in Elems(page.rows);
        CursorNarrows(visits[|visits| - 1].table, q, token, last);
        forall x, y | x in Elems(page.rows) && y in Elems(rest) ensures Newer(x, y) {
          assert Newer(last, y);
          HeadNewest(page.rows, x);
        }
        CanonAppend(Newer, page.rows, Elems(page.rows), rest, Elems(rest));
        forall e | e in Selection(visits[0].table, q, After(token)) && left == NoToken ensures e in Elems(rows) {
          if e !in page.rows { StillSelected(visits[0].table, visits[1].table, q, token, last, e); }
        }
      }
    }
    AscendingIsDistinct(rows);
  }

  lemma AscendingIsDistinct(rows: seq<Row>)
    requires StrictOrder(Newer) && Ascending(Newer, rows)
    ensures Distinct(rows)
  {
  }

  lemma HeadNewest(rows: seq<Row>, x: Row)
    requires Ascending(Newer, rows) && x in rows
    ensures x == rows[|rows| - 1] || Newer(x, rows[|rows| - 1])
  {
  }

  lemma SelectionGrows(t: set<Row>, u: set<Row>, q: HistoryQuery, after: Option<HistoryCursor>)
    requires t <= u
    ensures Selection(t, q, after) <= Selection(u, q, after)
  {
  }

  // Rows after the new cursor come after its row, and were after the old cursor.
  lemma CursorNarrows(t: set<Row>, q: HistoryQuery, token: PageToken, last: Row)
    requires Selected(last, q, After(token))
    ensures forall e :: e in Selection(t, q, After(TokenAfter(q, last))) ==>
              Newer(last, e) && e in Selection(t, q, After(token))
  {
    NewerOrder();
    StrOrder();
  }

  lemma StillSelected(t: set<Row>, u: set<Row>, q: HistoryQuery, token: PageToken, last: Row, e: Row)
    requires t <= u && e in Selection(t, q, After(token)) && Newer(last, e)
    ensures e in Selection(u, q, After(TokenAfter(q, last)))
  {
  }

  /** On an unchanging table a walk finishes within one page per remaining row. */
  lemma {:induction false} WalkFinishes(q: HistoryQuery, token: PageToken, visits: seq<Visit>, t: set<Row>)
    requires Walkable(q, token, visits) && forall i :: 0 <= i < |visits| ==> visits[i].table == t
    requires |visits| > |Selection(t, q, After(token))|
    ensures Walk(q, token, visits).1 == NoToken
    decreases |visits|
  {
    hide PageOf, Selected, BoundTo;
    PageShape(q, token, visits[0]);
    var page := PageOf(visits[0].table, Request(q, token, visits[0].size)).value;
    if page.next != NoToken {
      NextWalkable(q, token, visits);
      var last := page.rows[|page.rows| - 1];
      assert last in Elems(page.rows);
      CursorNarrows(t, q, token, last);
      NewerOrder();
      FewerRemain(Selection(t, q, After(page.next)), Selection(t, q, After(token)), last);
      WalkFinishes(q, page.next, visits[1..], t);
    }
  }

  lemma FewerRemain(s: set<Row>, t: set<Row>, last: Row)
    requires s <= t && last in t && StrictOrder(Newer) && forall e :: e in s ==> Newer(last, e)
    ensures |s| < |t|
  {
    assert last !in s;
    assert s <= t - {last};
    SubsetSize(s, t - {last});
  }

  lemma SubsetSize<T>(s: set<T>, t: set<T>)
    requires s <= t
    ensures |s| <= |t|
  {
    assert t == s + (t - s);
  }

  /** A walk over an unchanging table returns every event that answers the query,
      once, newest first, and no other. */
  lemma WalkAnswersExactly(q: HistoryQuery, visits: seq<Visit>, t: set<Row>)
    requires Walkable(q, NoToken, visits) && forall i :: 0 <= i < |visits| ==> visits[i].table == t
    requires |visits| > |Selection(t, q, None)|
    ensures var (rows, left) := Walk(q, NoToken, visits);
            && left == NoToken && Ascending(Newer, rows) && Distinct(rows)
            && forall e :: e in rows <==> e in t && Answers(e, q)
  {
    hide Walk, Selected, Answers, Walkable;
    WalkFinishes(q, NoToken, visits, t);
    WalkExactlyOnce(q, NoToken, visits);
    var (rows, left) := Walk(q, NoToken, visits);
    forall e ensures e in rows <==> e in t && Answers(e, q) {
      SelectionAnswers(t, q, e);
      assert e in rows <==> e in Elems(rows);
    }
  }
}
