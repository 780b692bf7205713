/** Bounded telemetry reads: chunked queries that refuse saturated windows, and
    the recursive window splitting that makes a read complete. */
module Reader {
  import opened Ordering
  import opened Domain

  /** A stored position row; None is a missing or unusable field. */
  datatype Row = Row(
    time: Time, frameId: string, agentId: string, aircraftId: string, walId: string, walSeq: Option<nat>,
    flightId: string, intentId: string, intentVersion: Option<nat>,
    latitude: Option<real>, longitude: Option<real>, altitudeMsl: Option<real>)

  datatype Decoded = Accepted(o: Observation) | Rejected(frameId: string) | NoWalIdentity

  const MAX_UINT32 := 0xFFFF_FFFF

  function Decode(r: Row): Decoded {
    if Blank(r.frameId) || Blank(r.agentId) || Blank(r.aircraftId) then Rejected(r.frameId)
    else if Blank(r.walId) then NoWalIdentity
    else if r.walSeq.None? then Rejected(r.frameId)
    else if r.latitude.None? || !(-90.0 <= r.latitude.value <= 90.0) then Rejected(r.frameId)
    else if r.longitude.None? || !(-180.0 <= r.longitude.value <= 180.0) then Rejected(r.frameId)
    else Accepted(Observation(
      r.frameId, r.agentId, r.walId, r.walSeq.value, r.aircraftId, r.flightId, r.intentId,
      if r.intentVersion.Some? && r.intentVersion.value <= MAX_UINT32 then r.intentVersion.value else 0,
      r.latitude.value, r.longitude.value,
      if r.altitudeMsl.Some? then r.altitudeMsl.value else 0.0, r.altitudeMsl.Some?, MSL, r.time))
  }

  // ---------- what decoding means ----------

  predicate Identifies(r: Row) { !Blank(r.frameId) && !Blank(r.agentId) && !Blank(r.aircraftId) }

  /** The row names its frame, agent, aircraft and WAL position and lies on the globe. */
  predicate Complete(r: Row) {
    && Identifies(r) && !Blank(r.walId) && r.walSeq.Some?
    && r.latitude.Some? && -90.0 <= r.latitude.value <= 90.0
    && r.longitude.Some? && -180.0 <= r.longitude.value <= 180.0
  }

  /** The observation says what the row says, field by field. */
  predicate Carries(r: Row, o: Observation) {
    && o.frameId == r.frameId && o.agentId == r.agentId && o.aircraftId == r.aircraftId && o.walId == r.walId
    && Some(o.walSeq) == r.walSeq && o.flightId == r.flightId && o.intentId == r.intentId && o.observedAt == r.time
    && Some(o.latitude) == r.latitude && Some(o.longitude) == r.longitude
    && (o.altitudeKnown <==> r.altitudeMsl.Some?)
    && (o.altitudeKnown ==> Some(o.altitudeM) == r.altitudeMsl && o.reference == MSL)
    && (if r.intentVersion.Some? && r.intentVersion.value <= MAX_UINT32
        then Some(o.intentVersion) == r.intentVersion else o.intentVersion == 0)
  }

  /** A row is accepted exactly when complete, without WAL identity exactly when
      only that is missing first, and rejected under its own frame otherwise. */
  lemma DecodeMeaning(r: Row)
    ensures Decode(r).Accepted? <==> Complete(r)
    ensures Decode(r).NoWalIdentity? <==> Identifies(r) && Blank(r.walId)
    ensures Decode(r).Accepted? ==> Carries(r, Decode(r).o)
    ensures Decode(r).Rejected? ==> Decode(r).frameId == r.frameId
  {
    hide Blank;
  }

  // Some row of the table in the window is carried by o.
  ghost predicate FromRow(table: seq<Row>, ids: set<string>, start: Time, end: Time, o: Observation) {
    exists r :: r in table && Matches(r, ids, start, end) && Complete(r) && Carries(r, o)
  }

  /** q reports the rows of the window: each of its observations carries one of
      them, and the frame of every complete row is reported. */
  ghost predicate ReportsRows(table: seq<Row>, ids: set<string>, start: Time, end: Time, q: seq<Observation>) {
    && (forall o :: o in q ==> FromRow(table, ids, start, end, o))
    && (forall r :: r in table && Matches(r, ids, start, end) && Complete(r) ==> r.frameId in Frames(q))
  }

  lemma DecodableFromRow(table: seq<Row>, ids: set<string>, start: Time, end: Time, o: Observation)
    requires o in Decodable(table, ids, start, end)
    ensures FromRow(table, ids, start, end, o)
  {
    hide Decode, Carries, Complete, Matches;
    MatchingMembers(table, ids, start, end);
    var r :| r in Matching(table, ids, start, end) && Decode(r).Accepted? && Decode(r).o == o;
    DecodeMeaning(r);
  }

  lemma ReadReportsRows(table: seq<Row>, ids: set<string>, start: Time, end: Time, q: seq<Observation>)
    requires IsRead(q, Decodable(table, ids, start, end)) && KeysDetermine(Decodable(table, ids, start, end))
    ensures ReportsRows(table, ids, start, end, q)
  {
    hide Decode, Carries, Complete, Matches, FromRow, ObsBefore, Matching;
    var all := Decodable(table, ids, start, end);
    forall o | o in q ensures FromRow(table, ids, start, end, o) {
      assert o in Elems(q);
      DecodableFromRow(table, ids, start, end, o);
    }
    MatchingMembers(table, ids, start, end);
    forall r | r in table && Matches(r, ids, start, end) && Complete(r) ensures r.frameId in Frames(q) {
      DecodeMeaning(r);
      FrameOf(r, Decode(r).o);
      var f := FirstExists(all, Decode(r).o);
      assert f in Elems(q);
    }
  }

  lemma FrameOf(r: Row, o: Observation)
    requires Carries(r, o)
    ensures o.frameId == r.frameId
  {
  }

  // ---------- what a window holds ----------

  predicate Matches(r: Row, ids: set<string>, start: Time, end: Time) {
    start <= r.time < end && r.aircraftId in ids
  }

  function Matching(table: seq<Row>, ids: set<string>, start: Time, end: Time): seq<Row> {
    if table == [] then []
    else
      var last := table[|table| - 1];
      Matching(table[..|table| - 1], ids, start, end) + if Matches(last, ids, start, end) then [last] else []
  }

  lemma MatchingMembers(table: seq<Row>, ids: set<string>, start: Time, end: Time)
    ensures forall r :: r in Matching(table, ids, start, end) <==> r in table && Matches(r, ids, start, end)
  {
    if table != [] {
      MatchingMembers(table[..|table| - 1], ids, start, end);
      assert table == table[..|table| - 1] + [table[|table| - 1]];
    }
  }

  // A narrower selection matches no more rows.
  lemma MatchingMonotone(
    table: seq<Row>, ids: set<string>, start: Time, end: Time, ids': set<string>, start': Time, end': Time)
    requires ids <= ids' && start' <= start && end <= end'
    ensures |Matching(table, ids, start, end)| <= |Matching(table, ids', start', end')|
  {
    if table != [] { MatchingMonotone(table[..|table| - 1], ids, start, end, ids', start', end'); }
  }

  /** The limited query: no more than limit of the matching rows. */
  function Query(table: seq<Row>, ids: set<string>, start: Time, end: Time, limit: nat): seq<Row> {
    var rows := Matching(table, ids, start, end);
    if |rows| <= limit then rows else rows[..limit]
  }

  ghost function AcceptedIn(rows: seq<Row>): set<Observation> {
    set r | r in rows && Decode(r).Accepted? :: Decode(r).o
  }

  ghost function RejectedIn(rows: seq<Row>): set<string> {
    set r | r in rows && Decode(r).Rejected? :: Decode(r).frameId
  }

  ghost predicate Identified(rows: seq<Row>) {
    forall r :: r in rows ==> !Decode(r).NoWalIdentity?
  }

  ghost function Decodable(table: seq<Row>, ids: set<string>, start: Time, end: Time): set<Observation> {
    AcceptedIn(Matching(table, ids, start, end))
  }

  // Observations with the same ordering key are the same observation.
  ghost predicate KeysDetermine(s: set<Observation>) {
    forall a, b :: a in s && b in s && SameKey(a, b) ==> a == b
  }

  /** The canonically first observation of every frame in s. */
  ghost function FirstFrames(s: set<Observation>): set<Observation> {
    set o | o in s && FirstOfFrame(s, o)
  }

  ghost predicate FirstOfFrame(s: set<Observation>, o: Observation) {
    forall x :: x in s && x.frameId == o.frameId ==> !ObsBefore(x, o)
  }

  /** q is what an unlimited read of s would return. */
  ghost predicate IsRead(q: seq<Observation>, s: set<Observation>) {
    IsCanon(ObsBefore, q, FirstFrames(s))
  }

  lemma TotalOnKeys(s: set<Observation>)
    requires KeysDetermine(s)
    ensures TotalOn(ObsBefore, s)
  {
    forall x, y | x in s && y in s && x != y ensures ObsBefore(x, y) || ObsBefore(y, x) { ObsBeforeTrichotomy(x, y); }
  }

  // Every frame of s has its first observation.
  lemma FirstExists(s: set<Observation>, o: Observation) returns (f: Observation)
    requires KeysDetermine(s) && o in s
    ensures f in FirstFrames(s) && f.frameId == o.frameId && (f == o || ObsBefore(f, o))
  {
    var same := set x | x in s && x.frameId == o.frameId;
    assert o in same;
    ObsOrder();
    TotalOnKeys(same);
    f := LeastExists(ObsBefore, same);
    forall x | x in s && x.frameId == f.frameId ensures !ObsBefore(x, f) {
      assert x in same;
      ObsBeforeTrichotomy(x, f);
    }
  }

  // Reducing the parts first does not change the first observation of any frame.
  lemma FirstFramesUnion(l: set<Observation>, r: set<Observation>)
    requires KeysDetermine(l + r)
    ensures FirstFrames(FirstFrames(l) + FirstFrames(r)) == FirstFrames(l + r)
  {
    var parts := FirstFrames(l) + FirstFrames(r);
    forall o | o in FirstFrames(parts) ensures o in FirstFrames(l + r) {
      forall x | x in l + r && x.frameId == o.frameId ensures !ObsBefore(x, o) {
        var f := if x in l then FirstIn(l, x) else FirstIn(r, x);
        assert f in parts;
        ObsBeforeTrichotomy(x, o);
        if f != x && ObsBefore(x, o) { ObsBeforeTransitive(f, x, o); }
      }
    }
  }

  ghost function FirstIn(s: set<Observation>, o: Observation): (f: Observation)
    requires KeysDetermine(s) && o in s
    ensures f in FirstFrames(s) && f.frameId == o.frameId && (f == o || ObsBefore(f, o))
  {
    FirstInExists(s, o);
    var f :| f in FirstFrames(s) && f.frameId == o.frameId && (f == o || ObsBefore(f, o));
    f
  }

  lemma FirstInExists(s: set<Observation>, o: Observation)
    requires KeysDetermine(s) && o in s
    ensures exists f :: f in FirstFrames(s) && f.frameId == o.frameId && (f == o || ObsBefore(f, o))
  {
    var f := FirstExists(s, o);
  }

  // ---------- deduplication ----------

  ghost function Frames(q: seq<Observation>): set<string> {
    set o | o in q :: o.frameId
  }

  ghost function Dedup(q: seq<Observation>): seq<Observation> {
    if q == [] then []
    else
      var d, x := Dedup(q[..|q| - 1]), q[|q| - 1];
      if x.frameId in Frames(d) then d else d + [x]
  }

  lemma {:induction false} DedupShorter(q: seq<Observation>)
    ensures |Dedup(q)| <= |q| && Frames(Dedup(q)) == Frames(q)
  {
    if q != [] {
      DedupShorter(q[..|q| - 1]);
      FramesSnoc(q[..|q| - 1], q[|q| - 1]);
      FramesSnoc(Dedup(q[..|q| - 1]), q[|q| - 1]);
      assert q == q[..|q| - 1] + [q[|q| - 1]];
    }
  }

  lemma FramesSnoc(q: seq<Observation>, x: Observation)
    ensures Frames(q + [x]) == Frames(q) + {x.frameId}
  {
    forall f | f in Frames(q) + {x.frameId} ensures f in Frames(q + [x]) {
      if f in Frames(q) {
        var o :| o in q && o.frameId == f;
        assert o in q + [x];
      } else {
        assert x in q + [x];
      }
    }
  }

  lemma SetAt(s: seq<Observation>, n: nat, o: Observation)
    requires n < |s|
    ensures s[n := o][..n + 1] == s[..n] + [o]
  {
  }

  /** Keeps the first observation of each frame, in place; the result is a[..n]. */
  method DedupInPlace(a: array<Observation>) returns (n: nat)
    modifies a
    ensures n <= a.Length && a[..n] == Dedup(old(a[..]))
  {
    ghost var was := a[..];
    var seen: set<string> := {};
    n := 0;
    for i := 0 to a.Length
      invariant n <= i
      invariant a[..n] == Dedup(was[..i])
      invariant forall k :: i <= k < a.Length ==> a[k] == was[k]
      invariant seen == Frames(a[..n])
    {
      assert was[..i + 1][..i] == was[..i];
      var o := a[i];
      if o.frameId !in seen {
        seen := seen + {o.frameId};
        FramesSnoc(a[..n], o);
        ghost var before := a[..];
        a[n] := o;
        assert a[..] == before[n := o];
        SetAt(before, n, o);
        n := n + 1;
      }
    }
    assert was[..a.Length] == was;
  }

  // Deduplicating a sorted sequence lists the first observation of every frame.
  lemma {:induction false} DedupSorted(q: seq<Observation>)
    requires NonDescending(ObsBefore, q) && KeysDetermine(Elems(q))
    ensures IsRead(Dedup(q), Elems(q))
  {
    hide ObsBefore, IsRead, KeysDetermine, Frames, NonDescending, Elems;
    if q == [] {
      NothingRead();
    } else {
      var front, x := q[..|q| - 1], q[|q| - 1];
      LastOfSorted(q);
      KeysDetermineSubset(Elems(front), Elems(q));
      DedupSorted(front);
      if x.frameId in Frames(Dedup(front)) {
        RepeatedFrame(Elems(front), Dedup(front), x);
      } else {
        NewFrame(Elems(front), Dedup(front), x);
      }
    }
  }

  lemma LastOfSorted(q: seq<Observation>)
    requires q != [] && NonDescending(ObsBefore, q)
    ensures var front, x := q[..|q| - 1], q[|q| - 1];
            && NonDescending(ObsBefore, front) && Elems(q) == Elems(front) + {x}
            && forall o :: o in Elems(front) ==> !ObsBefore(x, o)
  {
    hide ObsBefore;
    var front, x := q[..|q| - 1], q[|q| - 1];
    assert q == front + [x];
    forall o | o in Elems(front) ensures !ObsBefore(x, o) {
      var i :| 0 <= i < |front| && front[i] == o;
      assert !ObsBefore(q[|q| - 1], q[i]);
    }
  }

  lemma NothingRead()
    ensures IsRead([], Elems([]))
  {
    var none: seq<Observation> := [];
    assert Elems(none) == {} && FirstFrames({}) == {};
  }

  lemma RepeatedFrame(s: set<Observation>, d: seq<Observation>, x: Observation)
    requires IsRead(d, s) && x.frameId in Frames(d) && KeysDetermine(s + {x})
    requires forall o :: o in s ==> !ObsBefore(x, o)
    ensures IsRead(d, s + {x})
  {
    hide ObsBefore;
    FirstFramesAdd(s, x);
    var y :| y in d && y.frameId == x.frameId;
    assert y in Elems(d);
    ObsBeforeTrichotomy(x, y);
  }

  lemma NewFrame(s: set<Observation>, d: seq<Observation>, x: Observation)
    requires IsRead(d, s) && x.frameId !in Frames(d) && KeysDetermine(s + {x})
    requires forall o :: o in s ==> !ObsBefore(x, o)
    ensures IsRead(d + [x], s + {x})
  {
    hide ObsBefore;
    FirstFramesAdd(s, x);
    FreshFrame(s, d, x);
    assert Elems(d + [x]) == Elems(d) + {x};
  }

  lemma FirstFramesAdd(s: set<Observation>, x: Observation)
    requires KeysDetermine(s + {x}) && forall o :: o in s ==> !ObsBefore(x, o)
    ensures FirstFrames(s + {x}) == FirstFrames(s) + if FirstOfFrame(s, x) then {x} else {}
    ensures (exists o :: o in s && o.frameId == x.frameId) && FirstOfFrame(s, x) ==> x in FirstFrames(s)
  {
    ObsBeforeTrichotomy(x, x);
    if (exists o :: o in s && o.frameId == x.frameId) && FirstOfFrame(s, x) {
      var o :| o in s && o.frameId == x.frameId;
      ObsBeforeTrichotomy(o, x);
      assert o == x;
    }
  }

  lemma FreshFrame(s: set<Observation>, d: seq<Observation>, x: Observation)
    requires IsRead(d, s) && x.frameId !in Frames(d) && KeysDetermine(s)
    requires forall o :: o in s ==> !ObsBefore(x, o)
    ensures FirstOfFrame(s, x) && Ascending(ObsBefore, d + [x])
  {
    forall y | y in s ensures y.frameId in Frames(d) {
      var f := FirstIn(s, y);
      assert f in Elems(d);
    }
    forall i | 0 <= i < |d| ensures ObsBefore(d[i], x) {
      assert d[i] in Elems(d) && d[i].frameId in Frames(d);
      ObsBeforeTrichotomy(d[i], x);
    }
  }

  // ---------- one bounded read ----------

  datatype ReadResult = ReadResult(observations: seq<Observation>, rejections: seq<string>)

  datatype ReadError = InvalidWindow | Saturated | WalIdentityUnavailable

  /** Telemetry backend and the reader's limits. */
  datatype Backend = Backend(table: seq<Row>, chunkSize: nat, maxRows: nat)
  {
    predicate Valid() { chunkSize >= 1 && maxRows >= 1 }
  }

  ghost function IdSet(values: seq<string>): set<string> {
    set v | v in values && !Blank(v) :: Trim(v)
  }

  lemma IdSetSnoc(values: seq<string>, v: string)
    ensures IdSet(values + [v]) == IdSet(values) + if Blank(v) then {} else {Trim(v)}
  {
    hide Trim;
    assert forall x :: x in values + [v] <==> x in values || x == v;
  }

  method UniqueIds(values: seq<string>) returns (result: seq<string>)
    ensures IsCanon(StrLess, result, IdSet(values))
  {
    hide Trim, SortBy, StrLess;
    var seen: set<string> := {};
    result := [];
    for i := 0 to |values|
      invariant seen == Elems(result) == IdSet(values[..i])
      invariant Distinct(result)
    {
      var value := Trim(values[i]);
      assert values[..i + 1] == values[..i] + [values[i]];
      IdSetSnoc(values[..i], values[i]);
      if value != "" && value !in seen {
        seen := seen + {value};
        result := result + [value];
      }
    }
    assert values[..|values|] == values;
    ghost var before := result;
    result := SortBy(StrLess, result);
    StrOrder();
    StrTotalOn(Elems(before));
    SortIsCanon(StrLess, before);
  }

  /** Chunks are read in order; the first that is saturated, or else holds a row
      without WAL identity, decides the failure. */
  ghost function FirstFailure(b: Backend, ids: seq<string>, start: Time, end: Time): (f: Option<ReadError>)
    requires b.Valid()
    ensures f != Some(InvalidWindow)
    decreases |ids|
  {
    if ids == [] then None
    else
      var n := if b.chunkSize > |ids| then |ids| else b.chunkSize;
      var rows := Matching(b.table, Elems(ids[..n]), start, end);
      if |rows| >= b.maxRows then Some(Saturated)
      else if !Identified(rows) then Some(WalIdentityUnavailable)
      else FirstFailure(b, ids[n..], start, end)
  }

  // Reads the rows of every chunk of aircraft, or refuses the first chunk that
  // is saturated or holds a row without WAL identity.
  method ReadChunks(b: Backend, ids: seq<string>, start: Time, end: Time)
    returns (all: seq<Observation>, rejected: seq<string>, failure: Option<ReadError>)
    requires b.Valid()
    ensures failure == FirstFailure(b, ids, start, end)
    ensures failure.None? ==> ReadSoFar(b, Elems(ids), start, end, all, rejected)
  {
    hide Decode, Matching, Matches, ReadSoFar, FromRow, Carries, Complete, Blank, AcceptedIn, RejectedIn;
    all, rejected, failure := [], [], None;
    var offset := 0;
    NothingSoFar(b, start, end);
    assert Elems(ids[..0]) == {};
    while offset < |ids|
      invariant 0 <= offset <= |ids|
      invariant ReadSoFar(b, Elems(ids[..offset]), start, end, all, rejected)
      invariant FirstFailure(b, ids, start, end) == FirstFailure(b, ids[offset..], start, end)
    {
      var last := if offset + b.chunkSize > |ids| then |ids| else offset + b.chunkSize;
      var chunk := set id | id in ids[offset..last];
      var rows := Query(b.table, chunk, start, end, b.maxRows);
      assert ids[..last] == ids[..offset] + ids[offset..last];
      assert Elems(ids[..last]) == Elems(ids[..offset]) + chunk;
      assert ids[offset..][..last - offset] == ids[offset..last] && ids[offset..][last - offset..] == ids[last..];
      assert Elems(ids[offset..last]) == chunk;
      if |rows| >= b.maxRows { return [], [], Some(Saturated); }
      var more, bad, ok := DecodeRows(rows);
      if !ok { return [], [], Some(WalIdentityUnavailable); }
      ReadMore(b, Elems(ids[..offset]), chunk, start, end, all, rejected, more, bad);
      all, rejected := all + more, rejected + bad;
      offset := last;
    }
    assert ids[..|ids|] == ids;
  }

  lemma NothingSoFar(b: Backend, start: Time, end: Time)
    ensures ReadSoFar(b, {}, start, end, [], [])
  {
    NothingMatches(b.table, start, end);
  }

  /** One read of [start, end): complete, or refused. */
  method ReadPositions(b: Backend, aircraftIds: seq<string>, start: Time, end: Time)
    returns (r: Result<ReadResult, ReadError>)
    requires b.Valid() && KeysDetermine(AcceptedIn(b.table))
    ensures IdSet(aircraftIds) == {} ==> r == Ok(ReadResult([], []))
    ensures IdSet(aircraftIds) != {} ==> (r == Err(InvalidWindow) <==> IsZero(start) || end <= start)
    ensures r.Ok? ==>
              var ids := IdSet(aircraftIds);
              var rows := Matching(b.table, ids, start, end);
              && IsRead(r.value.observations, Decodable(b.table, ids, start, end))
              && ReportsRows(b.table, ids, start, end, r.value.observations)
              && Elems(r.value.rejections) == RejectedIn(rows) && Identified(rows)
    ensures start != ZERO_TIME && start < end ==>
              forall ids :: IsCanon(StrLess, ids, IdSet(aircraftIds)) && ids != [] ==>
                match FirstFailure(b, ids, start, end) case None => r.Ok? case Some(e) => r == Err(e)
  {
    hide Decode, Matching, Matches, KeysDetermine, IsRead, FirstFailure, StrLess, ReportsRows;
    var ids := UniqueIds(aircraftIds);
    ElemsEmpty(ids);
    StrOrder();
    forall other | IsCanon(StrLess, other, IdSet(aircraftIds)) ensures other == ids {
      CanonUnique(StrLess, other, ids, IdSet(aircraftIds));
    }
    if |ids| == 0 {
      NothingMatches(b.table, start, end);
      DecodableTimes(b.table, {}, start, end);
      KeysDetermineSubset(Decodable(b.table, {}, start, end), AcceptedIn(b.table));
      ReadReportsRows(b.table, {}, start, end, []);
      return Ok(ReadResult([], []));
    }
    if IsZero(start) || end <= start { return Err(InvalidWindow); }
    var all, rejected, failure := ReadChunks(b, ids, start, end);
    if failure.Some? { return Err(failure.value); }
    var sorted := SortBy(ObsBefore, all);
    ObsWeakOrder();
    SortBySorts(ObsBefore, all);
    DecodableTimes(b.table, Elems(ids), start, end);
    KeysDetermineSubset(Elems(all), AcceptedIn(b.table));
    var buffer := new Observation[|sorted|](i requires 0 <= i < |sorted| => sorted[i]);
    assert buffer[..] == sorted;
    var n := DedupInPlace(buffer);
    DedupSorted(sorted);
    ReadReportsRows(b.table, Elems(ids), start, end, buffer[..n]);
    return Ok(ReadResult(buffer[..n], rejected));
  }

  lemma KeysDetermineSubset(s: set<Observation>, t: set<Observation>)
    requires KeysDetermine(t) && s <= t
    ensures KeysDetermine(s)
  {
  }

  lemma NothingMatches(table: seq<Row>, start: Time, end: Time)
    ensures Matching(table, {}, start, end) == []
    ensures IsRead([], Decodable(table, {}, start, end))
  {
    MatchingMembers(table, {}, start, end);
    ElemsEmpty(Matching(table, {}, start, end));
    assert Decodable(table, {}, start, end) == {};
    assert FirstFrames({}) == {};
  }

  ghost predicate ReadSoFar(
    b: Backend, ids: set<string>, start: Time, end: Time, all: seq<Observation>, rejected: seq<string>)
  {
    var rows := Matching(b.table, ids, start, end);
    Elems(all) == AcceptedIn(rows) && Elems(rejected) == RejectedIn(rows) && Identified(rows)
  }

  lemma ReadMore(b: Backend, ids: set<string>, chunk: set<string>, start: Time, end: Time,
                 all: seq<Observation>, rejected: seq<string>, more: seq<Observation>, bad: seq<string>)
    requires ReadSoFar(b, ids, start, end, all, rejected)
    requires var rows := Matching(b.table, chunk, start, end);
             Elems(more) == AcceptedIn(rows) && Elems(bad) == RejectedIn(rows) && Identified(rows)
    ensures ReadSoFar(b, ids + chunk, start, end, all + more, rejected + bad)
  {
    MatchingMembers(b.table, ids, start, end);
    MatchingMembers(b.table, chunk, start, end);
    MatchingMembers(b.table, ids + chunk, start, end);
    var rows := Matching(b.table, ids + chunk, start, end);
    assert forall r :: r in rows <==>
           r in Matching(b.table, ids, start, end) || r in Matching(b.table, chunk, start, end);
    assert Elems(all + more) == Elems(all) + Elems(more) && Elems(rejected + bad) == Elems(rejected) + Elems(bad);
  }

  lemma DecodeSnoc(rows: seq<Row>, r: Row)
    ensures AcceptedIn(rows + [r]) == AcceptedIn(rows) + if Decode(r).Accepted? then {Decode(r).o} else {}
    ensures RejectedIn(rows + [r]) == RejectedIn(rows) + if Decode(r).Rejected? then {Decode(r).frameId} else {}
  {
    hide Decode;
    assert forall x :: x in rows + [r] <==> x in rows || x == r;
  }

  method DecodeRows(rows: seq<Row>) returns (accepted: seq<Observation>, rejected: seq<string>, ok: bool)
    ensures ok <==> Identified(rows)
    ensures ok ==> Elems(accepted) == AcceptedIn(rows) && Elems(rejected) == RejectedIn(rows)
    ensures ok ==> (forall o :: o in accepted ==> exists r :: r in rows && Complete(r) && Carries(r, o)) &&
                   (forall r :: r in rows && Complete(r) ==> exists o :: o in accepted && Carries(r, o))
    ensures ok <==> forall r :: r in rows ==> !(Identifies(r) && Blank(r.walId))
  {
    hide Decode, Carries, Complete, Blank;
    forall r ensures Decode(r).Accepted? <==> Complete(r)
      ensures Decode(r).NoWalIdentity? <==> Identifies(r) && Blank(r.walId)
      ensures Decode(r).Accepted? ==> Carries(r, Decode(r).o)
    {
      DecodeMeaning(r);
    }
    accepted, rejected, ok := [], [], true;
    for i := 0 to |rows|
      invariant Identified(rows[..i])
      invariant Elems(accepted) == AcceptedIn(rows[..i]) && Elems(rejected) == RejectedIn(rows[..i])
    {
      DecodeSnoc(rows[..i], rows[i]);
      assert rows[..i + 1] == rows[..i] + [rows[i]];
      match Decode(rows[i]) {
        case Accepted(o) => accepted := accepted + [o];
        case Rejected(f) => rejected := rejected + [f];
        case NoWalIdentity =>
          assert rows[i] in rows;
          return [], [], false;
      }
    }
    assert rows[..|rows|] == rows;
    forall r | r in rows && Complete(r) ensures exists o :: o in accepted && Carries(r, o) {
      assert Decode(r).o in Elems(accepted);
    }
    forall o | o in accepted ensures exists r :: r in rows && Complete(r) && Carries(r, o) {
      assert o in Elems(accepted);
    }
  }

  // ---------- complete reads ----------

  ghost predicate SaturatedAt(b: Backend, id: string, t: Time) {
    |Matching(b.table, {id}, t, t + 1)| >= b.maxRows
  }

  // No single nanosecond of the window is saturated and every row is identified.
  ghost predicate Readable(b: Backend, id: string, start: Time, end: Time) {
    && (forall t :: start <= t < end ==> !SaturatedAt(b, id, t))
    && Identified(Matching(b.table, {id}, start, end))
  }

  ghost predicate WalMissingAt(b: Backend, id: string, t: Time) {
    !Identified(Matching(b.table, {id}, t, t + 1))
  }

  // The first failing instant is saturated.
  ghost predicate SaturatedFirst(b: Backend, id: string, start: Time, end: Time) {
    exists t :: start <= t < end && SaturatedAt(b, id, t) && forall u :: start <= u < t ==> !WalMissingAt(b, id, u)
  }

  // The first failing instant is not saturated and holds a row without WAL identity.
  ghost predicate WalMissingFirst(b: Backend, id: string, start: Time, end: Time) {
    exists t :: start <= t < end && WalMissingAt(b, id, t) && forall u :: start <= u <= t ==> !SaturatedAt(b, id, u)
  }

  // At most one of the three outcomes of a window.
  lemma OutcomesExclude(b: Backend, id: string, start: Time, end: Time)
    ensures Readable(b, id, start, end) ==> !SaturatedFirst(b, id, start, end) && !WalMissingFirst(b, id, start, end)
    ensures !(SaturatedFirst(b, id, start, end) && WalMissingFirst(b, id, start, end))
  {
    hide Decode, SaturatedAt;
    forall t | start <= t < end && Readable(b, id, start, end) ensures !WalMissingAt(b, id, t) {
      MatchingMembers(b.table, {id}, start, end);
      MatchingMembers(b.table, {id}, t, t + 1);
    }
  }

  // The outcome of the left part, or of the right part after a readable left.
  lemma OutcomeOfParts(b: Backend, id: string, start: Time, middle: Time, end: Time)
    requires start <= middle <= end
    ensures SaturatedFirst(b, id, start, middle) ==> SaturatedFirst(b, id, start, end)
    ensures WalMissingFirst(b, id, start, middle) ==> WalMissingFirst(b, id, start, end)
    ensures Readable(b, id, start, middle) && SaturatedFirst(b, id, middle, end) ==> SaturatedFirst(b, id, start, end)
    ensures Readable(b, id, start, middle) && WalMissingFirst(b, id, middle, end) ==> WalMissingFirst(b, id, start, end)
  {
    hide Decode, SaturatedAt, Matching;
    forall t | start <= t < middle && Readable(b, id, start, middle) ensures !WalMissingAt(b, id, t) {
      MatchingMembers(b.table, {id}, start, middle);
      MatchingMembers(b.table, {id}, t, t + 1);
    }
    hide WalMissingAt, Identified;
  }

  // A window below the limit fails only for a missing WAL identity.
  lemma UnsaturatedOutcome(b: Backend, id: string, start: Time, end: Time)
    requires |Matching(b.table, {id}, start, end)| < b.maxRows && !Identified(Matching(b.table, {id}, start, end))
    ensures WalMissingFirst(b, id, start, end)
  {
    hide Decode;
    MatchingMembers(b.table, {id}, start, end);
    var r :| r in Matching(b.table, {id}, start, end) && Decode(r).NoWalIdentity?;
    MatchingMembers(b.table, {id}, r.time, r.time + 1);
    assert WalMissingAt(b, id, r.time);
    forall t | start <= t < end ensures !SaturatedAt(b, id, t) {
      MatchingMonotone(b.table, {id}, t, t + 1, {id}, start, end);
    }
  }

  lemma SingleFailure(b: Backend, id: string, start: Time, end: Time)
    requires b.Valid()
    ensures IsCanon(StrLess, [id], {id})
    ensures var rows := Matching(b.table, {id}, start, end);
            FirstFailure(b, [id], start, end) ==
              if |rows| >= b.maxRows then Some(Saturated)
                else if !Identified(rows) then Some(WalIdentityUnavailable) else None
  {
    hide Matching, Identified;
    assert Elems([id]) == {id} && [id][..1] == [id];
  }

  lemma SingleId(aircraftId: string)
    ensures IdSet([aircraftId]) == if Blank(aircraftId) then {} else {Trim(aircraftId)}
  {
    assert forall v :: v in [aircraftId] <==> v == aircraftId;
  }

  // Rows without an aircraft never decode.
  lemma BlankReadsNothing(b: Backend, start: Time, end: Time)
    ensures IsRead([], Decodable(b.table, {""}, start, end))
  {
    MatchingMembers(b.table, {""}, start, end);
    assert Decodable(b.table, {""}, start, end) == {};
    assert FirstFrames({}) == {};
  }

  lemma OneReadReadable(b: Backend, id: string, start: Time, end: Time)
    requires |Matching(b.table, {id}, start, end)| < b.maxRows && Identified(Matching(b.table, {id}, start, end))
    ensures Readable(b, id, start, end)
  {
    forall t | start <= t < end ensures !SaturatedAt(b, id, t) {
      MatchingMonotone(b.table, {id}, t, t + 1, {id}, start, end);
    }
  }

  lemma SplitWindow(b: Backend, id: string, start: Time, middle: Time, end: Time)
    requires start <= middle <= end
    ensures Readable(b, id, start, end) <==> Readable(b, id, start, middle) && Readable(b, id, middle, end)
    ensures Decodable(b.table, {id}, start, end) ==
            Decodable(b.table, {id}, start, middle) + Decodable(b.table, {id}, middle, end)
    ensures RejectedIn(Matching(b.table, {id}, start, end)) ==
            RejectedIn(Matching(b.table, {id}, start, middle)) + RejectedIn(Matching(b.table, {id}, middle, end))
  {
    var whole := Matching(b.table, {id}, start, end);
    var left, right := Matching(b.table, {id}, start, middle), Matching(b.table, {id}, middle, end);
    MatchingMembers(b.table, {id}, start, end);
    MatchingMembers(b.table, {id}, start, middle);
    MatchingMembers(b.table, {id}, middle, end);
    assert forall r :: r in whole <==> r in left || r in right;
  }

  lemma DecodableTimes(table: seq<Row>, ids: set<string>, start: Time, end: Time)
    ensures Decodable(table, ids, start, end) <= AcceptedIn(table)
    ensures forall o :: o in Decodable(table, ids, start, end) ==> start <= o.observedAt < end
  {
    MatchingMembers(table, ids, start, end);
  }

  // Joining the reads of two adjacent windows and deduplicating reads the whole.
  lemma JoinReads(
    l: seq<Observation>, left: set<Observation>, r: seq<Observation>, right: set<Observation>, middle: Time)
    requires IsRead(l, left) && IsRead(r, right) && KeysDetermine(left + right)
    requires forall o :: o in left ==> o.observedAt < middle
    requires forall o :: o in right ==> middle <= o.observedAt
    ensures IsRead(Dedup(l + r), left + right)
  {
    var both := l + r;
    forall i, j | 0 <= i < j < |both| ensures !ObsBefore(both[j], both[i]) {
      ObsBeforeTrichotomy(both[i], both[j]);
      if i < |l| <= j {
        assert both[i] in Elems(l) && both[j] in Elems(r);
      } else if j < |l| {
        assert ObsBefore(l[i], l[j]);
      } else {
        assert ObsBefore(r[i - |l|], r[j - |l|]);
      }
    }
    assert Elems(both) == Elems(l) + Elems(r);
    DedupSorted(both);
    FirstFramesUnion(left, right);
  }

  // What a read of a usable window yields, whatever the row limit and the splits.
  ghost predicate Outcome(b: Backend, id: string, start: Time, end: Time, r: Result<ReadResult, ReadError>) {
    && !(r.Err? && r.error.InvalidWindow?) && (r.Ok? <==> Readable(b, id, start, end))
    && (r.Err? && r.error.Saturated? <==> SaturatedFirst(b, id, start, end))
    && (r.Err? && r.error.WalIdentityUnavailable? <==> WalMissingFirst(b, id, start, end))
    && (r.Ok? ==> Elems(r.value.rejections) == RejectedIn(Matching(b.table, {id}, start, end)))
  }

  /** Splits saturated windows until every part is complete. For a usable window
      the first failing instant decides: the read succeeds exactly when there is
      none, and it then returns what one unlimited read would. */
  method ReadComplete(b: Backend, aircraftId: string, start: Time, end: Time) returns (r: Result<ReadResult, ReadError>)
    requires b.Valid() && KeysDetermine(AcceptedIn(b.table))
    ensures r.Ok? ==> IsRead(r.value.observations, Decodable(b.table, {Trim(aircraftId)}, start, end))
    ensures r.Ok? ==> ReportsRows(b.table, {Trim(aircraftId)}, start, end, r.value.observations)
    ensures !Blank(aircraftId) && ZERO_TIME < start < end ==> Outcome(b, Trim(aircraftId), start, end, r)
    decreases end - start
  {
    hide Decode, Matching, Trim, Identified, FirstFailure, IsRead, KeysDetermine, Readable, SaturatedFirst,
      WalMissingFirst, StrLess, ReportsRows;
    ghost var id := Trim(aircraftId);
    DecodableTimes(b.table, {id}, start, end);
    KeysDetermineSubset(Decodable(b.table, {id}, start, end), AcceptedIn(b.table));
    SingleId(aircraftId);
    SingleFailure(b, id, start, end);
    OutcomesExclude(b, id, start, end);
    r := ReadPositions(b, [aircraftId], start, end);
    if r != Err(Saturated) {
      if Blank(aircraftId) {
        BlankReadsNothing(b, start, end);
        ReadReportsRows(b.table, {""}, start, end, []);
      } else if r.Ok? {
        OneReadReadable(b, id, start, end);
      } else if r == Err(WalIdentityUnavailable) && ZERO_TIME < start < end {
        UnsaturatedOutcome(b, id, start, end);
      }
      return;
    }
    var width := if end - start > MAX_INT64 then MAX_INT64 else end - start;
    var middle := start + width / 2;
    if middle <= start || end <= middle {
      InstantOutcome(b, id, start, end);
      return;
    }
    SplitWindow(b, id, start, middle, end);
    var left := ReadComplete(b, aircraftId, start, middle);
    if left.Err? {
      if !Blank(aircraftId) && ZERO_TIME < start { FailureOfParts(b, id, start, middle, end, left, true); }
      return left;
    }
    var right := ReadComplete(b, aircraftId, middle, end);
    if right.Err? {
      if !Blank(aircraftId) && ZERO_TIME < start { FailureOfParts(b, id, start, middle, end, right, false); }
      return right;
    }
    r := Joined(b, id, left.value, right.value, start, middle, end);
    ReadReportsRows(b.table, {id}, start, end, r.value.observations);
  }

  // A failing part is how the whole window fails.
  lemma FailureOfParts(
    b: Backend, id: string, start: Time, middle: Time, end: Time, part: Result<ReadResult, ReadError>, first: bool)
    requires start <= middle <= end && part.Err?
    requires if first then Outcome(b, id, start, middle, part)
             else Readable(b, id, start, middle) && Outcome(b, id, middle, end, part)
    ensures Outcome(b, id, start, end, part)
  {
    hide Decode, Matching, Readable, SaturatedFirst, WalMissingFirst, Identified;
    SplitWindow(b, id, start, middle, end);
    OutcomeOfParts(b, id, start, middle, end);
    OutcomesExclude(b, id, start, end);
  }

  lemma InstantOutcome(b: Backend, id: string, start: Time, end: Time)
    requires end == start + 1 && |Matching(b.table, {id}, start, end)| >= b.maxRows
    ensures SaturatedFirst(b, id, start, end)
  {
    assert SaturatedAt(b, id, start);
  }

  // Appends the right part to the left and drops repeated frames in place.
  method Joined(
    b: Backend, ghost id: string, left: ReadResult, right: ReadResult, ghost start: Time, ghost middle: Time,
    ghost end: Time)
    returns (r: Result<ReadResult, ReadError>)
    requires KeysDetermine(AcceptedIn(b.table)) && start <= middle <= end
    requires IsRead(left.observations, Decodable(b.table, {id}, start, middle))
    requires IsRead(right.observations, Decodable(b.table, {id}, middle, end))
    ensures r.Ok? && IsRead(r.value.observations, Decodable(b.table, {id}, start, end))
    ensures Elems(r.value.rejections) == Elems(left.rejections) + Elems(right.rejections)
  {
    hide Decode, Matching, IsRead, Readable;
    var both := left.observations + right.observations;
    var buffer := new Observation[|both|](i requires 0 <= i < |both| => both[i]);
    assert buffer[..] == both;
    var n := DedupInPlace(buffer);
    SplitWindow(b, id, start, middle, end);
    DecodableTimes(b.table, {id}, start, middle);
    DecodableTimes(b.table, {id}, middle, end);
    JoinReads(left.observations, Decodable(b.table, {id}, start, middle),
              right.observations, Decodable(b.table, {id}, middle, end), middle);
    r := Ok(ReadResult(buffer[..n], left.rejections + right.rejections));
  }
}
