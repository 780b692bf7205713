/** Row identities. The length-prefixed input of stableID and the colon-joined
    registry key determine their parts, so rows may be named by those parts. */
module StableId {
  import opened Domain
  import opened Tables

  function Digit(d: nat): char
    requires d < 10
  {
    "0123456789"[d]
  }

  function Decimal(n: nat): string {
    if n < 10 then [Digit(n)] else Decimal(n / 10) + [Digit(n % 10)]
  }

  lemma {:induction false} DecimalHasNoColon(n: nat)
    ensures ':' !in Decimal(n) && Decimal(n) != ""
  {
    if n >= 10 { DecimalHasNoColon(n / 10); }
  }

  lemma {:induction false} DecimalInjective(m: nat, n: nat)
    requires Decimal(m) == Decimal(n)
    ensures m == n
  {
    var s, t := Decimal(m), Decimal(n);
    assert s[|s| - 1] == Digit(m % 10) && t[|t| - 1] == Digit(n % 10);
    DecimalHasNoColon(m / 10);
    DecimalHasNoColon(n / 10);
    if m >= 10 {
      assert s[..|s| - 1] == Decimal(m / 10);
      assert n >= 10 && t[..|t| - 1] == Decimal(n / 10);
      DecimalInjective(m / 10, n / 10);
    }
  }

  // The bytes that stableID hashes.
  function Prefixed(parts: seq<string>): string {
    if parts == [] then "" else Decimal(|parts[0]|) + ":" + parts[0] + Prefixed(parts[1..])
  }

  method HashInput(parts: seq<string>) returns (h: string)
    ensures h == Prefixed(parts)
  {
    h := "";
    for i := 0 to |parts|
      invariant h + Prefixed(parts[i..]) == Prefixed(parts)
    {
      var piece := Decimal(|parts[i]|) + ":" + parts[i];
      assert parts[i..][1..] == parts[i + 1..];
      assert h + Prefixed(parts[i..]) == h + piece + Prefixed(parts[i + 1..]);
      h := h + piece;
    }
    assert h + "" == h;
  }

  // What precedes the first colon determines the split.
  lemma FirstColon(a: string, x: string, b: string, y: string)
    requires a + ":" + x == b + ":" + y && ':' !in a && ':' !in b
    ensures a == b && x == y
  {
    var s, t := a + ":" + x, b + ":" + y;
    assert s[|a|] == ':' && t[|b|] == ':';
    assert s[..|a|] == a && t[..|b|] == b && s[|a| + 1..] == x && t[|b| + 1..] == y;
  }

  // What follows the last colon determines the split.
  lemma LastColon(a: string, x: string, b: string, y: string)
    requires a + ":" + x == b + ":" + y && ':' !in x && ':' !in y
    ensures a == b && x == y
  {
    var s, t := a + ":" + x, b + ":" + y;
    assert s[|a|] == ':' && t[|b|] == ':';
    assert s[..|a|] == a && t[..|b|] == b && s[|a| + 1..] == x && t[|b| + 1..] == y;
  }

  lemma SameLengthHead(a: string, x: string, b: string, y: string)
    requires a + x == b + y && |a| == |b|
    ensures a == b && x == y
  {
    assert (a + x)[..|a|] == a && (b + y)[..|b|] == b && (a + x)[|a|..] == x && (b + y)[|b|..] == y;
  }

  lemma PrefixedHead(xs: seq<string>, ys: seq<string>)
    requires xs != [] && ys != [] && Prefixed(xs) == Prefixed(ys)
    ensures xs[0] == ys[0] && Prefixed(xs[1..]) == Prefixed(ys[1..])
  {
    hide Decimal;
    var (m, n) := (Decimal(|xs[0]|), Decimal(|ys[0]|));
    var (p, q) := (xs[0] + Prefixed(xs[1..]), ys[0] + Prefixed(ys[1..]));
    assert m + ":" + p == Prefixed(xs) && n + ":" + q == Prefixed(ys);
    DecimalHasNoColon(|xs[0]|);
    DecimalHasNoColon(|ys[0]|);
    FirstColon(m, p, n, q);
    DecimalInjective(|xs[0]|, |ys[0]|);
    SameLengthHead(xs[0], Prefixed(xs[1..]), ys[0], Prefixed(ys[1..]));
  }

  lemma PrefixedNotEmpty(xs: seq<string>)
    ensures Prefixed(xs) == "" <==> xs == []
  {
    hide Decimal;
  }

  /** Different lists of parts, of any lengths, never share a hash input. */
  lemma {:induction false} PrefixedInjective(xs: seq<string>, ys: seq<string>)
    requires Prefixed(xs) == Prefixed(ys)
    ensures xs == ys
  {
    hide Prefixed;
    PrefixedNotEmpty(xs);
    PrefixedNotEmpty(ys);
    if xs != [] {
      PrefixedHead(xs, ys);
      PrefixedInjective(xs[1..], ys[1..]);
      assert xs == [xs[0]] + xs[1..] && ys == [ys[0]] + ys[1..];
    }
  }

  // ---------- the identities of the tables ----------

  function ViolationName(v: Violation): string {
    match v
    case Lateral => "lateral_deviation"
    case Vertical => "altitude_deviation"
    case Temporal => "temporal_deviation"
    case TelemetryLoss => "telemetry_loss"
  }

  function KindName(k: TransitionKind): string {
    match k case Opened => "opened" case Updated => "updated" case Resolved => "resolved"
  }

  function IncidentParts(i: IncidentId): seq<string> {
    ["incident", i.key.id, Decimal(i.key.gen), ViolationName(i.violation), i.openingFrame]
  }

  function EventParts(e: EventId): seq<string> {
    ["event", e.key.id, Decimal(e.key.gen), ViolationName(e.violation), KindName(e.kind), e.frameId]
  }

  // Receipts and lifecycle notices are hashed; registry rows have a readable key.
  function MessageParts(o: OutboxId): seq<string>
    requires !o.Registry?
  {
    [if o.Receipt? then "assignment-received" else "assignment-lifecycle", o.message.source, o.message.message]
  }

  function RegistryName(k: Key, revision: nat): string {
    "registry:" + k.id + ":" + Decimal(k.gen) + ":" + Decimal(revision)
  }

  lemma ViolationNamesDiffer(v: Violation, w: Violation)
    requires ViolationName(v) == ViolationName(w)
    ensures v == w
  {
    assert ViolationName(v)[0..2] == ViolationName(w)[0..2];
    assert |ViolationName(v)| == |ViolationName(w)|;
    assert ViolationName(v)[2] == ViolationName(w)[2];
  }

  lemma KindNamesDiffer(k: TransitionKind, l: TransitionKind)
    requires KindName(k) == KindName(l)
    ensures k == l
  {
    assert KindName(k)[0] == KindName(l)[0];
  }

  /** Incident rows with the same hash input are the same incident. */
  lemma IncidentIdentity(i: IncidentId, j: IncidentId)
    requires Prefixed(IncidentParts(i)) == Prefixed(IncidentParts(j))
    ensures i == j
  {
    hide Prefixed, Decimal, ViolationName;
    var a, b := IncidentParts(i), IncidentParts(j);
    PrefixedInjective(a, b);
    assert a[1] == b[1] && a[2] == b[2] && a[3] == b[3] && a[4] == b[4];
    DecimalInjective(i.key.gen, j.key.gen);
    ViolationNamesDiffer(i.violation, j.violation);
  }

  /** Event rows with the same hash input are the same event. */
  lemma EventIdentity(e: EventId, f: EventId)
    requires Prefixed(EventParts(e)) == Prefixed(EventParts(f))
    ensures e == f
  {
    hide Prefixed, Decimal, ViolationName, KindName;
    var a, b := EventParts(e), EventParts(f);
    PrefixedInjective(a, b);
    assert a[1] == b[1] && a[2] == b[2] && a[3] == b[3] && a[4] == b[4] && a[5] == b[5];
    DecimalInjective(e.key.gen, f.key.gen);
    ViolationNamesDiffer(e.violation, f.violation);
    KindNamesDiffer(e.kind, f.kind);
  }

  lemma MessageIdentity(o: OutboxId, p: OutboxId)
    requires !o.Registry? && !p.Registry? && Prefixed(MessageParts(o)) == Prefixed(MessageParts(p))
    ensures o == p
  {
    hide Prefixed;
    var a, b := MessageParts(o), MessageParts(p);
    PrefixedInjective(a, b);
    assert a[1] == b[1] && a[2] == b[2] && |a[0]| == |b[0]|;
  }

  /** Even when an assignment identity itself holds colons. */
  lemma RegistryIdentity(k: Key, m: nat, l: Key, n: nat)
    requires RegistryName(k, m) == RegistryName(l, n)
    ensures k == l && m == n
  {
    hide Decimal;
    DecimalHasNoColon(k.gen);
    DecimalHasNoColon(l.gen);
    DecimalHasNoColon(m);
    DecimalHasNoColon(n);
    var a, b := "registry:" + k.id, "registry:" + l.id;
    LastColon(a + ":" + Decimal(k.gen), Decimal(m), b + ":" + Decimal(l.gen), Decimal(n));
    LastColon(a, Decimal(k.gen), b, Decimal(l.gen));
    assert a[9..] == k.id && b[9..] == l.id;
    DecimalInjective(m, n);
    DecimalInjective(k.gen, l.gen);
  }
}
