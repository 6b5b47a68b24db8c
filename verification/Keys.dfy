/** Composite keys of the redb tables (src/storage/redb_backend.rs). */
module Keys {
  import opened Models
  import opened Lex

  const NUL := '\0'

  predicate NulFree(s: string) { NUL !in s }

  function Prefix(org: string): string { org + [NUL] }

  function Key(org: string, id: string): string { org + [NUL] + id }

  function CursorKey(org: string, app: string, doc: string): string { org + [NUL] + app + [NUL] + doc }

  /** `format!("{:0w$}", n)` for a number of at most `w` digits. */
  function Padded(n: nat, w: nat): (s: string)
    ensures |s| == w
  {
    if w == 0 then [] else Padded(n / 10, w - 1) + [Digit(n % 10)]
  }

  function Digit(d: nat): char
    requires d < 10
  {
    "0123456789"[d]
  }

  function Pow10(w: nat): nat { if w == 0 then 1 else 10 * Pow10(w - 1) }

  function AuditId(e: AuditEntry): string { Padded(e.timestampMs, 20) + [NUL] + e.auditId }

  function AuditKey(org: string, ts: u64, auditId: string): string
  {
    org + [NUL] + Padded(ts, 20) + [NUL] + auditId
  }

  lemma {:induction false} KeyInjective(o: string, x: string, p: string, y: string)
    requires NulFree(o) && NulFree(p)
    requires Key(o, x) == Key(p, y)
    ensures o == p && x == y
  {
    var k := Key(o, x);
    assert k[|o|] == NUL && k[|p|] == NUL;
    assert forall i :: 0 <= i < |o| ==> k[i] == o[i] != NUL;
    assert forall i :: 0 <= i < |p| ==> k[i] == p[i] != NUL;
    assert o == k[..|o|] && p == k[..|p|];
    assert x == k[|o| + 1..] && y == k[|p| + 1..];
  }

  /** A prefix scan for `org` sees exactly `org`'s keys, even when another id extends `org`. */
  lemma PrefixExact(o: string, id: string, org: string)
    requires NulFree(o) && NulFree(org)
    ensures StartsWith(Key(o, id), Prefix(org)) <==> o == org
  {
    var k := Key(o, id);
    if StartsWith(k, Prefix(org)) {
      assert k == Key(org, k[|org| + 1..]) by {
        assert k == k[..|org| + 1] + k[|org| + 1..];
      }
      KeyInjective(o, id, org, k[|org| + 1..]);
    }
    if o == org { assert k[..|org| + 1] == Prefix(org); }
  }

  /** Cursor keys never collide, whatever the document ids contain. */
  lemma CursorKeyInjective(o: string, a: string, d: string, p: string, b: string, e: string)
    requires NulFree(o) && NulFree(a) && NulFree(p) && NulFree(b)
    requires CursorKey(o, a, d) == CursorKey(p, b, e)
    ensures o == p && a == b && d == e
  {
    CursorKeyNested(o, a, d);
    CursorKeyNested(p, b, e);
    KeyInjective(o, Key(a, d), p, Key(b, e));
    KeyInjective(a, d, b, e);
  }

  lemma CursorKeyNested(o: string, a: string, d: string)
    ensures CursorKey(o, a, d) == Key(o, Key(a, d))
  {
    assert o + [NUL] + a + [NUL] + d == o + [NUL] + (a + [NUL] + d);
  }

  lemma AuditKeyNested(e: AuditEntry)
    ensures AuditKey(e.orgId, e.timestampMs, e.auditId) == Key(e.orgId, AuditId(e))
  {
    assert e.orgId + [NUL] + Padded(e.timestampMs, 20) + [NUL] + e.auditId
        == e.orgId + [NUL] + (Padded(e.timestampMs, 20) + [NUL] + e.auditId);
  }

  /** NUL sorts below every other character, so keys sort by organization first. */
  lemma {:induction false} KeyOrder(o: string, x: string, p: string, y: string)
    requires NulFree(o) && NulFree(p)
    ensures Less(Key(o, x), Key(p, y)) <==> Less(o, p) || (o == p && Less(x, y))
  {
    var k, l := Key(o, x), Key(p, y);
    if o == [] || p == [] {
      if o != [] { assert k[0] == o[0] && k[0] > NUL; }
      if p != [] { assert l[0] == p[0] && l[0] > NUL; }
      assert o == [] ==> k[1..] == x;
      assert p == [] ==> l[1..] == y;
    } else {
      assert k[1..] == Key(o[1..], x) && l[1..] == Key(p[1..], y);
      KeyOrder(o[1..], x, p[1..], y);
      assert o == [o[0]] + o[1..] && p == [p[0]] + p[1..];
    }
  }

  lemma {:induction false} PaddedOrder(m: nat, n: nat, w: nat)
    requires m < Pow10(w) && n < Pow10(w)
    ensures Less(Padded(m, w), Padded(n, w)) <==> m < n
    ensures Padded(m, w) == Padded(n, w) <==> m == n
  {
    if w != 0 {
      PaddedOrder(m / 10, n / 10, w - 1);
      var s, t := Padded(m / 10, w - 1), Padded(n / 10, w - 1);
      var d, e := [Digit(m % 10)], [Digit(n % 10)];
      LessEqualLength(s, t, d, e);
      assert Less(d, e) <==> m % 10 < n % 10;
      assert (s + d)[..w - 1] == s && (t + e)[..w - 1] == t;
      assert (s + d)[w - 1] == d[0] && (t + e)[w - 1] == e[0];
      assert m == 10 * (m / 10) + m % 10 && n == 10 * (n / 10) + n % 10;
    }
  }

  /** The number that a decimal text denotes, by the ASCII codes of its digits. */
  function Decimal(s: string): int
  {
    if s == [] then 0 else 10 * Decimal(s[..|s| - 1]) + (s[|s| - 1] as int - 48)
  }

  /** The padded text denotes the number. */
  lemma {:induction false} PaddedDenotes(n: nat, w: nat)
    requires n < Pow10(w)
    ensures Decimal(Padded(n, w)) == n && forall c :: c in Padded(n, w) ==> '0' <= c <= '9'
  {
    if w != 0 {
      PaddedDenotes(n / 10, w - 1);
      var s := Padded(n, w);
      assert s[..w - 1] == Padded(n / 10, w - 1);
      assert Digit(n % 10) as int == 48 + n % 10;
    }
  }

  lemma TwentyDigitsHoldU64()
    ensures 0x1_0000_0000_0000_0000 <= Pow10(20)
  {
    assert Pow10(4) == 10_000;
    assert Pow10(8) == 10_000 * Pow10(4);
    assert Pow10(12) == 10_000 * Pow10(8);
    assert Pow10(16) == 10_000 * Pow10(12);
    assert Pow10(20) == 10_000 * Pow10(16);
  }

  /** Lexicographic order on (organization, numeric timestamp, audit id). */
  predicate Earlier(o: string, t: u64, a: string, p: string, u: u64, b: string)
  {
    Less(o, p) || (o == p && (t < u || (t == u && Less(a, b))))
  }

  lemma AuditIdOrder(d: AuditEntry, e: AuditEntry)
    ensures Less(AuditId(d), AuditId(e)) <==>
            d.timestampMs < e.timestampMs || (d.timestampMs == e.timestampMs && Less(d.auditId, e.auditId))
  {
    TwentyDigitsHoldU64();
    var s, t := Padded(d.timestampMs, 20), Padded(e.timestampMs, 20);
    PaddedOrder(d.timestampMs, e.timestampMs, 20);
    assert AuditId(d) == s + ([NUL] + d.auditId) && AuditId(e) == t + ([NUL] + e.auditId);
    LessEqualLength(s, t, [NUL] + d.auditId, [NUL] + e.auditId);
    LessCommonPrefix([NUL], d.auditId, e.auditId);
  }

  /** Key order on the audit table is time order, although timestamps are stored as text. */
  lemma AuditKeyOrder(o: string, t: u64, a: string, p: string, u: u64, b: string)
    requires NulFree(o) && NulFree(p)
    ensures Less(AuditKey(o, t, a), AuditKey(p, u, b)) <==> Earlier(o, t, a, p, u, b)
  {
    var d := AuditEntry(a, o, "", "", "", Denied(""), t);
    var e := AuditEntry(b, p, "", "", "", Denied(""), u);
    AuditKeyNested(d);
    AuditKeyNested(e);
    KeyOrder(o, AuditId(d), p, AuditId(e));
    AuditIdOrder(d, e);
  }

  lemma AuditKeyInjective(d: AuditEntry, e: AuditEntry)
    requires NulFree(d.orgId) && NulFree(e.orgId)
    requires AuditKey(d.orgId, d.timestampMs, d.auditId) == AuditKey(e.orgId, e.timestampMs, e.auditId)
    ensures d.orgId == e.orgId && d.timestampMs == e.timestampMs && d.auditId == e.auditId
  {
    AuditKeyOrder(d.orgId, d.timestampMs, d.auditId, e.orgId, e.timestampMs, e.auditId);
    AuditKeyOrder(e.orgId, e.timestampMs, e.auditId, d.orgId, d.timestampMs, d.auditId);
    LessTotal(AuditKey(d.orgId, d.timestampMs, d.auditId), AuditKey(e.orgId, e.timestampMs, e.auditId));
    LessTotal(d.orgId, e.orgId);
    LessTotal(d.auditId, e.auditId);
  }
}
