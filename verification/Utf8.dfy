/** redb orders keys by their UTF-8 bytes. UTF-8 (section 3 of RFC 3629) keeps the order of
    the scalar values, so `Lex.Less` on strings is the order of the stored bytes. */
module Utf8 {
  import opened Lex

  predicate LessBytes(a: seq<int>, b: seq<int>)
  {
    b != [] && (a == [] || a[0] < b[0] || (a[0] == b[0] && LessBytes(a[1..], b[1..])))
  }

  function Top(n: nat, k: nat): nat { if k == 0 then n else Top(n / 0x40, k - 1) }

  /** `k` continuation bytes after a lead byte offset by `lead`. */
  function Digits(n: nat, k: nat, lead: nat): (r: seq<int>)
    ensures |r| == k + 1
    ensures r[0] == lead + Top(n, k)
  {
    if k == 0 then [lead + n] else Digits(n / 0x40, k - 1, lead) + [0x80 + n % 0x40]
  }

  function EncodeChar(c: char): (r: seq<int>)
    ensures r != []
  {
    var n := c as int;
    if n < 0x80 then [n]
    else if n < 0x800 then Digits(n, 1, 0xC0)
    else if n < 0x1_0000 then Digits(n, 2, 0xE0)
    else Digits(n, 3, 0xF0)
  }

  /** The bytes of one character, by its range. */
  lemma CharBytes(c: char)
    ensures var n := c as int;
            EncodeChar(c) == if n <= 0x7F then [n]
                             else if n <= 0x7FF then [0xC0 + n / 64, 0x80 + n % 64]
                             else if n <= 0xFFFF then [0xE0 + n / 4096, 0x80 + n / 64 % 64, 0x80 + n % 64]
                             else [0xF0 + n / 262144, 0x80 + n / 4096 % 64, 0x80 + n / 64 % 64, 0x80 + n % 64]
  {
    var n := c as int;
    assert Digits(n, 0, 0xC0) == [0xC0 + n];
    assert Digits(n / 64, 0, 0xC0) == [0xC0 + n / 64];
    assert n / 64 / 64 == n / 4096 && n / 64 / 64 / 64 == n / 262144;
    assert Digits(n / 4096, 0, 0xE0) == [0xE0 + n / 4096];
    assert Digits(n / 64, 1, 0xE0) == [0xE0 + n / 4096, 0x80 + n / 64 % 64];
    assert Digits(n / 262144, 0, 0xF0) == [0xF0 + n / 262144];
    assert Digits(n / 4096, 1, 0xF0) == [0xF0 + n / 262144, 0x80 + n / 4096 % 64];
    assert Digits(n / 64, 2, 0xF0) == [0xF0 + n / 262144, 0x80 + n / 4096 % 64, 0x80 + n / 64 % 64];
  }

  function Encode(s: string): seq<int>
  {
    if s == [] then [] else EncodeChar(s[0]) + Encode(s[1..])
  }

  lemma {:induction false} LessBytesStrict(a: seq<int>, b: seq<int>)
    ensures !LessBytes(a, a) && !(LessBytes(a, b) && LessBytes(b, a))
  {
    if a != [] {
      LessBytesStrict(a[1..], if b == [] then [] else b[1..]);
    }
  }

  lemma {:induction false} SharedPrefix(p: seq<int>, a: seq<int>, b: seq<int>)
    ensures LessBytes(p + a, p + b) <==> LessBytes(a, b)
  {
    if p == [] {
      assert p + a == a && p + b == b;
    } else {
      assert (p + a)[1..] == p[1..] + a && (p + b)[1..] == p[1..] + b;
      SharedPrefix(p[1..], a, b);
    }
  }

  lemma {:induction false} EqualLength(x: seq<int>, y: seq<int>, a: seq<int>, b: seq<int>)
    requires |x| == |y| && LessBytes(x, y)
    ensures LessBytes(x + a, y + b)
  {
    assert (x + a)[1..] == x[1..] + a && (y + b)[1..] == y[1..] + b;
    if x[0] == y[0] { EqualLength(x[1..], y[1..], a, b); }
  }

  lemma {:induction false} DigitsOrder(m: nat, n: nat, k: nat, lead: nat)
    requires m < n && k <= 3
    ensures LessBytes(Digits(m, k, lead), Digits(n, k, lead))
  {
    if k != 0 {
      var x, y := Digits(m / 0x40, k - 1, lead), Digits(n / 0x40, k - 1, lead);
      var d, e := [0x80 + m % 0x40], [0x80 + n % 0x40];
      if m / 0x40 == n / 0x40 {
        SharedPrefix(x, d, e);
      } else {
        DigitsOrder(m / 0x40, n / 0x40, k - 1, lead);
        EqualLength(x, y, d, e);
      }
    }
  }

  lemma CharOrder(c: char, d: char, a: seq<int>, b: seq<int>)
    requires c < d
    ensures LessBytes(EncodeChar(c) + a, EncodeChar(d) + b)
  {
    var (m, n) := (c as int, d as int);
    var x, y := EncodeChar(c), EncodeChar(d);
    assert forall i: nat :: Top(i, 1) == i / 0x40;
    assert forall i: nat :: Top(i, 2) == i / 0x40 / 0x40;
    assert forall i: nat :: Top(i, 3) == i / 0x40 / 0x40 / 0x40;
    if x[0] >= y[0] {
      if 0x80 <= m {
        var (k, lead) := if m < 0x800 then (1, 0xC0) else if m < 0x1_0000 then (2, 0xE0) else (3, 0xF0);
        assert x == Digits(m, k, lead) && y == Digits(n, k, lead);
        DigitsOrder(m, n, k, lead);
      }
      EqualLength(x, y, a, b);
    }
  }

  lemma {:induction false} EncodeMonotone(s: string, t: string)
    requires Less(s, t)
    ensures LessBytes(Encode(s), Encode(t))
  {
    if s != [] {
      if s[0] == t[0] {
        EncodeMonotone(s[1..], t[1..]);
        SharedPrefix(EncodeChar(s[0]), Encode(s[1..]), Encode(t[1..]));
      } else {
        CharOrder(s[0], t[0], Encode(s[1..]), Encode(t[1..]));
      }
    }
  }

  lemma EncodeOrder(s: string, t: string)
    ensures LessBytes(Encode(s), Encode(t)) <==> Less(s, t)
  {
    LessTotal(s, t);
    LessBytesStrict(Encode(s), Encode(t));
    if Less(s, t) { EncodeMonotone(s, t); }
    if Less(t, s) { EncodeMonotone(t, s); }
  }
}
