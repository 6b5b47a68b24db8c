/** Strict lexicographic order on strings, and the ordered iteration of a key set.

    A Rust `str` is modelled as its sequence of Unicode scalar values. redb compares the
    UTF-8 bytes of its keys; module Utf8 shows that this is the same order. */
module Lex {

  predicate Less(s: string, t: string)
  {
    t != [] && (s == [] || s[0] < t[0] || (s[0] == t[0] && Less(s[1..], t[1..])))
  }

  lemma {:induction false} LessTransitive(a: string, b: string, c: string)
    requires Less(a, b) && Less(b, c)
    ensures Less(a, c)
  {
    if a != [] && a[0] == b[0] && b[0] == c[0] {
      LessTransitive(a[1..], b[1..], c[1..]);
    }
  }

  lemma {:induction false} LessTotal(a: string, b: string)
    ensures Less(a, b) || a == b || Less(b, a)
    ensures !(Less(a, b) && Less(b, a)) && !Less(a, a)
  {
    if a != [] && b != [] && a[0] == b[0] {
      LessTotal(a[1..], b[1..]);
      assert a == [a[0]] + a[1..] && b == [b[0]] + b[1..];
    }
    if a != [] { LessTotal(a[1..], a[1..]); }
  }

  lemma {:induction false} LessCommonPrefix(p: string, s: string, t: string)
    ensures Less(p + s, p + t) <==> Less(s, t)
  {
    if p == [] {
      assert p + s == s && p + t == t;
    } else {
      assert (p + s)[1..] == p[1..] + s && (p + t)[1..] == p[1..] + t;
      LessCommonPrefix(p[1..], s, t);
    }
  }

  /** Strings of one length compare by their first difference, whatever follows them. */
  lemma {:induction false} LessEqualLength(s: string, t: string, u: string, v: string)
    requires |s| == |t|
    ensures Less(s + u, t + v) <==> Less(s, t) || (s == t && Less(u, v))
  {
    if s == [] {
      assert s + u == u && t + v == v;
    } else {
      assert (s + u)[1..] == s[1..] + u && (t + v)[1..] == t[1..] + v;
      LessEqualLength(s[1..], t[1..], u, v);
      assert s == [s[0]] + s[1..] && t == [t[0]] + t[1..];
    }
  }

  ghost predicate Ascending(keys: seq<string>)
  {
    forall i, j :: 0 <= i < j < |keys| ==> Less(keys[i], keys[j])
  }

  ghost predicate IsLeast(least: string, s: set<string>)
  {
    least in s && forall k :: k in s && k != least ==> Less(least, k)
  }

  lemma {:induction false} LeastExists(s: set<string>)
    requires s != {}
    ensures exists least :: IsLeast(least, s)
  {
    var x :| x in s;
    if s == {x} {
      assert IsLeast(x, s);
    } else {
      LeastExists(s - {x});
      var rest :| IsLeast(rest, s - {x});
      LessTotal(x, rest);
      var least := if Less(x, rest) then x else rest;
      forall k | k in s && k != least ensures Less(least, k) {
        if k != x && least == x && k != rest { LessTransitive(x, rest, k); }
      }
      assert IsLeast(least, s);
    }
  }

  function Least(s: set<string>): (least: string)
    requires s != {}
    ensures IsLeast(least, s)
  {
    assert exists least :: least in s && forall k :: k in s && k != least ==> Less(least, k) by {
      LeastExists(s);
      var w :| IsLeast(w, s);
    }
    assert forall x, y :: x in s && y in s && Less(x, y) ==> !Less(y, x) by {
      forall x, y | x in s && y in s && Less(x, y) ensures !Less(y, x) { LessTotal(x, y); }
    }
    var least :| least in s && forall k :: k in s && k != least ==> Less(least, k);
    least
  }

  /** The order in which a B-tree table yields its keys. */
  function SortedKeys(s: set<string>): (keys: seq<string>)
    ensures forall k :: k in keys <==> k in s
    ensures |keys| == |s|
  {
    if s == {} then [] else [Least(s)] + SortedKeys(s - {Least(s)})
  }

  lemma {:induction false} SortedKeysAscending(s: set<string>)
    ensures Ascending(SortedKeys(s))
  {
    if s != {} {
      var rest := SortedKeys(s - {Least(s)});
      SortedKeysAscending(s - {Least(s)});
      assert forall i :: 0 <= i < |rest| ==> rest[i] in s - {Least(s)};
    }
  }

  /** An ascending sequence is determined by its elements. */
  lemma {:induction false} AscendingUnique(xs: seq<string>, ys: seq<string>)
    requires Ascending(xs) && Ascending(ys)
    requires forall k :: k in xs <==> k in ys
    ensures xs == ys
  {
    assert xs != [] ==> xs[0] in ys;
    assert ys != [] ==> ys[0] in xs;
    if xs != [] && ys != [] {
      assert xs[0] in ys && ys[0] in xs;
      LessTotal(xs[0], ys[0]);
      assert xs[0] == ys[0];
      forall k ensures k in xs[1..] <==> k in ys[1..] {
        LessTotal(xs[0], xs[0]);
        assert k in xs[1..] ==> k in xs && k != xs[0];
        assert k in ys[1..] ==> k in ys && k != ys[0];
      }
      AscendingUnique(xs[1..], ys[1..]);
      assert xs == [xs[0]] + xs[1..] && ys == [ys[0]] + ys[1..];
    }
  }

  predicate StartsWith(s: string, prefix: string)
  {
    |prefix| <= |s| && s[..|prefix|] == prefix
  }

  lemma {:induction false} SubsetSize<T>(a: set<T>, b: set<T>)
    requires a <= b
    ensures |a| <= |b|
  {
    if a != {} {
      var x :| x in a;
      SubsetSize(a - {x}, b - {x});
    }
  }

  lemma Reassociate<T>(a: seq<T>, b: seq<T>, c: seq<T>)
    ensures a + (b + c) == (a + b) + c
  {
  }

  lemma Units<T>(a: seq<T>)
    ensures a + [] == a && [] + a == a
  {
  }
}
