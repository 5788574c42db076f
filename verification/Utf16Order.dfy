/** The key order of section 3.2.3 of RFC 8785: strings compare by their UTF-16 code units. */
module Utf16Order {
  /** utf16.Encode on one scalar value. */
  function Units(c: char): (u: seq<int>)
    ensures 1 <= |u| <= 2
  {
    var n := c as int;
    if n < 0x10000 then [n] else [0xD800 + (n - 0x10000) / 0x400, 0xDC00 + (n - 0x10000) % 0x400]
  }

  function Encode(s: string): seq<int> {
    if s == [] then [] else Units(s[0]) + Encode(s[1..])
  }

  predicate UnitsLess(a: seq<int>, b: seq<int>) {
    if a == [] || b == [] then |a| < |b|
    else if a[0] != b[0] then a[0] < b[0]
    else UnitsLess(a[1..], b[1..])
  }

  predicate Less(a: string, b: string) {
    UnitsLess(Encode(a), Encode(b))
  }

  method LessUtf16(a: string, b: string) returns (less: bool)
    ensures less == Less(a, b)
  {
    var ua, ub := Encode(a), Encode(b);
    var i := 0;
    while i < |ua| && i < |ub|
      invariant i <= |ua| && i <= |ub|
      invariant UnitsLess(ua, ub) == UnitsLess(ua[i..], ub[i..])
    {
      if ua[i] != ub[i] {
        return ua[i] < ub[i];
      }
      i := i + 1;
    }
    return |ua| < |ub|;
  }

  /** Code points renumbered so that comparing numbers compares UTF-16 encodings:
      the supplementary planes move in front of U+E000. */
  function Rank(c: char): int {
    var n := c as int;
    if n < 0xD800 then n else if n >= 0x10000 then n - 0x10000 + 0xD800 else n + 0x100000
  }

  predicate RankLess(a: string, b: string) {
    if a == [] || b == [] then |a| < |b|
    else if a[0] != b[0] then Rank(a[0]) < Rank(b[0])
    else RankLess(a[1..], b[1..])
  }

  lemma {:induction false} SharedUnits(p: seq<int>, a: seq<int>, b: seq<int>)
    ensures UnitsLess(p + a, p + b) == UnitsLess(a, b)
  {
    if p == [] {
      assert p + a == a && p + b == b;
    } else {
      assert (p + a)[1..] == p[1..] + a && (p + b)[1..] == p[1..] + b;
      SharedUnits(p[1..], a, b);
    }
  }

  lemma DifferentUnits(c: char, d: char, a: seq<int>, b: seq<int>)
    requires c != d
    ensures UnitsLess(Units(c) + a, Units(d) + b) <==> Rank(c) < Rank(d)
  {
    var ua, ub := Units(c) + a, Units(d) + b;
    if ua[0] == ub[0] {
      assert c as int >= 0x10000 && d as int >= 0x10000;
      assert ua[1..][0] == Units(c)[1] && ub[1..][0] == Units(d)[1];
    }
  }

  /** Comparing code units is comparing ranks, so surrogates never mislead the order. */
  lemma {:induction false} LessIsRankLess(a: string, b: string)
    ensures Less(a, b) <==> RankLess(a, b)
  {
    if a == [] || b == [] {
    } else if a[0] != b[0] {
      DifferentUnits(a[0], b[0], Encode(a[1..]), Encode(b[1..]));
    } else {
      SharedUnits(Units(a[0]), Encode(a[1..]), Encode(b[1..]));
      LessIsRankLess(a[1..], b[1..]);
    }
  }

  lemma {:induction false} RankLessOrder(a: string, b: string, c: string)
    ensures !(RankLess(a, b) && RankLess(b, a))
    ensures a == b || RankLess(a, b) || RankLess(b, a)
    ensures RankLess(a, b) && RankLess(b, c) ==> RankLess(a, c)
  {
    if a != [] && b != [] {
      if a[1..] == b[1..] && a[0] == b[0] {
        assert a == [a[0]] + a[1..] && b == [b[0]] + b[1..];
      }
      RankLessOrder(a[1..], b[1..], if c == [] then c else c[1..]);
    }
  }

  /** The code's comparison is a strict total order on strings. */
  lemma LessIsStrictTotalOrder(a: string, b: string, c: string)
    ensures !Less(a, a)
    ensures !(Less(a, b) && Less(b, a))
    ensures a == b || Less(a, b) || Less(b, a)
    ensures Less(a, b) && Less(b, c) ==> Less(a, c)
  {
    LessIsRankLess(a, b);
    LessIsRankLess(b, a);
    LessIsRankLess(b, c);
    LessIsRankLess(a, c);
    LessIsRankLess(a, a);
    RankLessOrder(a, b, c);
    RankLessOrder(a, a, a);
  }

  /** Where UTF-16 order and code-point order part: exactly when, at the first difference, one
      side is outside the basic plane and the other is at or above U+E000 inside it. */
  lemma {:induction false} DiffersFromCodePointOrder(p: string, c: char, a: string, d: char, b: string)
    requires c != d
    ensures (Less(p + [c] + a, p + [d] + b) <==> c < d)
         <==> !((c as int >= 0x10000 && 0xE000 <= d as int < 0x10000)
                || (d as int >= 0x10000 && 0xE000 <= c as int < 0x10000))
  {
    var x, y := p + [c] + a, p + [d] + b;
    if p == [] {
      assert x[0] == c && y[0] == d;
      LessIsRankLess(x, y);
    } else {
      assert x[0] == y[0] && x[1..] == p[1..] + [c] + a && y[1..] == p[1..] + [d] + b;
      LessIsRankLess(x, y);
      LessIsRankLess(x[1..], y[1..]);
      DiffersFromCodePointOrder(p[1..], c, a, d, b);
    }
  }

  // ----- sorted key listings

  ghost predicate Ascending(ks: seq<string>) {
    forall i, j | 0 <= i < j < |ks| :: Less(ks[i], ks[j])
  }

  function KeySet(ks: seq<string>): set<string> {
    set k | k in ks
  }

  ghost predicate Lists(ks: seq<string>, keys: set<string>) {
    Ascending(ks) && forall k :: k in keys <==> k in ks
  }

  /** A set of keys has one ascending listing. */
  lemma {:induction false} OneListing(ks: seq<string>, ls: seq<string>, keys: set<string>)
    requires Lists(ks, keys) && Lists(ls, keys)
    ensures ks == ls
  {
    assert |ks| > 0 ==> ks[0] in keys;
    assert |ls| > 0 ==> ls[0] in keys;
    if ks != [] && ls != [] {
      assert ks[0] in ls && ls[0] in ks;
      LessIsStrictTotalOrder(ks[0], ls[0], ks[0]);
      assert ks[0] == ls[0];
      forall k | k in ks[1..] ensures k != ks[0] { LessIsStrictTotalOrder(ks[0], k, k); }
      forall k | k in ls[1..] ensures k != ls[0] { LessIsStrictTotalOrder(ls[0], k, k); }
      var rest := keys - {ks[0]};
      assert Lists(ks[1..], rest) && Lists(ls[1..], rest);
      OneListing(ks[1..], ls[1..], rest);
      assert ks == [ks[0]] + ks[1..] && ls == [ls[0]] + ls[1..];
    }
  }

  lemma InsertListed(ks: seq<string>, at: nat, key: string, keys: set<string>)
    requires Lists(ks, keys) && at <= |ks|
    requires forall i | 0 <= i < at :: Less(ks[i], key)
    requires forall j | at <= j < |ks| :: Less(key, ks[j])
    ensures Lists(ks[..at] + [key] + ks[at..], keys + {key})
  {
    var r := ks[..at] + [key] + ks[at..];
    forall k | k in keys + {key} ensures k in r {
      if k != key {
        var i :| 0 <= i < |ks| && ks[i] == k;
        assert r[if i < at then i else i + 1] == k;
      } else {
        assert r[at] == key;
      }
    }
  }

  /** sort.Slice over distinct keys with the comparison above; any correct sort gives this listing. */
  method SortKeys(unsorted: seq<string>) returns (ks: seq<string>)
    requires forall i, j | 0 <= i < j < |unsorted| :: unsorted[i] != unsorted[j]
    ensures Lists(ks, KeySet(unsorted))
  {
    ks := [];
    for n := 0 to |unsorted|
      invariant Lists(ks, KeySet(unsorted[..n]))
    {
      var key := unsorted[n];
      var at := 0;
      while at < |ks|
        invariant 0 <= at <= |ks|
        invariant forall i | 0 <= i < at :: Less(ks[i], key)
      {
        var less := LessUtf16(ks[at], key);
        if !less { break; }
        at := at + 1;
      }
      assert key !in ks;
      if at < |ks| {
        LessIsStrictTotalOrder(ks[at], key, key);
        forall j | at < j < |ks| ensures Less(key, ks[j]) { LessIsStrictTotalOrder(key, ks[at], ks[j]); }
      }
      InsertListed(ks, at, key, KeySet(unsorted[..n]));
      assert unsorted[..n + 1] == unsorted[..n] + [key];
      assert KeySet(unsorted[..n + 1]) == KeySet(unsorted[..n]) + {key};
      ks := ks[..at] + [key] + ks[at..];
    }
    assert unsorted[..|unsorted|] == unsorted;
  }

  lemma ListingExists(keys: set<string>)
    ensures exists ks :: Lists(ks, keys)
  {
    if keys == {} {
      assert Lists([], keys);
    } else {
      var key :| key in keys;
      ListingExists(keys - {key});
      var ks :| Lists(ks, keys - {key});
      var at := SplitPoint(ks, key);
      InsertListed(ks, at, key, keys - {key});
      assert keys - {key} + {key} == keys;
    }
  }

  lemma SplitPoint(ks: seq<string>, key: string) returns (at: nat)
    requires Ascending(ks) && key !in ks
    ensures at <= |ks|
    ensures forall i | 0 <= i < at :: Less(ks[i], key)
    ensures forall j | at <= j < |ks| :: Less(key, ks[j])
  {
    at := 0;
    while at < |ks| && Less(ks[at], key)
      invariant at <= |ks|
      invariant forall i | 0 <= i < at :: Less(ks[i], key)
    {
      at := at + 1;
    }
    if at < |ks| {
      LessIsStrictTotalOrder(ks[at], key, key);
      forall j | at < j < |ks| ensures Less(key, ks[j]) { LessIsStrictTotalOrder(key, ks[at], ks[j]); }
    }
  }

  ghost function SortedKeys(keys: set<string>): (ks: seq<string>)
    ensures Lists(ks, keys)
  {
    ListingExists(keys);
    var ks :| Lists(ks, keys);
    ks
  }
}
