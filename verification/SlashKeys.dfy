/** Map keys made of two strings with a slash between, and when two pairs share one. */
module SlashKeys {
  function Joined(a: string, b: string): string {
    a + "/" + b
  }

  /** The first string of the one pair goes on, past a slash, into the second string of the other. */
  ghost predicate Overlaps(a: string, b: string, c: string, d: string) {
    exists x: string :: a == Joined(c, x) && d == Joined(x, b)
  }

  lemma LongerOverlaps(a: string, b: string, c: string, d: string)
    requires Joined(a, b) == Joined(c, d) && |a| > |c|
    ensures Overlaps(a, b, c, d)
  {
    var k, x := Joined(a, b), a[|c| + 1..];
    assert k[..|a|] == a && k[..|c|] == c && k[|c|] == '/';
    assert a[..|c|] == k[..|c|] && a[|c|] == k[|c|];
    assert a == a[..|c|] + [a[|c|]] + x;
    assert k[|c| + 1..] == d;
    assert k[|c| + 1..|a|] == x && k[|a| + 1..] == b;
    assert d == k[|c| + 1..|a|] + "/" + b;
    assert a == Joined(c, x) && d == Joined(x, b);
  }

  lemma OverlapsShare(a: string, b: string, c: string, d: string, x: string)
    requires a == Joined(c, x) && d == Joined(x, b)
    ensures Joined(a, b) == Joined(c, d)
  {
  }

  /** Two pairs share a key exactly when they are the same or one overlaps the other. */
  lemma SharedExactly(a: string, b: string, c: string, d: string)
    ensures Joined(a, b) == Joined(c, d) <==> (a == c && b == d) || Overlaps(a, b, c, d) || Overlaps(c, d, a, b)
  {
    var k := Joined(a, b);
    if k == Joined(c, d) {
      if |a| > |c| {
        LongerOverlaps(a, b, c, d);
      } else if |c| > |a| {
        LongerOverlaps(c, d, a, b);
      } else {
        assert k[..|a|] == a && k[..|c|] == c && k[|a| + 1..] == b && k[|c| + 1..] == d;
      }
    }
    if x: string :| a == Joined(c, x) && d == Joined(x, b) { OverlapsShare(a, b, c, d, x); }
    if x: string :| c == Joined(a, x) && b == Joined(x, d) { OverlapsShare(c, d, a, b, x); }
  }

  lemma OverlapHasSlash(a: string, b: string, c: string, d: string)
    requires Overlaps(a, b, c, d)
    ensures '/' in a && '/' in d
  {
    var x: string :| a == Joined(c, x) && d == Joined(x, b);
    assert a[|c|] == '/' && d[|x|] == '/';
  }

  /** Keys tell pairs apart when the first strings have no slash, or the second ones have none. */
  lemma SlashFreeInjective(a: string, b: string, c: string, d: string)
    requires ('/' !in a && '/' !in c) || ('/' !in b && '/' !in d)
    ensures Joined(a, b) == Joined(c, d) ==> a == c && b == d
  {
    SharedExactly(a, b, c, d);
    if Overlaps(a, b, c, d) { OverlapHasSlash(a, b, c, d); }
    if Overlaps(c, d, a, b) { OverlapHasSlash(c, d, a, b); }
  }
}
