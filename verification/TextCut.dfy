/** Cutting text: byte caps that respect UTF-8, trimming, and removal of memory markers. */
module TextCut {
  import opened ByteText
  import opened Decimals
  import opened Search

  // ----- byte caps

  /** utf8.DecodeLastRuneInString finds a well-formed encoding at the end of `b`. */
  predicate EndsInRune(b: bytes) {
    exists k | 1 <= k <= 4 :: EndsIn(b, k)
  }

  /** The last k bytes are one encoding. */
  predicate EndsIn(b: bytes, k: nat) {
    k <= |b| && DecodeFirst(b[|b| - k..]).Decoded? && DecodeFirst(b[|b| - k..]).size == k
  }

  /** Drops at most `steps` trailing bytes until a whole encoding ends the text. */
  function BackOff(b: bytes, steps: nat): bytes {
    if steps == 0 || b == [] || EndsInRune(b) then b else BackOff(b[..|b| - 1], steps - 1)
  }

  const UTF_MAX := 4

  method TruncateAtUtf8Boundary(output: bytes, maxBytes: nat) returns (truncated: bytes)
    requires maxBytes <= |output|
    ensures truncated == BackOff(output[..maxBytes], UTF_MAX - 1)
  {
    truncated := output[..maxBytes];
    var i := 0;
    while i < UTF_MAX - 1 && |truncated| > 0
      invariant 0 <= i <= UTF_MAX - 1
      invariant BackOff(output[..maxBytes], UTF_MAX - 1) == BackOff(truncated, UTF_MAX - 1 - i)
    {
      if EndsInRune(truncated) { break; }
      truncated := truncated[..|truncated| - 1];
      i := i + 1;
    }
  }

  /** What a tool's output becomes under a cap, with a hint; the notice names the cap. */
  method TruncateToolOutput(output: bytes, maxBytes: int, hint: string) returns (out: bytes)
    ensures maxBytes <= 0 || |output| <= maxBytes ==> out == output
    ensures 0 < maxBytes < |output| ==>
      exists k | maxBytes - 3 <= k <= maxBytes && k >= 0 ::
        && output[..k] == BackOff(output[..maxBytes], UTF_MAX - 1)
        && out == output[..k] + Utf8("\n... (output truncated at " + Decimal(maxBytes) + " bytes; " + hint + ")")
  {
    if maxBytes <= 0 || |output| <= maxBytes { return output; }
    BackOffKeepsPrefix(output[..maxBytes], UTF_MAX - 1);
    var kept := TruncateAtUtf8Boundary(output, maxBytes);
    assert kept == output[..|kept|];
    out := kept + Utf8("\n... (output truncated at " + Decimal(maxBytes) + " bytes; " + hint + ")");
  }

  /** The notice a clamped result ends with. */
  function ClampNotice(dropped: nat, total: nat, tool: string): bytes {
    Utf8("\n... (truncated: " + Decimal(dropped) + " of " + Decimal(total) + " bytes from " + tool
         + " omitted; narrow the request or use pagination to see the rest)")
  }

  /** What a tool result becomes under a per-result cap; no cap when it is not positive. */
  function Clamped(cap: int, tool: string, content: bytes): bytes {
    if cap <= 0 || |content| <= cap then content
    else
      var kept := BackOff(content[..cap], UTF_MAX - 1);
      BackOffKeepsPrefix(content[..cap], UTF_MAX - 1);
      kept + ClampNotice(|content| - |kept|, |content|, tool)
  }

  method ClampToolResult(cap: int, tool: string, content: bytes) returns (result: bytes, dropped: nat)
    ensures result == Clamped(cap, tool, content)
    ensures cap <= 0 || |content| <= cap ==> dropped == 0
    ensures 0 < cap < |content| ==>
      && |content| - cap <= dropped <= |content| - cap + 3 && dropped <= |content|
      && result == content[..|content| - dropped] + ClampNotice(dropped, |content|, tool)
  {
    if cap <= 0 || |content| <= cap { return content, 0; }
    var kept := content[..cap];
    BackOffKeepsPrefix(kept, UTF_MAX - 1);
    var i := 0;
    while i < UTF_MAX - 1 && |kept| > 0
      invariant 0 <= i <= UTF_MAX - 1
      invariant |kept| <= cap && kept == content[..|kept|]
      invariant BackOff(content[..cap], UTF_MAX - 1) == BackOff(kept, UTF_MAX - 1 - i)
    {
      if EndsInRune(kept) { break; }
      kept := kept[..|kept| - 1];
      i := i + 1;
    }
    dropped := |content| - |kept|;
    result := kept + ClampNotice(dropped, |content|, tool);
  }

  /** Whatever the bytes, a prefix is kept, at most three bytes short. */
  lemma {:induction false} BackOffKeepsPrefix(b: bytes, steps: nat)
    ensures var kept := BackOff(b, steps); |b| - steps <= |kept| <= |b| && kept == b[..|kept|]
  {
    if !(steps == 0 || b == [] || EndsInRune(b)) {
      BackOffKeepsPrefix(b[..|b| - 1], steps - 1);
    }
  }

  lemma WholeEncodingEnds(p: bytes, c: char)
    ensures EndsInRune(p + EncodeChar(c))
  {
    var e := EncodeChar(c);
    assert (p + e)[|p|..] == e;
    DecodeEncoded(c, []);
    assert e + [] == e;
    assert EndsIn(p + e, |e|);
  }

  lemma PartialEncodingDoesNotEnd(p: bytes, c: char, o: nat)
    requires 1 <= o < |EncodeChar(c)|
    ensures !EndsInRune(p + EncodeChar(c)[..o])
  {
    var e := EncodeChar(c);
    EncodingShape(c);
    forall k | 1 <= k <= 4 ensures !EndsIn(p + e[..o], k) { PartialSuffix(p, e, o, k); }
  }

  lemma PartialSuffix(p: bytes, e: bytes, o: nat, k: nat)
    requires 1 <= o < |e| <= 4 && |e| == LeadLength(e[0]) && Continues(e, |e|) && 1 <= k <= 4
    ensures !EndsIn(p + e[..o], k)
  {
    var b := p + e[..o];
    if k <= |b| {
      var s := b[|b| - k..];
      if k < o {
        assert s[0] == e[o - k];
      } else if k == o {
        assert s[0] == e[0];
      } else {
        assert s[k - o] == e[0];
      }
    }
  }

  lemma {:induction false} BackOffPartial(p: bytes, c: char, o: nat, steps: nat)
    requires o < |EncodeChar(c)| && o <= steps
    requires p == [] || EndsInRune(p)
    ensures BackOff(p + EncodeChar(c)[..o], steps) == p
  {
    var b := p + EncodeChar(c)[..o];
    if o == 0 {
      assert b == p;
    } else {
      PartialEncodingDoesNotEnd(p, c, o);
      assert b[..|b| - 1] == p + EncodeChar(c)[..o - 1];
      BackOffPartial(p, c, o - 1, steps - 1);
    }
  }

  lemma {:induction false} LongestPrefix(s: string, cap: nat) returns (n: nat)
    requires cap < |Utf8(s)|
    ensures n < |s| && |Utf8(s[..n])| <= cap < |Utf8(s[..n + 1])|
    decreases |s|
  {
    n := |s| - 1;
    assert s[..n + 1] == s;
    if |Utf8(s[..n])| > cap {
      var m := LongestPrefix(s[..n], cap);
      assert s[..n][..m] == s[..m] && s[..n][..m + 1] == s[..m + 1];
      n := m;
    }
  }

  lemma Utf8Snoc(s: string, n: nat)
    requires n < |s|
    ensures Utf8(s[..n + 1]) == Utf8(s[..n]) + EncodeChar(s[n])
  {
    assert s[..n + 1] == s[..n] + [s[n]];
    Utf8Append(s[..n], [s[n]]);
    Utf8One(s[n]);
  }

  lemma Utf8One(c: char)
    ensures Utf8([c]) == EncodeChar(c)
  {
    assert EncodeChar(c) + Utf8([]) == EncodeChar(c);
  }

  lemma CutInside(t: bytes, p: bytes, e: bytes, rest: bytes, cap: nat)
    requires t == p + e + rest && |p| <= cap <= |p| + |e|
    ensures t[..cap] == p + e[..cap - |p|]
  {
  }

  lemma Utf8Between(a: string, c: char, b: string)
    ensures Utf8(a + ([c] + b)) == Utf8(a) + EncodeChar(c) + Utf8(b)
  {
    Utf8Append(a, [c] + b);
    Utf8Cons(c, b);
    Associate(Utf8(a), EncodeChar(c), Utf8(b));
  }

  lemma EndsWhole(a: string)
    ensures Utf8(a) == [] || EndsInRune(Utf8(a))
  {
    if a != [] {
      var n := |a| - 1;
      assert a[..n + 1] == a;
      Utf8Snoc(a, n);
      WholeEncodingEnds(Utf8(a[..n]), a[n]);
    }
  }

  /** A cut inside or right before a character goes back to where the character starts. */
  lemma CutInCharacter(a: string, c: char, b: string, cap: nat)
    requires |Utf8(a)| <= cap < |Utf8(a)| + |EncodeChar(c)|
    ensures cap <= |Utf8(a + ([c] + b))| && BackOff(Utf8(a + ([c] + b))[..cap], UTF_MAX - 1) == Utf8(a)
  {
    Utf8Between(a, c, b);
    CutInside(Utf8(a + ([c] + b)), Utf8(a), EncodeChar(c), Utf8(b), cap);
    EndsWhole(a);
    BackOffPartial(Utf8(a), c, cap - |Utf8(a)|, UTF_MAX - 1);
  }

  lemma Around(s: string, n: nat)
    requires n < |s|
    ensures s == s[..n] + ([s[n]] + s[n + 1..])
  {
  }

  /** Cutting valid UTF-8 keeps the longest whole-character prefix within the cap. */
  lemma CutKeepsLongestPrefix(s: string, cap: nat) returns (n: nat)
    requires cap < |Utf8(s)|
    ensures n < |s| && BackOff(Utf8(s)[..cap], UTF_MAX - 1) == Utf8(s[..n])
    ensures |Utf8(s[..n])| <= cap < |Utf8(s[..n + 1])|
  {
    n := LongestPrefix(s, cap);
    Utf8Snoc(s, n);
    Around(s, n);
    CutInCharacter(s[..n], s[n], s[n + 1..], cap);
  }

  // ----- trimming

  /** unicode.IsSpace. */
  predicate IsSpace(c: char) {
    var n := c as int;
    0x09 <= n <= 0x0D || n == 0x20 || n == 0x85 || n == 0xA0 || n == 0x1680
    || 0x2000 <= n <= 0x200A || n == 0x2028 || n == 0x2029 || n == 0x202F || n == 0x205F || n == 0x3000
  }

  function TrimStart(s: string): (i: nat)
    ensures i <= |s| && (i < |s| ==> !IsSpace(s[i]))
  {
    if s == "" || !IsSpace(s[0]) then 0 else 1 + TrimStart(s[1..])
  }

  function TrimEnd(s: string): (j: nat)
    ensures j <= |s| && (j > 0 ==> !IsSpace(s[j - 1]))
  {
    if s == "" || !IsSpace(s[|s| - 1]) then |s| else TrimEnd(s[..|s| - 1])
  }

  /** strings.TrimSpace. */
  function TrimSpace(s: string): (t: string)
    ensures t != "" ==> !IsSpace(t[0]) && !IsSpace(t[|t| - 1])
  {
    var t := s[TrimStart(s)..];
    t[..TrimEnd(t)]
  }

  predicate AllSpace(s: string) {
    forall i | 0 <= i < |s| :: IsSpace(s[i])
  }

  lemma {:induction false} TrimStartIsSpace(s: string)
    ensures AllSpace(s[..TrimStart(s)])
  {
    if s != "" && IsSpace(s[0]) {
      TrimStartIsSpace(s[1..]);
      assert s[..TrimStart(s)] == [s[0]] + s[1..][..TrimStart(s[1..])];
    }
  }

  lemma {:induction false} TrimEndIsSpace(s: string)
    ensures AllSpace(s[TrimEnd(s)..])
  {
    if s != "" && IsSpace(s[|s| - 1]) {
      var init := s[..|s| - 1];
      TrimEndIsSpace(init);
      assert s[TrimEnd(s)..] == init[TrimEnd(init)..] + [s[|s| - 1]];
    }
  }

  /** Trimming takes white space off both ends and nothing else, until none is left there. */
  lemma TrimExactly(s: string) returns (i: nat, j: nat)
    ensures i <= j <= |s| && TrimSpace(s) == s[i..j] && AllSpace(s[..i]) && AllSpace(s[j..])
    ensures i < j ==> !IsSpace(s[i]) && !IsSpace(s[j - 1])
    ensures TrimSpace(s) == "" <==> AllSpace(s)
  {
    i := TrimStart(s);
    var t := s[i..];
    j := i + TrimEnd(t);
    TrimStartIsSpace(s);
    TrimEndIsSpace(t);
    assert s[j..] == t[TrimEnd(t)..] && TrimSpace(s) == s[i..j];
    if i == j { assert s == s[..i] + s[j..]; }
    assert i < j ==> TrimSpace(s)[0] == s[i] && TrimSpace(s)[j - i - 1] == s[j - 1];
  }

  lemma TrimTwice(s: string)
    ensures TrimSpace(TrimSpace(s)) == TrimSpace(s)
  {
    var t := TrimSpace(s);
    assert t[0..] == t && t[..|t|] == t;
  }

  lemma TrimKeepsAbsent(s: string, sub: string)
    requires Absent(s, sub)
    ensures Absent(TrimSpace(s), sub)
  {
    var i := TrimStart(s);
    var j := i + TrimEnd(s[i..]);
    assert TrimSpace(s) == s[i..j];
    forall k: nat ensures !OccursAt(TrimSpace(s), sub, k) { OccursInSlice(s, i, j, sub, k); }
  }

  // ----- memory markers

  const START_MARKER := "__SYMPOZIUM_MEMORY__"
  const END_MARKER := "__SYMPOZIUM_MEMORY_END__"

  lemma AbsentBefore(s: string, at: nat, sub: string)
    requires at <= |s| && sub != "" && NoneIn(s, sub, 0, at)
    ensures Absent(s[..at], sub)
  {
    forall k: nat ensures !OccursAt(s[..at], sub, k) {
      assert s[..at] == s[0..at];
      OccursInSlice(s, 0, at, sub, k);
    }
  }

  datatype Found = NoMarker | Unclosed(at: nat) | Block(from: nat, to: nat)

  /** The leftmost block: from the first start marker to past the first end marker at or after it. */
  function FindBlock(s: string, open: string, close: string): (f: Found)
    requires close != ""
    ensures f.Unclosed? ==> f.at <= |s|
    ensures f.Block? ==> f.from < f.to <= |s|
  {
    var start := Index(s, open);
    if start < 0 then NoMarker
    else
      var end := Index(s[start..], close);
      if end < 0 then Unclosed(start) else Block(start, start + end + |close|)
  }

  lemma BeforeBlock(s: string, open: string, close: string)
    requires open != "" && close != ""
    ensures FindBlock(s, open, close).NoMarker? ==> Absent(s, open)
    ensures FindBlock(s, open, close).Unclosed? ==> Absent(s[..FindBlock(s, open, close).at], open)
  {
    IndexMeaning(s, open);
    var start := Index(s, open);
    if start >= 0 { AbsentBefore(s, start, open); }
  }

  /** Removing the leftmost block, again and again; an unclosed block runs to the end. */
  function Stripped(s: string, open: string, close: string): string
    requires close != ""
    decreases |s|
  {
    match FindBlock(s, open, close)
    case NoMarker => TrimSpace(s)
    case Unclosed(at) => TrimSpace(TrimSpace(s[..at]))
    case Block(from, to) => Stripped(s[..from] + s[to..], open, close)
  }

  method StripMemoryMarkers(response: string) returns (out: string)
    ensures out == Stripped(response, START_MARKER, END_MARKER)
  {
    out := StripBlocks(response, START_MARKER, END_MARKER);
  }

  method StripBlocks(response: string, startMarker: string, endMarker: string) returns (out: string)
    requires endMarker != ""
    ensures out == Stripped(response, startMarker, endMarker)
  {
    var text := response;
    while true
      invariant Stripped(response, startMarker, endMarker) == Stripped(text, startMarker, endMarker)
      decreases |text|
    {
      var startIdx := Index(text, startMarker);
      if startIdx < 0 { break; }
      var endIdx := Index(text[startIdx..], endMarker);
      if endIdx < 0 {
        return TrimSpace(TrimSpace(text[..startIdx]));
      }
      text := text[..startIdx] + text[startIdx + endIdx + |endMarker|..];
    }
    return TrimSpace(text);
  }

  /** Whatever the nesting of markers, and even when removing a block joins its sides into a new
      marker, what is left contains no start marker. */
  lemma {:induction false} StrippedHasNoMarker(s: string, open: string, close: string)
    requires open != "" && close != ""
    ensures Absent(Stripped(s, open, close), open)
    decreases |s|
  {
    BeforeBlock(s, open, close);
    match FindBlock(s, open, close)
    case NoMarker =>
      TrimKeepsAbsent(s, open);
    case Unclosed(at) =>
      TrimKeepsAbsent(s[..at], open);
      TrimKeepsAbsent(TrimSpace(s[..at]), open);
    case Block(from, to) =>
      StrippedHasNoMarker(s[..from] + s[to..], open, close);
  }

  /** The text around the first block survives: only the block goes. */
  lemma StrippedRemovesBlock(before: string, block: string, after: string, open: string, close: string)
    requires close != "" && Index(before + block + after, open) == |before|
    requires Index(block, close) >= 0 && |block| == Index(block, close) + |close|
    ensures Stripped(before + block + after, open, close) == Stripped(before + after, open, close)
  {
    var s := before + block + after;
    CloseInBlock(block, after, close);
    assert s[|before|..] == block + after;
    assert FindBlock(s, open, close) == Block(|before|, |before| + |block|);
    assert s[..|before|] == before && s[|before| + |block|..] == after;
  }

  /** Without a start marker, only white space around the text goes. */
  lemma StrippedKeepsText(s: string, open: string, close: string)
    requires close != "" && Absent(s, open)
    ensures Stripped(s, open, close) == TrimSpace(s)
  {
    IndexMeaning(s, open);
  }

  /** A block that nothing closes runs to the end; the text before it stays, less white space around. */
  lemma StrippedCutsUnclosed(before: string, rest: string, open: string, close: string)
    requires close != "" && Index(before + rest, open) == |before| && Absent(rest, close)
    ensures Stripped(before + rest, open, close) == TrimSpace(before)
  {
    var s := before + rest;
    assert s[|before|..] == rest && s[..|before|] == before;
    IndexMeaning(rest, close);
    assert FindBlock(s, open, close) == Unclosed(|before|);
    TrimTwice(before);
  }

  lemma CloseInBlock(block: string, after: string, close: string)
    requires Index(block, close) >= 0
    ensures Index(block + after, close) == Index(block, close)
  {
    IndexMeaning(block, close);
    var end := Index(block, close);
    assert (block + after)[0..|block|] == block;
    forall k: nat | k <= end ensures OccursAt(block + after, close, k) <==> OccursAt(block, close, k) {
      OccursInSlice(block + after, 0, |block|, close, k);
    }
    FirstIsIndexFrom(block + after, close, 0, end);
  }
}
