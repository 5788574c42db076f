/** Reading a file page by page: whole lines under a byte cap, with a hint where to go on. */
module ReadFile {
  import opened ByteText
  import opened Search
  import opened Pieces
  import opened TextCut
  import opened Decimals

  // ----- lines

  predicate EndsInNewline(content: bytes) {
    content != [] && content[|content| - 1] == NEWLINE
  }

  /** The lines of a file; what follows a final newline is not one. */
  function Lines(content: bytes): seq<bytes> {
    var ls := Split(content, NL);
    if EndsInNewline(content) then ls[..|ls| - 1] else ls
  }

  /** A file less one final newline. */
  function Body(content: bytes): bytes {
    if EndsInNewline(content) then content[..|content| - 1] else content
  }

  lemma LinesJoin(content: bytes)
    ensures Lines(content) != [] && NoNewlines(Lines(content)) && Join(Lines(content), NL) == Body(content)
  {
    JoinSplit(content, NL);
    SplitFromHasNone(content, 0);
    if EndsInNewline(content) {
      var body := Body(content);
      var ls := Split(body, NL);
      JoinSplit(body, NL);
      SplitFromHasNone(body, 0);
      JoinAppend(ls, [[]], NL);
      assert content == body + NL + [];
      SplitJoin(ls + [[]]);
      assert (ls + [[]])[..|ls|] == ls;
    }
  }

  /** They are the only texts without newlines that make up the file, one final newline left out. */
  lemma LinesExactly(content: bytes, ls: seq<bytes>)
    ensures ls == Lines(content)
      <==> && ls != [] && NoNewlines(ls)
           && Join(ls, NL) == (if content != [] && content[|content| - 1] == 10 then content[..|content| - 1] else content)
  {
    LinesJoin(content);
    SplitJoin(Lines(content));
    if ls != [] && NoNewlines(ls) { SplitJoin(ls); }
  }

  /** The most lines that fit with their newlines. */
  function Fit(ls: seq<bytes>, cap: nat): (k: nat)
    ensures k <= |ls|
  {
    if ls == [] || Width(ls) <= cap then |ls| else Fit(ls[..|ls| - 1], cap)
  }

  lemma {:induction false} FitIsMost(ls: seq<bytes>, cap: nat)
    ensures Width(ls[..Fit(ls, cap)]) <= cap
    ensures Fit(ls, cap) < |ls| ==> Width(ls[..Fit(ls, cap) + 1]) > cap
  {
    assert ls[..|ls|] == ls;
    if ls != [] && Width(ls) > cap {
      var init := ls[..|ls| - 1];
      FitIsMost(init, cap);
      var k := Fit(init, cap);
      assert init[..k] == ls[..k] && (k < |init| ==> init[..k + 1] == ls[..k + 1]);
    }
  }

  // ----- pages

  datatype Page =
    | Rest(text: bytes)
    | PastEnd(offset: nat, total: nat)
    | Stuck(head: bytes, offset: nat, total: nat, cap: nat)
    | Cut(text: bytes, last: nat, total: nat)
    | Shown(text: bytes, offset: nat, last: nat, total: nat)

  function Render(p: Page): bytes {
    match p
    case Rest(text) => text
    case PastEnd(offset, total) =>
      Utf8("Error: offset " + Decimal(offset) + " is past the end of the file (" + Decimal(total) + " lines)")
    case Stuck(head, offset, total, cap) =>
      head + Utf8("\n... (truncated mid-line " + Decimal(offset) + " of " + Decimal(total) + "; line exceeds the "
                  + Decimal(cap) + "-byte cap, so line-based pagination cannot continue)")
    case Cut(text, last, total) =>
      text + Utf8("\n... (truncated at line " + Decimal(last) + " of " + Decimal(total) + "; continue with offset="
                  + Decimal(last + 1) + ")")
    case Shown(text, offset, last, total) =>
      text + Utf8("\n... (showing lines " + Decimal(offset) + "-" + Decimal(last) + " of " + Decimal(total)
                  + "; continue with offset=" + Decimal(last + 1) + ")")
  }

  /** An argument counts when it is a number above 1; the fraction is dropped. */
  function OffsetOf(arg: Option<real>): (offset: nat)
    ensures offset >= 1
    ensures arg.Some? && arg.value > 1.0 ==> offset as real <= arg.value < offset as real + 1.0
    ensures arg.None? || arg.value <= 1.0 ==> offset == 1
  {
    if arg.Some? && arg.value > 1.0 then arg.value.Floor else 1
  }

  /** No limit is zero. */
  function LimitOf(arg: Option<real>): (limit: nat)
    ensures arg.Some? && arg.value > 0.0 ==> limit as real <= arg.value < limit as real + 1.0
    ensures arg.None? || arg.value <= 0.0 ==> limit == 0
  {
    if arg.Some? && arg.value > 0.0 then arg.value.Floor else 0
  }

  /** The file fits: it is returned as it is, final newline and all. */
  predicate Whole(content: bytes, offset: nat, limit: nat, cap: nat) {
    offset == 1 && limit == 0 && |content| <= cap
  }

  /** The last line a request covers. */
  function LastLine(total: nat, offset: nat, limit: nat): (end: nat)
    requires 1 <= offset <= total
    ensures offset <= end <= total && (limit == 0 ==> end == total)
  {
    if limit > 0 && offset - 1 + limit < total then offset - 1 + limit else total
  }

  /** The page of the selected lines, told by lines alone. */
  function PageOfSelected(sel: seq<bytes>, offset: nat, end: nat, total: nat, cap: nat): Page
    requires 1 <= offset
  {
    var k := Fit(sel, cap);
    if |Join(sel, NL)| <= cap then
      if end < total then Shown(Join(sel, NL), offset, end, total) else Rest(Join(sel, NL))
    else if k == 0 then Stuck(BackOff(Join(sel, NL)[..cap], UTF_MAX - 1), offset, total, cap)
    else Cut(Join(sel[..k], NL), offset - 1 + k, total)
  }

  /** The page of these lines from this one on. */
  function PageOfLines(ls: seq<bytes>, offset: nat, limit: nat, cap: nat): Page
    requires 1 <= offset <= |ls|
  {
    var end := LastLine(|ls|, offset, limit);
    PageOfSelected(ls[offset - 1..end], offset, end, |ls|, cap)
  }

  function PageOf(content: bytes, offset: nat, limit: nat, cap: nat): Page
    requires offset >= 1
  {
    if Whole(content, offset, limit, cap) then Rest(content)
    else if offset > |Lines(content)| then PastEnd(offset, |Lines(content)|)
    else PageOfLines(Lines(content), offset, limit, cap)
  }

  /** strings.LastIndexByte for a newline. */
  function LastNewline(s: bytes): (r: int)
    ensures -1 <= r < |s|
  {
    if s == [] then -1 else if s[|s| - 1] == NEWLINE then |s| - 1 else LastNewline(s[..|s| - 1])
  }

  lemma {:induction false} LastNewlineIs(s: bytes, at: int)
    requires -1 <= at < |s| && (at >= 0 ==> s[at] == NEWLINE)
    requires forall i | at < i < |s| :: s[i] != NEWLINE
    ensures LastNewline(s) == at
  {
    if s != [] && at < |s| - 1 { LastNewlineIs(s[..|s| - 1], at); }
  }

  lemma JoinTakeDrop(ls: seq<bytes>, k: nat)
    requires 0 < k < |ls|
    ensures Join(ls, NL) == Join(ls[..k], NL) + NL + Join(ls[k..], NL)
  {
    assert ls == ls[..k] + ls[k..];
    JoinAppend(ls[..k], ls[k..], NL);
  }

  /** Joined lines start with the first of them. */
  lemma JoinStarts(ls: seq<bytes>)
    requires ls != []
    ensures |ls[0]| <= |Join(ls, NL)| && Join(ls, NL)[..|ls[0]|] == ls[0]
  {
  }

  /** Cutting joined lines at the last newline under the cap keeps the lines that fit. */
  lemma CutKeepsLinesThatFit(ls: seq<bytes>, cap: nat)
    requires ls != [] && NoNewlines(ls) && |Join(ls, NL)| > cap
    ensures var s, k := Join(ls, NL), Fit(ls, cap);
      && k < |ls| && LastNewline(s[..cap]) == (if k == 0 then -1 else |Join(ls[..k], NL)|)
      && (k > 0 ==> |Join(ls[..k], NL)| < cap && s[..|Join(ls[..k], NL)|] == Join(ls[..k], NL)
                    && Count(Join(ls[..k], NL), NL) == k - 1)
  {
    var s, k := Join(ls, NL), Fit(ls, cap);
    FitIsMost(ls, cap);
    JoinWidth(ls);
    assert ls[..|ls|] == ls;
    assert ls[..k + 1][..k] == ls[..k];
    if k == 0 {
      JoinStarts(ls);
      assert Width(ls[..0]) == 0 && |ls[0]| >= cap;
      assert forall i | 0 <= i < cap :: s[i] == s[..|ls[0]|][i];
      LastNewlineIs(s[..cap], -1);
    } else {
      var kept := Join(ls[..k], NL);
      JoinWidth(ls[..k]);
      JoinTakeDrop(ls, k);
      JoinStarts(ls[k..]);
      NewlineThenLine(s, kept, ls[k], Join(ls[k..], NL), cap);
      SplitJoin(ls[..k]);
      PiecesFrom(kept, NL, 0);
    }
  }

  lemma NewlineThenLine(s: bytes, kept: bytes, line: bytes, tail: bytes, cap: nat)
    requires s == kept + NL + tail && |line| <= |tail| && tail[..|line|] == line && NEWLINE !in line
    requires |kept| < cap <= |kept| + 1 + |line|
    ensures LastNewline(s[..cap]) == |kept| && s[..|kept|] == kept
  {
    forall i | |kept| < i < cap ensures s[i] != NEWLINE {
      assert s[i] == tail[..|line|][i - |kept| - 1];
    }
    LastNewlineIs(s[..cap], |kept|);
  }

  /** readFileTool from the file's contents on. */
  method ReadFileTool(content: bytes, offsetArg: Option<real>, limitArg: Option<real>, maxBytes: nat) returns (out: bytes)
    ensures out == Render(PageOf(content, OffsetOf(offsetArg), LimitOf(limitArg), maxBytes))
  {
    var offset := 1;
    if offsetArg.Some? && offsetArg.value > 1.0 { offset := offsetArg.value.Floor; }
    var limit := 0;
    if limitArg.Some? && limitArg.value > 0.0 { limit := limitArg.value.Floor; }
    var page := ReadPage(content, offset, limit, maxBytes);
    out := Render(page);
  }

  lemma PartOfPrefix(ls: seq<bytes>, n: nat, i: nat, j: nat)
    requires i <= j <= n <= |ls|
    ensures ls[..n][i..j] == ls[i..j]
  {
  }

  method ReadPage(content: bytes, offset: nat, limit: nat, maxBytes: nat) returns (p: Page)
    requires offset >= 1
    ensures p == PageOf(content, offset, limit, maxBytes)
  {
    if offset == 1 && limit == 0 && |content| <= maxBytes { return Rest(content); }
    var lines := Split(content, NL);
    var total := |lines|;
    if EndsInNewline(content) { total := total - 1; }
    ghost var ls := Lines(content);
    assert ls == lines[..total];
    if offset > total { return PastEnd(offset, total); }
    var end := total;
    if limit > 0 && offset - 1 + limit < end { end := offset - 1 + limit; }
    assert end == LastLine(total, offset, limit);
    PartOfPrefix(lines, total, offset - 1, end);
    LinesJoin(content);
    p := SelectedPage(lines[offset - 1..end], offset, end, total, maxBytes);
  }

  /** The page of the selected lines. */
  method SelectedPage(lines: seq<bytes>, offset: nat, end: nat, total: nat, maxBytes: nat) returns (p: Page)
    requires lines != [] && NoNewlines(lines) && 1 <= offset <= end <= total
    ensures p == PageOfSelected(lines, offset, end, total, maxBytes)
  {
    var selected := Join(lines, NL);
    if |selected| > maxBytes {
      CutKeepsLinesThatFit(lines, maxBytes);
      var cut := LastNewline(selected[..maxBytes]);
      if cut < 0 {
        var head := TruncateAtUtf8Boundary(selected, maxBytes);
        return Stuck(head, offset, total, maxBytes);
      }
      var lastLine := offset - 1 + Count(selected[..cut], NL) + 1;
      return Cut(selected[..cut], lastLine, total);
    }
    if end < total { return Shown(selected, offset, end, total); }
    return Rest(selected);
  }

  // ----- following the hints

  function NextOffset(p: Page): Option<nat> {
    match p
    case Cut(_, last, _) => Some(last + 1)
    case Shown(_, _, last, _) => Some(last + 1)
    case _ => None
  }

  /** The page holds whole lines from this one on, to the end if no hint follows; or this line sticks. */
  predicate Covered(p: Page, ls: seq<bytes>, offset: nat) {
    && 1 <= offset <= |ls|
    && match p
       case Rest(text) => text == Join(ls[offset - 1..], NL)
       case Stuck(_, at, _, _) => at == offset
       case Cut(text, last, _) => offset <= last < |ls| && text == Join(ls[offset - 1..last], NL)
       case Shown(text, _, last, _) => offset <= last < |ls| && text == Join(ls[offset - 1..last], NL)
       case PastEnd(_, _) => false
  }

  lemma PageCovers(ls: seq<bytes>, offset: nat, limit: nat, cap: nat)
    requires 1 <= offset <= |ls| && NoNewlines(ls)
    ensures Covered(PageOfLines(ls, offset, limit, cap), ls, offset)
  {
    var end := LastLine(|ls|, offset, limit);
    var sel := ls[offset - 1..end];
    assert end == |ls| ==> sel == ls[offset - 1..];
    if |Join(sel, NL)| > cap {
      CutKeepsLinesThatFit(sel, cap);
      SliceOfSlice(ls, offset - 1, end, 0, Fit(sel, cap));
      assert sel[..Fit(sel, cap)] == sel[0..Fit(sel, cap)];
    }
  }

  // ----- how much a page holds

  /** The last line asked for: all lines without a limit, or at most that many. */
  function Wanted(total: nat, offset: nat, limit: nat): int {
    if limit == 0 || total < offset + limit then total else offset + limit - 1
  }

  /** The page holds every line asked for if they fit together under the cap, and says so when more
      follow. Otherwise it is cut: it holds as many whole lines as fit with their newlines, and the
      next line no longer does; or, when not even the first fits, the start of that line. */
  predicate Fills(p: Page, ls: seq<bytes>, offset: nat, limit: nat, cap: nat)
    requires 1 <= offset <= |ls|
  {
    var end := Wanted(|ls|, offset, limit);
    && offset <= end <= |ls|
    && var all := Join(ls[offset - 1..end], NL);
    match p
    case Rest(text) => end == |ls| && text == all && |all| <= cap
    case Shown(text, from, last, total) =>
      text == all && |all| <= cap && from == offset && last == end < |ls| == total
    case Cut(text, last, total) =>
      && |all| > cap && total == |ls| && offset <= last < end
      && text == Join(ls[offset - 1..last], NL) && |text| < cap <= |Join(ls[offset - 1..last + 1], NL)|
    case Stuck(head, at, total, most) =>
      && |all| > cap && at == offset && total == |ls| && most == cap && |ls[offset - 1]| >= cap
      && cap - 3 <= |head| <= cap && head == ls[offset - 1][..|head|]
    case PastEnd(_, _) => false
  }

  lemma CutFills(ls: seq<bytes>, offset: nat, end: nat, cap: nat)
    requires 1 <= offset <= end <= |ls| && NoNewlines(ls[offset - 1..end]) && |Join(ls[offset - 1..end], NL)| > cap
    ensures var sel := ls[offset - 1..end]; var k := Fit(sel, cap);
      && k < |sel| && (k > 0 ==> && Join(sel[..k], NL) == Join(ls[offset - 1..offset - 1 + k], NL)
                                 && |Join(sel[..k], NL)| < cap <= |Join(ls[offset - 1..offset + k], NL)|)
      && (k == 0 ==> cap <= |ls[offset - 1]| && Join(sel, NL)[..cap] == ls[offset - 1][..cap])
  {
    var sel := ls[offset - 1..end];
    var k := Fit(sel, cap);
    CutKeepsLinesThatFit(sel, cap);
    FitIsMost(sel, cap);
    JoinWidth(sel[..k + 1]);
    SliceOfSlice(ls, offset - 1, end, 0, k);
    SliceOfSlice(ls, offset - 1, end, 0, k + 1);
    assert sel[..k] == sel[0..k] && sel[..k + 1] == sel[0..k + 1];
    if k == 0 { FirstFills(sel, cap); }
  }

  lemma FirstFills(sel: seq<bytes>, cap: nat)
    requires sel != [] && |Join(sel, NL)| > cap && Fit(sel, cap) == 0
    ensures cap <= |sel[0]| && Join(sel, NL)[..cap] == sel[0][..cap]
  {
    FirstIsLong(sel, cap);
    JoinStarts(sel);
    assert Join(sel, NL)[..cap] == Join(sel, NL)[..|sel[0]|][..cap];
  }

  lemma PageFills(ls: seq<bytes>, offset: nat, limit: nat, cap: nat)
    requires 1 <= offset <= |ls| && NoNewlines(ls)
    ensures Fills(PageOfLines(ls, offset, limit, cap), ls, offset, limit, cap)
  {
    var end := LastLine(|ls|, offset, limit);
    var sel := ls[offset - 1..end];
    assert end == Wanted(|ls|, offset, limit);
    if |Join(sel, NL)| > cap {
      CutFills(ls, offset, end, cap);
      BackOffKeepsPrefix(Join(sel, NL)[..cap], UTF_MAX - 1);
    }
  }

  /** Every answer: the file as it is when no page was asked for and it fits; an error past its last
      line; and otherwise a page that holds as much as it can of what was asked for. */
  lemma PageExactly(content: bytes, offset: nat, limit: nat, cap: nat)
    requires offset >= 1
    ensures var p, ls := PageOf(content, offset, limit, cap), Lines(content);
      if offset == 1 && limit == 0 && |content| <= cap then p == Rest(content)
      else if offset > |ls| then p == PastEnd(offset, |ls|)
      else Fills(p, ls, offset, limit, cap)
  {
    LinesJoin(content);
    if offset <= |Lines(content)| { PageFills(Lines(content), offset, limit, cap); }
  }

  lemma Utf8Tail(x: string, a: string, d: string, b: string)
    ensures Utf8(x + a + d + b) == Utf8(x) + Utf8(a + d + b)
  {
    assert x + a + d + b == x + (a + d + b);
    Utf8Append(x, a + d + b);
  }

  /** This ends with the offset to continue with. */
  ghost predicate EndsWithHint(printed: bytes, text: bytes, next: nat) {
    exists x: bytes :: printed == text + x + Utf8("; continue with offset=" + Decimal(next) + ")")
  }

  lemma CutHint(text: bytes, last: nat, total: nat)
    ensures EndsWithHint(Render(Cut(text, last, total)), text, last + 1)
  {
    HintTail(text, "\n... (truncated at line " + Decimal(last) + " of " + Decimal(total), last + 1);
  }

  lemma ShownHint(text: bytes, offset: nat, last: nat, total: nat)
    ensures EndsWithHint(Render(Shown(text, offset, last, total)), text, last + 1)
  {
    HintTail(text, "\n... (showing lines " + Decimal(offset) + "-" + Decimal(last) + " of " + Decimal(total), last + 1);
  }

  /** What is printed of a page starts with its text, and when more is to come ends with the offset to
      continue with. */
  lemma HintIsPrinted(p: Page)
    ensures p.Rest? ==> Render(p) == p.text
    ensures p.Stuck? ==> p.head <= Render(p)
    ensures NextOffset(p).Some? ==> EndsWithHint(Render(p), p.text, NextOffset(p).value)
  {
    match p
    case Cut(text, last, total) => CutHint(text, last, total);
    case Shown(text, offset, last, total) => ShownHint(text, offset, last, total);
    case _ =>
  }

  lemma HintTail(text: bytes, x: string, next: nat)
    ensures var hint := Utf8("; continue with offset=" + Decimal(next) + ")");
      text + Utf8(x + "; continue with offset=" + Decimal(next) + ")") == text + Utf8(x) + hint
  {
    Utf8Tail(x, "; continue with offset=", Decimal(next), ")");
    Associate(text, Utf8(x), Utf8("; continue with offset=" + Decimal(next) + ")"));
  }

  /** A hint names a later line of the file. */
  lemma HintAdvances(content: bytes, offset: nat, limit: nat, cap: nat)
    requires offset >= 1
    ensures var next := NextOffset(PageOf(content, offset, limit, cap));
      next.Some? ==> offset < next.value <= |Lines(content)|
  {
    LinesJoin(content);
    if offset <= |Lines(content)| { PageCovers(Lines(content), offset, limit, cap); }
  }

  /** The pages of a reader who starts here and follows each hint, with any limit at each offset. */
  function Follow(content: bytes, offset: nat, limits: nat -> nat, cap: nat): (ps: seq<Page>)
    requires offset >= 1
    ensures ps != []
    decreases |Lines(content)| - offset, 1
  {
    FollowFrom(content, offset, limits, cap, PageOf(content, offset, limits(offset), cap))
  }

  function FollowFrom(content: bytes, offset: nat, limits: nat -> nat, cap: nat, p: Page): (ps: seq<Page>)
    requires offset >= 1 && p == PageOf(content, offset, limits(offset), cap)
    ensures ps != []
    decreases |Lines(content)| - offset, 0
  {
    HintAdvances(content, offset, limits(offset), cap);
    match NextOffset(p)
    case None => [p]
    case Some(next) => [p] + Follow(content, next, limits, cap)
  }

  lemma FollowStep(content: bytes, offset: nat, limits: nat -> nat, cap: nat)
    requires offset >= 1
    ensures var p, ps := PageOf(content, offset, limits(offset), cap), Follow(content, offset, limits, cap);
      && ps[0] == p
      && (NextOffset(p).None? ==> ps == [p])
      && (NextOffset(p).Some? ==> offset < NextOffset(p).value <= |Lines(content)|
                                  && ps[1..] == Follow(content, NextOffset(p).value, limits, cap)
                                  && Last(ps) == Last(Follow(content, NextOffset(p).value, limits, cap)))
  {
    HintAdvances(content, offset, limits(offset), cap);
    var p := PageOf(content, offset, limits(offset), cap);
    assert Follow(content, offset, limits, cap) == FollowFrom(content, offset, limits, cap, p);
  }

  function Last(ps: seq<Page>): Page
    requires ps != []
  {
    ps[|ps| - 1]
  }

  /** The pages are consecutive runs of whole lines from this one on, to the end or to a line that sticks. */
  predicate Cover(ps: seq<Page>, ls: seq<bytes>, offset: nat) {
    && ps != [] && Covered(ps[0], ls, offset)
    && if NextOffset(ps[0]).Some? then Cover(ps[1..], ls, NextOffset(ps[0]).value) else |ps| == 1
  }

  /** Following the hints, whatever the limits, no line is lost, repeated or split before the end or a
      line that sticks. */
  lemma {:induction false} FollowCovers(content: bytes, offset: nat, limits: nat -> nat, cap: nat)
    requires 1 <= offset <= |Lines(content)| && !Whole(content, offset, limits(offset), cap)
    ensures Cover(Follow(content, offset, limits, cap), Lines(content), offset)
    decreases |Lines(content)| - offset
  {
    var p := PageOf(content, offset, limits(offset), cap);
    LinesJoin(content);
    FollowStep(content, offset, limits, cap);
    PageCovers(Lines(content), offset, limits(offset), cap);
    if NextOffset(p).Some? { FollowCovers(content, NextOffset(p).value, limits, cap); }
  }

  function Texts(ps: seq<Page>): seq<bytes> {
    if ps == [] then [] else (if ps[0].PastEnd? || ps[0].Stuck? then [] else [ps[0].text]) + Texts(ps[1..])
  }

  lemma {:induction false} CoverJoins(ps: seq<Page>, ls: seq<bytes>, offset: nat)
    requires Cover(ps, ls, offset)
    ensures Last(ps).Rest? || Last(ps).Stuck?
    ensures Last(ps).Rest? ==> Texts(ps) != [] && Join(Texts(ps), NL) == Join(ls[offset - 1..], NL)
  {
    if ps[0].Cut? || ps[0].Shown? {
      var last := ps[0].last;
      CoverJoins(ps[1..], ls, last + 1);
      assert Last(ps) == Last(ps[1..]);
      if Last(ps).Rest? {
        JoinFirst(ps[0].text, Texts(ps[1..]), NL);
        var sel := ls[offset - 1..];
        var k := last - (offset - 1);
        JoinTakeDrop(sel, k);
        assert sel[..k] == ls[offset - 1..last] && sel[k..] == ls[last..];
      }
    } else {
      assert Texts(ps[1..]) == [];
    }
  }

  /** Read from the first line on, following every hint: unless a line sticks, the pages' lines joined
      are the file, less one final newline when it took more than one request. */
  lemma PagesJoinToFile(content: bytes, limits: nat -> nat, cap: nat)
    ensures var ps := Follow(content, 1, limits, cap);
      && (Last(ps).Rest? || Last(ps).Stuck?)
      && (Last(ps).Rest? ==>
            Join(Texts(ps), NL) == if Whole(content, 1, limits(1), cap) then content else Body(content))
  {
    LinesJoin(content);
    if Whole(content, 1, limits(1), cap) {
      FollowStep(content, 1, limits, cap);
      assert Texts([Rest(content)]) == [content] + Texts([]);
    } else {
      FollowCovers(content, 1, limits, cap);
      CoverJoins(Follow(content, 1, limits, cap), Lines(content), 1);
      assert Lines(content)[0..] == Lines(content);
    }
  }

  // ----- when it sticks

  /** A line that fills a page and more: with its newline, when it has one that counts. */
  predicate Long(ls: seq<bytes>, i: nat, cap: nat)
    requires i < |ls|
  {
    |ls[i]| > cap || (|ls[i]| == cap && i + 1 < |ls|)
  }

  lemma {:induction false} WidthHas(ls: seq<bytes>, i: nat)
    requires i < |ls|
    ensures |ls[i]| + 1 <= Width(ls)
  {
    if i < |ls| - 1 {
      WidthHas(ls[..|ls| - 1], i);
    }
  }

  lemma LineInJoin(ls: seq<bytes>, i: nat, cap: nat)
    requires i < |ls| && |Join(ls, NL)| <= cap
    ensures !Long(ls, i, cap)
  {
    JoinWidth(ls);
    WidthHas(ls, i);
    if i + 1 < |ls| {
      WidthHas(ls[..|ls| - 1], i);
    }
  }

  ghost predicate LongFrom(ls: seq<bytes>, from: nat, cap: nat) {
    exists i | from <= i < |ls| :: Long(ls, i, cap)
  }

  /** A page without limit, and where long lines are. */
  lemma PageAndLongLines(ls: seq<bytes>, offset: nat, cap: nat)
    requires 1 <= offset <= |ls| && NoNewlines(ls)
    ensures var p := PageOfLines(ls, offset, 0, cap);
      && (p.Rest? ==> forall i | offset - 1 <= i < |ls| :: !Long(ls, i, cap))
      && (p.Stuck? ==> Long(ls, offset - 1, cap))
      && (p.Cut? ==> offset <= p.last < |ls| && forall i | offset - 1 <= i < p.last :: !Long(ls, i, cap))
  {
    var sel := ls[offset - 1..];
    assert ls[offset - 1..|ls|] == sel;
    if |Join(sel, NL)| <= cap {
      forall i | offset - 1 <= i < |ls| ensures !Long(ls, i, cap) { LineInJoin(sel, i - (offset - 1), cap); }
    } else {
      CutKeepsLinesThatFit(sel, cap);
      FitIsMost(sel, cap);
      var k := Fit(sel, cap);
      if k == 0 {
        FirstIsLong(sel, cap);
      } else {
        forall i | offset - 1 <= i < offset - 1 + k ensures !Long(ls, i, cap) { WidthHas(sel[..k], i - (offset - 1)); }
      }
    }
  }

  lemma FirstIsLong(sel: seq<bytes>, cap: nat)
    requires sel != [] && |Join(sel, NL)| > cap && Fit(sel, cap) == 0
    ensures Long(sel, 0, cap)
  {
    FitIsMost(sel, cap);
    JoinWidth(sel);
    assert sel[..1][..0] == [] && Width(sel[..1]) == Width([]) + |sel[0]| + 1;
    if |sel| == 1 { assert sel == sel[..1]; }
  }

  lemma LongLater(ls: seq<bytes>, from: nat, to: nat, cap: nat)
    requires from <= to <= |ls| && forall i | from <= i < to :: !Long(ls, i, cap)
    ensures LongFrom(ls, from, cap) <==> LongFrom(ls, to, cap)
  {
  }

  lemma PageAndLongFrom(ls: seq<bytes>, offset: nat, cap: nat)
    requires 1 <= offset <= |ls| && NoNewlines(ls)
    ensures var p := PageOfLines(ls, offset, 0, cap);
      && !p.Shown? && !p.PastEnd?
      && (p.Rest? ==> !LongFrom(ls, offset - 1, cap))
      && (p.Stuck? ==> LongFrom(ls, offset - 1, cap))
      && (p.Cut? ==> (LongFrom(ls, offset - 1, cap) <==> LongFrom(ls, p.last, cap)))
  {
    var p := PageOfLines(ls, offset, 0, cap);
    PageAndLongLines(ls, offset, cap);
    if p.Cut? { LongLater(ls, offset - 1, p.last, cap); }
  }

  function NoLimit(offset: nat): nat {
    0
  }

  lemma LastFollowed(content: bytes, offset: nat, limits: nat -> nat, cap: nat, p: Page)
    requires offset >= 1 && p == PageOf(content, offset, limits(offset), cap)
    ensures Last(Follow(content, offset, limits, cap))
      == if NextOffset(p).None? then p else Last(Follow(content, NextOffset(p).value, limits, cap))
    ensures NextOffset(p).Some? ==> offset < NextOffset(p).value <= |Lines(content)|
  {
    FollowStep(content, offset, limits, cap);
  }

  lemma {:induction false} SticksFrom(content: bytes, offset: nat, cap: nat)
    requires 1 <= offset <= |Lines(content)| && !Whole(content, offset, 0, cap)
    ensures Last(Follow(content, offset, NoLimit, cap)).Stuck? <==> LongFrom(Lines(content), offset - 1, cap)
    decreases |Lines(content)| - offset
  {
    var p, ls := PageOf(content, offset, 0, cap), Lines(content);
    LastFollowed(content, offset, NoLimit, cap, p);
    LinesJoin(content);
    PageAndLongFrom(ls, offset, cap);
    if p.Cut? { SticksFrom(content, p.last + 1, cap); }
  }

  /** Without limits, reading gets stuck exactly when some line is longer than the cap, or as long as
      the cap and not the last. */
  lemma SticksExactlyOnLongLines(content: bytes, cap: nat)
    ensures Last(Follow(content, 1, NoLimit, cap)).Stuck? <==> LongFrom(Lines(content), 0, cap)
  {
    LinesJoin(content);
    if Whole(content, 1, 0, cap) {
      var ls := Lines(content);
      forall i | 0 <= i < |ls| ensures !Long(ls, i, cap) { LineInJoin(ls, i, cap); }
    } else {
      SticksFrom(content, 1, cap);
    }
    FollowStep(content, 1, NoLimit, cap);
  }

  /** With every line shorter than the cap, reading never gets stuck, whatever the limits. */
  lemma {:induction false} ShortLinesNeverStick(content: bytes, offset: nat, limits: nat -> nat, cap: nat)
    requires 1 <= offset <= |Lines(content)| && forall i | 0 <= i < |Lines(content)| :: |Lines(content)[i]| < cap
    ensures Last(Follow(content, offset, limits, cap)).Rest?
    decreases |Lines(content)| - offset
  {
    var p, ls := PageOf(content, offset, limits(offset), cap), Lines(content);
    LinesJoin(content);
    FollowStep(content, offset, limits, cap);
    if !Whole(content, offset, limits(offset), cap) {
      PageCovers(ls, offset, limits(offset), cap);
      ShortLinesFit(ls, offset, limits(offset), cap);
      if NextOffset(p).Some? { ShortLinesNeverStick(content, NextOffset(p).value, limits, cap); }
    }
  }

  lemma ShortLinesFit(ls: seq<bytes>, offset: nat, limit: nat, cap: nat)
    requires 1 <= offset <= |ls| && NoNewlines(ls) && forall i | 0 <= i < |ls| :: |ls[i]| < cap
    ensures !PageOfLines(ls, offset, limit, cap).Stuck?
  {
    var sel := ls[offset - 1..LastLine(|ls|, offset, limit)];
    assert forall i | 0 <= i < |sel| :: sel[i] == ls[offset - 1 + i];
    if |Join(sel, NL)| > cap && Fit(sel, cap) == 0 { FirstIsLong(sel, cap); }
  }

  /** Every file of lines shorter than the cap comes back from its pages, whatever the limits. */
  lemma PagesOfShortLines(content: bytes, limits: nat -> nat, cap: nat)
    requires forall i | 0 <= i < |Lines(content)| :: |Lines(content)[i]| < cap
    ensures Join(Texts(Follow(content, 1, limits, cap)), NL)
      == if Whole(content, 1, limits(1), cap) then content else Body(content)
  {
    LinesJoin(content);
    ShortLinesNeverStick(content, 1, limits, cap);
    PagesJoinToFile(content, limits, cap);
  }
}
