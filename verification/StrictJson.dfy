/** The strict checks made before canonicalizing: surrogate escapes over the raw bytes, and repeated
    keys over the decoder's token stream. */
module StrictJson {
  import opened ByteText
  import opened CanonicalJson
  import opened CanonicalForm

  // ----- rejectLoneSurrogates

  datatype Verdict = Accepted | ShortEscape | BadHex | LoneHigh | BadPair | LoneLow | Unterminated

  const QUOTE: byte := 0x22
  const BACKSLASH: byte := 0x5C
  const LETTER_U: byte := 0x75

  predicate IsHex(b: byte) {
    0x30 <= b <= 0x39 || 0x41 <= b <= 0x46 || 0x61 <= b <= 0x66
  }

  predicate AllHex(b: bytes) {
    forall i | 0 <= i < |b| :: IsHex(b[i])
  }

  function HexDigitValue(b: byte): int {
    if b <= 0x39 then b as int - 0x30 else if b <= 0x46 then b as int - 0x37 else b as int - 0x57
  }

  /** strconv.ParseUint in base 16 on four digits. */
  function CodeUnit(b: bytes): int
    requires |b| == 4
  {
    ((HexDigitValue(b[0]) * 16 + HexDigitValue(b[1])) * 16 + HexDigitValue(b[2])) * 16 + HexDigitValue(b[3])
  }

  predicate IsHigh(u: int) { 0xD800 <= u <= 0xDBFF }

  predicate IsLow(u: int) { 0xDC00 <= u <= 0xDFFF }

  /** The verdict on what remains, `inside` or outside a string. */
  function Scan(raw: bytes, inside: bool): Verdict {
    if raw == [] then if inside then Unterminated else Accepted
    else if !inside then Scan(raw[1..], raw[0] == QUOTE)
    else if raw[0] != BACKSLASH then Scan(raw[1..], raw[0] != QUOTE)
    else if |raw| == 1 then Unterminated
    else if raw[1] != LETTER_U then Scan(raw[2..], true)
    else if |raw| < 6 then ShortEscape
    else if !AllHex(raw[2..6]) then BadHex
    else if IsHigh(CodeUnit(raw[2..6])) then
      if |raw| < 12 || raw[6] != BACKSLASH || raw[7] != LETTER_U then LoneHigh
      else if !AllHex(raw[8..12]) || !IsLow(CodeUnit(raw[8..12])) then BadPair
      else Scan(raw[12..], true)
    else if IsLow(CodeUnit(raw[2..6])) then LoneLow
    else Scan(raw[6..], true)
  }

  method RejectLoneSurrogates(raw: bytes) returns (v: Verdict)
    ensures v == Scan(raw, false)
  {
    var inside, esc := false, false;
    var i := 0;
    while i < |raw|
      invariant 0 <= i <= |raw|
      invariant esc ==> inside && i > 0 && raw[i - 1] == BACKSLASH
      invariant Scan(raw, false) == if esc then Scan(raw[i - 1..], true) else Scan(raw[i..], inside)
    {
      var c := raw[i];
      if !inside {
        if c == QUOTE {
          inside := true;
        }
      } else if esc {
        esc := false;
        ghost var at := raw[i - 1..];
        if c == LETTER_U {
          if i + 4 >= |raw| { return ShortEscape; }
          assert at[2..6] == raw[i + 1..i + 5];
          if !AllHex(raw[i + 1..i + 5]) { return BadHex; }
          var u := CodeUnit(raw[i + 1..i + 5]);
          i := i + 4;
          if IsHigh(u) {
            if i + 6 >= |raw| || raw[i + 1] != BACKSLASH || raw[i + 2] != LETTER_U { return LoneHigh; }
            assert at[8..12] == raw[i + 3..i + 7];
            if !AllHex(raw[i + 3..i + 7]) || !IsLow(CodeUnit(raw[i + 3..i + 7])) { return BadPair; }
            i := i + 6;
            assert at[12..] == raw[i + 1..];
          } else if IsLow(u) {
            return LoneLow;
          } else {
            assert at[6..] == raw[i + 1..];
          }
        }
      } else if c == BACKSLASH {
        esc := true;
      } else if c == QUOTE {
        inside := false;
      }
      i := i + 1;
    }
    if inside { return Unterminated; }
    return Accepted;
  }

  /** The strings of section 7 of RFC 8259, with section 2.1 of RFC 7493's rule on surrogates. */
  datatype Piece =
    | Plain(b: byte)
    | Backslashed(b: byte)
    | Unit(hex: bytes)
    | Pair(high: bytes, low: bytes)

  datatype Segment = Outside(b: byte) | Str(pieces: seq<Piece>)

  predicate PieceOk(p: Piece) {
    match p
    case Plain(b) => b != QUOTE && b != BACKSLASH
    case Backslashed(b) => b != LETTER_U
    case Unit(hex) => |hex| == 4 && AllHex(hex) && !IsHigh(CodeUnit(hex)) && !IsLow(CodeUnit(hex))
    case Pair(high, low) =>
      |high| == 4 && |low| == 4 && AllHex(high) && AllHex(low) && IsHigh(CodeUnit(high)) && IsLow(CodeUnit(low))
  }

  predicate SegmentOk(s: Segment) {
    match s
    case Outside(b) => b != QUOTE
    case Str(ps) => forall i | 0 <= i < |ps| :: PieceOk(ps[i])
  }

  function RenderPiece(p: Piece): bytes {
    match p
    case Plain(b) => [b]
    case Backslashed(b) => [BACKSLASH, b]
    case Unit(hex) => [BACKSLASH, LETTER_U] + hex
    case Pair(high, low) => [BACKSLASH, LETTER_U] + high + [BACKSLASH, LETTER_U] + low
  }

  function RenderPieces(ps: seq<Piece>): bytes {
    if ps == [] then [] else RenderPiece(ps[0]) + RenderPieces(ps[1..])
  }

  function RenderSegment(s: Segment): bytes {
    match s
    case Outside(b) => [b]
    case Str(ps) => [QUOTE] + RenderPieces(ps) + [QUOTE]
  }

  function Render(ss: seq<Segment>): bytes {
    if ss == [] then [] else RenderSegment(ss[0]) + Render(ss[1..])
  }

  ghost predicate WellFormed(raw: bytes) {
    exists ss: seq<Segment> :: (forall i | 0 <= i < |ss| :: SegmentOk(ss[i])) && raw == Render(ss)
  }

  lemma ScanPiece(p: Piece, rest: bytes)
    requires PieceOk(p)
    ensures Scan(RenderPiece(p) + rest, true) == Scan(rest, true)
  {
    var raw := RenderPiece(p) + rest;
    assert raw[|RenderPiece(p)|..] == rest;
    if p.Unit? || p.Pair? {
      assert raw[2..6] == if p.Unit? then p.hex else p.high;
      if p.Pair? { assert raw[8..12] == p.low; }
    }
  }

  lemma {:induction false} ScanPieces(ps: seq<Piece>, rest: bytes)
    requires forall i | 0 <= i < |ps| :: PieceOk(ps[i])
    ensures Scan(RenderPieces(ps) + [QUOTE] + rest, true) == Scan(rest, false)
  {
    if ps == [] {
      assert (RenderPieces(ps) + [QUOTE] + rest)[1..] == rest;
    } else {
      ScanPiece(ps[0], RenderPieces(ps[1..]) + [QUOTE] + rest);
      ScanPieces(ps[1..], rest);
      assert RenderPieces(ps) + [QUOTE] + rest == RenderPiece(ps[0]) + (RenderPieces(ps[1..]) + [QUOTE] + rest);
    }
  }

  lemma RenderString(ps: seq<Piece>, rest: bytes)
    ensures RenderSegment(Str(ps)) + rest == [QUOTE] + (RenderPieces(ps) + [QUOTE] + rest)
  {
  }

  lemma ScanSegment(s: Segment, rest: bytes)
    requires SegmentOk(s)
    ensures Scan(RenderSegment(s) + rest, false) == Scan(rest, false)
  {
    match s
    case Outside(b) =>
      StepOutside(b, rest);
    case Str(ps) =>
      var tail := RenderPieces(ps) + [QUOTE] + rest;
      RenderString(ps, rest);
      StepOutside(QUOTE, tail);
      ScanPieces(ps, rest);
  }

  lemma StepOutside(b: byte, rest: bytes)
    ensures Scan([b] + rest, false) == Scan(rest, b == QUOTE)
  {
    assert ([b] + rest)[1..] == rest;
  }

  lemma {:induction false} ScanSegments(ss: seq<Segment>)
    requires forall i | 0 <= i < |ss| :: SegmentOk(ss[i])
    ensures Scan(Render(ss), false) == Accepted
  {
    if ss != [] {
      ScanSegments(ss[1..]);
      ScanSegment(ss[0], Render(ss[1..]));
    }
  }

  lemma RenderCons(s: Segment, ss: seq<Segment>)
    ensures Render([s] + ss) == RenderSegment(s) + Render(ss)
  {
    assert ([s] + ss)[1..] == ss;
  }

  lemma {:induction false} SegmentsOfAccepted(raw: bytes) returns (ss: seq<Segment>)
    requires Scan(raw, false) == Accepted
    ensures (forall i | 0 <= i < |ss| :: SegmentOk(ss[i])) && raw == Render(ss)
    decreases |raw|
  {
    if raw == [] {
      ss := [];
    } else if raw[0] != QUOTE {
      var rest := SegmentsOfAccepted(raw[1..]);
      ss := [Outside(raw[0])] + rest;
      RenderCons(ss[0], rest);
    } else {
      var ps, rest := PiecesOfAccepted(raw[1..]);
      ss := [Str(ps)] + rest;
      RenderCons(Str(ps), rest);
      RenderString(ps, Render(rest));
      assert raw == [QUOTE] + raw[1..];
    }
  }

  lemma PieceOfAccepted(raw: bytes) returns (p: Piece, rest: bytes)
    requires Scan(raw, true) == Accepted && raw[0] != QUOTE
    ensures PieceOk(p) && raw == RenderPiece(p) + rest && |rest| < |raw| && Scan(rest, true) == Accepted
  {
    p := if raw[0] != BACKSLASH then Plain(raw[0])
         else if raw[1] != LETTER_U then Backslashed(raw[1])
         else if IsHigh(CodeUnit(raw[2..6])) then Pair(raw[2..6], raw[8..12])
         else Unit(raw[2..6]);
    rest := raw[|RenderPiece(p)|..];
  }

  lemma {:induction false} PiecesOfAccepted(raw: bytes) returns (ps: seq<Piece>, ss: seq<Segment>)
    requires Scan(raw, true) == Accepted
    ensures (forall i | 0 <= i < |ps| :: PieceOk(ps[i])) && forall i | 0 <= i < |ss| :: SegmentOk(ss[i])
    ensures raw == RenderPieces(ps) + [QUOTE] + Render(ss)
    decreases |raw|
  {
    if raw[0] == QUOTE {
      ss := SegmentsOfAccepted(raw[1..]);
      ps := [];
    } else {
      var p, rest := PieceOfAccepted(raw);
      var qs;
      qs, ss := PiecesOfAccepted(rest);
      ps := [p] + qs;
      assert ps[1..] == qs;
    }
  }

  /** The scan accepts exactly the byte strings of the grammar. */
  lemma AcceptedIsWellFormed(raw: bytes)
    ensures Scan(raw, false) == Accepted <==> WellFormed(raw)
  {
    if Scan(raw, false) == Accepted {
      var ss := SegmentsOfAccepted(raw);
    }
    if WellFormed(raw) {
      var ss: seq<Segment> :| (forall i | 0 <= i < |ss| :: SegmentOk(ss[i])) && raw == Render(ss);
      ScanSegments(ss);
    }
  }

  // ----- walkStrict

  datatype Token = Open(object: bool) | Close | Name(s: string) | Atom(d: Doc)

  /** The tokens the decoder emits for a document; keys and string values are both string tokens. */
  function Tokens(d: Doc): seq<Token>
    decreases d, 1
  {
    match d
    case DArray(es) => [Open(false)] + ItemTokens(es) + [Close]
    case DObject(ms) => [Open(true)] + FieldTokens(ms) + [Close]
    case DText(s) => [Name(s)]
    case _ => [Atom(d)]
  }

  function ItemTokens(es: seq<Doc>): seq<Token>
    decreases es, 0
  {
    if es == [] then [] else Tokens(es[0]) + ItemTokens(es[1..])
  }

  function FieldTokens(ms: seq<Member>): seq<Token>
    decreases ms, 0
  {
    if ms == [] then [] else [Name(ms[0].key)] + Tokens(ms[0].val) + FieldTokens(ms[1..])
  }

  datatype Walked = Ok(rest: seq<Token>) | DecodeError | KeyNotString | DuplicateKey(key: string) | BadDelimiter

  function Walk(ts: seq<Token>): (w: Walked)
    ensures w.Ok? ==> |w.rest| < |ts|
    decreases |ts|, 0
  {
    if ts == [] then DecodeError
    else
      match ts[0]
      case Open(true) => WalkFields(ts[1..], {})
      case Open(false) => WalkItems(ts[1..])
      case Close => BadDelimiter
      case _ => Ok(ts[1..])
  }

  function WalkItems(ts: seq<Token>): (w: Walked)
    ensures w.Ok? ==> |w.rest| < |ts|
    decreases |ts|, 1
  {
    if ts == [] then DecodeError
    else if ts[0].Close? then Ok(ts[1..])
    else
      var w := Walk(ts);
      if w.Ok? then WalkItems(w.rest) else w
  }

  function WalkFields(ts: seq<Token>, seen: set<string>): (w: Walked)
    ensures w.Ok? ==> |w.rest| < |ts|
    decreases |ts|, 1
  {
    if ts == [] then DecodeError
    else if ts[0].Close? then Ok(ts[1..])
    else if !ts[0].Name? then KeyNotString
    else if ts[0].s in seen then DuplicateKey(ts[0].s)
    else
      var w := Walk(ts[1..]);
      if w.Ok? then WalkFields(w.rest, seen + {ts[0].s}) else w
  }

  /** json.Decoder as the stream of tokens still to come; an empty stream is a decoding error. */
  class Decoder {
    var tokens: seq<Token>

    constructor (ts: seq<Token>)
      ensures tokens == ts
    {
      tokens := ts;
    }

    predicate More()
      reads this
    {
      tokens != [] && !tokens[0].Close?
    }

    method Next() returns (t: Option<Token>)
      modifies this
      ensures old(tokens) == [] ==> t.None? && tokens == []
      ensures old(tokens) != [] ==> t == Some(old(tokens)[0]) && tokens == old(tokens)[1..]
    {
      if tokens == [] { return None; }
      t := Some(tokens[0]);
      tokens := tokens[1..];
    }

    method WalkStrict() returns (w: Walked)
      modifies this
      ensures w == Walk(old(tokens))
      ensures w.Ok? ==> tokens == w.rest
      decreases |tokens|, 0
    {
      ghost var start := tokens;
      var t := Next();
      match t
      case None => return DecodeError;
      case Some(Open(true)) =>
        var seen := {};
        while More()
          invariant |tokens| < |start|
          invariant Walk(start) == WalkFields(tokens, seen)
          decreases |tokens|
        {
          var k := Next();
          if k.None? { return DecodeError; }
          if !k.value.Name? { return KeyNotString; }
          if k.value.s in seen { return DuplicateKey(k.value.s); }
          seen := seen + {k.value.s};
          w := WalkStrict();
          if !w.Ok? { return; }
        }
        var end := Next();
        return if end.None? then DecodeError else Ok(tokens);
      case Some(Open(false)) =>
        while More()
          invariant |tokens| < |start|
          invariant Walk(start) == WalkItems(tokens)
          decreases |tokens|
        {
          w := WalkStrict();
          if !w.Ok? { return; }
        }
        var end := Next();
        return if end.None? then DecodeError else Ok(tokens);
      case Some(Close) => return BadDelimiter;
      case Some(_) => return Ok(tokens);
    }
  }

  /** Some object in the listing has two members under this key. */
  predicate RepeatsKey(d: Doc, key: string) {
    match d
    case DArray(es) => exists i | 0 <= i < |es| :: RepeatsKey(es[i], key)
    case DObject(ms) =>
      || (exists i, j | 0 <= i < j < |ms| :: ms[i].key == key == ms[j].key)
      || exists i | 0 <= i < |ms| :: RepeatsKey(ms[i].val, key)
    case _ => false
  }

  /** A member has this key, which was seen before, or the members repeat it. */
  predicate Repeated(ms: seq<Member>, seen: set<string>, key: string) {
    (key in seen && exists i | 0 <= i < |ms| :: ms[i].key == key) || RepeatsKey(DObject(ms), key)
  }

  lemma RepeatedCons(ms: seq<Member>, seen: set<string>, key: string)
    requires ms != []
    requires (ms[0].key == key && key in seen) || RepeatsKey(ms[0].val, key) || Repeated(ms[1..], seen + {ms[0].key}, key)
    ensures Repeated(ms, seen, key)
  {
    var tail := ms[1..];
    assert forall i | 0 <= i < |tail| :: tail[i] == ms[i + 1];
    if RepeatsKey(ms[0].val, key) { assert RepeatsKey(DObject(ms), key); }
  }

  /** On the tokens of a document the walk consumes exactly that document, and fails exactly when
      some object repeats a key; it names one that some object repeats. */
  lemma {:induction false} WalkDocument(d: Doc, rest: seq<Token>)
    ensures var w := Walk(Tokens(d) + rest);
      if DistinctKeys(d) then w == Ok(rest) else w.DuplicateKey? && RepeatsKey(d, w.key)
    decreases d, 1
  {
    var ts := Tokens(d) + rest;
    match d
    case DArray(es) =>
      WalkDocumentItems(es, rest);
      assert ts[1..] == ItemTokens(es) + [Close] + rest;
    case DObject(ms) =>
      WalkDocumentFields(ms, {}, rest);
      assert ts[1..] == FieldTokens(ms) + [Close] + rest;
      assert KeysFresh(ms, {});
    case _ =>
      assert ts[1..] == rest;
  }

  lemma {:induction false} WalkDocumentItems(es: seq<Doc>, rest: seq<Token>)
    ensures var w := WalkItems(ItemTokens(es) + [Close] + rest);
      if forall i | 0 <= i < |es| :: DistinctKeys(es[i]) then w == Ok(rest)
      else w.DuplicateKey? && RepeatsKey(DArray(es), w.key)
    decreases es, 0
  {
    var ts := ItemTokens(es) + [Close] + rest;
    if es == [] {
      assert ts[1..] == rest;
    } else {
      var tail := ItemTokens(es[1..]) + [Close] + rest;
      assert ts == Tokens(es[0]) + tail;
      WalkDocument(es[0], tail);
      WalkDocumentItems(es[1..], rest);
      assert (forall i | 0 <= i < |es| :: DistinctKeys(es[i]))
        <==> DistinctKeys(es[0]) && forall i | 0 <= i < |es[1..]| :: DistinctKeys(es[1..][i]) by {
        assert es == [es[0]] + es[1..];
      }
      assert forall i | 0 <= i < |es[1..]| :: es[1..][i] == es[i + 1];
    }
  }

  predicate KeysFresh(ms: seq<Member>, seen: set<string>) {
    forall i | 0 <= i < |ms| :: ms[i].key !in seen
  }

  predicate FieldsDistinct(ms: seq<Member>, seen: set<string>) {
    KeysDiffer(ms) && KeysFresh(ms, seen) && forall i | 0 <= i < |ms| :: DistinctKeys(ms[i].val)
  }

  lemma FieldsDistinctCons(ms: seq<Member>, seen: set<string>)
    requires ms != []
    ensures FieldsDistinct(ms, seen)
      <==> ms[0].key !in seen && DistinctKeys(ms[0].val) && FieldsDistinct(ms[1..], seen + {ms[0].key})
  {
    var tail := ms[1..];
    assert forall i | 0 <= i < |tail| :: tail[i] == ms[i + 1];
    if ms[0].key !in seen && DistinctKeys(ms[0].val) && FieldsDistinct(tail, seen + {ms[0].key}) {
      forall i, j | 0 <= i < j < |ms| ensures ms[i].key != ms[j].key {
        assert ms[j] == tail[j - 1];
        if i > 0 { assert ms[i] == tail[i - 1]; }
      }
      forall i | 0 <= i < |ms| ensures ms[i].key !in seen && DistinctKeys(ms[i].val) {
        if i > 0 { assert ms[i] == tail[i - 1]; }
      }
    }
  }

  lemma {:induction false} WalkDocumentFields(ms: seq<Member>, seen: set<string>, rest: seq<Token>)
    ensures var w := WalkFields(FieldTokens(ms) + [Close] + rest, seen);
      if FieldsDistinct(ms, seen) then w == Ok(rest) else w.DuplicateKey? && Repeated(ms, seen, w.key)
    decreases ms, 0
  {
    var ts := FieldTokens(ms) + [Close] + rest;
    if ms == [] {
      assert ts[1..] == rest;
    } else {
      var tail := FieldTokens(ms[1..]) + [Close] + rest;
      assert ts == [Name(ms[0].key)] + (Tokens(ms[0].val) + tail);
      assert ts[1..] == Tokens(ms[0].val) + tail;
      FieldsDistinctCons(ms, seen);
      WalkDocument(ms[0].val, tail);
      WalkDocumentFields(ms[1..], seen + {ms[0].key}, rest);
      var w := WalkFields(ts, seen);
      if w.DuplicateKey? { RepeatedCons(ms, seen, w.key); }
    }
  }
}
