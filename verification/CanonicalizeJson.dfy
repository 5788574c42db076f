/** canonicalizeJSON on raw bytes: the strict checks, the decoder, and the canonical printer. */
module CanonicalizeJson {
  import opened ByteText
  import opened Decimals
  import opened CanonicalJson
  import opened JsonParser
  import opened CanonicalForm
  import opened StrictJson

  /** What the decoder makes of a whole input: a listing with nothing after it, or an error. */
  type Lexer = bytes -> Option<Doc>

  predicate Strict(raw: bytes, lex: Lexer) {
    DecodeUtf8(raw).Some? && StrictJson.Scan(raw, false) == Accepted && lex(raw).Some? && DistinctKeys(lex(raw).value)
  }

  ghost function Canonicalized(raw: bytes, lex: Lexer): Option<bytes> {
    if Strict(raw, lex) && InProfile(ValueOf(lex(raw).value)) then Some(CanonicalBytes(ValueOf(lex(raw).value))) else None
  }

  /** The input is the UTF-8 encoding of a text whose strings are well formed, surrogate escapes paired,
      and it reads as a listing in which no object repeats a key, of a value in the profile. */
  ghost predicate Acceptable(raw: bytes, lex: Lexer) {
    && (exists s: string :: raw == Utf8(s))
    && WellFormed(raw)
    && lex(raw).Some? && DistinctKeys(lex(raw).value)
    && InProfile(ValueOf(lex(raw).value))
  }

  /** Exactly such inputs are accepted, and give the canonical bytes of what they denote. */
  lemma CanonicalizedExactly(raw: bytes, lex: Lexer)
    ensures Canonicalized(raw, lex).Some? <==> Acceptable(raw, lex)
    ensures Acceptable(raw, lex) ==> Canonicalized(raw, lex).value == CanonicalBytes(ValueOf(lex(raw).value))
  {
    AcceptedIsWellFormed(raw);
    if DecodeUtf8(raw).Some? { Utf8Decoded(raw); }
    if s: string :| raw == Utf8(s) { DecodeUtf8Encoded(s); }
  }

  method Canonicalize(raw: bytes, lex: Lexer) returns (b: Option<bytes>)
    ensures b == Canonicalized(raw, lex)
    ensures b.Some? <==> Acceptable(raw, lex)
    ensures b.Some? ==> b.value == CanonicalBytes(ValueOf(lex(raw).value))
  {
    CanonicalizedExactly(raw, lex);
    if DecodeUtf8(raw).None? { return None; }
    var verdict := RejectLoneSurrogates(raw);
    if verdict != Accepted { return None; }
    if lex(raw).None? { return None; }
    var d := lex(raw).value;
    WalkDocument(d, []);
    assert Tokens(d) + [] == Tokens(d);
    var dec := new Decoder(Tokens(d));
    var w := dec.WalkStrict();
    if !w.Ok? { return None; }
    var trailing := dec.Next();
    if trailing.Some? { return None; }
    var buffer := new Buffer();
    var err := buffer.AppendCanonical(ValueOf(d));
    if err.Some? { return None; }
    var out := buffer.Bytes();
    assert "" + Print(Canonical(ValueOf(d))) == Print(Canonical(ValueOf(d)));
    return Some(out);
  }

  // ----- printed text passes the surrogate scan

  predicate Plain(c: char) {
    c != '\"' && c != '\\'
  }

  lemma PlainByte(b: byte, rest: bytes, inside: bool)
    requires b != QUOTE && b != BACKSLASH
    ensures Scan([b] + rest, inside) == Scan(rest, inside)
  {
    assert ([b] + rest)[1..] == rest;
  }

  lemma {:induction false} PlainBytes(b: bytes, rest: bytes, inside: bool)
    requires forall i | 0 <= i < |b| :: b[i] != QUOTE && b[i] != BACKSLASH
    ensures Scan(b + rest, inside) == Scan(rest, inside)
  {
    if b == [] {
      assert b + rest == rest;
    } else {
      PlainBytes(b[1..], rest, inside);
      PlainByte(b[0], b[1..] + rest, inside);
      assert b + rest == [b[0]] + (b[1..] + rest);
    }
  }

  lemma PlainEncoding(c: char)
    requires Plain(c)
    ensures forall i | 0 <= i < |EncodeChar(c)| :: EncodeChar(c)[i] != QUOTE && EncodeChar(c)[i] != BACKSLASH
  {
  }

  lemma ThenRest(c: char, s: string, rest: bytes)
    ensures Utf8([c] + s) + rest == EncodeChar(c) + (Utf8(s) + rest)
  {
    Utf8Cons(c, s);
    Associate(EncodeChar(c), Utf8(s), rest);
  }

  lemma BothThenRest(s: string, t: string, rest: bytes)
    ensures Utf8(s + t) + rest == Utf8(s) + (Utf8(t) + rest)
  {
    Utf8Append(s, t);
    Associate(Utf8(s), Utf8(t), rest);
  }

  lemma {:induction false} PlainText(s: string, rest: bytes, inside: bool)
    requires forall i | 0 <= i < |s| :: Plain(s[i])
    ensures Scan(Utf8(s) + rest, inside) == Scan(rest, inside)
  {
    if s == "" {
      assert Utf8(s) + rest == rest;
    } else {
      PlainText(s[1..], rest, inside);
      PlainEncoding(s[0]);
      PlainBytes(EncodeChar(s[0]), Utf8(s[1..]) + rest, inside);
      ThenRest(s[0], s[1..], rest);
      assert s == [s[0]] + s[1..];
    }
  }

  /** An ASCII escape is its own bytes. */
  lemma TwoBytes(x: char, rest: bytes)
    requires x as int < 0x80 && x != 'u'
    ensures Scan(Utf8(['\\', x]) + rest, true) == Scan(rest, true)
  {
    var raw := Utf8(['\\', x]) + rest;
    Utf8Cons('\\', [x]);
    Utf8Cons(x, []);
    assert ['\\'] + [x] == ['\\', x] && [x] + [] == [x];
    assert raw == [BACKSLASH, x as int as byte] + rest && raw[2..] == rest;
  }

  /** A control character's escape has four hex digits and is no surrogate. */
  lemma UnitScanned(x: char, y: char, rest: bytes)
    requires x in {'0', '1'} && ('0' <= y <= '9' || 'a' <= y <= 'f')
    ensures Scan(Utf8(['\\', 'u', '0', '0', x, y]) + rest, true) == Scan(rest, true)
  {
    var hex: bytes := [0x30, 0x30, x as int as byte, y as int as byte];
    SixBytes(x, y);
    assert CodeUnit(hex) < 0x20;
    ScanPiece(Unit(hex), rest);
  }

  lemma SixBytes(x: char, y: char)
    requires x as int < 0x80 && y as int < 0x80
    ensures Utf8(['\\', 'u', '0', '0', x, y]) == [BACKSLASH, LETTER_U] + [0x30, 0x30, x as int as byte, y as int as byte]
  {
    Utf8Cons('\\', ['u', '0', '0', x, y]);
    Utf8Cons('u', ['0', '0', x, y]);
    Utf8Cons('0', ['0', x, y]);
    Utf8Cons('0', [x, y]);
    Utf8Cons(x, [y]);
    Utf8Cons(y, []);
    assert ['\\'] + ['u', '0', '0', x, y] == ['\\', 'u', '0', '0', x, y] && ['u'] + ['0', '0', x, y] == ['u', '0', '0', x, y];
    assert ['0'] + ['0', x, y] == ['0', '0', x, y] && ['0'] + [x, y] == ['0', x, y] && [x] + [y] == [x, y] && [y] + [] == [y];
  }

  lemma EscapeScanned(c: char, rest: bytes)
    ensures Scan(Utf8(Escape(c)) + rest, true) == Scan(rest, true)
  {
    if c in {'\"', '\\', '\U{0008}', '\U{000C}', '\n', '\r', '\t'} {
      var x := Escape(c)[1];
      assert Escape(c) == ['\\', x];
      TwoBytes(x, rest);
    } else if c < ' ' {
      var x, y := HexDigit(c as int / 16), HexDigit(c as int % 16);
      assert Escape(c) == ['\\', 'u', '0', '0', x, y];
      UnitScanned(x, y, rest);
    } else {
      PlainText([c], rest, true);
    }
  }

  lemma {:induction false} EscapedScanned(s: string, rest: bytes)
    ensures Scan(Utf8(Escaped(s)) + rest, true) == Scan(rest, true)
  {
    if s == "" {
      assert Utf8(Escaped(s)) + rest == rest;
    } else {
      EscapedScanned(s[1..], rest);
      EscapeScanned(s[0], Utf8(Escaped(s[1..])) + rest);
      BothThenRest(Escape(s[0]), Escaped(s[1..]), rest);
    }
  }

  lemma QuoteScanned(rest: bytes, inside: bool)
    ensures Scan(Utf8("\"") + rest, inside) == Scan(rest, !inside)
  {
    Utf8Cons('\"', "");
    assert ['\"'] + "" == "\"";
    assert Utf8("\"") == [QUOTE];
    assert ([QUOTE] + rest)[1..] == rest;
  }

  lemma QuotedScanned(s: string, rest: bytes)
    ensures Scan(Utf8(Quoted(s)) + rest, false) == Scan(rest, false)
  {
    QuoteScanned(rest, true);
    EscapedScanned(s, Utf8("\"") + rest);
    BothThenRest(Escaped(s), "\"", rest);
    QuoteScanned(Utf8(Escaped(s) + "\"") + rest, false);
    BothThenRest("\"", Escaped(s) + "\"", rest);
    Associate("\"", Escaped(s), "\"");
  }

  lemma NumberIsPlain(text: string)
    requires NumberInProfile(text)
    ensures forall i | 0 <= i < |text| :: Plain(text[i])
  {
    var i := if text[0] == '-' then 1 else 0;
    forall k | 0 <= k < |text| ensures Plain(text[k]) {
      if k >= i { assert IsDigit(text[i..][k - i]); }
    }
  }

  lemma {:induction false} PrintScanned(d: Doc, rest: bytes)
    requires Printable(d)
    ensures Scan(Utf8(Print(d)) + rest, false) == Scan(rest, false)
    decreases d, 1
  {
    match d
    case DNull => PlainText("null", rest, false);
    case DBool(b) => if b { PlainText("true", rest, false); } else { PlainText("false", rest, false); }
    case DText(s) => QuotedScanned(s, rest);
    case DNum(text) =>
      NumberIsPlain(text);
      PlainText(text, rest, false);
    case DArray(es) =>
      PrintElemsScanned(es, Utf8("]") + rest);
      InBrackets("[", PrintElems(es), "]", rest);
    case DObject(ms) =>
      PrintMembersScanned(ms, Utf8("}") + rest);
      InBrackets("{", PrintMembers(ms), "}", rest);
  }

  lemma InBrackets(open: string, inner: string, close: string, rest: bytes)
    requires (forall i | 0 <= i < |open| :: Plain(open[i])) && forall i | 0 <= i < |close| :: Plain(close[i])
    requires Scan(Utf8(inner) + (Utf8(close) + rest), false) == Scan(Utf8(close) + rest, false)
    ensures Scan(Utf8(open + inner + close) + rest, false) == Scan(rest, false)
  {
    PlainText(close, rest, false);
    BothThenRest(inner, close, rest);
    PlainText(open, Utf8(inner + close) + rest, false);
    BothThenRest(open, inner + close, rest);
    Associate(open, inner, close);
  }

  lemma {:induction false} PrintElemsScanned(es: seq<Doc>, rest: bytes)
    requires forall i | 0 <= i < |es| :: Printable(es[i])
    ensures Scan(Utf8(PrintElems(es)) + rest, false) == Scan(rest, false)
    decreases es, 0
  {
    if es == [] {
      assert Utf8(PrintElems(es)) + rest == rest;
    } else if |es| == 1 {
      PrintScanned(es[0], rest);
      assert PrintElems(es) == Print(es[0]);
    } else {
      PrintElemsScanned(es[1..], rest);
      AfterComma(Print(es[0]), PrintElems(es[1..]), rest);
      PrintScanned(es[0], Utf8("," + PrintElems(es[1..])) + rest);
    }
  }

  lemma AfterComma(first: string, others: string, rest: bytes)
    requires Scan(Utf8(others) + rest, false) == Scan(rest, false)
    ensures Utf8(first + ("," + others)) + rest == Utf8(first) + (Utf8("," + others) + rest)
    ensures Scan(Utf8("," + others) + rest, false) == Scan(rest, false)
  {
    BothThenRest(first, "," + others, rest);
    BothThenRest(",", others, rest);
    PlainText(",", Utf8(others) + rest, false);
  }

  lemma {:induction false} PrintMembersScanned(ms: seq<Member>, rest: bytes)
    requires forall i | 0 <= i < |ms| :: Printable(ms[i].val)
    ensures Scan(Utf8(PrintMembers(ms)) + rest, false) == Scan(rest, false)
    decreases ms, 0
  {
    if ms == [] {
      assert Utf8(PrintMembers(ms)) + rest == rest;
    } else if |ms| == 1 {
      PrintMemberScanned(ms, rest);
      assert PrintMembers(ms) == PrintMember(ms[0]);
    } else {
      PrintMembersScanned(ms[1..], rest);
      AfterComma(PrintMember(ms[0]), PrintMembers(ms[1..]), rest);
      PrintMemberScanned(ms, Utf8("," + PrintMembers(ms[1..])) + rest);
    }
  }

  lemma {:induction false} PrintMemberScanned(ms: seq<Member>, rest: bytes)
    requires ms != [] && Printable(ms[0].val)
    ensures Scan(Utf8(PrintMember(ms[0])) + rest, false) == Scan(rest, false)
    decreases ms, 0, 0
  {
    var key, val := Quoted(ms[0].key), Print(ms[0].val);
    PrintScanned(ms[0].val, rest);
    PlainText(":", Utf8(val) + rest, false);
    BothThenRest(":", val, rest);
    QuotedScanned(ms[0].key, Utf8(":" + val) + rest);
    BothThenRest(key, ":" + val, rest);
    Associate(key, ":", val);
  }

  /** Canonical bytes pass every strict check a decoder that reads them right leaves. */
  lemma CanonicalBytesAccepted(v: Value)
    requires InProfile(v)
    ensures DecodeUtf8(CanonicalBytes(v)).Some? && Scan(CanonicalBytes(v), false) == Accepted
  {
    CanonicalDenotes(v);
    DecodeUtf8Encoded(Print(Canonical(v)));
    PrintScanned(Canonical(v), []);
    assert Utf8(Print(Canonical(v))) + [] == CanonicalBytes(v);
  }

  /** Canonicalizing is idempotent: what comes out, given to it again with a decoder that reads
      canonical bytes as the listing they print, comes out unchanged. */
  lemma CanonicalizeTwice(raw: bytes, lex: Lexer)
    requires Canonicalized(raw, lex).Some?
    requires var b := Canonicalized(raw, lex).value; lex(b) == Some(Canonical(ValueOf(lex(raw).value)))
    ensures Canonicalized(Canonicalized(raw, lex).value, lex) == Canonicalized(raw, lex)
  {
    var v := ValueOf(lex(raw).value);
    CanonicalBytesAccepted(v);
    CanonicalDenotes(v);
    AscendingIsDistinct(Canonical(v));
  }

  /** Two inputs canonicalize to the same bytes exactly when what they decode to differs only in the
      order of object entries. */
  lemma SameBytesExactly(raw: bytes, other: bytes, lex: Lexer)
    requires Canonicalized(raw, lex).Some? && Canonicalized(other, lex).Some?
    ensures Canonicalized(raw, lex) == Canonicalized(other, lex) <==> Reordered(lex(raw).value, lex(other).value)
  {
    BytesIgnoreEntryOrder(lex(raw).value, lex(other).value);
  }
}
