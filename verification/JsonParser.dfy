/** An inverse of the canonical printer: it accepts printed listings and nothing else. */
module JsonParser {
  import opened ByteText
  import opened Decimals
  import opened CanonicalJson

  datatype Parsed<+T> = Parsed(val: T, rest: string) | Refused

  function HexValue(c: char): nat {
    if IsDigit(c) then c as int - '0' as int
    else if 'a' <= c <= 'f' then c as int - 'a' as int + 10
    else 0
  }

  /** The only character whose escape could start here. */
  function Candidate(s: string): char
    requires s != ""
  {
    if s[0] != '\\' || |s| == 1 then s[0]
    else
      match s[1]
      case 'b' => '\U{0008}'
      case 'f' => '\U{000C}'
      case 'n' => '\n'
      case 'r' => '\r'
      case 't' => '\t'
      case 'u' => if |s| < 6 then s[0] else (HexValue(s[4]) * 16 + HexValue(s[5])) as char
      case c => c
  }

  /** Reads escaped characters up to the closing quote. */
  function ParseChars(s: string): (p: Parsed<string>)
    ensures p.Parsed? ==> |p.rest| < |s|
  {
    if s == "" then Refused
    else if s[0] == '\"' then Parsed("", s[1..])
    else
      var c := Candidate(s);
      if !(Escape(c) <= s) then Refused
      else
        match ParseChars(s[|Escape(c)|..])
        case Refused => Refused
        case Parsed(cs, rest) => Parsed([c] + cs, rest)
  }

  predicate NumberChar(c: char) {
    c == '-' || IsDigit(c)
  }

  function NumberPrefix(s: string): (n: nat)
    ensures n <= |s|
    ensures forall i | 0 <= i < n :: NumberChar(s[i])
    ensures n < |s| ==> !NumberChar(s[n])
  {
    if s == "" || !NumberChar(s[0]) then 0 else 1 + NumberPrefix(s[1..])
  }

  function ParseDoc(s: string): (p: Parsed<Doc>)
    ensures p.Parsed? ==> |p.rest| < |s|
    decreases |s|, 0
  {
    if s == "" then Refused
    else if s[0] == '\"' then
      match ParseChars(s[1..])
      case Refused => Refused
      case Parsed(t, rest) => Parsed(DText(t), rest)
    else if s[0] == '[' then
      if |s| > 1 && s[1] == ']' then Parsed(DArray([]), s[2..])
      else
        match ParseElems(s[1..])
        case Refused => Refused
        case Parsed(es, rest) => Parsed(DArray(es), rest)
    else if s[0] == '{' then
      if |s| > 1 && s[1] == '}' then Parsed(DObject([]), s[2..])
      else
        match ParseMembers(s[1..])
        case Refused => Refused
        case Parsed(ms, rest) => Parsed(DObject(ms), rest)
    else if NumberChar(s[0]) then
      var n := NumberPrefix(s);
      if NumberInProfile(s[..n]) then Parsed(DNum(s[..n]), s[n..]) else Refused
    else if "null" <= s then Parsed(DNull, s[4..])
    else if "true" <= s then Parsed(DBool(true), s[4..])
    else if "false" <= s then Parsed(DBool(false), s[5..])
    else Refused
  }

  function ParseElems(s: string): (p: Parsed<seq<Doc>>)
    ensures p.Parsed? ==> |p.rest| < |s| && p.val != []
    decreases |s|, 1
  {
    match ParseDoc(s)
    case Refused => Refused
    case Parsed(e, r) =>
      if r == "" then Refused
      else if r[0] == ']' then Parsed([e], r[1..])
      else if r[0] != ',' then Refused
      else
        match ParseElems(r[1..])
        case Refused => Refused
        case Parsed(es, rest) => Parsed([e] + es, rest)
  }

  function ParseMember(s: string): (p: Parsed<Member>)
    ensures p.Parsed? ==> |p.rest| < |s|
    decreases |s|, 1
  {
    if s == "" || s[0] != '\"' then Refused
    else
      match ParseChars(s[1..])
      case Refused => Refused
      case Parsed(k, r) =>
        if r == "" || r[0] != ':' then Refused
        else
          match ParseDoc(r[1..])
          case Refused => Refused
          case Parsed(d, rest) => Parsed(Member(k, d), rest)
  }

  function ParseMembers(s: string): (p: Parsed<seq<Member>>)
    ensures p.Parsed? ==> |p.rest| < |s| && p.val != []
    decreases |s|, 2
  {
    match ParseMember(s)
    case Refused => Refused
    case Parsed(m, r) =>
      if r == "" then Refused
      else if r[0] == '}' then Parsed([m], r[1..])
      else if r[0] != ',' then Refused
      else
        match ParseMembers(r[1..])
        case Refused => Refused
        case Parsed(ms, rest) => Parsed([m] + ms, rest)
  }

  /** Every number of the listing is in the integer profile. */
  predicate Printable(d: Doc) {
    match d
    case DNum(text) => NumberInProfile(text)
    case DArray(es) => forall i | 0 <= i < |es| :: Printable(es[i])
    case DObject(ms) => forall i | 0 <= i < |ms| :: Printable(ms[i].val)
    case _ => true
  }

  // ----- printing, then parsing

  lemma HexRoundTrip(n: nat)
    requires n < 16
    ensures HexValue(HexDigit(n)) == n
  {
  }

  lemma EscapeRoundTrip(c: char, t: string)
    ensures Candidate(Escape(c) + t) == c
  {
    if c < ' ' {
      HexRoundTrip(c as int / 16);
      HexRoundTrip(c as int % 16);
    }
  }

  lemma {:induction false} ParseEscaped(cs: string, rest: string)
    ensures ParseChars(Escaped(cs) + "\"" + rest) == Parsed(cs, rest)
  {
    var s := Escaped(cs) + "\"" + rest;
    if cs == "" {
      assert s[1..] == rest;
    } else {
      var tail := Escaped(cs[1..]) + "\"" + rest;
      assert s == Escape(cs[0]) + tail;
      EscapeRoundTrip(cs[0], tail);
      assert s[|Escape(cs[0])|..] == tail;
      ParseEscaped(cs[1..], rest);
      assert cs == [cs[0]] + cs[1..];
    }
  }

  /** What may follow a printed document: a number must not run on. */
  predicate Stops(rest: string) {
    rest == "" || !NumberChar(rest[0])
  }

  lemma {:induction false} PrefixOfNumber(text: string, rest: string)
    requires forall i | 0 <= i < |text| :: NumberChar(text[i])
    requires Stops(rest)
    ensures NumberPrefix(text + rest) == |text|
  {
    if text == "" {
      assert text + rest == rest;
    } else {
      assert (text + rest)[1..] == text[1..] + rest;
      PrefixOfNumber(text[1..], rest);
    }
  }

  lemma NumberChars(text: string)
    requires IntegerShape(text)
    ensures text != "" && forall i | 0 <= i < |text| :: NumberChar(text[i])
  {
    var start := if text[0] == '-' then 1 else 0;
    forall i | start <= i < |text| ensures IsDigit(text[i]) {
      assert text[start..][i - start] == text[i];
    }
  }

  lemma PrintStart(d: Doc)
    requires Printable(d)
    ensures Print(d) != "" && Print(d)[0] != ']' && Print(d)[0] != '}'
  {
    if d.DNum? { NumberChars(d.text); }
  }

  /** Concatenation regrouped, away from what the pieces are. */
  lemma Regroup(a: string, sep: string, b: string, close: string, rest: string)
    ensures a + (sep + (b + close + rest)) == (a + (sep + b)) + close + rest
    ensures a + (close + rest) == a + close + rest
  {
  }

  lemma Unwrap(open: string, body: string, close: string, rest: string)
    requires |open| == 1
    ensures (open + body + close + rest)[1..] == body + close + rest
  {
  }

  lemma Wrap(s: string, open: string, body: string, close: string, rest: string)
    requires |s| > 0 && s[..1] == open && s[1..] == body + close + rest
    ensures s == open + body + close + rest
  {
    assert s == s[..1] + s[1..];
  }

  lemma PrintCons(e: Doc, es: seq<Doc>)
    ensures PrintElems([e]) == Print(e)
    ensures es != [] ==> PrintElems([e] + es) == Print(e) + ("," + PrintElems(es))
  {
    assert ([e] + es)[1..] == es;
    assert Print(e) + "" == Print(e);
  }

  lemma PrintMemberCons(m: Member, ms: seq<Member>)
    ensures PrintMembers([m]) == PrintMember(m)
    ensures ms != [] ==> PrintMembers([m] + ms) == PrintMember(m) + ("," + PrintMembers(ms))
  {
    assert ([m] + ms)[1..] == ms;
    assert PrintMember(m) + "" == PrintMember(m);
  }

  lemma ParsePrintedScalar(d: Doc, rest: string)
    requires Printable(d) && Stops(rest) && !d.DArray? && !d.DObject?
    ensures ParseDoc(Print(d) + rest) == Parsed(d, rest)
  {
    var s := Print(d) + rest;
    match d
    case DNull => assert s[4..] == rest;
    case DBool(b) =>
      assert s[0] == if b then 't' else 'f';
      if b { assert s[4..] == rest; } else { assert s[5..] == rest; }
    case DText(t) =>
      ParseEscaped(t, rest);
      Unwrap("\"", Escaped(t), "\"", rest);
    case DNum(text) =>
      NumberChars(text);
      PrefixOfNumber(text, rest);
      assert s[..|text|] == text && s[|text|..] == rest;
  }

  lemma {:induction false} ParsePrinted(d: Doc, rest: string)
    requires Printable(d) && Stops(rest)
    ensures ParseDoc(Print(d) + rest) == Parsed(d, rest)
    decreases d, 2
  {
    match d
    case DArray(_) => ParsePrintedArray(d, rest);
    case DObject(_) => ParsePrintedObject(d, rest);
    case _ => ParsePrintedScalar(d, rest);
  }

  lemma {:induction false} ParsePrintedArray(d: Doc, rest: string)
    requires d.DArray? && Printable(d)
    ensures ParseDoc(Print(d) + rest) == Parsed(d, rest)
    decreases d, 1
  {
    var s := Print(d) + rest;
    Unwrap("[", PrintElems(d.elems), "]", rest);
    if d.elems == [] {
      assert s == "[]" + rest && s[2..] == rest;
    } else {
      ParsePrintedElems(d.elems, rest);
      PrintStart(d.elems[0]);
      assert s[1] == Print(d.elems[0])[0];
    }
  }

  lemma {:induction false} ParsePrintedObject(d: Doc, rest: string)
    requires d.DObject? && Printable(d)
    ensures ParseDoc(Print(d) + rest) == Parsed(d, rest)
    decreases d, 1
  {
    var s := Print(d) + rest;
    Unwrap("{", PrintMembers(d.members), "}", rest);
    if d.members == [] {
      assert PrintMembers(d.members) == "";
      assert s == "{}" + rest && s[2..] == rest;
    } else {
      ParsePrintedMembers(d.members, rest);
      assert s[1] == PrintMember(d.members[0])[0];
    }
  }

  lemma {:induction false} ParsePrintedElems(es: seq<Doc>, rest: string)
    requires es != [] && forall i | 0 <= i < |es| :: Printable(es[i])
    ensures ParseElems(PrintElems(es) + "]" + rest) == Parsed(es, rest)
    decreases es, 0
  {
    assert es == [es[0]] + es[1..];
    PrintCons(es[0], es[1..]);
    if |es| == 1 {
      assert es == [es[0]];
      Regroup(Print(es[0]), ",", "", "]", rest);
      ParsePrinted(es[0], "]" + rest);
    } else {
      var tail := PrintElems(es[1..]) + "]" + rest;
      Regroup(Print(es[0]), ",", PrintElems(es[1..]), "]", rest);
      ParsePrinted(es[0], "," + tail);
      assert ("," + tail)[1..] == tail;
      ParsePrintedElems(es[1..], rest);
    }
  }

  lemma {:induction false} ParsePrintedMember(m: Member, rest: string)
    requires Printable(m.val) && Stops(rest)
    ensures ParseMember(PrintMember(m) + rest) == Parsed(m, rest)
    decreases m, 3
  {
    var s := PrintMember(m) + rest;
    var after := ":" + (Print(m.val) + rest);
    assert s == Quoted(m.key) + after by {
      Associate(Quoted(m.key), ":", Print(m.val));
      Associate(Quoted(m.key), ":" + Print(m.val), rest);
      Associate(":", Print(m.val), rest);
    }
    Unwrap("\"", Escaped(m.key), "\"", after);
    ParseEscaped(m.key, after);
    assert after[1..] == Print(m.val) + rest;
    ParsePrinted(m.val, rest);
  }

  lemma {:induction false} ParsePrintedMembers(ms: seq<Member>, rest: string)
    requires ms != [] && forall i | 0 <= i < |ms| :: Printable(ms[i].val)
    ensures ParseMembers(PrintMembers(ms) + "}" + rest) == Parsed(ms, rest)
    decreases ms, 0
  {
    assert ms == [ms[0]] + ms[1..];
    PrintMemberCons(ms[0], ms[1..]);
    if |ms| == 1 {
      assert ms == [ms[0]];
      Regroup(PrintMember(ms[0]), ",", "", "}", rest);
      ParsePrintedMember(ms[0], "}" + rest);
    } else {
      var tail := PrintMembers(ms[1..]) + "}" + rest;
      Regroup(PrintMember(ms[0]), ",", PrintMembers(ms[1..]), "}", rest);
      ParsePrintedMember(ms[0], "," + tail);
      assert ("," + tail)[1..] == tail;
      ParsePrintedMembers(ms[1..], rest);
    }
  }

  // ----- parsing, then printing

  lemma {:induction false} EscapeParsed(s: string)
    requires ParseChars(s).Parsed?
    ensures var Parsed(cs, rest) := ParseChars(s); s == Escaped(cs) + "\"" + rest
  {
    if s[0] != '\"' {
      var c := Candidate(s);
      var tail := s[|Escape(c)|..];
      EscapeParsed(tail);
      var Parsed(cs, rest) := ParseChars(tail);
      assert ([c] + cs)[1..] == cs;
      assert s == Escape(c) + tail;
    }
  }

  lemma {:induction false} PrintParsed(s: string)
    requires ParseDoc(s).Parsed?
    ensures var Parsed(d, rest) := ParseDoc(s); Printable(d) && s == Print(d) + rest
    decreases |s|, 0
  {
    if s[0] == '\"' {
      EscapeParsed(s[1..]);
      var Parsed(cs, rest) := ParseChars(s[1..]);
      Wrap(s, "\"", Escaped(cs), "\"", rest);
    } else if (s[0] == '[' || s[0] == '{') && |s| > 1 && s[1] as int - s[0] as int == 2 {
      assert s == s[..2] + s[2..];
    } else if s[0] == '[' {
      PrintParsedElems(s[1..]);
      var Parsed(es, rest) := ParseElems(s[1..]);
      Wrap(s, "[", PrintElems(es), "]", rest);
    } else if s[0] == '{' {
      PrintParsedMembers(s[1..]);
      var Parsed(ms, rest) := ParseMembers(s[1..]);
      Wrap(s, "{", PrintMembers(ms), "}", rest);
    }
  }

  lemma {:induction false} PrintParsedElems(s: string)
    requires ParseElems(s).Parsed?
    ensures var Parsed(es, rest) := ParseElems(s);
      (forall i | 0 <= i < |es| :: Printable(es[i])) && s == PrintElems(es) + "]" + rest
    decreases |s|, 1
  {
    PrintParsed(s);
    var Parsed(e, r) := ParseDoc(s);
    if r[0] == ',' {
      PrintParsedElems(r[1..]);
      var Parsed(es, rest) := ParseElems(r[1..]);
      PrintCons(e, es);
      Regroup(Print(e), ",", PrintElems(es), "]", rest);
      assert r == "," + r[1..];
    } else {
      PrintCons(e, []);
      Regroup(Print(e), ",", "", "]", r[1..]);
      assert r == "]" + r[1..];
    }
  }

  lemma {:induction false} PrintParsedMember(s: string)
    requires ParseMember(s).Parsed?
    ensures var Parsed(m, rest) := ParseMember(s); Printable(m.val) && s == PrintMember(m) + rest
    decreases |s|, 1
  {
    EscapeParsed(s[1..]);
    var Parsed(k, r) := ParseChars(s[1..]);
    PrintParsed(r[1..]);
    var Parsed(d, rest) := ParseDoc(r[1..]);
    QuotedMember(s, k, r, Print(d), rest);
  }

  lemma QuotedMember(s: string, k: string, r: string, val: string, rest: string)
    requires |s| > 0 && s[0] == '\"' && s[1..] == Escaped(k) + "\"" + r
    requires |r| > 0 && r[0] == ':' && r[1..] == val + rest
    ensures s == Quoted(k) + ":" + val + rest
  {
    assert s == "\"" + s[1..] && r == ":" + r[1..];
  }

  lemma {:induction false} PrintParsedMembers(s: string)
    requires ParseMembers(s).Parsed?
    ensures var Parsed(ms, rest) := ParseMembers(s);
      (forall i | 0 <= i < |ms| :: Printable(ms[i].val)) && s == PrintMembers(ms) + "}" + rest
    decreases |s|, 2
  {
    PrintParsedMember(s);
    var Parsed(m, r) := ParseMember(s);
    if r[0] == ',' {
      PrintParsedMembers(r[1..]);
      var Parsed(ms, rest) := ParseMembers(r[1..]);
      PrintMemberCons(m, ms);
      Regroup(PrintMember(m), ",", PrintMembers(ms), "}", rest);
      assert r == "," + r[1..];
    } else {
      PrintMemberCons(m, []);
      Regroup(PrintMember(m), ",", "", "}", r[1..]);
      assert r == "}" + r[1..];
    }
  }
}
