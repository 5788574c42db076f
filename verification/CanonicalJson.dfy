/** The integer-only canonical JSON printer of the authorisation fixture (section 3.2 of RFC 8785). */
module CanonicalJson {
  import opened ByteText
  import opened Decimals
  import opened Utf16Order

  /** A decoded JSON value: objects are unordered, numbers keep their source text (json.Number). */
  datatype Value =
    | Null
    | Bool(b: bool)
    | Text(s: string)
    | Num(text: string)
    | Array(elems: seq<Value>)
    | Object(fields: map<string, Value>)

  /** A value as a listing: the entries of an object in some written order. */
  datatype Doc =
    | DNull
    | DBool(b: bool)
    | DText(s: string)
    | DNum(text: string)
    | DArray(elems: seq<Doc>)
    | DObject(members: seq<Member>)

  datatype Member = Member(key: string, val: Doc)

  const MAX_SAFE := 9007199254740991

  // ----- numbers

  /** The shape isCanonicalInteger checks. */
  predicate IntegerShape(s: string) {
    var i := if s != [] && s[0] == '-' then 1 else 0;
    |s| > i && AllDigits(s[i..]) && (s[i] == '0' ==> |s| == 1)
  }

  method IsCanonicalInteger(s: string) returns (ok: bool)
    ensures ok == IntegerShape(s)
    ensures ok <==> exists n: int :: s == Integer(n)
  {
    IntegerShapeIsDecimal(s);
    if s == "" || s == "-0" { return false; }
    var i := 0;
    if s[0] == '-' {
      if |s| == 1 { return false; }
      i := 1;
    }
    if s[i] == '0' && |s| - i > 1 { return false; }
    ghost var start := i;
    while i < |s|
      invariant start <= i <= |s|
      invariant AllDigits(s[start..i])
    {
      if s[i] < '0' || s[i] > '9' {
        assert !IsDigit(s[start..][i - start]);
        return false;
      }
      assert s[start..i + 1] == s[start..i] + [s[i]];
      i := i + 1;
    }
    assert s[start..i] == s[start..];
    return true;
  }

  /** What strconv.ParseInt reads from such a text, before its range check. */
  function IntegerValue(s: string): (n: int)
    requires IntegerShape(s)
  {
    if s[0] == '-' then -(Number(s[1..]) as int) else assert s[0..] == s; Number(s)
  }

  lemma IntegerRoundTrip(n: int)
    ensures IntegerShape(Integer(n)) && IntegerValue(Integer(n)) == n
  {
    NumberOfDecimal(if n < 0 then -n else n);
    if n < 0 {
      assert Integer(n)[1..] == Decimal(-n);
    } else {
      assert Integer(n)[0..] == Decimal(n);
    }
  }

  /** The accepted texts are exactly the decimal printings of the integers. */
  lemma IntegerShapeIsDecimal(s: string)
    ensures IntegerShape(s) <==> exists n: int :: s == Integer(n)
    ensures IntegerShape(s) ==> s == Integer(IntegerValue(s))
  {
    if IntegerShape(s) {
      if s[0] == '-' {
        DecimalOfNumber(s[1..]);
        assert Number(s[1..]) > 0 by {
          assert Decimal(0) == "0";
        }
        assert s == "-" + s[1..];
      } else {
        assert s[0..] == s;
        DecimalOfNumber(s);
      }
      assert s == Integer(IntegerValue(s));
    }
    if n: int :| s == Integer(n) {
      IntegerRoundTrip(n);
    }
  }

  predicate NumberInProfile(text: string) {
    IntegerShape(text) && -MAX_SAFE <= IntegerValue(text) <= MAX_SAFE
  }

  /** The numbers in the profile are the decimal printings of the integers a double holds exactly. */
  lemma ProfileExactly(text: string)
    ensures NumberInProfile(text) <==> exists n: int :: -9007199254740991 <= n <= 9007199254740991 && text == Integer(n)
  {
    IntegerShapeIsDecimal(text);
    if n: int :| -9007199254740991 <= n <= 9007199254740991 && text == Integer(n) { IntegerRoundTrip(n); }
    if NumberInProfile(text) { assert text == Integer(IntegerValue(text)); }
  }

  ghost predicate InProfile(v: Value) {
    match v
    case Num(text) => NumberInProfile(text)
    case Array(es) => forall i | 0 <= i < |es| :: InProfile(es[i])
    case Object(m) => forall k | k in m :: InProfile(m[k])
    case _ => true
  }

  // ----- printing

  function HexDigit(n: nat): char
    requires n < 16
  {
    if n < 10 then Digit(n) else (n - 10 + 'a' as int) as char
  }

  function Escape(c: char): (s: string)
    ensures 1 <= |s| <= 6 && s[0] != '\"'
  {
    match c
    case '\"' => "\\\""
    case '\\' => "\\\\"
    case '\U{0008}' => "\\b"
    case '\U{000C}' => "\\f"
    case '\n' => "\\n"
    case '\r' => "\\r"
    case '\t' => "\\t"
    case _ =>
      if c < ' ' then "\\u00" + [HexDigit(c as int / 16), HexDigit(c as int % 16)] else [c]
  }

  /** The characters with a two-character escape, and the letters of those. */
  const SHORT := map['\"' := '\"', '\\' := '\\', '\U{0008}' := 'b', '\U{000C}' := 'f', '\n' := 'n', '\r' := 'r', '\t' := 't']

  /** Section 3.2.2.2 of RFC 8785: short escapes where there are any, lower-case hexadecimal ones for the
      other control characters, and any other character as it is. */
  lemma EscapeExactly(c: char)
    ensures c in SHORT ==> Escape(c) == ['\\', SHORT[c]]
    ensures c !in SHORT && c >= ' ' ==> Escape(c) == [c]
    ensures c !in SHORT && c < ' ' ==>
      var hex := "0123456789abcdef";
      Escape(c) == "\\u00" + [hex[c as int / 16], hex[c as int % 16]]
  {
    if c !in SHORT && c < ' ' {
      forall n: nat | n < 16 ensures HexDigit(n) == "0123456789abcdef"[n] { HexIsLower(n); }
    }
  }

  lemma HexIsLower(n: nat)
    requires n < 16
    ensures HexDigit(n) == "0123456789abcdef"[n]
  {
    assert "0123456789abcdef" == "0123456789" + "abcdef";
    assert n < 10 ==> "0123456789"[n] == ('0' as int + n) as char;
    assert n >= 10 ==> "abcdef"[n - 10] == ('a' as int + n - 10) as char;
  }

  function Escaped(s: string): string {
    if s == [] then "" else Escape(s[0]) + Escaped(s[1..])
  }

  function Quoted(s: string): string {
    "\"" + Escaped(s) + "\""
  }

  function Print(d: Doc): string
    decreases d, 1
  {
    match d
    case DNull => "null"
    case DBool(b) => if b then "true" else "false"
    case DText(s) => Quoted(s)
    case DNum(text) => text
    case DArray(es) => "[" + PrintElems(es) + "]"
    case DObject(ms) => "{" + PrintMembers(ms) + "}"
  }

  function PrintElems(es: seq<Doc>): string
    decreases es, 0
  {
    if es == [] then ""
    else Print(es[0]) + (if |es| == 1 then "" else "," + PrintElems(es[1..]))
  }

  function PrintMember(m: Member): string
    decreases m, 2
  {
    Quoted(m.key) + ":" + Print(m.val)
  }

  function PrintMembers(ms: seq<Member>): string
    decreases ms, 0
  {
    if ms == [] then ""
    else PrintMember(ms[0]) + (if |ms| == 1 then "" else "," + PrintMembers(ms[1..]))
  }

  /** The canonical listing of a value: every object's keys ascend in UTF-16 order. */
  ghost function Canonical(v: Value): Doc
    decreases v, 1
  {
    match v
    case Null => DNull
    case Bool(b) => DBool(b)
    case Text(s) => DText(s)
    case Num(text) => DNum(text)
    case Array(es) => DArray(seq(|es|, i requires 0 <= i < |es| => Canonical(es[i])))
    case Object(m) => DObject(CanonicalMembers(v, SortedKeys(m.Keys)))
  }

  ghost function CanonicalMembers(v: Value, ks: seq<string>): (ms: seq<Member>)
    requires v.Object? && forall i | 0 <= i < |ks| :: ks[i] in v.fields
    ensures |ms| == |ks|
    decreases v, 0
  {
    seq(|ks|, i requires 0 <= i < |ks| => Member(ks[i], Canonical(v.fields[ks[i]])))
  }

  ghost function CanonicalBytes(v: Value): bytes {
    Utf8(Print(Canonical(v)))
  }

  lemma {:induction false} PrintElemsSnoc(es: seq<Doc>, e: Doc)
    ensures PrintElems(es + [e]) == PrintElems(es) + ((if es == [] then "" else ",") + Print(e))
  {
    if es == [] {
      assert es + [e] == [e];
    } else {
      assert (es + [e])[1..] == es[1..] + [e] && (es + [e])[0] == es[0];
      PrintElemsSnoc(es[1..], e);
    }
  }

  lemma {:induction false} PrintMembersSnoc(ms: seq<Member>, m: Member)
    ensures PrintMembers(ms + [m])
         == PrintMembers(ms) + ((if ms == [] then "" else ",") + PrintMember(m))
  {
    if ms == [] {
      assert ms + [m] == [m];
    } else {
      assert (ms + [m])[1..] == ms[1..] + [m] && (ms + [m])[0] == ms[0];
      PrintMembersSnoc(ms[1..], m);
    }
  }

  lemma {:induction false} EscapedSnoc(s: string, c: char)
    ensures Escaped(s + [c]) == Escaped(s) + Escape(c)
  {
    if s == [] {
      assert s + [c] == [c];
    } else {
      assert (s + [c])[1..] == s[1..] + [c] && (s + [c])[0] == s[0];
      EscapedSnoc(s[1..], c);
    }
  }

  lemma ElementWritten(start: string, done: string, es: seq<Doc>, i: nat) returns (next: string)
    requires i < |es| && done == "[" + PrintElems(es[..i])
    ensures next == "[" + PrintElems(es[..i + 1])
    ensures start + done + (if i > 0 then "," else "") + Print(es[i]) == start + next
  {
    assert es[..i + 1] == es[..i] + [es[i]];
    PrintElemsSnoc(es[..i], es[i]);
    var piece := (if i > 0 then "," else "") + Print(es[i]);
    Associate("[", PrintElems(es[..i]), piece);
    next := done + piece;
  }

  lemma MemberWritten(start: string, done: string, ms: seq<Member>, i: nat) returns (next: string)
    requires i < |ms| && done == PrintMembers(ms[..i])
    ensures next == PrintMembers(ms[..i + 1])
    ensures start + done + (if i > 0 then "," else "") + Quoted(ms[i].key) + ":" + Print(ms[i].val) == start + next
  {
    assert ms[..i + 1] == ms[..i] + [ms[i]];
    PrintMembersSnoc(ms[..i], ms[i]);
    next := done + ((if i > 0 then "," else "") + PrintMember(ms[i]));
  }

  lemma Bracketed(before: string, open: string, inner: string, close: string)
    ensures before + open + inner + close == before + (open + inner + close)
  {
  }

  lemma ProfileByKeys(v: Value, keys: seq<string>)
    requires v.Object? && forall k :: k in v.fields <==> k in keys
    ensures InProfile(v) <==> forall i | 0 <= i < |keys| :: InProfile(v.fields[keys[i]])
  {
  }

  lemma ObjectPrinted(v: Value, keys: seq<string>)
    requires v.Object? && keys == SortedKeys(v.fields.Keys) && forall k :: k in v.fields <==> k in keys
    ensures Print(Canonical(v)) == "{" + PrintMembers(CanonicalMembers(v, keys)) + "}"
  {
  }

  // ----- the printer as the program writes it, into a shared buffer

  datatype PrintError = NotAnInteger(text: string) | OutOfSafeRange(text: string)

  /** bytes.Buffer, holding the scalar values written. Utf8Append says that encoding them when the
      bytes are read is the same as appending each encoding as it is written. */
  class Buffer {
    var text: string

    constructor ()
      ensures text == ""
    {
      text := "";
    }

    method Write(s: string)
      modifies this
      ensures text == old(text) + s
    {
      text := text + s;
    }

    method Bytes() returns (b: bytes)
      ensures b == Utf8(text)
    {
      b := Utf8(text);
    }

    method AppendCanonicalString(s: string)
      modifies this
      ensures text == old(text) + Quoted(s)
    {
      ghost var done := "\"";
      Write("\"");
      for i := 0 to |s|
        invariant text == old(text) + done
        invariant done == "\"" + Escaped(s[..i])
      {
        var piece := Escape(s[i]);
        Write(piece);
        Associate(old(text), done, piece);
        EscapedSnoc(s[..i], s[i]);
        assert s[..i + 1] == s[..i] + [s[i]];
        Associate("\"", Escaped(s[..i]), piece);
        done := done + piece;
      }
      assert s[..|s|] == s;
      Write("\"");
      Associate(old(text), done, "\"");
    }

    method AppendCanonical(v: Value) returns (err: Option<PrintError>)
      modifies this
      ensures err.None? <==> InProfile(v)
      ensures err.None? ==> text == old(text) + Print(Canonical(v))
      decreases v, 1
    {
      match v
      case Null => Write("null"); err := None;
      case Bool(b) => Write(if b then "true" else "false"); err := None;
      case Text(s) => AppendCanonicalString(s); err := None;
      case Num(number) =>
        var ok := IsCanonicalInteger(number);
        if !ok { return Some(NotAnInteger(number)); }
        var n := IntegerValue(number);
        if n > MAX_SAFE || n < -MAX_SAFE { return Some(OutOfSafeRange(number)); }
        Write(number);
        err := None;
      case Array(es) => err := AppendArray(v);
      case Object(m) => err := AppendObject(v);
    }

    /** One turn of the array loop. */
    method AppendElement(v: Value, i: nat) returns (err: Option<PrintError>)
      requires v.Array? && i < |v.elems|
      modifies this
      ensures err.None? <==> InProfile(v.elems[i])
      ensures err.None? ==> text == old(text) + (if i > 0 then "," else "") + Print(Canonical(v.elems[i]))
      decreases v, 0, 0
    {
      if i > 0 {
        Write(",");
      }
      err := AppendCanonical(v.elems[i]);
    }

    method AppendArray(v: Value) returns (err: Option<PrintError>)
      requires v.Array?
      modifies this
      ensures err.None? <==> InProfile(v)
      ensures err.None? ==> text == old(text) + Print(Canonical(v))
      decreases v, 0, 1
    {
      ghost var docs := Canonical(v).elems;
      ghost var done := "[";
      Write("[");
      for i := 0 to |v.elems|
        invariant text == old(text) + done
        invariant done == "[" + PrintElems(docs[..i])
        invariant forall j | 0 <= j < i :: InProfile(v.elems[j])
      {
        err := AppendElement(v, i);
        if err.Some? { return; }
        done := ElementWritten(old(text), done, docs, i);
      }
      assert docs[..|docs|] == docs;
      Write("]");
      Associate(old(text), done, "]");
      err := None;
    }

    /** One turn of the object loop. */
    method AppendMember(v: Value, key: string, comma: bool) returns (err: Option<PrintError>)
      requires v.Object? && key in v.fields
      modifies this
      ensures err.None? <==> InProfile(v.fields[key])
      ensures err.None? ==>
        text == old(text) + (if comma then "," else "") + Quoted(key) + ":" + Print(Canonical(v.fields[key]))
      decreases v, 0, 0
    {
      if comma {
        Write(",");
      }
      AppendCanonicalString(key);
      Write(":");
      err := AppendCanonical(v.fields[key]);
    }

    method AppendObject(v: Value) returns (err: Option<PrintError>)
      requires v.Object?
      modifies this
      ensures err.None? <==> InProfile(v)
      ensures err.None? ==> text == old(text) + Print(Canonical(v))
      decreases v, 0, 2
    {
      var keys := SortedFields(v.fields);
      ProfileByKeys(v, keys);
      ObjectPrinted(v, keys);
      Write("{");
      err := AppendMembers(v, keys);
      if err.Some? { return; }
      Write("}");
      Bracketed(old(text), "{", PrintMembers(CanonicalMembers(v, keys)), "}");
    }

    /** The object loop. */
    method AppendMembers(v: Value, keys: seq<string>) returns (err: Option<PrintError>)
      requires v.Object? && forall i | 0 <= i < |keys| :: keys[i] in v.fields
      modifies this
      ensures err.None? <==> forall i | 0 <= i < |keys| :: InProfile(v.fields[keys[i]])
      ensures err.None? ==> text == old(text) + PrintMembers(CanonicalMembers(v, keys))
      decreases v, 0, 1
    {
      ghost var members := CanonicalMembers(v, keys);
      ghost var done := "";
      for i := 0 to |keys|
        invariant text == old(text) + done
        invariant done == PrintMembers(members[..i])
        invariant forall j | 0 <= j < i :: InProfile(v.fields[keys[j]])
      {
        err := AppendMember(v, keys[i], i > 0);
        if err.Some? { return; }
        done := MemberWritten(old(text), done, members, i);
      }
      assert members[..|members|] == members;
      err := None;
    }
  }

  /** The keys of an object, ranged over and sorted. */
  method SortedFields(m: map<string, Value>) returns (keys: seq<string>)
    ensures keys == SortedKeys(m.Keys) && forall k :: k in m <==> k in keys
  {
    keys := CollectKeys(m);
    keys := SortKeys(keys);
    OneListing(keys, SortedKeys(m.Keys), m.Keys);
  }

  /** Ranging over a Go map: the keys arrive in no particular order. */
  method CollectKeys(m: map<string, Value>) returns (keys: seq<string>)
    ensures forall i, j | 0 <= i < j < |keys| :: keys[i] != keys[j]
    ensures KeySet(keys) == m.Keys
  {
    keys := [];
    var todo := m.Keys;
    while todo != {}
      invariant todo <= m.Keys
      invariant KeySet(keys) == m.Keys - todo
      invariant forall i, j | 0 <= i < j < |keys| :: keys[i] != keys[j]
      decreases todo
    {
      var k :| k in todo;
      assert k !in KeySet(keys);
      assert KeySet(keys + [k]) == KeySet(keys) + {k};
      keys := keys + [k];
      todo := todo - {k};
    }
  }
}
