/** What canonical bytes promise to the digests taken of them: one value, one byte string, and back. */
module CanonicalForm {
  import opened ByteText
  import opened Utf16Order
  import opened CanonicalJson
  import opened JsonParser

  // ----- listings and the values they denote

  /** What decoding into Go maps leaves of a listing: the last entry of a repeated key wins. */
  function ValueOf(d: Doc): Value {
    match d
    case DNull => Null
    case DBool(b) => Bool(b)
    case DText(s) => Text(s)
    case DNum(text) => Num(text)
    case DArray(es) => Array(seq(|es|, i requires 0 <= i < |es| => ValueOf(es[i])))
    case DObject(ms) => Object(FieldsOf(ms))
  }

  function FieldsOf(ms: seq<Member>): map<string, Value> {
    if ms == [] then map[]
    else
      var last := ms[|ms| - 1];
      FieldsOf(ms[..|ms| - 1])[last.key := ValueOf(last.val)]
  }

  lemma {:induction false} FieldFrom(ms: seq<Member>, k: string) returns (i: nat)
    requires k in FieldsOf(ms)
    ensures i < |ms| && ms[i].key == k
  {
    i := |ms| - 1;
    if ms[i].key != k {
      i := FieldFrom(ms[..|ms| - 1], k);
    }
  }

  predicate KeysDiffer(ms: seq<Member>) {
    forall i, j | 0 <= i < j < |ms| :: ms[i].key != ms[j].key
  }

  /** No object at any depth repeats a key. */
  predicate DistinctKeys(d: Doc) {
    match d
    case DArray(es) => forall i | 0 <= i < |es| :: DistinctKeys(es[i])
    case DObject(ms) => KeysDiffer(ms) && forall i | 0 <= i < |ms| :: DistinctKeys(ms[i].val)
    case _ => true
  }

  /** Every object at every depth lists its keys in ascending UTF-16 order. */
  predicate KeysAscend(d: Doc) {
    match d
    case DArray(es) => forall i | 0 <= i < |es| :: KeysAscend(es[i])
    case DObject(ms) =>
      && (forall i, j | 0 <= i < j < |ms| :: Less(ms[i].key, ms[j].key))
      && forall i | 0 <= i < |ms| :: KeysAscend(ms[i].val)
    case _ => true
  }

  lemma {:induction false} FieldAt(ms: seq<Member>, i: nat)
    requires i < |ms| && KeysDiffer(ms)
    ensures ms[i].key in FieldsOf(ms) && FieldsOf(ms)[ms[i].key] == ValueOf(ms[i].val)
  {
    if i < |ms| - 1 {
      FieldAt(ms[..|ms| - 1], i);
    }
  }

  ghost predicate Denotes(d: Doc, v: Value) {
    ValueOf(d) == v && KeysAscend(d) && (Printable(d) <==> InProfile(v))
  }

  /** The canonical listing denotes the value it was made from, ascends, and prints when the value is in profile. */
  lemma {:induction false} CanonicalDenotes(v: Value)
    ensures Denotes(Canonical(v), v)
    decreases v, 1
  {
    match v
    case Array(es) =>
      forall i | 0 <= i < |es| ensures Denotes(Canonical(es[i]), es[i]) { CanonicalDenotes(es[i]); }
    case Object(m) =>
      var ks := SortedKeys(m.Keys);
      var ms := CanonicalMembers(v, ks);
      forall i | 0 <= i < |ks| ensures ks[i] in m && Denotes(ms[i].val, m[ks[i]]) {
        CanonicalDenotes(m[ks[i]]);
      }
      MembersDenote(ks, ms, m);
    case _ =>
  }

  lemma MembersDenote(ks: seq<string>, ms: seq<Member>, m: map<string, Value>)
    requires Lists(ks, m.Keys) && |ms| == |ks|
    requires forall i | 0 <= i < |ks| :: ms[i].key == ks[i] && Denotes(ms[i].val, m[ks[i]])
    ensures Denotes(DObject(ms), Object(m))
  {
    FieldsDenote(ks, ms, m);
    if InProfile(Object(m)) {
      forall i | 0 <= i < |ms| ensures Printable(ms[i].val) { assert ks[i] in m; }
    }
    if Printable(DObject(ms)) {
      forall k | k in m ensures InProfile(m[k]) {
        var i :| 0 <= i < |ks| && ks[i] == k;
        assert Printable(ms[i].val);
      }
    }
    forall i, j | 0 <= i < j < |ms| ensures Less(ms[i].key, ms[j].key) { assert Less(ks[i], ks[j]); }
  }

  lemma FieldsDenote(ks: seq<string>, ms: seq<Member>, m: map<string, Value>)
    requires Lists(ks, m.Keys) && |ms| == |ks|
    requires forall i | 0 <= i < |ks| :: ms[i].key == ks[i] && ValueOf(ms[i].val) == m[ks[i]]
    ensures FieldsOf(ms) == m
  {
    AscendingDiffer(ms, ks);
    forall k | k in m ensures k in FieldsOf(ms) && FieldsOf(ms)[k] == m[k] {
      var i :| 0 <= i < |ks| && ks[i] == k;
      FieldAt(ms, i);
    }
    forall k | k in FieldsOf(ms) ensures k in m {
      var i := FieldFrom(ms, k);
    }
  }

  lemma AscendingDiffer(ms: seq<Member>, ks: seq<string>)
    requires |ms| == |ks| && (forall i | 0 <= i < |ms| :: ms[i].key == ks[i]) && Ascending(ks)
    ensures KeysDiffer(ms)
  {
    forall i, j | 0 <= i < j < |ms| ensures ms[i].key != ms[j].key { LessIsStrictTotalOrder(ks[i], ks[j], ks[i]); }
  }

  function Keys(ms: seq<Member>): (ks: seq<string>)
    ensures |ks| == |ms| && forall i | 0 <= i < |ms| :: ks[i] == ms[i].key
  {
    seq(|ms|, i requires 0 <= i < |ms| => ms[i].key)
  }

  lemma KeysListFields(ms: seq<Member>)
    requires Ascending(Keys(ms))
    ensures KeysDiffer(ms) && Lists(Keys(ms), FieldsOf(ms).Keys)
  {
    AscendingDiffer(ms, Keys(ms));
    forall k | k in FieldsOf(ms) ensures k in Keys(ms) {
      var i := FieldFrom(ms, k);
      assert Keys(ms)[i] == k;
    }
    forall k | k in Keys(ms) ensures k in FieldsOf(ms) {
      var i :| 0 <= i < |ms| && Keys(ms)[i] == k;
      FieldAt(ms, i);
    }
  }

  /** An ascending listing is the canonical listing of what it denotes. */
  lemma {:induction false} AscendingIsCanonical(d: Doc)
    requires KeysAscend(d)
    ensures Canonical(ValueOf(d)) == d
  {
    match d
    case DArray(es) =>
      forall i | 0 <= i < |es| ensures Canonical(ValueOf(es[i])) == es[i] { AscendingIsCanonical(es[i]); }
    case DObject(ms) =>
      var v, ks := ValueOf(d), Keys(ms);
      assert Ascending(ks);
      KeysListFields(ms);
      OneListing(ks, SortedKeys(v.fields.Keys), v.fields.Keys);
      forall i | 0 <= i < |ms| ensures ks[i] in v.fields && Canonical(v.fields[ks[i]]) == ms[i].val {
        FieldAt(ms, i);
        AscendingIsCanonical(ms[i].val);
      }
      assert CanonicalMembers(v, ks) == ms;
    case _ =>
  }

  // ----- one value, one byte string; one byte string, one value

  /** Reads a value back from its canonical bytes. */
  function Recover(b: bytes): Option<Value> {
    match DecodeUtf8(b)
    case None => None
    case Some(s) =>
      var p := ParseDoc(s);
      if p.Parsed? && p.rest == "" && KeysAscend(p.val) then Some(ValueOf(p.val)) else None
  }

  /** Recovery succeeds on exactly the canonical bytes of the values in the profile. */
  lemma RecoverExactly(b: bytes, v: Value)
    ensures Recover(b) == Some(v) <==> InProfile(v) && b == CanonicalBytes(v)
  {
    var d := Canonical(v);
    CanonicalDenotes(v);
    if InProfile(v) && b == CanonicalBytes(v) {
      DecodeUtf8Encoded(Print(d));
      ParsePrinted(d, "");
      assert Print(d) + "" == Print(d);
    }
    if Recover(b) == Some(v) {
      var s := DecodeUtf8(b).value;
      Utf8Decoded(b);
      PrintParsed(s);
      var e := ParseDoc(s).val;
      assert Print(e) + "" == Print(e);
      AscendingIsCanonical(e);
    }
  }

  lemma EqualBytesMeanEqualValues(v: Value, w: Value)
    requires InProfile(v) && InProfile(w)
    ensures CanonicalBytes(v) == CanonicalBytes(w) <==> v == w
  {
    RecoverExactly(CanonicalBytes(v), v);
    RecoverExactly(CanonicalBytes(v), w);
  }

  // ----- the order in which entries are written does not matter

  /** The same listing up to the order of object entries, at every depth. */
  ghost predicate Reordered(d: Doc, e: Doc) {
    match (d, e)
    case (DArray(es), DArray(fs)) => |es| == |fs| && forall i | 0 <= i < |es| :: Reordered(es[i], fs[i])
    case (DObject(ms), DObject(ns)) =>
      |ms| == |ns| && forall i | 0 <= i < |ms| :: exists j | 0 <= j < |ns| :: ReorderedMember(ms[i], ns[j])
    case _ => d == e
  }

  ghost predicate ReorderedMember(m: Member, n: Member) {
    m.key == n.key && Reordered(m.val, n.val)
  }

  lemma {:induction false} KeyCount(ms: seq<Member>)
    requires KeysDiffer(ms)
    ensures |FieldsOf(ms).Keys| == |ms|
  {
    if ms != [] {
      var init := ms[..|ms| - 1];
      KeyCount(init);
      if ms[|init|].key in FieldsOf(init) {
        var i := FieldFrom(init, ms[|init|].key);
      }
      assert FieldsOf(ms).Keys == FieldsOf(init).Keys + {ms[|ms| - 1].key};
    }
  }

  lemma SubsetOfSameSize<T>(s: set<T>, t: set<T>)
    requires s <= t && |s| == |t|
    ensures s == t
  {
    assert t == s + (t - s) && |t| == |s| + |t - s|;
  }

  /** Distinct-key listings denote the same value exactly when they differ only in entry order. */
  lemma {:induction false} SameValueIsReordered(d: Doc, e: Doc)
    requires DistinctKeys(d) && DistinctKeys(e)
    ensures ValueOf(d) == ValueOf(e) <==> Reordered(d, e)
    decreases d, 1
  {
    if d.DArray? && e.DArray? {
      forall i | 0 <= i < |d.elems| && i < |e.elems|
        ensures ValueOf(d.elems[i]) == ValueOf(e.elems[i]) <==> Reordered(d.elems[i], e.elems[i])
      {
        SameValueIsReordered(d.elems[i], e.elems[i]);
      }
      if ValueOf(d) == ValueOf(e) {
        var vs := ValueOf(d).elems;
        assert forall i | 0 <= i < |vs| :: vs[i] == ValueOf(d.elems[i]) == ValueOf(e.elems[i]);
      }
    } else if d.DObject? && e.DObject? {
      SameFieldsIsReordered(d, e);
    }
  }

  lemma {:induction false} SameFieldsIsReordered(d: Doc, e: Doc)
    requires d.DObject? && e.DObject? && DistinctKeys(d) && DistinctKeys(e)
    ensures ValueOf(d) == ValueOf(e) <==> Reordered(d, e)
    decreases d, 0
  {
    var ms, ns := d.members, e.members;
    var f, g := FieldsOf(ms), FieldsOf(ns);
    KeyCount(ms);
    KeyCount(ns);
    if f == g {
      forall i | 0 <= i < |ms| ensures exists j | 0 <= j < |ns| :: ReorderedMember(ms[i], ns[j]) {
        FieldAt(ms, i);
        var j := FieldFrom(ns, ms[i].key);
        FieldAt(ns, j);
        SameValueIsReordered(ms[i].val, ns[j].val);
        assert ReorderedMember(ms[i], ns[j]);
      }
    }
    if Reordered(d, e) {
      forall k | k in f ensures k in g && f[k] == g[k] {
        var i := FieldFrom(ms, k);
        var j :| 0 <= j < |ns| && ReorderedMember(ms[i], ns[j]);
        FieldAt(ms, i);
        FieldAt(ns, j);
        SameValueIsReordered(ms[i].val, ns[j].val);
      }
      SubsetOfSameSize(f.Keys, g.Keys);
      assert f == g;
    }
  }

  /** Two distinct-key listings get the same canonical bytes exactly when they differ only in entry order. */
  lemma BytesIgnoreEntryOrder(d: Doc, e: Doc)
    requires DistinctKeys(d) && DistinctKeys(e) && InProfile(ValueOf(d)) && InProfile(ValueOf(e))
    ensures CanonicalBytes(ValueOf(d)) == CanonicalBytes(ValueOf(e)) <==> Reordered(d, e)
  {
    EqualBytesMeanEqualValues(ValueOf(d), ValueOf(e));
    SameValueIsReordered(d, e);
  }

  /** Canonicalizing canonical bytes gives them back. */
  lemma CanonicalTwice(v: Value)
    requires InProfile(v)
    ensures var s := DecodeUtf8(CanonicalBytes(v));
      && s.Some? && ParseDoc(s.value).Parsed? && ParseDoc(s.value).rest == ""
      && var d := ParseDoc(s.value).val;
         DistinctKeys(d) && CanonicalBytes(ValueOf(d)) == CanonicalBytes(v)
  {
    RecoverExactly(CanonicalBytes(v), v);
    AscendingIsDistinct(ParseDoc(DecodeUtf8(CanonicalBytes(v)).value).val);
  }

  lemma {:induction false} AscendingIsDistinct(d: Doc)
    requires KeysAscend(d)
    ensures DistinctKeys(d)
  {
    match d
    case DArray(es) =>
      forall i | 0 <= i < |es| ensures DistinctKeys(es[i]) { AscendingIsDistinct(es[i]); }
    case DObject(ms) =>
      forall i | 0 <= i < |ms| ensures DistinctKeys(ms[i].val) { AscendingIsDistinct(ms[i].val); }
      forall i, j | 0 <= i < j < |ms| ensures ms[i].key != ms[j].key {
        LessIsStrictTotalOrder(ms[i].key, ms[j].key, ms[i].key);
      }
    case _ =>
  }
}
