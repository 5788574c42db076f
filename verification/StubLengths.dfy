/** How long the two placeholders are: they differ by a constant and the path of the file. */
module StubLengths {
  import opened ByteText
  import opened Decimals
  import opened ToolResultLedger

  predicate Ascii(s: string) {
    forall c | c in s :: c as int < 0x80
  }

  /** Text of ASCII characters takes a byte for each. */
  lemma {:induction false} AsciiLength(s: string)
    requires Ascii(s)
    ensures |Utf8(s)| == |s|
  {
    if s != "" {
      assert s[0] in s && forall c | c in s[1..] :: c in s;
      AsciiLength(s[1..]);
    }
  }

  lemma OneChar(c: char)
    ensures Utf8([c]) == EncodeChar(c)
  {
    Utf8Cons(c, "");
    assert [c] + "" == [c];
  }

  // ----- the pieces of the two texts

  lemma DashLength()
    ensures |Utf8("— ")| == 4
  {
    OneChar('—');
    OneChar(' ');
    Utf8Append("—", " ");
    assert "—" + " " == "— ";
  }

  lemma ReclaimLength()
    ensures |Utf8("to reclaim context ")| == 19
  {
    AsciiLength("to reclaim context ");
  }

  lemma RerunLength()
    ensures |Utf8(" bytes. Re-run the tool ")| == 24
  {
    AsciiLength(" bytes. Re-run the tool ");
  }

  lemma NeedLength()
    ensures |Utf8("if you still need ")| == 18
  {
    AsciiLength("if you still need ");
  }

  lemma OutputLength()
    ensures |Utf8("this output.]")| == 13
  {
    AsciiLength("this output.]");
  }

  lemma SavedLength()
    ensures |Utf8(" bytes saved to ")| == 16
  {
    AsciiLength(" bytes saved to ");
  }

  lemma RecoverLength()
    ensures |Utf8("; read_file to recover.]")| == 24
  {
    AsciiLength("; read_file to recover.]");
  }

  lemma EarlierLength()
    ensures |Utf8("[earlier ")| == 9
  {
    AsciiLength("[earlier ");
  }

  lemma ElidedLength()
    ensures |Utf8(" result elided ")| == 15
  {
    AsciiLength(" result elided ");
  }

  lemma HeadLength(tool: string)
    ensures |Utf8("[earlier " + tool + " result elided ")| == 24 + |Utf8(tool)|
  {
    EarlierLength();
    ElidedLength();
    Utf8Append("[earlier ", tool);
    Utf8Append("[earlier " + tool, " result elided ");
  }

  lemma BareLength(tool: string, size: nat)
    ensures |BareStub(tool, size)| == 102 + |Utf8(tool)| + |Utf8(Decimal(size))|
  {
    HeadLength(tool);
    DashLength();
    ReclaimLength();
    RerunLength();
    NeedLength();
    OutputLength();
    SixPieces("to reclaim context ", "— ", Decimal(size), " bytes. Re-run the tool ", "if you still need ", "this output.]");
  }

  lemma SixPieces(a: string, b: string, c: string, d: string, e: string, f: string)
    ensures |Utf8(a + b + c + d + e + f)| == |Utf8(a)| + |Utf8(b)| + |Utf8(c)| + |Utf8(d)| + |Utf8(e)| + |Utf8(f)|
  {
    FivePieces(a, b, c, d, e);
    Utf8Append(a + b + c + d + e, f);
  }

  lemma FivePieces(a: string, b: string, c: string, d: string, e: string)
    ensures |Utf8(a + b + c + d + e)| == |Utf8(a)| + |Utf8(b)| + |Utf8(c)| + |Utf8(d)| + |Utf8(e)|
  {
    Utf8Append(a, b);
    Utf8Append(a + b, c);
    Utf8Append(a + b + c, d);
    Utf8Append(a + b + c + d, e);
  }

  lemma SpilledLength(tool: string, size: nat, path: string)
    ensures |SpilledStub(tool, size, path)| == 68 + |Utf8(tool)| + |Utf8(Decimal(size))| + |Utf8(path)|
  {
    HeadLength(tool);
    DashLength();
    SavedLength();
    RecoverLength();
    FivePieces("— ", Decimal(size), " bytes saved to ", path, "; read_file to recover.]");
  }

  /** The bare placeholder is the longer one exactly when the path is shorter than 34 bytes, whatever
      the tool and the size. */
  lemma BareIsLongerExactly(tool: string, size: nat, path: string)
    ensures |BareStub(tool, size)| > |SpilledStub(tool, size, path)| <==> |Utf8(path)| < 34
  {
    BareLength(tool, size);
    SpilledLength(tool, size, path);
  }

  lemma ThreeDigits(n: nat)
    requires 100 <= n < 1000
    ensures |Utf8(Decimal(n))| == 3
  {
    assert Decimal(n) == Decimal(n / 10) + [Digit(n % 10)];
    assert Decimal(n / 10) == Decimal(n / 10 / 10) + [Digit(n / 10 % 10)];
    assert forall c | c in Decimal(n) :: IsDigit(c);
    AsciiLength(Decimal(n));
  }

  /** The size of the bare placeholder of a result of that size, for a tool name that is not huge. */
  function TightSize(tool: string): nat {
    105 + |Utf8(tool)|
  }

  /** A result of this size is longer than the placeholder that names its file, if the path is short,
      and not than the bare one. */
  lemma TightFits(tool: string, path: string)
    requires |Utf8(tool)| < 895 && |Utf8(path)| < 34
    ensures var n := TightSize(tool); |SpilledStub(tool, n, path)| < n == |BareStub(tool, n)|
  {
    ThreeDigits(TightSize(tool));
    BareLength(tool, TightSize(tool));
    SpilledLength(tool, TightSize(tool), path);
  }

  // ----- the paths of spill files

  lemma ExtensionLength()
    ensures |Utf8(".txt")| == 4
  {
    AsciiLength(".txt");
  }

  lemma PathLength(dir: string, j: nat)
    ensures |Utf8(SpillPath(dir, j))| == |Utf8(dir)| + |Pad4(j)| + 4 >= |Utf8(dir)| + 8
  {
    assert forall c | c in Pad4(j) :: IsDigit(c);
    AsciiLength(Pad4(j));
    ExtensionLength();
    Utf8Append(dir, Pad4(j));
    Utf8Append(dir + Pad4(j), ".txt");
  }

  lemma FirstPathLength(dir: string)
    ensures |Utf8(SpillPath(dir, 0))| == |Utf8(dir)| + 8
  {
    PathLength(dir, 0);
    assert |Decimal(0)| == 1 && |Pad4(0)| == 4;
  }

  /** The default directory, when it has no subdirectory for the run. */
  lemma DefaultDirLength()
    ensures |Utf8("/tmp/sympozium/elided/")| == 22
  {
    AsciiLength("/tmp/sympozium/elided/");
  }
}
