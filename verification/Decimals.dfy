/** Decimal text of integers, as fmt's %d and strconv read and write it. */
module Decimals {
  predicate IsDigit(c: char) {
    '0' <= c <= '9'
  }

  predicate AllDigits(s: string) {
    forall i | 0 <= i < |s| :: IsDigit(s[i])
  }

  function Digit(d: nat): (c: char)
    requires d < 10
    ensures IsDigit(c) && c as int - '0' as int == d
  {
    (d + '0' as int) as char
  }

  function Decimal(n: nat): (s: string)
    ensures s != [] && AllDigits(s)
    ensures s[0] == '0' <==> n == 0
    ensures n == 0 ==> |s| == 1
  {
    if n < 10 then [Digit(n)] else Decimal(n / 10) + [Digit(n % 10)]
  }

  function Number(s: string): (n: nat)
    requires AllDigits(s)
  {
    if s == [] then 0 else Number(s[..|s| - 1]) * 10 + (s[|s| - 1] as int - '0' as int)
  }

  lemma {:induction false} NumberOfDecimal(n: nat)
    ensures Number(Decimal(n)) == n
  {
    if n >= 10 {
      NumberOfDecimal(n / 10);
      assert Decimal(n)[..|Decimal(n)| - 1] == Decimal(n / 10);
    } else {
      assert Decimal(n)[..0] == [];
    }
  }

  lemma {:induction false} DecimalOfNumber(s: string)
    requires s != [] && AllDigits(s)
    requires s[0] == '0' ==> |s| == 1
    ensures Decimal(Number(s)) == s
  {
    var init := s[..|s| - 1];
    assert s == init + [s[|s| - 1]];
    if init != [] {
      DecimalOfNumber(init);
    }
  }

  /** The text of a signed integer. */
  function Integer(n: int): (s: string) {
    if n < 0 then "-" + Decimal(-n) else Decimal(n)
  }

  /** fmt's %04d for a non-negative index: zero padded to at least four digits. */
  function Pad4(n: nat): (s: string)
    ensures |s| >= 4 && AllDigits(s)
  {
    var d := Decimal(n);
    if |d| >= 4 then d else seq(4 - |d|, i => '0') + d
  }

  lemma {:induction false} NumberOfPadded(zeros: string, s: string)
    requires AllDigits(zeros + s) && AllDigits(s) && forall i | 0 <= i < |zeros| :: zeros[i] == '0'
    ensures Number(zeros + s) == Number(s)
    decreases |s|, |zeros|
  {
    if s != [] {
      var t := zeros + s;
      assert t[..|t| - 1] == zeros + s[..|s| - 1];
      NumberOfPadded(zeros, s[..|s| - 1]);
    } else if zeros != [] {
      var t := zeros + s;
      assert t[..|t| - 1] == zeros[..|zeros| - 1] + s;
      NumberOfPadded(zeros[..|zeros| - 1], s);
    }
  }

  lemma Pad4Injective(m: nat, n: nat)
    requires Pad4(m) == Pad4(n)
    ensures m == n
  {
    forall k: nat ensures Number(Pad4(k)) == k {
      var d := Decimal(k);
      NumberOfDecimal(k);
      if |d| < 4 {
        var zeros := seq(4 - |d|, i => '0');
        assert Pad4(k) == zeros + d;
        NumberOfPadded(zeros, d);
      }
    }
  }
}
