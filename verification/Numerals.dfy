/** How integers and two-decimal numbers are spelled, and that the spelling is a JSON number. */
module Numerals {
  import opened Json
  import opened Text

  function DigitText(d: nat): (r: string)
    requires d < 10
    ensures |r| == 1 && IsDigit(r[0]) && DigitValue(r[0]) == d
  {
    ["0123456789"[d]]
  }

  function NatText(n: nat): string {
    if n < 10 then DigitText(n) else NatText(n / 10) + DigitText(n % 10)
  }

  function IntText(n: int): string {
    if n < 0 then "-" + NatText(-n) else NatText(n)
  }

  /** A number rounded to hundredths, as printf spells it; zero may carry a sign. */
  datatype Fixed = Fixed(negative: bool, hundredths: nat)

  function FixedText(x: Fixed): string {
    (if x.negative then "-" else "") + NatText(x.hundredths / 100) + "." + DigitText(x.hundredths / 10 % 10) +
    DigitText(x.hundredths % 10)
  }

  lemma ZeroReads()
    ensures Decimal("0") == 0
  {
    assert "0"[..0] == "";
  }

  /** The spelling reads back as the number, without needless zeros. */
  lemma {:induction false} NatTextReads(n: nat)
    ensures var t := NatText(n);
            t != "" && AllDigits(t) && Decimal(t) == n && (t[0] == '0' ==> t == "0")
  {
    if n >= 10 {
      NatTextReads(n / 10);
      var front, t := NatText(n / 10), NatText(n);
      assert t[..|t| - 1] == front && t[|t| - 1] == DigitText(n % 10)[0];
      ZeroReads();
    } else {
      assert NatText(n)[..0] == "";
    }
  }

  /** Digits without a needless zero in front are the integer part of whatever follows them. */
  lemma IntPart(n: nat, rest: string)
    requires rest == "" || !IsDigit(rest[0])
    ensures var t := NatText(n) + rest;
            IntLength(t) == |NatText(n)| > 0 && t[|NatText(n)|..] == rest && SignLength(t) == 0
  {
    hide NatText, Decimal, DigitRun;
    NatTextReads(n);
    DigitsEnd(NatText(n), rest);
    assert IsDigit(NatText(n)[0]);
  }

  lemma SignedNumber(negative: bool, n: nat, rest: string)
    requires rest == "" || !IsDigit(rest[0])
    ensures var t := (if negative then "-" else "") + NatText(n) + rest;
            NumberLength(t) == |t| - |rest| + FracLength(rest) + ExpLength(rest[FracLength(rest)..])
  {
    hide NatText, IntLength, FracLength, ExpLength;
    IntPart(n, rest);
    var sign := if negative then "-" else "";
    var t := sign + NatText(n) + rest;
    assert t == sign + (NatText(n) + rest);
    assert SignLength(t) == |sign|;
    assert t[|sign|..] == NatText(n) + rest;
    var whole := |sign| + |NatText(n)|;
    assert t[whole..] == rest;
    assert t[whole + FracLength(rest)..] == rest[FracLength(rest)..];
  }

  lemma IntTextIsNumber(n: int)
    ensures IsNumber(IntText(n))
  {
    hide NatText, NumberLength;
    NatTextReads(if n < 0 then -n else n);
    SignedNumber(n < 0, if n < 0 then -n else n, "");
    assert IntText(n) == (if n < 0 then "-" else "") + NatText(if n < 0 then -n else n) + "";
  }

  lemma FixedTextIsNumber(x: Fixed)
    ensures IsNumber(FixedText(x))
  {
    hide NatText, NumberLength, DigitText;
    var rest := "." + (DigitText(x.hundredths / 10 % 10) + DigitText(x.hundredths % 10));
    assert rest[1..] == DigitText(x.hundredths / 10 % 10) + DigitText(x.hundredths % 10);
    assert rest[1..] + "" == rest[1..];
    DigitsEnd(rest[1..], "");
    assert FracLength(rest) == |rest| && rest[3..] == "";
    SignedNumber(x.negative, x.hundredths / 100, rest);
    var t := (if x.negative then "-" else "") + NatText(x.hundredths / 100) + rest;
    assert FixedText(x) == t;
  }
}
