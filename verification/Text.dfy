/** Strings as the Qt and standard library calls of the repository see them. */
module Text {
  import opened Types

  function Fold(c: char): char {
    if 'A' <= c <= 'Z' then (c as int + 32) as char else c
  }

  const CAPITALS := "ABCDEFGHIJKLMNOPQRSTUVWXYZ"
  const SMALL := "abcdefghijklmnopqrstuvwxyz"

  /** Each of the 26 capitals becomes its small letter, and nothing else changes. */
  lemma FoldingIsExact(c: char)
    ensures forall k :: 0 <= k < 26 ==> Fold(CAPITALS[k]) == SMALL[k]
    ensures c !in CAPITALS ==> Fold(c) == c
  {
    if 'A' <= c <= 'Z' {
      assert CAPITALS[c as int - 65] == c;
    }
  }

  /** Characters that fold alike are equal or both letters. */
  lemma FoldsAlike(a: char, b: char)
    requires Fold(a) == Fold(b)
    ensures a == b || (IsLetter(a) && IsLetter(b))
  {}

  predicate IsLetter(c: char) { 'a' <= c <= 'z' || 'A' <= c <= 'Z' }

  function Lower(s: string): (r: string)
    ensures |r| == |s| && forall k :: 0 <= k < |s| ==> r[k] == Fold(s[k])
  {
    seq(|s|, k requires 0 <= k < |s| => Fold(s[k]))
  }

  predicate IsSpace(c: char) { c == ' ' || '\t' <= c <= '\r' || c == '\U{85}' || c == '\U{A0}' }

  function TrimLeft(s: string): string {
    if s != "" && IsSpace(s[0]) then TrimLeft(s[1..]) else s
  }

  function TrimRight(s: string): string {
    if s != "" && IsSpace(s[|s| - 1]) then TrimRight(s[..|s| - 1]) else s
  }

  function Trimmed(s: string): string { TrimRight(TrimLeft(s)) }

  lemma TrimKeepsTight(s: string)
    requires s == "" || (!IsSpace(s[0]) && !IsSpace(s[|s| - 1]))
    ensures Trimmed(s) == s
  {}

  predicate EndsWith(s: string, t: string) {
    |t| <= |s| && s[|s| - |t|..] == t
  }

  predicate Contains(s: string, t: string) {
    exists k :: 0 <= k <= |s| && t <= s[k..]
  }

  /** The position of the first c, |s| when there is none. */
  function IndexOf(s: string, c: char): (k: nat)
    ensures k <= |s| && (k < |s| ==> s[k] == c) && forall i :: 0 <= i < k ==> s[i] != c
  {
    if s == "" || s[0] == c then 0 else 1 + IndexOf(s[1..], c)
  }

  /** The position of the last c, -1 when there is none. */
  function LastIndexOf(s: string, c: char): (k: int)
    ensures -1 <= k < |s| && (k >= 0 ==> s[k] == c) && forall i :: k < i < |s| ==> s[i] != c
  {
    if s == "" then -1
    else if s[|s| - 1] == c then |s| - 1
    else LastIndexOf(s[..|s| - 1], c)
  }

  // ---------- Decimal digits ----------

  predicate IsDigit(c: char) { '0' <= c <= '9' }

  predicate AllDigits(s: string) { forall k :: 0 <= k < |s| ==> IsDigit(s[k]) }

  function DigitValue(c: char): nat
    requires IsDigit(c)
  {
    c as int - '0' as int
  }

  function Decimal(digits: string): nat
    requires AllDigits(digits)
  {
    if digits == "" then 0 else 10 * Decimal(digits[..|digits| - 1]) + DigitValue(digits[|digits| - 1])
  }

  function DigitRun(s: string): (k: nat)
    ensures k <= |s| && (forall i :: 0 <= i < k ==> IsDigit(s[i])) && (k < |s| ==> !IsDigit(s[k]))
  {
    if s == "" || !IsDigit(s[0]) then 0 else 1 + DigitRun(s[1..])
  }

  /** What starts with no digit does not lengthen the digits in front of it. */
  lemma DigitsStop(t: string, rest: string)
    requires rest == "" || !IsDigit(rest[0])
    ensures DigitRun(t + rest) == DigitRun(t)
  {
    hide DigitRun;
    var s, k := t + rest, DigitRun(t);
    assert forall i :: 0 <= i < |t| ==> s[i] == t[i];
    assert rest != "" ==> s[|t|] == rest[0];
    assert k < |s| ==> !IsDigit(s[k]);
  }

  lemma DigitsEnd(digits: string, rest: string)
    requires AllDigits(digits) && (rest == "" || !IsDigit(rest[0]))
    ensures var s := digits + rest; DigitRun(s) == |digits| && s[..|digits|] == digits
  {
    hide DigitRun;
    DigitsStop(digits, rest);
    assert DigitRun(digits) == |digits|;
  }

  /** What follows the leading characters of the set. */
  function SkipBlanks(s: string, blanks: set<char>): (r: string)
    ensures |r| <= |s|
  {
    if s != "" && s[0] in blanks then SkipBlanks(s[1..], blanks) else s
  }

  /** The characters isspace accepts. */
  const C_SPACES: set<char> := {' ', '\t', '\n', '\U{B}', '\U{C}', '\r'}

  /** Leading blanks, an optional sign, digits, and anything after them; None when stoi would throw. */
  function StoI(s: string): Option<int> {
    var t := SkipBlanks(s, C_SPACES);
    var negative := t != "" && t[0] == '-';
    var u := if t != "" && (t[0] == '-' || t[0] == '+') then t[1..] else t;
    var k := DigitRun(u);
    if k == 0 then None
    else
      var d: int := Decimal(u[..k]);
      var n := if negative then -d else d;
      if -0x8000_0000 <= n < 0x8000_0000 then Some(n) else None
  }

  /** A number in decimal digits, with a minus sign in front of it when it is negative. */
  datatype Numeral = Numeral(negative: bool, digits: string) {
    predicate Valid() { digits != "" && AllDigits(digits) }

    function Value(): int
      requires Valid()
    {
      if negative then -(Decimal(digits) as int) else Decimal(digits)
    }

    function Text(): string { (if negative then "-" else "") + digits }
  }

  lemma StartsPlainly(s: string)
    requires s != "" && (IsDigit(s[0]) || s[0] == '-')
    ensures SkipBlanks(s, C_SPACES) == s
  {}

  /** Numbers that fit an int are read as such, whatever follows them. */
  lemma StoIReadsNumbers(n: Numeral, rest: string)
    requires n.Valid() && (rest == "" || !IsDigit(rest[0]))
    requires -0x8000_0000 <= n.Value() < 0x8000_0000
    ensures StoI(n.Text() + rest) == Some(n.Value())
  {
    hide Decimal, DigitRun, SkipBlanks;
    var s := n.Text() + rest;
    assert IsDigit(n.digits[0]);
    StartsPlainly(s);
    DigitsEnd(n.digits, rest);
    if n.negative { assert s[1..] == n.digits + rest; }
    else { assert s == n.digits + rest; }
  }

  // ---------- Hexadecimal digits ----------

  function HexDigit(n: nat): char
    requires n < 16
  {
    "0123456789abcdef"[n]
  }

  function HexValue(c: char): Option<nat> {
    if '0' <= c <= '9' then Some(c as int - '0' as int)
    else if 'a' <= c <= 'f' then Some(c as int - 'a' as int + 10)
    else if 'A' <= c <= 'F' then Some(c as int - 'A' as int + 10)
    else None
  }

  lemma HexDigitReads(n: nat)
    requires n < 16
    ensures HexValue(HexDigit(n)) == Some(n) && Fold(HexDigit(n)) == HexDigit(n)
    ensures !IsSpace(HexDigit(n))
  {}

  /** Two lower-case digits, the high half first. */
  function HexPair(n: nat): (s: string)
    requires n < 0x100
    ensures |s| == 2
  {
    [HexDigit(n / 16), HexDigit(n % 16)]
  }
}
