/** The colour tokens of a configuration, and the hue the toolkit gives to the colour they spell. */
module ColorTokens {
  import opened HueCircle
  import opened Text
  import opened Types

  const NO_COLOR: Color := Hsv(false, 0, -1, 0, 0)

  // ---------- Reading a token ----------

  function HexNumber(s: string): Option<nat> {
    if s == "" then None
    else if |s| == 1 then HexValue(s[0])
    else
      match (HexNumber(s[..|s| - 1]), HexValue(s[|s| - 1]))
      case (Some(high), Some(low)) => Some(16 * high + low)
      case _ => None
  }

  /** Blanks around a field and a sign in front of its digits are accepted, so that " 7" and "-1" are numbers. */
  function HexInt(field: string): Option<int> {
    var s := Trimmed(field);
    var digits := if s != "" && (s[0] == '-' || s[0] == '+') then s[1..] else s;
    match HexNumber(digits)
    case None => None
    case Some(n) => Some(if s[0] == '-' then -(n as int) else n)
  }

  datatype Channels = Channels(r: int, g: int, b: int, a: int) {
    predicate InRange() { 0 <= r < 256 && 0 <= g < 256 && 0 <= b < 256 && 0 <= a < 256 }
  }

  /** Three fields of two characters and a fourth one for the opacity; what follows them is ignored. */
  function ParseHex(h: string): Option<Channels> {
    if |h| < 6 then None
    else
      match (HexInt(h[..2]), HexInt(h[2..4]), HexInt(h[4..6]))
      case (Some(r), Some(g), Some(b)) =>
        var a := if |h| >= 8 then HexInt(h[6..8]) else None;
        Some(Channels(r, g, b, if a.Some? then a.value else 255))
      case _ => None
  }

  function UpToParen(s: string): string { s[..IndexOf(s, ')')] }

  /** What parseHyprColorToken makes of a token. */
  function ColorOf(token: string): Color {
    var s := Lower(Trimmed(token));
    if "rgba(" <= s && ParseHex(UpToParen(s[5..])).Some? then
      ToColor(ParseHex(UpToParen(s[5..])).value)
    else if "rgb(" <= s && ParseHex(UpToParen(s[4..])).Some? then
      ToColor(ParseHex(UpToParen(s[4..])).value.(a := 255))
    else NO_COLOR
  }

  // ---------- From channels to hue, saturation and value ----------

  function Max(x: int, y: int): int { if x >= y then x else y }

  function Min(x: int, y: int): int { if x <= y then x else y }

  /** The quotient rounded to the nearest integer, halves upwards. */
  function RoundDiv(x: nat, d: nat): nat
    requires d > 0
  {
    (2 * x + d) / (2 * d)
  }

  /** The angle on the colour wheel in units of 60 / delta degrees. */
  function Sextants(r: int, g: int, b: int): int {
    var top := Max(r, Max(g, b));
    var delta := top - Min(r, Min(g, b));
    if r == top then (if g >= b then g - b else g - b + 6 * delta)
    else if g == top then 2 * delta + b - r
    else 4 * delta + r - g
  }

  /** Greys have no hue. The toolkit keeps hundredths of a degree and 16 bits of saturation, and cuts both down. */
  function ToColor(c: Channels): Color {
    if !c.InRange() then NO_COLOR
    else
      var top := Max(c.r, Max(c.g, c.b));
      var delta := top - Min(c.r, Min(c.g, c.b));
      if delta == 0 then Hsv(true, c.a, -1, 0, top)
      else
        var n := Sextants(c.r, c.g, c.b);
        HueFits(n, delta);
        Hsv(true, c.a, RoundDiv(6000 * n, delta) / 100, RoundDiv(0xFFFF * delta, top) / 0x100, top)
  }

  lemma QuotientBelow(x: nat, d: nat, k: nat)
    requires d > 0 && x < k * d
    ensures x / d < k
  {
    MultiplesAreOrdered(k, x / d, d);
  }

  lemma MultiplesAreOrdered(m: nat, n: nat, d: nat)
    ensures m <= n ==> m * d <= n * d
  {}

  lemma HueFits(n: int, delta: int)
    requires 0 < delta < 256 && 0 <= n < 6 * delta
    ensures RoundDiv(6000 * n, delta) / 100 < 360
  {
    QuotientBelow(2 * (6000 * n) + delta, 2 * delta, 36000);
  }

  // ---------- Tokens for given colours ----------

  function HexText(c: Channels): (h: string)
    requires c.InRange()
    ensures |h| == 8
  {
    HexPair(c.r) + HexPair(c.g) + HexPair(c.b) + HexPair(c.a)
  }

  /** The usual spelling: rgba(rrggbbaa). */
  function ColorToken(c: Channels): (t: string)
    requires c.InRange()
    ensures |t| == 14
  {
    "rgba(" + HexText(c) + ")"
  }

  lemma SignsAreNoDigits()
    ensures HexValue('-') == None && HexValue('+') == None && HexValue(')') == None
  {}

  lemma HexPairReads(n: nat)
    requires n < 0x100
    ensures HexInt(HexPair(n)) == Some(n)
  {
    hide HexDigit, HexValue, IsSpace, Fold;
    var s := HexPair(n);
    HexDigitReads(n / 16);
    HexDigitReads(n % 16);
    assert HexValue(s[0]).Some? && HexValue(s[1]).Some?;
    SignsAreNoDigits();
    TrimKeepsTight(s);
    assert |s[..1]| == 1 && HexNumber(s[..1]) == Some(n / 16);
    assert HexNumber(s) == Some(16 * (n / 16) + n % 16);
  }

  /** A field of a token is found again wherever it stands. */
  lemma FieldReads(h: string, at: nat, n: nat)
    requires at + 2 <= |h| && n < 0x100 && h[at..at + 2] == HexPair(n)
    ensures HexInt(h[at..at + 2]) == Some(n)
  {
    HexPairReads(n);
  }

  lemma PlainPair(n: nat)
    requires n < 0x100
    ensures forall c :: c in HexPair(n) ==> Fold(c) == c && !IsSpace(c) && HexValue(c).Some?
  {
    hide HexDigit, IsSpace, Fold;
    HexDigitReads(n / 16);
    HexDigitReads(n % 16);
  }

  lemma HexTextReads(c: Channels)
    requires c.InRange()
    ensures ParseHex(HexText(c)) == Some(c)
    ensures forall x :: x in HexText(c) ==> Fold(x) == x && !IsSpace(x) && HexValue(x).Some?
  {
    hide HexPair, HexInt, Fold, IsSpace;
    var h := HexText(c);
    FieldReads(h, 0, c.r);
    FieldReads(h, 2, c.g);
    FieldReads(h, 4, c.b);
    FieldReads(h, 6, c.a);
    PlainPair(c.r);
    PlainPair(c.g);
    PlainPair(c.b);
    PlainPair(c.a);
  }

  /** A character of a token: a hexadecimal digit or one of the others in "rgba()". */
  predicate IsTokenChar(c: char) { HexValue(c).Some? || c == 'r' || c == 'g' || c == '(' || c == ')' }

  lemma TokenLooks(c: Channels)
    requires c.InRange()
    ensures var t := ColorToken(c);
            "rgba(" <= t && t[5..13] == HexText(c) && t[13] == ')' &&
            Trimmed(t) == t && Lower(t) == t && forall x :: x in t ==> IsTokenChar(x)
  {
    hide HexText, Trimmed;
    var t := ColorToken(c);
    HexTextReads(c);
    assert forall k :: 0 <= k < 14 ==> t[k] in "rgba(" || t[k] in HexText(c) || t[k] == ')';
    TrimKeepsTight(t);
    assert forall x :: x in "rgba()" ==> Fold(x) == x;
  }

  lemma ParenEnds(s: string, h: string)
    requires |h| < |s| && s[..|h|] == h && s[|h|] == ')' && ')' !in h
    ensures UpToParen(s) == h
  {
    hide IndexOf;
    assert forall k :: 0 <= k < |h| ==> s[k] == h[k];
    assert IndexOf(s, ')') == |h|;
  }

  /** Every colour of the toolkit can be written down: its token is read as that colour. */
  lemma TokenRoundTrip(c: Channels)
    requires c.InRange()
    ensures ColorOf(ColorToken(c)) == ToColor(c)
  {
    hide HexText, Trimmed, ParseHex, ToColor, UpToParen;
    var t := ColorToken(c);
    TokenLooks(c);
    HexTextReads(c);
    ParenEnds(t[5..], HexText(c));
  }

  /** The spelling with "rgb(" says nothing about opacity: what stands behind the three channels is ignored. */
  lemma RgbTokenIsOpaque(c: Channels)
    requires c.InRange()
    ensures ColorOf("rgb(" + HexText(c) + ")") == ToColor(c.(a := 255))
  {
    hide HexText, Trimmed, ParseHex, ToColor, UpToParen;
    var t := "rgb(" + HexText(c) + ")";
    HexTextReads(c);
    assert forall k :: 0 <= k < 13 ==> t[k] in "rgb(" || t[k] in HexText(c) || t[k] == ')';
    TrimKeepsTight(t);
    assert forall x :: x in "rgb()" ==> Fold(x) == x;
    assert Lower(t) == t && t[3] == '(' && !("rgba(" <= t);
    SignsAreNoDigits();
    ParenEnds(t[4..], HexText(c));
  }

  /** Which colours count as accents, told from the channels: opaque, bright, and with enough difference between the
      largest and the smallest channel. */
  lemma AccentsByChannels(c: Channels)
    requires c.InRange()
    ensures var top, low := Max(c.r, Max(c.g, c.b)), Min(c.r, Min(c.g, c.b));
            IsInterestingAccent(ToColor(c)) <==>
            c.a >= 60 && top >= 60 && 131070 * (top - low) >= 23039 * top
  {
    hide Sextants;
    var top := Max(c.r, Max(c.g, c.b));
    var delta := top - Min(c.r, Min(c.g, c.b));
    if delta > 0 { SaturationInSteps(delta, top); }
  }

  lemma SaturationInSteps(delta: nat, top: nat)
    requires 0 < delta <= top < 256
    ensures RoundDiv(0xFFFF * delta, top) / 0x100 >= 45 <==> 131070 * delta >= 23039 * top
  {
    var x, d := 2 * (0xFFFF * delta) + top, 2 * top;
    var q := RoundDiv(0xFFFF * delta, top);
    DivisionIs(x, d, q);
    hide RoundDiv;
    QuotientCompares(x, d, q, x % d, 11520);
  }

  lemma DivisionIs(x: nat, d: nat, q: nat)
    requires d > 0 && q == x / d
    ensures x == q * d + x % d && x % d < d
  {}

  lemma QuotientCompares(x: nat, d: nat, q: nat, r: nat, k: nat)
    requires x == q * d + r && r < d
    ensures q >= k <==> x >= k * d
  {
    MultiplesAreOrdered(k, q, d);
    MultiplesAreOrdered(q + 1, k, d);
    OneMoreMultiple(q, d);
  }

  lemma OneMoreMultiple(q: nat, d: nat)
    ensures (q + 1) * d == q * d + d
  {}

  // ---------- One token for each hue ----------

  type Hue = h: int | 0 <= h < 360

  /** Channels between 0 and 240 whose hue is h. */
  function Wheel(h: Hue): (c: Channels)
    ensures c.InRange()
  {
    var up := 4 * (h % 60);
    var down := 240 - up;
    match h / 60
    case 0 => Channels(240, up, 0, 255)
    case 1 => Channels(down, 240, 0, 255)
    case 2 => Channels(0, 240, up, 255)
    case 3 => Channels(0, down, 240, 255)
    case 4 => Channels(up, 0, 240, 255)
    case _ => Channels(240, 0, down, 255)
  }

  function HueToken(h: Hue): (t: string)
    ensures |t| == 14
  {
    ColorToken(Wheel(h))
  }

  lemma WheelTurns(h: Hue)
    ensures var c := Wheel(h);
            Sextants(c.r, c.g, c.b) == 4 * h && Max(c.r, Max(c.g, c.b)) == 240 && Min(c.r, Min(c.g, c.b)) == 0
  {
    assert h == 60 * (h / 60) + h % 60 && 0 <= h / 60 < 6;
  }

  lemma DegreesOf(h: Hue)
    ensures RoundDiv(6000 * (4 * h), 240) / 100 == h && RoundDiv(0xFFFF * 240, 240) / 0x100 == 255
  {
    assert 2 * (6000 * (4 * h)) + 240 == 100 * h * 480 + 240;
  }

  /** The token for a hue stands for a colour of exactly that hue, and it is an accent. */
  lemma HueTokenIsAccent(h: Hue)
    ensures ColorOf(HueToken(h)) == Hsv(true, 255, h, 255, 240) && IsInterestingAccent(ColorOf(HueToken(h)))
  {
    hide Wheel, Sextants, RoundDiv, Max, Min, ColorOf;
    TokenRoundTrip(Wheel(h));
    WheelTurns(h);
    DegreesOf(h);
    assert Wheel(h).a == 255 by { WheelIsOpaque(h); }
  }

  lemma WheelIsOpaque(h: Hue)
    ensures Wheel(h).a == 255
  {}

  lemma SpelledAs(c: Channels, r: string, g: string, b: string, a: string)
    requires c.InRange() && HexPair(c.r) == r && HexPair(c.g) == g && HexPair(c.b) == b && HexPair(c.a) == a
    ensures ColorToken(c) == "rgba(" + (r + g + b + a) + ")"
  {}

  /** How a configuration spells the fourth of fourteen hues 25 degrees apart. */
  lemma SeventyFiveDegrees()
    ensures HueToken(75) == "rgba(b4f000ff)"
  {
    var c := Channels(180, 240, 0, 255);
    assert Wheel(75) == c;
    assert HexPair(180) == "b4" && HexPair(240) == "f0" && HexPair(0) == "00" && HexPair(255) == "ff";
    hide HexPair, Wheel, ColorToken;
    SpelledAs(c, "b4", "f0", "00", "ff");
  }
}
