/** Compact JSON text, and the proof that reading it back gives the value it was printed from. */
module JsonPrinter {
  import opened Json
  import opened Text
  import opened Types

  // ---------- Strings ----------

  function EscapedChar(c: char): string {
    match c
    case '"' => "\\\""
    case '\\' => "\\\\"
    case '\n' => "\\n"
    case '\r' => "\\r"
    case '\t' => "\\t"
    case _ => if c < ' ' then "\\u00" + HexPair(c as int) else [c]
  }

  function Escaped(s: string): string {
    if s == "" then "" else EscapedChar(s[0]) + Escaped(s[1..])
  }

  /** What scanning the spelling of c in front of rest yields, given what scanning rest yields. */
  function Prepended(c: char, p: Parsed<string>): Parsed<string> {
    match p
    case None => None
    case Some((more, end)) => Some(([c] + more, end))
  }

  lemma PlainScans(c: char, rest: string)
    requires c >= ' ' && c != '"' && c != '\\'
    ensures ScanString([c] + rest) == Prepended(c, ScanString(rest))
  {
    var t := [c] + rest;
    assert t[0] == c && t[1..] == rest;
  }

  lemma EscapeScans(e: string, c: char, rest: string)
    requires e != "" && e[0] == '\\' && ScanEscape(e[1..] + rest) == Some(([c], rest))
    ensures ScanString(e + rest) == Prepended(c, ScanString(rest))
  {
    hide ScanEscape;
    var t := e + rest;
    assert t[0] == '\\' && t[1..] == e[1..] + rest;
  }

  lemma UnitReads(n: nat, rest: string)
    requires n < 0x100
    ensures CodeUnit("00" + HexPair(n) + rest) == Some(n)
  {
    assert HexValue('0') == Some(0);
    hide HexDigit, HexValue;
    HexDigitReads(n / 16);
    HexDigitReads(n % 16);
  }

  lemma UnitUnescapes(t: string, n: nat)
    requires |t| >= 5 && t[0] == 'u' && CodeUnit(t[1..]) == Some(n) && n < 0x80
    ensures ScanEscape(t) == Some(([n as char], t[5..]))
  {
    hide CodeUnit;
  }

  lemma ControlUnescapes(n: nat, rest: string)
    requires n < 32
    ensures ScanEscape("u00" + HexPair(n) + rest) == Some(([n as char], rest))
  {
    hide ScanEscape, CodeUnit, HexPair;
    var t := "u00" + HexPair(n) + rest;
    UnitReads(n, rest);
    assert t[1..] == "00" + HexPair(n) + rest && t[5..] == rest;
    UnitUnescapes(t, n);
  }

  lemma CharScans(c: char, rest: string)
    ensures ScanString(EscapedChar(c) + rest) == Prepended(c, ScanString(rest))
  {
    hide ScanString, Prepended;
    var e := EscapedChar(c);
    if c == '"' || c == '\\' || c == '\n' || c == '\r' || c == '\t' {
      assert (e[1..] + rest)[1..] == rest;
      EscapeScans(e, c, rest);
    } else if c < ' ' {
      var n := c as int;
      ControlUnescapes(n, rest);
      assert e[1..] + rest == "u00" + HexPair(n) + rest;
      EscapeScans(e, c, rest);
    } else {
      PlainScans(c, rest);
    }
  }

  /** Decoding gives back every byte string, and the scanner stops at the quote that closes it. */
  lemma {:induction false} EscapeRoundTrip(s: string, rest: string)
    ensures ScanString(Escaped(s) + "\"" + rest) == Some((s, rest))
  {
    hide EscapedChar, ScanString;
    if s == "" {
      assert ScanString("\"" + rest) == Some(("", rest)) by { ClosingQuote(rest); }
      assert Escaped(s) + "\"" + rest == "\"" + rest;
    } else {
      EscapeRoundTrip(s[1..], rest);
      CharScans(s[0], Escaped(s[1..]) + "\"" + rest);
      assert Escaped(s) + "\"" + rest == EscapedChar(s[0]) + (Escaped(s[1..]) + "\"" + rest);
      assert [s[0]] + s[1..] == s;
    }
  }

  lemma ClosingQuote(rest: string)
    ensures ScanString("\"" + rest) == Some(("", rest))
  {
    assert ("\"" + rest)[1..] == rest;
  }

  /** The byte at k is no control byte, and a quote only right behind a backslash. */
  predicate CleanAt(e: string, k: nat)
    requires k < |e|
  {
    e[k] >= ' ' && (e[k] == '"' ==> k > 0 && e[k - 1] == '\\')
  }

  lemma {:induction false} EscapedIsClean(s: string)
    ensures forall k :: 0 <= k < |Escaped(s)| ==> CleanAt(Escaped(s), k)
    ensures forall k :: 0 <= k <= |Escaped(s)| ==> ScanString(Escaped(s)[..k]) == None
  {
    forall k | 0 <= k <= |Escaped(s)| ensures ScanString(Escaped(s)[..k]) == None {
      NothingCloses(s, k);
    }
    if s == "" {
    } else {
      var first, rest, e := EscapedChar(s[0]), Escaped(s[1..]), Escaped(s);
      EscapedIsClean(s[1..]);
      CharIsClean(s[0]);
      hide EscapedChar, Escaped, ScanString;
      forall k | 0 <= k < |e| ensures CleanAt(e, k) {
        assert k < |first| ==> CleanAt(first, k);
        assert k >= |first| ==> CleanAt(rest, k - |first|);
      }
    }
  }

  /** No quote inside an escaped string closes it: every part of it read from the start is unfinished. */
  lemma {:induction false} NothingCloses(s: string, k: nat)
    requires k <= |Escaped(s)|
    ensures ScanString(Escaped(s)[..k]) == None
  {
    hide EscapedChar, ScanString;
    if s == "" {
      NothingToScan();
    } else {
      var first, rest := EscapedChar(s[0]), Escaped(s[1..]);
      if k < |first| {
        UnfinishedChar(s[0], k);
        assert Escaped(s)[..k] == first[..k];
      } else {
        NothingCloses(s[1..], k - |first|);
        CharScans(s[0], rest[..k - |first|]);
        assert Escaped(s)[..k] == first + rest[..k - |first|];
      }
    }
  }

  lemma NothingToScan()
    ensures ScanString("") == None
  {}

  lemma UnfinishedChar(c: char, k: nat)
    requires k < |EscapedChar(c)|
    ensures ScanString(EscapedChar(c)[..k]) == None
  {
    var t := EscapedChar(c)[..k];
    if k > 0 {
      assert t[0] == '\\' && |t[1..]| == k - 1;
      assert k > 1 ==> t[1..][0] == 'u' && |t[1..][1..]| < 4;
    }
  }

  lemma CharIsClean(c: char)
    ensures forall k :: 0 <= k < |EscapedChar(c)| ==> CleanAt(EscapedChar(c), k)
  {}

  // ---------- Numbers ----------

  /** The text goes on with something no number contains. */
  predicate Stops(rest: string) {
    rest == "" || rest[0] in ",]}"
  }

  lemma FracStops(t: string, rest: string)
    requires Stops(rest)
    ensures FracLength(t + rest) == FracLength(t)
  {
    hide DigitRun;
    if t == "" {
      assert t + rest == rest;
    } else {
      DigitsStop(t[1..], rest);
      assert (t + rest)[1..] == t[1..] + rest;
    }
  }

  lemma ExpStops(t: string, rest: string)
    requires Stops(rest)
    ensures ExpLength(t + rest) == ExpLength(t)
  {
    hide DigitRun;
    if t == "" {
      assert t + rest == rest;
    } else {
      var sign := if |t| > 1 && (t[1] == '+' || t[1] == '-') then 2 else 1;
      assert |t| > 1 ==> (t + rest)[1] == t[1];
      assert |t| == 1 && rest != "" ==> (t + rest)[1] == rest[0];
      DigitsStop(t[sign..], rest);
      assert (t + rest)[sign..] == t[sign..] + rest;
    }
  }

  lemma NumberStops(t: string, rest: string)
    requires IsNumber(t) && Stops(rest)
    ensures NumberLength(t + rest) == |t|
  {
    hide DigitRun, FracLength, ExpLength;
    var start := SignLength(t);
    assert (t + rest)[start..] == t[start..] + rest;
    DigitsStop(t[start..], rest);
    var whole := start + IntLength(t[start..]);
    assert (t + rest)[whole..] == t[whole..] + rest;
    FracStops(t[whole..], rest);
    var fixed := whole + FracLength(t[whole..]);
    assert (t + rest)[fixed..] == t[fixed..] + rest;
    ExpStops(t[fixed..], rest);
  }

  lemma NumberStart(t: string)
    requires IsNumber(t)
    ensures IsDigit(t[0]) || t[0] == '-'
  {}

  // ---------- Values ----------

  predicate WellFormed(v: Value)
    decreases v, 0
  {
    match v
    case Num(text) => IsNumber(text)
    case Arr(items) => forall i :: i in items ==> WellFormed(i)
    case Obj(members) => forall m :: m in members ==> WellFormed(m.value)
    case _ => true
  }

  function Quoted(s: string): string { "\"" + Escaped(s) + "\"" }

  function Print(v: Value): string
    decreases v, 0
  {
    match v
    case Null => "null"
    case Bool(b) => if b then "true" else "false"
    case Num(text) => text
    case Str(s) => Quoted(s)
    case Arr(items) => "[" + PrintItems(items) + "]"
    case Obj(members) => "{" + PrintMembers(members) + "}"
  }

  function PrintItems(items: seq<Value>): string
    decreases items, 0
  {
    if items == [] then ""
    else if |items| == 1 then Print(items[0])
    else Print(items[0]) + "," + PrintItems(items[1..])
  }

  function PrintMember(m: Member): string
    decreases m, 0
  {
    Quoted(m.key) + ":" + Print(m.value)
  }

  function PrintMembers(members: seq<Member>): string
    decreases members, 0
  {
    if members == [] then ""
    else if |members| == 1 then PrintMember(members[0])
    else PrintMember(members[0]) + "," + PrintMembers(members[1..])
  }

  /** Nothing printed starts with a blank or closes a container. */
  lemma PrintStart(v: Value, rest: string)
    requires WellFormed(v)
    ensures Print(v) != "" && SkipBlanks(Print(v) + rest, BLANKS) == Print(v) + rest
    ensures !("]" <= Print(v) + rest)
  {
    hide PrintItems, PrintMembers, Escaped, NumberLength;
    if v.Num? { NumberStart(v.text); }
  }

  lemma {:induction false} ValueRoundTrip(v: Value, rest: string)
    requires WellFormed(v) && Stops(rest)
    ensures ParseValue(Print(v) + rest) == Some((v, rest))
    decreases v, 0
  {
    hide PrintItems, PrintMembers, Escaped, NumberLength, ScanString, ParseItems, ParseMembers;
    var t := Print(v) + rest;
    PrintStart(v, rest);
    match v
    case Str(s) =>
      assert t[1..] == Escaped(s) + "\"" + rest;
      EscapeRoundTrip(s, rest);
    case Num(text) =>
      NumberStart(text);
      NumberStops(text, rest);
      assert t[..|text|] == text && t[|text|..] == rest;
    case Arr(items) => ArrayRoundTrip(items, rest);
    case Obj(members) => ObjectRoundTrip(members, rest);
    case Null => assert t[4..] == rest;
    case Bool(b) => assert t[if b then 4 else 5..] == rest;
  }

  lemma {:induction false} ArrayRoundTrip(items: seq<Value>, rest: string)
    requires WellFormed(Arr(items))
    ensures ParseValue(Print(Arr(items)) + rest) == Some((Arr(items), rest))
    decreases items, 1
  {
    hide PrintItems, Print, ParseItems;
    PrintArray(items);
    var t := Print(Arr(items)) + rest;
    var u := PrintItems(items) + "]" + rest;
    assert t == "[" + u;
    assert t[1..] == u;
    if items == [] {
      assert u == "]" + rest;
      assert u[1..] == rest;
    } else {
      ItemsRoundTrip(items, rest);
    }
  }

  lemma PrintArray(items: seq<Value>)
    ensures Print(Arr(items)) == "[" + PrintItems(items) + "]"
    ensures items == [] ==> PrintItems(items) == ""
  {}

  lemma Regroup(first: string, more: string, close: string, rest: string)
    ensures (first + "," + more) + close + rest == first + ("," + (more + close + rest))
    ensures first + close + rest == first + (close + rest)
  {}

  /** The text of the items starts with the text of the first one, followed by a comma or the end. */
  lemma PrintItemsSteps(items: seq<Value>, rest: string)
    requires items != []
    ensures PrintItems(items) + "]" + rest ==
            Print(items[0]) + if |items| == 1 then "]" + rest else "," + (PrintItems(items[1..]) + "]" + rest)
  {
    hide Print, PrintItems;
    PrintItemsStep(items);
    Regroup(Print(items[0]), PrintItems(items[1..]), "]", rest);
  }

  lemma PrintItemsStep(items: seq<Value>)
    requires items != []
    ensures PrintItems(items) ==
            if |items| == 1 then Print(items[0]) else Print(items[0]) + "," + PrintItems(items[1..])
  {
    hide Print;
  }

  lemma {:induction false} ItemsRoundTrip(items: seq<Value>, rest: string)
    requires items != [] && forall v :: v in items ==> WellFormed(v)
    ensures ParseItems(PrintItems(items) + "]" + rest) == Some((items, rest))
    ensures !("]" <= SkipBlanks(PrintItems(items) + "]" + rest, BLANKS))
    decreases items, 0
  {
    hide PrintItems, Print, ParseValue, WellFormed;
    PrintItemsSteps(items, rest);
    if |items| == 1 {
      PrintStart(items[0], "]" + rest);
      ValueRoundTrip(items[0], "]" + rest);
      assert ("]" + rest)[1..] == rest && [items[0]] == items;
    } else {
      var u := PrintItems(items[1..]) + "]" + rest;
      PrintStart(items[0], "," + u);
      ValueRoundTrip(items[0], "," + u);
      ItemsRoundTrip(items[1..], rest);
      assert ("," + u)[1..] == u;
      assert [items[0]] + items[1..] == items;
    }
  }

  lemma {:induction false} MemberRoundTrip(m: Member, rest: string)
    requires WellFormed(m.value) && Stops(rest)
    ensures ParseMember(PrintMember(m) + rest) == Some((m, rest))
    ensures PrintMember(m) != "" && PrintMember(m)[0] == '"'
    decreases m, 0
  {
    hide Print, ParseValue, ScanString, Escaped;
    var t, u := PrintMember(m) + rest, ":" + Print(m.value) + rest;
    assert t == "\"" + (Escaped(m.key) + "\"" + u);
    assert t[1..] == Escaped(m.key) + "\"" + u;
    EscapeRoundTrip(m.key, u);
    assert u[1..] == Print(m.value) + rest;
    ValueRoundTrip(m.value, rest);
  }

  lemma PrintMembersSteps(members: seq<Member>, rest: string)
    requires members != []
    ensures PrintMembers(members) + "}" + rest ==
            PrintMember(members[0]) +
            if |members| == 1 then "}" + rest else "," + (PrintMembers(members[1..]) + "}" + rest)
  {
    hide PrintMember, PrintMembers;
    PrintMembersStep(members);
    Regroup(PrintMember(members[0]), PrintMembers(members[1..]), "}", rest);
  }

  lemma PrintMembersStep(members: seq<Member>)
    requires members != []
    ensures PrintMembers(members) ==
            if |members| == 1 then PrintMember(members[0])
            else PrintMember(members[0]) + "," + PrintMembers(members[1..])
  {
    hide PrintMember;
  }

  lemma {:induction false} MembersRoundTrip(members: seq<Member>, rest: string)
    requires members != [] && forall m :: m in members ==> WellFormed(m.value)
    ensures ParseMembers(PrintMembers(members) + "}" + rest) == Some((members, rest))
    ensures !("}" <= SkipBlanks(PrintMembers(members) + "}" + rest, BLANKS))
    decreases members, 0
  {
    hide PrintMembers, PrintMember, ParseMember, WellFormed;
    PrintMembersSteps(members, rest);
    if |members| == 1 {
      MemberRoundTrip(members[0], "}" + rest);
      assert ("}" + rest)[1..] == rest && [members[0]] == members;
    } else {
      var u := PrintMembers(members[1..]) + "}" + rest;
      MemberRoundTrip(members[0], "," + u);
      MembersRoundTrip(members[1..], rest);
      assert ("," + u)[1..] == u;
      assert [members[0]] + members[1..] == members;
    }
  }

  lemma {:induction false} ObjectRoundTrip(members: seq<Member>, rest: string)
    requires WellFormed(Obj(members))
    ensures ParseValue(Print(Obj(members)) + rest) == Some((Obj(members), rest))
    decreases members, 1
  {
    hide PrintMembers, Print, ParseMembers;
    PrintObject(members);
    var t := Print(Obj(members)) + rest;
    var u := PrintMembers(members) + "}" + rest;
    assert t == "{" + u;
    assert t[1..] == u;
    if members == [] {
      assert u == "}" + rest;
      assert u[1..] == rest;
    } else {
      MembersRoundTrip(members, rest);
    }
  }

  lemma PrintObject(members: seq<Member>)
    ensures Print(Obj(members)) == "{" + PrintMembers(members) + "}"
    ensures members == [] ==> PrintMembers(members) == ""
  {}

  /** Every value survives being printed and read back. */
  lemma PrintRoundTrip(v: Value)
    requires WellFormed(v)
    ensures Parse(Print(v)) == Some(v)
  {
    hide Print, WellFormed, ParseValue;
    ValueRoundTrip(v, "");
    assert Print(v) + "" == Print(v);
  }
}
