/** JSON texts as RFC 8259 defines them, over bytes: a character below 256 stands for one byte. */
module Json {
  import opened Text
  import opened Types

  /** Objects keep their members in textual order; numbers keep their spelling. */
  datatype Value =
    | Null
    | Bool(b: bool)
    | Num(text: string)
    | Str(s: string)
    | Arr(items: seq<Value>)
    | Obj(members: seq<Member>)

  datatype Member = Member(key: string, value: Value)

  // ---------- Strings (section 7) ----------

  /** The code unit four hexadecimal digits at the front of t spell. */
  function CodeUnit(t: string): Option<nat> {
    if |t| < 4 then None
    else
      match (HexValue(t[0]), HexValue(t[1]), HexValue(t[2]), HexValue(t[3]))
      case (Some(a), Some(b), Some(c), Some(d)) => Some(0x1000 * a + 0x100 * b + 0x10 * c + d)
      case _ => None
  }

  function Octet(n: int): char {
    (n % 256) as char
  }

  function Utf8(code: nat): string {
    if code < 0x80 then [Octet(code)]
    else if code < 0x800 then [Octet(0xC0 + code / 0x40), Octet(0x80 + code % 0x40)]
    else if code < 0x1_0000 then
      [Octet(0xE0 + code / 0x1000), Octet(0x80 + code / 0x40 % 0x40), Octet(0x80 + code % 0x40)]
    else
      [Octet(0xF0 + code / 0x4_0000), Octet(0x80 + code / 0x1000 % 0x40),
       Octet(0x80 + code / 0x40 % 0x40), Octet(0x80 + code % 0x40)]
  }

  /** What follows a backslash: the bytes it stands for and the rest of the text. Surrogates must come in pairs. */
  function ScanEscape(t: string): (p: Parsed<string>)
    ensures p.Some? ==> |p.value.1| < |t|
  {
    if t == "" then None
    else
      match t[0]
      case '"' => Some(("\"", t[1..]))
      case '\\' => Some(("\\", t[1..]))
      case '/' => Some(("/", t[1..]))
      case 'b' => Some(([8 as char], t[1..]))
      case 'f' => Some(([12 as char], t[1..]))
      case 'n' => Some(("\n", t[1..]))
      case 'r' => Some(("\r", t[1..]))
      case 't' => Some(("\t", t[1..]))
      case 'u' =>
        (match CodeUnit(t[1..])
         case None => None
         case Some(unit) =>
           if 0xDC00 <= unit < 0xE000 then None
           else if 0xD800 <= unit < 0xDC00 then
             if !("\\u" <= t[5..]) then None
             else
               match CodeUnit(t[7..])
               case Some(low) =>
                 if 0xDC00 <= low < 0xE000
                 then Some((Utf8(0x1_0000 + 0x400 * (unit - 0xD800) + (low - 0xDC00)), t[11..])) else None
               case None => None
           else Some((Utf8(unit), t[5..])))
      case _ => None
  }

  /** Reads up to and including the closing quote. */
  function ScanString(t: string): (p: Parsed<string>)
    ensures p.Some? ==> |p.value.1| < |t|
    decreases |t|
  {
    if t == "" || t[0] < ' ' then None
    else if t[0] == '"' then Some(("", t[1..]))
    else
      match (if t[0] == '\\' then ScanEscape(t[1..]) else Some(([t[0]], t[1..])))
      case None => None
      case Some((bytes, rest)) =>
        match ScanString(rest)
        case None => None
        case Some((more, end)) => Some((bytes + more, end))
  }

  // ---------- Numbers (section 6) ----------

  function IntLength(t: string): (n: nat)
    ensures n <= |t|
  {
    if t != "" && t[0] == '0' then 1 else DigitRun(t)
  }

  function FracLength(t: string): (n: nat)
    ensures n <= |t|
  {
    if t == "" || t[0] != '.' || DigitRun(t[1..]) == 0 then 0 else 1 + DigitRun(t[1..])
  }

  function ExpLength(t: string): (n: nat)
    ensures n <= |t|
  {
    if t == "" || (t[0] != 'e' && t[0] != 'E') then 0
    else
      var sign := if |t| > 1 && (t[1] == '+' || t[1] == '-') then 2 else 1;
      var digits := DigitRun(t[sign..]);
      if digits == 0 then 0 else sign + digits
  }

  function SignLength(t: string): (n: nat)
    ensures n <= |t|
  {
    if t != "" && t[0] == '-' then 1 else 0
  }

  /** The length of the longest number at the front of t, 0 when there is none. */
  function NumberLength(t: string): (n: nat)
    ensures n <= |t|
  {
    var start := SignLength(t);
    if IntLength(t[start..]) == 0 then 0
    else
      var whole := start + IntLength(t[start..]);
      var fixed := whole + FracLength(t[whole..]);
      fixed + ExpLength(t[fixed..])
  }

  predicate IsNumber(t: string) {
    t != "" && NumberLength(t) == |t|
  }

  // ---------- Values (sections 2 to 5) ----------

  const BLANKS: set<char> := {' ', '\t', '\n', '\r'}

  function ParseValue(t: string): (p: Parsed<Value>)
    ensures p.Some? ==> |p.value.1| < |t|
    decreases |t|, 0
  {
    var u := SkipBlanks(t, BLANKS);
    if u == "" then None
    else if u[0] == '"' then
      match ScanString(u[1..])
      case None => None
      case Some((s, rest)) => Some((Str(s), rest))
    else if u[0] == '[' then
      if "]" <= SkipBlanks(u[1..], BLANKS) then Some((Arr([]), SkipBlanks(u[1..], BLANKS)[1..]))
      else
        match ParseItems(u[1..])
        case None => None
        case Some((items, rest)) => Some((Arr(items), rest))
    else if u[0] == '{' then
      if "}" <= SkipBlanks(u[1..], BLANKS) then Some((Obj([]), SkipBlanks(u[1..], BLANKS)[1..]))
      else
        match ParseMembers(u[1..])
        case None => None
        case Some((members, rest)) => Some((Obj(members), rest))
    else if "null" <= u then Some((Null, u[4..]))
    else if "true" <= u then Some((Bool(true), u[4..]))
    else if "false" <= u then Some((Bool(false), u[5..]))
    else if NumberLength(u) > 0 then Some((Num(u[..NumberLength(u)]), u[NumberLength(u)..]))
    else None
  }

  /** One or more values and the closing bracket. */
  function ParseItems(t: string): (p: Parsed<seq<Value>>)
    ensures p.Some? ==> |p.value.1| < |t|
    decreases |t|, 1
  {
    match ParseValue(t)
    case None => None
    case Some((v, rest)) =>
      var u := SkipBlanks(rest, BLANKS);
      if "]" <= u then Some(([v], u[1..]))
      else if "," <= u then
        match ParseItems(u[1..])
        case None => None
        case Some((vs, end)) => Some(([v] + vs, end))
      else None
  }

  /** A name, a colon and a value. */
  function ParseMember(t: string): (p: Parsed<Member>)
    ensures p.Some? ==> |p.value.1| < |t|
    decreases |t|, 1
  {
    var u := SkipBlanks(t, BLANKS);
    if !("\"" <= u) then None
    else
      match ScanString(u[1..])
      case None => None
      case Some((key, rest)) =>
        var w := SkipBlanks(rest, BLANKS);
        if !(":" <= w) then None
        else
          match ParseValue(w[1..])
          case None => None
          case Some((v, end)) => Some((Member(key, v), end))
  }

  /** One or more members and the closing brace. */
  function ParseMembers(t: string): (p: Parsed<seq<Member>>)
    ensures p.Some? ==> |p.value.1| < |t|
    decreases |t|, 2
  {
    match ParseMember(t)
    case None => None
    case Some((m, rest)) =>
      var u := SkipBlanks(rest, BLANKS);
      if "}" <= u then Some(([m], u[1..]))
      else if "," <= u then
        match ParseMembers(u[1..])
        case None => None
        case Some((ms, end)) => Some(([m] + ms, end))
      else None
  }

  function Parse(t: string): Option<Value> {
    match ParseValue(t)
    case None => None
    case Some((v, rest)) => if SkipBlanks(rest, BLANKS) == "" then Some(v) else None
  }
}
