/** A small regular expression language: concrete syntax, parser and caseless matching. It covers the
    constructs the ad blocker emits; anything else fails to parse. */
module Regex {
  import opened Text
  import opened Types

  datatype Re =
    | Empty
    | Lit(c: char)
    | Any
    | Class(negated: bool, members: string)
    | End
    | Cat(first: Re, second: Re)
    | Alt(left: Re, right: Re)
    | Opt(body: Re)
    | Star(body: Re)

  // ---------- Matching ----------

  predicate InClass(c: char, members: string) {
    exists k :: 0 <= k < |members| && Fold(members[k]) == Fold(c)
  }

  /** Marks k as a position where a match is cut in two; always true. */
  predicate Cut(k: int) { true }

  /** r matches s[i..j]. The end assertion also holds before a final newline; the dot excludes newlines. */
  predicate Matches(r: Re, s: string, i: nat, j: nat)
    requires i <= j <= |s|
    decreases r, j - i
  {
    match r
    case Empty => i == j
    case Lit(c) => j == i + 1 && Fold(s[i]) == Fold(c)
    case Any => j == i + 1 && s[i] != '\n'
    case Class(negated, members) => j == i + 1 && InClass(s[i], members) != negated
    case End => i == j && (i == |s| || (i == |s| - 1 && s[i] == '\n'))
    case Cat(a, b) => exists k :: i <= k <= j && Cut(k) && Matches(a, s, i, k) && Matches(b, s, k, j)
    case Alt(a, b) => Matches(a, s, i, j) || Matches(b, s, i, j)
    case Opt(a) => i == j || Matches(a, s, i, j)
    case Star(a) => i == j || exists k :: i < k <= j && Cut(k) && Matches(a, s, i, k) && Matches(r, s, k, j)
  }

  /** Unanchored search. */
  predicate Search(r: Re, s: string) {
    exists i, j :: 0 <= i <= j <= |s| && Matches(r, s, i, j)
  }

  // ---------- Parsing ----------

  predicate IsAlphanumeric(c: char) { 'a' <= c <= 'z' || 'A' <= c <= 'Z' || '0' <= c <= '9' }

  predicate IsQuantifier(c: char) { c == '*' || c == '?' || c == '+' || c == '{' }

  predicate IsSpecial(c: char) {
    c in ".^$*+?()[]{}\\|"
  }

  /** alternatives separated by | up to a closing parenthesis or the end */
  function ParseAlt(t: string): (p: Parsed<Re>)
    ensures p.Some? ==> |p.value.1| <= |t|
    decreases |t|, 2
  {
    match ParseCat(t)
    case None => None
    case Some((a, rest)) =>
      if rest != "" && rest[0] == '|' then
        match ParseAlt(rest[1..])
        case None => None
        case Some((b, rest')) => Some((Alt(a, b), rest'))
      else Some((a, rest))
  }

  function ParseCat(t: string): (p: Parsed<Re>)
    ensures p.Some? ==> |p.value.1| <= |t|
    decreases |t|, 1
  {
    if t == "" || t[0] == '|' || t[0] == ')' then Some((Empty, t))
    else
      match ParseAtom(t)
      case None => None
      case Some((a, rest)) =>
        match ParseQuantifier(a, rest)
        case None => None
        case Some((q, rest')) =>
          match ParseCat(rest')
          case None => None
          case Some((b, rest'')) => Some((Cat(q, b), rest''))
  }

  function ParseAtom(t: string): (p: Parsed<Re>)
    requires t != ""
    ensures p.Some? ==> |p.value.1| < |t|
    decreases |t|, 0
  {
    var c := t[0];
    if c == '\\' then
      if |t| >= 2 && !IsAlphanumeric(t[1]) then Some((Lit(t[1]), t[2..])) else None
    else if c == '.' then Some((Any, t[1..]))
    else if c == '$' then Some((End, t[1..]))
    else if c == '(' then
      if |t| >= 3 && t[1] == '?' && t[2] == ':' then
        match ParseAlt(t[3..])
        case None => None
        case Some((r, rest)) => if rest != "" && rest[0] == ')' then Some((r, rest[1..])) else None
      else None
    else if c == '[' then
      var negated := |t| >= 2 && t[1] == '^';
      match ParseMembers(if negated then t[2..] else t[1..])
      case None => None
      case Some((members, rest)) => Some((Class(negated, members), rest))
    else if IsSpecial(c) then None
    else Some((Lit(c), t[1..]))
  }

  /** class members up to the closing bracket; ranges and escapes are outside the language */
  function ParseMembers(t: string): (p: Parsed<string>)
    ensures p.Some? ==> |p.value.1| < |t|
  {
    if t == "" || t[0] == '\\' || t[0] == '-' || t[0] == '[' then None
    else if t[0] == ']' then Some(("", t[1..]))
    else
      match ParseMembers(t[1..])
      case None => None
      case Some((m, rest)) => Some(([t[0]] + m, rest))
  }

  /** one greedy quantifier; lazy, possessive and counted forms are outside the language */
  function ParseQuantifier(a: Re, t: string): (p: Parsed<Re>)
    ensures p.Some? ==> |p.value.1| <= |t|
  {
    if t == "" || !IsQuantifier(t[0]) then Some((a, t))
    else if |t| >= 2 && IsQuantifier(t[1]) then None
    else if t[0] == '*' then Some((Star(a), t[1..]))
    else if t[0] == '?' then Some((Opt(a), t[1..]))
    else None
  }

  function Parse(t: string): Option<Re> {
    match ParseAlt(t)
    case None => None
    case Some((r, rest)) => if rest == "" then Some(r) else None
  }
}
