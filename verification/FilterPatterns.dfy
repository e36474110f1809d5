/** From filter patterns to regular expressions, and what the result matches. */
module FilterPatterns {
  import opened Regex
  import opened Text
  import opened Types

  const SEPARATORS := "/:?#&="

  predicate NeedsEscape(c: char) {
    c in ".+?{}()[]\\$|"
  }

  /** The regex text one pattern character turns into. */
  function Piece(c: char): string {
    if c == '*' then ".*"
    else if c == '^' then "(?:[/:?#&=]|$)"
    else if NeedsEscape(c) then ['\\', c]
    else [c]
  }

  function Emit(p: string): string {
    if p == "" then "" else Piece(p[0]) + Emit(p[1..])
  }

  const ANCHOR := "(?:https?://|wss?://)[^/]*\\.?"

  /** The translation, as a function of the pattern. */
  function RegexText(pattern: string): string {
    if "||" <= pattern then ANCHOR + Emit(pattern[2..])
    else if "|" <= pattern then Emit("^" + pattern[1..])
    else Emit(pattern)
  }

  method BuildRegex(pattern: string) returns (text: string)
    ensures text == RegexText(pattern)
  {
    var body := pattern;
    var anchored := false;
    if "||" <= body {
      anchored := true;
      body := body[2..];
    } else if "|" <= body {
      body := "^" + body[1..];
    }
    var escaped := Escape(body);
    text := if anchored then "(?:https?://|wss?://)[^/]*\\.?" + escaped else escaped;
  }

  /** The loop over the pattern characters. */
  method Escape(body: string) returns (escaped: string)
    ensures escaped == Emit(body)
  {
    hide Piece, Emit;
    escaped := "";
    EmitStarts(body);
    for k := 0 to |body|
      invariant escaped + Emit(body[k..]) == Emit(body)
    {
      EmitSteps(escaped, body, k);
      var piece := PieceFor(body[k]);
      escaped := escaped + piece;
    }
    EmitEnds(escaped, body);
  }

  lemma EmitStarts(body: string)
    ensures "" + Emit(body[0..]) == Emit(body)
  {
    assert body[0..] == body;
  }

  lemma EmitSteps(done: string, body: string, k: nat)
    requires k < |body|
    ensures done + Emit(body[k..]) == (done + Piece(body[k])) + Emit(body[k + 1..])
  {
    hide Piece;
    assert body[k..][0] == body[k] && body[k..][1..] == body[k + 1..];
  }

  lemma EmitEnds(done: string, body: string)
    ensures done + Emit(body[|body|..]) == done
  {}

  /** The switch inside the loop. */
  method PieceFor(c: char) returns (piece: string)
    ensures piece == Piece(c)
  {
    match c
    case '*' => piece := ".*";
    case '^' => piece := "(?:[/:?#&=]|$)";
    case _ =>
      if c == '.' || c == '+' || c == '?' || c == '{' || c == '}' || c == '(' || c == ')' ||
         c == '[' || c == ']' || c == '\\' || c == '$' || c == '|' {
        piece := ['\\', c];
      } else {
        piece := [c];
      }
  }

  // ---------- The tree the text stands for ----------

  function Item(c: char): Re {
    if c == '*' then Star(Any)
    else if c == '^' then Alt(Cat(Class(false, SEPARATORS), Empty), Cat(End, Empty))
    else Lit(c)
  }

  function Items(p: string): Re {
    if p == "" then Empty else Cat(Item(p[0]), Items(p[1..]))
  }

  predicate StartsCleanly(t: string) {
    t == "" || (!IsQuantifier(t[0]) && t[0] != '|' && t[0] != ')')
  }

  lemma EmitStartsCleanly(p: string)
    ensures StartsCleanly(Emit(p))
  {
    if p != "" {
      assert Emit(p)[0] == Piece(p[0])[0];
    }
  }

  lemma {:induction false} MembersParse(m: string, rest: string)
    requires forall k :: 0 <= k < |m| ==> m[k] != '\\' && m[k] != '-' && m[k] != '[' && m[k] != ']'
    ensures ParseMembers(m + "]" + rest) == Some((m, rest))
  {
    if m == "" {
      assert (m + "]" + rest)[1..] == rest;
    } else {
      MembersParse(m[1..], rest);
      assert (m + "]" + rest)[1..] == m[1..] + "]" + rest;
      assert [m[0]] + m[1..] == m;
    }
  }

  lemma GroupParses(t: string, r: Re, rest: string)
    requires |t| >= 3 && t[0] == '(' && t[1] == '?' && t[2] == ':'
    requires ParseAlt(t[3..]) == Some((r, ")" + rest))
    ensures ParseAtom(t) == Some((r, rest))
  {
    hide ParseAlt;
    assert (")" + rest)[1..] == rest;
  }

  lemma TwoAlternativesParse(t: string, a: Re, u: string, b: Re, rest: string)
    requires ParseCat(t) == Some((a, "|" + u)) && ParseCat(u) == Some((b, ")" + rest))
    ensures ParseAlt(t) == Some((Alt(a, b), ")" + rest))
  {
    hide ParseCat;
    assert ("|" + u)[1..] == u;
    assert ParseAlt(u) == Some((b, ")" + rest));
  }

  lemma SeparatorSpelling(rest: string)
    ensures var t := "(?:[/:?#&=]|$)" + rest;
            |t| >= 3 && t[0] == '(' && t[1] == '?' && t[2] == ':' &&
            t[3..] == "[" + (SEPARATORS + "]" + ("|" + ("$" + (")" + rest))))
  {}

  lemma SeparatorGroupParses(rest: string)
    requires StartsCleanly(rest)
    ensures ParseAtom("(?:[/:?#&=]|$)" + rest) == Some((Item('^'), rest))
  {
    SeparatorSpelling(rest);
    var class_, end := Class(false, SEPARATORS), "$" + (")" + rest);
    var inner := "[" + (SEPARATORS + "]" + ("|" + end));
    ClassParses("|" + end);
    EndParses(rest);
    hide ParseCat, ParseAlt, ParseAtom;
    TwoAlternativesParse(inner, Cat(class_, Empty), end, Cat(End, Empty), rest);
    GroupParses("(?:[/:?#&=]|$)" + rest, Alt(Cat(class_, Empty), Cat(End, Empty)), rest);
  }

  lemma ClassParses(rest: string)
    requires rest != "" && rest[0] == '|'
    ensures ParseCat("[" + (SEPARATORS + "]" + rest)) == Some((Cat(Class(false, SEPARATORS), Empty), rest))
  {
    var t := "[" + (SEPARATORS + "]" + rest);
    assert t[1..] == SEPARATORS + "]" + rest;
    MembersParse(SEPARATORS, rest);
    assert ParseAtom(t) == Some((Class(false, SEPARATORS), rest));
  }

  lemma EndParses(rest: string)
    ensures ParseCat("$" + (")" + rest)) == Some((Cat(End, Empty), ")" + rest))
  {
    var t := "$" + (")" + rest);
    assert t[1..] == ")" + rest;
    assert ParseAtom(t) == Some((End, ")" + rest));
  }

  /** One emitted piece, followed by anything that does not quantify it, parses as its item. */
  lemma PieceParses(c: char, rest: string)
    requires StartsCleanly(rest)
    ensures ParseCat(Piece(c) + rest) ==
              match ParseCat(rest) case None => None case Some((b, r)) => Some((Cat(Item(c), b), r))
  {
    var t := Piece(c) + rest;
    if c == '*' {
      assert t[1..] == "*" + rest && t[1..][1..] == rest;
      assert ParseAtom(t) == Some((Any, t[1..]));
    } else if c == '^' {
      SeparatorGroupParses(rest);
    } else {
      LiteralParses(c, rest);
    }
  }

  lemma LiteralParses(c: char, rest: string)
    requires c != '*' && c != '^'
    ensures var t := Piece(c) + rest; t != "" && ParseAtom(t) == Some((Lit(c), rest))
  {
    hide ParseMembers, ParseAlt;
    var t := Piece(c) + rest;
    assert t[if NeedsEscape(c) then 2 else 1..] == rest;
  }

  lemma {:induction false} EmittedParses(p: string)
    ensures ParseCat(Emit(p)) == Some((Items(p), ""))
  {
    if p == "" {
    } else {
      EmittedParses(p[1..]);
      EmitStartsCleanly(p[1..]);
      PieceParses(p[0], Emit(p[1..]));
    }
  }

  // ---------- The anchor prefix ----------

  function Plain(t: string, tail: Re): Re {
    if t == "" then tail else Cat(Lit(t[0]), Plain(t[1..], tail))
  }

  predicate IsPlain(t: string) {
    forall k :: 0 <= k < |t| ==> !IsSpecial(t[k])
  }

  function Prepend(t: string, p: Parsed<Re>): Parsed<Re> {
    match p case None => None case Some((b, r)) => Some((Plain(t, b), r))
  }

  lemma {:induction false} PlainParses(t: string, rest: string)
    requires IsPlain(t) && (rest == "" || !IsQuantifier(rest[0]))
    ensures ParseCat(t + rest) == Prepend(t, ParseCat(rest))
  {
    if t == "" {
      assert t + rest == rest;
    } else {
      PlainParses(t[1..], rest);
      var whole := t + rest;
      assert whole[1..] == t[1..] + rest;
      assert ParseAtom(whole) == Some((Lit(t[0]), t[1..] + rest));
    }
  }

  lemma OptionalParses(c: char, rest: string)
    requires !IsSpecial(c) && StartsCleanly(rest)
    ensures ParseCat([c] + "?" + rest) ==
              match ParseCat(rest) case None => None case Some((b, r)) => Some((Cat(Opt(Lit(c)), b), r))
  {
    var t := [c] + "?" + rest;
    assert t[1..] == "?" + rest && t[1..][1..] == rest;
    assert ParseAtom(t) == Some((Lit(c), t[1..]));
  }

  lemma SchemeSpelling(name: string, rest: string)
    ensures name + "s?://" + rest == name + (['s'] + "?" + ("://" + rest))
  {}

  function Scheme(name: string): Re { Plain(name, Cat(Opt(Lit('s')), Plain("://", Empty))) }

  lemma SchemeParses(name: string, rest: string)
    requires IsPlain(name) && (rest == "" || rest[0] == '|' || rest[0] == ')')
    ensures ParseCat(name + "s?://" + rest) == Some((Scheme(name), rest))
  {
    assert ParseCat(rest) == Some((Empty, rest));
    hide ParseCat;
    var tail := "://" + rest;
    var optional := ['s'] + "?" + tail;
    PlainParses("://", rest);
    OptionalParses('s', tail);
    PlainParses(name, optional);
    SchemeSpelling(name, rest);
  }

  lemma SchemeGroupParses(rest: string)
    requires StartsCleanly(rest)
    ensures ParseAtom("(?:https?://|wss?://)" + rest) == Some((Alt(Scheme("http"), Scheme("ws")), rest))
  {
    hide ParseCat, ParseAlt, ParseAtom, Scheme;
    var ws := "ws" + "s?://" + (")" + rest);
    var http := "http" + "s?://" + ("|" + ws);
    GroupSpelling(rest);
    SchemeParses("http", "|" + ws);
    SchemeParses("ws", ")" + rest);
    TwoAlternativesParse(http, Scheme("http"), ws, Scheme("ws"), rest);
    GroupParses("(?:https?://|wss?://)" + rest, Alt(Scheme("http"), Scheme("ws")), rest);
  }

  lemma GroupSpelling(rest: string)
    ensures var t := "(?:https?://|wss?://)" + rest;
            |t| >= 3 && t[0] == '(' && t[1] == '?' && t[2] == ':' &&
            t[3..] == "http" + "s?://" + ("|" + ("ws" + "s?://" + (")" + rest)))
  {}

  lemma PathRunParses(rest: string)
    requires StartsCleanly(rest)
    ensures ParseCat("[^/]*" + rest) ==
              match ParseCat(rest) case None => None case Some((b, r)) => Some((Cat(Star(Class(true, "/")), b), r))
  {
    var t := "[^/]*" + rest;
    assert t[2..] == "/" + "]" + ("*" + rest);
    MembersParse("/", "*" + rest);
    assert ParseAtom(t) == Some((Class(true, "/"), "*" + rest));
    assert ("*" + rest)[1..] == rest;
  }

  lemma OptionalDotParses(rest: string)
    requires StartsCleanly(rest)
    ensures ParseCat("\\.?" + rest) ==
              match ParseCat(rest) case None => None case Some((b, r)) => Some((Cat(Opt(Lit('.')), b), r))
  {
    var t := "\\.?" + rest;
    assert t[2..] == "?" + rest && ("?" + rest)[1..] == rest;
    assert ParseAtom(t) == Some((Lit('.'), "?" + rest));
  }

  /** The scheme alternatives, a run of characters other than the slash, and an optional dot. */
  function Anchored(tail: Re): Re {
    Cat(Alt(Scheme("http"), Scheme("ws")), Cat(Star(Class(true, "/")), Cat(Opt(Lit('.')), tail)))
  }

  lemma AnchoredParses(p: string)
    ensures ParseCat(ANCHOR + Emit(p)) == Some((Anchored(Items(p)), ""))
  {
    var e := Emit(p);
    EmitStartsCleanly(p);
    EmittedParses(p);
    var dot := "\\.?" + e;
    var run := "[^/]*" + dot;
    OptionalDotParses(e);
    PathRunParses(dot);
    SchemeGroupParses(run);
    AnchorSpelling(e);
    hide ParseAtom;
  }

  lemma AnchorSpelling(e: string)
    ensures ANCHOR + e == "(?:https?://|wss?://)" + ("[^/]*" + ("\\.?" + e))
  {}

  /** What the filter's regex parses to. In particular it is always a valid regex. */
  function Tree(pattern: string): Re {
    if "||" <= pattern then Anchored(Items(pattern[2..]))
    else if "|" <= pattern then Items("^" + pattern[1..])
    else Items(pattern)
  }

  lemma RegexTextParses(pattern: string)
    ensures Parse(RegexText(pattern)) == Some(Tree(pattern))
  {
    hide Items, Emit, ParseCat;
    if "||" <= pattern {
      AnchoredParses(pattern[2..]);
    } else if "|" <= pattern {
      EmittedParses("^" + pattern[1..]);
    } else {
      EmittedParses(pattern);
    }
  }

  // ---------- What a filter means ----------

  predicate IsSeparator(c: char) { c in SEPARATORS }

  lemma SeparatorsAreExact(c: char)
    ensures IsSeparator(c) <==> c == '/' || c == ':' || c == '?' || c == '#' || c == '&' || c == '='
  {
    assert SEPARATORS[0] == '/' && SEPARATORS[1] == ':' && SEPARATORS[2] == '?' && SEPARATORS[3] == '#' &&
           SEPARATORS[4] == '&' && SEPARATORS[5] == '=';
  }

  /** The pattern read as a glob over s[i..j]: * is any run, ^ is one separator or the end of s, every other
      character stands for itself up to case. */
  predicate Glob(p: string, s: string, i: nat, j: nat)
    requires i <= j <= |s|
    decreases |p|
  {
    if p == "" then i == j
    else if p[0] == '*' then exists k :: i <= k <= j && Glob(p[1..], s, k, j)
    else if p[0] == '^' then
      (i < j && IsSeparator(s[i]) && Glob(p[1..], s, i + 1, j)) || (i == |s| && Glob(p[1..], s, i, j))
    else i < j && Fold(s[i]) == Fold(p[0]) && Glob(p[1..], s, i + 1, j)
  }

  /** s[i..j] spells t, up to case. */
  predicate Spells(s: string, i: nat, j: nat, t: string)
    requires i <= j <= |s|
  {
    j == i + |t| && forall k :: 0 <= k < |t| ==> Fold(s[i + k]) == Fold(t[k])
  }

  predicate IsScheme(s: string, i: nat, j: nat)
    requires i <= j <= |s|
  {
    Spells(s, i, j, "http://") || Spells(s, i, j, "https://") || Spells(s, i, j, "ws://") || Spells(s, i, j, "wss://")
  }

  predicate NoSlash(s: string, j: nat, k: nat)
    requires j <= k <= |s|
  {
    forall x :: j <= x < k ==> s[x] != '/'
  }

  /** A scheme, then any characters but a slash, then the glob. No label boundary is asked for. */
  predicate AnchoredGlob(p: string, s: string) {
    exists i, j, k, m :: 0 <= i <= j <= k <= m <= |s| && IsScheme(s, i, j) && NoSlash(s, j, k) && Glob(p, s, k, m)
  }

  predicate GlobSomewhere(p: string, s: string) {
    exists i, j :: 0 <= i <= j <= |s| && Glob(p, s, i, j)
  }

  /** The URLs a filter pattern matches. A single leading bar counts as a separator. */
  predicate FilterMatches(pattern: string, s: string) {
    if "||" <= pattern then AnchoredGlob(pattern[2..], s)
    else if "|" <= pattern then GlobSomewhere("^" + pattern[1..], s)
    else GlobSomewhere(pattern, s)
  }

  // ---------- Case does not matter ----------

  ghost predicate SameUpToCase(a: string, b: string) {
    |a| == |b| && forall k :: 0 <= k < |a| ==> Fold(a[k]) == Fold(b[k])
  }

  lemma OnlyLettersFold(a: char, b: char)
    requires Fold(a) == Fold(b)
    ensures a == '*' <==> b == '*'
    ensures a == '^' <==> b == '^'
    ensures a == '|' <==> b == '|'
    ensures a == '/' <==> b == '/'
    ensures IsSeparator(a) <==> IsSeparator(b)
  {
    FoldsAlike(a, b);
  }

  lemma {:induction false} GlobIgnoresCase(p: string, q: string, s: string, t: string, i: nat, j: nat)
    requires SameUpToCase(p, q) && SameUpToCase(s, t) && i <= j <= |s|
    ensures Glob(p, s, i, j) <==> Glob(q, t, i, j)
    decreases |p|
  {
    hide Fold, IsSeparator;
    if p != "" {
      OnlyLettersFold(p[0], q[0]);
      forall k | i <= k <= j ensures Glob(p[1..], s, k, j) <==> Glob(q[1..], t, k, j) {
        GlobIgnoresCase(p[1..], q[1..], s, t, k, j);
      }
      if i < |s| { OnlyLettersFold(s[i], t[i]); }
    }
  }

  lemma SpellsIgnoresCase(s: string, t: string, i: nat, j: nat, name: string)
    requires SameUpToCase(s, t) && i <= j <= |s|
    ensures Spells(s, i, j, name) <==> Spells(t, i, j, name)
  {
    hide Fold;
  }

  lemma SchemeIgnoresCase(s: string, t: string, i: nat, j: nat)
    requires SameUpToCase(s, t) && i <= j <= |s|
    ensures IsScheme(s, i, j) <==> IsScheme(t, i, j)
    ensures NoSlash(s, i, j) <==> NoSlash(t, i, j)
  {
    hide Fold, Spells;
    SpellsIgnoresCase(s, t, i, j, "http://");
    SpellsIgnoresCase(s, t, i, j, "https://");
    SpellsIgnoresCase(s, t, i, j, "ws://");
    SpellsIgnoresCase(s, t, i, j, "wss://");
    forall x | i <= x < j ensures s[x] == '/' <==> t[x] == '/' {
      OnlyLettersFold(s[x], t[x]);
    }
  }

  lemma AnchoredIgnoresCase(p: string, q: string, s: string, t: string)
    requires SameUpToCase(p, q) && SameUpToCase(s, t) && AnchoredGlob(p, s)
    ensures AnchoredGlob(q, t)
  {
    hide IsScheme, NoSlash, Glob, Fold;
    var i, j, k, m :| 0 <= i <= j <= k <= m <= |s| && IsScheme(s, i, j) && NoSlash(s, j, k) && Glob(p, s, k, m);
    SchemeIgnoresCase(s, t, i, j);
    SchemeIgnoresCase(s, t, j, k);
    GlobIgnoresCase(p, q, s, t, k, m);
  }

  lemma SomewhereIgnoresCase(p: string, q: string, s: string, t: string)
    requires SameUpToCase(p, q) && SameUpToCase(s, t) && GlobSomewhere(p, s)
    ensures GlobSomewhere(q, t)
  {
    hide Glob, Fold;
    var i, j :| 0 <= i <= j <= |s| && Glob(p, s, i, j);
    GlobIgnoresCase(p, q, s, t, i, j);
  }

  lemma SameIsSymmetric(a: string, b: string)
    requires SameUpToCase(a, b)
    ensures SameUpToCase(b, a)
  {}

  lemma SameBehind(a: string, b: string, n: nat, front: string)
    requires SameUpToCase(a, b) && n <= |a|
    ensures SameUpToCase(front + a[n..], front + b[n..])
  {
    hide Fold;
  }

  /** Neither the case of the filter nor that of the URL matters. */
  lemma FiltersIgnoreCase(pattern: string, other: string, s: string, t: string)
    requires Lower(pattern) == Lower(other) && Lower(s) == Lower(t)
    ensures FilterMatches(pattern, s) <==> FilterMatches(other, t)
  {
    SameLower(pattern, other);
    SameLower(s, t);
    SameIsSymmetric(s, t);
    hide AnchoredGlob, GlobSomewhere, Fold, Lower;
    assert forall k :: 0 <= k < |pattern| && k < 2 ==> (pattern[k] == '|' <==> other[k] == '|') by {
      forall k | 0 <= k < |pattern| ensures pattern[k] == '|' <==> other[k] == '|' {
        OnlyLettersFold(pattern[k], other[k]);
      }
    }
    if "||" <= pattern {
      assert "" + pattern[2..] == pattern[2..] && "" + other[2..] == other[2..];
      SameBehind(pattern, other, 2, "");
      SameIsSymmetric(pattern[2..], other[2..]);
      if AnchoredGlob(pattern[2..], s) { AnchoredIgnoresCase(pattern[2..], other[2..], s, t); }
      if AnchoredGlob(other[2..], t) { AnchoredIgnoresCase(other[2..], pattern[2..], t, s); }
    } else {
      var p := if "|" <= pattern then "^" + pattern[1..] else pattern;
      var q := if "|" <= pattern then "^" + other[1..] else other;
      if "|" <= pattern { SameBehind(pattern, other, 1, "^"); }
      SameIsSymmetric(p, q);
      if GlobSomewhere(p, s) { SomewhereIgnoresCase(p, q, s, t); }
      if GlobSomewhere(q, t) { SomewhereIgnoresCase(q, p, t, s); }
    }
  }

  lemma SameLower(a: string, b: string)
    requires Lower(a) == Lower(b)
    ensures SameUpToCase(a, b)
  {
    assert forall k :: 0 <= k < |a| ==> Lower(a)[k] == Lower(b)[k];
  }

  predicate OneLine(s: string) { forall k :: 0 <= k < |s| ==> s[k] != '\n' }

  lemma {:induction false} AnyRun(s: string, i: nat, j: nat)
    requires i <= j <= |s| && OneLine(s)
    ensures Matches(Star(Any), s, i, j)
    decreases j - i
  {
    if i == j {
    } else {
      AnyRun(s, i + 1, j);
      assert Matches(Any, s, i, i + 1);
    }
  }

  lemma OneSeparator(c: char)
    ensures InClass(c, SEPARATORS) <==> IsSeparator(c)
  {
    if IsSeparator(c) {
      var k :| 0 <= k < |SEPARATORS| && SEPARATORS[k] == c;
    }
  }

  lemma SeparatorMeaning(s: string, i: nat, k: nat)
    requires i <= k <= |s| && OneLine(s)
    ensures Matches(Item('^'), s, i, k) <==> (k == i + 1 && IsSeparator(s[i])) || (k == i == |s|)
  {
    var class_ := Class(false, SEPARATORS);
    assert Matches(Cat(class_, Empty), s, i, k) <==> Matches(class_, s, i, k) by {
      assert forall x :: i <= x <= k ==> (Matches(Empty, s, x, k) <==> x == k);
    }
    assert Matches(Cat(End, Empty), s, i, k) <==> Matches(End, s, i, k) by {
      assert forall x :: i <= x <= k ==> (Matches(Empty, s, x, k) <==> x == k);
    }
    if i < |s| { OneSeparator(s[i]); }
  }

  lemma {:induction false} ItemsMeanGlob(p: string, s: string, i: nat, j: nat)
    requires i <= j <= |s| && OneLine(s)
    ensures Matches(Items(p), s, i, j) <==> Glob(p, s, i, j)
    decreases |p|
  {
    if p == "" {
    } else {
      var rest := p[1..];
      forall k | i <= k <= j ensures Matches(Items(rest), s, k, j) <==> Glob(rest, s, k, j) {
        ItemsMeanGlob(rest, s, k, j);
      }
      forall k | i <= k <= j
        ensures Matches(Item(p[0]), s, i, k) <==>
          (p[0] == '*') || (p[0] == '^' && ((k == i + 1 && IsSeparator(s[i])) || k == i == |s|)) ||
          (p[0] != '*' && p[0] != '^' && k == i + 1 && Fold(s[i]) == Fold(p[0]))
      {
        if p[0] == '*' { AnyRun(s, i, k); }
        if p[0] == '^' { SeparatorMeaning(s, i, k); }
      }
    }
  }

  lemma {:induction false} PlainMeaning(t: string, tail: Re, s: string, i: nat, j: nat)
    requires i <= j <= |s|
    ensures Matches(Plain(t, tail), s, i, j) <==>
              i + |t| <= j && Spells(s, i, i + |t|, t) && Matches(tail, s, i + |t|, j)
  {
    if t == "" {
    } else {
      assert Plain(t, tail) == Cat(Lit(t[0]), Plain(t[1..], tail));
      hide Matches, Spells, Plain, Fold;
      LetterFirst(t[0], Plain(t[1..], tail), s, i, j);
      if i < j {
        PlainMeaning(t[1..], tail, s, i + 1, j);
        if i + |t| <= j { SpellsLetterFirst(s, i, t); }
      }
    }
  }

  lemma LetterFirst(c: char, r: Re, s: string, i: nat, j: nat)
    requires i <= j <= |s|
    ensures Matches(Cat(Lit(c), r), s, i, j) <==> i < j && Fold(s[i]) == Fold(c) && Matches(r, s, i + 1, j)
  {
    hide Fold;
    CatSplits(Lit(c), r, s, i, j);
    if i < j && Fold(s[i]) == Fold(c) && Matches(r, s, i + 1, j) {
      assert Cut(i + 1) && Matches(Lit(c), s, i, i + 1);
    }
  }

  lemma SpellsLetterFirst(s: string, i: nat, t: string)
    requires t != "" && i + |t| <= |s|
    ensures Spells(s, i, i + |t|, t) <==> Fold(s[i]) == Fold(t[0]) && Spells(s, i + 1, i + |t|, t[1..])
  {
    hide Fold;
    if Spells(s, i, i + |t|, t) {
      assert Fold(s[i + 0]) == Fold(t[0]);
      forall k | 0 <= k < |t| - 1 ensures Fold(s[i + 1 + k]) == Fold(t[1..][k]) {
        assert Fold(s[i + (k + 1)]) == Fold(t[k + 1]);
      }
    }
    if Fold(s[i]) == Fold(t[0]) && Spells(s, i + 1, i + |t|, t[1..]) {
      forall k | 0 <= k < |t| ensures Fold(s[i + k]) == Fold(t[k]) {
        if k > 0 { assert Fold(s[i + 1 + (k - 1)]) == Fold(t[1..][k - 1]); }
      }
    }
  }

  lemma SpellsAppend(s: string, i: nat, j: nat, t: string, u: string)
    requires i + |t| <= j <= |s| && j == i + |t| + |u|
    ensures Spells(s, i, j, t + u) <==> Spells(s, i, i + |t|, t) && Spells(s, i + |t|, j, u)
  {
    if Spells(s, i, j, t + u) {
      forall k | 0 <= k < |t| ensures Fold(s[i + k]) == Fold(t[k]) { assert (t + u)[k] == t[k]; }
      forall k | 0 <= k < |u| ensures Fold(s[i + |t| + k]) == Fold(u[k]) {
        assert (t + u)[|t| + k] == u[k];
        assert Fold(s[i + (|t| + k)]) == Fold((t + u)[|t| + k]);
      }
    }
    if Spells(s, i, i + |t|, t) && Spells(s, i + |t|, j, u) {
      forall k | 0 <= k < |t + u| ensures Fold(s[i + k]) == Fold((t + u)[k]) {
        if k >= |t| { assert Fold(s[i + |t| + (k - |t|)]) == Fold(u[k - |t|]); }
      }
    }
  }

  lemma SchemeMeaning(name: string, s: string, i: nat, j: nat)
    requires i <= j <= |s|
    ensures Matches(Scheme(name), s, i, j) <==> Spells(s, i, j, name + "://") || Spells(s, i, j, name + ("s" + "://"))
  {
    hide Spells;
    var rest := Plain("://", Empty);
    var optional := Cat(Opt(Lit('s')), rest);
    PlainMeaning(name, optional, s, i, j);
    var a := i + |name|;
    if a <= j {
      forall k | a <= k <= j ensures Matches(rest, s, k, j) <==> j == k + 3 && Spells(s, k, j, "://") {
        PlainMeaning("://", Empty, s, k, j);
      }
      CatSplits(Opt(Lit('s')), rest, s, a, j);
      forall k | a <= k <= j
        ensures Matches(Opt(Lit('s')), s, a, k) <==> k == a || (k == a + 1 && Fold(s[a]) == Fold('s'))
      {
        OptionalLetter('s', s, a, k);
      }
      hide Matches;
      assert Matches(optional, s, a, j) <==>
             (j == a + 3 && Spells(s, a, j, "://")) ||
             (j == a + 4 && Fold(s[a]) == Fold('s') && Spells(s, a + 1, j, "://")) by {
        if j == a + 3 && Spells(s, a, j, "://") { assert Matches(Opt(Lit('s')), s, a, a) && Matches(rest, s, a, j); }
        if j == a + 4 && Fold(s[a]) == Fold('s') && Spells(s, a + 1, j, "://") {
          assert Matches(Opt(Lit('s')), s, a, a + 1) && Matches(rest, s, a + 1, j);
        }
      }
      OneLetter(s, a, 's');
      if j == a + 3 { SpellsAppend(s, i, j, name, "://"); }
      if j == a + 4 {
        SpellsAppend(s, a, j, "s", "://");
        SpellsAppend(s, i, j, name, "s" + "://");
      }
    }
    SpellsLength(s, i, j, name + "://");
    SpellsLength(s, i, j, name + ("s" + "://"));
  }

  lemma OneLetter(s: string, a: nat, c: char)
    requires a <= |s|
    ensures a < |s| ==> (Spells(s, a, a + 1, [c]) <==> Fold(s[a]) == Fold(c))
  {
    assert a < |s| && Spells(s, a, a + 1, [c]) ==> Fold(s[a + 0]) == Fold([c][0]);
  }

  lemma SpellsLength(s: string, i: nat, j: nat, t: string)
    requires i <= j <= |s|
    ensures Spells(s, i, j, t) ==> j == i + |t|
  {}

  lemma {:induction false} SlashlessRun(s: string, j: nat, k: nat)
    requires j <= k <= |s|
    ensures Matches(Star(Class(true, "/")), s, j, k) <==> NoSlash(s, j, k)
    decreases k - j
  {
    if j < k {
      NotSlash(s[j]);
      SlashlessRun(s, j + 1, k);
      assert Matches(Class(true, "/"), s, j, j + 1) <==> s[j] != '/';
      assert forall x :: j < x <= k && Matches(Class(true, "/"), s, j, x) ==> x == j + 1;
    }
  }

  lemma NotSlash(c: char)
    ensures InClass(c, "/") <==> c == '/'
  {
    assert c == '/' ==> Fold("/"[0]) == Fold(c);
  }

  lemma AnchoredHitIsGlob(p: string, s: string)
    requires OneLine(s) && Search(Anchored(Items(p)), s)
    ensures AnchoredGlob(p, s)
  {
    hide Matches, Items, Glob, Scheme, IsScheme, NoSlash;
    var scheme, run, dot, tail := Alt(Scheme("http"), Scheme("ws")), Star(Class(true, "/")), Opt(Lit('.')), Items(p);
    var i, m :| 0 <= i <= m <= |s| && Matches(Anchored(tail), s, i, m);
    CatSplits(scheme, Cat(run, Cat(dot, tail)), s, i, m);
    var j :| i <= j <= m && Cut(j) && Matches(scheme, s, i, j) && Matches(Cat(run, Cat(dot, tail)), s, j, m);
    CatSplits(run, Cat(dot, tail), s, j, m);
    var k :| j <= k <= m && Cut(k) && Matches(run, s, j, k) && Matches(Cat(dot, tail), s, k, m);
    CatSplits(dot, tail, s, k, m);
    var k' :| k <= k' <= m && Cut(k') && Matches(dot, s, k, k') && Matches(tail, s, k', m);
    SchemesMeaning(s, i, j);
    SlashlessRun(s, j, k);
    DotExtendsRun(s, j, k, k');
    ItemsMeanGlob(p, s, k', m);
    assert IsScheme(s, i, j) && NoSlash(s, j, k') && Glob(p, s, k', m);
  }

  lemma AnchoredGlobIsHit(p: string, s: string)
    requires OneLine(s) && AnchoredGlob(p, s)
    ensures Search(Anchored(Items(p)), s)
  {
    hide Matches, Items, Glob, Scheme, IsScheme, NoSlash;
    var scheme, run, dot, tail := Alt(Scheme("http"), Scheme("ws")), Star(Class(true, "/")), Opt(Lit('.')), Items(p);
    var i, j, k, m :| 0 <= i <= j <= k <= m <= |s| && IsScheme(s, i, j) && NoSlash(s, j, k) && Glob(p, s, k, m);
    SchemesMeaning(s, i, j);
    SlashlessRun(s, j, k);
    OptionalLetter('.', s, k, k);
    ItemsMeanGlob(p, s, k, m);
    assert Cut(k) && Cut(j);
    CatSplits(dot, tail, s, k, m);
    CatSplits(run, Cat(dot, tail), s, j, m);
    CatSplits(scheme, Cat(run, Cat(dot, tail)), s, i, m);
    assert Matches(Anchored(tail), s, i, m);
  }

  lemma DotExtendsRun(s: string, j: nat, k: nat, k': nat)
    requires j <= k <= k' <= |s| && NoSlash(s, j, k) && Matches(Opt(Lit('.')), s, k, k')
    ensures NoSlash(s, j, k')
  {
    OptionalLetter('.', s, k, k');
    if k < |s| { FoldedDot(s[k]); }
  }

  lemma FoldedDot(c: char)
    ensures Fold(c) == Fold('.') <==> c == '.'
  {}

  lemma CatSplits(a: Re, b: Re, s: string, i: nat, j: nat)
    requires i <= j <= |s|
    ensures Matches(Cat(a, b), s, i, j) <==>
              exists k :: i <= k <= j && Cut(k) && Matches(a, s, i, k) && Matches(b, s, k, j)
  {}

  lemma OptionalLetter(c: char, s: string, a: nat, k: nat)
    requires a <= k <= |s|
    ensures Matches(Opt(Lit(c)), s, a, k) <==> k == a || (k == a + 1 && Fold(s[a]) == Fold(c))
  {}

  lemma SchemesMeaning(s: string, i: nat, j: nat)
    requires i <= j <= |s|
    ensures Matches(Alt(Scheme("http"), Scheme("ws")), s, i, j) <==> IsScheme(s, i, j)
  {
    SchemeMeaning("http", s, i, j);
    SchemeMeaning("ws", s, i, j);
    hide Scheme, Spells;
    assert "http" + "://" == "http://" && "http" + ("s" + "://") == "https://";
    assert "ws" + "://" == "ws://" && "ws" + ("s" + "://") == "wss://";
  }

  /** The regex engine reports a hit for a rule's regex text. */
  predicate RegexHits(text: string, url: string) {
    Parse(text).Some? && Search(Parse(text).value, url)
  }

  /** Main result: the translation preserves the meaning of every pattern on every one-line URL. */
  lemma TranslationPreservesMeaning(pattern: string, url: string)
    requires OneLine(url)
    ensures RegexHits(RegexText(pattern), url) <==> FilterMatches(pattern, url)
  {
    hide RegexText, Parse, Items, Glob, Matches, Anchored;
    RegexTextParses(pattern);
    if "||" <= pattern {
      if AnchoredGlob(pattern[2..], url) { AnchoredGlobIsHit(pattern[2..], url); }
      if Search(Anchored(Items(pattern[2..])), url) { AnchoredHitIsGlob(pattern[2..], url); }
    } else {
      var p := if "|" <= pattern then "^" + pattern[1..] else pattern;
      forall i, j | 0 <= i <= j <= |url| ensures Matches(Items(p), url, i, j) <==> Glob(p, url, i, j) {
        ItemsMeanGlob(p, url, i, j);
      }
    }
  }

  lemma {:induction false} PlainGlob(p: string, s: string, i: nat, j: nat)
    requires i <= j <= |s| && Spells(s, i, j, p) && '*' !in p && '^' !in p
    ensures Glob(p, s, i, j)
    decreases |p|
  {
    if p == "" {
    } else {
      assert Fold(s[i + 0]) == Fold(p[0]);
      assert forall k :: 0 <= k < |p[1..]| ==> Fold(s[i + 1 + k]) == Fold(p[1..][k]) by {
        assert forall k :: 0 <= k < |p| ==> Fold(s[i + k]) == Fold(p[k]);
      }
      PlainGlob(p[1..], s, i + 1, j);
    }
  }

  /** The double bar asks for no label boundary: whatever stands between the scheme and the name, up to a slash, the
      filter hits. So a filter for one host also hits every host whose name ends like it. */
  lemma NoLabelBoundary(front: string, name: string, rest: string)
    requires '/' !in front && '*' !in name && '^' !in name
    ensures FilterMatches("||" + name, "http://" + front + name + rest)
  {
    var s, i, j := "http://" + front + name + rest, 7, 7 + |front|;
    var p := "||" + name;
    assert p[2..] == name && p[..2] == "||";
    assert forall k :: 0 <= k < 7 ==> s[0 + k] == "http://"[k];
    assert forall k :: 0 <= k < |front| ==> s[7 + k] == front[k];
    assert forall k :: 0 <= k < |name| ==> s[j + k] == name[k];
    assert IsScheme(s, 0, 7) && NoSlash(s, i, j);
    PlainGlob(name, s, j, j + |name|);
    assert AnchoredGlob(name, s);
  }

  lemma OtherHostIsHit()
    ensures RegexHits(RegexText("||ads.com/x"), "http://badads.com/x")
  {
    hide RegexHits, RegexText, FilterMatches;
    var url := "http://" + "bad" + "ads.com/x" + "";
    assert url == "http://badads.com/x" && "||" + "ads.com/x" == "||ads.com/x";
    NoLabelBoundary("bad", "ads.com/x", "");
    TranslationPreservesMeaning("||ads.com/x", url);
  }
}
