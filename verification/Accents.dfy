/** The accent collector of TitanFetch: colours from the compositor configuration and the files it includes. */
module Accents {
  import opened HueCircle
  import opened Sequences
  import opened Text

  // ---------- Configuration text ----------

  /** The readable files, by path, as the pieces fgets returns; and what a colour token stands for. */
  datatype Config = Config(home: string, files: map<string, seq<string>>, colorOf: string -> Color) {
    function HyprDir(): string { home + "/.config/hypr" }

    function MainFile(): string {
      var lua := HyprDir() + "/hyprland.lua";
      if lua in files then lua else HyprDir() + "/hyprland.conf"
    }

    function Resolve(source: string): string {
      if "~" <= source then home + source[1..]
      else if "/" <= source then source
      else HyprDir() + "/" + source
    }
  }

  function Without(s: string, c: char): string {
    if s == "" then "" else (if s[0] == c then "" else [s[0]]) + Without(s[1..], c)
  }

  /** The maximal runs of other characters than the blank. */
  function Words(s: string): seq<string>
    decreases |s|
  {
    if s == "" then []
    else if s[0] == ' ' then Words(s[1..])
    else
      var k := IndexOf(s, ' ');
      [s[..k]] + Words(s[k..])
  }

  datatype Line = Source(path: string) | Tokens(words: seq<string>) | Other

  predicate IsColorLine(line: string) {
    Contains(line, "col.") || Contains(line, "border_color") || Contains(line, "active_border")
  }

  predicate IsSkippedColorLine(line: string) {
    || Contains(line, "inactive_border") || Contains(line, "background_color") || Contains(line, "bar_color")
    || Contains(line, "col.text") || Contains(line, "bar_text") || Contains(line, "shadow_color")
  }

  function ReadLine(cfg: Config, raw: string): Line {
    var line := Trimmed(raw);
    if "source=" <= line then Source(cfg.Resolve(Without(Trimmed(line[7..]), '"')))
    else if "#" <= line || "--" <= line then Other
    else if !IsColorLine(line) || IsSkippedColorLine(line) then Other
    else
      var eq := IndexOf(line, '=');
      Tokens(Words(if eq < |line| then line[eq + 1..] else line))
  }

  function CleanToken(word: string): string {
    Without(Without(Without(word, '"'), '\''), ',')
  }

  predicate IsColorToken(token: string) {
    "rgba" <= Lower(token) || "rgb(" <= Lower(token)
  }

  /** The word names an accent colour. */
  predicate NamesAccent(cfg: Config, word: string) {
    IsColorToken(CleanToken(word)) && IsInterestingAccent(cfg.colorOf(CleanToken(word)))
  }

  // ---------- What a scan does ----------

  const MAX_DEPTH := 6
  const ENOUGH := 10
  const SHOWN := 5

  /** The colours so far, and each visited path with the nesting depth at which it was first visited. */
  datatype Scan = Scan(colors: seq<Color>, entered: map<string, nat>)

  function Offer(cfg: Config, colors: seq<Color>, word: string): seq<Color> {
    var c := cfg.colorOf(CleanToken(word));
    if NamesAccent(cfg, word) && !HasNear(c, colors) then colors + [c] else colors
  }

  function OfferAll(cfg: Config, colors: seq<Color>, words: seq<string>): seq<Color>
    decreases |words|
  {
    if words == [] then colors else OfferAll(cfg, Offer(cfg, colors, words[0]), words[1..])
  }

  function ScanFile(cfg: Config, path: string, depth: nat, s: Scan): Scan
    decreases MAX_DEPTH + 1 - depth
  {
    if depth > MAX_DEPTH || path in s.entered then s
    else
      var visited := s.(entered := s.entered[path := depth]);
      if path !in cfg.files then visited else ScanLines(cfg, cfg.files[path], depth, visited)
  }

  function ScanLines(cfg: Config, lines: seq<string>, depth: nat, s: Scan): Scan
    requires depth <= MAX_DEPTH
    decreases MAX_DEPTH + 1 - depth, |lines|
  {
    if lines == [] || |s.colors| >= ENOUGH then s
    else ScanLines(cfg, lines[1..], depth, ScanLine(cfg, lines[0], depth, s))
  }

  function ScanLine(cfg: Config, line: string, depth: nat, s: Scan): Scan
    requires depth <= MAX_DEPTH
    decreases MAX_DEPTH + 1 - depth, 0
  {
    match ReadLine(cfg, line)
    case Source(path) => ScanFile(cfg, path, depth + 1, s)
    case Tokens(words) => s.(colors := OfferAll(cfg, s.colors, words))
    case Other => s
  }

  const EMPTY := Scan([], map[])

  /** The list padded with the fallbacks that keep their distance, until five are there. */
  function Pad(colors: seq<Color>, fallbacks: seq<Color>): seq<Color>
    decreases |fallbacks|
  {
    if fallbacks == [] || |colors| >= SHOWN then colors
    else Pad(if HasNear(fallbacks[0], colors) then colors else colors + [fallbacks[0]], fallbacks[1..])
  }

  function FirstFive(colors: seq<Color>): seq<Color> {
    if |colors| > SHOWN then colors[..SHOWN] else colors
  }

  function Collected(cfg: Config): seq<Color> { ScanFile(cfg, cfg.MainFile(), 0, EMPTY).colors }

  // ---------- What is collected ----------

  /** The word, standing on one of the lines of the file, names the colour. */
  ghost predicate NamedOn(cfg: Config, line: string, c: Color) {
    ReadLine(cfg, line).Tokens? &&
    exists w :: w in ReadLine(cfg, line).words && NamesAccent(cfg, w) && c == cfg.colorOf(CleanToken(w))
  }

  ghost predicate NamedIn(cfg: Config, path: string, c: Color) {
    path in cfg.files && exists line :: line in cfg.files[path] && NamedOn(cfg, line, c)
  }

  ghost predicate Traced(cfg: Config, s: Scan, c: Color) {
    exists p :: p in s.entered && NamedIn(cfg, p, c)
  }

  ghost predicate Includes(cfg: Config, p: string, q: string) {
    p in cfg.files && exists line :: line in cfg.files[p] && ReadLine(cfg, line) == Source(q)
  }

  /** The main file, a file it includes, one that file includes, and so on. */
  ghost predicate IsChain(cfg: Config, chain: seq<string>) {
    chain != [] && chain[0] == cfg.MainFile() &&
    forall k :: 0 < k < |chain| ==> Includes(cfg, chain[k - 1], chain[k])
  }

  ghost predicate Reachable(cfg: Config, p: string) {
    exists chain :: IsChain(cfg, chain) && chain[|chain| - 1] == p
  }

  lemma IncludedIsReachable(cfg: Config, p: string, q: string)
    requires Reachable(cfg, p) && Includes(cfg, p, q)
    ensures Reachable(cfg, q)
  {
    hide Includes;
    var chain :| IsChain(cfg, chain) && chain[|chain| - 1] == p;
    assert IsChain(cfg, chain + [q]);
  }

  /** A chain of visited files, none of them twice, that leads to p in as many steps as its depth says. */
  ghost predicate IsRoute(cfg: Config, entered: map<string, nat>, chain: seq<string>, p: string) {
    p in entered && IsChain(cfg, chain) && chain[|chain| - 1] == p && Unique(chain) &&
    |chain| == entered[p] + 1 && forall q :: q in chain ==> q in entered
  }

  ghost predicate HasRoute(cfg: Config, entered: map<string, nat>, p: string) {
    exists chain :: IsRoute(cfg, entered, chain, p)
  }

  /** A line of a visited file one level up, or the start, opens this path at this depth. */
  ghost predicate Opens(cfg: Config, s: Scan, path: string, depth: nat) {
    (depth == 0 && path == cfg.MainFile()) ||
    exists p :: p in s.entered && s.entered[p] + 1 == depth && Includes(cfg, p, path)
  }

  ghost predicate AllRouted(cfg: Config, entered: map<string, nat>) {
    forall p :: p in entered ==> HasRoute(cfg, entered, p) && entered[p] <= MAX_DEPTH
  }

  lemma OpeningKeepsRoutes(cfg: Config, s: Scan, path: string, depth: nat)
    requires AllRouted(cfg, s.entered) && Opens(cfg, s, path, depth) && path !in s.entered && depth <= MAX_DEPTH
    ensures AllRouted(cfg, s.entered[path := depth])
  {
    hide Includes;
    var entered := s.entered[path := depth];
    forall p | p in entered ensures HasRoute(cfg, entered, p) {
      if p != path {
        var chain :| IsRoute(cfg, s.entered, chain, p);
        assert IsRoute(cfg, entered, chain, p);
      } else if depth == 0 && path == cfg.MainFile() {
        assert IsRoute(cfg, entered, [path], path);
      } else {
        var parent :| parent in s.entered && s.entered[parent] + 1 == depth && Includes(cfg, parent, path);
        assert HasRoute(cfg, s.entered, parent);
        var chain :| IsRoute(cfg, s.entered, chain, parent);
        assert IsRoute(cfg, entered, chain + [path], path);
      }
    }
  }

  lemma RoutedIsReachable(cfg: Config, entered: map<string, nat>, p: string)
    requires AllRouted(cfg, entered) && p in entered
    ensures Reachable(cfg, p)
  {
    hide IsChain;
    var chain :| IsRoute(cfg, entered, chain, p);
  }

  /** No two colours share a hue, all stand out, each is named in a file that was visited, and every visited file
      was reached from the main file along a chain of includes as long as its depth. */
  ghost predicate Sound(cfg: Config, s: Scan) {
    AllRouted(cfg, s.entered) &&
    Spaced(s.colors) && (forall c :: c in s.colors ==> IsInterestingAccent(c)) &&
    forall c :: c in s.colors ==> Traced(cfg, s, c)
  }

  /** t continues s: nothing collected or visited is lost. */
  ghost predicate Continues(s: Scan, t: Scan) {
    s.colors <= t.colors && forall p :: p in s.entered ==> p in t.entered && t.entered[p] == s.entered[p]
  }

  /** Every accent colour the words name is on the list or shares its hue with one that is. */
  ghost predicate Represented(cfg: Config, words: seq<string>, colors: seq<Color>) {
    forall w :: w in words && NamesAccent(cfg, w) ==> HasNear(cfg.colorOf(CleanToken(w)), colors)
  }

  ghost predicate LineDone(cfg: Config, line: string, depth: nat, t: Scan) {
    match ReadLine(cfg, line)
    case Source(path) => depth < MAX_DEPTH ==> path in t.entered
    case Tokens(words) => Represented(cfg, words, t.colors)
    case Other => true
  }

  ghost predicate FileDone(cfg: Config, path: string, t: Scan)
    requires path in t.entered
  {
    path in cfg.files ==> forall line :: line in cfg.files[path] ==> LineDone(cfg, line, t.entered[path], t)
  }

  /** Unless the list is full, every file first visited between s and t has been read to its end. */
  ghost predicate NewDone(cfg: Config, s: Scan, t: Scan) {
    |t.colors| < ENOUGH ==> forall p :: p in t.entered && p !in s.entered ==> FileDone(cfg, p, t)
  }

  ghost predicate LinesDone(cfg: Config, lines: seq<string>, depth: nat, t: Scan) {
    |t.colors| < ENOUGH ==> forall line :: line in lines ==> LineDone(cfg, line, depth, t)
  }

  lemma HasNearGrows(c: Color, colors: seq<Color>, more: seq<Color>)
    requires HasNear(c, colors) && colors <= more
    ensures HasNear(c, more)
  {
    var k :| 0 <= k < |colors| && Near(c, colors[k]);
    assert Near(c, more[k]);
  }

  lemma RepresentedGrows(cfg: Config, words: seq<string>, colors: seq<Color>, more: seq<Color>)
    requires Represented(cfg, words, colors) && colors <= more
    ensures Represented(cfg, words, more)
  {
    forall w | w in words && NamesAccent(cfg, w) ensures HasNear(cfg.colorOf(CleanToken(w)), more) {
      HasNearGrows(cfg.colorOf(CleanToken(w)), colors, more);
    }
  }

  lemma OfferKeeps(cfg: Config, colors: seq<Color>, word: string)
    ensures colors <= Offer(cfg, colors, word)
    ensures Spaced(colors) ==> Spaced(Offer(cfg, colors, word))
    ensures Represented(cfg, [word], Offer(cfg, colors, word))
    ensures forall c :: c in Offer(cfg, colors, word) && c !in colors ==>
              NamesAccent(cfg, word) && c == cfg.colorOf(CleanToken(word))
  {
    hide NamesAccent, CleanToken;
    var c, offered := cfg.colorOf(CleanToken(word)), Offer(cfg, colors, word);
    if NamesAccent(cfg, word) && !HasNear(c, colors) {
      assert Near(c, offered[|colors|]);
    }
  }

  lemma {:induction false} OfferAllKeeps(cfg: Config, colors: seq<Color>, words: seq<string>)
    ensures colors <= OfferAll(cfg, colors, words)
    ensures Spaced(colors) ==> Spaced(OfferAll(cfg, colors, words))
    ensures Represented(cfg, words, OfferAll(cfg, colors, words))
    ensures forall c :: c in OfferAll(cfg, colors, words) && c !in colors ==>
              exists w :: w in words && NamesAccent(cfg, w) && c == cfg.colorOf(CleanToken(w))
    decreases |words|
  {
    hide NamesAccent, CleanToken, Offer, HasNear, Spaced;
    if words == [] {
    } else {
      var w, rest := words[0], words[1..];
      var offered := Offer(cfg, colors, w);
      OfferKeeps(cfg, colors, w);
      OfferAllKeeps(cfg, offered, rest);
      RepresentedGrows(cfg, [w], offered, OfferAll(cfg, offered, rest));
      assert w in [w];
    }
  }

  lemma LineDoneGrows(cfg: Config, line: string, depth: nat, s: Scan, t: Scan)
    requires LineDone(cfg, line, depth, s) && Continues(s, t)
    ensures LineDone(cfg, line, depth, t)
  {
    hide Represented, ReadLine;
    match ReadLine(cfg, line)
    case Tokens(words) => RepresentedGrows(cfg, words, s.colors, t.colors);
    case _ =>
  }

  lemma NewDoneJoins(cfg: Config, s: Scan, t: Scan, u: Scan)
    requires NewDone(cfg, s, t) && NewDone(cfg, t, u) && Continues(s, t) && Continues(t, u)
    ensures NewDone(cfg, s, u) && Continues(s, u)
  {
    hide LineDone;
    if |u.colors| < ENOUGH {
      forall p | p in u.entered && p !in s.entered ensures FileDone(cfg, p, u) {
        if p in t.entered && p in cfg.files {
          forall line | line in cfg.files[p] ensures LineDone(cfg, line, u.entered[p], u) {
            LineDoneGrows(cfg, line, t.entered[p], t, u);
          }
        }
      }
    }
  }

  lemma TracedGrows(cfg: Config, s: Scan, t: Scan, c: Color)
    requires Traced(cfg, s, c) && Continues(s, t)
    ensures Traced(cfg, t, c)
  {
    hide NamedIn;
  }

  lemma {:induction false} FileScanned(cfg: Config, path: string, depth: nat, s: Scan)
    ensures var t := ScanFile(cfg, path, depth, s);
            Continues(s, t) && NewDone(cfg, s, t) && (Sound(cfg, s) && Opens(cfg, s, path, depth) ==> Sound(cfg, t)) &&
            (depth <= MAX_DEPTH ==> path in t.entered)
    decreases MAX_DEPTH + 1 - depth
  {
    hide ScanLines, LineDone, NamedIn, IsInterestingAccent, Spaced, AllRouted, Opens;
    if depth <= MAX_DEPTH && path !in s.entered {
      var visited := s.(entered := s.entered[path := depth]);
      if Sound(cfg, s) && Opens(cfg, s, path, depth) { OpeningKeepsRoutes(cfg, s, path, depth); }
      assert Continues(s, visited);
      forall c | c in s.colors && Traced(cfg, s, c) ensures Traced(cfg, visited, c) {
        TracedGrows(cfg, s, visited, c);
      }
      if path in cfg.files {
        LinesScanned(cfg, path, cfg.files[path], visited);
      }
    }
  }

  lemma {:induction false} LinesScanned(cfg: Config, path: string, lines: seq<string>, s: Scan)
    requires path in cfg.files && path in s.entered && s.entered[path] <= MAX_DEPTH
    requires forall line :: line in lines ==> line in cfg.files[path]
    ensures var t := ScanLines(cfg, lines, s.entered[path], s);
            Continues(s, t) && NewDone(cfg, s, t) && (Sound(cfg, s) ==> Sound(cfg, t)) &&
            LinesDone(cfg, lines, s.entered[path], t)
    decreases MAX_DEPTH + 1 - s.entered[path], |lines|
  {
    hide ScanLine, LineDone, NewDone, Sound;
    var depth := s.entered[path];
    if lines == [] || |s.colors| >= ENOUGH {
      assert NewDone(cfg, s, s) by { NothingNew(cfg, s); }
    } else {
      var next := ScanLine(cfg, lines[0], depth, s);
      LineScanned(cfg, path, lines[0], s);
      LinesScanned(cfg, path, lines[1..], next);
      var t := ScanLines(cfg, lines[1..], depth, next);
      NewDoneJoins(cfg, s, next, t);
      LineDoneGrows(cfg, lines[0], depth, next, t);
    }
  }

  lemma NothingNew(cfg: Config, s: Scan)
    ensures NewDone(cfg, s, s)
  {}

  lemma {:induction false} LineScanned(cfg: Config, path: string, line: string, s: Scan)
    requires path in cfg.files && path in s.entered && s.entered[path] <= MAX_DEPTH && line in cfg.files[path]
    ensures var t := ScanLine(cfg, line, s.entered[path], s);
            Continues(s, t) && NewDone(cfg, s, t) && (Sound(cfg, s) ==> Sound(cfg, t)) &&
            LineDone(cfg, line, s.entered[path], t)
    decreases MAX_DEPTH + 1 - s.entered[path], 0
  {
    hide ReadLine, ScanFile, OfferAll, NamesAccent, Represented, NewDone, AllRouted, NamedIn;
    NothingNew(cfg, s);
    match ReadLine(cfg, line)
    case Source(included) =>
      assert Includes(cfg, path, included) && Opens(cfg, s, included, s.entered[path] + 1);
      FileScanned(cfg, included, s.entered[path] + 1, s);
    case Tokens(words) => WordsScanned(cfg, path, line, s);
    case Other =>
  }

  lemma WordsScanned(cfg: Config, path: string, line: string, s: Scan)
    requires path in cfg.files && path in s.entered && line in cfg.files[path] && ReadLine(cfg, line).Tokens?
    ensures var t := s.(colors := OfferAll(cfg, s.colors, ReadLine(cfg, line).words));
            Continues(s, t) && NewDone(cfg, s, t) && (Sound(cfg, s) ==> Sound(cfg, t)) &&
            LineDone(cfg, line, s.entered[path], t)
  {
    hide ReadLine, OfferAll, CleanToken, IsColorToken, IsInterestingAccent, Spaced, Represented, AllRouted;
    var words := ReadLine(cfg, line).words;
    var t := s.(colors := OfferAll(cfg, s.colors, words));
    OfferAllKeeps(cfg, s.colors, words);
    if Sound(cfg, s) {
      forall c | c in t.colors ensures IsInterestingAccent(c) && Traced(cfg, t, c) {
        if c in s.colors {
          TracedGrows(cfg, s, t, c);
        } else {
          assert NamedOn(cfg, line, c);
          assert NamedIn(cfg, path, c);
        }
      }
    }
  }

  /** Whatever the configuration says: at most fourteen colours, no two alike, each named in a visited file. Below
      ten, no accent of any visited file has been left out. */
  lemma CollectionIsSound(cfg: Config)
    ensures var t := ScanFile(cfg, cfg.MainFile(), 0, EMPTY);
            Sound(cfg, t) && |t.colors| <= 14 && cfg.MainFile() in t.entered &&
            (|t.colors| < ENOUGH ==> forall p :: p in t.entered ==> FileDone(cfg, p, t))
  {
    hide ScanFile, LineDone, Includes;
    FileScanned(cfg, cfg.MainFile(), 0, EMPTY);
    AtMostFourteen(ScanFile(cfg, cfg.MainFile(), 0, EMPTY).colors);
  }

  /** The depth guard turned an include away, and no other line led to the file. */
  ghost predicate TurnedAway(cfg: Config, t: Scan) {
    exists p, q :: p in t.entered && t.entered[p] == MAX_DEPTH && Includes(cfg, p, q) && q !in t.entered
  }

  /** As long as the list is not full, the scan visits exactly the files the main file leads to, unless the depth guard
      turned an include away for good; and then it misses some. */
  lemma NoIncludeIsMissed(cfg: Config)
    requires |ScanFile(cfg, cfg.MainFile(), 0, EMPTY).colors| < ENOUGH
    ensures var t := ScanFile(cfg, cfg.MainFile(), 0, EMPTY);
            (forall p :: p in t.entered <==> Reachable(cfg, p)) <==> !TurnedAway(cfg, t)
  {
    hide ScanFile, Includes;
    var t := ScanFile(cfg, cfg.MainFile(), 0, EMPTY);
    CollectionIsSound(cfg);
    if TurnedAway(cfg, t) {
      var p, q :| p in t.entered && t.entered[p] == MAX_DEPTH && Includes(cfg, p, q) && q !in t.entered;
      RoutedIsReachable(cfg, t.entered, p);
      IncludedIsReachable(cfg, p, q);
    } else {
      forall p | p in t.entered ensures Reachable(cfg, p) {
        RoutedIsReachable(cfg, t.entered, p);
      }
      forall p | Reachable(cfg, p) ensures p in t.entered {
        var chain :| IsChain(cfg, chain) && chain[|chain| - 1] == p;
        ChainIsVisited(cfg, chain);
      }
    }
  }

  lemma {:induction false} ChainIsVisited(cfg: Config, chain: seq<string>)
    requires IsChain(cfg, chain)
    requires var t := ScanFile(cfg, cfg.MainFile(), 0, EMPTY); |t.colors| < ENOUGH && !TurnedAway(cfg, t)
    ensures chain[|chain| - 1] in ScanFile(cfg, cfg.MainFile(), 0, EMPTY).entered
  {
    hide ScanFile, ReadLine;
    CollectionIsSound(cfg);
    if |chain| == 1 {
    } else {
      ChainIsVisited(cfg, chain[..|chain| - 1]);
      var t, p, q := ScanFile(cfg, cfg.MainFile(), 0, EMPTY), chain[|chain| - 2], chain[|chain| - 1];
      assert Includes(cfg, p, q);
      assert FileDone(cfg, p, t) && t.entered[p] <= MAX_DEPTH;
    }
  }

  ghost function ColorsOf(cfg: Config, words: seq<string>): (r: seq<Color>)
    ensures |r| == |words| && forall k :: 0 <= k < |r| ==> r[k] == cfg.colorOf(CleanToken(words[k]))
  {
    if words == [] then [] else [cfg.colorOf(CleanToken(words[0]))] + ColorsOf(cfg, words[1..])
  }

  /** The size guard looks at whole lines only: one line with fourteen spread-out hues gets all of them in. */
  lemma {:induction false} SpreadTokensAreTaken(cfg: Config, taken: seq<Color>, words: seq<string>)
    requires forall k :: 0 <= k < |words| ==> NamesAccent(cfg, words[k])
    requires Spaced(taken + ColorsOf(cfg, words))
    ensures |OfferAll(cfg, taken, words)| == |taken| + |words|
    decreases |words|
  {
    hide NamesAccent, CleanToken, HasNear, Spaced, OfferAll, ColorsOf;
    FirstOffer(cfg, taken, words);
    if words == [] {
    } else {
      var c, more := cfg.colorOf(CleanToken(words[0])), ColorsOf(cfg, words[1..]);
      assert taken + ([c] + more) == (taken + [c]) + more;
      SpacedSplits(taken, c, more);
      SpreadTokensAreTaken(cfg, taken + [c], words[1..]);
    }
  }

  lemma FirstOffer(cfg: Config, taken: seq<Color>, words: seq<string>)
    ensures words == [] ==> OfferAll(cfg, taken, words) == taken
    ensures words != [] ==>
              OfferAll(cfg, taken, words) == OfferAll(cfg, Offer(cfg, taken, words[0]), words[1..]) &&
              ColorsOf(cfg, words) == [cfg.colorOf(CleanToken(words[0]))] + ColorsOf(cfg, words[1..])
  {
    hide Offer;
  }

  lemma SpacedSplits(taken: seq<Color>, c: Color, more: seq<Color>)
    requires Spaced((taken + [c]) + more)
    ensures !HasNear(c, taken)
  {
    hide Near;
    var all := (taken + [c]) + more;
    assert all[|taken|] == c && forall k :: 0 <= k < |taken| ==> all[k] == taken[k];
  }

  lemma FourteenIsReached(cfg: Config, words: seq<string>)
    requires |words| == 14
    requires forall k :: 0 <= k < 14 ==>
               NamesAccent(cfg, words[k]) && cfg.colorOf(CleanToken(words[k])).hue == 25 * k
    ensures |OfferAll(cfg, [], words)| == 14
  {
    hide NamesAccent, CleanToken, OfferAll;
    SpreadTokensAreTaken(cfg, [], words);
  }

  lemma {:induction false} PadKeeps(colors: seq<Color>, fallbacks: seq<Color>)
    ensures var r := Pad(colors, fallbacks);
            colors <= r && (Spaced(colors) ==> Spaced(r)) && (|r| <= SHOWN || r == colors) &&
            (|r| < SHOWN ==> forall f :: f in fallbacks ==> HasNear(f, r)) &&
            forall c :: c in r ==> c in colors || c in fallbacks
    decreases |fallbacks|
  {
    hide Near;
    if fallbacks != [] && |colors| < SHOWN {
      var f := fallbacks[0];
      var next := if HasNear(f, colors) then colors else colors + [f];
      PadKeeps(next, fallbacks[1..]);
      var r := Pad(next, fallbacks[1..]);
      assert HasNear(f, next) by {
        assert Near(f, f) by { SelfNear(f); }
        assert !HasNear(f, colors) ==> next[|colors|] == f;
      }
      HasNearGrows(f, next, r);
    }
  }

  lemma SelfNear(c: Color)
    ensures Near(c, c)
  {}

  /** What the shell shows: at most five accents, no two alike, the collected ones first; fewer than five only when
      every fallback is like one of them. */
  lemma ShownIsSpaced(cfg: Config, fallbacks: seq<Color>)
    ensures var c, r := Collected(cfg), FirstFive(Pad(Collected(cfg), fallbacks));
            |r| <= 5 && Spaced(r) && (if |c| <= 5 then c <= r else r == c[..5]) &&
            (|r| < 5 ==> forall f :: f in fallbacks ==> HasNear(f, r))
  {
    hide ScanFile, HasNear, Near;
    CollectionIsSound(cfg);
    PadKeeps(Collected(cfg), fallbacks);
  }

  class AccentReader {
    const cfg: Config
    var colors: seq<Color>
    var visited: set<string>
    ghost var entered: map<string, nat>

    ghost predicate Valid()
      reads this
    {
      entered.Keys == visited
    }

    ghost function Progress(): Scan
      reads this
    {
      Scan(colors, entered)
    }

    constructor (cfg: Config)
      ensures Valid() && this.cfg == cfg && Progress() == EMPTY
    {
      this.cfg, colors, visited, entered := cfg, [], {}, map[];
    }

    static method IsDuplicateHue(c: Color, list: seq<Color>) returns (r: bool)
      ensures r <==> HasNear(c, list)
    {
      for k := 0 to |list|
        invariant forall i :: 0 <= i < k ==> !Near(c, list[i])
      {
        var dh := if c.hue >= list[k].hue then c.hue - list[k].hue else list[k].hue - c.hue;
        if dh > 180 {
          dh := 360 - dh;
        }
        if dh < 25 {
          assert Near(c, list[k]);
          return true;
        }
      }
      return false;
    }

    method ScanHyprFile(path: string, depth: nat)
      requires Valid()
      modifies this
      ensures Valid() && Progress() == ScanFile(cfg, path, depth, old(Progress()))
      decreases MAX_DEPTH + 1 - depth
    {
      hide ReadLine, OfferAll;
      if depth > MAX_DEPTH || path in visited {
        return;
      }
      visited := visited + {path};
      entered := entered[path := depth];
      if path !in cfg.files {
        return;
      }
      var lines := cfg.files[path];
      ghost var start := Progress();
      var k := 0;
      assert lines[0..] == lines;
      while k < |lines| && |colors| < ENOUGH
        invariant k <= |lines| && Valid()
        invariant ScanLines(cfg, lines[k..], depth, Progress()) == ScanLines(cfg, lines, depth, start)
      {
        assert lines[k..][0] == lines[k] && lines[k..][1..] == lines[k + 1..];
        match ReadLine(cfg, lines[k]) {
          case Source(included) => ScanHyprFile(included, depth + 1);
          case Tokens(words) => TakeAccents(words);
          case Other =>
        }
        k := k + 1;
      }
    }

    method TakeAccents(words: seq<string>)
      requires Valid()
      modifies this`colors
      ensures Valid() && colors == OfferAll(cfg, old(colors), words)
    {
      hide CleanToken, IsColorToken, IsInterestingAccent, HasNear;
      assert words[0..] == words;
      for k := 0 to |words|
        invariant Valid() && OfferAll(cfg, colors, words[k..]) == OfferAll(cfg, old(colors), words)
      {
        assert words[k..][0] == words[k] && words[k..][1..] == words[k + 1..];
        var token := CleanToken(words[k]);
        if IsColorToken(token) {
          var c := cfg.colorOf(token);
          var duplicate := IsDuplicateHue(c, colors);
          if IsInterestingAccent(c) && !duplicate {
            colors := colors + [c];
          }
        }
      }
    }

    method ReadHyprlandAccents(fallbacks: seq<Color>)
      requires Valid() && Progress() == EMPTY
      modifies this
      ensures colors == FirstFive(Pad(Collected(cfg), fallbacks))
    {
      hide ScanFile, HasNear;
      ScanHyprFile(cfg.MainFile(), 0);
      var k := 0;
      assert fallbacks[0..] == fallbacks;
      while k < |fallbacks| && |colors| < SHOWN
        invariant k <= |fallbacks| && Pad(colors, fallbacks[k..]) == Pad(Collected(cfg), fallbacks)
      {
        assert fallbacks[k..][0] == fallbacks[k] && fallbacks[k..][1..] == fallbacks[k + 1..];
        var duplicate := IsDuplicateHue(fallbacks[k], colors);
        if !duplicate {
          colors := colors + [fallbacks[k]];
        }
        k := k + 1;
      }
      if |colors| > SHOWN {
        colors := colors[..SHOWN];
      }
    }
  }
}
