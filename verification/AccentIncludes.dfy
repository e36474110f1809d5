/** Which included files the accent scan visits, told from the configuration alone. */
module AccentIncludes {
  import opened AccentLines
  import opened Accents
  import opened ColorTokens
  import opened HueCircle
  import opened Sequences
  import opened Text

  function Scanned(cfg: Config): Scan { ScanFile(cfg, cfg.MainFile(), 0, EMPTY) }

  ghost predicate ListIsFull(cfg: Config) { |Scanned(cfg).colors| >= ENOUGH }

  /** Exactly the files the main file leads to are visited. */
  ghost predicate VisitsAll(cfg: Config) {
    forall p :: p in Scanned(cfg).entered <==> Reachable(cfg, p)
  }

  /** No chain of includes without repetition has more files than the depth limit allows. */
  ghost predicate IsShallow(cfg: Config) {
    forall chain :: IsChain(cfg, chain) && Unique(chain) ==> |chain| <= MAX_DEPTH + 1
  }

  /** No file is reached along two different chains without repetition. */
  ghost predicate IsTree(cfg: Config) {
    forall x, y :: IsChain(cfg, x) && Unique(x) && IsChain(cfg, y) && Unique(y) && x[|x| - 1] == y[|y| - 1] ==> x == y
  }

  /** A visited file is at most the depth limit of steps away from the main file, on some chain. */
  lemma VisitedIsNear(cfg: Config, p: string) returns (chain: seq<string>)
    requires p in Scanned(cfg).entered
    ensures IsChain(cfg, chain) && Unique(chain) && chain[|chain| - 1] == p && |chain| <= MAX_DEPTH + 1
  {
    hide ScanFile, IsChain;
    CollectionIsSound(cfg);
    assert HasRoute(cfg, Scanned(cfg).entered, p);
    chain :| IsRoute(cfg, Scanned(cfg).entered, chain, p);
  }

  /** A scan that turned an include away has followed a chain with one file too many. */
  lemma TurnedAwayIsDeep(cfg: Config) returns (chain: seq<string>)
    requires TurnedAway(cfg, Scanned(cfg))
    ensures IsChain(cfg, chain) && Unique(chain) && |chain| == MAX_DEPTH + 2
  {
    hide ScanFile, Includes;
    CollectionIsSound(cfg);
    var t := Scanned(cfg);
    var p, q :| p in t.entered && t.entered[p] == MAX_DEPTH && Includes(cfg, p, q) && q !in t.entered;
    assert HasRoute(cfg, t.entered, p);
    var route :| IsRoute(cfg, t.entered, route, p);
    chain := route + [q];
  }

  /** Enough for every configuration: when no include chain is longer than the limit, the scan visits everything the
      main file leads to or fills the list. */
  lemma ShallowVisitsAll(cfg: Config)
    requires IsShallow(cfg)
    ensures ListIsFull(cfg) || VisitsAll(cfg)
  {
    hide ScanFile, TurnedAway, IsChain, Unique;
    if TurnedAway(cfg, Scanned(cfg)) {
      var chain := TurnedAwayIsDeep(cfg);
      assert false;
    } else if !ListIsFull(cfg) {
      NoIncludeIsMissed(cfg);
    }
  }

  /** Needed for every configuration: what lies beyond the limit on all its chains is never visited. */
  lemma BeyondTheLimitIsMissed(cfg: Config, p: string)
    requires forall chain :: IsChain(cfg, chain) && Unique(chain) && chain[|chain| - 1] == p ==> |chain| > MAX_DEPTH + 1
    ensures p !in Scanned(cfg).entered
  {
    hide ScanFile, IsChain, Unique;
    if p in Scanned(cfg).entered {
      var chain := VisitedIsNear(cfg, p);
      assert false;
    }
  }

  /** When no file is included along two chains, that is exact: a chain longer than the limit loses its end, and
      without one the scan visits everything or fills the list. */
  lemma TreeVisitsAllIffShallow(cfg: Config)
    requires IsTree(cfg)
    ensures IsShallow(cfg) ==> ListIsFull(cfg) || VisitsAll(cfg)
    ensures VisitsAll(cfg) ==> IsShallow(cfg)
  {
    if IsShallow(cfg) {
      ShallowVisitsAll(cfg);
    }
    hide ScanFile, Includes;
    if VisitsAll(cfg) {
      forall chain | IsChain(cfg, chain) && Unique(chain) ensures |chain| <= MAX_DEPTH + 1 {
        var p := chain[|chain| - 1];
        assert Reachable(cfg, p);
        var short := VisitedIsNear(cfg, p);
        assert short == chain;
      }
    }
  }

  // ---------- Configurations that lose an include ----------

  const HYPR_DIR := "/.config/hypr"
  const MAIN := HYPR_DIR + "/hyprland.conf"

  function Path(k: nat): (p: string)
    requires k < 10
    ensures |p| == 2
  {
    "/" + [HexDigit(k)]
  }

  function SourceLine(k: nat): string
    requires k < 10
  {
    "source=/" + [HexDigit(k)]
  }

  function RedLine(): string { BorderLine([0]) }

  /** A main file with the given lines, six files each of which includes the next one, and a seventh that names a
      colour. */
  function NestedFiles(main: string, lines: seq<string>): map<string, seq<string>> {
    map[main := lines, Path(1) := [SourceLine(2)], Path(2) := [SourceLine(3)], Path(3) := [SourceLine(4)],
        Path(4) := [SourceLine(5)], Path(5) := [SourceLine(6)], Path(6) := [SourceLine(7)], Path(7) := [RedLine()]]
  }

  function Nested(lines: seq<string>): Config {
    Config("", NestedFiles(MAIN, lines), ColorOf)
  }

  lemma SourceIsRead(cfg: Config, k: nat)
    requires k < 10
    ensures ReadLine(cfg, SourceLine(k)) == Source(Path(k))
  {
    hide ReadLine;
    var digit := [HexDigit(k)];
    assert IsDigit(HexDigit(k));
    SourceLineIsRead(cfg, Path(k));
    PathsResolve(cfg, digit);
    assert SourceLine(k) == "source=" + Path(k);
  }

  lemma PathsDiffer(j: nat, k: nat)
    requires j < 10 && k < 10
    ensures Path(j) == Path(k) <==> j == k
    ensures Path(k) != MAIN
  {
    assert Path(j)[1] == HexDigit(j) && Path(k)[1] == HexDigit(k);
    assert |MAIN| > 2;
  }

  /** A file whose only line includes another one passes the scan on. */
  lemma Follows(cfg: Config, p: string, q: string, line: string, depth: nat, s: Scan)
    requires p in cfg.files && cfg.files[p] == [line] && ReadLine(cfg, line) == Source(q)
    requires depth <= MAX_DEPTH && p !in s.entered && |s.colors| < ENOUGH
    ensures ScanFile(cfg, p, depth, s) == ScanFile(cfg, q, depth + 1, s.(entered := s.entered[p := depth]))
  {
    hide ReadLine;
    var visited := s.(entered := s.entered[p := depth]);
    var next := ScanFile(cfg, q, depth + 1, visited);
    assert ScanLine(cfg, line, depth, visited) == next;
    assert ScanLines(cfg, [], depth, next) == next;
    assert [line][1..] == [];
  }

  lemma FilesOfNested(main: string, lines: seq<string>)
    requires |main| > 2
    ensures var files := NestedFiles(main, lines);
            main in files && files[main] == lines && (forall p :: p in files ==> p == main || |p| == 2)
  {
    hide SourceLine, RedLine;
  }

  lemma FileOfNested(main: string, lines: seq<string>, k: nat)
    requires |main| > 2 && 1 <= k <= 7
    ensures var files := NestedFiles(main, lines);
            Path(k) in files && files[Path(k)] == [if k == 7 then RedLine() else SourceLine(k + 1)]
  {
    hide Path, SourceLine, RedLine;
    forall j | 1 <= j <= 7 ensures Path(j) == Path(k) <==> j == k {
      PathsDiffer(j, k);
    }
  }

  lemma NestedFile(lines: seq<string>, k: nat)
    requires 1 <= k <= 7
    ensures Path(k) in Nested(lines).files
    ensures Nested(lines).files[Path(k)] == [if k == 7 then RedLine() else SourceLine(k + 1)]
  {
    hide Path, SourceLine, RedLine, NestedFiles;
    FileOfNested(MAIN, lines, k);
  }

  lemma NestedMain(lines: seq<string>)
    ensures Nested(lines).MainFile() == MAIN && MAIN in Nested(lines).files && Nested(lines).files[MAIN] == lines
  {
    hide Path, SourceLine, RedLine, NestedFiles;
    FilesOfNested(MAIN, lines);
    NoLuaFile(Nested(lines));
  }

  lemma NoLuaFile(cfg: Config)
    requires cfg.home == "" && forall p :: p in cfg.files ==> p == MAIN || |p| == 2
    ensures cfg.MainFile() == MAIN
  {
    assert cfg.HyprDir() == "" + HYPR_DIR == HYPR_DIR;
    var lua := HYPR_DIR + "/hyprland.lua";
    assert |lua| == |HYPR_DIR| + 13 && |MAIN| == |HYPR_DIR| + 14;
  }

  function Entered(k: nat): (m: map<string, nat>)
    requires k < 10
  {
    if k == 0 then map[MAIN := 0] else Entered(k - 1)[Path(k) := k]
  }

  lemma {:induction false} LaterIsNew(j: nat, k: nat)
    requires j < k < 10
    ensures Path(k) !in Entered(j)
  {
    PathsDiffer(j, k);
    if j == 0 {
    } else {
      LaterIsNew(j - 1, k);
    }
  }

  /** From the k-th file at depth k the scan gets to the sixth, and the depth guard stops it there. */
  lemma {:induction false} Descends(lines: seq<string>, k: nat)
    requires 1 <= k <= 7
    ensures ScanFile(Nested(lines), Path(k), k, Scan([], Entered(k - 1))) == Scan([], Entered(6))
    decreases 7 - k
  {
    hide Nested, ReadLine, SourceLine, Path;
    if k == 7 {
    } else {
      var cfg := Nested(lines);
      NestedFile(lines, k);
      SourceIsRead(cfg, k + 1);
      LaterIsNew(k - 1, k);
      Follows(cfg, Path(k), Path(k + 1), SourceLine(k + 1), k, Scan([], Entered(k - 1)));
      assert Entered(k) == Entered(k - 1)[Path(k) := k];
      Descends(lines, k + 1);
    }
  }

  lemma FirstLine(cfg: Config, line: string, rest: seq<string>, q: string, s: Scan)
    requires ReadLine(cfg, line) == Source(q) && |s.colors| < ENOUGH
    ensures ScanLines(cfg, [line] + rest, 0, s) == ScanLines(cfg, rest, 0, ScanFile(cfg, q, 1, s))
  {
    hide ReadLine, ScanFile;
    assert ([line] + rest)[1..] == rest;
    assert ScanLine(cfg, line, 0, s) == ScanFile(cfg, q, 1, s);
  }

  /** What the scan of a main file whose first line includes the first file has seen after that line. */
  lemma ScanStartsDeep(rest: seq<string>)
    ensures var cfg := Nested([SourceLine(1)] + rest);
            Scanned(cfg) == ScanLines(cfg, rest, 0, Scan([], Entered(6)))
  {
    hide ScanLines, Nested, ReadLine, SourceLine, Path;
    var lines := [SourceLine(1)] + rest;
    var cfg := Nested(lines);
    NestedMain(lines);
    SourceIsRead(cfg, 1);
    MainIsScanned(cfg, lines, Scan([], Entered(0)));
    FirstLine(cfg, SourceLine(1), rest, Path(1), Scan([], Entered(0)));
    Descends(lines, 1);
  }

  lemma SevenIncludes(lines: seq<string>)
    ensures Includes(Nested(lines), Path(6), Path(7))
  {
    hide ReadLine, Nested;
    NestedFile(lines, 6);
    SourceIsRead(Nested(lines), 7);
  }

  /** The seventh file names a colour. */
  lemma SeventhIsRed(lines: seq<string>)
    ensures NamedIn(Nested(lines), Path(7), HueColor(0))
    ensures ReadLine(Nested(lines), RedLine()) == Tokens(HueTokens([0]))
  {
    hide ReadLine, Nested, NamesAccent, CleanToken, Path, HueToken, BorderLine;
    var cfg := Nested(lines);
    NestedFile(lines, 7);
    BorderLineIsRead(cfg, [0]);
    assert cfg.colorOf == ColorOf by { DecodesTokens(lines); }
    HueTokenNamesAccent(cfg, 0);
    assert HueToken(0) == HueTokens([0])[0];
    assert NamedOn(cfg, RedLine(), HueColor(0));
  }

  lemma DecodesTokens(lines: seq<string>)
    ensures Nested(lines).colorOf == ColorOf
  {
    hide NestedFiles, ColorOf;
  }

  /** Eight files in a row: the last one is never visited, and its colour is lost although the list is empty. */
  lemma EighthFileIsLost()
    ensures var cfg := Nested([SourceLine(1)]);
            Reachable(cfg, Path(7)) && NamedIn(cfg, Path(7), HueColor(0)) &&
            Path(7) !in Scanned(cfg).entered && Collected(cfg) == []
  {
    hide Nested, ReadLine, SourceLine, Path, ScanFile, NamedIn;
    var cfg := Nested([SourceLine(1)]);
    assert [SourceLine(1)] + [] == [SourceLine(1)];
    ScanStartsDeep([]);
    LaterIsNew(6, 7);
    NestedMain([SourceLine(1)]);
    ReachesTo([SourceLine(1)], 7);
    SeventhIsRed([SourceLine(1)]);
  }

  lemma {:induction false} ReachesTo(lines: seq<string>, k: nat)
    requires lines != [] && lines[0] == SourceLine(1) && 1 <= k <= 7
    ensures Reachable(Nested(lines), Path(k))
  {
    hide Nested, ReadLine, SourceLine, Path;
    var cfg := Nested(lines);
    NestedMain(lines);
    SourceIsRead(cfg, k);
    if k == 1 {
      assert Includes(cfg, MAIN, Path(1));
      assert IsChain(cfg, [MAIN]);
      IncludedIsReachable(cfg, MAIN, Path(1));
    } else {
      ReachesTo(lines, k - 1);
      NestedFile(lines, k - 1);
      assert Includes(cfg, Path(k - 1), Path(k));
      IncludedIsReachable(cfg, Path(k - 1), Path(k));
    }
  }

  /** A file two includes away from the main file is lost too when a longer chain gets to the file before it first. */
  lemma ShortRouteIsLost()
    ensures var cfg := Nested([SourceLine(1), SourceLine(6)]);
            IsChain(cfg, [MAIN, Path(6), Path(7)]) && NamedIn(cfg, Path(7), HueColor(0)) &&
            Path(7) !in Scanned(cfg).entered && Collected(cfg) == []
  {
    hide Nested, ReadLine, SourceLine, Path, ScanLines, NamedIn, IsChain, HueColor;
    var lines := [SourceLine(1)] + [SourceLine(6)];
    assert lines == [SourceLine(1), SourceLine(6)];
    var cfg := Nested(lines);
    ScanStartsDeep([SourceLine(6)]);
    SixthIsVisited(cfg, Scan([], Entered(6)));
    LaterIsNew(6, 7);
    ShortChain(lines);
    SeventhIsRed(lines);
  }

  /** A line that includes the sixth file changes nothing once that file has been visited. */
  lemma SixthIsVisited(cfg: Config, s: Scan)
    requires Path(6) in s.entered && |s.colors| < ENOUGH
    ensures ScanLines(cfg, [SourceLine(6)], 0, s) == s
  {
    hide ReadLine, SourceLine, Path, ScanLines;
    SourceIsRead(cfg, 6);
    assert [SourceLine(6)] + [] == [SourceLine(6)];
    FirstLine(cfg, SourceLine(6), [], Path(6), s);
    NoMoreLines(cfg, s);
  }

  lemma ShortChain(lines: seq<string>)
    requires |lines| == 2 && lines[1] == SourceLine(6)
    ensures IsChain(Nested(lines), [MAIN, Path(6), Path(7)])
  {
    hide ReadLine, SourceLine, Path, Nested;
    var cfg := Nested(lines);
    NestedMain(lines);
    SourceIsRead(cfg, 6);
    SevenIncludes(lines);
    assert Includes(cfg, MAIN, Path(6));
  }

  lemma NoMoreLines(cfg: Config, s: Scan)
    ensures ScanLines(cfg, [], 0, s) == s
  {}

  /** With the two lines exchanged the colour is collected: the order of the includes decides. */
  lemma OrderDecides()
    ensures HueColor(0) in Collected(Nested([SourceLine(6), SourceLine(1)]))
  {
    hide Nested, ReadLine, SourceLine, Path, ScanLines, ScanFile, HueColor;
    var lines := [SourceLine(6)] + [SourceLine(1)];
    assert lines == [SourceLine(6), SourceLine(1)];
    var cfg := Nested(lines);
    var next := ShortRouteFirst(lines, [SourceLine(1)]);
    SourceIsRead(cfg, 1);
    assert [SourceLine(1)] + [] == [SourceLine(1)];
    FirstLine(cfg, SourceLine(1), [], Path(1), next);
    FileScanned(cfg, Path(1), 1, next);
    NoMoreLines(cfg, ScanFile(cfg, Path(1), 1, next));
    assert next.colors[0] == HueColor(0) && Collected(cfg) == Scanned(cfg).colors;
  }

  /** What the scan has seen after a first line that includes the sixth file. */
  lemma ShortRouteFirst(lines: seq<string>, rest: seq<string>) returns (next: Scan)
    requires lines == [SourceLine(6)] + rest
    ensures next.colors == [HueColor(0)] && Scanned(Nested(lines)) == ScanLines(Nested(lines), rest, 0, next)
  {
    hide Nested, ReadLine, SourceLine, Path, ScanLines, ScanFile, HueColor;
    var cfg, start := Nested(lines), Scan([], Entered(0));
    NestedMain(lines);
    SourceIsRead(cfg, 6);
    SourceIsRead(cfg, 7);
    NestedFile(lines, 6);
    LaterIsNew(0, 6);
    MainIsScanned(cfg, lines, start);
    FirstLine(cfg, SourceLine(6), rest, Path(6), start);
    Follows(cfg, Path(6), Path(7), SourceLine(7), 1, start);
    var visited := start.(entered := start.entered[Path(6) := 1]);
    next := ScanFile(cfg, Path(7), 2, visited);
    LaterIsNew(0, 7);
    PathsDiffer(6, 7);
    SeventhIsScanned(lines, visited);
  }

  lemma SeventhIsScanned(lines: seq<string>, s: Scan)
    requires s.colors == [] && Path(7) !in s.entered
    ensures ScanFile(Nested(lines), Path(7), 2, s).colors == [HueColor(0)]
  {
    hide Nested, ReadLine, Path, HueToken, HueColor, NamesAccent, CleanToken, RedLine, ScanLines, OfferAll;
    var cfg, words := Nested(lines), HueTokens([0]);
    NestedFile(lines, 7);
    SeventhIsRed(lines);
    DecodesTokens(lines);
    HueTokenNamesAccent(cfg, 0);
    OnlyOffer(cfg, HueToken(0));
    assert words == [HueToken(0)];
    OnlyLine(cfg, RedLine(), words, 2, s.(entered := s.entered[Path(7) := 2]));
  }

  lemma OnlyOffer(cfg: Config, word: string)
    requires NamesAccent(cfg, word)
    ensures OfferAll(cfg, [], [word]) == [cfg.colorOf(CleanToken(word))]
  {
    hide NamesAccent, CleanToken;
    assert [word][1..] == [];
  }

  /** A file with a single colour line offers the words of that line. */
  lemma OnlyLine(cfg: Config, line: string, words: seq<string>, depth: nat, s: Scan)
    requires ReadLine(cfg, line) == Tokens(words) && |s.colors| < ENOUGH && depth <= MAX_DEPTH
    ensures ScanLines(cfg, [line], depth, s).colors == OfferAll(cfg, s.colors, words)
  {
    hide ReadLine, OfferAll;
    var next := s.(colors := OfferAll(cfg, s.colors, words));
    assert ScanLine(cfg, line, depth, s) == next;
    assert ScanLines(cfg, [], depth, next) == next;
    assert [line][1..] == [];
  }

  lemma MainIsScanned(cfg: Config, lines: seq<string>, start: Scan)
    requires cfg.MainFile() == MAIN && MAIN in cfg.files && cfg.files[MAIN] == lines && start == Scan([], Entered(0))
    ensures Scanned(cfg) == ScanLines(cfg, lines, 0, start)
  {
    hide ScanLines;
    assert EMPTY.entered[MAIN := 0] == Entered(0);
  }
}
