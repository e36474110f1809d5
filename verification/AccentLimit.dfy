/** How many accents a scan can collect: when ten is really the limit, and a configuration that gets fourteen. */
module AccentLimit {
  import opened AccentIncludes
  import opened AccentLines
  import opened Accents
  import opened ColorTokens
  import opened HueCircle

  /** The accent colours the words name, in order. */
  function AccentsOf(cfg: Config, words: seq<string>): (r: seq<Color>)
    ensures AllInteresting(r)
  {
    if words == [] then []
    else (if NamesAccent(cfg, words[0]) then [cfg.colorOf(CleanToken(words[0]))] else []) + AccentsOf(cfg, words[1..])
  }

  lemma {:induction false} OfferingIsTaking(cfg: Config, colors: seq<Color>, words: seq<string>)
    ensures OfferAll(cfg, colors, words) == TakeAll(colors, AccentsOf(cfg, words))
    decreases |words|
  {
    hide HasNear, IsColorToken, CleanToken, IsInterestingAccent;
    if words == [] {
    } else {
      OfferingIsTaking(cfg, Offer(cfg, colors, words[0]), words[1..]);
      var rest := AccentsOf(cfg, words[1..]);
      assert [] + rest == rest;
      assert forall c: Color :: ([c] + rest)[1..] == rest;
    }
  }

  /** A line keeps every list shorter than ten within ten if and only if all accents it names share the hue of the
      first one. */
  lemma LineKeepsLimitIffOneHue(cfg: Config, words: seq<string>)
    ensures (forall list :: Spaced(list) && AllInteresting(list) && |list| < ENOUGH ==>
               |OfferAll(cfg, list, words)| <= ENOUGH)
            <==> OneHue(AccentsOf(cfg, words))
  {
    hide OfferAll, TakeAll, AccentsOf, Spaced, AllInteresting, OneHue;
    forall list ensures OfferAll(cfg, list, words) == TakeAll(list, AccentsOf(cfg, words)) {
      OfferingIsTaking(cfg, list, words);
    }
    LimitHoldsIffOneHue(AccentsOf(cfg, words));
  }

  /** Every colour line of every file names accents of one hue only. */
  ghost predicate LinesOfOneHue(cfg: Config) {
    forall p, line :: p in cfg.files && line in cfg.files[p] && ReadLine(cfg, line).Tokens? ==>
      OneHue(AccentsOf(cfg, ReadLine(cfg, line).words))
  }

  lemma {:induction false} FileKeepsLimit(cfg: Config, path: string, depth: nat, s: Scan)
    requires LinesOfOneHue(cfg) && |s.colors| <= ENOUGH
    ensures |ScanFile(cfg, path, depth, s).colors| <= ENOUGH
    decreases MAX_DEPTH + 1 - depth
  {
    hide LinesOfOneHue, ScanLines;
    if depth <= MAX_DEPTH && path !in s.entered && path in cfg.files {
      LinesKeepLimit(cfg, path, cfg.files[path], depth, s.(entered := s.entered[path := depth]));
    }
  }

  lemma {:induction false} LinesKeepLimit(cfg: Config, path: string, lines: seq<string>, depth: nat, s: Scan)
    requires LinesOfOneHue(cfg) && |s.colors| <= ENOUGH && depth <= MAX_DEPTH && path in cfg.files
    requires forall line :: line in lines ==> line in cfg.files[path]
    ensures |ScanLines(cfg, lines, depth, s).colors| <= ENOUGH
    decreases MAX_DEPTH + 1 - depth, |lines|
  {
    hide LinesOfOneHue, ScanFile, ReadLine, OfferAll;
    if lines == [] || |s.colors| >= ENOUGH {
    } else {
      var line := lines[0];
      assert line in cfg.files[path];
      match ReadLine(cfg, line) {
        case Source(included) => FileKeepsLimit(cfg, included, depth + 1, s);
        case Tokens(words) => LineKeepsLimit(cfg, path, line, s.colors);
        case Other =>
      }
      LinesKeepLimit(cfg, path, lines[1..], depth, ScanLine(cfg, line, depth, s));
    }
  }

  lemma LineKeepsLimit(cfg: Config, path: string, line: string, colors: seq<Color>)
    requires LinesOfOneHue(cfg) && path in cfg.files && line in cfg.files[path] && ReadLine(cfg, line).Tokens?
    ensures |OfferAll(cfg, colors, ReadLine(cfg, line).words)| <= |colors| + 1
  {
    hide ReadLine, OfferAll, AccentsOf, OneHue;
    var words := ReadLine(cfg, line).words;
    OfferingIsTaking(cfg, colors, words);
    OneHueGrowsByOne(colors, AccentsOf(cfg, words));
  }

  /** With one hue a line, the list does stay within ten. */
  lemma TenIsTheLimit(cfg: Config)
    requires LinesOfOneHue(cfg)
    ensures |Collected(cfg)| <= ENOUGH
  {
    hide LinesOfOneHue, ScanFile;
    FileKeepsLimit(cfg, cfg.MainFile(), 0, EMPTY);
  }

  // ---------- A configuration that collects fourteen ----------

  /** Fourteen hues, each 25 degrees from the one before. */
  function FourteenHues(): seq<Hue> { seq(14, k requires 0 <= k < 14 => 25 * k) }

  /** One file with one border line, and the tokens decoded as the scanner decodes them. */
  function Colorful(): Config {
    Config("", map[MAIN := [BorderLine(FourteenHues())]], ColorOf)
  }

  /** Fourteen colours from one line of a single file. */
  lemma FourteenAreCollected()
    ensures |Collected(Colorful())| == 14
  {
    hide ReadLine, BorderLine, OfferAll, ColorOf, NamesAccent, CleanToken, HueToken;
    var cfg, hues := Colorful(), FourteenHues();
    var words := HueTokens(hues);
    NoLuaFile(cfg);
    MainIsScanned(cfg, [BorderLine(hues)], Scan([], Entered(0)));
    BorderLineIsRead(cfg, hues);
    forall k | 0 <= k < 14
      ensures NamesAccent(cfg, words[k]) && cfg.colorOf(CleanToken(words[k])).hue == 25 * k
    {
      HueTokenNamesAccent(cfg, hues[k]);
    }
    FourteenIsReached(cfg, words);
    OnlyLine(cfg, BorderLine(hues), words, 0, Scan([], Entered(0)));
  }
}
