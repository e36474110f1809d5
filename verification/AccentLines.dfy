/** Configuration lines made to order: a border line that names one colour for each of the given hues. */
module AccentLines {
  import opened Accents
  import opened ColorTokens
  import opened HueCircle
  import opened Text

  function TokenText(hues: seq<Hue>): string {
    if hues == [] then "" else " " + HueToken(hues[0]) + TokenText(hues[1..])
  }

  function HueTokens(hues: seq<Hue>): (ts: seq<string>)
    ensures |ts| == |hues| && forall k :: 0 <= k < |ts| ==> ts[k] == HueToken(hues[k])
  {
    seq(|hues|, k requires 0 <= k < |hues| => HueToken(hues[k]))
  }

  /** As in col.active_border = rgba(f00000ff) rgba(b4f000ff). */
  function BorderLine(hues: seq<Hue>): string { "col.active_border =" + TokenText(hues) }

  lemma {:induction false} TokenTextLooks(hues: seq<Hue>)
    requires hues != []
    ensures var t := TokenText(hues);
            t != "" && t[0] == ' ' && t[|t| - 1] == ')' && forall c :: c in t ==> c == ' ' || IsTokenChar(c)
  {
    hide HueToken;
    var token, rest := HueToken(hues[0]), TokenText(hues[1..]);
    HueTokenLooks(hues[0]);
    assert TokenText(hues) == " " + token + rest;
    if |hues| == 1 {
      assert rest == "";
    } else {
      TokenTextLooks(hues[1..]);
    }
  }

  lemma HueTokenLooks(h: Hue)
    ensures var t := HueToken(h); "rgba" <= t && t[13] == ')' && Lower(t) == t && forall c :: c in t ==> IsTokenChar(c)
  {
    hide ColorToken, Wheel;
    TokenLooks(Wheel(h));
    assert HueToken(h)[..4] == HueToken(h)[..5][..4];
  }

  /** A blank, a word, and the next blank or the end. */
  lemma FirstWord(word: string, rest: string)
    requires word != "" && ' ' !in word && (rest == "" || rest[0] == ' ')
    ensures Words(" " + word + rest) == [word] + Words(rest)
  {
    hide IndexOf;
    var s, t := " " + word + rest, word + rest;
    assert s[1..] == t;
    var k := IndexOf(t, ' ');
    assert forall i :: 0 <= i < |word| ==> t[i] == word[i];
    assert rest != "" ==> t[|word|] == ' ';
    assert k == |word| && t[..k] == word && t[k..] == rest;
  }

  lemma NoWords()
    ensures Words("") == []
  {}

  lemma {:induction false} WordsOfTokens(hues: seq<Hue>)
    ensures Words(TokenText(hues)) == HueTokens(hues)
  {
    hide Words, HueToken;
    if hues == [] {
      NoWords();
    } else {
      var rest := hues[1..];
      HueTokenLooks(hues[0]);
      if rest != [] { TokenTextLooks(rest); }
      FirstWord(HueToken(hues[0]), TokenText(rest));
      WordsOfTokens(rest);
      assert HueTokens(hues) == [HueToken(hues[0])] + HueTokens(rest);
    }
  }

  lemma ContainedLetter(s: string, t: string, i: nat)
    requires i < |t| && Contains(s, t)
    ensures t[i] in s
  {
    var k :| 0 <= k <= |s| && t <= s[k..];
    assert t[i] == s[k + i];
  }

  lemma ForeignText(s: string, t: string, i: nat)
    requires i < |t| && t[i] !in s
    ensures !Contains(s, t)
  {
    hide Contains;
    if Contains(s, t) { ContainedLetter(s, t, i); }
  }

  /** An underscore is always followed by the letter b. */
  predicate BarThenB(s: string) {
    forall k :: 0 <= k < |s| - 1 && s[k] == '_' ==> s[k + 1] == 'b'
  }

  lemma ContainedPair(s: string, t: string, i: nat) returns (k: nat)
    requires i + 1 < |t| && Contains(s, t)
    ensures k + 1 < |s| && s[k] == t[i] && s[k + 1] == t[i + 1]
  {
    var at :| 0 <= at <= |s| && t <= s[at..];
    k := at + i;
  }

  lemma NoBarColor(s: string)
    requires BarThenB(s)
    ensures !Contains(s, "bar_color")
  {
    hide Contains;
    if Contains(s, "bar_color") {
      var k := ContainedPair(s, "bar_color", 3);
    }
  }

  lemma IsNotSkipped(line: string)
    requires 'n' !in line && 'x' !in line && 's' !in line && BarThenB(line)
    ensures !IsSkippedColorLine(line)
  {
    hide Contains;
    ForeignText(line, "inactive_border", 1);
    ForeignText(line, "background_color", 8);
    NoBarColor(line);
    ForeignText(line, "col.text", 6);
    ForeignText(line, "bar_text", 6);
    ForeignText(line, "shadow_color", 0);
  }

  lemma BorderLineLooks(hues: seq<Hue>)
    requires hues != []
    ensures var line := BorderLine(hues);
            |line| > 19 && line[0] == 'c' && Trimmed(line) == line && line[19..] == TokenText(hues) &&
            IndexOf(line, '=') == 18 && Contains(line, "col.")
  {
    hide TokenText, Trimmed, IndexOf;
    var line, text := BorderLine(hues), TokenText(hues);
    TokenTextLooks(hues);
    assert line[|line| - 1] == text[|text| - 1];
    TrimKeepsTight(line);
    assert line[18] == '=' && forall k :: 0 <= k < 18 ==> line[k] != '=';
    assert line[0..] == line && "col." <= line;
  }

  lemma BarThenBJoins(key: string, text: string)
    requires BarThenB(key) && key != "" && key[|key| - 1] != '_' && '_' !in text
    ensures BarThenB(key + text)
  {
    var s := key + text;
    assert forall k :: 0 <= k < |text| ==> s[|key| + k] == text[k];
    assert forall k :: |key| <= k < |s| ==> s[k] == text[k - |key|];
  }

  lemma KeyLetters()
    ensures var key := "col.active_border ="; 'n' !in key && 'x' !in key && 's' !in key
  {}

  lemma KeyBar()
    ensures BarThenB("col.active_border =")
  {
    var key := "col.active_border =";
    assert key[11] == 'b' && forall k :: 0 <= k < |key| && key[k] == '_' ==> k == 10;
  }

  lemma BorderLineLetters(hues: seq<Hue>)
    requires hues != []
    ensures var line := BorderLine(hues); 'n' !in line && 'x' !in line && 's' !in line && BarThenB(line)
  {
    TokenTextLooks(hues);
    hide TokenText, BarThenB;
    KeyLetters();
    KeyBar();
    BarThenBJoins("col.active_border =", TokenText(hues));
  }

  lemma ReadsColors(cfg: Config, line: string)
    requires Trimmed(line) == line && |line| > 19 && line[0] == 'c' && IndexOf(line, '=') == 18
    requires Contains(line, "col.") && !IsSkippedColorLine(line)
    ensures ReadLine(cfg, line) == Tokens(Words(line[19..]))
  {
    hide Trimmed, Words, IndexOf, Contains, IsSkippedColorLine;
  }

  /** The scanner splits a border line into its colour tokens. */
  lemma BorderLineIsRead(cfg: Config, hues: seq<Hue>)
    requires hues != []
    ensures ReadLine(cfg, BorderLine(hues)) == Tokens(HueTokens(hues))
  {
    hide ReadLine, TokenText, BorderLine, HueTokens, Trimmed, Words, IndexOf, Contains, IsSkippedColorLine;
    BorderLineLooks(hues);
    BorderLineLetters(hues);
    IsNotSkipped(BorderLine(hues));
    ReadsColors(cfg, BorderLine(hues));
    WordsOfTokens(hues);
  }

  lemma {:induction false} WithoutAbsent(s: string, c: char)
    requires c !in s
    ensures Without(s, c) == s
  {
    if s == "" {
    } else {
      WithoutAbsent(s[1..], c);
      assert s == [s[0]] + s[1..];
    }
  }

  // ---------- Other lines ----------

  /** An include line, with or without quotes around the path, names the path behind the key. */
  lemma SourceLineIsRead(cfg: Config, path: string)
    requires path != "" && '"' !in path && !IsSpace(path[0]) && !IsSpace(path[|path| - 1])
    ensures ReadLine(cfg, "source=" + path) == Source(cfg.Resolve(path))
    ensures ReadLine(cfg, "source=\"" + path + "\"") == Source(cfg.Resolve(path))
  {
    hide Without, IsColorLine, IsSkippedColorLine, Trimmed;
    WithoutAbsent(path, '"');
    var plain, quoted := "source=" + path, "source=\"" + path + "\"";
    TrimKeepsTight(plain);
    TrimKeepsTight(path);
    assert plain[..7] == "source=" && plain[7..] == path;
    TrimKeepsTight(quoted);
    TrimKeepsTight("\"" + path + "\"");
    assert quoted[..7] == "source=" && quoted[7..] == "\"" + path + "\"";
    QuotesGo(path);
  }

  lemma QuotesGo(path: string)
    requires '"' !in path
    ensures Without("\"" + path + "\"", '"') == path
  {
    var s := "\"" + path + "\"";
    assert s[1..] == path + "\"";
    WithoutAppends(path, "\"", '"');
    WithoutAbsent(path, '"');
    assert Without("\"", '"') == "" by { assert "\""[1..] == ""; }
  }

  lemma {:induction false} WithoutAppends(a: string, b: string, c: char)
    ensures Without(a + b, c) == Without(a, c) + Without(b, c)
  {
    if a == "" {
      assert a + b == b;
    } else {
      WithoutAppends(a[1..], b, c);
      assert (a + b)[1..] == a[1..] + b && (a + b)[0] == a[0];
      var rest, others := Without(a[1..], c), Without(b, c);
      assert [a[0]] + (rest + others) == [a[0]] + rest + others;
      assert "" + (rest + others) == "" + rest + others;
    }
  }

  /** Where an included path leads: below the home directory, to itself, or below the configuration directory. */
  lemma PathsResolve(cfg: Config, rest: string)
    ensures cfg.Resolve("~" + rest) == cfg.home + rest
    ensures cfg.Resolve("/" + rest) == "/" + rest
    ensures rest != "" && rest[0] != '~' && rest[0] != '/' ==> cfg.Resolve(rest) == cfg.home + "/.config/hypr/" + rest
  {
    assert ("~" + rest)[1..] == rest;
    assert "/.config/hypr" + "/" == "/.config/hypr/";
    assert (cfg.home + "/.config/hypr") + "/" == cfg.home + ("/.config/hypr" + "/");
    assert ("/" + rest)[0] == '/' && ("~" + rest)[0] == '~';
  }

  /** The Lua configuration is read when there is one, the older format otherwise. */
  lemma LuaComesFirst(cfg: Config)
    ensures cfg.MainFile() == cfg.home + "/.config/hypr" +
              if cfg.home + "/.config/hypr" + "/hyprland.lua" in cfg.files then "/hyprland.lua" else "/hyprland.conf"
  {}

  /** Every other line offers the words behind its first equals sign, or all of its words when it has none. */
  lemma ColorLinesOfferWords(cfg: Config, line: string)
    requires Trimmed(line) == line && !("source=" <= line) && !("#" <= line) && !("--" <= line)
    requires Contains(line, "col.") || Contains(line, "border_color") || Contains(line, "active_border")
    requires !Contains(line, "inactive_border") && !Contains(line, "background_color") && !Contains(line, "bar_color")
    requires !Contains(line, "col.text") && !Contains(line, "bar_text") && !Contains(line, "shadow_color")
    ensures ReadLine(cfg, line).Tokens?
    ensures '=' !in line ==> ReadLine(cfg, line).words == Words(line)
    ensures forall key, value :: line == key + "=" + value && '=' !in key ==> ReadLine(cfg, line).words == Words(value)
  {
    hide Trimmed, Contains, Words, IndexOf;
    forall key, value | line == key + "=" + value && '=' !in key ensures ReadLine(cfg, line).words == Words(value) {
      assert line[|key|] == '=' && forall k :: 0 <= k < |key| ==> line[k] == key[k];
      assert IndexOf(line, '=') == |key| && line[|key| + 1..] == value;
    }
  }

  /** Comments, lines about other colours and lines without a colour key offer nothing. */
  lemma OtherLinesOfferNothing(cfg: Config, line: string)
    requires Trimmed(line) == line && !("source=" <= line)
    requires "#" <= line || "--" <= line ||
             Contains(line, "inactive_border") || Contains(line, "background_color") || Contains(line, "bar_color") ||
             Contains(line, "col.text") || Contains(line, "bar_text") || Contains(line, "shadow_color") ||
             !(Contains(line, "col.") || Contains(line, "border_color") || Contains(line, "active_border"))
    ensures ReadLine(cfg, line) == Other
  {
    hide Trimmed, Contains, Words;
  }

  function HueColor(h: Hue): Color { Hsv(true, 255, h, 255, 240) }

  /** Each of the tokens names an accent of its hue. */
  lemma HueTokenNamesAccent(cfg: Config, h: Hue)
    requires cfg.colorOf == ColorOf
    ensures var t := HueToken(h); NamesAccent(cfg, t) && CleanToken(t) == t && cfg.colorOf(t) == HueColor(h)
  {
    hide Without, HueToken, ColorOf, Lower;
    var t := HueToken(h);
    HueTokenLooks(h);
    HueTokenIsAccent(h);
    WithoutAbsent(t, '"');
    WithoutAbsent(t, '\'');
    WithoutAbsent(t, ',');
  }
}
