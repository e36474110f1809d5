/** The rule store of the ad blocker and its verdicts. */
module AdBlocking {
  import opened FilterPatterns
  import opened Text

  datatype RuleKind = DomainExact | DomainSuffix | UrlPattern | Exception

  /** regex is the text of the compiled expression, meaningful for patterns and exceptions. */
  datatype FilterRule = FilterRule(kind: RuleKind, pattern: string, regex: string, thirdPartyOnly: bool)

  /** A request URL: its scheme, its host as the URL library reports it, and its full text. */
  datatype Url = Url(scheme: string, host: string, text: string)

  // ---------- Rules ----------

  /** The pattern in front of the last dollar sign. */
  function BodyOf(text: string): string {
    var dollar := LastIndexOf(text, '$');
    if dollar >= 0 then text[..dollar] else text
  }

  /** The options behind the last dollar sign, in lower case. */
  function OptionsOf(text: string): string {
    var dollar := LastIndexOf(text, '$');
    if dollar >= 0 then Lower(text[dollar + 1..]) else ""
  }

  /** Two bars, a name without star and slash, and a caret. */
  predicate IsDomainForm(body: string) {
    |body| >= 3 && "||" <= body && body[|body| - 1] == '^' && '*' !in body && '/' !in body
  }

  function ParseRule(line: string): FilterRule {
    var text := Trimmed(line);
    if "@@" <= text then FilterRule(Exception, "", RegexText(text[2..]), false)
    else
      var body, thirdParty := BodyOf(text), Contains(OptionsOf(text), "third-party");
      if IsDomainForm(body) then FilterRule(DomainSuffix, Lower(body[2..|body| - 1]), "", thirdParty)
      else FilterRule(UrlPattern, "", RegexText(body), thirdParty)
  }

  /** The exact-domain set is never filled by parsing. */
  lemma NoExactDomainRules(line: string)
    ensures ParseRule(line).kind != DomainExact
  {}

  /** The rule lists at one moment. */
  datatype Rules = Rules(
    domains: set<string>,
    baseDomains: set<string>,
    block: seq<FilterRule>,
    exceptions: seq<FilterRule>)

  function WithRule(r: Rules, rule: FilterRule): Rules {
    match rule.kind
    case Exception => r.(exceptions := r.exceptions + [rule])
    case DomainExact => r.(domains := r.domains + {rule.pattern})
    case DomainSuffix => r.(baseDomains := r.baseDomains + {rule.pattern})
    case UrlPattern => r.(block := r.block + [rule])
  }

  // ---------- Verdicts, declaratively ----------

  /** domain is host itself, or what remains of host after one of its dots. */
  predicate IsSuffixDomain(domain: string, host: string) {
    host == domain || EndsWith(host, "." + domain)
  }

  predicate HostListed(r: Rules, host: string) {
    host in r.domains || exists k :: 0 <= k <= |host| && (k == 0 || host[k - 1] == '.') && host[k..] in r.baseDomains
  }

  /** The last two labels of a host. */
  function BaseDomain(host: string): string {
    var last := LastIndexOf(host, '.');
    if last < 0 then host
    else host[LastIndexOf(host[..last], '.') + 1..]
  }

  // ---------- Labels of a host ----------

  /** The parts between the dots; a host without dots is one part. */
  function Labels(host: string): (labels: seq<string>)
    ensures |labels| > 0
    decreases |host|
  {
    var last := LastIndexOf(host, '.');
    if last < 0 then [host] else Labels(host[..last]) + [host[last + 1..]]
  }

  function Dotted(labels: seq<string>): string
    requires |labels| > 0
  {
    if |labels| == 1 then labels[0] else Dotted(labels[..|labels| - 1]) + "." + labels[|labels| - 1]
  }

  /** Nothing is lost by splitting, and no label contains a dot. */
  lemma {:induction false} LabelsRejoin(host: string)
    ensures Dotted(Labels(host)) == host
    ensures forall k :: 0 <= k < |Labels(host)| ==> '.' !in Labels(host)[k]
    decreases |host|
  {
    hide LastIndexOf;
    var last := LastIndexOf(host, '.');
    if last >= 0 {
      LabelsRejoin(host[..last]);
      var front := Labels(host[..last]);
      assert (front + [host[last + 1..]])[..|front|] == front;
      assert host == host[..last] + "." + host[last + 1..];
    }
  }

  lemma LastLabels(host: string)
    ensures var last := LastIndexOf(host, '.');
            if last < 0 then Labels(host) == [host]
            else Labels(host) == Labels(host[..last]) + [host[last + 1..]]
  {
    hide LastIndexOf;
  }

  lemma BaseDomainSteps(host: string)
    ensures var last := LastIndexOf(host, '.');
            BaseDomain(host) == if last < 0 then host else host[LastIndexOf(host[..last], '.') + 1..]
  {
    hide LastIndexOf;
  }

  /** The base domain is made of the last two labels, or is the host when there is only one. */
  lemma BaseDomainIsLastTwo(host: string)
    ensures var labels, n := Labels(host), |Labels(host)|;
            BaseDomain(host) == if n == 1 then host else labels[n - 2] + "." + labels[n - 1]
  {
    hide LastIndexOf, Labels, BaseDomain;
    LastLabels(host);
    BaseDomainSteps(host);
    var last := LastIndexOf(host, '.');
    if last >= 0 {
      var front, tail := host[..last], host[last + 1..];
      var labels, earlier := Labels(host), Labels(front);
      LabelsEnd(front);
      JoinedAtDot(host, last, LastIndexOf(front, '.') + 1);
      assert |labels| == |earlier| + 1 && labels[|labels| - 2] == earlier[|earlier| - 1];
      assert labels[|labels| - 1] == tail;
    }
  }

  lemma LabelsEnd(front: string)
    ensures var labels := Labels(front); labels[|labels| - 1] == front[LastIndexOf(front, '.') + 1..]
  {
    hide LastIndexOf, Labels;
    LastLabels(front);
  }

  lemma JoinedAtDot(host: string, dot: nat, from: nat)
    requires from <= dot < |host| && host[dot] == '.'
    ensures host[from..] == host[..dot][from..] + "." + host[dot + 1..]
  {}

  lemma DotSplits(a: string, b: string, c: string, d: string)
    requires '.' !in a && '.' !in b && '.' !in c && '.' !in d && a + "." + b == c + "." + d
    ensures a == c && b == d
  {
    var s := a + "." + b;
    assert s[|a|] == '.' && (c + "." + d)[|c|] == '.';
    assert forall k :: 0 <= k < |a| ==> s[k] == a[k];
    assert forall k :: 0 <= k < |c| ==> (c + "." + d)[k] == c[k];
    assert |a| == |c|;
    assert s[..|a|] == a && s[|a| + 1..] == b && (c + "." + d)[..|c|] == c && (c + "." + d)[|c| + 1..] == d;
  }

  /** Hosts with at least two labels have the same base domain if and only if their last two labels agree. */
  lemma SameBaseDomain(host: string, other: string)
    requires |Labels(host)| > 1 && |Labels(other)| > 1
    ensures var x, y := Labels(host), Labels(other);
            BaseDomain(host) == BaseDomain(other) <==>
            x[|x| - 1] == y[|y| - 1] && x[|x| - 2] == y[|y| - 2]
  {
    hide Labels, BaseDomain;
    BaseDomainIsLastTwo(host);
    BaseDomainIsLastTwo(other);
    LabelsRejoin(host);
    LabelsRejoin(other);
    var x, y := Labels(host), Labels(other);
    if BaseDomain(host) == BaseDomain(other) {
      DotSplits(x[|x| - 2], x[|x| - 1], y[|y| - 2], y[|y| - 1]);
    }
  }

  function Host(u: Url): string { Trimmed(Lower(u.host)) }

  predicate IsThirdParty(u: Url, firstParty: Url) {
    Host(firstParty) != "" && BaseDomain(Host(u)) != BaseDomain(Host(firstParty))
  }

  predicate PatternListed(rules: seq<FilterRule>, u: Url, thirdParty: bool) {
    exists k :: 0 <= k < |rules| && rules[k].kind == UrlPattern && (rules[k].thirdPartyOnly ==> thirdParty) &&
      RegexHits(rules[k].regex, u.text)
  }

  predicate Blocked(r: Rules, u: Url, firstParty: Url) {
    Host(u) != "" && (HostListed(r, Host(u)) || PatternListed(r.block, u, IsThirdParty(u, firstParty)))
  }

  predicate Whitelisted(r: Rules, u: Url) {
    exists k :: 0 <= k < |r.exceptions| && RegexHits(r.exceptions[k].regex, u.text)
  }

  const BYPASS := {"qrc", "data", "file"}

  predicate OnVideoSite(host: string) {
    EndsWith(host, "youtube.com") || EndsWith(host, "youtu.be") || EndsWith(host, "googlevideo.com")
  }

  /** Whether a request is stopped when blocking is enabled. */
  predicate Stopped(r: Rules, u: Url, firstParty: Url) {
    u.scheme !in BYPASS &&
    if OnVideoSite(Lower(firstParty.host)) then Lower(u.host) == "ad.youtube.com" || Lower(u.host) == "ads.youtube.com"
    else !Whitelisted(r, u) && Blocked(r, u, firstParty)
  }

  // ---------- What one more rule changes ----------

  lemma SuffixesAreCuts(domain: string, host: string)
    ensures IsSuffixDomain(domain, host) <==>
            exists k :: 0 <= k <= |host| && (k == 0 || host[k - 1] == '.') && host[k..] == domain
  {
    if host == domain {
      assert host[0..] == domain;
    } else if EndsWith(host, "." + domain) {
      var k := |host| - |domain|;
      assert host[k - 1..] == "." + domain;
      assert host[k - 1] == ("." + domain)[0] && host[k..] == ("." + domain)[1..] == domain;
    }
    if k :| 0 <= k <= |host| && (k == 0 || host[k - 1] == '.') && host[k..] == domain {
      if k > 0 {
        assert host[k - 1..] == [host[k - 1]] + host[k..];
      }
    }
  }

  predicate PlainDomain(d: string) {
    '$' !in d && '*' !in d && '/' !in d
  }

  /** A name between two bars and a caret is in domain form, without options. */
  lemma DomainFormHolds(d: string)
    requires PlainDomain(d)
    ensures var t := "||" + d + "^";
            IsDomainForm(t) && Trimmed(t) == t && BodyOf(t) == t && OptionsOf(t) == "" && t[2..|t| - 1] == d
  {
    hide LastIndexOf, Trimmed;
    var t := "||" + d + "^";
    assert t[0] == '|' && t[|t| - 1] == '^' && t[1] == '|';
    TrimKeepsTight(t);
    assert forall k :: 0 <= k < |t| ==> t[k] == '|' || t[k] == '^' || t[k] in d;
    assert '$' !in t && '*' !in t && '/' !in t;
  }

  lemma DomainRuleParses(d: string)
    requires PlainDomain(d)
    ensures ParseRule("||" + d + "^") == FilterRule(DomainSuffix, Lower(d), "", false)
  {
    hide IsDomainForm, Trimmed, BodyOf, OptionsOf, Contains, RegexText;
    DomainFormHolds(d);
    assert !Contains("", "third-party") by { NothingContained("third-party"); }
    var t := "||" + d + "^";
    assert t[0] == '|' && !("@@" <= t);
  }

  lemma NothingContained(t: string)
    requires t != ""
    ensures !Contains("", t)
  {}

  /** A domain rule newly blocks exactly the hosts equal to the domain or ending in a dot and the domain. */
  lemma DomainRuleBlocksExactly(r: Rules, d: string, u: Url, firstParty: Url)
    requires PlainDomain(d)
    ensures Blocked(WithRule(r, ParseRule("||" + d + "^")), u, firstParty) <==>
            Blocked(r, u, firstParty) || (Host(u) != "" && IsSuffixDomain(Lower(d), Host(u)))
  {
    hide ParseRule, Host, Lower, RegexHits, PatternListed, BaseDomain, IsThirdParty, IsSuffixDomain;
    DomainRuleParses(d);
    SuffixesAreCuts(Lower(d), Host(u));
  }

  lemma LastIs(s: string, c: char, i: nat)
    requires i < |s| && s[i] == c && forall k :: i < k < |s| ==> s[k] != c
    ensures LastIndexOf(s, c) == i
  {
    hide LastIndexOf;
    var k := LastIndexOf(s, c);
  }

  lemma LastOfAppended(a: string, c: char, b: string)
    requires c !in b
    ensures LastIndexOf(a + [c] + b, c) == |a|
  {
    hide LastIndexOf;
    var front := a + [c];
    BehindFront(front, b);
    LastIs(front + b, c, |a|);
  }

  lemma BehindFront(front: string, b: string)
    ensures forall k :: |front| <= k < |front + b| ==> (front + b)[k] in b
    ensures forall k :: 0 <= k < |front| ==> (front + b)[k] == front[k]
  {}

  /** What stands behind the last dollar sign are the options, whatever the pattern in front of it contains. */
  lemma OptionsAreBehindLastDollar(body: string, options: string)
    requires '$' !in options
    ensures BodyOf(body + "$" + options) == body && OptionsOf(body + "$" + options) == Lower(options)
  {
    hide LastIndexOf, Lower;
    LastOfAppended(body, '$', options);
    var t := body + "$" + options;
    assert t == body + ['$'] + options;
    assert t[..|body|] == body && t[|body| + 1..] == options;
  }

  /** Options behind a domain rule have no effect, not even third-party: the rule sets hold bare domains. */
  lemma DomainRulesIgnoreOptions(r: Rules, d: string, options: string)
    requires PlainDomain(d) && '$' !in options && (options == "" || !IsSpace(options[|options| - 1]))
    ensures WithRule(r, ParseRule("||" + d + "^$" + options)) == WithRule(r, ParseRule("||" + d + "^"))
  {
    var body := "||" + d + "^";
    var t := body + "$" + options;
    assert t == "||" + d + "^$" + options;
    assert t[0] == '|' && t[1] == '|' && t[|t| - 1] == if options == "" then '$' else options[|options| - 1];
    TrimKeepsTight(t);
    LastOfAppended(body, '$', options);
    assert t[..|body|] == body && BodyOf(t) == body;
    DomainRuleParses(d);
    DomainFormHolds(d);
    assert body[2..|body| - 1] == d;
  }

  /** No rule but an exception ever unblocks a request, and an exception never newly blocks one. */
  lemma RulesAreMonotone(r: Rules, rule: FilterRule, u: Url, firstParty: Url)
    ensures Blocked(r, u, firstParty) ==> Blocked(WithRule(r, rule), u, firstParty)
    ensures rule.kind != Exception && Stopped(r, u, firstParty) ==> Stopped(WithRule(r, rule), u, firstParty)
    ensures rule.kind == Exception && Stopped(WithRule(r, rule), u, firstParty) ==> Stopped(r, u, firstParty)
  {
    hide RegexHits, Host, IsThirdParty, OnVideoSite, Lower;
    if PatternListed(r.block, u, IsThirdParty(u, firstParty)) {
      var k :| 0 <= k < |r.block| && r.block[k].kind == UrlPattern &&
        (r.block[k].thirdPartyOnly ==> IsThirdParty(u, firstParty)) && RegexHits(r.block[k].regex, u.text);
      assert WithRule(r, rule).block[k] == r.block[k];
    }
    if Whitelisted(r, u) {
      var k :| 0 <= k < |r.exceptions| && RegexHits(r.exceptions[k].regex, u.text);
      assert WithRule(r, rule).exceptions[k] == r.exceptions[k];
    }
  }

  /** What a pattern rule adds, in terms of the filter itself. */
  lemma PatternRuleBlocksMatches(r: Rules, line: string, u: Url, firstParty: Url)
    requires ParseRule(line).kind == UrlPattern && OneLine(u.text)
    ensures var body := BodyOf(Trimmed(line));
            Blocked(WithRule(r, ParseRule(line)), u, firstParty) <==>
            Blocked(r, u, firstParty) ||
            (Host(u) != "" && FilterMatches(body, u.text) &&
             (ParseRule(line).thirdPartyOnly ==> IsThirdParty(u, firstParty)))
  {
    var body := BodyOf(Trimmed(line));
    var rule := ParseRule(line);
    assert rule.regex == RegexText(body);
    TranslationPreservesMeaning(body, u.text);
    hide RegexHits, Host, IsThirdParty, FilterMatches, ParseRule, Trimmed, HostListed;
    var third := IsThirdParty(u, firstParty);
    assert (r.block + [rule])[|r.block|] == rule;
    if PatternListed(r.block, u, third) {
      var k :| 0 <= k < |r.block| && r.block[k].kind == UrlPattern &&
        (r.block[k].thirdPartyOnly ==> third) && RegexHits(r.block[k].regex, u.text);
      assert (r.block + [rule])[k] == r.block[k];
    }
    assert HostListed(WithRule(r, rule), Host(u)) == HostListed(r, Host(u)) by { HostRulesUnchanged(r, rule, Host(u)); }
  }

  /** What an exception exempts. Its options are not split off: they are matched as part of the pattern. */
  lemma ExceptionExemptsMatches(r: Rules, line: string, u: Url)
    requires ParseRule(line).kind == Exception && OneLine(u.text)
    ensures Whitelisted(WithRule(r, ParseRule(line)), u) <==>
            Whitelisted(r, u) || FilterMatches(Trimmed(line)[2..], u.text)
  {
    var body := Trimmed(line)[2..];
    var rule := ParseRule(line);
    assert rule.regex == RegexText(body);
    TranslationPreservesMeaning(body, u.text);
    hide RegexHits, FilterMatches, ParseRule, Trimmed;
    assert (r.exceptions + [rule])[|r.exceptions|] == rule;
    if Whitelisted(r, u) {
      var k :| 0 <= k < |r.exceptions| && RegexHits(r.exceptions[k].regex, u.text);
      assert (r.exceptions + [rule])[k] == r.exceptions[k];
    }
  }

  lemma HostRulesUnchanged(r: Rules, rule: FilterRule, host: string)
    requires rule.kind == UrlPattern || rule.kind == Exception
    ensures HostListed(WithRule(r, rule), host) == HostListed(r, host)
  {}

  // ---------- The blocker ----------

  // ---------- From filter lines to the verdict ----------

  const NO_RULES := Rules({}, {}, [], [])

  /** The rule lists after these lines have been added in order. */
  function RulesOf(lines: seq<string>): Rules {
    if lines == [] then NO_RULES
    else WithRule(RulesOf(lines[..|lines| - 1]), ParseRule(lines[|lines| - 1]))
  }

  predicate IsExceptionLine(line: string) { "@@" <= Trimmed(line) }

  /** The line is an exception whose filter matches the URL. */
  predicate LineExempts(line: string, u: Url) {
    IsExceptionLine(line) && FilterMatches(Trimmed(line)[2..], u.text)
  }

  /** The line names the host or a domain it belongs to, or its filter matches the URL and does not ask for a third
      party where there is none. */
  predicate LineBlocks(line: string, u: Url, firstParty: Url) {
    var body := BodyOf(Trimmed(line));
    !IsExceptionLine(line) && Host(u) != "" &&
    if IsDomainForm(body) then IsSuffixDomain(Lower(body[2..|body| - 1]), Host(u))
    else FilterMatches(body, u.text) &&
         (Contains(OptionsOf(Trimmed(line)), "third-party") ==> IsThirdParty(u, firstParty))
  }

  lemma DomainLineAdds(r: Rules, line: string, u: Url, firstParty: Url)
    requires ParseRule(line).kind == DomainSuffix
    ensures Blocked(WithRule(r, ParseRule(line)), u, firstParty) <==>
            Blocked(r, u, firstParty) || LineBlocks(line, u, firstParty)
  {
    hide Host, Lower, Trimmed, RegexHits, RegexText, PatternListed, BaseDomain, IsThirdParty, IsSuffixDomain,
         FilterMatches, Contains;
    var body := BodyOf(Trimmed(line));
    SuffixesAreCuts(Lower(body[2..|body| - 1]), Host(u));
  }

  lemma PatternLineAdds(r: Rules, line: string, u: Url, firstParty: Url)
    requires ParseRule(line).kind == UrlPattern && OneLine(u.text)
    ensures Blocked(WithRule(r, ParseRule(line)), u, firstParty) <==>
            Blocked(r, u, firstParty) || LineBlocks(line, u, firstParty)
  {
    PatternRuleBlocksMatches(r, line, u, firstParty);
    hide Host, Lower, Trimmed, RegexText, Blocked, BaseDomain, IsThirdParty, IsSuffixDomain, FilterMatches, Contains,
         WithRule, BodyOf, OptionsOf, IsDomainForm;
  }

  /** What one more line changes. */
  lemma LineAdds(r: Rules, line: string, u: Url, firstParty: Url)
    requires OneLine(u.text)
    ensures var after := WithRule(r, ParseRule(line));
            (Blocked(after, u, firstParty) <==> Blocked(r, u, firstParty) || LineBlocks(line, u, firstParty)) &&
            (Whitelisted(after, u) <==> Whitelisted(r, u) || LineExempts(line, u))
  {
    KindsOfLines(line);
    NoExactDomainRules(line);
    match ParseRule(line).kind
    case Exception =>
      ExceptionExemptsMatches(r, line, u);
      hide Blocked, ParseRule, Trimmed, FilterMatches, LineBlocks, Host;
      SameBlockRules(r, ParseRule(line), u, firstParty);
    case DomainSuffix => DomainLineAdds(r, line, u, firstParty); ExceptionsUnchanged(r, ParseRule(line), u);
    case UrlPattern => PatternLineAdds(r, line, u, firstParty); ExceptionsUnchanged(r, ParseRule(line), u);
  }

  lemma KindsOfLines(line: string)
    ensures ParseRule(line).kind == Exception <==> IsExceptionLine(line)
    ensures IsExceptionLine(line) ==> forall u, firstParty :: !LineBlocks(line, u, firstParty)
    ensures !IsExceptionLine(line) ==> forall u :: !LineExempts(line, u)
  {
    hide Trimmed, FilterMatches, RegexText;
  }

  lemma SameBlockRules(r: Rules, rule: FilterRule, u: Url, firstParty: Url)
    requires rule.kind == Exception
    ensures Blocked(WithRule(r, rule), u, firstParty) <==> Blocked(r, u, firstParty)
  {
    hide Host, RegexHits, IsThirdParty;
  }

  lemma ExceptionsUnchanged(r: Rules, rule: FilterRule, u: Url)
    requires rule.kind != Exception
    ensures Whitelisted(WithRule(r, rule), u) <==> Whitelisted(r, u)
  {
    hide RegexHits;
  }

  ghost predicate SomeBlocks(lines: seq<string>, u: Url, firstParty: Url) {
    exists k :: 0 <= k < |lines| && LineBlocks(lines[k], u, firstParty)
  }

  ghost predicate SomeExempts(lines: seq<string>, u: Url) {
    exists k :: 0 <= k < |lines| && LineExempts(lines[k], u)
  }

  lemma LastOrEarlier(lines: seq<string>, u: Url, firstParty: Url)
    requires lines != []
    ensures var front, last := lines[..|lines| - 1], lines[|lines| - 1];
            (SomeBlocks(lines, u, firstParty) <==>
              SomeBlocks(front, u, firstParty) || LineBlocks(last, u, firstParty)) &&
            (SomeExempts(lines, u) <==> SomeExempts(front, u) || LineExempts(last, u))
  {
    hide LineBlocks, LineExempts;
    var front := lines[..|lines| - 1];
    assert forall k :: 0 <= k < |front| ==> front[k] == lines[k];
  }

  lemma NoRulesNoVerdict(u: Url, firstParty: Url)
    ensures !Blocked(NO_RULES, u, firstParty) && !Whitelisted(NO_RULES, u)
  {
    hide Host, RegexHits, IsThirdParty;
  }

  lemma {:induction false} ListsFromLines(lines: seq<string>, u: Url, firstParty: Url)
    requires OneLine(u.text)
    ensures Blocked(RulesOf(lines), u, firstParty) <==> SomeBlocks(lines, u, firstParty)
    ensures Whitelisted(RulesOf(lines), u) <==> SomeExempts(lines, u)
  {
    hide Blocked, Whitelisted, LineBlocks, LineExempts, ParseRule, WithRule;
    if lines == [] {
      NoRulesNoVerdict(u, firstParty);
    } else {
      hide SomeBlocks, SomeExempts;
      var front, last := lines[..|lines| - 1], lines[|lines| - 1];
      ListsFromLines(front, u, firstParty);
      LineAdds(RulesOf(front), last, u, firstParty);
      LastOrEarlier(lines, u, firstParty);
    }
  }

  /** The whole blocker, from the text of the filter lines to the verdict: resources of the browser itself always load;
      on the video sites only two hosts are stopped; elsewhere a request is stopped exactly when some line blocks it and
      no exception line exempts it. */
  lemma VerdictFromLines(lines: seq<string>, u: Url, firstParty: Url)
    requires OneLine(u.text)
    ensures Stopped(RulesOf(lines), u, firstParty) <==>
            u.scheme != "qrc" && u.scheme != "data" && u.scheme != "file" &&
            var page := Lower(firstParty.host);
            if EndsWith(page, "youtube.com") || EndsWith(page, "youtu.be") || EndsWith(page, "googlevideo.com") then
              Lower(u.host) == "ad.youtube.com" || Lower(u.host) == "ads.youtube.com"
            else
              SomeBlocks(lines, u, firstParty) && !SomeExempts(lines, u)
  {
    hide Blocked, Whitelisted, SomeBlocks, SomeExempts, RulesOf, Lower, EndsWith;
    ListsFromLines(lines, u, firstParty);
  }

  /** A third party is a host whose last two labels are not those of the page. */
  lemma ThirdPartyIsExact(u: Url, firstParty: Url)
    ensures Host(firstParty) == "" ==> !IsThirdParty(u, firstParty)
    ensures var x, y := Labels(Host(u)), Labels(Host(firstParty));
            Host(firstParty) != "" && |x| > 1 && |y| > 1 ==>
              (IsThirdParty(u, firstParty) <==> x[|x| - 1] != y[|y| - 1] || x[|x| - 2] != y[|y| - 2])
  {
    hide Labels, Host, BaseDomain;
    if |Labels(Host(u))| > 1 && |Labels(Host(firstParty))| > 1 { SameBaseDomain(Host(u), Host(firstParty)); }
  }

  /** None of the cuts in front of a position leaves a listed name. */
  ghost predicate NotListedBefore(host: string, at: nat, listed: set<string>) {
    forall k :: 0 <= k < at && k <= |host| && (k == 0 || host[k - 1] == '.') ==> host[k..] !in listed
  }

  lemma NextCut(host: string, at: nat, dot: nat, listed: set<string>)
    requires at <= |host| && NotListedBefore(host, at, listed) && host[at..] !in listed
    requires dot == IndexOf(host[at..], '.')
    ensures NotListedBefore(host, at + dot + 1, listed)
  {
    hide IndexOf;
    forall i | at <= i < at + dot ensures host[i] != '.' {
      assert host[i] == host[at..][i - at];
    }
  }

  class AdBlocker {
    var blockedDomains: set<string>
    var blockedBaseDomains: set<string>
    var blockRules: seq<FilterRule>
    var exceptionRules: seq<FilterRule>
    var requests: nat
    var blocked: nat
    var enabled: bool

    function Content(): Rules
      reads this
    {
      Rules(blockedDomains, blockedBaseDomains, blockRules, exceptionRules)
    }

    constructor ()
      ensures Content() == Rules({}, {}, [], []) && requests == blocked == 0 && enabled
    {
      blockedDomains, blockedBaseDomains, blockRules, exceptionRules := {}, {}, [], [];
      requests, blocked, enabled := 0, 0, true;
    }

    /** Files one filter line in the list its kind belongs to. */
    method AddRule(rawRule: string)
      modifies this
      ensures Content() == WithRule(old(Content()), ParseRule(rawRule))
      ensures requests == old(requests) && blocked == old(blocked) && enabled == old(enabled)
    {
      hide ParseRule;
      var rule := ParseRule(rawRule);
      if rule.kind == Exception {
        exceptionRules := exceptionRules + [rule];
      } else if rule.kind == DomainExact {
        blockedDomains := blockedDomains + {rule.pattern};
      } else if rule.kind == DomainSuffix {
        blockedBaseDomains := blockedBaseDomains + {rule.pattern};
      } else {
        blockRules := blockRules + [rule];
      }
    }

    /** Walks up the host name, dropping one leading label at a time. */
    method SuffixWalk(host: string) returns (found: bool)
      ensures found <==>
                exists k :: 0 <= k <= |host| && (k == 0 || host[k - 1] == '.') && host[k..] in blockedBaseDomains
    {
      var h := host;
      ghost var at: nat := 0;
      while true
        invariant at <= |host| && h == host[at..] && (at == 0 || host[at - 1] == '.')
        invariant NotListedBefore(host, at, blockedBaseDomains)
        decreases |h|
      {
        if h in blockedBaseDomains {
          assert host[at..] in blockedBaseDomains;
          return true;
        }
        var dot := IndexOf(h, '.');
        NextCut(host, at, dot, blockedBaseDomains);
        if dot == |h| {
          break;
        }
        h := h[dot + 1..];
        at := at + dot + 1;
      }
      found := false;
    }

    method IsBlocked(u: Url, firstParty: Url) returns (b: bool)
      ensures b <==> Blocked(Content(), u, firstParty)
    {
      hide RegexHits, BaseDomain, Host;
      var host := Host(u);
      if host == "" {
        return false;
      }
      var thirdParty := IsThirdParty(u, firstParty);
      if host in blockedDomains {
        return true;
      }
      var listed := SuffixWalk(host);
      if listed {
        return true;
      }
      for k := 0 to |blockRules|
        invariant !PatternListed(blockRules[..k], u, thirdParty)
      {
        var rule := blockRules[k];
        assert blockRules[..k + 1] == blockRules[..k] + [rule];
        if rule.thirdPartyOnly && !thirdParty {
          continue;
        }
        if rule.kind == UrlPattern {
          if RegexHits(rule.regex, u.text) {
            assert PatternListed(blockRules, u, thirdParty);
            return true;
          }
        }
      }
      assert blockRules[..|blockRules|] == blockRules;
      b := false;
    }

    /** Called for every request; the counters count exactly the requests seen and the requests stopped. */
    method InterceptRequest(u: Url, firstParty: Url) returns (stop: bool)
      modifies this`requests, this`blocked
      ensures stop <==> enabled && Stopped(Content(), u, firstParty)
      ensures requests == old(requests) + 1 && blocked == old(blocked) + if stop then 1 else 0
    {
      hide RegexHits, Blocked, OnVideoSite, Lower;
      requests := requests + 1;
      if !enabled || u.scheme in BYPASS {
        return false;
      }
      if OnVideoSite(Lower(firstParty.host)) {
        var reqHost := Lower(u.host);
        stop := reqHost == "ad.youtube.com" || reqHost == "ads.youtube.com";
        if stop {
          blocked := blocked + 1;
        }
        return;
      }
      for k := 0 to |exceptionRules|
        invariant forall i :: 0 <= i < k ==> !RegexHits(exceptionRules[i].regex, u.text)
        invariant requests == old(requests) + 1 && blocked == old(blocked)
      {
        if RegexHits(exceptionRules[k].regex, u.text) {
          return false;
        }
      }
      stop := IsBlocked(u, firstParty);
      if stop {
        blocked := blocked + 1;
      }
    }
  }
}
