/** The workspaces a compositor answer shows, found by searching the JSON text for keys. */
module MonitorAnswers {
  import opened Text
  import opened Types

  const ACTIVE := "\"activeWorkspace\""
  const ID_KEY := "\"id\":"

  /** The position of the first occurrence of t, |s| when there is none. */
  function FindText(s: string, t: string): (k: nat)
    requires t != ""
    ensures k <= |s| && (k < |s| ==> t <= s[k..]) && forall i :: 0 <= i < k ==> !(t <= s[i..])
  {
    if s == "" || t <= s then 0
    else
      var k := FindText(s[1..], t);
      assert forall i :: 1 <= i <= |s| ==> s[1..][i - 1..] == s[i..];
      assert s[0..] == s;
      1 + k
  }

  const BLANKS: set<char> := {' ', '\t'}

  /** The numbers behind the first id key after each active workspace. */
  function ShownIds(json: string): seq<int>
    decreases |json|
  {
    var at := FindText(json, ACTIVE);
    if at == |json| then []
    else
      var key := FindText(json[at..], ID_KEY);
      if key == |json[at..]| then []
      else
        var rest := SkipBlanks(json[at..][key + |ID_KEY|..], BLANKS);
        match StoI(rest)
        case None => ShownIds(rest)
        case Some(id) => [id] + ShownIds(rest)
  }

  lemma NextId(json: string)
    ensures var at := FindText(json, ACTIVE);
            if at == |json| then ShownIds(json) == []
            else
              var key := FindText(json[at..], ID_KEY);
              if key == |json[at..]| then ShownIds(json) == []
              else
                var rest := SkipBlanks(json[at..][key + |ID_KEY|..], BLANKS);
                |rest| < |json| &&
                ShownIds(json) ==
                  match StoI(rest) { case None => ShownIds(rest) case Some(id) => [id] + ShownIds(rest) }
  {
    hide StoI;
  }

  // ---------- Answers that are read in full ----------

  /** One monitor as the compositor prints it: other members, then the active workspace with its id first. */
  datatype Monitor = Monitor(before: string, gap: string, blanks: string, id: Numeral)

  /** What separates two numbers and hides no key. */
  ghost predicate Separates(text: string) {
    (text == "" || !IsDigit(text[0])) && !Contains(text, ACTIVE)
  }

  /** The key occurs nowhere in front of where it is meant; only blanks stand before the number, which fits an int. */
  ghost predicate Plain(m: Monitor) {
    m.before != "" && !IsDigit(m.before[0]) && !Contains(m.before + "\"", ACTIVE) && '"' !in m.gap &&
    (forall c :: c in m.blanks ==> c in BLANKS) &&
    m.id.Valid() && -0x8000_0000 <= m.id.Value() < 0x8000_0000
  }

  function MonitorText(m: Monitor): string {
    m.before + ACTIVE + m.gap + ID_KEY + m.blanks + m.id.Text()
  }

  function Answer(ms: seq<Monitor>, end: string): string {
    if ms == [] then end else MonitorText(ms[0]) + Answer(ms[1..], end)
  }

  ghost predicate AllPlain(ms: seq<Monitor>) { forall k :: 0 <= k < |ms| ==> Plain(ms[k]) }

  ghost function Ids(ms: seq<Monitor>): (ids: seq<int>)
    requires AllPlain(ms)
  {
    if ms == [] then [] else [ms[0].id.Value()] + Ids(ms[1..])
  }

  /** An occurrence of a key before its place lies in what stands before it. */
  lemma EarlierIsInside(before: string, t: string, rest: string, i: nat)
    requires |t| > 1 && t[0] == '"' && forall j :: 1 <= j < |t| - 1 ==> t[j] != '"'
    requires i < |before| && t <= (before + t + rest)[i..]
    ensures Contains(before + "\"", t)
  {
    var s, quoted := before + t + rest, before + "\"";
    assert forall j :: 0 <= j < |t| ==> t[j] == s[i + j];
    var j := |before| - i;
    assert j < |t| ==> t[j] == s[i + j] && s[i + j] == t[0];
    assert i + |t| <= |quoted|;
    assert forall x :: 0 <= x < |quoted| ==> quoted[x] == s[x];
    assert t == quoted[i..][..|t|];
  }

  lemma FoundAt(before: string, t: string, rest: string)
    requires |t| > 1 && t[0] == '"' && forall j :: 1 <= j < |t| - 1 ==> t[j] != '"'
    requires !Contains(before + "\"", t)
    ensures FindText(before + t + rest, t) == |before|
  {
    hide FindText, Contains;
    var s := before + t + rest;
    assert s[|before|..] == t + rest;
    forall i | 0 <= i < |before| ensures !(t <= s[i..]) {
      if t <= s[i..] { EarlierIsInside(before, t, rest, i); }
    }
  }

  lemma LeadHidesNoKey(lead: string, text: string)
    requires '"' !in lead && !Contains(text, ACTIVE)
    ensures !Contains(lead + text, ACTIVE)
  {
    var s := lead + text;
    forall k | 0 <= k <= |s| ensures !(ACTIVE <= s[k..]) {
      if k < |lead| {
        assert s[k..][0] == lead[k] && ACTIVE[0] == '"';
      } else {
        assert s[k..] == text[k - |lead|..];
      }
    }
  }

  lemma NotFound(s: string)
    requires !Contains(s, ACTIVE)
    ensures FindText(s, ACTIVE) == |s|
  {
    hide FindText;
    forall k | 0 <= k <= |s| ensures !(ACTIVE <= s[k..]) {}
  }

  /** Between the active workspace and its id no other id key fits. */
  lemma IdKeyFound(gap: string, rest: string)
    requires '"' !in gap
    ensures FindText(ACTIVE + gap + ID_KEY + rest, ID_KEY) == |ACTIVE + gap|
  {
    hide FindText;
    var front := ACTIVE + gap;
    var s := front + ID_KEY + rest;
    assert s == ACTIVE + gap + ID_KEY + rest && s[|front|..] == ID_KEY + rest;
    forall i | 0 <= i < |front| ensures !(ID_KEY <= s[i..]) {
      NoEarlierId(gap, rest, i);
    }
  }

  lemma NoEarlierId(gap: string, rest: string, i: nat)
    requires '"' !in gap && i < |ACTIVE + gap|
    ensures !(ID_KEY <= (ACTIVE + gap + ID_KEY + rest)[i..])
  {
    var s, n := ACTIVE + gap + ID_KEY + rest, |ACTIVE|;
    assert forall j :: 0 <= j < n ==> s[j] == ACTIVE[j];
    assert forall j :: 0 <= j < |gap| ==> s[n + j] == gap[j];
    assert s[n + |gap|] == '"' && s[n + |gap| + 1] == 'i';
    assert s[i..][0] == s[i] && s[i..][1] == s[i + 1];
    if i == n - 1 {
      assert |gap| == 2 ==> s[i..][3] == '"' && s[i..][4] == 'i';
      assert |gap| > 2 ==> s[i..][3] == gap[2];
      assert |gap| < 2 ==> s[i..][1 + |gap|] == '"';
    }
  }

  lemma {:induction false} BlanksAreSkipped(blanks: string, rest: string)
    requires (forall c :: c in blanks ==> c in BLANKS) && (rest == "" || rest[0] !in BLANKS)
    ensures SkipBlanks(blanks + rest, BLANKS) == rest
  {
    if blanks == "" {
      assert blanks + rest == rest;
    } else {
      assert blanks[0] in blanks && forall c :: c in blanks[1..] ==> c in blanks;
      BlanksAreSkipped(blanks[1..], rest);
      assert (blanks + rest)[1..] == blanks[1..] + rest;
    }
  }

  lemma Pieces(before: string, active: string, gap: string, key: string, tail: string)
    ensures var json := before + active + (gap + key + tail);
            json[|before|..] == active + gap + key + tail &&
            json[|before|..][|active + gap| + |key|..] == tail
  {
    var json := before + active + (gap + key + tail);
    assert json[|before|..] == active + gap + key + tail;
  }

  lemma Gathered(lead: string, m: Monitor, active: string, key: string, number: string, rest: string)
    ensures lead + (m.before + active + m.gap + key + m.blanks + number) + rest ==
            (lead + m.before) + active + (m.gap + key + (m.blanks + (number + rest)))
  {}

  /** One step of the search over a plain monitor. */
  lemma MonitorIsRead(lead: string, m: Monitor, rest: string)
    requires '"' !in lead && Plain(m) && (rest == "" || !IsDigit(rest[0]))
    ensures ShownIds(lead + MonitorText(m) + rest) == [m.id.Value()] + ShownIds(m.id.Text() + rest)
  {
    hide FindText, ShownIds, StoI, SkipBlanks, Decimal, AllDigits, Contains;
    Gathered(lead, m, ACTIVE, ID_KEY, m.id.Text(), rest);
    Pieces(lead + m.before, ACTIVE, m.gap, ID_KEY, m.blanks + (m.id.Text() + rest));
    ActiveFound(lead, m, m.gap + ID_KEY + (m.blanks + (m.id.Text() + rest)));
    IdKeyFound(m.gap, m.blanks + (m.id.Text() + rest));
    NumberFollows(m, rest);
    NextId(lead + MonitorText(m) + rest);
  }

  lemma ActiveFound(lead: string, m: Monitor, behind: string)
    requires '"' !in lead && Plain(m)
    ensures FindText(lead + m.before + ACTIVE + behind, ACTIVE) == |lead + m.before|
  {
    hide FindText, Contains, Decimal;
    assert lead + (m.before + "\"") == (lead + m.before) + "\"";
    LeadHidesNoKey(lead, m.before + "\"");
    FoundAt(lead + m.before, ACTIVE, behind);
  }

  lemma NumberFollows(m: Monitor, rest: string)
    requires Plain(m) && (rest == "" || !IsDigit(rest[0]))
    ensures SkipBlanks(m.blanks + (m.id.Text() + rest), BLANKS) == m.id.Text() + rest
    ensures StoI(m.id.Text() + rest) == Some(m.id.Value())
  {
    hide StoI, SkipBlanks, Contains, Decimal;
    assert m.id.Text() != "" && (m.id.Text() + rest)[0] !in BLANKS;
    BlanksAreSkipped(m.blanks, m.id.Text() + rest);
    StoIReadsNumbers(m.id, rest);
  }

  /** From an answer of plain monitors the search gets every active workspace and nothing else. */
  lemma {:induction false} AnswerIsRead(lead: string, ms: seq<Monitor>, end: string)
    requires '"' !in lead && Separates(end) && AllPlain(ms)
    ensures ShownIds(lead + Answer(ms, end)) == Ids(ms)
    decreases |ms|
  {
    hide FindText, ShownIds, MonitorText, Contains, Decimal;
    if ms == [] {
      LeadHidesNoKey(lead, end);
      NotFound(lead + end);
      NextId(lead + end);
    } else {
      var m, rest := ms[0], Answer(ms[1..], end);
      AnswerIsRead(m.id.Text(), ms[1..], end);
      AnswerStarts(ms[1..], end);
      MonitorIsRead(lead, m, rest);
      assert lead + Answer(ms, end) == lead + MonitorText(m) + rest;
    }
  }

  lemma AnswerStarts(ms: seq<Monitor>, end: string)
    requires Separates(end) && AllPlain(ms)
    ensures Answer(ms, end) == "" || !IsDigit(Answer(ms, end)[0])
  {
    hide Contains;
    if ms != [] {
      assert Plain(ms[0]);
      assert Answer(ms, end)[0] == ms[0].before[0];
    }
  }
}
