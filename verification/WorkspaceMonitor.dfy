/** The compositor event listener: splitting a byte stream into lines, and the topology the lines describe. */
module WorkspaceMonitoring {
  import opened MonitorAnswers
  import opened Text
  import opened Types

  // ---------- Lines of a stream ----------

  /** The newline-terminated segments, without their newlines. */
  function Segments(s: string): seq<string>
    decreases |s|
  {
    var k := IndexOf(s, '\n');
    if k == |s| then [] else [s[..k]] + Segments(s[k + 1..])
  }

  /** What follows the last newline. */
  function Tail(s: string): string
    decreases |s|
  {
    var k := IndexOf(s, '\n');
    if k == |s| then s else Tail(s[k + 1..])
  }

  function NonEmpty(segments: seq<string>): seq<string> {
    if segments == [] then []
    else
      var last := segments[|segments| - 1];
      NonEmpty(segments[..|segments| - 1]) + if last == "" then [] else [last]
  }

  function Lines(s: string): seq<string> { NonEmpty(Segments(s)) }

  function Terminated(segments: seq<string>): string {
    if segments == [] then "" else segments[0] + "\n" + Terminated(segments[1..])
  }

  predicate NoNewline(s: string) { '\n' !in s }

  lemma FirstCut(s: string)
    ensures var k := IndexOf(s, '\n');
            if k == |s| then Segments(s) == [] && Tail(s) == s
            else Segments(s) == [s[..k]] + Segments(s[k + 1..]) && Tail(s) == Tail(s[k + 1..])
  {
    hide IndexOf;
  }

  /** The segments and the tail are the stream cut at its newlines, and nothing else is. */
  lemma {:induction false} SegmentsRejoin(s: string)
    ensures Terminated(Segments(s)) + Tail(s) == s
    ensures NoNewline(Tail(s)) && forall k :: 0 <= k < |Segments(s)| ==> NoNewline(Segments(s)[k])
    decreases |s|
  {
    hide IndexOf, Segments, Tail;
    FirstCut(s);
    var k := IndexOf(s, '\n');
    if k < |s| {
      var rest := s[k + 1..];
      SegmentsRejoin(rest);
      assert ([s[..k]] + Segments(rest))[1..] == Segments(rest);
      assert s == s[..k] + "\n" + rest;
    }
  }

  lemma IndexOfAppend(a: string, b: string, c: char)
    ensures IndexOf(a, c) < |a| ==> IndexOf(a + b, c) == IndexOf(a, c)
    ensures IndexOf(a, c) == |a| ==> IndexOf(a + b, c) == |a| + IndexOf(b, c)
  {
    var i, j, k := IndexOf(a, c), IndexOf(a + b, c), IndexOf(b, c);
    assert i < |a| ==> (a + b)[i] == a[i];
    assert k < |b| ==> (a + b)[|a| + k] == b[k];
    assert forall x :: 0 <= x < |a| ==> (a + b)[x] == a[x];
    assert j >= |a| ==> forall x :: 0 <= x < j - |a| ==> b[x] == (a + b)[|a| + x];
    assert |a| <= j < |a| + |b| ==> b[j - |a|] == c;
  }

  /** Cutting a stream anywhere changes nothing as long as the unterminated tail is carried over. */
  lemma {:induction false} CutAnywhere(a: string, b: string)
    ensures Segments(a + b) == Segments(a) + Segments(Tail(a) + b)
    ensures Tail(a + b) == Tail(Tail(a) + b)
    decreases |a|
  {
    hide IndexOf, Segments, Tail;
    IndexOfAppend(a, b, '\n');
    FirstCut(a);
    FirstCut(a + b);
    var k := IndexOf(a, '\n');
    if k == |a| {
      assert [] + Segments(a + b) == Segments(a + b);
    } else {
      CutAnywhere(a[k + 1..], b);
      assert (a + b)[..k] == a[..k] && (a + b)[k + 1..] == a[k + 1..] + b;
    }
  }

  lemma {:induction false} NonEmptyAppend(x: seq<string>, y: seq<string>)
    ensures NonEmpty(x + y) == NonEmpty(x) + NonEmpty(y)
  {
    if y == [] {
      assert x + y == x;
    } else {
      NonEmptyAppend(x, y[..|y| - 1]);
      assert (x + y)[..|x + y| - 1] == x + y[..|y| - 1];
    }
  }

  // ---------- Topology ----------

  datatype Workspace = Workspace(id: int, isVisible: bool, isFocused: bool, windowClass: string, windowTitle: string)

  const DEFAULT_WORKSPACE := Workspace(-1, false, false, "", "")

  datatype Topology = Topology(focused: int, workspaces: map<int, Workspace>)

  function Lookup(ws: map<int, Workspace>, id: int): Workspace {
    if id in ws then ws[id] else DEFAULT_WORKSPACE
  }

  predicate ArrowAt(s: string, i: nat) {
    i + 2 <= |s| && s[i] == '>' && s[i + 1] == '>'
  }

  /** The position of the first ">>", |s| when there is none. */
  function FindArrow(s: string): (k: nat)
    ensures k == |s| || ArrowAt(s, k)
    ensures forall i :: 0 <= i < k ==> !ArrowAt(s, i)
  {
    if s == "" || ArrowAt(s, 0) then 0
    else
      var k := FindArrow(s[1..]);
      assert forall i :: 1 <= i ==> (ArrowAt(s, i) <==> ArrowAt(s[1..], i - 1));
      1 + k
  }

  function Focus(t: Topology, id: int): Topology {
    var unfocused := if t.focused in t.workspaces
                     then t.workspaces[t.focused := t.workspaces[t.focused].(isFocused := false)] else t.workspaces;
    Topology(id, unfocused[id := Lookup(unfocused, id).(id := id, isFocused := true)])
  }

  function SetWindow(t: Topology, cls: string, title: string): Topology {
    t.(workspaces := t.workspaces[t.focused :=
      Lookup(t.workspaces, t.focused).(windowClass := cls, windowTitle := title)])
  }

  /** What one event line does. */
  function After(t: Topology, line: string): Topology {
    var k := FindArrow(line);
    if k == |line| then t
    else
      var event, payload := line[..k], line[k + 2..];
      if event == "workspace" then
        match StoI(payload)
        case None => t
        case Some(id) => Focus(t, id)
      else if event == "activewindow" then
        var comma := IndexOf(payload, ',');
        if comma == |payload| then t else SetWindow(t, payload[..comma], payload[comma + 1..])
      else t
  }

  function AfterAll(t: Topology, lines: seq<string>): Topology {
    if lines == [] then t else After(AfterAll(t, lines[..|lines| - 1]), lines[|lines| - 1])
  }

  lemma {:induction false} AfterAllAppend(t: Topology, x: seq<string>, y: seq<string>)
    ensures AfterAll(t, x + y) == AfterAll(AfterAll(t, x), y)
  {
    hide After;
    if y == [] {
      assert x + y == x;
    } else {
      AfterAllAppend(t, x, y[..|y| - 1]);
      assert (x + y)[..|x + y| - 1] == x + y[..|y| - 1];
    }
  }

  lemma NoLines(t: Topology)
    ensures NonEmpty([]) == [] && AfterAll(t, NonEmpty([])) == t
    ensures AfterAll(t, []) == t
  {}

  lemma OneMoreLine(t: Topology, done: seq<string>, line: string)
    ensures NonEmpty(done + [line]) == NonEmpty(done) + if line == "" then [] else [line]
    ensures AfterAll(t, NonEmpty(done + [line])) ==
            if line == "" then AfterAll(t, NonEmpty(done)) else After(AfterAll(t, NonEmpty(done)), line)
  {
    hide After;
    var all := done + [line];
    assert all[..|all| - 1] == done && all[|all| - 1] == line;
    assert NonEmpty(done) + [] == NonEmpty(done);
    var kept := NonEmpty(done) + [line];
    assert kept[..|kept| - 1] == NonEmpty(done);
  }

  /** Only the workspace the monitor calls focused carries the flag. */
  ghost predicate OneFocus(t: Topology) {
    forall id :: id in t.workspaces && t.workspaces[id].isFocused ==> id == t.focused
  }

  /** In every run at most one workspace is focused, and it is the one the monitor reports. */
  lemma {:induction false} FocusStaysUnique(t: Topology, lines: seq<string>)
    requires OneFocus(t)
    ensures OneFocus(AfterAll(t, lines))
  {
    if lines == [] {
    } else {
      FocusStaysUnique(t, lines[..|lines| - 1]);
      LineKeepsOneFocus(AfterAll(t, lines[..|lines| - 1]), lines[|lines| - 1]);
    }
  }

  lemma LineKeepsOneFocus(t: Topology, line: string)
    requires OneFocus(t)
    ensures OneFocus(After(t, line))
  {
    hide FindArrow, StoI, IndexOf;
  }

  /** A switch takes effect whatever came before it. */
  lemma SwitchFocuses(t: Topology, payload: string)
    requires StoI(payload).Some?
    ensures After(t, "workspace>>" + payload) == Focus(t, StoI(payload).value)
    ensures Lookup(Focus(t, StoI(payload).value).workspaces, StoI(payload).value).isFocused
  {
    hide StoI, FindArrow;
    var line := "workspace>>" + payload;
    assert line[..9] == "workspace" && line[11..] == payload;
    assert ArrowAt(line, 9) && forall i :: 0 <= i < 9 ==> line[i] != '>';
    assert FindArrow(line) == 9;
  }

  /** What a switch changes: the new workspace is focused, the old one no longer is, and nothing else. */
  lemma SwitchIsExact(t: Topology, payload: string)
    requires StoI(payload).Some?
    ensures var id, after := StoI(payload).value, After(t, "workspace>>" + payload);
            after.focused == id && after.workspaces.Keys == t.workspaces.Keys + {id} &&
            after.workspaces[id] == Lookup(t.workspaces, id).(id := id, isFocused := true) &&
            forall i :: i in t.workspaces && i != id ==>
              after.workspaces[i] == if i == t.focused then t.workspaces[i].(isFocused := false) else t.workspaces[i]
  {
    SwitchFocuses(t, payload);
    hide StoI, After;
  }

  /** The class in front of the first comma and the title behind it are those of the window shown on the focused
      workspace; nothing else changes. */
  lemma WindowIsShown(t: Topology, cls: string, title: string)
    requires ',' !in cls
    ensures var after := After(t, "activewindow>>" + cls + "," + title);
            after.focused == t.focused && after.workspaces.Keys == t.workspaces.Keys + {t.focused} &&
            after.workspaces[t.focused] ==
              Lookup(t.workspaces, t.focused).(windowClass := cls, windowTitle := title) &&
            forall i :: i in t.workspaces && i != t.focused ==> after.workspaces[i] == t.workspaces[i]
  {
    hide FindArrow, IndexOf;
    var payload := cls + "," + title;
    var line := "activewindow>>" + cls + "," + title;
    assert line == "activewindow>>" + payload;
    assert line[..12] == "activewindow" && line[14..] == payload;
    assert ArrowAt(line, 12) && forall i :: 0 <= i < 12 ==> line[i] != '>';
    assert FindArrow(line) == 12;
    assert payload[|cls|] == ',' && forall i :: 0 <= i < |cls| ==> payload[i] == cls[i];
    assert IndexOf(payload, ',') == |cls| && payload[..|cls|] == cls && payload[|cls| + 1..] == title;
  }

  /** Lines without an arrow, and events the monitor does not know, change nothing. */
  lemma OtherLinesChangeNothing(t: Topology, line: string)
    requires !("workspace>>" <= line) && !("activewindow>>" <= line)
    ensures After(t, line) == t
  {
    hide FindArrow, StoI, IndexOf;
    var k := FindArrow(line);
    if k < |line| {
      assert line[..k + 2] == line[..k] + ">>" && line[..k + 2] <= line;
    }
  }

  // ---------- Reads ----------

  const NUL: char := '\0'

  /** What a C string of the chunk holds: everything before the first NUL. */
  function CString(chunk: string): string { chunk[..IndexOf(chunk, NUL)] }

  /** The stream a sequence of reads delivers. */
  function Stream(chunks: seq<string>): string {
    if chunks == [] then "" else Stream(chunks[..|chunks| - 1]) + CString(chunks[|chunks| - 1])
  }

  function Joined(chunks: seq<string>): string {
    if chunks == [] then "" else Joined(chunks[..|chunks| - 1]) + chunks[|chunks| - 1]
  }

  /** Without NUL bytes nothing of the stream is lost, however it is split into reads. */
  lemma {:induction false} StreamIsWhole(chunks: seq<string>)
    requires NUL !in Joined(chunks)
    ensures Stream(chunks) == Joined(chunks)
  {
    if chunks == [] {
    } else {
      var last := chunks[|chunks| - 1];
      assert forall c :: c in last || c in Joined(chunks[..|chunks| - 1]) ==> c in Joined(chunks);
      StreamIsWhole(chunks[..|chunks| - 1]);
      assert CString(last) == last;
    }
  }

  lemma NothingRead()
    ensures Stream([]) == "" && Lines("") == [] && Tail("") == ""
  {}

  lemma OneMoreRead(chunks: seq<string>, k: nat)
    requires k < |chunks|
    ensures Stream(chunks[..k + 1]) == Stream(chunks[..k]) + CString(chunks[k])
  {
    assert chunks[..k + 1][..k] == chunks[..k];
  }

  /** Carrying the tail over loses no line and adds none. */
  lemma LinesCut(a: string, b: string)
    ensures Lines(a + b) == Lines(a) + Lines(Tail(a) + b)
    ensures Tail(a + b) == Tail(Tail(a) + b)
  {
    hide Segments, Tail, NonEmpty;
    CutAnywhere(a, b);
    NonEmptyAppend(Segments(a), Segments(Tail(a) + b));
  }

  /** Exactly the focused and the shown workspaces are visible, and focus is where it was. */
  ghost predicate Refreshed(before: map<int, Workspace>, shown: seq<int>, after: map<int, Workspace>) {
    (forall id :: id in after <==> id in before || id in shown) &&
    forall id :: id in after ==>
      (after[id].isVisible <==> after[id].isFocused || id in shown) &&
      (after[id].isFocused <==> Lookup(before, id).isFocused)
  }

  lemma RefreshOne(before: map<int, Workspace>, shown: seq<int>, now: map<int, Workspace>, id: int)
    requires Refreshed(before, shown, now)
    ensures Refreshed(before, shown + [id], now[id := Lookup(now, id).(id := id, isVisible := true)])
  {}

  lemma RefreshKeepsFocus(before: map<int, Workspace>, shown: seq<int>, after: map<int, Workspace>, focused: int)
    requires Refreshed(before, shown, after)
    ensures OneFocus(Topology(focused, before)) ==> OneFocus(Topology(focused, after))
  {}

  class WorkspaceMonitor {
    var focusedWs: int
    var workspaces: map<int, Workspace>
    /** The lines handled so far. */
    ghost var handled: seq<string>

    function Content(): Topology
      reads this
    {
      Topology(focusedWs, workspaces)
    }

    constructor ()
      ensures Content() == Topology(1, map[]) && OneFocus(Content()) && handled == []
    {
      focusedWs, workspaces, handled := 1, map[], [];
    }

    method HandleEvent(line: string)
      modifies this
      ensures Content() == After(old(Content()), line) && handled == old(handled) + [line]
    {
      hide StoI, FindArrow, IndexOf;
      handled := handled + [line];
      var split := FindArrow(line);
      if split == |line| {
        return;
      }
      var event, payload := line[..split], line[split + 2..];
      if event == "workspace" {
        var parsed := StoI(payload);
        if parsed == None {
          return;
        }
        var wsId := parsed.value;
        var prev := focusedWs;
        focusedWs := wsId;
        if prev in workspaces {
          workspaces := workspaces[prev := workspaces[prev].(isFocused := false)];
        }
        workspaces := workspaces[wsId := Lookup(workspaces, wsId).(id := wsId)];
        workspaces := workspaces[wsId := workspaces[wsId].(isFocused := true)];
      } else if event == "activewindow" {
        var comma := IndexOf(payload, ',');
        if comma == |payload| {
          return;
        }
        var cls, title := payload[..comma], payload[comma + 1..];
        workspaces := workspaces[focusedWs := Lookup(workspaces, focusedWs).(windowClass := cls)];
        workspaces := workspaces[focusedWs := workspaces[focusedWs].(windowTitle := title)];
      }
    }

    /** Handles the complete lines at the front of the buffer and returns what is left of it. */
    method SplitLines(buffer: string) returns (leftover: string)
      modifies this
      ensures leftover == Tail(buffer)
      ensures Content() == AfterAll(old(Content()), Lines(buffer))
      ensures handled == old(handled) + Lines(buffer)
    {
      hide After, IndexOf, AfterAll, NonEmpty;
      leftover := buffer;
      ghost var t, done := Content(), [];
      NoLines(t);
      while true
        invariant Tail(leftover) == Tail(buffer)
        invariant Segments(buffer) == done + Segments(leftover)
        invariant Content() == AfterAll(t, NonEmpty(done)) && handled == old(handled) + NonEmpty(done)
        decreases |leftover|
      {
        var pos := IndexOf(leftover, '\n');
        if pos == |leftover| {
          break;
        }
        var line := leftover[..pos];
        assert done + Segments(leftover) == (done + [line]) + Segments(leftover[pos + 1..]);
        OneMoreLine(t, done, line);
        assert handled + [] == handled;
        done := done + [line];
        leftover := leftover[pos + 1..];
        if line != "" {
          HandleEvent(line);
        }
      }
      assert done + [] == done;
    }

    /** One connection: every read is appended to the unterminated rest of the earlier ones. */
    method ListenOnce(chunks: seq<string>) returns (leftover: string)
      modifies this
      ensures leftover == Tail(Stream(chunks))
      ensures handled == old(handled) + Lines(Stream(chunks))
      ensures NUL !in Joined(chunks) ==> handled == old(handled) + Lines(Joined(chunks)) &&
                                         leftover == Tail(Joined(chunks))
      ensures Content() == AfterAll(old(Content()), Lines(Stream(chunks)))
      ensures old(OneFocus(Content())) ==> OneFocus(Content())
    {
      hide Lines, Tail, AfterAll, CString, After, Stream;
      leftover := "";
      ghost var t, first := Content(), handled;
      NothingRead();
      NoLines(t);
      assert chunks[..0] == [];
      for k := 0 to |chunks|
        invariant leftover == Tail(Stream(chunks[..k]))
        invariant handled == first + Lines(Stream(chunks[..k]))
        invariant Content() == AfterAll(t, Lines(Stream(chunks[..k])))
      {
        ghost var before, chunk := Stream(chunks[..k]), CString(chunks[k]);
        OneMoreRead(chunks, k);
        LinesCut(before, chunk);
        AfterAllAppend(t, Lines(before), Lines(leftover + chunk));
        leftover := leftover + CString(chunks[k]);
        leftover := SplitLines(leftover);
      }
      assert chunks[..|chunks|] == chunks;
      if NUL !in Joined(chunks) { StreamIsWhole(chunks); }
      if OneFocus(t) { FocusStaysUnique(t, Lines(Stream(chunks))); }
    }

    /** Recomputes the visibility flags from the compositor's answer; without one nothing changes. */
    method RefreshVisibility(answer: Option<string>)
      modifies this`workspaces
      ensures answer == None ==> workspaces == old(workspaces)
      ensures answer.Some? ==> Refreshed(old(workspaces), ShownIds(answer.value), workspaces)
      ensures old(OneFocus(Content())) ==> OneFocus(Content())
    {
      if answer == None {
        return;
      }
      ghost var before := workspaces;
      workspaces := map id | id in workspaces :: workspaces[id].(isVisible := workspaces[id].isFocused);
      MarkShown(answer.value, before);
      RefreshKeepsFocus(before, ShownIds(answer.value), workspaces, focusedWs);
    }

    /** The search of the answer for active workspaces. */
    method MarkShown(answer: string, ghost before: map<int, Workspace>)
      requires Refreshed(before, [], workspaces)
      modifies this`workspaces
      ensures Refreshed(before, ShownIds(answer), workspaces)
    {
      hide FindText, ShownIds, StoI, Refreshed, SkipBlanks;
      var json := answer;
      ghost var shown: seq<int> := [];
      while true
        invariant ShownIds(answer) == shown + ShownIds(json)
        invariant Refreshed(before, shown, workspaces)
        decreases |json|
      {
        NextId(json);
        var at := FindText(json, ACTIVE);
        if at == |json| {
          break;
        }
        var key := FindText(json[at..], ID_KEY);
        if key == |json[at..]| {
          break;
        }
        json := SkipBlanks(json[at..][key + |ID_KEY|..], BLANKS);
        var id := StoI(json);
        if id == None {
          continue;
        }
        assert shown + ([id.value] + ShownIds(json)) == (shown + [id.value]) + ShownIds(json);
        RefreshOne(before, shown, workspaces, id.value);
        shown := shown + [id.value];
        workspaces := workspaces[id.value := Lookup(workspaces, id.value).(id := id.value, isVisible := true)];
      }
      assert shown + [] == shown;
    }
  }
}
