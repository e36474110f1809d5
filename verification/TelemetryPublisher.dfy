/** The telemetry snapshot of the daemon and its JSON text. */
module TelemetryPublishing {
  import opened Json
  import opened JsonPrinter
  import opened Numerals
  import opened Sequences
  import opened Text
  import opened Types

  // ---------- Snapshot ----------

  datatype UnmanagedProc = UnmanagedProc(pid: int, comm: string, cpuPct: Fixed, rssKb: int, reason: string)

  datatype TelemetryWorkload = TelemetryWorkload(
    id: int, rootPid: int, workspaceId: int, name: string, kind: string, state: string,
    pidCount: int, memKb: int, cpuPct: Fixed, observed: bool)

  datatype Snapshot = Snapshot(
    version: string, timestampMs: int, uptimeSeconds: int,
    // memory pressure
    pressureLevel: string, psiSomeAvg10: Fixed, psiFullAvg10: Fixed, memUsedPct: Fixed, memTotalKb: int,
    memAvailableKb: int,
    // processor pressure
    cpuPsiValid: bool, cpuPsiAvg10: Fixed, cpuPsiAvg60: Fixed, cpuPsiAvg300: Fixed,
    load1: Fixed, load5: Fixed, load15: Fixed, runnableProcs: int, totalProcs: int,
    // orchestration
    governor: string, workloadCount: int, activeWorkloads: int, classifiedWorkloads: int, observedWorkloads: int,
    // processes
    processesSeen: int, processesProtected: int, processesAssigned: int, processesUnmanaged: int,
    hyprlandConnected: bool, topUnmanaged: seq<UnmanagedProc>,
    // the last action
    hasLastAction: bool, lastAction: string, lastActionTarget: string, lastActionPid: int,
    workloads: seq<TelemetryWorkload>)

  // ---------- What the snapshot says ----------

  function Int(n: int): Value { Num(IntText(n)) }

  function F2(x: Fixed): Value { Num(FixedText(x)) }

  /** Division truncates toward zero. */
  function Mebibytes(kb: int): int {
    if kb >= 0 then kb / 1024 else -(-kb / 1024)
  }

  /** Whole mebibytes, the rest dropped. */
  lemma MebibytesAreWhole(kb: int)
    ensures kb >= 0 ==> 1024 * Mebibytes(kb) <= kb < 1024 * (Mebibytes(kb) + 1)
    ensures Mebibytes(-kb) == -Mebibytes(kb)
  {}

  function PressureValue(s: Snapshot): Value {
    Obj([
      Member("level", Str(s.pressureLevel)),
      Member("psi_some_avg10", F2(s.psiSomeAvg10)),
      Member("psi_full_avg10", F2(s.psiFullAvg10)),
      Member("mem_used_pct", F2(s.memUsedPct)),
      Member("mem_total_kb", Int(s.memTotalKb)),
      Member("mem_available_kb", Int(s.memAvailableKb))])
  }

  function CpuValue(s: Snapshot): Value {
    Obj([
      Member("psi_valid", Bool(s.cpuPsiValid)),
      Member("psi_some_avg10", F2(s.cpuPsiAvg10)),
      Member("psi_some_avg60", F2(s.cpuPsiAvg60)),
      Member("psi_some_avg300", F2(s.cpuPsiAvg300)),
      Member("load1", F2(s.load1)),
      Member("load5", F2(s.load5)),
      Member("load15", F2(s.load15)),
      Member("runnable", Int(s.runnableProcs)),
      Member("total", Int(s.totalProcs))])
  }

  function ProcessesValue(s: Snapshot): Value {
    Obj([
      Member("seen", Int(s.processesSeen)),
      Member("protected", Int(s.processesProtected)),
      Member("assigned", Int(s.processesAssigned)),
      Member("unmanaged", Int(s.processesUnmanaged)),
      Member("hyprland_connected", Bool(s.hyprlandConnected))])
  }

  function UnmanagedValue(u: UnmanagedProc): Value {
    Obj([
      Member("pid", Int(u.pid)),
      Member("comm", Str(u.comm)),
      Member("cpu_pct", F2(u.cpuPct)),
      Member("mem_mb", Int(Mebibytes(u.rssKb))),
      Member("reason", Str(u.reason))])
  }

  function ActionValue(s: Snapshot): Value {
    if s.hasLastAction && s.lastAction != "" then
      Obj([
        Member("decision", Str(s.lastAction)),
        Member("target", Str(s.lastActionTarget)),
        Member("pid", Int(s.lastActionPid))])
    else Null
  }

  function WorkloadValue(w: TelemetryWorkload): Value {
    Obj([
      Member("id", Int(w.id)),
      Member("pid", Int(w.rootPid)),
      Member("workspace", Int(w.workspaceId)),
      Member("name", Str(w.name)),
      Member("type", Str(w.kind)),
      Member("state", Str(w.state)),
      Member("pids", Int(w.pidCount)),
      Member("mem_mb", Int(Mebibytes(w.memKb))),
      Member("cpu_pct", F2(w.cpuPct)),
      Member("observed", Bool(w.observed))])
  }

  function UnmanagedValues(us: seq<UnmanagedProc>): seq<Value> {
    if us == [] then [] else UnmanagedValues(us[..|us| - 1]) + [UnmanagedValue(us[|us| - 1])]
  }

  function WorkloadValues(ws: seq<TelemetryWorkload>): seq<Value> {
    if ws == [] then [] else WorkloadValues(ws[..|ws| - 1]) + [WorkloadValue(ws[|ws| - 1])]
  }

  function SnapshotValue(s: Snapshot): Value {
    Obj([
      Member("version", Str(s.version)),
      Member("timestamp_ms", Int(s.timestampMs)),
      Member("uptime_seconds", Int(s.uptimeSeconds)),
      Member("pressure", PressureValue(s)),
      Member("cpu", CpuValue(s)),
      Member("governor", Str(s.governor)),
      Member("workload_count", Int(s.workloadCount)),
      Member("active_workloads", Int(s.activeWorkloads)),
      Member("classified_workloads", Int(s.classifiedWorkloads)),
      Member("observed_workloads", Int(s.observedWorkloads)),
      Member("processes", ProcessesValue(s)),
      Member("top_unmanaged", Arr(UnmanagedValues(s.topUnmanaged))),
      Member("last_action", ActionValue(s)),
      Member("workloads", Arr(WorkloadValues(s.workloads)))])
  }

  // ---------- Text as it grows ----------

  lemma {:induction false} MemberAppends(ms: seq<Member>, m: Member)
    ensures PrintMembers(ms + [m]) ==
            if ms == [] then PrintMember(m) else PrintMembers(ms) + "," + PrintMember(m)
    decreases |ms|
  {
    hide PrintMember;
    if ms == [] {
      assert ms + [m] == [m];
    } else {
      MemberAppends(ms[1..], m);
      assert (ms + [m])[1..] == ms[1..] + [m];
      assert |ms| == 1 ==> ms[1..] == [];
    }
  }

  lemma {:induction false} ItemAppends(items: seq<Value>, v: Value)
    ensures PrintItems(items + [v]) == if items == [] then Print(v) else PrintItems(items) + "," + Print(v)
    decreases |items|
  {
    hide Print;
    if items == [] {
      assert items + [v] == [v];
    } else {
      ItemAppends(items[1..], v);
      assert (items + [v])[1..] == items[1..] + [v];
      assert |items| == 1 ==> items[1..] == [];
    }
  }

  /** Nothing in s needs an escape. */
  predicate IsPlain(s: string) {
    forall k :: 0 <= k < |s| ==> s[k] >= ' ' && s[k] != '"' && s[k] != '\\'
  }

  lemma {:induction false} PlainStays(s: string)
    requires IsPlain(s)
    ensures Escaped(s) == s
  {
    if s == "" {
    } else {
      PlainStays(s[1..]);
      assert [s[0]] + s[1..] == s;
    }
  }

  /** The text of an object whose last members are still missing. */
  function Open(ms: seq<Member>): string { "{" + PrintMembers(ms) }

  lemma MemberText(key: string, v: Value)
    requires IsPlain(key)
    ensures PrintMember(Member(key, v)) == "\"" + key + "\":" + Print(v)
  {
    hide Print, IsPlain;
    PlainStays(key);
  }

  // ---------- Serialization ----------

  /** Escapes quotes, backslashes and control bytes. */
  method Esc(s: string) returns (out: string)
    ensures out == Escaped(s)
  {
    hide Escaped, EscapedChar;
    out := "";
    EscapeStarts(s);
    for k := 0 to |s|
      invariant out + Escaped(s[k..]) == Escaped(s)
    {
      EscapeSteps(out, s, k);
      var piece := EscChar(s[k]);
      out := out + piece;
    }
    EscapeEnds(out, s);
  }

  lemma EscapeStarts(s: string)
    ensures "" + Escaped(s[0..]) == Escaped(s)
  {
    assert s[0..] == s;
  }

  lemma EscapeSteps(done: string, s: string, k: nat)
    requires k < |s|
    ensures done + Escaped(s[k..]) == (done + EscapedChar(s[k])) + Escaped(s[k + 1..])
  {
    hide EscapedChar;
    assert s[k..][0] == s[k] && s[k..][1..] == s[k + 1..];
  }

  lemma EscapeEnds(done: string, s: string)
    ensures done + Escaped(s[|s|..]) == done
  {}

  method EscChar(c: char) returns (piece: string)
    ensures piece == EscapedChar(c)
  {
    match c {
      case '"' => piece := "\\\"";
      case '\\' => piece := "\\\\";
      case '\n' => piece := "\\n";
      case '\r' => piece := "\\r";
      case '\t' => piece := "\\t";
      case _ =>
        if c as int < 0x20 {
          piece := "\\u00" + HexPair(c as int);
        } else {
          piece := [c];
        }
    }
  }

  method QuotedText(s: string) returns (t: string)
    ensures t == Print(Str(s)) && WellFormed(Str(s))
  {
    t := Esc(s);
    t := "\"" + t + "\"";
  }

  function IntSpelling(n: int): (t: string)
    ensures t == Print(Int(n)) && WellFormed(Int(n))
  {
    IntTextIsNumber(n);
    IntText(n)
  }

  function FixedSpelling(x: Fixed): (t: string)
    ensures t == Print(F2(x)) && WellFormed(F2(x))
  {
    FixedTextIsNumber(x);
    FixedText(x)
  }

  function BoolSpelling(b: bool): (t: string)
    ensures t == Print(Bool(b)) && WellFormed(Bool(b))
  {
    if b then "true" else "false"
  }

  /** The opening brace and the first member of an object. */
  method FirstField(key: string, text: string, ghost v: Value) returns (o: string, ghost ms: seq<Member>)
    requires IsPlain(key) && text == Print(v) && WellFormed(v)
    ensures ms == [Member(key, v)] && o == Open(ms) && WellFormed(Obj(ms))
  {
    hide Print, IsPlain;
    o := "{\"" + key + "\":" + text;
    ms := [Member(key, v)];
    MemberText(key, v);
  }

  /** Any further member. */
  method NextField(o: string, key: string, text: string, ghost before: seq<Member>, ghost v: Value)
    returns (r: string, ghost ms: seq<Member>)
    requires before != [] && o == Open(before) && WellFormed(Obj(before))
    requires IsPlain(key) && text == Print(v) && WellFormed(v)
    ensures ms == before + [Member(key, v)] && r == Open(ms) && WellFormed(Obj(ms))
  {
    hide Print, IsPlain, PrintMembers, PrintMember;
    r := o + ",\"" + key + "\":" + text;
    ms := before + [Member(key, v)];
    MemberText(key, v);
    MemberAppends(before, Member(key, v));
  }

  /** The closing brace. */
  method Close(o: string, ghost ms: seq<Member>) returns (r: string)
    requires o == Open(ms)
    ensures r == Print(Obj(ms))
  {
    hide PrintMembers;
    r := o + "}";
  }

  lemma PressureKeys()
    ensures IsPlain("level") && IsPlain("psi_some_avg10") && IsPlain("psi_full_avg10") && IsPlain("mem_used_pct")
    ensures IsPlain("mem_total_kb") && IsPlain("mem_available_kb")
  {}

  method WritePressure(s: Snapshot) returns (o: string)
    ensures o == Print(PressureValue(s)) && WellFormed(PressureValue(s))
  {
    hide Print, IsPlain, F2, Int, Open, IntSpelling, FixedSpelling, BoolSpelling, WellFormed;
    PressureKeys();
    ghost var ms;
    {
      hide *;
      var pressureLevel := QuotedText(s.pressureLevel);
      o, ms := FirstField("level", pressureLevel, Str(s.pressureLevel));
      o, ms := NextField(o, "psi_some_avg10", FixedSpelling(s.psiSomeAvg10), ms, F2(s.psiSomeAvg10));
      o, ms := NextField(o, "psi_full_avg10", FixedSpelling(s.psiFullAvg10), ms, F2(s.psiFullAvg10));
      o, ms := NextField(o, "mem_used_pct", FixedSpelling(s.memUsedPct), ms, F2(s.memUsedPct));
      o, ms := NextField(o, "mem_total_kb", IntSpelling(s.memTotalKb), ms, Int(s.memTotalKb));
      o, ms := NextField(o, "mem_available_kb", IntSpelling(s.memAvailableKb), ms, Int(s.memAvailableKb));
      o := Close(o, ms);
    }
    assert PressureValue(s) == Obj(ms);
  }

  lemma CpuKeys()
    ensures IsPlain("psi_valid") && IsPlain("psi_some_avg10") && IsPlain("psi_some_avg60") && IsPlain("psi_some_avg300")
  {}

  lemma LoadKeys()
    ensures IsPlain("load1") && IsPlain("load5") && IsPlain("load15") && IsPlain("runnable") && IsPlain("total")
  {}

  method WriteCpu(s: Snapshot) returns (o: string)
    ensures o == Print(CpuValue(s)) && WellFormed(CpuValue(s))
  {
    hide Print, IsPlain, F2, Int, Open, IntSpelling, FixedSpelling, BoolSpelling, WellFormed;
    CpuKeys();
    LoadKeys();
    ghost var ms;
    {
      hide *;
      o, ms := FirstField("psi_valid", BoolSpelling(s.cpuPsiValid), Bool(s.cpuPsiValid));
      o, ms := NextField(o, "psi_some_avg10", FixedSpelling(s.cpuPsiAvg10), ms, F2(s.cpuPsiAvg10));
      o, ms := NextField(o, "psi_some_avg60", FixedSpelling(s.cpuPsiAvg60), ms, F2(s.cpuPsiAvg60));
      o, ms := NextField(o, "psi_some_avg300", FixedSpelling(s.cpuPsiAvg300), ms, F2(s.cpuPsiAvg300));
      o, ms := NextField(o, "load1", FixedSpelling(s.load1), ms, F2(s.load1));
      o, ms := NextField(o, "load5", FixedSpelling(s.load5), ms, F2(s.load5));
      o, ms := NextField(o, "load15", FixedSpelling(s.load15), ms, F2(s.load15));
      o, ms := NextField(o, "runnable", IntSpelling(s.runnableProcs), ms, Int(s.runnableProcs));
      o, ms := NextField(o, "total", IntSpelling(s.totalProcs), ms, Int(s.totalProcs));
      o := Close(o, ms);
    }
    assert CpuValue(s) == Obj(ms);
  }

  lemma ProcessesKeys()
    ensures IsPlain("seen") && IsPlain("protected") && IsPlain("assigned") && IsPlain("unmanaged")
    ensures IsPlain("hyprland_connected")
  {}

  method WriteProcesses(s: Snapshot) returns (o: string)
    ensures o == Print(ProcessesValue(s)) && WellFormed(ProcessesValue(s))
  {
    hide Print, IsPlain, F2, Int, Open, IntSpelling, FixedSpelling, BoolSpelling, WellFormed;
    ProcessesKeys();
    ghost var ms;
    {
      hide *;
      o, ms := FirstField("seen", IntSpelling(s.processesSeen), Int(s.processesSeen));
      o, ms := NextField(o, "protected", IntSpelling(s.processesProtected), ms, Int(s.processesProtected));
      o, ms := NextField(o, "assigned", IntSpelling(s.processesAssigned), ms, Int(s.processesAssigned));
      o, ms := NextField(o, "unmanaged", IntSpelling(s.processesUnmanaged), ms, Int(s.processesUnmanaged));
      o, ms := NextField(o, "hyprland_connected", BoolSpelling(s.hyprlandConnected), ms, Bool(s.hyprlandConnected));
      o := Close(o, ms);
    }
    assert ProcessesValue(s) == Obj(ms);
  }

  lemma UnmanagedKeys()
    ensures IsPlain("pid") && IsPlain("comm") && IsPlain("cpu_pct") && IsPlain("mem_mb")
    ensures IsPlain("reason")
  {}

  method WriteUnmanaged(u: UnmanagedProc) returns (o: string)
    ensures o == Print(UnmanagedValue(u)) && WellFormed(UnmanagedValue(u))
  {
    hide Print, IsPlain, F2, Int, Open, IntSpelling, FixedSpelling, BoolSpelling, WellFormed;
    UnmanagedKeys();
    ghost var ms;
    {
      hide *;
      o, ms := FirstField("pid", IntSpelling(u.pid), Int(u.pid));
      var comm := QuotedText(u.comm);
      o, ms := NextField(o, "comm", comm, ms, Str(u.comm));
      o, ms := NextField(o, "cpu_pct", FixedSpelling(u.cpuPct), ms, F2(u.cpuPct));
      o, ms := NextField(o, "mem_mb", IntSpelling(Mebibytes(u.rssKb)), ms, Int(Mebibytes(u.rssKb)));
      var reason := QuotedText(u.reason);
      o, ms := NextField(o, "reason", reason, ms, Str(u.reason));
      o := Close(o, ms);
    }
    assert UnmanagedValue(u) == Obj(ms);
  }

  lemma WorkloadKeys()
    ensures IsPlain("id") && IsPlain("pid") && IsPlain("workspace") && IsPlain("name")
    ensures IsPlain("type") && IsPlain("state") && IsPlain("pids") && IsPlain("mem_mb")
    ensures IsPlain("cpu_pct") && IsPlain("observed")
  {}

  method WriteWorkload(w: TelemetryWorkload) returns (o: string)
    ensures o == Print(WorkloadValue(w)) && WellFormed(WorkloadValue(w))
  {
    hide Print, IsPlain, F2, Int, Open, IntSpelling, FixedSpelling, BoolSpelling, WellFormed;
    WorkloadKeys();
    ghost var ms;
    {
      hide *;
      o, ms := FirstField("id", IntSpelling(w.id), Int(w.id));
      o, ms := NextField(o, "pid", IntSpelling(w.rootPid), ms, Int(w.rootPid));
      o, ms := NextField(o, "workspace", IntSpelling(w.workspaceId), ms, Int(w.workspaceId));
      var name := QuotedText(w.name);
      o, ms := NextField(o, "name", name, ms, Str(w.name));
      var kind := QuotedText(w.kind);
      o, ms := NextField(o, "type", kind, ms, Str(w.kind));
      var state := QuotedText(w.state);
      o, ms := NextField(o, "state", state, ms, Str(w.state));
      o, ms := NextField(o, "pids", IntSpelling(w.pidCount), ms, Int(w.pidCount));
      o, ms := NextField(o, "mem_mb", IntSpelling(Mebibytes(w.memKb)), ms, Int(Mebibytes(w.memKb)));
      o, ms := NextField(o, "cpu_pct", FixedSpelling(w.cpuPct), ms, F2(w.cpuPct));
      o, ms := NextField(o, "observed", BoolSpelling(w.observed), ms, Bool(w.observed));
      o := Close(o, ms);
    }
    assert WorkloadValue(w) == Obj(ms);
  }

  lemma LastActionKeys()
    ensures IsPlain("decision") && IsPlain("target") && IsPlain("pid")
  {}

  lemma NullText()
    ensures "null" == Print(Null) && WellFormed(Null)
  {}

  method WriteLastAction(s: Snapshot) returns (o: string)
    ensures o == Print(ActionValue(s)) && WellFormed(ActionValue(s))
  {
    hide Print, IsPlain, F2, Int, Open, IntSpelling, FixedSpelling, BoolSpelling, WellFormed;
    LastActionKeys();
    NullText();
    if !s.hasLastAction || s.lastAction == "" {
      return "null";
    }
    ghost var ms;
    {
      hide *;
      var lastAction := QuotedText(s.lastAction);
      o, ms := FirstField("decision", lastAction, Str(s.lastAction));
      var lastActionTarget := QuotedText(s.lastActionTarget);
      o, ms := NextField(o, "target", lastActionTarget, ms, Str(s.lastActionTarget));
      o, ms := NextField(o, "pid", IntSpelling(s.lastActionPid), ms, Int(s.lastActionPid));
      o := Close(o, ms);
    }
    assert ActionValue(s) == Obj(ms);
  }

  lemma NoItems()
    ensures WellFormed(Arr([]))
  {}

  lemma ItemWellFormed(items: seq<Value>, v: Value)
    requires WellFormed(Arr(items)) && WellFormed(v)
    ensures WellFormed(Arr(items + [v]))
  {}

  method WriteTopUnmanaged(xs: seq<UnmanagedProc>) returns (o: string)
    ensures o == Print(Arr(UnmanagedValues(xs))) && WellFormed(Arr(UnmanagedValues(xs)))
  {
    hide WellFormed, Print, PrintItems, UnmanagedValue;
    ghost var items: seq<Value> := [];
    PrintArray(items);
    assert WellFormed(Arr(items)) by { NoItems(); }
    o := "[";
    for i := 0 to |xs|
      invariant items == UnmanagedValues(xs[..i]) && |items| == i
      invariant o == "[" + PrintItems(items) && WellFormed(Arr(items))
    {
      assert xs[..i + 1][..i] == xs[..i];
      if i > 0 {
        o := o + ",";
      }
      var text := WriteUnmanaged(xs[i]);
      ItemWellFormed(items, UnmanagedValue(xs[i]));
      ItemAppends(items, UnmanagedValue(xs[i]));
      o := o + text;
      items := items + [UnmanagedValue(xs[i])];
    }
    assert xs[..|xs|] == xs;
    PrintArray(items);
    o := o + "]";
  }

  method WriteWorkloads(xs: seq<TelemetryWorkload>) returns (o: string)
    ensures o == Print(Arr(WorkloadValues(xs))) && WellFormed(Arr(WorkloadValues(xs)))
  {
    hide WellFormed, Print, PrintItems, WorkloadValue;
    ghost var items: seq<Value> := [];
    PrintArray(items);
    assert WellFormed(Arr(items)) by { NoItems(); }
    o := "[";
    for i := 0 to |xs|
      invariant items == WorkloadValues(xs[..i]) && |items| == i
      invariant o == "[" + PrintItems(items) && WellFormed(Arr(items))
    {
      assert xs[..i + 1][..i] == xs[..i];
      if i > 0 {
        o := o + ",";
      }
      var text := WriteWorkload(xs[i]);
      ItemWellFormed(items, WorkloadValue(xs[i]));
      ItemAppends(items, WorkloadValue(xs[i]));
      o := o + text;
      items := items + [WorkloadValue(xs[i])];
    }
    assert xs[..|xs|] == xs;
    PrintArray(items);
    o := o + "]";
  }

  lemma LeadingKeys()
    ensures IsPlain("version") && IsPlain("timestamp_ms") && IsPlain("uptime_seconds")
    ensures IsPlain("pressure") && IsPlain("cpu")
  {}

  lemma CountKeys()
    ensures IsPlain("governor") && IsPlain("workload_count") && IsPlain("active_workloads")
    ensures IsPlain("classified_workloads") && IsPlain("observed_workloads")
  {}

  lemma ClosingKeys()
    ensures IsPlain("processes") && IsPlain("top_unmanaged") && IsPlain("last_action")
    ensures IsPlain("workloads")
  {}

  /** The published text, and what a reader of it gets: exactly what the snapshot says, whatever bytes its strings
      hold. */
  method SerializeSnapshot(s: Snapshot) returns (o: string)
    ensures o == Print(SnapshotValue(s))
    ensures Parse(o) == Some(SnapshotValue(s))
  {
    LeadingKeys();
    CountKeys();
    ClosingKeys();
    ghost var ms;
    {
      hide *;
      var version := QuotedText(s.version);
      o, ms := FirstField("version", version, Str(s.version));
      o, ms := NextField(o, "timestamp_ms", IntSpelling(s.timestampMs), ms, Int(s.timestampMs));
      o, ms := NextField(o, "uptime_seconds", IntSpelling(s.uptimeSeconds), ms, Int(s.uptimeSeconds));
      var pressure := WritePressure(s);
      o, ms := NextField(o, "pressure", pressure, ms, PressureValue(s));
      var cpu := WriteCpu(s);
      o, ms := NextField(o, "cpu", cpu, ms, CpuValue(s));
      var governor := QuotedText(s.governor);
      o, ms := NextField(o, "governor", governor, ms, Str(s.governor));
      o, ms := NextField(o, "workload_count", IntSpelling(s.workloadCount), ms, Int(s.workloadCount));
      o, ms := NextField(o, "active_workloads", IntSpelling(s.activeWorkloads), ms, Int(s.activeWorkloads));
      o, ms := NextField(o, "classified_workloads", IntSpelling(s.classifiedWorkloads), ms, Int(s.classifiedWorkloads));
      o, ms := NextField(o, "observed_workloads", IntSpelling(s.observedWorkloads), ms, Int(s.observedWorkloads));
      var processes := WriteProcesses(s);
      o, ms := NextField(o, "processes", processes, ms, ProcessesValue(s));
      var topUnmanaged := WriteTopUnmanaged(s.topUnmanaged);
      o, ms := NextField(o, "top_unmanaged", topUnmanaged, ms, Arr(UnmanagedValues(s.topUnmanaged)));
      var lastAction := WriteLastAction(s);
      o, ms := NextField(o, "last_action", lastAction, ms, ActionValue(s));
      var workloads := WriteWorkloads(s.workloads);
      o, ms := NextField(o, "workloads", workloads, ms, Arr(WorkloadValues(s.workloads)));
      o := Close(o, ms);
    }
    hide Print, IsPlain, F2, Int, Open, IntSpelling, FixedSpelling, BoolSpelling, WellFormed, Parse;
    assert SnapshotValue(s) == Obj(ms);
    PrintRoundTrip(Obj(ms));
  }

  // ---------- What two equal texts mean ----------

  lemma NatTextIsInjective(m: nat, n: nat)
    requires NatText(m) == NatText(n)
    ensures m == n
  {
    hide NatText;
    NatTextReads(m);
    NatTextReads(n);
  }

  lemma IntTextIsInjective(m: int, n: int)
    requires IntText(m) == IntText(n)
    ensures m == n
  {
    hide NatText, Decimal;
    var a, b := if m < 0 then -m else m, if n < 0 then -n else n;
    NatTextReads(a);
    NatTextReads(b);
    assert NatText(a)[0] != '-' && NatText(b)[0] != '-';
    assert IntText(m) == (if m < 0 then "-" else "") + NatText(a);
    assert IntText(n) == (if n < 0 then "-" else "") + NatText(b);
    assert m < 0 ==> IntText(m)[0] == '-' && IntText(m)[1..] == NatText(a);
    assert n < 0 ==> IntText(n)[0] == '-' && IntText(n)[1..] == NatText(b);
    NatTextIsInjective(a, b);
  }

  lemma ObjectOf(members: seq<Member>)
    requires forall k :: 0 <= k < |members| ==> WellFormed(members[k].value)
    ensures WellFormed(Obj(members))
  {}

  lemma ScalarsAreWellFormed()
    ensures (forall n :: WellFormed(Int(n))) && (forall x :: WellFormed(F2(x)))
    ensures (forall s :: WellFormed(Str(s))) && (forall b :: WellFormed(Bool(b))) && WellFormed(Null)
  {
    forall n ensures WellFormed(Int(n)) { IntTextIsNumber(n); }
    forall x ensures WellFormed(F2(x)) { FixedTextIsNumber(x); }
  }

  lemma PartsAreWellFormed(s: Snapshot)
    ensures WellFormed(PressureValue(s)) && WellFormed(CpuValue(s)) && WellFormed(ProcessesValue(s))
    ensures WellFormed(ActionValue(s))
  {
    ScalarsAreWellFormed();
    hide WellFormed, Int, F2;
    ObjectOf(PressureValue(s).members);
    ObjectOf(CpuValue(s).members);
    ObjectOf(ProcessesValue(s).members);
    if ActionValue(s).Obj? { ObjectOf(ActionValue(s).members); }
  }

  lemma UnmanagedIsWellFormed(u: UnmanagedProc)
    ensures WellFormed(UnmanagedValue(u))
  {
    ScalarsAreWellFormed();
    hide WellFormed, Int, F2;
    ObjectOf(UnmanagedValue(u).members);
  }

  lemma WorkloadIsWellFormed(w: TelemetryWorkload)
    ensures WellFormed(WorkloadValue(w))
  {
    ScalarsAreWellFormed();
    hide WellFormed, Int, F2;
    ObjectOf(WorkloadValue(w).members);
  }

  lemma {:induction false} ListsAreWellFormed(us: seq<UnmanagedProc>, ws: seq<TelemetryWorkload>)
    ensures WellFormed(Arr(UnmanagedValues(us))) && WellFormed(Arr(WorkloadValues(ws)))
    decreases |us| + |ws|
  {
    hide UnmanagedValue, WorkloadValue;
    if us != [] {
      ListsAreWellFormed(us[..|us| - 1], ws);
      UnmanagedIsWellFormed(us[|us| - 1]);
    } else if ws != [] {
      ListsAreWellFormed(us, ws[..|ws| - 1]);
      WorkloadIsWellFormed(ws[|ws| - 1]);
    }
  }

  lemma SnapshotIsWellFormed(s: Snapshot)
    ensures WellFormed(SnapshotValue(s))
  {
    ScalarsAreWellFormed();
    PartsAreWellFormed(s);
    ListsAreWellFormed(s.topUnmanaged, s.workloads);
    hide WellFormed, Int, F2, PressureValue, CpuValue, ProcessesValue, ActionValue, UnmanagedValues, WorkloadValues;
    ObjectOf(SnapshotValue(s).members);
  }

  /** Two snapshots print alike if and only if they say the same; with different timestamps they never do. */
  lemma SameTextSameSnapshot(a: Snapshot, b: Snapshot)
    ensures Print(SnapshotValue(a)) == Print(SnapshotValue(b)) <==> SnapshotValue(a) == SnapshotValue(b)
    ensures a.timestampMs != b.timestampMs ==> Print(SnapshotValue(a)) != Print(SnapshotValue(b))
  {
    hide SnapshotValue, WellFormed, Print, Parse;
    SnapshotIsWellFormed(a);
    SnapshotIsWellFormed(b);
    PrintRoundTrip(SnapshotValue(a));
    PrintRoundTrip(SnapshotValue(b));
    if SnapshotValue(a) == SnapshotValue(b) { TimestampIsSaid(a, b); }
  }

  lemma TimestampIsSaid(a: Snapshot, b: Snapshot)
    requires SnapshotValue(a) == SnapshotValue(b)
    ensures a.timestampMs == b.timestampMs
  {
    assert SnapshotValue(a).members[1] == SnapshotValue(b).members[1];
    IntTextIsInjective(a.timestampMs, b.timestampMs);
  }

  // ---------- Publishing ----------

  /** How the file system answers one write: whether the temporary file could be opened and flushed, whether it could
      be renamed over the published one, and how much a direct write got through otherwise. */
  datatype Outcome = Outcome(created: bool, flushed: bool, renamed: bool, reopened: bool, written: nat)

  class TelemetryPublisher {
    var lastPayload: string
    var lastWriteMs: int
    /** The snapshot the last payload was made from. */
    ghost var lastSnapshot: Option<Snapshot>
    /** What a reader of the published path finds; None before the first write. */
    var published: Option<string>

    constructor ()
      ensures Remembers() && lastPayload == "" && lastWriteMs == 0 && published == None
    {
      lastPayload, lastWriteMs, published, lastSnapshot := "", 0, None, None;
    }

    ghost predicate Remembers()
      reads this
    {
      lastPayload == if lastSnapshot == None then "" else Print(SnapshotValue(lastSnapshot.value))
    }

    /** What is published is the last payload this object recorded. */
    ghost predicate InStep()
      reads this
    {
      published == if lastPayload == "" then None else Some(lastPayload)
    }

    /** An unchanged snapshot is not written again before the interval is over; its timestamp is part of it, so that
        the interval holds back nothing once time has moved on. Readers move from one complete snapshot to the next,
        never seeing a partial one, unless the rename fails. */
    method Publish(snap: Snapshot, minInterval: int, now: int, io: Outcome)
      modifies this
      ensures var due := old(lastPayload) != Print(SnapshotValue(snap)) || now - old(lastWriteMs) >= minInterval;
              if due && io.created && io.flushed
              then lastPayload == Print(SnapshotValue(snap)) && lastWriteMs == now
              else unchanged(this)
      ensures var due := old(lastSnapshot) == None || now - old(lastWriteMs) >= minInterval ||
                         SnapshotValue(old(lastSnapshot).value) != SnapshotValue(snap);
              old(Remembers()) ==>
                Remembers() && lastSnapshot == if due && io.created && io.flushed then Some(snap) else old(lastSnapshot)
      ensures old(Remembers()) && io.created && io.flushed && old(lastSnapshot).Some? &&
                old(lastSnapshot).value.timestampMs != snap.timestampMs ==>
                lastPayload == Print(SnapshotValue(snap)) && lastWriteMs == now
      ensures old(InStep()) && (io.renamed || (io.reopened && io.written >= |lastPayload|)) ==> InStep()
      ensures io.renamed && published.Some? && published != old(published) ==>
                Parse(published.value) == Some(SnapshotValue(snap))
      ensures !io.renamed && published != old(published) ==>
                io.reopened && published == Some(Clipped(lastPayload, io.written))
    {
      hide Print, SnapshotValue, Parse;
      var payload := SerializeSnapshot(snap);
      NotEmpty(snap);
      if lastSnapshot.Some? { SameTextSameSnapshot(lastSnapshot.value, snap); }
      if payload == lastPayload && now - lastWriteMs < minInterval {
        return;
      }
      if !io.created || !io.flushed {
        return;
      }
      if io.renamed {
        published := Some(payload);
      } else if io.reopened {
        published := Some(Clipped(payload, io.written));
      }
      lastPayload, lastWriteMs, lastSnapshot := payload, now, Some(snap);
    }
  }

  lemma NotEmpty(s: Snapshot)
    ensures Print(SnapshotValue(s)) != ""
  {
    hide PrintMembers;
  }
}
