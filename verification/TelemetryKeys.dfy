/** What a reader finds in a published snapshot: under each key exactly the field it names. */
module TelemetryKeys {
  import opened Json
  import opened TelemetryPublishing
  import opened Types

  /** The value of the first member with the key. */
  function Field(members: seq<Member>, key: string): Option<Value> {
    if members == [] then None
    else if members[0].key == key then Some(members[0].value)
    else Field(members[1..], key)
  }

  ghost predicate KeysDiffer(members: seq<Member>) {
    forall i, j :: 0 <= i < j < |members| ==> members[i].key != members[j].key
  }

  lemma {:induction false} FieldAt(members: seq<Member>, k: nat, key: string)
    requires KeysDiffer(members) && k < |members| && members[k].key == key
    ensures Field(members, key) == Some(members[k].value)
  {
    if k > 0 {
      FieldAt(members[1..], k - 1, key);
      assert members[1..][k - 1] == members[k];
    }
  }

  function Lengths(members: seq<Member>): (lengths: seq<nat>)
    ensures |lengths| == |members|
  {
    seq(|members|, i requires 0 <= i < |members| => |members[i].key|)
  }

  /** Keys of one length that differ at a place settle the rest. */
  lemma DifferByLength(members: seq<Member>, lengths: seq<nat>)
    requires Lengths(members) == lengths
    requires forall i, j :: 0 <= i < j < |members| && lengths[i] == lengths[j] ==> members[i].key != members[j].key
    ensures KeysDiffer(members)
  {
    forall i, j | 0 <= i < j < |members| ensures members[i].key != members[j].key {
      assert Lengths(members)[i] == |members[i].key| && Lengths(members)[j] == |members[j].key|;
    }
  }

  lemma PressureLengths(s: Snapshot)
    ensures Lengths(PressureValue(s).members) == [5, 14, 14, 12, 12, 16]
  {
    hide F2;
  }

  lemma PressureClashes(s: Snapshot, members: seq<Member>)
    requires members == PressureValue(s).members
    ensures members[1].key != members[2].key
    ensures members[3].key != members[4].key
  {
    hide F2;
    assert members[1].key[4] != members[2].key[4];
    assert members[3].key[4] != members[4].key[4];
  }

  lemma PressureKeysDiffer(s: Snapshot, members: seq<Member>)
    requires members == PressureValue(s).members
    ensures KeysDiffer(members)
  {
    hide *;
    PressureLengths(s);
    PressureClashes(s, members);
    DifferByLength(members, [5, 14, 14, 12, 12, 16]);
  }

  lemma PressureFirstFields(s: Snapshot)
    ensures Field(PressureValue(s).members, "level") == Some(Str(s.pressureLevel))
    ensures Field(PressureValue(s).members, "psi_some_avg10") == Some(F2(s.psiSomeAvg10))
    ensures Field(PressureValue(s).members, "psi_full_avg10") == Some(F2(s.psiFullAvg10))
    ensures Field(PressureValue(s).members, "mem_used_pct") == Some(F2(s.memUsedPct))
    ensures Field(PressureValue(s).members, "mem_total_kb") == Some(Int(s.memTotalKb))
  {
    hide KeysDiffer, Field, F2;
    var members := PressureValue(s).members;
    PressureKeysDiffer(s, members);
    FieldAt(members, 0, "level");
    FieldAt(members, 1, "psi_some_avg10");
    FieldAt(members, 2, "psi_full_avg10");
    FieldAt(members, 3, "mem_used_pct");
    FieldAt(members, 4, "mem_total_kb");
  }

  lemma PressureLastFields(s: Snapshot)
    ensures Field(PressureValue(s).members, "mem_available_kb") == Some(Int(s.memAvailableKb))
  {
    hide KeysDiffer, Field, F2;
    var members := PressureValue(s).members;
    PressureKeysDiffer(s, members);
    FieldAt(members, 5, "mem_available_kb");
  }

  lemma CpuLengths(s: Snapshot)
    ensures Lengths(CpuValue(s).members) == [9, 14, 14, 15, 5, 5, 6, 8, 5]
  {
    hide F2;
  }

  lemma CpuClashes(s: Snapshot, members: seq<Member>)
    requires members == CpuValue(s).members
    ensures members[1].key != members[2].key
    ensures members[4].key != members[5].key
    ensures members[4].key != members[8].key
    ensures members[5].key != members[8].key
  {
    hide F2;
    assert members[1].key[12] != members[2].key[12];
    assert members[4].key[4] != members[5].key[4];
    assert members[4].key[0] != members[8].key[0];
    assert members[5].key[0] != members[8].key[0];
  }

  lemma CpuKeysDiffer(s: Snapshot, members: seq<Member>)
    requires members == CpuValue(s).members
    ensures KeysDiffer(members)
  {
    hide *;
    CpuLengths(s);
    CpuClashes(s, members);
    DifferByLength(members, [9, 14, 14, 15, 5, 5, 6, 8, 5]);
  }

  lemma CpuFirstFields(s: Snapshot)
    ensures Field(CpuValue(s).members, "psi_valid") == Some(Bool(s.cpuPsiValid))
    ensures Field(CpuValue(s).members, "psi_some_avg10") == Some(F2(s.cpuPsiAvg10))
    ensures Field(CpuValue(s).members, "psi_some_avg60") == Some(F2(s.cpuPsiAvg60))
    ensures Field(CpuValue(s).members, "psi_some_avg300") == Some(F2(s.cpuPsiAvg300))
    ensures Field(CpuValue(s).members, "load1") == Some(F2(s.load1))
  {
    hide KeysDiffer, Field, F2;
    var members := CpuValue(s).members;
    CpuKeysDiffer(s, members);
    FieldAt(members, 0, "psi_valid");
    FieldAt(members, 1, "psi_some_avg10");
    FieldAt(members, 2, "psi_some_avg60");
    FieldAt(members, 3, "psi_some_avg300");
    FieldAt(members, 4, "load1");
  }

  lemma CpuLastFields(s: Snapshot)
    ensures Field(CpuValue(s).members, "load5") == Some(F2(s.load5))
    ensures Field(CpuValue(s).members, "load15") == Some(F2(s.load15))
    ensures Field(CpuValue(s).members, "runnable") == Some(Int(s.runnableProcs))
    ensures Field(CpuValue(s).members, "total") == Some(Int(s.totalProcs))
  {
    hide KeysDiffer, Field, F2;
    var members := CpuValue(s).members;
    CpuKeysDiffer(s, members);
    FieldAt(members, 5, "load5");
    FieldAt(members, 6, "load15");
    FieldAt(members, 7, "runnable");
    FieldAt(members, 8, "total");
  }

  lemma ProcessesLengths(s: Snapshot)
    ensures Lengths(ProcessesValue(s).members) == [4, 9, 8, 9, 18]
  {
    hide F2;
  }

  lemma ProcessesClashes(s: Snapshot, members: seq<Member>)
    requires members == ProcessesValue(s).members
    ensures members[1].key != members[3].key
  {
    hide F2;
    assert members[1].key[0] != members[3].key[0];
  }

  lemma ProcessesKeysDiffer(s: Snapshot, members: seq<Member>)
    requires members == ProcessesValue(s).members
    ensures KeysDiffer(members)
  {
    hide *;
    ProcessesLengths(s);
    ProcessesClashes(s, members);
    DifferByLength(members, [4, 9, 8, 9, 18]);
  }

  lemma ProcessesFields(s: Snapshot)
    ensures Field(ProcessesValue(s).members, "seen") == Some(Int(s.processesSeen))
    ensures Field(ProcessesValue(s).members, "protected") == Some(Int(s.processesProtected))
    ensures Field(ProcessesValue(s).members, "assigned") == Some(Int(s.processesAssigned))
    ensures Field(ProcessesValue(s).members, "unmanaged") == Some(Int(s.processesUnmanaged))
    ensures Field(ProcessesValue(s).members, "hyprland_connected") == Some(Bool(s.hyprlandConnected))
  {
    hide KeysDiffer, Field, F2;
    var members := ProcessesValue(s).members;
    ProcessesKeysDiffer(s, members);
    FieldAt(members, 0, "seen");
    FieldAt(members, 1, "protected");
    FieldAt(members, 2, "assigned");
    FieldAt(members, 3, "unmanaged");
    FieldAt(members, 4, "hyprland_connected");
  }

  lemma UnmanagedLengths(u: UnmanagedProc)
    ensures Lengths(UnmanagedValue(u).members) == [3, 4, 7, 6, 6]
  {
    hide F2;
  }

  lemma UnmanagedClashes(u: UnmanagedProc, members: seq<Member>)
    requires members == UnmanagedValue(u).members
    ensures members[3].key != members[4].key
  {
    hide F2;
    assert members[3].key[0] != members[4].key[0];
  }

  lemma UnmanagedKeysDiffer(u: UnmanagedProc, members: seq<Member>)
    requires members == UnmanagedValue(u).members
    ensures KeysDiffer(members)
  {
    hide *;
    UnmanagedLengths(u);
    UnmanagedClashes(u, members);
    DifferByLength(members, [3, 4, 7, 6, 6]);
  }

  lemma UnmanagedFields(u: UnmanagedProc)
    ensures Field(UnmanagedValue(u).members, "pid") == Some(Int(u.pid))
    ensures Field(UnmanagedValue(u).members, "comm") == Some(Str(u.comm))
    ensures Field(UnmanagedValue(u).members, "cpu_pct") == Some(F2(u.cpuPct))
    ensures Field(UnmanagedValue(u).members, "mem_mb") == Some(Int(Mebibytes(u.rssKb)))
    ensures Field(UnmanagedValue(u).members, "reason") == Some(Str(u.reason))
  {
    hide KeysDiffer, Field, F2;
    var members := UnmanagedValue(u).members;
    UnmanagedKeysDiffer(u, members);
    FieldAt(members, 0, "pid");
    FieldAt(members, 1, "comm");
    FieldAt(members, 2, "cpu_pct");
    FieldAt(members, 3, "mem_mb");
    FieldAt(members, 4, "reason");
  }

  lemma WorkloadLengths(w: TelemetryWorkload)
    ensures Lengths(WorkloadValue(w).members) == [2, 3, 9, 4, 4, 5, 4, 6, 7, 8]
  {
    hide F2;
  }

  lemma WorkloadClashes(w: TelemetryWorkload, members: seq<Member>)
    requires members == WorkloadValue(w).members
    ensures members[3].key != members[4].key
    ensures members[3].key != members[6].key
    ensures members[4].key != members[6].key
  {
    hide F2;
    assert members[3].key[0] != members[4].key[0];
    assert members[3].key[0] != members[6].key[0];
    assert members[4].key[0] != members[6].key[0];
  }

  lemma WorkloadKeysDiffer(w: TelemetryWorkload, members: seq<Member>)
    requires members == WorkloadValue(w).members
    ensures KeysDiffer(members)
  {
    hide *;
    WorkloadLengths(w);
    WorkloadClashes(w, members);
    DifferByLength(members, [2, 3, 9, 4, 4, 5, 4, 6, 7, 8]);
  }

  lemma WorkloadFirstFields(w: TelemetryWorkload)
    ensures Field(WorkloadValue(w).members, "id") == Some(Int(w.id))
    ensures Field(WorkloadValue(w).members, "pid") == Some(Int(w.rootPid))
    ensures Field(WorkloadValue(w).members, "workspace") == Some(Int(w.workspaceId))
    ensures Field(WorkloadValue(w).members, "name") == Some(Str(w.name))
    ensures Field(WorkloadValue(w).members, "type") == Some(Str(w.kind))
  {
    hide KeysDiffer, Field, F2;
    var members := WorkloadValue(w).members;
    WorkloadKeysDiffer(w, members);
    FieldAt(members, 0, "id");
    FieldAt(members, 1, "pid");
    FieldAt(members, 2, "workspace");
    FieldAt(members, 3, "name");
    FieldAt(members, 4, "type");
  }

  lemma WorkloadLastFields(w: TelemetryWorkload)
    ensures Field(WorkloadValue(w).members, "state") == Some(Str(w.state))
    ensures Field(WorkloadValue(w).members, "pids") == Some(Int(w.pidCount))
    ensures Field(WorkloadValue(w).members, "mem_mb") == Some(Int(Mebibytes(w.memKb)))
    ensures Field(WorkloadValue(w).members, "cpu_pct") == Some(F2(w.cpuPct))
    ensures Field(WorkloadValue(w).members, "observed") == Some(Bool(w.observed))
  {
    hide KeysDiffer, Field, F2;
    var members := WorkloadValue(w).members;
    WorkloadKeysDiffer(w, members);
    FieldAt(members, 5, "state");
    FieldAt(members, 6, "pids");
    FieldAt(members, 7, "mem_mb");
    FieldAt(members, 8, "cpu_pct");
    FieldAt(members, 9, "observed");
  }

  lemma SnapshotLengths(s: Snapshot)
    ensures Lengths(SnapshotValue(s).members) == [7, 12, 14, 8, 3, 8, 14, 16, 20, 18, 9, 13, 11, 9]
  {
    hide PressureValue, CpuValue, ProcessesValue, ActionValue, UnmanagedValues, WorkloadValues;
    hide F2;
  }

  lemma SnapshotClashes(s: Snapshot, members: seq<Member>)
    requires members == SnapshotValue(s).members
    ensures members[2].key != members[6].key
    ensures members[3].key != members[5].key
    ensures members[10].key != members[13].key
  {
    hide PressureValue, CpuValue, ProcessesValue, ActionValue, UnmanagedValues, WorkloadValues;
    hide F2;
    assert members[2].key[0] != members[6].key[0];
    assert members[3].key[0] != members[5].key[0];
    assert members[10].key[0] != members[13].key[0];
  }

  lemma SnapshotKeysDiffer(s: Snapshot, members: seq<Member>)
    requires members == SnapshotValue(s).members
    ensures KeysDiffer(members)
  {
    hide *;
    SnapshotLengths(s);
    SnapshotClashes(s, members);
    DifferByLength(members, [7, 12, 14, 8, 3, 8, 14, 16, 20, 18, 9, 13, 11, 9]);
  }

  lemma SnapshotStampFields(s: Snapshot)
    ensures Field(SnapshotValue(s).members, "version") == Some(Str(s.version))
    ensures Field(SnapshotValue(s).members, "timestamp_ms") == Some(Int(s.timestampMs))
  {
    hide PressureValue, CpuValue, ProcessesValue, ActionValue, UnmanagedValues, WorkloadValues;
    hide KeysDiffer, Field, F2;
    var members := SnapshotValue(s).members;
    SnapshotKeysDiffer(s, members);
    FieldAt(members, 0, "version");
    FieldAt(members, 1, "timestamp_ms");
  }

  lemma SnapshotPressureFields(s: Snapshot)
    ensures Field(SnapshotValue(s).members, "uptime_seconds") == Some(Int(s.uptimeSeconds))
    ensures Field(SnapshotValue(s).members, "pressure") == Some(PressureValue(s))
  {
    hide PressureValue, CpuValue, ProcessesValue, ActionValue, UnmanagedValues, WorkloadValues;
    hide KeysDiffer, Field, F2;
    var members := SnapshotValue(s).members;
    SnapshotKeysDiffer(s, members);
    FieldAt(members, 2, "uptime_seconds");
    FieldAt(members, 3, "pressure");
  }

  lemma SnapshotCpuFields(s: Snapshot)
    ensures Field(SnapshotValue(s).members, "cpu") == Some(CpuValue(s))
    ensures Field(SnapshotValue(s).members, "governor") == Some(Str(s.governor))
  {
    hide PressureValue, CpuValue, ProcessesValue, ActionValue, UnmanagedValues, WorkloadValues;
    hide KeysDiffer, Field, F2;
    var members := SnapshotValue(s).members;
    SnapshotKeysDiffer(s, members);
    FieldAt(members, 4, "cpu");
    FieldAt(members, 5, "governor");
  }

  lemma SnapshotCountFields(s: Snapshot)
    ensures Field(SnapshotValue(s).members, "workload_count") == Some(Int(s.workloadCount))
    ensures Field(SnapshotValue(s).members, "active_workloads") == Some(Int(s.activeWorkloads))
  {
    hide PressureValue, CpuValue, ProcessesValue, ActionValue, UnmanagedValues, WorkloadValues;
    hide KeysDiffer, Field, F2;
    var members := SnapshotValue(s).members;
    SnapshotKeysDiffer(s, members);
    FieldAt(members, 6, "workload_count");
    FieldAt(members, 7, "active_workloads");
  }

  lemma SnapshotProcessFields(s: Snapshot)
    ensures Field(SnapshotValue(s).members, "classified_workloads") == Some(Int(s.classifiedWorkloads))
    ensures Field(SnapshotValue(s).members, "observed_workloads") == Some(Int(s.observedWorkloads))
    ensures Field(SnapshotValue(s).members, "processes") == Some(ProcessesValue(s))
  {
    hide PressureValue, CpuValue, ProcessesValue, ActionValue, UnmanagedValues, WorkloadValues;
    hide KeysDiffer, Field, F2;
    var members := SnapshotValue(s).members;
    SnapshotKeysDiffer(s, members);
    FieldAt(members, 8, "classified_workloads");
    FieldAt(members, 9, "observed_workloads");
    FieldAt(members, 10, "processes");
  }

  lemma SnapshotListFields(s: Snapshot)
    ensures Field(SnapshotValue(s).members, "top_unmanaged") == Some(Arr(UnmanagedValues(s.topUnmanaged)))
    ensures Field(SnapshotValue(s).members, "last_action") == Some(ActionValue(s))
    ensures Field(SnapshotValue(s).members, "workloads") == Some(Arr(WorkloadValues(s.workloads)))
  {
    hide PressureValue, CpuValue, ProcessesValue, ActionValue, UnmanagedValues, WorkloadValues;
    hide KeysDiffer, Field, F2;
    var members := SnapshotValue(s).members;
    SnapshotKeysDiffer(s, members);
    FieldAt(members, 11, "top_unmanaged");
    FieldAt(members, 12, "last_action");
    FieldAt(members, 13, "workloads");
  }
}
