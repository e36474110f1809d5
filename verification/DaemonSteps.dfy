/** What a tick of the daemon does, on values: its inputs, its stages and what each of them keeps. */
module DaemonSteps {
  import opened Sequences
  import opened Types
  import opened StateMachine
  import opened Registry
  import opened Ownership
  import opened Protection
  import opened Enforcement
  import opened Reclaiming
  import opened Guarantees

  const MAX_OBSERVED := 128
  const RETRY_EVERY := 10
  const FIRST_USER_UID := 1000

  /** infra is true for session managers and desktop infrastructure. */
  datatype ProcNode = ProcNode(comm: string, cmdline: string, uid: int, zombie: bool, infra: bool)

  datatype Classification = Classification(
    kind: WorkloadType, aiModifier: bool, latencySensitive: bool, isBrowserRoot: bool)

  datatype WorkspaceFlags = WorkspaceFlags(isFocused: bool, isVisible: bool)

  /** Everything a tick reads from outside. Views are indexed by workload because they are taken anew for each. */
  datatype World = World(
    procs: map<Pid, ProcNode>,
    scan: ProcView,
    classify: Pid -> Classification,
    reclassify: Pid -> Classification,
    treeRoot: Pid -> Pid,
    workspaceOf: Pid -> int,
    workspaces: map<int, WorkspaceFlags>,
    pressure: PressureLevel,
    activities: map<Pid, ActivityState>,
    now: nat,
    evaluate: nat -> ProcView,
    check: nat -> ProcView,
    act: nat -> ProcView,
    moments: nat -> Moments,
    canSpawn: bool,
    existing: set<Pid>)

  const FRESH := Phase(Discovered, 0)

  // ---------- The invariant, on values ----------

  /** Observation-only exactly while unclassified, and without any state that implies authority. */
  ghost predicate WorkloadOk(wl: Workload) {
    !wl.tags.isProtected && (wl.tags.observed <==> wl.tags.kind == Neutral) &&
    (wl.tags.observed ==> !Decayed(wl.phase.state))
  }

  /** The phase is what the recorded inputs lead to; an id carries its record for good. */
  ghost predicate Recorded(cfg: DecayConfig, registry: map<nat, Workload>, nextId: nat,
                           history: map<nat, seq<TickInput>>) {
    (forall id :: id in history ==> id < nextId) &&
    (forall id :: id in registry ==> id in history) && Dated(registry, history) &&
    forall id :: id in registry && registry[id].phase.state != Terminated ==>
      registry[id].phase == Run(cfg, FRESH, history[id])
  }

  /** The inputs of a record count from the last use of the workload it belongs to. */
  ghost predicate Dated(registry: map<nat, Workload>, history: map<nat, seq<TickInput>>) {
    (forall id :: id in history ==> SameOrigin(history[id])) &&
    forall id :: id in registry && id in history && history[id] != [] ==>
      history[id][0].lastActive == registry[id].lastActive
  }

  lemma DatedAfterStep(registry: map<nat, Workload>, history: map<nat, seq<TickInput>>, id: nat, input: TickInput,
                       after: Workload)
    requires Dated(registry, history) && id in registry && id in history
    requires input.lastActive == registry[id].lastActive == after.lastActive
    ensures Dated(registry[id := after], history[id := history[id] + [input]])
  {}

  /** Every listed pid is owned by the workload that lists it; all ids in use have been issued. */
  ghost predicate Listed(registry: map<nat, Workload>, pidToWl: map<Pid, nat>, nextId: nat) {
    nextId > 0 &&
    (forall id :: id in registry ==> 0 < id < nextId && WorkloadOk(registry[id])) &&
    (forall p :: p in pidToWl ==> 0 < pidToWl[p] < nextId) &&
    forall id, p :: id in registry && p in registry[id].pids ==> p in pidToWl && pidToWl[p] == id
  }

  lemma NoSharedPids(registry: map<nat, Workload>, pidToWl: map<Pid, nat>, nextId: nat, i: nat, j: nat, p: Pid)
    requires Listed(registry, pidToWl, nextId)
    requires i in registry && j in registry && p in registry[i].pids && p in registry[j].pids
    ensures i == j
  {
    assert pidToWl[p] == i;
  }

  /** The hysteresis counter of every registered workload is in range, in every reachable state. */
  lemma WindowsInRange(cfg: DecayConfig, registry: map<nat, Workload>, nextId: nat, history: map<nat, seq<TickInput>>,
                       id: nat)
    requires Recorded(cfg, registry, nextId, history) && cfg.hysteresisTicks >= 0
    requires id in registry && registry[id].phase.state != Terminated
    ensures WindowInRange(cfg, registry[id].phase)
  {
    WindowStaysInRange(cfg, FRESH, history[id]);
  }

  predicate IsKill(e: Effect) { e.Signal? && (e.sig == SigTerm || e.sig == SigKill) }

  predicate IsHarsh(e: Effect) { e.Signal? && e.sig != SigCont }

  /** The first n recorded inputs of the sender's workload justify the signal, the last of them included. */
  ghost predicate JustifiedAt(cfg: DecayConfig, history: map<nat, seq<TickInput>>, e: Effect, n: nat)
    requires e.Signal?
  {
    e.onBehalf in history && n <= |history[e.onBehalf]| && Warrants(cfg, history[e.onBehalf][..n], IsKill(e))
  }

  /** sentAt[k] is how long the sender's record was when effect k was sent. What the record said then justifies every
      stop and every kill. */
  ghost predicate SignalsJustified(cfg: DecayConfig, log: seq<Effect>, sentAt: seq<nat>,
                                   history: map<nat, seq<TickInput>>) {
    |sentAt| == |log| &&
    forall k :: 0 <= k < |log| && IsHarsh(log[k]) ==> JustifiedAt(cfg, history, log[k], sentAt[k])
  }

  /** No stop and no kill was ever sent on behalf of a workload that its record calls a service or a VM, or that it
      shows executing, visible or guarded. */
  ghost predicate OnlyQuietSignalled(log: seq<Effect>, sentAt: seq<nat>, history: map<nat, seq<TickInput>>) {
    |sentAt| == |log| &&
    forall k :: 0 <= k < |log| && IsHarsh(log[k]) ==>
      log[k].onBehalf in history && 0 < sentAt[k] <= |history[log[k].onBehalf]| &&
      var input := history[log[k].onBehalf][sentAt[k] - 1];
      input.tags.kind != Service && input.tags.kind != Vm && input.activity != Executing &&
      !input.isFocused && !input.isVisible && !input.guarded && !input.tags.observed && !input.tags.isProtected
  }

  lemma JustifiedIsQuiet(cfg: DecayConfig, log: seq<Effect>, sentAt: seq<nat>, history: map<nat, seq<TickInput>>)
    requires SignalsJustified(cfg, log, sentAt, history)
    ensures OnlyQuietSignalled(log, sentAt, history)
  {
    hide ReclaimHistory;
  }

  function Stamps(count: nat, at: nat): (r: seq<nat>)
    ensures |r| == count && forall k :: 0 <= k < count ==> r[k] == at
  {
    seq(count, _ => at)
  }

  lemma JustifiedForever(cfg: DecayConfig, history: map<nat, seq<TickInput>>, more: map<nat, seq<TickInput>>,
                         e: Effect, n: nat)
    requires e.Signal? && JustifiedAt(cfg, history, e, n)
    requires e.onBehalf in more && history[e.onBehalf] <= more[e.onBehalf]
    ensures JustifiedAt(cfg, more, e, n)
  {
    hide Warrants;
    assert more[e.onBehalf][..n] == history[e.onBehalf][..n];
  }

  /** The stops and kills among the effects from position first on were sent in the tick that now ends the sender's
      record. */
  ghost predicate SignalsAreFresh(log: seq<Effect>, sentAt: seq<nat>, first: nat, history: map<nat, seq<TickInput>>,
                                  done: set<nat>) {
    |sentAt| == |log| &&
    forall k :: first <= k < |log| && IsHarsh(log[k]) ==>
      log[k].onBehalf in done && log[k].onBehalf in history && sentAt[k] == |history[log[k].onBehalf]|
  }

  function ObservedIds(registry: map<nat, Workload>): set<nat> {
    set id | id in registry && registry[id].tags.observed
  }

  lemma FirstIdIsPositive(registry: map<nat, Workload>, pidToWl: map<Pid, nat>, nextId: nat)
    requires Listed(registry, pidToWl, nextId)
    ensures nextId > 0
  {}

  lemma StubsAreConsistent(cfg: DecayConfig, stubs: map<nat, Workload>, pidToWl: map<Pid, nat>, firstId: nat,
                           nextId: nat, history: map<nat, seq<TickInput>>)
    requires 0 < firstId <= nextId && forall id :: id in stubs <==> firstId <= id < nextId
    requires forall id :: id in stubs ==> ColdStub(stubs[id], id)
    requires Partition(pidToWl, stubs)
    requires history == map id | id in stubs :: []
    ensures Listed(stubs, pidToWl, nextId) && Recorded(cfg, stubs, nextId, history)
    ensures |ObservedIds(stubs)| <= MAX_OBSERVED
    ensures forall id :: id in stubs ==> stubs[id].id == id && stubs[id].phase.state != Terminated
  {
    assert ObservedIds(stubs) == {};
  }

  /** A log without records holds no stops and no kills. */
  lemma NoSignalsYet(cfg: DecayConfig, log: seq<Effect>, sentAt: seq<nat>, history: map<nat, seq<TickInput>>)
    requires SignalsJustified(cfg, log, sentAt, map[])
    ensures SignalsJustified(cfg, log, sentAt, history)
  {}

  // ---------- One workload's share of a tick ----------

  function FlagsOf(wl: Workload, w: World): WorkspaceFlags {
    if wl.workspaceId in w.workspaces then w.workspaces[wl.workspaceId] else WorkspaceFlags(false, false)
  }

  /** The input the state machine and the policy get for a workload in this world. */
  ghost function InputOf(wl: Workload, w: World, g: Guard): TickInput {
    var flags := FlagsOf(wl, w);
    InputFor(wl, AnyShielded(g, wl.pids, w.evaluate(wl.id)), flags.isFocused, flags.isVisible,
             Aggregate(wl.pids, w.activities), w.pressure, w.now)
  }

  /** What follows the state transition of a workload: its final value and what was sent to the kernel. */
  ghost predicate Acted(rc: ReclaimConfig, g: Guard, w: World, all: map<nat, Workload>, dryRun: bool,
                        ticked: Workload, input: TickInput, after: Workload, sent: seq<Effect>) {
    if ticked.tags.observed || dryRun then after == ticked && sent == []
    else
      var d := Evaluate(ticked.phase, input);
      if d != Reclaim then after == ticked && sent == Enforced(g, ticked, d, w.check(ticked.id), w.act(ticked.id))
      else
        var m := w.moments(ticked.id);
        sent == Reclaimed(rc, g, ticked, w.activities, all, m) &&
        after == if MayReclaim(rc, g, ticked, w.activities, all, m.first, m.firstNow) &&
                    MayReclaim(rc, g, ticked, w.activities, all, m.again, m.againNow)
                 then ticked.(phase := Phase(Terminated, ticked.phase.hysteresis)) else ticked
  }

  /** The whole effect of ticking one workload. */
  ghost predicate Stepped(cfg: DecayConfig, rc: ReclaimConfig, g: Guard, w: World, all: map<nat, Workload>,
                          dryRun: bool, before: Workload, after: Workload, sent: seq<Effect>) {
    var input := InputOf(before, w, g);
    Acted(rc, g, w, all, dryRun, before.(phase := NextPhase(cfg, before.phase, input)), input, after, sent)
  }

  /** Only the phase of a workload changes in a tick, and an observed one sends nothing. */
  lemma SteppedTouchesOnlyMembers(cfg: DecayConfig, rc: ReclaimConfig, g: Guard, w: World, all: map<nat, Workload>,
                                  dryRun: bool, before: Workload, after: Workload, sent: seq<Effect>)
    requires Stepped(cfg, rc, g, w, all, dryRun, before, after, sent)
    ensures after == before.(phase := after.phase)
    ensures before.tags.observed ==> sent == []
    ensures forall e, p :: e in sent && Touches(e, p) ==> p in before.pids
    ensures forall e :: e in sent ==> Harmless(g, e)
  {
    hide NextPhase, Evaluate, Enforced, Reclaimed, MayReclaim, Harmless, AnyShielded;
    var input := InputOf(before, w, g);
    var ticked := before.(phase := NextPhase(cfg, before.phase, input));
    EnforcedIsContained(g, ticked, Evaluate(ticked.phase, input), w.check(before.id), w.act(before.id));
    ReclaimedIsHarmless(rc, g, ticked, w.activities, all, w.moments(before.id));
  }

  /** A workload whose phase matches its record still does after the tick, with the input appended. */
  lemma SteppedKeepsRecord(cfg: DecayConfig, rc: ReclaimConfig, g: Guard, w: World, all: map<nat, Workload>,
                           dryRun: bool, before: Workload, after: Workload, sent: seq<Effect>, inputs: seq<TickInput>)
    requires Stepped(cfg, rc, g, w, all, dryRun, before, after, sent)
    requires before.phase == Run(cfg, FRESH, inputs) && WorkloadOk(before)
    ensures after.phase.state != Terminated ==> after.phase == Run(cfg, FRESH, inputs + [InputOf(before, w, g)])
    ensures WorkloadOk(after)
    ensures forall e :: e in sent && IsHarsh(e) ==>
              e.onBehalf == before.id && Warrants(cfg, inputs + [InputOf(before, w, g)], IsKill(e))
  {
    hide NextState, NextHysteresis, Evaluate, Enforced, Reclaimed, MayReclaim, Warrants, InputOf;
    var input := InputOf(before, w, g);
    var longer := inputs + [input];
    assert longer[..|longer| - 1] == inputs && longer[|longer| - 1] == input && longer[..|longer|] == longer;
    var ticked := before.(phase := NextPhase(cfg, before.phase, input));
    assert ticked.phase == Run(cfg, FRESH, longer);
    InputTags(before, w, g);
    if before.tags.observed {
      ObservedNeverDecays(cfg, before.phase, input);
    }
    var d := Evaluate(ticked.phase, input);
    EnforcedIsContained(g, ticked, d, w.check(before.id), w.act(before.id));
    ReclaimedIsHarmless(rc, g, ticked, w.activities, all, w.moments(before.id));
    DecisionsAreWarranted(cfg, FRESH, longer);
    forall e | e in sent && IsHarsh(e) ensures e.onBehalf == before.id && Warrants(cfg, longer, IsKill(e)) {
      if d != Reclaim { OnlyFreezeStops(g, ticked, d, w.check(before.id), w.act(before.id), e); }
    }
  }

  /** Where each part of the input comes from: the flags of the workload's workspace, false when that is unknown; the
      activities of its members; and whether a member is shielded. */
  lemma InputIsRead(wl: Workload, w: World, g: Guard)
    ensures var input := InputOf(wl, w, g);
            input.tags == wl.tags && input.lastActive == wl.lastActive && input.now == w.now &&
            input.pressure == w.pressure &&
            (input.guarded <==> exists p :: p in wl.pids && Shielded(g, p, w.evaluate(wl.id))) &&
            (input.isFocused <==> wl.workspaceId in w.workspaces && w.workspaces[wl.workspaceId].isFocused) &&
            (input.isVisible <==> wl.workspaceId in w.workspaces && w.workspaces[wl.workspaceId].isVisible) &&
            (input.activity == Executing <==>
              exists p :: p in wl.pids && p in w.activities && w.activities[p] == Executing) &&
            (input.activity == Completed <==> forall p :: p in wl.pids ==> p !in w.activities) &&
            input.activity != Unknown
  {
    hide Shielded;
    assert forall p :: p in wl.pids ==> exists k :: 0 <= k < |wl.pids| && wl.pids[k] == p;
    assert forall k :: 0 <= k < |wl.pids| ==> wl.pids[k] in wl.pids;
  }

  lemma InputTags(wl: Workload, w: World, g: Guard)
    ensures var input := InputOf(wl, w, g);
            input.tags == wl.tags && input.lastActive == wl.lastActive && input.now == w.now
  {}

  lemma DryRunSendsNothing(cfg: DecayConfig, rc: ReclaimConfig, g: Guard, w: World, all: map<nat, Workload>,
                           dryRun: bool, before: Workload, after: Workload, sent: seq<Effect>)
    requires Stepped(cfg, rc, g, w, all, dryRun, before, after, sent)
    ensures dryRun ==> sent == []
  {}

  lemma GuardDoesNotMatter(cfg: DecayConfig, p: Phase, input: TickInput, guarded: bool)
    ensures NextPhase(cfg, p, input) == NextPhase(cfg, p, input.(guarded := guarded))
  {}

  lemma ConsistentAfterStep(cfg: DecayConfig, rc: ReclaimConfig, g: Guard, w: World, all: map<nat, Workload>,
                            dryRun: bool, registry: map<nat, Workload>, pidToWl: map<Pid, nat>, nextId: nat,
                            history: map<nat, seq<TickInput>>, log: seq<Effect>, sentAt: seq<nat>,
                            id: nat, after: Workload, sent: seq<Effect>)
    requires Listed(registry, pidToWl, nextId) && Recorded(cfg, registry, nextId, history)
    requires AllHarmless(g, log) && SignalsJustified(cfg, log, sentAt, history)
    requires id in registry && registry[id].id == id && registry[id].phase.state != Terminated
    requires Stepped(cfg, rc, g, w, all, dryRun, registry[id], after, sent)
    ensures var history' := history[id := history[id] + [InputOf(registry[id], w, g)]];
            Listed(registry[id := after], pidToWl, nextId) && Recorded(cfg, registry[id := after], nextId, history') &&
            AllHarmless(g, log + sent) &&
            SignalsJustified(cfg, log + sent, sentAt + Stamps(|sent|, |history'[id]|), history') &&
            SignalsAreFresh(log + sent, sentAt + Stamps(|sent|, |history'[id]|), |log|, history', {id}) &&
            id in history && |sentAt| == |log|
  {
    hide Stepped, InputOf, SignalsJustified, SignalsAreFresh, AllHarmless, Harmless;
    SteppedTouchesOnlyMembers(cfg, rc, g, w, all, dryRun, registry[id], after, sent);
    SteppedKeepsRecord(cfg, rc, g, w, all, dryRun, registry[id], after, sent, history[id]);
    InputTags(registry[id], w, g);
    RegistryAfterStep(cfg, registry, pidToWl, nextId, history, id, InputOf(registry[id], w, g), after);
    SignalsAfterStep(cfg, g, log, sentAt, history, id, InputOf(registry[id], w, g), sent);
  }

  lemma RegistryAfterStep(cfg: DecayConfig, registry: map<nat, Workload>, pidToWl: map<Pid, nat>, nextId: nat,
                          history: map<nat, seq<TickInput>>, id: nat, input: TickInput, after: Workload)
    requires Listed(registry, pidToWl, nextId) && Recorded(cfg, registry, nextId, history)
    requires id in registry && after == registry[id].(phase := after.phase) && WorkloadOk(after)
    requires input.lastActive == registry[id].lastActive
    requires after.phase.state != Terminated ==> after.phase == Run(cfg, FRESH, history[id] + [input])
    ensures Listed(registry[id := after], pidToWl, nextId)
    ensures Recorded(cfg, registry[id := after], nextId, history[id := history[id] + [input]])
  {
    hide Run, Dated, WorkloadOk;
    DatedAfterStep(registry, history, id, input, after);
  }

  lemma SignalsAfterStep(cfg: DecayConfig, g: Guard, log: seq<Effect>, sentAt: seq<nat>,
                         history: map<nat, seq<TickInput>>, id: nat, input: TickInput, sent: seq<Effect>)
    requires AllHarmless(g, log) && SignalsJustified(cfg, log, sentAt, history) && id in history
    requires forall e :: e in sent ==> Harmless(g, e)
    requires forall e :: e in sent && IsHarsh(e) ==>
               e.onBehalf == id && Warrants(cfg, history[id] + [input], IsKill(e))
    ensures var history' := history[id := history[id] + [input]];
            |sentAt| == |log| && AllHarmless(g, log + sent) &&
            SignalsJustified(cfg, log + sent, sentAt + Stamps(|sent|, |history'[id]|), history') &&
            SignalsAreFresh(log + sent, sentAt + Stamps(|sent|, |history'[id]|), |log|, history', {id})
  {
    hide Harmless, Warrants, JustifiedAt;
    var history' := history[id := history[id] + [input]];
    var stamps := sentAt + Stamps(|sent|, |history'[id]|);
    forall k | 0 <= k < |log + sent| && IsHarsh((log + sent)[k])
      ensures JustifiedAt(cfg, history', (log + sent)[k], stamps[k])
    {
      SignalStaysJustified(cfg, log, sentAt, history, history', id, sent, k);
    }
  }

  lemma SignalStaysJustified(cfg: DecayConfig, log: seq<Effect>, sentAt: seq<nat>, history: map<nat, seq<TickInput>>,
                           more: map<nat, seq<TickInput>>, id: nat, sent: seq<Effect>, k: nat)
    requires SignalsJustified(cfg, log, sentAt, history) && k < |log + sent| && IsHarsh((log + sent)[k])
    requires id in more && history.Keys <= more.Keys && forall i :: i in history ==> history[i] <= more[i]
    requires forall e :: e in sent && IsHarsh(e) ==> e.onBehalf == id && Warrants(cfg, more[id], IsKill(e))
    ensures JustifiedAt(cfg, more, (log + sent)[k], (sentAt + Stamps(|sent|, |more[id]|))[k])
  {
    hide Warrants;
    if k < |log| {
      assert JustifiedAt(cfg, history, log[k], sentAt[k]);
      JustifiedForever(cfg, history, more, log[k], sentAt[k]);
    } else {
      var e := sent[k - |log|];
      assert e in sent && (log + sent)[k] == e;
      assert more[id][..|more[id]|] == more[id];
    }
  }

  lemma FreshJoins(log: seq<Effect>, sent: seq<Effect>, sentAt: seq<nat>, stamps: seq<nat>, first: nat,
                   history: map<nat, seq<TickInput>>, more: map<nat, seq<TickInput>>, done: set<nat>, id: nat)
    requires |sentAt| == |log| && |stamps| == |sent| && first <= |log| && id !in done
    requires SignalsAreFresh(log, sentAt, first, history, done)
    requires SignalsAreFresh(log + sent, sentAt + stamps, |log|, more, {id})
    requires forall i :: i in history && i != id ==> i in more && more[i] == history[i]
    ensures SignalsAreFresh(log + sent, sentAt + stamps, first, more, done + {id})
  {}

  lemma NothingSent(cfg: DecayConfig, log: seq<Effect>, sentAt: seq<nat>, history: map<nat, seq<TickInput>>)
    requires SignalsJustified(cfg, log, sentAt, history)
    ensures SignalsAreFresh(log, sentAt, |log|, history, {})
  {}

  lemma FreshWidens(log: seq<Effect>, sentAt: seq<nat>, first: nat, history: map<nat, seq<TickInput>>,
                    done: set<nat>, more: set<nat>)
    requires SignalsAreFresh(log, sentAt, first, history, done) && done <= more
    ensures SignalsAreFresh(log, sentAt, first, history, more)
  {}

  /** New effects only reach processes owned by workloads under management. */
  ghost predicate OnlyManaged(sent: seq<Effect>, registry: map<nat, Workload>, pidToWl: map<Pid, nat>) {
    forall e, p :: e in sent && Touches(e, p) ==>
      p in pidToWl && pidToWl[p] in registry && !registry[pidToWl[p]].tags.observed
  }

  lemma SentToManagedOnly(cfg: DecayConfig, rc: ReclaimConfig, g: Guard, w: World, all: map<nat, Workload>,
                          dryRun: bool, start: map<nat, Workload>, registry: map<nat, Workload>,
                          pidToWl: map<Pid, nat>, nextId: nat, id: nat, after: Workload, sent: seq<Effect>)
    requires Listed(registry, pidToWl, nextId) && SameButPhases(start, registry) && id in registry
    requires Stepped(cfg, rc, g, w, all, dryRun, registry[id], after, sent)
    ensures SameButPhases(start, registry[id := after])
    ensures OnlyManaged(sent, start, pidToWl)
  {
    hide Stepped, Harmless, WorkloadOk;
    SteppedTouchesOnlyMembers(cfg, rc, g, w, all, dryRun, registry[id], after, sent);
  }

  /** Ticks change phases and nothing else in the registry. */
  ghost predicate SameButPhases(before: map<nat, Workload>, after: map<nat, Workload>) {
    before.Keys == after.Keys && forall id :: id in before ==> after[id] == before[id].(phase := after[id].phase)
  }

  lemma ManagedExtends(xs: seq<Effect>, ys: seq<Effect>, registry: map<nat, Workload>, pidToWl: map<Pid, nat>)
    requires OnlyManaged(xs, registry, pidToWl) && OnlyManaged(ys, registry, pidToWl)
    ensures OnlyManaged(xs + ys, registry, pidToWl)
  {}

  lemma NothingDone(start: map<nat, Workload>, history: map<nat, seq<TickInput>>, w: World, g: Guard,
                    pidToWl: map<Pid, nat>)
    ensures SameButPhases(start, start) && OnlyManaged([], start, pidToWl)
    ensures Advanced(start, {}, history, history, w, g)
  {}

  /** Exactly the live workloads among done have had this world's input appended to their record. */
  ghost predicate Advanced(start: map<nat, Workload>, done: set<nat>, before: map<nat, seq<TickInput>>,
                           history: map<nat, seq<TickInput>>, w: World, g: Guard) {
    history.Keys == before.Keys &&
    forall id :: id in before ==> history[id] == before[id] + NewInput(start, done, id, w, g)
  }

  ghost function NewInput(start: map<nat, Workload>, done: set<nat>, id: nat, w: World, g: Guard): seq<TickInput> {
    if id in done && id in start && start[id].phase.state != Terminated then [InputOf(start[id], w, g)] else []
  }

  ghost predicate Pending(start: map<nat, Workload>, done: set<nat>, registry: map<nat, Workload>) {
    forall id :: id in start && id !in done ==> id in registry && registry[id] == start[id]
  }

  lemma AdvanceOne(start: map<nat, Workload>, done: set<nat>, before: map<nat, seq<TickInput>>,
                   history: map<nat, seq<TickInput>>, after: map<nat, seq<TickInput>>, w: World, g: Guard, id: nat)
    requires Advanced(start, done, before, history, w, g) && id !in done && id in start
    requires start[id].phase.state == Terminated ==> after == history
    requires start[id].phase.state != Terminated ==>
               id in history && after == history[id := history[id] + [InputOf(start[id], w, g)]]
    ensures Advanced(start, done + {id}, before, after, w, g)
  {
    hide InputOf;
    forall i | i in before ensures after[i] == before[i] + NewInput(start, done + {id}, i, w, g) {
      assert history[i] == before[i] + NewInput(start, done, i, w, g);
    }
  }

  // ---------- Classification of one process ----------

  /** The workload created for an unowned process, if any. */
  function NewWorkload(id: nat, pid: Pid, node: ProcNode, tags: Tags, w: World): Workload {
    Workload(id, pid, [pid], w.workspaceOf(pid), if node.cmdline == "" then node.comm else node.cmdline, w.now, tags,
             FRESH)
  }

  function ClassifiedTags(c: Classification): Tags {
    Tags(c.kind, false, c.aiModifier, c.latencySensitive, false, c.isBrowserRoot, true)
  }

  const OBSERVED_TAGS := Tags(Neutral, false, false, false, true, false, true)

  /** Whether an unclassified process gets an observation-only workload. */
  predicate IsObservable(pid: Pid, node: ProcNode, w: World) {
    w.treeRoot(pid) == pid && node.uid >= FIRST_USER_UID && !node.infra
  }

  /** The effect of a new classification on a workload: promotion, relabelling, or a fresh command line. */
  function Reclassified(wl: Workload, node: ProcNode, c: Classification): Workload {
    if c.kind != Neutral then
      wl.(tags := wl.tags.(kind := c.kind, latencySensitive := c.latencySensitive, isBrowserRoot := c.isBrowserRoot,
                           observed := false, isReclassifiable := false),
          rootCmdline := node.cmdline)
    else if !wl.tags.observed then wl.(rootCmdline := node.cmdline)
    else wl
  }

  /** Ownership never uses id 0, so "no owner" is unambiguous. */
  lemma OwnersAreIssued(registry: map<nat, Workload>, pidToWl: map<Pid, nat>, nextId: nat, pid: Pid)
    requires Listed(registry, pidToWl, nextId)
    ensures pid in pidToWl ==> pidToWl[pid] != 0
    ensures nextId !in registry && forall id :: id in registry ==> WorkloadOk(registry[id])
  {}

  /** Starting the record of a new id does not disturb the old ones. */
  lemma SignalsStayJustified(cfg: DecayConfig, log: seq<Effect>, sentAt: seq<nat>, history: map<nat, seq<TickInput>>,
                           id: nat)
    requires SignalsJustified(cfg, log, sentAt, history) && id !in history
    ensures SignalsJustified(cfg, log, sentAt, history[id := []])
  {}

  /** Observed workloads are retried when due; others only once their command line has drifted. */
  predicate Retries(wl: Workload, node: ProcNode, due: bool) {
    if wl.tags.observed then due
    else wl.tags.isReclassifiable && node.cmdline != "" && node.cmdline != wl.rootCmdline
  }

  /** The registry after looking at one unprotected process. */
  function Filed(registry: map<nat, Workload>, pidToWl: map<Pid, nat>, nextId: nat, room: bool, due: bool,
                 pid: Pid, node: ProcNode, w: World): map<nat, Workload> {
    if pid in pidToWl then
      var id := pidToWl[pid];
      if id in registry && registry[id].rootPid == pid && Retries(registry[id], node, due)
      then registry[id := Reclassified(registry[id], node, w.reclassify(pid))]
      else registry
    else if w.classify(pid).kind != Neutral then
      registry[nextId := NewWorkload(nextId, pid, node, ClassifiedTags(w.classify(pid)), w)]
    else if IsObservable(pid, node, w) && room then
      registry[nextId := NewWorkload(nextId, pid, node, OBSERVED_TAGS, w)]
    else registry
  }

  /** Filing a process that is not protected gives it an owner when it is unowned and gets a workload of its own. */
  function FiledOwners(pidToWl: map<Pid, nat>, nextId: nat, room: bool, pid: Pid, node: ProcNode, w: World)
    : map<Pid, nat>
  {
    if pid !in pidToWl && (w.classify(pid).kind != Neutral || (IsObservable(pid, node, w) && room))
    then pidToWl[pid := nextId] else pidToWl
  }

  // ---------- What filing founds ----------

  /** A workload founded in this tick: fresh, last used now, around one unowned and unprotected process, with the labels
      of its classification, or observed only when there is none. */
  ghost predicate FoundedNow(wl: Workload, owned: map<Pid, nat>, g: Guard, w: World) {
    var p := wl.rootPid;
    p in w.procs && p !in owned && !Shielded(g, p, w.scan) && wl.pids == [p] &&
    wl.lastActive == w.now && wl.phase == Phase(Discovered, 0) && wl.workspaceId == w.workspaceOf(p) &&
    wl.rootCmdline == (if w.procs[p].cmdline != "" then w.procs[p].cmdline else w.procs[p].comm) &&
    wl.tags.kind == w.classify(p).kind && (wl.tags.observed <==> wl.tags.kind == Neutral) && !wl.tags.isProtected &&
    wl.tags.isReclassifiable &&
    if wl.tags.observed then
      w.treeRoot(p) == p && w.procs[p].uid >= 1000 && !w.procs[p].infra &&
      !wl.tags.aiOwned && !wl.tags.latencySensitive && !wl.tags.isBrowserRoot
    else
      wl.tags.aiOwned == w.classify(p).aiModifier && wl.tags.latencySensitive == w.classify(p).latencySensitive &&
      wl.tags.isBrowserRoot == w.classify(p).isBrowserRoot
  }

  /** Apart from the processes still to be looked at: what is new is founded now, and every classified process without
      owner and protection has become the root of a new workload. */
  ghost predicate Founded(before: map<nat, Workload>, owned: map<Pid, nat>, g: Guard, w: World, rest: set<Pid>,
                          registry: map<nat, Workload>, pidToWl: map<Pid, nat>) {
    (forall id :: id in registry && id !in before ==>
      FoundedNow(registry[id], owned, g, w) && registry[id].rootPid !in rest) &&
    (forall p :: p in pidToWl && p !in owned ==> p !in rest) &&
    forall p :: p in w.procs && p !in rest && p !in owned && !Shielded(g, p, w.scan) &&
                w.classify(p).kind != Neutral ==>
      p in pidToWl && pidToWl[p] in registry && pidToWl[p] !in before && registry[pidToWl[p]].rootPid == p
  }

  ghost function NewObserved(before: map<nat, Workload>, registry: map<nat, Workload>): set<nat> {
    set id | id in registry && id !in before && registry[id].tags.observed
  }

  /** An unclassified root process of a user is left without a workload only when 128 are observed: those observed
      before the tick, promoted or not, and those new in it. */
  ghost predicate LeftOutWhenFull(before: map<nat, Workload>, owned: map<Pid, nat>, g: Guard, w: World, rest: set<Pid>,
                                  registry: map<nat, Workload>, pidToWl: map<Pid, nat>) {
    forall p :: p in w.procs && p !in rest && p !in pidToWl && p !in owned && !Shielded(g, p, w.scan) &&
                w.treeRoot(p) == p && w.procs[p].uid >= 1000 && !w.procs[p].infra ==>
      |ObservedIds(before)| + |NewObserved(before, registry)| >= 128
  }

  lemma NoneLeftOutYet(before: map<nat, Workload>, owned: map<Pid, nat>, g: Guard, w: World)
    ensures LeftOutWhenFull(before, owned, g, w, w.procs.Keys, before, owned) && NewObserved(before, before) == {}
  {}

  /** Whether filing an unprotected process founds an observed workload. */
  predicate FoundsObserved(pidToWl: map<Pid, nat>, room: bool, pid: Pid, node: ProcNode, w: World) {
    pid !in pidToWl && w.classify(pid).kind == Neutral && IsObservable(pid, node, w) && room
  }

  lemma CountsNewObserved(before: map<nat, Workload>, registry: map<nat, Workload>, pidToWl: map<Pid, nat>, nextId: nat,
                          room: bool, due: bool, pid: Pid, node: ProcNode, w: World)
    requires nextId !in registry && nextId !in before
    requires forall id :: id in registry && registry[id].rootPid == pid ==> id in before
    ensures |NewObserved(before, Filed(registry, pidToWl, nextId, room, due, pid, node, w))| ==
            |NewObserved(before, registry)| + if FoundsObserved(pidToWl, room, pid, node, w) then 1 else 0
  {
    hide Retries, IsObservable, Reclassified, NewObserved;
    RootsFounded(nextId, pid, w);
    var after := Filed(registry, pidToWl, nextId, room, due, pid, node, w);
    if nextId in after {
      NewObservedAdds(before, registry, nextId, after[nextId]);
    } else {
      NewObservedKept(before, registry, after);
    }
  }

  lemma NewObservedKept(before: map<nat, Workload>, registry: map<nat, Workload>, after: map<nat, Workload>)
    requires after.Keys == registry.Keys && forall id :: id in registry && id !in before ==> after[id] == registry[id]
    ensures NewObserved(before, after) == NewObserved(before, registry)
  {}

  lemma NewObservedAdds(before: map<nat, Workload>, registry: map<nat, Workload>, id: nat, wl: Workload)
    requires id !in registry && id !in before
    ensures |NewObserved(before, registry[id := wl])| ==
            |NewObserved(before, registry)| + if wl.tags.observed then 1 else 0
  {
    var more: set<nat> := if wl.tags.observed then {id} else {};
    assert NewObserved(before, registry[id := wl]) == NewObserved(before, registry) + more;
  }

  lemma OneMoreLookedAt(before: map<nat, Workload>, owned: map<Pid, nat>, g: Guard, w: World, due: bool, rest: set<Pid>,
                        registry: map<nat, Workload>, pidToWl: map<Pid, nat>, nextId: nat, room: bool, pid: Pid,
                        after: map<nat, Workload>, ownedAfter: map<Pid, nat>, count: nat)
    requires LeftOutWhenFull(before, owned, g, w, rest, registry, pidToWl) && pid in rest && pid in w.procs
    requires nextId !in registry && nextId !in before
    requires forall id :: id in registry && registry[id].rootPid == pid ==> id in before
    requires count == |ObservedIds(before)| + |NewObserved(before, registry)| && room == (count < MAX_OBSERVED)
    requires if Shielded(g, pid, w.scan) then after == registry && ownedAfter == pidToWl
             else after == Filed(registry, pidToWl, nextId, room, due, pid, w.procs[pid], w) &&
                  ownedAfter == FiledOwners(pidToWl, nextId, room, pid, w.procs[pid], w)
    ensures LeftOutWhenFull(before, owned, g, w, rest - {pid}, after, ownedAfter)
    ensures |ObservedIds(before)| + |NewObserved(before, after)| ==
            count + if !Shielded(g, pid, w.scan) && FoundsObserved(pidToWl, room, pid, w.procs[pid], w) then 1 else 0
  {
    CountsNewObserved(before, registry, pidToWl, nextId, room, due, pid, w.procs[pid], w);
    hide Shielded, Filed, ObservedIds, NewObserved;
  }

  lemma NothingFounded(before: map<nat, Workload>, owned: map<Pid, nat>, g: Guard, w: World)
    ensures Founded(before, owned, g, w, w.procs.Keys, before, owned)
  {}

  lemma NoneFounded(before: map<nat, Workload>, owned: map<Pid, nat>, g: Guard, w: World, rest: set<Pid>,
                    registry: map<nat, Workload>, pidToWl: map<Pid, nat>, pid: Pid, after: map<nat, Workload>)
    requires Founded(before, owned, g, w, rest, registry, pidToWl)
    requires after.Keys == registry.Keys
    requires forall id :: id in registry ==>
               after[id].rootPid == registry[id].rootPid && (id !in before ==> after[id] == registry[id])
    requires pid in owned || Shielded(g, pid, w.scan) || w.classify(pid).kind == Neutral
    ensures Founded(before, owned, g, w, rest - {pid}, after, pidToWl)
  {
    hide Shielded, FoundedNow;
  }

  lemma OneFounded(before: map<nat, Workload>, owned: map<Pid, nat>, g: Guard, w: World, rest: set<Pid>,
                   registry: map<nat, Workload>, pidToWl: map<Pid, nat>, nextId: nat, wl: Workload)
    requires Founded(before, owned, g, w, rest, registry, pidToWl)
    requires nextId !in registry && nextId !in before
    requires FoundedNow(wl, owned, g, w) && wl.rootPid in rest && wl.rootPid !in pidToWl
    ensures Founded(before, owned, g, w, rest - {wl.rootPid}, registry[nextId := wl], pidToWl[wl.rootPid := nextId])
  {
    hide Shielded, FoundedNow;
  }

  lemma FoundOne(before: map<nat, Workload>, owned: map<Pid, nat>, g: Guard, w: World, due: bool, rest: set<Pid>,
                 registry: map<nat, Workload>, pidToWl: map<Pid, nat>, nextId: nat, room: bool, pid: Pid,
                 after: map<nat, Workload>, ownedAfter: map<Pid, nat>)
    requires pid in rest && pid in w.procs && nextId !in registry && nextId !in before
    requires forall p :: p in owned ==> p in pidToWl
    requires Founded(before, owned, g, w, rest, registry, pidToWl)
    requires if Shielded(g, pid, w.scan) then after == registry && ownedAfter == pidToWl
             else after == Filed(registry, pidToWl, nextId, room, due, pid, w.procs[pid], w) &&
                  ownedAfter == FiledOwners(pidToWl, nextId, room, pid, w.procs[pid], w)
    ensures Founded(before, owned, g, w, rest - {pid}, after, ownedAfter)
  {
    hide Shielded, Retries, FoundedNow, NewWorkload, IsObservable, Reclassified, ClassifiedTags;
    assert pid in pidToWl ==> pid in owned;
    RootsFounded(nextId, pid, w);
    if ownedAfter == pidToWl {
      hide Founded;
      NoneFounded(before, owned, g, w, rest, registry, pidToWl, pid, after) by {
        RelabelsOld(before, owned, g, w, rest, registry, pidToWl, pid);
      }
    } else {
      hide Founded;
      NewIsFounded(owned, g, w, nextId, pid);
      OneFounded(before, owned, g, w, rest, registry, pidToWl, nextId, after[nextId]);
    }
  }

  lemma RelabelsOld(before: map<nat, Workload>, owned: map<Pid, nat>, g: Guard, w: World, rest: set<Pid>,
                    registry: map<nat, Workload>, pidToWl: map<Pid, nat>, pid: Pid)
    requires Founded(before, owned, g, w, rest, registry, pidToWl) && pid in rest
    ensures forall id :: id in registry && registry[id].rootPid == pid ==> id in before
  {
    hide FoundedNow, Shielded;
  }

  lemma NewIsFounded(owned: map<Pid, nat>, g: Guard, w: World, nextId: nat, pid: Pid)
    requires pid in w.procs && pid !in owned && !Shielded(g, pid, w.scan)
    ensures var c, node := w.classify(pid), w.procs[pid];
            (c.kind != Neutral ==> FoundedNow(NewWorkload(nextId, pid, node, ClassifiedTags(c), w), owned, g, w)) &&
            (c.kind == Neutral && IsObservable(pid, node, w) ==>
              FoundedNow(NewWorkload(nextId, pid, node, OBSERVED_TAGS, w), owned, g, w))
  {
    hide Shielded;
  }

  lemma RootsFounded(nextId: nat, pid: Pid, w: World)
    ensures forall node, tags :: NewWorkload(nextId, pid, node, tags, w).rootPid == pid
    ensures forall wl, node, c :: Reclassified(wl, node, c).rootPid == wl.rootPid
  {}

  // ---------- Retrying the classification ----------

  /** Whether the n-th tick of a fresh daemon retries observed workloads: the counter only moves under a tick limit. */
  predicate RetryDue(maxTicks: int, n: nat) {
    maxTicks <= 0 || n % RETRY_EVERY == 0
  }

  /** Whether each tick recorded from position first on retried as it should in a fresh daemon. */
  ghost predicate RetriedWhenDue(retried: seq<bool>, first: nat, maxTicks: int) {
    forall n :: 0 < n <= |retried| - first ==> (retried[first + n - 1] <==> RetryDue(maxTicks, n))
  }

  lemma OneMoreRetry(retried: seq<bool>, first: nat, maxTicks: int, due: bool)
    requires first <= |retried| && RetriedWhenDue(retried, first, maxTicks)
    requires due == RetryDue(maxTicks, |retried| - first + 1)
    ensures RetriedWhenDue(retried + [due], first, maxTicks)
  {}

  /** A workload after every process of the snapshot has been looked at. */
  ghost function Reviewed(wl: Workload, pidToWl: map<Pid, nat>, g: Guard, w: World, due: bool): Workload {
    var p := wl.rootPid;
    if p in w.procs && !Shielded(g, p, w.scan) && p in pidToWl && pidToWl[p] == wl.id && Retries(wl, w.procs[p], due)
    then Reclassified(wl, w.procs[p], w.reclassify(p))
    else wl
  }

  /** The workloads of before, reviewed unless their root is still to be looked at. */
  ghost predicate ReviewedSoFar(before: map<nat, Workload>, owned: map<Pid, nat>, g: Guard, w: World, due: bool,
                                rest: set<Pid>, registry: map<nat, Workload>) {
    before.Keys <= registry.Keys &&
    forall id :: id in before ==>
      registry[id] == if before[id].rootPid in rest then before[id] else Reviewed(before[id], owned, g, w, due)
  }

  /** Filing hands out fresh ids to unowned processes and changes no owner. */
  ghost predicate OwnersKept(before: map<Pid, nat>, after: map<Pid, nat>, firstNew: nat) {
    (forall p :: p in before ==> p in after && after[p] == before[p]) &&
    forall p :: p in after && p !in before ==> after[p] >= firstNew
  }

  lemma NothingReviewed(before: map<nat, Workload>, owned: map<Pid, nat>, g: Guard, w: World, due: bool)
    ensures ReviewedSoFar(before, owned, g, w, due, w.procs.Keys, before)
  {}

  lemma AllReviewed(before: map<nat, Workload>, owned: map<Pid, nat>, g: Guard, w: World, due: bool,
                    registry: map<nat, Workload>)
    requires ReviewedSoFar(before, owned, g, w, due, {}, registry)
    ensures forall id :: id in before ==> id in registry && registry[id] == Reviewed(before[id], owned, g, w, due)
  {
    hide Reviewed;
  }

  lemma OwnersStay(owned: map<Pid, nat>, firstNew: nat)
    ensures OwnersKept(owned, owned, firstNew)
  {}

  lemma OwnersRemain(before: map<Pid, nat>, after: map<Pid, nat>, firstNew: nat)
    requires OwnersKept(before, after, firstNew)
    ensures forall p :: p in before ==> p in after
  {}

  lemma OwnersJoin(a: map<Pid, nat>, b: map<Pid, nat>, c: map<Pid, nat>, firstNew: nat, laterNew: nat)
    requires OwnersKept(a, b, firstNew) && OwnersKept(b, c, laterNew) && firstNew <= laterNew
    ensures OwnersKept(a, c, firstNew)
  {}

  lemma ReviewOne(before: map<nat, Workload>, owned: map<Pid, nat>, firstNew: nat, g: Guard, w: World, due: bool,
                  rest: set<Pid>, registry: map<nat, Workload>, pidToWl: map<Pid, nat>, nextId: nat, room: bool,
                  pid: Pid, after: map<nat, Workload>)
    requires pid in rest && pid in w.procs
    requires forall id :: id in before ==> id < firstNew && before[id].id == id
    requires ReviewedSoFar(before, owned, g, w, due, rest, registry) && OwnersKept(owned, pidToWl, firstNew)
    requires nextId >= firstNew
    requires after == if Shielded(g, pid, w.scan) then registry
                      else Filed(registry, pidToWl, nextId, room, due, pid, w.procs[pid], w)
    ensures ReviewedSoFar(before, owned, g, w, due, rest - {pid}, after)
  {
    hide Shielded, Retries, IsObservable, NewWorkload, ClassifiedTags;
    forall id | id in before
      ensures id in after &&
              after[id] == if before[id].rootPid in rest - {pid} then before[id]
                           else Reviewed(before[id], owned, g, w, due)
    {
      assert registry[id] ==
             if before[id].rootPid in rest then before[id] else Reviewed(before[id], owned, g, w, due);
    }
  }

  /** What a review changes, case by case. */
  lemma LabelsAfterReview(wl: Workload, pidToWl: map<Pid, nat>, g: Guard, w: World, due: bool)
    ensures var p, after := wl.rootPid, Reviewed(wl, pidToWl, g, w, due);
            if p !in w.procs || Shielded(g, p, w.scan) || p !in pidToWl || pidToWl[p] != wl.id then after == wl
            else
              var c, cmdline := w.reclassify(p), w.procs[p].cmdline;
              var drifted := wl.tags.isReclassifiable && cmdline != "" && cmdline != wl.rootCmdline;
              if wl.tags.observed && (!due || c.kind == Neutral) then after == wl
              else if !wl.tags.observed && !drifted then after == wl
              else
                after.rootCmdline == cmdline && after == wl.(rootCmdline := cmdline, tags := after.tags) &&
                if c.kind == Neutral then after.tags == wl.tags
                else after.tags.kind == c.kind && !after.tags.observed && !after.tags.isReclassifiable &&
                     after.tags.latencySensitive == c.latencySensitive &&
                     after.tags.isBrowserRoot == c.isBrowserRoot && after.tags.aiOwned == wl.tags.aiOwned &&
                     after.tags.isProtected == wl.tags.isProtected
  {
    hide Shielded;
  }

  lemma TagsSurvive(before: map<nat, Workload>, enforced: map<nat, Workload>, after: map<nat, Workload>, w: World)
    requires SameButPhases(before, enforced) && after == Survivors(enforced, w)
    ensures forall id :: id in after ==> id in before && after[id].tags == before[id].tags
  {
    hide Retain, HasLiveMember;
  }

  /** The retry in action: a shell that starts a build after its first tick is promoted at the second tick of a
      daemon without a tick limit, and not at the second tick of one with a limit. */
  lemma PromotedAtSecondTick(w: World, node: ProcNode, pid: Pid)
    requires node.uid >= FIRST_USER_UID && !node.infra && w.treeRoot(pid) == pid
    requires w.classify(pid).kind == Neutral && w.reclassify(pid).kind == WebDev
    ensures var first := Filed(map[], map[], 1, true, true, pid, node, w);
            var second := (maxTicks: int) =>
              Filed(first, map[pid := 1], 2, true, RetryDue(maxTicks, 2), pid, node, w);
            (forall n: nat :: RetryDue(50, n) <==> n % 10 == 0) &&
            first.Keys == {1} && first[1].tags.observed &&
            second(0)[1].tags.kind == WebDev && !second(0)[1].tags.observed && second(50) == first
  {}

  /** Nothing is lost, re-phased or terminated while processes are being filed. */
  ghost predicate Grown(before: map<nat, Workload>, after: map<nat, Workload>) {
    (forall id :: id in before ==>
      id in after && after[id].phase == before[id].phase && after[id].pids == before[id].pids &&
      after[id].lastActive == before[id].lastActive) &&
    forall id :: id in after && id !in before ==> after[id].phase == FRESH
  }

  /** Old records stay as they are, new ones are empty. */
  ghost predicate RecordsOpened(before: map<nat, seq<TickInput>>, after: map<nat, seq<TickInput>>) {
    (forall id :: id in before ==> id in after && after[id] == before[id]) &&
    forall id :: id in after && id !in before ==> after[id] == []
  }

  lemma NothingOpened(history: map<nat, seq<TickInput>>)
    ensures RecordsOpened(history, history)
  {}

  lemma OpenedJoins(a: map<nat, seq<TickInput>>, b: map<nat, seq<TickInput>>, c: map<nat, seq<TickInput>>)
    requires RecordsOpened(a, b) && RecordsOpened(b, c)
    ensures RecordsOpened(a, c)
  {}

  lemma ConsistentAfterCreate(cfg: DecayConfig, registry: map<nat, Workload>, pidToWl: map<Pid, nat>, nextId: nat,
                              history: map<nat, seq<TickInput>>, wl: Workload, pid: Pid)
    requires Listed(registry, pidToWl, nextId) && Recorded(cfg, registry, nextId, history)
    requires pid !in pidToWl
    requires wl.id == nextId && wl.pids == [pid] && wl.phase == FRESH && WorkloadOk(wl)
    ensures Listed(registry[nextId := wl], pidToWl[pid := nextId], nextId + 1)
    ensures Recorded(cfg, registry[nextId := wl], nextId + 1, history[nextId := []])
    ensures nextId !in registry && nextId !in history
  {
    assert Run(cfg, FRESH, []) == FRESH;
    hide Run;
  }

  lemma ObservedAfterCreate(registry: map<nat, Workload>, id: nat, wl: Workload)
    requires id !in registry
    ensures |ObservedIds(registry[id := wl])| == |ObservedIds(registry)| + if wl.tags.observed then 1 else 0
  {
    assert ObservedIds(registry[id := wl]) == ObservedIds(registry) + if wl.tags.observed then {id} else {};
  }

  lemma ConsistentAfterRelabel(cfg: DecayConfig, registry: map<nat, Workload>, pidToWl: map<Pid, nat>, nextId: nat,
                               history: map<nat, seq<TickInput>>, id: nat, wl: Workload)
    requires Listed(registry, pidToWl, nextId) && Recorded(cfg, registry, nextId, history)
    requires id in registry && wl.pids == registry[id].pids && wl.phase == registry[id].phase && WorkloadOk(wl)
    requires wl.lastActive == registry[id].lastActive
    requires wl.tags.observed ==> registry[id].tags.observed
    ensures Listed(registry[id := wl], pidToWl, nextId) && Recorded(cfg, registry[id := wl], nextId, history)
    ensures ObservedIds(registry[id := wl]) <= ObservedIds(registry)
  {
    hide Run, WorkloadOk;
  }

  lemma SubsetIsSmaller<T>(a: set<T>, b: set<T>)
    requires a <= b
    ensures |a| <= |b|
  {
    assert b == a + (b - a);
  }

  /** What cleanup does to a workload's pid list. */
  function WithLivePids(wl: Workload, live: set<Pid>): Workload {
    wl.(pids := Retain(wl.pids, live))
  }

  function LivePids(w: World): set<Pid> {
    set p | p in w.procs && !w.procs[p].zombie
  }

  /** Some member still runs, as kill(pid, 0) and the snapshot tell it. */
  predicate HasLiveMember(wl: Workload, w: World) {
    exists k :: 0 <= k < |wl.pids| && wl.pids[k] > 1 && wl.pids[k] in w.existing &&
      !(wl.pids[k] in w.procs && w.procs[wl.pids[k]].zombie)
  }

  /** after keeps a subset of the workloads of before, with subsets of their pids. */
  ghost predicate Shrunk(before: map<nat, Workload>, after: map<nat, Workload>) {
    (forall id :: id in after ==> id in before && after[id] == before[id].(pids := after[id].pids)) &&
    forall id, p :: id in after && p in after[id].pids ==> p in before[id].pids
  }

  /** The registry cleanup leaves: live workloads with a live member, listing live pids only. */
  function Survivors(registry: map<nat, Workload>, w: World): map<nat, Workload> {
    map id | id in registry && registry[id].phase.state != Terminated &&
             HasLiveMember(WithLivePids(registry[id], LivePids(w)), w)
      :: WithLivePids(registry[id], LivePids(w))
  }

  /** Who survives a tick: the workloads that have not ended and have a live member, listing exactly their live pids. */
  lemma SurvivorsAreExact(registry: map<nat, Workload>, w: World, id: nat)
    ensures id in Survivors(registry, w) <==>
              id in registry && registry[id].phase.state != Terminated &&
              exists p :: p in registry[id].pids && p > 1 && p in w.existing && p in w.procs && !w.procs[p].zombie
    ensures id in Survivors(registry, w) ==>
              Survivors(registry, w)[id] == registry[id].(pids := Survivors(registry, w)[id].pids) &&
              forall p :: p in Survivors(registry, w)[id].pids <==>
                p in registry[id].pids && p in w.procs && !w.procs[p].zombie
  {
    hide Retain;
    if id in registry {
      var wl := registry[id];
      RetainMembers(wl.pids, LivePids(w));
      LiveMember(WithLivePids(wl, LivePids(w)), w);
    }
  }

  lemma LiveMember(wl: Workload, w: World)
    ensures HasLiveMember(wl, w) <==>
            exists p :: p in wl.pids && p > 1 && p in w.existing && !(p in w.procs && w.procs[p].zombie)
  {
    if p :| p in wl.pids && p > 1 && p in w.existing && !(p in w.procs && w.procs[p].zombie) {
      var k :| 0 <= k < |wl.pids| && wl.pids[k] == p;
    }
  }

  lemma SurvivorsAreFewer(registry: map<nat, Workload>, pruned: map<nat, Workload>, after: map<nat, Workload>, w: World)
    requires forall id :: id in pruned <==> id in registry && registry[id].phase.state != Terminated
    requires forall id :: id in pruned ==> pruned[id] == registry[id]
    requires var listed := map id | id in pruned :: WithLivePids(pruned[id], LivePids(w));
             after == map id | id in listed && HasLiveMember(listed[id], w) :: listed[id]
    ensures after == Survivors(registry, w)
  {}

  lemma SurvivorsStayOwned(registry: map<nat, Workload>, pidToWl: map<Pid, nat>, nextId: nat, prev: set<Pid>, w: World)
    requires Listed(registry, pidToWl, nextId)
    ensures Shrunk(registry, Survivors(registry, w))
    ensures forall id, p :: id in Survivors(registry, w) && p in Survivors(registry, w)[id].pids ==>
              p in LivePids(w) && p in pidToWl - (prev - w.procs.Keys)
  {
    hide Retain, HasLiveMember, WorkloadOk;
    forall id | id in registry
      ensures forall p :: p in WithLivePids(registry[id], LivePids(w)).pids <==>
                p in registry[id].pids && p in LivePids(w)
    {
      RetainMembers(registry[id].pids, LivePids(w));
    }
  }

  /** Cleanup forgets dead pids only once no workload lists them any more. */
  lemma ConsistentAfterShrink(cfg: DecayConfig, before: map<nat, Workload>, after: map<nat, Workload>, nextId: nat,
                              pidToWl: map<Pid, nat>, kept: map<Pid, nat>, history: map<nat, seq<TickInput>>)
    requires Listed(before, pidToWl, nextId) && Recorded(cfg, before, nextId, history) && Shrunk(before, after)
    requires forall p :: p in kept ==> p in pidToWl && kept[p] == pidToWl[p]
    requires forall id, p :: id in after && p in after[id].pids ==> p in kept
    ensures Listed(after, kept, nextId) && Recorded(cfg, after, nextId, history)
    ensures ObservedIds(after) <= ObservedIds(before)
  {
    hide Run, Decayed;
  }

  /** Between ticks the registry lists live processes only, and no workload without one. */
  ghost predicate OnlyLive(registry: map<nat, Workload>, w: World) {
    (forall id, p :: id in registry && p in registry[id].pids ==> p in LivePids(w)) &&
    forall id :: id in registry ==> HasLiveMember(registry[id], w)
  }

  /** Observation-only means hands off: no member was signalled, moved or rescored. */
  ghost predicate ObservedUntouched(registry: map<nat, Workload>, sent: seq<Effect>) {
    forall id, p, e :: id in registry && registry[id].tags.observed && p in registry[id].pids && e in sent ==>
      !Touches(e, p)
  }

  /** Records are only ever extended. */
  ghost predicate RecordsGrow(before: map<nat, seq<TickInput>>, after: map<nat, seq<TickInput>>) {
    forall id :: id in before ==> id in after && before[id] <= after[id]
  }

  lemma AdvancedGrows(first: map<nat, seq<TickInput>>, start: map<nat, Workload>, done: set<nat>,
                      before: map<nat, seq<TickInput>>, after: map<nat, seq<TickInput>>, w: World, g: Guard)
    requires RecordsGrow(first, before) && Advanced(start, done, before, after, w, g)
    ensures RecordsGrow(first, after)
  {
    hide NewInput;
  }

  /** What is observed after the tick was observed when enforcement ran, so nothing sent reached it. */
  lemma TickIsContained(registry: map<nat, Workload>, enforced: map<nat, Workload>, after: map<nat, Workload>,
                        pidToWl: map<Pid, nat>, nextId: nat, sent: seq<Effect>, w: World)
    requires Listed(registry, pidToWl, nextId) && SameButPhases(registry, enforced)
    requires after == Survivors(enforced, w) && OnlyManaged(sent, registry, pidToWl)
    ensures OnlyLive(after, w) && ObservedUntouched(after, sent)
    ensures forall id :: id in after ==> after[id].phase.state != Terminated
    ensures ObservedIds(after) <= ObservedIds(registry) && |ObservedIds(after)| <= |ObservedIds(registry)|
  {
    hide Retain, HasLiveMember, WorkloadOk;
    forall id | id in enforced
      ensures forall p :: p in WithLivePids(enforced[id], LivePids(w)).pids <==>
                p in enforced[id].pids && p in LivePids(w)
    {
      RetainMembers(enforced[id].pids, LivePids(w));
    }
    SubsetIsSmaller(ObservedIds(after), ObservedIds(registry));
  }

  // ---------- What a tick carries out ----------

  /** The record ends with a decision to reclaim that nothing stood in the way of. */
  ghost predicate IsReclaimed(cfg: DecayConfig, rc: ReclaimConfig, g: Guard, w: World, all: map<nat, Workload>,
                              dryRun: bool, wl: Workload, record: seq<TickInput>) {
    !dryRun && !wl.tags.observed && record != [] && LastDecision(cfg, FRESH, record) == Reclaim &&
    var m := w.moments(wl.id);
    NothingForbids(rc, g, wl, w.activities, all, m.first, m.firstNow) &&
    NothingForbids(rc, g, wl, w.activities, all, m.again, m.againNow)
  }

  /** The decision at the end of the record asks for this effect. */
  ghost predicate IsDue(cfg: DecayConfig, rc: ReclaimConfig, g: Guard, w: World, all: map<nat, Workload>,
                        dryRun: bool, wl: Workload, record: seq<TickInput>, e: Effect) {
    if record == [] || dryRun || wl.tags.observed || wl.phase.state == Terminated then false
    else if LastDecision(cfg, FRESH, record) == Reclaim then
      IsReclaimed(cfg, rc, g, w, all, dryRun, wl, record) && KillDue(g, wl, w.moments(wl.id), e)
    else
      Sends(g, wl, LastDecision(cfg, FRESH, record), wl.tags.isProtected || AnyShielded(g, wl.pids, w.check(wl.id)),
            w.act(wl.id), e)
  }

  lemma PhaseIsNotLookedAt(rc: ReclaimConfig, g: Guard, w: World, all: map<nat, Workload>, wl: Workload, p: Phase,
                           d: PolicyDecision, blocked: bool, e: Effect)
    ensures Sends(g, wl.(phase := p), d, blocked, w.act(wl.id), e) <==> Sends(g, wl, d, blocked, w.act(wl.id), e)
    ensures KillDue(g, wl.(phase := p), w.moments(wl.id), e) <==> KillDue(g, wl, w.moments(wl.id), e)
    ensures forall view, now ::
              NothingForbids(rc, g, wl.(phase := p), w.activities, all, view, now) <==>
              NothingForbids(rc, g, wl, w.activities, all, view, now)
  {
    hide Shielded, IsBrowser;
  }

  lemma LongerRun(cfg: DecayConfig, inputs: seq<TickInput>, input: TickInput)
    ensures var longer := inputs + [input];
            Run(cfg, FRESH, longer) == NextPhase(cfg, Run(cfg, FRESH, inputs), input) &&
            LastDecision(cfg, FRESH, longer) == Evaluate(Run(cfg, FRESH, longer), input)
  {
    hide Evaluate, NextPhase;
    var longer := inputs + [input];
    assert longer[..|longer| - 1] == inputs;
  }

  lemma StepSendsDue(cfg: DecayConfig, rc: ReclaimConfig, g: Guard, w: World, all: map<nat, Workload>, dryRun: bool,
                     before: Workload, after: Workload, sent: seq<Effect>, inputs: seq<TickInput>)
    requires Stepped(cfg, rc, g, w, all, dryRun, before, after, sent)
    requires before.phase == Run(cfg, FRESH, inputs) && before.phase.state != Terminated
    ensures var record := inputs + [InputOf(before, w, g)];
            (forall e {:trigger e in sent} :: e in sent <==> IsDue(cfg, rc, g, w, all, dryRun, before, record, e)) &&
            (after.phase.state == Terminated <==> IsReclaimed(cfg, rc, g, w, all, dryRun, before, record))
  {
    hide NextState, NextHysteresis, Evaluate, Enforced, Reclaimed, MayReclaim, NothingForbids, Kills, Sends, KillDue,
         InputOf, Run, LastDecision, AnyShielded;
    var input := InputOf(before, w, g);
    var record := inputs + [input];
    LongerRun(cfg, inputs, input);
    NeverTerminates(cfg, FRESH, record);
    InputTags(before, w, g);
    var ticked, m := before.(phase := NextPhase(cfg, before.phase, input)), w.moments(before.id);
    var d := LastDecision(cfg, FRESH, record);
    EnforcedIsCarried(g, ticked, d, w.check(before.id), w.act(before.id));
    MayReclaimIfNothingForbids(rc, g, ticked, w.activities, all, m.first, m.firstNow);
    MayReclaimIfNothingForbids(rc, g, ticked, w.activities, all, m.again, m.againNow);
    ReclaimedKillsDue(rc, g, ticked, w.activities, all, m);
    forall e ensures e in sent <==> IsDue(cfg, rc, g, w, all, dryRun, before, record, e) {
      PhaseIsNotLookedAt(rc, g, w, all, before, ticked.phase, d,
                         before.tags.isProtected || AnyShielded(g, before.pids, w.check(before.id)), e);
    }
    PhaseIsNotLookedAt(rc, g, w, all, before, ticked.phase, d, false, FreezeSlice(SliceFrozen, false));
  }

  /** The log of the stage holds exactly the effects due for the workloads in done, and exactly the reclaimed ones among
      them have ended. */
  ghost predicate CarriedOut(cfg: DecayConfig, rc: ReclaimConfig, g: Guard, w: World, all: map<nat, Workload>,
                             dryRun: bool, history: map<nat, seq<TickInput>>, done: set<nat>, sent: seq<Effect>,
                             registry: map<nat, Workload>) {
    (forall e {:trigger e in sent} :: e in sent <==>
      exists id :: id in done && id in all && id in history &&
                   IsDue(cfg, rc, g, w, all, dryRun, all[id], history[id], e)) &&
    forall id :: id in done && id in all && id in history && id in registry ==>
      (registry[id].phase.state == Terminated <==>
        all[id].phase.state == Terminated || IsReclaimed(cfg, rc, g, w, all, dryRun, all[id], history[id]))
  }

  lemma NothingCarriedOut(cfg: DecayConfig, rc: ReclaimConfig, g: Guard, w: World, all: map<nat, Workload>,
                          dryRun: bool, history: map<nat, seq<TickInput>>)
    ensures CarriedOut(cfg, rc, g, w, all, dryRun, history, {}, [], all)
  {}

  lemma OneMoreCarriedOut(cfg: DecayConfig, rc: ReclaimConfig, g: Guard, w: World, all: map<nat, Workload>,
                          dryRun: bool, history: map<nat, seq<TickInput>>, more: map<nat, seq<TickInput>>,
                          done: set<nat>, sent: seq<Effect>, also: seq<Effect>, registry: map<nat, Workload>,
                          id: nat, after: Workload)
    requires CarriedOut(cfg, rc, g, w, all, dryRun, history, done, sent, registry)
    requires id !in done && id in all && id in more && forall i :: i in done ==> (i in history <==> i in more)
    requires forall i :: i in done && i in history ==> more[i] == history[i]
    requires forall e {:trigger e in also} ::
               e in also <==> IsDue(cfg, rc, g, w, all, dryRun, all[id], more[id], e)
    requires after.phase.state == Terminated <==>
               all[id].phase.state == Terminated || IsReclaimed(cfg, rc, g, w, all, dryRun, all[id], more[id])
    ensures CarriedOut(cfg, rc, g, w, all, dryRun, more, done + {id}, sent + also, registry[id := after])
  {
    hide IsDue, IsReclaimed;
    forall e
      ensures e in sent + also <==>
        exists i :: i in done + {id} && i in all && i in more && IsDue(cfg, rc, g, w, all, dryRun, all[i], more[i], e)
    {
      assert e in sent + also <==> e in sent || e in also;
    }
  }

  lemma StepCarriedOut(cfg: DecayConfig, rc: ReclaimConfig, g: Guard, w: World, all: map<nat, Workload>, dryRun: bool,
                       history: map<nat, seq<TickInput>>, more: map<nat, seq<TickInput>>, done: set<nat>,
                       sent: seq<Effect>, also: seq<Effect>, registry: map<nat, Workload>, id: nat, after: Workload,
                       nextId: nat)
    requires CarriedOut(cfg, rc, g, w, all, dryRun, history, done, sent, registry)
    requires id !in done && id in all && id in registry && registry[id] == all[id] && id in history
    requires all[id].phase.state != Terminated && Recorded(cfg, registry, nextId, history)
    requires Stepped(cfg, rc, g, w, all, dryRun, all[id], after, also)
    requires more == history[id := history[id] + [InputOf(all[id], w, g)]]
    ensures CarriedOut(cfg, rc, g, w, all, dryRun, more, done + {id}, sent + also, registry[id := after])
  {
    hide CarriedOut, Stepped, InputOf, IsDue, IsReclaimed;
    StepSendsDue(cfg, rc, g, w, all, dryRun, all[id], after, also, history[id]);
    OneMoreCarriedOut(cfg, rc, g, w, all, dryRun, history, more, done, sent, also, registry, id, after);
  }

  lemma NoStepCarriedOut(cfg: DecayConfig, rc: ReclaimConfig, g: Guard, w: World, all: map<nat, Workload>,
                         dryRun: bool, history: map<nat, seq<TickInput>>, done: set<nat>, sent: seq<Effect>,
                         registry: map<nat, Workload>, id: nat, nextId: nat)
    requires CarriedOut(cfg, rc, g, w, all, dryRun, history, done, sent, registry)
    requires id !in done && id in all && id in registry && registry[id] == all[id]
    requires all[id].phase.state == Terminated && Recorded(cfg, registry, nextId, history)
    ensures CarriedOut(cfg, rc, g, w, all, dryRun, history, done + {id}, sent, registry)
  {
    OneMoreCarriedOut(cfg, rc, g, w, all, dryRun, history, history, done, sent, [], registry, id, registry[id]);
    assert sent + [] == sent && registry[id := registry[id]] == registry;
  }

  // ---------- The clock ----------

  /** Every record is in the order of its times, and none goes beyond the clock. */
  ghost predicate OnTime(history: map<nat, seq<TickInput>>, clock: nat) {
    forall id :: id in history ==>
      TimesAscend(history[id]) && (history[id] != [] ==> history[id][|history[id]| - 1].now <= clock)
  }

  ghost predicate ClockAscends(worlds: seq<World>, clock: nat) {
    (forall k :: 0 <= k < |worlds| ==> clock <= worlds[k].now) &&
    forall j, k :: 0 <= j < k < |worlds| ==> worlds[j].now <= worlds[k].now
  }

  /** A tick leaves a record alone or adds one input, stamped with its time. */
  lemma RecordAfterTick(start: map<nat, Workload>, begun: map<nat, seq<TickInput>>, after: map<nat, seq<TickInput>>,
                        w: World, g: Guard, id: nat)
    requires Advanced(start, start.Keys, begun, after, w, g) && id in after
    ensures id in begun
    ensures after[id] == begun[id] || (id in start && after[id] == begun[id] + [InputOf(start[id], w, g)])
  {
    hide InputOf;
    assert after[id] == begun[id] + NewInput(start, start.Keys, id, w, g);
    assert begun[id] + [] == begun[id];
  }

  lemma TimeGoesOn(inputs: seq<TickInput>, clock: nat, input: TickInput)
    requires TimesAscend(inputs) && (inputs != [] ==> inputs[|inputs| - 1].now <= clock) && clock <= input.now
    ensures TimesAscend(inputs + [input])
  {}

  lemma TickKeepsTime(start: map<nat, Workload>, before: map<nat, seq<TickInput>>, begun: map<nat, seq<TickInput>>,
                      after: map<nat, seq<TickInput>>, w: World, g: Guard, clock: nat)
    requires OnTime(before, clock) && clock <= w.now && RecordsOpened(before, begun)
    requires Advanced(start, start.Keys, begun, after, w, g)
    ensures OnTime(after, w.now)
  {
    hide InputOf, TimesAscend, Advanced;
    forall id | id in after
      ensures TimesAscend(after[id]) && (after[id] != [] ==> after[id][|after[id]| - 1].now <= w.now)
    {
      RecordAfterTick(start, begun, after, w, g, id);
      NoTimes();
      assert TimesAscend(begun[id]) && (begun[id] != [] ==> begun[id][|begun[id]| - 1].now <= clock);
      if after[id] != begun[id] {
        InputTags(start[id], w, g);
        TimeGoesOn(begun[id], clock, InputOf(start[id], w, g));
      }
    }
  }

  lemma NoTimes()
    ensures TimesAscend([])
  {}

  /** The hard age limit in milliseconds: what the kills since position first were aimed at was last used so long before
      now. */
  ghost predicate KillsComeLate(cfg: DecayConfig, log: seq<Effect>, first: nat, registry: map<nat, Workload>,
                                now: nat) {
    cfg.ageHard > 0 ==>
      forall k :: first <= k < |log| && IsKill(log[k]) ==>
        log[k].onBehalf in registry && now >= registry[log[k].onBehalf].lastActive + 60000 * cfg.ageHard
  }

  lemma KillIsLate(cfg: DecayConfig, inputs: seq<TickInput>)
    requires Warrants(cfg, inputs, true) && SameOrigin(inputs) && TimesAscend(inputs) && cfg.ageHard > 0
    ensures |inputs| > 1
    ensures inputs[|inputs| - 1].now >= inputs[0].lastActive + 60000 * cfg.ageHard
  {
    ReclaimedIsOld(cfg, inputs);
  }

  /** The same for all kills so far, told from the records. */
  ghost predicate AllKillsLate(cfg: DecayConfig, log: seq<Effect>, sentAt: seq<nat>,
                               history: map<nat, seq<TickInput>>) {
    |sentAt| == |log| &&
    (cfg.ageHard > 0 ==>
      forall k :: 0 <= k < |log| && IsKill(log[k]) ==>
        log[k].onBehalf in history && 0 < sentAt[k] <= |history[log[k].onBehalf]| &&
        var input := history[log[k].onBehalf][sentAt[k] - 1];
        input.now >= input.lastActive + 60000 * cfg.ageHard)
  }

  lemma KillsAreLate(cfg: DecayConfig, registry: map<nat, Workload>, log: seq<Effect>, sentAt: seq<nat>,
                     history: map<nat, seq<TickInput>>, clock: nat)
    requires SignalsJustified(cfg, log, sentAt, history) && Dated(registry, history) && OnTime(history, clock)
    ensures AllKillsLate(cfg, log, sentAt, history)
  {
    hide Warrants;
    if cfg.ageHard > 0 {
      forall k | 0 <= k < |log| && IsKill(log[k])
        ensures log[k].onBehalf in history && 0 < sentAt[k] <= |history[log[k].onBehalf]|
        ensures var input := history[log[k].onBehalf][sentAt[k] - 1];
                input.now >= input.lastActive + 60000 * cfg.ageHard
      {
        assert IsHarsh(log[k]) && JustifiedAt(cfg, history, log[k], sentAt[k]);
        var inputs := history[log[k].onBehalf][..sentAt[k]];
        KillIsLate(cfg, inputs);
        assert inputs[|inputs| - 1].lastActive == inputs[0].lastActive;
      }
    }
  }

  lemma KillsOfTickAreLate(cfg: DecayConfig, registry: map<nat, Workload>, nextId: nat,
                           before: map<nat, seq<TickInput>>, filed: map<nat, Workload>, filedNext: nat,
                           begun: map<nat, seq<TickInput>>, after: map<nat, seq<TickInput>>, log: seq<Effect>,
                           sentAt: seq<nat>, first: nat, w: World, g: Guard, clock: nat)
    requires Recorded(cfg, registry, nextId, before) && RecordsOpened(before, begun)
    requires Recorded(cfg, filed, filedNext, begun) && Grown(registry, filed) && IdsAreNew(registry, filed, nextId)
    requires Advanced(filed, filed.Keys, begun, after, w, g) && (forall id :: id in after ==> SameOrigin(after[id]))
    requires SignalsJustified(cfg, log, sentAt, after) && SignalsAreFresh(log, sentAt, first, after, filed.Keys)
    ensures OnTime(before, clock) && clock <= w.now ==>
              OnTime(after, w.now) && KillsComeLate(cfg, log, first, registry, w.now)
  {
    hide Recorded, RecordsOpened, Grown, IdsAreNew, Advanced, SignalsJustified, SameOrigin, OnTime;
    if OnTime(before, clock) && clock <= w.now { TickKeepsTime(filed, before, begun, after, w, g, clock); }
    if cfg.ageHard > 0 && OnTime(before, clock) && clock <= w.now {
      forall k | first <= k < |log| && IsKill(log[k])
        ensures log[k].onBehalf in registry && w.now >= registry[log[k].onBehalf].lastActive + 60000 * cfg.ageHard
      {
        var id := log[k].onBehalf;
        assert IsHarsh(log[k]);
        LastSignalIsLate(cfg, log, sentAt, after, k, w.now);
        LongRecordIsOld(cfg, registry, nextId, before, filed, filedNext, begun, after, w, g, id);
      }
    }
  }

  lemma LastSignalIsLate(cfg: DecayConfig, log: seq<Effect>, sentAt: seq<nat>, history: map<nat, seq<TickInput>>,
                         k: nat, now: nat)
    requires SignalsJustified(cfg, log, sentAt, history) && k < |log| && IsKill(log[k]) && cfg.ageHard > 0
    requires log[k].onBehalf in history && |log| == |sentAt| && sentAt[k] == |history[log[k].onBehalf]|
    requires SameOrigin(history[log[k].onBehalf]) && OnTime(history, now)
    ensures |history[log[k].onBehalf]| > 1
    ensures now >= history[log[k].onBehalf][0].lastActive + 60000 * cfg.ageHard
  {
    hide Warrants, SameOrigin, TimesAscend;
    var inputs := history[log[k].onBehalf];
    assert IsHarsh(log[k]) && JustifiedAt(cfg, history, log[k], sentAt[k]);
    assert inputs[..|inputs|] == inputs;
    KillIsLate(cfg, inputs);
  }

  /** A workload with two inputs after the tick was there before it, and counts from the same last use. */
  lemma LongRecordIsOld(cfg: DecayConfig, registry: map<nat, Workload>, nextId: nat, before: map<nat, seq<TickInput>>,
                        filed: map<nat, Workload>, filedNext: nat, begun: map<nat, seq<TickInput>>,
                        after: map<nat, seq<TickInput>>, w: World, g: Guard, id: nat)
    requires Recorded(cfg, registry, nextId, before) && RecordsOpened(before, begun)
    requires Recorded(cfg, filed, filedNext, begun) && Grown(registry, filed) && IdsAreNew(registry, filed, nextId)
    requires Advanced(filed, filed.Keys, begun, after, w, g) && id in filed && id in after && |after[id]| > 1
    ensures id in registry && after[id][0].lastActive == registry[id].lastActive
  {
    RecordAfterTick(filed, begun, after, w, g, id);
    hide Advanced, InputOf, Run, SameOrigin;
    assert begun[id] != [] && after[id][0] == begun[id][0];
  }

  lemma RecordsShareOrigin(cfg: DecayConfig, registry: map<nat, Workload>, nextId: nat,
                           history: map<nat, seq<TickInput>>)
    requires Recorded(cfg, registry, nextId, history)
    ensures forall id :: id in history ==> SameOrigin(history[id])
  {}

  lemma FoundedLasts(before: map<nat, Workload>, owned: map<Pid, nat>, g: Guard, w: World, registry: map<nat, Workload>,
                     pidToWl: map<Pid, nat>, dead: set<Pid>)
    requires Founded(before, owned, g, w, {}, registry, pidToWl) && dead !! w.procs.Keys
    ensures Founded(before, owned, g, w, {}, registry, pidToWl - dead)
    ensures LeftOutWhenFull(before, owned, g, w, {}, registry, pidToWl) ==>
              LeftOutWhenFull(before, owned, g, w, {}, registry, pidToWl - dead)
  {
    hide FoundedNow, Shielded, ObservedIds, NewObserved;
  }

  // ---------- Processes that lost their workload ----------

  ghost predicate AliveIn(worlds: seq<World>, p: Pid) {
    forall k :: 0 <= k < |worlds| ==> p in worlds[k].procs
  }

  /** No effect from position first on reaches p. */
  ghost predicate Untouched(log: seq<Effect>, first: nat, p: Pid) {
    forall k :: first <= k < |log| ==> !Touches(log[k], p)
  }

  /** A process that stays in the snapshots keeps its owner, and when that owner is no longer registered it never is
      again and nothing is sent to the process. */
  ghost predicate OwnershipLasts(registry: map<nat, Workload>, owned: map<Pid, nat>, after: map<nat, Workload>,
                                 ownedAfter: map<Pid, nat>, log: seq<Effect>, first: nat, worlds: seq<World>) {
    forall p :: p in owned && AliveIn(worlds, p) ==>
      p in ownedAfter && ownedAfter[p] == owned[p] &&
      (owned[p] !in registry ==> owned[p] !in after && Untouched(log, first, p))
  }

  /** New workloads only get ids that were not in use before. */
  ghost predicate IdsAreNew(before: map<nat, Workload>, after: map<nat, Workload>, firstNew: nat) {
    forall id :: id in after ==> id in before || id >= firstNew
  }

  lemma FilingIssuesNewIds(before: map<nat, Workload>, firstNew: nat, registry: map<nat, Workload>,
                           pidToWl: map<Pid, nat>, nextId: nat, room: bool, due: bool, pid: Pid, node: ProcNode,
                           g: Guard, w: World, after: map<nat, Workload>)
    requires IdsAreNew(before, registry, firstNew) && firstNew <= nextId
    requires after == if Shielded(g, pid, w.scan) then registry
                      else Filed(registry, pidToWl, nextId, room, due, pid, node, w)
    ensures IdsAreNew(before, after, firstNew)
  {
    hide Shielded, Retries, IsObservable, NewWorkload, ClassifiedTags;
  }

  /** A workload-less process that stays alive is listed by no workload: it is out of the daemon's reach for good. */
  lemma OrphanIsUnlisted(registry: map<nat, Workload>, pidToWl: map<Pid, nat>, nextId: nat, p: Pid, id: nat)
    requires Listed(registry, pidToWl, nextId) && p in pidToWl && pidToWl[p] !in registry && id in registry
    ensures p !in registry[id].pids
  {}

  /** One tick: filing keeps the owners, enforcement reaches members only, and cleanup forgets dead processes only. */
  lemma OwnershipLastsOneTick(registry: map<nat, Workload>, owned: map<Pid, nat>, nextId: nat,
                              filed: map<nat, Workload>, filedOwned: map<Pid, nat>, after: map<nat, Workload>,
                              dead: set<Pid>, log: seq<Effect>, first: nat, w: World)
    requires Listed(registry, owned, nextId) && OwnersKept(owned, filedOwned, nextId)
    requires IdsAreNew(registry, filed, nextId) && after.Keys <= filed.Keys && dead !! w.procs.Keys
    requires first <= |log| && OnlyManaged(log[first..], filed, filedOwned)
    ensures OwnershipLasts(registry, owned, after, filedOwned - dead, log, first, [w])
  {
    hide WorkloadOk, Touches;
    forall p | p in owned && AliveIn([w], p)
      ensures p in filedOwned - dead && filedOwned[p] == owned[p]
      ensures owned[p] !in registry ==> owned[p] !in filed && Untouched(log, first, p)
    {
      assert p in [w][0].procs;
      if owned[p] !in registry {
        assert forall k :: first <= k < |log| ==> log[k] == log[first..][k - first] && log[k] in log[first..];
      }
    }
  }

  lemma OwnershipLastsLonger(r0: map<nat, Workload>, o0: map<Pid, nat>, r1: map<nat, Workload>, o1: map<Pid, nat>,
                             r2: map<nat, Workload>, o2: map<Pid, nat>, log: seq<Effect>, more: seq<Effect>,
                             first: nat, worlds: seq<World>, k: nat)
    requires k < |worlds| && first <= |log| && log <= more
    requires OwnershipLasts(r0, o0, r1, o1, log, first, worlds[..k])
    requires OwnershipLasts(r1, o1, r2, o2, more, |log|, [worlds[k]])
    ensures OwnershipLasts(r0, o0, r2, o2, more, first, worlds[..k + 1])
  {
    hide Touches;
    forall p | p in o0 && AliveIn(worlds[..k + 1], p)
      ensures p in o2 && o2[p] == o0[p] && (o0[p] !in r0 ==> o0[p] !in r2 && Untouched(more, first, p))
    {
      assert forall j :: 0 <= j < k ==> worlds[..k][j] == worlds[..k + 1][j];
      assert worlds[..k + 1][k] == worlds[k];
      assert AliveIn(worlds[..k], p) && AliveIn([worlds[k]], p);
    }
  }

  lemma AliveInAll(r0: map<nat, Workload>, o0: map<Pid, nat>, r1: map<nat, Workload>, o1: map<Pid, nat>,
                   log: seq<Effect>, first: nat, worlds: seq<World>, k: nat)
    requires k <= |worlds| && OwnershipLasts(r0, o0, r1, o1, log, first, worlds[..k])
    ensures OwnershipLasts(r0, o0, r1, o1, log, first, worlds)
  {
    hide Untouched;
    forall p | p in o0 && AliveIn(worlds, p)
      ensures AliveIn(worlds[..k], p)
    {
      assert forall j :: 0 <= j < k ==> worlds[..k][j] == worlds[j];
    }
  }

  lemma NoTickYet(registry: map<nat, Workload>, owned: map<Pid, nat>, log: seq<Effect>, retried: seq<bool>,
                  maxTicks: int)
    ensures OwnershipLasts(registry, owned, registry, owned, log, |log|, [])
    ensures RetriedWhenDue(retried, |retried|, maxTicks)
  {}
}
