/** The daemon: one object graph, one tick after another, for any world it may look at. */
module Daemon {
  import opened DaemonSteps
  import opened Sequences
  import opened Types
  import opened StateMachine
  import opened Registry
  import opened Ownership
  import opened Protection
  import opened Enforcement
  import opened Reclaiming
  import opened Guarantees

  class Daemon {
    const mgr: WorkloadManager
    const own: OwnershipGraph
    const reg: ProtectedRegistry
    const kernel: Kernel
    const plane: EnforcementPlane
    const reclaimer: ReclaimEngine
    const dryRun: bool
    const maxTicks: int
    var nextId: nat
    var tickCount: nat
    var prevChildren: set<Pid>
    ghost var history: map<nat, seq<TickInput>>
    ghost var sentAt: seq<nat>
    /** For each tick so far, whether it retried the classification of observed workloads. */
    ghost var retried: seq<bool>

    ghost predicate Wired()
      reads this
    {
      plane.kernel == kernel && plane.registry == reg && reclaimer.kernel == kernel && reclaimer.registry == reg
    }

    /** What every stage of every tick keeps. */
    ghost predicate Consistent()
      reads this, mgr, own, kernel, reclaimer, reg
    {
      Wired() && mgr.Valid() && own.Valid() && reclaimer.Spaced() &&
      Listed(mgr.registry, own.pidToWl, nextId) &&
      Recorded(mgr.cfg, mgr.registry, nextId, history) &&
      AllHarmless(reg.Content(), kernel.log) &&
      SignalsJustified(mgr.cfg, kernel.log, sentAt, history)
    }

    /** What holds between ticks. */
    ghost predicate Valid()
      reads this, mgr, own, kernel, reclaimer, reg
    {
      Consistent() && |ObservedIds(mgr.registry)| <= MAX_OBSERVED &&
      forall id :: id in mgr.registry ==> mgr.registry[id].phase.state != Terminated
    }

    constructor (cfg: DecayConfig, reclaimCfg: ReclaimConfig, reg: ProtectedRegistry, dryRun: bool, maxTicks: int)
      ensures Valid() && kernel.log == [] && this.reg == reg && mgr.cfg == cfg
      ensures mgr.registry == map[] && own.pidToWl == map[] && nextId == 1 && history == map[]
      ensures tickCount == 0 && retried == [] && this.maxTicks == maxTicks
    {
      var theKernel := new Kernel();
      kernel, this.reg := theKernel, reg;
      mgr := new WorkloadManager(cfg);
      own := new OwnershipGraph();
      plane := new EnforcementPlane(theKernel, reg);
      reclaimer := new ReclaimEngine(reclaimCfg, theKernel, reg);
      this.dryRun, this.maxTicks := dryRun, maxTicks;
      nextId, tickCount, prevChildren := 1, 0, {};
      history, sentAt, retried := map[], [], [];
      new;
      assert ObservedIds(mgr.registry) == {};
    }

    /** Startup: cold-start assignment over the sorted scan, then registration of every discovered workload. */
    method ColdStart(entries: seq<ProcEntry>, now: nat)
      requires Valid() && mgr.registry == map[] && own.pidToWl == map[] && history == map[]
      requires DistinctPids(entries)
      modifies this`nextId, this`history, mgr, own
      ensures Valid()
      ensures Partition(own.pidToWl, mgr.registry) && FilesByRoot(own.pidToWl, mgr.registry, OnePass(entries))
      ensures forall id :: id in mgr.registry <==> old(nextId) <= id < nextId
      ensures ParentsFirst(entries) ==> AllRootsCorrect(entries, OnePass(entries))
      ensures forall id :: id in mgr.registry ==> StubOf(mgr.registry[id], entries, now)
    {
      hide StubOf, Inverse, Partition, FilesByRoot, AllRootsCorrect, ParentsFirst, Unique, Run, SignalsJustified,
           ColdStub, AllHarmless, ObservedIds, Listed, Recorded;
      ghost var firstId := nextId;
      FirstIdIsPositive(mgr.registry, own.pidToWl, nextId);
      var stubs, next := own.Bootstrap(entries, nextId, now);
      ghost var records := map id | id in stubs :: [];
      NoSignalsYet(mgr.cfg, kernel.log, sentAt, records);
      nextId, history := next, records;
      StubsAreConsistent(mgr.cfg, stubs, own.pidToWl, firstId, nextId, history);
      RegisterAll(stubs);
    }

    method RegisterAll(stubs: map<nat, Workload>)
      requires mgr.Valid() && mgr.registry == map[]
      requires forall id :: id in stubs ==> stubs[id].id == id
      modifies mgr
      ensures mgr.Valid() && mgr.registry == stubs
    {
      var rest := stubs.Keys;
      while rest != {}
        invariant mgr.Valid() && rest <= stubs.Keys
        invariant mgr.registry == stubs - rest
        decreases |rest|
      {
        var id :| id in rest;
        rest := rest - {id};
        mgr.Add(stubs[id]);
      }
      assert stubs - {} == stubs;
    }

    // ---------- Enforcement stage ----------

    /** Tick, evaluate, and enforce or reclaim one workload. */
    method StepOne(id: nat, all: map<nat, Workload>, w: World)
      requires Wired() && mgr.Valid() && reclaimer.Spaced()
      requires id in mgr.registry
      modifies mgr, kernel, reclaimer
      ensures mgr.Valid() && reclaimer.Spaced() && mgr.idList == old(mgr.idList)
      ensures id in mgr.registry && mgr.registry == old(mgr.registry)[id := mgr.registry[id]]
      ensures old(kernel.log) <= kernel.log
      ensures Stepped(mgr.cfg, reclaimer.cfg, reg.Content(), w, all, dryRun,
                      old(mgr.registry[id]), mgr.registry[id], kernel.log[|old(kernel.log)|..])
    {
      hide NextState, NextHysteresis, AnyShielded, Aggregate, Acted;
      ghost var before, g := mgr.registry[id], reg.Content();
      var flags := FlagsOf(mgr.registry[id], w);
      var activity := Aggregate(mgr.registry[id].pids, w.activities);
      mgr.Tick(id, flags.isFocused, flags.isVisible, activity, w.pressure, w.now);
      GuardDoesNotMatter(mgr.cfg, before.phase,
                         InputFor(before, false, flags.isFocused, flags.isVisible, activity, w.pressure, w.now),
                         AnyShielded(g, before.pids, w.evaluate(id)));
      ActOn(mgr.registry[id], flags, activity, all, w);
    }

    method ActOn(wl: Workload, flags: WorkspaceFlags, activity: ActivityState, all: map<nat, Workload>, w: World)
      requires Wired() && mgr.Valid() && reclaimer.Spaced()
      requires wl.id in mgr.registry && mgr.registry[wl.id] == wl
      modifies mgr, kernel, reclaimer
      ensures mgr.Valid() && reclaimer.Spaced() && mgr.idList == old(mgr.idList)
      ensures wl.id in mgr.registry && mgr.registry == old(mgr.registry)[wl.id := mgr.registry[wl.id]]
      ensures old(kernel.log) <= kernel.log
      ensures Acted(reclaimer.cfg, reg.Content(), w, all, dryRun, wl,
                    InputFor(wl, AnyShielded(reg.Content(), wl.pids, w.evaluate(wl.id)), flags.isFocused,
                             flags.isVisible, activity, w.pressure, w.now),
                    mgr.registry[wl.id], kernel.log[|old(kernel.log)|..])
    {
      hide Evaluate, Enforced, Reclaimed, MayReclaim, AnyShielded;
      if wl.tags.observed {
        return;
      }
      var guarded := reg.IsProtectedAny(wl.pids, w.evaluate(wl.id));
      var input := InputFor(wl, guarded, flags.isFocused, flags.isVisible, activity, w.pressure, w.now);
      var decision := Evaluate(wl.phase, input);
      if !dryRun {
        if decision == Reclaim {
          var done := reclaimer.Reclaim(wl, w.activities, all, w.moments(wl.id), w.canSpawn);
          if done {
            mgr.Store(wl.(phase := Phase(Terminated, wl.phase.hysteresis)));
          }
        } else {
          var _ := plane.Apply(wl, decision, w.check(wl.id), w.act(wl.id));
        }
      }
    }

    /** The same, with the record of inputs kept and the daemon's invariant restored. */
    method EnforceOne(id: nat, all: map<nat, Workload>, w: World)
      requires Consistent() && id in mgr.registry && mgr.registry[id].phase.state != Terminated
      modifies mgr, kernel, reclaimer, this`history, this`sentAt
      ensures Consistent() && mgr.idList == old(mgr.idList)
      ensures id in mgr.registry && mgr.registry == old(mgr.registry)[id := mgr.registry[id]]
      ensures old(kernel.log) <= kernel.log
      ensures Stepped(mgr.cfg, reclaimer.cfg, reg.Content(), w, all, dryRun,
                      old(mgr.registry[id]), mgr.registry[id], kernel.log[|old(kernel.log)|..])
      ensures id in old(history)
      ensures |old(sentAt)| == |old(kernel.log)|
      ensures sentAt == old(sentAt) + Stamps(|kernel.log| - |old(kernel.log)|, |old(history[id])| + 1)
      ensures SignalsAreFresh(kernel.log, sentAt, |old(kernel.log)|, history, {id})
      ensures history == old(history)[id := old(history[id]) + [InputOf(old(mgr.registry[id]), w, reg.Content())]]
      ensures dryRun ==> kernel.log == old(kernel.log)
    {
      hide Stepped, InputOf, SignalsJustified, AllHarmless, SignalsAreFresh, Recorded, Listed, Retain;
      ghost var registry, log, before, g := mgr.registry, kernel.log, mgr.registry[id], reg.Content();
      StepOne(id, all, w);
      ghost var sent := kernel.log[|log|..];
      assert kernel.log == log + sent;
      DryRunSendsNothing(mgr.cfg, reclaimer.cfg, g, w, all, dryRun, before, mgr.registry[id], sent);
      ConsistentAfterStep(mgr.cfg, reclaimer.cfg, g, w, all, dryRun, registry, own.pidToWl, nextId, history, log,
                          sentAt, id, mgr.registry[id], sent);
      sentAt := sentAt + Stamps(|sent|, |history[id]| + 1);
      history := history[id := history[id] + [InputOf(before, w, g)]];
    }

    /** What stage (f) has done once the workloads in done have been visited, since the log and the records were as
        given. */
    ghost predicate Visited(all: map<nat, Workload>, done: set<nat>, log: seq<Effect>,
                            records: map<nat, seq<TickInput>>, w: World)
      reads this, mgr, kernel, own, reg
    {
      SameButPhases(all, mgr.registry) && Pending(all, done, mgr.registry) &&
      log <= kernel.log && OnlyManaged(kernel.log[|log|..], all, own.pidToWl) &&
      Advanced(all, done, records, history, w, reg.Content()) &&
      SignalsAreFresh(kernel.log, sentAt, |log|, history, done) &&
      CarriedOut(mgr.cfg, reclaimer.cfg, reg.Content(), w, all, dryRun, history, done, kernel.log[|log|..],
                 mgr.registry) &&
      (dryRun ==> kernel.log == log)
    }

    /** One round of the loop over the registered ids. */
    method Visit(id: nat, all: map<nat, Workload>, w: World, ghost done: set<nat>, ghost log: seq<Effect>,
                 ghost records: map<nat, seq<TickInput>>)
      requires Consistent() && id in all && id !in done
      requires Visited(all, done, log, records, w)
      modifies mgr, kernel, reclaimer, this`history, this`sentAt
      ensures Consistent() && mgr.idList == old(mgr.idList)
      ensures Visited(all, done + {id}, log, records, w)
    {
      hide Stepped, InputOf, SignalsJustified, AllHarmless, Recorded, Retain, Advanced, Listed, OnlyManaged,
           SignalsAreFresh, CarriedOut;
      ghost var registry, sofar, before, stamps, g := mgr.registry, kernel.log, history, sentAt, reg.Content();
      if mgr.registry[id].phase.state != Terminated {
        EnforceOne(id, all, w);
        ghost var sent := kernel.log[|sofar|..];
        SentToManagedOnly(mgr.cfg, reclaimer.cfg, g, w, all, dryRun, all, registry, own.pidToWl, nextId,
                          id, mgr.registry[id], sent);
        ManagedExtends(sofar[|log|..], sent, all, own.pidToWl);
        assert kernel.log[|log|..] == sofar[|log|..] + sent;
        assert kernel.log == sofar + sent && sentAt == stamps + sentAt[|stamps|..];
        FreshJoins(sofar, sent, stamps, sentAt[|stamps|..], |log|, before, history, done, id);
        StepCarriedOut(mgr.cfg, reclaimer.cfg, g, w, all, dryRun, before, history, done, sofar[|log|..], sent,
                       registry, id, mgr.registry[id], nextId);
      } else {
        NoStepCarriedOut(mgr.cfg, reclaimer.cfg, g, w, all, dryRun, history, done, kernel.log[|log|..], registry, id,
                         nextId);
        FreshWidens(kernel.log, sentAt, |log|, history, done, done + {id});
      }
      AdvanceOne(all, done, records, before, history, w, g, id);
    }

    /** Stage (f): every registered workload that is not terminated is ticked once. */
    method EnforceAll(w: World)
      requires Consistent()
      modifies mgr, kernel, reclaimer, this`history, this`sentAt
      ensures Consistent() && mgr.idList == old(mgr.idList)
      ensures SameButPhases(old(mgr.registry), mgr.registry)
      ensures old(kernel.log) <= kernel.log
      ensures OnlyManaged(kernel.log[|old(kernel.log)|..], old(mgr.registry), own.pidToWl)
      ensures Advanced(old(mgr.registry), old(mgr.registry).Keys, old(history), history, w, reg.Content())
      ensures SignalsAreFresh(kernel.log, sentAt, |old(kernel.log)|, history, old(mgr.registry).Keys)
      ensures CarriedOut(mgr.cfg, reclaimer.cfg, reg.Content(), w, old(mgr.registry), dryRun, history,
                         old(mgr.registry).Keys, kernel.log[|old(kernel.log)|..], mgr.registry)
      ensures dryRun ==> kernel.log == old(kernel.log)
    {
      NothingSent(mgr.cfg, kernel.log, sentAt, history);
      hide Stepped, InputOf, SignalsJustified, AllHarmless, Recorded, Retain, Advanced, Listed, SameButPhases,
           OnlyManaged, SignalsAreFresh, CarriedOut;
      var all := mgr.registry;
      var ids := mgr.idList;
      ghost var log := kernel.log;
      NothingDone(all, history, w, reg.Content(), own.pidToWl);
      assert kernel.log[|log|..] == [];
      NothingCarriedOut(mgr.cfg, reclaimer.cfg, reg.Content(), w, all, dryRun, history);
      assert Visited(all, {}, log, old(history), w);
      hide Visited;
      VisitEach(ids, all, w, log, old(history));
      AllVisited(all, log, old(history), w);
    }

    /** The loop of stage (f). */
    method VisitEach(ids: seq<nat>, all: map<nat, Workload>, w: World, ghost log: seq<Effect>,
                     ghost records: map<nat, seq<TickInput>>)
      requires Consistent() && mgr.idList == ids
      requires Unique(ids) && forall id :: id in ids <==> id in all
      requires Visited(all, {}, log, records, w)
      modifies mgr, kernel, reclaimer, this`history, this`sentAt
      ensures Consistent() && mgr.idList == ids
      ensures Visited(all, all.Keys, log, records, w)
    {
      hide Consistent, Visited;
      ghost var done := {};
      for k := 0 to |ids|
        invariant Consistent() && mgr.idList == ids
        invariant Visited(all, done, log, records, w)
        invariant forall i :: 0 <= i < |ids| ==> (ids[i] in done <==> i < k)
        invariant done <= all.Keys
      {
        Visit(ids[k], all, w, done, log, records);
        done := done + {ids[k]};
      }
      assert done == all.Keys;
    }

    lemma AllVisited(all: map<nat, Workload>, log: seq<Effect>, records: map<nat, seq<TickInput>>, w: World)
      requires Visited(all, all.Keys, log, records, w)
      ensures SameButPhases(all, mgr.registry) && log <= kernel.log && (dryRun ==> kernel.log == log)
      ensures OnlyManaged(kernel.log[|log|..], all, own.pidToWl)
      ensures Advanced(all, all.Keys, records, history, w, reg.Content())
      ensures SignalsAreFresh(kernel.log, sentAt, |log|, history, all.Keys)
      ensures CarriedOut(mgr.cfg, reclaimer.cfg, reg.Content(), w, all, dryRun, history, all.Keys, kernel.log[|log|..],
                         mgr.registry)
    {
      hide SameButPhases, OnlyManaged, Advanced, SignalsAreFresh, CarriedOut;
    }

    // ---------- Classification stage ----------

    /** Creates a workload around an unowned process and takes ownership of it. */
    method Create(pid: Pid, node: ProcNode, tags: Tags, w: World)
      requires Consistent() && pid !in own.pidToWl
      requires !tags.isProtected && (tags.observed <==> tags.kind == Neutral)
      modifies mgr, own, this`nextId, this`history
      ensures Consistent() && nextId == old(nextId) + 1
      ensures old(nextId) !in old(mgr.registry)
      ensures mgr.registry == old(mgr.registry)[old(nextId) := NewWorkload(old(nextId), pid, node, tags, w)]
      ensures own.pidToWl == old(own.pidToWl)[pid := old(nextId)]
      ensures history == old(history)[old(nextId) := []] && old(nextId) !in old(history)
      ensures |ObservedIds(mgr.registry)| == |ObservedIds(old(mgr.registry))| + if tags.observed then 1 else 0
    {
      hide SignalsJustified, AllHarmless, Listed, Recorded, Inverse, ObservedIds;
      var wl := NewWorkload(nextId, pid, node, tags, w);
      ConsistentAfterCreate(mgr.cfg, mgr.registry, own.pidToWl, nextId, history, wl, pid);
      ObservedAfterCreate(mgr.registry, nextId, wl);
      SignalsStayJustified(mgr.cfg, kernel.log, sentAt, history, nextId);
      own.Assign(pid, nextId);
      mgr.Add(wl);
      history := history[nextId := []];
      nextId := nextId + 1;
    }

    /** Looks at one process of the snapshot: relabel its workload, create one, or leave it alone. */
    method FileOne(pid: Pid, node: ProcNode, w: World, observedCount: nat) returns (count: nat)
      requires Consistent() && |ObservedIds(mgr.registry)| <= observedCount
      modifies mgr, own, this`nextId, this`history
      ensures Consistent() && |ObservedIds(mgr.registry)| <= count
      ensures observedCount <= MAX_OBSERVED ==> count <= MAX_OBSERVED
      ensures Grown(old(mgr.registry), mgr.registry)
      ensures mgr.registry ==
                if Shielded(reg.Content(), pid, w.scan) then old(mgr.registry)
                else Filed(old(mgr.registry), old(own.pidToWl), old(nextId), observedCount < MAX_OBSERVED,
                           tickCount % RETRY_EVERY == 0, pid, node, w)
      ensures own.pidToWl ==
                if Shielded(reg.Content(), pid, w.scan) then old(own.pidToWl)
                else FiledOwners(old(own.pidToWl), old(nextId), observedCount < MAX_OBSERVED, pid, node, w)
      ensures old(nextId) !in old(mgr.registry)
      ensures count == observedCount + if !Shielded(reg.Content(), pid, w.scan) &&
                                          FoundsObserved(old(own.pidToWl), observedCount < MAX_OBSERVED, pid, node, w)
                                       then 1 else 0
      ensures RecordsOpened(old(history), history)
      ensures OwnersKept(old(own.pidToWl), own.pidToWl, old(nextId)) && old(nextId) <= nextId
    {
      hide SignalsJustified, AllHarmless, Listed, Recorded, Inverse, ObservedIds, Shielded, Unique, Reclassified;
      count := observedCount;
      OwnersAreIssued(mgr.registry, own.pidToWl, nextId, pid);
      var shielded := reg.IsProtected(pid, node.comm, w.scan);
      if shielded {
        return;
      }
      var id := own.WorkloadOf(pid);
      if id != 0 {
        Revisit(pid, id, node, w, observedCount < MAX_OBSERVED);
        return;
      }
      count := Found(pid, node, w, observedCount);
    }

    /** Creates a workload around an unowned process that is classified, or observed while there is room. */
    method Found(pid: Pid, node: ProcNode, w: World, observedCount: nat) returns (count: nat)
      requires Consistent() && |ObservedIds(mgr.registry)| <= observedCount && pid !in own.pidToWl
      modifies mgr, own, this`nextId, this`history
      ensures Consistent() && |ObservedIds(mgr.registry)| <= count
      ensures observedCount <= MAX_OBSERVED ==> count <= MAX_OBSERVED
      ensures Grown(old(mgr.registry), mgr.registry)
      ensures mgr.registry == Filed(old(mgr.registry), old(own.pidToWl), old(nextId), observedCount < MAX_OBSERVED,
                                    tickCount % RETRY_EVERY == 0, pid, node, w)
      ensures own.pidToWl ==
                FiledOwners(old(own.pidToWl), old(nextId), observedCount < MAX_OBSERVED, pid, node, w)
      ensures count == observedCount +
                if FoundsObserved(old(own.pidToWl), observedCount < MAX_OBSERVED, pid, node, w) then 1 else 0
      ensures RecordsOpened(old(history), history)
      ensures OwnersKept(old(own.pidToWl), own.pidToWl, old(nextId)) && old(nextId) <= nextId
    {
      hide Consistent, ObservedIds, Reclassified, IsObservable, Retries;
      count := observedCount;
      var c := w.classify(pid);
      if c.kind != Neutral {
        Create(pid, node, ClassifiedTags(c), w);
      } else if IsObservable(pid, node, w) && observedCount < MAX_OBSERVED {
        Create(pid, node, OBSERVED_TAGS, w);
        count := count + 1;
      }
    }

    /** Reclassifies the workload rooted at an owned process when that is due. */
    method Revisit(pid: Pid, id: nat, node: ProcNode, w: World, ghost room: bool)
      requires Consistent() && pid in own.pidToWl && own.pidToWl[pid] == id
      modifies mgr
      ensures Consistent() && |ObservedIds(mgr.registry)| <= |ObservedIds(old(mgr.registry))|
      ensures Grown(old(mgr.registry), mgr.registry)
      ensures mgr.registry ==
                Filed(old(mgr.registry), own.pidToWl, nextId, room, tickCount % RETRY_EVERY == 0, pid, node, w)
    {
      hide SignalsJustified, AllHarmless, Listed, Recorded, Inverse, ObservedIds;
      OwnersAreIssued(mgr.registry, own.pidToWl, nextId, pid);
      if id in mgr.registry && mgr.registry[id].rootPid == pid &&
         Retries(mgr.registry[id], node, tickCount % RETRY_EVERY == 0) {
        Relabel(id, Reclassified(mgr.registry[id], node, w.reclassify(pid)));
      }
    }

    method Relabel(id: nat, wl: Workload)
      requires Consistent() && id in mgr.registry && wl.id == id
      requires wl.pids == mgr.registry[id].pids && wl.phase == mgr.registry[id].phase && WorkloadOk(wl)
      requires wl.lastActive == mgr.registry[id].lastActive
      requires wl.tags.observed ==> mgr.registry[id].tags.observed
      modifies mgr
      ensures Consistent() && mgr.registry == old(mgr.registry)[id := wl]
      ensures |ObservedIds(mgr.registry)| <= |ObservedIds(old(mgr.registry))|
    {
      hide SignalsJustified, AllHarmless, Listed, Recorded, Inverse;
      ConsistentAfterRelabel(mgr.cfg, mgr.registry, own.pidToWl, nextId, history, id, wl);
      SubsetIsSmaller(ObservedIds(mgr.registry[id := wl]), ObservedIds(mgr.registry));
      mgr.Store(wl);
    }

    /** Stage (d): every process of the snapshot is looked at once, in any order; what becomes of the workloads that
        were there before does not depend on the order. */
    method ClassifyAll(w: World)
      requires Valid()
      modifies mgr, own, this`nextId, this`history
      ensures Valid() && Grown(old(mgr.registry), mgr.registry)
      ensures ReviewedSoFar(old(mgr.registry), old(own.pidToWl), reg.Content(), w, tickCount % RETRY_EVERY == 0, {},
                            mgr.registry)
      ensures OwnersKept(old(own.pidToWl), own.pidToWl, old(nextId))
      ensures IdsAreNew(old(mgr.registry), mgr.registry, old(nextId))
      ensures RecordsOpened(old(history), history)
      ensures Founded(old(mgr.registry), old(own.pidToWl), reg.Content(), w, {}, mgr.registry, own.pidToWl)
      ensures LeftOutWhenFull(old(mgr.registry), old(own.pidToWl), reg.Content(), w, {}, mgr.registry, own.pidToWl)
    {
      hide SignalsJustified, AllHarmless, Recorded, Inverse, Filed, Shielded, Reviewed, Founded, LeftOutWhenFull;
      var count := CountObserved();
      ghost var before, owned, firstNew, due, g :=
        mgr.registry, own.pidToWl, nextId, tickCount % RETRY_EVERY == 0, reg.Content();
      assert forall id :: id in before ==> id < firstNew && before[id].id == id;
      var rest := w.procs.Keys;
      NothingReviewed(before, owned, g, w, due);
      OwnersStay(owned, firstNew);
      NothingFounded(before, owned, g, w);
      NoneLeftOutYet(before, owned, g, w);
      hide ReviewedSoFar, OwnersKept, ObservedIds, NewObserved;
      assert LookedAt(before, owned, firstNew, w, rest, count);
      ClassifyEach(w, count, before, owned, firstNew);
    }

    /** What stage (d) has established when the processes in rest are still to be looked at. */
    ghost predicate LookedAt(before: map<nat, Workload>, owned: map<Pid, nat>, firstNew: nat, w: World, rest: set<Pid>,
                             count: nat)
      reads this, mgr, own, reg
    {
      firstNew <= nextId && |ObservedIds(mgr.registry)| <= count <= MAX_OBSERVED &&
      Grown(before, mgr.registry) &&
      ReviewedSoFar(before, owned, reg.Content(), w, tickCount % RETRY_EVERY == 0, rest, mgr.registry) &&
      OwnersKept(owned, own.pidToWl, firstNew) && IdsAreNew(before, mgr.registry, firstNew) &&
      Founded(before, owned, reg.Content(), w, rest, mgr.registry, own.pidToWl) &&
      LeftOutWhenFull(before, owned, reg.Content(), w, rest, mgr.registry, own.pidToWl) &&
      count == |ObservedIds(before)| + |NewObserved(before, mgr.registry)|
    }

    /** One round of the loop of stage (d). */
    method LookAt(pid: Pid, w: World, observedCount: nat, ghost before: map<nat, Workload>,
                  ghost owned: map<Pid, nat>, ghost firstNew: nat, ghost rest: set<Pid>)
      returns (count: nat)
      requires Consistent() && pid in rest && pid in w.procs
      requires forall id :: id in before ==> id < firstNew && before[id].id == id
      requires LookedAt(before, owned, firstNew, w, rest, observedCount)
      modifies mgr, own, this`nextId, this`history
      ensures Consistent() && LookedAt(before, owned, firstNew, w, rest - {pid}, count)
      ensures RecordsOpened(old(history), history)
    {
      hide Consistent, Filed, FiledOwners, Shielded, ObservedIds, ReviewedSoFar, OwnersKept, IdsAreNew, Founded,
           LeftOutWhenFull, NewObserved, FoundsObserved, RecordsOpened;
      ghost var due, g, room := tickCount % RETRY_EVERY == 0, reg.Content(), observedCount < MAX_OBSERVED;
      ghost var registry, pidToWl, next := mgr.registry, own.pidToWl, nextId;
      count := FileOne(pid, w.procs[pid], w, observedCount);
      RelabelsOld(before, owned, g, w, rest, registry, pidToWl, pid);
      OneMoreLookedAt(before, owned, g, w, due, rest, registry, pidToWl, next, room, pid, mgr.registry, own.pidToWl,
                      observedCount);
      ReviewOne(before, owned, firstNew, g, w, due, rest, registry, pidToWl, next, room, pid, mgr.registry);
      OwnersRemain(owned, pidToWl, firstNew);
      FoundOne(before, owned, g, w, due, rest, registry, pidToWl, next, room, pid, mgr.registry, own.pidToWl);
      OwnersJoin(owned, pidToWl, own.pidToWl, firstNew, next);
      FilingIssuesNewIds(before, firstNew, registry, pidToWl, next, room, due, pid, w.procs[pid], g, w, mgr.registry);
    }

    /** The loop of stage (d). */
    method ClassifyEach(w: World, observedCount: nat, ghost before: map<nat, Workload>, ghost owned: map<Pid, nat>,
                        ghost firstNew: nat)
      requires Consistent() && LookedAt(before, owned, firstNew, w, w.procs.Keys, observedCount)
      requires forall id :: id in before ==> id < firstNew && before[id].id == id
      modifies mgr, own, this`nextId, this`history
      ensures Consistent() && exists count :: LookedAt(before, owned, firstNew, w, {}, count)
      ensures RecordsOpened(old(history), history)
    {
      hide Consistent, LookedAt, RecordsOpened;
      var count, rest := observedCount, w.procs.Keys;
      NothingOpened(history);
      while rest != {}
        invariant Consistent() && rest <= w.procs.Keys
        invariant LookedAt(before, owned, firstNew, w, rest, count)
        invariant RecordsOpened(old(history), history)
        decreases |rest|
      {
        HasMember(rest);
        var pid :| pid in rest;
        ghost var records := history;
        count := LookAt(pid, w, count, before, owned, firstNew, rest);
        OpenedJoins(old(history), records, history);
        rest := rest - {pid};
      }
    }

    method CountObserved() returns (count: nat)
      requires mgr.Valid()
      ensures count == |ObservedIds(mgr.registry)|
    {
      count := 0;
      ghost var seen := {};
      for k := 0 to |mgr.idList|
        invariant forall i :: 0 <= i < |mgr.idList| ==>
                    (mgr.idList[i] in seen <==> i < k && mgr.registry[mgr.idList[i]].tags.observed)
        invariant seen <= mgr.registry.Keys && count == |seen|
      {
        if mgr.registry[mgr.idList[k]].tags.observed {
          count := count + 1;
          seen := seen + {mgr.idList[k]};
        }
      }
      assert seen == ObservedIds(mgr.registry);
    }

    // ---------- Cleanup stages ----------

    /** Stages (g) and (h): terminated workloads, dead pids and memberless workloads go, in this order. */
    method CleanUp(w: World)
      requires Consistent()
      modifies mgr, own, this`prevChildren
      ensures Consistent() && Shrunk(old(mgr.registry), mgr.registry)
      ensures mgr.registry == Survivors(old(mgr.registry), w)
      ensures own.pidToWl == old(own.pidToWl) - (old(prevChildren) - w.procs.Keys)
      ensures prevChildren == old(prevChildren) * w.procs.Keys
    {
      hide Inverse, Unique, Retain, SignalsJustified, AllHarmless, Listed, Recorded, Shrunk, Run;
      ghost var registry, pidToWl := mgr.registry, own.pidToWl;
      mgr.PruneDead();
      ghost var pruned := mgr.registry;
      ForgetDead(prevChildren - w.procs.Keys);
      prevChildren := prevChildren * w.procs.Keys;
      PruneAllPids(LivePids(w));
      Evict(w);
      SurvivorsAreFewer(registry, pruned, mgr.registry, w);
      SurvivorsStayOwned(registry, pidToWl, nextId, old(prevChildren), w);
      ConsistentAfterShrink(mgr.cfg, registry, mgr.registry, nextId, pidToWl, own.pidToWl, history);
    }

    method ForgetDead(dead: set<Pid>)
      requires own.Valid()
      modifies own
      ensures own.Valid() && own.pidToWl == old(own.pidToWl) - dead
    {
      hide Inverse;
      var rest := dead;
      while rest != {}
        invariant own.Valid() && rest <= dead
        invariant own.pidToWl == old(own.pidToWl) - (dead - rest)
        decreases |rest|
      {
        HasMember(rest);
        var pid :| pid in rest;
        rest := rest - {pid};
        own.Remove(pid);
      }
    }

    method PruneAllPids(live: set<Pid>)
      requires mgr.Valid()
      modifies mgr
      ensures mgr.Valid() && mgr.idList == old(mgr.idList)
      ensures mgr.registry == map id | id in old(mgr.registry) :: WithLivePids(old(mgr.registry)[id], live)
    {
      hide Retain;
      for k := 0 to |mgr.idList|
        invariant mgr.Valid() && mgr.idList == old(mgr.idList)
        invariant mgr.registry.Keys == old(mgr.registry).Keys
        invariant forall i :: 0 <= i < k ==>
                    mgr.registry[mgr.idList[i]] == WithLivePids(old(mgr.registry)[mgr.idList[i]], live)
        invariant forall i :: k <= i < |mgr.idList| ==> mgr.registry[mgr.idList[i]] == old(mgr.registry)[mgr.idList[i]]
      {
        mgr.PruneDeadPids(mgr.idList[k], live);
      }
      forall id | id in mgr.registry ensures mgr.registry[id] == WithLivePids(old(mgr.registry)[id], live) {
        assert id in mgr.idList;
      }
    }

    /** Removes every workload whose members have all exited. */
    method Evict(w: World)
      requires mgr.Valid()
      modifies mgr
      ensures mgr.Valid()
      ensures mgr.registry ==
                map id | id in old(mgr.registry) && HasLiveMember(old(mgr.registry)[id], w) :: old(mgr.registry)[id]
    {
      hide Retain, Unique, HasLiveMember;
      var expired := [];
      for k := 0 to |mgr.idList|
        invariant forall id :: id in expired <==> id in mgr.idList[..k] && !HasLiveMember(mgr.registry[id], w)
      {
        assert mgr.idList[..k + 1] == mgr.idList[..k] + [mgr.idList[k]];
        if !HasLiveMember(mgr.registry[mgr.idList[k]], w) {
          expired := expired + [mgr.idList[k]];
        }
      }
      assert mgr.idList[..|mgr.idList|] == mgr.idList;
      for k := 0 to |expired|
        invariant mgr.Valid()
        invariant forall id :: id in mgr.registry <==> id in old(mgr.registry) && id !in expired[..k]
        invariant forall id :: id in mgr.registry ==> mgr.registry[id] == old(mgr.registry)[id]
      {
        assert expired[..k + 1] == expired[..k] + [expired[k]];
        mgr.Remove(expired[k]);
      }
      assert expired[..|expired|] == expired;
    }

    // ---------- The tick and the loop ----------

    /** One tick: classify, enforce, clean up. filed is the registry after classification, enforced the one after the
        decisions have been carried out; clock is a time no record goes beyond. */
    method Tick(w: World, ghost clock: nat)
      returns (ghost filed: map<nat, Workload>, ghost enforced: map<nat, Workload>)
      requires Valid()
      modifies this`nextId, this`history, this`sentAt, this`retried, this`prevChildren, mgr, own, kernel, reclaimer
      ensures Valid() && old(kernel.log) <= kernel.log
      ensures dryRun ==> kernel.log == old(kernel.log)
      ensures prevChildren == w.procs.Keys
      ensures OnlyLive(mgr.registry, w)
      ensures ObservedUntouched(mgr.registry, kernel.log[|old(kernel.log)|..])
      ensures RecordsGrow(old(history), history)
      ensures forall k :: |old(kernel.log)| <= k < |kernel.log| && IsHarsh(kernel.log[k]) ==>
                kernel.log[k].onBehalf in history && sentAt[k] == |history[kernel.log[k].onBehalf]|
      ensures retried == old(retried) + [tickCount % RETRY_EVERY == 0]
      ensures forall id :: id in mgr.registry && id in old(mgr.registry) ==>
                mgr.registry[id].tags == Reviewed(old(mgr.registry)[id], old(own.pidToWl), reg.Content(), w,
                                                  tickCount % RETRY_EVERY == 0).tags
      ensures OwnershipLasts(old(mgr.registry), old(own.pidToWl), mgr.registry, own.pidToWl,
                             kernel.log, |old(kernel.log)|, [w])
      ensures ReviewedSoFar(old(mgr.registry), old(own.pidToWl), reg.Content(), w, tickCount % RETRY_EVERY == 0, {},
                            filed)
      ensures Founded(old(mgr.registry), old(own.pidToWl), reg.Content(), w, {}, filed, own.pidToWl)
      ensures LeftOutWhenFull(old(mgr.registry), old(own.pidToWl), reg.Content(), w, {}, filed, own.pidToWl)
      ensures CarriedOut(mgr.cfg, reclaimer.cfg, reg.Content(), w, filed, dryRun, history, filed.Keys,
                         kernel.log[|old(kernel.log)|..], enforced)
      ensures SameButPhases(filed, enforced) && mgr.registry == Survivors(enforced, w)
      ensures OnlyQuietSignalled(kernel.log, sentAt, history)
      ensures old(OnTime(history, clock)) && clock <= w.now ==>
                OnTime(history, w.now) &&
                KillsComeLate(mgr.cfg, kernel.log, |old(kernel.log)|, old(mgr.registry), w.now)
    {
      hide SignalsJustified, AllHarmless, Recorded, Listed, ObservedIds, Reviewed, Inverse, Unique, OnlyLive,
           ObservedUntouched, RecordsGrow, Grown, OwnershipLasts, OwnersKept, IdsAreNew, OnlyManaged, ReviewedSoFar,
           Founded, LeftOutWhenFull, CarriedOut, SameButPhases, Survivors, OnlyQuietSignalled, OnTime, KillsComeLate,
           RecordsOpened, Advanced, SignalsAreFresh;
      ghost var before, owned, records, firstNew, gone :=
        mgr.registry, own.pidToWl, history, nextId, prevChildren - w.procs.Keys;
      ClassifyAll(w);
      filed := mgr.registry;
      AllReviewed(before, owned, reg.Content(), w, tickCount % RETRY_EVERY == 0, filed);
      ghost var filedOwned, begun, filedNext := own.pidToWl, history, nextId;
      enforced := Act(w, records);
      FoundedLasts(before, owned, reg.Content(), w, filed, filedOwned, gone);
      JustifiedIsQuiet(mgr.cfg, kernel.log, sentAt, history);
      RecordsShareOrigin(mgr.cfg, mgr.registry, nextId, history);
      KillsOfTickAreLate(mgr.cfg, before, firstNew, records, filed, filedNext, begun, history, kernel.log, sentAt,
                         |old(kernel.log)|, w, reg.Content(), clock);
      OwnershipLastsOneTick(before, owned, firstNew, filed, filedOwned, mgr.registry, gone, kernel.log,
                            |old(kernel.log)|, w);
      retried := retried + [tickCount % RETRY_EVERY == 0];
    }

    /** The part of a tick after classification: enforce, clean up. */
    method Act(w: World, ghost records: map<nat, seq<TickInput>>) returns (ghost enforced: map<nat, Workload>)
      requires Valid() && RecordsOpened(records, history)
      modifies this`history, this`sentAt, this`prevChildren, mgr, own, kernel, reclaimer
      ensures Valid() && old(kernel.log) <= kernel.log
      ensures dryRun ==> kernel.log == old(kernel.log)
      ensures prevChildren == w.procs.Keys
      ensures OnlyLive(mgr.registry, w)
      ensures ObservedUntouched(mgr.registry, kernel.log[|old(kernel.log)|..])
      ensures RecordsGrow(records, history)
      ensures forall k :: |old(kernel.log)| <= k < |kernel.log| && IsHarsh(kernel.log[k]) ==>
                kernel.log[k].onBehalf in history && sentAt[k] == |history[kernel.log[k].onBehalf]|
      ensures forall id :: id in mgr.registry ==>
                id in old(mgr.registry) && mgr.registry[id].tags == old(mgr.registry)[id].tags
      ensures OnlyManaged(kernel.log[|old(kernel.log)|..], old(mgr.registry), old(own.pidToWl))
      ensures own.pidToWl == old(own.pidToWl) - (old(prevChildren) - w.procs.Keys)
      ensures Advanced(old(mgr.registry), old(mgr.registry).Keys, old(history), history, w, reg.Content())
      ensures SignalsAreFresh(kernel.log, sentAt, |old(kernel.log)|, history, old(mgr.registry).Keys)
      ensures CarriedOut(mgr.cfg, reclaimer.cfg, reg.Content(), w, old(mgr.registry), dryRun, history,
                         old(mgr.registry).Keys, kernel.log[|old(kernel.log)|..], enforced)
      ensures SameButPhases(old(mgr.registry), enforced) && mgr.registry == Survivors(enforced, w)
    {
      hide Inverse, Unique, Retain, AllHarmless, Recorded, Listed, InputOf, Run, Advanced, JustifiedAt,
           SameButPhases, OnlyManaged, ObservedIds, OnlyLive, ObservedUntouched, Survivors, Shrunk, NewInput,
           CarriedOut, Warrants;
      ghost var registry, pidToWl, first, g := mgr.registry, own.pidToWl, history, reg.Content();
      EnforceAll(w);
      ghost var sent := kernel.log[|old(kernel.log)|..];
      enforced := mgr.registry;
      AdvancedGrows(records, registry, registry.Keys, first, history, w, g);
      prevChildren := prevChildren + w.procs.Keys;
      assert prevChildren - w.procs.Keys == old(prevChildren) - w.procs.Keys;
      CleanUp(w);
      TickIsContained(registry, enforced, mgr.registry, pidToWl, nextId, sent, w);
      TagsSurvive(registry, enforced, mgr.registry, w);
    }

    /** One round of the main loop: a positive maxTicks counts it and ends the loop once it is exceeded. */
    method Round(w: World, ghost clock: nat) returns (stop: bool)
      requires Valid()
      modifies this, mgr, own, kernel, reclaimer
      ensures Valid() && old(kernel.log) <= kernel.log
      ensures dryRun ==> kernel.log == old(kernel.log)
      ensures tickCount == old(tickCount) + (if maxTicks > 0 then 1 else 0)
      ensures stop <==> maxTicks > 0 && tickCount > maxTicks
      ensures stop ==> unchanged(mgr) && unchanged(own) && unchanged(kernel) && retried == old(retried) &&
                       history == old(history)
      ensures !stop && old(OnTime(history, clock)) && clock <= w.now ==> OnTime(history, w.now)
      ensures !stop ==> retried == old(retried) + [tickCount % RETRY_EVERY == 0]
      ensures !stop ==> OwnershipLasts(old(mgr.registry), old(own.pidToWl), mgr.registry, own.pidToWl,
                                       kernel.log, |old(kernel.log)|, [w])
    {
      hide Inverse, Unique, Retain, SignalsJustified, AllHarmless, Recorded, Listed, ObservedIds, OwnershipLasts,
           OnTime;
      stop := false;
      if maxTicks > 0 {
        tickCount := tickCount + 1;
        if tickCount > maxTicks {
          return true;
        }
      }
      var _, _ := Tick(w, clock);
    }

    /** The main loop, for any sequence of worlds; a positive maxTicks ends it early. The counter moves only then, so
        without a limit a fresh daemon retries observed workloads at every tick and not at every tenth. */
    method Loop(worlds: seq<World>, ghost clock: nat)
      requires Valid()
      modifies this, mgr, own, kernel, reclaimer
      ensures Valid() && old(kernel.log) <= kernel.log
      ensures dryRun ==> kernel.log == old(kernel.log)
      ensures maxTicks <= 0 ==> tickCount == old(tickCount) && |retried| == |old(retried)| + |worlds|
      ensures maxTicks > 0 ==>
                var left := if old(tickCount) < maxTicks then maxTicks - old(tickCount) else 0;
                tickCount == old(tickCount) + Least(|worlds|, left + 1) &&
                |retried| == |old(retried)| + Least(|worlds|, left)
      ensures old(retried) <= retried
      ensures old(tickCount) == 0 ==> RetriedWhenDue(retried, |old(retried)|, maxTicks)
      ensures OwnershipLasts(old(mgr.registry), old(own.pidToWl), mgr.registry, own.pidToWl,
                             kernel.log, |old(kernel.log)|, worlds)
      ensures |ObservedIds(mgr.registry)| <= 128
      ensures OnlyQuietSignalled(kernel.log, sentAt, history)
      ensures old(OnTime(history, clock)) && ClockAscends(worlds, clock) ==>
                AllKillsLate(mgr.cfg, kernel.log, sentAt, history)
    {
      hide Valid, OwnershipLasts, RetriedWhenDue, OnTime, AllKillsLate, OnlyQuietSignalled;
      ghost var now := clock;
      NoTickYet(mgr.registry, own.pidToWl, kernel.log, retried, maxTicks);
      assert worlds[..0] == [] && worlds[..|worlds|] == worlds;
      for k := 0 to |worlds|
        invariant Valid() && old(kernel.log) <= kernel.log
        invariant dryRun ==> kernel.log == old(kernel.log)
        invariant tickCount == old(tickCount) + (if maxTicks > 0 then k else 0)
        invariant maxTicks > 0 && k > 0 ==> tickCount <= maxTicks
        invariant old(retried) <= retried && |retried| == |old(retried)| + k
        invariant old(tickCount) == 0 ==> RetriedWhenDue(retried, |old(retried)|, maxTicks)
        invariant OwnershipLasts(old(mgr.registry), old(own.pidToWl), mgr.registry, own.pidToWl,
                                 kernel.log, |old(kernel.log)|, worlds[..k])
        invariant old(OnTime(history, clock)) && ClockAscends(worlds, clock) ==> OnTime(history, now)
        invariant now == if k == 0 then clock else worlds[k - 1].now
      {
        ghost var registry, owned, log, before := mgr.registry, own.pidToWl, kernel.log, retried;
        var stop := Round(worlds[k], now);
        if stop {
          AliveInAll(old(mgr.registry), old(own.pidToWl), mgr.registry, own.pidToWl, kernel.log,
                     |old(kernel.log)|, worlds, k);
          break;
        }
        if old(tickCount) == 0 { OneMoreRetry(before, |old(retried)|, maxTicks, tickCount % RETRY_EVERY == 0); }
        OwnershipLastsLonger(old(mgr.registry), old(own.pidToWl), registry, owned, mgr.registry, own.pidToWl, log,
                             kernel.log, |old(kernel.log)|, worlds, k);
        now := worlds[k].now;
      }
      SignalsAreSound(now);
    }

    lemma SignalsAreSound(clock: nat)
      requires Valid()
      ensures |ObservedIds(mgr.registry)| <= 128
      ensures OnlyQuietSignalled(kernel.log, sentAt, history)
      ensures OnTime(history, clock) ==> AllKillsLate(mgr.cfg, kernel.log, sentAt, history)
    {
      hide OnTime, AllKillsLate, SignalsJustified, OnlyQuietSignalled, Dated;
      JustifiedIsQuiet(mgr.cfg, kernel.log, sentAt, history);
      if OnTime(history, clock) { KillsAreLate(mgr.cfg, mgr.registry, kernel.log, sentAt, history, clock); }
    }
  }

  function Least(a: nat, b: nat): nat { if a < b then a else b }
}
