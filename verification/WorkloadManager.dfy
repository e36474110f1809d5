/** The workload registry: a map of workloads beside an insertion-ordered id list, ticked in place. */
module Registry {
  import opened Sequences
  import opened StateMachine
  import opened Types

  /** What the tick of a workload is given, apart from the registry verdict on its pids. */
  function InputFor(wl: Workload, guarded: bool, isFocused: bool, isVisible: bool,
                    activity: ActivityState, pressure: PressureLevel, now: nat): TickInput {
    TickInput(wl.tags, guarded, isFocused, isVisible, activity, pressure, now, wl.lastActive)
  }

  class WorkloadManager {
    const cfg: DecayConfig
    var registry: map<nat, Workload>
    var idList: seq<nat>

    ghost predicate Valid()
      reads this
    {
      Unique(idList) && (forall id :: id in idList <==> id in registry) &&
      forall id :: id in registry ==> registry[id].id == id
    }

    constructor (cfg: DecayConfig)
      ensures Valid() && registry == map[] && idList == [] && this.cfg == cfg
    {
      this.cfg := cfg;
      registry, idList := map[], [];
    }

    method Add(wl: Workload)
      requires Valid()
      modifies this
      ensures Valid() && registry == old(registry)[wl.id := wl]
      ensures idList == if wl.id in old(registry) then old(idList) else old(idList) + [wl.id]
    {
      if wl.id !in registry {
        idList := idList + [wl.id];
      }
      registry := registry[wl.id := wl];
    }

    method Remove(id: nat)
      requires Valid()
      modifies this
      ensures Valid() && registry == old(registry) - {id}
      ensures idList == Retain(old(idList), registry.Keys)
    {
      registry := registry - {id};
      RetainMembers(idList, registry.Keys);
      RetainKeepsUnique(idList, registry.Keys);
      idList := Retain(idList, registry.Keys);
    }

    /** Writes back a workload fetched by its id. */
    method Store(wl: Workload)
      requires Valid() && wl.id in registry
      modifies this
      ensures Valid() && idList == old(idList) && registry == old(registry)[wl.id := wl]
    {
      registry := registry[wl.id := wl];
    }

    /** Drops exactly the terminated workloads; the others keep their order. */
    method PruneDead()
      requires Valid()
      modifies this
      ensures Valid() && idList == Retain(old(idList), registry.Keys)
      ensures forall id :: id in registry <==> id in old(registry) && old(registry)[id].phase.state != Terminated
      ensures forall id :: id in registry ==> registry[id] == old(registry)[id]
    {
      hide Retain, Unique;
      var dead := CollectDead();
      RetainAll(idList, registry.Keys);
      for i := 0 to |dead|
        invariant Valid() && idList == Retain(old(idList), registry.Keys)
        invariant forall id :: id in registry <==> id in old(registry) && id !in dead[..i]
        invariant forall id :: id in registry ==> registry[id] == old(registry)[id]
      {
        ghost var keys := registry.Keys;
        assert dead[..i + 1] == dead[..i] + [dead[i]];
        Remove(dead[i]);
        RetainTwice(old(idList), keys, registry.Keys);
        assert keys * registry.Keys == registry.Keys;
      }
      assert dead[..|dead|] == dead;
    }

    method CollectDead() returns (dead: seq<nat>)
      requires Valid()
      ensures forall id :: id in dead <==> id in registry && registry[id].phase.state == Terminated
    {
      dead := [];
      for i := 0 to |idList|
        invariant forall id :: id in dead <==> id in idList[..i] && registry[id].phase.state == Terminated
      {
        assert idList[..i + 1] == idList[..i] + [idList[i]];
        if registry[idList[i]].phase.state == Terminated {
          dead := dead + [idList[i]];
        }
      }
      assert idList[..|idList|] == idList;
    }

    /** Drops the member pids that are no longer alive. */
    method PruneDeadPids(id: nat, live: set<Pid>)
      requires Valid()
      modifies this
      ensures Valid() && idList == old(idList)
      ensures id !in old(registry) ==> registry == old(registry)
      ensures id in old(registry) ==>
                var wl := old(registry)[id]; registry == old(registry)[id := wl.(pids := Retain(wl.pids, live))]
    {
      if id !in registry {
        return;
      }
      var wl := registry[id];
      registry := registry[id := wl.(pids := Retain(wl.pids, live))];
    }

    /** One state transition of one workload, written in place. */
    method Tick(id: nat, isFocused: bool, isVisible: bool, activity: ActivityState, pressure: PressureLevel, now: nat)
      requires Valid() && id in registry
      modifies this
      ensures Valid() && idList == old(idList)
      ensures var wl := old(registry)[id];
              registry == old(registry)[id := wl.(phase :=
                NextPhase(cfg, wl.phase, InputFor(wl, false, isFocused, isVisible, activity, pressure, now)))]
    {
      hide NextPhase;
      var wl := registry[id];
      var state, ticks := Advance(wl, isFocused || isVisible, activity, pressure, now,
                                  InputFor(wl, false, isFocused, isVisible, activity, pressure, now));
      registry := registry[id := wl.(phase := Phase(state, ticks))];
    }

    /** The switch over the states. */
    method Advance(wl: Workload, shown: bool, activity: ActivityState, pressure: PressureLevel, now: nat,
                   ghost input: TickInput) returns (state: WorkloadState, ticks: int)
      requires input.tags == wl.tags && input.Shown() == shown && input.activity == activity
      requires input.pressure == pressure && input.now == now && input.lastActive == wl.lastActive
      ensures Phase(state, ticks) == NextPhase(cfg, wl.phase, input)
    {
      state, ticks := wl.phase.state, wl.phase.hysteresis;
      if wl.tags.isProtected {
        state := Active;
      } else if wl.tags.observed {
        state := if shown then Active else if activity == Executing then BackgroundExecuting else Idle;
      } else {
        match state
        case Discovered =>
          if shown { state := Active; }
          else if activity == Executing { state := BackgroundExecuting; }
          else { state := Idle; }
        case Active =>
          if !shown {
            if ticks == 0 { ticks := cfg.hysteresisTicks; }
            if activity == Executing { state := BackgroundExecuting; } else { state := Idle; }
          } else {
            ticks := 0;
          }
        case BackgroundExecuting =>
          if shown {
            ticks := 0;
            state := Active;
          } else if ticks > 0 {
            ticks := ticks - 1;
          } else if activity == Resting {
            state := Idle;
          }
        case Idle =>
          if activity == Executing {
            state := BackgroundExecuting;
          } else if shown {
            state := Active;
          } else {
            var age := MinutesSince(now, wl.lastActive);
            if age >= cfg.ageSoft && pressure.AtLeast(Moderate) { state := Aging; }
          }
        case Aging =>
          if shown {
            state := Active;
          } else if activity == Executing {
            state := BackgroundExecuting;
          } else {
            var age := MinutesSince(now, wl.lastActive);
            if age >= cfg.ageHard && pressure.AtLeast(High) { state := Reclaimable; }
          }
        case Reclaimable =>
          if shown {
            state := Active;
          } else if activity == Executing {
            state := BackgroundExecuting;
          }
        case Terminated =>
      }
    }
  }
}
