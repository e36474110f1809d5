/** What the state machine and the policy engine guarantee together, told by outcome: which inputs lead to a state or a
    decision, and what no run ever leads to. */
module Guarantees {
  import opened Pressure
  import opened StateMachine
  import opened Types

  predicate IsHeadless(input: TickInput) { input.tags.kind == Service || input.tags.kind == Vm }

  predicate IsStreamingBrowser(input: TickInput) { input.tags.isBrowserRoot && input.tags.latencySensitive }

  // ---------- Headless workloads ----------

  /** Services and VMs are never stopped or killed, in no run; they are throttled exactly when nothing speaks for them
      and memory is critically short, and left alone otherwise. */
  lemma HeadlessIsNeverStopped(cfg: DecayConfig, p: Phase, inputs: seq<TickInput>)
    requires |inputs| > 0 && IsHeadless(inputs[|inputs| - 1])
    ensures var d, last := LastDecision(cfg, p, inputs), inputs[|inputs| - 1];
            d != Freeze && d != Reclaim && (d == KeepFull <==> last.tags.isProtected || last.guarded) &&
            (d == Throttle <==> Quiet(last) && !last.guarded && last.pressure == Critical)
  {
    hide NextPhase;
  }

  // ---------- Presence and execution ----------

  /** Executing workloads are at most moved to the background. */
  lemma ExecutingIsKept(cfg: DecayConfig, p: Phase, inputs: seq<TickInput>)
    requires |inputs| > 0 && inputs[|inputs| - 1].activity == Executing
    ensures LastDecision(cfg, p, inputs).Severity() <= KeepBackground.Severity()
    ensures var last := inputs[|inputs| - 1];
            last.Shown() && last.Managed() && !IsHeadless(last) ==> LastDecision(cfg, p, inputs) == KeepFull
  {
    hide NextPhase;
  }

  lemma {:induction false} NeverTerminates(cfg: DecayConfig, p: Phase, inputs: seq<TickInput>)
    requires p.state != Terminated
    ensures Run(cfg, p, inputs).state != Terminated
  {
    if inputs != [] {
      NeverTerminates(cfg, p, inputs[..|inputs| - 1]);
    }
  }

  /** So are workloads on a focused or visible workspace; in full when nothing else is the matter with them. */
  lemma ShownIsKept(cfg: DecayConfig, p: Phase, inputs: seq<TickInput>)
    requires p.state != Terminated && |inputs| > 0
    ensures var last := inputs[|inputs| - 1];
            last.Shown() ==> LastDecision(cfg, p, inputs).Severity() <= KeepBackground.Severity()
  {
    NeverTerminates(cfg, p, inputs[..|inputs| - 1]);
  }

  /** Without memory pressure no run from a fresh workload ends in anything harsher. */
  lemma {:induction false} NoPressureNoHarm(cfg: DecayConfig, p: Phase, inputs: seq<TickInput>)
    requires !Decayed(p.state) && forall k :: 0 <= k < |inputs| ==> inputs[k].pressure == Normal
    ensures !Decayed(Run(cfg, p, inputs).state)
    ensures |inputs| > 0 ==> LastDecision(cfg, p, inputs).Severity() <= KeepBackground.Severity()
  {
    if |inputs| > 0 {
      NoPressureNoHarm(cfg, p, inputs[..|inputs| - 1]);
    }
  }

  // ---------- Each decision, exactly ----------

  /** Nothing speaks for the workload: no protection, no execution, nobody watching, no open window. */
  predicate IsExposed(p: Phase, input: TickInput) {
    Quiet(input) && !input.guarded && !IsHeadless(input) && p.hysteresis <= 0
  }

  /** A browser with live connections is never reclaimed, frozen only when memory is critically short, and throttled
      one level below that. */
  lemma StreamingBrowserIsSpared(cfg: DecayConfig, p: Phase, inputs: seq<TickInput>)
    requires p.state != Terminated && |inputs| > 0 && IsStreamingBrowser(inputs[|inputs| - 1])
    requires !IsHeadless(inputs[|inputs| - 1])
    ensures var d, last, phase := LastDecision(cfg, p, inputs), inputs[|inputs| - 1], Run(cfg, p, inputs);
            d != Reclaim && (d == Freeze <==> IsExposed(phase, last) && last.pressure == Critical) &&
            (d == Throttle <==> IsExposed(phase, last) && last.pressure == High)
  {
    ShownIsKept(cfg, p, inputs);
  }

  /** For every other workload: reclaimed from RECLAIMABLE unless an AI owns it, frozen when idle or aging at HIGH or
      above, throttled below that, and only when exposed. */
  lemma OrdinaryDecisions(cfg: DecayConfig, p: Phase, inputs: seq<TickInput>)
    requires p.state != Terminated && |inputs| > 0
    requires !IsHeadless(inputs[|inputs| - 1]) && !IsStreamingBrowser(inputs[|inputs| - 1])
    ensures var d, last, phase := LastDecision(cfg, p, inputs), inputs[|inputs| - 1], Run(cfg, p, inputs);
            var exposed, high := IsExposed(phase, last), last.pressure == High || last.pressure == Critical;
            (d == Reclaim <==> exposed && phase.state == Reclaimable && !last.tags.aiOwned) &&
            (d == Freeze <==> exposed && ((phase.state == Reclaimable && last.tags.aiOwned) ||
                                          ((phase.state == Idle || phase.state == Aging) && high))) &&
            (d == Throttle <==> exposed && ((phase.state == Idle && last.pressure == Moderate) ||
                                            (phase.state == Aging && !high)))
  {
    ShownIsKept(cfg, p, inputs);
    hide NextPhase;
  }

  /** Full resources go to the protected, and to the managed ones somebody watches, headless ones excepted. */
  lemma FullResourcesAreExact(cfg: DecayConfig, p: Phase, inputs: seq<TickInput>)
    requires p.state != Terminated && |inputs| > 0
    ensures var last := inputs[|inputs| - 1];
            LastDecision(cfg, p, inputs) == KeepFull <==>
            last.tags.isProtected || last.guarded || (last.Managed() && last.Shown() && !IsHeadless(last))
  {
    NeverTerminates(cfg, p, inputs[..|inputs| - 1]);
  }

  // ---------- What a signal's record must say ----------

  /** The record up to now justifies killing the workload, or only stopping it: it is quiet, ordinary and unguarded; a
      kill ends the quiet stretch that reclaiming needs, a stop comes under pressure or in place of a kill an AI
      workload is spared. */
  ghost predicate Warrants(cfg: DecayConfig, inputs: seq<TickInput>, kill: bool) {
    |inputs| > 0 &&
    var last := inputs[|inputs| - 1];
    Quiet(last) && !last.guarded && !IsHeadless(last) &&
    if kill then ReclaimHistory(cfg, inputs) && !last.tags.aiOwned
    else !last.tags.isBrowserRoot &&
         (last.pressure.AtLeast(High) || (last.tags.aiOwned && ReclaimHistory(cfg, inputs)))
  }

  lemma DecisionsAreWarranted(cfg: DecayConfig, p: Phase, inputs: seq<TickInput>)
    requires !Decayed(p.state) && p.state != Terminated && |inputs| > 0
    ensures LastDecision(cfg, p, inputs) == Reclaim ==> Warrants(cfg, inputs, true)
    ensures LastDecision(cfg, p, inputs) == Freeze && !inputs[|inputs| - 1].tags.isBrowserRoot ==>
              Warrants(cfg, inputs, false)
  {
    hide LastDecision, Run, ReclaimHistory;
    if IsHeadless(inputs[|inputs| - 1]) {
      HeadlessIsNeverStopped(cfg, p, inputs);
    } else if IsStreamingBrowser(inputs[|inputs| - 1]) {
      StreamingBrowserIsSpared(cfg, p, inputs);
    } else {
      OrdinaryDecisions(cfg, p, inputs);
      DecayedStatesHaveHistory(cfg, p, inputs);
    }
  }

  /** All inputs of a record count from the same last use. */
  ghost predicate SameOrigin(inputs: seq<TickInput>) {
    forall k :: 0 <= k < |inputs| ==> inputs[k].lastActive == inputs[0].lastActive
  }

  ghost predicate TimesAscend(inputs: seq<TickInput>) {
    forall i, j :: 0 <= i < j < |inputs| ==> inputs[i].now <= inputs[j].now
  }

  /** The hard limit, in milliseconds: what is reclaimed was last used so many minutes ago. */
  lemma ReclaimedIsOld(cfg: DecayConfig, inputs: seq<TickInput>)
    requires ReclaimHistory(cfg, inputs) && SameOrigin(inputs) && TimesAscend(inputs) && cfg.ageHard > 0
    ensures var last := inputs[|inputs| - 1]; last.now >= last.lastActive + 60000 * cfg.ageHard
  {
    hide MinutesSince;
    var i, j :| 0 <= i < j < |inputs| && SoftDue(cfg, inputs[i]) && HardDue(cfg, inputs[j]) && QuietSince(inputs, i);
    AgeInMilliseconds(inputs[j].now, inputs[j].lastActive, cfg.ageHard);
    assert j < |inputs| - 1 ==> inputs[j].now <= inputs[|inputs| - 1].now;
  }

  // ---------- Each state, exactly ----------

  /** The ways into each state, for managed workloads. */
  lemma TransitionsAreExact(cfg: DecayConfig, p: Phase, input: TickInput)
    requires input.Managed() && p.state != Terminated
    ensures var s, busy := NextState(cfg, p, input), input.activity == Executing;
            (s == Active <==> input.Shown() && !(p.state == Idle && busy)) &&
            (s == BackgroundExecuting <==>
              (p.state == Idle && busy) || (!input.Shown() &&
                if p.state == BackgroundExecuting then p.hysteresis > 0 || input.activity != Resting else busy)) &&
            (s == Aging <==> Quiet(input) && ((p.state == Idle && SoftDue(cfg, input)) ||
                                              (p.state == Aging && !HardDue(cfg, input)))) &&
            (s == Reclaimable <==> Quiet(input) && (p.state == Reclaimable ||
                                                    (p.state == Aging && HardDue(cfg, input)))) &&
            s != Discovered && s != Terminated
  {}

  /** What a tick does to the hysteresis window of a managed workload, state by state. */
  lemma WindowIsExact(cfg: DecayConfig, p: Phase, input: TickInput)
    requires input.Managed() && p.hysteresis >= 0
    ensures var left := NextHysteresis(cfg, p, input);
            match p.state
            case Active =>
              left == if input.Shown() then 0 else if p.hysteresis > 0 then p.hysteresis else cfg.hysteresisTicks
            case BackgroundExecuting =>
              left == if input.Shown() || p.hysteresis == 0 then 0 else p.hysteresis - 1
            case _ => left == p.hysteresis
  {}

  /** An unmanaged workload follows presence alone, a terminated one stays so. */
  lemma UnmanagedTransitions(cfg: DecayConfig, p: Phase, input: TickInput)
    ensures input.tags.isProtected ==> NextState(cfg, p, input) == Active
    ensures !input.tags.isProtected && input.tags.observed ==>
              (NextState(cfg, p, input) == Active <==> input.Shown()) &&
              (NextState(cfg, p, input) == BackgroundExecuting <==> !input.Shown() && input.activity == Executing) &&
              (NextState(cfg, p, input) == Idle <==> !input.Shown() && input.activity != Executing)
    ensures input.Managed() && p.state == Terminated ==> NextState(cfg, p, input) == Terminated
    ensures !input.Managed() ==> NextHysteresis(cfg, p, input) == p.hysteresis
  {}
}
