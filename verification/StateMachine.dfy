/** The seven-state workload machine and what holds over all its runs. */
module StateMachine {
  import opened Types

  // ---------- One tick ----------

  /** Where presence and activity alone put a workload. */
  function ByPresence(input: TickInput): WorkloadState {
    if input.Shown() then Active
    else if input.activity == Executing then BackgroundExecuting
    else Idle
  }

  function NextState(cfg: DecayConfig, p: Phase, input: TickInput): WorkloadState {
    if input.tags.isProtected then Active
    else if input.tags.observed then ByPresence(input)
    else match p.state
      case Discovered => ByPresence(input)
      case Active => ByPresence(input)
      case BackgroundExecuting =>
        if input.Shown() then Active
        else if p.hysteresis <= 0 && input.activity == Resting then Idle
        else BackgroundExecuting
      case Idle =>
        if input.activity == Executing then BackgroundExecuting
        else if input.Shown() then Active
        else if SoftDue(cfg, input) then Aging
        else Idle
      case Aging =>
        if input.Shown() || input.activity == Executing then ByPresence(input)
        else if HardDue(cfg, input) then Reclaimable
        else Aging
      case Reclaimable =>
        if input.Shown() || input.activity == Executing then ByPresence(input)
        else Reclaimable
      case Terminated => Terminated
  }

  function NextHysteresis(cfg: DecayConfig, p: Phase, input: TickInput): int {
    if !input.Managed() then p.hysteresis
    else if Resets(p, input) then 0
    else if p.state == Active && p.hysteresis == 0 then cfg.hysteresisTicks
    else if CountsDown(p, input) then p.hysteresis - 1
    else p.hysteresis
  }

  function NextPhase(cfg: DecayConfig, p: Phase, input: TickInput): Phase {
    Phase(NextState(cfg, p, input), NextHysteresis(cfg, p, input))
  }

  /** States that imply enforcement authority. */
  predicate Decayed(s: WorkloadState) { s == Aging || s == Reclaimable }

  predicate SoftDue(cfg: DecayConfig, input: TickInput) {
    input.Age() >= cfg.ageSoft && input.pressure.AtLeast(Moderate)
  }

  predicate HardDue(cfg: DecayConfig, input: TickInput) {
    input.Age() >= cfg.ageHard && input.pressure.AtLeast(High)
  }

  /** A visible tick in ACTIVE or BACKGROUND_EXECUTING closes the hysteresis window. */
  predicate Resets(p: Phase, input: TickInput) {
    input.Managed() && input.Shown() && (p.state == Active || p.state == BackgroundExecuting)
  }

  /** Only a hidden tick in BACKGROUND_EXECUTING uses the window up. */
  predicate CountsDown(p: Phase, input: TickInput) {
    input.Managed() && !input.Shown() && p.state == BackgroundExecuting && p.hysteresis > 0
  }

  // ---------- Policy ----------

  /** The policy engine's verdict for a workload in phase p, right after its tick. */
  function Evaluate(p: Phase, input: TickInput): PolicyDecision {
    if input.tags.isProtected then KeepFull
    else if input.guarded then KeepFull
    else if input.tags.observed then KeepBackground
    else if input.tags.kind == Service || input.tags.kind == Vm then
      if input.Shown() || input.activity == Executing then KeepBackground
      else if input.pressure.AtLeast(Critical) then Throttle
      else KeepBackground
    else if input.activity == Executing then
      if input.Shown() then KeepFull else KeepBackground
    else if input.Shown() && p.state == Active then KeepFull
    else if p.hysteresis > 0 then KeepBackground
    else if input.tags.isBrowserRoot && input.tags.latencySensitive then
      match input.pressure
      case Normal => KeepBackground
      case Moderate => KeepBackground
      case High => Throttle
      case Critical => Freeze
    else match p.state
      case Idle =>
        (match input.pressure
         case Normal => KeepBackground
         case Moderate => Throttle
         case High => Freeze
         case Critical => Freeze)
      case Aging => if input.pressure.AtLeast(High) then Freeze else Throttle
      case Reclaimable => if input.tags.aiOwned then Freeze else Reclaim
      case _ => KeepBackground
  }

  // ---------- Runs ----------

  /** The phase after a sequence of ticks. */
  function Run(cfg: DecayConfig, p: Phase, inputs: seq<TickInput>): Phase {
    if |inputs| == 0 then p
    else NextPhase(cfg, Run(cfg, p, inputs[..|inputs| - 1]), inputs[|inputs| - 1])
  }

  /** The decision taken at the last tick of a run. */
  function LastDecision(cfg: DecayConfig, p: Phase, inputs: seq<TickInput>): PolicyDecision
    requires |inputs| > 0
  {
    Evaluate(Run(cfg, p, inputs), inputs[|inputs| - 1])
  }

  lemma {:induction false} RunConcat(cfg: DecayConfig, p: Phase, xs: seq<TickInput>, ys: seq<TickInput>)
    ensures Run(cfg, p, xs + ys) == Run(cfg, Run(cfg, p, xs), ys)
  {
    if |ys| == 0 {
      assert xs + ys == xs;
    } else {
      RunConcat(cfg, p, xs, ys[..|ys| - 1]);
      assert (xs + ys)[..|xs + ys| - 1] == xs + ys[..|ys| - 1];
    }
  }

  // ---------- Reclaim history ----------

  /** Nothing gave the workload a claim to resources during this tick. */
  predicate Quiet(input: TickInput) {
    input.Managed() && !input.Shown() && input.activity != Executing
  }

  /** Every tick from i on is quiet. */
  ghost predicate QuietSince(inputs: seq<TickInput>, i: nat) {
    forall k {:trigger inputs[k]} :: i <= k < |inputs| ==> Quiet(inputs[k])
  }

  ghost predicate AgingHistory(cfg: DecayConfig, inputs: seq<TickInput>) {
    exists i :: 0 <= i < |inputs| && SoftDue(cfg, inputs[i]) && QuietSince(inputs, i)
  }

  ghost predicate ReclaimHistory(cfg: DecayConfig, inputs: seq<TickInput>) {
    exists i, j :: 0 <= i < j < |inputs| && SoftDue(cfg, inputs[i]) && HardDue(cfg, inputs[j]) && QuietSince(inputs, i)
  }

  /** The only ways into the decayed states, and the only ways to remain there. */
  lemma DecayedTransitions(cfg: DecayConfig, p: Phase, input: TickInput)
    ensures Decayed(NextState(cfg, p, input)) ==> Quiet(input)
    ensures NextState(cfg, p, input) == Aging ==> p.state == Aging || (p.state == Idle && SoftDue(cfg, input))
    ensures NextState(cfg, p, input) == Reclaimable ==>
              p.state == Reclaimable || (p.state == Aging && HardDue(cfg, input))
  {}

  lemma {:induction false} DecayedStatesHaveHistory(cfg: DecayConfig, p: Phase, inputs: seq<TickInput>)
    requires !Decayed(p.state)
    ensures Run(cfg, p, inputs).state == Aging ==> AgingHistory(cfg, inputs)
    ensures Run(cfg, p, inputs).state == Reclaimable ==> ReclaimHistory(cfg, inputs)
  {
    hide NextState, SoftDue, HardDue, Quiet;
    if |inputs| == 0 {
    } else {
      var n := |inputs| - 1;
      var earlier := inputs[..n];
      DecayedStatesHaveHistory(cfg, p, earlier);
      var before, after := Run(cfg, p, earlier).state, Run(cfg, p, inputs).state;
      DecayedTransitions(cfg, Run(cfg, p, earlier), inputs[n]);
      if after == Aging {
        if before == Aging {
          var i :| 0 <= i < n && SoftDue(cfg, earlier[i]) && QuietSince(earlier, i);
          assert SoftDue(cfg, inputs[i]) && QuietSince(inputs, i);
        } else {
          assert SoftDue(cfg, inputs[n]) && QuietSince(inputs, n);
        }
      } else if after == Reclaimable {
        if before == Aging {
          var i :| 0 <= i < n && SoftDue(cfg, earlier[i]) && QuietSince(earlier, i);
          assert SoftDue(cfg, inputs[i]) && HardDue(cfg, inputs[n]) && QuietSince(inputs, i);
        } else {
          var i, j :| 0 <= i < j < n && SoftDue(cfg, earlier[i]) && HardDue(cfg, earlier[j]) && QuietSince(earlier, i);
          assert SoftDue(cfg, inputs[i]) && HardDue(cfg, inputs[j]) && QuietSince(inputs, i);
        }
      }
    }
  }

  /** No workload is reclaimed without a long quiet stretch that first went soft-due and later hard-due. */
  lemma ReclaimNeedsHistory(cfg: DecayConfig, p: Phase, inputs: seq<TickInput>)
    requires !Decayed(p.state)
    requires |inputs| > 0 && LastDecision(cfg, p, inputs) == Reclaim
    ensures ReclaimHistory(cfg, inputs)
    ensures !inputs[|inputs| - 1].tags.aiOwned && !inputs[|inputs| - 1].guarded
  {
    DecayedStatesHaveHistory(cfg, p, inputs);
  }

  // ---------- Decay bound ----------

  /** A tick that pushes towards reclaim as hard as the machine allows. */
  predicate Cold(cfg: DecayConfig, input: TickInput) {
    input.Managed() && !input.Shown() && input.activity == Resting && SoftDue(cfg, input) && HardDue(cfg, input)
  }

  /** How many cold ticks separate a phase from RECLAIMABLE. */
  function DecayDistance(p: Phase): nat
    requires p.state != Terminated
  {
    match p.state
    case Reclaimable => 0
    case Aging => 1
    case Idle => 2
    case BackgroundExecuting => if p.hysteresis > 0 then 3 + p.hysteresis else 3
    case Active => 3
    case Discovered => 3
  }

  lemma ColdTickDescends(cfg: DecayConfig, p: Phase, input: TickInput)
    requires p.state != Terminated && Cold(cfg, input)
    ensures NextState(cfg, p, input) != Terminated
    ensures DecayDistance(NextPhase(cfg, p, input)) == if DecayDistance(p) == 0 then 0 else DecayDistance(p) - 1
  {}

  /** Cold ticks reach RECLAIMABLE after exactly DecayDistance ticks, never earlier, and stay there. */
  lemma {:induction false} DecayIsExact(cfg: DecayConfig, p: Phase, inputs: seq<TickInput>)
    requires p.state != Terminated
    requires forall k :: 0 <= k < |inputs| ==> Cold(cfg, inputs[k])
    ensures var end := Run(cfg, p, inputs);
            end.state != Terminated &&
            DecayDistance(end) == (if |inputs| <= DecayDistance(p) then DecayDistance(p) - |inputs| else 0)
    ensures Run(cfg, p, inputs).state == Reclaimable <==> |inputs| >= DecayDistance(p)
  {
    if |inputs| == 0 {
    } else {
      var n := |inputs| - 1;
      DecayIsExact(cfg, p, inputs[..n]);
      ColdTickDescends(cfg, Run(cfg, p, inputs[..n]), inputs[n]);
    }
  }

  // ---------- Hysteresis ----------

  ghost predicate WindowInRange(cfg: DecayConfig, p: Phase) {
    0 <= p.hysteresis <= cfg.hysteresisTicks
  }

  lemma {:induction false} WindowStaysInRange(cfg: DecayConfig, p: Phase, inputs: seq<TickInput>)
    requires WindowInRange(cfg, p)
    ensures WindowInRange(cfg, Run(cfg, p, inputs))
  {
    if |inputs| == 0 {
    } else {
      WindowStaysInRange(cfg, p, inputs[..|inputs| - 1]);
    }
  }

  /** How many ticks of the run counted the window down. */
  function CountDowns(cfg: DecayConfig, p: Phase, inputs: seq<TickInput>): nat {
    if |inputs| == 0 then 0
    else
      var n := |inputs| - 1;
      CountDowns(cfg, p, inputs[..n]) + if CountsDown(Run(cfg, p, inputs[..n]), inputs[n]) then 1 else 0
  }

  ghost predicate NeverResets(cfg: DecayConfig, p: Phase, inputs: seq<TickInput>) {
    forall k {:trigger inputs[k]} :: 0 <= k < |inputs| ==> !Resets(Run(cfg, p, inputs[..k]), inputs[k])
  }

  /** Until it is reset or fully counted down, an open window shrinks by exactly the countdown ticks. */
  lemma {:induction false} WindowOnlyCountsDown(cfg: DecayConfig, p: Phase, inputs: seq<TickInput>)
    requires p.hysteresis > 0
    requires NeverResets(cfg, p, inputs) && CountDowns(cfg, p, inputs) < p.hysteresis
    ensures Run(cfg, p, inputs).hysteresis == p.hysteresis - CountDowns(cfg, p, inputs)
  {
    if |inputs| == 0 {
    } else {
      var n := |inputs| - 1;
      assert forall k :: 0 <= k < n ==> inputs[..n][..k] == inputs[..k];
      assert NeverResets(cfg, p, inputs[..n]);
      WindowOnlyCountsDown(cfg, p, inputs[..n]);
      assert !Resets(Run(cfg, p, inputs[..n]), inputs[n]);
    }
  }

  /** While the window is open nothing harsher than KEEP_BACKGROUND is decided, except for services and VMs. */
  lemma OpenWindowShields(cfg: DecayConfig, p: Phase, inputs: seq<TickInput>)
    requires p.hysteresis > 0 && |inputs| > 0
    requires NeverResets(cfg, p, inputs) && CountDowns(cfg, p, inputs) < p.hysteresis
    requires var last := inputs[|inputs| - 1]; last.tags.kind != Service && last.tags.kind != Vm
    ensures LastDecision(cfg, p, inputs).Severity() <= KeepBackground.Severity()
  {
    WindowOnlyCountsDown(cfg, p, inputs);
  }

  lemma LeavingOpensWindow(cfg: DecayConfig, p: Phase, input: TickInput)
    requires p.state == Active && p.hysteresis == 0 && input.Managed() && !input.Shown()
    ensures NextPhase(cfg, p, input) == Phase(ByPresence(input), cfg.hysteresisTicks)
  {}

  /** Leaving a visible workspace shields the workload over every continuation that neither resets the window nor
      counts it down to nothing. */
  lemma LeavingShields(cfg: DecayConfig, p: Phase, leave: TickInput, rest: seq<TickInput>)
    requires p.state == Active && p.hysteresis == 0 && leave.Managed() && !leave.Shown() && cfg.hysteresisTicks > 0
    requires var left := NextPhase(cfg, p, leave);
             |rest| > 0 && NeverResets(cfg, left, rest) && CountDowns(cfg, left, rest) < cfg.hysteresisTicks
    requires var last := rest[|rest| - 1]; last.tags.kind != Service && last.tags.kind != Vm
    ensures LastDecision(cfg, p, [leave] + rest).Severity() <= KeepBackground.Severity()
  {
    hide NextState, NextHysteresis, Evaluate, CountDowns, NeverResets;
    LeavingOpensWindow(cfg, p, leave);
    OneTick(cfg, p, leave);
    RunConcat(cfg, p, [leave], rest);
    OpenWindowShields(cfg, NextPhase(cfg, p, leave), rest);
  }

  lemma OneTick(cfg: DecayConfig, p: Phase, input: TickInput)
    ensures Run(cfg, p, [input]) == NextPhase(cfg, p, input)
  {
    assert [input][..0] == [];
  }

  predicate IsDecaying(s: WorkloadState) { s == Idle || s == Aging || s == Reclaimable }

  /** The window does not expire while the workload is quiet: however long that lasts, and under whatever pressure and
      age, the counter stays where it was. */
  lemma {:induction false} QuietKeepsWindow(cfg: DecayConfig, p: Phase, inputs: seq<TickInput>)
    requires IsDecaying(p.state) && QuietSince(inputs, 0)
    ensures Run(cfg, p, inputs).hysteresis == p.hysteresis && IsDecaying(Run(cfg, p, inputs).state)
  {
    if |inputs| == 0 {
    } else {
      var n := |inputs| - 1;
      QuietKeepsWindow(cfg, p, inputs[..n]);
      assert Quiet(inputs[n]);
    }
  }

  /** So a workload that went idle with its window open is never throttled, frozen or reclaimed while it stays quiet. */
  lemma QuietIsNeverDowngraded(cfg: DecayConfig, p: Phase, inputs: seq<TickInput>)
    requires IsDecaying(p.state) && p.hysteresis > 0 && QuietSince(inputs, 0) && |inputs| > 0
    requires var last := inputs[|inputs| - 1]; last.tags.kind != Service && last.tags.kind != Vm
    ensures LastDecision(cfg, p, inputs).Severity() <= KeepBackground.Severity()
  {
    hide NextState;
    QuietKeepsWindow(cfg, p, inputs);
    assert Quiet(inputs[|inputs| - 1]);
  }

  // ---------- Observation-only workloads ----------

  lemma ObservedNeverDecays(cfg: DecayConfig, p: Phase, input: TickInput)
    requires input.tags.observed
    ensures !Decayed(NextState(cfg, p, input)) && NextState(cfg, p, input) != Terminated
    ensures Evaluate(NextPhase(cfg, p, input), input).Severity() <= KeepBackground.Severity()
  {}

  /** Over every run that ends in an observed stretch, whatever came before it: from its first tick on the workload is
      not decayed and treated mildly, and the window is frozen. */
  lemma {:induction false} ObservedStretchIsHarmless(cfg: DecayConfig, p: Phase, before: seq<TickInput>,
                                                     stretch: seq<TickInput>)
    requires |stretch| > 0 && forall k :: 0 <= k < |stretch| ==> stretch[k].tags.observed
    ensures var all := before + stretch;
            !Decayed(Run(cfg, p, all).state) && LastDecision(cfg, p, all).Severity() <= KeepBackground.Severity() &&
            Run(cfg, p, all).hysteresis == Run(cfg, p, before).hysteresis
  {
    hide NextState, Evaluate;
    var n := |stretch| - 1;
    var all := before + stretch;
    assert all[..|all| - 1] == before + stretch[..n] && all[|all| - 1] == stretch[n];
    ObservedNeverDecays(cfg, Run(cfg, p, before + stretch[..n]), stretch[n]);
    if n == 0 {
      assert before + stretch[..n] == before;
    } else {
      ObservedStretchIsHarmless(cfg, p, before, stretch[..n]);
    }
  }
}
