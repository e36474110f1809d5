/** More memory stress never earns a milder decision, and exactly when that can break. */
module Monotonicity {
  import opened Types
  import opened StateMachine
  import opened Pressure

  function DecayRank(s: WorkloadState): nat
    requires IsDecaying(s)
  {
    match s case Idle => 0 case Aging => 1 case Reclaimable => 2
  }

  /** hi has decayed at least as far as lo; nothing else separates them. */
  predicate AtLeastAsDecayed(lo: Phase, hi: Phase) {
    lo.hysteresis == hi.hysteresis &&
    (lo.state == hi.state ||
     (IsDecaying(lo.state) && IsDecaying(hi.state) && DecayRank(lo.state) <= DecayRank(hi.state)))
  }

  /** Two inputs that differ in pressure only, the second at least as high. */
  predicate MorePressure(a: TickInput, b: TickInput) {
    b == a.(pressure := b.pressure) && b.pressure.AtLeast(a.pressure)
  }

  /** The one tick that tells the two runs apart: IDLE tests execution before visibility, the deeper
      states test visibility before execution. */
  predicate Splits(lo: Phase, hi: Phase, input: TickInput) {
    input.Managed() && input.activity == Executing && input.Shown() && lo.state == Idle && hi.state != Idle
  }

  lemma OrderSurvivesTick(cfg: DecayConfig, lo: Phase, hi: Phase, a: TickInput, b: TickInput)
    requires AtLeastAsDecayed(lo, hi) && MorePressure(a, b)
    ensures AtLeastAsDecayed(NextPhase(cfg, lo, a), NextPhase(cfg, hi, b)) <==> !Splits(lo, hi, a)
  {}

  lemma DecisionsFollowOrder(cfg: DecayConfig, lo: Phase, hi: Phase, a: TickInput, b: TickInput)
    requires AtLeastAsDecayed(lo, hi) && MorePressure(a, b)
    ensures Evaluate(NextPhase(cfg, lo, a), a).Severity() <= Evaluate(NextPhase(cfg, hi, b), b).Severity()
  {}

  ghost predicate PressureOrdered(xs: seq<TickInput>, ys: seq<TickInput>) {
    |xs| == |ys| && forall k :: 0 <= k < |xs| ==> MorePressure(xs[k], ys[k])
  }

  ghost predicate NeverSplits(cfg: DecayConfig, p: Phase, xs: seq<TickInput>, ys: seq<TickInput>)
    requires |xs| == |ys|
  {
    forall k {:trigger xs[k]} :: 0 <= k < |xs| ==> !Splits(Run(cfg, p, xs[..k]), Run(cfg, p, ys[..k]), xs[k])
  }

  lemma {:induction false} OrderSurvivesRun(cfg: DecayConfig, p: Phase, xs: seq<TickInput>, ys: seq<TickInput>)
    requires PressureOrdered(xs, ys) && NeverSplits(cfg, p, xs, ys)
    ensures AtLeastAsDecayed(Run(cfg, p, xs), Run(cfg, p, ys))
  {
    if |xs| == 0 {
    } else {
      hide NextPhase, Splits, AtLeastAsDecayed;
      var n := |xs| - 1;
      assert forall k :: 0 <= k < n ==> xs[..n][..k] == xs[..k] && ys[..n][..k] == ys[..k];
      OrderSurvivesRun(cfg, p, xs[..n], ys[..n]);
      assert !Splits(Run(cfg, p, xs[..n]), Run(cfg, p, ys[..n]), xs[n]);
      OrderSurvivesTick(cfg, Run(cfg, p, xs[..n]), Run(cfg, p, ys[..n]), xs[n], ys[n]);
    }
  }

  /** As long as no tick splits the runs, the more stressed one is never treated more mildly. */
  lemma MorePressureIsNeverMilder(cfg: DecayConfig, p: Phase, xs: seq<TickInput>, ys: seq<TickInput>)
    requires PressureOrdered(xs, ys) && |xs| > 0
    requires NeverSplits(cfg, p, xs[..|xs| - 1], ys[..|xs| - 1])
    ensures LastDecision(cfg, p, xs).Severity() <= LastDecision(cfg, p, ys).Severity()
  {
    var n := |xs| - 1;
    OrderSurvivesRun(cfg, p, xs[..n], ys[..n]);
    DecisionsFollowOrder(cfg, Run(cfg, p, xs[..n]), Run(cfg, p, ys[..n]), xs[n], ys[n]);
  }

  // ---------- From memory readings to decisions ----------

  datatype Reading = Reading(mem: MemInfo, psi: PsiStats)

  /** The daemon's input for a tick: everything but the pressure, and the readings it is computed from. */
  function WithReadings(base: seq<TickInput>, readings: seq<Reading>): (inputs: seq<TickInput>)
    requires |base| == |readings|
    ensures |inputs| == |base|
  {
    seq(|base|, k requires 0 <= k < |base| =>
      base[k].(pressure := ComputePressure(readings[k].mem, readings[k].psi)))
  }

  /** No tick is both executing and shown. */
  ghost predicate Calm(inputs: seq<TickInput>) {
    forall k {:trigger inputs[k]} :: 0 <= k < |inputs| ==> !(inputs[k].activity == Executing && inputs[k].Shown())
  }

  /** Two runs that differ in their memory readings only: at every tick the more stressed one gets a
      decision at least as severe. */
  lemma MoreStressIsNeverMilder(cfg: DecayConfig, p: Phase, base: seq<TickInput>,
                                r1: seq<Reading>, r2: seq<Reading>, m: nat)
    requires |base| == |r1| == |r2| && Calm(base) && 0 < m <= |base|
    requires forall k :: 0 <= k < |base| ==> MoreStress(r1[k].mem, r1[k].psi, r2[k].mem, r2[k].psi)
    ensures LastDecision(cfg, p, WithReadings(base, r1)[..m]).Severity()
         <= LastDecision(cfg, p, WithReadings(base, r2)[..m]).Severity()
  {
    var xs, ys := WithReadings(base, r1)[..m], WithReadings(base, r2)[..m];
    forall k | 0 <= k < m ensures MorePressure(xs[k], ys[k]) {
      PressureIsMonotone(r1[k].mem, r1[k].psi, r2[k].mem, r2[k].psi);
    }
    forall k | 0 <= k < m - 1 ensures !Splits(Run(cfg, p, xs[..m - 1][..k]), Run(cfg, p, ys[..m - 1][..k]), xs[k]) {
      assert !(base[k].activity == Executing && base[k].Shown());
    }
    MorePressureIsNeverMilder(cfg, p, xs, ys);
  }

  // ---------- The split is fatal ----------

  const PLAIN := Tags(WebDev, false, false, false, false, false, false)

  /** A cold tick of an ordinary workload, old enough for both thresholds. */
  function ColdInput(cfg: DecayConfig): TickInput {
    var minutes := if cfg.ageSoft > cfg.ageHard then cfg.ageSoft else cfg.ageHard;
    TickInput(PLAIN, false, false, false, Resting, High, if minutes > 0 then 60000 * minutes else 0, 0)
  }

  function ColdRun(cfg: DecayConfig, n: nat): (inputs: seq<TickInput>)
    ensures |inputs| == n && forall k :: 0 <= k < n ==> inputs[k] == ColdInput(cfg)
  {
    seq(n, k => ColdInput(cfg))
  }

  lemma {:induction false} ColdRunAfterSplit(cfg: DecayConfig, window: nat, n: nat)
    requires cfg.hysteresisTicks > 0 && n <= window + 1
    ensures var lo := Run(cfg, Phase(BackgroundExecuting, window), ColdRun(cfg, n));
            lo == if n <= window then Phase(BackgroundExecuting, window - n) else Phase(Idle, 0)
    ensures var hi := Run(cfg, Phase(Active, window), ColdRun(cfg, n));
            if n == 0 then hi == Phase(Active, window) else IsDecaying(hi.state) && hi.hysteresis > 0
  {
    if n == 0 {
    } else {
      ColdRunAfterSplit(cfg, window, n - 1);
      assert ColdRun(cfg, n)[..n - 1] == ColdRun(cfg, n - 1);
    }
  }

  /** After a split there is a continuation, the same for both runs and with no tick both executing and
      shown, in which the run that saw less pressure is frozen while the other one is kept. */
  lemma SplitIsFatal(cfg: DecayConfig, lo: Phase, hi: Phase, a: TickInput, b: TickInput) returns (rest: seq<TickInput>)
    requires cfg.hysteresisTicks > 0 && lo.hysteresis >= 0
    requires AtLeastAsDecayed(lo, hi) && MorePressure(a, b) && Splits(lo, hi, a)
    ensures |rest| > 0 && Calm(rest)
    ensures LastDecision(cfg, NextPhase(cfg, lo, a), rest) == Freeze
    ensures LastDecision(cfg, NextPhase(cfg, hi, b), rest) == KeepBackground
  {
    var window := lo.hysteresis;
    rest := ColdRun(cfg, window + 1);
    assert NextPhase(cfg, lo, a) == Phase(BackgroundExecuting, window);
    assert NextPhase(cfg, hi, b) == Phase(Active, window);
    ColdRunAfterSplit(cfg, window, window + 1);
  }

  /** Decisions stay ordered whatever follows (executing and shown never together again). */
  ghost predicate OrderedForever(cfg: DecayConfig, lo: Phase, hi: Phase) {
    forall rest {:trigger Calm(rest)} :: |rest| > 0 && Calm(rest) ==>
      LastDecision(cfg, lo, rest).Severity() <= LastDecision(cfg, hi, rest).Severity()
  }

  /** The exact condition: a tick keeps the severity order for good if and only if it does not split the runs. */
  lemma OrderLastsUnlessSplit(cfg: DecayConfig, lo: Phase, hi: Phase, a: TickInput, b: TickInput)
    requires cfg.hysteresisTicks > 0 && lo.hysteresis >= 0
    requires AtLeastAsDecayed(lo, hi) && MorePressure(a, b)
    ensures OrderedForever(cfg, NextPhase(cfg, lo, a), NextPhase(cfg, hi, b)) <==> !Splits(lo, hi, a)
  {
    var lo', hi' := NextPhase(cfg, lo, a), NextPhase(cfg, hi, b);
    if Splits(lo, hi, a) {
      var rest := SplitIsFatal(cfg, lo, hi, a, b);
      assert Calm(rest);
    } else {
      OrderSurvivesTick(cfg, lo, hi, a, b);
      forall rest | |rest| > 0 && Calm(rest)
        ensures LastDecision(cfg, lo', rest).Severity() <= LastDecision(cfg, hi', rest).Severity()
      {
        CalmKeepsOrder(cfg, lo', hi', rest[..|rest| - 1]);
        var last := rest[|rest| - 1];
        DecisionsFollowOrder(cfg, Run(cfg, lo', rest[..|rest| - 1]), Run(cfg, hi', rest[..|rest| - 1]), last, last);
      }
    }
  }

  /** The same for whole runs: once two ordered runs have not split before their last tick, their decisions stay ordered
      under every calm continuation if and only if the last tick did not split them either. */
  lemma RunsStayOrderedIffNeverSplit(cfg: DecayConfig, p: Phase, xs: seq<TickInput>, ys: seq<TickInput>)
    requires PressureOrdered(xs, ys) && |xs| > 0 && cfg.hysteresisTicks > 0 && WindowInRange(cfg, p)
    requires NeverSplits(cfg, p, xs[..|xs| - 1], ys[..|xs| - 1])
    ensures (forall rest :: |rest| > 0 && Calm(rest) ==>
               LastDecision(cfg, p, xs + rest).Severity() <= LastDecision(cfg, p, ys + rest).Severity())
            <==> NeverSplits(cfg, p, xs, ys)
  {
    hide NextPhase, Splits, Evaluate, AtLeastAsDecayed, Calm, NeverSplits, LastDecision;
    var n := |xs| - 1;
    OrderSurvivesRun(cfg, p, xs[..n], ys[..n]);
    WindowStaysInRange(cfg, p, xs[..n]);
    OrderLastsUnlessSplit(cfg, Run(cfg, p, xs[..n]), Run(cfg, p, ys[..n]), xs[n], ys[n]);
    LastTickSplits(cfg, p, xs, ys);
    forall rest | |rest| > 0
      ensures LastDecision(cfg, p, xs + rest) == LastDecision(cfg, Run(cfg, p, xs), rest)
      ensures LastDecision(cfg, p, ys + rest) == LastDecision(cfg, Run(cfg, p, ys), rest)
    {
      ContinuedDecision(cfg, p, xs, rest);
      ContinuedDecision(cfg, p, ys, rest);
    }
  }

  lemma ContinuedDecision(cfg: DecayConfig, p: Phase, xs: seq<TickInput>, rest: seq<TickInput>)
    requires |rest| > 0
    ensures LastDecision(cfg, p, xs + rest) == LastDecision(cfg, Run(cfg, p, xs), rest)
  {
    hide Run, Evaluate;
    RunConcat(cfg, p, xs, rest);
  }

  lemma LastTickSplits(cfg: DecayConfig, p: Phase, xs: seq<TickInput>, ys: seq<TickInput>)
    requires |xs| == |ys| > 0 && NeverSplits(cfg, p, xs[..|xs| - 1], ys[..|xs| - 1])
    ensures var n := |xs| - 1;
            NeverSplits(cfg, p, xs, ys) <==> !Splits(Run(cfg, p, xs[..n]), Run(cfg, p, ys[..n]), xs[n])
  {
    hide Run, Splits;
    var n := |xs| - 1;
    assert forall k :: 0 <= k < n ==> xs[..n][..k] == xs[..k] && ys[..n][..k] == ys[..k] && xs[..n][k] == xs[k];
  }

  lemma {:induction false} CalmKeepsOrder(cfg: DecayConfig, lo: Phase, hi: Phase, rest: seq<TickInput>)
    requires AtLeastAsDecayed(lo, hi) && Calm(rest)
    ensures AtLeastAsDecayed(Run(cfg, lo, rest), Run(cfg, hi, rest))
  {
    if |rest| == 0 {
    } else {
      var n := |rest| - 1;
      CalmKeepsOrder(cfg, lo, hi, rest[..n]);
      assert !(rest[n].activity == Executing && rest[n].Shown());
      OrderSurvivesTick(cfg, Run(cfg, lo, rest[..n]), Run(cfg, hi, rest[..n]), rest[n], rest[n]);
    }
  }

  /** The reported order really is lost: three ticks from IDLE suffice with the default configuration. */
  lemma MilderUnderMorePressure()
    ensures var warm := ColdInput(DEFAULT_DECAY).(pressure := Normal);
            var busy := warm.(activity := Executing, isVisible := true);
            var xs := [warm, busy, ColdInput(DEFAULT_DECAY)];
            var ys := [warm.(pressure := Moderate), busy, ColdInput(DEFAULT_DECAY)];
            PressureOrdered(xs, ys) &&
            LastDecision(DEFAULT_DECAY, Phase(Idle, 0), xs) == Freeze &&
            LastDecision(DEFAULT_DECAY, Phase(Idle, 0), ys) == KeepBackground
  {
    var cfg := DEFAULT_DECAY;
    var cold := ColdInput(cfg);
    var warm := cold.(pressure := Normal);
    var busy := warm.(activity := Executing, isVisible := true);
    var xs, ys := [warm, busy, cold], [warm.(pressure := Moderate), busy, cold];
    assert xs[..2][..1] == [warm] && ys[..2][..1] == [ys[0]] && xs[..1][..0] == ys[..1][..0] == [];
    assert Run(cfg, Phase(Idle, 0), xs[..1]) == Phase(Idle, 0);
    assert Run(cfg, Phase(Idle, 0), ys[..1]) == Phase(Aging, 0);
    assert Run(cfg, Phase(Idle, 0), xs[..2]) == Phase(BackgroundExecuting, 0);
    assert Run(cfg, Phase(Idle, 0), ys[..2]) == Phase(Active, 0);
  }
}
