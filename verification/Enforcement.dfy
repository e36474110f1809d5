/** Kernel actions as a log of effects, and the plane that turns decisions into them. */
module Enforcement {
  import opened Types
  import opened Protection

  datatype Sig = SigStop | SigCont | SigTerm | SigKill

  datatype Slice = SliceActive | SliceBackground | SliceFrozen

  /** view is what /proc showed when the sender last looked at the pid. */
  datatype Effect =
    | Signal(pid: Pid, sig: Sig, onBehalf: nat, view: ProcView)
    | MoveTo(pid: Pid, slice: Slice)
    | OomScore(pid: Pid, score: int)
    | CpuWeight(slice: Slice, weight: int)
    | FreezeSlice(slice: Slice, frozen: bool)

  const OOM_PROTECT := -500
  const OOM_NORMAL := 0
  const OOM_EXPOSE := 500
  const CPU_WEIGHT_ACTIVE := 500
  const CPU_WEIGHT_BACKGROUND := 50
  const CPU_WEIGHT_THROTTLE := 20

  /** No stopping or killing of a shielded process, and no killing of a browser. */
  ghost predicate Harmless(g: Guard, e: Effect) {
    e.Signal? && e.sig != SigCont ==>
      !Shielded(g, e.pid, e.view) && (e.sig != SigStop ==> !IsBrowser(g, e.pid, e.view))
  }

  ghost predicate AllHarmless(g: Guard, log: seq<Effect>) {
    forall k :: 0 <= k < |log| ==> Harmless(g, log[k])
  }

  /** The effect is aimed at this particular process. */
  predicate Touches(e: Effect, p: Pid) {
    (e.Signal? || e.MoveTo? || e.OomScore?) && e.pid == p
  }

  // ---------- What each primitive does to a list of pids ----------

  function Moves(pids: seq<Pid>, slice: Slice, view: ProcView): seq<Effect> {
    if |pids| == 0 then []
    else
      var p := pids[|pids| - 1];
      Moves(pids[..|pids| - 1], slice, view) + if p in view.alive then [MoveTo(p, slice)] else []
  }

  function Scores(pids: seq<Pid>, score: int): seq<Effect> {
    if |pids| == 0 then []
    else Scores(pids[..|pids| - 1], score) + [OomScore(pids[|pids| - 1], score)]
  }

  /** SIGCONT for the pids that are stopped. */
  function Wakes(pids: seq<Pid>, wl: nat, view: ProcView): seq<Effect> {
    if |pids| == 0 then []
    else
      var p := pids[|pids| - 1];
      Wakes(pids[..|pids| - 1], wl, view) + if p in view.stopped then [Signal(p, SigCont, wl, view)] else []
  }

  /** SIGSTOP for the existing pids that are not shielded. */
  ghost function Stops(g: Guard, pids: seq<Pid>, wl: nat, view: ProcView): seq<Effect> {
    if |pids| == 0 then []
    else
      var p := pids[|pids| - 1];
      Stops(g, pids[..|pids| - 1], wl, view) +
      if !Shielded(g, p, view) && p in view.alive then [Signal(p, SigStop, wl, view)] else []
  }

  /** A kill signal for every pid that is neither shielded nor a browser. */
  ghost function Kills(g: Guard, pids: seq<Pid>, sig: Sig, wl: nat, view: ProcView): seq<Effect> {
    if |pids| == 0 then []
    else
      var p := pids[|pids| - 1];
      Kills(g, pids[..|pids| - 1], sig, wl, view) +
      if !Shielded(g, p, view) && !IsBrowser(g, p, view) then [Signal(p, sig, wl, view)] else []
  }

  /** Everything one decision does to one workload. check is /proc at the hard block, act afterwards. */
  ghost function Enforced(g: Guard, wl: Workload, d: PolicyDecision, check: ProcView, act: ProcView): seq<Effect> {
    if wl.tags.isProtected || AnyShielded(g, wl.pids, check) then
      Moves(wl.pids, SliceActive, act) + Wakes(wl.pids, wl.id, act)
    else match d
      case KeepFull =>
        Moves(wl.pids, SliceActive, act) + [CpuWeight(SliceActive, CPU_WEIGHT_ACTIVE)] +
        Scores(wl.pids, OOM_PROTECT) + Wakes(wl.pids, wl.id, act) + [FreezeSlice(SliceFrozen, false)]
      case KeepBackground =>
        Moves(wl.pids, SliceBackground, act) + [CpuWeight(SliceBackground, CPU_WEIGHT_BACKGROUND)] +
        Scores(wl.pids, OOM_NORMAL) + Wakes(wl.pids, wl.id, act)
      case Throttle =>
        Moves(wl.pids, SliceBackground, act) + [CpuWeight(SliceBackground, CPU_WEIGHT_THROTTLE)] +
        Scores(wl.pids, OOM_EXPOSE)
      case Freeze =>
        if wl.tags.isBrowserRoot then
          Moves(wl.pids, SliceFrozen, act) + [FreezeSlice(SliceFrozen, true)] +
          [CpuWeight(SliceBackground, CPU_WEIGHT_THROTTLE)] + Scores(wl.pids, OOM_EXPOSE)
        else
          Stops(g, wl.pids, wl.id, act) + Moves(wl.pids, SliceFrozen, act) +
          [FreezeSlice(SliceFrozen, true)] + Scores(wl.pids, OOM_EXPOSE)
      case Reclaim => []
  }

  // ---------- Facts about effect lists ----------

  /** Every effect is harmless, aimed at a member or at a slice, and no kill. */
  ghost predicate Contained(g: Guard, wl: Workload, log: seq<Effect>) {
    forall e {:trigger e in log} :: e in log ==>
      Harmless(g, e) && (e.Signal? ==> e.sig != SigTerm && e.sig != SigKill && e.onBehalf == wl.id) &&
      (forall p :: Touches(e, p) ==> p in wl.pids)
  }

  lemma {:induction false} PrimitivesAreContained(g: Guard, wl: Workload, pids: seq<Pid>, slice: Slice, score: int,
                                                  view: ProcView)
    requires pids <= wl.pids
    ensures Contained(g, wl, Moves(pids, slice, view)) && Contained(g, wl, Scores(pids, score))
    ensures Contained(g, wl, Wakes(pids, wl.id, view)) && Contained(g, wl, Stops(g, pids, wl.id, view))
  {
    if |pids| == 0 {
    } else {
      PrimitivesAreContained(g, wl, pids[..|pids| - 1], slice, score, view);
      assert pids[|pids| - 1] == wl.pids[|pids| - 1];
    }
  }

  /** Enforcement of any decision stays inside the workload and never breaks the protected domain. */
  lemma EnforcedIsContained(g: Guard, wl: Workload, d: PolicyDecision, check: ProcView, act: ProcView)
    ensures Contained(g, wl, Enforced(g, wl, d, check, act))
  {
    forall slice, score
      ensures Contained(g, wl, Moves(wl.pids, slice, act)) && Contained(g, wl, Scores(wl.pids, score))
    {
      PrimitivesAreContained(g, wl, wl.pids, slice, score, act);
    }
    PrimitivesAreContained(g, wl, wl.pids, SliceActive, 0, act);
  }

  lemma {:induction false} NoStopsOutside(pids: seq<Pid>, slice: Slice, score: int, wl: nat, view: ProcView)
    ensures forall e :: e in Moves(pids, slice, view) || e in Scores(pids, score) ==> !e.Signal?
    ensures forall e :: e in Wakes(pids, wl, view) ==> e.Signal? && e.sig == SigCont
  {
    if |pids| == 0 {
    } else {
      NoStopsOutside(pids[..|pids| - 1], slice, score, wl, view);
    }
  }

  /** SIGSTOP is sent only to freeze a workload that is neither hard-blocked nor rooted in a browser. */
  lemma OnlyFreezeStops(g: Guard, wl: Workload, d: PolicyDecision, check: ProcView, act: ProcView, e: Effect)
    requires e in Enforced(g, wl, d, check, act) && e.Signal? && e.sig == SigStop
    ensures d == Freeze && !wl.tags.isBrowserRoot && !wl.tags.isProtected && !AnyShielded(g, wl.pids, check)
  {
    NoStopsOutside(wl.pids, SliceActive, OOM_PROTECT, wl.id, act);
    NoStopsOutside(wl.pids, SliceBackground, OOM_NORMAL, wl.id, act);
    NoStopsOutside(wl.pids, SliceFrozen, OOM_EXPOSE, wl.id, act);
  }

  lemma {:induction false} WakesAllStopped(pids: seq<Pid>, wl: nat, view: ProcView, p: Pid)
    requires p in pids && p in view.stopped
    ensures Signal(p, SigCont, wl, view) in Wakes(pids, wl, view)
  {
    if p != pids[|pids| - 1] {
      WakesAllStopped(pids[..|pids| - 1], wl, view, p);
    }
  }

  /** KEEP decisions wake every stopped member; THROTTLE sends no signal at all. */
  lemma KeepWakes(g: Guard, wl: Workload, d: PolicyDecision, check: ProcView, act: ProcView, p: Pid)
    requires d == KeepFull || d == KeepBackground
    requires p in wl.pids && p in act.stopped
    ensures Signal(p, SigCont, wl.id, act) in Enforced(g, wl, d, check, act)
  {
    WakesAllStopped(wl.pids, wl.id, act, p);
  }

  // ---------- What a decision does, told from the log ----------

  /** Whether enforcing a decision sends this effect. blocked says that the hard block fired. */
  ghost predicate Sends(g: Guard, wl: Workload, d: PolicyDecision, blocked: bool, act: ProcView, e: Effect) {
    match e
    case MoveTo(p, slice) =>
      p in wl.pids && p in act.alive &&
      (match slice
       case SliceActive => blocked || d == KeepFull
       case SliceBackground => !blocked && (d == KeepBackground || d == Throttle)
       case SliceFrozen => !blocked && d == Freeze)
    case Signal(p, sig, sender, view) =>
      p in wl.pids && sender == wl.id && view == act &&
      (match sig
       case SigStop => !blocked && d == Freeze && !wl.tags.isBrowserRoot && p in act.alive && !Shielded(g, p, act)
       case SigCont => (blocked || d == KeepFull || d == KeepBackground) && p in act.stopped
       case _ => false)
    case OomScore(p, score) =>
      p in wl.pids && !blocked && d != Reclaim &&
      score == if d == KeepFull then -500 else if d == KeepBackground then 0 else 500
    case CpuWeight(slice, weight) =>
      !blocked &&
      ((d == KeepFull && slice == SliceActive && weight == 500) ||
       (d == KeepBackground && slice == SliceBackground && weight == 50) ||
       ((d == Throttle || (d == Freeze && wl.tags.isBrowserRoot)) && slice == SliceBackground && weight == 20))
    case FreezeSlice(slice, frozen) =>
      !blocked && slice == SliceFrozen && ((d == KeepFull && !frozen) || (d == Freeze && frozen))
  }

  /** Exactly these effects were sent, and stopping came before everything else. */
  ghost predicate Carried(g: Guard, wl: Workload, d: PolicyDecision, blocked: bool, act: ProcView, sent: seq<Effect>) {
    (forall e {:trigger e in sent} :: e in sent <==> Sends(g, wl, d, blocked, act, e)) &&
    forall i, j :: 0 <= i < j < |sent| && sent[j].Signal? && sent[j].sig == SigStop ==>
      sent[i].Signal? && sent[i].sig == SigStop
  }

  lemma {:induction false} MovesAndScores(pids: seq<Pid>, slice: Slice, score: int, view: ProcView)
    ensures forall e :: e in Moves(pids, slice, view) <==>
              e.MoveTo? && e.slice == slice && e.pid in pids && e.pid in view.alive
    ensures forall e :: e in Scores(pids, score) <==> e.OomScore? && e.score == score && e.pid in pids
  {
    if |pids| > 0 {
      MovesAndScores(pids[..|pids| - 1], slice, score, view);
      assert pids == pids[..|pids| - 1] + [pids[|pids| - 1]];
    }
  }

  lemma {:induction false} WakesAndStops(g: Guard, pids: seq<Pid>, wl: nat, view: ProcView)
    ensures forall e :: e in Wakes(pids, wl, view) <==>
              e.Signal? && e.pid in pids && e == Signal(e.pid, SigCont, wl, view) && e.pid in view.stopped
    ensures forall e :: e in Stops(g, pids, wl, view) <==>
              e.Signal? && e.pid in pids && e == Signal(e.pid, SigStop, wl, view) && e.pid in view.alive &&
              !Shielded(g, e.pid, view)
  {
    hide Shielded;
    if |pids| > 0 {
      WakesAndStops(g, pids[..|pids| - 1], wl, view);
      assert pids == pids[..|pids| - 1] + [pids[|pids| - 1]];
    }
  }

  /** The primitives, effect by effect. */
  lemma PrimitivesSend(g: Guard, wl: Workload, act: ProcView)
    ensures forall slice, e :: e in Moves(wl.pids, slice, act) <==>
              e.MoveTo? && e.slice == slice && e.pid in wl.pids && e.pid in act.alive
    ensures forall score, e :: e in Scores(wl.pids, score) <==> e.OomScore? && e.score == score && e.pid in wl.pids
    ensures forall e :: e in Wakes(wl.pids, wl.id, act) <==>
              e.Signal? && e.pid in wl.pids && e == Signal(e.pid, SigCont, wl.id, act) && e.pid in act.stopped
    ensures forall e :: e in Stops(g, wl.pids, wl.id, act) <==>
              e.Signal? && e.pid in wl.pids && e == Signal(e.pid, SigStop, wl.id, act) && e.pid in act.alive &&
              !Shielded(g, e.pid, act)
  {
    hide Moves, Scores, Wakes, Stops, Shielded;
    forall slice
      ensures forall e :: e in Moves(wl.pids, slice, act) <==>
                e.MoveTo? && e.slice == slice && e.pid in wl.pids && e.pid in act.alive
    {
      MovesAndScores(wl.pids, slice, 0, act);
    }
    forall score
      ensures forall e :: e in Scores(wl.pids, score) <==> e.OomScore? && e.score == score && e.pid in wl.pids
    {
      MovesAndScores(wl.pids, SliceActive, score, act);
    }
    WakesAndStops(g, wl.pids, wl.id, act);
  }

  lemma StopsComeFirst(g: Guard, wl: Workload, d: PolicyDecision, check: ProcView, act: ProcView, i: nat, j: nat)
    requires var sent := Enforced(g, wl, d, check, act);
             i < j < |sent| && sent[j].Signal? && sent[j].sig == SigStop
    ensures var e := Enforced(g, wl, d, check, act)[i]; e.Signal? && e.sig == SigStop
  {
    var sent := Enforced(g, wl, d, check, act);
    OnlyFreezeStops(g, wl, d, check, act, sent[j]);
    PrimitivesSend(g, wl, act);
    hide Moves, Scores, Wakes, Stops, Shielded, AnyShielded;
    var stops := Stops(g, wl.pids, wl.id, act);
    var others := Moves(wl.pids, SliceFrozen, act) + [FreezeSlice(SliceFrozen, true)] + Scores(wl.pids, OOM_EXPOSE);
    assert sent == stops + others;
    forall k | |stops| <= k < |sent| ensures !sent[k].Signal? {
      assert sent[k] == others[k - |stops|] && sent[k] in others;
    }
    assert i < |stops| ==> sent[i] == stops[i] && stops[i] in stops;
  }

  /** What is specified step by step is what is told from the log. */
  lemma EnforcedIsCarried(g: Guard, wl: Workload, d: PolicyDecision, check: ProcView, act: ProcView)
    ensures Carried(g, wl, d, wl.tags.isProtected || AnyShielded(g, wl.pids, check), act,
                    Enforced(g, wl, d, check, act))
  {
    var blocked, sent := wl.tags.isProtected || AnyShielded(g, wl.pids, check), Enforced(g, wl, d, check, act);
    forall e ensures e in sent <==> Sends(g, wl, d, blocked, act, e) {
      SentExactly(g, wl, d, check, act, e);
    }
    hide Enforced, Sends, AnyShielded;
    forall i, j | 0 <= i < j < |sent| && sent[j].Signal? && sent[j].sig == SigStop
      ensures sent[i].Signal? && sent[i].sig == SigStop
    {
      StopsComeFirst(g, wl, d, check, act, i, j);
    }
  }

  lemma SentExactly(g: Guard, wl: Workload, d: PolicyDecision, check: ProcView, act: ProcView, e: Effect)
    ensures e in Enforced(g, wl, d, check, act) <==>
            Sends(g, wl, d, wl.tags.isProtected || AnyShielded(g, wl.pids, check), act, e)
  {
    PrimitivesSend(g, wl, act);
    hide Moves, Scores, Wakes, Stops, Shielded, AnyShielded;
  }

  lemma {:induction false} KillsSpareTheDomain(g: Guard, pids: seq<Pid>, sig: Sig, wl: nat, view: ProcView)
    ensures forall e :: e in Kills(g, pids, sig, wl, view) ==>
              e.Signal? && e.sig == sig && e.onBehalf == wl && e.view == view && e.pid in pids &&
              !Shielded(g, e.pid, view) && !IsBrowser(g, e.pid, view)
    ensures forall p :: p in pids && !Shielded(g, p, view) && !IsBrowser(g, p, view) ==>
              Signal(p, sig, wl, view) in Kills(g, pids, sig, wl, view)
  {
    if |pids| == 0 {
    } else {
      KillsSpareTheDomain(g, pids[..|pids| - 1], sig, wl, view);
      assert pids == pids[..|pids| - 1] + [pids[|pids| - 1]];
    }
  }

  // ---------- The plane ----------

  class Kernel {
    var log: seq<Effect>

    constructor ()
      ensures log == []
    {
      log := [];
    }

    method Do(e: Effect)
      modifies this
      ensures log == old(log) + [e]
    {
      log := log + [e];
    }
  }

  class EnforcementPlane {
    const kernel: Kernel
    const registry: ProtectedRegistry

    constructor (kernel: Kernel, registry: ProtectedRegistry)
      ensures this.kernel == kernel && this.registry == registry
    {
      this.kernel, this.registry := kernel, registry;
    }

    method SignalTree(pids: seq<Pid>, wl: nat, view: ProcView)
      modifies kernel
      ensures kernel.log == old(kernel.log) + Stops(registry.Content(), pids, wl, view)
    {
      for k := 0 to |pids|
        invariant kernel.log == old(kernel.log) + Stops(registry.Content(), pids[..k], wl, view)
      {
        assert pids[..k + 1][..k] == pids[..k];
        var blocked := registry.IsProtected(pids[k], ReadComm(pids[k], view), view);
        if !blocked && pids[k] in view.alive {
          kernel.Do(Signal(pids[k], SigStop, wl, view));
        }
      }
      assert pids[..|pids|] == pids;
    }

    method SigcontIfStopped(pids: seq<Pid>, wl: nat, view: ProcView)
      modifies kernel
      ensures kernel.log == old(kernel.log) + Wakes(pids, wl, view)
    {
      for k := 0 to |pids|
        invariant kernel.log == old(kernel.log) + Wakes(pids[..k], wl, view)
      {
        assert pids[..k + 1][..k] == pids[..k];
        if pids[k] in view.stopped {
          kernel.Do(Signal(pids[k], SigCont, wl, view));
        }
      }
      assert pids[..|pids|] == pids;
    }

    method MoveToSlice(pids: seq<Pid>, slice: Slice, view: ProcView)
      modifies kernel
      ensures kernel.log == old(kernel.log) + Moves(pids, slice, view)
    {
      for k := 0 to |pids|
        invariant kernel.log == old(kernel.log) + Moves(pids[..k], slice, view)
      {
        assert pids[..k + 1][..k] == pids[..k];
        if pids[k] in view.alive {
          kernel.Do(MoveTo(pids[k], slice));
        }
      }
      assert pids[..|pids|] == pids;
    }

    method SetOomScore(pids: seq<Pid>, score: int)
      modifies kernel
      ensures kernel.log == old(kernel.log) + Scores(pids, score)
    {
      for k := 0 to |pids|
        invariant kernel.log == old(kernel.log) + Scores(pids[..k], score)
      {
        assert pids[..k + 1][..k] == pids[..k];
        kernel.Do(OomScore(pids[k], score));
      }
      assert pids[..|pids|] == pids;
    }

    /** Translates a decision into kernel actions; false when the hard block fired. */
    method Apply(wl: Workload, d: PolicyDecision, check: ProcView, act: ProcView) returns (applied: bool)
      modifies kernel
      ensures kernel.log == old(kernel.log) + Enforced(registry.Content(), wl, d, check, act)
      ensures applied <==> !wl.tags.isProtected && !AnyShielded(registry.Content(), wl.pids, check)
      ensures Carried(registry.Content(), wl, d, !applied, act, kernel.log[|old(kernel.log)|..])
    {
      hide Moves, Scores, Wakes, Stops, AnyShielded, Carried;
      EnforcedIsCarried(registry.Content(), wl, d, check, act);
      var shielded := registry.IsProtectedAny(wl.pids, check);
      if wl.tags.isProtected || shielded {
        MoveToSlice(wl.pids, SliceActive, act);
        SigcontIfStopped(wl.pids, wl.id, act);
        return false;
      }
      match d {
      case KeepFull => Keep(wl, d, check, act);
      case KeepBackground => Keep(wl, d, check, act);
      case Throttle =>
        MoveToSlice(wl.pids, SliceBackground, act);
        kernel.Do(CpuWeight(SliceBackground, CPU_WEIGHT_THROTTLE));
        SetOomScore(wl.pids, OOM_EXPOSE);
      case Freeze =>
        if wl.tags.isBrowserRoot {
          MoveToSlice(wl.pids, SliceFrozen, act);
          kernel.Do(FreezeSlice(SliceFrozen, true));
          kernel.Do(CpuWeight(SliceBackground, CPU_WEIGHT_THROTTLE));
          SetOomScore(wl.pids, OOM_EXPOSE);
        } else {
          SignalTree(wl.pids, wl.id, act);
          MoveToSlice(wl.pids, SliceFrozen, act);
          kernel.Do(FreezeSlice(SliceFrozen, true));
          SetOomScore(wl.pids, OOM_EXPOSE);
        }
      case Reclaim =>
      }
      applied := true;
    }

    /** The two decisions that wake a workload. */
    method Keep(wl: Workload, d: PolicyDecision, check: ProcView, act: ProcView)
      requires d.KeepFull? || d.KeepBackground?
      requires !wl.tags.isProtected && !AnyShielded(registry.Content(), wl.pids, check)
      modifies kernel
      ensures kernel.log == old(kernel.log) + Enforced(registry.Content(), wl, d, check, act)
    {
      hide Moves, Scores, Wakes, Stops, AnyShielded;
      if d.KeepFull? {
        MoveToSlice(wl.pids, SliceActive, act);
        kernel.Do(CpuWeight(SliceActive, CPU_WEIGHT_ACTIVE));
        SetOomScore(wl.pids, OOM_PROTECT);
        SigcontIfStopped(wl.pids, wl.id, act);
        kernel.Do(FreezeSlice(SliceFrozen, false));
      } else {
        MoveToSlice(wl.pids, SliceBackground, act);
        kernel.Do(CpuWeight(SliceBackground, CPU_WEIGHT_BACKGROUND));
        SetOomScore(wl.pids, OOM_NORMAL);
        SigcontIfStopped(wl.pids, wl.id, act);
      }
    }
  }
}
