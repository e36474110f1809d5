/** The safety-checked termination sequence. */
module Reclaiming {
  import opened Types
  import opened Protection
  import opened Enforcement

  datatype ReclaimConfig = ReclaimConfig(recentFocusSeconds: int, notifyMinIntervalSeconds: nat, notifyEnabled: bool)

  datatype NotifyOutcome = Dispatched | Coalesced | Unavailable

  /** The workload's activity from its members' activities; absent members do not count. */
  function Aggregate(pids: seq<Pid>, activities: map<Pid, ActivityState>): ActivityState {
    if exists k :: 0 <= k < |pids| && pids[k] in activities && activities[pids[k]] == Executing then Executing
    else if exists k :: 0 <= k < |pids| && pids[k] in activities then Resting
    else Completed
  }

  /** Another running workload is rooted inside this one. */
  predicate HasActiveDependent(wl: Workload, all: map<nat, Workload>) {
    exists id :: id in all && id != wl.id &&
      (all[id].phase.state == Active || all[id].phase.state == BackgroundExecuting) && all[id].rootPid in wl.pids
  }

  /** Whole seconds from since to now, truncated toward zero. */
  function SecondsBetween(since: nat, now: nat): int {
    if since <= now then (now - since) / 1000 else -((since - now) / 1000)
  }

  predicate RecentlyFocused(cfg: ReclaimConfig, wl: Workload, now: nat) {
    SecondsBetween(wl.lastActive, now) < cfg.recentFocusSeconds
  }

  /** The four conditions checked before the grace period and again after it. */
  ghost predicate MayReclaim(cfg: ReclaimConfig, g: Guard, wl: Workload, activities: map<Pid, ActivityState>,
                             all: map<nat, Workload>, view: ProcView, now: nat) {
    !wl.tags.isProtected && !AnyShielded(g, wl.pids, view) &&
    Aggregate(wl.pids, activities) != Executing &&
    !HasActiveDependent(wl, all) &&
    !RecentlyFocused(cfg, wl, now)
  }

  /** The moments of one attempt: first check, re-check, and what each kill stage sees of /proc. */
  datatype Moments = Moments(
    first: ProcView, firstNow: nat, again: ProcView, againNow: nat, term: ProcView, kill: ProcView)

  /** What an attempt sends. */
  ghost function Reclaimed(cfg: ReclaimConfig, g: Guard, wl: Workload, activities: map<Pid, ActivityState>,
                           all: map<nat, Workload>, w: Moments): seq<Effect> {
    if MayReclaim(cfg, g, wl, activities, all, w.first, w.firstNow) &&
       MayReclaim(cfg, g, wl, activities, all, w.again, w.againNow)
    then Kills(g, wl.pids, SigTerm, wl.id, w.term) + Kills(g, wl.pids, SigKill, wl.id, w.kill)
    else []
  }

  /** An attempt only ever sends TERM and KILL, on behalf of its workload, to members outside the protected domain. */
  lemma ReclaimedIsHarmless(cfg: ReclaimConfig, g: Guard, wl: Workload, activities: map<Pid, ActivityState>,
                            all: map<nat, Workload>, w: Moments)
    ensures forall e :: e in Reclaimed(cfg, g, wl, activities, all, w) ==>
              e.Signal? && (e.sig == SigTerm || e.sig == SigKill) && e.onBehalf == wl.id && e.pid in wl.pids &&
              Harmless(g, e)
  {
    KillsSpareTheDomain(g, wl.pids, SigTerm, wl.id, w.term);
    KillsSpareTheDomain(g, wl.pids, SigKill, wl.id, w.kill);
  }

  // ---------- An attempt, told from the log ----------

  /** No member is shielded or executing, no running workload is rooted inside, and the last use is far enough back. */
  ghost predicate NothingForbids(cfg: ReclaimConfig, g: Guard, wl: Workload, activities: map<Pid, ActivityState>,
                                 all: map<nat, Workload>, view: ProcView, now: nat) {
    !wl.tags.isProtected &&
    (forall p :: p in wl.pids ==> !Shielded(g, p, view) && (p in activities ==> activities[p] != Executing)) &&
    (forall id :: id in all && id != wl.id && all[id].rootPid in wl.pids ==>
      all[id].phase.state != Active && all[id].phase.state != BackgroundExecuting) &&
    if cfg.recentFocusSeconds > 0 then now >= wl.lastActive + 1000 * cfg.recentFocusSeconds
    else now > wl.lastActive + 1000 * (cfg.recentFocusSeconds - 1)
  }

  /** The focus guard, told in milliseconds. */
  lemma FocusInMilliseconds(cfg: ReclaimConfig, wl: Workload, now: nat)
    ensures RecentlyFocused(cfg, wl, now) <==>
            if cfg.recentFocusSeconds > 0 then now < wl.lastActive + 1000 * cfg.recentFocusSeconds
            else now <= wl.lastActive + 1000 * (cfg.recentFocusSeconds - 1)
  {}

  lemma MayReclaimIfNothingForbids(cfg: ReclaimConfig, g: Guard, wl: Workload, activities: map<Pid, ActivityState>,
                                   all: map<nat, Workload>, view: ProcView, now: nat)
    ensures MayReclaim(cfg, g, wl, activities, all, view, now) <==>
            NothingForbids(cfg, g, wl, activities, all, view, now)
  {
    FocusInMilliseconds(cfg, wl, now);
    hide Shielded, RecentlyFocused;
    if MayReclaim(cfg, g, wl, activities, all, view, now) {
      forall p | p in wl.pids ensures !Shielded(g, p, view) && (p in activities ==> activities[p] != Executing) {
        var k :| 0 <= k < |wl.pids| && wl.pids[k] == p;
      }
    }
    if NothingForbids(cfg, g, wl, activities, all, view, now) {
      forall k | 0 <= k < |wl.pids|
        ensures !Shielded(g, wl.pids[k], view)
        ensures wl.pids[k] in activities ==> activities[wl.pids[k]] != Executing
      {
        assert wl.pids[k] in wl.pids;
      }
      assert !AnyShielded(g, wl.pids, view);
      assert Aggregate(wl.pids, activities) != Executing;
      assert !HasActiveDependent(wl, all);
    }
  }

  /** A member that is neither shielded nor a browser is asked to terminate and then killed; each verdict is taken from
      what /proc shows at that stage. */
  ghost predicate KillDue(g: Guard, wl: Workload, w: Moments, e: Effect) {
    e.Signal? && e.pid in wl.pids && e.onBehalf == wl.id &&
    ((e.sig == SigTerm && e.view == w.term) || (e.sig == SigKill && e.view == w.kill)) &&
    !Shielded(g, e.pid, e.view) && !IsBrowser(g, e.pid, e.view)
  }

  /** Exactly the due signals were sent, and everybody was asked before anybody was killed. */
  ghost predicate AskedThenKilled(g: Guard, wl: Workload, w: Moments, sent: seq<Effect>) {
    (forall e {:trigger e in sent} :: e in sent <==> KillDue(g, wl, w, e)) &&
    forall i, j :: 0 <= i < j < |sent| && sent[j].Signal? && sent[j].sig == SigTerm ==>
      sent[i].Signal? && sent[i].sig == SigTerm
  }

  lemma KillsInOrder(g: Guard, wl: Workload, w: Moments)
    ensures AskedThenKilled(g, wl, w,
                            Kills(g, wl.pids, SigTerm, wl.id, w.term) + Kills(g, wl.pids, SigKill, wl.id, w.kill))
  {
    KillsSpareTheDomain(g, wl.pids, SigTerm, wl.id, w.term);
    KillsSpareTheDomain(g, wl.pids, SigKill, wl.id, w.kill);
    hide Kills, Shielded, IsBrowser;
    var terms, kills := Kills(g, wl.pids, SigTerm, wl.id, w.term), Kills(g, wl.pids, SigKill, wl.id, w.kill);
    var sent := terms + kills;
    forall k | 0 <= k < |sent| ensures sent[k].Signal? && (sent[k].sig == SigTerm <==> k < |terms|) {
      assert if k < |terms| then sent[k] == terms[k] && sent[k] in terms
             else sent[k] == kills[k - |terms|] && sent[k] in kills;
    }
    forall e ensures e in sent <==> KillDue(g, wl, w, e) {
      assert e in sent <==> e in terms || e in kills;
      if e.Signal? { assert e == Signal(e.pid, e.sig, e.onBehalf, e.view); }
    }
  }

  lemma ReclaimedKillsDue(cfg: ReclaimConfig, g: Guard, wl: Workload, activities: map<Pid, ActivityState>,
                          all: map<nat, Workload>, w: Moments)
    ensures forall e {:trigger e in Reclaimed(cfg, g, wl, activities, all, w)} ::
              e in Reclaimed(cfg, g, wl, activities, all, w) <==>
              NothingForbids(cfg, g, wl, activities, all, w.first, w.firstNow) &&
              NothingForbids(cfg, g, wl, activities, all, w.again, w.againNow) && KillDue(g, wl, w, e)
  {
    hide MayReclaim, NothingForbids, Kills, KillDue;
    MayReclaimIfNothingForbids(cfg, g, wl, activities, all, w.first, w.firstNow);
    MayReclaimIfNothingForbids(cfg, g, wl, activities, all, w.again, w.againNow);
    KillsInOrder(g, wl, w);
  }

  /** The re-check looks at the same snapshot as the first check, so after it has passed once only a change in what
      the registry shields can still stop the attempt. */
  lemma RecheckOnlySeesTheGuard(cfg: ReclaimConfig, g: Guard, wl: Workload, activities: map<Pid, ActivityState>,
                                all: map<nat, Workload>, w: Moments)
    requires MayReclaim(cfg, g, wl, activities, all, w.first, w.firstNow) && w.firstNow <= w.againNow
    ensures MayReclaim(cfg, g, wl, activities, all, w.again, w.againNow) <==> !AnyShielded(g, wl.pids, w.again)
  {
    hide AnyShielded, Aggregate, HasActiveDependent;
    SecondsGrow(wl.lastActive, w.firstNow, w.againNow);
  }

  lemma SecondsGrow(since: nat, now: nat, later: nat)
    requires now <= later
    ensures SecondsBetween(since, now) <= SecondsBetween(since, later)
  {}

  class ReclaimEngine {
    const cfg: ReclaimConfig
    const kernel: Kernel
    const registry: ProtectedRegistry
    var lastNotify: Option<nat>
    ghost var dispatchedAt: seq<nat>

    /** Notifications really shown are at least the configured interval apart. */
    ghost predicate Spaced()
      reads this
    {
      (lastNotify == None ==> dispatchedAt == []) &&
      (forall k :: 0 <= k < |dispatchedAt| ==> lastNotify.Some? && dispatchedAt[k] <= lastNotify.value) &&
      (cfg.notifyMinIntervalSeconds > 0 ==>
        forall i, j :: 0 <= i < j < |dispatchedAt| ==>
          dispatchedAt[j] - dispatchedAt[i] >= 1000 * cfg.notifyMinIntervalSeconds)
    }

    constructor (cfg: ReclaimConfig, kernel: Kernel, registry: ProtectedRegistry)
      ensures Spaced() && this.kernel == kernel && this.registry == registry && this.cfg == cfg
    {
      this.cfg, this.kernel, this.registry := cfg, kernel, registry;
      lastNotify, dispatchedAt := None, [];
    }

    /** Rate-limited desktop notification; canSpawn tells whether the helper can be started. */
    method Notify(now: nat, canSpawn: bool) returns (outcome: NotifyOutcome)
      requires Spaced()
      modifies this
      ensures Spaced()
      ensures outcome == Dispatched <==> dispatchedAt == old(dispatchedAt) + [now]
      ensures outcome != Dispatched ==> dispatchedAt == old(dispatchedAt)
      ensures outcome == Dispatched <==>
                cfg.notifyEnabled && canSpawn &&
                (old(lastNotify) == None || now >= old(lastNotify).value + 1000 * cfg.notifyMinIntervalSeconds)
      ensures lastNotify == if cfg.notifyEnabled &&
                               (old(lastNotify) == None ||
                                now >= old(lastNotify).value + 1000 * cfg.notifyMinIntervalSeconds)
                            then Some(now) else old(lastNotify)
    {
      if !cfg.notifyEnabled {
        return Unavailable;
      }
      if lastNotify.Some? && now - lastNotify.value < 1000 * cfg.notifyMinIntervalSeconds {
        return Coalesced;
      }
      lastNotify := Some(now);
      if !canSpawn {
        return Unavailable;
      }
      dispatchedAt := dispatchedAt + [now];
      outcome := Dispatched;
    }

    method KillTree(pids: seq<Pid>, sig: Sig, wl: nat, view: ProcView)
      modifies kernel
      ensures kernel.log == old(kernel.log) + Kills(registry.Content(), pids, sig, wl, view)
    {
      for k := 0 to |pids|
        invariant kernel.log == old(kernel.log) + Kills(registry.Content(), pids[..k], sig, wl, view)
      {
        assert pids[..k + 1][..k] == pids[..k];
        var hard := registry.IsProtectedAny([pids[k]], view);
        if !hard {
          var soft := registry.IsCollateralProtectedAny([pids[k]], view);
          if !soft {
            assert [pids[k]][0] == pids[k];
            kernel.Do(Signal(pids[k], sig, wl, view));
          }
        }
      }
      assert pids[..|pids|] == pids;
    }

    method CheckAll(wl: Workload, activities: map<Pid, ActivityState>, all: map<nat, Workload>,
                    view: ProcView, now: nat) returns (ok: bool)
      ensures ok <==> MayReclaim(cfg, registry.Content(), wl, activities, all, view, now)
    {
      var shielded := registry.IsProtectedAny(wl.pids, view);
      ok := !wl.tags.isProtected && !shielded && Aggregate(wl.pids, activities) != Executing &&
            !HasActiveDependent(wl, all) && !RecentlyFocused(cfg, wl, now);
    }

    /** Check, notify, wait, check again, terminate, wait, kill. */
    method Reclaim(wl: Workload, activities: map<Pid, ActivityState>, all: map<nat, Workload>, w: Moments,
                   canSpawn: bool)
      returns (done: bool)
      requires Spaced()
      modifies kernel, this
      ensures Spaced()
      ensures kernel.log == old(kernel.log) + Reclaimed(cfg, registry.Content(), wl, activities, all, w)
      ensures done <==> MayReclaim(cfg, registry.Content(), wl, activities, all, w.first, w.firstNow) &&
                        MayReclaim(cfg, registry.Content(), wl, activities, all, w.again, w.againNow)
      ensures done <==> NothingForbids(cfg, registry.Content(), wl, activities, all, w.first, w.firstNow) &&
                        NothingForbids(cfg, registry.Content(), wl, activities, all, w.again, w.againNow)
      ensures if done then AskedThenKilled(registry.Content(), wl, w, kernel.log[|old(kernel.log)|..])
              else kernel.log == old(kernel.log)
    {
      hide MayReclaim, NothingForbids, Kills, AskedThenKilled;
      MayReclaimIfNothingForbids(cfg, registry.Content(), wl, activities, all, w.first, w.firstNow);
      MayReclaimIfNothingForbids(cfg, registry.Content(), wl, activities, all, w.again, w.againNow);
      KillsInOrder(registry.Content(), wl, w);
      done := CheckAll(wl, activities, all, w.first, w.firstNow);
      if !done {
        return;
      }
      var _ := Notify(w.firstNow, canSpawn);
      done := CheckAll(wl, activities, all, w.again, w.againNow);
      if !done {
        return;
      }
      KillTree(wl.pids, SigTerm, wl.id, w.term);
      KillTree(wl.pids, SigKill, wl.id, w.kill);
    }
  }
}
