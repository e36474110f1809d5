/** The protected domain: which processes may never be stopped or killed. */
module Protection {
  import opened Types

  /** The name and path tables, left open: everything below holds for any tables. */
  datatype Tables = Tables(
    protectedNames: set<string>,
    protectedPrefixes: seq<string>,
    browserNames: set<string>,
    browserPrefixes: seq<string>)

  /** The registry's content at one moment. */
  datatype Guard = Guard(explicitPids: set<Pid>, tables: Tables)

  /** What /proc shows at one moment: exe links that can be read, existing pids, pids in state T. */
  datatype ProcView = ProcView(exes: map<Pid, string>, comms: map<Pid, string>, alive: set<Pid>, stopped: set<Pid>)

  const DELETED := " (deleted)"

  /** The exe path without the suffix the kernel adds once the file has been replaced. */
  function StripDeleted(link: string): string {
    if |link| > |DELETED| && link[|link| - |DELETED|..] == DELETED then link[..|link| - |DELETED|] else link
  }

  lemma StripDeletedUndoesSuffix(path: string)
    requires path != ""
    ensures StripDeleted(path + DELETED) == path
  {
    assert (path + DELETED)[|path|..] == DELETED;
  }

  ghost predicate HasPrefix(path: string, prefixes: seq<string>) {
    exists k :: 0 <= k < |prefixes| && prefixes[k] <= path
  }

  ghost predicate ExeMatches(pid: Pid, view: ProcView, prefixes: seq<string>) {
    pid in view.exes && HasPrefix(StripDeleted(view.exes[pid]), prefixes)
  }

  /** The verdicts in terms of what identifies a process; comm plays no part. */
  ghost predicate Shielded(g: Guard, pid: Pid, view: ProcView) {
    pid in g.explicitPids || ExeMatches(pid, view, g.tables.protectedPrefixes)
  }

  ghost predicate IsBrowser(g: Guard, pid: Pid, view: ProcView) {
    ExeMatches(pid, view, g.tables.browserPrefixes)
  }

  ghost predicate AnyShielded(g: Guard, pids: seq<Pid>, view: ProcView) {
    exists k :: 0 <= k < |pids| && Shielded(g, pids[k], view)
  }

  lemma PrefixInTable(path: string, prefixes: seq<string>)
    ensures HasPrefix(path, prefixes) <==> exists prefix :: prefix in prefixes && prefix <= path
  {
    if HasPrefix(path, prefixes) {
      var k :| 0 <= k < |prefixes| && prefixes[k] <= path;
      assert prefixes[k] in prefixes;
    }
    if prefix :| prefix in prefixes && prefix <= path {
      var k :| 0 <= k < |prefixes| && prefixes[k] == prefix;
    }
  }

  /** The verdicts, told from the link /proc shows: a process is shielded when it was registered or when its executable
      has one of the protected prefixes, and a browser when it has one of the browser prefixes; an executable that has
      been replaced since counts as what it was. */
  lemma VerdictsFromLink(g: Guard, pid: Pid, view: ProcView, path: string)
    requires path != "" && pid in view.exes && view.exes[pid] == path + DELETED
    ensures Shielded(g, pid, view) <==>
            pid in g.explicitPids || exists prefix :: prefix in g.tables.protectedPrefixes && prefix <= path
    ensures IsBrowser(g, pid, view) <==> exists prefix :: prefix in g.tables.browserPrefixes && prefix <= path
  {
    StripDeletedUndoesSuffix(path);
    PrefixInTable(path, g.tables.protectedPrefixes);
    PrefixInTable(path, g.tables.browserPrefixes);
  }

  /** The same for an executable that is still in place. */
  lemma VerdictsFromPath(g: Guard, pid: Pid, view: ProcView)
    requires pid in view.exes && StripDeleted(view.exes[pid]) == view.exes[pid]
    ensures Shielded(g, pid, view) <==>
            pid in g.explicitPids || exists prefix :: prefix in g.tables.protectedPrefixes && prefix <= view.exes[pid]
    ensures IsBrowser(g, pid, view) <==> exists prefix :: prefix in g.tables.browserPrefixes && prefix <= view.exes[pid]
  {
    PrefixInTable(view.exes[pid], g.tables.protectedPrefixes);
    PrefixInTable(view.exes[pid], g.tables.browserPrefixes);
  }

  class ProtectedRegistry {
    const tables: Tables
    var explicitPids: map<Pid, string>

    constructor (tables: Tables)
      ensures this.tables == tables && explicitPids == map[]
    {
      this.tables := tables;
      explicitPids := map[];
    }

    function Content(): Guard
      reads this
    {
      Guard(explicitPids.Keys, tables)
    }

    method ExeIsProtected(pid: Pid, view: ProcView) returns (r: bool)
      ensures r <==> ExeMatches(pid, view, tables.protectedPrefixes)
    {
      if pid !in view.exes {
        return false;
      }
      r := StartsWithAny(StripDeleted(view.exes[pid]), tables.protectedPrefixes);
    }

    method ExeIsBrowser(pid: Pid, view: ProcView) returns (r: bool)
      ensures r <==> ExeMatches(pid, view, tables.browserPrefixes)
    {
      if pid !in view.exes {
        return false;
      }
      r := StartsWithAny(StripDeleted(view.exes[pid]), tables.browserPrefixes);
    }

    static method StartsWithAny(path: string, prefixes: seq<string>) returns (r: bool)
      ensures r <==> HasPrefix(path, prefixes)
    {
      for k := 0 to |prefixes|
        invariant forall i :: 0 <= i < k ==> !(prefixes[i] <= path)
      {
        if prefixes[k] <= path {
          return true;
        }
      }
      r := false;
    }

    /** The verdict is the same whatever comm string the caller passes. */
    method IsProtected(pid: Pid, comm: string, view: ProcView) returns (r: bool)
      ensures r <==> Shielded(Content(), pid, view)
    {
      if pid in explicitPids {
        return true;
      }
      var exe := ExeIsProtected(pid, view);
      if comm in tables.protectedNames {
        if exe {
          return true;
        }
        return false;
      }
      r := exe;
    }

    method IsProtectedAny(pids: seq<Pid>, view: ProcView) returns (r: bool)
      ensures r <==> AnyShielded(Content(), pids, view)
    {
      for k := 0 to |pids|
        invariant forall i :: 0 <= i < k ==> !Shielded(Content(), pids[i], view)
      {
        var hit := IsProtected(pids[k], ReadComm(pids[k], view), view);
        if hit {
          return true;
        }
      }
      r := false;
    }

    method IsCollateralProtected(pid: Pid, comm: string, view: ProcView) returns (r: bool)
      ensures r <==> IsBrowser(Content(), pid, view)
    {
      var exe := ExeIsBrowser(pid, view);
      if comm in tables.browserNames {
        if exe {
          return true;
        }
        return false;
      }
      r := exe;
    }

    method IsCollateralProtectedAny(pids: seq<Pid>, view: ProcView) returns (r: bool)
      ensures r <==> exists k :: 0 <= k < |pids| &&
                       (Shielded(Content(), pids[k], view) || IsBrowser(Content(), pids[k], view))
    {
      for k := 0 to |pids|
        invariant forall i :: 0 <= i < k ==>
                    !Shielded(Content(), pids[i], view) && !IsBrowser(Content(), pids[i], view)
      {
        var hard := IsProtected(pids[k], ReadComm(pids[k], view), view);
        if hard {
          return true;
        }
        var soft := IsCollateralProtected(pids[k], ReadComm(pids[k], view), view);
        if soft {
          return true;
        }
      }
      r := false;
    }

    /** Startup scan: a matching name alone is enough here, unlike in the queries above. */
    method BootstrapFromSystemd(pids: seq<Pid>, view: ProcView)
      modifies this
      ensures forall p :: p in explicitPids <==>
                p in old(explicitPids) ||
                (p in pids && p > 1 && (ReadComm(p, view) in tables.protectedNames ||
                                        ExeMatches(p, view, tables.protectedPrefixes)))
    {
      for k := 0 to |pids|
        invariant forall p :: p in explicitPids <==>
                    p in old(explicitPids) ||
                    (p in pids[..k] && p > 1 && (ReadComm(p, view) in tables.protectedNames ||
                                                 ExeMatches(p, view, tables.protectedPrefixes)))
      {
        assert pids[..k + 1] == pids[..k] + [pids[k]];
        var comm := ReadComm(pids[k], view);
        var exe := ExeIsProtected(pids[k], view);
        if pids[k] > 1 && (comm in tables.protectedNames || exe) {
          RegisterPid(pids[k], comm);
        }
      }
      assert pids[..|pids|] == pids;
    }

    /** From then on the process is shielded whatever /proc shows, and nobody else's verdict changes. */
    method RegisterPid(pid: Pid, reason: string)
      modifies this
      ensures explicitPids == old(explicitPids)[pid := reason]
      ensures forall p, view :: Shielded(Content(), p, view) <==> p == pid || old(Shielded(Content(), p, view))
    {
      explicitPids := explicitPids[pid := reason];
    }

    /** From then on only the executable path can shield the process, and nobody else's verdict changes. */
    method UnregisterPid(pid: Pid)
      modifies this
      ensures explicitPids == old(explicitPids) - {pid}
      ensures forall p, view :: Shielded(Content(), p, view) <==>
                if p == pid then ExeMatches(p, view, tables.protectedPrefixes) else old(Shielded(Content(), p, view))
    {
      explicitPids := explicitPids - {pid};
    }
  }

  /** The comm of a process, empty when it is gone. */
  function ReadComm(pid: Pid, view: ProcView): string {
    if pid in view.comms then view.comms[pid] else ""
  }
}
