/** Process ownership: which workload a pid belongs to, and the cold-start assignment of process trees. */
module Ownership {
  import opened Sequences
  import opened Types

  // ---------- The two indexes ----------

  /** members are exactly the pids owned by w. */
  ghost predicate IsBucket(pidToWl: map<Pid, nat>, members: set<Pid>, w: nat) {
    forall p :: p in members <==> p in pidToWl && pidToWl[p] == w
  }

  /** The reverse index lists exactly the owned pids, bucket by bucket, with no empty bucket. */
  ghost predicate Inverse(pidToWl: map<Pid, nat>, wlToPids: map<nat, set<Pid>>) {
    (forall p :: p in pidToWl ==> pidToWl[p] in wlToPids) &&
    (forall w :: w in wlToPids ==> IsBucket(pidToWl, wlToPids[w], w) && exists p :: p in wlToPids[w])
  }

  lemma BucketIsUnique(pidToWl: map<Pid, nat>, x: set<Pid>, y: set<Pid>, w: nat)
    requires IsBucket(pidToWl, x, w) && IsBucket(pidToWl, y, w)
    ensures x == y && x <= pidToWl.Keys
  {
    assert forall p :: p in x ==> p in y && p in pidToWl.Keys;
    assert forall p :: p in y ==> p in x;
  }

  /** The forward index determines the reverse one. */
  lemma ReverseIndexIsUnique(pidToWl: map<Pid, nat>, x: map<nat, set<Pid>>, y: map<nat, set<Pid>>)
    requires Inverse(pidToWl, x) && Inverse(pidToWl, y)
    ensures x == y
  {
    forall w | w in x ensures w in y && x[w] == y[w] {
      var p :| p in x[w];
      assert pidToWl[p] == w;
      BucketIsUnique(pidToWl, x[w], y[w], w);
    }
    forall w | w in y ensures w in x {
      var p :| p in y[w];
      assert pidToWl[p] == w;
    }
  }

  ghost function TotalSize(buckets: map<nat, set<Pid>>): nat
    decreases |buckets|
  {
    if buckets == map[] then 0
    else
      var w :| w in buckets;
      |buckets[w]| + TotalSize(buckets - {w})
  }

  /** Bucket sizes add up to the number of owned pids. */
  lemma {:induction false} BucketsCoverPids(pidToWl: map<Pid, nat>, wlToPids: map<nat, set<Pid>>)
    requires Inverse(pidToWl, wlToPids)
    ensures TotalSize(wlToPids) == |pidToWl|
    decreases |wlToPids|
  {
    if wlToPids == map[] {
      assert forall p :: p !in pidToWl;
      assert pidToWl == map[];
    } else {
      var w :| w in wlToPids && TotalSize(wlToPids) == |wlToPids[w]| + TotalSize(wlToPids - {w});
      DropBucket(pidToWl, wlToPids, w);
      BucketsCoverPids(pidToWl - wlToPids[w], wlToPids - {w});
    }
  }

  lemma DropBucket(pidToWl: map<Pid, nat>, wlToPids: map<nat, set<Pid>>, w: nat)
    requires Inverse(pidToWl, wlToPids) && w in wlToPids
    ensures Inverse(pidToWl - wlToPids[w], wlToPids - {w})
    ensures |pidToWl| == |pidToWl - wlToPids[w]| + |wlToPids[w]|
  {
    var members := wlToPids[w];
    BucketIsUnique(pidToWl, members, members, w);
    assert (pidToWl - members).Keys == pidToWl.Keys - members;
  }

  // ---------- Process trees ----------

  /** One scanned process. cwdType and commType are what its directory and its name suggest. */
  datatype ProcEntry = ProcEntry(pid: Pid, ppid: Pid, cwdType: WorkloadType, commType: WorkloadType) {
    predicate Marked() { cwdType != Neutral || commType != Neutral }

    function Kind(): WorkloadType { if cwdType != Neutral then cwdType else commType }
  }

  ghost predicate DistinctPids(es: seq<ProcEntry>) {
    forall i, j :: 0 <= i < j < |es| ==> es[i].pid != es[j].pid
  }

  ghost predicate Scanned(es: seq<ProcEntry>, p: Pid) {
    exists k :: 0 <= k < |es| && es[k].pid == p
  }

  ghost predicate MarkedPid(es: seq<ProcEntry>, p: Pid) {
    exists k :: 0 <= k < |es| && es[k].pid == p && es[k].Marked()
  }

  ghost predicate ChildOf(es: seq<ProcEntry>, child: Pid, parent: Pid) {
    exists k :: 0 <= k < |es| && es[k].pid == child && es[k].ppid == parent
  }

  /** a is reached from p by n parent steps through scanned processes. */
  ghost predicate Above(es: seq<ProcEntry>, a: Pid, p: Pid, n: nat)
    decreases n
  {
    Scanned(es, p) &&
    if n == 0 then a == p
    else exists parent :: ChildOf(es, p, parent) && Above(es, a, parent, n - 1)
  }

  ghost predicate AncestorOrSelf(es: seq<ProcEntry>, a: Pid, p: Pid) {
    exists n: nat :: Above(es, a, p, n)
  }

  /** r is the topmost marked process on the way up from p. */
  ghost predicate TopmostMarked(es: seq<ProcEntry>, r: Pid, p: Pid) {
    AncestorOrSelf(es, r, p) && MarkedPid(es, r) &&
    forall a {:trigger MarkedPid(es, a)} :: AncestorOrSelf(es, a, r) && MarkedPid(es, a) ==> a == r
  }

  /** What cold start is for: every process belongs to the tree of its topmost marked ancestor, if any. */
  ghost predicate RootCorrect(es: seq<ProcEntry>, roots: map<Pid, Pid>, p: Pid) {
    (p in roots <==> exists a {:trigger MarkedPid(es, a)} :: AncestorOrSelf(es, a, p) && MarkedPid(es, a)) &&
    (p in roots ==> TopmostMarked(es, roots[p], p))
  }

  ghost predicate AllRootsCorrect(es: seq<ProcEntry>, roots: map<Pid, Pid>) {
    forall p :: Scanned(es, p) ==> RootCorrect(es, roots, p)
  }

  /** The root each pid is filed under by one pass over the entries in the given order. */
  function OnePass(es: seq<ProcEntry>): (roots: map<Pid, Pid>) {
    if |es| == 0 then map[]
    else
      var m, e := OnePass(es[..|es| - 1]), es[|es| - 1];
      if e.ppid in m then m[e.pid := m[e.ppid]]
      else if e.Marked() then m[e.pid := e.pid]
      else m
  }

  /** Every scanned parent comes before its children. */
  ghost predicate ParentsFirst(es: seq<ProcEntry>) {
    forall i, j :: 0 <= i < |es| && 0 <= j < |es| && es[j].ppid == es[i].pid ==> i < j
  }

  lemma AboveByParent(es: seq<ProcEntry>, a: Pid, k: nat)
    requires DistinctPids(es) && k < |es|
    ensures AncestorOrSelf(es, a, es[k].pid) <==> a == es[k].pid || AncestorOrSelf(es, a, es[k].ppid)
  {
    var p, q := es[k].pid, es[k].ppid;
    assert ChildOf(es, p, q);
    if AncestorOrSelf(es, a, p) && a != p {
      var n: nat :| Above(es, a, p, n);
      var parent :| ChildOf(es, p, parent) && Above(es, a, parent, n - 1);
      assert parent == q;
    }
    if a == p {
      assert Above(es, a, p, 0);
    }
    if AncestorOrSelf(es, a, q) {
      var n: nat :| Above(es, a, q, n);
      assert Above(es, a, p, n + 1);
    }
  }

  lemma {:induction false} OnePassKeys(es: seq<ProcEntry>, i: nat)
    requires i <= |es|
    ensures forall p :: p in OnePass(es[..i]) ==> exists k :: 0 <= k < i && es[k].pid == p
  {
    if i == 0 {
    } else {
      OnePassKeys(es, i - 1);
      assert es[..i][..i - 1] == es[..i - 1];
      assert es[i - 1].pid == es[..i][i - 1].pid;
    }
  }

  /** The pass is right about the first i entries once it has read them, if parents come first. */
  lemma {:induction false} OnePassIsCorrectSoFar(es: seq<ProcEntry>, i: nat)
    requires DistinctPids(es) && ParentsFirst(es) && i <= |es|
    ensures forall k :: 0 <= k < i ==> RootCorrect(es, OnePass(es[..i]), es[k].pid)
  {
    if i == 0 {
    } else {
      OnePassIsCorrectSoFar(es, i - 1);
      var e, m, m' := es[i - 1], OnePass(es[..i - 1]), OnePass(es[..i]);
      assert es[..i][..i - 1] == es[..i - 1];
      EntryIsFiledCorrectly(es, i - 1, m);
      forall k | 0 <= k < i - 1 ensures RootCorrect(es, m', es[k].pid) {
        assert es[k].pid != e.pid && RootCorrect(es, m, es[k].pid);
      }
    }
  }

  lemma EntryIsFiledCorrectly(es: seq<ProcEntry>, i: nat, m: map<Pid, Pid>)
    requires DistinctPids(es) && ParentsFirst(es) && i < |es|
    requires m == OnePass(es[..i]) && forall k :: 0 <= k < i ==> RootCorrect(es, m, es[k].pid)
    ensures RootCorrect(es, OnePass(es[..i + 1]), es[i].pid)
  {
    var e, m' := es[i], OnePass(es[..i + 1]);
    assert es[..i + 1][..i] == es[..i];
    OnePassKeys(es, i);
    assert e.pid !in m;
    if Scanned(es, e.ppid) {
      var k :| 0 <= k < |es| && es[k].pid == e.ppid;
      assert k < i && RootCorrect(es, m, e.ppid);
    } else {
      assert e.ppid !in m;
    }
    forall a ensures AncestorOrSelf(es, a, e.pid) <==> a == e.pid || AncestorOrSelf(es, a, e.ppid) {
      AboveByParent(es, a, i);
    }
    assert MarkedPid(es, e.pid) <==> e.Marked();
  }

  /** Main result: a parents-first pass files every process under its topmost marked ancestor. */
  lemma ParentsFirstIsCorrect(es: seq<ProcEntry>)
    requires DistinctPids(es) && ParentsFirst(es)
    ensures AllRootsCorrect(es, OnePass(es))
  {
    OnePassIsCorrectSoFar(es, |es|);
    assert es[..|es|] == es;
  }

  ghost predicate SortedByPpid(es: seq<ProcEntry>) {
    forall i, j :: 0 <= i < j < |es| ==> es[i].ppid <= es[j].ppid
  }

  /** Sorting by parent pid puts parents first, whatever the order of ties, as long as every process has a
      larger pid than its parent. */
  lemma SortingPutsParentsFirst(es: seq<ProcEntry>)
    requires SortedByPpid(es) && forall k :: 0 <= k < |es| ==> es[k].ppid < es[k].pid
    ensures ParentsFirst(es)
  {}

  /** The scan with its marks replaced: exactly the given pids are marked. */
  function Remarked(es: seq<ProcEntry>, marks: set<Pid>): (r: seq<ProcEntry>)
    ensures |r| == |es|
    ensures forall k :: 0 <= k < |es| ==>
              r[k].pid == es[k].pid && r[k].ppid == es[k].ppid && (r[k].Marked() <==> es[k].pid in marks)
  {
    seq(|es|, k requires 0 <= k < |es| =>
      ProcEntry(es[k].pid, es[k].ppid, if es[k].pid in marks then WebDev else Neutral, Neutral))
  }

  lemma {:induction false} NothingFiledBeforeTheMark(es: seq<ProcEntry>, i: nat, n: nat)
    requires DistinctPids(es) && i < |es| && n <= |es|
    requires forall k :: 0 <= k < |es| ==> (es[k].Marked() <==> k == i)
    ensures n <= i ==> OnePass(es[..n]) == map[]
    ensures forall j :: 0 <= j < i && j < n ==> es[j].pid !in OnePass(es[..n])
  {
    if n == 0 {
    } else {
      NothingFiledBeforeTheMark(es, i, n - 1);
      assert es[..n][..n - 1] == es[..n - 1];
      OnePassKeys(es, n - 1);
    }
  }

  /** The exact condition: for a given order (no process being its own parent), the pass is right for every
      possible marking if and only if parents come before their children. */
  lemma CorrectForAllMarksIffParentsFirst(es: seq<ProcEntry>)
    requires DistinctPids(es) && forall k :: 0 <= k < |es| ==> es[k].ppid != es[k].pid
    ensures (forall marks :: AllRootsCorrect(Remarked(es, marks), OnePass(Remarked(es, marks)))) <==> ParentsFirst(es)
  {
    if ParentsFirst(es) {
      forall marks ensures AllRootsCorrect(Remarked(es, marks), OnePass(Remarked(es, marks))) {
        ParentsFirstIsCorrect(Remarked(es, marks));
      }
    } else {
      var i, j :| 0 <= i < |es| && 0 <= j < |es| && es[j].ppid == es[i].pid && !(i < j);
      var r := Remarked(es, {es[i].pid});
      ChildBeforeParentIsLost(r, i, j);
      assert Scanned(r, r[j].pid);
    }
  }

  /** The same told from the scan, before it is sorted: sorting by parent pid files everyone correctly for every
      marking if and only if each process that has a scanned child has a larger pid than its own parent. */
  lemma SortingIsCorrectIffPidsGrow(es: seq<ProcEntry>)
    requires DistinctPids(es) && SortedByPpid(es) && forall k :: 0 <= k < |es| ==> es[k].ppid != es[k].pid
    ensures (forall marks :: AllRootsCorrect(Remarked(es, marks), OnePass(Remarked(es, marks)))) <==>
            forall e :: e in es && HasScannedChild(es, e) ==> e.ppid < e.pid
  {
    hide OnePass, AllRootsCorrect, Remarked;
    CorrectForAllMarksIffParentsFirst(es);
    GrowingPidsPutParentsFirst(es);
  }

  ghost predicate HasScannedChild(es: seq<ProcEntry>, parent: ProcEntry) {
    exists e :: e in es && e.ppid == parent.pid
  }

  lemma GrowingPidsPutParentsFirst(es: seq<ProcEntry>)
    requires SortedByPpid(es) && forall k :: 0 <= k < |es| ==> es[k].ppid != es[k].pid
    ensures ParentsFirst(es) <==> forall e :: e in es && HasScannedChild(es, e) ==> e.ppid < e.pid
  {
    if ParentsFirst(es) {
      forall e | e in es && HasScannedChild(es, e) ensures e.ppid < e.pid {
        var i :| 0 <= i < |es| && es[i] == e;
        var child :| child in es && child.ppid == e.pid;
        var j :| 0 <= j < |es| && es[j] == child;
        assert i < j;
      }
    }
    if forall e :: e in es && HasScannedChild(es, e) ==> e.ppid < e.pid {
      forall i, j | 0 <= i < |es| && 0 <= j < |es| && es[j].ppid == es[i].pid ensures i < j {
        assert es[j] in es && HasScannedChild(es, es[i]);
      }
    }
  }

  lemma ChildBeforeParentIsLost(es: seq<ProcEntry>, i: nat, j: nat)
    requires DistinctPids(es) && j < i < |es| && es[j].ppid == es[i].pid
    requires forall k :: 0 <= k < |es| ==> (es[k].Marked() <==> k == i)
    ensures !RootCorrect(es, OnePass(es), es[j].pid)
  {
    NothingFiledBeforeTheMark(es, i, |es|);
    assert es[..|es|] == es;
    assert es[j].pid !in OnePass(es);
    assert Above(es, es[i].pid, es[i].pid, 0);
    AboveByParent(es, es[i].pid, j);
    assert MarkedPid(es, es[i].pid);
  }

  /** After pid wrap-around a parent can have the larger pid; sorting by parent pid then loses its child. */
  lemma WrapAroundLosesChild()
    ensures var es := [ProcEntry(40, 10, Neutral, Neutral), ProcEntry(10, 30, WebDev, Neutral)];
            SortedByPpid(es) && DistinctPids(es) && !AllRootsCorrect(es, OnePass(es))
  {
    var es := [ProcEntry(40, 10, Neutral, Neutral), ProcEntry(10, 30, WebDev, Neutral)];
    ChildBeforeParentIsLost(es, 1, 0);
    assert Scanned(es, es[0].pid);
  }

  // ---------- The graph object ----------

  /** What dropping a pid from its bucket does to the reverse index. */
  function WithoutPid(wlToPids: map<nat, set<Pid>>, pid: Pid, w: nat): map<nat, set<Pid>>
    requires w in wlToPids
  {
    var rest := wlToPids[w] - {pid};
    if rest == {} then wlToPids - {w} else wlToPids[w := rest]
  }

  function WithPid(wlToPids: map<nat, set<Pid>>, pid: Pid, w: nat): map<nat, set<Pid>> {
    wlToPids[w := (if w in wlToPids then wlToPids[w] else {}) + {pid}]
  }

  lemma HasMember(s: set<Pid>)
    requires s != {}
    ensures exists p :: p in s
  {
    assert (forall p :: p !in s) ==> s == {};
  }

  lemma DroppingKeepsInverse(m: map<Pid, nat>, b: map<nat, set<Pid>>, pid: Pid)
    requires Inverse(m, b) && pid in m
    ensures Inverse(m - {pid}, WithoutPid(b, pid, m[pid]))
  {
    var w := m[pid];
    var m', b' := m - {pid}, WithoutPid(b, pid, w);
    forall v | v in b' ensures IsBucket(m', b'[v], v) && exists p :: p in b'[v] {
      assert IsBucket(m, b[v], v);
      if v != w {
        assert b'[v] == b[v];
        var p :| p in b[v];
        assert p in b'[v];
      } else {
        assert b[w] - {pid} != {};
        var rest := b[w] - {pid};
        HasMember(rest);
        var p :| p in rest;
        assert p in b'[w];
      }
    }
    forall p | p in m' ensures m'[p] in b' {
      assert m[p] in b && IsBucket(m, b[m[p]], m[p]) && p in b[m[p]];
      if m[p] == w { assert p in b[w] - {pid}; }
    }
  }

  lemma AddingKeepsInverse(m: map<Pid, nat>, b: map<nat, set<Pid>>, pid: Pid, w: nat)
    requires Inverse(m, b) && pid !in m
    ensures Inverse(m[pid := w], WithPid(b, pid, w))
  {
    var m', b' := m[pid := w], WithPid(b, pid, w);
    forall v | v in b' ensures IsBucket(m', b'[v], v) && exists p :: p in b'[v] {
      if v in b {
        assert IsBucket(m, b[v], v);
        var p :| p in b[v];
        assert p in b'[v];
      } else {
        assert forall p :: p in m ==> m[p] != v;
        assert pid in b'[v];
      }
    }
  }

  /** A workload as cold start leaves it: classified, so never observation-only, and just discovered. */
  ghost predicate ColdStub(wl: Workload, id: nat) {
    wl.id == id && wl.phase == Phase(Discovered, 0) &&
    wl.tags.kind != Neutral && !wl.tags.observed && !wl.tags.isProtected
  }

  /** The stub was made now around a marked process of the scan, with the label of that process: the one its directory
      gives, or else the one its name gives. */
  ghost predicate StubOf(wl: Workload, entries: seq<ProcEntry>, now: nat) {
    wl.lastActive == now && wl.workspaceId == -1 && !wl.tags.aiOwned && !wl.tags.latencySensitive &&
    !wl.tags.isBrowserRoot &&
    exists k :: 0 <= k < |entries| && entries[k].pid == wl.rootPid &&
      if entries[k].cwdType != Neutral then wl.tags.kind == entries[k].cwdType
      else entries[k].commType != Neutral && wl.tags.kind == entries[k].commType
  }

  lemma StubIsMadeNow(id: nat, entries: seq<ProcEntry>, k: nat, now: nat)
    requires k < |entries| && entries[k].Marked()
    ensures StubOf(NewStub(id, entries[k], now), entries, now)
  {}

  lemma MemberKeepsStub(wl: Workload, pid: Pid, entries: seq<ProcEntry>, now: nat)
    requires StubOf(wl, entries, now)
    ensures StubOf(WithMember(wl, pid), entries, now)
  {}

  /** Stub pid lists split the owned pids by owner, without repetition. */
  ghost predicate Partition(pidToWl: map<Pid, nat>, stubs: map<nat, Workload>) {
    (forall p :: p in pidToWl ==> pidToWl[p] in stubs) &&
    (forall w :: w in stubs ==> Unique(stubs[w].pids) && stubs[w].rootPid in stubs[w].pids) &&
    (forall w, p :: w in stubs ==> (p in stubs[w].pids <==> p in pidToWl && pidToWl[p] == w))
  }

  /** Owned pids are exactly the filed ones, each in the workload of its root. */
  ghost predicate FilesByRoot(pidToWl: map<Pid, nat>, stubs: map<nat, Workload>, roots: map<Pid, Pid>) {
    pidToWl.Keys == roots.Keys &&
    forall p :: p in roots ==> pidToWl[p] in stubs && stubs[pidToWl[p]].rootPid == roots[p]
  }

  lemma NothingFiled()
    ensures Partition(map[], map[]) && FilesByRoot(map[], map[], OnePass([]))
  {}

  lemma FiledAreOwned(m: map<Pid, nat>, stubs: map<nat, Workload>, roots: map<Pid, Pid>, p: Pid)
    requires Partition(m, stubs) && FilesByRoot(m, stubs, roots)
    ensures p in m <==> p in roots
    ensures p in m ==> m[p] in stubs
  {}

  lemma InheritingFiles(m: map<Pid, nat>, stubs: map<nat, Workload>, roots: map<Pid, Pid>, pid: Pid, parent: Pid)
    requires Partition(m, stubs) && FilesByRoot(m, stubs, roots) && pid !in m && parent in m
    ensures var w := m[parent];
            var stubs' := stubs[w := WithMember(stubs[w], pid)];
            Partition(m[pid := w], stubs') && FilesByRoot(m[pid := w], stubs', roots[pid := roots[parent]])
  {
    var w := m[parent];
    var m', stubs' := m[pid := w], stubs[w := WithMember(stubs[w], pid)];
    assert pid !in stubs[w].pids;
    forall v, p | v in stubs' ensures p in stubs'[v].pids <==> p in m' && m'[p] == v {
      assert p in stubs[v].pids <==> p in m && m[p] == v;
    }
  }

  lemma FoundingFiles(m: map<Pid, nat>, stubs: map<nat, Workload>, roots: map<Pid, Pid>, wl: Workload, w: nat)
    requires Partition(m, stubs) && FilesByRoot(m, stubs, roots) && w !in stubs
    requires wl.pids == [wl.rootPid] && wl.rootPid !in m
    ensures var m' := m[wl.rootPid := w];
            Partition(m', stubs[w := wl]) && FilesByRoot(m', stubs[w := wl], roots[wl.rootPid := wl.rootPid])
  {
    var m', stubs' := m[wl.rootPid := w], stubs[w := wl];
    forall v, p | v in stubs' ensures p in stubs'[v].pids <==> p in m' && m'[p] == v {
      if v != w {
        assert p in stubs[v].pids <==> p in m && m[p] == v;
      }
    }
  }

  class OwnershipGraph {
    var pidToWl: map<Pid, nat>
    var wlToPids: map<nat, set<Pid>>

    ghost predicate Valid()
      reads this
    {
      Inverse(pidToWl, wlToPids)
    }

    constructor ()
      ensures Valid() && pidToWl == map[]
    {
      pidToWl, wlToPids := map[], map[];
    }

    /** The owner of a pid, 0 when it has none. */
    function WorkloadOf(pid: Pid): nat
      reads this
    {
      if pid in pidToWl then pidToWl[pid] else 0
    }

    method Assign(pid: Pid, workloadId: nat)
      requires Valid()
      modifies this
      ensures Valid() && pidToWl == old(pidToWl)[pid := workloadId]
    {
      if pid in pidToWl {
        DroppingKeepsInverse(pidToWl, wlToPids, pid);
        DropFromBucket(pid, pidToWl[pid]);
      }
      AddingKeepsInverse(pidToWl - {pid}, wlToPids, pid, workloadId);
      assert (pidToWl - {pid})[pid := workloadId] == pidToWl[pid := workloadId];
      pidToWl := pidToWl[pid := workloadId];
      var bucket := if workloadId in wlToPids then wlToPids[workloadId] else {};
      wlToPids := wlToPids[workloadId := bucket + {pid}];
    }

    method Remove(pid: Pid)
      requires Valid()
      modifies this
      ensures Valid() && pidToWl == old(pidToWl) - {pid}
    {
      if pid !in pidToWl {
        assert pidToWl - {pid} == pidToWl;
        return;
      }
      DroppingKeepsInverse(pidToWl, wlToPids, pid);
      DropFromBucket(pid, pidToWl[pid]);
      pidToWl := pidToWl - {pid};
    }

    /** Takes pid out of the bucket of w, and the bucket out of the index once it is empty. */
    method DropFromBucket(pid: Pid, w: nat)
      requires w in wlToPids
      modifies this`wlToPids
      ensures wlToPids == WithoutPid(old(wlToPids), pid, w)
    {
      var rest := wlToPids[w] - {pid};
      if rest == {} {
        wlToPids := wlToPids - {w};
      } else {
        wlToPids := wlToPids[w := rest];
      }
    }

    /** Cold start over the sorted scan. Called once, on an empty graph. */
    method Bootstrap(entries: seq<ProcEntry>, firstId: nat, now: nat) returns (stubs: map<nat, Workload>, nextId: nat)
      requires Valid() && pidToWl == map[] && firstId > 0
      requires DistinctPids(entries)
      modifies this
      ensures Valid()
      ensures firstId <= nextId && forall w :: w in stubs <==> firstId <= w < nextId
      ensures forall w :: w in stubs ==> ColdStub(stubs[w], w) && StubOf(stubs[w], entries, now)
      ensures Partition(pidToWl, stubs)
      ensures FilesByRoot(pidToWl, stubs, OnePass(entries))
      ensures ParentsFirst(entries) ==> AllRootsCorrect(entries, OnePass(entries))
    {
      hide Inverse, AllRootsCorrect, Partition, FilesByRoot, ParentsFirst, StubOf;
      stubs, nextId := map[], firstId;
      NothingFiled();
      assert entries[..0] == [];
      for i := 0 to |entries|
        invariant Valid()
        invariant firstId <= nextId && forall w :: w in stubs <==> firstId <= w < nextId
        invariant forall w :: w in stubs ==> ColdStub(stubs[w], w) && StubOf(stubs[w], entries, now)
        invariant Partition(pidToWl, stubs)
        invariant FilesByRoot(pidToWl, stubs, OnePass(entries[..i]))
      {
        var e := entries[i];
        OnePassKeys(entries, i);
        assert entries[..i + 1][..i] == entries[..i];
        FiledAreOwned(pidToWl, stubs, OnePass(entries[..i]), e.ppid);
        FiledAreOwned(pidToWl, stubs, OnePass(entries[..i]), e.pid);
        var parentWl := WorkloadOf(e.ppid);
        if parentWl != 0 {
          MemberKeepsStub(stubs[parentWl], e.pid, entries, now);
          InheritingFiles(pidToWl, stubs, OnePass(entries[..i]), e.pid, e.ppid);
          Assign(e.pid, parentWl);
          stubs := stubs[parentWl := WithMember(stubs[parentWl], e.pid)];
        } else if e.Marked() {
          var wl := NewStub(nextId, e, now);
          StubIsMadeNow(nextId, entries, i, now);
          FoundingFiles(pidToWl, stubs, OnePass(entries[..i]), wl, nextId);
          stubs := stubs[nextId := wl];
          Assign(e.pid, nextId);
          nextId := nextId + 1;
        }
      }
      assert entries[..|entries|] == entries;
      if ParentsFirst(entries) {
        ParentsFirstIsCorrect(entries);
      }
    }
  }

  function WithMember(wl: Workload, pid: Pid): Workload {
    wl.(pids := wl.pids + [pid])
  }

  function NewStub(id: nat, e: ProcEntry, now: nat): Workload {
    Workload(id, e.pid, [e.pid], -1, "", now, Tags(e.Kind(), false, false, false, false, false, false),
             Phase(Discovered, 0))
  }
}
