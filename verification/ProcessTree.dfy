/** The walk over a Windows process snapshot that finds the tree of one process. It keeps no visited set: it
    ends exactly if the process is not among its own descendants, and a child that is older than its parent
    is not followed. */
module ProcessTree {
  import opened Wrappers

  /** `created` is the creation date, which the source compares as text; `None` stands for an empty one. */
  datatype Process = Process(pid: nat, parent: nat, created: Option<int>)

  predicate UniquePids(records: seq<Process>) {
    forall i, j :: 0 <= i < j < |records| ==> records[i].pid != records[j].pid
  }

  /** A process and its declared parent, when both are in the snapshot, have different known dates. */
  predicate Dated(records: seq<Process>) {
    forall c, p :: c in records && p in records && c.parent == p.pid && c != p ==>
      c.created.Some? && p.created.Some? && c.created.value != p.created.value
  }

  predicate Distinct(s: seq<Process>) {
    forall i, j :: 0 <= i < j < |s| ==> s[i] != s[j]
  }

  predicate Older(child: Process, parent: Process) {
    child.created.Some? && parent.created.Some? && child.created.value < parent.created.value
  }

  /** A record the walk may follow down to. */
  predicate Candidate(records: seq<Process>, self: nat, child: Process) {
    child in records && child.pid != child.parent && child.pid != self
  }

  predicate Linked(records: seq<Process>, self: nat, parent: Process, child: Process) {
    Candidate(records, self, child) && child.parent == parent.pid && !Older(child, parent)
  }

  /** A child of the root, whether or not the root itself is still there. */
  predicate FromRoot(records: seq<Process>, pgid: nat, self: nat, child: Process) {
    && Candidate(records, self, child) && child.parent == pgid
    && forall root :: root in records && root.pid == pgid ==> !Older(child, root)
  }

  /** A chain of links from the root down. */
  predicate Path(records: seq<Process>, pgid: nat, self: nat, path: seq<Process>) {
    path != [] &&
    if |path| == 1 then FromRoot(records, pgid, self, path[0])
    else Path(records, pgid, self, path[..|path| - 1]) && Linked(records, self, path[|path| - 2], path[|path| - 1])
  }

  ghost predicate Descendant(records: seq<Process>, pgid: nat, self: nat, process: Process) {
    exists path :: Path(records, pgid, self, path) && path[|path| - 1] == process
  }

  /** The process is not among its own descendants. Always so if it has exited, and if dates are known. */
  ghost predicate NoWayBack(records: seq<Process>, pgid: nat, self: nat) {
    forall p :: Descendant(records, pgid, self, p) ==> p.pid != pgid
  }

  lemma PathGrows(records: seq<Process>, pgid: nat, self: nat, parent: Process, child: Process)
    requires Descendant(records, pgid, self, parent) && Linked(records, self, parent, child)
    ensures Descendant(records, pgid, self, child)
  {
    var path :| Path(records, pgid, self, path) && path[|path| - 1] == parent;
    var longer := path + [child];
    assert longer[..|longer| - 1] == path;
    assert Path(records, pgid, self, longer) && longer[|longer| - 1] == child;
  }

  lemma FirstStep(records: seq<Process>, pgid: nat, self: nat, child: Process)
    requires FromRoot(records, pgid, self, child)
    ensures Descendant(records, pgid, self, child)
  {
    assert Path(records, pgid, self, [child]) && [child][|[child]| - 1] == child;
  }

  /** Along a path dates only grow, so the root is never reached again. */
  lemma {:induction false} PathIsYounger(records: seq<Process>, pgid: nat, self: nat, path: seq<Process>)
    requires UniquePids(records) && Dated(records) && Path(records, pgid, self, path)
    ensures var last := path[|path| - 1];
      && last in records && last.pid != self && last.pid != pgid
      && forall root :: root in records && root.pid == pgid ==> Older(root, last)
  {
    var last := path[|path| - 1];
    if |path| > 1 {
      var init := path[..|path| - 1];
      PathIsYounger(records, pgid, self, init);
      assert init[|init| - 1] == path[|path| - 2];
    }
    forall root | root in records && root.pid == pgid ensures Older(root, last) {
      if |path| == 1 {
        assert last != root;
      }
    }
  }

  /** A set of processes that holds the root's children and the children of its members holds every
      descendant. */
  lemma {:induction false} ClosedHoldsAll(records: seq<Process>, pgid: nat, self: nat, found: seq<Process>,
      path: seq<Process>)
    requires forall c :: FromRoot(records, pgid, self, c) ==> c in found
    requires forall p, c :: p in found && Linked(records, self, p, c) ==> c in found
    requires Path(records, pgid, self, path)
    ensures path[|path| - 1] in found
  {
    if |path| > 1 {
      ClosedHoldsAll(records, pgid, self, found, path[..|path| - 1]);
      assert path[..|path| - 1][|path| - 2] in found;
    }
  }

  lemma DistinctFits(s: seq<Process>, universe: seq<Process>)
    requires Distinct(s) && forall x :: x in s ==> x in universe
    ensures |s| <= |(set x | x in universe)|
    decreases |s|
  {
    if s != [] {
      var last := s[|s| - 1];
      var init := s[..|s| - 1];
      var rest := (set x | x in universe) - {last};
      DistinctSize(init, rest);
    }
  }

  lemma DistinctSize(s: seq<Process>, universe: set<Process>)
    requires Distinct(s) && forall x :: x in s ==> x in universe
    ensures |s| <= |universe|
  {
    if s != [] {
      var init := s[..|s| - 1];
      assert forall x :: x in init ==> x in universe - {s[|s| - 1]};
      DistinctSize(init, universe - {s[|s| - 1]});
    }
  }

  /** Records by declared parent, in snapshot order. */
  function ChildrenOf(records: seq<Process>, self: nat, pid: nat): seq<Process> {
    if records == [] then [] else
      var init, last := records[..|records| - 1], records[|records| - 1];
      ChildrenOf(init, self, pid)
      + if last.parent == pid && last.pid != last.parent && last.pid != self then [last] else []
  }

  lemma {:induction false} ChildrenOfExactly(records: seq<Process>, self: nat, pid: nat, child: Process)
    ensures child in ChildrenOf(records, self, pid) <==> Candidate(records, self, child) && child.parent == pid
  {
    if records != [] {
      var init := records[..|records| - 1];
      ChildrenOfExactly(init, self, pid, child);
      assert records == init + [records[|records| - 1]];
    }
  }

  lemma {:induction false} ChildrenDistinct(records: seq<Process>, self: nat, pid: nat)
    requires UniquePids(records)
    ensures Distinct(ChildrenOf(records, self, pid))
  {
    if records != [] {
      var n := |records| - 1;
      var init := records[..n];
      ChildrenDistinct(init, self, pid);
      ChildrenOfExactly(init, self, pid, records[n]);
      assert records[n] !in init;
    }
  }

  function Pids(processes: seq<Process>): seq<nat> {
    seq(|processes|, i requires 0 <= i < |processes| => processes[i].pid)
  }

  function Lookup(children: map<nat, seq<Process>>, pid: nat): seq<Process> {
    if pid in children then children[pid] else []
  }

  method IndexByPid(records: seq<Process>) returns (byPid: map<nat, Process>)
    ensures forall pid :: pid in byPid ==> byPid[pid] in records && byPid[pid].pid == pid
    ensures forall r :: r in records ==> r.pid in byPid
  {
    byPid := map[];
    for i := 0 to |records|
      invariant forall pid :: pid in byPid ==> byPid[pid] in records && byPid[pid].pid == pid
      invariant forall j :: 0 <= j < i ==> records[j].pid in byPid
    {
      byPid := byPid[records[i].pid := records[i]];
    }
  }

  method IndexByParent(records: seq<Process>, self: nat) returns (children: map<nat, seq<Process>>)
    ensures forall pid :: Lookup(children, pid) == ChildrenOf(records, self, pid)
  {
    children := map[];
    for i := 0 to |records|
      invariant forall pid :: Lookup(children, pid) == ChildrenOf(records[..i], self, pid)
    {
      var record := records[i];
      ghost var before := children;
      assert records[..i + 1][..i] == records[..i];
      if record.pid != record.parent && record.pid != self {
        children := children[record.parent := Lookup(children, record.parent) + [record]];
      }
      forall pid ensures Lookup(children, pid) == ChildrenOf(records[..i + 1], self, pid) {
        assert Lookup(before, pid) == ChildrenOf(records[..i], self, pid);
      }
    }
    assert records[..|records|] == records;
  }

  /** Nothing found so far is wrong: distinct descendants, each the child of the root or of a process whose
      children have been taken up. */
  ghost predicate Sound(records: seq<Process>, pgid: nat, self: nat, done: seq<Process>, found: seq<Process>) {
    && Distinct(found)
    && (forall p :: p in found ==> Descendant(records, pgid, self, p))
    && (forall p :: p in found ==> p.parent == pgid || exists d :: d in done && p.parent == d.pid)
  }

  /** Nothing is missing: the root's children are found, and those of every process taken up. */
  ghost predicate Complete(records: seq<Process>, pgid: nat, self: nat, done: seq<Process>, found: seq<Process>) {
    && (forall c :: FromRoot(records, pgid, self, c) ==> c in found)
    && (forall p, c :: p in done && Linked(records, self, p, c) ==> c in found)
  }

  lemma DescendantFacts(records: seq<Process>, pgid: nat, self: nat, p: Process)
    requires Descendant(records, pgid, self, p)
    ensures p in records && p.pid != self
  {
  }

  /** If the dates of parents and children are known and differ, dates grow along every path. */
  lemma DatesSuffice(records: seq<Process>, pgid: nat, self: nat)
    requires UniquePids(records) && Dated(records)
    ensures NoWayBack(records, pgid, self)
  {
    forall p | Descendant(records, pgid, self, p) ensures p.pid != pgid {
      var path :| Path(records, pgid, self, path) && path[|path| - 1] == p;
      PathIsYounger(records, pgid, self, path);
    }
  }

  lemma ExitedSuffices(records: seq<Process>, pgid: nat, self: nat)
    requires forall r :: r in records ==> r.pid != pgid
    ensures NoWayBack(records, pgid, self)
  {
    forall p | Descendant(records, pgid, self, p) ensures p.pid != pgid {
      DescendantFacts(records, pgid, self, p);
    }
  }

  /** The children of the process taken up next were not found before: each process has one parent. */
  lemma ChildrenAreNew(records: seq<Process>, pgid: nat, self: nat, done: seq<Process>, found: seq<Process>,
      parent: Process, child: Process)
    requires UniquePids(records) && NoWayBack(records, pgid, self) && Sound(records, pgid, self, done, found)
    requires parent in found && parent !in done && Linked(records, self, parent, child)
    requires forall d :: d in done ==> d in found
    ensures child !in found
  {
    DescendantFacts(records, pgid, self, parent);
    if child in found {
      assert child.parent == parent.pid != pgid;
      var d :| d in done && child.parent == d.pid;
      DescendantFacts(records, pgid, self, d);
    }
  }

  /** Those that are not older than the parent. */
  function NotOlder(children: seq<Process>, date: Option<int>): seq<Process> {
    if children == [] then [] else
      var init, last := children[..|children| - 1], children[|children| - 1];
      NotOlder(init, date)
      + if last.created.Some? && date.Some? && last.created.value < date.value then [] else [last]
  }

  lemma {:induction false} NotOlderExactly(children: seq<Process>, parent: Process)
    ensures forall c :: c in NotOlder(children, parent.created) <==> c in children && !Older(c, parent)
    ensures Distinct(children) ==> Distinct(NotOlder(children, parent.created))
  {
    if children != [] {
      var init := children[..|children| - 1];
      NotOlderExactly(init, parent);
      assert children == init + [children[|children| - 1]];
      if Distinct(children) {
        assert Distinct(init) && children[|children| - 1] !in init;
      }
    }
  }

  lemma TakenExactly(records: seq<Process>, self: nat, parent: Process)
    requires UniquePids(records)
    ensures var taken := NotOlder(ChildrenOf(records, self, parent.pid), parent.created);
      Distinct(taken) && forall c :: c in taken <==> Linked(records, self, parent, c)
  {
    ListChildren(records, self, parent.pid);
    NotOlderExactly(ChildrenOf(records, self, parent.pid), parent);
  }

  /** Takes the children of one process that are not older than it. */
  method TakeChildren(children: seq<Process>, date: Option<int>) returns (taken: seq<Process>)
    ensures taken == NotOlder(children, date)
  {
    taken := [];
    for k := 0 to |children|
      invariant taken == NotOlder(children[..k], date)
    {
      var child := children[k];
      assert children[..k + 1][..k] == children[..k];
      if child.created.Some? && date.Some? && child.created.value < date.value { continue; }
      taken := taken + [child];
    }
    assert children[..|children|] == children;
  }

  /** The root as the walk sees it; one that has exited has no date. */
  ghost predicate RootOf(records: seq<Process>, pgid: nat, root: Process) {
    && root.pid == pgid
    && if exists r :: r in records && r.pid == pgid then root in records else root.created.None?
  }

  /** The list once the children of its first n members have been taken up. */
  function After(records: seq<Process>, self: nat, root: Process, n: nat): seq<Process> {
    if n == 0 then NotOlder(ChildrenOf(records, self, root.pid), root.created)
    else
      var found := After(records, self, root, n - 1);
      found
      + if n - 1 < |found| then NotOlder(ChildrenOf(records, self, found[n - 1].pid), found[n - 1].created) else []
  }

  /** As long as it goes on, the list holds distinct descendants of the root, and lacks none whose parent has
      been taken up. */
  lemma {:induction false} AfterIsSound(records: seq<Process>, self: nat, root: Process, n: nat)
    requires UniquePids(records) && NoWayBack(records, root.pid, self) && RootOf(records, root.pid, root)
    requires n <= |After(records, self, root, n)|
    ensures var found := After(records, self, root, n);
      && Sound(records, root.pid, self, found[..n], found) && Complete(records, root.pid, self, found[..n], found)
      && |found| <= |(set x | x in records)|
  {
    hide UniquePids, NoWayBack, Sound, Complete, Linked, NotOlder, ChildrenOf;
    var found := After(records, self, root, n);
    if n == 0 {
      TakenExactly(records, self, root);
      assert found[..0] == [];
      RootsChildren(records, root.pid, self, root, found);
    } else {
      var before := After(records, self, root, n - 1);
      AfterIsSound(records, self, root, n - 1);
      if n - 1 < |before| {
        TakenExactly(records, self, before[n - 1]);
        TakeUp(records, root.pid, self, n - 1, before,
          NotOlder(ChildrenOf(records, self, before[n - 1].pid), before[n - 1].created));
      }
    }
  }

  /** So the walk ends, after no more turns than there are records. */
  lemma {:induction false} AfterEnds(records: seq<Process>, self: nat, root: Process, n: nat) returns (last: nat)
    requires UniquePids(records) && NoWayBack(records, root.pid, self) && RootOf(records, root.pid, root)
    requires n <= |After(records, self, root, n)|
    ensures last == |After(records, self, root, last)|
    decreases |(set x | x in records)| - n
  {
    hide UniquePids, NoWayBack, Sound, Complete, RootOf, NotOlder, ChildrenOf, Path;
    AfterIsSound(records, self, root, n);
    if n == |After(records, self, root, n)| {
      last := n;
    } else {
      last := AfterEnds(records, self, root, n + 1);
    }
  }

  lemma {:induction false} PathIsLinked(records: seq<Process>, pgid: nat, self: nat, path: seq<Process>, i: nat)
    requires Path(records, pgid, self, path) && i < |path|
    ensures if i == 0 then FromRoot(records, pgid, self, path[0]) else Linked(records, self, path[i - 1], path[i])
  {
    if i < |path| - 1 {
      PathIsLinked(records, pgid, self, path[..|path| - 1], i);
    }
  }

  /** If a path leads from the root back to it, some process on that path is always still to be taken up. */
  lemma {:induction false} AlwaysSomeLeft(records: seq<Process>, self: nat, root: Process, path: seq<Process>, n: nat)
      returns (m: nat)
    requires UniquePids(records) && RootOf(records, root.pid, root)
    requires Path(records, root.pid, self, path) && path[|path| - 1].pid == root.pid
    ensures n <= m < |After(records, self, root, n)| && After(records, self, root, n)[m] in path
  {
    hide Path, Linked, NotOlder, ChildrenOf;
    RoundAndRound(records, self, root, path);
    if n == 0 {
      TakenExactly(records, self, root);
      m :| 0 <= m < |After(records, self, root, 0)| && After(records, self, root, 0)[m] == path[0];
    } else {
      var before := After(records, self, root, n - 1);
      m := AlwaysSomeLeft(records, self, root, path, n - 1);
      if m == n - 1 {
        var i :| 0 <= i < |path| && path[i] == before[m];
        var next := if i == |path| - 1 then path[0] else path[i + 1];
        TakenExactly(records, self, before[m]);
        var more := NotOlder(ChildrenOf(records, self, before[m].pid), before[m].created);
        var k :| 0 <= k < |more| && more[k] == next;
        m := |before| + k;
      }
    }
  }

  lemma RoundAndRound(records: seq<Process>, self: nat, root: Process, path: seq<Process>)
    requires UniquePids(records) && RootOf(records, root.pid, root)
    requires Path(records, root.pid, self, path) && path[|path| - 1].pid == root.pid
    ensures path != []
    ensures Linked(records, self, root, path[0]) && Linked(records, self, path[|path| - 1], path[0])
    ensures forall i :: 0 <= i < |path| - 1 ==> Linked(records, self, path[i], path[i + 1])
  {
    PathIsLinked(records, root.pid, self, path, 0);
    PathIsLinked(records, root.pid, self, path, |path| - 1);
    assert path[|path| - 1] in records;
    forall i | 0 <= i < |path| - 1 ensures Linked(records, self, path[i], path[i + 1]) {
      PathIsLinked(records, root.pid, self, path, i + 1);
    }
  }

  /** The walk ends if and only if the process is not among its own descendants. */
  lemma EndsExactly(records: seq<Process>, self: nat, root: Process)
    requires UniquePids(records) && RootOf(records, root.pid, root)
    ensures NoWayBack(records, root.pid, self) <==> exists n: nat :: n >= |After(records, self, root, n)|
  {
    if NoWayBack(records, root.pid, self) {
      var n := AfterEnds(records, self, root, 0);
    } else {
      var p :| Descendant(records, root.pid, self, p) && p.pid == root.pid;
      var path :| Path(records, root.pid, self, path) && path[|path| - 1] == p;
      forall n: nat ensures n < |After(records, self, root, n)| {
        var m := AlwaysSomeLeft(records, self, root, path, n);
      }
    }
  }

  /** The root, if it is there, and exactly its descendants, each once; also when the root has exited. */
  method WalkWindowsTree(records: seq<Process>, pgid: nat, self: nat) returns (pids: seq<nat>)
    requires UniquePids(records) && NoWayBack(records, pgid, self)
    ensures forall pid :: pid in pids <==>
      || (pid == pgid && exists r :: r in records && r.pid == pgid)
      || exists p :: Descendant(records, pgid, self, p) && p.pid == pid
    ensures forall i, j :: 0 <= i < j < |pids| ==> pids[i] != pids[j]
    ensures (exists r :: r in records && r.pid == pgid) ==> pids != [] && pids[0] == pgid
  {
    hide UniquePids, NoWayBack, Sound, Complete, Descendant, Linked, ChildrenOf, NotOlder;
    var byPid := IndexByPid(records);
    var children := IndexByParent(records, self);
    var present := pgid in byPid;
    var date := if present then byPid[pgid].created else None;
    ghost var root := if present then byPid[pgid] else Process(pgid, pgid, None);
    var found := TakeChildren(Lookup(children, pgid), date);
    var taken := 0;
    AfterIsSound(records, self, root, 0);
    while taken < |found|
      invariant taken <= |found| <= |(set x | x in records)|
      invariant found == After(records, self, root, taken)
      decreases |(set x | x in records)| - taken
    {
      var parent := found[taken];
      var more := TakeChildren(Lookup(children, parent.pid), parent.created);
      taken, found := taken + 1, found + more;
      AfterIsSound(records, self, root, taken);
    }
    AfterIsSound(records, self, root, taken);
    assert found[..taken] == found;
    pids := (if present then [pgid] else []) + Pids(found);
    ExactlyTheTree(records, pgid, self, present, found, pids);
  }

  lemma OneRecord(records: seq<Process>, r: Process)
    requires UniquePids(records) && r in records
    ensures forall q :: q in records && q.pid == r.pid ==> q == r
  {
  }

  lemma ListChildren(records: seq<Process>, self: nat, pid: nat)
    requires UniquePids(records)
    ensures forall c :: c in ChildrenOf(records, self, pid) <==> Candidate(records, self, c) && c.parent == pid
    ensures Distinct(ChildrenOf(records, self, pid))
  {
  }

  lemma RootsChildren(records: seq<Process>, pgid: nat, self: nat, root: Process, found: seq<Process>)
    requires UniquePids(records) && RootOf(records, pgid, root)
    requires forall c :: c in found <==> Linked(records, self, root, c)
    requires Distinct(found)
    ensures Sound(records, pgid, self, [], found) && Complete(records, pgid, self, [], found)
    ensures |found| <= |(set x | x in records)|
  {
    forall c ensures FromRoot(records, pgid, self, c) <==> c in found {
    }
    forall c | c in found ensures Descendant(records, pgid, self, c) {
      FirstStep(records, pgid, self, c);
    }
    DistinctFits(found, records);
  }

  lemma TakeUp(records: seq<Process>, pgid: nat, self: nat, taken: nat, found: seq<Process>, more: seq<Process>)
    requires UniquePids(records) && NoWayBack(records, pgid, self) && taken < |found|
    requires Sound(records, pgid, self, found[..taken], found) && Complete(records, pgid, self, found[..taken], found)
    requires forall c :: c in more <==> Linked(records, self, found[taken], c)
    requires Distinct(more)
    ensures var all := found + more; var done := all[..taken + 1];
      && Sound(records, pgid, self, done, all) && Complete(records, pgid, self, done, all)
      && |all| <= |(set x | x in records)|
  {
    var parent := found[taken];
    var all := found + more;
    var done := all[..taken + 1];
    assert done == found[..taken] + [parent];
    assert parent !in found[..taken];
    forall c | c in more ensures c !in found && Descendant(records, pgid, self, c) {
      ChildrenAreNew(records, pgid, self, found[..taken], found, parent, c);
      PathGrows(records, pgid, self, parent, c);
    }
    forall i, j | 0 <= i < j < |all| ensures all[i] != all[j] {
      if i < |found| <= j {
        assert all[j] in more && all[i] in found;
      }
    }
    forall p | p in all ensures p.parent == pgid || exists d :: d in done && p.parent == d.pid {
      if p in more {
        assert parent in done;
      } else if p.parent != pgid {
        var d :| d in found[..taken] && p.parent == d.pid;
        assert d in done;
      }
    }
    assert forall p :: p in all ==> Descendant(records, pgid, self, p);
    forall p | p in all ensures p in records {
      DescendantFacts(records, pgid, self, p);
    }
    DistinctFits(all, records);
  }

  lemma AllAreFound(records: seq<Process>, pgid: nat, self: nat, found: seq<Process>)
    requires Sound(records, pgid, self, found, found) && Complete(records, pgid, self, found, found)
    ensures forall p :: Descendant(records, pgid, self, p) <==> p in found
  {
    forall p | Descendant(records, pgid, self, p) ensures p in found {
      var path :| Path(records, pgid, self, path) && path[|path| - 1] == p;
      ClosedHoldsAll(records, pgid, self, found, path);
    }
  }

  lemma PidsOf(processes: seq<Process>, pid: nat)
    ensures pid in Pids(processes) <==> exists p :: p in processes && p.pid == pid
  {
    if p :| p in processes && p.pid == pid {
      var k :| 0 <= k < |processes| && processes[k] == p;
      assert Pids(processes)[k] == pid;
    }
    if pid in Pids(processes) {
      var k :| 0 <= k < |processes| && Pids(processes)[k] == pid;
      assert processes[k] in processes;
    }
  }

  lemma PidsAreDistinct(records: seq<Process>, found: seq<Process>)
    requires UniquePids(records) && Distinct(found) && forall p :: p in found ==> p in records
    ensures forall i, j :: 0 <= i < j < |found| ==> Pids(found)[i] != Pids(found)[j]
  {
    forall i, j | 0 <= i < j < |found| ensures Pids(found)[i] != Pids(found)[j] {
      assert found[i] in records && found[j] in records;
      OneRecord(records, found[i]);
    }
  }

  lemma ExactlyTheTree(records: seq<Process>, pgid: nat, self: nat, present: bool, found: seq<Process>, pids: seq<nat>)
    requires UniquePids(records) && NoWayBack(records, pgid, self)
    requires Sound(records, pgid, self, found, found) && Complete(records, pgid, self, found, found)
    requires present <==> exists r :: r in records && r.pid == pgid
    requires pids == (if present then [pgid] else []) + Pids(found)
    ensures forall pid :: pid in pids <==>
      (pid == pgid && present) || exists p :: Descendant(records, pgid, self, p) && p.pid == pid
    ensures forall i, j :: 0 <= i < j < |pids| ==> pids[i] != pids[j]
  {
    hide UniquePids, Dated, Complete, Descendant;
    AllAreFound(records, pgid, self, found);
    forall pid
      ensures pid in pids <==>
        (pid == pgid && present) || exists p :: Descendant(records, pgid, self, p) && p.pid == pid
    {
      PidsOf(found, pid);
    }
    forall p | p in found ensures p in records && p.pid != pgid {
      DescendantFacts(records, pgid, self, p);
    }
    PidsAreDistinct(records, found);
    PidsOf(found, pgid);
    var rest := Pids(found);
    var head := if present then 1 else 0;
    forall i, j | 0 <= i < j < |pids| ensures pids[i] != pids[j] {
      assert pids[j] == rest[j - head] && rest[j - head] in rest;
      if i >= head {
        assert pids[i] == rest[i - head];
      }
    }
  }

  /** A chain of parents that leads to the query process: each was started by the one before it. */
  predicate StartedBy(records: seq<Process>, self: nat, chain: seq<Process>) {
    && (forall i :: 0 <= i < |chain| ==> chain[i] in records)
    && (chain != [] ==> chain[0].parent == self)
    && (forall i :: 0 < i < |chain| ==> chain[i].parent == chain[i - 1].pid)
  }

  /** What the query process itself started is left out with it, however far down. */
  lemma {:induction false} QuerySubtreeIsLeftOut(records: seq<Process>, pgid: nat, self: nat, chain: seq<Process>)
    requires UniquePids(records) && self != pgid && StartedBy(records, self, chain) && chain != []
    requires forall p :: p in chain ==> p.pid != pgid
    ensures !Descendant(records, pgid, self, chain[|chain| - 1])
  {
    var n := |chain| - 1;
    var p := chain[n];
    if n > 0 {
      QuerySubtreeIsLeftOut(records, pgid, self, chain[..n]);
      assert chain[n - 1] in chain;
    }
    forall path | Path(records, pgid, self, path) && path[|path| - 1] == p ensures false {
      StepBefore(records, pgid, self, path);
    }
  }

  /** A descendant is a child of the root or of another descendant. */
  lemma StepBefore(records: seq<Process>, pgid: nat, self: nat, path: seq<Process>)
    requires Path(records, pgid, self, path)
    ensures var p := path[|path| - 1];
      p.parent == pgid
      || exists q :: q in records && q.pid != self && p.parent == q.pid && Descendant(records, pgid, self, q)
  {
    PathIsLinked(records, pgid, self, path, |path| - 1);
    if |path| > 1 {
      var init := path[..|path| - 1];
      PathIsLinked(records, pgid, self, init, |init| - 1);
      assert init[|init| - 1] == path[|path| - 2];
      assert Descendant(records, pgid, self, path[|path| - 2]);
    }
  }

  /** Two processes that name each other as parent, without dates: the walk of either never ends. */
  lemma WithoutDatesItNeverEnds(n: nat)
    ensures var a, b := Process(1, 2, None), Process(2, 1, None); n < |After([a, b], 0, a, n)|
  {
    var a, b := Process(1, 2, None), Process(2, 1, None);
    var records := [a, b];
    assert Path(records, 1, 0, [b]);
    assert [b, a][..1] == [b];
    assert Linked(records, 0, b, a);
    assert Path(records, 1, 0, [b, a]);
    var m := AlwaysSomeLeft(records, 0, a, [b, a], n);
  }
}
