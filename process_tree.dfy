/** The process tree of the CPU monitor (monitors/cpu/src/process_tree.rs): every process of a
    snapshot becomes a node, children hang under their parent, each node carries the CPU, memory
    and descendant count of its whole subtree, and siblings and roots are ordered by subtree CPU,
    highest first. The process table is an input; its iteration order is the order of the
    sequence, whose pids are distinct as the keys of a map are. */
module ProcessTree {
  import opened Common
  import opened Seqs
  import opened Sorting
  import ProcessMonitor

  /** One process of the snapshot. */
  datatype Proc = Proc(
    pid: nat,
    name: string,
    command: seq<string>,
    exe: Option<string>,
    cpuUsage: real,
    memory: nat,
    status: ProcessMonitor.SysStatus,
    parent: Option<nat>)

  /** `ProcessTreeNode`. */
  datatype TreeNode = TreeNode(
    pid: nat,
    name: string,
    command: seq<string>,
    executablePath: string,
    cpuUsage: real,
    memoryMb: real,
    status: string,
    threadCount: nat,
    children: seq<TreeNode>,
    totalCpuUsage: real,
    totalMemoryMb: real,
    descendantCount: nat)

  /** `ProcessTree`. */
  datatype Tree = Tree(roots: seq<TreeNode>, totalProcesses: nat)

  function TotalCpu(n: TreeNode): real { n.totalCpuUsage }
  function TotalMemory(n: TreeNode): real { n.totalMemoryMb }
  /** What a child adds to its parent's descendant count: itself and its own descendants. */
  function WithDescendants(n: TreeNode): nat { 1 + n.descendantCount }
  function Pid(n: TreeNode): nat { n.pid }

  predicate DistinctPids(procs: seq<Proc>) {
    forall i, j :: 0 <= i < j < |procs| ==> procs[i].pid != procs[j].pid
  }

  // ---------------------------------------------------------------------------
  // First pass: nodes, parent-to-children lists and parentless pids

  /** The node the first pass makes of a process: no children yet, its totals its own figures,
      the executable path falling back to the name, and no thread count. */
  function InitialNode(p: Proc): (n: TreeNode)
    ensures n.pid == p.pid && n.children == [] && n.descendantCount == 0
    ensures n.totalCpuUsage == n.cpuUsage == p.cpuUsage
    ensures n.totalMemoryMb == n.memoryMb == (p.memory as real) / 1024.0
    ensures n.executablePath == (if p.exe.Some? then p.exe.value else p.name)
    ensures n.threadCount == 0
  {
    var mb := (p.memory as real) / 1024.0;
    TreeNode(p.pid, p.name, p.command, p.exe.UnwrapOr(p.name), p.cpuUsage, mb,
             ProcessMonitor.StatusName(p.status), 0, [], p.cpuUsage, mb, 0)
  }

  /** Every node is stored under its own pid. */
  predicate Keyed(all: map<nat, TreeNode>) {
    forall k :: k in all ==> all[k].pid == k
  }

  /** `all_processes` after the first pass over `procs`. */
  function AllNodes(procs: seq<Proc>): (all: map<nat, TreeNode>)
    ensures all.Keys == set p | p in procs :: p.pid
    ensures Keyed(all)
  {
    if procs == [] then map[]
    else
      var last := procs[|procs| - 1];
      var before := AllNodes(procs[..|procs| - 1]);
      assert procs == procs[..|procs| - 1] + [last];
      before[last.pid := InitialNode(last)]
  }

  /** Every stored node is the first-pass node of a process of the snapshot. */
  lemma {:induction false} AllNodesInitial(procs: seq<Proc>, k: nat)
    requires k in AllNodes(procs)
    ensures exists p :: p in procs && AllNodes(procs)[k] == InitialNode(p)
  {
    var n := |procs| - 1;
    var last := procs[n];
    assert procs == procs[..n] + [last];
    if k != last.pid {
      AllNodesInitial(procs[..n], k);
    }
  }

  /** The children list of `parent`, empty when it has none. */
  function KidsOf(kids: map<nat, seq<nat>>, parent: nat): seq<nat> {
    if parent in kids then kids[parent] else []
  }

  /** `parent_to_children` after the first pass over `procs`. */
  function ChildrenOf(procs: seq<Proc>): map<nat, seq<nat>> {
    if procs == [] then map[]
    else
      var last := procs[|procs| - 1];
      var before := ChildrenOf(procs[..|procs| - 1]);
      match last.parent
      case None => before
      case Some(q) => before[q := KidsOf(before, q) + [last.pid]]
  }

  function HasParent(q: nat): Proc -> bool {
    (p: Proc) => p.parent == Some(q)
  }

  function ProcPid(p: Proc): nat { p.pid }

  /** The children list of a pid is the pids of the processes naming it as parent, in
      snapshot order. */
  lemma {:induction false} ChildrenOfParent(procs: seq<Proc>, q: nat)
    ensures KidsOf(ChildrenOf(procs), q) == Map(Filter(procs, HasParent(q)), ProcPid)
  {
    if procs != [] {
      var k := |procs| - 1;
      var last := procs[k];
      assert procs == procs[..k] + [last];
      ChildrenOfParent(procs[..k], q);
      FilterSnoc(procs[..k], last, HasParent(q));
      var f := Filter(procs[..k], HasParent(q));
      if HasParent(q)(last) {
        assert Map(f + [last], ProcPid) == Map(f, ProcPid) + [last.pid];
      } else {
        AppendEmpty(f);
      }
    }
  }

  /** `root_pids`, in snapshot order. */
  function RootPids(procs: seq<Proc>): seq<nat> {
    if procs == [] then []
    else
      var last := procs[|procs| - 1];
      RootPids(procs[..|procs| - 1]) + (if last.parent.None? then [last.pid] else [])
  }

  /** `root_pids` holds exactly the pids of the processes without a parent. */
  lemma {:induction false} RootPidsMember(procs: seq<Proc>, pid: nat)
    ensures pid in RootPids(procs) <==> exists p :: p in procs && p.pid == pid && p.parent.None?
  {
    if procs != [] {
      var n := |procs| - 1;
      var last := procs[n];
      assert procs == procs[..n] + [last];
      RootPidsMember(procs[..n], pid);
    }
  }

  /** One more process in the first pass adds its node, its place in its parent's list, or
      its pid to the roots. */
  lemma FirstPassStep(procs: seq<Proc>, i: nat)
    requires i < |procs|
    ensures AllNodes(procs[..i + 1]) == AllNodes(procs[..i])[procs[i].pid := InitialNode(procs[i])]
    ensures ChildrenOf(procs[..i + 1])
            == match procs[i].parent
               case None => ChildrenOf(procs[..i])
               case Some(q) => ChildrenOf(procs[..i])[q := KidsOf(ChildrenOf(procs[..i]), q) + [procs[i].pid]]
    ensures RootPids(procs[..i + 1]) == RootPids(procs[..i]) + if procs[i].parent.None? then [procs[i].pid] else []
  {
    assert procs[..i + 1][..i] == procs[..i];
  }

  /** The first pass: one loop over the snapshot filling the three collections. */
  method FirstPass(procs: seq<Proc>) returns (all: map<nat, TreeNode>, kids: map<nat, seq<nat>>, roots: seq<nat>)
    ensures all == AllNodes(procs) && kids == ChildrenOf(procs) && roots == RootPids(procs)
  {
    all, kids, roots := map[], map[], [];
    var i := 0;
    while i < |procs|
      invariant 0 <= i <= |procs|
      invariant all == AllNodes(procs[..i]) && kids == ChildrenOf(procs[..i]) && roots == RootPids(procs[..i])
    {
      var p := procs[i];
      FirstPassStep(procs, i);
      all := all[p.pid := InitialNode(p)];
      match p.parent {
        case Some(q) =>
          kids := kids[q := KidsOf(kids, q) + [p.pid]];
        case None =>
          roots := roots + [p.pid];
      }
      i := i + 1;
    }
    assert procs[..i] == procs;
  }

  // ---------------------------------------------------------------------------
  // Building one subtree

  lemma RemovingShrinks(keys: set<nat>, visited: set<nat>, x: nat)
    requires x in keys && x !in visited
    ensures |keys - (visited + {x})| + 1 == |keys - visited|
  {
    assert keys - visited == (keys - (visited + {x})) + {x};
  }

  /** A node with the children built so far attached: sorted by subtree CPU, highest first,
      and the totals raised by theirs. */
  function Attach(node: TreeNode, built: seq<TreeNode>): (r: TreeNode)
    ensures r.pid == node.pid && r.cpuUsage == node.cpuUsage && r.memoryMb == node.memoryMb
    ensures multiset(r.children) == multiset(node.children + built)
    ensures SortedDesc(r.children, TotalCpu)
  {
    node.(children := SortDesc(node.children + built, TotalCpu),
          totalCpuUsage := node.totalCpuUsage + SumBy(built, TotalCpu),
          totalMemoryMb := node.totalMemoryMb + SumBy(built, TotalMemory),
          descendantCount := node.descendantCount + SumNat(built, WithDescendants))
  }

  /** What `build_node_recursive` returns for `node` when the pids on the current path are
      `visited`: a pid already on the path comes back unchanged, without children. */
  function BuildSpec(node: TreeNode, all: map<nat, TreeNode>, kids: map<nat, seq<nat>>, visited: set<nat>): (r: TreeNode)
    requires Keyed(all) && node.pid in all
    ensures r.pid == node.pid && r.cpuUsage == node.cpuUsage && r.memoryMb == node.memoryMb
    decreases |all.Keys - visited|, 1, 0
  {
    if node.pid in visited then node
    else
      RemovingShrinks(all.Keys, visited, node.pid);
      Attach(node, BuildList(KidsOf(kids, node.pid), all, kids, visited + {node.pid}))
  }

  /** The children built, in order, for the pids `cps`; a pid absent from the snapshot is
      skipped. */
  function BuildList(cps: seq<nat>, all: map<nat, TreeNode>, kids: map<nat, seq<nat>>, visited: set<nat>): (r: seq<TreeNode>)
    requires Keyed(all)
    ensures |r| <= |cps|
    decreases |all.Keys - visited| + 1, 0, |cps|
  {
    if cps == [] then []
    else Subtree(cps[0], all, kids, visited) + BuildList(cps[1..], all, kids, visited)
  }

  /** The subtree built for one listed pid: none when the pid is not in the snapshot. */
  function Subtree(pid: nat, all: map<nat, TreeNode>, kids: map<nat, seq<nat>>, visited: set<nat>): (r: seq<TreeNode>)
    requires Keyed(all)
    ensures |r| <= 1
    decreases |all.Keys - visited|, 2, 0
  {
    if pid in all then [BuildSpec(all[pid], all, kids, visited)] else []
  }

  /** The subtrees built for `ps` grown at the back grow at the back. */
  lemma {:induction false} BuildListSnoc(cps: seq<nat>, cp: nat, all: map<nat, TreeNode>, kids: map<nat, seq<nat>>, path: set<nat>)
    requires Keyed(all)
    ensures BuildList(cps + [cp], all, kids, path) == BuildList(cps, all, kids, path) + Subtree(cp, all, kids, path)
    decreases |cps|
  {
    var tail := Subtree(cp, all, kids, path);
    if cps == [] {
      assert [cp][1..] == [];
      assert BuildList([cp], all, kids, path) == tail + [];
    } else {
      var head := Subtree(cps[0], all, kids, path);
      assert (cps + [cp])[0] == cps[0];
      assert (cps + [cp])[1..] == cps[1..] + [cp];
      assert BuildList(cps + [cp], all, kids, path) == head + BuildList(cps[1..] + [cp], all, kids, path);
      BuildListSnoc(cps[1..], cp, all, kids, path);
      assert head + (BuildList(cps[1..], all, kids, path) + tail) == (head + BuildList(cps[1..], all, kids, path)) + tail;
    }
  }

  /** `build_node_recursive`. The `visited` set the source inserts into on entry and removes
      from on exit is passed by value: between calls it always holds the current path. */
  method BuildNodeRecursive(node: TreeNode, all: map<nat, TreeNode>, kids: map<nat, seq<nat>>, visited: set<nat>)
    returns (r: TreeNode)
    requires Keyed(all) && node.pid in all
    ensures r == BuildSpec(node, all, kids, visited)
    decreases |all.Keys - visited|, 2
  {
    if node.pid in visited {
      return node;
    }
    RemovingShrinks(all.Keys, visited, node.pid);
    r := AddChildren(node, KidsOf(kids, node.pid), all, kids, visited + {node.pid});
  }

  /** The second half of `build_node_recursive`: build the listed children, add up their
      totals, then sort them. */
  method AddChildren(node: TreeNode, cps: seq<nat>, all: map<nat, TreeNode>, kids: map<nat, seq<nat>>, path: set<nat>)
    returns (r: TreeNode)
    requires Keyed(all)
    ensures r == Attach(node, BuildList(cps, all, kids, path))
    decreases |all.Keys - path| + 1, 1
  {
    var built, totalCpu, totalMemory, descendants := BuildChildren(node, cps, all, kids, path);
    r := node.(children := SortDesc(node.children + built, TotalCpu), totalCpuUsage := totalCpu,
               totalMemoryMb := totalMemory, descendantCount := descendants);
  }

  /** `build_node_recursive` on the stored node of a pid in the snapshot. */
  method BuildPresent(pid: nat, all: map<nat, TreeNode>, kids: map<nat, seq<nat>>, path: set<nat>)
    returns (r: TreeNode)
    requires Keyed(all) && pid in all
    ensures Subtree(pid, all, kids, path) == [r]
    decreases |all.Keys - path| + 1, 0, 0
  {
    r := BuildNodeRecursive(all[pid], all, kids, path);
  }

  lemma BuildListPrefix(cps: seq<nat>, j: nat, all: map<nat, TreeNode>, kids: map<nat, seq<nat>>, path: set<nat>)
    requires Keyed(all) && j < |cps|
    ensures BuildList(cps[..j + 1], all, kids, path) == BuildList(cps[..j], all, kids, path) + Subtree(cps[j], all, kids, path)
  {
    assert cps[..j + 1] == cps[..j] + [cps[j]];
    BuildListSnoc(cps[..j], cps[j], all, kids, path);
  }

  /** The loop of `build_node_recursive` over the children listed for the node: each present
      child is built with the node on the path, its totals are added to the node's, and it is
      appended. */
  method BuildChildren(node: TreeNode, cps: seq<nat>, all: map<nat, TreeNode>, kids: map<nat, seq<nat>>, path: set<nat>)
    returns (built: seq<TreeNode>, totalCpu: real, totalMemory: real, descendants: nat)
    requires Keyed(all)
    ensures built == BuildList(cps, all, kids, path)
    ensures totalCpu == node.totalCpuUsage + SumBy(built, TotalCpu)
    ensures totalMemory == node.totalMemoryMb + SumBy(built, TotalMemory)
    ensures descendants == node.descendantCount + SumNat(built, WithDescendants)
    decreases |all.Keys - path| + 1, 0, 1
  {
    built := [];
    totalCpu := node.totalCpuUsage;
    totalMemory := node.totalMemoryMb;
    descendants := node.descendantCount;
    var j := 0;
    while j < |cps|
      invariant 0 <= j <= |cps|
      invariant built == BuildList(cps[..j], all, kids, path)
      invariant totalCpu == node.totalCpuUsage + SumBy(built, TotalCpu)
      invariant totalMemory == node.totalMemoryMb + SumBy(built, TotalMemory)
      invariant descendants == node.descendantCount + SumNat(built, WithDescendants)
    {
      var cp := cps[j];
      BuildListPrefix(cps, j, all, kids, path);
      if cp in all {
        var child := BuildPresent(cp, all, kids, path);
        SumBySnoc(built, child, TotalCpu);
        SumBySnoc(built, child, TotalMemory);
        SumNatSnoc(built, child, WithDescendants);
        totalCpu := totalCpu + child.totalCpuUsage;
        totalMemory := totalMemory + child.totalMemoryMb;
        descendants := descendants + 1 + child.descendantCount;
        built := built + [child];
      } else {
        AppendEmpty(built);
      }
      j := j + 1;
    }
    assert cps[..j] == cps;
  }

  // ---------------------------------------------------------------------------
  // What every built node satisfies

  /** Siblings are ordered by subtree CPU, highest first, and every total is the node's own
      figure plus its children's totals; the descendant count adds one per child plus the
      child's own count. */
  predicate Consistent(n: TreeNode)
    decreases n
  {
    SortedDesc(n.children, TotalCpu)
    && n.totalCpuUsage == n.cpuUsage + SumBy(n.children, TotalCpu)
    && n.totalMemoryMb == n.memoryMb + SumBy(n.children, TotalMemory)
    && n.descendantCount == SumNat(n.children, WithDescendants)
    && forall i :: 0 <= i < |n.children| ==> Consistent(n.children[i])
  }

  predicate AllConsistent(all: map<nat, TreeNode>) {
    forall k :: k in all ==> Consistent(all[k])
  }

  lemma InitialConsistent(p: Proc)
    ensures Consistent(InitialNode(p))
  {
    assert SumBy<TreeNode>([], TotalCpu) == 0.0;
  }

  lemma {:induction false} SumByConcat(xs: seq<TreeNode>, ys: seq<TreeNode>, f: TreeNode -> real)
    ensures SumBy(xs + ys, f) == SumBy(xs, f) + SumBy(ys, f)
  {
    SumByAppend(xs, ys, f);
  }

  lemma AttachConsistent(node: TreeNode, built: seq<TreeNode>)
    requires Consistent(node)
    requires forall i :: 0 <= i < |built| ==> Consistent(built[i])
    ensures Consistent(Attach(node, built))
  {
    var all := node.children + built;
    var r := Attach(node, built);
    assert r.totalCpuUsage == r.cpuUsage + SumBy(r.children, TotalCpu) by {
      SumByAppend(node.children, built, TotalCpu);
      SumByPermutation(all, r.children, TotalCpu);
    }
    assert r.totalMemoryMb == r.memoryMb + SumBy(r.children, TotalMemory) by {
      SumByAppend(node.children, built, TotalMemory);
      SumByPermutation(all, r.children, TotalMemory);
    }
    assert r.descendantCount == SumNat(r.children, WithDescendants) by {
      SumNatAppend(node.children, built, WithDescendants);
      SumNatPermutation(all, r.children, WithDescendants);
    }
    AttachedConsistent(node, built);
  }

  /** Every child of an attached node is a consistent node it had or was given. */
  lemma AttachedConsistent(node: TreeNode, built: seq<TreeNode>)
    requires Consistent(node)
    requires forall i :: 0 <= i < |built| ==> Consistent(built[i])
    ensures forall i :: 0 <= i < |Attach(node, built).children| ==> Consistent(Attach(node, built).children[i])
  {
    var r := Attach(node, built);
    ConsistentMembers(node.children, built);
    forall i | 0 <= i < |r.children| ensures Consistent(r.children[i]) {
      assert r.children[i] in multiset(r.children);
    }
  }

  lemma ConsistentMembers(children: seq<TreeNode>, built: seq<TreeNode>)
    requires forall i :: 0 <= i < |children| ==> Consistent(children[i])
    requires forall i :: 0 <= i < |built| ==> Consistent(built[i])
    ensures forall x :: x in children + built ==> Consistent(x)
  {
    var all := children + built;
    forall x | x in all ensures Consistent(x) {
      var k :| 0 <= k < |all| && all[k] == x;
      if k < |children| {
        assert all[k] == children[k];
      } else {
        assert all[k] == built[k - |children|];
      }
    }
  }

  /** Building from consistent nodes gives a consistent node. */
  lemma {:induction false} BuildConsistent(node: TreeNode, all: map<nat, TreeNode>, kids: map<nat, seq<nat>>, visited: set<nat>)
    requires Keyed(all) && node.pid in all && AllConsistent(all) && Consistent(node)
    ensures Consistent(BuildSpec(node, all, kids, visited))
    decreases |all.Keys - visited|, 1, 0
  {
    if node.pid !in visited {
      RemovingShrinks(all.Keys, visited, node.pid);
      var cps := KidsOf(kids, node.pid);
      var path := visited + {node.pid};
      BuildListConsistent(cps, all, kids, path);
      AttachConsistent(node, BuildList(cps, all, kids, path));
    }
  }

  lemma {:induction false} BuildListConsistent(cps: seq<nat>, all: map<nat, TreeNode>, kids: map<nat, seq<nat>>, visited: set<nat>)
    requires Keyed(all) && AllConsistent(all)
    ensures forall i :: 0 <= i < |BuildList(cps, all, kids, visited)| ==> Consistent(BuildList(cps, all, kids, visited)[i])
    decreases |all.Keys - visited| + 1, 0, |cps|
  {
    if cps != [] {
      BuildListConsistent(cps[1..], all, kids, visited);
      if cps[0] in all {
        BuildConsistent(all[cps[0]], all, kids, visited);
      }
    }
  }

  /** The pids of the children built for `cps` are the pids of `cps` present in the snapshot,
      in order. */
  lemma {:induction false} BuildListPids(cps: seq<nat>, all: map<nat, TreeNode>, kids: map<nat, seq<nat>>, visited: set<nat>)
    requires Keyed(all)
    ensures Map(BuildList(cps, all, kids, visited), Pid) == Filter(cps, k => k in all)
    decreases |cps|
  {
    if cps != [] {
      var cp := cps[0];
      BuildListPids(cps[1..], all, kids, visited);
      var head := Subtree(cp, all, kids, visited);
      var rest := BuildList(cps[1..], all, kids, visited);
      MapAppend(head, rest, Pid);
      if cp in all {
        assert Map(head, Pid) == [cp];
      } else {
        assert Map(head, Pid) == [];
      }
    }
  }

  /** A process met for the first time on the path gets, as children, exactly the listed
      children present in the snapshot, each once per listing, in some order. */
  lemma ChildrenAreListedChildren(node: TreeNode, all: map<nat, TreeNode>, kids: map<nat, seq<nat>>, visited: set<nat>)
    requires Keyed(all) && node.pid in all && node.children == [] && node.pid !in visited
    ensures multiset(Map(BuildSpec(node, all, kids, visited).children, Pid))
            == multiset(Filter(KidsOf(kids, node.pid), k => k in all))
  {
    var path := visited + {node.pid};
    var cps := KidsOf(kids, node.pid);
    var built := BuildList(cps, all, kids, path);
    assert node.children + built == built;
    BuildListPids(cps, all, kids, path);
    MapPermutation(BuildSpec(node, all, kids, visited).children, built, Pid);
  }

  /** A pid already on the path, such as a process listing itself as its own parent, comes
      back as it was stored, with no children: the cycle guard. */
  lemma CycleGuard(node: TreeNode, all: map<nat, TreeNode>, kids: map<nat, seq<nat>>, visited: set<nat>)
    requires Keyed(all) && node.pid in all && node.pid in visited
    ensures BuildSpec(node, all, kids, visited) == node
  {
  }

  // ---------------------------------------------------------------------------
  // Subtree totals as sums over the subtree

  /** The nodes of a subtree in depth-first pre-order. */
  function PreNode(n: TreeNode): (r: seq<TreeNode>)
    ensures |r| >= 1 && r[0] == n
    decreases n, 1
  {
    [n] + PreList(n.children)
  }

  function PreList(ns: seq<TreeNode>): seq<TreeNode>
    decreases ns, 0
  {
    if ns == [] then [] else PreNode(ns[0]) + PreList(ns[1..])
  }

  function OwnCpu(n: TreeNode): real { n.cpuUsage }
  function OwnMemory(n: TreeNode): real { n.memoryMb }

  /** In a consistent node the totals are the sums of the own figures over the whole subtree
      and the descendant count is the number of nodes below it. */
  lemma {:induction false} TotalsAreSubtreeSums(n: TreeNode)
    requires Consistent(n)
    ensures n.totalCpuUsage == SumBy(PreNode(n), OwnCpu)
    ensures n.totalMemoryMb == SumBy(PreNode(n), OwnMemory)
    ensures n.descendantCount + 1 == |PreNode(n)|
    decreases n, 1
  {
    ListTotalsAreSums(n.children);
    SumByAppend([n], PreList(n.children), OwnCpu);
    SumByAppend([n], PreList(n.children), OwnMemory);
  }

  lemma {:induction false} ListTotalsAreSums(ns: seq<TreeNode>)
    requires forall i :: 0 <= i < |ns| ==> Consistent(ns[i])
    ensures SumBy(ns, TotalCpu) == SumBy(PreList(ns), OwnCpu)
    ensures SumBy(ns, TotalMemory) == SumBy(PreList(ns), OwnMemory)
    ensures SumNat(ns, WithDescendants) == |PreList(ns)|
    decreases ns, 0
  {
    if ns != [] {
      TotalsAreSubtreeSums(ns[0]);
      ListTotalsAreSums(ns[1..]);
      SumByAppend(PreNode(ns[0]), PreList(ns[1..]), OwnCpu);
      SumByAppend(PreNode(ns[0]), PreList(ns[1..]), OwnMemory);
    }
  }

  // ---------------------------------------------------------------------------
  // Roots and the whole tree

  /** Whether the snapshot has a process `pid` whose parent is a node of the snapshot. */
  predicate HasParentIn(procs: seq<Proc>, pid: nat, all: map<nat, TreeNode>) {
    procs != [] &&
    ((procs[0].pid == pid && procs[0].parent.Some? && procs[0].parent.value in all)
     || HasParentIn(procs[1..], pid, all))
  }

  lemma {:induction false} HasParentInExists(procs: seq<Proc>, pid: nat, all: map<nat, TreeNode>)
    ensures HasParentIn(procs, pid, all)
            <==> exists q :: q in procs && q.pid == pid && q.parent.Some? && q.parent.value in all
  {
    if procs != [] {
      HasParentInExists(procs[1..], pid, all);
      assert procs == [procs[0]] + procs[1..];
    }
  }

  /** The inner search of the orphan pass: scan the snapshot for the process and stop at the
      first sign that its parent is present. */
  method FindParent(procs: seq<Proc>, pid: nat, all: map<nat, TreeNode>) returns (found: bool)
    ensures found == HasParentIn(procs, pid, all)
  {
    found := false;
    var i := 0;
    while i < |procs|
      invariant 0 <= i <= |procs|
      invariant HasParentIn(procs, pid, all) == HasParentIn(procs[i..], pid, all)
    {
      var q := procs[i];
      assert procs[i..][0] == q && procs[i..][1..] == procs[i + 1..];
      if q.pid == pid && q.parent.Some? && q.parent.value in all {
        return true;
      }
      i := i + 1;
    }
    assert procs[i..] == [];
  }

  /** The pids the orphan pass, walking `ps`, adds as roots: not parentless, and no parent in
      the snapshot. */
  function OrphanPids(ps: seq<Proc>, procs: seq<Proc>, rootPids: seq<nat>, all: map<nat, TreeNode>): seq<nat> {
    if ps == [] then []
    else
      (if ps[0].pid !in rootPids && !HasParentIn(procs, ps[0].pid, all) then [ps[0].pid] else [])
      + OrphanPids(ps[1..], procs, rootPids, all)
  }

  lemma {:induction false} OrphanPidsMember(ps: seq<Proc>, procs: seq<Proc>, rootPids: seq<nat>, all: map<nat, TreeNode>, pid: nat)
    ensures pid in OrphanPids(ps, procs, rootPids, all) <==>
              (exists p :: p in ps && p.pid == pid) && pid !in rootPids && !HasParentIn(procs, pid, all)
  {
    if ps != [] {
      assert ps == [ps[0]] + ps[1..];
      OrphanPidsMember(ps[1..], procs, rootPids, all, pid);
    }
  }

  /** The subtrees built from the root pids `pids`, each with an empty path. */
  function BuildAll(pids: seq<nat>, all: map<nat, TreeNode>, kids: map<nat, seq<nat>>): (r: seq<TreeNode>)
    requires Keyed(all)
  {
    if pids == [] then []
    else
      Subtree(pids[0], all, kids, {}) + BuildAll(pids[1..], all, kids)
  }

  /** The orphans of the snapshot `procs`. */
  function Orphans(procs: seq<Proc>): seq<nat> {
    OrphanPids(procs, procs, RootPids(procs), AllNodes(procs))
  }

  /** The roots before sorting: the parentless processes, then the orphans. */
  function UnsortedRoots(procs: seq<Proc>): seq<TreeNode> {
    var all := AllNodes(procs);
    var kids := ChildrenOf(procs);
    BuildAll(RootPids(procs), all, kids) + BuildAll(Orphans(procs), all, kids)
  }

  /** The tree `build_tree` returns for the snapshot `procs`. */
  function TreeOf(procs: seq<Proc>): (t: Tree)
    ensures SortedDesc(t.roots, TotalCpu)
    ensures multiset(t.roots) == multiset(UnsortedRoots(procs))
  {
    Tree(SortDesc(UnsortedRoots(procs), TotalCpu), |AllNodes(procs)|)
  }

  /** A process is made a root exactly when it has no parent or its parent is not in the
      snapshot; the pids made roots are pids of the snapshot. */
  lemma RootsExactly(procs: seq<Proc>, p: Proc)
    requires DistinctPids(procs) && p in procs
    ensures p.pid in RootPids(procs) + Orphans(procs)
            <==> p.parent.None? || p.parent.value !in AllNodes(procs)
  {
    var all := AllNodes(procs);
    var i :| 0 <= i < |procs| && procs[i] == p;
    RootPidsMember(procs, p.pid);
    OrphanPidsMember(procs, procs, RootPids(procs), all, p.pid);
    HasParentInExists(procs, p.pid, all);
    if HasParentIn(procs, p.pid, all) {
      var q :| q in procs && q.pid == p.pid && q.parent.Some? && q.parent.value in all;
      var j :| 0 <= j < |procs| && procs[j] == q;
      assert i == j;
    }
    if p.pid in RootPids(procs) {
      var q :| q in procs && q.pid == p.pid && q.parent.None?;
      var j :| 0 <= j < |procs| && procs[j] == q;
      assert i == j;
    }
  }

  lemma {:induction false} BuildAllConsistent(pids: seq<nat>, all: map<nat, TreeNode>, kids: map<nat, seq<nat>>)
    requires Keyed(all) && AllConsistent(all)
    ensures forall i :: 0 <= i < |BuildAll(pids, all, kids)| ==> Consistent(BuildAll(pids, all, kids)[i])
    decreases |pids|
  {
    if pids != [] {
      BuildAllConsistent(pids[1..], all, kids);
      if pids[0] in all {
        BuildConsistent(all[pids[0]], all, kids, {});
      }
    }
  }

  lemma AllNodesConsistent(procs: seq<Proc>)
    ensures AllConsistent(AllNodes(procs))
  {
    var all := AllNodes(procs);
    forall k | k in all ensures Consistent(all[k]) {
      AllNodesInitial(procs, k);
      var p :| p in procs && all[k] == InitialNode(p);
      InitialConsistent(p);
    }
  }

  lemma ConcatConsistent(xs: seq<TreeNode>, ys: seq<TreeNode>, zs: seq<TreeNode>)
    requires forall i :: 0 <= i < |xs| ==> Consistent(xs[i])
    requires forall i :: 0 <= i < |ys| ==> Consistent(ys[i])
    requires multiset(zs) == multiset(xs + ys)
    ensures forall i :: 0 <= i < |zs| ==> Consistent(zs[i])
  {
    forall i | 0 <= i < |zs| ensures Consistent(zs[i]) {
      assert zs[i] in multiset(xs + ys);
      var k :| 0 <= k < |xs + ys| && (xs + ys)[k] == zs[i];
      if k >= |xs| {
        assert (xs + ys)[k] == ys[k - |xs|];
      }
    }
  }

  /** Every root of a built tree is consistent, so its totals are the sums over its subtree. */
  lemma TreeConsistent(procs: seq<Proc>)
    ensures forall i :: 0 <= i < |TreeOf(procs).roots| ==> Consistent(TreeOf(procs).roots[i])
  {
    var all := AllNodes(procs);
    var kids := ChildrenOf(procs);
    AllNodesConsistent(procs);
    BuildAllConsistent(RootPids(procs), all, kids);
    BuildAllConsistent(Orphans(procs), all, kids);
    ConcatConsistent(BuildAll(RootPids(procs), all, kids), BuildAll(Orphans(procs), all, kids), TreeOf(procs).roots);
  }

  /** `total_processes` is the number of processes in the snapshot. */
  lemma TotalProcessesCounts(procs: seq<Proc>)
    requires DistinctPids(procs)
    ensures TreeOf(procs).totalProcesses == |procs|
  {
    AllNodesSize(procs);
  }

  lemma {:induction false} AllNodesSize(procs: seq<Proc>)
    requires DistinctPids(procs)
    ensures |AllNodes(procs)| == |procs|
  {
    if procs != [] {
      var k := |procs| - 1;
      var last := procs[k];
      var prefix := procs[..k];
      assert DistinctPids(prefix) by {
        forall i, j | 0 <= i < j < |prefix| ensures prefix[i].pid != prefix[j].pid {
          assert prefix[i] == procs[i] && prefix[j] == procs[j];
        }
      }
      AllNodesSize(prefix);
      var before := AllNodes(prefix);
      forall p | p in prefix ensures p.pid != last.pid {
        var j :| 0 <= j < k && prefix[j] == p;
        assert procs[j] == p;
      }
      assert last.pid !in before;
      FirstPassStep(procs, k);
      assert AllNodes(procs[..k + 1]) == before[last.pid := InitialNode(last)];
      assert procs[..k + 1] == procs;
    }
  }

  /** `ProcessTreeBuilder`: the process table it refreshes before each build. */
  class TreeBuilder {
    var system: seq<Proc>

    constructor (snapshot: seq<Proc>)
      ensures system == snapshot
    {
      system := snapshot;
    }

    /** `build_tree`, the process table reading `snapshot`. */
    method BuildTree(snapshot: seq<Proc>) returns (tree: Tree)
      modifies this
      ensures system == snapshot
      ensures tree == TreeOf(snapshot)
    {
      system := snapshot;
      var all, kids, rootPids := FirstPass(system);
      var roots := BuildRoots(rootPids, all, kids);
      assert forall k :: 0 <= k < |system| ==> system[k].pid in all;
      roots := BuildOrphans(system, rootPids, all, kids, roots);
      tree := Tree(SortDesc(roots, TotalCpu), |all|);
    }

    /** `find_process_family`: build a fresh tree and search it. */
    method FindProcessFamily(snapshot: seq<Proc>, target: nat) returns (r: Option<TreeNode>)
      modifies this
      ensures system == snapshot
      ensures r == FindIn(TreeOf(snapshot).roots, target)
    {
      var tree := BuildTree(snapshot);
      r := FindIn(tree.roots, target);
    }
  }

  lemma {:induction false} BuildAllSnoc(pids: seq<nat>, pid: nat, all: map<nat, TreeNode>, kids: map<nat, seq<nat>>)
    requires Keyed(all)
    ensures BuildAll(pids + [pid], all, kids) == BuildAll(pids, all, kids) + Subtree(pid, all, kids, {})
    decreases |pids|
  {
    var tail := Subtree(pid, all, kids, {});
    if pids == [] {
      assert [pid][1..] == [];
      assert BuildAll([pid], all, kids) == tail + [];
    } else {
      var head := Subtree(pids[0], all, kids, {});
      assert (pids + [pid])[0] == pids[0];
      assert (pids + [pid])[1..] == pids[1..] + [pid];
      assert BuildAll(pids + [pid], all, kids) == head + BuildAll(pids[1..] + [pid], all, kids);
      BuildAllSnoc(pids[1..], pid, all, kids);
      assert head + (BuildAll(pids[1..], all, kids) + tail) == (head + BuildAll(pids[1..], all, kids)) + tail;
    }
  }


  lemma BuildAllPrefix(pids: seq<nat>, i: nat, all: map<nat, TreeNode>, kids: map<nat, seq<nat>>)
    requires Keyed(all) && i < |pids|
    ensures BuildAll(pids[..i + 1], all, kids) == BuildAll(pids[..i], all, kids) + Subtree(pids[i], all, kids, {})
  {
    assert pids[..i + 1] == pids[..i] + [pids[i]];
    BuildAllSnoc(pids[..i], pids[i], all, kids);
  }

  /** The roots loop: build every parentless process. */
  method BuildRoots(pids: seq<nat>, all: map<nat, TreeNode>, kids: map<nat, seq<nat>>) returns (roots: seq<TreeNode>)
    requires Keyed(all)
    ensures roots == BuildAll(pids, all, kids)
  {
    roots := [];
    var i := 0;
    while i < |pids|
      invariant 0 <= i <= |pids|
      invariant roots == BuildAll(pids[..i], all, kids)
    {
      BuildAllPrefix(pids, i, all, kids);
      if pids[i] in all {
        var node := BuildPresent(pids[i], all, kids, {});
        roots := roots + [node];
      } else {
        AppendEmpty(roots);
      }
      i := i + 1;
    }
    assert pids[..i] == pids;
  }

  lemma {:induction false} OrphanPidsSnoc(ps: seq<Proc>, p: Proc, procs: seq<Proc>, rootPids: seq<nat>, all: map<nat, TreeNode>)
    ensures OrphanPids(ps + [p], procs, rootPids, all)
            == OrphanPids(ps, procs, rootPids, all)
               + (if p.pid !in rootPids && !HasParentIn(procs, p.pid, all) then [p.pid] else [])
    decreases |ps|
  {
    var tail := if p.pid !in rootPids && !HasParentIn(procs, p.pid, all) then [p.pid] else [];
    if ps == [] {
      assert [p][1..] == [];
      assert OrphanPids([p], procs, rootPids, all) == tail + [];
    } else {
      var q := ps[0];
      var head := if q.pid !in rootPids && !HasParentIn(procs, q.pid, all) then [q.pid] else [];
      assert (ps + [p])[0] == q;
      assert (ps + [p])[1..] == ps[1..] + [p];
      assert OrphanPids(ps + [p], procs, rootPids, all) == head + OrphanPids(ps[1..] + [p], procs, rootPids, all);
      OrphanPidsSnoc(ps[1..], p, procs, rootPids, all);
      assert head + (OrphanPids(ps[1..], procs, rootPids, all) + tail)
          == (head + OrphanPids(ps[1..], procs, rootPids, all)) + tail;
    }
  }

  /** The test of the orphan loop: not parentless, and, by the inner search, without a parent
      in the snapshot. */
  method IsOrphan(procs: seq<Proc>, pid: nat, rootPids: seq<nat>, all: map<nat, TreeNode>) returns (orphan: bool)
    ensures orphan == (pid !in rootPids && !HasParentIn(procs, pid, all))
  {
    orphan := false;
    if pid !in rootPids {
      var hasParent := FindParent(procs, pid, all);
      orphan := !hasParent;
    }
  }


  /** The orphan loop: every process neither parentless nor with a parent in the snapshot
      becomes a root too, after the roots already built. */
  method BuildOrphans(procs: seq<Proc>, rootPids: seq<nat>, all: map<nat, TreeNode>, kids: map<nat, seq<nat>>,
                      roots: seq<TreeNode>)
    returns (r: seq<TreeNode>)
    requires Keyed(all) && forall k :: 0 <= k < |procs| ==> procs[k].pid in all
    ensures r == roots + BuildAll(OrphanPids(procs, procs, rootPids, all), all, kids)
  {
    r := roots;
    var i := 0;
    while i < |procs|
      invariant 0 <= i <= |procs|
      invariant r == roots + BuildAll(OrphanPids(procs[..i], procs, rootPids, all), all, kids)
    {
      r := OrphanStep(procs, i, rootPids, all, kids, roots, r);
      i := i + 1;
    }
    assert procs[..i] == procs;
  }

  /** The body of the orphan loop for the process at index `i`: its subtree is appended when
      it is an orphan. */
  method OrphanStep(procs: seq<Proc>, i: nat, rootPids: seq<nat>, all: map<nat, TreeNode>, kids: map<nat, seq<nat>>,
                    roots: seq<TreeNode>, r: seq<TreeNode>)
    returns (r': seq<TreeNode>)
    requires Keyed(all) && i < |procs| && procs[i].pid in all
    requires r == roots + BuildAll(OrphanPids(procs[..i], procs, rootPids, all), all, kids)
    ensures r' == roots + BuildAll(OrphanPids(procs[..i + 1], procs, rootPids, all), all, kids)
  {
    var p := procs[i];
    ghost var orphans := OrphanPids(procs[..i], procs, rootPids, all);
    OrphanPidsNext(procs, i, rootPids, all);
    var orphan := IsOrphan(procs, p.pid, rootPids, all);
    if orphan {
      var node := BuildPresent(p.pid, all, kids, {});
      AppendRoot(roots, orphans, p.pid, node, all, kids);
      r' := r + [node];
    } else {
      r' := r;
    }
  }

  lemma AppendRoot(roots: seq<TreeNode>, pids: seq<nat>, pid: nat, node: TreeNode,
                   all: map<nat, TreeNode>, kids: map<nat, seq<nat>>)
    requires Keyed(all) && Subtree(pid, all, kids, {}) == [node]
    ensures roots + BuildAll(pids + [pid], all, kids) == (roots + BuildAll(pids, all, kids)) + [node]
  {
    BuildAllSnoc(pids, pid, all, kids);
    var built := BuildAll(pids, all, kids);
    AppendAssoc(roots, built, [node]);
  }

  /** The orphans found in the first `i + 1` processes. */
  lemma OrphanPidsNext(procs: seq<Proc>, i: nat, rootPids: seq<nat>, all: map<nat, TreeNode>)
    requires i < |procs|
    ensures OrphanPids(procs[..i + 1], procs, rootPids, all)
            == if procs[i].pid !in rootPids && !HasParentIn(procs, procs[i].pid, all)
               then OrphanPids(procs[..i], procs, rootPids, all) + [procs[i].pid]
               else OrphanPids(procs[..i], procs, rootPids, all)
  {
    assert procs[..i + 1] == procs[..i] + [procs[i]];
    OrphanPidsSnoc(procs[..i], procs[i], procs, rootPids, all);
    AppendEmpty(OrphanPids(procs[..i], procs, rootPids, all));
  }

  // ---------------------------------------------------------------------------
  // Searching

  /** `find_in_tree`: each node is examined before its children, and its children before its
      later siblings. */
  function FindNode(n: TreeNode, target: nat): Option<TreeNode>
    decreases n, 1
  {
    if n.pid == target then Some(n) else FindIn(n.children, target)
  }

  function FindIn(nodes: seq<TreeNode>, target: nat): Option<TreeNode>
    decreases nodes, 0
  {
    if nodes == [] then None
    else match FindNode(nodes[0], target)
      case Some(found) => Some(found)
      case None => FindIn(nodes[1..], target)
  }

  /** The first node of `xs` with pid `target`. */
  function FirstWith(xs: seq<TreeNode>, target: nat): (r: Option<TreeNode>)
    ensures r.Some? ==> r.value.pid == target && r.value in xs
    ensures r.None? <==> forall x :: x in xs ==> x.pid != target
  {
    if xs == [] then None
    else if xs[0].pid == target then Some(xs[0])
    else FirstWith(xs[1..], target)
  }

  lemma {:induction false} FirstWithAppend(xs: seq<TreeNode>, ys: seq<TreeNode>, target: nat)
    ensures FirstWith(xs + ys, target) == if FirstWith(xs, target).Some? then FirstWith(xs, target) else FirstWith(ys, target)
    decreases |xs|
  {
    if xs != [] {
      assert (xs + ys)[1..] == xs[1..] + ys;
      FirstWithAppend(xs[1..], ys, target);
    } else {
      assert xs + ys == ys;
    }
  }

  /** The search returns the first node with the target pid in depth-first pre-order, and
      nothing when no node has it. */
  lemma {:induction false} FindIsFirstInPreOrder(nodes: seq<TreeNode>, target: nat)
    ensures FindIn(nodes, target) == FirstWith(PreList(nodes), target)
    decreases nodes, 0
  {
    if nodes != [] {
      FindNodeIsFirst(nodes[0], target);
      FindIsFirstInPreOrder(nodes[1..], target);
      FirstWithAppend(PreNode(nodes[0]), PreList(nodes[1..]), target);
    }
  }

  lemma {:induction false} FindNodeIsFirst(n: TreeNode, target: nat)
    ensures FindNode(n, target) == FirstWith(PreNode(n), target)
    decreases n, 1
  {
    FindIsFirstInPreOrder(n.children, target);
    FirstWithAppend([n], PreList(n.children), target);
  }
}
