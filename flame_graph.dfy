/** The flame-graph builder: stack samples folded into a weighted call tree, which is
    then totalled, pruned, ranked and exported in the folded text format. A node's
    children, a map keyed by frame key in the program, are a sequence of nodes with
    pairwise distinct keys. */
module FlameGraph {
  import opened Common
  import opened Strings
  import opened Seqs
  import opened Sorting
  import opened Platform

  datatype Node = Node(
    key: string,
    name: string,
    moduleName: Option<string>,
    filePath: Option<string>,
    lineNumber: Option<nat>,
    selfSamples: nat,
    totalSamples: nat,
    children: seq<Node>)

  /** The root every builder starts from. */
  function EmptyRoot(): (n: Node)
    ensures n.name == "ROOT" && n.children == [] && n.selfSamples == 0 && n.totalSamples == 0
  {
    Node("ROOT", "ROOT", None, None, None, 0, 0, [])
  }

  /** `create_frame_key`. */
  function FrameKey(f: StackFrame): (k: string)
    ensures f.symbol.Some? && f.moduleName.Some? ==> k == f.moduleName.value + "::" + f.symbol.value
    ensures f.symbol.Some? && f.moduleName.None? ==> k == f.symbol.value
    ensures f.symbol.None? ==> k == "0x" + HexString(f.address)
  {
    match f.symbol
    case Some(symbol) =>
      (match f.moduleName
       case Some(m) => m + "::" + symbol
       case None => symbol)
    case None => "0x" + HexString(f.address)
  }

  /** The name a new node gets: the symbol, else the address in hexadecimal. */
  function FrameLabel(f: StackFrame): (shown: string)
    ensures f.symbol.Some? ==> shown == f.symbol.value
    ensures f.symbol.None? ==> shown == "0x" + HexString(f.address)
  {
    if f.symbol.Some? then f.symbol.value else "0x" + HexString(f.address)
  }

  /** The key and the label differ exactly when the frame has both a symbol and a module:
      the module goes into the key, never into the label. */
  lemma KeyIsLabelUnlessModule(f: StackFrame)
    ensures FrameKey(f) == FrameLabel(f) <==> f.symbol.None? || f.moduleName.None?
  {
    if f.symbol.Some? && f.moduleName.Some? {
      assert |FrameKey(f)| == |f.moduleName.value| + 2 + |FrameLabel(f)|;
    }
  }

  /** The same symbol in two different modules gets two different keys. */
  lemma ModulesSeparateKeys(f: StackFrame, g: StackFrame)
    requires f.symbol.Some? && f.moduleName.Some? && g.symbol.Some? && g.moduleName.Some?
    requires f.symbol == g.symbol && f.moduleName != g.moduleName
    ensures FrameKey(f) != FrameKey(g)
  {
    var a := f.moduleName.value + "::";
    var b := g.moduleName.value + "::";
    assert FrameKey(f) == a + f.symbol.value && FrameKey(g) == b + f.symbol.value;
    assert a[..|a| - 2] == f.moduleName.value && b[..|b| - 2] == g.moduleName.value;
    assert f.moduleName.value != g.moduleName.value;
    assert a != b;
    if |a| == |b| {
      assert (a + f.symbol.value)[..|a|] == a && (b + f.symbol.value)[..|b|] == b;
    }
  }

  /** The node `get_or_create_child` creates for a frame. */
  function NewNode(f: StackFrame): (n: Node)
    ensures n.key == FrameKey(f) && n.name == FrameLabel(f) && n.moduleName == f.moduleName
    ensures n.selfSamples == 0 && n.totalSamples == 0 && n.children == []
  {
    Node(FrameKey(f), FrameLabel(f), f.moduleName, f.file, f.line, 0, 0, [])
  }

  /** Position of the child with key `key`, or `|children|` when there is none. */
  function ChildIndex(children: seq<Node>, key: string): (i: nat)
    ensures i <= |children|
    ensures i < |children| ==> children[i].key == key
    ensures forall j :: 0 <= j < i ==> children[j].key != key
  {
    if children == [] || children[0].key == key then 0 else 1 + ChildIndex(children[1..], key)
  }

  predicate UniqueKeys(children: seq<Node>) {
    forall i, j :: 0 <= i < j < |children| ==> children[i].key != children[j].key
  }

  /** Every node's children have distinct keys, as the keys of a map do. */
  predicate WellKeyed(n: Node)
    decreases n
  {
    UniqueKeys(n.children) && forall i :: 0 <= i < |n.children| ==> WellKeyed(n.children[i])
  }

  // ---------------------------------------------------------------------------
  // Inserting one sample

  /** The walk of `process_stack_trace` below `n`: `path` lists the frames outermost
      first; each step reuses the child with the frame's key or appends a new one, and
      the node the path ends at gets one sample (`add_sample(1)`). */
  function InsertPath(n: Node, path: seq<StackFrame>): (r: Node)
    decreases |path|
    ensures r.key == n.key && r.name == n.name
    ensures path != [] ==> r.selfSamples == n.selfSamples && r.totalSamples == n.totalSamples
    ensures path == [] ==> r.selfSamples == n.selfSamples + 1 && r.totalSamples == n.totalSamples + 1
  {
    if path == [] then n.(selfSamples := n.selfSamples + 1, totalSamples := n.totalSamples + 1)
    else
      var i := ChildIndex(n.children, FrameKey(path[0]));
      if i < |n.children| then n.(children := n.children[i := InsertPath(n.children[i], path[1..])])
      else n.(children := n.children + [InsertPath(NewNode(path[0]), path[1..])])
  }

  /** Inserting keeps the children of every node keyed apart. */
  lemma {:induction false} InsertPathWellKeyed(n: Node, path: seq<StackFrame>)
    requires WellKeyed(n)
    ensures WellKeyed(InsertPath(n, path))
    decreases |path|
  {
    if path != [] {
      var r := InsertPath(n, path);
      var i := ChildIndex(n.children, FrameKey(path[0]));
      if i < |n.children| {
        InsertPathWellKeyed(n.children[i], path[1..]);
        assert forall j :: 0 <= j < |r.children| ==> r.children[j].key == n.children[j].key;
      } else {
        assert WellKeyed(NewNode(path[0]));
        InsertPathWellKeyed(NewNode(path[0]), path[1..]);
        assert forall j :: 0 <= j < |n.children| ==> r.children[j] == n.children[j];
        assert r.children[|n.children|].key == FrameKey(path[0]);
      }
    }
  }

  function Sum(xs: seq<nat>): nat {
    if xs == [] then 0 else Sum(xs[..|xs| - 1]) + xs[|xs| - 1]
  }

  lemma SumSnoc(xs: seq<nat>, x: nat)
    ensures Sum(xs + [x]) == Sum(xs) + x
  {
    assert (xs + [x])[..|xs|] == xs;
  }

  lemma {:induction false} SumUpdate(xs: seq<nat>, i: nat, x: nat)
    requires i < |xs|
    ensures Sum(xs[i := x]) + xs[i] == Sum(xs) + x
    decreases |xs|
  {
    var k := |xs| - 1;
    if i < k {
      SumUpdate(xs[..k], i, x);
      assert xs[i := x][..k] == xs[..k][i := x];
    } else {
      assert xs[i := x][..k] == xs[..k];
    }
  }

  /** Number of samples held in the tree: the self samples of all its nodes. */
  function SelfSum(n: Node): nat
    decreases n
  {
    n.selfSamples + Sum(seq(|n.children|, i requires 0 <= i < |n.children| => SelfSum(n.children[i])))
  }

  /** The samples held by a list of subtrees, each counted by `SelfSum`. */
  function SelfSums(ns: seq<Node>): (r: seq<nat>)
    ensures |r| == |ns| && forall i :: 0 <= i < |ns| ==> r[i] == SelfSum(ns[i])
  {
    seq(|ns|, i requires 0 <= i < |ns| => SelfSum(ns[i]))
  }

  function SelfSumList(ns: seq<Node>): nat {
    Sum(SelfSums(ns))
  }

  lemma SelfSumUnfold(n: Node)
    ensures SelfSum(n) == n.selfSamples + SelfSumList(n.children)
  {
    assert SelfSums(n.children) == seq(|n.children|, i requires 0 <= i < |n.children| => SelfSum(n.children[i]));
  }

  lemma SelfSumListAppend(ns: seq<Node>, x: Node)
    ensures SelfSumList(ns + [x]) == SelfSumList(ns) + SelfSum(x)
  {
    assert SelfSums(ns + [x]) == SelfSums(ns) + [SelfSum(x)];
    SumSnoc(SelfSums(ns), SelfSum(x));
  }

  lemma SelfSumListUpdate(ns: seq<Node>, i: nat, x: Node)
    requires i < |ns|
    ensures SelfSumList(ns[i := x]) + SelfSum(ns[i]) == SelfSumList(ns) + SelfSum(x)
  {
    assert SelfSums(ns[i := x]) == SelfSums(ns)[i := SelfSum(x)];
    SumUpdate(SelfSums(ns), i, SelfSum(x));
  }

  /** Every inserted path adds exactly one sample to the tree. */
  lemma {:induction false} InsertPathAddsOneSample(n: Node, path: seq<StackFrame>)
    ensures SelfSum(InsertPath(n, path)) == SelfSum(n) + 1
    decreases |path|
  {
    if path != [] {
      var i := ChildIndex(n.children, FrameKey(path[0]));
      var r := InsertPath(n, path);
      SelfSumUnfold(n);
      SelfSumUnfold(r);
      if i < |n.children| {
        InsertPathAddsOneSample(n.children[i], path[1..]);
        SelfSumListUpdate(n.children, i, InsertPath(n.children[i], path[1..]));
      } else {
        InsertPathAddsOneSample(NewNode(path[0]), path[1..]);
        SelfSumListAppend(n.children, InsertPath(NewNode(path[0]), path[1..]));
        LeafSelfSum(NewNode(path[0]));
      }
    }
  }

  // ---------------------------------------------------------------------------
  // Repeated samples form a chain

  /** The single path of nodes `count` samples of `path` grow below an empty node:
      one node per frame, only the last holding samples. */
  function Chain(path: seq<StackFrame>, count: nat): (c: seq<Node>)
    decreases |path|
    ensures |path| == 0 <==> c == []
    ensures path != [] ==> |c| == 1 && c[0].key == FrameKey(path[0])
  {
    if path == [] then []
    else
      var leafCount := if |path| == 1 then count else 0;
      [NewNode(path[0]).(selfSamples := leafCount, totalSamples := leafCount, children := Chain(path[1..], count))]
  }

  /** The first sample below a node without children lays down the chain. */
  lemma {:induction false} FirstSampleLaysChain(n: Node, path: seq<StackFrame>)
    requires n.children == [] && path != []
    ensures InsertPath(n, path) == n.(children := Chain(path, 1))
    decreases |path|
  {
    if |path| > 1 {
      FirstSampleLaysChain(NewNode(path[0]), path[1..]);
    }
  }

  /** A further identical sample only adds one to the chain's last node. */
  lemma {:induction false} NextSampleGrowsLeaf(n: Node, path: seq<StackFrame>, count: nat)
    requires path != [] && n.children == Chain(path, count)
    ensures InsertPath(n, path) == n.(children := Chain(path, count + 1))
    decreases |path|
  {
    var c := n.children[0];
    assert ChildIndex(n.children, FrameKey(path[0])) == 0;
    if |path| > 1 {
      NextSampleGrowsLeaf(c, path[1..], count);
    }
  }

  /** The nodes of a chain, from the top, and the samples each holds: `count` at
      the last, none above it. */
  lemma {:induction false} ChainShape(path: seq<StackFrame>, count: nat, d: nat)
    requires d < |path|
    ensures ChainAt(Chain(path, count), d).key == FrameKey(path[d])
    ensures ChainAt(Chain(path, count), d).selfSamples == (if d == |path| - 1 then count else 0)
    decreases d
  {
    if d > 0 {
      ChainShape(path[1..], count, d - 1);
    }
  }

  /** The node `d` levels down a chain. */
  function ChainAt(c: seq<Node>, d: nat): Node
    requires c != []
    decreases d
  {
    if d == 0 || c[0].children == [] then c[0] else ChainAt(c[0].children, d - 1)
  }

  // ---------------------------------------------------------------------------
  // Totals

  function TotalList(ns: seq<Node>): nat {
    if ns == [] then 0 else TotalList(ns[..|ns| - 1]) + ns[|ns| - 1].totalSamples
  }

  /** Every node's total is its own samples plus its children's totals. */
  predicate Consistent(n: Node)
    decreases n
  {
    n.totalSamples == n.selfSamples + TotalList(n.children)
    && forall i :: 0 <= i < |n.children| ==> Consistent(n.children[i])
  }

  /** Every node's total is at least its own samples plus its children's totals. */
  predicate Dominates(n: Node)
    decreases n
  {
    n.totalSamples >= n.selfSamples + TotalList(n.children)
    && forall i :: 0 <= i < |n.children| ==> Dominates(n.children[i])
  }

  lemma {:induction false} TotalListIsSelfSum(cs: seq<Node>, ns: seq<Node>)
    requires |cs| == |ns|
    requires forall i :: 0 <= i < |cs| ==> cs[i].totalSamples == SelfSum(ns[i])
    ensures TotalList(cs) == SelfSumList(ns)
    decreases |cs|
  {
    if cs != [] {
      var k := |ns| - 1;
      TotalListIsSelfSum(cs[..k], ns[..k]);
      assert ns == ns[..k] + [ns[k]];
      SelfSumListAppend(ns[..k], ns[k]);
    }
  }

  /** `update_totals`: every total recomputed from the leaves up; keys, names, self
      samples and the shape are kept. */
  function UpdateTotals(n: Node): (r: Node)
    decreases n
    ensures r == n.(totalSamples := r.totalSamples, children := r.children)
    ensures |r.children| == |n.children|
    ensures forall i :: 0 <= i < |r.children| ==> r.children[i].key == n.children[i].key
  {
    var cs := seq(|n.children|, i requires 0 <= i < |n.children| => UpdateTotals(n.children[i]));
    n.(children := cs, totalSamples := n.selfSamples + TotalList(cs))
  }

  /** After `update_totals` every total is the sum of the self samples below it. */
  lemma {:induction false} UpdateTotalsConsistent(n: Node)
    ensures UpdateTotals(n).totalSamples == SelfSum(n)
    ensures Consistent(UpdateTotals(n))
    decreases n
  {
    var r := UpdateTotals(n);
    var cs := r.children;
    forall i | 0 <= i < |cs|
      ensures cs[i] == UpdateTotals(n.children[i])
      ensures cs[i].totalSamples == SelfSum(n.children[i]) && Consistent(cs[i])
    {
      UpdateTotalsConsistent(n.children[i]);
    }
    TotalListIsSelfSum(cs, n.children);
    SelfSumUnfold(n);
  }

  /** Keys stay apart under `update_totals`. */
  lemma {:induction false} UpdateTotalsWellKeyed(n: Node)
    requires WellKeyed(n)
    ensures WellKeyed(UpdateTotals(n))
    decreases n
  {
    var r := UpdateTotals(n);
    forall i | 0 <= i < |r.children| ensures WellKeyed(r.children[i]) {
      UpdateTotalsWellKeyed(n.children[i]);
    }
  }

  // ---------------------------------------------------------------------------
  // Pruning

  /** `prune_small_nodes(0.5, total)` keeps children whose total reaches this. */
  function PruneThreshold(total: nat): (t: nat)
    ensures t * 200 <= total < (t + 1) * 200
  {
    total / 200
  }

  predicate Reaches(threshold: nat, c: Node) {
    c.totalSamples >= threshold
  }

  /** Every node below `n` reaches the threshold. */
  predicate AllReach(n: Node, threshold: nat)
    decreases n
  {
    forall i :: 0 <= i < |n.children| ==>
      n.children[i].totalSamples >= threshold && AllReach(n.children[i], threshold)
  }

  lemma {:induction false} TotalListFilter(ns: seq<Node>, p: Node -> bool)
    ensures TotalList(Filter(ns, p)) <= TotalList(ns)
    decreases |ns|
  {
    if ns != [] {
      var k := |ns| - 1;
      assert ns == ns[..k] + [ns[k]];
      FilterSnoc(ns[..k], ns[k], p);
      TotalListFilter(ns[..k], p);
      var f := Filter(ns[..k], p);
      if p(ns[k]) {
        assert (f + [ns[k]])[..|f|] == f;
      } else {
        AppendEmpty(f);
      }
    }
  }

  lemma {:induction false} TotalListSame(xs: seq<Node>, ys: seq<Node>)
    requires |xs| == |ys|
    requires forall i :: 0 <= i < |xs| ==> xs[i].totalSamples == ys[i].totalSamples
    ensures TotalList(xs) == TotalList(ys)
    decreases |xs|
  {
    if xs != [] {
      TotalListSame(xs[..|xs| - 1], ys[..|ys| - 1]);
    }
  }

  /** `prune_small_nodes`: the children are pruned first, then those below the
      threshold dropped; no total is recomputed. */
  function Prune(n: Node, threshold: nat): (r: Node)
    decreases n
    ensures r == n.(children := r.children)
    ensures |r.children| <= |n.children|
    ensures forall i :: 0 <= i < |r.children| ==> r.children[i].totalSamples >= threshold
  {
    var pruned := seq(|n.children|, i requires 0 <= i < |n.children| => Prune(n.children[i], threshold));
    n.(children := Filter(pruned, c => Reaches(threshold, c)))
  }

  /** After pruning every node below the root reaches the threshold. */
  lemma {:induction false} PruneAllReach(n: Node, threshold: nat)
    ensures AllReach(Prune(n, threshold), threshold)
    decreases n
  {
    var r := Prune(n, threshold);
    var pruned := seq(|n.children|, i requires 0 <= i < |n.children| => Prune(n.children[i], threshold));
    forall i | 0 <= i < |r.children| ensures AllReach(r.children[i], threshold) {
      var j :| 0 <= j < |pruned| && pruned[j] == r.children[i];
      PruneAllReach(n.children[j], threshold);
    }
  }

  /** Pruning a consistent tree leaves totals that still cover what remains below each
      node, though they may now count more than it. */
  lemma {:induction false} PruneDominates(n: Node, threshold: nat)
    requires Consistent(n)
    ensures Dominates(Prune(n, threshold))
    decreases n
  {
    var r := Prune(n, threshold);
    var pruned := seq(|n.children|, i requires 0 <= i < |n.children| => Prune(n.children[i], threshold));
    TotalListSame(pruned, n.children);
    TotalListFilter(pruned, c => Reaches(threshold, c));
    forall i | 0 <= i < |r.children| ensures Dominates(r.children[i]) {
      var j :| 0 <= j < |pruned| && pruned[j] == r.children[i];
      PruneDominates(n.children[j], threshold);
    }
  }

  lemma {:induction false} FilterAllKept(ns: seq<Node>, p: Node -> bool)
    requires forall i :: 0 <= i < |ns| ==> p(ns[i])
    ensures Filter(ns, p) == ns
    decreases |ns|
  {
    if ns != [] {
      FilterAllKept(ns[1..], p);
      assert ns == [ns[0]] + ns[1..];
    }
  }

  /** With a threshold of zero nothing is pruned. */
  lemma {:induction false} PruneZeroKeepsAll(n: Node)
    ensures Prune(n, 0) == n
    decreases n
  {
    var pruned := seq(|n.children|, i requires 0 <= i < |n.children| => Prune(n.children[i], 0));
    forall i | 0 <= i < |n.children| ensures pruned[i] == n.children[i] {
      PruneZeroKeepsAll(n.children[i]);
    }
    assert pruned == n.children;
    FilterAllKept(pruned, c => Reaches(0, c));
  }

  /** Fewer than 200 samples make the threshold zero, so nothing is pruned. */
  lemma SmallGraphsAreNotPruned(n: Node, total: nat)
    requires total < 200
    ensures Prune(n, PruneThreshold(total)) == n
  {
    assert PruneThreshold(total) == 0;
    PruneZeroKeepsAll(n);
  }

  // ---------------------------------------------------------------------------
  // The graph and its exports

  datatype FlameGraphData = FlameGraphData(
    root: Node,
    totalSamples: nat,
    totalDurationMs: nat,
    processName: string,
    pid: nat)

  /** `get_percentage`. */
  function Percentage(n: Node, total: nat): (p: real)
    ensures total == 0 ==> p == 0.0
    ensures total > 0 ==> p * (total as real) == (n.totalSamples as real) * 100.0
    ensures 0.0 <= p
    ensures n.totalSamples <= total ==> p <= 100.0
  {
    if total == 0 then 0.0 else (n.totalSamples as real) / (total as real) * 100.0
  }

  /** The stack string of a node: its parent's stack, ';', and its name. */
  function StackOf(stack: string, name: string): (s: string)
    ensures stack == [] ==> s == name
    ensures stack != [] ==> s == stack + ";" + name
  {
    if stack == [] then name else stack + ";" + name
  }

  /** The lines `export_node_folded` produces, in pre-order. */
  function FoldedLines(n: Node, stack: string): seq<string>
    decreases n, 1
  {
    var current := StackOf(stack, n.name);
    (if n.selfSamples > 0 then [current + " " + NatToString(n.selfSamples)] else [])
      + FoldedLinesList(n.children, current)
  }

  function FoldedLinesList(ns: seq<Node>, stack: string): seq<string>
    decreases ns, 0
  {
    if ns == [] then [] else FoldedLinesList(ns[..|ns| - 1], stack) + FoldedLines(ns[|ns| - 1], stack)
  }

  /** Number of nodes with samples of their own. */
  function SampledNodes(n: Node): nat
    decreases n, 1
  {
    (if n.selfSamples > 0 then 1 else 0) + SampledNodesList(n.children)
  }

  function SampledNodesList(ns: seq<Node>): nat
    decreases ns, 0
  {
    if ns == [] then 0 else SampledNodesList(ns[..|ns| - 1]) + SampledNodes(ns[|ns| - 1])
  }

  /** One folded line per node with samples of its own. */
  lemma {:induction false} FoldedLineCount(n: Node, stack: string)
    ensures |FoldedLines(n, stack)| == SampledNodes(n)
    decreases n, 1
  {
    FoldedLineCountList(n.children, StackOf(stack, n.name));
  }

  lemma {:induction false} FoldedLineCountList(ns: seq<Node>, stack: string)
    ensures |FoldedLinesList(ns, stack)| == SampledNodesList(ns)
    decreases ns, 0
  {
    if ns != [] {
      FoldedLineCountList(ns[..|ns| - 1], stack);
      FoldedLineCount(ns[|ns| - 1], stack);
    }
  }

  /** Every folded line starts with the stack of the node it was produced under; from
      the root, with "ROOT". */
  lemma {:induction false} FoldedLinesStartWithStack(n: Node, stack: string)
    ensures forall l :: l in FoldedLines(n, stack) ==> StartsWith(l, StackOf(stack, n.name))
    decreases n, 1
  {
    var current := StackOf(stack, n.name);
    FoldedLinesListStartWith(n.children, current);
    forall l | l in FoldedLinesList(n.children, current) ensures StartsWith(l, current) {
      var p := StackOf(current, "");
      assert StartsWith(l, p);
      assert p[..|current|] == current;
    }
  }

  lemma {:induction false} FoldedLinesListStartWith(ns: seq<Node>, stack: string)
    ensures forall l :: l in FoldedLinesList(ns, stack) ==> StartsWith(l, StackOf(stack, ""))
    decreases ns, 0
  {
    if ns != [] {
      var last := ns[|ns| - 1];
      FoldedLinesListStartWith(ns[..|ns| - 1], stack);
      FoldedLinesStartWithStack(last, stack);
      forall l | l in FoldedLines(last, stack) ensures StartsWith(l, StackOf(stack, "")) {
        var full := StackOf(stack, last.name);
        var p := StackOf(stack, "");
        assert StartsWith(l, full);
        assert full[..|p|] == p;
      }
    }
  }

  /** `export_to_folded_format`. */
  function ExportFolded(data: FlameGraphData): (text: string)
  {
    Join(FoldedLines(data.root, ""), "\n")
  }

  /** The nodes `collect_hot_functions` gathers, in pre-order: those with samples of
      their own, the root excepted. */
  function HotCandidates(n: Node): (r: seq<Node>)
    decreases n, 1
    ensures forall i :: 0 <= i < |r| ==> r[i].selfSamples > 0 && r[i].name != "ROOT"
  {
    (if n.selfSamples > 0 && n.name != "ROOT" then [n] else []) + HotCandidatesList(n.children)
  }

  function HotCandidatesList(ns: seq<Node>): (r: seq<Node>)
    decreases ns, 0
    ensures forall i :: 0 <= i < |r| ==> r[i].selfSamples > 0 && r[i].name != "ROOT"
  {
    if ns == [] then [] else HotCandidatesList(ns[..|ns| - 1]) + HotCandidates(ns[|ns| - 1])
  }

  function TotalKey(n: Node): real {
    n.totalSamples as real
  }

  /** The candidates with the most total samples, greatest first, at most `limit`. */
  function HotNodes(root: Node, limit: nat): (r: seq<Node>)
    ensures |r| == if |HotCandidates(root)| < limit then |HotCandidates(root)| else limit
    ensures forall i :: 0 <= i < |r| ==> r[i] in HotCandidates(root)
    ensures forall i, j :: 0 <= i < j < |r| ==> r[i].totalSamples >= r[j].totalSamples
  {
    TopOfSorted(HotCandidates(root), limit);
    Truncate(SortDesc(HotCandidates(root), TotalKey), limit)
  }

  /** The first `limit` of the nodes sorted by total samples. */
  lemma TopOfSorted(candidates: seq<Node>, limit: nat)
    ensures var top := Truncate(SortDesc(candidates, TotalKey), limit);
            && |top| == (if |candidates| < limit then |candidates| else limit)
            && (forall i :: 0 <= i < |top| ==> top[i] in candidates)
            && (forall i, j :: 0 <= i < j < |top| ==> top[i].totalSamples >= top[j].totalSamples)
            && multiset(top) <= multiset(candidates)
  {
    var sorted := SortDesc(candidates, TotalKey);
    var top := Truncate(sorted, limit);
    SortedHasCandidates(candidates, sorted);
    forall i, j | 0 <= i < j < |top| ensures top[i].totalSamples >= top[j].totalSamples {
      assert top[i] == sorted[i] && top[j] == sorted[j];
      assert TotalKey(sorted[i]) >= TotalKey(sorted[j]);
    }
    forall i | 0 <= i < |top| ensures top[i] in candidates {
      assert top[i] == sorted[i];
    }
    PrefixSubMultiset(sorted, |top|);
  }

  lemma PrefixSubMultiset<T>(xs: seq<T>, n: nat)
    requires n <= |xs|
    ensures multiset(xs[..n]) <= multiset(xs)
  {
    assert xs == xs[..n] + xs[n..];
  }

  /** The hot list takes each candidate at most as often as it occurs. */
  lemma HotNodesFromCandidates(root: Node, limit: nat)
    ensures multiset(HotNodes(root, limit)) <= multiset(HotCandidates(root))
  {
    TopOfSorted(HotCandidates(root), limit);
  }

  /** No candidate left out of the hot list has more total samples than one kept. */
  lemma HotNodesDominate(root: Node, limit: nat, p: Node, q: Node)
    requires p in HotNodes(root, limit)
    requires q in multiset(HotCandidates(root)) - multiset(HotNodes(root, limit))
    ensures p.totalSamples >= q.totalSamples
  {
    var sorted := SortDesc(HotCandidates(root), TotalKey);
    var top := HotNodes(root, limit);
    SortedFrontDominates(sorted, TotalKey, |top|, p, q);
  }

  lemma SortedHasCandidates(candidates: seq<Node>, sorted: seq<Node>)
    requires multiset(sorted) == multiset(candidates)
    ensures forall i :: 0 <= i < |sorted| ==> sorted[i] in candidates
  {
    forall i | 0 <= i < |sorted| ensures sorted[i] in candidates {
      assert sorted[i] in multiset(sorted);
    }
  }

  /** `get_hot_functions`: at most `limit` of the candidates, most total samples first,
      each with its share of the graph's samples. */
  function HotFunctions(data: FlameGraphData, limit: nat): (r: seq<(Node, real)>)
    ensures |r| <= limit
    ensures forall i :: 0 <= i < |r| ==> r[i].0.selfSamples > 0 && r[i].0.name != "ROOT"
    ensures forall i :: 0 <= i < |r| ==> r[i].1 == Percentage(r[i].0, data.totalSamples)
    ensures forall i, j :: 0 <= i < j < |r| ==> r[i].0.totalSamples >= r[j].0.totalSamples
    ensures |r| == if |HotCandidates(data.root)| < limit then |HotCandidates(data.root)| else limit
    ensures forall i :: 0 <= i < |r| ==> r[i].0 == HotNodes(data.root, limit)[i]
  {
    WithShares(HotNodes(data.root, limit), data.totalSamples)
  }

  /** Each node paired with its share of `total`. */
  function WithShares(nodes: seq<Node>, total: nat): (r: seq<(Node, real)>)
    ensures |r| == |nodes|
    ensures forall i :: 0 <= i < |r| ==> r[i].0 == nodes[i] && r[i].1 == Percentage(nodes[i], total)
  {
    seq(|nodes|, i requires 0 <= i < |nodes| => (nodes[i], Percentage(nodes[i], total)))
  }

  /** The listed functions are the hottest: no candidate left out has more total samples
      than one listed. */
  lemma HotFunctionsDominate(data: FlameGraphData, limit: nat, i: nat, q: Node)
    requires i < |HotFunctions(data, limit)|
    requires q in multiset(HotCandidates(data.root)) - multiset(HotNodes(data.root, limit))
    ensures HotFunctions(data, limit)[i].0.totalSamples >= q.totalSamples
  {
    HotNodesDominate(data.root, limit, HotFunctions(data, limit)[i].0, q);
  }

  // ---------------------------------------------------------------------------
  // The builder

  /** The trace as `process_stack_trace` applies it to a tree. */
  function ApplyTrace(root: Node, trace: StackTrace): (r: Node)
    ensures trace.frames == [] ==> r == root
    ensures trace.frames != [] ==> SelfSum(r) == SelfSum(root) + 1
  {
    if trace.frames == [] then root
    else
      InsertPathAddsOneSample(root, Reverse(trace.frames));
      InsertPath(root, Reverse(trace.frames))
  }

  /** The tree after the traces, in order. */
  function ApplyTraces(root: Node, traces: seq<StackTrace>): Node {
    if traces == [] then root else ApplyTrace(ApplyTraces(root, traces[..|traces| - 1]), traces[|traces| - 1])
  }

  predicate NonEmptyTraces(traces: seq<StackTrace>) {
    forall i :: 0 <= i < |traces| ==> traces[i].frames != []
  }

  /** Each non-empty trace adds one sample. */
  lemma {:induction false} ApplyTracesCounts(root: Node, traces: seq<StackTrace>)
    requires NonEmptyTraces(traces)
    ensures SelfSum(ApplyTraces(root, traces)) == SelfSum(root) + |traces|
    decreases |traces|
  {
    if traces != [] {
      ApplyTracesCounts(root, traces[..|traces| - 1]);
    }
  }

  /** `n` copies of one trace. */
  function Repeat(trace: StackTrace, n: nat): (r: seq<StackTrace>)
    ensures |r| == n && forall i :: 0 <= i < n ==> r[i] == trace
  {
    seq(n, i => trace)
  }

  /** N identical traces of depth D make one chain of D nodes under the root, with all
      N samples on its last node. */
  lemma {:induction false} IdenticalTracesMakeAChain(trace: StackTrace, n: nat)
    requires trace.frames != [] && n > 0
    ensures ApplyTraces(EmptyRoot(), Repeat(trace, n)) == EmptyRoot().(children := Chain(Reverse(trace.frames), n))
    decreases n
  {
    var path := Reverse(trace.frames);
    assert Repeat(trace, n)[..n - 1] == Repeat(trace, n - 1);
    if n == 1 {
      FirstSampleLaysChain(EmptyRoot(), path);
    } else {
      IdenticalTracesMakeAChain(trace, n - 1);
      NextSampleGrowsLeaf(EmptyRoot().(children := Chain(path, n - 1)), path, n - 1);
    }
  }

  /** The queued traces of each listed thread, in the order listed. */
  function Groups(threads: seq<nat>, queued: map<nat, seq<StackTrace>>): (g: seq<seq<StackTrace>>)
    ensures |g| == |threads|
    ensures forall i :: 0 <= i < |threads| && threads[i] in queued ==> g[i] == queued[threads[i]]
  {
    seq(|threads|, i requires 0 <= i < |threads| => if threads[i] in queued then queued[threads[i]] else [])
  }

  /** A node without children holds only its own samples. */
  lemma LeafSelfSum(n: Node)
    requires n.children == []
    ensures SelfSum(n) == n.selfSamples
  {
  }

  lemma EmptyRootWellKeyed()
    ensures WellKeyed(EmptyRoot())
  {
  }

  class FlameGraphBuilder {
    var root: Node
    var totalSamples: nat
    var processName: string
    var pid: nat
    var samplesByThread: map<nat, seq<StackTrace>>

    /** The tree holds exactly the samples counted, and only non-empty traces wait. */
    predicate Valid()
      reads this
    {
      SelfSum(root) == totalSamples && root.name == "ROOT" && WellKeyed(root)
      && forall t :: t in samplesByThread ==> NonEmptyTraces(samplesByThread[t])
    }

    constructor(processName: string, pid: nat)
      ensures Valid()
      ensures root == EmptyRoot() && totalSamples == 0 && samplesByThread == map[]
      ensures this.processName == processName && this.pid == pid
    {
      root := EmptyRoot();
      totalSamples := 0;
      this.processName := processName;
      this.pid := pid;
      samplesByThread := map[];
      new;
      LeafSelfSum(root);
      EmptyRootWellKeyed();
    }

    /** `add_stack_trace`: an empty trace is ignored; any other is queued under its
        thread, or thread 0 when it has none. */
    method AddStackTrace(trace: StackTrace)
      requires Valid()
      modifies this
      ensures Valid()
      ensures root == old(root) && totalSamples == old(totalSamples)
      ensures processName == old(processName) && pid == old(pid)
      ensures trace.frames == [] ==> samplesByThread == old(samplesByThread)
      ensures trace.frames != [] ==>
                var t := trace.threadId.UnwrapOr(0);
                samplesByThread == old(samplesByThread)[t := (if t in old(samplesByThread) then old(samplesByThread)[t] else []) + [trace]]
    {
      if trace.frames == [] {
        return;
      }
      var t := trace.threadId.UnwrapOr(0);
      var queued := if t in samplesByThread then samplesByThread[t] else [];
      assert NonEmptyTraces(queued + [trace]);
      samplesByThread := samplesByThread[t := queued + [trace]];
    }

    /** `process_stack_trace`. */
    method ProcessStackTrace(trace: StackTrace)
      requires Valid()
      modifies this
      ensures Valid()
      ensures root == ApplyTrace(old(root), trace)
      ensures totalSamples == old(totalSamples) + (if trace.frames == [] then 0 else 1)
      ensures processName == old(processName) && pid == old(pid) && samplesByThread == old(samplesByThread)
    {
      if trace.frames == [] {
        return;
      }
      InsertPathWellKeyed(root, Reverse(trace.frames));
      InsertPathAddsOneSample(root, Reverse(trace.frames));
      root := InsertPath(root, Reverse(trace.frames));
      totalSamples := totalSamples + 1;
    }

    /** The loop of `build` over the collected traces. */
    method ProcessAll(traces: seq<StackTrace>)
      requires Valid() && NonEmptyTraces(traces)
      modifies this
      ensures Valid()
      ensures root == ApplyTraces(old(root), traces)
      ensures totalSamples == old(totalSamples) + |traces|
      ensures processName == old(processName) && pid == old(pid)
    {
      var j := 0;
      while j < |traces|
        invariant 0 <= j <= |traces|
        invariant Valid()
        invariant root == ApplyTraces(old(root), traces[..j])
        invariant totalSamples == old(totalSamples) + j
        invariant processName == old(processName) && pid == old(pid)
      {
        assert traces[..j + 1][..j] == traces[..j];
        ProcessStackTrace(traces[j]);
        j := j + 1;
      }
      assert traces[..j] == traces;
    }

    /** `build`: every queued trace, thread by thread in the order `threads` lists the
        threads (a map's iteration order, each key once), then totals, then pruning at 0.5%. */
    method Build(threads: seq<nat>) returns (data: FlameGraphData)
      requires Valid()
      requires forall t :: t in threads <==> t in samplesByThread
      requires forall i, j :: 0 <= i < j < |threads| ==> threads[i] != threads[j]
      modifies this
      ensures var traces := Flatten(Groups(threads, old(samplesByThread)));
              data.totalSamples == old(totalSamples) + |traces|
              && data.root == Prune(UpdateTotals(ApplyTraces(old(root), traces)), PruneThreshold(data.totalSamples))
      ensures data.root.totalSamples == data.totalSamples
      ensures data.processName == old(processName) && data.pid == old(pid) && data.totalDurationMs == 0
    {
      var traces := CollectTraces(threads, samplesByThread);
      ProcessAll(traces);
      var totalled := UpdateTotals(root);
      UpdateTotalsConsistent(root);
      data := FlameGraphData(Prune(totalled, PruneThreshold(totalSamples)), totalSamples, 0, processName, pid);
    }
  }

  /** The traces of every listed thread, concatenated in the order listed. */
  method CollectTraces(threads: seq<nat>, queued: map<nat, seq<StackTrace>>) returns (traces: seq<StackTrace>)
    requires forall t :: t in queued ==> NonEmptyTraces(queued[t])
    requires forall t :: t in threads ==> t in queued
    ensures traces == Flatten(Groups(threads, queued))
    ensures NonEmptyTraces(traces)
  {
    var groups := Groups(threads, queued);
    traces := [];
    var i := 0;
    while i < |groups|
      invariant 0 <= i <= |groups|
      invariant traces == Flatten(groups[..i])
      invariant NonEmptyTraces(traces)
    {
      assert groups[..i + 1][..i] == groups[..i];
      assert groups[i] == queued[threads[i]];
      traces := traces + groups[i];
      i := i + 1;
    }
    assert groups[..i] == groups;
  }

  /** The frames of the two-trace example: `main` calling `foo`, and `main` calling `bar`,
      innermost first. */
  function ExampleFrame(symbol: string, address: nat): StackFrame {
    StackFrame(address, Some(symbol), None, None, None, None)
  }

  /** The folded lines depend on names and self samples only, not on totals. */
  lemma {:induction false} FoldedIgnoresTotals(n: Node, stack: string)
    ensures FoldedLines(UpdateTotals(n), stack) == FoldedLines(n, stack)
    decreases n, 1
  {
    var r := UpdateTotals(n);
    FoldedIgnoresTotalsList(r.children, n.children, StackOf(stack, n.name));
  }

  lemma {:induction false} FoldedIgnoresTotalsList(rs: seq<Node>, ns: seq<Node>, stack: string)
    requires |rs| == |ns| && forall i :: 0 <= i < |ns| ==> rs[i] == UpdateTotals(ns[i])
    ensures FoldedLinesList(rs, stack) == FoldedLinesList(ns, stack)
    decreases ns, 0
  {
    if ns != [] {
      FoldedIgnoresTotalsList(rs[..|rs| - 1], ns[..|ns| - 1], stack);
      FoldedIgnoresTotals(ns[|ns| - 1], stack);
    }
  }

  function ExampleTrace(inner: string, innerAddress: nat): StackTrace {
    StackTrace(1, None, [ExampleFrame(inner, innerAddress), ExampleFrame("main", 1)], 0, true)
  }

  function LeafNode(name: string): Node {
    Node(name, name, None, None, None, 1, 1, [])
  }

  /** The tree the two example traces grow: ROOT, main, then foo and bar side by side. */
  lemma TwoTracesTree()
    ensures ApplyTraces(EmptyRoot(), [ExampleTrace("foo", 2), ExampleTrace("bar", 3)])
            == TwoTracesBuilt()
  {
    var t1 := ExampleTrace("foo", 2);
    var t2 := ExampleTrace("bar", 3);
    assert [t1, t2][..1] == [t1];
    assert [t1][..0] == [];
    FirstExampleTrace();
    SecondExampleTrace();
  }

  /** The tree after the first example trace: ROOT, main, foo. */
  function OneTraceBuilt(): Node {
    EmptyRoot().(children := [Node("main", "main", None, None, None, 0, 0, [LeafNode("foo")])])
  }

  lemma FirstExampleTrace()
    ensures ApplyTrace(EmptyRoot(), ExampleTrace("foo", 2)) == OneTraceBuilt()
  {
    var main := ExampleFrame("main", 1);
    var foo := ExampleFrame("foo", 2);
    assert Reverse(ExampleTrace("foo", 2).frames) == [main, foo];
    FirstSampleLaysChain(EmptyRoot(), [main, foo]);
    assert Chain([main, foo], 1) == OneTraceBuilt().children;
  }

  lemma SecondExampleTrace()
    ensures ApplyTrace(OneTraceBuilt(), ExampleTrace("bar", 3)) == TwoTracesBuilt()
  {
    var main := ExampleFrame("main", 1);
    var bar := ExampleFrame("bar", 3);
    var afterOne := OneTraceBuilt();
    var mainNode := afterOne.children[0];
    assert Reverse(ExampleTrace("bar", 3).frames) == [main, bar];
    assert ChildIndex(afterOne.children, FrameKey(main)) == 0;
    assert ChildIndex(mainNode.children, FrameKey(bar)) == 1;
    assert InsertPath(mainNode, [main, bar][1..]) == mainNode.(children := [LeafNode("foo"), LeafNode("bar")]);
  }


  /** A leaf with one sample of its own folds into one line ending in " 1". */
  lemma LeafFolded(name: string, stack: string)
    ensures FoldedLines(LeafNode(name), stack) == [StackOf(stack, name) + " 1"]
  {
    var here := StackOf(stack, name);
    assert DigitChar(1) == '1';
    assert NatToString(1) == "1";
    assert here + " " + "1" == here + " 1";
    assert FoldedLines(LeafNode(name), stack) == [here + " " + NatToString(1)] + FoldedLinesList([], here);
  }

  /** A node with no samples of its own and two leaf children folds into the two leaves' lines. */
  lemma ForkFolded(name: string, left: string, right: string, stack: string)
    ensures var fork := Node(name, name, None, None, None, 0, 0, [LeafNode(left), LeafNode(right)]);
            FoldedLines(fork, stack)
            == [StackOf(StackOf(stack, name), left) + " 1", StackOf(StackOf(stack, name), right) + " 1"]
  {
    var here := StackOf(stack, name);
    var kids := [LeafNode(left), LeafNode(right)];
    LeafFolded(left, here);
    LeafFolded(right, here);
    assert kids[..1] == [LeafNode(left)] && kids[..1][..0] == [];
    assert FoldedLinesList(kids[..1], here) == [StackOf(here, left) + " 1"];
  }

  /** The tree of the two-trace example. */
  function TwoTracesBuilt(): Node {
    EmptyRoot().(children := [Node("main", "main", None, None, None, 0, 0, [LeafNode("foo"), LeafNode("bar")])])
  }

  lemma TwoTracesBuiltFolded()
    ensures FoldedLines(TwoTracesBuilt(), "") == ["ROOT;main;foo 1", "ROOT;main;bar 1"]
  {
    var fork := Node("main", "main", None, None, None, 0, 0, [LeafNode("foo"), LeafNode("bar")]);
    var root := TwoTracesBuilt();
    ForkFolded("main", "foo", "bar", "ROOT");
    assert StackOf("ROOT", "main") == "ROOT;main";
    assert StackOf("ROOT;main", "foo") + " 1" == "ROOT;main;foo 1";
    assert StackOf("ROOT;main", "bar") + " 1" == "ROOT;main;bar 1";
    assert [fork][..0] == [];
    assert FoldedLinesList([fork], "ROOT") == FoldedLines(fork, "ROOT");
    assert StackOf("", root.name) == "ROOT";
    assert FoldedLines(root, "") == FoldedLinesList([fork], "ROOT");
  }

  /** Below 200 samples, the exported lines are those of the tree as the samples laid it. */
  lemma SmallGraphFolded(n: Node, total: nat)
    requires total < 200
    ensures FoldedLines(Prune(UpdateTotals(n), PruneThreshold(total)), "") == FoldedLines(n, "")
  {
    SmallGraphsAreNotPruned(UpdateTotals(n), total);
    FoldedIgnoresTotals(n, "");
  }

  /** Two traces main→foo and main→bar fold into "ROOT;main;foo 1" and "ROOT;main;bar 1". */
  lemma TwoTracesFolded()
    ensures var tree := UpdateTotals(ApplyTraces(EmptyRoot(), [ExampleTrace("foo", 2), ExampleTrace("bar", 3)]));
            FoldedLines(Prune(tree, PruneThreshold(2)), "") == ["ROOT;main;foo 1", "ROOT;main;bar 1"]
  {
    TwoTracesTree();
    SmallGraphFolded(TwoTracesBuilt(), 2);
    TwoTracesBuiltFolded();
  }
}
