/** The file analyzer (monitors/disk/src/file_analyzer.rs): a bounded-depth walk of a
    directory tree, the per-directory aggregation built from it, the duplicate-file search
    by size and content hash, and the choice of the chunks the fast hash reads. The tree
    is what the file system reports: a directory listing that may be unreadable, entries
    whose metadata may be unreadable. The content hash is a parameter. */
module FileAnalyzer {
  import opened Common
  import opened Seqs
  import opened Sorting

  // ---------------------------------------------------------------------------
  // Settings

  /** `FileAnalyzer`: how deep to walk, the smallest file worth listing, and whether
      symbolic links are followed. */
  datatype Analyzer = Analyzer(maxDepth: nat, minFileSize: nat, followSymlinks: bool)

  /** `FileAnalyzer::new` and `Default`. */
  function New(): (a: Analyzer)
    ensures a.maxDepth == 10 && a.minFileSize == 0 && !a.followSymlinks
  {
    Analyzer(10, 0, false)
  }

  /** `with_max_depth`. */
  function WithMaxDepth(a: Analyzer, depth: nat): Analyzer {
    a.(maxDepth := depth)
  }

  /** `with_min_file_size`. */
  function WithMinFileSize(a: Analyzer, size: nat): Analyzer {
    a.(minFileSize := size)
  }

  /** `with_symlinks`. */
  function WithSymlinks(a: Analyzer, follow: bool): Analyzer {
    a.(followSymlinks := follow)
  }

  /** Each setter changes its own setting only, so the order they are chained in does not
      matter and the last value set wins. */
  lemma SettersIndependent(a: Analyzer, depth: nat, size: nat, follow: bool)
    ensures WithMinFileSize(WithMaxDepth(a, depth), size) == WithMaxDepth(WithMinFileSize(a, size), depth)
    ensures WithSymlinks(WithMaxDepth(a, depth), follow) == WithMaxDepth(WithSymlinks(a, follow), depth)
    ensures WithSymlinks(WithMinFileSize(a, size), follow) == WithMinFileSize(WithSymlinks(a, follow), size)
    ensures var b := WithSymlinks(WithMinFileSize(WithMaxDepth(a, depth), size), follow);
            b.maxDepth == depth && b.minFileSize == size && b.followSymlinks == follow
    ensures WithMaxDepth(WithMaxDepth(a, 0), depth) == WithMaxDepth(a, depth)
  {
  }

  // ---------------------------------------------------------------------------
  // The file system as read

  /** What `metadata` or `symlink_metadata` reports. */
  datatype Metadata = Metadata(isDir: bool, size: nat)

  /** What `read_dir` gives: the entries, or an error. */
  datatype Listing = Unreadable | Listing(entries: seq<Node>)

  /** One directory entry: its path and extension (`None` when it has none or it is not
      valid text), the metadata of the link itself and of what it points to (`None` when
      unreadable), and its listing when walked as a directory. */
  datatype Node = Node(path: string, extension: Option<string>,
                       linkMetadata: Option<Metadata>, targetMetadata: Option<Metadata>,
                       listing: Listing)

  /** `FileEntry`, without its modification time. */
  datatype FileEntry = FileEntry(path: string, sizeBytes: nat, isDir: bool, fileType: string)

  /** One call of the walk's callback, with the depth of the directory that listed it. */
  datatype Visit = Visit(entry: FileEntry, depth: nat)

  function MetadataOf(a: Analyzer, n: Node): Option<Metadata> {
    if a.followSymlinks then n.targetMetadata else n.linkMetadata
  }

  /** The type an entry is filed under: "directory", the extension, or "no_extension". */
  function FileType(isDir: bool, extension: Option<string>): (t: string)
    ensures isDir ==> t == "directory"
    ensures !isDir && extension.None? ==> t == "no_extension"
    ensures !isDir && extension.Some? ==> t == extension.value
  {
    if isDir then "directory"
    else match extension
      case Some(e) => e
      case None => "no_extension"
  }

  /** `walk_directory(path, depth)` over the listed `nodes`: each readable entry reported
      in order, a directory's own entries right after it, one level deeper; nothing below
      `maxDepth`. */
  function WalkNodes(a: Analyzer, nodes: seq<Node>, depth: nat): (visits: seq<Visit>)
    requires depth <= a.maxDepth
    ensures forall i :: 0 <= i < |visits| ==> depth <= visits[i].depth <= a.maxDepth
    decreases nodes
  {
    if nodes == [] then []
    else
      var n := nodes[0];
      var rest := WalkNodes(a, nodes[1..], depth);
      match MetadataOf(a, n)
      case None => rest
      case Some(m) =>
        var visit := Visit(FileEntry(n.path, m.size, m.isDir, FileType(m.isDir, n.extension)), depth);
        var below := if m.isDir && depth + 1 <= a.maxDepth && n.listing.Listing?
                     then WalkNodes(a, n.listing.entries, depth + 1) else [];
        [visit] + below + rest
  }

  /** `walk_directory(path, 0)` on a directory whose listing is `root`: an unreadable
      directory is skipped, not an error. */
  function Walk(a: Analyzer, root: Listing): (visits: seq<Visit>)
    ensures forall i :: 0 <= i < |visits| ==> visits[i].depth <= a.maxDepth
  {
    if root.Listing? then WalkNodes(a, root.entries, 0) else []
  }

  /** The walk does not look at the smallest listed size. */
  lemma {:induction false} WalkNodesIgnoresMinSize(a: Analyzer, nodes: seq<Node>, depth: nat, size: nat)
    requires depth <= a.maxDepth
    ensures WalkNodes(WithMinFileSize(a, size), nodes, depth) == WalkNodes(a, nodes, depth)
    decreases nodes
  {
    if nodes != [] {
      var n := nodes[0];
      WalkNodesIgnoresMinSize(a, nodes[1..], depth, size);
      if n.listing.Listing? && depth + 1 <= a.maxDepth {
        WalkNodesIgnoresMinSize(a, n.listing.entries, depth + 1, size);
      }
    }
  }

  /** Entries below `maxDepth` are never reached: cutting the tree there, making every
      directory at that depth unreadable, leaves the walk as it was. */
  function Cut(nodes: seq<Node>, levels: nat): (r: seq<Node>)
    ensures |r| == |nodes|
    decreases nodes
  {
    if nodes == [] then []
    else
      var n := nodes[0];
      var listing := if levels == 0 || !n.listing.Listing? then Unreadable
                     else Listing(Cut(n.listing.entries, levels - 1));
      [n.(listing := listing)] + Cut(nodes[1..], levels)
  }

  lemma {:induction false} WalkNodesIgnoresDeeper(a: Analyzer, nodes: seq<Node>, depth: nat)
    requires depth <= a.maxDepth
    ensures WalkNodes(a, Cut(nodes, a.maxDepth - depth), depth) == WalkNodes(a, nodes, depth)
    decreases nodes
  {
    if nodes != [] {
      var n := nodes[0];
      var cut := Cut(nodes, a.maxDepth - depth);
      assert cut[1..] == Cut(nodes[1..], a.maxDepth - depth);
      WalkNodesIgnoresDeeper(a, nodes[1..], depth);
      if n.listing.Listing? && depth + 1 <= a.maxDepth {
        WalkNodesIgnoresDeeper(a, n.listing.entries, depth + 1);
      }
    }
  }

  /** Nothing below `maxDepth` changes what `walk_directory(path, 0)` reports. */
  lemma WalkIgnoresDeeper(a: Analyzer, root: seq<Node>)
    ensures Walk(a, Listing(Cut(root, a.maxDepth))) == Walk(a, Listing(root))
  {
    WalkNodesIgnoresDeeper(a, root, 0);
  }

  // ---------------------------------------------------------------------------
  // Aggregation

  /** Number of directories reported. */
  function DirCount(visits: seq<Visit>): (n: nat)
    ensures n <= |visits|
  {
    if visits == [] then 0
    else DirCount(visits[..|visits| - 1]) + (if visits[|visits| - 1].entry.isDir then 1 else 0)
  }

  /** Number of other entries reported. */
  function FileCount(visits: seq<Visit>): (n: nat)
    ensures n <= |visits|
  {
    if visits == [] then 0
    else FileCount(visits[..|visits| - 1]) + (if visits[|visits| - 1].entry.isDir then 0 else 1)
  }

  /** Sum of the sizes of the non-directory entries. */
  function TotalSize(visits: seq<Visit>): nat {
    if visits == [] then 0
    else
      var e := visits[|visits| - 1].entry;
      TotalSize(visits[..|visits| - 1]) + (if e.isDir then 0 else e.sizeBytes)
  }

  /** The running total of a key: zero before it is first added to. */
  function Tally(m: map<string, nat>, k: string): nat {
    if k in m then m[k] else 0
  }

  /** `size_by_type`: each non-directory entry's size added to its type's total. */
  function TypeTotals(visits: seq<Visit>): map<string, nat> {
    if visits == [] then map[]
    else
      var before := TypeTotals(visits[..|visits| - 1]);
      var e := visits[|visits| - 1].entry;
      if e.isDir then before else before[e.fileType := Tally(before, e.fileType) + e.sizeBytes]
  }

  /** The non-directory entries at least `minSize` bytes long, in walk order. */
  function Listed(visits: seq<Visit>, minSize: nat): seq<FileEntry> {
    if visits == [] then []
    else
      var e := visits[|visits| - 1].entry;
      Listed(visits[..|visits| - 1], minSize) + (if !e.isDir && e.sizeBytes >= minSize then [e] else [])
  }

  /** The key `largest_files` is sorted on. */
  function SizeKey(e: FileEntry): real {
    e.sizeBytes as real
  }

  /** `DirectoryAnalysis`. */
  datatype DirectoryAnalysis = DirectoryAnalysis(totalSize: nat, fileCount: nat, dirCount: nat,
                                                 largestFiles: seq<FileEntry>,
                                                 sizeByType: map<string, nat>)

  /** Every directory and every other entry is counted once. */
  lemma {:induction false} CountsPartition(visits: seq<Visit>)
    ensures FileCount(visits) + DirCount(visits) == |visits|
  {
    if visits != [] {
      CountsPartition(visits[..|visits| - 1]);
    }
  }

  /** The directories are filed under no type, so "directory" is a type only of a file
      named with that extension. */
  lemma {:induction false} TypeTotalsKeys(visits: seq<Visit>, t: string)
    requires t in TypeTotals(visits)
    ensures exists i :: 0 <= i < |visits| && !visits[i].entry.isDir && visits[i].entry.fileType == t
  {
    var n := |visits| - 1;
    var e := visits[n].entry;
    if e.isDir || e.fileType != t {
      TypeTotalsKeys(visits[..n], t);
      var i :| 0 <= i < n && !visits[..n][i].entry.isDir && visits[..n][i].entry.fileType == t;
      assert visits[..n][i] == visits[i];
    }
  }

  /** Some key of a non-empty map. */
  ghost function Pick(m: map<string, nat>): (k: string)
    requires |m| > 0
    ensures k in m
  {
    assert |m.Keys| == |m|;
    var k :| k in m.Keys;
    k
  }

  /** Sum of the values of a map. */
  ghost function MapSum(m: map<string, nat>): nat
    decreases |m|
  {
    if |m| == 0 then 0
    else
      var k := Pick(m);
      m[k] + MapSum(m - {k})
  }

  lemma MapSumRemove(m: map<string, nat>, k: string)
    requires k in m
    ensures MapSum(m) == m[k] + MapSum(m - {k})
    decreases |m|
  {
    var j := Pick(m);
    if j != k {
      var mj, mk := m - {j}, m - {k};
      assert |mj| == |m| - 1 && |mk| == |m| - 1 by {
        assert mj.Keys == m.Keys - {j} && mk.Keys == m.Keys - {k};
      }
      MapSumRemove(mj, k);
      MapSumRemove(mk, j);
      assert mj - {k} == mk - {j};
    }
  }

  lemma MapSumAdd(m: map<string, nat>, k: string, x: nat)
    ensures MapSum(m[k := Tally(m, k) + x]) == MapSum(m) + x
  {
    var u := m[k := Tally(m, k) + x];
    MapSumRemove(u, k);
    if k in m {
      MapSumRemove(m, k);
      assert u - {k} == m - {k};
    } else {
      assert u - {k} == m;
    }
  }

  lemma MapSumStep(before: map<string, nat>, after: map<string, nat>, k: string, x: nat, prev: nat, total: nat)
    requires after == before[k := Tally(before, k) + x]
    requires MapSum(before) == prev && total == prev + x
    ensures MapSum(after) == total
  {
    MapSumAdd(before, k, x);
  }

  /** The totals by type add up to the total size. */
  lemma {:induction false} TypeTotalsSum(visits: seq<Visit>)
    ensures MapSum(TypeTotals(visits)) == TotalSize(visits)
  {
    if visits == [] {
      assert |TypeTotals(visits)| == 0;
    } else {
      TypeTotalsSum(visits[..|visits| - 1]);
      TypeTotalsSumStep(visits);
    }
  }

  /** One more visit adds its size to both sides. */
  lemma TypeTotalsSumStep(visits: seq<Visit>)
    requires visits != []
    requires MapSum(TypeTotals(visits[..|visits| - 1])) == TotalSize(visits[..|visits| - 1])
    ensures MapSum(TypeTotals(visits)) == TotalSize(visits)
  {
    var n := |visits| - 1;
    if visits[n].entry.isDir {
      assert TypeTotals(visits) == TypeTotals(visits[..n]);
      assert TotalSize(visits) == TotalSize(visits[..n]);
    } else {
      TypeTotalsSumFile(visits);
    }
  }

  lemma TypeTotalsSumFile(visits: seq<Visit>)
    requires visits != [] && !visits[|visits| - 1].entry.isDir
    requires MapSum(TypeTotals(visits[..|visits| - 1])) == TotalSize(visits[..|visits| - 1])
    ensures MapSum(TypeTotals(visits)) == TotalSize(visits)
  {
    var n := |visits| - 1;
    var e := visits[n].entry;
    var before := TypeTotals(visits[..n]);
    assert TypeTotals(visits) == before[e.fileType := Tally(before, e.fileType) + e.sizeBytes];
    assert TotalSize(visits) == TotalSize(visits[..n]) + e.sizeBytes;
    MapSumStep(before, TypeTotals(visits), e.fileType, e.sizeBytes, TotalSize(visits[..n]), TotalSize(visits));
  }

  /** The files kept for `largest_files` are the files at least `minSize` bytes long. */
  lemma {:induction false} ListedMember(visits: seq<Visit>, minSize: nat, f: FileEntry)
    ensures f in Listed(visits, minSize) <==> !f.isDir && f.sizeBytes >= minSize
                                              && exists i :: 0 <= i < |visits| && visits[i].entry == f
  {
    if visits != [] {
      var n := |visits| - 1;
      ListedMember(visits[..n], minSize, f);
      if exists i :: 0 <= i < n + 1 && visits[i].entry == f {
        var i :| 0 <= i < n + 1 && visits[i].entry == f;
        if i < n {
          assert visits[..n][i] == visits[i];
        }
      }
      if exists i :: 0 <= i < n && visits[..n][i].entry == f {
        var i :| 0 <= i < n && visits[..n][i].entry == f;
        assert visits[..n][i] == visits[i];
      }
    }
  }

  /** `largest_files`: the listed files by size, largest first, cut to `topN`. */
  function Largest(listed: seq<FileEntry>, topN: nat): seq<FileEntry> {
    Truncate(SortDesc(listed, SizeKey), topN)
  }

  /** `largest_files` holds at most `topN` files, largest first, each of them one of the
      listed files, and all of them when there are no more than `topN`. */
  lemma LargestSorted(listed: seq<FileEntry>, topN: nat)
    ensures var top := Largest(listed, topN);
            |top| == (if |listed| <= topN then |listed| else topN)
            && (forall i, j :: 0 <= i < j < |top| ==> top[i].sizeBytes >= top[j].sizeBytes)
            && multiset(top) <= multiset(listed)
            && (|listed| <= topN ==> multiset(top) == multiset(listed))
  {
    var sorted := SortDesc(listed, SizeKey);
    var top := Largest(listed, topN);
    assert sorted == top + sorted[|top|..];
    forall i, j | 0 <= i < j < |top| ensures top[i].sizeBytes >= top[j].sizeBytes {
      assert SizeKey(sorted[i]) >= SizeKey(sorted[j]);
    }
  }

  /** No listed file left out of `largest_files` is larger than one kept. */
  lemma LargestDominates(listed: seq<FileEntry>, topN: nat, p: FileEntry, q: FileEntry)
    requires p in Largest(listed, topN)
    requires q in multiset(listed) - multiset(Largest(listed, topN))
    ensures p.sizeBytes >= q.sizeBytes
  {
    var sorted := SortDesc(listed, SizeKey);
    SortedFrontDominates(sorted, SizeKey, |Largest(listed, topN)|, p, q);
  }

  /** `analyze_directory(path, top_n)` on a directory whose listing is `root`. The walk
      reports its entries to the aggregation in order; an unreadable tree gives an empty
      analysis rather than an error. */
  method AnalyzeDirectory(a: Analyzer, root: Listing, topN: nat) returns (analysis: DirectoryAnalysis)
    ensures var visits := Walk(a, root);
            analysis.totalSize == TotalSize(visits)
            && analysis.fileCount == FileCount(visits)
            && analysis.dirCount == DirCount(visits)
            && analysis.sizeByType == TypeTotals(visits)
            && analysis.largestFiles == Largest(Listed(visits, a.minFileSize), topN)
  {
    var visits := Walk(a, root);
    var files: seq<FileEntry> := [];
    var totalSize, fileCount, dirCount := 0, 0, 0;
    var sizeByType: map<string, nat> := map[];
    for i := 0 to |visits|
      invariant totalSize == TotalSize(visits[..i])
      invariant fileCount == FileCount(visits[..i]) && dirCount == DirCount(visits[..i])
      invariant sizeByType == TypeTotals(visits[..i])
      invariant files == Listed(visits[..i], a.minFileSize)
    {
      assert visits[..i + 1][..i] == visits[..i];
      var entry := visits[i].entry;
      if entry.isDir {
        dirCount := dirCount + 1;
      } else {
        fileCount := fileCount + 1;
        totalSize := totalSize + entry.sizeBytes;
        var ext := entry.fileType;
        sizeByType := sizeByType[ext := (if ext in sizeByType then sizeByType[ext] else 0) + entry.sizeBytes];
        if entry.sizeBytes >= a.minFileSize {
          files := files + [entry];
        }
      }
    }
    assert visits[..|visits|] == visits;
    files := SortDesc(files, SizeKey);
    files := Truncate(files, topN);
    analysis := DirectoryAnalysis(totalSize, fileCount, dirCount, files, sizeByType);
  }

  /** The total size counts every file, whatever the smallest size listed. */
  lemma TotalIgnoresMinSize(a: Analyzer, root: Listing, size: nat)
    ensures TotalSize(Walk(WithMinFileSize(a, size), root)) == TotalSize(Walk(a, root))
    ensures FileCount(Walk(WithMinFileSize(a, size), root)) == FileCount(Walk(a, root))
  {
    if root.Listing? {
      WalkNodesIgnoresMinSize(a, root.entries, 0, size);
    }
  }

  // ---------------------------------------------------------------------------
  // Duplicates

  /** `DuplicateGroup`. */
  datatype DuplicateGroup = DuplicateGroup(hash: string, sizeBytes: nat, files: seq<string>,
                                           totalWastedSpace: nat)

  /** The key the groups are sorted on. */
  function WastedKey(g: DuplicateGroup): real {
    g.totalWastedSpace as real
  }

  /** The keys of a list of (key, value) pairs, each once, in order of first appearance: a
      `HashMap` of vectors built by `entry(key).or_insert_with(Vec::new).push(value)`,
      iterated in insertion order. */
  function DistinctKeys<K(==,!new), V>(xs: seq<(K, V)>): (ks: seq<K>)
    ensures forall i, j :: 0 <= i < j < |ks| ==> ks[i] != ks[j]
    ensures forall k :: k in ks <==> exists i :: 0 <= i < |xs| && xs[i].0 == k
  {
    if xs == [] then []
    else
      var front := xs[..|xs| - 1];
      var k := xs[|xs| - 1].0;
      var before := DistinctKeys(front);
      assert forall i :: 0 <= i < |front| ==> front[i] == xs[i];
      if k in before then before else before + [k]
  }

  /** The values pushed under key `k`, in order. */
  function Matching<K(==), V(!new)>(xs: seq<(K, V)>, k: K): (vs: seq<V>)
    ensures forall v :: v in vs <==> (k, v) in xs
  {
    if xs == [] then []
    else
      var front := xs[..|xs| - 1];
      assert xs == front + [xs[|xs| - 1]];
      Matching(front, k) + (if xs[|xs| - 1].0 == k then [xs[|xs| - 1].1] else [])
  }

  /** The first pass of `find_duplicates`: the (size, path) of each listed file. */
  function SizedPaths(files: seq<FileEntry>): (r: seq<(nat, string)>)
    ensures |r| == |files|
    ensures forall i :: 0 <= i < |r| ==> r[i] == (files[i].sizeBytes, files[i].path)
  {
    if files == [] then []
    else
      var front := files[..|files| - 1];
      var last := files[|files| - 1];
      SizedPaths(front) + [(last.sizeBytes, last.path)]
  }

  /** The (hash, path) of each path whose hash could be computed. */
  function Hashed(paths: seq<string>, hash: string -> Option<string>): (r: seq<(string, string)>)
    ensures forall e :: e in r ==> e.1 in paths && hash(e.1) == Some(e.0)
    ensures forall p :: p in paths && hash(p).Some? ==> (hash(p).value, p) in r
  {
    if paths == [] then []
    else
      var front := paths[..|paths| - 1];
      var p := paths[|paths| - 1];
      assert forall q :: q in front ==> q in paths;
      Hashed(front, hash) + match hash(p) case Some(h) => [(h, p)] case None => []
  }

  /** `size * (files.len() - 1)`: the space taken by every copy but one. */
  function Wasted(size: nat, count: nat): nat
    requires count >= 1
  {
    size * (count - 1)
  }

  /** The groups of one size, one for each hash shared by at least two of its files. */
  function GroupsForHashes(byHash: seq<(string, string)>, hashes: seq<string>, size: nat): seq<DuplicateGroup> {
    if hashes == [] then []
    else
      var h := hashes[|hashes| - 1];
      var files := Matching(byHash, h);
      GroupsForHashes(byHash, hashes[..|hashes| - 1], size)
        + (if |files| >= 2 then [DuplicateGroup(h, size, files, Wasted(size, |files|))] else [])
  }

  /** The groups of the files of one size; a size held by a single file is not hashed. */
  function GroupsOfSize(paths: seq<string>, size: nat, hash: string -> Option<string>): seq<DuplicateGroup> {
    if |paths| < 2 then []
    else
      var byHash := Hashed(paths, hash);
      GroupsForHashes(byHash, DistinctKeys(byHash), size)
  }

  /** The groups of every size in `sizes`, in that order. */
  function GroupsForSizes(bySize: seq<(nat, string)>, sizes: seq<nat>, hash: string -> Option<string>): seq<DuplicateGroup> {
    if sizes == [] then []
    else
      var size := sizes[|sizes| - 1];
      GroupsForSizes(bySize, sizes[..|sizes| - 1], hash) + GroupsOfSize(Matching(bySize, size), size, hash)
  }

  /** What `find_duplicates` collects, before sorting. */
  function AllGroups(a: Analyzer, root: Listing, hash: string -> Option<string>): seq<DuplicateGroup> {
    var bySize := SizedPaths(Listed(Walk(a, root), a.minFileSize));
    GroupsForSizes(bySize, DistinctKeys(bySize), hash)
  }

  /** The facts a duplicate group of one size stands for. */
  predicate SoundGroup(g: DuplicateGroup, bySize: seq<(nat, string)>, hash: string -> Option<string>) {
    |g.files| >= 2
    && g.totalWastedSpace == Wasted(g.sizeBytes, |g.files|)
    && forall f :: f in g.files ==> hash(f) == Some(g.hash) && (g.sizeBytes, f) in bySize
  }

  lemma {:induction false} GroupsForHashesSound(byHash: seq<(string, string)>, hashes: seq<string>, size: nat,
                                                paths: seq<string>, bySize: seq<(nat, string)>,
                                                hash: string -> Option<string>, g: DuplicateGroup)
    requires forall e :: e in byHash ==> e.1 in paths && hash(e.1) == Some(e.0)
    requires forall p :: p in paths ==> (size, p) in bySize
    requires g in GroupsForHashes(byHash, hashes, size)
    ensures SoundGroup(g, bySize, hash) && g.sizeBytes == size
  {
    var n := |hashes| - 1;
    if g !in GroupsForHashes(byHash, hashes[..n], size) {
      var files := Matching(byHash, hashes[n]);
      forall f | f in files ensures hash(f) == Some(g.hash) && (size, f) in bySize {
        assert (hashes[n], f) in byHash;
      }
    } else {
      GroupsForHashesSound(byHash, hashes[..n], size, paths, bySize, hash, g);
    }
  }

  lemma {:induction false} GroupsForSizesSound(bySize: seq<(nat, string)>, sizes: seq<nat>,
                                               hash: string -> Option<string>, g: DuplicateGroup)
    requires g in GroupsForSizes(bySize, sizes, hash)
    ensures SoundGroup(g, bySize, hash)
  {
    var n := |sizes| - 1;
    var size := sizes[n];
    if g in GroupsForSizes(bySize, sizes[..n], hash) {
      GroupsForSizesSound(bySize, sizes[..n], hash, g);
    } else {
      var paths := Matching(bySize, size);
      var byHash := Hashed(paths, hash);
      GroupsForHashesSound(byHash, DistinctKeys(byHash), size, paths, bySize, hash, g);
    }
  }

  /** Every duplicate group has at least two files, all of its size and its hash, each a
      non-directory entry of the walk at least `minFileSize` bytes long, and wastes its
      size once for each file but one. */
  lemma DuplicateGroupSound(a: Analyzer, root: Listing, hash: string -> Option<string>, g: DuplicateGroup)
    requires g in AllGroups(a, root, hash)
    ensures |g.files| >= 2 && g.totalWastedSpace == Wasted(g.sizeBytes, |g.files|)
    ensures forall f :: f in g.files ==> hash(f) == Some(g.hash)
    ensures forall f :: f in g.files ==>
              exists v :: v in Walk(a, root) && v.entry.path == f && !v.entry.isDir
                          && v.entry.sizeBytes == g.sizeBytes >= a.minFileSize
  {
    var visits := Walk(a, root);
    var listed := Listed(visits, a.minFileSize);
    var bySize := SizedPaths(listed);
    GroupsForSizesSound(bySize, DistinctKeys(bySize), hash, g);
    forall f | f in g.files
      ensures exists v :: v in visits && v.entry.path == f && !v.entry.isDir
                          && v.entry.sizeBytes == g.sizeBytes >= a.minFileSize
    {
      var i :| 0 <= i < |bySize| && bySize[i] == (g.sizeBytes, f);
      var e := listed[i];
      ListedMember(visits, a.minFileSize, e);
      var k :| 0 <= k < |visits| && visits[k].entry == e;
      assert visits[k] in visits;
    }
  }

  /** `find_duplicates(path)` on a directory whose listing is `root`, `hash` standing for
      `hash_file_fast` (`None` when the file cannot be read): files grouped by size, the
      sizes shared by at least two files grouped by hash, and the groups sorted by wasted
      space, largest first. */
  method FindDuplicates(a: Analyzer, root: Listing, hash: string -> Option<string>)
    returns (duplicates: seq<DuplicateGroup>)
    ensures duplicates == SortDesc(AllGroups(a, root, hash), WastedKey)
  {
    var visits := Walk(a, root);
    var bySize := SizedPaths(Listed(visits, a.minFileSize));
    var sizes := DistinctKeys(bySize);
    duplicates := [];
    for i := 0 to |sizes|
      invariant duplicates == GroupsForSizes(bySize, sizes[..i], hash)
    {
      var groups := GroupSize(Matching(bySize, sizes[i]), sizes[i], hash);
      GroupsForSizesPrefix(bySize, sizes, i, hash);
      duplicates := duplicates + groups;
    }
    assert sizes[..|sizes|] == sizes;
    duplicates := SortDesc(duplicates, WastedKey);
  }

  lemma GroupsForSizesPrefix(bySize: seq<(nat, string)>, sizes: seq<nat>, i: nat, hash: string -> Option<string>)
    requires i < |sizes|
    ensures GroupsForSizes(bySize, sizes[..i + 1], hash)
              == GroupsForSizes(bySize, sizes[..i], hash) + GroupsOfSize(Matching(bySize, sizes[i]), sizes[i], hash)
  {
    assert sizes[..i + 1][..i] == sizes[..i];
  }

  /** The body of the outer loop of `find_duplicates` for the files of one size: nothing
      for a single file, else the files grouped by hash. */
  method GroupSize(paths: seq<string>, size: nat, hash: string -> Option<string>)
    returns (groups: seq<DuplicateGroup>)
    ensures groups == GroupsOfSize(paths, size, hash)
  {
    groups := [];
    if |paths| < 2 {
      return;
    }
    var byHash := Hashed(paths, hash);
    groups := GroupsByHash(byHash, DistinctKeys(byHash), size);
  }

  /** The inner loop of `find_duplicates` over the hashes of one size, `hashes` being the
      keys of `by_hash` in iteration order: a group for each hash that at least two of the
      files share. */
  method GroupsByHash(byHash: seq<(string, string)>, hashes: seq<string>, size: nat)
    returns (groups: seq<DuplicateGroup>)
    ensures groups == GroupsForHashes(byHash, hashes, size)
  {
    groups := [];
    for j := 0 to |hashes|
      invariant groups == GroupsForHashes(byHash, hashes[..j], size)
    {
      GroupsForHashesPrefix(byHash, hashes, j, size);
      var files := Matching(byHash, hashes[j]);
      if |files| >= 2 {
        groups := groups + [DuplicateGroup(hashes[j], size, files, Wasted(size, |files|))];
      } else {
        AppendEmpty(groups);
      }
    }
    assert hashes[..|hashes|] == hashes;
  }

  /** The group of one hash, when at least two files have it. */
  function HashGroup(byHash: seq<(string, string)>, h: string, size: nat): seq<DuplicateGroup> {
    var files := Matching(byHash, h);
    if |files| >= 2 then [DuplicateGroup(h, size, files, Wasted(size, |files|))] else []
  }

  lemma GroupsForHashesPrefix(byHash: seq<(string, string)>, hashes: seq<string>, j: nat, size: nat)
    requires j < |hashes|
    ensures GroupsForHashes(byHash, hashes[..j + 1], size)
              == GroupsForHashes(byHash, hashes[..j], size) + HashGroup(byHash, hashes[j], size)
  {
    assert hashes[..j + 1][..j] == hashes[..j];
  }

  /** The groups come largest waste first, and are the collected groups reordered. */
  lemma DuplicatesSorted(a: Analyzer, root: Listing, hash: string -> Option<string>)
    ensures var sorted := SortDesc(AllGroups(a, root, hash), WastedKey);
            (forall i, j :: 0 <= i < j < |sorted| ==> sorted[i].totalWastedSpace >= sorted[j].totalWastedSpace)
            && multiset(sorted) == multiset(AllGroups(a, root, hash))
  {
    var sorted := SortDesc(AllGroups(a, root, hash), WastedKey);
    forall i, j | 0 <= i < j < |sorted| ensures sorted[i].totalWastedSpace >= sorted[j].totalWastedSpace {
      assert WastedKey(sorted[i]) >= WastedKey(sorted[j]);
    }
  }

  /** A sequence holding two different values has at least two elements. */
  lemma TwoDistinct<T>(xs: seq<T>, x: T, y: T)
    requires x in xs && y in xs && x != y
    ensures |xs| >= 2
  {
  }

  lemma {:induction false} GroupsForHashesComplete(byHash: seq<(string, string)>, hashes: seq<string>, size: nat, h: string)
    requires h in hashes && |Matching(byHash, h)| >= 2
    ensures var files := Matching(byHash, h);
            DuplicateGroup(h, size, files, Wasted(size, |files|)) in GroupsForHashes(byHash, hashes, size)
  {
    var n := |hashes| - 1;
    if hashes[n] != h {
      assert h in hashes[..n];
      GroupsForHashesComplete(byHash, hashes[..n], size, h);
    }
  }

  /** The chunks `f(k)` of the keys `ks`, concatenated in order. */
  function ConcatMap<K, G>(ks: seq<K>, f: K -> seq<G>): seq<G> {
    if ks == [] then [] else ConcatMap(ks[..|ks| - 1], f) + f(ks[|ks| - 1])
  }

  /** Every chunk's elements are in the concatenation. */
  lemma {:induction false} ConcatMapComplete<K, G>(ks: seq<K>, f: K -> seq<G>, k: nat, g: G)
    requires k < |ks| && g in f(ks[k])
    ensures g in ConcatMap(ks, f)
    decreases |ks|
  {
    var n := |ks| - 1;
    if k < n {
      assert ks[..n][k] == ks[k];
      ConcatMapComplete(ks[..n], f, k, g);
    }
  }

  /** The groups of the sizes are the groups of each size, concatenated. */
  lemma {:induction false} GroupsForSizesConcat(bySize: seq<(nat, string)>, sizes: seq<nat>, hash: string -> Option<string>)
    ensures GroupsForSizes(bySize, sizes, hash)
              == ConcatMap(sizes, size => GroupsOfSize(Matching(bySize, size), size, hash))
    decreases |sizes|
  {
    if sizes != [] {
      GroupsForSizesConcat(bySize, sizes[..|sizes| - 1], hash);
    }
  }

  lemma GroupsForSizesComplete(bySize: seq<(nat, string)>, sizes: seq<nat>,
                               hash: string -> Option<string>, k: nat, g: DuplicateGroup)
    requires k < |sizes| && g in GroupsOfSize(Matching(bySize, sizes[k]), sizes[k], hash)
    ensures g in GroupsForSizes(bySize, sizes, hash)
  {
    var f := size => GroupsOfSize(Matching(bySize, size), size, hash);
    assert g in f(sizes[k]);
    ConcatMapComplete(sizes, f, k, g);
    GroupsForSizesConcat(bySize, sizes, hash);
  }

  lemma HashedPairsGrouped(paths: seq<string>, size: nat, hash: string -> Option<string>, p: string, q: string, h: string)
    requires p in paths && q in paths && p != q
    requires hash(p) == Some(h) && hash(q) == Some(h)
    ensures exists g :: g in GroupsOfSize(paths, size, hash) && g.hash == h && p in g.files && q in g.files
  {
    TwoDistinct(paths, p, q);
    var byHash := Hashed(paths, hash);
    assert (h, p) in byHash && (h, q) in byHash;
    var files := Matching(byHash, h);
    TwoDistinct(files, p, q);
    var hashes := DistinctKeys(byHash);
    assert h in hashes by {
      var k :| 0 <= k < |byHash| && byHash[k] == (h, p);
    }
    GroupsForHashesComplete(byHash, hashes, size, h);
    assert GroupsOfSize(paths, size, hash) == GroupsForHashes(byHash, hashes, size);
  }

  lemma SizedPairsGrouped(bySize: seq<(nat, string)>, hash: string -> Option<string>,
                          size: nat, p: string, q: string, h: string)
    requires (size, p) in bySize && (size, q) in bySize && p != q
    requires hash(p) == Some(h) && hash(q) == Some(h)
    ensures exists g :: g in GroupsForSizes(bySize, DistinctKeys(bySize), hash)
                        && g.hash == h && g.sizeBytes == size && p in g.files && q in g.files
  {
    var paths := Matching(bySize, size);
    HashedPairsGrouped(paths, size, hash, p, q, h);
    var g :| g in GroupsOfSize(paths, size, hash) && g.hash == h && p in g.files && q in g.files;
    GroupsOfSizeKeys(paths, size, hash);
    var sizes := DistinctKeys(bySize);
    assert size in sizes by {
      var k :| 0 <= k < |bySize| && bySize[k] == (size, p);
    }
    var k :| 0 <= k < |sizes| && sizes[k] == size;
    GroupsForSizesComplete(bySize, sizes, hash, k, g);
  }

  /** Completeness of `find_duplicates`: two different listed paths of one size whose
      hashes agree lie together in one reported group. */
  lemma DuplicatesComplete(a: Analyzer, root: Listing, hash: string -> Option<string>, e1: FileEntry, e2: FileEntry)
    requires e1 in Listed(Walk(a, root), a.minFileSize) && e2 in Listed(Walk(a, root), a.minFileSize)
    requires e1.path != e2.path && e1.sizeBytes == e2.sizeBytes
    requires hash(e1.path).Some? && hash(e1.path) == hash(e2.path)
    ensures exists g :: g in SortDesc(AllGroups(a, root, hash), WastedKey)
                        && g.hash == hash(e1.path).value && g.sizeBytes == e1.sizeBytes
                        && e1.path in g.files && e2.path in g.files
  {
    var listed := Listed(Walk(a, root), a.minFileSize);
    var bySize := SizedPaths(listed);
    var i1 :| 0 <= i1 < |listed| && listed[i1] == e1;
    var i2 :| 0 <= i2 < |listed| && listed[i2] == e2;
    assert bySize[i1] == (e1.sizeBytes, e1.path) && bySize[i2] == (e1.sizeBytes, e2.path);
    SizedPairsGrouped(bySize, hash, e1.sizeBytes, e1.path, e2.path, hash(e1.path).value);
    var all := AllGroups(a, root, hash);
    var g :| g in all && g.hash == hash(e1.path).value && g.sizeBytes == e1.sizeBytes
             && e1.path in g.files && e2.path in g.files;
    assert g in multiset(all);
    assert g in SortDesc(all, WastedKey);
  }

  /** No two groups have the same hash. */
  predicate HashesDistinct(gs: seq<DuplicateGroup>) {
    forall i, j :: 0 <= i < j < |gs| ==> gs[i].hash != gs[j].hash
  }

  /** No two groups have the same size and the same hash. */
  predicate SizeHashDistinct(gs: seq<DuplicateGroup>) {
    forall i, j :: 0 <= i < j < |gs| ==> gs[i].sizeBytes != gs[j].sizeBytes || gs[i].hash != gs[j].hash
  }

  lemma {:induction false} GroupsForHashesKeys(byHash: seq<(string, string)>, hashes: seq<string>, size: nat, g: DuplicateGroup)
    requires g in GroupsForHashes(byHash, hashes, size)
    ensures g.sizeBytes == size && g.hash in hashes
  {
    var n := |hashes| - 1;
    if g in GroupsForHashes(byHash, hashes[..n], size) {
      GroupsForHashesKeys(byHash, hashes[..n], size, g);
    }
  }

  lemma {:induction false} GroupsForHashesUnique(byHash: seq<(string, string)>, hashes: seq<string>, size: nat)
    requires forall i, j :: 0 <= i < j < |hashes| ==> hashes[i] != hashes[j]
    ensures HashesDistinct(GroupsForHashes(byHash, hashes, size))
  {
    if hashes != [] {
      var n := |hashes| - 1;
      var front := GroupsForHashes(byHash, hashes[..n], size);
      var gs := GroupsForHashes(byHash, hashes, size);
      GroupsForHashesUnique(byHash, hashes[..n], size);
      forall i, j | 0 <= i < j < |gs| ensures gs[i].hash != gs[j].hash {
        if j >= |front| {
          assert gs[j].hash == hashes[n];
          assert gs[i] == front[i];
          GroupsForHashesKeys(byHash, hashes[..n], size, front[i]);
        } else {
          assert gs[i] == front[i] && gs[j] == front[j];
        }
      }
    }
  }

  lemma {:induction false} GroupsOfSizeKeys(paths: seq<string>, size: nat, hash: string -> Option<string>)
    ensures forall g :: g in GroupsOfSize(paths, size, hash) ==> g.sizeBytes == size
    ensures HashesDistinct(GroupsOfSize(paths, size, hash))
  {
    if |paths| >= 2 {
      var byHash := Hashed(paths, hash);
      forall g | g in GroupsOfSize(paths, size, hash) ensures g.sizeBytes == size {
        GroupsForHashesKeys(byHash, DistinctKeys(byHash), size, g);
      }
      var hashes := DistinctKeys(byHash);
      assert forall i, j :: 0 <= i < j < |hashes| ==> hashes[i] != hashes[j];
      GroupsForHashesUnique(byHash, hashes, size);
      assert GroupsOfSize(paths, size, hash) == GroupsForHashes(byHash, hashes, size);
    }
  }

  lemma {:induction false} GroupsForSizesKeys(bySize: seq<(nat, string)>, sizes: seq<nat>, hash: string -> Option<string>, g: DuplicateGroup)
    requires g in GroupsForSizes(bySize, sizes, hash)
    ensures g.sizeBytes in sizes
  {
    var n := |sizes| - 1;
    if g in GroupsForSizes(bySize, sizes[..n], hash) {
      GroupsForSizesKeys(bySize, sizes[..n], hash, g);
    } else {
      GroupsOfSizeKeys(Matching(bySize, sizes[n]), sizes[n], hash);
    }
  }

  /** No two groups share both their size and their hash. */
  lemma {:induction false} GroupsForSizesUnique(bySize: seq<(nat, string)>, sizes: seq<nat>, hash: string -> Option<string>)
    requires forall i, j :: 0 <= i < j < |sizes| ==> sizes[i] != sizes[j]
    ensures SizeHashDistinct(GroupsForSizes(bySize, sizes, hash))
  {
    if sizes != [] {
      var n := |sizes| - 1;
      var front := GroupsForSizes(bySize, sizes[..n], hash);
      var last := GroupsOfSize(Matching(bySize, sizes[n]), sizes[n], hash);
      var gs := GroupsForSizes(bySize, sizes, hash);
      assert gs == front + last;
      GroupsForSizesUnique(bySize, sizes[..n], hash);
      GroupsOfSizeKeys(Matching(bySize, sizes[n]), sizes[n], hash);
      forall i, j | 0 <= i < j < |gs| ensures gs[i].sizeBytes != gs[j].sizeBytes || gs[i].hash != gs[j].hash {
        if j < |front| {
          assert gs[i] == front[i] && gs[j] == front[j];
        } else if i >= |front| {
          assert gs[i] == last[i - |front|] && gs[j] == last[j - |front|];
        } else {
          assert gs[i] == front[i] && gs[j] == last[j - |front|];
          GroupsForSizesKeys(bySize, sizes[..n], hash, front[i]);
          assert gs[j] in last;
        }
      }
    }
  }

  /** When every listed path names one file, so has one size, no path lies in two of the
      groups `find_duplicates` collects. */
  lemma DuplicateGroupsDisjoint(a: Analyzer, root: Listing, hash: string -> Option<string>)
    requires var listed := Listed(Walk(a, root), a.minFileSize);
             forall e1, e2 :: e1 in listed && e2 in listed && e1.path == e2.path ==> e1.sizeBytes == e2.sizeBytes
    ensures forall i, j, f ::
              0 <= i < j < |AllGroups(a, root, hash)| && f in AllGroups(a, root, hash)[i].files
              ==> f !in AllGroups(a, root, hash)[j].files
  {
    var listed := Listed(Walk(a, root), a.minFileSize);
    var bySize := SizedPaths(listed);
    var gs := AllGroups(a, root, hash);
    GroupsForSizesUnique(bySize, DistinctKeys(bySize), hash);
    forall i, j, f | 0 <= i < j < |gs| && f in gs[i].files ensures f !in gs[j].files {
      if f in gs[j].files {
        GroupsForSizesSound(bySize, DistinctKeys(bySize), hash, gs[i]);
        GroupsForSizesSound(bySize, DistinctKeys(bySize), hash, gs[j]);
      }
    }
  }

  // ---------------------------------------------------------------------------
  // The fast hash

  const ChunkSize: nat := 8192
  const FullHashLimit: nat := 1048576

  /** What `hash_file_fast` reads: the whole file, or chunks of up to 8 KiB starting at
      the given offsets. */
  datatype HashPlan = WholeFile | Chunks(offsets: seq<nat>)

  /** `hash_file_fast`'s choice of input for a file of `size` bytes: the whole file below
      1 MiB; otherwise the first chunk, the middle one when the file is longer than two
      chunks, and the last one when it is longer than one. */
  function PlanFor(size: nat): (p: HashPlan)
    ensures p.WholeFile? <==> size < FullHashLimit
  {
    if size < FullHashLimit then WholeFile
    else
      var middle := if size > ChunkSize * 2 then [size / 2 - ChunkSize / 2] else [];
      var last := if size > ChunkSize then [if size >= ChunkSize then size - ChunkSize else 0] else [];
      Chunks([0] + middle + last)
  }

  /** A file large enough for chunks always gets all three: the two size tests after the
      1 MiB one always pass. The chunks lie inside the file, in order, without overlap, and
      the last one ends at the end of the file. */
  lemma LargeFilesHashThreeChunks(size: nat)
    requires size >= FullHashLimit
    ensures PlanFor(size) == Chunks([0, size / 2 - ChunkSize / 2, size - ChunkSize])
    ensures var offsets := PlanFor(size).offsets;
            (forall k :: 0 <= k < 2 ==> offsets[k] + ChunkSize <= offsets[k + 1])
            && offsets[2] + ChunkSize == size
  {
    assert [0] + [size / 2 - ChunkSize / 2] + [size - ChunkSize] == [0, size / 2 - ChunkSize / 2, size - ChunkSize];
  }
}
