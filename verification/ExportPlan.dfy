/** `plan_tree_export` (sdk/api/export_tree.py) as a function of the tree: where each item below a folder goes, and
    which items are left out and why. */
module ExportPlan {
  import opened Basics
  import opened ExportPaths
  import opened Sorting

  /** A node of the tree as its provider lists it; `exportName` is the file name the SDK synthesizes for a leaf. */
  datatype Node = Node(
    name: string,
    exportName: Option<string>,
    isLeaf: bool,
    isFilesystem: bool,
    isDiagnostic: bool,
    children: seq<Node>)

  /** Where a node stands: the child indices on the way to it. */
  type Address = seq<nat>

  /** A destination, as its components below the output directory. */
  type Path = seq<string>

  datatype Reason = MissingData | UnsafeName | PathTaken

  datatype Fate = Planned | Skipped(reason: Reason) | Entered

  datatype TreeItem = TreeItem(at: Address, path: Path)

  datatype SkippedItem = SkippedItem(at: Address, relative: Path, reason: Reason)

  /** The plan under way: what `plan_tree_export` collects, and the fate of every node it reached. */
  datatype Plan = Plan(
    items: seq<TreeItem>,
    skipped: seq<SkippedItem>,
    files: set<Path>,
    dirs: set<Path>,
    folded: set<string>,
    fates: map<Address, Fate>)

  const Empty: Plan := Plan([], [], {}, {}, {}, map[])

  /** The system, and the output directory as text. */
  datatype Target = Target(sys: System, root: string)

  /** What paths are compared by. */
  function Norm(sys: System, path: Path): (r: Path)
    ensures |r| == |path|
  {
    seq(|path|, i requires 0 <= i < |path| => sys.norm(path[i]))
  }

  /** `str(path)` */
  function Text(t: Target, path: Path): string {
    if path == [] then t.root
    else Text(t, path[..|path| - 1]) + (if t.sys.windows then "\\" else "/") + path[|path| - 1]
  }

  /** `str(path).casefold()` */
  function Folded(t: Target, path: Path): string { Map(t.sys.fold, Text(t, path)) }

  // ------------------------------------------------------------------------------------------------------
  // first_free
  // ------------------------------------------------------------------------------------------------------

  function Candidate(name: string, number: nat): string {
    if number <= 1 then name else Numbered(name, number)
  }

  function CandidateKey(t: Target, segments: Path, name: string, number: nat): string {
    Folded(t, segments + [Candidate(name, number)])
  }

  /** Every candidate below `number` is claimed. */
  ghost predicate Tried(t: Target, claimed: set<string>, segments: Path, name: string, number: nat) {
    forall m :: 1 <= m < number ==> CandidateKey(t, segments, name, m) in claimed
  }

  ghost function TriedKeys(t: Target, segments: Path, name: string, number: nat): set<string> {
    if number <= 2 then {} else TriedKeys(t, segments, name, number - 1) + {CandidateKey(t, segments, name, number - 1)}
  }

  lemma FoldedEnd(t: Target, segments: Path, last: string)
    ensures Folded(t, segments + [last])
            == Map(t.sys.fold, Text(t, segments) + if t.sys.windows then "\\" else "/") + Map(t.sys.fold, last)
  {
    assert (segments + [last])[..|segments|] == segments;
    MapAppends(t.sys.fold, Text(t, segments) + if t.sys.windows then "\\" else "/", last);
  }

  lemma CandidateKeysDiffer(t: Target, segments: Path, name: string, n: nat, m: nat)
    requires Sound(t.sys) && 1 < n && 1 < m && CandidateKey(t, segments, name, n) == CandidateKey(t, segments, name, m)
    ensures n == m
  {
    hide Folded, Map, Text, Sound;
    FoldedEnd(t, segments, Numbered(name, n));
    FoldedEnd(t, segments, Numbered(name, m));
    var above := Map(t.sys.fold, Text(t, segments) + if t.sys.windows then "\\" else "/");
    var (x, y) := (Map(t.sys.fold, Numbered(name, n)), Map(t.sys.fold, Numbered(name, m)));
    assert (above + x)[|above|..] == x && (above + y)[|above|..] == y;
    NumberedInjective(t.sys, name, n, m);
  }

  lemma {:induction false} TriedKeysAre(t: Target, segments: Path, name: string, number: nat, claimed: set<string>)
    requires Sound(t.sys) && Tried(t, claimed, segments, name, number)
    ensures TriedKeys(t, segments, name, number) <= claimed
    ensures forall k :: k in TriedKeys(t, segments, name, number) ==>
              exists m: nat :: 1 < m < number && k == CandidateKey(t, segments, name, m)
    ensures number >= 2 ==> |TriedKeys(t, segments, name, number)| == number - 2
  {
    hide CandidateKey;
    if number > 2 {
      TriedKeysAre(t, segments, name, number - 1, claimed);
      if CandidateKey(t, segments, name, number - 1) in TriedKeys(t, segments, name, number - 1) {
        var m: nat :| 1 < m < number - 1
                      && CandidateKey(t, segments, name, number - 1) == CandidateKey(t, segments, name, m);
        CandidateKeysDiffer(t, segments, name, number - 1, m);
      }
    }
  }

  /** However many candidates were tried, the claimed names outnumber them: the search ends. */
  lemma TriedBound(t: Target, claimed: set<string>, segments: Path, name: string, number: nat)
    requires Sound(t.sys) && Tried(t, claimed, segments, name, number)
    ensures number <= |claimed| + 2
  {
    TriedKeysAre(t, segments, name, number, claimed);
    SubsetSize(TriedKeys(t, segments, name, number), claimed);
  }

  lemma TriedNext(t: Target, claimed: set<string>, segments: Path, name: string, number: nat)
    requires Tried(t, claimed, segments, name, number) && CandidateKey(t, segments, name, number) in claimed
    ensures Tried(t, claimed, segments, name, number + 1)
  {
  }

  /** The number of the first free candidate: the least whose folded path nothing has claimed. */
  function FirstFree(t: Target, claimed: set<string>, segments: Path, name: string, number: nat): (n: nat)
    requires Sound(t.sys) && number >= 1 && Tried(t, claimed, segments, name, number)
    ensures n >= number && CandidateKey(t, segments, name, n) !in claimed
    ensures Tried(t, claimed, segments, name, n)
    decreases |claimed| + 2 - number
  {
    hide CandidateKey, Sound, Tried;
    TriedBound(t, claimed, segments, name, number);
    if CandidateKey(t, segments, name, number) !in claimed then number
    else
      TriedNext(t, claimed, segments, name, number);
      TriedBound(t, claimed, segments, name, number + 1);
      FirstFree(t, claimed, segments, name, number + 1)
  }

  // ------------------------------------------------------------------------------------------------------
  // The walk
  // ------------------------------------------------------------------------------------------------------

  predicate Synthesized(child: Node) { child.isLeaf && child.exportName.Some? }

  function NameOf(t: Target, child: Node): string {
    if Synthesized(child) then FileName(t.sys, child.exportName.value) else child.name
  }

  /** The destination of a child below `segments`. */
  function Destination(t: Target, claimed: set<string>, child: Node, segments: Path): Path
    requires Sound(t.sys)
  {
    var name := NameOf(t, child);
    if Synthesized(child) then segments + [Candidate(name, FirstFree(t, claimed, segments, name, 1))]
    else segments + [name]
  }

  /** Whether another item already takes the path: the same file, a folder where a file goes, or a file above. */
  predicate Taken(sys: System, s: Plan, path: Path, isLeaf: bool) {
    || Norm(sys, path) in s.files
    || (isLeaf && Norm(sys, path) in s.dirs)
    || exists k :: 0 <= k < |path| && Norm(sys, path[..k]) in s.files
  }

  function Skip(s: Plan, at: Address, relative: Path, reason: Reason): Plan {
    s.(skipped := s.skipped + [SkippedItem(at, relative, reason)], fates := s.fates[at := Skipped(reason)])
  }

  function Claim(t: Target, s: Plan, at: Address, path: Path, isLeaf: bool): Plan {
    var s' := s.(folded := s.folded + {Folded(t, path)});
    if isLeaf then
      s'.(items := s.items + [TreeItem(at, path)], files := s.files + {Norm(t.sys, path)}, fates := s.fates[at := Planned])
    else s'.(dirs := s.dirs + {Norm(t.sys, path)}, fates := s.fates[at := Entered])
  }

  /** What the walk does with one child, before it descends. */
  function Visit(t: Target, s: Plan, child: Node, at: Address, segments: Path): Plan
    requires Sound(t.sys)
  {
    if child.isFilesystem then s
    else if child.isDiagnostic then Skip(s, at, segments + [NameOf(t, child)], MissingData)
    else if !AllSafe(t.sys, segments + [NameOf(t, child)]) then Skip(s, at, segments + [NameOf(t, child)], UnsafeName)
    else
      var path := Destination(t, s.folded, child, segments);
      if Taken(t.sys, s, path, child.isLeaf) then Skip(s, at, path, PathTaken)
      else Claim(t, s, at, path, child.isLeaf)
  }

  predicate Descends(s: Plan, at: Address) { at in s.fates && s.fates[at] == Entered }

  /** The walk over the children of `node` from the `i`-th on. */
  function Walk(t: Target, s: Plan, node: Node, i: nat, at: Address, segments: Path): Plan
    requires Sound(t.sys) && i <= |node.children|
    decreases node, |node.children| - i
  {
    if i == |node.children| then s
    else
      var child := node.children[i];
      var s1 := Visit(t, s, child, at + [i], segments);
      var s2 := if !child.isFilesystem && Descends(s1, at + [i]) then
                  Walk(t, s1, child, 0, at + [i], segments + [child.name])
                else s1;
      Walk(t, s2, node, i + 1, at, segments)
  }

  function PlanTree(t: Target, folder: Node): Plan
    requires Sound(t.sys)
  {
    Walk(t, Empty, folder, 0, [], [])
  }

  // ------------------------------------------------------------------------------------------------------
  // What the walk keeps
  // ------------------------------------------------------------------------------------------------------

  /** Each planned path is made of safe components and claimed as a file, once. */
  ghost predicate ItemsClaimed(sys: System, items: seq<TreeItem>, files: set<Path>) {
    && (forall i :: 0 <= i < |items| ==>
          items[i].path != [] && AllSafe(sys, items[i].path) && Norm(sys, items[i].path) in files)
    && (forall i, j :: 0 <= i < j < |items| ==> Norm(sys, items[i].path) != Norm(sys, items[j].path))
  }

  /** No path is both a file and a folder, and what is above a claimed path is a claimed folder. */
  ghost predicate Layered(files: set<Path>, dirs: set<Path>) {
    && files !! dirs && [] !in files
    && forall p, k :: p in files + dirs && 0 < k < |p| ==> p[..k] in dirs
  }

  /** Whatever is claimed is claimed case-folded. */
  ghost predicate FoldedToo(t: Target, s: Plan) {
    forall path: Path :: Norm(t.sys, path) in s.files + s.dirs ==> Folded(t, path) in s.folded
  }

  /** A path skipped as taken is a claimed file or folder, or below a claimed file; and claimed files are items. */
  ghost predicate Excused(sys: System, s: Plan) {
    && (forall i :: 0 <= i < |s.skipped| && s.skipped[i].reason == PathTaken ==> Taken(sys, s, s.skipped[i].relative, true))
    && (forall p :: p in s.files ==> exists i :: 0 <= i < |s.items| && Norm(sys, s.items[i].path) == p)
  }

  ghost predicate Inv(t: Target, s: Plan) {
    ItemsClaimed(t.sys, s.items, s.files) && Layered(s.files, s.dirs) && FoldedToo(t, s) && Excused(t.sys, s)
  }

  /** The walk is inside a claimed folder, or at the top. */
  ghost predicate Inside(t: Target, s: Plan, segments: Path) {
    AllSafe(t.sys, segments) && (segments == [] || Norm(t.sys, segments) in s.dirs)
  }

  lemma NormPrefix(sys: System, path: Path, k: nat)
    requires k <= |path|
    ensures Norm(sys, path[..k]) == Norm(sys, path)[..k]
  {
  }

  /** Paths that compare equal fold alike. */
  lemma {:induction false} NormFolds(t: Target, a: Path, b: Path)
    requires Sound(t.sys) && Norm(t.sys, a) == Norm(t.sys, b)
    ensures Folded(t, a) == Folded(t, b)
  {
    hide Sound, Map, Text, Folded;
    assert |a| == |b| by { assert |Norm(t.sys, a)| == |a|; }
    if a == [] {
      assert b == a;
    } else {
      var n := |a| - 1;
      NormPrefix(t.sys, a, n);
      NormPrefix(t.sys, b, n);
      NormFolds(t, a[..n], b[..n]);
      assert t.sys.norm(a[n]) == Norm(t.sys, a)[n] == t.sys.norm(b[n]);
      assert Map(t.sys.fold, a[n]) == Map(t.sys.fold, b[n]) by { NormMeansFold(t.sys, a[n], b[n]); }
      FoldedSplit(t, a);
      FoldedSplit(t, b);
    }
  }

  lemma NormMeansFold(sys: System, a: string, b: string)
    requires Sound(sys) && sys.norm(a) == sys.norm(b)
    ensures Map(sys.fold, a) == Map(sys.fold, b)
  {
  }

  lemma FoldedSplit(t: Target, a: Path)
    requires a != []
    ensures Folded(t, a) == Folded(t, a[..|a| - 1]) + Map(t.sys.fold, if t.sys.windows then "\\" else "/")
                            + Map(t.sys.fold, a[|a| - 1])
  {
    var n := |a| - 1;
    FoldedEnd(t, a[..n], a[n]);
    assert a == a[..n] + [a[n]];
    MapAppends(t.sys.fold, Text(t, a[..n]), if t.sys.windows then "\\" else "/");
  }

  lemma ClaimKeeps(t: Target, s: Plan, at: Address, path: Path, isLeaf: bool)
    requires Sound(t.sys) && Inv(t, s) && path != [] && AllSafe(t.sys, path)
    requires |path| > 1 ==> Norm(t.sys, path[..|path| - 1]) in s.dirs
    requires !Taken(t.sys, s, path, isLeaf)
    ensures Inv(t, Claim(t, s, at, path, isLeaf))
  {
    hide AllSafe, Folded, Sound, Excused;
    ClaimExcuses(t, s, at, path, isLeaf);
    var s' := Claim(t, s, at, path, isLeaf);
    hide Norm;
    AboveIsDir(t.sys, s, path);
    forall other: Path | Norm(t.sys, other) in s'.files + s'.dirs ensures Folded(t, other) in s'.folded {
      if Norm(t.sys, other) == Norm(t.sys, path) { NormFolds(t, other, path); }
    }
  }

  lemma AboveIsDir(sys: System, s: Plan, path: Path)
    requires Layered(s.files, s.dirs) && (|path| > 1 ==> Norm(sys, path[..|path| - 1]) in s.dirs)
    ensures forall k :: 0 < k < |path| ==> Norm(sys, path)[..k] in s.dirs
    ensures |Norm(sys, path)| == |path|
  {
    forall k | 0 < k < |path| ensures Norm(sys, path)[..k] in s.dirs {
      var up := path[..|path| - 1];
      NormPrefix(sys, path, |path| - 1);
      if k < |path| - 1 {
        assert Norm(sys, up)[..k] in s.dirs;
        assert Norm(sys, path)[..k] == Norm(sys, up)[..k];
      }
    }
  }

  /** A synthesized name is safe, whatever its number. */
  lemma DestinationIsSafe(t: Target, claimed: set<string>, child: Node, segments: Path)
    requires Sound(t.sys) && AllSafe(t.sys, segments + [NameOf(t, child)])
    ensures AllSafe(t.sys, Destination(t, claimed, child, segments))
    ensures |Destination(t, claimed, child, segments)| == |segments| + 1
    ensures Destination(t, claimed, child, segments)[..|segments|] == segments
    ensures !child.isLeaf ==> Destination(t, claimed, child, segments) == segments + [child.name]
  {
    hide Safe, FileName;
    var name := NameOf(t, child);
    assert Safe(t.sys, (segments + [name])[|segments|]);
    forall i | 0 <= i < |segments| ensures Safe(t.sys, segments[i]) { assert segments[i] == (segments + [name])[i]; }
    forall n: nat ensures Safe(t.sys, Numbered(name, n)) { NumberedIsSafe(t.sys, name, n); }
  }

  lemma VisitKeeps(t: Target, s: Plan, child: Node, at: Address, segments: Path)
    requires Sound(t.sys) && Inv(t, s) && Inside(t, s, segments)
    ensures var s' := Visit(t, s, child, at, segments);
            && Inv(t, s') && s.dirs <= s'.dirs && s.files <= s'.files && Inside(t, s', segments)
            && (!child.isFilesystem && Descends(s', at) ==> Inside(t, s', segments + [child.name]))
  {
    hide Sound, AllSafe, Taken, ItemsClaimed, Layered, FoldedToo, Excused, Norm, Destination, NameOf;
    var named := segments + [NameOf(t, child)];
    if !child.isFilesystem {
      if child.isDiagnostic {
        SkipKeeps(t, s, at, named, MissingData, true);
      } else if !AllSafe(t.sys, named) {
        SkipKeeps(t, s, at, named, UnsafeName, true);
      } else {
        var path := Destination(t, s.folded, child, segments);
        DestinationIsSafe(t, s.folded, child, segments);
        if Taken(t.sys, s, path, child.isLeaf) {
          SkipKeeps(t, s, at, path, PathTaken, child.isLeaf);
        } else {
          ClaimKeeps(t, s, at, path, child.isLeaf);
        }
      }
    }
  }

  lemma SkipKeeps(t: Target, s: Plan, at: Address, relative: Path, reason: Reason, isLeaf: bool)
    requires Inv(t, s) && (reason == PathTaken ==> Taken(t.sys, s, relative, isLeaf))
    ensures Inv(t, Skip(s, at, relative, reason))
  {
    hide Norm, Folded, AllSafe;
    var s' := Skip(s, at, relative, reason);
    forall i | 0 <= i < |s'.skipped| && s'.skipped[i].reason == PathTaken
      ensures Taken(t.sys, s', s'.skipped[i].relative, true)
    {
      if i < |s.skipped| { assert Taken(t.sys, s, s.skipped[i].relative, true); }
    }
  }

  lemma ClaimExcuses(t: Target, s: Plan, at: Address, path: Path, isLeaf: bool)
    requires Excused(t.sys, s)
    ensures Excused(t.sys, Claim(t, s, at, path, isLeaf))
  {
    hide Norm, Folded;
    var s' := Claim(t, s, at, path, isLeaf);
    forall i | 0 <= i < |s'.skipped| && s'.skipped[i].reason == PathTaken
      ensures Taken(t.sys, s', s'.skipped[i].relative, true)
    {
      assert Taken(t.sys, s, s.skipped[i].relative, true);
    }
    forall p | p in s'.files ensures exists i :: 0 <= i < |s'.items| && Norm(t.sys, s'.items[i].path) == p {
      if p in s.files {
        var i :| 0 <= i < |s.items| && Norm(t.sys, s.items[i].path) == p;
        assert s'.items[i] == s.items[i];
      } else {
        assert s'.items[|s.items|].path == path;
      }
    }
  }

  lemma {:induction false} WalkKeeps(t: Target, s: Plan, node: Node, i: nat, at: Address, segments: Path)
    requires Sound(t.sys) && i <= |node.children| && Inv(t, s) && Inside(t, s, segments)
    ensures var s' := Walk(t, s, node, i, at, segments); Inv(t, s') && s.dirs <= s'.dirs && s.files <= s'.files
    decreases node, |node.children| - i
  {
    hide Sound, Inv, AllSafe, Norm, Visit;
    if i < |node.children| {
      var child := node.children[i];
      var s1 := Visit(t, s, child, at + [i], segments);
      VisitKeeps(t, s, child, at + [i], segments);
      if !child.isFilesystem && Descends(s1, at + [i]) {
        WalkKeeps(t, s1, child, 0, at + [i], segments + [child.name]);
        WalkKeeps(t, Walk(t, s1, child, 0, at + [i], segments + [child.name]), node, i + 1, at, segments);
      } else {
        WalkKeeps(t, s1, node, i + 1, at, segments);
      }
    }
  }

  lemma EmptyKeeps(t: Target)
    ensures Inv(t, Empty) && Inside(t, Empty, [])
  {
  }

  /** Planned paths are safe, pairwise different, and none is above another; no planned file is also a planned folder.
      */
  lemma PlanIsDisjoint(t: Target, folder: Node)
    requires Sound(t.sys)
    ensures var s := PlanTree(t, folder);
            && (forall i :: 0 <= i < |s.items| ==> s.items[i].path != [] && AllSafe(t.sys, s.items[i].path))
            && (forall i, j, k :: 0 <= i < |s.items| && 0 <= j < |s.items| && i != j && 0 <= k <= |s.items[j].path| ==>
                  Norm(t.sys, s.items[i].path) != Norm(t.sys, s.items[j].path[..k]))
            && s.files !! s.dirs
  {
    hide Sound, AllSafe, Norm, Walk;
    EmptyKeeps(t);
    WalkKeeps(t, Empty, folder, 0, [], []);
    var s := PlanTree(t, folder);
    forall i, j, k | 0 <= i < |s.items| && 0 <= j < |s.items| && i != j && 0 <= k <= |s.items[j].path|
      ensures Norm(t.sys, s.items[i].path) != Norm(t.sys, s.items[j].path[..k])
    {
      var (p, q) := (s.items[i].path, s.items[j].path);
      NormPrefix(t.sys, q, k);
      assert |Norm(t.sys, q)| == |q| && |Norm(t.sys, p)| == |p|;
      assert Norm(t.sys, q)[..|q|] == Norm(t.sys, q);
      if 0 < k < |q| { assert Norm(t.sys, q)[..k] in s.dirs; }
    }
  }

  /** What was skipped as taken really is taken: by a planned item of that path or above it, or by a folder. */
  lemma TakenIsTaken(t: Target, folder: Node, i: nat)
    requires Sound(t.sys)
    requires i < |PlanTree(t, folder).skipped| && PlanTree(t, folder).skipped[i].reason == PathTaken
    ensures var (s, path) := (PlanTree(t, folder), PlanTree(t, folder).skipped[i].relative);
            Norm(t.sys, path) in s.dirs
            || exists j, k :: 0 <= j < |s.items| && 0 <= k <= |path| && Norm(t.sys, s.items[j].path) == Norm(t.sys, path[..k])
  {
    hide Sound, AllSafe, Norm, Walk, ItemsClaimed, Layered, FoldedToo;
    EmptyKeeps(t);
    WalkKeeps(t, Empty, folder, 0, [], []);
    var (s, path) := (PlanTree(t, folder), PlanTree(t, folder).skipped[i].relative);
    assert Taken(t.sys, s, path, true);
    assert path[..|path|] == path;
  }

  /** A leaf with a synthesized name that is not a placeholder is always planned, never skipped. */
  lemma SynthesizedIsPlanned(t: Target, s: Plan, child: Node, at: Address, segments: Path)
    requires Sound(t.sys) && Inv(t, s) && Inside(t, s, segments)
    requires Synthesized(child) && !child.isFilesystem && !child.isDiagnostic
    ensures var s' := Visit(t, s, child, at, segments);
            && at in s'.fates && s'.fates[at] == Planned && |s'.items| == |s.items| + 1
            && s'.items[|s.items|].at == at && s'.items[|s.items|].path[..|segments|] == segments
  {
    hide Sound, FileName, Folded, Safe;
    var name := NameOf(t, child);
    FileNameIsSafe(t.sys, child.exportName.value);
    assert AllSafe(t.sys, segments + [name]);
    DestinationIsSafe(t, s.folded, child, segments);
    var path := Destination(t, s.folded, child, segments);
    assert Folded(t, path) !in s.folded;
    assert Norm(t.sys, path) !in s.files + s.dirs;
    forall k | 0 <= k < |path| ensures Norm(t.sys, path[..k]) !in s.files {
      NormPrefix(t.sys, segments, k);
      assert path[..k] == segments[..k];
      assert |Norm(t.sys, segments)| == |segments|;
      assert Norm(t.sys, segments)[..|segments|] == Norm(t.sys, segments);
    }
  }

  // ------------------------------------------------------------------------------------------------------
  // Every node the walk reaches is dealt with once
  // ------------------------------------------------------------------------------------------------------

  function NodeAt(root: Node, at: Address): Option<Node> {
    if at == [] then Some(root)
    else if at[0] < |root.children| then NodeAt(root.children[at[0]], at[1..])
    else None
  }

  lemma {:induction false} NodeBelow(root: Node, at: Address, i: nat)
    requires NodeAt(root, at).Some?
    ensures NodeAt(root, at + [i])
            == if i < |NodeAt(root, at).value.children| then Some(NodeAt(root, at).value.children[i]) else None
  {
    if at == [] {
      assert [i][1..] == [];
    } else {
      assert (at + [i])[1..] == at[1..] + [i];
      NodeBelow(root.children[at[0]], at[1..], i);
    }
  }

  /** The nodes reached below `node` from its `i`-th child on: every child but a filesystem view, and what is below each
      child that was entered. */
  ghost function Reached(fates: map<Address, Fate>, node: Node, i: nat, at: Address): set<Address>
    requires i <= |node.children|
    decreases node, |node.children| - i
  {
    if i == |node.children| then {}
    else
      var (child, here) := (node.children[i], at + [i]);
      (if child.isFilesystem then {}
       else {here} + if here in fates && fates[here] == Entered then Reached(fates, child, 0, here) else {})
      + Reached(fates, node, i + 1, at)
  }

  /** Whether the fate is the one its node calls for: a placeholder is missing data, a name from the backup that is not
      one safe component is unsafe, a synthesized name is always planned, a leaf is never entered and a folder never
      planned. */
  ghost predicate Fits(t: Target, child: Node, fate: Fate) {
    && !child.isFilesystem
    && (fate == Skipped(MissingData) <==> child.isDiagnostic)
    && (fate == Skipped(UnsafeName) <==>
          !child.isDiagnostic && !(child.isLeaf && child.exportName.Some?) && !Safe(t.sys, child.name))
    && (child.isLeaf && child.exportName.Some? && !child.isDiagnostic ==> fate == Planned)
    && (fate == Planned ==> child.isLeaf) && (fate == Entered ==> !child.isLeaf)
  }

  ghost predicate FatesFit(t: Target, root: Node, fates: map<Address, Fate>) {
    forall a :: a in fates ==> NodeAt(root, a).Some? && Fits(t, NodeAt(root, a).value, fates[a])
  }

  /** The names on the way to `at`. */
  function Names(root: Node, at: Address): Path
    requires NodeAt(root, at).Some?
    decreases |at|
  {
    if at == [] then [] else [root.children[at[0]].name] + Names(root.children[at[0]], at[1..])
  }

  lemma {:induction false} NamesBelow(root: Node, at: Address, i: nat)
    requires NodeAt(root, at).Some? && i < |NodeAt(root, at).value.children|
    ensures NodeAt(root, at + [i]) == Some(NodeAt(root, at).value.children[i])
    ensures Names(root, at + [i]) == Names(root, at) + [NodeAt(root, at).value.children[i].name]
    decreases |at|
  {
    NodeBelow(root, at, i);
    if at == [] {
      assert [i][1..] == [];
    } else {
      assert (at + [i])[1..] == at[1..] + [i];
      NamesBelow(root.children[at[0]], at[1..], i);
    }
  }

  /** A name a child may get: the one the SDK synthesizes for a leaf, made safe and perhaps numbered, and else its own,
      unchanged. */
  ghost predicate MayBeNamed(t: Target, child: Node, name: string) {
    if child.isLeaf && child.exportName.Some? then
      name == FileName(t.sys, child.exportName.value)
      || exists number: nat :: number > 1 && name == Numbered(FileName(t.sys, child.exportName.value), number)
    else name == child.name
  }

  /** The path lies exactly below the names of the node's folders, under a name the node may get. */
  ghost predicate Goes(t: Target, root: Node, at: Address, path: Path) {
    var n := |at| - 1;
    && n >= 0 && NodeAt(root, at).Some? && NodeAt(root, at[..n]).Some?
    && path != [] && path[..|path| - 1] == Names(root, at[..n])
    && MayBeNamed(t, NodeAt(root, at).value, path[|path| - 1])
  }

  /** Items and skips are the planned and the skipped nodes, each once. */
  ghost predicate Booked(t: Target, root: Node, s: Plan) {
    && (forall i :: 0 <= i < |s.items| ==>
          s.items[i].at in s.fates && s.fates[s.items[i].at] == Planned
          && Goes(t, root, s.items[i].at, s.items[i].path))
    && (forall i, j :: 0 <= i < j < |s.items| ==> s.items[i].at != s.items[j].at)
    && (forall i :: 0 <= i < |s.skipped| ==>
          s.skipped[i].at in s.fates && s.fates[s.skipped[i].at] == Skipped(s.skipped[i].reason)
          && Goes(t, root, s.skipped[i].at, s.skipped[i].relative))
    && (forall i, j :: 0 <= i < j < |s.skipped| ==> s.skipped[i].at != s.skipped[j].at)
    && (forall a :: a in s.fates && s.fates[a] == Planned ==> HasItem(s.items, a))
    && (forall a :: a in s.fates && s.fates[a].Skipped? ==> HasSkip(s.skipped, a))
  }

  predicate HasItem(items: seq<TreeItem>, a: Address) { exists i :: 0 <= i < |items| && items[i].at == a }

  predicate HasSkip(skipped: seq<SkippedItem>, a: Address) { exists i :: 0 <= i < |skipped| && skipped[i].at == a }

  /** `b` is below child `i` or a later one of the node at `at`, or that child itself. */
  predicate From(at: Address, i: nat, b: Address) { |b| > |at| && b[..|at|] == at && b[|at|] >= i }

  predicate Below(at: Address, b: Address) { |b| >= |at| && b[..|at|] == at }

  lemma FromBelow(at: Address, i: nat, b: Address)
    ensures From(at, i, b) <==> Below(at + [i], b) || From(at, i + 1, b)
    ensures Below(at + [i], b) ==> !From(at, i + 1, b)
    ensures Below(at + [i], b) <==> b == at + [i] || From(at + [i], 0, b)
    ensures !From(b, 0, b)
  {
    if Below(at + [i], b) {
      assert b[..|at|] == b[..|at| + 1][..|at|] == at;
      assert b[|at|] == b[..|at| + 1][|at|];
      if |b| == |at| + 1 { assert b == b[..|at| + 1]; }
    }
    if From(at, i, b) && b[|at|] == i {
      assert b[..|at| + 1] == b[..|at|] + [b[|at|]];
    }
  }

  /** What a stretch of the walk adds: fates of new nodes, which all are where it went. */
  ghost predicate Grows(f: map<Address, Fate>, f': map<Address, Fate>) {
    forall a :: a in f ==> a in f' && f'[a] == f[a]
  }

  lemma {:induction false} ReachedStays(f: map<Address, Fate>, f': map<Address, Fate>, node: Node, i: nat, at: Address)
    requires i <= |node.children| && Grows(f, f') && Reached(f, node, i, at) <= f.Keys
    ensures Reached(f', node, i, at) == Reached(f, node, i, at)
    decreases node, |node.children| - i
  {
    if i < |node.children| {
      var (child, here) := (node.children[i], at + [i]);
      ReachedStays(f, f', node, i + 1, at);
      if !child.isFilesystem && here in f && f[here] == Entered {
        ReachedStays(f, f', child, 0, here);
      }
    }
  }

  lemma SkipBooks(t: Target, root: Node, s: Plan, here: Address, relative: Path, reason: Reason)
    requires Booked(t, root, s) && here !in s.fates && Goes(t, root, here, relative)
    ensures Booked(t, root, Skip(s, here, relative, reason))
  {
    hide Goes;
    var s' := Skip(s, here, relative, reason);
    assert s'.skipped[|s.skipped|].at == here;
    forall a | a in s.fates && s.fates[a].Skipped? ensures HasSkip(s'.skipped, a) {
      var i :| 0 <= i < |s.skipped| && s.skipped[i].at == a;
      assert s'.skipped[i].at == a;
    }
  }

  lemma ClaimBooks(t: Target, root: Node, s: Plan, here: Address, path: Path, isLeaf: bool)
    requires Booked(t, root, s) && here !in s.fates && (isLeaf ==> Goes(t, root, here, path))
    ensures Booked(t, root, Claim(t, s, here, path, isLeaf))
  {
    hide Goes, Folded, Norm;
    var s' := Claim(t, s, here, path, isLeaf);
    if isLeaf { assert s'.items[|s.items|].at == here; }
    forall a | a in s.fates && s.fates[a] == Planned ensures HasItem(s'.items, a) {
      var i :| 0 <= i < |s.items| && s.items[i].at == a;
      assert s'.items[i].at == a;
    }
  }

  /** The path a child is claimed under is the one its place and name call for, and so is the one it is skipped under. */
  lemma DestinationFits(t: Target, root: Node, claimed: set<string>, at: Address, i: nat)
    requires Sound(t.sys) && NodeAt(root, at).Some? && i < |NodeAt(root, at).value.children|
    ensures var (child, segments) := (NodeAt(root, at).value.children[i], Names(root, at));
            && Goes(t, root, at + [i], Destination(t, claimed, child, segments))
            && Goes(t, root, at + [i], segments + [NameOf(t, child)])
  {
    hide NodeAt, Names, FileName, Numbered, CandidateKey, Sound;
    var child := NodeAt(root, at).value.children[i];
    NamesBelow(root, at, i);
    assert (at + [i])[..|at + [i]| - 1] == at;
    var name := NameOf(t, child);
    var number := if Synthesized(child) then FirstFree(t, claimed, Names(root, at), name, 1) else 1;
    var path := Names(root, at) + [Candidate(name, number)];
    assert Destination(t, claimed, child, Names(root, at)) == path;
    assert path[..|path| - 1] == Names(root, at);
    assert (Names(root, at) + [name])[..|Names(root, at)|] == Names(root, at);
  }

  lemma VisitBooks(t: Target, root: Node, s: Plan, child: Node, at: Address, i: nat, segments: Path)
    requires Sound(t.sys) && Inv(t, s) && Inside(t, s, segments) && Booked(t, root, s) && FatesFit(t, root, s.fates)
    requires NodeAt(root, at).Some? && i < |NodeAt(root, at).value.children| && child == NodeAt(root, at).value.children[i]
    requires segments == Names(root, at) && at + [i] !in s.fates
    ensures var s' := Visit(t, s, child, at + [i], segments);
            && Booked(t, root, s') && FatesFit(t, root, s'.fates) && Grows(s.fates, s'.fates)
            && s'.fates.Keys == if child.isFilesystem then s.fates.Keys else s.fates.Keys + {at + [i]}
  {
    hide Sound, Safe, Inv, Inside, NodeAt, Names, FileName, Norm, Folded, Destination, Booked, Goes, NameOf;
    var (here, name) := (at + [i], NameOf(t, child));
    NamesBelow(root, at, i);
    if !child.isFilesystem {
      FateFits(t, s, child, here, segments);
      DestinationFits(t, root, s.folded, at, i);
      if child.isDiagnostic {
        SkipBooks(t, root, s, here, segments + [name], MissingData);
      } else if !AllSafe(t.sys, segments + [name]) {
        SkipBooks(t, root, s, here, segments + [name], UnsafeName);
      } else {
        var path := Destination(t, s.folded, child, segments);
        if Taken(t.sys, s, path, child.isLeaf) {
          SkipBooks(t, root, s, here, path, PathTaken);
        } else {
          ClaimBooks(t, root, s, here, path, child.isLeaf);
        }
      }
    }
  }

  lemma FateFits(t: Target, s: Plan, child: Node, here: Address, segments: Path)
    requires Sound(t.sys) && Inv(t, s) && Inside(t, s, segments) && !child.isFilesystem
    ensures var s' := Visit(t, s, child, here, segments);
            here in s'.fates && Fits(t, child, s'.fates[here]) && s'.fates == s.fates[here := s'.fates[here]]
  {
    hide Sound, Safe, Inv, FileName, Folded, Destination, Taken, NameOf, Norm;
    var name := NameOf(t, child);
    assert (segments + [name])[|segments|] == name;
    assert Safe(t.sys, name) ==> AllSafe(t.sys, segments + [name]);
    if Synthesized(child) && !child.isDiagnostic { SynthesizedIsPlanned(t, s, child, here, segments); }
    NameIsOwn(t, child);
    if Synthesized(child) { SynthesizedIsSafe(t, child); }
  }

  lemma NameIsOwn(t: Target, child: Node)
    ensures !(child.isLeaf && child.exportName.Some?) ==> NameOf(t, child) == child.name
  {
  }

  lemma SynthesizedIsSafe(t: Target, child: Node)
    requires Sound(t.sys) && Synthesized(child)
    ensures Safe(t.sys, NameOf(t, child))
  {
    FileNameIsSafe(t.sys, child.exportName.value);
  }

  lemma {:induction false} WalkBooks(t: Target, root: Node, s: Plan, node: Node, i: nat, at: Address, segments: Path)
    requires Sound(t.sys) && Inv(t, s) && Inside(t, s, segments) && Booked(t, root, s) && FatesFit(t, root, s.fates)
    requires NodeAt(root, at) == Some(node) && i <= |node.children| && segments == Names(root, at)
    requires forall b :: b in s.fates ==> !From(at, i, b)
    ensures var s' := Walk(t, s, node, i, at, segments);
            && Booked(t, root, s') && FatesFit(t, root, s'.fates) && Grows(s.fates, s'.fates)
            && s'.fates.Keys == s.fates.Keys + Reached(s'.fates, node, i, at)
            && (forall b :: b in Reached(s'.fates, node, i, at) ==> From(at, i, b))
    decreases node, |node.children| - i
  {
    hide Sound, Inv, Inside, Booked, FatesFit, Visit, NodeAt, Names, From, Below;
    if i < |node.children| {
      var (child, here) := (node.children[i], at + [i]);
      var s1 := Visit(t, s, child, here, segments);
      forall b ensures From(at, i, b) <==> Below(here, b) || From(at, i + 1, b)
               ensures Below(here, b) ==> !From(at, i + 1, b)
               ensures Below(here, b) <==> b == here || From(here, 0, b)
      {
        FromBelow(at, i, b);
      }
      assert here !in s.fates by { assert From(at, i, here) by { FromBelow(at, i, here); } }
      NamesBelow(root, at, i);
      VisitKeeps(t, s, child, here, segments);
      VisitBooks(t, root, s, child, at, i, segments);
      assert forall b :: b in s1.fates ==> b in s.fates.Keys + {here};
      FromBelow(at, i, here);
      var s2 := s1;
      if !child.isFilesystem && Descends(s1, here) {
        WalkKeeps(t, s1, child, 0, here, segments + [child.name]);
        WalkBooks(t, root, s1, child, 0, here, segments + [child.name]);
        s2 := Walk(t, s1, child, 0, here, segments + [child.name]);
        assert forall b :: b in s2.fates ==> b in s1.fates.Keys || From(here, 0, b);
        StillInside(t, s1, s2, segments);
      }
      WalkBooks(t, root, s2, node, i + 1, at, segments);
      var s' := Walk(t, s2, node, i + 1, at, segments);
      if !child.isFilesystem && Descends(s1, here) {
        ReachedStays(s2.fates, s'.fates, child, 0, here);
      }
    }
  }

  lemma StillInside(t: Target, s: Plan, s': Plan, segments: Path)
    requires Inside(t, s, segments) && s.dirs <= s'.dirs
    ensures Inside(t, s', segments)
  {
  }

  /** Every node the walk reaches meets one fate, the one its kind and name call for, and is listed accordingly once;
      every item goes exactly below its folders. */
  lemma EveryNodeHandledOnce(t: Target, folder: Node)
    requires Sound(t.sys)
    ensures var s := PlanTree(t, folder);
            && s.fates.Keys == Reached(s.fates, folder, 0, [])
            && FatesFit(t, folder, s.fates) && Booked(t, folder, s)
  {
    EmptyKeeps(t);
    hide Sound, Inv, Walk;
    WalkBooks(t, folder, Empty, folder, 0, [], []);
  }
}
