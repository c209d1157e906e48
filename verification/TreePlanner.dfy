/** `plan_tree_export` (sdk/api/export_tree.py) itself: the lists and sets it grows, its search for a free name, and its
    recursive walk. */
module TreePlanner {
  import opened Basics
  import opened ExportPaths
  import opened ExportPlan

  class Planner {
    const target: Target
    var items: seq<TreeItem>
    var skipped: seq<SkippedItem>
    var claimedFiles: set<Path>
    var claimedDirs: set<Path>
    var claimedFolded: set<string>
    ghost var fates: map<Address, Fate>

    ghost function View(): Plan
      reads this
    {
      Plan(items, skipped, claimedFiles, claimedDirs, claimedFolded, fates)
    }

    constructor (target: Target)
      ensures this.target == target && View() == Empty
    {
      this.target := target;
      items, skipped, claimedFiles, claimedDirs, claimedFolded, fates := [], [], {}, {}, {}, map[];
    }

    /** `first_free`; `None` if `safe_export_join` refuses. */
    method FirstFreePath(segments: Path, name: string) returns (below: Option<Path>)
      requires Sound(target.sys)
      ensures below == if !AllSafe(target.sys, segments + [name]) then None
                       else Some(segments + [Candidate(name, FirstFree(target, claimedFolded, segments, name, 1))])
    {
      var candidate := segments + [name];
      var number := 1;
      while true
        invariant number >= 1 && candidate == segments + [Candidate(name, number)]
        invariant Tried(target, claimedFolded, segments, name, number)
        invariant FirstFree(target, claimedFolded, segments, name, number)
                  == FirstFree(target, claimedFolded, segments, name, 1)
        invariant AllSafe(target.sys, candidate) == AllSafe(target.sys, segments + [name])
        decreases |claimedFolded| + 2 - number
      {
        var joined := SafeExportJoin(target.sys, candidate);
        if joined == None {
          return None;
        }
        if Folded(target, candidate) !in claimedFolded {
          return Some(candidate);
        }
        TriedNext(target, claimedFolded, segments, name, number);
        TriedBound(target, claimedFolded, segments, name, number + 1);
        number := number + 1;
        candidate := segments + [Numbered(name, number)];
        CandidateIsSafe(segments, name, number);
      }
    }

    lemma CandidateIsSafe(segments: Path, name: string, number: nat)
      requires Sound(target.sys)
      requires AllSafe(target.sys, segments + [name])
      ensures AllSafe(target.sys, segments + [Candidate(name, number)])
    {
      hide Safe;
      assert Safe(target.sys, (segments + [name])[|segments|]);
      forall i | 0 <= i < |segments| ensures Safe(target.sys, segments[i]) {
        assert segments[i] == (segments + [name])[i];
      }
      NumberedIsSafe(target.sys, name, number);
    }

    /** Whether another item already takes `path`. */
    method PathTaken(path: Path, isLeaf: bool) returns (taken: bool)
      ensures taken == Taken(target.sys, View(), path, isLeaf)
    {
      if Norm(target.sys, path) in claimedFiles || (isLeaf && Norm(target.sys, path) in claimedDirs) {
        return true;
      }
      for k := 0 to |path|
        invariant forall j :: 0 <= j < k ==> Norm(target.sys, path[..j]) !in claimedFiles
      {
        if Norm(target.sys, path[..k]) in claimedFiles {
          return true;
        }
      }
      return false;
    }

    /** One round of `walk`'s loop, up to the descent. */
    method VisitChild(child: Node, at: Address, segments: Path) returns (descend: bool)
      requires Sound(target.sys)
      modifies this
      ensures View() == Visit(target, old(View()), child, at, segments)
      ensures descend == (!child.isFilesystem && Descends(View(), at))
    {
      hide Taken, Norm, Folded, Safe, FileName;
      descend := false;
      if child.isFilesystem {
        return;
      }
      var below := segments + [NameOf(target, child)];
      var relative := below;
      if child.isDiagnostic {
        SkipItem(at, relative, MissingData);
        return;
      }
      if Synthesized(child) {
        var free := FirstFreePath(segments, NameOf(target, child));
        if free == None {
          SkipItem(at, relative, UnsafeName);
          return;
        }
        below := free.value;
        relative := below;
      }
      var path := SafeExportJoin(target.sys, below);
      if AllSafe(target.sys, segments + [NameOf(target, child)]) {
        DestinationIsSafe(target, claimedFolded, child, segments);
      }
      if path == None {
        SkipItem(at, relative, UnsafeName);
        return;
      }
      var taken := PathTaken(below, child.isLeaf);
      if taken {
        SkipItem(at, relative, Reason.PathTaken);
        return;
      }
      claimedFolded := claimedFolded + {Folded(target, below)};
      if child.isLeaf {
        claimedFiles := claimedFiles + {Norm(target.sys, below)};
        items := items + [TreeItem(at, below)];
        fates := fates[at := Planned];
      } else {
        claimedDirs := claimedDirs + {Norm(target.sys, below)};
        fates := fates[at := Entered];
        descend := true;
      }
    }

    method SkipItem(at: Address, relative: Path, reason: Reason)
      modifies this`skipped, this`fates
      ensures View() == Skip(old(View()), at, relative, reason)
    {
      skipped := skipped + [SkippedItem(at, relative, reason)];
      fates := fates[at := Skipped(reason)];
    }

    /** `walk`: the children in provider order, each folder's own before the next. */
    method WalkChildren(node: Node, at: Address, segments: Path)
      requires Sound(target.sys)
      modifies this
      ensures View() == Walk(target, old(View()), node, 0, at, segments)
      decreases node
    {
      for i := 0 to |node.children|
        invariant Walk(target, View(), node, i, at, segments) == Walk(target, old(View()), node, 0, at, segments)
      {
        var child := node.children[i];
        var descend := VisitChild(child, at + [i], segments);
        if descend {
          WalkChildren(child, at + [i], segments + [child.name]);
        }
      }
    }
  }

  /** `plan_tree_export` */
  method PlanTreeExport(target: Target, folder: Node) returns (items: seq<TreeItem>, skipped: seq<SkippedItem>)
    requires Sound(target.sys)
    ensures items == PlanTree(target, folder).items && skipped == PlanTree(target, folder).skipped
  {
    var planner := new Planner(target);
    planner.WalkChildren(folder, [], []);
    return planner.items, planner.skipped;
  }
}
