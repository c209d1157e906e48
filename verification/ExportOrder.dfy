/** The order of `plan_tree_export` (sdk/api/export_tree.py): depth-first, in the order the provider lists, and who comes
    first keeps the path. */
module ExportOrder {
  import opened Basics
  import opened ExportPaths
  import opened ExportPlan

  /** `a` comes before `b` depth-first: it is above `b`, or in an earlier branch. */
  ghost predicate Precedes(a: Address, b: Address) { exists k: nat :: PartsAt(a, b, k) }

  predicate PartsAt(a: Address, b: Address, k: nat) {
    k <= |a| && k < |b| && a[..k] == b[..k] && (k == |a| || a[k] < b[k])
  }

  lemma PrecedesAll(a: Address, b: Address, c: Address)
    requires Precedes(a, b) && Precedes(b, c)
    ensures Precedes(a, c)
  {
    var j: nat :| PartsAt(a, b, j);
    var k: nat :| PartsAt(b, c, k);
    if j <= k {
      assert a[..j] == b[..j] == c[..j] by { assert b[..k][..j] == c[..k][..j]; }
      if j < k { assert b[j] == b[..k][j] == c[..k][j] == c[j]; }
      assert PartsAt(a, c, j);
    } else {
      assert a[..k] == b[..k] by { assert a[..j][..k] == b[..j][..k]; }
      assert a[k] == a[..j][k] == b[..j][k] == b[k];
      assert PartsAt(a, c, k);
    }
  }

  /** A node comes before what is below it, before its later siblings, and so does what is below it. */
  lemma PrecedesHere(at: Address, i: nat, j: nat)
    ensures Precedes(at + [i], at + [i] + [0]) && Precedes(at + [i], at + [i + 1]) && Precedes(at + [i] + [j], at + [i + 1])
    ensures !Precedes(at, at)
  {
    assert PartsAt(at + [i], at + [i] + [0], |at| + 1);
    assert PartsAt(at + [i], at + [i + 1], |at|);
    assert PartsAt(at + [i] + [j], at + [i + 1], |at|);
  }

  /** Whatever was dealt with comes before `at`. */
  ghost predicate AllPrecede(s: Plan, at: Address) {
    && (forall i :: 0 <= i < |s.items| ==> Precedes(s.items[i].at, at))
    && (forall i :: 0 <= i < |s.skipped| ==> Precedes(s.skipped[i].at, at))
    && (forall a :: a in s.fates ==> Precedes(a, at))
  }

  ghost predicate Ordered(s: Plan) {
    && (forall i, j :: 0 <= i < j < |s.items| ==> Precedes(s.items[i].at, s.items[j].at))
    && (forall i, j :: 0 <= i < j < |s.skipped| ==> Precedes(s.skipped[i].at, s.skipped[j].at))
  }

  /** Every claimed folder is one that was entered. */
  ghost predicate DirsEntered(t: Target, root: Node, s: Plan) {
    forall p :: p in s.dirs ==> exists d :: EnteredAs(t, root, s.fates, d, p)
  }

  ghost predicate EnteredAs(t: Target, root: Node, fates: map<Address, Fate>, d: Address, p: Path) {
    d in fates && fates[d] == Entered && NodeAt(root, d).Some? && Norm(t.sys, Names(root, d)) == p
  }

  /** An item before `at` has the path or one above it. */
  ghost predicate TakenByItem(t: Target, s: Plan, at: Address, path: Path) {
    exists j, k :: 0 <= j < |s.items| && 0 <= k <= |path| && Precedes(s.items[j].at, at)
                   && Norm(t.sys, s.items[j].path) == Norm(t.sys, path[..k])
  }

  /** A folder entered before `at` has the path. */
  ghost predicate TakenByFolder(t: Target, root: Node, s: Plan, at: Address, path: Path) {
    exists d :: Precedes(d, at) && EnteredAs(t, root, s.fates, d, Norm(t.sys, path))
  }

  predicate IsLeafAt(root: Node, at: Address) { NodeAt(root, at).Some? && NodeAt(root, at).value.isLeaf }

  /** What was skipped as taken was taken by something before it; a folder only by an item, as folders merge. */
  ghost predicate FirstServed(t: Target, root: Node, s: Plan) {
    forall i :: 0 <= i < |s.skipped| && s.skipped[i].reason == PathTaken ==>
      TakenByItem(t, s, s.skipped[i].at, s.skipped[i].relative)
      || (IsLeafAt(root, s.skipped[i].at) && TakenByFolder(t, root, s, s.skipped[i].at, s.skipped[i].relative))
  }

  ghost predicate InTurn(t: Target, root: Node, s: Plan, at: Address) {
    Ordered(s) && AllPrecede(s, at) && DirsEntered(t, root, s) && FirstServed(t, root, s)
  }

  lemma TurnPasses(t: Target, root: Node, s: Plan, at: Address, next: Address)
    requires InTurn(t, root, s, at) && Precedes(at, next)
    ensures InTurn(t, root, s, next)
  {
    hide Precedes, DirsEntered, FirstServed;
    forall a | Precedes(a, at) ensures Precedes(a, next) { PrecedesAll(a, at, next); }
  }

  lemma TakenBefore(t: Target, root: Node, s: Plan, at: Address, path: Path, isLeaf: bool)
    requires Inv(t, s) && InTurn(t, root, s, at) && Taken(t.sys, s, path, isLeaf)
    ensures TakenByItem(t, s, at, path) || (isLeaf && TakenByFolder(t, root, s, at, path))
  {
    hide Precedes, Norm, ItemsClaimed, Layered, FoldedToo;
    assert path[..|path|] == path;
    if Norm(t.sys, path) in s.files {
      var i :| 0 <= i < |s.items| && Norm(t.sys, s.items[i].path) == Norm(t.sys, path[..|path|]);
    } else if Norm(t.sys, path) in s.dirs {
      var d :| EnteredAs(t, root, s.fates, d, Norm(t.sys, path));
    } else {
      var k :| 0 <= k < |path| && Norm(t.sys, path[..k]) in s.files;
      var i :| 0 <= i < |s.items| && Norm(t.sys, s.items[i].path) == Norm(t.sys, path[..k]);
    }
  }

  /** What holds of a plan stays so when items and fates of new nodes are added. */
  lemma ServedStays(t: Target, root: Node, s: Plan, s': Plan)
    requires FirstServed(t, root, s) && s.items <= s'.items && s'.skipped == s.skipped && Grows(s.fates, s'.fates)
    ensures FirstServed(t, root, s')
  {
    hide Precedes, Norm;
    forall i | 0 <= i < |s'.skipped| && s'.skipped[i].reason == PathTaken
      ensures TakenByItem(t, s', s'.skipped[i].at, s'.skipped[i].relative)
              || (IsLeafAt(root, s'.skipped[i].at) && TakenByFolder(t, root, s', s'.skipped[i].at, s'.skipped[i].relative))
    {
      var (at, path) := (s.skipped[i].at, s.skipped[i].relative);
      if TakenByItem(t, s, at, path) {
        var j, k :| 0 <= j < |s.items| && 0 <= k <= |path| && Precedes(s.items[j].at, at)
                    && Norm(t.sys, s.items[j].path) == Norm(t.sys, path[..k]);
        assert s'.items[j] == s.items[j];
      } else {
        var d :| Precedes(d, at) && EnteredAs(t, root, s.fates, d, Norm(t.sys, path));
        assert EnteredAs(t, root, s'.fates, d, Norm(t.sys, path));
      }
    }
  }

  lemma DirsStay(t: Target, root: Node, s: Plan, s': Plan)
    requires DirsEntered(t, root, s) && s'.dirs == s.dirs && Grows(s.fates, s'.fates)
    ensures DirsEntered(t, root, s')
  {
    hide Norm;
    forall p | p in s'.dirs ensures exists d :: EnteredAs(t, root, s'.fates, d, p) {
      var d :| EnteredAs(t, root, s.fates, d, p);
      assert EnteredAs(t, root, s'.fates, d, p);
    }
  }

  lemma SkipInTurn(t: Target, root: Node, s: Plan, at: Address, relative: Path, reason: Reason, isLeaf: bool,
                   next: Address)
    requires Inv(t, s) && InTurn(t, root, s, at) && at !in s.fates && Precedes(at, next)
    requires reason == PathTaken ==> Taken(t.sys, s, relative, isLeaf) && isLeaf == IsLeafAt(root, at)
    ensures InTurn(t, root, Skip(s, at, relative, reason), next)
  {
    hide Precedes, Inv, Taken, TakenByItem, TakenByFolder, DirsEntered;
    var s' := Skip(s, at, relative, reason);
    TurnPasses(t, root, s, at, next);
    DirsStay(t, root, s, s');
    ServedStays(t, root, s, s.(fates := s'.fates));
    if reason == PathTaken {
      TakenBefore(t, root, s, at, relative, isLeaf);
      TakenStays(t, root, s, s', at, relative);
    }
    forall i | 0 <= i < |s.skipped| && s.skipped[i].reason == PathTaken
      ensures TakenByItem(t, s', s.skipped[i].at, s.skipped[i].relative)
              || (IsLeafAt(root, s.skipped[i].at) && TakenByFolder(t, root, s', s.skipped[i].at, s.skipped[i].relative))
    {
      TakenStays(t, root, s, s', s.skipped[i].at, s.skipped[i].relative);
    }
  }

  lemma TakenStays(t: Target, root: Node, s: Plan, s': Plan, at: Address, path: Path)
    requires s'.items == s.items && Grows(s.fates, s'.fates)
    ensures TakenByItem(t, s, at, path) ==> TakenByItem(t, s', at, path)
    ensures TakenByFolder(t, root, s, at, path) ==> TakenByFolder(t, root, s', at, path)
  {
    hide Precedes, Norm;
    if TakenByFolder(t, root, s, at, path) {
      var d :| Precedes(d, at) && EnteredAs(t, root, s.fates, d, Norm(t.sys, path));
      assert EnteredAs(t, root, s'.fates, d, Norm(t.sys, path));
    }
  }

  lemma ClaimInTurn(t: Target, root: Node, s: Plan, at: Address, path: Path, isLeaf: bool, next: Address)
    requires InTurn(t, root, s, at) && at !in s.fates && Precedes(at, next)
    requires !isLeaf ==> NodeAt(root, at).Some? && path == Names(root, at)
    ensures InTurn(t, root, Claim(t, s, at, path, isLeaf), next)
  {
    hide Precedes, Norm, Folded, TakenByItem, TakenByFolder;
    var s' := Claim(t, s, at, path, isLeaf);
    TurnPasses(t, root, s, at, next);
    ServedStays(t, root, s, s');
    forall p | p in s'.dirs ensures exists d :: EnteredAs(t, root, s'.fates, d, p) {
      if p in s.dirs {
        var d :| EnteredAs(t, root, s.fates, d, p);
        assert EnteredAs(t, root, s'.fates, d, p);
      } else {
        assert EnteredAs(t, root, s'.fates, at, p);
      }
    }
  }

  lemma VisitInTurn(t: Target, root: Node, s: Plan, child: Node, at: Address, segments: Path, next: Address)
    requires Sound(t.sys) && Inv(t, s) && InTurn(t, root, s, at) && at !in s.fates && Precedes(at, next)
    requires NodeAt(root, at) == Some(child) && Names(root, at) == segments + [child.name]
    ensures InTurn(t, root, Visit(t, s, child, at, segments), next)
  {
    hide Sound, Inv, InTurn, Precedes, AllSafe, Taken, Skip, Claim, NameOf, Destination;
    if child.isFilesystem {
      TurnPasses(t, root, s, at, next);
    } else {
      var named := segments + [NameOf(t, child)];
      if child.isDiagnostic {
        SkipInTurn(t, root, s, at, named, MissingData, true, next);
      } else if !AllSafe(t.sys, named) {
        SkipInTurn(t, root, s, at, named, UnsafeName, true, next);
      } else {
        var path := Destination(t, s.folded, child, segments);
        if Taken(t.sys, s, path, child.isLeaf) {
          SkipInTurn(t, root, s, at, path, PathTaken, child.isLeaf, next);
        } else {
          FolderGoes(t, s.folded, child, segments);
          ClaimInTurn(t, root, s, at, path, child.isLeaf, next);
        }
      }
    }
  }

  lemma FolderGoes(t: Target, claimed: set<string>, child: Node, segments: Path)
    requires Sound(t.sys)
    ensures !child.isLeaf ==> Destination(t, claimed, child, segments) == segments + [child.name]
  {
    hide Sound;
  }

  lemma NewHere(t: Target, root: Node, s: Plan, at: Address)
    requires InTurn(t, root, s, at)
    ensures at !in s.fates
  {
    hide Precedes;
    if at in s.fates { PrecedesHere(at, 0, 0); }
  }

  lemma {:induction false} WalkInTurn(t: Target, root: Node, s: Plan, node: Node, i: nat, at: Address, segments: Path)
    requires Sound(t.sys) && i <= |node.children| && Inv(t, s) && Inside(t, s, segments)
    requires NodeAt(root, at) == Some(node) && Names(root, at) == segments && InTurn(t, root, s, at + [i])
    ensures InTurn(t, root, Walk(t, s, node, i, at, segments), at + [|node.children|])
    decreases node, |node.children| - i
  {
    hide Sound, Inv, AllSafe, Norm, Visit, InTurn, Precedes, Inside, Descends;
    if i < |node.children| {
      var (child, here) := (node.children[i], at + [i]);
      var s1 := Visit(t, s, child, here, segments);
      VisitKeeps(t, s, child, here, segments);
      NewHere(t, root, s, here);
      NamesBelow(root, at, i);
      PrecedesHere(at, i, |child.children|);
      if !child.isFilesystem && Descends(s1, here) {
        VisitInTurn(t, root, s, child, here, segments, here + [0]);
        WalkInTurn(t, root, s1, child, 0, here, segments + [child.name]);
        WalkKeeps(t, s1, child, 0, here, segments + [child.name]);
        var s2 := Walk(t, s1, child, 0, here, segments + [child.name]);
        TurnPasses(t, root, s2, here + [|child.children|], at + [i + 1]);
        StillInside(t, s1, s2, segments);
        WalkInTurn(t, root, s2, node, i + 1, at, segments);
      } else {
        VisitInTurn(t, root, s, child, here, segments, at + [i + 1]);
        WalkInTurn(t, root, s1, node, i + 1, at, segments);
      }
    }
  }

  /** Items and skips are listed depth-first in the provider's order, and a path belongs to what comes first: a node is
      skipped as taken only for an item before it or, if it is a leaf, for a folder before it. */
  lemma DepthFirstFirstServed(t: Target, folder: Node)
    requires Sound(t.sys)
    ensures Ordered(PlanTree(t, folder)) && FirstServed(t, folder, PlanTree(t, folder))
  {
    hide Sound, Inv, Walk, Precedes;
    EmptyKeeps(t);
    WalkInTurn(t, folder, Empty, folder, 0, [], []);
  }

  // ------------------------------------------------------------------------------------------------------
  // Numbers
  // ------------------------------------------------------------------------------------------------------

  ghost predicate EnteredFolded(t: Target, root: Node, fates: map<Address, Fate>, d: Address, f: string) {
    d in fates && fates[d] == Entered && NodeAt(root, d).Some? && Folded(t, Names(root, d)) == f
  }

  /** An item or a folder before `at` has a path whose text folds to `f`. */
  ghost predicate ClaimedBefore(t: Target, root: Node, s: Plan, at: Address, f: string) {
    || (exists j :: 0 <= j < |s.items| && Precedes(s.items[j].at, at) && Folded(t, s.items[j].path) == f)
    || (exists d :: Precedes(d, at) && EnteredFolded(t, root, s.fates, d, f))
  }

  /** What counts as claimed was claimed by something before `at`. */
  ghost predicate FoldedTold(t: Target, root: Node, s: Plan, at: Address) {
    forall f :: f in s.folded ==> ClaimedBefore(t, root, s, at, f)
  }

  /** Item `i` has the first of its names that nothing before it has, as far as case folding tells. */
  ghost predicate FirstName(t: Target, root: Node, s: Plan, i: nat)
    requires i < |s.items|
  {
    var (at, path) := (s.items[i].at, s.items[i].path);
    path != [] && NodeAt(root, at).Some?
    && var child := NodeAt(root, at).value;
       child.isLeaf && child.exportName.Some? ==>
         exists number: nat :: FirstNumber(t, root, s, at, child, path, number)
  }

  /** The path ends with the child's synthesized name under that number, and every lower number was claimed. */
  ghost predicate FirstNumber(t: Target, root: Node, s: Plan, at: Address, child: Node, path: Path, number: nat)
    requires path != []
  {
    && number >= 1 && IsNumbered(t, child, path[|path| - 1], number)
    && forall m :: 1 <= m < number ==> ClaimedBefore(t, root, s, at, PathText(t, path, child, m))
  }

  predicate IsNumbered(t: Target, child: Node, name: string, number: nat) {
    child.exportName.Some?
    && name == if number <= 1 then FileName(t.sys, child.exportName.value)
               else Numbered(FileName(t.sys, child.exportName.value), number)
  }

  function CandidateText(t: Target, segments: Path, child: Node, m: nat): string
    requires child.exportName.Some?
  {
    var name := FileName(t.sys, child.exportName.value);
    Folded(t, segments + [if m <= 1 then name else Numbered(name, m)])
  }

  ghost predicate NamesInTurn(t: Target, root: Node, s: Plan, at: Address) {
    FoldedTold(t, root, s, at) && forall i :: 0 <= i < |s.items| ==> FirstName(t, root, s, i)
  }

  /** The text of the path with the name under number `m` instead. */
  function PathText(t: Target, path: Path, child: Node, m: nat): string
    requires path != [] && child.exportName.Some?
  {
    CandidateText(t, path[..|path| - 1], child, m)
  }

  lemma ClaimedStays(t: Target, root: Node, s: Plan, s': Plan, at: Address, next: Address, f: string)
    requires ClaimedBefore(t, root, s, at, f) && s.items <= s'.items && Grows(s.fates, s'.fates)
    requires at == next || Precedes(at, next)
    ensures ClaimedBefore(t, root, s', next, f)
  {
    hide Precedes, Folded;
    if j :| 0 <= j < |s.items| && Precedes(s.items[j].at, at) && Folded(t, s.items[j].path) == f {
      assert s'.items[j] == s.items[j];
      if at != next { PrecedesAll(s.items[j].at, at, next); }
    } else {
      var d :| Precedes(d, at) && EnteredFolded(t, root, s.fates, d, f);
      assert EnteredFolded(t, root, s'.fates, d, f);
      if at != next { PrecedesAll(d, at, next); }
    }
  }

  lemma FirstNameStays(t: Target, root: Node, s: Plan, s': Plan, i: nat)
    requires i < |s.items| && FirstName(t, root, s, i) && s.items <= s'.items && Grows(s.fates, s'.fates)
    ensures FirstName(t, root, s', i)
  {
    hide Precedes, ClaimedBefore, IsNumbered, CandidateText;
    var (at, path) := (s.items[i].at, s.items[i].path);
    assert s'.items[i] == s.items[i];
    var child := NodeAt(root, at).value;
    if child.isLeaf && child.exportName.Some? {
      var number: nat :| FirstNumber(t, root, s, at, child, path, number);
      forall m | 1 <= m < number ensures ClaimedBefore(t, root, s', at, PathText(t, path, child, m)) {
        ClaimedStays(t, root, s, s', at, at, PathText(t, path, child, m));
      }
      assert FirstNumber(t, root, s', at, child, path, number);
    }
  }

  lemma NamesStay(t: Target, root: Node, s: Plan, s': Plan, at: Address, next: Address)
    requires NamesInTurn(t, root, s, at) && s'.items == s.items && s'.folded == s.folded && Grows(s.fates, s'.fates)
    requires at == next || Precedes(at, next)
    ensures NamesInTurn(t, root, s', next)
  {
    hide Precedes, ClaimedBefore, FirstName;
    forall f | f in s'.folded ensures ClaimedBefore(t, root, s', next, f) { ClaimedStays(t, root, s, s', at, next, f); }
    forall i | 0 <= i < |s'.items| ensures FirstName(t, root, s', i) { FirstNameStays(t, root, s, s', i); }
  }

  /** The number that a free name gets, and why. */
  lemma FreeNameIsFirst(t: Target, root: Node, s: Plan, child: Node, at: Address, segments: Path)
    requires Sound(t.sys) && FoldedTold(t, root, s, at) && child.isLeaf && child.exportName.Some?
    ensures var path := Destination(t, s.folded, child, segments);
            && path != [] && path[..|path| - 1] == segments
            && exists number: nat :: FirstNumber(t, root, s, at, child, path, number)
  {
    hide Sound, Folded, ClaimedBefore, FileName, Numbered;
    var name := NameOf(t, child);
    var number := FirstFree(t, s.folded, segments, name, 1);
    var path := Destination(t, s.folded, child, segments);
    assert path == segments + [Candidate(name, number)];
    assert path[..|path| - 1] == segments;
    assert IsNumbered(t, child, path[|path| - 1], number);
    forall m | 1 <= m < number ensures ClaimedBefore(t, root, s, at, PathText(t, path, child, m)) {
      assert CandidateKey(t, segments, name, m) in s.folded;
      assert CandidateKey(t, segments, name, m) == CandidateText(t, segments, child, m);
    }
    assert FirstNumber(t, root, s, at, child, path, number);
  }

  lemma ClaimNames(t: Target, root: Node, s: Plan, child: Node, at: Address, segments: Path, next: Address)
    requires Sound(t.sys) && NamesInTurn(t, root, s, at) && at !in s.fates && Precedes(at, next)
    requires NodeAt(root, at) == Some(child) && Names(root, at) == segments + [child.name]
    ensures var path := Destination(t, s.folded, child, segments);
            NamesInTurn(t, root, Claim(t, s, at, path, child.isLeaf), next)
  {
    hide Sound, Precedes, Folded, ClaimedBefore, FirstName, Destination, Norm;
    var path := Destination(t, s.folded, child, segments);
    var s' := Claim(t, s, at, path, child.isLeaf);
    FolderGoes(t, s.folded, child, segments);
    forall f | f in s'.folded ensures ClaimedBefore(t, root, s', next, f) {
      if f in s.folded {
        ClaimedStays(t, root, s, s', at, next, f);
      } else {
        NewlyClaimed(t, root, s, at, path, child.isLeaf, next);
      }
    }
    forall i | 0 <= i < |s'.items| ensures FirstName(t, root, s', i) {
      if i < |s.items| {
        FirstNameStays(t, root, s, s', i);
      } else {
        NewFirstName(t, root, s, child, at, segments);
      }
    }
  }

  lemma NewlyClaimed(t: Target, root: Node, s: Plan, at: Address, path: Path, isLeaf: bool, next: Address)
    requires Precedes(at, next) && (!isLeaf ==> NodeAt(root, at).Some? && path == Names(root, at))
    ensures ClaimedBefore(t, root, Claim(t, s, at, path, isLeaf), next, Folded(t, path))
  {
    hide Precedes, Folded, Norm;
    var s' := Claim(t, s, at, path, isLeaf);
    if isLeaf {
      assert s'.items[|s.items|] == TreeItem(at, path);
    } else {
      assert EnteredFolded(t, root, s'.fates, at, Folded(t, path));
    }
  }

  lemma NewFirstName(t: Target, root: Node, s: Plan, child: Node, at: Address, segments: Path)
    requires Sound(t.sys) && NamesInTurn(t, root, s, at) && at !in s.fates && child.isLeaf
    requires NodeAt(root, at) == Some(child)
    ensures var s' := Claim(t, s, at, Destination(t, s.folded, child, segments), true);
            FirstName(t, root, s', |s.items|)
  {
    hide Sound, Precedes, Folded, ClaimedBefore, Norm, IsNumbered, CandidateText;
    var path := Destination(t, s.folded, child, segments);
    var s' := Claim(t, s, at, path, true);
    assert s'.items[|s.items|] == TreeItem(at, path);
    if child.exportName.Some? {
      FreeNameIsFirst(t, root, s, child, at, segments);
      var number: nat :| FirstNumber(t, root, s, at, child, path, number);
      forall m | 1 <= m < number ensures ClaimedBefore(t, root, s', at, PathText(t, path, child, m)) {
        ClaimedStays(t, root, s, s', at, at, PathText(t, path, child, m));
      }
      assert FirstNumber(t, root, s', at, child, path, number);
    } else {
      OwnNameLast(t, s.folded, child, segments);
    }
  }

  lemma OwnNameLast(t: Target, claimed: set<string>, child: Node, segments: Path)
    requires Sound(t.sys)
    ensures Destination(t, claimed, child, segments) != []
  {
    hide Sound;
  }

  lemma VisitNames(t: Target, root: Node, s: Plan, child: Node, at: Address, segments: Path, next: Address)
    requires Sound(t.sys) && NamesInTurn(t, root, s, at) && at !in s.fates && Precedes(at, next)
    requires NodeAt(root, at) == Some(child) && Names(root, at) == segments + [child.name]
    ensures NamesInTurn(t, root, Visit(t, s, child, at, segments), next)
  {
    hide Sound, NamesInTurn, Precedes, AllSafe, Taken, NameOf, Destination, Claim;
    var s' := Visit(t, s, child, at, segments);
    if child.isFilesystem || child.isDiagnostic || !AllSafe(t.sys, segments + [NameOf(t, child)])
       || Taken(t.sys, s, Destination(t, s.folded, child, segments), child.isLeaf)
    {
      NamesStay(t, root, s, s', at, next);
    } else {
      ClaimNames(t, root, s, child, at, segments, next);
    }
  }

  lemma {:induction false} WalkNames(t: Target, root: Node, s: Plan, node: Node, i: nat, at: Address, segments: Path)
    requires Sound(t.sys) && i <= |node.children| && Inv(t, s) && Inside(t, s, segments)
    requires NodeAt(root, at) == Some(node) && Names(root, at) == segments && InTurn(t, root, s, at + [i])
    requires NamesInTurn(t, root, s, at + [i])
    ensures NamesInTurn(t, root, Walk(t, s, node, i, at, segments), at + [|node.children|])
    decreases node, |node.children| - i
  {
    hide Sound, Inv, AllSafe, Norm, Visit, InTurn, NamesInTurn, Precedes, Inside, Descends;
    if i < |node.children| {
      var (child, here) := (node.children[i], at + [i]);
      var s1 := Visit(t, s, child, here, segments);
      VisitKeeps(t, s, child, here, segments);
      NewHere(t, root, s, here);
      NamesBelow(root, at, i);
      PrecedesHere(at, i, |child.children|);
      if !child.isFilesystem && Descends(s1, here) {
        VisitInTurn(t, root, s, child, here, segments, here + [0]);
        VisitNames(t, root, s, child, here, segments, here + [0]);
        WalkInTurn(t, root, s1, child, 0, here, segments + [child.name]);
        WalkNames(t, root, s1, child, 0, here, segments + [child.name]);
        WalkKeeps(t, s1, child, 0, here, segments + [child.name]);
        var s2 := Walk(t, s1, child, 0, here, segments + [child.name]);
        TurnPasses(t, root, s2, here + [|child.children|], at + [i + 1]);
        NamesStay(t, root, s2, s2, here + [|child.children|], at + [i + 1]);
        StillInside(t, s1, s2, segments);
        WalkNames(t, root, s2, node, i + 1, at, segments);
      } else {
        VisitInTurn(t, root, s, child, here, segments, at + [i + 1]);
        VisitNames(t, root, s, child, here, segments, at + [i + 1]);
        WalkNames(t, root, s1, node, i + 1, at, segments);
      }
    }
  }

  /** A synthesized name is numbered only as far as it has to be: every name with a lower number, and the plain one, is, but
      for case, that of an item or a folder that came before. */
  lemma NumberedForAReason(t: Target, folder: Node, i: nat)
    requires Sound(t.sys) && i < |PlanTree(t, folder).items|
    ensures FirstName(t, folder, PlanTree(t, folder), i)
  {
    hide Sound, Inv, Walk, Precedes, FirstName;
    EmptyKeeps(t);
    WalkNames(t, folder, Empty, folder, 0, [], []);
  }
}
