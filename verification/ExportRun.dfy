/** `preflight_tree` and `run_tree_export` (sdk/api/export_tree.py) over a disk that nobody else writes: which items a
    run writes, and what is left of them. Each item goes through a staged `LocalFileSink`
    (sdk/dedup/local_file_sink.py), which fills `<name>.part` and renames it. */
module ExportRun {
  import opened Basics
  import opened ExportPlan

  /** A file: its identity, and the item it holds; `None` for one that was there before. */
  datatype File = File(id: nat, holds: Option<nat>)

  /** What is below the output directory, by on-disk name. `nextId` is an identity no file has. */
  datatype Disk = Disk(files: map<Path, File>, dirs: set<Path>, nextId: nat)

  /** The planned paths, how the file system names a path (`key` folds what it does not tell apart), and the items that
      turn out to have content. */
  datatype Job = Job(paths: seq<Path>, key: Path -> Path, restorable: set<nat>)

  ghost predicate WellFormed(disk: Disk) {
    && disk.files.Keys !! disk.dirs
    && forall k :: k in disk.files ==> disk.files[k].id < disk.nextId
  }

  /** `part_path_for` */
  function Part(path: Path): Path
    requires path != []
  {
    path[..|path| - 1] + [path[|path| - 1] + ".part"]
  }

  datatype State = Missing | IsFile | IsDirectory

  function StateAt(disk: Disk, k: Path): State {
    if k in disk.dirs then IsDirectory else if k in disk.files then IsFile else Missing
  }

  /** How long the path of the nearest thing that exists on the way up from `path[..k]` is, if that is a file. */
  function BlockerFrom(job: Job, disk: Disk, path: Path, k: nat): Option<nat>
    requires k <= |path|
  {
    if k == 0 then None
    else
      match StateAt(disk, job.key(path[..k]))
      case IsFile => Some(k)
      case IsDirectory => None
      case Missing => BlockerFrom(job, disk, path, k - 1)
  }

  /** What blocks a path: a file where one of its folders has to be. */
  function Blocker(job: Job, disk: Disk, path: Path): Option<nat> {
    if path == [] then None else BlockerFrom(job, disk, path, |path| - 1)
  }

  predicate Blocked(job: Job, disk: Disk, path: Path) { Blocker(job, disk, path).Some? }

  /** `_ParentCheck.blocker`, with the folders it has seen. */
  method FindBlocker(job: Job, disk: Disk, path: Path, known: set<Path>)
    returns (blocker: Option<Path>, known': set<Path>)
    requires path != [] && forall p :: p in known ==> job.key(p) in disk.dirs
    ensures match Blocker(job, disk, path) case None => blocker == None case Some(k) => k < |path| && blocker == Some(path[..k])
    ensures known <= known' && forall p :: p in known' ==> job.key(p) in disk.dirs
  {
    known' := known;
    var k := |path| - 1;
    while k > 0
      invariant 0 <= k < |path| && BlockerFrom(job, disk, path, k) == Blocker(job, disk, path)
    {
      var parent := path[..k];
      if parent in known {
        return None, known;
      }
      match StateAt(disk, job.key(parent)) {
        case IsFile => return Some(parent), known;
        case IsDirectory => return None, known + {parent};
        case Missing =>
      }
      k := k - 1;
    }
    return None, known;
  }

  // ------------------------------------------------------------------------------------------------------
  // preflight_tree
  // ------------------------------------------------------------------------------------------------------

  /** What stops an export: an item's own path, that path and what blocks it, or the first of the destinations that exist,
      how many there are, and of how many items. */
  datatype Problem =
    | DirectoryInTheWay(path: Path)
    | FileInTheWay(path: Path, blocker: Path)
    | Exists(path: Path, existing: nat, total: nat)

  predicate Obstructed(job: Job, disk: Disk, i: nat)
    requires i < |job.paths|
  {
    StateAt(disk, job.key(job.paths[i])) == IsDirectory || Blocked(job, disk, job.paths[i])
  }

  /** The problem of an obstructed item: a directory in its place, or a file above it. */
  function Obstruction(job: Job, disk: Disk, i: nat): Problem
    requires i < |job.paths|
  {
    var path := job.paths[i];
    if StateAt(disk, job.key(path)) == IsDirectory then DirectoryInTheWay(path)
    else match Blocker(job, disk, path) case Some(k) => FileInTheWay(path, if k <= |path| then path[..k] else path)
                                        case None => DirectoryInTheWay(path)
  }

  /** The destinations of the first `n` items that are files, in order. */
  function Existing(job: Job, disk: Disk, n: nat): seq<Path>
    requires n <= |job.paths|
  {
    if n == 0 then []
    else
      Existing(job, disk, n - 1)
      + if StateAt(disk, job.key(job.paths[n - 1])) == IsFile then [job.paths[n - 1]] else []
  }

  lemma {:induction false} ExistingAreFiles(job: Job, disk: Disk, n: nat)
    requires n <= |job.paths|
    ensures forall i :: 0 <= i < n && StateAt(disk, job.key(job.paths[i])) == IsFile ==>
              job.paths[i] in Existing(job, disk, n)
  {
    if n > 0 { ExistingAreFiles(job, disk, n - 1); }
  }

  /** Nothing is in an item's way, and every destination that exists is recorded. */
  predicate LetThrough(job: Job, disk: Disk, preexisting: set<Path>) {
    && (forall i :: 0 <= i < |job.paths| ==> !Obstructed(job, disk, i))
    && forall i :: 0 <= i < |job.paths| && StateAt(disk, job.key(job.paths[i])) == IsFile ==> job.paths[i] in preexisting
  }

  /** The first obstructed item is the problem, whether or not `force` is given. Otherwise `preexisting` are the
      destinations that exist, and without `force` those are the problem, if there are any. */
  method Preflight(job: Job, disk: Disk, force: bool) returns (problem: Option<Problem>, preexisting: set<Path>)
    requires forall i :: 0 <= i < |job.paths| ==> job.paths[i] != []
    ensures (exists i :: 0 <= i < |job.paths| && Obstructed(job, disk, i)) ==>
              preexisting == {}
              && exists i :: 0 <= i < |job.paths| && Obstructed(job, disk, i) && problem == Some(Obstruction(job, disk, i))
                             && forall j :: 0 <= j < i ==> !Obstructed(job, disk, j)
    ensures (forall i :: 0 <= i < |job.paths| ==> !Obstructed(job, disk, i)) ==>
              var existing := Existing(job, disk, |job.paths|);
              && preexisting == (set path | path in existing)
              && problem == if force || existing == [] then None
                            else Some(Exists(existing[0], |existing|, |job.paths|))
    ensures problem == None ==> LetThrough(job, disk, preexisting)
  {
    preexisting := {};
    var existing: seq<Path> := [];
    var known: set<Path> := {};
    for i := 0 to |job.paths|
      invariant forall j :: 0 <= j < i ==> !Obstructed(job, disk, j)
      invariant preexisting == (set path | path in Existing(job, disk, i))
      invariant existing == if force then [] else Existing(job, disk, i)
      invariant forall p :: p in known ==> job.key(p) in disk.dirs
    {
      var path := job.paths[i];
      var state := StateAt(disk, job.key(path));
      if state == IsDirectory {
        assert Obstructed(job, disk, i);
        return Some(DirectoryInTheWay(path)), {};
      }
      var blocker;
      blocker, known := FindBlocker(job, disk, path, known);
      if blocker.Some? {
        assert Obstructed(job, disk, i);
        return Some(FileInTheWay(path, blocker.value)), {};
      }
      if state == IsFile {
        preexisting := preexisting + {path};
        if !force {
          existing := existing + [path];
        }
      }
    }
    if existing != [] {
      return Some(Exists(existing[0], |existing|, |job.paths|)), preexisting;
    }
    ExistingAreFiles(job, disk, |job.paths|);
    return None, preexisting;
  }

  /** The blocker is the nearest thing that exists above the path, and a file. */
  lemma {:induction false} BlockerIsNearest(job: Job, disk: Disk, path: Path, k: nat)
    requires k <= |path| && BlockerFrom(job, disk, path, k).Some?
    ensures var b := BlockerFrom(job, disk, path, k).value;
            && 0 < b <= k && job.key(path[..b]) in disk.files && job.key(path[..b]) !in disk.dirs
            && forall m :: b < m <= k ==> job.key(path[..m]) !in disk.files && job.key(path[..m]) !in disk.dirs
  {
    if k > 0 && StateAt(disk, job.key(path[..k])) == Missing { BlockerIsNearest(job, disk, path, k - 1); }
  }

  /** What is reported of an obstructed item is so: a folder at its path; or no folder there, and a file above it with
      nothing between. */
  lemma ObstructionIsReal(job: Job, disk: Disk, i: nat)
    requires i < |job.paths| && job.paths[i] != [] && Obstructed(job, disk, i)
    ensures var path := job.paths[i];
            match Obstruction(job, disk, i)
            case DirectoryInTheWay(p) => p == path && job.key(path) in disk.dirs
            case FileInTheWay(p, b) =>
              && p == path && job.key(path) !in disk.dirs && b != [] && |b| < |path| && b == path[..|b|]
              && job.key(b) in disk.files && job.key(b) !in disk.dirs
              && forall m :: |b| < m < |path| ==> job.key(path[..m]) !in disk.files && job.key(path[..m]) !in disk.dirs
            case Exists(_, _, _) => false
  {
    if StateAt(disk, job.key(job.paths[i])) != IsDirectory {
      BlockerIsNearest(job, disk, job.paths[i], |job.paths[i]| - 1);
    }
  }

  /** There is a file at item `i`'s path. */
  predicate IsThere(job: Job, disk: Disk, i: nat)
    requires i < |job.paths|
  {
    job.key(job.paths[i]) in disk.files && job.key(job.paths[i]) !in disk.dirs
  }

  function Found(job: Job, disk: Disk, n: nat): set<nat>
    requires n <= |job.paths|
  {
    set i | 0 <= i < n && IsThere(job, disk, i)
  }

  lemma ExistingMore(job: Job, disk: Disk, n: nat)
    requires 0 < n <= |job.paths|
    ensures Existing(job, disk, n)
            == Existing(job, disk, n - 1) + if IsThere(job, disk, n - 1) then [job.paths[n - 1]] else []
  {
  }

  /** The destinations that exist are the paths where a file is. */
  lemma {:induction false} ExistingAre(job: Job, disk: Disk, n: nat)
    requires n <= |job.paths|
    ensures forall p :: p in Existing(job, disk, n) <==> exists i :: 0 <= i < n && IsThere(job, disk, i) && job.paths[i] == p
  {
    if n > 0 {
      ExistingAre(job, disk, n - 1);
      ExistingMore(job, disk, n);
      hide Existing, IsThere;
    }
  }

  /** Each item is counted once. */
  lemma {:induction false} ExistingCount(job: Job, disk: Disk, n: nat)
    requires n <= |job.paths|
    ensures |Existing(job, disk, n)| == |Found(job, disk, n)|
  {
    if n > 0 {
      ExistingCount(job, disk, n - 1);
      ExistingMore(job, disk, n);
      hide Existing, IsThere;
      assert Found(job, disk, n) == Found(job, disk, n - 1) + if IsThere(job, disk, n - 1) then {n - 1} else {};
      assert n - 1 !in Found(job, disk, n - 1);
    }
  }

  /** The one reported is the first of them. */
  lemma {:induction false} FirstExisting(job: Job, disk: Disk, n: nat, i: nat)
    requires i < n <= |job.paths| && IsThere(job, disk, i) && forall j :: 0 <= j < i ==> !IsThere(job, disk, j)
    ensures Existing(job, disk, n) != [] && Existing(job, disk, n)[0] == job.paths[i]
  {
    ExistingMore(job, disk, n);
    hide Existing, IsThere;
    if i < n - 1 {
      FirstExisting(job, disk, n - 1, i);
    } else {
      NoneExisting(job, disk, n - 1);
    }
  }

  lemma {:induction false} NoneExisting(job: Job, disk: Disk, n: nat)
    requires n <= |job.paths| && forall j :: 0 <= j < n ==> !IsThere(job, disk, j)
    ensures Existing(job, disk, n) == []
  {
    if n > 0 {
      ExistingMore(job, disk, n);
      hide Existing, IsThere;
      NoneExisting(job, disk, n - 1);
    }
  }

  // ------------------------------------------------------------------------------------------------------
  // run_tree_export
  // ------------------------------------------------------------------------------------------------------

  datatype Skip = Taken | NoContent

  /** The run after some of its items. `failed` ends it. */
  datatype Run = Run(disk: Disk, written: set<nat>, exported: seq<nat>, skipped: seq<(nat, Skip)>, failed: bool)

  /** `path_taken` */
  predicate PathTaken(job: Job, r: Run, preexisting: set<Path>, path: Path) {
    var k := job.key(path);
    || StateAt(r.disk, k) == IsDirectory
    || (StateAt(r.disk, k) == IsFile && (path !in preexisting || r.disk.files[k].id in r.written))
    || Blocked(job, r.disk, path)
  }

  /** `mkdir(parents=True)`: the folders missing on the way up from `path[..k]`. */
  function Made(job: Job, disk: Disk, path: Path, k: nat): set<Path>
    requires k <= |path|
  {
    if k == 0 || StateAt(disk, job.key(path[..k])) != Missing then {}
    else {job.key(path[..k])} + Made(job, disk, path, k - 1)
  }

  /** A staged export: the part file is created, or an existing one emptied and filled, and renamed over the
      destination. */
  function Export(job: Job, disk: Disk, i: nat): Disk
    requires i < |job.paths| && job.paths[i] != []
  {
    var (part, path) := (job.key(Part(job.paths[i])), job.key(job.paths[i]));
    var id := if part in disk.files then disk.files[part].id else disk.nextId;
    Disk((disk.files - {part})[path := File(id, Some(i))], disk.dirs + Made(job, disk, job.paths[i], |job.paths[i]| - 1),
         if part in disk.files then disk.nextId else disk.nextId + 1)
  }

  /** The run's `i`-th item. A folder where the part file goes stops the run. */
  function Next(job: Job, r: Run, preexisting: set<Path>, i: nat): Run
    requires i < |job.paths| && job.paths[i] != []
  {
    if r.failed then r
    else if PathTaken(job, r, preexisting, job.paths[i]) then r.(skipped := r.skipped + [(i, Taken)])
    else if i !in job.restorable then r.(skipped := r.skipped + [(i, NoContent)])
    else if job.key(Part(job.paths[i])) in r.disk.dirs then r.(failed := true)
    else
      var disk := Export(job, r.disk, i);
      r.(disk := disk, written := r.written + {disk.files[job.key(job.paths[i])].id}, exported := r.exported + [i])
  }

  function RunTo(job: Job, disk: Disk, preexisting: set<Path>, n: nat): Run
    requires n <= |job.paths| && forall i :: 0 <= i < |job.paths| ==> job.paths[i] != []
  {
    if n == 0 then Run(disk, {}, [], [], false)
    else Next(job, RunTo(job, disk, preexisting, n - 1), preexisting, n - 1)
  }

  /** `run_tree_export` */
  method RunTreeExport(job: Job, disk: Disk, preexisting: set<Path>) returns (r: Run)
    requires forall i :: 0 <= i < |job.paths| ==> job.paths[i] != []
    ensures r == RunTo(job, disk, preexisting, |job.paths|)
  {
    r := Run(disk, {}, [], [], false);
    for i := 0 to |job.paths|
      invariant r == RunTo(job, disk, preexisting, i)
    {
      var path := job.paths[i];
      if !r.failed {
        if PathTaken(job, r, preexisting, path) {
          r := r.(skipped := r.skipped + [(i, Taken)]);
        } else if i !in job.restorable {
          r := r.(skipped := r.skipped + [(i, NoContent)]);
        } else if job.key(Part(path)) in r.disk.dirs {
          r := r.(failed := true);
        } else {
          var after := Export(job, r.disk, i);
          r := r.(disk := after, written := r.written + {after.files[job.key(path)].id}, exported := r.exported + [i]);
        }
      }
    }
  }

  // ------------------------------------------------------------------------------------------------------
  // What is left of the items
  // ------------------------------------------------------------------------------------------------------

  /** What the planner and the file system provide: paths are not empty, a folded path is as deep as the path, and a
      part file is not named as its item. */
  ghost predicate Proper(job: Job) {
    && (forall path :: |job.key(path)| == |path|)
    && forall i :: 0 <= i < |job.paths| ==> job.paths[i] != [] && job.key(Part(job.paths[i])) != job.key(job.paths[i])
  }

  function KeyOf(job: Job, i: nat): Path
    requires i < |job.paths|
  {
    job.key(job.paths[i])
  }

  function PartOf(job: Job, i: nat): Path
    requires i < |job.paths| && job.paths[i] != []
  {
    job.key(Part(job.paths[i]))
  }

  ghost predicate InRange(job: Job, exported: seq<nat>, n: nat) {
    && (forall a :: 0 <= a < |exported| ==> exported[a] < n <= |job.paths|)
    && (forall a, b :: 0 <= a < b < |exported| ==> exported[a] < exported[b])
  }

  /** No exported item's part file goes where an item exported before it is. */
  ghost predicate NoClash(job: Job, exported: seq<nat>)
    requires Proper(job) && InRange(job, exported, |job.paths|)
  {
    forall a, b :: 0 <= a < b < |exported| ==> PartOf(job, exported[b]) != KeyOf(job, exported[a])
  }

  /** Item `i`'s destination holds item `i`. */
  predicate Intact(job: Job, disk: Disk, i: nat)
    requires i < |job.paths|
  {
    KeyOf(job, i) in disk.files && disk.files[KeyOf(job, i)].holds == Some(i)
  }

  lemma {:induction false} RunInRange(job: Job, disk: Disk, preexisting: set<Path>, n: nat)
    requires Proper(job) && n <= |job.paths|
    ensures InRange(job, RunTo(job, disk, preexisting, n).exported, n)
  {
    if n > 0 { RunInRange(job, disk, preexisting, n - 1); }
  }

  /** Every exported item is in place, and its file is known as written. */
  ghost predicate AllIntact(job: Job, r: Run)
    requires InRange(job, r.exported, |job.paths|)
  {
    forall a :: 0 <= a < |r.exported| ==>
      Intact(job, r.disk, r.exported[a]) && r.disk.files[KeyOf(job, r.exported[a])].id in r.written
  }

  lemma {:induction false} MadeIsMissing(job: Job, disk: Disk, path: Path, k: nat)
    requires k <= |path|
    ensures forall d :: d in Made(job, disk, path, k) ==> d !in disk.files && exists n :: 0 < n <= k && job.key(path[..n]) == d
  {
    if k > 0 { MadeIsMissing(job, disk, path, k - 1); }
  }

  lemma ExportKeepsForm(job: Job, disk: Disk, i: nat)
    requires Proper(job) && i < |job.paths| && WellFormed(disk)
    requires StateAt(disk, KeyOf(job, i)) != IsDirectory && PartOf(job, i) !in disk.dirs
    ensures WellFormed(Export(job, disk, i))
  {
    MadeIsMissing(job, disk, job.paths[i], |job.paths[i]| - 1);
    var made := Made(job, disk, job.paths[i], |job.paths[i]| - 1);
    forall d | d in made ensures d != KeyOf(job, i) {
      var n :| 0 < n <= |job.paths[i]| - 1 && job.key(job.paths[i][..n]) == d;
      assert |d| == n && |KeyOf(job, i)| == |job.paths[i]|;
    }
  }

  /** An item that is exported leaves the exported ones in place, but for one where its part file went. */
  lemma ExportSpares(job: Job, r: Run, preexisting: set<Path>, i: nat, j: nat)
    requires Proper(job) && i < j < |job.paths| && WellFormed(r.disk) && !PathTaken(job, r, preexisting, job.paths[j])
    requires Intact(job, r.disk, i) && r.disk.files[KeyOf(job, i)].id in r.written
    ensures var disk := Export(job, r.disk, j);
            if PartOf(job, j) == KeyOf(job, i) then !Intact(job, disk, i)
            else Intact(job, disk, i) && disk.files[KeyOf(job, i)] == r.disk.files[KeyOf(job, i)]
  {
  }

  /** An item that lost its file does not get it back. */
  lemma LostStaysLost(job: Job, disk: Disk, i: nat, j: nat)
    requires Proper(job) && i < |job.paths| && j < |job.paths| && i != j && !Intact(job, disk, i)
    ensures !Intact(job, Export(job, disk, j), i)
  {
  }

  /** An item whose place was taken by a later part file is not in place. */
  ghost predicate ClashesLose(job: Job, r: Run)
    requires Proper(job) && InRange(job, r.exported, |job.paths|)
  {
    forall a, b :: 0 <= a < b < |r.exported| && PartOf(job, r.exported[b]) == KeyOf(job, r.exported[a]) ==>
      !Intact(job, r.disk, r.exported[a])
  }

  ghost predicate Settled(job: Job, r: Run)
    requires Proper(job) && InRange(job, r.exported, |job.paths|)
  {
    WellFormed(r.disk) && (NoClash(job, r.exported) ==> AllIntact(job, r)) && ClashesLose(job, r)
  }

  lemma ExportStep(job: Job, r: Run, preexisting: set<Path>, j: nat, r': Run)
    requires Proper(job) && j < |job.paths| && InRange(job, r.exported, j) && InRange(job, r'.exported, j + 1)
    requires InRange(job, r.exported, |job.paths|) && InRange(job, r'.exported, |job.paths|)
    requires Settled(job, r) && r' == Next(job, r, preexisting, j)
    ensures Settled(job, r')
  {
    hide Part, BlockerFrom, Blocker, Blocked;
    if r'.exported != r.exported {
      assert r'.exported == r.exported + [j];
      assert forall a :: 0 <= a < |r.exported| ==> r'.exported[a] == r.exported[a] < j;
      ExportKeepsForm(job, r.disk, j);
      hide WellFormed, Export, PathTaken;
      if NoClash(job, r'.exported) { IntactStep(job, r, preexisting, j, r'); }
      forall a, b | 0 <= a < b < |r'.exported| && PartOf(job, r'.exported[b]) == KeyOf(job, r'.exported[a])
        ensures !Intact(job, r'.disk, r'.exported[a])
      {
        if Intact(job, r.disk, r'.exported[a]) {
          PartTakes(job, r.disk, r'.exported[a], j);
        } else {
          LostStaysLost(job, r.disk, r'.exported[a], j);
        }
      }
    }
  }

  lemma PartTakes(job: Job, disk: Disk, i: nat, j: nat)
    requires Proper(job) && i < |job.paths| && j < |job.paths| && i != j && PartOf(job, j) == KeyOf(job, i)
    ensures !Intact(job, Export(job, disk, j), i)
  {
  }

  lemma IntactStep(job: Job, r: Run, preexisting: set<Path>, j: nat, r': Run)
    requires Proper(job) && j < |job.paths| && InRange(job, r.exported, j) && InRange(job, r.exported, |job.paths|)
    requires Settled(job, r) && r' == Next(job, r, preexisting, j) && r'.exported == r.exported + [j]
    requires InRange(job, r'.exported, |job.paths|) && NoClash(job, r'.exported)
    ensures AllIntact(job, r')
  {
    hide Part, BlockerFrom, Blocker, Blocked, Made;
    assert NoClash(job, r.exported) by {
      assert forall a :: 0 <= a < |r.exported| ==> r'.exported[a] == r.exported[a];
    }
    forall a | 0 <= a < |r'.exported|
      ensures Intact(job, r'.disk, r'.exported[a]) && r'.disk.files[KeyOf(job, r'.exported[a])].id in r'.written
    {
      if a < |r.exported| {
        var i := r.exported[a];
        assert Intact(job, r.disk, i) && r.disk.files[KeyOf(job, i)].id in r.written;
        assert PartOf(job, r'.exported[|r.exported|]) != KeyOf(job, r'.exported[a]);
        ExportSpares(job, r, preexisting, i, j);
      }
    }
  }

  lemma {:induction false} RunSettled(job: Job, disk: Disk, preexisting: set<Path>, n: nat)
    requires Proper(job) && WellFormed(disk) && n <= |job.paths|
    ensures InRange(job, RunTo(job, disk, preexisting, n).exported, |job.paths|)
    ensures Settled(job, RunTo(job, disk, preexisting, n))
  {
    hide Next, WellFormed;
    RunInRange(job, disk, preexisting, n);
    if n > 0 {
      RunInRange(job, disk, preexisting, n - 1);
      RunSettled(job, disk, preexisting, n - 1);
      ExportStep(job, RunTo(job, disk, preexisting, n - 1), preexisting, n - 1, RunTo(job, disk, preexisting, n));
    }
  }

  /** Every item a run exported is in place at its end exactly when no exported item's part file goes where one exported
      before it is; and then no two of them share an on-disk file. */
  lemma ExportedStayExactlyWithoutClash(job: Job, disk: Disk, preexisting: set<Path>, n: nat)
    requires Proper(job) && WellFormed(disk) && n <= |job.paths|
    ensures var r := RunTo(job, disk, preexisting, n);
            && InRange(job, r.exported, |job.paths|)
            && ((forall a :: 0 <= a < |r.exported| ==> Intact(job, r.disk, r.exported[a])) <==> NoClash(job, r.exported))
            && (NoClash(job, r.exported) ==>
                  forall a, b :: 0 <= a < b < |r.exported| ==> KeyOf(job, r.exported[a]) != KeyOf(job, r.exported[b]))
  {
    hide RunTo, WellFormed, Proper;
    RunSettled(job, disk, preexisting, n);
  }

  /** Every item exported so far is in place. */
  ghost predicate KeepsAll(job: Job, disk: Disk, preexisting: set<Path>, n: nat)
    requires n <= |job.paths| && forall i :: 0 <= i < |job.paths| ==> job.paths[i] != []
  {
    var r := RunTo(job, disk, preexisting, n);
    forall a :: 0 <= a < |r.exported| ==> r.exported[a] < |job.paths| && Intact(job, r.disk, r.exported[a])
  }

  /** A plan with no item named as a later item's part file cannot lose an item. */
  lemma NoClashInPlan(job: Job, disk: Disk, preexisting: set<Path>, n: nat)
    requires Proper(job) && WellFormed(disk) && n <= |job.paths|
    requires forall i, j :: 0 <= i < j < |job.paths| ==> PartOf(job, j) != KeyOf(job, i)
    ensures KeepsAll(job, disk, preexisting, n)
  {
    hide RunTo, WellFormed;
    ExportedStayExactlyWithoutClash(job, disk, preexisting, n);
  }

  const EmptyDisk: Disk := Disk(map[], {}, 0)

  /** With such a pair and only its two items to write, into an empty directory, the run exports both in turn. */
  lemma {:induction false} ClashRun(job: Job, i: nat, j: nat, n: nat)
    requires Proper(job) && i < j < |job.paths| && PartOf(job, j) == KeyOf(job, i) && job.restorable == {i, j}
    requires n <= |job.paths|
    ensures var r := RunTo(job, EmptyDisk, {}, n);
            && !r.failed && r.exported == (if n <= i then [] else if n <= j then [i] else [i, j])
            && (n <= j ==> r.disk == if n <= i then EmptyDisk else Export(job, EmptyDisk, i))
  {
    hide Export, Blocked, Part;
    if n > 0 {
      ClashRun(job, i, j, n - 1);
      var (r, k) := (RunTo(job, EmptyDisk, {}, n - 1), n - 1);
      if k == i {
        NothingInTheWay(job, i);
      } else if k == j {
        FirstNotInTheWay(job, r, i, j);
      }
    }
  }

  lemma {:induction false} NoneBlocks(job: Job, disk: Disk, path: Path, k: nat)
    requires k <= |path| && forall m :: 0 < m <= k ==> job.key(path[..m]) !in disk.files
    ensures BlockerFrom(job, disk, path, k) == None
  {
    if k > 0 { NoneBlocks(job, disk, path, k - 1); }
  }

  lemma NothingInTheWay(job: Job, i: nat)
    requires Proper(job) && i < |job.paths|
    ensures StateAt(EmptyDisk, KeyOf(job, i)) == Missing && !Blocked(job, EmptyDisk, job.paths[i])
  {
    NoneBlocks(job, EmptyDisk, job.paths[i], |job.paths[i]| - 1);
  }

  /** The first item's file, at the depth of the second, is neither the second's destination nor above it. */
  lemma FirstNotInTheWay(job: Job, r: Run, i: nat, j: nat)
    requires Proper(job) && i < j < |job.paths| && PartOf(job, j) == KeyOf(job, i)
    requires r.disk == Export(job, EmptyDisk, i)
    ensures !PathTaken(job, r, {}, job.paths[j]) && PartOf(job, j) !in r.disk.dirs
  {
    var (p, q) := (job.paths[i], job.paths[j]);
    assert |p| == |KeyOf(job, i)| == |Part(q)| == |q|;
    MadeIsMissing(job, EmptyDisk, p, |p| - 1);
    forall d | d in r.disk.dirs ensures |d| < |p| {
      var n :| 0 < n <= |p| - 1 && job.key(p[..n]) == d;
      assert |job.key(p[..n])| == n;
    }
    assert r.disk.files.Keys == {KeyOf(job, i)};
    forall m | 0 < m <= |q| - 1 ensures job.key(q[..m]) !in r.disk.files {
      assert |job.key(q[..m])| == m;
    }
    NoneBlocks(job, r.disk, q, |q| - 1);
  }

  /** What a caller can tell from the plan alone: it cannot lose an item, whatever the disk, the destinations recorded and
      the items with content, exactly if no item is named as the part file of a later one. */
  lemma PlanKeepsAllExactly(paths: seq<Path>, key: Path -> Path)
    requires Proper(Job(paths, key, {}))
    ensures (forall disk, preexisting, restorable ::
               WellFormed(disk) ==> KeepsAll(Job(paths, key, restorable), disk, preexisting, |paths|))
            <==> forall i, j :: 0 <= i < j < |paths| ==> key(Part(paths[j])) != key(paths[i])
  {
    hide WellFormed, RunTo;
    if forall i, j :: 0 <= i < j < |paths| ==> key(Part(paths[j])) != key(paths[i]) {
      forall disk, preexisting, restorable | WellFormed(disk)
        ensures KeepsAll(Job(paths, key, restorable), disk, preexisting, |paths|)
      {
        NoClashInPlan(Job(paths, key, restorable), disk, preexisting, |paths|);
      }
    } else {
      var i, j :| 0 <= i < j < |paths| && key(Part(paths[j])) == key(paths[i]);
      var job := Job(paths, key, {i, j});
      assert WellFormed(EmptyDisk) by { EmptyIsWellFormed(); }
      ClashRun(job, i, j, |paths|);
      ExportedStayExactlyWithoutClash(job, EmptyDisk, {}, |paths|);
      var r := RunTo(job, EmptyDisk, {}, |paths|);
      assert r.exported[0] == i && r.exported[1] == j;
      assert !KeepsAll(job, EmptyDisk, {}, |paths|);
    }
  }

  lemma EmptyIsWellFormed()
    ensures WellFormed(EmptyDisk)
  {
  }

  /** With one, it can: `a.part` and then `a`, both reported as exported. */
  lemma PartFileClash()
    ensures var job := Job([["a.part"], ["a"]], p => p, {0, 1});
            var r := RunTo(job, EmptyDisk, {}, 2);
            && Proper(job) && WellFormed(EmptyDisk) && r.exported == [0, 1]
            && r.disk.files.Keys == {["a"]} && !Intact(job, r.disk, 0)
  {
    var job := Job([["a.part"], ["a"]], p => p, {0, 1});
    assert "a" + ".part" == "a.part" && "a.part" + ".part" == "a.part.part";
    assert ["a"][..0] == [] && ["a.part"][..0] == [];
    assert Part(["a"]) == ["a.part"] && Part(["a.part"]) == ["a.part.part"];
    assert ["a.part"] != ["a.part.part"] && ["a"] != ["a.part"];
    var r1 := RunTo(job, EmptyDisk, {}, 1);
    assert RunTo(job, EmptyDisk, {}, 0) == Run(EmptyDisk, {}, [], [], false);
    assert r1 == Run(Disk(map[["a.part"] := File(0, Some(0))], {}, 1), {0}, [0], [], false);
  }

  // ------------------------------------------------------------------------------------------------------
  // What becomes of each item
  // ------------------------------------------------------------------------------------------------------

  /** On the way up from the path the first thing there is, if any, is a folder. */
  predicate HasRoom(job: Job, disk: Disk, path: Path) {
    forall k :: 0 < k < |path| && job.key(path[..k]) in disk.files && job.key(path[..k]) !in disk.dirs ==>
      exists m :: k < m < |path| && job.key(path[..m]) in disk.dirs
  }

  /** The item may be written: no folder is there, nor a file but one that was recorded and that this run has not written;
      and there is room for it. */
  predicate Free(job: Job, r: Run, preexisting: set<Path>, i: nat)
    requires i < |job.paths|
  {
    var k := job.key(job.paths[i]);
    && k !in r.disk.dirs
    && (k in r.disk.files ==> job.paths[i] in preexisting && r.disk.files[k].id !in r.written)
    && HasRoom(job, r.disk, job.paths[i])
  }

  /** `k` is the least length above which nothing is there. */
  lemma {:induction false} BlockerIs(job: Job, disk: Disk, path: Path, k: nat)
    requires k <= |path|
    ensures BlockerFrom(job, disk, path, k).None?
            <==> forall n :: 0 < n <= k && job.key(path[..n]) in disk.files && job.key(path[..n]) !in disk.dirs ==>
                   exists m :: n < m <= k && job.key(path[..m]) in disk.dirs
  {
    if k > 0 {
      BlockerIs(job, disk, path, k - 1);
      var state := StateAt(disk, job.key(path[..k]));
      if state == Missing && BlockerFrom(job, disk, path, k).None? {
        forall n | 0 < n <= k && job.key(path[..n]) in disk.files && job.key(path[..n]) !in disk.dirs
          ensures exists m :: n < m <= k && job.key(path[..m]) in disk.dirs
        {
          var m :| n < m <= k - 1 && job.key(path[..m]) in disk.dirs;
        }
      } else if state == Missing {
        var n :| 0 < n <= k - 1 && job.key(path[..n]) in disk.files && job.key(path[..n]) !in disk.dirs
                 && !exists m :: n < m <= k - 1 && job.key(path[..m]) in disk.dirs;
        assert !exists m :: n < m <= k && job.key(path[..m]) in disk.dirs;
      }
    }
  }

  lemma TakenIs(job: Job, r: Run, preexisting: set<Path>, i: nat)
    requires i < |job.paths| && job.paths[i] != []
    ensures PathTaken(job, r, preexisting, job.paths[i]) <==> !Free(job, r, preexisting, i)
  {
    BlockerIs(job, r.disk, job.paths[i], |job.paths[i]| - 1);
    hide BlockerFrom;
  }

  /** What a run has done of each of the first `n` items: exported it, skipped it with the reason that fits, or stopped at
      it, for a folder where its part file goes. */
  ghost predicate Fates(job: Job, disk: Disk, preexisting: set<Path>, n: nat)
    requires Proper(job) && n <= |job.paths|
  {
    var r := RunTo(job, disk, preexisting, n);
    && (forall i :: 0 <= i < n ==>
          var before := RunTo(job, disk, preexisting, i);
          var free := Free(job, before, preexisting, i);
          && (i in r.exported <==>
                !before.failed && free && i in job.restorable && PartOf(job, i) !in before.disk.dirs)
          && ((i, Taken) in r.skipped <==> !before.failed && !free)
          && ((i, NoContent) in r.skipped <==> !before.failed && free && i !in job.restorable))
    && (r.failed <==>
          exists i :: 0 <= i < n && StopsAt(job, RunTo(job, disk, preexisting, i), preexisting, i))
    && (forall a, b :: 0 <= a < b < |r.skipped| ==> r.skipped[a].0 < r.skipped[b].0)
    && (forall a :: 0 <= a < |r.skipped| ==> r.skipped[a].0 < n)
    && InRange(job, r.exported, n)
  }

  predicate StopsAt(job: Job, before: Run, preexisting: set<Path>, i: nat)
    requires Proper(job) && i < |job.paths|
  {
    !before.failed && Free(job, before, preexisting, i) && i in job.restorable && PartOf(job, i) in before.disk.dirs
  }

  lemma NextFate(job: Job, r: Run, preexisting: set<Path>, i: nat)
    requires Proper(job) && i < |job.paths|
    ensures var (r', free) := (Next(job, r, preexisting, i), Free(job, r, preexisting, i));
            && (r'.failed <==> r.failed || StopsAt(job, r, preexisting, i))
            && r'.exported == r.exported + (if !r.failed && free && i in job.restorable && PartOf(job, i) !in r.disk.dirs
                                            then [i] else [])
            && r'.skipped == r.skipped + (if r.failed then [] else if !free then [(i, Taken)]
                                          else if i !in job.restorable then [(i, NoContent)] else [])
  {
    TakenIs(job, r, preexisting, i);
    hide Part, PathTaken, Free, Export;
  }

  /** In every run each item meets exactly one fate, and the lists are in the plan's order. */
  lemma {:induction false} EveryItemMeetsItsFate(job: Job, disk: Disk, preexisting: set<Path>, n: nat)
    requires Proper(job) && n <= |job.paths|
    ensures Fates(job, disk, preexisting, n)
  {
    hide Next, Free, StopsAt, Part;
    RunInRange(job, disk, preexisting, n);
    if n > 0 {
      EveryItemMeetsItsFate(job, disk, preexisting, n - 1);
      NextFate(job, RunTo(job, disk, preexisting, n - 1), preexisting, n - 1);
    }
  }

  // ------------------------------------------------------------------------------------------------------
  // What is left of everything else
  // ------------------------------------------------------------------------------------------------------

  /** What became of the file under `k`: nothing, or an item recorded as pre-existing replaced it, or a part file went
      there. */
  ghost predicate Accounted(job: Job, preexisting: set<Path>, disk: Disk, r: Run, k: Path)
    requires Proper(job) && InRange(job, r.exported, |job.paths|) && k in disk.files
  {
    || (k in r.disk.files && r.disk.files[k] == disk.files[k])
    || (exists a :: 0 <= a < |r.exported| && KeyOf(job, r.exported[a]) == k && job.paths[r.exported[a]] in preexisting)
    || (exists a :: 0 <= a < |r.exported| && PartOf(job, r.exported[a]) == k)
  }

  /** A run replaces only destinations recorded as pre-existing; any other file of before is untouched unless an
      exported item's part file went over it. */
  lemma {:induction false} OnlyRecordedAreReplaced(job: Job, disk: Disk, preexisting: set<Path>, n: nat, k: Path)
    requires Proper(job) && WellFormed(disk) && n <= |job.paths| && k in disk.files
    ensures InRange(job, RunTo(job, disk, preexisting, n).exported, |job.paths|)
    ensures Accounted(job, preexisting, disk, RunTo(job, disk, preexisting, n), k)
  {
    hide Next, AllIntact, NoClash, ClashesLose, Accounted;
    RunSettled(job, disk, preexisting, n);
    if n == 0 {
      NothingReplaced(job, preexisting, disk, RunTo(job, disk, preexisting, n), k);
    } else {
      OnlyRecordedAreReplaced(job, disk, preexisting, n - 1, k);
      RunSettled(job, disk, preexisting, n - 1);
      AccountedStep(job, preexisting, disk, RunTo(job, disk, preexisting, n - 1), n - 1,
                    RunTo(job, disk, preexisting, n), k);
    }
  }

  lemma NothingReplaced(job: Job, preexisting: set<Path>, disk: Disk, r: Run, k: Path)
    requires Proper(job) && InRange(job, r.exported, |job.paths|) && k in disk.files && r.disk == disk
    ensures Accounted(job, preexisting, disk, r, k)
  {
  }

  lemma AccountedStep(job: Job, preexisting: set<Path>, disk: Disk, r: Run, j: nat, r': Run, k: Path)
    requires Proper(job) && j < |job.paths| && WellFormed(r.disk) && k in disk.files
    requires InRange(job, r.exported, |job.paths|) && InRange(job, r'.exported, |job.paths|)
    requires r' == Next(job, r, preexisting, j) && Accounted(job, preexisting, disk, r, k)
    ensures Accounted(job, preexisting, disk, r', k)
  {
    hide Part, BlockerFrom, Blocker, Blocked, Made;
    assert r.exported <= r'.exported;
    if r'.exported != r.exported {
      assert r'.exported[|r.exported|] == j;
    }
    if a :| 0 <= a < |r.exported| && PartOf(job, r.exported[a]) == k {
      assert PartOf(job, r'.exported[a]) == k;
    } else if a :| 0 <= a < |r.exported| && KeyOf(job, r.exported[a]) == k && job.paths[r.exported[a]] in preexisting {
      assert KeyOf(job, r'.exported[a]) == k;
    }
  }

  /** The file under `k` is as it was. */
  predicate Unchanged(disk: Disk, disk': Disk, k: Path) {
    k in disk.files && k in disk'.files && disk'.files[k] == disk.files[k]
  }

  /** An exported item's file, or the part file it was staged in, went under `k`. */
  ghost predicate Hit(job: Job, exported: seq<nat>, k: Path)
    requires Proper(job) && InRange(job, exported, |job.paths|)
  {
    exists a :: 0 <= a < |exported| && (KeyOf(job, exported[a]) == k || PartOf(job, exported[a]) == k)
  }

  /** What a run that hit `k` left there: nothing, or an item's file. */
  ghost predicate KeptOrHit(job: Job, disk: Disk, r: Run, k: Path)
    requires Proper(job) && InRange(job, r.exported, |job.paths|)
  {
    if Hit(job, r.exported, k) then k in r.disk.files ==> r.disk.files[k].holds.Some? else Unchanged(disk, r.disk, k)
  }

  lemma HitMore(job: Job, exported: seq<nat>, exported': seq<nat>, j: nat, k: Path)
    requires Proper(job) && InRange(job, exported, |job.paths|) && InRange(job, exported', |job.paths|)
    requires j < |job.paths| && exported' == exported + [j]
    ensures Hit(job, exported', k) <==> Hit(job, exported, k) || KeyOf(job, j) == k || PartOf(job, j) == k
  {
    hide Part;
    assert exported'[|exported|] == j;
    if a :| 0 <= a < |exported| && (KeyOf(job, exported[a]) == k || PartOf(job, exported[a]) == k) {
      assert exported'[a] == exported[a];
    }
  }

  lemma KeptOrHitStep(job: Job, disk: Disk, preexisting: set<Path>, r: Run, j: nat, r': Run, k: Path)
    requires Proper(job) && j < |job.paths| && r' == Next(job, r, preexisting, j)
    requires InRange(job, r.exported, |job.paths|) && InRange(job, r'.exported, |job.paths|)
    requires KeptOrHit(job, disk, r, k)
    ensures KeptOrHit(job, disk, r', k)
  {
    hide Part, PathTaken, Made, Hit;
    if r'.exported != r.exported { HitMore(job, r.exported, r'.exported, j, k); }
  }

  lemma {:induction false} RunKeptOrHit(job: Job, disk: Disk, preexisting: set<Path>, n: nat, k: Path)
    requires Proper(job) && n <= |job.paths| && k in disk.files
    ensures InRange(job, RunTo(job, disk, preexisting, n).exported, |job.paths|)
    ensures KeptOrHit(job, disk, RunTo(job, disk, preexisting, n), k)
  {
    hide Next, KeptOrHit;
    RunInRange(job, disk, preexisting, n);
    if n == 0 {
      StartKept(job, disk, RunTo(job, disk, preexisting, n), k);
    } else {
      RunKeptOrHit(job, disk, preexisting, n - 1, k);
      KeptOrHitStep(job, disk, preexisting, RunTo(job, disk, preexisting, n - 1), n - 1,
                    RunTo(job, disk, preexisting, n), k);
    }
  }

  lemma StartKept(job: Job, disk: Disk, r: Run, k: Path)
    requires Proper(job) && r == Run(disk, {}, [], [], false) && k in disk.files
    ensures KeptOrHit(job, disk, r, k)
  {
  }

  /** A file of before the run is as it was exactly if no exported item is named as it, nor an exported item's part
      file. */
  lemma FileKeptExactly(job: Job, disk: Disk, preexisting: set<Path>, n: nat, k: Path)
    requires Proper(job) && n <= |job.paths| && k in disk.files && disk.files[k].holds == None
    ensures var r := RunTo(job, disk, preexisting, n);
            InRange(job, r.exported, |job.paths|) && (Unchanged(disk, r.disk, k) <==> !Hit(job, r.exported, k))
  {
    hide RunTo, Hit;
    RunKeptOrHit(job, disk, preexisting, n, k);
  }

  /** A file that is no recorded destination: the run has no business with it. */
  ghost predicate Stranger(job: Job, disk: Disk, preexisting: set<Path>, k: Path) {
    k in disk.files && forall path :: path in preexisting ==> job.key(path) != k
  }

  /** Nothing on the disk is of this run yet. */
  ghost predicate BeforeRun(disk: Disk) {
    WellFormed(disk) && forall k :: k in disk.files ==> disk.files[k].holds == None
  }

  /** Every file of before that is no recorded destination is as it was. */
  ghost predicate SparesStrangers(job: Job, disk: Disk, preexisting: set<Path>, n: nat)
    requires Proper(job) && n <= |job.paths|
  {
    forall k :: Stranger(job, disk, preexisting, k) ==> Unchanged(disk, RunTo(job, disk, preexisting, n).disk, k)
  }

  lemma StrangerKeptExactly(job: Job, disk: Disk, preexisting: set<Path>, n: nat, k: Path)
    requires Proper(job) && BeforeRun(disk) && n <= |job.paths| && Stranger(job, disk, preexisting, k)
    ensures var r := RunTo(job, disk, preexisting, n);
            && InRange(job, r.exported, |job.paths|)
            && (Unchanged(disk, r.disk, k) <==> forall a :: 0 <= a < |r.exported| ==> PartOf(job, r.exported[a]) != k)
  {
    hide RunTo, Part, WellFormed;
    FileKeptExactly(job, disk, preexisting, n, k);
    OnlyRecordedAreReplaced(job, disk, preexisting, n, k);
  }

  /** A run leaves every file but the recorded destinations as it was exactly if no exported item's part file is one of
      them. */
  lemma StrangersSparedExactly(job: Job, disk: Disk, preexisting: set<Path>, n: nat)
    requires Proper(job) && BeforeRun(disk) && n <= |job.paths|
    ensures var r := RunTo(job, disk, preexisting, n);
            && InRange(job, r.exported, |job.paths|)
            && (SparesStrangers(job, disk, preexisting, n)
                <==> forall a :: 0 <= a < |r.exported| ==>
                       !Stranger(job, disk, preexisting, PartOf(job, r.exported[a])))
  {
    hide RunTo, BeforeRun, Stranger, Unchanged, Part;
    RunInRange(job, disk, preexisting, n);
    forall k | Stranger(job, disk, preexisting, k)
      ensures var r := RunTo(job, disk, preexisting, n);
              Unchanged(disk, r.disk, k) <==> forall a :: 0 <= a < |r.exported| ==> PartOf(job, r.exported[a]) != k
    {
      StrangerKeptExactly(job, disk, preexisting, n, k);
    }
  }

  lemma {:induction false} SameBlocker(job: Job, job': Job, disk: Disk, path: Path, k: nat)
    requires job'.key == job.key && k <= |path|
    ensures BlockerFrom(job', disk, path, k) == BlockerFrom(job, disk, path, k)
  {
    if k > 0 { SameBlocker(job, job', disk, path, k - 1); }
  }

  /** With only item `i` to write, of a plan that was let through, the run exports it, and exactly it. */
  lemma {:induction false} SoloRun(job: Job, disk: Disk, preexisting: set<Path>, i: nat, n: nat)
    requires Proper(job) && i < |job.paths| && job.restorable == {i} && n <= |job.paths|
    requires LetThrough(job, disk, preexisting) && PartOf(job, i) !in disk.dirs
    ensures var r := RunTo(job, disk, preexisting, n);
            && !r.failed && r.exported == (if n <= i then [] else [i])
            && (n <= i ==> r.disk == disk && r.written == {})
  {
    hide Export, Part, Blocked, Proper;
    if n > 0 {
      SoloRun(job, disk, preexisting, i, n - 1);
      if n - 1 == i { assert !Obstructed(job, disk, i); }
    }
  }

  /** What a caller can tell after the preflight: whatever turns out to have content, a plan that was let through leaves
      every file but the recorded destinations as it was exactly if no item's part file is one of them. */
  lemma PlanSparesStrangersExactly(paths: seq<Path>, key: Path -> Path, disk: Disk, preexisting: set<Path>)
    requires Proper(Job(paths, key, {})) && BeforeRun(disk) && LetThrough(Job(paths, key, {}), disk, preexisting)
    ensures (forall restorable :: SparesStrangers(Job(paths, key, restorable), disk, preexisting, |paths|))
            <==> forall i :: 0 <= i < |paths| ==>
                   !Stranger(Job(paths, key, {}), disk, preexisting, key(Part(paths[i])))
  {
    hide RunTo, Part, SparesStrangers, LetThrough;
    var plan := Job(paths, key, {});
    if i :| 0 <= i < |paths| && Stranger(plan, disk, preexisting, key(Part(paths[i]))) {
      var job := Job(paths, key, {i});
      StillLetThrough(plan, job, disk, preexisting);
      SoloRun(job, disk, preexisting, i, |paths|);
      StrangersSparedExactly(job, disk, preexisting, |paths|);
      assert PartOf(job, RunTo(job, disk, preexisting, |paths|).exported[0]) == key(Part(paths[i]));
      assert !SparesStrangers(job, disk, preexisting, |paths|);
    } else {
      forall restorable ensures SparesStrangers(Job(paths, key, restorable), disk, preexisting, |paths|) {
        var job := Job(paths, key, restorable);
        StrangersSparedExactly(job, disk, preexisting, |paths|);
        forall j | j in RunTo(job, disk, preexisting, |paths|).exported
          ensures !Stranger(job, disk, preexisting, PartOf(job, j))
        {
          assert !Stranger(plan, disk, preexisting, key(Part(paths[j])));
        }
      }
    }
  }

  lemma StillLetThrough(job: Job, job': Job, disk: Disk, preexisting: set<Path>)
    requires LetThrough(job, disk, preexisting) && job'.paths == job.paths && job'.key == job.key
    ensures LetThrough(job', disk, preexisting)
  {
    forall i | 0 <= i < |job'.paths| ensures !Obstructed(job', disk, i) {
      assert !Obstructed(job, disk, i);
      if job.paths[i] != [] { SameBlocker(job, job', disk, job.paths[i], |job.paths[i]| - 1); }
    }
  }

  /** And they can be: an unrelated `a.part` beside a plan of the one item `a`. Preflight lets it through and the run
      reports `a` as exported; `a.part` is gone. */
  lemma StrangerLost()
    ensures var (job, disk) := (Job([["a"]], p => p, {0}), Disk(map[["a.part"] := File(0, None)], {}, 1));
            var r := RunTo(job, disk, {}, 1);
            && Proper(job) && BeforeRun(disk) && LetThrough(job, disk, {}) && Existing(job, disk, 1) == []
            && r.exported == [0] && !r.failed && ["a.part"] !in r.disk.files
  {
    var (job, disk) := (Job([["a"]], p => p, {0}), Disk(map[["a.part"] := File(0, None)], {}, 1));
    assert "a" + ".part" == "a.part" && ["a"][..0] == [];
    assert Part(["a"]) == ["a.part"];
    assert ["a"] != ["a.part"];
    assert !Obstructed(job, disk, 0);
    SoloRun(job, disk, {}, 0, 1);
    assert RunTo(job, disk, {}, 0) == Run(disk, {}, [], [], false);
  }

  /** Every file at the end is one of before, untouched, or an exported item at its path; every folder is one of before, or
      above an exported item. */
  ghost predicate OnlyItemsAdded(job: Job, disk: Disk, r: Run)
    requires Proper(job) && InRange(job, r.exported, |job.paths|)
  {
    && (forall k :: k in r.disk.files && !Unchanged(disk, r.disk, k) ==>
          exists a :: 0 <= a < |r.exported| && KeyOf(job, r.exported[a]) == k
                      && r.disk.files[k].holds == Some(r.exported[a]))
    && (forall d :: d in r.disk.dirs && d !in disk.dirs ==>
          exists a :: 0 <= a < |r.exported| && IsAbove(job, r.exported[a], d))
    && disk.dirs <= r.disk.dirs
  }

  predicate IsAbove(job: Job, i: nat, d: Path)
    requires i < |job.paths|
  {
    exists m :: 0 < m < |job.paths[i]| && job.key(job.paths[i][..m]) == d
  }

  lemma AddedStep(job: Job, disk: Disk, preexisting: set<Path>, r: Run, j: nat, r': Run)
    requires Proper(job) && j < |job.paths| && r' == Next(job, r, preexisting, j)
    requires InRange(job, r.exported, |job.paths|) && InRange(job, r'.exported, |job.paths|)
    requires OnlyItemsAdded(job, disk, r)
    ensures OnlyItemsAdded(job, disk, r')
  {
    hide Part, PathTaken, Made, IsAbove;
    if r'.exported != r.exported {
      assert r'.exported == r.exported + [j] && r'.exported[|r.exported|] == j;
      forall k | k in r'.disk.files && !Unchanged(disk, r'.disk, k)
        ensures exists a :: 0 <= a < |r'.exported| && KeyOf(job, r'.exported[a]) == k
                            && r'.disk.files[k].holds == Some(r'.exported[a])
      {
        if k != KeyOf(job, j) {
          assert k in r.disk.files && r.disk.files[k] == r'.disk.files[k];
          var a :| 0 <= a < |r.exported| && KeyOf(job, r.exported[a]) == k && r.disk.files[k].holds == Some(r.exported[a]);
          assert r'.exported[a] == r.exported[a];
        }
      }
      forall d | d in r'.disk.dirs && d !in disk.dirs
        ensures exists a :: 0 <= a < |r'.exported| && IsAbove(job, r'.exported[a], d)
      {
        if d in r.disk.dirs {
          var a :| 0 <= a < |r.exported| && IsAbove(job, r.exported[a], d);
          assert r'.exported[a] == r.exported[a];
        } else {
          MadeIsAbove(job, r.disk, j, d);
        }
      }
    }
  }

  lemma MadeIsAbove(job: Job, disk: Disk, i: nat, d: Path)
    requires i < |job.paths| && job.paths[i] != [] && d in Made(job, disk, job.paths[i], |job.paths[i]| - 1)
    ensures IsAbove(job, i, d)
  {
    MadeIsMissing(job, disk, job.paths[i], |job.paths[i]| - 1);
  }

  /** A run adds nothing to the disk but the exported items and the folders above them: no part file is left behind. */
  lemma {:induction false} NothingElseAppears(job: Job, disk: Disk, preexisting: set<Path>, n: nat)
    requires Proper(job) && n <= |job.paths|
    ensures InRange(job, RunTo(job, disk, preexisting, n).exported, |job.paths|)
    ensures OnlyItemsAdded(job, disk, RunTo(job, disk, preexisting, n))
  {
    hide Next, OnlyItemsAdded;
    RunInRange(job, disk, preexisting, n);
    if n == 0 {
      NothingAdded(job, disk, RunTo(job, disk, preexisting, n));
    } else {
      NothingElseAppears(job, disk, preexisting, n - 1);
      AddedStep(job, disk, preexisting, RunTo(job, disk, preexisting, n - 1), n - 1, RunTo(job, disk, preexisting, n));
    }
  }

  lemma NothingAdded(job: Job, disk: Disk, r: Run)
    requires Proper(job) && r == Run(disk, {}, [], [], false)
    ensures OnlyItemsAdded(job, disk, r)
  {
  }

  lemma ParentMade(job: Job, r: Run, preexisting: set<Path>, j: nat)
    requires j < |job.paths| && |job.paths[j]| > 1 && !PathTaken(job, r, preexisting, job.paths[j])
    ensures job.key(job.paths[j][..|job.paths[j]| - 1]) in Export(job, r.disk, j).dirs
  {
  }

  lemma NextParents(job: Job, r: Run, preexisting: set<Path>, j: nat)
    requires Proper(job) && j < |job.paths|
    ensures r.disk.dirs <= Next(job, r, preexisting, j).disk.dirs
    ensures Next(job, r, preexisting, j).exported == r.exported
            || (Next(job, r, preexisting, j).exported == r.exported + [j]
                && (|job.paths[j]| > 1 ==>
                      job.key(job.paths[j][..|job.paths[j]| - 1]) in Next(job, r, preexisting, j).disk.dirs))
  {
    if |job.paths[j]| > 1 && !PathTaken(job, r, preexisting, job.paths[j]) { ParentMade(job, r, preexisting, j); }
    hide Part, PathTaken, Made;
  }

  /** The folder of every exported item is there. */
  lemma {:induction false} FoldersAreMade(job: Job, disk: Disk, preexisting: set<Path>, n: nat, a: nat)
    requires Proper(job) && n <= |job.paths| && a < |RunTo(job, disk, preexisting, n).exported|
    ensures InRange(job, RunTo(job, disk, preexisting, n).exported, n)
    ensures var (r, i) := (RunTo(job, disk, preexisting, n), RunTo(job, disk, preexisting, n).exported[a]);
            i < |job.paths| && (|job.paths[i]| > 1 ==> job.key(job.paths[i][..|job.paths[i]| - 1]) in r.disk.dirs)
  {
    hide Next, Part;
    RunInRange(job, disk, preexisting, n);
    if n > 0 {
      NextParents(job, RunTo(job, disk, preexisting, n - 1), preexisting, n - 1);
      if a < |RunTo(job, disk, preexisting, n - 1).exported| { FoldersAreMade(job, disk, preexisting, n - 1, a); }
    }
  }
}
