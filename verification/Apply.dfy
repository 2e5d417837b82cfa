/** `apply_commit`: check the staged files and the baseline, run the operations, settle. */
module Apply {
  import opened Paths
  import opened PathSort
  import opened FileTree
  import opened Transaction
  import opened Manifest
  import opened Plan
  import opened Commit

  /** `ensure_baseline_matches`: the path is still what the plan was made from. */
  predicate BaselineMatches(t: Tree, a: Path, baseline: Option<Entry>) {
    match baseline
    case None => a !in t
    case Some(e) => a in t && EntryOf(t[a]) == e
  }

  function Touched(plan: CommitPlan): set<Path> {
    SetOf(plan.createDirs) + plan.uploads.Keys + SetOf(plan.deleteFiles) + SetOf(plan.deleteDirs)
  }

  function BaselineOf(plan: CommitPlan, p: Path): Option<Entry> {
    if p in plan.baseline then Some(plan.baseline[p]) else None
  }

  ghost predicate BaselineHolds(project: Path, t: Tree, plan: CommitPlan) {
    forall p :: p in Touched(plan) ==> BaselineMatches(t, Join(project, p), BaselineOf(plan, p))
  }

  /** What the plan was made from is still there, where that was something. */
  ghost predicate KnownHolds(project: Path, t: Tree, plan: CommitPlan) {
    forall p :: p in Touched(plan) && p in plan.baseline ==> BaselineMatches(t, Join(project, p), Some(plan.baseline[p]))
  }

  ghost predicate StagedHolds(files: Path, t: Tree, plan: CommitPlan) {
    forall p :: p in plan.uploads ==> StagedAt(t, files, p, plan.uploads[p])
  }

  /** What is wrong with a staged file. */
  function StagedProblem(t: Tree, files: Path, p: Path, e: Entry): Option<SyncError>
    requires e.FileEntry?
  {
    match Get(t, Join(files, p))
    case None => Some(NotFound)
    case Some(Dir) => Some(BadRequest)
    case Some(File(content, _, _)) => if content != e.content then Some(Conflict) else None
  }

  /** Nothing is wrong with a staged file exactly if it holds what was promised. */
  lemma StagedProblemMeans(t: Tree, files: Path, p: Path, e: Entry)
    requires e.FileEntry?
    ensures StagedProblem(t, files, p, e) == None <==> FileAt(t, Join(files, p)) && t[Join(files, p)].content == e.content
    ensures StagedAt(t, files, p, e) <==> FileAt(t, Join(files, p)) && t[Join(files, p)].content == e.content
  {
  }

  /** Every upload is still staged with the content that was promised. */
  method VerifyStaged(fs: FileSystem, files: Path, plan: CommitPlan) returns (r: Result<()>)
    requires fs.Valid() && forall p :: p in plan.uploads ==> plan.uploads[p].FileEntry?
    modifies fs`faults
    ensures fs.faults >= old(fs.faults)
    ensures r.Ok? ==> StagedHolds(files, fs.tree, plan)
    ensures r.Err? && fs.faults == old(fs.faults) ==>
      exists p :: p in plan.uploads && StagedProblem(fs.tree, files, p, plan.uploads[p]) == Some(r.error)
    ensures r.Err? && StagedHolds(files, fs.tree, plan) ==> fs.faults > old(fs.faults)
  {
    var names := InOrder(plan.uploads.Keys);
    for i := 0 to |names|
      invariant fs.faults >= old(fs.faults)
      invariant forall k :: 0 <= k < i ==> StagedAt(fs.tree, files, names[k], plan.uploads[names[k]])
    {
      assert names[i] in names;
      var staged := fs.Inspect(Join(files, names[i]));
      if staged.None? { return Err(Internal); }
      if staged.value.None? { return Err(NotFound); }
      if staged.value.value.Dir? { return Err(BadRequest); }
      if staged.value.value.content != plan.uploads[names[i]].content { return Err(Conflict); }
    }
    r := Ok(());
  }

  /** `Path::exists` takes every failure for absence, `is_file` and `is_dir` take it for another
      kind; only reading a file reports it. */
  method CheckOne(fs: FileSystem, a: Path, baseline: Option<Entry>) returns (r: Result<()>)
    requires fs.Valid()
    modifies fs`faults
    ensures fs.faults >= old(fs.faults) && (r.Err? ==> r.error == Conflict || (r.error == Internal && fs.faults > old(fs.faults)))
    ensures r.Ok? && (baseline.Some? || fs.faults == old(fs.faults)) ==> BaselineMatches(fs.tree, a, baseline)
    ensures r.Err? && BaselineMatches(fs.tree, a, baseline) ==> fs.faults > old(fs.faults)
  {
    var found := fs.Inspect(a);
    match baseline {
      case None => return if found.None? || found.value.None? then Ok(()) else Err(Conflict);
      case Some(e) =>
        if found.None? || found.value.None? || found.value.value.Dir? != e.DirEntry? { return Err(Conflict); }
        if e.DirEntry? { return Ok(()); }
        var current := fs.Inspect(a);
        if current.None? { return Err(Internal); }
        return if current.value.Some? && EntryOf(current.value.value) == e then Ok(()) else Err(Conflict);
    }
  }

  method CheckBaseline(fs: FileSystem, project: Path, plan: CommitPlan) returns (r: Result<()>)
    requires fs.Valid()
    modifies fs`faults
    ensures fs.faults >= old(fs.faults)
    ensures r.Ok? ==> KnownHolds(project, fs.tree, plan)
    ensures r.Ok? && fs.faults == old(fs.faults) ==> BaselineHolds(project, fs.tree, plan)
    ensures r.Err? ==> r.error == Conflict || (r.error == Internal && fs.faults > old(fs.faults))
    ensures r.Err? && BaselineHolds(project, fs.tree, plan) ==> fs.faults > old(fs.faults)
  {
    var names := InOrder(Touched(plan));
    for i := 0 to |names|
      invariant fs.faults >= old(fs.faults)
      invariant forall k :: 0 <= k < i && names[k] in plan.baseline ==>
        BaselineMatches(fs.tree, Join(project, names[k]), Some(plan.baseline[names[k]]))
      invariant fs.faults == old(fs.faults) ==>
        forall k :: 0 <= k < i ==> BaselineMatches(fs.tree, Join(project, names[k]), BaselineOf(plan, names[k]))
    {
      assert names[i] in names;
      var checked := CheckOne(fs, Join(project, names[i]), BaselineOf(plan, names[i]));
      if checked.Err? { return checked; }
    }
    r := Ok(());
  }

  /** The project subtree of `a` is that of `b`. */
  ghost predicate SameProject(project: Path, a: Tree, b: Tree) {
    forall p :: Under(project, p) ==> Get(a, p) == Get(b, p)
  }

  /** Staged files are back, up to modification time and executable bit. */
  ghost predicate StagedBack(files: Path, a: Tree, b: Tree) {
    forall p :: Under(files, p) ==>
      (p in a <==> p in b) && (p in a ==> SameContent(a[p], b[p]))
  }

  /** `settle_transaction`: an error is passed on only when everything was undone. */
  method SettleTransaction<T>(result: Result<T>, tx: CommitTransaction) returns (r: Result<T>)
    requires tx.Valid()
    modifies tx`changes, tx.fs
    ensures tx.fs.Valid() && tx.fs.faults >= old(tx.fs.faults)
    ensures result.Ok? ==> r == result && tx.fs.tree == old(tx.fs.tree)
    ensures result.Err? ==> r == result || r == Err(ProjectReuploadRequired)
    ensures result.Err? && r != Err(ProjectReuploadRequired) ==>
      SameProject(tx.areas.project, tx.fs.tree, tx.start) && StagedBack(tx.areas.files, tx.fs.tree, tx.start)
    ensures result.Err? && result.error != ProjectReuploadRequired && r == Err(ProjectReuploadRequired)
            ==> tx.fs.faults > old(tx.fs.faults)
  {
    if result.Ok? { return result; }
    var undone := tx.Rollback();
    if undone {
      UndoneProject(tx.areas, tx.fs.tree, tx.start);
      return result;
    }
    r := Err(ProjectReuploadRequired);
  }

  lemma UndoneProject(areas: Areas, t: Tree, start: Tree)
    requires areas.Valid() && SameTree(areas.files, t, start)
    ensures SameProject(areas.project, t, start) && StagedBack(areas.files, t, start)
  {
    forall p | Under(areas.project, p) ensures Get(t, p) == Get(start, p) {
      SeparateSubtrees(areas.project, areas.files, p, areas.files);
      assert p in t <==> p in start;
    }
    forall p | Under(areas.files, p)
      ensures (p in t <==> p in start) && (p in t ==> SameContent(t[p], start[p]))
    {
      assert p in t <==> p in start;
    }
  }

  /** The private staging directory is in place. */
  ghost predicate StagingReady(areas: Areas, t: Tree) {
    areas.Valid() && Resolves(t, areas.backups) && (areas.backups in t ==> t[areas.backups].Dir?)
  }

  /** `CommitTransaction::new`: make the backup directory unless it is there. */
  method NewTransaction(fs: FileSystem, areas: Areas) returns (tx: CommitTransaction?)
    requires fs.Valid() && StagingReady(areas, fs.tree)
    modifies fs
    ensures fs.Valid() && fs.faults >= old(fs.faults)
    ensures fs.tree == old(fs.tree) || (areas.backups !in old(fs.tree) && fs.tree == old(fs.tree)[areas.backups := Dir])
    ensures tx == null ==> fs.tree == old(fs.tree) && fs.faults > old(fs.faults)
    ensures tx != null ==> fresh(tx) && tx.Valid() && tx.fs == fs && tx.areas == areas && tx.start == fs.tree
  {
    tx := null;
    if areas.backups !in fs.tree {
      var made := fs.CreateDir(areas.backups);
      if !made { return; }
    }
    tx := new CommitTransaction(fs, areas);
  }

  /** The backup directory is nothing that a plan looks at. */
  lemma BackupsApart(areas: Areas, t: Tree, u: Tree, plan: CommitPlan)
    requires areas.Valid()
    requires u == t || (areas.backups !in t && u == t[areas.backups := Dir])
    ensures SameProject(areas.project, u, t)
    ensures forall p :: Under(areas.files, p) ==> Get(u, p) == Get(t, p)
    ensures forall p :: Get(u, Join(areas.project, p)) == Get(t, Join(areas.project, p))
    ensures Ready(areas.project, t, plan) ==> Ready(areas.project, u, plan)
    ensures RootUsable(areas.project, u) ==> RootUsable(areas.project, t)
    ensures StagedHolds(areas.files, t, plan) <==> StagedHolds(areas.files, u, plan)
  {
    forall p | Under(areas.project, p) || Under(areas.files, p) ensures p != areas.backups {}
    forall p ensures Get(u, Join(areas.project, p)) == Get(t, Join(areas.project, p))
             ensures Get(u, Join(areas.files, p)) == Get(t, Join(areas.files, p))
    {
      JoinAncestor(areas.project, p, p);
      JoinAncestor(areas.files, p, p);
    }
    forall p ensures FileAt(u, Join(areas.project, p)) <==> FileAt(t, Join(areas.project, p))
             ensures DirAt(u, Join(areas.project, p)) <==> DirAt(t, Join(areas.project, p))
             ensures Join(areas.project, p) in u <==> Join(areas.project, p) in t
    {
      assert Get(u, Join(areas.project, p)) == Get(t, Join(areas.project, p));
    }
    forall p | p in plan.uploads
      ensures StagedAt(t, areas.files, p, plan.uploads[p]) <==> StagedAt(u, areas.files, p, plan.uploads[p])
    {
      assert Get(u, Join(areas.files, p)) == Get(t, Join(areas.files, p));
    }
  }

  /** What a commit promises, whatever fails on the way. */
  ghost predicate Committed(areas: Areas, t: Tree, u: Tree, plan: CommitPlan, r: Result<Response>) {
    match r
    case Ok(response) =>
      && Applied(areas.project, t, u, plan)
      && NoStray(areas.project, t, plan.deleteFiles, plan.deleteDirs) && DirsFree(areas.project, t, plan)
      && StagedHolds(areas.files, t, plan) && KnownHolds(areas.project, t, plan) && RootUsable(areas.project, t)
      && Reports(areas.project, t, plan, response)
    case Err(ProjectReuploadRequired) => true
    case Err(_) => SameProject(areas.project, u, t) && StagedBack(areas.files, u, t)
  }

  method ApplyCommit(fs: FileSystem, areas: Areas, plan: CommitPlan) returns (r: Result<Response>)
    requires fs.Valid() && StagingReady(areas, fs.tree) && Ordered(plan)
    modifies fs
    ensures fs.Valid() && fs.faults >= old(fs.faults)
    ensures Committed(areas, old(fs.tree), fs.tree, plan, r)
    ensures r == Err(ProjectReuploadRequired) ==> fs.faults > old(fs.faults)
    ensures r.Ok? && fs.faults == old(fs.faults) ==> BaselineHolds(areas.project, old(fs.tree), plan)
    ensures fs.faults == old(fs.faults) && !StagedHolds(areas.files, old(fs.tree), plan) ==>
      r.Err? && exists p :: p in plan.uploads && StagedProblem(old(fs.tree), areas.files, p, plan.uploads[p]) == Some(r.error)
    ensures fs.faults == old(fs.faults) && StagedHolds(areas.files, old(fs.tree), plan) && !BaselineHolds(areas.project, old(fs.tree), plan) ==>
      r == Err(Conflict)
    ensures r.Err? && StagedHolds(areas.files, old(fs.tree), plan) && BaselineHolds(areas.project, old(fs.tree), plan)
            && Ready(areas.project, old(fs.tree), plan)
            ==> fs.faults > old(fs.faults)
  {
    ghost var t := fs.tree;
    var staged := VerifyStaged(fs, areas.files, plan);
    if staged.Err? { return Err(staged.error); }
    var baseline := CheckBaseline(fs, areas.project, plan);
    if baseline.Err? { return Err(baseline.error); }
    var tx := NewTransaction(fs, areas);
    BackupsApart(areas, t, fs.tree, plan);
    if tx == null { return Err(Internal); }
    ghost var start := fs.tree;
    var result := RunOperations(tx, plan);
    r := SettleTransaction(result, tx);
    CommittedFrom(areas, t, start, fs.tree, plan, r);
  }

  lemma CommittedFrom(areas: Areas, t: Tree, start: Tree, u: Tree, plan: CommitPlan, r: Result<Response>)
    requires areas.Valid() && (start == t || (areas.backups !in t && start == t[areas.backups := Dir]))
    requires StagedHolds(areas.files, t, plan) && KnownHolds(areas.project, t, plan)
    requires r.Ok? ==> Applied(areas.project, start, u, plan) && RootUsable(areas.project, start) && Reports(areas.project, start, plan, r.value)
                       && NoStray(areas.project, start, plan.deleteFiles, plan.deleteDirs) && DirsFree(areas.project, start, plan)
    requires r.Err? && r.error != ProjectReuploadRequired ==>
      SameProject(areas.project, u, start) && StagedBack(areas.files, u, start)
    ensures Committed(areas, t, u, plan, r)
  {
    BackupsApart(areas, t, start, plan);
    forall p ensures Join(areas.project, p) in start <==> Join(areas.project, p) in t
             ensures FileAt(start, Join(areas.project, p)) <==> FileAt(t, Join(areas.project, p))
    {
      assert Get(start, Join(areas.project, p)) == Get(t, Join(areas.project, p));
    }
    forall p | Under(areas.files, p) ensures p in start <==> p in t
                                     ensures p in t ==> start[p] == t[p]
    {
      assert Get(start, p) == Get(t, p);
    }
    forall p ensures AppliedAt(areas.project, start, plan, p) == AppliedAt(areas.project, t, plan, p) {
      assert Get(start, Join(areas.project, p)) == Get(t, Join(areas.project, p));
    }
  }
}
