/** The push plan: the difference between what the client lists and what the server has. */
module Plan {
  import opened Paths
  import opened PathSort
  import opened FileTree
  import opened Manifest

  datatype CommitPlan = CommitPlan(
    reset: bool,
    uploads: Listing,
    createDirs: seq<Path>,
    deleteFiles: seq<Path>,
    deleteDirs: seq<Path>,
    baseline: Listing)

  predicate SameFile(a: Entry, b: Entry) {
    a.FileEntry? && b.FileEntry? && a == b
  }

  predicate NeedsUpload(client: Listing, server: Listing, p: Path) {
    p in client && client[p].FileEntry? && (p !in server || !SameFile(client[p], server[p]))
  }

  predicate NeedsDir(client: Listing, server: Listing, p: Path) {
    p in client && client[p].DirEntry? && (p !in server || server[p].FileEntry?)
  }

  /** A directory that a listed file takes the place of. */
  predicate TypeReplaced(client: Listing, server: Listing, q: Path) {
    q in client && client[q].FileEntry? && q in server && server[q].DirEntry?
  }

  predicate BelowReplaced(client: Listing, server: Listing, p: Path) {
    exists q | q in Ancestors(p) :: TypeReplaced(client, server, q)
  }

  predicate DoomedFile(client: Listing, server: Listing, extra: bool, p: Path) {
    && p in server && server[p].FileEntry?
    && ((p in client && client[p].DirEntry?) || BelowReplaced(client, server, p) || (extra && p !in client))
  }

  predicate DoomedDir(client: Listing, server: Listing, extra: bool, p: Path) {
    && p in server && server[p].DirEntry?
    && (TypeReplaced(client, server, p) || BelowReplaced(client, server, p) || (extra && p !in client))
  }

  /** The plan holds exactly what the two listings call for, in the order it is applied. */
  ghost predicate IsPlan(client: Listing, server: Listing, extra: bool, plan: CommitPlan) {
    && plan.baseline == server
    && (forall p :: p in plan.uploads <==> NeedsUpload(client, server, p))
    && (forall p :: p in plan.uploads ==> plan.uploads[p] == client[p])
    && (forall p :: p in plan.createDirs <==> NeedsDir(client, server, p))
    && (forall p :: p in plan.deleteFiles <==> DoomedFile(client, server, extra, p))
    && (forall p :: p in plan.deleteDirs <==> DoomedDir(client, server, extra, p))
    && Sorted(ByName, plan.createDirs) && Sorted(ByName, plan.deleteFiles)
    && Sorted(DeepestFirst, plan.deleteDirs)
  }

  /** `path.starts_with(prefix + "/")`. */
  lemma StartsWithSlash(q: Path, p: Path)
    ensures q + ['/'] <= p <==> Ancestor(q, p)
  {
    if q + ['/'] <= p { assert p[..|q| + 1] == q + ['/']; assert p[|q|] == '/'; assert p[..|q|] == (q + ['/'])[..|q|] == q; }
    if Ancestor(q, p) { assert p[..|q| + 1] == p[..|q|] + [p[|q|]]; }
  }

  /** The entries below a replaced directory, split by kind. */
  method PlanReplacement(server: Listing, dir: Path) returns (files: seq<Path>, dirs: seq<Path>)
    requires dir in server && server[dir].DirEntry?
    ensures forall p :: p in files <==> p in server && server[p].FileEntry? && Ancestor(dir, p)
    ensures forall p :: p in dirs <==> p in server && server[p].DirEntry? && Under(dir, p)
  {
    files, dirs := [], [];
    var names := InOrder(server.Keys);
    for i := 0 to |names|
      invariant forall p :: p in files <==> p in names[..i] && server[p].FileEntry? && Ancestor(dir, p)
      invariant forall p :: p in dirs <==> p in names[..i] && server[p].DirEntry? && Ancestor(dir, p)
    {
      var child := names[i];
      assert child in names;
      StartsWithSlash(dir, child);
      if dir + ['/'] <= child {
        if server[child].FileEntry? { files := files + [child]; } else { dirs := dirs + [child]; }
      }
      assert names[..i + 1] == names[..i] + [child];
    }
    assert names[..|names|] == names;
    dirs := dirs + [dir];
  }

  /** The files and directories that the client entry `path` calls to delete. */
  function FilesFor(client: Listing, server: Listing, path: Path): set<Path> {
    set p | p in server && server[p].FileEntry?
            && ((p == path && p in client && client[p].DirEntry?) || (TypeReplaced(client, server, path) && Ancestor(path, p)))
  }

  function DirsFor(client: Listing, server: Listing, path: Path): set<Path> {
    set p | p in server && server[p].DirEntry? && TypeReplaced(client, server, path) && Under(path, p)
  }

  ghost function FilesOf(client: Listing, server: Listing, done: seq<Path>): set<Path> {
    if done == [] then {}
    else FilesOf(client, server, done[..|done| - 1]) + FilesFor(client, server, done[|done| - 1])
  }

  ghost function DirsOf(client: Listing, server: Listing, done: seq<Path>): set<Path> {
    if done == [] then {}
    else DirsOf(client, server, done[..|done| - 1]) + DirsFor(client, server, done[|done| - 1])
  }

  lemma {:induction false} DeletionsOf(client: Listing, server: Listing, done: seq<Path>, p: Path)
    ensures p in FilesOf(client, server, done) <==> exists q :: q in done && p in FilesFor(client, server, q)
    ensures p in DirsOf(client, server, done) <==> exists q :: q in done && p in DirsFor(client, server, q)
  {
    if done != [] {
      var n := |done| - 1;
      DeletionsOf(client, server, done[..n], p);
      assert done == done[..n] + [done[n]];
      assert forall q :: q in done <==> q in done[..n] || q == done[n];
    }
  }

  /** The lists after the client entries `done`. */
  ghost predicate Planned(client: Listing, server: Listing, done: seq<Path>, plan: CommitPlan) {
    && plan.baseline == server
    && plan.uploads == (map p | p in client && p in done && NeedsUpload(client, server, p) :: client[p])
    && Holds(plan.createDirs, set p | p in done && NeedsDir(client, server, p))
    && Holds(plan.deleteFiles, FilesOf(client, server, done))
    && Holds(plan.deleteDirs, DirsOf(client, server, done))
  }

  ghost predicate Holds(list: seq<Path>, s: set<Path>) {
    forall p :: p in list <==> p in s
  }

  /** A listed directory. */
  method PlanDir(client: Listing, server: Listing, ghost done: seq<Path>, path: Path, plan: CommitPlan) returns (r: CommitPlan)
    requires path in client && client[path].DirEntry? && Planned(client, server, done, plan)
    ensures Planned(client, server, done + [path], r) && r.reset == plan.reset
  {
    assert (done + [path])[..|done|] == done;
    var createDirs, deleteFiles := plan.createDirs, plan.deleteFiles;
    if path !in server || !server[path].DirEntry? { createDirs := createDirs + [path]; }
    if path in server && server[path].FileEntry? { deleteFiles := deleteFiles + [path]; }
    r := plan.(createDirs := createDirs, deleteFiles := deleteFiles);
  }

  /** A listed file. */
  method PlanFile(client: Listing, server: Listing, ghost done: seq<Path>, path: Path, plan: CommitPlan) returns (r: CommitPlan)
    requires path in client && client[path].FileEntry? && Planned(client, server, done, plan)
    ensures Planned(client, server, done + [path], r) && r.reset == plan.reset
  {
    assert (done + [path])[..|done|] == done;
    var entry := client[path];
    var uploads := plan.uploads;
    if path !in server || !SameFile(entry, server[path]) { uploads := uploads[path := entry]; }
    var files: seq<Path>, dirs: seq<Path> := [], [];
    if path in server && server[path].DirEntry? {
      files, dirs := PlanReplacement(server, path);
    }
    r := plan.(uploads := uploads, deleteFiles := plan.deleteFiles + files, deleteDirs := plan.deleteDirs + dirs);
  }

  method PlanEntries(client: Listing, server: Listing, reset: bool) returns (plan: CommitPlan)
    ensures plan.reset == reset && plan.baseline == server
    ensures forall p :: p in plan.uploads <==> NeedsUpload(client, server, p)
    ensures forall p :: p in plan.uploads ==> p in client && plan.uploads[p] == client[p]
    ensures forall p :: p in plan.createDirs <==> NeedsDir(client, server, p)
    ensures forall p :: p in plan.deleteFiles <==> DoomedFile(client, server, false, p)
    ensures forall p :: p in plan.deleteDirs <==> DoomedDir(client, server, false, p)
  {
    plan := CommitPlan(reset, map[], [], [], [], server);
    var names := InOrder(client.Keys);
    for i := 0 to |names|
      invariant plan.reset == reset && Planned(client, server, names[..i], plan)
    {
      assert names[i] in names;
      if client[names[i]].DirEntry? {
        plan := PlanDir(client, server, names[..i], names[i], plan);
      } else {
        plan := PlanFile(client, server, names[..i], names[i], plan);
      }
      assert names[..i + 1] == names[..i] + [names[i]];
    }
    assert names[..|names|] == names;
    DoneAll(client, server, names);
  }

  /** `create_plan`, from the validated client listing and the scanned server listing. */
  method CreatePlan(client: Listing, server: Listing, deleteExtra: bool, reset: bool) returns (plan: CommitPlan)
    ensures plan.reset == reset
    ensures IsPlan(client, if reset then map[] else server, deleteExtra && !reset, plan)
  {
    var baseline := if reset then map[] else server;
    plan := PlanEntries(client, baseline, reset);
    if deleteExtra && !reset {
      plan := PlanExtra(client, baseline, plan);
    }
    var createDirs := SortPaths(ByName, plan.createDirs);
    var deleteFiles := SortPaths(ByName, plan.deleteFiles);
    var deleteDirs := SortPaths(DeepestFirst, plan.deleteDirs);
    plan := plan.(createDirs := createDirs, deleteFiles := deleteFiles, deleteDirs := deleteDirs);
  }

  lemma DoneAll(client: Listing, server: Listing, names: seq<Path>)
    requires forall p :: p in names <==> p in client
    ensures forall p :: p in FilesOf(client, server, names) <==> DoomedFile(client, server, false, p)
    ensures forall p :: p in DirsOf(client, server, names) <==> DoomedDir(client, server, false, p)
  {
    forall p ensures p in FilesOf(client, server, names) <==> DoomedFile(client, server, false, p)
             ensures p in DirsOf(client, server, names) <==> DoomedDir(client, server, false, p)
    {
      DeletionsOf(client, server, names, p);
      if p in server && p in client && client[p].DirEntry? && server[p].FileEntry? {
        assert p in FilesFor(client, server, p);
      }
      if BelowReplaced(client, server, p) && p in server {
        var q :| q in Ancestors(p) && TypeReplaced(client, server, q);
        assert q in names;
        if server[p].FileEntry? { assert p in FilesFor(client, server, q); }
        else { assert p in DirsFor(client, server, q); }
      }
      if TypeReplaced(client, server, p) { assert p in DirsFor(client, server, p); }
    }
  }

  method PlanExtra(client: Listing, server: Listing, plan: CommitPlan) returns (r: CommitPlan)
    ensures r.baseline == plan.baseline && r.uploads == plan.uploads && r.createDirs == plan.createDirs && r.reset == plan.reset
    ensures forall p :: p in r.deleteFiles <==> p in plan.deleteFiles || (p in server && server[p].FileEntry? && p !in client)
    ensures forall p :: p in r.deleteDirs <==> p in plan.deleteDirs || (p in server && server[p].DirEntry? && p !in client)
  {
    r := plan;
    var names := InOrder(server.Keys);
    for i := 0 to |names|
      invariant r.baseline == plan.baseline && r.uploads == plan.uploads && r.createDirs == plan.createDirs && r.reset == plan.reset
      invariant forall p :: p in r.deleteFiles <==>
        p in plan.deleteFiles || (p in names[..i] && server[p].FileEntry? && p !in client)
      invariant forall p :: p in r.deleteDirs <==>
        p in plan.deleteDirs || (p in names[..i] && server[p].DirEntry? && p !in client)
    {
      var current := names[i];
      assert current in names;
      if current !in client {
        if server[current].FileEntry? {
          r := r.(deleteFiles := r.deleteFiles + [current]);
        } else {
          r := r.(deleteDirs := r.deleteDirs + [current]);
        }
      }
      assert names[..i + 1] == names[..i] + [current];
    }
    assert names[..|names|] == names;
  }
}
