/** Applying a push plan: deletions, directories, uploads, and settlement. */
module Commit {
  import opened Paths
  import opened PathSort
  import opened FileTree
  import opened Transaction
  import opened Manifest
  import opened Plan

  datatype Response = Response(uploaded: set<Path>, created: seq<Path>, deletedFiles: seq<Path>, deletedDirs: seq<Path>)

  function NodeOf(e: Entry): Node {
    match e
    case FileEntry(content, ms, executable) => File(content, MsToTime(ms), executable)
    case DirEntry => Dir
  }

  function SetOf(s: seq<Path>): set<Path> {
    set p | p in s
  }

  /** The tree `t` while a plan is applied to `t0`: `gone` is deleted, `made` is created or
      installed, and the staged files `moved` have left the staging area. */
  ghost predicate Progress(areas: Areas, t0: Tree, t: Tree, gone: set<Path>, made: Tree, moved: set<Path>) {
    && Below(t, areas.project) == (Below(t0, areas.project) - gone) + made
    && Below(t, areas.files) - moved == Below(t0, areas.files) - moved
    && Get(t, areas.project) == Some(Dir)
  }

  /** A project path and a staged path are neither equal nor nested, and neither is a backup. */
  lemma AreasApart(areas: Areas, a: Path, s: Path)
    requires areas.Valid() && Ancestor(areas.project, a) && Ancestor(areas.files, s)
    ensures Separate(a, s) && !Under(areas.files, a) && !Under(areas.project, s)
    ensures !Under(areas.backups, a) && !Under(areas.backups, s)
    ensures !Under(a, areas.project) && !Under(s, areas.project) && !Under(areas.backups, areas.project)
  {
    SeparateSubtrees(areas.project, areas.files, a, s);
    SeparateSubtrees(areas.project, areas.files, a, areas.files);
    SeparateSubtrees(areas.project, areas.backups, a, areas.backups);
    SeparateSubtrees(areas.files, areas.backups, s, areas.backups);
    SeparateSubtrees(areas.project, areas.files, areas.project, s);
  }

  lemma ProjectApart(areas: Areas, a: Path)
    requires areas.Valid() && Ancestor(areas.project, a)
    ensures !Under(areas.files, a) && !Under(areas.backups, a) && !Under(a, areas.project)
    ensures forall s :: Ancestor(areas.files, s) ==> Separate(a, s) && !Under(areas.backups, s)
  {
    SeparateSubtrees(areas.project, areas.files, a, areas.files);
    SeparateSubtrees(areas.project, areas.backups, a, areas.backups);
    forall s | Ancestor(areas.files, s) ensures Separate(a, s) && !Under(areas.backups, s) { AreasApart(areas, a, s); }
  }

  lemma DeletedViews(areas: Areas, t: Tree, t2: Tree, a: Path)
    requires areas.Valid() && Ancestor(areas.project, a) && Deleted(areas, t, t2, a) && EmptyBelow(t, a)
    ensures Below(t2, areas.project) == Below(t, areas.project) - {a}
    ensures Below(t2, areas.files) == Below(t, areas.files)
    ensures Get(t2, areas.project) == Get(t, areas.project)
  {
    ProjectApart(areas, a);
    forall b | Ancestor(areas.project, b) ensures Get(t2, b) == Get(Below(t, areas.project) - {a}, b) {
      ProjectApart(areas, b);
    }
    BelowEqual(t2, areas.project, Below(t, areas.project) - {a});
    BelowEqual(t2, areas.files, Below(t, areas.files));
  }

  lemma MadeViews(areas: Areas, t: Tree, a: Path, n: Node)
    requires areas.Valid() && Ancestor(areas.project, a)
    ensures Below(t[a := n], areas.project) == Below(t, areas.project)[a := n]
    ensures Below(t[a := n], areas.files) == Below(t, areas.files)
    ensures Get(t[a := n], areas.project) == Get(t, areas.project)
  {
    ProjectApart(areas, a);
    BelowEqual(t[a := n], areas.project, Below(t, areas.project)[a := n]);
    BelowEqual(t[a := n], areas.files, Below(t, areas.files));
  }

  /** A staged file `s` moved into place at `a`. */
  lemma InstalledViews(areas: Areas, t: Tree, t2: Tree, s: Path, a: Path)
    requires areas.Valid() && WellFormed(t) && Ancestor(areas.project, a) && Ancestor(areas.files, s)
    requires s in t && t[s].File? && InstalledOver(areas, t, t2, s, a) && StatOf(t, a) in {Missing, IsFile}
    ensures Get(t2, a) == Get(t, s)
    ensures Below(t2, areas.project) == Below(t, areas.project)[a := t[s]]
    ensures Below(t2, areas.files) - {s} == Below(t, areas.files) - {s}
    ensures Get(t2, areas.project) == Get(t, areas.project)
  {
    AreasApart(areas, a, s);
    RebaseUnder(a, a, s);
    var v := Below(t, areas.project)[a := t[s]];
    forall b | Ancestor(areas.project, b) ensures Get(t2, b) == Get(v, b) {
      AreasApart(areas, b, s);
      if Ancestor(a, b) {
        RebaseUnder(b, a, s);
        assert Rebase(b, a, s) !in t && b !in t;
      }
    }
    BelowEqual(t2, areas.project, v);
    var w, w2 := Below(t, areas.files) - {s}, Below(t2, areas.files) - {s};
    forall b ensures Get(w2, b) == Get(w, b) {
      if Ancestor(areas.files, b) {
        AreasApart(areas, a, b);
        if Ancestor(s, b) { assert b !in t; }
      }
    }
    TreesEqual(w2, w);
  }

  lemma PatchGone(v: Tree, gone: set<Path>, a: Path)
    ensures v - gone + map[] - {a} == v - (gone + {a}) + map[]
  {
  }

  lemma PatchMade(v: Tree, gone: set<Path>, made: Tree, a: Path, n: Node)
    ensures (v - gone + made)[a := n] == v - gone + made[a := n]
  {
  }

  lemma WithoutOneMore(x: Tree, y: Tree, z: Tree, keys: set<Path>, a: Path)
    requires x - {a} == y - {a} && y - keys == z - keys
    ensures x - (keys + {a}) == z - (keys + {a})
  {
    forall q | q !in keys && q != a ensures Get(x, q) == Get(z, q) {
      assert Get(x - {a}, q) == Get(x, q) && Get(y - {a}, q) == Get(y, q);
      assert Get(y - keys, q) == Get(y, q) && Get(z - keys, q) == Get(z, q);
    }
    forall q ensures Get(x - (keys + {a}), q) == Get(z - (keys + {a}), q) {}
    TreesEqual(x - (keys + {a}), z - (keys + {a}));
  }

  /** What a partly applied plan has at one path. */
  lemma ProgressGet(areas: Areas, t0: Tree, t: Tree, gone: set<Path>, made: Tree, moved: set<Path>, a: Path)
    requires Progress(areas, t0, t, gone, made, moved)
    ensures Ancestor(areas.project, a) ==>
      Get(t, a) == if a in made then Some(made[a]) else if a in gone then None else Get(t0, a)
    ensures Ancestor(areas.files, a) && a !in moved ==> Get(t, a) == Get(t0, a)
  {
    assert Get(Below(t, areas.project), a) == Get(Below(t0, areas.project) - gone + made, a);
    assert Get(Below(t, areas.files) - moved, a) == Get(Below(t0, areas.files) - moved, a);
  }

  lemma DeleteStep(areas: Areas, t0: Tree, t: Tree, t2: Tree, gone: set<Path>, a: Path)
    requires areas.Valid() && Ancestor(areas.project, a) && Progress(areas, t0, t, gone, map[], {})
    requires Deleted(areas, t, t2, a) && EmptyBelow(t, a)
    ensures Progress(areas, t0, t2, gone + {a}, map[], {})
  {
    DeletedViews(areas, t, t2, a);
    PatchGone(Below(t0, areas.project), gone, a);
  }

  lemma MissingStep(areas: Areas, t0: Tree, t: Tree, gone: set<Path>, a: Path)
    requires Progress(areas, t0, t, gone, map[], {}) && a !in t
    ensures Progress(areas, t0, t, gone + {a}, map[], {})
  {
    var v := Below(t, areas.project);
    assert a !in v;
    assert v - {a} == v;
    PatchGone(Below(t0, areas.project), gone, a);
  }

  lemma MadeStep(areas: Areas, t0: Tree, t: Tree, gone: set<Path>, made: Tree, moved: set<Path>, a: Path, n: Node)
    requires areas.Valid() && Ancestor(areas.project, a) && Progress(areas, t0, t, gone, made, moved)
    ensures Progress(areas, t0, t[a := n], gone, made[a := n], moved)
  {
    MadeViews(areas, t, a, n);
    PatchMade(Below(t0, areas.project), gone, made, a, n);
  }

  lemma InstallStep(areas: Areas, t0: Tree, t: Tree, t2: Tree, gone: set<Path>, made: Tree, moved: set<Path>, s: Path, a: Path)
    requires areas.Valid() && WellFormed(t) && Ancestor(areas.project, a) && Ancestor(areas.files, s)
    requires Progress(areas, t0, t, gone, made, moved) && s in t && t[s].File?
    requires InstalledOver(areas, t, t2, s, a) && StatOf(t, a) in {Missing, IsFile}
    ensures Progress(areas, t0, t2, gone, made[a := t[s]], moved + {s})
    ensures Get(t2, a) == Get(t, s)
  {
    InstalledViews(areas, t, t2, s, a);
    PatchMade(Below(t0, areas.project), gone, made, a, t[s]);
    WithoutOneMore(Below(t2, areas.files), Below(t, areas.files), Below(t0, areas.files), moved, s);
  }

  lemma FileHasNothingBelow(t: Tree, a: Path)
    requires WellFormed(t) && (a in t ==> t[a].File?)
    ensures EmptyBelow(t, a)
  {
  }

  /** The absolute paths `abs` are the project-relative paths `rel`. */
  ghost predicate Denotes(root: Path, abs: set<Path>, rel: set<Path>) {
    forall p :: Join(root, p) in abs <==> p in rel
  }

  lemma DenotesOneMore(root: Path, abs: set<Path>, rel: set<Path>, p: Path)
    requires Denotes(root, abs, rel)
    ensures Denotes(root, abs + {Join(root, p)}, rel + {p})
  {
    forall q ensures Join(root, q) == Join(root, p) <==> q == p { JoinAncestor(root, q, p); }
  }

  lemma SetOfPrefix(s: seq<Path>, i: nat)
    requires i < |s|
    ensures SetOf(s[..i + 1]) == SetOf(s[..i]) + {s[i]}
  {
    assert s[..i + 1] == s[..i] + [s[i]];
  }

  lemma SortedPrefix(o: Order, s: seq<Path>, i: nat)
    requires Sorted(o, s) && i < |s|
    ensures s[i] !in SetOf(s[..i])
    ensures forall q :: q in s && Before(o, q, s[i]) ==> q in s[..i]
  {
    forall j | 0 <= j < |s| && j != i
      ensures s[j] != s[i] && (j > i ==> !Before(o, s[j], s[i]))
    {
      BeforeIsStrictOrder(o, s[j], s[i], s[j]);
    }
    BeforeIsStrictOrder(o, s[i], s[i], s[i]);
  }

  method DeleteOneFile(tx: CommitTransaction, target: Path, ghost t0: Tree, ghost gone: set<Path>) returns (r: Result<bool>)
    requires tx.Valid() && Ancestor(tx.areas.project, target)
    requires Progress(tx.areas, t0, tx.fs.tree, gone, map[], {})
    modifies tx`changes, tx.fs
    ensures tx.Valid() && tx.fs.faults >= old(tx.fs.faults)
    ensures r.Err? ==> r.error != ProjectReuploadRequired
    ensures r.Ok? ==> Progress(tx.areas, t0, tx.fs.tree, gone + {target}, map[], {})
    ensures r.Ok? ==> (r.value <==> target !in gone && target in t0)
    ensures r.Err? && target !in gone && FileAt(t0, target) ==> tx.fs.faults > old(tx.fs.faults)
  {
    ghost var t := tx.fs.tree;
    ProgressGet(tx.areas, t0, t, gone, map[], {}, target);
    r := tx.DeleteFile(target);
    if r.Err? { return; }
    if r.value {
      FileHasNothingBelow(t, target);
      DeleteStep(tx.areas, t0, t, tx.fs.tree, gone, target);
    } else {
      MissingStep(tx.areas, t0, t, gone, target);
    }
  }

  /** Delete files: each is moved to a backup if it is there. */
  method DeleteFiles(tx: CommitTransaction, files: seq<Path>, ghost t0: Tree)
    returns (r: Result<seq<Path>>, ghost gone: set<Path>)
    requires tx.Valid() && Progress(tx.areas, t0, tx.fs.tree, {}, map[], {})
    requires Sorted(ByName, files)
    modifies tx`changes, tx.fs
    ensures tx.Valid() && tx.fs.faults >= old(tx.fs.faults)
    ensures r.Err? ==> r.error != ProjectReuploadRequired
    ensures r.Ok? ==> Progress(tx.areas, t0, tx.fs.tree, gone, map[], {}) && Denotes(tx.areas.project, gone, SetOf(files))
    ensures r.Ok? ==> forall p :: p in r.value <==> p in files && Join(tx.areas.project, p) in t0
    ensures r.Err? && (forall p :: p in files ==> FileAt(t0, Join(tx.areas.project, p))) ==> tx.fs.faults > old(tx.fs.faults)
  {
    var deleted: seq<Path> := [];
    gone := {};
    for i := 0 to |files|
      invariant tx.Valid() && tx.fs.faults >= old(tx.fs.faults)
      invariant Progress(tx.areas, t0, tx.fs.tree, gone, map[], {})
      invariant Denotes(tx.areas.project, gone, SetOf(files[..i]))
      invariant forall p :: p in deleted <==> p in SetOf(files[..i]) && Join(tx.areas.project, p) in t0
    {
      var path := files[i];
      var target := Join(tx.areas.project, path);
      JoinAncestor(tx.areas.project, path, path);
      SortedPrefix(ByName, files, i);
      var result := DeleteOneFile(tx, target, t0, gone);
      if result.Err? { return Err(result.error), gone; }
      if result.value { deleted := deleted + [path]; }
      DenotesOneMore(tx.areas.project, gone, SetOf(files[..i]), path);
      SetOfPrefix(files, i);
      gone := gone + {target};
    }
    assert files[..|files|] == files;
    r := Ok(deleted);
  }

  /** Whatever lies below `a` is gone. */
  ghost predicate NoStrayBelow(t0: Tree, gone: set<Path>, a: Path) {
    forall b :: b in t0 && Ancestor(a, b) ==> b in gone
  }

  lemma EmptyWhenNoStray(areas: Areas, t0: Tree, t: Tree, gone: set<Path>, a: Path)
    requires Progress(areas, t0, t, gone, map[], {}) && Ancestor(areas.project, a)
    ensures EmptyBelow(t, a) <==> NoStrayBelow(t0, gone, a)
  {
    forall b | Ancestor(a, b) ensures b in t <==> b in t0 && b !in gone {
      AncestorTransitive(areas.project, a, b);
      ProgressGet(areas, t0, t, gone, map[], {}, b);
    }
  }

  /** Nothing that the plan leaves alone lies below a directory that it deletes. */
  ghost predicate NoStray(project: Path, t0: Tree, files: seq<Path>, dirs: seq<Path>) {
    forall d, q :: d in dirs && Ancestor(d, q) && Join(project, q) in t0 ==> q in files || q in dirs
  }

  /** What lies deeper is deleted earlier. */
  lemma DeeperGone(project: Path, t0: Tree, files: seq<Path>, dirs: seq<Path>, gone: set<Path>, i: nat)
    requires i < |dirs| && Sorted(DeepestFirst, dirs) && NoStray(project, t0, files, dirs)
    requires Denotes(project, gone, SetOf(files) + SetOf(dirs[..i]))
    ensures NoStrayBelow(t0, gone, Join(project, dirs[i]))
  {
    var d := dirs[i];
    var a := Join(project, d);
    assert d in dirs;
    SortedPrefix(DeepestFirst, dirs, i);
    JoinAncestor(project, d, d);
    forall b | b in t0 && Ancestor(a, b) ensures b in gone {
      AncestorTransitive(project, a, b);
      var q := UnderIsJoin(project, b);
      JoinAncestor(project, d, q);
      AncestorOrder(d, q);
    }
  }

  lemma StrayNowhere(project: Path, t0: Tree, files: seq<Path>, dirs: seq<Path>, gone: set<Path>, deleted: seq<Path>)
    requires WellFormed(t0) && Denotes(project, gone, SetOf(files) + SetOf(dirs))
    requires forall p :: p in deleted <==> p in dirs && Join(project, p) in t0
    requires forall p :: p in deleted ==> NoStrayBelow(t0, gone, Join(project, p))
    ensures NoStray(project, t0, files, dirs)
  {
    forall d, q | d in dirs && Ancestor(d, q) && Join(project, q) in t0 ensures q in files || q in dirs {
      JoinAncestor(project, d, q);
      assert d in deleted;
      assert q in SetOf(files) + SetOf(dirs);
    }
  }

  method DeleteOneDir(tx: CommitTransaction, target: Path, ghost t0: Tree, ghost gone: set<Path>) returns (r: Result<bool>)
    requires tx.Valid() && Ancestor(tx.areas.project, target)
    requires Progress(tx.areas, t0, tx.fs.tree, gone, map[], {})
    modifies tx`changes, tx.fs
    ensures tx.Valid() && tx.fs.faults >= old(tx.fs.faults)
    ensures r.Err? ==> r.error != ProjectReuploadRequired
    ensures r.Ok? ==> Progress(tx.areas, t0, tx.fs.tree, gone + {target}, map[], {})
    ensures r.Ok? ==> (r.value <==> target !in gone && target in t0)
    ensures r == Ok(true) ==> NoStrayBelow(t0, gone, target)
    ensures r.Err? && target !in gone && DirAt(t0, target) && NoStrayBelow(t0, gone, target)
            ==> tx.fs.faults > old(tx.fs.faults)
  {
    ghost var t := tx.fs.tree;
    ProgressGet(tx.areas, t0, t, gone, map[], {}, target);
    EmptyWhenNoStray(tx.areas, t0, t, gone, target);
    r := tx.DeleteEmptyDir(target);
    if r.Err? { return; }
    if r.value {
      DeleteStep(tx.areas, t0, t, tx.fs.tree, gone, target);
    } else {
      MissingStep(tx.areas, t0, t, gone, target);
    }
  }

  /** Delete directories deepest first: each is empty when its turn comes, unless the tree
      holds something below it that the plan leaves alone. */
  method DeleteDirs(tx: CommitTransaction, ghost files: seq<Path>, dirs: seq<Path>, ghost t0: Tree, ghost gone0: set<Path>)
    returns (r: Result<seq<Path>>, ghost gone: set<Path>)
    requires tx.Valid() && WellFormed(t0) && Progress(tx.areas, t0, tx.fs.tree, gone0, map[], {})
    requires Denotes(tx.areas.project, gone0, SetOf(files))
    requires Sorted(DeepestFirst, dirs) && forall p :: p in dirs ==> p !in files
    modifies tx`changes, tx.fs
    ensures tx.Valid() && tx.fs.faults >= old(tx.fs.faults)
    ensures r.Err? ==> r.error != ProjectReuploadRequired
    ensures r.Ok? ==> Progress(tx.areas, t0, tx.fs.tree, gone, map[], {})
    ensures r.Ok? ==> Denotes(tx.areas.project, gone, SetOf(files) + SetOf(dirs)) && NoStray(tx.areas.project, t0, files, dirs)
    ensures r.Ok? ==> forall p :: p in r.value <==> p in dirs && Join(tx.areas.project, p) in t0
    ensures r.Err? && (forall p :: p in dirs ==> DirAt(t0, Join(tx.areas.project, p)))
            && NoStray(tx.areas.project, t0, files, dirs)
            ==> tx.fs.faults > old(tx.fs.faults)
  {
    var deleted: seq<Path> := [];
    gone := gone0;
    assert SetOf(files) + SetOf(dirs[..0]) == SetOf(files);
    for i := 0 to |dirs|
      invariant tx.Valid() && tx.fs.faults >= old(tx.fs.faults)
      invariant Progress(tx.areas, t0, tx.fs.tree, gone, map[], {})
      invariant Denotes(tx.areas.project, gone, SetOf(files) + SetOf(dirs[..i]))
      invariant forall p :: p in deleted <==> p in SetOf(dirs[..i]) && Join(tx.areas.project, p) in t0
      invariant forall p :: p in deleted ==> NoStrayBelow(t0, gone, Join(tx.areas.project, p))
    {
      var path := dirs[i];
      var target := Join(tx.areas.project, path);
      assert path in dirs;
      JoinAncestor(tx.areas.project, path, path);
      SortedPrefix(DeepestFirst, dirs, i);
      if NoStray(tx.areas.project, t0, files, dirs) { DeeperGone(tx.areas.project, t0, files, dirs, gone, i); }
      var result := DeleteOneDir(tx, target, t0, gone);
      if result.Err? { return Err(result.error), gone; }
      if result.value { deleted := deleted + [path]; }
      DenotesOneMore(tx.areas.project, gone, SetOf(files) + SetOf(dirs[..i]), path);
      SetOfPrefix(dirs, i);
      assert SetOf(files) + SetOf(dirs[..i]) + {path} == SetOf(files) + SetOf(dirs[..i + 1]);
      gone := gone + {target};
    }
    assert dirs[..|dirs|] == dirs;
    StrayNowhere(tx.areas.project, t0, files, dirs, gone, deleted);
    r := Ok(deleted);
  }

  /** The tree has every parent of `p` below the project, and keeps it. */
  ghost predicate ParentsReady(project: Path, t: Tree, p: Path) {
    forall q :: Ancestor(q, p) ==> DirAt(t, Join(project, q))
  }

  lemma ParentsResolve(t: Tree, project: Path, p: Path)
    requires WellFormed(t) && DirAt(t, project) && ParentsReady(project, t, p)
    ensures Resolves(t, Join(project, p))
  {
    var a := Join(project, p);
    JoinAncestor(project, p, p);
    forall b | b in Ancestors(a) ensures b in t && t[b].Dir? {
      UnderComparable(b, project, a);
      if Ancestor(project, b) {
        var q := UnderIsJoin(project, b);
        JoinAncestor(project, q, p);
      }
    }
  }

  /** A new directory fits: nothing but a deleted file is in its place, and each parent is
      there or is created before it. */
  ghost predicate DirFits(project: Path, t0: Tree, gone: set<Path>, dirs: seq<Path>, p: Path) {
    && (Join(project, p) in t0 ==> Join(project, p) in gone || DirAt(t0, Join(project, p)))
    && forall q :: Ancestor(q, p) ==> q in dirs || (DirAt(t0, Join(project, q)) && Join(project, q) !in gone)
  }

  method CreateOneDir(tx: CommitTransaction, target: Path, ghost t0: Tree, ghost gone: set<Path>, ghost made: Tree)
    returns (r: Result<()>)
    requires tx.Valid() && Ancestor(tx.areas.project, target)
    requires Progress(tx.areas, t0, tx.fs.tree, gone, made, {})
    modifies tx`changes, tx.fs
    ensures tx.Valid() && tx.fs.faults >= old(tx.fs.faults)
    ensures r.Err? ==> r.error != ProjectReuploadRequired
    ensures r.Ok? ==> Progress(tx.areas, t0, tx.fs.tree, gone, made[target := Dir], {}) && !FileAt(old(tx.fs.tree), target)
    ensures r.Err? && !FileAt(old(tx.fs.tree), target) && Resolves(old(tx.fs.tree), target) ==> tx.fs.faults > old(tx.fs.faults)
  {
    ghost var t := tx.fs.tree;
    r := tx.CreateDir(target);
    if r.Err? { return; }
    MadeStep(tx.areas, t0, t, gone, made, {}, target, Dir);
    if target in t { assert t[target := Dir] == t; }
  }

  /** What the plan makes at `p`. */
  function MadeAt(dirs: set<Path>, ups: Listing, p: Path): Option<Node> {
    if p in ups then Some(NodeOf(ups[p])) else if p in dirs then Some(Dir) else None
  }

  ghost predicate Makes(project: Path, made: Tree, dirs: set<Path>, ups: Listing) {
    forall p :: Get(made, Join(project, p)) == MadeAt(dirs, ups, p)
  }

  lemma MakesOneMore(project: Path, made: Tree, dirs: set<Path>, ups: Listing, dirs2: set<Path>, ups2: Listing, p: Path, n: Node)
    requires Makes(project, made, dirs, ups)
    requires forall q :: MadeAt(dirs2, ups2, q) == if q == p then Some(n) else MadeAt(dirs, ups, q)
    ensures Makes(project, made[Join(project, p) := n], dirs2, ups2)
  {
    forall q ensures Get(made[Join(project, p) := n], Join(project, q)) == MadeAt(dirs2, ups2, q) {
      JoinAncestor(project, q, p);
      assert Get(made, Join(project, q)) == MadeAt(dirs, ups, q);
    }
  }

  lemma DirReady(areas: Areas, t0: Tree, t: Tree, gone: set<Path>, made: Tree, dirs: seq<Path>, i: nat)
    requires areas.Valid() && WellFormed(t) && Progress(areas, t0, t, gone, made, {})
    requires i < |dirs| && Sorted(ByName, dirs) && Makes(areas.project, made, SetOf(dirs[..i]), map[])
    requires DirFits(areas.project, t0, gone, dirs, dirs[i])
    ensures !FileAt(t, Join(areas.project, dirs[i])) && Resolves(t, Join(areas.project, dirs[i]))
  {
    var p := dirs[i];
    SortedPrefix(ByName, dirs, i);
    JoinAncestor(areas.project, p, p);
    ProgressGet(areas, t0, t, gone, made, {}, Join(areas.project, p));
    assert Get(made, Join(areas.project, p)) == MadeAt(SetOf(dirs[..i]), map[], p);
    forall q | Ancestor(q, p) ensures DirAt(t, Join(areas.project, q)) {
      JoinAncestor(areas.project, q, q);
      AncestorOrder(q, p);
      assert Get(made, Join(areas.project, q)) == MadeAt(SetOf(dirs[..i]), map[], q);
      ProgressGet(areas, t0, t, gone, made, {}, Join(areas.project, q));
    }
    ParentsResolve(t, areas.project, p);
  }

  /** Create directories by name: a parent comes before what it contains. */
  method CreateDirs(tx: CommitTransaction, dirs: seq<Path>, ghost t0: Tree, ghost gone: set<Path>)
    returns (r: Result<()>, ghost made: Tree)
    requires tx.Valid() && Progress(tx.areas, t0, tx.fs.tree, gone, map[], {})
    requires Sorted(ByName, dirs)
    modifies tx`changes, tx.fs
    ensures tx.Valid() && tx.fs.faults >= old(tx.fs.faults)
    ensures r.Err? ==> r.error != ProjectReuploadRequired
    ensures r.Ok? ==> Progress(tx.areas, t0, tx.fs.tree, gone, made, {}) && Makes(tx.areas.project, made, SetOf(dirs), map[])
    ensures r.Ok? ==> forall p :: p in dirs && FileAt(t0, Join(tx.areas.project, p)) ==> Join(tx.areas.project, p) in gone
    ensures r.Err? && (forall p :: p in dirs ==> DirFits(tx.areas.project, t0, gone, dirs, p)) ==> tx.fs.faults > old(tx.fs.faults)
  {
    made := map[];
    for i := 0 to |dirs|
      invariant tx.Valid() && tx.fs.faults >= old(tx.fs.faults)
      invariant Progress(tx.areas, t0, tx.fs.tree, gone, made, {})
      invariant Makes(tx.areas.project, made, SetOf(dirs[..i]), map[])
      invariant forall p :: p in SetOf(dirs[..i]) && FileAt(t0, Join(tx.areas.project, p)) ==> Join(tx.areas.project, p) in gone
    {
      var target := Join(tx.areas.project, dirs[i]);
      assert dirs[i] in dirs;
      JoinAncestor(tx.areas.project, dirs[i], dirs[i]);
      if DirFits(tx.areas.project, t0, gone, dirs, dirs[i]) {
        DirReady(tx.areas, t0, tx.fs.tree, gone, made, dirs, i);
      }
      SortedPrefix(ByName, dirs, i);
      ProgressGet(tx.areas, t0, tx.fs.tree, gone, made, {}, target);
      assert Get(made, target) == MadeAt(SetOf(dirs[..i]), map[], dirs[i]);
      r := CreateOneDir(tx, target, t0, gone, made);
      if r.Err? { return; }
      SetOfPrefix(dirs, i);
      MakesOneMore(tx.areas.project, made, SetOf(dirs[..i]), map[], SetOf(dirs[..i + 1]), map[], dirs[i], Dir);
      made := made[target := Dir];
    }
    assert dirs[..|dirs|] == dirs;
    r := Ok(());
  }

  /** The staged upload for `p` holds the content that the manifest lists. */
  predicate StagedAt(t: Tree, files: Path, p: Path, e: Entry) {
    var s := Join(files, p); s in t && t[s].File? && e.FileEntry? && t[s].content == e.content
  }

  /** `set_file_attributes` on the file installed last; the undo log stays good. */
  method SetFileAttributes(tx: CommitTransaction, target: Path, e: Entry) returns (ok: bool)
    requires tx.Valid() && tx.LastInstalled(target) && Under(tx.areas.project, target)
    requires FileAt(tx.fs.tree, target) && e.FileEntry? && tx.fs.tree[target].content == e.content
    modifies tx.fs
    ensures tx.Valid() && tx.fs.faults >= old(tx.fs.faults)
    ensures ok ==> tx.fs.tree == old(tx.fs.tree)[target := NodeOf(e)]
    ensures !ok ==> tx.fs.faults > old(tx.fs.faults)
  {
    SeparateSubtrees(tx.areas.project, tx.areas.backups, target, tx.areas.backups);
    ok := tx.fs.SetAttributes(target, MsToTime(e.mtimeMs), e.executable);
    AttributesUndone(tx.areas, old(tx.fs.tree), tx.fs.tree, tx.changes, tx.start);
  }

  lemma UploadStep(areas: Areas, t0: Tree, t: Tree, t2: Tree, gone: set<Path>, made: Tree, moved: set<Path>, s: Path, a: Path, n: Node)
    requires areas.Valid() && WellFormed(t) && Ancestor(areas.project, a) && Ancestor(areas.files, s)
    requires Progress(areas, t0, t, gone, made, moved) && s in t && t[s].File?
    requires InstalledOver(areas, t, t2, s, a) && StatOf(t, a) in {Missing, IsFile}
    ensures Progress(areas, t0, t2[a := n], gone, made[a := n], moved + {s})
    ensures Get(t2, a) == Some(t[s])
  {
    hide Progress;
    InstallStep(areas, t0, t, t2, gone, made, moved, s, a);
    MadeStep(areas, t0, t2, gone, made[a := t[s]], moved + {s}, a, n);
    assert made[a := t[s]][a := n] == made[a := n];
  }

  method MoveIntoPlace(tx: CommitTransaction, staged: Path, target: Path, n: Node,
                       ghost t0: Tree, ghost gone: set<Path>, ghost made: Tree, ghost moved: set<Path>)
    returns (r: Result<()>)
    requires tx.Valid() && Progress(tx.areas, t0, tx.fs.tree, gone, made, moved)
    requires Ancestor(tx.areas.project, target) && Ancestor(tx.areas.files, staged)
    requires FileAt(tx.fs.tree, staged)
    modifies tx`changes, tx.fs
    ensures tx.Valid() && tx.fs.faults >= old(tx.fs.faults)
    ensures r.Err? ==> r.error != ProjectReuploadRequired
    ensures r.Ok? ==> Progress(tx.areas, t0, tx.fs.tree[target := n], gone, made[target := n], moved + {staged})
    ensures r.Ok? ==> tx.LastInstalled(target) && Get(tx.fs.tree, target) == Some(old(tx.fs.tree)[staged])
    ensures r.Err? && !DirAt(old(tx.fs.tree), target) && Resolves(old(tx.fs.tree), target) ==> tx.fs.faults > old(tx.fs.faults)
  {
    r := tx.InstallFile(staged, target);
    if r.Ok? {
      UploadStep(tx.areas, t0, old(tx.fs.tree), tx.fs.tree, gone, made, moved, staged, target, n);
    }
  }

  method UploadOne(tx: CommitTransaction, path: Path, e: Entry, ghost t0: Tree, ghost gone: set<Path>, ghost made: Tree, ghost moved: set<Path>)
    returns (r: Result<()>)
    requires tx.Valid() && Progress(tx.areas, t0, tx.fs.tree, gone, made, moved)
    requires StagedAt(tx.fs.tree, tx.areas.files, path, e)
    modifies tx`changes, tx.fs
    ensures tx.Valid() && tx.fs.faults >= old(tx.fs.faults)
    ensures r.Err? ==> r.error != ProjectReuploadRequired
    ensures r.Ok? ==> Progress(tx.areas, t0, tx.fs.tree, gone, made[Join(tx.areas.project, path) := NodeOf(e)],
                               moved + {Join(tx.areas.files, path)})
    ensures r.Err? && !DirAt(old(tx.fs.tree), Join(tx.areas.project, path)) && Resolves(old(tx.fs.tree), Join(tx.areas.project, path))
            ==> tx.fs.faults > old(tx.fs.faults)
  {
    var target, staged := Join(tx.areas.project, path), Join(tx.areas.files, path);
    JoinAncestor(tx.areas.project, path, path);
    JoinAncestor(tx.areas.files, path, path);
    r := MoveIntoPlace(tx, staged, target, NodeOf(e), t0, gone, made, moved);
    if r.Err? { return; }
    var ok := SetFileAttributes(tx, target, e);
    r := if ok then Ok(()) else Err(Internal);
  }

  function Only(ups: Listing, names: set<Path>): Listing {
    map p | p in ups && p in names :: ups[p]
  }

  /** An upload fits: no directory that stays is in its place, and its parents are ready. */
  ghost predicate UploadFits(project: Path, t0: Tree, gone: set<Path>, dirs: seq<Path>, ups: Listing, p: Path) {
    && p !in dirs && (DirAt(t0, Join(project, p)) ==> Join(project, p) in gone)
    && forall q :: Ancestor(q, p) ==>
         q !in ups && (q in dirs || (DirAt(t0, Join(project, q)) && Join(project, q) !in gone))
  }

  lemma UploadReady(areas: Areas, t0: Tree, t: Tree, gone: set<Path>, made: Tree, moved: set<Path>,
                    dirs: seq<Path>, ups: Listing, names: set<Path>, p: Path)
    requires areas.Valid() && WellFormed(t) && Progress(areas, t0, t, gone, made, moved)
    requires Makes(areas.project, made, SetOf(dirs), Only(ups, names))
    requires p !in names && UploadFits(areas.project, t0, gone, dirs, ups, p)
    ensures !DirAt(t, Join(areas.project, p)) && Resolves(t, Join(areas.project, p))
  {
    JoinAncestor(areas.project, p, p);
    ProgressGet(areas, t0, t, gone, made, moved, Join(areas.project, p));
    assert Get(made, Join(areas.project, p)) == MadeAt(SetOf(dirs), Only(ups, names), p);
    forall q | Ancestor(q, p) ensures DirAt(t, Join(areas.project, q)) {
      JoinAncestor(areas.project, q, q);
      assert Get(made, Join(areas.project, q)) == MadeAt(SetOf(dirs), Only(ups, names), q);
      ProgressGet(areas, t0, t, gone, made, moved, Join(areas.project, q));
    }
    ParentsResolve(t, areas.project, p);
  }

  lemma StillStaged(areas: Areas, t0: Tree, t: Tree, gone: set<Path>, made: Tree, moved: set<Path>, names: set<Path>, p: Path, e: Entry)
    requires Progress(areas, t0, t, gone, made, moved) && Denotes(areas.files, moved, names)
    requires p !in names && StagedAt(t0, areas.files, p, e)
    ensures StagedAt(t, areas.files, p, e)
  {
    JoinAncestor(areas.files, p, p);
    ProgressGet(areas, t0, t, gone, made, moved, Join(areas.files, p));
  }

  lemma MakesUpload(project: Path, made: Tree, dirs: seq<Path>, ups: Listing, names: seq<Path>, i: nat)
    requires i < |names| && names[i] in ups && Makes(project, made, SetOf(dirs), Only(ups, SetOf(names[..i])))
    ensures Makes(project, made[Join(project, names[i]) := NodeOf(ups[names[i]])], SetOf(dirs), Only(ups, SetOf(names[..i + 1])))
  {
    SetOfPrefix(names, i);
    MakesOneMore(project, made, SetOf(dirs), Only(ups, SetOf(names[..i])), SetOf(dirs), Only(ups, SetOf(names[..i + 1])),
                 names[i], NodeOf(ups[names[i]]));
  }

  /** Move every staged upload into place, by name. */
  method InstallUploads(tx: CommitTransaction, ups: Listing, ghost dirs: seq<Path>, ghost t0: Tree, ghost gone: set<Path>, ghost made0: Tree)
    returns (r: Result<()>, ghost made: Tree, ghost moved: set<Path>)
    requires tx.Valid() && Progress(tx.areas, t0, tx.fs.tree, gone, made0, {})
    requires Makes(tx.areas.project, made0, SetOf(dirs), map[])
    requires forall p :: p in ups ==> StagedAt(t0, tx.areas.files, p, ups[p])
    modifies tx`changes, tx.fs
    ensures tx.Valid() && tx.fs.faults >= old(tx.fs.faults)
    ensures r.Err? ==> r.error != ProjectReuploadRequired
    ensures r.Ok? ==> Progress(tx.areas, t0, tx.fs.tree, gone, made, moved) && Makes(tx.areas.project, made, SetOf(dirs), ups)
    ensures r.Err? && (forall p :: p in ups ==> UploadFits(tx.areas.project, t0, gone, dirs, ups, p)) ==> tx.fs.faults > old(tx.fs.faults)
  {
    var names := InOrder(ups.Keys);
    made, moved := made0, {};
    assert Only(ups, SetOf(names[..0])) == map[];
    for i := 0 to |names|
      invariant tx.Valid() && tx.fs.faults >= old(tx.fs.faults)
      invariant Progress(tx.areas, t0, tx.fs.tree, gone, made, moved)
      invariant Denotes(tx.areas.files, moved, SetOf(names[..i]))
      invariant Makes(tx.areas.project, made, SetOf(dirs), Only(ups, SetOf(names[..i])))
    {
      var path := names[i];
      assert path in names;
      SortedPrefix(ByName, names, i);
      StillStaged(tx.areas, t0, tx.fs.tree, gone, made, moved, SetOf(names[..i]), path, ups[path]);
      if UploadFits(tx.areas.project, t0, gone, dirs, ups, path) {
        UploadReady(tx.areas, t0, tx.fs.tree, gone, made, moved, dirs, ups, SetOf(names[..i]), path);
      }
      r := UploadOne(tx, path, ups[path], t0, gone, made, moved);
      if r.Err? { return; }
      MakesUpload(tx.areas.project, made, dirs, ups, names, i);
      DenotesOneMore(tx.areas.files, moved, SetOf(names[..i]), path);
      SetOfPrefix(names, i);
      made := made[Join(tx.areas.project, path) := NodeOf(ups[path])];
      moved := moved + {Join(tx.areas.files, path)};
    }
    assert names[..|names|] == names;
    assert Only(ups, SetOf(names)) == ups;
    r := Ok(());
  }

  predicate Doomed(plan: CommitPlan, p: Path) {
    p in plan.deleteFiles || p in plan.deleteDirs
  }

  /** What a fully applied plan leaves at `p`. */
  function AppliedAt(project: Path, t0: Tree, plan: CommitPlan, p: Path): Option<Node> {
    if p in plan.uploads then Some(NodeOf(plan.uploads[p]))
    else if p in plan.createDirs then Some(Dir)
    else if Doomed(plan, p) then None
    else Get(t0, Join(project, p))
  }

  ghost predicate Applied(project: Path, t0: Tree, t: Tree, plan: CommitPlan) {
    forall p :: Get(t, Join(project, p)) == AppliedAt(project, t0, plan, p)
  }

  /** The lists are in the order `create_plan` leaves them in. */
  ghost predicate Ordered(plan: CommitPlan) {
    && Sorted(ByName, plan.createDirs) && Sorted(ByName, plan.deleteFiles) && Sorted(DeepestFirst, plan.deleteDirs)
    && (forall p :: p in plan.deleteDirs ==> p !in plan.deleteFiles)
    && (forall p :: p in plan.uploads ==> plan.uploads[p].FileEntry?)
  }

  ghost predicate ParentFits(project: Path, t0: Tree, plan: CommitPlan, q: Path) {
    q !in plan.uploads && (q in plan.createDirs || (DirAt(t0, Join(project, q)) && !Doomed(plan, q)))
  }

  /** The project directory is there or can be made. */
  predicate RootUsable(project: Path, t: Tree) {
    if project in t then t[project].Dir? else Resolves(t, project)
  }

  /** The tree `t0` is one that the plan can be applied to without a conflict. */
  ghost predicate Ready(project: Path, t0: Tree, plan: CommitPlan) {
    && RootUsable(project, t0)
    && (forall p :: p in plan.deleteFiles ==> FileAt(t0, Join(project, p)))
    && (forall p :: p in plan.deleteDirs ==> DirAt(t0, Join(project, p)))
    && NoStray(project, t0, plan.deleteFiles, plan.deleteDirs)
    && (forall p :: p in plan.createDirs && FileAt(t0, Join(project, p)) ==> Doomed(plan, p))
    && (forall p :: p in plan.uploads ==> p !in plan.createDirs && (DirAt(t0, Join(project, p)) ==> Doomed(plan, p)))
    && (forall p, q :: (p in plan.createDirs || p in plan.uploads) && Ancestor(q, p) ==> ParentFits(project, t0, plan, q))
  }

  lemma ReadyFits(project: Path, t0: Tree, plan: CommitPlan, gone: set<Path>)
    requires Ready(project, t0, plan)
    requires Denotes(project, gone, SetOf(plan.deleteFiles) + SetOf(plan.deleteDirs))
    ensures forall p :: p in plan.createDirs ==> DirFits(project, t0, gone, plan.createDirs, p)
    ensures forall p :: p in plan.uploads ==> UploadFits(project, t0, gone, plan.createDirs, plan.uploads, p)
  {
    forall p ensures Join(project, p) in gone <==> Doomed(plan, p) {}
    forall p | p in plan.createDirs ensures DirFits(project, t0, gone, plan.createDirs, p) {
      forall q | Ancestor(q, p) ensures q in plan.createDirs || (DirAt(t0, Join(project, q)) && Join(project, q) !in gone) {
        assert ParentFits(project, t0, plan, q);
      }
    }
    forall p | p in plan.uploads ensures UploadFits(project, t0, gone, plan.createDirs, plan.uploads, p) {
      forall q | Ancestor(q, p)
        ensures q !in plan.uploads && (q in plan.createDirs || (DirAt(t0, Join(project, q)) && Join(project, q) !in gone))
      {
        assert ParentFits(project, t0, plan, q);
      }
    }
  }

  lemma AppliedFrom(areas: Areas, t0: Tree, t: Tree, plan: CommitPlan, gone: set<Path>, made: Tree, moved: set<Path>)
    requires Progress(areas, t0, t, gone, made, moved)
    requires Denotes(areas.project, gone, SetOf(plan.deleteFiles) + SetOf(plan.deleteDirs))
    requires Makes(areas.project, made, SetOf(plan.createDirs), plan.uploads)
    ensures Applied(areas.project, t0, t, plan)
  {
    forall p ensures Get(t, Join(areas.project, p)) == AppliedAt(areas.project, t0, plan, p) {
      JoinAncestor(areas.project, p, p);
      ProgressGet(areas, t0, t, gone, made, moved, Join(areas.project, p));
      assert Get(made, Join(areas.project, p)) == MadeAt(SetOf(plan.createDirs), plan.uploads, p);
    }
  }

  /** Making the project root changes nothing that the plan looks at. */
  lemma RootMade(areas: Areas, t: Tree, t0: Tree, plan: CommitPlan)
    requires areas.Valid() && WellFormed(t)
    requires if areas.project in t then t0 == t && t[areas.project].Dir? else t0 == t[areas.project := Dir]
    ensures forall p :: Get(t0, Join(areas.project, p)) == Get(t, Join(areas.project, p))
    ensures forall p :: Get(t0, Join(areas.files, p)) == Get(t, Join(areas.files, p))
    ensures Ready(areas.project, t, plan) ==> Ready(areas.project, t0, plan)
    ensures NoStray(areas.project, t0, plan.deleteFiles, plan.deleteDirs) ==> NoStray(areas.project, t, plan.deleteFiles, plan.deleteDirs)
    ensures DirsFree(areas.project, t0, plan) ==> DirsFree(areas.project, t, plan)
    ensures forall u :: Applied(areas.project, t0, u, plan) ==> Applied(areas.project, t, u, plan)
  {
    forall p ensures Get(t0, Join(areas.project, p)) == Get(t, Join(areas.project, p))
             ensures Get(t0, Join(areas.files, p)) == Get(t, Join(areas.files, p))
    {
      JoinAncestor(areas.project, p, p);
      JoinAncestor(areas.files, p, p);
      AreasApart(areas, Join(areas.project, p), Join(areas.files, p));
    }
    forall p ensures FileAt(t0, Join(areas.project, p)) <==> FileAt(t, Join(areas.project, p))
             ensures DirAt(t0, Join(areas.project, p)) <==> DirAt(t, Join(areas.project, p))
    {
      assert Get(t0, Join(areas.project, p)) == Get(t, Join(areas.project, p));
    }
  }

  /** The mutations of an incremental commit, in order: root, deletions, directories, uploads. */
  method RunOperations(tx: CommitTransaction, plan: CommitPlan) returns (r: Result<Response>)
    requires tx.Valid() && Ordered(plan)
    requires forall p :: p in plan.uploads ==> StagedAt(tx.fs.tree, tx.areas.files, p, plan.uploads[p])
    modifies tx`changes, tx.fs
    ensures tx.Valid() && tx.fs.faults >= old(tx.fs.faults)
    ensures r.Err? ==> r.error != ProjectReuploadRequired
    ensures r.Ok? ==> Applied(tx.areas.project, old(tx.fs.tree), tx.fs.tree, plan) && RootUsable(tx.areas.project, old(tx.fs.tree))
    ensures r.Ok? ==> NoStray(tx.areas.project, old(tx.fs.tree), plan.deleteFiles, plan.deleteDirs)
    ensures r.Ok? ==> DirsFree(tx.areas.project, old(tx.fs.tree), plan)
    ensures r.Ok? ==> Reports(tx.areas.project, old(tx.fs.tree), plan, r.value)
    ensures r.Err? && Ready(tx.areas.project, old(tx.fs.tree), plan) ==> tx.fs.faults > old(tx.fs.faults)
  {
    ghost var start := tx.fs.tree;
    var root := tx.CreateDir(tx.areas.project);
    if root.Err? { return Err(root.error); }
    ghost var t0 := tx.fs.tree;
    RootMade(tx.areas, start, t0, plan);
    r := RunBelowRoot(tx, plan, t0);
  }

  /** Only a file that the plan deletes makes way for a new directory. */
  ghost predicate DirsFree(project: Path, t0: Tree, plan: CommitPlan) {
    forall p :: p in plan.createDirs && FileAt(t0, Join(project, p)) ==> Doomed(plan, p)
  }

  /** The response lists what was done. */
  ghost predicate Reports(project: Path, t0: Tree, plan: CommitPlan, response: Response) {
    && response.uploaded == plan.uploads.Keys && response.created == plan.createDirs
    && (forall p :: p in response.deletedFiles <==> p in plan.deleteFiles && Join(project, p) in t0)
    && (forall p :: p in response.deletedDirs <==> p in plan.deleteDirs && Join(project, p) in t0)
  }

  method RunBelowRoot(tx: CommitTransaction, plan: CommitPlan, ghost t0: Tree) returns (r: Result<Response>)
    requires tx.Valid() && Ordered(plan) && t0 == tx.fs.tree && DirAt(t0, tx.areas.project)
    requires forall p :: p in plan.uploads ==> StagedAt(t0, tx.areas.files, p, plan.uploads[p])
    modifies tx`changes, tx.fs
    ensures tx.Valid() && tx.fs.faults >= old(tx.fs.faults)
    ensures r.Err? ==> r.error != ProjectReuploadRequired
    ensures r.Ok? ==> Applied(tx.areas.project, t0, tx.fs.tree, plan)
    ensures r.Ok? ==> NoStray(tx.areas.project, t0, plan.deleteFiles, plan.deleteDirs) && DirsFree(tx.areas.project, t0, plan)
    ensures r.Ok? ==> Reports(tx.areas.project, t0, plan, r.value)
    ensures r.Err? && Ready(tx.areas.project, t0, plan) ==> tx.fs.faults > old(tx.fs.faults)
  {
    assert Progress(tx.areas, t0, t0, {}, map[], {});
    ghost var gone, made, moved;
    var files, dirs, created, uploaded;
    files, gone := DeleteFiles(tx, plan.deleteFiles, t0);
    if files.Err? { return Err(files.error); }
    dirs, gone := DeleteDirs(tx, plan.deleteFiles, plan.deleteDirs, t0, gone);
    if dirs.Err? { return Err(dirs.error); }
    if Ready(tx.areas.project, t0, plan) { ReadyFits(tx.areas.project, t0, plan, gone); }
    created, made := CreateDirs(tx, plan.createDirs, t0, gone);
    if created.Err? { return Err(created.error); }
    uploaded, made, moved := InstallUploads(tx, plan.uploads, plan.createDirs, t0, gone, made);
    if uploaded.Err? { return Err(uploaded.error); }
    AppliedFrom(tx.areas, t0, tx.fs.tree, plan, gone, made, moved);
    r := Ok(Response(plan.uploads.Keys, plan.createDirs, files.value, dirs.value));
  }
}
