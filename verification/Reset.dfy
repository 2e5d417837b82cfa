/** `apply_reset`: check that staging holds the complete manifest, then swap it in. */
module Reset {
  import opened Collections
  import opened Paths
  import opened PathSort
  import opened FileTree
  import opened Transaction
  import opened Manifest
  import opened Scan
  import opened Plan
  import opened Commit
  import opened Apply

  /** The manifest that a reset plan stands for. */
  function Complete(plan: CommitPlan): Listing {
    map p | p in plan.uploads.Keys + SetOf(plan.createDirs) :: if p in plan.uploads then plan.uploads[p] else DirEntry
  }

  /** A reset plan asks for everything that the client lists, and deletes nothing. */
  lemma ResetPlanIsComplete(client: Listing, plan: CommitPlan)
    requires IsPlan(client, map[], false, plan)
    ensures Complete(plan) == client
    ensures forall p :: p !in plan.deleteFiles && p !in plan.deleteDirs
    ensures forall p :: p in plan.uploads ==> plan.uploads[p].FileEntry? && p !in plan.createDirs
  {
    assert forall p :: p in client <==> p in Complete(plan);
  }

  // ---------------------------------------------------------------- counting

  /** Each scanned entry is one that is wanted. */
  predicate AllWanted(scan: Listing, dirs: set<Path>, uploads: Listing) {
    forall p | p in scan :: if scan[p].DirEntry? then p in dirs else p in uploads && SameFile(scan[p], uploads[p])
  }

  /** As many entries as are wanted, and none that is not: that is the complete manifest. */
  lemma CountDecides(scan: Listing, plan: CommitPlan)
    requires forall p :: p in plan.uploads ==> plan.uploads[p].FileEntry? && p !in plan.createDirs
    ensures |scan| == |SetOf(plan.createDirs)| + |plan.uploads| && AllWanted(scan, SetOf(plan.createDirs), plan.uploads)
            <==> scan == Complete(plan)
  {
    var dirs, ups := SetOf(plan.createDirs), plan.uploads.Keys;
    var all := ups + dirs;
    assert Complete(plan).Keys == all;
    assert |all| == |dirs| + |ups| by { assert all - dirs == ups; assert |all| == |all - dirs| + |dirs| by { assert all == (all - dirs) + dirs; } }
    if |scan| == |dirs| + |ups| && AllWanted(scan, dirs, plan.uploads) {
      assert scan.Keys <= all;
      SubsetCount(scan.Keys, all);
      assert scan.Keys == all;
      forall p | p in all ensures scan[p] == Complete(plan)[p] {}
      assert scan == Complete(plan);
    }
  }

  lemma {:induction false} SortedCount(list: seq<Path>, s: set<Path>)
    requires Sorted(ByName, list) && forall p :: p in list <==> p in s
    ensures |list| == |s|
  {
    if list == [] {
      assert s == {};
    } else {
      var rest := s - {list[0]};
      forall p ensures p in list[1..] <==> p in rest { RestMembers(ByName, list, p); }
      SortedCount(list[1..], rest);
    }
  }

  // ---------------------------------------------------------------- preparing the staging area

  /** `b` is `a` with directories added at `p` or above it, below `root`. */
  ghost predicate DirsAdded(root: Path, a: Tree, b: Tree, wanted: set<Path>) {
    && (forall q :: q in a ==> q in b && b[q] == a[q])
    && (forall q :: q in b && q !in a ==> b[q].Dir? && Ancestor(root, q) && q[|root| + 1..] in ParentClosure(wanted))
  }

  lemma DirsAddedStep(root: Path, a: Tree, b: Tree, p: Path, wanted: set<Path>)
    requires DirsAdded(root, a, b, wanted) && p in ParentClosure(wanted) && Join(root, p) !in b
    ensures DirsAdded(root, a, b[Join(root, p) := Dir], wanted)
  {
    JoinAncestor(root, p, p);
    assert Join(root, p)[|root| + 1..] == p;
  }

  /** No file is in the way of the directories `wanted`. */
  ghost predicate NoFileInWay(root: Path, t: Tree, wanted: set<Path>) {
    forall p :: p in ParentClosure(wanted) ==> !FileAt(t, Join(root, p))
  }

  /** One missing directory, whose parents are there. */
  method MakeDirAt(fs: FileSystem, root: Path, p: Path, ghost start: Tree, ghost wanted: set<Path>) returns (ok: bool)
    requires fs.Valid() && DirAt(fs.tree, root) && ParentsReady(root, fs.tree, p)
    requires DirsAdded(root, start, fs.tree, wanted) && p in ParentClosure(wanted)
    modifies fs
    ensures fs.Valid() && fs.faults >= old(fs.faults) && DirsAdded(root, start, fs.tree, wanted)
    ensures forall q :: q in old(fs.tree) ==> q in fs.tree && fs.tree[q] == old(fs.tree)[q]
    ensures ok ==> DirAt(fs.tree, Join(root, p))
    ensures !ok && NoFileInWay(root, start, wanted) ==> fs.faults > old(fs.faults)
  {
    var a := Join(root, p);
    ParentsResolve(fs.tree, root, p);
    if DirAt(fs.tree, a) { return true; }
    ok := fs.CreateDir(a);
    if ok { DirsAddedStep(root, start, old(fs.tree), p, wanted); }
  }

  /** `create_dir_all`: the missing parents first, then the directory. */
  method MakeDirAll(fs: FileSystem, root: Path, p: Path, ghost start: Tree, ghost wanted: set<Path>) returns (ok: bool)
    requires fs.Valid() && DirAt(fs.tree, root)
    requires DirsAdded(root, start, fs.tree, wanted) && p in wanted
    modifies fs
    ensures fs.Valid() && fs.faults >= old(fs.faults) && DirsAdded(root, start, fs.tree, wanted)
    ensures forall q :: q in old(fs.tree) ==> q in fs.tree && fs.tree[q] == old(fs.tree)[q]
    ensures ok ==> DirAt(fs.tree, Join(root, p))
    ensures !ok && NoFileInWay(root, start, wanted) ==> fs.faults > old(fs.faults)
  {
    var parents := ParentPaths(p);
    ok := true;
    for i := 0 to |parents|
      invariant fs.Valid() && fs.faults >= old(fs.faults) && DirsAdded(root, start, fs.tree, wanted)
      invariant forall q :: q in old(fs.tree) ==> q in fs.tree && fs.tree[q] == old(fs.tree)[q]
      invariant forall k :: 0 <= k < i ==> DirAt(fs.tree, Join(root, parents[k]))
    {
      assert parents[i] in parents;
      ParentInClosure(wanted, p, parents[i]);
      OuterParents(p, parents, i);
      hide DirsAdded, NoFileInWay, WellFormed, ParentClosure;
      ok := MakeDirAt(fs, root, parents[i], start, wanted);
      if !ok { return; }
    }
    ok := MakeDirAt(fs, root, p, start, wanted);
  }

  lemma OuterParents(p: Path, parents: seq<Path>, i: nat)
    requires i < |parents| && forall q :: q in parents <==> Ancestor(q, p)
    requires forall j, k :: 0 <= j < k < |parents| ==> |parents[j]| < |parents[k]|
    ensures forall q :: Ancestor(q, parents[i]) ==> q in parents[..i]
  {
    assert parents[i] in parents;
    forall q | Ancestor(q, parents[i]) ensures q in parents[..i] {
      AncestorTransitive(q, parents[i], p);
      var k :| 0 <= k < |parents| && parents[k] == q;
      assert k < i;
    }
  }

  /** The first `n` of the listed directories are there. */
  ghost predicate DirsThere(files: Path, t: Tree, dirs: seq<Path>, n: nat)
    requires n <= |dirs|
  {
    forall k :: 0 <= k < n ==> DirAt(t, Join(files, dirs[k]))
  }

  lemma DirsStillThere(files: Path, a: Tree, b: Tree, dirs: seq<Path>, n: nat)
    requires n < |dirs| && DirsThere(files, a, dirs, n) && DirAt(b, Join(files, dirs[n])) && DirAt(a, files)
    requires forall q :: q in a ==> q in b && b[q] == a[q]
    ensures DirsThere(files, b, dirs, n + 1) && DirAt(b, files)
  {
  }

  method MakeStagedDirs(fs: FileSystem, files: Path, plan: CommitPlan) returns (ok: bool)
    requires fs.Valid() && DirAt(fs.tree, files)
    modifies fs
    ensures fs.Valid() && fs.faults >= old(fs.faults) && DirsAdded(files, old(fs.tree), fs.tree, SetOf(plan.createDirs))
    ensures ok ==> DirsThere(files, fs.tree, plan.createDirs, |plan.createDirs|)
    ensures !ok && NoFileInWay(files, old(fs.tree), SetOf(plan.createDirs)) ==> fs.faults > old(fs.faults)
  {
    ghost var wanted := SetOf(plan.createDirs);
    assert DirsAdded(files, fs.tree, fs.tree, wanted) && DirsThere(files, fs.tree, plan.createDirs, 0);
    assert forall p :: p in plan.createDirs ==> p in wanted;
    hide DirsAdded, DirsThere, NoFileInWay, WellFormed, ParentClosure, SetOf, Join;
    ok := true;
    for i := 0 to |plan.createDirs|
      invariant fs.Valid() && fs.faults >= old(fs.faults)
      invariant DirsAdded(files, old(fs.tree), fs.tree, wanted) && DirAt(fs.tree, files)
      invariant DirsThere(files, fs.tree, plan.createDirs, i)
    {
      ghost var before := fs.tree;
      assert plan.createDirs[i] in plan.createDirs;
      ok := MakeDirAll(fs, files, plan.createDirs[i], old(fs.tree), wanted);
      if !ok { return; }
      DirsStillThere(files, before, fs.tree, plan.createDirs, i);
    }
  }

  /** `b` is `a` with the attributes of the staged files `names` as the manifest has them. */
  ghost predicate AttributesSet(files: Path, a: Tree, b: Tree, uploads: Listing, names: set<Path>) {
    forall q :: Get(b, q) ==
      if Ancestor(files, q) && q[|files| + 1..] in names && q[|files| + 1..] in uploads && FileAt(a, q)
         && uploads[q[|files| + 1..]].FileEntry?
      then Some(File(a[q].content, MsToTime(uploads[q[|files| + 1..]].mtimeMs), uploads[q[|files| + 1..]].executable))
      else Get(a, q)
  }

  lemma AttributesStep(files: Path, a: Tree, b: Tree, c: Tree, uploads: Listing, names: set<Path>, p: Path)
    requires AttributesSet(files, a, b, uploads, names) && p in uploads && uploads[p].FileEntry?
    requires FileAt(b, Join(files, p))
    requires c == b[Join(files, p) := File(b[Join(files, p)].content, MsToTime(uploads[p].mtimeMs), uploads[p].executable)]
    ensures AttributesSet(files, a, c, uploads, names + {p})
  {
    var s := Join(files, p);
    JoinAncestor(files, p, p);
    assert s[|files| + 1..] == p;
    assert Get(b, s).Some? && Get(a, s).Some?;
    forall q | Ancestor(files, q) && q[|files| + 1..] == p ensures q == s {
      assert q == q[..|files|] + [q[|files|]] + q[|files| + 1..];
    }
  }

  /** The same paths with the same contents; only what is below `files` may differ otherwise. */
  ghost predicate ContentKept(files: Path, a: Tree, b: Tree) {
    && a.Keys == b.Keys
    && forall q :: q in b ==> SameContent(b[q], a[q]) && (!Ancestor(files, q) ==> b[q] == a[q])
  }

  lemma ContentKeptStep(files: Path, a: Tree, b: Tree, c: Tree, s: Path)
    requires ContentKept(files, a, b) && Ancestor(files, s) && FileAt(b, s)
    requires s in c && SameContent(c[s], b[s]) && c == b[s := c[s]]
    ensures ContentKept(files, a, c)
  {
  }

  /** `set_file_attributes` on every staged upload. */
  method SetStagedAttributes(fs: FileSystem, files: Path, uploads: Listing) returns (ok: bool)
    requires fs.Valid() && forall p :: p in uploads ==> uploads[p].FileEntry?
    modifies fs
    ensures fs.Valid() && fs.faults >= old(fs.faults)
    ensures ContentKept(files, old(fs.tree), fs.tree)
    ensures ok ==> AttributesSet(files, old(fs.tree), fs.tree, uploads, uploads.Keys)
    ensures !ok && (forall p :: p in uploads ==> FileAt(old(fs.tree), Join(files, p))) ==> fs.faults > old(fs.faults)
  {
    var names := InOrder(uploads.Keys);
    ok := false;
    for i := 0 to |names|
      invariant fs.Valid() && fs.faults >= old(fs.faults)
      invariant ContentKept(files, old(fs.tree), fs.tree)
      invariant AttributesSet(files, old(fs.tree), fs.tree, uploads, SetOf(names[..i]))
    {
      var p := names[i];
      assert p in names;
      var s := Join(files, p);
      JoinAncestor(files, p, p);
      ghost var t := fs.tree;
      if !FileAt(fs.tree, s) { return; }
      var done := fs.SetAttributes(s, MsToTime(uploads[p].mtimeMs), uploads[p].executable);
      ContentKeptStep(files, old(fs.tree), t, fs.tree, s);
      if !done { return; }
      AttributesStep(files, old(fs.tree), t, fs.tree, uploads, SetOf(names[..i]), p);
      SetOfPrefix(names, i);
    }
    assert names[..|names|] == names;
    assert SetOf(names) == uploads.Keys;
    ok := true;
  }

  // ---------------------------------------------------------------- the replacement

  /** The tree below `root` is the manifest `m`, up to internal names. */
  ghost predicate HoldsManifest(root: Path, t: Tree, m: Listing) {
    forall p :: !IsInternal(p) ==>
      (Join(root, p) in t <==> p in m) && (p in m && Join(root, p) in t ==> EntryOf(t[Join(root, p)]) == m[p])
  }

  /** Without filters a scan sees every path that is not internal. */
  lemma UnfilteredScan(t: Tree, root: Path, s: Listing)
    requires WellFormed(t) && IsScan(NO_FILTERS, t, root, s)
    ensures forall p :: p in s <==> Join(root, p) in t && !IsInternal(p)
    ensures HoldsManifest(root, t, s)
  {
    var sel := Selected(NO_FILTERS, t, root);
    forall p ensures p in sel <==> Join(root, p) in t && !IsInternal(p) { InsideJoin(t, root, p); }
    forall p | p in ParentClosure(sel) ensures p in sel {
      if p !in sel {
        var q :| q in sel && p in Ancestors(q);
        JoinAncestor(root, p, q);
        DescendClosed(NO_FILTERS, p, q);
      }
    }
  }

  lemma UnfilteredScanUnique(t: Tree, root: Path, s: Listing, m: Listing)
    requires WellFormed(t) && IsScan(NO_FILTERS, t, root, s) && HoldsManifest(root, t, m)
    requires forall p :: p in m ==> !IsInternal(p)
    ensures s == m
  {
    UnfilteredScan(t, root, s);
    assert s.Keys == m.Keys;
    forall p | p in s ensures s[p] == m[p] {}
  }

  /** Staging holds every upload, no other file, and no directory that the plan does not list. */
  ghost predicate StagingHolds(files: Path, t: Tree, plan: CommitPlan) {
    && DirAt(t, files) && StagedHolds(files, t, plan)
    && (forall p :: Join(files, p) in t && !IsInternal(p) && p !in plan.uploads ==>
          p in plan.createDirs && t[Join(files, p)].Dir?)
  }

  /** What preparing the staging area made of it. */
  ghost predicate Prepared(areas: Areas, t: Tree, u: Tree) {
    && (forall q :: !Ancestor(areas.files, q) ==> Get(u, q) == Get(t, q))
    && (forall q :: q in t ==> q in u && SameContent(u[q], t[q]))
    && (forall q :: q in u && q !in t ==> u[q].Dir?)
  }

  lemma PreparedFrom(areas: Areas, t: Tree, made: Tree, u: Tree, wanted: set<Path>)
    requires DirsAdded(areas.files, t, made, wanted) && ContentKept(areas.files, made, u)
    ensures Prepared(areas, t, u)
  {
  }

  /** A prepared staging area is exactly the manifest, if it held the uploads. */
  lemma PreparedHolds(files: Path, t: Tree, made: Tree, u: Tree, plan: CommitPlan)
    requires StagingHolds(files, t, plan) && DirsAdded(files, t, made, SetOf(plan.createDirs))
    requires AttributesSet(files, made, u, plan.uploads, plan.uploads.Keys)
    requires forall p :: p in plan.createDirs ==> DirAt(made, Join(files, p))
    requires ParentClosed(SetOf(plan.createDirs))
    requires forall p :: p in plan.uploads ==> plan.uploads[p].FileEntry? && p !in plan.createDirs
                                               && IsI64(plan.uploads[p].mtimeMs) && plan.uploads[p].mtimeMs != I64_MIN
    ensures HoldsManifest(files, u, Complete(plan))
  {
    forall p | !IsInternal(p)
      ensures Join(files, p) in u <==> p in Complete(plan)
      ensures Join(files, p) in u ==> EntryOf(u[Join(files, p)]) == Complete(plan)[p]
    {
      var s := Join(files, p);
      JoinAncestor(files, p, p);
      assert s[|files| + 1..] == p;
      assert Get(u, s) == Get(u, s);
      if p in plan.uploads {
        MtimeRoundTrip(plan.uploads[p].mtimeMs);
        assert StagedAt(t, files, p, plan.uploads[p]);
        assert made[s] == t[s];
      } else if s in made && s !in t {
        assert p in ParentClosure(SetOf(plan.createDirs));
        LeastClosure(SetOf(plan.createDirs), SetOf(plan.createDirs));
      }
    }
  }

  lemma ManifestMoved(files: Path, project: Path, t: Tree, u: Tree, m: Listing)
    requires HoldsManifest(files, t, m)
    requires forall p :: Get(u, Join(project, p)) == Get(t, Join(files, p))
    ensures HoldsManifest(project, u, m)
  {
    forall p ensures Join(project, p) in u <==> Join(files, p) in t
             ensures Join(project, p) in u ==> u[Join(project, p)] == t[Join(files, p)]
    {
      assert Get(u, Join(project, p)) == Get(t, Join(files, p));
    }
  }

  lemma ReplacedProject(areas: Areas, t: Tree, u: Tree)
    requires areas.Valid() && InstalledOver(areas, t, u, areas.files, areas.project) && DirAt(t, areas.files)
    ensures forall p :: Get(u, Join(areas.project, p)) == Get(t, Join(areas.files, p))
    ensures DirAt(u, areas.project)
  {
    forall p ensures Get(u, Join(areas.project, p)) == Get(t, Join(areas.files, p)) {
      JoinAncestor(areas.project, p, p);
      JoinAncestor(areas.files, p, p);
      AreasApart(areas, Join(areas.project, p), Join(areas.files, p));
      assert Rebase(Join(areas.project, p), areas.project, areas.files) == Join(areas.files, p);
    }
    JoinAncestor(areas.project, [], []);
    ProjectApart(areas, Join(areas.project, []));
    assert Rebase(areas.project, areas.project, areas.files) == areas.files;
    assert Get(u, areas.project) == Get(t, areas.files);
  }

  /** The manifest that was asked for fits the limits of a scan. */
  ghost predicate Scannable(plan: CommitPlan, portable: Path -> bool, maxEntries: nat, maxFileBytes: nat) {
    && (forall p :: p in Complete(plan) ==> portable(p))
    && (forall p :: p in plan.uploads && plan.uploads[p].FileEntry? ==> |plan.uploads[p].content| <= maxFileBytes)
    && |Complete(plan)| <= maxEntries
  }

  lemma SelectionIsScan(t: Tree, root: Path, m: Listing)
    requires WellFormed(t) && HoldsManifest(root, t, m) && forall p :: p in m ==> !IsInternal(p)
    ensures forall p :: p in m ==> Join(root, p) in t && EntryOf(t[Join(root, p)]) == m[p]
    ensures ParentClosure(Selected(NO_FILTERS, t, root)) == Selected(NO_FILTERS, t, root) == m.Keys
  {
    var sel := Selected(NO_FILTERS, t, root);
    forall p ensures p in sel <==> p in m { InsideJoin(t, root, p); }
    forall p | p in ParentClosure(sel) ensures p in sel {
      if p !in sel {
        var q :| q in sel && p in Ancestors(q);
        JoinAncestor(root, p, q);
        InsideJoin(t, root, q);
        DescendClosed(NO_FILTERS, p, q);
        InsideJoin(t, root, p);
      }
    }
  }

  lemma ManifestScans(t: Tree, root: Path, plan: CommitPlan, portable: Path -> bool, maxEntries: nat, maxFileBytes: nat)
    requires WellFormed(t) && ResetPlan(plan) && HoldsManifest(root, t, Complete(plan))
    requires Scannable(plan, portable, maxEntries, maxFileBytes)
    ensures CanScan(NO_FILTERS, t, root, portable, maxEntries, maxFileBytes)
  {
    SelectionIsScan(t, root, Complete(plan));
    assert |Complete(plan).Keys| == |Complete(plan)|;
  }

  lemma PlanParts(plan: CommitPlan)
    requires ResetPlan(plan)
    ensures forall p :: p in plan.uploads ==> plan.uploads[p].FileEntry? && p !in plan.createDirs
    ensures forall p :: p in Complete(plan) ==> !IsInternal(p)
  {
  }

  /** Scan staging, count, and look each entry up: success means that staging is the manifest. */
  method CheckStaging(fs: FileSystem, files: Path, plan: CommitPlan, portable: Path -> bool, maxEntries: nat, maxFileBytes: nat)
    returns (r: Result<()>)
    requires fs.Valid() && ResetPlan(plan)
    modifies fs`faults
    ensures fs.faults >= old(fs.faults)
    ensures r.Ok? ==> HoldsManifest(files, fs.tree, Complete(plan))
    ensures r.Err? ==> r.error != ProjectReuploadRequired
    ensures r.Err? && HoldsManifest(files, fs.tree, Complete(plan)) && Scannable(plan, portable, maxEntries, maxFileBytes)
            ==> fs.faults > old(fs.faults)
  {
    if * {
      fs.faults := fs.faults + 1;
      return Err(Internal);
    }
    if HoldsManifest(files, fs.tree, Complete(plan)) && Scannable(plan, portable, maxEntries, maxFileBytes) {
      ManifestScans(fs.tree, files, plan, portable, maxEntries, maxFileBytes);
    }
    hide HoldsManifest, Scannable, CanScan, WellFormed, ResetPlan, Complete, AllWanted;
    var ok, list, scan := ScanManifest(fs.tree, files, NO_FILTERS, portable, maxEntries, maxFileBytes);
    if !ok { return Err(Internal); }
    SortedCount(list, scan.Keys);
    UnfilteredScan(fs.tree, files, scan);
    PlanParts(plan);
    CountDecides(scan, plan);
    if |list| != |SetOf(plan.createDirs)| + |plan.uploads| || !AllWanted(scan, SetOf(plan.createDirs), plan.uploads) {
      if HoldsManifest(files, fs.tree, Complete(plan)) && Scannable(plan, portable, maxEntries, maxFileBytes) {
        UnfilteredScanUnique(fs.tree, files, scan, Complete(plan));
      }
      return Err(Conflict);
    }
    r := Ok(());
  }

  /** Make the listed directories and set the listed attributes in the staging area. */
  method PrepareStaging(fs: FileSystem, areas: Areas, plan: CommitPlan) returns (ok: bool)
    requires fs.Valid() && DirAt(fs.tree, areas.files) && ResetPlan(plan)
    modifies fs
    ensures fs.Valid() && fs.faults >= old(fs.faults)
    ensures Prepared(areas, old(fs.tree), fs.tree)
    ensures ok && StagingHolds(areas.files, old(fs.tree), plan) && TimesKept(plan) ==> HoldsManifest(areas.files, fs.tree, Complete(plan))
    ensures !ok && StagingHolds(areas.files, old(fs.tree), plan) ==> fs.faults > old(fs.faults)
  {
    ghost var t := fs.tree;
    ok := MakeStagedDirs(fs, areas.files, plan);
    ghost var made := fs.tree;
    if !ok {
      if StagingHolds(areas.files, t, plan) { NothingInWay(areas.files, t, plan); }
      PreparedFrom(areas, t, made, fs.tree, SetOf(plan.createDirs));
      return;
    }
    ok := SetStagedAttributes(fs, areas.files, plan.uploads);
    PreparedFrom(areas, t, made, fs.tree, SetOf(plan.createDirs));
    if StagingHolds(areas.files, t, plan) {
      forall p | p in plan.uploads ensures FileAt(made, Join(areas.files, p)) {
        assert StagedAt(t, areas.files, p, plan.uploads[p]);
      }
      if ok && TimesKept(plan) { PreparedHolds(areas.files, t, made, fs.tree, plan); }
    }
  }

  /** What a reset plan looks like. */
  ghost predicate ResetPlan(plan: CommitPlan) {
    && ParentClosed(SetOf(plan.createDirs))
    && (forall p :: p in plan.uploads ==> plan.uploads[p].FileEntry? && p !in plan.createDirs)
    && (forall p :: p in Complete(plan) ==> !IsInternal(p))
  }

  /** The plan that `create_plan` makes for a reset is one. */
  lemma ClientResetPlan(client: Listing, plan: CommitPlan)
    requires IsClientListing(NO_FILTERS, client) && IsPlan(client, map[], false, plan)
    ensures ResetPlan(plan) && Complete(plan) == client
  {
    ResetPlanIsComplete(client, plan);
    forall p | p in client ensures !IsInternal(p) {
      if !NO_FILTERS.MatchesEntry(p) {
        var q :| q in client && NO_FILTERS.MatchesEntry(q) && Ancestor(p, q);
        DescendClosed(NO_FILTERS, p, q);
      }
    }
    forall p, q | p in plan.createDirs && Ancestor(q, p) ensures q in plan.createDirs {
      assert q in client;
    }
  }

  /** `create_plan` for a replacement: no filters, and nothing on the server counts. */
  method PlanReset(raw: seq<ClientEntry>, portable: Path -> bool, extra: bool, maxEntries: nat, maxFileBytes: nat)
    returns (ok: bool, plan: CommitPlan, ghost client: Listing, ghost accepted: Listing)
    ensures ok <==> ClientFits(raw, NO_FILTERS, portable, maxEntries, maxFileBytes)
    ensures ok ==> Accepted(raw, p => NO_FILTERS.MatchesEntry(p), accepted) && Extends(accepted, client)
                   && client.Keys == ParentClosure(accepted.Keys)
    ensures ok ==> plan.reset && ResetPlan(plan) && Complete(plan) == client
    ensures ok && (forall p :: p in client ==> portable(p)) ==> Scannable(plan, portable, maxEntries, maxFileBytes)
  {
    var names, listing;
    ok, names, listing, accepted := ValidateClientManifest(raw, NO_FILTERS, portable, maxEntries, maxFileBytes);
    client, plan := listing, CommitPlan(true, map[], [], [], [], map[]);
    if !ok { return; }
    plan := CreatePlan(listing, map[], extra, true);
    ClientResetPlan(listing, plan);
  }

  /** Every modification time survives being written and read back. */
  ghost predicate TimesKept(plan: CommitPlan) {
    forall p :: p in plan.uploads && plan.uploads[p].FileEntry? ==>
      IsI64(plan.uploads[p].mtimeMs) && plan.uploads[p].mtimeMs != I64_MIN
  }

  /** A tree that is the manifest has only times that can be read from a disk. */
  lemma HeldTimes(root: Path, t: Tree, plan: CommitPlan)
    requires ResetPlan(plan) && HoldsManifest(root, t, Complete(plan))
    ensures TimesKept(plan)
  {
    forall p | p in plan.uploads ensures IsI64(plan.uploads[p].mtimeMs) && plan.uploads[p].mtimeMs != I64_MIN {
      assert p in Complete(plan) && Complete(plan)[p] == plan.uploads[p];
      TimeToMsAboveMinimum(t[Join(root, p)].mtimeNs);
    }
  }

  /** The failing case: one file whose time is the least that the manifest can name. No reset
      installs it, whatever is staged. */
  lemma LeastTimeRefused(plan: CommitPlan, content: Content)
    requires plan == CommitPlan(true, map["a" := FileEntry(content, I64_MIN, false)], [], [], [], map[])
    ensures ResetPlan(plan) && !TimesKept(plan)
    ensures forall root, t :: !HoldsManifest(root, t, Complete(plan))
  {
    assert "a"[1..] == [] && ['a'] + [] == "a";
    assert Split("a") == ["a"] && !IsInternal("a");
    assert "a" in plan.uploads && plan.uploads["a"].mtimeMs == I64_MIN;
    forall p | p in Complete(plan) ensures p == "a" {}
    forall root, t ensures !HoldsManifest(root, t, Complete(plan)) {
      if HoldsManifest(root, t, Complete(plan)) { HeldTimes(root, t, plan); }
    }
  }

  lemma NothingInWay(files: Path, t: Tree, plan: CommitPlan)
    requires StagingHolds(files, t, plan) && ResetPlan(plan)
    ensures NoFileInWay(files, t, SetOf(plan.createDirs))
  {
    LeastClosure(SetOf(plan.createDirs), SetOf(plan.createDirs));
    assert forall p :: p in plan.createDirs ==> p in Complete(plan);
  }

  /** The old project is gone: every file is one that was staged. */
  ghost predicate FromStaging(areas: Areas, t: Tree, u: Tree) {
    forall p :: FileAt(u, Join(areas.project, p)) ==>
      Join(areas.files, p) in t && SameContent(u[Join(areas.project, p)], t[Join(areas.files, p)])
  }

  /** What a reset promises, whatever fails on the way. */
  ghost predicate ResetDone(areas: Areas, t: Tree, u: Tree, plan: CommitPlan, r: Result<Response>) {
    match r
    case Ok(response) =>
      && HoldsManifest(areas.project, u, Complete(plan)) && DirAt(u, areas.project) && FromStaging(areas, t, u)
      && response == Response(plan.uploads.Keys, plan.createDirs, [], [])
    case Err(ProjectReuploadRequired) => true
    case Err(_) => SameProject(areas.project, u, t) && forall q :: Under(areas.files, q) && q in t ==> q in u && SameContent(u[q], t[q])
  }

  lemma ProjectUntouched(areas: Areas, t: Tree, u: Tree)
    requires areas.Valid() && Prepared(areas, t, u)
    ensures SameProject(areas.project, u, t)
    ensures areas.backups in u <==> areas.backups in t
    ensures Resolves(t, areas.backups) ==> Resolves(u, areas.backups)
    ensures areas.backups in t ==> u[areas.backups] == t[areas.backups]
    ensures StatOf(t, areas.project) == StatOf(u, areas.project)
    ensures Resolves(t, areas.project) ==> Resolves(u, areas.project)
  {
    forall p | Under(areas.project, p) || p == areas.backups || p in Ancestors(areas.project) || p in Ancestors(areas.backups)
      ensures !Ancestor(areas.files, p)
    {
      if Ancestor(areas.files, p) {
        if Under(areas.project, p) { UnderComparable(areas.files, areas.project, p); }
        else if p in Ancestors(areas.project) { AncestorTransitive(areas.files, p, areas.project); }
        else if p in Ancestors(areas.backups) { AncestorTransitive(areas.files, p, areas.backups); }
      }
    }
    forall q | q in Ancestors(areas.project) || q in Ancestors(areas.backups) ensures Get(u, q) == Get(t, q) {}
    assert Get(u, areas.project) == Get(t, areas.project) && Get(u, areas.backups) == Get(t, areas.backups);
  }

  lemma SwappedIn(areas: Areas, t: Tree, prepared: Tree, start: Tree, u: Tree, plan: CommitPlan)
    requires areas.Valid() && Prepared(areas, t, prepared) && DirAt(prepared, areas.files)
    requires start == prepared || (areas.backups !in prepared && start == prepared[areas.backups := Dir])
    requires HoldsManifest(areas.files, prepared, Complete(plan))
    requires InstalledOver(areas, start, u, areas.files, areas.project)
    ensures HoldsManifest(areas.project, u, Complete(plan)) && DirAt(u, areas.project) && FromStaging(areas, t, u)
  {
    BackupsApart(areas, prepared, start, plan);
    assert Get(start, areas.files) == Get(prepared, areas.files);
    ReplacedProject(areas, start, u);
    forall p ensures Get(start, Join(areas.files, p)) == Get(prepared, Join(areas.files, p)) {
      JoinAncestor(areas.files, p, p);
    }
    ManifestMoved(areas.files, areas.project, prepared, u, Complete(plan));
    forall p | FileAt(u, Join(areas.project, p))
      ensures Join(areas.files, p) in t && SameContent(u[Join(areas.project, p)], t[Join(areas.files, p)])
    {
      assert Get(u, Join(areas.project, p)) == Get(prepared, Join(areas.files, p));
    }
  }

  lemma NotSwapped(areas: Areas, t: Tree, prepared: Tree, start: Tree, u: Tree)
    requires areas.Valid() && Prepared(areas, t, prepared)
    requires start == prepared || (areas.backups !in prepared && start == prepared[areas.backups := Dir])
    requires SameProject(areas.project, u, start) && StagedBack(areas.files, u, start)
    ensures SameProject(areas.project, u, t)
    ensures forall q :: Under(areas.files, q) && q in t ==> q in u && SameContent(u[q], t[q])
  {
    ProjectUntouched(areas, t, prepared);
    forall p | Under(areas.project, p) ensures Get(u, p) == Get(t, p) {
      assert Get(start, p) == Get(prepared, p);
    }
    forall q | Under(areas.files, q) && q in t ensures q in u && SameContent(u[q], t[q]) {
      assert Get(start, q) == Get(prepared, q);
    }
  }

  /** The reset: success makes the project exactly the client's manifest; an error other than
      the one that asks for a complete upload leaves the project and the staged contents as
      they were; and with the uploads staged only a failing system call prevents success. */
  method ApplyReset(fs: FileSystem, areas: Areas, plan: CommitPlan, portable: Path -> bool, maxEntries: nat, maxFileBytes: nat)
    returns (r: Result<Response>)
    requires fs.Valid() && StagingReady(areas, fs.tree) && DirAt(fs.tree, areas.files) && ResetPlan(plan)
    modifies fs
    ensures fs.Valid() && fs.faults >= old(fs.faults)
    ensures ResetDone(areas, old(fs.tree), fs.tree, plan, r)
    ensures r == Err(ProjectReuploadRequired) ==> fs.faults > old(fs.faults)
    ensures r.Ok? ==> TimesKept(plan)
    ensures fs.faults == old(fs.faults) && StagingHolds(areas.files, old(fs.tree), plan) && Scannable(plan, portable, maxEntries, maxFileBytes)
            && Resolves(old(fs.tree), areas.project) && StatOf(old(fs.tree), areas.project) in {Missing, IsDir}
            ==> (r.Ok? <==> TimesKept(plan))
  {
    ghost var t := fs.tree;
    var ready := PrepareStaging(fs, areas, plan);
    ghost var prepared := fs.tree;
    ProjectUntouched(areas, t, prepared);
    NotSwapped(areas, t, prepared, prepared, prepared);
    if !ready { return Err(Internal); }
    var checked := CheckStaging(fs, areas.files, plan, portable, maxEntries, maxFileBytes);
    if checked.Err? { return Err(checked.error); }
    HeldTimes(areas.files, prepared, plan);
    var tx := NewTransaction(fs, areas);
    if tx == null { return Err(Internal); }
    ghost var start := fs.tree;
    BackupsApart(areas, prepared, start, plan);
    StartStat(areas, prepared, start);
    var swapped := tx.ReplaceProject(areas.files, areas.project);
    if swapped.Ok? { SwappedIn(areas, t, prepared, start, fs.tree, plan); }
    var result := if swapped.Ok? then Ok(Response(plan.uploads.Keys, plan.createDirs, [], [])) else Err(swapped.error);
    r := SettleTransaction(result, tx);
    if r.Err? && r.error != ProjectReuploadRequired { NotSwapped(areas, t, prepared, start, fs.tree); }
  }

  lemma StartStat(areas: Areas, prepared: Tree, start: Tree)
    requires areas.Valid() && WellFormed(prepared) && Resolves(prepared, areas.backups)
    requires start == prepared || (areas.backups !in prepared && start == prepared[areas.backups := Dir])
    ensures Get(start, areas.files) == Get(prepared, areas.files)
    ensures StatOf(start, areas.project) == StatOf(prepared, areas.project)
    ensures Resolves(prepared, areas.project) ==> Resolves(start, areas.project)
  {
    forall q | q in Ancestors(areas.project) ensures q != areas.backups {
      assert Under(q, areas.project);
    }
    assert Get(start, areas.project) == Get(prepared, areas.project);
  }
}
