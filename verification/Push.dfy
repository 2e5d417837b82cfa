/** What planning and then committing a push means for the client. */
module Push {
  import opened Paths
  import opened PathSort
  import opened FileTree
  import opened Transaction
  import opened Manifest
  import opened Scan
  import opened Plan
  import opened Commit
  import opened Apply

  /** The client listing, the scan of the tree `t` and the plan made from the two. */
  datatype Planning = Planning(filters: Filters, project: Path, t: Tree, client: Listing, server: Listing, extra: bool, plan: CommitPlan) {
    ghost predicate Valid() {
      && WellFormed(t) && IsClientListing(filters, client)
      && IsScan(filters, t, project, server) && IsPlan(client, server, extra, plan)
    }

    /** No listed directory that the scan did not see is on disk. */
    ghost predicate NoCollision() {
      forall p :: p in client && client[p].DirEntry? && p !in server ==> Join(project, p) !in t
    }

    /** The conditions under which an unchanged tree takes the plan. */
    ghost predicate Committable() {
      RootUsable(project, t) && NoCollision() && NoStray(project, t, plan.deleteFiles, plan.deleteDirs)
    }
  }

  lemma PlanOrdered(g: Planning)
    requires g.Valid()
    ensures Ordered(g.plan)
  {
  }

  /** A listed file that is on disk was scanned; so was everything above it. */
  lemma FileScanned(g: Planning, p: Path)
    requires g.Valid() && p in g.client && g.client[p].FileEntry? && Join(g.project, p) in g.t
    ensures p in g.server
  {
    InsideJoin(g.t, g.project, p);
    assert p in Selected(g.filters, g.t, g.project);
  }

  /** A scanned entry that the filters do not accept is a directory above one they do. */
  lemma UnmatchedScannedIsDir(g: Planning, p: Path)
    requires g.Valid() && p in g.server && !g.filters.MatchesEntry(p)
    ensures DirAt(g.t, Join(g.project, p)) && g.server[p].DirEntry?
  {
    var q :| q in Selected(g.filters, g.t, g.project) && p in Ancestors(q);
    InsideJoin(g.t, g.project, q);
    JoinAncestor(g.project, p, q);
  }

  lemma BelowReplacedAncestor(g: Planning, p: Path, q: Path)
    requires g.Valid() && Ancestor(q, p) && q in g.client && g.client[q].FileEntry? && Join(g.project, p) in g.t
    ensures TypeReplaced(g.client, g.server, q) && q in g.plan.deleteDirs
  {
    JoinAncestor(g.project, q, p);
    assert Join(g.project, q) in g.t && g.t[Join(g.project, q)].Dir?;
    FileScanned(g, q);
  }

  /** Directories that the client lists are not deleted. */
  lemma ListedDirStays(g: Planning, q: Path)
    requires g.Valid() && q in g.client && g.client[q].DirEntry? && q in g.server && g.server[q].DirEntry?
    ensures !Doomed(g.plan, q)
  {
    NoFileAbove(g, q);
  }

  lemma NoFileAbove(g: Planning, p: Path)
    requires g.Valid() && p in g.client
    ensures forall a :: Ancestor(a, p) ==> a in g.client && g.client[a].DirEntry?
    ensures !BelowReplaced(g.client, g.server, p) && !HasFileAncestor(g.client, p)
  {
  }

  lemma ParentIsReady(g: Planning, p: Path, q: Path)
    requires g.Valid() && (p in g.plan.createDirs || p in g.plan.uploads) && Ancestor(q, p)
    ensures ParentFits(g.project, g.t, g.plan, q)
  {
    NoFileAbove(g, p);
    if q !in g.plan.createDirs { ListedDirStays(g, q); }
  }

  lemma TouchedMatches(g: Planning)
    requires g.Valid()
    ensures BaselineHolds(g.project, g.t, g.plan) <==> g.NoCollision()
  {
    forall p | p in Touched(g.plan)
      ensures p !in g.server ==> p in g.client && (g.client[p].FileEntry? ==> Join(g.project, p) !in g.t)
    {
      if p !in g.server && g.client[p].FileEntry? && Join(g.project, p) in g.t { FileScanned(g, p); }
    }
    forall p | p in g.client && g.client[p].DirEntry? && p !in g.server ensures p in Touched(g.plan) {
      assert p in g.plan.createDirs;
    }
  }

  lemma PlanIsReady(g: Planning)
    requires g.Valid() && RootUsable(g.project, g.t) && NoStray(g.project, g.t, g.plan.deleteFiles, g.plan.deleteDirs)
    requires g.NoCollision()
    ensures Ready(g.project, g.t, g.plan)
  {
    forall p, q | (p in g.plan.createDirs || p in g.plan.uploads) && Ancestor(q, p)
      ensures ParentFits(g.project, g.t, g.plan, q)
    {
      ParentIsReady(g, p, q);
    }
    forall p | p in g.plan.uploads && DirAt(g.t, Join(g.project, p)) ensures Doomed(g.plan, p) {
      FileScanned(g, p);
    }
    forall p | p in g.plan.createDirs && FileAt(g.t, Join(g.project, p)) ensures Doomed(g.plan, p) {
    }
  }

  /** Committing an unchanged tree meets no conflict exactly when the project root is usable,
      no listed directory is on disk without being scanned, and no unscanned entry is below a
      directory that has to go. */
  lemma ConflictFree(g: Planning)
    requires g.Valid()
    ensures BaselineHolds(g.project, g.t, g.plan) && Ready(g.project, g.t, g.plan) <==> g.Committable()
  {
    TouchedMatches(g);
    if g.Committable() { PlanIsReady(g); }
  }

  /** Without filters, and without internal names in the project, nothing is unscanned: the
      commit meets no conflict. */
  lemma NoFiltersNoConflict(g: Planning)
    requires g.Valid() && g.filters == NO_FILTERS && RootUsable(g.project, g.t)
    requires forall p :: Join(g.project, p) in g.t ==> !IsInternal(p)
    ensures BaselineHolds(g.project, g.t, g.plan) && Ready(g.project, g.t, g.plan)
  {
    forall p | Join(g.project, p) in g.t ensures p in g.server {
      InsideJoin(g.t, g.project, p);
      assert p in Selected(g.filters, g.t, g.project);
    }
    forall d, q | d in g.plan.deleteDirs && Ancestor(d, q) && Join(g.project, q) in g.t ensures Doomed(g.plan, q) {
      if TypeReplaced(g.client, g.server, d) {
        assert BelowReplaced(g.client, g.server, q);
      } else if BelowReplaced(g.client, g.server, d) {
        var a :| a in Ancestors(d) && TypeReplaced(g.client, g.server, a);
        AncestorTransitive(a, d, q);
        assert BelowReplaced(g.client, g.server, q);
      } else {
        assert q !in g.client;
      }
    }
    ConflictFree(g);
  }

  predicate HasFileAncestor(client: Listing, p: Path) {
    exists q | q in Ancestors(p) :: q in client && client[q].FileEntry?
  }

  /** What the client sees of one path after a successful commit. */
  ghost predicate DeliveredAt(g: Planning, u: Tree, p: Path) {
    var n := Get(u, Join(g.project, p));
    if p in g.client then
      n.Some? && (if g.client[p].DirEntry? then n.value == Dir
                  else n.value.File? && n.value.content == g.client[p].content
                       && n.value.executable == g.client[p].executable
                       && (IsI64(g.client[p].mtimeMs) && g.client[p].mtimeMs != I64_MIN ==> EntryOf(n.value) == g.client[p]))
    else if (g.extra && p in g.server) || HasFileAncestor(g.client, p) then n == None
    else n == Get(g.t, Join(g.project, p))
  }

  ghost predicate Delivered(g: Planning, u: Tree) {
    forall p :: DeliveredAt(g, u, p)
  }

  lemma ListedDelivered(g: Planning, u: Tree, p: Path)
    requires g.Valid() && Applied(g.project, g.t, u, g.plan) && p in g.client
    ensures DeliveredAt(g, u, p)
  {
    assert Get(u, Join(g.project, p)) == AppliedAt(g.project, g.t, g.plan, p);
    if p in g.plan.uploads {
      if IsI64(g.client[p].mtimeMs) { MtimeRoundTrip(g.client[p].mtimeMs); }
    } else if p !in g.plan.createDirs {
      assert p in g.server && g.server[p] == g.client[p];
      NoFileAbove(g, p);
    }
  }

  lemma UnlistedDelivered(g: Planning, u: Tree, p: Path)
    requires g.Valid() && Applied(g.project, g.t, u, g.plan) && p !in g.client
    requires NoStray(g.project, g.t, g.plan.deleteFiles, g.plan.deleteDirs)
    ensures DeliveredAt(g, u, p)
  {
    assert Get(u, Join(g.project, p)) == AppliedAt(g.project, g.t, g.plan, p);
    if HasFileAncestor(g.client, p) && Join(g.project, p) in g.t {
      var q :| q in Ancestors(p) && q in g.client && g.client[q].FileEntry?;
      BelowReplacedAncestor(g, p, q);
    }
    if BelowReplaced(g.client, g.server, p) {
      var a :| a in Ancestors(p) && TypeReplaced(g.client, g.server, a);
      assert HasFileAncestor(g.client, p);
    }
  }

  /** Planning and then applying the plan delivers exactly what the client listed. */
  lemma PlanThenApply(g: Planning, u: Tree)
    requires g.Valid() && Applied(g.project, g.t, u, g.plan)
    requires NoStray(g.project, g.t, g.plan.deleteFiles, g.plan.deleteDirs)
    ensures Delivered(g, u)
  {
    forall p ensures DeliveredAt(g, u, p) {
      if p in g.client { ListedDelivered(g, u, p); } else { UnlistedDelivered(g, u, p); }
    }
  }

  /** The plan of the same push, made again from the tree `u` that the commit left. */
  ghost predicate Replanned(g: Planning, u: Tree, g2: Planning) {
    && g2.Valid() && g2.filters == g.filters && g2.project == g.project && g2.t == u
    && g2.client == g.client && g2.extra == g.extra
  }

  lemma ScannedSelection(f: Filters, t: Tree, root: Path, s: Listing, p: Path, q: Path)
    requires IsScan(f, t, root, s) && Join(root, q) in t && f.MatchesEntry(q) && Under(p, q)
    ensures p in s && Join(root, p) in t && s[p] == EntryOf(t[Join(root, p)])
  {
    InsideJoin(t, root, q);
    assert q in Selected(f, t, root);
    if p != q { ParentInClosure(Selected(f, t, root), q, p); }
  }

  /** Everything the client lists is seen again by the next scan. */
  lemma ListedScannedAfter(g: Planning, u: Tree, g2: Planning, p: Path)
    requires g.Valid() && Delivered(g, u) && Replanned(g, u, g2) && p in g.client
    ensures p in g2.server && Get(u, Join(g.project, p)).Some?
    ensures g2.server[p] == EntryOf(Get(u, Join(g.project, p)).value)
  {
    var q := p;
    if !g.filters.MatchesEntry(p) {
      q :| q in g.client && g.filters.MatchesEntry(q) && Ancestor(p, q);
    }
    assert DeliveredAt(g, u, p) && DeliveredAt(g, u, q);
    ScannedSelection(g.filters, u, g.project, g2.server, p, q);
  }

  /** With extras deleted, the next scan sees nothing that the client does not list. */
  lemma SelectedIsListed(g: Planning, u: Tree, p: Path)
    requires g.Valid() && Delivered(g, u) && g.extra
    requires Join(g.project, p) in u && g.filters.MatchesEntry(p)
    ensures p in g.client
  {
    assert DeliveredAt(g, u, p);
    assert p !in g.client ==> Join(g.project, p) in g.t;
    if Join(g.project, p) in g.t {
      ScannedSelection(g.filters, g.t, g.project, g.server, p, p);
    }
  }

  lemma ScannedIsListed(g: Planning, u: Tree, g2: Planning, p: Path)
    requires g.Valid() && Delivered(g, u) && Replanned(g, u, g2) && g.extra && p in g2.server
    ensures p in g.client
  {
    var q := p;
    if p !in Selected(g.filters, u, g.project) {
      q :| q in Selected(g.filters, u, g.project) && p in Ancestors(q);
    }
    InsideJoin(u, g.project, q);
    SelectedIsListed(g, u, q);
  }

  /** The commit does not change an entry that planning found up to date. */
  lemma UpToDateAfter(g: Planning, u: Tree, g2: Planning, p: Path)
    requires g.Valid() && Delivered(g, u) && Replanned(g, u, g2)
    requires p in g.client && g.client[p].FileEntry? && IsI64(g.client[p].mtimeMs)
    ensures p in g2.server
    ensures SameFile(g.client[p], g2.server[p]) <==> g.client[p].mtimeMs != I64_MIN
  {
    ListedScannedAfter(g, u, g2, p);
    assert DeliveredAt(g, u, p);
    TimeToMsAboveMinimum(Get(u, Join(g.project, p)).value.mtimeNs);
  }

  lemma KindAfter(g: Planning, u: Tree, g2: Planning, p: Path)
    requires g.Valid() && Delivered(g, u) && Replanned(g, u, g2)
    ensures p in g.client ==> p in g2.server && g2.server[p].FileEntry? == g.client[p].FileEntry?
    ensures g.extra && p in g2.server ==> p in g.client
  {
    if p in g.client {
      ListedScannedAfter(g, u, g2, p);
      assert DeliveredAt(g, u, p);
    }
    if g.extra && p in g2.server { ScannedIsListed(g, u, g2, p); }
  }

  /** Planning the same push again asks only for the files whose modification time is the
      least i64, the one time that does not survive being written and read back. */
  lemma Replan(g: Planning, u: Tree, g2: Planning)
    requires g.Valid() && Delivered(g, u) && Replanned(g, u, g2)
    requires forall p :: p in g.client && g.client[p].FileEntry? ==> IsI64(g.client[p].mtimeMs)
    ensures forall p :: p in g2.plan.uploads <==> p in g.client && g.client[p].FileEntry? && g.client[p].mtimeMs == I64_MIN
    ensures g2.plan.createDirs == [] && g2.plan.deleteFiles == [] && g2.plan.deleteDirs == []
  {
    forall p ensures p in g2.plan.uploads <==> p in g.client && g.client[p].FileEntry? && g.client[p].mtimeMs == I64_MIN {
      if p in g.client && g.client[p].FileEntry? { UpToDateAfter(g, u, g2, p); }
    }
    forall p ensures !NeedsDir(g2.client, g2.server, p) && !TypeReplaced(g2.client, g2.server, p)
             ensures !(g.extra && p in g2.server && p !in g.client)
             ensures !(p in g.client && g.client[p].DirEntry? && p in g2.server && g2.server[p].FileEntry?)
    {
      KindAfter(g, u, g2, p);
    }
    SomethingListed(g2.plan.createDirs);
    SomethingListed(g2.plan.deleteFiles);
    SomethingListed(g2.plan.deleteDirs);
  }

  lemma SomethingListed(s: seq<Path>)
    ensures s == [] || exists p :: p in s
  {
    if s != [] { assert s[0] in s; }
  }

  /** A file that the globs do not select, or that is private to the service, survives every successful commit unchanged, even
      where files and directories take each other's place, and whatever happened to the project
      since it was planned: what the plan deletes is still what was scanned. */
  lemma FiltersProtectUnselected(g: Planning, t: Tree, u: Tree, p: Path)
    requires g.Valid() && KnownHolds(g.project, t, g.plan)
    requires Applied(g.project, t, u, g.plan) && DirsFree(g.project, t, g.plan)
    requires FileAt(t, Join(g.project, p)) && Spared(g.filters, p)
    ensures Get(u, Join(g.project, p)) == Get(t, Join(g.project, p))
  {
    AcceptedUnlessSpared(g.filters, p);
    hide Spared;
    assert Get(u, Join(g.project, p)) == AppliedAt(g.project, t, g.plan, p);
    assert !Doomed(g.plan, p) by {
      if p in g.server {
        UnmatchedScannedIsDir(g, p);
        assert p in g.plan.deleteDirs ==> p in Touched(g.plan);
      }
    }
  }

  /** A plan that was fully applied was one that the tree had room for. */
  lemma AppliedIsReady(g: Planning, t: Tree, u: Tree)
    requires g.Valid() && BaselineHolds(g.project, t, g.plan) && RootUsable(g.project, t)
    requires NoStray(g.project, t, g.plan.deleteFiles, g.plan.deleteDirs) && DirsFree(g.project, t, g.plan)
    requires WellFormed(u) && Applied(g.project, t, u, g.plan)
    ensures Ready(g.project, t, g.plan)
  {
    hide BaselineHolds, NoStray, DirsFree;
    forall p | Doomed(g.plan, p) || p in g.plan.uploads
      ensures p in g.plan.deleteFiles ==> FileAt(t, Join(g.project, p))
      ensures p in g.plan.deleteDirs ==> DirAt(t, Join(g.project, p))
      ensures p in g.plan.uploads && DirAt(t, Join(g.project, p)) ==> Doomed(g.plan, p)
    {
      TouchedAsScanned(g, t, p);
    }
    forall p, q | (p in g.plan.createDirs || p in g.plan.uploads) && Ancestor(q, p) ensures ParentFits(g.project, t, g.plan, q) {
      ParentWasThere(g, t, u, p, q);
    }
    assert DirsFree(g.project, t, g.plan);
    FreeDirs(g.project, t, g.plan);
  }

  lemma FreeDirs(project: Path, t: Tree, plan: CommitPlan)
    requires DirsFree(project, t, plan)
    ensures forall p :: p in plan.createDirs && FileAt(t, Join(project, p)) ==> Doomed(plan, p)
  {
  }

  lemma TouchedAsScanned(g: Planning, t: Tree, p: Path)
    requires g.Valid() && BaselineHolds(g.project, t, g.plan) && p in Touched(g.plan)
    ensures p in g.server ==> Join(g.project, p) in t && EntryOf(t[Join(g.project, p)]) == g.server[p]
    ensures p !in g.server ==> Join(g.project, p) !in t
  {
    assert BaselineMatches(t, Join(g.project, p), BaselineOf(g.plan, p));
  }

  lemma ParentWasThere(g: Planning, t: Tree, u: Tree, p: Path, q: Path)
    requires g.Valid() && WellFormed(u) && Applied(g.project, t, u, g.plan)
    requires (p in g.plan.createDirs || p in g.plan.uploads) && Ancestor(q, p)
    ensures ParentFits(g.project, t, g.plan, q)
  {
    NoFileAbove(g, p);
    assert Get(u, Join(g.project, p)) == AppliedAt(g.project, t, g.plan, p);
    assert Get(u, Join(g.project, q)) == AppliedAt(g.project, t, g.plan, q);
    JoinAncestor(g.project, q, p);
    assert q in g.client && g.client[q].DirEntry?;
    if q !in g.plan.createDirs { ListedDirStays(g, q); }
  }

  lemma ScanOfSameProject(f: Filters, a: Tree, b: Tree, root: Path, s: Listing)
    requires SameProject(root, a, b) && IsScan(f, b, root, s)
    ensures IsScan(f, a, root, s)
  {
    forall p ensures Get(a, Join(root, p)) == Get(b, Join(root, p)) { JoinAncestor(root, p, p); }
    assert Inside(a, root) == Inside(b, root) by {
      forall p ensures p in Inside(a, root) <==> p in Inside(b, root) {
        InsideJoin(a, root, p);
        InsideJoin(b, root, p);
        assert Get(a, Join(root, p)) == Get(b, Join(root, p));
      }
    }
    forall p | p in s ensures Join(root, p) in a && s[p] == EntryOf(a[Join(root, p)]) {
      assert Get(a, Join(root, p)) == Get(b, Join(root, p));
    }
  }

  /** Files that the globs spare are as they were. */
  ghost predicate UnselectedKept(g: Planning, u: Tree) {
    forall p :: FileAt(g.t, Join(g.project, p)) && Spared(g.filters, p) ==>
      Get(u, Join(g.project, p)) == Get(g.t, Join(g.project, p))
  }

  /** `create_plan` for an incremental push: validate, scan, diff. */
  method PlanPush(t: Tree, project: Path, raw: seq<ClientEntry>, filters: Filters, portable: Path -> bool,
                  extra: bool, maxEntries: nat, maxFileBytes: nat)
    returns (ok: bool, plan: CommitPlan, ghost g: Planning, ghost accepted: Listing)
    requires WellFormed(t)
    ensures ok <==> ClientFits(raw, filters, portable, maxEntries, maxFileBytes)
                    && CanScan(filters, t, project, portable, maxEntries, maxFileBytes)
    ensures ok ==> g.Valid() && g.t == t && g.project == project && g.filters == filters && g.extra == extra && g.plan == plan
    ensures ok ==> Accepted(raw, p => filters.MatchesEntry(p), accepted) && Extends(accepted, g.client)
                   && g.client.Keys == ParentClosure(accepted.Keys)
    ensures ok ==> !plan.reset
  {
    ok, plan := false, CommitPlan(false, map[], [], [], [], map[]);
    g := Planning(filters, project, t, map[], map[], extra, plan);
    var valid, names, client;
    valid, names, client, accepted := ValidateClientManifest(raw, filters, portable, maxEntries, maxFileBytes);
    if !valid { return; }
    var scanned, _, server := ScanManifest(t, project, filters, portable, maxEntries, maxFileBytes);
    if !scanned { return; }
    plan := CreatePlan(client, server, extra, false);
    g := Planning(filters, project, t, client, server, extra, plan);
    ok := true;
  }

  /** Committing a push plan. On any project, success keeps every unselected file, and an error
      but the one that asks for a complete upload leaves the project alone. Without a failing
      system call it succeeds exactly when the uploads are staged, the project passes the
      baseline check and has room for the plan. On a project that is still the one that was
      planned, success delivers the manifest, and only the three conditions of `Committable`
      stand in the way; without filters nothing but an unusable root does. */
  method CommitPush(fs: FileSystem, areas: Areas, plan: CommitPlan, ghost g: Planning) returns (r: Result<Response>)
    requires fs.Valid() && StagingReady(areas, fs.tree)
    requires g.Valid() && g.plan == plan && g.project == areas.project
    modifies fs
    ensures fs.Valid() && fs.faults >= old(fs.faults)
    ensures r.Ok? ==> UnselectedKept(g.(t := old(fs.tree)), fs.tree)
    ensures r.Ok? && SameProject(areas.project, old(fs.tree), g.t) ==> Delivered(g.(t := old(fs.tree)), fs.tree)
    ensures r.Err? && r.error != ProjectReuploadRequired ==>
      SameProject(areas.project, fs.tree, old(fs.tree)) && StagedBack(areas.files, fs.tree, old(fs.tree))
    ensures r == Err(ProjectReuploadRequired) ==> fs.faults > old(fs.faults)
    ensures fs.faults == old(fs.faults) ==>
      (r.Ok? <==> StagedHolds(areas.files, old(fs.tree), plan) && BaselineHolds(areas.project, old(fs.tree), plan)
                  && Ready(areas.project, old(fs.tree), plan))
    ensures fs.faults == old(fs.faults) && StagedHolds(areas.files, old(fs.tree), plan) && !BaselineHolds(areas.project, old(fs.tree), plan) ==>
      r == Err(Conflict)
    ensures fs.faults == old(fs.faults) && StagedHolds(areas.files, old(fs.tree), plan) && SameProject(areas.project, old(fs.tree), g.t)
            ==> (r.Ok? <==> g.(t := old(fs.tree)).Committable())
    ensures fs.faults == old(fs.faults) && StagedHolds(areas.files, old(fs.tree), plan) && SameProject(areas.project, old(fs.tree), g.t)
            && g.filters == NO_FILTERS && (forall p :: Join(areas.project, p) in old(fs.tree) ==> !IsInternal(p))
            ==> (r.Ok? <==> RootUsable(areas.project, old(fs.tree)))
  {
    ghost var now := g.(t := fs.tree);
    PlanOrdered(g);
    r := ApplyCommit(fs, areas, plan);
    if r.Ok? {
      forall p | FileAt(now.t, Join(now.project, p)) && Spared(now.filters, p)
        ensures Get(fs.tree, Join(now.project, p)) == Get(now.t, Join(now.project, p))
      {
        FiltersProtectUnselected(g, now.t, fs.tree, p);
      }
      if fs.faults == old(fs.faults) { AppliedIsReady(g, now.t, fs.tree); }
    }
    if SameProject(areas.project, now.t, g.t) {
      ScanOfSameProject(g.filters, now.t, g.t, g.project, g.server);
      if r.Ok? { PlanThenApply(now, fs.tree); }
      ConflictFree(now);
      if g.filters == NO_FILTERS && RootUsable(areas.project, now.t) && (forall p :: Join(areas.project, p) in now.t ==> !IsInternal(p)) {
        NoFiltersNoConflict(now);
      }
    }
  }

  const DEMO: Path := "demo"

  /** Only the file `src/a.v` is included, the directory `src` is on disk and empty, and the client
      lists the file. The scan does not see `src`, and the plan wants to make it. */
  function Demo(content: Content): Planning {
    var file := FileEntry(content, 0, false);
    Planning(Filters(p => p == "src/a.v", true, p => false), DEMO, map[DEMO := Dir, Join(DEMO, "src") := Dir],
             map["src" := DirEntry, "src/a.v" := file], map[], false,
             CommitPlan(false, map["src/a.v" := file], ["src"], [], [], map[]))
  }

  lemma {:induction false} SplitNoSlash(p: Path)
    requires forall i :: 0 <= i < |p| ==> p[i] != '/'
    ensures Split(p) == [p]
  {
    if p != [] {
      SplitNoSlash(p[1..]);
      assert [p[0]] + p[1..] == p;
    }
  }

  lemma DemoPaths()
    ensures forall q :: Ancestor(q, "src/a.v") <==> q == "src"
    ensures forall q :: !Ancestor(q, "src") && !Ancestor(q, DEMO)
    ensures forall q :: Ancestor(q, Join(DEMO, "src")) <==> q == DEMO
    ensures !IsInternal("src/a.v")
  {
    assert "src/a.v"[..3] == "src" && "src/a.v" == "src" + ['/'] + "a.v";
    SplitAtSlash("src", "a.v");
    SplitNoSlash("src");
    SplitNoSlash("a.v");
    assert Join(DEMO, "src") == "demo/src" && "demo/src"[..4] == DEMO;
  }

  lemma SrcUnseen(content: Content)
    ensures Selected(Demo(content).filters, Demo(content).t, DEMO) == {}
  {
    var g := Demo(content);
    DemoPaths();
    forall q ensures q !in Selected(g.filters, g.t, DEMO) {
      InsideJoin(g.t, DEMO, q);
      JoinAncestor(DEMO, "src", q);
    }
  }

  lemma DemoIsValid(content: Content)
    ensures Demo(content).Valid()
  {
    DemoPaths();
    SrcUnseen(content);
    var g := Demo(content);
    hide Join, IsInternal, IsScan, IsClientListing, IsPlan;
    assert WellFormed(g.t);
    assert IsScan(g.filters, g.t, g.project, g.server) by { DemoScan(content); }
    assert IsClientListing(g.filters, g.client) by { DemoListing(content); }
    assert IsPlan(g.client, g.server, g.extra, g.plan) by { DemoPlan(content); }
  }

  lemma DemoScan(content: Content)
    ensures var g := Demo(content); IsScan(g.filters, g.t, g.project, g.server)
  {
    SrcUnseen(content);
    hide Join, Selected;
  }

  lemma DemoListing(content: Content)
    ensures var g := Demo(content); IsClientListing(g.filters, g.client)
  {
    DemoPaths();
    hide IsInternal;
    var g := Demo(content);
    assert g.filters.MatchesEntry("src/a.v");
    assert "src/a.v" in g.client && Ancestor("src", "src/a.v");
  }

  lemma DemoPlan(content: Content)
    ensures var g := Demo(content); IsPlan(g.client, g.server, g.extra, g.plan)
  {
    hide Join;
  }

  /** The collision that filters can cause: whatever else is in the workspace, and with the file
      staged, the commit of this push is refused, and leaves the project as it was. */
  method IncludeFilterCollision(fs: FileSystem, areas: Areas, content: Content) returns (r: Result<Response>)
    requires fs.Valid() && StagingReady(areas, fs.tree) && areas.project == DEMO
    requires SameProject(DEMO, fs.tree, Demo(content).t) && StagedHolds(areas.files, fs.tree, Demo(content).plan)
    modifies fs
    ensures fs.faults == old(fs.faults) ==> r == Err(Conflict) && SameProject(DEMO, fs.tree, old(fs.tree))
  {
    ghost var g := Demo(content);
    DemoIsValid(content);
    DemoCollides(content, fs.tree);
    r := CommitPush(fs, areas, Demo(content).plan, g);
  }

  lemma DemoCollides(content: Content, t: Tree)
    requires SameProject(DEMO, t, Demo(content).t)
    ensures !BaselineHolds(DEMO, t, Demo(content).plan) && !Demo(content).NoCollision()
  {
    var g := Demo(content);
    JoinAncestor(DEMO, "src", "src");
    assert Get(t, Join(DEMO, "src")) == Get(g.t, Join(DEMO, "src"));
    assert "src" in g.plan.createDirs && "src" in Touched(g.plan);
    assert "src" in g.client;
  }
}
