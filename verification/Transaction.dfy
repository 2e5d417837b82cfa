/** The commit transaction: an undo log of renames and created directories, and the
    rollback that unwinds it in reverse order. */
module Transaction {
  import opened Paths
  import opened FileTree

  datatype AppliedChange =
    | Created(target: Path)
    | Replaced(target: Path, backup: Path)
    | Installed(target: Path, staged: Path, saved: Option<Path>)

  /** Where a transaction works: the project, the staged uploads and the backups. */
  datatype Areas = Areas(project: Path, files: Path, backups: Path) {
    ghost predicate Valid() {
      Separate(project, files) && Separate(project, backups) && Separate(files, backups)
    }

    ghost predicate Holds(c: AppliedChange) {
      && Under(project, c.target)
      && (c.Replaced? ==> Ancestor(backups, c.backup))
      && (c.Installed? ==> Under(files, c.staged) && (c.saved.Some? ==> Ancestor(backups, c.saved.value)))
    }
  }

  /** The places of one commit in a workspace are apart. */
  lemma PlacesApart()
    ensures Areas("demo", ".vivado-server/staging/1/files", ".vivado-server/staging/1/rollback").Valid()
  {
    var files, backups := ".vivado-server/staging/1/files", ".vivado-server/staging/1/rollback";
    assert files[0] != 'd' && backups[0] != 'd' && files[25] != backups[25];
  }

  /** The tree before the change `c`, recovered from the tree after it. */
  function UndoStep(t: Tree, c: AppliedChange): Tree {
    match c
    case Created(target) => t - {target}
    case Replaced(target, backup) => Renamed(t, backup, target)
    case Installed(target, staged, saved) =>
      var u := Renamed(t, target, staged);
      if saved.Some? then Renamed(u, saved.value, target) else u
  }

  /** A rename of `src` to the free name `dst` can be made. */
  ghost predicate CanMove(t: Tree, src: Path, dst: Path) {
    src in t && dst !in t && Resolves(t, dst) && Separate(src, dst)
  }

  /** The system calls that undo `c` find what they expect. */
  ghost predicate UndoReady(t: Tree, c: AppliedChange) {
    match c
    case Created(target) => target in t && t[target].Dir? && EmptyBelow(t, target)
    case Replaced(target, backup) => CanMove(t, backup, target)
    case Installed(target, staged, saved) =>
      && CanMove(t, target, staged)
      && (saved.Some? ==> CanMove(Renamed(t, target, staged), saved.value, target))
  }

  /** Equal trees, except that files under `files` may differ in their attributes. */
  ghost predicate SameTree(files: Path, a: Tree, b: Tree) {
    && a.Keys == b.Keys
    && forall p :: p in a ==> a[p] == b[p] || (Under(files, p) && SameContent(a[p], b[p]))
  }

  /** Undoing the whole log, newest change first, leads back to `start`. */
  ghost predicate Undoable(areas: Areas, t: Tree, changes: seq<AppliedChange>, start: Tree)
    decreases |changes|
  {
    && WellFormed(t)
    && if changes == [] then SameTree(areas.files, t, start)
       else
         var c := changes[|changes| - 1];
         areas.Holds(c) && UndoReady(t, c)
         && Undoable(areas, UndoStep(t, c), changes[..|changes| - 1], start)
  }

  lemma MoveBack(t: Tree, src: Path, dst: Path)
    requires WellFormed(t) && CanMove(t, src, dst)
    ensures WellFormed(Renamed(t, src, dst))
    ensures Resolves(t, src) ==> CanMove(Renamed(t, src, dst), dst, src)
    ensures Renamed(Renamed(t, src, dst), dst, src) == t
  {
    var u := Renamed(t, src, dst);
    RenamedWellFormed(t, src, dst);
    RenameInverse(t, src, dst);
    RenamedGet(t, src, dst, src);
    RenamedGet(t, src, dst, dst);
    RebaseUnder(dst, dst, src);
    if Resolves(t, src) {
      forall q | q in Ancestors(src) ensures q in u && u[q].Dir? {
        RenamedGet(t, src, dst, q);
        if Under(dst, q) { AbsentSubtree(t, dst, q); }
        if Under(src, q) { UnderTransitive(src, q, src); }
      }
    }
  }

  /** A move between areas keeps two trees equal up to attributes of staged files. */
  lemma MoveKeepsSame(files: Path, a: Tree, b: Tree, src: Path, dst: Path)
    requires SameTree(files, a, b)
    requires Separate(files, src)
    requires CanMove(a, src, dst)
    ensures CanMove(b, src, dst)
    ensures SameTree(files, Renamed(a, src, dst), Renamed(b, src, dst))
  {
    var ua, ub := Renamed(a, src, dst), Renamed(b, src, dst);
    forall p ensures p in ua <==> p in ub
             ensures p in ua ==> ua[p] == ub[p] || (Under(files, p) && SameContent(ua[p], ub[p]))
    {
      RenamedGet(a, src, dst, p);
      RenamedGet(b, src, dst, p);
      if Under(dst, p) {
        var p0 := Rebase(p, dst, src);
        RebaseUnder(p, dst, src);
        if Under(files, p0) { UnderComparable(files, src, p0); }
      }
    }
    assert ua.Keys == ub.Keys;
    assert Resolves(b, dst);
  }

  /** Undoing one change does not look at attributes of staged files. */
  lemma UndoStepKeepsSame(areas: Areas, a: Tree, b: Tree, c: AppliedChange)
    requires areas.Valid() && areas.Holds(c)
    requires WellFormed(a) && SameTree(areas.files, a, b) && UndoReady(a, c)
    ensures UndoReady(b, c) && SameTree(areas.files, UndoStep(a, c), UndoStep(b, c))
  {
    match c
    case Created(target) =>
      assert Separate(areas.files, target) by {
        SeparateSubtrees(areas.project, areas.files, target, areas.files);
      }
    case Replaced(target, backup) =>
      SeparateSubtrees(areas.backups, areas.files, backup, areas.files);
      MoveKeepsSame(areas.files, a, b, backup, target);
    case Installed(target, staged, saved) =>
      SeparateSubtrees(areas.project, areas.files, target, areas.files);
      MoveKeepsSame(areas.files, a, b, target, staged);
      if saved.Some? {
        SeparateSubtrees(areas.backups, areas.files, saved.value, areas.files);
        MoveKeepsSame(areas.files, Renamed(a, target, staged), Renamed(b, target, staged), saved.value, target);
      }
  }

  lemma SameKeepsWellFormed(files: Path, a: Tree, b: Tree)
    requires SameTree(files, a, b) && WellFormed(a)
    ensures WellFormed(b)
  {
    forall p, q | p in b && Ancestor(q, p) ensures q in b && b[q].Dir? {
      assert q in a && a[q].Dir?;
    }
  }

  /** The undo log survives attribute changes of staged files. */
  lemma {:induction false} UndoableKeepsSame(areas: Areas, a: Tree, b: Tree, changes: seq<AppliedChange>, start: Tree)
    requires areas.Valid() && SameTree(areas.files, a, b)
    requires Undoable(areas, a, changes, start)
    ensures Undoable(areas, b, changes, start)
    decreases |changes|
  {
    SameKeepsWellFormed(areas.files, a, b);
    if changes != [] {
      var c := changes[|changes| - 1];
      UndoStepKeepsSame(areas, a, b, c);
      UndoableKeepsSame(areas, UndoStep(a, c), UndoStep(b, c), changes[..|changes| - 1], start);
    }
  }

  lemma UndoableExtend(areas: Areas, t: Tree, c: AppliedChange, changes: seq<AppliedChange>, start: Tree)
    requires WellFormed(t) && areas.Holds(c) && UndoReady(t, c)
    requires Undoable(areas, UndoStep(t, c), changes, start)
    ensures Undoable(areas, t, changes + [c], start)
  {
    assert (changes + [c])[..|changes|] == changes;
  }

  /** Creating a directory is undone by removing it. */
  lemma CreatedUndone(t: Tree, target: Path)
    requires WellFormed(t) && target !in t && Resolves(t, target)
    ensures WellFormed(t[target := Dir])
    ensures UndoReady(t[target := Dir], Created(target))
    ensures UndoStep(t[target := Dir], Created(target)) == t
  {
    WithLeaf(t, target, Dir);
    assert t[target := Dir] - {target} == t;
  }

  /** Moving a path to a backup is undone by moving it back. */
  lemma ReplacedUndone(t: Tree, target: Path, backup: Path)
    requires WellFormed(t) && CanMove(t, target, backup)
    ensures UndoReady(Renamed(t, target, backup), Replaced(target, backup))
    ensures UndoStep(Renamed(t, target, backup), Replaced(target, backup)) == t
  {
    MoveBack(t, target, backup);
  }

  /** Installing over a path that was moved to a backup is undone by both moves back. */
  lemma InstalledUndone(t: Tree, target: Path, staged: Path, saved: Option<Path>, installed: Tree)
    requires WellFormed(t)
    requires saved.Some? ==> CanMove(t, target, saved.value) && Resolves(t, target)
    requires var u := if saved.Some? then Renamed(t, target, saved.value) else t;
             CanMove(u, staged, target) && Resolves(u, staged) && installed == Renamed(u, staged, target)
    ensures UndoReady(installed, Installed(target, staged, saved))
    ensures UndoStep(installed, Installed(target, staged, saved)) == t
  {
    if saved.Some? { MoveBack(t, target, saved.value); }
    var u := if saved.Some? then Renamed(t, target, saved.value) else t;
    MoveBack(u, staged, target);
  }

  /** Changing attributes of the file installed last does not disturb the undo log. */
  lemma AttributesUndone(areas: Areas, t: Tree, t2: Tree, changes: seq<AppliedChange>, start: Tree)
    requires areas.Valid() && Undoable(areas, t, changes, start)
    requires changes != [] && changes[|changes| - 1].Installed?
    requires var target := changes[|changes| - 1].target;
             target in t && target in t2 && SameContent(t[target], t2[target]) && t2 == t[target := t2[target]]
    requires WellFormed(t2)
    ensures Undoable(areas, t2, changes, start)
  {
    var c := changes[|changes| - 1];
    var target, staged := c.target, c.staged;
    var u, u2 := Renamed(t, target, staged), Renamed(t2, target, staged);
    forall p ensures p in u <==> p in u2
             ensures p in u ==> u[p] == u2[p] || (Under(areas.files, p) && SameContent(u[p], u2[p]))
    {
      RenamedGet(t, target, staged, p);
      RenamedGet(t2, target, staged, p);
      if Under(staged, p) { UnderTransitive(areas.files, staged, p); }
    }
    assert SameTree(areas.files, u, u2);
    assert CanMove(t2, target, staged);
    if c.saved.Some? {
      SeparateSubtrees(areas.backups, areas.files, c.saved.value, areas.files);
      MoveKeepsSame(areas.files, u, u2, c.saved.value, target);
    }
    UndoableKeepsSame(areas, UndoStep(t, c), UndoStep(t2, c), changes[..|changes| - 1], start);
  }

  datatype SyncError = Conflict | Internal | NotFound | BadRequest | ProjectReuploadRequired

  datatype Result<+T> = Ok(value: T) | Err(error: SyncError)

  /** The tree `b` is `a` with the subtree `target` gone, whatever happened to the backups. */
  ghost predicate Deleted(areas: Areas, a: Tree, b: Tree, target: Path) {
    forall p :: !Under(areas.backups, p) ==> Get(b, p) == if Under(target, p) then None else Get(a, p)
  }

  /** The tree `b` is `a` with the subtree `staged` moved over `target`. */
  ghost predicate InstalledOver(areas: Areas, a: Tree, b: Tree, staged: Path, target: Path) {
    forall p :: !Under(areas.backups, p) ==>
      Get(b, p) == if Under(target, p) then Get(a, Rebase(p, target, staged))
                   else if Under(staged, p) then None else Get(a, p)
  }

  /** A child of `root` that no entry of `t` uses. */
  method FreshChild(t: Tree, root: Path) returns (b: Path)
    requires WellFormed(t) && root in t && t[root].Dir?
    ensures Ancestor(root, b) && b !in t && Resolves(t, b)
  {
    var keys, n := t.Keys, 0;
    while keys != {}
      invariant keys <= t.Keys
      invariant forall k :: k in t && k !in keys ==> |k| <= n
    {
      var k :| k in keys;
      keys := keys - {k};
      if n < |k| { n := |k|; }
    }
    b := Join(root, seq(n + 1, _ => 'b'));
    JoinAncestor(root, b, seq(n + 1, _ => 'b'));
    assert forall i :: |root| < i < |b| ==> b[i] == 'b';
    forall q | q in Ancestors(b) ensures q in t && t[q].Dir? {
      assert |q| <= |root|;
      UnderComparable(q, root, b);
    }
  }

  class CommitTransaction {
    const fs: FileSystem
    const areas: Areas
    var changes: seq<AppliedChange>
    ghost const start: Tree

    ghost predicate Valid() reads this, fs {
      && fs.Valid() && areas.Valid()
      && areas.backups in fs.tree && fs.tree[areas.backups].Dir?
      && Undoable(areas, fs.tree, changes, start)
    }

    constructor (fs: FileSystem, areas: Areas)
      requires fs.Valid() && areas.Valid()
      requires areas.backups in fs.tree && fs.tree[areas.backups].Dir?
      ensures Valid() && changes == [] && start == fs.tree
      ensures this.fs == fs && this.areas == areas
    {
      this.fs := fs;
      this.areas := areas;
      changes := [];
      start := fs.tree;
    }

    /** Move `target` to a new backup. Nothing changes when this fails. */
    method Backup(target: Path) returns (r: Option<Path>)
      requires Valid() && Under(areas.project, target) && target in fs.tree
      modifies fs
      ensures fs.Valid() && fs.faults >= old(fs.faults)
      ensures r.None? ==> fs.tree == old(fs.tree) && fs.faults > old(fs.faults)
      ensures r.Some? ==> Ancestor(areas.backups, r.value) && CanMove(old(fs.tree), target, r.value)
      ensures r.Some? ==> fs.tree == Renamed(old(fs.tree), target, r.value)
    {
      var backup := FreshChild(fs.tree, areas.backups);
      SeparateSubtrees(areas.project, areas.backups, target, backup);
      var ok := fs.Rename(target, backup);
      r := if ok then Some(backup) else None;
    }

    lemma BackupKeepsRoot(t: Tree, target: Path, backup: Path)
      requires areas.Valid() && Under(areas.project, target) && Ancestor(areas.backups, backup)
      requires areas.backups in t && t[areas.backups].Dir? && CanMove(t, target, backup)
      ensures var u := Renamed(t, target, backup); areas.backups in u && u[areas.backups].Dir?
      ensures Deleted(areas, t, Renamed(t, target, backup), target)
    {
      SeparateSubtrees(areas.project, areas.backups, target, areas.backups);
      RenamedGet(t, target, backup, areas.backups);
      forall p | !Under(areas.backups, p)
        ensures Get(Renamed(t, target, backup), p) == if Under(target, p) then None else Get(t, p)
      {
        RenamedGet(t, target, backup, p);
        if Under(backup, p) { UnderTransitive(areas.backups, backup, p); }
      }
    }

    lemma InstallKeepsRoot(t: Tree, staged: Path, target: Path)
      requires areas.Valid() && Under(areas.project, target) && Under(areas.files, staged)
      requires areas.backups in t && t[areas.backups].Dir?
      ensures var u := Renamed(t, staged, target); areas.backups in u && u[areas.backups].Dir?
      ensures InstalledOver(areas, t, Renamed(t, staged, target), staged, target)
    {
      SeparateSubtrees(areas.project, areas.backups, target, areas.backups);
      SeparateSubtrees(areas.files, areas.backups, staged, areas.backups);
      RenamedGet(t, staged, target, areas.backups);
      forall p | !Under(areas.backups, p)
        ensures Get(Renamed(t, staged, target), p) ==
                if Under(target, p) then Get(t, Rebase(p, target, staged)) else if Under(staged, p) then None else Get(t, p)
      {
        RenamedGet(t, staged, target, p);
      }
    }

    method CreateDir(target: Path) returns (r: Result<()>)
      requires Valid() && Under(areas.project, target)
      modifies this`changes, fs
      ensures Valid() && fs.faults >= old(fs.faults)
      ensures r.Err? ==> r.error != ProjectReuploadRequired
      ensures r.Ok? && target in old(fs.tree) ==> old(fs.tree)[target].Dir? && fs.tree == old(fs.tree)
      ensures r.Ok? && target !in old(fs.tree) ==> Resolves(old(fs.tree), target) && fs.tree == old(fs.tree)[target := Dir]
      ensures r.Err? ==> fs.tree == old(fs.tree)
      ensures r == Err(Conflict) ==> target in fs.tree && fs.tree[target].File?
      ensures r.Err? && (if target in fs.tree then fs.tree[target].Dir? else Resolves(fs.tree, target))
              ==> fs.faults > old(fs.faults)
    {
      var stat := fs.SymlinkMetadata(target);
      match stat {
        case IsDir => return Ok(());
        case IsFile => return Err(Conflict);
        case StatError => return Err(Internal);
        case Missing =>
      }
      var made := fs.CreateDir(target);
      if !made { return Err(Internal); }
      CreatedUndone(old(fs.tree), target);
      UndoableExtend(areas, fs.tree, Created(target), changes, start);
      changes := changes + [Created(target)];
      r := Ok(());
    }

    method DeleteFile(target: Path) returns (r: Result<bool>)
      requires Valid() && Under(areas.project, target)
      modifies this`changes, fs
      ensures Valid() && fs.faults >= old(fs.faults)
      ensures r.Err? ==> r.error != ProjectReuploadRequired
      ensures r == Ok(true) ==> target in old(fs.tree) && old(fs.tree)[target].File?
      ensures r == Ok(true) ==> Deleted(areas, old(fs.tree), fs.tree, target)
      ensures r == Ok(false) ==> target !in fs.tree
      ensures r != Ok(true) ==> fs.tree == old(fs.tree)
      ensures r == Err(Conflict) ==> target in fs.tree && fs.tree[target].Dir?
      ensures r != Ok(true) && target in fs.tree && fs.tree[target].File? ==> fs.faults > old(fs.faults)
    {
      var stat := fs.SymlinkMetadata(target);
      match stat {
        case Missing => return Ok(false);
        case IsDir => return Err(Conflict);
        case StatError => return Err(Internal);
        case IsFile =>
      }
      var backup := Backup(target);
      if backup.None? { return Err(Internal); }
      RecordReplaced(old(fs.tree), target, backup.value);
      changes := changes + [Replaced(target, backup.value)];
      r := Ok(true);
    }

    method DeleteEmptyDir(target: Path) returns (r: Result<bool>)
      requires Valid() && Under(areas.project, target)
      modifies this`changes, fs
      ensures Valid() && fs.faults >= old(fs.faults)
      ensures r.Err? ==> r.error != ProjectReuploadRequired
      ensures r == Ok(true) ==> target in old(fs.tree) && old(fs.tree)[target].Dir? && EmptyBelow(old(fs.tree), target)
      ensures r == Ok(true) ==> Deleted(areas, old(fs.tree), fs.tree, target)
      ensures r == Ok(false) ==> target !in fs.tree
      ensures r != Ok(true) ==> fs.tree == old(fs.tree)
      ensures r == Err(Conflict) ==> target in fs.tree && (fs.tree[target].File? || !EmptyBelow(fs.tree, target))
      ensures r != Ok(true) && target in fs.tree && fs.tree[target].Dir? && EmptyBelow(fs.tree, target)
              ==> fs.faults > old(fs.faults)
    {
      var stat := fs.SymlinkMetadata(target);
      match stat {
        case Missing => return Ok(false);
        case IsFile => return Err(Conflict);
        case StatError => return Err(Internal);
        case IsDir =>
      }
      var empty := fs.ReadDirEmpty(target);
      if empty.None? { return Err(Internal); }
      if !empty.value { return Err(Conflict); }
      var backup := Backup(target);
      if backup.None? { return Err(Internal); }
      RecordReplaced(old(fs.tree), target, backup.value);
      changes := changes + [Replaced(target, backup.value)];
      r := Ok(true);
    }

    lemma RecordReplaced(t: Tree, target: Path, backup: Path)
      requires Under(areas.project, target) && Ancestor(areas.backups, backup)
      requires areas.Valid() && Undoable(areas, t, changes, start)
      requires areas.backups in t && t[areas.backups].Dir? && CanMove(t, target, backup)
      ensures var u := Renamed(t, target, backup);
              && Undoable(areas, u, changes + [Replaced(target, backup)], start)
              && areas.backups in u && u[areas.backups].Dir? && Deleted(areas, t, u, target)
    {
      BackupKeepsRoot(t, target, backup);
      ReplacedUndone(t, target, backup);
      MoveBack(t, target, backup);
      UndoableExtend(areas, Renamed(t, target, backup), Replaced(target, backup), changes, start);
    }

    /** Keep what is at `target` as a backup; `Ok(None)` when nothing is there. The moved
        target is recorded before anything is installed over it. */
    method KeepOld(target: Path, kind: Stat) returns (r: Result<Option<Path>>)
      requires Valid() && Under(areas.project, target)
      requires kind == IsFile || kind == IsDir
      modifies this`changes, fs
      ensures Valid() && fs.faults >= old(fs.faults)
      ensures r.Err? ==> r.error != ProjectReuploadRequired
      ensures r.Ok? && r.value.Some? ==>
        && StatOf(old(fs.tree), target) == kind
        && Ancestor(areas.backups, r.value.value) && CanMove(old(fs.tree), target, r.value.value)
        && fs.tree == Renamed(old(fs.tree), target, r.value.value)
        && changes == old(changes) + [Replaced(target, r.value.value)]
      ensures r == Ok(None) ==> StatOf(fs.tree, target) == Missing
      ensures (r.Ok? && r.value.Some?) || (fs.tree == old(fs.tree) && changes == old(changes))
      ensures r == Err(Conflict) ==> StatOf(fs.tree, target) !in {Missing, kind, StatError}
      ensures r.Err? && StatOf(fs.tree, target) in {Missing, kind} ==> fs.faults > old(fs.faults)
    {
      var stat := fs.SymlinkMetadata(target);
      if stat == Missing { return Ok(None); }
      if stat == StatError { return Err(Internal); }
      if stat != kind { return Err(Conflict); }
      var saved := Backup(target);
      if saved.None? { return Err(Internal); }
      RecordReplaced(old(fs.tree), target, saved.value);
      changes := changes + [Replaced(target, saved.value)];
      r := Ok(saved);
    }

    /** After `target` was kept as `saved`, `staged` can still be moved there. */
    lemma KeptOldAside(t: Tree, u: Tree, staged: Path, target: Path, saved: Option<Path>)
      requires areas.Valid() && Under(areas.project, target) && Under(areas.files, staged)
      requires WellFormed(t)
      requires match saved
               case None => target !in t && u == t
               case Some(b) => Ancestor(areas.backups, b) && CanMove(t, target, b) && u == Renamed(t, target, b)
      ensures WellFormed(u) && target !in u && Separate(staged, target)
      ensures Resolves(u, target) <==> Resolves(t, target)
      ensures Get(u, staged) == Get(t, staged)
      ensures forall p :: !Under(areas.backups, p) ==> Get(u, p) == if Under(target, p) then None else Get(t, p)
    {
      SeparateSubtrees(areas.project, areas.files, target, staged);
      SeparateSubtrees(areas.files, areas.backups, staged, areas.backups);
      if saved.Some? {
        var b := saved.value;
        SeparateSubtrees(areas.project, areas.backups, target, b);
        MoveBack(t, target, b);
        forall p | !Under(areas.backups, p)
          ensures Get(u, p) == if Under(target, p) then None else Get(t, p)
        {
          RenamedGet(t, target, b, p);
          if Under(b, p) { UnderTransitive(areas.backups, b, p); }
        }
        forall q | q in Ancestors(target) ensures Get(u, q) == Get(t, q) {
          RenamedGet(t, target, b, q);
          if Under(b, q) { UnderTransitive(b, q, target); }
        }
      } else {
        forall p | Under(target, p) ensures p !in t { AbsentSubtree(t, target, p); }
      }
    }

    /** The installed tree, seen from the tree before the old target was kept aside. */
    lemma InstalledEffect(t: Tree, u: Tree, w: Tree, staged: Path, target: Path)
      requires areas.Valid() && Under(areas.project, target) && Under(areas.files, staged)
      requires forall p :: !Under(areas.backups, p) ==> Get(u, p) == if Under(target, p) then None else Get(t, p)
      requires InstalledOver(areas, u, w, staged, target)
      ensures InstalledOver(areas, t, w, staged, target)
    {
      SeparateSubtrees(areas.project, areas.files, target, staged);
      forall p | !Under(areas.backups, p)
        ensures Get(w, p) == if Under(target, p) then Get(t, Rebase(p, target, staged))
                             else if Under(staged, p) then None else Get(t, p)
      {
        if Under(target, p) {
          var p0 := Rebase(p, target, staged);
          RebaseUnder(p, target, staged);
          SeparateSubtrees(target, staged, target, p0);
          UnderTransitive(areas.files, staged, p0);
          SeparateSubtrees(areas.files, areas.backups, p0, areas.backups);
        }
      }
    }

    lemma RecordInstalled(t: Tree, u: Tree, staged: Path, target: Path, saved: Option<Path>, before: seq<AppliedChange>)
      requires areas.Valid() && Under(areas.project, target) && Under(areas.files, staged)
      requires Undoable(areas, t, before, start)
      requires match saved
               case None => target !in t && u == t
               case Some(b) => Ancestor(areas.backups, b) && CanMove(t, target, b) && u == Renamed(t, target, b)
      requires areas.backups in u && u[areas.backups].Dir?
      requires CanRename(u, staged, target)
      ensures var w := Renamed(u, staged, target);
              && Undoable(areas, w, before + [Installed(target, staged, saved)], start)
              && areas.backups in w && w[areas.backups].Dir?
              && InstalledOver(areas, t, w, staged, target)
    {
      var w := Renamed(u, staged, target);
      KeptOldAside(t, u, staged, target, saved);
      InstallKeepsRoot(u, staged, target);
      InstalledEffect(t, u, w, staged, target);
      RenamedWellFormed(u, staged, target);
      InstalledUndone(t, target, staged, saved, w);
      UndoableExtend(areas, w, Installed(target, staged, saved), before, start);
    }

    method Install(staged: Path, target: Path, kind: Stat) returns (r: Result<()>)
      requires Valid() && Under(areas.project, target) && Under(areas.files, staged)
      requires kind == IsFile || kind == IsDir
      modifies this`changes, fs
      ensures Valid() && fs.faults >= old(fs.faults)
      ensures r.Err? ==> r.error != ProjectReuploadRequired
      ensures r.Ok? ==> staged in old(fs.tree) && InstalledOver(areas, old(fs.tree), fs.tree, staged, target)
      ensures r.Ok? ==> Resolves(old(fs.tree), target) && StatOf(old(fs.tree), target) in {Missing, kind}
      ensures r.Ok? ==> changes != [] && changes[|changes| - 1].Installed?
                        && changes[|changes| - 1].target == target && changes[|changes| - 1].staged == staged
      ensures r == Err(Conflict) ==> StatOf(old(fs.tree), target) !in {Missing, kind} && fs.tree == old(fs.tree)
      ensures r.Err? && staged in old(fs.tree) && Resolves(old(fs.tree), target) && StatOf(old(fs.tree), target) in {Missing, kind}
              ==> fs.faults > old(fs.faults)
    {
      hide Undoable, WellFormed, Renamed, Resolves;
      var kept := KeepOld(target, kind);
      if kept.Err? { return Err(kept.error); }
      var saved := kept.value;
      KeptOldAside(old(fs.tree), fs.tree, staged, target, saved);
      ghost var u := fs.tree;
      var moved := fs.Rename(staged, target);
      if !moved { return Err(Internal); }
      RecordInstalled(old(fs.tree), u, staged, target, saved, old(changes));
      if saved.Some? { changes := changes[..|changes| - 1]; }
      assert changes == old(changes);
      changes := changes + [Installed(target, staged, saved)];
      r := Ok(());
    }

    method InstallFile(staged: Path, target: Path) returns (r: Result<()>)
      requires Valid() && Under(areas.project, target) && Under(areas.files, staged)
      modifies this`changes, fs
      ensures Valid() && fs.faults >= old(fs.faults)
      ensures r.Err? ==> r.error != ProjectReuploadRequired
      ensures r.Ok? ==> staged in old(fs.tree) && InstalledOver(areas, old(fs.tree), fs.tree, staged, target)
      ensures r.Ok? ==> Resolves(old(fs.tree), target) && StatOf(old(fs.tree), target) in {Missing, IsFile}
      ensures r.Ok? ==> LastInstalled(target)
      ensures r == Err(Conflict) ==> StatOf(old(fs.tree), target) !in {Missing, IsFile} && fs.tree == old(fs.tree)
      ensures r.Err? && staged in old(fs.tree) && Resolves(old(fs.tree), target) && StatOf(old(fs.tree), target) in {Missing, IsFile}
              ==> fs.faults > old(fs.faults)
    {
      r := Install(staged, target, IsFile);
    }

    method ReplaceProject(staged: Path, target: Path) returns (r: Result<()>)
      requires Valid() && Under(areas.project, target) && Under(areas.files, staged)
      modifies this`changes, fs
      ensures Valid() && fs.faults >= old(fs.faults)
      ensures r.Err? ==> r.error != ProjectReuploadRequired
      ensures r.Ok? ==> staged in old(fs.tree) && InstalledOver(areas, old(fs.tree), fs.tree, staged, target)
      ensures r.Ok? ==> Resolves(old(fs.tree), target) && StatOf(old(fs.tree), target) in {Missing, IsDir}
      ensures r == Err(Conflict) ==> StatOf(old(fs.tree), target) !in {Missing, IsDir} && fs.tree == old(fs.tree)
      ensures r.Err? && staged in old(fs.tree) && Resolves(old(fs.tree), target) && StatOf(old(fs.tree), target) in {Missing, IsDir}
              ==> fs.faults > old(fs.faults)
    {
      r := Install(staged, target, IsDir);
    }

    ghost predicate LastInstalled(target: Path) reads this {
      changes != [] && changes[|changes| - 1].Installed? && changes[|changes| - 1].target == target
    }

    /** Undo one change. Only a failing system call keeps this from restoring the tree
        that `c` was applied to. */
    method UndoOne(c: AppliedChange) returns (ok: bool)
      requires fs.Valid()
      modifies fs
      ensures fs.Valid() && fs.faults >= old(fs.faults)
      ensures old(UndoReady(fs.tree, c)) && ok ==> fs.tree == UndoStep(old(fs.tree), c)
      ensures old(UndoReady(fs.tree, c)) && !ok ==> fs.faults > old(fs.faults)
    {
      match c {
        case Created(target) =>
          var removal := fs.RemoveDir(target);
          ok := removal != NotRemoved;
        case Replaced(target, backup) =>
          ok := ClearTarget(target);
          if ok { ok := fs.Rename(backup, target); }
        case Installed(target, staged, saved) =>
          ok := fs.Rename(target, staged);
          if ok && saved.Some? {
            ok := fs.Rename(saved.value, target);
          }
      }
    }

    /** `remove_replacement_target`: a target that is absent needs no removal. */
    method ClearTarget(target: Path) returns (ok: bool)
      requires fs.Valid()
      modifies fs
      ensures fs.Valid() && fs.faults >= old(fs.faults)
      ensures old(StatOf(fs.tree, target)) == Missing ==> fs.tree == old(fs.tree) && (!ok ==> fs.faults > old(fs.faults))
    {
      var stat := fs.SymlinkMetadata(target);
      match stat {
        case Missing => ok := true;
        case StatError => ok := false;
        case IsDir =>
          var removal := fs.RemoveDir(target);
          ok := removal == Removed;
        case IsFile => ok := fs.RemoveFile(target);
      }
    }

    /** Pop and undo every change. Success means the starting tree is back; without a
        failing system call there is no other outcome. */
    method Rollback() returns (ok: bool)
      requires Valid()
      modifies this`changes, fs
      ensures fs.Valid() && fs.faults >= old(fs.faults)
      ensures changes == []
      ensures ok ==> SameTree(areas.files, fs.tree, start)
      ensures !ok ==> fs.faults > old(fs.faults)
    {
      var errors := 0;
      while changes != []
        invariant fs.Valid() && fs.faults >= old(fs.faults)
        invariant errors == 0 ==> Undoable(areas, fs.tree, changes, start)
        invariant errors > 0 ==> fs.faults > old(fs.faults)
        decreases |changes|
      {
        var change := changes[|changes| - 1];
        changes := changes[..|changes| - 1];
        var undone := UndoOne(change);
        if !undone { errors := errors + 1; }
      }
      ok := errors == 0;
    }
  }

  /** One call on a transaction; `SetAttributes` touches the file installed last. */
  datatype Operation =
    | MakeDir(target: Path)
    | InstallStaged(staged: Path, target: Path)
    | DropFile(target: Path)
    | DropEmptyDir(target: Path)
    | SwapProject(staged: Path, target: Path)
    | SetAttributes(mtimeNs: int, executable: bool)

  ghost predicate Within(areas: Areas, op: Operation) {
    && (!op.SetAttributes? ==> Under(areas.project, op.target))
    && (op.InstallStaged? || op.SwapProject? ==> Under(areas.files, op.staged))
  }

  method SetLastAttributes(tx: CommitTransaction, mtimeNs: int, executable: bool)
    requires tx.Valid()
    modifies tx.fs
    ensures tx.Valid() && tx.fs.faults >= old(tx.fs.faults)
  {
    if tx.changes == [] || !tx.changes[|tx.changes| - 1].Installed? { return; }
    var target := tx.changes[|tx.changes| - 1].target;
    if target !in tx.fs.tree || tx.fs.tree[target].Dir? { return; }
    SeparateSubtrees(tx.areas.project, tx.areas.backups, target, tx.areas.backups);
    var _ := tx.fs.SetAttributes(target, mtimeNs, executable);
    AttributesUndone(tx.areas, old(tx.fs.tree), tx.fs.tree, tx.changes, tx.start);
  }

  method RunOne(tx: CommitTransaction, op: Operation)
    requires tx.Valid() && Within(tx.areas, op)
    modifies tx`changes, tx.fs
    ensures tx.Valid() && tx.fs.faults >= old(tx.fs.faults)
  {
    match op {
      case MakeDir(target) => var _ := tx.CreateDir(target);
      case InstallStaged(staged, target) => var _ := tx.InstallFile(staged, target);
      case DropFile(target) => var _ := tx.DeleteFile(target);
      case DropEmptyDir(target) => var _ := tx.DeleteEmptyDir(target);
      case SwapProject(staged, target) => var _ := tx.ReplaceProject(staged, target);
      case SetAttributes(mtimeNs, executable) => SetLastAttributes(tx, mtimeNs, executable);
    }
  }

  /** Any run of calls, whatever fails inside them, and then a rollback: when the rollback
      succeeds the tree is the one before the run, and only a failing call prevents that. */
  method RunAndRollBack(fs: FileSystem, areas: Areas, ops: seq<Operation>) returns (ok: bool)
    requires fs.Valid() && areas.Valid() && areas.backups in fs.tree && fs.tree[areas.backups].Dir?
    requires forall op :: op in ops ==> Within(areas, op)
    modifies fs
    ensures fs.Valid()
    ensures ok ==> SameTree(areas.files, fs.tree, old(fs.tree))
    ensures !ok ==> fs.faults > old(fs.faults)
  {
    var tx := new CommitTransaction(fs, areas);
    for i := 0 to |ops|
      invariant tx.Valid() && tx.fs.faults >= old(fs.faults)
    {
      RunOne(tx, ops[i]);
    }
    ok := tx.Rollback();
  }
}
