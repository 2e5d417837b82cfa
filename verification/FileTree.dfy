/** The file tree, and the system calls the sync engine makes on it. */
module FileTree {
  import opened Paths

  /** File contents. A digest is taken to identify the bytes it was computed from. */
  type Content = seq<int>

  datatype Node = File(content: Content, mtimeNs: int, executable: bool) | Dir

  type Tree = map<Path, Node>

  function Get(t: Tree, p: Path): Option<Node> {
    if p in t then Some(t[p]) else None
  }

  predicate FileAt(t: Tree, a: Path) { a in t && t[a].File? }

  predicate DirAt(t: Tree, a: Path) { a in t && t[a].Dir? }

  /** Every ancestor of an entry is a directory entry. */
  ghost predicate WellFormed(t: Tree) {
    forall p, q :: p in t && Ancestor(q, p) ==> q in t && t[q].Dir?
  }

  /** Path resolution reaches the parent of `p`. */
  predicate Resolves(t: Tree, p: Path) {
    forall q | q in Ancestors(p) :: q in t && t[q].Dir?
  }

  predicate EmptyBelow(t: Tree, p: Path) {
    forall q | q in t :: !Ancestor(p, q)
  }

  lemma TreesEqual(a: Tree, b: Tree)
    requires forall p :: Get(a, p) == Get(b, p)
    ensures a == b
  {
    forall p ensures p in a <==> p in b {
      assert Get(a, p) == Get(b, p);
    }
    forall p | p in a ensures a[p] == b[p] {
      assert Get(a, p) == Get(b, p);
    }
  }

  lemma AbsentSubtree(t: Tree, root: Path, p: Path)
    requires WellFormed(t) && root !in t && Under(root, p)
    ensures p !in t
  {
  }

  /** The keys after the subtree `src` replaces whatever is at `dst`. */
  function RenamedKeys(t: Tree, src: Path, dst: Path): set<Path> {
    (set p | p in t && !Under(src, p) && !Under(dst, p))
    + (set p | p in t && Under(src, p) :: Rebase(p, src, dst))
  }

  /** rename(2): the subtree `src` moves to `dst`. */
  function Renamed(t: Tree, src: Path, dst: Path): (r: Tree)
  {
    RenamedKeysMembers(t, src, dst);
    map p | p in RenamedKeys(t, src, dst) :: if Under(dst, p) then t[Rebase(p, dst, src)] else t[p]
  }

  lemma RenamedKeysMembers(t: Tree, src: Path, dst: Path)
    ensures forall p :: p in RenamedKeys(t, src, dst) <==>
                        if Under(dst, p) then Rebase(p, dst, src) in t else !Under(src, p) && p in t
  {
    forall p ensures p in RenamedKeys(t, src, dst) <==>
                     if Under(dst, p) then Rebase(p, dst, src) in t else !Under(src, p) && p in t
    {
      if p in RenamedKeys(t, src, dst) {
        if p0 :| p0 in t && Under(src, p0) && Rebase(p0, src, dst) == p {
          RebaseUnder(p0, src, dst);
        }
      }
      if Under(dst, p) {
        RebaseUnder(p, dst, src);
        var p0 := Rebase(p, dst, src);
        if p0 in t { assert Rebase(p0, src, dst) == p; }
      }
    }
  }

  /** What rename leaves at every path. */
  lemma RenamedGet(t: Tree, src: Path, dst: Path, p: Path)
    ensures Under(dst, p) ==> Get(Renamed(t, src, dst), p) == Get(t, Rebase(p, dst, src))
    ensures !Under(dst, p) && Under(src, p) ==> Get(Renamed(t, src, dst), p) == None
    ensures !Under(dst, p) && !Under(src, p) ==> Get(Renamed(t, src, dst), p) == Get(t, p)
  {
    RenamedKeysMembers(t, src, dst);
  }

  /** A rename to a free path is undone by renaming back. */
  lemma {:induction false} RenameInverse(t: Tree, src: Path, dst: Path)
    requires WellFormed(t) && dst !in t && Separate(src, dst)
    ensures Renamed(Renamed(t, src, dst), dst, src) == t
  {
    var u := Renamed(t, src, dst);
    forall p ensures Get(Renamed(u, dst, src), p) == Get(t, p) {
      RenamedGet(u, dst, src, p);
      if Under(src, p) {
        RebaseUnder(p, src, dst);
        RenamedGet(t, src, dst, Rebase(p, src, dst));
      } else if Under(dst, p) {
        AbsentSubtree(t, dst, p);
      } else {
        RenamedGet(t, src, dst, p);
      }
    }
    TreesEqual(Renamed(u, dst, src), t);
  }

  predicate CanRename(t: Tree, src: Path, dst: Path) {
    && src in t && Resolves(t, dst) && !Under(src, dst)
    && (dst in t ==> (t[src].File? && t[dst].File?) || (t[src].Dir? && t[dst].Dir? && EmptyBelow(t, dst)))
  }

  /** When rename(2) moves `src` to `dst`: not below itself, into a directory, and over nothing but a
      file by a file or an empty directory by a directory. So it loses no more than one node. */
  lemma RenameMeaning(t: Tree, src: Path, dst: Path)
    requires WellFormed(t)
    ensures CanRename(t, src, dst) <==>
            && src in t && src != dst && !Ancestor(src, dst) && (forall q :: Ancestor(q, dst) ==> DirAt(t, q))
            && (dst in t ==> (FileAt(t, src) <==> FileAt(t, dst)) && forall p :: p in t && Under(dst, p) ==> p == dst)
  {
    assert dst in t && t[dst].File? ==> forall p :: p in t ==> !Ancestor(dst, p);
    if dst in t && EmptyBelow(t, dst) {
      assert forall p :: p in t && Under(dst, p) ==> p == dst;
    }
    if dst in t && forall p :: p in t && Under(dst, p) ==> p == dst {
      forall q | q in t ensures !Ancestor(dst, q) { if Ancestor(dst, q) { assert Under(dst, q); } }
    }
  }

  lemma RenamedWellFormed(t: Tree, src: Path, dst: Path)
    requires WellFormed(t) && CanRename(t, src, dst)
    ensures WellFormed(Renamed(t, src, dst))
  {
    var u := Renamed(t, src, dst);
    forall p, q | p in u && Ancestor(q, p) ensures q in u && u[q].Dir? {
      RenamedGet(t, src, dst, p);
      RenamedGet(t, src, dst, q);
      if Under(dst, p) {
        var p0 := Rebase(p, dst, src);
        RebaseUnder(p, dst, src);
        RebaseAncestor(p0, src, dst, q);
        if !Under(dst, q) {
          if Under(src, q) { UnderTransitive(src, q, dst); }
        }
      } else {
        if Under(src, q) { UnderTransitive(src, q, p); }
        if Under(dst, q) { UnderTransitive(dst, q, p); }
      }
    }
  }

  lemma WithoutLeaf(t: Tree, p: Path)
    requires WellFormed(t) && EmptyBelow(t, p)
    ensures WellFormed(t - {p})
  {
  }

  lemma WithLeaf(t: Tree, p: Path, n: Node)
    requires WellFormed(t) && Resolves(t, p) && (p in t ==> t[p].File? && n.File?)
    ensures WellFormed(t[p := n])
  {
    var u := t[p := n];
    forall a, b | a in u && Ancestor(b, a) ensures b in u && u[b].Dir? {
      if a != p { assert a in t; assert b in t && t[b].Dir?; }
    }
  }

  /** The paths of a subtree, relative to its root. */
  function Inside(t: Tree, root: Path): set<Path> {
    set a | a in t && Ancestor(root, a) :: a[|root| + 1..]
  }

  lemma InsideJoin(t: Tree, root: Path, p: Path)
    ensures p in Inside(t, root) <==> Join(root, p) in t
  {
    JoinAncestor(root, p, p);
    if p in Inside(t, root) {
      var a :| a in t && Ancestor(root, a) && a[|root| + 1..] == p;
      assert a == a[..|root|] + [a[|root|]] + a[|root| + 1..];
    }
    if Join(root, p) in t { assert Join(root, p)[|root| + 1..] == p; }
  }

  /** What lies strictly below `root`. */
  function Below(t: Tree, root: Path): Tree {
    map a | a in t && Ancestor(root, a) :: t[a]
  }

  lemma BelowEqual(t: Tree, root: Path, v: Tree)
    requires forall a :: Ancestor(root, a) ==> Get(t, a) == Get(v, a)
    requires forall a :: a in v ==> Ancestor(root, a)
    ensures Below(t, root) == v
  {
    forall a ensures Get(Below(t, root), a) == Get(v, a) {
      if Ancestor(root, a) { assert Get(t, a) == Get(v, a); }
    }
    TreesEqual(Below(t, root), v);
  }

  /** What lstat(2) reports; a file on the way to `p` gives ENOTDIR, not ENOENT. */
  datatype Stat = Missing | IsFile | IsDir | StatError

  function StatOf(t: Tree, p: Path): Stat {
    if p in t then (if t[p].File? then IsFile else IsDir)
    else if exists q | q in Ancestors(p) :: q in t && t[q].File? then StatError
    else Missing
  }

  /** A path is missing if it is not there and no file is in its way. */
  lemma StatMeaning(t: Tree, p: Path)
    ensures StatOf(t, p) == IsFile <==> FileAt(t, p)
    ensures StatOf(t, p) == IsDir <==> DirAt(t, p)
    ensures StatOf(t, p) == Missing <==> p !in t && forall q :: Ancestor(q, p) ==> !FileAt(t, q)
  {
  }

  /** The outcome of a removal: a path that is already gone is told apart from a failure. */
  datatype Removal = Removed | WasMissing | NotRemoved

  /** Two nodes that may differ in modification time and executable bit only. */
  predicate SameContent(a: Node, b: Node) {
    a == b || (a.File? && b.File? && a.content == b.content)
  }

  /** The workspace's file system. Every call may fail for reasons of its own and then
      leaves the tree alone; `faults` counts those failures. */
  class FileSystem {
    var tree: Tree
    ghost var faults: nat

    ghost predicate Valid() reads this {
      WellFormed(tree)
    }

    constructor (tree: Tree)
      requires WellFormed(tree)
      ensures Valid() && this.tree == tree && faults == 0
    {
      this.tree := tree;
      faults := 0;
    }

    method SymlinkMetadata(p: Path) returns (r: Stat)
      modifies this`faults
      ensures faults >= old(faults)
      ensures r == StatOf(tree, p) || (r == StatError && faults > old(faults))
    {
      r := StatOf(tree, p);
      if * {
        faults := faults + 1;
        r := StatError;
      }
    }

    /** Look at one path; `None` when that fails. */
    method Inspect(p: Path) returns (r: Option<Option<Node>>)
      modifies this`faults
      ensures faults >= old(faults)
      ensures r.Some? ==> r.value == Get(tree, p)
      ensures r.None? ==> faults > old(faults)
    {
      r := Some(Get(tree, p));
      if * {
        faults := faults + 1;
        r := None;
      }
    }

    method CreateDir(p: Path) returns (ok: bool)
      requires Valid()
      modifies this
      ensures Valid() && faults >= old(faults)
      ensures ok ==> p !in old(tree) && Resolves(old(tree), p) && tree == old(tree)[p := Dir]
      ensures !ok ==> tree == old(tree)
      ensures !ok && p !in tree && Resolves(tree, p) ==> faults > old(faults)
    {
      ok := p !in tree && Resolves(tree, p);
      if * {
        faults := faults + 1;
        ok := false;
      } else if ok {
        WithLeaf(tree, p, Dir);
        tree := tree[p := Dir];
      }
    }

    method RemoveDir(p: Path) returns (r: Removal)
      requires Valid()
      modifies this
      ensures Valid() && faults >= old(faults)
      ensures r == Removed ==> p in old(tree) && old(tree)[p].Dir? && EmptyBelow(old(tree), p)
      ensures r == Removed ==> tree == old(tree) - {p}
      ensures r != Removed ==> tree == old(tree)
      ensures r == WasMissing ==> p !in tree
      ensures r != Removed && p in tree && tree[p].Dir? && EmptyBelow(tree, p) ==> faults > old(faults)
    {
      if * {
        faults := faults + 1;
        return NotRemoved;
      }
      if StatOf(tree, p) == Missing { return WasMissing; }
      if p !in tree || tree[p].File? || !EmptyBelow(tree, p) { return NotRemoved; }
      WithoutLeaf(tree, p);
      tree := tree - {p};
      r := Removed;
    }

    method RemoveFile(p: Path) returns (ok: bool)
      requires Valid()
      modifies this
      ensures Valid() && faults >= old(faults)
      ensures ok ==> p in old(tree) && old(tree)[p].File? && tree == old(tree) - {p}
      ensures !ok ==> tree == old(tree)
      ensures !ok && p in tree && tree[p].File? ==> faults > old(faults)
    {
      ok := p in tree && tree[p].File?;
      if * {
        faults := faults + 1;
        ok := false;
      } else if ok {
        assert EmptyBelow(tree, p);
        WithoutLeaf(tree, p);
        tree := tree - {p};
      }
    }

    method Rename(src: Path, dst: Path) returns (ok: bool)
      requires Valid()
      modifies this
      ensures Valid() && faults >= old(faults)
      ensures ok ==> CanRename(old(tree), src, dst) && tree == Renamed(old(tree), src, dst)
      ensures !ok ==> tree == old(tree)
      ensures !ok && CanRename(tree, src, dst) ==> faults > old(faults)
    {
      ok := CanRename(tree, src, dst);
      if * {
        faults := faults + 1;
        ok := false;
      } else if ok {
        RenamedWellFormed(tree, src, dst);
        tree := Renamed(tree, src, dst);
      }
    }

    /** Whether a directory has no entry; `None` when it cannot be read. */
    method ReadDirEmpty(p: Path) returns (r: Option<bool>)
      requires Valid() && p in tree && tree[p].Dir?
      modifies this`faults
      ensures faults >= old(faults)
      ensures r.Some? ==> r.value == EmptyBelow(tree, p)
      ensures r.None? ==> faults > old(faults)
    {
      r := Some(EmptyBelow(tree, p));
      if * {
        faults := faults + 1;
        r := None;
      }
    }

    /** utimensat(2) then chmod(2): a failure may come between the two. */
    method SetAttributes(p: Path, mtimeNs: int, executable: bool) returns (ok: bool)
      requires Valid() && p in tree && tree[p].File?
      modifies this
      ensures Valid() && faults >= old(faults)
      ensures p in tree && SameContent(tree[p], old(tree)[p])
      ensures tree == old(tree)[p := tree[p]]
      ensures ok ==> tree[p] == File(old(tree)[p].content, mtimeNs, executable)
      ensures !ok ==> faults > old(faults)
    {
      WithLeaf(tree, p, File(tree[p].content, mtimeNs, tree[p].executable));
      WithLeaf(tree, p, File(tree[p].content, mtimeNs, executable));
      ok := true;
      if * {
        faults := faults + 1;
        ok := false;
      } else {
        tree := tree[p := File(tree[p].content, mtimeNs, tree[p].executable)];
        if * {
          faults := faults + 1;
          ok := false;
        } else {
          tree := tree[p := File(tree[p].content, mtimeNs, executable)];
        }
      }
    }
  }
}
