/** Filters, the filtered walk over a project, and client manifests. */
module Scan {
  import opened Collections
  import opened Paths
  import opened PathSort
  import opened FileTree
  import opened Manifest

  const INTERNAL_DIR: Path := ".vivado-server"

  /** The segments between slashes. */
  function Split(p: Path): (r: seq<Path>)
    ensures r != []
  {
    if p == [] then [[]]
    else
      var rest := Split(p[1..]);
      if p[0] == '/' then [[]] + rest else [[p[0]] + rest[0]] + rest[1..]
  }

  predicate IsInternal(p: Path) {
    INTERNAL_DIR in Split(p)
  }

  lemma {:induction false} SplitAtSlash(a: Path, b: Path)
    ensures Split(a + ['/'] + b) == Split(a) + Split(b)
  {
    var p := a + ['/'] + b;
    if a == [] {
      assert p[1..] == b;
    } else {
      assert p[1..] == a[1..] + ['/'] + b;
      SplitAtSlash(a[1..], b);
    }
  }

  lemma InternalBelow(q: Path, p: Path)
    requires Ancestor(q, p) && IsInternal(q)
    ensures IsInternal(p)
  {
    assert p == q + ['/'] + p[|q| + 1..];
    SplitAtSlash(q, p[|q| + 1..]);
  }

  /** Include and exclude globs, as the predicates on paths they compile to. */
  datatype Filters = Filters(included: Path -> bool, includeActive: bool, excluded: Path -> bool) {
    predicate MatchesEntry(p: Path) {
      ShouldDescend(p) && (!includeActive || included(p))
    }

    predicate ShouldDescend(p: Path) {
      && !IsInternal(p) && !excluded(p)
      && forall q | q in Ancestors(p) :: !excluded(q)
    }
  }

  /** `p[i..j]` is what is between two slashes, or a slash and an end. */
  ghost predicate IsSegment(p: Path, i: nat, j: nat) {
    && i <= j <= |p| && (i == 0 || p[i - 1] == '/') && (j == |p| || p[j] == '/')
    && forall k :: i <= k < j ==> p[k] != '/'
  }

  ghost predicate HasSegment(p: Path, s: Path) {
    exists i: nat, j: nat :: IsSegment(p, i, j) && p[i..j] == s
  }

  /** Up to the first slash, and the rest. */
  lemma {:induction false} SplitStep(p: Path) returns (k: nat)
    ensures IsSegment(p, 0, k)
    ensures Split(p) == if k == |p| then [p] else [p[..k]] + Split(p[k + 1..])
  {
    if p == [] {
      k := 0;
    } else if p[0] == '/' {
      k := 0;
      assert p[..0] == [];
    } else {
      var rest := SplitStep(p[1..]);
      k := rest + 1;
      assert [p[0]] + p[1..][..rest] == p[..k] && p[1..][rest..] == p[k..];
      if k < |p| { assert p[1..][rest + 1..] == p[k + 1..]; } else { assert [p[0]] + p[1..] == p; }
    }
  }

  lemma SegmentOfRest(p: Path, k: nat, i: nat, j: nat)
    requires k < |p| && p[k] == '/' && k < i <= j <= |p|
    ensures IsSegment(p, i, j) <==> IsSegment(p[k + 1..], i - k - 1, j - k - 1)
    ensures p[i..j] == p[k + 1..][i - k - 1..j - k - 1]
  {
    var rest := p[k + 1..];
    assert forall m :: k < m < |p| ==> p[m] == rest[m - k - 1];
    assert forall m :: 0 <= m < |rest| ==> rest[m] == p[m + k + 1];
  }

  /** The segments are the first one and those of the rest. */
  lemma SegmentStep(p: Path, k: nat, s: Path)
    requires k < |p| && IsSegment(p, 0, k)
    ensures HasSegment(p, s) <==> p[..k] == s || HasSegment(p[k + 1..], s)
  {
    var rest := p[k + 1..];
    if p[..k] == s { assert IsSegment(p, 0, k) && p[0..k] == s; }
    if HasSegment(rest, s) {
      var i: nat, j: nat :| IsSegment(rest, i, j) && rest[i..j] == s;
      SegmentOfRest(p, k, i + k + 1, j + k + 1);
    }
    if HasSegment(p, s) {
      var i: nat, j: nat :| IsSegment(p, i, j) && p[i..j] == s;
      if i > k { SegmentOfRest(p, k, i, j); } else { SegmentAtStart(p, k, i, j); }
    }
  }

  lemma SegmentAtStart(p: Path, k: nat, i: nat, j: nat)
    requires k < |p| && IsSegment(p, 0, k) && IsSegment(p, i, j) && i <= k
    ensures p[i..j] == p[..k]
  {
    assert i == 0;
    assert j == k;
  }

  /** `Split` finds the segments. */
  lemma {:induction false} SplitSegments(p: Path, s: Path)
    ensures s in Split(p) <==> HasSegment(p, s)
    decreases |p|
  {
    hide Split, HasSegment;
    var k := SplitStep(p);
    if k == |p| {
      OnlySegment(p, s);
    } else {
      SplitSegments(p[k + 1..], s);
      SegmentStep(p, k, s);
    }
  }

  lemma OnlySegment(p: Path, s: Path)
    requires IsSegment(p, 0, |p|)
    ensures HasSegment(p, s) <==> s == p
  {
    assert p[0..|p|] == p;
    if HasSegment(p, s) {
      var i: nat, j: nat :| IsSegment(p, i, j) && p[i..j] == s;
      assert i == 0 && j == |p|;
    }
  }

  /** The globs or the private directory keep every synchronization off the path. */
  ghost predicate Spared(f: Filters, p: Path) {
    || f.excluded(p) || (exists q :: Ancestor(q, p) && f.excluded(q))
    || HasSegment(p, ".vivado-server") || (f.includeActive && !f.included(p))
  }

  /** What is accepted is exactly what nothing spares. */
  lemma AcceptedUnlessSpared(f: Filters, p: Path)
    ensures f.MatchesEntry(p) <==> !Spared(f, p)
    ensures f.ShouldDescend(p) <==> !Spared(f.(includeActive := false), p)
  {
    SplitSegments(p, ".vivado-server");
    if exists q :: Ancestor(q, p) && f.excluded(q) {
      var q :| Ancestor(q, p) && f.excluded(q);
      assert q in Ancestors(p);
    }
  }

  const NO_FILTERS: Filters := Filters(p => false, false, p => false)

  /** A pruned directory holds nothing that the filters accept. */
  lemma DescendClosed(f: Filters, q: Path, p: Path)
    requires Ancestor(q, p) && f.ShouldDescend(p)
    ensures f.ShouldDescend(q)
  {
    if IsInternal(q) { InternalBelow(q, p); }
    assert q in Ancestors(p);
    forall a | a in Ancestors(q) ensures !f.excluded(a) {
      AncestorTransitive(a, q, p);
      assert a in Ancestors(p);
    }
  }

  /** What the filters accept, computed without pruning anything. */
  function Selected(f: Filters, t: Tree, root: Path): set<Path> {
    set p | p in Inside(t, root) && f.MatchesEntry(p)
  }

  /** The direct entries of the directory `a`. */
  function Children(t: Tree, a: Path): set<Path> {
    set c | c in t && Ancestor(a, c) && forall i | |a| < i < |c| :: c[i] != '/'
  }

  /** The entry of `a` on the way down to `k`. */
  lemma {:induction false} ChildTowards(t: Tree, a: Path, k: Path) returns (c: Path)
    requires WellFormed(t) && k in t && Ancestor(a, k)
    ensures c in Children(t, a) && Under(c, k)
  {
    var i := |a| + 1;
    while i < |k| && k[i] != '/'
      invariant |a| < i <= |k|
      invariant forall j :: |a| < j < i ==> k[j] != '/'
    {
      i := i + 1;
    }
    c := k[..i];
    assert c[..|a|] == a && c[|a|] == k[|a|];
    if i < |k| { assert Ancestor(c, k); } else { assert c == k; }
    assert c in t;
  }

  /** Everything that a walk may still reach is below a path in `todo`. */
  ghost predicate Frontier(f: Filters, t: Tree, root: Path, seen: set<Path>, todo: set<Path>) {
    forall k :: k in t && Ancestor(root, k) && f.ShouldDescend(k[|root| + 1..]) ==>
      k in seen || exists b :: b in todo && Under(b, k)
  }

  lemma FrontierStep(f: Filters, t: Tree, root: Path, seen: set<Path>, todo: set<Path>, a: Path)
    requires WellFormed(t) && Frontier(f, t, root, seen, todo) && a in todo && a in t && Ancestor(root, a)
    ensures !f.ShouldDescend(a[|root| + 1..]) ==> Frontier(f, t, root, seen + {a}, todo - {a})
    ensures Frontier(f, t, root, seen + {a}, todo - {a} + Children(t, a))
    ensures t[a].File? ==> Children(t, a) == {}
  {
    forall k | k in t && Ancestor(root, k) && f.ShouldDescend(k[|root| + 1..])
      ensures k in seen + {a} || exists b :: b in todo - {a} + Children(t, a) && Under(b, k)
      ensures !f.ShouldDescend(a[|root| + 1..]) ==> k in seen + {a} || exists b :: b in todo - {a} && Under(b, k)
    {
      if k !in seen {
        var b :| b in todo && Under(b, k);
        if b == a && k != a {
          var c := ChildTowards(t, a, k);
          assert c in todo - {a} + Children(t, a);
          var pa := UnderIsJoin(root, a);
          var pk := UnderIsJoin(root, k);
          JoinAncestor(root, pa, pk);
          assert a[|root| + 1..] == pa && k[|root| + 1..] == pk;
          DescendClosed(f, pa, pk);
        } else if b != a {
          assert b in todo - {a};
        }
      }
    }
  }

  lemma FrontierStart(f: Filters, t: Tree, root: Path)
    requires WellFormed(t)
    ensures Frontier(f, t, root, {}, Children(t, root))
  {
    forall k | k in t && Ancestor(root, k) ensures exists b :: b in Children(t, root) && Under(b, k) {
      var c := ChildTowards(t, root, k);
    }
  }

  /** The scan of a project: what the filters accept, and the directories above it. */
  ghost predicate IsScan(f: Filters, t: Tree, root: Path, s: Listing) {
    && s.Keys == ParentClosure(Selected(f, t, root))
    && forall p :: p in s ==> Join(root, p) in t && s[p] == EntryOf(t[Join(root, p)])
  }

  /** A scanned file is a file that nothing spares. */
  lemma ScannedFiles(f: Filters, t: Tree, root: Path, s: Listing, p: Path)
    requires WellFormed(t) && IsScan(f, t, root, s)
    ensures p in s && s[p].FileEntry? <==> FileAt(t, Join(root, p)) && !Spared(f, p)
  {
    AcceptedUnlessSpared(f, p);
    InsideJoin(t, root, p);
    if p in s && p !in Selected(f, t, root) {
      var q :| q in Selected(f, t, root) && p in Ancestors(q);
      InsideJoin(t, root, q);
      JoinAncestor(root, p, q);
    }
  }

  /** The walk has dealt with the tree paths `seen`, and has `todo` left. */
  ghost predicate Walked(f: Filters, t: Tree, root: Path, seen: set<Path>, todo: set<Path>) {
    && seen <= t.Keys && todo <= t.Keys && seen !! todo
    && Frontier(f, t, root, seen, todo)
    && (forall k :: k in seen || k in todo ==> Ancestor(root, k))
    && (forall k, b :: (k in seen || k in todo) && Ancestor(root, b) && Ancestor(b, k) ==> b in seen)
  }

  /** The entries collected are the accepted ones among those seen. */
  ghost predicate Collected(f: Filters, t: Tree, root: Path, seen: set<Path>, entries: Listing) {
    forall p :: (p in entries <==> Join(root, p) in seen && f.MatchesEntry(p))
      && (p in entries ==> Join(root, p) in t && entries[p] == EntryOf(t[Join(root, p)]))
  }

  /** A file that is too large for a transfer cannot be listed. */
  predicate SizeFits(t: Tree, a: Path, maxFileBytes: nat) {
    a in t && t[a].File? ==> |t[a].content| <= maxFileBytes
  }

  predicate Listable(t: Tree, root: Path, portable: Path -> bool, maxFileBytes: nat, p: Path) {
    portable(p) && SizeFits(t, Join(root, p), maxFileBytes)
  }

  /** What a scan asks of a project: names that can be sent, files that are not too large, and
      not too many entries. */
  ghost predicate CanScan(f: Filters, t: Tree, root: Path, portable: Path -> bool, maxEntries: nat, maxFileBytes: nat) {
    && (forall p :: p in Selected(f, t, root) ==> Listable(t, root, portable, maxFileBytes, p))
    && |ParentClosure(Selected(f, t, root))| <= maxEntries
  }

  /** What cannot be scanned: a path that nothing spares with a name that cannot be sent or a file
      above the limit, or too many of them with their parents. */
  lemma ScanLimits(f: Filters, t: Tree, root: Path, portable: Path -> bool, maxEntries: nat, maxFileBytes: nat, s: Listing)
    requires WellFormed(t) && IsScan(f, t, root, s)
    ensures CanScan(f, t, root, portable, maxEntries, maxFileBytes) <==>
            && |s| <= maxEntries
            && forall p :: Join(root, p) in t && !Spared(f, p) ==>
                 portable(p) && (t[Join(root, p)].File? ==> |t[Join(root, p)].content| <= maxFileBytes)
  {
    assert |s| == |s.Keys|;
    forall p ensures p in Selected(f, t, root) <==> Join(root, p) in t && !Spared(f, p) {
      AcceptedUnlessSpared(f, p);
      InsideJoin(t, root, p);
    }
    hide Spared, Selected, ParentClosure;
  }

  lemma WalkedStep(f: Filters, t: Tree, root: Path, seen: set<Path>, todo: set<Path>, a: Path)
    requires WellFormed(t) && Walked(f, t, root, seen, todo) && a in todo
    ensures !f.ShouldDescend(a[|root| + 1..]) ==> Walked(f, t, root, seen + {a}, todo - {a})
    ensures Walked(f, t, root, seen + {a}, todo - {a} + Children(t, a))
  {
    FrontierStep(f, t, root, seen, todo, a);
    forall c | c in Children(t, a)
      ensures Ancestor(root, c) && c !in seen && c != a
      ensures forall b :: Ancestor(root, b) && Ancestor(b, c) ==> b in seen + {a}
    {
      AncestorTransitive(root, a, c);
      forall b | Ancestor(root, b) && Ancestor(b, c) ensures b in seen + {a} {
        UnderComparable(a, b, c);
        assert |b| <= |a|;
      }
      assert c in seen ==> a in seen;
    }
  }

  lemma CollectedStep(f: Filters, t: Tree, root: Path, seen: set<Path>, entries: Listing, a: Path)
    requires Collected(f, t, root, seen, entries) && a in t && a !in seen && Ancestor(root, a)
    ensures var p := a[|root| + 1..];
            && p !in entries && Join(root, p) == a
            && Collected(f, t, root, seen + {a}, if f.MatchesEntry(p) then entries[p := EntryOf(t[a])] else entries)
  {
    var p := UnderIsJoin(root, a);
    assert p == a[|root| + 1..];
    forall q ensures Join(root, q) in seen + {a} <==> Join(root, q) in seen || q == p {
      JoinAncestor(root, q, p);
    }
  }

  lemma AllCollected(f: Filters, t: Tree, root: Path, seen: set<Path>, entries: Listing)
    requires WellFormed(t) && Walked(f, t, root, seen, {}) && Collected(f, t, root, seen, entries)
    ensures entries.Keys == Selected(f, t, root) && !FileIsAncestor(entries)
  {
    forall p ensures p in entries <==> p in Selected(f, t, root) {
      InsideJoin(t, root, p);
      JoinAncestor(root, p, p);
      assert Join(root, p)[|root| + 1..] == p;
    }
    forall q, p | q in entries && p in entries && Ancestor(q, p) ensures entries[q].DirEntry? {
      JoinAncestor(root, q, p);
    }
  }

  lemma CollectedWithin(f: Filters, t: Tree, root: Path, seen: set<Path>, entries: Listing)
    requires Collected(f, t, root, seen, entries)
    ensures entries.Keys <= Selected(f, t, root)
    ensures |entries| <= |Selected(f, t, root)| <= |ParentClosure(Selected(f, t, root))|
  {
    forall p | p in entries ensures p in Selected(f, t, root) { InsideJoin(t, root, p); }
    SubsetCount(entries.Keys, Selected(f, t, root));
    SubsetCount(Selected(f, t, root), ParentClosure(Selected(f, t, root)));
  }

  lemma SynthesizedScan(f: Filters, t: Tree, root: Path, entries: Listing, all: Listing)
    requires WellFormed(t) && entries.Keys == Selected(f, t, root)
    requires forall p :: p in entries ==> Join(root, p) in t && entries[p] == EntryOf(t[Join(root, p)])
    requires Extends(entries, all) && all.Keys == ParentClosure(entries.Keys)
    ensures IsScan(f, t, root, all)
  {
    forall p | p in all ensures Join(root, p) in t && all[p] == EntryOf(t[Join(root, p)]) {
      if p !in entries {
        var p0 :| p0 in entries && p in Ancestors(p0);
        JoinAncestor(root, p, p0);
      }
    }
  }

  /** One directory entry of the walk: look into it, and list it, if the filters say so. */
  method Visit(t: Tree, root: Path, f: Filters, portable: Path -> bool, maxEntries: nat, maxFileBytes: nat, a: Path,
               list0: seq<Path>, entries0: Listing, todo0: set<Path>, ghost seen: set<Path>)
    returns (ok: bool, list: seq<Path>, entries: Listing, todo: set<Path>)
    requires WellFormed(t) && Walked(f, t, root, seen, todo0) && a in todo0
    requires Collected(f, t, root, seen, entries0) && Lists(list0, entries0) && |list0| <= maxEntries
    requires forall p :: p in entries0 ==> Listable(t, root, portable, maxFileBytes, p)
    ensures a in t && a !in seen
    ensures ok ==> Walked(f, t, root, seen + {a}, todo) && Collected(f, t, root, seen + {a}, entries)
    ensures ok ==> Lists(list, entries) && |list| <= maxEntries
    ensures ok ==> forall p :: p in entries ==> Listable(t, root, portable, maxFileBytes, p)
    ensures !ok ==> (exists p :: p in Selected(f, t, root) && !Listable(t, root, portable, maxFileBytes, p))
                    || |Selected(f, t, root)| > maxEntries
  {
    hide Frontier, WellFormed, Selected;
    var path := a[|root| + 1..];
    WalkedStep(f, t, root, seen, todo0, a);
    CollectedStep(f, t, root, seen, entries0, a);
    hide Walked, Collected;
    ok, list, entries, todo := true, list0, entries0, todo0 - {a};
    if !f.ShouldDescend(path) { return; }
    todo := todo + Children(t, a);
    if !f.MatchesEntry(path) { return; }
    var more := entries[path := EntryOf(t[a])];
    if !portable(path) || |list| >= maxEntries || (t[a].File? && |t[a].content| > maxFileBytes) {
      CollectedWithin(f, t, root, seen + {a}, more);
      assert path in more;
      ok := false;
      return;
    }
    ListsOneMore(list, entries, path, EntryOf(t[a]));
    list, entries := list + [path], more;
  }

  /** Walk the project, skipping directories that should not be descended into: nothing
      that the filters accept is lost. `portable` is the wire-path restriction on names. */
  method Walk(t: Tree, root: Path, f: Filters, portable: Path -> bool, maxEntries: nat, maxFileBytes: nat)
    returns (ok: bool, list: seq<Path>, entries: Listing)
    requires WellFormed(t)
    ensures ok <==> (forall p :: p in Selected(f, t, root) ==> Listable(t, root, portable, maxFileBytes, p))
                    && |Selected(f, t, root)| <= maxEntries
    ensures ok ==> entries.Keys == Selected(f, t, root) && Lists(list, entries) && !FileIsAncestor(entries)
    ensures ok ==> forall p :: p in entries ==> Join(root, p) in t && entries[p] == EntryOf(t[Join(root, p)])
  {
    ghost var seen: set<Path> := {};
    var todo := Children(t, root);
    WalkStart(f, t, root);
    ok, list, entries := false, [], map[];
    while todo != {}
      invariant Walked(f, t, root, seen, todo)
      invariant Collected(f, t, root, seen, entries)
      invariant Lists(list, entries) && |list| <= maxEntries
      invariant forall p :: p in entries ==> Listable(t, root, portable, maxFileBytes, p)
      decreases t.Keys - seen
    {
      hide Walked, Collected, WellFormed, Selected;
      var a :| a in todo;
      ok, list, entries, todo := Visit(t, root, f, portable, maxEntries, maxFileBytes, a, list, entries, todo, seen);
      if !ok { return; }
      seen := seen + {a};
    }
    AllCollected(f, t, root, seen, entries);
    ok := true;
  }

  lemma WalkStart(f: Filters, t: Tree, root: Path)
    requires WellFormed(t)
    ensures Walked(f, t, root, {}, Children(t, root)) && Collected(f, t, root, {}, map[])
  {
    FrontierStart(f, t, root);
    assert forall c, b :: c in Children(t, root) && Ancestor(b, c) ==> |b| <= |root|;
  }

  /** `scan_manifest_blocking`. Fails exactly when an accepted name is not portable, an accepted
      file is too large, or there are too many entries. */
  method ScanManifest(t: Tree, root: Path, f: Filters, portable: Path -> bool, maxEntries: nat, maxFileBytes: nat)
    returns (ok: bool, list: seq<Path>, entries: Listing)
    requires WellFormed(t)
    ensures ok <==> CanScan(f, t, root, portable, maxEntries, maxFileBytes)
    ensures ok ==> IsScan(f, t, root, entries) && Sorted(ByName, list) && forall p :: p in list <==> p in entries
  {
    SubsetCount(Selected(f, t, root), ParentClosure(Selected(f, t, root)));
    var paths;
    ok, paths, entries := Walk(t, root, f, portable, maxEntries, maxFileBytes);
    list := [];
    if !ok { return; }
    var all;
    ok, paths, all := SynthesizeParentDirs(paths, entries, maxEntries);
    if !ok { return; }
    SynthesizedScan(f, t, root, entries, all);
    entries := all;
    list := SortPaths(ByName, paths);
  }

  /** A raw client entry; the file fields may be missing. */
  datatype ClientEntry = ClientEntry(path: Path, file: bool, content: Option<Content>, mtimeMs: Option<int>, executable: bool)

  /** A file entry names its size and digest (here: its content) and its modification time. */
  predicate CompleteEntry(e: ClientEntry, maxFileBytes: nat) {
    e.file ==> e.content.Some? && |e.content.value| <= maxFileBytes && e.mtimeMs.Some?
  }

  function Canonical(e: ClientEntry): Entry
    requires e.file ==> e.content.Some? && e.mtimeMs.Some?
  {
    if e.file then FileEntry(e.content.value, e.mtimeMs.value, e.executable) else DirEntry
  }

  function RawPaths(raw: seq<ClientEntry>): set<Path> {
    set e | e in raw :: e.path
  }

  /** The accepted client entries by path. */
  ghost predicate Accepted(raw: seq<ClientEntry>, accepts: Path -> bool, m: Listing) {
    && m.Keys == (set p | p in RawPaths(raw) && accepts(p))
    && forall e :: e in raw && accepts(e.path) && (e.file ==> e.content.Some? && e.mtimeMs.Some?) ==> m[e.path] == Canonical(e)
  }

  /** The paths are distinct and usable, and every accepted file entry is complete. */
  ghost predicate Usable(raw: seq<ClientEntry>, accepts: Path -> bool, usable: Path -> bool, maxFileBytes: nat) {
    && (forall e :: e in raw ==> usable(e.path) && (accepts(e.path) ==> CompleteEntry(e, maxFileBytes)))
    && forall i, j :: 0 <= i < j < |raw| ==> raw[i].path != raw[j].path
  }

  /** What the sync engine takes from a client: every accepted entry, and every directory above. */
  ghost predicate IsClientListing(f: Filters, m: Listing) {
    && ParentClosed(m.Keys) && !FileIsAncestor(m)
    && (forall p :: p in m && m[p].FileEntry? ==> f.MatchesEntry(p))
    && (forall p :: p in m ==> f.MatchesEntry(p) || exists q :: q in m && f.MatchesEntry(q) && Ancestor(p, q))
  }

  ghost predicate AcceptedSoFar(raw: seq<ClientEntry>, accepts: Path -> bool, usable: Path -> bool, maxFileBytes: nat,
                                seen: set<Path>, list: seq<Path>, entries: Listing)
  {
    && Usable(raw, accepts, usable, maxFileBytes) && Accepted(raw, accepts, entries)
    && seen == RawPaths(raw) && Lists(list, entries) && |list| <= |raw|
  }

  lemma AcceptOne(raw: seq<ClientEntry>, accepts: Path -> bool, usable: Path -> bool, maxFileBytes: nat, m: Listing, e: ClientEntry)
    requires Usable(raw, accepts, usable, maxFileBytes) && Accepted(raw, accepts, m)
    requires usable(e.path) && e.path !in RawPaths(raw)
    requires accepts(e.path) ==> CompleteEntry(e, maxFileBytes)
    ensures Usable(raw + [e], accepts, usable, maxFileBytes) && e.path !in m
    ensures RawPaths(raw + [e]) == RawPaths(raw) + {e.path}
    ensures Accepted(raw + [e], accepts, if accepts(e.path) then m[e.path := Canonical(e)] else m)
  {
    assert forall i :: 0 <= i < |raw| ==> raw[i] in raw && raw[i].path in RawPaths(raw);
    assert forall x :: x in raw ==> x.path in RawPaths(raw);
  }

  lemma AcceptStep(raw: seq<ClientEntry>, accepts: Path -> bool, usable: Path -> bool, maxFileBytes: nat,
                   seen: set<Path>, list: seq<Path>, m: Listing, e: ClientEntry)
    requires AcceptedSoFar(raw, accepts, usable, maxFileBytes, seen, list, m)
    requires usable(e.path) && e.path !in seen
    requires accepts(e.path) ==> CompleteEntry(e, maxFileBytes)
    ensures accepts(e.path) ==>
      AcceptedSoFar(raw + [e], accepts, usable, maxFileBytes, seen + {e.path}, list + [e.path], m[e.path := Canonical(e)])
    ensures !accepts(e.path) ==> AcceptedSoFar(raw + [e], accepts, usable, maxFileBytes, seen + {e.path}, list, m)
  {
    AcceptOne(raw, accepts, usable, maxFileBytes, m, e);
    if accepts(e.path) { ListsOneMore(list, m, e.path, Canonical(e)); }
  }

  lemma ListsOneMore(list: seq<Path>, m: Listing, p: Path, e: Entry)
    requires Lists(list, m) && p !in m
    ensures Lists(list + [p], m[p := e])
  {
  }

  lemma NothingAccepted(accepts: Path -> bool, usable: Path -> bool, maxFileBytes: nat)
    ensures AcceptedSoFar([], accepts, usable, maxFileBytes, {}, [], map[])
  {
  }

  method AcceptEntries(raw: seq<ClientEntry>, accepts: Path -> bool, usable: Path -> bool, maxFileBytes: nat)
    returns (ok: bool, list: seq<Path>, entries: Listing)
    ensures ok <==> Usable(raw, accepts, usable, maxFileBytes)
    ensures ok ==> Accepted(raw, accepts, entries) && Lists(list, entries) && |list| <= |raw|
  {
    hide Usable, Accepted, Lists, Split;
    ok, list, entries := false, [], map[];
    var seen: set<Path> := {};
    NothingAccepted(accepts, usable, maxFileBytes);
    for i := 0 to |raw|
      invariant AcceptedSoFar(raw[..i], accepts, usable, maxFileBytes, seen, list, entries)
    {
      var entry := raw[i];
      if !usable(entry.path) || entry.path in seen || (accepts(entry.path) && !CompleteEntry(entry, maxFileBytes)) {
        Rejected(raw, i, accepts, usable, maxFileBytes);
        return;
      }
      assert raw[..i + 1] == raw[..i] + [entry];
      AcceptStep(raw[..i], accepts, usable, maxFileBytes, seen, list, entries, entry);
      seen := seen + {entry.path};
      if accepts(entry.path) {
        list := list + [entry.path];
        entries := entries[entry.path := Canonical(entry)];
      }
    }
    assert raw[..|raw|] == raw;
    ok := true;
  }

  lemma Rejected(raw: seq<ClientEntry>, i: nat, accepts: Path -> bool, usable: Path -> bool, maxFileBytes: nat)
    requires i < |raw|
    requires !usable(raw[i].path) || raw[i].path in RawPaths(raw[..i])
             || (accepts(raw[i].path) && !CompleteEntry(raw[i], maxFileBytes))
    ensures !Usable(raw, accepts, usable, maxFileBytes)
  {
    assert raw[i] in raw;
    if raw[i].path in RawPaths(raw[..i]) {
      var e :| e in raw[..i] && e.path == raw[i].path;
      var k :| 0 <= k < i && raw[k] == e;
    }
  }

  /** What is asked of a client manifest: complete entries on distinct paths that can be used, no
      file above another entry, and no more entries than the limit once the parents are added. */
  ghost predicate ClientFits(raw: seq<ClientEntry>, f: Filters, portable: Path -> bool, maxEntries: nat, maxFileBytes: nat) {
    && |raw| <= maxEntries
    && Usable(raw, p => f.MatchesEntry(p), p => portable(p) && !IsInternal(p), maxFileBytes)
    && ClosureFits(raw, p => f.MatchesEntry(p), maxEntries)
  }

  ghost predicate ClosureFits(raw: seq<ClientEntry>, accepts: Path -> bool, maxEntries: nat) {
    forall m :: Accepted(raw, accepts, m) ==> !FileIsAncestor(m) && |ParentClosure(m.Keys)| <= maxEntries
  }

  /** Complete entries determine the listing. */
  lemma AcceptedUnique(raw: seq<ClientEntry>, accepts: Path -> bool, usable: Path -> bool, maxFileBytes: nat, a: Listing, b: Listing)
    requires Usable(raw, accepts, usable, maxFileBytes) && Accepted(raw, accepts, a) && Accepted(raw, accepts, b)
    ensures a == b
    ensures forall p :: p in a && a[p].FileEntry? ==> |a[p].content| <= maxFileBytes
  {
    forall p | p in a ensures a[p] == b[p] && (a[p].FileEntry? ==> |a[p].content| <= maxFileBytes) {
      assert p in RawPaths(raw) && accepts(p);
      var e :| e in raw && e.path == p;
      assert CompleteEntry(e, maxFileBytes);
    }
  }

  lemma OneClosure(raw: seq<ClientEntry>, accepts: Path -> bool, usable: Path -> bool, maxEntries: nat, maxFileBytes: nat, m: Listing)
    requires Usable(raw, accepts, usable, maxFileBytes) && Accepted(raw, accepts, m)
    ensures ClosureFits(raw, accepts, maxEntries) <==> !FileIsAncestor(m) && |ParentClosure(m.Keys)| <= maxEntries
    ensures forall p :: p in m && m[p].FileEntry? ==> |m[p].content| <= maxFileBytes
  {
    forall other | Accepted(raw, accepts, other) ensures other == m { AcceptedUnique(raw, accepts, usable, maxFileBytes, other, m); }
    AcceptedUnique(raw, accepts, usable, maxFileBytes, m, m);
  }

  /** Check a client manifest, drop what the filters do not accept and add the parents.
      `portable` is the wire-path restriction; internal paths are reserved besides. */
  method ValidateClientManifest(raw: seq<ClientEntry>, f: Filters, portable: Path -> bool, maxEntries: nat, maxFileBytes: nat)
    returns (ok: bool, list: seq<Path>, entries: Listing, ghost accepted: Listing)
    ensures ok <==> ClientFits(raw, f, portable, maxEntries, maxFileBytes)
    ensures ok ==> Accepted(raw, p => f.MatchesEntry(p), accepted)
    ensures ok ==> forall p :: p in entries && entries[p].FileEntry? ==> |entries[p].content| <= maxFileBytes
    ensures ok ==> |entries| <= maxEntries
    ensures ok ==> Extends(accepted, entries) && entries.Keys == ParentClosure(accepted.Keys) && IsClientListing(f, entries)
    ensures ok ==> Sorted(ByName, list) && forall p :: p in list <==> p in entries
  {
    ok, list, entries, accepted := false, [], map[], map[];
    if |raw| > maxEntries { return; }
    var paths;
    ok, paths, entries := AcceptEntries(raw, p => f.MatchesEntry(p), p => portable(p) && !IsInternal(p), maxFileBytes);
    if !ok { return; }
    accepted := entries;
    OneClosure(raw, p => f.MatchesEntry(p), p => portable(p) && !IsInternal(p), maxEntries, maxFileBytes, accepted);
    var all;
    ok, paths, all := SynthesizeParentDirs(paths, entries, maxEntries);
    if !ok { return; }
    entries := all;
    list := SortPaths(ByName, paths);
    AcceptedIsClientListing(f, accepted, all);
  }

  lemma AcceptedIsClientListing(f: Filters, accepted: Listing, all: Listing)
    requires forall p :: p in accepted ==> f.MatchesEntry(p)
    requires !FileIsAncestor(accepted)
    requires Extends(accepted, all) && all.Keys == ParentClosure(accepted.Keys)
    ensures IsClientListing(f, all)
  {
    LeastClosure(accepted.Keys, all.Keys);
    forall p | p in all ensures p in accepted || exists q :: q in accepted && Ancestor(p, q) {
      if p !in accepted { var q :| q in accepted && p in Ancestors(q); }
    }
    forall q, p | q in all && p in all && Ancestor(q, p) ensures all[q].DirEntry? {
      if q in accepted && p !in accepted {
        var p0 :| p0 in accepted && p in Ancestors(p0);
        AncestorTransitive(q, p, p0);
      }
    }
  }

  // ---------------------------------------------------------------- what one side scans the other accepts

  /** An entry of a listing as it is sent. */
  function Sent(p: Path, e: Entry): ClientEntry {
    match e
    case FileEntry(content, mtimeMs, executable) => ClientEntry(p, true, Some(content), Some(mtimeMs), executable)
    case DirEntry => ClientEntry(p, false, None, None, false)
  }

  function SentAll(list: seq<Path>, s: Listing): (r: seq<ClientEntry>)
    requires forall p :: p in list ==> p in s
    ensures |r| == |list| && forall i :: 0 <= i < |r| ==> r[i] == Sent(list[i], s[list[i]])
  {
    seq(|list|, i requires 0 <= i < |list| => assert list[i] in list; Sent(list[i], s[list[i]]))
  }

  /** The listed paths that the filters accept; the others are parents of theirs. */
  function Kept(f: Filters, s: Listing): Listing {
    map p | p in s && f.MatchesEntry(p) :: s[p]
  }

  lemma KeptCloses(f: Filters, t: Tree, root: Path, s: Listing)
    requires WellFormed(t) && IsScan(f, t, root, s)
    ensures Kept(f, s).Keys == Selected(f, t, root) && ParentClosure(Kept(f, s).Keys) == s.Keys
    ensures Extends(Kept(f, s), s) && !FileIsAncestor(s)
  {
    forall p | p in s ensures f.MatchesEntry(p) <==> p in Selected(f, t, root) { InsideJoin(t, root, p); }
    assert Kept(f, s).Keys == Selected(f, t, root);
    forall p, q | p in s && q in s && Ancestor(q, p) ensures s[q].DirEntry? { JoinAncestor(root, q, p); }
    forall p | p in s && p !in Kept(f, s) ensures s[p] == DirEntry {
      var q :| q in Selected(f, t, root) && p in Ancestors(q);
      assert q in s && Ancestor(p, q);
    }
  }

  lemma SentPaths(list: seq<Path>, s: Listing)
    requires Lists(list, s)
    ensures RawPaths(SentAll(list, s)) == s.Keys
    ensures forall e :: e in SentAll(list, s) <==> e.path in s && e == Sent(e.path, s[e.path])
    ensures forall i, j :: 0 <= i < j < |list| ==> list[i] != list[j]
  {
    var raw := SentAll(list, s);
    forall p | p in s ensures Sent(p, s[p]) in raw {
      var i :| 0 <= i < |list| && list[i] == p;
      assert raw[i] == Sent(p, s[p]);
    }
    forall e | e in raw ensures e.path in s && e == Sent(e.path, s[e.path]) {
      var i :| 0 <= i < |raw| && raw[i] == e;
      assert list[i] in list;
    }
    assert forall p :: p in s ==> Sent(p, s[p]).path == p;
    ListedOnce(list, s.Keys);
  }

  lemma {:induction false} ListedOnce(list: seq<Path>, s: set<Path>)
    requires |list| == |s| && forall p :: p in list <==> p in s
    ensures forall i, j :: 0 <= i < j < |list| ==> list[i] != list[j]
  {
    forall i, j | 0 <= i < j < |list| ensures list[i] != list[j] {
      if list[i] == list[j] {
        var rest := list[..j] + list[j + 1..];
        FewerThanListed(rest);
        forall p | p in s ensures p in rest {
          var k :| 0 <= k < |list| && list[k] == p;
          if k == j { assert rest[i] == p; } else { assert rest[if k < j then k else k - 1] == p; }
        }
        SubsetCount(s, set p | p in rest);
      }
    }
  }

  lemma {:induction false} FewerThanListed(list: seq<Path>)
    ensures |set p | p in list| <= |list|
  {
    if list != [] {
      var n := |list| - 1;
      FewerThanListed(list[..n]);
      assert (set p | p in list) == (set p | p in list[..n]) + {list[n]};
    }
  }

  /** A listing that could be scanned under some filters and limits is accepted under the same ones,
      and is taken as what it is. */
  lemma ScanIsAccepted(f: Filters, t: Tree, root: Path, portable: Path -> bool, maxEntries: nat, maxFileBytes: nat,
                       s: Listing, list: seq<Path>)
    requires WellFormed(t) && IsScan(f, t, root, s) && Lists(list, s)
    requires CanScan(f, t, root, portable, maxEntries, maxFileBytes)
    requires forall p, q :: portable(p) && Ancestor(q, p) ==> portable(q)
    ensures ClientFits(SentAll(list, s), f, portable, maxEntries, maxFileBytes)
    ensures Accepted(SentAll(list, s), p => f.MatchesEntry(p), Kept(f, s))
    ensures forall all :: Extends(Kept(f, s), all) && all.Keys == ParentClosure(Kept(f, s).Keys) ==> all == s
  {
    KeptCloses(f, t, root, s);
    SentPaths(list, s);
    var raw := SentAll(list, s);
    ScannedFits(f, t, root, portable, maxEntries, maxFileBytes, s);
    KeptAccepted(f, s, raw);
    SentUsable(f, portable, maxFileBytes, s, list);
    hide Selected, ParentClosure, SentAll, IsScan, RawPaths, CanScan, Usable, Accepted, ClosureFits, Sent, IsInternal, Filters.MatchesEntry;
    OneClosure(raw, p => f.MatchesEntry(p), p => portable(p) && !IsInternal(p), maxEntries, maxFileBytes, Kept(f, s));
    ExtendsOnce(Kept(f, s), s);
  }

  lemma ScannedFits(f: Filters, t: Tree, root: Path, portable: Path -> bool, maxEntries: nat, maxFileBytes: nat, s: Listing)
    requires WellFormed(t) && IsScan(f, t, root, s) && CanScan(f, t, root, portable, maxEntries, maxFileBytes)
    requires forall p, q :: portable(p) && Ancestor(q, p) ==> portable(q)
    ensures forall p :: p in s ==> portable(p) && !IsInternal(p)
    ensures forall p :: p in s && f.MatchesEntry(p) && s[p].FileEntry? ==> |s[p].content| <= maxFileBytes
    ensures |s| <= maxEntries
  {
    forall p | p in s
      ensures portable(p) && !IsInternal(p) && (f.MatchesEntry(p) && s[p].FileEntry? ==> |s[p].content| <= maxFileBytes)
    {
      InsideJoin(t, root, p);
      if p in Selected(f, t, root) {
        assert Listable(t, root, portable, maxFileBytes, p);
      } else {
        var q :| q in Selected(f, t, root) && p in Ancestors(q);
        assert Listable(t, root, portable, maxFileBytes, q);
        if IsInternal(p) { InternalBelow(p, q); }
      }
    }
    assert |s.Keys| == |s|;
  }

  lemma KeptAccepted(f: Filters, s: Listing, raw: seq<ClientEntry>)
    requires RawPaths(raw) == s.Keys && forall e :: e in raw <==> e.path in s && e == Sent(e.path, s[e.path])
    ensures Accepted(raw, p => f.MatchesEntry(p), Kept(f, s))
  {
    hide RawPaths, Filters.MatchesEntry;
  }

  lemma SentUsable(f: Filters, portable: Path -> bool, maxFileBytes: nat, s: Listing, list: seq<Path>)
    requires (forall p :: p in list ==> p in s) && forall i, j :: 0 <= i < j < |list| ==> list[i] != list[j]
    requires forall e :: e in SentAll(list, s) ==> e.path in s && e == Sent(e.path, s[e.path])
    requires forall p :: p in s ==> portable(p) && !IsInternal(p)
    requires forall p :: p in s && f.MatchesEntry(p) && s[p].FileEntry? ==> |s[p].content| <= maxFileBytes
    ensures Usable(SentAll(list, s), p => f.MatchesEntry(p), p => portable(p) && !IsInternal(p), maxFileBytes)
  {
    hide IsInternal, Filters.MatchesEntry;
  }

  lemma ExtendsOnce(entries: Listing, s: Listing)
    requires Extends(entries, s)
    ensures forall all :: Extends(entries, all) && all.Keys == s.Keys ==> all == s
  {
  }
}
