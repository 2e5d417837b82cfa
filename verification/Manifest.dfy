/** Manifests: what a scan or a client lists, the filters, and parent directories. */
module Manifest {
  import opened Collections
  import opened Paths
  import opened PathSort
  import opened FileTree

  datatype Entry = FileEntry(content: Content, mtimeMs: int, executable: bool) | DirEntry

  type Listing = map<Path, Entry>

  // ---------------------------------------------------------------- modification times

  const I64_MIN: int := -0x8000_0000_0000_0000
  const I64_MAX: int := 0x7fff_ffff_ffff_ffff

  predicate IsI64(ms: int) { I64_MIN <= ms <= I64_MAX }

  /** `set_file_mtime`: whole seconds and the nanoseconds above them. */
  function MsToTime(ms: int): int {
    var seconds := ms / 1000;
    var nanos := ms % 1000 * 1_000_000;
    seconds * 1_000_000_000 + nanos
  }

  /** `system_time_to_ms`: the distance from the epoch, rounded towards the epoch. */
  function TimeToMs(ns: int): int {
    if ns >= 0 then Min(ns / 1_000_000, I64_MAX) else -Min(-ns / 1_000_000, I64_MAX)
  }

  /** Writing a modification time and reading it back loses only the least i64. */
  lemma MtimeRoundTrip(ms: int)
    requires -0x8000_0000_0000_0000 <= ms <= 0x7fff_ffff_ffff_ffff
    ensures TimeToMs(MsToTime(ms)) == ms <==> ms != I64_MIN
    ensures IsI64(ms) && IsI64(TimeToMs(MsToTime(ms)))
  {
    assert MsToTime(ms) == ms * 1_000_000;
    if ms >= 0 { assert ms * 1_000_000 / 1_000_000 == ms; }
    else { assert -(ms * 1_000_000) == (-ms) * 1_000_000; assert (-ms) * 1_000_000 / 1_000_000 == -ms; }
  }

  /** A time is read back in whole milliseconds, cut towards the epoch, and held within 64 bits. */
  lemma TimeIsCut(ns: int)
    ensures var ms := TimeToMs(ns);
      && (0 <= ns < (I64_MAX + 1) * 1_000_000 ==> ms * 1_000_000 <= ns < (ms + 1) * 1_000_000)
      && (-(I64_MAX + 1) * 1_000_000 < ns <= 0 ==> (ms - 1) * 1_000_000 < ns <= ms * 1_000_000)
      && (ns >= I64_MAX * 1_000_000 ==> ms == I64_MAX) && (ns <= -I64_MAX * 1_000_000 ==> ms == -I64_MAX)
  {
  }

  lemma TimeToMsAboveMinimum(ns: int)
    ensures IsI64(TimeToMs(ns)) && TimeToMs(ns) != I64_MIN
  {
  }

  function EntryOf(n: Node): Entry {
    match n
    case File(content, ns, executable) => FileEntry(content, TimeToMs(ns), executable)
    case Dir => DirEntry
  }

  // ---------------------------------------------------------------- parents

  function LastSlash(p: Path): (r: Option<nat>)
    ensures r.Some? ==> r.value < |p| && p[r.value] == '/' && forall i :: r.value < i < |p| ==> p[i] != '/'
    ensures r.None? ==> '/' !in p
  {
    if p == [] then None
    else if p[|p| - 1] == '/' then Some(|p| - 1)
    else
      assert p == p[..|p| - 1] + [p[|p| - 1]];
      LastSlash(p[..|p| - 1])
  }

  /** Every proper ancestor once, outermost first. */
  method ParentPaths(path: Path) returns (parents: seq<Path>)
    ensures forall q :: q in parents <==> Ancestor(q, path)
    ensures forall i, j :: 0 <= i < j < |parents| ==> |parents[i]| < |parents[j]|
  {
    var innermost: seq<Path> := [];
    var current := path;
    while true
      invariant current == path[..|current|] && |current| <= |path|
      invariant current == path || Ancestor(current, path)
      invariant forall q :: q in innermost <==> Ancestor(q, path) && |q| >= |current|
      invariant forall i, j :: 0 <= i < j < |innermost| ==> |innermost[i]| > |innermost[j]|
      decreases |current|
    {
      var slash := LastSlash(current);
      if slash.None? { break; }
      var parent := current[..slash.value];
      assert Ancestor(parent, path);
      forall q | Ancestor(q, path) && |q| >= |parent| && |q| < |current| ensures q == parent {
        assert path[|q|] == current[|q|];
      }
      innermost := innermost + [parent];
      current := parent;
    }
    assert forall i :: 0 <= i < |current| ==> path[i] == current[i] && path[i] != '/';
    assert forall q :: Ancestor(q, path) ==> |q| >= |current|;
    parents := Reverse(innermost);
  }

  function Reverse(s: seq<Path>): (r: seq<Path>)
    ensures |r| == |s| && forall i :: 0 <= i < |s| ==> r[i] == s[|s| - 1 - i]
    ensures forall p :: p in r <==> p in s
  {
    if s == [] then [] else
      assert s == [s[0]] + s[1..];
      Reverse(s[1..]) + [s[0]]
  }

  function ParentClosure(s: set<Path>): set<Path> {
    s + set p, q | p in s && q in Ancestors(p) :: q
  }

  ghost predicate ParentClosed(s: set<Path>) {
    forall p, q :: p in s && Ancestor(q, p) ==> q in s
  }

  /** The parent closure is the least parent-closed superset. */
  lemma LeastClosure(s: set<Path>, larger: set<Path>)
    ensures s <= ParentClosure(s) && ParentClosed(ParentClosure(s))
    ensures s <= larger && ParentClosed(larger) ==> ParentClosure(s) <= larger
  {
    var c := ParentClosure(s);
    forall p, q | p in c && Ancestor(q, p) ensures q in c {
      if p in s { assert q in Ancestors(p); }
      else {
        var p0 :| p0 in s && p in Ancestors(p0);
        AncestorTransitive(q, p, p0);
        assert q in Ancestors(p0);
      }
    }
  }

  /** The entry vector `list` holds each path of `entries` exactly once. */
  ghost predicate Lists(list: seq<Path>, entries: Listing) {
    |list| == |entries| && forall p :: p in list <==> p in entries
  }

  ghost predicate FileIsAncestor(entries: Listing) {
    exists q, p :: q in entries && p in entries && entries[q].FileEntry? && Ancestor(q, p)
  }

  ghost predicate AreDirs(paths: set<Path>, entries: Listing) {
    forall q :: q in paths ==> q in entries && entries[q].DirEntry?
  }

  /** `all` is `entries` and some of their parent directories. */
  ghost predicate Extends(entries: Listing, all: Listing) {
    && entries.Keys <= all.Keys <= ParentClosure(entries.Keys)
    && forall p :: p in all ==> all[p] == if p in entries then entries[p] else DirEntry
  }

  lemma ParentInClosure(s: set<Path>, p: Path, q: Path)
    requires p in s && Ancestor(q, p)
    ensures q in ParentClosure(s)
  {
    assert q in Ancestors(p);
  }

  ghost predicate ParentsAdded(paths: seq<Path>, all: Listing) {
    forall p :: p in paths ==> AreDirs(Ancestors(p), all)
  }

  lemma ClosureReached(list: seq<Path>, entries: Listing, all: Listing)
    requires Lists(list, entries) && Extends(entries, all) && ParentsAdded(list, all)
    ensures all.Keys == ParentClosure(entries.Keys) && !FileIsAncestor(entries)
  {
    forall p | p in ParentClosure(entries.Keys) ensures p in all {
      if p !in entries {
        var p0 :| p0 in entries && p in Ancestors(p0);
        assert p0 in list;
      }
    }
    forall q, p | q in entries && p in entries && Ancestor(q, p) ensures entries[q].DirEntry? {
      assert p in list && q in Ancestors(p);
    }
  }

  /** The parents of one entry. */
  method AddParents(entries: Listing, path: Path, list0: seq<Path>, all0: Listing, maxEntries: nat)
    returns (ok: bool, list: seq<Path>, all: Listing)
    requires path in entries && Extends(entries, all0)
    requires Lists(list0, all0) && |list0| <= maxEntries
    ensures ok ==> Extends(entries, all) && all0.Keys <= all.Keys && AreDirs(Ancestors(path), all)
    ensures ok ==> Lists(list, all) && |list| <= maxEntries && list0 <= list
    ensures !ok ==> FileIsAncestor(entries) || |ParentClosure(entries.Keys)| > maxEntries
  {
    var parents := ParentPaths(path);
    list, all, ok := list0, all0, false;
    for j := 0 to |parents|
      invariant Extends(entries, all) && all0.Keys <= all.Keys
      invariant Lists(list, all) && |list| <= maxEntries && list0 <= list
      invariant forall k :: 0 <= k < j ==> parents[k] in all && all[parents[k]].DirEntry?
    {
      var parent := parents[j];
      assert parent in parents;
      if parent in all {
        if all[parent].FileEntry? { return; }
      } else {
        ParentInClosure(entries.Keys, path, parent);
        if |list| >= maxEntries {
          SubsetCount(all.Keys, ParentClosure(entries.Keys));
          return;
        }
        list := list + [parent];
        all := all[parent := DirEntry];
      }
    }
    ok := true;
  }

  /** Add the missing parent directories. Fails when a file is an ancestor of an entry or
      when there are more entries than allowed. */
  method SynthesizeParentDirs(list0: seq<Path>, entries: Listing, maxEntries: nat)
    returns (ok: bool, list: seq<Path>, all: Listing)
    requires Lists(list0, entries) && |list0| <= maxEntries
    ensures ok <==> !FileIsAncestor(entries) && |ParentClosure(entries.Keys)| <= maxEntries
    ensures ok ==> Extends(entries, all) && all.Keys == ParentClosure(entries.Keys)
    ensures ok ==> Lists(list, all) && list0 <= list
  {
    list, all := list0, entries;
    for i := 0 to |list0|
      invariant Extends(entries, all) && Lists(list, all) && |list| <= maxEntries && list0 <= list
      invariant ParentsAdded(list0[..i], all)
    {
      ghost var before := all;
      ok, list, all := AddParents(entries, list0[i], list, all, maxEntries);
      if !ok { return; }
      StillAdded(list0, i, entries, before, all);
    }
    ok := true;
    assert list0[..|list0|] == list0;
    ClosureReached(list0, entries, all);
  }

  lemma StillAdded(list: seq<Path>, i: nat, entries: Listing, before: Listing, all: Listing)
    requires i < |list| && Extends(entries, before) && Extends(entries, all) && before.Keys <= all.Keys
    requires ParentsAdded(list[..i], before) && AreDirs(Ancestors(list[i]), all)
    ensures ParentsAdded(list[..i + 1], all)
  {
    assert list[..i + 1] == list[..i] + [list[i]];
    forall p | p in list[..i + 1] ensures AreDirs(Ancestors(p), all) {
      if p != list[i] {
        assert p in list[..i];
        forall q | q in Ancestors(p) ensures q in all && all[q].DirEntry? {
          assert q in before && before[q].DirEntry?;
        }
      }
    }
  }
}
