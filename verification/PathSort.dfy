/** The two orders the sync plan sorts its paths by. */
module PathSort {
  import opened Collections
  import opened Paths

  predicate LexLess(a: Path, b: Path) {
    b != [] && (a == [] || a[0] < b[0] || (a[0] == b[0] && LexLess(a[1..], b[1..])))
  }

  function Depth(p: Path): nat {
    if p == [] then 0 else (if p[0] == '/' then 1 else 0) + Depth(p[1..])
  }

  /** The depth is the number of slashes. */
  lemma {:induction false} DepthCounts(p: Path)
    ensures Depth(p) == multiset(p)['/']
  {
    if p != [] {
      DepthCounts(p[1..]);
      assert p == [p[0]] + p[1..];
    }
  }

  /** By name, or deepest first and then by name. */
  datatype Order = ByName | DeepestFirst

  predicate Before(o: Order, a: Path, b: Path) {
    match o
    case ByName => LexLess(a, b)
    case DeepestFirst => Depth(a) > Depth(b) || (Depth(a) == Depth(b) && LexLess(a, b))
  }

  /** The two agree up to `k`, and then comes the smaller character. */
  ghost predicate SmallerAt(a: Path, b: Path, k: nat) {
    k < |a| && k < |b| && a[..k] == b[..k] && a[k] < b[k]
  }

  /** In the order of names a prefix comes first, and otherwise the first difference decides. */
  lemma {:induction false} LexMeaning(a: Path, b: Path)
    ensures LexLess(a, b) <==> a < b || exists k: nat :: SmallerAt(a, b, k)
  {
    if a != [] && b != [] && a[0] == b[0] {
      LexMeaning(a[1..], b[1..]);
      assert a == [a[0]] + a[1..] && b == [b[0]] + b[1..];
      if k: nat :| SmallerAt(a[1..], b[1..], k) {
        assert a[..k + 1] == [a[0]] + a[1..][..k] && b[..k + 1] == [b[0]] + b[1..][..k];
        assert SmallerAt(a, b, k + 1);
      }
      if k: nat :| SmallerAt(a, b, k) {
        assert k > 0;
        assert a[1..][..k - 1] == a[..k][1..] && b[1..][..k - 1] == b[..k][1..];
        assert SmallerAt(a[1..], b[1..], k - 1);
      }
    } else if a != [] && b != [] && a[0] < b[0] {
      assert SmallerAt(a, b, 0);
    }
  }

  lemma {:induction false} LexTotal(a: Path, b: Path)
    ensures LexLess(a, b) || a == b || LexLess(b, a)
    ensures !(LexLess(a, b) && LexLess(b, a)) && !(LexLess(a, b) && a == b)
  {
    if a != [] && b != [] && a[0] == b[0] {
      LexTotal(a[1..], b[1..]);
      if a[1..] == b[1..] { assert a == [a[0]] + a[1..] && b == [b[0]] + b[1..]; }
    }
  }

  lemma {:induction false} LexTransitive(a: Path, b: Path, c: Path)
    requires LexLess(a, b) && LexLess(b, c)
    ensures LexLess(a, c)
  {
    if a != [] && b != [] && a[0] == b[0] && b[0] == c[0] {
      LexTransitive(a[1..], b[1..], c[1..]);
    }
  }

  lemma BeforeIsStrictOrder(o: Order, a: Path, b: Path, c: Path)
    ensures Before(o, a, b) || a == b || Before(o, b, a)
    ensures !(Before(o, a, b) && Before(o, b, a)) && !(Before(o, a, b) && a == b)
    ensures Before(o, a, b) && Before(o, b, c) ==> Before(o, a, c)
  {
    LexTotal(a, b);
    if LexLess(a, b) && LexLess(b, c) { LexTransitive(a, b, c); }
  }

  lemma {:induction false} DepthOfConcat(a: Path, b: Path)
    ensures Depth(a + b) == Depth(a) + Depth(b)
  {
    if a == [] { assert a + b == b; }
    else {
      assert (a + b)[1..] == a[1..] + b;
      DepthOfConcat(a[1..], b);
    }
  }

  lemma {:induction false} PrefixLexLess(a: Path, b: Path)
    requires b != []
    ensures LexLess(a, a + b)
  {
    if a != [] {
      assert (a + b)[1..] == a[1..] + b;
      PrefixLexLess(a[1..], b);
    }
  }

  /** By name a directory comes before what it contains; deepest first it comes after. */
  lemma AncestorOrder(q: Path, p: Path)
    requires Ancestor(q, p)
    ensures Before(ByName, q, p) && Before(DeepestFirst, p, q)
  {
    assert p == q + p[|q|..];
    PrefixLexLess(q, p[|q|..]);
    DepthOfConcat(q, p[|q|..]);
  }

  ghost predicate Sorted(o: Order, s: seq<Path>) {
    forall i, j :: 0 <= i < j < |s| ==> Before(o, s[i], s[j])
  }

  /** The sorted sequence of a set of paths is unique. */
  lemma {:induction false} SortedUnique(o: Order, a: seq<Path>, b: seq<Path>)
    requires Sorted(o, a) && Sorted(o, b)
    requires forall p :: p in a <==> p in b
    ensures a == b
  {
    BothEmpty(a, b);
    if a != [] {
      FirstEqual(o, a, b);
      forall p ensures p in a[1..] <==> p in b[1..] {
        RestMembers(o, a, p);
        RestMembers(o, b, p);
      }
      SortedUnique(o, a[1..], b[1..]);
    }
  }

  lemma FirstEqual(o: Order, a: seq<Path>, b: seq<Path>)
    requires a != [] && b != [] && Sorted(o, a) && Sorted(o, b)
    requires forall p :: p in a <==> p in b
    ensures a[0] == b[0]
  {
    assert a[0] in a && b[0] in b;
    var i :| 0 <= i < |b| && b[i] == a[0];
    var j :| 0 <= j < |a| && a[j] == b[0];
    BeforeIsStrictOrder(o, a[0], b[0], a[0]);
  }

  lemma RestMembers(o: Order, s: seq<Path>, p: Path)
    requires s != [] && Sorted(o, s)
    ensures p in s[1..] <==> p in s && p != s[0]
  {
    BeforeIsStrictOrder(o, s[0], p, p);
    if p in s && p != s[0] {
      var i :| 0 <= i < |s| && s[i] == p;
      assert s[1..][i - 1] == p;
    }
  }

  method InsertSorted(o: Order, s: seq<Path>, p: Path) returns (r: seq<Path>)
    requires Sorted(o, s)
    ensures Sorted(o, r)
    ensures forall q :: q in r <==> q in s || q == p
  {
    var i := 0;
    while i < |s| && Before(o, s[i], p)
      invariant 0 <= i <= |s|
      invariant forall k :: 0 <= k < i ==> Before(o, s[k], p)
    {
      i := i + 1;
    }
    if i < |s| && s[i] == p { return s; }
    r := s[..i] + [p] + s[i..];
    if i < |s| { BeforeIsStrictOrder(o, s[i], p, p); }
    forall k | i <= k < |s| ensures Before(o, p, s[k]) {
      BeforeIsStrictOrder(o, p, s[i], s[k]);
    }
    assert s == s[..i] + s[i..];
  }

  /** `sort_paths` and `sort_paths_deepest_first`: sort and drop duplicates. */
  method SortPaths(o: Order, paths: seq<Path>) returns (r: seq<Path>)
    ensures Sorted(o, r)
    ensures forall q :: q in r <==> q in paths
  {
    r := [];
    for i := 0 to |paths|
      invariant Sorted(o, r)
      invariant forall q :: q in r <==> q in paths[..i]
    {
      r := InsertSorted(o, r, paths[i]);
      assert paths[..i + 1] == paths[..i] + [paths[i]];
    }
    assert paths[..|paths|] == paths;
  }

  /** The keys of an ordered map, in iteration order. */
  method InOrder(keys: set<Path>) returns (r: seq<Path>)
    ensures Sorted(ByName, r)
    ensures forall q :: q in r <==> q in keys
  {
    r := [];
    var todo := keys;
    while todo != {}
      invariant todo <= keys && Sorted(ByName, r)
      invariant forall q :: q in r <==> q in keys - todo
    {
      var p :| p in todo;
      todo := todo - {p};
      r := InsertSorted(ByName, r, p);
    }
  }
}
