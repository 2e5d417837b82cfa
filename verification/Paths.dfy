/** Slash-joined paths. A directory is a proper prefix of everything below it. */
module Paths {
  type Path = seq<char>

  datatype Option<+T> = None | Some(value: T)

  /** `q` is a proper ancestor of `p`: `p` continues with a slash right after `q`. */
  predicate Ancestor(q: Path, p: Path) {
    |q| < |p| && p[|q|] == '/' && p[..|q|] == q
  }

  function Ancestors(p: Path): (r: set<Path>)
    ensures forall q {:trigger q in r} {:trigger Ancestor(q, p)} :: q in r <==> Ancestor(q, p)
  {
    set i | 0 <= i < |p| && p[i] == '/' :: p[..i]
  }

  predicate Under(root: Path, p: Path) {
    p == root || Ancestor(root, p)
  }

  /** Neither path lies in the other's subtree. */
  predicate Separate(a: Path, b: Path) {
    !Under(a, b) && !Under(b, a)
  }

  function Join(root: Path, p: Path): Path {
    root + ['/'] + p
  }

  /** The path `p` of the subtree `from`, seen as a path of the subtree `to`. */
  function Rebase(p: Path, from: Path, to: Path): Path
    requires Under(from, p)
  {
    to + p[|from|..]
  }

  lemma AncestorTransitive(a: Path, b: Path, c: Path)
    requires Ancestor(a, b) && Under(b, c)
    ensures Ancestor(a, c)
  {
    assert b == c[..|b|];
    assert c[..|a|] == b[..|a|];
    assert c[|a|] == b[|a|];
  }

  /** Two subtree roots above one path are nested. */
  lemma UnderComparable(a: Path, b: Path, p: Path)
    requires Under(a, p) && Under(b, p)
    ensures Under(a, b) || Under(b, a)
  {
    assert a == p[..|a|] && b == p[..|b|];
    if |a| < |b| {
      assert b[..|a|] == p[..|a|];
      assert b[|a|] == p[|a|];
    } else if |b| < |a| {
      assert a[..|b|] == p[..|b|];
      assert a[|b|] == p[|b|];
    }
  }

  lemma SeparateSubtrees(a: Path, b: Path, p: Path, q: Path)
    requires Separate(a, b) && Under(a, p) && Under(b, q)
    ensures Separate(p, q)
  {
    if Under(p, q) {
      UnderTransitive(a, p, q);
      UnderComparable(a, b, q);
    }
    if Under(q, p) {
      UnderTransitive(b, q, p);
      UnderComparable(a, b, p);
    }
  }

  lemma UnderTransitive(a: Path, b: Path, c: Path)
    requires Under(a, b) && Under(b, c)
    ensures Under(a, c)
  {
    if a != b { AncestorTransitive(a, b, c); }
  }

  lemma RebaseUnder(p: Path, from: Path, to: Path)
    requires Under(from, p)
    ensures Under(to, Rebase(p, from, to))
    ensures Rebase(Rebase(p, from, to), to, from) == p
    ensures p == from <==> Rebase(p, from, to) == to
  {
    var r := Rebase(p, from, to);
    assert r[..|to|] == to;
    assert r[|to|..] == p[|from|..];
    assert p == p[..|from|] + p[|from|..];
    if p != from { assert p[|from|..][0] == '/'; assert r[|to|] == '/'; }
  }

  /** Ancestors of a rebased path are the ancestors of the new root, and rebased ones. */
  lemma RebaseAncestor(p: Path, from: Path, to: Path, q: Path)
    requires Under(from, p)
    requires Ancestor(q, Rebase(p, from, to))
    ensures Ancestor(q, to) || (Under(to, q) && Ancestor(Rebase(q, to, from), p))
  {
    var r := Rebase(p, from, to);
    RebaseUnder(p, from, to);
    assert r[..|to|] == to;
    if |q| < |to| {
      assert to[..|q|] == r[..|q|];
      assert to[|q|] == r[|q|];
    } else {
      UnderComparable(q, to, r);
      assert Under(to, q);
      RebaseUnder(q, to, from);
      var b := Rebase(q, to, from);
      assert q[|to|..] == r[|to|..][..|q| - |to|];
      assert r[|to|..] == p[|from|..];
      assert b == from + p[|from|..][..|q| - |to|];
      assert p[..|b|] == b;
      assert p[|b|] == r[|q|];
    }
  }

  lemma JoinAncestor(root: Path, q: Path, p: Path)
    ensures Ancestor(root, Join(root, p))
    ensures Ancestor(Join(root, q), Join(root, p)) <==> Ancestor(q, p)
    ensures Join(root, q) == Join(root, p) <==> q == p
  {
    var a, b := Join(root, q), Join(root, p);
    assert b[..|root|] == root;
    assert a[|root| + 1..] == q && b[|root| + 1..] == p;
    if Ancestor(q, p) {
      assert b[..|a|] == root + ['/'] + p[..|q|];
      assert b[|a|] == p[|q|];
    }
    if Ancestor(a, b) {
      assert q == a[|root| + 1..] == b[..|a|][|root| + 1..] == p[..|q|];
      assert b[|a|] == p[|q|];
    }
  }

  /** Every path strictly inside `root` is a join; so are its ancestors there. */
  lemma UnderIsJoin(root: Path, a: Path) returns (p: Path)
    requires Ancestor(root, a)
    ensures a == Join(root, p)
  {
    p := a[|root| + 1..];
    assert a == a[..|root|] + [a[|root|]] + a[|root| + 1..];
  }
}
