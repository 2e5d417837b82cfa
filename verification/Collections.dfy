/** Small facts about numbers, sequences and maps that several modules need. */
module Collections {
  function Min(a: int, b: int): int { if a < b then a else b }

  function Max(a: int, b: int): int { if a > b then a else b }

  /** The parts one after the other. */
  function Concat<T>(parts: seq<seq<T>>): seq<T> {
    if parts == [] then [] else parts[0] + Concat(parts[1..])
  }

  lemma {:induction false} ConcatAppend<T>(a: seq<seq<T>>, b: seq<seq<T>>)
    ensures Concat(a + b) == Concat(a) + Concat(b)
  {
    if a == [] {
      assert a + b == b;
    } else {
      assert (a + b)[1..] == a[1..] + b;
      ConcatAppend(a[1..], b);
      assert a[0] + (Concat(a[1..]) + Concat(b)) == Concat(a) + Concat(b);
    }
  }

  lemma ConcatOneMore<T>(parts: seq<seq<T>>, part: seq<T>)
    ensures Concat(parts + [part]) == Concat(parts) + part
  {
    ConcatAppend(parts, [part]);
    assert [part][1..] == [] && Concat([part]) == part + Concat([part][1..]);
  }

  /** Two sequences with the same members are empty together. */
  lemma BothEmpty<T>(a: seq<T>, b: seq<T>)
    requires forall x :: x in a <==> x in b
    ensures a == [] <==> b == []
  {
    if a != [] { assert a[0] in a; }
    if b != [] { assert b[0] in b; }
  }

  lemma OneFewer<K, V>(m: map<K, V>, k: K)
    requires k in m
    ensures |m - {k}| == |m| - 1
  {
    assert (m - {k}).Keys == m.Keys - {k};
  }

  lemma OneMore<K, V>(m: map<K, V>, k: K, v: V)
    requires k !in m
    ensures |m[k := v]| == |m| + 1
  {
    assert m[k := v].Keys == m.Keys + {k};
  }

  lemma SameCount<K, V>(m: map<K, V>, k: K, v: V)
    requires k in m
    ensures |m[k := v]| == |m|
  {
    assert m[k := v].Keys == m.Keys;
  }

  lemma SubsetCount<T>(a: set<T>, b: set<T>)
    requires a <= b
    ensures |a| <= |b| && (a < b ==> |a| < |b|)
  {
    assert b == a + (b - a);
    if a < b { assert b - a != {}; }
  }
}
