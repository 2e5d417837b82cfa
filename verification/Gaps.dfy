/** Gap records: which sequence numbers a collector has to do without, and why. */
module Gaps {
  import opened Collections
  datatype Reason =
    | EventTooLarge | QueueFull | DiskError | Trimmed | Expired | SpoolLimit
    | RestartUncommitted | IncompleteTail | Older

  /** The numbers `after + 1` to `through`. */
  datatype Gap = Gap(after: nat, through: nat, reason: Reason)

  const MAX_GAPS: nat := 128

  predicate InGap(g: Gap, n: nat) { g.after < n <= g.through }

  predicate Covered(gaps: seq<Gap>, n: nat) {
    exists i | 0 <= i < |gaps| :: InGap(gaps[i], n)
  }

  /** No gap reaches beyond `high`. */
  predicate Within(gaps: seq<Gap>, high: nat) {
    forall i | 0 <= i < |gaps| :: gaps[i].through <= high
  }

  function Before(n: nat): nat { if n == 0 then 0 else n - 1 }

  /** The smallest single gap around two. */
  function Hull(a: Gap, b: Gap, reason: Reason): Gap {
    Gap(Min(a.after, b.after), Max(a.through, b.through), reason)
  }

  /** Fold the second gap into the first, when there are too many. */
  function Shrunk(gaps: seq<Gap>): seq<Gap> {
    if |gaps| > MAX_GAPS then [Hull(gaps[0], gaps[1], Older)] + gaps[2..] else gaps
  }

  /** `gap`: record the numbers `first` to `last`. */
  function AddGap(gaps: seq<Gap>, first: nat, last: nat, reason: Reason): seq<Gap> {
    var end := |gaps| - 1;
    var added := Gap(Before(first), last, reason);
    if first > last then gaps
    else if gaps != [] && gaps[end].reason == reason && gaps[end].through + 1 >= first then
      gaps[end := Hull(gaps[end], added, reason)]
    else Shrunk(gaps + [added])
  }

  lemma ShrunkKeeps(gaps: seq<Gap>, n: nat)
    requires Covered(gaps, n)
    ensures Covered(Shrunk(gaps), n)
  {
    var i :| 0 <= i < |gaps| && InGap(gaps[i], n);
    if |gaps| > MAX_GAPS {
      if i < 2 { assert InGap(Shrunk(gaps)[0], n); } else { assert Shrunk(gaps)[i - 1] == gaps[i]; }
    }
  }

  /** Recording a gap covers its numbers and uncovers none. */
  lemma AddGapCovers(gaps: seq<Gap>, first: nat, last: nat, reason: Reason, n: nat)
    requires n > 0 && (Covered(gaps, n) || first <= n <= last)
    ensures Covered(AddGap(gaps, first, last, reason), n)
  {
    var r := AddGap(gaps, first, last, reason);
    var end := |gaps| - 1;
    var added := Gap(Before(first), last, reason);
    if first > last {
    } else if gaps != [] && gaps[end].reason == reason && gaps[end].through + 1 >= first {
      if Covered(gaps, n) {
        var i :| 0 <= i < |gaps| && InGap(gaps[i], n);
        assert InGap(r[i], n);
      } else {
        assert InGap(r[end], n);
      }
    } else {
      var all := gaps + [added];
      if Covered(gaps, n) {
        var i :| 0 <= i < |gaps| && InGap(gaps[i], n);
        assert InGap(all[i], n);
      } else {
        assert InGap(all[end + 1], n);
      }
      ShrunkKeeps(all, n);
    }
  }

  /** There are never more than 128 gaps, none reaches further than what was recorded, and
      the latest number recorded is the end of some gap. */
  lemma AddGapBounds(gaps: seq<Gap>, first: nat, last: nat, reason: Reason, high: nat)
    requires Within(gaps, high) && last <= high
    ensures Within(AddGap(gaps, first, last, reason), high)
    ensures |gaps| <= MAX_GAPS ==> |AddGap(gaps, first, last, reason)| <= MAX_GAPS
  {
  }

  /** The numbers between two gaps, in none of them. */
  predicate Between(a: Gap, b: Gap, n: nat) { Min(a.through, b.through) < n <= Max(a.after, b.after) }

  lemma HullCovers(a: Gap, b: Gap, reason: Reason, n: nat)
    requires a.after < a.through && b.after < b.through
    ensures InGap(Hull(a, b, reason), n) <==> InGap(a, n) || InGap(b, n) || Between(a, b, n)
  {
  }

  ghost predicate Proper(gaps: seq<Gap>) {
    forall i :: 0 <= i < |gaps| ==> gaps[i].after < gaps[i].through
  }

  /** The number lies between two gaps that become one when a loss is recorded: the last and the new
      one if they have the same reason and are not apart, the two oldest if there are too many. */
  predicate Bridged(gaps: seq<Gap>, first: nat, last: nat, reason: Reason, n: nat) {
    var end := |gaps| - 1;
    if gaps != [] && gaps[end].reason == reason && gaps[end].through + 1 >= first then Between(gaps[end], Gap(Before(first), last, reason), n)
    else |gaps| >= MAX_GAPS && Between(gaps[0], gaps[1], n)
  }

  /** Recording a loss reports those numbers and nothing else, exactly when no other number lies
      between two gaps that become one. */
  lemma AddGapExact(gaps: seq<Gap>, first: nat, last: nat, reason: Reason)
    requires 0 < first <= last && Proper(gaps)
    ensures (forall n: nat :: Covered(AddGap(gaps, first, last, reason), n) ==> Covered(gaps, n) || first <= n <= last) <==>
            (forall n: nat :: Bridged(gaps, first, last, reason, n) ==> Covered(gaps, n) || first <= n <= last)
  {
    hide Covered, AddGap, Bridged;
    forall n: nat ensures Covered(AddGap(gaps, first, last, reason), n) <==>
                     Covered(gaps, n) || first <= n <= last || Bridged(gaps, first, last, reason, n) {
      AddGapMeaning(gaps, first, last, reason, n);
    }
  }

  lemma MergeMeaning(gaps: seq<Gap>, added: Gap, reason: Reason, n: nat)
    requires gaps != [] && Proper(gaps) && added.after < added.through
    ensures Covered(gaps[|gaps| - 1 := Hull(gaps[|gaps| - 1], added, reason)], n) <==>
            Covered(gaps, n) || InGap(added, n) || Between(gaps[|gaps| - 1], added, n)
  {
    hide Hull, Between;
    var end := |gaps| - 1;
    var r := gaps[end := Hull(gaps[end], added, reason)];
    HullCovers(gaps[end], added, reason, n);
    assert forall i :: 0 <= i < end ==> InGap(r[i], n) == InGap(gaps[i], n);
    assert InGap(r[end], n) <==> InGap(gaps[end], n) || InGap(added, n) || Between(gaps[end], added, n);
  }

  lemma PushMeaning(gaps: seq<Gap>, added: Gap, n: nat)
    ensures Covered(gaps + [added], n) <==> Covered(gaps, n) || InGap(added, n)
  {
    var all := gaps + [added];
    assert forall i :: 0 <= i < |gaps| ==> InGap(all[i], n) == InGap(gaps[i], n);
    assert InGap(all[|gaps|], n) == InGap(added, n);
  }

  lemma CoveredHead(gaps: seq<Gap>, n: nat)
    requires gaps != []
    ensures Covered(gaps, n) <==> InGap(gaps[0], n) || Covered(gaps[1..], n)
  {
    hide InGap;
    var rest := gaps[1..];
    if Covered(rest, n) {
      var i :| 0 <= i < |rest| && InGap(rest[i], n);
      assert InGap(gaps[i + 1], n);
    }
    if Covered(gaps, n) {
      var i :| 0 <= i < |gaps| && InGap(gaps[i], n);
      assert i > 0 ==> InGap(rest[i - 1], n);
    }
  }

  lemma ShrunkMeaning(all: seq<Gap>, n: nat)
    requires |all| > MAX_GAPS && Proper(all)
    ensures Covered(Shrunk(all), n) <==> Covered(all, n) || Between(all[0], all[1], n)
  {
    HullCovers(all[0], all[1], Older, n);
    var r := Shrunk(all);
    assert r[0] == Hull(all[0], all[1], Older) && r[1..] == all[2..] && all[1..][0] == all[1] && all[1..][1..] == all[2..];
    hide Hull, Between, InGap, Covered, Shrunk, Proper;
    CoveredHead(r, n);
    CoveredHead(all, n);
    CoveredHead(all[1..], n);
  }

  /** As many gaps as there may be, of one number each, with a number between every two. */
  function Spread(): seq<Gap> {
    seq(MAX_GAPS, i requires 0 <= i < MAX_GAPS => Gap(2 * i, 2 * i + 1, if i % 2 == 0 then QueueFull else DiskError))
  }

  /** One loss more, and the number 2 is reported lost, which never was. */
  lemma OldestJoined()
    ensures Proper(Spread()) && !Covered(Spread(), 2) && Covered(AddGap(Spread(), 257, 257, QueueFull), 2)
  {
    var gaps, r := Spread(), AddGap(Spread(), 257, 257, QueueFull);
    assert gaps[127] == Gap(254, 255, DiskError) && gaps[0] == Gap(0, 1, QueueFull) && gaps[1] == Gap(2, 3, DiskError);
    assert r == Shrunk(gaps + [Gap(256, 257, QueueFull)]);
    assert r[0] == Gap(0, 3, Older);
    assert InGap(r[0], 2);
  }

  /** What is reported after a loss: what was reported, the loss, and what is bridged by a join. */
  lemma AddGapMeaning(gaps: seq<Gap>, first: nat, last: nat, reason: Reason, n: nat)
    requires 0 < first <= last && Proper(gaps)
    ensures Covered(AddGap(gaps, first, last, reason), n) <==>
            Covered(gaps, n) || first <= n <= last || Bridged(gaps, first, last, reason, n)
  {
    hide Hull, Between, Covered, Shrunk;
    var end := |gaps| - 1;
    var added := Gap(Before(first), last, reason);
    assert InGap(added, n) <==> first <= n <= last;
    if gaps != [] && gaps[end].reason == reason && gaps[end].through + 1 >= first {
      MergeMeaning(gaps, added, reason, n);
    } else {
      PushMeaning(gaps, added, n);
      if |gaps| >= MAX_GAPS { ShrunkMeaning(gaps + [added], n); } else { ShrunkSame(gaps + [added]); }
    }
  }

  lemma ShrunkSame(gaps: seq<Gap>)
    requires |gaps| <= MAX_GAPS
    ensures Shrunk(gaps) == gaps
  {
  }

  /** Take over the gaps `more`, one by one. */
  function AddAll(gaps: seq<Gap>, more: seq<Gap>): seq<Gap> {
    if more == [] then gaps
    else AddGap(AddAll(gaps, more[..|more| - 1]), more[|more| - 1].after + 1, more[|more| - 1].through, more[|more| - 1].reason)
  }

  lemma CoveredLast(gaps: seq<Gap>, n: nat)
    requires Covered(gaps, n)
    ensures Covered(gaps[..|gaps| - 1], n) || InGap(gaps[|gaps| - 1], n)
  {
    var i :| 0 <= i < |gaps| && InGap(gaps[i], n);
    if i < |gaps| - 1 { assert InGap(gaps[..|gaps| - 1][i], n); }
  }

  lemma {:induction false} AddAllCovers(gaps: seq<Gap>, more: seq<Gap>, n: nat)
    requires Covered(gaps, n) || Covered(more, n)
    ensures Covered(AddAll(gaps, more), n)
  {
    if more != [] {
      var end := |more| - 1;
      if Covered(gaps, n) || Covered(more[..end], n) {
        AddAllCovers(gaps, more[..end], n);
        assert n > 0 by { PositiveCovered(AddAll(gaps, more[..end]), n); }
      } else {
        CoveredLast(more, n);
      }
      AddGapCovers(AddAll(gaps, more[..end]), more[end].after + 1, more[end].through, more[end].reason, n);
    }
  }

  lemma PositiveCovered(gaps: seq<Gap>, n: nat)
    requires Covered(gaps, n)
    ensures n > 0
  {
  }

  lemma {:induction false} AddAllBounds(gaps: seq<Gap>, more: seq<Gap>, high: nat)
    requires Within(gaps, high) && Within(more, high)
    ensures Within(AddAll(gaps, more), high)
    ensures |gaps| <= MAX_GAPS ==> |AddAll(gaps, more)| <= MAX_GAPS
  {
    if more != [] {
      var end := |more| - 1;
      AddAllBounds(gaps, more[..end], high);
      AddGapBounds(AddAll(gaps, more[..end]), more[end].after + 1, more[end].through, more[end].reason, high);
    }
  }

  lemma {:induction false} AddAllAppend(gaps: seq<Gap>, a: seq<Gap>, b: seq<Gap>)
    ensures AddAll(gaps, a + b) == AddAll(AddAll(gaps, a), b)
  {
    if b == [] {
      assert a + b == a;
    } else {
      assert (a + b)[..|a + b| - 1] == a + b[..|b| - 1];
      AddAllAppend(gaps, a, b[..|b| - 1]);
    }
  }

  lemma AddAllOne(gaps: seq<Gap>, g: Gap)
    ensures AddAll(gaps, [g]) == AddGap(gaps, g.after + 1, g.through, g.reason)
  {
    assert [g][..0] == [];
  }

  lemma AddAllNone(gaps: seq<Gap>)
    ensures AddAll(gaps, []) == gaps
  {
  }

  /** There is room for all, and no loss comes before an older one that has the same reason. */
  ghost predicate Plain(gaps: seq<Gap>, more: seq<Gap>) {
    && |gaps| + |more| <= MAX_GAPS && Proper(gaps)
    && (forall g, h :: g in gaps && h in more && g.reason == h.reason ==> g.after <= h.through)
    && (forall i, j :: 0 <= i < j < |more| && more[i].reason == more[j].reason ==> more[i].after <= more[j].through)
  }

  /** Without joins of the two oldest every gap still starts where a loss of its reason did. */
  lemma {:induction false} AddAllOrigins(gaps: seq<Gap>, more: seq<Gap>)
    requires |gaps| + |more| <= MAX_GAPS && Proper(gaps)
    ensures |AddAll(gaps, more)| <= |gaps| + |more| && Proper(AddAll(gaps, more))
    ensures forall x :: x in AddAll(gaps, more) ==> exists g :: (g in gaps || g in more) && g.reason == x.reason && g.after == x.after
  {
    if more != [] {
      var end := |more| - 1;
      var before, g := AddAll(gaps, more[..end]), more[end];
      AddAllOrigins(gaps, more[..end]);
      AddGapOrigins(before, g);
      forall x | x in AddAll(gaps, more) ensures exists o :: (o in gaps || o in more) && o.reason == x.reason && o.after == x.after {
        var y :| (y in before || y == g) && y.reason == x.reason && y.after == x.after;
        if y in before {
          var o :| (o in gaps || o in more[..end]) && o.reason == y.reason && o.after == y.after;
        }
      }
    }
  }

  lemma AddGapOrigins(gaps: seq<Gap>, g: Gap)
    requires |gaps| < MAX_GAPS && Proper(gaps)
    ensures var r := AddGap(gaps, g.after + 1, g.through, g.reason);
      && |r| <= |gaps| + 1 && Proper(r)
      && forall x :: x in r ==> exists o :: (o in gaps || o == g) && o.reason == x.reason && o.after == x.after
  {
    var r := AddGap(gaps, g.after + 1, g.through, g.reason);
    forall x | x in r ensures exists o :: (o in gaps || o == g) && o.reason == x.reason && o.after == x.after {
      if x !in gaps && x.after != g.after {
        var last := gaps[|gaps| - 1];
        assert last in gaps && last.after == x.after && last.reason == x.reason;
      }
    }
  }

  /** What is reported after some losses is what was reported before and the losses, and nothing
      else, if they are recorded in their order and there is room for them. */
  lemma {:induction false} AddAllExact(gaps: seq<Gap>, more: seq<Gap>, n: nat)
    requires Plain(gaps, more)
    ensures Covered(AddAll(gaps, more), n) <==> Covered(gaps, n) || Covered(more, n)
  {
    if Covered(gaps, n) || Covered(more, n) {
      AddAllCovers(gaps, more, n);
    } else if more != [] {
      var end := |more| - 1;
      PlainInit(gaps, more);
      AddAllExact(gaps, more[..end], n);
      NotCoveredLast(more, n);
      AddsNothing(gaps, more, n);
    } else {
      AddAllNone(gaps);
    }
  }

  lemma PlainInit(gaps: seq<Gap>, more: seq<Gap>)
    requires Plain(gaps, more) && more != []
    ensures Plain(gaps, more[..|more| - 1])
  {
  }

  /** The last of some losses reports no number that is in none of them. */
  lemma AddsNothing(gaps: seq<Gap>, more: seq<Gap>, n: nat)
    requires Plain(gaps, more) && more != []
    requires !InGap(more[|more| - 1], n) && !Covered(AddAll(gaps, more[..|more| - 1]), n)
    ensures !Covered(AddAll(gaps, more), n)
  {
    var end := |more| - 1;
    var before, g := AddAll(gaps, more[..end]), more[end];
    AddAllLast(gaps, more);
    if g.after < g.through {
      AddAllOrigins(gaps, more[..end]);
      OldersFirst(gaps, more);
      hide Covered, AddGap, AddAll, Bridged, Between, Plain;
      assert !InGap(g, n) ==> !(g.after + 1 <= n <= g.through);
      AddGapMeaning(before, g.after + 1, g.through, g.reason, n);
      NotBridged(gaps, more[..end], before, g, n);
    } else {
      NoLoss(before, g);
    }
  }

  lemma AddAllLast(gaps: seq<Gap>, more: seq<Gap>)
    requires more != []
    ensures var g := more[|more| - 1];
      AddAll(gaps, more) == AddGap(AddAll(gaps, more[..|more| - 1]), g.after + 1, g.through, g.reason)
  {
  }

  lemma OldersFirst(gaps: seq<Gap>, more: seq<Gap>)
    requires Plain(gaps, more) && more != []
    ensures var g := more[|more| - 1];
      forall o :: (o in gaps || o in more[..|more| - 1]) && o.reason == g.reason ==> o.after <= g.through
  {
    var g := more[|more| - 1];
    assert g in more;
    forall o | o in more[..|more| - 1] && o.reason == g.reason ensures o.after <= g.through {
      var i :| 0 <= i < |more| - 1 && more[..|more| - 1][i] == o;
      assert more[i] == o;
    }
  }

  lemma NoLoss(gaps: seq<Gap>, g: Gap)
    requires g.after >= g.through
    ensures AddGap(gaps, g.after + 1, g.through, g.reason) == gaps
  {
  }

  lemma NotBridged(gaps: seq<Gap>, more: seq<Gap>, before: seq<Gap>, g: Gap, n: nat)
    requires |before| < MAX_GAPS && Proper(before) && g.after < g.through && !InGap(g, n)
    requires forall x :: x in before ==> exists o :: (o in gaps || o in more) && o.reason == x.reason && o.after == x.after
    requires forall o :: (o in gaps || o in more) && o.reason == g.reason ==> o.after <= g.through
    requires !Covered(before, n)
    ensures !Bridged(before, g.after + 1, g.through, g.reason, n)
  {
    if before != [] {
      var last := before[|before| - 1];
      assert last in before && !InGap(last, n);
    }
  }

  lemma NotCoveredLast(gaps: seq<Gap>, n: nat)
    requires gaps != [] && !Covered(gaps, n)
    ensures !Covered(gaps[..|gaps| - 1], n) && !InGap(gaps[|gaps| - 1], n)
  {
    if Covered(gaps[..|gaps| - 1], n) { CoveredFirst(gaps, n); }
  }

  lemma CoveredFirst(gaps: seq<Gap>, n: nat)
    requires gaps != [] && Covered(gaps[..|gaps| - 1], n)
    ensures Covered(gaps, n)
  {
    var i :| 0 <= i < |gaps| - 1 && InGap(gaps[..|gaps| - 1][i], n);
    assert InGap(gaps[i], n);
  }

  /** The end of the furthest gap. */
  function Furthest(gaps: seq<Gap>): (r: nat)
    ensures Within(gaps, r)
    ensures gaps != [] ==> exists i :: 0 <= i < |gaps| && gaps[i].through == r
  {
    if gaps == [] then 0
    else
      var r := Furthest(gaps[..|gaps| - 1]);
      assert forall i :: 0 <= i < |gaps| - 1 ==> gaps[..|gaps| - 1][i] == gaps[i];
      Max(r, gaps[|gaps| - 1].through)
  }
}
