/** What is retained: trimming the middle of a session's output, expiry and the size limits,
    and why a restart retains exactly the same events. */
module Retention {
  import opened Collections
  import opened Paths
  import opened Gaps
  import opened HistoryReader

  /** An output event beyond the head of its session. */
  predicate IsTail(e: Event, head: nat) {
    e.kind == Output && e.session.Some? && e.offset >= head
  }

  predicate IsTailOf(e: Event, head: nat, id: nat) {
    IsTail(e, head) && e.session.value == id
  }

  /** How the recovery loop judges an event of the journal. */
  predicate RetiredOnReload(r: Reader, e: Event, head: nat) {
    e.seqNo <= r.earliest || BelowWindow(r.windows, e, head)
  }

  predicate BelowWindow(windows: map<nat, nat>, e: Event, head: nat) {
    IsTail(e, head) && e.session.value in windows && e.offset < windows[e.session.value]
  }

  // ---------------------------------------------------------------- the tail index

  datatype Item = Item(seqNo: nat, offset: nat, length: nat)

  datatype Tail = Tail(bytes: nat, items: seq<Item>)

  function ItemOf(e: Event): Item { Item(e.seqNo, e.offset, e.length) }

  function TotalLength(items: seq<Item>): nat {
    if items == [] then 0 else items[0].length + TotalLength(items[1..])
  }

  lemma {:induction false} TotalLengthAppend(items: seq<Item>, x: Item)
    ensures TotalLength(items + [x]) == TotalLength(items) + x.length
  {
    if items == [] {
      assert [x][1..] == [];
    } else {
      assert (items + [x])[1..] == items[1..] + [x];
      TotalLengthAppend(items[1..], x);
    }
  }

  /** The tail items of one session, in order. */
  function TailItems(s: seq<Stored>, head: nat, id: nat): seq<Item> {
    if s == [] then []
    else
      var e := s[|s| - 1].event;
      TailItems(s[..|s| - 1], head, id) + (if IsTailOf(e, head, id) then [ItemOf(e)] else [])
  }

  lemma {:induction false} TailItemsSplit(a: seq<Stored>, b: seq<Stored>, head: nat, id: nat)
    ensures TailItems(a + b, head, id) == TailItems(a, head, id) + TailItems(b, head, id)
  {
    if b == [] {
      assert a + b == a;
    } else {
      var n := |b| - 1;
      assert (a + b)[..|a| + n] == a + b[..n];
      TailItemsSplit(a, b[..n], head, id);
    }
  }

  lemma TailItemsOne(e: Stored, head: nat, id: nat)
    ensures TailItems([e], head, id) == if IsTailOf(e.event, head, id) then [ItemOf(e.event)] else []
  {
    assert [e][..0] == [];
  }

  lemma {:induction false} NoTailItems(s: seq<Stored>, head: nat, id: nat)
    requires forall x :: x in s ==> !IsTailOf(x.event, head, id)
    ensures TailItems(s, head, id) == []
  {
    if s != [] { NoTailItems(s[..|s| - 1], head, id); }
  }

  /** The first item of a session belongs to its first tail event. */
  lemma {:induction false} FrontItem(s: seq<Stored>, head: nat, id: nat) returns (i: nat)
    requires TailItems(s, head, id) != []
    ensures i < |s| && IsTailOf(s[i].event, head, id) && TailItems(s, head, id)[0] == ItemOf(s[i].event)
    ensures forall j :: 0 <= j < i ==> !IsTailOf(s[j].event, head, id)
  {
    var n := |s| - 1;
    if TailItems(s[..n], head, id) != [] {
      i := FrontItem(s[..n], head, id);
    } else {
      i := n;
      NoneBefore(s[..n], head, id);
    }
  }

  lemma {:induction false} NoneBefore(s: seq<Stored>, head: nat, id: nat)
    requires TailItems(s, head, id) == []
    ensures forall j :: 0 <= j < |s| ==> !IsTailOf(s[j].event, head, id)
  {
    if s != [] { NoneBefore(s[..|s| - 1], head, id); }
  }

  /** Removing an event takes its item out of the index. */
  lemma TailItemsWithout(s: seq<Stored>, i: nat, head: nat, id: nat)
    requires i < |s| && forall j :: 0 <= j < i ==> !IsTailOf(s[j].event, head, id)
    ensures TailItems(s, head, id) ==
            (if IsTailOf(s[i].event, head, id) then [ItemOf(s[i].event)] else []) + TailItems(Without(s, i), head, id)
  {
    hide TailItems;
    Around(s, i);
    var a, b := s[..i], s[i + 1..];
    TailItemsSplit(a + [s[i]], b, head, id);
    TailItemsSplit(a, [s[i]], head, id);
    TailItemsSplit(a, b, head, id);
    TailItemsOne(s[i], head, id);
    NoTailItems(a, head, id);
  }

  lemma TailItemsUntouched(s: seq<Stored>, i: nat, head: nat, id: nat)
    requires i < |s| && !IsTailOf(s[i].event, head, id)
    ensures TailItems(Without(s, i), head, id) == TailItems(s, head, id)
  {
    hide TailItems;
    Around(s, i);
    var a, b := s[..i], s[i + 1..];
    TailItemsSplit(a + [s[i]], b, head, id);
    TailItemsSplit(a, [s[i]], head, id);
    TailItemsSplit(a, b, head, id);
    TailItemsOne(s[i], head, id);
  }

  function Items(tails: map<nat, Tail>, id: nat): seq<Item> {
    if id in tails then tails[id].items else []
  }

  /** The index lists every retained tail event of every session. */
  ghost predicate Indexed(tails: map<nat, Tail>, s: seq<Stored>, head: nat) {
    && (forall id :: Items(tails, id) == TailItems(s, head, id))
    && (forall id :: id in tails ==> tails[id].bytes == TotalLength(tails[id].items))
  }

  // ---------------------------------------------------------------- agreement with the journal file

  /** Two tail events of one session. */
  predicate SameTail(a: Event, b: Event, head: nat) {
    IsTail(a, head) && IsTail(b, head) && a.session == b.session
  }

  /** Each session's output events continue one another. */
  ghost predicate Continuing(disk: seq<Stored>, head: nat) {
    forall s, t :: s in disk && t in disk && SameTail(s.event, t.event, head) && s.event.seqNo < t.event.seqNo ==>
      s.event.offset + s.event.length <= t.event.offset
  }

  /** A restart that reads the journal `disk` retains exactly what memory retains. */
  ghost predicate Agrees(r: Reader, disk: seq<Stored>, head: nat) {
    && (forall s :: s in r.events ==> s in disk)
    && (forall s :: s in disk ==> (s in r.events <==> !RetiredOnReload(r, s.event, head)))
  }

  /** In the journal, no longer retained, and not below the earliest cursor. */
  predicate IsLost(r: Reader, disk: seq<Stored>, s: Stored) {
    s in disk && s !in r.events && s.event.seqNo > r.earliest
  }

  /** What is retained is not judged retired. What is lost was trimmed from the tail of its
      session, before everything that is retained of that tail, and if the session still has its
      window then the window retires it. */
  ghost predicate Coherent(r: Reader, disk: seq<Stored>, head: nat) {
    && (forall s :: s in r.events ==> s in disk && !RetiredOnReload(r, s.event, head))
    && (forall s :: IsLost(r, disk, s) ==> IsTail(s.event, head) && InsideWindow(r.windows, s.event))
    && LostFirst(r, disk, head)
  }

  ghost predicate LostFirst(r: Reader, disk: seq<Stored>, head: nat) {
    forall s, x :: IsLost(r, disk, s) && x in r.events && SameTail(s.event, x.event, head) ==> s.event.seqNo < x.event.seqNo
  }

  predicate InsideWindow(windows: map<nat, nat>, e: Event) {
    e.session.Some? && e.session.value in windows ==> e.offset < windows[e.session.value]
  }

  /** Every session from which something was trimmed still has its window. */
  ghost predicate WindowsKept(r: Reader, disk: seq<Stored>) {
    forall s :: IsLost(r, disk, s) ==> s.event.session.Some? && s.event.session.value in r.windows
  }

  /** A restart retains what memory retains exactly when no window was dropped too early. */
  lemma AgreesExactly(r: Reader, disk: seq<Stored>, head: nat)
    requires Coherent(r, disk, head)
    ensures Agrees(r, disk, head) <==> WindowsKept(r, disk)
  {
    if Agrees(r, disk, head) {
      forall s | IsLost(r, disk, s) ensures s.event.session.Some? && s.event.session.value in r.windows {
        assert RetiredOnReload(r, s.event, head);
      }
    }
  }

  /** What was trimmed has a later event of its session that is retained. */
  ghost predicate Witnessed(r: Reader, disk: seq<Stored>) {
    forall s :: IsLost(r, disk, s) ==> HasLater(r.events, s.event)
  }

  ghost predicate HasLater(events: seq<Stored>, e: Event) {
    exists t :: t in events && t.event.session == e.session && t.event.seqNo > e.seqNo
  }

  /** Judge every event of the journal again. */
  function Reload(disk: seq<Stored>, r: Reader, head: nat): seq<Stored> {
    if disk == [] then []
    else
      var rest, last := Reload(disk[..|disk| - 1], r, head), disk[|disk| - 1];
      if RetiredOnReload(r, last.event, head) then rest else rest + [last]
  }

  lemma {:induction false} ReloadMembers(disk: seq<Stored>, r: Reader, head: nat, s: Stored)
    ensures s in Reload(disk, r, head) <==> s in disk && !RetiredOnReload(r, s.event, head)
  {
    if disk != [] {
      var init, last := disk[..|disk| - 1], disk[|disk| - 1];
      ReloadMembers(init, r, head, s);
      assert disk == init + [last];
    }
  }

  lemma {:induction false} ReloadAscending(disk: seq<Stored>, r: Reader, head: nat)
    requires Ascending(disk)
    ensures Ascending(Reload(disk, r, head))
  {
    if disk != [] {
      var init, last := disk[..|disk| - 1], disk[|disk| - 1];
      var rest := Reload(init, r, head);
      ReloadAscending(init, r, head);
      assert (rest + [last])[..|rest|] == rest;
      if rest != [] {
        var x := rest[|rest| - 1];
        ReloadMembers(init, r, head, x);
        assert x in rest;
        BelowLast(disk, x);
      }
    }
  }

  lemma BelowLast(s: seq<Stored>, x: Stored)
    requires Ascending(s) && s != [] && x in s[..|s| - 1]
    ensures x.event.seqNo < s[|s| - 1].event.seqNo
  {
    AscendingAround(s, |s| - 1);
    assert s[..|s| - 1] <= s;
  }

  /** Two journals with the same events end with the same one. */
  lemma SameLast(a: seq<Stored>, b: seq<Stored>)
    requires Ascending(a) && Ascending(b) && a != [] && b != [] && forall s :: s in a <==> s in b
    ensures a[|a| - 1] == b[|b| - 1]
  {
    LastIsGreatest(a, b[|b| - 1]);
    LastIsGreatest(b, a[|a| - 1]);
    LastUnique(a, b[|b| - 1]);
  }

  lemma SameInit(a: seq<Stored>, b: seq<Stored>)
    requires Ascending(a) && Ascending(b) && a != [] && b != [] && forall s :: s in a <==> s in b
    ensures forall s {:trigger s in a[..|a| - 1]} :: s in a[..|a| - 1] <==> s in b[..|b| - 1]
  {
    hide Ascending;
    SameLast(a, b);
    var a0, b0 := a[..|a| - 1], b[..|b| - 1];
    forall s ensures s in a0 <==> s in b0 {
      InitMembers(a, s);
      InitMembers(b, s);
    }
  }

  lemma {:induction false} SameMembersEqual(a: seq<Stored>, b: seq<Stored>)
    requires Ascending(a) && Ascending(b) && forall s :: s in a <==> s in b
    ensures a == b
  {
    hide Ascending;
    BothEmpty(a, b);
    if a != [] {
      SameLast(a, b);
      SameInit(a, b);
      AscendingInit(a);
      AscendingInit(b);
      SameMembersEqual(a[..|a| - 1], b[..|b| - 1]);
      assert a == a[..|a| - 1] + [a[|a| - 1]];
    }
  }

  lemma AscendingInit(a: seq<Stored>)
    requires Ascending(a) && a != []
    ensures Ascending(a[..|a| - 1])
  {
  }

  lemma LastIsGreatest(a: seq<Stored>, x: Stored)
    requires Ascending(a) && a != []
    ensures x in a ==> x.event.seqNo <= a[|a| - 1].event.seqNo
  {
    AscendingAround(a, |a| - 1);
  }

  lemma LastUnique(a: seq<Stored>, x: Stored)
    requires Ascending(a) && a != []
    ensures x in a && x.event.seqNo == a[|a| - 1].event.seqNo ==> x == a[|a| - 1]
  {
    AscendingAround(a, |a| - 1);
  }

  lemma InitMembers(a: seq<Stored>, s: Stored)
    requires Ascending(a) && a != []
    ensures s in a[..|a| - 1] <==> s in a && s != a[|a| - 1]
  {
    AscendingAround(a, |a| - 1);
    assert a == a[..|a| - 1] + [a[|a| - 1]];
  }

  /** The events read back by a restart are those in memory exactly when the judgements agree. */
  lemma ReloadIsMemory(r: Reader, disk: seq<Stored>, head: nat)
    requires Ascending(disk) && Ascending(r.events)
    ensures Reload(disk, r, head) == r.events <==> Agrees(r, disk, head)
  {
    forall s ensures s in Reload(disk, r, head) <==> s in disk && !RetiredOnReload(r, s.event, head) { ReloadMembers(disk, r, head, s); }
    if Agrees(r, disk, head) {
      ReloadAscending(disk, r, head);
      SameMembersEqual(Reload(disk, r, head), r.events);
    }
  }

  // ---------------------------------------------------------------- trimming one session

  /** Give up the `i`-th event and let the window of its session start at `start`. */
  function TrimmedTo(r: Reader, i: nat, id: nat, start: nat): Reader
    requires i < |r.events| && r.events[i].size <= r.bytes
  {
    Retired(r, i, Trimmed).(windows := r.windows[id := start])
  }

  /** Coherence while a session is being trimmed: what was given up may still be at the very
      start of the window. */
  ghost predicate NearlyCoherent(r: Reader, disk: seq<Stored>, head: nat, id: nat) {
    && (forall s :: s in r.events ==> s in disk && !RetiredOnReload(r, s.event, head))
    && (forall s :: IsLost(r, disk, s) ==>
          IsTail(s.event, head) && (InsideWindow(r.windows, s.event) || AtWindow(r.windows, s.event, head, id)))
    && LostFirst(r, disk, head)
  }

  predicate AtWindow(windows: map<nat, nat>, e: Event, head: nat, id: nat) {
    IsTailOf(e, head, id) && id in windows && e.offset <= windows[id]
  }

  /** The first retained tail event of a session, and where the window may move to. */
  ghost predicate Front(s: seq<Stored>, head: nat, id: nat, i: nat, start: nat) {
    && i < |s| && IsTailOf(s[i].event, head, id) && s[i].event.offset + s[i].event.length <= start
    && (forall j :: 0 <= j < i ==> !IsTailOf(s[j].event, head, id))
    && (forall j :: i < j < |s| && IsTailOf(s[j].event, head, id) ==> start <= s[j].event.offset)
  }

  lemma FrontRest(s: seq<Stored>, head: nat, id: nat, i: nat, start: nat, x: Stored)
    requires Front(s, head, id, i, start) && x in s && x != s[i] && IsTailOf(x.event, head, id)
    ensures start <= x.event.offset
  {
    var j :| 0 <= j < |s| && s[j] == x;
  }

  lemma TrimKeepsCoherence(r: Reader, disk: seq<Stored>, head: nat, id: nat, i: nat, start: nat)
    requires Ascending(r.events) && NearlyCoherent(r, disk, head, id) && Continuing(disk, head)
    requires Front(r.events, head, id, i, start) && r.events[i].size <= r.bytes
    ensures NearlyCoherent(TrimmedTo(r, i, id, start), disk, head, id)
    ensures r.events[i].event.length > 0 ==> Coherent(TrimmedTo(r, i, id, start), disk, head)
  {
    hide Ascending;
    var r2 := TrimmedTo(r, i, id, start);
    var x := r.events[i];
    assert x in r.events;
    forall s ensures s in r2.events <==> s in r.events && s != x { WithoutMembers(r.events, i, s); }
    forall s | s in r2.events ensures !RetiredOnReload(r2, s.event, head) && (IsTailOf(s.event, head, id) ==> x.event.seqNo < s.event.seqNo) {
      if IsTailOf(s.event, head, id) {
        FrontRest(r.events, head, id, i, start, s);
        FrontFirst(r.events, head, id, i, start, s);
      }
    }
    forall s | IsLost(r2, disk, s)
      ensures IsTail(s.event, head)
      ensures InsideWindow(r2.windows, s.event) || AtWindow(r2.windows, s.event, head, id)
      ensures x.event.length > 0 ==> InsideWindow(r2.windows, s.event)
    {
      assert s == x || IsLost(r, disk, s);
      if IsTailOf(s.event, head, id) && s != x { assert s.event.seqNo < x.event.seqNo && s.event.offset + s.event.length <= x.event.offset; }
    }
  }

  lemma FrontFirst(s: seq<Stored>, head: nat, id: nat, i: nat, start: nat, x: Stored)
    requires Ascending(s) && Front(s, head, id, i, start) && x in s && x != s[i] && IsTailOf(x.event, head, id)
    ensures s[i].event.seqNo < x.event.seqNo
  {
    var j :| 0 <= j < |s| && s[j] == x;
    AscendingPair(s, i, j);
  }

  /** The next front item says where the window starts. */
  lemma NextFront(s: seq<Stored>, disk: seq<Stored>, head: nat, id: nat, end: nat) returns (i: nat)
    requires Ascending(s) && Continuing(disk, head) && (forall x :: x in s ==> x in disk)
    requires TailItems(s, head, id) != []
    requires forall x :: x in s && IsTailOf(x.event, head, id) ==> x.event.offset + x.event.length <= end
    ensures i < |s| && TailItems(s, head, id)[0] == ItemOf(s[i].event)
    ensures TailItems(Without(s, i), head, id) == TailItems(s, head, id)[1..]
    ensures var start := if |TailItems(s, head, id)| > 1 then TailItems(s, head, id)[1].offset else end;
            start <= end && Front(s, head, id, i, start)
  {
    hide TailItems, Ascending, Continuing;
    i := FrontItem(s, head, id);
    TailItemsWithout(s, i, head, id);
    var rest := Without(s, i);
    WithoutAscending(s, i);
    assert s[i] in s;
    if TailItems(rest, head, id) != [] {
      var k := FrontItem(rest, head, id);
      LaterFront(s, i, rest, k, disk, head, id);
      WithoutFrom(s, i, k);
      assert rest[k] in s;
    } else {
      NoneBefore(rest, head, id);
      forall j | i < j < |s| ensures !IsTailOf(s[j].event, head, id) { WithoutAt(s, i, j); }
    }
  }

  lemma LaterFront(s: seq<Stored>, i: nat, rest: seq<Stored>, k: nat, disk: seq<Stored>, head: nat, id: nat)
    requires Ascending(s) && i < |s| && rest == Without(s, i) && k < |rest| && IsTailOf(rest[k].event, head, id)
    requires Continuing(disk, head) && (forall x :: x in s ==> x in disk) && IsTailOf(s[i].event, head, id)
    requires forall j :: 0 <= j < i ==> !IsTailOf(s[j].event, head, id)
    requires forall j :: 0 <= j < k ==> !IsTailOf(rest[j].event, head, id)
    ensures s[i].event.offset + s[i].event.length <= rest[k].event.offset
    ensures forall j :: i < j < |s| && IsTailOf(s[j].event, head, id) ==> rest[k].event.offset <= s[j].event.offset
  {
    hide Ascending;
    WithoutFrom(s, i, k);
    assert k >= i && rest[k] == s[k + 1];
    AscendingPair(s, i, k + 1);
    assert s[i] in disk && s[k + 1] in disk;
    forall j | i < j < |s| && IsTailOf(s[j].event, head, id) ensures rest[k].event.offset <= s[j].event.offset {
      WithoutAt(s, i, j);
      assert j - 1 >= k;
      if j > k + 1 {
        AscendingPair(s, k + 1, j);
        assert s[j] in disk;
      }
    }
  }

  // ---------------------------------------------------------------- where each stream has got to

  /** The end of each session's stream so far; no window is beyond it. */
  ghost predicate Ends(ends: map<nat, nat>, disk: seq<Stored>, windows: map<nat, nat>) {
    && (forall s :: s in disk && s.event.kind == Output && s.event.session.Some? ==>
          s.event.session.value in ends && s.event.offset + s.event.length <= ends[s.event.session.value])
    && (forall id :: id in windows ==> id in ends && windows[id] <= ends[id])
  }

  /** The event's output, if it has any, continues its session's stream. */
  predicate Continues(ends: map<nat, nat>, e: Event) {
    e.kind == Output && e.session.Some? && e.session.value in ends ==> ends[e.session.value] <= e.offset
  }

  function EndsAfter(ends: map<nat, nat>, e: Event): map<nat, nat> {
    if e.kind == Output && e.session.Some? then ends[e.session.value := e.offset + e.length] else ends
  }

  /** The first events of a batch can be appended, and then the others. */
  lemma {:induction false} AppendableSplit(a: seq<Stored>, b: seq<Stored>, cursor: nat, ends: map<nat, nat>)
    requires Appendable(a + b, cursor, ends)
    ensures Appendable(a, cursor, ends) && Appendable(b, CursorAfter(cursor, a), EndsAll(ends, a))
    ensures EndsAll(ends, a + b) == EndsAll(EndsAll(ends, a), b) && CursorAfter(cursor, a + b) == CursorAfter(CursorAfter(cursor, a), b)
    decreases |a|
  {
    hide Continues, EndsAfter;
    if a == [] {
      assert a + b == b;
    } else {
      assert (a + b)[1..] == a[1..] + b && (a + b)[0] == a[0];
      AppendableHead(a + b, cursor, ends);
      AppendableSplit(a[1..], b, a[0].event.seqNo, EndsAfter(ends, a[0].event));
    }
  }

  function EndsAll(ends: map<nat, nat>, batch: seq<Stored>): map<nat, nat>
    decreases |batch|
  {
    if batch == [] then ends else EndsAll(EndsAfter(ends, batch[0].event), batch[1..])
  }

  lemma ContinuingMore(disk: seq<Stored>, ends: map<nat, nat>, windows: map<nat, nat>, e: Stored, head: nat)
    requires Continuing(disk, head) && Ends(ends, disk, windows) && Continues(ends, e.event)
    requires forall s :: s in disk ==> s.event.seqNo < e.event.seqNo
    ensures Continuing(disk + [e], head) && Ends(EndsAfter(ends, e.event), disk + [e], windows)
  {
  }

  lemma CoherentMore(r: Reader, disk: seq<Stored>, e: Stored, ends: map<nat, nat>, head: nat)
    requires Coherent(r, disk, head) && Ends(ends, disk, r.windows) && Continues(ends, e.event)
    requires e.event.seqNo > r.nextCursor >= r.earliest && forall s :: s in disk ==> s.event.seqNo < e.event.seqNo
    ensures Coherent(Inserted(r, e), disk + [e], head)
    ensures Witnessed(r, disk) ==> Witnessed(Inserted(r, e), disk + [e])
    ensures WindowsKept(r, disk) ==> WindowsKept(Inserted(r, e), disk + [e])
  {
    var r2 := Inserted(r, e);
    forall s ensures IsLost(r2, disk + [e], s) <==> IsLost(r, disk, s) {}
    if Witnessed(r, disk) {
      forall s | IsLost(r2, disk + [e], s) ensures HasLater(r2.events, s.event) {
        var t :| t in r.events && t.event.session == s.event.session && t.event.seqNo > s.event.seqNo;
        assert t in r2.events;
      }
    }
  }

  /** The newest event of the trimmed session stays, and witnesses what was given up. */
  lemma WitnessedAfterTrim(r0: Reader, r: Reader, disk: seq<Stored>, head: nat, id: nat, e: Stored)
    requires Witnessed(r0, disk) && r.earliest == r0.earliest
    requires e in r.events && e.event.session == Some(id)
    requires forall s :: s in r.events ==> s in r0.events
    requires forall s :: s in r0.events && s !in r.events ==> IsTailOf(s.event, head, id)
    requires forall s :: s in disk && s != e ==> s.event.seqNo < e.event.seqNo
    ensures Witnessed(r, disk)
  {
    forall s | IsLost(r, disk, s) ensures HasLater(r.events, s.event) {
      if s in r0.events {
        assert e in r.events && e.event.session == s.event.session;
      } else {
        assert IsLost(r0, disk, s);
        var t :| t in r0.events && t.event.session == s.event.session && t.event.seqNo > s.event.seqNo;
        if t !in r.events { assert t.event.session == Some(id); assert e in r.events && e.event.session == s.event.session; }
      }
    }
  }

  /** A session that was trimmed has a window, and keeps it while one of its events is retained. */
  lemma TrimmedWindows(r0: Reader, r: Reader, disk: seq<Stored>, head: nat, id: nat)
    requires Coherent(r, disk, head) && WindowsKept(r0, disk) && SameButTrimmed(r0, r, head, id)
    ensures WindowsKept(r, disk)
  {
    forall s | IsLost(r, disk, s) ensures s.event.session.Some? && s.event.session.value in r.windows {
      if s !in r0.events { assert IsLost(r0, disk, s); }
    }
  }

  method IndexOf(s: seq<Stored>, n: nat) returns (i: nat)
    requires Ascending(s) && Has(s, n)
    ensures i < |s| && s[i].event.seqNo == n
  {
    i := 0;
    while s[i].event.seqNo != n
      invariant i < |s| && forall j :: 0 <= j < i ==> s[j].event.seqNo != n
      decreases |s| - i
    {
      i := i + 1;
    }
  }

  lemma LengthSplit(items: seq<Item>)
    ensures items != [] ==> TotalLength(items) == items[0].length + TotalLength(items[1..])
    ensures |items| == 1 ==> TotalLength(items) == items[0].length
  {
    if |items| == 1 { assert items[1..] == []; }
  }

  /** One session being trimmed: its part of the index, and everything else as it was. */
  ghost predicate Trimming(r0: Reader, r: Reader, disk: seq<Stored>, head: nat, id: nat, tail: Tail, limit: nat) {
    && tail.items == TailItems(r.events, head, id) && tail.bytes == TotalLength(tail.items)
    && NearlyCoherent(r, disk, head, id) && (tail.bytes <= limit ==> Coherent(r, disk, head))
    && SameButTrimmed(r0, r, head, id)
  }

  ghost predicate SameButTrimmed(r0: Reader, r: Reader, head: nat, id: nat) {
    && r.nextCursor == r0.nextCursor && r.earliest == r0.earliest && WellKept(r)
    && (forall s :: s in r.events ==> s in r0.events)
    && (forall s :: s in r0.events && s !in r.events ==> IsTailOf(s.event, head, id))
    && (forall other :: other != id ==> TailItems(r.events, head, other) == TailItems(r0.events, head, other))
    && (id in r0.windows ==> id in r.windows) && (r.events != r0.events ==> id in r.windows)
    && (forall other :: other != id ==> (other in r.windows <==> other in r0.windows) && (other in r.windows ==> r.windows[other] == r0.windows[other]))
    && (forall n :: n > 0 && Accounted(r0, n) ==> Accounted(r, n))
    && r.open == r0.open && OnlyReports(r0, r0.events, r)
  }

  lemma WindowMoved(r: Reader, r2: Reader)
    requires r2 == r.(windows := r2.windows)
    ensures WellKept(r2) == WellKept(r) && forall n :: Accounted(r2, n) <==> Accounted(r, n)
  {
  }

  lemma SameButTrimmedStep(r0: Reader, r: Reader, head: nat, id: nat, i: nat, start: nat)
    requires SameButTrimmed(r0, r, head, id) && i < |r.events| && IsTailOf(r.events[i].event, head, id)
    ensures r.events[i].size <= r.bytes && SameButTrimmed(r0, TrimmedTo(r, i, id, start), head, id)
  {
    RetiredWellKept(r, i, Trimmed);
    WellKeptAscending(r);
    hide Ascending, TotalSize, TailItems, Accounted, AddGap, WellKept, Without, OnlyReports;
    var r2 := TrimmedTo(r, i, id, start);
    WindowMoved(Retired(r, i, Trimmed), r2);
    forall s ensures s in r2.events <==> s in r.events && s != r.events[i] { WithoutMembers(r.events, i, s); }
    forall other | other != id ensures TailItems(r2.events, head, other) == TailItems(r0.events, head, other) {
      TailItemsUntouched(r.events, i, head, other);
    }
    forall n | n > 0 && Accounted(r0, n) ensures Accounted(r2, n) {
      RetiredAccounts(r, i, Trimmed, n);
    }
    NumberedAlike(r, r0.events, i);
    ReportsRetired(r0, r0.events, r, i, Trimmed, r2);
  }

  lemma NumberedAlike(r: Reader, s: seq<Stored>, i: nat)
    requires i < |r.events| && forall x :: x in r.events ==> x in s
    ensures Has(s, r.events[i].event.seqNo)
  {
    var x := r.events[i];
    assert x in r.events;
    var k :| 0 <= k < |s| && s[k] == x;
  }

  lemma BytesListed(r0: Reader, r: Reader, disk: seq<Stored>, head: nat, id: nat, tail: Tail, limit: nat)
    requires Trimming(r0, r, disk, head, id, tail, limit)
    ensures tail.bytes == TotalLength(tail.items) && (tail.bytes > 0 ==> tail.items != [])
  {
  }

  /** Only the `d` oldest tail events of one session were given up, and with one of them left the
      session would still take more than its share. */
  ghost predicate OnlyTrimmed(r0: Reader, r: Reader, head: nat, id: nat, limit: nat, d: nat) {
    var all := TailItems(r0.events, head, id);
    && (forall s :: s in r.events ==> s in r0.events)
    && (forall s :: s in r0.events && s !in r.events ==> IsTailOf(s.event, head, id))
    && d <= |all| && TailItems(r.events, head, id) == all[d..] && TotalLength(all[d..]) <= limit
    && (d > 0 ==> TotalLength(all[d - 1..]) > limit)
  }

  lemma OnlyTail(r0: Reader, r: Reader, head: nat, id: nat, limit: nat, d: nat)
    requires OnlyTrimmed(r0, r, head, id, limit, d)
    ensures forall s :: s in r0.events && s !in r.events ==>
      s.event.kind == Output && s.event.session == Some(id) && s.event.offset >= head
  {
    hide TailItems, TotalLength;
  }

  lemma TrimmedOnly(r0: Reader, r: Reader, disk: seq<Stored>, head: nat, id: nat, tail: Tail, rest: Tail, limit: nat, d: nat)
    requires Trimming(r0, r, disk, head, id, rest, limit) && tail.items == TailItems(r0.events, head, id)
    requires d <= |tail.items| && rest.items == tail.items[d..] && rest.bytes <= limit
    requires d > 0 ==> TotalLength(tail.items[d - 1..]) > limit
    ensures OnlyTrimmed(r0, r, head, id, limit, d)
  {
    hide TailItems, TotalLength, NearlyCoherent, Coherent, Accounted;
  }

  /** The oldest of these events has expired, or all of them together exceed a limit. */
  ghost predicate MustGo(s: seq<Stored>, cutoff: int, maxBytes: nat) {
    s != [] && (s[0].event.timestamp < cutoff || TotalSize(s) > maxBytes || |s| > MAX_EVENTS)
  }

  /** How rewriting the journal file went. */
  datatype Rewrite = NotRenamed | Renamed | Synced

  /** The output, if it is beyond the head, does not exceed the share of its session by itself. */
  predicate FitsShare(e: Event, head: nat, share: nat) {
    IsTail(e, head) ==> e.length <= share
  }

  class Writer {
    var reader: Reader
    var tails: map<nat, Tail>
    var physical: nat
    /** The whole records of the journal file since it was last compacted. */
    ghost var disk: seq<Stored>
    ghost var ends: map<nat, nat>
    const head: nat
    const tailBytes: nat
    const maxBytes: nat

    ghost predicate Kept() reads this {
      && WellKept(reader) && Ascending(disk) && Continuing(disk, head) && Ends(ends, disk, reader.windows)
      && (forall s :: s in disk ==> 1 <= s.event.seqNo <= reader.nextCursor) && reader.earliest <= reader.nextCursor
      && physical == TotalSize(disk)
    }

    ghost predicate Valid() reads this {
      && Kept() && Coherent(reader, disk, head)
      && Indexed(tails, reader.events, head) && forall id :: id in tails ==> tails[id].bytes <= tailBytes
    }

    /** A restart would retain what memory retains, and pruning cannot change that. */
    ghost predicate Sure() reads this {
      WindowsKept(reader, disk) && Witnessed(reader, disk)
    }

    /** Give up the oldest tail event of the session. */
    method PopFront(id: nat, end: nat, tail: Tail, ghost r0: Reader) returns (rest: Tail)
      requires Kept() && Trimming(r0, reader, disk, head, id, tail, tailBytes) && tail.items != []
      requires forall x :: x in reader.events ==> x in disk
      requires id in ends && end <= ends[id]
      requires forall x :: x in reader.events && IsTailOf(x.event, head, id) ==> x.event.offset + x.event.length <= end
      requires tail.bytes > tailBytes
      modifies this`reader
      ensures Kept() && Trimming(r0, reader, disk, head, id, rest, tailBytes) && rest.items == tail.items[1..]
      ensures forall x :: x in reader.events ==> x in disk
      ensures forall x :: x in reader.events <==> x in old(reader).events && ItemOf(x.event) != tail.items[0]
    {
      hide Ascending, Continuing, Coherent, NearlyCoherent, SameButTrimmed, Witnessed, Trimming, Ends, TailItems, TotalLength, TotalSize;
      var front := tail.items[0];
      FrontListed(r0, reader, disk, head, id, tail, tailBytes);
      rest := Tail(tail.bytes - front.length, tail.items[1..]);
      var start := if rest.items == [] then end else rest.items[0].offset;
      var i := IndexOf(reader.events, front.seqNo);
      PopKeeps(r0, reader, disk, ends, head, id, end, tail, rest, tailBytes, i, start);
      reader := TrimmedTo(reader, i, id, start);
    }

    /** Everything but the index is as it should be, the newest event included. */
    ghost predicate Untracked(e: Stored) reads this {
      && Kept() && Coherent(reader, disk, head)
      && reader.events != [] && reader.events[|reader.events| - 1] == e && e in disk
      && (forall s :: s in disk && s != e ==> s.event.seqNo < e.event.seqNo)
      && Indexed(tails, reader.events[..|reader.events| - 1], head) && (forall id :: id in tails ==> tails[id].bytes <= tailBytes)
    }

    /** `track_tail`: index the event just inserted, and give up the oldest tail events of its
        session while they take more than their share; the event itself if it alone does. */
    method TrackTail(e: Stored) returns (ghost d: nat)
      requires Untracked(e)
      modifies this`reader, this`tails
      ensures Valid() && reader.nextCursor == old(reader.nextCursor)
      ensures forall n :: n > 0 && Accounted(old(reader), n) ==> Accounted(reader, n)
      ensures !IsTail(e.event, head) ==> reader == old(reader) && tails == old(tails)
      ensures reader.open == old(reader).open && OnlyReports(old(reader), old(reader).events, reader)
      ensures forall s :: s in old(reader).events && s !in reader.events ==>
        s.event.kind == Output && s.event.session.Some? && s.event.session == e.event.session && s.event.offset >= head
      ensures IsTail(e.event, head) ==> OnlyTrimmed(old(reader), reader, head, e.event.session.value, tailBytes, d)
      ensures old(WindowsKept(reader, disk)) ==> WindowsKept(reader, disk)
      ensures old(Sure()) && FitsShare(e.event, head, tailBytes) ==> Sure() && e in reader.events
    {
      hide Continuing, Coherent, NearlyCoherent, SameButTrimmed, WindowsKept, Witnessed, Trimming, Ends, OnlyTrimmed, TotalSize, OnlyReports;
      d := 0;
      NewestIndexed(reader.events, e, head);
      ReportsNothing(reader, reader.events);
      if !IsTail(e.event, head) { return; }
      var id := e.event.session.value;
      var tail := if id in tails then tails[id] else Tail(0, []);
      TotalLengthAppend(tail.items, ItemOf(e.event));
      ghost var r0 := reader;
      d := TrackOutput(e, id, Tail(tail.bytes + e.event.length, tail.items + [ItemOf(e.event)]));
      OnlyTail(r0, reader, head, id, tailBytes, d);
    }

    /** `tail` is the index of the session with the newest event added. */
    method TrackOutput(e: Stored, id: nat, tail: Tail) returns (ghost d: nat)
      requires Untracked(e) && IsTailOf(e.event, head, id)
      requires tail.items == TailItems(reader.events, head, id) && tail.bytes == TotalLength(tail.items)
      requires tail.items != [] && tail.items[|tail.items| - 1] == ItemOf(e.event)
      modifies this`reader, this`tails
      ensures Valid() && reader.nextCursor == old(reader.nextCursor)
      ensures forall n :: n > 0 && Accounted(old(reader), n) ==> Accounted(reader, n)
      ensures OnlyTrimmed(old(reader), reader, head, id, tailBytes, d)
      ensures reader.open == old(reader).open && OnlyReports(old(reader), old(reader).events, reader)
      ensures old(WindowsKept(reader, disk)) ==> WindowsKept(reader, disk)
      ensures old(Sure()) && e.event.length <= tailBytes ==> Sure() && e in reader.events
    {
      hide Continuing, Coherent, NearlyCoherent, SameButTrimmed, WindowsKept, Witnessed, Trimming, Ends, OnlyTrimmed, TailItems, TotalLength,
           TotalSize, Ascending, Accounted, Indexed, WellKept, OnlyReports;
      ghost var r0, tails0 := reader, tails;
      AllOnDisk(reader, disk, head);
      BeginTrimming(reader, disk, head, id, tail, tailBytes);
      var rest;
      rest, d := TrimSession(id, e, tail, r0);
      TrimmedOnly(r0, reader, disk, head, id, tail, rest, tailBytes, d);
      EndTrimming(r0, reader, disk, head, id, e, tails0, rest, tailBytes);
      SoundAccounts(r0, reader, disk, head, id, rest, tailBytes);
      tails := tails[id := rest];
    }

    /** Give up the oldest tail events of the session until it is within its share. */
    method TrimSession(id: nat, e: Stored, tail: Tail, ghost r0: Reader) returns (rest: Tail, ghost d: nat)
      requires Kept() && Trimming(r0, reader, disk, head, id, tail, tailBytes)
      requires forall x :: x in reader.events ==> x in disk
      requires IsTailOf(e.event, head, id) && e in reader.events
      requires forall s :: s in disk && s != e ==> s.event.seqNo < e.event.seqNo
      requires tail.items != [] && tail.items[|tail.items| - 1] == ItemOf(e.event)
      modifies this`reader
      ensures Kept() && Trimming(r0, reader, disk, head, id, rest, tailBytes) && rest.bytes <= tailBytes
      ensures e.event.length <= tailBytes ==> e in reader.events
      ensures d <= |tail.items| && rest.items == tail.items[d..] && (d > 0 ==> TotalLength(tail.items[d - 1..]) > tailBytes)
    {
      hide Continuing, Coherent, NearlyCoherent, SameButTrimmed, Ends, Ascending;
      var end := e.event.offset + e.event.length;
      NewestEndsLast(reader.events, disk, ends, head, id, e);
      StreamEnd(ends, disk, reader.windows, e);
      rest, d := tail, 0;
      while rest.bytes > tailBytes
        invariant d <= |tail.items| && rest.items == tail.items[d..] && (d > 0 ==> TotalLength(tail.items[d - 1..]) > tailBytes)
        invariant Kept() && Trimming(r0, reader, disk, head, id, rest, tailBytes)
        invariant forall x :: x in reader.events ==> x in disk && (IsTailOf(x.event, head, id) ==> x.event.offset + x.event.length <= end)
        invariant e.event.length <= tailBytes ==> rest.items != [] && rest.items[|rest.items| - 1] == ItemOf(e.event) && e in reader.events
        decreases |rest.items|
      {
        BytesListed(r0, reader, disk, head, id, rest, tailBytes);
        if e.event.length <= tailBytes {
          NewestStays(reader.events, rest, tailBytes, e);
          ItemsDiffer(reader.events, head, id, rest.items, e);
        }
        rest := PopFront(id, end, rest, r0);
        d := d + 1;
      }
    }

    constructor (head: nat, tailBytes: nat, maxBytes: nat)
      ensures Valid() && Sure() && reader == Blank() && disk == [] && ends == map[]
      ensures this.head == head && this.tailBytes == tailBytes && this.maxBytes == maxBytes
    {
      this.head, this.tailBytes, this.maxBytes := head, tailBytes, maxBytes;
      reader := Blank();
      tails, physical, disk, ends := map[], 0, [], map[];
    }

    /** A written event becomes readable. */
    method Insert(e: Stored)
      requires Valid() && e.event.seqNo > reader.nextCursor && 1 <= e.size <= EVENT_LIMIT && Continues(ends, e.event)
      modifies this`reader, this`disk, this`ends, this`physical
      ensures Untracked(e) && reader == Inserted(old(reader), e)
      ensures disk == old(disk) + [e] && ends == EndsAfter(old(ends), e.event)
      ensures old(WindowsKept(reader, disk)) ==> WindowsKept(reader, disk)
      ensures old(Sure()) ==> Sure()
    {
      hide Coherent, WindowsKept, Witnessed, Continuing, Ends, Ascending, WellKept, Indexed, TotalSize, Inserted, Continues, EndsAfter, JustInserted;
      InsertedFacts(reader, disk, ends, e, head);
      ends := EndsAfter(ends, e.event);
      reader := Inserted(reader, e);
      physical := physical + e.size;
      disk := disk + [e];
      MadeUntracked(e);
    }

    lemma MadeUntracked(e: Stored)
      requires JustInserted(reader, disk, ends, e, head) && physical == TotalSize(disk)
      requires Indexed(tails, reader.events[..|reader.events| - 1], head) && forall id :: id in tails ==> tails[id].bytes <= tailBytes
      ensures Untracked(e)
    {
      hide Coherent, WindowsKept, Witnessed, Continuing, Ends, Ascending, WellKept, Indexed, TotalSize;
    }

    /** Give up expired events and the oldest beyond the limits, then forget what no session
        with a retained event needs. */
    method Prune(cutoff: int) returns (ghost k: nat)
      requires Valid()
      modifies this`reader, this`tails
      ensures Valid() && reader.nextCursor == old(reader.nextCursor)
      ensures reader.windows == WindowsOf(old(reader).windows, SessionsOf(reader.events)) && reader.earliest == FirstBefore(reader)
      ensures !MustGo(reader.events, cutoff, maxBytes)
      ensures k <= |old(reader).events| && reader.events == old(reader).events[k..] && (k == 0 ==> reader == Pruned(old(reader)))
      ensures reader.open == old(reader).open && OnlyReports(old(reader), old(reader).events, reader)
      ensures forall j :: 0 <= j < k ==> MustGo(old(reader).events[j..], cutoff, maxBytes)
      ensures forall n :: n > 0 && Accounted(old(reader), n) ==> Accounted(reader, n)
      ensures old(Sure()) ==> Sure()
      ensures old(WindowsKept(reader, disk)) ==> (WindowsKept(reader, disk) <==> SessionsRemembered(reader, disk))
    {
      ghost var r0 := reader;
      hide OnlyReports;
      k := DropOldest(cutoff);
      MayStay(reader, cutoff, maxBytes);
      ghost var r1 := reader;
      ForgetSessions(r0, k);
      ReportsPruned(r0, r1);
    }

    /** The windows and the index of sessions without retained events go. */
    method ForgetSessions(ghost r0: Reader, ghost k: nat)
      requires WellKept(reader) && WellKept(r0) && Coherent(r0, disk, head) && Ascending(disk) && Continuing(disk, head)
      requires Ends(ends, disk, r0.windows) && physical == TotalSize(disk) && r0.earliest <= r0.nextCursor
      requires forall s :: s in disk ==> 1 <= s.event.seqNo <= r0.nextCursor
      requires Indexed(tails, r0.events, head) && forall id :: id in tails ==> tails[id].bytes <= tailBytes
      requires k <= |r0.events| && reader.events == r0.events[k..]
      requires reader.windows == r0.windows && reader.nextCursor == r0.nextCursor && reader.earliest == r0.earliest
      modifies this`reader, this`tails
      ensures Valid() && reader == Pruned(old(reader))
      ensures Witnessed(r0, disk) && WindowsKept(r0, disk) ==> Sure()
      ensures WindowsKept(r0, disk) ==> (WindowsKept(reader, disk) <==> SessionsRemembered(reader, disk))
    {
      hide Coherent, WindowsKept, Witnessed, SessionsRemembered, Continuing, Ends, Ascending, Indexed, Accounted, WellKept, SessionsOf, Pruned,
           WindowsOf, FirstBefore;
      PrunedFields(reader);
      WellKeptAscending(r0);
      PruneKeepsCoherence(r0, reader, k, disk, head);
      PruneExactly(r0, reader, k, disk, head);
      var sessions := SessionsOf(reader.events);
      var first := if reader.events == [] then 0 else reader.events[0].event.seqNo;
      tails := PruneTails(tails, sessions, first, r0.events, k, head, tailBytes);
      EndsPruned(ends, disk, reader.windows, sessions);
      reader := Pruned(reader);
    }

    method DropFirst(reason: Reason)
      requires WellKept(reader) && reader.events != [] && reader.events[0].size <= reader.bytes
      modifies this`reader
      ensures WellKept(reader) && reader.events == old(reader).events[1..]
      ensures reader.windows == old(reader).windows && reader.nextCursor == old(reader).nextCursor && reader.earliest == old(reader).earliest
      ensures reader == Retired(old(reader), 0, reason).(windows := reader.windows)
      ensures forall n :: n > 0 && Accounted(old(reader), n) ==> Accounted(reader, n)
    {
      RetiredWellKept(reader, 0, reason);
      forall n | n > 0 && Accounted(reader, n) ensures Accounted(Retired(reader, 0, reason), n) {
        RetiredAccounts(reader, 0, reason, n);
      }
      assert Without(reader.events, 0) == reader.events[1..];
      reader := Retired(reader, 0, reason);
    }

    method DropOldest(cutoff: int) returns (ghost k: nat)
      requires WellKept(reader)
      modifies this`reader
      ensures WellKept(reader) && k <= |old(reader).events| && reader.events == old(reader).events[k..] && (k == 0 ==> reader == old(reader))
      ensures reader.windows == old(reader).windows && reader.nextCursor == old(reader).nextCursor && reader.earliest == old(reader).earliest
      ensures reader.open == old(reader).open && OnlyReports(old(reader), old(reader).events, reader)
      ensures !OverLimits(reader, maxBytes) || reader.events == []
      ensures reader.events != [] ==> reader.events[0].event.timestamp >= cutoff
      ensures forall j :: 0 <= j < k ==> MustGo(old(reader).events[j..], cutoff, maxBytes)
      ensures forall n :: n > 0 && Accounted(old(reader), n) ==> Accounted(reader, n)
    {
      hide WellKept, Accounted, TotalSize, OverLimits, MustGo, OnlyReports, AddGap, Without, Has;
      k := 0;
      ReportsNothing(reader, reader.events);
      while reader.events != []
        invariant WellKept(reader) && k <= |old(reader).events| && reader.events == old(reader).events[k..] && (k == 0 ==> reader == old(reader))
        invariant reader.windows == old(reader).windows && reader.nextCursor == old(reader).nextCursor && reader.earliest == old(reader).earliest
        invariant reader.open == old(reader).open && OnlyReports(old(reader), old(reader).events, reader)
        invariant forall j :: 0 <= j < k ==> MustGo(old(reader).events[j..], cutoff, maxBytes)
        invariant forall n :: n > 0 && Accounted(old(reader), n) ==> Accounted(reader, n)
        decreases |reader.events|
      {
        var expired := reader.events[0].event.timestamp < cutoff;
        if !expired && !OverLimits(reader, maxBytes) { break; }
        MustGoNow(reader, cutoff, maxBytes);
        ghost var before := reader;
        FirstSize(before);
        NumberedAlike(before, old(reader).events, 0);
        DropFirst(if expired then Expired else SpoolLimit);
        ReportsRetired(old(reader), old(reader).events, before, 0, if expired then Expired else SpoolLimit, reader);
        k := k + 1;
      }
    }

    /** Rewrite the journal file with the retained events only. Before the rename a failure leaves
        the old file; after it the new one counts, whether or not the directory was synced. */
    method Compact(rewrite: Rewrite) returns (ok: bool)
      requires Valid()
      modifies this`disk, this`physical
      ensures Valid() && (ok <==> rewrite == Synced) && (old(Sure()) ==> Sure())
      ensures rewrite == NotRenamed ==> disk == old(disk) && physical == old(physical)
      ensures rewrite != NotRenamed ==> Sure() && disk == reader.events && physical == TotalSize(reader.events)
    {
      if rewrite == NotRenamed { return false; }
      CompactedKeeps(reader, disk, ends, head);
      disk := reader.events;
      physical := reader.bytes;
      ok := rewrite == Synced;
    }

    /** Rewrite the journal file if it has grown too far. */
    method CompactIfLong(rewrite: Rewrite) returns (ok: bool, rewritten: bool)
      requires Valid() && TotalSize(reader.events) <= maxBytes
      modifies this`disk, this`physical
      ensures Valid() && (old(Sure()) ==> Sure()) && (rewritten ==> Sure())
      ensures disk == if rewritten then reader.events else old(disk)
      ensures rewritten <==> rewrite != NotRenamed && TooLong(TotalSize(old(disk)), reader.bytes, maxBytes)
      ensures rewrite == Synced ==> ok
      ensures ok ==> physical <= maxBytes + GC_BYTES / 2 && physical < TotalSize(reader.events) + GC_BYTES
      ensures rewritten ==>
        TotalSize(old(disk)) > maxBytes + GC_BYTES / 2 || TotalSize(old(disk)) >= TotalSize(reader.events) + GC_BYTES
    {
      hide Coherent, WindowsKept, Witnessed, Continuing, Ends, Ascending, Indexed, WellKept, Accounted, TotalSize;
      BytesRetained(reader);
      ok, rewritten := true, TooLong(physical, reader.bytes, maxBytes);
      if rewritten {
        ok := Compact(rewrite);
        rewritten := rewrite != NotRenamed;
      }
    }

    /** The part of `append` after the write: insert and index each event, make the reported losses
        visible, then prune, and compact when the file has grown too far. A restart afterwards
        retains what memory does exactly when every trimmed session still has its window; that
        stays so as long as no output exceeds its session's share by itself. */
    method Append(batch: seq<Stored>, losses: seq<Gap>, cutoff: int, rewrite: Rewrite)
      returns (ok: bool, rewritten: bool, ghost reported: seq<Gap>)
      requires Valid() && Appendable(batch, reader.nextCursor, ends)
      modifies this
      ensures Valid() && reader.nextCursor == CursorAfter(old(reader).nextCursor, batch) && ends == EndsAll(old(ends), batch)
      ensures disk == if rewritten then reader.events else old(disk) + batch
      ensures rewritten <==> rewrite != NotRenamed && TooLong(TotalSize(old(disk) + batch), reader.bytes, maxBytes)
      ensures rewritten ==> Sure()
      ensures Reload(disk, reader, head) == reader.events <==> WindowsKept(reader, disk)
      ensures rewrite == Synced ==> ok
      ensures ok ==> physical <= maxBytes + GC_BYTES / 2 && physical < TotalSize(reader.events) + GC_BYTES
      ensures rewritten ==>
        TotalSize(old(disk) + batch) > maxBytes + GC_BYTES / 2 || TotalSize(old(disk) + batch) >= TotalSize(reader.events) + GC_BYTES
      ensures old(Sure()) && (forall e :: e in batch && IsTail(e.event, head) ==> e.event.length <= tailBytes) ==>
        Sure() && Reload(disk, reader, head) == reader.events
      ensures reader.events == [] ||
        (TotalSize(reader.events) <= maxBytes && |reader.events| <= MAX_EVENTS && reader.events[0].event.timestamp >= cutoff)
      ensures forall id :: id in tails ==> tails[id].bytes <= tailBytes
      ensures forall s :: s in reader.events ==> s in old(reader).events || s in batch
      ensures Quiet(old(reader), batch, head, cutoff, maxBytes) ==> reader == Pruned(WithLosses(InsertedAll(old(reader), batch), losses))
      ensures forall n :: n > 0 && (Accounted(old(reader), n) || Has(batch, n) || Covered(losses, n)) ==> Accounted(reader, n)
      ensures reader.open == FoldOpen(old(reader).open, batch) && (old(TellsLosses(reader)) ==> TellsLosses(reader))
      ensures reader.gaps == AddAll(old(reader).gaps, reported) && forall g :: g in losses ==> g in reported
      ensures forall g :: g in reported ==>
        g in losses || (g.through == g.after + 1 && Has(old(reader).events + batch, g.through) && !Has(reader.events, g.through))
    {
      hide *;
      QuietMeans(reader, batch, head, cutoff, maxBytes);
      SharesFit(batch, head, tailBytes);
      BatchShape(reader, batch);
      InsertAll(batch);
      ghost var r1 := reader;
      LossesOnly(reader, losses);
      TakeLosses(losses);
      ghost var events := reader.events;
      ghost var k := Prune(cutoff);
      if k > 0 { assert MustGo(events[0..], cutoff, maxBytes) && events[0..] == events; }
      WithinLimits(reader.events, cutoff, maxBytes);
      ok, rewritten := CompactIfLong(rewrite);
      ReloadExactly();
      reported := ReportsAround(old(reader), old(reader).events + batch, r1, losses, reader);
    }

    /** What a restart retains, of a valid writer. */
    lemma ReloadExactly()
      requires Valid()
      ensures Reload(disk, reader, head) == reader.events <==> WindowsKept(reader, disk)
      ensures Sure() ==> WindowsKept(reader, disk)
      ensures forall id :: id in tails ==> tails[id].bytes <= tailBytes
    {
      hide Coherent, WindowsKept, Continuing, Ends, Ascending, Indexed, WellKept, Reload, Agrees;
      WellKeptAscending(reader);
      ReloadIsMemory(reader, disk, head);
      AgreesExactly(reader, disk, head);
    }

    /** Losses that producers reported become visible. */
    method TakeLosses(losses: seq<Gap>)
      requires Valid()
      modifies this`reader
      ensures Valid() && reader == WithLosses(old(reader), losses)
      ensures reader.nextCursor == old(reader).nextCursor && reader.events == old(reader).events
      ensures old(WindowsKept(reader, disk)) ==> WindowsKept(reader, disk)
      ensures old(Sure()) ==> Sure()
      ensures forall n :: Accounted(old(reader), n) || Covered(losses, n) ==> Accounted(reader, n)
    {
      hide Covered, Ascending, TotalSize, Continuing, Ends, Indexed;
      var r := WithLosses(reader, losses);
      LossesKeep(reader, losses, Max(Furthest(reader.gaps), Furthest(losses)));
      SameEvents(reader, r, disk, head);
      reader := r;
    }

    /** Insert and index one event. */
    method Take(e: Stored)
      requires Valid() && e.event.seqNo > reader.nextCursor && 1 <= e.size <= EVENT_LIMIT && Continues(ends, e.event)
      modifies this
      ensures Valid() && reader.nextCursor == e.event.seqNo && ends == EndsAfter(old(ends), e.event) && disk == old(disk) + [e]
      ensures !IsTail(e.event, head) ==> reader == Inserted(old(reader), e)
      ensures reader.open == Lifecycle(old(reader).open, e.event) && OnlyReports(Inserted(old(reader), e), old(reader).events + [e], reader)
      ensures old(WindowsKept(reader, disk)) ==> WindowsKept(reader, disk)
      ensures old(Sure()) && FitsShare(e.event, head, tailBytes) ==> Sure()
      ensures forall s :: s in reader.events ==> s in old(reader).events || s == e
      ensures forall n :: n > 0 && (Accounted(old(reader), n) || n == e.event.seqNo) ==> Accounted(reader, n)
    {
      hide Coherent, WindowsKept, Witnessed, Continuing, Ends, Ascending, Indexed, WellKept, Covered, FitsShare, TotalSize, TailItems, Continues, EndsAfter,
           Lifecycle, OnlyReports;
      Insert(e);
      forall n ensures Accounted(reader, n) <==> Accounted(old(reader), n) || n == e.event.seqNo { InsertedAccounts(old(reader), e, n); }
      ghost var _ := TrackTail(e);
    }

    method InsertAll(batch: seq<Stored>)
      requires Valid() && Appendable(batch, reader.nextCursor, ends)
      modifies this
      ensures Valid() && reader.nextCursor == CursorAfter(old(reader).nextCursor, batch)
      ensures disk == old(disk) + batch && ends == EndsAll(old(ends), batch)
      ensures (forall e :: e in batch ==> !IsTail(e.event, head)) ==> reader == InsertedAll(old(reader), batch)
      ensures reader.open == FoldOpen(old(reader).open, batch) && OnlyReports(old(reader), old(reader).events + batch, reader)
      ensures old(WindowsKept(reader, disk)) ==> WindowsKept(reader, disk)
      ensures old(Sure()) && (forall e :: e in batch ==> FitsShare(e.event, head, tailBytes)) ==> Sure()
      ensures forall s :: s in reader.events ==> s in old(reader).events || s in batch
      ensures forall n :: n > 0 && (Accounted(old(reader), n) || Has(batch, n)) ==> Accounted(reader, n)
    {
      hide Coherent, WindowsKept, Witnessed, Continuing, Ends, Ascending, Indexed, WellKept, Covered, FitsShare, TotalSize, TailItems,
           Continues, EndsAfter, Accounted, Inserted, IsTail, Writer.Valid, Writer.Sure, Writer.Kept, Appendable, InsertedAll, EndsAll, CursorAfter,
           FoldOpen, Lifecycle, OnlyReports;
      ghost var rest := batch;
      assert batch[..0] == [];
      InsertedNone(reader);
      FoldNone(reader.open);
      ReportsNothing(reader, reader.events);
      assert reader.events + batch[..0] == reader.events;
      ghost var share := forall e :: e in batch ==> FitsShare(e.event, head, tailBytes);
      ghost var plain := forall e :: e in batch ==> !IsTail(e.event, head);
      for i := 0 to |batch|
        invariant Valid() && rest == batch[i..] && Appendable(rest, reader.nextCursor, ends)
        invariant reader.nextCursor == CursorAfter(old(reader).nextCursor, batch[..i]) && disk == old(disk) + batch[..i]
        invariant EndsAll(ends, rest) == EndsAll(old(ends), batch)
        invariant plain ==> reader == InsertedAll(old(reader), batch[..i])
        invariant reader.open == FoldOpen(old(reader).open, batch[..i])
        invariant OnlyReports(old(reader), old(reader).events + batch[..i], reader)
        invariant old(WindowsKept(reader, disk)) ==> WindowsKept(reader, disk)
        invariant old(Sure()) && share ==> Sure()
        invariant forall n :: n > 0 && Accounted(old(reader), n) ==> Accounted(reader, n)
        invariant forall s :: s in reader.events ==> s in old(reader).events || s in batch[..i]
        invariant forall k :: 0 <= k < i ==> batch[k].event.seqNo > 0 && Accounted(reader, batch[k].event.seqNo)
      {
        assert rest[0] == batch[i] && batch[i] in batch && batch[..i + 1] == batch[..i] + [batch[i]];
        AppendableHead(rest, reader.nextCursor, ends);
        InsertedAllMore(old(reader), batch[..i], batch[i]);
        ghost var before := reader;
        Take(batch[i]);
        FoldOne(old(reader).open, batch[..i], batch[i]);
        ReportsTaken(old(reader), old(reader).events + batch[..i], before, batch[i], reader);
        assert old(reader).events + batch[..i] + [batch[i]] == old(reader).events + batch[..i + 1];
        rest := rest[1..];
      }
      assert batch[..|batch|] == batch;
    }
  }

  const GC_BYTES: nat := 32 * 1024 * 1024

  /** The journal file has grown too far beyond what is retained. */
  predicate TooLong(physical: nat, retained: nat, maxBytes: nat) {
    physical > maxBytes + GC_BYTES / 2 || physical - Min(physical, retained) >= GC_BYTES
  }

  /** The batch makes nothing go: none of it is tail output, nothing has expired or is over a limit. */
  ghost predicate Quiet(r: Reader, batch: seq<Stored>, head: nat, cutoff: int, maxBytes: nat) {
    (forall e :: e in batch ==> !IsTail(e.event, head)) && !MustGo(r.events + batch, cutoff, maxBytes)
  }

  lemma LossesOnly(r: Reader, losses: seq<Gap>)
    ensures WithLosses(r, losses).events == r.events && WithLosses(r, losses).open == r.open
  {
  }

  lemma SharesFit(batch: seq<Stored>, head: nat, tailBytes: nat)
    ensures (forall e :: e in batch && IsTail(e.event, head) ==> e.event.length <= tailBytes) <==>
      (forall e :: e in batch ==> FitsShare(e.event, head, tailBytes))
  {
  }

  lemma QuietMeans(r: Reader, batch: seq<Stored>, head: nat, cutoff: int, maxBytes: nat)
    ensures Quiet(r, batch, head, cutoff, maxBytes) ==>
      (forall e :: e in batch ==> !IsTail(e.event, head)) && !MustGo(r.events + batch, cutoff, maxBytes)
  {
  }

  /** The number of the last event, if there is one. */
  function CursorAfter(cursor: nat, batch: seq<Stored>): nat {
    if batch == [] then cursor else batch[|batch| - 1].event.seqNo
  }

  function InsertedAll(r: Reader, batch: seq<Stored>): Reader {
    if batch == [] then r else Inserted(InsertedAll(r, batch[..|batch| - 1]), batch[|batch| - 1])
  }

  lemma InsertedNone(r: Reader)
    ensures InsertedAll(r, []) == r && CursorAfter(r.nextCursor, []) == r.nextCursor
    ensures forall ends :: EndsAll(ends, []) == ends && Appendable([], r.nextCursor, ends)
  {
  }

  lemma InsertedAllMore(r: Reader, batch: seq<Stored>, e: Stored)
    ensures InsertedAll(r, batch + [e]) == Inserted(InsertedAll(r, batch), e)
    ensures CursorAfter(r.nextCursor, batch + [e]) == e.event.seqNo
  {
    assert (batch + [e])[..|batch|] == batch;
  }

  lemma {:induction false} BatchShape(r: Reader, batch: seq<Stored>)
    ensures InsertedAll(r, batch).events == r.events + batch
    ensures InsertedAll(r, batch).earliest == r.earliest && InsertedAll(r, batch).windows == r.windows && InsertedAll(r, batch).gaps == r.gaps
  {
    if batch != [] {
      var init, e := batch[..|batch| - 1], batch[|batch| - 1];
      BatchShape(r, init);
      assert r.events + init + [e] == r.events + batch;
    }
  }

  lemma SameEvents(r: Reader, r2: Reader, disk: seq<Stored>, head: nat)
    requires r2.events == r.events && r2.earliest == r.earliest && r2.windows == r.windows
    ensures Coherent(r, disk, head) ==> Coherent(r2, disk, head)
    ensures WindowsKept(r, disk) ==> WindowsKept(r2, disk)
    ensures Witnessed(r, disk) ==> Witnessed(r2, disk)
  {
    forall s ensures IsLost(r, disk, s) <==> IsLost(r2, disk, s) {}
  }

  /** A batch that continues the journal: numbered upwards, each output where its stream is. */
  ghost predicate Appendable(batch: seq<Stored>, cursor: nat, ends: map<nat, nat>) {
    batch == [] ||
    (var e := batch[0];
     && e.event.seqNo > cursor && 1 <= e.size <= EVENT_LIMIT && Continues(ends, e.event)
     && Appendable(batch[1..], e.event.seqNo, EndsAfter(ends, e.event)))
  }

  lemma AppendableHead(batch: seq<Stored>, cursor: nat, ends: map<nat, nat>)
    requires Appendable(batch, cursor, ends) && batch != []
    ensures var e := batch[0];
            && e.event.seqNo > cursor && 1 <= e.size <= EVENT_LIMIT && Continues(ends, e.event)
            && Appendable(batch[1..], e.event.seqNo, EndsAfter(ends, e.event))
            && EndsAll(ends, batch) == EndsAll(EndsAfter(ends, e.event), batch[1..])
  {
  }

  lemma NewestOnDisk(r: Reader, disk: seq<Stored>, e: Stored)
    requires forall s :: s in disk ==> s.event.seqNo <= r.nextCursor
    requires e.event.seqNo > r.nextCursor
    ensures forall s :: s in disk ==> s.event.seqNo < e.event.seqNo
    ensures disk != [] ==> disk[|disk| - 1].event.seqNo < e.event.seqNo
  {
    if disk != [] { assert disk[|disk| - 1] in disk; }
  }

  lemma DiskMore(r: Reader, disk: seq<Stored>, e: Stored)
    requires Ascending(disk) && e.event.seqNo > r.nextCursor
    requires forall s :: s in disk ==> 1 <= s.event.seqNo <= r.nextCursor
    ensures Ascending(disk + [e]) && TotalSize(disk + [e]) == TotalSize(disk) + e.size
    ensures forall s :: s in disk + [e] ==> 1 <= s.event.seqNo <= e.event.seqNo && (s != e ==> s.event.seqNo < e.event.seqNo)
    ensures e in disk + [e]
    ensures var events := Inserted(r, e).events; events[|events| - 1] == e && events[..|events| - 1] == r.events
  {
    NewestOnDisk(r, disk, e);
    AppendEffect(disk, e, 0);
  }

  /** What holds when the event `e` has just been inserted. */
  ghost predicate JustInserted(r: Reader, disk: seq<Stored>, ends: map<nat, nat>, e: Stored, head: nat) {
    && WellKept(r) && Ascending(disk) && Continuing(disk, head) && Ends(ends, disk, r.windows)
    && (forall s :: s in disk ==> 1 <= s.event.seqNo <= r.nextCursor && (s != e ==> s.event.seqNo < e.event.seqNo))
    && r.earliest <= r.nextCursor && Coherent(r, disk, head)
    && r.events != [] && r.events[|r.events| - 1] == e && e in disk
  }

  lemma InsertedFacts(r: Reader, disk: seq<Stored>, ends: map<nat, nat>, e: Stored, head: nat)
    requires WellKept(r) && Ascending(disk) && Continuing(disk, head) && Ends(ends, disk, r.windows)
    requires (forall s :: s in disk ==> 1 <= s.event.seqNo <= r.nextCursor) && r.earliest <= r.nextCursor
    requires Coherent(r, disk, head)
    requires e.event.seqNo > r.nextCursor && 1 <= e.size <= EVENT_LIMIT && Continues(ends, e.event)
    ensures JustInserted(Inserted(r, e), disk + [e], EndsAfter(ends, e.event), e, head)
    ensures TotalSize(disk + [e]) == TotalSize(disk) + e.size
    ensures Inserted(r, e).events[..|Inserted(r, e).events| - 1] == r.events
    ensures WindowsKept(r, disk) ==> WindowsKept(Inserted(r, e), disk + [e])
    ensures Witnessed(r, disk) ==> Witnessed(Inserted(r, e), disk + [e])
  {
    hide Coherent, WindowsKept, Witnessed, Continuing, Ends, Ascending, TotalSize;
    NewestOnDisk(r, disk, e);
    CoherentMore(r, disk, e, ends, head);
    ContinuingMore(disk, ends, r.windows, e, head);
    InsertedKeeps(r, e);
    DiskMore(r, disk, e);
  }

  lemma EndsPruned(ends: map<nat, nat>, disk: seq<Stored>, windows: map<nat, nat>, sessions: set<nat>)
    requires Ends(ends, disk, windows)
    ensures Ends(ends, disk, WindowsOf(windows, sessions))
  {
  }

  lemma CompactedKeeps(r: Reader, disk: seq<Stored>, ends: map<nat, nat>, head: nat)
    requires WellKept(r) && Coherent(r, disk, head) && Continuing(disk, head) && Ends(ends, disk, r.windows)
    ensures Coherent(r, r.events, head) && WindowsKept(r, r.events) && Witnessed(r, r.events)
    ensures Continuing(r.events, head) && Ends(ends, r.events, r.windows)
    ensures forall s :: s in r.events ==> 1 <= s.event.seqNo <= r.nextCursor
  {
  }

  lemma AllOnDisk(r: Reader, disk: seq<Stored>, head: nat)
    requires Coherent(r, disk, head)
    ensures forall x :: x in r.events ==> x in disk
  {
  }

  lemma StreamEnd(ends: map<nat, nat>, disk: seq<Stored>, windows: map<nat, nat>, e: Stored)
    requires Ends(ends, disk, windows) && e in disk && e.event.kind == Output && e.event.session.Some?
    ensures e.event.session.value in ends && e.event.offset + e.event.length <= ends[e.event.session.value]
  {
  }

  lemma SoundAccounts(r0: Reader, r: Reader, disk: seq<Stored>, head: nat, id: nat, tail: Tail, limit: nat)
    requires Trimming(r0, r, disk, head, id, tail, limit)
    ensures forall n :: n > 0 && Accounted(r0, n) ==> Accounted(r, n)
    ensures r.nextCursor == r0.nextCursor && r.open == r0.open && OnlyReports(r0, r0.events, r)
  {
  }

  /** A session with two items or more does not start with its newest. */
  lemma ItemsDiffer(s: seq<Stored>, head: nat, id: nat, items: seq<Item>, e: Stored)
    requires Ascending(s) && items == TailItems(s, head, id) && |items| > 1 && items[|items| - 1] == ItemOf(e.event)
    ensures items[0] != ItemOf(e.event)
  {
    ItemsAscending(s, head, id);
  }

  lemma {:induction false} ItemsAscending(s: seq<Stored>, head: nat, id: nat)
    requires Ascending(s)
    ensures var items := TailItems(s, head, id);
            && (|items| > 1 ==> items[0].seqNo < items[|items| - 1].seqNo)
            && (items != [] ==> items[|items| - 1].seqNo <= s[|s| - 1].event.seqNo)
  {
    if s != [] {
      ItemsAscending(s[..|s| - 1], head, id);
    }
  }

  lemma NewestIndexed(s: seq<Stored>, e: Stored, head: nat)
    requires s != [] && s[|s| - 1] == e
    ensures forall id :: TailItems(s, head, id) ==
                         TailItems(s[..|s| - 1], head, id) + (if IsTailOf(e.event, head, id) then [ItemOf(e.event)] else [])
    ensures e in s
  {
  }

  lemma BeginTrimming(r: Reader, disk: seq<Stored>, head: nat, id: nat, tail: Tail, limit: nat)
    requires Coherent(r, disk, head) && WellKept(r)
    requires tail.items == TailItems(r.events, head, id) && tail.bytes == TotalLength(tail.items)
    ensures Trimming(r, r, disk, head, id, tail, limit)
  {
    hide OnlyReports;
    ReportsNothing(r, r.events);
  }

  lemma NewestEndsLast(s: seq<Stored>, disk: seq<Stored>, ends: map<nat, nat>, head: nat, id: nat, e: Stored)
    requires Continuing(disk, head) && IsTailOf(e.event, head, id) && e in disk
    requires (forall x :: x in s ==> x in disk) && (forall x :: x in disk && x != e ==> x.event.seqNo < e.event.seqNo)
    ensures forall x :: x in s && IsTailOf(x.event, head, id) ==> x.event.offset + x.event.length <= e.event.offset + e.event.length
  {
  }

  /** The newest item is not the one to pop: alone it fits. */
  lemma NewestStays(s: seq<Stored>, tail: Tail, limit: nat, e: Stored)
    requires tail.bytes == TotalLength(tail.items) > limit >= e.event.length && tail.items != []
    requires tail.items[|tail.items| - 1] == ItemOf(e.event)
    ensures |tail.items| > 1 && tail.items[1..][|tail.items| - 2] == ItemOf(e.event)
  {
    LengthSplit(tail.items);
  }

  /** When the session is within its share again, everything is coherent again. */
  lemma EndTrimming(r0: Reader, r: Reader, disk: seq<Stored>, head: nat, id: nat, e: Stored, tails: map<nat, Tail>, tail: Tail, limit: nat)
    requires Trimming(r0, r, disk, head, id, tail, limit) && tail.bytes <= limit && IsTailOf(e.event, head, id)
    requires forall s :: s in disk && s != e ==> s.event.seqNo < e.event.seqNo
    requires r0.events != [] && r0.events[|r0.events| - 1] == e
    requires Indexed(tails, r0.events[..|r0.events| - 1], head)
    ensures Coherent(r, disk, head) && Indexed(tails[id := tail], r.events, head)
    ensures WindowsKept(r0, disk) ==> WindowsKept(r, disk)
    ensures Witnessed(r0, disk) && e in r.events ==> Witnessed(r, disk)
  {
    hide NearlyCoherent, Coherent, TailItems, TotalLength, Indexed, WellKept, Accounted, Witnessed, WindowsKept;
    assert r.earliest == r0.earliest && (forall s :: s in r.events ==> s in r0.events)
           && forall s :: s in r0.events && s !in r.events ==> IsTailOf(s.event, head, id);
    if Witnessed(r0, disk) && e in r.events { WitnessedAfterTrim(r0, r, disk, head, id, e); }
    if WindowsKept(r0, disk) { TrimmedWindows(r0, r, disk, head, id); }
    IndexTrimmed(r0, r, head, id, e, tails, tail);
  }

  lemma IndexTrimmed(r0: Reader, r: Reader, head: nat, id: nat, e: Stored, tails: map<nat, Tail>, tail: Tail)
    requires SameButTrimmed(r0, r, head, id) && IsTailOf(e.event, head, id)
    requires tail.items == TailItems(r.events, head, id) && tail.bytes == TotalLength(tail.items)
    requires r0.events != [] && r0.events[|r0.events| - 1] == e
    requires Indexed(tails, r0.events[..|r0.events| - 1], head)
    ensures Indexed(tails[id := tail], r.events, head)
  {
    hide TailItems, TotalLength, WellKept, Accounted;
    NewestIndexed(r0.events, e, head);
    forall other ensures Items(tails[id := tail], other) == TailItems(r.events, head, other) {
      if other != id { assert TailItems(r.events, head, other) == TailItems(r0.events, head, other); }
    }
  }

  lemma FrontListed(r0: Reader, r: Reader, disk: seq<Stored>, head: nat, id: nat, tail: Tail, limit: nat)
    requires Trimming(r0, r, disk, head, id, tail, limit) && tail.items != []
    ensures Has(r.events, tail.items[0].seqNo) && tail.bytes >= tail.items[0].length
  {
    var k := FrontItem(r.events, head, id);
    assert r.events[k].event.seqNo == tail.items[0].seqNo;
  }

  lemma PopKeeps(r0: Reader, r: Reader, disk: seq<Stored>, ends: map<nat, nat>, head: nat, id: nat, end: nat,
                 tail: Tail, rest: Tail, limit: nat, i: nat, start: nat)
    requires Trimming(r0, r, disk, head, id, tail, limit) && tail.items != [] && tail.bytes > limit
    requires Continuing(disk, head) && Ends(ends, disk, r.windows) && id in ends && end <= ends[id]
    requires forall x :: x in r.events ==> x in disk
    requires forall x :: x in r.events && IsTailOf(x.event, head, id) ==> x.event.offset + x.event.length <= end
    requires i < |r.events| && r.events[i].event.seqNo == tail.items[0].seqNo
    requires tail.bytes >= tail.items[0].length && rest == Tail(tail.bytes - tail.items[0].length, tail.items[1..])
    requires start == if rest.items == [] then end else rest.items[0].offset
    ensures r.events[i].size <= r.bytes
    ensures var r2 := TrimmedTo(r, i, id, start);
            && Trimming(r0, r2, disk, head, id, rest, limit) && Ends(ends, disk, r2.windows) && WellKept(r2)
            && forall x :: x in r2.events <==> x in r.events && ItemOf(x.event) != tail.items[0]
  {
    hide Continuing, Coherent, NearlyCoherent, SameButTrimmed, Ends, Front, Ascending;
    Sound(r0, r, head, id);
    PopFrontAt(r, disk, head, id, end, tail, rest, i, start);
    SameButTrimmedStep(r0, r, head, id, i, start);
    TrimKeepsCoherence(r, disk, head, id, i, start);
    FrontMembers(r.events, i);
    Sound(r0, TrimmedTo(r, i, id, start), head, id);
    EndsTrimmed(ends, disk, r.windows, id, start);
  }

  lemma EndsTrimmed(ends: map<nat, nat>, disk: seq<Stored>, windows: map<nat, nat>, id: nat, start: nat)
    requires Ends(ends, disk, windows) && id in ends && start <= ends[id]
    ensures Ends(ends, disk, windows[id := start])
  {
  }

  /** The item to pop is the first retained tail event; what is left of the index is what is
      left of the events, and popping a last item of no length does not end the trimming. */
  lemma PopFrontAt(r: Reader, disk: seq<Stored>, head: nat, id: nat, end: nat, tail: Tail, rest: Tail, i: nat, start: nat)
    requires Ascending(r.events) && Continuing(disk, head) && (forall x :: x in r.events ==> x in disk)
    requires tail.items == TailItems(r.events, head, id) && tail.bytes == TotalLength(tail.items) && tail.items != []
    requires forall x :: x in r.events && IsTailOf(x.event, head, id) ==> x.event.offset + x.event.length <= end
    requires i < |r.events| && r.events[i].event.seqNo == tail.items[0].seqNo
    requires tail.bytes >= tail.items[0].length && rest == Tail(tail.bytes - tail.items[0].length, tail.items[1..])
    requires start == if rest.items == [] then end else rest.items[0].offset
    ensures Front(r.events, head, id, i, start) && IsTailOf(r.events[i].event, head, id)
    ensures start <= end && tail.items[0] == ItemOf(r.events[i].event)
    ensures rest.items == TailItems(Without(r.events, i), head, id) && rest.bytes == TotalLength(rest.items)
    ensures rest.bytes < tail.bytes ==> r.events[i].event.length > 0
  {
    hide Ascending, Continuing;
    var k := NextFront(r.events, disk, head, id, end);
    FrontIsUnique(r.events, i, k);
    LengthSplit(tail.items);
  }

  lemma Sound(r0: Reader, r: Reader, head: nat, id: nat)
    requires SameButTrimmed(r0, r, head, id)
    ensures WellKept(r)
  {
  }

  lemma FrontIsUnique(s: seq<Stored>, i: nat, k: nat)
    requires Ascending(s) && i < |s| && k < |s| && s[i].event.seqNo == s[k].event.seqNo
    ensures i == k
  {
    AscendingAround(s, i);
  }

  lemma FrontMembers(s: seq<Stored>, i: nat)
    requires Ascending(s) && i < |s|
    ensures forall x :: x in Without(s, i) <==> x in s && ItemOf(x.event) != ItemOf(s[i].event)
  {
    AscendingAround(s, i);
    forall x ensures x in Without(s, i) <==> x in s && ItemOf(x.event) != ItemOf(s[i].event) { WithoutMembers(s, i, x); }
  }

  // ---------------------------------------------------------------- pruning

  function SessionsOf(s: seq<Stored>): set<nat> {
    set x | x in s && x.event.session.Some? :: x.event.session.value
  }

  function WindowsOf(windows: map<nat, nat>, sessions: set<nat>): map<nat, nat> {
    map id | id in windows && id in sessions :: windows[id]
  }

  function FirstBefore(r: Reader): nat {
    if r.events == [] then r.nextCursor else Before(r.events[0].event.seqNo)
  }

  /** The reader after the oldest events have gone. */
  function Pruned(r: Reader): Reader {
    r.(windows := WindowsOf(r.windows, SessionsOf(r.events)), earliest := FirstBefore(r))
  }

  lemma ReportsPruned(r0: Reader, r: Reader)
    requires OnlyReports(r0, r0.events, r)
    ensures OnlyReports(r0, r0.events, Pruned(r)) && Pruned(r).open == r.open
  {
    var went :| Reports(r0.gaps, r0.events, r, went);
    assert Reports(r0.gaps, r0.events, Pruned(r), went);
  }

  lemma FirstSize(r: Reader)
    requires WellKept(r) && r.events != []
    ensures r.events[0].size <= r.bytes
  {
    RetiredWellKept(r, 0, Expired);
  }

  lemma PrunedFields(r: Reader)
    ensures var p := Pruned(r);
            && p.events == r.events && p.bytes == r.bytes && p.nextCursor == r.nextCursor && (WellKept(r) ==> WellKept(p))
            && p.windows == WindowsOf(r.windows, SessionsOf(r.events)) && forall n :: Accounted(p, n) <==> Accounted(r, n)
  {
  }

  lemma MayStay(r: Reader, cutoff: int, maxBytes: nat)
    requires WellKept(r) && (r.events != [] ==> r.events[0].event.timestamp >= cutoff && !OverLimits(r, maxBytes))
    ensures !MustGo(r.events, cutoff, maxBytes) && r.bytes == TotalSize(r.events)
  {
  }

  lemma WithinLimits(s: seq<Stored>, cutoff: int, maxBytes: nat)
    requires !MustGo(s, cutoff, maxBytes)
    ensures s == [] || (TotalSize(s) <= maxBytes && |s| <= MAX_EVENTS && s[0].event.timestamp >= cutoff)
    ensures TotalSize(s) <= maxBytes
  {
  }

  lemma BytesRetained(r: Reader)
    requires WellKept(r)
    ensures r.bytes == TotalSize(r.events)
  {
  }

  lemma MustGoNow(r: Reader, cutoff: int, maxBytes: nat)
    requires WellKept(r) && r.events != [] && (r.events[0].event.timestamp < cutoff || OverLimits(r, maxBytes))
    ensures MustGo(r.events, cutoff, maxBytes)
  {
  }

  lemma WellKeptAscending(r: Reader)
    requires WellKept(r)
    ensures Ascending(r.events)
  {
  }

  predicate OverLimits(r: Reader, maxBytes: nat) {
    r.bytes > maxBytes || |r.events| > MAX_EVENTS
  }

  lemma SuffixMembers(s: seq<Stored>, k: nat, x: Stored)
    requires Ascending(s) && k <= |s| && x in s
    ensures k < |s| ==> (x in s[k..] <==> x.event.seqNo >= s[k].event.seqNo)
    ensures k == |s| ==> x !in s[k..]
  {
    var i :| 0 <= i < |s| && s[i] == x;
    if k < |s| {
      AscendingAround(s, k);
      if i >= k { assert s[k..][i - k] == x; }
      if x in s[k..] {
        var j :| 0 <= j < |s[k..]| && s[k..][j] == x;
        assert s[k + j] == x;
      }
    }
  }

  /** Retention takes a prefix. */
  lemma PruneKeepsCoherence(r0: Reader, r: Reader, k: nat, disk: seq<Stored>, head: nat)
    requires WellKept(r0) && Coherent(r0, disk, head) && r0.earliest <= r0.nextCursor
    requires k <= |r0.events| && r.events == r0.events[k..] && r.windows == r0.windows && r.nextCursor == r0.nextCursor
    requires forall s :: s in disk ==> s.event.seqNo <= r0.nextCursor
    ensures Coherent(Pruned(r), disk, head)
    ensures forall s :: IsLost(Pruned(r), disk, s) ==> IsLost(r0, disk, s)
    ensures r0.earliest <= Pruned(r).earliest <= r0.nextCursor
    ensures forall s :: s in r0.events && s.event.seqNo > Pruned(r).earliest ==> s in r.events
  {
    PrefixGone(r0, r, k, disk, head);
    hide Ascending, TotalSize, WellKept, FirstBefore;
    var p := Pruned(r);
    forall s | s in p.events ensures s in r0.events && !RetiredOnReload(p, s.event, head) {
      assert !RetiredOnReload(r0, s.event, head);
    }
    forall s | IsLost(p, disk, s) ensures IsLost(r0, disk, s) {}
  }

  /** What stays is what is above the new earliest cursor. */
  lemma PrefixGone(r0: Reader, r: Reader, k: nat, disk: seq<Stored>, head: nat)
    requires WellKept(r0) && Coherent(r0, disk, head) && r0.earliest <= r0.nextCursor
    requires k <= |r0.events| && r.events == r0.events[k..] && r.nextCursor == r0.nextCursor
    requires forall s :: s in disk ==> s.event.seqNo <= r0.nextCursor
    ensures r0.earliest <= FirstBefore(r) <= r0.nextCursor
    ensures forall s :: s in r.events ==> s in r0.events
    ensures forall s :: s in r0.events ==> (s in r.events <==> s.event.seqNo > FirstBefore(r))
  {
    hide Ascending, TotalSize;
    FirstAbove(r0, disk, head, k);
    forall s | s in r0.events ensures s in r.events <==> s.event.seqNo > FirstBefore(r) {
      SuffixMembers(r0.events, k, s);
      assert s in disk;
    }
  }

  /** Every session from which something was trimmed still has a retained event. */
  ghost predicate SessionsRemembered(r: Reader, disk: seq<Stored>) {
    forall s :: IsLost(r, disk, s) ==> s.event.session.Some? && s.event.session.value in SessionsOf(r.events)
  }

  /** Pruning drops the windows of sessions without retained events: the windows that a restart
      needs are all there afterwards exactly when each trimmed session still has such an event.
      A retained witness of what was trimmed is one, unless it goes itself, and then the earliest
      cursor retires what it stood for. */
  lemma PruneExactly(r0: Reader, r: Reader, k: nat, disk: seq<Stored>, head: nat)
    requires WellKept(r0) && Coherent(r0, disk, head) && r0.earliest <= r0.nextCursor
    requires k <= |r0.events| && r.events == r0.events[k..] && r.windows == r0.windows && r.nextCursor == r0.nextCursor
    requires forall s :: s in disk ==> s.event.seqNo <= r0.nextCursor
    ensures WindowsKept(r0, disk) ==> (WindowsKept(Pruned(r), disk) <==> SessionsRemembered(Pruned(r), disk))
    ensures Witnessed(r0, disk) ==> Witnessed(Pruned(r), disk) && SessionsRemembered(Pruned(r), disk)
  {
    hide Ascending, TotalSize, Coherent;
    PruneKeepsCoherence(r0, r, k, disk, head);
    var p := Pruned(r);
    if Witnessed(r0, disk) {
      forall s | IsLost(p, disk, s)
        ensures HasLater(p.events, s.event) && s.event.session.Some? && s.event.session.value in SessionsOf(p.events)
      {
        LostIsTail(r0, disk, head, s);
        var x :| x in r0.events && x.event.session == s.event.session && x.event.seqNo > s.event.seqNo;
        assert x in p.events;
      }
    }
  }

  lemma LostIsTail(r: Reader, disk: seq<Stored>, head: nat, s: Stored)
    requires Coherent(r, disk, head) && IsLost(r, disk, s)
    ensures IsTail(s.event, head)
  {
  }

  lemma FirstAbove(r: Reader, disk: seq<Stored>, head: nat, k: nat)
    requires WellKept(r) && Coherent(r, disk, head) && k <= |r.events| && r.earliest <= r.nextCursor
    ensures k < |r.events| ==> r.earliest < r.events[k].event.seqNo <= r.nextCursor
  {
    hide Ascending, TotalSize;
    if k < |r.events| { assert r.events[k] in r.events; }
  }

  // ---------------------------------------------------------------- the index after pruning

  lemma {:induction false} ItemsBelow(s: seq<Stored>, head: nat, id: nat, first: nat)
    requires forall j :: 0 <= j < |s| ==> s[j].event.seqNo < first
    ensures forall i :: 0 <= i < |TailItems(s, head, id)| ==> TailItems(s, head, id)[i].seqNo < first
  {
    if s != [] { ItemsBelow(s[..|s| - 1], head, id, first); }
  }

  lemma {:induction false} ItemsFrom(s: seq<Stored>, head: nat, id: nat, first: nat)
    requires forall j :: 0 <= j < |s| ==> s[j].event.seqNo >= first
    ensures forall i :: 0 <= i < |TailItems(s, head, id)| ==> TailItems(s, head, id)[i].seqNo >= first
  {
    if s != [] { ItemsFrom(s[..|s| - 1], head, id, first); }
  }

  lemma {:induction false} LengthOfJoined(a: seq<Item>, b: seq<Item>)
    ensures TotalLength(a + b) == TotalLength(a) + TotalLength(b)
  {
    if a == [] {
      assert a + b == b;
    } else {
      assert (a + b)[1..] == a[1..] + b;
      LengthOfJoined(a[1..], b);
    }
  }

  /** Drop the items older than `first` from the front. */
  method DropBefore(tail: Tail, first: nat, ghost dropped: seq<Item>, ghost kept: seq<Item>) returns (r: Tail)
    requires tail.items == dropped + kept && tail.bytes == TotalLength(tail.items)
    requires forall i :: 0 <= i < |dropped| ==> dropped[i].seqNo < first
    requires forall i :: 0 <= i < |kept| ==> kept[i].seqNo >= first
    ensures r.items == kept && r.bytes == TotalLength(kept) <= tail.bytes
  {
    r := tail;
    ghost var n := 0;
    assert dropped[0..] == dropped;
    LengthOfJoined(dropped, kept);
    while r.items != [] && r.items[0].seqNo < first
      invariant n <= |dropped| && r.items == dropped[n..] + kept && r.bytes == TotalLength(r.items) <= tail.bytes
      decreases |r.items|
    {
      assert n < |dropped|;
      assert r.items[1..] == dropped[n + 1..] + kept;
      r := Tail(r.bytes - r.items[0].length, r.items[1..]);
      n := n + 1;
    }
    assert n == |dropped|;
    assert r.items == kept;
  }

  lemma TailItemsPruned(s: seq<Stored>, k: nat, head: nat, id: nat)
    requires Ascending(s) && k < |s|
    ensures TailItems(s, head, id) == TailItems(s[..k], head, id) + TailItems(s[k..], head, id)
    ensures forall i :: 0 <= i < |TailItems(s[..k], head, id)| ==> TailItems(s[..k], head, id)[i].seqNo < s[k].event.seqNo
    ensures forall i :: 0 <= i < |TailItems(s[k..], head, id)| ==> TailItems(s[k..], head, id)[i].seqNo >= s[k].event.seqNo
  {
    assert s == s[..k] + s[k..];
    TailItemsSplit(s[..k], s[k..], head, id);
    AscendingAround(s, k);
    ItemsBelow(s[..k], head, id, s[k].event.seqNo);
    ItemsFrom(s[k..], head, id, s[k].event.seqNo);
  }

  /** Only sessions with a retained event keep their index, without the items that went. */
  method PruneTails(tails: map<nat, Tail>, sessions: set<nat>, first: nat, ghost s: seq<Stored>, ghost k: nat, head: nat, limit: nat)
    returns (r: map<nat, Tail>)
    requires Ascending(s) && k <= |s| && Indexed(tails, s, head) && sessions == SessionsOf(s[k..])
    requires k < |s| ==> first == s[k].event.seqNo
    requires forall id :: id in tails ==> tails[id].bytes <= limit
    ensures Indexed(r, s[k..], head) && forall id :: id in r ==> r[id].bytes <= limit
  {
    hide TailItems, Ascending, TotalLength, SessionsOf;
    r := map[];
    var todo := tails.Keys * sessions;
    while todo != {}
      invariant todo <= tails.Keys * sessions && r.Keys == tails.Keys * sessions - todo
      invariant forall id :: id in r ==> r[id].items == TailItems(s[k..], head, id) && r[id].bytes == TotalLength(r[id].items) <= limit
      decreases todo
    {
      var id :| id in todo;
      SessionsSome(s[k..], id);
      TailItemsPruned(s, k, head, id);
      var tail := DropBefore(tails[id], first, TailItems(s[..k], head, id), TailItems(s[k..], head, id));
      r := r[id := tail];
      todo := todo - {id};
    }
    forall id ensures Items(r, id) == TailItems(s[k..], head, id) {
      if id !in sessions {
        NotASession(s[k..], head, id);
      } else if id !in tails {
        SessionsSome(s[k..], id);
        TailItemsPruned(s, k, head, id);
      }
    }
  }

  lemma NotASession(s: seq<Stored>, head: nat, id: nat)
    requires id !in SessionsOf(s)
    ensures TailItems(s, head, id) == []
  {
    NoTailItems(s, head, id);
  }

  lemma SessionsSome(s: seq<Stored>, id: nat)
    requires id in SessionsOf(s)
    ensures |s| > 0
  {
  }

  // ---------------------------------------------------------------- a share that is too small

  /** An event of session 7 that expires early. */
  function Ours(n: nat, kind: Kind): Stored { Stored(Event(n, kind, Some(7), None, 0, 0, 10, ""), 100) }

  function Unrelated(): Stored { Stored(Event(4, Other, None, None, 0, 0, 20, ""), 100) }

  /** The request for the session, its start, the start of its process, and something else. */
  function Earlier(): seq<Stored> { [Ours(1, Other), Ours(2, SessionStarted), Ours(3, Other), Unrelated()] }

  function TwoBytes(): Stored { Stored(Event(5, Output, Some(7), None, 0, 2, 30, ""), 100) }

  /** One output event that takes more than the share is given up, and nothing else. */
  lemma OutputGivenUp(before: Reader, after: Reader, earlier: seq<Stored>, output: Stored, id: nat, limit: nat, d: nat)
    requires before.events == earlier + [output] && Ascending(after.events) && Ascending(earlier)
    requires IsTailOf(output.event, 0, id) && output.event.length > limit && forall x :: x in earlier ==> !IsTailOf(x.event, 0, id)
    requires OnlyTrimmed(before, after, 0, id, limit, d)
    ensures after.events == earlier
  {
    OneOutput(earlier, output, id);
    hide TailItems, TotalLength, Ascending;
    assert [ItemOf(output.event)][1..] == [] && [ItemOf(output.event)][0..] == [ItemOf(output.event)];
    assert d == 1 && TailItems(after.events, 0, id) == [];
    NoneBefore(after.events, 0, id);
    forall x ensures x in after.events <==> x in earlier {
      assert x in before.events <==> x in earlier || x == output;
    }
    SameMembersEqual(after.events, earlier);
  }

  lemma EarlierFacts()
    ensures Ascending(Earlier()) && IsTailOf(TwoBytes().event, 0, 7)
    ensures forall x :: x in Earlier() ==> !IsTailOf(x.event, 0, 7)
  {
    InOrderAscending(Earlier());
  }

  lemma OneOutput(earlier: seq<Stored>, output: Stored, id: nat)
    requires IsTailOf(output.event, 0, id) && forall x :: x in earlier ==> !IsTailOf(x.event, 0, id)
    ensures TailItems(earlier + [output], 0, id) == [ItemOf(output.event)]
    ensures TotalLength([ItemOf(output.event)]) == output.event.length
  {
    hide TailItems;
    TailItemsSplit(earlier, [output], 0, id);
    TailItemsOne(output, 0, id);
    NoTailItems(earlier, 0, id);
    LengthSplit([ItemOf(output.event)]);
  }

  lemma OnlyOursGo(after: seq<Stored>, k: nat)
    requires k <= 4 && after == Earlier()[k..]
    requires after != [] ==> after[0].event.timestamp >= 15
    requires forall j :: 0 <= j < k ==> MustGo(Earlier()[j..], 15, 1_000_000)
    ensures after == [Unrelated()]
  {
    assert Earlier()[3..] == [Unrelated()] && [Unrelated()][..0] == [];
    assert !MustGo(Earlier()[3..], 15, 1_000_000);
  }

  /** A session that was asked for and started, something else, and two bytes of output while the
      share of a session is one byte: the output is given up at once. When the earlier events of
      the session expire, pruning drops its window, and a restart takes the output for
      retained. */
  method ShareMustHoldAChunk() returns (w: Writer)
    ensures fresh(w) && w.Valid() && w.tailBytes == 1 && w.head == 0
    ensures w.disk == Earlier() + [TwoBytes()] && w.reader.events == [Unrelated()]
    ensures !WindowsKept(w.reader, w.disk) && Reload(w.disk, w.reader, w.head) != w.reader.events
  {
    hide Coherent, Continuing, Ends, Indexed, Witnessed, Accounted, WellKept, Ascending, TotalSize, Reload, Agrees, OnlyTrimmed, MustGo, LostFirst,
         InsertedAll, TailItems;
    w := AskedFor();
    w.Insert(TwoBytes());
    ghost var before := w.reader;
    ghost var d := w.TrackTail(TwoBytes());
    WellKeptAscending(w.reader);
    EarlierFacts();
    OutputGivenUp(before, w.reader, Earlier(), TwoBytes(), 7, 1, d);
    ghost var k := w.Prune(15);
    WithinLimits(w.reader.events, 15, w.maxBytes);
    OnlyOursGo(w.reader.events, k);
    WellKeptAscending(w.reader);
    assert w.disk[4] == TwoBytes() && IsLost(w.reader, w.disk, TwoBytes());
    AgreesExactly(w.reader, w.disk, 0);
    ReloadIsMemory(w.reader, w.disk, 0);
  }

  method AskedFor() returns (w: Writer)
    ensures fresh(w) && w.Valid() && w.tailBytes == 1 && w.head == 0 && w.maxBytes == 1_000_000
    ensures w.disk == w.reader.events == Earlier() && w.reader.nextCursor == 4 && 7 !in w.ends
  {
    hide Coherent, Continuing, Ends, Indexed, Witnessed, WindowsKept, Accounted, WellKept, Ascending, TotalSize, InsertedAll, FitsShare, Writer.Valid,
         Writer.Sure, Writer.Kept;
    w := new Writer(0, 1, 1_000_000);
    EarlierAppendable();
    BatchShape(w.reader, Earlier());
    w.InsertAll(Earlier());
    assert [] + Earlier() == Earlier();
  }

  lemma EarlierAppendable()
    ensures Appendable(Earlier(), 0, map[]) && EndsAll(map[], Earlier()) == map[]
  {
    assert Earlier()[1..] == [Ours(2, SessionStarted), Ours(3, Other), Unrelated()];
    assert Earlier()[1..][1..] == [Ours(3, Other), Unrelated()];
    assert Earlier()[1..][1..][1..] == [Unrelated()];
    assert Earlier()[1..][1..][1..][1..] == [];
  }
}
