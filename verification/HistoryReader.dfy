/** What collectors read: the retained events and the state that is persisted with them. */
module HistoryReader {
  import opened Collections
  import opened Paths
  import opened Gaps

  const EVENT_LIMIT: nat := 32 * 1024
  const PAGE_BYTES: nat := 2 * 1024 * 1024 - 64 * 1024
  const PAGE_EVENTS: nat := 256
  const MAX_EVENTS: nat := 100_000

  datatype Kind =
    | SessionStarted | SessionFinished | SessionInterrupted | Output
    | WorkflowCreated | WorkflowCompleted | WorkflowInterrupted | Other

  /** An output event says where in its session's stream it starts and how long it is. */
  datatype Event = Event(seqNo: nat, kind: Kind, session: Option<nat>, workflow: Option<nat>,
                         offset: nat, length: nat, timestamp: int, data: seq<char>)

  /** An event with the length of its line in the journal. */
  datatype Stored = Stored(event: Event, size: nat)

  /** The sessions and workflows whose end has not been recorded. */
  datatype Open = Open(sessions: map<nat, Event>, workflows: map<nat, Event>)

  datatype Reader = Reader(
    nextCursor: nat,
    earliest: nat,
    partial: bool,
    gaps: seq<Gap>,
    windows: map<nat, nat>,
    open: Open,
    events: seq<Stored>,
    bytes: nat)

  /** Nothing was ever recorded. */
  function Blank(): Reader {
    Reader(0, 0, false, [], map[], Open(map[], map[]), [], 0)
  }

  predicate Ascending(s: seq<Stored>) {
    |s| < 2 || (Ascending(s[..|s| - 1]) && s[|s| - 2].event.seqNo < s[|s| - 1].event.seqNo)
  }

  lemma {:induction false} AscendingPair(s: seq<Stored>, i: nat, j: nat)
    requires Ascending(s) && i < j < |s|
    ensures s[i].event.seqNo < s[j].event.seqNo
  {
    var n := |s| - 1;
    if j < n { AscendingPair(s[..n], i, j); }
    else if i < n - 1 { AscendingPair(s[..n], i, n - 1); }
  }

  lemma {:induction false} InOrderAscending(s: seq<Stored>)
    requires forall i, k :: 0 <= i < k < |s| ==> s[i].event.seqNo < s[k].event.seqNo
    ensures Ascending(s)
  {
    if |s| >= 2 { InOrderAscending(s[..|s| - 1]); }
  }

  lemma {:induction false} AscendingSuffix(s: seq<Stored>, k: nat)
    requires Ascending(s) && k <= |s|
    ensures Ascending(s[k..])
  {
    if |s| - k >= 2 {
      AscendingSuffix(s[..|s| - 1], k);
      assert s[k..][..|s[k..]| - 1] == s[..|s| - 1][k..];
    }
  }

  /** The numbers before and after the `i`-th. */
  lemma AscendingAround(s: seq<Stored>, i: nat)
    requires Ascending(s) && i < |s|
    ensures forall j :: 0 <= j < i ==> s[j].event.seqNo < s[i].event.seqNo
    ensures forall j :: i < j < |s| ==> s[j].event.seqNo > s[i].event.seqNo
  {
    forall j | 0 <= j < |s| && j != i ensures if j < i then s[j].event.seqNo < s[i].event.seqNo else s[j].event.seqNo > s[i].event.seqNo {
      if j < i { AscendingPair(s, j, i); } else { AscendingPair(s, i, j); }
    }
  }

  ghost predicate Has(s: seq<Stored>, n: nat) {
    exists i :: 0 <= i < |s| && s[i].event.seqNo == n
  }

  lemma HasSplit(a: seq<Stored>, b: seq<Stored>, n: nat)
    ensures Has(a + b, n) <==> Has(a, n) || Has(b, n)
  {
    if Has(a, n) {
      var i :| 0 <= i < |a| && a[i].event.seqNo == n;
      assert (a + b)[i] == a[i];
    }
    if Has(b, n) {
      var i :| 0 <= i < |b| && b[i].event.seqNo == n;
      assert (a + b)[|a| + i] == b[i];
    }
  }

  lemma {:induction false} AscendingJoin(a: seq<Stored>, b: seq<Stored>)
    requires Ascending(a) && Ascending(b)
    requires a != [] && b != [] ==> a[|a| - 1].event.seqNo < b[0].event.seqNo
    ensures Ascending(a + b)
  {
    if b == [] {
      assert a + b == a;
    } else {
      AscendingJoin(a, b[..|b| - 1]);
      assert (a + b)[..|a + b| - 1] == a + b[..|b| - 1];
    }
  }

  function TotalSize(s: seq<Stored>): nat {
    if s == [] then 0 else TotalSize(s[..|s| - 1]) + s[|s| - 1].size
  }

  lemma {:induction false} TotalSizeSplit(a: seq<Stored>, b: seq<Stored>)
    ensures TotalSize(a + b) == TotalSize(a) + TotalSize(b)
  {
    if b == [] {
      assert a + b == a;
    } else {
      assert (a + b)[..|a + b| - 1] == a + b[..|b| - 1];
      TotalSizeSplit(a, b[..|b| - 1]);
    }
  }

  /** All but the `i`-th. */
  function Without(s: seq<Stored>, i: nat): seq<Stored>
    requires i < |s|
  {
    s[..i] + s[i + 1..]
  }

  lemma TotalSizeNext(s: seq<Stored>, i: nat, j: nat)
    requires i <= j < |s|
    ensures s[i..j + 1] == s[i..j] + [s[j]] && TotalSize(s[i..j + 1]) == TotalSize(s[i..j]) + s[j].size
  {
    assert s[i..j + 1][..j - i] == s[i..j];
  }

  lemma TotalSizeAround(s: seq<Stored>, w: seq<Stored>, a: seq<Stored>, x: Stored, b: seq<Stored>)
    requires s == a + [x] + b && w == a + b
    ensures TotalSize(s) == TotalSize(w) + x.size
  {
    TotalSizeSplit(a + [x], b);
    TotalSizeSplit(a, b);
    assert (a + [x])[..|a|] == a;
  }

  lemma Around(s: seq<Stored>, i: nat)
    requires i < |s|
    ensures s == s[..i] + [s[i]] + s[i + 1..]
  {
  }

  lemma WithoutSize(s: seq<Stored>, i: nat)
    requires i < |s|
    ensures TotalSize(Without(s, i)) + s[i].size == TotalSize(s)
  {
    Around(s, i);
    TotalSizeAround(s, Without(s, i), s[..i], s[i], s[i + 1..]);
  }

  /** Where an element of `s` ends up. */
  lemma WithoutAt(s: seq<Stored>, i: nat, k: nat)
    requires i < |s| && k < |s|
    ensures k < i ==> k < |Without(s, i)| && Without(s, i)[k] == s[k]
    ensures k > i ==> Without(s, i)[k - 1] == s[k]
  {
  }

  lemma WithoutInit(s: seq<Stored>, i: nat)
    requires i + 1 < |s|
    ensures Without(s, i)[..|s| - 2] == Without(s[..|s| - 1], i)
    ensures Without(s, i)[|s| - 2] == s[|s| - 1]
    ensures |s| > 2 ==> Without(s, i)[|s| - 3] == s[if i == |s| - 2 then |s| - 3 else |s| - 2]
  {
  }

  lemma {:induction false} WithoutAscending(s: seq<Stored>, i: nat)
    requires i < |s| && Ascending(s)
    ensures Ascending(Without(s, i))
  {
    var n := |s| - 1;
    if i == n {
      assert Without(s, i) == s[..n];
    } else if n >= 2 {
      WithoutAscending(s[..n], i);
      WithoutInit(s, i);
      AscendingPair(s, if i == n - 1 then n - 2 else n - 1, n);
      assert |Without(s, i)| == n;
    }
  }

  lemma WithoutOthers(s: seq<Stored>, i: nat, n: nat)
    requires i < |s| && n != s[i].event.seqNo && Has(s, n)
    ensures Has(Without(s, i), n)
  {
    var k :| 0 <= k < |s| && s[k].event.seqNo == n;
    WithoutAt(s, i, k);
    assert Without(s, i)[if k < i then k else k - 1].event.seqNo == n;
  }

  /** Where an element of what is left comes from. */
  lemma WithoutFrom(s: seq<Stored>, i: nat, k: nat)
    requires i < |s| && k < |s| - 1
    ensures |Without(s, i)| == |s| - 1 && Without(s, i)[k] == s[if k < i then k else k + 1]
  {
  }

  lemma WithoutMembers(s: seq<Stored>, i: nat, e: Stored)
    requires i < |s| && Ascending(s)
    ensures e in Without(s, i) <==> e in s && e != s[i]
  {
    AscendingAround(s, i);
    if e in s && e != s[i] {
      var k :| 0 <= k < |s| && s[k] == e;
      WithoutAt(s, i, k);
      assert Without(s, i)[if k < i then k else k - 1] == e;
    }
  }

  lemma AppendEffect(s: seq<Stored>, e: Stored, n: nat)
    ensures TotalSize(s + [e]) == TotalSize(s) + e.size
    ensures Has(s + [e], n) <==> Has(s, n) || n == e.event.seqNo
    ensures Ascending(s) && (s == [] || s[|s| - 1].event.seqNo < e.event.seqNo) ==> Ascending(s + [e])
  {
    assert (s + [e])[..|s|] == s && (s + [e])[|s|] == e;
    if Has(s, n) {
      var i :| 0 <= i < |s| && s[i].event.seqNo == n;
      assert (s + [e])[i] == s[i];
    }
  }

  /** The number is accounted for: its event is retained or a gap covers it. */
  ghost predicate Accounted(r: Reader, n: nat) {
    Has(r.events, n) || Covered(r.gaps, n)
  }

  /** Every number up to the cursor is accounted for. */
  ghost predicate Settled(r: Reader) {
    forall n :: 1 <= n <= r.nextCursor ==> Accounted(r, n)
  }

  ghost predicate WellKept(r: Reader) {
    && Ascending(r.events) && r.bytes == TotalSize(r.events) && |r.gaps| <= MAX_GAPS
    && (forall i :: 0 <= i < |r.events| ==> 1 <= r.events[i].event.seqNo <= r.nextCursor && 1 <= r.events[i].size <= EVENT_LIMIT)
  }

  /** A reader that says it recorded everything reports no loss. */
  predicate TellsLosses(r: Reader) { r.gaps != [] ==> r.partial }

  // ---------------------------------------------------------------- updates under the reader lock

  /** `apply_lifecycle`. */
  function Lifecycle(o: Open, e: Event): Open {
    match e.kind
    case SessionStarted => if e.session.Some? then o.(sessions := o.sessions[e.session.value := e]) else o
    case SessionFinished | SessionInterrupted => if e.session.Some? then o.(sessions := o.sessions - {e.session.value}) else o
    case WorkflowCreated => if e.workflow.Some? then o.(workflows := o.workflows[e.workflow.value := e]) else o
    case WorkflowCompleted | WorkflowInterrupted =>
      if e.workflow.Some? then o.(workflows := o.workflows - {e.workflow.value}) else o
    case _ => o
  }

  /** What is open after some more events. */
  function FoldOpen(o: Open, events: seq<Stored>): Open {
    if events == [] then o else Lifecycle(FoldOpen(o, events[..|events| - 1]), events[|events| - 1].event)
  }

  /** What may be open: a session or a workflow. */
  datatype Subject = ASession(id: nat) | AWorkflow(id: nat)

  predicate Opens(e: Event, what: Subject) {
    match what
    case ASession(id) => e.kind == SessionStarted && e.session == Some(id)
    case AWorkflow(id) => e.kind == WorkflowCreated && e.workflow == Some(id)
  }

  predicate Closes(e: Event, what: Subject) {
    match what
    case ASession(id) => e.kind in {SessionFinished, SessionInterrupted} && e.session == Some(id)
    case AWorkflow(id) => e.kind in {WorkflowCompleted, WorkflowInterrupted} && e.workflow == Some(id)
  }

  /** The `i`-th event is the last that started it, and nothing has ended it since. */
  ghost predicate OpenSince(events: seq<Stored>, what: Subject, i: nat) {
    && i < |events| && Opens(events[i].event, what)
    && forall j :: i < j < |events| ==> !Opens(events[j].event, what) && !Closes(events[j].event, what)
  }

  /** What is recorded as open. */
  function Recorded(o: Open, what: Subject): Option<Event> {
    match what
    case ASession(id) => if id in o.sessions then Some(o.sessions[id]) else None
    case AWorkflow(id) => if id in o.workflows then Some(o.workflows[id]) else None
  }

  /** What is open after some events, said of the events alone: exactly what was started and not
      ended since, under its last start. */
  lemma {:induction false} OpenMeaning(events: seq<Stored>, what: Subject, e: Event)
    ensures Recorded(FoldOpen(Open(map[], map[]), events), what) == Some(e) <==>
            exists i: nat :: OpenSince(events, what, i) && events[i].event == e
  {
    if events != [] {
      var n := |events| - 1;
      OpenMeaning(events[..n], what, e);
      OneMoreEvent(FoldOpen(Open(map[], map[]), events[..n]), events[n].event, what);
      hide FoldOpen, Lifecycle, Recorded;
      if Opens(events[n].event, what) {
        assert OpenSince(events, what, n);
      } else {
        forall i: nat | i < n && !Closes(events[n].event, what) ensures OpenSince(events, what, i) <==> OpenSince(events[..n], what, i) {
          StillSince(events, what, i);
        }
      }
    }
  }

  lemma OneMoreEvent(o: Open, e: Event, what: Subject)
    ensures Recorded(Lifecycle(o, e), what) ==
            if Opens(e, what) then Some(e) else if Closes(e, what) then None else Recorded(o, what)
  {
  }

  lemma StillSince(events: seq<Stored>, what: Subject, i: nat)
    requires i < |events| - 1 && !Opens(events[|events| - 1].event, what) && !Closes(events[|events| - 1].event, what)
    ensures OpenSince(events, what, i) <==> OpenSince(events[..|events| - 1], what, i)
  {
    var n := |events| - 1;
    assert forall j :: 0 <= j < n ==> events[..n][j] == events[j];
    if OpenSince(events[..n], what, i) {
      forall j | i < j < |events| ensures !Opens(events[j].event, what) && !Closes(events[j].event, what) {
        if j < n { assert events[..n][j] == events[j]; }
      }
    }
  }

  lemma {:induction false} FoldAppend(o: Open, a: seq<Stored>, b: seq<Stored>)
    ensures FoldOpen(o, a + b) == FoldOpen(FoldOpen(o, a), b)
  {
    if b == [] {
      assert a + b == a;
    } else {
      assert (a + b)[..|a + b| - 1] == a + b[..|b| - 1];
      FoldAppend(o, a, b[..|b| - 1]);
    }
  }

  lemma FoldOne(o: Open, events: seq<Stored>, e: Stored)
    ensures FoldOpen(o, events + [e]) == Lifecycle(FoldOpen(o, events), e.event)
  {
    assert (events + [e])[..|events|] == events;
  }

  lemma FoldNone(o: Open)
    ensures FoldOpen(o, []) == o
  {
  }

  /** A durable event becomes readable. */
  function Inserted(r: Reader, e: Stored): Reader {
    r.(nextCursor := Max(r.nextCursor, e.event.seqNo), open := Lifecycle(r.open, e.event),
       bytes := r.bytes + e.size, events := r.events + [e])
  }

  /** Since the gaps were `gaps`, exactly these losses were recorded: each the number of one event of
      `s` that is not readable any more. */
  ghost predicate Reports(gaps: seq<Gap>, s: seq<Stored>, r: Reader, went: seq<Gap>) {
    && r.gaps == AddAll(gaps, went)
    && forall g :: g in went ==> g.through == g.after + 1 && g.through <= r.nextCursor && Has(s, g.through) && !Has(r.events, g.through)
  }

  /** Nothing is reported lost since `r0` but events of `s` that are not readable any more, and a
      reader that reports a loss says that it is not complete. */
  ghost predicate OnlyReports(r0: Reader, s: seq<Stored>, r: Reader) {
    (exists went :: Reports(r0.gaps, s, r, went)) && (TellsLosses(r0) ==> TellsLosses(r))
  }

  lemma ReportsNothing(r: Reader, s: seq<Stored>)
    ensures OnlyReports(r, s, r)
  {
    AddAllNone(r.gaps);
    assert Reports(r.gaps, s, r, []);
  }

  lemma ReportsRetired(r0: Reader, s: seq<Stored>, r: Reader, i: nat, reason: Reason, r2: Reader)
    requires OnlyReports(r0, s, r) && WellKept(r) && i < |r.events| && r.events[i].size <= r.bytes && Has(s, r.events[i].event.seqNo)
    requires r2 == Retired(r, i, reason).(windows := r2.windows)
    ensures OnlyReports(r0, s, r2)
    ensures forall n :: Has(r2.events, n) ==> Has(r.events, n)
  {
    var went :| Reports(r0.gaps, s, r, went);
    var n := r.events[i].event.seqNo;
    var g := Gap(Before(n), n, reason);
    WithoutNumbers(r, i, n);
    RetiredGaps(r0.gaps, went, r, i, reason);
    assert r2.gaps == AddAll(r0.gaps, went + [g]) && r2.events == Without(r.events, i) && r2.nextCursor == r.nextCursor;
    hide *;
    forall m ensures Has(r2.events, m) <==> Has(r.events, m) && m != n { WithoutNumbers(r, i, m); }
    ReportsOneMore(r0.gaps, s, r, went, g, r2);
  }

  lemma RetiredGaps(gaps: seq<Gap>, went: seq<Gap>, r: Reader, i: nat, reason: Reason)
    requires i < |r.events| && r.events[i].size <= r.bytes && r.gaps == AddAll(gaps, went) && r.events[i].event.seqNo > 0
    ensures var n := r.events[i].event.seqNo;
      Retired(r, i, reason).gaps == AddAll(gaps, went + [Gap(Before(n), n, reason)])
  {
    var n := r.events[i].event.seqNo;
    AddAllAppend(gaps, went, [Gap(Before(n), n, reason)]);
    AddAllOne(r.gaps, Gap(Before(n), n, reason));
    hide AddAll, AddGap;
  }

  lemma ReportsOneMore(gaps: seq<Gap>, s: seq<Stored>, r: Reader, went: seq<Gap>, g: Gap, r2: Reader)
    requires Reports(gaps, s, r, went) && r2.gaps == AddAll(gaps, went + [g]) && r2.nextCursor == r.nextCursor
    requires g.through == g.after + 1 && g.through <= r.nextCursor && Has(s, g.through) && !Has(r2.events, g.through)
    requires forall m :: Has(r2.events, m) ==> Has(r.events, m)
    ensures Reports(gaps, s, r2, went + [g])
  {
    hide AddAll, Has;
  }

  lemma WithoutNumbers(r: Reader, i: nat, m: nat)
    requires WellKept(r) && i < |r.events|
    ensures Has(Without(r.events, i), m) <==> Has(r.events, m) && m != r.events[i].event.seqNo
    ensures 1 <= r.events[i].event.seqNo <= r.nextCursor && Has(r.events, r.events[i].event.seqNo)
  {
    var w := Without(r.events, i);
    if Has(w, m) {
      var k :| 0 <= k < |w| && w[k].event.seqNo == m;
      WithoutFrom(r.events, i, k);
      AscendingAround(r.events, i);
    }
    if Has(r.events, m) && m != r.events[i].event.seqNo { WithoutOthers(r.events, i, m); }
  }

  lemma ReportsInserted(r0: Reader, s: seq<Stored>, r: Reader, e: Stored)
    requires OnlyReports(r0, s, r) && e.event.seqNo > r.nextCursor
    ensures OnlyReports(r0, s + [e], Inserted(r, e))
  {
    var went :| Reports(r0.gaps, s, r, went);
    forall n ensures Has(s + [e], n) <==> Has(s, n) || n == e.event.seqNo { AppendEffect(s, e, n); }
    forall n ensures Has(r.events + [e], n) <==> Has(r.events, n) || n == e.event.seqNo { AppendEffect(r.events, e, n); }
    assert Reports(r0.gaps, s + [e], Inserted(r, e), went);
  }

  lemma ReportsBoth(r0: Reader, s: seq<Stored>, r1: Reader, r2: Reader)
    requires OnlyReports(r0, s, r1) && OnlyReports(r1, r1.events, r2) && r1.nextCursor <= r2.nextCursor
    requires forall n :: Has(r1.events, n) ==> Has(s, n)
    requires forall n :: Has(r2.events, n) ==> Has(r1.events, n)
    ensures OnlyReports(r0, s, r2)
  {
    var a :| Reports(r0.gaps, s, r1, a);
    var b :| Reports(r1.gaps, r1.events, r2, b);
    AddAllAppend(r0.gaps, a, b);
    assert Reports(r0.gaps, s, r2, a + b);
  }

  lemma ReportsTaken(r0: Reader, s: seq<Stored>, r: Reader, e: Stored, r2: Reader)
    requires OnlyReports(r0, s, r) && e.event.seqNo > r.nextCursor && r2.nextCursor == e.event.seqNo
    requires OnlyReports(Inserted(r, e), r.events + [e], r2)
    requires (forall x :: x in r.events ==> x in s) && (forall x :: x in r2.events ==> x in r.events || x == e)
    ensures OnlyReports(r0, s + [e], r2)
  {
    ReportsInserted(r0, s, r, e);
    hide OnlyReports;
    AllNumbers(r.events + [e], s + [e]);
    AllNumbers(r2.events, r.events + [e]);
    ReportsBoth(r0, s + [e], Inserted(r, e), r2);
  }

  /** Events went, losses were reported, and events went again. */
  lemma ReportsAround(r0: Reader, s: seq<Stored>, r1: Reader, losses: seq<Gap>, r2: Reader) returns (reported: seq<Gap>)
    requires OnlyReports(r0, s, r1) && OnlyReports(WithLosses(r1, losses), r1.events, r2)
    requires (forall x :: x in r1.events ==> x in s) && (forall x :: x in r2.events ==> x in r1.events)
    ensures r2.gaps == AddAll(r0.gaps, reported) && (forall g :: g in losses ==> g in reported)
    ensures forall g :: g in reported ==> g in losses || (g.through == g.after + 1 && Has(s, g.through) && !Has(r2.events, g.through))
    ensures TellsLosses(r0) ==> TellsLosses(r2)
  {
    var a :| Reports(r0.gaps, s, r1, a);
    var b :| Reports(WithLosses(r1, losses).gaps, r1.events, r2, b);
    LossesTold(r1, losses);
    AddAllAppend(r0.gaps, a, losses);
    AddAllAppend(r0.gaps, a + losses, b);
    AllNumbers(r1.events, s);
    AllNumbers(r2.events, r1.events);
    reported := a + losses + b;
  }

  lemma LossesTold(r: Reader, losses: seq<Gap>)
    ensures TellsLosses(r) ==> TellsLosses(WithLosses(r, losses))
  {
    AddAllNone(r.gaps);
  }

  lemma AllNumbers(a: seq<Stored>, b: seq<Stored>)
    requires forall x :: x in a ==> x in b
    ensures forall n :: Has(a, n) ==> Has(b, n)
  {
    forall n | Has(a, n) ensures Has(b, n) {
      var i :| 0 <= i < |a| && a[i].event.seqNo == n;
      var x := a[i];
      assert x in a;
      var k :| 0 <= k < |b| && b[k] == x;
    }
  }

  /** A retained event is given up, and a gap says so. */
  function Retired(r: Reader, i: nat, reason: Reason): Reader
    requires i < |r.events| && r.events[i].size <= r.bytes
  {
    var n := r.events[i].event.seqNo;
    r.(events := Without(r.events, i), bytes := r.bytes - r.events[i].size, gaps := AddGap(r.gaps, n, n, reason), partial := true)
  }

  /** Losses reported by producers become visible. */
  function WithLosses(r: Reader, losses: seq<Gap>): Reader {
    r.(gaps := AddAll(r.gaps, losses), partial := r.partial || losses != [])
  }

  lemma InsertedKeeps(r: Reader, e: Stored)
    requires WellKept(r) && e.event.seqNo > r.nextCursor && 1 <= e.size <= EVENT_LIMIT
    ensures WellKept(Inserted(r, e)) && Inserted(r, e).nextCursor == e.event.seqNo
    ensures Inserted(r, e).gaps == r.gaps
  {
    AppendEffect(r.events, e, 0);
  }

  lemma InsertedAccounts(r: Reader, e: Stored, n: nat)
    ensures Accounted(Inserted(r, e), n) <==> Accounted(r, n) || n == e.event.seqNo
  {
    AppendEffect(r.events, e, n);
  }

  lemma RetiredWellKept(r: Reader, i: nat, reason: Reason)
    requires WellKept(r) && i < |r.events|
    ensures r.events[i].size <= r.bytes && WellKept(Retired(r, i, reason))
  {
    WithoutSize(r.events, i);
    WithoutAscending(r.events, i);
    var w := Without(r.events, i);
    forall k | 0 <= k < |w| ensures 1 <= w[k].event.seqNo <= r.nextCursor && 1 <= w[k].size <= EVENT_LIMIT {
      WithoutFrom(r.events, i, k);
    }
  }

  /** Giving up an event leaves its number accounted for, and every other one too. */
  lemma RetiredAccounts(r: Reader, i: nat, reason: Reason, n: nat)
    requires i < |r.events| && r.events[i].size <= r.bytes && n > 0
    ensures Accounted(r, n) ==> Accounted(Retired(r, i, reason), n)
    ensures Covered(r.gaps, n) || n == r.events[i].event.seqNo ==> Covered(Retired(r, i, reason).gaps, n)
  {
    var k := r.events[i].event.seqNo;
    if Covered(r.gaps, n) || n == k { AddGapCovers(r.gaps, k, k, reason, n); }
    else if Has(r.events, n) { WithoutOthers(r.events, i, n); }
  }

  lemma RetiredKeeps(r: Reader, i: nat, reason: Reason, high: nat)
    requires WellKept(r) && i < |r.events| && Within(r.gaps, high) && r.nextCursor <= high
    ensures r.events[i].size <= r.bytes
    ensures WellKept(Retired(r, i, reason)) && Within(Retired(r, i, reason).gaps, high)
    ensures forall n :: n > 0 && Accounted(r, n) ==> Accounted(Retired(r, i, reason), n)
    ensures forall n :: n > 0 && Covered(r.gaps, n) ==> Covered(Retired(r, i, reason).gaps, n)
    ensures Covered(Retired(r, i, reason).gaps, r.events[i].event.seqNo)
  {
    RetiredWellKept(r, i, reason);
    var k := r.events[i].event.seqNo;
    AddGapBounds(r.gaps, k, k, reason, high);
    forall n | n > 0
      ensures Accounted(r, n) ==> Accounted(Retired(r, i, reason), n)
      ensures Covered(r.gaps, n) || n == k ==> Covered(Retired(r, i, reason).gaps, n)
    {
      RetiredAccounts(r, i, reason, n);
    }
  }

  lemma LossesKeep(r: Reader, losses: seq<Gap>, high: nat)
    requires WellKept(r) && Within(r.gaps, high) && Within(losses, high)
    ensures WellKept(WithLosses(r, losses)) && Within(WithLosses(r, losses).gaps, high)
    ensures forall n :: Accounted(r, n) || Covered(losses, n) ==> Accounted(WithLosses(r, losses), n)
    ensures forall n :: Covered(r.gaps, n) || Covered(losses, n) ==> Covered(WithLosses(r, losses).gaps, n)
  {
    AddAllBounds(r.gaps, losses, high);
    forall n | Covered(r.gaps, n) || Covered(losses, n) ensures Covered(AddAll(r.gaps, losses), n) {
      AddAllCovers(r.gaps, losses, n);
    }
  }

  // ---------------------------------------------------------------- pages

  /** The events after the number `after` start at position `i`. */
  ghost predicate Position(s: seq<Stored>, after: nat, i: nat) {
    && i <= |s| && (i > 0 ==> s[i - 1].event.seqNo <= after) && (i < |s| ==> s[i].event.seqNo > after)
    && (forall j :: 0 <= j < i ==> s[j].event.seqNo <= after)
    && (forall j :: i <= j < |s| ==> s[j].event.seqNo > after)
  }

  lemma PositionUnique(s: seq<Stored>, after: nat, i: nat, j: nat)
    requires Position(s, after, i) && Position(s, after, j)
    ensures i == j
  {
  }

  method Range(s: seq<Stored>, after: nat) returns (i: nat)
    requires Ascending(s)
    ensures Position(s, after, i)
  {
    i := 0;
    while i < |s| && s[i].event.seqNo <= after
      invariant i <= |s| && forall j :: 0 <= j < i ==> s[j].event.seqNo <= after
    {
      i := i + 1;
    }
    if i < |s| { AscendingAround(s, i); }
  }

  datatype Page = Page(events: seq<Stored>, next: nat, hasMore: bool, gaps: seq<Gap>, partial: bool)

  /** The page of the events from `i` up to `j`. The cursor moves to the last of them, and past
      everything known when there was room and none is left. */
  function PageAt(r: Reader, after: nat, limit: nat, i: nat, j: nat): Page
    requires i <= j <= |r.events|
  {
    var last := if i == j then after else r.events[j - 1].event.seqNo;
    var next := if j - i < limit && j == |r.events| then Max(last, r.nextCursor) else last;
    Page(r.events[i..j], next, next < r.nextCursor, r.gaps, r.partial)
  }

  /** The events of a page. */
  method TakeEvents(s: seq<Stored>, first: nat, limit: nat) returns (i: nat)
    requires first <= |s|
    ensures first <= i <= |s| && Fits(s, first, limit, i)
  {
    i := first;
    var bytes := 0;
    while i < |s| && i - first < limit && bytes + s[i].size <= PAGE_BYTES
      invariant first <= i <= |s| && i - first <= limit && bytes == TotalSize(s[first..i]) <= PAGE_BYTES
    {
      TotalSizeNext(s, first, i);
      bytes := bytes + s[i].size;
      i := i + 1;
    }
    if i < |s| { TotalSizeNext(s, first, i); }
  }

  /** As many events from `first` on as the limits allow end at `i`. */
  ghost predicate Fits(s: seq<Stored>, first: nat, limit: nat, i: nat)
    requires first <= i <= |s|
  {
    && i - first <= limit && TotalSize(s[first..i]) <= PAGE_BYTES
    && (i < |s| && i - first < limit ==> TotalSize(s[first..i + 1]) > PAGE_BYTES)
  }

  /** The page holds the longest run of events after the cursor that the limits allow. */
  ghost predicate IsPage(r: Reader, after: nat, limit: nat, i: nat, j: nat, p: Page) {
    i <= j <= |r.events| && Position(r.events, after, i) && Fits(r.events, i, limit, j) && p == PageAt(r, after, limit, i, j)
  }

  /** The page holds every readable number that the cursor passes. */
  lemma PageMembers(r: Reader, after: nat, i: nat, j: nat, next: nat)
    requires i <= j <= |r.events| && Position(r.events, after, i) && Position(r.events, next, j)
    ensures forall n :: after < n <= next && Has(r.events, n) ==> Has(r.events[i..j], n)
    ensures forall k :: i <= k < j ==> r.events[k].event.seqNo > after
  {
    forall n | after < n <= next && Has(r.events, n) ensures Has(r.events[i..j], n) {
      var k :| 0 <= k < |r.events| && r.events[k].event.seqNo == n;
      assert r.events[i..j][k - i] == r.events[k];
    }
  }

  /** `page`: a limit that is out of range is refused. What the cursor of a page has passed is in
      the page, or the page says that it is lost. */
  method PageOf(r: Reader, after: nat, limit: nat) returns (answer: Option<Page>, ghost i: nat, ghost j: nat)
    requires WellKept(r)
    ensures answer.Some? <==> 1 <= limit <= PAGE_EVENTS
    ensures answer.Some? ==> IsPage(r, after, limit, i, j, answer.value)
    ensures answer.Some? ==> answer.value.gaps == r.gaps && answer.value.hasMore == (answer.value.next < r.nextCursor)
    ensures answer.Some? && Settled(r) && TellsLosses(r) && !answer.value.partial ==>
      forall n :: after < n <= answer.value.next ==> Has(answer.value.events, n)
    ensures answer.Some? && Settled(r) ==>
      forall n :: after < n <= answer.value.next ==> Has(answer.value.events, n) || Covered(answer.value.gaps, n)
  {
    hide Ascending, Settled, Fits, Covered, TellsLosses;
    if limit == 0 || limit > PAGE_EVENTS { return None, 0, 0; }
    var start := Range(r.events, after);
    var end := TakeEvents(r.events, start, limit);
    i, j := start, end;
    var next := if end == start then after else r.events[end - 1].event.seqNo;
    var rest := Range(r.events, next);
    PositionNext(r.events, after, start, end, rest);
    if end - start < limit && rest == |r.events| { next := Max(next, r.nextCursor); }
    answer := Some(Page(r.events[start..end], next, next < r.nextCursor, r.gaps, r.partial));
    PageAdvances(r, after, limit, start, end);
    PageMembers(r, after, start, end, next);
    if Settled(r) { PassedAccounted(r, next); }
    NothingLost(r);
  }

  lemma NothingLost(r: Reader)
    ensures TellsLosses(r) && !r.partial ==> forall n :: !Covered(r.gaps, n)
  {
  }

  lemma PassedAccounted(r: Reader, next: nat)
    requires Settled(r)
    ensures forall n :: 1 <= n <= next <= r.nextCursor ==> Has(r.events, n) || Covered(r.gaps, n)
  {
    forall n | 1 <= n <= next <= r.nextCursor ensures Has(r.events, n) || Covered(r.gaps, n) {
      assert Accounted(r, n);
    }
  }

  /** After the last event of a page come the events that did not fit. */
  lemma PositionNext(s: seq<Stored>, after: nat, first: nat, i: nat, rest: nat)
    requires Ascending(s) && Position(s, after, first) && first <= i <= |s|
    requires Position(s, if i == first then after else s[i - 1].event.seqNo, rest)
    ensures rest == i
  {
    var next := if i == first then after else s[i - 1].event.seqNo;
    if i > first { AscendingAround(s, i - 1); }
    PositionUnique(s, next, rest, i);
  }

  /** Each page makes progress, and the next one starts where it ended. */
  lemma PageAdvances(r: Reader, after: nat, limit: nat, i: nat, j: nat)
    requires WellKept(r) && i <= j <= |r.events| && Position(r.events, after, i) && Fits(r.events, i, limit, j) && 1 <= limit
    ensures var next := PageAt(r, after, limit, i, j).next;
            && Position(r.events, next, j)
            && (after < r.nextCursor ==> after < next <= r.nextCursor)
            && (after >= r.nextCursor ==> next == after)
  {
    FirstFits(r, i, limit, j);
    hide Ascending, Fits, TotalSize;
    if i < j { AscendingAround(r.events, j - 1); }
  }

  /** A page has room for its first event. */
  lemma FirstFits(r: Reader, i: nat, limit: nat, j: nat)
    requires WellKept(r) && i <= j <= |r.events| && Fits(r.events, i, limit, j) && 1 <= limit
    ensures i < |r.events| ==> i < j
  {
    hide Ascending;
    if i < |r.events| {
      TotalSizeNext(r.events, i, i);
      assert r.events[i..i] == [];
    }
  }

  /** One request of a collector whose next event is the `i`-th. */
  method NextPage(r: Reader, cursor: nat, limit: nat, ghost i: nat) returns (p: Page, ghost j: nat)
    requires WellKept(r) && 1 <= limit <= PAGE_EVENTS && Position(r.events, cursor, i)
    ensures i <= j <= |r.events| && p.events == r.events[i..j] && Position(r.events, p.next, j)
    ensures cursor < r.nextCursor ==> cursor < p.next <= r.nextCursor
    ensures cursor >= r.nextCursor ==> p.next == cursor
    ensures p.hasMore == (p.next < r.nextCursor)
  {
    var answer;
    ghost var first;
    answer, first, j := PageOf(r, cursor, limit);
    p := answer.value;
    PositionUnique(r.events, cursor, i, first);
    PageAdvances(r, cursor, limit, first, j);
  }

  lemma Joined(s: seq<Stored>, i: nat, j: nat, k: nat)
    requires i <= j <= k <= |s|
    ensures s[i..j] + s[j..k] == s[i..k]
  {
  }

  /** Paging through a quiet journal returns every retained event after the start once, in
      order, and ends. */
  method CollectAll(r: Reader, start: nat, limit: nat) returns (all: seq<Stored>, cursor: nat, ghost first: nat)
    requires WellKept(r) && 1 <= limit <= PAGE_EVENTS
    ensures Position(r.events, start, first) && all == r.events[first..]
    ensures cursor == Max(start, r.nextCursor)
  {
    first := Range(r.events, start);
    ghost var i := first;
    var more := true;
    cursor, all := start, [];
    while more
      invariant first <= i <= |r.events| && all == r.events[first..i] && Position(r.events, cursor, i)
      invariant start <= cursor <= Max(start, r.nextCursor)
      invariant !more ==> cursor >= r.nextCursor
      decreases Max(start, r.nextCursor) - cursor, more
    {
      var page;
      ghost var j;
      page, j := NextPage(r, cursor, limit, i);
      Joined(r.events, first, i, j);
      all, cursor, more, i := all + page.events, page.next, page.hasMore, j;
    }
    PositionAtEnd(r, cursor, i);
  }

  lemma PositionAtEnd(r: Reader, cursor: nat, i: nat)
    requires WellKept(r) && Position(r.events, cursor, i) && cursor >= r.nextCursor
    ensures i == |r.events|
  {
  }
}
