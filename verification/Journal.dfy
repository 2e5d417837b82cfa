/** The journal protocol: producers that number events and queue them or report a loss, the
    writer that makes them durable and readable, and a collector that follows the cursor.
    Each method is one step under the locks the program holds; a run is any sequence of steps. */
module Journal {
  import opened Collections
  import opened Paths
  import opened Gaps
  import opened HistoryReader

  const QUEUE_BYTES: nat := 8 * 1024 * 1024
  const QUEUE_MESSAGES: nat := 2048

  type Batch = seq<Stored>

  /** Numbered, small enough, in order, and all between the two cursors. */
  ghost predicate InOrder(s: Batch, low: nat, high: nat) {
    Ascending(s) && forall i :: 0 <= i < |s| ==> low < s[i].event.seqNo <= high && 1 <= s[i].size <= EVENT_LIMIT
  }

  lemma {:induction false} TotalAtLeast(s: Batch)
    requires forall i :: 0 <= i < |s| ==> s[i].size >= 1
    ensures TotalSize(s) >= |s|
  {
    if s != [] { TotalAtLeast(s[..|s| - 1]); }
  }

  /** The number is readable, reported lost, about to be reported lost, or on its way. */
  ghost predicate KnownIn(r: Reader, pending: seq<Gap>, flight: Batch, n: nat) {
    Accounted(r, n) || Covered(pending, n) || Has(flight, n)
  }

  ghost predicate AllKnown(r: Reader, pending: seq<Gap>, flight: Batch, high: nat) {
    forall n :: 1 <= n <= high ==> KnownIn(r, pending, flight, n)
  }

  /** Whatever a collector has passed was given to it, or is reported lost; between an
      insertion and the end of its append the report may still be on its way. */
  ghost predicate Followed(cursor: nat, given: set<nat>, gaps: seq<Gap>, onTheWay: seq<Gap>) {
    forall n :: 1 <= n <= cursor ==> n in given || Covered(gaps, n) || Covered(onTheWay, n)
  }

  lemma StillFollowed(cursor: nat, given: set<nat>, gaps0: seq<Gap>, onTheWay0: seq<Gap>, gaps: seq<Gap>, onTheWay: seq<Gap>)
    requires Followed(cursor, given, gaps0, onTheWay0)
    requires forall n :: n > 0 && (Covered(gaps0, n) || Covered(onTheWay0, n)) ==> Covered(gaps, n) || Covered(onTheWay, n)
    ensures Followed(cursor, given, gaps, onTheWay)
  {
  }

  /** A message leaves for the gap list. */
  lemma LostKnown(r: Reader, pending0: seq<Gap>, pending: seq<Gap>, a: Batch, lost: Batch, b: Batch, high: nat)
    requires AllKnown(r, pending0, a + (lost + b), high)
    requires forall n :: n > 0 && (Covered(pending0, n) || Has(lost, n)) ==> Covered(pending, n)
    ensures AllKnown(r, pending, a + b, high)
  {
    forall n | 1 <= n <= high ensures KnownIn(r, pending, a + b, n) {
      assert KnownIn(r, pending0, a + (lost + b), n);
      HasSplit(a, lost + b, n);
      HasSplit(lost, b, n);
      HasSplit(a, b, n);
    }
  }

  /** Newly numbered events are on their way. */
  lemma SentKnown(r: Reader, pending: seq<Gap>, flight: Batch, numbered: Batch, high: nat, last: nat)
    requires AllKnown(r, pending, flight, high) && last == high + |numbered|
    requires forall i :: 0 <= i < |numbered| ==> numbered[i].event.seqNo == high + 1 + i
    ensures AllKnown(r, pending, flight + numbered, last)
  {
    forall n | 1 <= n <= last ensures KnownIn(r, pending, flight + numbered, n) {
      HasSplit(flight, numbered, n);
      if n > high { assert numbered[n - high - 1].event.seqNo == n; }
      else { assert KnownIn(r, pending, flight, n); }
    }
  }

  lemma InsertKnown(r: Reader, pending: seq<Gap>, e: Stored, rest: Batch, high: nat)
    requires AllKnown(r, pending, [e] + rest, high)
    ensures AllKnown(Inserted(r, e), pending, rest, high)
  {
    forall n | 1 <= n <= high ensures KnownIn(Inserted(r, e), pending, rest, n) {
      assert KnownIn(r, pending, [e] + rest, n);
      HasSplit([e], rest, n);
      HasOne(e, n);
      InsertedAccounts(r, e, n);
    }
  }

  /** Reporting a loss, or giving up an event, forgets no number. */
  lemma StillKnown(r0: Reader, pending0: seq<Gap>, r: Reader, pending: seq<Gap>, flight: Batch, high: nat)
    requires AllKnown(r0, pending0, flight, high)
    requires forall n :: n > 0 && (Accounted(r0, n) || Covered(pending0, n)) ==> Accounted(r, n) || Covered(pending, n)
    ensures AllKnown(r, pending, flight, high)
  {
    forall n | 1 <= n <= high ensures KnownIn(r, pending, flight, n) {
      assert KnownIn(r0, pending0, flight, n);
    }
  }

  /** When nothing below the cursor is on its way, every number up to it is accounted for. */
  lemma SettledWithout(r: Reader, flight: Batch, high: nat)
    requires AllKnown(r, [], flight, high) && r.nextCursor <= high && InOrder(flight, r.nextCursor, high)
    ensures Settled(r)
  {
    forall n | 1 <= n <= r.nextCursor ensures Accounted(r, n) {
      assert KnownIn(r, [], flight, n);
    }
  }

  /** The `i`-th event of a message with the number it gets after `next`. */
  function At(events: seq<Event>, next: nat, i: nat): Event
    requires i < |events|
  {
    events[i].(seqNo := next + 1 + i)
  }

  lemma InOrderOneMore(s: Batch, low: nat, high: nat, x: Stored)
    requires low <= high && InOrder(s, low, high) && x.event.seqNo == high + 1 && 1 <= x.size <= EVENT_LIMIT
    ensures InOrder(s + [x], low, high + 1)
  {
    assert [x][..0] == [];
    InOrderJoin(s, [x], low, high, high + 1);
  }

  /** Number the events of one message, from `next + 1` on, up to the first that is too large. */
  method Number(events: seq<Event>, next: nat, size: Event -> nat) returns (numbered: Batch, last: nat, fits: bool)
    requires forall e :: size(e) >= 1
    ensures last >= next && InOrder(numbered, next, last)
    ensures fits <==> forall i :: 0 <= i < |events| ==> size(At(events, next, i)) <= EVENT_LIMIT
    ensures fits ==> last == next + |events| && |numbered| == |events|
    ensures !fits ==> next < last <= next + |events| && |numbered| == last - next - 1
                      && size(At(events, next, last - next - 1)) > EVENT_LIMIT
    ensures |numbered| <= |events|
    ensures forall i :: 0 <= i < |numbered| ==> numbered[i] == Stored(At(events, next, i), size(At(events, next, i)))
  {
    hide Ascending, InOrder;
    numbered, last, fits := [], next, true;
    InOrderEmpty(next, next);
    for i := 0 to |events|
      invariant last == next + i && |numbered| == i && InOrder(numbered, next, last)
      invariant forall k :: 0 <= k < i ==> numbered[k] == Stored(At(events, next, k), size(At(events, next, k)))
      invariant forall k :: 0 <= k < i ==> size(At(events, next, k)) <= EVENT_LIMIT
    {
      var e := At(events, next, i);
      if size(e) > EVENT_LIMIT {
        InOrderMore(numbered, next, last, last + 1);
        return numbered, last + 1, false;
      }
      InOrderOneMore(numbered, next, last, Stored(e, size(e)));
      numbered := numbered + [Stored(e, size(e))];
      last := last + 1;
    }
  }

  lemma InOrderEmpty(low: nat, high: nat)
    ensures InOrder([], low, high)
  {
  }

  /** The losses after a whole message, from its first number to its last, was reported. */
  function Losses(pending: seq<Gap>, lost: Batch, reason: Reason): seq<Gap> {
    if lost == [] then pending else AddGap(pending, lost[0].event.seqNo, lost[|lost| - 1].event.seqNo, reason)
  }

  datatype Moment = Moment(events: seq<Stored>, cursor: nat, given: set<nat>)

  /** From one moment to a later one: the collector does not go back, keeps what it was given, and
      nothing became readable at or below where it was. */
  ghost predicate NeverSkips(a: Moment, b: Moment) {
    && a.cursor <= b.cursor && a.given <= b.given
    && forall n: nat :: Has(b.events, n) && !Has(a.events, n) ==> n > a.cursor
  }

  lemma NeverSkipsTransitive(a: Moment, b: Moment, c: Moment)
    requires NeverSkips(a, b) && NeverSkips(b, c)
    ensures NeverSkips(a, c)
  {
  }

  class Journal {
    /** The last number given out; `sending` is numbered by a producer that still holds the lock. */
    var producer: nat
    var sending: Batch
    var pending: seq<Gap>
    var queue: seq<Batch>
    var queuedBytes: nat
    /** What the writer has received and not yet made readable. */
    var batch: Batch
    var inserting: bool
    /** No message is admitted any more: at shutdown, or after a failed write that could not be
        undone. The writer finishes at the next idle tick. */
    var stopped: bool
    var finished: bool
    var reader: Reader
    /** A collector that started at 0 and follows the pages: where it is and what it was given. */
    var cursor: nat
    ghost var given: set<nat>

    ghost function Flight(): Batch reads this {
      batch + (Concat(queue) + sending)
    }

    /** What a collector can see, and how far it got. */
    ghost function Now(): Moment reads this { Moment(reader.events, cursor, given) }

    ghost predicate Valid() reads this {
      && WellKept(reader) && |pending| <= MAX_GAPS
      && cursor <= reader.nextCursor <= producer
      && Within(reader.gaps, producer) && Within(pending, producer)
      && InOrder(Flight(), reader.nextCursor, producer)
      && queuedBytes == TotalSize(Concat(queue))
      && AllKnown(reader, pending, Flight(), producer)
      && (!inserting ==> Settled(reader))
      && Followed(cursor, given, reader.gaps, if inserting then pending else [])
    }

    constructor ()
      ensures Valid() && producer == 0 && reader == Blank() && cursor == 0 && given == {} && !stopped && !finished
    {
      producer, sending, pending, queue, queuedBytes := 0, [], [], [], 0;
      batch, inserting, stopped, finished := [], false, false, false;
      reader := Blank();
      cursor, given := 0, {};
    }

    /** A process that found a journal goes on after the recovered cursor; a collector of the
        process before it may still be following. */
    constructor Recovered(r: Reader, cursor: nat, ghost given: set<nat>)
      requires WellKept(r) && Settled(r) && Within(r.gaps, r.nextCursor)
      requires cursor <= r.nextCursor && Followed(cursor, given, r.gaps, [])
      ensures Valid() && reader == r && producer == r.nextCursor && this.cursor == cursor && this.given == given
      ensures Flight() == [] && pending == [] && !inserting && !stopped && !finished
    {
      producer, sending, pending, queue, queuedBytes := r.nextCursor, [], [], [], 0;
      batch, inserting, stopped, finished := [], false, false, false;
      reader := r;
      this.cursor, this.given := cursor, given;
      new;
      hide Ascending, TotalSize, Covered, Has, Followed;
      assert Flight() == [];
      forall n | 1 <= n <= producer ensures KnownIn(reader, [], [], n) { assert Accounted(r, n); }
    }

    // -------------------------------------------------------------- producers

    /** Report the numbers `first` to `last` lost; they were given out. */
    method Lose(first: nat, last: nat, reason: Reason)
      requires last <= producer && |pending| <= MAX_GAPS && Within(pending, producer)
      modifies this`pending
      ensures |pending| <= MAX_GAPS && Within(pending, producer) && pending == AddGap(old(pending), first, last, reason)
      ensures forall n :: n > 0 && (Covered(old(pending), n) || first <= n <= last) ==> Covered(pending, n)
    {
      AddGapBounds(pending, first, last, reason, producer);
      forall n | n > 0 && (Covered(pending, n) || first <= n <= last) ensures Covered(AddGap(pending, first, last, reason), n) {
        AddGapCovers(pending, first, last, reason, n);
      }
      pending := AddGap(pending, first, last, reason);
    }

    /** `enqueue` refuses messages once the journal is stopped; a producer that looked before that
        is late. */
    method Enter(events: seq<Event>, size: Event -> nat, late: bool) returns (admitted: bool, ok: bool)
      requires Valid() && sending == [] && forall e :: size(e) >= 1
      modifies this`producer, this`sending, this`pending
      ensures Valid() && (admitted <==> !stopped || late) && (ok ==> admitted) && producer >= old(producer)
      ensures !admitted ==> producer == old(producer) && sending == [] && pending == old(pending)
      ensures ok <==> admitted && forall i :: 0 <= i < |events| ==> size(At(events, old(producer), i)) <= EVENT_LIMIT
    {
      admitted, ok := !stopped || late, false;
      if admitted { ok := Reserve(events, size); }
    }

    /** Shutdown. */
    method Stop()
      requires Valid()
      modifies this`stopped
      ensures Valid() && stopped
    {
      hide InOrder, AllKnown, Settled, WellKept, Followed, Within;
      stopped := true;
    }

    /** The first half of `enqueue`: take the producer lock and number the events. A message
        with an event that is too large is lost with every number it took. */
    method Reserve(events: seq<Event>, size: Event -> nat) returns (ok: bool)
      requires Valid() && sending == [] && forall e :: size(e) >= 1
      modifies this`producer, this`sending, this`pending
      ensures Valid()
      ensures ok <==> forall i :: 0 <= i < |events| ==> size(At(events, old(producer), i)) <= EVENT_LIMIT
      ensures ok ==> producer == old(producer) + |events| && pending == old(pending) && |sending| == |events|
                     && forall i :: 0 <= i < |events| ==> sending[i] == Stored(At(events, old(producer), i), size(At(events, old(producer), i)))
      ensures !ok ==> sending == [] && old(producer) < producer <= old(producer) + |events|
                      && size(At(events, old(producer), producer - old(producer) - 1)) > EVENT_LIMIT
                      && pending == AddGap(old(pending), old(producer) + 1, producer, EventTooLarge)
      ensures !ok ==> forall n :: old(producer) < n <= producer ==> Covered(pending, n)
    {
      hide InOrder, AllKnown, Settled, WellKept, Followed, Covered, Within, Concat, TotalSize;
      var numbered, last;
      numbered, last, ok := Number(events, producer, size);
      if ok { Reserved(numbered, last); } else { TooLarge(last); }
    }

    method Reserved(numbered: Batch, last: nat)
      requires Valid() && sending == [] && InOrder(numbered, producer, last) && last == producer + |numbered|
      requires forall i :: 0 <= i < |numbered| ==> numbered[i].event.seqNo == producer + 1 + i
      modifies this`producer, this`sending
      ensures Valid() && producer == last && sending == numbered
    {
      hide Ascending, Settled, WellKept, KnownIn, Accounted, Covered, Followed;
      ghost var flight := Flight();
      assert flight == batch + Concat(queue);
      WithinMore(reader.gaps, producer, last);
      WithinMore(pending, producer, last);
      InOrderJoin(flight, numbered, reader.nextCursor, producer, last);
      SentKnown(reader, pending, flight, numbered, producer, last);
      producer := last;
      sending := numbered;
      assert Flight() == flight + numbered;
    }

    method TooLarge(last: nat)
      requires Valid() && sending == [] && last > producer
      modifies this`producer, this`pending
      ensures Valid() && producer == last && pending == AddGap(old(pending), old(producer) + 1, last, EventTooLarge)
      ensures forall n :: old(producer) < n <= last ==> Covered(pending, n)
    {
      hide Ascending, Settled, WellKept, KnownIn, Accounted, Covered;
      var first := producer;
      ghost var flight, reported := Flight(), pending;
      producer := last;
      WithinMore(reader.gaps, first, last);
      WithinMore(pending, first, last);
      InOrderMore(flight, reader.nextCursor, first, last);
      Lose(first + 1, last, EventTooLarge);
      NumbersLost(reader, reported, pending, flight, first, last);
      StillFollowed(cursor, given, reader.gaps, if inserting then reported else [], reader.gaps, if inserting then pending else []);
    }

    /** The second half: queue the message, or report it lost when the queue is full or the
        writer is gone. */
    method Send(connected: bool) returns (ok: bool)
      requires Valid()
      modifies this`queue, this`queuedBytes, this`sending, this`pending
      ensures Valid() && sending == []
      ensures ok ==> queue == old(queue) + [old(sending)] && pending == old(pending)
      ensures !ok ==> queue == old(queue) && pending == Losses(old(pending), old(sending), QueueFull)
      ensures !ok ==> forall n :: n > 0 && Has(old(sending), n) ==> Covered(pending, n)
      ensures ok <==> connected && !finished && |old(queue)| < QUEUE_MESSAGES && old(queuedBytes) + TotalSize(old(sending)) <= QUEUE_BYTES
    {
      ok := connected && !finished && |queue| < QUEUE_MESSAGES && queuedBytes + TotalSize(sending) <= QUEUE_BYTES;
      if ok { Accept(); } else { Refuse(); }
    }

    method Accept()
      requires Valid()
      modifies this`queue, this`queuedBytes, this`sending
      ensures Valid() && sending == [] && queue == old(queue) + [old(sending)]
    {
      hide Ascending, Settled, WellKept, KnownIn, Accounted, Covered, Has, InOrder, Followed, AllKnown, Within;
      ghost var flight := Flight();
      ConcatOneMore(queue, sending);
      TotalSizeSplit(Concat(queue), sending);
      queuedBytes := queuedBytes + TotalSize(sending);
      queue := queue + [sending];
      sending := [];
      assert Flight() == flight;
    }

    method Refuse()
      requires Valid()
      modifies this`pending, this`sending
      ensures Valid() && sending == [] && pending == Losses(old(pending), old(sending), QueueFull)
      ensures forall n :: n > 0 && Has(old(sending), n) ==> Covered(pending, n)
    {
      hide Ascending, Settled, WellKept, KnownIn, Accounted, Covered, Has;
      ghost var rest, lost, reported := batch + Concat(queue), sending, pending;
      assert Flight() == rest + lost == rest + (lost + []) && rest + [] == rest;
      InOrderPart(rest, lost, reader.nextCursor, producer);
      LoseAll(sending, QueueFull);
      LostKnown(reader, reported, pending, rest, lost, [], producer);
      StillFollowed(cursor, given, reader.gaps, if inserting then reported else [], reader.gaps, if inserting then pending else []);
      sending := [];
      assert Flight() == rest;
    }

    /** Report a numbered message lost. */
    method LoseAll(lost: Batch, reason: Reason)
      requires InOrder(lost, reader.nextCursor, producer) && |pending| <= MAX_GAPS && Within(pending, producer)
      modifies this`pending
      ensures |pending| <= MAX_GAPS && Within(pending, producer) && pending == Losses(old(pending), lost, reason)
      ensures forall n :: n > 0 && (Covered(old(pending), n) || Has(lost, n)) ==> Covered(pending, n)
    {
      if lost == [] { return; }
      AscendingAround(lost, 0);
      AscendingAround(lost, |lost| - 1);
      Lose(lost[0].event.seqNo, lost[|lost| - 1].event.seqNo, reason);
    }

    // -------------------------------------------------------------- the writer

    /** Take the next message into the batch. */
    method Receive()
      requires Valid() && !inserting && !finished && queue != []
      modifies this`batch, this`queue, this`queuedBytes
      ensures Valid() && batch == old(batch) + old(queue)[0] && queue == old(queue)[1..]
    {
      hide InOrder, Settled, WellKept, AllKnown, Followed, Within;
      ghost var flight := Flight();
      assert flight == batch + queue[0] + (Concat(queue[1..]) + sending);
      TotalSizeSplit(queue[0], Concat(queue[1..]));
      batch := batch + queue[0];
      queuedBytes := queuedBytes - TotalSize(queue[0]);
      queue := queue[1..];
    }

    /** The write failed: the whole range of the batch is reported lost. When it cannot be undone
        the journal stops, but what is queued is still to be written. */
    method FailWrite(undone: bool)
      requires Valid() && !inserting && !finished
      modifies this`batch, this`pending, this`stopped
      ensures stopped == (old(stopped) || !undone)
      ensures Valid() && batch == [] && pending == Losses(old(pending), old(batch), DiskError)
      ensures forall n :: n > 0 && Has(old(batch), n) ==> Covered(pending, n)
    {
      hide Ascending, Settled, WellKept, KnownIn, Accounted, Covered, Has, Followed;
      ghost var rest, lost, reported := Concat(queue) + sending, batch, pending;
      assert Flight() == lost + rest == [] + (lost + rest) && [] + rest == rest;
      InOrderPart(lost, rest, reader.nextCursor, producer);
      LoseAll(batch, DiskError);
      LostKnown(reader, reported, pending, [], lost, rest, producer);
      batch := [];
      stopped := stopped || !undone;
      assert Flight() == rest;
    }

    /** The batch is durable: insert its events from now on. */
    method BeginInsert()
      requires Valid() && !inserting && !finished
      modifies this`inserting
      ensures Valid() && inserting
    {
      hide InOrder, Settled, WellKept, AllKnown, Within;
      inserting := true;
    }

    /** Insert the next event of a durable batch. */
    method InsertNext()
      requires Valid() && inserting && batch != []
      modifies this`reader, this`batch
      ensures Valid() && reader == Inserted(old(reader), old(batch)[0]) && batch == old(batch)[1..]
      ensures old(batch)[0].event.seqNo > cursor
    {
      hide Ascending, Settled, AllKnown, Followed, WellKept;
      var e := batch[0];
      ghost var flight := Flight();
      assert flight[0] == e && flight == [e] + flight[1..];
      InsertedKeeps(reader, e);
      InsertKnown(reader, pending, e, flight[1..], producer);
      StillInOrder(flight, e, reader.nextCursor, producer);
      reader := Inserted(reader, e);
      batch := batch[1..];
      assert Flight() == flight[1..];
    }

    /** The batch is inserted: make the reported losses readable. */
    method EndInsert()
      requires Valid() && inserting && batch == []
      modifies this`reader, this`pending, this`inserting
      ensures Valid() && !inserting && pending == [] && reader == WithLosses(old(reader), old(pending))
      ensures Settled(reader)
    {
      hide Ascending, Settled, AllKnown, Followed, WellKept, Covered, Has, InOrder;
      TakeLosses();
      inserting := false;
      SettledWithout(reader, Flight(), producer);
    }

    /** Give up the `i`-th retained event: trimmed, expired, or over a limit. */
    method Retire(i: nat, reason: Reason)
      requires Valid() && i < |reader.events|
      modifies this`reader
      ensures Valid() && old(reader.events[i].size <= reader.bytes) && reader == Retired(old(reader), i, reason)
      ensures Covered(reader.gaps, old(reader.events)[i].event.seqNo)
      ensures forall n :: n > 0 && Accounted(old(reader), n) ==> Accounted(reader, n)
    {
      hide Ascending, AllKnown, Followed, Covered, Has, InOrder;
      ghost var r0 := reader;
      RetiredKeeps(reader, i, reason, producer);
      reader := Retired(reader, i, reason);
      StillKnown(r0, pending, reader, pending, Flight(), producer);
      StillFollowed(cursor, given, r0.gaps, if inserting then pending else [], reader.gaps, if inserting then pending else []);
    }

    /** The state could not be persisted after the insertion: the range is reported lost,
        although its events are readable. */
    method FailPersist(first: nat, last: nat)
      requires Valid() && !inserting && last <= reader.nextCursor
      modifies this`pending
      ensures Valid() && pending == AddGap(old(pending), first, last, DiskError)
    {
      hide Ascending, AllKnown, Followed, Covered, Has, InOrder;
      ghost var reported := pending;
      Lose(first, last, DiskError);
      StillKnown(reader, reported, reader, pending, Flight(), producer);
    }

    /** An idle tick, under both the producer lock and the reader lock: no event is being
        numbered or written. With nothing queued the cursor may pass the losses. */
    method Tick() returns (drained: bool)
      requires Valid() && !inserting && !finished && batch == [] && sending == []
      modifies this`reader, this`pending, this`finished
      ensures finished == stopped
      ensures Valid() && pending == [] && Settled(reader)
      ensures Flight() == old(Flight()) && (drained <==> Flight() == [])
      ensures drained ==> reader == WithLosses(old(reader), old(pending)).(nextCursor := producer)
      ensures !drained ==> reader == WithLosses(old(reader), old(pending))
    {
      hide Ascending, AllKnown, Followed, Covered, Has, Settled, KnownIn, WellKept;
      drained := queuedBytes == 0;
      assert Flight() == Concat(queue);
      TotalAtLeast(Concat(queue));
      TakeLosses();
      if drained { PassLosses(); }
      finished := stopped;
      SettledWithout(reader, Flight(), producer);
    }

    /** Move the reported losses to where collectors see them. */
    method TakeLosses()
      requires WellKept(reader) && Within(reader.gaps, producer) && Within(pending, producer)
      requires AllKnown(reader, pending, Flight(), producer) && Followed(cursor, given, reader.gaps, if inserting then pending else [])
      modifies this`reader, this`pending
      ensures reader == WithLosses(old(reader), old(pending)) && pending == []
      ensures WellKept(reader) && Within(reader.gaps, producer) && Within([], producer)
      ensures AllKnown(reader, [], Flight(), producer) && Followed(cursor, given, reader.gaps, [])
    {
      hide Ascending, AllKnown, Followed, Covered, Has, KnownIn, WellKept;
      LossesKeep(reader, pending, producer);
      StillKnown(reader, pending, WithLosses(reader, pending), [], Flight(), producer);
      StillFollowed(cursor, given, reader.gaps, if inserting then pending else [], WithLosses(reader, pending).gaps, []);
      reader := WithLosses(reader, pending);
      pending := [];
    }

    /** With nothing on its way, the cursor moves to the end of the furthest gap: to the
        newest number of all. */
    method PassLosses()
      requires WellKept(reader) && reader.nextCursor <= producer && Within(reader.gaps, producer)
      requires AllKnown(reader, [], [], producer)
      modifies this`reader
      ensures reader == old(reader).(nextCursor := producer)
      ensures WellKept(reader) && AllKnown(reader, [], [], producer)
    {
      ghost var r0 := reader;
      FurthestWithin(reader.gaps, producer);
      assert producer > 0 ==> KnownIn(reader, [], [], producer);
      reader := reader.(nextCursor := Max(reader.nextCursor, Furthest(reader.gaps)));
      ProducerReached(reader, producer);
      StillKnown(r0, [], reader, [], [], producer);
    }

    // -------------------------------------------------------------- collectors

    /** A page of the collector that follows the cursor. */
    method Follow(limit: nat) returns (p: Page, ghost i: nat, ghost j: nat)
      requires Valid() && 1 <= limit <= PAGE_EVENTS
      modifies this`cursor, this`given
      ensures IsPage(reader, old(cursor), limit, i, j, p) && p.gaps == reader.gaps
      ensures !inserting ==> Followed(cursor, given, p.gaps, [])
      ensures Valid() && cursor == p.next >= old(cursor) && (old(cursor) < reader.nextCursor ==> cursor > old(cursor))
      ensures forall i :: 0 <= i < |p.events| ==> p.events[i].event.seqNo > old(cursor) && p.events[i] in reader.events
      ensures forall n :: n in given <==> n in old(given) || Has(p.events, n)
    {
      hide InOrder, Settled, AllKnown, Covered, Within;
      var answer;
      answer, i, j := PageOf(reader, cursor, limit);
      p := answer.value;
      PageAdvances(reader, cursor, limit, i, j);
      PageMembers(reader, cursor, i, j, p.next);
      PassedAccounted(p.next);
      ghost var now := Numbers(p.events);
      GivenFollowed(reader, cursor, given, if inserting then pending else [], p.events, p.next);
      given := given + now;
      cursor := p.next;
    }

    /** Every number up to the cursor is readable or reported, perhaps not yet readably. */
    lemma PassedAccounted(next: nat)
      requires Valid() && next <= reader.nextCursor
      ensures forall n :: 1 <= n <= next ==> Accounted(reader, n) || Covered(if inserting then pending else [], n)
    {
      forall n | 1 <= n <= next ensures Accounted(reader, n) || Covered(if inserting then pending else [], n) {
        assert KnownIn(reader, pending, Flight(), n);
      }
    }
  }

  lemma HasOne(e: Stored, n: nat)
    ensures Has([e], n) <==> n == e.event.seqNo
  {
    assert [e][0] == e;
  }

  lemma {:induction false} AscendingParts(a: Batch, b: Batch)
    requires Ascending(a + b)
    ensures Ascending(a) && Ascending(b)
  {
    AscendingSuffix(a + b, |a|);
    assert (a + b)[|a|..] == b;
    if b == [] {
      assert a + b == a;
    } else {
      assert (a + b)[..|a + b| - 1] == a + b[..|b| - 1];
      assert Ascending((a + b)[..|a + b| - 1]);
      AscendingParts(a, b[..|b| - 1]);
    }
  }

  lemma InOrderJoin(a: Batch, b: Batch, low: nat, middle: nat, high: nat)
    requires low <= middle <= high && InOrder(a, low, middle) && InOrder(b, middle, high)
    ensures InOrder(a + b, low, high)
  {
    AscendingJoin(a, b);
  }

  lemma InOrderPart(a: Batch, b: Batch, low: nat, high: nat)
    requires InOrder(a + b, low, high)
    ensures InOrder(a, low, high) && InOrder(b, low, high)
  {
    AscendingParts(a, b);
    assert forall i :: 0 <= i < |a| ==> a[i] == (a + b)[i];
    assert forall i :: 0 <= i < |b| ==> b[i] == (a + b)[|a| + i];
  }

  lemma StillInOrder(s: Batch, e: Stored, low: nat, high: nat)
    requires s != [] && s[0] == e && InOrder(s, low, high)
    ensures InOrder(s[1..], e.event.seqNo, high)
  {
    AscendingSuffix(s, 1);
    AscendingAround(s, 0);
  }

  lemma FurthestWithin(gaps: seq<Gap>, high: nat)
    requires Within(gaps, high)
    ensures Furthest(gaps) <= high
  {
  }

  ghost function Numbers(s: Batch): (r: set<nat>)
    ensures forall n :: n in r <==> Has(s, n)
  {
    set i | 0 <= i < |s| :: s[i].event.seqNo
  }

  lemma GivenFollowed(r: Reader, cursor: nat, given: set<nat>, onTheWay: seq<Gap>, events: Batch, next: nat)
    requires Followed(cursor, given, r.gaps, onTheWay)
    requires forall n :: 1 <= n <= next ==> Accounted(r, n) || Covered(onTheWay, n)
    requires forall n :: cursor < n <= next && Has(r.events, n) ==> Has(events, n)
    ensures Followed(next, given + Numbers(events), r.gaps, onTheWay)
  {
  }

  lemma InOrderMore(s: Batch, low: nat, middle: nat, high: nat)
    requires InOrder(s, low, middle) && middle <= high
    ensures InOrder(s, low, high)
  {
  }

  lemma WithinMore(gaps: seq<Gap>, low: nat, high: nat)
    requires Within(gaps, low) && low <= high
    ensures Within(gaps, high)
  {
  }

  lemma NumbersLost(r: Reader, pending0: seq<Gap>, pending: seq<Gap>, flight: Batch, high: nat, last: nat)
    requires AllKnown(r, pending0, flight, high)
    requires forall n :: n > 0 && (Covered(pending0, n) || high + 1 <= n <= last) ==> Covered(pending, n)
    ensures AllKnown(r, pending, flight, last)
  {
    forall n | 1 <= n <= last ensures KnownIn(r, pending, flight, n) {
      assert n <= high ==> KnownIn(r, pending0, flight, n);
    }
  }

  /** With nothing on its way, the newest number is an event's or the end of a gap. */
  lemma ProducerReached(r: Reader, producer: nat)
    requires WellKept(r) && r.nextCursor <= producer && (producer > 0 ==> Accounted(r, producer))
    requires Furthest(r.gaps) <= r.nextCursor
    ensures r.nextCursor == producer
  {
  }

  /** One step of a producer, the writer or the collector. */
  datatype Step =
    | Enter(events: seq<Event>, late: bool)
    | Stop
    | Send(connected: bool)
    | Receive
    | FailWrite(undone: bool)
    | BeginInsert
    | InsertNext
    | EndInsert
    | Retire(i: nat, reason: Reason)
    | FailPersist(first: nat, last: nat)
    | Tick
    | Follow(limit: nat)

  /** Take a step, if the locks and the writer's own order allow it now. */
  method Take(j: Journal, step: Step, size: Event -> nat)
    requires j.Valid() && forall e :: size(e) >= 1
    modifies j
    ensures j.Valid() && NeverSkips(old(j.Now()), j.Now()) && j.producer >= old(j.producer)
  {
    hide KnownIn, AllKnown, InOrder, Settled, WellKept, Ascending, Followed, Covered, Within;
    EventsOf(j.reader);
    match step {
      case Enter(events, late) => if j.sending == [] { var _, _ := j.Enter(events, size, late); }
      case Stop => j.Stop();
      case Send(connected) => var _ := j.Send(connected);
      case Receive => if !j.inserting && !j.finished && j.queue != [] { j.Receive(); }
      case FailWrite(undone) => if !j.inserting && !j.finished { j.FailWrite(undone); }
      case BeginInsert => if !j.inserting && !j.finished { j.BeginInsert(); }
      case InsertNext => if j.inserting && j.batch != [] { j.InsertNext(); }
      case EndInsert => if j.inserting && j.batch == [] { j.EndInsert(); }
      case Retire(i, reason) => if i < |j.reader.events| { j.Retire(i, reason); }
      case FailPersist(first, last) => if !j.inserting && last <= j.reader.nextCursor { j.FailPersist(first, last); }
      case Tick => if !j.inserting && !j.finished && j.batch == [] && j.sending == [] { var _ := j.Tick(); }
      case Follow(limit) => if 1 <= limit <= PAGE_EVENTS { var _, _, _ := j.Follow(limit); }
    }
  }

  /** Any interleaving, from any journal, a new or a recovered one: no number is forgotten, and
      whatever becomes readable later than a moment has a number above the cursor that the
      collector had at that moment. */
  method Run(j: Journal, steps: seq<Step>, size: Event -> nat) returns (ghost log: seq<Moment>)
    requires j.Valid() && forall e :: size(e) >= 1
    modifies j
    ensures j.Valid() && j.producer >= old(j.producer) && |log| == |steps| + 1 && log[0] == old(j.Now()) && log[|steps|] == j.Now()
    ensures forall i :: 0 <= i < |log| ==> NeverSkips(log[i], j.Now())
  {
    hide NeverSkips, KnownIn, AllKnown, InOrder, Settled, WellKept, Ascending, Followed, Covered, Within;
    log := [j.Now()];
    NeverSkipsAtOnce(j.Now());
    for n := 0 to |steps|
      invariant j.Valid() && j.producer >= old(j.producer) && |log| == n + 1 && log[0] == old(j.Now()) && log[n] == j.Now()
      invariant forall i :: 0 <= i < |log| ==> NeverSkips(log[i], j.Now())
    {
      ghost var before := j.Now();
      Take(j, steps[n], size);
      forall i | 0 <= i < |log| ensures NeverSkips(log[i], j.Now()) { NeverSkipsTransitive(log[i], before, j.Now()); }
      NeverSkipsAtOnce(j.Now());
      log := log + [j.Now()];
    }
  }

  lemma NeverSkipsAtOnce(a: Moment)
    ensures NeverSkips(a, a)
  {
  }

  /** What the writer's steps do to the numbers that are readable. */
  lemma EventsOf(r: Reader)
    ensures forall e, n :: Has(Inserted(r, e).events, n) ==> Has(r.events, n) || n == e.event.seqNo
    ensures forall losses :: WithLosses(r, losses).events == r.events
    ensures forall i: nat, reason, n :: i < |r.events| && r.events[i].size <= r.bytes && Has(Retired(r, i, reason).events, n) ==> Has(r.events, n)
  {
    forall e, n | Has(Inserted(r, e).events, n) ensures Has(r.events, n) || n == e.event.seqNo {
      HasSplit(r.events, [e], n);
      HasOne(e, n);
    }
    forall i: nat, reason, n | i < |r.events| && r.events[i].size <= r.bytes && Has(Retired(r, i, reason).events, n) ensures Has(r.events, n) {
      HasSplit(r.events[..i], r.events[i + 1..], n);
      assert r.events == r.events[..i] + ([r.events[i]] + r.events[i + 1..]);
      HasSplit(r.events[..i], [r.events[i]] + r.events[i + 1..], n);
      HasSplit([r.events[i]], r.events[i + 1..], n);
    }
  }

  /** When the journal falls quiet, an idle tick and a few pages later the collector has been
      given every number that was ever given out, or the last page tells it the loss. */
  method CatchUp(j: Journal, limit: nat) returns (last: Page)
    requires j.Valid() && !j.inserting && !j.finished && j.Flight() == [] && 1 <= limit <= PAGE_EVENTS
    modifies j
    ensures j.Valid() && j.cursor == j.producer == old(j.producer)
    ensures forall n :: 1 <= n <= j.producer ==> n in j.given || Covered(last.gaps, n)
  {
    assert j.batch == [] && j.sending == [];
    var drained := j.Tick();
    ghost var first, end;
    last, first, end := j.Follow(limit);
    while last.hasMore
      invariant j.Valid() && !j.inserting && j.reader.nextCursor == j.producer == old(j.producer)
      invariant Followed(j.cursor, j.given, last.gaps, []) && j.cursor <= j.producer && last.hasMore == (j.cursor < j.producer)
      decreases j.producer - j.cursor
    {
      last, first, end := j.Follow(limit);
    }
  }
}
