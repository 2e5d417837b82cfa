/** The journal file in the hands of the writer: whole appends, writes that fail part way and can
    or cannot be undone, and what the next process makes of the file. */
module Durable {
  import opened Collections
  import opened Paths
  import opened Gaps
  import opened HistoryReader
  import opened Retention
  import opened Recovery
  import opened Utf8
  import Journal

  // ---------------------------------------------------------------- writing at a position

  function Zeros(n: nat): (r: seq<Byte>)
    ensures |r| == n && forall i :: 0 <= i < n ==> r[i] == 0
  {
    seq(n, _ => 0)
  }

  /** `File::set_len`. */
  function Resized(file: seq<Byte>, n: nat): (r: seq<Byte>)
    ensures |r| == n
  {
    if n <= |file| then file[..n] else file + Zeros(n - |file|)
  }

  /** `write_all` at a position, which may be beyond the end. */
  function Written(file: seq<Byte>, position: nat, bytes: seq<Byte>): seq<Byte> {
    if bytes == [] then file
    else
      var padded := Resized(file, Max(|file|, position + |bytes|));
      padded[..position] + bytes + padded[position + |bytes|..]
  }

  /** The file up to the position, where what is missing reads as zeros. */
  function Extended(file: seq<Byte>, position: nat): seq<Byte> {
    if |file| <= position then Resized(file, position) else file
  }

  lemma WrittenAtEnd(file: seq<Byte>, position: nat, bytes: seq<Byte>)
    requires position >= |file|
    ensures Extended(Written(file, position, bytes), position + |bytes|) == Extended(file, position) + bytes
    ensures |Written(file, position, bytes)| <= position + |bytes| && (bytes != [] ==> |Written(file, position, bytes)| == position + |bytes|)
    ensures position == |file| ==> Written(file, position, bytes) == file + bytes
    ensures bytes == [] ==> Written(file, position, bytes) == file
  {
  }

  /** How a write that failed is undone: cut the file back and go there. Either call may fail. */
  datatype Undo = Undone | NotSought | NotTruncated

  /** What is between the journal and the next record after a write failed with `bytes` written. */
  function LeftBy(undo: Undo, bytes: seq<Byte>): seq<Byte> {
    match undo
    case Undone => []
    case NotSought => Zeros(|bytes|)
    case NotTruncated => bytes
  }

  predicate EndsRecord(bytes: seq<Byte>) {
    bytes != [] && bytes[|bytes| - 1] == NEWLINE
  }

  lemma {:induction false} LinesSize(encode: Event -> seq<Byte>, s: seq<Stored>)
    requires Encoded(encode, s)
    ensures |Lines(encode, EventsOf(s))| == TotalSize(s)
  {
    if s != [] {
      var init, e := s[..|s| - 1], s[|s| - 1];
      assert e in s && forall x :: x in init ==> x in s;
      LinesSize(encode, init);
      assert EventsOf(s) == EventsOf(init) + [e.event];
      LinesJoin(encode, EventsOf(init), [e.event]);
      assert [e.event][1..] == [];
    }
  }

  class JournalFile {
    const writer: Writer
    const encode: Event -> seq<Byte>
    var file: seq<Byte>
    var position: nat

    ghost predicate Valid() reads this, writer {
      writer.Valid() && Encoded(encode, writer.disk)
    }

    /** The file is the lines of what the writer takes to be in it. */
    ghost predicate Whole() reads this, writer {
      Valid() && file == Lines(encode, EventsOf(writer.disk)) && position == |file|
    }

    constructor (encode: Event -> seq<Byte>, head: nat, tailBytes: nat, maxBytes: nat)
      ensures Whole() && fresh(writer) && writer.Sure() && writer.reader == Blank() && writer.disk == [] && writer.ends == map[]
      ensures this.encode == encode && writer.head == head && writer.tailBytes == tailBytes && writer.maxBytes == maxBytes
    {
      writer := new Writer(head, tailBytes, maxBytes);
      this.encode, file, position := encode, [], 0;
    }

    /** A batch is written where the file is positioned, and what `Writer.Append` says happens in
        memory. A rewrite brings the file back to what the writer takes to be in it. */
    method Append(batch: seq<Stored>, losses: seq<Gap>, cutoff: int, rewrite: Rewrite) returns (ok: bool, rewritten: bool)
      requires Valid() && Encoded(encode, batch) && Appendable(batch, writer.reader.nextCursor, writer.ends)
      modifies this, writer
      ensures Valid() && (old(Whole()) || rewritten ==> Whole())
      ensures !rewritten ==>
        && file == Written(old(file), old(position), Lines(encode, EventsOf(batch)))
        && position == old(position) + |Lines(encode, EventsOf(batch))|
      ensures rewritten ==> writer.Sure()
      ensures ok && Whole() ==> |file| <= writer.maxBytes + GC_BYTES / 2
      ensures writer.reader.nextCursor == CursorAfter(old(writer.reader).nextCursor, batch) && writer.ends == EndsAll(old(writer.ends), batch)
      ensures writer.disk == if rewritten then writer.reader.events else old(writer.disk) + batch
      ensures rewritten <==> rewrite != NotRenamed && TooLong(TotalSize(old(writer.disk) + batch), writer.reader.bytes, writer.maxBytes)
      ensures Quiet(old(writer.reader), batch, writer.head, cutoff, writer.maxBytes) ==>
        writer.reader == Pruned(WithLosses(InsertedAll(old(writer.reader), batch), losses))
      ensures old(writer.Sure()) && (forall e :: e in batch ==> FitsShare(e.event, writer.head, writer.tailBytes)) ==> writer.Sure()
      ensures forall n :: n > 0 && (Accounted(old(writer.reader), n) || Has(batch, n) || Covered(losses, n)) ==> Accounted(writer.reader, n)
    {
      hide Encoded, Lines, Quiet, Pruned, InsertedAll, WithLosses, FitsShare, Writer.Valid, Writer.Sure, Accounted, Covered, Reload,
           WindowsKept, Appendable, TooLong, Written, OverLimits, EndsAll, CursorAfter, IsTail, AddAll, FoldOpen, TellsLosses, TotalSize;
      SharesFit(batch, writer.head, writer.tailBytes);
      ghost var disk := writer.disk;
      ReadersOnDisk(writer);
      EncodedJoin(encode, disk, batch);
      LinesOfBoth(encode, disk, batch);
      WrittenAtEnd(Lines(encode, EventsOf(disk)), |Lines(encode, EventsOf(disk))|, Lines(encode, EventsOf(batch)));
      file := Written(file, position, Lines(encode, EventsOf(batch)));
      position := position + |Lines(encode, EventsOf(batch))|;
      ghost var reported;
      ok, rewritten, reported := writer.Append(batch, losses, cutoff, rewrite);
      if rewritten {
        file := Lines(encode, EventsOf(writer.reader.events));
        position := |file|;
        EncodedPart(encode, disk + batch, writer.disk);
      }
      PhysicalSize(writer, encode);
    }

    /** A write fails after `n` bytes of the batch, or in `sync_data` after all of them. */
    method FailWrite(batch: seq<Stored>, n: nat, undo: Undo)
      requires Valid() && n <= |Lines(encode, EventsOf(batch))|
      modifies this`file, this`position
      ensures Valid() && (old(Whole()) && LeftBy(undo, Lines(encode, EventsOf(batch))[..n]) == [] ==> Whole())
      ensures old(Whole()) ==>
        |file| <= position && Extended(file, position) == old(file) + LeftBy(undo, Lines(encode, EventsOf(batch))[..n])
    {
      var bytes := Lines(encode, EventsOf(batch))[..n];
      hide Lines, Written, Extended, Resized, Writer.Valid, Encoded;
      PhysicalSize(writer, encode);
      Undoing(Lines(encode, EventsOf(writer.disk)), bytes);
      file := Written(file, position, bytes);
      position := position + n;
      if undo == NotTruncated { return; }
      file := Resized(file, writer.physical);
      if undo == Undone { position := writer.physical; }
    }
  }

  lemma Undoing(start: seq<Byte>, bytes: seq<Byte>)
    ensures Written(start, |start|, bytes) == start + bytes && Resized(start + bytes, |start|) == start
    ensures Extended(start + bytes, |start| + |bytes|) == start + bytes && Extended(start, |start|) == start + []
    ensures Extended(start, |start| + |bytes|) == start + Zeros(|bytes|)
    ensures bytes == [] ==> start + bytes == start
    ensures Zeros(|bytes|) == [] ==> bytes == []
  {
    WrittenAtEnd(start, |start|, bytes);
  }

  lemma ReadersOnDisk(w: Writer)
    requires w.Valid()
    ensures forall x :: x in w.reader.events ==> x in w.disk
  {
  }

  lemma PhysicalSize(w: Writer, encode: Event -> seq<Byte>)
    requires w.Valid() && Encoded(encode, w.disk)
    ensures w.physical == |Lines(encode, EventsOf(w.disk))|
  {
    LinesSize(encode, w.disk);
  }

  lemma EncodedJoin(encode: Event -> seq<Byte>, a: seq<Stored>, b: seq<Stored>)
    requires Encoded(encode, a) && Encoded(encode, b)
    ensures Encoded(encode, a + b)
  {
  }

  lemma EncodedPart(encode: Event -> seq<Byte>, s: seq<Stored>, part: seq<Stored>)
    requires Encoded(encode, s) && forall x :: x in part ==> x in s
    ensures Encoded(encode, part)
  {
  }

  lemma LinesOfBoth(encode: Event -> seq<Byte>, a: seq<Stored>, b: seq<Stored>)
    ensures Lines(encode, EventsOf(a + b)) == Lines(encode, EventsOf(a)) + Lines(encode, EventsOf(b))
  {
    assert EventsOf(a + b) == EventsOf(a) + EventsOf(b);
    LinesJoin(encode, EventsOf(a), EventsOf(b));
  }

  // ---------------------------------------------------------------- after a write that failed

  lemma {:induction false} LinesEnd(encode: Event -> seq<Byte>, events: seq<Event>)
    requires events != [] && forall e :: IsLine(encode(e))
    ensures EndsRecord(Lines(encode, events))
  {
    if |events| == 1 {
      assert events[1..] == [] && Lines(encode, events) == encode(events[0]);
    } else {
      LinesEnd(encode, events[1..]);
    }
  }

  /** What is left is whole records of the batch and a tear. */
  lemma LeftParts(encode: Event -> seq<Byte>, batch: seq<Stored>, n: nat, undo: Undo) returns (j: nat, tear: seq<Byte>)
    requires Encoded(encode, batch) && (forall e :: IsLine(encode(e))) && n <= |Lines(encode, EventsOf(batch))|
    ensures var left := LeftBy(undo, Lines(encode, EventsOf(batch))[..n]);
            && j <= |batch| && IsTear(encode, tear) && left == Lines(encode, EventsOf(batch[..j])) + tear
            && (left == [] <==> j == 0 && tear == []) && (EndsRecord(left) <==> j > 0 && tear == [])
  {
    match undo
    case Undone => j, tear := 0, [];
    case NotSought => j, tear := 0, Zeros(n);
    case NotTruncated =>
      j, tear := CutPoint(encode, EventsOf(batch), n);
      assert EventsOf(batch)[..j] == EventsOf(batch[..j]);
      if tear != [] {
        assert batch[j] in batch && Recovery.Fits(encode, batch[j].event) && tear < encode(batch[j].event);
        TearEndsNoLine(encode, tear);
      }
      if j > 0 { LinesEnd(encode, EventsOf(batch[..j])); }
  }

  /** The records that the next process reads when `later` was written after what is left. */
  function ReadBack(disk: seq<Stored>, left: seq<Stored>, torn: bool, later: seq<Stored>): seq<Stored> {
    disk + left + if torn then [] else later
  }

  lemma ParseAfterFailure(encode: Event -> seq<Byte>, decode: seq<Byte> -> Decoded, disk: seq<Stored>, left: seq<Stored>, tear: seq<Byte>,
                          later: seq<Stored>)
    requires Codec(encode, decode) && TearsShow(encode, decode) && IsTear(encode, tear) && later != []
    requires Encoded(encode, disk) && Encoded(encode, left) && Encoded(encode, later)
    ensures var p := Parse(Lines(encode, EventsOf(disk)) + (Lines(encode, EventsOf(left)) + tear + Lines(encode, EventsOf(later))), decode);
            p.usable && p.damaged == (tear != []) && p.records == ReadBack(disk, left, tear != [], later)
  {
    hide Parse, Lines, IsTear, Codec;
    var written := disk + left;
    EncodedJoin(encode, disk, left);
    EncodedJoin(encode, written, later);
    StoredAgain(encode, written);
    StoredAgain(encode, later);
    StoredAgain(encode, written + later);
    LinesOfBoth(encode, disk, left);
    assert EventsOf(written + later) == EventsOf(written) + EventsOf(later);
    LaterReadBack(encode, decode, EventsOf(written), tear, EventsOf(later));
    assert Lines(encode, EventsOf(disk)) + (Lines(encode, EventsOf(left)) + tear + Lines(encode, EventsOf(later)))
        == Lines(encode, EventsOf(written)) + (tear + Lines(encode, EventsOf(later)));
    assert disk + left + [] == written;
  }

  /** What a failed write left, and what an append made of the reader that retired nothing. */
  ghost predicate AppendedAfter(r: Reader, disk: seq<Stored>, left: seq<Stored>, later: seq<Stored>, r2: Reader, ends: map<nat, nat>, head: nat) {
    && WellKept(r) && Ascending(disk) && (forall s :: s in disk ==> s.event.seqNo <= r.nextCursor) && Ends(ends, disk, r.windows)
    && Continued(left, r.nextCursor, ends) && Continued(later, CursorAfter(r.nextCursor, left), ends) && later != []
    && WellKept(r2) && Coherent(r2, disk + later, head)
    && r2.events == r.events + later && r2.earliest == FirstBefore(r2)
    && forall id :: id in r2.windows ==> id in r.windows && r2.windows[id] == r.windows[id]
  }

  lemma AscendingReadBack(r: Reader, disk: seq<Stored>, left: seq<Stored>, torn: bool, later: seq<Stored>, r2: Reader, ends: map<nat, nat>, head: nat)
    requires AppendedAfter(r, disk, left, later, r2, ends, head)
    ensures Ascending(ReadBack(disk, left, torn, later))
  {
    hide Coherent, Ends, WellKept;
    assert left[..|left|] == left && later[..|later|] == later;
    AscendingBatch(disk, left, |left|, r.nextCursor, ends);
    assert forall s :: s in left ==> s.event.seqNo <= CursorAfter(r.nextCursor, left) by {
      forall i | 0 <= i < |left| ensures left[i].event.seqNo <= CursorAfter(r.nextCursor, left) {
        if i < |left| - 1 { assert left[i].event.seqNo < left[|left| - 1].event.seqNo; }
      }
    }
    assert left != [] ==> left[|left| - 1].event.seqNo > r.nextCursor;
    AscendingBatch(disk + left, later, |later|, CursorAfter(r.nextCursor, left), ends);
    assert disk + left + [] == disk + left;
  }

  /** The numbers of what was retained before, of what is left, and of what came after. */
  lemma NumbersApart(r: Reader, disk: seq<Stored>, left: seq<Stored>, later: seq<Stored>, r2: Reader, ends: map<nat, nat>, head: nat)
    requires AppendedAfter(r, disk, left, later, r2, ends, head)
    ensures r.nextCursor <= CursorAfter(r.nextCursor, left)
    ensures forall g :: g in left ==> r.nextCursor < g.event.seqNo <= CursorAfter(r.nextCursor, left) && Retention.Continues(ends, g.event)
    ensures forall x :: x in r.events ==> x.event.seqNo <= r.nextCursor
    ensures forall x :: x in later ==> x.event.seqNo > CursorAfter(r.nextCursor, left)
    ensures forall x :: x in r2.events <==> x in r.events || x in later
    ensures if r.events == [] then r2.earliest >= CursorAfter(r.nextCursor, left) else r2.earliest < r.nextCursor
  {
    hide Coherent, Ascending, TotalSize, Ends;
    if r.events != [] { assert r2.events[0] == r.events[0]; } else { assert r2.events == later; }
    assert left != [] ==> left[|left| - 1].event.seqNo > r.nextCursor;
    forall g | g in left ensures r.nextCursor < g.event.seqNo <= CursorAfter(r.nextCursor, left) && Retention.Continues(ends, g.event) {
      var i :| 0 <= i < |left| && left[i] == g;
      if i < |left| - 1 { assert left[i].event.seqNo < left[|left| - 1].event.seqNo; }
    }
  }

  lemma AboveWindow(ends: map<nat, nat>, disk: seq<Stored>, windows: map<nat, nat>, kept: map<nat, nat>, e: Event, head: nat)
    requires Ends(ends, disk, windows) && Retention.Continues(ends, e)
    requires forall id :: id in kept ==> id in windows && kept[id] == windows[id]
    ensures !BelowWindow(kept, e, head)
  {
  }

  /** A whole record that a failed write left is not judged retired while something older is
      retained, and it is if nothing is. */
  lemma LeftJudged(r: Reader, disk: seq<Stored>, left: seq<Stored>, later: seq<Stored>, r2: Reader, ends: map<nat, nat>, head: nat)
    requires AppendedAfter(r, disk, left, later, r2, ends, head)
    ensures forall g :: g in left ==> g !in r2.events && (RetiredOnReload(r2, g.event, head) <==> r.events == [])
    ensures r.events == [] ==> forall s :: s in disk ==> s !in r2.events && s.event.seqNo <= r2.earliest
  {
    NumbersApart(r, disk, left, later, r2, ends, head);
    hide Coherent, Ascending, TotalSize, Continued, Ends, WellKept, FirstBefore;
    forall g | g in left ensures !BelowWindow(r2.windows, g.event, head) {
      AboveWindow(ends, disk, r.windows, r2.windows, g.event, head);
    }
  }

  /** The events read back are those of memory exactly when the windows are kept, nothing is torn,
      and no whole record was left, or nothing older is retained. */
  lemma JudgedAfterFailure(r: Reader, disk: seq<Stored>, left: seq<Stored>, torn: bool, later: seq<Stored>, r2: Reader,
                           ends: map<nat, nat>, head: nat)
    requires AppendedAfter(r, disk, left, later, r2, ends, head)
    ensures Reload(ReadBack(disk, left, torn, later), r2, head) == r2.events <==>
            WindowsKept(r2, disk + later) && !torn && (left == [] || r.events == [])
  {
    hide Ascending, Reload, RetiredOnReload, Ends, Continued, WellKept, FirstBefore, Coherent, WindowsKept, AppendedAfter;
    var all := ReadBack(disk, left, torn, later);
    LeftJudged(r, disk, left, later, r2, ends, head);
    if torn {
      NewestIsLater(r, disk, left, later, r2, ends, head);
      Differs(r2, all, head, later[|later| - 1]);
    } else if left == [] {
      assert disk + left + later == disk + later;
      AgreesAfterAppend(r, disk, left, later, r2, ends, head);
    } else if r.events == [] {
      OnlyLater(r, disk, left, later, r2, ends, head);
    } else {
      assert left[0] in left;
      Differs(r2, all, head, left[0]);
    }
  }

  /** What is retained is not read back, or something else is. */
  lemma Differs(r: Reader, all: seq<Stored>, head: nat, x: Stored)
    requires (x in r.events && x !in all) || (x in all && x !in r.events && !RetiredOnReload(r, x.event, head))
    ensures Reload(all, r, head) != r.events
  {
    ReloadMembers(all, r, head, x);
  }

  lemma AgreesAfterAppend(r: Reader, disk: seq<Stored>, left: seq<Stored>, later: seq<Stored>, r2: Reader, ends: map<nat, nat>, head: nat)
    requires AppendedAfter(r, disk, left, later, r2, ends, head) && left == []
    ensures Reload(disk + later, r2, head) == r2.events <==> WindowsKept(r2, disk + later)
  {
    hide Ascending, Reload, RetiredOnReload, Ends, WellKept, FirstBefore, Coherent, WindowsKept, Continued, Retention.Agrees;
    AscendingReadBack(r, disk, left, false, later, r2, ends, head);
    assert disk + left + later == disk + later;
    WellKeptAscending(r2);
    ReloadIsMemory(r2, disk + later, head);
    AgreesExactly(r2, disk + later, head);
  }

  lemma RetainedJudged(r: Reader, disk: seq<Stored>, head: nat)
    requires Coherent(r, disk, head)
    ensures forall s :: s in r.events ==> !RetiredOnReload(r, s.event, head)
  {
  }

  lemma OnlyLater(r: Reader, disk: seq<Stored>, left: seq<Stored>, later: seq<Stored>, r2: Reader, ends: map<nat, nat>, head: nat)
    requires AppendedAfter(r, disk, left, later, r2, ends, head) && r.events == []
    ensures Reload(ReadBack(disk, left, false, later), r2, head) == r2.events && WindowsKept(r2, disk + later)
  {
    hide Ascending, Reload, Ends, WellKept, FirstBefore, Continued, Coherent, BelowWindow;
    var all := ReadBack(disk, left, false, later);
    LeftJudged(r, disk, left, later, r2, ends, head);
    AscendingReadBack(r, disk, left, false, later, r2, ends, head);
    WellKeptAscending(r2);
    assert r2.events == later;
    RetainedJudged(r2, disk + later, head);
    ReloadIsMemory(r2, all, head);
  }

  lemma NewestIsLater(r: Reader, disk: seq<Stored>, left: seq<Stored>, later: seq<Stored>, r2: Reader, ends: map<nat, nat>, head: nat)
    requires AppendedAfter(r, disk, left, later, r2, ends, head)
    ensures later != [] && later[|later| - 1] in r2.events && later[|later| - 1] !in ReadBack(disk, left, true, later)
  {
    NumbersApart(r, disk, left, later, r2, ends, head);
    hide Coherent, Ascending, Ends, WellKept, Continued;
    assert later[|later| - 1] in later;
  }

  /** A restart from a whole journal is no change at all exactly when every trimmed session has
      its window; otherwise it retains other events. */
  method Restart(f: JournalFile, decode: seq<Byte> -> Decoded) returns (usable: bool, r: Reader)
    requires f.Whole() && Codec(f.encode, decode)
    ensures usable && (r == Closed(f.writer.reader, false) <==> WindowsKept(f.writer.reader, f.writer.disk))
    ensures r.events == f.writer.reader.events <==> WindowsKept(f.writer.reader, f.writer.disk)
  {
    hide Codec, Encoded, Coherent, Continuing, Ends, WellKept, WindowsKept, Indexed, Replay, Closed, Lines, Parse, TotalSize;
    var length;
    usable, r, length := Recover(Persisted(f.writer.reader), f.file, decode, f.writer.head);
    WholeFile(f.encode, decode, f.writer.disk);
    RestartOfWriter(f.writer);
  }

  lemma WholeFile(encode: Event -> seq<Byte>, decode: seq<Byte> -> Decoded, disk: seq<Stored>)
    requires Codec(encode, decode) && Encoded(encode, disk)
    ensures var p := Parse(Lines(encode, EventsOf(disk)), decode); p.usable && !p.damaged && p.records == disk
  {
    StoredAgain(encode, disk);
    hide Parse, Lines, Codec;
    WholeRecords(encode, decode, EventsOf(disk), []);
    assert Lines(encode, EventsOf(disk)) + [] == Lines(encode, EventsOf(disk));
  }

  lemma RestartOfWriter(w: Writer)
    requires w.Valid()
    ensures var r := Closed(Replay(Persisted(w.reader), w.disk, w.reader.nextCursor, w.head), false);
            && (r == Closed(w.reader, false) <==> WindowsKept(w.reader, w.disk))
            && (r.events == w.reader.events <==> WindowsKept(w.reader, w.disk))
  {
    hide Coherent, Continuing, Ends, WellKept, WindowsKept, Indexed, Replay, Closed, TotalSize, Reload, RetiredOnReload, Retention.Agrees, Ascending;
    ReadersOnDisk(w);
    AgreesExactly(w.reader, w.disk, w.head);
    WellKeptAscending(w.reader);
    ReloadIsMemory(w.reader, w.disk, w.head);
    RestartIsIdentity(w.reader, w.disk, w.head);
    ReplayEvents(Persisted(w.reader), w.disk, w.reader.nextCursor, w.head);
    SameJudgement(w.reader, w.disk, w.head);
    ClosedEvents(Replay(Persisted(w.reader), w.disk, w.reader.nextCursor, w.head), false);
    ClosedEvents(w.reader, false);
  }

  /** What the writer takes from the queue at once, and how it goes. */
  datatype Message = Message(batch: seq<Stored>, losses: seq<Gap>, cutoff: int, rewrite: Rewrite)

  function AllOf(messages: seq<Message>): seq<Stored> {
    if messages == [] then [] else AllOf(messages[..|messages| - 1]) + messages[|messages| - 1].batch
  }

  /** The reader after appends that make nothing go. */
  function Drained(r: Reader, messages: seq<Message>): Reader {
    if messages == [] then r
    else
      var m := messages[|messages| - 1];
      Pruned(WithLosses(InsertedAll(Drained(r, messages[..|messages| - 1]), m.batch), m.losses))
  }

  /** None of it is tail output, nothing expires or is over a limit with all of it. */
  ghost predicate AllQuiet(r: Reader, messages: seq<Message>, head: nat, maxBytes: nat) {
    && (forall e :: e in AllOf(messages) ==> !IsTail(e.event, head))
    && (forall m :: m in messages ==> !MustGo(r.events + AllOf(messages), m.cutoff, maxBytes))
  }

  lemma QuietShape(r: Reader, batch: seq<Stored>, losses: seq<Gap>)
    ensures var d := Pruned(WithLosses(InsertedAll(r, batch), losses));
            && d.events == r.events + batch && d.earliest == FirstBefore(d)
            && forall id :: id in d.windows ==> id in r.windows && d.windows[id] == r.windows[id]
  {
    hide InsertedAll, SessionsOf;
    BatchShape(r, batch);
  }

  lemma {:induction false} DrainedShape(r: Reader, messages: seq<Message>)
    ensures var d := Drained(r, messages);
            && d.events == r.events + AllOf(messages) && (messages != [] ==> d.earliest == FirstBefore(d))
            && forall id :: id in d.windows ==> id in r.windows && d.windows[id] == r.windows[id]
  {
    if messages == [] {
      assert r.events + [] == r.events;
    } else {
      hide *;
      var n := |messages| - 1;
      DrainedShape(r, messages[..n]);
      DrainedMore(r, messages, n);
      QuietShape(Drained(r, messages[..n]), messages[n].batch, messages[n].losses);
      assert messages[..n + 1] == messages;
      assert r.events + AllOf(messages[..n]) + messages[n].batch == r.events + (AllOf(messages[..n]) + messages[n].batch);
    }
  }

  lemma DrainedMore(r: Reader, messages: seq<Message>, i: nat)
    requires i < |messages|
    ensures AllOf(messages[..i + 1]) == AllOf(messages[..i]) + messages[i].batch
    ensures Drained(r, messages[..i + 1]) == Pruned(WithLosses(InsertedAll(Drained(r, messages[..i]), messages[i].batch), messages[i].losses))
  {
    assert messages[..i + 1][..i] == messages[..i];
  }

  /** What comes after the first `i` messages. */
  lemma {:induction false} AllOfPrefix(messages: seq<Message>, i: nat) returns (rest: seq<Stored>)
    requires i <= |messages|
    ensures AllOf(messages) == AllOf(messages[..i]) + rest
  {
    if i == |messages| {
      rest := [];
      assert messages[..i] == messages;
    } else {
      rest := AllOfPrefix(messages[..|messages| - 1], i);
      assert messages[..|messages| - 1][..i] == messages[..i];
      rest := rest + messages[|messages| - 1].batch;
    }
  }

  lemma QuietNext(r: Reader, messages: seq<Message>, i: nat, head: nat, maxBytes: nat)
    requires AllQuiet(r, messages, head, maxBytes) && i < |messages|
    ensures Quiet(Drained(r, messages[..i]), messages[i].batch, head, messages[i].cutoff, maxBytes)
  {
    hide Drained, AllOf, TotalSize, IsTail;
    DrainedMore(r, messages, i);
    DrainedShape(r, messages[..i]);
    var rest := AllOfPrefix(messages, i + 1);
    var done, batch := AllOf(messages[..i]), messages[i].batch;
    assert messages[i] in messages;
    Sooner(r.events + done + batch, rest, r.events + AllOf(messages), messages[i].cutoff, maxBytes);
    assert forall e :: e in batch ==> e in done + batch + rest;
  }

  /** With fewer events less has to go. */
  lemma Sooner(some: seq<Stored>, rest: seq<Stored>, all: seq<Stored>, cutoff: int, maxBytes: nat)
    requires all == some + rest
    ensures MustGo(some, cutoff, maxBytes) ==> MustGo(all, cutoff, maxBytes)
  {
    TotalSizeSplit(some, rest);
    hide TotalSize;
  }

  /** The next message can be written. */
  lemma NextAppendable(encode: Event -> seq<Byte>, messages: seq<Message>, i: nat, cursor: nat, ends: map<nat, nat>)
    requires Appendable(AllOf(messages), cursor, ends) && Encoded(encode, AllOf(messages)) && i < |messages|
    ensures var done, batch := AllOf(messages[..i]), messages[i].batch;
            && Appendable(batch, CursorAfter(cursor, done), EndsAll(ends, done)) && Encoded(encode, batch)
            && CursorAfter(cursor, AllOf(messages[..i + 1])) == CursorAfter(CursorAfter(cursor, done), batch)
            && EndsAll(ends, AllOf(messages[..i + 1])) == EndsAll(EndsAll(ends, done), batch)
  {
    hide AllOf, Appendable, EndsAll, CursorAfter, Drained;
    var rest := AllOfPrefix(messages, i + 1);
    var done, batch := AllOf(messages[..i]), messages[i].batch;
    DrainedMore(Blank(), messages, i);
    AppendableSplit(done + batch, rest, cursor, ends);
    AppendableSplit(done, batch, cursor, ends);
    assert forall e :: e in batch ==> e in done + batch + rest;
  }

  /** Where draining stands after the messages `done`, from the reader `r0` and the file `start` on. */
  ghost predicate Draining(f: JournalFile, r0: Reader, disk: seq<Stored>, ends: map<nat, nat>, start: seq<Byte>, done: seq<Message>, rewritten: bool)
    reads f, f.writer
  {
    && f.Valid() && f.writer.reader == Drained(r0, done)
    && f.writer.reader.nextCursor == CursorAfter(r0.nextCursor, AllOf(done)) && f.writer.ends == EndsAll(ends, AllOf(done))
    && if rewritten then f.Whole() && f.writer.Sure()
       else
         && f.writer.disk == disk + AllOf(done) && |f.file| <= f.position
         && Extended(f.file, f.position) == start + Lines(f.encode, EventsOf(AllOf(done)))
         && (AllOf(done) != [] ==> |f.file| == f.position)
  }

  /** Drain the queue after a write that failed; `start` is the file with what that left. */
  method Drain(f: JournalFile, messages: seq<Message>, ghost start: seq<Byte>) returns (rewritten: bool)
    requires f.Valid() && |f.file| <= f.position && Extended(f.file, f.position) == start && forall e :: IsLine(f.encode(e))
    requires Encoded(f.encode, AllOf(messages)) && Appendable(AllOf(messages), f.writer.reader.nextCursor, f.writer.ends)
    requires AllQuiet(f.writer.reader, messages, f.writer.head, f.writer.maxBytes) && AllOf(messages) != []
    modifies f, f.writer
    ensures f.Valid() && f.writer.reader == Drained(old(f.writer.reader), messages)
    ensures rewritten ==> f.Whole() && f.writer.Sure()
    ensures !rewritten ==> f.writer.disk == old(f.writer.disk) + AllOf(messages)
    ensures !rewritten ==> f.file == start + Lines(f.encode, EventsOf(AllOf(messages)))
    ensures old(f.writer.Sure()) ==> f.writer.Sure()
    ensures TotalSize(old(f.writer.disk) + AllOf(messages)) < GC_BYTES / 2 ==> !rewritten
  {
    hide Appendable, Encoded, EndsAll, CursorAfter, AllQuiet, AllOf, Drained, Writer.Valid, Writer.Sure, Lines, Extended, TotalSize, IsLine;
    ghost var r0, disk, ends := f.writer.reader, f.writer.disk, f.writer.ends;
    rewritten := false;
    NoMessages(f.encode, r0, messages, ends);
    assert disk + [] == disk && start + [] == start;
    for i := 0 to |messages|
      invariant Draining(f, r0, disk, ends, start, messages[..i], rewritten)
      invariant old(f.writer.Sure()) ==> f.writer.Sure()
      invariant TotalSize(disk + AllOf(messages)) < GC_BYTES / 2 ==> !rewritten
    {
      hide Draining;
      rewritten := DrainOne(f, messages, i, r0, disk, ends, start, rewritten);
    }
    assert messages[..|messages|] == messages;
    WholeExtended(f.file, f.position);
  }

  method DrainOne(f: JournalFile, messages: seq<Message>, i: nat, ghost r0: Reader, ghost disk: seq<Stored>, ghost ends: map<nat, nat>,
                  ghost start: seq<Byte>, before: bool)
    returns (rewritten: bool)
    requires i < |messages| && Draining(f, r0, disk, ends, start, messages[..i], before) && forall e :: IsLine(f.encode(e))
    requires Encoded(f.encode, AllOf(messages)) && Appendable(AllOf(messages), r0.nextCursor, ends)
    requires AllQuiet(r0, messages, f.writer.head, f.writer.maxBytes)
    modifies f, f.writer
    ensures Draining(f, r0, disk, ends, start, messages[..i + 1], rewritten)
    ensures old(f.writer.Sure()) ==> f.writer.Sure()
    ensures TotalSize(disk + AllOf(messages)) < GC_BYTES / 2 && !before ==> !rewritten
  {
    hide *;
    DrainingIs(f, r0, disk, ends, start, messages[..i], before);
    var m := messages[i];
    QuietNext(r0, messages, i, f.writer.head, f.writer.maxBytes);
    QuietFits(m.batch, f.writer.head, f.writer.tailBytes, f.writer.reader, m.cutoff, f.writer.maxBytes);
    NextAppendable(f.encode, messages, i, r0.nextCursor, ends);
    DrainedMore(r0, messages, i);
    NextBytes(f.encode, f.file, f.position, start, AllOf(messages[..i]), m.batch);
    NotTooLong(disk, messages, i);
    DisksJoin(disk, AllOf(messages[..i]), m.batch);
    var ok;
    ok, rewritten := f.Append(m.batch, m.losses, m.cutoff, m.rewrite);
    rewritten := before || rewritten;
    DrainingIs(f, r0, disk, ends, start, messages[..i + 1], rewritten);
  }

  lemma DisksJoin(disk: seq<Stored>, done: seq<Stored>, batch: seq<Stored>)
    ensures disk + (done + batch) == disk + done + batch
  {
  }

  lemma DrainingIs(f: JournalFile, r0: Reader, disk: seq<Stored>, ends: map<nat, nat>, start: seq<Byte>, done: seq<Message>, rewritten: bool)
    ensures Draining(f, r0, disk, ends, start, done, rewritten) <==>
      && f.Valid() && f.writer.reader == Drained(r0, done)
      && f.writer.reader.nextCursor == CursorAfter(r0.nextCursor, AllOf(done)) && f.writer.ends == EndsAll(ends, AllOf(done))
      && (rewritten ==> f.Whole() && f.writer.Sure())
      && (!rewritten ==> f.writer.disk == disk + AllOf(done) && |f.file| <= f.position)
      && (!rewritten ==> Extended(f.file, f.position) == start + Lines(f.encode, EventsOf(AllOf(done))))
      && (!rewritten && AllOf(done) != [] ==> |f.file| == f.position)
  {
  }

  lemma WholeExtended(file: seq<Byte>, position: nat)
    ensures |file| == position ==> Extended(file, position) == file
  {
  }

  lemma NoMessages(encode: Event -> seq<Byte>, r: Reader, messages: seq<Message>, ends: map<nat, nat>)
    ensures messages[..0] == [] && AllOf([]) == [] && Lines(encode, EventsOf([])) == []
    ensures Drained(r, []) == r && CursorAfter(r.nextCursor, []) == r.nextCursor && EndsAll(ends, []) == ends
  {
    assert EventsOf([]) == [];
  }

  lemma NextBytes(encode: Event -> seq<Byte>, file: seq<Byte>, position: nat, start: seq<Byte>, done: seq<Stored>, batch: seq<Stored>)
    requires forall e :: IsLine(encode(e))
    ensures |file| <= position && Extended(file, position) == start + Lines(encode, EventsOf(done)) ==>
      var bytes := Lines(encode, EventsOf(batch));
      && Extended(Written(file, position, bytes), position + |bytes|) == start + Lines(encode, EventsOf(done + batch))
      && |Written(file, position, bytes)| <= position + |bytes|
      && ((done != [] && |file| == position) || batch != [] ==> |Written(file, position, bytes)| == position + |bytes|)
  {
    hide Written, Extended, Lines, IsLine;
    LinesOfBoth(encode, done, batch);
    SomeLines(encode, batch);
    var before, bytes := Lines(encode, EventsOf(done)), Lines(encode, EventsOf(batch));
    assert start + before + bytes == start + (before + bytes);
    if |file| <= position { WrittenAtEnd(file, position, bytes); }
  }

  lemma SomeLines(encode: Event -> seq<Byte>, batch: seq<Stored>)
    requires forall e :: IsLine(encode(e))
    ensures Lines(encode, EventsOf(batch)) == [] <==> batch == []
  {
    assert batch != [] ==> IsLine(encode(batch[0].event));
  }

  lemma NotTooLong(disk: seq<Stored>, messages: seq<Message>, i: nat)
    requires i < |messages|
    ensures TotalSize(disk + AllOf(messages)) < GC_BYTES / 2 ==>
      forall retained, maxBytes: nat :: !TooLong(TotalSize(disk + AllOf(messages[..i]) + messages[i].batch), retained, maxBytes)
  {
    hide AllOf, TotalSize, Drained;
    DrainedMore(Blank(), messages, i);
    var rest := AllOfPrefix(messages, i + 1);
    var some := disk + AllOf(messages[..i]) + messages[i].batch;
    assert disk + AllOf(messages) == some + rest;
    TotalSizeSplit(some, rest);
  }

  /** A write fails after `n` bytes, what was done about it worked or did not, and the queue is
      drained. If that rewrote the journal, a restart retains what memory retains. Otherwise, with
      appends that make nothing go, it does exactly when every trimmed session has its window
      and the failed write left nothing; or whole records, while memory was empty. */
  method AfterFailedWrite(f: JournalFile, batch: seq<Stored>, n: nat, undo: Undo, messages: seq<Message>, decode: seq<Byte> -> Decoded)
    returns (rewritten: bool, usable: bool, r: Reader, ghost j: nat, ghost tear: seq<Byte>)
    requires f.Whole() && Codec(f.encode, decode) && TearsShow(f.encode, decode) && AllOf(messages) != []
    requires Encoded(f.encode, batch) && Encoded(f.encode, AllOf(messages)) && n <= |Lines(f.encode, EventsOf(batch))|
    requires Appendable(batch, f.writer.reader.nextCursor, f.writer.ends)
    requires Appendable(AllOf(messages), CursorAfter(f.writer.reader.nextCursor, batch), f.writer.ends)
    requires AllQuiet(f.writer.reader, messages, f.writer.head, f.writer.maxBytes)
    modifies f, f.writer
    ensures f.Valid() && usable && f.writer.reader == Drained(old(f.writer.reader), messages)
    ensures TotalSize(old(f.writer.disk) + AllOf(messages)) < GC_BYTES / 2 ==> !rewritten
    ensures old(f.writer.Sure()) ==> f.writer.Sure()
    ensures j <= |batch| && LeftBy(undo, Lines(f.encode, EventsOf(batch))[..n]) == Lines(f.encode, EventsOf(batch[..j])) + tear
    ensures !rewritten ==>
      var p := Parse(f.file, decode);
      && p.usable && p.records == ReadBack(old(f.writer.disk), batch[..j], tear != [], AllOf(messages))
      && r == Closed(Replay(Persisted(f.writer.reader), p.records, f.writer.reader.nextCursor, f.writer.head), tear != [])
    ensures rewritten ==> r.events == f.writer.reader.events
    ensures !rewritten ==>
      var left := LeftBy(undo, Lines(f.encode, EventsOf(batch))[..n]);
      && f.writer.disk == old(f.writer.disk) + AllOf(messages)
      && (r.events == f.writer.reader.events <==>
          WindowsKept(f.writer.reader, f.writer.disk) && (left == [] || (EndsRecord(left) && old(f.writer.reader.events) == [])))
  {
    hide Lines, Parse, Codec, TearsShow, Encoded, AllQuiet, Appendable, Continued, Coherent, Ends, WellKept, Ascending, WindowsKept, Reload,
         RetiredOnReload, Drained, AppendedAfter, Replay, Closed, TotalSize, Extended, Writer.Valid, IsTear, ReadBack,
         LeftBy, EndsRecord, CursorAfter, IsLine, Writer.Sure, AllOf;
    ghost var r0, disk, ends, later := f.writer.reader, f.writer.disk, f.writer.ends, AllOf(messages);
    CodecLines(f.encode, decode);
    j, tear := LeftParts(f.encode, batch, n, undo);
    KeptByWriter(f.writer);
    LaterAppendable(f.writer, batch, j, later);
    f.FailWrite(batch, n, undo);
    rewritten := Drain(f, messages, Lines(f.encode, EventsOf(disk)) + (Lines(f.encode, EventsOf(batch[..j])) + tear));
    var length;
    if rewritten {
      usable, r := Restart(f, decode);
      SureKeeps(f.writer);
    } else {
      EncodedPart(f.encode, batch, batch[..j]);
      ParseAfterFailure(f.encode, decode, disk, batch[..j], tear, later);
      Regrouped(Lines(f.encode, EventsOf(disk)), Lines(f.encode, EventsOf(batch[..j])) + tear, Lines(f.encode, EventsOf(later)));
      usable, r, length := Recover(Persisted(f.writer.reader), f.file, decode, f.writer.head);
      DrainedWriter(f.writer, r0, disk, batch[..j], messages, ends);
      RestartAfterFailure(r0, disk, batch[..j], tear != [], later, f.writer.reader, ends, f.writer.head);
    }
  }

  lemma SureKeeps(w: Writer)
    requires w.Sure()
    ensures WindowsKept(w.reader, w.disk)
  {
  }

  lemma QuietFits(batch: seq<Stored>, head: nat, share: nat, r: Reader, cutoff: int, maxBytes: nat)
    requires Quiet(r, batch, head, cutoff, maxBytes)
    ensures forall e :: e in batch ==> FitsShare(e.event, head, share)
  {
  }

  lemma Regrouped(start: seq<Byte>, left: seq<Byte>, later: seq<Byte>)
    ensures start + left + later == start + (left + later)
  {
  }

  lemma KeptByWriter(w: Writer)
    requires w.Valid()
    ensures WellKept(w.reader) && Ascending(w.disk) && (forall s :: s in w.disk ==> s.event.seqNo <= w.reader.nextCursor)
    ensures Ends(w.ends, w.disk, w.reader.windows) && Coherent(w.reader, w.disk, w.head)
  {
  }

  lemma LaterAppendable(w: Writer, batch: seq<Stored>, j: nat, later: seq<Stored>)
    requires w.Valid() && j <= |batch| && Appendable(batch, w.reader.nextCursor, w.ends)
    requires Appendable(later, CursorAfter(w.reader.nextCursor, batch), w.ends)
    ensures Appendable(later, w.reader.nextCursor, w.ends)
    ensures Continued(batch[..j], w.reader.nextCursor, w.ends)
    ensures Continued(later, CursorAfter(w.reader.nextCursor, batch[..j]), w.ends)
  {
    hide Writer.Valid;
    AppendableContinues(batch, w.reader.nextCursor, w.ends);
    AppendableContinues(later, CursorAfter(w.reader.nextCursor, batch), w.ends);
    assert w.reader.nextCursor <= CursorAfter(w.reader.nextCursor, batch[..j]) <= CursorAfter(w.reader.nextCursor, batch);
  }

  lemma DrainedWriter(w: Writer, r0: Reader, disk: seq<Stored>, left: seq<Stored>, messages: seq<Message>, ends: map<nat, nat>)
    requires WellKept(r0) && Ascending(disk) && (forall s :: s in disk ==> s.event.seqNo <= r0.nextCursor) && Ends(ends, disk, r0.windows)
    requires Continued(left, r0.nextCursor, ends) && Continued(AllOf(messages), CursorAfter(r0.nextCursor, left), ends) && AllOf(messages) != []
    requires w.Valid() && w.disk == disk + AllOf(messages) && w.reader == Drained(r0, messages)
    ensures AppendedAfter(r0, disk, left, AllOf(messages), w.reader, ends, w.head)
  {
    hide *;
    SomeMessage(messages);
    KeptByWriter(w);
    DrainedShape(r0, messages);
    IsAppended(r0, disk, left, AllOf(messages), w.reader, ends, w.head);
  }

  lemma SomeMessage(messages: seq<Message>)
    ensures AllOf(messages) != [] ==> messages != []
  {
  }

  lemma IsAppended(r: Reader, disk: seq<Stored>, left: seq<Stored>, later: seq<Stored>, r2: Reader, ends: map<nat, nat>, head: nat)
    requires WellKept(r) && Ascending(disk) && (forall s :: s in disk ==> s.event.seqNo <= r.nextCursor) && Ends(ends, disk, r.windows)
    requires Continued(left, r.nextCursor, ends) && Continued(later, CursorAfter(r.nextCursor, left), ends) && later != []
    requires WellKept(r2) && Coherent(r2, disk + later, head) && r2.events == r.events + later && r2.earliest == FirstBefore(r2)
    requires forall id :: id in r2.windows ==> id in r.windows && r2.windows[id] == r.windows[id]
    ensures AppendedAfter(r, disk, left, later, r2, ends, head)
  {
    hide WellKept, Ascending, Ends, Continued, Coherent, CursorAfter, FirstBefore;
  }

  lemma RestartAfterFailure(r0: Reader, disk: seq<Stored>, left: seq<Stored>, torn: bool, later: seq<Stored>, r: Reader,
                            ends: map<nat, nat>, head: nat)
    requires AppendedAfter(r0, disk, left, later, r, ends, head)
    ensures Closed(Replay(Persisted(r), ReadBack(disk, left, torn, later), r.nextCursor, head), torn).events == r.events <==>
            WindowsKept(r, disk + later) && !torn && (left == [] || r0.events == [])
  {
    hide AppendedAfter, Replay, Closed, Reload, WindowsKept, Ascending, ReadBack, TotalSize;
    var all := ReadBack(disk, left, torn, later);
    AscendingReadBack(r0, disk, left, torn, later, r, ends, head);
    ReplayEvents(Persisted(r), all, r.nextCursor, head);
    ClosedEvents(Replay(Persisted(r), all, r.nextCursor, head), torn);
    SameJudgement(r, all, head);
    JudgedAfterFailure(r0, disk, left, torn, later, r, ends, head);
  }

  // ---------------------------------------------------------------- whole runs

  datatype FileStep =
    | Append(batch: seq<Stored>, losses: seq<Gap>, cutoff: int, rewrite: Rewrite)
    | Fail(batch: seq<Stored>, n: nat, undo: Undo)

  /** Every batch continues the journal; what failed gave its numbers away. */
  ghost predicate Feasible(encode: Event -> seq<Byte>, steps: seq<FileStep>, cursor: nat, ends: map<nat, nat>)
    decreases |steps|
  {
    steps == [] ||
    (var batch := steps[0].batch;
     if steps[0].Append? then
       && Encoded(encode, batch) && Appendable(batch, cursor, ends)
       && Feasible(encode, steps[1..], CursorAfter(cursor, batch), EndsAll(ends, batch))
     else
       steps[0].n <= |Lines(encode, EventsOf(batch))| && Feasible(encode, steps[1..], cursor, ends))
  }

  /** The failed write was undone, or it left nothing. */
  predicate LeavesNothing(encode: Event -> seq<Byte>, step: FileStep) {
    step.Fail? && step.n <= |Lines(encode, EventsOf(step.batch))| ==> LeftBy(step.undo, Lines(encode, EventsOf(step.batch))[..step.n]) == []
  }

  predicate StepFits(step: FileStep, head: nat, share: nat) {
    step.Append? ==> forall e | e in step.batch :: FitsShare(e.event, head, share)
  }

  /** Any run of appends and failed writes: while no failed write leaves anything, the journal is
      whole, and a restart is no change at all exactly when every trimmed session has its window;
      so it is always if no output exceeds its session's share. */
  method Run(f: JournalFile, steps: seq<FileStep>, decode: seq<Byte> -> Decoded) returns (usable: bool, r: Reader)
    requires f.Whole() && Codec(f.encode, decode) && Feasible(f.encode, steps, f.writer.reader.nextCursor, f.writer.ends)
    requires forall step :: step in steps ==> LeavesNothing(f.encode, step)
    modifies f, f.writer
    ensures f.Whole() && usable
    ensures r == Closed(f.writer.reader, false) <==> WindowsKept(f.writer.reader, f.writer.disk)
    ensures r.events == f.writer.reader.events <==> WindowsKept(f.writer.reader, f.writer.disk)
    ensures old(f.writer.Sure()) && (forall step :: step in steps ==> StepFits(step, f.writer.head, f.writer.tailBytes)) ==>
      f.writer.Sure() && r == Closed(f.writer.reader, false)
  {
    hide Codec, Encoded, Lines, Appendable, EndsAll, CursorAfter, Closed, WindowsKept, Writer.Valid, JournalFile.Whole, FitsShare, LeftBy, Quiet,
         Pruned, InsertedAll, WithLosses, TooLong, Accounted, Covered, Has, Written, TotalSize, Feasible;
    ghost var fit := forall step :: step in steps ==> StepFits(step, f.writer.head, f.writer.tailBytes);
    ghost var rest := steps;
    for i := 0 to |steps|
      invariant rest == steps[i..] && f.Whole() && Feasible(f.encode, rest, f.writer.reader.nextCursor, f.writer.ends)
      invariant old(f.writer.Sure()) && fit ==> f.writer.Sure()
    {
      assert rest[0] == steps[i] && steps[i] in steps;
      FeasibleHead(f.encode, rest, f.writer.reader.nextCursor, f.writer.ends);
      IsValid(f);
      match steps[i] {
        case Append(batch, losses, cutoff, rewrite) => var _, _ := f.Append(batch, losses, cutoff, rewrite);
        case Fail(batch, n, undo) => f.FailWrite(batch, n, undo);
      }
      rest := rest[1..];
    }
    usable, r := Restart(f, decode);
  }

  lemma IsValid(f: JournalFile)
    requires f.Whole()
    ensures f.Valid()
  {
  }

  lemma FeasibleHead(encode: Event -> seq<Byte>, steps: seq<FileStep>, cursor: nat, ends: map<nat, nat>)
    requires Feasible(encode, steps, cursor, ends) && steps != []
    ensures var batch := steps[0].batch;
            if steps[0].Append? then
              && Encoded(encode, batch) && Appendable(batch, cursor, ends)
              && Feasible(encode, steps[1..], CursorAfter(cursor, batch), EndsAll(ends, batch))
            else
              steps[0].n <= |Lines(encode, EventsOf(batch))| && Feasible(encode, steps[1..], cursor, ends)
  {
  }

  // ---------------------------------------------------------------- lost after a tear

  function Nth(encode: Event -> seq<Byte>, n: nat): Stored {
    var e := Event(n, Other, None, None, 0, 0, 0, "");
    Stored(e, |encode(e)|)
  }

  lemma OneQuiet(r: Reader, e: Stored)
    requires r.events == [] || (|r.events| == 1 && r.events[0].event.timestamp == 0 && r.events[0].size <= EVENT_LIMIT)
    requires e.event.kind == Other && e.event.timestamp == 0 && e.size <= EVENT_LIMIT
    ensures Quiet(r, [e], 0, 0, 1_000_000)
    ensures TotalSize(r.events + [e]) < GC_BYTES / 2 && forall retained :: !TooLong(TotalSize(r.events + [e]), retained, 1_000_000)
  {
    AppendEffect(r.events, e, 0);
    if r.events != [] { assert r.events[..0] == []; }
  }

  ghost predicate Small(encode: Event -> seq<Byte>) {
    forall n: nat :: 1 <= n <= 3 ==> 1 < Nth(encode, n).size <= EVENT_LIMIT
  }

  lemma NthIsPlain(encode: Event -> seq<Byte>, n: nat)
    requires 1 <= n <= 3 && Small(encode)
    ensures var s := Nth(encode, n);
            && s.event.seqNo == n && s.event.kind == Other && s.event.timestamp == 0 && 1 < s.size == |encode(s.event)| <= EVENT_LIMIT
  {
    assert Nth(encode, n).size <= EVENT_LIMIT;
  }

  lemma OneAppendable(encode: Event -> seq<Byte>, n: nat, cursor: nat, ends: map<nat, nat>)
    requires 1 <= n <= 3 && cursor < n && Small(encode)
    ensures var batch := [Nth(encode, n)];
            && Appendable(batch, cursor, ends) && Encoded(encode, batch) && CursorAfter(cursor, batch) == n
            && EventsOf(batch) == [Nth(encode, n).event]
            && Lines(encode, EventsOf(batch)) == encode(Nth(encode, n).event)
  {
    var batch := [Nth(encode, n)];
    assert batch[1..] == [] && Nth(encode, n).size > 1;
    assert EventsOf(batch) == [Nth(encode, n).event] && [Nth(encode, n).event][1..] == [];
  }

  /** The failing case: number 1 is durable; one byte of number 2 was written, could not be taken
      back, and the number was reported lost; number 3 was queued already, is written after that
      byte, becomes readable, and is persisted. After the restart it is neither readable nor
      reported lost, although there is no number between the persisted cursor and the last
      durable event. */
  method LostAfterTear(encode: Event -> seq<Byte>, decode: seq<Byte> -> Decoded) returns (f: JournalFile, r: Reader)
    requires Codec(encode, decode) && TearsShow(encode, decode) && Small(encode)
    ensures fresh(f) && f.Valid() && f.encode == encode && f.writer.Sure() && f.writer.head == 0 && f.writer.reader.nextCursor == 3
    ensures f.writer.reader.events == [Nth(encode, 1), Nth(encode, 3)] && f.writer.reader.gaps == [Gap(1, 2, DiskError)]
    ensures Settled(f.writer.reader)
    ensures var p := Parse(f.file, decode);
            && p.usable && p.records == [Nth(encode, 1)] && Known(Persisted(f.writer.reader), p.records)
            && r == Closed(Replay(Persisted(f.writer.reader), p.records, 3, 0), true)
    ensures r.events == [Nth(encode, 1)] && r.nextCursor == 4 && !Accounted(r, 3)
  {
    hide Codec, TearsShow, Encoded, Appendable, Lines, Small, Quiet, TooLong, TotalSize, Pruned, WithLosses, InsertedAll, Writer.Valid, Writer.Sure,
         Parse, Replay, Closed, WindowsKept, Written, LeftBy, EndsRecord, CursorAfter, Nth, EndsAll, Known, Accounted, FitsShare, Settled,
         AddAll, AddGap, FirstBefore, ReadBack, AllQuiet, Drained, AllOf;
    var one, two, three := Nth(encode, 1), Nth(encode, 2), Nth(encode, 3);
    NthIsPlain(encode, 1);
    NthIsPlain(encode, 2);
    NthIsPlain(encode, 3);
    f := OneDurable(encode);
    ghost var before := f.writer.reader;
    OneAppendable(encode, 2, 1, f.writer.ends);
    OneAppendable(encode, 3, 2, f.writer.ends);
    OneQuiet(before, three);
    OneByteLeft(encode, two);
    QuietFields(before, three, [Gap(1, 2, DiskError)]);
    var rewritten, usable;
    ghost var j, tear;
    var queued := [Message([three], [Gap(1, 2, DiskError)], 0, Synced)];
    OneMessage(before, queued[0]);
    rewritten, usable, r, j, tear := AfterFailedWrite(f, [two], 1, NotTruncated, queued, decode);
    TornAtOnce(encode, one, two, three, j, tear);
    RestartLosesThree(f.writer.reader, one, three);
  }

  lemma OneMessage(r: Reader, m: Message)
    ensures AllOf([m]) == m.batch && Drained(r, [m]) == Pruned(WithLosses(InsertedAll(r, m.batch), m.losses))
    ensures forall head, maxBytes :: Quiet(r, m.batch, head, m.cutoff, maxBytes) ==> AllQuiet(r, [m], head, maxBytes)
  {
    assert [m][..0] == [] && [] + m.batch == m.batch;
  }

  method OneDurable(encode: Event -> seq<Byte>) returns (f: JournalFile)
    requires Small(encode)
    ensures fresh(f) && fresh(f.writer) && f.Whole() && f.writer.Sure() && f.encode == encode && f.writer.head == 0 && f.writer.maxBytes == 1_000_000
    ensures f.writer.reader.events == f.writer.disk == [Nth(encode, 1)] && f.writer.reader.nextCursor == 1 && f.writer.reader.gaps == []
    ensures f.writer.reader.bytes == Nth(encode, 1).size
  {
    hide Encoded, Appendable, Lines, Small, Quiet, TooLong, TotalSize, Pruned, WithLosses, InsertedAll, Writer.Valid, Writer.Sure, Parse,
         WindowsKept, Written, CursorAfter, Nth, EndsAll, Accounted, FitsShare;
    NthIsPlain(encode, 1);
    f := new JournalFile(encode, 0, 1, 1_000_000);
    var one := Nth(encode, 1);
    ghost var before := f.writer.reader;
    OneAppendable(encode, 1, 0, f.writer.ends);
    OneQuiet(before, one);
    QuietFits([one], 0, 1, before, 0, 1_000_000);
    QuietFields(before, one, []);
    var _, rewritten := f.Append([one], [], 0, Synced);
  }

  lemma QuietFields(r: Reader, e: Stored, losses: seq<Gap>)
    ensures var r2 := Pruned(WithLosses(InsertedAll(r, [e]), losses));
            && r2.events == r.events + [e] && r2.bytes == r.bytes + e.size && r2.nextCursor == Max(r.nextCursor, e.event.seqNo)
            && r2.gaps == AddAll(r.gaps, losses) && r2.earliest == FirstBefore(r2)
  {
    assert [e][..0] == [];
  }

  lemma OneByteLeft(encode: Event -> seq<Byte>, e: Stored)
    ensures Lines(encode, EventsOf([e])) == encode(e.event)
  {
    assert EventsOf([e]) == [e.event] && [e.event][1..] == [];
  }

  lemma TornAtOnce(encode: Event -> seq<Byte>, before: Stored, e: Stored, later: Stored, j: nat, tear: seq<Byte>)
    requires |encode(e.event)| > 1 && j <= 1
    requires LeftBy(NotTruncated, Lines(encode, EventsOf([e]))[..1]) == Lines(encode, EventsOf([e][..j])) + tear
    ensures tear != [] && ReadBack([before], [e][..j], true, [later]) == [before]
    ensures AddAll([], [Gap(1, 2, DiskError)]) == [Gap(1, 2, DiskError)]
  {
    OneByteLeft(encode, e);
    assert [e][..1] == [e] && [e][..0] == [];
  }

  /** Memory holds numbers 1 and 3 and a gap for 2; the journal reads back number 1 only. */
  lemma RestartLosesThree(r: Reader, one: Stored, three: Stored)
    requires r.events == [one, three] && r.nextCursor == 3 && r.gaps == [Gap(1, 2, DiskError)] && r.earliest == FirstBefore(r)
    requires one.event.seqNo == 1 && one.event.kind == Other && three.event.seqNo == 3
    ensures Settled(r) && Known(Persisted(r), [one])
    ensures var after := Closed(Replay(Persisted(r), [one], 3, 0), true);
            after.events == [one] && after.nextCursor == 4 && !Accounted(after, 3)
  {
    assert [one][..0] == [];
    assert Replay(Persisted(r), [one], 3, 0) == ReplayOne(Persisted(r), one, 3, 0);
    assert Furthest(r.gaps) == 2;
    forall n | 1 <= n <= 3 ensures Accounted(r, n) {
      if n == 1 { assert r.events[0].event.seqNo == n; }
      else if n == 2 { assert InGap(r.gaps[0], n); }
      else { assert r.events[1].event.seqNo == n; }
    }
  }

  // ---------------------------------------------------------------- the next process

  lemma {:induction false} ParsedSizes(disk: seq<Byte>, decode: seq<Byte> -> Decoded)
    ensures forall s :: s in Parse(disk, decode).records ==> 1 <= s.event.seqNo && 1 <= s.size <= EVENT_LIMIT
    decreases |disk|
  {
    var line := FirstLine(disk, EVENT_LIMIT + 1);
    if line != [] && IsRecord(line, decode) && IsUsable(decode(line)) { ParsedSizes(disk[|line|..], decode); }
  }

  /** A journal that was found, whatever process wrote it, is gone on with if every number is still
      known; numbers that were given out are not given out again. */
  method Reopen(state: Reader, file: seq<Byte>, decode: seq<Byte> -> Decoded, head: nat, cursor: nat, ghost given: set<nat>)
    returns (j: Journal.Journal)
    requires state.events == [] && state.bytes == 0 && |state.gaps| <= MAX_GAPS
    requires Parse(file, decode).usable && Ascending(Parse(file, decode).records)
    requires forall s :: s in Parse(file, decode).records && s.event.seqNo > state.nextCursor ==> !RetiredOnReload(state, s.event, head)
    requires StillKnown(state, Parse(file, decode).records, head) && Known(state, Parse(file, decode).records)
    requires cursor <= state.nextCursor && Journal.Followed(cursor, given, state.gaps, [])
    ensures fresh(j) && j.Valid() && j.Flight() == [] && !j.inserting && !j.stopped && !j.finished
    ensures j.reader == Closed(Replay(state, Parse(file, decode).records, state.nextCursor, head), Parse(file, decode).damaged)
    ensures j.cursor == cursor && j.given == given && j.producer == j.reader.nextCursor >= state.nextCursor
    ensures forall s :: s in Parse(file, decode).records ==> s.event.seqNo <= j.producer
    ensures Within(state.gaps, j.producer)
  {
    hide Replay, Closed, Parse, Ascending, Reload, RetiredOnReload, Settled, StillKnown, Known, WellKept, Covered;
    ghost var p := Parse(file, decode);
    var usable, r, length := Recover(state, file, decode, head);
    ParsedSizes(file, decode);
    RecoveredIsKept(state, p.records, p.damaged, head);
    FreshNumbers(state, p.records, p.damaged, head);
    CoverageAfterCrash(state, p.records, p.damaged, head);
    Journal.StillFollowed(cursor, given, state.gaps, [], r.gaps, []);
    j := new Journal.Journal.Recovered(r, cursor, given);
  }

  /** The process dies after any number of bytes of a batch, the next one recovers, and then any
      steps are taken: no number is forgotten, and a collector that goes on with its cursor never
      has to go back, over the crash as well. */
  method CrashAndGoOn(w: Writer, ghost batch: seq<Stored>, ghost n: nat, ghost encode: Event -> seq<Byte>, decode: seq<Byte> -> Decoded,
                      file: seq<Byte>, cursor: nat, ghost given: set<nat>, steps: seq<Journal.Step>, size: Event -> nat)
    returns (j: Journal.Journal)
    requires w.Valid() && WindowsKept(w.reader, w.disk) && Settled(w.reader) && Appendable(batch, w.reader.nextCursor, w.ends)
    requires Codec(encode, decode) && Encoded(encode, w.disk) && Encoded(encode, batch)
    requires n <= |Lines(encode, EventsOf(batch))| && file == Lines(encode, EventsOf(w.disk)) + Lines(encode, EventsOf(batch))[..n]
    requires forall i :: 0 <= i <= |batch| ==> KnownBetween(w.reader, batch[..i])
    requires cursor <= w.reader.nextCursor && Journal.Followed(cursor, given, w.reader.gaps, [])
    requires forall e :: size(e) >= 1
    ensures fresh(j) && j.Valid() && j.producer >= w.reader.nextCursor
    ensures Journal.NeverSkips(Journal.Moment(w.reader.events, cursor, given), j.Now())
  {
    hide Codec, Encoded, Appendable, Parse, Replay, Closed, Lines, WellKept, Settled, KnownBetween, Within, Covered, Writer.Valid, WindowsKept,
         Ascending;
    var usable, r, length := Recover(Persisted(w.reader), file, decode, w.head);
    ghost var k, torn, r' := CoverageDuringAppend(w, batch, n, encode, decode);
    assert r == r';
    assert KnownBetween(w.reader, batch[..k]);
    Journal.StillFollowed(cursor, given, w.reader.gaps, [], r.gaps, []);
    ghost var before := Journal.Moment(w.reader.events, cursor, given);
    j := new Journal.Journal.Recovered(r, cursor, given);
    NothingSkipped(w.reader, batch, k, w.ends, cursor, given);
    ghost var log := Journal.Run(j, steps, size);
    Journal.NeverSkipsTransitive(before, log[0], j.Now());
  }

  lemma NothingSkipped(r: Reader, batch: seq<Stored>, k: nat, ends: map<nat, nat>, cursor: nat, given: set<nat>)
    requires Appendable(batch, r.nextCursor, ends) && k <= |batch| && cursor <= r.nextCursor
    ensures Journal.NeverSkips(Journal.Moment(r.events, cursor, given), Journal.Moment(r.events + batch[..k], cursor, given))
  {
    AppendableContinues(batch, r.nextCursor, ends);
    forall n: nat | Has(r.events + batch[..k], n) && !Has(r.events, n) ensures n > cursor {
      HasSplit(r.events, batch[..k], n);
      var i :| 0 <= i < k && batch[i].event.seqNo == n;
    }
  }
}
