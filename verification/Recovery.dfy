/** Recovery: replaying the journal file over the persisted state after a restart. */
module Recovery {
  import opened Collections
  import opened Paths
  import opened Gaps
  import opened HistoryReader
  import opened Retention
  import opened Utf8

  const NEWLINE: Byte := 10

  /** What a line of the journal reads as: no event at all, an event whose data is no object, or
      an event that can be used. */
  datatype Decoded = NoEvent | NoObject | Read(event: Event)

  /** One event per line: the line ends with its only newline and reads back as the event. */
  ghost predicate Codec(encode: Event -> seq<Byte>, decode: seq<Byte> -> Decoded) {
    forall e :: IsLine(encode(e)) && decode(encode(e)) == Read(e)
  }

  predicate IsLine(line: seq<Byte>) {
    line != [] && line[|line| - 1] == NEWLINE && forall i | 0 <= i < |line| - 1 :: line[i] != NEWLINE
  }

  /** The lines of a journal. */
  function Lines(encode: Event -> seq<Byte>, events: seq<Event>): seq<Byte> {
    if events == [] then [] else encode(events[0]) + Lines(encode, events[1..])
  }

  /** What is left of a record whose write was cut short. */
  ghost predicate IsCut(encode: Event -> seq<Byte>, cut: seq<Byte>) {
    cut == [] || exists e :: Fits(encode, e) && cut < encode(e)
  }

  ghost predicate Fits(encode: Event -> seq<Byte>, e: Event) {
    e.seqNo > 0 && |encode(e)| <= EVENT_LIMIT
  }

  // ---------------------------------------------------------------- what recovery makes of it

  /** `BTreeMap::insert`. */
  function Placed(s: seq<Stored>, e: Stored): seq<Stored> {
    if s == [] || s[|s| - 1].event.seqNo < e.event.seqNo then s + [e]
    else if s[|s| - 1].event.seqNo == e.event.seqNo then s[..|s| - 1] + [e]
    else Placed(s[..|s| - 1], e) + [s[|s| - 1]]
  }

  /** One record of the journal, `persisted` being the cursor of the state read back. */
  function ReplayOne(r: Reader, e: Stored, persisted: nat, head: nat): Reader {
    var retired := RetiredOnReload(r, e.event, head);
    r.(nextCursor := Max(r.nextCursor, e.event.seqNo),
       open := if e.event.seqNo > persisted then Lifecycle(r.open, e.event) else r.open,
       events := if retired then r.events else Placed(r.events, e),
       bytes := if retired then r.bytes else r.bytes + e.size)
  }

  function Replay(r: Reader, disk: seq<Stored>, persisted: nat, head: nat): Reader {
    if disk == [] then r else ReplayOne(Replay(r, disk[..|disk| - 1], persisted, head), disk[|disk| - 1], persisted, head)
  }

  /** Losses that were reported while older events were still queued keep their numbers; a
      torn record costs one number more. */
  function Closed(r: Reader, damaged: bool): Reader {
    var ahead := Max(r.nextCursor, Furthest(r.gaps));
    var gaps := if ahead > r.nextCursor then AddGap(r.gaps, r.nextCursor + 1, ahead, RestartUncommitted) else r.gaps;
    if damaged then
      r.(nextCursor := ahead + 1, gaps := AddGap(gaps, ahead + 1, ahead + 1, IncompleteTail), partial := true)
    else
      r.(nextCursor := ahead, gaps := gaps)
  }

  function StoredOf(encode: Event -> seq<Byte>, events: seq<Event>): (r: seq<Stored>)
    ensures |r| == |events| && forall i :: 0 <= i < |r| ==> r[i] == Stored(events[i], |encode(events[i])|)
  {
    seq(|events|, i requires 0 <= i < |events| => Stored(events[i], |encode(events[i])|))
  }

  // ---------------------------------------------------------------- reading the file

  /** What `read_until` delivers: up to and with the next newline, at most `limit` bytes. */
  ghost predicate IsFirstLine(disk: seq<Byte>, limit: nat, line: seq<Byte>) {
    && line <= disk && |line| <= limit && (forall i :: 0 <= i < |line| - 1 ==> line[i] != NEWLINE)
    && (IsLine(line) || |line| == limit || |line| == |disk|)
  }

  ghost function FirstLine(disk: seq<Byte>, limit: nat): (line: seq<Byte>)
    ensures IsFirstLine(disk, limit, line)
  {
    if disk == [] || limit == 0 then []
    else if disk[0] == NEWLINE then [disk[0]]
    else
      var rest := FirstLine(disk[1..], limit - 1);
      assert forall i :: 0 < i < |rest| + 1 ==> ([disk[0]] + rest)[i] == rest[i - 1];
      [disk[0]] + rest
  }

  lemma FirstLineUnique(disk: seq<Byte>, limit: nat, a: seq<Byte>, b: seq<Byte>)
    requires IsFirstLine(disk, limit, a) && IsFirstLine(disk, limit, b)
    ensures a == b
  {
    if |a| < |b| { EndsFirst(disk, limit, a, b); }
    if |b| < |a| { EndsFirst(disk, limit, b, a); }
  }

  lemma EndsFirst(disk: seq<Byte>, limit: nat, a: seq<Byte>, b: seq<Byte>)
    requires IsFirstLine(disk, limit, a) && IsFirstLine(disk, limit, b)
    ensures |a| >= |b|
  {
  }

  method ReadLine(disk: seq<Byte>, position: nat, limit: nat) returns (line: seq<Byte>)
    requires position <= |disk|
    ensures position + |line| <= |disk| && line == FirstLine(disk[position..], limit)
  {
    var i := position;
    while i < |disk| && i - position < limit
      invariant position <= i <= |disk| && i - position <= limit
      invariant forall k :: position <= k < i ==> disk[k] != NEWLINE
    {
      i := i + 1;
      if disk[i - 1] == NEWLINE { break; }
    }
    line := disk[position..i];
    assert line == disk[position..][..i - position];
    FirstLineUnique(disk[position..], limit, line, FirstLine(disk[position..], limit));
  }

  /** What a journal file of any content holds: its whole records up to the first line that is
      none, the length of those, and whether anything follows. A record without a number, or with
      data that is no object, makes the file unusable. */
  datatype Parsed = Parsed(records: seq<Stored>, length: nat, damaged: bool, usable: bool)

  /** The line is a record. */
  ghost predicate IsRecord(line: seq<Byte>, decode: seq<Byte> -> Decoded) {
    |line| <= EVENT_LIMIT && IsLine(line) && !decode(line).NoEvent?
  }

  /** The record can be replayed. */
  predicate IsUsable(d: Decoded) {
    d.Read? && d.event.seqNo > 0
  }

  ghost function Parse(disk: seq<Byte>, decode: seq<Byte> -> Decoded): (p: Parsed)
    ensures p.length <= |disk|
    decreases |disk|
  {
    var line := FirstLine(disk, EVENT_LIMIT + 1);
    if line == [] then Parsed([], 0, false, true)
    else if !IsRecord(line, decode) then Parsed([], 0, true, true)
    else if !IsUsable(decode(line)) then Parsed([], 0, false, false)
    else After(Stored(decode(line).event, |line|), Parse(disk[|line|..], decode))
  }

  /** One more record in front. */
  function After(e: Stored, rest: Parsed): Parsed {
    rest.(records := [e] + rest.records, length := e.size + rest.length)
  }

  /** The file starts with these records, one line each, and `p` says what follows them. */
  ghost predicate Holds(disk: seq<Byte>, decode: seq<Byte> -> Decoded, p: Parsed, lines: seq<seq<Byte>>) {
    && |lines| == |p.records| && p.length <= |disk| && disk[..p.length] == Concat(lines)
    && (forall i :: 0 <= i < |lines| ==> HoldsRecord(lines[i], decode, p.records[i]))
    && var rest := disk[p.length..];
       && (p.damaged <==> rest != [] && forall k: nat :: StartsWithLine(rest, k) ==> decode(rest[..k]).NoEvent?)
       && (!p.usable <==> exists k: nat :: StartsWithLine(rest, k) && Refused(decode(rest[..k])))
       && (p.usable && !p.damaged ==> rest == [])
  }

  /** The first `k` bytes are a line within the limit on an event. */
  ghost predicate StartsWithLine(disk: seq<Byte>, k: nat) {
    k <= |disk| && k <= EVENT_LIMIT && IsLine(disk[..k])
  }

  /** The line, within the limit on an event, reads as the record, which has a number. */
  ghost predicate HoldsRecord(line: seq<Byte>, decode: seq<Byte> -> Decoded, s: Stored) {
    |line| <= EVENT_LIMIT && IsLine(line) && decode(line) == Read(s.event) && s.event.seqNo > 0 && s.size == |line|
  }

  ghost predicate Refused(d: Decoded) {
    d == NoObject || (d.Read? && d.event.seqNo == 0)
  }

  /** At most one line starts a file. */
  lemma OneLine(disk: seq<Byte>, k: nat, line: seq<Byte>)
    requires StartsWithLine(disk, k) && line == FirstLine(disk, EVENT_LIMIT + 1)
    ensures disk[..k] == line
  {
    var l := disk[..k];
    assert forall i :: 0 <= i < |l| ==> l[i] == disk[i];
    FirstLineUnique(disk, EVENT_LIMIT + 1, l, line);
  }

  /** What is read of a file, said of the lines that it is made of. */
  lemma {:induction false} ParseMeaning(disk: seq<Byte>, decode: seq<Byte> -> Decoded) returns (lines: seq<seq<Byte>>)
    ensures Holds(disk, decode, Parse(disk, decode), lines)
    decreases |disk|
  {
    var line := FirstLine(disk, EVENT_LIMIT + 1);
    if line != [] && IsRecord(line, decode) && IsUsable(decode(line)) {
      var rest := ParseMeaning(disk[|line|..], decode);
      lines := [line] + rest;
      HoldsMore(line, disk[|line|..], decode, Parse(disk[|line|..], decode), rest);
      assert disk == line + disk[|line|..];
    } else {
      lines := [];
      HoldsNone(disk, decode, line);
    }
  }

  lemma HoldsMore(line: seq<Byte>, disk: seq<Byte>, decode: seq<Byte> -> Decoded, p: Parsed, rest: seq<seq<Byte>>)
    requires IsRecord(line, decode) && IsUsable(decode(line)) && Holds(disk, decode, p, rest)
    ensures Holds(line + disk, decode, After(Stored(decode(line).event, |line|), p), [line] + rest)
  {
    hide IsLine, HoldsRecord;
    var all, e := line + disk, Stored(decode(line).event, |line|);
    var q := After(e, p);
    assert all[..q.length] == line + disk[..p.length];
    assert all[q.length..] == disk[p.length..];
    assert ([line] + rest)[1..] == rest;
    assert HoldsRecord(line, decode, e) by { IsOneRecord(line, decode, e); }
  }

  lemma IsOneRecord(line: seq<Byte>, decode: seq<Byte> -> Decoded, e: Stored)
    requires IsRecord(line, decode) && IsUsable(decode(line)) && e == Stored(decode(line).event, |line|)
    ensures HoldsRecord(line, decode, e)
  {
  }

  lemma HoldsNone(disk: seq<Byte>, decode: seq<Byte> -> Decoded, line: seq<Byte>)
    requires line == FirstLine(disk, EVENT_LIMIT + 1) && (line == [] || !IsRecord(line, decode) || !IsUsable(decode(line)))
    ensures Holds(disk, decode, Parse(disk, decode), [])
  {
    var p := Parse(disk, decode);
    assert p == Parsed([], 0, line != [] && !IsRecord(line, decode), line == [] || !IsRecord(line, decode));
    hide Parse, FirstLine, IsLine, StartsWithLine, IsRecord, IsUsable;
    FirstIsLine(disk, decode, line);
    assert disk[0..] == disk;
    forall k: nat | StartsWithLine(disk, k) ensures disk[..k] == line { OneLine(disk, k, line); }
  }

  lemma FirstIsLine(disk: seq<Byte>, decode: seq<Byte> -> Decoded, line: seq<Byte>)
    requires line == FirstLine(disk, EVENT_LIMIT + 1)
    ensures line == disk[..|line|] && (line == [] <==> disk == [])
    ensures IsRecord(line, decode) <==> StartsWithLine(disk, |line|) && !decode(line).NoEvent?
    ensures forall k: nat :: StartsWithLine(disk, k) ==> disk[..k] == line && k == |line|
    ensures forall d :: Refused(d) <==> !d.NoEvent? && !IsUsable(d)
  {
    hide FirstLine;
    forall k: nat | StartsWithLine(disk, k) ensures disk[..k] == line && k == |line| { OneLine(disk, k, line); }
  }

  lemma ParseRecord(line: seq<Byte>, rest: seq<Byte>, decode: seq<Byte> -> Decoded)
    requires IsRecord(line, decode) && IsUsable(decode(line))
    ensures Parse(line + rest, decode) == After(Stored(decode(line).event, |line|), Parse(rest, decode))
  {
    var disk := line + rest;
    assert disk[|line|..] == rest;
    FirstLineUnique(disk, EVENT_LIMIT + 1, line, FirstLine(disk, EVENT_LIMIT + 1));
  }

  /** Whole records are read one by one, and then whatever comes after them. */
  lemma {:induction false} ParseLines(encode: Event -> seq<Byte>, decode: seq<Byte> -> Decoded, events: seq<Event>, tail: seq<Byte>)
    requires Codec(encode, decode) && forall e :: e in events ==> Fits(encode, e)
    ensures var p := Parse(tail, decode);
            Parse(Lines(encode, events) + tail, decode) ==
            Parsed(StoredOf(encode, events) + p.records, |Lines(encode, events)| + p.length, p.damaged, p.usable)
  {
    hide Parse, IsLine;
    var p := Parse(tail, decode);
    if events == [] {
      assert Lines(encode, events) + tail == tail && StoredOf(encode, events) + p.records == p.records;
    } else {
      var record, rest := encode(events[0]), Lines(encode, events[1..]) + tail;
      assert IsLine(record) && decode(record) == Read(events[0]) && Fits(encode, events[0]);
      assert Lines(encode, events) + tail == record + rest;
      ParseRecord(record, rest, decode);
      ParseLines(encode, decode, events[1..], tail);
      assert [Stored(events[0], |record|)] + (StoredOf(encode, events[1..]) + p.records) == StoredOf(encode, events) + p.records;
    }
  }

  /** A journal that is whole records and what is left of a torn one is read up to the tear. */
  lemma WholeRecords(encode: Event -> seq<Byte>, decode: seq<Byte> -> Decoded, events: seq<Event>, cut: seq<Byte>)
    requires Codec(encode, decode) && IsCut(encode, cut) && forall e :: e in events ==> Fits(encode, e)
    ensures Parse(Lines(encode, events) + cut, decode) == Parsed(StoredOf(encode, events), |Lines(encode, events)|, cut != [], true)
  {
    ParseLines(encode, decode, events, cut);
    if cut != [] { TornLine(encode, cut); }
    assert StoredOf(encode, events) + [] == StoredOf(encode, events);
  }

  /** What a failed write may leave in front of the next record: a record without its end, or a
      hole, which reads as zeros. */
  ghost predicate IsTear(encode: Event -> seq<Byte>, tear: seq<Byte>) {
    IsCut(encode, tear) || IsHole(tear)
  }

  predicate IsHole(tear: seq<Byte>) {
    forall i | 0 <= i < |tear| :: tear[i] == 0
  }

  /** A tear and the record after it are one line, and no event. */
  ghost predicate TearsShow(encode: Event -> seq<Byte>, decode: seq<Byte> -> Decoded) {
    forall tear, x :: tear != [] && IsTear(encode, tear) ==> decode(tear + encode(x)).NoEvent?
  }

  lemma TearEndsNoLine(encode: Event -> seq<Byte>, tear: seq<Byte>)
    requires IsTear(encode, tear) && forall e :: IsLine(encode(e))
    ensures forall i :: 0 <= i < |tear| ==> tear[i] != NEWLINE
  {
    if tear != [] && !IsHole(tear) {
      var e :| Fits(encode, e) && tear < encode(e);
      assert forall i :: 0 <= i < |tear| ==> tear[i] == encode(e)[i];
    }
  }

  /** What is written after a tear is not read again: the tear and the next record are one line,
      and no record. */
  lemma TornHidesLater(encode: Event -> seq<Byte>, decode: seq<Byte> -> Decoded, events: seq<Event>, tear: seq<Byte>, x: Event, rest: seq<Byte>)
    requires Codec(encode, decode) && IsTear(encode, tear) && tear != [] && forall e :: e in events ==> Fits(encode, e)
    requires decode(tear + encode(x)).NoEvent?
    ensures Parse(Lines(encode, events) + (tear + encode(x) + rest), decode) ==
            Parsed(StoredOf(encode, events), |Lines(encode, events)|, true, true)
  {
    var joined, tail := tear + encode(x), tear + encode(x) + rest;
    var line := FirstLine(tail, EVENT_LIMIT + 1);
    TearEndsNoLine(encode, tear);
    assert IsLine(encode(x)) && IsLine(joined);
    if |joined| <= EVENT_LIMIT + 1 {
      FirstLineUnique(tail, EVENT_LIMIT + 1, joined, line);
    } else {
      assert forall i :: 0 <= i < |line| ==> line[i] == joined[i];
    }
    ParseLines(encode, decode, events, tail);
    assert StoredOf(encode, events) + [] == StoredOf(encode, events);
  }

  /** What follows a failed write is read back exactly when the failed write left nothing. */
  lemma LaterReadBack(encode: Event -> seq<Byte>, decode: seq<Byte> -> Decoded, events: seq<Event>, tear: seq<Byte>, later: seq<Event>)
    requires Codec(encode, decode) && IsTear(encode, tear) && later != []
    requires (forall e :: e in events ==> Fits(encode, e)) && (forall e :: e in later ==> Fits(encode, e))
    requires tear != [] ==> decode(tear + encode(later[0])).NoEvent?
    ensures var p := Parse(Lines(encode, events) + (tear + Lines(encode, later)), decode);
            && (p.records == StoredOf(encode, events + later) <==> tear == [])
            && p == if tear == [] then Parsed(StoredOf(encode, events + later), |Lines(encode, events + later)|, false, true)
                    else Parsed(StoredOf(encode, events), |Lines(encode, events)|, true, true)
  {
    hide Parse, IsLine, IsTear;
    if tear == [] {
      LinesJoin(encode, events, later);
      WholeRecords(encode, decode, events + later, []);
      assert Lines(encode, events) + (tear + Lines(encode, later)) == Lines(encode, events + later) + [];
    } else {
      TornHidesLater(encode, decode, events, tear, later[0], Lines(encode, later[1..]));
      assert tear + Lines(encode, later) == tear + encode(later[0]) + Lines(encode, later[1..]);
    }
  }

  /** What is left of a torn record is no record. */
  lemma TornLine(encode: Event -> seq<Byte>, cut: seq<Byte>)
    requires IsCut(encode, cut) && cut != [] && forall e :: IsLine(encode(e))
    ensures FirstLine(cut, EVENT_LIMIT + 1) != [] && !IsLine(FirstLine(cut, EVENT_LIMIT + 1))
  {
    var e :| Fits(encode, e) && cut < encode(e);
    var line := FirstLine(cut, EVENT_LIMIT + 1);
    assert forall i :: 0 <= i < |line| ==> line[i] == encode(e)[i];
  }

  /** Cutting a damaged file back loses no record and repairs it: the next start reads the same. */
  lemma {:induction false} CutBack(disk: seq<Byte>, decode: seq<Byte> -> Decoded)
    requires Parse(disk, decode).usable
    ensures var p := Parse(disk, decode); Parse(disk[..p.length], decode) == p.(damaged := false)
    decreases |disk|
  {
    var line := FirstLine(disk, EVENT_LIMIT + 1);
    var p := Parse(disk, decode);
    if line != [] && IsRecord(line, decode) {
      assert IsUsable(decode(line));
      hide Parse, IsRecord, IsLine;
      var rest := disk[|line|..];
      assert disk == line + rest;
      ParseRecord(line, rest, decode);
      CutBack(rest, decode);
      var kept := rest[..Parse(rest, decode).length];
      assert disk[..p.length] == line + kept;
      ParseRecord(line, kept, decode);
    }
  }

  lemma ReplayMore(state: Reader, read: seq<Stored>, e: Stored, persisted: nat, head: nat)
    ensures Replay(state, read + [e], persisted, head) == ReplayOne(Replay(state, read, persisted, head), e, persisted, head)
  {
    assert (read + [e])[..|read|] == read;
  }

  /** The rest of the file, once `read` was read. */
  ghost predicate Reading(disk: seq<Byte>, decode: seq<Byte> -> Decoded, length: nat, read: seq<Stored>) {
    && length <= |disk|
    && var all, rest := Parse(disk, decode), Parse(disk[length..], decode);
       all == Parsed(read + rest.records, length + rest.length, rest.damaged, rest.usable)
  }

  lemma ReadingMore(disk: seq<Byte>, decode: seq<Byte> -> Decoded, length: nat, read: seq<Stored>, line: seq<Byte>)
    requires Reading(disk, decode, length, read) && line == FirstLine(disk[length..], EVENT_LIMIT + 1) && line != []
    requires IsRecord(line, decode) && IsUsable(decode(line))
    ensures Reading(disk, decode, length + |line|, read + [Stored(decode(line).event, |line|)])
  {
    var e := Stored(decode(line).event, |line|);
    assert disk[length..][|line|..] == disk[length + |line|..];
    var rest := Parse(disk[length + |line|..], decode);
    assert read + ([e] + rest.records) == read + [e] + rest.records;
  }

  /** The loop over the journal file, whatever is in it: the whole records before the first line
      that is none are replayed, and the file is cut back to them. */
  method ReadJournal(state: Reader, disk: seq<Byte>, decode: seq<Byte> -> Decoded, head: nat)
    returns (ok: bool, r: Reader, length: nat, damaged: bool)
    ensures var p := Parse(disk, decode);
            ok == p.usable && length == p.length && damaged == p.damaged && r == Replay(state, p.records, state.nextCursor, head)
  {
    r, length, damaged, ok := state, 0, false, true;
    ghost var read: seq<Stored> := [];
    ReadingStarts(disk, decode, state, head);
    hide Replay, ReplayOne, Parse, Reading, IsRecord, IsLine, IsFirstLine, FirstLine, IsUsable;
    while true
      invariant length <= |disk| && Reading(disk, decode, length, read) && ok && !damaged
      invariant r == Replay(state, read, state.nextCursor, head)
      decreases |disk| - length
    {
      var line := ReadLine(disk, length, EVENT_LIMIT + 1);
      ReadingEnds(disk, decode, length, read, line);
      if line == [] { break; }
      if |line| > EVENT_LIMIT || !IsLine(line) {
        damaged := true;
        break;
      }
      var event := decode(line);
      if event.NoEvent? {
        damaged := true;
        break;
      }
      if !IsUsable(event) {
        ok := false;
        break;
      }
      ReadingMore(disk, decode, length, read, line);
      ReplayMore(state, read, Stored(event.event, |line|), state.nextCursor, head);
      r := ReplayOne(r, Stored(event.event, |line|), state.nextCursor, head);
      length := length + |line|;
      read := read + [Stored(event.event, |line|)];
    }
  }

  lemma ReadingStarts(disk: seq<Byte>, decode: seq<Byte> -> Decoded, state: Reader, head: nat)
    ensures Reading(disk, decode, 0, []) && Replay(state, [], state.nextCursor, head) == state
  {
    assert disk[0..] == disk;
    assert [] + Parse(disk, decode).records == Parse(disk, decode).records;
  }

  /** Where reading stops. */
  lemma ReadingEnds(disk: seq<Byte>, decode: seq<Byte> -> Decoded, length: nat, read: seq<Stored>, line: seq<Byte>)
    requires Reading(disk, decode, length, read) && line == FirstLine(disk[length..], EVENT_LIMIT + 1)
    ensures line == [] ==> Parse(disk, decode) == Parsed(read, length, false, true)
    ensures line != [] && (|line| > EVENT_LIMIT || !IsLine(line) || decode(line).NoEvent?) ==> Parse(disk, decode) == Parsed(read, length, true, true)
    ensures line != [] && |line| <= EVENT_LIMIT && IsLine(line) && !decode(line).NoEvent? ==>
      IsRecord(line, decode) && (!IsUsable(decode(line)) ==> Parse(disk, decode) == Parsed(read, length, false, false))
  {
    assert read + [] == read;
  }

  /** `initialize`, up to the first event of the new process. */
  method Recover(state: Reader, disk: seq<Byte>, decode: seq<Byte> -> Decoded, head: nat)
    returns (ok: bool, r: Reader, length: nat)
    ensures var p := Parse(disk, decode);
            ok == p.usable && length == p.length && (ok ==> r == Closed(Replay(state, p.records, state.nextCursor, head), p.damaged))
  {
    hide AddGap, Replay, Parse;
    var damaged;
    ok, r, length, damaged := ReadJournal(state, disk, decode, head);
    if !ok { return; }
    var previous := r.nextCursor;
    var gapHead := if r.gaps == [] then previous else Furthest(r.gaps);
    if gapHead > previous {
      r := r.(gaps := AddGap(r.gaps, previous + 1, gapHead, RestartUncommitted), nextCursor := gapHead);
    }
    if damaged {
      var lost := r.nextCursor + 1;
      r := r.(gaps := AddGap(r.gaps, lost, lost, IncompleteTail), nextCursor := lost, partial := true);
    }
  }

  // ---------------------------------------------------------------- what was recovered

  /** What the state file holds of a reader: everything but the events. */
  function Persisted(r: Reader): Reader {
    r.(events := [], bytes := 0)
  }

  /** An event takes the place of the one with its number, or a place of its own. */
  lemma {:induction false} PlacedMeaning(s: seq<Stored>, e: Stored)
    requires Ascending(s)
    ensures Ascending(Placed(s, e)) && Placed(s, e) != []
    ensures forall x :: x in Placed(s, e) <==> x == e || (x in s && x.event.seqNo != e.event.seqNo)
    ensures Placed(s, e)[|Placed(s, e)| - 1].event.seqNo == if s == [] then e.event.seqNo else Max(s[|s| - 1].event.seqNo, e.event.seqNo)
  {
    if s != [] {
      var init, last := s[..|s| - 1], s[|s| - 1];
      forall x | x in init ensures x.event.seqNo < last.event.seqNo {
        var i :| 0 <= i < |init| && init[i] == x;
        AscendingPair(s, i, |s| - 1);
      }
      assert forall x :: x in s <==> x in init || x == last;
      if e.event.seqNo < last.event.seqNo {
        PlacedMeaning(init, e);
        assert (Placed(init, e) + [last])[..|Placed(init, e)|] == Placed(init, e);
      } else if e.event.seqNo == last.event.seqNo {
        assert (init + [e])[..|init|] == init;
        if init != [] { assert init[|init| - 1] in init; }
      } else {
        assert (s + [e])[..|s|] == s;
        forall x | x in s ensures x.event.seqNo < e.event.seqNo {}
      }
    }
  }

  /** Whatever the journal holds, and in whatever order: of each number the last record that is not
      judged retired is readable. */
  lemma {:induction false} ReplayLatest(state: Reader, disk: seq<Stored>, persisted: nat, head: nat, x: Stored)
    requires state.events == []
    ensures Ascending(Replay(state, disk, persisted, head).events)
    ensures x in Replay(state, disk, persisted, head).events <==> exists i: nat :: Latest(state, disk, head, i) && disk[i] == x
  {
    if disk != [] {
      var n := |disk| - 1;
      var before := Replay(state, disk[..n], persisted, head);
      ReplayLatest(state, disk[..n], persisted, head, x);
      ReplayFrame(state, disk[..n], persisted, head);
      SameRetired(state, before, disk[n].event, head);
      PlacedMeaning(before.events, disk[n]);
      hide Ascending, Placed, Replay, RetiredOnReload;
      forall i: nat | i < |disk| ensures Latest(state, disk, head, i) <==>
        !RetiredOnReload(state, disk[i].event, head) &&
        (i == n || (Latest(state, disk[..n], head, i) && (disk[n].event.seqNo != disk[i].event.seqNo || RetiredOnReload(state, disk[n].event, head))))
      {
        LatestStep(state, disk, head, i);
      }
      ReplayLast(state, disk, persisted, head);
    } else {
      assert Ascending([]);
    }
  }

  /** Not judged retired, and no later record with this number is either. */
  ghost predicate Latest(state: Reader, disk: seq<Stored>, head: nat, i: nat) {
    && i < |disk| && !RetiredOnReload(state, disk[i].event, head)
    && forall j :: i < j < |disk| && disk[j].event.seqNo == disk[i].event.seqNo ==> RetiredOnReload(state, disk[j].event, head)
  }

  lemma LatestStep(state: Reader, disk: seq<Stored>, head: nat, i: nat)
    requires i < |disk|
    ensures var n := |disk| - 1;
      Latest(state, disk, head, i) <==>
        !RetiredOnReload(state, disk[i].event, head) &&
        (i == n || (Latest(state, disk[..n], head, i) && (disk[n].event.seqNo != disk[i].event.seqNo || RetiredOnReload(state, disk[n].event, head))))
  {
    hide RetiredOnReload;
    var init := disk[..|disk| - 1];
    assert forall j :: 0 <= j < |init| ==> init[j] == disk[j];
  }

  lemma ReplayLast(state: Reader, disk: seq<Stored>, persisted: nat, head: nat)
    requires disk != []
    ensures var before, e := Replay(state, disk[..|disk| - 1], persisted, head), disk[|disk| - 1];
      Replay(state, disk, persisted, head).events == if RetiredOnReload(before, e.event, head) then before.events else Placed(before.events, e)
  {
  }

  lemma PlacedLast(s: seq<Stored>, e: Stored)
    requires s == [] || s[|s| - 1].event.seqNo < e.event.seqNo
    ensures Placed(s, e) == s + [e]
  {
  }

  /** Replaying changes the cursor, the open sessions and workflows, and the events. */
  lemma {:induction false} ReplayFrame(state: Reader, disk: seq<Stored>, persisted: nat, head: nat)
    ensures var r := Replay(state, disk, persisted, head);
            r == state.(nextCursor := r.nextCursor, open := r.open, events := r.events, bytes := r.bytes)
  {
    if disk != [] { ReplayFrame(state, disk[..|disk| - 1], persisted, head); }
  }

  lemma ReloadBelow(disk: seq<Stored>, state: Reader, head: nat)
    requires Ascending(disk) && disk != []
    ensures var kept := Reload(disk[..|disk| - 1], state, head);
            kept == [] || kept[|kept| - 1].event.seqNo < disk[|disk| - 1].event.seqNo
  {
    hide Ascending, Reload;
    var init := disk[..|disk| - 1];
    var kept := Reload(init, state, head);
    if kept != [] {
      assert kept[|kept| - 1] in kept;
      ReloadMembers(init, state, head, kept[|kept| - 1]);
      BelowLast(disk, kept[|kept| - 1]);
    }
  }

  /** The retained events are those of the journal that are not judged retired. */
  lemma {:induction false} ReplayEvents(state: Reader, disk: seq<Stored>, persisted: nat, head: nat)
    requires Ascending(disk) && state.events == [] && state.bytes == 0
    ensures var r := Replay(state, disk, persisted, head);
            && r.events == Reload(disk, state, head) && r.bytes == TotalSize(r.events)
            && r.gaps == state.gaps && r.windows == state.windows && r.earliest == state.earliest && r.partial == state.partial
  {
    ReplayFrame(state, disk, persisted, head);
    if disk != [] {
      hide Ascending, Placed, TotalSize, RetiredOnReload;
      var init, e := disk[..|disk| - 1], disk[|disk| - 1];
      AscendingInit(disk);
      ReplayEvents(state, init, persisted, head);
      var before := Replay(state, init, persisted, head);
      SameRetired(before, state, e.event, head);
      ReloadBelow(disk, state, head);
      PlacedLast(before.events, e);
      AppendEffect(before.events, e, 0);
    }
  }

  /** Which events of the journal are there again: all above the earliest cursor, but for output
      between the head of its session and the session's window. */
  lemma RecoveredEvents(state: Reader, disk: seq<Stored>, persisted: nat, head: nat, s: Stored)
    requires Ascending(disk) && state.events == [] && state.bytes == 0
    ensures s in Replay(state, disk, persisted, head).events <==>
            && s in disk && s.event.seqNo > state.earliest
            && (s.event.kind == Output && s.event.session.Some? && s.event.session.value in state.windows && s.event.offset >= head ==>
                s.event.offset >= state.windows[s.event.session.value])
  {
    ReplayEvents(state, disk, persisted, head);
    ReloadMembers(disk, state, head, s);
  }

  lemma SameRetired(a: Reader, b: Reader, e: Event, head: nat)
    requires a.earliest == b.earliest && a.windows == b.windows
    ensures RetiredOnReload(a, e, head) == RetiredOnReload(b, e, head)
  {
  }

  function LastSeq(disk: seq<Stored>): nat {
    if disk == [] then 0 else disk[|disk| - 1].event.seqNo
  }

  lemma {:induction false} ReplayCursor(state: Reader, disk: seq<Stored>, persisted: nat, head: nat)
    requires Ascending(disk)
    ensures Replay(state, disk, persisted, head).nextCursor == Max(state.nextCursor, LastSeq(disk))
  {
    if disk != [] { ReplayCursor(state, disk[..|disk| - 1], persisted, head); }
  }

  /** Replay skips the records that the persisted state already knows of, and folds the rest. */
  lemma {:induction false} ReplayOpen(state: Reader, known: seq<Stored>, later: seq<Stored>, persisted: nat, head: nat)
    requires forall i :: 0 <= i < |known| ==> known[i].event.seqNo <= persisted
    requires forall i :: 0 <= i < |later| ==> later[i].event.seqNo > persisted
    ensures Replay(state, known + later, persisted, head).open == FoldOpen(state.open, later)
  {
    hide Placed, RetiredOnReload, Lifecycle;
    var disk := known + later;
    if later != [] {
      assert disk[..|disk| - 1] == known + later[..|later| - 1];
      ReplayOpen(state, known, later[..|later| - 1], persisted, head);
    } else if known != [] {
      assert disk == known && disk[..|disk| - 1] == known[..|known| - 1] + [];
      ReplayOpen(state, known[..|known| - 1], [], persisted, head);
    }
  }

  /** The open sessions and workflows after recovery are those of every event that was ever
      durable: `history` up to the persisted state, compacted away or not, and `later`. */
  lemma OpenIsFold(state: Reader, history: seq<Stored>, known: seq<Stored>, later: seq<Stored>, head: nat)
    requires state.open == FoldOpen(Open(map[], map[]), history)
    requires forall i :: 0 <= i < |known| ==> known[i].event.seqNo <= state.nextCursor
    requires forall i :: 0 <= i < |later| ==> later[i].event.seqNo > state.nextCursor
    ensures Replay(state, known + later, state.nextCursor, head).open == FoldOpen(Open(map[], map[]), history + later)
  {
    ReplayOpen(state, known, later, state.nextCursor, head);
    FoldAppend(Open(map[], map[]), history, later);
  }

  /** What a restart takes to be open is what was started and not ended since, among all events that
      were ever durable. */
  lemma OpenAfterRecovery(state: Reader, history: seq<Stored>, known: seq<Stored>, later: seq<Stored>, head: nat, what: Subject, e: Event)
    requires state.open == FoldOpen(Open(map[], map[]), history)
    requires forall i :: 0 <= i < |known| ==> known[i].event.seqNo <= state.nextCursor
    requires forall i :: 0 <= i < |later| ==> later[i].event.seqNo > state.nextCursor
    ensures Recorded(Replay(state, known + later, state.nextCursor, head).open, what) == Some(e) <==>
            exists i: nat :: OpenSince(history + later, what, i) && (history + later)[i].event == e
  {
    OpenIsFold(state, history, known, later, head);
    OpenMeaning(history + later, what, e);
  }

  /** Whatever number is used next is above every durable event and every persisted gap. */
  lemma FreshNumbers(state: Reader, disk: seq<Stored>, damaged: bool, head: nat)
    requires Ascending(disk) && state.events == [] && state.bytes == 0
    ensures var r := Closed(Replay(state, disk, state.nextCursor, head), damaged);
            && r.nextCursor >= state.nextCursor
            && (forall i :: 0 <= i < |disk| ==> disk[i].event.seqNo <= r.nextCursor)
            && (forall i :: 0 <= i < |state.gaps| ==> state.gaps[i].through <= r.nextCursor)
            && (damaged ==> r.nextCursor > LastSeq(disk))
  {
    ReplayCursor(state, disk, state.nextCursor, head);
    ReplayEvents(state, disk, state.nextCursor, head);
    if disk != [] { AscendingAround(disk, |disk| - 1); }
  }

  /** A restart straight after a completed append is no change at all, exactly when it judges
      every event of the journal as memory does. */
  lemma RestartIsIdentity(r: Reader, disk: seq<Stored>, head: nat)
    requires WellKept(r) && Ascending(disk) && forall s :: s in r.events ==> s in disk
    requires forall s :: s in disk ==> s.event.seqNo <= r.nextCursor
    ensures Replay(Persisted(r), disk, r.nextCursor, head) == r <==> Retention.Agrees(r, disk, head)
  {
    hide Ascending, TotalSize, RetiredOnReload, Reload, Replay, Retention.Agrees;
    var p := Persisted(r);
    ReplayEvents(p, disk, r.nextCursor, head);
    ReplayCursor(p, disk, r.nextCursor, head);
    assert disk + [] == disk;
    assert forall i :: 0 <= i < |disk| ==> disk[i] in disk;
    ReplayOpen(p, disk, [], r.nextCursor, head);
    SameJudgement(r, disk, head);
    ReloadIsMemory(r, disk, head);
  }

  lemma {:induction false} SameJudgement(r: Reader, disk: seq<Stored>, head: nat)
    ensures Reload(disk, Persisted(r), head) == Reload(disk, r, head)
  {
    if disk != [] { SameJudgement(r, disk[..|disk| - 1], head); }
  }

  // ---------------------------------------------------------------- a crash during an append

  function EventsOf(s: seq<Stored>): (r: seq<Event>)
    ensures |r| == |s| && forall i :: 0 <= i < |r| ==> r[i] == s[i].event
  {
    seq(|s|, i requires 0 <= i < |s| => s[i].event)
  }

  /** The records as they are written. */
  ghost predicate Encoded(encode: Event -> seq<Byte>, s: seq<Stored>) {
    forall x :: x in s ==> x.size == |encode(x.event)| && Fits(encode, x.event)
  }

  lemma StoredAgain(encode: Event -> seq<Byte>, s: seq<Stored>)
    requires Encoded(encode, s)
    ensures StoredOf(encode, EventsOf(s)) == s && forall e :: e in EventsOf(s) ==> Fits(encode, e)
  {
    forall i | 0 <= i < |s| ensures StoredOf(encode, EventsOf(s))[i] == s[i] && Fits(encode, EventsOf(s)[i]) { assert s[i] in s; }
  }

  lemma {:induction false} LinesJoin(encode: Event -> seq<Byte>, a: seq<Event>, b: seq<Event>)
    ensures Lines(encode, a + b) == Lines(encode, a) + Lines(encode, b)
  {
    if a == [] {
      assert a + b == b;
    } else {
      assert (a + b)[1..] == a[1..] + b;
      LinesJoin(encode, a[1..], b);
      assert encode(a[0]) + (Lines(encode, a[1..]) + Lines(encode, b)) == Lines(encode, a) + Lines(encode, b);
    }
  }

  /** Cut anywhere, a batch is whole records and a part of the next. */
  lemma {:induction false} CutPoint(encode: Event -> seq<Byte>, events: seq<Event>, n: nat) returns (j: nat, cut: seq<Byte>)
    requires n <= |Lines(encode, events)|
    ensures j <= |events| && Lines(encode, events)[..n] == Lines(encode, events[..j]) + cut
    ensures cut == [] || (j < |events| && cut < encode(events[j]))
  {
    if events == [] {
      j, cut := 0, [];
    } else {
      var record, later := encode(events[0]), Lines(encode, events[1..]);
      if n < |record| {
        j, cut := 0, record[..n];
        assert (record + later)[..n] == record[..n];
      } else {
        var k;
        k, cut := CutPoint(encode, events[1..], n - |record|);
        j := k + 1;
        assert (record + later)[..n] == record + later[..n - |record|];
        assert events[..j][1..] == events[1..][..k];
        assert record + (Lines(encode, events[1..][..k]) + cut) == Lines(encode, events[..j]) + cut;
      }
    }
  }

  /** A batch that can be appended is numbered upwards and retires nothing of itself. */
  ghost predicate Continued(batch: seq<Stored>, cursor: nat, ends: map<nat, nat>) {
    && (forall i, j :: 0 <= i < j < |batch| ==> batch[i].event.seqNo < batch[j].event.seqNo)
    && forall i :: 0 <= i < |batch| ==> batch[i].event.seqNo > cursor && Retention.Continues(ends, batch[i].event)
  }

  lemma {:induction false} AppendableContinues(batch: seq<Stored>, cursor: nat, ends: map<nat, nat>)
    requires Appendable(batch, cursor, ends)
    ensures Continued(batch, cursor, ends)
  {
    if batch != [] {
      var e := batch[0].event;
      AppendableContinues(batch[1..], e.seqNo, EndsAfter(ends, e));
      forall i | 0 < i < |batch|
        ensures batch[i].event.seqNo > e.seqNo && Retention.Continues(ends, batch[i].event)
      {
        assert batch[i] == batch[1..][i - 1];
        assert Retention.Continues(EndsAfter(ends, e), batch[i].event);
      }
      forall i, j | 0 <= i < j < |batch| ensures batch[i].event.seqNo < batch[j].event.seqNo {
        assert batch[j] == batch[1..][j - 1];
        if i > 0 { assert batch[i] == batch[1..][i - 1]; }
      }
    }
  }

  /** Replaying a batch over a reader with its journal inserts the batch. */
  lemma {:induction false} ReplayBatch(r: Reader, disk: seq<Stored>, batch: seq<Stored>, ends: map<nat, nat>, head: nat)
    requires WellKept(r) && Ascending(disk) && Retention.Agrees(r, disk, head) && Ends(ends, disk, r.windows) && r.earliest <= r.nextCursor
    requires forall s :: s in disk ==> s.event.seqNo <= r.nextCursor
    requires Continued(batch, r.nextCursor, ends)
    ensures Replay(Persisted(r), disk + batch, r.nextCursor, head) == InsertedAll(r, batch)
  {
    if batch == [] {
      assert disk + batch == disk;
      RestartIsIdentity(r, disk, head);
    } else {
      var init, e := batch[..|batch| - 1], batch[|batch| - 1];
      assert disk + batch == disk + init + [e];
      assert Continued(init, r.nextCursor, ends);
      ReplayBatch(r, disk, init, ends, head);
      BatchShape(r, init);
      NotRetiredYet(r, disk, e, ends, head);
      LastBelow(r, init, e);
      hide Replay, Continued, Ascending, Retention.Agrees, WellKept, Ends, ReplayOne, Inserted, RetiredOnReload;
      ReplayMore(Persisted(r), disk + init, e, r.nextCursor, head);
      InsertsOne(InsertedAll(r, init), e, r.nextCursor, head);
    }
  }

  lemma InsertsOne(r: Reader, e: Stored, persisted: nat, head: nat)
    requires !RetiredOnReload(r, e.event, head) && e.event.seqNo > persisted
    requires r.events == [] || r.events[|r.events| - 1].event.seqNo < e.event.seqNo
    ensures ReplayOne(r, e, persisted, head) == Inserted(r, e)
  {
    PlacedLast(r.events, e);
  }

  lemma NotRetiredYet(r: Reader, disk: seq<Stored>, e: Stored, ends: map<nat, nat>, head: nat)
    requires Ends(ends, disk, r.windows) && r.earliest <= r.nextCursor < e.event.seqNo && Retention.Continues(ends, e.event)
    ensures forall q: Reader {:trigger RetiredOnReload(q, e.event, head)} ::
      q.earliest == r.earliest && q.windows == r.windows ==> !RetiredOnReload(q, e.event, head)
  {
  }

  lemma LastBelow(r: Reader, init: seq<Stored>, e: Stored)
    requires WellKept(r) && r.nextCursor < e.event.seqNo && forall i :: 0 <= i < |init| ==> init[i].event.seqNo < e.event.seqNo
    ensures var s := r.events + init; s == [] || s[|s| - 1].event.seqNo < e.event.seqNo
  {
    if init == [] && r.events != [] { assert r.events[|r.events| - 1] in r.events; }
  }

  /** The process dies while it writes a batch, after any number of bytes. The next one reads the
      journal of before and the whole records of the batch, and goes on as if exactly those had
      been appended. */
  lemma CrashDuringAppend(w: Writer, batch: seq<Stored>, n: nat, encode: Event -> seq<Byte>, decode: seq<Byte> -> Decoded)
    returns (j: nat, torn: bool)
    requires w.Valid() && WindowsKept(w.reader, w.disk) && Appendable(batch, w.reader.nextCursor, w.ends)
    requires Codec(encode, decode) && Encoded(encode, w.disk) && Encoded(encode, batch)
    requires n <= |Lines(encode, EventsOf(batch))|
    ensures j <= |batch| && (n == |Lines(encode, EventsOf(batch))| ==> j == |batch| && !torn)
    ensures var file := Lines(encode, EventsOf(w.disk)) + Lines(encode, EventsOf(batch))[..n];
            var p := Parse(file, decode);
            && p.usable && p.damaged == torn && p.records == w.disk + batch[..j]
            && Replay(Persisted(w.reader), p.records, w.reader.nextCursor, w.head) == InsertedAll(w.reader, batch[..j])
  {
    j, torn := TornFile(w.disk, batch, n, encode, decode);
    hide Parse, Lines, Coherent, Continuing, Indexed, WellKept, Ascending, Ends, WindowsKept, Codec, Encoded, Appendable;
    AppendableContinues(batch, w.reader.nextCursor, w.ends);
    AgreesExactly(w.reader, w.disk, w.head);
    ReplayBatch(w.reader, w.disk, batch[..j], w.ends, w.head);
  }

  /** The bytes of whole records and of a batch that was cut short. */
  lemma TornFile(disk: seq<Stored>, batch: seq<Stored>, n: nat, encode: Event -> seq<Byte>, decode: seq<Byte> -> Decoded)
    returns (j: nat, torn: bool)
    requires Codec(encode, decode) && Encoded(encode, disk) && Encoded(encode, batch)
    requires n <= |Lines(encode, EventsOf(batch))|
    ensures j <= |batch| && (n == |Lines(encode, EventsOf(batch))| ==> j == |batch| && !torn)
    ensures var p := Parse(Lines(encode, EventsOf(disk)) + Lines(encode, EventsOf(batch))[..n], decode);
            p.usable && p.damaged == torn && p.records == disk + batch[..j]
  {
    var cut;
    j, cut := CutPoint(encode, EventsOf(batch), n);
    torn := cut != [];
    var written := disk + batch[..j];
    assert Encoded(encode, written) by { assert forall x :: x in batch[..j] ==> x in batch; }
    assert IsCut(encode, cut) by { if cut != [] { assert batch[j] in batch && Fits(encode, batch[j].event); } }
    assert forall x :: x in batch ==> IsLine(encode(x.event));
    hide Lines, Parse, IsLine;
    BytesOfPrefix(encode, disk, batch, j, n, cut);
    StoredAgain(encode, written);
    WholeRecords(encode, decode, EventsOf(written), cut);
  }

  lemma BytesOfPrefix(encode: Event -> seq<Byte>, disk: seq<Stored>, batch: seq<Stored>, j: nat, n: nat, cut: seq<Byte>)
    requires j <= |batch| && n <= |Lines(encode, EventsOf(batch))| && forall x :: x in batch ==> IsLine(encode(x.event))
    requires Lines(encode, EventsOf(batch))[..n] == Lines(encode, EventsOf(batch)[..j]) + cut
    requires cut == [] || (j < |batch| && cut < encode(EventsOf(batch)[j]))
    ensures Lines(encode, EventsOf(disk)) + Lines(encode, EventsOf(batch))[..n] == Lines(encode, EventsOf(disk + batch[..j])) + cut
    ensures n == |Lines(encode, EventsOf(batch))| ==> j == |batch| && cut == []
  {
    var all := EventsOf(batch);
    LinesAfter(encode, all, j);
    if j < |batch| { assert batch[j] in batch; }
    BytesJoin(encode, disk, batch, j, Lines(encode, all)[..n], cut);
    var whole, start, rest := Lines(encode, all), Lines(encode, all[..j]), Lines(encode, all[j..]);
    hide *;
    assert |whole| == |start| + |rest|;
    assert |whole[..n]| == n;
    assert |start + cut| == |start| + |cut|;
    assert cut == [] || (j < |batch| && |cut| < |encode(all[j])|);
  }

  lemma LinesAfter(encode: Event -> seq<Byte>, all: seq<Event>, j: nat)
    requires j <= |all|
    ensures Lines(encode, all) == Lines(encode, all[..j]) + Lines(encode, all[j..])
    ensures j < |all| && IsLine(encode(all[j])) ==> |Lines(encode, all[j..])| >= |encode(all[j])| > 0
    ensures j == |all| ==> Lines(encode, all[j..]) == []
  {
    assert all == all[..j] + all[j..];
    LinesJoin(encode, all[..j], all[j..]);
    if j < |all| && IsLine(encode(all[j])) { FirstOfLines(encode, all[j..]); }
  }

  lemma BytesJoin(encode: Event -> seq<Byte>, disk: seq<Stored>, batch: seq<Stored>, j: nat, bytes: seq<Byte>, cut: seq<Byte>)
    requires j <= |batch| && bytes == Lines(encode, EventsOf(batch)[..j]) + cut
    ensures Lines(encode, EventsOf(disk)) + bytes == Lines(encode, EventsOf(disk + batch[..j])) + cut
  {
    var all := EventsOf(batch);
    assert EventsOf(disk + batch[..j]) == EventsOf(disk) + all[..j];
    LinesJoin(encode, EventsOf(disk), all[..j]);
    hide Lines;
  }

  lemma FirstOfLines(encode: Event -> seq<Byte>, events: seq<Event>)
    requires events != [] && IsLine(encode(events[0]))
    ensures |Lines(encode, events)| >= |encode(events[0])| > 0
  {
  }

  // ---------------------------------------------------------------- coverage across a crash

  lemma ClosedCovers(r: Reader, damaged: bool, n: nat)
    requires n > r.nextCursor && n <= Closed(r, damaged).nextCursor
    ensures Covered(Closed(r, damaged).gaps, n)
  {
    hide AddGap, Covered, Furthest;
    var ahead := Max(r.nextCursor, Furthest(r.gaps));
    var gaps := if ahead > r.nextCursor then AddGap(r.gaps, r.nextCursor + 1, ahead, RestartUncommitted) else r.gaps;
    if n <= ahead { AddGapCovers(r.gaps, r.nextCursor + 1, ahead, RestartUncommitted, n); }
    if damaged { AddGapCovers(gaps, ahead + 1, ahead + 1, IncompleteTail, n); }
  }

  /** A gap that starts above `n` changes nothing for `n`, while the gaps fit. */
  lemma AddGapAbove(gaps: seq<Gap>, first: nat, last: nat, reason: Reason, n: nat)
    requires 0 < n < first <= last && |gaps| < MAX_GAPS
    ensures Covered(AddGap(gaps, first, last, reason), n) <==> Covered(gaps, n)
    ensures |AddGap(gaps, first, last, reason)| <= |gaps| + 1
  {
    var r := AddGap(gaps, first, last, reason);
    if Covered(r, n) {
      var i :| 0 <= i < |r| && InGap(r[i], n);
      assert i < |gaps| && InGap(gaps[i], n);
    }
    if Covered(gaps, n) { AddGapCovers(gaps, first, last, reason, n); }
  }

  /** Closing uncovers nothing, and while the gaps fit it covers nothing at or below the journal's
      own cursor. */
  lemma ClosedExact(r: Reader, damaged: bool, n: nat)
    requires 0 < n <= r.nextCursor
    ensures Covered(r.gaps, n) ==> Covered(Closed(r, damaged).gaps, n)
    ensures |r.gaps| + 2 <= MAX_GAPS && Covered(Closed(r, damaged).gaps, n) ==> Covered(r.gaps, n)
  {
    hide AddGap, Covered, Furthest;
    var ahead := Max(r.nextCursor, Furthest(r.gaps));
    var gaps := if ahead > r.nextCursor then AddGap(r.gaps, r.nextCursor + 1, ahead, RestartUncommitted) else r.gaps;
    if Covered(r.gaps, n) {
      AddGapCovers(r.gaps, r.nextCursor + 1, ahead, RestartUncommitted, n);
      AddGapCovers(gaps, ahead + 1, ahead + 1, IncompleteTail, n);
    }
    if |r.gaps| + 2 <= MAX_GAPS {
      if ahead > r.nextCursor { AddGapAbove(r.gaps, r.nextCursor + 1, ahead, RestartUncommitted, n); }
      if damaged { AddGapAbove(gaps, ahead + 1, ahead + 1, IncompleteTail, n); }
    }
  }

  lemma ClosedEvents(r: Reader, damaged: bool)
    ensures Closed(r, damaged).events == r.events && Closed(r, damaged).nextCursor >= r.nextCursor
  {
  }

  /** A crash may come between the write of a batch and the persisting of the losses that go
      with it. Recovery accounts for every number exactly when each number up to the persisted
      cursor is still readable or in a persisted gap, and each number between that cursor and the
      last durable event is an event of the journal or in a persisted gap. That it is enough
      holds for any state; that nothing else helps, while no two old gaps have to be joined to
      make room for the new ones. */
  lemma CoverageAfterCrash(state: Reader, disk: seq<Stored>, damaged: bool, head: nat)
    requires Ascending(disk) && state.events == [] && state.bytes == 0
    requires forall s :: s in disk && s.event.seqNo > state.nextCursor ==> !RetiredOnReload(state, s.event, head)
    ensures StillKnown(state, disk, head) && Known(state, disk) ==> Settled(Closed(Replay(state, disk, state.nextCursor, head), damaged))
    ensures |state.gaps| + 2 <= MAX_GAPS && Settled(Closed(Replay(state, disk, state.nextCursor, head), damaged)) ==>
      StillKnown(state, disk, head) && Known(state, disk)
  {
    hide AddGap, Covered, Replay, Closed, Has, Ascending, Reload, TotalSize;
    var replayed := Replay(state, disk, state.nextCursor, head);
    var r := Closed(replayed, damaged);
    ReplayEvents(state, disk, state.nextCursor, head);
    ReplayCursor(state, disk, state.nextCursor, head);
    ClosedEvents(replayed, damaged);
    forall n | 1 <= n <= r.nextCursor
      ensures n > replayed.nextCursor || Has(Reload(disk, state, head), n) || Covered(state.gaps, n) ==> Accounted(r, n)
      ensures |state.gaps| + 2 <= MAX_GAPS && Accounted(r, n) ==>
        n > replayed.nextCursor || Has(Reload(disk, state, head), n) || Covered(state.gaps, n)
    {
      if n > replayed.nextCursor { ClosedCovers(replayed, damaged, n); } else { ClosedExact(replayed, damaged, n); }
    }
    forall n | state.nextCursor < n ensures Has(Reload(disk, state, head), n) <==> Has(disk, n) {
      LaterReloaded(state, disk, head, n);
    }
  }

  /** Each number up to the persisted cursor is an event that the restart retains, or in a
      persisted gap. */
  ghost predicate StillKnown(state: Reader, disk: seq<Stored>, head: nat) {
    forall n :: 1 <= n <= state.nextCursor ==> Has(Reload(disk, state, head), n) || Covered(state.gaps, n)
  }

  /** Each number between the persisted cursor and the last durable event is an event or in a
      persisted gap. */
  ghost predicate Known(state: Reader, disk: seq<Stored>) {
    forall n :: state.nextCursor < n <= LastSeq(disk) ==> Has(disk, n) || Covered(state.gaps, n)
  }

  lemma LaterReloaded(state: Reader, disk: seq<Stored>, head: nat, n: nat)
    requires forall s :: s in disk && s.event.seqNo > state.nextCursor ==> !RetiredOnReload(state, s.event, head)
    requires n > state.nextCursor
    ensures Has(Reload(disk, state, head), n) <==> Has(disk, n)
  {
    var kept := Reload(disk, state, head);
    if Has(disk, n) {
      var i :| 0 <= i < |disk| && disk[i].event.seqNo == n;
      ReloadMembers(disk, state, head, disk[i]);
      var j :| 0 <= j < |kept| && kept[j] == disk[i];
    }
    if Has(kept, n) {
      var i :| 0 <= i < |kept| && kept[i].event.seqNo == n;
      ReloadMembers(disk, state, head, kept[i]);
      var j :| 0 <= j < |disk| && disk[j] == kept[i];
    }
  }

  /** What was recovered can be gone on with: nothing is above its cursor. */
  lemma RecoveredIsKept(state: Reader, disk: seq<Stored>, damaged: bool, head: nat)
    requires Ascending(disk) && state.events == [] && state.bytes == 0 && |state.gaps| <= MAX_GAPS
    requires forall s :: s in disk ==> 1 <= s.event.seqNo && 1 <= s.size <= EVENT_LIMIT
    ensures var r := Closed(Replay(state, disk, state.nextCursor, head), damaged);
            && WellKept(r) && Within(r.gaps, r.nextCursor) && (forall n :: Covered(state.gaps, n) ==> Covered(r.gaps, n))
            && (TellsLosses(state) ==> TellsLosses(r))
  {
    hide Ascending, TotalSize, AddGap, Covered, Reload, Replay;
    var r := Replay(state, disk, state.nextCursor, head);
    ReplayEvents(state, disk, state.nextCursor, head);
    ReplayCursor(state, disk, state.nextCursor, head);
    ReloadAscending(disk, state, head);
    forall i | 0 <= i < |r.events| ensures 1 <= r.events[i].event.seqNo <= r.nextCursor && 1 <= r.events[i].size <= EVENT_LIMIT {
      ReloadMembers(disk, state, head, r.events[i]);
      LastIsGreatest(disk, r.events[i]);
    }
    ClosedWithin(r, damaged);
    ReplayFrame(state, disk, state.nextCursor, head);
    if TellsLosses(state) { ClosedTells(r, damaged); }
  }

  lemma ClosedTells(r: Reader, damaged: bool)
    requires TellsLosses(r)
    ensures TellsLosses(Closed(r, damaged))
  {
  }

  lemma ClosedWithin(r: Reader, damaged: bool)
    requires |r.gaps| <= MAX_GAPS
    ensures var c := Closed(r, damaged);
            && Within(c.gaps, c.nextCursor) && |c.gaps| <= MAX_GAPS && c.nextCursor >= r.nextCursor
            && forall n :: Covered(r.gaps, n) ==> Covered(c.gaps, n)
  {
    hide AddGap, Covered;
    var ahead := Max(r.nextCursor, Furthest(r.gaps));
    AddGapBounds(r.gaps, r.nextCursor + 1, ahead, RestartUncommitted, ahead);
    var gaps := if ahead > r.nextCursor then AddGap(r.gaps, r.nextCursor + 1, ahead, RestartUncommitted) else r.gaps;
    AddGapBounds(gaps, ahead + 1, ahead + 1, IncompleteTail, ahead + 1);
    forall n | Covered(r.gaps, n) ensures Covered(Closed(r, damaged).gaps, n) {
      PositiveCovered(r.gaps, n);
      AddGapCovers(r.gaps, r.nextCursor + 1, ahead, RestartUncommitted, n);
      AddGapCovers(gaps, ahead + 1, ahead + 1, IncompleteTail, n);
    }
  }

  /** The process dies while it writes a batch, after any number of bytes, and nothing of an earlier
      failed write was left in the journal. The next one accounts for every number exactly when
      each number up to the last whole record of the batch is one of the batch or in a gap that
      was persisted before it. */
  lemma CoverageDuringAppend(w: Writer, batch: seq<Stored>, n: nat, encode: Event -> seq<Byte>, decode: seq<Byte> -> Decoded)
    returns (j: nat, torn: bool, r: Reader)
    requires w.Valid() && WindowsKept(w.reader, w.disk) && Settled(w.reader) && Appendable(batch, w.reader.nextCursor, w.ends)
    requires Codec(encode, decode) && Encoded(encode, w.disk) && Encoded(encode, batch)
    requires n <= |Lines(encode, EventsOf(batch))|
    ensures j <= |batch| && (n == |Lines(encode, EventsOf(batch))| ==> j == |batch| && !torn)
    ensures var p := Parse(Lines(encode, EventsOf(w.disk)) + Lines(encode, EventsOf(batch))[..n], decode);
            && p.usable && p.damaged == torn && p.records == w.disk + batch[..j]
            && r == Closed(Replay(Persisted(w.reader), p.records, w.reader.nextCursor, w.head), torn)
    ensures r.events == w.reader.events + batch[..j] && WellKept(r) && Within(r.gaps, r.nextCursor)
    ensures r.nextCursor >= w.reader.nextCursor && forall n :: Covered(w.reader.gaps, n) ==> Covered(r.gaps, n)
    ensures KnownBetween(w.reader, batch[..j]) ==> Settled(r)
    ensures |w.reader.gaps| + 2 <= MAX_GAPS && Settled(r) ==> KnownBetween(w.reader, batch[..j])
  {
    hide Parse, Lines, Coherent, Continuing, Indexed, WellKept, Ascending, Ends, WindowsKept, Codec, Encoded, Appendable, Replay, Closed, Has,
         Covered, Reload, RetiredOnReload, Settled, KnownBetween, Within, Continued;
    j, torn := CrashDuringAppend(w, batch, n, encode, decode);
    r := Closed(Replay(Persisted(w.reader), w.disk + batch[..j], w.reader.nextCursor, w.head), torn);
    AppendableContinues(batch, w.reader.nextCursor, w.ends);
    AgreesExactly(w.reader, w.disk, w.head);
    WellKeptAscending(w.reader);
    ReloadIsMemory(w.reader, w.disk, w.head);
    CodecLines(encode, decode);
    EncodedSizes(encode, w.disk);
    EncodedSizes(encode, batch);
    CoverageOfBatch(w.reader, w.disk, batch, j, torn, w.ends, w.head);
  }

  lemma CoverageOfBatch(r: Reader, disk: seq<Stored>, batch: seq<Stored>, j: nat, torn: bool, ends: map<nat, nat>, head: nat)
    requires WellKept(r) && Ascending(disk) && Settled(r) && r.events == Reload(disk, r, head) && Ends(ends, disk, r.windows)
    requires Continued(batch, r.nextCursor, ends) && j <= |batch| && r.earliest <= r.nextCursor
    requires forall s :: s in disk ==> 1 <= s.event.seqNo <= r.nextCursor && 1 <= s.size <= EVENT_LIMIT
    requires forall s :: s in batch ==> 1 <= s.size <= EVENT_LIMIT
    requires Replay(Persisted(r), disk + batch[..j], r.nextCursor, head) == InsertedAll(r, batch[..j])
    ensures var c := Closed(Replay(Persisted(r), disk + batch[..j], r.nextCursor, head), torn);
            && c.events == r.events + batch[..j] && WellKept(c) && Within(c.gaps, c.nextCursor)
            && c.nextCursor >= r.nextCursor && (forall n :: Covered(r.gaps, n) ==> Covered(c.gaps, n))
            && (KnownBetween(r, batch[..j]) ==> Settled(c))
            && (|r.gaps| + 2 <= MAX_GAPS && Settled(c) ==> KnownBetween(r, batch[..j]))
  {
    hide WellKept, Ascending, Ends, Replay, Closed, Has, Covered, Reload, RetiredOnReload, Settled, KnownBetween, Known, StillKnown, Within,
         InsertedAll, TotalSize;
    var state, written := Persisted(r), disk + batch[..j];
    BatchShape(r, batch[..j]);
    AscendingBatch(disk, batch, j, r.nextCursor, ends);
    NothingRetired(r, disk, batch, j, ends, head);
    assert forall s :: s in batch[..j] ==> s in batch;
    hide Continued;
    CountKept(r);
    RecoveredIsKept(state, written, torn, head);
    ReplayCursor(state, written, r.nextCursor, head);
    ClosedEvents(Replay(state, written, r.nextCursor, head), torn);
    CoverageAfterCrash(state, written, torn, head);
    KnownBetweenIsKnown(r, disk, batch[..j], head);
  }

  lemma CodecLines(encode: Event -> seq<Byte>, decode: seq<Byte> -> Decoded)
    requires Codec(encode, decode)
    ensures forall e :: IsLine(encode(e))
  {
  }

  lemma CountKept(r: Reader)
    requires WellKept(r)
    ensures |r.gaps| <= MAX_GAPS
  {
  }

  lemma AscendingBatch(disk: seq<Stored>, batch: seq<Stored>, j: nat, cursor: nat, ends: map<nat, nat>)
    requires Ascending(disk) && (forall s :: s in disk ==> s.event.seqNo <= cursor) && Continued(batch, cursor, ends) && j <= |batch|
    ensures Ascending(batch[..j]) && Ascending(disk + batch[..j])
  {
    InOrderAscending(batch[..j]);
    if disk != [] { assert disk[|disk| - 1] in disk; }
    AscendingJoin(disk, batch[..j]);
  }

  lemma EncodedSizes(encode: Event -> seq<Byte>, s: seq<Stored>)
    requires Encoded(encode, s) && forall e :: IsLine(encode(e))
    ensures forall x :: x in s ==> 1 <= x.event.seqNo && 1 <= x.size <= EVENT_LIMIT
  {
    forall x | x in s ensures 1 <= x.event.seqNo && 1 <= x.size <= EVENT_LIMIT {
      assert IsLine(encode(x.event));
    }
  }

  lemma NothingRetired(r: Reader, disk: seq<Stored>, batch: seq<Stored>, j: nat, ends: map<nat, nat>, head: nat)
    requires Ends(ends, disk, r.windows) && r.earliest <= r.nextCursor && Continued(batch, r.nextCursor, ends) && j <= |batch|
    requires forall s :: s in disk ==> s.event.seqNo <= r.nextCursor
    ensures forall s :: s in disk + batch[..j] && s.event.seqNo > r.nextCursor ==> !RetiredOnReload(Persisted(r), s.event, head)
  {
    forall s | s in disk + batch[..j] && s.event.seqNo > r.nextCursor ensures !RetiredOnReload(Persisted(r), s.event, head) {
      assert s in batch;
    }
  }

  lemma LastWritten(disk: seq<Stored>, written: seq<Stored>, cursor: nat)
    requires forall s :: s in disk ==> s.event.seqNo <= cursor
    ensures if written == [] then LastSeq(disk + written) <= cursor else LastSeq(disk + written) == CursorAfter(cursor, written)
  {
    if written == [] {
      assert disk + written == disk;
      assert disk != [] ==> disk[|disk| - 1] in disk;
    }
  }

  lemma KnownBetweenIsKnown(r: Reader, disk: seq<Stored>, written: seq<Stored>, head: nat)
    requires Settled(r) && r.events == Reload(disk, r, head) && forall s :: s in disk ==> s.event.seqNo <= r.nextCursor
    ensures StillKnown(Persisted(r), disk + written, head)
    ensures Known(Persisted(r), disk + written) <==> KnownBetween(r, written)
  {
    hide Reload, RetiredOnReload;
    SameJudgement(r, disk + written, head);
    var all := Reload(disk + written, r, head);
    forall n | 1 <= n <= r.nextCursor ensures Has(all, n) || Covered(r.gaps, n) {
      assert Accounted(r, n);
      if Has(r.events, n) {
        var i :| 0 <= i < |r.events| && r.events[i].event.seqNo == n;
        ReloadMembers(disk, r, head, r.events[i]);
        ReloadMembers(disk + written, r, head, r.events[i]);
        var k :| 0 <= k < |all| && all[k] == r.events[i];
      }
    }
    LastWritten(disk, written, r.nextCursor);
    forall n | n > r.nextCursor ensures Has(disk + written, n) <==> Has(written, n) {
      HasSplit(disk, written, n);
      NoneAbove(disk, r.nextCursor, n);
    }
  }

  lemma NoneAbove(s: seq<Stored>, cursor: nat, n: nat)
    requires (forall x :: x in s ==> x.event.seqNo <= cursor) && n > cursor
    ensures !Has(s, n)
  {
    assert forall i :: 0 <= i < |s| ==> s[i] in s;
  }

  /** Each number between the cursor and the last of the events is one of them or in a gap. */
  ghost predicate KnownBetween(r: Reader, written: seq<Stored>) {
    forall n :: r.nextCursor < n <= CursorAfter(r.nextCursor, written) ==> Has(written, n) || Covered(r.gaps, n)
  }

  /** The failing case: number 1 is durable and persisted, number 2 was too large for an event,
      number 3 became durable, and the process died before the state was persisted again.
      After the restart nothing accounts for number 2. */
  lemma LossForgotten(state: Reader, disk: seq<Stored>)
    requires state == Reader(1, 0, false, [], map[], Open(map[], map[]), [], 0)
    requires disk == [Stored(Event(1, Other, None, None, 0, 0, 0, ""), 1), Stored(Event(3, Other, None, None, 0, 0, 0, ""), 1)]
    ensures !Accounted(Closed(Replay(state, disk, state.nextCursor, 0), false), 2)
    ensures Closed(Replay(state, disk, state.nextCursor, 0), false).nextCursor == 3
  {
    assert disk[..1] == [disk[0]] && disk[..1][..0] == [];
    var r := Replay(state, disk, 1, 0);
    assert Replay(state, disk[..1], 1, 0) == ReplayOne(state, disk[0], 1, 0);
    assert r.events == [disk[0], disk[1]] && r.nextCursor == 3 && r.gaps == [];
    assert Furthest(r.gaps) == 0;
  }

  // ---------------------------------------------------------------- sealing what was interrupted

  /** Each open session and workflow is recorded under its own identity. */
  ghost predicate OwnIds(o: Open) {
    && (forall id :: id in o.sessions ==> o.sessions[id].session == Some(id))
    && (forall id :: id in o.workflows ==> o.workflows[id].workflow == Some(id))
  }

  lemma {:induction false} FoldOwnIds(o: Open, events: seq<Stored>)
    requires OwnIds(o)
    ensures OwnIds(FoldOpen(o, events))
  {
    if events != [] { FoldOwnIds(o, events[..|events| - 1]); }
  }

  /** Numbered from `next + 1` on. */
  ghost predicate Numbered(batch: seq<Stored>, next: nat, size: Event -> nat) {
    forall i :: 0 <= i < |batch| ==> batch[i].event.seqNo == next + 1 + i && batch[i].size == size(batch[i].event)
  }

  /** The event that interrupts this, under the workflow it belonged to. */
  predicate Seals(e: Event, o: Open, what: Subject) {
    match what
    case ASession(id) => id in o.sessions && e.kind == SessionInterrupted && e.session == Some(id) && e.workflow == o.sessions[id].workflow
    case AWorkflow(id) => id in o.workflows && e.kind == WorkflowInterrupted && e.session == None && e.workflow == Some(id)
  }

  ghost predicate Sealed(batch: seq<Stored>, o: Open, what: Subject) {
    exists i :: 0 <= i < |batch| && Seals(batch[i].event, o, what)
  }

  lemma SealedMore(batch: seq<Stored>, more: seq<Stored>, o: Open, what: Subject)
    ensures Sealed(batch + more, o, what) <==> Sealed(batch, o, what) || Sealed(more, o, what)
  {
    if Sealed(batch, o, what) {
      var i :| 0 <= i < |batch| && Seals(batch[i].event, o, what);
      assert (batch + more)[i] == batch[i];
    }
    if Sealed(more, o, what) {
      var i :| 0 <= i < |more| && Seals(more[i].event, o, what);
      assert (batch + more)[|batch| + i] == more[i];
    }
  }

  lemma OneSealed(batch: seq<Stored>, s: Stored, o: Open, what: Subject)
    requires Seals(s.event, o, what)
    ensures Sealed(batch + [s], o, what)
    ensures forall other :: Sealed(batch, o, other) ==> Sealed(batch + [s], o, other)
  {
    assert [s][0] == s;
    SealedMore(batch, [s], o, what);
    forall other ensures Sealed(batch, o, other) ==> Sealed(batch + [s], o, other) { SealedMore(batch, [s], o, other); }
  }

  lemma SessionSealed(o: Open, left: map<nat, Event>, e: Event, id: nat)
    requires id in left && id in o.sessions && left[id] == o.sessions[id] && OwnIds(Open(left, o.workflows))
    requires e.kind == SessionInterrupted && e.session == left[id].session && e.workflow == left[id].workflow
    ensures Lifecycle(Open(left, o.workflows), e) == Open(left - {id}, o.workflows) && Seals(e, o, ASession(id))
    ensures OwnIds(Open(left - {id}, o.workflows))
  {
  }

  lemma WorkflowSealed(o: Open, left: map<nat, Event>, e: Event, id: nat)
    requires id in left && id in o.workflows && left[id] == o.workflows[id] && OwnIds(Open(map[], left))
    requires e.kind == WorkflowInterrupted && e.session == None && e.workflow == left[id].workflow
    ensures Lifecycle(Open(map[], left), e) == Open(map[], left - {id}) && Seals(e, o, AWorkflow(id))
    ensures OwnIds(Open(map[], left - {id}))
  {
  }

  lemma NothingFolded(o: Open, next: nat, size: Event -> nat)
    ensures FoldOpen(o, []) == o && Numbered([], next, size)
  {
  }

  lemma NumberedMore(batch: seq<Stored>, next: nat, size: Event -> nat, e: Event)
    requires Numbered(batch, next, size) && e.seqNo == next + 1 + |batch|
    ensures Numbered(batch + [Stored(e, size(e))], next, size)
  {
  }

  method SealSessions(o: Open, next: nat, size: Event -> nat) returns (batch: seq<Stored>)
    requires OwnIds(o)
    ensures FoldOpen(o, batch) == Open(map[], o.workflows) && Numbered(batch, next, size) && |batch| == |o.sessions|
    ensures forall id :: id in o.sessions ==> Sealed(batch, o, ASession(id))
    ensures forall i :: 0 <= i < |batch| ==> batch[i].event.kind == SessionInterrupted
  {
    hide *;
    batch := [];
    NothingFolded(o, next, size);
    var left := o.sessions;
    while left.Keys != {}
      invariant OwnIds(Open(left, o.workflows)) && Numbered(batch, next, size)
      invariant FoldOpen(o, batch) == Open(left, o.workflows) && |batch| + |left| == |o.sessions|
      invariant forall id :: id in left ==> id in o.sessions && left[id] == o.sessions[id]
      invariant forall id :: id in o.sessions && id !in left ==> Sealed(batch, o, ASession(id))
      invariant forall i :: 0 <= i < |batch| ==> batch[i].event.kind == SessionInterrupted
      decreases |left|
    {
      var id :| id in left.Keys;
      var e := Event(next + 1 + |batch|, SessionInterrupted, left[id].session, left[id].workflow, 0, 0, 0, "");
      FoldOne(o, batch, Stored(e, size(e)));
      NumberedMore(batch, next, size, e);
      OneFewer(left, id);
      SessionSealed(o, left, e, id);
      OneSealed(batch, Stored(e, size(e)), o, ASession(id));
      left := left - {id};
      batch := batch + [Stored(e, size(e))];
    }
    assert left == map[];
  }

  method SealWorkflows(o: Open, next: nat, size: Event -> nat) returns (batch: seq<Stored>)
    requires OwnIds(o) && o.sessions == map[]
    ensures FoldOpen(o, batch) == Open(map[], map[]) && Numbered(batch, next, size) && |batch| == |o.workflows|
    ensures forall id :: id in o.workflows ==> Sealed(batch, o, AWorkflow(id))
    ensures forall i :: 0 <= i < |batch| ==> batch[i].event.kind == WorkflowInterrupted
  {
    hide *;
    batch := [];
    NothingFolded(o, next, size);
    var left := o.workflows;
    while left.Keys != {}
      invariant OwnIds(Open(map[], left)) && Numbered(batch, next, size)
      invariant FoldOpen(o, batch) == Open(map[], left) && |batch| + |left| == |o.workflows|
      invariant forall id :: id in left ==> id in o.workflows && left[id] == o.workflows[id]
      invariant forall id :: id in o.workflows && id !in left ==> Sealed(batch, o, AWorkflow(id))
      invariant forall i :: 0 <= i < |batch| ==> batch[i].event.kind == WorkflowInterrupted
      decreases |left|
    {
      var id :| id in left.Keys;
      var e := Event(next + 1 + |batch|, WorkflowInterrupted, None, left[id].workflow, 0, 0, 0, "");
      FoldOne(o, batch, Stored(e, size(e)));
      NumberedMore(batch, next, size, e);
      OneFewer(left, id);
      WorkflowSealed(o, left, e, id);
      OneSealed(batch, Stored(e, size(e)), o, AWorkflow(id));
      left := left - {id};
      batch := batch + [Stored(e, size(e))];
    }
    assert left == map[];
  }

  /** The first batch of a new process: an interruption for every session and workflow that
      was open, and for nothing else, and its own start, under numbers of their own. Once it is
      durable nothing of the old process is open. */
  method Startup(o: Open, next: nat, size: Event -> nat) returns (batch: seq<Stored>)
    requires OwnIds(o)
    ensures FoldOpen(o, batch) == Open(map[], map[]) && Numbered(batch, next, size)
    ensures |batch| == |o.sessions| + |o.workflows| + 1
    ensures forall what :: Sealed(batch, o, what) <==> Recorded(o, what).Some?
    ensures forall i :: 0 <= i < |batch| ==>
      batch[i].event.kind == if i < |o.sessions| then SessionInterrupted else if i < |batch| - 1 then WorkflowInterrupted else Other
  {
    hide FoldOpen, Sealed, Seals, Recorded;
    var sessions := SealSessions(o, next, size);
    var workflows := SealWorkflows(o.(sessions := map[]), next + |sessions|, size);
    var started := Event(next + 1 + |sessions| + |workflows|, Other, None, None, 0, 0, 0, "");
    batch := sessions + workflows + [Stored(started, size(started))];
    FoldAppend(o, sessions, workflows);
    FoldOne(o, sessions + workflows, Stored(started, size(started)));
    StartupSeals(o, sessions, workflows, Stored(started, size(started)));
  }

  lemma StartupSeals(o: Open, sessions: seq<Stored>, workflows: seq<Stored>, last: Stored)
    requires forall id :: id in o.sessions ==> Sealed(sessions, o, ASession(id))
    requires forall id :: id in o.workflows ==> Sealed(workflows, o.(sessions := map[]), AWorkflow(id))
    ensures forall what :: Sealed(sessions + workflows + [last], o, what) <==> Recorded(o, what).Some?
  {
    forall what ensures Sealed(sessions + workflows + [last], o, what) <==> Recorded(o, what).Some? {
      SealedMore(sessions + workflows, [last], o, what);
      SealedMore(sessions, workflows, o, what);
      if what.AWorkflow? { SameSeals(workflows, o, what.id); }
    }
  }

  lemma SameSeals(batch: seq<Stored>, o: Open, id: nat)
    ensures Sealed(batch, o.(sessions := map[]), AWorkflow(id)) == Sealed(batch, o, AWorkflow(id))
  {
    forall i | 0 <= i < |batch| ensures Seals(batch[i].event, o.(sessions := map[]), AWorkflow(id)) == Seals(batch[i].event, o, AWorkflow(id)) {}
  }
}
