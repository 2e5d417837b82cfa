/** The session supervisor: one event loop that owns the input queue, the terminal and the
    process group of a session. */
module Supervisor {
  import opened Collections
  import opened Paths
  import opened Utf8

  datatype Input = Input(id: nat, bytes: seq<Byte>, offset: nat)

  datatype Outcome = Written | WriteFailed | Interrupted

  datatype Completion = Completion(id: nat, outcome: Outcome)

  /** What happened to the process group, in order. A scan of the process table is empty or not. */
  datatype Action = SawExit | Term | Kill | ScanEmpty | ScanLive | Reaped

  function Ids(inputs: seq<Input>): (r: seq<nat>)
    ensures |r| == |inputs| && forall i :: 0 <= i < |r| ==> r[i] == inputs[i].id
  {
    seq(|inputs|, i requires 0 <= i < |inputs| => inputs[i].id)
  }

  function CompletedIds(c: seq<Completion>): (r: seq<nat>)
    ensures |r| == |c| && forall i :: 0 <= i < |r| ==> r[i] == c[i].id
  {
    seq(|c|, i requires 0 <= i < |c| => c[i].id)
  }

  function PendingIds(p: Option<Input>): seq<nat> {
    if p.Some? then [p.value.id] else []
  }

  /** The bytes of whole inputs, one after the other. */
  ghost function Bytes(inputs: seq<Input>): seq<Byte> {
    if inputs == [] then [] else Bytes(inputs[..|inputs| - 1]) + inputs[|inputs| - 1].bytes
  }

  /** What was written of an input that is not finished. */
  ghost function Part(p: Option<Input>): seq<Byte>
    requires p.Some? ==> p.value.offset <= |p.value.bytes|
  {
    if p.Some? then p.value.bytes[..p.value.offset] else []
  }

  /** The ids of the inputs that were written completely, in the order of their completion. */
  ghost function WrittenIds(c: seq<Completion>): seq<nat> {
    if c == [] then []
    else WrittenIds(c[..|c| - 1]) + (if c[|c| - 1].outcome == Written then [c[|c| - 1].id] else [])
  }

  lemma WrittenIdsMore(c: seq<Completion>, x: Completion)
    ensures WrittenIds(c + [x]) == WrittenIds(c) + (if x.outcome == Written then [x.id] else [])
  {
    assert (c + [x])[..|c|] == c;
  }

  lemma BytesMore(inputs: seq<Input>, x: Input)
    ensures Bytes(inputs + [x]) == Bytes(inputs) + x.bytes
  {
    assert (inputs + [x])[..|inputs|] == inputs;
  }

  /** The leader is reaped only after its exit was seen and the group was asked to stop, and
      right after an empty scan, a kill and another empty scan; no signal follows. */
  ghost predicate ReapedLast(log: seq<Action>) {
    Reaped in log ==>
      |log| >= 4 &&
      var before := log[..|log| - 4];
      log == before + [ScanEmpty, Kill, ScanEmpty, Reaped] && SawExit in before && Term in before && Reaped !in before
  }

  lemma LogReaped(log: seq<Action>)
    requires Reaped !in log && SawExit in log && Term in log
    ensures ReapedLast(log + [ScanEmpty, Kill, ScanEmpty, Reaped])
  {
    var all := log + [ScanEmpty, Kill, ScanEmpty, Reaped];
    assert all[..|all| - 4] == log;
  }

  // ---------------------------------------------------------------- the process group

  /** Processes fork and die; after a kill they only die. */
  function Evolved(members: set<nat>, frozen: bool, next: set<nat>): set<nat> {
    if frozen then members * next else next
  }

  /** What looking for the leader's exit finds. */
  datatype Exit = Running | Exited | Lost | Unknown

  /** `PtyProcess` and the group behind it. `members` are the live members of the group; a kill
      stops them from forking. */
  class PtyProcess {
    var identityOwned: bool
    var childHeld: bool
    var members: set<nat>
    var frozen: bool
    ghost var log: seq<Action>

    ghost predicate Valid() reads this {
      && ReapedLast(log) && (Reaped in log ==> !identityOwned && !childHeld && frozen && members == {})
      && (childHeld <==> Reaped !in log)
    }

    constructor (members: set<nat>)
      ensures Valid() && identityOwned && childHeld && log == [] && this.members == members && !frozen
    {
      identityOwned, childHeld, frozen, log := true, true, false, [];
      this.members := members;
    }

    /** Processes fork and die; after a kill they only die. */
    method Evolve(next: set<nat>)
      requires Valid()
      modifies this`members
      ensures Valid() && members == if frozen then old(members) * next else next
    {
      ReapedStaysEmpty();
      members := Evolved(members, frozen, next);
    }

    lemma ReapedStaysEmpty()
      requires Valid()
      ensures Reaped in log ==> forall next: set<nat> :: members * next == {}
    {
    }

    /** `observe_exit`: look, do not reap. Losing the child to another waiter ends ownership. */
    method ObserveExit(exit: Exit) returns (seen: bool, failed: bool)
      requires Valid() && childHeld
      modifies this`identityOwned, this`log
      ensures Valid() && (seen <==> exit == Exited) && (failed <==> exit in {Lost, Unknown})
      ensures log == if seen then old(log) + [SawExit] else old(log)
      ensures identityOwned == (old(identityOwned) && exit != Lost)
    {
      seen, failed := exit == Exited, exit in {Lost, Unknown};
      if exit == Lost { identityOwned := false; }
      if seen { log := log + [SawExit]; }
    }

    /** `signal_group`: refused without ownership of the group's identity. */
    method SignalGroup(signal: Action, permitted: bool) returns (ok: bool)
      requires Valid() && signal in {Term, Kill}
      modifies this`log, this`frozen
      ensures Valid() && (ok <==> identityOwned && permitted)
      ensures log == if ok then old(log) + [signal] else old(log)
      ensures frozen == (old(frozen) || (ok && signal == Kill))
    {
      ok := identityOwned && permitted;
      if ok {
        log := log + [signal];
        frozen := frozen || signal == Kill;
      }
    }

    /** A scan of the process table, during which the group changes from what it was to
        `members`: whoever is there all the time is seen, others perhaps. */
    method Scan(next: set<nat>, glimpsed: bool) returns (live: bool)
      requires Valid() && childHeld
      modifies this`members, this`log
      ensures Valid() && members == (if frozen then old(members) * next else next)
      ensures live <==> old(members) * members != {} || glimpsed
      ensures log == old(log) + [if live then ScanLive else ScanEmpty]
      ensures frozen && !live ==> members == {}
    {
      var before := members;
      Evolve(next);
      live := before * members != {} || glimpsed;
      log := log + [if live then ScanLive else ScanEmpty];
    }

    /** `reap`: only when the group is quiet. */
    method Reap(ok: bool, lost: bool) returns (reaped: bool)
      requires Valid() && childHeld && frozen && members == {}
      requires exists before :: log == before + [ScanEmpty, Kill, ScanEmpty] && SawExit in before && Term in before
      modifies this`identityOwned, this`childHeld, this`log
      ensures Valid() && reaped == ok && childHeld == !ok
      ensures log == if reaped then old(log) + [Reaped] else old(log)
      ensures identityOwned == (old(identityOwned) && !ok && !lost)
    {
      reaped := ok;
      if !ok {
        if lost { identityOwned := false; }
        return;
      }
      ghost var before :| log == before + [ScanEmpty, Kill, ScanEmpty] && SawExit in before && Term in before;
      assert Reaped !in before;
      LogReaped(before);
      assert log + [Reaped] == before + [ScanEmpty, Kill, ScanEmpty, Reaped];
      identityOwned := false;
      childHeld := false;
      log := log + [Reaped];
    }
  }

  // ---------------------------------------------------------------- the event loop

  /** Inputs are taken, finished or refused in the order they were sent, each once. */
  ghost predicate InputsInOrder(completed: seq<Completion>, pending: Option<Input>, queue: seq<Input>, sent: seq<Input>, wrote: seq<Input>) {
    && CompletedIds(completed) + (PendingIds(pending) + Ids(queue)) == Ids(sent)
    && Ids(wrote) == WrittenIds(completed)
    && (forall i :: 0 <= i < |queue| ==> queue[i].offset == 0)
  }

  /** The terminal got the finished inputs and then at most a part of one more. */
  ghost predicate WrittenInOrder(pending: Option<Input>, givenUp: Option<Input>, ending: bool, wrote: seq<Input>, pty: seq<Byte>) {
    && (pending.Some? ==> pending.value.offset <= |pending.value.bytes| && givenUp == None)
    && (givenUp.Some? ==> givenUp.value.offset <= |givenUp.value.bytes| && ending)
    && pty == Bytes(wrote) + Part(if pending.Some? then pending else givenUp)
  }

  lemma CompletedMore(c: seq<Completion>, x: Completion)
    ensures CompletedIds(c + [x]) == CompletedIds(c) + [x.id]
    ensures WrittenIds(c + [x]) == WrittenIds(c) + (if x.outcome == Written then [x.id] else [])
  {
    WrittenIdsMore(c, x);
  }

  lemma IdsMore(inputs: seq<Input>, x: Input)
    ensures Ids(inputs + [x]) == Ids(inputs) + [x.id]
    ensures Ids([x] + inputs) == [x.id] + Ids(inputs)
  {
  }

  /** The input under way is finished, one way or another. */
  lemma FinishPending(completed: seq<Completion>, input: Input, queue: seq<Input>, sent: seq<Input>, wrote: seq<Input>, outcome: Outcome)
    requires InputsInOrder(completed, Some(input), queue, sent, wrote)
    ensures InputsInOrder(completed + [Completion(input.id, outcome)], None, queue, sent,
                          if outcome == Written then wrote + [input] else wrote)
  {
    hide CompletedIds, Ids, WrittenIds;
    CompletedMore(completed, Completion(input.id, outcome));
    IdsMore(wrote, input);
    assert CompletedIds(completed) + ([input.id] + Ids(queue)) == CompletedIds(completed) + [input.id] + ([] + Ids(queue));
  }

  lemma TakeNext(completed: seq<Completion>, queue: seq<Input>, sent: seq<Input>, wrote: seq<Input>)
    requires InputsInOrder(completed, None, queue, sent, wrote) && queue != []
    ensures InputsInOrder(completed, Some(queue[0]), queue[1..], sent, wrote) && queue[0].offset == 0
  {
    hide CompletedIds, WrittenIds;
    assert queue == [queue[0]] + queue[1..];
    IdsMore(queue[1..], queue[0]);
    assert [] + Ids(queue) == [queue[0].id] + Ids(queue[1..]);
  }

  lemma SendNext(completed: seq<Completion>, pending: Option<Input>, queue: seq<Input>, sent: seq<Input>, wrote: seq<Input>, x: Input)
    requires InputsInOrder(completed, pending, queue, sent, wrote) && x.offset == 0
    ensures InputsInOrder(completed, pending, queue + [x], sent + [x], wrote)
  {
    hide CompletedIds, Ids, WrittenIds;
    IdsMore(queue, x);
    IdsMore(sent, x);
    assert CompletedIds(completed) + (PendingIds(pending) + (Ids(queue) + [x.id])) ==
           CompletedIds(completed) + (PendingIds(pending) + Ids(queue)) + [x.id];
  }

  /** What a tick of the loop finds and how its system calls go. */
  datatype Found = Found(exit: Exit, termOk: bool, killDue: bool, killOk: bool, first: set<nat>, glimpsed: bool, scanOk: bool,
                         finalKillOk: bool, second: set<nat>, glimpsedAgain: bool, rescanOk: bool, reapOk: bool, reapLost: bool, drainOver: bool)

  /** The group and the system calls let this tick reap the leader: two empty scans around a kill. */
  predicate Quiet(found: Found, members: set<nat>, frozen: bool, owned: bool) {
    var now := Evolved(members, frozen, found.first);
    && found.scanOk && members * now == {} && !found.glimpsed
    && owned && found.finalKillOk
    && found.rescanOk && now * found.second == {} && !found.glimpsedAgain && found.reapOk
  }

  /** A look at the leader did not find that somebody else has reaped it. */
  predicate SureOfLeader(exited: bool, found: Found) { exited || found.exit != Lost }

  /** Inputs that are refused because the session ends. */
  function Refusals(ids: seq<nat>): (r: seq<Completion>)
    ensures |r| == |ids| && forall i :: 0 <= i < |r| ==> r[i] == Completion(ids[i], Interrupted)
  {
    seq(|ids|, i requires 0 <= i < |ids| => Completion(ids[i], Interrupted))
  }

  /** The input under way is refused first. */
  lemma FirstRefused(completed: seq<Completion>, pending: Option<Input>, rest: seq<nat>)
    ensures pending.None? ==> completed + Refusals(rest) == completed + Refusals(PendingIds(pending) + rest)
    ensures pending.Some? ==>
      completed + [Completion(pending.value.id, Interrupted)] + Refusals(rest) == completed + Refusals(PendingIds(pending) + rest)
  {
    hide Refusals;
    if pending.None? {
      assert PendingIds(pending) + rest == rest;
    } else {
      var ids := PendingIds(pending) + rest;
      assert forall i :: 0 <= i < |rest| ==> ids[i + 1] == rest[i];
      assert Refusals(ids) == [Completion(pending.value.id, Interrupted)] + Refusals(rest);
    }
  }

  lemma RefuseNext(completed: seq<Completion>, queue: seq<Input>)
    requires queue != []
    ensures completed + Refusals(Ids(queue)) == completed + [Completion(queue[0].id, Interrupted)] + Refusals(Ids(queue[1..]))
  {
    assert queue == [queue[0]] + queue[1..];
    IdsMore(queue[1..], queue[0]);
    hide Ids, Refusals;
    FirstRefused(completed, Some(queue[0]), Ids(queue[1..]));
  }

  datatype Event = Stop | Tick(found: Found) | Take | ReadSome(bytes: seq<Byte>) | ReadEnd | ReadError | WriteSome(count: nat) | WriteError

  class Supervisor {
    const process: PtyProcess
    const decoder: Utf8StreamDecoder
    // the request side
    var stopRequested: bool
    var queue: seq<Input>
    var closed: bool
    // the loop
    var stopping: bool
    var termSent: bool
    var pending: Option<Input>
    var leaderExited: bool
    var readerDone: bool
    var truncated: bool
    // results
    var completed: seq<Completion>
    var text: seq<Scalar>
    var terminal: bool
    ghost var sent: seq<Input>
    ghost var wrote: seq<Input>
    ghost var givenUp: Option<Input>
    ghost var pty: seq<Byte>
    ghost var received: seq<seq<Byte>>

    ghost predicate InOrder() reads this {
      && InputsInOrder(completed, pending, queue, sent, wrote)
      && WrittenInOrder(pending, givenUp, stopRequested || stopping, wrote, pty)
    }

    ghost predicate Valid() reads this, process, decoder {
      && process.Valid() && decoder.Valid()
      && (leaderExited ==> SawExit in process.log) && (termSent ==> Term in process.log)
      && (leaderExited || termSent || !process.childHeld ==> stopping)
      && (terminal ==> !process.childHeld && readerDone && CompletedIds(completed) == Ids(sent))
      && (stopping <==> closed) && (stopping ==> pending == None)
      && (if terminal then text == Lossy(Concat(received)) else Drained(text, decoder.pending) == Drain(Concat(received)))
      && InOrder() && (closed ==> queue == [])
    }

    /** A terminal that cannot be registered for reading ends the session at once. */
    constructor (process: PtyProcess, decoder: Utf8StreamDecoder, registered: bool)
      requires process.Valid() && process.childHeld && decoder.Valid() && decoder.pending == []
      ensures Valid() && fresh(this) && this.process == process && this.decoder == decoder && !terminal && sent == [] && received == []
      ensures readerDone == truncated == stopRequested == !registered && !stopping
    {
      this.process, this.decoder := process, decoder;
      stopRequested, queue, closed, stopping, termSent := !registered, [], false, false, false;
      pending, leaderExited, readerDone, truncated, completed, text, terminal := None, false, !registered, !registered, [], [], false;
      sent, wrote, givenUp, pty, received := [], [], None, [], [];
    }

    // -------------------------------------------------------------- requests

    /** A client's input enters the queue unless it is closed. */
    method Send(id: nat, bytes: seq<Byte>) returns (ok: bool)
      requires Valid()
      modifies this`queue, this`sent
      ensures Valid() && (ok <==> !closed)
      ensures sent == if ok then old(sent) + [Input(id, bytes, 0)] else old(sent)
    {
      hide InputsInOrder, WrittenInOrder, Drain, Lossy;
      ok := !closed;
      if ok {
        SendNext(completed, pending, queue, sent, wrote, Input(id, bytes, 0));
        queue := queue + [Input(id, bytes, 0)];
        sent := sent + [Input(id, bytes, 0)];
      }
    }

    method RequestStop()
      requires Valid()
      modifies this`stopRequested
      ensures Valid() && stopRequested
    {
      hide InputsInOrder, Drain, Lossy, ReapedLast, CompletedIds, Ids, Bytes;
      stopRequested := true;
    }

    method Complete(input: Input, outcome: Outcome)
      modifies this`completed
      ensures completed == old(completed) + [Completion(input.id, outcome)]
    {
      completed := completed + [Completion(input.id, outcome)];
    }

    /** Give up the input under way. */
    method RefusePending(outcome: Outcome)
      requires InOrder() && (stopRequested || stopping) && outcome != Written
      modifies this`pending, this`completed, this`givenUp
      ensures InOrder() && pending == None
      ensures old(pending).None? ==> completed == old(completed) && givenUp == old(givenUp)
      ensures old(pending).Some? ==> completed == old(completed) + [Completion(old(pending).value.id, outcome)] && givenUp == old(pending)
    {
      if pending.None? { return; }
      hide InputsInOrder;
      FinishPending(completed, pending.value, queue, sent, wrote, outcome);
      Complete(pending.value, outcome);
      givenUp := pending;
      pending := None;
    }

    /** Refuse the input at the head of the queue. */
    method RefuseOne()
      requires InOrder() && pending == None && queue != []
      modifies this`queue, this`completed
      ensures InOrder() && queue == old(queue)[1..] && completed == old(completed) + [Completion(old(queue)[0].id, Interrupted)]
    {
      hide InputsInOrder, WrittenInOrder;
      TakeNext(completed, queue, sent, wrote);
      FinishPending(completed, queue[0], queue[1..], sent, wrote, Interrupted);
      Complete(queue[0], Interrupted);
      queue := queue[1..];
    }

    /** `reject_inputs`: close the queue and refuse what is in it, the input under way first. */
    method RejectInputs()
      requires InOrder() && (stopRequested || stopping)
      modifies this`closed, this`pending, this`queue, this`completed, this`givenUp
      ensures InOrder() && closed && pending == None && queue == []
      ensures CompletedIds(completed) == Ids(sent)
      ensures completed == old(completed) + Refusals(PendingIds(old(pending)) + Ids(old(queue)))
    {
      closed := true;
      RefusePending(Interrupted);
      hide InputsInOrder, WrittenInOrder, Ids, CompletedIds, Refusals, PendingIds;
      FirstRefused(old(completed), old(pending), Ids(queue));
      while queue != []
        invariant InOrder() && closed && pending == None
        invariant completed + Refusals(Ids(queue)) == old(completed) + Refusals(PendingIds(old(pending)) + Ids(old(queue)))
        decreases |queue|
      {
        RefuseNext(completed, queue);
        RefuseOne();
      }
      AllCompleted(completed, sent, wrote);
    }

    // -------------------------------------------------------------- events

    /** The stop request is served before any other event. */
    predicate StopFirst() reads this { stopRequested && !stopping }

    method OnStop()
      requires Valid() && StopFirst()
      modifies this`stopping, this`closed, this`pending, this`queue, this`completed, this`givenUp
      ensures Valid() && stopping && closed && CompletedIds(completed) == Ids(sent)
      ensures completed == old(completed) + Refusals(PendingIds(old(pending)) + Ids(old(queue)))
    {
      hide InputsInOrder, Drain, Lossy;
      stopping := true;
      RejectInputs();
    }

    /** Take the next input, if none is under way. */
    method OnTake()
      requires Valid() && !StopFirst() && !stopping && pending == None && queue != []
      modifies this`pending, this`queue
      ensures Valid() && pending == Some(old(queue)[0]) && queue == old(queue)[1..]
    {
      hide InputsInOrder, Drain, Lossy;
      TakeNext(completed, queue, sent, wrote);
      pending := Some(queue[0]);
      queue := queue[1..];
    }

    /** Some bytes of the input under way reached the terminal. */
    method OnWritten(count: nat)
      requires Valid() && !StopFirst() && pending.Some? && process.childHeld
      requires 0 < count <= |pending.value.bytes| - pending.value.offset
      modifies this`pending, this`completed, this`wrote, this`pty
      ensures Valid() && |pty| == |old(pty)| + count
      ensures old(pending).value.offset + count == |old(pending).value.bytes| ==>
        pending == None && completed == old(completed) + [Completion(old(pending).value.id, Written)]
      ensures old(pending).value.offset + count < |old(pending).value.bytes| ==>
        completed == old(completed) && pending == Some(old(pending).value.(offset := old(pending).value.offset + count))
    {
      hide InputsInOrder, WrittenInOrder, Drain, Lossy;
      var input := pending.value.(offset := pending.value.offset + count);
      ghost var more := input.bytes[input.offset - count..input.offset];
      SamePending(completed, pending.value, input, queue, sent, wrote);
      WriteMore(pending.value, input, count, givenUp, stopRequested || stopping, wrote, pty);
      pty := pty + more;
      pending := Some(input);
      if input.offset == |input.bytes| {
        FinishPending(completed, input, queue, sent, wrote, Written);
        Complete(input, Written);
        wrote := wrote + [input];
        pending := None;
      }
    }

    /** A failed write gives the input up and stops the session. */
    method OnWriteError()
      requires Valid() && !StopFirst() && pending.Some?
      modifies this`pending, this`completed, this`givenUp, this`stopRequested
      ensures Valid() && pending == None && stopRequested && givenUp == old(pending)
      ensures completed == old(completed) + [Completion(old(pending).value.id, WriteFailed)]
    {
      hide InputsInOrder, Drain, Lossy;
      stopRequested := true;
      RefusePending(WriteFailed);
    }

    method OnRead(bytes: seq<Byte>)
      requires Valid() && !readerDone && !terminal
      modifies this`text, this`received, decoder
      ensures Valid() && received == old(received) + [bytes]
    {
      hide InputsInOrder, WrittenInOrder, Drain, Lossy;
      DrainAppend(Concat(received), bytes);
      ConcatOneMore(received, bytes);
      var more := decoder.Push(bytes);
      text := text + more;
      received := received + [bytes];
    }

    /** A tick: watch the leader, signal the group, and look whether it is quiet. Once the leader
        is reaped only the wait for the rest of the output is left. */
    method OnTick(found: Found)
      requires Valid() && !terminal && !StopFirst()
      modifies this`leaderExited, this`stopRequested, this`stopping, this`closed, this`pending, this`queue, this`completed,
               this`givenUp, this`termSent, this`truncated, this`readerDone, process
      ensures Valid()
      ensures !old(process.childHeld) ==>
        readerDone == (old(readerDone) || found.drainOver) && truncated == (old(truncated) || (!old(readerDone) && found.drainOver))
        && process.log == old(process.log) && completed == old(completed)
      ensures old(process.childHeld) ==> readerDone == old(readerDone) && truncated == old(truncated) && Watched(found)
      ensures old(process.childHeld) ==> termSent == (old(termSent) || (stopping && old(process.identityOwned) && SureOfLeader(old(leaderExited), found) && found.termOk))
      ensures old(process.childHeld) && !process.childHeld ==> leaderExited && termSent && process.members == {} && found.reapOk
    {
      hide InputsInOrder, WrittenInOrder, Drain, Lossy, ReapedLast;
      if !process.childHeld {
        if !readerDone && found.drainOver { truncated, readerDone := true, true; }
        return;
      }
      WatchLeader(found);
      if stopping { SignalAsDue(found); }
      if leaderExited && termSent { ConfirmAndReap(found); }
    }

    /** What a tick makes of the leader: its exit ends the session, a failed look asks for a stop. */
    twostate predicate Watched(found: Found) reads this {
      var looked := !old(leaderExited);
      && leaderExited == (old(leaderExited) || found.exit == Exited)
      && stopping == (old(stopping) || (looked && found.exit == Exited))
      && stopRequested == (old(stopRequested) || (looked && found.exit in {Lost, Unknown}))
      && completed == if stopping && !old(stopping) then old(completed) + Refusals(PendingIds(old(pending)) + Ids(old(queue)))
                      else old(completed)
    }

    method WatchLeader(found: Found)
      requires Valid() && !terminal && process.childHeld
      modifies this`leaderExited, this`stopRequested, this`stopping, this`closed, this`pending, this`queue, this`completed, this`givenUp,
               process`identityOwned, process`log
      ensures Valid() && Watched(found)
      ensures process.identityOwned == (old(process.identityOwned) && SureOfLeader(old(leaderExited), found))
    {
      hide InputsInOrder, Drain, Lossy, ReapedLast, CompletedIds, Ids, Refusals, PendingIds, Concat, Bytes;
      if leaderExited { return; }
      var seen, failed := process.ObserveExit(found.exit);
      if failed { stopRequested := true; }
      if seen {
        leaderExited := true;
        if !stopping {
          stopping := true;
          RejectInputs();
        }
      }
    }

    /** Ask the group to stop, once; kill it when it takes too long. */
    method SignalAsDue(found: Found)
      requires Valid() && !terminal && process.childHeld && stopping
      modifies this`termSent, process`log, process`frozen
      ensures Valid() && termSent == (old(termSent) || (process.identityOwned && found.termOk))
      ensures process.log == old(process.log) + (if termSent && !old(termSent) then [Term] else [])
                             + (if found.killDue && process.identityOwned && found.killOk then [Kill] else [])
    {
      hide InputsInOrder, WrittenInOrder, Drain, Lossy, ReapedLast;
      if !termSent {
        var ok := process.SignalGroup(Term, found.termOk);
        if ok { termSent := true; }
      }
      if found.killDue {
        var _ := process.SignalGroup(Kill, found.killOk);
      }
    }

    /** Empty scan, kill, empty scan, reap. Anything else waits for the next tick. */
    method ConfirmAndReap(found: Found)
      requires Valid() && !terminal && process.childHeld && leaderExited && termSent
      modifies process
      ensures Valid() && old(process.log) <= process.log
      ensures process.childHeld <==> !Quiet(found, old(process.members), old(process.frozen), old(process.identityOwned))
      ensures !process.childHeld ==> Reaped in process.log && process.members == {}
      ensures process.childHeld && process.identityOwned ==> old(process.identityOwned)
      ensures process.childHeld && old(process.identityOwned) && !process.identityOwned ==> found.reapLost
    {
      hide InputsInOrder, WrittenInOrder, Drain, Lossy, ReapedLast;
      if !found.scanOk { return; }
      ghost var before := process.log;
      var live := process.Scan(found.first, found.glimpsed);
      if live { return; }
      var killed := process.SignalGroup(Kill, found.finalKillOk);
      if !killed || !found.rescanOk { return; }
      live := process.Scan(found.second, found.glimpsedAgain);
      if live { return; }
      assert process.log == before + [ScanEmpty, Kill, ScanEmpty];
      var _ := process.Reap(found.reapOk, found.reapLost);
    }

    /** After the loop: refuse what is left, flush the decoder, publish the result. */
    method Finish()
      requires Valid() && !terminal && !process.childHeld && readerDone
      modifies this`closed, this`pending, this`queue, this`completed, this`givenUp, this`text, this`terminal
      ensures Valid() && terminal && closed
      ensures CompletedIds(completed) == Ids(sent) && text == Lossy(Concat(received))
    {
      hide InputsInOrder, WrittenInOrder, Drain, Lossy;
      RejectInputs();
      DrainLossy(Concat(received));
      var last := decoder.Finish();
      text := text + last;
      terminal := true;
    }

    method OnReadEnd(failed: bool)
      requires Valid() && !readerDone
      modifies this`readerDone, this`truncated, this`stopRequested
      ensures Valid() && readerDone && truncated == (old(truncated) || failed) && stopRequested == (old(stopRequested) || failed)
    {
      hide InputsInOrder, Drain, Lossy, ReapedLast, CompletedIds, Ids, Bytes, Concat, WrittenIds;
      readerDone := true;
      if failed {
        truncated := true;
        stopRequested := true;
      }
    }
  }

  lemma AllCompleted(completed: seq<Completion>, sent: seq<Input>, wrote: seq<Input>)
    requires InputsInOrder(completed, None, [], sent, wrote)
    ensures CompletedIds(completed) == Ids(sent)
  {
  }

  lemma SamePending(completed: seq<Completion>, a: Input, b: Input, queue: seq<Input>, sent: seq<Input>, wrote: seq<Input>)
    requires InputsInOrder(completed, Some(a), queue, sent, wrote) && a.id == b.id
    ensures InputsInOrder(completed, Some(b), queue, sent, wrote)
  {
  }

  /** A write moves the offset, and finishes the input at its end. */
  lemma WriteMore(a: Input, b: Input, count: nat, givenUp: Option<Input>, ending: bool, wrote: seq<Input>, pty: seq<Byte>)
    requires WrittenInOrder(Some(a), givenUp, ending, wrote, pty) && a.offset + count <= |a.bytes| && b == a.(offset := a.offset + count)
    ensures WrittenInOrder(Some(b), givenUp, ending, wrote, pty + b.bytes[a.offset..b.offset])
    ensures b.offset == |b.bytes| ==> WrittenInOrder(None, givenUp, ending, wrote + [b], pty + b.bytes[a.offset..b.offset])
  {
    hide Bytes;
    var before, more := a.bytes[..a.offset], a.bytes[a.offset..b.offset];
    assert before + more == a.bytes[..b.offset];
    assert pty + more == Bytes(wrote) + (before + more);
    BytesMore(wrote, b);
    assert a.bytes[..|a.bytes|] == a.bytes;
  }

  // ---------------------------------------------------------------- the run of one session

  /** How the start of the process goes. A start whose outcome is unknown keeps the slot. */
  datatype Startup = NoDirectory | StoppedBefore | NotSpawned | SpawnUnknown | Spawned(registered: bool)

  class Manager {
    var active: Option<nat>
    var degraded: bool

    constructor ()
      ensures active == None && !degraded
    {
      active, degraded := None, false;
    }

    /** `create_session`: reserve the only slot, unless the service is stopping or has to be cleaned up. */
    method Reserve(id: nat, shuttingDown: bool) returns (ok: bool)
      modifies this`active
      ensures ok <==> !shuttingDown && !degraded && old(active) == None
      ensures active == if ok then Some(id) else old(active)
    {
      ok := !shuttingDown && !degraded && active == None;
      if ok { active := Some(id); }
    }

    method Finished(id: nat)
      modifies this
      ensures active == if old(active) == Some(id) then None else old(active)
      ensures !degraded
    {
      if active == Some(id) { active := None; }
      degraded := false;
    }
  }

  /** What the clients ask to be written, in the order of the requests. */
  ghost function Asked(requests: seq<seq<Input>>): seq<Input> {
    if requests == [] then [] else Asked(requests[..|requests| - 1]) + Unwritten(requests[|requests| - 1])
  }

  ghost function Unwritten(inputs: seq<Input>): (r: seq<Input>)
    ensures |r| == |inputs| && forall i :: 0 <= i < |r| ==> r[i] == Input(inputs[i].id, inputs[i].bytes, 0)
  {
    seq(|inputs|, i requires 0 <= i < |inputs| => Input(inputs[i].id, inputs[i].bytes, 0))
  }

  lemma AskedMore(requests: seq<seq<Input>>, i: nat)
    requires i < |requests|
    ensures Asked(requests[..i + 1]) == Asked(requests[..i]) + Unwritten(requests[i])
  {
    assert requests[..i + 1][..i] == requests[..i];
  }

  /** What the terminal has to be read, piece by piece. */
  ghost function Readable(script: seq<Event>): seq<seq<Byte>> {
    if script == [] then [] else Readable(script[..|script| - 1]) + Piece(script[|script| - 1])
  }

  ghost function Piece(event: Event): seq<seq<Byte>> {
    if event.ReadSome? && event.bytes != [] then [event.bytes] else []
  }

  lemma ReadableMore(script: seq<Event>, i: nat)
    requires i < |script|
    ensures Readable(script[..i + 1]) == Readable(script[..i]) + Piece(script[i])
  {
    assert script[..i + 1][..i] == script[..i];
  }

  lemma {:induction false} AskedGrows(requests: seq<seq<Input>>, i: nat)
    requires i <= |requests|
    ensures Asked(requests[..i]) <= Asked(requests)
    decreases |requests| - i
  {
    if i == |requests| {
      assert requests[..i] == requests;
    } else {
      AskedMore(requests, i);
      AskedGrows(requests, i + 1);
    }
  }

  lemma {:induction false} ReadableGrows(script: seq<Event>, i: nat)
    requires i <= |script|
    ensures Readable(script[..i]) <= Readable(script)
    decreases |script| - i
  {
    if i == |script| {
      assert script[..i] == script;
    } else {
      ReadableMore(script, i);
      ReadableGrows(script, i + 1);
    }
  }

  /** `create_session` and `run`: a session starts only in a free slot; the slot is freed only when
      the session is terminal, and the session of a spawned process is terminal only when the
      process is reaped and every input is answered. */
  method Run(manager: Manager, id: nat, shuttingDown: bool, startup: Startup, members: set<nat>, requests: seq<seq<Input>>, script: seq<Event>)
    returns (reserved: bool, terminal: bool, s: Supervisor?)
    requires |requests| == |script|
    modifies manager
    ensures reserved <==> !shuttingDown && !old(manager.degraded) && old(manager.active) == None
    ensures !reserved ==> s == null && !terminal && manager.active == old(manager.active) && manager.degraded == old(manager.degraded)
    ensures reserved ==> manager.active == if terminal then None else Some(id)
    ensures reserved ==> (startup == SpawnUnknown <==> manager.degraded) && (startup == SpawnUnknown ==> !terminal)
    ensures s != null <==> reserved && startup.Spawned?
    ensures reserved && !startup.Spawned? ==> terminal == (startup != SpawnUnknown)
    ensures s != null ==> fresh(s) && fresh(s.process) && fresh(s.decoder) && s.Valid() && s.terminal == terminal
    ensures s != null && terminal ==> Reaped in s.process.log && ReapedLast(s.process.log) && s.process.members == {}
    ensures s != null && terminal ==> CompletedIds(s.completed) == Ids(s.sent) && s.text == Lossy(Concat(s.received))
    ensures s != null ==> s.sent <= Asked(requests) && (!s.closed ==> s.sent == Asked(requests))
    ensures s != null ==> s.received <= Readable(script) && (!s.readerDone ==> s.received == Readable(script))
  {
    s, terminal := null, false;
    reserved := manager.Reserve(id, shuttingDown);
    if !reserved { return; }
    terminal := startup.NoDirectory? || startup.StoppedBefore? || startup.NotSpawned?;
    if startup == SpawnUnknown { manager.degraded := true; }
    if startup.Spawned? {
      var process := new PtyProcess(members);
      var decoder := new Utf8StreamDecoder();
      s := new Supervisor(process, decoder, startup.registered);
      Supervise(s, requests, script);
      terminal := s.terminal;
    }
    if terminal { manager.Finished(id); }
  }

  /** `supervise`: any finite part of any run. Requests come in between the events; events that
      the loop does not wait for are passed over. */
  method Supervise(s: Supervisor, requests: seq<seq<Input>>, script: seq<Event>)
    requires s.Valid() && !s.terminal && |requests| == |script| && s.sent == [] && s.received == []
    modifies s, s.process, s.decoder
    ensures s.Valid()
    ensures s.sent <= Asked(requests) && (!s.closed ==> s.sent == Asked(requests))
    ensures s.received <= Readable(script) && (!s.readerDone ==> s.received == Readable(script))
  {
    hide *;
    StartsEmpty(requests, script);
    for i := 0 to |script|
      invariant s.Valid() && !s.terminal
      invariant s.sent <= Asked(requests[..i]) && (!s.closed ==> s.sent == Asked(requests[..i]))
      invariant s.received <= Readable(script[..i]) && (!s.readerDone ==> s.received == Readable(script[..i]))
    {
      AskedMore(requests, i);
      ReadableMore(script, i);
      SendAll(s, requests[i]);
      if !s.process.childHeld && s.readerDone {
        AskedGrows(requests, i + 1);
        ReadableGrows(script, i);
        s.Finish();
        return;
      }
      Handle(s, script[i]);
    }
    assert requests[..|script|] == requests && script[..|script|] == script;
  }

  lemma StartsEmpty(requests: seq<seq<Input>>, script: seq<Event>)
    ensures Asked(requests[..0]) == [] && Readable(script[..0]) == []
  {
  }

  /** The requests between two events: all of them are accepted, or none. */
  method SendAll(s: Supervisor, inputs: seq<Input>)
    requires s.Valid() && !s.terminal
    modifies s`queue, s`sent
    ensures s.Valid() && !s.terminal
    ensures s.sent == if s.closed then old(s.sent) else old(s.sent) + Unwritten(inputs)
  {
    hide *;
    assert Unwritten(inputs[..0]) == [];
    for i := 0 to |inputs|
      invariant s.Valid() && !s.terminal
      invariant s.sent == if s.closed then old(s.sent) else old(s.sent) + Unwritten(inputs[..i])
    {
      assert Unwritten(inputs[..i + 1]) == Unwritten(inputs[..i]) + [Input(inputs[i].id, inputs[i].bytes, 0)];
      var _ := s.Send(inputs[i].id, inputs[i].bytes);
    }
    assert inputs[..|inputs|] == inputs;
  }

  /** One event, under the guards of the loop: a requested stop goes before everything else. */
  method Handle(s: Supervisor, event: Event)
    requires s.Valid() && !s.terminal
    modifies s, s.process, s.decoder
    ensures s.Valid() && !s.terminal
    ensures s.sent == old(s.sent) && (old(s.closed) ==> s.closed) && (old(s.readerDone) ==> s.readerDone)
    ensures s.received == old(s.received) + (if old(s.readerDone) then [] else Piece(event))
    ensures old(s.StopFirst()) ==> s.stopping
  {
    hide InputsInOrder, WrittenInOrder, Drain, Lossy, ReapedLast, CompletedIds, Ids, Bytes, Concat, Refusals;
    if s.StopFirst() { s.OnStop(); }
    match event {
      case Stop => s.RequestStop();
      case Tick(found) => s.OnTick(found);
      case Take => if !s.stopping && s.pending == None && s.queue != [] { s.OnTake(); }
      case ReadSome(bytes) => if !s.readerDone && bytes != [] { s.OnRead(bytes); }
      case ReadEnd => if !s.readerDone { s.OnReadEnd(false); }
      case ReadError => if !s.readerDone { s.OnReadEnd(true); }
      case WriteSome(count) =>
        if s.pending.Some? && s.process.childHeld && 0 < count <= |s.pending.value.bytes| - s.pending.value.offset { s.OnWritten(count); }
      case WriteError => if s.pending.Some? && s.process.childHeld { s.OnWriteError(); }
    }
  }
}
