/** The archive of one session's terminal output: the producer that counts and queues, the
    writer that keeps or refuses, and the footer whose numbers have to balance. */
module Archive {
  import opened Collections
  import opened Paths
  import opened Utf8
  import opened OutputRing

  const CHUNK_BYTES: nat := 4096

  datatype Issue = QueueFull | SessionLimit | TotalLimit | DiskError | WorkerStopped | DrainTimeout

  datatype Footer = Footer(observed: nat, archived: nat, dropped: nat)

  /** An issue after which the writer keeps nothing more of the archive. */
  predicate Stops(issues: set<Issue>) {
    SessionLimit in issues || TotalLimit in issues || DiskError in issues
  }

  // ---------------------------------------------------------------- cutting at characters

  /** No encoded character is longer than four bytes: going back at most three finds a boundary. */
  lemma {:induction false} BoundaryNear(t: seq<Scalar>, i: nat) returns (j: nat)
    requires i <= |EncodeAll(t)|
    ensures j <= i < j + 4 && Boundary(EncodeAll(t), j)
  {
    if t == [] || i == 0 {
      j := i;
      return;
    }
    var e, rest := Encode(t[0]), EncodeAll(t[1..]);
    if i < |e| {
      j := 0;
    } else {
      var k := BoundaryNear(t[1..], i - |e|);
      j := k + |e|;
      assert j < |e + rest| ==> (e + rest)[j] == rest[k];
      if k == 0 && |rest| > 0 { FirstIsNoTail(t[1..]); }
    }
  }

  lemma FirstIsNoTail(t: seq<Scalar>)
    requires EncodeAll(t) != []
    ensures !Tail(EncodeAll(t)[0])
  {
    EncodeFits(t[0]);
    assert EncodeAll(t)[0] == Encode(t[0])[0];
  }

  /** The next chunk: as much as fits, up to a character boundary. */
  method CutChunk(remaining: Text) returns (end: nat)
    requires IsText(remaining) && remaining != []
    ensures 0 < end <= |remaining| && end <= CHUNK_BYTES && IsText(remaining[end..])
    ensures |remaining| <= CHUNK_BYTES ==> end == |remaining|
    ensures Boundary(remaining, end) && forall j :: end < j <= |remaining| && j <= CHUNK_BYTES ==> !Boundary(remaining, j)
  {
    end := if |remaining| < CHUNK_BYTES then |remaining| else CHUNK_BYTES;
    ghost var t: seq<Scalar> :| remaining == EncodeAll(t);
    ghost var near := BoundaryNear(t, end);
    if |remaining| <= 3 { near := end; }
    while !Boundary(remaining, end)
      invariant 0 < end <= CHUNK_BYTES && end <= |remaining| && near <= end && Boundary(remaining, near)
      invariant near > 0
      invariant |remaining| <= CHUNK_BYTES ==> end == |remaining|
      invariant forall j :: end < j <= |remaining| && j <= CHUNK_BYTES ==> !Boundary(remaining, j)
      decreases end
    {
      end := end - 1;
    }
    ghost var k := BoundaryStartsText(t, end);
    assert remaining[end..] == EncodeAll(t[k..]);
  }

  /** What one archive went through so far. `accepted` was queued, `consumed` was taken from the
      queue by the writer, `archived` was written. */
  ghost predicate Balanced(stream: Text, accepted: Text, consumed: Text, archived: Text, queue: seq<Text>, remaining: Text, dropped: nat) {
    && archived <= consumed && accepted == consumed + Concat(queue)
    && |accepted| + |remaining| <= |stream| && accepted == stream[..|accepted|]
    && |stream| == |archived| + dropped + |Concat(queue)| + |remaining|
  }

  /** A chunk joins the queue. */
  lemma BalancedQueue(stream: Text, accepted: Text, consumed: Text, archived: Text, queue: seq<Text>, remaining: Text, end: nat, dropped: nat)
    requires Balanced(stream, accepted, consumed, archived, queue, remaining, dropped) && end <= |remaining|
    requires stream == accepted + remaining
    ensures Balanced(stream, accepted + remaining[..end], consumed, archived, queue + [remaining[..end]], remaining[end..], dropped)
    ensures stream == accepted + remaining[..end] + remaining[end..]
  {
    hide Concat;
    var chunk, rest := remaining[..end], remaining[end..];
    ConcatOneMore(queue, chunk);
    assert remaining == chunk + rest;
    assert stream == accepted + chunk + rest;
    assert accepted + chunk == stream[..|accepted + chunk|];
    assert consumed + (Concat(queue) + chunk) == consumed + Concat(queue) + chunk;
  }

  lemma BalancedDrop(stream: Text, accepted: Text, consumed: Text, archived: Text, queue: seq<Text>, remaining: Text, dropped: nat)
    requires Balanced(stream, accepted, consumed, archived, queue, remaining, dropped)
    ensures Balanced(stream, accepted, consumed, archived, queue, [], dropped + |remaining|)
  {
  }

  /** The writer takes the next chunk: it is written after everything before it, or dropped. */
  lemma BalancedTake(stream: Text, accepted: Text, consumed: Text, archived: Text, queue: seq<Text>, remaining: Text, dropped: nat)
    requires Balanced(stream, accepted, consumed, archived, queue, remaining, dropped) && queue != []
    ensures archived == consumed ==>
      Balanced(stream, accepted, consumed + queue[0], archived + queue[0], queue[1..], remaining, dropped)
    ensures Balanced(stream, accepted, consumed + queue[0], archived, queue[1..], remaining, dropped + |queue[0]|)
  {
    assert consumed + (queue[0] + Concat(queue[1..])) == consumed + queue[0] + Concat(queue[1..]);
  }

  lemma EmptyText()
    ensures IsText([])
  {
    assert EncodeAll([]) == [];
  }

  class OutputArchive {
    var observed: nat
    var dropped: nat
    var pending: nat
    var disabled: bool
    var issues: set<Issue>
    var sealed: bool
    /** The rest of the text that a push is still cutting up. */
    var remaining: Text
    /** The chunks of this archive that wait in the writer's queue. */
    var queue: seq<Text>
    /** The writer's side: the start command was handled, the archive file is open. */
    var started: bool
    var open: bool
    var outputBytes: nat
    var footer: Option<Footer>
    ghost var stream: Text
    ghost var accepted: Text
    ghost var consumed: Text
    ghost var archived: Text

    ghost predicate Valid() reads this {
      && Balanced(stream, accepted, consumed, archived, queue, remaining, dropped)
      && observed == |stream| && outputBytes == |archived| && pending == |queue| && IsText(remaining)
      && (issues != {} ==> disabled)
      && (!disabled ==> stream == accepted + remaining)
      && (archived == consumed || Stops(issues) || (started && !open))
      && (sealed ==> remaining == [])
      && (open ==> started && footer == None)
      && (footer.Some? ==> started && sealed && footer.value == Footer(|stream|, |archived|, dropped) && queue == [] && remaining == [])
    }

    constructor ()
      ensures Valid() && stream == [] && footer == None && !started && !sealed && !disabled && issues == {} && dropped == 0
    {
      observed, dropped, pending, disabled, issues, sealed := 0, 0, 0, false, {}, false;
      remaining, queue, started, open, outputBytes, footer := [], [], false, false, 0, None;
      stream, accepted, consumed, archived := [], [], [], [];
      assert EncodeAll([]) == [];
    }

    /** The archived text is a prefix of what the session printed; so are all stages before. */
    lemma Prefix()
      requires Valid()
      ensures archived <= consumed <= accepted <= stream
    {
    }

    // -------------------------------------------------------------- the producer

    /** `push`, first part. */
    method Observe(text: Text)
      requires Valid() && !sealed && remaining == [] && IsText(text)
      modifies this`observed, this`remaining, this`stream
      ensures Valid() && stream == old(stream) + text && remaining == text && observed == old(observed) + |text|
    {
      observed := observed + |text|;
      remaining := text;
      stream := stream + text;
    }

    /** One turn of the loop in `push`. Once something was lost, everything after it is. */
    method Offer(refusal: Option<Issue>)
      requires Valid() && remaining != [] && (refusal.Some? ==> refusal.value in {QueueFull, WorkerStopped})
      modifies this`remaining, this`queue, this`pending, this`accepted, this`dropped, this`disabled, this`issues
      ensures Valid() && |remaining| < |old(remaining)|
      ensures disabled == (old(disabled) || refusal.Some?)
      ensures issues == if !old(disabled) && refusal.Some? then old(issues) + {refusal.value} else old(issues)
      ensures disabled ==> remaining == [] && queue == old(queue) && dropped == old(dropped) + |old(remaining)|
      ensures !disabled ==> dropped == old(dropped) && queue == old(queue) + [old(remaining)[..|old(remaining)| - |remaining|]]
                            && remaining == old(remaining)[|old(remaining)| - |remaining|..]
                            && |old(remaining)| - |remaining| <= CHUNK_BYTES
    {
      hide Balanced, IsText;
      if disabled {
        DropRest();
        return;
      }
      var end := CutChunk(remaining);
      var chunk := remaining[..end];
      pending := pending + 1;
      if refusal.Some? {
        pending := pending - 1;
        Report(refusal.value);
        DropRest();
        return;
      }
      BalancedQueue(stream, accepted, consumed, archived, queue, remaining, end, dropped);
      queue := queue + [chunk];
      accepted := accepted + chunk;
      remaining := remaining[end..];
    }

    method DropRest()
      requires Valid() && disabled
      modifies this`dropped, this`remaining
      ensures Valid() && remaining == [] && dropped == old(dropped) + |old(remaining)|
    {
      BalancedDrop(stream, accepted, consumed, archived, queue, remaining, dropped);
      EmptyText();
      dropped := dropped + |remaining|;
      remaining := [];
    }

    /** `issue`. */
    method Report(issue: Issue)
      modifies this`issues, this`disabled
      ensures issues == old(issues) + {issue} && disabled
    {
      disabled := true;
      issues := issues + {issue};
    }

    /** The session is over: no push follows. */
    method Seal()
      requires Valid() && remaining == []
      modifies this`sealed
      ensures Valid() && sealed
    {
      sealed := true;
    }

    /** Waiting for the writer took too long. */
    method GiveUpWaiting()
      requires Valid()
      modifies this`issues, this`disabled
      ensures Valid() && disabled && issues == old(issues) + {DrainTimeout}
    {
      Report(DrainTimeout);
    }

    // -------------------------------------------------------------- the writer

    method Start(ok: bool, issue: Issue)
      requires Valid() && !started
      modifies this`started, this`open, this`issues, this`disabled
      ensures Valid() && started && open == ok
      ensures issues == if ok then old(issues) else old(issues) + {issue}
      ensures disabled == (old(disabled) || !ok)
    {
      started := true;
      open := ok;
      if !ok { Report(issue); }
    }

    /** `output`: write the next chunk, or drop it, for a reason that stays. `refusal` is the
        limit or error met, if any. */
    method Output(refusal: Option<Issue>)
      requires Valid() && started && queue != []
      requires refusal.Some? ==> refusal.value in {SessionLimit, TotalLimit, DiskError}
      modifies this`issues, this`disabled, this`outputBytes, this`archived, this`consumed, this`queue, this`pending, this`dropped
      ensures Valid() && queue == old(queue)[1..]
      ensures var kept := open && old(issues) !! {SessionLimit, TotalLimit, DiskError} && refusal == None;
              && archived == (if kept then old(archived) + old(queue)[0] else old(archived))
              && dropped == (if kept then old(dropped) else old(dropped) + |old(queue)[0]|)
      ensures issues == if open && old(issues) !! {SessionLimit, TotalLimit, DiskError} && refusal.Some? then old(issues) + {refusal.value} else old(issues)
    {
      hide Balanced, IsText, Concat;
      if open && !Stops(issues) && refusal.Some? { Report(refusal.value); }
      if open && !Stops(issues) { Keep(); } else { Drop(); }
    }

    method Keep()
      requires Valid() && open && !Stops(issues) && queue != []
      modifies this`outputBytes, this`archived, this`consumed, this`queue, this`pending
      ensures Valid() && queue == old(queue)[1..] && archived == old(archived) + old(queue)[0]
    {
      hide Balanced, IsText, Concat;
      BalancedTake(stream, accepted, consumed, archived, queue, remaining, dropped);
      outputBytes := outputBytes + |queue[0]|;
      archived, consumed := archived + queue[0], consumed + queue[0];
      queue, pending := queue[1..], pending - 1;
    }

    method Drop()
      requires Valid() && started && (!open || Stops(issues)) && queue != []
      modifies this`dropped, this`consumed, this`queue, this`pending
      ensures Valid() && queue == old(queue)[1..] && dropped == old(dropped) + |old(queue)[0]|
    {
      hide Balanced, IsText, Concat;
      BalancedTake(stream, accepted, consumed, archived, queue, remaining, dropped);
      dropped := dropped + |queue[0]|;
      consumed := consumed + queue[0];
      queue, pending := queue[1..], pending - 1;
    }

    /** `finish_ready` for this archive: sealed first, then nothing pending. The numbers in the
        footer add up. */
    method Finish()
      requires Valid() && open && sealed && pending == 0
      modifies this`open, this`footer
      ensures Valid() && !open && footer == Some(Footer(observed, outputBytes, dropped))
      ensures footer.value.observed == footer.value.archived + footer.value.dropped
      ensures archived <= stream
    {
      footer := Some(Footer(observed, outputBytes, dropped));
      open := false;
    }
  }

  datatype Step = Observe(text: Text) | Offer(failure: Option<Issue>) | Seal | GiveUpWaiting | Start(ok: bool, issue: Issue) | Output(refusal: Option<Issue>) | Finish

  /** Any interleaving of the producer and the writer, whatever queue and disk do: the archived
      text is a prefix of what was printed, and a footer balances. */
  method Run(steps: seq<Step>) returns (a: OutputArchive)
    requires forall i :: 0 <= i < |steps| ==>
      && (steps[i].Observe? ==> IsText(steps[i].text))
      && (steps[i].Offer? && steps[i].failure.Some? ==> steps[i].failure.value in {QueueFull, WorkerStopped})
      && (steps[i].Output? && steps[i].refusal.Some? ==> steps[i].refusal.value in {SessionLimit, TotalLimit, DiskError})
    ensures fresh(a) && a.Valid() && a.archived <= a.stream
    ensures a.footer.Some? ==> a.footer.value.observed == a.footer.value.archived + a.footer.value.dropped
                               && a.footer.value.archived == |a.archived|
  {
    a := new OutputArchive();
    for i := 0 to |steps|
      invariant fresh(a) && a.Valid()
    {
      match steps[i] {
        case Observe(text) => if !a.sealed && a.remaining == [] { a.Observe(text); }
        case Offer(failure) => if a.remaining != [] { a.Offer(failure); }
        case Seal => if a.remaining == [] { a.Seal(); }
        case GiveUpWaiting => a.GiveUpWaiting();
        case Start(ok, issue) => if !a.started { a.Start(ok, issue); }
        case Output(refusal) => if a.started && a.queue != [] { a.Output(refusal); }
        case Finish => if a.open && a.sealed && a.pending == 0 { a.Finish(); }
      }
    }
    a.Prefix();
  }
}
