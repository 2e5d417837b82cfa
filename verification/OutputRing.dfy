/** The bounded buffer of PTY output that collectors read by cursor. */
module OutputRing {
  import opened Collections
  import opened Paths
  import opened Utf8

  /** The bytes of a string. */
  type Text = seq<Byte>

  const MAX_CHUNKS: nat := 4096

  datatype Chunk = Chunk(seqNo: nat, text: Text)

  datatype Reply = Reply(cursor: nat, chunks: seq<Chunk>, overrun: bool)

  // ---------------------------------------------------------------- trimming

  ghost predicate IsText(b: Text) {
    exists t: seq<Scalar> :: b == EncodeAll(t)
  }

  /** `is_char_boundary`. */
  predicate Boundary(b: Text, i: nat)
    requires i <= |b|
  {
    i == 0 || i == |b| || !Tail(b[i])
  }

  /** The longest part from the end that starts at a character and fits. */
  ghost predicate IsKept(text: Text, max: nat, kept: Text) {
    && |kept| <= |text| && kept == text[|text| - |kept|..] && |kept| <= max
    && Boundary(text, |text| - |kept|)
    && forall i: nat :: i < |text| - |kept| && Boundary(text, i) ==> |text| - i > max
  }

  lemma KeptWhole(text: Text, max: nat)
    ensures |text| <= max ==> IsKept(text, max, text)
  {
    assert text[0..] == text;
  }

  lemma KeptUnique(text: Text, max: nat, a: Text, b: Text)
    requires IsKept(text, max, a) && IsKept(text, max, b)
    ensures a == b
    ensures a == text <==> |text| <= max
  {
    assert |a| == |b|;
    assert text == text[0..];
    assert Boundary(text, 0);
  }

  /** Text from a character boundary on is text. */
  lemma {:induction false} BoundaryStartsText(t: seq<Scalar>, i: nat) returns (k: nat)
    requires i <= |EncodeAll(t)| && Boundary(EncodeAll(t), i)
    ensures k <= |t| && EncodeAll(t)[i..] == EncodeAll(t[k..])
  {
    if t == [] || i == 0 {
      k := 0;
      assert t[0..] == t && EncodeAll(t)[0..] == EncodeAll(t);
      return;
    }
    var e, rest := Encode(t[0]), EncodeAll(t[1..]);
    if i < |e| {
      EncodeFits(t[0]);
      assert EncodeAll(t)[i] == e[i];
      assert i == 1 ==> SecondFits(e[0], e[1]);
      assert Tail(e[i]);
      assert false;
    } else {
      assert (e + rest)[i..] == rest[i - |e|..];
      assert i < |e + rest| ==> (e + rest)[i] == rest[i - |e|];
      var k0 := BoundaryStartsText(t[1..], i - |e|);
      k := k0 + 1;
      assert t[1..][k0..] == t[k..];
    }
  }

  /** The boundaries of encoded text are where its characters end. */
  lemma BoundaryMeaning(t: seq<Scalar>, i: nat)
    requires i <= |EncodeAll(t)|
    ensures Boundary(EncodeAll(t), i) <==> exists k: nat :: k <= |t| && i == |EncodeAll(t[..k])|
  {
    if Boundary(EncodeAll(t), i) {
      var k := BoundaryStartsText(t, i);
      EncodeParts(t, k);
      assert |EncodeAll(t)| - i == |EncodeAll(t)[i..]|;
    }
    if exists k: nat :: k <= |t| && i == |EncodeAll(t[..k])| {
      var k: nat :| k <= |t| && i == |EncodeAll(t[..k])|;
      EncodeParts(t, k);
      if k < |t| {
        EncodeFits(t[k]);
        assert EncodeAll(t[k..]) == Encode(t[k]) + EncodeAll(t[k..][1..]);
        assert EncodeAll(t)[i] == Encode(t[k])[0];
      } else {
        assert t[..k] == t;
      }
    }
  }

  lemma {:induction false} EncodeParts(t: seq<Scalar>, k: nat)
    requires k <= |t|
    ensures EncodeAll(t) == EncodeAll(t[..k]) + EncodeAll(t[k..])
  {
    if k == 0 {
      assert t[..0] == [] && t[0..] == t;
    } else {
      hide *;
      EncodeParts(t[1..], k - 1);
      EncodeFirst(t);
      EncodeFirst(t[..k]);
      assert t[1..][..k - 1] == t[..k][1..];
      assert t[1..][k - 1..] == t[k..];
      Regrouped(Encode(t[0]), EncodeAll(t[..k][1..]), EncodeAll(t[k..]));
    }
  }

  lemma EncodeFirst(t: seq<Scalar>)
    requires t != []
    ensures EncodeAll(t) == Encode(t[0]) + EncodeAll(t[1..])
  {
    hide Encode;
  }

  lemma Regrouped(a: seq<Byte>, b: seq<Byte>, c: seq<Byte>)
    ensures a + (b + c) == a + b + c
  {
  }

  lemma KeptIsText(text: Text, max: nat, kept: Text)
    requires IsText(text) && IsKept(text, max, kept)
    ensures IsText(kept)
  {
    var t: seq<Scalar> :| text == EncodeAll(t);
    var k := BoundaryStartsText(t, |text| - |kept|);
    assert kept == EncodeAll(t[k..]);
  }

  method Trim(text: Text, max: nat) returns (kept: Text)
    requires |text| > max
    ensures IsKept(text, max, kept)
  {
    var start := |text| - max;
    while !Boundary(text, start)
      invariant |text| - max <= start <= |text|
      invariant forall i: nat :: |text| - max <= i < start ==> !Boundary(text, i)
      decreases |text| - start
    {
      start := start + 1;
    }
    kept := text[start..];
    assert forall i: nat :: i < start && Boundary(text, i) ==> i < |text| - max;
  }

  // ---------------------------------------------------------------- what is retained

  ghost function Total(chunks: seq<Chunk>): nat {
    if chunks == [] then 0 else |chunks[0].text| + Total(chunks[1..])
  }

  lemma {:induction false} TotalOneMore(chunks: seq<Chunk>, c: Chunk)
    ensures Total(chunks + [c]) == Total(chunks) + |c.text|
  {
    if chunks == [] {
      assert [c][1..] == [];
    } else {
      assert (chunks + [c])[1..] == chunks[1..] + [c];
      TotalOneMore(chunks[1..], c);
    }
  }

  function Texts(chunks: seq<Chunk>): (r: seq<Text>)
    ensures |r| == |chunks| && forall i :: 0 <= i < |r| ==> r[i] == chunks[i].text
  {
    seq(|chunks|, i requires 0 <= i < |chunks| => chunks[i].text)
  }

  /** The last text that did not fit is the one numbered `truncated`. */
  ghost predicate LastTrimmed(pushed: seq<Text>, max: nat, truncated: Option<nat>) {
    match truncated
    case None => forall k :: 0 <= k < |pushed| ==> |pushed[k]| <= max
    case Some(n) => n < |pushed| && |pushed[n]| > max && forall k :: n < k < |pushed| ==> |pushed[k]| <= max
  }

  /** The chunks are the latest of the pushed texts, without a gap, each as much as fits. */
  ghost predicate Retains(chunks: seq<Chunk>, pushed: seq<Text>, max: nat) {
    && |chunks| <= |pushed|
    && forall i :: 0 <= i < |chunks| ==>
         chunks[i].seqNo == |pushed| - |chunks| + i && IsKept(pushed[|pushed| - |chunks| + i], max, chunks[i].text)
  }

  lemma RetainsPush(chunks: seq<Chunk>, pushed: seq<Text>, max: nat, text: Text, kept: Text)
    requires Retains(chunks, pushed, max) && IsKept(text, max, kept)
    ensures Retains(chunks + [Chunk(|pushed|, kept)], pushed + [text], max)
  {
  }

  lemma RetainsSuffix(chunks: seq<Chunk>, pushed: seq<Text>, max: nat, n: nat)
    requires Retains(chunks, pushed, max) && n <= |chunks|
    ensures Retains(chunks[n..], pushed, max)
  {
  }

  lemma LastTrimmedPush(pushed: seq<Text>, max: nat, truncated: Option<nat>, text: Text)
    requires LastTrimmed(pushed, max, truncated)
    ensures LastTrimmed(pushed + [text], max, if |text| > max then Some(|pushed|) else truncated)
  {
  }

  /** The text numbered `k` is retained, and in full. */
  ghost predicate InFull(chunks: seq<Chunk>, pushed: seq<Text>, k: nat)
    requires k < |pushed|
  {
    k + |chunks| >= |pushed| && chunks[k - (|pushed| - |chunks|)].text == pushed[k]
  }

  lemma {:induction false} SinceMembers(chunks: seq<Chunk>, cursor: nat)
    ensures forall c :: c in Since(chunks, cursor) <==> c in chunks && c.seqNo >= cursor
  {
    if chunks != [] { SinceMembers(chunks[1..], cursor); }
  }

  /** The overrun flag means that something since the cursor was evicted or trimmed. */
  lemma OverrunMeaning(chunks: seq<Chunk>, pushed: seq<Text>, max: nat, truncated: Option<nat>, cursor: nat)
    requires Retains(chunks, pushed, max) && LastTrimmed(pushed, max, truncated) && cursor <= |pushed|
    ensures cursor + |chunks| < |pushed| || (truncated.Some? && cursor <= truncated.value)
            <==> exists k :: cursor <= k < |pushed| && !InFull(chunks, pushed, k)
  {
    var first := |pushed| - |chunks|;
    if cursor < first {
      assert !InFull(chunks, pushed, cursor);
    } else if truncated.Some? && cursor <= truncated.value {
      var n := truncated.value;
      assert IsKept(pushed[n], max, chunks[n - first].text);
      assert !InFull(chunks, pushed, n);
    } else {
      forall k | cursor <= k < |pushed| ensures InFull(chunks, pushed, k) {
        assert IsKept(pushed[k], max, chunks[k - first].text);
        KeptUnique(pushed[k], max, chunks[k - first].text, chunks[k - first].text);
      }
    }
  }

  lemma SuffixInFull(chunks: seq<Chunk>, pushed: seq<Text>, cursor: nat)
    requires |chunks| <= |pushed| && |pushed| - |chunks| <= cursor <= |pushed|
    requires forall k :: cursor <= k < |pushed| ==> InFull(chunks, pushed, k)
    ensures Texts(chunks[cursor - (|pushed| - |chunks|)..]) == pushed[cursor..]
  {
    var d := cursor - (|pushed| - |chunks|);
    forall i | 0 <= i < |pushed| - cursor ensures Texts(chunks[d..])[i] == pushed[cursor..][i] {
      assert InFull(chunks, pushed, cursor + i);
    }
  }

  function Since(chunks: seq<Chunk>, cursor: nat): (r: seq<Chunk>) {
    if chunks == [] then []
    else (if chunks[0].seqNo >= cursor then [chunks[0]] else []) + Since(chunks[1..], cursor)
  }

  lemma {:induction false} SinceIsSuffix(chunks: seq<Chunk>, first: nat, cursor: nat)
    requires forall i :: 0 <= i < |chunks| ==> chunks[i].seqNo == first + i
    ensures Since(chunks, cursor) ==
            if cursor <= first then chunks else if cursor - first <= |chunks| then chunks[cursor - first..] else []
  {
    if chunks != [] {
      SinceIsSuffix(chunks[1..], first + 1, cursor);
      assert chunks == [chunks[0]] + chunks[1..];
    }
  }

  ghost predicate AllText(texts: seq<Text>) {
    forall k :: 0 <= k < |texts| ==> IsText(texts[k])
  }

  ghost predicate Texted(chunks: seq<Chunk>) {
    forall i :: 0 <= i < |chunks| ==> IsText(chunks[i].text)
  }

  /** Whatever was cut off, what is retained is text, and so is every reply. */
  lemma SinceIsText(chunks: seq<Chunk>, pushed: seq<Text>, max: nat, cursor: nat)
    requires Retains(chunks, pushed, max)
    ensures AllText(pushed) ==> Texted(Since(chunks, cursor))
  {
    if AllText(pushed) {
      forall i | 0 <= i < |chunks| ensures IsText(chunks[i].text) {
        KeptIsText(pushed[|pushed| - |chunks| + i], max, chunks[i].text);
      }
      SinceMembers(chunks, cursor);
      forall i | 0 <= i < |Since(chunks, cursor)| ensures IsText(Since(chunks, cursor)[i].text) {
        assert Since(chunks, cursor)[i] in chunks;
      }
    }
  }

  ghost predicate OverLimit(chunks: seq<Chunk>, max: nat) {
    Total(chunks) > max || |chunks| > MAX_CHUNKS
  }

  class OutputBuffer {
    var chunks: seq<Chunk>
    var bytes: nat
    const maxBytes: nat
    var nextSeq: nat
    var truncatedSeq: Option<nat>
    /** Every text pushed, in order. */
    ghost var pushed: seq<Text>

    ghost predicate Valid() reads this {
      && nextSeq == |pushed|
      && Retains(chunks, pushed, maxBytes) && LastTrimmed(pushed, maxBytes, truncatedSeq)
      && bytes == Total(chunks) && bytes <= maxBytes && |chunks| <= MAX_CHUNKS
    }

    constructor (maxBytes: nat)
      ensures Valid() && pushed == [] && this.maxBytes == maxBytes
    {
      chunks, bytes, nextSeq, truncatedSeq := [], 0, 0, None;
      this.maxBytes := maxBytes;
      pushed := [];
    }

    /** Drop chunks from the front while a limit is exceeded, and no more than that. The byte
        count is exact, so the queue cannot run empty before the limits hold. */
    method Evict() returns (evicted: nat)
      requires bytes == Total(chunks)
      modifies this`chunks, this`bytes
      ensures evicted <= |old(chunks)| && chunks == old(chunks)[evicted..] && bytes == Total(chunks)
      ensures bytes <= maxBytes && |chunks| <= MAX_CHUNKS
      ensures evicted > 0 ==> OverLimit(old(chunks)[evicted - 1..], maxBytes)
    {
      evicted := 0;
      while bytes > maxBytes || |chunks| > MAX_CHUNKS
        invariant evicted <= |old(chunks)| && chunks == old(chunks)[evicted..] && bytes == Total(chunks)
        invariant evicted > 0 ==> OverLimit(old(chunks)[evicted - 1..], maxBytes)
        decreases |chunks|
      {
        bytes := bytes - |chunks[0].text|;
        chunks := chunks[1..];
        evicted := evicted + 1;
      }
    }

    /** Append a text and evict from the front no more than the limits ask for. */
    method Push(text: Text) returns (seqNo: nat, evicted: nat, ghost kept: Text)
      requires Valid()
      modifies this
      ensures Valid() && pushed == old(pushed) + [text] && seqNo == old(nextSeq) && IsKept(text, maxBytes, kept)
      ensures var all := old(chunks) + [Chunk(seqNo, kept)];
              var dropped := if |text| > maxBytes then evicted - 1 else evicted;
              && 0 <= dropped <= |all| && chunks == all[dropped..]
              && (dropped > 0 ==> OverLimit(all[dropped - 1..], maxBytes))
    {
      hide Retains, LastTrimmed, IsKept, OverLimit, Total;
      var stored := text;
      KeptWhole(text, maxBytes);
      if |text| > maxBytes {
        stored := Trim(text, maxBytes);
        truncatedSeq := Some(nextSeq);
      }
      kept := stored;
      RetainsPush(chunks, pushed, maxBytes, text, kept);
      LastTrimmedPush(pushed, maxBytes, old(truncatedSeq), text);
      seqNo := nextSeq;
      nextSeq := nextSeq + 1;
      TotalOneMore(chunks, Chunk(seqNo, stored));
      bytes := bytes + |stored|;
      chunks := chunks + [Chunk(seqNo, stored)];
      pushed := pushed + [text];
      ghost var all := chunks;
      evicted := Evict();
      RetainsSuffix(all, pushed, maxBytes, evicted);
      if |text| > maxBytes { evicted := evicted + 1; }
    }

    /** What came after `cursor`. The overrun flag says exactly whether some of it is missing;
        without it the reply is all of it. */
    method SinceCursor(cursor: nat) returns (r: Reply)
      requires Valid()
      ensures r.cursor == nextSeq
      ensures cursor <= nextSeq ==>
        (r.overrun <==> exists k :: cursor <= k < |pushed| && !InFull(chunks, pushed, k))
      ensures cursor <= nextSeq && !r.overrun ==> Texts(r.chunks) == pushed[cursor..]
      ensures cursor > nextSeq ==> r.chunks == [] && !r.overrun
      ensures forall c :: c in r.chunks <==> c in chunks && c.seqNo >= cursor
      ensures AllText(pushed) ==> Texted(r.chunks)
    {
      SinceIsText(chunks, pushed, maxBytes, cursor);
      hide Texted, Total;
      var first := if chunks == [] then nextSeq else chunks[0].seqNo;
      var overrun := cursor < first || (truncatedSeq.Some? && cursor <= truncatedSeq.value);
      r := Reply(nextSeq, Since(chunks, cursor), overrun);
      SinceIsSuffix(chunks, first, cursor);
      SinceMembers(chunks, cursor);
      if cursor <= nextSeq {
        OverrunMeaning(chunks, pushed, maxBytes, truncatedSeq, cursor);
        if !overrun { SuffixInFull(chunks, pushed, cursor); }
      }
    }
  }

  /** What happens between a producer and one collector. */
  datatype Step = Print(text: Text) | Poll

  /** A collector that follows the cursor from 0 and never overruns has the whole stream. */
  method Follow(buffer: OutputBuffer, steps: seq<Step>) returns (seen: Text, cursor: nat, overran: bool)
    requires buffer.Valid() && buffer.pushed == []
    modifies buffer
    ensures buffer.Valid() && cursor <= |buffer.pushed|
    ensures !overran ==> seen == Concat(buffer.pushed[..cursor])
  {
    seen, cursor, overran := [], 0, false;
    for i := 0 to |steps|
      invariant buffer.Valid() && cursor <= |buffer.pushed|
      invariant !overran ==> seen == Concat(buffer.pushed[..cursor])
    {
      match steps[i] {
        case Print(text) =>
          ghost var before := buffer.pushed;
          var _, _, _ := buffer.Push(text);
          assert buffer.pushed[..cursor] == before[..cursor];
        case Poll =>
          var more, next, missing := PollOnce(buffer, cursor);
          ghost var all := buffer.pushed;
          ConcatAppend(all[..cursor], all[cursor..next]);
          assert all[..cursor] + all[cursor..next] == all[..next];
          overran := overran || missing;
          if !overran { seen := seen + more; }
          cursor := next;
      }
    }
  }

  /** One reply, joined. */
  method PollOnce(buffer: OutputBuffer, cursor: nat) returns (text: Text, next: nat, missing: bool)
    requires buffer.Valid() && cursor <= |buffer.pushed|
    ensures next == |buffer.pushed|
    ensures !missing ==> text == Concat(buffer.pushed[cursor..next])
  {
    var reply := buffer.SinceCursor(cursor);
    text := JoinTexts(reply.chunks);
    next, missing := reply.cursor, reply.overrun;
    assert buffer.pushed[cursor..next] == buffer.pushed[cursor..];
  }

  method JoinTexts(chunks: seq<Chunk>) returns (text: Text)
    ensures text == Concat(Texts(chunks))
  {
    text := [];
    for i := 0 to |chunks|
      invariant text == Concat(Texts(chunks[..i]))
    {
      assert Texts(chunks[..i + 1]) == Texts(chunks[..i]) + [chunks[i].text];
      ConcatOneMore(Texts(chunks[..i]), chunks[i].text);
      text := text + chunks[i].text;
    }
    assert chunks[..|chunks|] == chunks;
  }
}
