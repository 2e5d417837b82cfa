/** Streaming UTF-8 decoding against lossy decoding of the whole stream.

    Well-formed sequences are those of section 4 of RFC 3629; ill-formed bytes are replaced
    by maximal subparts, as section 3.9 of the Unicode Standard describes. */
module Utf8 {
  import opened Collections

  type Byte = b: nat | b < 256

  /** A Unicode scalar value. */
  type Scalar = c: nat | c < 0xD800 || 0xE000 <= c < 0x11_0000

  const REPLACEMENT: Scalar := 0xFFFD

  function Encode(c: Scalar): (r: seq<Byte>)
    ensures 1 <= |r| <= 4
  {
    if c < 0x80 then [c]
    else if c < 0x800 then [0xC0 + c / 64, TailOf(c)]
    else if c < 0x1_0000 then [0xE0 + c / 64 / 64, TailOf(c / 64), TailOf(c)]
    else [0xF0 + c / 64 / 64 / 64, TailOf(c / 64 / 64), TailOf(c / 64), TailOf(c)]
  }

  /** The trailing byte for the low six bits. */
  function TailOf(c: int): (b: Byte)
    ensures Tail(b)
  {
    0x80 + c % 64
  }

  /** Append the six bits of a trailing byte. */
  function Combine(high: int, b: Byte): (r: int)
    ensures Tail(b) ==> r / 64 == high && TailOf(r) == b
    ensures high >= 0 && Tail(b) ==> r >= 0
  {
    high * 64 + (b - 0x80)
  }

  lemma SplitOff(c: int)
    ensures Combine(c / 64, TailOf(c)) == c
  {
  }

  function EncodeAll(text: seq<Scalar>): seq<Byte> {
    if text == [] then [] else Encode(text[0]) + EncodeAll(text[1..])
  }

  /** Some character's encoding starts with `s`. */
  ghost predicate Extendable(s: seq<Byte>) {
    exists c: Scalar :: s <= Encode(c)
  }

  // ---------------------------------------------------------------- what a validator sees

  /** How a non-empty byte string begins: with a character, with `skip` bytes that are not
      part of any, or with the start of a character that the string does not finish. */
  datatype Head = Char(c: Scalar) | Bad(skip: nat) | Incomplete

  predicate Tail(b: Byte) { 0x80 <= b <= 0xBF }

  /** The length a lead byte announces; 0 when no character starts with it. */
  function Width(lead: Byte): nat {
    if lead < 0x80 then 1
    else if 0xC2 <= lead <= 0xDF then 2
    else if 0xE0 <= lead <= 0xEF then 3
    else if 0xF0 <= lead <= 0xF4 then 4
    else 0
  }

  /** The second bytes that may follow a lead byte. */
  predicate SecondFits(lead: Byte, b: Byte) {
    if lead == 0xE0 then 0xA0 <= b <= 0xBF
    else if lead == 0xED then 0x80 <= b <= 0x9F
    else if lead == 0xF0 then 0x90 <= b <= 0xBF
    else if lead == 0xF4 then 0x80 <= b <= 0x8F
    else Tail(b)
  }

  function HeadOf(s: seq<Byte>): (h: Head)
    requires s != []
    ensures h.Char? ==> 1 <= |Encode(h.c)| <= |s|
    ensures h.Bad? ==> 1 <= h.skip <= |s| && h.skip <= 3
    ensures h.Incomplete? ==> |s| <= 3
  {
    var w := Width(s[0]);
    if w == 0 then Bad(1)
    else if w == 1 then Char(s[0])
    else if |s| < 2 then Incomplete
    else if !SecondFits(s[0], s[1]) then Bad(1)
    else if w == 2 then Char(Combine(s[0] - 0xC0, s[1]))
    else if |s| < 3 then Incomplete
    else if !Tail(s[2]) then Bad(2)
    else if w == 3 then Char(Combine(Combine(s[0] - 0xE0, s[1]), s[2]))
    else if |s| < 4 then Incomplete
    else if !Tail(s[3]) then Bad(3)
    else Char(Combine(Combine(Combine(s[0] - 0xF0, s[1]), s[2]), s[3]))
  }

  lemma EncodeFits(c: Scalar)
    ensures var e := Encode(c);
            && Width(e[0]) == |e| && (|e| > 1 ==> SecondFits(e[0], e[1]))
            && (forall i :: 2 <= i < |e| ==> Tail(e[i]))
            && HeadOf(e) == Char(c)
  {
    SplitOff(c);
    SplitOff(c / 64);
    SplitOff(c / 64 / 64);
  }

  /** An encoded character is recognised, whatever follows it. */
  lemma HeadOfEncoded(c: Scalar, s: seq<Byte>)
    requires Encode(c) <= s
    ensures HeadOf(s) == Char(c)
  {
    EncodeFits(c);
    var e := Encode(c);
    assert forall i :: 0 <= i < |e| ==> s[i] == e[i];
  }

  /** A recognised character is encoded there. */
  lemma RecognisedIsEncoded(s: seq<Byte>)
    requires s != [] && HeadOf(s).Char?
    ensures Encode(HeadOf(s).c) <= s && |Encode(HeadOf(s).c)| == Width(s[0])
  {
    var e := Encode(HeadOf(s).c);
    assert |e| == Width(s[0]);
    assert forall i :: 0 <= i < |e| ==> e[i] == s[i];
  }

  lemma PartOfCharacter(c: Scalar, s: seq<Byte>)
    requires s != [] && s < Encode(c)
    ensures HeadOf(s) == Incomplete
  {
    EncodeFits(c);
    var e := Encode(c);
    assert forall i :: 0 <= i < |s| ==> s[i] == e[i];
  }

  /** The start of a character can be finished. */
  lemma IncompleteExtends(s: seq<Byte>) returns (c: Scalar)
    requires s != [] && HeadOf(s) == Incomplete
    ensures s < Encode(c)
  {
    hide Encode, Combine, TailOf;
    var second := if |s| > 1 then s[1] else if s[0] == 0xE0 then 0xA0 else if s[0] == 0xF0 then 0x90 else 0x80;
    var third := if |s| > 2 then s[2] else 0x80;
    var full := [s[0], second, third, 0x80][..Width(s[0])];
    assert s == full[..|s|];
    assert HeadOf(full).Char?;
    RecognisedIsEncoded(full);
    c := HeadOf(full).c;
  }

  /** The bytes skipped are the maximal subpart: the longest start of a character, or one
      byte if there is none. */
  ghost predicate MaximalSubpart(s: seq<Byte>, n: nat) {
    && 1 <= n <= |s| && (n == 1 || Extendable(s[..n]))
    && forall k :: n < k <= |s| ==> !Extendable(s[..k])
  }

  /** The validator agrees with the definition by encodings. */
  lemma {:induction false} HeadMeaning(s: seq<Byte>)
    requires s != []
    ensures forall c: Scalar :: HeadOf(s) == Char(c) <==> Encode(c) <= s
    ensures HeadOf(s) == Incomplete <==> exists c: Scalar :: s < Encode(c)
    ensures HeadOf(s).Bad? ==> MaximalSubpart(s, HeadOf(s).skip)
  {
    forall c: Scalar ensures HeadOf(s) == Char(c) <==> Encode(c) <= s {
      if Encode(c) <= s { HeadOfEncoded(c, s); }
      if HeadOf(s) == Char(c) { RecognisedIsEncoded(s); }
    }
    forall c: Scalar | s < Encode(c) ensures HeadOf(s) == Incomplete { PartOfCharacter(c, s); }
    if HeadOf(s) == Incomplete { var c := IncompleteExtends(s); }
    if HeadOf(s).Bad? { SkippedIsMaximal(s); }
  }

  lemma SkippedIsMaximal(s: seq<Byte>)
    requires s != [] && HeadOf(s).Bad?
    ensures MaximalSubpart(s, HeadOf(s).skip)
  {
    var n := HeadOf(s).skip;
    if n > 1 {
      assert HeadOf(s[..n]) == Incomplete;
      var c := IncompleteExtends(s[..n]);
      assert s[..n] <= Encode(c);
    }
    forall k, c: Scalar | n < k <= |s| ensures !(s[..k] <= Encode(c)) {
      if s[..k] <= Encode(c) {
        EncodeFits(c);
        assert false;
      }
    }
  }

  /** A verdict other than "incomplete" does not depend on what follows. */
  lemma HeadStable(s: seq<Byte>, more: seq<Byte>)
    requires s != [] && HeadOf(s) != Incomplete
    ensures HeadOf(s + more) == HeadOf(s)
  {
  }

  // ---------------------------------------------------------------- lossy decoding

  /** The bytes that the head takes up. */
  function Taken(s: seq<Byte>): (n: nat)
    requires s != []
    ensures 1 <= n <= |s|
  {
    match HeadOf(s)
    case Char(c) => |Encode(c)|
    case Bad(skip) => skip
    case Incomplete => |s|
  }

  function Shown(s: seq<Byte>): Scalar
    requires s != []
  {
    if HeadOf(s).Char? then HeadOf(s).c else REPLACEMENT
  }

  /** `String::from_utf8_lossy`. */
  function Lossy(s: seq<Byte>): seq<Scalar> {
    if s == [] then [] else [Shown(s)] + Lossy(s[Taken(s)..])
  }

  /** Lossy decoding, said without the validator: a character where one is encoded, and U+FFFD
      for each maximal subpart, or for all of a character that the bytes do not finish. */
  lemma LossyMeaning(s: seq<Byte>) returns (n: nat)
    requires s != []
    ensures 1 <= n <= |s| && Lossy(s)[1..] == Lossy(s[n..]) && Lossy([]) == []
    ensures forall c: Scalar :: Encode(c) <= s ==> Lossy(s)[0] == c && n == |Encode(c)|
    ensures (forall c: Scalar :: !(Encode(c) <= s)) ==>
      Lossy(s)[0] == 0xFFFD && if Extendable(s) then n == |s| else MaximalSubpart(s, n)
  {
    HeadMeaning(s);
    n := Taken(s);
    if Extendable(s) && !HeadOf(s).Incomplete? {
      var c: Scalar :| s <= Encode(c);
      assert s == Encode(c);
    }
  }

  /** Well-formed text is decoded to itself. */
  lemma {:induction false} LossyRoundTrip(text: seq<Scalar>)
    ensures Lossy(EncodeAll(text)) == text
  {
    if text != [] {
      var s := EncodeAll(text);
      HeadOfEncoded(text[0], s);
      assert s[|Encode(text[0])|..] == EncodeAll(text[1..]);
      LossyRoundTrip(text[1..]);
    }
  }

  /** `str::from_utf8`: the whole text, or how far it is valid and how many bytes are bad
      there (`UNEXPECTED_END` when the string ends inside a character). */
  datatype Checked = Valid(text: seq<Scalar>) | Invalid(text: seq<Scalar>, validUpTo: nat, errorLen: nat)

  const UNEXPECTED_END: nat := 0

  function FromUtf8(s: seq<Byte>): Checked {
    if s == [] then Valid([])
    else match HeadOf(s)
      case Char(c) =>
        (match FromUtf8(s[|Encode(c)|..])
         case Valid(text) => Valid([c] + text)
         case Invalid(text, upTo, len) => Invalid([c] + text, |Encode(c)| + upTo, len))
      case Bad(n) => Invalid([], 0, n)
      case Incomplete => Invalid([], 0, UNEXPECTED_END)
  }

  // ---------------------------------------------------------------- the stream

  /** What can be decoded now, and what has to wait for more bytes. */
  datatype Drained = Drained(text: seq<Scalar>, rest: seq<Byte>)

  function Drain(s: seq<Byte>): Drained {
    if s == [] || HeadOf(s) == Incomplete then Drained([], s)
    else
      var r := Drain(s[Taken(s)..]);
      Drained([Shown(s)] + r.text, r.rest)
  }

  /** What has to wait is the start of a character. */
  lemma {:induction false} DrainRest(s: seq<Byte>)
    ensures var rest := Drain(s).rest; |rest| <= 3 && (rest != [] ==> HeadOf(rest) == Incomplete)
  {
    if s != [] && HeadOf(s) != Incomplete { DrainRest(s[Taken(s)..]); }
  }

  lemma DrainNext(s: seq<Byte>, c: Scalar, n: nat)
    requires s != [] && HeadOf(s) != Incomplete && c == Shown(s) && n == Taken(s)
    ensures Drain(s) == Drained([c] + Drain(s[n..]).text, Drain(s[n..]).rest)
  {
  }

  lemma Regroup(c: Scalar, a: seq<Scalar>, b: seq<Scalar>)
    ensures [c] + (a + b) == [c] + a + b
  {
  }

  lemma CheckedNext(s: seq<Byte>, c: Scalar, n: nat)
    requires s != [] && HeadOf(s) == Char(c) && n == Taken(s)
    ensures n <= |s| && FromUtf8(s) == match FromUtf8(s[n..])
                                       case Valid(text) => Valid([c] + text)
                                       case Invalid(text, upTo, len) => Invalid([c] + text, n + upTo, len)
  {
  }

  /** What the verdict of a validation says about a way of draining. */
  ghost predicate Agrees(drain: seq<Byte> -> Drained, s: seq<Byte>, r: Checked) {
    match r
    case Valid(text) => drain(s) == Drained(text, [])
    case Invalid(text, upTo, len) =>
      upTo + len <= |s| &&
      var after := s[upTo + len..];
      drain(s) == if len == UNEXPECTED_END then Drained(text, after)
                  else Drained(text + ([REPLACEMENT] + drain(after).text), drain(after).rest)
  }

  lemma AgreesNext(drain: seq<Byte> -> Drained, s: seq<Byte>, c: Scalar, n: nat, r: Checked)
    requires n <= |s| && drain(s) == Drained([c] + drain(s[n..]).text, drain(s[n..]).rest) && Agrees(drain, s[n..], r)
    ensures Agrees(drain, s, match r case Valid(text) => Valid([c] + text)
                                     case Invalid(text, upTo, len) => Invalid([c] + text, n + upTo, len))
  {
    if r.Invalid? {
      var after := s[n + r.validUpTo + r.errorLen..];
      assert s[n..][r.validUpTo + r.errorLen..] == after;
      Regroup(c, r.text, [REPLACEMENT] + drain(after).text);
    }
  }

  /** What is left of the loop in `Push` after one more verdict. */
  lemma AgreesLoop(drain: seq<Byte> -> Drained, whole: Drained, output: seq<Scalar>, s: seq<Byte>, r: Checked)
    requires whole == Drained(output + drain(s).text, drain(s).rest) && Agrees(drain, s, r)
    ensures r.Valid? ==> whole == Drained(output + r.text, [])
    ensures r.Invalid? ==>
      var after := s[r.validUpTo + r.errorLen..];
      whole == if r.errorLen == UNEXPECTED_END then Drained(output + r.text, after)
               else Drained(output + r.text + [REPLACEMENT] + drain(after).text, drain(after).rest)
  {
    if r.Invalid? && r.errorLen != UNEXPECTED_END {
      var after := s[r.validUpTo + r.errorLen..];
      assert output + (r.text + ([REPLACEMENT] + drain(after).text)) == output + r.text + [REPLACEMENT] + drain(after).text;
    }
  }

  lemma AgreesNow(s: seq<Byte>)
    requires s == [] || !HeadOf(s).Char?
    ensures Agrees(Drain, s, FromUtf8(s))
  {
    assert s[0..] == s;
    if s != [] && HeadOf(s).Bad? { DrainNext(s, REPLACEMENT, HeadOf(s).skip); }
  }

  lemma {:induction false} DrainValid(s: seq<Byte>)
    ensures Agrees(Drain, s, FromUtf8(s))
  {
    if s == [] || !HeadOf(s).Char? {
      AgreesNow(s);
    } else {
      var c, n := Shown(s), Taken(s);
      CheckedNext(s, c, n);
      DrainNext(s, c, n);
      DrainValid(s[n..]);
      AgreesNext(Drain, s, c, n, FromUtf8(s[n..]));
    }
  }

  lemma NextStable(s: seq<Byte>, more: seq<Byte>)
    requires s != [] && HeadOf(s) != Incomplete
    ensures HeadOf(s + more) != Incomplete && Shown(s + more) == Shown(s) && Taken(s + more) == Taken(s)
    ensures (s + more)[Taken(s)..] == s[Taken(s)..] + more
  {
    HeadStable(s, more);
  }

  /** Draining in two goes is draining at once. */
  lemma {:induction false} DrainAppend(s: seq<Byte>, more: seq<Byte>)
    ensures Drain(s + more) ==
            Drained(Drain(s).text + Drain(Drain(s).rest + more).text, Drain(Drain(s).rest + more).rest)
  {
    if s == [] {
      assert s + more == more;
    } else if HeadOf(s) != Incomplete {
      var c, n := Shown(s), Taken(s);
      NextStable(s, more);
      DrainNext(s, c, n);
      DrainNext(s + more, c, n);
      DrainAppend(s[n..], more);
      var rest := Drain(s[n..]).rest;
      Regroup(c, Drain(s[n..]).text, Drain(rest + more).text);
    }
  }

  lemma {:induction false} DrainLossy(s: seq<Byte>)
    ensures Lossy(s) == Drain(s).text + Lossy(Drain(s).rest)
  {
    if s != [] && HeadOf(s) != Incomplete { DrainLossy(s[Taken(s)..]); }
  }

  class Utf8StreamDecoder {
    var pending: seq<Byte>

    ghost predicate Valid() reads this {
      |pending| <= 3 && (pending != [] ==> HeadOf(pending) == Incomplete)
    }

    constructor ()
      ensures Valid() && pending == []
    {
      pending := [];
    }

    method Push(bytes: seq<Byte>) returns (output: seq<Scalar>)
      requires Valid()
      modifies this
      ensures Valid()
      ensures Drained(output, pending) == Drain(old(pending) + bytes)
    {
      DrainRest(pending + bytes);
      pending := pending + bytes;
      output := [];
      while true
        invariant Drain(old(pending) + bytes) == Drained(output + Drain(pending).text, Drain(pending).rest)
        decreases |pending|
      {
        DrainValid(pending);
        var checked := FromUtf8(pending);
        AgreesLoop(Drain, Drain(old(pending) + bytes), output, pending, checked);
        output := output + checked.text;
        if checked.Valid? {
          pending := [];
          break;
        }
        pending := pending[checked.validUpTo + checked.errorLen..];
        if checked.errorLen == UNEXPECTED_END { break; }
        output := output + [REPLACEMENT];
      }
    }

    method Finish() returns (output: seq<Scalar>)
      requires Valid()
      ensures output == Lossy(pending)
      ensures |output| <= 1
    {
      output := Lossy(pending);
    }
  }

  /** A stream read in any parts, an incomplete character carried over from each to the next,
      is decoded like the whole. */
  method DecodeStream(parts: seq<seq<Byte>>) returns (text: seq<Scalar>)
    ensures text == Lossy(Concat(parts))
  {
    var decoder := new Utf8StreamDecoder();
    text := [];
    for i := 0 to |parts|
      invariant decoder.Valid()
      invariant Drained(text, decoder.pending) == Drain(Concat(parts[..i]))
    {
      DrainAppend(Concat(parts[..i]), parts[i]);
      ConcatOneMore(parts[..i], parts[i]);
      assert parts[..i + 1] == parts[..i] + [parts[i]];
      var more := decoder.Push(parts[i]);
      text := text + more;
    }
    assert parts[..|parts|] == parts;
    DrainLossy(Concat(parts));
    var last := decoder.Finish();
    text := text + last;
  }
}
