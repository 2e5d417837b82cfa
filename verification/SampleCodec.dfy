/** A codec that is all the journal asks of one: there are such codecs. */
module SampleCodec {
  import opened Collections
  import opened Paths
  import opened HistoryReader
  import opened Recovery
  import opened Utf8
  import opened Durable

  const START: Byte := 1
  const ONE: Byte := 2
  const STOP: Byte := 3

  function Ones(n: nat): (r: seq<Byte>)
    ensures |r| == n && forall i :: 0 <= i < n ==> r[i] == ONE
  {
    seq(n, _ => ONE)
  }

  function Number(n: nat): seq<Byte> { Ones(n) + [STOP] }

  function Numbers(s: seq<nat>): seq<Byte> {
    if s == [] then [] else Number(s[0]) + Numbers(s[1..])
  }

  function OptionNumber(o: Option<nat>): nat {
    match o
    case None => 0
    case Some(n) => n + 1
  }

  function Signed(n: int): nat { if n >= 0 then 2 * n else -2 * n - 1 }

  function KindNumber(k: Kind): nat {
    match k
    case SessionStarted => 0
    case SessionFinished => 1
    case SessionInterrupted => 2
    case Output => 3
    case WorkflowCreated => 4
    case WorkflowCompleted => 5
    case WorkflowInterrupted => 6
    case Other => 7
  }

  function CharNumbers(s: seq<char>): (r: seq<nat>)
    ensures |r| == |s| && forall i :: 0 <= i < |s| ==> r[i] == s[i] as int
  {
    seq(|s|, i requires 0 <= i < |s| => s[i] as int)
  }

  /** Seven numbers, and one for each character. */
  function Fields(e: Event): seq<nat> {
    [e.seqNo, KindNumber(e.kind), OptionNumber(e.session), OptionNumber(e.workflow), e.offset, e.length, Signed(e.timestamp)] + CharNumbers(e.data)
  }

  function Encode(e: Event): seq<Byte> { [START] + Numbers(Fields(e)) + [NEWLINE] }

  ghost function Decode(line: seq<Byte>): Decoded {
    if exists e :: Encode(e) == line then
      var e :| Encode(e) == line;
      Read(e)
    else NoEvent
  }

  lemma {:induction false} Inside(s: seq<nat>)
    ensures forall i :: 0 <= i < |Numbers(s)| ==> Numbers(s)[i] in {ONE, STOP}
  {
    if s != [] { Inside(s[1..]); }
  }

  lemma StopsAt(n: nat, rest: seq<Byte>)
    ensures |Number(n) + rest| > n && (Number(n) + rest)[n] == STOP
    ensures forall i :: 0 <= i < n ==> (Number(n) + rest)[i] == ONE
  {
  }

  lemma NumberFirst(a: nat, b: nat, x: seq<Byte>, y: seq<Byte>)
    requires Number(a) + x == Number(b) + y
    ensures a == b && x == y
  {
    StopsAt(a, x);
    StopsAt(b, y);
    assert x == (Number(a) + x)[a + 1..] && y == (Number(b) + y)[b + 1..];
  }

  lemma NoNumbers(s: seq<nat>)
    ensures Numbers(s) == [] <==> s == []
  {
    assert s != [] ==> |Number(s[0])| > 0;
  }

  lemma {:induction false} NumbersApart(a: seq<nat>, b: seq<nat>)
    requires Numbers(a) == Numbers(b)
    ensures a == b
  {
    if a != [] && b != [] {
      NumberFirst(a[0], b[0], Numbers(a[1..]), Numbers(b[1..]));
      NumbersApart(a[1..], b[1..]);
      assert a == [a[0]] + a[1..] && b == [b[0]] + b[1..];
    }
    NoNumbers(a);
    NoNumbers(b);
  }

  lemma SameChars(a: seq<char>, b: seq<char>)
    requires CharNumbers(a) == CharNumbers(b)
    ensures a == b
  {
    forall i | 0 <= i < |a| ensures a[i] == b[i] { assert CharNumbers(a)[i] == CharNumbers(b)[i]; }
  }

  lemma EncodeApart(a: Event, b: Event)
    requires Encode(a) == Encode(b)
    ensures a == b
  {
    assert Numbers(Fields(a)) == Encode(a)[1..|Encode(a)| - 1] && Numbers(Fields(b)) == Encode(b)[1..|Encode(b)| - 1];
    NumbersApart(Fields(a), Fields(b));
    var f, g := Fields(a), Fields(b);
    assert f[0] == g[0] && f[1] == g[1] && f[2] == g[2] && f[3] == g[3] && f[4] == g[4] && f[5] == g[5] && f[6] == g[6];
    assert CharNumbers(a.data) == f[7..] && CharNumbers(b.data) == g[7..];
    SameChars(a.data, b.data);
  }

  /** Records are lines that read back, and a tear in front of one shows. */
  lemma IsCodec()
    ensures Codec(Encode, Decode) && TearsShow(Encode, Decode)
  {
    forall e ensures IsLine(Encode(e)) && Decode(Encode(e)) == Read(e) {
      Inside(Fields(e));
      var d :| Encode(d) == Encode(e) && Decode(Encode(e)) == Read(d);
      EncodeApart(d, e);
    }
    forall tear, x | tear != [] && IsTear(Encode, tear) ensures Decode(tear + Encode(x)).NoEvent? {
      forall e ensures Encode(e) != tear + Encode(x) {
        Inside(Fields(e));
        assert (tear + Encode(x))[|tear|] == START;
      }
    }
  }

  /** The events of the failing run have short lines. */
  lemma IsSmall()
    ensures Small(Encode)
  {
    forall n: nat | 1 <= n <= 3 ensures 1 < Nth(Encode, n).size <= EVENT_LIMIT {
      NumbersSize(Fields(Nth(Encode, n).event), 7);
    }
  }

  lemma {:induction false} NumbersSize(s: seq<nat>, most: nat)
    requires forall i :: 0 <= i < |s| ==> s[i] <= most
    ensures |Numbers(s)| <= |s| * (most + 1)
  {
    if s != [] { NumbersSize(s[1..], most); }
  }
}
