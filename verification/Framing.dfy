/** Length-prefixed messages on a byte stream: four bytes, little endian, then the encoded message. */
module Framing {

  type Byte = b: int | 0 <= b < 256

  const LIMIT := 0x1_0000_0000

  /** A message and its encoding; decoding an encoded message gives it back. */
  datatype Msg = Msg(tag: nat, data: seq<Byte>, ok: bool)

  datatype Codec = Codec(enc: Msg -> seq<Byte>, dec: seq<Byte> -> Msg)

  ghost predicate Lossless(j: Codec) {
    forall m :: j.dec(j.enc(m)) == m
  }

  /** uint32(n) in little-endian order; anything above 32 bits is lost. */
  function Header(n: nat): seq<Byte> {
    [n % 0x100, n / 0x100 % 0x100, n / 0x1_0000 % 0x100, n / 0x100_0000 % 0x100]
  }

  function Length(h: seq<Byte>): nat
    requires |h| == 4
  {
    h[0] as int + 0x100 * (h[1] as int) + 0x1_0000 * (h[2] as int) + 0x100_0000 * (h[3] as int)
  }

  function Frame(b: seq<Byte>): seq<Byte> {
    Header(|b|) + b
  }

  datatype ReadError = Eof | UnexpectedEof

  datatype ReadResult =
    | Got(body: seq<Byte>, rest: seq<Byte>)
    | Failed(err: ReadError)

  /** What a read finds on a stream that ends after s. Nothing at all is a clean end, both before the
      length and, for a non-empty body, right after it. */
  function ReadFrame(s: seq<Byte>): ReadResult {
    if |s| == 0 then Failed(Eof)
    else if |s| < 4 then Failed(UnexpectedEof)
    else
      var n := Length(s[..4]);
      if |s| - 4 >= n then Got(s[4..4 + n], s[4 + n..])
      else if |s| == 4 then Failed(Eof)
      else Failed(UnexpectedEof)
  }

  /** Read until the first error. */
  function ReadAll(s: seq<Byte>): (seq<seq<Byte>>, ReadError)
    decreases |s|
  {
    match ReadFrame(s)
    case Got(body, rest) =>
      var (bodies, err) := ReadAll(rest);
      ([body] + bodies, err)
    case Failed(err) => ([], err)
  }

  function Stream(bodies: seq<seq<Byte>>): seq<Byte> {
    if bodies == [] then [] else Frame(bodies[0]) + Stream(bodies[1..])
  }

  predicate Small(bodies: seq<seq<Byte>>) {
    forall i | 0 <= i < |bodies| :: |bodies[i]| < LIMIT
  }

  // ----- One frame

  function Power(b: nat, e: nat): (p: nat)
    ensures b > 0 ==> p > 0
  {
    if e == 0 then 1 else b * Power(b, e - 1)
  }

  /** The least significant byte comes first. */
  lemma LittleEndian(n: nat, i: nat)
    requires i < 4
    ensures Header(n)[i] == n / Power(0x100, i) % 0x100
    ensures n < 0x100 ==> Header(n) == [n, 0, 0, 0]
  {
    assert Power(0x100, 0) == 1 && Power(0x100, 1) == 0x100;
    assert Power(0x100, 2) == 0x1_0000 && Power(0x100, 3) == 0x100_0000;
  }

  lemma HeaderLength(n: nat)
    ensures Length(Header(n)) == n % LIMIT
  {
    assert n / 0x1_0000 == n / 0x100 / 0x100;
    assert n / 0x100_0000 == n / 0x1_0000 / 0x100;
    assert n / LIMIT == n / 0x100_0000 / 0x100;
  }

  lemma FrameRead(b: seq<Byte>, rest: seq<Byte>)
    requires |b| < LIMIT
    ensures ReadFrame(Frame(b) + rest) == Got(b, rest)
  {
    HeaderLength(|b|);
    ReadAfter(Header(|b|), b, rest);
  }

  lemma ReadAfter(h: seq<Byte>, b: seq<Byte>, rest: seq<Byte>)
    requires |h| == 4 && Length(h) == |b|
    ensures ReadFrame(h + b + rest) == Got(b, rest)
  {
    var s := h + b + rest;
    assert s[..4] == h;
    assert s[4..4 + |b|] == b;
    assert s[4 + |b|..] == rest;
  }

  /** A message comes back as it was written, whatever follows it, exactly if its encoding is shorter
      than 2^32 bytes: a longer one has its length cut off. */
  lemma FrameExactly(b: seq<Byte>)
    ensures |b| < LIMIT <==> forall rest :: ReadFrame(Frame(b) + rest) == Got(b, rest)
  {
    if |b| < LIMIT {
      forall rest ensures ReadFrame(Frame(b) + rest) == Got(b, rest) {
        FrameRead(b, rest);
      }
    } else {
      HeaderLength(|b|);
      var s := Frame(b) + [];
      assert s[..4] == Header(|b|);
      assert ReadFrame(s).Got? ==> |ReadFrame(s).body| == |b| % LIMIT;
      assert ReadFrame(s) != Got(b, []);
    }
  }

  // ----- Whole streams

  /** Reading a stream gives back exactly the messages written, in order, and then a clean end. */
  lemma {:induction false} StreamRead(bodies: seq<seq<Byte>>)
    requires Small(bodies)
    ensures ReadAll(Stream(bodies)) == (bodies, Eof)
  {
    if bodies != [] {
      StreamRead(bodies[1..]);
      FrameRead(bodies[0], Stream(bodies[1..]));
      assert bodies == [bodies[0]] + bodies[1..];
    }
  }

  /** How many whole messages fit in the first k bytes. */
  function Whole(bodies: seq<seq<Byte>>, k: nat): (n: nat)
    ensures n <= |bodies|
  {
    if bodies == [] || k < 4 + |bodies[0]| then 0 else 1 + Whole(bodies[1..], k - (4 + |bodies[0]|))
  }

  /** Whole says what it should: n messages fit and the next does not. */
  lemma {:induction false} WholeMeans(bodies: seq<seq<Byte>>, k: nat)
    ensures var n := Whole(bodies, k);
            |Stream(bodies[..n])| <= k && (n < |bodies| ==> k < |Stream(bodies[..n + 1])|)
  {
    var n := Whole(bodies, k);
    if bodies != [] {
      if k >= 4 + |bodies[0]| {
        var k' := k - (4 + |bodies[0]|);
        WholeMeans(bodies[1..], k');
        assert bodies[..n][1..] == bodies[1..][..n - 1];
        if n < |bodies| {
          assert bodies[..n + 1][1..] == bodies[1..][..n];
        }
      } else {
        assert bodies[..1][1..] == [];
      }
    }
  }

  /** Cut anywhere: the reader gets the messages that are whole, nothing else, and then an error; the
      error is a clean end exactly if the cut is between messages or right after a length. */
  lemma {:induction false} TruncatedRead(bodies: seq<seq<Byte>>, k: nat)
    requires Small(bodies) && k <= |Stream(bodies)|
    ensures GivesWhole(ReadAll(Stream(bodies)[..k]), bodies, k)
  {
    if bodies != [] {
      if k < 4 + |bodies[0]| {
        CutFrame(bodies[0], Stream(bodies[1..]), k);
      } else {
        var k' := k - (4 + |bodies[0]|);
        TruncatedRead(bodies[1..], k');
        FirstWhole(bodies[0], Stream(bodies[1..]), k);
        OneMore(ReadAll(Stream(bodies[1..])[..k']), bodies, k);
      }
    }
  }

  ghost predicate GivesWhole(read: (seq<seq<Byte>>, ReadError), bodies: seq<seq<Byte>>, k: nat) {
    var n := Whole(bodies, k);
    var left := k - |Stream(bodies[..n])|;
    read.0 == bodies[..n] && (read.1 == Eof <==> left == 0 || left == 4)
  }

  lemma OneMore(read: (seq<seq<Byte>>, ReadError), bodies: seq<seq<Byte>>, k: nat)
    requires bodies != [] && k >= 4 + |bodies[0]| && GivesWhole(read, bodies[1..], k - (4 + |bodies[0]|))
    ensures GivesWhole(([bodies[0]] + read.0, read.1), bodies, k)
  {
    var n := Whole(bodies, k);
    assert bodies[..n] == [bodies[0]] + bodies[1..][..n - 1];
    assert bodies[..n][1..] == bodies[1..][..n - 1];
  }

  /** A cut past the first message leaves it whole. */
  lemma FirstWhole(b: seq<Byte>, rest: seq<Byte>, k: nat)
    requires |b| < LIMIT && 4 + |b| <= k <= 4 + |b| + |rest|
    ensures |Frame(b) + rest| == 4 + |b| + |rest|
    ensures var (bodies, end) := ReadAll(rest[..k - (4 + |b|)]);
            ReadAll((Frame(b) + rest)[..k]) == ([b] + bodies, end)
  {
    var k' := k - (4 + |b|);
    assert (Frame(b) + rest)[..k] == Frame(b) + rest[..k'];
    FrameRead(b, rest[..k']);
  }

  lemma CutFrame(b: seq<Byte>, rest: seq<Byte>, k: nat)
    requires |b| < LIMIT && k < 4 + |b|
    ensures ReadFrame((Frame(b) + rest)[..k]).Failed?
    ensures ReadFrame((Frame(b) + rest)[..k]).err == Eof <==> k == 0 || k == 4
  {
    if k >= 4 {
      CutAfterHeader(b, rest, k);
    }
  }

  lemma CutAfterHeader(b: seq<Byte>, rest: seq<Byte>, k: nat)
    requires |b| < LIMIT && 4 <= k < 4 + |b|
    ensures ReadFrame((Frame(b) + rest)[..k]) == Failed(if k == 4 then Eof else UnexpectedEof)
  {
    HeaderLength(|b|);
    CutKeepsHeader(Header(|b|), b, rest, k);
    CutBody(Header(|b|), (Frame(b) + rest)[..k], |b|);
  }

  lemma CutKeepsHeader(h: seq<Byte>, b: seq<Byte>, rest: seq<Byte>, k: nat)
    requires |h| == 4 && 4 <= k < 4 + |b|
    ensures h <= (h + b + rest)[..k] && |(h + b + rest)[..k]| == k
  {
  }

  /** The length has arrived, but not all of the body. */
  lemma CutBody(h: seq<Byte>, s: seq<Byte>, n: nat)
    requires |h| == 4 && Length(h) == n && h <= s && |s| < 4 + n
    ensures ReadFrame(s) == Failed(if |s| == 4 then Eof else UnexpectedEof)
  {
    assert s[..4] == h;
  }

  // ----- The transport object

  datatype CallResult = Received(m: Msg) | Error(err: ReadError)

  class Transport {
    var incoming: seq<Byte>
    var outgoing: seq<Byte>

    /** Append one message to the stream. */
    method WriteCall(j: Codec, m: Msg)
      modifies this`outgoing
      ensures outgoing == old(outgoing) + Frame(j.enc(m))
    {
      var b := j.enc(m);
      outgoing := outgoing + Header(|b|);
      outgoing := outgoing + b;
    }

    /** Take one message off the stream; an error leaves nothing to read. */
    method ReadCall(j: Codec) returns (r: CallResult)
      modifies this`incoming
      ensures match ReadFrame(old(incoming))
              case Got(body, rest) => r == Received(j.dec(body)) && incoming == rest
              case Failed(err) => r == Error(err) && incoming == []
    {
      if |incoming| < 4 {
        r := Error(if |incoming| == 0 then Eof else UnexpectedEof);
        incoming := [];
        return;
      }
      var nbyte := Length(incoming[..4]);
      var after := incoming[4..];
      if |after| < nbyte {
        r := Error(if |after| == 0 then Eof else UnexpectedEof);
        incoming := [];
        return;
      }
      assert after[..nbyte] == incoming[4..4 + nbyte] && after[nbyte..] == incoming[4 + nbyte..];
      r := Received(j.dec(after[..nbyte]));
      incoming := after[nbyte..];
    }

    /** The reader's loop: every message until the first error. */
    method ReadUntilError(j: Codec) returns (ms: seq<Msg>, err: ReadError)
      modifies this`incoming
      ensures |ms| == |ReadAll(old(incoming)).0| && forall i | 0 <= i < |ms| :: ms[i] == j.dec(ReadAll(old(incoming)).0[i])
      ensures err == ReadAll(old(incoming)).1 && incoming == []
    {
      ms := [];
      ghost var read: seq<seq<Byte>> := [];
      assert read + ReadAll(incoming).0 == ReadAll(incoming).0;
      while true
        invariant ReadAll(old(incoming)) == (read + ReadAll(incoming).0, ReadAll(incoming).1)
        invariant |ms| == |read| && forall i | 0 <= i < |ms| :: ms[i] == j.dec(read[i])
        decreases |incoming|
      {
        ghost var before := incoming;
        var r := ReadCall(j);
        match r {
          case Received(m) =>
            ghost var body := ReadFrame(before).body;
            assert read + ReadAll(before).0 == read + [body] + ReadAll(incoming).0;
            ms := ms + [m];
            read := read + [body];
          case Error(e) =>
            err := e;
            assert read + [] == read;
            break;
        }
      }
    }
  }

  function Encoded(j: Codec, ms: seq<Msg>): seq<seq<Byte>> {
    seq(|ms|, i requires 0 <= i < |ms| => j.enc(ms[i]))
  }

  lemma {:induction false} StreamAppend(bodies: seq<seq<Byte>>, b: seq<Byte>)
    ensures Stream(bodies + [b]) == Stream(bodies) + Frame(b)
  {
    if bodies == [] {
      assert bodies + [b] == [b] && [b][1..] == [];
    } else {
      StreamAppend(bodies[1..], b);
      assert (bodies + [b])[1..] == bodies[1..] + [b];
    }
  }

  /** Send a list of messages and read the stream back: the same list. */
  method RoundTrip(j: Codec, ms: seq<Msg>) returns (got: seq<Msg>, err: ReadError)
    requires Lossless(j) && Small(Encoded(j, ms))
    ensures got == ms && err == Eof
  {
    var t := new Transport;
    t.outgoing := [];
    for i := 0 to |ms|
      invariant t.outgoing == Stream(Encoded(j, ms[..i]))
    {
      StreamAppend(Encoded(j, ms[..i]), j.enc(ms[i]));
      assert Encoded(j, ms[..i + 1]) == Encoded(j, ms[..i]) + [j.enc(ms[i])];
      t.WriteCall(j, ms[i]);
    }
    assert ms[..|ms|] == ms;
    StreamRead(Encoded(j, ms));
    t.incoming := t.outgoing;
    got, err := t.ReadUntilError(j);
  }
}
