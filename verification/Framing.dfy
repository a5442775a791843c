/** The wire framing: a 4-byte big-endian length, then the payload. */
module Framing {
  import opened Base

  const MAX_MESSAGE_SIZE: nat := 65536

  function BigEndian(n: nat): (b: Bytes)
    requires n < 0x1_0000_0000
    ensures |b| == 4 && FromBigEndian(b) == n
  {
    [n / 0x100_0000, n / 0x1_0000 % 256, n / 256 % 256, n % 256]
  }

  function FromBigEndian(b: Bytes): nat
    requires |b| == 4
  {
    (b[0] as int) * 0x100_0000 + (b[1] as int) * 0x1_0000 + (b[2] as int) * 256 + b[3] as int
  }

  /** A frame as it is sent; the length is cut to 32 bits. */
  function Frame(payload: Bytes): Bytes {
    BigEndian(|payload| % 0x1_0000_0000) + payload
  }

  /** The lengths a reader goes on after. */
  predicate Acceptable(size: nat) {
    0 < size <= MAX_MESSAGE_SIZE
  }

  // ----- The reader, byte by byte ---------------------------------------------------------

  /** A reader waits for the rest of a header or of a payload, or has given up. */
  datatype Reader = Header(got: Bytes) | Payload(size: nat, got: Bytes) | Stopped

  const START := Header([])

  ghost predicate Proper(r: Reader) {
    match r
    case Header(got) => |got| < 4
    case Payload(size, got) => Acceptable(size) && |got| < size
    case Stopped => true
  }

  function HeaderRead(header: Bytes): Reader
    requires |header| == 4
  {
    if Acceptable(FromBigEndian(header)) then Payload(FromBigEndian(header), []) else Stopped
  }

  /** One more byte; at the end of a payload, the frame is passed on. */
  function Push(r: Reader, b: Byte): (Reader, seq<Bytes>)
    requires Proper(r)
  {
    match r
    case Header(got) => (if |got| == 3 then HeaderRead(got + [b]) else Header(got + [b]), [])
    case Payload(size, got) => if |got| + 1 == size then (START, [got + [b]]) else (Payload(size, got + [b]), [])
    case Stopped => (Stopped, [])
  }

  /** A run of bytes: the state after it, and the frames passed on. */
  function Feed(r: Reader, data: Bytes): (result: (Reader, seq<Bytes>))
    requires Proper(r)
    ensures Proper(result.0)
    decreases |data|
  {
    if data == [] then (r, [])
    else
      var (r1, frames) := Push(r, data[0]);
      var (r2, more) := Feed(r1, data[1..]);
      (r2, frames + more)
  }

  function FeedAll(r: Reader, pieces: seq<Bytes>): (Reader, seq<Bytes>)
    requires Proper(r)
    decreases |pieces|
  {
    if pieces == [] then (r, [])
    else
      var (r1, frames) := Feed(r, pieces[0]);
      var (r2, more) := FeedAll(r1, pieces[1..]);
      (r2, frames + more)
  }

  function Concat(pieces: seq<Bytes>): Bytes {
    if pieces == [] then [] else pieces[0] + Concat(pieces[1..])
  }

  lemma {:induction false} FeedConcat(r: Reader, a: Bytes, b: Bytes)
    requires Proper(r)
    ensures var (r1, first) := Feed(r, a);
            var (r2, second) := Feed(r1, b);
            Feed(r, a + b) == (r2, first + second)
    decreases |a|
  {
    if a == [] {
      assert a + b == b;
      assert [] + Feed(r, b).1 == Feed(r, b).1;
    } else {
      assert (a + b)[0] == a[0] && (a + b)[1..] == a[1..] + b;
      var (r1, frames) := Push(r, a[0]);
      FeedConcat(r1, a[1..], b);
      var (r2, f2) := Feed(r1, a[1..]);
      var (r3, f3) := Feed(r2, b);
      assert Feed(r, a + b) == (r3, frames + (f2 + f3));
      assert frames + (f2 + f3) == (frames + f2) + f3;
    }
  }

  /** However the stream is cut into pieces, the reader passes on the same frames. */
  lemma {:induction false} SplitIrrelevant(r: Reader, pieces: seq<Bytes>)
    requires Proper(r)
    ensures FeedAll(r, pieces) == Feed(r, Concat(pieces))
    decreases |pieces|
  {
    if pieces != [] {
      FeedConcat(r, pieces[0], Concat(pieces[1..]));
      SplitIrrelevant(Feed(r, pieces[0]).0, pieces[1..]);
    }
  }

  // ----- The reader, buffer by buffer ------------------------------------------------------

  /** A byte that completes no frame passes the reader on to the rest of the data. */
  lemma FeedSilent(r: Reader, data: Bytes)
    requires Proper(r) && data != [] && Push(r, data[0]).1 == []
    ensures Feed(r, data) == Feed(Push(r, data[0]).0, data[1..])
  {
    var (r2, more) := Feed(Push(r, data[0]).0, data[1..]);
    assert [] + more == more;
  }

  lemma {:induction false} FeedHeader(got: Bytes, data: Bytes)
    requires |got| + |data| <= 4 && |got| < 4
    ensures Feed(Header(got), data) == (if |got| + |data| == 4 then HeaderRead(got + data) else Header(got + data), [])
    decreases |data|
  {
    if data == [] {
      assert got + data == got;
    } else if |got| == 3 {
      assert data == [data[0]] && data[1..] == [];
      FeedSilent(Header(got), data);
    } else {
      assert (got + [data[0]]) + data[1..] == got + data;
      FeedHeader(got + [data[0]], data[1..]);
      FeedSilent(Header(got), data);
    }
  }

  lemma {:induction false} FeedPayload(size: nat, got: Bytes, data: Bytes)
    requires Acceptable(size) && |got| < size && |got| + |data| <= size
    ensures Feed(Payload(size, got), data)
         == if |got| + |data| == size then (START, [got + data]) else (Payload(size, got + data), [])
    decreases |data|
  {
    if data == [] {
      assert got + data == got;
    } else if |got| + 1 == size {
      assert data == [data[0]] && data[1..] == [];
      assert [got + data] + [] == [got + data];
    } else {
      assert (got + [data[0]]) + data[1..] == got + data;
      FeedPayload(size, got + [data[0]], data[1..]);
      FeedSilent(Payload(size, got), data);
    }
  }

  lemma {:induction false} FeedStopped(data: Bytes)
    ensures Feed(Stopped, data) == (Stopped, [])
    decreases |data|
  {
    if data != [] {
      FeedStopped(data[1..]);
      FeedSilent(Stopped, data);
    }
  }

  class FrameReader {
    var headerBuf: Bytes
    var payloadSize: nat
    var payloadBuf: Bytes
    var inPayload: bool
    var dead: bool

    ghost function State(): Reader
      reads this
    {
      if dead then Stopped else if inPayload then Payload(payloadSize, payloadBuf) else Header(headerBuf)
    }

    constructor ()
      ensures State() == START && Proper(State())
    {
      headerBuf, payloadSize, payloadBuf, inPayload, dead := [], 0, [], false, false;
    }

    /** How many bytes the buffer that is being filled still lacks. */
    function Wanted(): int
      reads this
    {
      if inPayload then payloadSize - |payloadBuf| else 4 - |headerBuf|
    }

    /** Puts bytes into the buffer that lacks them, and acts on it when it is full. */
    method Fill(part: Bytes) returns (frames: seq<Bytes>)
      requires Proper(State()) && !dead && 0 < |part| <= Wanted()
      modifies this
      ensures Proper(State())
      ensures (State(), frames) == Feed(old(State()), part)
    {
      frames := [];
      if inPayload {
        FeedPayload(payloadSize, payloadBuf, part);
        payloadBuf := payloadBuf + part;
        if |payloadBuf| == payloadSize {
          frames := [payloadBuf];
          headerBuf, inPayload := [], false;
        }
      } else {
        FeedHeader(headerBuf, part);
        headerBuf := headerBuf + part;
        if |headerBuf| == 4 {
          payloadSize := FromBigEndian(headerBuf);
          if payloadSize > MAX_MESSAGE_SIZE || payloadSize == 0 {
            dead := true;
          } else {
            payloadBuf, inPayload := [], true;
          }
        }
      }
    }

    /** Fills one buffer after the other with whatever has arrived. */
    method Receive(data: Bytes) returns (frames: seq<Bytes>)
      requires Proper(State())
      modifies this
      ensures Proper(State())
      ensures (State(), frames) == Feed(old(State()), data)
    {
      ghost var start := State();
      frames := [];
      var i := 0;
      while i < |data| && !dead
        invariant i <= |data| && Proper(State())
        invariant Feed(start, data[..i]) == (State(), frames)
        decreases |data| - i
      {
        var n := if |data| - i < Wanted() then |data| - i else Wanted();
        var part := data[i..i + n];
        FeedConcat(start, data[..i], part);
        assert data[..i + n] == data[..i] + part;
        var more := Fill(part);
        frames := frames + more;
        i := i + n;
      }
      FeedConcat(start, data[..i], data[i..]);
      assert data == data[..i] + data[i..];
      assert frames + [] == frames;
      if dead {
        FeedStopped(data[i..]);
      }
    }
  }

  // ----- What the reader recovers ------------------------------------------------------------

  /** The concatenated frames of a list of payloads. */
  function Encoded(payloads: seq<Bytes>): Bytes {
    if payloads == [] then [] else Frame(payloads[0]) + Encoded(payloads[1..])
  }

  /** What a peer may send: payloads of 1 to 65536 bytes. */
  ghost predicate Sendable(payloads: seq<Bytes>) {
    forall i | 0 <= i < |payloads| :: 1 <= |payloads[i]| <= 65536
  }

  /** A length that has arrived starts a payload or stops the reader. */
  lemma FeedLength(header: Bytes)
    requires |header| == 4
    ensures Feed(START, header) == (HeaderRead(header), [])
  {
    FeedHeader([], header);
    assert [] + header == header;
  }

  lemma FeedOne(header: Bytes, payload: Bytes)
    requires |header| == 4 && FromBigEndian(header) == |payload| && Acceptable(|payload|)
    ensures Feed(START, header + payload) == (START, [payload])
  {
    FeedLength(header);
    FeedConcat(START, header, payload);
    FeedPayload(|payload|, [], payload);
    assert [] + payload == payload && [] + [payload] == [payload];
  }

  lemma FeedFrame(payload: Bytes)
    requires Acceptable(|payload|)
    ensures Feed(START, Frame(payload)) == (START, [payload])
  {
    FeedOne(BigEndian(|payload|), payload);
  }

  /** The reader recovers exactly the payloads sent, whatever follows them. */
  lemma {:induction false} ReadsBack(payloads: seq<Bytes>, rest: Bytes)
    requires Sendable(payloads)
    ensures Feed(START, Encoded(payloads) + rest) == (Feed(START, rest).0, payloads + Feed(START, rest).1)
    decreases |payloads|
  {
    if payloads == [] {
      assert Encoded(payloads) + rest == rest;
      assert payloads + Feed(START, rest).1 == Feed(START, rest).1;
    } else {
      var tail := Encoded(payloads[1..]) + rest;
      assert Encoded(payloads) + rest == Frame(payloads[0]) + tail;
      FeedConcat(START, Frame(payloads[0]), tail);
      FeedFrame(payloads[0]);
      ReadsBack(payloads[1..], rest);
      assert payloads == [payloads[0]] + payloads[1..];
      assert [payloads[0]] + (payloads[1..] + Feed(START, rest).1) == payloads + Feed(START, rest).1;
    }
  }

  /** Round trip, for every list of sendable payloads and every way the stream is cut up. */
  lemma FramingRoundTrip(payloads: seq<Bytes>, pieces: seq<Bytes>)
    requires Sendable(payloads) && Concat(pieces) == Encoded(payloads)
    ensures FeedAll(START, pieces) == (START, payloads)
  {
    SplitIrrelevant(START, pieces);
    ReadsBack(payloads, []);
    assert Encoded(payloads) + [] == Encoded(payloads) && payloads + [] == payloads;
  }

  /** A proper beginning of a frame makes the reader pass on nothing. */
  lemma PartialFrame(payload: Bytes, k: nat)
    requires Acceptable(|payload|) && k < |Frame(payload)|
    ensures Feed(START, Frame(payload)[..k]).1 == []
  {
    var header := BigEndian(|payload|);
    if k <= 4 {
      assert Frame(payload)[..k] == header[..k];
      FeedHeader([], header[..k]);
    } else {
      assert Frame(payload)[..k] == header + payload[..k - 4];
      FeedConcat(START, header, payload[..k - 4]);
      FeedLength(header);
      FeedPayload(|payload|, [], payload[..k - 4]);
    }
  }

  lemma FirstFrameRead(payload: Bytes, rest: Bytes)
    requires Acceptable(|payload|)
    ensures Feed(START, Frame(payload) + rest).1 == [payload] + Feed(START, rest).1
  {
    FeedConcat(START, Frame(payload), rest);
    FeedFrame(payload);
  }

  lemma EncodedTake(payloads: seq<Bytes>, n: nat)
    requires 0 < n <= |payloads|
    ensures Encoded(payloads[..n]) == Frame(payloads[0]) + Encoded(payloads[1..][..n - 1])
  {
    assert payloads[..n][1..] == payloads[1..][..n - 1];
  }

  /** A beginning of the stream that ends inside the first frame. */
  lemma NoFrameComplete(payloads: seq<Bytes>, k: nat)
    requires Sendable(payloads) && payloads != [] && k < |Frame(payloads[0])|
    ensures k <= |Encoded(payloads)| && Feed(START, Encoded(payloads)[..k]).1 == []
    ensures k < |Encoded(payloads[..1])|
  {
    var first := Frame(payloads[0]);
    assert Encoded(payloads)[..k] == first[..k];
    PartialFrame(payloads[0], k);
    EncodedTake(payloads, 1);
  }

  /** A beginning of the stream that goes beyond the first frame. */
  lemma FirstFrameComplete(payloads: seq<Bytes>, k: nat)
    requires Sendable(payloads) && payloads != [] && |Frame(payloads[0])| <= k <= |Encoded(payloads)|
    ensures var beyond := Encoded(payloads[1..])[..k - |Frame(payloads[0])|];
      Feed(START, Encoded(payloads)[..k]).1 == [payloads[0]] + Feed(START, beyond).1
  {
    var beyond := Encoded(payloads[1..])[..k - |Frame(payloads[0])|];
    assert Encoded(payloads)[..k] == Frame(payloads[0]) + beyond;
    FirstFrameRead(payloads[0], beyond);
  }

  /** From any beginning of the stream the reader recovers exactly the payloads whose frames are complete
      in it: as many as fit, and no more. */
  lemma {:induction false} PrefixYieldsCompleteFrames(payloads: seq<Bytes>, k: nat) returns (n: nat)
    requires Sendable(payloads) && k <= |Encoded(payloads)|
    ensures n <= |payloads| && Feed(START, Encoded(payloads)[..k]).1 == payloads[..n]
    ensures |Encoded(payloads[..n])| <= k
    ensures n < |payloads| ==> k < |Encoded(payloads[..n + 1])|
    decreases |payloads|
  {
    if payloads == [] {
      n := 0;
    } else if k < |Frame(payloads[0])| {
      n := 0;
      NoFrameComplete(payloads, k);
    } else {
      n := PrefixYieldsCompleteFrames(payloads[1..], k - |Frame(payloads[0])|);
      FirstFrameComplete(payloads, k);
      assert payloads[..n + 1] == [payloads[0]] + payloads[1..][..n];
      EncodedTake(payloads, n + 1);
      if n + 1 < |payloads| {
        EncodedTake(payloads, n + 2);
      }
      n := n + 1;
    }
  }

  /** The reader stops for good at the first length that is zero or too large. */
  lemma StopsAtBadLength(payloads: seq<Bytes>, size: nat, rest: Bytes)
    requires Sendable(payloads) && size < 0x1_0000_0000 && (size == 0 || size > 65536)
    ensures Feed(START, Encoded(payloads) + (BigEndian(size) + rest)) == (Stopped, payloads)
  {
    ReadsBack(payloads, BigEndian(size) + rest);
    FeedConcat(START, BigEndian(size), rest);
    FeedLength(BigEndian(size));
    FeedStopped(rest);
    assert payloads + [] == payloads;
  }
}
