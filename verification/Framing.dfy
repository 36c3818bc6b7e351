/** The length-prefixed wire format of `sandbox_protocol.py`, and its second copy in `anonymizer_worker.py`.
    A frame body is a byte string; turning it into JSON and back is left to the caller. */
module Framing {
  import opened Wrappers

  newtype byte = x: int | 0 <= x < 256
  type Bytes = seq<byte>

  const MAX_FRAME_BYTES := 64 * 1024 * 1024
  const LENGTH_LIMIT := 0x1_0000_0000

  /** `struct.pack(">I", n)` */
  function Pack(n: nat): Bytes
    requires n < LENGTH_LIMIT
  {
    [(n / 0x100_0000) as byte, (n / 0x1_0000 % 0x100) as byte, (n / 0x100 % 0x100) as byte, (n % 0x100) as byte]
  }

  function Unpack(h: Bytes): nat
    requires |h| == 4
  {
    h[0] as nat * 0x100_0000 + h[1] as nat * 0x1_0000 + h[2] as nat * 0x100 + h[3] as nat
  }

  lemma UnpackInvertsPack(n: nat)
    requires n < LENGTH_LIMIT
    ensures Unpack(Pack(n)) == n
  {
    assert n / 0x1_0000 == n / 0x100 / 0x100 && n / 0x100_0000 == n / 0x1_0000 / 0x100;
  }

  function Frame(body: Bytes): Bytes
    requires |body| < LENGTH_LIMIT
  {
    Pack(|body|) + body
  }

  predicate InLimit(bodies: seq<Bytes>) {
    forall i :: 0 <= i < |bodies| ==> |bodies[i]| <= MAX_FRAME_BYTES
  }

  /** Everything a writer of these bodies puts on the wire. */
  function Wire(bodies: seq<Bytes>): Bytes
    requires InLimit(bodies)
  {
    if bodies == [] then [] else Frame(bodies[0]) + Wire(bodies[1..])
  }

  // ---------------------------------------------------------------------------------------
  // Decoding a byte stream
  // ---------------------------------------------------------------------------------------

  datatype Outcome = Body(bytes: Bytes) | Eof | TooLong

  /** What one `read_frame` makes of the bytes before it, and what it leaves unread. */
  function Decode(s: Bytes): (Outcome, Bytes) {
    if |s| < 4 then (Eof, [])
    else
      var length := Unpack(s[..4]);
      if length > MAX_FRAME_BYTES then (TooLong, s[4..])
      else if |s| - 4 < length then (Eof, [])
      else (Body(s[4..4 + length]), s[4 + length..])
  }

  /** Frames read until the first failure, and that failure. */
  function DecodeAll(s: Bytes): (seq<Bytes>, Outcome)
    decreases |s|
  {
    var (first, rest) := Decode(s);
    match first
    case Body(b) => var (more, end) := DecodeAll(rest); ([b] + more, end)
    case _ => ([], first)
  }

  lemma DecodeFrame(body: Bytes, tail: Bytes)
    requires |body| < LENGTH_LIMIT
    ensures Decode(Frame(body) + tail) ==
            if |body| <= MAX_FRAME_BYTES then (Body(body), tail) else (TooLong, body + tail)
  {
    var s := Frame(body) + tail;
    UnpackInvertsPack(|body|);
    assert s[..4] == Pack(|body|) && s[4..] == body + tail;
    assert s[4..][..|body|] == body && s[4..][|body|..] == tail;
    if |body| <= MAX_FRAME_BYTES { assert s[4..4 + |body|] == body && s[4 + |body|..] == tail; }
  }

  lemma DecodeAllStep(s: Bytes, b: Bytes, rest: Bytes)
    requires Decode(s) == (Body(b), rest)
    ensures DecodeAll(s) == ([b] + DecodeAll(rest).0, DecodeAll(rest).1)
  {
  }

  lemma DecodeAfterOne(f: Bytes, body: Bytes, more: seq<Bytes>, wire: Bytes, tail: Bytes)
    requires Decode(f + (wire + tail)) == (Body(body), wire + tail)
    requires DecodeAll(wire + tail) == (more + DecodeAll(tail).0, DecodeAll(tail).1)
    ensures DecodeAll((f + wire) + tail) == (([body] + more) + DecodeAll(tail).0, DecodeAll(tail).1)
  {
    DecodeAllStep(f + (wire + tail), body, wire + tail);
    assert (f + wire) + tail == f + (wire + tail);
    assert [body] + (more + DecodeAll(tail).0) == ([body] + more) + DecodeAll(tail).0;
  }

  /** Whatever follows, in-limit frames decode to exactly their bodies. */
  lemma {:induction false} DecodeAfterWire(bodies: seq<Bytes>, tail: Bytes)
    requires InLimit(bodies)
    ensures DecodeAll(Wire(bodies) + tail) == (bodies + DecodeAll(tail).0, DecodeAll(tail).1)
  {
    if bodies == [] {
      assert Wire(bodies) + tail == tail && bodies + DecodeAll(tail).0 == DecodeAll(tail).0;
    } else {
      DecodeAfterWire(bodies[1..], tail);
      DecodeFrame(bodies[0], Wire(bodies[1..]) + tail);
      DecodeAfterOne(Frame(bodies[0]), bodies[0], bodies[1..], Wire(bodies[1..]), tail);
      assert [bodies[0]] + bodies[1..] == bodies;
    }
  }

  lemma RoundTrip(bodies: seq<Bytes>)
    requires InLimit(bodies)
    ensures DecodeAll(Wire(bodies)) == (bodies, Eof)
  {
    DecodeAfterWire(bodies, []);
    assert Wire(bodies) + [] == Wire(bodies) && bodies + [] == bodies;
  }

  lemma PartialFrameIsEof(body: Bytes, k: nat)
    requires |body| <= MAX_FRAME_BYTES && k < |Frame(body)|
    ensures DecodeAll(Frame(body)[..k]) == ([], Eof)
  {
    var cut := Frame(body)[..k];
    if k >= 4 {
      UnpackInvertsPack(|body|);
      assert cut[..4] == Pack(|body|);
    }
  }

  /** A stream cut anywhere yields the frames that arrived whole, then EOF; never a wrong body. */
  lemma {:induction false} TruncatedStream(bodies: seq<Bytes>, k: nat) returns (n: nat)
    requires InLimit(bodies) && k <= |Wire(bodies)|
    ensures n <= |bodies| && DecodeAll(Wire(bodies)[..k]) == (bodies[..n], Eof)
    ensures |Wire(bodies[..n])| <= k && (n < |bodies| ==> k < |Wire(bodies[..n + 1])|)
  {
    if bodies == [] {
      n := 0;
    } else if k < |Frame(bodies[0])| {
      n := 0;
      CutInFirst(bodies, k);
    } else {
      var m := TruncatedStream(bodies[1..], k - |Frame(bodies[0])|);
      n := m + 1;
      CutAfterFirst(bodies, k, m);
      LongerPrefixes(bodies, m);
    }
  }

  lemma CutInFirst(bodies: seq<Bytes>, k: nat)
    requires bodies != [] && InLimit(bodies) && k < |Frame(bodies[0])|
    ensures k <= |Wire(bodies)| && DecodeAll(Wire(bodies)[..k]) == ([], Eof) && k < |Wire(bodies[..1])|
  {
    PartialFrameIsEof(bodies[0], k);
    assert Wire(bodies)[..k] == Frame(bodies[0])[..k];
    WirePrefix(bodies, 0);
  }

  lemma CutAfterFirst(bodies: seq<Bytes>, k: nat, m: nat)
    requires bodies != [] && InLimit(bodies) && m < |bodies| && |Frame(bodies[0])| <= k <= |Wire(bodies)|
    requires DecodeAll(Wire(bodies[1..])[..k - |Frame(bodies[0])|]) == (bodies[1..][..m], Eof)
    ensures DecodeAll(Wire(bodies)[..k]) == (bodies[..m + 1], Eof)
  {
    var first, rest := Frame(bodies[0]), Wire(bodies[1..])[..k - |Frame(bodies[0])|];
    DecodeFrame(bodies[0], rest);
    assert Wire(bodies)[..k] == first + rest;
    DecodeAllStep(first + rest, bodies[0], rest);
    assert bodies[..m + 1] == [bodies[0]] + bodies[1..][..m];
  }

  lemma LongerPrefixes(bodies: seq<Bytes>, m: nat)
    requires InLimit(bodies) && m < |bodies|
    ensures |Wire(bodies[..m + 1])| == |Frame(bodies[0])| + |Wire(bodies[1..][..m])|
    ensures m + 1 < |bodies| ==> |Wire(bodies[..m + 2])| == |Frame(bodies[0])| + |Wire(bodies[1..][..m + 1])|
  {
    WirePrefix(bodies, m);
    if m + 1 < |bodies| { WirePrefix(bodies, m + 1); }
  }

  lemma WirePrefix(bodies: seq<Bytes>, m: nat)
    requires m < |bodies| && InLimit(bodies)
    ensures Wire(bodies[..m + 1]) == Frame(bodies[0]) + Wire(bodies[1..][..m])
  {
    assert bodies[..m + 1][1..] == bodies[1..][..m];
  }

  // ---------------------------------------------------------------------------------------
  // Reading from a stream that splits its data as it likes
  // ---------------------------------------------------------------------------------------

  class Stream {
    var pending: Bytes

    constructor (data: Bytes)
      ensures pending == data
    {
      pending := data;
    }

    /** `stream.read(n)`: some of what is pending, at most `n` bytes, and nothing only at the end. */
    method Read(n: nat) returns (chunk: Bytes)
      modifies this
      ensures |chunk| <= n && old(pending) == chunk + pending
      ensures chunk == [] <==> n == 0 || old(pending) == []
    {
      if n == 0 || pending == [] { return []; }
      var most := if n < |pending| then n else |pending|;
      var k: nat :| 1 <= k <= most;
      chunk, pending := pending[..k], pending[k..];
    }
  }

  /** However the reads are split: the next `count` bytes, or nothing once the stream has run dry. */
  method ReadExact(stream: Stream, count: nat) returns (bytes: Option<Bytes>)
    modifies stream
    ensures if count <= |old(stream.pending)|
            then bytes == Some(old(stream.pending)[..count]) && stream.pending == old(stream.pending)[count..]
            else bytes == None && stream.pending == []
  {
    var chunks: Bytes, remaining := [], count;
    while remaining > 0
      invariant 0 <= remaining <= count && |chunks| == count - remaining
      invariant old(stream.pending) == chunks + stream.pending
    {
      var chunk := stream.Read(remaining);
      if chunk == [] { return None; }
      chunks := chunks + chunk;
      remaining := remaining - |chunk|;
    }
    assert old(stream.pending)[..count] == chunks && old(stream.pending)[count..] == stream.pending;
    return Some(chunks);
  }

  method ReadFrame(stream: Stream) returns (frame: Outcome)
    modifies stream
    ensures (frame, stream.pending) == Decode(old(stream.pending))
  {
    var header := ReadExact(stream, 4);
    if header.None? { return Eof; }
    var length := Unpack(header.value);
    if length > MAX_FRAME_BYTES { return TooLong; }
    ghost var after := stream.pending;
    var body := ReadExact(stream, length);
    if body.None? { return Eof; }
    ghost var s := old(stream.pending);
    assert s[4..] == after && s[4..4 + length] == after[..length] && s[4 + length..] == after[length..];
    return Body(body.value);
  }

  /** A consumer that reads until the stream fails. */
  method ReadAll(stream: Stream) returns (bodies: seq<Bytes>, end: Outcome)
    modifies stream
    ensures (bodies, end) == DecodeAll(old(stream.pending))
  {
    bodies := [];
    ghost var before := stream.pending;
    assert [] + DecodeAll(before).0 == DecodeAll(before).0;
    end := ReadFrame(stream);
    while end.Body?
      invariant (end, stream.pending) == Decode(before)
      invariant DecodeAll(old(stream.pending)) == (bodies + DecodeAll(before).0, DecodeAll(before).1)
      decreases |before|
    {
      DecodeAllStep(before, end.bytes, stream.pending);
      assert bodies + ([end.bytes] + DecodeAll(stream.pending).0) == (bodies + [end.bytes])
          + DecodeAll(stream.pending).0;
      bodies := bodies + [end.bytes];
      before := stream.pending;
      end := ReadFrame(stream);
    }
    assert bodies + [] == bodies;
  }

  // ---------------------------------------------------------------------------------------
  // Writing
  // ---------------------------------------------------------------------------------------

  datatype WriteError = FrameTooLong | StructError

  /** `sandbox_protocol.write_frame`: nothing is written when the body is over the limit. */
  function Written(sink: Bytes, body: Bytes): Result<Bytes, WriteError> {
    if |body| > MAX_FRAME_BYTES then Failure(FrameTooLong) else Success(sink + Pack(|body|) + body)
  }

  /** `anonymizer_worker.write_frame`: no limit of its own; only `struct.pack` can refuse. */
  function AnonymizerWritten(sink: Bytes, body: Bytes): Result<Bytes, WriteError> {
    if |body| >= LENGTH_LIMIT then Failure(StructError) else Success(sink + Pack(|body|) + body)
  }

  /** The two copies are documented to match exactly. Their writers agree, and what the anonymizer worker
      writes can be read back, exactly up to the frame limit. */
  lemma WritersAgreeUpToTheLimit(sink: Bytes, body: Bytes)
    requires |body| < LENGTH_LIMIT
    ensures AnonymizerWritten(sink, body) == Written(sink, body) <==> |body| <= MAX_FRAME_BYTES
    ensures Decode(AnonymizerWritten([], body).value).0 == Body(body) <==> |body| <= MAX_FRAME_BYTES
  {
    DecodeFrame(body, []);
    assert [] + Pack(|body|) + body == Frame(body) + [];
  }

  /** A body for which they differ, one byte over 64 MiB; a byte less, and both write it. */
  lemma OversizedBodyExample()
    ensures
      var body: Bytes := seq(67108865, _ => 0);
      && Written([], body) == Failure(FrameTooLong) && AnonymizerWritten([], body).Success?
      && Decode(AnonymizerWritten([], body).value).0 == TooLong
      && Written([], body[1..]) == AnonymizerWritten([], body[1..]) && Written([], body[1..]).Success?
  {
    var body: Bytes := seq(67108865, _ => 0);
    DecodeFrame(body, []);
    assert [] + Pack(|body|) + body == Frame(body) + [];
  }
}

/** The duplicate reader of `anonymizer_worker.py`, which imports nothing from the package. */
module AnonymizerFraming {
  import opened Wrappers
  import Framing

  method ReadExact(stream: Framing.Stream, count: nat) returns (bytes: Option<Framing.Bytes>)
    modifies stream
    ensures if count <= |old(stream.pending)|
            then bytes == Some(old(stream.pending)[..count]) && stream.pending == old(stream.pending)[count..]
            else bytes == None && stream.pending == []
  {
    var chunks: Framing.Bytes, remaining := [], count;
    while remaining > 0
      invariant 0 <= remaining <= count && |chunks| == count - remaining
      invariant old(stream.pending) == chunks + stream.pending
    {
      var chunk := stream.Read(remaining);
      if chunk == [] { return None; }
      chunks, remaining := chunks + chunk, remaining - |chunk|;
    }
    assert old(stream.pending)[..count] == chunks && old(stream.pending)[count..] == stream.pending;
    return Some(chunks);
  }

  /** Decodes every stream exactly as the sandbox's own reader does. */
  method ReadFrame(stream: Framing.Stream) returns (frame: Framing.Outcome)
    modifies stream
    ensures (frame, stream.pending) == Framing.Decode(old(stream.pending))
  {
    var header := ReadExact(stream, 4);
    if header.None? { return Framing.Eof; }
    var length := Framing.Unpack(header.value);
    if length > Framing.MAX_FRAME_BYTES { return Framing.TooLong; }
    ghost var after := stream.pending;
    var body := ReadExact(stream, length);
    if body.None? { return Framing.Eof; }
    ghost var s := old(stream.pending);
    assert s[4..] == after && s[4..4 + length] == after[..length] && s[4 + length..] == after[length..];
    return Framing.Body(body.value);
  }
}
