/** Length-prefixed messages and their parsers (agentd/src/protocol.rs, src/infrastructure/persistent.rs). */
module Framing {
  // The JSON codec is opaque: a payload is the encoded text, and `valid` says which payloads the JSON
  // parser accepts.

  import opened Bytes

  const MAX_MSG_LEN: nat := 128 * 1024 * 1024
  const U32: nat := 0x1_0000_0000

  type Payload = seq<byte>

  datatype FrameError = ZeroLength | TooLong | BadJson

  // ---------------------------------------------------------------------------------------
  // Encoding
  // ---------------------------------------------------------------------------------------

  function BigEndian(n: nat): (b: seq<byte>)
    requires n < U32
    ensures |b| == 4
  {
    [n / 0x1000000, n / 0x10000 % 0x100, n / 0x100 % 0x100, n % 0x100]
  }

  function FromBigEndian(b: seq<byte>): nat
    requires |b| >= 4
  {
    b[0] as int * 0x1000000 + b[1] as int * 0x10000 + b[2] as int * 0x100 + b[3] as int
  }

  lemma BigEndianRoundTrip(n: nat)
    requires n < U32
    ensures FromBigEndian(BigEndian(n)) == n
  {
    var high, low := n / 0x10000, n % 0x10000;
    assert n == high * 0x10000 + low;
    assert n / 0x1000000 == high / 0x100 && n / 0x100 % 0x100 == low / 0x100 && n % 0x100 == low % 0x100;
    assert high == high / 0x100 * 0x100 + high % 0x100 && low == low / 0x100 * 0x100 + low % 0x100;
  }

  /** The length is cast to 32 bits before it is written. */
  function Encode(msg: Payload): seq<byte> {
    BigEndian(|msg| % U32) + msg
  }

  // ---------------------------------------------------------------------------------------
  // Parsing
  // ---------------------------------------------------------------------------------------

  datatype Parsed = NeedMore | Bad(error: FrameError) | Message(payload: Payload, rest: seq<byte>)

  function TryParse(buffer: seq<byte>, valid: Payload -> bool): (p: Parsed)
    ensures p.Message? ==> |p.rest| < |buffer|
  {
    if |buffer| < 4 then NeedMore
    else
      var len := FromBigEndian(buffer);
      if len == 0 then Bad(ZeroLength)
      else if len > MAX_MSG_LEN then Bad(TooLong)
      else if |buffer| < 4 + len then NeedMore
      else if !valid(buffer[4..4 + len]) then Bad(BadJson)
      else Message(buffer[4..4 + len], buffer[4 + len..])
  }

  /** What has been dispatched, what is left over, and the error that ended it all. After an error the
  reader is gone, and what it had left over with it. */
  datatype Outcome = Outcome(messages: seq<Payload>, residual: seq<byte>, error: Option<FrameError>)

  function Drain(buffer: seq<byte>, valid: Payload -> bool): Outcome
    decreases |buffer|
  {
    match TryParse(buffer, valid)
    case NeedMore => Outcome([], buffer, None)
    case Bad(e) => Outcome([], [], Some(e))
    case Message(m, rest) =>
      var o := Drain(rest, valid);
      Outcome([m] + o.messages, o.residual, o.error)
  }

  /** Another chunk arrives. */
  function Feed(o: Outcome, chunk: seq<byte>, valid: Payload -> bool): Outcome {
    if o.error.Some? then o
    else
      var more := Drain(o.residual + chunk, valid);
      Outcome(o.messages + more.messages, more.residual, more.error)
  }

  function FeedAll(o: Outcome, chunks: seq<seq<byte>>, valid: Payload -> bool): Outcome
    decreases |chunks|
  {
    if chunks == [] then o else FeedAll(Feed(o, chunks[0], valid), chunks[1..], valid)
  }

  const NOTHING := Outcome([], [], None)

  // ---------------------------------------------------------------------------------------
  // The program's reader
  // ---------------------------------------------------------------------------------------

  class DaemonReader {
    const valid: Payload -> bool
    var buffer: seq<byte>
    var dispatched: seq<Payload>
    var error: Option<FrameError>

    ghost function Model(): Outcome
      reads this
    {
      Outcome(dispatched, if error.Some? then [] else buffer, error)
    }

    constructor (valid: Payload -> bool)
      ensures Model() == NOTHING && this.valid == valid
    {
      this.valid := valid;
      buffer, dispatched, error := [], [], None;
    }

    /** Takes one complete message out of the buffer; otherwise the buffer stays. */
    method TryParseMsg() returns (r: Parsed)
      modifies this`buffer
      ensures r == TryParse(old(buffer), valid)
      ensures buffer == if r.Message? then r.rest else old(buffer)
    {
      if |buffer| < 4 {
        return NeedMore;
      }
      var len := FromBigEndian(buffer);
      if len == 0 {
        return Bad(ZeroLength);
      }
      if len > MAX_MSG_LEN {
        return Bad(TooLong);
      }
      if |buffer| < 4 + len {
        return NeedMore;
      }
      var payload := buffer[4..4 + len];
      if !valid(payload) {
        return Bad(BadJson);
      }
      buffer := buffer[4 + len..];
      r := Message(payload, buffer);
    }

    /** One round of the reader loop: append, then dispatch every complete message. */
    method OnData(data: seq<byte>)
      modifies this`buffer, this`dispatched, this`error
      ensures Model() == Feed(old(Model()), data, valid)
    {
      if error.Some? {
        return;
      }
      buffer := buffer + data;
      ghost var before := dispatched;
      ghost var all := Drain(buffer, valid);
      assert before + all.messages == dispatched + Drain(buffer, valid).messages;
      while true
        invariant error == None
        invariant before + all.messages == dispatched + Drain(buffer, valid).messages
        invariant all.residual == Drain(buffer, valid).residual && all.error == Drain(buffer, valid).error
        decreases |buffer|
      {
        var rest := Drain(buffer, valid);
        var r := TryParseMsg();
        match r {
          case NeedMore =>
            assert dispatched + [] == dispatched;
            return;
          case Bad(e) =>
            error := Some(e);
            assert dispatched + [] == dispatched;
            return;
          case Message(payload, _) =>
            assert dispatched + rest.messages == (dispatched + [payload]) + rest.messages[1..];
            dispatched := dispatched + [payload];
        }
      }
    }
  }

  datatype ReadResult = UnexpectedEof | InvalidData(error: FrameError) | Read(payload: Payload, rest: seq<byte>)

  /** `read_msg`: reads the length, then the payload, from the bytes the stream will deliver. It decides as
  the incremental parser does; where that one waits for more, the end of the stream is an error. */
  method ReadMsg(stream: seq<byte>, valid: Payload -> bool) returns (r: ReadResult)
    ensures match TryParse(stream, valid)
            case NeedMore => r == UnexpectedEof
            case Bad(e) => r == InvalidData(e)
            case Message(m, rest) => r == Read(m, rest)
  {
    if |stream| < 4 {
      return UnexpectedEof;
    }
    var lenBuf, after := stream[..4], stream[4..];
    var len := FromBigEndian(lenBuf);
    if len == 0 {
      return InvalidData(ZeroLength);
    }
    if len > MAX_MSG_LEN {
      return InvalidData(TooLong);
    }
    if |after| < len {
      return UnexpectedEof;
    }
    assert after[..len] == stream[4..4 + len] && after[len..] == stream[4 + len..];
    var buf := after[..len];
    if !valid(buf) {
      return InvalidData(BadJson);
    }
    r := Read(buf, after[len..]);
  }

  /** What the four bytes of a length say, written out: the most significant one comes first, zero is an error,
  and so is anything above 128 MiB. */
  lemma HeaderDecides(a: byte, b: byte, c: byte, d: byte, rest: seq<byte>, valid: Payload -> bool)
    ensures var len := a as int * 16777216 + b as int * 65536 + c as int * 256 + d as int;
            var p := TryParse([a, b, c, d] + rest, valid);
            if len == 0 then p == Bad(ZeroLength)
            else if len > 134217728 then p == Bad(TooLong)
            else if |rest| < len then p == NeedMore
            else if !valid(rest[..len]) then p == Bad(BadJson)
            else p == Message(rest[..len], rest[len..])
  {
    var len := a as int * 16777216 + b as int * 65536 + c as int * 256 + d as int;
    var all := [a, b, c, d] + rest;
    if |rest| >= len {
      assert all[4..4 + len] == rest[..len] && all[4 + len..] == rest[len..];
    }
  }

  /** A message of 66051 bytes is preceded by the bytes 0, 1, 2 and 3. */
  lemma LengthIsBigEndian(msg: Payload)
    requires |msg| == 66051
    ensures Encode(msg) == [0, 1, 2, 3] + msg
  {
  }

  // ---------------------------------------------------------------------------------------
  // Chunks do not matter
  // ---------------------------------------------------------------------------------------

  lemma ParseExtends(a: seq<byte>, b: seq<byte>, valid: Payload -> bool)
    ensures match TryParse(a, valid)
            case NeedMore => true
            case Bad(e) => TryParse(a + b, valid) == Bad(e)
            case Message(m, rest) => TryParse(a + b, valid) == Message(m, rest + b)
  {
    if |a| >= 4 {
      var len := FromBigEndian(a);
      assert FromBigEndian(a + b) == len;
      if |a| >= 4 + len {
        assert (a + b)[4..4 + len] == a[4..4 + len];
        assert (a + b)[4 + len..] == a[4 + len..] + b;
      }
    }
  }

  /** One more message in front of what has been dispatched. */
  function Behind(m: Payload, o: Outcome): Outcome {
    Outcome([m] + o.messages, o.residual, o.error)
  }

  lemma DrainMessage(buffer: seq<byte>, valid: Payload -> bool)
    ensures match TryParse(buffer, valid)
            case NeedMore => Drain(buffer, valid) == Outcome([], buffer, None)
            case Bad(e) => Drain(buffer, valid) == Outcome([], [], Some(e))
            case Message(m, rest) => Drain(buffer, valid) == Behind(m, Drain(rest, valid))
  {
  }

  lemma FeedBehind(m: Payload, o: Outcome, chunk: seq<byte>, valid: Payload -> bool)
    ensures Feed(Behind(m, o), chunk, valid) == Behind(m, Feed(o, chunk, valid))
  {
    var more := Drain(o.residual + chunk, valid);
    assert ([m] + o.messages) + more.messages == [m] + (o.messages + more.messages);
  }

  lemma FeedWaiting(a: seq<byte>, b: seq<byte>, valid: Payload -> bool)
    ensures Feed(Outcome([], a, None), b, valid) == Drain(a + b, valid)
  {
    var o := Drain(a + b, valid);
    assert [] + o.messages == o.messages;
  }

  lemma {:induction false} DrainInTwo(a: seq<byte>, b: seq<byte>, valid: Payload -> bool)
    ensures Feed(Drain(a, valid), b, valid) == Drain(a + b, valid)
    decreases |a|
  {
    ParseExtends(a, b, valid);
    DrainMessage(a, valid);
    DrainMessage(a + b, valid);
    match TryParse(a, valid) {
      case NeedMore => FeedWaiting(a, b, valid);
      case Bad(_) =>
      case Message(m, rest) =>
        DrainInTwo(rest, b, valid);
        FeedBehind(m, Drain(rest, valid), b, valid);
    }
  }

  lemma FlattenFirst(seen: seq<byte>, chunks: seq<seq<byte>>)
    ensures chunks == [] ==> seen + Flatten(chunks) == seen
    ensures chunks != [] ==> seen + Flatten(chunks) == (seen + chunks[0]) + Flatten(chunks[1..])
  {
  }

  lemma {:induction false} FeedFromDrained(seen: seq<byte>, chunks: seq<seq<byte>>, valid: Payload -> bool)
    ensures FeedAll(Drain(seen, valid), chunks, valid) == Drain(seen + Flatten(chunks), valid)
    decreases |chunks|
  {
    FlattenFirst(seen, chunks);
    if chunks != [] {
      DrainInTwo(seen, chunks[0], valid);
      FeedFromDrained(seen + chunks[0], chunks[1..], valid);
    }
  }

  lemma {:induction false} ResidualBound(buffer: seq<byte>, valid: Payload -> bool)
    ensures |Drain(buffer, valid).residual| < 4 + MAX_MSG_LEN
    decreases |buffer|
  {
    match TryParse(buffer, valid) {
      case Message(_, rest) => ResidualBound(rest, valid);
      case _ =>
    }
  }

  /** However a stream is cut into chunks, the messages dispatched, the bytes left over and the error are
  those of the whole stream, and fewer than a full frame is ever left over. */
  lemma ChunkingDoesNotMatter(chunks: seq<seq<byte>>, valid: Payload -> bool)
    ensures FeedAll(NOTHING, chunks, valid) == Drain(Flatten(chunks), valid)
    ensures |FeedAll(NOTHING, chunks, valid).residual| < 4 + MAX_MSG_LEN
  {
    FeedFromDrained([], chunks, valid);
    assert [] + Flatten(chunks) == Flatten(chunks);
    ResidualBound(Flatten(chunks), valid);
  }

  // ---------------------------------------------------------------------------------------
  // Round trip
  // ---------------------------------------------------------------------------------------

  function EncodeAll(msgs: seq<Payload>): seq<byte> {
    if msgs == [] then [] else Encode(msgs[0]) + EncodeAll(msgs[1..])
  }

  predicate Sendable(msg: Payload, valid: Payload -> bool) {
    1 <= |msg| <= MAX_MSG_LEN && valid(msg)
  }

  lemma EncodedParts(msg: Payload, rest: seq<byte>)
    requires |msg| < U32
    ensures var buffer := Encode(msg) + rest;
            && |buffer| == 4 + |msg| + |rest| && FromBigEndian(buffer) == |msg|
            && buffer[4..4 + |msg|] == msg && buffer[4 + |msg|..] == rest
  {
    BigEndianRoundTrip(|msg|);
    assert (Encode(msg) + rest)[..4] == BigEndian(|msg|);
  }

  lemma {:induction false} ParseEncoded(msg: Payload, rest: seq<byte>, valid: Payload -> bool)
    requires Sendable(msg, valid)
    ensures TryParse(Encode(msg) + rest, valid) == Message(msg, rest)
  {
    EncodedParts(msg, rest);
  }

  lemma EncodeFirst(msgs: seq<Payload>, tail: seq<byte>)
    ensures msgs == [] ==> EncodeAll(msgs) + tail == tail
    ensures msgs != [] ==> EncodeAll(msgs) + tail == Encode(msgs[0]) + (EncodeAll(msgs[1..]) + tail)
  {
  }

  lemma FirstAndRest<T>(xs: seq<T>, ys: seq<T>)
    requires xs != []
    ensures [xs[0]] + (xs[1..] + ys) == xs + ys
  {
  }

  lemma {:induction false} DrainFirst(msg: Payload, rest: seq<byte>, valid: Payload -> bool)
    requires Sendable(msg, valid)
    ensures var o := Drain(rest, valid);
            Drain(Encode(msg) + rest, valid) == Outcome([msg] + o.messages, o.residual, o.error)
  {
    ParseEncoded(msg, rest, valid);
  }

  /** A stream of encoded messages is parsed to exactly those messages, whatever the chunks; if it is cut
  short, to the messages that are complete. */
  lemma {:induction false} DrainEncoded(msgs: seq<Payload>, tail: seq<byte>, valid: Payload -> bool)
    requires forall i :: 0 <= i < |msgs| ==> Sendable(msgs[i], valid)
    ensures var o := Drain(tail, valid);
            Drain(EncodeAll(msgs) + tail, valid) == Outcome(msgs + o.messages, o.residual, o.error)
  {
    var o := Drain(tail, valid);
    EncodeFirst(msgs, tail);
    if msgs == [] {
      assert msgs + o.messages == o.messages;
    } else {
      DrainFirst(msgs[0], EncodeAll(msgs[1..]) + tail, valid);
      DrainEncoded(msgs[1..], tail, valid);
      FirstAndRest(msgs, o.messages);
    }
  }

  lemma {:induction false} EncodedStreamRoundTrip(msgs: seq<Payload>, chunks: seq<seq<byte>>, valid: Payload -> bool)
    requires forall i :: 0 <= i < |msgs| ==> Sendable(msgs[i], valid)
    requires Flatten(chunks) == EncodeAll(msgs)
    ensures FeedAll(NOTHING, chunks, valid) == Outcome(msgs, [], None)
  {
    ChunkingDoesNotMatter(chunks, valid);
    DrainEncoded(msgs, [], valid);
    assert EncodeAll(msgs) + [] == EncodeAll(msgs);
    assert msgs + [] == msgs;
  }

  /** A message survives exactly when its length is from 1 to the limit. A longer one is refused, or, from
  four gigabytes on, can be cut short by the 32-bit length. */
  lemma RoundTripExactly(msg: Payload, valid: Payload -> bool)
    requires valid(msg)
    ensures Drain(Encode(msg), valid) == Outcome([msg], [], None) <==> 1 <= |msg| <= 134217728
  {
    var frame := Encode(msg);
    BigEndianRoundTrip(|msg| % U32);
    assert frame[..4] == BigEndian(|msg| % U32);
    assert FromBigEndian(frame) == |msg| % U32;
    if 1 <= |msg| <= MAX_MSG_LEN {
      ParseEncoded(msg, [], valid);
      assert frame + [] == frame;
      assert [msg] + [] == [msg];
    } else {
      match TryParse(frame, valid) {
        case Message(m, rest) => assert |m| < |msg|;
        case _ =>
      }
    }
  }
}
