/** The native-messaging frames: a 32-bit little-endian length before each body. */
module Framing {
  import opened Wrappers
  import opened Bytes

  const MAX_MESSAGE_BYTES := 64 * 1024 * 1024

  /** `writeUInt32LE`. */
  function Header(n: nat): (h: seq<Byte>)
    requires n < 0x1_0000_0000
    ensures |h| == 4
  {
    [n % 256, n / 256 % 256, n / 65536 % 256, n / 16777216]
  }

  /** `readUInt32LE` at the start of the buffer. */
  function LengthAt(buffer: seq<Byte>): (n: nat)
    requires |buffer| >= 4
  {
    var (b0: int, b1: int, b2: int, b3: int) := (buffer[0], buffer[1], buffer[2], buffer[3]);
    b0 + 256 * b1 + 65536 * b2 + 16777216 * b3
  }

  lemma HeaderRoundTrip(n: nat, rest: seq<Byte>)
    requires n < 0x1_0000_0000
    ensures LengthAt(Header(n) + rest) == n
  {
    assert n / 65536 == n / 256 / 256 && n / 16777216 == n / 256 / 256 / 256;
  }

  /** The least significant byte comes first. */
  lemma LengthIsLittleEndian(buffer: seq<Byte>)
    requires |buffer| >= 4
    ensures LengthAt(buffer) == BigEndian([buffer[3], buffer[2], buffer[1], buffer[0]])
  {
    FourDigits([buffer[3], buffer[2], buffer[1], buffer[0]]);
  }

  function Frame(body: seq<Byte>): seq<Byte>
    requires |body| < 0x1_0000_0000
  {
    Header(|body|) + body
  }

  /** `encodeMessage`; a body whose length does not fit the header throws. */
  function EncodeMessage(body: seq<Byte>): Result<seq<Byte>, nat> {
    if |body| < 0x1_0000_0000 then Ok(Frame(body)) else Err(|body|)
  }

  /** Whole messages, what is left, and the length that was refused, if any. */
  datatype Drained = Drained(messages: seq<seq<Byte>>, rest: seq<Byte>, refused: Option<nat>)

  /** What a decoder that has already taken `messages` out has when `later` follows. */
  function After(messages: seq<seq<Byte>>, later: Drained): Drained {
    later.(messages := messages + later.messages)
  }

  lemma AfterAfter(first: seq<seq<Byte>>, second: seq<seq<Byte>>, later: Drained)
    ensures After(first, After(second, later)) == After(first + second, later)
  {
  }

  function Drain(buffer: seq<Byte>): Drained
    decreases |buffer|
  {
    if |buffer| < 4 then Drained([], buffer, None)
    else
      var length := LengthAt(buffer);
      if length > MAX_MESSAGE_BYTES then Drained([], buffer, Some(length))
      else if |buffer| < 4 + length then Drained([], buffer, None)
      else
        After([buffer[4..4 + length]], Drain(buffer[4 + length..]))
  }

  class MessageDecoder {
    var buffer: seq<Byte>

    constructor ()
      ensures buffer == []
    {
      buffer := [];
    }

    /**
     * Append a chunk and take out the whole messages. When a length is refused
     * the buffer keeps the offending frame, and the messages taken out in this
     * call are lost with the error.
     */
    method Push(chunk: seq<Byte>) returns (result: Result<seq<seq<Byte>>, nat>)
      modifies this
      ensures var d := Drain(old(buffer) + chunk);
              && buffer == d.rest
              && result == if d.refused.Some? then Err(d.refused.value) else Ok(d.messages)
    {
      buffer := buffer + chunk;
      ghost var whole := buffer;
      var messages: seq<seq<Byte>> := [];
      while true
        invariant Drain(whole) == After(messages, Drain(buffer))
        decreases |buffer|
      {
        if |buffer| < 4 {
          break;
        }
        var length := LengthAt(buffer);
        if length > MAX_MESSAGE_BYTES {
          return Err(length);
        }
        if |buffer| < 4 + length {
          break;
        }
        var body := buffer[4..4 + length];
        AfterAfter(messages, [body], Drain(buffer[4 + length..]));
        buffer := buffer[4 + length..];
        messages := messages + [body];
      }
      assert messages + [] == messages;
      result := Ok(messages);
    }
  }

  // ------------------------------------------------------- chunk independence

  lemma LengthOfPrefix(first: seq<Byte>, second: seq<Byte>)
    requires |first| >= 4
    ensures LengthAt(first + second) == LengthAt(first)
  {
  }

  /** One whole frame at the front is one message, and the drain goes on after it. */
  lemma DrainFrame(frame: seq<Byte>, rest: seq<Byte>)
    requires |frame| >= 4 && |frame| == 4 + LengthAt(frame) && LengthAt(frame) <= MAX_MESSAGE_BYTES
    ensures Drain(frame + rest) == After([frame[4..]], Drain(rest))
  {
  }

  /** What `DrainFrame` takes off the front of a buffer that holds a whole frame. */
  predicate StartsWithFrame(buffer: seq<Byte>) {
    && |buffer| >= 4
    && LengthAt(buffer) <= MAX_MESSAGE_BYTES
    && |buffer| >= 4 + LengthAt(buffer)
  }

  lemma CutAt(buffer: seq<Byte>, n: nat, second: seq<Byte>)
    requires 4 <= n <= |buffer|
    ensures buffer == buffer[..n] + buffer[n..] && buffer[..n][4..] == buffer[4..n]
    ensures buffer + second == buffer[..n] + (buffer[n..] + second)
  {
  }

  lemma DrainFront(buffer: seq<Byte>, second: seq<Byte>)
    requires StartsWithFrame(buffer)
    ensures var n := 4 + LengthAt(buffer);
            && n <= |buffer|
            && LengthAt(buffer[..n]) == n - 4
            && Drain(buffer + second) == After([buffer[4..n]], Drain(buffer[n..] + second))
  {
    var n := 4 + LengthAt(buffer);
    hide LengthAt, Drain, After;
    CutAt(buffer, n, second);
    LengthOfPrefix(buffer[..n], buffer[n..]);
    DrainFrame(buffer[..n], buffer[n..] + second);
  }

  /**
   * Draining what was left together with what comes next continues where the
   * first drain stopped: messages, rest and refusal are those of the whole.
   */
  lemma {:induction false} DrainContinues(first: seq<Byte>, second: seq<Byte>)
    requires Drain(first).refused.None?
    ensures Drain(first + second) == After(Drain(first).messages, Drain(Drain(first).rest + second))
    decreases |first|
  {
    if StartsWithFrame(first) {
      var n := 4 + LengthAt(first);
      DrainFront(first, second);
      DrainFront(first, []);
      assert first + [] == first && first[n..] + [] == first[n..];
      DrainContinues(first[n..], second);
      AfterAfter([first[4..n]], Drain(first[n..]).messages, Drain(Drain(first[n..]).rest + second));
    } else {
      assert Drain(first) == Drained([], first, None);
      assert [] + Drain(first + second).messages == Drain(first + second).messages;
    }
  }

  function Joined(chunks: seq<seq<Byte>>): seq<Byte> {
    if chunks == [] then [] else chunks[0] + Joined(chunks[1..])
  }

  /** Successive pushes, up to the first that throws. */
  function PushAll(buffer: seq<Byte>, chunks: seq<seq<Byte>>): Drained
    decreases |chunks|
  {
    if chunks == [] then Drained([], buffer, None)
    else
      var d := Drain(buffer + chunks[0]);
      if d.refused.Some? then Drained([], d.rest, d.refused)
      else
        After(d.messages, PushAll(d.rest, chunks[1..]))
  }

  /** Between pushes the buffer holds no whole message. */
  predicate Waiting(buffer: seq<Byte>) {
    Drain(buffer) == Drained([], buffer, None)
  }

  lemma {:induction false} RestWaits(buffer: seq<Byte>)
    requires Drain(buffer).refused.None?
    ensures Waiting(Drain(buffer).rest)
    decreases |buffer|
  {
    if |buffer| >= 4 && |buffer| >= 4 + LengthAt(buffer) {
      RestWaits(buffer[4 + LengthAt(buffer)..]);
    }
  }

  /**
   * However a stream is cut into chunks, the pushes deliver the messages of the
   * whole stream and leave its rest; and they throw exactly when the whole
   * stream does, having delivered no message that the whole does not contain.
   */
  lemma {:induction false} AnySplitDeliversTheSame(buffer: seq<Byte>, chunks: seq<seq<Byte>>)
    requires Waiting(buffer)
    ensures var whole, pushed := Drain(buffer + Joined(chunks)), PushAll(buffer, chunks);
            && pushed.refused == whole.refused
            && (whole.refused.None? ==> pushed == whole)
            && pushed.messages <= whole.messages
    decreases |chunks|
  {
    if chunks == [] {
      assert buffer + Joined(chunks) == buffer;
    } else {
      var first, later := buffer + chunks[0], Joined(chunks[1..]);
      assert buffer + Joined(chunks) == first + later;
      if Drain(first).refused.Some? {
        RefusalStays(first, later);
      } else {
        DrainContinues(first, later);
        RestWaits(first);
        AnySplitDeliversTheSame(Drain(first).rest, chunks[1..]);
      }
    }
  }

  lemma {:induction false} RefusalStays(first: seq<Byte>, second: seq<Byte>)
    requires Drain(first).refused.Some?
    ensures Drain(first + second).refused == Drain(first).refused
    ensures Drain(first + second).messages == Drain(first).messages
    decreases |first|
  {
    if StartsWithFrame(first) {
      var n := 4 + LengthAt(first);
      DrainFront(first, second);
      DrainFront(first, []);
      assert first + [] == first && first[n..] + [] == first[n..];
      RefusalStays(first[n..], second);
    } else {
      assert LengthAt(first + second) == LengthAt(first);
    }
  }

  // ----------------------------------------------------------------- round trip

  predicate WithinCap(bodies: seq<seq<Byte>>) {
    forall i :: 0 <= i < |bodies| ==> |bodies[i]| <= MAX_MESSAGE_BYTES
  }

  function Stream(bodies: seq<seq<Byte>>): seq<Byte>
    requires WithinCap(bodies)
  {
    if bodies == [] then [] else Frame(bodies[0]) + Stream(bodies[1..])
  }

  /** An encoded body at the front is the first message. */
  lemma DrainEncoded(body: seq<Byte>, rest: seq<Byte>)
    requires |body| <= MAX_MESSAGE_BYTES
    ensures Drain(Frame(body) + rest) == After([body], Drain(rest))
  {
    hide LengthAt, Header, Drain;
    HeaderRoundTrip(|body|, body);
    DrainFrame(Frame(body), rest);
    assert Frame(body)[4..] == body;
  }

  lemma StreamFront(bodies: seq<seq<Byte>>, tail: seq<Byte>)
    requires WithinCap(bodies) && bodies != []
    ensures WithinCap(bodies[1..])
    ensures Stream(bodies) + tail == Frame(bodies[0]) + (Stream(bodies[1..]) + tail)
  {
    hide Frame;
  }

  /** Decoding the encoded stream yields the messages in order and leaves exactly the unread tail. */
  lemma {:induction false} DecodeInvertsEncode(bodies: seq<seq<Byte>>, tail: seq<Byte>)
    requires WithinCap(bodies) && Waiting(tail)
    ensures Drain(Stream(bodies) + tail) == Drained(bodies, tail, None)
    decreases |bodies|
  {
    if bodies == [] {
      assert Stream(bodies) + tail == tail;
    } else {
      hide Drain, Frame, Stream;
      StreamFront(bodies, tail);
      DrainEncoded(bodies[0], Stream(bodies[1..]) + tail);
      DecodeInvertsEncode(bodies[1..], tail);
      assert [bodies[0]] + bodies[1..] == bodies;
    }
  }

  /** Both together: any way the encoded stream is split, pushing it yields the messages and the tail. */
  lemma SplitStreamRoundTrip(bodies: seq<seq<Byte>>, tail: seq<Byte>, chunks: seq<seq<Byte>>)
    requires WithinCap(bodies) && Waiting(tail) && Joined(chunks) == Stream(bodies) + tail
    ensures PushAll([], chunks) == Drained(bodies, tail, None)
  {
    DecodeInvertsEncode(bodies, tail);
    AnySplitDeliversTheSame([], chunks);
    assert [] + Joined(chunks) == Joined(chunks);
  }

  /** The decoder gives an encoded message back exactly when it is within the cap. */
  lemma CapIsExact(body: seq<Byte>)
    requires EncodeMessage(body).Ok?
    ensures Drain(EncodeMessage(body).value) == Drained([body], [], None) <==> |body| <= 67_108_864
  {
    HeaderRoundTrip(|body|, body);
    if |body| <= MAX_MESSAGE_BYTES {
      assert Frame(body)[4..4 + |body|] == body && Frame(body)[4 + |body|..] == [];
    }
  }
}
