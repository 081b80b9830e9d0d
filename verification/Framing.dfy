/** Typed frames: one tag byte, a big-endian length that counts itself, and
    the payload. */
module Framing {
  import opened Protocol

  datatype Message = Message(tag: byte, payload: seq<byte>)

  datatype Parsed = Frame(message: Message, rest: seq<byte>) | BadLength | Incomplete

  function Word(b: seq<byte>): nat
    requires |b| == 4
  {
    ((b[0] as int * 256 + b[1]) * 256 + b[2]) * 256 + b[3]
  }

  function WordBytes(n: nat): (b: seq<byte>)
    requires n < 0x1_0000_0000
    ensures |b| == 4
  {
    [n / 0x100_0000, n / 0x1_0000 % 256, n / 256 % 256, n % 256]
  }

  predicate ValidTypedLength(length: nat) {
    4 <= length <= MAXIMUM_MESSAGE_SIZE
  }

  /** The messages a frame can carry. */
  predicate Bounded(m: Message) {
    ValidTypedLength(|m.payload| + 4)
  }

  function Encode(m: Message): seq<byte>
    requires Bounded(m)
  {
    [m.tag] + WordBytes(|m.payload| + 4) + m.payload
  }

  /** The first frame of a byte stream. */
  function FirstFrame(bytes: seq<byte>): (parsed: Parsed)
    ensures parsed.Frame? ==> |parsed.rest| < |bytes|
  {
    if |bytes| < 5 then Incomplete
    else
      var length := Word(bytes[1..5]);
      if !ValidTypedLength(length) then BadLength
      else if |bytes| < 1 + length then Incomplete
      else Frame(Message(bytes[0], bytes[5..1 + length]), bytes[1 + length..])
  }

  lemma WordRoundTrip(n: nat)
    requires n < 0x1_0000_0000
    ensures Word(WordBytes(n)) == n
  {
    assert n / 0x1_0000 == n / 0x100_0000 * 256 + n / 0x1_0000 % 256;
    assert n / 256 == n / 0x1_0000 * 256 + n / 256 % 256;
  }

  lemma WordIsInjective(b: seq<byte>)
    requires |b| == 4
    ensures Word(b) < 0x1_0000_0000 && WordBytes(Word(b)) == b
  {
    var n := Word(b);
    var high: int := b[0] as int * 256 + b[1];
    var upper: int := high * 256 + b[2];
    assert n == upper * 256 + b[3];
    assert n / 256 == upper && n % 256 == b[3];
    assert upper / 256 == high && upper % 256 == b[2];
    assert n / 0x1_0000 == high;
    assert high / 256 == b[0] && high % 256 == b[1];
    assert n / 0x100_0000 == b[0];
  }

  /** Decoding undoes encoding, whatever follows the frame. */
  lemma EncodeRoundTrip(m: Message, rest: seq<byte>)
    requires Bounded(m)
    ensures FirstFrame(Encode(m) + rest) == Frame(m, rest)
  {
    var bytes := Encode(m) + rest;
    assert bytes[1..5] == WordBytes(|m.payload| + 4);
    WordRoundTrip(|m.payload| + 4);
    assert bytes[5..5 + |m.payload|] == m.payload;
    assert bytes[5 + |m.payload|..] == rest;
  }

  /** And encoding undoes decoding: no two byte streams carry the same frame. */
  lemma DecodeRoundTrip(bytes: seq<byte>)
    requires FirstFrame(bytes).Frame?
    ensures Bounded(FirstFrame(bytes).message)
    ensures bytes == Encode(FirstFrame(bytes).message) + FirstFrame(bytes).rest
  {
    WordIsInjective(bytes[1..5]);
    var length := Word(bytes[1..5]);
    assert bytes == [bytes[0]] + bytes[1..5] + bytes[5..1 + length] + bytes[1 + length..];
  }

  /** What a beginning of the stream already decides the whole stream decides. */
  lemma FirstFrameExtends(bytes: seq<byte>, more: seq<byte>)
    ensures match FirstFrame(bytes)
            case Frame(m, rest) => FirstFrame(bytes + more) == Frame(m, rest + more)
            case BadLength => FirstFrame(bytes + more) == BadLength
            case Incomplete => true
  {
    if |bytes| >= 5 {
      assert (bytes + more)[1..5] == bytes[1..5];
      var length := Word(bytes[1..5]);
      if ValidTypedLength(length) && 1 + length <= |bytes| {
        assert (bytes + more)[5..1 + length] == bytes[5..1 + length];
        assert (bytes + more)[1 + length..] == bytes[1 + length..] + more;
      }
    }
  }

  /** Nothing short of a whole frame decides anything. */
  lemma ProperPrefixIsIncomplete(m: Message, bytes: seq<byte>)
    requires Bounded(m) && bytes < Encode(m)
    ensures FirstFrame(bytes) == Incomplete
  {
    if |bytes| >= 5 {
      assert bytes[1..5] == Encode(m)[1..5] == WordBytes(|m.payload| + 4);
      WordRoundTrip(|m.payload| + 4);
    }
  }

  /** The layout of a frame: its tag, the length of all that follows the tag in
      four bytes, the highest first, and the payload. */
  lemma FrameLayout(m: Message)
    requires |m.payload| + 4 <= 16 * 1024 * 1024
    ensures Bounded(m) && |Encode(m)| == |m.payload| + 5
    ensures Encode(m)[0] == m.tag && Encode(m)[5..] == m.payload
    ensures var b := Encode(m)[1..5];
            b[0] as int * 0x100_0000 + b[1] as int * 0x1_0000 + b[2] as int * 0x100 + b[3] as int == |m.payload| + 4
  {
    WordRoundTrip(|m.payload| + 4);
    assert Encode(m)[1..5] == WordBytes(|m.payload| + 4);
  }

  /** Which streams begin with a frame, and which never will. */
  lemma FrameDecision(bytes: seq<byte>)
    requires |bytes| >= 5
    ensures var length := bytes[1] as int * 0x100_0000 + bytes[2] as int * 0x1_0000 + bytes[3] as int * 0x100 + bytes[4] as int;
            && (FirstFrame(bytes).BadLength? <==> length < 4 || length > 16 * 1024 * 1024)
            && (FirstFrame(bytes).Frame? <==> 4 <= length <= 16 * 1024 * 1024 && length < |bytes|)
  {
    var b := bytes[1..5];
    assert b[0] == bytes[1] && b[1] == bytes[2] && b[2] == bytes[3] && b[3] == bytes[4];
  }

  // ------------------------------------------------------------- transport

  /** What the transport does with one immediate step: it moves some bytes,
      it cannot move any now, or it finds the peer gone. */
  datatype Offer = Deliver(most: nat) | Blocked | Closed

  datatype StepResult = MadeProgress | NeedWait | PeerClosed

  /** A connection: bytes that will still arrive and bytes already sent. */
  class Channel {
    var incoming: seq<byte>
    var outgoing: seq<byte>

    constructor (stream: seq<byte>)
      ensures incoming == stream && outgoing == []
    {
      incoming, outgoing := stream, [];
    }

    /** The bytes that a step for `wanted` bytes moves. */
    static function Moved(offer: Offer, wanted: nat, available: nat): nat {
      if offer.Deliver? && available > 0 && wanted > 0
      then if offer.most == 0 then 1 else if offer.most <= wanted && offer.most <= available then offer.most
           else if wanted <= available then wanted else available
      else 0
    }

    /** Fills `data` from `cursor` on with what has arrived. */
    method ReceiveStep(data: array<byte>, cursor: nat, offer: Offer) returns (next: nat, result: StepResult)
      requires cursor < data.Length
      modifies `incoming, data
      ensures var n := Moved(offer, data.Length - cursor, |old(incoming)|);
              && next == cursor + n
              && incoming == old(incoming)[n..] && data[..] == old(data[..cursor]) + old(incoming)[..n] + old(data[next..])
              && result == if offer.Closed? then PeerClosed else if n > 0 then MadeProgress else NeedWait
    {
      var n := Moved(offer, data.Length - cursor, |incoming|);
      forall i | 0 <= i < n { data[cursor + i] := incoming[i]; }
      incoming := incoming[n..];
      next := cursor + n;
      result := if offer.Closed? then PeerClosed else if n > 0 then MadeProgress else NeedWait;
    }

    /** Sends a beginning of `data` from `cursor` on; `data` is not empty there. */
    method SendStep(data: seq<byte>, cursor: nat, offer: Offer) returns (next: nat, result: StepResult)
      requires cursor < |data|
      modifies `outgoing
      ensures next == cursor + Moved(offer, |data| - cursor, |data| - cursor)
      ensures outgoing == old(outgoing) + data[cursor..next]
      ensures result == if offer.Closed? then PeerClosed else if next > cursor then MadeProgress else NeedWait
    {
      next := cursor + Moved(offer, |data| - cursor, |data| - cursor);
      outgoing := outgoing + data[cursor..next];
      result := if offer.Closed? then PeerClosed else if next > cursor then MadeProgress else NeedWait;
    }

    /** Waits for `count` bytes; fails when the stream ends before them. */
    method ReceiveExactly(count: nat) returns (data: array<byte>, ok: bool)
      modifies `incoming
      ensures fresh(data) && data.Length == count
      ensures ok <==> count <= |old(incoming)|
      ensures ok ==> data[..] == old(incoming)[..count] && incoming == old(incoming)[count..]
    {
      data := new byte[count](_ => 0);
      ok := count <= |incoming|;
      if ok {
        forall i | 0 <= i < count { data[i] := incoming[i]; }
        incoming := incoming[count..];
      }
    }

    /** The one-shot reader. */
    method ReadMessage() returns (parsed: Parsed)
      modifies `incoming
      ensures parsed == FirstFrame(old(incoming))
      ensures parsed.Frame? ==> incoming == parsed.rest
    {
      ghost var stream := incoming;
      var tag, gotTag := ReceiveExactly(1);
      if !gotTag {
        return Incomplete;
      }
      var header, gotHeader := ReceiveExactly(4);
      if !gotHeader {
        return Incomplete;
      }
      assert header[..] == stream[1..5];
      var length := Word(header[..]);
      if !ValidTypedLength(length) {
        return BadLength;
      }
      var contents, gotContents := ReceiveExactly(length - 4);
      if !gotContents {
        return Incomplete;
      }
      assert contents[..] == stream[5..1 + length];
      assert incoming == stream[1 + length..];
      parsed := Frame(Message(tag[0], contents[..]), incoming);
    }
  }
}
