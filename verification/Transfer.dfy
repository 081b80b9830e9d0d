/** The exchanges that are driven step by step as bytes arrive or leave, and
    the blocking calls they stand for. */
module Transfer {
  import opened Protocol
  import opened Framing
  import opened SessionState
  import opened SessionInvariant
  import opened ClientSession

  datatype Phase = ReadingTag | ReadingLength | ReadingBody

  /** How one step of a reader ends. */
  datatype Advance = Reschedule | Arm | Complete | InvalidLength | Disconnected

  /** Reads one frame into its three buffers, a step at a time. */
  class FrameReader {
    const channel: Channel
    const tag: array<byte>
    const lengthData: array<byte>
    var buffer: array<byte>
    var phase: Phase
    var cursor: nat

    constructor (connection: Channel)
      ensures Valid() && Reading() && Consumed() == [] && channel == connection
      ensures fresh(tag) && fresh(lengthData) && fresh(buffer)
    {
      channel, phase, cursor := connection, ReadingTag, 0;
      tag, lengthData, buffer := new byte[1](_ => 0), new byte[4](_ => 0), new byte[0](_ => 0);
    }

    ghost predicate Valid()
      reads this, tag, lengthData, buffer
    {
      && tag != lengthData && tag != buffer && lengthData != buffer
      && tag.Length == 1 && lengthData.Length == 4
      && match phase
         case ReadingTag => cursor == 0
         case ReadingLength => cursor <= 4 && (cursor == 4 ==> !ValidTypedLength(Word(lengthData[..])))
         case ReadingBody => cursor <= buffer.Length
                             && ValidTypedLength(Word(lengthData[..])) && buffer.Length == Word(lengthData[..]) - 4
    }

    /** Whether bytes are still wanted. */
    predicate Reading()
      reads this
    {
      match phase
      case ReadingTag => true
      case ReadingLength => cursor < 4
      case ReadingBody => cursor < buffer.Length
    }

    /** The bytes taken from the channel so far. */
    ghost function Consumed(): seq<byte>
      requires Valid()
      reads this, tag, lengthData, buffer
    {
      match phase
      case ReadingTag => []
      case ReadingLength => tag[..] + lengthData[..cursor]
      case ReadingBody => tag[..] + lengthData[..] + buffer[..cursor]
    }

    /** The bytes taken so far decide what the phase says they decide. */
    lemma ConsumedDecides()
      requires Valid()
      ensures Reading() ==> FirstFrame(Consumed()) == Incomplete
      ensures !Reading() && phase == ReadingLength ==> FirstFrame(Consumed()) == BadLength
      ensures !Reading() && phase == ReadingBody ==> FirstFrame(Consumed()) == Frame(Message(tag[0], buffer[..]), [])
    {
      if phase != ReadingTag && |Consumed()| >= 5 {
        assert Consumed()[1..5] == lengthData[..];
        if !Reading() && phase == ReadingBody {
          assert Consumed()[5..] == buffer[..];
        }
      }
    }

    /** What every step promises: at most what the current buffer still lacks
        is taken, and the stream of bytes as a whole is left as it was. */
    twostate predicate Stepped(offer: Offer, advance: Advance)
      requires old(Valid()) && Valid()
      reads this, tag, lengthData, buffer, channel
    {
      && Consumed() + channel.incoming == old(Consumed() + channel.incoming)
      && (if offer.Deliver? && old(channel.incoming) != [] then |channel.incoming| < |old(channel.incoming)|
          else channel.incoming == old(channel.incoming))
      && (Reading() <==> advance in {Reschedule, Arm, Disconnected})
      && (advance == Disconnected <==> offer.Closed?)
      && (advance == Complete ==> phase == ReadingBody)
      && (advance == InvalidLength ==> phase == ReadingLength)
    }

    method Step(offer: Offer) returns (advance: Advance)
      requires Valid() && Reading()
      modifies this, channel`incoming, tag, lengthData, buffer
      ensures Valid() && (buffer == old(buffer) || fresh(buffer)) && Stepped(offer, advance)
    {
      match phase
      case ReadingTag => advance := StepTag(offer);
      case ReadingLength => advance := StepLength(offer);
      case ReadingBody => advance := StepBody(offer);
    }

    method StepTag(offer: Offer) returns (advance: Advance)
      requires Valid() && phase == ReadingTag
      modifies this, channel`incoming, tag
      ensures Valid() && buffer == old(buffer) && Stepped(offer, advance)
    {
      var next, result := channel.ReceiveStep(tag, cursor, offer);
      match result
      case NeedWait => return Arm;
      case PeerClosed => return Disconnected;
      case MadeProgress =>
        phase, cursor := ReadingLength, 0;
        assert Consumed() == tag[..];
        return Reschedule;
    }

    method StepLength(offer: Offer) returns (advance: Advance)
      requires Valid() && phase == ReadingLength && Reading()
      modifies this, channel`incoming, lengthData
      ensures Valid() && (buffer == old(buffer) || fresh(buffer)) && Stepped(offer, advance)
    {
      ghost var front, stream := tag[..], channel.incoming;
      var next, result := channel.ReceiveStep(lengthData, cursor, offer);
      assert lengthData[..next] == old(lengthData[..cursor]) + old(channel.incoming)[..next - cursor];
      match result
      case NeedWait => return Arm;
      case PeerClosed => return Disconnected;
      case MadeProgress =>
        cursor := next;
        assert front + lengthData[..next] + channel.incoming == front + old(lengthData[..cursor]) + stream;
        assert lengthData[..4] == lengthData[..];
        if cursor == 4 {
          advance := StartBody();
        } else {
          advance := Reschedule;
        }
    }

    method StepBody(offer: Offer) returns (advance: Advance)
      requires Valid() && phase == ReadingBody && Reading()
      modifies this, channel`incoming, buffer
      ensures Valid() && buffer == old(buffer) && Stepped(offer, advance)
    {
      ghost var front, stream := tag[..] + lengthData[..], channel.incoming;
      var next, result := channel.ReceiveStep(buffer, cursor, offer);
      assert front + buffer[..next] + channel.incoming == front + old(buffer[..cursor]) + stream;
      assert buffer[..next] == old(buffer[..cursor]) + old(channel.incoming)[..next - cursor];
      match result
      case NeedWait => return Arm;
      case PeerClosed => return Disconnected;
      case MadeProgress =>
        cursor := next;
        advance := if cursor == buffer.Length then Complete else Reschedule;
    }

    /** The length is complete: refuse it, or make room for the body. */
    method StartBody() returns (advance: Advance)
      requires tag != lengthData && tag != buffer && lengthData != buffer
      requires tag.Length == 1 && lengthData.Length == 4 && phase == ReadingLength && cursor == 4
      modifies this
      ensures Valid() && (buffer == old(buffer) || fresh(buffer))
      ensures Consumed() == tag[..] + lengthData[..]
      ensures advance == if !ValidTypedLength(Word(lengthData[..])) then InvalidLength
                         else if Word(lengthData[..]) == 4 then Complete else Reschedule
      ensures phase == if advance == InvalidLength then ReadingLength else ReadingBody
      ensures Reading() <==> advance == Reschedule
    {
      var length := Word(lengthData[..]);
      assert lengthData[..4] == lengthData[..];
      if !ValidTypedLength(length) {
        return InvalidLength;
      }
      buffer := new byte[length - 4](_ => 0);
      phase, cursor := ReadingBody, 0;
      advance := if buffer.Length == 0 then Complete else Reschedule;
    }
  }

  // ---------------------------------------------------------------- receives

  datatype Kind = SimpleReceive | ExtendedReceive

  /** How a message's contents are decoded; it fails on malformed contents. */
  type Decoder = Message -> Option<Event>

  function CallFor(kind: Kind, e: Event): Call {
    match kind
    case SimpleReceive => ReceiveQuery(e)
    case ExtendedReceive => ReceiveExtended(e)
  }

  /** How a receive ends: with a message, refused to the caller, with the peer
      in violation of the protocol, or without the connection. */
  datatype Ending = Delivered(event: Event) | Refused | Violated | Lost

  function EndingOf(outcome: Outcome, e: Event): Ending {
    match outcome
    case Completed => Delivered(e)
    case ProgramError => Refused
    case ProtocolError => Violated
  }

  /** The effect of one receive on the session, and how it ends, when `stream`
      is all the peer will send. */
  function Received(decode: Decoder, kind: Kind, s: State, stream: seq<byte>): (State, Ending) {
    if !Permits(s, CallFor(kind, Unknown)) then (s, Refused)
    else match FirstFrame(stream)
      case Incomplete => (s, Lost)
      case BadLength => (s, Violated)
      case Frame(m, _) => Applied(decode, kind, s, m)
  }

  function Applied(decode: Decoder, kind: Kind, s: State, m: Message): (State, Ending) {
    match decode(m)
    case None => (s, Violated)
    case Some(e) => var f := Perform(s, CallFor(kind, e)); (f.next, EndingOf(f.outcome, e))
  }

  /** How a receive ends, told by the state, the bytes and the message: refused
      in a state in which nothing is to be read; else lost when no whole frame
      comes, and delivered when one comes, is well formed and is accepted. */
  lemma EndingIff(decode: Decoder, kind: Kind, s: State, stream: seq<byte>)
    requires Inv(s)
    ensures var (t, ending) := Received(decode, kind, s, stream);
            var f := FirstFrame(stream);
            var reading := if kind == SimpleReceive then s.state == SimpleQueryActive
                           else s.state == ExtendedQueryActive || s.state == AwaitingReady;
            && (ending == Refused <==> !reading)
            && (ending == Lost <==> reading && f == Incomplete)
            && (f.Frame? && decode(f.message).Some? && reading ==>
                  var e := decode(f.message).value;
                  var step := if kind == SimpleReceive then Perform(s, ReceiveQuery(e)) else Perform(s, ReceiveExtended(e));
                  t == step.next && ending == if step.outcome == Completed then Delivered(e) else Violated)
            && (!(f.Frame? && decode(f.message).Some? && reading) ==> t == s && !ending.Delivered?)
  {
    hide Inv, Perform;
    if FirstFrame(stream).Frame? && decode(FirstFrame(stream).message).Some? {
      CallKeepsInv(s, CallFor(kind, decode(FirstFrame(stream).message).value));
    }
  }

  /** What a receive leaves unread: everything when it is refused, and nothing
      of its frame but all that follows when there is one. After a refused
      length or a lost connection the stream is of no use. */
  function Unread(kind: Kind, s: State, stream: seq<byte>): Option<seq<byte>> {
    if !Permits(s, CallFor(kind, Unknown)) then Some(stream)
    else match FirstFrame(stream)
      case Frame(_, rest) => Some(rest)
      case _ => None
  }

  /** The blocking receive. */
  method ReceiveBlocking(session: Session, channel: Channel, decode: Decoder, kind: Kind) returns (ending: Ending)
    modifies session, channel`incoming
    ensures (session.Value(), ending) == Received(decode, kind, old(session.Value()), old(channel.incoming))
    ensures var left := Unread(kind, old(session.Value()), old(channel.incoming));
            left.Some? ==> channel.incoming == left.value
  {
    if (kind == SimpleReceive && session.currentState != SimpleQueryActive)
       || (kind == ExtendedReceive && session.currentState !in {ExtendedQueryActive, AwaitingReady}) {
      return Refused;
    }
    var parsed := channel.ReadMessage();
    match parsed
    case Incomplete => return Lost;
    case BadLength => return Violated;
    case Frame(m, _) => ending := ApplyMessage(session, decode, kind, session.pendingSyncs > 0, m);
  }

  /** Decodes a message and applies it; `syncPending` was read when the
      receive was started. */
  method ApplyMessage(session: Session, decode: Decoder, kind: Kind, syncPending: bool, m: Message)
    returns (ending: Ending)
    requires Permits(session.Value(), CallFor(kind, Unknown)) && syncPending == (session.pendingSyncs > 0)
    modifies session
    ensures (session.Value(), ending) == Applied(decode, kind, old(session.Value()), m)
  {
    var decoded := decode(m);
    match decoded
    case None => return Violated;
    case Some(e) =>
      var outcome;
      match kind
      case SimpleReceive => outcome := session.ApplyToQuery(e); ending := EndingOf(outcome, e);
      case ExtendedReceive => outcome := session.ApplyToBatch(e, syncPending); ending := EndingOf(outcome, e);
  }

  /** The receive that is driven step by step. It ends at its construction
      when the call is refused. */
  class ReceiveOperation {
    const session: Session
    const reader: FrameReader
    const kind: Kind
    const decode: Decoder
    const syncPending: bool
    var ending: Option<Ending>

    ghost predicate Valid()
      reads this, session, reader, reader.tag, reader.lengthData, reader.buffer
    {
      && reader.Valid()
      && (ending.None? ==> reader.Reading() && Permits(session.Value(), CallFor(kind, Unknown))
                           && syncPending == (session.pendingSyncs > 0))
    }

    /** All the peer sends from the receive's first byte on. */
    ghost function Stream(): seq<byte>
      requires reader.Valid()
      reads this, reader, reader.tag, reader.lengthData, reader.buffer, reader.channel
    {
      reader.Consumed() + reader.channel.incoming
    }

    /** The state of a receive started with the session in state `s` and
        `stream` to come, while the connection lasts. */
    ghost predicate Follows(s: State, stream: seq<byte>)
      requires reader.Valid()
      reads this, session, reader, reader.tag, reader.lengthData, reader.buffer, reader.channel
    {
      && Stream() == stream
      && (ending.None? ==> session.Value() == s && FirstFrame(reader.Consumed()) == Incomplete)
      && (ending.Some? ==>
            && (session.Value(), ending.value) == Received(decode, kind, s, stream)
            && (FirstFrame(stream).Frame? ==> reader.channel.incoming == FirstFrame(stream).rest))
    }

    constructor (client: Session, channel: Channel, receiveKind: Kind, decoder: Decoder)
      ensures Valid() && session == client && reader.channel == channel && kind == receiveKind && decode == decoder
      ensures fresh(reader) && fresh(reader.tag) && fresh(reader.lengthData) && fresh(reader.buffer)
      ensures Stream() == channel.incoming
      ensures ending == if Permits(client.Value(), CallFor(receiveKind, Unknown)) then None else Some(Refused)
    {
      session, kind, decode, syncPending := client, receiveKind, decoder, client.pendingSyncs > 0;
      reader := new FrameReader(channel);
      ending := if (receiveKind == SimpleReceive && client.currentState != SimpleQueryActive)
                   || (receiveKind == ExtendedReceive && client.currentState !in {ExtendedQueryActive, AwaitingReady})
                then Some(Refused) else None;
    }

    method Drive(offer: Offer)
      requires Valid() && ending.None?
      modifies this, session, reader, reader.channel`incoming, reader.tag, reader.lengthData, reader.buffer
      ensures Valid() && (reader.buffer == old(reader.buffer) || fresh(reader.buffer))
      ensures if offer.Deliver? && old(reader.channel.incoming) != []
              then |reader.channel.incoming| < |old(reader.channel.incoming)|
              else reader.channel.incoming == old(reader.channel.incoming)
      ensures !offer.Closed? ==> Follows(old(session.Value()), old(Stream()))
      ensures offer.Closed? ==> ending == Some(Lost) && session.Value() == old(session.Value())
    {
      hide Received, Permits, FirstFrame, Word, ValidTypedLength;
      var advance := reader.Step(offer);
      reader.ConsumedDecides();
      match advance
      case Reschedule | Arm =>
      case Disconnected => ending := Some(Lost);
      case InvalidLength | Complete => Conclude();
    }

    /** The frame's length was refused, or the frame is complete. */
    method Conclude()
      requires reader.Valid() && !reader.Reading() && ending.None?
      requires Permits(session.Value(), CallFor(kind, Unknown)) && syncPending == (session.pendingSyncs > 0)
      modifies `ending, session
      ensures ending.Some? && (session.Value(), ending.value) == Received(decode, kind, old(session.Value()), Stream())
      ensures FirstFrame(Stream()).Frame? ==> reader.channel.incoming == FirstFrame(Stream()).rest
    {
      reader.ConsumedDecides();
      FirstFrameExtends(reader.Consumed(), reader.channel.incoming);
      if reader.phase == ReadingLength {
        ending := Some(Violated);
      } else {
        assert [] + reader.channel.incoming == reader.channel.incoming;
        var end := ApplyMessage(session, decode, kind, syncPending, Message(reader.tag[0], reader.buffer[..]));
        ending := Some(end);
      }
    }
  }
}
