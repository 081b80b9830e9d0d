/** The startup that is driven step by step, proved against the same dialogue
    as the blocking one. */
module ScopedStartup {
  import opened Protocol
  import opened SessionState
  import opened ClientSession
  import opened Framing
  import opened StartupDialogue
  import opened Startup
  import Transfer
  import TransferRuns

  class StartupOperation {
    const session: Session
    const keys: Keys
    const channel: Channel
    const user: seq<byte>
    const drawn: seq<byte>
    const scram: Scram
    const decodes: Message -> bool
    /** What the operation was started with; its password is kept nowhere else
        than in `memory`, which is wiped. */
    ghost const c: Config
    var memory: Memory
    var sending: bool
    var buffer: seq<byte>
    var cursor: nat
    var reader: Transfer.FrameReader
    var ending: Option<Ending>

    ghost predicate Valid()
      reads this, reader, reader.tag, reader.lengthData, reader.buffer
    {
      && c.user == user && c.nonce == drawn && c.scram == scram && c.decodes == decodes
      && reader.channel == channel && reader.Valid()
      && (ending.None? ==> Remembers(c, memory) && (sending ==> cursor < |buffer|))
      && (ending.Some? ==> memory.secrets == Secrets([], [], [], []))
    }

    /** Between steps the reader is never left with a whole message. */
    predicate Waits()
      reads this, reader
    {
      ending.None? ==> sending || reader.Reading()
    }

    ghost function Bytes(): set<object>
      reads this, reader
    {
      {reader, reader.tag, reader.lengthData, reader.buffer}
    }

    /** What is still to come. */
    ghost function Remaining(): Dialogue
      requires Valid()
      reads this, reader, reader.tag, reader.lengthData, reader.buffer, channel`incoming, keys
    {
      if ending.Some? then Dialogue([], keys.Value(), ending.value)
      else if sending then
        var d := Converse(c, AuthOf(memory), keys.Value(), channel.incoming);
        d.(sent := buffer[cursor..] + d.sent)
      else Converse(c, AuthOf(memory), keys.Value(), reader.Consumed() + channel.incoming)
    }

    /** The bytes still to move. */
    ghost function Left(): nat
      requires Valid()
      reads this, reader, reader.tag, reader.lengthData, reader.buffer, channel`incoming, keys
    {
      |Remaining().sent| + |channel.incoming|
    }

    constructor (client: Session, clientKeys: Keys, connection: Channel, config: Config)
      requires client.currentState in {NotStarted, TLSNegotiated} && config.packet != []
      ensures Valid() && Waits() && fresh(Bytes()) && ending.None? && c == config
      ensures session == client && keys == clientKeys && channel == connection
      ensures var d := Converse(config, FRESH, clientKeys.Value(), connection.incoming);
              Remaining() == d.(sent := config.packet + d.sent)
    {
      session, keys, channel := client, clientKeys, connection;
      user, drawn, scram, decodes, c := config.user, config.nonce, config.scram, config.decodes, config;
      memory, ending := Fresh(config.password), None;
      sending, buffer, cursor := true, config.packet, 0;
      reader := new Transfer.FrameReader(connection);
    }

    // ------------------------------------------------------------ a message

    /** Ends the operation and wipes what it knows. */
    method Finish(result: Ending)
      requires Valid()
      modifies this`memory, this`ending
      ensures Valid() && ending == Some(result)
    {
      memory, ending := memory.(secrets := WIPED), Some(result);
    }

    /** The reader starts on the next message. */
    method ReadNext()
      requires Valid()
      modifies this`sending, this`reader
      ensures Valid() && fresh(Bytes()) && !sending && reader.Consumed() == [] && reader.Reading()
    {
      reader := new Transfer.FrameReader(channel);
      sending := false;
    }

    /** The next bytes to move are those of a reply, if one can be made. */
    method Prepare(reply: Option<seq<byte>>)
      requires Valid() && ending.None? && (reply.Some? ==> reply.value != [])
      modifies this`sending, this`buffer, this`cursor, this`memory, this`ending
      ensures Valid()
      ensures reply.None? ==> ending == Some(Violated)
      ensures reply.Some? ==> ending.None? && memory == old(memory) && sending && buffer[cursor..] == reply.value
    {
      match reply
      case None => Finish(Violated);
      case Some(bytes) => sending, buffer, cursor := true, bytes, 0;
    }

    /** What processing a message leaves behind. */
    twostate predicate Processed(r: Reaction)
      requires Valid()
      reads this, reader, reader.tag, reader.lengthData, reader.buffer
    {
      match r.verdict
      case End(result) => ending == Some(result)
      case Continue =>
        && ending.None? && AuthOf(memory) == r.auth
        && if r.reply != [] then sending && buffer[cursor..] == r.reply else !sending && reader.Consumed() == [] && reader.Reading()
    }

    method AcceptOk(contents: seq<byte>, ghost key: KeyData)
      requires Valid() && ending.None? && |contents| >= 4 && Word(contents[..4]) == 0
      modifies this
      ensures Valid() && (Bytes() == old(Bytes()) || fresh(Bytes()))
      ensures Processed(OnAuthentication(c, AuthOf(old(memory)), key, contents))
    {
      if memory.stage == Continuing || memory.stage == Finalizing {
        Finish(Violated);
      } else {
        memory := memory.(accepted := true);
        ReadNext();
      }
    }

    method SendClearText(contents: seq<byte>, ghost key: KeyData)
      requires Valid() && ending.None? && |contents| >= 4 && Word(contents[..4]) == 3
      modifies this
      ensures Valid() && reader == old(reader)
      ensures Processed(OnAuthentication(c, AuthOf(old(memory)), key, contents))
    {
      if memory.stage != Idle {
        Finish(Violated);
      } else {
        Prepare(ClearText(memory.secrets.password));
      }
    }

    method BeginSasl(contents: seq<byte>, ghost key: KeyData)
      requires Valid() && ending.None? && |contents| >= 4 && Word(contents[..4]) == 10
      modifies this
      ensures Valid() && reader == old(reader)
      ensures Processed(OnAuthentication(c, AuthOf(old(memory)), key, contents))
    {
      if memory.stage != Idle {
        Finish(Violated);
        return;
      }
      var offered := OffersScram(contents[4..]);
      if offered == None {
        Finish(Violated);
      } else if offered == Some(false) {
        Finish(Unsupported);
      } else {
        var bare := scram.bareFirst(user, drawn);
        if bare == None {
          Finish(Violated);
        } else {
          memory := Memory(Continuing, memory.secrets.(nonce := drawn, bareFirst := bare.value), memory.accepted);
          Prepare(SaslInitial(scram, user, memory.secrets.nonce));
        }
      }
    }

    method ContinueSasl(contents: seq<byte>, ghost key: KeyData)
      requires Valid() && ending.None? && |contents| >= 4 && Word(contents[..4]) == 11
      modifies this
      ensures Valid() && reader == old(reader)
      ensures Processed(OnAuthentication(c, AuthOf(old(memory)), key, contents))
    {
      if memory.stage != Continuing {
        Finish(Violated);
        return;
      }
      var computed :=
        scram.clientFinal(memory.secrets.password, memory.secrets.bareFirst, contents[4..], memory.secrets.nonce);
      match computed
      case None => Finish(Violated);
      case Some((final, expected)) =>
        memory := Memory(Finalizing, memory.secrets.(signature := expected), memory.accepted);
        Prepare(PasswordMessage(final));
    }

    method VerifyFinal(contents: seq<byte>, ghost key: KeyData)
      requires Valid() && ending.None? && |contents| >= 4 && Word(contents[..4]) == 12
      modifies this
      ensures Valid() && (Bytes() == old(Bytes()) || fresh(Bytes()))
      ensures Processed(OnAuthentication(c, AuthOf(old(memory)), key, contents))
    {
      if memory.stage != Finalizing || !scram.verifies(contents[4..], memory.secrets.signature) {
        Finish(Violated);
      } else {
        memory := Memory(Verified, WIPED, memory.accepted);
        ReadNext();
      }
    }

    method ProcessAuthentication(contents: seq<byte>, ghost key: KeyData)
      requires Valid() && ending.None?
      modifies this
      ensures Valid() && (Bytes() == old(Bytes()) || fresh(Bytes()))
      ensures Processed(OnAuthentication(c, AuthOf(old(memory)), key, contents))
    {
      var request := if |contents| < 4 then -1 else Word(contents[..4]);
      match request {
        case 0 => AcceptOk(contents, key);
        case 3 => SendClearText(contents, key);
        case 10 => BeginSasl(contents, key);
        case 11 => ContinueSasl(contents, key);
        case 12 => VerifyFinal(contents, key);
        case _ => Finish(if request == -1 then Violated else Unsupported);
      }
    }

    method TakeKeys(m: Message)
      requires Valid() && ending.None? && m.tag == TAG_KEY_DATA
      modifies this, keys
      ensures Valid() && (Bytes() == old(Bytes()) || fresh(Bytes()))
      ensures var r := React(c, AuthOf(old(memory)), old(keys.Value()), m); Processed(r) && keys.Value() == r.key
      ensures ending != Some(Started)
    {
      var verdict := keys.Take(m.payload);
      if verdict.End? {
        Finish(Violated);
      } else {
        ReadNext();
      }
    }

    method ConcludeReady(m: Message)
      requires Valid() && ending.None? && m.tag == TAG_READY
      modifies this, session`currentState
      ensures Valid() && reader == old(reader)
      ensures Processed(React(c, AuthOf(old(memory)), keys.Value(), m))
      ensures session.currentState == if ending == Some(Started) then Ready else old(session.currentState)
    {
      if !decodes(m) || !memory.accepted {
        Finish(Violated);
      } else {
        session.currentState := Ready;
        Finish(Started);
      }
    }

    /** Every message that is neither a request, key data nor ReadyForQuery. */
    method ProcessOther(m: Message)
      requires Valid() && ending.None? && m.tag !in {TAG_AUTHENTICATION, TAG_KEY_DATA, TAG_READY}
      modifies this
      ensures Valid() && (Bytes() == old(Bytes()) || fresh(Bytes()))
      ensures Processed(React(c, AuthOf(old(memory)), keys.Value(), m)) && ending != Some(Started)
    {
      if m.tag == TAG_ERROR {
        Finish(if decodes(m) then DatabaseFailed else Violated);
      } else if m.tag in {TAG_NOTICE, TAG_PARAMETER} && !decodes(m) {
        Finish(Violated);
      } else {
        ReadNext();
      }
    }

    method ProcessMessage(m: Message)
      requires Valid() && ending.None?
      modifies this, session`currentState, keys
      ensures Valid() && (Bytes() == old(Bytes()) || fresh(Bytes()))
      ensures var r := React(c, AuthOf(old(memory)), old(keys.Value()), m); Processed(r) && keys.Value() == r.key
      ensures session.currentState == if ending == Some(Started) then Ready else old(session.currentState)
    {
      if m.tag == TAG_AUTHENTICATION {
        ProcessAuthentication(m.payload, keys.Value());
        NeverStarts(c, AuthOf(old(memory)), keys.Value(), m.payload);
      } else if m.tag == TAG_KEY_DATA {
        TakeKeys(m);
      } else if m.tag == TAG_READY {
        ConcludeReady(m);
      } else {
        ProcessOther(m);
      }
    }

    // --------------------------------------------------------------- a step

    /** A step moves bytes and changes nothing about where the startup leads. */
    twostate predicate Stepped(offer: Offer)
      requires old(Valid()) && Valid()
      reads this, reader, reader.tag, reader.lengthData, reader.buffer, channel, keys, session
    {
      && channel.outgoing + Remaining().sent == old(channel.outgoing + Remaining().sent)
      && Remaining().key == old(Remaining().key) && Remaining().ending == old(Remaining().ending)
      && Left() <= old(Left())
      && (offer.Deliver? ==> Left() < old(Left()) || old(Remaining().ending) == Lost)
    }

    /** The first `n` bytes of the buffer from the cursor on have left. */
    method Advance(n: nat)
      requires Valid() && ending.None? && sending && n <= |buffer| - cursor
      modifies this`cursor, this`sending, this`reader
      ensures Valid() && Waits() && (Bytes() == old(Bytes()) || fresh(Bytes()))
      ensures ending.None? && n <= |old(Remaining()).sent|
      ensures Remaining() == old(Remaining()).(sent := old(Remaining()).sent[n..])
      ensures old(Remaining()).sent[..n] == old(buffer[cursor..cursor + n])
    {
      ghost var d := Converse(c, AuthOf(memory), keys.Value(), channel.incoming);
      assert (buffer[cursor..] + d.sent)[n..] == buffer[cursor + n..] + d.sent;
      assert (buffer[cursor..] + d.sent)[..n] == buffer[cursor..cursor + n];
      if cursor + n < |buffer| {
        cursor := cursor + n;
      } else {
        assert buffer[cursor + n..] + d.sent == d.sent;
        ReadNext();
        assert reader.Consumed() + channel.incoming == channel.incoming;
      }
    }

    method DriveSend(offer: Offer)
      requires Valid() && ending.None? && sending
      modifies this, channel`outgoing
      ensures Valid() && Waits() && (Bytes() == old(Bytes()) || fresh(Bytes()))
      ensures if offer.Closed? then ending == Some(Lost) else ending.None? && Stepped(offer)
    {
      hide Converse, AuthOf, Remembers, FirstFrame, Channel.Moved;
      ghost var d := Remaining();
      MovedSome(offer, |buffer| - cursor);
      var next, result := channel.SendStep(buffer, cursor, offer);
      assert Remaining() == d;
      if result == PeerClosed {
        Finish(Lost);
      } else {
        var n := next - cursor;
        Advance(n);
        assert Remaining() == d.(sent := d.sent[n..]) && Left() == |d.sent| - n + |channel.incoming|;
        SentOn(old(channel.outgoing), d.sent, n);
      }
    }

    static lemma SentOn(outgoing: seq<byte>, sent: seq<byte>, n: nat)
      requires n <= |sent|
      ensures (outgoing + sent[..n]) + sent[n..] == outgoing + sent
    {
    }

    /** The reader holds a whole message. */
    method Receive()
      requires Valid() && ending.None? && !sending && !reader.Reading() && reader.phase.ReadingBody?
      modifies this, session`currentState, keys
      ensures Valid() && Waits() && (Bytes() == old(Bytes()) || fresh(Bytes()))
      ensures Remaining() == old(Remaining())
      ensures session.currentState == if ending == Some(Started) then Ready else old(session.currentState)
    {
      ghost var stream, a, key := reader.Consumed() + channel.incoming, AuthOf(memory), keys.Value();
      reader.ConsumedDecides();
      FirstFrameExtends(reader.Consumed(), channel.incoming);
      assert [] + channel.incoming == channel.incoming;
      ghost var m := Message(reader.tag[0], reader.buffer[..]);
      EndsSilently(c, a, key, m);
      ConverseOne(c, a, key, stream);
      ProcessMessage(Message(reader.tag[0], reader.buffer[..]));
    }

    /** The reader refused a length. */
    method Refuse()
      requires Valid() && ending.None? && !sending && !reader.Reading() && reader.phase.ReadingLength?
      modifies this`memory, this`ending
      ensures Valid() && ending == Some(Violated) && Remaining() == old(Remaining())
    {
      reader.ConsumedDecides();
      FirstFrameExtends(reader.Consumed(), channel.incoming);
      Finish(Violated);
    }

    method DriveReceive(offer: Offer)
      requires Valid() && Waits() && ending.None? && !sending
      modifies this, session`currentState, keys, channel`incoming, Bytes()
      ensures Valid() && Waits() && (forall o :: o in Bytes() ==> o in old(Bytes()) || fresh(o))
      ensures if offer.Closed? then ending == Some(Lost)
              else Remaining() == old(Remaining()) && |channel.incoming| <= |old(channel.incoming)|
      ensures offer.Deliver? ==> |channel.incoming| < |old(channel.incoming)| || old(Remaining().ending) == Lost
      ensures session.currentState == if ending == Some(Started) then Ready else old(session.currentState)
    {
      reader.ConsumedDecides();
      assert channel.incoming == [] ==> reader.Consumed() + channel.incoming == reader.Consumed();
      var advance := reader.Step(offer);
      assert Remaining() == old(Remaining());
      match advance
      case Reschedule | Arm =>
      case Disconnected => Finish(Lost);
      case InvalidLength => Refuse();
      case Complete => Receive();
    }

    method Drive(offer: Offer)
      requires Valid() && Waits() && ending.None?
      modifies this, session`currentState, keys, channel, Bytes()
      ensures Valid() && Waits() && (forall o :: o in Bytes() ==> o in old(Bytes()) || fresh(o))
      ensures if offer.Closed? then ending == Some(Lost) else Stepped(offer)
      ensures session.currentState == if ending == Some(Started) then Ready else old(session.currentState)
    {
      if sending {
        DriveSend(offer);
      } else {
        DriveReceive(offer);
      }
    }
  }

  lemma MovedSome(offer: Offer, wanted: nat)
    requires wanted > 0
    ensures Channel.Moved(offer, wanted, wanted) <= wanted && (offer.Deliver? ==> Channel.Moved(offer, wanted, wanted) > 0)
  {
  }

  /** Drives an operation while the schedule lasts. */
  method DriveAll(operation: StartupOperation, schedule: seq<Offer>)
    requires operation.Valid() && operation.Waits() && operation.ending.None? && TransferRuns.StaysOpen(schedule)
    modifies operation, operation.session`currentState, operation.keys, operation.channel, operation.Bytes()
    ensures operation.Valid()
    ensures var d := old(operation.Remaining());
            && operation.channel.outgoing + operation.Remaining().sent == old(operation.channel.outgoing) + d.sent
            && operation.Remaining().key == d.key && operation.Remaining().ending == d.ending
            && (TransferRuns.Delivers(schedule) > old(operation.Left()) && d.ending != Lost ==> operation.ending.Some?)
    ensures operation.session.currentState
         == if operation.ending == Some(Started) then Ready else old(operation.session.currentState)
  {
    var k := 0;
    ghost var d, left := operation.Remaining(), operation.Left();
    while k < |schedule| && operation.ending.None?
      invariant k <= |schedule| && operation.Valid() && operation.Waits()
      invariant forall o :: o in operation.Bytes() ==> o in old(operation.Bytes()) || fresh(o)
      invariant operation.channel.outgoing + operation.Remaining().sent == old(operation.channel.outgoing) + d.sent
      invariant operation.Remaining().key == d.key && operation.Remaining().ending == d.ending
      invariant operation.Left() + TransferRuns.Delivers(schedule) <= left + TransferRuns.Delivers(schedule[k..])
                || d.ending == Lost
      invariant operation.session.currentState
             == if operation.ending == Some(Started) then Ready else old(operation.session.currentState)
    {
      assert schedule[k..][1..] == schedule[k + 1..];
      operation.Drive(schedule[k]);
      k := k + 1;
    }
  }

  /** However the bytes of both directions are cut into steps, the startup
      sends what the blocking one sends, leaves the same key data, and ends as
      it does; it has ended once as many steps moved bytes as there are bytes
      to move, and by then it has forgotten its secrets. */
  method RunStartup(session: Session, keys: Keys, channel: Channel, c: Config, schedule: seq<Offer>)
    returns (ending: Option<Ending>)
    requires c.packet != [] && TransferRuns.StaysOpen(schedule)
    modifies session`currentState, keys, channel
    ensures old(session.currentState) !in {NotStarted, TLSNegotiated} ==>
              ending == Some(Refused) && channel.outgoing == old(channel.outgoing) && keys.Value() == old(keys.Value())
    ensures old(session.currentState) in {NotStarted, TLSNegotiated} ==>
              var d := Converse(c, FRESH, old(keys.Value()), old(channel.incoming));
              && (ending.Some? ==> channel.outgoing == old(channel.outgoing) + c.packet + d.sent
                                   && keys.Value() == d.key && ending == Some(d.ending))
              && (ending.None? ==> channel.outgoing <= old(channel.outgoing) + c.packet + d.sent)
              && (TransferRuns.Delivers(schedule) > |c.packet + d.sent| + |old(channel.incoming)| && d.ending != Lost
                  ==> ending.Some?)
    ensures session.currentState == if ending == Some(Started) then Ready else old(session.currentState)
  {
    if session.currentState !in {NotStarted, TLSNegotiated} {
      return Some(Refused);
    }
    hide Converse;
    ghost var start, sent := channel.outgoing, Converse(c, FRESH, keys.Value(), channel.incoming).sent;
    assert start + (c.packet + sent) == start + c.packet + sent;
    var operation := new StartupOperation(session, keys, channel, c);
    DriveAll(operation, schedule);
    assert channel.outgoing <= channel.outgoing + operation.Remaining().sent;
    assert channel.outgoing + [] == channel.outgoing;
    return operation.ending;
  }

  lemma EndsSilently(c: Config, a: Auth, key: KeyData, m: Message)
    ensures React(c, a, key, m).verdict.End? ==> React(c, a, key, m).reply == []
  {
  }

  lemma ConverseOne(c: Config, a: Auth, key: KeyData, stream: seq<byte>)
    requires FirstFrame(stream).Frame?
    ensures var f := FirstFrame(stream);
            var r := React(c, a, key, f.message);
            var d := Converse(c, r.auth, r.key, f.rest);
            Converse(c, a, key, stream) == match r.verdict
                                           case End(ending) => Dialogue(r.reply, r.key, ending)
                                           case Continue => d.(sent := r.reply + d.sent)
  {
  }

  lemma NeverStarts(c: Config, a: Auth, key: KeyData, contents: seq<byte>)
    ensures OnAuthentication(c, a, key, contents).verdict != End(Started)
    ensures OnAuthentication(c, a, key, contents).key == key
  {
  }
}
