/** Authentication and startup as one blocking procedure, and the handling of
    each message that the operation of ScopedStartup.dfy shares with it. */
module Startup {
  import opened Protocol
  import opened SessionState
  import opened ClientSession
  import opened Framing
  import opened StartupDialogue
  import opened StartupAnswers

  datatype Stage = Idle | Continuing | Finalizing | Verified

  datatype Secrets = Secrets(password: seq<byte>, nonce: seq<byte>, bareFirst: seq<byte>, signature: Digest)

  const WIPED := Secrets([], [], [], [])

  /** What is remembered from one message to the next. */
  datatype Memory = Memory(stage: Stage, secrets: Secrets, accepted: bool)

  function Fresh(password: seq<byte>): Memory {
    Memory(Idle, Secrets(password, [], [], []), false)
  }

  function AuthOf(m: Memory): Auth {
    Auth(match m.stage
         case Idle => NoSasl
         case Continuing => AwaitingContinue
         case Finalizing => AwaitingFinal(m.secrets.signature)
         case Verified => FinalVerified,
         m.accepted)
  }

  /** The secrets still hold what later messages need of them. */
  predicate Remembers(c: Config, m: Memory) {
    && (m.stage == Idle || m.stage == Continuing ==> m.secrets.password == c.password)
    && (m.stage == Continuing ==> m.secrets.nonce == c.nonce && Some(m.secrets.bareFirst) == c.scram.bareFirst(c.user, c.nonce))
  }

  /** The process and secret a later cancel request names. */
  class Keys {
    var pid: nat
    var secret: seq<byte>

    function Value(): KeyData
      reads this
    {
      KeyData(pid, secret)
    }

    /** Takes a BackendKeyData message's contents, if they have a valid length. */
    method Take(contents: seq<byte>) returns (verdict: Verdict)
      modifies this
      ensures verdict == if 8 <= |contents| <= 260 then Continue else End(Violated)
      ensures Value() == if verdict == Continue then KeyData(Word(contents[..4]), contents[4..]) else old(Value())
    {
      if !(8 <= |contents| <= 260) {
        return End(Violated);
      }
      pid := Word(contents[..4]);
      secret := contents[4..];
      return Continue;
    }
  }

  lemma MechanismsNext(contents: seq<byte>)
    ensures match CString(contents)
            case None => Mechanisms(contents) == None
            case Some(name) =>
              var rest := contents[|name| + 1..];
              if name == [] then Mechanisms(contents) == if rest == [] then Some([]) else None
              else && (Mechanisms(contents).Some? <==> Mechanisms(rest).Some?)
                   && (Mechanisms(rest).Some? ==>
                         (MECHANISM in Mechanisms(contents).value <==> name == MECHANISM || MECHANISM in Mechanisms(rest).value))
  {
  }

  /** Whether a mechanism list names SCRAM-SHA-256; None if it is malformed. */
  method OffersScram(text: seq<byte>) returns (offered: Option<bool>)
    ensures offered == match Mechanisms(text)
                       case None => None
                       case Some(names) => Some(MECHANISM in names)
  {
    hide Mechanisms;
    MechanismsNext([]);
    var rest, seen, terminated := text, false, false;
    while rest != [] && !terminated
      invariant if terminated then
                  && (Mechanisms(text).Some? <==> rest == [])
                  && (rest == [] ==> (MECHANISM in Mechanisms(text).value <==> seen))
                else
                  && (Mechanisms(text).Some? <==> Mechanisms(rest).Some?)
                  && (Mechanisms(rest).Some? ==>
                        (MECHANISM in Mechanisms(text).value <==> seen || MECHANISM in Mechanisms(rest).value))
      decreases |rest|
    {
      MechanismsNext(rest);
      var name := CString(rest);
      match name
      case None => return None;
      case Some(text) =>
        if text == [] {
          terminated := true;
        } else if text == MECHANISM {
          seen := true;
        }
        rest := rest[|text| + 1..];
    }
    if !terminated || rest != [] {
      return None;
    }
    return Some(seen);
  }

  /** What the rest of a startup does, up to sending `prefix` first. */
  predicate Continues(whole: Dialogue, prefix: seq<byte>, rest: Dialogue) {
    whole.sent == prefix + rest.sent && whole.key == rest.key && whole.ending == rest.ending
  }

  /** One message of a dialogue: it ends it, or the rest follows its reply. */
  lemma ConverseNext(c: Config, a: Auth, key: KeyData, stream: seq<byte>, whole: Dialogue, prefix: seq<byte>)
    requires FirstFrame(stream).Frame? && Continues(whole, prefix, Converse(c, a, key, stream))
    ensures var f := FirstFrame(stream);
            var r := React(c, a, key, f.message);
            match r.verdict
            case End(ending) => whole == Dialogue(prefix + r.reply, r.key, ending)
            case Continue => Continues(whole, prefix + r.reply, Converse(c, r.auth, r.key, f.rest))
  {
    var f := FirstFrame(stream);
    var r := React(c, a, key, f.message);
    if r.verdict.Continue? {
      var more := Converse(c, r.auth, r.key, f.rest).sent;
      assert prefix + (r.reply + more) == (prefix + r.reply) + more;
    }
  }

  lemma ConverseStops(c: Config, a: Auth, key: KeyData, stream: seq<byte>, whole: Dialogue, prefix: seq<byte>)
    requires !FirstFrame(stream).Frame? && Continues(whole, prefix, Converse(c, a, key, stream))
    ensures whole == Dialogue(prefix, key, if FirstFrame(stream).BadLength? then Violated else Lost)
  {
  }

  // ---------------------------------------------------------------- blocking

  /** Sends a password message; one that cannot be made ends the startup. */
  method SendReply(channel: Channel, reply: Option<seq<byte>>) returns (verdict: Verdict)
    modifies channel`outgoing
    ensures verdict == if reply.Some? then Continue else End(Violated)
    ensures channel.outgoing == old(channel.outgoing) + if reply.Some? then reply.value else []
  {
    match reply
    case None => return End(Violated);
    case Some(bytes) =>
      channel.outgoing := channel.outgoing + bytes;
      return Continue;
  }

  method AnswerAuthentication(c: Config, channel: Channel, contents: seq<byte>, before: Memory, ghost key: KeyData)
    returns (memory: Memory, verdict: Verdict)
    requires Remembers(c, before)
    modifies channel`outgoing
    ensures var r := OnAuthentication(c, AuthOf(before), key, contents);
            && verdict == r.verdict && channel.outgoing == old(channel.outgoing) + r.reply
            && (verdict == Continue ==> AuthOf(memory) == r.auth && Remembers(c, memory))
    ensures var sent := channel.outgoing[|old(channel.outgoing)|..];
            sent != [] ==> IsAnswer(c, Message(82, contents), sent)
  {
    ghost var reply := OnAuthentication(c, AuthOf(before), key, contents).reply;
    if reply != [] {
      ReplyAnswers(c, AuthOf(before), key, Message(82, contents));
    }
    assert (channel.outgoing + reply)[|channel.outgoing|..] == reply;
    hide IsAnswer;
    memory, verdict := before, End(Violated);
    if |contents| < 4 {
      return;
    }
    var text := contents[4..];
    match Word(contents[..4]) {
      case 0 =>
        if memory.stage != Continuing && memory.stage != Finalizing {
          memory, verdict := memory.(accepted := true), Continue;
        }
      case 3 =>
        if memory.stage == Idle {
          verdict := SendReply(channel, ClearText(c.password));
        }
      case 10 =>
        if memory.stage == Idle {
          var offered := OffersScram(text);
          if offered == Some(false) {
            verdict := End(Unsupported);
          } else if offered == Some(true) {
            var bare := c.scram.bareFirst(c.user, c.nonce);
            if bare.Some? {
              memory := memory.(secrets := memory.secrets.(nonce := c.nonce, bareFirst := bare.value));
              verdict := SendReply(channel, SaslInitial(c.scram, c.user, memory.secrets.nonce));
              memory := memory.(stage := Continuing);
            }
          }
        }
      case 11 =>
        if memory.stage == Continuing {
          match c.scram.clientFinal(c.password, memory.secrets.bareFirst, text, memory.secrets.nonce) {
            case None =>
            case Some((final, expected)) =>
              memory := memory.(secrets := memory.secrets.(signature := expected));
              verdict := SendReply(channel, PasswordMessage(final));
              memory := memory.(stage := Finalizing);
          }
        }
      case 12 =>
        if memory.stage == Finalizing && c.scram.verifies(text, memory.secrets.signature) {
          memory := memory.(secrets := memory.secrets.(signature := []));
          memory, verdict := memory.(stage := Verified), Continue;
        }
      case _ => verdict := End(Unsupported);
    }
  }

  lemma AcceptedIsKept(m: Memory)
    ensures AuthOf(m).accepted == m.accepted
  {
  }

  /** One message of the blocking loop. */
  method AnswerMessage(c: Config, session: Session, keys: Keys, channel: Channel, m: Message, before: Memory)
    returns (memory: Memory, verdict: Verdict)
    requires Remembers(c, before)
    modifies session`currentState, keys, channel`outgoing
    ensures var r := React(c, AuthOf(before), old(keys.Value()), m);
            && verdict == r.verdict && channel.outgoing == old(channel.outgoing) + r.reply && keys.Value() == r.key
            && (verdict == Continue ==> AuthOf(memory) == r.auth)
    ensures verdict == Continue ==> Remembers(c, memory)
    ensures var sent := channel.outgoing[|old(channel.outgoing)|..]; sent != [] ==> IsAnswer(c, m, sent)
    ensures session.currentState == if verdict == End(Started) then Ready else old(session.currentState)
  {
    hide Remembers, AuthOf, IsAnswer;
    memory, verdict := before, Continue;
    AcceptedIsKept(before);
    if m.tag == TAG_AUTHENTICATION {
      memory, verdict := AnswerAuthentication(c, channel, m.payload, before, keys.Value());
    } else if m.tag == TAG_KEY_DATA {
      verdict := keys.Take(m.payload);
    } else if m.tag == TAG_ERROR {
      verdict := End(if c.decodes(m) then DatabaseFailed else Violated);
    } else if m.tag == TAG_NOTICE || m.tag == TAG_PARAMETER {
      verdict := if c.decodes(m) then Continue else End(Violated);
    } else if m.tag == TAG_READY {
      if !c.decodes(m) || !memory.accepted {
        verdict := End(Violated);
      } else {
        session.currentState := Ready;
        verdict := End(Started);
      }
    }
  }

  /** Answers the message just read; `prefix` is what was sent since `start`. */
  method AnswerInTurn(c: Config, session: Session, keys: Keys, channel: Channel, m: Message, before: Memory,
                      ghost stream: seq<byte>, ghost whole: Dialogue, ghost prefix: seq<byte>, ghost start: seq<byte>)
    returns (memory: Memory, verdict: Verdict, ghost newPrefix: seq<byte>)
    requires Remembers(c, before) && channel.outgoing == start + prefix
    requires FirstFrame(stream) == Frame(m, channel.incoming)
    requires Continues(whole, prefix, Converse(c, AuthOf(before), keys.Value(), stream))
    modifies session`currentState, keys, channel`outgoing
    ensures channel.outgoing == start + newPrefix
    ensures verdict.End? ==> whole == Dialogue(newPrefix, keys.Value(), verdict.ending)
    ensures verdict.Continue? ==>
              Remembers(c, memory)
              && Continues(whole, newPrefix, Converse(c, AuthOf(memory), keys.Value(), channel.incoming))
    ensures session.currentState == if verdict == End(Started) then Ready else old(session.currentState)
  {
    hide React, Converse, Remembers, AuthOf;
    ConverseNext(c, AuthOf(before), keys.Value(), stream, whole, prefix);
    ghost var r := React(c, AuthOf(before), keys.Value(), m);
    memory, verdict := AnswerMessage(c, session, keys, channel, m, before);
    newPrefix := prefix + r.reply;
    assert start + newPrefix == (start + prefix) + r.reply;
  }

  /** One turn of the blocking loop. */
  method ReadAndAnswer(c: Config, session: Session, keys: Keys, channel: Channel, before: Memory,
                       ghost whole: Dialogue, ghost prefix: seq<byte>, ghost start: seq<byte>)
    returns (memory: Memory, verdict: Verdict, ghost newPrefix: seq<byte>)
    requires Remembers(c, before) && channel.outgoing == start + prefix
    requires Continues(whole, prefix, Converse(c, AuthOf(before), keys.Value(), channel.incoming))
    modifies session`currentState, keys, channel
    ensures channel.outgoing == start + newPrefix
    ensures verdict.End? ==> whole == Dialogue(newPrefix, keys.Value(), verdict.ending)
    ensures verdict.Continue? ==>
              && Remembers(c, memory) && |channel.incoming| < |old(channel.incoming)|
              && Continues(whole, newPrefix, Converse(c, AuthOf(memory), keys.Value(), channel.incoming))
    ensures session.currentState == if verdict == End(Started) then Ready else old(session.currentState)
  {
    hide Remembers, AuthOf, Converse, Continues;
    ghost var stream := channel.incoming;
    var parsed := channel.ReadMessage();
    if !parsed.Frame? {
      ConverseStops(c, AuthOf(before), keys.Value(), stream, whole, prefix);
      memory, newPrefix := before, prefix;
      verdict := End(if parsed.BadLength? then Violated else Lost);
    } else {
      memory, verdict, newPrefix :=
        AnswerInTurn(c, session, keys, channel, parsed.message, before, stream, whole, prefix, start);
    }
  }

  /** The blocking startup: sends the request, then reads and answers messages
      until the server is ready or something fails. */
  method CompleteStartup(session: Session, keys: Keys, channel: Channel, c: Config) returns (ending: Ending)
    modifies session`currentState, keys, channel
    ensures old(session.currentState) !in {NotStarted, TLSNegotiated} ==>
              ending == Refused && channel.outgoing == old(channel.outgoing) && keys.Value() == old(keys.Value())
    ensures old(session.currentState) in {NotStarted, TLSNegotiated} ==>
              var d := Converse(c, FRESH, old(keys.Value()), old(channel.incoming));
              && channel.outgoing == old(channel.outgoing) + c.packet + d.sent
              && keys.Value() == d.key && ending == d.ending
    ensures session.currentState == if ending == Started then Ready else old(session.currentState)
  {
    if session.currentState !in {NotStarted, TLSNegotiated} {
      return Refused;
    }
    channel.outgoing := channel.outgoing + c.packet;
    var memory := Fresh(c.password);
    ghost var whole, start := Converse(c, FRESH, keys.Value(), channel.incoming), channel.outgoing;
    ghost var prefix := [];
    while true
      invariant Remembers(c, memory) && channel.outgoing == start + prefix
      invariant Continues(whole, prefix, Converse(c, AuthOf(memory), keys.Value(), channel.incoming))
      invariant session.currentState == old(session.currentState)
      decreases |channel.incoming|
    {
      var verdict;
      memory, verdict, prefix := ReadAndAnswer(c, session, keys, channel, memory, whole, prefix, start);
      if verdict.End? {
        return verdict.ending;
      }
    }
  }
}
