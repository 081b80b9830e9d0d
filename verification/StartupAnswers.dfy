/** What the replies of a startup hold, how a server that follows the protocol
    is answered, and what each ending says about the messages that led to it. */
module StartupAnswers {
  import opened Protocol
  import opened SessionState
  import opened Framing
  import opened StartupDialogue

  // ---------------------------------------------------------------- replies

  /** The answer to a cleartext request: the password, NUL-terminated. */
  predicate HoldsPassword(c: Config, payload: seq<byte>) {
    CString(payload) == Some(c.password) && |payload| == |c.password| + 1
  }

  /** The answer to a SASL request: "SCRAM-SHA-256", NUL-terminated, the length
      of the first SCRAM message, and that message. */
  predicate HoldsFirst(c: Config, payload: seq<byte>) {
    && CString(payload) == Some([83, 67, 82, 65, 77, 45, 83, 72, 65, 45, 50, 53, 54])
    && |payload| >= 18 && Word(payload[14..18]) == |payload| - 18
    && c.scram.clientFirst(c.user, c.nonce) == Some(payload[18..])
  }

  /** The answer to the server's first SCRAM message is the final one. */
  predicate HoldsFinal(c: Config, serverFirst: seq<byte>, payload: seq<byte>) {
    var bare := c.scram.bareFirst(c.user, c.nonce);
    && bare.Some?
    && var final := c.scram.clientFinal(c.password, bare.value, serverFirst, c.nonce);
       final.Some? && final.value.0 == payload
  }

  predicate Answers(c: Config, m: Message, payload: seq<byte>) {
    && m.tag == 82 && |m.payload| >= 4
    && var request := m.payload[..4];
       || (request == [0, 0, 0, 3] && HoldsPassword(c, payload))
       || (request == [0, 0, 0, 10] && HoldsFirst(c, payload))
       || (request == [0, 0, 0, 11] && HoldsFinal(c, m.payload[4..], payload))
  }

  /** The bytes are exactly one password message, and it answers the message. */
  predicate IsAnswer(c: Config, m: Message, bytes: seq<byte>) {
    match FirstFrame(bytes)
    case Frame(reply, rest) => rest == [] && reply.tag == 112 && Answers(c, m, reply.payload)
    case _ => false
  }

  /** Whatever is sent in reply to a message is that. */
  lemma ReplyAnswers(c: Config, a: Auth, key: KeyData, m: Message)
    requires React(c, a, key, m).reply != []
    ensures IsAnswer(c, m, React(c, a, key, m).reply)
  {
    hide CString, FirstFrame, HoldsFirst, HoldsPassword;
    WordIsInjective(m.payload[..4]);
    var request := Word(m.payload[..4]);
    assert WordBytes(3) == [0, 0, 0, 3] && WordBytes(10) == [0, 0, 0, 10] && WordBytes(11) == [0, 0, 0, 11];
    if request == 3 {
      PasswordIsHeld(c);
      SentAsFrame(c.password + [0]);
    } else if request == 10 {
      var initial := c.scram.clientFirst(c.user, c.nonce).value;
      FirstIsHeld(c, initial);
      SentAsFrame(MECHANISM + [0] + WordBytes(|initial|) + initial);
    } else {
      SentAsFrame(ClientFinal(c, m.payload[4..]).value.0);
    }
  }

  lemma SentAsFrame(payload: seq<byte>)
    requires PasswordMessage(payload).Some?
    ensures FirstFrame(PasswordMessage(payload).value) == Frame(Message(112, payload), [])
  {
    var m := Message(112, payload);
    EncodeRoundTrip(m, []);
    assert Encode(m) + [] == Encode(m);
  }

  lemma PasswordIsHeld(c: Config)
    requires 0 !in c.password
    ensures HoldsPassword(c, c.password + [0])
  {
    CStringOf(c.password, []);
    assert c.password + [0] + [] == c.password + [0];
  }

  lemma FirstIsHeld(c: Config, initial: seq<byte>)
    requires c.scram.clientFirst(c.user, c.nonce) == Some(initial) && |initial| < 0x1_0000_0000
    ensures HoldsFirst(c, MECHANISM + [0] + WordBytes(|initial|) + initial)
  {
    var payload := MECHANISM + [0] + WordBytes(|initial|) + initial;
    CStringOf(MECHANISM, WordBytes(|initial|) + initial);
    assert MECHANISM + [0] + (WordBytes(|initial|) + initial) == payload;
    assert payload[14..18] == WordBytes(|initial|);
    assert payload[18..] == initial;
    WordRoundTrip(|initial|);
  }

  // --------------------------------------------------- messages on the wire

  function Wire(ms: seq<Message>): seq<byte>
    requires forall m :: m in ms ==> Bounded(m)
  {
    if ms == [] then [] else Encode(ms[0]) + Wire(ms[1..])
  }

  /** Messages a startup passes over: notices and parameters that are well
      formed, and those it does not know. */
  predicate Quiet(c: Config, m: Message) {
    m.tag !in {82, 75, 69, 90} && (m.tag == 78 || m.tag == 83 ==> c.decodes(m))
  }

  function Loud(c: Config, ms: seq<Message>): (loud: seq<Message>)
    ensures forall m :: m in loud ==> m in ms
  {
    if ms == [] then [] else (if Quiet(c, ms[0]) then [] else [ms[0]]) + Loud(c, ms[1..])
  }

  lemma ConverseStep(c: Config, a: Auth, key: KeyData, m: Message, rest: seq<byte>)
    requires Bounded(m)
    ensures var r := React(c, a, key, m);
            var d := Converse(c, r.auth, r.key, rest);
            Converse(c, a, key, Encode(m) + rest) == match r.verdict
                                                     case End(ending) => Dialogue(r.reply, r.key, ending)
                                                     case Continue => d.(sent := r.reply + d.sent)
  {
    hide React;
    EncodeRoundTrip(m, rest);
  }

  lemma QuietStep(c: Config, a: Auth, key: KeyData, m: Message)
    requires Quiet(c, m)
    ensures React(c, a, key, m) == Reaction(a, key, [], Continue)
  {
  }

  /** They may come anywhere: leaving them out changes nothing. */
  lemma {:induction false} QuietIsPassedOver(c: Config, a: Auth, key: KeyData, ms: seq<Message>, rest: seq<byte>)
    requires forall m :: m in ms ==> Bounded(m)
    ensures Converse(c, a, key, Wire(ms) + rest) == Converse(c, a, key, Wire(Loud(c, ms)) + rest)
    decreases |ms|
  {
    hide React, Converse, Quiet, Bounded, Encode;
    if ms != [] {
      var m, tail, loud := ms[0], ms[1..], Loud(c, ms[1..]);
      assert forall x :: x in tail ==> x in ms;
      assert Encode(m) + Wire(tail) + rest == Encode(m) + (Wire(tail) + rest);
      ConverseStep(c, a, key, m, Wire(tail) + rest);
      var r := React(c, a, key, m);
      QuietIsPassedOver(c, r.auth, r.key, tail, rest);
      if Quiet(c, m) {
        QuietStep(c, a, key, m);
        var d := Converse(c, a, key, Wire(tail) + rest);
        assert [] + d.sent == d.sent;
        assert [] + loud == loud;
      } else {
        assert ([m] + loud)[1..] == loud;
        assert Encode(m) + Wire(loud) + rest == Encode(m) + (Wire(loud) + rest);
        ConverseStep(c, a, key, m, Wire(loud) + rest);
      }
    }
  }

  // ------------------------------------------------ servers that keep to it

  /** The messages that follow a successful authentication. */
  predicate Concludes(c: Config, ok: Message, keys: Message, ready: Message) {
    && ok == Message(82, [0, 0, 0, 0])
    && keys.tag == 75 && 8 <= |keys.payload| <= 260
    && ready.tag == 90 && c.decodes(ready) && Bounded(ready)
  }

  function KeysIn(keys: Message): KeyData
    requires |keys.payload| >= 4
  {
    KeyData(((keys.payload[0] as int * 256 + keys.payload[1]) * 256 + keys.payload[2]) * 256 + keys.payload[3],
            keys.payload[4..])
  }

  lemma Conclusion(c: Config, a: Auth, key: KeyData, ok: Message, keys: Message, ready: Message, rest: seq<byte>)
    requires Concludes(c, ok, keys, ready) && (a.phase == NoSasl || a.phase == FinalVerified)
    ensures Bounded(ok) && Bounded(keys)
    ensures Converse(c, a, key, Wire([ok, keys, ready]) + rest) == Dialogue([], KeysIn(keys), Started)
  {
    hide Converse;
    assert Word([0, 0, 0, 0]) == 0 && ok.payload[..4] == [0, 0, 0, 0];
    var accepted := a.(accepted := true);
    assert Wire([ok, keys, ready]) + rest == Encode(ok) + (Encode(keys) + (Encode(ready) + rest)) by {
      assert [ok, keys, ready][1..] == [keys, ready] && [keys, ready][1..] == [ready] && [ready][1..] == [];
      assert Wire([ready]) == Encode(ready) + [];
      assert Wire([keys, ready]) == Encode(keys) + Wire([ready]);
    }
    ConverseStep(c, a, key, ok, Encode(keys) + (Encode(ready) + rest));
    ConverseStep(c, accepted, key, keys, Encode(ready) + rest);
    ConverseStep(c, accepted, KeysIn(keys), ready, rest);
  }

  /** A server that trusts the client is sent nothing but the request. */
  lemma TrustingServer(c: Config, key: KeyData, ms: seq<Message>, ok: Message, keys: Message, ready: Message, rest: seq<byte>)
    requires (forall m :: m in ms ==> Bounded(m)) && Concludes(c, ok, keys, ready) && Loud(c, ms) == [ok, keys, ready]
    ensures Converse(c, FRESH, key, Wire(ms) + rest) == Dialogue([], KeysIn(keys), Started)
  {
    hide Converse, Loud, Wire;
    QuietIsPassedOver(c, FRESH, key, ms, rest);
    Conclusion(c, FRESH, key, ok, keys, ready, rest);
  }

  /** A server that asks for the password is sent it once. */
  lemma CleartextServer(c: Config, key: KeyData, ms: seq<Message>, ask: Message, ok: Message, keys: Message, ready: Message,
                        rest: seq<byte>)
    requires (forall m :: m in ms ==> Bounded(m)) && Concludes(c, ok, keys, ready)
    requires ask == Message(82, [0, 0, 0, 3]) && Loud(c, ms) == [ask, ok, keys, ready]
    requires 0 !in c.password && |c.password| + 5 <= 16 * 1024 * 1024
    ensures var d := Converse(c, FRESH, key, Wire(ms) + rest);
            && d.key == KeysIn(keys) && d.ending == Started
            && FirstFrame(d.sent) == Frame(Message(112, c.password + [0]), [])
  {
    hide Converse, Loud, Wire, Concludes, React;
    QuietIsPassedOver(c, FRESH, key, ms, rest);
    assert [ask] + [ok, keys, ready] == [ask, ok, keys, ready];
    WireFirst(ask, [ok, keys, ready], rest);
    ConverseStep(c, FRESH, key, ask, Wire([ok, keys, ready]) + rest);
    AsksPassword(c, key, ask);
    Conclusion(c, FRESH, key, ok, keys, ready, rest);
    var reply := React(c, FRESH, key, ask).reply;
    assert reply + [] == reply;
  }

  lemma WireFirst(m: Message, more: seq<Message>, rest: seq<byte>)
    requires Bounded(m) && forall x :: x in more ==> Bounded(x)
    ensures Wire([m] + more) + rest == Encode(m) + (Wire(more) + rest)
  {
    hide Encode, Bounded;
    assert ([m] + more)[1..] == more;
  }

  lemma AsksPassword(c: Config, key: KeyData, ask: Message)
    requires ask == Message(82, [0, 0, 0, 3]) && 0 !in c.password && |c.password| + 5 <= 16 * 1024 * 1024
    ensures var r := React(c, FRESH, key, ask);
            && r.auth == FRESH && r.key == key && r.verdict == Continue
            && FirstFrame(r.reply) == Frame(Message(112, c.password + [0]), [])
  {
    hide FirstFrame;
    assert Word([0, 0, 0, 3]) == 3 && ask.payload[..4] == [0, 0, 0, 3];
    SentAsFrame(c.password + [0]);
  }

  /** A SCRAM exchange: the server names its mechanisms, answers the client's
      first message and proves that it knows the password. */
  datatype Exchange = Exchange(names: seq<seq<byte>>, initial: seq<byte>, bare: seq<byte>, serverFirst: seq<byte>,
                               final: seq<byte>, expected: Digest, serverFinal: seq<byte>)

  predicate Exchanges(c: Config, x: Exchange) {
    && (forall name :: name in x.names ==> name != [] && 0 !in name)
    && [83, 67, 82, 65, 77, 45, 83, 72, 65, 45, 50, 53, 54] in x.names
    && c.scram.clientFirst(c.user, c.nonce) == Some(x.initial) && |x.initial| + 22 <= 16 * 1024 * 1024
    && c.scram.bareFirst(c.user, c.nonce) == Some(x.bare)
    && c.scram.clientFinal(c.password, x.bare, x.serverFirst, c.nonce) == Some((x.final, x.expected))
    && |x.final| + 4 <= 16 * 1024 * 1024
    && c.scram.verifies(x.serverFinal, x.expected)
  }

  function Requests(x: Exchange): seq<Message> {
    [Message(82, [0, 0, 0, 10] + EncodeMechanisms(x.names)),
     Message(82, [0, 0, 0, 11] + x.serverFirst),
     Message(82, [0, 0, 0, 12] + x.serverFinal)]
  }

  lemma AsksFirst(c: Config, key: KeyData, x: Exchange)
    requires Exchanges(c, x)
    ensures var r := React(c, FRESH, key, Requests(x)[0]);
            && r.auth == Auth(AwaitingContinue, false) && r.key == key && r.verdict == Continue
            && match FirstFrame(r.reply)
               case Frame(m, rest) => rest == [] && m.tag == 112 && HoldsFirst(c, m.payload)
               case _ => false
  {
    hide FirstFrame, HoldsFirst, Mechanisms, EncodeMechanisms, WordBytes;
    var text := EncodeMechanisms(x.names);
    assert ([0, 0, 0, 10] + text)[..4] == [0, 0, 0, 10] && ([0, 0, 0, 10] + text)[4..] == text;
    assert Word([0, 0, 0, 10]) == 10;
    MechanismsOfEncoding(x.names);
    FirstIsHeld(c, x.initial);
    SentAsFrame(MECHANISM + [0] + WordBytes(|x.initial|) + x.initial);
    assert React(c, FRESH, key, Requests(x)[0]) == OnSasl(c, FRESH, key, text);
  }

  lemma AsksFinal(c: Config, key: KeyData, x: Exchange)
    requires Exchanges(c, x)
    ensures var r := React(c, Auth(AwaitingContinue, false), key, Requests(x)[1]);
            && r.auth == Auth(AwaitingFinal(x.expected), false) && r.key == key && r.verdict == Continue
            && FirstFrame(r.reply) == Frame(Message(112, x.final), []) && r.reply == Encode(Message(112, x.final))
  {
    hide FirstFrame;
    assert ([0, 0, 0, 11] + x.serverFirst)[..4] == [0, 0, 0, 11] && ([0, 0, 0, 11] + x.serverFirst)[4..] == x.serverFirst;
    assert Word([0, 0, 0, 11]) == 11;
    SentAsFrame(x.final);
  }

  lemma ProvesItself(c: Config, key: KeyData, x: Exchange)
    requires Exchanges(c, x)
    ensures React(c, Auth(AwaitingFinal(x.expected), false), key, Requests(x)[2])
         == Reaction(Auth(FinalVerified, false), key, [], Continue)
  {
    assert ([0, 0, 0, 12] + x.serverFinal)[..4] == [0, 0, 0, 12] && ([0, 0, 0, 12] + x.serverFinal)[4..] == x.serverFinal;
    assert Word([0, 0, 0, 12]) == 12;
  }

  /** Such a server is sent the first and the final SCRAM message, and the
      startup succeeds. */
  lemma ScramServer(c: Config, key: KeyData, ms: seq<Message>, x: Exchange, ok: Message, keys: Message, ready: Message,
                    rest: seq<byte>)
    requires (forall m :: m in ms ==> Bounded(m)) && Concludes(c, ok, keys, ready)
    requires Exchanges(c, x) && Loud(c, ms) == Requests(x) + [ok, keys, ready]
    ensures var d := Converse(c, FRESH, key, Wire(ms) + rest);
            && d.key == KeysIn(keys) && d.ending == Started
            && match FirstFrame(d.sent)
               case Frame(m, more) =>
                 m.tag == 112 && HoldsFirst(c, m.payload) && FirstFrame(more) == Frame(Message(112, x.final), [])
               case _ => false
  {
    hide Converse, Loud, Wire, Concludes, React, Exchanges, HoldsFirst, FirstFrame, Bounded, Encode;
    var q, done := Requests(x), [ok, keys, ready];
    QuietIsPassedOver(c, FRESH, key, ms, rest);
    assert forall m :: m in q + done ==> Bounded(m);
    assert q[0] in q + done && q[1] in q + done && q[2] in q + done;
    assert forall m :: m in done ==> m in q + done;
    assert q + done == [q[0]] + ([q[1]] + ([q[2]] + done));
    WireFirst(q[0], [q[1]] + ([q[2]] + done), rest);
    WireFirst(q[1], [q[2]] + done, rest);
    WireFirst(q[2], done, rest);
    AsksFirst(c, key, x);
    AsksFinal(c, key, x);
    ProvesItself(c, key, x);
    var r, final := React(c, FRESH, key, q[0]).reply, React(c, Auth(AwaitingContinue, false), key, q[1]).reply;
    ConverseStep(c, FRESH, key, q[0], Wire([q[1]] + ([q[2]] + done)) + rest);
    ConverseStep(c, Auth(AwaitingContinue, false), key, q[1], Wire([q[2]] + done) + rest);
    ConverseStep(c, Auth(AwaitingFinal(x.expected), false), key, q[2], Wire(done) + rest);
    Conclusion(c, Auth(FinalVerified, false), key, ok, keys, ready, rest);
    assert final + ([] + []) == final;
    FirstFrameExtends(r, final);
    assert [] + final == final;
  }
}
