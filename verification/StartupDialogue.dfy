/** What the client answers to each startup message, and so to every stream of
    startup messages. The blocking procedure of Startup.dfy and the operation of
    ScopedStartup.dfy are both proved against it. */
module StartupDialogue {
  import opened Protocol
  import opened SessionState
  import opened Framing

  type Digest = seq<byte>

  /** The SCRAM calculations, which may fail: a client's first message, its
      first message without the header, its final message with the signature
      to expect from the server, and the check of that signature. */
  datatype Scram = Scram(
    clientFirst: (seq<byte>, seq<byte>) -> Option<seq<byte>>,
    bareFirst: (seq<byte>, seq<byte>) -> Option<seq<byte>>,
    clientFinal: (seq<byte>, seq<byte>, seq<byte>, seq<byte>) -> Option<(seq<byte>, Digest)>,
    verifies: (seq<byte>, Digest) -> bool)

  /** What a startup is given: `packet` is the encoded startup request, `nonce`
      the random value drawn for the connection, `decodes` whether a message's
      contents are well formed. */
  datatype Config = Config(
    user: seq<byte>, password: seq<byte>, packet: seq<byte>, nonce: seq<byte>,
    scram: Scram, decodes: Message -> bool)

  datatype SaslPhase = NoSasl | AwaitingContinue | AwaitingFinal(expected: Digest) | FinalVerified

  /** `accepted` records an AuthenticationOk. */
  datatype Auth = Auth(phase: SaslPhase, accepted: bool)

  datatype KeyData = KeyData(pid: nat, secret: seq<byte>)

  datatype Ending = Started | Refused | Violated | Unsupported | DatabaseFailed | Lost

  datatype Verdict = Continue | End(ending: Ending)

  datatype Reaction = Reaction(auth: Auth, key: KeyData, reply: seq<byte>, verdict: Verdict)

  /** "SCRAM-SHA-256" */
  const MECHANISM: seq<byte> := [83, 67, 82, 65, 77, 45, 83, 72, 65, 45, 50, 53, 54]

  const TAG_AUTHENTICATION: byte := 82   // R
  const TAG_KEY_DATA: byte := 75         // K
  const TAG_ERROR: byte := 69            // E
  const TAG_NOTICE: byte := 78           // N
  const TAG_PARAMETER: byte := 83        // S
  const TAG_READY: byte := 90            // Z
  const TAG_PASSWORD: byte := 112        // p

  // ------------------------------------------------------------ mechanisms

  /** The list of mechanism names in an AuthenticationSASL message, if it is
      one: NUL-terminated names, an empty name last, and nothing after it. */
  function Mechanisms(contents: seq<byte>): (names: Option<seq<seq<byte>>>)
    decreases |contents|
  {
    match CString(contents)
    case None => None
    case Some(name) =>
      var rest := contents[|name| + 1..];
      if name == [] then if rest == [] then Some([]) else None
      else match Mechanisms(rest)
           case None => None
           case Some(names) => Some([name] + names)
  }

  /** The bytes before the first NUL. */
  function CString(contents: seq<byte>): (name: Option<seq<byte>>)
    ensures name.Some? ==> |name.value| < |contents| && contents[..|name.value|] == name.value
                           && contents[|name.value|] == 0 && 0 !in name.value
    ensures name.None? ==> 0 !in contents
  {
    if contents == [] then None
    else if contents[0] == 0 then Some([])
    else match CString(contents[1..])
         case None => None
         case Some(name) => Some([contents[0]] + name)
  }

  function EncodeMechanisms(names: seq<seq<byte>>): seq<byte> {
    if names == [] then [0] else names[0] + [0] + EncodeMechanisms(names[1..])
  }

  /** Exactly the encodings of lists of proper names are accepted. */
  lemma {:induction false} MechanismsOfEncoding(names: seq<seq<byte>>)
    requires forall name :: name in names ==> name != [] && 0 !in name
    ensures Mechanisms(EncodeMechanisms(names)) == Some(names)
    decreases names
  {
    if names == [] {
      assert [0][1..] == [];
      assert CString([0]) == Some([]);
    } else {
      var name, rest := names[0], EncodeMechanisms(names[1..]);
      assert name in names;
      var contents := name + [0] + rest;
      CStringOf(name, rest);
      assert contents[|name| + 1..] == rest;
      MechanismsOfEncoding(names[1..]);
      assert [name] + names[1..] == names;
    }
  }

  lemma {:induction false} CStringOf(name: seq<byte>, rest: seq<byte>)
    requires 0 !in name
    ensures CString(name + [0] + rest) == Some(name)
    decreases name
  {
    var contents := name + [0] + rest;
    if name == [] {
      assert contents[0] == 0;
    } else {
      assert contents[0] == name[0] && name[0] in name;
      assert contents[1..] == name[1..] + [0] + rest;
      CStringOf(name[1..], rest);
      assert [name[0]] + name[1..] == name;
    }
  }

  lemma {:induction false} EncodingOfMechanisms(contents: seq<byte>)
    requires Mechanisms(contents).Some?
    ensures EncodeMechanisms(Mechanisms(contents).value) == contents
    decreases |contents|
  {
    var name := CString(contents).value;
    var rest := contents[|name| + 1..];
    assert contents == name + [0] + rest;
    if name != [] {
      EncodingOfMechanisms(rest);
    }
  }

  // ---------------------------------------------------------------- replies

  /** A password message; one too long for a frame cannot be made. */
  function PasswordMessage(payload: seq<byte>): (bytes: Option<seq<byte>>)
    ensures bytes.Some? ==> bytes.value != []
  {
    var m := Message(TAG_PASSWORD, payload);
    if Bounded(m) then Some(Encode(m)) else None
  }

  function ClearText(password: seq<byte>): Option<seq<byte>> {
    if 0 in password then None else PasswordMessage(password + [0])
  }

  function SaslInitial(scram: Scram, user: seq<byte>, nonce: seq<byte>): Option<seq<byte>> {
    match scram.clientFirst(user, nonce)
    case None => None
    case Some(initial) =>
      if |initial| >= 0x1_0000_0000 then None
      else PasswordMessage(MECHANISM + [0] + WordBytes(|initial|) + initial)
  }

  function Answer(a: Auth, key: KeyData, reply: Option<seq<byte>>): Reaction {
    match reply
    case None => Reaction(a, key, [], End(Violated))
    case Some(bytes) => Reaction(a, key, bytes, Continue)
  }

  function Failing(a: Auth, key: KeyData, ending: Ending): Reaction {
    Reaction(a, key, [], End(ending))
  }

  /** The first SCRAM message; the client remembers the bare form of it. */
  function FirstReply(c: Config): Option<seq<byte>> {
    if c.scram.bareFirst(c.user, c.nonce) == None then None else SaslInitial(c.scram, c.user, c.nonce)
  }

  function OnSasl(c: Config, a: Auth, key: KeyData, text: seq<byte>): Reaction {
    if a.phase != NoSasl then Failing(a, key, Violated)
    else match Mechanisms(text)
      case None => Failing(a, key, Violated)
      case Some(names) =>
        if MECHANISM !in names then Failing(a, key, Unsupported)
        else Answer(a.(phase := AwaitingContinue), key, FirstReply(c))
  }

  /** The final message, and the signature to expect, from the server's first. */
  function ClientFinal(c: Config, text: seq<byte>): Option<(seq<byte>, Digest)> {
    match c.scram.bareFirst(c.user, c.nonce)
    case None => None
    case Some(bare) => c.scram.clientFinal(c.password, bare, text, c.nonce)
  }

  function OnSaslContinue(c: Config, a: Auth, key: KeyData, text: seq<byte>): Reaction {
    if !a.phase.AwaitingContinue? then Failing(a, key, Violated)
    else match ClientFinal(c, text)
      case None => Failing(a, key, Violated)
      case Some((final, expected)) => Answer(a.(phase := AwaitingFinal(expected)), key, PasswordMessage(final))
  }

  function OnAuthentication(c: Config, a: Auth, key: KeyData, contents: seq<byte>): Reaction {
    if |contents| < 4 then Failing(a, key, Violated)
    else
      var method_, text := Word(contents[..4]), contents[4..];
      if method_ == 0 then
        if a.phase.AwaitingContinue? || a.phase.AwaitingFinal? then Failing(a, key, Violated)
        else Reaction(a.(accepted := true), key, [], Continue)
      else if method_ == 3 then
        if a.phase != NoSasl then Failing(a, key, Violated) else Answer(a, key, ClearText(c.password))
      else if method_ == 10 then OnSasl(c, a, key, text)
      else if method_ == 11 then OnSaslContinue(c, a, key, text)
      else if method_ == 12 then
        if !a.phase.AwaitingFinal? || !c.scram.verifies(text, a.phase.expected) then Failing(a, key, Violated)
        else Reaction(a.(phase := FinalVerified), key, [], Continue)
      else Failing(a, key, Unsupported)
  }

  function React(c: Config, a: Auth, key: KeyData, m: Message): Reaction {
    if m.tag == TAG_AUTHENTICATION then OnAuthentication(c, a, key, m.payload)
    else if m.tag == TAG_KEY_DATA then
      if 8 <= |m.payload| <= 260
      then Reaction(a, KeyData(Word(m.payload[..4]), m.payload[4..]), [], Continue)
      else Failing(a, key, Violated)
    else if m.tag == TAG_ERROR then Failing(a, key, if c.decodes(m) then DatabaseFailed else Violated)
    else if m.tag == TAG_NOTICE || m.tag == TAG_PARAMETER then
      if c.decodes(m) then Reaction(a, key, [], Continue) else Failing(a, key, Violated)
    else if m.tag == TAG_READY then
      Failing(a, key, if c.decodes(m) && a.accepted then Started else Violated)
    else Reaction(a, key, [], Continue)
  }

  // ----------------------------------------------------------- the dialogue

  /** Everything the client sends from some point on, the key data it is left
      with, and how the startup ends, when `stream` is all the server sends. */
  datatype Dialogue = Dialogue(sent: seq<byte>, key: KeyData, ending: Ending)

  function Converse(c: Config, a: Auth, key: KeyData, stream: seq<byte>): Dialogue
    decreases |stream|
  {
    match FirstFrame(stream)
    case Incomplete => Dialogue([], key, Lost)
    case BadLength => Dialogue([], key, Violated)
    case Frame(m, rest) =>
      var r := React(c, a, key, m);
      match r.verdict
      case End(ending) => Dialogue(r.reply, r.key, ending)
      case Continue => var d := Converse(c, r.auth, r.key, rest); d.(sent := r.reply + d.sent)
  }

  const FRESH := Auth(NoSasl, false)

  /** The messages handled, each with the phase it met. */
  function Trace(c: Config, a: Auth, key: KeyData, stream: seq<byte>): seq<(SaslPhase, Message)>
    decreases |stream|
  {
    match FirstFrame(stream)
    case Incomplete => []
    case BadLength => []
    case Frame(m, rest) =>
      var r := React(c, a, key, m);
      [(a.phase, m)] + if r.verdict.Continue? then Trace(c, r.auth, r.key, rest) else []
  }

  predicate IsRequest(m: Message, method_: nat) {
    m.tag == TAG_AUTHENTICATION && |m.payload| >= 4 && Word(m.payload[..4]) == method_
  }

  /** An AuthenticationOk, and the phase it met. */
  predicate AcceptedAt(trace: seq<(SaslPhase, Message)>, i: nat) {
    i < |trace| && IsRequest(trace[i].1, 0) && (trace[i].0 == NoSasl || trace[i].0 == FinalVerified)
  }

  /** Nothing is accepted but by an AuthenticationOk outside an exchange. */
  lemma AcceptedBy(c: Config, a: Auth, key: KeyData, m: Message)
    requires !a.accepted
    ensures React(c, a, key, m).verdict != End(Started)
    ensures React(c, a, key, m).auth.accepted ==> IsRequest(m, 0) && (a.phase == NoSasl || a.phase == FinalVerified)
  {
  }

  /** A startup that ends ready has accepted an AuthenticationOk, and not in
      the middle of a SCRAM exchange. */
  lemma {:induction false} ReadyWasAccepted(c: Config, a: Auth, key: KeyData, stream: seq<byte>) returns (i: nat)
    requires Converse(c, a, key, stream).ending == Started && !a.accepted
    ensures AcceptedAt(Trace(c, a, key, stream), i)
    decreases |stream|
  {
    hide React, IsRequest, FirstFrame;
    var f := FirstFrame(stream);
    var r := React(c, a, key, f.message);
    AcceptedBy(c, a, key, f.message);
    if r.auth.accepted {
      i := 0;
    } else {
      i := ReadyWasAccepted(c, r.auth, r.key, f.rest);
      i := i + 1;
    }
  }

  /** The server's final message was checked against the signature that the
      client computed from the server's first message. */
  predicate VerifiedBefore(c: Config, trace: seq<(SaslPhase, Message)>, i: nat) {
    exists k, j {:trigger Computed(c, trace[k], trace[j])} :: 0 <= k < j < i <= |trace| && Computed(c, trace[k], trace[j])
  }

  predicate Computed(c: Config, first: (SaslPhase, Message), last: (SaslPhase, Message)) {
    && first.0 == AwaitingContinue && IsRequest(first.1, 11) && last.0.AwaitingFinal? && IsRequest(last.1, 12)
    && (var final := ClientFinal(c, first.1.payload[4..]);
        final.Some? && final.value.1 == last.0.expected && c.scram.verifies(last.1.payload[4..], last.0.expected))
  }

  /** What has been seen by the time each phase is reached. */
  ghost predicate Earned(c: Config, past: seq<(SaslPhase, Message)>, phase: SaslPhase) {
    match phase
    case NoSasl => true
    case AwaitingContinue => true
    case AwaitingFinal(expected) =>
      exists k :: 0 <= k < |past| && past[k].0 == AwaitingContinue && IsRequest(past[k].1, 11)
             && ComputedFrom(c, past[k].1, expected)
    case FinalVerified => VerifiedBefore(c, past, |past|)
  }

  predicate ComputedFrom(c: Config, first: Message, expected: Digest)
    requires IsRequest(first, 11)
  {
    var final := ClientFinal(c, first.payload[4..]);
    final.Some? && final.value.1 == expected
  }

  /** So a phase of FinalVerified anywhere in a startup means that. */
  lemma {:induction false} FinalVerifiedIsEarned(c: Config, a: Auth, key: KeyData, stream: seq<byte>,
                                                 past: seq<(SaslPhase, Message)>, i: nat)
    requires Earned(c, past, a.phase)
    requires i < |Trace(c, a, key, stream)| && Trace(c, a, key, stream)[i].0 == FinalVerified
    ensures VerifiedBefore(c, past + Trace(c, a, key, stream), |past| + i)
    decreases |stream|
  {
    hide React, FirstFrame, Computed;
    TraceFirst(c, a, key, stream);
    if i == 0 {
      Widen(c, past, Trace(c, a, key, stream), |past|);
    } else {
      var f := FirstFrame(stream);
      var r := React(c, a, key, f.message);
      var step, more := [(a.phase, f.message)], Trace(c, r.auth, r.key, f.rest);
      assert (step + more)[i] == more[i - 1];
      assert past + (step + more) == (past + step) + more;
      EarnNext(c, a, key, f.message, past);
      FinalVerifiedIsEarned(c, r.auth, r.key, f.rest, past + step, i - 1);
    }
  }

  lemma TraceFirst(c: Config, a: Auth, key: KeyData, stream: seq<byte>)
    requires Trace(c, a, key, stream) != []
    ensures FirstFrame(stream).Frame?
    ensures var f := FirstFrame(stream);
            var r := React(c, a, key, f.message);
            var more := Trace(c, r.auth, r.key, f.rest);
            && Trace(c, a, key, stream)[0] == (a.phase, f.message)
            && (|Trace(c, a, key, stream)| > 1 ==>
                  r.verdict == Continue && Trace(c, a, key, stream) == [(a.phase, f.message)] + more)
  {
  }

  lemma Widen(c: Config, past: seq<(SaslPhase, Message)>, more: seq<(SaslPhase, Message)>, i: nat)
    requires VerifiedBefore(c, past, i)
    ensures VerifiedBefore(c, past + more, i)
  {
    var k, j :| 0 <= k < j < i <= |past| && Computed(c, past[k], past[j]);
    assert (past + more)[k] == past[k] && (past + more)[j] == past[j];
  }

  lemma EarnNext(c: Config, a: Auth, key: KeyData, m: Message, past: seq<(SaslPhase, Message)>)
    requires Earned(c, past, a.phase) && React(c, a, key, m).verdict == Continue
    ensures Earned(c, past + [(a.phase, m)], React(c, a, key, m).auth.phase)
  {
    var now, phase := past + [(a.phase, m)], React(c, a, key, m).auth.phase;
    match phase
    case NoSasl =>
    case AwaitingContinue =>
    case AwaitingFinal(expected) =>
      if a.phase == phase {
        var k :| 0 <= k < |past| && past[k].0 == AwaitingContinue && IsRequest(past[k].1, 11)
                 && ComputedFrom(c, past[k].1, expected);
        assert now[k] == past[k];
      } else {
        assert now[|past|] == (a.phase, m);
      }
    case FinalVerified =>
      if a.phase == FinalVerified {
        Widen(c, past, [(a.phase, m)], |past|);
        var k, j :| 0 <= k < j < |past| && Computed(c, now[k], now[j]);
      } else {
        var k :| 0 <= k < |past| && past[k].0 == AwaitingContinue && IsRequest(past[k].1, 11)
                 && ComputedFrom(c, past[k].1, a.phase.expected);
        assert now[k] == past[k] && now[|past|] == (a.phase, m);
        assert Computed(c, now[k], now[|past|]);
      }
  }

  /** Reaching ready: AuthenticationOk came before any SCRAM exchange began,
      or after one in which the server proved that it knows the password. */
  lemma {:induction false} ReadyIsAuthentic(c: Config, key: KeyData, stream: seq<byte>) returns (i: nat)
    requires Converse(c, FRESH, key, stream).ending == Started
    ensures var trace := Trace(c, FRESH, key, stream);
            AcceptedAt(trace, i) && (trace[i].0 == NoSasl || VerifiedBefore(c, trace, i))
  {
    i := ReadyWasAccepted(c, FRESH, key, stream);
    var trace := Trace(c, FRESH, key, stream);
    if trace[i].0 == FinalVerified {
      FinalVerifiedIsEarned(c, FRESH, key, stream, [], i);
      assert [] + trace == trace;
    }
  }
}
