/** What the ending of a startup says about the messages that were handled, and
    which key data it leaves behind. */
module StartupEndings {
  import opened Protocol
  import opened SessionState
  import opened Framing
  import opened StartupDialogue
  import opened StartupAnswers

  type Handled = (SaslPhase, Message)

  function Last(t: seq<Handled>): Handled
    requires t != []
  {
    t[|t| - 1]
  }

  /** The bytes of the frames handled. */
  function Length(t: seq<Handled>): nat {
    if t == [] then 0 else 5 + |t[0].1.payload| + Length(t[1..])
  }

  predicate EndsInError(c: Config, t: seq<Handled>) {
    t != [] && Last(t).1.tag == 69 && c.decodes(Last(t).1)
  }

  /** A request the client does not know, or mechanisms without SCRAM-SHA-256. */
  predicate EndsUnsupported(t: seq<Handled>) {
    && t != [] && var m := Last(t).1;
    && m.tag == 82 && |m.payload| >= 4
    && var request := m.payload[..4];
       || request !in {[0, 0, 0, 0], [0, 0, 0, 3], [0, 0, 0, 10], [0, 0, 0, 11], [0, 0, 0, 12]}
       || (request == [0, 0, 0, 10] && Last(t).0 == NoSasl
           && match Mechanisms(m.payload[4..])
              case None => false
              case Some(names) => [83, 67, 82, 65, 77, 45, 83, 72, 65, 45, 50, 53, 54] !in names)
  }

  predicate AcceptsAt(t: seq<Handled>, i: nat) {
    i < |t| && t[i].1.tag == 82 && |t[i].1.payload| >= 4 && t[i].1.payload[..4] == [0, 0, 0, 0]
  }

  /** A well-formed ReadyForQuery after an AuthenticationOk. */
  predicate EndsReady(c: Config, accepted: bool, t: seq<Handled>) {
    && t != [] && Last(t).1.tag == 90 && c.decodes(Last(t).1)
    && (accepted || exists i :: 0 <= i < |t| && AcceptsAt(t, i))
  }

  /** The key data last announced. */
  function LastKeys(key: KeyData, t: seq<Handled>): KeyData
    decreases |t|
  {
    if t == [] then key
    else LastKeys(if t[0].1.tag == 75 && 8 <= |t[0].1.payload| <= 260 then KeysIn(t[0].1) else key, t[1..])
  }

  /** What the ending and the key data of the rest of a startup say. */
  predicate Explains(c: Config, accepted: bool, key: KeyData, stream: seq<byte>, t: seq<Handled>, d: Dialogue) {
    && (d.ending == DatabaseFailed <==> EndsInError(c, t))
    && (d.ending == Unsupported <==> EndsUnsupported(t))
    && (d.ending == Started <==> EndsReady(c, accepted, t))
    && d.ending != Refused && d.key == LastKeys(key, t)
    && Length(t) <= |stream| && (d.ending == Lost ==> FirstFrame(stream[Length(t)..]) == Incomplete)
  }

  lemma NothingHandled(c: Config, a: Auth, key: KeyData, stream: seq<byte>)
    requires !FirstFrame(stream).Frame?
    ensures Trace(c, a, key, stream) == []
    ensures Explains(c, a.accepted, key, stream, [], Converse(c, a, key, stream)) == true
  {
    hide FirstFrame;
    assert stream[0..] == stream;
  }

  lemma RequestBytes(m: Message)
    requires |m.payload| >= 4
    ensures var request := m.payload[..4];
            && (request == [0, 0, 0, 0] <==> Word(request) == 0) && (request == [0, 0, 0, 3] <==> Word(request) == 3)
            && (request == [0, 0, 0, 10] <==> Word(request) == 10) && (request == [0, 0, 0, 11] <==> Word(request) == 11)
            && (request == [0, 0, 0, 12] <==> Word(request) == 12)
  {
    WordIsInjective(m.payload[..4]);
  }

  /** One message: whether it ends the startup, and how. */
  lemma OneHandled(c: Config, a: Auth, key: KeyData, m: Message)
    ensures var r, t := React(c, a, key, m), [(a.phase, m)];
            && (r.verdict == End(DatabaseFailed) <==> EndsInError(c, t))
            && (r.verdict == End(Unsupported) <==> EndsUnsupported(t))
            && r.verdict != End(Refused) && r.verdict != End(Lost)
            && (r.verdict == End(Started) <==> m.tag == 90 && c.decodes(m) && a.accepted)
            && (r.verdict == Continue ==> (r.auth.accepted <==> a.accepted || AcceptsAt(t, 0)))
            && (m.tag == 90 ==> r.verdict.End?)
            && r.key == LastKeys(key, t)
  {
    hide Mechanisms, FirstReply, ClientFinal, ClearText, PasswordMessage;
    assert [(a.phase, m)][1..] == [];
    if |m.payload| >= 4 { RequestBytes(m); }
  }

  lemma AcceptsLater(first: Handled, more: seq<Handled>)
    ensures (exists i :: 0 <= i < |[first] + more| && AcceptsAt([first] + more, i))
       <==> AcceptsAt([first], 0) || exists i :: 0 <= i < |more| && AcceptsAt(more, i)
  {
    var t := [first] + more;
    if i :| 0 <= i < |t| && AcceptsAt(t, i) {
      if i > 0 { assert AcceptsAt(more, i - 1); }
    }
    if AcceptsAt([first], 0) { assert AcceptsAt(t, 0); }
    if i :| 0 <= i < |more| && AcceptsAt(more, i) { assert AcceptsAt(t, i + 1); }
  }

  lemma HandledLast(c: Config, a: Auth, key: KeyData, stream: seq<byte>)
    requires FirstFrame(stream).Frame? && React(c, a, key, FirstFrame(stream).message).verdict.End?
    ensures Explains(c, a.accepted, key, stream, Trace(c, a, key, stream), Converse(c, a, key, stream)) == true
  {
    hide React, FirstFrame, EndsUnsupported;
    var m := FirstFrame(stream).message;
    var t := [(a.phase, m)];
    FrameLength(stream);
    OneHandled(c, a, key, m);
    assert Trace(c, a, key, stream) == t && t[1..] == [];
    assert m.tag == 90 ==> forall i :: 0 <= i < |t| ==> !AcceptsAt(t, i);
    assert EndsReady(c, a.accepted, t) <==> m.tag == 90 && c.decodes(m) && a.accepted;
    assert Length(t) == 5 + |m.payload|;
  }

  lemma HandledFirst(c: Config, a: Auth, key: KeyData, stream: seq<byte>)
    requires FirstFrame(stream).Frame? && React(c, a, key, FirstFrame(stream).message).verdict == Continue
    requires var r, rest := React(c, a, key, FirstFrame(stream).message), FirstFrame(stream).rest;
             Explains(c, r.auth.accepted, r.key, rest, Trace(c, r.auth, r.key, rest), Converse(c, r.auth, r.key, rest))
    ensures Explains(c, a.accepted, key, stream, Trace(c, a, key, stream), Converse(c, a, key, stream)) == true
  {
    hide React, FirstFrame, EndsUnsupported, AcceptsAt;
    var m, rest := FirstFrame(stream).message, FirstFrame(stream).rest;
    var r, first := React(c, a, key, m), [(a.phase, m)];
    var more := Trace(c, r.auth, r.key, rest);
    FrameLength(stream);
    OneHandled(c, a, key, m);
    assert Trace(c, a, key, stream) == first + more;
    assert (first + more)[1..] == more && first[1..] == [];
    LastOf(first[0], more);
    AcceptsLater(first[0], more);
    assert stream[5 + |m.payload|..][Length(more)..] == stream[5 + |m.payload| + Length(more)..];
  }

  /** How a startup ends and the key data it leaves, from the messages handled:
      DatabaseFailed after a well-formed error and only then; Unsupported after
      a request or a mechanism list the client does not support; Started after
      a well-formed ReadyForQuery that followed an AuthenticationOk; Lost when
      the rest of the stream holds no further frame. */
  lemma {:induction false} EndingIsExplained(c: Config, a: Auth, key: KeyData, stream: seq<byte>)
    ensures Explains(c, a.accepted, key, stream, Trace(c, a, key, stream), Converse(c, a, key, stream)) == true
    decreases |stream|
  {
    hide React, FirstFrame, Explains, Trace, Converse;
    match FirstFrame(stream)
    case Incomplete => NothingHandled(c, a, key, stream);
    case BadLength => NothingHandled(c, a, key, stream);
    case Frame(m, rest) =>
      var r := React(c, a, key, m);
      if r.verdict.Continue? {
        EndingIsExplained(c, r.auth, r.key, rest);
        HandledFirst(c, a, key, stream);
      } else {
        HandledLast(c, a, key, stream);
      }
  }

  lemma FrameLength(stream: seq<byte>)
    requires FirstFrame(stream).Frame?
    ensures var f := FirstFrame(stream);
            5 + |f.message.payload| <= |stream| && f.rest == stream[5 + |f.message.payload|..]
  {
  }

  lemma LastOf(first: Handled, more: seq<Handled>)
    ensures Last([first] + more) == if more == [] then first else Last(more)
    ensures more != [] ==> (EndsUnsupported([first] + more) <==> EndsUnsupported(more))
    ensures more == [] ==> (EndsUnsupported([first] + more) <==> EndsUnsupported([first]))
  {
    if more == [] { assert [first] + more == [first]; }
  }

  /** Only a stream that stops too early loses the startup: any other ending is
      final, whatever comes after. */
  lemma {:induction false} EndingIsFinal(c: Config, a: Auth, key: KeyData, stream: seq<byte>, more: seq<byte>)
    requires Converse(c, a, key, stream).ending != Lost
    ensures Converse(c, a, key, stream + more) == Converse(c, a, key, stream)
    decreases |stream|
  {
    hide React, FirstFrame;
    FirstFrameExtends(stream, more);
    if FirstFrame(stream).Frame? {
      var f := FirstFrame(stream);
      var r := React(c, a, key, f.message);
      if r.verdict.Continue? {
        EndingIsFinal(c, r.auth, r.key, f.rest, more);
      }
    }
  }
}
