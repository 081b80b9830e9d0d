/** Whole exchanges under any schedule of the transport. */
module TransferRuns {
  import opened Protocol
  import opened Framing
  import opened SessionState
  import opened SessionInvariant
  import opened ClientSession
  import opened Transfer

  /** The steps of a schedule in which the transport is willing to move bytes. */
  function Delivers(schedule: seq<Offer>): nat {
    if schedule == [] then 0 else (if schedule[0].Deliver? then 1 else 0) + Delivers(schedule[1..])
  }

  predicate StaysOpen(schedule: seq<Offer>) {
    Offer.Closed !in schedule
  }

  /** The bytes that must arrive before the first frame is decided. */
  function Needed(stream: seq<byte>): nat {
    match FirstFrame(stream)
    case Incomplete => |stream|
    case BadLength => 5
    case Frame(_, rest) => |stream| - |rest|
  }

  /** For a valid frame that is as many bytes as the frame has. */
  lemma FrameNeeds(m: Message, rest: seq<byte>)
    requires Bounded(m)
    ensures Needed(Encode(m) + rest) == |m.payload| + 5
  {
    EncodeRoundTrip(m, rest);
    FrameLayout(m);
  }

  lemma Undecided(taken: seq<byte>, more: seq<byte>)
    requires FirstFrame(taken) == Incomplete
    ensures more == [] ==> FirstFrame(taken + more) == Incomplete
    ensures FirstFrame(taken + more) != Incomplete ==> |taken| < Needed(taken + more)
  {
    if |taken| >= 5 { assert (taken + more)[1..5] == taken[1..5]; }
    assert more == [] ==> taken + more == taken;
  }

  /** However the bytes of the stream are cut into steps, and whatever waits
      come between them, the operation ends as the blocking receive does, and
      takes no byte past the frame; it has ended once as many steps moved
      bytes as the frame has. */
  method RunReceive(operation: ReceiveOperation, schedule: seq<Offer>)
    requires operation.Valid() && operation.ending.None? && operation.reader.Consumed() == []
    requires StaysOpen(schedule)
    modifies operation, operation.session, operation.reader, operation.reader.channel`incoming,
             operation.reader.tag, operation.reader.lengthData, operation.reader.buffer
    ensures operation.ending.None? ==>
              && operation.session.Value() == old(operation.session.Value())
              && (FirstFrame(old(operation.Stream())).Incomplete? || Delivers(schedule) < Needed(old(operation.Stream())))
    ensures operation.ending.Some? ==>
              (operation.session.Value(), operation.ending.value)
              == Received(operation.decode, operation.kind, old(operation.session.Value()), old(operation.Stream()))
    ensures operation.ending.Some? && FirstFrame(old(operation.Stream())).Frame? ==>
              operation.reader.channel.incoming == FirstFrame(old(operation.Stream())).rest
  {
    var k := 0;
    ghost var stream, s := operation.Stream(), operation.session.Value();
    assert stream == operation.reader.channel.incoming;
    while k < |schedule| && operation.ending.None?
      invariant k <= |schedule| && operation.Valid() && operation.Follows(s, stream)
      invariant operation.reader.buffer == old(operation.reader.buffer) || fresh(operation.reader.buffer)
      invariant operation.ending.None? && operation.reader.channel.incoming != [] ==>
                  |stream| - |operation.reader.channel.incoming| + Delivers(schedule[k..]) >= Delivers(schedule)
    {
      assert schedule[k..][1..] == schedule[k + 1..];
      operation.Drive(schedule[k]);
      k := k + 1;
    }
    if operation.ending.None? {
      Undecided(operation.reader.Consumed(), operation.reader.channel.incoming);
    }
  }

  // --------------------------------------------------------- many messages

  /** One receive after another until one does not deliver: the session, how
      each receive ends, and what is left unread. */
  function ReceivedAll(decode: Decoder, kinds: seq<Kind>, s: State, stream: seq<byte>): (State, seq<Ending>, Option<seq<byte>>)
    decreases kinds
  {
    if kinds == [] then (s, [], Some(stream))
    else
      var (t, ending) := Received(decode, kinds[0], s, stream);
      if !ending.Delivered? then (t, [ending], Unread(kinds[0], s, stream))
      else
        var (u, endings, left) := ReceivedAll(decode, kinds[1..], t, FirstFrame(stream).rest);
        (u, [ending] + endings, left)
  }

  lemma DeliveredIsFramed(decode: Decoder, kind: Kind, s: State, stream: seq<byte>)
    ensures Received(decode, kind, s, stream).1.Delivered? ==>
              FirstFrame(stream).Frame? && Unread(kind, s, stream) == Some(FirstFrame(stream).rest)
  {
  }

  lemma ReceivedNext(decode: Decoder, kinds: seq<Kind>, k: nat, s: State, stream: seq<byte>, endings: seq<Ending>)
    requires k < |kinds|
    ensures var (t, ending) := Received(decode, kinds[k], s, stream);
            var (u, more, left) := ReceivedAll(decode, kinds[k..], s, stream);
            if ending.Delivered? then
              var (v, rest, unread) := ReceivedAll(decode, kinds[k + 1..], t, FirstFrame(stream).rest);
              (u, endings + more, left) == (v, (endings + [ending]) + rest, unread)
            else (u, endings + more, left) == (t, endings + [ending], Unread(kinds[k], s, stream))
  {
    assert kinds[k..][0] == kinds[k] && kinds[k..][1..] == kinds[k + 1..];
    var (t, ending) := Received(decode, kinds[k], s, stream);
    if ending.Delivered? {
      var rest := ReceivedAll(decode, kinds[k + 1..], t, FirstFrame(stream).rest).1;
      assert endings + ([ending] + rest) == (endings + [ending]) + rest;
    }
  }

  /** The stream holds as many frames, or a length that is refused before them. */
  predicate Holds(n: nat, stream: seq<byte>) {
    n > 0 ==> match FirstFrame(stream)
              case Incomplete => false
              case BadLength => true
              case Frame(_, rest) => Holds(n - 1, rest)
  }

  /** A schedule under which any receive that can end does end. */
  predicate Delivering(schedule: seq<Offer>, available: nat) {
    StaysOpen(schedule) && Delivers(schedule) >= available
  }

  method ReceiveStepwise(session: Session, channel: Channel, decode: Decoder, kind: Kind, schedule: seq<Offer>)
    returns (ending: Ending)
    requires FirstFrame(channel.incoming) != Incomplete && Delivering(schedule, |channel.incoming|)
    modifies session, channel`incoming
    ensures (session.Value(), ending) == Received(decode, kind, old(session.Value()), old(channel.incoming))
    ensures var left := Unread(kind, old(session.Value()), old(channel.incoming));
            left.Some? ==> channel.incoming == left.value
  {
    var operation := new ReceiveOperation(session, channel, kind, decode);
    if operation.ending.None? {
      RunReceive(operation, schedule);
    }
    ending := operation.ending.value;
  }

  /** The blocking receives, one for each kind asked for. */
  method ReceiveAllBlocking(session: Session, channel: Channel, decode: Decoder, kinds: seq<Kind>)
    returns (endings: seq<Ending>)
    modifies session, channel`incoming
    ensures var (s, all, left) := ReceivedAll(decode, kinds, old(session.Value()), old(channel.incoming));
            session.Value() == s && endings == all && (left.Some? ==> channel.incoming == left.value)
  {
    hide Received, Unread;
    endings := [];
    var k := 0;
    ghost var all := ReceivedAll(decode, kinds, session.Value(), channel.incoming);
    assert [] + all.1 == all.1 && kinds[0..] == kinds;
    while k < |kinds|
      invariant k <= |kinds|
      invariant var (t, more, left) := ReceivedAll(decode, kinds[k..], session.Value(), channel.incoming);
                all == (t, endings + more, left)
    {
      ReceivedNext(decode, kinds, k, session.Value(), channel.incoming, endings);
      DeliveredIsFramed(decode, kinds[k], session.Value(), channel.incoming);
      var ending := ReceiveBlocking(session, channel, decode, kinds[k]);
      endings := endings + [ending];
      if !ending.Delivered? {
        return;
      }
      k := k + 1;
    }
    assert endings + [] == endings;
  }

  /** The receives driven step by step, each under a schedule of its own. */
  method ReceiveAllStepwise(session: Session, channel: Channel, decode: Decoder, kinds: seq<Kind>, schedules: seq<seq<Offer>>)
    returns (endings: seq<Ending>)
    requires |schedules| == |kinds| && Holds(|kinds|, channel.incoming)
    requires forall k :: 0 <= k < |kinds| ==> Delivering(schedules[k], |channel.incoming|)
    modifies session, channel`incoming
    ensures var (s, all, left) := ReceivedAll(decode, kinds, old(session.Value()), old(channel.incoming));
            session.Value() == s && endings == all && (left.Some? ==> channel.incoming == left.value)
  {
    hide Received, Unread;
    endings := [];
    var k := 0;
    ghost var all, size := ReceivedAll(decode, kinds, session.Value(), channel.incoming), |channel.incoming|;
    assert [] + all.1 == all.1 && kinds[0..] == kinds;
    while k < |kinds|
      invariant k <= |kinds| && |channel.incoming| <= size && Holds(|kinds| - k, channel.incoming)
      invariant var (t, more, left) := ReceivedAll(decode, kinds[k..], session.Value(), channel.incoming);
                all == (t, endings + more, left)
    {
      ReceivedNext(decode, kinds, k, session.Value(), channel.incoming, endings);
      DeliveredIsFramed(decode, kinds[k], session.Value(), channel.incoming);
      var ending := ReceiveStepwise(session, channel, decode, kinds[k], schedules[k]);
      endings := endings + [ending];
      if !ending.Delivered? {
        return;
      }
      k := k + 1;
    }
    assert endings + [] == endings;
  }

  function EncodeAll(ms: seq<Message>): seq<byte>
    requires forall m :: m in ms ==> Bounded(m)
  {
    if ms == [] then [] else Encode(ms[0]) + EncodeAll(ms[1..])
  }

  /** The messages applied one after another until one is not delivered, and
      how many of them were taken. */
  function AppliedAll(decode: Decoder, kinds: seq<Kind>, s: State, ms: seq<Message>): (r: (State, seq<Ending>, nat))
    requires |kinds| == |ms|
    ensures r.2 <= |ms|
    decreases kinds
  {
    if kinds == [] then (s, [], 0)
    else if !Permits(s, CallFor(kinds[0], Unknown)) then (s, [Refused], 0)
    else
      var (t, ending) := Applied(decode, kinds[0], s, ms[0]);
      if !ending.Delivered? then (t, [ending], 1)
      else
        var (u, endings, taken) := AppliedAll(decode, kinds[1..], t, ms[1..]);
        (u, [ending] + endings, taken + 1)
  }

  /** Given the bytes of any list of valid frames, the receives apply exactly
      those messages in order, and leave unread exactly the frames they did not
      take and whatever follows. */
  lemma {:induction false} FramesAreApplied(decode: Decoder, kinds: seq<Kind>, s: State, ms: seq<Message>, rest: seq<byte>)
    requires |kinds| == |ms| && forall m :: m in ms ==> Bounded(m)
    ensures var (t, endings, taken) := AppliedAll(decode, kinds, s, ms);
            ReceivedAll(decode, kinds, s, EncodeAll(ms) + rest) == (t, endings, Some(EncodeAll(ms[taken..]) + rest))
    ensures Holds(|ms|, EncodeAll(ms) + rest)
    decreases ms
  {
    hide Permits, Perform, FirstFrame, Encode, Applied;
    if ms == [] {
      assert EncodeAll(ms) + rest == rest && ms[0..] == ms;
    } else {
      var more := EncodeAll(ms[1..]) + rest;
      assert EncodeAll(ms) + rest == Encode(ms[0]) + more;
      EncodeRoundTrip(ms[0], more);
      var (t, ending) := Applied(decode, kinds[0], s, ms[0]);
      FramesAreApplied(decode, kinds[1..], t, ms[1..], rest);
      var taken := AppliedAll(decode, kinds[1..], t, ms[1..]).2;
      assert ms[1..][taken..] == ms[taken + 1..] && ms[0..] == ms;
    }
  }

  // ------------------------------------------------------------------ sends

  datatype SendKind = QuerySend(length: nat) | ExecuteSend

  function CallOf(kind: SendKind): Call {
    match kind
    case QuerySend(length) => SendQuery(length)
    case ExecuteSend => ExecutePortal
  }

  function CommandOf(kind: SendKind, payload: seq<byte>): Command {
    Command(if kind.QuerySend? then Query else Execute, payload)
  }

  /** A send that is driven step by step: the bytes still to go are those of
      `buffer` from `cursor` on. */
  class SendOperation {
    const session: Session
    const channel: Channel
    const kind: SendKind
    const payload: seq<byte>
    const buffer: seq<byte>
    var cursor: nat
    var done: bool

    ghost predicate Valid()
      reads this, session
    {
      cursor <= |buffer| && (done <==> cursor == |buffer|)
      && (!done ==> Inv(session.Value()) && Permits(session.Value(), CallOf(kind))
                    && (kind.QuerySend? ==> kind.length <= MAXIMUM_MESSAGE_SIZE - 5))
    }

    /** `bytes` is the encoded message; it is never empty. */
    constructor (client: Session, connection: Channel, sendKind: SendKind, text: seq<byte>, bytes: seq<byte>)
      requires Inv(client.Value()) && Permits(client.Value(), CallOf(sendKind)) && bytes != []
      requires sendKind.QuerySend? ==> sendKind.length <= MAXIMUM_MESSAGE_SIZE - 5
      ensures Valid() && !done && cursor == 0
      ensures session == client && channel == connection && kind == sendKind && payload == text && buffer == bytes
    {
      session, channel, kind, payload, buffer := client, connection, sendKind, text, bytes;
      cursor, done := 0, false;
    }

    /** One step. The session changes only with the last byte, and then as the
        blocking call changes it. */
    method Drive(offer: Offer) returns (result: StepResult)
      requires Valid() && !done
      modifies this, session, channel`outgoing
      ensures Valid() && old(cursor) <= cursor && channel.outgoing == old(channel.outgoing) + buffer[old(cursor)..cursor]
      ensures offer.Deliver? <==> old(cursor) < cursor
      ensures offer.Closed? <==> result == PeerClosed
      ensures !done ==> session.Value() == old(session.Value()) && session.written == old(session.written)
      ensures done ==> session.Value() == Perform(old(session.Value()), CallOf(kind)).next
                       && session.written == old(session.written) + [CommandOf(kind, payload)]
    {
      var next;
      next, result := channel.SendStep(buffer, cursor, offer);
      cursor := next;
      if result == MadeProgress && cursor == |buffer| {
        done := true;
        match kind
        case QuerySend(length) => session.CompleteSimpleQuery(payload, length);
        case ExecuteSend => session.CompletePortalExecute(payload);
      }
    }
  }

  lemma SentOn(buffer: seq<byte>, c: nat, cursor: nat)
    requires c <= cursor <= |buffer|
    ensures buffer[..c] + buffer[c..cursor] == buffer[..cursor]
  {
  }

  /** Under every schedule the bytes leave in order, none twice; once as many
      steps moved bytes as there are, the session is as after the blocking call. */
  method RunSend(operation: SendOperation, schedule: seq<Offer>)
    requires operation.Valid() && !operation.done && operation.cursor == 0 && StaysOpen(schedule)
    modifies operation, operation.session, operation.channel`outgoing
    ensures operation.Valid()
    ensures operation.channel.outgoing == old(operation.channel.outgoing) + operation.buffer[..operation.cursor]
    ensures Delivers(schedule) >= |operation.buffer| ==> operation.done
    ensures operation.session.written
         == old(operation.session.written) + (if operation.done then [CommandOf(operation.kind, operation.payload)] else [])
    ensures operation.session.Value() == if operation.done then Perform(old(operation.session.Value()), CallOf(operation.kind)).next
                                         else old(operation.session.Value())
  {
    hide Perform, Permits, Inv;
    var k := 0;
    while k < |schedule| && !operation.done
      invariant k <= |schedule| && operation.Valid()
      invariant operation.channel.outgoing == old(operation.channel.outgoing) + operation.buffer[..operation.cursor]
      invariant !operation.done ==> operation.cursor + Delivers(schedule[k..]) >= Delivers(schedule)
      invariant operation.session.written
             == old(operation.session.written) + (if operation.done then [CommandOf(operation.kind, operation.payload)] else [])
      invariant operation.session.Value() == if operation.done then Perform(old(operation.session.Value()), CallOf(operation.kind)).next
                                             else old(operation.session.Value())
    {
      assert schedule[k..][1..] == schedule[k + 1..];
      ghost var c := operation.cursor;
      var result := operation.Drive(schedule[k]);
      SentOn(operation.buffer, c, operation.cursor);
      k := k + 1;
    }
  }
}
