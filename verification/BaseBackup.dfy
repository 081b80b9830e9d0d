/** The messages of a BASE_BACKUP reply, and a client that reads them with
    whichever receive call its state asks for. */
module BaseBackup {
  import opened Protocol
  import opened SessionState
  import opened SessionInvariant
  import opened ClientSession

  function Repeat(e: Event, n: nat): seq<Event> {
    if n == 0 then [] else [e] + Repeat(e, n - 1)
  }

  function ResultSet(columns: nat, rows: nat): seq<Event> {
    [RowDescription(columns)] + Repeat(DataRow(columns), rows) + [CommandComplete]
  }

  /** One archive, or all of them multiplexed. */
  function Stream(chunks: nat): seq<Event> {
    [CopyOutResponse] + Repeat(CopyData, chunks) + [CopyDone]
  }

  function Streams(chunks: seq<nat>): seq<Event> {
    if chunks == [] then [] else Stream(chunks[0]) + Streams(chunks[1..])
  }

  /** Start position, tablespaces, archives, end position. */
  function Reply(tablespaces: nat, chunks: seq<nat>): seq<Event> {
    ResultSet(2, 1) + ResultSet(3, tablespaces) + Streams(chunks) + ResultSet(2, 1) + [CommandComplete, ReadyForQuery]
  }

  // ------------------------------------------------------------- the server

  class BackupServer {
    /** The messages sent so far. */
    var sent: seq<Event>

    method SendPosition(timeline: nat) returns (ok: bool)
      modifies this
      ensures ok == (timeline > 0) && sent == old(sent) + if ok then ResultSet(2, 1) else []
    {
      if timeline == 0 {
        return false;
      }
      sent := sent + [RowDescription(2)];
      sent := sent + [DataRow(2)];
      sent := sent + [CommandComplete];
      assert Repeat(DataRow(2), 1) == [DataRow(2)];
      return true;
    }

    method BeginTablespaces()
      modifies this
      ensures sent == old(sent) + [RowDescription(3)]
    {
      sent := sent + [RowDescription(3)];
    }

    /** Refuses a row in which only one of OID and location is NULL. */
    method SendTablespace(oidPresent: bool, locationPresent: bool) returns (ok: bool)
      modifies this
      ensures ok == (oidPresent == locationPresent) && sent == old(sent) + if ok then [DataRow(3)] else []
    {
      if oidPresent != locationPresent {
        return false;
      }
      sent := sent + [DataRow(3)];
      return true;
    }

    method CompleteTablespaces()
      modifies this
      ensures sent == old(sent) + [CommandComplete]
    {
      sent := sent + [CommandComplete];
    }

    method BeginStream()
      modifies this
      ensures sent == old(sent) + [CopyOutResponse]
    {
      sent := sent + [CopyOutResponse];
    }

    method SendData()
      modifies this
      ensures sent == old(sent) + [CopyData]
    {
      sent := sent + [CopyData];
    }

    method FinishStream()
      modifies this
      ensures sent == old(sent) + [CopyDone]
    {
      sent := sent + [CopyDone];
    }

    method SendEndPosition(timeline: nat) returns (ok: bool)
      modifies this
      ensures ok == (timeline > 0)
      ensures sent == old(sent) + if ok then ResultSet(2, 1) + [CommandComplete, ReadyForQuery] else []
    {
      ok := SendPosition(timeline);
      if ok {
        sent := sent + [CommandComplete];
        sent := sent + [ReadyForQuery];
      }
    }

    method SendTablespaces(present: seq<bool>)
      modifies this
      ensures sent == old(sent) + ResultSet(3, |present|)
    {
      BeginTablespaces();
      ghost var start := sent;
      for k := 0 to |present|
        invariant sent == start + Repeat(DataRow(3), k)
      {
        var ok := SendTablespace(present[k], present[k]);
        RepeatEnds(DataRow(3), k);
        assert start + Repeat(DataRow(3), k + 1) == (start + Repeat(DataRow(3), k)) + [DataRow(3)];
      }
      CompleteTablespaces();
    }

    method SendStream(chunks: nat)
      modifies this
      ensures sent == old(sent) + Stream(chunks)
    {
      BeginStream();
      ghost var start := sent;
      for k := 0 to chunks
        invariant sent == start + Repeat(CopyData, k)
      {
        SendData();
        RepeatEnds(CopyData, k);
        assert start + Repeat(CopyData, k + 1) == (start + Repeat(CopyData, k)) + [CopyData];
      }
      FinishStream();
    }

    /** The primitives in the order in which a backup uses them: one stream
        for each element of `chunks`. */
    method SendBackup(startTimeline: nat, endTimeline: nat, present: seq<bool>, chunks: seq<nat>)
      requires startTimeline > 0 && endTimeline > 0
      modifies this
      ensures sent == old(sent) + Reply(|present|, chunks)
    {
      hide ResultSet, Stream;
      var ok := SendPosition(startTimeline);
      SendTablespaces(present);
      ghost var start := sent;
      assert start + Streams(chunks[..0]) == start;
      for k := 0 to |chunks|
        invariant sent == start + Streams(chunks[..k])
      {
        SendStream(chunks[k]);
        StreamsEnd(chunks, k);
        assert start + Streams(chunks[..k + 1]) == (start + Streams(chunks[..k])) + Stream(chunks[k]);
      }
      assert chunks[..|chunks|] == chunks;
      ok := SendEndPosition(endTimeline);
    }
  }

  lemma {:induction false} RepeatEnds(e: Event, n: nat)
    ensures Repeat(e, n + 1) == Repeat(e, n) + [e]
    decreases n
  {
    if n > 0 {
      RepeatEnds(e, n - 1);
      assert [e] + (Repeat(e, n - 1) + [e]) == ([e] + Repeat(e, n - 1)) + [e];
    }
  }

  lemma {:induction false} StreamsEnd(chunks: seq<nat>, k: nat)
    requires k < |chunks|
    ensures Streams(chunks[..k + 1]) == Streams(chunks[..k]) + Stream(chunks[k])
    decreases |chunks|
  {
    if k == 0 {
      assert chunks[..1] == [chunks[0]] && [chunks[0]][1..] == [] && chunks[..0] == [];
      assert Streams([chunks[0]]) == Stream(chunks[0]) + [];
    } else {
      var rest := chunks[1..];
      StreamsEnd(rest, k - 1);
      assert chunks[..k + 1][1..] == rest[..k] && chunks[..k][1..] == rest[..k - 1];
      assert Stream(chunks[0]) + (Streams(rest[..k - 1]) + Stream(chunks[k]))
          == (Stream(chunks[0]) + Streams(rest[..k - 1])) + Stream(chunks[k]);
    }
  }

  // ------------------------------------------------------- reading a reply

  /** How often the message comes next. */
  function Leading(e: Event, events: seq<Event>): (n: nat)
    ensures n <= |events|
  {
    if events != [] && events[0] == e then 1 + Leading(e, events[1..]) else 0
  }

  /** The data messages of each COPY OUT stream, and what follows the streams. */
  function ReadStreams(events: seq<Event>): Option<(seq<nat>, seq<Event>)>
    decreases |events|
  {
    if events == [] || events[0] != CopyOutResponse then Some(([], events))
    else
      var n := Leading(CopyData, events[1..]);
      if 1 + n < |events| && events[1 + n] == CopyDone
      then match ReadStreams(events[n + 2..])
           case None => None
           case Some((chunks, rest)) => Some(([n] + chunks, rest))
      else None
  }

  /** The tablespaces and the streams of a backup: a start position of two
      columns, a row of three columns for each tablespace, the streams, an end
      position, and the completion of the command. */
  function ReadReply(events: seq<Event>): Option<(nat, seq<nat>)> {
    if |events| < 4 || events[..4] != [RowDescription(2), DataRow(2), CommandComplete, RowDescription(3)] then None
    else
      var rows := Leading(DataRow(3), events[4..]);
      if 4 + rows == |events| || events[4 + rows] != CommandComplete then None
      else match ReadStreams(events[5 + rows..])
           case None => None
           case Some((chunks, rest)) =>
             if rest == [RowDescription(2), DataRow(2), CommandComplete, CommandComplete, ReadyForQuery]
             then Some((rows, chunks)) else None
  }

  lemma {:induction false} LeadingRepeat(e: Event, n: nat, rest: seq<Event>)
    requires rest != [] ==> rest[0] != e
    ensures |Repeat(e, n)| == n && Leading(e, Repeat(e, n) + rest) == n
    decreases n
  {
    if n == 0 {
      assert Repeat(e, n) + rest == rest;
    } else {
      LeadingRepeat(e, n - 1, rest);
      assert (Repeat(e, n) + rest)[1..] == Repeat(e, n - 1) + rest;
    }
  }

  lemma StreamIsRead(n: nat, more: seq<Event>)
    ensures ReadStreams(Stream(n) + more)
         == match ReadStreams(more) case None => None case Some((chunks, rest)) => Some(([n] + chunks, rest))
  {
    var data, events := Repeat(CopyData, n), Stream(n) + more;
    LeadingRepeat(CopyData, n, [CopyDone] + more);
    StreamLayout(n, data, more);
    assert Leading(CopyData, events[1..]) == n;
  }

  lemma StreamLayout(n: nat, data: seq<Event>, more: seq<Event>)
    requires |data| == n
    ensures var events := [CopyOutResponse] + data + [CopyDone] + more;
            events[1..] == data + ([CopyDone] + more) && events[1 + n] == CopyDone && events[n + 2..] == more
  {
  }

  lemma {:induction false} StreamsAreRead(chunks: seq<nat>, rest: seq<Event>)
    requires rest != [] ==> rest[0] != CopyOutResponse
    ensures ReadStreams(Streams(chunks) + rest) == Some((chunks, rest))
    decreases chunks
  {
    hide Stream;
    if chunks == [] {
      assert Streams(chunks) + rest == rest;
    } else {
      var more := Streams(chunks[1..]) + rest;
      assert Streams(chunks) + rest == Stream(chunks[0]) + more;
      StreamIsRead(chunks[0], more);
      StreamsAreRead(chunks[1..], rest);
      assert [chunks[0]] + chunks[1..] == chunks;
    }
  }

  /** The reply of a backup holds its tablespaces and its streams, each with
      its data, in order. */
  lemma ReplyIsRead(tablespaces: nat, chunks: seq<nat>)
    ensures ReadReply(Reply(tablespaces, chunks)) == Some((tablespaces, chunks))
  {
    hide Streams, ReadStreams;
    var rows, position := Repeat(DataRow(3), tablespaces), [RowDescription(2), DataRow(2), CommandComplete];
    var end := position + [CommandComplete, ReadyForQuery];
    var streams, events := Streams(chunks) + end, Reply(tablespaces, chunks);
    assert Repeat(DataRow(2), 1) == [DataRow(2)];
    assert ResultSet(2, 1) == position;
    assert events == (position + [RowDescription(3)]) + (rows + ([CommandComplete] + streams));
    LeadingRepeat(DataRow(3), tablespaces, [CommandComplete] + streams);
    assert events[..4] == [RowDescription(2), DataRow(2), CommandComplete, RowDescription(3)];
    assert events[4..] == rows + ([CommandComplete] + streams);
    assert events[4 + tablespaces] == CommandComplete && events[5 + tablespaces..] == streams;
    StreamsAreRead(chunks, end);
    assert end == [RowDescription(2), DataRow(2), CommandComplete, CommandComplete, ReadyForQuery];
  }

  // ------------------------------------------------------------- the client

  /** The receive call that the session's state asks for. */
  function CallByState(s: State, e: Event): Call {
    if s.state == SimpleQueryActive then ReceiveQuery(e) else ReceiveCopy(e)
  }

  /** The state after reading the messages, unless some receive raises. */
  function Accept(s: State, events: seq<Event>): Option<State>
    decreases events
  {
    if events == [] then Some(s)
    else
      var step := Perform(s, CallByState(s, events[0]));
      if step.outcome != Completed then None else Accept(step.next, events[1..])
  }

  lemma {:induction false} AcceptAppend(s: State, a: seq<Event>, b: seq<Event>)
    ensures Accept(s, a + b) == match Accept(s, a) case None => None case Some(t) => Accept(t, b)
    decreases a
  {
    if a == [] {
      assert a + b == b;
    } else {
      assert (a + b)[0] == a[0] && (a + b)[1..] == a[1..] + b;
      var step := Perform(s, CallByState(s, a[0]));
      if step.outcome == Completed { AcceptAppend(step.next, a[1..], b); }
    }
  }

  /** Between two results of the query, or two of its COPY streams. */
  predicate BetweenResults(s: State) {
    && s.pendingSyncs == 0 && !s.batchOpen && !s.boundInCycle && !s.portalIsSuspended && !s.pipelined && s.described == None
    && (|| (s.state == SimpleQueryActive && s.copy == NO_COPY)
        || (s.state == CopyCompletionActive && s.copy == Copy(SimpleCopy, false, false, false, false)))
  }

  lemma AcceptFirst(s: State, e: Event, rest: seq<Event>, t: State)
    requires Perform(s, CallByState(s, e)) == Step(t, Completed)
    ensures Accept(s, [e] + rest) == Accept(t, rest)
  {
    hide Perform;
    assert ([e] + rest)[1..] == rest;
  }

  lemma AcceptOne(s: State, e: Event, t: State)
    requires Perform(s, CallByState(s, e)) == Step(t, Completed)
    ensures Accept(s, [e]) == Some(t)
  {
    hide Perform;
    assert [e] + [] == [e];
    AcceptFirst(s, e, [], t);
  }

  lemma {:induction false} AcceptRepeat(s: State, e: Event, n: nat)
    requires Perform(s, CallByState(s, e)) == Step(s, Completed)
    ensures Accept(s, Repeat(e, n)) == Some(s)
    decreases n
  {
    hide Perform;
    if n > 0 {
      AcceptFirst(s, e, Repeat(e, n - 1), s);
      AcceptRepeat(s, e, n - 1);
    }
  }

  /** A message, any number of another, and a last one. */
  lemma AcceptRun(s: State, first: Event, t: State, e: Event, n: nat, last: Event, u: State)
    requires Perform(s, CallByState(s, first)) == Step(t, Completed)
    requires Perform(t, CallByState(t, e)) == Step(t, Completed)
    requires Perform(t, CallByState(t, last)) == Step(u, Completed)
    ensures Accept(s, [first] + Repeat(e, n) + [last]) == Some(u)
  {
    hide Perform, Accept;
    AcceptFirst(s, first, Repeat(e, n) + [last], t);
    assert [first] + Repeat(e, n) + [last] == [first] + (Repeat(e, n) + [last]);
    AcceptRepeat(t, e, n);
    AcceptAppend(t, Repeat(e, n), [last]);
    AcceptOne(t, last, u);
  }

  const QUERYING := STARTED.(state := SimpleQueryActive)
  const COPIED := STARTED.(state := CopyCompletionActive, copy := Copy(SimpleCopy, false, false, false, false))

  lemma ResultSetSteps(s: State, columns: nat)
    requires BetweenResults(s)
    ensures var t := QUERYING.(described := Some(columns));
            && Perform(s, CallByState(s, RowDescription(columns))) == Step(t, Completed)
            && Perform(t, CallByState(t, DataRow(columns))) == Step(t, Completed)
            && Perform(t, CallByState(t, CommandComplete)) == Step(QUERYING, Completed)
  {
  }

  lemma AcceptResultSet(s: State, columns: nat, rows: nat)
    requires BetweenResults(s)
    ensures Accept(s, ResultSet(columns, rows)) == Some(QUERYING)
  {
    hide Perform, Accept;
    ResultSetSteps(s, columns);
    AcceptRun(s, RowDescription(columns), QUERYING.(described := Some(columns)), DataRow(columns), rows, CommandComplete, QUERYING);
  }

  const COPYING := COPIED.(state := CopyOutActive, copy := Copy(SimpleCopy, false, true, false, false))

  lemma StreamOpens(s: State)
    requires BetweenResults(s)
    ensures Perform(s, CallByState(s, CopyOutResponse)) == Step(COPYING, Completed)
  {
  }

  lemma StreamSteps()
    ensures Perform(COPYING, CallByState(COPYING, CopyData)) == Step(COPYING, Completed)
    ensures Perform(COPYING, CallByState(COPYING, CopyDone)) == Step(COPIED, Completed)
  {
  }

  lemma AcceptStream(s: State, chunks: nat)
    requires BetweenResults(s)
    ensures Accept(s, Stream(chunks)) == Some(COPIED)
  {
    hide Perform, Accept;
    StreamOpens(s);
    StreamSteps();
    AcceptRun(s, CopyOutResponse, COPYING, CopyData, chunks, CopyDone, COPIED);
  }

  lemma {:induction false} AcceptStreams(s: State, chunks: seq<nat>)
    requires BetweenResults(s)
    ensures Accept(s, Streams(chunks)).Some? && BetweenResults(Accept(s, Streams(chunks)).value)
    decreases chunks
  {
    hide Perform;
    if chunks != [] {
      AcceptStream(s, chunks[0]);
      AcceptAppend(s, Stream(chunks[0]), Streams(chunks[1..]));
      AcceptStreams(COPIED, chunks[1..]);
    }
  }

  lemma EndSteps()
    ensures Perform(QUERYING, CallByState(QUERYING, CommandComplete)) == Step(QUERYING, Completed)
    ensures Perform(QUERYING, CallByState(QUERYING, ReadyForQuery)) == Step(STARTED, Completed)
  {
  }

  /** Notices and parameter changes may come anywhere and change nothing. */
  function Quiet(events: seq<Event>): seq<Event> {
    if events == [] then []
    else (if events[0].Notice? || events[0].ParameterStatus? then [] else [events[0]]) + Quiet(events[1..])
  }

  predicate Listening(s: State) {
    s.state == SimpleQueryActive || (InCopyState(s) && s.copy.origin == SimpleCopy)
  }

  lemma StillListening(s: State, e: Event)
    requires Listening(s) && Inv(s) && !e.ReadyForQuery? && Perform(s, CallByState(s, e)).outcome == Completed
    ensures Listening(Perform(s, CallByState(s, e)).next)
  {
    hide Inv;
    if s.state == SimpleQueryActive {
      assert Perform(s, CallByState(s, e)) == ApplyQueryEvent(s, e);
    } else {
      assert Perform(s, CallByState(s, e)) == ApplyCopyEvent(s, e);
    }
  }

  lemma NoticeChangesNothing(s: State, e: Event)
    requires Listening(s) && (e.Notice? || e.ParameterStatus?)
    ensures Perform(s, CallByState(s, e)) == Step(s, Completed)
  {
  }

  lemma {:induction false} QuietIsAccepted(s: State, events: seq<Event>, t: State)
    requires Accept(s, Quiet(events)) == Some(t) && Listening(t)
    requires Listening(s) && Inv(s) && ReadyForQuery !in events
    ensures Accept(s, events) == Some(t)
    decreases events
  {
    hide Perform, Inv, Listening;
    if events != [] {
      var e, rest := events[0], events[1..];
      assert [e] + rest == events;
      var step := Perform(s, CallByState(s, e));
      if e.Notice? || e.ParameterStatus? {
        NoticeChangesNothing(s, e);
        assert Quiet(events) == Quiet(rest);
        QuietIsAccepted(s, rest, t);
      } else {
        assert Quiet(events) == [e] + Quiet(rest) && ([e] + Quiet(rest))[1..] == Quiet(rest);
        CallKeepsInv(s, CallByState(s, e));
        StillListening(s, e);
        QuietIsAccepted(step.next, rest, t);
      }
    }
  }

  lemma AcceptReply(tablespaces: nat, chunks: seq<nat>) returns (front: seq<Event>)
    ensures Reply(tablespaces, chunks) == front + [ReadyForQuery]
    ensures Accept(QUERYING, front) == Some(QUERYING)
  {
    hide Perform, Accept, ResultSet, Streams;
    var start, spaces, streams, end := ResultSet(2, 1), ResultSet(3, tablespaces), Streams(chunks), ResultSet(2, 1);
    AcceptResultSet(QUERYING, 2, 1);
    AcceptAppend(QUERYING, start, spaces);
    AcceptResultSet(QUERYING, 3, tablespaces);
    AcceptAppend(QUERYING, start + spaces, streams);
    AcceptStreams(QUERYING, chunks);
    AcceptAppend(QUERYING, start + spaces + streams, end);
    AcceptResultSet(Accept(QUERYING, streams).value, 2, 1);
    var body := start + spaces + streams + end;
    front := body + [CommandComplete];
    EndSteps();
    AcceptAppend(QUERYING, body, [CommandComplete]);
    AcceptOne(QUERYING, CommandComplete, QUERYING);
    assert body + [CommandComplete, ReadyForQuery] == front + [ReadyForQuery];
  }

  /** For any number of tablespaces, streams and chunks, and with notices
      anywhere, the client accepts the whole backup and is ready again. */
  lemma BackupIsAccepted(tablespaces: nat, chunks: seq<nat>, noisy: seq<Event>)
    requires ReadyForQuery !in noisy && Quiet(noisy) + [ReadyForQuery] == Reply(tablespaces, chunks)
    ensures Accept(QUERYING, noisy + [ReadyForQuery]) == Some(STARTED)
  {
    hide Perform, Accept, Reply;
    var front := AcceptReply(tablespaces, chunks);
    assert front == (front + [ReadyForQuery])[..|front|] == Quiet(noisy);
    QuietIsAccepted(QUERYING, noisy, QUERYING);
    AcceptAppend(QUERYING, noisy, [ReadyForQuery]);
    EndSteps();
    AcceptOne(QUERYING, ReadyForQuery, STARTED);
  }

  /** The client's loop: one receive for each message, chosen by the state. */
  method ReceiveByState(session: Session, events: seq<Event>) returns (accepted: bool)
    modifies session
    ensures accepted <==> Accept(old(session.Value()), events).Some?
    ensures accepted ==> Accept(old(session.Value()), events) == Some(session.Value())
    ensures session.written == old(session.written)
  {
    for k := 0 to |events|
      invariant Accept(old(session.Value()), events) == Accept(session.Value(), events[k..])
      invariant session.written == old(session.written)
    {
      assert events[k..][1..] == events[k + 1..];
      var outcome;
      if session.currentState == SimpleQueryActive {
        outcome := session.ReceiveQueryEvent(events[k]);
      } else {
        outcome := session.ReceiveCopyEvent(events[k]);
      }
      if outcome != Completed {
        return false;
      }
    }
    return true;
  }
}
