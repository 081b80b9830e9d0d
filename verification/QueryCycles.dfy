/** Simple queries: the client and the server while one is answered, and whole
    sessions that alternate between simple queries and batches. */
module QueryCycles {
  import opened Protocol
  import opened SessionState
  import opened SessionInvariant
  import opened PostgresBackend
  import opened Pipeline
  import opened PipelineRuns
  import opened PipelineTheorems

  // ------------------------------------------------------------------ server

  /** What a database answers in batches, and to a simple query and the COPY
      data it asks for. */
  datatype Database<!D> = Database(batches: Backend<D>, query: (D, Command) -> (D, seq<Event>))

  /** A server that is, or is not, reading COPY data for a simple query. */
  datatype QueryServer<D> = QueryServer(db: D, copying: bool)

  predicate Ends(answer: seq<Event>) {
    answer != [] && answer[|answer| - 1] == ReadyForQuery
  }

  /** A COPY is opened as the last word. */
  predicate AsksForData(answer: seq<Event>) {
    answer != [] && StartsWritableCopy(answer[|answer| - 1])
  }

  /** A writable COPY is opened and given up at once. */
  predicate OpensAndFails(answer: seq<Event>) {
    && |answer| >= 3 && answer[|answer| - 2..] == [ErrorResponse, ReadyForQuery]
    && AsksForData(answer[..|answer| - 2]) && OpensNone(answer[..|answer| - 3])
  }

  /** ReadyForQuery is the last word on a query, and the only word after an
      error; until then the server asks for COPY data or is reading it. */
  predicate LegalQueryAnswer(c: Command, answer: seq<Event>) {
    && (forall i :: 0 <= i < |answer| - 1 ==> answer[i] != ReadyForQuery)
    && (ErrorResponse in answer ==> Ends(answer))
    && (c.tag == Fail ==> ErrorResponse in answer)
    && (OpensNone(answer)
        || (c.tag != Data && AsksForData(answer) && OpensNone(answer[..|answer| - 1]))
        || (c.tag != Data && OpensAndFails(answer)))
    && (c.tag != Data ==> Ends(answer) || AsksForData(answer))
  }

  ghost predicate LegalDatabase<D(!new)>(q: Database<D>) {
    Legal(q.batches) && forall d, c :: LegalQueryAnswer(c, q.query(d, c).1)
  }

  /** Outside COPY the server ignores COPY messages, which answer a COPY that has
      failed; inside it ignores Flush and Sync. */
  function ServeQuery<D>(q: Database<D>, s: QueryServer<D>, c: Command): (QueryServer<D>, seq<Event>) {
    if c.tag == Query || (s.copying && c.tag in {Data, Done, Fail}) then
      var (db, answer) := q.query(s.db, c);
      (QueryServer(db, !Ends(answer)), answer)
    else (s, [])
  }

  function ServeQueue<D>(q: Database<D>, s: QueryServer<D>, cs: seq<Sent>): (QueryServer<D>, seq<Reply>)
    decreases cs
  {
    if cs == [] then (s, [])
    else
      var (t, answer) := ServeQuery(q, s, cs[0].command);
      var (u, rest) := ServeQueue(q, t, cs[1..]);
      (u, Label(answer, cs[0].batch) + rest)
  }

  lemma {:induction false} ServeQueueAppend<D>(q: Database<D>, s: QueryServer<D>, cs: seq<Sent>, sent: Sent)
    ensures var (t, front) := ServeQueue(q, s, cs);
            var (u, answer) := ServeQuery(q, t, sent.command);
            ServeQueue(q, s, cs + [sent]) == (u, front + Label(answer, sent.batch))
    decreases cs
  {
    if cs == [] {
      var (u, answer) := ServeQuery(q, s, sent.command);
      assert [] + [sent] == [sent] && Label(answer, sent.batch) + [] == [] + Label(answer, sent.batch);
    } else {
      assert (cs + [sent])[1..] == cs[1..] + [sent];
      var (t, answer) := ServeQuery(q, s, cs[0].command);
      ServeQueueAppend(q, t, cs[1..], sent);
      var (u, rest) := ServeQueue(q, t, cs[1..]);
      var more := Label(ServeQuery(q, u, sent.command).1, sent.batch);
      assert Label(answer, cs[0].batch) + (rest + more) == (Label(answer, cs[0].batch) + rest) + more;
    }
  }

  // ------------------------------------------------------------------- steps

  datatype QueryLink<D> = QueryLink(toServer: seq<Sent>, server: QueryServer<D>, toClient: seq<Reply>)

  /** A session between queries, with what has been written since the last one,
      or within one. */
  datatype Phase<D> =
    | InBatches(y: System<D>)
    | InQuery(client: State, link: QueryLink<D>)

  function Coming<D>(q: Database<D>, l: QueryLink<D>): seq<Reply> {
    l.toClient + ServeQueue(q, l.server, l.toServer).1
  }

  function End<D>(q: Database<D>, l: QueryLink<D>): QueryServer<D> {
    ServeQueue(q, l.server, l.toServer).0
  }

  datatype Move =
    | Batch(action: Action)
    | Ask(length: nat, sql: seq<byte>)
    | Feed(call: Call, payload: seq<byte>)
    | ServeNext
    | Read
    | Return

  /** The receive that fits the state: of a query, or of its COPY. */
  function ReadCall(s: State, e: Event): Call {
    if s.state == SimpleQueryActive then ReceiveQuery(e) else ReceiveCopy(e)
  }

  predicate CanMove<D>(q: Database<D>, p: Phase<D>, m: Move) {
    match (p, m)
    case (InBatches(y), Batch(a)) => Enabled(q.batches, y, a)
    case (InBatches(y), Ask(length, _)) => Permits(y.client, SendQuery(length)) && length <= MAXIMUM_MESSAGE_SIZE - 5
    case (InQuery(s, l), Feed(c, _)) => c in {SendCopyData, FinishCopy, AbortCopy} && Permits(s, c)
    case (InQuery(s, l), ServeNext) => l.toServer != []
    case (InQuery(s, l), Read) => l.toClient != [] && Perform(s, ReadCall(s, l.toClient[0].event)).outcome == Completed
    case (InQuery(s, l), Return) => s.state == Ready
    case _ => false
  }

  /** Where batches give way to a query and back, the server is taken to have
      read what was written before, to which it says nothing any more. */
  function Moved<D>(q: Database<D>, p: Phase<D>, m: Move): Phase<D>
    requires CanMove(q, p, m)
  {
    match (p, m)
    case (InBatches(y), Batch(a)) => InBatches(Next(q.batches, y, a))
    case (InBatches(y), Ask(length, sql)) =>
      var query := Sent(Command(Query, sql), 0);
      InQuery(Perform(y.client, SendQuery(length)).next,
              QueryLink([query], QueryServer(Final(q.batches, y.link).db, false), Outstanding(q.batches, y.link)))
    case (InQuery(s, l), Feed(c, payload)) =>
      InQuery(Perform(s, c).next, l.(toServer := l.toServer + [Sent(Command(Writes(c)[0], payload), 0)]))
    case (InQuery(s, l), ServeNext) =>
      var (t, answer) := ServeQuery(q, l.server, l.toServer[0].command);
      InQuery(s, QueryLink(l.toServer[1..], t, l.toClient + Label(answer, l.toServer[0].batch)))
    case (InQuery(s, l), Read) =>
      InQuery(Perform(s, ReadCall(s, l.toClient[0].event)).next, l.(toClient := l.toClient[1..]))
    case (InQuery(s, l), Return) =>
      InBatches(System(s, Link([], Server(End(q, l).db, Normal), Coming(q, l)), NoCopyPending, [], [], 0))
  }

  ghost predicate IsSession<D(!new)>(q: Database<D>, path: seq<Phase<D>>, moves: seq<Move>) {
    && |path| == |moves| + 1
    && forall i {:trigger moves[i]} :: 0 <= i < |moves| ==> CanMove(q, path[i], moves[i]) && path[i + 1] == Moved(q, path[i], moves[i])
  }

  // --------------------------------------------------------------- invariant

  /** A query is being answered: no Sync is counted, no batch is open. */
  predicate QueryState(s: State) {
    && Inv(s) && !s.pipelined && s.pendingSyncs == 0 && !s.batchOpen
    && (s.state == SimpleQueryActive || (InCopyState(s) && s.copy.origin == SimpleCopy))
  }

  predicate NoErrorIn(out: seq<Reply>) {
    forall i {:trigger out[i]} :: 0 <= i < |out| ==> !out[i].event.ErrorResponse?
  }

  /** One ReadyForQuery is to come, as the last word; until it is sent the server
      reads COPY data, which the client is writing or will be asked for. */
  predicate Answering(s: State, out: seq<Reply>, copying: bool) {
    && Readies(out) + (if copying then 1 else 0) == 1 && Copies(out) <= 1
    && (Copies(out) > 0 ==> !s.copy.sendOpen)
    && (!copying ==> out != [] && out[|out| - 1].event.ReadyForQuery?)
    && (copying ==> NoErrorIn(out) && if Copies(out) == 0 then s.copy.sendOpen else StartsWritableCopy(out[|out| - 1].event))
  }

  predicate QueryOver(s: State, out: seq<Reply>, copying: bool) {
    s == STARTED && out == [] && !copying
  }

  ghost predicate SessionInv<D(!new)>(q: Database<D>, p: Phase<D>) {
    match p
    case InBatches(y) => exists db :: Reached(q.batches, db, y)
    case InQuery(s, l) =>
      (QueryState(s) && Answering(s, Coming(q, l), End(q, l).copying)) || QueryOver(s, Coming(q, l), End(q, l).copying)
  }

  // ------------------------------------------------------------ what is coming

  lemma EndCounts(answer: seq<Event>, batch: nat)
    requires forall i :: 0 <= i < |answer| - 1 ==> answer[i] != ReadyForQuery
    ensures Readies(Label(answer, batch)) == if Ends(answer) then 1 else 0
  {
    var replies := Label(answer, batch);
    if answer != [] {
      var n := |answer| - 1;
      assert replies == replies[..n] + [replies[n]] && [replies[n]][1..] == [];
      CountAppend(replies[..n], [replies[n]]);
      NoneCounted(replies[..n]);
    }
  }

  lemma OneCopy(answer: seq<Event>, batch: nat, i: nat)
    requires i < |answer| && StartsWritableCopy(answer[i]) && OpensNone(answer[..i]) && OpensNone(answer[i + 1..])
    ensures Copies(Label(answer, batch)) == 1
  {
    var replies := Label(answer, batch);
    var front, last := replies[..i], replies[i + 1..];
    assert replies == (front + [replies[i]]) + last && [replies[i]][1..] == [];
    CountAppend(front, [replies[i]]);
    CountAppend(front + [replies[i]], last);
    NoneCounted(front);
    NoneCounted(last);
  }

  /** How many COPYs an answer opens. */
  lemma OpeningsCount(c: Command, answer: seq<Event>, batch: nat)
    requires LegalQueryAnswer(c, answer)
    ensures Copies(Label(answer, batch)) <= 1
    ensures Copies(Label(answer, batch)) > 0 ==> c.tag != Data
    ensures Copies(Label(answer, batch)) == 0 ==> c.tag == Data || Ends(answer)
    ensures Copies(Label(answer, batch)) > 0 && !Ends(answer) ==> AsksForData(answer)
  {
    hide Copies, OpensNone, OpensAndFails;
    if OpensNone(answer) {
      NoneOpened(answer, batch);
    } else if OpensAndFails(answer) {
      OpenedAndFailed(answer);
      OneCopy(answer, batch, |answer| - 3);
    } else {
      NothingOpened();
      assert answer[|answer| - 1 + 1..] == [];
      OneCopy(answer, batch, |answer| - 1);
    }
  }

  lemma NothingOpened()
    ensures OpensNone([])
  {
  }

  lemma NoneOpened(answer: seq<Event>, batch: nat)
    requires OpensNone(answer)
    ensures Copies(Label(answer, batch)) == 0 && !AsksForData(answer)
  {
    NoneCounted(Label(answer, batch));
  }

  lemma OpenedAndFailed(answer: seq<Event>)
    requires OpensAndFails(answer)
    ensures |answer| >= 3 && StartsWritableCopy(answer[|answer| - 3]) && Ends(answer)
    ensures OpensNone(answer[..|answer| - 3]) && OpensNone(answer[|answer| - 3 + 1..])
  {
    var last := answer[|answer| - 2..];
    assert answer[|answer| - 1] == last[1];
    assert answer[|answer| - 3 + 1..] == last;
    assert answer[..|answer| - 2][|answer| - 3] == answer[|answer| - 3];
  }

  /** What an answer adds while the server was reading COPY data, or first. */
  lemma AnswerComes(c: Command, out: seq<Reply>, answer: seq<Event>, batch: nat)
    requires LegalQueryAnswer(c, answer) && Readies(out) == 0 && Copies(out) == 0 && NoErrorIn(out)
    ensures var out' := out + Label(answer, batch);
            && Readies(out') == (if Ends(answer) then 1 else 0) && Copies(out') <= 1
            && (Copies(out') > 0 ==> c.tag != Data) && (Copies(out') == 0 ==> c.tag == Data || Ends(answer))
            && (Ends(answer) ==> out' != [] && out'[|out'| - 1].event.ReadyForQuery?)
            && (!Ends(answer) ==> NoErrorIn(out'))
            && (!Ends(answer) && Copies(out') > 0 ==> StartsWritableCopy(out'[|out'| - 1].event))
  {
    hide Readies, Copies, OpensNone, OpensAndFails;
    EndCounts(answer, batch);
    OpeningsCount(c, answer, batch);
    CountAppend(out, Label(answer, batch));
    assert forall i :: 0 <= i < |answer| ==> answer[i] in answer;
  }

  // ---------------------------------------------------------------- the client

  lemma AskedClient(s: State, length: nat)
    requires Inv(s) && Permits(s, SendQuery(length)) && length <= MAXIMUM_MESSAGE_SIZE - 5
    ensures var t := Perform(s, SendQuery(length)).next; QueryState(t) && !t.copy.sendOpen
  {
  }

  lemma FedClient(s: State, c: Call)
    requires QueryState(s) && c in {SendCopyData, FinishCopy, AbortCopy} && Permits(s, c)
    ensures var t := Perform(s, c).next;
            QueryState(t) && s.copy.sendOpen && (t.copy.sendOpen <==> c == SendCopyData)
  {
  }

  lemma ReadInQuery(s: State, e: Event)
    requires QueryState(s) && s.state == SimpleQueryActive && ApplyQueryEvent(s, e).outcome == Completed
    ensures var t := ApplyQueryEvent(s, e).next;
            && (e.ReadyForQuery? ==> t == STARTED)
            && (!e.ReadyForQuery? ==> QueryState(t) && t.copy.sendOpen == StartsWritableCopy(e))
  {
  }

  lemma ReadInCopy(s: State, e: Event)
    requires QueryState(s) && s.state != SimpleQueryActive && ApplyCopyEvent(s, e).outcome == Completed
    ensures var t := ApplyCopyEvent(s, e).next;
            && !StartsWritableCopy(e) && (e.ReadyForQuery? ==> t == STARTED)
            && (!e.ReadyForQuery? ==> QueryState(t) && t.copy.sendOpen == (s.copy.sendOpen && !e.ErrorResponse?))
  {
  }

  lemma ReadClient(s: State, e: Event)
    requires QueryState(s) && Perform(s, ReadCall(s, e)).outcome == Completed
    ensures var t := Perform(s, ReadCall(s, e)).next;
            && (e.ReadyForQuery? ==> t == STARTED)
            && (!e.ReadyForQuery? ==>
                  QueryState(t) && t.copy.sendOpen == (StartsWritableCopy(e) || (s.copy.sendOpen && !e.ErrorResponse?)))
  {
    hide ApplyQueryEvent, ApplyCopyEvent, Inv;
    if s.state == SimpleQueryActive { NotSending(s); ReadInQuery(s, e); } else { ReadInCopy(s, e); }
  }

  lemma NotSending(s: State)
    requires QueryState(s) && s.state == SimpleQueryActive
    ensures !s.copy.sendOpen
  {
  }

  // ------------------------------------------------------------- preservation

  lemma ReadKeepsAnswering(s: State, t: State, out: seq<Reply>, copying: bool)
    requires Answering(s, out, copying) && out != []
    requires var e := out[0].event;
             && (e.ReadyForQuery? ==> t == STARTED)
             && (!e.ReadyForQuery? ==>
                   QueryState(t) && t.copy.sendOpen == (StartsWritableCopy(e) || (s.copy.sendOpen && !e.ErrorResponse?)))
    ensures (QueryState(t) && Answering(t, out[1..], copying)) || QueryOver(t, out[1..], copying)
  {
    hide Readies, Copies, QueryState;
    HeadRemoved(out);
    NothingCounted();
  }

  lemma NothingCounted()
    ensures Readies([]) == 0 && Copies([]) == 0
  {
  }

  /** The client writes to a COPY: the server takes it, or ignores it. */
  lemma FeedKeepsAnswering<D(!new)>(q: Database<D>, s: State, t: State, out: seq<Reply>, end: QueryServer<D>, sent: Sent)
    requires LegalDatabase(q) && Answering(s, out, end.copying) && s.copy.sendOpen && sent.command.tag in {Data, Done, Fail}
    requires t.copy.sendOpen <==> sent.command.tag == Data
    ensures var (u, answer) := ServeQuery(q, end, sent.command);
            Answering(t, out + Label(answer, sent.batch), u.copying)
  {
    hide Readies, Copies, LegalQueryAnswer;
    var (u, answer) := ServeQuery(q, end, sent.command);
    if end.copying {
      assert LegalQueryAnswer(sent.command, q.query(end.db, sent.command).1);
      AnswerComes(sent.command, out, answer, sent.batch);
      FailEnds(sent.command, answer);
    } else {
      assert out + Label(answer, sent.batch) == out;
    }
  }

  lemma FailEnds(c: Command, answer: seq<Event>)
    requires LegalQueryAnswer(c, answer)
    ensures c.tag == Fail ==> Ends(answer)
  {
  }

  lemma QueryIsAnswered<D(!new)>(q: Database<D>, t: State, db: D, query: Sent)
    requires LegalDatabase(q) && query.command.tag == Query && !t.copy.sendOpen
    ensures var (u, replies) := ServeQueue(q, QueryServer(db, false), [query]); Answering(t, [] + replies, u.copying)
  {
    hide Readies, Copies, LegalQueryAnswer;
    var answer := q.query(db, query.command).1;
    assert LegalQueryAnswer(query.command, answer);
    NothingCounted();
    AnswerComes(query.command, [], answer, query.batch);
    var more := Label(answer, query.batch);
    assert ServeQueue(q, QueryServer(db, false), [query]).1 == more + [] == more && [] + more == more;
  }

  lemma FeedComes<D>(q: Database<D>, l: QueryLink<D>, sent: Sent)
    ensures var m := l.(toServer := l.toServer + [sent]);
            var (u, answer) := ServeQuery(q, End(q, l), sent.command);
            End(q, m) == u && Coming(q, m) == Coming(q, l) + Label(answer, sent.batch)
  {
    ServeQueueAppend(q, l.server, l.toServer, sent);
    var more := Label(ServeQuery(q, End(q, l), sent.command).1, sent.batch);
    var rest := ServeQueue(q, l.server, l.toServer).1;
    assert l.toClient + (rest + more) == (l.toClient + rest) + more;
  }

  lemma ServingComes<D>(q: Database<D>, l: QueryLink<D>)
    requires l.toServer != []
    ensures var (t, answer) := ServeQuery(q, l.server, l.toServer[0].command);
            var m := QueryLink(l.toServer[1..], t, l.toClient + Label(answer, l.toServer[0].batch));
            End(q, m) == End(q, l) && Coming(q, m) == Coming(q, l)
  {
    var (t, answer) := ServeQuery(q, l.server, l.toServer[0].command);
    var more, rest := Label(answer, l.toServer[0].batch), ServeQueue(q, t, l.toServer[1..]).1;
    assert (l.toClient + more) + rest == l.toClient + (more + rest);
  }

  lemma ReadComes<D>(q: Database<D>, l: QueryLink<D>)
    requires l.toClient != []
    ensures var m := l.(toClient := l.toClient[1..]);
            && End(q, m) == End(q, l) && Coming(q, l) != [] && Coming(q, l)[0] == l.toClient[0]
            && Coming(q, m) == Coming(q, l)[1..]
  {
  }

  /** A query is asked when nothing is left of the batches before it. */
  lemma AskKeepsInv<D(!new)>(q: Database<D>, y: System<D>, db: D, length: nat, sql: seq<byte>)
    requires LegalDatabase(q) && Reached(q.batches, db, y) && CanMove(q, InBatches(y), Ask(length, sql))
    ensures Outstanding(q.batches, y.link) == [] && Final(q.batches, y.link).mode == Normal
    ensures SessionInv(q, Moved(q, InBatches(y), Ask(length, sql)))
  {
    hide Perform, Legal, Reached, ServeQueue, Answering, QueryState, Readies, Copies, ErrorsSettled, Numbered;
    ReachedInv(q.batches, db, y);
    AskedClient(y.client, length);
    QueryIsAnswered(q, Perform(y.client, SendQuery(length)).next, Final(q.batches, y.link).db, Sent(Command(Query, sql), 0));
  }

  /** And when it is over the session is as one that has just started. */
  lemma ReturnKeepsInv<D(!new)>(q: Database<D>, s: State, l: QueryLink<D>)
    requires s.state == Ready && SessionInv(q, InQuery(s, l))
    ensures SessionInv(q, Moved(q, InQuery(s, l), Return))
    ensures Moved(q, InQuery(s, l), Return) == InBatches(StartOf(End(q, l).db))
  {
    hide Coming, End, Answering, Inv, Reached;
    ReachedStart(q.batches, End(q, l).db);
  }

  lemma FeedKeepsInv<D(!new)>(q: Database<D>, s: State, l: QueryLink<D>, c: Call, payload: seq<byte>)
    requires LegalDatabase(q) && SessionInv(q, InQuery(s, l)) && CanMove(q, InQuery(s, l), Feed(c, payload))
    ensures SessionInv(q, Moved(q, InQuery(s, l), Feed(c, payload)))
  {
    hide Perform, LegalDatabase, Coming, End, Answering, QueryState, ServeQuery;
    var sent := Sent(Command(Writes(c)[0], payload), 0);
    NothingFedWhenOver(s, c);
    FedClient(s, c);
    FeedComes(q, l, sent);
    FeedKeepsAnswering(q, s, Perform(s, c).next, Coming(q, l), End(q, l), sent);
  }

  lemma NothingFedWhenOver(s: State, c: Call)
    requires c in {SendCopyData, FinishCopy, AbortCopy} && Permits(s, c)
    ensures s != STARTED
  {
  }

  lemma ReadKeepsInv<D(!new)>(q: Database<D>, s: State, l: QueryLink<D>)
    requires SessionInv(q, InQuery(s, l)) && CanMove(q, InQuery(s, l), Read)
    ensures SessionInv(q, Moved(q, InQuery(s, l), Read))
  {
    hide Perform, Coming, End, Answering, QueryState;
    ReadComes(q, l);
    ReadClient(s, l.toClient[0].event);
    ReadKeepsAnswering(s, Perform(s, ReadCall(s, l.toClient[0].event)).next, Coming(q, l), End(q, l).copying);
  }

  lemma MoveKeepsInv<D(!new)>(q: Database<D>, p: Phase<D>, m: Move)
    requires LegalDatabase(q) && SessionInv(q, p) && CanMove(q, p, m)
    ensures SessionInv(q, Moved(q, p, m))
  {
    hide Reached, Perform, Coming, End, Answering, QueryState, Enabled, Next, Permits;
    match (p, m)
    case (InBatches(y), Batch(a)) =>
      var db :| Reached(q.batches, db, y);
      ReachedNext(q.batches, db, y, a);
    case (InBatches(y), Ask(length, sql)) =>
      var db :| Reached(q.batches, db, y);
      AskKeepsInv(q, y, db, length, sql);
    case (InQuery(s, l), Feed(c, payload)) => FeedKeepsInv(q, s, l, c, payload);
    case (InQuery(s, l), ServeNext) => ServingComes(q, l);
    case (InQuery(s, l), Read) => ReadKeepsInv(q, s, l);
    case (InQuery(s, l), Return) => ReturnKeepsInv(q, s, l);
    case _ =>
  }

  // ---------------------------------------------------------------- theorems

  lemma {:induction false} SessionKeepsInv<D(!new)>(q: Database<D>, db: D, path: seq<Phase<D>>, moves: seq<Move>, k: nat)
    requires LegalDatabase(q) && IsSession(q, path, moves) && path[0] == InBatches(StartOf(db)) && k < |path|
    ensures SessionInv(q, path[k])
    decreases k
  {
    hide Reached, CanMove, Moved, LegalDatabase;
    if k == 0 {
      ReachedStart(q.batches, db);
    } else {
      assert moves[k - 1] == moves[k - 1];
      SessionKeepsInv(q, db, path, moves, k - 1);
      MoveKeepsInv(q, path[k - 1], moves[k - 1]);
    }
  }

  /** Through a whole session of queries and batches: between queries it is as in
      a run of batches alone, so that what holds of those holds of it, and a
      query finds nothing of them left; within a query no Sync is counted, and
      exactly one ReadyForQuery is to come until it has been read. */
  lemma SessionsAreRuns<D(!new)>(q: Database<D>, db: D, path: seq<Phase<D>>, moves: seq<Move>, k: nat)
    requires LegalDatabase(q) && IsSession(q, path, moves) && path[0] == InBatches(StartOf(db)) && k < |path|
    ensures match path[k]
            case InBatches(y) =>
              && (exists d :: Reached(q.batches, d, y) && Conserved(q.batches, d, y))
              && (y.client.state == Ready ==> Outstanding(q.batches, y.link) == [] && y.client.pendingSyncs == 0)
            case InQuery(s, l) =>
              && s.pendingSyncs == 0
              && Readies(Coming(q, l)) + (if End(q, l).copying then 1 else 0) == if s.state == Ready then 0 else 1
  {
    hide Conserved, Legal, Reached, Readies, Copies, Perform, Permits, Coming, End, ErrorsSettled, Numbered;
    SessionKeepsInv(q, db, path, moves, k);
    match path[k]
    case InBatches(y) =>
      var d :| Reached(q.batches, d, y);
      ReachedInv(q.batches, d, y);
      SyncConservation(q.batches, d, y);
    case InQuery(s, l) => NothingCounted();
  }

  /** A query never leaves both sides waiting for each other: when nothing is on
      its way to the client, the client may write to the COPY, or is ready. */
  lemma QueryIsNeverStuck<D(!new)>(q: Database<D>, db: D, path: seq<Phase<D>>, moves: seq<Move>, k: nat)
    requires LegalDatabase(q) && IsSession(q, path, moves) && path[0] == InBatches(StartOf(db)) && k < |path|
    ensures path[k].InQuery? && Coming(q, path[k].link) == [] && path[k].client.state != Ready ==>
              forall c :: c in {SendCopyData, FinishCopy, AbortCopy} ==> Permits(path[k].client, c)
  {
    hide Reached, CanMove, Moved, LegalDatabase, Coming, End, Permits;
    SessionKeepsInv(q, db, path, moves, k);
    NothingCounted();
    if path[k].InQuery? && path[k].client.copy.sendOpen { MayFeed(path[k].client); }
  }

  lemma MayFeed(s: State)
    requires QueryState(s) && s.copy.sendOpen
    ensures forall c :: c in {SendCopyData, FinishCopy, AbortCopy} ==> Permits(s, c)
  {
  }
}
