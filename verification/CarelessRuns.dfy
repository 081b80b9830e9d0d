/** What becomes of a session whose application is not careful about COPY: the
    batches that some server turns against it, and one run to the bitter end. */
module CarelessRuns {
  import opened Protocol
  import opened SessionState
  import opened SessionInvariant
  import opened PostgresBackend
  import opened Pipeline
  import opened PipelineRuns
  import opened PipelineTheorems
  import opened CopyBatches
  import opened Discipline

  /** A run outside pipeline mode, careful or not. */
  ghost predicate IsAnyRun<D(!new)>(b: Backend<D>, path: seq<System<D>>, actions: seq<Action>) {
    && |path| == |actions| + 1
    && forall i {:trigger actions[i]} :: 0 <= i < |actions| ==>
         Possible(b, path[i], actions[i]) && !actions[i].SwitchMode? && path[i + 1] == Next(b, path[i], actions[i])
  }

  ghost predicate Anyhow<D(!new)>(b: Backend<D>, db: D, y: System<D>) {
    exists path, actions {:trigger IsAnyRun(b, path, actions)} ::
      IsAnyRun(b, path, actions) && path[0] == StartOf(db) && path[|actions|] == y
  }

  lemma AnyhowStart<D(!new)>(b: Backend<D>, db: D)
    ensures Anyhow(b, db, StartOf(db))
  {
    assert IsAnyRun(b, [StartOf(db)], []);
  }

  lemma AnyhowNext<D(!new)>(b: Backend<D>, db: D, y: System<D>, a: Action)
    requires Anyhow(b, db, y) && Possible(b, y, a) && !a.SwitchMode?
    ensures Anyhow(b, db, Next(b, y, a))
  {
    hide Possible, Next;
    var path, actions :| IsAnyRun(b, path, actions) && path[0] == StartOf(db) && path[|actions|] == y;
    var path', actions' := path + [Next(b, y, a)], actions + [a];
    forall i | 0 <= i < |actions'|
      ensures Possible(b, path'[i], actions'[i]) && !actions'[i].SwitchMode? && path'[i + 1] == Next(b, path'[i], actions'[i])
    {
      if i < |actions| { assert actions'[i] == actions[i]; }
    }
    assert IsAnyRun(b, path', actions');
  }

  /** A write, and what the server makes of it. */
  lemma AnyWrite<D(!new)>(b: Backend<D>, db: D, y: System<D>, c: Call, payload: seq<byte>) returns (z: System<D>)
    requires Anyhow(b, db, y) && y.link.toServer == [] && Possible(b, y, Write(c, payload))
    ensures var sent := Sent(Command(Writes(c)[0], payload), Syncs(y.written));
            var (server, answer) := Serve(b, y.link.server, sent.command);
            && Anyhow(b, db, z) && z.client == Perform(y.client, c).next
            && z.link == Link([], server, y.link.toClient + Label(answer, sent.batch))
            && z.written == y.written + [sent] && z.received == y.received
  {
    hide Writable, Serve, Perform, Anyhow;
    AnyhowNext(b, db, y, Write(c, payload));
    var y1 := Next(b, y, Write(c, payload));
    WriteQueues(b, y, c, Command(Writes(c)[0], payload));
    AnyhowNext(b, db, y1, ServeOne);
    z := Next(b, y1, ServeOne);
  }

  // ----------------------------------------------------------------- batches

  type Written = (Call, seq<byte>)

  /** Calls that write a batch, its Sync left out. */
  predicate WriteBatch(calls: seq<Written>) {
    forall i :: 0 <= i < |calls| ==> IsBatchCall(calls[i].0)
  }

  predicate IsBatchCall(c: Call) {
    |Writes(c)| == 1 && (Opens(Writes(c)[0]) || Writes(c)[0] == Flush)
  }

  function Sents(calls: seq<Written>): seq<Sent>
    requires WriteBatch(calls)
  {
    seq(|calls|, i requires 0 <= i < |calls| => Sent(Command(Writes(calls[i].0)[0], calls[i].1), 0))
  }

  const SYNC := Sent(Command(Sync, []), 0)

  function ClientAfter(calls: seq<Written>): State {
    if calls == [] then STARTED else Perform(ClientAfter(calls[..|calls| - 1]), calls[|calls| - 1].0).next
  }

  /** A session that has just become ready permits the calls one after the other. */
  predicate Performable(calls: seq<Written>) {
    forall k :: 0 <= k < |calls| ==> Permits(ClientAfter(calls[..k]), calls[k].0)
  }

  predicate Extending(s: State, state: OperationState) {
    Strict(s) && s.state == state && !s.pipelined && s.pendingSyncs == 0 && s.copy == NO_COPY
  }

  lemma BatchCall(s: State, c: Call)
    requires Extending(s, Ready) || Extending(s, ExtendedQueryActive)
    requires IsBatchCall(c) && Permits(s, c)
    ensures Extending(Perform(s, c).next, ExtendedQueryActive)
  {
    hide Inv;
    CallKeepsInv(s, c);
  }

  lemma MaySynchronizeBatch(s: State)
    requires Extending(s, ExtendedQueryActive)
    ensures Strict(s) && Permits(s, Synchronize) && !s.pipelined && s.pendingSyncs == 0
  {
  }

  lemma {:induction false} ClientOfBatch(calls: seq<Written>)
    requires WriteBatch(calls) && Performable(calls)
    ensures Extending(ClientAfter(calls), if calls == [] then Ready else ExtendedQueryActive)
    decreases |calls|
  {
    hide Permits, Perform;
    if calls != [] {
      var front := calls[..|calls| - 1];
      assert forall k :: 0 <= k < |front| ==> front[..k] == calls[..k];
      ClientOfBatch(front);
      BatchCall(ClientAfter(front), calls[|calls| - 1].0);
    }
  }

  /** All of the batch is written before anything is read. */
  lemma {:induction false} BatchIsWritten<D(!new)>(b: Backend<D>, db: D, calls: seq<Written>) returns (y: System<D>)
    requires WriteBatch(calls) && Performable(calls)
    ensures Anyhow(b, db, y) && y.client == ClientAfter(calls) && y.written == Sents(calls) && y.received == []
    ensures var (server, replies) := ServeAll(b, Server(db, Normal), Sents(calls));
            y.link == Link([], server, replies)
    decreases |calls|
  {
    hide Permits, Perform, Anyhow, Serve, ServeAll, Sents, WriteBatch;
    if calls == [] {
      NothingSent(b, db);
      AnyhowStart(b, db);
      y := StartOf(db);
    } else {
      var n := |calls| - 1;
      var front, c := calls[..n], calls[n].0;
      assert forall k :: 0 <= k < n ==> front[..k] == calls[..k];
      LastSent(calls);
      var x := BatchIsWritten(b, db, front);
      NoSyncs(Sents(front));
      assert Permits(ClientAfter(calls[..n]), c);
      assert Possible(b, x, Write(c, calls[n].1));
      y := AnyWrite(b, db, x, c, calls[n].1);
      var sent := Sent(Command(Writes(c)[0], calls[n].1), 0);
      ServeAllAppend(b, Server(db, Normal), Sents(front), [sent]);
      ServeOneOnly(b, x.link.server, sent);
    }
  }

  lemma NothingSent<D>(b: Backend<D>, db: D)
    ensures WriteBatch([]) && Sents([]) == [] && ServeAll(b, Server(db, Normal), []) == (Server(db, Normal), [])
  {
  }

  lemma LastSent(calls: seq<Written>)
    requires WriteBatch(calls) && calls != []
    ensures var front, last := calls[..|calls| - 1], calls[|calls| - 1];
            && WriteBatch(front) && IsBatchCall(last.0) && !last.0.SendQuery?
            && Sents(calls) == Sents(front) + [Sent(Command(Writes(last.0)[0], last.1), 0)]
            && forall i :: 0 <= i < |Sents(front)| ==> Sents(front)[i].command.tag != Sync
  {
    assert IsBatchCall(calls[|calls| - 1].0);
    assert forall i :: 0 <= i < |calls| - 1 ==> IsBatchCall(calls[i].0);
  }

  lemma ServeOneOnly<D>(b: Backend<D>, s: Server<D>, c: Sent)
    ensures var (t, answer) := Serve(b, s, c.command); ServeAll(b, s, [c]) == (t, Label(answer, c.batch))
  {
    var (t, answer) := Serve(b, s, c.command);
    assert Label(answer, c.batch) + [] == Label(answer, c.batch);
  }

  lemma {:induction false} NoSyncs(cs: seq<Sent>)
    requires forall i :: 0 <= i < |cs| ==> cs[i].command.tag != Sync
    ensures Syncs(cs) == 0
    decreases cs
  {
    if cs != [] { NoSyncs(cs[1..]); }
  }

  /** The first thing an eager server says is that it opens the COPY. */
  lemma {:induction false} EagerSaysCopyFirst(copies: Command -> Feeding, batch: seq<Sent>, sync: Sent)
    requires IsBatch(batch) && !CopyIsLast(copies, batch)
    ensures var replies := Answered(Eager(copies), Server(true, Normal), batch, sync);
            replies != [] && replies[0].event == CopyInResponse
    decreases batch
  {
    var b, s := Eager(copies), Server(true, Normal);
    assert batch[0] in batch && (batch + [sync])[1..] == batch[1..] + [sync];
    var (t, answer) := Serve(b, s, batch[0].command);
    if StartsCopyAt(copies, batch[0].command) {
      EagerOpens(copies, true, batch[0]);
    } else {
      EagerSaysCopyFirst(copies, batch[1..], sync);
      assert Label(answer, batch[0].batch) == [];
    }
  }

  lemma EagerReplies(copies: Command -> Feeding, batch: seq<Sent>)
    requires IsBatch(batch) && !CopyIsLast(copies, batch)
    ensures var replies := ServeAll(Eager(copies), Server(true, Normal), batch + [SYNC]).1;
            replies != [] && replies[0].event == CopyInResponse && Readies(replies[1..]) == 1 && Copies(replies[1..]) == 0
    ensures Legal(Eager(copies)) && Syncs(batch) == 0
  {
    EagerIsLegal(copies);
    InterruptedCopyYieldsTwoEnds(copies, true, batch, SYNC);
    EagerSaysCopyFirst(copies, batch, SYNC);
    HeadRemoved(Answered(Eager(copies), Server(true, Normal), batch, SYNC));
    forall i | 0 <= i < |batch| ensures batch[i].command.tag != Sync { assert batch[i] in batch; }
    NoSyncs(batch);
  }

  /** A batch that goes on after the Execute of a COPY, or has one with which the
      server need not wait: with an eager server the client holds no Sync outstanding while a ReadyForQuery is still to come. */
  lemma InterruptedCopyLosesASync(copies: Command -> Feeding, calls: seq<Written>) returns (z: System<bool>)
    requires WriteBatch(calls) && Performable(calls) && !CopyIsLast(copies, Sents(calls))
    ensures Legal(Eager(copies)) && Anyhow(Eager(copies), true, z) && z.written == Sents(calls) + [SYNC]
    ensures z.link.toServer == [] && z.client.pendingSyncs == 0 && Readies(z.link.toClient) == 1
    ensures !Conserved(Eager(copies), true, z)
  {
    hide Perform, Permits, Anyhow, Eager, Serve, ServeAll, Legal, Readies, Copies, Sents, WriteBatch, CopyIsLast, Performable, Conserved;
    var b := Eager(copies);
    NotEmpty(copies, calls);
    EagerReplies(copies, Sents(calls));
    var y := BatchIsWritten(b, true, calls);
    ClientOfBatch(calls);
    MaySynchronizeBatch(y.client);
    SyncedThenCopyIn(y.client);
    var x := AnyWrite(b, true, y, Synchronize, []);
    ServeAllAppend(b, Server(true, Normal), Sents(calls), [SYNC]);
    ServeOneOnly(b, y.link.server, SYNC);
    AnyhowNext(b, true, x, Receive(false));
    z := Next(b, x, Receive(false));
    CountIsWrong(b, true, z);
  }

  lemma NotEmpty(copies: Command -> Feeding, calls: seq<Written>)
    requires WriteBatch(calls) && !CopyIsLast(copies, Sents(calls))
    ensures calls != [] && IsBatch(Sents(calls))
  {
  }

  // ------------------------------------------------------------ the exact batches

  lemma {:induction false} OnlyFlushAfterCopy(copies: Command -> Feeding, batch: seq<Sent>, j: nat, i: nat)
    requires CopyIsLast(copies, batch) && j <= i < |batch| && StartsCopyAt(copies, batch[j].command)
    ensures i > j ==> batch[i].command.tag == Flush
    ensures copies(batch[j].command).Patient?
    decreases j
  {
    if StartsCopyAt(copies, batch[0].command) {
      if i > 0 { assert batch[1..][i - 1] in batch[1..]; }
    } else {
      OnlyFlushAfterCopy(copies, batch[1..], j - 1, i - 1);
    }
  }

  lemma EventStaysUnpipelined(s: State, e: Event)
    requires !s.pipelined
    ensures !ApplyExtendedEvent(s, e, s.pendingSyncs > 0).next.pipelined && !ApplyQueryEvent(s, e).next.pipelined
  {
  }

  lemma CopyStaysUnpipelined(s: State, e: Event)
    requires !s.pipelined
    ensures !ApplyCopyEvent(s, e).next.pipelined
  {
  }

  lemma StaysUnpipelined(s: State, c: Call)
    requires !s.pipelined && c != EnterPipelineMode
    ensures !Perform(s, c).next.pipelined
  {
    hide ApplyExtendedEvent, ApplyQueryEvent, ApplyCopyEvent, Permits, MayWrite;
    match c
    case ReceiveQuery(e) => EventStaysUnpipelined(s, e);
    case ReceiveExtended(e) => EventStaysUnpipelined(s, e);
    case ReceiveCopy(e) => CopyStaysUnpipelined(s, e);
    case _ =>
  }

  /** What is unanswered is a COPY that was written, and one Sync may follow. */
  predicate Waits(copies: Command -> Feeding, cs: seq<Sent>, pending: Pending) {
    && !pending.SyncMustWait?
    && (pending.SyncMayFollow? ==> exists j :: 0 <= j < |cs| && StartsCopyAt(copies, cs[j].command))
  }

  /** The next command of the batch is written with care. */
  lemma BatchWriteIsCareful(copies: Command -> Feeding, calls: seq<Written>, w: seq<Sent>, sent: Sent, s: State, pending: Pending)
    requires WriteBatch(calls) && CopyIsLast(copies, Sents(calls)) && w + [sent] <= Sents(calls) + [SYNC]
    requires !s.pipelined && s.pendingSyncs <= Syncs(w) && Waits(copies, w, pending)
    ensures Careful(copies, s, pending, sent.command)
    ensures Waits(copies, w + [sent], PendingAfter(copies, pending, sent.command))
  {
    hide CopyIsLast, StartsCopyAt;
    var all, n := Sents(calls) + [SYNC], |w|;
    var w' := w + [sent];
    assert w'[n] == sent == all[n];
    assert forall i :: 0 <= i < n ==> w'[i] == w[i] == all[i];
    if pending.SyncMayFollow? {
      var j :| 0 <= j < n && StartsCopyAt(copies, w[j].command);
      assert StartsCopyAt(copies, w'[j].command);
      if n < |Sents(calls)| {
        OnlyFlushAfterCopy(copies, Sents(calls), j, n);
      } else {
        forall i | 0 <= i < |w| ensures w[i].command.tag != Sync {
          assert w[i] == Sents(calls)[i] && IsBatchCall(calls[i].0);
        }
        NoSyncs(w);
      }
    } else if StartsCopyAt(copies, sent.command) {
      assert StartsCopyAt(copies, w'[n].command);
      SyncIsNoCopy(copies);
      OnlyFlushAfterCopy(copies, Sents(calls), n, n);
    }
  }

  lemma WaitsOn(copies: Command -> Feeding, cs: seq<Sent>, pending: Pending, e: Event)
    ensures Waits(copies, cs, NoCopyPending)
    ensures Waits(copies, cs, pending) ==> Waits(copies, cs, PendingAfterReply(pending, e))
  {
  }

  lemma SyncIsNoCopy(copies: Command -> Feeding)
    ensures !StartsCopyAt(copies, SYNC.command)
  {
  }

  lemma BatchStepIsCareful<D(!new)>(b: Backend<D>, db: D, y: System<D>, a: Action, calls: seq<Written>)
    requires Legal(b) && WriteBatch(calls) && CopyIsLast(b.copies, Sents(calls))
    requires Reached(b, db, y) && !y.client.pipelined && Waits(b.copies, y.written, y.pending)
    requires Possible(b, y, a) && !a.SwitchMode? && Next(b, y, a).written <= Sents(calls) + [SYNC]
    ensures var z := Next(b, y, a);
            Enabled(b, y, a) && !z.client.pipelined && Waits(b.copies, z.written, z.pending)
  {
    hide Perform, Permits, Legal, Reached, InBalance, Faithful, Serve, Waits, CopyIsLast, Careful, WriteBatch, Sents, PendingAfter;
    match a
    case Write(c, payload) =>
      StaysUnpipelined(y.client, c);
      ReachedInv(b, db, y);
      BatchWriteIsCareful(b.copies, calls, y.written, Sent(Command(Writes(c)[0], payload), Syncs(y.written)), y.client, y.pending);
    case ServeOne =>
    case Receive(fromCopy) =>
      StaysUnpipelined(y.client, ReceiveCall(fromCopy, y.link.toClient[0].event));
      WaitsOn(b.copies, y.written, y.pending, y.link.toClient[0].event);
    case SwitchMode(_) =>
  }

  lemma {:induction false} BatchRunIsCareful<D(!new)>(b: Backend<D>, db: D, path: seq<System<D>>, actions: seq<Action>, k: nat, calls: seq<Written>)
    requires Legal(b) && WriteBatch(calls) && CopyIsLast(b.copies, Sents(calls))
    requires IsAnyRun(b, path, actions) && path[0] == StartOf(db) && k < |path| && path[k].written <= Sents(calls) + [SYNC]
    ensures var y := path[k];
            Reached(b, db, y) && !y.client.pipelined && Waits(b.copies, y.written, y.pending)
    decreases k
  {
    hide Possible, Careful, Next, Legal, Reached, Waits, CopyIsLast;
    if k == 0 {
      ReachedStart(b, db);
      WaitsOn(b.copies, [], NoCopyPending, Notice);
    } else {
      var y, a := path[k - 1], actions[k - 1];
      HistoryGrows(b, y, a);
      BatchRunIsCareful(b, db, path, actions, k - 1, calls);
      BatchStepIsCareful(b, db, y, a, calls);
      ReachedNext(b, db, y, a);
    }
  }

  /** With COPYs that wait, and nothing but Flush after them, the count is right in every run that
      writes the batch and its Sync, whatever it reads when. */
  lemma CopyLastConserves<D(!new)>(b: Backend<D>, db: D, calls: seq<Written>, y: System<D>)
    requires Legal(b) && WriteBatch(calls) && CopyIsLast(b.copies, Sents(calls))
    requires Anyhow(b, db, y) && y.written <= Sents(calls) + [SYNC]
    ensures Conserved(b, db, y)
  {
    hide Conserved, Legal, Reached;
    var path, actions :| IsAnyRun(b, path, actions) && path[0] == StartOf(db) && path[|actions|] == y;
    BatchRunIsCareful(b, db, path, actions, |actions|, calls);
    SyncConservation(b, db, y);
  }

  ghost predicate CountsRight(copies: Command -> Feeding, written: seq<Sent>) {
    forall b: Backend<bool>, db, y :: Legal(b) && b.copies == copies && Anyhow(b, db, y) && y.written <= written ==> Conserved(b, db, y)
  }

  /** The batches with which the Sync count stays right, whatever legal server
      reads them and whatever is read when, are those in which the server waits
      with each COPY and nothing but Flush follows its Execute. */
  lemma BatchConservesIff(copies: Command -> Feeding, calls: seq<Written>)
    requires WriteBatch(calls) && Performable(calls)
    ensures CopyIsLast(copies, Sents(calls)) <==> CountsRight(copies, Sents(calls) + [SYNC])
  {
    hide Conserved, Legal, Anyhow, CopyIsLast, Eager;
    if CopyIsLast(copies, Sents(calls)) {
      forall b: Backend<bool>, db, y | Legal(b) && b.copies == copies && Anyhow(b, db, y) && y.written <= Sents(calls) + [SYNC]
        ensures Conserved(b, db, y)
      {
        CopyLastConserves(b, db, calls, y);
      }
    } else {
      EagerCopies(copies);
      var z := InterruptedCopyLosesASync(copies, calls);
    }
  }

  lemma EagerCopies(copies: Command -> Feeding)
    ensures Eager(copies).copies == copies
  {
  }

  // ------------------------------------------------------ a second Sync, to the end

  function ExporterSays(c: Command): seq<Event> {
    match c.tag
    case Bind => [BindComplete]
    case Execute => if c.payload == [1] then [CopyInResponse] else [CopyOutResponse, CopyDone, CommandComplete]
    case Done => [CommandComplete]
    case Fail => [ErrorResponse]
    case _ => []
  }

  /** A server on which portal 1 copies into a table and the others out of one. */
  function Exporter(): Backend<bool> {
    Backend((d: bool, c: Command) => (d, ExporterSays(c)), (d: bool) => (d, []), (c: Command) => if c.payload == [1] then Patient else NoFeed)
  }

  lemma ExporterIsLegal()
    ensures Legal(Exporter())
  {
  }

  function Heard(replies: seq<Reply>): seq<Event> {
    seq(|replies|, i requires 0 <= i < |replies| => replies[i].event)
  }

  ghost predicate At(y: System<bool>, s: State, coming: seq<Event>, mode: Mode) {
    && Anyhow(Exporter(), true, y) && y.client == s
    && y.link.toServer == [] && y.link.server == Server(true, mode) && Heard(y.link.toClient) == coming
  }

  function ServerAfter(mode: Mode, command: Command): (Mode, seq<Event>) {
    var (server, answer) := Serve(Exporter(), Server(true, mode), command);
    (server.mode, answer)
  }

  lemma Writing(y: System<bool>, s: State, coming: seq<Event>, mode: Mode, c: Call, payload: seq<byte>) returns (z: System<bool>)
    requires At(y, s, coming, mode) && |Writes(c)| == 1 && Writable(s, c, Command(Writes(c)[0], payload))
    ensures var (mode', answer) := ServerAfter(mode, Command(Writes(c)[0], payload));
            At(z, Perform(s, c).next, coming + answer, mode')
  {
    hide Anyhow, Perform, Permits;
    z := AnyWrite(Exporter(), true, y, c, payload);
  }

  lemma Reading(y: System<bool>, s: State, coming: seq<Event>, mode: Mode, fromCopy: bool) returns (z: System<bool>)
    requires At(y, s, coming, mode) && coming != []
    requires Perform(s, ReceiveCall(fromCopy, coming[0])).outcome == Completed
    ensures At(z, Perform(s, ReceiveCall(fromCopy, coming[0])).next, coming[1..], mode)
  {
    hide Anyhow, Perform;
    AnyhowNext(Exporter(), true, y, Receive(fromCopy));
    z := Next(Exporter(), y, Receive(fromCopy));
  }

  const BOUND := STARTED.(state := ExtendedQueryActive, batchOpen := true, boundInCycle := true)
  const SYNCED := STARTED.(state := AwaitingReady, pendingSyncs := 1)
  const EXPORTING := STARTED.(state := CopyOutActive, pendingSyncs := 1, copy := Copy(ExtendedCopy, false, true, false, true))
  const EXPORTED := SYNCED.(pendingSyncs := 2, copy := Copy(ExtendedCopy, false, false, false, true))
  const IMPORTING := STARTED.(state := CopyInActive, pendingSyncs := 1, copy := Copy(ExtendedCopy, true, false, false, false))

  lemma BothCopiesAreSynced() returns (y: System<bool>)
    ensures At(y, SYNCED, [BindComplete, CopyOutResponse, CopyDone, CommandComplete, CopyInResponse], ReadingCopy)
  {
    hide Anyhow;
    AnyhowStart(Exporter(), true);
    y := StartOf(true);
    y := Writing(y, STARTED, [], Normal, BindPortal, []);
    y := Writing(y, BOUND, [BindComplete], Normal, ExecutePortal, [0]);
    y := Writing(y, BOUND, [BindComplete, CopyOutResponse, CopyDone, CommandComplete], Normal, ExecutePortal, [1]);
    y := Writing(y, BOUND, [BindComplete, CopyOutResponse, CopyDone, CommandComplete, CopyInResponse], ReadingCopy, Synchronize, []);
  }

  lemma Tails(a: Event, b: Event, c: Event, d: Event, e: Event)
    ensures [a, b, c, d, e][1..] == [b, c, d, e] && [b, c, d, e][1..] == [c, d, e] && [c, d, e][1..] == [d, e]
    ensures [d, e][1..] == [e] && [e][1..] == [] && [c, d, e] + [] == [c, d, e] && [] + [e] == [e]
  {
  }

  lemma ExportIsRead(x: System<bool>) returns (y: System<bool>)
    requires At(x, SYNCED, [BindComplete, CopyOutResponse, CopyDone, CommandComplete, CopyInResponse], ReadingCopy)
    ensures At(y, EXPORTING, [CopyDone, CommandComplete, CopyInResponse], ReadingCopy)
  {
    hide At;
    Tails(BindComplete, CopyOutResponse, CopyDone, CommandComplete, CopyInResponse);
    y := Reading(x, SYNCED, [BindComplete, CopyOutResponse, CopyDone, CommandComplete, CopyInResponse], ReadingCopy, false);
    y := Reading(y, SYNCED, [CopyOutResponse, CopyDone, CommandComplete, CopyInResponse], ReadingCopy, false);
  }

  lemma ExportIsSyncedAgain(x: System<bool>) returns (y: System<bool>)
    requires At(x, EXPORTING, [CopyDone, CommandComplete, CopyInResponse], ReadingCopy)
    ensures At(y, EXPORTED, [CopyInResponse], ReadingCopy)
  {
    hide At;
    Tails(BindComplete, CopyOutResponse, CopyDone, CommandComplete, CopyInResponse);
    y := Writing(x, EXPORTING, [CopyDone, CommandComplete, CopyInResponse], ReadingCopy, Synchronize, []);
    y := Reading(y, EXPORTING.(state := AwaitingReady, pendingSyncs := 2), [CopyDone, CommandComplete, CopyInResponse], ReadingCopy, true);
    y := Reading(y, EXPORTED.(state := CopyCompletionActive), [CommandComplete, CopyInResponse], ReadingCopy, true);
  }

  lemma ImportIsFinished(x: System<bool>) returns (y: System<bool>)
    requires At(x, EXPORTED, [CopyInResponse], ReadingCopy)
    ensures At(y, STARTED.(state := ExtendedQueryActive, pendingSyncs := 1), [], Normal)
  {
    hide At;
    assert [CopyInResponse][1..] == [] && [] + [CommandComplete] == [CommandComplete] && [CommandComplete][1..] == [];
    y := Reading(x, EXPORTED, [CopyInResponse], ReadingCopy, false);
    y := Writing(y, IMPORTING, [], ReadingCopy, FinishCopy, []);
    y := Reading(y, IMPORTING.(state := CopyCompletionActive, copy := IMPORTING.copy.(sendOpen := false)), [CommandComplete], Normal, true);
  }

  lemma ImportIsSynced(x: System<bool>) returns (y: System<bool>)
    requires At(x, STARTED.(state := ExtendedQueryActive, pendingSyncs := 1), [], Normal)
    ensures At(y, SYNCED, [], Normal)
  {
    hide At;
    assert [] + ([] + [ReadyForQuery]) == [ReadyForQuery] && [ReadyForQuery][1..] == [];
    y := Writing(x, STARTED.(state := ExtendedQueryActive, pendingSyncs := 1), [], Normal, Synchronize, []);
    y := Reading(y, SYNCED.(pendingSyncs := 2), [ReadyForQuery], Normal, false);
  }

  lemma SyncedWritesNothing(c: Call)
    requires Writes(c) != []
    ensures !Permits(SYNCED, c)
  {
  }

  /** A batch with a COPY out of a table and one into a table: a second Sync for
      the first, and the session ends waiting for a ReadyForQuery when the server
      has nothing more to say, and no call that writes is permitted. */
  lemma SecondSyncStrandsTheSession() returns (y: System<bool>)
    ensures Legal(Exporter()) && Anyhow(Exporter(), true, y)
    ensures y.client.state == AwaitingReady && y.client.pendingSyncs == 1 && y.link.toServer == [] && y.link.toClient == []
    ensures forall c :: Writes(c) != [] ==> !Permits(y.client, c)
  {
    hide Permits;
    ExporterIsLegal();
    y := BothCopiesAreSynced();
    y := ExportIsRead(y);
    y := ExportIsSyncedAgain(y);
    y := ImportIsFinished(y);
    y := ImportIsSynced(y);
    forall c | Writes(c) != [] ensures !Permits(SYNCED, c) { SyncedWritesNothing(c); }
    assert |Heard(y.link.toClient)| == 0;
  }
}
