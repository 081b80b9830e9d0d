/** What holds of every run of the client, the channels and a legal server. */
module PipelineTheorems {
  import opened Protocol
  import opened SessionState
  import opened SessionInvariant
  import opened PostgresBackend
  import opened Pipeline
  import opened PipelineRuns

  lemma {:induction false} ReachedInv<D(!new)>(b: Backend<D>, db: D, y: System<D>)
    requires Legal(b) && Reached(b, db, y)
    ensures SystemInv(b, Server(db, Normal), y)
  {
    hide SystemInv, Possible, Careful, Next;
    var path, actions :| IsRun(b, path, actions) && path[0] == StartOf(db) && path[|actions|] == y;
    StartKeepsInv(b, db);
    RunStaysInBalance(b, Server(db, Normal), path, actions, |actions|);
  }

  /** Sync conservation. The client's count is the ReadyForQuery messages in
      flight plus those the server will still send, plus the Syncs a COPY
      swallowed that the client has not given up yet; of those there is at
      most one, and none once the COPY response has been read. */
  ghost predicate Conserved<D>(b: Backend<D>, db: D, y: System<D>) {
    var coming := Outstanding(b, y.link);
    var swallowed := Swallowed(b, Server(db, Normal), y.written);
    && y.client.pendingSyncs == Readies(coming) + swallowed - y.retired
    && if Copies(coming) == 0 then swallowed == y.retired else swallowed - y.retired == y.client.pendingSyncs <= 1
  }

  lemma {:induction false} SyncConservation<D(!new)>(b: Backend<D>, db: D, y: System<D>)
    requires Legal(b) && Reached(b, db, y)
    ensures Conserved(b, db, y)
  {
    ReachedInv(b, db, y);
    var start := Server(db, Normal);
    SyncsAreAnsweredOrSwallowed(b, start, y.written);
    CountAppend(y.received, Outstanding(b, y.link));
  }

  /** Response attribution. A response's batch is as many Syncs behind the
      last one written as the client counts outstanding. */
  lemma ResponseAttribution<D(!new)>(b: Backend<D>, db: D, y: System<D>)
    requires Legal(b) && Reached(b, db, y)
    ensures y.link.toClient != [] ==> y.link.toClient[0].batch + y.client.pendingSyncs == Syncs(y.written)
  {
    ReachedInv(b, db, y);
    if y.link.toClient != [] {
      var out := Outstanding(b, y.link);
      assert out[0] == y.link.toClient[0] && out[0..] == out;
    }
  }

  lemma NoSyncOutstandingMeansOpen(s: State, e: Event)
    requires Perform(s, ReceiveExtended(e)).outcome == Completed
    ensures var t := Perform(s, ReceiveExtended(e)).next;
            && (e.ErrorResponse? ==> (t.state == RecoveryRequired <==> s.pendingSyncs == 0))
            && (e.PortalSuspended? ==> (t.portalIsSuspended <==> s.portalIsSuspended || s.pendingSyncs == 0))
            && (e.CommandComplete? ==> (t.portalIsSuspended <==> s.portalIsSuspended && s.pendingSyncs > 0))
  {
  }

  /** So an error calls for recovery exactly when it belongs to the batch
      whose Sync is unwritten, and a suspension is charged, or lifted, only by
      that batch's own responses. */
  lemma {:induction false} OpenBatchOwnsItsResponses<D(!new)>(b: Backend<D>, db: D, y: System<D>)
    requires Legal(b) && Reached(b, db, y)
    ensures y.link.toClient != [] && Enabled(b, y, Receive(false)) ==>
              var reply := y.link.toClient[0];
              var open := reply.batch == Syncs(y.written);
              var t := Perform(y.client, ReceiveExtended(reply.event)).next;
              && (reply.event.ErrorResponse? ==> (t.state == RecoveryRequired <==> open))
              && (reply.event.PortalSuspended? ==> (t.portalIsSuspended <==> y.client.portalIsSuspended || open))
              && (reply.event.CommandComplete? ==> (t.portalIsSuspended <==> y.client.portalIsSuspended && !open))
  {
    ResponseAttribution(b, db, y);
    if y.link.toClient != [] && Enabled(b, y, Receive(false)) {
      NoSyncOutstandingMeansOpen(y.client, y.link.toClient[0].event);
    }
  }

  /** Pipelining changes no answer: whatever the interleaving, what the client
      has read is the beginning of what the server says when it is given the
      commands one after the other, and all of it once the channels are empty. */
  lemma ReceivedIsServedInOrder<D(!new)>(b: Backend<D>, db: D, y: System<D>)
    requires Legal(b) && Reached(b, db, y)
    ensures var served := ServeAll(b, Server(db, Normal), y.written).1;
            && y.received <= served
            && (y.link.toServer == [] && y.link.toClient == [] ==> y.received == served)
  {
    ReachedInv(b, db, y);
  }

  /** Two runs that wrote the same commands, the second of which has read all
      there is to read, for instance because it drained each batch before it
      wrote the next: the first has read a beginning of the same replies. */
  lemma InterleavingsAgree<D(!new)>(b: Backend<D>, db: D, y: System<D>, z: System<D>)
    requires Legal(b) && Reached(b, db, y) && Reached(b, db, z)
    requires y.written == z.written && z.link.toServer == [] && z.link.toClient == []
    ensures y.received <= z.received
  {
    ReceivedIsServedInOrder(b, db, y);
    ReceivedIsServedInOrder(b, db, z);
  }

  // --------------------------------------------------------------- segments

  function FirstReady(replies: seq<Reply>): (i: nat)
    requires Readies(replies) > 0
    ensures i < |replies| && replies[i].event.ReadyForQuery?
    ensures Readies(replies[..i]) == 0
  {
    if replies[0].event.ReadyForQuery? then 0
    else
      var i := 1 + FirstReady(replies[1..]);
      assert replies[..i][1..] == replies[1..][..i - 1];
      i
  }

  /** The replies cut after each ReadyForQuery; an unfinished rest is left out. */
  function Segments(replies: seq<Reply>): seq<seq<Reply>>
    decreases |replies|
  {
    if Readies(replies) == 0 then []
    else
      var i := FirstReady(replies) + 1;
      [replies[..i]] + Segments(replies[i..])
  }

  /** A segment is finished when its last reply, and no other, is ReadyForQuery. */
  predicate Finished(segment: seq<Reply>) {
    segment != [] && segment[|segment| - 1].event.ReadyForQuery? && Readies(segment[..|segment| - 1]) == 0
  }

  lemma FinishedFirst(segment: seq<Reply>, more: seq<Reply>)
    requires Finished(segment)
    ensures Segments(segment + more) == [segment] + Segments(more)
  {
    var all, n := segment + more, |segment| - 1;
    assert all == segment[..n] + ([segment[n]] + more);
    CountAppend(segment[..n], [segment[n]] + more);
    var i := FirstReady(all);
    NoneCounted(segment[..n]);
    NoneCounted(all[..i]);
    assert forall k :: 0 <= k < n ==> all[k] in segment[..n];
    assert forall k :: 0 <= k < i ==> all[k] in all[..i];
    assert all[..n + 1] == segment && all[n + 1..] == more;
  }

  lemma {:induction false} SegmentsOfPrefix(a: seq<Reply>, b: seq<Reply>)
    requires a <= b
    ensures Segments(a) <= Segments(b)
    decreases |a|
  {
    if Readies(a) > 0 {
      var i := FirstReady(a) + 1;
      assert a == a[..i] + a[i..] && b == a[..i] + b[i..];
      assert a[..i][..i - 1] == a[..i - 1];
      FinishedFirst(a[..i], a[i..]);
      FinishedFirst(a[..i], b[i..]);
      SegmentsOfPrefix(a[i..], b[i..]);
    }
  }

  /** A batch as written outside COPY: commands and then one Sync. */
  predicate ClosedBatch(copies: Command -> Feeding, batch: seq<Sent>) {
    && batch != [] && batch[|batch| - 1].command.tag == Sync
    && forall i :: 0 <= i < |batch| - 1 ==> batch[i].command.tag != Sync && !StartsCopyAt(copies, batch[i].command)
  }

  function Flatten(batches: seq<seq<Sent>>): seq<Sent> {
    if batches == [] then [] else batches[0] + Flatten(batches[1..])
  }

  /** What each batch yields when the server has answered every earlier batch
      before this one is written. */
  function Drained<D>(b: Backend<D>, s: Server<D>, batches: seq<seq<Sent>>): seq<seq<Reply>>
    decreases batches
  {
    if batches == [] then []
    else
      var (t, replies) := ServeAll(b, s, batches[0]);
      [replies] + Drained(b, t, batches[1..])
  }

  /** Without COPY a batch's commands yield no ReadyForQuery. */
  lemma {:induction false} OpenBatchYields<D(!new)>(b: Backend<D>, s: Server<D>, cs: seq<Sent>)
    requires Legal(b) && s.mode != ReadingCopy
    requires forall c :: c in cs ==> c.command.tag != Sync && !StartsCopyAt(b.copies, c.command)
    ensures Readies(ServeAll(b, s, cs).1) == 0 && ServeAll(b, s, cs).0.mode != ReadingCopy
    decreases cs
  {
    if cs != [] {
      var c := cs[0].command;
      assert LegalAnswer(b.copies, c, b.respond(s.db, c).1);
      var (t, answer) := Serve(b, s, c);
      AnswerReadies(b, s, cs[0]);
      OpenBatchYields(b, t, cs[1..]);
      CountAppend(Label(answer, cs[0].batch), ServeAll(b, t, cs[1..]).1);
    }
  }

  lemma SyncIsAnswered<D(!new)>(b: Backend<D>, s: Server<D>, sync: Sent)
    requires Legal(b) && s.mode != ReadingCopy && sync.command.tag == Sync
    ensures Finished(ServeAll(b, s, [sync]).1) && ServeAll(b, s, [sync]).0.mode == Normal
  {
    var before := b.commit(s.db).1;
    assert LegalCommit(before);
    CommitCounts(before, sync.batch);
    var last := Label(before + [ReadyForQuery], sync.batch);
    assert ServeAll(b, s, [sync]).1 == last + [] == last;
  }

  lemma ClosedBatchYields<D(!new)>(b: Backend<D>, s: Server<D>, batch: seq<Sent>)
    requires Legal(b) && s.mode != ReadingCopy && ClosedBatch(b.copies, batch)
    ensures Finished(ServeAll(b, s, batch).1) && ServeAll(b, s, batch).0.mode == Normal
  {
    hide Readies, ServeAll, Legal;
    var front, sync := batch[..|batch| - 1], batch[|batch| - 1];
    assert batch == front + [sync];
    ServeAllAppend(b, s, front, [sync]);
    forall c | c in front ensures c.command.tag != Sync && !StartsCopyAt(b.copies, c.command) {
      var i :| 0 <= i < |front| && front[i] == c;
      assert batch[i] == c;
    }
    OpenBatchYields(b, s, front);
    var (t, replies) := ServeAll(b, s, front);
    SyncIsAnswered(b, t, sync);
    var last := ServeAll(b, t, [sync]).1;
    CountAppend(replies, last[..|last| - 1]);
    assert (replies + last)[..|replies + last| - 1] == replies + last[..|last| - 1];
  }

  /** Cutting the server's whole output at ReadyForQuery gives each batch the
      replies it gets when it is drained before the next one is written. */
  lemma {:induction false} SegmentsAreBatches<D(!new)>(b: Backend<D>, s: Server<D>, batches: seq<seq<Sent>>)
    requires Legal(b) && s.mode != ReadingCopy
    requires forall k :: 0 <= k < |batches| ==> ClosedBatch(b.copies, batches[k])
    ensures Segments(ServeAll(b, s, Flatten(batches)).1) == Drained(b, s, batches)
    decreases batches
  {
    if batches != [] {
      var (t, replies) := ServeAll(b, s, batches[0]);
      ClosedBatchYields(b, s, batches[0]);
      ServeAllAppend(b, s, batches[0], Flatten(batches[1..]));
      FinishedFirst(replies, ServeAll(b, t, Flatten(batches[1..])).1);
      SegmentsAreBatches(b, t, batches[1..]);
    }
  }

  /** Pipelining refines one batch at a time: in every run, the k-th segment
      read is what batch k yields when the batches before it were drained. */
  lemma {:induction false} SegmentReadIsBatchDrained<D(!new)>(b: Backend<D>, db: D, y: System<D>, batches: seq<seq<Sent>>)
    requires Legal(b) && Reached(b, db, y)
    requires forall k :: 0 <= k < |batches| ==> ClosedBatch(b.copies, batches[k])
    requires y.written <= Flatten(batches)
    ensures Segments(y.received) <= Drained(b, Server(db, Normal), batches)
  {
    var start := Server(db, Normal);
    ReceivedIsServedInOrder(b, db, y);
    var rest := Flatten(batches)[|y.written|..];
    assert Flatten(batches) == y.written + rest;
    ServeAllAppend(b, start, y.written, rest);
    SegmentsOfPrefix(y.received, ServeAll(b, start, Flatten(batches)).1);
    SegmentsAreBatches(b, start, batches);
  }
}
