/** The care an application has to take with COPY is exactly what is needed:
    whatever else it may write, some server with whom it has had the same
    conversation so far makes the client's Sync count go wrong. */
module Discipline {
  import opened Protocol
  import opened SessionState
  import opened SessionInvariant
  import opened PostgresBackend
  import opened Pipeline
  import opened PipelineRuns
  import opened PipelineTheorems
  import opened Scripts
  import opened Retelling
  import opened Conversations

  /** The application has written and read the same. */
  ghost predicate SameView<D, E>(y: System<D>, z: System<E>) {
    && y.client == z.client && y.pending == z.pending && y.retired == z.retired
    && y.written == z.written && y.received == z.received
  }

  /** Everything written has been served. */
  ghost predicate Settled<E(!new)>(b: Backend<E>, e: E, z: System<E>) {
    Reached(b, e, z) && z.link.toServer == []
  }

  /** A server gives, to every beginning of what was written, at least those of
      the replies of `b` that were read. */
  ghost predicate Repeats<D(!new), E(!new)>(b: Backend<D>, db: D, b': Backend<E>, e: E, written: seq<Sent>, received: seq<Reply>) {
    forall n :: 0 <= n <= |written| ==> RepeatsAt(b, db, b', e, written[..n], received)
  }

  ghost predicate RepeatsAt<D(!new), E(!new)>(b: Backend<D>, db: D, b': Backend<E>, e: E, cs: seq<Sent>, received: seq<Reply>) {
    var replies, others := ServeAll(b, Server(db, Normal), cs).1, ServeAll(b', Server(e, Normal), cs).1;
    forall i :: 0 <= i < |received| && i < |replies| ==> i < |others| && others[i] == replies[i]
  }

  lemma WriteQueues<E>(b: Backend<E>, z: System<E>, c: Call, command: Command)
    requires z.link.toServer == []
    ensures WriteNext(b, z, c, command).link.toServer == [Sent(command, Syncs(z.written))]
  {
  }

  lemma WriteAndServe<E(!new)>(b: Backend<E>, e: E, z: System<E>, c: Call, payload: seq<byte>) returns (z': System<E>)
    requires Settled(b, e, z) && Enabled(b, z, Write(c, payload))
    ensures Settled(b, e, z') && z'.link == ServeNext(b, WriteNext(b, z, c, Command(Writes(c)[0], payload)).link)
    ensures SameView(WriteNext(b, z, c, Command(Writes(c)[0], payload)), z')
  {
    hide Careful, Writable, WriteNext;
    var z1 := Next(b, z, Write(c, payload));
    ReachedNext(b, e, z, Write(c, payload));
    assert Next(b, z, Write(c, payload)) == WriteNext(b, z, c, Command(Writes(c)[0], payload));
    WriteQueues(b, z, c, Command(Writes(c)[0], payload));
    ReachedNext(b, e, z1, ServeOne);
    z' := Next(b, z1, ServeOne);
  }

  /** What a reached state has still to read, once everything is served. */
  lemma SettledReplies<E(!new)>(b: Backend<E>, e: E, z: System<E>)
    requires Legal(b) && Settled(b, e, z)
    ensures ServeAll(b, Server(e, Normal), z.written) == (z.link.server, z.received + z.link.toClient)
  {
    ReachedInv(b, e, z);
    assert z.link.toClient + [] == z.link.toClient;
  }

  lemma HistoryGrows<D(!new)>(b: Backend<D>, y: System<D>, a: Action)
    requires Possible(b, y, a)
    ensures y.written <= Next(b, y, a).written && y.received <= Next(b, y, a).received
  {
  }

  lemma MirrorReceive<D(!new), E(!new)>(b: Backend<D>, db: D, y: System<D>, fromCopy: bool, b': Backend<E>, e: E, x: System<E>,
                                        written: seq<Sent>, received: seq<Reply>)
    requires Legal(b') && SystemInv(b, Server(db, Normal), y) && Possible(b, y, Receive(fromCopy))
    requires Settled(b', e, x) && SameView(y, x)
    requires y.written <= written && ReceiveNext(y, fromCopy).received <= received && Repeats(b, db, b', e, written, received)
    ensures x.link.toClient != [] && x.link.toClient[0] == y.link.toClient[0]
  {
    SettledReplies(b', e, x);
    var r := |y.received|;
    assert written[..|y.written|] == y.written;
    assert RepeatsAt(b, db, b', e, y.written, received);
    var replies, others := ServeAll(b, Server(db, Normal), y.written).1, ServeAll(b', Server(e, Normal), x.written).1;
    assert replies == y.received + Outstanding(b, y.link) && replies[r] == y.link.toClient[0];
    assert others == x.received + x.link.toClient && others[r] == replies[r];
  }

  lemma MirrorStep<D(!new), E(!new)>(b: Backend<D>, db: D, y: System<D>, a: Action, b': Backend<E>, e: E, x: System<E>,
                                     written: seq<Sent>, received: seq<Reply>) returns (z: System<E>)
    requires Legal(b') && b'.copies == b.copies
    requires SystemInv(b, Server(db, Normal), y) && Enabled(b, y, a) && Settled(b', e, x) && SameView(y, x)
    requires Next(b, y, a).written <= written && Next(b, y, a).received <= received
    requires Repeats(b, db, b', e, written, received)
    ensures Settled(b', e, z) && SameView(Next(b, y, a), z)
  {
    hide SystemInv, Careful, Writable, Perform, Repeats, Legal, Permits;
    match a
    case Write(c, payload) => z := WriteAndServe(b', e, x, c, payload);
    case ServeOne => z := x;
    case Receive(fromCopy) =>
      MirrorReceive(b, db, y, fromCopy, b', e, x, written, received);
      ReachedNext(b', e, x, a);
      z := Next(b', x, a);
    case SwitchMode(_) =>
      ReachedNext(b', e, x, a);
      z := Next(b', x, a);
  }

  /** A run can be had with any legal server that repeats what was read. */
  lemma {:induction false} Mirror<D(!new), E(!new)>(b: Backend<D>, db: D, path: seq<System<D>>, actions: seq<Action>, k: nat,
                                                    b': Backend<E>, e: E, written: seq<Sent>, received: seq<Reply>)
    returns (z: System<E>)
    requires Legal(b) && Legal(b') && b'.copies == b.copies
    requires IsRun(b, path, actions) && path[0] == StartOf(db) && k < |path|
    requires path[k].written <= written && path[k].received <= received
    requires Repeats(b, db, b', e, written, received)
    ensures Settled(b', e, z) && SameView(path[k], z)
    decreases k
  {
    hide SystemInv, Possible, Careful, Next, Repeats, Legal;
    if k == 0 {
      LeadsToItself(b', StartOf(e));
      z := StartOf(e);
    } else {
      var y, a := path[k - 1], actions[k - 1];
      HistoryGrows(b, y, a);
      var x := Mirror(b, db, path, actions, k - 1, b', e, written, received);
      StartKeepsInv(b, db);
      RunStaysInBalance(b, Server(db, Normal), path, actions, k - 1);
      z := MirrorStep(b, db, y, a, b', e, x, written, received);
    }
  }

  /** The script repeats what was read, and then the COPY opens. */
  lemma ScriptRepeats<D(!new)>(b: Backend<D>, db: D, written: seq<Sent>, received: seq<Reply>, w: Course) returns (script: Script)
    requires Legal(b) && received <= ServeAll(b, Server(db, Normal), written).1
    requires OpensAt(b, Server(db, Normal), written, received, w)
    ensures Repeats(b, db, Scripted(b.copies), script, written, received)
    ensures var (t, replies) := ServeAll(Scripted(b.copies), Server(script, Normal), written);
            replies == received + Ending(written, w, |written|) && t.mode == ModeOf(written, w)
  {
    hide Legal, ServeAll, Scripted, Answers, Lines, OnlyPassed, Ending;
    var s, b' := Server(db, Normal), Scripted(b.copies);
    var p :| IsPlay(b.copies, written, p, ModeOf(written, w)) && Retells(b, s, written, received, p, w);
    script := Lines(written, p, 0);
    assert written[..|written|] == written;
    forall n | 0 <= n <= |written| ensures RepeatsAt(b, db, b', script, written[..n], received) {
      ScriptedSays(b.copies, written, p, ModeOf(written, w), n);
      UptoGrows(b, s, written, n, |written|);
    }
    ScriptedSays(b.copies, written, p, ModeOf(written, w), |written|);
  }

  /** A COPY is opening; and it has been left, if its Sync must wait. */
  predicate Opening<E>(x: System<E>, batch: nat) {
    var opening, failure := Reply(CopyInResponse, batch), Reply(ErrorResponse, batch);
    if x.pending.SyncMustWait? then x.link.toClient == [opening, failure] && x.link.server.mode == Discarding
    else x.link.toClient == [opening] && x.link.server.mode == ReadingCopy
  }

  /** For every run that leaves a COPY unanswered there is one in which the same
      was written and read and the COPY is now opening. */
  lemma SameConversation<D(!new)>(b: Backend<D>, db: D, y: System<D>)
    returns (script: Script, x: System<Script>, batch: nat)
    requires Legal(b) && Orderly(b) && Reached(b, db, y) && !y.pending.NoCopyPending?
    ensures Settled(Scripted(b.copies), script, x) && SameView(y, x) && Opening(x, batch)
  {
    hide Legal, Orderly, Scripted, Possible, Careful, Next, ServeAll, OpensAt, Repeats, Talking, InBalance, Sending, CanRetell;
    var b' := Scripted(b.copies);
    ScriptedIsLegal(b.copies);
    var path, actions :| IsRun(b, path, actions) && path[0] == StartOf(db) && path[|actions|] == y;
    RunIsOpen(b, db, path, actions, |actions|);
    var w :| OpensAt(b, Server(db, Normal), y.written, y.received, w) && OnCourse(y.client, y.pending, y.written, w);
    ReachedInv(b, db, y);
    batch := y.written[w.copy].batch;
    script := ScriptRepeats(b, db, y.written, y.received, w);
    x := Mirror(b, db, path, actions, |actions|, b', script, y.written, y.received);
    SettledReplies(b', script, x);
    var ending := Ending(y.written, w, |y.written|);
    assert (y.received + ending)[|y.received|..] == ending && (x.received + x.link.toClient)[|y.received|..] == x.link.toClient;
  }

  // -------------------------------------------------------- careless writes

  lemma CountIsWrong<E(!new)>(b: Backend<E>, e: E, z: System<E>)
    requires z.link.toServer == [] && Copies(z.link.toClient) == 0
    requires z.client.pendingSyncs != Readies(z.link.toClient)
    ensures !Conserved(b, e, z)
  {
    assert z.link.toClient + [] == z.link.toClient;
  }

  /** A Sync more and then the COPY's response: the client gives up one Sync. */
  lemma SyncedThenCopyIn(s: State)
    requires Strict(s) && Permits(s, Synchronize) && !s.pipelined
    ensures var t := Perform(s, Synchronize).next;
            && t.pendingSyncs == s.pendingSyncs + 1
            && Perform(t, ReceiveExtended(CopyInResponse)).outcome == Completed
            && Perform(t, ReceiveExtended(CopyInResponse)).next.pendingSyncs == s.pendingSyncs
  {
  }

  lemma LegalCommits<E(!new)>(b: Backend<E>, d: E)
    requires Legal(b)
    ensures LegalCommit(b.commit(d).1)
  {
  }

  /** The server's word on a careless Sync: it reads it over with the one before,
      or answers it, having left the COPY. */
  lemma CarelessSyncIsServed<E(!new)>(b: Backend<E>, x: System<E>, sent: Sent, batch: nat) returns (rest: seq<Reply>)
    requires Legal(b) && Opening(x, batch) && sent.command.tag == Sync
    ensures x.link.toClient + Label(Serve(b, x.link.server, sent.command).1, sent.batch) == [Reply(CopyInResponse, batch)] + rest
    ensures Copies(rest) == 0 && Readies(rest) == if x.pending.SyncMustWait? then 1 else 0
  {
    hide Legal;
    var opening, failure := Reply(CopyInResponse, batch), [Reply(ErrorResponse, batch)];
    if x.pending.SyncMustWait? {
      var before := b.commit(x.link.server.db).1;
      LegalCommits(b, x.link.server.db);
      var ending := Label(before + [ReadyForQuery], sent.batch);
      CommitCounts(before, sent.batch);
      NoneCounted(failure);
      CountAppend(failure, ending);
      rest := failure + ending;
      assert x.link.toClient == [opening] + failure;
    } else {
      rest := [];
    }
  }

  lemma CarelessSyncIsWritten<E(!new)>(b: Backend<E>, x: System<E>, payload: seq<byte>, batch: nat)
    returns (y: System<E>, rest: seq<Reply>)
    requires Legal(b) && x.link.toServer == [] && Opening(x, batch) && Possible(b, x, Write(Synchronize, payload))
    ensures Leads(b, Next(b, x, Write(Synchronize, payload)), y) && y.client == Perform(x.client, Synchronize).next
    ensures y.link.toServer == [] && y.link.toClient == [Reply(CopyInResponse, batch)] + rest
    ensures Copies(rest) == 0 && Readies(rest) == if x.pending.SyncMustWait? then 1 else 0
  {
    hide Perform, Legal, Permits, Serve, Opening, Readies, Copies;
    var x1, sent := Next(b, x, Write(Synchronize, payload)), Sent(Command(Sync, payload), Syncs(x.written));
    LeadsToItself(b, x1);
    WriteQueues(b, x, Synchronize, sent.command);
    LeadsOn(b, x1, x1, ServeOne);
    y := Next(b, x1, ServeOne);
    rest := CarelessSyncIsServed(b, x, sent, batch);
  }

  /** A Sync where none may follow the COPY, or a second one. */
  lemma SyncIsCareless<E(!new)>(b: Backend<E>, e: E, x: System<E>, payload: seq<byte>, batch: nat) returns (z: System<E>)
    requires Legal(b) && Settled(b, e, x) && !x.client.pipelined && Opening(x, batch) && !x.pending.NoCopyPending?
    requires x.pending.SyncMustWait? <==> x.client.pendingSyncs == 0
    requires Possible(b, x, Write(Synchronize, payload))
    ensures Leads(b, Next(b, x, Write(Synchronize, payload)), z) && !Conserved(b, e, z)
  {
    hide Perform, Legal, Reached, Inv, Permits, Opening, Leads, Readies, Copies, Conserved;
    assert Strict(x.client) by { ReachedInv(b, e, x); }
    SyncedThenCopyIn(x.client);
    var y, rest := CarelessSyncIsWritten(b, x, payload, batch);
    LeadsOn(b, Next(b, x, Write(Synchronize, payload)), y, Receive(false));
    z := Next(b, y, Receive(false));
    assert z.link.toClient == rest;
    CountIsWrong(b, e, z);
  }

  // ---------------------------------------------------------------- theorems

  /** After a careful write, and careful ones after it, the count is right. */
  lemma CarefulConserves<E(!new)>(b: Backend<E>, e: E, x: System<E>, c: Call, payload: seq<byte>, z: System<E>)
    requires Legal(b) && Reached(b, e, x) && Enabled(b, x, Write(c, payload)) && Leads(b, Next(b, x, Write(c, payload)), z)
    ensures Conserved(b, e, z)
  {
    hide Possible, Careful, Next, Conserved, Legal;
    ReachedNext(b, e, x, Write(c, payload));
    LeadsAlong(b, StartOf(e), Next(b, x, Write(c, payload)), z);
    SyncConservation(b, e, z);
  }

  /** A careless one can be had with a legal server after the same conversation,
      and with careful steps after it the count goes wrong. */
  lemma CarelessLosesCount<D(!new)>(b: Backend<D>, db: D, y: System<D>, c: Call, payload: seq<byte>)
    returns (e: Script, x: System<Script>, z: System<Script>)
    requires Legal(b) && Orderly(b) && Reached(b, db, y) && !y.client.pipelined
    requires Possible(b, y, Write(c, payload)) && !Enabled(b, y, Write(c, payload))
    ensures var b' := Scripted(b.copies);
            && Legal(b') && b'.copies == b.copies && Reached(b', e, x) && SameView(y, x)
            && Possible(b', x, Write(c, payload)) && Leads(b', Next(b', x, Write(c, payload)), z)
            && !Conserved(b', e, z)
  {
    hide Legal, Orderly, Scripted, Conserved, Reached, Leads, Perform, Opening, Next, Balanced;
    ScriptedIsLegal(b.copies);
    ReachedInv(b, db, y);
    WhenBalanced(y.client, Outstanding(b, y.link), Final(b, y.link).mode, Syncs(y.written), y.pending);
    assert c == Synchronize && !y.pending.NoCopyPending?;
    var batch: nat;
    e, x, batch := SameConversation(b, db, y);
    z := SyncIsCareless(Scripted(b.copies), e, x, payload, batch);
  }

  /** The discipline is exact: of all it could write next, the application
      keeps the Sync count right with every legal server it may be talking to
      if and only if it writes carefully. */
  lemma {:induction false} CareIsExact<D(!new)>(b: Backend<D>, db: D, y: System<D>, c: Call, payload: seq<byte>)
    requires Legal(b) && Orderly(b) && Reached(b, db, y) && !y.client.pipelined
    requires Possible(b, y, Write(c, payload))
    ensures Careful(b.copies, y.client, y.pending, Command(Writes(c)[0], payload)) <==> SafeToWrite(b.copies, y, c, payload)
  {
    hide Legal, Scripted, Conserved, Reached, Leads, Careful, Next;
    if Careful(b.copies, y.client, y.pending, Command(Writes(c)[0], payload)) {
      forall b': Backend<Script>, e, x, z | FollowsWrite(b.copies, y, c, payload, b', e, x, z) ensures Conserved(b', e, z) {
        CarefulConserves(b', e, x, c, payload, z);
      }
    } else {
      var e, x, z := CarelessLosesCount(b, db, y, c, payload);
      assert FollowsWrite(b.copies, y, c, payload, Scripted(b.copies), e, x, z);
    }
  }

  /** `z` is reached by careful steps after the write, from a state in which the
      application has had the same conversation as in `y`. */
  ghost predicate FollowsWrite<D(!new), E(!new)>(copies: Command -> Feeding, y: System<D>, c: Call, payload: seq<byte>,
                                               b: Backend<E>, e: E, x: System<E>, z: System<E>) {
    && Legal(b) && b.copies == copies && Reached(b, e, x) && SameView(y, x)
    && Possible(b, x, Write(c, payload)) && Leads(b, Next(b, x, Write(c, payload)), z)
  }

  ghost predicate SafeToWrite<D(!new)>(copies: Command -> Feeding, y: System<D>, c: Call, payload: seq<byte>) {
    forall b: Backend<Script>, e, x, z :: FollowsWrite(copies, y, c, payload, b, e, x, z) ==> Conserved(b, e, z)
  }
}
