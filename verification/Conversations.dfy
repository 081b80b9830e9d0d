/** In every run outside pipeline mode, what the application has heard of the
    batch it is writing leaves open what the server makes of it: nothing more
    need have been said, and a COPY it runs may yet open. */
module Conversations {
  import opened Protocol
  import opened SessionState
  import opened SessionInvariant
  import opened PostgresBackend
  import opened Pipeline
  import opened PipelineRuns
  import opened Scripts
  import opened Retelling

  /** COPY data and CopyFail do not complete a COPY, as CopyDone does. */
  ghost predicate Orderly<D(!new)>(b: Backend<D>) {
    forall d, c: Command :: c.tag in {Data, Fail} ==> CommandComplete !in b.respond(d, c).1
  }

  predicate Incomplete(replies: seq<Reply>) {
    forall i :: 0 <= i < |replies| ==> replies[i].event != CommandComplete
  }

  predicate ErrorComing(replies: seq<Reply>) {
    exists i :: 0 <= i < |replies| && replies[i].event == ErrorResponse
  }

  /** A COPY that has failed: nothing but its error can end it. */
  predicate Doomed(s: State, coming: seq<Reply>, mode: Mode) {
    !s.pipelined && s.pendingSyncs == 0 && InCopyState(s) && mode == Discarding && Incomplete(coming) && ErrorComing(coming)
  }

  /** The application may go on with its batch, or its COPY. */
  predicate Talking(s: State, pending: Pending, coming: seq<Reply>, mode: Mode) {
    && !s.pipelined && s.pendingSyncs == 0 && s.state != RecoveryRequired && pending.NoCopyPending?
    && !Doomed(s, coming, mode)
  }

  function ModeSeen(s: State): Mode {
    if s.copy.sendOpen then ReadingCopy else Normal
  }

  /** Of the COPY's batch as many Syncs were written as are outstanding, and the
      COPY is left exactly if its Sync must wait. */
  predicate OnCourse(s: State, pending: Pending, written: seq<Sent>, w: Course) {
    && w.copy < |written| && written[w.copy].batch + s.pendingSyncs == Syncs(written)
    && (pending.SyncMustWait? <==> w.failure < |written|)
  }

  ghost predicate StillOpens<D>(b: Backend<D>, start: Server<D>, s: State, pending: Pending, written: seq<Sent>, heard: seq<Reply>) {
    exists w {:trigger OpensAt(b, start, written, heard, w)} ::
      OpensAt(b, start, written, heard, w) && OnCourse(s, pending, written, w)
  }

  /** While data may be written, the COPY is not complete. */
  predicate Sending(s: State, coming: seq<Reply>, mode: Mode) {
    s.copy.sendOpen ==> Incomplete(coming) && (mode == Discarding ==> ErrorComing(coming))
  }

  ghost predicate Open<D>(b: Backend<D>, start: Server<D>, y: System<D>) {
    var out, mode := Outstanding(b, y.link), Final(b, y.link).mode;
    && (!y.pending.NoCopyPending? ==> StillOpens(b, start, y.client, y.pending, y.written, y.received))
    && (Talking(y.client, y.pending, out, mode) ==> CanRetell(b, start, y.written, y.received, ModeSeen(y.client)))
    && Sending(y.client, out, mode)
  }

  lemma StartIsOpen<D(!new)>(b: Backend<D>, db: D)
    requires Legal(b)
    ensures Open(b, Server(db, Normal), StartOf(db))
  {
    AllHeard(b, db, []);
  }

  // ----------------------------------------------------------------- writing

  /** What the client lets the application write, and when. */
  lemma TalkingWrite(s: State, c: Call, command: Command)
    requires Strict(s) && Started(s) && Writable(s, c, command) && !s.pipelined
    ensures Wrote(s, Perform(s, c).next, command.tag)
  {
    hide Perform, Permits, Strict;
    PermittedWhere(s, c);
    match command.tag
    case Sync => SyncWrite(s);
    case Flush =>
      assert c == FlushOutput;
      FlushWrite(s);
    case Data | Done | Fail => CopyWrite(s, c, command.tag);
    case _ => OpeningWrite(s, c, command.tag);
  }

  lemma PermittedWhere(s: State, c: Call)
    requires Strict(s) && !s.pipelined && Permits(s, c) && |Writes(c)| == 1 && !c.SendQuery?
    ensures c != Synchronize ==> s.state != RecoveryRequired
    ensures c == FlushOutput ==> !s.copy.sendOpen
    ensures c in {SendCopyData, FinishCopy, AbortCopy} ==> InCopyState(Perform(s, c).next)
    ensures c !in {SendCopyData, FinishCopy, AbortCopy, Synchronize} ==> !InCopyState(s)
  {
  }

  /** What a COPY message does to what is coming while the COPY is open. */
  lemma CopyAnswer<D(!new)>(b: Backend<D>, t: Server<D>, c: Sent, out: seq<Reply>)
    requires Legal(b) && Orderly(b) && c.command.tag in {Data, Fail} && t.mode != Normal
    requires Incomplete(out) && (t.mode == Discarding ==> ErrorComing(out))
    ensures var (u, answer) := Serve(b, t, c.command);
            var out' := out + Label(answer, c.batch);
            && Incomplete(out') && (u.mode == Discarding ==> ErrorComing(out'))
            && (c.command.tag == Fail || t.mode == Discarding ==> u.mode == Discarding)
  {
    hide Incomplete, ErrorComing;
    var (u, answer) := Serve(b, t, c.command);
    var out' := out + Label(answer, c.batch);
    if t.mode == Discarding {
      assert out' == out;
    } else {
      assert LegalAnswer(b.copies, c.command, b.respond(t.db, c.command).1);
      IncompleteAppend(out, answer, c.batch);
      if ErrorResponse in answer { ErrorAppended(out, answer, c.batch); }
    }
  }

  lemma IncompleteAppend(out: seq<Reply>, answer: seq<Event>, batch: nat)
    requires Incomplete(out) && CommandComplete !in answer
    ensures Incomplete(out + Label(answer, batch))
  {
    assert forall i :: 0 <= i < |answer| ==> answer[i] in answer;
  }

  lemma ErrorAppended(out: seq<Reply>, answer: seq<Event>, batch: nat)
    requires ErrorResponse in answer
    ensures ErrorComing(out + Label(answer, batch))
  {
    var i :| 0 <= i < |answer| && answer[i] == ErrorResponse;
    assert (out + Label(answer, batch))[|out| + i].event == ErrorResponse;
  }

  /** A COPY that has failed stays so while its data is written. */
  lemma DoneLeavesDoomed<D(!new)>(b: Backend<D>, t: Server<D>, c: Sent, out: seq<Reply>)
    requires c.command.tag == Done && t.mode == Discarding
    ensures var (u, answer) := Serve(b, t, c.command); u.mode == Discarding && out + Label(answer, c.batch) == out
  {
  }

  /** What is coming, and the server's mode then, when one command more is written. */
  predicate Comes<D>(b: Backend<D>, end: Server<D>, out: seq<Reply>, sent: Sent, out': seq<Reply>, mode: Mode) {
    var (u, answer) := Serve(b, end, sent.command);
    out' == out + Label(answer, sent.batch) && mode == u.mode
  }

  /** If the application may go on after a write, it might before. */
  lemma WriteWhileTalking<D(!new)>(b: Backend<D>, start: Server<D>, s: State, t: State, written: seq<Sent>, heard: seq<Reply>,
                                   end: Server<D>, out: seq<Reply>, sent: Sent, out': seq<Reply>, mode: Mode)
    requires Legal(b) && Orderly(b) && Comes(b, end, out, sent, out', mode) && heard <= ServeAll(b, start, written).1
    requires Wrote(s, t, sent.command.tag) && Sending(s, out, end.mode) && (s.copy.sendOpen ==> end.mode != Normal)
    requires Talking(s, NoCopyPending, out, end.mode) ==> CanRetell(b, start, written, heard, ModeSeen(s))
    requires Talking(t, NoCopyPending, out', mode)
    ensures CanRetell(b, start, written + [sent], heard, ModeSeen(t))
  {
    hide Legal, Orderly, CanRetell, Incomplete, ErrorComing, ServeAll, InCopyState, Serve;
    var tag := sent.command.tag;
    if tag in {Data, Fail} { CopyAnswer(b, end, sent, out); }
    if tag == Done && end.mode == Discarding { DoneLeavesDoomed(b, end, sent, out); }
    SilentAnswer(b.copies, ModeSeen(s), sent.command, ModeSeen(t));
    WriteOn(b, start, written, heard, ModeSeen(s), sent, ModeSeen(t));
  }

  lemma WriteWhileSending<D(!new)>(b: Backend<D>, s: State, t: State, end: Server<D>, out: seq<Reply>, sent: Sent, out': seq<Reply>, mode: Mode)
    requires Legal(b) && Orderly(b) && Comes(b, end, out, sent, out', mode)
    requires Wrote(s, t, sent.command.tag) && Sending(s, out, end.mode) && (s.copy.sendOpen ==> end.mode != Normal)
    ensures Sending(t, out', mode)
  {
    hide Legal, Orderly, Incomplete, ErrorComing, InCopyState, Serve;
    if sent.command.tag in {Data, Fail} { CopyAnswer(b, end, sent, out); }
  }

  lemma WriteLeavesOpen<D(!new)>(b: Backend<D>, start: Server<D>, y: System<D>, c: Call, payload: seq<byte>)
    requires Legal(b) && Orderly(b)
    requires SystemInv(b, start, y) && Enabled(b, y, Write(c, payload)) && Open(b, start, y)
    ensures Open(b, start, Next(b, y, Write(c, payload)))
  {
    hide Perform, Permits, Legal, Orderly, CanRetell, ServeAll, Strict, Started, Balanced, StillOpens, Wrote, Talking, Sending,
         Serve, Outstanding, Final, Readies, Copies, ErrorsSettled, Numbered, NoErrors;
    var command := Command(Writes(c)[0], payload);
    var sent, end, out := Sent(command, Syncs(y.written)), Final(b, y.link), Outstanding(b, y.link);
    var z := Next(b, y, Write(c, payload));
    WhenBalanced(y.client, out, end.mode, sent.batch, y.pending);
    WritingAppends(b, y.link, sent);
    ReadSoFar(b, start, y);
    if y.client.pipelined {
      StaysPipelined(y.client, c);
      PipelinedIsOpen(z.client, z.pending, Outstanding(b, z.link), Final(b, z.link).mode);
    } else {
      TalkingWrite(y.client, c, command);
      WroteWhat(y.client, z.client, command.tag);
      WriteWhileSending(b, y.client, z.client, end, out, sent, Outstanding(b, z.link), Final(b, z.link).mode);
      if !z.pending.NoCopyPending? {
        if y.pending.NoCopyPending? { OpensWhileTalking(y.client, z.client, command.tag, out, end.mode); }
        WriteWithCopy(b, start, y, z, sent);
        NotTalkingWhilePending(z.client, z.pending, Outstanding(b, z.link), Final(b, z.link).mode);
      } else if Talking(z.client, z.pending, Outstanding(b, z.link), Final(b, z.link).mode) {
        WriteWhileTalking(b, start, y.client, z.client, y.written, y.received, end, out, sent,
                          Outstanding(b, z.link), Final(b, z.link).mode);
      }
    }
  }

  /** A write outside pipeline mode, by what it does to the session. */
  predicate Wrote(s: State, t: State, tag: Tag) {
    && !s.pipelined && !t.pipelined && (t.pendingSyncs == if tag == Sync then s.pendingSyncs + 1 else s.pendingSyncs)
    && (Opens(tag) || tag in {Flush, Sync, Data, Done, Fail})
    && (Opens(tag) ==> s.pendingSyncs == 0)
    && (Opens(tag) || tag == Flush ==> !InCopyState(s))
    && (Opens(tag) || tag in {Flush, Sync} ==> !s.copy.sendOpen && !t.copy.sendOpen)
    && (tag in {Data, Done, Fail} ==> s.copy.sendOpen && InCopyState(t))
    && (tag == Data ==> t.copy.sendOpen)
    && (tag in {Done, Fail} ==> !t.copy.sendOpen)
    && (tag != Sync ==> s.state != RecoveryRequired)
  }

  lemma WroteWhat(s: State, t: State, tag: Tag)
    requires Wrote(s, t, tag)
    ensures Opens(tag) || tag in {Flush, Sync, Data, Done, Fail}
    ensures Opens(tag) ==> s.pendingSyncs == 0
    ensures tag in {Data, Done, Fail} ==> s.copy.sendOpen
    ensures Opens(tag) || tag == Flush ==> !s.copy.sendOpen
    ensures t.pendingSyncs == if tag == Sync then s.pendingSyncs + 1 else s.pendingSyncs
  {
    hide InCopyState;
  }

  lemma PipelinedIsOpen(s: State, pending: Pending, out: seq<Reply>, mode: Mode)
    requires s.pipelined && !s.copy.sendOpen
    ensures !Talking(s, pending, out, mode) && Sending(s, out, mode)
  {
  }

  lemma NotTalkingWhilePending(s: State, pending: Pending, out: seq<Reply>, mode: Mode)
    requires !pending.NoCopyPending?
    ensures !Talking(s, pending, out, mode)
  {
  }

  lemma OpensWhileTalking(s: State, t: State, tag: Tag, out: seq<Reply>, mode: Mode)
    requires Wrote(s, t, tag) && Opens(tag)
    ensures Talking(s, NoCopyPending, out, mode) && ModeSeen(s) == Normal
  {
    hide InCopyState;
  }

  /** Nothing need be said at once. */
  lemma SilentAnswer(copies: Command -> Feeding, mode: Mode, command: Command, after: Mode)
    requires Opens(command.tag) || command.tag in {Flush, Data, Done}
    requires if command.tag in {Data, Done} then mode == ReadingCopy else mode == Normal
    requires after == if command.tag == Data then ReadingCopy else Normal
    ensures Answers(copies, mode, command, [], after)
  {
  }

  lemma StaysPipelined(s: State, c: Call)
    requires Strict(s) && s.pipelined && |Writes(c)| == 1 && Permits(s, c) && !c.SendQuery?
    ensures Perform(s, c).next.pipelined && !Perform(s, c).next.copy.sendOpen && Writes(c)[0] != Fail
  {
  }

  lemma WriteWithCopy<D(!new)>(b: Backend<D>, start: Server<D>, y: System<D>, z: System<D>, sent: Sent)
    requires y.received <= ServeAll(b, start, y.written).1
    requires !y.pending.NoCopyPending? ==> StillOpens(b, start, y.client, y.pending, y.written, y.received)
    requires y.pending.NoCopyPending? ==>
               StartsCopyAt(b.copies, sent.command) && CanRetell(b, start, y.written, y.received, Normal)
    requires Opens(sent.command.tag) || sent.command.tag in {Flush, Sync}
    requires Opens(sent.command.tag) ==> y.client.pendingSyncs == 0
    requires sent.command.tag == Sync && !y.pending.NoCopyPending? ==> y.pending.SyncMayFollow? && y.client.pendingSyncs == 0
    requires z.client.pendingSyncs == if sent.command.tag == Sync then y.client.pendingSyncs + 1 else y.client.pendingSyncs
    requires z.written == y.written + [sent] && z.received == y.received && sent.batch == Syncs(y.written)
    requires z.pending == PendingAfter(b.copies, y.pending, sent.command)
    ensures StillOpens(b, start, z.client, z.pending, z.written, z.received)
  {
    hide CanRetell, OpensAt, ServeAll;
    SyncsAppend(y.written, [sent]);
    assert Syncs([sent]) == if sent.command.tag == Sync then 1 else 0;
    if y.pending.NoCopyPending? {
      WriteCopy(b, start, y.written, y.received, sent);
      assert OnCourse(z.client, z.pending, z.written, CourseFrom(b.copies, y.written, sent));
    } else {
      var w :| OpensAt(b, start, y.written, y.received, w) && OnCourse(y.client, y.pending, y.written, w);
      CourseSoFar(b, start, y.written, y.received, w);
      assert z.written[w.copy] == y.written[w.copy];
      if Opens(sent.command.tag) && y.pending.SyncMayFollow? {
        WriteIntoCopy(b, start, y.written, y.received, w, sent);
        assert OnCourse(z.client, z.pending, z.written, w);
      } else {
        WriteOnBehindCopy(b, start, y.written, y.received, w, sent);
        assert OnCourse(z.client, z.pending, z.written, if w.failure < |y.written| then w else w.(failure := |y.written| + 1));
      }
    }
  }

  lemma CourseSoFar<D>(b: Backend<D>, s: Server<D>, cs: seq<Sent>, heard: seq<Reply>, w: Course)
    requires OpensAt(b, s, cs, heard, w)
    ensures w.failure <= |cs|
  {
  }

  // --------------------------------------------------------------- receiving

  lemma ReceivesWhile(s: State, c: Call, e: Event)
    requires Strict(s) && Started(s) && Receives(c, e) && Perform(s, c).outcome == Completed
    ensures s.state != RecoveryRequired && (Perform(s, c).next.pipelined <==> s.pipelined)
    ensures e.ErrorResponse? && s.pendingSyncs == 0 ==> Perform(s, c).next.state == RecoveryRequired
    ensures StartsWritableCopy(e) ==> InCopyState(Perform(s, c).next)
  {
    hide ApplyExtendedEvent, ApplyCopyEvent;
    if c.ReceiveExtended? { ReceivesInBatch(s, e); } else { ReceivesInCopy(s, e); }
  }

  lemma ReceivesInBatch(s: State, e: Event)
    requires ApplyExtendedEvent(s, e, s.pendingSyncs > 0).outcome == Completed
    ensures var t := ApplyExtendedEvent(s, e, s.pendingSyncs > 0).next;
            && (t.pipelined <==> s.pipelined)
            && (e.ErrorResponse? && s.pendingSyncs == 0 ==> t.state == RecoveryRequired)
            && (StartsWritableCopy(e) ==> InCopyState(t))
  {
  }

  lemma ReceivesInCopy(s: State, e: Event)
    requires CopyMatches(s) && s.copy.origin == ExtendedCopy && ApplyCopyEvent(s, e).outcome == Completed
    ensures var t := ApplyCopyEvent(s, e).next;
            && !StartsWritableCopy(e) && (t.pipelined <==> s.pipelined)
            && (e.ErrorResponse? && s.pendingSyncs == 0 ==> t.state == RecoveryRequired)
  {
  }

  /** What is left when a message that settles has been read: nothing, or a
      lost COPY's error, unless the batch has failed or a Sync is outstanding. */
  predicate Drained(t: State, out: seq<Reply>, mode: Mode) {
    && (t.pendingSyncs == 0 && t.state != RecoveryRequired ==> (out == [] && mode == ModeSeen(t)) || Doomed(t, out, mode))
    && Sending(t, out, mode)
  }

  lemma WritableLeavesDrained(t: State, out: seq<Reply>, mode: Mode)
    requires !t.pipelined && t.pendingSyncs == 0 && t.copy.sendOpen && InCopyState(t)
    requires if out == [] then mode == ReadingCopy else mode == Discarding && out == [out[0]] && out[0].event == ErrorResponse
    ensures Drained(t, out, mode)
  {
    if out != [] { assert out[0].event == ErrorResponse; }
  }

  lemma {:induction false} AfterWritable(s: State, c: Call, out: seq<Reply>, mode: Mode, batches: nat, pending: Pending)
    requires Balanced(s, out, mode, batches, pending) && out != [] && !s.pipelined
    requires Receives(c, out[0].event) && StartsWritableCopy(out[0].event) && Perform(s, c).outcome == Completed
    ensures Drained(Perform(s, c).next, out[1..], mode)
  {
    hide Perform, Permits, Strict, Started, Numbered, ErrorsSettled, Readies, Copies, Balanced, NoErrors, InCopyState, Drained,
         CopyAhead, CopyLost, NoCopyAhead;
    WhenBalanced(s, out, mode, batches, pending);
    ReceivesWhile(s, c, out[0].event);
    WritableCopyLeaves(s, out, mode, batches, pending);
    WritableCopyReceive(s, c, out[0].event);
    WritableLeavesDrained(Perform(s, c).next, out[1..], mode);
  }

  lemma ReadyIsLast(s: State, out: seq<Reply>, mode: Mode, pending: Pending)
    requires CopyAhead(s, out, mode, pending) || CopyLost(s, out, mode, pending) || NoCopyAhead(s, out, mode)
    requires out != [] && out[0].event.ReadyForQuery? && !s.batchOpen && s.pendingSyncs > 0
    ensures s.pendingSyncs == 1 ==> out[1..] == [] && mode == Normal
  {
    hide Readies, Copies, NoErrors;
    HeadRemoved(out);
  }

  lemma ReadyLeavesDrained(t: State, out: seq<Reply>, mode: Mode)
    requires t.copy == NO_COPY && (t.pendingSyncs == 0 ==> out == [] && mode == Normal)
    ensures Drained(t, out, mode)
  {
    hide Doomed, Incomplete, ErrorComing;
  }

  lemma {:induction false} AfterReady(s: State, c: Call, out: seq<Reply>, mode: Mode, batches: nat, pending: Pending)
    requires Balanced(s, out, mode, batches, pending) && out != [] && !s.pipelined
    requires Receives(c, out[0].event) && out[0].event.ReadyForQuery? && Perform(s, c).outcome == Completed
    ensures Drained(Perform(s, c).next, out[1..], mode)
  {
    hide Perform, Permits, Strict, Started, Numbered, ErrorsSettled, Readies, Copies, Balanced, CopyAhead, CopyLost, NoCopyAhead, Drained;
    WhenBalanced(s, out, mode, batches, pending);
    SyncOutstanding(s, out, mode, pending);
    ReadyReceive(s, c);
    ClosedWhileAwaiting(s);
    ReadyIsLast(s, out, mode, pending);
    ReadyLeavesDrained(Perform(s, c).next, out[1..], mode);
  }

  lemma SyncOutstanding(s: State, out: seq<Reply>, mode: Mode, pending: Pending)
    requires CopyAhead(s, out, mode, pending) || CopyLost(s, out, mode, pending) || NoCopyAhead(s, out, mode)
    requires out != [] && out[0].event.ReadyForQuery?
    ensures s.pendingSyncs > 0
  {
    hide Copies, NoErrors;
  }

  lemma {:induction false} AfterError(s: State, c: Call, out: seq<Reply>, mode: Mode, batches: nat, pending: Pending)
    requires Balanced(s, out, mode, batches, pending) && out != []
    requires Receives(c, out[0].event) && out[0].event.ErrorResponse? && Perform(s, c).outcome == Completed
    ensures Drained(Perform(s, c).next, out[1..], mode)
  {
    hide Perform, Permits, Strict, Started, Numbered, ErrorsSettled, Readies, Copies, Balanced, NoErrors, Doomed, Incomplete, ErrorComing,
         CopyAhead, CopyLost, NoCopyAhead;
    WhenBalanced(s, out, mode, batches, pending);
    ReceivesWhile(s, c, ErrorResponse);
    ErrorReceive(s, c);
  }

  lemma ClosedWhileAwaiting(s: State)
    requires Strict(s) && !s.pipelined && s.pendingSyncs > 0
    ensures !s.batchOpen
  {
  }

  lemma OtherReceive(s: State, c: Call, e: Event)
    requires Strict(s) && Started(s) && Receives(c, e) && Perform(s, c).outcome == Completed && !Settles(e)
    ensures LeavesCounts(s, Perform(s, c).next)
  {
    hide Perform, LeavesCounts;
    if c.ReceiveExtended? { OtherExtendedReceive(s, e); } else { OtherCopyReceive(s, e); }
  }

  lemma StaysInCopy(s: State, c: Call, e: Event)
    requires Strict(s) && Started(s) && InCopyState(s) && Receives(c, e) && Perform(s, c).outcome == Completed
    requires !Settles(e) && e != CommandComplete
    ensures InCopyState(Perform(s, c).next)
  {
  }

  /** Any other message leaves a failed COPY failed. */
  lemma OtherLeavesDoomed(s: State, c: Call, out: seq<Reply>, mode: Mode)
    requires Strict(s) && Started(s) && out != [] && Doomed(s, out, mode)
    requires Receives(c, out[0].event) && Perform(s, c).outcome == Completed && !Settles(out[0].event)
    ensures Doomed(Perform(s, c).next, out[1..], mode)
  {
    hide Perform, Strict, Started, InCopyState, Incomplete, ErrorComing;
    OtherReceive(s, c, out[0].event);
    ComingTail(out);
    StaysInCopy(s, c, out[0].event);
  }

  lemma ComingTail(out: seq<Reply>)
    requires out != [] && Incomplete(out)
    ensures Incomplete(out[1..]) && out[0].event != CommandComplete
    ensures ErrorComing(out) && out[0].event != ErrorResponse ==> ErrorComing(out[1..])
  {
    if ErrorComing(out) && out[0].event != ErrorResponse {
      var i :| 0 <= i < |out| && out[i].event == ErrorResponse;
      assert out[1..][i - 1].event == ErrorResponse;
    }
  }

  lemma ReadSoFar<D>(b: Backend<D>, start: Server<D>, y: System<D>)
    requires Faithful(b, start, y)
    ensures y.received <= ServeAll(b, start, y.written).1
    ensures Outstanding(b, y.link) == [] ==> ServeAll(b, start, y.written) == (Final(b, y.link), y.received)
  {
    assert y.received + [] == y.received;
  }

  lemma ReceiveLeavesOpen<D(!new)>(b: Backend<D>, db: D, y: System<D>, fromCopy: bool)
    requires Legal(b) && SystemInv(b, Server(db, Normal), y) && Enabled(b, y, Receive(fromCopy))
    requires Open(b, Server(db, Normal), y)
    ensures Open(b, Server(db, Normal), Next(b, y, Receive(fromCopy)))
  {
    hide Perform, Permits, Legal, CanRetell, StillOpens, ServeAll, Balanced, Settles, Talking, Sending, Strict, Started, Outstanding, Final,
         Drained, LeavesCounts, CopyAhead, CopyLost, NoCopyAhead, ErrorsSettled, Numbered;
    var start := Server(db, Normal);
    var z, reply, c := Next(b, y, Receive(fromCopy)), y.link.toClient[0], ReceiveCall(fromCopy, y.link.toClient[0].event);
    var out, mode := Outstanding(b, y.link), Final(b, y.link).mode;
    ReceivingDrops(b, y, fromCopy);
    WhenBalanced(y.client, out, mode, Syncs(y.written), y.pending);
    ReceiveIsFaithful(b, start, y, fromCopy);
    ReadSoFar(b, start, z);
    if Settles(reply.event) {
      AfterSettled(y.client, c, out, mode, Syncs(y.written), y.pending);
      AllHeard(b, db, z.written);
      if y.client.pipelined {
        StillPipelined(y.client, c, reply.event, out[1..], mode);
      } else {
        DrainedTalks(z.client, out[1..], mode);
      }
    } else {
      OtherSends(y.client, c, out, mode);
      if !y.pending.NoCopyPending? { ReceiveWithCopy(b, db, y.client, z.client, y.pending, y.written, y.received, reply); }
      if Talking(z.client, z.pending, out[1..], mode) {
        OtherTalks(y.client, c, y.pending, out, mode);
        HearOn(b, db, y.written, y.received, ModeSeen(y.client), reply);
      }
    }
  }

  lemma {:induction false} AfterSettled(s: State, c: Call, out: seq<Reply>, mode: Mode, batches: nat, pending: Pending)
    requires Balanced(s, out, mode, batches, pending) && out != []
    requires Receives(c, out[0].event) && Settles(out[0].event) && Perform(s, c).outcome == Completed
    ensures !s.pipelined ==> Drained(Perform(s, c).next, out[1..], mode)
  {
    hide Perform, Balanced, Drained;
    if !s.pipelined {
      if StartsWritableCopy(out[0].event) {
        AfterWritable(s, c, out, mode, batches, pending);
      } else if out[0].event.ReadyForQuery? {
        AfterReady(s, c, out, mode, batches, pending);
      } else {
        AfterError(s, c, out, mode, batches, pending);
      }
    }
  }

  lemma StillPipelined(s: State, c: Call, e: Event, out: seq<Reply>, mode: Mode)
    requires Strict(s) && Started(s) && Receives(c, e) && Perform(s, c).outcome == Completed && s.pipelined
    ensures var t := Perform(s, c).next; (forall pending :: !Talking(t, pending, out, mode)) && Sending(t, out, mode)
  {
    hide Perform, Inv, Started, Incomplete, ErrorComing, Doomed;
    ReceivesWhile(s, c, e);
    CallKeepsInv(s, c);
    PipelinedSendsNothing(Perform(s, c).next);
  }

  lemma PipelinedSendsNothing(s: State)
    requires Inv(s) && s.pipelined
    ensures !s.copy.sendOpen
  {
  }

  lemma DrainedTalks(t: State, out: seq<Reply>, mode: Mode)
    requires Drained(t, out, mode)
    ensures Sending(t, out, mode)
    ensures forall pending :: Talking(t, pending, out, mode) ==> out == [] && mode == ModeSeen(t)
  {
    hide Incomplete, ErrorComing, InCopyState;
  }

  lemma OtherSends(s: State, c: Call, out: seq<Reply>, mode: Mode)
    requires Strict(s) && Started(s) && out != [] && Sending(s, out, mode)
    requires Receives(c, out[0].event) && Perform(s, c).outcome == Completed && !Settles(out[0].event)
    ensures var t := Perform(s, c).next;
            Sending(t, out[1..], mode) && t.pendingSyncs == s.pendingSyncs && ModeSeen(t) == ModeSeen(s)
  {
    hide Perform, Strict, Started, Incomplete, ErrorComing;
    OtherReceive(s, c, out[0].event);
    if s.copy.sendOpen { ComingTail(out); }
  }

  /** If the application may go on after reading it, it might before. */
  lemma OtherTalks(s: State, c: Call, pending: Pending, out: seq<Reply>, mode: Mode)
    requires Strict(s) && Started(s) && out != []
    requires Receives(c, out[0].event) && Perform(s, c).outcome == Completed && !Settles(out[0].event)
    requires Talking(Perform(s, c).next, pending, out[1..], mode)
    ensures Talking(s, pending, out, mode)
  {
    hide Perform, Strict, Started, Incomplete, ErrorComing, InCopyState;
    OtherReceive(s, c, out[0].event);
    ReceivesWhile(s, c, out[0].event);
    if Doomed(s, out, mode) { OtherLeavesDoomed(s, c, out, mode); }
  }

  lemma ReceiveWithCopy<D(!new)>(b: Backend<D>, db: D, s: State, t: State, pending: Pending, written: seq<Sent>, heard: seq<Reply>, reply: Reply)
    requires Legal(b) && StillOpens(b, Server(db, Normal), s, pending, written, heard) && s.pendingSyncs == t.pendingSyncs
    requires heard + [reply] <= ServeAll(b, Server(db, Normal), written).1 && !Settles(reply.event)
    ensures StillOpens(b, Server(db, Normal), t, pending, written, heard + [reply])
  {
    hide OpensAt, ServeAll, Settles, Legal;
    var w :| OpensAt(b, Server(db, Normal), written, heard, w) && OnCourse(s, pending, written, w);
    HearOnBeforeCopy(b, db, written, heard, w, reply);
    assert OnCourse(t, pending, written, w);
  }

  // ---------------------------------------------------------- the other steps

  lemma SwitchLeavesOpen<D(!new)>(b: Backend<D>, db: D, y: System<D>, c: Call)
    requires Legal(b) && SystemInv(b, Server(db, Normal), y) && Enabled(b, y, SwitchMode(c))
    requires Open(b, Server(db, Normal), y)
    ensures Open(b, Server(db, Normal), Next(b, y, SwitchMode(c)))
  {
    hide Legal, CanRetell, StillOpens, Incomplete, ErrorComing, ServeAll, ErrorsSettled, Numbered, Readies, Copies, NoErrors;
    ReadSoFar(b, Server(db, Normal), y);
    AllHeard(b, db, y.written);
  }

  lemma StepLeavesOpen<D(!new)>(b: Backend<D>, db: D, y: System<D>, a: Action)
    requires Legal(b) && Orderly(b) && SystemInv(b, Server(db, Normal), y) && Enabled(b, y, a)
    requires Open(b, Server(db, Normal), y)
    ensures Open(b, Server(db, Normal), Next(b, y, a))
  {
    hide Legal, Orderly, SystemInv, CanRetell, StillOpens, Talking, Incomplete, Outstanding, Final, Perform, Careful, Writable;
    match a
    case Write(c, payload) => WriteLeavesOpen(b, Server(db, Normal), y, c, payload);
    case ServeOne => ServingIsInvisible(b, y.link);
    case Receive(fromCopy) => ReceiveLeavesOpen(b, db, y, fromCopy);
    case SwitchMode(c) => SwitchLeavesOpen(b, db, y, c);
  }

  lemma {:induction false} RunIsOpen<D(!new)>(b: Backend<D>, db: D, path: seq<System<D>>, actions: seq<Action>, k: nat)
    requires Legal(b) && Orderly(b) && IsRun(b, path, actions) && path[0] == StartOf(db) && k < |path|
    ensures Open(b, Server(db, Normal), path[k])
    decreases k
  {
    hide SystemInv, Possible, Careful, Next, Legal, Orderly, Open;
    if k == 0 {
      StartIsOpen(b, db);
    } else {
      assert actions[k - 1] == actions[k - 1];
      RunIsOpen(b, db, path, actions, k - 1);
      StartKeepsInv(b, db);
      RunStaysInBalance(b, Server(db, Normal), path, actions, k - 1);
      StepLeavesOpen(b, db, path[k - 1], actions[k - 1]);
    }
  }
}
