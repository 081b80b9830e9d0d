/** What a session knows, told by the calls that were made and the messages
    that were read before, without the bookkeeping that keeps track of it. */
module SessionHistory {
  import opened Protocol
  import opened SessionState
  import opened SessionInvariant

  /** A call of a run: the state it found, and how it ended. */
  datatype Moment = Moment(state: State, call: Call, outcome: Outcome)
  {
    predicate Done() {
      outcome == Completed
    }

    /** A message was read, by whichever receive call, and accepted. */
    predicate Read() {
      Done() && (call.ReceiveQuery? || call.ReceiveExtended? || call.ReceiveCopy?)
    }

    /** A message of an extended batch other than Sync and Flush was written. */
    predicate WroteCommand() {
      Done() && (|| call.PrepareStatement? || call.BindPortal? || call.DescribeStatement? || call.DescribePortal?
                 || call.ExecutePortal? || call.ResumePortal? || call.CloseStatement? || call.ClosePortal?)
    }

    /** A COPY was refused because batches were pipelined. */
    predicate RefusedCopy() {
      && outcome == ProtocolError && call.ReceiveExtended?
      && (call.event.CopyInResponse? || call.event.CopyOutResponse? || call.event.CopyBothResponse?)
    }
  }

  type Mark = Moment -> bool

  function Now(s: State, c: Call): Moment {
    Moment(s, c, Perform(s, c).outcome)
  }

  /** The `k`-th call of a run. */
  function At(calls: seq<Call>, k: nat): Moment
    requires k < |calls|
  {
    Now(Run(STARTED, calls[..k]), calls[k])
  }

  /** Some call of the run was a start, and none after it an end. */
  ghost predicate Since(calls: seq<Call>, starts: Mark, ends: Mark) {
    exists k :: 0 <= k < |calls| && starts(At(calls, k)) && NoneAfter(calls, k, ends)
  }

  ghost predicate NoneAfter(calls: seq<Call>, k: nat, ends: Mark) {
    forall j :: k < j < |calls| ==> !ends(At(calls, j))
  }

  lemma {:induction false} RunLast(s: State, calls: seq<Call>, c: Call)
    ensures Run(s, calls + [c]) == Perform(Run(s, calls), c).next
    decreases calls
  {
    hide Perform;
    if calls == [] {
      assert [c][1..] == [];
      assert Run(s, [c]) == Run(Perform(s, c).next, []);
    } else {
      assert (calls + [c])[1..] == calls[1..] + [c];
      RunLast(Perform(s, calls[0]).next, calls[1..], c);
    }
  }

  lemma SinceNext(calls: seq<Call>, c: Call, starts: Mark, ends: Mark)
    ensures var m := Now(Run(STARTED, calls), c);
            Since(calls + [c], starts, ends) <==> starts(m) || (Since(calls, starts, ends) && !ends(m))
  {
    hide Run, Now;
    var m, more := Now(Run(STARTED, calls), c), calls + [c];
    assert forall k :: 0 <= k <= |calls| ==> more[..k] == calls[..k];
    assert calls[..|calls|] == calls;
    assert At(more, |calls|) == m;
    assert forall k :: 0 <= k < |calls| ==> At(more, k) == At(calls, k);
    if starts(m) {
      assert NoneAfter(more, |calls|, ends);
    }
    if Since(calls, starts, ends) && !ends(m) {
      var k :| 0 <= k < |calls| && starts(At(calls, k)) && NoneAfter(calls, k, ends);
      assert NoneAfter(more, k, ends);
      assert starts(At(more, k));
    }
    if Since(more, starts, ends) && !starts(m) {
      var k :| 0 <= k < |more| && starts(At(more, k)) && NoneAfter(more, k, ends);
      assert k < |calls|;
      forall j | k < j < |calls| ensures !ends(At(calls, j)) {
        assert !ends(At(more, j));
      }
      assert NoneAfter(calls, k, ends);
      assert !ends(At(more, |calls|));
    }
  }

  /** What the session remembers, and what begins and ends it. */
  datatype Memory = Memory(holds: State -> bool, starts: Mark, ends: Mark)

  ghost predicate Remembers(m: Memory, s: State, c: Call) {
    m.holds(Perform(s, c).next) <==> m.starts(Now(s, c)) || (m.holds(s) && !m.ends(Now(s, c)))
  }

  lemma {:induction false} Tracks(m: Memory, calls: seq<Call>)
    requires !m.holds(STARTED)
    requires forall s, c :: Inv(s) ==> Remembers(m, s, c)
    ensures m.holds(Run(STARTED, calls)) <==> Since(calls, m.starts, m.ends)
    decreases |calls|
  {
    hide Inv, Perform, Now;
    if calls != [] {
      var earlier, c := calls[..|calls| - 1], calls[|calls| - 1];
      assert calls == earlier + [c];
      Tracks(m, earlier);
      RunLast(STARTED, earlier, c);
      SinceNext(earlier, c, m.starts, m.ends);
      StartedSessionKeepsInv(earlier);
      assert Remembers(m, Run(STARTED, earlier), c);
    }
  }

  // -------------------------------------------------- what begins and ends what

  predicate OpensReceiving(m: Moment) {
    m.Read() && (m.call.event.CopyOutResponse? || m.call.event.CopyBothResponse?)
  }

  predicate ClosesReceiving(m: Moment) {
    || m.RefusedCopy()
    || (m.Read() && var e := m.call.event;
        e.CopyDone? || e.ReadyForQuery? || e.CopyInResponse? || (e.ErrorResponse? && m.call.ReceiveCopy?))
  }

  /** From the COPY OUT or COPY BOTH response on, data may be read until CopyDone,
      the error of the COPY or its end is read. An error read with the extended
      receive, while a Sync is awaited, closes nothing. */
  ghost predicate Receiving(calls: seq<Call>) {
    Since(calls, OpensReceiving, ClosesReceiving)
  }

  predicate OpensSending(m: Moment) {
    m.Read() && (m.call.event.CopyInResponse? || m.call.event.CopyBothResponse?)
  }

  predicate ClosesSending(m: Moment) {
    || m.RefusedCopy() || (m.Done() && (m.call.FinishCopy? || m.call.AbortCopy?))
    || (m.Read() && var e := m.call.event;
        e.ReadyForQuery? || e.CopyOutResponse? || (e.ErrorResponse? && m.call.ReceiveCopy?))
  }

  /** From the COPY IN or COPY BOTH response on, data may be written until CopyDone
      or CopyFail is written, or an error or the end of the COPY is read. */
  ghost predicate Sending(calls: seq<Call>) {
    Since(calls, OpensSending, ClosesSending)
  }

  predicate BeginsCopy(m: Moment) {
    m.Read() && (m.call.event.CopyInResponse? || m.call.event.CopyOutResponse? || m.call.event.CopyBothResponse?)
  }

  predicate EndsCopy(m: Moment) {
    var inBatch := m.state.copy.origin == ExtendedCopy;
    || m.RefusedCopy() || (m.Read() && m.call.event.ReadyForQuery?)
    || (m.Read() && m.call.ReceiveCopy? && var e := m.call.event;
        || e.RowDescription? || (e.CommandComplete? && !(inBatch && m.state.copy.syncPending))
        || (e.ErrorResponse? && inBatch && !m.state.copy.syncPending))
  }

  /** A COPY is in force from its response to its completion, or to the
      ReadyForQuery that is to follow its completion. */
  ghost predicate Copying(calls: seq<Call>) {
    Since(calls, BeginsCopy, EndsCopy)
  }

  predicate BeginsBatchCopy(m: Moment) {
    m.call.ReceiveExtended? && BeginsCopy(m)
  }

  /** The COPY in force is one of an extended batch. */
  ghost predicate CopyingInBatch(calls: seq<Call>) {
    Since(calls, BeginsBatchCopy, EndsCopy)
  }

  predicate BeginsCopyBoth(m: Moment) {
    m.Read() && m.call.event.CopyBothResponse?
  }

  predicate EndsCopyBoth(m: Moment) {
    EndsCopy(m) || (m.Read() && (m.call.event.CopyInResponse? || m.call.event.CopyOutResponse?))
  }

  /** The COPY in force runs in both directions. */
  ghost predicate CopyingBoth(calls: seq<Call>) {
    Since(calls, BeginsCopyBoth, EndsCopyBoth)
  }

  predicate SyncsCopy(m: Moment) {
    || (m.Done() && m.call.Synchronize? && m.state.copy.origin == ExtendedCopy)
    || (m.Read() && m.call.ReceiveExtended? && m.call.event.CopyOutResponse? && m.state.pendingSyncs > 0)
  }

  predicate UnsyncsCopy(m: Moment) {
    || EndsCopy(m)
    || (m.Read() && var e := m.call.event;
        e.CopyInResponse? || e.CopyBothResponse? || (e.CopyOutResponse? && m.state.pendingSyncs == 0))
  }

  /** The Sync that ends the batch of the COPY is on its way: it was written before
      a COPY OUT began, or during the COPY. One written before a writable COPY is
      lost in it. */
  ghost predicate CopySynced(calls: seq<Call>) {
    Since(calls, SyncsCopy, UnsyncsCopy)
  }

  predicate DescribesRows(m: Moment, n: nat) {
    m.Read() && m.call.event == RowDescription(n)
  }

  predicate EndsRows(m: Moment) {
    || m.RefusedCopy() || (m.Done() && m.call.SendQuery?)
    || (m.Read() && (m.call.event.RowDescription? || m.call.event.ReadyForQuery?))
    || (m.Read() && !m.call.ReceiveCopy? && var e := m.call.event;
        e.CommandComplete? || e.EmptyQuery? || e.ErrorResponse? || (e.NoData? && m.call.ReceiveExtended?))
  }

  /** The row description in force is the last one read in its result. */
  ghost predicate Described(calls: seq<Call>, n: nat) {
    Since(calls, m => DescribesRows(m, n), EndsRows)
  }

  predicate Binds(m: Moment) {
    m.Done() && m.call.BindPortal?
  }

  predicate Unbinds(m: Moment) {
    || m.RefusedCopy() || (m.Done() && m.call.Synchronize?)
    || (m.Read() && m.call.ReceiveCopy? && m.call.event.ReadyForQuery?)
    || (m.Read() && m.call.ReceiveExtended? && m.call.event.ErrorResponse? && m.state.pendingSyncs == 0)
  }

  /** A portal is bound in the batch being written. */
  ghost predicate Bound(calls: seq<Call>) {
    Since(calls, Binds, Unbinds)
  }

  predicate Suspends(m: Moment) {
    m.Read() && m.call.ReceiveExtended? && m.call.event.PortalSuspended? && m.state.pendingSyncs == 0
  }

  predicate Resumes(m: Moment) {
    || m.RefusedCopy() || (m.WroteCommand() && !m.state.batchOpen)
    || (m.Done() && (m.call.BindPortal? || m.call.ResumePortal? || m.call.Synchronize?))
    || (m.Read() && m.call.ReceiveCopy? && m.call.event.ReadyForQuery?)
    || (m.Read() && m.call.ReceiveExtended? && var e := m.call.event;
        || (e.ReadyForQuery? && !m.state.batchOpen)
        || ((e.CommandComplete? || e.EmptyQuery? || e.ErrorResponse?) && m.state.pendingSyncs == 0))
  }

  /** The portal has stopped at its row limit. */
  ghost predicate Suspended(calls: seq<Call>) {
    Since(calls, Suspends, Resumes)
  }

  predicate OpensBatch(m: Moment) {
    m.WroteCommand()
  }

  predicate ClosesBatch(m: Moment) {
    || m.RefusedCopy() || (m.Done() && m.call.Synchronize?)
    || (m.Read() && m.call.ReceiveCopy? && m.call.event.ReadyForQuery?)
  }

  /** A batch is open from its first command to its Sync. */
  ghost predicate BatchOpen(calls: seq<Call>) {
    Since(calls, OpensBatch, ClosesBatch)
  }

  predicate EntersPipeline(m: Moment) {
    m.Done() && m.call.EnterPipelineMode?
  }

  predicate LeavesPipeline(m: Moment) {
    m.RefusedCopy() || (m.Done() && m.call.ExitPipelineMode?)
  }

  /** Pipeline mode lasts from its entry to its exit. */
  ghost predicate Pipelined(calls: seq<Call>) {
    Since(calls, EntersPipeline, LeavesPipeline)
  }

  predicate Occupies(m: Moment) {
    m.WroteCommand() || (m.Done() && (m.call.SendQuery? || m.call.FlushOutput? || m.call.Synchronize?))
  }

  predicate Releases(m: Moment) {
    && m.Read() && m.call.event.ReadyForQuery?
    && (m.call.ReceiveExtended? ==> m.state.pendingSyncs == 1 && !m.state.batchOpen)
    && (m.call.ReceiveCopy? ==> m.state.pendingSyncs <= 1)
  }

  /** The session is busy from a query, a command, a Flush or a Sync to the last
      ReadyForQuery it is owed. */
  ghost predicate Busy(calls: seq<Call>) {
    Since(calls, Occupies, Releases)
  }

  predicate BeginsResults(m: Moment) {
    || (m.Done() && m.call.SendQuery?)
    || (m.Read() && m.call.ReceiveCopy? && var e := m.call.event;
        e.RowDescription? || (e.CommandComplete? && m.state.copy.origin == SimpleCopy))
  }

  predicate EndsResults(m: Moment) {
    && m.Read() && m.call.ReceiveQuery?
    && var e := m.call.event; e.ReadyForQuery? || e.CopyInResponse? || e.CopyOutResponse? || e.CopyBothResponse?
  }

  /** A simple query is under way and none of its COPYs is in force. */
  ghost predicate Querying(calls: seq<Call>) {
    Since(calls, BeginsResults, EndsResults)
  }

  predicate BeginsRecovery(m: Moment) {
    && m.Read() && m.call.event.ErrorResponse?
    && (|| (m.call.ReceiveExtended? && m.state.pendingSyncs == 0)
        || (m.call.ReceiveCopy? && m.state.copy.origin == ExtendedCopy && !m.state.copy.syncPending))
  }

  predicate EndsRecovery(m: Moment) {
    m.Done() && m.call.Synchronize?
  }

  /** After an error in a batch whose Sync is not written yet, the session waits for
      that Sync. */
  ghost predicate Recovering(calls: seq<Call>) {
    Since(calls, BeginsRecovery, EndsRecovery)
  }

  predicate BeginsAwaiting(m: Moment) {
    || (m.Done() && m.call.Synchronize?)
    || (m.Read() && m.call.event.ReadyForQuery? && m.state.pendingSyncs > 1 && (m.call.ReceiveExtended? ==> !m.state.batchOpen))
    || (m.Read() && m.call.ReceiveCopy? && (m.call.event.CommandComplete? || m.call.event.ErrorResponse?)
        && m.state.copy.origin == ExtendedCopy && m.state.copy.syncPending)
  }

  predicate EndsAwaiting(m: Moment) {
    || m.RefusedCopy() || m.WroteCommand()
    || (m.Read() && var e := m.call.event; e.CopyDone? || e.CopyInResponse? || e.CopyOutResponse? || e.CopyBothResponse?)
    || (m.Read() && m.call.event.ReadyForQuery? && m.state.pendingSyncs <= 1 && (m.call.ReceiveExtended? ==> !m.state.batchOpen))
    || (m.Read() && m.call.ReceiveExtended? && m.call.event.ErrorResponse? && m.state.pendingSyncs == 0)
  }

  /** After a Sync the session awaits ReadyForQuery, until it has read the last one,
      a COPY opens or goes on, or a pipelined command begins another batch. */
  ghost predicate Awaiting(calls: seq<Call>) {
    Since(calls, BeginsAwaiting, EndsAwaiting)
  }

  predicate RefusesCopy(m: Moment) {
    m.RefusedCopy()
  }

  predicate Never(m: Moment) {
    false
  }

  /** Nothing but the refusal of a pipelined COPY ends the session. */
  ghost predicate Ended(calls: seq<Call>) {
    Since(calls, RefusesCopy, Never)
  }

  /** A ReadyForQuery answers a Sync, or a writable COPY swallows it. */
  predicate RetiresSync(m: Moment) {
    && m.Read() && m.state.pendingSyncs > 0 && !m.call.ReceiveQuery?
    && var e := m.call.event; e.ReadyForQuery? || (m.call.ReceiveExtended? && (e.CopyInResponse? || e.CopyBothResponse?))
  }

  predicate WritesSync(m: Moment) {
    m.Done() && m.call.Synchronize?
  }

  /** How one call, accepted or refused, changes everything the session remembers. */
  predicate Follows(m: Moment, t: State, n: nat) {
    var s := m.state;
    && (t.copy.receiveOpen <==> OpensReceiving(m) || (s.copy.receiveOpen && !ClosesReceiving(m)))
    && (t.copy.sendOpen <==> OpensSending(m) || (s.copy.sendOpen && !ClosesSending(m)))
    && (t.copy.origin != NoCopy <==> BeginsCopy(m) || (s.copy.origin != NoCopy && !EndsCopy(m)))
    && (t.copy.origin == ExtendedCopy <==> BeginsBatchCopy(m) || (s.copy.origin == ExtendedCopy && !EndsCopy(m)))
    && (t.copy.bidirectional <==> BeginsCopyBoth(m) || (s.copy.bidirectional && !EndsCopyBoth(m)))
    && (t.copy.syncPending <==> SyncsCopy(m) || (s.copy.syncPending && !UnsyncsCopy(m)))
    && (t.described == Some(n) <==> DescribesRows(m, n) || (s.described == Some(n) && !EndsRows(m)))
    && (t.boundInCycle <==> Binds(m) || (s.boundInCycle && !Unbinds(m)))
    && (t.portalIsSuspended <==> Suspends(m) || (s.portalIsSuspended && !Resumes(m)))
    && (t.batchOpen <==> OpensBatch(m) || (s.batchOpen && !ClosesBatch(m)))
    && (t.pipelined <==> EntersPipeline(m) || (s.pipelined && !LeavesPipeline(m)))
    && (t.state != Ready <==> Occupies(m) || (s.state != Ready && !Releases(m)))
    && (t.state == SimpleQueryActive <==> BeginsResults(m) || (s.state == SimpleQueryActive && !EndsResults(m)))
    && (t.state == RecoveryRequired <==> BeginsRecovery(m) || (s.state == RecoveryRequired && !EndsRecovery(m)))
    && (t.state == AwaitingReady <==> BeginsAwaiting(m) || (s.state == AwaitingReady && !EndsAwaiting(m)))
    && (t.state == Closed <==> RefusesCopy(m) || (s.state == Closed && !Never(m)))
    && (m.RefusedCopy() ==> t.pendingSyncs == 0)
    && (!m.RefusedCopy() ==> t.pendingSyncs + (if RetiresSync(m) then 1 else 0) == s.pendingSyncs + (if WritesSync(m) then 1 else 0))
    && (s.state !in {NotStarted, TLSNegotiated} ==> t.state !in {NotStarted, TLSNegotiated})
  }

  lemma RefusalFollows(s: State, c: Call, n: nat)
    requires Perform(s, c) == Step(s, ProgramError)
    ensures Follows(Now(s, c), Perform(s, c).next, n) == true
  {
    hide Perform;
  }

  lemma OpeningFollows(s: State, c: Call, n: nat)
    requires Inv(s) && Permits(s, c) && c in {PrepareStatement, DescribeStatement, DescribePortal}
    ensures Follows(Now(s, c), Perform(s, c).next, n) == true
  {
  }

  lemma ClosingFollows(s: State, c: Call, n: nat)
    requires Inv(s) && Permits(s, c) && c in {CloseStatement, ClosePortal}
    ensures Follows(Now(s, c), Perform(s, c).next, n) == true
  {
  }

  lemma PortalFollows(s: State, c: Call, n: nat)
    requires Inv(s) && Permits(s, c) && c in {BindPortal, ExecutePortal, ResumePortal}
    ensures Follows(Now(s, c), Perform(s, c).next, n) == true
  {
  }

  lemma QueryFollows(s: State, c: Call, n: nat)
    requires Inv(s) && Permits(s, c) && c.SendQuery?
    ensures Follows(Now(s, c), Perform(s, c).next, n) == true
  {
  }

  lemma FlushFollows(s: State, c: Call, n: nat)
    requires Inv(s) && Permits(s, c) && c == FlushOutput
    ensures Follows(Now(s, c), Perform(s, c).next, n) == true
  {
  }

  lemma SyncFollows(s: State, c: Call, n: nat)
    requires Inv(s) && Permits(s, c) && c == Synchronize
    ensures Follows(Now(s, c), Perform(s, c).next, n) == true
  {
  }

  lemma ModeFollows(s: State, c: Call, n: nat)
    requires Inv(s) && Permits(s, c) && c in {EnterPipelineMode, ExitPipelineMode}
    ensures Follows(Now(s, c), Perform(s, c).next, n) == true
  {
  }

  lemma DataFollows(s: State, c: Call, n: nat)
    requires Inv(s) && Permits(s, c) && c == SendCopyData
    ensures Follows(Now(s, c), Perform(s, c).next, n) == true
  {
  }

  lemma WritingFollows(s: State, c: Call, n: nat)
    requires Inv(s) && Permits(s, c) && c in {FinishCopy, AbortCopy}
    ensures Follows(Now(s, c), Perform(s, c).next, n) == true
  {
  }

  lemma QueryCopyInFollows(s: State, e: Event, n: nat)
    requires Inv(s) && Permits(s, ReceiveQuery(e)) && e == CopyInResponse
    ensures Follows(Now(s, ReceiveQuery(e)), Perform(s, ReceiveQuery(e)).next, n) == true
  {
  }

  lemma QueryCopyOutFollows(s: State, e: Event, n: nat)
    requires Inv(s) && Permits(s, ReceiveQuery(e)) && e == CopyOutResponse
    ensures Follows(Now(s, ReceiveQuery(e)), Perform(s, ReceiveQuery(e)).next, n) == true
  {
  }

  lemma QueryCopyBothFollows(s: State, e: Event, n: nat)
    requires Inv(s) && Permits(s, ReceiveQuery(e)) && e == CopyBothResponse
    ensures Follows(Now(s, ReceiveQuery(e)), Perform(s, ReceiveQuery(e)).next, n) == true
  {
  }

  lemma QueryReadyFollows(s: State, e: Event, n: nat)
    requires Inv(s) && Permits(s, ReceiveQuery(e)) && e == ReadyForQuery
    ensures Follows(Now(s, ReceiveQuery(e)), Perform(s, ReceiveQuery(e)).next, n) == true
  {
  }

  lemma QueryErrorFollows(s: State, e: Event, n: nat)
    requires Inv(s) && Permits(s, ReceiveQuery(e)) && e == ErrorResponse
    ensures Follows(Now(s, ReceiveQuery(e)), Perform(s, ReceiveQuery(e)).next, n) == true
  {
  }

  lemma QueryRowFollows(s: State, e: Event, n: nat)
    requires Inv(s) && Permits(s, ReceiveQuery(e)) && (e.RowDescription? || e.DataRow?)
    ensures Follows(Now(s, ReceiveQuery(e)), Perform(s, ReceiveQuery(e)).next, n) == true
  {
  }

  lemma QueryResultFollows(s: State, e: Event, n: nat)
    requires Inv(s) && Permits(s, ReceiveQuery(e)) && e in {CommandComplete, EmptyQuery}
    ensures Follows(Now(s, ReceiveQuery(e)), Perform(s, ReceiveQuery(e)).next, n) == true
  {
  }

  lemma QueryPortalFollows(s: State, e: Event, n: nat)
    requires Inv(s) && Permits(s, ReceiveQuery(e)) && e in {NoData, PortalSuspended}
    ensures Follows(Now(s, ReceiveQuery(e)), Perform(s, ReceiveQuery(e)).next, n) == true
  {
  }

  lemma QueryStreamFollows(s: State, e: Event, n: nat)
    requires Inv(s) && Permits(s, ReceiveQuery(e)) && e in {CopyData, CopyDone}
    ensures Follows(Now(s, ReceiveQuery(e)), Perform(s, ReceiveQuery(e)).next, n) == true
  {
  }

  lemma QueryAnswerFollows(s: State, e: Event, n: nat)
    requires Inv(s) && Permits(s, ReceiveQuery(e)) && e in {ParseComplete, BindComplete, CloseComplete}
    ensures Follows(Now(s, ReceiveQuery(e)), Perform(s, ReceiveQuery(e)).next, n) == true
  {
  }

  lemma QueryPlainFollows(s: State, e: Event, n: nat)
    requires Inv(s) && Permits(s, ReceiveQuery(e)) && e in {ParameterDescription, Notice, ParameterStatus, Unknown}
    ensures Follows(Now(s, ReceiveQuery(e)), Perform(s, ReceiveQuery(e)).next, n) == true
  {
  }

  lemma ReceiveQueryFollows(s: State, e: Event, n: nat)
    requires Inv(s) && Permits(s, ReceiveQuery(e))
    ensures Follows(Now(s, ReceiveQuery(e)), Perform(s, ReceiveQuery(e)).next, n) == true
  {
    hide Inv, Permits, Follows, Perform, Now;
    match e
    case CopyInResponse => QueryCopyInFollows(s, e, n);
    case CopyOutResponse => QueryCopyOutFollows(s, e, n);
    case CopyBothResponse => QueryCopyBothFollows(s, e, n);
    case ReadyForQuery => QueryReadyFollows(s, e, n);
    case ErrorResponse => QueryErrorFollows(s, e, n);
    case RowDescription(_) | DataRow(_) => QueryRowFollows(s, e, n);
    case CommandComplete | EmptyQuery => QueryResultFollows(s, e, n);
    case NoData | PortalSuspended => QueryPortalFollows(s, e, n);
    case CopyData | CopyDone => QueryStreamFollows(s, e, n);
    case ParseComplete | BindComplete | CloseComplete => QueryAnswerFollows(s, e, n);
    case _ => QueryPlainFollows(s, e, n);
  }

  lemma ExtendedCopyInFollows(s: State, e: Event, n: nat)
    requires Inv(s) && Permits(s, ReceiveExtended(e)) && e == CopyInResponse
    ensures Follows(Now(s, ReceiveExtended(e)), Perform(s, ReceiveExtended(e)).next, n) == true
  {
  }

  lemma ExtendedCopyOutFollows(s: State, e: Event, n: nat)
    requires Inv(s) && Permits(s, ReceiveExtended(e)) && e == CopyOutResponse
    ensures Follows(Now(s, ReceiveExtended(e)), Perform(s, ReceiveExtended(e)).next, n) == true
  {
  }

  lemma ExtendedCopyBothFollows(s: State, e: Event, n: nat)
    requires Inv(s) && Permits(s, ReceiveExtended(e)) && e == CopyBothResponse
    ensures Follows(Now(s, ReceiveExtended(e)), Perform(s, ReceiveExtended(e)).next, n) == true
  {
  }

  lemma ExtendedReadyFollows(s: State, e: Event, n: nat)
    requires Inv(s) && Permits(s, ReceiveExtended(e)) && e == ReadyForQuery
    ensures Follows(Now(s, ReceiveExtended(e)), Perform(s, ReceiveExtended(e)).next, n) == true
  {
  }

  lemma ExtendedErrorFollows(s: State, e: Event, n: nat)
    requires Inv(s) && Permits(s, ReceiveExtended(e)) && e == ErrorResponse
    ensures Follows(Now(s, ReceiveExtended(e)), Perform(s, ReceiveExtended(e)).next, n) == true
  {
  }

  lemma ExtendedRowFollows(s: State, e: Event, n: nat)
    requires Inv(s) && Permits(s, ReceiveExtended(e)) && (e.RowDescription? || e.DataRow?)
    ensures Follows(Now(s, ReceiveExtended(e)), Perform(s, ReceiveExtended(e)).next, n) == true
  {
  }

  lemma ExtendedResultFollows(s: State, e: Event, n: nat)
    requires Inv(s) && Permits(s, ReceiveExtended(e)) && e in {CommandComplete, EmptyQuery}
    ensures Follows(Now(s, ReceiveExtended(e)), Perform(s, ReceiveExtended(e)).next, n) == true
  {
  }

  lemma ExtendedPortalFollows(s: State, e: Event, n: nat)
    requires Inv(s) && Permits(s, ReceiveExtended(e)) && e in {NoData, PortalSuspended}
    ensures Follows(Now(s, ReceiveExtended(e)), Perform(s, ReceiveExtended(e)).next, n) == true
  {
  }

  lemma ExtendedStreamFollows(s: State, e: Event, n: nat)
    requires Inv(s) && Permits(s, ReceiveExtended(e)) && e in {CopyData, CopyDone}
    ensures Follows(Now(s, ReceiveExtended(e)), Perform(s, ReceiveExtended(e)).next, n) == true
  {
  }

  lemma ExtendedAnswerFollows(s: State, e: Event, n: nat)
    requires Inv(s) && Permits(s, ReceiveExtended(e)) && e in {ParseComplete, BindComplete, CloseComplete}
    ensures Follows(Now(s, ReceiveExtended(e)), Perform(s, ReceiveExtended(e)).next, n) == true
  {
  }

  lemma ExtendedPlainFollows(s: State, e: Event, n: nat)
    requires Inv(s) && Permits(s, ReceiveExtended(e)) && e in {ParameterDescription, Notice, ParameterStatus, Unknown}
    ensures Follows(Now(s, ReceiveExtended(e)), Perform(s, ReceiveExtended(e)).next, n) == true
  {
  }

  lemma ReceiveExtendedFollows(s: State, e: Event, n: nat)
    requires Inv(s) && Permits(s, ReceiveExtended(e))
    ensures Follows(Now(s, ReceiveExtended(e)), Perform(s, ReceiveExtended(e)).next, n) == true
  {
    hide Inv, Permits, Follows, Perform, Now;
    match e
    case CopyInResponse => ExtendedCopyInFollows(s, e, n);
    case CopyOutResponse => ExtendedCopyOutFollows(s, e, n);
    case CopyBothResponse => ExtendedCopyBothFollows(s, e, n);
    case ReadyForQuery => ExtendedReadyFollows(s, e, n);
    case ErrorResponse => ExtendedErrorFollows(s, e, n);
    case RowDescription(_) | DataRow(_) => ExtendedRowFollows(s, e, n);
    case CommandComplete | EmptyQuery => ExtendedResultFollows(s, e, n);
    case NoData | PortalSuspended => ExtendedPortalFollows(s, e, n);
    case CopyData | CopyDone => ExtendedStreamFollows(s, e, n);
    case ParseComplete | BindComplete | CloseComplete => ExtendedAnswerFollows(s, e, n);
    case _ => ExtendedPlainFollows(s, e, n);
  }

  lemma CopyCopyInFollows(s: State, e: Event, n: nat)
    requires Inv(s) && Permits(s, ReceiveCopy(e)) && e == CopyInResponse
    ensures Follows(Now(s, ReceiveCopy(e)), Perform(s, ReceiveCopy(e)).next, n) == true
  {
  }

  lemma CopyCopyOutFollows(s: State, e: Event, n: nat)
    requires Inv(s) && Permits(s, ReceiveCopy(e)) && e == CopyOutResponse
    ensures Follows(Now(s, ReceiveCopy(e)), Perform(s, ReceiveCopy(e)).next, n) == true
  {
  }

  lemma CopyCopyBothFollows(s: State, e: Event, n: nat)
    requires Inv(s) && Permits(s, ReceiveCopy(e)) && e == CopyBothResponse
    ensures Follows(Now(s, ReceiveCopy(e)), Perform(s, ReceiveCopy(e)).next, n) == true
  {
  }

  lemma CopyReadyFollows(s: State, e: Event, n: nat)
    requires Inv(s) && Permits(s, ReceiveCopy(e)) && e == ReadyForQuery
    ensures Follows(Now(s, ReceiveCopy(e)), Perform(s, ReceiveCopy(e)).next, n) == true
  {
  }

  lemma CopyErrorFollows(s: State, e: Event, n: nat)
    requires Inv(s) && Permits(s, ReceiveCopy(e)) && e == ErrorResponse
    ensures Follows(Now(s, ReceiveCopy(e)), Perform(s, ReceiveCopy(e)).next, n) == true
  {
  }

  lemma CopyRowFollows(s: State, e: Event, n: nat)
    requires Inv(s) && Permits(s, ReceiveCopy(e)) && (e.RowDescription? || e.DataRow?)
    ensures Follows(Now(s, ReceiveCopy(e)), Perform(s, ReceiveCopy(e)).next, n) == true
  {
  }

  lemma CopyResultFollows(s: State, e: Event, n: nat)
    requires Inv(s) && Permits(s, ReceiveCopy(e)) && e in {CommandComplete, EmptyQuery}
    ensures Follows(Now(s, ReceiveCopy(e)), Perform(s, ReceiveCopy(e)).next, n) == true
  {
  }

  lemma CopyPortalFollows(s: State, e: Event, n: nat)
    requires Inv(s) && Permits(s, ReceiveCopy(e)) && e in {NoData, PortalSuspended}
    ensures Follows(Now(s, ReceiveCopy(e)), Perform(s, ReceiveCopy(e)).next, n) == true
  {
  }

  lemma CopyStreamFollows(s: State, e: Event, n: nat)
    requires Inv(s) && Permits(s, ReceiveCopy(e)) && e in {CopyData, CopyDone}
    ensures Follows(Now(s, ReceiveCopy(e)), Perform(s, ReceiveCopy(e)).next, n) == true
  {
  }

  lemma CopyAnswerFollows(s: State, e: Event, n: nat)
    requires Inv(s) && Permits(s, ReceiveCopy(e)) && e in {ParseComplete, BindComplete, CloseComplete}
    ensures Follows(Now(s, ReceiveCopy(e)), Perform(s, ReceiveCopy(e)).next, n) == true
  {
  }

  lemma CopyPlainFollows(s: State, e: Event, n: nat)
    requires Inv(s) && Permits(s, ReceiveCopy(e)) && e in {ParameterDescription, Notice, ParameterStatus, Unknown}
    ensures Follows(Now(s, ReceiveCopy(e)), Perform(s, ReceiveCopy(e)).next, n) == true
  {
  }

  lemma ReceiveCopyFollows(s: State, e: Event, n: nat)
    requires Inv(s) && Permits(s, ReceiveCopy(e))
    ensures Follows(Now(s, ReceiveCopy(e)), Perform(s, ReceiveCopy(e)).next, n) == true
  {
    hide Inv, Permits, Follows, Perform, Now;
    match e
    case CopyInResponse => CopyCopyInFollows(s, e, n);
    case CopyOutResponse => CopyCopyOutFollows(s, e, n);
    case CopyBothResponse => CopyCopyBothFollows(s, e, n);
    case ReadyForQuery => CopyReadyFollows(s, e, n);
    case ErrorResponse => CopyErrorFollows(s, e, n);
    case RowDescription(_) | DataRow(_) => CopyRowFollows(s, e, n);
    case CommandComplete | EmptyQuery => CopyResultFollows(s, e, n);
    case NoData | PortalSuspended => CopyPortalFollows(s, e, n);
    case CopyData | CopyDone => CopyStreamFollows(s, e, n);
    case ParseComplete | BindComplete | CloseComplete => CopyAnswerFollows(s, e, n);
    case _ => CopyPlainFollows(s, e, n);
  }

  lemma CallFollows(s: State, c: Call, n: nat)
    requires Inv(s)
    ensures Follows(Now(s, c), Perform(s, c).next, n) == true
  {
    hide Inv, Permits, Follows, Perform, Now;
    if !Permits(s, c) {
      CallKeepsInv(s, c);
      RefusalFollows(s, c, n);
    } else {
      match c
      case ReceiveQuery(e) => ReceiveQueryFollows(s, e, n);
      case ReceiveExtended(e) => ReceiveExtendedFollows(s, e, n);
      case ReceiveCopy(e) => ReceiveCopyFollows(s, e, n);
      case PrepareStatement | DescribeStatement | DescribePortal => OpeningFollows(s, c, n);
      case CloseStatement | ClosePortal => ClosingFollows(s, c, n);
      case BindPortal | ExecutePortal | ResumePortal => PortalFollows(s, c, n);
      case SendCopyData => DataFollows(s, c, n);
      case FinishCopy | AbortCopy => WritingFollows(s, c, n);
      case SendQuery(_) => QueryFollows(s, c, n);
      case FlushOutput => FlushFollows(s, c, n);
      case Synchronize => SyncFollows(s, c, n);
      case _ => ModeFollows(s, c, n);
    }
  }

  lemma {:induction false} ReceivingSince(calls: seq<Call>)
    ensures Run(STARTED, calls).copy.receiveOpen <==> Receiving(calls)
  {
    hide Inv, Perform, OpensReceiving, ClosesReceiving, Run;
    var memory := Memory((s: State) => s.copy.receiveOpen, OpensReceiving, ClosesReceiving);
    forall s, c | Inv(s) ensures Remembers(memory, s, c) {
      CallFollows(s, c, 0);
    }
    Tracks(memory, calls);
  }

  lemma {:induction false} SendingSince(calls: seq<Call>)
    ensures Run(STARTED, calls).copy.sendOpen <==> Sending(calls)
  {
    hide Inv, Perform, OpensSending, ClosesSending, Run;
    var memory := Memory((s: State) => s.copy.sendOpen, OpensSending, ClosesSending);
    forall s, c | Inv(s) ensures Remembers(memory, s, c) {
      CallFollows(s, c, 0);
    }
    Tracks(memory, calls);
  }

  lemma {:induction false} CopyingSince(calls: seq<Call>)
    ensures Run(STARTED, calls).copy.origin != NoCopy <==> Copying(calls)
  {
    hide Inv, Perform, BeginsCopy, EndsCopy, Run;
    var memory := Memory((s: State) => s.copy.origin != NoCopy, BeginsCopy, EndsCopy);
    forall s, c | Inv(s) ensures Remembers(memory, s, c) {
      CallFollows(s, c, 0);
    }
    Tracks(memory, calls);
  }

  lemma {:induction false} CopyingInBatchSince(calls: seq<Call>)
    ensures Run(STARTED, calls).copy.origin == ExtendedCopy <==> CopyingInBatch(calls)
  {
    hide Inv, Perform, BeginsBatchCopy, EndsCopy, Run;
    var memory := Memory((s: State) => s.copy.origin == ExtendedCopy, BeginsBatchCopy, EndsCopy);
    forall s, c | Inv(s) ensures Remembers(memory, s, c) {
      CallFollows(s, c, 0);
    }
    Tracks(memory, calls);
  }

  lemma {:induction false} CopyingBothSince(calls: seq<Call>)
    ensures Run(STARTED, calls).copy.bidirectional <==> CopyingBoth(calls)
  {
    hide Inv, Perform, BeginsCopyBoth, EndsCopyBoth, Run;
    var memory := Memory((s: State) => s.copy.bidirectional, BeginsCopyBoth, EndsCopyBoth);
    forall s, c | Inv(s) ensures Remembers(memory, s, c) {
      CallFollows(s, c, 0);
    }
    Tracks(memory, calls);
  }

  lemma {:induction false} CopySyncedSince(calls: seq<Call>)
    ensures Run(STARTED, calls).copy.syncPending <==> CopySynced(calls)
  {
    hide Inv, Perform, SyncsCopy, UnsyncsCopy, Run;
    var memory := Memory((s: State) => s.copy.syncPending, SyncsCopy, UnsyncsCopy);
    forall s, c | Inv(s) ensures Remembers(memory, s, c) {
      CallFollows(s, c, 0);
    }
    Tracks(memory, calls);
  }

  lemma {:induction false} DescribedSince(calls: seq<Call>, n: nat)
    ensures Run(STARTED, calls).described == Some(n) <==> Described(calls, n)
  {
    hide Inv, Perform, DescribesRows, EndsRows, Run;
    var memory := Memory((s: State) => s.described == Some(n), m => DescribesRows(m, n), EndsRows);
    forall s, c | Inv(s) ensures Remembers(memory, s, c) {
      CallFollows(s, c, n);
    }
    Tracks(memory, calls);
  }

  lemma {:induction false} BoundSince(calls: seq<Call>)
    ensures Run(STARTED, calls).boundInCycle <==> Bound(calls)
  {
    hide Inv, Perform, Binds, Unbinds, Run;
    var memory := Memory((s: State) => s.boundInCycle, Binds, Unbinds);
    forall s, c | Inv(s) ensures Remembers(memory, s, c) {
      CallFollows(s, c, 0);
    }
    Tracks(memory, calls);
  }

  lemma {:induction false} SuspendedSince(calls: seq<Call>)
    ensures Run(STARTED, calls).portalIsSuspended <==> Suspended(calls)
  {
    hide Inv, Perform, Suspends, Resumes, Run;
    var memory := Memory((s: State) => s.portalIsSuspended, Suspends, Resumes);
    forall s, c | Inv(s) ensures Remembers(memory, s, c) {
      CallFollows(s, c, 0);
    }
    Tracks(memory, calls);
  }

  lemma {:induction false} BatchOpenSince(calls: seq<Call>)
    ensures Run(STARTED, calls).batchOpen <==> BatchOpen(calls)
  {
    hide Inv, Perform, OpensBatch, ClosesBatch, Run;
    var memory := Memory((s: State) => s.batchOpen, OpensBatch, ClosesBatch);
    forall s, c | Inv(s) ensures Remembers(memory, s, c) {
      CallFollows(s, c, 0);
    }
    Tracks(memory, calls);
  }

  lemma {:induction false} PipelinedSince(calls: seq<Call>)
    ensures Run(STARTED, calls).pipelined <==> Pipelined(calls)
  {
    hide Inv, Perform, EntersPipeline, LeavesPipeline, Run;
    var memory := Memory((s: State) => s.pipelined, EntersPipeline, LeavesPipeline);
    forall s, c | Inv(s) ensures Remembers(memory, s, c) {
      CallFollows(s, c, 0);
    }
    Tracks(memory, calls);
  }

  lemma {:induction false} BusySince(calls: seq<Call>)
    ensures Run(STARTED, calls).state != Ready <==> Busy(calls)
  {
    hide Inv, Perform, Occupies, Releases, Run;
    var memory := Memory((s: State) => s.state != Ready, Occupies, Releases);
    forall s, c | Inv(s) ensures Remembers(memory, s, c) {
      CallFollows(s, c, 0);
    }
    Tracks(memory, calls);
  }

  lemma {:induction false} QueryingSince(calls: seq<Call>)
    ensures Run(STARTED, calls).state == SimpleQueryActive <==> Querying(calls)
  {
    hide Inv, Perform, BeginsResults, EndsResults, Run;
    var memory := Memory((s: State) => s.state == SimpleQueryActive, BeginsResults, EndsResults);
    forall s, c | Inv(s) ensures Remembers(memory, s, c) {
      CallFollows(s, c, 0);
    }
    Tracks(memory, calls);
  }

  lemma {:induction false} RecoveringSince(calls: seq<Call>)
    ensures Run(STARTED, calls).state == RecoveryRequired <==> Recovering(calls)
  {
    hide Inv, Perform, BeginsRecovery, EndsRecovery, Run;
    var memory := Memory((s: State) => s.state == RecoveryRequired, BeginsRecovery, EndsRecovery);
    forall s, c | Inv(s) ensures Remembers(memory, s, c) {
      CallFollows(s, c, 0);
    }
    Tracks(memory, calls);
  }

  lemma {:induction false} AwaitingSince(calls: seq<Call>)
    ensures Run(STARTED, calls).state == AwaitingReady <==> Awaiting(calls)
  {
    hide Inv, Perform, BeginsAwaiting, EndsAwaiting, Run;
    var memory := Memory((s: State) => s.state == AwaitingReady, BeginsAwaiting, EndsAwaiting);
    forall s, c | Inv(s) ensures Remembers(memory, s, c) {
      CallFollows(s, c, 0);
    }
    Tracks(memory, calls);
  }

  lemma {:induction false} EndedSince(calls: seq<Call>)
    ensures Run(STARTED, calls).state == Closed <==> Ended(calls)
  {
    hide Inv, Perform, RefusesCopy, Never, Run;
    var memory := Memory((s: State) => s.state == Closed, RefusesCopy, Never);
    forall s, c | Inv(s) ensures Remembers(memory, s, c) {
      CallFollows(s, c, 0);
    }
    Tracks(memory, calls);
  }

  function Count(calls: seq<Call>, mark: Mark): nat {
    if calls == [] then 0
    else Count(calls[..|calls| - 1], mark) + if mark(At(calls, |calls| - 1)) then 1 else 0
  }

  /** The session counts the Syncs written that neither a ReadyForQuery nor a
      writable COPY has retired yet. */
  lemma {:induction false} SyncsAreCounted(calls: seq<Call>)
    ensures var s := Run(STARTED, calls);
            if Ended(calls) then s.pendingSyncs == 0
            else s.pendingSyncs == Count(calls, WritesSync) - Count(calls, RetiresSync)
    decreases |calls|
  {
    hide Perform, WritesSync, RetiresSync, Ended;
    EndedSince(calls);
    StartedSessionKeepsInv(calls);
    if calls != [] {
      var earlier, c := calls[..|calls| - 1], calls[|calls| - 1];
      assert calls == earlier + [c];
      SyncsAreCounted(earlier);
      RunLast(STARTED, earlier, c);
      StartedSessionKeepsInv(earlier);
      CallFollows(Run(STARTED, earlier), c, 0);
      EndedSince(earlier);
      assert At(calls, |earlier|) == Now(Run(STARTED, earlier), c);
    }
  }

  lemma {:induction false} HasStarted(calls: seq<Call>)
    ensures Run(STARTED, calls).state !in {NotStarted, TLSNegotiated}
    decreases |calls|
  {
    hide Inv, Perform;
    if calls != [] {
      var earlier, c := calls[..|calls| - 1], calls[|calls| - 1];
      assert calls == earlier + [c];
      HasStarted(earlier);
      RunLast(STARTED, earlier, c);
      StartedSessionKeepsInv(earlier);
      CallFollows(Run(STARTED, earlier), c, 0);
    }
  }
}
