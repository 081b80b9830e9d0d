/** Which calls a session accepts and which messages it takes for violations,
    told by the history of the session alone. */
module SessionTraces {
  import opened Protocol
  import opened SessionState
  import opened SessionInvariant
  import opened SessionHistory

  ghost predicate Undescribed(calls: seq<Call>) {
    forall n: nat :: !Described(calls, n)
  }

  /** Commands may be added: no query, COPY or recovery is under way, and no
      ReadyForQuery is awaited unless batches are pipelined. */
  ghost predicate BatchGrows(calls: seq<Call>) {
    && !Ended(calls) && !Recovering(calls) && !Querying(calls) && !Copying(calls)
    && (Awaiting(calls) ==> Pipelined(calls))
  }

  /** The calls a session lets its caller make. */
  ghost predicate Admits(calls: seq<Call>, c: Call) {
    match c
    case SendQuery(_) => !Busy(calls) && !Pipelined(calls)
    case PrepareStatement | BindPortal | DescribeStatement | DescribePortal | CloseStatement | ClosePortal
       | FlushOutput => BatchGrows(calls)
    case ExecutePortal => BatchGrows(calls) && Bound(calls) && !Suspended(calls)
    case ResumePortal => BatchGrows(calls) && Suspended(calls) && Busy(calls) && !Awaiting(calls)
    case Synchronize =>
      || BatchGrows(calls) || Recovering(calls)
      || (CopyingInBatch(calls) && !Sending(calls) && !Awaiting(calls) && !(CopyingBoth(calls) && Receiving(calls)))
    case SendCopyData | FinishCopy | AbortCopy => Sending(calls)
    case EnterPipelineMode => Pipelined(calls) || !Busy(calls)
    case ExitPipelineMode => !Pipelined(calls) || !Busy(calls)
    case ReceiveQuery(_) => Querying(calls)
    case ReceiveExtended(_) =>
      && Busy(calls) && !Ended(calls) && !Recovering(calls) && !Querying(calls)
      && (Copying(calls) ==> Awaiting(calls))
    case ReceiveCopy(_) => Copying(calls)
  }

  /** The messages the backend may send next, and the queries that fit a frame. */
  ghost predicate Conforms(calls: seq<Call>, c: Call) {
    match c
    case SendQuery(length) => length <= 16 * 1024 * 1024 - 5
    case ReceiveQuery(e) => (
      match e
      case RowDescription(_) => Undescribed(calls)
      case DataRow(n) => Described(calls, n)
      case CopyData | CopyDone => false
      case _ => true)
    case ReceiveExtended(e) => (
      match e
      case DataRow(n) => Undescribed(calls) || Described(calls, n)
      case ReadyForQuery => Count(calls, WritesSync) > Count(calls, RetiresSync)
      case CopyInResponse | CopyOutResponse | CopyBothResponse => !Pipelined(calls)
      case CopyData | CopyDone => false
      case _ => true)
    case ReceiveCopy(e) => (
      match e
      case CopyData => Receiving(calls) || (CopyingBoth(calls) && !Sending(calls) && !Awaiting(calls))
      case CopyDone => Receiving(calls)
      case CommandComplete => !Sending(calls) && !Receiving(calls)
      case ReadyForQuery => CopyingInBatch(calls) ==> CopySynced(calls)
      case CopyOutResponse | RowDescription(_) => !CopyingInBatch(calls) && !Sending(calls) && !Receiving(calls)
      case ErrorResponse | Notice | ParameterStatus => true
      case _ => false)
    case _ => true
  }

  /** The history says all there is to know of a session's state. */
  lemma HistoryIsState(calls: seq<Call>)
    ensures var s := Run(STARTED, calls);
            && (s.state == Ready <==> !Busy(calls)) && (s.state == SimpleQueryActive <==> Querying(calls))
            && (s.state == AwaitingReady <==> Awaiting(calls)) && (s.state == RecoveryRequired <==> Recovering(calls))
            && (s.state == Closed <==> Ended(calls)) && s.state != NotStarted && s.state != TLSNegotiated
            && s.boundInCycle == Bound(calls) && s.portalIsSuspended == Suspended(calls)
            && s.pipelined == Pipelined(calls) && s.batchOpen == BatchOpen(calls)
            && (CopyingInBatch(calls) ==> Copying(calls))
            && s.copy == Copy(if CopyingInBatch(calls) then ExtendedCopy else if Copying(calls) then SimpleCopy else NoCopy,
                              Sending(calls), Receiving(calls), CopyingBoth(calls), CopySynced(calls))
            && (forall n: nat :: s.described == Some(n) <==> Described(calls, n))
            && (s.described == None <==> Undescribed(calls))
            && s.pendingSyncs == if Ended(calls) then 0 else Count(calls, WritesSync) - Count(calls, RetiresSync)
  {
    hide *;
    BusySince(calls); QueryingSince(calls); AwaitingSince(calls); RecoveringSince(calls); EndedSince(calls);
    HasStarted(calls);
    BoundSince(calls); SuspendedSince(calls); PipelinedSince(calls); BatchOpenSince(calls);
    SendingSince(calls); ReceivingSince(calls); CopyingBothSince(calls); CopySyncedSince(calls);
    CopyingSince(calls); CopyingInBatchSince(calls);
    forall n: nat ensures Run(STARTED, calls).described == Some(n) <==> Described(calls, n) {
      DescribedSince(calls, n);
    }
    UndescribedSince(calls);
    SyncsAreCounted(calls);
  }

  lemma UndescribedSince(calls: seq<Call>)
    ensures Run(STARTED, calls).described == None <==> Undescribed(calls)
  {
    hide Described, Run, STARTED;
    var d := Run(STARTED, calls).described;
    forall n: nat ensures d == Some(n) <==> Described(calls, n) {
      DescribedSince(calls, n);
    }
    if d.Some? { assert Described(calls, d.value); }
  }

  lemma ReceiveAdmittedIff(calls: seq<Call>, c: Call)
    requires c.ReceiveQuery? || c.ReceiveExtended? || c.ReceiveCopy?
    ensures Permits(Run(STARTED, calls), c) <==> Admits(calls, c)
  {
    hide Run, Since, Busy, Querying, Awaiting, Recovering, Ended, Bound, Suspended, Pipelined, BatchOpen, Sending, Receiving,
         CopyingBoth, CopySynced, Copying, CopyingInBatch, Described, Undescribed, Count;
    HistoryIsState(calls);
    StartedSessionKeepsInv(calls);
  }

  lemma BatchGrowsIff(calls: seq<Call>)
    ensures MayExtend(Run(STARTED, calls)) <==> BatchGrows(calls)
    ensures MaySynchronize(Run(STARTED, calls)) <==> Admits(calls, Synchronize)
  {
    hide Run, Since, Busy, Querying, Awaiting, Recovering, Ended, Bound, Suspended, Pipelined, BatchOpen, Sending, Receiving,
         CopyingBoth, CopySynced, Copying, CopyingInBatch, Described, Undescribed, Count;
    HistoryIsState(calls);
    StartedSessionKeepsInv(calls);
  }

  lemma SendAdmittedIff(calls: seq<Call>, c: Call)
    requires !c.ReceiveQuery? && !c.ReceiveExtended? && !c.ReceiveCopy?
    ensures Permits(Run(STARTED, calls), c) <==> Admits(calls, c)
  {
    BatchGrowsIff(calls);
    hide BatchGrows, MaySynchronize;
    hide Run, Since, Busy, Querying, Awaiting, Recovering, Ended, Bound, Suspended, Pipelined, BatchOpen, Sending, Receiving,
         CopyingBoth, CopySynced, Copying, CopyingInBatch, Described, Undescribed, Count;
    HistoryIsState(calls);
    StartedSessionKeepsInv(calls);
  }

  lemma AdmittedIff(calls: seq<Call>, c: Call)
    ensures Permits(Run(STARTED, calls), c) <==> Admits(calls, c)
  {
    hide Permits, Admits, Run;
    if c.ReceiveQuery? || c.ReceiveExtended? || c.ReceiveCopy? {
      ReceiveAdmittedIff(calls, c);
    } else {
      SendAdmittedIff(calls, c);
    }
  }

  lemma QueryEventConforms(calls: seq<Call>, e: Event)
    requires Permits(Run(STARTED, calls), ReceiveQuery(e))
    ensures Perform(Run(STARTED, calls), ReceiveQuery(e)).outcome
         == if Conforms(calls, ReceiveQuery(e)) then Completed else ProtocolError
  {
    hide Run, Since, Busy, Querying, Awaiting, Recovering, Ended, Bound, Suspended, Pipelined, BatchOpen, Sending, Receiving,
         CopyingBoth, CopySynced, Copying, CopyingInBatch, Described, Undescribed, Count;
    HistoryIsState(calls);
    StartedSessionKeepsInv(calls);
  }

  lemma BatchRowConforms(calls: seq<Call>, e: Event)
    requires Permits(Run(STARTED, calls), ReceiveExtended(e)) && (e.RowDescription? || e.DataRow?)
    ensures Perform(Run(STARTED, calls), ReceiveExtended(e)).outcome
         == if Conforms(calls, ReceiveExtended(e)) then Completed else ProtocolError
  {
    hide Run, Since, Busy, Querying, Awaiting, Recovering, Ended, Bound, Suspended, Pipelined, BatchOpen, Sending, Receiving,
         CopyingBoth, CopySynced, Copying, CopyingInBatch, Described, Undescribed, Count;
    HistoryIsState(calls);
    StartedSessionKeepsInv(calls);
  }

  lemma BatchCopyConforms(calls: seq<Call>, e: Event)
    requires Permits(Run(STARTED, calls), ReceiveExtended(e)) && (e.CopyInResponse? || e.CopyOutResponse? || e.CopyBothResponse?)
    ensures Perform(Run(STARTED, calls), ReceiveExtended(e)).outcome
         == if Conforms(calls, ReceiveExtended(e)) then Completed else ProtocolError
  {
    hide Run, Since, Busy, Querying, Awaiting, Recovering, Ended, Bound, Suspended, Pipelined, BatchOpen, Sending, Receiving,
         CopyingBoth, CopySynced, Copying, CopyingInBatch, Described, Undescribed, Count;
    HistoryIsState(calls);
    StartedSessionKeepsInv(calls);
  }

  lemma BatchReadyConforms(calls: seq<Call>, e: Event)
    requires Permits(Run(STARTED, calls), ReceiveExtended(e)) && (e.ReadyForQuery? || e.CopyData? || e.CopyDone?)
    ensures Perform(Run(STARTED, calls), ReceiveExtended(e)).outcome
         == if Conforms(calls, ReceiveExtended(e)) then Completed else ProtocolError
  {
    hide Run, Since, Busy, Querying, Awaiting, Recovering, Ended, Bound, Suspended, Pipelined, BatchOpen, Sending, Receiving,
         CopyingBoth, CopySynced, Copying, CopyingInBatch, Described, Undescribed, Count;
    HistoryIsState(calls);
    StartedSessionKeepsInv(calls);
  }

  lemma BatchOtherConforms(calls: seq<Call>, e: Event)
    requires Permits(Run(STARTED, calls), ReceiveExtended(e)) && !e.RowDescription? && !e.DataRow? && !e.ReadyForQuery?
    requires !e.CopyInResponse? && !e.CopyOutResponse? && !e.CopyBothResponse? && !e.CopyData? && !e.CopyDone?
    ensures Perform(Run(STARTED, calls), ReceiveExtended(e)).outcome
         == if Conforms(calls, ReceiveExtended(e)) then Completed else ProtocolError
  {
    hide Run;
  }

  lemma ExtendedEventConforms(calls: seq<Call>, e: Event)
    requires Permits(Run(STARTED, calls), ReceiveExtended(e))
    ensures Perform(Run(STARTED, calls), ReceiveExtended(e)).outcome
         == if Conforms(calls, ReceiveExtended(e)) then Completed else ProtocolError
  {
    hide Run, Permits, Conforms, Perform;
    match e
    case RowDescription(_) | DataRow(_) => BatchRowConforms(calls, e);
    case CopyInResponse | CopyOutResponse | CopyBothResponse => BatchCopyConforms(calls, e);
    case ReadyForQuery | CopyData | CopyDone => BatchReadyConforms(calls, e);
    case _ => BatchOtherConforms(calls, e);
  }

  lemma CopyStreamConforms(calls: seq<Call>, e: Event)
    requires Permits(Run(STARTED, calls), ReceiveCopy(e)) && (e.CopyData? || e.CopyDone? || e.CommandComplete?)
    ensures Perform(Run(STARTED, calls), ReceiveCopy(e)).outcome
         == if Conforms(calls, ReceiveCopy(e)) then Completed else ProtocolError
  {
    hide Run, Since, Busy, Querying, Awaiting, Recovering, Ended, Bound, Suspended, Pipelined, BatchOpen, Sending, Receiving,
         CopyingBoth, CopySynced, Copying, CopyingInBatch, Described, Undescribed, Count;
    HistoryIsState(calls);
    StartedSessionKeepsInv(calls);
  }

  lemma CopyEndConforms(calls: seq<Call>, e: Event)
    requires Permits(Run(STARTED, calls), ReceiveCopy(e)) && (e.ReadyForQuery? || e.ErrorResponse? || e.Notice? || e.ParameterStatus?)
    ensures Perform(Run(STARTED, calls), ReceiveCopy(e)).outcome
         == if Conforms(calls, ReceiveCopy(e)) then Completed else ProtocolError
  {
    hide Run, Since, Busy, Querying, Awaiting, Recovering, Ended, Bound, Suspended, Pipelined, BatchOpen, Sending, Receiving,
         CopyingBoth, CopySynced, Copying, CopyingInBatch, Described, Undescribed, Count;
    HistoryIsState(calls);
    StartedSessionKeepsInv(calls);
  }

  lemma NextCopyConforms(calls: seq<Call>, e: Event)
    requires Permits(Run(STARTED, calls), ReceiveCopy(e)) && (e == CopyOutResponse || e.RowDescription?)
    ensures Perform(Run(STARTED, calls), ReceiveCopy(e)).outcome
         == if Conforms(calls, ReceiveCopy(e)) then Completed else ProtocolError
  {
    hide Run, Since, Busy, Querying, Awaiting, Recovering, Ended, Bound, Suspended, Pipelined, BatchOpen, Sending, Receiving,
         CopyingBoth, CopySynced, Copying, CopyingInBatch, Described, Undescribed, Count;
    HistoryIsState(calls);
    StartedSessionKeepsInv(calls);
  }

  lemma CopyEventConforms(calls: seq<Call>, e: Event)
    requires Permits(Run(STARTED, calls), ReceiveCopy(e))
    ensures Perform(Run(STARTED, calls), ReceiveCopy(e)).outcome
         == if Conforms(calls, ReceiveCopy(e)) then Completed else ProtocolError
  {
    hide Run, Permits, Conforms;
    match e
    case CopyData | CopyDone | CommandComplete => CopyStreamConforms(calls, e);
    case ReadyForQuery | ErrorResponse | Notice | ParameterStatus => CopyEndConforms(calls, e);
    case CopyOutResponse | RowDescription(_) => NextCopyConforms(calls, e);
    case _ => StrayConforms(calls, e);
  }

  lemma StrayConforms(calls: seq<Call>, e: Event)
    requires Permits(Run(STARTED, calls), ReceiveCopy(e))
    requires !e.RowDescription? && e !in {CopyData, CopyDone, CommandComplete, ReadyForQuery, ErrorResponse, Notice,
                                         ParameterStatus, CopyOutResponse}
    ensures Perform(Run(STARTED, calls), ReceiveCopy(e)).outcome == ProtocolError && !Conforms(calls, ReceiveCopy(e))
  {
    hide Run;
  }

  lemma SendConforms(calls: seq<Call>, c: Call)
    requires Permits(Run(STARTED, calls), c) && !c.ReceiveQuery? && !c.ReceiveExtended? && !c.ReceiveCopy?
    ensures Perform(Run(STARTED, calls), c).outcome == if Conforms(calls, c) then Completed else ProtocolError
  {
    hide Run, Inv, Permits;
    var s := Run(STARTED, calls);
    StartedSessionKeepsInv(calls);
    CallKeepsInv(s, c);
  }

  /** How every call on a session that has started ends, whatever was called
      and read before: it is refused if its history does not admit it, else it
      completes unless what was read does not conform to that history. */
  lemma OutcomeIsHistory(calls: seq<Call>, c: Call)
    ensures Perform(Run(STARTED, calls), c).outcome
         == if !Admits(calls, c) then ProgramError else if Conforms(calls, c) then Completed else ProtocolError
  {
    hide Run, Admits, Conforms, Permits, Perform;
    StartedSessionKeepsInv(calls);
    CallKeepsInv(Run(STARTED, calls), c);
    AdmittedIff(calls, c);
    if Permits(Run(STARTED, calls), c) {
      match c
      case ReceiveQuery(e) => QueryEventConforms(calls, e);
      case ReceiveExtended(e) => ExtendedEventConforms(calls, e);
      case ReceiveCopy(e) => CopyEventConforms(calls, e);
      case _ => SendConforms(calls, c);
    }
  }

  /** Which messages may be written at all, by whichever call. */
  ghost predicate MaySend(calls: seq<Call>, t: Tag) {
    && !Ended(calls)
    && match t
       case Terminate => true
       case Sync => Awaiting(calls) ==> Pipelined(calls)
       case Query => !Pipelined(calls) && !Recovering(calls) && !Awaiting(calls)
       case Data | Done | Fail => Sending(calls)
       case _ => !Recovering(calls) && (Awaiting(calls) ==> Pipelined(calls))
  }

  /** A message that may not be written changes nothing, and Terminate leaves a
      session that remembers nothing. */
  lemma SendIsHistory(calls: seq<Call>, t: Tag)
    ensures SendCommand(Run(STARTED, calls), t).outcome == if MaySend(calls, t) then Completed else ProgramError
    ensures !MaySend(calls, t) ==> SendCommand(Run(STARTED, calls), t).next == Run(STARTED, calls)
    ensures MaySend(calls, Terminate) ==>
              SendCommand(Run(STARTED, calls), Terminate).next
              == State(Closed, None, false, false, Copy(NoCopy, false, false, false, false), false, 0, false)
  {
    hide Run, Since, Busy, Querying, Awaiting, Recovering, Ended, Bound, Suspended, Pipelined, BatchOpen, Sending, Receiving,
         CopyingBoth, CopySynced, Copying, CopyingInBatch, Described, Undescribed, Count;
    HistoryIsState(calls);
    StartedSessionKeepsInv(calls);
  }

  // ----------------------------------------------------------- COPY BOTH

  /** The calls of a COPY BOTH stream that is still being read. */
  predicate Streams(c: Call) {
    c == ReceiveCopy(CopyData) || c == SendCopyData || c == FinishCopy || c == AbortCopy
  }

  predicate EndsSending(c: Call) {
    c == FinishCopy || c == AbortCopy
  }

  /** Data is being read, and may be written unless `finished`. */
  predicate Streaming(s: State, finished: bool) {
    s.state == CopyBothActive && s.copy.origin != NoCopy && s.copy.receiveOpen && s.copy.bidirectional && s.copy.sendOpen == !finished
  }

  lemma StreamStep(s: State, c: Call, finished: bool)
    requires Streaming(s, finished) && Streams(c)
    ensures Perform(s, c).outcome == if c == ReceiveCopy(CopyData) || !finished then Completed else ProgramError
    ensures Streaming(Perform(s, c).next, finished || EndsSending(c))
  {
  }

  lemma {:induction false} StreamRuns(s: State, calls: seq<Call>)
    requires Streaming(s, false) && forall k :: 0 <= k < |calls| ==> Streams(calls[k])
    ensures Streaming(Run(s, calls), exists k :: 0 <= k < |calls| && EndsSending(calls[k]))
    decreases |calls|
  {
    hide Streaming, Perform, Streams, EndsSending;
    if calls != [] {
      var earlier, c := calls[..|calls| - 1], calls[|calls| - 1];
      assert calls == earlier + [c];
      StreamRuns(s, earlier);
      RunLast(s, earlier, c);
      var finished := exists k :: 0 <= k < |earlier| && EndsSending(earlier[k]);
      StreamStep(Run(s, earlier), c, finished);
      assert (exists k :: 0 <= k < |calls| && EndsSending(calls[k])) == (finished || EndsSending(c)) by {
        assert forall k :: 0 <= k < |earlier| ==> calls[k] == earlier[k];
        if EndsSending(c) { assert EndsSending(calls[|earlier|]); }
        if finished {
          var k :| 0 <= k < |earlier| && EndsSending(earlier[k]);
          assert EndsSending(calls[k]);
        }
      }
    }
  }

  lemma BothOpens(s: State, first: Call)
    requires Inv(s) && Perform(s, first).outcome == Completed
    requires first == ReceiveQuery(CopyBothResponse) || first == ReceiveExtended(CopyBothResponse)
    ensures Streaming(Perform(s, first).next, false)
  {
  }

  lemma StreamDone(s: State, finished: bool)
    requires Streaming(s, finished)
    ensures Perform(s, ReceiveCopy(CopyDone)).outcome == Completed
  {
  }

  /** A COPY BOTH stream, of a query or a batch: any number of CopyData and one
      CopyDone are read, however the writes interleave, and data is written
      until it is finished or aborted. */
  lemma BothStreamIsRead(s: State, first: Call, calls: seq<Call>, k: nat)
    requires Inv(s) && Perform(s, first).outcome == Completed && k < |calls|
    requires first == ReceiveQuery(CopyBothResponse) || first == ReceiveExtended(CopyBothResponse)
    requires forall j :: 0 <= j < |calls| ==> Streams(calls[j])
    ensures var found := Run(Perform(s, first).next, calls[..k]);
            && (Perform(found, calls[k]).outcome == Completed
                <==> calls[k] == ReceiveCopy(CopyData) || forall j :: 0 <= j < k ==> !EndsSending(calls[j]))
            && Perform(found, ReceiveCopy(CopyDone)).outcome == Completed
  {
    hide Inv, Perform, Streaming, Streams, EndsSending;
    BothOpens(s, first);
    var t := Perform(s, first).next;
    assert forall j :: 0 <= j < k ==> calls[..k][j] == calls[j];
    StreamRuns(t, calls[..k]);
    var finished := exists j :: 0 <= j < |calls[..k]| && EndsSending(calls[..k][j]);
    StreamStep(Run(t, calls[..k]), calls[k], finished);
    StreamDone(Run(t, calls[..k]), finished);
    if j :| 0 <= j < k && EndsSending(calls[j]) {
      assert EndsSending(calls[..k][j]);
    }
  }
}
