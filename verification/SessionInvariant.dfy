/** What every run of typed calls keeps, whatever the backend sends. */
module SessionInvariant {
  import opened Protocol
  import opened SessionState

  /** No query cycle, batch or COPY is under way. */
  predicate Idle(s: State) {
    && s.pendingSyncs == 0 && !s.batchOpen && !s.boundInCycle && !s.portalIsSuspended
    && s.described == None && s.copy == NO_COPY
  }

  /** What the origin of the COPY in progress, if any, says about the rest. */
  predicate CopyMatches(s: State) {
    match s.copy.origin
    case NoCopy => s.copy == NO_COPY
    case SimpleCopy => !s.copy.syncPending && s.pendingSyncs == 0 && !s.batchOpen && !s.portalIsSuspended
    case ExtendedCopy => s.copy.syncPending ==> s.pendingSyncs > 0
  }

  /** Kept by every typed call and every backend message. */
  predicate Inv(s: State) {
    && CopyMatches(s)
    && (s.boundInCycle ==> s.batchOpen)
    && match s.state
       case NotStarted | TLSNegotiated | Closed => Idle(s) && !s.pipelined
       case Ready => Idle(s)
       case SimpleQueryActive =>
         s.pendingSyncs == 0 && !s.batchOpen && !s.portalIsSuspended && s.copy.origin == NoCopy && !s.pipelined
       case ExtendedQueryActive => s.copy.origin == NoCopy && (s.pipelined && !s.batchOpen ==> s.pendingSyncs == 0)
       case RecoveryRequired => s.copy.origin == NoCopy && (s.pipelined ==> s.pendingSyncs == 0)
       case AwaitingReady =>
         && !s.copy.sendOpen
         && (s.copy.origin == NoCopy || (s.copy.origin == ExtendedCopy && s.copy.syncPending && !s.pipelined))
         && (s.pipelined ==> s.pendingSyncs > 0 && !s.batchOpen)
       // Each COPY state fixes the directions in which data may still flow.
       case CopyInActive =>
         s.copy.origin != NoCopy && !s.pipelined && s.copy.sendOpen && !s.copy.receiveOpen && !s.copy.bidirectional
       case CopyOutActive =>
         s.copy.origin != NoCopy && !s.pipelined && !s.copy.sendOpen && s.copy.receiveOpen && !s.copy.bidirectional
       case CopyBothActive =>
         s.copy.origin != NoCopy && !s.pipelined && s.copy.bidirectional && (s.copy.sendOpen || s.copy.receiveOpen)
       case CopyCompletionActive =>
         s.copy.origin != NoCopy && !s.pipelined && !s.copy.sendOpen && !s.copy.receiveOpen
  }

  /** What also holds unless a writable COPY opens for which more than one Sync
      was written: awaiting ReadyForQuery means that a Sync is outstanding. */
  predicate Strict(s: State) {
    && Inv(s)
    && (s.state == AwaitingReady ==> s.pendingSyncs > 0 && !s.batchOpen)
    && (s.state == RecoveryRequired && !s.pipelined ==> s.pendingSyncs == 0)
    && (!s.pipelined && s.pendingSyncs > 0 ==> !s.batchOpen && (s.state == AwaitingReady || s.copy.syncPending))
  }

  predicate AtMostOne(s: State) {
    !s.pipelined ==> s.pendingSyncs <= 1
  }

  /** The session that startup leaves behind. */
  const STARTED := INITIAL.(state := Ready)

  lemma StartedIsStrict()
    ensures Strict(STARTED) && AtMostOne(STARTED)
  {
  }

  /** A second Sync for the same COPY. */
  predicate SecondSync(s: State, c: Call) {
    c == Synchronize && MaySynchronize(s) && s.copy.syncPending
  }

  /** A writable COPY opens while several Syncs are outstanding: only one of
      them is given up, although the server has swallowed them all. */
  predicate StraySync(s: State, c: Call) {
    && c.ReceiveExtended? && StartsWritableCopy(c.event) && s.state in {ExtendedQueryActive, AwaitingReady}
    && !s.pipelined && s.pendingSyncs > 1
  }

  /** A step from `s` that keeps the invariants and, once permitted, is not refused. */
  predicate Keeps(s: State, step: Step) {
    && Inv(step.next) && step.outcome != ProgramError
    && (Strict(s) ==> Strict(step.next)) && (Strict(s) && AtMostOne(s) ==> AtMostOne(step.next))
  }

  lemma OpeningKeeps(s: State, t: Tag)
    requires Inv(s) && MayExtend(s) && t in {Parse, Bind, Describe, Execute, Close}
    ensures Keeps(s, SendCommand(s, t)) && AfterWrite(s, t).batchOpen
  {
  }

  lemma FlushKeeps(s: State)
    requires Inv(s) && MayExtend(s)
    ensures Keeps(s, SendCommand(s, Flush))
  {
  }

  lemma SyncKeepsInv(s: State)
    requires Inv(s) && MaySynchronize(s)
    ensures SendCommand(s, Sync).outcome == Completed
    ensures Inv(AfterWrite(s, Sync)) && (Strict(s) ==> Strict(AfterWrite(s, Sync)))
    ensures Strict(s) && AtMostOne(s) ==> (AtMostOne(AfterWrite(s, Sync)) <==> !s.copy.syncPending)
  {
  }

  lemma CopyWriteKeeps(s: State, t: Tag)
    requires Inv(s) && MayWrite(s, t) && t in {Data, Done, Fail}
    ensures Keeps(s, SendCommand(s, t))
  {
  }

  lemma CompletionKeeps(s: State)
    requires Inv(s) && (s.state == ExtendedQueryActive || s.state == AwaitingReady)
    ensures Keeps(s, CompleteSynchronization(s))
  {
  }

  lemma ExtendedCopyKeeps(s: State, e: Event)
    requires Inv(s) && (s.state == ExtendedQueryActive || s.state == AwaitingReady)
    requires StartsCopy(e) && !s.pipelined
    ensures var step := EnterCopy(s, e, ExtendedCopy, s.pendingSyncs > 0);
            var stray := StartsWritableCopy(e) && s.pendingSyncs > 1;
            && (!stray ==> Keeps(s, step))
            && (stray ==> Inv(step.next) && step.outcome == Completed && (Strict(s) ==> !Strict(step.next) && !AtMostOne(s)))
  {
  }

  lemma QueryEventKeeps(s: State, e: Event)
    requires Inv(s) && s.state == SimpleQueryActive
    ensures Keeps(s, ApplyQueryEvent(s, e))
  {
  }

  lemma ErrorKeeps(s: State)
    requires Inv(s) && (s.state == ExtendedQueryActive || s.state == AwaitingReady)
    ensures Keeps(s, ApplyExtendedEvent(s, ErrorResponse, s.pendingSyncs > 0))
  {
  }

  lemma RowEventKeeps(s: State, e: Event)
    requires Inv(s) && (s.state == ExtendedQueryActive || s.state == AwaitingReady)
    requires e.RowDescription? || e.DataRow?
    ensures Keeps(s, ApplyExtendedEvent(s, e, s.pendingSyncs > 0))
  {
  }

  lemma ResultEventKeeps(s: State, e: Event)
    requires Inv(s) && (s.state == ExtendedQueryActive || s.state == AwaitingReady)
    requires !e.RowDescription? && !e.DataRow? && e != ErrorResponse && e != ReadyForQuery && !StartsCopy(e)
    ensures Keeps(s, ApplyExtendedEvent(s, e, s.pendingSyncs > 0))
  {
  }

  lemma RefusedCopyKeeps(s: State)
    ensures Keeps(s, Step(CLOSED, ProtocolError))
  {
  }

  lemma ExtendedEventKeeps(s: State, e: Event)
    requires Inv(s) && (s.state == ExtendedQueryActive || s.state == AwaitingReady)
    ensures var step := ApplyExtendedEvent(s, e, s.pendingSyncs > 0);
            var stray := StraySync(s, ReceiveExtended(e));
            && (!stray ==> Keeps(s, step))
            && (stray ==> Inv(step.next) && step.outcome == Completed && (Strict(s) ==> !Strict(step.next) && !AtMostOne(s)))
  {
    hide Inv, Strict, AtMostOne, EnterCopy, CompleteSynchronization;
    match e
    case ReadyForQuery => CompletionKeeps(s);
    case CopyInResponse | CopyOutResponse | CopyBothResponse =>
      if s.pipelined { RefusedCopyKeeps(s); } else { ExtendedCopyKeeps(s, e); }
    case ErrorResponse => ErrorKeeps(s);
    case RowDescription(_) | DataRow(_) => RowEventKeeps(s, e);
    case _ => ResultEventKeeps(s, e);
  }

  lemma CompletedCopyKeeps(s: State)
    requires Inv(s) && Permits(s, ReceiveCopy(CommandComplete))
    ensures Keeps(s, ApplyCopyEvent(s, CommandComplete))
  {
  }

  lemma FailedCopyKeeps(s: State)
    requires Inv(s) && Permits(s, ReceiveCopy(ErrorResponse))
    ensures Keeps(s, ApplyCopyEvent(s, ErrorResponse))
  {
  }

  lemma ReadyAfterCopyKeeps(s: State)
    requires Inv(s) && Permits(s, ReceiveCopy(ReadyForQuery))
    ensures Keeps(s, ApplyCopyEvent(s, ReadyForQuery))
  {
  }

  lemma CopyStreamKeeps(s: State, e: Event)
    requires Inv(s) && Permits(s, ReceiveCopy(e)) && e !in {CommandComplete, ErrorResponse, ReadyForQuery}
    ensures Keeps(s, ApplyCopyEvent(s, e))
  {
  }

  lemma CopyEventKeeps(s: State, e: Event)
    requires Inv(s) && Permits(s, ReceiveCopy(e))
    ensures Keeps(s, ApplyCopyEvent(s, e))
  {
    hide Inv, Keeps, ApplyCopyEvent, Permits;
    match e
    case CommandComplete => CompletedCopyKeeps(s);
    case ErrorResponse => FailedCopyKeeps(s);
    case ReadyForQuery => ReadyAfterCopyKeeps(s);
    case _ => CopyStreamKeeps(s, e);
  }

  lemma QuerySendKeeps(s: State, c: Call)
    requires Inv(s) && c.SendQuery? && Permits(s, c)
    ensures Keeps(s, Perform(s, c))
  {
  }

  lemma BindKeeps(s: State)
    requires Inv(s) && Permits(s, BindPortal)
    ensures Keeps(s, Perform(s, BindPortal))
  {
  }

  lemma ResumeKeeps(s: State)
    requires Inv(s) && Permits(s, ResumePortal)
    ensures Keeps(s, Perform(s, ResumePortal))
  {
    OpeningKeeps(s.(portalIsSuspended := false), Execute);
  }

  lemma SendKeeps(s: State, c: Call)
    requires Inv(s) && Permits(s, c) && Writes(c) != [] && c != Synchronize
    ensures Keeps(s, Perform(s, c))
  {
    hide Inv, Strict, AtMostOne;
    match c
    case SendQuery(_) => QuerySendKeeps(s, c);
    case SendCopyData => CopyWriteKeeps(s, Data);
    case FinishCopy => CopyWriteKeeps(s, Done);
    case AbortCopy => CopyWriteKeeps(s, Fail);
    case BindPortal => BindKeeps(s);
    case ResumePortal => ResumeKeeps(s);
    case PrepareStatement => OpeningKeeps(s, Parse);
    case DescribeStatement | DescribePortal => OpeningKeeps(s, Describe);
    case ExecutePortal => OpeningKeeps(s, Execute);
    case CloseStatement | ClosePortal => OpeningKeeps(s, Close);
    case FlushOutput => FlushKeeps(s);
    case _ =>
  }

  lemma ModeChangeKeeps(s: State, c: Call)
    requires Inv(s) && Permits(s, c) && (c == EnterPipelineMode || c == ExitPipelineMode)
    ensures Keeps(s, Perform(s, c))
  {
  }

  lemma PermittedCallKeeps(s: State, c: Call)
    requires Inv(s) && Permits(s, c) && c != Synchronize
    ensures !StraySync(s, c) ==> Keeps(s, Perform(s, c))
    ensures StraySync(s, c) ==> Inv(Perform(s, c).next) && Perform(s, c).outcome == Completed
                                && (Strict(s) ==> !Strict(Perform(s, c).next) && !AtMostOne(s))
  {
    hide Inv, Strict, AtMostOne, ApplyQueryEvent, ApplyExtendedEvent, ApplyCopyEvent;
    match c
    case ReceiveQuery(e) => QueryEventKeeps(s, e);
    case ReceiveExtended(e) => ExtendedEventKeeps(s, e);
    case ReceiveCopy(e) => CopyEventKeeps(s, e);
    case EnterPipelineMode | ExitPipelineMode => ModeChangeKeeps(s, c);
    case _ => SendKeeps(s, c);
  }

  /** One typed call, accepted or refused, with any backend message. A call
      its caller was entitled to make never raises Program_Error. The two ways
      to lose the stronger invariants are exactly the two named above, and
      without a second Sync no Sync is ever stray. */
  lemma {:induction false} CallKeepsInv(s: State, c: Call)
    requires Inv(s)
    ensures Inv(Perform(s, c).next)
    ensures Strict(s) ==> (Strict(Perform(s, c).next) <==> !StraySync(s, c))
    ensures Strict(s) && AtMostOne(s) ==> !StraySync(s, c) && (AtMostOne(Perform(s, c).next) <==> !SecondSync(s, c))
    ensures Permits(s, c) ==> Perform(s, c).outcome != ProgramError
    ensures !Permits(s, c) ==> Perform(s, c) == Step(s, ProgramError)
  {
    hide Inv, Strict;
    if Permits(s, c) {
      if c == Synchronize {
        SyncKeepsInv(s);
      } else {
        PermittedCallKeeps(s, c);
      }
    }
  }

  // -------------------------------------------------------------------- runs

  function Run(s: State, calls: seq<Call>): State
    decreases calls
  {
    if calls == [] then s else Run(Perform(s, calls[0]).next, calls[1..])
  }

  /** No COPY of the run is synchronized twice. */
  predicate OneSyncPerCopy(s: State, calls: seq<Call>)
    decreases calls
  {
    calls != [] ==> !SecondSync(s, calls[0]) && OneSyncPerCopy(Perform(s, calls[0]).next, calls[1..])
  }

  lemma {:induction false} RunKeepsInv(s: State, calls: seq<Call>)
    requires Inv(s)
    ensures Inv(Run(s, calls))
    ensures Strict(s) && AtMostOne(s) && OneSyncPerCopy(s, calls) ==> Strict(Run(s, calls)) && AtMostOne(Run(s, calls))
    decreases calls
  {
    hide Inv, Strict, AtMostOne, SecondSync;
    if calls != [] {
      CallKeepsInv(s, calls[0]);
      RunKeepsInv(Perform(s, calls[0]).next, calls[1..]);
    }
  }

  /** So whatever is called on a session that has just started, and whatever the
      backend sends, the invariant holds. */
  lemma StartedSessionKeepsInv(calls: seq<Call>)
    ensures Inv(Run(STARTED, calls))
    ensures OneSyncPerCopy(STARTED, calls) ==> Strict(Run(STARTED, calls)) && AtMostOne(Run(STARTED, calls))
  {
    StartedIsStrict();
    RunKeepsInv(STARTED, calls);
  }

  /** Executing a bound portal writes into a batch that is already open, so a
      write of Execute leaves the bookkeeping as it is: the resumable send,
      which updates nothing, and the blocking call agree. */
  lemma ExecuteChangesNothing(s: State)
    requires Inv(s) && Permits(s, ExecutePortal)
    ensures Perform(s, ExecutePortal) == Step(s, Completed)
  {
  }
}
