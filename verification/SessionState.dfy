/** The client session's bookkeeping as a value, and what every typed call of
    the client does to it. These functions are the specification the class in
    Session.dfy is proved against and the step relation of the lemmas. */
module SessionState {
  import opened Protocol

  datatype OperationState =
    | NotStarted
    | TLSNegotiated
    | Ready
    | SimpleQueryActive
    | ExtendedQueryActive
    | CopyInActive
    | CopyOutActive
    | CopyBothActive
    | CopyCompletionActive
    | RecoveryRequired
    | AwaitingReady
    | Closed

  datatype CopyOrigin = NoCopy | SimpleCopy | ExtendedCopy

  datatype Option<+T> = None | Some(value: T)

  /** The COPY in progress, if any: where it began, which directions are
      open, and whether a Sync that ends its batch is already on its way. */
  datatype Copy = Copy(origin: CopyOrigin, sendOpen: bool, receiveOpen: bool, bidirectional: bool, syncPending: bool)

  const NO_COPY := Copy(NoCopy, false, false, false, false)

  /** `described` is the column count of the row description in force. */
  datatype State = State(
    state: OperationState,
    described: Option<nat>,
    boundInCycle: bool,
    portalIsSuspended: bool,
    copy: Copy,
    pipelined: bool,
    pendingSyncs: nat,
    batchOpen: bool)

  const INITIAL := State(NotStarted, None, false, false, NO_COPY, false, 0, false)

  /** How a call ends: normally, refused before it does anything, or with the
      connection's peer found in violation of the protocol. */
  datatype Outcome = Completed | ProgramError | ProtocolError

  datatype Step = Step(next: State, outcome: Outcome)

  predicate InCopyState(s: State) {
    s.state in {CopyInActive, CopyOutActive, CopyBothActive, CopyCompletionActive}
  }

  // ---------------------------------------------------------------- helpers

  /** The state a COPY response leads to; no other message leads to one. */
  function CopyStateFor(e: Event, otherwise: OperationState): OperationState {
    match e
    case CopyInResponse => CopyInActive
    case CopyOutResponse => CopyOutActive
    case CopyBothResponse => CopyBothActive
    case _ => otherwise
  }

  function CopyFor(e: Event, origin: CopyOrigin, pending: bool, otherwise: Copy): Copy {
    match e
    case CopyInResponse => Copy(origin, true, false, false, pending)
    case CopyOutResponse => Copy(origin, false, true, false, pending)
    case CopyBothResponse => Copy(origin, true, true, true, pending)
    case _ => otherwise.(origin := origin, syncPending := pending)
  }

  /** A COPY opens. PostgreSQL reads a Sync sent after Execute as part of
      writable COPY, so no ReadyForQuery will answer it. */
  function EnterCopy(s: State, e: Event, origin: CopyOrigin, syncPending: bool): Step {
    var retires := origin == ExtendedCopy && syncPending && StartsWritableCopy(e);
    if retires && s.pendingSyncs == 0 then Step(s, ProgramError)
    else Step(s.(pendingSyncs := if retires then s.pendingSyncs - 1 else s.pendingSyncs,
                 state := CopyStateFor(e, s.state),
                 copy := CopyFor(e, origin, syncPending && !StartsWritableCopy(e), s.copy)),
              if StartsCopy(e) then Completed else ProgramError)
  }

  /** A closed session keeps nothing of the batches it had in flight. */
  const CLOSED := INITIAL.(state := Closed)

  /** ReadyForQuery retires the oldest outstanding Sync. */
  function CompleteSynchronization(s: State): Step {
    if s.pendingSyncs == 0 then Step(s, ProtocolError)
    else
      var t := s.(pendingSyncs := s.pendingSyncs - 1, described := None, copy := NO_COPY);
      Step(if s.batchOpen then t
           else t.(boundInCycle := false, portalIsSuspended := false,
                   state := if t.pendingSyncs > 0 then AwaitingReady else Ready),
           Completed)
  }

  // ------------------------------------------------------------------ sends

  /** Whether a session in state `s` lets a message of kind `t` be written. */
  predicate MayWrite(s: State, t: Tag) {
    && s.state !in {NotStarted, TLSNegotiated, Closed}
    && (t == Query ==> !s.pipelined)
    && (s.state == RecoveryRequired ==> t in {Sync, Terminate})
    && (s.state == AwaitingReady ==>
          t == Terminate || (s.pipelined && t in {Parse, Bind, Describe, Execute, Close, Flush, Sync}))
    && (t in {Data, Done, Fail} ==> s.state in {CopyInActive, CopyBothActive} && s.copy.sendOpen)
  }

  function AfterWrite(s: State, t: Tag): State {
    match t
    case Query => s.(described := None, state := SimpleQueryActive)
    case Parse | Bind | Describe | Execute | Close =>
      var started := if s.batchOpen then s
                    else s.(batchOpen := true, boundInCycle := false, portalIsSuspended := false);
      started.(state := if s.state in {Ready, AwaitingReady} then ExtendedQueryActive else s.state)
    case Flush => s.(state := if s.state == Ready then ExtendedQueryActive else s.state)
    case Sync =>
      s.(pendingSyncs := s.pendingSyncs + 1, state := AwaitingReady, batchOpen := false,
         boundInCycle := false, portalIsSuspended := false,
         copy := s.copy.(syncPending := s.copy.origin == ExtendedCopy || s.copy.syncPending))
    case Data => s
    case Done | Fail =>
      s.(copy := s.copy.(sendOpen := false),
         state := if s.state == CopyBothActive && s.copy.receiveOpen then CopyBothActive
                  else CopyCompletionActive)
    case Terminate => CLOSED
  }

  function SendCommand(s: State, t: Tag): Step {
    if MayWrite(s, t) then Step(AfterWrite(s, t), Completed) else Step(s, ProgramError)
  }

  // --------------------------------------------------------------- receives

  function ApplyQueryEvent(s: State, e: Event): Step {
    match e
    case RowDescription(n) =>
      if s.described.Some? then Step(s, ProtocolError) else Step(s.(described := Some(n)), Completed)
    case DataRow(n) =>
      Step(s, if s.described == Some(n) then Completed else ProtocolError)
    case CommandComplete | EmptyQuery | ErrorResponse => Step(s.(described := None), Completed)
    case ReadyForQuery => Step(s.(described := None, state := Ready), Completed)
    case CopyInResponse | CopyOutResponse | CopyBothResponse => EnterCopy(s, e, SimpleCopy, false)
    case CopyData | CopyDone => Step(s, ProtocolError)
    case _ => Step(s, Completed)
  }

  function ApplyExtendedEvent(s: State, e: Event, syncPending: bool): Step {
    match e
    case RowDescription(n) => Step(s.(described := Some(n)), Completed)
    case DataRow(n) =>
      Step(s, if s.described.Some? && s.described.value != n then ProtocolError else Completed)
    case CommandComplete | EmptyQuery =>
      Step(s.(described := None, portalIsSuspended := s.portalIsSuspended && syncPending), Completed)
    case NoData => Step(s.(described := None), Completed)
    case PortalSuspended => Step(s.(portalIsSuspended := s.portalIsSuspended || !syncPending), Completed)
    case ErrorResponse =>
      Step(if syncPending then s.(described := None)
           else s.(described := None, state := RecoveryRequired, boundInCycle := false, portalIsSuspended := false),
           Completed)
    case ReadyForQuery => CompleteSynchronization(s)
    case CopyInResponse | CopyOutResponse | CopyBothResponse =>
      if s.pipelined then Step(CLOSED, ProtocolError)
      else EnterCopy(s, e, ExtendedCopy, syncPending)
    case CopyData | CopyDone => Step(s, ProtocolError)
    case _ => Step(s, Completed)
  }

  /** Between two COPY results of one simple query nothing is being streamed. */
  predicate BetweenSimpleCopies(s: State) {
    s.copy.origin == SimpleCopy && s.state == CopyCompletionActive && !s.copy.sendOpen && !s.copy.receiveOpen
  }

  function ApplyCopyEvent(s: State, e: Event): Step {
    match e
    case CopyData =>
      var crossed := s.copy.bidirectional && !s.copy.sendOpen && s.state == CopyCompletionActive;
      Step(s, if s.copy.receiveOpen || crossed then Completed else ProtocolError)
    case CopyDone =>
      if !s.copy.receiveOpen then Step(s, ProtocolError)
      else Step(s.(copy := s.copy.(receiveOpen := false),
                   state := if s.copy.sendOpen then s.state else CopyCompletionActive), Completed)
    case CommandComplete =>
      if s.copy.sendOpen || s.copy.receiveOpen then Step(s, ProtocolError)
      else if s.copy.origin == SimpleCopy then Step(s.(copy := NO_COPY, state := SimpleQueryActive), Completed)
      else if s.copy.syncPending then Step(s.(state := AwaitingReady), Completed)
      else Step(s.(copy := NO_COPY, state := ExtendedQueryActive), Completed)
    case ErrorResponse =>
      var shut := s.(copy := s.copy.(sendOpen := false, receiveOpen := false));
      if s.copy.origin == SimpleCopy then Step(shut.(state := CopyCompletionActive), Completed)
      else if s.copy.syncPending then Step(shut.(state := AwaitingReady), Completed)
      else Step(shut.(copy := NO_COPY, state := RecoveryRequired), Completed)
    case ReadyForQuery =>
      if s.copy.origin == ExtendedCopy && !s.copy.syncPending then Step(s, ProtocolError)
      else
        var left := if s.pendingSyncs > 0 then s.pendingSyncs - 1 else 0;
        Step(s.(described := None, copy := NO_COPY, pendingSyncs := left, batchOpen := false, boundInCycle := false,
                                       portalIsSuspended := false,
                                       state := if left > 0 then AwaitingReady else Ready), Completed)
    case CopyOutResponse =>
      if BetweenSimpleCopies(s) then EnterCopy(s, e, SimpleCopy, false) else Step(s, ProtocolError)
    case RowDescription(n) =>
      if BetweenSimpleCopies(s)
      then Step(s.(copy := NO_COPY, state := SimpleQueryActive, described := Some(n)), Completed)
      else Step(s, ProtocolError)
    case Notice | ParameterStatus => Step(s, Completed)
    case _ => Step(s, ProtocolError)
  }

  // ------------------------------------------------------------ typed calls

  /** The typed calls, a receive carrying the message the backend sent. */
  datatype Call =
    | SendQuery(length: nat)
    | PrepareStatement
    | BindPortal
    | DescribeStatement
    | DescribePortal
    | ExecutePortal
    | ResumePortal
    | CloseStatement
    | ClosePortal
    | FlushOutput
    | Synchronize
    | SendCopyData
    | FinishCopy
    | AbortCopy
    | EnterPipelineMode
    | ExitPipelineMode
    | ReceiveQuery(event: Event)
    | ReceiveExtended(event: Event)
    | ReceiveCopy(event: Event)

  predicate MayExtend(s: State) {
    s.state in {Ready, ExtendedQueryActive} || (s.pipelined && s.state == AwaitingReady)
  }

  predicate MaySynchronize(s: State) {
    && (s.state in {Ready, ExtendedQueryActive, CopyOutActive, CopyCompletionActive, RecoveryRequired}
        || (s.pipelined && s.state == AwaitingReady))
    && (s.state in {CopyOutActive, CopyCompletionActive} ==> s.copy.origin == ExtendedCopy)
  }

  /** What a caller must have established for the call not to be refused. */
  predicate Permits(s: State, c: Call) {
    match c
    case SendQuery(_) => !s.pipelined && s.state == Ready
    case PrepareStatement | BindPortal | DescribeStatement | DescribePortal
       | CloseStatement | ClosePortal | FlushOutput => MayExtend(s)
    case ExecutePortal => MayExtend(s) && s.boundInCycle && !s.portalIsSuspended
    case ResumePortal => s.state == ExtendedQueryActive && s.portalIsSuspended
    case Synchronize => MaySynchronize(s)
    case SendCopyData | FinishCopy | AbortCopy => MayWrite(s, Data)
    case EnterPipelineMode => s.pipelined || s.state == Ready
    case ExitPipelineMode => !s.pipelined || (s.pendingSyncs == 0 && s.state == Ready)
    case ReceiveQuery(_) => s.state == SimpleQueryActive
    case ReceiveExtended(_) => s.state in {ExtendedQueryActive, AwaitingReady}
    case ReceiveCopy(_) => s.copy.origin != NoCopy && (InCopyState(s) || s.state == AwaitingReady)
  }

  /** The message kind a call writes, for the calls that write one. */
  function Writes(c: Call): (tags: seq<Tag>) {
    match c
    case SendQuery(_) => [Query]
    case PrepareStatement => [Parse]
    case BindPortal => [Bind]
    case DescribeStatement | DescribePortal => [Describe]
    case ExecutePortal | ResumePortal => [Execute]
    case CloseStatement | ClosePortal => [Close]
    case FlushOutput => [Flush]
    case Synchronize => [Sync]
    case SendCopyData => [Data]
    case FinishCopy => [Done]
    case AbortCopy => [Fail]
    case _ => []
  }

  function Perform(s: State, c: Call): Step {
    if !Permits(s, c) then Step(s, ProgramError)
    else match c
    case SendQuery(length) =>
      if length > MAXIMUM_MESSAGE_SIZE - 5 then Step(s, ProtocolError) else SendCommand(s, Query)
    case BindPortal => Step(AfterWrite(s, Bind).(boundInCycle := true, portalIsSuspended := false), Completed)
    case ResumePortal => SendCommand(s.(portalIsSuspended := false), Execute)
    case EnterPipelineMode => Step(s.(pipelined := true), Completed)
    case ExitPipelineMode => Step(s.(pipelined := false), Completed)
    case ReceiveQuery(e) => ApplyQueryEvent(s, e)
    case ReceiveExtended(e) => ApplyExtendedEvent(s, e, s.pendingSyncs > 0)
    case ReceiveCopy(e) => ApplyCopyEvent(s, e)
    case _ => SendCommand(s, Writes(c)[0])
  }
}
