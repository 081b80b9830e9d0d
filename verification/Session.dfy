/** The client session as the program keeps it: one object whose fields the
    typed calls assign in place. Every method is proved to have the effect
    SessionState gives, and so to keep the invariant. */
module ClientSession {
  import opened Protocol
  import opened SessionState
  import opened SessionInvariant

  class Session {
    var currentState: OperationState
    var rowDescription: Option<nat>
    var boundInCycle: bool
    var portalIsSuspended: bool
    var currentCopy: Copy
    var pipelinedMode: bool
    var pendingSyncs: nat
    var batchOpen: bool
    /** The messages written to the channel so far. */
    var written: seq<Command>

    function Value(): State
      reads this
    {
      State(currentState, rowDescription, boundInCycle, portalIsSuspended, currentCopy, pipelinedMode, pendingSyncs, batchOpen)
    }

    constructor ()
      ensures Value() == INITIAL && written == []
    {
      currentState, rowDescription, boundInCycle, portalIsSuspended := NotStarted, None, false, false;
      currentCopy, pipelinedMode, pendingSyncs, batchOpen := NO_COPY, false, 0, false;
      written := [];
    }

    // ------------------------------------------------------------- helpers

    method EnterCopyState(response: Event, origin: CopyOrigin, syncPending: bool) returns (outcome: Outcome)
      modifies this
      ensures var f := EnterCopy(old(Value()), response, origin, syncPending); Value() == f.next && outcome == f.outcome
      ensures outcome == Completed ==>
                && currentCopy.origin == origin
                && match response
                   case CopyInResponse =>
                     currentState == CopyInActive && currentCopy.sendOpen && !currentCopy.receiveOpen && !currentCopy.bidirectional
                   case CopyOutResponse =>
                     currentState == CopyOutActive && !currentCopy.sendOpen && currentCopy.receiveOpen && !currentCopy.bidirectional
                   case CopyBothResponse =>
                     currentState == CopyBothActive && currentCopy.sendOpen && currentCopy.receiveOpen && currentCopy.bidirectional
                   case _ => false
      ensures written == old(written)
    {
      if origin == ExtendedCopy && syncPending && StartsWritableCopy(response) {
        if pendingSyncs == 0 {
          return ProgramError;
        }
        pendingSyncs := pendingSyncs - 1;
      }
      outcome := OpenCopy(response, origin, syncPending && !StartsWritableCopy(response));
    }

    method OpenCopy(response: Event, origin: CopyOrigin, awaited: bool) returns (outcome: Outcome)
      modifies `currentState, `currentCopy
      ensures outcome == if StartsCopy(response) then Completed else ProgramError
      ensures Value() == old(Value()).(state := CopyStateFor(response, old(currentState)),
                                       copy := CopyFor(response, origin, awaited, old(currentCopy)))
    {
      currentCopy := currentCopy.(origin := origin, syncPending := awaited);
      outcome := Completed;
      match response
      case CopyInResponse => OpenDirections(CopyInActive, true, false);
      case CopyOutResponse => OpenDirections(CopyOutActive, false, true);
      case CopyBothResponse => OpenDirections(CopyBothActive, true, true);
      case _ => outcome := ProgramError;
    }

    method OpenDirections(state: OperationState, send: bool, receive: bool)
      modifies `currentState, `currentCopy
      ensures currentState == state
      ensures currentCopy == old(currentCopy).(sendOpen := send, receiveOpen := receive, bidirectional := send && receive)
    {
      currentState := state;
      currentCopy := currentCopy.(sendOpen := send, receiveOpen := receive, bidirectional := send && receive);
    }

    /** Whether a COPY response is refused because batches are pipelined; the
        refusal closes the session. */
    method RefusePipelinedCopy() returns (refused: bool)
      modifies this
      ensures refused == old(pipelinedMode)
      ensures Value() == if refused then CLOSED else old(Value())
      ensures written == old(written)
    {
      refused := pipelinedMode;
      if pipelinedMode {
        currentState := Closed;
        pipelinedMode := false;
        pendingSyncs := 0;
        batchOpen := false;
        rowDescription := None;
        boundInCycle := false;
        portalIsSuspended := false;
        currentCopy := NO_COPY;
      }
    }

    method Complete() returns (outcome: Outcome)
      modifies this
      ensures var f := CompleteSynchronization(old(Value())); Value() == f.next && outcome == f.outcome
      ensures written == old(written)
    {
      if pendingSyncs == 0 {
        return ProtocolError;
      }
      pendingSyncs := pendingSyncs - 1;
      rowDescription := None;
      currentCopy := NO_COPY;
      if !batchOpen {
        boundInCycle := false;
        portalIsSuspended := false;
        currentState := if pendingSyncs > 0 then AwaitingReady else Ready;
      }
      return Completed;
    }

    method Send(command: Command) returns (outcome: Outcome)
      modifies this
      ensures var f := SendCommand(old(Value()), command.tag); Value() == f.next && outcome == f.outcome
      ensures written == old(written) + (if outcome == Completed then [command] else [])
    {
      var tag := command.tag;
      if currentState in {NotStarted, TLSNegotiated, Closed} {
        return ProgramError;
      }
      if tag == Query && pipelinedMode {
        return ProgramError;
      }
      if currentState == RecoveryRequired && tag != Sync && tag != Terminate {
        return ProgramError;
      }
      if currentState == AwaitingReady && tag != Terminate
         && !(pipelinedMode && tag in {Parse, Bind, Describe, Execute, Close, Flush, Sync}) {
        return ProgramError;
      }
      if tag in {Data, Done, Fail} && (currentState !in {CopyInActive, CopyBothActive} || !currentCopy.sendOpen) {
        return ProgramError;
      }
      written := written + [command];
      Record(tag);
      return Completed;
    }

    /** The bookkeeping after a message of kind `tag` has been written. */
    method Record(tag: Tag)
      modifies this
      ensures Value() == AfterWrite(old(Value()), tag) && written == old(written)
    {
      match tag
      case Query =>
        currentState := SimpleQueryActive;
        rowDescription := None;
      case Parse | Bind | Describe | Execute | Close => RecordOpening(tag);
      case Flush =>
        if currentState == Ready {
          currentState := ExtendedQueryActive;
        }
      case Sync => RecordSync();
      case Data =>
      case Done | Fail =>
        currentCopy := currentCopy.(sendOpen := false);
        if currentState != CopyBothActive || !currentCopy.receiveOpen {
          currentState := CopyCompletionActive;
        }
      case Terminate => RecordTerminate();
    }

    method RecordOpening(tag: Tag)
      requires tag in {Parse, Bind, Describe, Execute, Close}
      modifies this
      ensures Value() == AfterWrite(old(Value()), tag) && written == old(written)
    {
      if !batchOpen {
        batchOpen := true;
        boundInCycle := false;
        portalIsSuspended := false;
      }
      if currentState in {Ready, AwaitingReady} {
        currentState := ExtendedQueryActive;
      }
    }

    method RecordSync()
      modifies this
      ensures Value() == AfterWrite(old(Value()), Sync) && written == old(written)
    {
      pendingSyncs := pendingSyncs + 1;
      currentState := AwaitingReady;
      batchOpen := false;
      boundInCycle := false;
      portalIsSuspended := false;
      if currentCopy.origin == ExtendedCopy {
        currentCopy := currentCopy.(syncPending := true);
      }
    }

    method RecordTerminate()
      modifies this
      ensures Value() == CLOSED && written == old(written)
    {
      currentState := Closed;
      rowDescription := None;
      boundInCycle := false;
      portalIsSuspended := false;
      batchOpen := false;
      pipelinedMode := false;
      pendingSyncs := 0;
      currentCopy := NO_COPY;
    }

    // --------------------------------------------------------- typed sends

    predicate MayExtendNow()
      reads this
      ensures MayExtendNow() <==> MayExtend(Value())
    {
      currentState in {Ready, ExtendedQueryActive} || (pipelinedMode && currentState == AwaitingReady)
    }

    /** What every typed call promises: its effect, what it writes, that a
        refusal is without effect, and that the invariant survives it. */
    twostate predicate Performed(c: Call, messages: seq<Command>, outcome: Outcome)
      reads this
    {
      && Value() == Perform(old(Value()), c).next && outcome == Perform(old(Value()), c).outcome
      && |messages| == |Writes(c)| && (forall k :: 0 <= k < |messages| ==> messages[k].tag == Writes(c)[k])
      && written == old(written) + (if outcome == Completed then messages else [])
      && (!Permits(old(Value()), c) ==> outcome == ProgramError)
      && (Inv(old(Value())) ==> Inv(Value()))
      && (Inv(old(Value())) && outcome == ProgramError ==> !Permits(old(Value()), c) && Value() == old(Value()))
    }

    method SendQuery(payload: seq<byte>, length: nat) returns (outcome: Outcome)
      modifies this
      ensures Performed(Call.SendQuery(length), [Command(Query, payload)], outcome)
    {
      if pipelinedMode || currentState != Ready {
        return ProgramError;
      }
      if length > MAXIMUM_MESSAGE_SIZE - 5 {
        return ProtocolError;
      }
      outcome := Send(Command(Query, payload));
      Preserve(old(Value()), Call.SendQuery(length));
    }

    lemma Preserve(s: State, c: Call)
      ensures Inv(s) ==> Inv(Perform(s, c).next)
      ensures Inv(s) && Permits(s, c) ==> Perform(s, c).outcome != ProgramError
    {
      if Inv(s) { CallKeepsInv(s, c); }
    }

    method PrepareStatement(payload: seq<byte>) returns (outcome: Outcome)
      modifies this
      ensures Performed(Call.PrepareStatement, [Command(Parse, payload)], outcome)
    {
      Preserve(Value(), Call.PrepareStatement);
      if !MayExtendNow() {
        return ProgramError;
      }
      outcome := Send(Command(Parse, payload));
    }

    method BindPortal(payload: seq<byte>) returns (outcome: Outcome)
      modifies this
      ensures Performed(Call.BindPortal, [Command(Bind, payload)], outcome)
    {
      Preserve(Value(), Call.BindPortal);
      if !MayExtendNow() {
        return ProgramError;
      }
      outcome := Send(Command(Bind, payload));
      if outcome == Completed {
        boundInCycle := true;
        portalIsSuspended := false;
      }
    }

    method DescribeStatement(payload: seq<byte>) returns (outcome: Outcome)
      modifies this
      ensures Performed(Call.DescribeStatement, [Command(Describe, payload)], outcome)
    {
      Preserve(Value(), Call.DescribeStatement);
      if !MayExtendNow() {
        return ProgramError;
      }
      outcome := Send(Command(Describe, payload));
    }

    method DescribePortal(payload: seq<byte>) returns (outcome: Outcome)
      modifies this
      ensures Performed(Call.DescribePortal, [Command(Describe, payload)], outcome)
    {
      Preserve(Value(), Call.DescribePortal);
      if !MayExtendNow() {
        return ProgramError;
      }
      outcome := Send(Command(Describe, payload));
    }

    method ExecutePortal(payload: seq<byte>) returns (outcome: Outcome)
      modifies this
      ensures Performed(Call.ExecutePortal, [Command(Execute, payload)], outcome)
    {
      Preserve(Value(), Call.ExecutePortal);
      if !MayExtendNow() {
        return ProgramError;
      }
      if !boundInCycle {
        return ProgramError;
      }
      if portalIsSuspended {
        return ProgramError;
      }
      outcome := Send(Command(Execute, payload));
    }

    method ResumePortal(payload: seq<byte>) returns (outcome: Outcome)
      modifies this
      ensures Performed(Call.ResumePortal, [Command(Execute, payload)], outcome)
    {
      Preserve(Value(), Call.ResumePortal);
      if currentState != ExtendedQueryActive || !portalIsSuspended {
        return ProgramError;
      }
      portalIsSuspended := false;
      outcome := Send(Command(Execute, payload));
    }

    method CloseStatement(payload: seq<byte>) returns (outcome: Outcome)
      modifies this
      ensures Performed(Call.CloseStatement, [Command(Close, payload)], outcome)
    {
      Preserve(Value(), Call.CloseStatement);
      if !MayExtendNow() {
        return ProgramError;
      }
      outcome := Send(Command(Close, payload));
    }

    method ClosePortal(payload: seq<byte>) returns (outcome: Outcome)
      modifies this
      ensures Performed(Call.ClosePortal, [Command(Close, payload)], outcome)
    {
      Preserve(Value(), Call.ClosePortal);
      if !MayExtendNow() {
        return ProgramError;
      }
      outcome := Send(Command(Close, payload));
    }

    method FlushOutput() returns (outcome: Outcome)
      modifies this
      ensures Performed(Call.FlushOutput, [Command(Flush, [])], outcome)
    {
      Preserve(Value(), Call.FlushOutput);
      if !MayExtendNow() {
        return ProgramError;
      }
      outcome := Send(Command(Flush, []));
    }

    method Synchronize() returns (outcome: Outcome)
      modifies this
      ensures Performed(Call.Synchronize, [Command(Sync, [])], outcome)
    {
      Preserve(Value(), Call.Synchronize);
      if currentState !in {Ready, ExtendedQueryActive, CopyOutActive, CopyCompletionActive, RecoveryRequired}
         && !(pipelinedMode && currentState == AwaitingReady) {
        return ProgramError;
      }
      if currentState in {CopyOutActive, CopyCompletionActive} && currentCopy.origin != ExtendedCopy {
        return ProgramError;
      }
      outcome := Send(Command(Sync, []));
    }

    method SendCopyData(data: seq<byte>) returns (outcome: Outcome)
      modifies this
      ensures Performed(Call.SendCopyData, [Command(Data, data)], outcome)
    {
      Preserve(Value(), Call.SendCopyData);
      outcome := Send(Command(Data, data));
    }

    method FinishCopy() returns (outcome: Outcome)
      modifies this
      ensures Performed(Call.FinishCopy, [Command(Done, [])], outcome)
    {
      Preserve(Value(), Call.FinishCopy);
      outcome := Send(Command(Done, []));
    }

    method AbortCopy(reason: seq<byte>) returns (outcome: Outcome)
      modifies this
      ensures Performed(Call.AbortCopy, [Command(Fail, reason)], outcome)
    {
      Preserve(Value(), Call.AbortCopy);
      outcome := Send(Command(Fail, reason));
    }

    // ------------------------------------------------------- pipeline mode

    method EnterPipelineMode() returns (outcome: Outcome)
      modifies this
      ensures Performed(Call.EnterPipelineMode, [], outcome)
    {
      Preserve(Value(), Call.EnterPipelineMode);
      if pipelinedMode {
        return Completed;
      }
      if currentState != Ready {
        return ProgramError;
      }
      pipelinedMode := true;
      return Completed;
    }

    method ExitPipelineMode() returns (outcome: Outcome)
      modifies this
      ensures Performed(Call.ExitPipelineMode, [], outcome)
    {
      Preserve(Value(), Call.ExitPipelineMode);
      if !pipelinedMode {
        return Completed;
      }
      if pendingSyncs > 0 {
        return ProgramError;
      }
      if currentState != Ready {
        return ProgramError;
      }
      pipelinedMode := false;
      return Completed;
    }

    // ------------------------------------------------------------ receives

    method ApplyToQuery(response: Event) returns (outcome: Outcome)
      modifies this
      ensures var f := ApplyQueryEvent(old(Value()), response); Value() == f.next && outcome == f.outcome
      ensures written == old(written)
    {
      match response
      case RowDescription(columns) =>
        if rowDescription.Some? {
          return ProtocolError;
        }
        rowDescription := Some(columns);
        return Completed;
      case DataRow(columns) =>
        if rowDescription.None? {
          return ProtocolError;
        }
        if columns != rowDescription.value {
          return ProtocolError;
        }
        return Completed;
      case CommandComplete | EmptyQuery | ErrorResponse =>
        rowDescription := None;
        return Completed;
      case ReadyForQuery =>
        currentState := Ready;
        rowDescription := None;
        return Completed;
      case CopyInResponse | CopyOutResponse | CopyBothResponse =>
        outcome := EnterCopyState(response, SimpleCopy, false);
      case CopyData | CopyDone =>
        return ProtocolError;
      case _ =>
        return Completed;
    }

    method ApplyToBatch(response: Event, syncPending: bool) returns (outcome: Outcome)
      modifies this
      ensures var f := ApplyExtendedEvent(old(Value()), response, syncPending); Value() == f.next && outcome == f.outcome
      ensures written == old(written)
    {
      hide EnterCopy, CompleteSynchronization;
      match response
      case RowDescription(columns) =>
        rowDescription := Some(columns);
        return Completed;
      case DataRow(columns) =>
        if rowDescription.Some? && columns != rowDescription.value {
          return ProtocolError;
        }
        return Completed;
      case CommandComplete | EmptyQuery =>
        rowDescription := None;
        if !syncPending {
          portalIsSuspended := false;
        }
        return Completed;
      case NoData =>
        rowDescription := None;
        return Completed;
      case PortalSuspended =>
        if !syncPending {
          portalIsSuspended := true;
        }
        return Completed;
      case ErrorResponse =>
        rowDescription := None;
        if !syncPending {
          currentState := RecoveryRequired;
          boundInCycle := false;
          portalIsSuspended := false;
        }
        return Completed;
      case ReadyForQuery =>
        outcome := Complete();
      case CopyInResponse | CopyOutResponse | CopyBothResponse =>
        var refused := RefusePipelinedCopy();
        if refused {
          return ProtocolError;
        }
        outcome := EnterCopyState(response, ExtendedCopy, syncPending);
      case CopyData | CopyDone =>
        return ProtocolError;
      case _ =>
        return Completed;
    }

    method ReceiveQueryEvent(response: Event) returns (outcome: Outcome)
      modifies this
      ensures Performed(Call.ReceiveQuery(response), [], outcome)
    {
      Preserve(Value(), Call.ReceiveQuery(response));
      if currentState != SimpleQueryActive {
        return ProgramError;
      }
      outcome := ApplyToQuery(response);
    }

    method ReceiveExtendedEvent(response: Event) returns (outcome: Outcome)
      modifies this
      ensures Performed(Call.ReceiveExtended(response), [], outcome)
    {
      Preserve(Value(), Call.ReceiveExtended(response));
      var syncPending := pendingSyncs > 0;
      if currentState == RecoveryRequired {
        return ProgramError;
      }
      if currentState !in {ExtendedQueryActive, AwaitingReady} {
        return ProgramError;
      }
      outcome := ApplyToBatch(response, syncPending);
    }

    method ReceiveCopyEvent(response: Event) returns (outcome: Outcome)
      modifies this
      ensures Performed(Call.ReceiveCopy(response), [], outcome)
      ensures old(Permits(Value(), Call.ReceiveCopy(response))) && response == CopyData ==>
                (outcome == Completed <==>
                 old(currentCopy.receiveOpen
                     || (currentCopy.bidirectional && !currentCopy.sendOpen && currentState == CopyCompletionActive)))
      ensures old(Permits(Value(), Call.ReceiveCopy(response))) && response == CopyDone ==>
                (outcome == Completed <==> old(currentCopy.receiveOpen)) && !currentCopy.receiveOpen
    {
      Preserve(Value(), Call.ReceiveCopy(response));
      if currentCopy.origin == NoCopy
         || currentState !in {CopyInActive, CopyOutActive, CopyBothActive, CopyCompletionActive, AwaitingReady} {
        return ProgramError;
      }
      outcome := ApplyToCopy(response);
    }

    method CompleteCopy()
      requires !currentCopy.sendOpen && !currentCopy.receiveOpen
      modifies `currentState, `currentCopy
      ensures Value() == ApplyCopyEvent(old(Value()), CommandComplete).next
    {
      if currentCopy.origin == SimpleCopy {
        currentState := SimpleQueryActive;
        currentCopy := NO_COPY;
      } else if currentCopy.syncPending {
        currentState := AwaitingReady;
      } else {
        currentState := ExtendedQueryActive;
        currentCopy := NO_COPY;
      }
    }

    method FailCopy()
      modifies `currentState, `currentCopy
      ensures Value() == ApplyCopyEvent(old(Value()), ErrorResponse).next
    {
      currentCopy := currentCopy.(sendOpen := false, receiveOpen := false);
      if currentCopy.origin == SimpleCopy {
        currentState := CopyCompletionActive;
      } else if currentCopy.syncPending {
        currentState := AwaitingReady;
      } else {
        currentState := RecoveryRequired;
        currentCopy := NO_COPY;
      }
    }

    method ApplyToCopy(response: Event) returns (outcome: Outcome)
      modifies this
      ensures var f := ApplyCopyEvent(old(Value()), response); Value() == f.next && outcome == f.outcome
      ensures written == old(written)
    {
      hide EnterCopy;
      match response
      case CopyData =>
        if !currentCopy.receiveOpen && !(currentCopy.bidirectional && !currentCopy.sendOpen && currentState == CopyCompletionActive) {
          return ProtocolError;
        }
        return Completed;
      case CopyDone =>
        if !currentCopy.receiveOpen {
          return ProtocolError;
        }
        currentCopy := currentCopy.(receiveOpen := false);
        if !currentCopy.sendOpen {
          currentState := CopyCompletionActive;
        }
        return Completed;
      case CommandComplete =>
        if currentCopy.sendOpen || currentCopy.receiveOpen {
          return ProtocolError;
        }
        CompleteCopy();
        return Completed;
      case ErrorResponse =>
        FailCopy();
        return Completed;
      case ReadyForQuery =>
        if currentCopy.origin == ExtendedCopy && !currentCopy.syncPending {
          return ProtocolError;
        }
        if pendingSyncs > 0 {
          pendingSyncs := pendingSyncs - 1;
        }
        batchOpen := false;
        currentState := if pendingSyncs > 0 then AwaitingReady else Ready;
        rowDescription := None;
        boundInCycle := false;
        portalIsSuspended := false;
        currentCopy := NO_COPY;
        return Completed;
      case CopyOutResponse =>
        if currentCopy.origin != SimpleCopy || currentState != CopyCompletionActive
           || currentCopy.sendOpen || currentCopy.receiveOpen {
          return ProtocolError;
        }
        outcome := EnterCopyState(CopyOutResponse, SimpleCopy, false);
      case RowDescription(columns) =>
        if currentCopy.origin != SimpleCopy || currentState != CopyCompletionActive
           || currentCopy.sendOpen || currentCopy.receiveOpen {
          return ProtocolError;
        }
        currentState := SimpleQueryActive;
        rowDescription := Some(columns);
        currentCopy := NO_COPY;
        return Completed;
      case Notice | ParameterStatus =>
        return Completed;
      case _ =>
        return ProtocolError;
    }

    /** The send of Execute that is driven step by step updates nothing when
        its last byte is out; the session is as the blocking call leaves it. */
    method CompletePortalExecute(payload: seq<byte>)
      requires Inv(Value()) && Permits(Value(), Call.ExecutePortal)
      modifies this
      ensures Performed(Call.ExecutePortal, [Command(Execute, payload)], Completed)
    {
      ExecuteChangesNothing(Value());
      Preserve(Value(), Call.ExecutePortal);
      written := written + [Command(Execute, payload)];
    }

    /** Likewise for a simple query, whose completion assigns three fields. */
    method CompleteSimpleQuery(payload: seq<byte>, length: nat)
      requires Permits(Value(), Call.SendQuery(length)) && length <= MAXIMUM_MESSAGE_SIZE - 5
      modifies this
      ensures Performed(Call.SendQuery(length), [Command(Query, payload)], Completed)
    {
      Preserve(Value(), Call.SendQuery(length));
      written := written + [Command(Query, payload)];
      currentState := SimpleQueryActive;
      rowDescription := None;
    }
  }
}
