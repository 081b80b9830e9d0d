/** The loop by which an application reads off the batches it has pipelined. */
module DrainLoop {
  import opened Protocol
  import opened SessionState
  import opened SessionInvariant
  import opened ClientSession
  import opened PostgresBackend
  import opened Pipeline
  import PipelineRuns
  import PipelineTheorems

  function Described(d: Option<nat>, e: Event): Option<nat> {
    match e
    case RowDescription(n) => Some(n)
    case CommandComplete | EmptyQuery | NoData | ErrorResponse | ReadyForQuery => None
    case _ => d
  }

  /** Whether pipelined receives take the message: no COPY, and rows as wide
      as the row description in force says. */
  predicate Fits(d: Option<nat>, e: Event) {
    match e
    case DataRow(n) => d.Some? ==> d.value == n
    case CopyInResponse | CopyOutResponse | CopyBothResponse | CopyData | CopyDone => false
    case _ => true
  }

  predicate AllFit(d: Option<nat>, replies: seq<Reply>)
    decreases replies
  {
    replies != [] ==> Fits(d, replies[0].event) && AllFit(Described(d, replies[0].event), replies[1..])
  }

  lemma AllFitTail(d: Option<nat>, replies: seq<Reply>)
    requires replies != []
    ensures AllFit(d, replies)
       <==> Fits(d, replies[0].event) && AllFit(Described(d, replies[0].event), replies[1..])
  {
  }

  lemma NothingFits()
    ensures forall d :: AllFit(d, [])
  {
  }

  /** Every batch written is closed by its Sync. */
  predicate Draining(s: State) {
    s.pipelined && !s.batchOpen && s.state in {Ready, AwaitingReady}
  }

  lemma ReceiveWhileDraining(s: State, e: Event)
    requires Strict(s) && Draining(s) && s.pendingSyncs > 0
    ensures var step := Perform(s, ReceiveExtended(e));
            && (step.outcome == Completed <==> Fits(s.described, e)) && step.outcome != ProgramError
            && (step.outcome == Completed ==> Draining(step.next) && step.next.described == Described(s.described, e))
  {
  }

  /** `rest` is all that a session between its last Sync and the end of the
      loop has yet to read. */
  predicate Behind(s: State, rest: seq<Reply>, mode: Mode, batches: nat) {
    Balanced(s, rest, mode, batches, NoCopyPending) && Draining(s)
  }

  lemma DrainStep(s: State, rest: seq<Reply>, mode: Mode, batches: nat)
    requires Behind(s, rest, mode, batches) && s.pendingSyncs > 0
    ensures rest != []
    ensures var step := Perform(s, ReceiveExtended(rest[0].event));
            && (step.outcome == Completed <==> Fits(s.described, rest[0].event)) && step.outcome != ProgramError
            && (step.outcome == Completed ==> Behind(step.next, rest[1..], mode, batches)
                                              && step.next.described == Described(s.described, rest[0].event))
  {
    assert NoCopyAhead(s, rest, mode);
    ReceiveWhileDraining(s, rest[0].event);
    if Perform(s, ReceiveExtended(rest[0].event)).outcome == Completed {
      PipelineRuns.ReceiveKeepsBalance(s, ReceiveExtended(rest[0].event), rest, mode, batches, NoCopyPending);
    }
  }

  /** One turn of the loop. */
  method ReadNext(session: Session, reply: Reply, ghost rest: seq<Reply>, ghost mode: Mode, ghost batches: nat)
    returns (outcome: Outcome)
    requires Behind(session.Value(), rest, mode, batches) && session.pendingSyncs > 0
    requires rest != [] && reply == rest[0]
    modifies session
    ensures outcome == if Fits(old(session.rowDescription), reply.event) then Completed else ProtocolError
    ensures outcome == Completed ==>
              Behind(session.Value(), rest[1..], mode, batches)
              && session.rowDescription == Described(old(session.rowDescription), reply.event)
    ensures session.written == old(session.written)
  {
    DrainStep(session.Value(), rest, mode, batches);
    outcome := session.ReceiveExtendedEvent(reply.event);
  }

  method Leave(session: Session, ghost rest: seq<Reply>, ghost mode: Mode, ghost batches: nat)
    returns (outcome: Outcome)
    requires Behind(session.Value(), rest, mode, batches) && session.pendingSyncs == 0
    modifies session
    ensures outcome == Completed && session.Value() == STARTED && rest == []
    ensures session.written == old(session.written)
  {
    NothingLeft(session.Value(), rest, mode, batches);
    outcome := session.ExitPipelineMode();
  }

  /** Reads until no Sync is outstanding and leaves pipeline mode. Every
      batch's replies are consumed, none beyond, and the session ends as one
      that has just become ready; unless a message does not fit, in which case
      the receive that meets it raises. */
  method Drain(session: Session, replies: seq<Reply>, ghost mode: Mode, ghost batches: nat)
    returns (consumed: nat, outcome: Outcome)
    requires Behind(session.Value(), replies, mode, batches)
    modifies session
    ensures outcome == Completed <==> AllFit(old(session.rowDescription), replies)
    ensures outcome == Completed ==> consumed == |replies| && session.Value() == STARTED
    ensures outcome != Completed ==> outcome == ProtocolError && consumed < |replies|
    ensures session.written == old(session.written)
  {
    hide Behind, AllFit, Fits, Described;
    NothingFits();
    consumed, outcome := 0, Completed;
    while session.pendingSyncs > 0
      invariant consumed <= |replies|
      invariant Behind(session.Value(), replies[consumed..], mode, batches)
      invariant AllFit(old(session.rowDescription), replies) <==> AllFit(session.rowDescription, replies[consumed..])
      invariant session.written == old(session.written)
      decreases |replies| - consumed
    {
      NotEmpty(session.Value(), replies[consumed..], mode, batches);
      ghost var d := session.rowDescription;
      outcome := ReadNext(session, replies[consumed], replies[consumed..], mode, batches);
      if outcome != Completed {
        AllFitTail(d, replies[consumed..]);
        return;
      }
      AllFitTail(d, replies[consumed..]);
      assert replies[consumed..][1..] == replies[consumed + 1..];
      consumed := consumed + 1;
    }
    outcome := Leave(session, replies[consumed..], mode, batches);
  }

  lemma NotEmpty(s: State, out: seq<Reply>, mode: Mode, batches: nat)
    requires Behind(s, out, mode, batches) && s.pendingSyncs > 0
    ensures out != []
  {
  }

  lemma NothingLeft(s: State, out: seq<Reply>, mode: Mode, batches: nat)
    requires Behind(s, out, mode, batches) && s.pendingSyncs == 0
    ensures out == [] && s == STARTED.(pipelined := true)
  {
  }

  /** The loop can be entered in every reached state of pipeline mode in which
      the batches written are closed. */
  lemma RunsEndBehind<D(!new)>(b: Backend<D>, db: D, y: PipelineRuns.System<D>)
    requires Legal(b) && PipelineRuns.Reached(b, db, y) && Draining(y.client)
    ensures Behind(y.client, PipelineRuns.Outstanding(b, y.link), PipelineRuns.Final(b, y.link).mode, Syncs(y.written))
  {
    PipelineTheorems.ReachedInv(b, db, y);
  }
}
