/** The client, the two channels and the server together. */
module Pipeline {
  import opened Protocol
  import opened SessionState
  import opened SessionInvariant
  import opened PostgresBackend

  /** What the application has to know of an Execute of a COPY it feeds that has
      not been answered yet: whether one Sync may follow it before its answer. */
  datatype Pending = NoCopyPending | SyncMayFollow | SyncMustWait

  /** An error that no ReadyForQuery follows leaves the server discarding. */
  predicate ErrorsSettled(out: seq<Reply>, mode: Mode) {
    mode != Discarding ==>
      forall i {:trigger out[i]} :: 0 <= i < |out| && out[i].event.ErrorResponse? ==> Readies(out[i..]) > 0
  }

  /** Every reply still to be read belongs to the batch that many
      ReadyForQuery messages before the last one written. */
  predicate Numbered(out: seq<Reply>, last: int) {
    forall i {:trigger out[i]} :: 0 <= i < |out| ==> out[i].batch + Readies(out[i..]) == last
  }

  /** The Sync, if any, that is on its way into a writable COPY. */
  function Early(s: State, out: seq<Reply>): nat {
    if Copies(out) > 0 then s.pendingSyncs else 0
  }

  /** A writable COPY is about to open: its response ends all there is to read. */
  predicate CopyAhead(s: State, out: seq<Reply>, mode: Mode, pending: Pending) {
    && Copies(out) == 1 && Readies(out) == 0 && StartsWritableCopy(out[|out| - 1].event)
    && mode == ReadingCopy && !s.copy.sendOpen && !pending.NoCopyPending?
  }

  /** A writable COPY is about to open that the server has already left; no
      Sync was on its way. */
  predicate CopyLost(s: State, out: seq<Reply>, mode: Mode, pending: Pending) {
    && Copies(out) == 1 && Readies(out) == 0 && |out| >= 2
    && StartsWritableCopy(out[|out| - 2].event) && out[|out| - 1].event == ErrorResponse && NoErrors(out[..|out| - 1])
    && mode == Discarding && !s.copy.sendOpen && s.pendingSyncs == 0 && pending.SyncMustWait?
  }

  predicate NoErrors(out: seq<Reply>) {
    forall i {:trigger out[i]} :: 0 <= i < |out| ==> !out[i].event.ErrorResponse?
  }

  predicate NoCopyAhead(s: State, out: seq<Reply>, mode: Mode) {
    && Copies(out) == 0 && s.pendingSyncs == Readies(out)
    && (mode == ReadingCopy ==> s.copy.sendOpen)
    && (s.copy.sendOpen ==> s.pendingSyncs == 0 && !s.copy.syncPending && mode != Normal)
    && (!s.batchOpen && s.pendingSyncs > 0 ==> out[|out| - 1].event.ReadyForQuery? && mode == Normal)
  }

  predicate Started(s: State) {
    s.state !in {NotStarted, TLSNegotiated, Closed, SimpleQueryActive} && s.copy.origin != SimpleCopy
  }

  /** What relates the client's bookkeeping to everything still to be read,
      `out`, and to the mode the server is in once it has said all that. */
  predicate Balanced(s: State, out: seq<Reply>, mode: Mode, batches: nat, pending: Pending) {
    && Strict(s) && Started(s)
    && (s.state == Ready ==> out == [] && mode == Normal && pending.NoCopyPending?)
    && ErrorsSettled(out, mode)
    && Numbered(out, batches - Early(s, out))
    && (!pending.NoCopyPending? ==> !s.pipelined && s.pendingSyncs <= 1 && !s.copy.sendOpen)
    && (pending.SyncMustWait? ==> s.pendingSyncs == 0)
    && (CopyAhead(s, out, mode, pending) || CopyLost(s, out, mode, pending) || NoCopyAhead(s, out, mode))
  }

  predicate Opens(t: Tag) {
    t in {Parse, Bind, Describe, Execute, Close}
  }

  /** The writes of an application that drives batches. */
  predicate Writable(s: State, c: Call, command: Command) {
    Writes(c) == [command.tag] && !c.SendQuery? && Permits(s, c)
  }

  /** What the application has to see to: it runs a COPY it feeds outside
      pipeline mode only, and while an Execute of such a COPY is unanswered it
      writes one Sync at most, and none if the server may give the COPY up by
      itself or something in the batch follows the Execute. */
  predicate Careful(copies: Command -> Feeding, s: State, pending: Pending, command: Command) {
    && (s.pipelined ==> !StartsCopyAt(copies, command))
    && (command.tag == Sync ==> pending.NoCopyPending? || (pending.SyncMayFollow? && s.pendingSyncs == 0))
  }

  predicate Disciplined(copies: Command -> Feeding, s: State, pending: Pending, c: Call, command: Command) {
    Writable(s, c, command) && Careful(copies, s, pending, command)
  }

  function PendingAfter(copies: Command -> Feeding, pending: Pending, command: Command): Pending {
    if !pending.NoCopyPending? then (if Opens(command.tag) then SyncMustWait else pending)
    else if !StartsCopyAt(copies, command) then NoCopyPending
    else if copies(command).Patient? then SyncMayFollow else SyncMustWait
  }

  /** The messages that end the wait for a COPY: its response, an error, after
      which the server discards the Execute, and ReadyForQuery. */
  predicate Settles(e: Event) {
    e.ReadyForQuery? || e.ErrorResponse? || StartsWritableCopy(e)
  }

  function PendingAfterReply(pending: Pending, e: Event): Pending {
    if Settles(e) then NoCopyPending else pending
  }

  /** ReadyForQuery, after whatever committing had to say. */
  predicate CommitAnswer(answer: seq<Event>) {
    answer != [] && answer[|answer| - 1] == ReadyForQuery && LegalCommit(answer[..|answer| - 1])
  }

  /** What a legal server does with one command, as a relation. */
  predicate Answers(copies: Command -> Feeding, mode: Mode, c: Command, answer: seq<Event>, after: Mode) {
    if c.tag == Sync then
      if mode == ReadingCopy then answer == [] && after == mode else CommitAnswer(answer) && after == Normal
    else if c.tag == Flush || mode == Discarding || (mode == Normal && c.tag in {Data, Done, Fail}) then
      answer == [] && after == mode
    else if mode == ReadingCopy && c.tag !in {Data, Done, Fail} then answer == [ErrorResponse] && after == Discarding
    else LegalAnswer(copies, c, answer) && after == ModeAfter(c, answer, mode)
  }

  lemma ServeAnswers<D(!new)>(b: Backend<D>, s: Server<D>, c: Command)
    requires Legal(b)
    ensures var (t, answer) := Serve(b, s, c); Answers(b.copies, s.mode, c, answer, t.mode)
  {
    assert LegalAnswer(b.copies, c, b.respond(s.db, c).1);
    var before := b.commit(s.db).1;
    assert LegalCommit(before) && (before + [ReadyForQuery])[..|before|] == before;
  }

  // ------------------------------------------------------------ the replies

  lemma {:induction false} SuffixReadies(out: seq<Reply>, more: seq<Reply>, i: nat)
    requires i <= |out|
    ensures Readies((out + more)[i..]) == Readies(out[i..]) + Readies(more)
  {
    assert (out + more)[i..] == out[i..] + more;
    CountAppend(out[i..], more);
  }

  /** In what a Sync is answered, ReadyForQuery is the last message and no other. */
  lemma CommitSuffix(answer: seq<Event>, batch: nat, j: nat)
    requires CommitAnswer(answer) && j < |answer|
    ensures Readies(Label(answer, batch)[j..]) == 1 && Copies(Label(answer, batch)) == 0
  {
    var n := |answer| - 1;
    assert answer == answer[..n] + [ReadyForQuery];
    CommitCounts(answer[..n], batch);
    var more := Label(answer, batch);
    NoneCounted(more[..n]);
    NoneCounted(more[j..n]);
    assert more[j..] == more[j..n] + [more[n]] && [more[n]][1..] == [];
    assert forall r :: r in more[j..n] ==> r in more[..n];
    CountAppend(more[j..n], [more[n]]);
  }

  lemma CommitOpensNone(answer: seq<Event>)
    requires CommitAnswer(answer)
    ensures OpensNone(answer)
  {
    var before := answer[..|answer| - 1];
    assert forall i :: 0 <= i < |before| ==> answer[i] == before[i];
  }

  lemma NumberedAppend(out: seq<Reply>, answer: seq<Event>, batch: nat, last: int)
    requires Numbered(out, last)
    requires CommitAnswer(answer) || Readies(Label(answer, batch)) == 0
    requires batch == last
    ensures Numbered(out + Label(answer, batch), last + Readies(Label(answer, batch)))
  {
    var more := Label(answer, batch);
    forall i | 0 <= i < |out + more|
      ensures (out + more)[i].batch + Readies((out + more)[i..]) == last + Readies(more)
    {
      if i < |out| {
        SuffixReadies(out, more, i);
      } else {
        assert (out + more)[i..] == more[i - |out|..] && more[0..] == more;
        if CommitAnswer(answer) {
          CommitSuffix(answer, batch, 0);
          CommitSuffix(answer, batch, i - |out|);
        } else {
          NoneCounted(more);
          NoneCounted(more[i - |out|..]);
        }
      }
    }
  }

  lemma ErrorsSettledAppend(out: seq<Reply>, answer: seq<Event>, batch: nat, mode: Mode, after: Mode)
    requires ErrorsSettled(out, mode)
    requires mode != Discarding || CommitAnswer(answer) || after == Discarding
    requires after != Discarding ==> CommitAnswer(answer) || ErrorResponse !in answer
    requires CommitAnswer(answer) || Readies(Label(answer, batch)) == 0
    ensures ErrorsSettled(out + Label(answer, batch), after)
  {
    var more := Label(answer, batch);
    if after != Discarding {
      forall i | 0 <= i < |out + more| && (out + more)[i].event.ErrorResponse?
        ensures Readies((out + more)[i..]) > 0
      {
        if i < |out| {
          SuffixReadies(out, more, i);
          if CommitAnswer(answer) { CommitSuffix(answer, batch, 0); assert more[0..] == more; }
        } else {
          assert (out + more)[i..] == more[i - |out|..];
          if CommitAnswer(answer) { CommitSuffix(answer, batch, i - |out|); }
        }
      }
    }
  }

  lemma Tail(out: seq<Reply>, mode: Mode, last: int)
    requires out != [] && ErrorsSettled(out, mode) && Numbered(out, last)
    ensures ErrorsSettled(out[1..], mode) && Numbered(out[1..], last)
  {
    forall i | 0 <= i < |out[1..]| ensures out[1..][i..] == out[i + 1..] && out[1..][i] == out[i + 1] {}
  }

  // ----------------------------------------------------------------- writes

  lemma BalancedAgain(t: State, out: seq<Reply>, mode: Mode, batches: nat, pending: Pending)
    requires Strict(t) && Started(t) && t.state != Ready && ErrorsSettled(out, mode) && Numbered(out, batches - Early(t, out))
    requires !pending.NoCopyPending? ==> !t.pipelined && t.pendingSyncs <= 1 && !t.copy.sendOpen
    requires pending.SyncMustWait? ==> t.pendingSyncs == 0
    requires CopyAhead(t, out, mode, pending) || CopyLost(t, out, mode, pending) || NoCopyAhead(t, out, mode)
    ensures Balanced(t, out, mode, batches, pending)
  {
    hide Strict, Started, ErrorsSettled, Numbered, CopyAhead, CopyLost, NoCopyAhead, Early;
  }

  /** What a command that belongs to the open batch leaves of the session. */
  predicate Opened(s: State, t: State) {
    && Strict(t) && Started(t) && t.state == ExtendedQueryActive && t.batchOpen
    && t.copy == s.copy == NO_COPY && t.pipelined == s.pipelined
    && t.pendingSyncs == s.pendingSyncs && (!s.pipelined ==> s.pendingSyncs == 0)
  }

  /** Commands that belong to an open batch change the session only there. */
  lemma OpeningWrite(s: State, c: Call, t: Tag)
    requires Strict(s) && Permits(s, c) && Writes(c) == [t] && Opens(t)
    ensures Perform(s, c).outcome == Completed && Opened(s, Perform(s, c).next)
  {
    CallKeepsInv(s, c);
  }

  lemma AnswerCounts(copies: Command -> Feeding, command: Command, mode: Mode, answer: seq<Event>, after: Mode, batch: nat)
    requires Answers(copies, mode, command, answer, after)
    ensures CommitAnswer(answer) || Readies(Label(answer, batch)) == 0
    ensures Readies(Label(answer, batch)) == if command.tag == Sync && mode != ReadingCopy then 1 else 0
    ensures Copies(Label(answer, batch)) == if OpensNone(answer) then 0 else 1
    ensures mode != Discarding || CommitAnswer(answer) || after == Discarding
    ensures after != Discarding ==> CommitAnswer(answer) || ErrorResponse !in answer
  {
    hide Readies, Copies, LegalCommit;
    assert [] == Label([], batch);
    NoneCounted([]);
    if command.tag == Sync && mode != ReadingCopy {
      CommitSuffix(answer, batch, 0);
      CommitOpensNone(answer);
      assert Label(answer, batch)[0..] == Label(answer, batch);
    } else if answer == [ErrorResponse] {
      assert Label(answer, batch) == [Reply(ErrorResponse, batch)];
      NoneCounted([Reply(ErrorResponse, batch)]);
    } else if answer != [] {
      LegalAnswerCounts(copies, command, answer, batch);
    }
  }

  /** What one more answer does to the replies still to be read, when no
      writable COPY is about to open. */
  lemma AnswerAppended(copies: Command -> Feeding, command: Command, out: seq<Reply>, mode: Mode, batches: nat,
                       answer: seq<Event>, after: Mode)
    requires Answers(copies, mode, command, answer, after)
    requires ErrorsSettled(out, mode) && Numbered(out, batches) && Copies(out) == 0
    ensures var out' := out + Label(answer, batches);
            var synced := if command.tag == Sync && mode != ReadingCopy then 1 else 0;
            && ErrorsSettled(out', after) && Numbered(out', batches + synced)
            && Readies(out') == Readies(out) + synced
            && Copies(out') == if OpensNone(answer) then 0 else 1
  {
    hide Answers, ErrorsSettled, Numbered, Readies, Copies, CommitAnswer;
    AnswerCounts(copies, command, mode, answer, after, batches);
    CountAppend(out, Label(answer, batches));
    NumberedAppend(out, answer, batches, batches);
    ErrorsSettledAppend(out, answer, batches, mode, after);
  }

  lemma {:induction false} NoReadiesBehind(out: seq<Reply>, i: nat)
    requires i <= |out| && Readies(out) == 0
    ensures Readies(out[i..]) == 0
  {
    hide Readies, Copies;
    assert out == out[..i] + out[i..];
    CountAppend(out[..i], out[i..]);
  }

  /** An error unread and unsettled would leave the server discarding. */
  lemma NoErrorsLeft(out: seq<Reply>, mode: Mode)
    requires ErrorsSettled(out, mode) && mode != Discarding && Readies(out) == 0
    ensures NoErrors(out)
  {
    hide Readies;
    forall i | 0 <= i < |out| ensures Readies(out[i..]) == 0 {
      NoReadiesBehind(out, i);
    }
  }

  /** What an answer with a COPY response leaves to be read. */
  lemma OpeningAhead(out: seq<Reply>, answer: seq<Event>, batch: nat)
    requires OpensCopy(answer) || (GivesUp(answer) && NoErrors(out))
    ensures var out' := out + Label(answer, batch);
            if OpensCopy(answer) then out' != [] && StartsWritableCopy(out'[|out'| - 1].event)
            else |out'| >= 2 && StartsWritableCopy(out'[|out'| - 2].event) && out'[|out'| - 1].event == ErrorResponse
                 && NoErrors(out'[..|out'| - 1])
  {
    if !OpensCopy(answer) {
      var front := answer[..|answer| - 1];
      assert front[|front| - 1] == answer[|answer| - 2];
      assert forall i :: 0 <= i < |front| ==> answer[i] == front[i];
    }
  }

  lemma OpeningKeepsBalance(copies: Command -> Feeding, s: State, c: Call, command: Command,
                            out: seq<Reply>, mode: Mode, batches: nat, answer: seq<Event>, after: Mode, pending: Pending)
    requires Balanced(s, out, mode, batches, pending)
    requires Disciplined(copies, s, pending, c, command) && Opens(command.tag)
    requires Answers(copies, mode, command, answer, after)
    ensures Balanced(Perform(s, c).next, out + Label(answer, batches), after, batches, PendingAfter(copies, pending, command))
  {
    hide Perform, Permits, Strict, Readies, Copies, Numbered, ErrorsSettled, Balanced;
    WhenBalanced(s, out, mode, batches, pending);
    OpeningWrite(s, c, command.tag);
    if NoCopyAhead(s, out, mode) {
      OpeningBeforeCopy(copies, s, Perform(s, c).next, command, out, mode, batches, answer, after, pending);
    } else {
      OpeningBehindCopy(copies, s, Perform(s, c).next, command, out, mode, batches, answer, after, pending);
    }
  }

  lemma WhenBalanced(s: State, out: seq<Reply>, mode: Mode, batches: nat, pending: Pending)
    requires Balanced(s, out, mode, batches, pending)
    ensures Strict(s) && Started(s) && ErrorsSettled(out, mode) && Numbered(out, batches - Early(s, out))
    ensures CopyAhead(s, out, mode, pending) || CopyLost(s, out, mode, pending) || NoCopyAhead(s, out, mode)
    ensures !pending.NoCopyPending? ==> !s.pipelined && s.pendingSyncs <= 1 && !s.copy.sendOpen
    ensures pending.SyncMustWait? ==> s.pendingSyncs == 0
  {
  }

  lemma OpeningBeforeCopy(copies: Command -> Feeding, s: State, t: State, command: Command,
                          out: seq<Reply>, mode: Mode, batches: nat, answer: seq<Event>, after: Mode, pending: Pending)
    requires Opened(s, t) && NoCopyAhead(s, out, mode) && ErrorsSettled(out, mode) && Numbered(out, batches)
    requires Opens(command.tag) && Careful(copies, s, pending, command) && Answers(copies, mode, command, answer, after)
    requires !pending.NoCopyPending? ==> !s.pipelined
    ensures Balanced(t, out + Label(answer, batches), after, batches, PendingAfter(copies, pending, command))
  {
    hide Strict, Started, Readies, Copies, Numbered, ErrorsSettled, NoErrors, OpensNone, OpensCopy, GivesUp, Answers;
    AnswerAppended(copies, command, out, mode, batches, answer, after);
    OpeningAnswer(copies, mode, command, answer, after);
    if !OpensNone(answer) {
      NoErrorsLeft(out, mode);
      OpeningAhead(out, answer, batches);
    }
    BalancedAgain(t, out + Label(answer, batches), after, batches, PendingAfter(copies, pending, command));
  }

  /** What opens a COPY, and what becomes of the server. */
  lemma OpeningAnswer(copies: Command -> Feeding, mode: Mode, command: Command, answer: seq<Event>, after: Mode)
    requires Answers(copies, mode, command, answer, after) && Opens(command.tag) && mode != ReadingCopy
    ensures OpensNone(answer) ==> after != ReadingCopy
    ensures !OpensNone(answer) ==>
              && mode == Normal && StartsCopyAt(copies, command)
              && LegalAnswer(copies, command, answer) && (OpensCopy(answer) || GivesUp(answer))
              && (OpensCopy(answer) ==> after == ReadingCopy && !GivesUp(answer))
              && (GivesUp(answer) ==> after == Discarding && copies(command).Hasty?)
  {
  }

  /** A command behind the COPY that opens makes it fail; behind one that has
      failed it is discarded. */
  lemma OpeningBehindCopy(copies: Command -> Feeding, s: State, t: State, command: Command,
                          out: seq<Reply>, mode: Mode, batches: nat, answer: seq<Event>, after: Mode, pending: Pending)
    requires Opened(s, t) && ErrorsSettled(out, mode) && Numbered(out, batches - Early(s, out))
    requires CopyAhead(s, out, mode, pending) || CopyLost(s, out, mode, pending)
    requires Opens(command.tag) && Answers(copies, mode, command, answer, after) && !s.pipelined
    ensures Balanced(t, out + Label(answer, batches), after, batches, PendingAfter(copies, pending, command))
  {
    hide Strict, Readies, Copies, Numbered, ErrorsSettled;
    if CopyLost(s, out, mode, pending) {
      assert out + Label(answer, batches) == out;
    } else {
      var error := [Reply(ErrorResponse, batches)];
      assert Label(answer, batches) == error;
      NoErrorsLeft(out, mode);
      NoneCounted(error);
      CountAppend(out, error);
      NumberedAppend(out, answer, batches, batches);
      AllSettledWhileDiscarding(out + error);
      assert (out + error)[..|out|] == out;
    }
  }

  lemma AllSettledWhileDiscarding(out: seq<Reply>)
    ensures ErrorsSettled(out, Discarding)
  {
  }

  lemma FlushWrite(s: State)
    requires Strict(s) && Permits(s, FlushOutput)
    ensures var step := Perform(s, FlushOutput);
            && step.outcome == Completed && Strict(step.next) && Started(step.next) && step.next.state != Ready
            && step.next.batchOpen == s.batchOpen && step.next.copy == s.copy && step.next.pipelined == s.pipelined
            && step.next.pendingSyncs == s.pendingSyncs
  {
    CallKeepsInv(s, FlushOutput);
  }

  lemma FlushKeepsBalance(copies: Command -> Feeding, s: State, c: Call, command: Command,
                          out: seq<Reply>, mode: Mode, batches: nat, answer: seq<Event>, after: Mode, pending: Pending)
    requires Balanced(s, out, mode, batches, pending)
    requires Disciplined(copies, s, pending, c, command) && command.tag == Flush
    requires Answers(copies, mode, command, answer, after)
    ensures Balanced(Perform(s, c).next, out + Label(answer, batches), after, batches,
                     PendingAfter(copies, pending, command))
  {
    hide Perform, Permits, Strict, Readies, Copies, Numbered, ErrorsSettled;
    assert c == FlushOutput;
    FlushWrite(s);
    assert out + Label(answer, batches) == out;
  }

  lemma SyncWrite(s: State)
    requires Strict(s) && Started(s) && Permits(s, Synchronize)
    ensures var step := Perform(s, Synchronize);
            && step.outcome == Completed && Strict(step.next) && Started(step.next) && step.next.state == AwaitingReady
            && !step.next.batchOpen && step.next.pipelined == s.pipelined
            && step.next.pendingSyncs == s.pendingSyncs + 1 && !step.next.copy.sendOpen && !s.copy.sendOpen
  {
    CallKeepsInv(s, Synchronize);
  }

  lemma {:induction false} SyncKeepsBalance(copies: Command -> Feeding, s: State, c: Call, command: Command,
                         out: seq<Reply>, mode: Mode, batches: nat, answer: seq<Event>, after: Mode, pending: Pending)
    requires Balanced(s, out, mode, batches, pending)
    requires Disciplined(copies, s, pending, c, command) && command.tag == Sync
    requires Answers(copies, mode, command, answer, after)
    ensures Balanced(Perform(s, c).next, out + Label(answer, batches), after, batches + 1,
                     PendingAfter(copies, pending, command))
  {
    hide Perform, Permits, Strict, Readies, Copies, Numbered, ErrorsSettled;
    assert c == Synchronize;
    SyncWrite(s);
    if CopyAhead(s, out, mode, pending) {
      assert out + Label(answer, batches) == out;
    } else {
      AnswerAppended(copies, command, out, mode, batches, answer, after);
    }
  }

  lemma CopyWrite(s: State, c: Call, t: Tag)
    requires Strict(s) && Started(s) && Permits(s, c) && Writes(c) == [t] && t in {Data, Done, Fail}
    ensures var step := Perform(s, c);
            && step.outcome == Completed && Strict(step.next) && Started(step.next) && step.next.state != Ready
            && step.next.batchOpen == s.batchOpen && step.next.pipelined == s.pipelined
            && step.next.pendingSyncs == s.pendingSyncs && s.copy.sendOpen
            && step.next.copy.syncPending == s.copy.syncPending && (step.next.copy.sendOpen <==> t == Data)
  {
    CallKeepsInv(s, c);
  }

  /** Data is written only into a COPY that no Sync has yet ended. */
  lemma {:induction false} CopyWriteKeepsBalance(copies: Command -> Feeding, s: State, c: Call, command: Command,
                              out: seq<Reply>, mode: Mode, batches: nat, answer: seq<Event>, after: Mode, pending: Pending)
    requires Balanced(s, out, mode, batches, pending)
    requires Disciplined(copies, s, pending, c, command) && command.tag in {Data, Done, Fail}
    requires Answers(copies, mode, command, answer, after)
    ensures Balanced(Perform(s, c).next, out + Label(answer, batches), after, batches,
                     PendingAfter(copies, pending, command))
  {
    hide Perform, Permits, Strict, Readies, Copies, Numbered, ErrorsSettled;
    CopyWrite(s, c, command.tag);
    assert NoCopyAhead(s, out, mode);
    AnswerAppended(copies, command, out, mode, batches, answer, after);
  }

  // --------------------------------------------------------------- receives

  predicate Receives(c: Call, e: Event) {
    c == ReceiveExtended(e) || c == ReceiveCopy(e)
  }

  lemma ReadyReceive(s: State, c: Call)
    requires Strict(s) && Started(s) && Receives(c, ReadyForQuery) && Perform(s, c).outcome == Completed
    requires s.pendingSyncs > 0
    ensures var t := Perform(s, c).next;
            && Strict(t) && Started(t) && t.pendingSyncs == s.pendingSyncs - 1 && t.copy == NO_COPY
            && t.batchOpen == s.batchOpen && t.pipelined == s.pipelined
            && (t.state == Ready ==> t.pendingSyncs == 0 && !t.batchOpen)
  {
    CallKeepsInv(s, c);
  }

  lemma {:induction false} HeadRemoved(out: seq<Reply>)
    requires out != []
    ensures Readies(out) == (if out[0].event.ReadyForQuery? then 1 else 0) + Readies(out[1..])
    ensures Copies(out) == (if StartsWritableCopy(out[0].event) then 1 else 0) + Copies(out[1..])
    ensures out[1..] != [] ==> out[1..][|out[1..]| - 1] == out[|out| - 1]
    ensures Readies(out[1..]) > 0 ==> out[1..] != []
    ensures out[|out| - 1].event.ReadyForQuery? && Readies(out[1..]) == 0 ==> out[1..] == []
  {
    if out[1..] != [] {
      NoneCounted(out[1..]);
      assert out[1..][|out[1..]| - 1] in out[1..];
    }
  }

  /** A ReadyForQuery arrives where its Sync is outstanding, and ends the
      client's cycle exactly when it is the last thing to be read. */
  lemma {:induction false} ReadyKeepsBalance(s: State, c: Call, out: seq<Reply>, mode: Mode, batches: nat, pending: Pending)
    requires Balanced(s, out, mode, batches, pending) && out != []
    requires Receives(c, out[0].event) && out[0].event.ReadyForQuery? && Perform(s, c).outcome == Completed
    ensures Balanced(Perform(s, c).next, out[1..], mode, batches, NoCopyPending)
    ensures Perform(s, c).next.pendingSyncs == s.pendingSyncs - 1
  {
    hide Perform, Permits, Strict, Numbered, ErrorsSettled, Readies, Copies;
    HeadRemoved(out);
    assert NoCopyAhead(s, out, mode);
    ReadyReceive(s, c);
    Tail(out, mode, batches - Early(s, out));
  }

  lemma WritableCopyReceive(s: State, c: Call, e: Event)
    requires Strict(s) && Started(s) && Receives(c, e) && StartsWritableCopy(e) && s.pendingSyncs <= 1
    requires Perform(s, c).outcome == Completed
    ensures var t := Perform(s, c).next;
            && Strict(t) && Started(t) && t.pendingSyncs == 0
            && t.copy.sendOpen && !t.copy.syncPending && t.state != Ready
  {
    CallKeepsInv(s, c);
  }

  /** The COPY response is the last message, or the last but for the error. */
  lemma WritableCopyIsLast(s: State, out: seq<Reply>, mode: Mode, pending: Pending)
    requires out != [] && StartsWritableCopy(out[0].event)
    requires CopyAhead(s, out, mode, pending) || CopyLost(s, out, mode, pending) || NoCopyAhead(s, out, mode)
    ensures CopyAhead(s, out, mode, pending) ==> out[1..] == []
    ensures CopyLost(s, out, mode, pending) ==> out[1..] == [out[1]] && out[1].event == ErrorResponse
    ensures !NoCopyAhead(s, out, mode)
  {
    NoneCounted(out[1..]);
    assert forall i :: 1 <= i < |out| ==> out[i] in out[1..];
  }

  lemma CopyOpenIsBalanced(s: State, out: seq<Reply>, mode: Mode, batches: nat)
    requires Strict(s) && Started(s) && s.state != Ready
    requires s.copy.sendOpen && !s.copy.syncPending && s.pendingSyncs == 0
    requires if out == [] then mode == ReadingCopy else mode == Discarding && out == [out[0]] && out[0].event == ErrorResponse
    requires Numbered(out, batches)
    ensures Balanced(s, out, mode, batches, NoCopyPending)
  {
    NoneCounted(out);
    assert NoCopyAhead(s, out, mode);
  }

  /** Writable COPY opens with its early Sync, if there was one, retired, and
      nothing left to read unless it is lost. */
  lemma {:induction false} WritableCopyKeepsBalance(s: State, c: Call, out: seq<Reply>, mode: Mode, batches: nat, pending: Pending)
    requires Balanced(s, out, mode, batches, pending) && out != []
    requires Receives(c, out[0].event) && StartsWritableCopy(out[0].event) && Perform(s, c).outcome == Completed
    ensures Balanced(Perform(s, c).next, out[1..], mode, batches, NoCopyPending)
    ensures Perform(s, c).next.pendingSyncs == 0 && s.pendingSyncs <= 1
    ensures if CopyAhead(s, out, mode, pending) then out[1..] == []
            else CopyLost(s, out, mode, pending) && out[1..] == [out[1]] && out[1].event == ErrorResponse
  {
    hide Perform, Permits, Strict, Started, Numbered, ErrorsSettled, Balanced, CopyAhead, CopyLost, NoCopyAhead, Readies, Copies;
    WhenBalanced(s, out, mode, batches, pending);
    WritableCopyLeaves(s, out, mode, batches, pending);
    WritableCopyReceive(s, c, out[0].event);
    CopyOpenIsBalanced(Perform(s, c).next, out[1..], mode, batches);
  }

  lemma WritableCopyLeaves(s: State, out: seq<Reply>, mode: Mode, batches: nat, pending: Pending)
    requires out != [] && StartsWritableCopy(out[0].event)
    requires ErrorsSettled(out, mode) && Numbered(out, batches - Early(s, out))
    requires CopyAhead(s, out, mode, pending) || CopyLost(s, out, mode, pending) || NoCopyAhead(s, out, mode)
    requires !pending.NoCopyPending? ==> s.pendingSyncs <= 1
    ensures s.pendingSyncs <= 1 && Numbered(out[1..], batches)
    ensures if CopyAhead(s, out, mode, pending) then out[1..] == [] && mode == ReadingCopy
            else CopyLost(s, out, mode, pending) && out[1..] == [out[1]] && out[1].event == ErrorResponse && mode == Discarding
  {
    hide Numbered, ErrorsSettled, CopyAhead, CopyLost, NoCopyAhead, Early, Readies, Copies;
    WritableCopyIsLast(s, out, mode, pending);
    OneEarlySync(s, out, mode, pending);
    Tail(out, mode, batches - Early(s, out));
    NothingNumbered(batches);
  }

  lemma OneEarlySync(s: State, out: seq<Reply>, mode: Mode, pending: Pending)
    requires !pending.NoCopyPending? ==> s.pendingSyncs <= 1
    requires CopyAhead(s, out, mode, pending) || CopyLost(s, out, mode, pending)
    ensures s.pendingSyncs <= 1 && mode == (if CopyAhead(s, out, mode, pending) then ReadingCopy else Discarding)
    ensures CopyLost(s, out, mode, pending) ==> Early(s, out) == 0 && !CopyAhead(s, out, mode, pending)
  {
  }

  lemma NothingNumbered(last: int)
    ensures Numbered([], last)
  {
  }

  lemma ErrorReceive(s: State, c: Call)
    requires Strict(s) && Started(s) && Receives(c, ErrorResponse) && Perform(s, c).outcome == Completed
    ensures var t := Perform(s, c).next;
            && Strict(t) && Started(t) && t.pendingSyncs == s.pendingSyncs && t.state != Ready && !t.copy.sendOpen
            && t.batchOpen == s.batchOpen && t.pipelined == s.pipelined
  {
    CallKeepsInv(s, c);
  }

  /** Whoever reads an error has no COPY ahead. */
  lemma ErrorLeavesAhead(s: State, t: State, out: seq<Reply>, mode: Mode, pending: Pending)
    requires ErrorsSettled(out, mode) && out != [] && out[0].event.ErrorResponse?
    requires CopyAhead(s, out, mode, pending) || CopyLost(s, out, mode, pending) || NoCopyAhead(s, out, mode)
    requires t.pendingSyncs == s.pendingSyncs && !t.copy.sendOpen && t.batchOpen == s.batchOpen
    ensures NoCopyAhead(t, out[1..], mode) && Copies(out) == 0 == Copies(out[1..])
  {
    hide Readies, Copies;
    HeadRemoved(out);
    assert out[0..] == out;
    if mode != Discarding && Readies(out) == 0 { NoErrorsLeft(out, mode); }
    if |out| >= 2 { FirstOfAll(out); }
  }

  lemma FirstOfAll(out: seq<Reply>)
    requires |out| >= 2
    ensures NoErrors(out[..|out| - 1]) ==> !out[0].event.ErrorResponse?
  {
    assert out[..|out| - 1][0] == out[0];
  }

  lemma {:induction false} ErrorKeepsBalance(s: State, c: Call, out: seq<Reply>, mode: Mode, batches: nat, pending: Pending)
    requires Balanced(s, out, mode, batches, pending) && out != []
    requires Receives(c, out[0].event) && out[0].event.ErrorResponse? && Perform(s, c).outcome == Completed
    ensures Balanced(Perform(s, c).next, out[1..], mode, batches, NoCopyPending)
    ensures Perform(s, c).next.pendingSyncs == s.pendingSyncs
  {
    hide Perform, Permits, Strict, Started, Numbered, ErrorsSettled, Balanced, CopyAhead, CopyLost, NoCopyAhead, Readies, Copies;
    WhenBalanced(s, out, mode, batches, pending);
    ErrorReceive(s, c);
    ErrorLeavesAhead(s, Perform(s, c).next, out, mode, pending);
    Tail(out, mode, batches);
    BalancedAgain(Perform(s, c).next, out[1..], mode, batches, NoCopyPending);
  }

  /** Any other message leaves the Sync count and every open direction for
      writing alone. */
  predicate LeavesCounts(s: State, t: State) {
    && Strict(t) && Started(t) && t.state != Ready && t.pendingSyncs == s.pendingSyncs
    && t.batchOpen == s.batchOpen && t.pipelined == s.pipelined && t.copy.sendOpen == s.copy.sendOpen
    && (t.copy.sendOpen ==> t.copy.syncPending == s.copy.syncPending)
  }

  lemma OtherExtendedReceive(s: State, e: Event)
    requires Strict(s) && Started(s) && Perform(s, ReceiveExtended(e)).outcome == Completed
    requires !e.ReadyForQuery? && !StartsWritableCopy(e) && !e.ErrorResponse?
    ensures LeavesCounts(s, Perform(s, ReceiveExtended(e)).next)
  {
    CallKeepsInv(s, ReceiveExtended(e));
  }

  lemma OtherCopyReceive(s: State, e: Event)
    requires Strict(s) && Started(s) && Perform(s, ReceiveCopy(e)).outcome == Completed
    requires !e.ReadyForQuery? && !StartsWritableCopy(e) && !e.ErrorResponse?
    ensures LeavesCounts(s, Perform(s, ReceiveCopy(e)).next)
  {
    CallKeepsInv(s, ReceiveCopy(e));
  }

  lemma OtherLeavesAhead(s: State, t: State, out: seq<Reply>, mode: Mode, pending: Pending)
    requires LeavesCounts(s, t) && out != [] && !Settles(out[0].event)
    requires CopyAhead(s, out, mode, pending) || CopyLost(s, out, mode, pending) || NoCopyAhead(s, out, mode)
    ensures CopyAhead(t, out[1..], mode, pending) || CopyLost(t, out[1..], mode, pending) || NoCopyAhead(t, out[1..], mode)
    ensures Early(t, out[1..]) == Early(s, out)
  {
    hide Readies, Copies, Strict, Started, NoErrors;
    HeadRemoved(out);
    if CopyLost(s, out, mode, pending) { LostTail(out); }
  }

  lemma {:induction false} OtherKeepsBalance(s: State, c: Call, out: seq<Reply>, mode: Mode, batches: nat, pending: Pending)
    requires Balanced(s, out, mode, batches, pending) && out != []
    requires Receives(c, out[0].event) && Perform(s, c).outcome == Completed && !Settles(out[0].event)
    ensures Balanced(Perform(s, c).next, out[1..], mode, batches, pending)
    ensures Perform(s, c).next.pendingSyncs == s.pendingSyncs
  {
    hide Perform, Permits, Strict, Started, Numbered, ErrorsSettled, Balanced, CopyAhead, CopyLost, NoCopyAhead, Readies, Copies, Early;
    WhenBalanced(s, out, mode, batches, pending);
    var t := Perform(s, c).next;
    if c.ReceiveExtended? {
      OtherExtendedReceive(s, out[0].event);
    } else {
      OtherCopyReceive(s, out[0].event);
    }
    OtherLeavesAhead(s, t, out, mode, pending);
    Tail(out, mode, batches - Early(s, out));
    BalancedAgain(t, out[1..], mode, batches, pending);
  }

  lemma LostTail(out: seq<Reply>)
    requires |out| >= 2 && StartsWritableCopy(out[|out| - 2].event) && !StartsWritableCopy(out[0].event)
    requires NoErrors(out[..|out| - 1])
    ensures |out| >= 3 && NoErrors(out[1..][..|out| - 2]) && out[1..][|out| - 3] == out[|out| - 2]
  {
    var front := out[..|out| - 1];
    assert out[1..][..|out| - 2] == front[1..];
    assert forall i {:trigger front[1..][i]} :: 0 <= i < |front| - 1 ==> front[1..][i] == front[i + 1];
  }
}
