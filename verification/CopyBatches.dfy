/** Which batches keep a Sync and its ReadyForQuery together when one of their
    commands may open a COPY the client feeds. */
module CopyBatches {
  import opened Protocol
  import opened PostgresBackend

  /** A batch of the extended protocol, its Sync left out. */
  predicate IsBatch(batch: seq<Sent>) {
    forall c :: c in batch ==> c.command.tag in {Parse, Bind, Describe, Execute, Close, Flush}
  }

  predicate OnlyFlushes(cs: seq<Sent>) {
    forall c :: c in cs ==> c.command.tag == Flush
  }

  /** The server waits with each COPY it may open, and nothing but Flush follows
      its Execute. */
  predicate CopyIsLast(copies: Command -> Feeding, batch: seq<Sent>) {
    batch != [] ==>
      if StartsCopyAt(copies, batch[0].command) then copies(batch[0].command).Patient? && OnlyFlushes(batch[1..])
      else CopyIsLast(copies, batch[1..])
  }

  function Answered<D>(b: Backend<D>, s: Server<D>, batch: seq<Sent>, sync: Sent): seq<Reply> {
    ServeAll(b, s, batch + [sync]).1
  }

  /** One command, then the rest of the batch. */
  lemma AnsweredFirst<D>(b: Backend<D>, s: Server<D>, batch: seq<Sent>, sync: Sent)
    requires batch != []
    ensures var (t, answer) := Serve(b, s, batch[0].command);
            var more := Label(answer, batch[0].batch);
            && Readies(Answered(b, s, batch, sync)) == Readies(more) + Readies(Answered(b, t, batch[1..], sync))
            && Copies(Answered(b, s, batch, sync)) == Copies(more) + Copies(Answered(b, t, batch[1..], sync))
  {
    assert (batch + [sync])[1..] == batch[1..] + [sync];
    var (t, answer) := Serve(b, s, batch[0].command);
    CountAppend(Label(answer, batch[0].batch), Answered(b, t, batch[1..], sync));
  }

  lemma AnsweredLast<D(!new)>(b: Backend<D>, s: Server<D>, sync: Sent)
    requires Legal(b) && sync.command.tag == Sync
    ensures Readies(Answered(b, s, [], sync)) == if s.mode == ReadingCopy then 0 else 1
    ensures Copies(Answered(b, s, [], sync)) == 0
  {
    assert [] + [sync] == [sync];
    var answer := Serve(b, s, sync.command).1;
    var more := Label(answer, sync.batch);
    if s.mode != ReadingCopy {
      assert LegalCommit(b.commit(s.db).1);
      CommitCounts(b.commit(s.db).1, sync.batch);
    }
    assert ServeAll(b, s, [sync]).1 == more + [] == more;
    NoneCounted(more);
  }

  /** Inside writable COPY Flush and then Sync are passed over. */
  lemma {:induction false} FlushesThenSync<D(!new)>(b: Backend<D>, s: Server<D>, cs: seq<Sent>, sync: Sent)
    requires Legal(b) && s.mode == ReadingCopy && OnlyFlushes(cs) && sync.command.tag == Sync
    ensures Readies(Answered(b, s, cs, sync)) == 0 && Copies(Answered(b, s, cs, sync)) == 0
    decreases cs
  {
    if cs == [] {
      AnsweredLast(b, s, sync);
    } else {
      AnsweredFirst(b, s, cs, sync);
      assert cs[0].command.tag == Flush;
      FlushesThenSync(b, s, cs[1..], sync);
    }
  }

  lemma {:induction false} DiscardedThenSync<D(!new)>(b: Backend<D>, s: Server<D>, cs: seq<Sent>, sync: Sent)
    requires Legal(b) && s.mode == Discarding && IsBatch(cs) && sync.command.tag == Sync
    ensures Readies(Answered(b, s, cs, sync)) == 1 && Copies(Answered(b, s, cs, sync)) == 0
    decreases cs
  {
    if cs == [] {
      AnsweredLast(b, s, sync);
    } else {
      AnsweredFirst(b, s, cs, sync);
      assert cs[0] in cs;
      DiscardedThenSync(b, s, cs[1..], sync);
    }
  }

  /** With the COPY last, whatever the backend does, the Sync yields exactly
      one of a ReadyForQuery and a writable COPY that swallows it. */
  lemma {:induction false} CopyLastYieldsOneEnd<D(!new)>(b: Backend<D>, s: Server<D>, batch: seq<Sent>, sync: Sent)
    requires Legal(b) && IsBatch(batch) && sync.command.tag == Sync && s.mode == Normal
    requires CopyIsLast(b.copies, batch)
    ensures Readies(Answered(b, s, batch, sync)) + Copies(Answered(b, s, batch, sync)) == 1
    decreases batch
  {
    if batch == [] {
      AnsweredLast(b, s, sync);
    } else {
      var c := batch[0].command;
      assert batch[0] in batch && c.tag in {Parse, Bind, Describe, Execute, Close, Flush};
      assert LegalAnswer(b.copies, c, b.respond(s.db, c).1);
      var (t, answer) := Serve(b, s, c);
      AnsweredFirst(b, s, batch, sync);
      LegalAnswerCounts(b.copies, c, answer, batch[0].batch);
      if t.mode == ReadingCopy {
        FlushesThenSync(b, t, batch[1..], sync);
      } else if t.mode == Discarding {
        DiscardedThenSync(b, t, batch[1..], sync);
      } else {
        assert OnlyFlushes(batch[1..]) ==> CopyIsLast(b.copies, batch[1..]) by { OnlyFlushesIsLast(b.copies, batch[1..]); }
        CopyLastYieldsOneEnd(b, t, batch[1..], sync);
      }
    }
  }

  lemma {:induction false} OnlyFlushesIsLast(copies: Command -> Feeding, cs: seq<Sent>)
    ensures OnlyFlushes(cs) ==> CopyIsLast(copies, cs)
    decreases cs
  {
    if cs != [] && OnlyFlushes(cs) {
      assert cs[0] in cs;
      OnlyFlushesIsLast(copies, cs[1..]);
    }
  }

  function EagerSays(copies: Command -> Feeding, c: Command): seq<Event> {
    if StartsCopyAt(copies, c) then (if copies(c).Patient? then [CopyInResponse] else [CopyInResponse, ErrorResponse])
    else if c.tag == Fail then [ErrorResponse] else []
  }

  /** The backend that accepts every COPY it is asked for, gives it up where it
      may, and says nothing else. */
  function Eager(copies: Command -> Feeding): Backend<bool> {
    Backend((d: bool, c: Command) => (d, EagerSays(copies, c)), (d: bool) => (d, []), copies)
  }

  lemma EagerIsLegal(copies: Command -> Feeding)
    ensures Legal(Eager(copies))
  {
    assert [CopyInResponse, ErrorResponse][..1] == [CopyInResponse];
    assert forall c :: LegalAnswer(copies, c, EagerSays(copies, c));
  }

  lemma EagerOpens(copies: Command -> Feeding, d: bool, c: Sent)
    requires StartsCopyAt(copies, c.command)
    ensures var (t, answer) := Serve(Eager(copies), Server(d, Normal), c.command);
            var replies := Label(answer, c.batch);
            && t == Server(d, if copies(c.command).Patient? then ReadingCopy else Discarding)
            && Readies(replies) == 0 && Copies(replies) == 1 && replies != [] && replies[0].event == CopyInResponse
  {
    var answer := EagerSays(copies, c.command);
    assert GivesUp([CopyInResponse, ErrorResponse]) by {
      assert [CopyInResponse, ErrorResponse][..1] == [CopyInResponse];
    }
    LegalAnswerCounts(copies, c.command, answer, c.batch);
    assert !OpensNone(answer) by { assert answer[0] == CopyInResponse; }
  }

  lemma {:induction false} InterruptedCopy(copies: Command -> Feeding, d: bool, cs: seq<Sent>, sync: Sent)
    requires IsBatch(cs) && sync.command.tag == Sync && !OnlyFlushes(cs)
    ensures Readies(Answered(Eager(copies), Server(d, ReadingCopy), cs, sync)) == 1
    decreases cs
  {
    var b, s := Eager(copies), Server(d, ReadingCopy);
    EagerIsLegal(copies);
    assert cs[0] in cs;
    AnsweredFirst(b, s, cs, sync);
    var (t, answer) := Serve(b, s, cs[0].command);
    if cs[0].command.tag == Flush {
      InterruptedCopy(copies, d, cs[1..], sync);
    } else {
      assert Label(answer, cs[0].batch) == [Reply(ErrorResponse, cs[0].batch)];
      DiscardedThenSync(b, t, cs[1..], sync);
    }
  }

  /** Otherwise some legal backend opens the COPY and still answers the Sync,
      since it has left the COPY: two ends for one Sync. */
  lemma {:induction false} InterruptedCopyYieldsTwoEnds(copies: Command -> Feeding, d: bool, batch: seq<Sent>, sync: Sent)
    requires IsBatch(batch) && sync.command.tag == Sync && !CopyIsLast(copies, batch)
    ensures var replies := Answered(Eager(copies), Server(d, Normal), batch, sync);
            Readies(replies) == 1 && Copies(replies) == 1
    decreases batch
  {
    var b, s, c := Eager(copies), Server(d, Normal), batch[0].command;
    assert batch[0] in batch;
    AnsweredFirst(b, s, batch, sync);
    var (t, answer) := Serve(b, s, c);
    if StartsCopyAt(copies, c) {
      EagerOpens(copies, d, batch[0]);
      if copies(c).Patient? {
        InterruptedCopy(copies, d, batch[1..], sync);
        CopiesWhileReading(copies, d, batch[1..], sync);
      } else {
        EagerIsLegal(copies);
        DiscardedThenSync(b, t, batch[1..], sync);
      }
    } else {
      InterruptedCopyYieldsTwoEnds(copies, d, batch[1..], sync);
    }
  }

  lemma {:induction false} CopiesWhileReading(copies: Command -> Feeding, d: bool, cs: seq<Sent>, sync: Sent)
    requires IsBatch(cs) && sync.command.tag == Sync
    ensures Copies(Answered(Eager(copies), Server(d, ReadingCopy), cs, sync)) == 0
    decreases cs
  {
    var b, s := Eager(copies), Server(d, ReadingCopy);
    EagerIsLegal(copies);
    if cs == [] {
      AnsweredLast(b, s, sync);
    } else {
      assert cs[0] in cs;
      AnsweredFirst(b, s, cs, sync);
      var (t, answer) := Serve(b, s, cs[0].command);
      if cs[0].command.tag == Flush {
        CopiesWhileReading(copies, d, cs[1..], sync);
      } else {
        assert Label(answer, cs[0].batch) == [Reply(ErrorResponse, cs[0].batch)];
        DiscardedThenSync(b, t, cs[1..], sync);
      }
    }
  }

  /** The exact condition under which one Sync means one end, for every legal
      backend: only COPYs with which it waits, and nothing but Flush after them. */
  lemma {:induction false} OneEndForEveryBackendIff(copies: Command -> Feeding, batch: seq<Sent>, sync: Sent)
    requires IsBatch(batch) && sync.command.tag == Sync
    ensures CopyIsLast(copies, batch) <==>
            forall b: Backend<bool>, d: bool :: Legal(b) && b.copies == copies ==>
              Readies(Answered(b, Server(d, Normal), batch, sync)) + Copies(Answered(b, Server(d, Normal), batch, sync)) == 1
  {
    if CopyIsLast(copies, batch) {
      forall b: Backend<bool>, d: bool | Legal(b) && b.copies == copies
        ensures Readies(Answered(b, Server(d, Normal), batch, sync)) + Copies(Answered(b, Server(d, Normal), batch, sync)) == 1
      {
        CopyLastYieldsOneEnd(b, Server(d, Normal), batch, sync);
      }
    } else {
      EagerIsLegal(copies);
      InterruptedCopyYieldsTwoEnds(copies, true, batch, sync);
      assert Eager(copies).copies == copies;
    }
  }
}
