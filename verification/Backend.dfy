/** The backend as PostgreSQL documents it: the database may answer a command
    as it likes, but after an error it discards commands until Sync, each Sync
    it does not read inside writable COPY commits, which may fail, and gets one
    ReadyForQuery, and inside writable COPY it ignores Flush and Sync and fails
    on anything else that is not COPY data. */
module PostgresBackend {
  import opened Protocol

  /** A message on the wire, with the number of Syncs written before the
      command it is or answers: the number of its batch. */
  datatype Sent = Sent(command: Command, batch: nat)
  datatype Reply = Reply(event: Event, batch: nat)

  datatype Mode = Normal | Discarding | ReadingCopy

  datatype Server<D> = Server(db: D, mode: Mode)

  /** Whether an Execute runs a COPY the client feeds, and then whether the
      server waits for the client or may give the COPY up by itself. */
  datatype Feeding = NoFeed | Patient | Hasty

  /** What a database with contents D answers to commands, and what it has to
      say when Sync ends a transaction; `copies` says which Execute messages may
      run a COPY the client feeds. */
  datatype Backend<!D> = Backend(
    respond: (D, Command) -> (D, seq<Event>),
    commit: D -> (D, seq<Event>),
    copies: Command -> Feeding)

  predicate StartsCopyAt(copies: Command -> Feeding, c: Command) {
    c.tag == Execute && !copies(c).NoFeed?
  }

  predicate OpensNone(answer: seq<Event>) {
    forall i :: 0 <= i < |answer| ==> !StartsWritableCopy(answer[i])
  }

  /** The last word, and nothing before it, opens a writable COPY. */
  predicate OpensCopy(answer: seq<Event>) {
    && answer != [] && StartsWritableCopy(answer[|answer| - 1])
    && OpensNone(answer[..|answer| - 1]) && ErrorResponse !in answer
  }

  /** A COPY is opened and given up at once. */
  predicate GivesUp(answer: seq<Event>) {
    answer != [] && answer[|answer| - 1] == ErrorResponse && OpensCopy(answer[..|answer| - 1])
  }

  /** An answer never contains ReadyForQuery, opens a writable COPY only for an
      Execute that asked for it, gives one up only when it is hasty, and
      CopyFail fails. */
  predicate LegalAnswer(copies: Command -> Feeding, c: Command, answer: seq<Event>) {
    && ReadyForQuery !in answer
    && (c.tag == Fail ==> ErrorResponse in answer)
    && (OpensNone(answer)
        || (StartsCopyAt(copies, c) && OpensCopy(answer))
        || (StartsCopyAt(copies, c) && copies(c).Hasty? && GivesUp(answer)))
  }

  /** Committing opens no COPY; it may fail, since deferred checks run then. */
  predicate LegalCommit(before: seq<Event>) {
    ReadyForQuery !in before && forall i :: 0 <= i < |before| ==> !StartsCopy(before[i])
  }

  /** So committing may say anything but ReadyForQuery and the COPY responses. */
  lemma CommitMaySay(before: seq<Event>)
    ensures LegalCommit(before)
       <==> forall e :: e in before ==> e !in {ReadyForQuery, CopyInResponse, CopyOutResponse, CopyBothResponse}
  {
    if forall e :: e in before ==> e !in {ReadyForQuery, CopyInResponse, CopyOutResponse, CopyBothResponse} {
      assert forall i :: 0 <= i < |before| ==> before[i] in before;
    }
  }

  ghost predicate Legal<D(!new)>(b: Backend<D>) {
    && (forall d, c :: LegalAnswer(b.copies, c, b.respond(d, c).1))
    && (forall d :: LegalCommit(b.commit(d).1))
  }

  function ModeAfter(c: Command, answer: seq<Event>, staying: Mode): Mode {
    if ErrorResponse in answer then Discarding
    else if answer != [] && StartsWritableCopy(answer[|answer| - 1]) then ReadingCopy
    else if c.tag == Done then Normal
    else staying
  }

  function Serve<D>(b: Backend<D>, s: Server<D>, c: Command): (Server<D>, seq<Event>) {
    match (c.tag, s.mode)
    case (Sync, ReadingCopy) => (s, [])
    case (Sync, _) =>
      var (db, before) := b.commit(s.db);
      (Server(db, Normal), before + [ReadyForQuery])
    case (Flush, _) => (s, [])
    case (_, Discarding) => (s, [])
    case (Data, Normal) => (s, [])
    case (Done, Normal) => (s, [])
    case (Fail, Normal) => (s, [])
    case (_, _) =>
      if s.mode == ReadingCopy && c.tag !in {Data, Done, Fail} then (s.(mode := Discarding), [ErrorResponse])
      else
        var (db, answer) := b.respond(s.db, c);
        (Server(db, ModeAfter(c, answer, s.mode)), answer)
  }

  function Label(answer: seq<Event>, batch: nat): seq<Reply> {
    seq(|answer|, i requires 0 <= i < |answer| => Reply(answer[i], batch))
  }

  function ServeAll<D>(b: Backend<D>, s: Server<D>, cs: seq<Sent>): (Server<D>, seq<Reply>)
    decreases cs
  {
    if cs == [] then (s, [])
    else
      var (s1, answer) := Serve(b, s, cs[0].command);
      var (s2, rest) := ServeAll(b, s1, cs[1..]);
      (s2, Label(answer, cs[0].batch) + rest)
  }

  /** After an error nothing is answered and nothing done until Sync, which
      commits and is answered by one last ReadyForQuery. */
  lemma {:induction false} DiscardsUntilSync<D>(b: Backend<D>, db: D, cs: seq<Sent>, sync: Command)
    requires (forall k :: 0 <= k < |cs| ==> cs[k].command.tag != Sync) && sync.tag == Sync
    ensures ServeAll(b, Server(db, Discarding), cs) == (Server(db, Discarding), [])
    ensures Serve(b, Server(db, Discarding), sync) == (Server(b.commit(db).0, Normal), b.commit(db).1 + [ReadyForQuery])
    decreases cs
  {
    if cs != [] {
      DiscardsUntilSync(b, db, cs[1..], sync);
      assert Label([], cs[0].batch) + [] == [];
    }
  }

  /** Serving a longer queue is serving its front and then the rest. */
  lemma {:induction false} ServeAllAppend<D>(b: Backend<D>, s: Server<D>, cs: seq<Sent>, ds: seq<Sent>)
    ensures var (s1, first) := ServeAll(b, s, cs);
            var (s2, second) := ServeAll(b, s1, ds);
            ServeAll(b, s, cs + ds) == (s2, first + second)
    decreases cs
  {
    if cs == [] {
      assert cs + ds == ds;
      assert [] + ServeAll(b, s, ds).1 == ServeAll(b, s, ds).1;
    } else {
      assert (cs + ds)[0] == cs[0] && (cs + ds)[1..] == cs[1..] + ds;
      var (t, answer) := Serve(b, s, cs[0].command);
      ServeAllAppend(b, t, cs[1..], ds);
      var (t1, first) := ServeAll(b, t, cs[1..]);
      var (_, second) := ServeAll(b, t1, ds);
      var front := Label(answer, cs[0].batch);
      assert front + (first + second) == (front + first) + second;
    }
  }

  // ------------------------------------------------------ counting messages

  function Readies(replies: seq<Reply>): nat {
    if replies == [] then 0 else (if replies[0].event.ReadyForQuery? then 1 else 0) + Readies(replies[1..])
  }

  function Copies(replies: seq<Reply>): nat {
    if replies == [] then 0 else (if StartsWritableCopy(replies[0].event) then 1 else 0) + Copies(replies[1..])
  }

  function Syncs(cs: seq<Sent>): nat {
    if cs == [] then 0 else (if cs[0].command.tag == Sync then 1 else 0) + Syncs(cs[1..])
  }

  /** The Syncs a server reads, and drops, while it reads COPY data. */
  function Swallowed<D>(b: Backend<D>, s: Server<D>, cs: seq<Sent>): nat
    decreases cs
  {
    if cs == [] then 0
    else (if cs[0].command.tag == Sync && s.mode == ReadingCopy then 1 else 0)
         + Swallowed(b, Serve(b, s, cs[0].command).0, cs[1..])
  }

  lemma {:induction false} CountAppend(a: seq<Reply>, b: seq<Reply>)
    ensures Readies(a + b) == Readies(a) + Readies(b)
    ensures Copies(a + b) == Copies(a) + Copies(b)
    decreases a
  {
    if a == [] {
      assert a + b == b;
    } else {
      assert (a + b)[1..] == a[1..] + b;
      CountAppend(a[1..], b);
    }
  }

  lemma {:induction false} SyncsAppend(a: seq<Sent>, b: seq<Sent>)
    ensures Syncs(a + b) == Syncs(a) + Syncs(b)
    decreases a
  {
    if a == [] {
      assert a + b == b;
    } else {
      assert (a + b)[1..] == a[1..] + b;
      SyncsAppend(a[1..], b);
    }
  }

  lemma {:induction false} NoneCounted(a: seq<Reply>)
    ensures (forall r :: r in a ==> !r.event.ReadyForQuery?) <==> Readies(a) == 0
    ensures (forall r :: r in a ==> !StartsWritableCopy(r.event)) <==> Copies(a) == 0
    decreases a
  {
    if a != [] {
      NoneCounted(a[1..]);
      assert a == [a[0]] + a[1..];
    }
  }

  lemma OpeningCounts(answer: seq<Event>, batch: nat)
    requires OpensCopy(answer)
    ensures Copies(Label(answer, batch)) == 1
  {
    var replies, n := Label(answer, batch), |answer| - 1;
    var front, last := replies[..n], [replies[n]];
    assert replies == front + last && last[1..] == [];
    CountAppend(front, last);
    NoneCounted(front);
  }

  /** A labelled legal answer holds no ReadyForQuery and at most one copy response. */
  lemma LegalAnswerCounts(copies: Command -> Feeding, c: Command, answer: seq<Event>, batch: nat)
    requires LegalAnswer(copies, c, answer)
    ensures Readies(Label(answer, batch)) == 0
    ensures Copies(Label(answer, batch)) == if OpensNone(answer) then 0 else 1
    ensures OpensCopy(answer) || GivesUp(answer) ==> !OpensNone(answer)
  {
    hide Readies, Copies;
    var replies := Label(answer, batch);
    NoneCounted(replies);
    if OpensCopy(answer) {
      OpeningCounts(answer, batch);
    } else if GivesUp(answer) {
      var front := answer[..|answer| - 1];
      var error := Reply(ErrorResponse, batch);
      OpeningCounts(front, batch);
      NoneCounted([error]);
      CountAppend(Label(front, batch), [error]);
      assert replies == Label(front, batch) + [error];
      assert answer[|front| - 1] == front[|front| - 1];
    }
  }

  /** What a Sync is answered holds one ReadyForQuery, its last message. */
  lemma CommitCounts(before: seq<Event>, batch: nat)
    requires LegalCommit(before)
    ensures var replies := Label(before + [ReadyForQuery], batch);
            Readies(replies) == 1 && Copies(replies) == 0 && Readies(replies[..|replies| - 1]) == 0
  {
    var replies := Label(before + [ReadyForQuery], batch);
    var front, last := replies[..|before|], [replies[|before|]];
    assert replies == front + last && last == [Reply(ReadyForQuery, batch)];
    CountAppend(front, last);
    NoneCounted(front);
  }

  /** Every Sync is answered by one ReadyForQuery or swallowed by a COPY. */
  lemma {:induction false} SyncsAreAnsweredOrSwallowed<D(!new)>(b: Backend<D>, s: Server<D>, cs: seq<Sent>)
    requires Legal(b)
    ensures Syncs(cs) == Readies(ServeAll(b, s, cs).1) + Swallowed(b, s, cs)
    decreases cs
  {
    if cs != [] {
      var c := cs[0].command;
      var (t, answer) := Serve(b, s, c);
      SyncsAreAnsweredOrSwallowed(b, t, cs[1..]);
      CountAppend(Label(answer, cs[0].batch), ServeAll(b, t, cs[1..]).1);
      AnswerReadies(b, s, cs[0]);
    }
  }

  lemma AnswerReadies<D(!new)>(b: Backend<D>, s: Server<D>, c: Sent)
    requires Legal(b)
    ensures Readies(Label(Serve(b, s, c.command).1, c.batch))
         == if c.command.tag == Sync && s.mode != ReadingCopy then 1 else 0
  {
    var answer := Serve(b, s, c.command).1;
    if c.command.tag == Sync && s.mode != ReadingCopy {
      assert LegalCommit(b.commit(s.db).1);
      CommitCounts(b.commit(s.db).1, c.batch);
    } else {
      assert LegalAnswer(b.copies, c.command, b.respond(s.db, c.command).1);
      NoneCounted(Label(answer, c.batch));
    }
  }
}
