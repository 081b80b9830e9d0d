/** Every interleaving of client writes, server steps and receives. */
module PipelineRuns {
  import opened Protocol
  import opened SessionState
  import opened SessionInvariant
  import opened PostgresBackend
  import opened Pipeline

  /** The two channels and the server between them. */
  datatype Link<D> = Link(toServer: seq<Sent>, server: Server<D>, toClient: seq<Reply>)

  /** `retired` counts the Syncs given up when a writable COPY opened. */
  datatype System<D> = System(
    client: State,
    link: Link<D>,
    pending: Pending,
    written: seq<Sent>,
    received: seq<Reply>,
    retired: nat)

  datatype Action =
    | Write(call: Call, payload: seq<byte>)
    | ServeOne
    | Receive(fromCopy: bool)
    | SwitchMode(call: Call)

  function ReceiveCall(fromCopy: bool, e: Event): Call {
    if fromCopy then ReceiveCopy(e) else ReceiveExtended(e)
  }

  /** A receive that raises ends the run: the transport is then discarded. */
  predicate Possible<D>(b: Backend<D>, y: System<D>, a: Action) {
    match a
    case Write(c, payload) => |Writes(c)| == 1 && Writable(y.client, c, Command(Writes(c)[0], payload))
    case ServeOne => y.link.toServer != []
    case Receive(fromCopy) =>
      y.link.toClient != []
      && Perform(y.client, ReceiveCall(fromCopy, y.link.toClient[0].event)).outcome == Completed
    case SwitchMode(c) => (c == EnterPipelineMode || c == ExitPipelineMode) && Permits(y.client, c)
  }

  /** What can happen next when the application is careful about COPY. */
  predicate Enabled<D>(b: Backend<D>, y: System<D>, a: Action) {
    && Possible(b, y, a)
    && (a.Write? ==> Careful(b.copies, y.client, y.pending, Command(Writes(a.call)[0], a.payload)))
  }

  function WriteNext<D>(b: Backend<D>, y: System<D>, c: Call, command: Command): System<D> {
    var sent := Sent(command, Syncs(y.written));
    y.(client := Perform(y.client, c).next,
       link := y.link.(toServer := y.link.toServer + [sent]),
       pending := PendingAfter(b.copies, y.pending, command),
       written := y.written + [sent])
  }

  function ServeNext<D>(b: Backend<D>, l: Link<D>): Link<D>
    requires l.toServer != []
  {
    var (server, answer) := Serve(b, l.server, l.toServer[0].command);
    Link(l.toServer[1..], server, l.toClient + Label(answer, l.toServer[0].batch))
  }

  function ReceiveNext<D>(y: System<D>, fromCopy: bool): System<D>
    requires y.link.toClient != []
  {
    var reply := y.link.toClient[0];
    var t := Perform(y.client, ReceiveCall(fromCopy, reply.event)).next;
    var opens := StartsWritableCopy(reply.event);
    y.(client := t,
       link := y.link.(toClient := y.link.toClient[1..]),
       pending := PendingAfterReply(y.pending, reply.event),
       received := y.received + [reply],
       retired := y.retired + if opens && t.pendingSyncs < y.client.pendingSyncs
                              then y.client.pendingSyncs - t.pendingSyncs else 0)
  }

  function Next<D>(b: Backend<D>, y: System<D>, a: Action): System<D>
    requires Possible(b, y, a)
  {
    match a
    case Write(c, payload) => WriteNext(b, y, c, Command(Writes(c)[0], payload))
    case ServeOne => y.(link := ServeNext(b, y.link))
    case Receive(fromCopy) => ReceiveNext(y, fromCopy)
    case SwitchMode(c) => y.(client := Perform(y.client, c).next)
  }

  function StartOf<D>(db: D): System<D> {
    System(STARTED, Link([], Server(db, Normal), []), NoCopyPending, [], [], 0)
  }

  /** `path` are the states a run goes through, each by an action enabled there. */
  ghost predicate IsRun<D(!new)>(b: Backend<D>, path: seq<System<D>>, actions: seq<Action>) {
    && |path| == |actions| + 1
    && forall i {:trigger actions[i]} :: 0 <= i < |actions| ==>
         Enabled(b, path[i], actions[i]) && path[i + 1] == Next(b, path[i], actions[i])
  }

  /** Some run from `x` ends in `y`. */
  ghost predicate Leads<D(!new)>(b: Backend<D>, x: System<D>, y: System<D>) {
    exists path, actions {:trigger IsRun(b, path, actions)} ::
      IsRun(b, path, actions) && path[0] == x && path[|actions|] == y
  }

  ghost predicate Reached<D(!new)>(b: Backend<D>, db: D, y: System<D>) {
    Leads(b, StartOf(db), y)
  }

  // ------------------------------------------------- what is still to be read

  /** Everything the client has yet to read once the server has worked off its queue. */
  function Outstanding<D>(b: Backend<D>, l: Link<D>): seq<Reply> {
    l.toClient + ServeAll(b, l.server, l.toServer).1
  }

  function Final<D>(b: Backend<D>, l: Link<D>): Server<D> {
    ServeAll(b, l.server, l.toServer).0
  }

  /** Serving moves replies between the queues and changes nothing else. */
  lemma ServingIsInvisible<D>(b: Backend<D>, l: Link<D>)
    requires l.toServer != []
    ensures Outstanding(b, ServeNext(b, l)) == Outstanding(b, l) && Final(b, ServeNext(b, l)) == Final(b, l)
  {
    var (server, answer) := Serve(b, l.server, l.toServer[0].command);
    var more, rest := Label(answer, l.toServer[0].batch), ServeAll(b, server, l.toServer[1..]).1;
    assert (l.toClient + more) + rest == l.toClient + (more + rest);
  }

  lemma WritingAppends<D>(b: Backend<D>, l: Link<D>, sent: Sent)
    ensures var m := l.(toServer := l.toServer + [sent]);
            var (server, answer) := Serve(b, Final(b, l), sent.command);
            Final(b, m) == server && Outstanding(b, m) == Outstanding(b, l) + Label(answer, sent.batch)
  {
    ServeAllAppend(b, l.server, l.toServer, [sent]);
    var (server, answer) := Serve(b, Final(b, l), sent.command);
    var more := Label(answer, sent.batch);
    assert ServeAll(b, Final(b, l), [sent]) == (server, more) by {
      assert more + [] == more;
    }
    var front := ServeAll(b, l.server, l.toServer).1;
    assert l.toClient + (front + more) == (l.toClient + front) + more;
  }

  // --------------------------------------------------------------- invariant

  /** The client's bookkeeping fits what is still to be read. */
  predicate InBalance<D>(b: Backend<D>, y: System<D>) {
    Balanced(y.client, Outstanding(b, y.link), Final(b, y.link).mode, Syncs(y.written), y.pending)
  }

  /** What was read and what is still to be read is what the server says to
      the commands written, served one after the other. */
  ghost predicate Faithful<D>(b: Backend<D>, start: Server<D>, y: System<D>) {
    ServeAll(b, start, y.written) == (Final(b, y.link), y.received + Outstanding(b, y.link))
  }

  /** Every Sync written is outstanding, answered, or given up to a COPY. */
  predicate Accounted<D>(y: System<D>) {
    Syncs(y.written) == y.client.pendingSyncs + Readies(y.received) + y.retired
  }

  ghost predicate SystemInv<D>(b: Backend<D>, start: Server<D>, y: System<D>) {
    InBalance(b, y) && Faithful(b, start, y) && Accounted(y)
  }

  lemma WriteKeepsBalance(copies: Command -> Feeding, s: State, c: Call, command: Command,
                          out: seq<Reply>, mode: Mode, batches: nat, answer: seq<Event>, after: Mode, pending: Pending)
    requires Balanced(s, out, mode, batches, pending)
    requires Disciplined(copies, s, pending, c, command)
    requires Answers(copies, mode, command, answer, after)
    ensures Balanced(Perform(s, c).next, out + Label(answer, batches), after,
                     if command.tag == Sync then batches + 1 else batches, PendingAfter(copies, pending, command))
    ensures Perform(s, c).next.pendingSyncs == if command.tag == Sync then s.pendingSyncs + 1 else s.pendingSyncs
  {
    hide Perform, Permits, Balanced, Answers;
    WriteCounts(s, c);
    match command.tag
    case Sync => SyncKeepsBalance(copies, s, c, command, out, mode, batches, answer, after, pending);
    case Flush => FlushKeepsBalance(copies, s, c, command, out, mode, batches, answer, after, pending);
    case Data | Done | Fail =>
      CopyWriteKeepsBalance(copies, s, c, command, out, mode, batches, answer, after, pending);
    case Parse | Bind | Describe | Execute | Close =>
      OpeningKeepsBalance(copies, s, c, command, out, mode, batches, answer, after, pending);
    case Query | Terminate =>
  }

  lemma WriteCounts(s: State, c: Call)
    requires Permits(s, c) && Writes(c) != [] && !c.SendQuery?
    ensures Perform(s, c).next.pendingSyncs == if Writes(c)[0] == Sync then s.pendingSyncs + 1 else s.pendingSyncs
  {
  }

  lemma ReceiveKeepsBalance(s: State, c: Call, out: seq<Reply>, mode: Mode, batches: nat, pending: Pending)
    requires Balanced(s, out, mode, batches, pending) && out != []
    requires Receives(c, out[0].event) && Perform(s, c).outcome == Completed
    ensures var t := Perform(s, c).next;
            && Balanced(t, out[1..], mode, batches, PendingAfterReply(pending, out[0].event))
            && (StartsWritableCopy(out[0].event) ==> t.pendingSyncs == 0 && s.pendingSyncs <= 1)
            && (!StartsWritableCopy(out[0].event) ==>
                  t.pendingSyncs == if out[0].event.ReadyForQuery? then s.pendingSyncs - 1 else s.pendingSyncs)
  {
    var e := out[0].event;
    if StartsWritableCopy(e) {
      WritableCopyKeepsBalance(s, c, out, mode, batches, pending);
    } else if e.ReadyForQuery? {
      ReadyKeepsBalance(s, c, out, mode, batches, pending);
    } else if e.ErrorResponse? {
      ErrorKeepsBalance(s, c, out, mode, batches, pending);
    } else {
      OtherKeepsBalance(s, c, out, mode, batches, pending);
    }
  }

  lemma WriteIsFaithful<D>(b: Backend<D>, start: Server<D>, y: System<D>, c: Call, command: Command)
    requires Faithful(b, start, y)
    ensures Faithful(b, start, WriteNext(b, y, c, command))
  {
    var sent, out, end := Sent(command, Syncs(y.written)), Outstanding(b, y.link), Final(b, y.link);
    WritingAppends(b, y.link, sent);
    ServeAllAppend(b, start, y.written, [sent]);
    var (server, answer) := Serve(b, end, command);
    var more := Label(answer, sent.batch);
    assert ServeAll(b, end, [sent]) == (server, more) by { assert more + [] == more; }
    assert y.received + (out + more) == (y.received + out) + more;
  }

  lemma WriteStaysBalanced<D(!new)>(b: Backend<D>, y: System<D>, c: Call, command: Command)
    requires Legal(b) && InBalance(b, y)
    requires Disciplined(b.copies, y.client, y.pending, c, command)
    ensures InBalance(b, WriteNext(b, y, c, command))
    ensures Accounted(y) ==> Accounted(WriteNext(b, y, c, command))
  {
    hide Perform, Disciplined, Balanced, Serve, Answers;
    var sent, end := Sent(command, Syncs(y.written)), Final(b, y.link);
    var (server, answer) := Serve(b, end, command);
    ServeAnswers(b, end, command);
    WriteKeepsBalance(b.copies, y.client, c, command, Outstanding(b, y.link), end.mode, sent.batch,
                      answer, server.mode, y.pending);
    WritingAppends(b, y.link, sent);
    SyncsAppend(y.written, [sent]);
  }

  lemma ReceivingDrops<D>(b: Backend<D>, y: System<D>, fromCopy: bool)
    requires y.link.toClient != []
    ensures var z := ReceiveNext(y, fromCopy);
            var out := Outstanding(b, y.link);
            && out != [] && out[0] == y.link.toClient[0] && Outstanding(b, z.link) == out[1..]
            && Final(b, z.link) == Final(b, y.link) && z.received + out[1..] == y.received + out
  {
  }

  lemma ReceiveIsFaithful<D>(b: Backend<D>, start: Server<D>, y: System<D>, fromCopy: bool)
    requires Faithful(b, start, y) && y.link.toClient != []
    ensures Faithful(b, start, ReceiveNext(y, fromCopy))
  {
    ReceivingDrops(b, y, fromCopy);
  }

  lemma ReceiveStaysBalanced<D>(b: Backend<D>, y: System<D>, fromCopy: bool)
    requires InBalance(b, y) && Enabled(b, y, Receive(fromCopy))
    ensures InBalance(b, ReceiveNext(y, fromCopy))
    ensures Accounted(y) ==> Accounted(ReceiveNext(y, fromCopy))
  {
    hide Balanced;
    var reply := y.link.toClient[0];
    ReceivingDrops(b, y, fromCopy);
    ReceiveKeepsBalance(y.client, ReceiveCall(fromCopy, reply.event), Outstanding(b, y.link), Final(b, y.link).mode,
                        Syncs(y.written), y.pending);
    CountAppend(y.received, [reply]);
  }

  lemma SwitchKeepsBalance(s: State, c: Call, out: seq<Reply>, mode: Mode, batches: nat, pending: Pending)
    requires Balanced(s, out, mode, batches, pending)
    requires (c == EnterPipelineMode || c == ExitPipelineMode) && Permits(s, c)
    ensures Balanced(Perform(s, c).next, out, mode, batches, pending)
    ensures Perform(s, c).next.pendingSyncs == s.pendingSyncs
  {
    ModeChangeKeeps(s, c);
  }

  lemma StepKeepsInv<D(!new)>(b: Backend<D>, start: Server<D>, y: System<D>, a: Action)
    requires Legal(b) && SystemInv(b, start, y) && Enabled(b, y, a)
    ensures SystemInv(b, start, Next(b, y, a))
  {
    match a
    case Write(c, payload) =>
      WriteStaysBalanced(b, y, c, Command(Writes(c)[0], payload));
      WriteIsFaithful(b, start, y, c, Command(Writes(c)[0], payload));
    case ServeOne => ServingIsInvisible(b, y.link);
    case Receive(fromCopy) =>
      ReceiveStaysBalanced(b, y, fromCopy);
      ReceiveIsFaithful(b, start, y, fromCopy);
    case SwitchMode(c) =>
      SwitchKeepsBalance(y.client, c, Outstanding(b, y.link), Final(b, y.link).mode, Syncs(y.written), y.pending);
  }

  lemma {:induction false} RunStaysInBalance<D(!new)>(b: Backend<D>, start: Server<D>, path: seq<System<D>>, actions: seq<Action>, k: nat)
    requires Legal(b) && IsRun(b, path, actions) && k < |path| && SystemInv(b, start, path[0])
    ensures SystemInv(b, start, path[k])
    decreases k
  {
    hide SystemInv, Possible, Careful, Next;
    if k > 0 {
      RunStaysInBalance(b, start, path, actions, k - 1);
      assert actions[k - 1] == actions[k - 1];
      StepKeepsInv(b, start, path[k - 1], actions[k - 1]);
    }
  }

  lemma LeadsToItself<D(!new)>(b: Backend<D>, x: System<D>)
    ensures Leads(b, x, x)
  {
    assert IsRun(b, [x], []);
  }

  lemma LeadsOn<D(!new)>(b: Backend<D>, x: System<D>, y: System<D>, a: Action)
    requires Leads(b, x, y) && Enabled(b, y, a)
    ensures Leads(b, x, Next(b, y, a))
  {
    hide Possible, Careful, Next;
    var path, actions :| IsRun(b, path, actions) && path[0] == x && path[|actions|] == y;
    var path', actions' := path + [Next(b, y, a)], actions + [a];
    forall i | 0 <= i < |actions'|
      ensures Enabled(b, path'[i], actions'[i]) && path'[i + 1] == Next(b, path'[i], actions'[i])
    {
      if i < |actions| { assert actions'[i] == actions[i]; }
    }
    assert IsRun(b, path', actions');
  }

  lemma {:induction false} LeadsFurther<D(!new)>(b: Backend<D>, x: System<D>, path: seq<System<D>>, actions: seq<Action>, k: nat)
    requires IsRun(b, path, actions) && k < |path| && Leads(b, x, path[0])
    ensures Leads(b, x, path[k])
    decreases k
  {
    hide Possible, Careful, Next, Leads;
    if k > 0 {
      LeadsFurther(b, x, path, actions, k - 1);
      assert actions[k - 1] == actions[k - 1];
      LeadsOn(b, x, path[k - 1], actions[k - 1]);
    }
  }

  lemma LeadsAlong<D(!new)>(b: Backend<D>, x: System<D>, y: System<D>, z: System<D>)
    requires Leads(b, x, y) && Leads(b, y, z)
    ensures Leads(b, x, z)
  {
    hide Enabled;
    var path, actions :| IsRun(b, path, actions) && path[0] == y && path[|actions|] == z;
    LeadsFurther(b, x, path, actions, |actions|);
  }

  lemma ReachedStart<D(!new)>(b: Backend<D>, db: D)
    ensures Reached(b, db, StartOf(db))
  {
    LeadsToItself(b, StartOf(db));
  }

  /** The start is reached, and from a reached state whatever an enabled
      action leads to. */
  lemma ReachedNext<D(!new)>(b: Backend<D>, db: D, y: System<D>, a: Action)
    requires Reached(b, db, y) && Enabled(b, y, a)
    ensures Reached(b, db, StartOf(db)) && Reached(b, db, Next(b, y, a))
  {
    LeadsToItself(b, StartOf(db));
    LeadsOn(b, StartOf(db), y, a);
  }

  lemma {:induction false} StartKeepsInv<D(!new)>(b: Backend<D>, db: D)
    ensures SystemInv(b, Server(db, Normal), StartOf(db))
  {
    assert NoCopyAhead(STARTED, [], Normal) && Balanced(STARTED, [], Normal, 0, NoCopyPending);
  }
}
