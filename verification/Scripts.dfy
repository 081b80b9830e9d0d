/** What a server may have said where the application has heard only a part of
    it, and a server that says just that. */
module Scripts {
  import opened Protocol
  import opened PostgresBackend
  import opened Pipeline

  /** The answer to each command and the mode before each and after all. */
  datatype Play = Play(said: seq<seq<Event>>, modes: seq<Mode>)

  predicate IsPlay(copies: Command -> Feeding, cs: seq<Sent>, p: Play, after: Mode) {
    && |p.said| == |cs| && |p.modes| == |cs| + 1 && p.modes[0] == Normal && p.modes[|cs|] == after
    && forall i {:trigger p.said[i]} :: 0 <= i < |cs| ==> Answers(copies, p.modes[i], cs[i].command, p.said[i], p.modes[i + 1])
  }

  /** What is said to the first `n` commands. */
  function Said(cs: seq<Sent>, said: seq<seq<Event>>, n: nat): seq<Reply>
    requires n <= |cs| && n <= |said|
  {
    if n == 0 then [] else Said(cs, said, n - 1) + Label(said[n - 1], cs[n - 1].batch)
  }

  lemma {:induction false} SaidOfPrefix(cs: seq<Sent>, said: seq<seq<Event>>, ds: seq<Sent>, more: seq<seq<Event>>, n: nat)
    requires n <= |cs| && n <= |said| && n <= |ds| && n <= |more|
    requires cs[..n] == ds[..n] && said[..n] == more[..n]
    ensures Said(cs, said, n) == Said(ds, more, n)
    decreases n
  {
    if n > 0 {
      assert cs[..n][..n - 1] == cs[..n - 1] && ds[..n][..n - 1] == ds[..n - 1];
      assert said[..n][..n - 1] == said[..n - 1] && more[..n][..n - 1] == more[..n - 1];
      assert cs[..n][n - 1] == cs[n - 1] && said[..n][n - 1] == said[n - 1];
      assert ds[..n][n - 1] == ds[n - 1] && more[..n][n - 1] == more[n - 1];
      SaidOfPrefix(cs, said, ds, more, n - 1);
    }
  }

  /** Two servers in the same mode that answer the same stay in the same mode. */
  lemma AnswersOnce(copies: Command -> Feeding, mode: Mode, c: Command, answer: seq<Event>, after: Mode, other: Mode)
    requires Answers(copies, mode, c, answer, after) && Answers(copies, mode, c, answer, other)
    ensures after == other
  {
  }

  lemma LabelIsInjective(a: seq<Event>, b: seq<Event>, batch: nat)
    requires Label(a, batch) == Label(b, batch)
    ensures a == b
  {
    assert |a| == |Label(a, batch)| == |Label(b, batch)| == |b|;
    forall i | 0 <= i < |a| ensures a[i] == b[i] {
      assert Label(a, batch)[i] == Label(b, batch)[i];
    }
  }

  // ---------------------------------------------------- what a server did say

  function Upto<D>(b: Backend<D>, s: Server<D>, cs: seq<Sent>, n: nat): (Server<D>, seq<Reply>)
    requires n <= |cs|
  {
    ServeAll(b, s, cs[..n])
  }

  lemma ServeUpto<D>(b: Backend<D>, s: Server<D>, cs: seq<Sent>, n: nat)
    requires n < |cs|
    ensures var (t, replies) := Upto(b, s, cs, n);
            var (u, answer) := Serve(b, t, cs[n].command);
            Upto(b, s, cs, n + 1) == (u, replies + Label(answer, cs[n].batch))
  {
    assert cs[..n + 1] == cs[..n] + [cs[n]];
    ServeAllAppend(b, s, cs[..n], [cs[n]]);
    var (t, _) := Upto(b, s, cs, n);
    var (u, answer) := Serve(b, t, cs[n].command);
    assert Label(answer, cs[n].batch) + [] == Label(answer, cs[n].batch);
  }

  function HistoryOf<D>(b: Backend<D>, s: Server<D>, cs: seq<Sent>): Play {
    Play(seq(|cs|, i requires 0 <= i < |cs| => Serve(b, Upto(b, s, cs, i).0, cs[i].command).1),
         seq(|cs| + 1, i requires 0 <= i < |cs| + 1 => Upto(b, s, cs, i).0.mode))
  }

  lemma HistoryIsPlay<D(!new)>(b: Backend<D>, db: D, cs: seq<Sent>)
    requires Legal(b)
    ensures IsPlay(b.copies, cs, HistoryOf(b, Server(db, Normal), cs), ServeAll(b, Server(db, Normal), cs).0.mode)
  {
    hide Answers, Serve, Legal;
    var s := Server(db, Normal);
    var p := HistoryOf(b, s, cs);
    assert cs[..|cs|] == cs;
    forall i | 0 <= i < |cs| ensures Answers(b.copies, p.modes[i], cs[i].command, p.said[i], p.modes[i + 1]) {
      ServeUpto(b, s, cs, i);
      ServeAnswers(b, Upto(b, s, cs, i).0, cs[i].command);
    }
  }

  lemma {:induction false} HistorySays<D(!new)>(b: Backend<D>, s: Server<D>, cs: seq<Sent>, n: nat)
    requires n <= |cs|
    ensures Said(cs, HistoryOf(b, s, cs).said, n) == Upto(b, s, cs, n).1
    decreases n
  {
    hide Serve;
    if n > 0 {
      HistorySays(b, s, cs, n - 1);
      ServeUpto(b, s, cs, n - 1);
    }
  }

  // ------------------------------------------------------ the scripted server

  /** What there is to say, line by line. */
  type Script = seq<seq<Event>>

  /** Whether the database is asked at all. */
  predicate Asked(mode: Mode, c: Command) {
    if c.tag == Sync then mode != ReadingCopy
    else c.tag != Flush && mode != Discarding && (mode == ReadingCopy <==> c.tag in {Data, Done, Fail})
  }

  function Lines(cs: seq<Sent>, p: Play, n: nat): Script
    requires n <= |cs| == |p.said| && |p.modes| == |cs| + 1
    decreases |cs| - n
  {
    if n == |cs| then []
    else
      var line := if cs[n].command.tag == Sync && p.said[n] != [] then p.said[n][..|p.said[n]| - 1] else p.said[n];
      (if Asked(p.modes[n], cs[n].command) then [line] else []) + Lines(cs, p, n + 1)
  }

  function ReadOut(copies: Command -> Feeding, script: Script, c: Command): (Script, seq<Event>) {
    if script != [] && LegalAnswer(copies, c, script[0]) then (script[1..], script[0])
    else (script, if c.tag == Fail then [ErrorResponse] else [])
  }

  function ReadOutAtSync(script: Script): (Script, seq<Event>) {
    if script != [] && LegalCommit(script[0]) then (script[1..], script[0]) else (script, [])
  }

  /** A server whose database is a script. */
  function Scripted(copies: Command -> Feeding): Backend<Script> {
    Backend((script: Script, c: Command) => ReadOut(copies, script, c), (script: Script) => ReadOutAtSync(script), copies)
  }

  lemma ScriptedIsLegal(copies: Command -> Feeding)
    ensures Legal(Scripted(copies)) && Scripted(copies).copies == copies
  {
  }

  lemma ScriptedStep(copies: Command -> Feeding, cs: seq<Sent>, p: Play, after: Mode, n: nat)
    requires IsPlay(copies, cs, p, after) && n < |cs|
    ensures Serve(Scripted(copies), Server(Lines(cs, p, n), p.modes[n]), cs[n].command)
         == (Server(Lines(cs, p, n + 1), p.modes[n + 1]), p.said[n])
  {
    var c, answer := cs[n].command, p.said[n];
    var script := Lines(cs, p, n);
    assert Answers(copies, p.modes[n], c, answer, p.modes[n + 1]);
    if Asked(p.modes[n], c) {
      assert script[1..] == Lines(cs, p, n + 1);
      if c.tag == Sync {
        assert answer == answer[..|answer| - 1] + [ReadyForQuery];
      }
    } else {
      assert script == Lines(cs, p, n + 1);
    }
  }

  /** Given its script, it says it. */
  lemma {:induction false} ScriptedSays(copies: Command -> Feeding, cs: seq<Sent>, p: Play, after: Mode, n: nat)
    requires IsPlay(copies, cs, p, after) && n <= |cs|
    ensures Upto(Scripted(copies), Server(Lines(cs, p, 0), Normal), cs, n)
         == (Server(Lines(cs, p, n), p.modes[n]), Said(cs, p.said, n))
    decreases n
  {
    hide Serve, Lines, Scripted, Answers;
    if n > 0 {
      ScriptedSays(copies, cs, p, after, n - 1);
      ServeUpto(Scripted(copies), Server(Lines(cs, p, 0), Normal), cs, n - 1);
      ScriptedStep(copies, cs, p, after, n - 1);
    }
  }
}
