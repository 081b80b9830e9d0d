/** The part of a conversation that has been heard, told over again: so that
    nothing more has been said, or that the unanswered COPY now opens. */
module Retelling {
  import opened Protocol
  import opened PostgresBackend
  import opened Pipeline
  import opened Scripts

  function Least(m: nat, n: nat): nat {
    if m < n then m else n
  }

  /** The commands with which an unanswered COPY opens and is left, if it is;
      a number beyond them stands for neither. */
  datatype Course = Course(copy: nat, failure: nat)

  /** The COPY's response, and its error, as far as said to the first `n` commands. */
  function Ending(cs: seq<Sent>, w: Course, n: nat): seq<Reply>
    requires n <= |cs|
  {
    if n <= w.copy then []
    else if n <= w.failure then [Reply(CopyInResponse, cs[w.copy].batch)]
    else [Reply(CopyInResponse, cs[w.copy].batch), Reply(ErrorResponse, cs[w.copy].batch)]
  }

  /** What is to be said to the first `n` commands: the part of the server's
      replies that was heard, all of it before the COPY opens. */
  function Told<D>(b: Backend<D>, s: Server<D>, cs: seq<Sent>, heard: seq<Reply>, w: Course, n: nat): seq<Reply>
    requires n <= |cs|
  {
    if n <= w.copy then heard[..Least(|Upto(b, s, cs, n).1|, |heard|)] else heard + Ending(cs, w, n)
  }

  ghost predicate Retells<D>(b: Backend<D>, s: Server<D>, cs: seq<Sent>, heard: seq<Reply>, p: Play, w: Course) {
    && |p.said| == |cs|
    && forall n {:trigger Said(cs, p.said, n)} :: 0 <= n <= |cs| ==> Said(cs, p.said, n) == Told(b, s, cs, heard, w, n)
  }

  /** The COPY is passed over by Flush and its batch's Sync until another command
      of the batch makes it fail; then nothing but such commands follows. */
  predicate Passed(c: Sent, batch: nat, failed: bool) {
    c.command.tag == Flush || (c.batch == batch && (if failed then Opens(c.command.tag) else c.command.tag == Sync))
  }

  predicate OnlyPassed(cs: seq<Sent>, w: Course)
    requires w.copy < |cs|
  {
    forall i :: w.copy < i < |cs| ==> Passed(cs[i], cs[w.copy].batch, i >= w.failure)
  }

  /** Nothing more than was heard may have been said. */
  ghost predicate CanRetell<D>(b: Backend<D>, s: Server<D>, cs: seq<Sent>, heard: seq<Reply>, mode: Mode) {
    exists p {:trigger IsPlay(b.copies, cs, p, mode)} ::
      IsPlay(b.copies, cs, p, mode) && Retells(b, s, cs, heard, p, Course(|cs|, |cs|))
  }

  function ModeOf(cs: seq<Sent>, w: Course): Mode {
    if w.failure < |cs| then Discarding else ReadingCopy
  }

  /** A COPY is unanswered and can still open, and be left where `w` says. */
  ghost predicate OpensAt<D>(b: Backend<D>, s: Server<D>, cs: seq<Sent>, heard: seq<Reply>, w: Course) {
    && w.copy < |cs| && w.copy <= w.failure <= |cs| && StartsCopyAt(b.copies, cs[w.copy].command) && OnlyPassed(cs, w)
    && (w.failure == w.copy ==> b.copies(cs[w.copy].command).Hasty?)
    && exists p {:trigger IsPlay(b.copies, cs, p, ModeOf(cs, w))} ::
         IsPlay(b.copies, cs, p, ModeOf(cs, w)) && Retells(b, s, cs, heard, p, w)
  }

  lemma UptoGrows<D>(b: Backend<D>, s: Server<D>, cs: seq<Sent>, m: nat, n: nat)
    requires m <= n <= |cs|
    ensures Upto(b, s, cs, m).1 <= Upto(b, s, cs, n).1
  {
    assert cs[..n] == cs[..m] + cs[m..n];
    ServeAllAppend(b, s, cs[..m], cs[m..n]);
  }

  // ------------------------------------------------------------ writing more

  lemma PlayGoesOn(copies: Command -> Feeding, cs: seq<Sent>, p: Play, mode: Mode, c: Sent, answer: seq<Event>, after: Mode)
    requires IsPlay(copies, cs, p, mode) && Answers(copies, mode, c.command, answer, after)
    ensures IsPlay(copies, cs + [c], Play(p.said + [answer], p.modes + [after]), after)
  {
    hide Answers;
    var cs', p' := cs + [c], Play(p.said + [answer], p.modes + [after]);
    forall i | 0 <= i < |cs'| ensures Answers(copies, p'.modes[i], cs'[i].command, p'.said[i], p'.modes[i + 1]) {
      if i < |cs| { assert p'.said[i] == p.said[i]; }
    }
  }

  /** The course after one command more. */
  predicate Continues(w: Course, size: nat, w': Course) {
    && (w'.copy == w.copy || (w.copy == size && w.copy <= w'.copy))
    && (w'.failure == w.failure || (w.failure == size && w.failure <= w'.failure))
  }

  lemma RetoldBefore<D>(b: Backend<D>, s: Server<D>, cs: seq<Sent>, heard: seq<Reply>, p: Play, w: Course,
                        c: Sent, answer: seq<Event>, w': Course, n: nat)
    requires Retells(b, s, cs, heard, p, w) && n <= |cs| && Continues(w, |cs|, w')
    ensures Said(cs + [c], p.said + [answer], n) == Told(b, s, cs + [c], heard, w', n)
  {
    var cs' := cs + [c];
    assert cs'[..n] == cs[..n] && (p.said + [answer])[..n] == p.said[..n];
    SaidOfPrefix(cs, p.said, cs', p.said + [answer], n);
    assert Upto(b, s, cs', n) == Upto(b, s, cs, n);
  }

  /** A command more, to which `answer` is said. */
  lemma RetellsNext<D>(b: Backend<D>, s: Server<D>, cs: seq<Sent>, heard: seq<Reply>, p: Play, w: Course,
                       c: Sent, answer: seq<Event>, w': Course)
    requires Retells(b, s, cs, heard, p, w) && Continues(w, |cs|, w')
    requires Told(b, s, cs + [c], heard, w', |cs| + 1) == Told(b, s, cs + [c], heard, w', |cs|) + Label(answer, c.batch)
    ensures Retells(b, s, cs + [c], heard, Play(p.said + [answer], p.modes), w')
  {
    hide Told;
    var cs', said' := cs + [c], p.said + [answer];
    forall n | 0 <= n <= |cs'| ensures Said(cs', said', n) == Told(b, s, cs', heard, w', n) {
      if n <= |cs| {
        RetoldBefore(b, s, cs, heard, p, w, c, answer, w', n);
      } else {
        RetoldBefore(b, s, cs, heard, p, w, c, answer, w', |cs|);
      }
    }
  }

  /** Nothing is said yet: before the COPY, or while it is open, or after it. */
  lemma ToldSilence<D>(b: Backend<D>, s: Server<D>, cs: seq<Sent>, heard: seq<Reply>, w: Course, c: Sent)
    requires heard <= ServeAll(b, s, cs).1 && w.copy != |cs| && w.failure != |cs|
    ensures Told(b, s, cs + [c], heard, w, |cs| + 1) == Told(b, s, cs + [c], heard, w, |cs|) + Label([], c.batch)
  {
    assert (cs + [c])[..|cs|] == cs;
    UptoGrows(b, s, cs + [c], |cs|, |cs| + 1);
  }

  lemma ToldOpening<D>(b: Backend<D>, s: Server<D>, cs: seq<Sent>, heard: seq<Reply>, w: Course, c: Sent)
    requires heard <= ServeAll(b, s, cs).1 && w.copy == |cs| && w.failure >= |cs|
    ensures Told(b, s, cs + [c], heard, w, |cs| + 1) == Told(b, s, cs + [c], heard, w, |cs|)
         + Label(if w.failure == |cs| then [CopyInResponse, ErrorResponse] else [CopyInResponse], c.batch)
  {
    assert (cs + [c])[..|cs|] == cs;
  }

  lemma ToldFailure<D>(b: Backend<D>, s: Server<D>, cs: seq<Sent>, heard: seq<Reply>, w: Course, c: Sent)
    requires w.copy < |cs| == w.failure && c.batch == cs[w.copy].batch
    ensures Told(b, s, cs + [c], heard, w, |cs| + 1) == Told(b, s, cs + [c], heard, w, |cs|) + Label([ErrorResponse], c.batch)
  {
  }

  // ------------------------------------------------------------ hearing more

  /** The command that the next reply answers. */
  lemma {:induction false} AnswersWhich<D>(b: Backend<D>, s: Server<D>, cs: seq<Sent>, r: nat, n: nat) returns (i: nat)
    requires n <= |cs| && r < |Upto(b, s, cs, n).1|
    ensures i < n && |Upto(b, s, cs, i).1| <= r < |Upto(b, s, cs, i + 1).1|
    decreases n
  {
    assert cs[..0] == [];
    if |Upto(b, s, cs, n - 1).1| <= r {
      i := n - 1;
    } else {
      i := AnswersWhich(b, s, cs, r, n - 1);
    }
  }

  /** As far as everything was heard, the same was said. */
  lemma SaidTheSame<D(!new)>(b: Backend<D>, s: Server<D>, cs: seq<Sent>, heard: seq<Reply>, p: Play, w: Course, i: nat)
    requires Retells(b, s, cs, heard, p, w) && heard <= ServeAll(b, s, cs).1
    requires i < |cs| && i < w.copy && |Upto(b, s, cs, i).1| <= |heard|
    ensures var answer := Serve(b, Upto(b, s, cs, i).0, cs[i].command).1;
            p.said[i] == answer[..Least(|heard| - |Upto(b, s, cs, i).1|, |answer|)]
  {
    hide Serve;
    assert cs[..|cs|] == cs;
    UptoGrows(b, s, cs, i, |cs|);
    UptoGrows(b, s, cs, i + 1, |cs|);
    ServeUpto(b, s, cs, i);
    var before, answer := Upto(b, s, cs, i).1, Serve(b, Upto(b, s, cs, i).0, cs[i].command).1;
    var part := answer[..Least(|heard| - |before|, |answer|)];
    var batch := cs[i].batch;
    assert Said(cs, p.said, i) == before;
    assert Said(cs, p.said, i + 1) == heard[..Least(|before| + |answer|, |heard|)] == before + Label(part, batch);
    assert Label(p.said[i], batch) == Said(cs, p.said, i + 1)[|before|..] == Label(part, batch);
    LabelIsInjective(p.said[i], part, batch);
  }

  lemma {:induction false} ModesAgree<D(!new)>(b: Backend<D>, db: D, cs: seq<Sent>, heard: seq<Reply>, p: Play, after: Mode, w: Course, n: nat)
    requires Legal(b) && IsPlay(b.copies, cs, p, after) && Retells(b, Server(db, Normal), cs, heard, p, w)
    requires heard <= ServeAll(b, Server(db, Normal), cs).1
    requires n <= |cs| && n <= w.copy && |Upto(b, Server(db, Normal), cs, n).1| <= |heard|
    ensures p.modes[n] == Upto(b, Server(db, Normal), cs, n).0.mode
    decreases n
  {
    hide Serve, Answers, Legal, Retells;
    var s := Server(db, Normal);
    assert cs[..0] == [];
    if n > 0 {
      UptoGrows(b, s, cs, n - 1, n);
      ModesAgree(b, db, cs, heard, p, after, w, n - 1);
      SaidTheSame(b, s, cs, heard, p, w, n - 1);
      ServeUpto(b, s, cs, n - 1);
      var t := Upto(b, s, cs, n - 1).0;
      ServeAnswers(b, t, cs[n - 1].command);
      var answer := Serve(b, t, cs[n - 1].command).1;
      assert p.said[n - 1] == answer;
      AnswersOnce(b.copies, t.mode, cs[n - 1].command, answer, p.modes[n], Upto(b, s, cs, n).0.mode);
    }
  }

  lemma CommitEndsOnce(part: seq<Event>, answer: seq<Event>)
    requires CommitAnswer(part) && CommitAnswer(answer) && part <= answer
    ensures part == answer
  {
    var before := answer[..|answer| - 1];
    assert forall i :: 0 <= i < |before| ==> before[i] == answer[i];
    assert answer[|part| - 1] == part[|part| - 1];
  }

  /** One message more of an answer may have been said, unless it settles. */
  lemma PartIsLegal(copies: Command -> Feeding, mode: Mode, c: Command, answer: seq<Event>, m: Mode, part: seq<Event>, n: Mode, e: Event)
    requires Answers(copies, mode, c, answer, m) && Answers(copies, mode, c, part, n)
    requires part + [e] <= answer && !Settles(e)
    ensures Answers(copies, mode, c, part + [e], n)
  {
    var longer := part + [e];
    assert forall i :: 0 <= i < |longer| ==> longer[i] == answer[i];
    assert |part| < |answer| && part == answer[..|part|];
    if c.tag == Sync && mode != ReadingCopy {
      CommitEndsOnce(part, answer);
    } else if LegalAnswer(copies, c, answer) {
      assert LegalAnswer(copies, c, longer);
    }
  }

  lemma {:induction false} SaidAfter(cs: seq<Sent>, said: seq<seq<Event>>, more: seq<seq<Event>>, m: nat, n: nat) returns (rest: seq<Reply>)
    requires m <= n <= |cs| && |said| == |more| == |cs|
    requires forall i :: m <= i < n ==> said[i] == more[i]
    ensures Said(cs, said, n) == Said(cs, said, m) + rest && Said(cs, more, n) == Said(cs, more, m) + rest
    decreases n
  {
    if m == n {
      rest := [];
    } else {
      var front := SaidAfter(cs, said, more, m, n - 1);
      var last := Label(said[n - 1], cs[n - 1].batch);
      rest := front + last;
      assert Said(cs, said, m) + front + last == Said(cs, said, m) + rest;
      assert Said(cs, more, m) + front + last == Said(cs, more, m) + rest;
    }
  }

  /** `said` with another answer to the i-th command. */
  lemma SaidUpdated(cs: seq<Sent>, said: seq<seq<Event>>, i: nat, answer: seq<Event>, n: nat) returns (rest: seq<Reply>)
    requires i < |cs| == |said| && n <= |cs|
    ensures n <= i ==> Said(cs, said[i := answer], n) == Said(cs, said, n)
    ensures n > i ==> Said(cs, said, n) == Said(cs, said, i + 1) + rest
    ensures n > i ==> Said(cs, said[i := answer], n) == Said(cs, said, i) + Label(answer, cs[i].batch) + rest
  {
    assert said[i := answer][..i] == said[..i];
    SaidOfPrefix(cs, said, cs, said[i := answer], i);
    if n <= i {
      assert said[i := answer][..n] == said[..n];
      SaidOfPrefix(cs, said, cs, said[i := answer], n);
      rest := [];
    } else {
      rest := SaidAfter(cs, said, said[i := answer], i + 1, n);
    }
  }

  lemma PlayUpdated(copies: Command -> Feeding, cs: seq<Sent>, p: Play, after: Mode, i: nat, answer: seq<Event>)
    requires IsPlay(copies, cs, p, after) && i < |cs|
    requires Answers(copies, p.modes[i], cs[i].command, answer, p.modes[i + 1])
    ensures IsPlay(copies, cs, p.(said := p.said[i := answer]), after)
  {
    hide Answers;
    var said' := p.said[i := answer];
    forall j | 0 <= j < |cs| ensures Answers(copies, p.modes[j], cs[j].command, said'[j], p.modes[j + 1]) {
      if j != i { assert said'[j] == p.said[j]; }
    }
  }

  lemma TellMore<D>(b: Backend<D>, s: Server<D>, cs: seq<Sent>, heard: seq<Reply>, w: Course, reply: Reply, rest: seq<Reply>, n: nat)
    requires n <= |cs| && |heard| < |Upto(b, s, cs, n).1| && Told(b, s, cs, heard, w, n) == heard + rest
    ensures Told(b, s, cs, heard + [reply], w, n) == heard + [reply] + rest
  {
    hide Upto;
    assert rest == (heard + rest)[|heard|..];
    assert heard[..|heard|] == heard;
    assert (heard + [reply])[..|heard| + 1] == heard + [reply];
    assert heard + [reply] + [] == heard + [reply];
  }

  lemma TellAsBefore<D>(b: Backend<D>, s: Server<D>, cs: seq<Sent>, heard: seq<Reply>, w: Course, reply: Reply, n: nat)
    requires n <= |cs| && n <= w.copy && |Upto(b, s, cs, n).1| <= |heard|
    ensures Told(b, s, cs, heard + [reply], w, n) == Told(b, s, cs, heard, w, n)
  {
  }

  lemma RetellsMore<D>(b: Backend<D>, s: Server<D>, cs: seq<Sent>, heard: seq<Reply>, p: Play, w: Course, reply: Reply, i: nat, part: seq<Event>)
    requires Retells(b, s, cs, heard, p, w) && i < |cs| && i < w.copy
    requires |Upto(b, s, cs, i).1| <= |heard| < |Upto(b, s, cs, i + 1).1|
    requires Label(part, cs[i].batch) == Label(p.said[i], cs[i].batch) + [reply]
    ensures Retells(b, s, cs, heard + [reply], p.(said := p.said[i := part]), w)
  {
    hide Upto, Told;
    var said' := p.said[i := part];
    assert Said(cs, p.said, i + 1) == heard by { ToldAllHeard(b, s, cs, heard, w, i + 1); }
    forall n | 0 <= n <= |cs| ensures Said(cs, said', n) == Told(b, s, cs, heard + [reply], w, n) {
      var rest := SaidUpdated(cs, p.said, i, part, n);
      if n <= i {
        UptoGrows(b, s, cs, n, i);
        TellAsBefore(b, s, cs, heard, w, reply, n);
      } else {
        UptoGrows(b, s, cs, i + 1, n);
        TellMore(b, s, cs, heard, w, reply, rest, n);
        assert Said(cs, p.said, i) + (Label(p.said[i], cs[i].batch) + [reply]) == heard + [reply];
      }
    }
  }

  lemma ToldAllHeard<D>(b: Backend<D>, s: Server<D>, cs: seq<Sent>, heard: seq<Reply>, w: Course, n: nat)
    requires n <= |cs| && n <= w.copy && |heard| <= |Upto(b, s, cs, n).1|
    ensures Told(b, s, cs, heard, w, n) == heard
  {
    assert heard[..|heard|] == heard;
  }

  /** The next reply answers a command before the COPY. */
  lemma HearBefore<D(!new)>(b: Backend<D>, db: D, cs: seq<Sent>, heard: seq<Reply>, p: Play, after: Mode, w: Course, reply: Reply, i: nat)
    returns (q: Play)
    requires Legal(b) && IsPlay(b.copies, cs, p, after) && Retells(b, Server(db, Normal), cs, heard, p, w) && w.copy <= |cs|
    requires heard + [reply] <= ServeAll(b, Server(db, Normal), cs).1 && !Settles(reply.event)
    requires i < w.copy && |Upto(b, Server(db, Normal), cs, i).1| <= |heard| < |Upto(b, Server(db, Normal), cs, i + 1).1|
    ensures IsPlay(b.copies, cs, q, after) && Retells(b, Server(db, Normal), cs, heard + [reply], q, w)
  {
    hide Legal, Serve, Answers, Settles;
    var s := Server(db, Normal);
    var all := ServeAll(b, s, cs).1;
    assert heard <= all by { assert heard == (heard + [reply])[..|heard|]; }
    var t, before := Upto(b, s, cs, i).0, Upto(b, s, cs, i).1;
    var c, batch := cs[i].command, cs[i].batch;
    var answer := Serve(b, t, c).1;
    ServeUpto(b, s, cs, i);
    UptoGrows(b, s, cs, i + 1, |cs|);
    assert cs[..|cs|] == cs;
    SaidTheSame(b, s, cs, heard, p, w, i);
    var j := |heard| - |before|;
    assert reply == all[|heard|] == Label(answer, batch)[j];
    assert p.said[i] + [reply.event] == answer[..j + 1];
    ModesAgree(b, db, cs, heard, p, after, w, i);
    ServeAnswers(b, t, c);
    PartIsLegal(b.copies, t.mode, c, answer, Serve(b, t, c).0.mode, p.said[i], p.modes[i + 1], reply.event);
    var part := p.said[i] + [reply.event];
    PlayUpdated(b.copies, cs, p, after, i, part);
    q := p.(said := p.said[i := part]);
    assert Label(part, batch) == Label(p.said[i], batch) + [reply];
    RetellsMore(b, s, cs, heard, p, w, reply, i, part);
  }

  /** The next reply answers the COPY itself or a command behind it: it becomes
      a message before the COPY's response. */
  lemma HearInside<D(!new)>(b: Backend<D>, s: Server<D>, cs: seq<Sent>, heard: seq<Reply>, p: Play, after: Mode, w: Course, reply: Reply)
    returns (q: Play)
    requires IsPlay(b.copies, cs, p, after) && Retells(b, s, cs, heard, p, w)
    requires w.copy < |cs| && w.copy <= w.failure && StartsCopyAt(b.copies, cs[w.copy].command)
    requires |Upto(b, s, cs, w.copy).1| <= |heard| && reply.batch == cs[w.copy].batch && !Settles(reply.event)
    ensures IsPlay(b.copies, cs, q, after) && Retells(b, s, cs, heard + [reply], q, w)
  {
    hide Serve, ServeAll, Answers;
    var k := w.copy;
    var before, ending := Said(cs, p.said, k), Ending(cs, w, k + 1);
    var last := if w.failure == k then [CopyInResponse, ErrorResponse] else [CopyInResponse];
    assert before == heard[..|before|] && Said(cs, p.said, k + 1) == heard + ending;
    assert Label(p.said[k], cs[k].batch) == (heard + ending)[|before|..] == heard[|before|..] + ending;
    var front := EventsBefore(p.said[k], heard[|before|..], last, cs[k].batch);
    OpeningIsLegal(b.copies, p.modes[k], cs[k].command, front, last, p.modes[k + 1], reply.event);
    var answer := front + [reply.event] + last;
    PlayUpdated(b.copies, cs, p, after, k, answer);
    q := p.(said := p.said[k := answer]);
    assert Label(answer, cs[k].batch) == Label(front, cs[k].batch) + [reply] + Label(last, cs[k].batch);
    RetellsInside(b, s, cs, heard, p, w, reply, answer);
  }

  lemma EventsBefore(said: seq<Event>, replies: seq<Reply>, last: seq<Event>, batch: nat) returns (front: seq<Event>)
    requires Label(said, batch) == replies + Label(last, batch)
    ensures said == front + last && Label(front, batch) == replies
  {
    assert |said| == |Label(said, batch)| == |replies| + |last|;
    front := said[..|replies|];
    forall i | 0 <= i < |said| ensures said[i] == (front + last)[i] {
      assert Label(said, batch)[i] == (replies + Label(last, batch))[i];
    }
    forall i | 0 <= i < |replies| ensures Label(front, batch)[i] == replies[i] {
      assert Label(said, batch)[i] == (replies + Label(last, batch))[i];
    }
  }

  lemma RetellsInside<D>(b: Backend<D>, s: Server<D>, cs: seq<Sent>, heard: seq<Reply>, p: Play, w: Course, reply: Reply, answer: seq<Event>)
    requires Retells(b, s, cs, heard, p, w) && w.copy < |cs| && |Upto(b, s, cs, w.copy).1| <= |heard|
    requires var before := Said(cs, p.said, w.copy);
             before <= heard && Label(answer, cs[w.copy].batch) == heard[|before|..] + [reply] + Ending(cs, w, w.copy + 1)
    ensures Retells(b, s, cs, heard + [reply], p.(said := p.said[w.copy := answer]), w)
  {
    hide Upto, Told, Said, Ending;
    var k, said' := w.copy, p.said[w.copy := answer];
    forall n | 0 <= n <= |cs| ensures Said(cs, said', n) == Told(b, s, cs, heard + [reply], w, n) {
      var rest := SaidUpdated(cs, p.said, k, answer, n);
      if n <= k {
        UptoGrows(b, s, cs, n, k);
        TellAsBefore(b, s, cs, heard, w, reply, n);
      } else {
        ToldBehind(b, s, cs, heard + [reply], w, n);
        SaidBehind(b, s, cs, heard, p, w, n);
        SaidBehind(b, s, cs, heard, p, w, k + 1);
        Regroup(Said(cs, p.said, k), heard, reply, Ending(cs, w, k + 1), rest, Ending(cs, w, n));
      }
    }
  }

  lemma ToldBehind<D>(b: Backend<D>, s: Server<D>, cs: seq<Sent>, heard: seq<Reply>, w: Course, n: nat)
    requires w.copy < n <= |cs|
    ensures Told(b, s, cs, heard, w, n) == heard + Ending(cs, w, n)
  {
  }

  lemma SaidBehind<D>(b: Backend<D>, s: Server<D>, cs: seq<Sent>, heard: seq<Reply>, p: Play, w: Course, n: nat)
    requires Retells(b, s, cs, heard, p, w) && w.copy < n <= |cs|
    ensures Said(cs, p.said, n) == heard + Ending(cs, w, n)
  {
  }

  lemma Regroup(before: seq<Reply>, heard: seq<Reply>, reply: Reply, first: seq<Reply>, rest: seq<Reply>, all: seq<Reply>)
    requires before <= heard && heard + all == heard + first + rest
    ensures before + (heard[|before|..] + [reply] + first) + rest == (heard + [reply]) + all
  {
    assert all == (heard + all)[|heard|..] == (heard + first + rest)[|heard|..] == first + rest;
    assert before + heard[|before|..] == heard;
  }

  lemma OpeningIsLegal(copies: Command -> Feeding, mode: Mode, c: Command, front: seq<Event>, last: seq<Event>, after: Mode, e: Event)
    requires StartsCopyAt(copies, c) && !Settles(e) && (last == [CopyInResponse] || last == [CopyInResponse, ErrorResponse])
    requires Answers(copies, mode, c, front + last, after)
    ensures Answers(copies, mode, c, front + [e] + last, after)
  {
    var answer, answer' := front + last, front + [e] + last;
    assert answer[|front|] == CopyInResponse;
    assert forall i :: 0 <= i < |front| ==> answer[i] == front[i] == answer'[i];
    assert mode == Normal && !OpensNone(answer);
    if last == [CopyInResponse] {
      assert ErrorResponse !in answer;
      assert OpensCopy(answer');
    } else {
      assert answer[..|answer| - 1] == front + [CopyInResponse];
      assert answer'[..|answer'| - 1] == front + [e, CopyInResponse];
      assert OpensCopy(front + [CopyInResponse]);
      assert OpensCopy(front + [e, CopyInResponse]);
    }
    assert LegalAnswer(copies, c, answer');
  }

  /** After the COPY's command only answers to commands of its batch. */
  lemma HeardFromBatch<D(!new)>(b: Backend<D>, s: Server<D>, cs: seq<Sent>, w: Course, i: nat, reply: Reply, r: nat)
    requires w.copy < |cs| && OnlyPassed(cs, w) && w.copy <= i < |cs|
    requires |Upto(b, s, cs, i).1| <= r < |Upto(b, s, cs, i + 1).1| && reply == Upto(b, s, cs, i + 1).1[r]
    ensures reply.batch == cs[w.copy].batch
  {
    ServeUpto(b, s, cs, i);
  }

  // ------------------------------------------------------------- both at once

  lemma WhichOfAll<D>(b: Backend<D>, s: Server<D>, cs: seq<Sent>, heard: seq<Reply>, reply: Reply) returns (i: nat)
    requires heard + [reply] <= ServeAll(b, s, cs).1
    ensures i < |cs| && |Upto(b, s, cs, i).1| <= |heard| < |Upto(b, s, cs, i + 1).1|
    ensures reply == Upto(b, s, cs, i + 1).1[|heard|]
  {
    assert cs[..|cs|] == cs;
    i := AnswersWhich(b, s, cs, |heard|, |cs|);
    UptoGrows(b, s, cs, i + 1, |cs|);
    assert (heard + [reply])[|heard|] == reply;
  }

  lemma HearOn<D(!new)>(b: Backend<D>, db: D, cs: seq<Sent>, heard: seq<Reply>, mode: Mode, reply: Reply)
    requires Legal(b) && CanRetell(b, Server(db, Normal), cs, heard, mode)
    requires heard + [reply] <= ServeAll(b, Server(db, Normal), cs).1 && !Settles(reply.event)
    ensures CanRetell(b, Server(db, Normal), cs, heard + [reply], mode)
  {
    hide Retells, Settles, Legal, Upto, ServeAll;
    var s, w := Server(db, Normal), Course(|cs|, |cs|);
    var p :| IsPlay(b.copies, cs, p, mode) && Retells(b, s, cs, heard, p, w);
    var i := WhichOfAll(b, s, cs, heard, reply);
    var q := HearBefore(b, db, cs, heard, p, mode, w, reply, i);
  }

  lemma HearOnBeforeCopy<D(!new)>(b: Backend<D>, db: D, cs: seq<Sent>, heard: seq<Reply>, w: Course, reply: Reply)
    requires Legal(b) && OpensAt(b, Server(db, Normal), cs, heard, w)
    requires heard + [reply] <= ServeAll(b, Server(db, Normal), cs).1 && !Settles(reply.event)
    ensures OpensAt(b, Server(db, Normal), cs, heard + [reply], w)
  {
    hide Retells, Settles, Legal, Upto, ServeAll, OnlyPassed;
    var s, mode := Server(db, Normal), ModeOf(cs, w);
    var p :| IsPlay(b.copies, cs, p, mode) && Retells(b, s, cs, heard, p, w);
    var i := WhichOfAll(b, s, cs, heard, reply);
    if i < w.copy {
      var q := HearBefore(b, db, cs, heard, p, mode, w, reply, i);
    } else {
      UptoGrows(b, s, cs, w.copy, i);
      HeardFromBatch(b, s, cs, w, i, reply, |heard|);
      var q := HearInside(b, s, cs, heard, p, mode, w, reply);
    }
  }

  lemma RetellsAlike<D>(b: Backend<D>, s: Server<D>, cs: seq<Sent>, heard: seq<Reply>, p: Play, q: Play, w: Course)
    requires p.said == q.said && Retells(b, s, cs, heard, p, w)
    ensures Retells(b, s, cs, heard, q, w)
  {
  }

  /** A play goes on with `answer` and retells along the course `w'`. */
  lemma GoOn<D>(b: Backend<D>, s: Server<D>, cs: seq<Sent>, heard: seq<Reply>, p: Play, mode: Mode, w: Course,
                c: Sent, answer: seq<Event>, after: Mode, w': Course) returns (q: Play)
    requires IsPlay(b.copies, cs, p, mode) && Retells(b, s, cs, heard, p, w) && Continues(w, |cs|, w')
    requires Answers(b.copies, mode, c.command, answer, after)
    requires Told(b, s, cs + [c], heard, w', |cs| + 1) == Told(b, s, cs + [c], heard, w', |cs|) + Label(answer, c.batch)
    ensures IsPlay(b.copies, cs + [c], q, after) && Retells(b, s, cs + [c], heard, q, w')
  {
    hide Retells, Told, Answers;
    PlayGoesOn(b.copies, cs, p, mode, c, answer, after);
    RetellsNext(b, s, cs, heard, p, w, c, answer, w');
    q := Play(p.said + [answer], p.modes + [after]);
    RetellsAlike(b, s, cs + [c], heard, Play(p.said + [answer], p.modes), q, w');
  }

  lemma WriteOn<D>(b: Backend<D>, s: Server<D>, cs: seq<Sent>, heard: seq<Reply>, mode: Mode, c: Sent, after: Mode)
    requires CanRetell(b, s, cs, heard, mode) && heard <= ServeAll(b, s, cs).1
    requires Answers(b.copies, mode, c.command, [], after)
    ensures CanRetell(b, s, cs + [c], heard, after)
  {
    hide Retells, ServeAll, Told;
    var w, w' := Course(|cs|, |cs|), Course(|cs| + 1, |cs| + 1);
    var p :| IsPlay(b.copies, cs, p, mode) && Retells(b, s, cs, heard, p, w);
    ToldSilence(b, s, cs, heard, w', c);
    var q := GoOn(b, s, cs, heard, p, mode, w, c, [], after, w');
  }

  /** The course a COPY takes that has just been asked for. */
  function CourseFrom(copies: Command -> Feeding, cs: seq<Sent>, c: Sent): Course {
    Course(|cs|, if copies(c.command).Patient? then |cs| + 1 else |cs|)
  }

  lemma WriteCopy<D>(b: Backend<D>, s: Server<D>, cs: seq<Sent>, heard: seq<Reply>, c: Sent)
    requires CanRetell(b, s, cs, heard, Normal) && heard <= ServeAll(b, s, cs).1 && StartsCopyAt(b.copies, c.command)
    ensures OpensAt(b, s, cs + [c], heard, CourseFrom(b.copies, cs, c))
  {
    hide Retells, ServeAll, Told;
    var w, w' := Course(|cs|, |cs|), CourseFrom(b.copies, cs, c);
    var answer := if w'.failure == |cs| then [CopyInResponse, ErrorResponse] else [CopyInResponse];
    var p :| IsPlay(b.copies, cs, p, Normal) && Retells(b, s, cs, heard, p, w);
    ToldOpening(b, s, cs, heard, w', c);
    assert [CopyInResponse, ErrorResponse][..1] == [CopyInResponse];
    var q := GoOn(b, s, cs, heard, p, Normal, w, c, answer, ModeOf(cs + [c], w'), w');
  }

  /** Flush or Sync, or a command more once the COPY has been left. */
  lemma WriteOnBehindCopy<D>(b: Backend<D>, s: Server<D>, cs: seq<Sent>, heard: seq<Reply>, w: Course, c: Sent)
    requires OpensAt(b, s, cs, heard, w) && heard <= ServeAll(b, s, cs).1
    requires Passed(c, cs[w.copy].batch, w.failure < |cs|)
    ensures OpensAt(b, s, cs + [c], heard, if w.failure < |cs| then w else w.(failure := |cs| + 1))
  {
    hide Retells, ServeAll, Told;
    var w' := if w.failure < |cs| then w else w.(failure := |cs| + 1);
    var p :| IsPlay(b.copies, cs, p, ModeOf(cs, w)) && Retells(b, s, cs, heard, p, w);
    ToldSilence(b, s, cs, heard, w', c);
    var q := GoOn(b, s, cs, heard, p, ModeOf(cs, w), w, c, [], ModeOf(cs + [c], w'), w');
    assert forall i :: w.copy < i < |cs| ==> (cs + [c])[i] == cs[i];
  }

  /** A command of the batch while the COPY is open makes it fail. */
  lemma WriteIntoCopy<D>(b: Backend<D>, s: Server<D>, cs: seq<Sent>, heard: seq<Reply>, w: Course, c: Sent)
    requires OpensAt(b, s, cs, heard, w) && heard <= ServeAll(b, s, cs).1 && w.failure == |cs|
    requires Opens(c.command.tag) && c.batch == cs[w.copy].batch
    ensures OpensAt(b, s, cs + [c], heard, w)
  {
    hide Retells, ServeAll, Told;
    var p :| IsPlay(b.copies, cs, p, ReadingCopy) && Retells(b, s, cs, heard, p, w);
    ToldFailure(b, s, cs, heard, w, c);
    var q := GoOn(b, s, cs, heard, p, ReadingCopy, w, c, [ErrorResponse], ModeOf(cs + [c], w), w);
    assert forall i :: w.copy <= i < |cs| ==> (cs + [c])[i] == cs[i];
  }

  /** When everything was heard, it was said as it was. */
  lemma AllHeard<D(!new)>(b: Backend<D>, db: D, cs: seq<Sent>)
    requires Legal(b)
    ensures var (t, replies) := ServeAll(b, Server(db, Normal), cs); CanRetell(b, Server(db, Normal), cs, replies, t.mode)
  {
    hide Legal, ServeAll, HistoryOf;
    var s := Server(db, Normal);
    var (t, replies) := ServeAll(b, s, cs);
    HistoryIsPlay(b, db, cs);
    var p := HistoryOf(b, s, cs);
    assert cs[..|cs|] == cs;
    forall n | 0 <= n <= |cs| ensures Said(cs, p.said, n) == Told(b, s, cs, replies, Course(|cs|, |cs|), n) {
      HistorySays(b, s, cs, n);
      UptoGrows(b, s, cs, n, |cs|);
    }
  }
}
