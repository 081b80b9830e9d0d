/** The splitter as the program runs it: one byte at a time, with the lexer's
    state in variables. */
module SqlSplitter {
  import opened SqlPieces
  import SqlScripts

  datatype LexState = Normal | InLineComment | InBlockComment | InSingleQuote | InDoubleQuote | InDollarQuote

  predicate Wellformed(state: LexState, blockDepth: int, dollarTag: seq<byte>) {
    (state == InBlockComment ==> blockDepth > 0) && (state == InDollarQuote ==> dollarTag != [] && dollarTag[|dollarTag| - 1] == DOLLAR)
  }

  function QuoteOf(state: LexState, blockDepth: int, dollarTag: seq<byte>): (q: Quote)
    requires state != Normal && Wellformed(state, blockDepth, dollarTag)
    ensures q.Dollar? ==> q.tag != []
  {
    match state
    case InLineComment => LineComment
    case InBlockComment => BlockComment(blockDepth)
    case InSingleQuote => Single
    case InDoubleQuote => Double
    case InDollarQuote => Dollar(dollarTag)
  }

  /** Where the lexer will next be outside every token. */
  function Resume(data: seq<byte>, state: LexState, blockDepth: int, dollarTag: seq<byte>, index: nat): (k: nat)
    requires index <= |data| && Wellformed(state, blockDepth, dollarTag)
    ensures index <= k <= |data|
  {
    if state == Normal then index else Close(data, QuoteOf(state, blockDepth, dollarTag), index)
  }

  lemma {:induction false} CandidatesAppend(data: seq<byte>, spans: seq<Span>, p: Span)
    requires InRange(data, spans) && p.0 <= p.1 <= |data|
    ensures InRange(data, spans + [p])
    ensures Candidates(data, spans + [p])
         == Candidates(data, spans) + if AllSpace(data[p.0..p.1]) then [] else [data[p.0..p.1]]
    decreases spans
  {
    if spans == [] {
      assert [p][1..] == [];
    } else {
      assert (spans + [p])[1..] == spans[1..] + [p];
      assert InRange(data, spans[1..]);
      CandidatesAppend(data, spans[1..], p);
    }
  }

  // -------------------------------------------------- one token of a piece

  lemma {:induction false} LongToken(data: seq<byte>, isCopy: seq<byte> -> bool, s: nat, i: nat)
    requires s <= i < |data| && !CommandAt(data, i) && Opening(data, i).Some?
    ensures var (q, j) := Opening(data, i).value;
            PiecesFrom(data, isCopy, s, i) == PiecesFrom(data, isCopy, s, Close(data, q, j))
  {
    assert data[i] != SEMICOLON;
  }

  /** Removes the piece just completed from what is still to be found. */
  lemma PieceDone(spans: seq<Span>, p: Span, rest: seq<Span>)
    ensures spans + ([p] + rest) == (spans + [p]) + rest
  {
  }

  /** Finds the end of the COPY data that begins on the line after `from`. */
  method SkipCopyData(data: seq<byte>, from: nat) returns (index: nat)
    requires from <= |data|
    ensures index == AfterCopyData(data, LineAfter(data, from))
  {
    index := LineAfter(data, from);
    while index < |data|
      invariant index <= |data| && AfterCopyData(data, index) == AfterCopyData(data, LineAfter(data, from))
    {
      var end := Find(data, NEWLINE, index);
      if Trim(data[index..end]) == [BACKSLASH, DOT] {
        return LineAfter(data, index);
      }
      index := LineAfter(data, index);
    }
  }

  /** A byte of a token, or of what stands between tokens: how far it reaches
      and the lexer's state after it. */
  method StepInside(data: seq<byte>, index: nat, state: LexState, blockDepth: int, dollarTag: seq<byte>)
    returns (next: nat, newState: LexState, newDepth: int)
    requires index < |data| && state != Normal && Wellformed(state, blockDepth, dollarTag)
    ensures index < next <= |data| && Wellformed(newState, newDepth, dollarTag)
    ensures newState == Normal || newState == state
    ensures Resume(data, newState, newDepth, dollarTag, next) == Resume(data, state, blockDepth, dollarTag, index)
    ensures newState == Normal ==> if state == InLineComment then data[next - 1] == NEWLINE
                                   else data[next - 1] in {SLASH, SINGLE_QUOTE, DOUBLE_QUOTE, DOLLAR}
  {
    next, newState, newDepth := index + 1, state, blockDepth;
    match state
    case InLineComment =>
      if data[index] == NEWLINE {
        newState := Normal;
      }
    case InBlockComment =>
      if At(data, index, [SLASH, STAR]) {
        next, newDepth := index + 2, blockDepth + 1;
      } else if At(data, index, [STAR, SLASH]) {
        assert data[index..index + 2][1] == SLASH;
        next, newDepth := index + 2, blockDepth - 1;
        if newDepth == 0 {
          newState := Normal;
        }
      }
    case InSingleQuote =>
      if data[index] == BACKSLASH && next < |data| {
        next := next + 1;
      } else if data[index] == SINGLE_QUOTE {
        if next < |data| && data[next] == SINGLE_QUOTE {
          next := next + 1;
        } else {
          newState := Normal;
        }
      }
    case InDoubleQuote =>
      if data[index] == DOUBLE_QUOTE {
        if next < |data| && data[next] == DOUBLE_QUOTE {
          next := next + 1;
        } else {
          newState := Normal;
        }
      }
    case InDollarQuote =>
      if At(data, index, dollarTag) {
        assert data[index..index + |dollarTag|][|dollarTag| - 1] == DOLLAR;
        next, newState := index + |dollarTag|, Normal;
      }
  }

  /** What opens at `index`, if a long token does. */
  method Open(data: seq<byte>, index: nat) returns (next: nat, state: LexState, dollarTag: seq<byte>)
    requires index < |data|
    ensures index < next <= |data| && Wellformed(state, 1, dollarTag)
    ensures state == Normal <==> Opening(data, index).None?
    ensures state == Normal ==> next == index + 1
    ensures state != Normal ==> Opening(data, index).value == (QuoteOf(state, 1, dollarTag), next)
  {
    next, state, dollarTag := index + 1, Normal, [];
    if At(data, index, [DASH, DASH]) {
      next, state := index + 2, InLineComment;
    } else if At(data, index, [SLASH, STAR]) {
      next, state := index + 2, InBlockComment;
    } else if data[index] == SINGLE_QUOTE {
      state := InSingleQuote;
    } else if data[index] == DOUBLE_QUOTE {
      state := InDoubleQuote;
    } else if data[index] == DOLLAR {
      var end := Find(data, DOLLAR, index + 1);
      if end < |data| && IsTag(data[index + 1..end]) {
        next, state, dollarTag := end + 1, InDollarQuote, data[index..end + 1];
      }
    }
  }

  /** Adds the piece just completed to the candidates unless it is blank. */
  method Finish(candidates: seq<seq<byte>>, piece: seq<byte>) returns (more: seq<seq<byte>>)
    ensures more == candidates + if AllSpace(piece) then [] else [piece]
  {
    more := if AllSpace(piece) then candidates else candidates + [piece];
  }

  /** What has been found so far and what is still to be found make up the pieces. */
  ghost predicate Accounts(data: seq<byte>, isCopy: seq<byte> -> bool, spans: seq<Span>, start: nat, resume: nat,
                           candidates: seq<seq<byte>>) {
    && start <= resume <= |data| && InRange(data, spans) && candidates == Candidates(data, spans)
    && spans + PiecesFrom(data, isCopy, start, resume) == Pieces(data, isCopy)
  }

  /** A piece is finished at `end` and the next one, at `resume`, begins at `start`. */
  lemma {:induction false} AccountsNext(data: seq<byte>, isCopy: seq<byte> -> bool, spans: seq<Span>, s: nat, i: nat, candidates: seq<seq<byte>>,
                     end: nat, start: nat, resume: nat)
    requires Accounts(data, isCopy, spans, s, i, candidates)
    requires s <= end <= |data| && start <= resume <= |data|
    requires PiecesFrom(data, isCopy, s, i) == [(s, end)] + PiecesFrom(data, isCopy, start, resume)
    ensures Accounts(data, isCopy, spans + [(s, end)], start, resume,
                     candidates + if AllSpace(data[s..end]) then [] else [data[s..end]])
  {
    hide PiecesFrom, Pieces, AllSpace;
    PieceDone(spans, (s, end), PiecesFrom(data, isCopy, start, resume));
    CandidatesAppend(data, spans, (s, end));
  }

  lemma LineAfterEndsALine(data: seq<byte>, i: nat)
    requires i <= |data|
    ensures var k := LineAfter(data, i); k == |data| || (k > 0 && data[k - 1] == NEWLINE)
  {
  }

  /** After COPY data the lexer stands at the beginning of a line, or at the end. */
  lemma CopyDataEndsALine(data: seq<byte>, i: nat)
    requires i <= |data| && (i == |data| || i == 0 || data[i - 1] == NEWLINE)
    ensures var k := AfterCopyData(data, i); k == |data| || k == 0 || data[k - 1] == NEWLINE
    decreases |data| - i
  {
    hide Trim, LineAfter;
    LineAfterEndsALine(data, i);
    if i < |data| && Trim(data[i..Find(data, NEWLINE, i)]) != [BACKSLASH, DOT] {
      CopyDataEndsALine(data, LineAfter(data, i));
    }
  }

  lemma {:induction false} BlankAfterCopyData(data: seq<byte>, i: nat)
    requires i <= |data|
    ensures var k := AfterCopyData(data, LineAfter(data, i)); k < |data| ==> BlankBefore(data, k)
  {
    hide AfterCopyData, LineAfter;
    LineAfterEndsALine(data, i);
    CopyDataEndsALine(data, LineAfter(data, i));
  }

  /** The variables of the loop. */
  datatype Scan = Scan(
    index: nat, current: seq<byte>, state: LexState, blockDepth: int, dollarTag: seq<byte>, lineOnlySpace: bool,
    candidates: seq<seq<byte>>)

  /** `start` is where the current piece begins, `spans` what was found before it. */
  ghost predicate Keeps(data: seq<byte>, isCopy: seq<byte> -> bool, scan: Scan, spans: seq<Span>, start: nat) {
    && start <= scan.index <= |data| && scan.current == data[start..scan.index]
    && Wellformed(scan.state, scan.blockDepth, scan.dollarTag)
    && Accounts(data, isCopy, spans, start, Resume(data, scan.state, scan.blockDepth, scan.dollarTag, scan.index), scan.candidates)
    && (if scan.state == Normal then scan.index == |data| || scan.lineOnlySpace == BlankBefore(data, scan.index)
        else !scan.lineOnlySpace)
  }

  method InsideToken(data: seq<byte>, isCopy: seq<byte> -> bool, scan: Scan, ghost spans: seq<Span>, ghost start: nat)
    returns (after: Scan)
    requires Keeps(data, isCopy, scan, spans, start) && scan.index < |data| && scan.state != Normal
    ensures Keeps(data, isCopy, after, spans, start) && scan.index < after.index
  {
    hide PiecesFrom, Close, Candidates;
    var next, state, blockDepth := StepInside(data, scan.index, scan.state, scan.blockDepth, scan.dollarTag);
    after := scan.(index := next, current := scan.current + data[scan.index..next], state := state, blockDepth := blockDepth,
                   lineOnlySpace := state == Normal && scan.state == InLineComment);
  }

  /** A psql command, which also ends a statement that has no semicolon. */
  method PsqlCommand(data: seq<byte>, isCopy: seq<byte> -> bool, scan: Scan, ghost spans: seq<Span>, ghost start: nat)
    returns (after: Scan, ghost newSpans: seq<Span>, ghost newStart: nat)
    requires Keeps(data, isCopy, scan, spans, start) && scan.index < |data| && scan.state == Normal
    requires scan.lineOnlySpace && data[scan.index] == BACKSLASH
    ensures Keeps(data, isCopy, after, newSpans, newStart) && scan.index < after.index
  {
    hide PiecesFrom, Close, Candidates;
    var candidates := Finish(scan.candidates, scan.current);
    var newline := Find(data, NEWLINE, scan.index);
    newSpans := spans + [(start, scan.index)];
    if newline == |data| {
      AtLastCommand(data, isCopy, start, scan.index);
      AccountsNext(data, isCopy, spans, start, scan.index, scan.candidates, scan.index, |data|, |data|);
      newStart := |data|;
      after := scan.(index := |data|, current := [], candidates := candidates);
    } else {
      AtOtherCommand(data, isCopy, start, scan.index);
      AccountsNext(data, isCopy, spans, start, scan.index, scan.candidates, scan.index, newline, newline + 1);
      newStart := newline;
      after := scan.(index := newline + 1, current := [NEWLINE], candidates := candidates, lineOnlySpace := true);
    }
  }

  method StatementEnd(data: seq<byte>, isCopy: seq<byte> -> bool, scan: Scan, ghost spans: seq<Span>, ghost start: nat)
    returns (after: Scan, ghost newSpans: seq<Span>, ghost newStart: nat)
    requires Keeps(data, isCopy, scan, spans, start) && scan.index < |data| && scan.state == Normal
    requires !CommandAt(data, scan.index) && data[scan.index] == SEMICOLON
    ensures Keeps(data, isCopy, after, newSpans, newStart) && scan.index < after.index
  {
    hide PiecesFrom, Close, Candidates, AfterCopyData, LineAfter, AllSpace, Find;
    var statement := scan.current + [data[scan.index]];
    assert statement == data[start..scan.index + 1];
    var candidates := Finish(scan.candidates, statement);
    AtStatementEnd(data, isCopy, start, scan.index);
    newSpans := spans + [(start, scan.index + 1)];
    after := scan.(index := scan.index + 1, current := [], candidates := candidates, lineOnlySpace := false);
    if isCopy(statement) {
      var resume := SkipCopyData(data, scan.index + 1);
      BlankAfterCopyData(data, scan.index + 1);
      after := after.(index := resume, lineOnlySpace := true);
    }
    newStart := after.index;
    AccountsNext(data, isCopy, spans, start, scan.index, scan.candidates, scan.index + 1, newStart, newStart);
  }

  /** A byte between tokens, or the opening of a long token. */
  method OrdinaryByte(data: seq<byte>, isCopy: seq<byte> -> bool, scan: Scan, ghost spans: seq<Span>, ghost start: nat)
    returns (after: Scan)
    requires Keeps(data, isCopy, scan, spans, start) && scan.index < |data| && scan.state == Normal
    requires !CommandAt(data, scan.index) && data[scan.index] != SEMICOLON
    ensures Keeps(data, isCopy, after, spans, start) && scan.index < after.index
  {
    hide PiecesFrom, Close, Candidates, Opening;
    var next, state, dollarTag := Open(data, scan.index);
    if state == Normal {
      PlainByte(data, isCopy, start, scan.index);
    } else {
      LongToken(data, isCopy, start, scan.index);
    }
    var value := data[scan.index];
    after := scan.(index := next, current := scan.current + data[scan.index..next], state := state, blockDepth := 1,
                   dollarTag := dollarTag,
                   lineOnlySpace := state == Normal && (value == NEWLINE || (IsBlank(value) && scan.lineOnlySpace)));
  }

  /** Splits a psql regression script into candidate statements. */
  method SplitSql(data: seq<byte>, isCopy: seq<byte> -> bool) returns (candidates: seq<seq<byte>>)
    ensures InRange(data, Pieces(data, isCopy))
    ensures candidates == Candidates(data, Pieces(data, isCopy))
    ensures forall items, tail :: SqlScripts.IsScript(isCopy, items, tail, data) ==>
              candidates == SqlScripts.NonBlank(SqlScripts.Texts(items, tail))
  {
    hide Close, Candidates, Opening;
    var scan := Scan(0, [], Normal, 0, [], true, []);
    ghost var spans, start: nat := [], 0;
    BeginsAccounted(data, isCopy);
    while scan.index < |data|
      invariant Keeps(data, isCopy, scan, spans, start)
      decreases |data| - scan.index
    {
      if scan.state != Normal {
        scan := InsideToken(data, isCopy, scan, spans, start);
      } else if scan.lineOnlySpace && data[scan.index] == BACKSLASH {
        scan, spans, start := PsqlCommand(data, isCopy, scan, spans, start);
      } else if data[scan.index] == SEMICOLON {
        scan, spans, start := StatementEnd(data, isCopy, scan, spans, start);
      } else {
        scan := OrdinaryByte(data, isCopy, scan, spans, start);
      }
    }
    AtDataEnd(data, isCopy, start);
    CandidatesAppend(data, spans, (start, |data|));
    candidates := Finish(scan.candidates, scan.current);
    ReadsScripts(data, isCopy, candidates);
  }

  /** Whatever statements the text was written as are the candidates. */
  lemma ReadsScripts(data: seq<byte>, isCopy: seq<byte> -> bool, candidates: seq<seq<byte>>)
    requires InRange(data, Pieces(data, isCopy)) && candidates == Candidates(data, Pieces(data, isCopy))
    ensures forall items, tail :: SqlScripts.IsScript(isCopy, items, tail, data) ==>
              candidates == SqlScripts.NonBlank(SqlScripts.Texts(items, tail))
  {
    hide *;
    forall items, tail | SqlScripts.IsScript(isCopy, items, tail, data)
      ensures candidates == SqlScripts.NonBlank(SqlScripts.Texts(items, tail))
    {
      SqlScripts.ScriptReadsBack(isCopy, items, tail, data);
    }
  }

  lemma BeginsAccounted(data: seq<byte>, isCopy: seq<byte> -> bool)
    ensures Accounts(data, isCopy, [], 0, 0, [])
  {
    assert [] + Pieces(data, isCopy) == Pieces(data, isCopy);
  }
}
