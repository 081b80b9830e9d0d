/** Splitting a candidate again. */
module SqlIdempotence {
  import opened SqlPieces
  import opened SqlSplitter
  import opened SqlLaws

  // ------------------------------------- a token inside a slice of the input

  lemma SliceOfSlice(data: seq<byte>, s: nat, e: nat, a: nat, b: nat)
    requires s <= a <= b <= e <= |data|
    ensures data[s..e][a - s..b - s] == data[a..b]
  {
    forall k | 0 <= k < b - a ensures data[s..e][a - s..b - s][k] == data[a..b][k] {}
  }

  lemma AtLocal(data: seq<byte>, s: nat, e: nat, i: nat, text: seq<byte>)
    requires s <= i <= e <= |data|
    ensures At(data[s..e], i - s, text) <==> i + |text| <= e && At(data, i, text)
  {
    if i + |text| <= e {
      SliceOfSlice(data, s, e, i, i + |text|);
    }
  }

  lemma InsideLocal(data: seq<byte>, s: nat, e: nat, q: Quote, i: nat)
    requires s <= i < e <= |data| && (q.Dollar? ==> q.tag != []) && Inside(data, q, i).1 <= e
    ensures Inside(data[s..e], q, i - s) == (Inside(data, q, i).0, Inside(data, q, i).1 - s)
  {
    hide At;
    match q
    case BlockComment(_) =>
      AtLocal(data, s, e, i, [SLASH, STAR]);
      AtLocal(data, s, e, i, [STAR, SLASH]);
    case Dollar(tag) => AtLocal(data, s, e, i, tag);
    case _ =>
  }

  lemma {:induction false} CloseLocal(data: seq<byte>, s: nat, e: nat, q: Quote, i: nat)
    requires s <= i <= e <= |data| && (q.Dollar? ==> q.tag != []) && Close(data, q, i) <= e
    ensures Close(data[s..e], q, i - s) == Close(data, q, i) - s
    decreases e - i
  {
    hide Inside;
    if i < e {
      var (r, j) := Inside(data, q, i);
      assert j <= e;
      InsideLocal(data, s, e, q, i);
      if r.Some? {
        CloseLocal(data, s, e, r.value, j);
      }
    }
  }

  lemma {:induction false} FindLocal(data: seq<byte>, s: nat, e: nat, b: byte, i: nat)
    requires s <= i <= e <= |data|
    ensures Find(data[s..e], b, i - s) == if Find(data, b, i) < e then Find(data, b, i) - s else e - s
    decreases e - i
  {
    if i < e && data[i] != b {
      FindLocal(data, s, e, b, i + 1);
    }
  }

  /** A token that ends inside the slice is a token of the slice. In
      particular the search for a closing `$` past the slice's end does not
      change what is found inside it. */
  lemma OpeningLocal(data: seq<byte>, s: nat, e: nat, i: nat)
    requires s <= i < e <= |data| && TokenEnd(data, i) <= e
    ensures match Opening(data, i)
            case None => Opening(data[s..e], i - s) == None
            case Some((q, j)) => j <= e && Opening(data[s..e], i - s) == Some((q, j - s))
  {
    hide At, Close, Find;
    AtLocal(data, s, e, i, [DASH, DASH]);
    AtLocal(data, s, e, i, [SLASH, STAR]);
    if data[i] == DOLLAR {
      FindLocal(data, s, e, DOLLAR, i + 1);
      var end := Find(data, DOLLAR, i + 1);
      if end < e {
        SliceOfSlice(data, s, e, i + 1, end);
        SliceOfSlice(data, s, e, i, end + 1);
      }
    }
  }

  lemma TokenEndLocal(data: seq<byte>, s: nat, e: nat, i: nat)
    requires s <= i < e <= |data| && TokenEnd(data, i) <= e
    ensures TokenEnd(data[s..e], i - s) == TokenEnd(data, i) - s
  {
    hide Opening, Close;
    OpeningLocal(data, s, e, i);
    match Opening(data, i)
    case None =>
    case Some((q, j)) => CloseLocal(data, s, e, q, j);
  }

  // ------------------------------------------------------------ psql commands

  /** The first byte that is not a blank is a backslash. */
  predicate LeadsWithBackslash(text: seq<byte>) {
    text != [] && if IsBlank(text[0]) then LeadsWithBackslash(text[1..]) else text[0] == BACKSLASH
  }

  lemma {:induction false} LeadingBackslash(text: seq<byte>, k: nat)
    requires k < |text| && text[k] == BACKSLASH && forall j :: 0 <= j < k ==> IsBlank(text[j])
    ensures LeadsWithBackslash(text)
    decreases k
  {
    if k > 0 {
      LeadingBackslash(text[1..], k - 1);
    }
  }

  /** Only the cut at the slice's beginning can make what stands before a
      position look blank. */
  lemma {:induction false} BlankLocal(data: seq<byte>, s: nat, e: nat, k: nat)
    requires s <= e <= |data| && k <= e - s
    requires BlankBefore(data[s..e], k) && !BlankBefore(data, s + k)
    ensures forall j :: 0 <= j < k ==> IsBlank(data[s..e][j])
    decreases k
  {
    if k > 0 {
      assert data[s..e][k - 1] == data[s + k - 1];
      BlankLocal(data, s, e, k - 1);
    }
  }

  lemma NoCommandLocal(data: seq<byte>, s: nat, e: nat, i: nat)
    requires s <= i < e <= |data| && !CommandAt(data, i) && !LeadsWithBackslash(data[s..e])
    ensures !CommandAt(data[s..e], i - s)
  {
    hide LeadsWithBackslash, BlankBefore;
    if CommandAt(data[s..e], i - s) {
      BlankLocal(data, s, e, i - s);
      LeadingBackslash(data[s..e], i - s);
    }
  }

  /** Walking a piece by itself goes through it to its end. */
  lemma {:induction false} WalkLocal(data: seq<byte>, s: nat, e: nat, i: nat)
    requires s <= i <= e <= |data| && Walk(data, i).1 == e && !LeadsWithBackslash(data[s..e])
    ensures Walk(data[s..e], i - s) == (if Walk(data, i).0 == AtSemicolon then AtSemicolon else AtEnd, e - s)
    decreases e - i
  {
    hide TokenEnd, LeadsWithBackslash, CommandAt;
    WalkStops(data, i);
    if i < e && !CommandAt(data, i) {
      NoCommandLocal(data, s, e, i);
      if data[i] != SEMICOLON {
        TokenEndLocal(data, s, e, i);
        WalkLocal(data, s, e, TokenEnd(data, i));
      }
    }
  }

  /** Walking a text that leads with a backslash stops there. */
  lemma {:induction false} WalkToCommand(text: seq<byte>, i: nat)
    requires i <= |text| && BlankBefore(text, i) && LeadsWithBackslash(text[i..])
    ensures Walk(text, i).0 == AtCommand && Walk(text, i).1 < |text|
    decreases |text| - i
  {
    if IsBlank(text[i]) {
      assert Opening(text, i).None?;
      assert text[i..][1..] == text[i + 1..];
      WalkToCommand(text, i + 1);
    }
  }

  // --------------------------------------------------------------- candidates

  /** Each piece is what walking from its beginning finds. */
  lemma {:induction false} SpanIsWalked(data: seq<byte>, isCopy: seq<byte> -> bool, s: nat, i: nat, p: Span)
    requires s <= i <= |data| && Walk(data, s) == Walk(data, i) && p in PiecesFrom(data, isCopy, s, i)
    ensures p.0 <= p.1 <= |data| && Walk(data, p.0).1 == p.1
    decreases |data| - i
  {
    hide PiecesFrom, Walk, NextStart;
    PiecesOnce(data, isCopy, s, i);
    var (stop, e) := Walk(data, i);
    var (start, resume) := NextStart(data, isCopy, s, stop, e);
    if p != (s, e) {
      ResumedWalk(data, isCopy, s, i);
      SpanIsWalked(data, isCopy, start, resume, p);
    }
  }

  lemma {:induction false} ResumedWalk(data: seq<byte>, isCopy: seq<byte> -> bool, s: nat, i: nat)
    requires s <= i <= |data| && s <= Walk(data, i).1
    ensures var (start, resume) := NextStart(data, isCopy, s, Walk(data, i).0, Walk(data, i).1);
            Walk(data, start) == Walk(data, resume)
  {
    hide Close, AfterCopyData, LineAfter;
    var (start, resume) := NextStart(data, isCopy, s, Walk(data, i).0, Walk(data, i).1);
    if start < resume {
      assert data[start] == NEWLINE && Opening(data, start).None?;
    }
  }

  lemma {:induction false} CandidateHasSpan(data: seq<byte>, spans: seq<Span>, text: seq<byte>) returns (p: Span)
    requires InRange(data, spans) && text in Candidates(data, spans)
    ensures p in spans && p.0 <= p.1 <= |data| && data[p.0..p.1] == text && !AllSpace(text)
    decreases spans
  {
    hide AllSpace;
    var first := data[spans[0].0..spans[0].1];
    if !AllSpace(first) && text == first {
      p := spans[0];
    } else {
      assert InRange(data, spans[1..]);
      p := CandidateHasSpan(data, spans[1..], text);
    }
  }

  lemma SplitOnce(text: seq<byte>, isCopy: seq<byte> -> bool, stop: Stop)
    requires Walk(text, 0) == (stop, |text|) && stop != AtCommand && !AllSpace(text)
    ensures InRange(text, Pieces(text, isCopy)) && Candidates(text, Pieces(text, isCopy)) == [text]
  {
    hide Walk, AllSpace, PiecesFrom, Candidates;
    var n := |text|;
    PiecesAreInOrder(text, isCopy, 0, 0);
    PiecesOnce(text, isCopy, 0, 0);
    assert text[0..n] == text;
    OneCandidate(text, (0, n));
    if stop == AtSemicolon {
      assert NextStart(text, isCopy, 0, stop, n) == (n, n);
      AtDataEnd(text, isCopy, n);
      CandidatesAppend(text, [(0, n)], (n, n));
      assert text[n..n] == [];
      NothingIsBlank();
    }
  }

  lemma OneCandidate(data: seq<byte>, p: Span)
    requires p.0 <= p.1 <= |data|
    ensures Candidates(data, [p]) == if AllSpace(data[p.0..p.1]) then [] else [data[p.0..p.1]]
  {
    hide AllSpace;
    assert [] + [p] == [p];
    CandidatesAppend(data, [], p);
  }

  lemma NothingIsBlank()
    ensures AllSpace([])
  {
  }

  /** Each later piece begins after the first. */
  lemma {:induction false} LaterPiecesBegin(data: seq<byte>, isCopy: seq<byte> -> bool, spans: seq<Span>, k: nat)
    requires InOrder(data, isCopy, spans) && k < |spans|
    ensures spans[0].0 <= spans[k].0
    decreases k
  {
    if k > 0 {
      LaterPiecesBegin(data, isCopy, spans, k - 1);
      assert spans[k - 1] in spans;
    }
  }

  /** A text that leads with a backslash loses it. */
  lemma LeadingCommandIsLost(text: seq<byte>, isCopy: seq<byte> -> bool, p: Span)
    requires LeadsWithBackslash(text) && p in Pieces(text, isCopy)
    ensures p.0 <= p.1 <= |text| && p.1 - p.0 < |text|
  {
    hide Walk, PiecesFrom;
    PiecesAreInOrder(text, isCopy, 0, 0);
    PiecesOnce(text, isCopy, 0, 0);
    assert text[0..] == text;
    WalkToCommand(text, 0);
    WalkStops(text, 0);
    var e := Walk(text, 0).1;
    var (start, resume) := NextStart(text, isCopy, 0, AtCommand, e);
    assert start > e;
    var rest := PiecesFrom(text, isCopy, start, resume);
    PiecesAreInOrder(text, isCopy, start, resume);
    if p != (0, e) {
      var k :| 0 <= k < |rest| && rest[k] == p;
      LaterPiecesBegin(text, isCopy, rest, k);
    }
  }

  /** Splitting a candidate again gives that one candidate, unless its first
      byte that is not a blank is a backslash: by itself such a text is a psql
      command. Nothing else can go wrong, whatever the input. */
  lemma {:induction false} SplittingAgainIff(data: seq<byte>, isCopy: seq<byte> -> bool, text: seq<byte>)
    requires InRange(data, Pieces(data, isCopy)) && text in Candidates(data, Pieces(data, isCopy))
    ensures InRange(text, Pieces(text, isCopy))
    ensures Candidates(text, Pieces(text, isCopy)) == [text] <==> !LeadsWithBackslash(text)
  {
    hide Walk, PiecesFrom, LeadsWithBackslash, AllSpace, Candidates;
    var p := CandidateHasSpan(data, Pieces(data, isCopy), text);
    SpanIsWalked(data, isCopy, 0, 0, p);
    PiecesAreInOrder(text, isCopy, 0, 0);
    if LeadsWithBackslash(text) {
      if Candidates(text, Pieces(text, isCopy)) == [text] {
        assert text in [text];
        var r := CandidateHasSpan(text, Pieces(text, isCopy), text);
        LeadingCommandIsLost(text, isCopy, r);
      }
    } else {
      WalkLocal(data, p.0, p.1, p.0);
      SplitOnce(text, isCopy, Walk(text, 0).0);
    }
  }

  /** A candidate without a backslash splits into itself. */
  lemma {:induction false} WithoutBackslash(data: seq<byte>, isCopy: seq<byte> -> bool, text: seq<byte>)
    requires InRange(data, Pieces(data, isCopy)) && text in Candidates(data, Pieces(data, isCopy))
    requires BACKSLASH !in text
    ensures InRange(text, Pieces(text, isCopy)) && Candidates(text, Pieces(text, isCopy)) == [text]
  {
    hide PiecesFrom, Candidates;
    SplittingAgainIff(data, isCopy, text);
    LeadingIsPresent(text);
  }

  lemma {:induction false} LeadingIsPresent(text: seq<byte>)
    ensures LeadsWithBackslash(text) ==> BACKSLASH in text
    decreases text
  {
    if text != [] {
      LeadingIsPresent(text[1..]);
    }
  }

  /** An input whose second candidate does not survive: `;\x;`. */
  lemma CommandAfterStatement(isCopy: seq<byte> -> bool)
    requires !isCopy([SEMICOLON])
    ensures var data := [SEMICOLON, BACKSLASH, 120, SEMICOLON];
            && InRange(data, Pieces(data, isCopy)) && data[1..] in Candidates(data, Pieces(data, isCopy))
            && LeadsWithBackslash(data[1..])
  {
    hide PiecesFrom, NextStart;
    var data := [SEMICOLON, BACKSLASH, 120, SEMICOLON];
    assert !CommandAt(data, 0) && !CommandAt(data, 1) && !CommandAt(data, 2) && !CommandAt(data, 3);
    assert Opening(data, 1).None? && Opening(data, 2).None?;
    assert Walk(data, 0) == (AtSemicolon, 1);
    assert Walk(data, 3) == (AtSemicolon, 4) && Walk(data, 2) == (AtSemicolon, 4) && Walk(data, 1) == (AtSemicolon, 4);
    CommandAfterStatementPieces(data, isCopy);
  }

  lemma CommandAfterStatementPieces(data: seq<byte>, isCopy: seq<byte> -> bool)
    requires data == [SEMICOLON, BACKSLASH, 120, SEMICOLON] && !isCopy([SEMICOLON])
    requires Walk(data, 0) == (AtSemicolon, 1) && Walk(data, 1) == (AtSemicolon, 4)
    ensures InRange(data, Pieces(data, isCopy)) && data[1..] in Candidates(data, Pieces(data, isCopy))
  {
    hide Walk, PiecesFrom, AllSpace;
    PiecesAreInOrder(data, isCopy, 0, 0);
    PiecesOnce(data, isCopy, 0, 0);
    assert data[0..1] == [SEMICOLON];
    PiecesOnce(data, isCopy, 1, 1);
    var rest := PiecesFrom(data, isCopy, 1, 1);
    assert rest[0] == (1, 4) && data[1..4] == data[1..];
    BackslashIsNotBlank(data[1..]);
    assert ([(0, 1)] + rest)[1..] == rest;
  }

  lemma BackslashIsNotBlank(text: seq<byte>)
    requires text != [] && text[0] == BACKSLASH
    ensures !AllSpace(text)
  {
    assert BACKSLASH in text && !IsSpace(BACKSLASH);
  }
}
