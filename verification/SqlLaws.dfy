/** What the splitter promises about every input. */
module SqlLaws {
  import opened SqlPieces
  import opened SqlSplitter

  // ---------------------------------------------------------------- slices

  /** What may lie between a piece and the next one: nothing, the rest of a
      psql command line, or COPY data after a statement that takes it. */
  predicate Gap(data: seq<byte>, isCopy: seq<byte> -> bool, p: Span, next: nat)
    requires p.0 <= p.1 <= next <= |data|
  {
    next == p.1 || (CommandAt(data, p.1) && NEWLINE !in data[p.1..next]) || isCopy(data[p.0..p.1])
  }

  predicate InOrder(data: seq<byte>, isCopy: seq<byte> -> bool, spans: seq<Span>) {
    && InRange(data, spans)
    && forall k :: 0 < k < |spans| ==>
         spans[k - 1].1 <= spans[k].0 && Gap(data, isCopy, spans[k - 1], spans[k].0)
  }

  lemma {:induction false} WalkStops(data: seq<byte>, i: nat)
    requires i <= |data|
    ensures var (stop, e) := Walk(data, i);
            match stop
            case AtEnd => e == |data|
            case AtCommand => CommandAt(data, e)
            case AtSemicolon => i < e && data[e - 1] == SEMICOLON && !CommandAt(data, e - 1)
    decreases |data| - i
  {
    hide TokenEnd, BlankBefore;
    if i < |data| && !CommandAt(data, i) && data[i] != SEMICOLON {
      WalkStops(data, TokenEnd(data, i));
    }
  }

  /** Where the piece after one that stops at `e` begins, and where it is resumed. */
  function NextStart(data: seq<byte>, isCopy: seq<byte> -> bool, s: nat, stop: Stop, e: nat): (r: (nat, nat))
    requires s <= e <= |data|
    ensures e <= r.0 <= r.1 <= |data|
  {
    match stop
    case AtEnd => (|data|, |data|)
    case AtCommand =>
      var newline := Find(data, NEWLINE, e);
      if newline == |data| then (newline, newline) else (newline, newline + 1)
    case AtSemicolon => if isCopy(data[s..e]) then var k := AfterCopyData(data, LineAfter(data, e)); (k, k) else (e, e)
  }

  lemma PiecesOnce(data: seq<byte>, isCopy: seq<byte> -> bool, s: nat, i: nat)
    requires s <= i <= |data|
    ensures var (stop, e) := Walk(data, i);
            var (start, resume) := NextStart(data, isCopy, s, stop, e);
            if stop == AtEnd then e == |data| && PiecesFrom(data, isCopy, s, i) == [(s, e)]
            else i < resume && PiecesFrom(data, isCopy, s, i) == [(s, e)] + PiecesFrom(data, isCopy, start, resume)
  {
    hide Close, Opening, AfterCopyData;
    WalkStops(data, i);
    if Walk(data, i).0 == AtCommand && Find(data, NEWLINE, Walk(data, i).1) == |data| {
      assert PiecesFrom(data, isCopy, |data|, |data|) == [(|data|, |data|)];
    }
  }

  lemma GapAfterPiece(data: seq<byte>, isCopy: seq<byte> -> bool, s: nat, i: nat)
    requires s <= i <= |data|
    ensures var (stop, e) := Walk(data, i);
            stop != AtEnd ==> Gap(data, isCopy, (s, e), NextStart(data, isCopy, s, stop, e).0)
  {
    hide Close, Opening, AfterCopyData;
    WalkStops(data, i);
  }

  /** The pieces are slices of the input, in order and apart; what lies
      between them is psql commands and COPY data only. */
  lemma {:induction false} PiecesAreInOrder(data: seq<byte>, isCopy: seq<byte> -> bool, s: nat, i: nat)
    requires s <= i <= |data|
    ensures var spans := PiecesFrom(data, isCopy, s, i);
            && spans != [] && spans[0].0 == s && spans[|spans| - 1].1 == |data| && InOrder(data, isCopy, spans)
    decreases |data| - i
  {
    hide PiecesFrom, NextStart, Walk;
    PiecesOnce(data, isCopy, s, i);
    GapAfterPiece(data, isCopy, s, i);
    var (stop, e) := Walk(data, i);
    if stop != AtEnd {
      var (start, resume) := NextStart(data, isCopy, s, stop, e);
      PiecesAreInOrder(data, isCopy, start, resume);
      FirstPiece(data, isCopy, (s, e), PiecesFrom(data, isCopy, start, resume));
    }
  }

  lemma FirstPiece(data: seq<byte>, isCopy: seq<byte> -> bool, p: Span, rest: seq<Span>)
    requires rest != [] && InOrder(data, isCopy, rest)
    requires p.0 <= p.1 <= rest[0].0 <= |data| && Gap(data, isCopy, p, rest[0].0)
    ensures InOrder(data, isCopy, [p] + rest)
  {
  }

  function Joined(data: seq<byte>, spans: seq<Span>): seq<byte>
    requires InRange(data, spans)
  {
    if spans == [] then [] else data[spans[0].0..spans[0].1] + Joined(data, spans[1..])
  }

  /** A piece does not stop at a psql command, and nothing follows it if it is a
      statement that takes COPY data. */
  predicate Lossless(data: seq<byte>, isCopy: seq<byte> -> bool, p: Span) {
    p.0 <= p.1 <= |data| ==> !CommandAt(data, p.1) && (isCopy(data[p.0..p.1]) ==> p.1 == |data|)
  }

  predicate AllLossless(data: seq<byte>, isCopy: seq<byte> -> bool, spans: seq<Span>) {
    forall k :: 0 <= k < |spans| ==> Lossless(data, isCopy, spans[k])
  }

  predicate PlainScript(data: seq<byte>, isCopy: seq<byte> -> bool) {
    AllLossless(data, isCopy, Pieces(data, isCopy))
  }

  lemma LosslessFirst(data: seq<byte>, isCopy: seq<byte> -> bool, p: Span, rest: seq<Span>)
    ensures AllLossless(data, isCopy, [p] + rest) <==> Lossless(data, isCopy, p) && AllLossless(data, isCopy, rest)
  {
    var spans := [p] + rest;
    assert forall k :: 0 <= k < |rest| ==> rest[k] == spans[k + 1];
    assert spans[0] == p;
  }

  /** The next piece begins where one ends exactly if that one is lossless. */
  lemma LosslessIff(data: seq<byte>, isCopy: seq<byte> -> bool, s: nat, i: nat)
    requires s <= i <= |data|
    ensures var (stop, e) := Walk(data, i);
            if stop == AtEnd then Lossless(data, isCopy, (s, e))
            else Lossless(data, isCopy, (s, e)) <==> NextStart(data, isCopy, s, stop, e).0 == e
    ensures Walk(data, i).0 == AtCommand ==> !Lossless(data, isCopy, (s, Walk(data, i).1))
  {
    hide Walk, AfterCopyData;
    WalkStops(data, i);
    var (stop, e) := Walk(data, i);
    if stop == AtSemicolon && isCopy(data[s..e]) && e == |data| {
      assert AfterCopyData(data, |data|) == |data|;
    }
  }

  /** Of a plain script nothing is lost: the pieces, blank ones included, make
      up the input; of any other script something is. */
  lemma {:induction false} PiecesJoinIff(data: seq<byte>, isCopy: seq<byte> -> bool, s: nat, i: nat)
    requires s <= i <= |data|
    ensures var spans := PiecesFrom(data, isCopy, s, i);
            && InRange(data, spans) && |Joined(data, spans)| <= |data| - s
            && (|Joined(data, spans)| == |data| - s <==> AllLossless(data, isCopy, spans))
            && (AllLossless(data, isCopy, spans) ==> Joined(data, spans) == data[s..])
    decreases |data| - i
  {
    hide PiecesFrom, Walk, NextStart, CommandAt, Lossless, AllLossless;
    PiecesOnce(data, isCopy, s, i);
    LosslessIff(data, isCopy, s, i);
    var (stop, e) := Walk(data, i);
    if stop == AtEnd {
      LosslessFirst(data, isCopy, (s, e), []);
      NothingLost(data, isCopy);
      assert [(s, e)] + [] == [(s, e)] && [(s, e)][1..] == [];
      assert data[s..e] + [] == data[s..];
    } else {
      var (start, resume) := NextStart(data, isCopy, s, stop, e);
      var rest := PiecesFrom(data, isCopy, start, resume);
      PiecesJoinIff(data, isCopy, start, resume);
      LosslessFirst(data, isCopy, (s, e), rest);
      assert ([(s, e)] + rest)[1..] == rest;
      assert data[s..e] + data[e..] == data[s..];
    }
  }

  lemma NothingLost(data: seq<byte>, isCopy: seq<byte> -> bool)
    ensures AllLossless(data, isCopy, [])
  {
  }

  /** The scripts of which nothing is lost. */
  lemma PlainScriptIsKeptIff(data: seq<byte>, isCopy: seq<byte> -> bool)
    ensures InRange(data, Pieces(data, isCopy))
    ensures Joined(data, Pieces(data, isCopy)) == data <==> PlainScript(data, isCopy)
  {
    hide AllLossless;
    PiecesJoinIff(data, isCopy, 0, 0);
  }

  // ------------------------------------------------------------- boundaries

  /** Position `k` is outside every token when lexing starts at `i`. */
  predicate Reaches(data: seq<byte>, i: nat, k: nat)
    requires i <= k <= |data|
    decreases k - i
  {
    i == k || (TokenEnd(data, i) <= k && Reaches(data, TokenEnd(data, i), k))
  }

  lemma {:induction false} ReachesFurther(data: seq<byte>, i: nat, k: nat, m: nat)
    requires i <= k <= m <= |data| && Reaches(data, i, k) && Reaches(data, k, m)
    ensures Reaches(data, i, m)
    decreases k - i
  {
    if i < k {
      ReachesFurther(data, TokenEnd(data, i), k, m);
    }
  }

  /** Where the piece's last token begins, or where it is cut. */
  function LastToken(stop: Stop, e: nat): nat {
    if stop == AtSemicolon && e > 0 then e - 1 else e
  }

  /** A piece ends at the first semicolon or psql command that is outside
      quotes, comments and dollar quotes, and at no other. */
  lemma {:induction false} WalkIsFirstStop(data: seq<byte>, i: nat, k: nat)
    requires i <= k <= |data| && Reaches(data, i, k)
    ensures var (stop, e) := Walk(data, i);
            var last := LastToken(stop, e);
            && i <= last && Reaches(data, i, last)
            && (k < last ==> data[k] != SEMICOLON && !CommandAt(data, k))
    decreases |data| - i
  {
    if i < |data| && !CommandAt(data, i) && data[i] != SEMICOLON {
      var j := TokenEnd(data, i);
      WalkStops(data, j);
      WalkIsFirstStop(data, j, if k == i then j else k);
    }
  }

  lemma SemicolonIsAToken(data: seq<byte>, i: nat)
    requires i < |data| && data[i] == SEMICOLON
    ensures Reaches(data, i, i + 1)
  {
    assert Opening(data, i).None?;
  }

  /** In a plain script every boundary is outside every token of the whole. */
  lemma {:induction false} BoundariesAreOutside(data: seq<byte>, isCopy: seq<byte> -> bool, s: nat, p: Span)
    requires s <= |data| && Reaches(data, 0, s)
    requires AllLossless(data, isCopy, PiecesFrom(data, isCopy, s, s)) && p in PiecesFrom(data, isCopy, s, s)
    ensures p.0 <= p.1 <= |data| && Reaches(data, 0, p.0) && (p.1 < |data| ==> Reaches(data, 0, p.1))
    decreases |data| - s
  {
    hide PiecesFrom, Walk, NextStart, CommandAt, TokenEnd, Lossless, AllLossless;
    PiecesOnce(data, isCopy, s, s);
    LosslessIff(data, isCopy, s, s);
    WalkStops(data, s);
    var (stop, e) := Walk(data, s);
    if stop != AtEnd {
      var (start, resume) := NextStart(data, isCopy, s, stop, e);
      var rest := PiecesFrom(data, isCopy, start, resume);
      LosslessFirst(data, isCopy, (s, e), rest);
      assert stop == AtSemicolon && start == e;
      ResumedAtStart(data, isCopy, s, stop, e);
      WalkIsFirstStop(data, s, s);
      SemicolonIsAToken(data, e - 1);
      ReachesFurther(data, s, e - 1, e);
      ReachesFurther(data, 0, s, e);
      if p != (s, e) {
        BoundariesAreOutside(data, isCopy, e, p);
      }
    }
  }

  lemma ResumedAtStart(data: seq<byte>, isCopy: seq<byte> -> bool, s: nat, stop: Stop, e: nat)
    requires s <= e <= |data| && stop != AtCommand
    ensures var (start, resume) := NextStart(data, isCopy, s, stop, e); start == resume
  {
  }

  // ----------------------------------------------------------- long tokens

  /** A line comment ends with its line. */
  lemma {:induction false} LineCommentCloses(data: seq<byte>, i: nat)
    requires i <= |data|
    ensures Close(data, LineComment, i) == LineAfter(data, i)
    decreases |data| - i
  {
    if i < |data| && data[i] != NEWLINE {
      LineCommentCloses(data, i + 1);
    }
  }

  /** A dollar quote ends with the first occurrence of its tag, if there is one. */
  lemma {:induction false} DollarQuoteCloses(data: seq<byte>, tag: seq<byte>, i: nat, j: nat)
    requires i <= |data| && tag != []
    ensures var k := Close(data, Dollar(tag), i);
            && (k == |data| || (i + |tag| <= k && At(data, k - |tag|, tag)))
            && (i <= j && j + |tag| < k ==> !At(data, j, tag))
    decreases |data| - i
  {
    if i < |data| && !At(data, i, tag) {
      DollarQuoteCloses(data, tag, i + 1, j);
    }
  }

  // ------------------------------------------------------------- the corpus

  /** The spans tile the bundle, each over its candidate, in order. */
  predicate Tiles(candidates: seq<seq<byte>>, spans: seq<Span>, bundle: seq<byte>)
    decreases candidates
  {
    && |spans| == |candidates|
    && if candidates == [] then bundle == []
       else
         var last := |candidates| - 1;
         var start := spans[last].0;
         && start <= |bundle| && spans[last].1 == |bundle| - start && bundle[start..] == candidates[last]
         && Tiles(candidates[..last], spans[..last], bundle[..start])
  }

  /** So each candidate is found where its span says. */
  lemma {:induction false} SpanFindsCandidate(candidates: seq<seq<byte>>, spans: seq<Span>, bundle: seq<byte>, k: nat)
    requires Tiles(candidates, spans, bundle) && k < |candidates|
    ensures spans[k].0 + spans[k].1 <= |bundle| && bundle[spans[k].0..spans[k].0 + spans[k].1] == candidates[k]
    ensures spans[k].0 + spans[k].1 == if k + 1 < |spans| then spans[k + 1].0 else |bundle|
    decreases candidates
  {
    var last := |candidates| - 1;
    if k < last {
      SpanFindsCandidate(candidates[..last], spans[..last], bundle[..spans[last].0], k);
    }
  }

  /** The candidates end to end, and where each one is. */
  method Bundle(candidates: seq<seq<byte>>) returns (bundle: seq<byte>, spans: seq<Span>)
    ensures Tiles(candidates, spans, bundle)
  {
    bundle, spans := [], [];
    var offset := 0;
    for n := 0 to |candidates|
      invariant offset == |bundle| && Tiles(candidates[..n], spans, bundle)
    {
      ghost var (oldSpans, oldBundle) := (spans, bundle);
      spans := spans + [(offset, |candidates[n]|)];
      bundle := bundle + candidates[n];
      offset := offset + |candidates[n]|;
      assert candidates[..n + 1][..n] == candidates[..n] && spans[..n] == oldSpans;
      assert bundle[..|oldBundle|] == oldBundle && bundle[|oldBundle|..] == candidates[n];
    }
    assert candidates[..|candidates|] == candidates;
  }
}
