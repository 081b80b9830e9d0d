/** How a psql script falls into pieces, told token by token. The splitter in
    SqlSplitter.dfy, which works byte by byte, is proved to find these pieces. */
module SqlPieces {
  import Protocol

  type byte = Protocol.byte

  const NEWLINE: byte := 10
  const DOUBLE_QUOTE: byte := 34
  const DOLLAR: byte := 36
  const SINGLE_QUOTE: byte := 39
  const STAR: byte := 42
  const DASH: byte := 45
  const DOT: byte := 46
  const SLASH: byte := 47
  const SEMICOLON: byte := 59
  const BACKSLASH: byte := 92
  const UNDERSCORE: byte := 95

  predicate IsLetter(b: byte) {
    65 <= b <= 90 || 97 <= b <= 122
  }

  predicate IsTagByte(b: byte) {
    IsLetter(b) || 48 <= b <= 57 || b == UNDERSCORE
  }

  /** Blanks within a line: space, tab and carriage return. */
  predicate IsBlank(b: byte) {
    b == 32 || b == 9 || b == 13
  }

  /** What Python's strip removes. */
  predicate IsSpace(b: byte) {
    9 <= b <= 13 || b == 32
  }

  /** The first position from `i` on at which `b` stands. */
  function Find(data: seq<byte>, b: byte, i: nat): (k: nat)
    requires i <= |data|
    ensures i <= k <= |data| && (k < |data| ==> data[k] == b) && b !in data[i..k]
    decreases |data| - i
  {
    if i == |data| || data[i] == b then i else Find(data, b, i + 1)
  }

  /** Whether `text` stands at `i`. */
  predicate At(data: seq<byte>, i: nat, text: seq<byte>)
    requires i <= |data|
  {
    i + |text| <= |data| && data[i..i + |text|] == text
  }

  // ------------------------------------------------------------- long tokens

  /** What a long token is in the middle of. */
  datatype Quote = LineComment | BlockComment(depth: nat) | Single | Double | Dollar(tag: seq<byte>)

  datatype Option<+T> = None | Some(value: T)

  /** One step inside a token: what it is still inside of, and where. */
  function Inside(data: seq<byte>, q: Quote, i: nat): (r: (Option<Quote>, nat))
    requires i < |data|
    requires q.Dollar? ==> q.tag != []
    ensures i < r.1 <= |data| && (r.0.Some? && r.0.value.Dollar? ==> r.0.value.tag != [])
  {
    match q
    case LineComment => (if data[i] == NEWLINE then None else Some(q), i + 1)
    case BlockComment(depth) =>
      if At(data, i, [SLASH, STAR]) then (Some(BlockComment(depth + 1)), i + 2)
      else if At(data, i, [STAR, SLASH]) then (if depth <= 1 then None else Some(BlockComment(depth - 1)), i + 2)
      else (Some(q), i + 1)
    case Single =>
      if data[i] == BACKSLASH then (Some(q), if i + 1 < |data| then i + 2 else i + 1)
      else if data[i] != SINGLE_QUOTE then (Some(q), i + 1)
      else if i + 1 < |data| && data[i + 1] == SINGLE_QUOTE then (Some(q), i + 2) else (None, i + 1)
    case Double =>
      if data[i] != DOUBLE_QUOTE then (Some(q), i + 1)
      else if i + 1 < |data| && data[i + 1] == DOUBLE_QUOTE then (Some(q), i + 2) else (None, i + 1)
    case Dollar(tag) =>
      if At(data, i, tag) then (None, i + |tag|) else (Some(q), i + 1)
  }

  /** Where a token that is inside `q` at `i` ends. */
  function Close(data: seq<byte>, q: Quote, i: nat): (k: nat)
    requires i <= |data| && (q.Dollar? ==> q.tag != [])
    ensures i <= k <= |data|
    decreases |data| - i
  {
    if i == |data| then i
    else match Inside(data, q, i)
         case (None, j) => j
         case (Some(r), j) => Close(data, r, j)
  }

  /** The bytes between `$` and the next `$` are a tag. */
  predicate IsTag(tag: seq<byte>) {
    tag == [] || ((IsLetter(tag[0]) || tag[0] == UNDERSCORE) && forall b :: b in tag ==> IsTagByte(b))
  }

  /** The long token that begins at `i`, if one does, and where its inside begins. */
  function Opening(data: seq<byte>, i: nat): (r: Option<(Quote, nat)>)
    requires i < |data|
    ensures r.Some? ==> i < r.value.1 <= |data| && (r.value.0.Dollar? ==> r.value.0.tag != [])
  {
    if At(data, i, [DASH, DASH]) then Some((LineComment, i + 2))
    else if At(data, i, [SLASH, STAR]) then Some((BlockComment(1), i + 2))
    else if data[i] == SINGLE_QUOTE then Some((Single, i + 1))
    else if data[i] == DOUBLE_QUOTE then Some((Double, i + 1))
    else if data[i] == DOLLAR then
      var end := Find(data, DOLLAR, i + 1);
      if end < |data| && IsTag(data[i + 1..end]) then Some((Dollar(data[i..end + 1]), end + 1)) else None
    else None
  }

  function TokenEnd(data: seq<byte>, i: nat): (k: nat)
    requires i < |data|
    ensures i < k <= |data|
  {
    match Opening(data, i)
    case None => i + 1
    case Some((q, j)) => Close(data, q, j)
  }

  // ------------------------------------------------------------------ pieces

  /** Only blanks stand between the beginning of the line and `i`. */
  predicate BlankBefore(data: seq<byte>, i: nat)
    requires i <= |data|
  {
    i == 0 || data[i - 1] == NEWLINE || (IsBlank(data[i - 1]) && BlankBefore(data, i - 1))
  }

  predicate CommandAt(data: seq<byte>, i: nat)
    requires i <= |data|
  {
    i < |data| && data[i] == BACKSLASH && BlankBefore(data, i)
  }

  datatype Stop = AtEnd | AtCommand | AtSemicolon

  /** Where the piece that is outside every token at `i` stops, and why. */
  function Walk(data: seq<byte>, i: nat): (r: (Stop, nat))
    requires i <= |data|
    ensures i <= r.1 <= |data|
    decreases |data| - i
  {
    if i == |data| then (AtEnd, i)
    else if CommandAt(data, i) then (AtCommand, i)
    else if data[i] == SEMICOLON then (AtSemicolon, i + 1)
    else Walk(data, TokenEnd(data, i))
  }

  function LineAfter(data: seq<byte>, i: nat): (k: nat)
    requires i <= |data|
    ensures i <= k <= |data| && (i < |data| ==> i < k)
  {
    var newline := Find(data, NEWLINE, i);
    if newline == |data| then newline else newline + 1
  }

  function Trim(line: seq<byte>): seq<byte> {
    TrimRight(TrimLeft(line))
  }

  function TrimLeft(line: seq<byte>): seq<byte> {
    if line != [] && IsBlank(line[0]) then TrimLeft(line[1..]) else line
  }

  function TrimRight(line: seq<byte>): seq<byte> {
    if line != [] && IsBlank(line[|line| - 1]) then TrimRight(line[..|line| - 1]) else line
  }

  /** Past the line that ends COPY data, from the beginning of a line on. */
  function AfterCopyData(data: seq<byte>, i: nat): (k: nat)
    requires i <= |data|
    ensures i <= k <= |data|
    decreases |data| - i
  {
    if i == |data| then i
    else if Trim(data[i..Find(data, NEWLINE, i)]) == [BACKSLASH, DOT] then LineAfter(data, i)
    else AfterCopyData(data, LineAfter(data, i))
  }

  type Span = (nat, nat)

  /** The pieces from the piece that begins at `s` on, when position `i` of it
      has been reached outside every token. `isCopy` tells the statements after
      which COPY data follows. */
  function PiecesFrom(data: seq<byte>, isCopy: seq<byte> -> bool, s: nat, i: nat): (spans: seq<Span>)
    requires s <= i <= |data|
    decreases |data| - i
  {
    match Walk(data, i)
    case (AtEnd, e) => [(s, e)]
    case (AtCommand, e) =>
      var newline := Find(data, NEWLINE, e);
      if newline == |data| then [(s, e), (newline, newline)] else [(s, e)] + PiecesFrom(data, isCopy, newline, newline + 1)
    case (AtSemicolon, e) =>
      var next := if isCopy(data[s..e]) then AfterCopyData(data, LineAfter(data, e)) else e;
      [(s, e)] + PiecesFrom(data, isCopy, next, next)
  }

  function Pieces(data: seq<byte>, isCopy: seq<byte> -> bool): seq<Span> {
    PiecesFrom(data, isCopy, 0, 0)
  }

  predicate AllSpace(text: seq<byte>) {
    forall b :: b in text ==> IsSpace(b)
  }

  /** The texts of the pieces that are not blank. */
  function Candidates(data: seq<byte>, spans: seq<Span>): seq<seq<byte>>
    requires forall p :: p in spans ==> p.0 <= p.1 <= |data|
  {
    if spans == [] then []
    else (if AllSpace(data[spans[0].0..spans[0].1]) then [] else [data[spans[0].0..spans[0].1]])
         + Candidates(data, spans[1..])
  }

  predicate InRange(data: seq<byte>, spans: seq<Span>) {
    forall p :: p in spans ==> p.0 <= p.1 <= |data|
  }

  // ------------------------------------------------- one step of a walk

  lemma PlainByte(data: seq<byte>, isCopy: seq<byte> -> bool, s: nat, i: nat)
    requires s <= i < |data| && !CommandAt(data, i) && data[i] != SEMICOLON && Opening(data, i).None?
    ensures PiecesFrom(data, isCopy, s, i) == PiecesFrom(data, isCopy, s, i + 1)
  {
  }

  lemma AtLastCommand(data: seq<byte>, isCopy: seq<byte> -> bool, s: nat, i: nat)
    requires s <= i && i <= |data| && CommandAt(data, i) && Find(data, NEWLINE, i) == |data|
    ensures PiecesFrom(data, isCopy, s, i) == [(s, i)] + PiecesFrom(data, isCopy, |data|, |data|)
  {
  }

  lemma AtOtherCommand(data: seq<byte>, isCopy: seq<byte> -> bool, s: nat, i: nat)
    requires s <= i && i <= |data| && CommandAt(data, i) && Find(data, NEWLINE, i) < |data|
    ensures var newline := Find(data, NEWLINE, i);
            PiecesFrom(data, isCopy, s, i) == [(s, i)] + PiecesFrom(data, isCopy, newline, newline + 1)
  {
  }

  lemma AtStatementEnd(data: seq<byte>, isCopy: seq<byte> -> bool, s: nat, i: nat)
    requires s <= i < |data| && !CommandAt(data, i) && data[i] == SEMICOLON
    ensures var next := if isCopy(data[s..i + 1]) then AfterCopyData(data, LineAfter(data, i + 1)) else i + 1;
            PiecesFrom(data, isCopy, s, i) == [(s, i + 1)] + PiecesFrom(data, isCopy, next, next)
  {
  }

  lemma AtDataEnd(data: seq<byte>, isCopy: seq<byte> -> bool, s: nat)
    requires s <= |data|
    ensures PiecesFrom(data, isCopy, s, |data|) == [(s, |data|)]
  {
  }
}
