/** Tokens as they are written: each is given by its contents, and read back by
    the splitter as one token whatever follows. */
module SqlTokens {
  import opened SqlPieces

  // --------------------------------------------------------- block comments

  /** The inside of a block comment: bytes, and comments nested in it. */
  datatype Part = Text(b: byte) | Nested(parts: seq<Part>)

  function Parts(parts: seq<Part>): seq<byte> {
    if parts == [] then [] else Whole(parts[0]) + Parts(parts[1..])
  }

  function Whole(part: Part): seq<byte>
    decreases part
  {
    match part
    case Text(b) => [b]
    case Nested(parts) => [47, 42] + Parts(parts) + [42, 47]
  }

  /** No byte of the text makes a delimiter with what follows it. */
  predicate Clean(parts: seq<Part>) {
    parts != [] ==>
      && Clean(parts[1..])
      && match parts[0]
         case Nested(inner) => Clean(inner)
         case Text(b) =>
           && (b == 42 && |parts| > 1 ==> parts[1] != Text(47) && !parts[1].Nested?)
           && (b == 47 ==> |parts| > 1 && parts[1] != Text(42))
  }

  lemma AtSplit(data: seq<byte>, i: nat, a: seq<byte>, b: seq<byte>)
    requires i <= |data|
    ensures At(data, i, a + b) <==> At(data, i, a) && At(data, i + |a|, b)
    ensures At(data, i, a + b) ==> i + |a| + |b| <= |data|
  {
    var text := a + b;
    if i + |text| <= |data| {
      assert data[i..i + |a|] == data[i..i + |text|][..|a|] && data[i + |a|..i + |text|] == data[i..i + |text|][|a|..];
      assert text[..|a|] == a && text[|a|..] == b;
      assert data[i..i + |text|] == data[i..i + |a|] + data[i + |a|..i + |text|];
    }
  }

  lemma AtOne(data: seq<byte>, i: nat, x: byte)
    requires i <= |data|
    ensures At(data, i, [x]) <==> i < |data| && data[i] == x
  {
  }

  lemma AtTwo(data: seq<byte>, i: nat, x: byte, y: byte)
    requires i <= |data|
    ensures At(data, i, [x, y]) <==> i + 1 < |data| && data[i] == x && data[i + 1] == y
  {
    if i + 1 < |data| { assert data[i..i + 2] == [data[i], data[i + 1]]; }
  }

  /** One step inside a block comment. */
  lemma CommentStep(data: seq<byte>, i: nat, depth: nat)
    requires i < |data| && depth > 0
    ensures Close(data, BlockComment(depth), i)
         == if i + 1 < |data| && data[i] == 47 && data[i + 1] == 42 then Close(data, BlockComment(depth + 1), i + 2)
            else if i + 1 < |data| && data[i] == 42 && data[i + 1] == 47
            then if depth == 1 then i + 2 else Close(data, BlockComment(depth - 1), i + 2)
            else Close(data, BlockComment(depth), i + 1)
  {
    hide At;
    AtTwo(data, i, 47, 42);
    AtTwo(data, i, 42, 47);
  }

  lemma {:induction false} CommentCloses(data: seq<byte>, i: nat, parts: seq<Part>, depth: nat)
    requires i <= |data| && At(data, i, Parts(parts) + [42, 47]) && Clean(parts) && depth > 0
    ensures var end := i + |Parts(parts)| + 2;
            end <= |data| &&
            Close(data, BlockComment(depth), i) == if depth == 1 then end else Close(data, BlockComment(depth - 1), end)
    decreases parts
  {
    hide At, Close;
    if parts == [] {
      assert [] + [42, 47] == [42, 47];
      AtTwo(data, i, 42, 47);
      CommentStep(data, i, depth);
    } else {
      var first, rest := Whole(parts[0]), Parts(parts[1..]);
      assert first + rest + [42, 47] == first + (rest + [42, 47]);
      AtSplit(data, i, first, rest + [42, 47]);
      match parts[0]
      case Text(b) =>
        AtOne(data, i, b);
        FollowedBy(parts[1..]);
        var after := (rest + [42, 47])[0];
        assert rest + [42, 47] == [after] + (rest + [42, 47])[1..];
        AtSplit(data, i + 1, [after], (rest + [42, 47])[1..]);
        AtOne(data, i + 1, after);
        CommentStep(data, i, depth);
        CommentCloses(data, i + 1, parts[1..], depth);
      case Nested(inner) =>
        assert first == [47, 42] + (Parts(inner) + [42, 47]);
        AtSplit(data, i, [47, 42], Parts(inner) + [42, 47]);
        AtTwo(data, i, 47, 42);
        CommentStep(data, i, depth);
        CommentCloses(data, i + 2, inner, depth + 1);
        CommentCloses(data, i + |first|, parts[1..], depth);
    }
  }

  lemma FollowedBy(parts: seq<Part>)
    ensures (Parts(parts) + [42, 47])[0] == if parts == [] then 42 else match parts[0] case Text(b) => b case Nested(_) => 47
  {
  }

  // ----------------------------------------------------------------- quotes

  /** A byte between quotes: itself, a doubled quote, or one after a backslash. */
  datatype Char = Plain(b: byte) | Doubled | Escaped(b: byte)

  function Written(quote: byte, c: Char): seq<byte> {
    match c
    case Plain(b) => [b]
    case Doubled => [quote, quote]
    case Escaped(b) => [92, b]
  }

  function Quoted(quote: byte, chars: seq<Char>): seq<byte> {
    if chars == [] then [] else Written(quote, chars[0]) + Quoted(quote, chars[1..])
  }

  /** Backslashes escape between single quotes only. */
  predicate Quotable(quote: byte, chars: seq<Char>) {
    forall c :: c in chars ==>
      match c
      case Plain(b) => b != quote && (quote == 39 ==> b != 92)
      case Doubled => true
      case Escaped(_) => quote == 39
  }

  function QuoteFor(quote: byte): Quote {
    if quote == 39 then Single else Double
  }

  lemma CharStep(data: seq<byte>, i: nat, quote: byte, c: Char)
    requires quote == 39 || quote == 34
    requires i <= |data| && At(data, i, Written(quote, c)) && Quotable(quote, [c])
    ensures i + |Written(quote, c)| <= |data|
    ensures Close(data, QuoteFor(quote), i) == Close(data, QuoteFor(quote), i + |Written(quote, c)|)
  {
    assert c in [c];
    match c
    case Plain(b) => AtOne(data, i, b);
    case Doubled => AtTwo(data, i, quote, quote);
    case Escaped(b) => AtTwo(data, i, 92, b);
  }

  lemma {:induction false} QuoteCloses(data: seq<byte>, i: nat, quote: byte, chars: seq<Char>)
    requires quote == 39 || quote == 34
    requires i <= |data| && At(data, i, Quoted(quote, chars) + [quote]) && Quotable(quote, chars)
    requires var end := i + |Quoted(quote, chars)| + 1; end < |data| ==> data[end] != quote
    ensures Close(data, QuoteFor(quote), i) == i + |Quoted(quote, chars)| + 1
    decreases chars
  {
    hide At;
    if chars == [] {
      assert [] + [quote] == [quote];
      AtOne(data, i, quote);
    } else {
      hide Close;
      var first, rest := Written(quote, chars[0]), Quoted(quote, chars[1..]);
      assert first + rest + [quote] == first + (rest + [quote]);
      AtSplit(data, i, first, rest + [quote]);
      assert forall c :: c in [chars[0]] ==> c in chars;
      assert forall c :: c in chars[1..] ==> c in chars;
      CharStep(data, i, quote, chars[0]);
      QuoteCloses(data, i + |first|, quote, chars[1..]);
    }
  }

  // ---------------------------------------------- line comments, dollar quotes

  lemma {:induction false} LineCloses(data: seq<byte>, i: nat, text: seq<byte>)
    requires i <= |data| && At(data, i, text + [10]) && 10 !in text
    ensures Close(data, LineComment, i) == i + |text| + 1
    decreases text
  {
    hide At;
    if text == [] {
      assert [] + [10] == [10];
      AtOne(data, i, 10);
    } else {
      assert text + [10] == [text[0]] + (text[1..] + [10]);
      AtSplit(data, i, [text[0]], text[1..] + [10]);
      AtOne(data, i, text[0]);
      assert text[0] in text;
      LineCloses(data, i + 1, text[1..]);
    }
  }

  /** What may stand between the two dollars of a tag. */
  predicate Tag(tag: seq<byte>) {
    && (forall b :: b in tag ==> 65 <= b <= 90 || 97 <= b <= 122 || 48 <= b <= 57 || b == 95)
    && (tag != [] ==> !(48 <= tag[0] <= 57))
  }

  /** The delimiter does not stand in the text before its end. */
  predicate Undelimited(body: seq<byte>, delimiter: seq<byte>) {
    forall j {:trigger body[j..]} :: 0 <= j < |body| ==> !(delimiter <= body[j..] + delimiter)
  }

  lemma BeginsWith(data: seq<byte>, i: nat, text: seq<byte>, beginning: seq<byte>)
    requires i <= |data| && At(data, i, text) && |beginning| <= |text|
    ensures At(data, i, beginning) <==> beginning <= text
  {
    assert data[i..i + |beginning|] == data[i..i + |text|][..|beginning|];
  }

  lemma {:induction false} DollarCloses(data: seq<byte>, i: nat, body: seq<byte>, delimiter: seq<byte>)
    requires i <= |data| && At(data, i, body + delimiter) && delimiter != [] && Undelimited(body, delimiter)
    ensures Close(data, Dollar(delimiter), i) == i + |body| + |delimiter|
    decreases body
  {
    if body == [] {
      assert [] + delimiter == delimiter;
    } else {
      BeginsWith(data, i, body + delimiter, delimiter);
      assert body[0..] == body && !(delimiter <= body[0..] + delimiter);
      assert body + delimiter == [body[0]] + (body[1..] + delimiter);
      AtSplit(data, i, [body[0]], body[1..] + delimiter);
      assert Undelimited(body[1..], delimiter) by {
        forall j | 0 <= j < |body[1..]| ensures !(delimiter <= body[1..][j..] + delimiter) {
          assert body[1..][j..] == body[j + 1..];
        }
      }
      DollarCloses(data, i + 1, body[1..], delimiter);
    }
  }

  // ------------------------------------------------------------ every token

  /** A long token by its contents. */
  datatype Token =
    | Line(text: seq<byte>)
    | Block(parts: seq<Part>)
    | SingleQuoted(chars: seq<Char>)
    | DoubleQuoted(chars: seq<Char>)
    | DollarQuoted(tag: seq<byte>, body: seq<byte>)

  function Render(t: Token): seq<byte> {
    match t
    case Line(text) => [45, 45] + (text + [10])
    case Block(parts) => [47, 42] + (Parts(parts) + [42, 47])
    case SingleQuoted(chars) => [39] + (Quoted(39, chars) + [39])
    case DoubleQuoted(chars) => [34] + (Quoted(34, chars) + [34])
    case DollarQuoted(tag, body) => ([36] + tag + [36]) + (body + ([36] + tag + [36]))
  }

  predicate Proper(t: Token) {
    match t
    case Line(text) => 10 !in text
    case Block(parts) => Clean(parts)
    case SingleQuoted(chars) => Quotable(39, chars)
    case DoubleQuoted(chars) => Quotable(34, chars)
    case DollarQuoted(tag, body) => Tag(tag) && Undelimited(body, [36] + tag + [36])
  }

  /** A quote right after a quoted text would go on with it. */
  predicate MayFollow(t: Token, after: seq<byte>) {
    match t
    case SingleQuoted(_) => after != [] ==> after[0] != 39
    case DoubleQuoted(_) => after != [] ==> after[0] != 34
    case _ => true
  }

  lemma {:induction false} FindIs(data: seq<byte>, b: byte, i: nat, k: nat)
    requires i <= k < |data| && data[k] == b && b !in data[i..k]
    ensures Find(data, b, i) == k
    decreases k - i
  {
    if i < k {
      assert data[i] in data[i..k];
      assert data[i + 1..k] == data[i..k][1..];
      FindIs(data, b, i + 1, k);
    }
  }

  lemma TagStands(data: seq<byte>, i: nat, tag: seq<byte>)
    requires i < |data| && At(data, i, [36] + tag + [36]) && 36 !in tag
    ensures var k := i + |tag| + 1;
            k < |data| && data[i] == 36 && data[i + 1..k] == tag && data[i..k + 1] == [36] + tag + [36] && Find(data, 36, i + 1) == k
  {
    var k := i + |tag| + 1;
    AtSplit(data, i, [36] + tag, [36]);
    AtSplit(data, i, [36], tag);
    AtOne(data, i, 36);
    AtOne(data, k, 36);
    assert data[i + 1..k] == tag;
    FindIs(data, 36, i + 1, k);
  }

  lemma DollarOpens(data: seq<byte>, i: nat, tag: seq<byte>)
    requires i < |data| && At(data, i, [36] + tag + [36]) && Tag(tag)
    ensures Opening(data, i) == Some((Dollar([36] + tag + [36]), i + |tag| + 2))
  {
    TagStands(data, i, tag);
    AtTwo(data, i, 45, 45);
    AtTwo(data, i, 47, 42);
    TagIsTag(tag);
    hide At, Find, Tag, IsTag;
  }

  lemma TagIsTag(tag: seq<byte>)
    requires Tag(tag)
    ensures IsTag(tag)
  {
    if tag != [] { assert tag[0] in tag; }
  }

  lemma LineReads(data: seq<byte>, i: nat, text: seq<byte>)
    requires i <= |data| && At(data, i, Render(Line(text))) && 10 !in text
    ensures i < |data| && Opening(data, i).Some? && TokenEnd(data, i) == i + |Render(Line(text))|
  {
    hide At, Close;
    AtSplit(data, i, [45, 45], text + [10]);
    LineCloses(data, i + 2, text);
  }

  lemma BlockReads(data: seq<byte>, i: nat, parts: seq<Part>)
    requires i <= |data| && At(data, i, Render(Block(parts))) && Clean(parts)
    ensures i < |data| && Opening(data, i).Some? && TokenEnd(data, i) == i + |Render(Block(parts))|
  {
    hide At, Close, Parts, Clean;
    AtSplit(data, i, [47, 42], Parts(parts) + [42, 47]);
    AtTwo(data, i, 45, 45);
    AtTwo(data, i, 47, 42);
    CommentCloses(data, i + 2, parts, 1);
  }

  lemma QuoteReads(data: seq<byte>, i: nat, quote: byte, chars: seq<Char>)
    requires (quote == 39 || quote == 34) && i <= |data| && At(data, i, [quote] + (Quoted(quote, chars) + [quote]))
    requires Quotable(quote, chars)
    requires var end := i + |Quoted(quote, chars)| + 2; end < |data| ==> data[end] != quote
    ensures i < |data| && Opening(data, i).Some? && TokenEnd(data, i) == i + |Quoted(quote, chars)| + 2
  {
    hide At, Close, Opening, Quoted;
    AtSplit(data, i, [quote], Quoted(quote, chars) + [quote]);
    OpensQuote(data, i, quote);
    QuoteCloses(data, i + 1, quote, chars);
  }

  lemma DollarReads(data: seq<byte>, i: nat, tag: seq<byte>, body: seq<byte>)
    requires i <= |data| && At(data, i, Render(DollarQuoted(tag, body))) && Proper(DollarQuoted(tag, body))
    ensures i < |data| && Opening(data, i).Some? && TokenEnd(data, i) == i + |Render(DollarQuoted(tag, body))|
  {
    hide At, Close, Opening, Undelimited, Tag;
    var delimiter := [36] + tag + [36];
    AtSplit(data, i, delimiter, body + delimiter);
    DollarOpens(data, i, tag);
    DollarCloses(data, i + |delimiter|, body, delimiter);
  }

  /** The token is read as a whole. */
  lemma TokenReads(data: seq<byte>, i: nat, t: Token)
    requires i <= |data| && At(data, i, Render(t)) && Proper(t) && MayFollow(t, data[i + |Render(t)|..])
    ensures i < |data| && Opening(data, i).Some? && TokenEnd(data, i) == i + |Render(t)|
  {
    hide At, Opening, TokenEnd, Parts, Quoted, Clean, Quotable, Undelimited, Tag;
    match t
    case Line(text) => LineReads(data, i, text);
    case Block(parts) => BlockReads(data, i, parts);
    case SingleQuoted(chars) => QuoteReads(data, i, 39, chars);
    case DoubleQuoted(chars) => QuoteReads(data, i, 34, chars);
    case DollarQuoted(tag, body) => DollarReads(data, i, tag, body);
  }

  lemma OpensQuote(data: seq<byte>, i: nat, quote: byte)
    requires i <= |data| && At(data, i, [quote]) && (quote == 39 || quote == 34)
    ensures i < |data| && Opening(data, i) == Some((QuoteFor(quote), i + 1))
  {
    AtOne(data, i, quote);
    AtTwo(data, i, 45, 45);
    AtTwo(data, i, 47, 42);
  }

  /** Whatever stands before and after it, except that no quote may directly
      follow a quoted text. */
  lemma TokenReadsBack(before: seq<byte>, t: Token, after: seq<byte>)
    requires Proper(t) && MayFollow(t, after)
    ensures |before| < |before + Render(t) + after|
    ensures TokenEnd(before + Render(t) + after, |before|) == |before + Render(t)|
  {
    var data := before + Render(t) + after;
    assert data[|before|..|before| + |Render(t)|] == Render(t);
    assert data[|before| + |Render(t)|..] == after;
    TokenReads(data, |before|, t);
  }
}
