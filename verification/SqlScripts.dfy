/** Whole scripts as they are written: statements, psql commands and COPY data,
    each made of tokens, are split into exactly the statements written. */
module SqlScripts {
  import opened SqlPieces
  import opened SqlTokens

  // ---------------------------------------------------------------- writing

  /** A byte outside every token, or a token. */
  datatype Unit = Byte(b: byte) | Long(t: Token)

  function UnitText(u: Unit): (text: seq<byte>)
    ensures text != []
  {
    match u
    case Byte(b) => [b]
    case Long(t) => Render(t)
  }

  function Units(us: seq<Unit>): seq<byte> {
    if us == [] then [] else UnitText(us[0]) + Units(us[1..])
  }

  /** The last line of the text holds blanks only. */
  predicate LineBlank(text: seq<byte>) {
    exists k :: 0 <= k <= |text| && (k == 0 || text[k - 1] == 10) && Blanks(text[k..])
  }

  predicate Blanks(text: seq<byte>) {
    forall b :: b in text ==> b == 32 || b == 9 || b == 13
  }

  /** The unit is what it is for, between what stands before and after it. */
  ghost predicate UnitFits(before: seq<byte>, u: Unit, after: seq<byte>) {
    match u
    case Long(t) => Proper(t) && MayFollow(t, after)
    case Byte(b) =>
      && b != 39 && b != 34 && b != 59
      && (b == 45 ==> after == [] || after[0] != 45)
      && (b == 47 ==> after == [] || after[0] != 42)
      && (b == 92 ==> !LineBlank(before))
      && (b == 36 ==> forall tag :: Tag(tag) ==> !(tag + [36] <= after))
  }

  ghost predicate UnitsFit(before: seq<byte>, us: seq<Unit>, after: seq<byte>)
    decreases us
  {
    us != [] ==> UnitFits(before, us[0], Units(us[1..]) + after) && UnitsFit(before + UnitText(us[0]), us[1..], after)
  }

  /** A line that ends COPY data: a backslash and a dot, but for blanks. */
  predicate Terminator(line: seq<byte>) {
    exists k {:trigger line[..k]} :: 0 <= k && k + 2 <= |line| && Blanks(line[..k]) && line[k] == 92 && line[k + 1] == 46 && Blanks(line[k + 2..])
  }

  lemma BlanksNext(text: seq<byte>, b: byte)
    ensures Blanks(text + [b]) <==> Blanks(text) && (b == 32 || b == 9 || b == 13)
  {
    var more := text + [b];
    assert more[|text|] == b && b in more;
    assert forall x :: x in text ==> x in more;
    assert forall x :: x in more ==> x in text || x == b;
  }

  lemma LineBlankNext(text: seq<byte>, b: byte)
    ensures LineBlank(text + [b]) <==> b == 10 || ((b == 32 || b == 9 || b == 13) && LineBlank(text))
  {
    hide Blanks;
    var more := text + [b];
    assert forall k :: 0 <= k <= |text| ==> more[k..] == text[k..] + [b];
    if b == 10 {
      assert more[|more|..] == [] && more[|more| - 1] == 10;
      NoBlanks();
    } else {
      if LineBlank(text) && (b == 32 || b == 9 || b == 13) {
        var k :| 0 <= k <= |text| && (k == 0 || text[k - 1] == 10) && Blanks(text[k..]);
        assert k == 0 || more[k - 1] == 10;
        BlanksNext(text[k..], b);
        assert Blanks(more[k..]);
      }
      if LineBlank(more) {
        var k :| 0 <= k <= |more| && (k == 0 || more[k - 1] == 10) && Blanks(more[k..]);
        assert k <= |text|;
        assert k == 0 || text[k - 1] == 10;
        BlanksNext(text[k..], b);
        assert Blanks(text[k..]);
      }
    }
  }

  lemma NoBlanks()
    ensures Blanks([])
  {
  }

  lemma {:induction false} BlankBeforeIff(data: seq<byte>, i: nat)
    requires i <= |data|
    ensures BlankBefore(data, i) <==> LineBlank(data[..i])
    decreases i
  {
    if i == 0 {
      assert data[..0][0..] == [];
    } else {
      hide LineBlank;
      BlankBeforeIff(data, i - 1);
      LineBlankNext(data[..i - 1], data[i - 1]);
      assert data[..i] == data[..i - 1] + [data[i - 1]];
    }
  }

  lemma TagFound(data: seq<byte>, i: nat)
    requires i < |data|
    ensures var end := Find(data, 36, i + 1);
            end < |data| && IsTag(data[i + 1..end]) ==> Tag(data[i + 1..end]) && data[i + 1..end] + [36] <= data[i + 1..]
  {
    var end := Find(data, 36, i + 1);
    if end < |data| {
      assert data[i + 1..][..end - i] == data[i + 1..end] + [36];
    }
  }

  /** No long token begins there, and no command. */
  lemma ByteReads(before: seq<byte>, b: byte, after: seq<byte>)
    requires UnitFits(before, Byte(b), after)
    ensures var data, i := before + [b] + after, |before|;
            data[i] != 59 && !CommandAt(data, i) && TokenEnd(data, i) == i + 1
  {
    hide BlankBefore, LineBlank, At, IsTag, Tag;
    var data, i := before + [b] + after, |before|;
    assert data[i] == b && data[..i] == before && data[i + 1..] == after;
    BlankBeforeIff(data, i);
    AtTwo(data, i, 45, 45);
    AtTwo(data, i, 47, 42);
    TagFound(data, i);
  }

  lemma UnitReads(before: seq<byte>, u: Unit, after: seq<byte>)
    requires UnitFits(before, u, after)
    ensures var data, i := before + UnitText(u) + after, |before|;
            data[i] != 59 && !CommandAt(data, i) && TokenEnd(data, i) == i + |UnitText(u)|
  {
    match u
    case Byte(b) => ByteReads(before, b, after);
    case Long(t) =>
      TokenReadsBack(before, t, after);
      assert (before + Render(t) + after)[|before|] == Render(t)[0];
  }

  lemma Concat(before: seq<byte>, first: seq<byte>, rest: seq<byte>, after: seq<byte>)
    ensures before + (first + rest) + after == before + first + (rest + after) == (before + first) + rest + after
  {
  }

  lemma Regroup(before: seq<byte>, a: seq<byte>, b: seq<byte>, c: seq<byte>, after: seq<byte>)
    ensures before + ((a + b) + c) + after == before + a + (b + (c + after))
    ensures b + c + after == b + (c + after)
  {
  }

  lemma {:induction false} UnitsAreWalked(data: seq<byte>, before: seq<byte>, us: seq<Unit>, after: seq<byte>)
    requires data == before + Units(us) + after && UnitsFit(before, us, after)
    ensures Walk(data, |before|) == Walk(data, |before + Units(us)|)
    decreases us
  {
    hide TokenEnd, CommandAt, UnitFits;
    if us != [] {
      var first, rest := UnitText(us[0]), Units(us[1..]);
      Concat(before, first, rest, after);
      UnitReads(before, us[0], rest + after);
      UnitsAreWalked(data, before + first, us[1..], after);
      assert |(before + first) + rest| == |before + Units(us)|;
    }
  }

  // --------------------------------------------------------------- COPY data

  lemma {:induction false} LeftIs(a: seq<byte>, t: seq<byte>)
    requires Blanks(a) && (t != [] ==> !IsBlank(t[0]))
    ensures TrimLeft(a + t) == t
    decreases a
  {
    if a == [] {
      assert a + t == t;
    } else {
      assert a[0] in a && forall b :: b in a[1..] ==> b in a;
      assert (a + t)[1..] == a[1..] + t;
      LeftIs(a[1..], t);
    }
  }

  lemma {:induction false} RightIs(t: seq<byte>, a: seq<byte>)
    requires Blanks(a) && (t != [] ==> !IsBlank(t[|t| - 1]))
    ensures TrimRight(t + a) == t
    decreases a
  {
    if a == [] {
      assert t + a == t;
    } else {
      var less := a[..|a| - 1];
      assert a[|a| - 1] in a && forall b :: b in less ==> b in a;
      assert (t + a)[..|t + a| - 1] == t + less;
      RightIs(t, less);
    }
  }

  lemma {:induction false} LeftSplits(line: seq<byte>) returns (n: nat)
    ensures n <= |line| && Blanks(line[..n]) && TrimLeft(line) == line[n..]
    decreases line
  {
    if line != [] && IsBlank(line[0]) {
      n := LeftSplits(line[1..]);
      assert line[..n + 1] == [line[0]] + line[1..][..n];
      assert line[n + 1..] == line[1..][n..];
      n := n + 1;
    } else {
      n := 0;
    }
  }

  lemma {:induction false} RightSplits(line: seq<byte>) returns (n: nat)
    ensures n <= |line| && Blanks(line[n..]) && TrimRight(line) == line[..n]
    decreases line
  {
    if line != [] && IsBlank(line[|line| - 1]) {
      var less := line[..|line| - 1];
      n := RightSplits(less);
      assert line[n..] == less[n..] + [line[|line| - 1]];
      assert line[..n] == less[..n];
    } else {
      n := |line|;
    }
  }

  lemma TrimmedTerminates(line: seq<byte>)
    requires Trim(line) == [92, 46]
    ensures Terminator(line)
  {
    hide Blanks, TrimLeft, TrimRight;
    var n := LeftSplits(line);
    var rest := line[n..];
    var m := RightSplits(rest);
    assert m == 2 && rest[0] == 92 && rest[1] == 46 by {
      assert rest[..m] == [92, 46];
      assert rest[0] == rest[..m][0] && rest[1] == rest[..m][1];
    }
    assert line[n] == rest[0] && line[n + 1] == rest[1];
    assert line[n + 2..] == rest[2..];
    assert Blanks(line[..n]);
  }

  lemma TerminatorTrims(line: seq<byte>)
    requires Terminator(line)
    ensures Trim(line) == [92, 46]
  {
    hide Blanks, TrimLeft, TrimRight;
    var k :| 0 <= k && k + 2 <= |line| && Blanks(line[..k]) && line[k] == 92 && line[k + 1] == 46 && Blanks(line[k + 2..]);
    var tail: seq<byte> := [92, 46];
    assert line == line[..k] + (tail + line[k + 2..]);
    LeftIs(line[..k], tail + line[k + 2..]);
    RightIs(tail, line[k + 2..]);
  }

  lemma TerminatorIff(line: seq<byte>)
    ensures Trim(line) == [92, 46] <==> Terminator(line)
  {
    hide Trim, Terminator;
    if Trim(line) == [92, 46] { TrimmedTerminates(line); }
    if Terminator(line) { TerminatorTrims(line); }
  }

  predicate Row(row: seq<byte>) {
    10 !in row && !Terminator(row)
  }

  function Rows(rows: seq<seq<byte>>): seq<byte> {
    if rows == [] then [] else rows[0] + [10] + Rows(rows[1..])
  }

  lemma LineEnds(data: seq<byte>, i: nat, line: seq<byte>)
    requires i <= |data| && At(data, i, line + [10]) && 10 !in line
    ensures i + |line| < |data| && Find(data, 10, i) == i + |line| && data[i..i + |line|] == line
    ensures LineAfter(data, i) == i + |line| + 1
  {
    AtSplit(data, i, line, [10]);
    AtOne(data, i + |line|, 10);
    FindIs(data, 10, i, i + |line|);
  }

  lemma {:induction false} RowsAreSkipped(data: seq<byte>, i: nat, rows: seq<seq<byte>>)
    requires i <= |data| && At(data, i, Rows(rows)) && forall row :: row in rows ==> Row(row)
    ensures i + |Rows(rows)| <= |data| && AfterCopyData(data, i) == AfterCopyData(data, i + |Rows(rows)|)
    decreases rows
  {
    hide At, Terminator, Find, LineAfter;
    if rows != [] {
      var row, rest := rows[0], Rows(rows[1..]);
      assert row in rows && forall x :: x in rows[1..] ==> x in rows;
      AtSplit(data, i, row + [10], rest);
      LineEnds(data, i, row);
      TerminatorIff(row);
      RowsAreSkipped(data, i + |row| + 1, rows[1..]);
    }
  }

  /** COPY data ends with the first line that is a backslash and a dot, but for
      blanks. */
  lemma CopyDataEnds(data: seq<byte>, i: nat, rows: seq<seq<byte>>, last: seq<byte>)
    requires i <= |data| && At(data, i, Rows(rows) + (last + [10])) && forall row :: row in rows ==> Row(row)
    requires 10 !in last && Terminator(last)
    ensures AfterCopyData(data, i) == i + |Rows(rows)| + |last| + 1
  {
    hide At, Terminator, Find, LineAfter, Row;
    AtSplit(data, i, Rows(rows), last + [10]);
    RowsAreSkipped(data, i, rows);
    LineEnds(data, i + |Rows(rows)|, last);
    TerminatorIff(last);
  }

  /** Without such a line it goes on to the end, an unfinished line included. */
  lemma CopyDataUnended(data: seq<byte>, i: nat, rows: seq<seq<byte>>)
    requires i <= |data| && At(data, i, Rows(rows)) && (forall row :: row in rows ==> Row(row))
    requires 10 !in data[i + |Rows(rows)|..]
    ensures AfterCopyData(data, i) == |data|
  {
    hide Terminator, Row, At, Rows;
    var j := i + |Rows(rows)|;
    RowsAreSkipped(data, i, rows);
    assert forall k :: j <= k < |data| ==> data[k] in data[j..];
    FindNone(data, 10, j);
  }

  // ------------------------------------------------------------ whole scripts

  /** A statement with its semicolon; one that is followed by COPY data, which
      begins on the next line; or what stands before a psql command, and the
      command up to the end of its line. */
  datatype Item =
    | Statement(units: seq<Unit>)
    | CopyFrom(units: seq<Unit>, rest: seq<byte>, rows: seq<seq<byte>>, last: seq<byte>)
    | Command(units: seq<Unit>, text: seq<byte>)

  function SqlText(item: Item): seq<byte> {
    match item
    case Statement(us) => Units(us) + [59]
    case CopyFrom(us, _, _, _) => Units(us) + [59]
    case Command(us, _) => Units(us)
  }

  function OtherText(item: Item): seq<byte> {
    match item
    case Statement(_) => []
    case CopyFrom(_, rest, rows, last) => (rest + [10]) + (Rows(rows) + (last + [10]))
    case Command(_, text) => [92] + text
  }

  function Items(items: seq<Item>): seq<byte> {
    if items == [] then [] else SqlText(items[0]) + OtherText(items[0]) + Items(items[1..])
  }

  ghost predicate ItemFits(isCopy: seq<byte> -> bool, before: seq<byte>, item: Item, after: seq<byte>) {
    match item
    case Statement(us) => UnitsFit(before, us, [59] + after) && !isCopy(SqlText(item))
    case CopyFrom(us, rest, rows, last) =>
      && UnitsFit(before, us, [59] + OtherText(item) + after) && isCopy(SqlText(item))
      && 10 !in rest && (forall row :: row in rows ==> Row(row)) && 10 !in last && Terminator(last)
    case Command(us, text) =>
      && UnitsFit(before, us, OtherText(item) + after) && LineBlank(before + Units(us))
      && 10 !in text && (after == [] || after[0] == 10)
  }

  /** The items are what they are for, and after them come the units of `tail`. */
  ghost predicate ScriptFits(isCopy: seq<byte> -> bool, before: seq<byte>, items: seq<Item>, tail: seq<Unit>)
    decreases items
  {
    if items == [] then UnitsFit(before, tail, [])
    else && ItemFits(isCopy, before, items[0], Items(items[1..]) + Units(tail))
         && ScriptFits(isCopy, before + SqlText(items[0]) + OtherText(items[0]), items[1..], tail)
  }

  /** The texts in which some byte is no white space. */
  function NonBlank(texts: seq<seq<byte>>): seq<seq<byte>> {
    if texts == [] then []
    else (if forall b :: b in texts[0] ==> b in {9, 10, 11, 12, 13, 32} then [] else [texts[0]]) + NonBlank(texts[1..])
  }

  function Texts(items: seq<Item>, tail: seq<Unit>): seq<seq<byte>> {
    if items == [] then [Units(tail)] else [SqlText(items[0])] + Texts(items[1..], tail)
  }

  lemma SameWalk(data: seq<byte>, isCopy: seq<byte> -> bool, s: nat, i: nat, j: nat)
    requires s <= i <= |data| && s <= j <= |data| && Walk(data, i) == Walk(data, j)
    ensures PiecesFrom(data, isCopy, s, i) == PiecesFrom(data, isCopy, s, j)
  {
    hide Walk;
  }

  lemma Following(data: seq<byte>, before: seq<byte>, a: seq<byte>, tail: seq<byte>)
    requires data == before + a + tail
    ensures data[..|before + a|] == before + a && data[|before + a|..] == tail && data[|before|..|before + a|] == a
  {
  }

  /** Where the piece after a statement begins. */
  function AfterStatement(data: seq<byte>, isCopy: seq<byte> -> bool, s: nat, e: nat): nat
    requires s <= e <= |data|
  {
    if isCopy(data[s..e]) then AfterCopyData(data, LineAfter(data, e)) else e
  }

  /** The units up to the end of the statement are one piece with it. */
  lemma StatementEnds(data: seq<byte>, isCopy: seq<byte> -> bool, before: seq<byte>, us: seq<Unit>, after: seq<byte>)
    requires data == before + Units(us) + ([59] + after) && UnitsFit(before, us, [59] + after)
    ensures var s, e := |before|, |before + Units(us)| + 1;
            && data[s..e] == Units(us) + [59]
            && s <= AfterStatement(data, isCopy, s, e) <= |data|
            && var next := AfterStatement(data, isCopy, s, e);
               PiecesFrom(data, isCopy, s, s) == [(s, e)] + PiecesFrom(data, isCopy, next, next)
  {
    hide PiecesFrom, Walk, UnitsFit, AfterCopyData, LineAfter, BlankBefore, Units;
    var s, i := |before|, |before + Units(us)|;
    UnitsAreWalked(data, before, us, [59] + after);
    SameWalk(data, isCopy, s, s, i);
    Following(data, before, Units(us), [59] + after);
    assert data[i] == data[i..][0];
    assert data[s..i + 1] == data[s..i] + [data[i]];
    AtStatementEnd(data, isCopy, s, i);
  }

  lemma TailAt(data: seq<byte>, e: nat, a: seq<byte>, b: seq<byte>, after: seq<byte>)
    requires e <= |data| && data[e..] == a + b + after
    ensures e + |a| + |b| <= |data| && At(data, e, a) && At(data, e + |a|, b)
  {
    assert data[e..e + |a|] == data[e..][..|a|] && data[e + |a|..e + |a| + |b|] == data[e..][|a|..|a| + |b|];
  }

  /** An item is one piece, and the next one begins after it. */
  lemma StatementRead(data: seq<byte>, isCopy: seq<byte> -> bool, before: seq<byte>, item: Item, after: seq<byte>)
    requires item.Statement? && ItemFits(isCopy, before, item, after)
    requires data == before + (SqlText(item) + OtherText(item)) + after
    ensures var s, e, next := |before|, |before + SqlText(item)|, |before + (SqlText(item) + OtherText(item))|;
            && data[s..e] == SqlText(item)
            && PiecesFrom(data, isCopy, s, s) == [(s, e)] + PiecesFrom(data, isCopy, next, next)
  {
    hide PiecesFrom, UnitsFit, AfterCopyData, LineAfter, Units;
    Regroup(before, Units(item.units), [59], [], after);
    assert [] + after == after;
    StatementEnds(data, isCopy, before, item.units, after);
  }

  lemma CopyRead(data: seq<byte>, isCopy: seq<byte> -> bool, before: seq<byte>, item: Item, after: seq<byte>)
    requires item.CopyFrom? && ItemFits(isCopy, before, item, after)
    requires data == before + (SqlText(item) + OtherText(item)) + after
    ensures var s, e, next := |before|, |before + SqlText(item)|, |before + (SqlText(item) + OtherText(item))|;
            && data[s..e] == SqlText(item)
            && PiecesFrom(data, isCopy, s, s) == [(s, e)] + PiecesFrom(data, isCopy, next, next)
  {
    hide PiecesFrom, UnitsFit, AfterCopyData, LineAfter, Rows, Row, Terminator, At, Find, Units;
    var us, other := item.units, OtherText(item);
    var e := |before + SqlText(item)|;
    Regroup(before, Units(us), [59], other, after);
    StatementEnds(data, isCopy, before, us, other + after);
    Following(data, before, Units(us), [59] + (other + after));
    assert data[e..] == other + after by {
      assert data[|before + Units(us)|..][1..] == data[e..];
    }
    CopyDataSkipped(data, e, item.rest, item.rows, item.last, after);
  }

  lemma CopyDataSkipped(data: seq<byte>, e: nat, rest: seq<byte>, rows: seq<seq<byte>>, last: seq<byte>, after: seq<byte>)
    requires e <= |data| && data[e..] == (rest + [10]) + (Rows(rows) + (last + [10])) + after
    requires 10 !in rest && (forall row :: row in rows ==> Row(row)) && 10 !in last && Terminator(last)
    ensures AfterCopyData(data, LineAfter(data, e)) == e + |(rest + [10]) + (Rows(rows) + (last + [10]))|
  {
    hide AfterCopyData, LineAfter, Rows, Row, Terminator, At, Find;
    var lines := Rows(rows) + (last + [10]);
    TailAt(data, e, rest + [10], lines, after);
    LineEnds(data, e, rest);
    assert e + |rest + [10]| == e + |rest| + 1;
    CopyDataEnds(data, e + |rest| + 1, rows, last);
    assert |(rest + [10]) + lines| == |rest| + 1 + |lines|;
  }

  /** Where the piece after a command begins, and where it is resumed. */
  function Resumed(data: seq<byte>, next: nat): nat {
    if next < |data| then next + 1 else next
  }

  lemma CommandRead(data: seq<byte>, isCopy: seq<byte> -> bool, before: seq<byte>, item: Item, after: seq<byte>)
    requires item.Command? && ItemFits(isCopy, before, item, after)
    requires data == before + (SqlText(item) + OtherText(item)) + after
    ensures var s, e, next := |before|, |before + SqlText(item)|, |before + (SqlText(item) + OtherText(item))|;
            && data[s..e] == SqlText(item)
            && PiecesFrom(data, isCopy, s, s) == [(s, e)] + PiecesFrom(data, isCopy, next, Resumed(data, next))
            && (next < |data| ==> data[next] == 10)
  {
    hide PiecesFrom, UnitsFit, LineBlank, Units, CommandAt, Find;
    var us, other := item.units, OtherText(item);
    var s, i := |before|, |before + Units(us)|;
    Concat(before, Units(us), other, after);
    CommandStops(data, isCopy, before, us, item.text, after);
    Following(data, before, Units(us), other + after);
    NextByte(data, i, other, after);
    if after == [] {
      AtLastCommand(data, isCopy, s, i);
    } else {
      AtOtherCommand(data, isCopy, s, i);
    }
  }

  lemma NextByte(data: seq<byte>, i: nat, a: seq<byte>, after: seq<byte>)
    requires i <= |data| && data[i..] == a + after
    ensures if after == [] then i + |a| == |data| else i + |a| < |data| && data[i + |a|] == after[0]
  {
    if after != [] { assert data[i..][|a|] == after[0]; }
  }

  lemma CommandStops(data: seq<byte>, isCopy: seq<byte> -> bool, before: seq<byte>, us: seq<Unit>, text: seq<byte>, after: seq<byte>)
    requires data == before + Units(us) + ([92] + text + after) && UnitsFit(before, us, [92] + text + after)
    requires LineBlank(before + Units(us)) && 10 !in text && (after == [] || after[0] == 10)
    ensures var s, i := |before|, |before + Units(us)|;
            CommandAt(data, i) && Find(data, 10, i) == i + 1 + |text| && PiecesFrom(data, isCopy, s, s) == PiecesFrom(data, isCopy, s, i)
  {
    hide PiecesFrom, Walk, UnitsFit, BlankBefore, LineBlank, Units, Find;
    var s, i := |before|, |before + Units(us)|;
    UnitsAreWalked(data, before, us, [92] + text + after);
    SameWalk(data, isCopy, s, s, i);
    Following(data, before, Units(us), [92] + text + after);
    assert data[i] == data[i..][0];
    BlankBeforeIff(data, i);
    CommandLine(data, i, text, after);
  }

  lemma CommandLine(data: seq<byte>, i: nat, text: seq<byte>, after: seq<byte>)
    requires i <= |data| && data[i..] == [92] + text + after && 10 !in text && (after == [] || after[0] == 10)
    ensures Find(data, 10, i) == i + 1 + |text|
  {
    var next := i + 1 + |text|;
    assert forall k :: i < k < next ==> data[k] == data[i..][k - i] && data[k] in text;
    assert data[i] == data[i..][0];
    if after == [] {
      FindNone(data, 10, i);
    } else {
      assert data[next] == data[i..][1 + |text|];
      FindIs(data, 10, i, next);
    }
  }

  lemma {:induction false} FindNone(data: seq<byte>, b: byte, i: nat)
    requires i <= |data| && forall k :: i <= k < |data| ==> data[k] != b
    ensures Find(data, b, i) == |data|
    decreases |data| - i
  {
    if i < |data| { FindNone(data, b, i + 1); }
  }

  lemma NewlineResumes(data: seq<byte>, isCopy: seq<byte> -> bool, next: nat)
    requires next <= |data| && (next < |data| ==> data[next] == 10)
    ensures PiecesFrom(data, isCopy, next, Resumed(data, next)) == PiecesFrom(data, isCopy, next, next)
  {
    hide PiecesFrom, BlankBefore;
    if next < |data| {
      AtTwo(data, next, 45, 45);
      AtTwo(data, next, 47, 42);
      PlainByte(data, isCopy, next, next);
    }
  }

  lemma CandidatesFirst(data: seq<byte>, s: nat, e: nat, spans: seq<Span>, text: seq<byte>, texts: seq<seq<byte>>)
    requires s <= e <= |data| && data[s..e] == text && InRange(data, spans) && Candidates(data, spans) == NonBlank(texts)
    ensures InRange(data, [(s, e)] + spans)
    ensures Candidates(data, [(s, e)] + spans) == NonBlank([text] + texts)
  {
    assert ([(s, e)] + spans)[1..] == spans && ([text] + texts)[1..] == texts;
    assert AllSpace(text) <==> forall b :: b in text ==> b in {9, 10, 11, 12, 13, 32};
  }

  lemma TailRead(data: seq<byte>, isCopy: seq<byte> -> bool, before: seq<byte>, tail: seq<Unit>)
    requires data == before + Units(tail) && UnitsFit(before, tail, [])
    ensures PiecesFrom(data, isCopy, |before|, |before|) == [(|before|, |data|)] && data[|before|..|data|] == Units(tail)
  {
    hide PiecesFrom, Walk, UnitsFit;
    assert data == before + Units(tail) + [];
    UnitsAreWalked(data, before, tail, []);
    SameWalk(data, isCopy, |before|, |before|, |data|);
    AtDataEnd(data, isCopy, |before|);
  }

  lemma ItemRead(data: seq<byte>, isCopy: seq<byte> -> bool, before: seq<byte>, item: Item, after: seq<byte>)
    requires ItemFits(isCopy, before, item, after) && data == before + (SqlText(item) + OtherText(item)) + after
    ensures var s, e, next := |before|, |before + SqlText(item)|, |before + (SqlText(item) + OtherText(item))|;
            && data[s..e] == SqlText(item)
            && PiecesFrom(data, isCopy, s, s) == [(s, e)] + PiecesFrom(data, isCopy, next, next)
  {
    hide PiecesFrom, UnitsFit, SqlText, OtherText, ItemFits;
    match item
    case Statement(_) => StatementRead(data, isCopy, before, item, after);
    case CopyFrom(_, _, _, _) => CopyRead(data, isCopy, before, item, after);
    case Command(_, _) =>
      CommandRead(data, isCopy, before, item, after);
      NewlineResumes(data, isCopy, |before + (SqlText(item) + OtherText(item))|);
  }

  lemma {:induction false} ItemsRead(data: seq<byte>, isCopy: seq<byte> -> bool, before: seq<byte>, items: seq<Item>, tail: seq<Unit>)
    requires data == before + (Items(items) + Units(tail)) && ScriptFits(isCopy, before, items, tail)
    ensures InRange(data, PiecesFrom(data, isCopy, |before|, |before|))
    ensures Candidates(data, PiecesFrom(data, isCopy, |before|, |before|)) == NonBlank(Texts(items, tail))
    decreases items
  {
    hide PiecesFrom, UnitsFit, ItemFits, SqlText, OtherText, Candidates, NonBlank, Units;
    if items == [] {
      assert data == before + Units(tail);
      TailRead(data, isCopy, before, tail);
      NoTexts(data);
      CandidatesFirst(data, |before|, |data|, [], Units(tail), []);
      assert [(|before|, |data|)] + [] == [(|before|, |data|)];
      assert [Units(tail)] + [] == [Units(tail)];
    } else {
      var sql, other, after := SqlText(items[0]), OtherText(items[0]), Items(items[1..]) + Units(tail);
      assert Items(items) == sql + other + Items(items[1..]);
      Concat(before, sql + other, Items(items[1..]), Units(tail));
      Concat(before, sql, other, []);
      assert before + (sql + other) == before + sql + other;
      ItemRead(data, isCopy, before, items[0], after);
      ItemsRead(data, isCopy, before + sql + other, items[1..], tail);
      CandidatesFirst(data, |before|, |before + sql|, PiecesFrom(data, isCopy, |before + sql + other|, |before + sql + other|), sql,
                      Texts(items[1..], tail));
    }
  }

  lemma NoTexts(data: seq<byte>)
    ensures InRange(data, []) && Candidates(data, []) == NonBlank([])
  {
  }

  /** The text was written as these items, followed by these units. */
  ghost predicate IsScript(isCopy: seq<byte> -> bool, items: seq<Item>, tail: seq<Unit>, data: seq<byte>) {
    data == Items(items) + Units(tail) && ScriptFits(isCopy, [], items, tail)
  }

  /** A script as it was written is split into the statements written, blank
      ones apart: quotes, comments, psql commands and COPY data never lead the
      splitter astray. */
  lemma ScriptReadsBack(isCopy: seq<byte> -> bool, items: seq<Item>, tail: seq<Unit>, data: seq<byte>)
    requires IsScript(isCopy, items, tail, data)
    ensures InRange(data, Pieces(data, isCopy)) && Candidates(data, Pieces(data, isCopy)) == NonBlank(Texts(items, tail))
  {
    hide ScriptFits, PiecesFrom, Candidates, NonBlank;
    assert data == [] + data;
    ItemsRead(data, isCopy, [], items, tail);
  }

  /** For instance a semicolon after a comment nested in another ends nothing. */
  lemma NestedCommentIsKept(isCopy: seq<byte> -> bool)
    requires !isCopy([47, 42, 47, 42, 42, 47, 59, 42, 47, 97, 59])
    ensures var data := [47, 42, 47, 42, 42, 47, 59, 42, 47, 97, 59];   // /*/**/;*/a;
            InRange(data, Pieces(data, isCopy)) && Candidates(data, Pieces(data, isCopy)) == [data]
  {
    hide Pieces, Candidates;
    var data: seq<byte> := [47, 42, 47, 42, 42, 47, 59, 42, 47, 97, 59];
    var parts := [Nested([]), Text(59)];
    var us := [Long(Block(parts)), Byte(97)];
    assert parts[1..] == [Text(59)] && [Text(59)][1..] == [];
    assert Parts(parts) == [47, 42, 42, 47, 59] by {
      assert Parts([]) == [] && Whole(Nested([])) == [47, 42, 42, 47];
      assert Parts([Text(59)]) == [59];
    }
    assert us[1..] == [Byte(97)] && [Byte(97)][1..] == [];
    assert Units([Byte(97)]) == [97];
    assert Units(us) == [47, 42, 47, 42, 42, 47, 59, 42, 47, 97];
    assert UnitsFit([], us, [59]);
    OneStatement(isCopy, us, data);
    ScriptReadsBack(isCopy, [Statement(us)], [], data);
  }

  /** A script of one statement. */
  lemma OneStatement(isCopy: seq<byte> -> bool, us: seq<Unit>, data: seq<byte>)
    requires UnitsFit([], us, [59]) && data == Units(us) + [59] && !isCopy(data)
    ensures IsScript(isCopy, [Statement(us)], [], data) && NonBlank(Texts([Statement(us)], [])) == [data]
  {
    hide UnitsFit, Units;
    var items, none: seq<Item> := [Statement(us)], [];
    NoUnits();
    assert items[1..] == none && Items(none) == [];
    assert [59] + (Items(none) + Units([])) == [59];
    assert SqlText(items[0]) == data && Items(items) == data + [] + [];
    assert ScriptFits(isCopy, [] + data + [], none, []);
    assert Texts(items, []) == [data] + Texts(none, []);
    assert ([data] + Texts(none, []))[1..] == Texts(none, []) == [Units([])];
    assert [Units([])][1..] == [];
    assert data[|data| - 1] == 59 && 59 in data;
  }

  lemma NoUnits()
    ensures Units([]) == [] && forall before, after :: UnitsFit(before, [], after)
  {
  }
}
