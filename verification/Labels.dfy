/** Loop labels in the bodies of grammar actions: renamed to a canonical form,
    so that bodies that differ only in their labels are shared, and then to
    labels that are unique in the whole catalog. */
module Labels {

  datatype Prefix = ContinueLoop | ExitLoop

  /** A label as generated, for instance Continue_Loop_12. */
  datatype Label = Label(prefix: Prefix, number: nat)

  /** A body as text and labels. */
  datatype Token = Text(text: string) | Jump(target: Label)

  /** A body in canonical form: labels are numbered from 1. */
  datatype CanonToken = Plain(text: string) | Canon(prefix: Prefix, number: nat)

  /** The labels of a body in the order in which they first appear. */
  function FirstSeen(tokens: seq<Token>): seq<Label> {
    if tokens == [] then []
    else
      var before, last := FirstSeen(tokens[..|tokens| - 1]), tokens[|tokens| - 1];
      if last.Jump? && last.target !in before then before + [last.target] else before
  }

  predicate Distinct<T(==)>(s: seq<T>) {
    forall i, j :: 0 <= i < j < |s| ==> s[i] != s[j]
  }

  lemma {:induction false} FirstSeenIsDistinct(tokens: seq<Token>)
    ensures Distinct(FirstSeen(tokens))
    decreases |tokens|
  {
    if tokens != [] { FirstSeenIsDistinct(tokens[..|tokens| - 1]); }
  }

  lemma {:induction false} FirstSeenHasAll(tokens: seq<Token>, i: nat)
    requires i < |tokens| && tokens[i].Jump?
    ensures tokens[i].target in FirstSeen(tokens)
    decreases |tokens|
  {
    if i < |tokens| - 1 {
      FirstSeenHasAll(tokens[..|tokens| - 1], i);
    }
  }

  /** Where a label of a body first appears. */
  lemma {:induction false} FirstSeenAppears(tokens: seq<Token>, k: nat) returns (i: nat)
    requires k < |FirstSeen(tokens)|
    ensures i < |tokens| && tokens[i] == Jump(FirstSeen(tokens)[k])
    decreases |tokens|
  {
    var n := |tokens| - 1;
    if k < |FirstSeen(tokens[..n])| {
      i := FirstSeenAppears(tokens[..n], k);
    } else {
      i := n;
    }
  }

  function IndexOf<T(==)>(s: seq<T>, x: T): (i: nat)
    requires x in s
    ensures i < |s| && s[i] == x
    decreases s
  {
    if s[0] == x then 0 else 1 + IndexOf(s[1..], x)
  }

  lemma IndexIsUnique<T>(s: seq<T>, i: nat)
    requires Distinct(s) && i < |s|
    ensures IndexOf(s, s[i]) == i
  {
  }

  function CanonOf(seen: seq<Label>, t: Token): CanonToken
    requires t.Jump? ==> t.target in seen
  {
    match t
    case Text(text) => Plain(text)
    case Jump(target) => Canon(target.prefix, IndexOf(seen, target) + 1)
  }

  /** The canonical form: each label numbered by its first appearance. */
  function Canonical(tokens: seq<Token>): (r: seq<CanonToken>)
    ensures |r| == |tokens|
  {
    SeenInTokens(tokens);
    seq(|tokens|, i requires 0 <= i < |tokens| => CanonOf(FirstSeen(tokens), tokens[i]))
  }

  lemma {:induction false} SeenInTokens(tokens: seq<Token>)
    ensures forall i :: 0 <= i < |tokens| && tokens[i].Jump? ==> tokens[i].target in FirstSeen(tokens)
  {
    forall i | 0 <= i < |tokens| && tokens[i].Jump? ensures tokens[i].target in FirstSeen(tokens) {
      FirstSeenHasAll(tokens, i);
    }
  }

  /** The labels that appear in a text. */
  function Appearing(tokens: seq<Token>): set<Label> {
    set i | 0 <= i < |tokens| && tokens[i].Jump? :: tokens[i].target
  }

  lemma {:induction false} FirstSeenCounts(tokens: seq<Token>)
    ensures |FirstSeen(tokens)| == |Appearing(tokens)|
    ensures forall l :: l in Appearing(tokens) <==> l in FirstSeen(tokens)
    decreases |tokens|
  {
    if tokens != [] {
      var front, last := tokens[..|tokens| - 1], tokens[|tokens| - 1];
      FirstSeenCounts(front);
      assert forall i :: 0 <= i < |front| ==> tokens[i] == front[i];
      assert Appearing(tokens) == if last.Jump? then Appearing(front) + {last.target} else Appearing(front);
    }
  }

  /** A label that appears for the first time is numbered one higher than the
      labels before it are many; later it has the same number. Text is kept. */
  lemma NumberedByAppearance(tokens: seq<Token>, i: nat, j: nat)
    requires i <= j < |tokens| && tokens[i] == tokens[j]
    requires tokens[i].Jump? ==> tokens[i].target !in Appearing(tokens[..i])
    ensures Canonical(tokens)[j] == match tokens[j]
                                    case Text(text) => Plain(text)
                                    case Jump(target) => Canon(target.prefix, |Appearing(tokens[..i])| + 1)
  {
    SeenInTokens(tokens);
    if tokens[i].Jump? {
      var target := tokens[i].target;
      FirstSeenNext(tokens, i);
      FirstSeenCounts(tokens[..i]);
      IndexOfLast(FirstSeen(tokens[..i]), target);
      IndexInPrefix(FirstSeen(tokens[..i + 1]), FirstSeen(tokens), target);
    }
  }

  // ------------------------------------------------------------- as computed

  lemma {:induction false} FirstSeenGrows(tokens: seq<Token>, n: nat)
    requires n <= |tokens|
    ensures FirstSeen(tokens[..n]) <= FirstSeen(tokens)
    decreases |tokens|
  {
    if n < |tokens| {
      var front := tokens[..|tokens| - 1];
      FirstSeenGrows(front, n);
      assert front[..n] == tokens[..n];
    } else {
      assert tokens[..n] == tokens;
    }
  }

  lemma {:induction false} IndexInPrefix<T>(a: seq<T>, b: seq<T>, x: T)
    requires a <= b && x in a
    ensures IndexOf(b, x) == IndexOf(a, x)
    decreases a
  {
    if a[0] != x {
      IndexInPrefix(a[1..], b[1..], x);
    }
  }

  lemma {:induction false} IndexOfLast<T>(a: seq<T>, x: T)
    requires x !in a
    ensures IndexOf(a + [x], x) == |a|
    decreases a
  {
    if a != [] {
      assert (a + [x])[1..] == a[1..] + [x];
      IndexOfLast(a[1..], x);
    }
  }

  lemma KeepsIndices(seen: seq<Label>, target: Label)
    ensures forall l :: l in seen ==> IndexOf(seen + [target], l) == IndexOf(seen, l)
  {
    forall l | l in seen ensures IndexOf(seen + [target], l) == IndexOf(seen, l) {
      IndexInPrefix(seen, seen + [target], l);
    }
  }

  /** The table holds the labels seen so far under their numbers. */
  ghost predicate Numbers(names: map<Label, nat>, seen: seq<Label>) {
    && |names| == |seen|
    && (forall l :: l in names <==> l in seen)
    && (forall l :: l in names ==> names[l] == IndexOf(seen, l) + 1)
  }

  lemma NumbersNext(names: map<Label, nat>, seen: seq<Label>, target: Label)
    requires Numbers(names, seen) && target !in names
    ensures Numbers(names[target := |names| + 1], seen + [target])
  {
    IndexOfLast(seen, target);
    KeepsIndices(seen, target);
  }

  lemma {:induction false} FirstSeenNext(tokens: seq<Token>, i: nat)
    requires i < |tokens|
    ensures var before := FirstSeen(tokens[..i]);
            FirstSeen(tokens[..i + 1])
            == if tokens[i].Jump? && tokens[i].target !in before then before + [tokens[i].target] else before
    ensures FirstSeen(tokens[..i + 1]) <= FirstSeen(tokens)
  {
    assert tokens[..i + 1][..i] == tokens[..i] && tokens[..i + 1][i] == tokens[i];
    FirstSeenGrows(tokens, i + 1);
  }

  /** One pass with a table of the names given so far. */
  method CanonicalizeLabels(tokens: seq<Token>) returns (body: seq<CanonToken>)
    ensures body == Canonical(tokens)
  {
    hide FirstSeen, IndexOf;
    var names: map<Label, nat> := map[];
    body := [];
    SeenInTokens(tokens);
    NothingSeen();
    assert tokens[..0] == [];
    for i := 0 to |tokens|
      invariant |body| == i && Numbers(names, FirstSeen(tokens[..i]))
      invariant forall k :: 0 <= k < i ==> body[k] == CanonOf(FirstSeen(tokens), tokens[k])
    {
      FirstSeenNext(tokens, i);
      match tokens[i]
      case Text(text) => body := body + [Plain(text)];
      case Jump(target) =>
        if target !in names {
          NumbersNext(names, FirstSeen(tokens[..i]), target);
          names := names[target := |names| + 1];
        }
        IndexInPrefix(FirstSeen(tokens[..i + 1]), FirstSeen(tokens), target);
        body := body + [Canon(target.prefix, names[target])];
    }
    assert tokens[..|tokens|] == tokens;
  }

  lemma NothingSeen()
    ensures FirstSeen([]) == []
  {
  }

  // ------------------------------------------------------------ canonical form

  function Rename(f: map<Label, Label>, t: Token): Token {
    if t.Jump? && t.target in f then Jump(f[t.target]) else t
  }

  /** A prefix-preserving bijection between the labels of two bodies that takes one to the other. */
  ghost predicate Renames(a: seq<Token>, b: seq<Token>, f: map<Label, Label>) {
    && (forall l :: l in f <==> l in FirstSeen(a))
    && (forall l :: l in f ==> f[l].prefix == l.prefix)
    && (forall l, m :: l in f && m in f && f[l] == f[m] ==> l == m)
    && |a| == |b| && forall i :: 0 <= i < |a| ==> b[i] == Rename(f, a[i])
  }

  lemma {:induction false} RenamedFirstSeen(a: seq<Token>, b: seq<Token>, f: map<Label, Label>, n: nat)
    requires Renames(a, b, f) && n <= |a|
    ensures |FirstSeen(b[..n])| == |FirstSeen(a[..n])|
    ensures forall k :: 0 <= k < |FirstSeen(a[..n])| ==>
              FirstSeen(a[..n])[k] in f && FirstSeen(b[..n])[k] == f[FirstSeen(a[..n])[k]]
    decreases n
  {
    if n > 0 {
      RenamedFirstSeen(a, b, f, n - 1);
      assert a[..n][..n - 1] == a[..n - 1] && b[..n][..n - 1] == b[..n - 1];
      assert a[..n][n - 1] == a[n - 1] && b[..n][n - 1] == b[n - 1];
      SeenInTokens(a);
    }
  }

  /** Bodies that differ only in the names of their labels have the same canonical form. */
  lemma RenamedHasSameForm(a: seq<Token>, b: seq<Token>, f: map<Label, Label>)
    requires Renames(a, b, f)
    ensures Canonical(a) == Canonical(b)
  {
    RenamedFirstSeen(a, b, f, |a|);
    assert a[..|a|] == a && b[..|b|] == b;
    var seenA, seenB := FirstSeen(a), FirstSeen(b);
    FirstSeenIsDistinct(b);
    forall i | 0 <= i < |a| ensures Canonical(a)[i] == Canonical(b)[i] {
      if a[i].Jump? {
        FirstSeenHasAll(a, i);
        var k := IndexOf(seenA, a[i].target);
        assert seenB[k] == f[a[i].target];
        IndexIsUnique(seenB, k);
      }
    }
  }

  /** The number of labels can be read off the canonical form. */
  lemma SameFormSameCount(a: seq<Token>, b: seq<Token>)
    requires Canonical(a) == Canonical(b)
    ensures |FirstSeen(a)| <= |FirstSeen(b)|
  {
    var n := |FirstSeen(a)|;
    if n > 0 {
      var i := FirstSeenAppears(a, n - 1);
      FirstSeenIsDistinct(a);
      IndexIsUnique(FirstSeen(a), n - 1);
      assert Canonical(a)[i] == Canon(a[i].target.prefix, n);
      assert Canonical(b)[i] == CanonOf(FirstSeen(b), b[i]);
      FirstSeenHasAll(b, i);
    }
  }

  /** And bodies with the same canonical form differ only in those names. */
  lemma SameFormIsRenamed(a: seq<Token>, b: seq<Token>) returns (f: map<Label, Label>)
    requires Canonical(a) == Canonical(b)
    ensures Renames(a, b, f)
  {
    var seenA, seenB := FirstSeen(a), FirstSeen(b);
    SameFormSameCount(a, b);
    SameFormSameCount(b, a);
    FirstSeenIsDistinct(a);
    FirstSeenIsDistinct(b);
    SeenInTokens(a);
    SeenInTokens(b);
    f := map l | l in seenA :: seenB[IndexOf(seenA, l)];
    assert |a| == |Canonical(a)| == |b|;
    forall i | 0 <= i < |a| ensures b[i] == Rename(f, a[i]) {
      assert Canonical(a)[i] == CanonOf(seenA, a[i]) && Canonical(b)[i] == CanonOf(seenB, b[i]);
    }
    forall l | l in f ensures f[l].prefix == l.prefix {
      var i := FirstSeenAppears(a, IndexOf(seenA, l));
      assert Canonical(a)[i] == CanonOf(seenA, a[i]) && Canonical(b)[i] == CanonOf(seenB, b[i]);
    }
    forall l, m | l in f && m in f && f[l] == f[m] ensures l == m {
      assert seenB[IndexOf(seenA, l)] == seenB[IndexOf(seenA, m)];
    }
  }

  // ------------------------------------------------------------ rendered labels

  function HexDigit(d: nat): char
    requires d < 16
  {
    if d < 10 then '0' + d as char else 'A' + (d - 10) as char
  }

  /** `width` hexadecimal digits. */
  function Hex(n: nat, width: nat): (s: string)
    ensures |s| == width
  {
    if width == 0 then "" else Hex(n / 16, width - 1) + [HexDigit(n % 16)]
  }

  function Power16(width: nat): nat {
    if width == 0 then 1 else 16 * Power16(width - 1)
  }

  function Decimal(n: nat): (s: string)
    ensures s != ""
  {
    if n < 10 then ['0' + n as char] else Decimal(n / 10) + ['0' + (n % 10) as char]
  }

  function PrefixText(p: Prefix): string {
    match p case ContinueLoop => "Continue_Loop_" case ExitLoop => "Exit_Loop_"
  }

  /** The label of a body in the catalog. */
  function Rendered(identifier: nat, prefix: Prefix, number: nat): string {
    PrefixText(prefix) + "H" + Hex(identifier, 16) + "_" + Decimal(number)
  }

  lemma {:induction false} HexIsInjective(m: nat, n: nat, width: nat)
    requires m < Power16(width) && n < Power16(width) && Hex(m, width) == Hex(n, width)
    ensures m == n
    decreases width
  {
    if width > 0 {
      var a, b := Hex(m, width), Hex(n, width);
      assert a[..width - 1] == Hex(m / 16, width - 1) && b[..width - 1] == Hex(n / 16, width - 1);
      assert a[width - 1] == HexDigit(m % 16) && b[width - 1] == HexDigit(n % 16);
      HexIsInjective(m / 16, n / 16, width - 1);
    }
  }

  lemma {:induction false} DecimalIsInjective(m: nat, n: nat)
    requires Decimal(m) == Decimal(n)
    ensures m == n
    decreases m
  {
    var a, b := Decimal(m), Decimal(n);
    assert a[|a| - 1] == '0' + (m % 10) as char && b[|b| - 1] == '0' + (n % 10) as char;
    if m >= 10 && n >= 10 {
      assert a[..|a| - 1] == Decimal(m / 10) && b[..|b| - 1] == Decimal(n / 10);
      DecimalIsInjective(m / 10, n / 10);
    }
  }

  lemma RenderedParts(identifier: nat, prefix: Prefix, number: nat)
    ensures var s, n := Rendered(identifier, prefix, number), |PrefixText(prefix)|;
            && |s| >= n + 18 && s[0] == (if prefix == ContinueLoop then 'C' else 'E')
            && s[n + 1..n + 17] == Hex(identifier, 16) && s[n + 18..] == Decimal(number)
  {
    hide Hex, Decimal;
    var text, hex, number' := PrefixText(prefix), Hex(identifier, 16), Decimal(number);
    var s := Rendered(identifier, prefix, number);
    assert s == (text + "H") + (hex + ("_" + number'));
    assert s == (text + "H" + hex + "_") + number';
  }

  /** Different labels of a body, or the same label of different bodies, are
      rendered differently. */
  lemma RenderedIsInjective(i: nat, p: Prefix, k: nat, j: nat, q: Prefix, l: nat)
    requires i < Power16(16) && j < Power16(16) && Rendered(i, p, k) == Rendered(j, q, l)
    ensures i == j && p == q && k == l
  {
    hide Hex, Decimal, Rendered, Power16;
    RenderedParts(i, p, k);
    RenderedParts(j, q, l);
    HexIsInjective(i, j, 16);
    DecimalIsInjective(k, l);
  }

  // ------------------------------------------------------- reading labels back

  /** The value of a hexadecimal digit, capital letters only. */
  function HexValue(c: char): nat {
    if '0' <= c <= '9' then (c - '0') as nat else if 'A' <= c <= 'F' then (c - 'A') as nat + 10 else 0
  }

  function FromHex(s: string): nat {
    if s == "" then 0 else 16 * FromHex(s[..|s| - 1]) + HexValue(s[|s| - 1])
  }

  function FromDecimal(s: string): nat {
    if s == "" then 0 else 10 * FromDecimal(s[..|s| - 1]) + if '0' <= s[|s| - 1] <= '9' then (s[|s| - 1] - '0') as nat else 0
  }

  predicate AllHex(s: string) {
    forall c :: c in s ==> '0' <= c <= '9' || 'A' <= c <= 'F'
  }

  predicate AllDecimal(s: string) {
    forall c :: c in s ==> '0' <= c <= '9'
  }

  lemma {:induction false} HexReads(n: nat, width: nat)
    requires n < Power16(width)
    ensures FromHex(Hex(n, width)) == n && AllHex(Hex(n, width))
    decreases width
  {
    if width > 0 {
      HexReads(n / 16, width - 1);
      var s := Hex(n, width);
      assert s[..width - 1] == Hex(n / 16, width - 1) && s[width - 1] == HexDigit(n % 16);
    }
  }

  lemma {:induction false} DecimalReads(n: nat)
    ensures FromDecimal(Decimal(n)) == n && AllDecimal(Decimal(n)) && (n > 0 ==> Decimal(n)[0] != '0')
    decreases n
  {
    var s := Decimal(n);
    if n < 10 {
      assert s[..0] == "";
    } else {
      DecimalReads(n / 10);
      assert s[..|s| - 1] == Decimal(n / 10) && s[|s| - 1] == '0' + (n % 10) as char;
    }
  }

  /** A label is written as its kind, H and the body's identifier in sixteen
      capital hexadecimal digits, and its number in decimal. */
  lemma RenderedReads(identifier: nat, prefix: Prefix, number: nat) returns (hex: string, decimal: string)
    requires identifier < Power16(16)
    ensures Rendered(identifier, prefix, number)
         == (match prefix case ContinueLoop => "Continue_Loop_H" case ExitLoop => "Exit_Loop_H") + hex + "_" + decimal
    ensures |hex| == 16 && AllHex(hex) && FromHex(hex) == identifier
    ensures AllDecimal(decimal) && FromDecimal(decimal) == number && (number > 0 ==> decimal[..1] != "0")
  {
    hide Power16, Hex, Decimal;
    hex, decimal := Hex(identifier, 16), Decimal(number);
    HexReads(identifier, 16);
    DecimalReads(number);
  }
}
