/** What an owned tree is: the mirror of the builder's graph, described from
    the objects, the lists and the schema alone, without the conversion. */
module OwnedMirror {
  import opened OwnedShape
  import opened OwnedConversion

  /** A tree that a converted value owes its owner, and the depth it is at. */
  datatype Owed = NodeOwed(item: Item, depth: nat) | RecordOwed(kind: nat, item: Item, depth: nat)

  function ListOf(g: Graph, v: Item): seq<Item> {
    match v
    case List(index) => if index in g.lists then g.lists[index] else []
    case _ => []
  }

  function TypesOf(g: Graph, kind: nat): seq<FieldType> {
    if kind in g.schema then g.schema[kind] else []
  }

  /** A field's value as its object holds it; a list is its own only field. */
  function ValueOf(g: Graph, kind: nat, item: Item, k: nat): Item {
    if kind == g.listKind then item
    else match item
         case Object(id) =>
           if id in g.objects && g.objects[id].kind == kind && k < |g.objects[id].fields| then g.objects[id].fields[k] else Null
         case _ => Null
  }

  /** The trees owed for the elements of a list. */
  function OwedEach(t: FieldType, elements: seq<Item>, depth: nat): seq<Owed> {
    match t
    case NodeList => seq(|elements|, i requires 0 <= i < |elements| => NodeOwed(elements[i], depth))
    case RecordList(kind) => seq(|elements|, i requires 0 <= i < |elements| => RecordOwed(kind, elements[i], depth))
    case _ => []
  }

  /** The trees owed for a field of a record at `depth`. */
  function OwedFor(g: Graph, t: FieldType, v: Item, depth: nat): seq<Owed> {
    match t
    case NodeField => if v == Null then [] else [NodeOwed(v, depth + 1)]
    case RecordField(kind) => if v == Null then [] else [RecordOwed(kind, v, depth + 1)]
    case _ => OwedEach(t, ListOf(g, v), depth + 2)
  }

  /** The trees owed for the fields from the `k`-th on, in order. */
  function OwedFrom(g: Graph, kind: nat, item: Item, k: nat, depth: nat): seq<Owed>
    requires k <= |TypesOf(g, kind)|
    decreases |TypesOf(g, kind)| - k
  {
    if k == |TypesOf(g, kind)| then []
    else OwedFor(g, TypesOf(g, kind)[k], ValueOf(g, kind, item, k), depth) + OwedFrom(g, kind, item, k + 1, depth)
  }

  /** What a field may hold, apart from the trees it owns. */
  predicate FieldSound(g: Graph, t: FieldType, v: Item, depth: nat) {
    match t
    case ScalarField => v == Null || v == Scalar(true)
    case TextField => v != Scalar(false)
    case EnumField(hasZero) => v == Scalar(true) || (v == Null && hasZero)
    case NodeField => true
    case RecordField(_) => true
    case ScalarList =>
      depth + 1 <= 256 && (v == Null || v.List?) && forall i :: 0 <= i < |ListOf(g, v)| ==> ListOf(g, v)[i] == Scalar(true)
    case NodeList => depth + 1 <= 256 && (v == Null || v.List?)
    case RecordList(_) => depth + 1 <= 256 && (v == Null || v.List?)
  }

  predicate RecordSound(g: Graph, kind: nat, item: Item, depth: nat) {
    && depth <= 256
    && (kind == g.listKind || (item.Object? && item.id in g.objects && g.objects[item.id].kind == kind))
    && forall k :: 0 <= k < |TypesOf(g, kind)| ==> FieldSound(g, TypesOf(g, kind)[k], ValueOf(g, kind, item, k), depth)
  }

  /** The tree is what is owed: an empty node for Null, for a list or an object
      a node of its type over the trees of its fields, for a record likewise. */
  predicate MirrorOf(g: Graph, t: Tree, owed: Owed)
    decreases t
  {
    match owed
    case RecordOwed(kind, item, depth) =>
      t.variant == RecordOf(kind) && RecordSound(g, kind, item, depth) && Mirrors(g, t.kids, OwedFrom(g, kind, item, 0, depth))
    case NodeOwed(item, depth) =>
      depth <= 256 &&
      match item
      case Null => t == Tree(NoNode, [])
      case Scalar(_) => false
      case List(_) =>
        && t.variant == NodeOf(g.listKind) && RecordSound(g, g.listKind, item, depth + 1)
        && Mirrors(g, t.kids, OwedFrom(g, g.listKind, item, 0, depth + 1))
      case Object(id) =>
        && id in g.objects && g.objects[id].kind in g.nodeKinds
        && t.variant == NodeOf(g.objects[id].kind) && RecordSound(g, g.objects[id].kind, item, depth + 1)
        && Mirrors(g, t.kids, OwedFrom(g, g.objects[id].kind, item, 0, depth + 1))
  }

  /** One tree for each that is owed, in order. */
  predicate Mirrors(g: Graph, trees: seq<Tree>, owed: seq<Owed>)
    decreases trees
  {
    |trees| == |owed| && forall i :: 0 <= i < |trees| ==> MirrorOf(g, trees[i], owed[i])
  }

  lemma MirrorsSplit(g: Graph, trees: seq<Tree>, a: seq<Owed>, b: seq<Owed>)
    ensures Mirrors(g, trees, a + b)
       <==> |trees| >= |a| && Mirrors(g, trees[..|a|], a) && Mirrors(g, trees[|a|..], b)
  {
    hide MirrorOf;
    if |trees| == |a + b| {
      assert forall i :: |a| <= i < |trees| ==> trees[i] == trees[|a|..][i - |a|] && (a + b)[i] == b[i - |a|];
      assert forall i :: 0 <= i < |b| ==> trees[|a|..][i] == trees[i + |a|] && (a + b)[i + |a|] == b[i];
    }
  }

  // ------------------------------------------------ conversion is mirroring

  lemma BothIs(a: Option<seq<Tree>>, b: Option<seq<Tree>>, kids: seq<Tree>, n: nat)
    requires a.Some? ==> |a.value| == n
    ensures Both(a, b) == Some(kids) <==> |kids| >= n && a == Some(kids[..n]) && b == Some(kids[n..])
  {
    if |kids| >= n { assert kids == kids[..n] + kids[n..]; }
    if a.Some? && b.Some? && a.value + b.value == kids {
      assert kids[..n] == a.value && kids[n..] == b.value;
    }
  }

  lemma NodeIff(g: Graph, item: Item, depth: nat, t: Tree)
    ensures NodeTree(g, item, depth) == Some(t) <==> MirrorOf(g, t, NodeOwed(item, depth))
    decreases MAXIMUM_DEPTH + 1 - depth, 3, 0
  {
    hide RecordTrees, Mirrors, RecordSound, OwedFrom;
    if depth <= MAXIMUM_DEPTH {
      match item
      case List(_) => RecordIff(g, g.listKind, item, depth + 1, t.kids);
      case Object(id) => if id in g.objects { RecordIff(g, g.objects[id].kind, item, depth + 1, t.kids); }
      case _ =>
    }
  }

  lemma RecordIff(g: Graph, kind: nat, item: Item, depth: nat, kids: seq<Tree>)
    ensures RecordTrees(g, kind, item, depth) == Some(kids)
       <==> RecordSound(g, kind, item, depth) && Mirrors(g, kids, OwedFrom(g, kind, item, 0, depth))
    decreases MAXIMUM_DEPTH + 1 - depth, 2, 0
  {
    hide FieldTrees, Mirrors, FieldSound, OwedFrom;
    if depth <= MAXIMUM_DEPTH && (kind == g.listKind || IsObject(g, item, kind)) {
      FieldsIff(g, kind, item, 0, depth, kids);
    }
  }

  lemma {:induction false} FieldsIff(g: Graph, kind: nat, item: Item, k: nat, depth: nat, kids: seq<Tree>)
    requires depth <= MAXIMUM_DEPTH && k <= |TypesOf(g, kind)| && (kind == g.listKind || IsObject(g, item, kind))
    ensures FieldTrees(g, kind, item, k, depth) == Some(kids)
       <==> && (forall j :: k <= j < |TypesOf(g, kind)| ==> FieldSound(g, TypesOf(g, kind)[j], ValueOf(g, kind, item, j), depth))
            && Mirrors(g, kids, OwedFrom(g, kind, item, k, depth))
    decreases MAXIMUM_DEPTH + 1 - depth, 1, |TypesOf(g, kind)| - k
  {
    hide FieldTree, MirrorOf, FieldSound, OwedFor;
    assert Fields(g, kind) == TypesOf(g, kind);
    if k < |TypesOf(g, kind)| {
      var t, v := TypesOf(g, kind)[k], ValueOf(g, kind, item, k);
      assert v == Source(g, kind, item, k);
      var owed, more := OwedFor(g, t, v, depth), OwedFrom(g, kind, item, k + 1, depth);
      var a, b := FieldTree(g, t, v, depth), FieldTrees(g, kind, item, k + 1, depth);
      if a.Some? { FieldIff(g, t, v, depth, a.value); }
      BothIs(a, b, kids, |owed|);
      MirrorsSplit(g, kids, owed, more);
      if |kids| >= |owed| {
        FieldIff(g, t, v, depth, kids[..|owed|]);
        FieldsIff(g, kind, item, k + 1, depth, kids[|owed|..]);
      }
    }
  }

  lemma FieldIff(g: Graph, t: FieldType, v: Item, depth: nat, kids: seq<Tree>)
    requires depth <= MAXIMUM_DEPTH
    ensures FieldTree(g, t, v, depth) == Some(kids)
       <==> FieldSound(g, t, v, depth) && Mirrors(g, kids, OwedFor(g, t, v, depth))
    decreases MAXIMUM_DEPTH + 1 - depth, 0, 0
  {
    hide NodeTree, RecordTrees, SequenceTrees, ElementTrees, MirrorOf;
    match t
    case NodeField =>
      if |kids| == 1 { assert kids == [kids[0]]; NodeIff(g, v, depth + 1, kids[0]); }
    case RecordField(kind) =>
      if |kids| == 1 { assert kids == [kids[0]]; AccessIff(g, kind, v, depth + 1, kids[0]); }
    case ScalarList => SequenceIff(g, t, v, depth, kids);
    case NodeList => SequenceIff(g, t, v, depth, kids);
    case RecordList(_) => SequenceIff(g, t, v, depth, kids);
    case _ =>
  }

  lemma AccessIff(g: Graph, kind: nat, item: Item, depth: nat, t: Tree)
    ensures Rooted(RecordOf(kind), RecordTrees(g, kind, item, depth)) == Some(t) <==> MirrorOf(g, t, RecordOwed(kind, item, depth))
    decreases MAXIMUM_DEPTH + 1 - depth, 3, 0
  {
    hide RecordTrees, Mirrors, RecordSound, OwedFrom;
    RecordIff(g, kind, item, depth, t.kids);
  }

  lemma SequenceIff(g: Graph, t: FieldType, v: Item, depth: nat, kids: seq<Tree>)
    requires depth <= MAXIMUM_DEPTH && (t.ScalarList? || t.NodeList? || t.RecordList?)
    ensures SequenceTrees(g, t, v, depth + 1) == Some(kids)
       <==> FieldSound(g, t, v, depth) && Mirrors(g, kids, OwedFor(g, t, v, depth))
    decreases MAXIMUM_DEPTH - depth, 2, 0
  {
    hide ElementTrees, MirrorOf;
    if depth + 1 <= MAXIMUM_DEPTH {
      ElementsIff(g, t, ListOf(g, v), depth + 1, kids);
    }
  }

  lemma {:induction false} ElementsIff(g: Graph, t: FieldType, elements: seq<Item>, depth: nat, kids: seq<Tree>)
    requires depth <= MAXIMUM_DEPTH && (t.ScalarList? || t.NodeList? || t.RecordList?)
    ensures ElementTrees(g, t, elements, depth) == Some(kids)
       <==> && (t.ScalarList? ==> forall i :: 0 <= i < |elements| ==> elements[i] == Scalar(true))
            && Mirrors(g, kids, OwedEach(t, elements, depth + 1))
    decreases MAXIMUM_DEPTH + 1 - depth, 1, |elements|
  {
    hide ElementTree, MirrorOf;
    if elements != [] {
      var first, rest := elements[0], elements[1..];
      var owed, more := OwedEach(t, [first], depth + 1), OwedEach(t, rest, depth + 1);
      assert OwedEach(t, elements, depth + 1) == owed + more;
      var a, b := ElementTree(g, t, first, depth), ElementTrees(g, t, rest, depth);
      if a.Some? { ElementIff(g, t, first, depth, a.value); }
      BothIs(a, b, kids, |owed|);
      MirrorsSplit(g, kids, owed, more);
      assert forall i :: 0 < i < |elements| ==> elements[i] == rest[i - 1];
      assert forall i :: 0 <= i < |rest| ==> rest[i] == elements[i + 1];
      if |kids| >= |owed| {
        ElementIff(g, t, first, depth, kids[..|owed|]);
        ElementsIff(g, t, rest, depth, kids[|owed|..]);
      }
    }
  }

  lemma ElementIff(g: Graph, t: FieldType, element: Item, depth: nat, kids: seq<Tree>)
    requires depth <= MAXIMUM_DEPTH && (t.ScalarList? || t.NodeList? || t.RecordList?)
    ensures ElementTree(g, t, element, depth) == Some(kids)
       <==> (t.ScalarList? ==> element == Scalar(true)) && Mirrors(g, kids, OwedEach(t, [element], depth + 1))
    decreases MAXIMUM_DEPTH + 1 - depth, 0, 0
  {
    hide NodeTree, RecordTrees, MirrorOf;
    match t
    case NodeList => if |kids| == 1 { assert kids == [kids[0]]; NodeIff(g, element, depth + 1, kids[0]); }
    case RecordList(kind) => if |kids| == 1 { assert kids == [kids[0]]; AccessIff(g, kind, element, depth + 1, kids[0]); }
    case _ =>
  }

  // ---------------------------------------------------------- a whole parse

  /** The tree of a statement: of a raw statement itself, or a new raw statement
      over the node of anything else. */
  predicate StatementMirrors(g: Graph, t: Tree, item: Item) {
    if item.Object? && item.id in g.objects && g.objects[item.id].kind == g.rawKind then MirrorOf(g, t, RecordOwed(g.rawKind, item, 1))
    else t.variant == RecordOf(g.rawKind) && |t.kids| == 1 && MirrorOf(g, t.kids[0], NodeOwed(item, 1))
  }

  predicate StatementsMirror(g: Graph, trees: seq<Tree>, items: seq<Item>) {
    |trees| == |items| && forall i :: 0 <= i < |items| ==> StatementMirrors(g, trees[i], items[i])
  }

  lemma StatementIff(g: Graph, item: Item, t: Tree)
    ensures StatementTree(g, item) == Some(t) <==> StatementMirrors(g, t, item)
  {
    hide RecordTrees, NodeTree, MirrorOf;
    if IsObject(g, item, g.rawKind) {
      AccessIff(g, g.rawKind, item, 1, t);
    } else if |t.kids| == 1 {
      NodeIff(g, item, 1, t.kids[0]);
      assert t.kids == [t.kids[0]];
    }
  }

  lemma {:induction false} StatementsIff(g: Graph, items: seq<Item>, trees: seq<Tree>)
    ensures StatementTrees(g, items) == Some(trees) <==> StatementsMirror(g, trees, items)
    decreases items
  {
    hide StatementTree, StatementMirrors;
    if items != [] {
      var a, b := Single(StatementTree(g, items[0])), StatementTrees(g, items[1..]);
      BothIs(a, b, trees, 1);
      if trees != [] {
        assert trees[..1] == [trees[0]];
        StatementIff(g, items[0], trees[0]);
        StatementsIff(g, items[1..], trees[1..]);
        assert forall i :: 0 < i < |items| && i < |trees| ==> items[i] == items[1..][i - 1] && trees[i] == trees[1..][i - 1];
        assert forall i :: 0 <= i < |items| - 1 && i < |trees| - 1 ==> items[1..][i] == items[i + 1] && trees[1..][i] == trees[i + 1];
      }
    }
  }

  /** No statements for Null, one for each element of the root list, in order. */
  predicate ParseMirrors(g: Graph, root: Item, trees: seq<Tree>) {
    (root == Null && trees == []) || (root.List? && StatementsMirror(g, trees, ListOf(g, root)))
  }

  /** A parse succeeds with exactly those trees that mirror the graph, each
      sound and nowhere deeper than 256. */
  lemma ParsedIsMirror(g: Graph, root: Item, trees: seq<Tree>)
    ensures RootTrees(g, root) == Some(trees) <==> ParseMirrors(g, root, trees)
  {
    hide StatementTrees, StatementMirrors;
    if root.List? {
      assert Elements(g, root) == ListOf(g, root);
      StatementsIff(g, ListOf(g, root), trees);
    }
  }

  // ------------------------------------------------------------- in the heap

  /** Followed from `a`, the allocated cells are the tree. */
  predicate IsTree(cells: Cells, a: nat, t: Tree)
    decreases t
  {
    && a in cells && cells[a].variant == t.variant && |cells[a].children| == |t.kids|
    && forall i :: 0 <= i < |t.kids| ==> IsTree(cells, cells[a].children[i], t.kids[i])
  }

  lemma {:induction false} EraseAt(ss: seq<Shape>, i: nat)
    requires i < |ss|
    ensures |Erase(ss)| == |ss| && Erase(ss)[i] == Tree(ss[i].variant, Erase(ss[i].kids))
    decreases ss
  {
    if i > 0 {
      EraseAt(ss[1..], i - 1);
    } else if |ss| > 1 {
      EraseAt(ss[1..], 0);
    }
  }

  lemma {:induction false} HeldIsTree(cells: Cells, ss: seq<Shape>, i: nat)
    requires Holds(cells, ss) && i < |ss|
    ensures |Erase(ss)| == |ss| && IsTree(cells, ss[i].addr, Erase(ss)[i])
    decreases ss
  {
    EraseAt(ss, i);
    if i > 0 {
      HeldIsTree(cells, ss[1..], i - 1);
      EraseAt(ss[1..], i - 1);
    } else {
      var kids := ss[0].kids;
      assert |Erase(kids)| == |kids| by { if kids != [] { EraseAt(kids, 0); } }
      forall k | 0 <= k < |kids| ensures IsTree(cells, cells[ss[0].addr].children[k], Erase(kids)[k]) {
        HeldIsTree(cells, kids, k);
      }
    }
  }

  ghost predicate RootMirrors(cells: Cells, a: nat, g: Graph, item: Item) {
    exists t :: IsTree(cells, a, t) && StatementMirrors(g, t, item)
  }

  /** So owned shapes that were parsed, followed in the heap, are the mirror. */
  lemma HeldMirrors(cells: Cells, ss: seq<Shape>, g: Graph, source: Item)
    requires Holds(cells, ss) && RootTrees(g, source) == Some(Erase(ss))
    ensures |ss| == |ListOf(g, source)|
    ensures forall k :: 0 <= k < |ss| ==> RootMirrors(cells, ss[k].addr, g, ListOf(g, source)[k])
  {
    hide Holds, RootTrees, IsTree, StatementMirrors;
    var trees := Erase(ss);
    ParsedIsMirror(g, source, trees);
    assert |trees| == |ss| by { if ss != [] { EraseAt(ss, 0); } }
    forall k | 0 <= k < |ss| ensures RootMirrors(cells, ss[k].addr, g, ListOf(g, source)[k]) {
      HeldIsTree(cells, ss, k);
      assert IsTree(cells, ss[k].addr, trees[k]) && StatementMirrors(g, trees[k], ListOf(g, source)[k]);
    }
  }
}
