/** Converting native builder values, whose graph may be cyclic, into owned
    trees; whatever check fails at whatever depth, nothing stays allocated. */
module OwnedConversion {
  import opened OwnedShape

  datatype Option<+T> = None | Some(value: T)

  const MAXIMUM_DEPTH: nat := 256

  /** A builder value; lists and objects are the builder's, by number. A scalar
      carries whether its field's check accepts it. */
  datatype Item = Null | Scalar(valid: bool) | List(index: nat) | Object(id: nat)

  /** An absent enumeration reads as 0, which the enumeration may not have; what
      is no text at all in a text field counts as absent. */
  datatype FieldType =
    | ScalarField
    | TextField
    | EnumField(hasZero: bool)
    | NodeField
    | RecordField(kind: nat)
    | ScalarList
    | NodeList
    | RecordList(kind: nat)

  datatype Obj = Obj(kind: nat, fields: seq<Item>)

  /** The builder's objects and lists, each record type's fields, the record types
      that are nodes, and among the types those of lists and of raw statements. */
  datatype Graph = Graph(objects: map<nat, Obj>, lists: map<nat, seq<Item>>, schema: map<nat, seq<FieldType>>, nodeKinds: set<nat>, listKind: nat, rawKind: nat)

  function Fields(g: Graph, kind: nat): seq<FieldType> {
    if kind in g.schema then g.schema[kind] else []
  }

  function Elements(g: Graph, item: Item): seq<Item> {
    if item.List? && item.index in g.lists then g.lists[item.index] else []
  }

  predicate IsObject(g: Graph, item: Item, kind: nat) {
    item.Object? && item.id in g.objects && g.objects[item.id].kind == kind
  }

  /** The builder value a field is converted from; a list is its own field. */
  function Source(g: Graph, kind: nat, item: Item, k: nat): Item {
    if kind == g.listKind then item
    else if IsObject(g, item, kind) && k < |g.objects[item.id].fields| then g.objects[item.id].fields[k]
    else Null
  }

  // ---------------------------------------------------- what is converted

  function NodeTree(g: Graph, item: Item, depth: nat): Option<Tree>
    decreases MAXIMUM_DEPTH + 1 - depth, 3, 0
  {
    if depth > MAXIMUM_DEPTH then None
    else match item
      case Null => Some(Tree(NoNode, []))
      case List(_) => Rooted(NodeOf(g.listKind), RecordTrees(g, g.listKind, item, depth + 1))
      case Object(id) =>
        if id in g.objects && g.objects[id].kind in g.nodeKinds
        then Rooted(NodeOf(g.objects[id].kind), RecordTrees(g, g.objects[id].kind, item, depth + 1)) else None
      case Scalar(_) => None
  }

  function Rooted(variant: Variant, kids: Option<seq<Tree>>): Option<Tree> {
    match kids case None => None case Some(trees) => Some(Tree(variant, trees))
  }

  function Single(tree: Option<Tree>): Option<seq<Tree>> {
    match tree case None => None case Some(t) => Some([t])
  }

  function Both(a: Option<seq<Tree>>, b: Option<seq<Tree>>): Option<seq<Tree>> {
    if a.None? || b.None? then None else Some(a.value + b.value)
  }

  function RecordTrees(g: Graph, kind: nat, item: Item, depth: nat): Option<seq<Tree>>
    decreases MAXIMUM_DEPTH + 1 - depth, 2, 0
  {
    if depth > MAXIMUM_DEPTH || (kind != g.listKind && !IsObject(g, item, kind)) then None
    else FieldTrees(g, kind, item, 0, depth)
  }

  function FieldTrees(g: Graph, kind: nat, item: Item, k: nat, depth: nat): Option<seq<Tree>>
    requires depth <= MAXIMUM_DEPTH && k <= |Fields(g, kind)|
    decreases MAXIMUM_DEPTH + 1 - depth, 1, |Fields(g, kind)| - k
  {
    if k == |Fields(g, kind)| then Some([])
    else Both(FieldTree(g, Fields(g, kind)[k], Source(g, kind, item, k), depth), FieldTrees(g, kind, item, k + 1, depth))
  }

  predicate ScalarPasses(t: FieldType, source: Item) {
    match t
    case TextField => source.Scalar? ==> source.valid
    case EnumField(hasZero) => if source.Null? then hasZero else source.Scalar? && source.valid
    case _ => source.Null? || (source.Scalar? && source.valid)
  }

  function FieldTree(g: Graph, t: FieldType, source: Item, depth: nat): Option<seq<Tree>>
    requires depth <= MAXIMUM_DEPTH
    decreases MAXIMUM_DEPTH + 1 - depth, 0, 0
  {
    match t
    case ScalarField => if ScalarPasses(t, source) then Some([]) else None
    case TextField => if ScalarPasses(t, source) then Some([]) else None
    case EnumField(_) => if ScalarPasses(t, source) then Some([]) else None
    case NodeField => if source.Null? then Some([]) else Single(NodeTree(g, source, depth + 1))
    case RecordField(kind) => if source.Null? then Some([]) else Single(Rooted(RecordOf(kind), RecordTrees(g, kind, source, depth + 1)))
    case ScalarList => SequenceTrees(g, t, source, depth + 1)
    case NodeList => SequenceTrees(g, t, source, depth + 1)
    case RecordList(_) => SequenceTrees(g, t, source, depth + 1)
  }

  function SequenceTrees(g: Graph, t: FieldType, items: Item, depth: nat): Option<seq<Tree>>
    decreases MAXIMUM_DEPTH + 1 - depth, 2, 0
  {
    if depth > MAXIMUM_DEPTH then None
    else match items
      case Null => Some([])
      case List(_) => ElementTrees(g, t, Elements(g, items), depth)
      case _ => None
  }

  function ElementTrees(g: Graph, t: FieldType, elements: seq<Item>, depth: nat): Option<seq<Tree>>
    requires depth <= MAXIMUM_DEPTH
    decreases MAXIMUM_DEPTH + 1 - depth, 1, |elements|
  {
    if elements == [] then Some([])
    else Both(ElementTree(g, t, elements[0], depth), ElementTrees(g, t, elements[1..], depth))
  }

  function ElementTree(g: Graph, t: FieldType, element: Item, depth: nat): Option<seq<Tree>>
    requires depth <= MAXIMUM_DEPTH
    decreases MAXIMUM_DEPTH + 1 - depth, 0, 0
  {
    match t
    case NodeList => Single(NodeTree(g, element, depth + 1))
    case RecordList(kind) => Single(Rooted(RecordOf(kind), RecordTrees(g, kind, element, depth + 1)))
    case _ => if element.Scalar? && element.valid then Some([]) else None
  }

  /** A raw statement is converted as a record; anything else becomes the
      statement of a new one. */
  function StatementTree(g: Graph, item: Item): Option<Tree> {
    if IsObject(g, item, g.rawKind) then Rooted(RecordOf(g.rawKind), RecordTrees(g, g.rawKind, item, 1))
    else Rooted(RecordOf(g.rawKind), Single(NodeTree(g, item, 1)))
  }

  function StatementTrees(g: Graph, items: seq<Item>): Option<seq<Tree>> {
    if items == [] then Some([]) else Both(Single(StatementTree(g, items[0])), StatementTrees(g, items[1..]))
  }

  function RootTrees(g: Graph, root: Item): Option<seq<Tree>> {
    match root
    case Null => Some([])
    case List(_) => StatementTrees(g, Elements(g, root))
    case _ => None
  }

  // -------------------------------------------------------------- ownership

  /** From `before`, in which addresses up to `from` were given, to `after`,
      the trees were allocated and nothing else has changed. */
  ghost predicate Owns(before: Cells, from: nat, after: Cells, next: nat, ss: seq<Shape>) {
    && from <= next && Holds(after, ss) && Separate(ss)
    && (forall a :: a in Cover(ss) ==> from <= a < next)
    && after.Keys == before.Keys + Cover(ss)
    && (forall a :: a in before ==> a < from && after[a] == before[a])
  }

  lemma OwnsNothing(before: Cells, from: nat)
    requires forall a :: a in before ==> a < from
    ensures Owns(before, from, before, from, [])
  {
  }

  lemma OwnsLater(before: Cells, from: nat, after: Cells, next: nat, later: nat, ss: seq<Shape>)
    requires Owns(before, from, after, next, ss) && next <= later
    ensures Owns(before, from, after, later, ss)
  {
  }

  lemma OwnsMore(before: Cells, from: nat, middle: Cells, next: nat, after: Cells, later: nat, ss: seq<Shape>, tt: seq<Shape>)
    requires Owns(before, from, middle, next, ss) && Owns(middle, next, after, later, tt)
    ensures Owns(before, from, after, later, ss + tt)
  {
    hide Holds, Separate, Cover;
    CoverAppend(ss, tt);
    HoldsAppend(after, ss, tt);
    HoldsCovers(middle, ss);
    HoldsFrame(middle, after, ss);
  }

  lemma OwnsNew(before: Cells, from: nat, after: Cells, next: nat, variant: Variant, kids: seq<Shape>)
    requires Owns(before, from, after, next, kids) && next !in before
    ensures Owns(before, from, after[next := Cell(variant, Addrs(kids))], next + 1, [Shape(next, variant, kids)])
  {
    var s, cells := Shape(next, variant, kids), after[next := Cell(variant, Addrs(kids))];
    assert [s][1..] == [];
    NoCover();
    assert Cover([s]) == {next} + Cover(kids);
    HoldsCovers(after, kids);
    HoldsFrame(after, cells, kids);
    assert Holds(cells, [s]) && Separate([s]);
  }

  lemma OwnsGone(before: Cells, from: nat, after: Cells, next: nat, ss: seq<Shape>)
    requires Owns(before, from, after, next, ss)
    ensures after - Cover(ss) == before
  {
  }

  lemma EraseNode(s: Shape)
    ensures Erase([s]) == [Tree(s.variant, Erase(s.kids))]
  {
    assert [s][1..] == [];
  }

  // ------------------------------------------------------------- conversions

  /** Frees what the fields or elements converted so far own. */
  method ReleaseAll(heap: Heap, kids: seq<nat>, ghost ss: seq<Shape>, ghost before: Cells, ghost from: nat)
    requires heap.Valid() && kids == Addrs(ss) && Owns(before, from, heap.cells, heap.next, ss)
    modifies heap`cells
    ensures heap.Valid() && heap.cells == before
  {
    OwnsGone(before, from, heap.cells, heap.next, ss);
    heap.ReleaseContents(kids, ss, Shape(0, NoNode, ss));
  }

  method ConvertNode(heap: Heap, g: Graph, item: Item, depth: nat) returns (node: Option<nat>, ghost s: Shape)
    requires heap.Valid()
    modifies heap
    ensures heap.Valid() && old(heap.next) <= heap.next
    ensures node.Some? <==> NodeTree(g, item, depth).Some?
    ensures node.None? ==> heap.cells == old(heap.cells)
    ensures node.Some? ==> node.value == s.addr && Owns(old(heap.cells), old(heap.next), heap.cells, heap.next, [s])
                           && Erase([s]) == [NodeTree(g, item, depth).value]
    decreases MAXIMUM_DEPTH + 1 - depth, 3
  {
    hide Holds, Separate, Cover, Owns, Erase, RecordTrees;
    s := Shape(0, NoNode, []);
    if depth > MAXIMUM_DEPTH {
      return None, s;
    }
    var variant := NoNode;
    var kids: Option<seq<nat>> := None;
    ghost var ss: seq<Shape> := [];
    match item {
      case Null =>
        kids := Some([]);
        OwnsNothing(heap.cells, heap.next);
      case List(_) =>
        variant := NodeOf(g.listKind);
        kids, ss := ConvertRecord(heap, g, g.listKind, item, depth + 1);
      case Object(id) =>
        if id in g.objects && g.objects[id].kind in g.nodeKinds {
          variant := NodeOf(g.objects[id].kind);
          kids, ss := ConvertRecord(heap, g, g.objects[id].kind, item, depth + 1);
        }
      case Scalar(_) =>
    }
    if kids.None? {
      return None, s;
    }
    var a;
    a, s := Allocate(heap, variant, kids.value, ss, old(heap.cells), old(heap.next));
    NothingErased();
    return Some(a), s;
  }

  lemma NothingErased()
    ensures Erase([]) == []
  {
  }

  /** Allocates a node over the children just converted. */
  method Allocate(heap: Heap, variant: Variant, kids: seq<nat>, ghost ss: seq<Shape>, ghost before: Cells, ghost from: nat)
    returns (a: nat, ghost s: Shape)
    requires heap.Valid() && kids == Addrs(ss) && Owns(before, from, heap.cells, heap.next, ss)
    modifies heap
    ensures heap.Valid() && old(heap.next) <= heap.next && a == s.addr && s.variant == variant && s.kids == ss
    ensures Owns(before, from, heap.cells, heap.next, [s]) && Erase([s]) == [Tree(variant, Erase(ss))]
  {
    OwnsNew(before, from, heap.cells, heap.next, variant, ss);
    s := Shape(heap.next, variant, ss);
    EraseNode(s);
    a := heap.New(variant, kids);
  }

  method ConvertRecord(heap: Heap, g: Graph, kind: nat, item: Item, depth: nat)
    returns (kids: Option<seq<nat>>, ghost ss: seq<Shape>)
    requires heap.Valid()
    modifies heap
    ensures heap.Valid() && old(heap.next) <= heap.next
    ensures kids.Some? <==> RecordTrees(g, kind, item, depth).Some?
    ensures kids.None? ==> heap.cells == old(heap.cells)
    ensures kids.Some? ==> kids.value == Addrs(ss) && Owns(old(heap.cells), old(heap.next), heap.cells, heap.next, ss)
                           && Erase(ss) == RecordTrees(g, kind, item, depth).value
    decreases MAXIMUM_DEPTH + 1 - depth, 2
  {
    hide Holds, Separate, Cover, Owns, Erase, FieldTree;
    ss := [];
    if depth > MAXIMUM_DEPTH || (kind != g.listKind && !IsObject(g, item, kind)) {
      return None, ss;
    }
    var value: seq<nat> := [];
    OwnsNothing(heap.cells, heap.next);
    NothingErased();
    var fields := Fields(g, kind);
    ghost var whole := FieldTrees(g, kind, item, 0, depth);
    assert whole == Both(Some([]), whole) by { if whole.Some? { assert [] + whole.value == whole.value; } }
    for k := 0 to |fields|
      invariant heap.Valid() && old(heap.next) <= heap.next && value == Addrs(ss)
      invariant Owns(old(heap.cells), old(heap.next), heap.cells, heap.next, ss)
      invariant whole == Both(Some(Erase(ss)), FieldTrees(g, kind, item, k, depth))
    {
      ghost var middle, next := heap.cells, heap.next;
      var more, tt := ConvertField(heap, g, fields[k], Source(g, kind, item, k), depth);
      if more.None? {
        OwnsLater(old(heap.cells), old(heap.next), middle, next, heap.next, ss);
        ReleaseAll(heap, value, ss, old(heap.cells), old(heap.next));
        return None, ss;
      }
      OwnsMore(old(heap.cells), old(heap.next), middle, next, heap.cells, heap.next, ss, tt);
      CoverAppend(ss, tt);
      BothAssociates(Erase(ss), Erase(tt), FieldTrees(g, kind, item, k + 1, depth));
      value, ss := value + more.value, ss + tt;
    }
    assert Erase(ss) + [] == Erase(ss);
    return Some(value), ss;
  }

  lemma BothAssociates(a: seq<Tree>, b: seq<Tree>, c: Option<seq<Tree>>)
    ensures Both(Some(a), Both(Some(b), c)) == Both(Some(a + b), c)
  {
    if c.Some? { assert a + (b + c.value) == (a + b) + c.value; }
  }

  method ConvertField(heap: Heap, g: Graph, t: FieldType, source: Item, depth: nat)
    returns (kids: Option<seq<nat>>, ghost ss: seq<Shape>)
    requires heap.Valid() && depth <= MAXIMUM_DEPTH
    modifies heap
    ensures heap.Valid() && old(heap.next) <= heap.next
    ensures kids.Some? <==> FieldTree(g, t, source, depth).Some?
    ensures kids.None? ==> heap.cells == old(heap.cells)
    ensures kids.Some? ==> kids.value == Addrs(ss) && Owns(old(heap.cells), old(heap.next), heap.cells, heap.next, ss)
                           && Erase(ss) == FieldTree(g, t, source, depth).value
    decreases MAXIMUM_DEPTH + 1 - depth, 0
  {
    hide Holds, Separate, Cover, Owns, Erase, NodeTree, RecordTrees, SequenceTrees;
    ss := [];
    OwnsNothing(heap.cells, heap.next);
    NothingErased();
    match t
    case ScalarField => kids := if ScalarPasses(t, source) then Some([]) else None;
    case TextField => kids := if ScalarPasses(t, source) then Some([]) else None;
    case EnumField(_) => kids := if ScalarPasses(t, source) then Some([]) else None;
    case NodeField =>
      if source.Null? {
        kids := Some([]);
      } else {
        kids, ss := ConvertOneNode(heap, g, source, depth + 1);
      }
    case RecordField(kind) =>
      if source.Null? {
        kids := Some([]);
      } else {
        kids, ss := ConvertAccess(heap, g, kind, source, depth + 1);
      }
    case ScalarList => kids, ss := ConvertSequence(heap, g, t, source, depth + 1);
    case NodeList => kids, ss := ConvertSequence(heap, g, t, source, depth + 1);
    case RecordList(_) => kids, ss := ConvertSequence(heap, g, t, source, depth + 1);
  }

  method ConvertOneNode(heap: Heap, g: Graph, item: Item, depth: nat) returns (kids: Option<seq<nat>>, ghost ss: seq<Shape>)
    requires heap.Valid()
    modifies heap
    ensures heap.Valid() && old(heap.next) <= heap.next
    ensures kids.Some? <==> NodeTree(g, item, depth).Some?
    ensures kids.None? ==> heap.cells == old(heap.cells)
    ensures kids.Some? ==> kids.value == Addrs(ss) && Owns(old(heap.cells), old(heap.next), heap.cells, heap.next, ss)
                           && Erase(ss) == [NodeTree(g, item, depth).value]
    decreases MAXIMUM_DEPTH + 1 - depth, 4
  {
    hide Holds, Separate, Cover, Owns, Erase, NodeTree;
    var node, s := ConvertNode(heap, g, item, depth);
    ss := [s];
    kids := if node.Some? then Some([node.value]) else None;
  }

  /** A record, and a node of its own for it. */
  method ConvertAccess(heap: Heap, g: Graph, kind: nat, item: Item, depth: nat)
    returns (kids: Option<seq<nat>>, ghost ss: seq<Shape>)
    requires heap.Valid()
    modifies heap
    ensures heap.Valid() && old(heap.next) <= heap.next
    ensures kids.Some? <==> RecordTrees(g, kind, item, depth).Some?
    ensures kids.None? ==> heap.cells == old(heap.cells)
    ensures kids.Some? ==> kids.value == Addrs(ss) && Owns(old(heap.cells), old(heap.next), heap.cells, heap.next, ss)
                           && Erase(ss) == [Tree(RecordOf(kind), RecordTrees(g, kind, item, depth).value)]
    decreases MAXIMUM_DEPTH + 1 - depth, 3
  {
    hide Holds, Separate, Cover, Owns, Erase, RecordTrees;
    var record, tt := ConvertRecord(heap, g, kind, item, depth);
    ss := [];
    if record.None? {
      return None, ss;
    }
    var a, s := Allocate(heap, RecordOf(kind), record.value, tt, old(heap.cells), old(heap.next));
    ss := [s];
    return Some([a]), ss;
  }

  method ConvertSequence(heap: Heap, g: Graph, t: FieldType, items: Item, depth: nat)
    returns (kids: Option<seq<nat>>, ghost ss: seq<Shape>)
    requires heap.Valid()
    modifies heap
    ensures heap.Valid() && old(heap.next) <= heap.next
    ensures kids.Some? <==> SequenceTrees(g, t, items, depth).Some?
    ensures kids.None? ==> heap.cells == old(heap.cells)
    ensures kids.Some? ==> kids.value == Addrs(ss) && Owns(old(heap.cells), old(heap.next), heap.cells, heap.next, ss)
                           && Erase(ss) == SequenceTrees(g, t, items, depth).value
    decreases MAXIMUM_DEPTH + 1 - depth, 2
  {
    hide Holds, Separate, Cover, Owns, Erase, ElementTree;
    ss := [];
    OwnsNothing(heap.cells, heap.next);
    NothingErased();
    if depth > MAXIMUM_DEPTH {
      return None, ss;
    }
    if items.Null? {
      return Some([]), ss;
    }
    if !items.List? {
      return None, ss;
    }
    var elements, value := Elements(g, items), [];
    ghost var whole := ElementTrees(g, t, elements, depth);
    assert whole == Both(Some([]), whole) by { if whole.Some? { assert [] + whole.value == whole.value; } }
    assert elements[0..] == elements;
    for k := 0 to |elements|
      invariant heap.Valid() && old(heap.next) <= heap.next && value == Addrs(ss)
      invariant Owns(old(heap.cells), old(heap.next), heap.cells, heap.next, ss)
      invariant whole == Both(Some(Erase(ss)), ElementTrees(g, t, elements[k..], depth))
    {
      ghost var middle, next := heap.cells, heap.next;
      assert elements[k..][0] == elements[k] && elements[k..][1..] == elements[k + 1..];
      var more, tt := ConvertElement(heap, g, t, elements[k], depth);
      if more.None? {
        OwnsLater(old(heap.cells), old(heap.next), middle, next, heap.next, ss);
        ReleaseAll(heap, value, ss, old(heap.cells), old(heap.next));
        return None, ss;
      }
      OwnsMore(old(heap.cells), old(heap.next), middle, next, heap.cells, heap.next, ss, tt);
      CoverAppend(ss, tt);
      BothAssociates(Erase(ss), Erase(tt), ElementTrees(g, t, elements[k + 1..], depth));
      value, ss := value + more.value, ss + tt;
    }
    assert elements[|elements|..] == [] && Erase(ss) + [] == Erase(ss);
    return Some(value), ss;
  }

  method ConvertElement(heap: Heap, g: Graph, t: FieldType, element: Item, depth: nat)
    returns (kids: Option<seq<nat>>, ghost ss: seq<Shape>)
    requires heap.Valid() && depth <= MAXIMUM_DEPTH
    modifies heap
    ensures heap.Valid() && old(heap.next) <= heap.next
    ensures kids.Some? <==> ElementTree(g, t, element, depth).Some?
    ensures kids.None? ==> heap.cells == old(heap.cells)
    ensures kids.Some? ==> kids.value == Addrs(ss) && Owns(old(heap.cells), old(heap.next), heap.cells, heap.next, ss)
                           && Erase(ss) == ElementTree(g, t, element, depth).value
    decreases MAXIMUM_DEPTH + 1 - depth, 0
  {
    hide Holds, Separate, Cover, Owns, Erase, NodeTree, RecordTrees;
    ss := [];
    OwnsNothing(heap.cells, heap.next);
    NothingErased();
    match t
    case NodeList => kids, ss := ConvertOneNode(heap, g, element, depth + 1);
    case RecordList(kind) => kids, ss := ConvertAccess(heap, g, kind, element, depth + 1);
    case _ => kids := if element.Scalar? && element.valid then Some([]) else None;
  }
}
