/** A whole parse result: converting the root, and the tree that owns it. */
module OwnedParse {
  import opened OwnedShape
  import opened OwnedConversion
  import opened OwnedMirror

  // ---------------------------------------------------------------- the root

  method ConvertStatement(heap: Heap, g: Graph, item: Item) returns (kids: Option<seq<nat>>, ghost ss: seq<Shape>)
    requires heap.Valid()
    modifies heap
    ensures heap.Valid() && old(heap.next) <= heap.next
    ensures kids.Some? <==> StatementTree(g, item).Some?
    ensures kids.None? ==> heap.cells == old(heap.cells)
    ensures kids.Some? ==> kids.value == Addrs(ss) && Owns(old(heap.cells), old(heap.next), heap.cells, heap.next, ss)
                           && Erase(ss) == [StatementTree(g, item).value]
  {
    hide Holds, Separate, Cover, Owns, Erase, RecordTrees, NodeTree;
    if IsObject(g, item, g.rawKind) {
      kids, ss := ConvertAccess(heap, g, g.rawKind, item, 1);
    } else {
      ghost var before, from := heap.cells, heap.next;
      OwnsNothing(before, from);
      var raw := heap.New(RecordOf(g.rawKind), []);
      RawAllocated(before, from, RecordOf(g.rawKind));
      ghost var middle := heap.cells;
      assert middle == before[from := Cell(RecordOf(g.rawKind), [])] && heap.next == from + 1;
      var node, s := ConvertNode(heap, g, item, 1);
      ss := [];
      if node.None? {
        RawGone(before, from, RecordOf(g.rawKind));
        heap.Release(raw, Shape(raw, RecordOf(g.rawKind), []));
        return None, ss;
      }
      RawFilled(before, from, RecordOf(g.rawKind), heap.cells, heap.next, s);
      EraseNode(Shape(raw, RecordOf(g.rawKind), [s]));
      heap.SetChildren(raw, [node.value]);
      ss := [Shape(raw, RecordOf(g.rawKind), [s])];
      kids := Some([raw]);
    }
  }

  lemma RawAllocated(before: Cells, from: nat, v: Variant)
    requires Owns(before, from, before, from, [])
    ensures Owns(before, from, before[from := Cell(v, [])], from + 1, [Shape(from, v, [])])
  {
    OwnsNew(before, from, before, from, v, []);
  }

  /** An unfilled raw statement can be released by itself. */
  lemma RawGone(before: Cells, from: nat, v: Variant)
    requires Owns(before, from, before, from, [])
    ensures Holds(before[from := Cell(v, [])], [Shape(from, v, [])]) && Separate([Shape(from, v, [])])
    ensures before[from := Cell(v, [])] - Cover([Shape(from, v, [])]) == before
  {
    RawAllocated(before, from, v);
    OwnsGone(before, from, before[from := Cell(v, [])], from + 1, [Shape(from, v, [])]);
  }

  /** The statement converted after the raw one was allocated becomes its child. */
  lemma RawFilled(before: Cells, from: nat, v: Variant, after: Cells, next: nat, s: Shape)
    requires Owns(before, from, before, from, [])
    requires Owns(before[from := Cell(v, [])], from + 1, after, next, [s])
    ensures from in after && after[from].variant == v && Owns(before, from, after[from := Cell(v, [s.addr])], next, [Shape(from, v, [s])])
  {
    var raw, cells := Shape(from, v, [s]), after[from := Cell(v, [s.addr])];
    assert [raw][1..] == [] && Addrs([s]) == [s.addr];
    NoCover();
    assert Cover([raw]) == {from} + Cover([s]);
    HoldsCovers(after, [s]);
    HoldsFrame(after, cells, [s]);
    assert Holds(cells, [raw]) && Separate([raw]);
    assert cells.Keys == before.Keys + Cover([raw]);
  }

  method ConvertRoot(heap: Heap, g: Graph, root: Item) returns (kids: Option<seq<nat>>, ghost ss: seq<Shape>)
    requires heap.Valid()
    modifies heap
    ensures heap.Valid() && old(heap.next) <= heap.next
    ensures kids.Some? <==> RootTrees(g, root).Some?
    ensures kids.None? ==> heap.cells == old(heap.cells)
    ensures kids.Some? ==> kids.value == Addrs(ss) && Owns(old(heap.cells), old(heap.next), heap.cells, heap.next, ss)
                           && Erase(ss) == RootTrees(g, root).value && ParseMirrors(g, root, Erase(ss))
  {
    hide Holds, Separate, Cover, Owns, Erase, StatementTree;
    ss := [];
    OwnsNothing(heap.cells, heap.next);
    NothingErased();
    if !root.Null? && !root.List? {
      return None, ss;
    }
    var items := Elements(g, root);
    var value: seq<nat> := [];
    ghost var whole := StatementTrees(g, items);
    assert whole == Both(Some([]), whole) by { if whole.Some? { assert [] + whole.value == whole.value; } }
    assert items[0..] == items;
    for k := 0 to |items|
      invariant heap.Valid() && old(heap.next) <= heap.next && value == Addrs(ss)
      invariant Owns(old(heap.cells), old(heap.next), heap.cells, heap.next, ss)
      invariant whole == Both(Some(Erase(ss)), StatementTrees(g, items[k..]))
    {
      ghost var middle, next := heap.cells, heap.next;
      assert items[k..][0] == items[k] && items[k..][1..] == items[k + 1..];
      var more, tt := ConvertStatement(heap, g, items[k]);
      if more.None? {
        OwnsLater(old(heap.cells), old(heap.next), middle, next, heap.next, ss);
        ReleaseAll(heap, value, ss, old(heap.cells), old(heap.next));
        return None, ss;
      }
      OwnsMore(old(heap.cells), old(heap.next), middle, next, heap.cells, heap.next, ss, tt);
      CoverAppend(ss, tt);
      BothAssociates(Erase(ss), Erase(tt), StatementTrees(g, items[k + 1..]));
      value, ss := value + more.value, ss + tt;
    }
    assert items[|items|..] == [] && Erase(ss) + [] == Erase(ss);
    ParsedIsMirror(g, root, Erase(ss));
    return Some(value), ss;
  }

  /** The tree a parse fills in; it owns everything that is allocated. */
  class OwnedTree {
    const heap: Heap
    var root: seq<nat>
    var valid: bool
    ghost var shapes: seq<Shape>

    ghost predicate Valid()
      reads this, heap
    {
      && heap.Valid() && root == Addrs(shapes) && Holds(heap.cells, shapes) && Separate(shapes)
      && heap.cells.Keys == Cover(shapes)
    }

    constructor ()
      ensures Valid() && fresh(heap) && root == [] && !valid
    {
      heap := new Heap();
      root, valid, shapes := [], false, [];
    }

    /** Frees exactly what the tree owns, which is everything. */
    method Clear()
      requires Valid()
      modifies this, heap`cells
      ensures Valid() && heap.cells == map[] && root == [] && shapes == [] && !valid
    {
      heap.ReleaseContents(root, shapes, Shape(0, NoNode, shapes));
      assert heap.cells.Keys == {};
      root, valid, shapes := [], false, [];
    }

    /** Replaces the tree by a conversion, or leaves it empty if a check fails. */
    method Parse(g: Graph, source: Item) returns (ok: bool)
      requires Valid()
      modifies this, heap
      ensures Valid() && valid == ok
      ensures ok <==> RootTrees(g, source).Some?
      ensures ok ==> Erase(shapes) == RootTrees(g, source).value
      ensures ok ==> |root| == |ListOf(g, source)|
                     && forall k :: 0 <= k < |root| ==> RootMirrors(heap.cells, root[k], g, ListOf(g, source)[k])
      ensures ok <==> exists trees :: ParseMirrors(g, source, trees)
      ensures !ok ==> heap.cells == map[] && root == []
    {
      hide RootTrees, Erase, ParseMirrors, RootMirrors;
      forall trees ensures RootTrees(g, source) == Some(trees) <==> ParseMirrors(g, source, trees) {
        ParsedIsMirror(g, source, trees);
      }
      Clear();
      var kids, ss := ConvertRoot(heap, g, source);
      if kids.None? {
        return false;
      }
      root, valid, shapes := kids.value, true, ss;
      HeldMirrors(heap.cells, shapes, g, source);
      assert ParseMirrors(g, source, Erase(shapes));
      return true;
    }
  }
}
