/** Trees in a heap in which every node is owned by exactly one other, or by
    the variable that holds the tree. */
module OwnedShape {

  /** What a node is: the empty node, a node around a record, or a record that
      is a node of its own. */
  datatype Variant = NoNode | NodeOf(kind: nat) | RecordOf(kind: nat)

  /** A node by its address, with the nodes it owns. */
  datatype Shape = Shape(addr: nat, variant: Variant, kids: seq<Shape>)

  /** The same without addresses. */
  datatype Tree = Tree(variant: Variant, kids: seq<Tree>)

  datatype Cell = Cell(variant: Variant, children: seq<nat>)

  /** What is allocated: each node holds the addresses of its children. */
  type Cells = map<nat, Cell>

  function Addrs(ss: seq<Shape>): seq<nat> {
    seq(|ss|, i requires 0 <= i < |ss| => ss[i].addr)
  }

  function Cover(ss: seq<Shape>): set<nat>
    decreases ss
  {
    if ss == [] then {} else {ss[0].addr} + Cover(ss[0].kids) + Cover(ss[1..])
  }

  function Erase(ss: seq<Shape>): seq<Tree>
    decreases ss
  {
    if ss == [] then [] else [Tree(ss[0].variant, Erase(ss[0].kids))] + Erase(ss[1..])
  }

  /** The nodes are in the heap and hold their children's addresses. */
  predicate Holds(cells: Cells, ss: seq<Shape>)
    decreases ss
  {
    ss != [] ==>
      && ss[0].addr in cells && cells[ss[0].addr] == Cell(ss[0].variant, Addrs(ss[0].kids))
      && Holds(cells, ss[0].kids) && Holds(cells, ss[1..])
  }

  /** No node is owned twice. */
  predicate Separate(ss: seq<Shape>)
    decreases ss
  {
    ss != [] ==>
      && ss[0].addr !in Cover(ss[0].kids) && Separate(ss[0].kids) && Separate(ss[1..])
      && ss[0].addr !in Cover(ss[1..]) && Cover(ss[0].kids) !! Cover(ss[1..])
  }

  lemma {:induction false} HoldsFrame(cells: Cells, after: Cells, ss: seq<Shape>)
    requires Holds(cells, ss)
    requires forall a :: a in Cover(ss) ==> a in after && (a in cells ==> after[a] == cells[a])
    ensures Holds(after, ss) && forall a :: a in Cover(ss) ==> a in cells
    decreases ss
  {
    if ss != [] {
      HoldsFrame(cells, after, ss[0].kids);
      HoldsFrame(cells, after, ss[1..]);
    }
  }

  lemma {:induction false} CoverAppend(a: seq<Shape>, b: seq<Shape>)
    ensures Cover(a + b) == Cover(a) + Cover(b) && Erase(a + b) == Erase(a) + Erase(b) && Addrs(a + b) == Addrs(a) + Addrs(b)
    decreases a
  {
    if a == [] {
      assert a + b == b;
    } else {
      assert (a + b)[1..] == a[1..] + b;
      CoverAppend(a[1..], b);
    }
  }

  lemma {:induction false} HoldsAppend(cells: Cells, a: seq<Shape>, b: seq<Shape>)
    ensures Holds(cells, a + b) <==> Holds(cells, a) && Holds(cells, b)
    ensures Separate(a + b) <==> Separate(a) && Separate(b) && Cover(a) !! Cover(b)
    decreases a
  {
    if a == [] {
      assert a + b == b;
    } else {
      assert (a + b)[1..] == a[1..] + b;
      CoverAppend(a[1..], b);
      HoldsAppend(cells, a[1..], b);
    }
  }

  lemma {:induction false} HoldsCovers(cells: Cells, ss: seq<Shape>)
    requires Holds(cells, ss)
    ensures Cover(ss) <= cells.Keys
    decreases ss
  {
    if ss != [] {
      HoldsCovers(cells, ss[0].kids);
      HoldsCovers(cells, ss[1..]);
    }
  }

  lemma NoCover()
    ensures Cover([]) == {}
  {
  }

  /** After the first children are gone the next one is still whole. */
  lemma NextKid(cells: Cells, kids: seq<Shape>, i: nat)
    requires i < |kids| && Holds(cells, kids) && Separate(kids)
    ensures Holds(cells - Cover(kids[..i]), [kids[i]]) && Separate([kids[i]])
    ensures Cover(kids[..i + 1]) == Cover(kids[..i]) + Cover([kids[i]])
  {
    hide Holds, Separate, Cover;
    var front, k, rest := kids[..i], [kids[i]], kids[i + 1..];
    assert kids == front + (k + rest) && kids[..i + 1] == front + k;
    HoldsAppend(cells, front, k + rest);
    HoldsAppend(cells, k, rest);
    CoverAppend(k, rest);
    CoverAppend(front, k);
    HoldsCovers(cells, k);
    HoldsFrame(cells, cells - Cover(front), k);
  }

  /** Addresses are never given twice, so freeing takes a live address only and
      each allocation is freed at most once. */
  class Heap {
    var cells: Cells
    var next: nat

    ghost predicate Valid()
      reads this
    {
      forall a :: a in cells ==> a < next
    }

    constructor ()
      ensures Valid() && cells == map[]
    {
      cells, next := map[], 0;
    }

    method New(variant: Variant, children: seq<nat>) returns (a: nat)
      requires Valid()
      modifies this
      ensures Valid() && a == old(next) && next == a + 1 && cells == old(cells)[a := Cell(variant, children)]
    {
      a := next;
      cells := cells[a := Cell(variant, children)];
      next := next + 1;
    }

    /** Gives a node that owns nothing yet its children. */
    method SetChildren(a: nat, children: seq<nat>)
      requires Valid() && a in cells
      modifies `cells
      ensures Valid() && cells == old(cells)[a := Cell(old(cells)[a].variant, children)]
    {
      cells := cells[a := Cell(cells[a].variant, children)];
    }

    method Free(a: nat)
      requires Valid() && a in cells
      modifies `cells
      ensures Valid() && cells == old(cells) - {a}
    {
      cells := cells - {a};
    }

    /** Frees a tree: what its root owns first, then the root. */
    method Release(a: nat, ghost s: Shape)
      requires Valid() && a == s.addr && Holds(cells, [s]) && Separate([s])
      modifies `cells
      ensures Valid() && cells == old(cells) - Cover([s])
      decreases s, 1
    {
      assert [s][1..] == [];
      ReleaseContents(cells[a].children, s.kids, s);
      Free(a);
    }

    /** Frees everything a list of children owns, and the children. */
    method ReleaseContents(children: seq<nat>, ghost kids: seq<Shape>, ghost parent: Shape)
      requires Valid() && children == Addrs(kids) && Holds(cells, kids) && Separate(kids)
      requires kids == parent.kids
      modifies `cells
      ensures Valid() && cells == old(cells) - Cover(kids)
      decreases parent, 0
    {
      hide Holds, Separate, Cover;
      assert kids[..0] == [];
      NoCover();
      for i := 0 to |children|
        invariant Valid() && cells == old(cells) - Cover(kids[..i])
      {
        NextKid(old(cells), kids, i);
        Release(children[i], kids[i]);
      }
      assert kids[..|kids|] == kids;
    }
  }
}
