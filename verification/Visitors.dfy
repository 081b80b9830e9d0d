/** Walking an owned tree with a visitor that may skip a node's children or
    stop the traversal. */
module Visitors {

  datatype Tree = Node(id: nat, kids: seq<Tree>)

  datatype Control = ContinueTraversal | SkipChildren | StopTraversal

  datatype Event = Enter(id: nat) | Leave(id: nat)

  /** A visitor with state V: what entering and leaving a node do to it. */
  datatype Visitor<!V> = Visitor(enter: (V, nat) -> (V, Control), leave: (V, nat) -> V)

  /** How a walk ends: the visitor's state, the callbacks made, and whether
      the traversal was stopped. */
  datatype Walked<V> = Walked(state: V, events: seq<Event>, stopped: bool)

  function Walk<V>(v: Visitor<V>, state: V, tree: Tree): Walked<V>
    decreases tree, 1
  {
    var (entered, control) := v.enter(state, tree.id);
    var start := [Enter(tree.id)];
    match control
    case StopTraversal => Walked(entered, start, true)
    case SkipChildren => Walked(v.leave(entered, tree.id), start + [Leave(tree.id)], false)
    case ContinueTraversal =>
      var inner := WalkAll(v, entered, tree.kids);
      if inner.stopped then Walked(inner.state, start + inner.events, true)
      else Walked(v.leave(inner.state, tree.id), start + inner.events + [Leave(tree.id)], false)
  }

  function WalkAll<V>(v: Visitor<V>, state: V, trees: seq<Tree>): Walked<V>
    decreases trees
  {
    if trees == [] then Walked(state, [], false)
    else
      var first := Walk(v, state, trees[0]);
      if first.stopped then first
      else
        var rest := WalkAll(v, first.state, trees[1..]);
        Walked(rest.state, first.events + rest.events, rest.stopped)
  }

  /** The walk that has already made some callbacks. */
  function Then<V>(done: seq<Event>, w: Walked<V>): Walked<V> {
    Walked(w.state, done + w.events, w.stopped)
  }

  lemma WalkAllNone<V>(v: Visitor<V>, state: V)
    ensures WalkAll(v, state, []) == Walked(state, [], false)
  {
  }

  lemma WalkAllNext<V>(v: Visitor<V>, state: V, trees: seq<Tree>, k: nat, done: seq<Event>)
    requires k < |trees|
    ensures var first := Walk(v, state, trees[k]);
            Then(done, WalkAll(v, state, trees[k..]))
            == if first.stopped then Walked(first.state, done + first.events, true)
               else Then(done + first.events, WalkAll(v, first.state, trees[k + 1..]))
  {
    hide Walk;
    assert trees[k..][0] == trees[k] && trees[k..][1..] == trees[k + 1..];
    var first := Walk(v, state, trees[k]);
    var rest := WalkAll(v, first.state, trees[k + 1..]).events;
    assert done + (first.events + rest) == (done + first.events) + rest;
  }

  /** The walk as generated: one procedure a node, over shared state. */
  class Traversal<V> {
    const visitor: Visitor<V>
    var state: V
    var stopped: bool
    /** The callbacks made so far. */
    var events: seq<Event>

    constructor (v: Visitor<V>, start: V)
      ensures visitor == v && state == start && !stopped && events == []
    {
      visitor, state, stopped, events := v, start, false, [];
    }

    /** What walking from the present state does. */
    twostate predicate Has(w: Walked<V>)
      reads this
    {
      state == w.state && stopped == w.stopped && events == old(events) + w.events
    }

    method WalkNode(tree: Tree)
      modifies this
      ensures if old(stopped) then state == old(state) && stopped && events == old(events)
              else Has(Walk(visitor, old(state), tree))
      decreases tree, 1
    {
      if stopped {
        return;
      }
      var (entered, control) := visitor.enter(state, tree.id);
      state, events := entered, events + [Enter(tree.id)];
      match control
      case StopTraversal =>
        stopped := true;
      case SkipChildren =>
        state, events := visitor.leave(state, tree.id), events + [Leave(tree.id)];
      case ContinueTraversal =>
        WalkChildren(tree.kids);
        if !stopped {
          state, events := visitor.leave(state, tree.id), events + [Leave(tree.id)];
        }
    }

    method WalkChildren(kids: seq<Tree>)
      requires !stopped
      modifies this
      ensures Has(WalkAll(visitor, old(state), kids))
      decreases kids, 0
    {
      hide Walk, WalkAll;
      ghost var all, done := WalkAll(visitor, state, kids), [];
      WalkAllNone(visitor, state);
      assert kids[0..] == kids && all == Then(done, all);
      var k := 0;
      while k < |kids| && !stopped
        invariant k <= |kids| && events == old(events) + done
        invariant all == if stopped then Walked(state, done, true) else Then(done, WalkAll(visitor, state, kids[k..]))
        decreases |kids| - k
      {
        ghost var first := Walk(visitor, state, kids[k]);
        WalkAllNext(visitor, state, kids, k, done);
        WalkNode(kids[k]);
        done, k := done + first.events, k + 1;
      }
      assert k == |kids| ==> kids[k..] == [];
      WalkAllNone(visitor, state);
      assert done + [] == done;
    }

    /** A traversal starts fresh; a null root makes no callbacks. */
    method Traverse(root: seq<Tree>)
      requires !stopped && events == [] && |root| <= 1
      modifies this
      ensures Has(WalkAll(visitor, old(state), root))
    {
      if root != [] {
        WalkNode(root[0]);
        assert root[1..] == [];
      }
    }
  }

  // ------------------------------------------------------------- brackets

  /** Each node's Enter, the traces of its children in order, and its Leave. */
  function Brackets(trees: seq<Tree>): seq<Event>
    decreases trees
  {
    if trees == [] then []
    else [Enter(trees[0].id)] + Brackets(trees[0].kids) + [Leave(trees[0].id)] + Brackets(trees[1..])
  }

  /** The trees, some nodes of which have lost all their children. */
  predicate PrunedFrom(pruned: seq<Tree>, trees: seq<Tree>)
    decreases trees
  {
    && |pruned| == |trees|
    && (trees != [] ==>
          && pruned[0].id == trees[0].id
          && (pruned[0].kids == [] || PrunedFrom(pruned[0].kids, trees[0].kids))
          && PrunedFrom(pruned[1..], trees[1..]))
  }

  /** The nodes a walk visits. */
  function Visited<V>(v: Visitor<V>, state: V, trees: seq<Tree>): seq<Tree>
    decreases trees
  {
    if trees == [] then []
    else
      var (entered, control) := v.enter(state, trees[0].id);
      var kids := if control == ContinueTraversal then Visited(v, entered, trees[0].kids) else [];
      [Node(trees[0].id, kids)] + Visited(v, Walk(v, state, trees[0]).state, trees[1..])
  }

  /** A walk that is not stopped makes the callbacks of a depth-first walk,
      well bracketed, of the trees with the children of skipped nodes left out. */
  lemma {:induction false} UnstoppedIsBracketed<V>(v: Visitor<V>, state: V, trees: seq<Tree>)
    requires !WalkAll(v, state, trees).stopped
    ensures WalkAll(v, state, trees).events == Brackets(Visited(v, state, trees))
    ensures PrunedFrom(Visited(v, state, trees), trees)
    decreases trees
  {
    if trees != [] {
      var (entered, control) := v.enter(state, trees[0].id);
      if control == ContinueTraversal {
        UnstoppedIsBracketed(v, entered, trees[0].kids);
      }
      var first := Walk(v, state, trees[0]);
      UnstoppedIsBracketed(v, first.state, trees[1..]);
      var visited, rest := Visited(v, state, trees), Visited(v, first.state, trees[1..]);
      assert visited[1..] == rest && visited[0].id == trees[0].id;
      assert first.events == [Enter(trees[0].id)] + Brackets(visited[0].kids) + [Leave(trees[0].id)];
    }
  }

  /** The same visitor with Stop taken for Continue. */
  function Unstoppable<V>(v: Visitor<V>): Visitor<V> {
    Visitor((s: V, id: nat) =>
              var (entered, control) := v.enter(s, id);
              (entered, if control == StopTraversal then ContinueTraversal else control),
            v.leave)
  }

  lemma {:induction false} UnstoppableGoesOn<V>(v: Visitor<V>, state: V, trees: seq<Tree>)
    ensures !WalkAll(Unstoppable(v), state, trees).stopped
    decreases trees
  {
    if trees != [] {
      var u := Unstoppable(v);
      UnstoppableGoesOn(v, u.enter(state, trees[0].id).0, trees[0].kids);
      UnstoppableGoesOn(v, Walk(u, state, trees[0]).state, trees[1..]);
    }
  }

  /** What a callback does to the visitor's state. */
  function Effect<V>(v: Visitor<V>, state: V, e: Event): V {
    match e
    case Enter(id) => v.enter(state, id).0
    case Leave(id) => v.leave(state, id)
  }

  predicate Stops<V>(v: Visitor<V>, state: V, e: Event) {
    e.Enter? && v.enter(state, e.id).1 == StopTraversal
  }

  /** The state after some callbacks. */
  function Replay<V>(v: Visitor<V>, state: V, events: seq<Event>): V
    decreases events
  {
    if events == [] then state else Replay(v, Effect(v, state, events[0]), events[1..])
  }

  /** None of the callbacks asks to stop. */
  predicate GoesOn<V>(v: Visitor<V>, state: V, events: seq<Event>)
    decreases events
  {
    events != [] ==> !Stops(v, state, events[0]) && GoesOn(v, Effect(v, state, events[0]), events[1..])
  }

  lemma {:induction false} ReplayAppend<V>(v: Visitor<V>, state: V, a: seq<Event>, b: seq<Event>)
    ensures Replay(v, state, a + b) == Replay(v, Replay(v, state, a), b)
    ensures GoesOn(v, state, a + b) <==> GoesOn(v, state, a) && GoesOn(v, Replay(v, state, a), b)
    decreases a
  {
    if a == [] {
      assert a + b == b;
    } else {
      assert (a + b)[1..] == a[1..] + b;
      ReplayAppend(v, Effect(v, state, a[0]), a[1..], b);
    }
  }

  lemma ReplayOne<V>(v: Visitor<V>, state: V, e: Event)
    ensures Replay(v, state, [e]) == Effect(v, state, e) && (GoesOn(v, state, [e]) <==> !Stops(v, state, e))
  {
    assert [e][1..] == [];
  }

  /** The callbacks are those of a visitor that was asked to stop by the last
      of them and by no other, or, if the walk was not stopped, by none. */
  ghost predicate StoppedByLast<V>(v: Visitor<V>, state: V, w: Walked<V>) {
    && w.state == Replay(v, state, w.events)
    && if !w.stopped then GoesOn(v, state, w.events)
       else
         w.events != []
         && var front, last := w.events[..|w.events| - 1], w.events[|w.events| - 1];
            GoesOn(v, state, front) && Stops(v, Replay(v, state, front), last)
  }

  lemma StoppedLater<V>(v: Visitor<V>, state: V, done: seq<Event>, w: Walked<V>)
    requires GoesOn(v, state, done) && StoppedByLast(v, Replay(v, state, done), w)
    ensures StoppedByLast(v, state, Then(done, w))
  {
    var all := done + w.events;
    ReplayAppend(v, state, done, w.events);
    if w.stopped {
      var n := |w.events| - 1;
      assert all[..|all| - 1] == done + w.events[..n] && all[|all| - 1] == w.events[n];
      ReplayAppend(v, state, done, w.events[..n]);
    }
  }

  lemma {:induction false} NodeIsStoppedByLast<V>(v: Visitor<V>, state: V, tree: Tree)
    ensures StoppedByLast(v, state, Walk(v, state, tree))
    decreases tree, 1
  {
    hide GoesOn, Replay, StoppedByLast;
    var (entered, control) := v.enter(state, tree.id);
    var start, leaving := [Enter(tree.id)], [Leave(tree.id)];
    ReplayOne(v, state, Enter(tree.id));
    match control
    case StopTraversal => StoppedAtOnce(v, state, tree.id);
    case SkipChildren =>
      LeavingGoesOn(v, state, start, tree.id);
    case ContinueTraversal =>
      var inner := WalkAll(v, entered, tree.kids);
      WalkIsStoppedByLast(v, entered, tree.kids);
      StoppedLater(v, state, start, inner);
      if !inner.stopped {
        NotStopped(v, state, Then(start, inner));
        LeavingGoesOn(v, state, start + inner.events, tree.id);
      }
  }

  lemma StoppedAtOnce<V>(v: Visitor<V>, state: V, id: nat)
    requires v.enter(state, id).1 == StopTraversal
    ensures StoppedByLast(v, state, Walked(v.enter(state, id).0, [Enter(id)], true))
  {
    ReplayOne(v, state, Enter(id));
    assert [Enter(id)][..0] == [];
  }

  lemma NotStopped<V>(v: Visitor<V>, state: V, w: Walked<V>)
    requires StoppedByLast(v, state, w) && !w.stopped
    ensures GoesOn(v, state, w.events) && Replay(v, state, w.events) == w.state
  {
  }

  lemma LeavingGoesOn<V>(v: Visitor<V>, state: V, events: seq<Event>, id: nat)
    requires GoesOn(v, state, events)
    ensures StoppedByLast(v, state, Walked(v.leave(Replay(v, state, events), id), events + [Leave(id)], false))
  {
    ReplayAppend(v, state, events, [Leave(id)]);
    ReplayOne(v, Replay(v, state, events), Leave(id));
  }

  lemma {:induction false} WalkIsStoppedByLast<V>(v: Visitor<V>, state: V, trees: seq<Tree>)
    ensures StoppedByLast(v, state, WalkAll(v, state, trees))
    decreases trees, 0
  {
    hide Walk;
    if trees != [] {
      var first := Walk(v, state, trees[0]);
      NodeIsStoppedByLast(v, state, trees[0]);
      if !first.stopped {
        var rest := WalkAll(v, first.state, trees[1..]);
        WalkIsStoppedByLast(v, first.state, trees[1..]);
        StoppedLater(v, state, first.events, rest);
      }
    }
  }

  /** A walk's callbacks begin those of the walk that cannot be stopped; they
      are all of them unless it is stopped, and then the last is the Enter, the
      first of all, that asked for it. */
  ghost predicate CutOff<V>(v: Visitor<V>, state: V, cut: Walked<V>, whole: Walked<V>) {
    && cut.events <= whole.events && StoppedByLast(v, state, cut)
    && (!cut.stopped ==> cut == whole)
  }

  lemma {:induction false} NodeBegins<V>(v: Visitor<V>, state: V, tree: Tree)
    ensures Walk(v, state, tree).events <= Walk(Unstoppable(v), state, tree).events
    ensures !Walk(v, state, tree).stopped ==> Walk(v, state, tree) == Walk(Unstoppable(v), state, tree)
    decreases tree, 1
  {
    var u := Unstoppable(v);
    var (entered, control) := v.enter(state, tree.id);
    assert u.enter(state, tree.id) == (entered, if control == StopTraversal then ContinueTraversal else control);
    UnstoppableGoesOn(v, entered, tree.kids);
    var start, whole := [Enter(tree.id)], WalkAll(u, entered, tree.kids).events;
    if control == ContinueTraversal {
      WalkBegins(v, entered, tree.kids);
      var cut := WalkAll(v, entered, tree.kids).events;
      assert start + whole + [Leave(tree.id)] == (start + cut) + (whole[|cut|..] + [Leave(tree.id)]);
    } else if control == StopTraversal {
      assert start + whole + [Leave(tree.id)] == start + (whole + [Leave(tree.id)]);
    }
  }

  lemma {:induction false} WalkBegins<V>(v: Visitor<V>, state: V, trees: seq<Tree>)
    ensures WalkAll(v, state, trees).events <= WalkAll(Unstoppable(v), state, trees).events
    ensures !WalkAll(v, state, trees).stopped ==> WalkAll(v, state, trees) == WalkAll(Unstoppable(v), state, trees)
    decreases trees, 0
  {
    if trees != [] {
      var u := Unstoppable(v);
      NodeBegins(v, state, trees[0]);
      UnstoppableGoesOn(v, state, [trees[0]]);
      assert [trees[0]][1..] == [];
      var first, whole := Walk(v, state, trees[0]), Walk(u, state, trees[0]);
      assert !whole.stopped;
      if first.stopped {
        var more := WalkAll(u, whole.state, trees[1..]).events;
        assert whole.events + more == first.events + (whole.events[|first.events|..] + more);
      } else {
        WalkBegins(v, first.state, trees[1..]);
        var cut, rest := WalkAll(v, first.state, trees[1..]).events, WalkAll(u, first.state, trees[1..]).events;
        assert first.events + rest == (first.events + cut) + rest[|cut|..];
      }
    }
  }

  lemma {:induction false} StoppedIsCutOff<V>(v: Visitor<V>, state: V, trees: seq<Tree>)
    ensures CutOff(v, state, WalkAll(v, state, trees), WalkAll(Unstoppable(v), state, trees))
  {
    WalkBegins(v, state, trees);
    WalkIsStoppedByLast(v, state, trees);
  }
}
