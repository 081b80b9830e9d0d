/** Which builder values are refused: conversions call for further conversions,
    one level deeper each, and a value is refused exactly when a chain of them
    fails a check or gets too deep. */
module OwnedRefusals {
  import opened OwnedConversion

  /** A conversion of one of the three kinds. */
  datatype Task = Node(item: Item) | Record(kind: nat, item: Item) | Sequence(t: FieldType, items: Item)

  predicate Converts(g: Graph, task: Task, depth: nat) {
    match task
    case Node(item) => NodeTree(g, item, depth).Some?
    case Record(kind, item) => RecordTrees(g, kind, item, depth).Some?
    case Sequence(t, items) => SequenceTrees(g, t, items, depth).Some?
  }

  /** The conversion a field or an element calls for, if it calls for one. */
  function Within(t: FieldType, source: Item): Option<Task> {
    match t
    case NodeField => if source.Null? then None else Some(Node(source))
    case RecordField(kind) => if source.Null? then None else Some(Record(kind, source))
    case ScalarList => Some(Sequence(t, source))
    case NodeList => Some(Sequence(t, source))
    case RecordList(_) => Some(Sequence(t, source))
    case _ => None
  }

  function WithinElement(t: FieldType, element: Item): Option<Task> {
    match t
    case NodeList => Some(Node(element))
    case RecordList(kind) => Some(Record(kind, element))
    case _ => None
  }

  predicate FieldDemands(g: Graph, kind: nat, item: Item, k: nat, sub: Task) {
    k < |Fields(g, kind)| && Within(Fields(g, kind)[k], Source(g, kind, item, k)) == Some(sub)
  }

  predicate ElementDemands(g: Graph, t: FieldType, items: Item, k: nat, sub: Task) {
    k < |Elements(g, items)| && WithinElement(t, Elements(g, items)[k]) == Some(sub)
  }

  /** Converting `task` calls for converting `sub`. */
  ghost predicate Demands(g: Graph, task: Task, sub: Task) {
    match task
    case Node(item) =>
      (item.List? && sub == Record(g.listKind, item))
      || (item.Object? && item.id in g.objects && sub == Record(g.objects[item.id].kind, item))
    case Record(kind, item) => exists k: nat :: FieldDemands(g, kind, item, k, sub)
    case Sequence(t, items) => exists k: nat :: ElementDemands(g, t, items, k, sub)
  }

  /** What a conversion checks of its own value. */
  predicate Checks(g: Graph, task: Task) {
    match task
    case Node(item) =>
      item.Null? || item.List? || (item.Object? && item.id in g.objects && g.objects[item.id].kind in g.nodeKinds)
    case Record(kind, item) =>
      && (kind == g.listKind || IsObject(g, item, kind))
      && forall k :: 0 <= k < |Fields(g, kind)| ==> FieldChecks(Fields(g, kind)[k], Source(g, kind, item, k))
    case Sequence(t, items) =>
      (items.Null? || items.List?) && forall k :: 0 <= k < |Elements(g, items)| ==> ElementChecks(t, Elements(g, items)[k])
  }

  predicate FieldChecks(t: FieldType, source: Item) {
    t.ScalarField? || t.TextField? || t.EnumField? ==> ScalarPasses(t, source)
  }

  predicate ElementChecks(t: FieldType, element: Item) {
    t.NodeList? || t.RecordList? || (element.Scalar? && element.valid)
  }

  lemma FieldConvertsIff(g: Graph, t: FieldType, source: Item, depth: nat)
    requires depth <= MAXIMUM_DEPTH
    ensures FieldTree(g, t, source, depth).Some?
       <==> FieldChecks(t, source) && (Within(t, source).Some? ==> Converts(g, Within(t, source).value, depth + 1))
  {
    hide NodeTree, RecordTrees, SequenceTrees;
  }

  lemma ElementConvertsIff(g: Graph, t: FieldType, element: Item, depth: nat)
    requires depth <= MAXIMUM_DEPTH
    ensures ElementTree(g, t, element, depth).Some?
       <==> ElementChecks(t, element) && (WithinElement(t, element).Some? ==> Converts(g, WithinElement(t, element).value, depth + 1))
  {
    hide NodeTree, RecordTrees;
  }

  lemma {:induction false} FieldsConvertIff(g: Graph, kind: nat, item: Item, k: nat, depth: nat)
    requires depth <= MAXIMUM_DEPTH && k <= |Fields(g, kind)|
    ensures FieldTrees(g, kind, item, k, depth).Some?
       <==> forall j :: k <= j < |Fields(g, kind)| ==> FieldTree(g, Fields(g, kind)[j], Source(g, kind, item, j), depth).Some?
    decreases |Fields(g, kind)| - k
  {
    hide FieldTree, Fields, Source;
    if k < |Fields(g, kind)| {
      FieldsConvertIff(g, kind, item, k + 1, depth);
    }
  }

  lemma {:induction false} ElementsConvertIff(g: Graph, t: FieldType, elements: seq<Item>, depth: nat)
    requires depth <= MAXIMUM_DEPTH
    ensures ElementTrees(g, t, elements, depth).Some?
       <==> forall k :: 0 <= k < |elements| ==> ElementTree(g, t, elements[k], depth).Some?
    decreases elements
  {
    hide ElementTree;
    if elements != [] {
      ElementsConvertIff(g, t, elements[1..], depth);
      assert forall k :: 0 <= k < |elements[1..]| ==> elements[1..][k] == elements[k + 1];
      assert forall k :: 0 < k < |elements| ==> elements[k] == elements[1..][k - 1];
    }
  }

  /** A conversion succeeds exactly when it is not too deep, its own checks pass
      and every conversion it calls for succeeds one level further down. */
  lemma {:induction false} ConvertsIff(g: Graph, task: Task, depth: nat)
    ensures Converts(g, task, depth)
       <==> depth <= MAXIMUM_DEPTH && Checks(g, task) && forall sub :: Demands(g, task, sub) ==> Converts(g, sub, depth + 1)
  {
    hide FieldTrees, ElementTrees, FieldTree, ElementTree, Fields, Source, Elements, FieldChecks, ElementChecks, Within, WithinElement;
    if depth <= MAXIMUM_DEPTH {
      match task
      case Node(item) => NodeConvertsIff(g, item, depth);
      case Record(kind, item) => RecordConvertsIff(g, kind, item, depth);
      case Sequence(t, items) => SequenceConvertsIff(g, t, items, depth);
    }
  }

  lemma NodeConvertsIff(g: Graph, item: Item, depth: nat)
    requires depth <= MAXIMUM_DEPTH
    ensures Converts(g, Node(item), depth)
       <==> Checks(g, Node(item)) && forall sub :: Demands(g, Node(item), sub) ==> Converts(g, sub, depth + 1)
  {
    hide RecordTrees;
    if item.List? {
      assert Demands(g, Node(item), Record(g.listKind, item));
    } else if item.Object? && item.id in g.objects {
      assert Demands(g, Node(item), Record(g.objects[item.id].kind, item));
    }
  }

  lemma RecordConvertsIff(g: Graph, kind: nat, item: Item, depth: nat)
    requires depth <= MAXIMUM_DEPTH
    ensures Converts(g, Record(kind, item), depth)
       <==> Checks(g, Record(kind, item)) && forall sub :: Demands(g, Record(kind, item), sub) ==> Converts(g, sub, depth + 1)
  {
    hide FieldTrees, FieldTree, Fields, Source, FieldChecks, Within, IsObject, NodeTree, SequenceTrees;
    FieldsConvertIff(g, kind, item, 0, depth);
    forall k | 0 <= k < |Fields(g, kind)|
      ensures FieldTree(g, Fields(g, kind)[k], Source(g, kind, item, k), depth).Some?
         <==> FieldChecks(Fields(g, kind)[k], Source(g, kind, item, k))
              && var sub := Within(Fields(g, kind)[k], Source(g, kind, item, k));
                 (sub.Some? ==> Converts(g, sub.value, depth + 1))
    {
      FieldConvertsIff(g, Fields(g, kind)[k], Source(g, kind, item, k), depth);
    }
    forall k | 0 <= k < |Fields(g, kind)| && Within(Fields(g, kind)[k], Source(g, kind, item, k)).Some?
      ensures Demands(g, Record(kind, item), Within(Fields(g, kind)[k], Source(g, kind, item, k)).value)
    {
      assert FieldDemands(g, kind, item, k, Within(Fields(g, kind)[k], Source(g, kind, item, k)).value);
    }
  }

  lemma SequenceConvertsIff(g: Graph, t: FieldType, items: Item, depth: nat)
    requires depth <= MAXIMUM_DEPTH
    ensures Converts(g, Sequence(t, items), depth)
       <==> Checks(g, Sequence(t, items)) && forall sub :: Demands(g, Sequence(t, items), sub) ==> Converts(g, sub, depth + 1)
  {
    hide ElementTrees, ElementTree, ElementChecks, WithinElement, NodeTree, RecordTrees;
    var elements := Elements(g, items);
    ElementsConvertIff(g, t, elements, depth);
    forall k | 0 <= k < |elements|
      ensures ElementTree(g, t, elements[k], depth).Some?
         <==> ElementChecks(t, elements[k])
              && (WithinElement(t, elements[k]).Some? ==> Converts(g, WithinElement(t, elements[k]).value, depth + 1))
    {
      ElementConvertsIff(g, t, elements[k], depth);
    }
    forall k | 0 <= k < |elements| && WithinElement(t, elements[k]).Some?
      ensures Demands(g, Sequence(t, items), WithinElement(t, elements[k]).value)
    {
      assert ElementDemands(g, t, items, k, WithinElement(t, elements[k]).value);
    }
  }

  /** Each conversion of the chain calls for the next. */
  ghost predicate IsChain(g: Graph, chain: seq<Task>) {
    chain != [] && forall i :: 0 < i < |chain| ==> Demands(g, chain[i - 1], chain[i])
  }

  /** A chain that ends at a failing check, or beyond the bound on the depth. */
  ghost predicate Fatal(g: Graph, chain: seq<Task>, depth: nat) {
    IsChain(g, chain) && (depth + |chain| - 1 > MAXIMUM_DEPTH || !Checks(g, chain[|chain| - 1]))
  }

  lemma {:induction false} FatalIsRefused(g: Graph, chain: seq<Task>, depth: nat)
    requires Fatal(g, chain, depth)
    ensures !Converts(g, chain[0], depth)
    decreases |chain|
  {
    hide Converts, Demands, Checks;
    ConvertsIff(g, chain[0], depth);
    if |chain| > 1 {
      var rest := chain[1..];
      forall i | 0 < i < |rest| ensures Demands(g, rest[i - 1], rest[i]) {
        assert rest[i] == chain[i + 1] && rest[i - 1] == chain[i + 1 - 1];
      }
      FatalIsRefused(g, rest, depth + 1);
      assert Demands(g, chain[1 - 1], chain[1]);
    }
  }

  lemma {:induction false} RefusedIsFatal(g: Graph, task: Task, depth: nat) returns (chain: seq<Task>)
    requires !Converts(g, task, depth)
    ensures Fatal(g, chain, depth) && chain[0] == task
    decreases if depth > MAXIMUM_DEPTH then 0 else MAXIMUM_DEPTH + 1 - depth
  {
    hide Converts, Demands, Checks;
    ConvertsIff(g, task, depth);
    if depth > MAXIMUM_DEPTH || !Checks(g, task) {
      chain := [task];
    } else {
      var sub :| Demands(g, task, sub) && !Converts(g, sub, depth + 1);
      var rest := RefusedIsFatal(g, sub, depth + 1);
      chain := [task] + rest;
      forall i | 0 < i < |chain| ensures Demands(g, chain[i - 1], chain[i]) {
        if i > 1 { assert Demands(g, rest[i - 1 - 1], rest[i - 1]); }
      }
    }
  }

  /** A value is refused exactly when some chain of conversions from it ends at a
      failing check or goes deeper than the bound. */
  lemma {:induction false} RefusedIff(g: Graph, task: Task, depth: nat)
    ensures !Converts(g, task, depth) <==> exists chain :: Fatal(g, chain, depth) && chain[0] == task
  {
    if !Converts(g, task, depth) {
      var chain := RefusedIsFatal(g, task, depth);
    }
    forall chain | Fatal(g, chain, depth) && chain[0] == task ensures !Converts(g, task, depth) {
      FatalIsRefused(g, chain, depth);
    }
  }

  ghost predicate DemandsOneOf(g: Graph, task: Task, tasks: set<Task>) {
    exists sub {:trigger Demands(g, task, sub)} :: sub in tasks && Demands(g, task, sub)
  }

  /** Each of the conversions calls for another one of them. */
  ghost predicate Endless(g: Graph, tasks: set<Task>) {
    forall task {:trigger DemandsOneOf(g, task, tasks)} :: task in tasks ==> DemandsOneOf(g, task, tasks)
  }

  /** So whatever lies on a cycle, through fields, records and lists, or leads
      to one, is refused at every depth. */
  lemma {:induction false} EndlessIsRefused(g: Graph, tasks: set<Task>, task: Task, depth: nat)
    requires Endless(g, tasks) && task in tasks
    ensures !Converts(g, task, depth)
    decreases if depth > MAXIMUM_DEPTH then 0 else MAXIMUM_DEPTH + 1 - depth
  {
    hide Converts, Demands, Checks;
    ConvertsIff(g, task, depth);
    if depth <= MAXIMUM_DEPTH {
      assert DemandsOneOf(g, task, tasks);
      var sub :| sub in tasks && Demands(g, task, sub);
      EndlessIsRefused(g, tasks, sub, depth + 1);
    }
  }
}
