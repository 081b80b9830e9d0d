/** C member chains and what they are lowered to. PostgreSQL embeds structs and
    unions with `.`; the builder keeps their leaves in the enclosing object,
    under dotted names. */
module Members {
  import opened Builders

  /** A chain of members on a variable. */
  datatype Expr = Variable | Dot(base: Expr, name: string) | Arrow(base: Expr, name: string)

  predicate ValidName(name: string) {
    name != "" && '.' !in name
  }

  predicate ValidNames(e: Expr) {
    match e
    case Variable => true
    case Dot(base, name) => ValidName(name) && ValidNames(base)
    case Arrow(base, name) => ValidName(name) && ValidNames(base)
  }

  predicate ValidPath(path: seq<string>) {
    path != [] && forall name :: name in path ==> ValidName(name)
  }

  function Join(path: seq<string>): string {
    if path == [] then "" else if |path| == 1 then path[0] else path[0] + "." + Join(path[1..])
  }

  // -------------------------------------------------------------------- in C

  /** Objects, each with its scalar leaves under their paths. */
  type Heap = map<nat, map<seq<string>, Value>>

  datatype Place = Held(value: Value) | At(owner: nat, path: seq<string>)

  datatype Option<+T> = None | Some(value: T)

  function Load(h: Heap, place: Place): Value {
    match place
    case Held(value) => value
    case At(o, path) => if o in h && path in h[o] then h[o][path] else NoValue
  }

  function Store(h: Heap, o: nat, path: seq<string>, value: Value): Heap
    requires o in h
  {
    h[o := h[o][path := value]]
  }

  /** What an expression denotes. `semantic` marks a variable of the parser's
      stack, whose first member only selects a view of the value. Nothing is
      denoted when a pointer that is followed points nowhere. */
  function Locate(h: Heap, semantic: bool, v: Value, e: Expr): Option<Place> {
    match e
    case Variable => Some(Held(v))
    case Dot(base, name) =>
      if semantic && base.Variable? then Some(Held(v))
      else (match Locate(h, semantic, v, base)
            case Some(At(o, path)) => Some(At(o, path + [name]))
            case Some(Held(Object(o))) => if o in h then Some(At(o, [name])) else None
            case _ => None)
    case Arrow(base, name) =>
      if semantic && base.Variable? then Some(Held(v))
      else match Locate(h, semantic, v, base)
        case Some(place) =>
          var pointer := Load(h, place);
          if pointer.Object? && pointer.index in h then Some(At(pointer.index, [name])) else None
        case None => None
  }

  // ------------------------------------------------------------- as lowered

  /** The object of a lowered access: the variable, or a field that is read. */
  datatype Target = Base | FieldRead(target: Target, name: string)

  function Extend(target: Target, path: seq<string>, name: string, isArrow: bool): (Target, seq<string>) {
    if isArrow && path != [] then (FieldRead(target, Join(path)), [name]) else (target, path + [name])
  }

  function Lower(semantic: bool, e: Expr): (Target, seq<string>) {
    match e
    case Variable => (Base, [])
    case Dot(base, name) =>
      if semantic && base.Variable? then (Base, [])
      else var (target, path) := Lower(semantic, base); Extend(target, path, name, false)
    case Arrow(base, name) =>
      if semantic && base.Variable? then (Base, [])
      else var (target, path) := Lower(semantic, base); Extend(target, path, name, true)
  }

  type Member = (string, bool)

  function Chain(e: Expr): seq<Member> {
    match e
    case Variable => []
    case Dot(base, name) => Chain(base) + [(name, false)]
    case Arrow(base, name) => Chain(base) + [(name, true)]
  }

  function LowerChain(members: seq<Member>): (Target, seq<string>) {
    if members == [] then (Base, [])
    else
      var (target, path) := LowerChain(members[..|members| - 1]);
      var (name, isArrow) := members[|members| - 1];
      Extend(target, path, name, isArrow)
  }

  lemma {:induction false} LowerIsLowerChain(semantic: bool, e: Expr)
    ensures Lower(semantic, e) == LowerChain(if semantic && !e.Variable? then Chain(e)[1..] else Chain(e))
    ensures Chain(e) == [] <==> e.Variable?
  {
    if !e.Variable? {
      LowerIsLowerChain(semantic, e.base);
      var front, last := Chain(e.base), Chain(e)[|Chain(e)| - 1];
      assert Chain(e) == front + [last] && Chain(e)[..|Chain(e)| - 1] == front;
      if semantic && !e.base.Variable? {
        assert Chain(e)[1..] == front[1..] + [last];
        assert (front[1..] + [last])[..|front| - 1] == front[1..];
      } else if semantic {
        assert Chain(e)[1..] == [];
      }
    }
  }

  /** Collects the members from the outermost in, and lowers them from the
      innermost out. */
  method MemberTarget(e: Expr, semantic: bool) returns (target: Target, path: seq<string>)
    ensures (target, path) == Lower(semantic, e)
  {
    var members: seq<Member> := [];
    var current := e;
    while !current.Variable?
      invariant Chain(e) == Chain(current) + Reversed(members)
      decreases current
    {
      ReversedAppend(members, (current.name, current.Arrow?));
      members := members + [(current.name, current.Arrow?)];
      current := current.base;
    }
    var ordered := Reversed(members);
    assert Chain(e) == ordered;
    LowerIsLowerChain(semantic, e);
    if semantic && ordered != [] {
      ordered := ordered[1..];
    }
    target, path := LowerMembers(ordered);
  }

  method LowerMembers(ordered: seq<Member>) returns (target: Target, path: seq<string>)
    ensures (target, path) == LowerChain(ordered)
  {
    target, path := Base, [];
    for k := 0 to |ordered|
      invariant (target, path) == LowerChain(ordered[..k])
    {
      LowerNext(ordered, k);
      var (name, isArrow) := ordered[k];
      if isArrow && path != [] {
        target, path := FieldRead(target, Join(path)), [];
      }
      path := path + [name];
    }
    assert ordered[..|ordered|] == ordered;
  }

  lemma LowerNext(ordered: seq<Member>, k: nat)
    requires k < |ordered|
    ensures var (target, path) := LowerChain(ordered[..k]);
            LowerChain(ordered[..k + 1]) == Extend(target, path, ordered[k].0, ordered[k].1)
    ensures [] + [ordered[k].0] == [ordered[k].0]
  {
    var front := ordered[..k + 1];
    assert front[..|front| - 1] == ordered[..k] && front[|front| - 1] == ordered[k];
  }

  function Reversed(members: seq<Member>): seq<Member> {
    if members == [] then [] else Reversed(members[1..]) + [members[0]]
  }

  lemma {:induction false} ReversedAppend(members: seq<Member>, m: Member)
    ensures Reversed(members + [m]) == [m] + Reversed(members)
    decreases members
  {
    if members == [] {
      assert [m][1..] == [];
    } else {
      assert (members + [m])[1..] == members[1..] + [m];
      ReversedAppend(members[1..], m);
    }
  }

  // --------------------------------------------------------- in the builder

  datatype Obj = Obj(typeName: string, fields: Fields)

  type Image = map<nat, Obj>

  function FieldValue(b: Image, item: Value, name: string): Value {
    if item.Object? && item.index in b then FieldOf(b[item.index].typeName, item.index, b[item.index].fields, name)
    else NoValue
  }

  function Eval(b: Image, v: Value, t: Target): Value {
    match t
    case Base => v
    case FieldRead(target, name) => FieldValue(b, Eval(b, v, target), name)
  }

  /** The lowered read. */
  function Read(b: Image, v: Value, t: Target, path: seq<string>): Value {
    if path == [] then Eval(b, v, t) else FieldValue(b, Eval(b, v, t), Join(path))
  }

  /** The lowered store. */
  function Set(b: Image, o: nat, name: string, value: Value): Image
    requires o in b
  {
    b[o := b[o].(fields := b[o].fields[name := value])]
  }

  /** Every leaf of the heap is a field of the builder's object, under its
      dotted name, and every field is a leaf. */
  ghost predicate Represents(h: Heap, b: Image) {
    && h.Keys == b.Keys
    && (forall o, path :: o in h && path in h[o] ==>
          ValidPath(path) && Join(path) in b[o].fields && b[o].fields[Join(path)] == h[o][path])
    && (forall o, path :: o in h && ValidPath(path) && Join(path) in b[o].fields ==> path in h[o])
  }

  /** Whether reading a field of an object finds that field or nothing: it is
      there, or no union member of the builder's own stands in for it. */
  predicate ReadsItself(obj: Obj, name: string) {
    || name in obj.fields
    || (&& !(obj.typeName == "A_Const" && name == "val.node")
        && (obj.typeName == "Integer" && name == "val.ival" ==> "ival" !in obj.fields || obj.fields["ival"] == NoValue)
        && (obj.typeName == "String" && name == "val.str" ==> "sval" !in obj.fields || obj.fields["sval"] == NoValue))
  }

  // ------------------------------------------------------------ dotted names

  function Split(name: string): (string, string)
  {
    if name == "" then ("", "")
    else if name[0] == '.' then ("", name)
    else var (first, rest) := Split(name[1..]); ([name[0]] + first, rest)
  }

  lemma {:induction false} SplitFirst(first: string, rest: string)
    requires '.' !in first && (rest == "" || rest[0] == '.')
    ensures Split(first + rest) == (first, rest)
    decreases first
  {
    if first == "" {
      assert first + rest == rest;
    } else {
      assert first[0] in first && (first + rest)[0] == first[0];
      assert (first + rest)[1..] == first[1..] + rest;
      SplitFirst(first[1..], rest);
      assert [first[0]] + first[1..] == first;
    }
  }

  lemma SplitJoin(path: seq<string>)
    requires ValidPath(path)
    ensures Split(Join(path)) == (path[0], if |path| == 1 then "" else "." + Join(path[1..]))
  {
    var rest := if |path| == 1 then "" else "." + Join(path[1..]);
    assert path[0] in path;
    SplitFirst(path[0], rest);
    assert Join(path) == path[0] + rest;
  }

  /** Different paths have different dotted names. */
  lemma {:induction false} JoinIsInjective(p: seq<string>, q: seq<string>)
    requires ValidPath(p) && ValidPath(q) && Join(p) == Join(q)
    ensures p == q
    decreases p
  {
    SplitJoin(p);
    SplitJoin(q);
    if |p| > 1 && |q| > 1 {
      assert ("." + Join(p[1..]))[1..] == Join(p[1..]) && ("." + Join(q[1..]))[1..] == Join(q[1..]);
      JoinIsInjective(p[1..], q[1..]);
      assert p == [p[0]] + p[1..] && q == [q[0]] + q[1..];
    } else {
      assert p == [p[0]] && q == [q[0]];
    }
  }

  // --------------------------------------------------------------- theorems

  /** A leaf that was stored is read back; reading any other leaf gives
      nothing, as in C, exactly when nothing stands in for it. */
  lemma LeafReads(h: Heap, b: Image, o: nat, path: seq<string>)
    requires Represents(h, b) && o in h && ValidPath(path)
    ensures path in h[o] ==> FieldValue(b, Object(o), Join(path)) == h[o][path] && ReadsItself(b[o], Join(path))
    ensures FieldValue(b, Object(o), Join(path)) == Load(h, At(o, path)) <==> ReadsItself(b[o], Join(path))
  {
  }

  /** What the lowered target and path denote is what the C expression
      denotes: the same object and path, or the same value. The pointers it
      follows were all stored, so no read on the way falls back on an alias. */
  predicate Denotes(b: Image, v: Value, t: Target, path: seq<string>, place: Place) {
    match place
    case Held(value) => path == [] && Eval(b, v, t) == value
    case At(o, p) => path == p && ValidPath(p) && Eval(b, v, t) == Object(o)
  }

  lemma {:induction false} LoweringDenotes(h: Heap, b: Image, semantic: bool, v: Value, e: Expr)
    requires Represents(h, b) && ValidNames(e) && Locate(h, semantic, v, e).Some?
    ensures var (t, path) := Lower(semantic, e);
            Denotes(b, v, t, path, Locate(h, semantic, v, e).value)
            && (Locate(h, semantic, v, e).value.At? ==> Locate(h, semantic, v, e).value.owner in h)
  {
    if !e.Variable? && !(semantic && e.base.Variable?) {
      LoweringDenotes(h, b, semantic, v, e.base);
      var place := Locate(h, semantic, v, e.base).value;
      if place.At? {
        LeafReads(h, b, place.owner, place.path);
      }
    }
  }

  /** The lowered read gives the value that C reads exactly when the leaf at
      the end of the chain, if it is one, has been stored or is stood in for by
      nothing. */
  lemma LoweredReadIsReadIff(h: Heap, b: Image, semantic: bool, v: Value, e: Expr)
    requires Represents(h, b) && ValidNames(e) && Locate(h, semantic, v, e).Some?
    ensures var (t, path) := Lower(semantic, e);
            var place := Locate(h, semantic, v, e).value;
            Read(b, v, t, path) == Load(h, place)
            <==> (place.At? ==> place.owner in b && ReadsItself(b[place.owner], Join(path)))
  {
    LoweringDenotes(h, b, semantic, v, e);
    var place := Locate(h, semantic, v, e).value;
    if place.At? {
      LeafReads(h, b, place.owner, place.path);
    }
  }

  /** So every leaf that was stored is read back. */
  lemma LoweredReadIsRead(h: Heap, b: Image, semantic: bool, v: Value, e: Expr)
    requires Represents(h, b) && ValidNames(e) && Locate(h, semantic, v, e).Some?
    requires var place := Locate(h, semantic, v, e).value;
             place.At? ==> place.owner in h && place.path in h[place.owner]
    ensures var (t, path) := Lower(semantic, e);
            Read(b, v, t, path) == Load(h, Locate(h, semantic, v, e).value)
  {
    LoweringDenotes(h, b, semantic, v, e);
    var place := Locate(h, semantic, v, e).value;
    if place.At? {
      LeafReads(h, b, place.owner, place.path);
    }
  }

  /** The tag of a constant whose union holds nothing yet reads as the constant. */
  lemma FreshConstantReadsItself() returns (h: Heap, b: Image, v: Value, e: Expr)
    ensures Represents(h, b) && ValidNames(e) && Locate(h, false, v, e).Some?
    ensures var (t, path) := Lower(false, e);
            Read(b, v, t, path) == v != NoValue && Load(h, Locate(h, false, v, e).value) == NoValue
  {
    h, b, v, e := map[1 := map[]], map[1 := Obj("A_Const", map[])], Object(1), Dot(Arrow(Variable, "val"), "node");
    assert [] + ["val"] == ["val"] && ["val"] + ["node"] == ["val", "node"];
    assert Lower(false, e.base) == (Base, ["val"]);
    assert Lower(false, e) == (Base, ["val", "node"]);
    var path := ["val", "node"];
    assert path[1..] == ["node"] && Join(path) == path[0] + "." + Join(path[1..]);
    assert Join(path) == "val.node";
    assert Locate(h, false, v, e.base) == Some(At(1, ["val"]));
  }

  lemma {:induction false} SetRepresentsStore(h: Heap, b: Image, o: nat, path: seq<string>, value: Value)
    requires Represents(h, b) && o in h && ValidPath(path)
    ensures Represents(Store(h, o, path, value), Set(b, o, Join(path), value))
  {
    hide Join, ValidPath;
    var h', b' := Store(h, o, path, value), Set(b, o, Join(path), value);
    forall p | ValidPath(p) && Join(p) == Join(path) ensures p == path {
      JoinIsInjective(p, path);
    }
    forall k, p | k in h' && p in h'[k]
      ensures ValidPath(p) && Join(p) in b'[k].fields && b'[k].fields[Join(p)] == h'[k][p]
    {
      if k != o { assert h'[k] == h[k]; } else if p != path { assert p in h[o]; }
    }
    forall k, p | k in h' && ValidPath(p) && Join(p) in b'[k].fields ensures p in h'[k] {
      if k == o && p != path { assert Join(p) in b[o].fields; }
    }
  }

  /** The lowered store yields the image of the heap after the C store. */
  lemma {:induction false} LoweredStoreIsStore(h: Heap, b: Image, semantic: bool, v: Value, e: Expr, value: Value)
    requires Represents(h, b) && ValidNames(e)
    requires Locate(h, semantic, v, e).Some? && Locate(h, semantic, v, e).value.At?
    ensures var (t, path) := Lower(semantic, e);
            var place := Locate(h, semantic, v, e).value;
            && Eval(b, v, t) == Object(place.owner) && place.owner in h && place.owner in b
            && Represents(Store(h, place.owner, place.path, value), Set(b, place.owner, Join(path), value))
  {
    LoweringDenotes(h, b, semantic, v, e);
    var place := Locate(h, semantic, v, e).value;
    SetRepresentsStore(h, b, place.owner, place.path, value);
  }

  // ------------------------------------------------------------------ chains

  /** `base.p.q.r` */
  function Along(base: Expr, path: seq<string>): Expr {
    if path == [] then base else Dot(Along(base, path[..|path| - 1]), path[|path| - 1])
  }

  /** `base->p.q->r.s`: each path is entered through a pointer. */
  function Follow(base: Expr, paths: seq<seq<string>>): Expr
    requires forall i :: 0 <= i < |paths| ==> paths[i] != []
  {
    if paths == [] then base
    else
      var last := paths[|paths| - 1];
      Along(Arrow(Follow(base, paths[..|paths| - 1]), last[0]), last[1..])
  }

  /** One read of the builder for each path. */
  function ReadEach(b: Image, v: Value, paths: seq<seq<string>>): Value {
    if paths == [] then v else FieldValue(b, ReadEach(b, v, paths[..|paths| - 1]), Join(paths[|paths| - 1]))
  }

  lemma {:induction false} LowerAlong(semantic: bool, base: Expr, path: seq<string>)
    requires semantic ==> !base.Variable?
    ensures Lower(semantic, Along(base, path)) == (Lower(semantic, base).0, Lower(semantic, base).1 + path)
    ensures semantic ==> !Along(base, path).Variable?
    decreases path
  {
    if path == [] {
      assert Lower(semantic, base).1 + path == Lower(semantic, base).1;
    } else {
      var front, last := path[..|path| - 1], path[|path| - 1];
      LowerAlong(semantic, base, front);
      assert front + [last] == path;
      assert (Lower(semantic, base).1 + front) + [last] == Lower(semantic, base).1 + path;
    }
  }

  lemma {:induction false} LowerFollow(b: Image, v: Value, semantic: bool, base: Expr, paths: seq<seq<string>>)
    requires Lower(semantic, base) == (Base, []) && (semantic ==> !base.Variable?)
    requires forall i :: 0 <= i < |paths| ==> paths[i] != []
    ensures var (t, path) := Lower(semantic, Follow(base, paths));
            if paths == [] then t == Base && path == []
            else path == paths[|paths| - 1] && Eval(b, v, t) == ReadEach(b, v, paths[..|paths| - 1])
    ensures semantic ==> !Follow(base, paths).Variable?
    decreases paths
  {
    if paths != [] {
      var front, last := paths[..|paths| - 1], paths[|paths| - 1];
      LowerFollow(b, v, semantic, base, front);
      var arrow := Arrow(Follow(base, front), last[0]);
      LowerAlong(semantic, arrow, last[1..]);
      assert [] + [last[0]] == [last[0]];
      assert [last[0]] + last[1..] == last;
    }
  }

  /** A chain on a variable reads the builder once for each pointer followed;
      on a variable of the parser's stack its first member, which selects a
      view, is no read. */
  lemma LoweredChainReads(b: Image, v: Value, view: string, paths: seq<seq<string>>)
    requires forall i :: 0 <= i < |paths| ==> paths[i] != []
    ensures var (t, path) := Lower(false, Follow(Variable, paths)); Read(b, v, t, path) == ReadEach(b, v, paths)
    ensures var (t, path) := Lower(true, Follow(Dot(Variable, view), paths)); Read(b, v, t, path) == ReadEach(b, v, paths)
    ensures var (t, path) := Lower(true, Follow(Arrow(Variable, view), paths)); Read(b, v, t, path) == ReadEach(b, v, paths)
  {
    LowerFollow(b, v, false, Variable, paths);
    LowerFollow(b, v, true, Dot(Variable, view), paths);
    LowerFollow(b, v, true, Arrow(Variable, view), paths);
  }

  // -------------------------------------------------------- on the real lists

  predicate IsNumber(n: nat, count: nat) {
    1 <= n <= count
  }

  ghost function ImageFrom(objects: seq<ObjectEntry>, members: seq<MemberEntry>, owner: seq<nat>): Image
    requires Wellformed(objects, members, owner)
  {
    map n | 1 <= n <= |objects| && IsNumber(n, |objects|) :: n := Obj(objects[n - 1].typeName, FieldsOf(objects, members, owner, n - 1))
  }

  ghost function ImageOf(builder: Builder): (b: Image)
    requires builder.Valid()
    reads builder
  {
    ImageFrom(builder.objects, builder.members, builder.owner)
  }

  lemma ImageHas(builder: Builder)
    requires builder.Valid()
    ensures forall n: nat :: n in ImageOf(builder) <==> IsNumber(n, |builder.objects|)
    ensures forall n: nat :: n in ImageOf(builder) ==>
              ImageOf(builder)[n] == Obj(builder.objects[n - 1].typeName, builder.FieldsAt(n - 1))
  {
  }

  /** Evaluates a lowered target. */
  method Evaluate(builder: Builder, v: Value, t: Target) returns (value: Value)
    requires builder.Valid()
    ensures value == Eval(ImageOf(builder), v, t)
    decreases t
  {
    hide Wellformed, FieldsOf, ImageFrom, FieldOf;
    ImageHas(builder);
    match t
    case Base => return v;
    case FieldRead(target, name) =>
      var item := Evaluate(builder, v, target);
      if item.Object? && item.index <= |builder.objects| {
        value := builder.Field(item, name);
      } else {
        value := NoValue;
      }
  }

  /** The image after field `name` of object `o`, and no other, has changed. */
  lemma {:induction false} ImageAfterSet(objects: seq<ObjectEntry>, members: seq<MemberEntry>, owner: seq<nat>,
                                         objects': seq<ObjectEntry>, members': seq<MemberEntry>, owner': seq<nat>,
                                         o: nat, name: string, value: Value)
    requires Wellformed(objects, members, owner) && Wellformed(objects', members', owner')
    requires |objects'| == |objects| && o < |objects|
    requires forall k :: 0 <= k < |objects| ==>
               && objects'[k].typeName == objects[k].typeName
               && FieldsOf(objects', members', owner', k)
                  == if k == o then FieldsOf(objects, members, owner, o)[name := value] else FieldsOf(objects, members, owner, k)
    ensures o + 1 in ImageFrom(objects, members, owner)
    ensures ImageFrom(objects', members', owner') == Set(ImageFrom(objects, members, owner), o + 1, name, value)
  {
    hide Wellformed, FieldsOf;
    var before, after := ImageFrom(objects, members, owner), ImageFrom(objects', members', owner');
    assert IsNumber(o + 1, |objects|);
    forall n | n in before
      ensures n in after && after[n] == Set(before, o + 1, name, value)[n]
    {
      assert IsNumber(n, |objects|) && objects'[n - 1].typeName == objects[n - 1].typeName;
    }
  }

  /** Runs a lowered store whose C counterpart is defined. */
  method RunStore(builder: Builder, v: Value, t: Target, path: seq<string>, value: Value, ghost h: Heap,
                  semantic: bool, e: Expr)
    requires builder.Valid() && Represents(h, ImageOf(builder)) && ValidNames(e)
    requires Locate(h, semantic, v, e).Some? && Locate(h, semantic, v, e).value.At?
    requires (t, path) == Lower(semantic, e)
    modifies builder
    ensures builder.Valid()
    ensures var place := Locate(h, semantic, v, e).value;
            place.owner in h && Represents(Store(h, place.owner, place.path, value), ImageOf(builder))
  {
    hide Represents, Locate, Lower, Wellformed, FieldsOf, ImageFrom;
    LoweredStoreIsStore(h, ImageOf(builder), semantic, v, e, value);
    ImageHas(builder);
    ghost var o := Locate(h, semantic, v, e).value.owner - 1;
    var item := Evaluate(builder, v, t);
    var outcome := builder.SetField(item, Join(path), value);
    ImageAfterSet(old(builder.objects), old(builder.members), old(builder.owner),
                  builder.objects, builder.members, builder.owner, o, Join(path), value);
  }
}
