/** Selecting the part of a schema that can be reached from its roots. */
module Schema {

  datatype Option<+T> = None | Some(value: T)

  /** Message and enum names in the order of their declarations, and the type
      names of each message's fields. */
  datatype Schema = Schema(messages: seq<string>, fields: map<string, seq<string>>, enums: seq<string>, scalars: set<string>)

  predicate Valid(s: Schema) {
    (forall name :: name in s.messages ==> name in s.fields) && (forall name :: name in s.fields ==> name in s.messages)
  }

  const ROOTS := ["ParseResult", "Node"]

  predicate Known(s: Schema, typeName: string) {
    typeName in s.fields || typeName in s.enums || typeName in s.scalars
  }

  /** The set holds the roots that are messages and, with a message, every
      message that is the type of one of its fields. */
  ghost predicate Closed(s: Schema, names: set<string>) {
    && ("ParseResult" in s.fields ==> "ParseResult" in names) && ("Node" in s.fields ==> "Node" in names)
    && (forall name, t :: name in names && name in s.fields && t in s.fields[name] && t in s.fields ==> t in names)
  }

  /** In every closed set, so in the least one. */
  ghost predicate Reachable(s: Schema, name: string) {
    name in s.fields && forall names: set<string> :: Closed(s, names) ==> name in names
  }

  ghost predicate EnumReachable(s: Schema, t: string) {
    t in s.enums && t !in s.fields && exists name :: Reachable(s, name) && t in s.fields[name]
  }

  function Select(order: seq<string>, names: set<string>): seq<string> {
    if order == [] then [] else (if order[0] in names then [order[0]] else []) + Select(order[1..], names)
  }

  /** The names selected, each as often and in the order in which it is declared. */
  lemma {:induction false} SelectSelects(order: seq<string>, names: set<string>, name: string)
    ensures name in Select(order, names) <==> name in order && name in names
    decreases order
  {
    if order != [] {
      SelectSelects(order[1..], names, name);
      assert name in order <==> name == order[0] || name in order[1..];
    }
  }

  lemma Regroup(a: seq<string>, b: seq<string>, c: seq<string>, d: seq<string>)
    ensures a + (b + c + d) == (a + b) + c + d
  {
  }

  /** Whatever stands at a place of the declarations stands, if it is selected,
      after all that is selected before it and before all that is after it. */
  lemma {:induction false} SelectAround(order: seq<string>, names: set<string>, i: nat)
    requires i < |order|
    ensures Select(order, names)
         == Select(order[..i], names) + (if order[i] in names then [order[i]] else []) + Select(order[i + 1..], names)
    decreases order
  {
    var middle := if order[i] in names then [order[i]] else [];
    if i == 0 {
      assert order[..0] == [];
      assert [] + middle == middle;
    } else {
      var first := if order[0] in names then [order[0]] else [];
      SelectAround(order[1..], names, i - 1);
      assert order[1..][..i - 1] == order[..i][1..] && order[1..][i..] == order[i + 1..];
      assert order[1..][i - 1] == order[i] && order[..i][0] == order[0];
      Regroup(first, Select(order[..i][1..], names), middle, Select(order[i + 1..], names));
    }
  }

  /** What the worklist has established. */
  ghost predicate Progress(s: Schema, messages: set<string>, enums: set<string>, pending: seq<string>) {
    && (forall name :: name in messages ==> Reachable(s, name))
    && (forall name :: name in pending && name in s.fields ==> Reachable(s, name))
    && (forall root :: root in ROOTS && root in s.fields ==> root in messages || root in pending)
    && (forall name, t :: name in messages && t in s.fields[name] ==>
          && Known(s, t)
          && (t in s.fields ==> t in messages || t in pending)
          && (t in s.enums && t !in s.fields ==> t in enums))
    && (forall t :: t in enums ==> EnumReachable(s, t))
  }

  lemma FieldIsReachable(s: Schema, name: string, t: string)
    requires Reachable(s, name) && t in s.fields[name] && t in s.fields
    ensures Reachable(s, t)
  {
  }

  lemma RootIsReachable(s: Schema, root: string)
    requires root in ROOTS && root in s.fields
    ensures Reachable(s, root)
  {
  }

  /** The fields of one message: the messages still to be looked at and the
      enums they name; none if a type is unknown. */
  method ScanFields(s: Schema, name: string, pending: seq<string>, enums: set<string>)
    returns (result: Option<(seq<string>, set<string>)>)
    requires name in s.fields
    ensures result.Some? <==> forall t :: t in s.fields[name] ==> Known(s, t)
    ensures result.Some? ==>
              var (queue, found) := result.value;
              && (forall m :: m in queue <==> m in pending || (m in s.fields[name] && m in s.fields))
              && (forall e :: e in found <==> e in enums || (e in s.fields[name] && e !in s.fields && e in s.enums))
  {
    var queue, found := pending, enums;
    var fields := s.fields[name];
    for k := 0 to |fields|
      invariant forall t :: t in fields[..k] ==> Known(s, t)
      invariant forall m :: m in queue <==> m in pending || (m in fields[..k] && m in s.fields)
      invariant forall e :: e in found <==> e in enums || (e in fields[..k] && e !in s.fields && e in s.enums)
    {
      var t := fields[k];
      assert fields[..k + 1] == fields[..k] + [t];
      if t in s.fields {
        queue := queue + [t];
      } else if t in s.enums {
        found := found + {t};
      } else if t !in s.scalars {
        assert t in fields && !Known(s, t);
        return None;
      }
    }
    assert fields[..|fields|] == fields;
    return Some((queue, found));
  }

  /** The messages and enums that can be reached, in the order of their
      declarations; nothing when a field that can be reached has an unknown type. */
  method ReachableSchema(s: Schema) returns (result: Option<(seq<string>, seq<string>)>)
    requires Valid(s)
    ensures result.None? <==> exists name, t :: Reachable(s, name) && t in s.fields[name] && !Known(s, t)
    ensures result.Some? ==>
              && (forall name :: name in result.value.0 <==> Reachable(s, name))
              && (forall t :: t in result.value.1 <==> EnumReachable(s, t))
              && (exists m: set<string>, e: set<string> :: result.value == (Select(s.messages, m), Select(s.enums, e)))
  {
    hide Reachable, EnumReachable, Closed;
    var messages: set<string>, enums: set<string> := {}, {};
    var pending := ROOTS;
    forall root | root in ROOTS && root in s.fields ensures Reachable(s, root) { RootIsReachable(s, root); }
    while pending != []
      invariant messages <= s.fields.Keys && Progress(s, messages, enums, pending)
      decreases s.fields.Keys - messages, |pending|
    {
      var name := pending[0];
      assert pending == [name] + pending[1..];
      pending := pending[1..];
      if name !in messages && name in s.fields {
        var scanned := ScanFields(s, name, pending, enums);
        if scanned.None? {
          return None;
        }
        ProgressNext(s, messages, enums, pending, name, scanned.value.0, scanned.value.1);
        messages, pending, enums := messages + {name}, scanned.value.0, scanned.value.1;
      }
    }
    AllReached(s, messages, enums);
    forall name ensures name in Select(s.messages, messages) <==> Reachable(s, name) {
      SelectSelects(s.messages, messages, name);
      ReachableIsMessage(s, name);
    }
    forall t ensures t in Select(s.enums, enums) <==> EnumReachable(s, t) {
      SelectSelects(s.enums, enums, t);
      ReachableEnumIsEnum(s, t);
    }
    return Some((Select(s.messages, messages), Select(s.enums, enums)));
  }

  lemma ReachableIsMessage(s: Schema, name: string)
    ensures Reachable(s, name) ==> name in s.fields
  {
  }

  lemma ReachableEnumIsEnum(s: Schema, t: string)
    ensures EnumReachable(s, t) ==> t in s.enums
  {
  }

  lemma ProgressNext(s: Schema, messages: set<string>, enums: set<string>, pending: seq<string>, name: string,
                     queue: seq<string>, found: set<string>)
    requires Progress(s, messages, enums, [name] + pending) && name in s.fields && messages <= s.fields.Keys
    requires forall t :: t in s.fields[name] ==> Known(s, t)
    requires forall m :: m in queue <==> m in pending || (m in s.fields[name] && m in s.fields)
    requires forall e :: e in found <==> e in enums || (e in s.fields[name] && e !in s.fields && e in s.enums)
    ensures Progress(s, messages + {name}, found, queue)
  {
    hide Reachable, Closed;
    assert name in [name] + pending;
    forall m | m in s.fields[name] && m in s.fields ensures Reachable(s, m) { FieldIsReachable(s, name, m); }
  }

  /** Once nothing is pending, the messages found are the least closed set. */
  lemma AllReached(s: Schema, messages: set<string>, enums: set<string>)
    requires messages <= s.fields.Keys && Progress(s, messages, enums, [])
    ensures forall name :: Reachable(s, name) <==> name in messages
    ensures forall t :: EnumReachable(s, t) <==> t in enums
    ensures forall name, t :: Reachable(s, name) && t in s.fields[name] ==> Known(s, t)
  {
    assert Closed(s, messages);
  }

  /** No field selected points outside the selection. */
  lemma SelectionIsClosed(s: Schema, name: string, t: string)
    requires Reachable(s, name) && t in s.fields[name]
    ensures t in s.fields ==> Reachable(s, t)
    ensures t !in s.fields && t in s.enums ==> EnumReachable(s, t)
  {
  }
}
