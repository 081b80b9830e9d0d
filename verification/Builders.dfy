/** The dynamic objects that lowered grammar actions build: named fields in
    linked lists, the lists' entries in one growing vector. */
module Builders {

  /** `No_Value`, a reference to an object, or anything else by number. */
  datatype Value = NoValue | Object(index: nat) | Scalar(code: int)

  datatype ObjectEntry = ObjectEntry(typeName: string, firstMember: nat, lastMember: nat)

  datatype MemberEntry = MemberEntry(name: string, value: Value, next: nat)

  datatype Outcome = Done | ConstraintError

  /** The fields of the builder's objects, by number and name; 0 is no object. */
  type Fields = map<string, Value>

  function Lookup(fields: Fields, name: string): Value {
    if name in fields then fields[name] else NoValue
  }

  /** The protobuf-facing name under which a scalar node keeps a union member,
      and whether the containing value itself stands for the member. */
  function Alias(typeName: string, name: string): string {
    if typeName == "Integer" && name == "val.ival" then "ival"
    else if typeName == "String" && name == "val.str" then "sval"
    else name
  }

  predicate IsTagAlias(typeName: string, name: string) {
    typeName == "A_Const" && name == "val.node"
  }

  /** What reading a field of an object gives. */
  function FieldOf(typeName: string, index: nat, fields: Fields, name: string): Value {
    if name in fields then fields[name]
    else if IsTagAlias(typeName, name) then Object(index)
    else Lookup(fields, Alias(typeName, name))
  }

  /** A field that an object holds reads as what it holds; of those it does not
      hold, a PostgreSQL 14 action may read three under the C member's name. */
  lemma FieldByName(typeName: string, index: nat, fields: Fields, name: string)
    ensures name in fields ==> FieldOf(typeName, index, fields, name) == fields[name]
    ensures name !in fields ==>
              FieldOf(typeName, index, fields, name)
              == if typeName == "Integer" && name == "val.ival" && "ival" in fields then fields["ival"]
                 else if typeName == "String" && name == "val.str" && "sval" in fields then fields["sval"]
                 else if typeName == "A_Const" && name == "val.node" then Object(index)
                 else NoValue
  {
  }

  // ------------------------------------------------------- lists of members

  /** Entries are numbered from 1, and each points at a later one or at none. */
  predicate Forward(members: seq<MemberEntry>) {
    forall i :: 0 <= i < |members| ==> members[i].next == 0 || i + 1 < members[i].next <= |members|
  }

  predicate IsCursor(members: seq<MemberEntry>, cursor: nat) {
    cursor <= |members| && Forward(members)
  }

  /** The fields of the list that begins at `cursor`; the first entry of a name counts. */
  function FieldsFrom(members: seq<MemberEntry>, cursor: nat): Fields
    requires IsCursor(members, cursor)
    decreases if cursor == 0 then 0 else |members| + 1 - cursor
  {
    if cursor == 0 then map[]
    else
      var m := members[cursor - 1];
      FieldsFrom(members, m.next)[m.name := m.value]
  }

  /** The first entry with the name, or 0. */
  function Find(members: seq<MemberEntry>, cursor: nat, name: string): (m: nat)
    requires IsCursor(members, cursor)
    ensures m <= |members| && (m > 0 ==> members[m - 1].name == name)
    decreases if cursor == 0 then 0 else |members| + 1 - cursor
  {
    if cursor == 0 || members[cursor - 1].name == name then cursor
    else Find(members, members[cursor - 1].next, name)
  }

  function LastFrom(members: seq<MemberEntry>, cursor: nat): (m: nat)
    requires IsCursor(members, cursor)
    ensures m <= |members| && (m == 0 <==> cursor == 0) && (m > 0 ==> cursor <= m && members[m - 1].next == 0)
    decreases if cursor == 0 then 0 else |members| + 1 - cursor
  {
    if cursor == 0 || members[cursor - 1].next == 0 then cursor else LastFrom(members, members[cursor - 1].next)
  }

  /** The list of a cursor lies within the entries that `owner` gives to `o`. */
  predicate Owned(members: seq<MemberEntry>, owner: seq<nat>) {
    && |owner| == |members|
    && forall i :: 0 <= i < |members| && 0 < members[i].next <= |members| ==> owner[members[i].next - 1] == owner[i]
  }

  lemma {:induction false} FindFinds(members: seq<MemberEntry>, cursor: nat, name: string)
    requires IsCursor(members, cursor)
    ensures var m := Find(members, cursor, name);
            var fields := FieldsFrom(members, cursor);
            (m > 0 <==> name in fields) && (m > 0 ==> fields[name] == members[m - 1].value)
    decreases if cursor == 0 then 0 else |members| + 1 - cursor
  {
    if cursor > 0 && members[cursor - 1].name != name {
      FindFinds(members, members[cursor - 1].next, name);
    }
  }

  /** Replacing the value of the first entry with a name replaces that field. */
  lemma {:induction false} ReplaceSets(members: seq<MemberEntry>, cursor: nat, name: string, value: Value)
    requires IsCursor(members, cursor) && Find(members, cursor, name) > 0
    ensures var m := Find(members, cursor, name);
            var after := members[m - 1 := members[m - 1].(value := value)];
            IsCursor(after, cursor) && FieldsFrom(after, cursor) == FieldsFrom(members, cursor)[name := value]
    decreases |members| + 1 - cursor
  {
    var m := Find(members, cursor, name);
    var after := members[m - 1 := members[m - 1].(value := value)];
    var next := members[cursor - 1].next;
    if members[cursor - 1].name == name {
      UntouchedBefore(members, after, next, cursor);
    } else {
      ReplaceSets(members, next, name, value);
      assert after[cursor - 1] == members[cursor - 1];
    }
  }

  /** A list that begins after the only entry changed is not changed. */
  lemma {:induction false} UntouchedBefore(members: seq<MemberEntry>, after: seq<MemberEntry>, cursor: nat, m: nat)
    requires IsCursor(members, cursor) && IsCursor(after, cursor) && |after| == |members| && (cursor == 0 || m < cursor)
    requires forall k :: m <= k < |members| ==> after[k] == members[k]
    ensures FieldsFrom(after, cursor) == FieldsFrom(members, cursor)
    decreases if cursor == 0 then 0 else |members| + 1 - cursor
  {
    if cursor > 0 {
      UntouchedBefore(members, after, members[cursor - 1].next, m);
    }
  }

  /** Nor is one whose entries all have another owner than the entries changed. */
  lemma {:induction false} UntouchedElsewhere(members: seq<MemberEntry>, after: seq<MemberEntry>, owner: seq<nat>,
                                              cursor: nat, o: nat)
    requires IsCursor(members, cursor) && IsCursor(after, cursor) && |members| <= |after| && Owned(members, owner)
    requires cursor > 0 ==> owner[cursor - 1] == o
    requires forall k :: 0 <= k < |members| && owner[k] == o ==> after[k] == members[k]
    ensures FieldsFrom(after, cursor) == FieldsFrom(members, cursor) && LastFrom(after, cursor) == LastFrom(members, cursor)
    decreases if cursor == 0 then 0 else |members| + 1 - cursor
  {
    if cursor > 0 {
      UntouchedElsewhere(members, after, owner, members[cursor - 1].next, o);
    }
  }

  lemma {:induction false} LastKept(members: seq<MemberEntry>, cursor: nat, m: nat, value: Value)
    requires IsCursor(members, cursor) && 0 < m <= |members|
    ensures var after := members[m - 1 := members[m - 1].(value := value)];
            IsCursor(after, cursor) && LastFrom(after, cursor) == LastFrom(members, cursor)
    decreases if cursor == 0 then 0 else |members| + 1 - cursor
  {
    if cursor > 0 && members[cursor - 1].next > 0 {
      LastKept(members, members[cursor - 1].next, m, value);
    }
  }

  /** A new entry, linked behind the list's last one. */
  function Appended(members: seq<MemberEntry>, last: nat, m: MemberEntry): seq<MemberEntry>
    requires 0 < last <= |members|
  {
    members[last - 1 := members[last - 1].(next := |members| + 1)] + [m]
  }

  lemma {:induction false} AppendSets(members: seq<MemberEntry>, cursor: nat, m: MemberEntry)
    requires IsCursor(members, cursor) && cursor > 0 && m.next == 0 && Find(members, cursor, m.name) == 0
    ensures var after := Appended(members, LastFrom(members, cursor), m);
            && IsCursor(after, cursor) && LastFrom(after, cursor) == |after|
            && FieldsFrom(after, cursor) == FieldsFrom(members, cursor)[m.name := m.value]
    decreases |members| + 1 - cursor
  {
    var last := LastFrom(members, cursor);
    var after := Appended(members, last, m);
    var next := members[cursor - 1].next;
    assert after[|members|] == m && FieldsFrom(after, |after|) == map[][m.name := m.value];
    if next > 0 {
      AppendSets(members, next, m);
      assert after[cursor - 1] == members[cursor - 1];
      assert FieldsFrom(after, cursor) == FieldsFrom(after, next)[members[cursor - 1].name := members[cursor - 1].value];
    } else {
      assert after[cursor - 1].next == |after|;
      assert FieldsFrom(members, 0) == map[];
    }
  }

  lemma {:induction false} FoundIsOwned(members: seq<MemberEntry>, owner: seq<nat>, cursor: nat, name: string, o: nat)
    requires IsCursor(members, cursor) && Owned(members, owner) && (cursor > 0 ==> owner[cursor - 1] == o)
    ensures var m := Find(members, cursor, name); m > 0 ==> owner[m - 1] == o
    decreases if cursor == 0 then 0 else |members| + 1 - cursor
  {
    if cursor > 0 && members[cursor - 1].name != name {
      FoundIsOwned(members, owner, members[cursor - 1].next, name, o);
    }
  }

  lemma {:induction false} LastIsOwned(members: seq<MemberEntry>, owner: seq<nat>, cursor: nat, o: nat)
    requires IsCursor(members, cursor) && Owned(members, owner) && (cursor > 0 ==> owner[cursor - 1] == o)
    ensures var m := LastFrom(members, cursor); m > 0 ==> owner[m - 1] == o
    decreases if cursor == 0 then 0 else |members| + 1 - cursor
  {
    if cursor > 0 && members[cursor - 1].next > 0 {
      LastIsOwned(members, owner, members[cursor - 1].next, o);
    }
  }

  // --------------------------------------------------------------- all objects

  /** The list of object `o` is its own. */
  ghost predicate Kept(members: seq<MemberEntry>, owner: seq<nat>, o: nat, entry: ObjectEntry)
    requires Forward(members) && Owned(members, owner)
  {
    && entry.firstMember <= |members| && entry.lastMember == LastFrom(members, entry.firstMember)
    && (entry.firstMember > 0 ==> owner[entry.firstMember - 1] == o)
  }

  ghost predicate Wellformed(objects: seq<ObjectEntry>, members: seq<MemberEntry>, owner: seq<nat>) {
    && Forward(members) && Owned(members, owner)
    && forall o :: 0 <= o < |objects| ==> Kept(members, owner, o, objects[o])
  }

  ghost function FieldsOf(objects: seq<ObjectEntry>, members: seq<MemberEntry>, owner: seq<nat>, o: nat): Fields
    requires Wellformed(objects, members, owner) && o < |objects|
  {
    assert Kept(members, owner, o, objects[o]);
    FieldsFrom(members, objects[o].firstMember)
  }

  /** What a change to the list of object `o` leaves of the others. */
  lemma {:induction false} OthersUntouched(objects: seq<ObjectEntry>, members: seq<MemberEntry>, owner: seq<nat>, o: nat,
                                           entry: ObjectEntry, after: seq<MemberEntry>, owners: seq<nat>)
    requires Wellformed(objects, members, owner) && o < |objects| && |members| <= |after|
    requires Forward(after) && Owned(after, owners) && owner <= owners && Kept(after, owners, o, entry)
    requires forall k :: 0 <= k < |members| && owner[k] != o ==> after[k] == members[k]
    ensures Wellformed(objects[o := entry], after, owners)
    ensures forall k :: 0 <= k < |objects| && k != o ==>
              FieldsOf(objects[o := entry], after, owners, k) == FieldsOf(objects, members, owner, k)
  {
    hide FieldsFrom, Find, LastFrom;
    forall k | 0 <= k < |objects|
      ensures Kept(after, owners, k, objects[o := entry][k])
      ensures k != o ==> FieldsFrom(after, objects[k].firstMember) == FieldsFrom(members, objects[k].firstMember)
    {
      assert Kept(members, owner, k, objects[k]);
      if k != o {
        UntouchedElsewhere(members, after, owner, objects[k].firstMember, k);
      }
    }
  }

  lemma {:induction false} ReplaceStep(objects: seq<ObjectEntry>, members: seq<MemberEntry>, owner: seq<nat>, o: nat,
                                       name: string, value: Value)
    requires Wellformed(objects, members, owner) && o < |objects| && objects[o].firstMember <= |members|
    requires Find(members, objects[o].firstMember, name) > 0
    ensures var m := Find(members, objects[o].firstMember, name);
            var after := members[m - 1 := members[m - 1].(value := value)];
            && Wellformed(objects, after, owner)
            && forall k :: 0 <= k < |objects| ==>
                 FieldsOf(objects, after, owner, k)
                 == if k == o then FieldsOf(objects, members, owner, o)[name := value] else FieldsOf(objects, members, owner, k)
  {
    hide FieldsFrom, Find, LastFrom;
    var m := Find(members, objects[o].firstMember, name);
    var after := members[m - 1 := members[m - 1].(value := value)];
    assert Kept(members, owner, o, objects[o]);
    ReplaceSets(members, objects[o].firstMember, name, value);
    FoundIsOwned(members, owner, objects[o].firstMember, name, o);
    LastKept(members, objects[o].firstMember, m, value);
    assert objects[o := objects[o]] == objects;
    OthersUntouched(objects, members, owner, o, objects[o], after, owner);
  }

  lemma {:induction false} AppendStep(objects: seq<ObjectEntry>, members: seq<MemberEntry>, owner: seq<nat>, o: nat, name: string, value: Value)
    requires Wellformed(objects, members, owner) && o < |objects| && 0 < objects[o].lastMember <= |members|
    requires objects[o].firstMember <= |members| && Find(members, objects[o].firstMember, name) == 0
    ensures var after := Appended(members, objects[o].lastMember, MemberEntry(name, value, 0));
            var entry := objects[o].(lastMember := |members| + 1);
            && Wellformed(objects[o := entry], after, owner + [o])
            && forall k :: 0 <= k < |objects| ==>
                 FieldsOf(objects[o := entry], after, owner + [o], k)
                 == if k == o then FieldsOf(objects, members, owner, o)[name := value] else FieldsOf(objects, members, owner, k)
  {
    hide FieldsFrom, Find, LastFrom;
    var m := MemberEntry(name, value, 0);
    var after := Appended(members, objects[o].lastMember, m);
    assert Kept(members, owner, o, objects[o]);
    AppendSets(members, objects[o].firstMember, m);
    LastIsOwned(members, owner, objects[o].firstMember, o);
    OthersUntouched(objects, members, owner, o, objects[o].(lastMember := |members| + 1), after, owner + [o]);
  }

  lemma {:induction false} BeginStep(objects: seq<ObjectEntry>, members: seq<MemberEntry>, owner: seq<nat>, o: nat, name: string, value: Value)
    requires Wellformed(objects, members, owner) && o < |objects| && objects[o].lastMember == 0
    ensures var after := members + [MemberEntry(name, value, 0)];
            var entry := objects[o].(firstMember := |members| + 1, lastMember := |members| + 1);
            && Wellformed(objects[o := entry], after, owner + [o])
            && forall k :: 0 <= k < |objects| ==>
                 FieldsOf(objects[o := entry], after, owner + [o], k)
                 == if k == o then FieldsOf(objects, members, owner, o)[name := value] else FieldsOf(objects, members, owner, k)
  {
    var after := members + [MemberEntry(name, value, 0)];
    assert Kept(members, owner, o, objects[o]);
    assert FieldsFrom(members, 0) == map[] == FieldsFrom(after, 0);
    assert FieldsFrom(after, |after|) == map[][name := value];
    OthersUntouched(objects, members, owner, o, objects[o].(firstMember := |after|, lastMember := |after|), after, owner + [o]);
  }

  class Builder {
    var objects: seq<ObjectEntry>
    var members: seq<MemberEntry>
    /** The object each entry belongs to. */
    ghost var owner: seq<nat>

    ghost predicate Valid()
      reads this
    {
      Wellformed(objects, members, owner)
    }

    ghost function FieldsAt(o: nat): Fields
      requires Valid() && o < |objects|
      reads this
    {
      FieldsOf(objects, members, owner, o)
    }

    ghost predicate IsObject(item: Value)
      reads this
    {
      item.Object? && 0 < item.index <= |objects|
    }

    constructor ()
      ensures Valid() && objects == []
    {
      objects, members, owner := [], [], [];
    }

    method NewObject(typeName: string) returns (item: Value)
      requires Valid()
      modifies this
      ensures Valid() && |objects| == |old(objects)| + 1 && item == Object(|objects|) && FieldsAt(|objects| - 1) == map[]
      ensures forall o :: 0 <= o < |old(objects)| ==> FieldsAt(o) == old(FieldsAt(o)) && objects[o] == old(objects)[o]
      ensures objects[|objects| - 1].typeName == typeName
    {
      objects := objects + [ObjectEntry(typeName, 0, 0)];
      item := Object(|objects|);
    }

    /** Reads a field; a name that is not there may be an alias. */
    method Field(item: Value, name: string) returns (value: Value)
      requires Valid() && (item.Object? ==> item.index <= |objects|)
      ensures value == if IsObject(item)
                       then FieldOf(objects[item.index - 1].typeName, item.index, FieldsAt(item.index - 1), name)
                       else NoValue
      ensures IsObject(item) ==>
                var typeName, fields := objects[item.index - 1].typeName, FieldsAt(item.index - 1);
                value == if name in fields then fields[name]
                         else if typeName == "Integer" && name == "val.ival" && "ival" in fields then fields["ival"]
                         else if typeName == "String" && name == "val.str" && "sval" in fields then fields["sval"]
                         else if typeName == "A_Const" && name == "val.node" then item
                         else NoValue
    {
      if !item.Object? || item.index == 0 {
        return NoValue;
      }
      ghost var o := item.index - 1;
      assert Kept(members, owner, o, objects[o]);
      var m := Search(objects[item.index - 1].firstMember, name);
      FindFinds(members, objects[item.index - 1].firstMember, name);
      if m > 0 {
        return members[m - 1].value;
      }
      var typeName := objects[item.index - 1].typeName;
      if IsTagAlias(typeName, name) {
        return item;
      }
      var alias := Alias(typeName, name);
      m := Search(objects[item.index - 1].firstMember, alias);
      FindFinds(members, objects[item.index - 1].firstMember, alias);
      return if m > 0 then members[m - 1].value else NoValue;
    }

    method Search(first: nat, name: string) returns (m: nat)
      requires Valid() && first <= |members|
      ensures m == Find(members, first, name)
    {
      m := first;
      while m != 0
        invariant m <= |members| && Find(members, m, name) == Find(members, first, name)
        decreases if m == 0 then 0 else |members| + 1 - m
      {
        if members[m - 1].name == name {
          return;
        }
        m := members[m - 1].next;
      }
    }

    /** The field of object `o`, and no other, has the value. */
    twostate predicate OnlySet(o: nat, name: string, value: Value)
      requires old(Valid()) && Valid() && o < |old(objects)|
      reads this
    {
      && |objects| == |old(objects)|
      && forall k :: 0 <= k < |objects| ==>
           && objects[k].typeName == old(objects)[k].typeName
           && FieldsAt(k) == if k == o then old(FieldsAt(o))[name := value] else old(FieldsAt(k))
    }

    /** Sets a field of an object, and only that. */
    method SetField(item: Value, name: string, value: Value) returns (outcome: Outcome)
      requires Valid() && (item.Object? ==> item.index <= |objects|)
      modifies this
      ensures Valid()
      ensures if IsObject(item) then outcome == Done && OnlySet(item.index - 1, name, value)
              else outcome == ConstraintError && objects == old(objects) && members == old(members)
    {
      if !item.Object? || item.index == 0 {
        return ConstraintError;
      }
      var o := item.index - 1;
      assert Kept(members, owner, o, objects[o]);
      var m := Search(objects[o].firstMember, name);
      if m > 0 {
        Replace(o, m, name, value);
      } else if objects[o].lastMember > 0 {
        Append(o, name, value);
      } else {
        Begin(o, name, value);
      }
      return Done;
    }

    method Replace(o: nat, m: nat, name: string, value: Value)
      requires Valid() && o < |objects| && 0 < m <= |members|
      requires objects[o].firstMember <= |members| && m == Find(members, objects[o].firstMember, name)
      modifies `members
      ensures Valid() && OnlySet(o, name, value)
    {
      hide FieldsOf, Wellformed;
      ReplaceStep(objects, members, owner, o, name, value);
      members := members[m - 1 := members[m - 1].(value := value)];
    }

    method Append(o: nat, name: string, value: Value)
      requires Valid() && o < |objects| && 0 < objects[o].lastMember <= |members|
      requires objects[o].firstMember <= |members| && Find(members, objects[o].firstMember, name) == 0
      modifies this
      ensures Valid() && OnlySet(o, name, value)
    {
      hide FieldsOf, Wellformed;
      AppendStep(objects, members, owner, o, name, value);
      var last := objects[o].lastMember;
      members := members + [MemberEntry(name, value, 0)];
      members := members[last - 1 := members[last - 1].(next := |members|)];
      assert members == Appended(old(members), last, MemberEntry(name, value, 0));
      owner := owner + [o];
      objects := objects[o := objects[o].(lastMember := |members|)];
    }

    method Begin(o: nat, name: string, value: Value)
      requires Valid() && o < |objects| && objects[o].lastMember == 0
      modifies this
      ensures Valid() && OnlySet(o, name, value)
    {
      hide FieldsOf, Wellformed;
      BeginStep(objects, members, owner, o, name, value);
      members := members + [MemberEntry(name, value, 0)];
      owner := owner + [o];
      objects := objects[o := objects[o].(firstMember := |members|, lastMember := |members|)];
    }
  }
}
