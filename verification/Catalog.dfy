/** The shared catalog of action bodies: bodies by identifier, in chunks that
    are dispatched on in two levels, and one table of identifiers a version. */
module Catalog {
  import opened Chunks

  datatype Option<+T> = None | Some(value: T)

  /** One version's rules with their bodies. */
  datatype Model<+B> = Model(cases: seq<(nat, B)>)

  type Entry<B> = (nat, B)

  function Bodies<B>(cases: seq<(nat, B)>): seq<B> {
    seq(|cases|, i requires 0 <= i < |cases| => cases[i].1)
  }

  function AllBodies<B>(models: seq<Model<B>>): seq<B> {
    if models == [] then [] else Bodies(models[0].cases) + AllBodies(models[1..])
  }

  /** No body has the reserved identifier, and no two share one. */
  predicate Admissible<B(==)>(identifier: B -> nat, bodies: seq<B>) {
    && (forall i :: 0 <= i < |bodies| ==> identifier(bodies[i]) != 0)
    && (forall i, j :: 0 <= i < |bodies| && 0 <= j < |bodies| && identifier(bodies[i]) == identifier(bodies[j])
          ==> bodies[i] == bodies[j])
  }

  /** The catalog holds exactly the bodies, under their identifiers. */
  ghost predicate Holds<B>(identifier: B -> nat, bodies: seq<B>, catalog: map<nat, B>) {
    && (forall i :: 0 <= i < |bodies| ==> identifier(bodies[i]) in catalog && catalog[identifier(bodies[i])] == bodies[i])
    && (forall id :: id in catalog ==> id != 0 && identifier(catalog[id]) == id && catalog[id] in bodies)
  }

  lemma HoldsNext<B>(identifier: B -> nat, bodies: seq<B>, catalog: map<nat, B>, body: B)
    requires Holds(identifier, bodies, catalog)
    ensures Admissible(identifier, bodies)
    ensures Admissible(identifier, bodies + [body]) <==>
            identifier(body) != 0 && (identifier(body) in catalog ==> catalog[identifier(body)] == body)
    ensures Admissible(identifier, bodies + [body]) ==>
              Holds(identifier, bodies + [body], catalog[identifier(body) := body])
  {
    var more := bodies + [body];
    assert more[|bodies|] == body;
    assert forall i :: 0 <= i < |bodies| ==> more[i] == bodies[i];
  }

  lemma AdmissiblePrefix<B>(identifier: B -> nat, bodies: seq<B>, more: seq<B>)
    requires Admissible(identifier, bodies + more)
    ensures Admissible(identifier, bodies)
  {
    assert forall i :: 0 <= i < |bodies| ==> (bodies + more)[i] == bodies[i];
  }

  lemma {:induction false} AllBodiesAppend<B>(models: seq<Model<B>>, model: Model<B>)
    ensures AllBodies(models + [model]) == AllBodies(models) + Bodies(model.cases)
    decreases models
  {
    if models == [] {
      assert [model][1..] == [];
    } else {
      assert (models + [model])[1..] == models[1..] + [model];
      AllBodiesAppend(models[1..], model);
    }
  }

  /** Collects the bodies of all versions; refuses the reserved identifier and
      any collision. */
  method CatalogBodies<B(==)>(identifier: B -> nat, models: seq<Model<B>>) returns (catalog: Option<map<nat, B>>)
    ensures catalog.Some? <==> Admissible(identifier, AllBodies(models))
    ensures catalog.Some? ==> Holds(identifier, AllBodies(models), catalog.value)
  {
    hide Admissible, Holds;
    var result: map<nat, B> := map[];
    NothingHeld(identifier);
    for m := 0 to |models|
      invariant Holds(identifier, AllBodies(models[..m]), result)
    {
      ghost var before := AllBodies(models[..m]);
      assert models[..m + 1] == models[..m] + [models[m]];
      AllBodiesAppend(models[..m], models[m]);
      var cases := models[m].cases;
      assert before + Bodies(cases)[..0] == before;
      for k := 0 to |cases|
        invariant Holds(identifier, before + Bodies(cases)[..k], result)
      {
        var body := cases[k].1;
        assert before + Bodies(cases)[..k + 1] == (before + Bodies(cases)[..k]) + [body];
        HoldsNext(identifier, before + Bodies(cases)[..k], result, body);
        var id := identifier(body);
        if id == 0 || (id in result && result[id] != body) {
          Refused(identifier, models, m, k);
          return None;
        }
        result := result[id := body];
      }
      assert Bodies(cases)[..|cases|] == Bodies(cases);
    }
    assert models[..|models|] == models;
    HeldIsAdmissible(identifier, AllBodies(models), result);
    return Some(result);
  }

  lemma NothingHeld<B>(identifier: B -> nat)
    ensures Holds(identifier, [], map[])
  {
  }

  lemma HeldIsAdmissible<B>(identifier: B -> nat, bodies: seq<B>, catalog: map<nat, B>)
    requires Holds(identifier, bodies, catalog)
    ensures Admissible(identifier, bodies)
  {
  }

  lemma {:induction false} AllBodiesSplit<B>(models: seq<Model<B>>, m: nat)
    requires m < |models|
    ensures AllBodies(models) == AllBodies(models[..m]) + Bodies(models[m].cases) + AllBodies(models[m + 1..])
    decreases m
  {
    if m > 0 {
      AllBodiesSplit(models[1..], m - 1);
      assert models[1..][..m - 1] == models[..m][1..] && models[1..][m..] == models[m + 1..];
      Regroup(Bodies(models[0].cases), AllBodies(models[..m][1..]), Bodies(models[m].cases), AllBodies(models[m + 1..]));
    } else {
      assert models[..0] == [];
      assert [] + Bodies(models[0].cases) == Bodies(models[0].cases);
    }
  }

  lemma Regroup<B>(a: seq<B>, b: seq<B>, c: seq<B>, d: seq<B>)
    ensures a + (b + c + d) == (a + b) + c + d
  {
  }

  lemma Refused<B>(identifier: B -> nat, models: seq<Model<B>>, m: nat, k: nat)
    requires m < |models| && k < |models[m].cases|
    requires !Admissible(identifier, (AllBodies(models[..m]) + Bodies(models[m].cases)[..k]) + [models[m].cases[k].1])
    ensures !Admissible(identifier, AllBodies(models))
  {
    hide Admissible;
    AllBodiesSplit(models, m);
    var bodies := Bodies(models[m].cases);
    var seen := (AllBodies(models[..m]) + bodies[..k]) + [bodies[k]];
    var rest := bodies[k + 1..] + AllBodies(models[m + 1..]);
    assert AllBodies(models) == seen + rest;
    if Admissible(identifier, AllBodies(models)) {
      AdmissiblePrefix(identifier, seen, rest);
    }
  }

  // --------------------------------------------------------------- dispatch

  predicate Increasing<B>(entries: seq<Entry<B>>) {
    forall i, j :: 0 <= i < j < |entries| ==> entries[i].0 < entries[j].0
  }

  /** The items of the catalog in the order of their identifiers. */
  ghost predicate SortedItems<B>(entries: seq<Entry<B>>, catalog: map<nat, B>) {
    && Increasing(entries)
    && (forall i :: 0 <= i < |entries| ==> entries[i].0 in catalog && catalog[entries[i].0] == entries[i].1)
    && (forall id :: id in catalog ==> exists i :: 0 <= i < |entries| && entries[i].0 == id)
  }

  datatype Range = Range(lower: nat, upper: nat)

  /** Whether `ranges` are those of the chunks: each ends at its chunk's last
      identifier and begins right after the one before it. */
  predicate RangesOf<B>(ranges: seq<Range>, chunks: seq<seq<Entry<B>>>, lower: nat) {
    && |ranges| == |chunks|
    && (chunks != [] ==>
          && chunks[0] != [] && ranges[0] == Range(lower, chunks[0][|chunks[0]| - 1].0)
          && RangesOf(ranges[1..], chunks[1..], ranges[0].upper + 1))
  }

  /** Gives each chunk its range, from a running lower bound. */
  method ChunkRanges<B>(chunks: seq<seq<Entry<B>>>) returns (ranges: seq<Range>)
    requires chunks != [] && forall k :: 0 <= k < |chunks| ==> chunks[k] != []
    ensures RangesOf(ranges, chunks, chunks[0][0].0)
  {
    ranges := [];
    var lower := chunks[0][0].0;
    assert chunks[..0] == [];
    for k := 0 to |chunks|
      invariant RangesOf(ranges, chunks[..k], chunks[0][0].0)
      invariant lower == if k == 0 then chunks[0][0].0 else ranges[k - 1].upper + 1
    {
      var chunk := chunks[k];
      var upper := chunk[|chunk| - 1].0;
      RangesNext(ranges, chunks[..k], chunks[0][0].0, chunk, lower);
      assert chunks[..k + 1] == chunks[..k] + [chunk];
      ranges := ranges + [Range(lower, upper)];
      lower := upper + 1;
    }
    assert chunks[..|chunks|] == chunks;
  }

  lemma {:induction false} RangesNext<B>(ranges: seq<Range>, chunks: seq<seq<Entry<B>>>, first: nat, chunk: seq<Entry<B>>, lower: nat)
    requires RangesOf(ranges, chunks, first) && chunk != []
    requires lower == if ranges == [] then first else ranges[|ranges| - 1].upper + 1
    ensures RangesOf(ranges + [Range(lower, chunk[|chunk| - 1].0)], chunks + [chunk], first)
    decreases chunks
  {
    var range := Range(lower, chunk[|chunk| - 1].0);
    if chunks == [] {
      assert (ranges + [range])[1..] == [] && (chunks + [chunk])[1..] == [];
    } else {
      assert (ranges + [range])[1..] == ranges[1..] + [range] && (chunks + [chunk])[1..] == chunks[1..] + [chunk];
      RangesNext(ranges[1..], chunks[1..], ranges[0].upper + 1, chunk, lower);
    }
  }

  function InChunk<B>(chunk: seq<Entry<B>>, id: nat): Option<B> {
    if chunk == [] then None else if chunk[0].0 == id then Some(chunk[0].1) else InChunk(chunk[1..], id)
  }

  /** Two levels of case: the range, then the chunk's own case. */
  function Dispatch<B>(ranges: seq<Range>, chunks: seq<seq<Entry<B>>>, id: nat): Option<B>
    requires |ranges| == |chunks|
  {
    if chunks == [] then None
    else if ranges[0].lower <= id <= ranges[0].upper then InChunk(chunks[0], id)
    else Dispatch(ranges[1..], chunks[1..], id)
  }

  lemma {:induction false} InChunkFinds<B>(chunk: seq<Entry<B>>, id: nat)
    requires Increasing(chunk)
    ensures match InChunk(chunk, id)
            case None => forall i :: 0 <= i < |chunk| ==> chunk[i].0 != id
            case Some(body) => exists i :: 0 <= i < |chunk| && chunk[i] == (id, body)
    decreases chunk
  {
    if chunk != [] && chunk[0].0 != id {
      assert forall i :: 1 <= i < |chunk| ==> chunk[i] == chunk[1..][i - 1];
      InChunkFinds(chunk[1..], id);
      if InChunk(chunk, id).Some? {
        var i :| 0 <= i < |chunk[1..]| && chunk[1..][i] == (id, InChunk(chunk, id).value);
        assert chunk[i + 1] == (id, InChunk(chunk, id).value);
      }
    }
  }

  /** What a case over all the entries at once would give. */
  lemma {:induction false} DispatchIsOneCase<B>(ranges: seq<Range>, chunks: seq<seq<Entry<B>>>, lower: nat, id: nat)
    requires RangesOf(ranges, chunks, lower) && Increasing(Flatten(chunks))
    requires forall i :: 0 <= i < |Flatten(chunks)| ==> lower <= Flatten(chunks)[i].0
    ensures Dispatch(ranges, chunks, id) == InChunk(Flatten(chunks), id)
    decreases chunks
  {
    if chunks != [] {
      var chunk, rest := chunks[0], Flatten(chunks[1..]);
      var all := Flatten(chunks);
      assert all == chunk + rest;
      assert forall i :: 0 <= i < |rest| ==> rest[i] == all[|chunk| + i];
      assert forall i :: 0 <= i < |chunk| ==> chunk[i] == all[i];
      var upper := chunk[|chunk| - 1].0;
      assert upper == all[|chunk| - 1].0;
      DispatchIsOneCase(ranges[1..], chunks[1..], upper + 1, id);
      InChunkAppend(chunk, rest, id);
      if id <= upper {
        NotInChunk(rest, id);
      } else {
        NotInChunk(chunk, id);
      }
      if id < lower {
        NotInChunk(chunk, id);
      }
    }
  }

  lemma {:induction false} InChunkAppend<B>(a: seq<Entry<B>>, b: seq<Entry<B>>, id: nat)
    ensures InChunk(a + b, id) == if InChunk(a, id).Some? then InChunk(a, id) else InChunk(b, id)
    decreases a
  {
    if a == [] {
      assert a + b == b;
    } else {
      assert (a + b)[1..] == a[1..] + b;
      InChunkAppend(a[1..], b, id);
    }
  }

  lemma {:induction false} NotInChunk<B>(chunk: seq<Entry<B>>, id: nat)
    requires forall i :: 0 <= i < |chunk| ==> chunk[i].0 != id
    ensures InChunk(chunk, id) == None
    decreases chunk
  {
    if chunk != [] {
      assert forall i :: 0 <= i < |chunk[1..]| ==> chunk[1..][i] == chunk[i + 1];
      NotInChunk(chunk[1..], id);
    }
  }

  /** The ranges of different chunks have no identifier in common. */
  lemma {:induction false} RangesAreDisjoint<B>(ranges: seq<Range>, chunks: seq<seq<Entry<B>>>, lower: nat, j: nat)
    requires RangesOf(ranges, chunks, lower) && j < |ranges|
    requires Increasing(Flatten(chunks)) && forall i :: 0 <= i < |Flatten(chunks)| ==> lower <= Flatten(chunks)[i].0
    ensures lower <= ranges[j].lower && forall k :: 0 <= k < j ==> ranges[k].upper < ranges[j].lower
    decreases j
  {
    var chunk, rest := chunks[0], Flatten(chunks[1..]);
    var all := Flatten(chunks);
    assert all == chunk + rest && all[|chunk| - 1] == chunk[|chunk| - 1];
    assert forall i :: 0 <= i < |rest| ==> rest[i] == all[|chunk| + i];
    if j > 0 {
      RangesAreDisjoint(ranges[1..], chunks[1..], ranges[0].upper + 1, j - 1);
      forall k | 0 <= k < j ensures ranges[k].upper < ranges[j].lower {
        if k > 0 { assert ranges[k] == ranges[1..][k - 1]; }
      }
    }
  }

  /** Two-level dispatch reaches exactly the body of an identifier, and for an
      identifier outside the catalog nothing. */
  lemma DispatchIsLookup<B>(ranges: seq<Range>, chunks: seq<seq<Entry<B>>>, catalog: map<nat, B>, id: nat)
    requires chunks != [] && chunks[0] != [] && RangesOf(ranges, chunks, chunks[0][0].0)
    requires SortedItems(Flatten(chunks), catalog)
    ensures Dispatch(ranges, chunks, id) == if id in catalog then Some(catalog[id]) else None
  {
    var all := Flatten(chunks);
    assert all[0] == chunks[0][0];
    DispatchIsOneCase(ranges, chunks, chunks[0][0].0, id);
    InChunkFinds(all, id);
  }

  // ---------------------------------------------------------------- versions

  /** The table of one version: 0 for a rule that has no action. */
  function Action<B>(identifier: B -> nat, cases: seq<(nat, B)>, rule: nat): nat {
    if cases == [] then 0
    else if cases[0].0 == rule then identifier(cases[0].1) else Action(identifier, cases[1..], rule)
  }

  /** What reducing by a rule runs. */
  function Reduce<B>(identifier: B -> nat, model: Model<B>, ranges: seq<Range>, chunks: seq<seq<Entry<B>>>, rule: nat): Option<B>
    requires |ranges| == |chunks|
  {
    var action := Action(identifier, model.cases, rule);
    if action == 0 then None else Dispatch(ranges, chunks, action)
  }

  /** The version's own body for a rule. */
  function Direct<B>(cases: seq<(nat, B)>, rule: nat): Option<B> {
    InChunk(cases, rule)
  }

  /** It is the body of the first case for the rule. */
  lemma {:induction false} DirectIsFirst<B>(cases: seq<(nat, B)>, rule: nat, i: nat)
    requires i < |cases| && cases[i].0 == rule && forall j :: 0 <= j < i ==> cases[j].0 != rule
    ensures Direct(cases, rule) == Some(cases[i].1)
    decreases i
  {
    if i > 0 {
      assert forall j :: 0 <= j < i - 1 ==> cases[1..][j] == cases[j + 1];
      DirectIsFirst(cases[1..], rule, i - 1);
    }
  }

  lemma {:induction false} ActionIsOfBody<B>(identifier: B -> nat, cases: seq<(nat, B)>, rule: nat)
    ensures match Direct(cases, rule)
            case None => Action(identifier, cases, rule) == 0
            case Some(body) => Action(identifier, cases, rule) == identifier(body) && body in Bodies(cases)
    decreases cases
  {
    if cases != [] {
      assert Bodies(cases)[0] == cases[0].1;
      if cases[0].0 != rule {
        ActionIsOfBody(identifier, cases[1..], rule);
        assert Bodies(cases) == [cases[0].1] + Bodies(cases[1..]);
      }
    }
  }

  /** When the catalog could be built, every version runs its own body for
      every rule, and nothing for a rule that has none. */
  lemma {:induction false} SharedDispatchIsDirect<B>(identifier: B -> nat, models: seq<Model<B>>, catalog: map<nat, B>, ranges: seq<Range>,
                                  chunks: seq<seq<Entry<B>>>, m: nat, rule: nat)
    requires Holds(identifier, AllBodies(models), catalog) && m < |models|
    requires chunks != [] && chunks[0] != [] && RangesOf(ranges, chunks, chunks[0][0].0)
    requires SortedItems(Flatten(chunks), catalog)
    ensures Reduce(identifier, models[m], ranges, chunks, rule) == Direct(models[m].cases, rule)
  {
    hide SortedItems, RangesOf;
    ActionIsOfBody(identifier, models[m].cases, rule);
    AllBodiesSplit(models, m);
    var action := Action(identifier, models[m].cases, rule);
    DispatchIsLookup(ranges, chunks, catalog, action);
    if Direct(models[m].cases, rule).Some? {
      var body := Direct(models[m].cases, rule).value;
      assert body in AllBodies(models);
    }
  }

  /** The whole catalog: ranges and chunks from the versions' bodies, the
      bodies' weights and the number of chunks. `entries` are its items in order. */
  method GenerateCatalog<B(==)>(identifier: B -> nat, models: seq<Model<B>>, weight: Entry<B> -> nat, count: nat,
                                entries: seq<Entry<B>>, ghost catalog: map<nat, B>)
    returns (ranges: seq<Range>, chunks: seq<seq<Entry<B>>>)
    requires Holds(identifier, AllBodies(models), catalog) && SortedItems(entries, catalog)
    requires entries != [] && count > 0 && forall e :: e in entries ==> weight(e) > 0
    ensures |ranges| == |chunks| && |chunks| == if count < |entries| then count else |entries|
    ensures forall m, rule :: 0 <= m < |models| ==>
              Reduce(identifier, models[m], ranges, chunks, rule) == Direct(models[m].cases, rule)
    ensures forall id :: Dispatch(ranges, chunks, id) == if id in catalog then Some(catalog[id]) else None
  {
    hide SortedItems, Holds, Reduce, Direct, Dispatch, WellChunked;
    chunks := LineBalancedChunks(weight, entries, count);
    assert forall k :: 0 <= k < |chunks| ==> chunks[k] in chunks;
    ranges := ChunkRanges(chunks);
    RangesCount(ranges, chunks, chunks[0][0].0);
    forall m: nat, rule: nat | m < |models|
      ensures Reduce(identifier, models[m], ranges, chunks, rule) == Direct(models[m].cases, rule)
    {
      SharedDispatchIsDirect(identifier, models, catalog, ranges, chunks, m, rule);
    }
    forall id: nat ensures Dispatch(ranges, chunks, id) == if id in catalog then Some(catalog[id]) else None {
      DispatchIsLookup(ranges, chunks, catalog, id);
    }
  }

  lemma RangesCount<B>(ranges: seq<Range>, chunks: seq<seq<Entry<B>>>, lower: nat)
    requires RangesOf(ranges, chunks, lower)
    ensures |ranges| == |chunks|
  {
  }
}
