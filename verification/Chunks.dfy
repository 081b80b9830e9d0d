/** Splitting ordered cases into contiguous chunks of about equal weight. */
module Chunks {

  function Weigh<T>(weight: T -> nat, cases: seq<T>): nat {
    if cases == [] then 0 else weight(cases[0]) + Weigh(weight, cases[1..])
  }

  function Flatten<T>(chunks: seq<seq<T>>): seq<T> {
    if chunks == [] then [] else chunks[0] + Flatten(chunks[1..])
  }

  lemma {:induction false} WeighAppend<T>(weight: T -> nat, a: seq<T>, b: seq<T>)
    ensures Weigh(weight, a + b) == Weigh(weight, a) + Weigh(weight, b)
    decreases a
  {
    if a == [] {
      assert a + b == b;
    } else {
      assert (a + b)[1..] == a[1..] + b;
      WeighAppend(weight, a[1..], b);
    }
  }

  lemma {:induction false} FlattenAppend<T>(a: seq<seq<T>>, b: seq<seq<T>>)
    ensures Flatten(a + b) == Flatten(a) + Flatten(b)
    decreases a
  {
    if a == [] {
      assert a + b == b;
    } else {
      assert (a + b)[1..] == a[1..] + b;
      FlattenAppend(a[1..], b);
    }
  }

  function Distance(x: real, y: real): real {
    if x < y then y - x else x - y
  }

  /** The share of one of `parts` equal parts. */
  function Target(total: nat, parts: nat): real
    requires parts > 0
  {
    total as real / parts as real
  }

  /** One chunk cut off the front of `cases`, when it and as many more as to
      make `parts` chunks are still to be made: it overshoots the target by
      less than half its last case, and undershoots it by no more than half
      the next one, unless exactly one case is left for each later chunk. */
  predicate WellCut<T>(weight: T -> nat, cases: seq<T>, parts: nat, size: nat) {
    && 0 < size < |cases| && 1 < parts <= |cases| && parts - 1 <= |cases| - size
    && var target := Weigh(weight, cases) as real / parts as real;
       var w := Weigh(weight, cases[..size]) as real;
       && (size >= 2 ==> w < target + weight(cases[size - 1]) as real / 2.0)
       && (|cases| - size == parts - 1 || w >= target - weight(cases[size]) as real / 2.0)
  }

  /** Taking a case that brings the chunk closer to the target. */
  lemma TakingOvershootsLittle(w: real, c: real, target: real)
    requires c > 0.0 && Distance(w, target) > Distance(w + c, target)
    ensures w + c < target + c / 2.0
  {
  }

  /** Stopping before a case that would not. */
  lemma StoppingUndershootsLittle(w: real, c: real, target: real)
    requires c > 0.0 && Distance(w, target) <= Distance(w + c, target)
    ensures w >= target - c / 2.0
  {
  }

  lemma WeighNext<T>(weight: T -> nat, cases: seq<T>, size: nat)
    requires size < |cases|
    ensures Weigh(weight, cases[..size + 1]) == Weigh(weight, cases[..size]) + weight(cases[size])
  {
    assert cases[..size + 1] == cases[..size] + [cases[size]];
    WeighAppend(weight, cases[..size], [cases[size]]);
  }

  /** Pops cases while each brings the chunk closer to the target. */
  method CutChunk<T>(weight: T -> nat, cases: seq<T>, remainingLines: nat, parts: nat) returns (size: nat, chunkLines: nat)
    requires 1 < parts <= |cases| && forall t :: t in cases ==> weight(t) > 0
    requires remainingLines == Weigh(weight, cases)
    ensures WellCut(weight, cases, parts, size) && chunkLines == Weigh(weight, cases[..size])
  {
    var target := Target(remainingLines, parts);
    size, chunkLines := 0, 0;
    while |cases| - size > parts - 1
      invariant 0 <= size <= |cases| - (parts - 1) && chunkLines == Weigh(weight, cases[..size])
      invariant size >= 2 ==> chunkLines as real < target + weight(cases[size - 1]) as real / 2.0
      decreases |cases| - size
    {
      var candidate := weight(cases[size]);
      assert candidate > 0;
      if size > 0 && Distance(chunkLines as real, target) <= Distance((chunkLines + candidate) as real, target) {
        StoppingUndershootsLittle(chunkLines as real, candidate as real, target);
        return;
      }
      if size > 0 {
        TakingOvershootsLittle(chunkLines as real, candidate as real, target);
      }
      WeighNext(weight, cases, size);
      size := size + 1;
      chunkLines := chunkLines + candidate;
    }
  }

  lemma EnoughIsLeft<T>(weight: T -> nat, cases: seq<T>, parts: nat, size: nat)
    requires WellCut(weight, cases, parts, size)
    ensures 0 < size < |cases| && parts - 1 <= |cases| - size
  {
  }

  /** Every chunk but the last is well cut from what was left before it. */
  predicate WellChunked<T>(weight: T -> nat, chunks: seq<seq<T>>) {
    |chunks| > 1 ==>
      WellCut(weight, Flatten(chunks), |chunks|, |chunks[0]|) && WellChunked(weight, chunks[1..])
  }

  /** As many chunks as asked for, or as there are cases; none is empty, and
      together they are the cases in order. */
  method LineBalancedChunks<T>(weight: T -> nat, cases: seq<T>, count: nat) returns (chunks: seq<seq<T>>)
    requires forall t :: t in cases ==> weight(t) > 0
    ensures |chunks| == if count < |cases| then count else |cases|
    ensures count > 0 ==> Flatten(chunks) == cases
    ensures forall chunk :: chunk in chunks ==> chunk != []
    ensures WellChunked(weight, chunks)
  {
    var parts := if count < |cases| then count else |cases|;
    chunks := [];
    if parts == 0 {
      return;
    }
    chunks := CutAll(weight, cases, parts);
  }

  method CutAll<T>(weight: T -> nat, cases: seq<T>, parts: nat) returns (chunks: seq<seq<T>>)
    requires forall t :: t in cases ==> weight(t) > 0
    requires 0 < parts <= |cases|
    ensures |chunks| == parts && Flatten(chunks) == cases
    ensures forall chunk :: chunk in chunks ==> chunk != []
    ensures WellChunked(weight, chunks)
  {
    hide WellCut, Flatten, Weigh;
    chunks := [];
    NoChunks<T>();
    assert [] + cases == cases;
    var remaining, remainingLines := cases, Weigh(weight, cases);
    var left := parts;
    while left > 1
      invariant 0 < left <= |remaining| && |chunks| + left == parts && remainingLines == Weigh(weight, remaining)
      invariant Flatten(chunks) + remaining == cases
      invariant forall chunk :: chunk in chunks ==> chunk != []
      invariant forall t :: t in remaining ==> weight(t) > 0
      invariant forall k :: 0 <= k < |chunks| ==>
                  WellCut(weight, Flatten(chunks[k..]) + remaining, parts - k, |chunks[k]|)
      decreases left
    {
      var size, chunkLines := CutChunk(weight, remaining, remainingLines, left);
      EnoughIsLeft(weight, remaining, left, size);
      var chunk := remaining[..size];
      CutOff(weight, chunks, remaining, parts, size);
      WeighAppend(weight, chunk, remaining[size..]);
      assert chunk + remaining[size..] == remaining;
      remainingLines := remainingLines - chunkLines;
      chunks := chunks + [chunk];
      remaining := remaining[size..];
      left := left - 1;
    }
    LastChunk(weight, chunks, remaining, parts);
    chunks := chunks + [remaining];
  }

  lemma CutOff<T>(weight: T -> nat, chunks: seq<seq<T>>, remaining: seq<T>, parts: nat, size: nat)
    requires size <= |remaining| && |chunks| < parts
    requires WellCut(weight, remaining, parts - |chunks|, size)
    requires forall k :: 0 <= k < |chunks| ==>
               WellCut(weight, Flatten(chunks[k..]) + remaining, parts - k, |chunks[k]|)
    ensures var more := chunks + [remaining[..size]];
            && Flatten(more) + remaining[size..] == Flatten(chunks) + remaining
            && forall k :: 0 <= k < |more| ==>
                 WellCut(weight, Flatten(more[k..]) + remaining[size..], parts - k, |more[k]|)
  {
    hide WellCut;
    hide Flatten;
    var more := chunks + [remaining[..size]];
    forall k | 0 <= k <= |chunks|
      ensures Flatten(more[k..]) + remaining[size..] == Flatten(chunks[k..]) + remaining
    {
      assert more[k..] == chunks[k..] + [remaining[..size]];
      FlattenCut(chunks[k..], remaining, size);
    }
    assert more[0..] == more && chunks[0..] == chunks;
    NoChunks<T>();
    assert chunks[|chunks|..] == [] && [] + remaining == remaining;
  }

  lemma NoChunks<T>()
    ensures Flatten<T>([]) == []
  {
  }

  lemma FlattenCut<T>(chunks: seq<seq<T>>, remaining: seq<T>, size: nat)
    requires size <= |remaining|
    ensures Flatten(chunks + [remaining[..size]]) + remaining[size..] == Flatten(chunks) + remaining
  {
    var chunk := remaining[..size];
    FlattenAppend(chunks, [chunk]);
    assert Flatten([chunk]) == chunk + [] == chunk;
    assert chunk + remaining[size..] == remaining;
    assert (Flatten(chunks) + chunk) + remaining[size..] == Flatten(chunks) + (chunk + remaining[size..]);
  }

  lemma LastChunk<T>(weight: T -> nat, chunks: seq<seq<T>>, remaining: seq<T>, parts: nat)
    requires |chunks| + 1 == parts
    requires forall k :: 0 <= k < |chunks| ==>
               WellCut(weight, Flatten(chunks[k..]) + remaining, parts - k, |chunks[k]|)
    ensures Flatten(chunks + [remaining]) == Flatten(chunks) + remaining
    ensures WellChunked(weight, chunks + [remaining])
    decreases chunks
  {
    hide WellCut;
    var all := chunks + [remaining];
    FlattenAppend(chunks, [remaining]);
    assert Flatten([remaining]) == remaining + [] == remaining;
    if chunks != [] {
      assert all[1..] == chunks[1..] + [remaining];
      assert chunks[0..] == chunks;
      forall k | 0 <= k < |chunks[1..]|
        ensures WellCut(weight, Flatten(chunks[1..][k..]) + remaining, parts - 1 - k, |chunks[1..][k]|)
      {
        assert chunks[1..][k..] == chunks[k + 1..];
      }
      LastChunk(weight, chunks[1..], remaining, parts - 1);
    }
  }
}
