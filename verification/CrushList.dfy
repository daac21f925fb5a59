/** List buckets: suffix sums of weights, and the choice of an item (src/crush/builder.c:172-206,
    src/crush/mapper.c:32-54). */
module CrushList {
  import opened CrushDraw

  /** The weight of item i and of everything after it. */
  function SumFrom(weights: seq<nat>, i: nat): nat
    requires i <= |weights|
    decreases |weights| - i
  {
    if i == |weights| then 0 else weights[i] + SumFrom(weights, i + 1)
  }

  /** crush_make_list_bucket */
  method MakeSums(weights: seq<nat>) returns (sums: array<nat>, total: nat)
    ensures fresh(sums) && sums.Length == |weights|
    ensures forall i :: 0 <= i < |weights| ==> sums[i] == SumFrom(weights, i)
    ensures total == SumFrom(weights, 0)
  {
    sums := new nat[|weights|];
    var i := |weights|;
    total := 0;
    while i > 0
      invariant 0 <= i <= |weights| && total == SumFrom(weights, i)
      invariant forall k :: i <= k < |weights| ==> sums[k] == SumFrom(weights, k)
    {
      i := i - 1;
      total := total + weights[i];
      sums[i] := total;
    }
  }

  /** The hash of an input and replica with an item, 32 bits of it. */
  type Hash = int -> nat

  const SCALE: nat := 0x1_0000

  /** The index that is chosen, from i on; none when BUG_ON is reached. */
  datatype Choice = Item(index: nat) | Bug

  function ChooseFrom(items: seq<int>, weights: seq<nat>, hash: Hash, i: nat): (c: Choice)
    requires |items| == |weights| && i <= |weights|
    ensures c.Item? ==> i <= c.index < |weights|
    decreases |weights| - i
  {
    if i == |weights| then Bug
    else if Draw(hash(items[i]), SumFrom(weights, i), SCALE) < weights[i] then Item(i)
    else ChooseFrom(items, weights, hash, i + 1)
  }

  /** Whether the hash of item i is for it, and not for one of those after it. */
  predicate Takes(items: seq<int>, weights: seq<nat>, hash: Hash, i: nat)
    requires |items| == |weights| && i < |weights|
  {
    (hash(items[i]) % SCALE) * SumFrom(weights, i) < SCALE * weights[i]
  }

  /** The first item is chosen whose hash is for it. */
  lemma {:induction false} FirstTakes(items: seq<int>, weights: seq<nat>, hash: Hash, i: nat)
    requires |items| == |weights| && i <= |weights|
    ensures match ChooseFrom(items, weights, hash, i)
            case Item(j) => Takes(items, weights, hash, j)
                            && forall k: nat :: i <= k < j ==> !Takes(items, weights, hash, k)
            case Bug => forall k: nat :: i <= k < |items| ==> !Takes(items, weights, hash, k)
    decreases |weights| - i
  {
    if i < |weights| {
      DrawBelow(hash(items[i]), SumFrom(weights, i), SCALE, weights[i]);
      hide Draw;
      hide SumFrom;
      FirstTakes(items, weights, hash, i + 1);
    }
  }

  /** crush_bucket_list_choose */
  method Choose(items: seq<int>, weights: seq<nat>, sums: array<nat>, hash: Hash) returns (c: Choice)
    requires |items| == |weights| == sums.Length
    requires forall i :: 0 <= i < |weights| ==> sums[i] == SumFrom(weights, i)
    ensures c == ChooseFrom(items, weights, hash, 0)
    ensures match c
            case Item(j) => j < |items| && Takes(items, weights, hash, j)
                            && forall i: nat :: i < j ==> !Takes(items, weights, hash, i)
            case Bug => forall i: nat :: i < |items| ==> !Takes(items, weights, hash, i)
  {
    FirstTakes(items, weights, hash, 0);
    var i := 0;
    while i < |items|
      invariant 0 <= i <= |items|
      invariant ChooseFrom(items, weights, hash, i) == ChooseFrom(items, weights, hash, 0)
    {
      var w := hash(items[i]) % SCALE;
      w := w * sums[i];
      w := w / SCALE;
      if w < weights[i] {
        return Item(i);
      }
      i := i + 1;
    }
    c := Bug;
  }

  // ---- the item exists ----

  /** An item that is chosen has a weight. */
  lemma {:induction false} ChosenHasWeight(items: seq<int>, weights: seq<nat>, hash: Hash, i: nat)
    requires |items| == |weights| && i <= |weights|
    ensures var c := ChooseFrom(items, weights, hash, i); c.Item? ==> weights[c.index] > 0
    decreases |weights| - i
  {
    if i < |weights| {
      ChosenHasWeight(items, weights, hash, i + 1);
    }
  }

  /** BUG_ON is reached exactly when all weights are zero. */
  lemma {:induction false} BugIffWeightless(items: seq<int>, weights: seq<nat>, hash: Hash, i: nat)
    requires |items| == |weights| && i <= |weights|
    ensures ChooseFrom(items, weights, hash, i) == Bug <==> SumFrom(weights, i) == 0
    decreases |weights| - i
  {
    if i < |weights| {
      BugIffWeightless(items, weights, hash, i + 1);
      var s := SumFrom(weights, i);
      if s == 0 {
        DrawBelow(hash(items[i]), s, SCALE, weights[i]);
      } else if SumFrom(weights, i + 1) == 0 {
        DrawInside(hash(items[i]), s, SCALE);
      }
    }
  }

  // ---- stability ----

  lemma {:induction false} SumRaised(weights: seq<nat>, k: nat, more: nat, i: nat)
    requires k < |weights| && i <= |weights|
    ensures SumFrom(weights[k := weights[k] + more], i) == SumFrom(weights, i) + if i <= k then more else 0
    decreases |weights| - i
  {
    if i < |weights| {
      SumRaised(weights, k, more, i + 1);
    }
  }

  /** Raising the weight of an item never moves an input away from it. */
  lemma {:induction false} RaiseKeeps(items: seq<int>, weights: seq<nat>, hash: Hash, k: nat, more: nat, i: nat)
    requires |items| == |weights| && i <= k < |weights|
    requires ChooseFrom(items, weights, hash, i) == Item(k)
    ensures ChooseFrom(items, weights[k := weights[k] + more], hash, i) == Item(k)
    decreases |weights| - i
  {
    SumRaised(weights, k, more, i);
    DrawGrows(hash(items[i]), SumFrom(weights, i), more, SCALE, weights[i]);
    if i < k {
      RaiseKeeps(items, weights, hash, k, more, i + 1);
    }
  }

  lemma {:induction false} ChooseShift(item: int, weight: nat, items: seq<int>, weights: seq<nat>, hash: Hash, i: nat)
    requires |items| == |weights| && i <= |weights|
    ensures SumFrom([weight] + weights, i + 1) == SumFrom(weights, i)
    ensures ChooseFrom([item] + items, [weight] + weights, hash, i + 1)
            == match ChooseFrom(items, weights, hash, i) case Item(j) => Item(j + 1) case Bug => Bug
    decreases |weights| - i
  {
    if i < |weights| {
      ChooseShift(item, weight, items, weights, hash, i + 1);
    }
  }

  /** A new item in front leaves every input where it was, or takes it. */
  lemma PrependMovesOnlyToNew(item: int, weight: nat, items: seq<int>, weights: seq<nat>, hash: Hash)
    requires |items| == |weights|
    ensures var now := ChooseFrom([item] + items, [weight] + weights, hash, 0);
            now == Item(0)
            || now == match ChooseFrom(items, weights, hash, 0) case Item(j) => Item(j + 1) case Bug => Bug
  {
    ChooseShift(item, weight, items, weights, hash, 0);
  }
}
