/** The size classes of the free list, and what can be found in them
    (src/ebofs/Allocator.h:41-50, src/ebofs/types.h). */
module FreeList {
  import opened Extents

  const NUM_FREE_BUCKETS: nat := 5
  const FREE_BUCKET_WIDTH: nat := 4   // 1 << EBOFS_FREE_BUCKET_BITS

  /** How often a length can be divided by the bucket width until it is at most 1. */
  function Steps(num: nat): nat {
    if num <= 1 then 0 else 1 + Steps(num / FREE_BUCKET_WIDTH)
  }

  function BucketOf(num: nat): (b: nat)
    ensures b < NUM_FREE_BUCKETS
  {
    if Steps(num) < NUM_FREE_BUCKETS then Steps(num) else NUM_FREE_BUCKETS - 1
  }

  method PickBucket(num0: nat) returns (b: nat)
    ensures b == BucketOf(num0)
  {
    var num: nat := num0;
    b := 0;
    while num > 1
      invariant b + Steps(num) == Steps(num0)
    {
      b := b + 1;
      num := num / FREE_BUCKET_WIDTH;
    }
    if b >= NUM_FREE_BUCKETS {
      b := NUM_FREE_BUCKETS - 1;
    }
  }

  lemma {:induction false} StepsMonotone(a: nat, b: nat)
    requires a <= b
    ensures Steps(a) <= Steps(b)
    decreases b
  {
    if a > 1 {
      StepsMonotone(a / FREE_BUCKET_WIDTH, b / FREE_BUCKET_WIDTH);
    }
  }

  /** A longer run is never in an earlier bucket. */
  lemma BucketMonotone(a: nat, b: nat)
    requires a <= b
    ensures BucketOf(a) <= BucketOf(b)
  {
    StepsMonotone(a, b);
  }

  /** The bounds of the buckets. */
  lemma BucketBounds(num: nat)
    ensures BucketOf(num) == if num < 2 then 0 else if num < 8 then 1 else if num < 32 then 2
                             else if num < 128 then 3 else 4
  {
    var q1 := num / FREE_BUCKET_WIDTH;
    var q2 := q1 / FREE_BUCKET_WIDTH;
    var q3 := q2 / FREE_BUCKET_WIDTH;
    assert num > 1 ==> Steps(num) == 1 + Steps(q1);
    assert q1 > 1 ==> Steps(q1) == 1 + Steps(q2);
    assert q2 > 1 ==> Steps(q2) == 1 + Steps(q3);
    assert q3 > 1 ==> Steps(q3) >= 1;
  }

  ghost function InBucket(free: Runs, b: nat): Runs {
    map k | k in free && BucketOf(free[k]) == b :: free[k]
  }

  ghost predicate Fits(tab: Runs, k: nat, num: nat) {
    k in tab && tab[k] >= num
  }

  /** No run that starts in [from, to) is as long as num. */
  ghost predicate NoneFit(tab: Runs, from: nat, to: nat, num: nat) {
    forall k :: from <= k < to ==> !Fits(tab, k, num)
  }

  ghost predicate NoneFitAfter(tab: Runs, from: nat, num: nat) {
    forall k :: from <= k ==> !Fits(tab, k, num)
  }

  /** No free run is as long as num. */
  ghost predicate NoRun(free: Runs, num: nat) {
    forall k :: !Fits(free, k, num)
  }

  /** The search for a partial extent finds nothing at size t, t/2, t/4, ..., 1: at each size
      it looks only in the bucket of that size. */
  ghost predicate NoHalf(free: Runs, t: nat) {
    t == 0 || (NoRun(InBucket(free, BucketOf(t)), t) && NoHalf(free, t / 2))
  }

  /** When `allocate` finds no extent at all. */
  ghost predicate Stuck(free: Runs, num: nat) {
    NoRun(free, num) && NoHalf(free, num / 2)
  }

  function Power2(i: nat): (p: nat)
    ensures p > 0
  {
    if i == 0 then 1 else 2 * Power2(i - 1)
  }

  lemma {:induction false} HalvesReach(free: Runs, m: nat, j: nat)
    requires NoHalf(free, Power2(m)) && j <= m
    ensures NoRun(InBucket(free, BucketOf(Power2(j))), Power2(j))
  {
    if j < m {
      assert Power2(m) / 2 == Power2(m - 1);
      HalvesReach(free, m - 1, j);
    }
  }

  /** A request for a power of two finds something whenever any block is free. */
  lemma PowerNeverStuck(free: Runs, i: nat, k: nat)
    requires k in free && free[k] > 0
    ensures !Stuck(free, Power2(i))
  {
    var len := free[k];
    if Stuck(free, Power2(i)) {
      assert !Fits(free, k, Power2(i));
      BucketBounds(len);
      var j := if len < 2 then 0 else if len < 8 then 1 else if len < 32 then 3 else if len < 128 then 5 else 7;
      assert Power2(0) == 1 && Power2(1) == 2 && Power2(3) == 8;
      assert Power2(5) == 4 * Power2(3) && Power2(7) == 4 * Power2(5);
      BucketBounds(Power2(j));
      PowerBelow(j, i);
      assert Power2(i) / 2 == Power2(i - 1);
      HalvesReach(free, i - 1, j);
      assert Fits(InBucket(free, BucketOf(Power2(j))), k, Power2(j));
    }
  }

  lemma {:induction false} PowerBelow(j: nat, i: nat)
    ensures Power2(j) < Power2(i) ==> j < i
  {
    if i == 0 {
      assert Power2(j) >= 1;
    } else if j > 0 {
      PowerBelow(j - 1, i - 1);
    }
  }

  /** With room left, allocate can still find nothing: three blocks wanted, only a run of two free. */
  lemma StuckWithRoom()
    ensures Stuck(map[10 := 2], 3)
    ensures 10 in Blocks(map[10 := 2])
  {
    BucketBounds(1);
    BucketBounds(2);
    var free: Runs := map[10 := 2];
    assert NoHalf(free, 0);
    assert NoHalf(free, 1);
    assert Covers(free, 10, 10);
  }

  // ---- edits of the free list ----

  /** The blocks of [start, start + len) are free of `free`, and so are the ones next to it. */
  ghost predicate Loner(free: Runs, start: nat, len: nat) {
    forall j :: j in free ==> j + free[j] < start || start + len < j
  }

  lemma BucketWithout(free: Runs, b: nat, k: nat)
    requires k in free
    ensures InBucket(free - {k}, b) == if BucketOf(free[k]) == b then InBucket(free, b) - {k} else InBucket(free, b)
  {
  }

  lemma BucketWith(free: Runs, b: nat, k: nat, len: nat)
    requires k !in free
    ensures InBucket(free[k := len], b) ==
            if BucketOf(len) == b then InBucket(free, b)[k := len] else InBucket(free, b)
  {
  }

  lemma LonerFits(free: Runs, start: nat, len: nat)
    requires Separate(free) && len > 0 && Loner(free, start, len)
    ensures start !in free && Separate(free[start := len])
    ensures Range(start, len) !! Blocks(free)
  {
    forall b | b in Range(start, len) ensures b !in Blocks(free) {
      InBlocks(free, b);
    }
  }

  ghost function WithRun(free: Runs, start: nat, len: nat): Runs {
    if len > 0 then free[start := len] else free
  }

  /** What is left of run k on either side of [s, s + l), once the run is off the list, has no
      free neighbour. */
  lemma PartsAreLoners(free: Runs, k: nat, s: nat, l: nat)
    requires Separate(free) && k in free && k <= s && 0 < l && s + l <= k + free[k]
    ensures Loner(free - {k}, k, s - k)
    ensures Loner(WithRun(free - {k}, k, s - k), s + l, k + free[k] - (s + l))
  {
  }

  lemma PartsBlocks(free: Runs, k: nat, s: nat, l: nat)
    requires Separate(free) && k in free && k <= s && s + l <= k + free[k]
    ensures Range(s, l) <= Blocks(free)
    ensures Blocks(free - {k}) + Range(k, s - k) + Range(s + l, k + free[k] - (s + l))
            == Blocks(free) - Range(s, l)
  {
    hide Blocks;
    BlocksRemove(free, k);
    RangeInThree(k, s, l, k + free[k]);
  }

  lemma FitsInItsBucket(free: Runs, k: nat, num: nat)
    requires Fits(free, k, num)
    ensures exists b: nat :: BucketOf(num) <= b < NUM_FREE_BUCKETS && Fits(InBucket(free, b), k, num)
  {
    BucketMonotone(num, free[k]);
    assert Fits(InBucket(free, BucketOf(free[k])), k, num);
  }

  lemma NotInAnyBucket(free: Runs, num: nat, near: nat)
    requires forall b: nat :: BucketOf(num) <= b < NUM_FREE_BUCKETS ==> NoneFitAfter(InBucket(free, b), near, num)
    ensures NoneFitAfter(free, near, num)
  {
    forall k | near <= k ensures !Fits(free, k, num) {
      if Fits(free, k, num) {
        FitsInItsBucket(free, k, num);
      }
    }
  }

  lemma NotInAnyBucketBefore(free: Runs, num: nat, near: nat)
    requires forall b: nat :: BucketOf(num) <= b < NUM_FREE_BUCKETS ==> NoneFit(InBucket(free, b), 0, near, num)
    ensures NoneFit(free, 0, near, num)
  {
    forall k | 0 <= k < near ensures !Fits(free, k, num) {
      if Fits(free, k, num) {
        FitsInItsBucket(free, k, num);
      }
    }
  }

  lemma BothSides(free: Runs, near: nat, num: nat)
    requires NoneFitAfter(free, near, num) && NoneFit(free, 0, near, num)
    ensures NoRun(free, num)
  {
  }

  /** The position in [lo, hi] nearest to x. */
  function Clamp(x: nat, lo: nat, hi: nat): nat {
    if x <= lo then lo else if x >= hi then hi else x
  }

  // ---- merging ----

  ghost predicate EndsAt(free: Runs, k: nat, s: nat) {
    k in free && k + free[k] == s
  }

  lemma KeyInBucket(free: Runs, k: nat)
    requires forall b: nat :: b < NUM_FREE_BUCKETS ==> k !in InBucket(free, b)
    ensures k !in free
  {
    assert k in free ==> k in InBucket(free, BucketOf(free[k]));
  }

  /** The extent [start, start + len) and the free run k that follows it. */
  lemma JoinAfter(free: Runs, start: nat, len: nat)
    requires Separate(free) && len > 0 && Range(start, len) !! Blocks(free) && start + len in free
    ensures var k := start + len;
            var n := free[k];
            && Range(start, len + n) !! Blocks(free - {k})
            && Range(start, len + n) + Blocks(free - {k}) == Range(start, len) + Blocks(free)
            && start + len + n !in free
  {
    hide Blocks;
    var k := start + len;
    BlocksRemove(free, k);
    RangeInThree(start, start, len, k + free[k]);
    assert Range(start, 0) == {};
  }

  /** The free run k and the extent [start, start + len) that follows it. */
  lemma JoinBefore(free: Runs, k: nat, start: nat, len: nat)
    requires Separate(free) && len > 0 && Range(start, len) !! Blocks(free) && EndsAt(free, k, start)
    ensures Range(k, free[k] + len) !! Blocks(free - {k})
    ensures Range(k, free[k] + len) + Blocks(free - {k}) == Range(start, len) + Blocks(free)
    ensures forall j :: !EndsAt(free, j, k)
  {
    hide Blocks;
    BlocksRemove(free, k);
    RangeInThree(k, k, free[k], start + len);
    assert Range(k, 0) == {};
  }

  /** In the bucket of a run that ends at start, one step left of the end of the extent is that run. */
  lemma FoundBefore(free: Runs, tab: Runs, k: nat, start: nat, len: nat)
    requires Separate(free) && len > 0 && Range(start, len) !! Blocks(free)
    requires EndsAt(free, k, start) && tab == InBucket(free, BucketOf(free[k]))
    ensures KeyBefore(tab.Keys, start + len) == Some(k)
  {
    FreshRun(free, start, len);
    assert k in tab.Keys && k < start + len;
    var p := KeyBefore(tab.Keys, start + len).value;
    assert p in free && k <= p;
  }

  /** An extent that no free run touches is a loner. */
  lemma UntouchedIsLoner(free: Runs, start: nat, len: nat)
    requires Separate(free) && len > 0 && Range(start, len) !! Blocks(free)
    requires start + len !in free && forall k :: !EndsAt(free, k, start)
    ensures Loner(free, start, len)
  {
    FreshRun(free, start, len);
    forall j | j in free ensures j + free[j] < start || start + len < j {
      assert !EndsAt(free, j, start);
    }
  }
}