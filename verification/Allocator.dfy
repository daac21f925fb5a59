/** The block allocator (src/ebofs/Allocator.h, src/ebofs/Allocator.cc), with reference
    counting (`ebofs_cloneable`) on. */
module Allocators {
  import opened Extents
  import opened AllocatorSpec
  import opened RefTable
  import opened FreeList
  import IntervalSet

  datatype Direction = Any | Forward | Backward

  /** The extent lies wholly after the last referenced block, or reaches no further than that block. */
  ghost predicate SeekSafe(referenced: set<nat>, ex: Extent) {
    || (forall b :: b in referenced ==> b < ex.start)
    || (exists b :: b in referenced && b + 1 >= ex.End())
  }

  lemma NewIsSeekSafe(referenced: set<nat>, ex: Extent)
    requires Range(ex.start, ex.length) !! referenced
    ensures SeekSafe(referenced, ex)
  {
    if b :| b in referenced && b >= ex.start {
      assert !InRange(ex.start, ex.length, b);
    }
  }

  lemma UsedIsSeekSafe(referenced: set<nat>, ex: Extent)
    requires Range(ex.start, ex.length) <= referenced && ex.length > 0
    ensures SeekSafe(referenced, ex)
  {
    assert InRange(ex.start, ex.length, ex.End() - 1);
    assert ex.End() - 1 in Range(ex.start, ex.length);
  }

  /** Four blocks in use, and an extent that begins at the third of them and ends two after the last. */
  lemma SeekLeaves()
    ensures var t := map[0 := Entry(4, 1)]; WellFormed(t) && !SeekSafe(Refs(t).Keys, Extent(2, 4))
  {
    var t := map[0 := Entry(4, 1)];
    RefsAt(t, 0, 3);
    forall b | b in Refs(t) ensures b < 4 {
      assert Holds(t, EntryOf(t, b), b);
    }
  }

  // ---- which run is taken ----

  /** The run at k is the one that a search of one size class finds: the first that fits from `near` on,
      or else the last that fits before it. */
  ghost predicate FoundIn(tab: Runs, num: nat, near: nat, dir: Direction, k: nat) {
    && Fits(tab, k, num)
    && (k >= near ==> dir != Backward && NoneFit(tab, near, k, num))
    && (k < near ==> dir != Forward && NoneFit(tab, k + 1, near, num) && (dir == Any ==> NoneFitAfter(tab, near, num)))
  }

  ghost predicate NotFoundIn(tab: Runs, num: nat, near: nat, dir: Direction) {
    (dir != Backward ==> NoneFitAfter(tab, near, num)) && (dir != Forward ==> NoneFit(tab, 0, near, num))
  }

  /** The classes that hold runs of at least num blocks, or some of them, up to class b. */
  ghost predicate NoneUpTo(free: Runs, num: nat, near: nat, dir: Direction, b: nat) {
    forall c: nat :: BucketOf(num) <= c < b ==> NotFoundIn(InBucket(free, c), num, near, dir)
  }

  /** The run at k is the first one found, the smallest class first. */
  ghost predicate FirstFound(free: Runs, num: nat, near: nat, dir: Direction, k: nat) {
    exists b: nat {:trigger InBucket(free, b)} ::
      BucketOf(num) <= b < NUM_FREE_BUCKETS && FoundIn(InBucket(free, b), num, near, dir, k)
      && NoneUpTo(free, num, near, dir, b)
  }

  /** For half the size, a quarter, and so on, one class each. */
  ghost predicate HalfFound(free: Runs, near: nat, num: nat, k: nat)
    decreases num
  {
    num > 0 &&
    if NotFoundIn(InBucket(free, BucketOf(num)), num, near, Any) then HalfFound(free, near, num / 2, k)
    else FoundIn(InBucket(free, BucketOf(num)), num, near, Any, k)
  }

  /** Where allocate takes its extent: as near to `near` as the run allows that it finds, looking
      forward before it looks back if `fwd`; or a whole shorter run, if no run is long enough. */
  ghost predicate TakenAt(free: Runs, num: nat, near: nat, fwd: bool, ex: Extent) {
    if NoRun(free, num) then exists k: nat :: k in free && HalfFound(free, near, num / 2, k) && ex == Extent(k, free[k])
    else
      exists k: nat ::
        && k in free && free[k] >= num && ex == Extent(Clamp(near, k, k + free[k] - num), num)
        && if fwd then
             FirstFound(free, num, near, Forward, k)
             || (NoneUpTo(free, num, near, Forward, NUM_FREE_BUCKETS) && FirstFound(free, num, near, Backward, k))
           else FirstFound(free, num, near, Any, k)
  }

  /** A run that fits is in one of the classes that were searched. */
  lemma NoneAnywhere(free: Runs, num: nat, near: nat, dir: Direction)
    requires NoneUpTo(free, num, near, dir, NUM_FREE_BUCKETS)
    ensures dir != Backward ==> NoneFitAfter(free, near, num)
    ensures dir != Forward ==> NoneFit(free, 0, near, num)
  {
    hide NoneFitAfter;
    hide NoneFit;
    hide InBucket;
    forall b: nat | BucketOf(num) <= b < NUM_FREE_BUCKETS ensures NotFoundIn(InBucket(free, b), num, near, dir) {
    }
    if dir != Backward {
      NotInAnyBucket(free, num, near);
    }
    if dir != Forward {
      NotInAnyBucketBefore(free, num, near);
    }
  }

  lemma NoneThere(tab: Runs, num: nat, near: nat, dir: Direction, k: nat)
    requires FoundIn(tab, num, near, dir, k)
    ensures !NotFoundIn(tab, num, near, dir)
  {
  }

  lemma RunFits(tab: Runs, free: Runs, b: nat, k: nat, num: nat)
    requires tab == InBucket(free, b) && Fits(tab, k, num)
    ensures !NoRun(free, num)
  {
    assert Fits(free, k, num);
  }

  lemma NoEntries()
    ensures WellFormed(map[]) && Refs(map[]) == map[]
  {
    assert Covered(map[]) == {};
  }

  lemma NoneInBucket(b: nat)
    ensures InBucket(map[], b) == map[]
  {
  }

  lemma FormatSpace(left: nat, numBlocks: nat)
    requires 2 <= left < numBlocks
    ensures var s := Space(Inc(map[], Range(2, left - 2)), {}, Range(left, numBlocks - left), {});
            && s.refs == Flat(Range(2, left - 2), 1)
            && Partitioned(s)
            && AllocatorSpec.ReleaseLimbo(AllocatorSpec.CommitLimbo(s))
               == Space(Flat(Range(2, left - 2), 1), Range(left, numBlocks - left), {}, {})
  {
  }

  lemma LimboApart(s: Space)
    requires Partitioned(s)
    ensures s.limboTab !! s.free && s.refs.Keys !! s.limbo + s.limboTab
  {
  }

  lemma MovedLimbo(limbo: Runs, tab: Runs)
    requires Separate(limbo) && Disjoint(tab) && Blocks(limbo) !! Blocks(tab)
    ensures Disjoint(tab + limbo)
    ensures Blocks(tab + limbo) == Blocks(tab) + Blocks(limbo)
    ensures Size(tab + limbo) == Size(tab) + Size(limbo)
  {
    UnionRuns(tab, limbo);
  }

  /** Looks to the right of `near`. */
  method FirstFit(tab: Runs, num: nat, near: nat) returns (p: Option<nat>)
    ensures p.Some? ==> p.value >= near && Fits(tab, p.value, num) && NoneFit(tab, near, p.value, num)
    ensures p.None? ==> NoneFitAfter(tab, near, num)
  {
    p := KeyAtOrAfter(tab.Keys, near);
    ghost var rest := tab.Keys;
    while p.Some? && tab[p.value] < num
      invariant p.Some? ==> p.value in tab && p.value in rest && p.value >= near && NoneFit(tab, near, p.value, num)
      invariant p.Some? ==> forall k :: k in tab && k >= p.value ==> k in rest
      invariant p.None? ==> NoneFitAfter(tab, near, num)
      decreases p.Some?, rest
    {
      rest := rest - {p.value};
      p := KeyAtOrAfter(tab.Keys, p.value + 1);
    }
  }

  /** Looks to the left of `near`. */
  method LastFit(tab: Runs, num: nat, near: nat) returns (p: Option<nat>)
    ensures p.Some? ==> p.value < near && Fits(tab, p.value, num) && NoneFit(tab, p.value + 1, near, num)
    ensures p.None? ==> NoneFit(tab, 0, near, num)
  {
    p := KeyBefore(tab.Keys, near);
    while p.Some? && tab[p.value] < num
      invariant p.Some? ==> p.value in tab && p.value < near && NoneFit(tab, p.value + 1, near, num)
      invariant p.None? ==> NoneFit(tab, 0, near, num)
      decreases if p.Some? then p.value + 1 else 0
    {
      p := KeyBefore(tab.Keys, p.value);
    }
  }

  ghost predicate NoneFrom(refs: map<nat, nat>, s: nat) {
    forall b :: b in refs ==> b < s
  }

  /** Some referenced block is the last one of the extent, or comes after it. */
  ghost predicate Reaches(refs: map<nat, nat>, ex: Extent) {
    exists b :: b in refs && b >= ex.start && b + 1 >= ex.End()
  }

  lemma NoEntryFrom(t: RefTab, s: nat)
    requires forall k :: k in t ==> k + t[k].len <= s
    ensures NoneFrom(Refs(t), s)
  {
    forall b | b in Refs(t) ensures b < s {
      assert Holds(t, EntryOf(t, b), b);
    }
  }

  /** If one round of alloc_inc is enough for all of the extent, the extent reaches no further than
      the table. */
  lemma PositionEnd(t: RefTab, cur: nat, ex: Extent)
    requires WellFormed(t) && Position(t, cur, ex.start) && ex.length > 0
    ensures (if cur > ex.start then ex.End() <= cur else ex.End() <= cur + t[cur].len) ==> Reaches(Refs(t), ex)
  {
    var b := if cur > ex.start then cur else cur + t[cur].len - 1;
    assert Holds(t, cur, b);
    RefsAt(t, cur, b);
  }

  /** What is beyond the counted part was referenced before. */
  lemma NoneIsSafe(refs: map<nat, nat>, ex: Extent)
    requires NoneFrom(refs, ex.start)
    ensures SeekSafe(refs.Keys, ex)
  {
  }

  lemma AboveOf(t: RefTab, cur: nat, s: nat) returns (above: nat)
    requires WellFormed(t) && Position(t, cur, s)
    ensures above in Refs(t) && above >= s
  {
    PositionReaches(t, cur, s);
    above :| above in Refs(t) && above >= s;
  }

  lemma ReachedBefore(refs: map<nat, nat>, ex0: Extent, ex: Extent)
    requires ex0.start <= ex.start && ex.End() == ex0.End()
    ensures Reaches(Inc(refs, Range(ex0.start, ex.start - ex0.start)), ex) ==> SeekSafe(refs.Keys, ex0)
  {
    IncKeeps(refs, Range(ex0.start, ex.start - ex0.start));
    if Reaches(Inc(refs, Range(ex0.start, ex.start - ex0.start)), ex) {
      var b :| b in Inc(refs, Range(ex0.start, ex.start - ex0.start)) && b >= ex.start && b + 1 >= ex.End();
      assert b in refs.Keys;
    }
  }

  /** Where the cursor goes next; there is nowhere to go if nothing is referenced from s on. */
  lemma NextOrNone(t: RefTab, s: nat)
    requires WellFormed(t) && NoneAcross(t, s)
    ensures var r := KeyAtOrAfter(t.Keys, s);
            if r.Some? then Position(t, r.value, s) else NoneFrom(Refs(t), s)
  {
    if KeyAtOrAfter(t.Keys, s).None? {
      NoEntryFrom(t, s);
    }
  }

  /** Only a first part of the extent has been counted, up to the last referenced block. */
  ghost predicate Partly(refs: map<nat, nat>, refs': map<nat, nat>, ex: Extent) {
    exists n: nat {:trigger Range(ex.start, n)} ::
      0 < n < ex.length && refs' == Inc(refs, Range(ex.start, n)) && NoneFrom(refs, ex.start + n)
  }

  lemma LeftBehind(refs: map<nat, nat>, ex0: Extent, s: nat, above: nat)
    requires ex0.start < s < ex0.End() && above in refs && above >= ex0.start
    requires NoneFrom(Inc(refs, Range(ex0.start, s - ex0.start)), s)
    ensures Partly(refs, Inc(refs, Range(ex0.start, s - ex0.start)), ex0) && !SeekSafe(refs.Keys, ex0)
  {
    var n: nat := s - ex0.start;
    IncKeeps(refs, Range(ex0.start, s - ex0.start));
    forall b | b in refs ensures b < s {
      assert b in Inc(refs, Range(ex0.start, s - ex0.start)).Keys;
    }
  }

  class Allocator {
    var freeTab: seq<Runs>      // free runs by size class
    var limboTab: Runs          // released, waiting for the super block to be written
    var allocTab: RefTab        // reference counts
    var limbo: Runs             // released since the last commit
    var freeBlocks: nat
    var limboBlocks: nat
    var lastPos: nat
    ghost var free: Runs        // the free runs of all size classes

    /** Gives the blocks s, ..., s + l - 1 of entry `cur` the count `ref` (0 drops them),
        splitting off what is left of the entry on either side. */
    method CarveEntry(cur: nat, s: nat, l: nat, ref: nat)
      requires cur in allocTab && cur <= s && 0 < l && s + l <= cur + allocTab[cur].len
      modifies this`allocTab
      ensures allocTab == Carve(old(allocTab), cur, s, l, ref)
    {
      var e := allocTab[cur];
      if cur < s {
        allocTab := allocTab[cur := Entry(s - cur, e.ref)];
        if ref > 0 {
          allocTab := allocTab[s := Entry(l, ref)];
        }
      } else if ref > 0 {
        allocTab := allocTab[cur := Entry(l, ref)];
      } else {
        allocTab := allocTab - {cur};
      }
      if s + l < cur + e.len {
        allocTab := allocTab[s + l := Entry(cur + e.len - (s + l), e.ref)];
      }
    }

    /** One round of alloc_inc, with the cursor on entry `cur`: the first l blocks of the
        extent gain a reference. */
    method IncAt(cur: nat, ex: Extent) returns (l: nat)
      requires WellFormed(allocTab) && Position(allocTab, cur, ex.start) && ex.length > 0
      modifies this`allocTab
      ensures WellFormed(allocTab) && NoneAcross(allocTab, ex.start + l)
      ensures 0 < l <= ex.length
      ensures Refs(allocTab) == Inc(old(Refs(allocTab)), Range(ex.start, l))
      ensures l == ex.length ==> Reaches(old(Refs(allocTab)), ex)
    {
      hide Refs;
      hide Inc;
      hide Carve;
      ghost var t := allocTab;
      PositionEnd(t, cur, ex);
      if cur > ex.start {
        // gap
        l := if ex.length <= cur - ex.start then ex.length else cur - ex.start;
        GapFree(t, ex.start, l);
        InsertUp(t, ex.start, l);
        allocTab := allocTab[ex.start := Entry(l, 1)];
        NothingAcross(allocTab, ex.start, l);
      } else {
        var e := allocTab[cur];
        l := if cur + e.len <= ex.End() then cur + e.len - ex.start else ex.length;
        CarveEntry(cur, ex.start, l, e.ref + 1);
        CarveUp(t, cur, ex.start, l);
      }
    }

    /** Places the cursor for alloc_inc; an extent after the last entry is dealt with at once. */
    method StartInc(ex: Extent) returns (done: bool, cur: nat)
      requires WellFormed(allocTab) && ex.length > 0
      modifies this`allocTab
      ensures done ==> WellFormed(allocTab)
      ensures done ==> Refs(allocTab) == Inc(old(Refs(allocTab)), Range(ex.start, ex.length))
      ensures done ==> NoneFrom(old(Refs(allocTab)), ex.start)
      ensures !done ==> allocTab == old(allocTab) && Position(allocTab, cur, ex.start)
    {
      hide Inc;
      hide Refs;
      done, cur := true, 0;
      var found := KeyAtOrAfter(allocTab.Keys, ex.start);
      var left := KeyBefore(allocTab.Keys, ex.start);
      if found.Some? && found.value == ex.start {
        return false, found.value;
      }
      // too far left?
      if left.Some? && left.value + allocTab[left.value].len > ex.start {
        return false, left.value;
      }
      if found.Some? {
        return false, found.value;
      }
      GapFree(allocTab, ex.start, ex.length);
      NoEntryFrom(allocTab, ex.start);
      if left.Some? && left.value + allocTab[left.value].len == ex.start && allocTab[left.value].ref == 1 {
        // adjacent: adjust the previous entry
        ExtendUp(allocTab, left.value, ex.length);
        allocTab := allocTab[left.value := Entry(allocTab[left.value].len + ex.length, 1)];
      } else {
        InsertUp(allocTab, ex.start, ex.length);
        allocTab := allocTab[ex.start := Entry(ex.length, 1)];
      }
    }

    /** Adds one reference to each block of the extent. It is not `ok` if the cursor leaves the
        table on the way; by then, only the blocks up to the last referenced one have been counted. */
    method AllocInc(ex0: Extent) returns (ok: bool)
      requires WellFormed(allocTab) && ex0.length > 0
      modifies this`allocTab
      ensures ok <==> SeekSafe(old(Refs(allocTab)).Keys, ex0)
      ensures WellFormed(allocTab)
      ensures ok ==> Refs(allocTab) == Inc(old(Refs(allocTab)), Range(ex0.start, ex0.length))
      ensures !ok ==> Partly(old(Refs(allocTab)), Refs(allocTab), ex0)
    {
      hide Refs;
      hide Inc;
      hide WellFormed;
      hide Position;
      hide SeekSafe;
      hide NoneFrom;
      hide Reaches;
      hide Partly;
      hide NoneAcross;
      ghost var refs0 := Refs(allocTab);
      var done, cur := StartInc(ex0);
      if done {
        NoneIsSafe(refs0, ex0);
        return true;
      }
      var ex := ex0;
      NoBlocks(refs0, ex0.start);
      ghost var above := AboveOf(allocTab, cur, ex.start);
      while true
        invariant WellFormed(allocTab) && Position(allocTab, cur, ex.start)
        invariant ex0.start <= ex.start < ex.End() == ex0.End()
        invariant Refs(allocTab) == Inc(refs0, Range(ex0.start, ex.start - ex0.start))
        decreases ex.length
      {
        var l := IncAt(cur, ex);
        IncTwice(refs0, ex0.start, ex.start, ex.start + l);
        ReachedBefore(refs0, ex0, ex);
        ex := Extent(ex.start + l, ex.length - l);
        if ex.length == 0 {
          return true;
        }
        var next := KeyAtOrAfter(allocTab.Keys, ex.start);
        NextOrNone(allocTab, ex.start);
        if next.None? {
          LeftBehind(refs0, ex0, ex.start, above);
          return false;
        }
        cur := next.value;
      }
    }

    // ---- limbo ----

    ghost predicate LimboOk()
      reads this`limbo, this`limboTab, this`limboBlocks
    {
      && Separate(limbo) && Disjoint(limboTab)
      && Blocks(limbo) !! Blocks(limboTab)
      && limboBlocks == Size(limbo) + Size(limboTab)
    }

    method ReleaseIntoLimbo(ex: Extent)
      requires LimboOk() && ex.length > 0
      requires Range(ex.start, ex.length) !! Blocks(limbo) + Blocks(limboTab)
      modifies this`limbo, this`limboBlocks
      ensures LimboOk()
      ensures Blocks(limbo) == old(Blocks(limbo)) + Range(ex.start, ex.length)
    {
      hide Blocks;
      hide Size;
      IntervalSet.InsertAdds(limbo, ex.start, ex.length);
      SizeInsert(limbo, ex.start, ex.length, IntervalSet.Insert(limbo, ex.start, ex.length));
      limbo := IntervalSet.Insert(limbo, ex.start, ex.length);
      limboBlocks := limboBlocks + ex.length;
    }

    /** One round of alloc_dec, with the cursor on entry `cur`: the first l blocks of the
        extent lose a reference. */
    method DecAt(cur: nat, ex: Extent) returns (l: nat)
      requires WellFormed(allocTab) && LimboOk() && ex.length > 0
      requires Holds(allocTab, cur, ex.start)
      requires Range(ex.start, ex.length) !! Blocks(limbo) + Blocks(limboTab)
      modifies this`allocTab, this`limbo, this`limboBlocks
      ensures WellFormed(allocTab) && LimboOk()
      ensures 0 < l <= ex.length
      ensures Refs(allocTab) == Dec(old(Refs(allocTab)), Range(ex.start, l))
      ensures Blocks(limbo) == old(Blocks(limbo)) + Dropped(old(Refs(allocTab)), Range(ex.start, l))
      ensures NoneAcross(allocTab, ex.start + l)
    {
      hide Refs;
      hide Dec;
      hide Blocks;
      hide Size;
      hide Dropped;
      hide Carve;
      hide NoneAcross;
      ghost var t := allocTab;
      var e := allocTab[cur];
      l := if cur + e.len <= ex.End() then cur + e.len - ex.start else ex.length;
      CarveEntry(cur, ex.start, l, e.ref - 1);
      CarveDown(t, cur, ex.start, l);
      if e.ref == 1 {
        assert Range(ex.start, l) <= Range(ex.start, ex.length);
        ReleaseIntoLimbo(Extent(ex.start, l));
      }
    }

    /** Places the cursor for alloc_dec, on the entry that holds the first block. */
    method StartDec(ex: Extent) returns (cur: nat)
      requires WellFormed(allocTab) && ex.start in Refs(allocTab)
      ensures Holds(allocTab, cur, ex.start)
    {
      hide Refs;
      ReferencedAt(allocTab, ex.start);
      var found := KeyAtOrAfter(allocTab.Keys, ex.start);
      if found.None? || found.value > ex.start {
        cur := KeyBefore(allocTab.Keys, ex.start).value;
      } else {
        cur := found.value;
      }
    }

    /** Drops one reference from each block of the extent; the blocks left without one go to limbo. */
    method AllocDec(ex0: Extent)
      requires WellFormed(allocTab) && LimboOk() && ex0.length > 0
      requires Range(ex0.start, ex0.length) <= Refs(allocTab).Keys
      requires Refs(allocTab).Keys !! Blocks(limbo) + Blocks(limboTab)
      modifies this`allocTab, this`limbo, this`limboBlocks
      ensures WellFormed(allocTab) && LimboOk()
      ensures Refs(allocTab) == Dec(old(Refs(allocTab)), Range(ex0.start, ex0.length))
      ensures Blocks(limbo) == old(Blocks(limbo)) + Dropped(old(Refs(allocTab)), Range(ex0.start, ex0.length))
    {
      hide Refs;
      hide Dec;
      hide Dropped;
      hide Range;
      hide WellFormed;
      hide LimboOk;
      ghost var refs0, limbo0 := Refs(allocTab), Blocks(limbo);
      NoBlocks(refs0, ex0.start);
      RefsPositive(allocTab);
      var ex := ex0;
      TailOf(ex0.start, ex0.start, ex0.End());
      var cur := StartDec(ex);
      while true
        invariant WellFormed(allocTab) && LimboOk()
        invariant Holds(allocTab, cur, ex.start)
        invariant ex0.start <= ex.start < ex.End() == ex0.End()
        invariant Refs(allocTab) == Dec(refs0, Range(ex0.start, ex.start - ex0.start))
        invariant Blocks(limbo) == limbo0 + Dropped(refs0, Range(ex0.start, ex.start - ex0.start))
        decreases ex.length
      {
        DecKeeps(refs0, Range(ex0.start, ex.start - ex0.start));
        TailOf(ex0.start, ex.start, ex.End());
        var l := DecAt(cur, ex);
        DecTwice(refs0, ex0.start, ex.start, ex.start + l);
        ex := Extent(ex.start + l, ex.length - l);
        if ex.length == 0 {
          return;
        }
        DecKeeps(refs0, Range(ex0.start, ex.start - ex0.start));
        TailOf(ex0.start, ex.start, ex.End());
        ReferencedAt(allocTab, ex.start);
        cur := KeyAtOrAfter(allocTab.Keys, ex.start).value;
      }
    }

    // ---- the free list ----

    ghost predicate FreeOk()
      reads this`free, this`freeTab, this`freeBlocks
    {
      && |freeTab| == NUM_FREE_BUCKETS
      && (forall b: nat :: b < NUM_FREE_BUCKETS ==> freeTab[b] == InBucket(free, b))
      && Separate(free)
      && freeBlocks == Size(free)
    }

    /** Takes a run off its list. */
    method RemoveFree(bucket: nat, k: nat)
      requires FreeOk() && bucket < NUM_FREE_BUCKETS && k in freeTab[bucket]
      modifies this`freeTab, this`freeBlocks, this`free
      ensures FreeOk() && free == old(free) - {k}
    {
      hide Blocks;
      hide Size;
      BlocksRemoveSize(free, k);
      forall b: nat | b < NUM_FREE_BUCKETS
        ensures InBucket(free - {k}, b) == if b == bucket then freeTab[b] - {k} else freeTab[b]
      {
        BucketWithout(free, b, k);
      }
      freeBlocks := freeBlocks - freeTab[bucket][k];
      var tab: Runs := freeTab[bucket] - {k};
      freeTab := freeTab[bucket := tab];
      free := free - {k};
    }

    /** Releases an extent that has no free neighbour. */
    method ReleaseLoner(ex: Extent)
      requires FreeOk() && ex.length > 0 && Loner(free, ex.start, ex.length)
      modifies this`freeTab, this`freeBlocks, this`free
      ensures FreeOk() && free == old(free)[ex.start := ex.length]
      ensures Blocks(free) == old(Blocks(free)) + Range(ex.start, ex.length)
    {
      hide Blocks;
      hide Size;
      LonerFits(free, ex.start, ex.length);
      BlocksInsert(free, ex.start, ex.length);
      SizeInsert(free, ex.start, ex.length, free[ex.start := ex.length]);
      var bucket := PickBucket(ex.length);
      forall b: nat | b < NUM_FREE_BUCKETS
        ensures InBucket(free[ex.start := ex.length], b)
             == if b == bucket then freeTab[b][ex.start := ex.length] else freeTab[b]
      {
        BucketWith(free, b, ex.start, ex.length);
      }
      var tab: Runs := freeTab[bucket][ex.start := ex.length];
      freeTab := freeTab[bucket := tab];
      freeBlocks := freeBlocks + ex.length;
      free := free[ex.start := ex.length];
    }

    /** Looks in one size class for a run of at least num blocks: the nearest one at or after
        `near`, and failing that the nearest one before it. */
    method Find(bucket: nat, num: nat, near: nat, dir: Direction) returns (r: Option<Extent>)
      requires FreeOk() && bucket < NUM_FREE_BUCKETS
      ensures r.Some? ==> Fits(freeTab[bucket], r.value.start, num)
      ensures r.Some? ==> r.value.length == freeTab[bucket][r.value.start]
      ensures r.Some? && r.value.start >= near ==> dir != Backward && NoneFit(freeTab[bucket], near, r.value.start, num)
      ensures r.Some? && r.value.start < near ==>
                && dir != Forward && NoneFit(freeTab[bucket], r.value.start + 1, near, num)
                && (dir == Any ==> NoneFitAfter(freeTab[bucket], near, num))
      ensures r.None? ==>
                && (dir != Backward ==> NoneFitAfter(freeTab[bucket], near, num))
                && (dir != Forward ==> NoneFit(freeTab[bucket], 0, near, num))
      ensures r.Some? ==> FoundIn(freeTab[bucket], num, near, dir, r.value.start)
      ensures r.None? ==> NotFoundIn(freeTab[bucket], num, near, dir)
    {
      if dir != Backward {
        var p := FirstFit(freeTab[bucket], num, near);
        if p.Some? {
          return Some(Extent(p.value, freeTab[bucket][p.value]));
        }
      }
      r := None;
      if dir != Forward {
        var p := LastFit(freeTab[bucket], num, near);
        if p.Some? {
          return Some(Extent(p.value, freeTab[bucket][p.value]));
        }
      }
    }

    /** Looks for a run of at least num blocks in the size classes that can hold one. */
    method FindContiguous(num: nat, near: nat, dir: Direction) returns (bucket: nat, r: Option<Extent>)
      requires FreeOk()
      ensures r.Some? ==> bucket < NUM_FREE_BUCKETS && Fits(freeTab[bucket], r.value.start, num)
      ensures r.Some? ==> r.value.length == freeTab[bucket][r.value.start]
      ensures r.None? && dir != Backward ==> NoneFitAfter(free, near, num)
      ensures r.None? && dir != Forward ==> NoneFit(free, 0, near, num)
      ensures r.Some? ==> FirstFound(free, num, near, dir, r.value.start)
      ensures r.None? ==> NoneUpTo(free, num, near, dir, NUM_FREE_BUCKETS)
    {
      hide NoneFitAfter;
      hide NoneFit;
      hide FoundIn;
      hide NotFoundIn;
      hide InBucket;
      hide Separate;
      r := None;
      bucket := PickBucket(num);
      while bucket < NUM_FREE_BUCKETS
        invariant BucketOf(num) <= bucket <= NUM_FREE_BUCKETS && r == None
        invariant NoneUpTo(free, num, near, dir, bucket)
      {
        r := Find(bucket, num, near, dir);
        if r.Some? {
          assert FoundIn(InBucket(free, bucket), num, near, dir, r.value.start);
          return;
        }
        bucket := bucket + 1;
      }
      NoneAnywhere(free, num, near, dir);
    }

    /** What a list has is a free run. */
    lemma RunOf(bucket: nat, k: nat, num: nat)
      requires FreeOk() && bucket < NUM_FREE_BUCKETS && Fits(freeTab[bucket], k, num)
      ensures k in free && free[k] == freeTab[bucket][k] && Separate(free)
    {
      hide Separate;
      hide Size;
    }

    /** Takes num blocks out of a free run, as near to `near` as the run allows, and puts the
        rest of the run back. */
    method TakePart(bucket: nat, run: Extent, num: nat, near: nat) returns (ex: Extent)
      requires FreeOk() && bucket < NUM_FREE_BUCKETS && Fits(freeTab[bucket], run.start, num)
      requires run.length == freeTab[bucket][run.start] && num > 0
      modifies this`freeTab, this`freeBlocks, this`free
      ensures FreeOk()
      ensures ex == Extent(Clamp(near, run.start, run.End() - num), num)
      ensures Range(ex.start, num) <= old(Blocks(free))
      ensures Blocks(free) == old(Blocks(free)) - Range(ex.start, num)
    {
      hide FreeOk;
      RunOf(bucket, run.start, num);
      ex := Extent(Clamp(near, run.start, run.End() - num), num);
      PartsAreLoners(free, run.start, ex.start, num);
      PartsBlocks(free, run.start, ex.start, num);
      hide Separate;
      hide Loner;
      hide Fits;
      RemoveFree(bucket, run.start);
      PutBack(Extent(run.start, ex.start - run.start));
      PutBack(Extent(ex.End(), run.End() - ex.End()));
    }

    /** Releases what is left of a run on one side, if anything is. */
    method PutBack(ex: Extent)
      requires FreeOk() && (ex.length > 0 ==> Loner(free, ex.start, ex.length))
      modifies this`freeTab, this`freeBlocks, this`free
      ensures FreeOk()
      ensures free == WithRun(old(free), ex.start, ex.length)
      ensures Blocks(free) == old(Blocks(free)) + Range(ex.start, ex.length)
    {
      if ex.length > 0 {
        ReleaseLoner(ex);
      } else {
        assert Range(ex.start, 0) == {};
      }
    }

    /** Looks for a partial extent: half the size, a quarter, and so on, each in one bucket only. */
    method FindPartial(num: nat, near: nat) returns (bucket: nat, r: Option<Extent>)
      requires FreeOk()
      ensures r.Some? ==> bucket < NUM_FREE_BUCKETS && Fits(freeTab[bucket], r.value.start, 1)
      ensures r.Some? ==> r.value.length == freeTab[bucket][r.value.start]
      ensures r.None? <==> NoHalf(free, num / 2)
      ensures r.Some? ==> HalfFound(free, near, num / 2, r.value.start)
    {
      hide InBucket;
      hide FoundIn;
      hide NotFoundIn;
      var try: nat := num / 2;
      r := None;
      bucket := 0;
      while try >= 1
        invariant r == None
        invariant NoHalf(free, try) <==> NoHalf(free, num / 2)
        invariant forall k :: HalfFound(free, near, try, k) ==> HalfFound(free, near, num / 2, k)
      {
        bucket := PickBucket(try);
        r := Find(bucket, try, near, Any);
        if r.Some? {
          NoneThere(InBucket(free, BucketOf(try)), try, near, Any, r.value.start);
          assert Fits(InBucket(free, BucketOf(try)), r.value.start, try);
          return;
        }
        BothSides(InBucket(free, BucketOf(try)), near, try);
        try := try / 2;
      }
    }

    // ---- the allocator as a whole ----

    ghost function Abs(): Space
      reads this
    {
      Space(Refs(allocTab), Blocks(free), Blocks(limbo), Blocks(limboTab))
    }

    /** Every managed block is in exactly one place, free runs are maximal and in the bucket of
        their length, and the two block totals are right. */
    ghost predicate Valid()
      reads this
    {
      FreeOk() && LimboOk() && WellFormed(allocTab) && Partitioned(Abs())
    }

    /** Takes an extent off the free list: num blocks of a long enough run if there is one, else
        a whole shorter run, else none. */
    method TakeExtent(num: nat, near0: nat) returns (found: bool, ex: Extent)
      requires FreeOk() && num > 0
      modifies this`freeTab, this`freeBlocks, this`free
      ensures FreeOk()
      ensures !found <==> Stuck(old(free), num)
      ensures !found ==> free == old(free)
      ensures found ==>
                && 0 < ex.length <= num
                && (ex.length == num <==> !NoRun(old(free), num))
                && Range(ex.start, ex.length) <= old(Blocks(free))
                && Blocks(free) == old(Blocks(free)) - Range(ex.start, ex.length)
      ensures found ==> TakenAt(old(free), num, if near0 <= 1 then lastPos else near0, near0 == 1, ex)
    {
      hide Blocks;
      hide Size;
      hide Range;
      hide InBucket;
      hide FirstFound;
      hide NoneUpTo;
      hide HalfFound;
      hide Clamp;
      hide Separate;
      // NEAR_LAST and NEAR_LAST_FWD stand for the end of the last allocation
      var near := if near0 <= 1 then lastPos else near0;
      var dir := if near0 == 1 then Forward else Any;
      var bucket, r := FindContiguous(num, near, dir);
      if r.None? && dir == Forward {
        bucket, r := FindContiguous(num, near, Backward);
      }
      if r.Some? {
        RunFits(freeTab[bucket], free, bucket, r.value.start, num);
        RunOf(bucket, r.value.start, num);
        ex := TakePart(bucket, r.value, num, near);
        return true, ex;
      }
      BothSides(free, near, num);
      found, ex := TakePartial(num, near);
    }

    method TakePartial(num: nat, near: nat) returns (found: bool, ex: Extent)
      requires FreeOk() && NoRun(free, num)
      modifies this`freeTab, this`freeBlocks, this`free
      ensures FreeOk()
      ensures !found <==> NoHalf(old(free), num / 2)
      ensures !found ==> free == old(free)
      ensures found ==>
                && 0 < ex.length < num
                && Range(ex.start, ex.length) <= old(Blocks(free))
                && Blocks(free) == old(Blocks(free)) - Range(ex.start, ex.length)
                && ex.start in old(free) && ex.length == old(free)[ex.start]
                && HalfFound(old(free), near, num / 2, ex.start)
    {
      hide Blocks;
      hide Size;
      hide Range;
      hide NoHalf;
      hide HalfFound;
      var bucket, r := FindPartial(num, near);
      if r.None? {
        return false, Extent(0, 0);
      }
      found, ex := true, r.value;
      assert !Fits(free, ex.start, num);
      BlocksRemove(free, ex.start);
      RemoveFree(bucket, ex.start);
    }

    /** Finds free blocks for an extent of num blocks and takes the first reference to them. The
        result is the number of blocks, less than num when no run of num blocks is free, or -1
        when the search finds nothing (where the original stops). */
    method Allocate(num: nat, near: nat) returns (r: int, ex: Extent)
      requires Valid() && num > 0
      modifies this
      ensures Valid()
      ensures r == -1 <==> Stuck(old(free), num)
      ensures r == -1 ==> Abs() == old(Abs())
      ensures r != -1 ==>
                && r == ex.length && 0 < ex.length <= num
                && (ex.length == num <==> !NoRun(old(free), num))
                && Range(ex.start, ex.length) <= old(Abs()).free
                && Abs() == AllocatorSpec.Allocate(old(Abs()), Range(ex.start, ex.length))
                && lastPos == ex.End()
      ensures r != -1 ==> TakenAt(old(free), num, if near <= 1 then old(lastPos) else near, near == 1, ex)
    {
      hide TakenAt;
      hide Refs;
      hide FreeOk;
      hide LimboOk;
      var found;
      found, ex := TakeExtent(num, near);
      if !found {
        return -1, ex;
      }
      lastPos := ex.End();
      NewIsSeekSafe(Refs(allocTab).Keys, ex);
      StepKeepsPartition(old(Abs()), OpAllocate(Range(ex.start, ex.length)));
      var ok := AllocInc(ex);
      r := ex.length;
    }

    /** Shares the blocks of an extent that is in use: `_clone` takes one more reference to each. */
    method Share(ex: Extent)
      requires Valid() && ex.length > 0
      requires Range(ex.start, ex.length) <= Abs().refs.Keys
      modifies this
      ensures Valid()
      ensures Abs() == AllocatorSpec.Share(old(Abs()), Range(ex.start, ex.length))
    {
      hide Refs;
      StepKeepsPartition(Abs(), OpShare(Range(ex.start, ex.length)));
      UsedIsSeekSafe(Refs(allocTab).Keys, ex);
      var ok := AllocInc(ex);
    }

    /** Gives up a reference to each block of an extent. */
    method Release(ex: Extent)
      requires Valid() && ex.length > 0
      requires Range(ex.start, ex.length) <= Abs().refs.Keys
      modifies this
      ensures Valid()
      ensures Abs() == AllocatorSpec.Release(old(Abs()), Range(ex.start, ex.length))
    {
      hide Refs;
      StepKeepsPartition(Abs(), OpRelease(Range(ex.start, ex.length)));
      AllocDec(ex);
    }

    // ---- releasing into the free list ----

    /** Adds the free run right after the extent to it, if there is one. */
    method MergeAfter(ex0: Extent) returns (ex: Extent)
      requires FreeOk() && ex0.length > 0 && Range(ex0.start, ex0.length) !! Blocks(free)
      modifies this`freeTab, this`freeBlocks, this`free
      ensures FreeOk() && ex.length > 0 && ex.start == ex0.start
      ensures Range(ex.start, ex.length) !! Blocks(free) && ex.End() !in free
      ensures Range(ex.start, ex.length) + Blocks(free) == Range(ex0.start, ex0.length) + old(Blocks(free))
    {
      hide Blocks;
      hide Size;
      hide Range;
      ex := ex0;
      var b := 0;
      while b < NUM_FREE_BUCKETS
        invariant b <= NUM_FREE_BUCKETS && FreeOk() && free == old(free) && ex == ex0
        invariant forall c: nat :: c < b ==> ex.End() !in InBucket(free, c)
      {
        if ex.End() in freeTab[b] {
          JoinAfter(free, ex.start, ex.length);
          var key := ex.End();
          ex := Extent(ex.start, ex.length + freeTab[b][key]);
          RemoveFree(b, key);
          return;
        }
        b := b + 1;
      }
      KeyInBucket(free, ex.End());
    }

    /** Finds the free run that ends where the extent begins, one step left of the end of the
        extent in some bucket. */
    method FindBefore(ex: Extent) returns (b: nat, p: Option<nat>)
      requires FreeOk() && ex.length > 0 && Range(ex.start, ex.length) !! Blocks(free)
      ensures p.Some? ==> b < NUM_FREE_BUCKETS && p.value in freeTab[b] && EndsAt(free, p.value, ex.start)
      ensures p.None? ==> forall k :: !EndsAt(free, k, ex.start)
    {
      hide Blocks;
      hide Size;
      hide Range;
      p := None;
      b := 0;
      while b < NUM_FREE_BUCKETS
        invariant b <= NUM_FREE_BUCKETS && p == None
        invariant forall k :: EndsAt(free, k, ex.start) ==> BucketOf(free[k]) >= b
      {
        p := KeyBefore(freeTab[b].Keys, ex.End());
        if p.Some? && p.value + freeTab[b][p.value] == ex.start {
          return;
        }
        forall k | EndsAt(free, k, ex.start) ensures BucketOf(free[k]) != b {
          FoundBefore(free, InBucket(free, BucketOf(free[k])), k, ex.start, ex.length);
        }
        p := None;
        b := b + 1;
      }
    }

    /** Adds the free run right before the extent to it, if there is one. */
    method MergeBefore(ex0: Extent) returns (ex: Extent)
      requires FreeOk() && ex0.length > 0 && Range(ex0.start, ex0.length) !! Blocks(free)
      requires ex0.End() !in free
      modifies this`freeTab, this`freeBlocks, this`free
      ensures FreeOk() && ex.length > 0 && ex.End() !in free
      ensures Range(ex.start, ex.length) !! Blocks(free)
      ensures forall k :: !EndsAt(free, k, ex.start)
      ensures Range(ex.start, ex.length) + Blocks(free) == Range(ex0.start, ex0.length) + old(Blocks(free))
    {
      hide Blocks;
      hide Size;
      hide Range;
      ex := ex0;
      var b, p := FindBefore(ex);
      if p.Some? {
        JoinBefore(free, p.value, ex.start, ex.length);
        ex := Extent(p.value, freeTab[b][p.value] + ex.length);
        RemoveFree(b, p.value);
      }
    }

    /** Releases an extent into the free list, joined with the free runs that touch it. */
    method ReleaseMerge(orig: Extent)
      requires FreeOk() && orig.length > 0 && Range(orig.start, orig.length) !! Blocks(free)
      modifies this`freeTab, this`freeBlocks, this`free
      ensures FreeOk()
      ensures Blocks(free) == old(Blocks(free)) + Range(orig.start, orig.length)
    {
      hide Blocks;
      hide Size;
      hide Range;
      var ex := MergeAfter(orig);
      ex := MergeBefore(ex);
      UntouchedIsLoner(free, ex.start, ex.length);
      hide FreeOk;
      ReleaseLoner(ex);
    }

    // ---- commit ----

    /** Moves the limbo extents into the limbo table, which the commit writes out. */
    method CommitLimbo()
      requires Valid()
      modifies this
      ensures Valid()
      ensures Abs() == AllocatorSpec.CommitLimbo(old(Abs()))
    {
      hide Size;
      hide Refs;
      StepKeepsPartition(Abs(), OpCommitLimbo);
      MovedLimbo(limbo, limboTab);
      NoRuns();
      MoveLimbo();
      limbo := map[];
      assert Abs() == AllocatorSpec.CommitLimbo(old(Abs()));
    }

    method MoveLimbo()
      modifies this`limboTab
      ensures limboTab == old(limboTab) + limbo
    {
      hide Ahead;
      hide Passed;
      PassedNone(limbo);
      AheadFirst(limbo);
      var p := KeyAtOrAfter(limbo.Keys, 0);
      ghost var rest := limbo.Keys;
      while p.Some?
        invariant Ahead(limbo, p, rest)
        invariant limboTab == old(limboTab) + Passed(limbo, p)
        decreases p.Some?, rest
      {
        AheadNext(limbo, p, rest);
        PassedNext(limbo, p.value);
        limboTab := limboTab[p.value := limbo[p.value]];
        rest := rest - {p.value};
        p := KeyAtOrAfter(limbo.Keys, p.value + 1);
      }
    }

    /** Frees the extents of the limbo table: the super block that still used them is gone. */
    method ReleaseLimbo()
      requires Valid()
      modifies this
      ensures Valid()
      ensures Abs() == AllocatorSpec.ReleaseLimbo(old(Abs()))
    {
      hide Size;
      hide Refs;
      StepKeepsPartition(Abs(), OpReleaseLimbo);
      LimboApart(Abs());
      NoRuns();
      FreeLimbo();
      limboTab := map[];
      assert Abs() == AllocatorSpec.ReleaseLimbo(old(Abs()));
    }

    method FreeLimbo()
      requires FreeOk() && Disjoint(limboTab) && Blocks(limboTab) !! Blocks(free)
      requires limboBlocks >= Size(limboTab)
      modifies this`freeTab, this`freeBlocks, this`free, this`limboBlocks
      ensures FreeOk()
      ensures Blocks(free) == old(Blocks(free)) + Blocks(limboTab)
      ensures limboBlocks == old(limboBlocks) - Size(limboTab)
    {
      hide *;
      PassedNone(limboTab);
      NoRuns();
      AheadFirst(limboTab);
      var p := KeyAtOrAfter(limboTab.Keys, 0);
      ghost var rest := limboTab.Keys;
      while p.Some?
        invariant Ahead(limboTab, p, rest)
        invariant FreeOk()
        invariant Blocks(free) == old(Blocks(free)) + Blocks(Passed(limboTab, p))
        invariant limboBlocks == old(limboBlocks) - Size(Passed(limboTab, p))
        decreases p.Some?, rest
      {
        AheadNext(limboTab, p, rest);
        PassedDisjoint(limboTab, p.value);
        var ex := Extent(p.value, limboTab[p.value]);
        limboBlocks := limboBlocks - ex.length;
        ReleaseMerge(ex);
        rest := rest - {p.value};
        p := KeyAtOrAfter(limboTab.Keys, p.value + 1);
      }
      assert p == None;
    }

    // ---- mkfs ----

    /** A fresh file system: the two super blocks are not managed, the node region and the two
        node maps after it are in use, and all other blocks of the device are free. */
    constructor Format(region: nat, usemap: nat, numBlocks: nat)
      requires region > 0 && usemap > 0 && 2 + region + 2 * usemap < numBlocks
      ensures Valid()
      ensures var meta := region + 2 * usemap;
              Abs() == Space(Flat(Range(2, meta), 1), Range(2 + meta, numBlocks - 2 - meta), {}, {})
    {
      freeTab := seq(NUM_FREE_BUCKETS, i => map[]);
      limboTab, limbo, allocTab := map[], map[], map[];
      freeBlocks, limboBlocks, lastPos := 0, 0, 0;
      free := map[];
      new;
      hide *;
      Empty();
      FillTables(region, usemap, numBlocks);
    }

    lemma Empty()
      requires allocTab == map[] && limboTab == limbo == free == map[] && freeBlocks == limboBlocks == 0
      requires |freeTab| == NUM_FREE_BUCKETS && forall i :: 0 <= i < |freeTab| ==> freeTab[i] == map[]
      ensures FreeOk() && LimboOk() && WellFormed(allocTab) && Abs() == Space(map[], {}, {}, {})
    {
      hide FreeOk;
      hide WellFormed;
      hide Refs;
      hide Blocks;
      hide Size;
      hide Separate;
      hide Disjoint;
      NoRuns();
      NoEntries();
      EmptyFree();
    }

    lemma EmptyFree()
      requires free == map[] && freeBlocks == 0 && |freeTab| == NUM_FREE_BUCKETS
      requires forall i :: 0 <= i < |freeTab| ==> freeTab[i] == map[]
      ensures FreeOk()
    {
      hide InBucket;
      hide Separate;
      hide Size;
      NoRuns();
      forall b: nat | b < NUM_FREE_BUCKETS ensures freeTab[b] == InBucket(free, b) {
        NoneInBucket(b);
      }
    }

    method FillTables(region: nat, usemap: nat, numBlocks: nat)
      requires region > 0 && usemap > 0 && 2 + region + 2 * usemap < numBlocks
      requires FreeOk() && LimboOk() && WellFormed(allocTab)
      requires Abs() == Space(map[], {}, {}, {})
      modifies this
      ensures Valid()
      ensures var meta := region + 2 * usemap;
              Abs() == Space(Flat(Range(2, meta), 1), Range(2 + meta, numBlocks - 2 - meta), {}, {})
    {
      hide Refs;
      hide LimboOk;
      hide WellFormed;
      hide Flat;
      hide Inc;
      var nodes := Extent(2, region);
      var even := Extent(nodes.End(), usemap);
      var odd := Extent(even.End(), usemap);
      var left := Extent(odd.End(), numBlocks - odd.End());
      FormatSpace(left.start, numBlocks);
      PutAll(nodes, even, odd, left);
      CommitLimbo();
      ReleaseLimbo();
    }

    method PutAll(nodes: Extent, even: Extent, odd: Extent, left: Extent)
      requires FreeOk() && LimboOk() && WellFormed(allocTab)
      requires Abs() == Space(map[], {}, {}, {})
      requires nodes.length > 0 && even.length > 0 && odd.length > 0 && left.length > 0
      requires even.start == nodes.End() && odd.start == even.End() && left.start == odd.End()
      modifies this
      ensures FreeOk() && LimboOk() && WellFormed(allocTab)
      ensures Abs() == Space(Inc(map[], Range(nodes.start, left.start - nodes.start)), {},
                             Range(left.start, left.length), {})
    {
      hide Refs;
      hide Range;
      hide FreeOk;
      hide LimboOk;
      hide WellFormed;
      NoBlocks(map[], nodes.start);
      ReleaseIntoLimbo(left);
      CountNext(nodes.start, nodes);
      CountNext(nodes.start, even);
      CountNext(nodes.start, odd);
    }

    /** Counts one more extent after the ones counted since `from`. */
    method CountNext(from: nat, ex: Extent)
      requires WellFormed(allocTab) && from <= ex.start && ex.length > 0
      requires Refs(allocTab) == Inc(map[], Range(from, ex.start - from))
      modifies this`allocTab
      ensures WellFormed(allocTab)
      ensures Refs(allocTab) == Inc(map[], Range(from, ex.End() - from))
    {
      hide Refs;
      hide WellFormed;
      hide Inc;
      IncKeeps(map[], Range(from, ex.start - from));
      IncTwice(map[], from, ex.start, ex.End());
      var ok := AllocInc(ex);
    }
  }
}