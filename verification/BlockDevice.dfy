/** The request queues of the block device (src/ebofs/BlockDevice.h, src/ebofs/BlockDevice.cc):
    an elevator, barriers between elevators, and the lock on blocks that are being read or written. */
module BlockDevices {
  import opened Extents

  const IOV_MAX: nat := 1024

  /** A request: `bufs` is the number of buffers it brings to a readv or writev. */
  datatype Bio = Bio(id: nat, write: bool, start: nat, length: nat, bufs: nat) {
    function End(): nat { start + length }
  }

  /** Requests that follow one another without a gap, and are of one kind. */
  ghost predicate IsRun(bios: seq<Bio>, start: nat, length: nat) {
    if bios == [] then length == 0
    else
      && bios[0].start == start && bios[|bios| - 1].End() == start + length
      && (forall k {:trigger bios[k]} :: 0 <= k < |bios| - 1 ==> bios[k].End() == bios[k + 1].start)
      && (forall k :: 0 <= k < |bios| ==> bios[k].write == bios[0].write)
  }

  lemma RunAppend(bios: seq<Bio>, start: nat, length: nat, b: Bio)
    requires IsRun(bios, start, length) && b.start == start + length
    requires bios != [] ==> b.write == bios[0].write
    ensures IsRun(bios + [b], start, length + b.length)
  {
    var r := bios + [b];
    forall k {:trigger r[k]} | 0 <= k < |r| - 1 ensures r[k].End() == r[k + 1].start {
      assert k < |bios| - 1 ==> bios[k].End() == bios[k + 1].start;
    }
  }

  lemma RunPrepend(bios: seq<Bio>, start: nat, length: nat, b: Bio)
    requires IsRun(bios, start, length) && (bios == [] || b.End() == start)
    requires bios != [] ==> b.write == bios[0].write
    ensures IsRun([b] + bios, b.start, length + b.length)
  {
    var r := [b] + bios;
    forall k {:trigger r[k]} | 0 <= k < |r| - 1 ensures r[k].End() == r[k + 1].start {
      assert k > 0 ==> bios[k - 1].End() == bios[k - 1 + 1].start;
    }
  }

  ghost function Starts(bios: seq<Bio>): set<nat> {
    set k | 0 <= k < |bios| :: bios[k].start
  }

  lemma StartsMore(bios: seq<Bio>, b: Bio)
    ensures Starts(bios + [b]) == Starts(bios) + {b.start}
    ensures Starts([b] + bios) == Starts(bios) + {b.start}
  {
    var r, t := bios + [b], [b] + bios;
    assert r[|bios|] == b && t[0] == b;
    forall k | 0 <= k < |bios| ensures bios[k].start in Starts(r) && bios[k].start in Starts(t) {
      assert r[k] == bios[k] && t[k + 1] == bios[k];
    }
  }

  /** The requests came from the map, and their blocks are not locked. */
  ghost predicate Taken(bios: seq<Bio>, ioMap: map<nat, Bio>, locked: set<nat>) {
    forall k :: 0 <= k < |bios| ==>
      bios[k].start in ioMap && ioMap[bios[k].start] == bios[k] && Range(bios[k].start, bios[k].length) !! locked
  }

  lemma TakenMore(bios: seq<Bio>, ioMap: map<nat, Bio>, locked: set<nat>, b: Bio)
    requires Taken(bios, ioMap, locked) && b.start in ioMap && ioMap[b.start] == b
    requires Range(b.start, b.length) !! locked
    ensures Taken(bios + [b], ioMap, locked) && Taken([b] + bios, ioMap, locked)
  {
  }

  /** The request that a sweep in one direction reaches next. */
  ghost predicate Next(keys: set<nat>, forward: bool, pos: nat, i: nat) {
    i in keys
    && if forward then pos <= i && forall k :: k in keys && k < i ==> k < pos
       else i <= pos && forall k :: k in keys && k > i ==> k > pos
  }

  ghost predicate OnTheWay(keys: set<nat>, forward: bool, pos: nat) {
    exists k :: k in keys && if forward then k >= pos else k <= pos
  }

  /** Where the sweep is: it goes on as long as there is something on the way, else it begins anew
      from one of the two ends. */
  ghost function SweepForward(keys: set<nat>, forward: bool, pos: nat, bidir: bool): bool {
    if OnTheWay(keys, forward, pos) then forward else !forward || !bidir
  }

  ghost function SweepPos(keys: set<nat>, forward: bool, pos: nat, bidir: bool, numBlocks: nat): nat {
    if OnTheWay(keys, forward, pos) then pos
    else if SweepForward(keys, forward, pos, bidir) then 0 else numBlocks
  }

  ghost function Bufs(bios: seq<Bio>): nat {
    if bios == [] then 0 else Bufs(bios[..|bios| - 1]) + bios[|bios| - 1].bufs
  }

  lemma BufsAppend(bios: seq<Bio>, b: Bio)
    ensures Bufs(bios + [b]) == Bufs(bios) + b.bufs
  {
    assert (bios + [b])[..|bios|] == bios;
  }

  lemma {:induction false} BufsPrepend(bios: seq<Bio>, b: Bio)
    ensures Bufs([b] + bios) == Bufs(bios) + b.bufs
    decreases |bios|
  {
    if bios == [] {
      BufsAppend([], b);
      assert [] + [b] == [b] + [];
    } else {
      var n := |bios| - 1;
      BufsPrepend(bios[..n], b);
      BufsAppend([b] + bios[..n], bios[n]);
      assert [b] + bios == ([b] + bios[..n]) + [bios[n]];
    }
  }

  /** Why the next request `b` is not taken along. */
  ghost predicate Barred(bios: seq<Bio>, locked: set<nat>, b: Bio) {
    Intersects(locked, b) || (bios != [] && Bufs(bios) + b.bufs >= IOV_MAX)
  }

  /** The run could not be longer: what is left next to it is of the other kind, or barred. */
  ghost predicate FullUp(bios: seq<Bio>, m: map<nat, Bio>, locked: set<nat>) {
    bios != [] ==>
      var b := bios[|bios| - 1];
      var n: Option<nat> := KeyAtOrAfter(m.Keys, b.start + 1);
      n == Some(b.End()) && m[n.value].write == bios[0].write ==> Barred(bios, locked, m[n.value])
  }

  ghost predicate FullDown(bios: seq<Bio>, m: map<nat, Bio>, locked: set<nat>) {
    bios != [] ==>
      var n: Option<nat> := KeyBefore(m.Keys, bios[0].start);
      n.Some? && m[n.value].End() == bios[0].start && m[n.value].write == bios[0].write
      ==> Barred(bios, locked, m[n.value])
  }

  /** A sweep over the requests m takes the run `bios`: it begins with the request that the sweep comes
      to next, unless that one touches a locked block; then nothing is taken. What is left next to the
      run cannot be taken along. */
  ghost predicate SweepTakes(m: map<nat, Bio>, forward: bool, pos: nat, bidir: bool, numBlocks: nat,
                             locked: set<nat>, bios: seq<Bio>, start: nat) {
    var ahead := SweepForward(m.Keys, forward, pos, bidir);
    && (exists i {:trigger m[i]} ::
          && Next(m.Keys, ahead, SweepPos(m.Keys, forward, pos, bidir, numBlocks), i)
          && (bios == [] <==> Intersects(locked, m[i]))
          && (bios != [] ==> i == if ahead then start else bios[|bios| - 1].start))
    && if ahead then FullUp(bios, m - Starts(bios), locked) else FullDown(bios, m - Starts(bios), locked)
  }

  lemma KeyPast(m: map<nat, Bio>, k: nat)
    ensures KeyAtOrAfter((m - {k}).Keys, k + 1) == KeyAtOrAfter(m.Keys, k + 1)
    ensures KeyBefore((m - {k}).Keys, k) == KeyBefore(m.Keys, k)
  {
    var keys, rest := m.Keys, (m - {k}).Keys;
    var a: Option<nat>, b: Option<nat> := KeyAtOrAfter(rest, k + 1), KeyAtOrAfter(keys, k + 1);
    assert a.Some? ==> a.value in keys;
    assert b.Some? ==> b.value in rest;
    var c: Option<nat>, d: Option<nat> := KeyBefore(rest, k), KeyBefore(keys, k);
    assert c.Some? ==> c.value in keys;
    assert d.Some? ==> d.value in rest;
  }

  /** Where an upward run from request `first` has come to: `i` is the request above it. */
  ghost predicate Upward(was: map<nat, Bio>, now: map<nat, Bio>, bios: seq<Bio>, pos: nat, i: Option<nat>, iovs: nat,
                         first: nat, locked: set<nat>, kind: bool) {
    first in was && iovs == Bufs(bios)
    && if bios == [] then i == Some(first) && now == was && pos == first && was[first].write == kind
       else
         var b := bios[|bios| - 1];
         && pos == b.End() && i == KeyAtOrAfter(now.Keys, b.start + 1)
         && bios[0].write == kind && !Intersects(locked, was[first])
  }

  lemma UpStart(m: map<nat, Bio>, first: nat, locked: set<nat>, kind: bool)
    requires first in m && m[first].write == kind
    ensures Upward(m, m, [], first, Some(first), 0, first, locked, kind)
  {
  }

  lemma UpStep(was: map<nat, Bio>, now: map<nat, Bio>, bios: seq<Bio>, length: nat, pos: nat, i: Option<nat>,
               iovs: nat, first: nat, locked: set<nat>, kind: bool)
    requires Upward(was, now, bios, pos, i, iovs, first, locked, kind)
    requires Going(was, now, bios, first, length, locked, kind) && pos == first + length
    requires i.Some? && i.value in now && now[i.value].write == kind && pos == i.value
    requires !Intersects(locked, now[i.value])
    ensures var b := now[i.value];
            && b.start == i.value && |now - {i.value}| < |now|
            && Going(was, now - {i.value}, bios + [b], first, length + b.length, locked, kind)
            && Upward(was, now - {i.value}, bios + [b], pos + b.length, KeyAtOrAfter(now.Keys, i.value + 1),
                      iovs + b.bufs, first, locked, kind)
  {
    hide Going;
    hide Intersects;
    hide Bufs;
    hide KeyAtOrAfter;
    GoUp(was, now, bios, first, length, locked, kind, i.value);
    BufsAppend(bios, now[i.value]);
    KeyPast(now, i.value);
  }

  lemma UpBarred(was: map<nat, Bio>, now: map<nat, Bio>, bios: seq<Bio>, pos: nat, i: Option<nat>, iovs: nat,
                 first: nat, locked: set<nat>, kind: bool)
    requires Upward(was, now, bios, pos, i, iovs, first, locked, kind) && i.Some? && i.value in now
    requires Intersects(locked, now[i.value]) || (bios != [] && iovs + now[i.value].bufs >= IOV_MAX)
    ensures Barred(bios, locked, now[i.value])
  {
  }

  ghost predicate UpStops(now: map<nat, Bio>, bios: seq<Bio>, pos: nat, i: Option<nat>, locked: set<nat>, kind: bool) {
    i.Some? && i.value in now && pos == i.value && now[i.value].write == kind ==> Barred(bios, locked, now[i.value])
  }

  lemma UpEnd(was: map<nat, Bio>, now: map<nat, Bio>, bios: seq<Bio>, pos: nat, i: Option<nat>, iovs: nat,
              first: nat, locked: set<nat>, kind: bool)
    requires Upward(was, now, bios, pos, i, iovs, first, locked, kind)
    requires UpStops(now, bios, pos, i, locked, kind)
    ensures FullUp(bios, now, locked)
    ensures bios == [] <==> Intersects(locked, was[first])
  {
    hide Intersects;
    hide Bufs;
    hide KeyAtOrAfter;
  }

  /** Where a downward run from request `last` has come to: `i` is the request below it. */
  ghost predicate Downward(was: map<nat, Bio>, now: map<nat, Bio>, bios: seq<Bio>, start: nat, pos: nat,
                           i: Option<nat>, iovs: nat, last: nat, locked: set<nat>, kind: bool) {
    last in was && iovs == Bufs(bios)
    && if bios == [] then i == Some(last) && now == was && start == last && pos == was[last].End() && was[last].write == kind
       else
         && pos == start == bios[0].start && i == KeyBefore(now.Keys, start) && bios[|bios| - 1].start == last
         && bios[0].write == kind && !Intersects(locked, was[last])
  }

  lemma DownStart(m: map<nat, Bio>, last: nat, locked: set<nat>, kind: bool)
    requires last in m && m[last].write == kind
    ensures Downward(m, m, [], last, m[last].End(), Some(last), 0, last, locked, kind)
  {
  }

  lemma DownStep(was: map<nat, Bio>, now: map<nat, Bio>, bios: seq<Bio>, start: nat, length: nat, pos: nat,
                 i: Option<nat>, iovs: nat, last: nat, locked: set<nat>, kind: bool)
    requires Downward(was, now, bios, start, pos, i, iovs, last, locked, kind)
    requires Going(was, now, bios, start, length, locked, kind)
    requires i.Some? && i.value in now && now[i.value].write == kind && pos == now[i.value].End()
    requires !Intersects(locked, now[i.value])
    ensures var b := now[i.value];
            && b.start == i.value <= start && pos - b.length == b.start && |now - {i.value}| < |now|
            && Going(was, now - {i.value}, [b] + bios, b.start, length + b.length, locked, kind)
            && Downward(was, now - {i.value}, [b] + bios, b.start, b.start, KeyBefore(now.Keys, i.value), iovs + b.bufs,
                        last, locked, kind)
  {
    hide Going;
    hide Intersects;
    hide Bufs;
    hide KeyBefore;
    GoDown(was, now, bios, start, length, locked, kind, i.value);
    BufsPrepend(bios, now[i.value]);
    KeyPast(now, i.value);
  }

  lemma DownBarred(was: map<nat, Bio>, now: map<nat, Bio>, bios: seq<Bio>, start: nat, pos: nat,
                   i: Option<nat>, iovs: nat, last: nat, locked: set<nat>, kind: bool)
    requires Downward(was, now, bios, start, pos, i, iovs, last, locked, kind) && i.Some? && i.value in now
    requires Intersects(locked, now[i.value]) || (bios != [] && iovs + now[i.value].bufs >= IOV_MAX)
    ensures Barred(bios, locked, now[i.value])
  {
  }

  ghost predicate DownStops(now: map<nat, Bio>, bios: seq<Bio>, pos: nat, i: Option<nat>, locked: set<nat>, kind: bool) {
    i.Some? && i.value in now && pos == now[i.value].End() && now[i.value].write == kind ==> Barred(bios, locked, now[i.value])
  }

  lemma DownEnd(was: map<nat, Bio>, now: map<nat, Bio>, bios: seq<Bio>, start: nat, pos: nat,
                i: Option<nat>, iovs: nat, last: nat, locked: set<nat>, kind: bool)
    requires Downward(was, now, bios, start, pos, i, iovs, last, locked, kind)
    requires DownStops(now, bios, pos, i, locked, kind)
    ensures bios != [] ==> bios[|bios| - 1].start == last && pos == start
    ensures FullDown(bios, now, locked)
    ensures bios == [] <==> Intersects(locked, was[last])
  {
    hide Intersects;
    hide Bufs;
    hide KeyBefore;
  }

  class ElevatorQueue {
    var ioMap: map<nat, Bio>
    var forward: bool
    var pos: nat

    constructor ()
      ensures Valid() && ioMap == map[]
    {
      ioMap, forward, pos := map[], false, 0;
    }

    ghost predicate Valid()
      reads this
    {
      Keyed(ioMap)
    }

    method SubmitIo(b: Bio)
      requires Valid() && b.start !in ioMap && b.length > 0
      modifies this`ioMap
      ensures Valid() && ioMap == old(ioMap)[b.start := b]
    {
      ioMap := ioMap[b.start := b];
    }

    method CancelIo(b: Bio)
      requires Valid() && b.start in ioMap && ioMap[b.start] == b
      modifies this`ioMap
      ensures Valid() && ioMap == old(ioMap) - {b.start}
    {
      ioMap := ioMap - {b.start};
    }

    /** The request to start from, in the direction of the elevator, which turns at the end. */
    method FindPosition(bidir: bool, numBlocks: nat) returns (i: nat)
      requires Valid() && ioMap != map[]
      requires forall k :: k in ioMap ==> k <= numBlocks
      modifies this`forward, this`pos
      ensures forward == SweepForward(ioMap.Keys, old(forward), old(pos), bidir)
      ensures pos == SweepPos(ioMap.Keys, old(forward), old(pos), bidir, numBlocks)
      ensures Next(ioMap.Keys, forward, pos, i)
    {
      var tries := 2;
      while tries > 0
        invariant 0 < tries <= 2
        invariant tries == 2 ==> forward == old(forward) && pos == old(pos)
        invariant tries == 1 ==> !OnTheWay(ioMap.Keys, old(forward), old(pos))
        invariant tries == 1 ==> forward == (!old(forward) || !bidir) && pos == if forward then 0 else numBlocks
      {
        if forward {
          var p: Option<nat> := KeyAtOrAfter(ioMap.Keys, pos);
          if p.Some? {
            return p.value;
          }
        } else {
          var p: Option<nat> := KeyBefore(ioMap.Keys, pos + 1);
          if p.Some? {
            return p.value;
          }
        }
        SomeKey(ioMap);
        if bidir || !forward {
          forward := !forward;
        }
        pos := if forward then 0 else numBlocks;
        tries := tries - 1;
      }
    }

    /** Takes a run of requests out of the queue, upwards. */
    method TakeForward(first: nat, locked: set<nat>) returns (bios: seq<Bio>, length: nat)
      requires Valid() && first in ioMap
      modifies this`ioMap, this`pos
      ensures Valid() && ioMap == old(ioMap) - Starts(bios)
      ensures IsRun(bios, first, length) && Taken(bios, old(ioMap), locked)
      ensures pos == first + length && FullUp(bios, ioMap, locked)
      ensures bios == [] <==> Intersects(locked, old(ioMap)[first])
    {
      hide Going;
      hide IsRun;
      hide Taken;
      hide Starts;
      hide Keyed;
      hide Intersects;
      hide Upward;
      hide Barred;
      hide FullUp;
      var kind := ioMap[first].write;
      bios, length, pos := [], 0, first;
      var iovs: nat := 0;
      var i: Option<nat> := Some(first);
      GoFrom(ioMap, first, locked, kind);
      UpStart(ioMap, first, locked, kind);
      while i.Some? && pos == i.value && ioMap[i.value].write == kind
        invariant pos == first + length && (i.Some? ==> i.value in ioMap)
        invariant Going(old(ioMap), ioMap, bios, first, length, locked, kind)
        invariant Upward(old(ioMap), ioMap, bios, pos, i, iovs, first, locked, kind)
        decreases |ioMap|
      {
        var bio := ioMap[i.value];
        if Intersects(locked, bio) || (bios != [] && iovs + bio.bufs >= IOV_MAX) {
          UpBarred(old(ioMap), ioMap, bios, pos, i, iovs, first, locked, kind);
          break;
        }
        UpStep(old(ioMap), ioMap, bios, length, pos, i, iovs, first, locked, kind);
        iovs := iovs + bio.bufs;
        bios := bios + [bio];
        length := length + bio.length;
        pos := pos + bio.length;
        i, ioMap := KeyAtOrAfter(ioMap.Keys, i.value + 1), ioMap - {bio.start};
      }
      UpEnd(old(ioMap), ioMap, bios, pos, i, iovs, first, locked, kind);
      GoneTo(old(ioMap), ioMap, bios, first, length, locked, kind);
    }

    /** The same, downwards. */
    method TakeBackward(last: nat, locked: set<nat>) returns (bios: seq<Bio>, start: nat, length: nat)
      requires Valid() && last in ioMap
      modifies this`ioMap, this`pos
      ensures Valid() && ioMap == old(ioMap) - Starts(bios)
      ensures IsRun(bios, start, length) && Taken(bios, old(ioMap), locked)
      ensures bios != [] ==> bios[|bios| - 1].start == last && pos == start
      ensures FullDown(bios, ioMap, locked)
      ensures bios == [] <==> Intersects(locked, old(ioMap)[last])
    {
      hide Going;
      hide IsRun;
      hide Taken;
      hide Starts;
      hide Keyed;
      hide Intersects;
      hide Downward;
      hide Barred;
      hide FullDown;
      var kind := ioMap[last].write;
      bios, start, length, pos := [], last, 0, ioMap[last].End();
      var iovs: nat := 0;
      var i: Option<nat> := Some(last);
      GoFrom(ioMap, start, locked, kind);
      DownStart(ioMap, last, locked, kind);
      while i.Some? && pos == ioMap[i.value].End() && ioMap[i.value].write == kind
        invariant Going(old(ioMap), ioMap, bios, start, length, locked, kind)
        invariant Downward(old(ioMap), ioMap, bios, start, pos, i, iovs, last, locked, kind)
        invariant i.Some? ==> i.value in ioMap
        decreases |ioMap|
      {
        var bio := ioMap[i.value];
        if Intersects(locked, bio) || (bios != [] && iovs + bio.bufs >= IOV_MAX) {
          DownBarred(old(ioMap), ioMap, bios, start, pos, i, iovs, last, locked, kind);
          break;
        }
        DownStep(old(ioMap), ioMap, bios, start, length, pos, i, iovs, last, locked, kind);
        iovs := iovs + bio.bufs;
        bios := [bio] + bios;
        start := if bio.start < start then bio.start else start;
        length := length + bio.length;
        pos := pos - bio.length;
        i, ioMap := KeyBefore(ioMap.Keys, i.value), ioMap - {bio.start};
      }
      DownEnd(old(ioMap), ioMap, bios, start, pos, i, iovs, last, locked, kind);
      GoneTo(old(ioMap), ioMap, bios, start, length, locked, kind);
    }

    /** dequeue_io: removes a run of adjacent requests of one kind that touch no locked block; they
        cover exactly the range that is reported. The run begins where the sweep comes next, and is
        as long as it can be. */
    method DequeueIo(locked: set<nat>, bidir: bool, numBlocks: nat) returns (bios: seq<Bio>, start: nat, length: nat)
      requires Valid() && ioMap != map[]
      requires forall k :: k in ioMap ==> k <= numBlocks
      modifies this
      ensures Valid() && ioMap == old(ioMap) - Starts(bios)
      ensures IsRun(bios, start, length) && Taken(bios, old(ioMap), locked)
      ensures forward == SweepForward(old(ioMap).Keys, old(forward), old(pos), bidir)
      ensures bios != [] ==> pos == if forward then start + length else start
      ensures SweepTakes(old(ioMap), old(forward), old(pos), bidir, numBlocks, locked, bios, start)
    {
      hide SweepPos;
      hide SweepForward;
      hide Taken;
      var i := FindPosition(bidir, numBlocks);
      assert i in old(ioMap) && old(ioMap)[i] == ioMap[i];
      if forward {
        start := i;
        bios, length := TakeForward(i, locked);
      } else {
        bios, start, length := TakeBackward(i, locked);
      }
    }
  }

  predicate Intersects(locked: set<nat>, b: Bio) {
    exists x :: x in locked && b.start <= x < b.End()
  }

  lemma SomeKey(m: map<nat, Bio>)
    requires m != map[]
    ensures exists k: nat :: k in m
  {
    var k :| k in m;
  }

  /** A request is filed under its first block. */
  ghost predicate Keyed(m: map<nat, Bio>) {
    forall k :: k in m ==> m[k].start == k && m[k].length > 0
  }

  /** The requests taken so far, and the ones left. */
  ghost predicate Going(was: map<nat, Bio>, now: map<nat, Bio>, bios: seq<Bio>, start: nat, length: nat,
                        locked: set<nat>, kind: bool) {
    && Keyed(now) && now == was - Starts(bios)
    && IsRun(bios, start, length) && Taken(bios, was, locked)
    && (bios != [] ==> bios[0].write == kind)
  }

  lemma GoFrom(m: map<nat, Bio>, start: nat, locked: set<nat>, kind: bool)
    requires Keyed(m)
    ensures Going(m, m, [], start, 0, locked, kind)
  {
  }

  lemma GoneTo(was: map<nat, Bio>, now: map<nat, Bio>, bios: seq<Bio>, start: nat, length: nat, locked: set<nat>, kind: bool)
    requires Going(was, now, bios, start, length, locked, kind)
    ensures Keyed(now) && now == was - Starts(bios)
    ensures IsRun(bios, start, length) && Taken(bios, was, locked)
  {
  }

  lemma Free(locked: set<nat>, b: Bio)
    requires !Intersects(locked, b)
    ensures Range(b.start, b.length) !! locked
  {
  }

  lemma GoUp(was: map<nat, Bio>, now: map<nat, Bio>, bios: seq<Bio>, start: nat, length: nat, locked: set<nat>,
             kind: bool, k: nat)
    requires Going(was, now, bios, start, length, locked, kind)
    requires k in now && k == start + length && now[k].write == kind && !Intersects(locked, now[k])
    ensures now[k].start == k && now[k].length > 0 && |now - {k}| < |now|
    ensures Going(was, now - {k}, bios + [now[k]], start, length + now[k].length, locked, kind)
  {
    hide IsRun;
    hide Taken;
    hide Starts;
    var bio := now[k];
    Free(locked, bio);
    RunAppend(bios, start, length, bio);
    TakenMore(bios, was, locked, bio);
    StartsMore(bios, bio);
    FewerRequests(now, k);
    LeaveOut(was, Starts(bios), k);
  }

  lemma LeaveOut(was: map<nat, Bio>, s: set<nat>, k: nat)
    ensures was - s - {k} == was - (s + {k})
  {
  }

  lemma GoDown(was: map<nat, Bio>, now: map<nat, Bio>, bios: seq<Bio>, start: nat, length: nat, locked: set<nat>,
               kind: bool, k: nat)
    requires Going(was, now, bios, start, length, locked, kind)
    requires k in now && now[k].write == kind && !Intersects(locked, now[k])
    requires bios == [] || now[k].End() == start
    ensures now[k].start == k && now[k].length > 0 && |now - {k}| < |now|
    ensures Going(was, now - {k}, [now[k]] + bios, k, length + now[k].length, locked, kind)
  {
    hide IsRun;
    hide Taken;
    hide Starts;
    var bio := now[k];
    Free(locked, bio);
    RunPrepend(bios, start, length, bio);
    TakenMore(bios, was, locked, bio);
    StartsMore(bios, bio);
    FewerRequests(now, k);
    LeaveOut(was, Starts(bios), k);
  }

  lemma FewerRequests(m: map<nat, Bio>, k: nat)
    requires k in m
    ensures |m - {k}| < |m|
  {
    assert (m - {k}).Keys == m.Keys - {k};
    assert m.Keys == (m.Keys - {k}) + {k};
  }

  // ---- barriers ----

  ghost predicate In(maps: seq<map<nat, Bio>>, j: int, b: Bio) {
    0 <= j < |maps| && b.start in maps[j] && maps[j][b.start] == b
  }

  /** The requests of queue j came after eras[j] barriers, and the log knows exactly the requests
      that are queued. */
  ghost predicate Ordered(maps: seq<map<nat, Bio>>, eras: seq<nat>, log: map<Bio, nat>) {
    && |maps| == |eras| > 0
    && (forall i, j :: 0 <= i < j < |eras| ==> eras[i] < eras[j])
    && (forall j :: 0 <= j < |maps| ==> Keyed(maps[j]))
    && (forall j, b :: In(maps, j, b) ==> b in log && log[b] == eras[j])
    && (forall b :: b in log ==> exists j :: In(maps, j, b))
  }

  function With(m: map<nat, Bio>, b: Bio): map<nat, Bio> {
    m[b.start := b]
  }

  lemma OrderedSubmit(maps: seq<map<nat, Bio>>, eras: seq<nat>, log: map<Bio, nat>, b: Bio)
    requires Ordered(maps, eras, log) && b !in log && b.length > 0
    requires b.start !in maps[|maps| - 1]
    ensures var n := |maps| - 1;
            Ordered(maps[n := With(maps[n], b)], eras, log[b := eras[n]])
  {
    var n := |maps| - 1;
    var m := maps[n := With(maps[n], b)];
    var l := log[b := eras[n]];
    forall j: int, c: Bio | In(m, j, c) ensures c in l && l[c] == eras[j] {
      assert c == b || In(maps, j, c);
    }
    forall c | c in l ensures exists j :: In(m, j, c) {
      if c == b {
        assert In(m, n, b);
      } else {
        var j :| In(maps, j, c);
        assert In(m, j, c);
      }
    }
  }

  lemma OrderedBarrier(maps: seq<map<nat, Bio>>, eras: seq<nat>, log: map<Bio, nat>, e: nat)
    requires Ordered(maps, eras, log) && e > eras[|eras| - 1]
    ensures Ordered(maps + [map[]], eras + [e], log)
  {
    var m := maps + [map[]];
    forall j, c ensures In(m, j, c) <==> In(maps, j, c) {
    }
  }

  lemma OrderedNothing(maps: seq<map<nat, Bio>>, eras: seq<nat>, log: map<Bio, nat>, e: nat)
    requires Ordered(maps, eras, log) && |maps| == 1 && maps[0] == map[]
    ensures log == map[] && Ordered(maps, [e], log)
  {
    assert forall j, c :: !In(maps, j, c);
  }

  lemma OrderedTail(maps: seq<map<nat, Bio>>, eras: seq<nat>, log: map<Bio, nat>)
    requires Ordered(maps, eras, log) && |maps| > 1 && maps[0] == map[]
    ensures Ordered(maps[1..], eras[1..], log)
  {
    var m := maps[1..];
    forall j, c ensures In(m, j, c) <==> In(maps, j + 1, c) && j >= 0 {
    }
    forall c | c in log ensures exists j :: In(m, j, c) {
      var j :| In(maps, j, c);
      assert In(m, j - 1, c);
    }
  }

  /** Some requests leave one queue. */
  lemma OrderedLess(maps: seq<map<nat, Bio>>, eras: seq<nat>, log: map<Bio, nat>, i: nat, now: map<nat, Bio>, gone: set<Bio>)
    requires Ordered(maps, eras, log) && i < |maps| && Keyed(now)
    requires forall k: nat :: k in now ==> k in maps[i] && now[k] == maps[i][k] && now[k] !in gone
    requires forall k: nat :: k in maps[i] && k !in now ==> maps[i][k] in gone
    requires forall b :: b in gone ==> In(maps, i, b)
    ensures Ordered(maps[i := now], eras, log - gone)
  {
    var m := maps[i := now];
    forall j, c | In(m, j, c) ensures In(maps, j, c) && c !in gone {
      assert In(maps, j, c);
      assert eras[i] == eras[j] ==> i == j;
    }
    forall c | c in log - gone ensures exists j :: In(m, j, c) {
      var j :| In(maps, j, c);
      assert In(m, j, c);
    }
  }

  /** The requests of the first queue are the oldest. */
  lemma FrontOldest(maps: seq<map<nat, Bio>>, eras: seq<nat>, log: map<Bio, nat>, b: Bio, c: Bio)
    requires Ordered(maps, eras, log) && In(maps, 0, b) && c in log
    ensures b in log && log[b] <= log[c]
  {
    var j :| In(maps, j, c);
    assert j > 0 ==> eras[0] < eras[j];
  }

  lemma FrontQueued(maps: seq<map<nat, Bio>>, eras: seq<nat>, log: map<Bio, nat>)
    requires Ordered(maps, eras, log) && maps[0] != map[]
    ensures log != map[]
  {
    SomeKey(maps[0]);
    var k: nat :| k in maps[0];
    assert In(maps, 0, maps[0][k]);
  }

  /** Each queued request, and no other, has a note of the queue that it is in. */
  ghost predicate Noted(maps: seq<map<nat, Bio>>, qls: seq<ElevatorQueue>, inQueue: map<Bio, ElevatorQueue>) {
    && |maps| == |qls|
    && (forall j, b :: In(maps, j, b) ==> b in inQueue && inQueue[b] == qls[j])
    && (forall b :: b in inQueue ==> exists j :: In(maps, j, b))
  }

  lemma NotedSubmit(maps: seq<map<nat, Bio>>, qls: seq<ElevatorQueue>, inQueue: map<Bio, ElevatorQueue>, b: Bio)
    requires Noted(maps, qls, inQueue) && maps != [] && b !in inQueue && b.start !in maps[|maps| - 1]
    ensures var n := |maps| - 1;
            Noted(maps[n := With(maps[n], b)], qls, inQueue[b := qls[n]])
  {
    var n := |maps| - 1;
    var m := maps[n := With(maps[n], b)];
    var l := inQueue[b := qls[n]];
    forall j: int, c: Bio | In(m, j, c) ensures c in l && l[c] == qls[j] {
      assert (c == b && j == n) || In(maps, j, c);
    }
    forall c | c in l ensures exists j :: In(m, j, c) {
      if c == b {
        assert In(m, n, b);
      } else {
        var j :| In(maps, j, c);
        assert In(m, j, c);
      }
    }
  }

  lemma NotedBarrier(maps: seq<map<nat, Bio>>, qls: seq<ElevatorQueue>, inQueue: map<Bio, ElevatorQueue>, q: ElevatorQueue)
    requires Noted(maps, qls, inQueue)
    ensures Noted(maps + [map[]], qls + [q], inQueue)
  {
    var m := maps + [map[]];
    forall j, c ensures In(m, j, c) <==> In(maps, j, c) {
    }
  }

  lemma NotedTail(maps: seq<map<nat, Bio>>, qls: seq<ElevatorQueue>, inQueue: map<Bio, ElevatorQueue>)
    requires Noted(maps, qls, inQueue) && |maps| > 1 && maps[0] == map[]
    ensures Noted(maps[1..], qls[1..], inQueue)
  {
    var m := maps[1..];
    forall j, c ensures In(m, j, c) <==> In(maps, j + 1, c) && j >= 0 {
    }
    forall c | c in inQueue ensures exists j :: In(m, j, c) {
      var j :| In(maps, j, c);
      assert In(m, j - 1, c);
    }
  }

  lemma NotedLess(maps: seq<map<nat, Bio>>, qls: seq<ElevatorQueue>, inQueue: map<Bio, ElevatorQueue>, i: nat,
                  now: map<nat, Bio>, gone: set<Bio>)
    requires Noted(maps, qls, inQueue) && i < |maps|
    requires forall j, k :: 0 <= j < k < |qls| ==> qls[j] != qls[k]
    requires forall k: nat :: k in now ==> k in maps[i] && now[k] == maps[i][k] && now[k] !in gone
    requires forall k: nat :: k in maps[i] && k !in now ==> maps[i][k] in gone
    requires forall b :: b in gone ==> In(maps, i, b)
    ensures Noted(maps[i := now], qls, inQueue - gone)
  {
    var m := maps[i := now];
    forall j, c | In(m, j, c) ensures In(maps, j, c) && c !in gone {
      assert In(maps, j, c);
    }
    forall c | c in inQueue - gone ensures exists j :: In(m, j, c) {
      var j :| In(maps, j, c);
      assert In(m, j, c);
    }
  }

  /** What the log knows and what has a note is the same. */
  lemma NotedLogged(maps: seq<map<nat, Bio>>, eras: seq<nat>, log: map<Bio, nat>, qls: seq<ElevatorQueue>,
                    inQueue: map<Bio, ElevatorQueue>)
    requires Ordered(maps, eras, log) && Noted(maps, qls, inQueue)
    ensures inQueue.Keys == log.Keys
  {
    forall b ensures b in inQueue <==> b in log {
      if b in inQueue {
        var j :| In(maps, j, b);
      }
      if b in log {
        var j :| In(maps, j, b);
      }
    }
  }

  lemma NoteOf(maps: seq<map<nat, Bio>>, qls: seq<ElevatorQueue>, inQueue: map<Bio, ElevatorQueue>, b: Bio)
    returns (j: nat)
    requires Noted(maps, qls, inQueue) && b in inQueue
    ensures j < |qls| && In(maps, j, b) && inQueue[b] == qls[j]
  {
    var i :| In(maps, i, b);
    j := i;
  }

  /** Elevators in order, with a barrier between each and the next. To say what a barrier means,
      `log` remembers for every queued request how many barriers came before it. */
  class BarrierQueue {
    var qls: seq<ElevatorQueue>
    var inQueue: map<Bio, ElevatorQueue>     // the in_queue field of each request that has one
    ghost var maps: seq<map<nat, Bio>>
    ghost var eras: seq<nat>
    ghost var log: map<Bio, nat>

    constructor ()
      ensures Valid() && Ready() && log == map[] && fresh(qls)
    {
      var q := new ElevatorQueue();
      qls, inQueue := [q], map[];
      maps, eras, log := [map[]], [0], map[];
    }

    ghost predicate Valid()
      reads this, qls
    {
      && |maps| == |qls| && Ordered(maps, eras, log) && Noted(maps, qls, inQueue)
      && (forall i, j :: 0 <= i < j < |qls| ==> qls[i] != qls[j])
      && (forall j :: 0 <= j < |qls| ==> qls[j].ioMap == maps[j])
    }

    /** An empty front queue means that all queues are empty. */
    ghost predicate Ready()
      reads this
    {
      |maps| > 0 && (maps[0] == map[] ==> |maps| == 1)
    }

    /** How many barriers there have been. */
    ghost function Now(): nat
      reads this
    {
      if eras == [] then 0 else eras[|eras| - 1]
    }

    /** The number of requests in the front queue. */
    method Size() returns (n: nat)
      requires Valid() && Ready()
      ensures n == 0 <==> log == map[]
    {
      n := |qls[0].ioMap|;
      if n > 0 {
        FrontQueued(maps, eras, log);
      } else {
        assert maps[0] == map[];
        OrderedNothing(maps, eras, log, 0);
      }
    }

    method SubmitIo(b: Bio)
      requires Valid() && b !in log && b.length > 0 && b.start !in maps[|maps| - 1]
      modifies this`log, this`maps, this`inQueue, qls[|qls| - 1]
      ensures Valid() && log == old(log)[b := Now()] && Now() == old(Now())
      ensures old(Ready()) ==> Ready()
    {
      hide Ordered;
      hide Noted;
      OrderedSubmit(maps, eras, log, b);
      OrderedParts(maps, eras, log);
      NotedLogged(maps, eras, log, qls, inQueue);
      NotedSubmit(maps, qls, inQueue, b);
      var n := |qls| - 1;
      qls[n].SubmitIo(b);
      maps := maps[n := With(maps[n], b)];
      inQueue := inQueue[b := qls[n]];
      log := log[b := eras[n]];
    }

    /** Everything submitted so far comes before everything submitted later. */
    method Barrier()
      requires Valid() && Ready()
      modifies this`qls, this`maps, this`eras
      ensures Valid() && Ready() && log == old(log) && Now() == old(Now()) + 1
      ensures forall q :: q in qls ==> q in old(qls) || fresh(q)
    {
      hide Ordered;
      hide Noted;
      OrderedParts(maps, eras, log);
      if qls[0].ioMap == map[] {
        OrderedNothing(maps, eras, log, Now() + 1);
        eras := [Now() + 1];
      } else {
        OrderedBarrier(maps, eras, log, Now() + 1);
        var q := new ElevatorQueue();
        NotedBarrier(maps, qls, inQueue, q);
        qls := qls + [q];
        maps := maps + [map[]];
        eras := eras + [Now() + 1];
      }
    }

    /** Drops empty queues from the front. */
    method Bump() returns (did: bool)
      requires Valid()
      modifies this`qls, this`maps, this`eras
      ensures Valid() && Ready() && log == old(log) && Now() == old(Now())
      ensures forall q :: q in qls ==> q in old(qls)
      ensures IsTail(old(qls), qls) && (did <==> |qls| < |old(qls)|)
    {
      hide Ordered;
      hide Noted;
      did := false;
      hide IsTail;
      ghost var q0 := qls;
      WholeTail(qls);
      OrderedParts(maps, eras, log);
      while qls[0].ioMap == map[] && |qls| > 1
        invariant Valid() && |maps| == |eras| > 0 && log == old(log) && Now() == old(Now())
        invariant forall q :: q in qls ==> q in old(qls)
        invariant IsTail(q0, qls) && |qls| <= |q0| && (did <==> |qls| < |q0|)
        decreases |qls|
      {
        NextTail(q0, qls);
        OrderedTail(maps, eras, log);
        NotedTail(maps, qls, inQueue);
        qls := qls[1..];
        maps := maps[1..];
        eras := eras[1..];
        did := true;
      }
    }

    /** The requests that are taken are among the oldest: none from before an earlier barrier is
        left behind in a queue. They are what the sweep over the front queue takes. */
    method DequeueIo(locked: set<nat>, bidir: bool, numBlocks: nat) returns (bios: seq<Bio>, start: nat, length: nat)
      requires Valid() && Ready() && log != map[]
      requires forall b :: b in log ==> b.start <= numBlocks
      modifies this, qls[0]
      ensures Valid() && Ready() && log == old(log) - BioSet(bios) && Now() == old(Now())
      ensures forall b, c :: b in BioSet(bios) && c in old(log) ==> b in old(log) && old(log)[b] <= old(log)[c]
      ensures IsRun(bios, start, length)
      ensures forall b :: b in BioSet(bios) ==> Range(b.start, b.length) !! locked
      ensures SweepTakes(old(maps[0]), old(qls[0].forward), old(qls[0].pos), bidir, numBlocks, locked, bios, start)
      ensures forall q :: q in qls ==> q in old(qls)
    {
      hide SweepTakes;
      hide Ordered;
      hide Noted;
      hide IsRun;
      hide Starts;
      hide IsTail;
      hide SweepPos;
      hide SweepForward;
      hide Next;
      hide FullUp;
      hide FullDown;
      hide Intersects;
      OrderedParts(maps, eras, log);
      FrontReady(maps, eras, log, numBlocks);
      ghost var m, e, l := maps, eras, log;
      bios, start, length := qls[0].DequeueIo(locked, bidir, numBlocks);
      Dequeued(bios, maps[0], qls[0].ioMap, locked);
      OrderedLess(maps, eras, log, 0, qls[0].ioMap, BioSet(bios));
      NotedLess(maps, qls, inQueue, 0, qls[0].ioMap, BioSet(bios));
      forall b, c | b in BioSet(bios) && c in l ensures b in l && l[b] <= l[c] {
        FrontOldest(m, e, l, b, c);
      }
      maps := maps[0 := qls[0].ioMap];
      log := log - BioSet(bios);
      inQueue := inQueue - BioSet(bios);
      var did := Bump();
    }

    /** _cancel_io: a request can be taken back as long as it is queued. */
    method CancelIo(b: Bio) returns (ok: bool)
      requires Valid() && Ready()
      modifies this, set q | q in qls
      ensures Valid() && Ready() && Now() == old(Now())
      ensures (ok <==> b in old(log)) && log == old(log) - {b}
      ensures forall q :: q in qls ==> q in old(qls)
    {
      hide Ordered;
      hide Noted;
      hide IsTail;
      NotedLogged(maps, eras, log, qls, inQueue);
      if b !in inQueue {
        return false;
      }
      ghost var j := NoteOf(maps, qls, inQueue, b);
      OrderedParts(maps, eras, log);
      inQueue[b].CancelIo(b);
      CancelLess(maps, eras, log, qls, inQueue, j, b);
      maps := maps[j := inQueue[b].ioMap];
      inQueue := inQueue - {b};
      log := log - {b};
      var did := Bump();
      ok := true;
    }
  }

  /** What is left of a queue after some of its front has been dropped. */
  ghost predicate IsTail<T>(was: seq<T>, now: seq<T>) {
    |now| <= |was| && now == was[|was| - |now|..]
  }

  lemma WholeTail<T>(s: seq<T>)
    ensures IsTail(s, s)
  {
  }

  lemma NextTail<T>(was: seq<T>, now: seq<T>)
    requires IsTail(was, now) && now != []
    ensures IsTail(was, now[1..]) && |now[1..]| < |was|
  {
  }

  lemma OrderedParts(maps: seq<map<nat, Bio>>, eras: seq<nat>, log: map<Bio, nat>)
    requires Ordered(maps, eras, log)
    ensures |maps| == |eras| > 0 && forall j :: 0 <= j < |maps| ==> Keyed(maps[j])
  {
  }

  lemma FrontReady(maps: seq<map<nat, Bio>>, eras: seq<nat>, log: map<Bio, nat>, numBlocks: nat)
    requires Ordered(maps, eras, log) && log != map[] && (maps[0] == map[] ==> |maps| == 1)
    requires forall b :: b in log ==> b.start <= numBlocks
    ensures maps[0] != map[] && forall k :: k in maps[0] ==> k <= numBlocks
  {
    if maps[0] == map[] {
      OrderedNothing(maps, eras, log, 0);
    }
    forall k: nat | k in maps[0] ensures k <= numBlocks {
      assert In(maps, 0, maps[0][k]);
    }
  }

  lemma CancelLess(maps: seq<map<nat, Bio>>, eras: seq<nat>, log: map<Bio, nat>, qls: seq<ElevatorQueue>,
                   inQueue: map<Bio, ElevatorQueue>, j: nat, b: Bio)
    requires Ordered(maps, eras, log) && Noted(maps, qls, inQueue) && In(maps, j, b)
    requires forall i, k :: 0 <= i < k < |qls| ==> qls[i] != qls[k]
    ensures Ordered(maps[j := maps[j] - {b.start}], eras, log - {b})
    ensures Noted(maps[j := maps[j] - {b.start}], qls, inQueue - {b})
  {
    hide Noted;
    OrderedLess(maps, eras, log, j, maps[j] - {b.start}, {b});
    NotedLess(maps, qls, inQueue, j, maps[j] - {b.start}, {b});
  }

  function BioSet(bios: seq<Bio>): set<Bio> {
    set k | 0 <= k < |bios| :: bios[k]
  }

  /** What an elevator gives away is exactly what it no longer has. */
  lemma Dequeued(bios: seq<Bio>, was: map<nat, Bio>, now: map<nat, Bio>, locked: set<nat>)
    requires Taken(bios, was, locked) && now == was - Starts(bios) && Keyed(was)
    ensures forall k: nat :: k in was ==> (k in now <==> was[k] !in BioSet(bios))
    ensures forall k: nat :: k in now ==> k in was && now[k] == was[k]
    ensures forall b :: b in BioSet(bios) ==> b.start in was && was[b.start] == b && Range(b.start, b.length) !! locked
  {
    forall k: nat | k in was ensures k in Starts(bios) <==> was[k] in BioSet(bios) {
      if k in Starts(bios) {
        var j :| 0 <= j < |bios| && bios[j].start == k;
        assert bios[j] in BioSet(bios);
      }
      if was[k] in BioSet(bios) {
        var j :| 0 <= j < |bios| && bios[j] == was[k];
        assert bios[j].start in Starts(bios);
      }
    }
  }

  // ---- dispatch ----

  /** The blocks of a run are those of its requests. */
  lemma {:induction false} RunBlocks(bios: seq<Bio>, start: nat, length: nat, x: nat)
    requires IsRun(bios, start, length) && start <= x < start + length
    ensures exists k :: 0 <= k < |bios| && x in Range(bios[k].start, bios[k].length)
    decreases |bios|
  {
    if bios != [] {
      var n := |bios| - 1;
      var b := bios[n];
      if b.start <= x {
        assert InRange(b.start, b.length, x);
      } else {
        var front := bios[..n];
        if n > 0 {
          assert bios[n - 1].End() == bios[n - 1 + 1].start;
          assert IsRun(front, start, length - b.length);
          RunBlocks(front, start, length - b.length, x);
          var k :| 0 <= k < |front| && x in Range(front[k].start, front[k].length);
          assert x in Range(bios[k].start, bios[k].length);
        }
      }
    }
  }

  lemma RunUnlocked(bios: seq<Bio>, start: nat, length: nat, locked: set<nat>)
    requires IsRun(bios, start, length)
    requires forall b :: b in BioSet(bios) ==> Range(b.start, b.length) !! locked
    ensures Range(start, length) !! locked
  {
    hide IsRun;
    forall x: nat | x in Range(start, length) ensures x !in locked {
      RunBlocks(bios, start, length, x);
      var k :| 0 <= k < |bios| && x in Range(bios[k].start, bios[k].length);
      assert bios[k] in BioSet(bios);
    }
  }

  lemma {:induction false} RunGrows(bios: seq<Bio>, start: nat, length: nat, k: nat)
    requires IsRun(bios, start, length) && k < |bios|
    ensures start <= bios[k].start
  {
    if k > 0 {
      RunGrows(bios, start, length, k - 1);
      assert bios[k - 1].End() == bios[k - 1 + 1].start;
    }
  }

  lemma RunLength(bios: seq<Bio>, start: nat, length: nat)
    requires IsRun(bios, start, length) && bios != [] && bios[|bios| - 1].length > 0
    ensures length > 0
  {
    RunGrows(bios, start, length, |bios| - 1);
  }

  function BlocksOf(start: nat, length: nat): (r: set<nat>)
    ensures r == Range(start, length)
  {
    if length == 0 then NoRange(start); {}
    else
      RangeNext(start, length - 1);
      BlocksOf(start, length - 1) + {start + length - 1}
  }

  lemma NoRange(start: nat)
    ensures Range(start, 0) == {}
  {
  }

  lemma RangeNext(start: nat, length: nat)
    ensures Range(start, length + 1) == Range(start, length) + {start + length}
  {
  }

  lemma LastIn(bios: seq<Bio>)
    requires bios != []
    ensures bios[|bios| - 1] in BioSet(bios)
  {
  }

  /** The device: what is being read or written now is locked. */
  class BlockDevice {
    const root: BarrierQueue
    ghost var ids: set<Bio>        // everything ever submitted
    var blockLock: set<nat>
    ghost var flights: Runs        // what is being read or written, by first block

    constructor ()
      ensures Valid() && root.log == map[]
      ensures fresh(root) && fresh(root.qls)
    {
      root := new BarrierQueue();
      ids, blockLock, flights := {}, {}, map[];
      new;
      NoRuns();
    }

    ghost predicate Valid()
      reads this, root, root.qls
    {
      && root.Valid() && root.Ready()
      && root.log.Keys <= ids
      && (forall b :: b in ids ==> b.length > 0)
      && Disjoint(flights) && Blocks(flights) == blockLock
    }

    /** One round of an io thread: a run of requests goes to the disk, unless the next one has to
        wait for a lock. What is in flight never overlaps. */
    method StartIo(bidir: bool, numBlocks: nat) returns (bios: seq<Bio>, start: nat, length: nat)
      requires Valid() && root.log != map[]
      requires forall b :: b in root.log ==> b.start <= numBlocks
      modifies this, root, root.qls[0]
      ensures Valid() && IsRun(bios, start, length)
      ensures root.log == old(root.log) - BioSet(bios)
      ensures SweepTakes(old(root.maps[0]), old(root.qls[0].forward), old(root.qls[0].pos), bidir, numBlocks,
                         old(blockLock), bios, start)
      ensures forall b, c :: b in BioSet(bios) && c in old(root.log) ==> b in old(root.log) && old(root.log)[b] <= old(root.log)[c]
      ensures if bios == [] then flights == old(flights)
              else start !in old(flights) && flights == old(flights)[start := length]
      ensures ids == old(ids)
    {
      hide IsRun;
      hide Ordered;
      hide SweepTakes;
      bios, start, length := root.DequeueIo(blockLock, bidir, numBlocks);
      if bios != [] {
        RunUnlocked(bios, start, length, blockLock);
        LastIn(bios);
        RunLength(bios, start, length);
        FreshRun(flights, start, length);
        BlocksInsert(flights, start, length);
        blockLock := blockLock + BlocksOf(start, length);
        flights := flights[start := length];
      }
    }

    /** The run is done. */
    method FinishIo(start: nat, length: nat)
      requires Valid() && start in flights && flights[start] == length
      modifies this
      ensures Valid() && flights == old(flights) - {start} && ids == old(ids)
    {
      hide Blocks;
      hide Disjoint;
      BlocksRemove(flights, start);
      blockLock := blockLock - BlocksOf(start, length);
      flights := flights - {start};
    }

    method SubmitIo(b: Bio)
      requires Valid() && b !in ids && b.length > 0 && b.start !in root.maps[|root.maps| - 1]
      modifies this`ids, root, root.qls[|root.qls| - 1]
      ensures Valid() && root.log == old(root.log)[b := root.Now()] && ids == old(ids) + {b}
      ensures flights == old(flights) && root.Now() == old(root.Now())
    {
      hide Ordered;
      hide Noted;
      root.SubmitIo(b);
      ids := ids + {b};
    }

    method Barrier()
      requires Valid()
      modifies root
      ensures Valid() && root.log == old(root.log) && root.Now() == old(root.Now()) + 1 && flights == old(flights)
    {
      root.Barrier();
    }
  }
}
