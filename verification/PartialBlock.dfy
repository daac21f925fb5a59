/** Partial writes to one block that is not in memory: byte fragments are collected until the
    block has been read, and then copied into it (src/ebofs/BufferCache.cc:21-123,
    src/ebofs/BufferCache.h:215-243). */
module PartialBlocks {
  import opened Extents

  type Patch = map<nat, Byte>

  const BLOCK_SIZE: nat := 4096

  /** A block with the bytes of a patch written over it. */
  function Overlay(block: seq<Byte>, patch: Patch): (r: seq<Byte>)
    ensures |r| == |block|
  {
    seq(|block|, i requires 0 <= i < |block| => if i in patch then patch[i] else block[i])
  }

  /** Writing two patches in order is writing their union, the second one on top. */
  lemma OverlayTwice(block: seq<Byte>, first: Patch, second: Patch)
    ensures Overlay(Overlay(block, first), second) == Overlay(block, first + second)
  {
  }

  /** The bytes of a fragment written at `off`. */
  ghost function PatchAt(off: nat, p: seq<Byte>): Patch {
    map i {:trigger InRange(off, |p|, i)} | off <= i < off + |p| && InRange(off, |p|, i) :: p[i - off]
  }

  type Fragments = map<nat, seq<Byte>>

  ghost predicate HoldsByte(f: Fragments, k: nat, x: nat) {
    k in f && k <= x < k + |f[k]|
  }

  /** Fragments are non-empty and do not overlap. */
  ghost predicate Apart(f: Fragments) {
    && (forall k :: k in f ==> |f[k]| > 0)
    && (forall j, k :: j in f && k in f && j < k ==> j + |f[j]| <= k)
  }

  ghost function HeldSet(f: Fragments): set<nat> {
    set k, x {:trigger HoldsByte(f, k, x)} | k in f && k <= x < k + |f[k]| && HoldsByte(f, k, x) :: x
  }

  ghost function HolderOf(f: Fragments, x: nat): (k: nat)
    requires x in HeldSet(f)
    ensures HoldsByte(f, k, x)
  {
    var k :| HoldsByte(f, k, x);
    k
  }

  /** The bytes that the fragments hold. */
  ghost function BytesOf(f: Fragments): Patch {
    map x | x in HeldSet(f) :: f[HolderOf(f, x)][x - HolderOf(f, x)]
  }

  lemma BytesAre(f: Fragments, m: Patch)
    requires forall k, x :: HoldsByte(f, k, x) ==> x in m && m[x] == f[k][x - k]
    requires forall x :: x in m ==> x in HeldSet(f)
    ensures BytesOf(f) == m
  {
    forall x | x in HeldSet(f) ensures x in m && BytesOf(f)[x] == m[x] {
      assert HoldsByte(f, HolderOf(f, x), x);
    }
  }

  lemma ByteAt(f: Fragments, k: nat, x: nat)
    requires Apart(f) && HoldsByte(f, k, x)
    ensures x in BytesOf(f) && BytesOf(f)[x] == f[k][x - k]
  {
    assert x in HeldSet(f) && HolderOf(f, x) == k;
  }

  /** A fragment whose bytes are not held yet adds them. */
  lemma AddFragment(f: Fragments, k: nat, p: seq<Byte>)
    requires Apart(f) && |p| > 0
    requires Range(k, |p|) !! HeldSet(f)
    ensures k !in f && Apart(f[k := p])
    ensures BytesOf(f[k := p]) == BytesOf(f) + PatchAt(k, p)
  {
    FragmentFits(f, k, p);
    var g := f[k := p];
    var m := BytesOf(f) + PatchAt(k, p);
    hide BytesOf;
    hide PatchAt;
    forall j, x | HoldsByte(g, j, x) ensures x in m && m[x] == g[j][x - j] {
      AddedByte(f, k, p, j, x);
    }
    forall x | x in m ensures x in HeldSet(g) {
      AddedHolder(f, k, p, x);
    }
    BytesAre(g, m);
  }

  lemma PatchIs(off: nat, p: seq<Byte>, x: nat)
    ensures x in PatchAt(off, p) <==> off <= x < off + |p|
    ensures off <= x < off + |p| ==> PatchAt(off, p)[x] == p[x - off]
  {
    assert off <= x < off + |p| ==> InRange(off, |p|, x);
  }

  lemma AddedByte(f: Fragments, k: nat, p: seq<Byte>, j: nat, x: nat)
    requires Apart(f) && k !in f && Apart(f[k := p])
    requires HoldsByte(f[k := p], j, x)
    ensures var m := BytesOf(f) + PatchAt(k, p); x in m && m[x] == f[k := p][j][x - j]
  {
    hide BytesOf;
    hide PatchAt;
    PatchIs(k, p, x);
    var g := f[k := p];
    if j != k {
      assert j + |g[j]| <= k || k + |g[k]| <= j;
      assert HoldsByte(f, j, x);
      ByteAt(f, j, x);
    }
  }

  lemma AddedHolder(f: Fragments, k: nat, p: seq<Byte>, x: nat)
    requires k !in f && x in BytesOf(f) + PatchAt(k, p)
    ensures x in HeldSet(f[k := p])
  {
    var g := f[k := p];
    if k <= x < k + |p| {
      assert HoldsByte(g, k, x);
    } else {
      assert HoldsByte(g, HolderOf(f, x), x);
    }
  }

  lemma FragmentFits(f: Fragments, k: nat, p: seq<Byte>)
    requires Apart(f) && |p| > 0
    requires Range(k, |p|) !! HeldSet(f)
    ensures k !in f && Apart(f[k := p])
  {
    forall j | j in f ensures j + |f[j]| <= k || k + |p| <= j {
      if j <= k < j + |f[j]| {
        assert k in Range(k, |p|) by { assert InRange(k, |p|, k); }
        assert HoldsByte(f, j, k);
        assert false;
      } else if k <= j < k + |p| {
        assert j in Range(k, |p|) by { assert InRange(k, |p|, j); }
        assert HoldsByte(f, j, j);
        assert false;
      }
    }
  }

  /** Fragment k without the bytes in [off, e): what lies before, and what lies after. */
  ghost function Cut(f: Fragments, k: nat, off: nat, e: nat): Fragments
    requires k in f && off < k + |f[k]| && k < e
  {
    var p := f[k];
    var g := if k < off then f[k := p[..off - k]] else f - {k};
    if e < k + |p| then g[e := p[e - k..]] else g
  }

  lemma CutApart(f: Fragments, k: nat, off: nat, e: nat)
    requires Apart(f) && k in f && off < k + |f[k]| && k < e && off < e
    ensures Apart(Cut(f, k, off, e))
  {
  }

  lemma CutSound(f: Fragments, k: nat, off: nat, e: nat, j: nat, x: nat)
    requires Apart(f) && k in f && off < k + |f[k]| && k < e && off < e
    requires HoldsByte(Cut(f, k, off, e), j, x)
    ensures x in BytesOf(f) && BytesOf(f)[x] == Cut(f, k, off, e)[j][x - j]
    ensures x !in Range(k, |f[k]|) * Range(off, e - off)
  {
    hide BytesOf;
    var g := Cut(f, k, off, e);
    if j == k {
      assert HoldsByte(f, k, x);
      ByteAt(f, k, x);
    } else if j == e && e < k + |f[k]| {
      assert HoldsByte(f, k, x);
      ByteAt(f, k, x);
    } else {
      assert g[j] == f[j];
      assert HoldsByte(f, j, x);
      ByteAt(f, j, x);
    }
  }

  lemma CutComplete(f: Fragments, k: nat, off: nat, e: nat, x: nat)
    requires Apart(f) && k in f && off < k + |f[k]| && k < e && off < e
    requires x in HeldSet(f) && x !in Range(k, |f[k]|) * Range(off, e - off)
    ensures x in HeldSet(Cut(f, k, off, e))
  {
    var g := Cut(f, k, off, e);
    var j := HolderOf(f, x);
    if j == k {
      assert x in Range(k, |f[k]|) by { assert InRange(k, |f[k]|, x); }
      assert !InRange(off, e - off, x);
      assert HoldsByte(g, if x < off then k else e, x);
    } else {
      assert HoldsByte(g, j, x);
    }
  }

  lemma CutBytes(f: Fragments, k: nat, off: nat, e: nat)
    requires Apart(f) && k in f && off < k + |f[k]| && k < e && off < e
    ensures Apart(Cut(f, k, off, e))
    ensures BytesOf(Cut(f, k, off, e)) == BytesOf(f) - Range(k, |f[k]|) * Range(off, e - off)
  {
    hide Cut;
    hide Range;
    CutApart(f, k, off, e);
    var g := Cut(f, k, off, e);
    var m := BytesOf(f) - Range(k, |f[k]|) * Range(off, e - off);
    forall j, x | HoldsByte(g, j, x) ensures x in m && m[x] == g[j][x - j] {
      CutSound(f, k, off, e, j, x);
    }
    forall x | x in m ensures x in HeldSet(g) {
      CutComplete(f, k, off, e, x);
    }
    BytesAre(g, m);
  }

  /** The walk over the fragments has passed those that begin before the cursor. */
  ghost predicate ClearBefore(f: Fragments, i: Option<nat>, off: nat, e: nat) {
    && (i.Some? ==> i.value in f)
    && forall k :: k in f && (i.Some? ==> k < i.value) ==> k + |f[k]| <= off || e <= k
  }

  class PartialBlock {
    var partial: Fragments    // dirty bytes, to be laid over the incoming block
    var data: seq<Byte>       // the block, once it has been read

    ghost predicate Valid()
      reads this
    {
      Apart(partial) && forall k :: k in partial ==> k + |partial[k]| <= BLOCK_SIZE
    }

    /** Trims what the bytes [off, e) overlap of the fragments held so far. */
    method Trim(off: nat, e: nat)
      requires Valid() && off < e
      modifies this`partial
      ensures Valid()
      ensures BytesOf(partial) == old(BytesOf(partial)) - Range(off, e - off)
    {
      hide BytesOf;
      hide Range;
      hide Cut;
      var i: Option<nat> := KeyAtOrAfter(partial.Keys, 0);
      while i.Some?
        invariant Valid() && ClearBefore(partial, i, off, e)
        invariant BytesOf(partial) - Range(off, e - off) == old(BytesOf(partial)) - Range(off, e - off)
        decreases if i.Some? then BLOCK_SIZE - i.value else -1
      {
        var k: nat := i.value;
        if e <= k {
          break;
        }
        if off < k + |partial[k]| {
          CutBytes(partial, k, off, e);
          CutWithin(partial, k, off, e);
          CutClear(partial, k, off, e);
          CutAt(k, off, e);
        }
        i := KeyAtOrAfter(partial.Keys, k + 1);
      }
      NoneLeft(partial, off, e);
    }

    /** Takes the bytes in [off, e) out of fragment k: all of it, its tail, its head, or a piece
        in the middle. */
    method CutAt(k: nat, off: nat, e: nat)
      requires k in partial && off < k + |partial[k]| && k < e
      modifies this`partial
      ensures partial == Cut(old(partial), k, off, e)
    {
      var o := partial[k];
      if k < off {
        partial := partial[k := o[..off - k]];
      } else {
        partial := partial - {k};
      }
      if e < k + |o| {
        partial := partial[e := o[e - k..]];
      }
    }

    /** Adds a fragment over what is held already. */
    method AddPartial(off: nat, p: seq<Byte>)
      requires Valid() && off + |p| <= BLOCK_SIZE && |p| > 0
      modifies this`partial
      ensures Valid()
      ensures BytesOf(partial) == old(BytesOf(partial)) + PatchAt(off, p)
    {
      hide BytesOf;
      Trim(off, off + |p|);
      HeldAre(partial);
      AddFragment(partial, off, p);
      PatchCovers(old(BytesOf(partial)), off, p);
      partial := partial[off := p];
    }

    /** Copies the fragments into the block that was read, and forgets them. */
    method ApplyPartial()
      requires Valid() && |data| == BLOCK_SIZE
      modifies this
      ensures data == Overlay(old(data), old(BytesOf(partial)))
      ensures partial == map[]
    {
      hide BytesOf;
      hide Before;
      hide Overlay;
      NothingBefore(partial, data);
      var i: Option<nat> := KeyAtOrAfter(partial.Keys, 0);
      while i.Some?
        invariant Valid() && |data| == BLOCK_SIZE && partial == old(partial)
        invariant i.Some? ==> i.value in partial
        invariant data == Overlay(old(data), BytesOf(Before(partial, i)))
        decreases if i.Some? then BLOCK_SIZE - i.value else -1
      {
        var k: nat := i.value;
        NextBefore(partial, k, old(data));
        data := data[..k] + partial[k] + data[k + |partial[k]|..];
        i := KeyAtOrAfter(partial.Keys, k + 1);
      }
      assert i == None;
      AllBefore(partial);
      partial := map[];
    }

    /** The first fragment that does not end before `start`. */
    method FirstReaching(start: nat) returns (i: Option<nat>)
      requires Valid()
      ensures IsFirstReaching(partial, start, i)
    {
      i := KeyAtOrAfter(partial.Keys, 0);
      while i.Some? && i.value + |partial[i.value]| < start
        invariant i.Some? ==> i.value in partial
        invariant forall j :: j in partial && (i.Some? ==> j < i.value) ==> j + |partial[j]| < start
        decreases if i.Some? then BLOCK_SIZE - i.value else -1
      {
        i := KeyAtOrAfter(partial.Keys, i.value + 1);
      }
    }

    /** Whether the fragments hold every byte of [start, end). A yes is always right. A no is
        wrong in one situation: see `GapAfter`. For an empty range the answer depends on the fragment
        that holds byte `start`, or ends there: see `Touched`. */
    method HavePartialRange(start: nat, end: nat) returns (r: bool)
      requires Valid()
      ensures r <==> if start < end then HoldsAll(partial, start, end) && !GapAfter(partial, start, end)
                     else Touched(partial, start)
    {
      hide HoldsAll;
      hide GapAfter;
      hide Touched;
      var first := FirstReaching(start);
      if first.None? || first.value > start {
        if start < end {
          NotHeld(partial, start, end, first);
        } else {
          NotTouched(partial, start, first);
        }
        return false;
      }
      var k: nat := first.value;
      var pos: nat := k + |partial[k]|;
      var i: Option<nat> := KeyAtOrAfter(partial.Keys, k + 1);
      StartReached(partial, start, k);
      while i.Some?
        invariant ReachedTo(partial, start, pos, i)
        invariant pos < end || (pos == k + |partial[k]| && i == KeyAtOrAfter(partial.Keys, k + 1))
        invariant i.Some? ==> i.value in partial && k < i.value && start <= i.value
        decreases if i.Some? then BLOCK_SIZE - i.value else -1
      {
        if pos < i.value {
          if start < end {
            StopsAtGap(partial, start, end, k, pos, i.value);
          } else {
            TouchedIff(partial, start, k);
          }
          return false;
        }
        NextReached(partial, start, pos, i.value);
        if i.value + |partial[i.value]| >= end {
          if start < end {
            GoesThrough(partial, start, end, k, pos, i.value);
          } else {
            TouchedIff(partial, start, k);
          }
          return true;
        }
        pos := i.value + |partial[i.value]|;
        i := KeyAtOrAfter(partial.Keys, i.value + 1);
      }
      if start < end {
        EndReached(partial, start, end, k, pos);
      } else {
        TouchedIff(partial, start, k);
      }
      r := pos >= end;
    }
  }

  // ---- have_partial_range ----

  ghost predicate HoldsAll(f: Fragments, start: nat, end: nat) {
    forall x :: start <= x < end ==> x in HeldSet(f)
  }

  /** Fragment k holds the whole range. */
  ghost predicate HoldsRange(f: Fragments, k: nat, start: nat, end: nat) {
    k in f && k <= start && end <= k + |f[k]|
  }

  /** Fragment k is followed by another one, but only after a gap. */
  ghost predicate GapFollows(f: Fragments, k: nat) {
    k in f && k + |f[k]| !in f && exists j :: j in f && k < j
  }

  /** One fragment holds the whole range, no fragment ends where the range begins, and a later
      fragment follows only after a gap. */
  ghost predicate GapAfter(f: Fragments, start: nat, end: nat) {
    && (forall j :: j in f ==> j + |f[j]| != start)
    && exists k :: HoldsRange(f, k, start, end) && GapFollows(f, k)
  }

  /** The first fragment that reaches byte `start` begins no later, and is not followed by a gap and
      another fragment. */
  ghost predicate Touched(f: Fragments, start: nat) {
    exists k: nat :: k in f && k <= start && IsFirstReaching(f, start, Some(k)) && !GapFollows(f, k)
  }

  lemma NotTouched(f: Fragments, start: nat, first: Option<nat>)
    requires IsFirstReaching(f, start, first) && (first.None? || first.value > start)
    ensures !Touched(f, start)
  {
  }

  lemma TouchedIff(f: Fragments, start: nat, k: nat)
    requires Apart(f) && k in f && k <= start && IsFirstReaching(f, start, Some(k))
    ensures var next: Option<nat> := KeyAtOrAfter(f.Keys, k + 1);
            Touched(f, start) <==> next.None? || next.value == k + |f[k]|
  {
    assert forall h: nat :: h in f && IsFirstReaching(f, start, Some(h)) ==> h == k;
    if KeyAtOrAfter(f.Keys, k + 1).Some? {
      assert KeyAtOrAfter(f.Keys, k + 1).value in f;
    }
  }

  ghost predicate IsFirstReaching(f: Fragments, start: nat, i: Option<nat>) {
    && (i.Some? ==> i.value in f && i.value + |f[i.value]| >= start)
    && forall j :: j in f && (i.Some? ==> j < i.value) ==> j + |f[j]| < start
  }

  /** The bytes from start to pos are held, and every fragment before the cursor ends by pos. */
  ghost predicate ReachedTo(f: Fragments, start: nat, pos: nat, i: Option<nat>) {
    && start <= pos
    && (forall x :: start <= x < pos ==> x in HeldSet(f))
    && (forall j :: j in f && (i.Some? ==> j < i.value) ==> j + |f[j]| <= pos)
    && (i.Some? ==> forall j :: j in f && j < i.value ==> j + |f[j]| <= i.value)
  }

  lemma NotHeld(f: Fragments, start: nat, end: nat, first: Option<nat>)
    requires IsFirstReaching(f, start, first) && start < end
    requires first.None? || first.value > start
    ensures !HoldsAll(f, start, end)
  {
    assert start !in HeldSet(f);
  }

  lemma StartReached(f: Fragments, start: nat, k: nat)
    requires Apart(f) && IsFirstReaching(f, start, Some(k)) && k <= start
    ensures ReachedTo(f, start, k + |f[k]|, KeyAtOrAfter(f.Keys, k + 1))
  {
    forall x | start <= x < k + |f[k]| ensures x in HeldSet(f) {
      assert HoldsByte(f, k, x);
    }
  }

  lemma NextReached(f: Fragments, start: nat, pos: nat, i: nat)
    requires Apart(f) && i in f && ReachedTo(f, start, pos, Some(i)) && start <= i <= pos
    ensures ReachedTo(f, start, i + |f[i]|, KeyAtOrAfter(f.Keys, i + 1))
  {
    forall x | start <= x < i + |f[i]| ensures x in HeldSet(f) {
      if x >= pos {
        assert HoldsByte(f, i, x);
      }
    }
  }

  lemma StopsAtGap(f: Fragments, start: nat, end: nat, k: nat, pos: nat, i: nat)
    requires Apart(f) && i in f && IsFirstReaching(f, start, Some(k)) && k <= start < end
    requires ReachedTo(f, start, pos, Some(i)) && pos < i
    requires pos < end || (pos == k + |f[k]| && Some(i) == KeyAtOrAfter(f.Keys, k + 1))
    ensures !HoldsAll(f, start, end) || GapAfter(f, start, end)
  {
    if pos < end {
      assert pos !in HeldSet(f);
    } else {
      forall j | j in f ensures j + |f[j]| != start {
        assert j < k || j == k || k + |f[k]| <= j;
      }
      assert pos !in f.Keys;
      assert HoldsRange(f, k, start, end) && GapFollows(f, k);
    }
  }

  lemma FirstIs(f: Fragments, start: nat, end: nat, k: nat, h: nat)
    requires Apart(f) && IsFirstReaching(f, start, Some(k)) && k <= start < end
    requires k + |f[k]| != start && HoldsRange(f, h, start, end)
    ensures h == k
  {
  }

  /** In the situation of `GapAfter`, the fragment that holds the range is the first one reached. */
  lemma GapIsAfterFirst(f: Fragments, start: nat, end: nat, k: nat)
    requires Apart(f) && IsFirstReaching(f, start, Some(k)) && k <= start < end
    requires GapAfter(f, start, end)
    ensures end <= k + |f[k]| && GapFollows(f, k)
  {
    var h :| HoldsRange(f, h, start, end) && GapFollows(f, h);
    FirstIs(f, start, end, k, h);
  }

  lemma GoesThrough(f: Fragments, start: nat, end: nat, k: nat, was: nat, i: nat)
    requires Apart(f) && i in f && IsFirstReaching(f, start, Some(k)) && k <= start < end && k < i
    requires ReachedTo(f, start, was, Some(i)) && start <= i <= was && end <= i + |f[i]|
    requires was < end || (was == k + |f[k]| && Some(i) == KeyAtOrAfter(f.Keys, k + 1))
    ensures HoldsAll(f, start, end) && !GapAfter(f, start, end)
  {
    NextReached(f, start, was, i);
    if GapAfter(f, start, end) {
      GapIsAfterFirst(f, start, end, k);
      assert false;
    }
  }

  lemma EndReached(f: Fragments, start: nat, end: nat, k: nat, pos: nat)
    requires Apart(f) && IsFirstReaching(f, start, Some(k)) && k <= start < end
    requires ReachedTo(f, start, pos, None)
    requires pos < end || (pos == k + |f[k]| && KeyAtOrAfter(f.Keys, k + 1) == None)
    ensures pos >= end <==> HoldsAll(f, start, end) && !GapAfter(f, start, end)
  {
    if pos < end {
      assert pos !in HeldSet(f);
    } else if GapAfter(f, start, end) {
      GapIsAfterFirst(f, start, end, k);
      assert false;
    }
  }

  // ---- apply_partial ----

  /** The fragments that a walk has passed when the cursor is at i. */
  ghost function Before(f: Fragments, i: Option<nat>): Fragments {
    map k | k in f && (i.Some? ==> k < i.value) :: f[k]
  }

  lemma NothingBefore(f: Fragments, data: seq<Byte>)
    ensures data == Overlay(data, BytesOf(Before(f, KeyAtOrAfter(f.Keys, 0))))
  {
    assert Before(f, KeyAtOrAfter(f.Keys, 0)) == map[];
    assert Overlay(data, BytesOf(map[])) == data;
  }

  lemma AllBefore(f: Fragments)
    ensures Before(f, None) == f
  {
  }

  lemma NextBefore(f: Fragments, k: nat, data: seq<Byte>)
    requires Apart(f) && k in f && k + |f[k]| <= |data|
    ensures var was := Overlay(data, BytesOf(Before(f, Some(k))));
            Overlay(data, BytesOf(Before(f, KeyAtOrAfter(f.Keys, k + 1))))
            == was[..k] + f[k] + was[k + |f[k]|..]
  {
    hide BytesOf;
    hide Overlay;
    var g := Before(f, Some(k));
    assert Before(f, KeyAtOrAfter(f.Keys, k + 1)) == g[k := f[k]];
    BeforeApart(f, k);
    AddFragment(g, k, f[k]);
    OverlayTwice(data, BytesOf(g), PatchAt(k, f[k]));
    CopyIn(Overlay(data, BytesOf(g)), k, f[k]);
  }

  lemma BeforeApart(f: Fragments, k: nat)
    requires Apart(f) && k in f
    ensures Apart(Before(f, Some(k)))
    ensures Range(k, |f[k]|) !! HeldSet(Before(f, Some(k)))
  {
    var g := Before(f, Some(k));
    forall x | x in HeldSet(g) ensures x !in Range(k, |f[k]|) {
      assert HoldsByte(g, HolderOf(g, x), x);
    }
  }

  lemma CopyIn(data: seq<Byte>, k: nat, p: seq<Byte>)
    requires k + |p| <= |data|
    ensures Overlay(data, PatchAt(k, p)) == data[..k] + p + data[k + |p|..]
  {
  }

  lemma HeldAre(f: Fragments)
    ensures BytesOf(f).Keys == HeldSet(f)
  {
  }

  lemma PatchCovers(m: Patch, off: nat, p: seq<Byte>)
    ensures (m - Range(off, |p|)) + PatchAt(off, p) == m + PatchAt(off, p)
  {
  }

  lemma CutWithin(f: Fragments, k: nat, off: nat, e: nat)
    requires Apart(f) && k in f && off < k + |f[k]| && k < e && off < e
    requires forall j :: j in f ==> j + |f[j]| <= BLOCK_SIZE
    ensures forall j :: j in Cut(f, k, off, e) ==> j + |Cut(f, k, off, e)[j]| <= BLOCK_SIZE
  {
  }

  lemma CutClear(f: Fragments, k: nat, off: nat, e: nat)
    requires ClearBefore(f, Some(k), off, e) && off < k + |f[k]| && k < e
    ensures var g := Cut(f, k, off, e);
            ClearBefore(g, KeyAtOrAfter(g.Keys, k + 1), off, e)
  {
  }

  /** Once the walk has reached e or the end, no byte of [off, e) is held. */
  lemma NoneLeft(f: Fragments, off: nat, e: nat)
    requires Apart(f) && off < e
    requires forall k :: k in f ==> k + |f[k]| <= off || e <= k
    ensures BytesOf(f) - Range(off, e - off) == BytesOf(f)
  {
    forall x | x in BytesOf(f) ensures x !in Range(off, e - off) {
      assert HoldsByte(f, HolderOf(f, x), x);
    }
  }

  // ---- whole histories ----

  datatype PartialWrite = PartialWrite(off: nat, bytes: seq<Byte>)

  ghost predicate InBlock(ws: seq<PartialWrite>) {
    forall i :: 0 <= i < |ws| ==> |ws[i].bytes| > 0 && ws[i].off + |ws[i].bytes| <= BLOCK_SIZE
  }

  /** The block after the writes have been made to it directly, in order. */
  ghost function InOrder(block: seq<Byte>, ws: seq<PartialWrite>): (r: seq<Byte>)
    requires |block| == BLOCK_SIZE && InBlock(ws)
    ensures |r| == BLOCK_SIZE
  {
    if ws == [] then block
    else
      var n := |ws| - 1;
      var d := InOrder(block, ws[..n]);
      d[..ws[n].off] + ws[n].bytes + d[ws[n].off + |ws[n].bytes|..]
  }

  ghost function Patches(ws: seq<PartialWrite>): Patch {
    if ws == [] then map[]
    else Patches(ws[..|ws| - 1]) + PatchAt(ws[|ws| - 1].off, ws[|ws| - 1].bytes)
  }

  lemma {:induction false} PatchesInOrder(block: seq<Byte>, ws: seq<PartialWrite>)
    requires |block| == BLOCK_SIZE && InBlock(ws)
    ensures Overlay(block, Patches(ws)) == InOrder(block, ws)
  {
    if ws != [] {
      var n := |ws| - 1;
      PatchesInOrder(block, ws[..n]);
      OverlayTwice(block, Patches(ws[..n]), PatchAt(ws[n].off, ws[n].bytes));
      CopyIn(InOrder(block, ws[..n]), ws[n].off, ws[n].bytes);
    }
  }

  /** Collecting partial writes while the block is being read, and then applying them to it,
      is the same as making them to the block one after the other. */
  method CollectThenApply(pb: PartialBlock, ws: seq<PartialWrite>, block: seq<Byte>)
    requires pb.partial == map[] && |block| == BLOCK_SIZE && InBlock(ws)
    modifies pb
    ensures pb.data == InOrder(block, ws) && pb.partial == map[]
  {
    hide BytesOf;
    hide Overlay;
    hide InOrder;
    NothingHeld();
    var i := 0;
    while i < |ws|
      invariant 0 <= i <= |ws| && pb.Valid()
      invariant BytesOf(pb.partial) == Patches(ws[..i])
    {
      assert ws[..i + 1][..i] == ws[..i];
      pb.AddPartial(ws[i].off, ws[i].bytes);
      i := i + 1;
    }
    assert ws[..i] == ws;
    PatchesInOrder(block, ws);
    pb.data := block;
    pb.ApplyPartial();
  }

  lemma NothingHeld()
    ensures BytesOf(map[]) == map[]
  {
  }

  /** A no that is wrong: both bytes are held, but another fragment follows after a gap. */
  lemma WrongNo(a: Byte)
    ensures var f := map[0 := [a, a], 5 := [a]];
            Apart(f) && HoldsAll(f, 0, 2) && GapAfter(f, 0, 2)
  {
    var f: Fragments := map[0 := [a, a], 5 := [a]];
    forall x | 0 <= x < 2 ensures x in HeldSet(f) {
      assert HoldsByte(f, 0, x);
    }
    assert HoldsRange(f, 0, 0, 2) && 5 in f && GapFollows(f, 0);
  }
}
