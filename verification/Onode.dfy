/** The extent map of an object and its running totals, changed in place (src/ebofs/Onode.h). */
module Onodes {
  import opened Extents
  import opened ExtentMaps

  // ---- what the operations do to the sequence of cells ----

  /** New blocks: holes, or disk blocks with checksum 0. */
  ghost function NewCells(ex: Extent): (c: seq<Cell>)
    ensures |c| == ex.length
  {
    seq(ex.length, j requires 0 <= j < ex.length => if ex.start == 0 then Hole else Real(ex.start + j, 0))
  }

  ghost function Holes(n: nat): seq<Cell> {
    seq(n, _ => Hole)
  }

  /** Mapping the object blocks from `offset` on to the blocks of ex. A hole past the end is ignored. */
  ghost function SetCells(c: seq<Cell>, offset: nat, ex: Extent): seq<Cell> {
    if offset <= |c| then
      c[..offset] + NewCells(ex) + if offset + ex.length <= |c| then c[offset + ex.length..] else []
    else if ex.start == 0 then c
    else c + Holes(offset - |c|) + NewCells(ex)
  }

  /** The disk blocks of the cells, in order. */
  ghost function DiskBlocks(c: seq<Cell>): seq<nat> {
    if c == [] then []
    else DiskBlocks(c[..|c| - 1]) + if c[|c| - 1].Real? then [c[|c| - 1].disk] else []
  }

  /** The blocks of the extents, in order. */
  ghost function Flat(ls: seq<Extent>): seq<nat> {
    if ls == [] then [] else Flat(ls[..|ls| - 1]) + BlockList(ls[|ls| - 1])
  }

  ghost function BlockList(ex: Extent): seq<nat> {
    seq(ex.length, j requires 0 <= j < ex.length => ex.start + j)
  }

  /** The same, where an extent that starts at 0 stands for a hole. */
  ghost function Places(ls: seq<Extent>): seq<Option<nat>> {
    if ls == [] then [] else Places(ls[..|ls| - 1]) + PlaceList(ls[|ls| - 1])
  }

  ghost function PlaceList(ex: Extent): seq<Option<nat>> {
    seq(ex.length, j requires 0 <= j < ex.length => if ex.start == 0 then None else Some(ex.start + j))
  }

  ghost function PlaceOf(c: Cell): Option<nat> {
    if c.Real? then Some(c.disk) else None
  }

  ghost function PlacesOf(c: seq<Cell>): (r: seq<Option<nat>>)
    ensures |r| == |c|
  {
    seq(|c|, j requires 0 <= j < |c| => PlaceOf(c[j]))
  }

  /** The test for extending the last extent looks at the object block where that extent begins,
      not at the disk block: it takes a hole for a real extent unless it is the first one, and the
      first extent for a hole even if it is real. */
  ghost predicate MisMerges(m: ExtentMap, last: nat, offset: nat, ex: Extent) {
    offset == last && var k := KeyBefore(m.Keys, last);
    k.Some? &&
    if k.value > 0 then ex.start != 0 && m[k.value].ex.start == 0 && m[k.value].ex.End() == ex.start
    else ex.start == 0 && m[k.value].ex.start != 0
  }

  class Onode {
    var extents: ExtentMap
    var allocBlocks: int
    var lastBlock: nat
    var dataCsum: int

    constructor ()
      ensures Valid() && Cells() == []
    {
      extents, allocBlocks, lastBlock, dataCsum := map[], 0, 0, 0;
    }

    /** The running totals are those of the real extents. */
    ghost predicate Balanced()
      reads this
    {
      && allocBlocks == Reals(CellsOf(extents, lastBlock))
      && dataCsum == Sum(CellsOf(extents, lastBlock))
    }

    /** What `verify_extents` checks: the extents tile [0, lastBlock) and the totals are right. */
    ghost predicate Valid()
      reads this
    {
      Apart(extents) && AllGood(extents) && Tiles(extents, lastBlock) && Balanced()
    }

    ghost function Cells(): (c: seq<Cell>)
      reads this
      ensures |c| == lastBlock
    {
      CellsOf(extents, lastBlock)
    }

    /** Subtracts the checksums from the total, or adds them. */
    method Forget(csum: seq<int>)
      modifies this`dataCsum
      ensures dataCsum == old(dataCsum) - Total(csum)
    {
      var j := 0;
      while j < |csum|
        invariant 0 <= j <= |csum| && dataCsum == old(dataCsum) - Total(csum[..j])
      {
        assert csum[..j + 1][..j] == csum[..j];
        dataCsum := dataCsum - csum[j];
        j := j + 1;
      }
      assert csum[..j] == csum;
    }

    method Remember(csum: seq<int>)
      modifies this`dataCsum
      ensures dataCsum == old(dataCsum) + Total(csum)
    {
      var j := 0;
      while j < |csum|
        invariant 0 <= j <= |csum| && dataCsum == old(dataCsum) + Total(csum[..j])
      {
        assert csum[..j + 1][..j] == csum[..j];
        dataCsum := dataCsum + csum[j];
        j := j + 1;
      }
      assert csum[..j] == csum;
    }

    // ---- set_extent: removing what is overwritten ----

    /** The extent before `offset` reaches past it: cut off its tail, and keep what is left of the
        tail beyond `e` as an extent of its own. */
    method CutPreceding(k: nat, offset: nat, e: nat)
      requires Apart(extents) && AllGood(extents) && Balanced()
      requires k in extents && k < offset < e && offset < k + extents[k].ex.length <= lastBlock
      modifies this`extents, this`allocBlocks, this`dataCsum
      ensures Balanced() && extents.Keys <= old(extents.Keys) + {e}
      ensures var end := old(k + extents[k].ex.length);
              Carved(old(extents), extents, offset, if e < end then e else end)
    {
      hide Reals;
      hide Sum;
      hide CellsOf;
      hide Total;
      hide Apart;
      hide Carved;
      var left := extents[k];
      ghost var end := k + left.ex.length;
      ghost var b := if e < end then e else end;
      var newlen := offset - k;
      CarveIsCarved(extents, k, offset, b);
      CarveTotals(extents, Carve(extents, k, offset, b), lastBlock, k, offset, b);
      if left.ex.start != 0 && b < end {
        TotalConcat(left.csum[newlen..b - k], left.csum[b - k..]);
        assert left.csum[newlen..] == left.csum[newlen..b - k] + left.csum[b - k..];
      } else if left.ex.start != 0 {
        assert left.csum[newlen..] == left.csum[newlen..b - k];
      }
      if k + left.ex.length > e {
        var right := Back(left, k + left.ex.length - e);
        extents := extents[e := right];
        if right.ex.start != 0 {
          allocBlocks := allocBlocks + right.ex.length;
          Remember(right.csum);
        }
      }
      if left.ex.start != 0 {
        allocBlocks := allocBlocks - (left.ex.length - newlen);
        Forget(left.csum[newlen..]);
      }
      extents := extents[k := Front(left, newlen)];
      assert extents == Carve(old(extents), k, offset, b);
    }

    /** The extent lies inside what is overwritten. */
    method Erase(k: nat)
      requires Apart(extents) && AllGood(extents) && Balanced()
      requires k in extents && k + extents[k].ex.length <= lastBlock
      modifies this`extents, this`allocBlocks, this`dataCsum
      ensures Balanced() && extents == old(extents) - {k}
      ensures Carved(old(extents), extents, k, old(k + extents[k].ex.length))
    {
      var o := extents[k];
      CarveIsCarved(extents, k, k, k + o.ex.length);
      CarveTotals(extents, Carve(extents, k, k, k + o.ex.length), lastBlock, k, k, k + o.ex.length);
      assert o.csum[0..|o.csum|] == o.csum;
      if o.ex.start != 0 {
        allocBlocks := allocBlocks - o.ex.length;
        Forget(o.csum);
      }
      extents := extents - {k};
    }

    /** The extent reaches past the end of what is overwritten: cut off its head. */
    method CutHead(k: nat, e: nat)
      requires Apart(extents) && AllGood(extents) && Balanced()
      requires k in extents && k < e < k + extents[k].ex.length <= lastBlock
      modifies this`extents, this`allocBlocks, this`dataCsum
      ensures Balanced() && extents.Keys == old(extents.Keys) - {k} + {e}
      ensures Carved(old(extents), extents, k, e)
    {
      hide Reals;
      hide Sum;
      hide CellsOf;
      hide Total;
      hide Apart;
      hide Carved;
      var o := extents[k];
      var overlap := e - k;
      CarveIsCarved(extents, k, k, e);
      CarveTotals(extents, Carve(extents, k, k, e), lastBlock, k, k, e);
      extents := extents[e := Back(o, o.ex.length - overlap)];
      if o.ex.start != 0 {
        allocBlocks := allocBlocks - overlap;
        Forget(o.csum[..overlap]);
        assert o.csum[0..overlap] == o.csum[..overlap];
      }
      extents := extents - {k};
      assert extents == Carve(old(extents), k, k, e);
    }

    /** Makes room before the first extent that begins at or after `offset`, and finds that one. */
    method PunchBefore(offset: nat, e: nat) returns (p: Option<nat>)
      requires Valid() && offset < e && offset < lastBlock
      modifies this`extents, this`allocBlocks, this`dataCsum
      ensures Balanced() && NoReach(extents, offset)
      ensures p == KeyAtOrAfter(extents.Keys, offset)
      ensures Carved(old(extents), extents, offset, if p.Some? && p.value < e then p.value else e)
    {
      hide CellsOf;
      hide Carved;
      hide Reals;
      hide Sum;
      ghost var was := extents;
      var before: Option<nat> := KeyBefore(extents.Keys, offset);
      p := KeyAtOrAfter(extents.Keys, offset);
      if before.Some? {
        var k := before.value;
        Below(extents, lastBlock, k);
        if k + extents[k].ex.length > offset {
          CutPreceding(k, offset, e);
          CutReaches(was, extents, k, offset, e);
          p := KeyAtOrAfter(extents.Keys, k + 1);
          return;
        }
        p := KeyAtOrAfter(extents.Keys, k + 1);
      }
      CarvedNothing(extents, offset);
      NoneReaches(extents, offset);
      CarvedToNext(was, extents, offset, offset, e);
    }

    /** Removes what an extent at `offset` overwrites. */
    method Punch(offset: nat, len: nat)
      requires Valid() && len > 0 && offset < lastBlock
      modifies this`extents, this`allocBlocks, this`dataCsum
      ensures Balanced() && Carved(old(extents), extents, offset, offset + len)
    {
      hide CellsOf;
      hide Carved;
      hide Reals;
      hide Sum;
      hide NoReach;
      hide Tiles;
      hide Good;
      ghost var was := extents;
      var e := offset + len;
      var p: Option<nat> := PunchBefore(offset, e);
      while p.Some? && p.value < e
        invariant Balanced() && NoReach(extents, offset)
        invariant p == KeyAtOrAfter(extents.Keys, offset)
        invariant Carved(was, extents, offset, if p.Some? && p.value < e then p.value else e)
        decreases if p.Some? && p.value < e then e - p.value else 0
      {
        var k := p.value;
        ghost var m := extents;
        CarvedParts(was, m, offset, k, lastBlock, k);
        if k + extents[k].ex.length <= e {
          var next: Option<nat> := KeyAtOrAfter(extents.Keys, k + 1);
          Erase(k);
          Erased(was, m, extents, offset, k, e);
          p := next;
        } else {
          CutHead(k, e);
          CarvedTwice(was, m, extents, offset, k, e);
          break;
        }
      }
    }

    // ---- set_extent ----

    /** set_extent at the end of the object. */
    method Append(ex: Extent)
      requires Valid() && ex.length > 0
      modifies this
      ensures lastBlock == old(lastBlock) + ex.length
      ensures !old(MisMerges(extents, lastBlock, lastBlock, ex)) ==> Valid() && Cells() == old(Cells()) + NewCells(ex)
      ensures old(MisMerges(extents, lastBlock, lastBlock, ex)) ==> Cells()[old(lastBlock)] != NewCells(ex)[0]
    {
      hide CellsOf;
      hide Reals;
      hide Sum;
      var last: Option<nat> := KeyBefore(extents.Keys, lastBlock);
      if last.Some? && ((last.value > 0 && ex.start != 0 && extents[last.value].ex.End() == ex.start)
                        || (last.value == 0 && ex.start == 0)) {
        LastKey(extents, lastBlock, last.value);
        GrowLast(extents, lastBlock, last.value, ex);
        GrowTotals(extents, lastBlock, last.value, ex);
        var e := extents[last.value];
        extents := extents[last.value := Grown(e, ex)];
      } else {
        AddNew(extents, lastBlock, lastBlock, ex, lastBlock + ex.length);
        AppendedCells(extents, lastBlock, ex);
        extents := extents[lastBlock := NewExtent(ex)];
      }
      lastBlock := lastBlock + ex.length;
      if ex.start != 0 {
        allocBlocks := allocBlocks + ex.length;
      }
    }

    /** set_extent beyond the end: the gap becomes a hole. A hole there is ignored. */
    method SetPastEnd(offset: nat, ex: Extent)
      requires Valid() && ex.length > 0 && offset > lastBlock
      modifies this
      ensures Valid() && Cells() == SetCells(old(Cells()), offset, ex)
    {
      hide CellsOf;
      hide Reals;
      hide Sum;
      hide SetCells;
      hide NewCells;
      PastEndCells(Cells(), offset, ex);
      if ex.start != 0 {
        var gap := Extent(0, offset - lastBlock);
        AddNew(extents, lastBlock, lastBlock, gap, offset);
        AppendedCells(extents, lastBlock, gap);
        extents := extents[lastBlock := NewExtent(gap)];
        AddNew(extents, offset, offset, ex, offset + ex.length);
        AppendedCells(extents, offset, ex);
        extents := extents[offset := NewExtent(ex)];
        lastBlock := offset + ex.length;
        allocBlocks := allocBlocks + ex.length;
      }
    }

    /** set_extent within the object. */
    method Overwrite(offset: nat, ex: Extent)
      requires Valid() && ex.length > 0 && offset < lastBlock
      modifies this
      ensures Valid() && Cells() == SetCells(old(Cells()), offset, ex)
    {
      hide CellsOf;
      hide Reals;
      hide Sum;
      hide Carved;
      ghost var was := extents;
      Punch(offset, ex.length);
      ghost var n := if offset + ex.length > lastBlock then offset + ex.length else lastBlock;
      PunchedFacts(was, extents, lastBlock, offset, ex.length);
      AddNew(extents, lastBlock, offset, ex, n);
      OverwrittenCells(was, extents, lastBlock, offset, ex);
      extents := extents[offset := NewExtent(ex)];
      if ex.start != 0 {
        allocBlocks := allocBlocks + ex.length;
      }
      if offset + ex.length > lastBlock {
        lastBlock := offset + ex.length;
      }
    }

    /** The map changes on exactly the blocks it should, and stays well formed, unless the last
        extent is extended by one of the other kind. */
    method SetExtent(offset: nat, ex: Extent)
      requires Valid() && ex.length > 0
      modifies this
      ensures Cells() == SetCells(old(Cells()), offset, ex) <==> !old(MisMerges(extents, lastBlock, offset, ex))
      ensures !old(MisMerges(extents, lastBlock, offset, ex)) ==> Valid()
    {
      hide CellsOf;
      hide Reals;
      hide Sum;
      hide Tiles;
      if offset == lastBlock {
        ghost var c := Cells();
        Append(ex);
        assert SetCells(c, offset, ex) == c + NewCells(ex);
        assert (c + NewCells(ex))[|c|] == NewCells(ex)[0];
      } else if offset > lastBlock {
        SetPastEnd(offset, ex);
      } else {
        Overwrite(offset, ex);
      }
    }

    // ---- truncate_extents ----

    /** Truncation in the middle of an extent: its tail goes. */
    method CutTail(k: nat, len: nat) returns (extra: seq<Extent>)
      requires Valid() && k in extents && k < len < k + extents[k].ex.length <= lastBlock
      modifies this`extents, this`allocBlocks, this`dataCsum
      ensures Balanced() && extents == old(extents)[k := Front(old(extents)[k], len - k)]
      ensures Carved(old(extents), extents, len, old(k + extents[k].ex.length))
      ensures Flat(extra) == DiskBlocks(old(Cells())[len..k + old(extents)[k].ex.length])
    {
      hide Reals;
      hide Sum;
      hide CellsOf;
      hide Total;
      hide Apart;
      hide Carved;
      hide Flat;
      hide BlockList;
      hide DiskBlocks;
      hide At;
      hide Tiles;
      var o := extents[k];
      var newlen := len - k;
      TailCut(extents, lastBlock, k, len);
      SpanDisks(extents, lastBlock, k, len);
      FlatNone();
      extra := [];
      if o.ex.start != 0 {
        var ex := Extent(o.ex.start + newlen, o.ex.length - newlen);
        Forget(o.csum[newlen..]);
        extra := extra + [ex];
        allocBlocks := allocBlocks - ex.length;
        FlatOne(ex);
        assert extra == [ex];
      }
      extents := extents[k := Front(o, newlen)];
    }

    /** The first extent to drop as a whole, after cutting the one that `len` falls into. */
    method TruncateFirst(len: nat) returns (p: Option<nat>, extra: seq<Extent>, ghost pos: nat)
      requires Valid() && len <= lastBlock
      modifies this`extents, this`allocBlocks, this`dataCsum
      ensures Balanced() && len <= pos <= lastBlock && p == (if pos < lastBlock then Some(pos) else None)
      ensures p.Some? ==> p.value in extents
      ensures Carved(old(extents), extents, len, pos) && SameFrom(old(extents), extents, pos)
      ensures Flat(extra) == DiskBlocks(old(Cells())[len..pos])
    {
      hide Reals;
      hide Sum;
      hide CellsOf;
      hide Carved;
      hide At;
      hide DiskBlocks;
      hide Flat;
      hide Apart;
      hide AllGood;
      hide Tiles;
      ghost var was := extents;
      var before: Option<nat> := KeyBefore(extents.Keys, len);
      p := KeyAtOrAfter(extents.Keys, len);
      extra := [];
      pos := len;
      WhereToLook(extents, lastBlock, len);
      FlatNone();
      assert Cells()[len..len] == [];
      CarvedNothing(extents, len);
      if before.Some? && (p.None? || p.value > len) {
        var k := before.value;
        if extents[k].ex.length > len - k {
          pos := k + extents[k].ex.length;
          NextKey(extents, lastBlock, k);
          extra := CutTail(k, len);
          assert extents.Keys == was.Keys;
        }
        p := KeyAtOrAfter(extents.Keys, k + 1);
      }
    }

    /** Shortens the object to `len` blocks, and returns exactly the disk blocks of the rest. */
    method TruncateExtents(len: nat) returns (extra: seq<Extent>)
      requires Valid() && len <= lastBlock
      modifies this
      ensures Valid() && Cells() == old(Cells())[..len]
      ensures Flat(extra) == DiskBlocks(old(Cells())[len..])
    {
      hide Reals;
      hide Sum;
      hide CellsOf;
      hide Carved;
      hide At;
      hide Flat;
      hide Tiles;
      hide DiskBlocks;
      hide SameFrom;
      hide Apart;
      hide AllGood;
      ghost var was := extents;
      ghost var c := Cells();
      ghost var n := lastBlock;
      var p: Option<nat>;
      ghost var pos: nat;
      p, extra, pos := TruncateFirst(len);
      while p.Some?
        invariant lastBlock == n && Balanced() && len <= pos <= n && p == (if pos < n then Some(pos) else None)
        invariant Carved(was, extents, len, pos) && SameFrom(was, extents, pos)
        invariant p.Some? ==> p.value in extents
        invariant Flat(extra) == DiskBlocks(c[len..pos])
        decreases n - pos
      {
        var k := p.value;
        ghost var m := extents;
        DropNext(was, m, lastBlock, len, pos);
        DropDisks(was, lastBlock, len, pos, extra);
        var o := extents[k];
        if o.ex.start != 0 {
          extra := extra + [o.ex];
        }
        var next: Option<nat> := KeyAtOrAfter(extents.Keys, k + 1);
        Erase(k);
        CarvedTwice(was, m, extents, len, k, k + o.ex.length);
        pos := k + o.ex.length;
        p := next;
      }
      assert c[len..pos] == c[len..];
      Truncated(was, extents, lastBlock, len);
      lastBlock := len;
    }

    // ---- looking up ----

    /** Where the walk of map_extents begins. */
    method FirstAtOrAfter(start: nat, len: nat) returns (p: Option<nat>)
      requires Valid()
      ensures p == KeyAtOrAfter(extents.Keys, start)
    {
      hide At;
      if start == 0 {
        p := KeyAtOrAfter(extents.Keys, 0);
      } else if start + len == lastBlock && len == 1 && extents != map[] {
        LastIsLast(extents, lastBlock);
        p := KeyBefore(extents.Keys, lastBlock);
        if p.value < start {
          p := None;
        }
      } else {
        p := KeyAtOrAfter(extents.Keys, start);
      }
    }

    /** The piece of the extent that the range begins in, if it begins in the middle of one. */
    method MapMiddle(first: nat, count: nat) returns (ls: seq<Extent>, start: nat, p: Option<nat>)
      requires Valid()
      ensures first <= start <= first + count && (start > first ==> start <= lastBlock)
      ensures start < first + count ==> p == if start < lastBlock then Some(start) else None
      ensures Places(ls) == if start <= lastBlock then PlacesOf(Cells()[first..start]) else []
      ensures p.Some? ==> p.value in extents
      ensures count > 0 ==> forall e :: e in ls ==> 0 < e.length <= count
      ensures FirstEnds(ls, first, start, extents)
    {
      hide Places;
      hide Apart;
      p := FirstAtOrAfter(first, count);
      var before: Option<nat> := KeyBefore(extents.Keys, first);
      ls, start := [], first;
      WhereToLook(extents, lastBlock, first);
      NoPlaces();
      if before.Some? && (p.None? || p.value > first) {
        var k := before.value;
        if extents[k].ex.length > first - k {
          var off := first - k;
          var n := if count < extents[k].ex.length - off then count else extents[k].ex.length - off;
          MapPiece(extents, lastBlock, k, first, first, n, ls);
          NextKey(extents, lastBlock, k);
          ls := ls + [Extent(if extents[k].ex.start != 0 then extents[k].ex.start + off else 0, n)];
          start := first + n;
        }
        p := KeyAtOrAfter(extents.Keys, k + 1);
      }
    }

    /** The disk extents of a range of object blocks, as far as the object reaches. */
    method MapExtents(first: nat, count: nat) returns (ls: seq<Extent>)
      requires Valid()
      ensures var a := if first < lastBlock then first else lastBlock;
              var b := if first + count < lastBlock then first + count else lastBlock;
              Places(ls) == PlacesOf(Cells()[a..b])
      ensures count > 0 ==> forall e :: e in ls ==> 0 < e.length <= count
      ensures |ls| > 1 ==> first + ls[0].length in extents
    {
      hide At;
      hide CellsOf;
      hide Reals;
      hide Sum;
      hide PlacesOf;
      hide Places;
      hide Tiles;
      hide Apart;
      hide AllGood;
      hide FirstEnds;
      var start: nat;
      var p: Option<nat>;
      ls, start, p := MapMiddle(first, count);
      var len := first + count - start;
      while len > 0 && p.Some?
        invariant len >= 0 && start + len == first + count && start >= first
        invariant len > 0 ==> p == if start < lastBlock then Some(start) else None
        invariant p.Some? ==> p.value in extents
        invariant count > 0 ==> forall e :: e in ls ==> 0 < e.length <= count
        invariant FirstEnds(ls, first, start, extents)
        invariant start > first ==> start <= lastBlock
        invariant Places(ls) == if start <= lastBlock then PlacesOf(Cells()[first..start]) else []
        decreases len
      {
        var k := p.value;
        var e := extents[k];
        var n := if len < e.ex.length then len else e.ex.length;
        NextKey(extents, lastBlock, k);
        MapPiece(extents, lastBlock, k, first, start, n, ls);
        FirstEndsMore(ls, first, start, Extent(e.ex.start, n), extents);
        ls := ls + [Extent(e.ex.start, n)];
        start, len := start + n, len - n;
        p := KeyAtOrAfter(extents.Keys, k + 1);
      }
      FirstEnd(ls, first, start, extents);
    }

    /** Where the checksums of a range of blocks are; the range must lie in one real extent. */
    method GetExtentCsum(offset: nat, len: nat) returns (k: nat, j: nat)
      requires Valid()
      requires exists h: nat :: Holds(extents, h, offset) && extents[h].ex.start != 0
                                && offset + len <= h + extents[h].ex.length
      ensures k in extents && k + j == offset && j + len <= |extents[k].csum| && j < |extents[k].csum|
      ensures offset < lastBlock && offset + len <= lastBlock && Good(extents[k])
      ensures forall b :: offset <= b < offset + len ==>
                Cells()[b] == Real(extents[k].ex.start + (b - k), extents[k].csum[b - k])
    {
      hide At;
      hide Reals;
      hide Sum;
      hide CellsOf;
      ghost var h: nat :| Holds(extents, h, offset) && extents[h].ex.start != 0
                          && offset + len <= h + extents[h].ex.length;
      var p: Option<nat> := KeyAtOrAfter(extents.Keys, offset);
      if p.None? || p.value > offset {
        p := KeyBefore(extents.Keys, offset);
      }
      k := p.value;
      j := offset - k;
      assert k == h;
      Below(extents, lastBlock, k);
      ExtentCells(extents, lastBlock, k);
    }

    /** Replaces the checksum of a block. */
    method UpdateCsum(offset: nat, newc: int)
      requires Valid() && offset < lastBlock && Cells()[offset].Real?
      modifies this`extents, this`dataCsum
      ensures Valid() && Cells() == old(Cells())[offset := Real(old(Cells())[offset].disk, newc)]
    {
      hide Reals;
      hide Sum;
      hide CellsOf;
      hide At;
      RealHolder(extents, lastBlock, offset);
      var k, j := GetExtentCsum(offset, 1);
      var e := extents[k];
      assert Cells()[offset] == Real(e.ex.start + j, e.csum[j]);
      PutCsum(extents, lastBlock, k, j, newc);
      dataCsum := dataCsum + (newc - e.csum[j]);
      extents := extents[k := e.(csum := e.csum[j := newc])];
    }
  }

  // ---- truncation ----

  /** From pos on, the extents are the same. */
  ghost predicate SameFrom(m: ExtentMap, m': ExtentMap, pos: nat) {
    forall k: nat :: k >= pos ==> (k in m <==> k in m') && (k in m ==> k in m' && m'[k] == m[k])
  }

  lemma FlatOne(ex: Extent)
    ensures Flat([ex]) == BlockList(ex)
  {
    assert [ex][..0] == [];
  }

  lemma FlatNone()
    ensures Flat([]) == [] && DiskBlocks([]) == []
  {
  }

  lemma TailCut(m: ExtentMap, n: nat, k: nat, len: nat)
    requires Apart(m) && AllGood(m) && k in m && k < len < k + m[k].ex.length <= n
    ensures var m' := m[k := Front(m[k], len - k)];
            && Carved(m, m', len, k + m[k].ex.length)
            && Reals(CellsOf(m', n)) == Reals(CellsOf(m, n)) - (if m[k].ex.start != 0 then k + m[k].ex.length - len else 0)
            && Sum(CellsOf(m', n)) == Sum(CellsOf(m, n)) - (if m[k].ex.start != 0 then Total(m[k].csum[len - k..]) else 0)
  {
    var end := k + m[k].ex.length;
    CarveIsCarved(m, k, len, end);
    CarveTotals(m, Carve(m, k, len, end), n, k, len, end);
    if m[k].ex.start != 0 {
      assert m[k].csum[len - k..end - k] == m[k].csum[len - k..];
    }
  }

  lemma {:induction false} DisksConcat(c: seq<Cell>, d: seq<Cell>)
    ensures DiskBlocks(c + d) == DiskBlocks(c) + DiskBlocks(d)
    decreases |d|
  {
    if d == [] {
      assert c + d == c;
    } else {
      var n := |d| - 1;
      DisksConcat(c, d[..n]);
      assert (c + d)[..|c| + n] == c + d[..n];
    }
  }

  lemma BlockListNext(start: nat, n: nat)
    ensures BlockList(Extent(start, n + 1)) == BlockList(Extent(start, n)) + [start + n]
  {
  }

  lemma DisksNext(c: seq<Cell>, x: Cell)
    ensures DiskBlocks(c + [x]) == DiskBlocks(c) + if x.Real? then [x.disk] else []
  {
    assert (c + [x])[..|c|] == c;
  }

  lemma SpanNext(e: ExtentCsum, a: nat, b: nat)
    requires a <= b < e.ex.length
    ensures Span(e)[a..b + 1] == Span(e)[a..b] + [CellIn(e, b)]
  {
    hide CellIn;
  }

  lemma NoDisks(e: ExtentCsum, a: nat)
    requires a <= e.ex.length
    ensures DiskBlocks(Span(e)[a..a]) == [] && BlockList(Extent(e.ex.start + a, 0)) == []
  {
    hide Span;
  }

  lemma CellDisk(e: ExtentCsum, j: nat)
    requires j < e.ex.length
    ensures if e.ex.start == 0 then !CellIn(e, j).Real? else CellIn(e, j).Real? && CellIn(e, j).disk == e.ex.start + j
  {
  }

  lemma {:induction false} PieceDisks(e: ExtentCsum, a: nat, b: nat)
    requires a <= b <= e.ex.length
    ensures DiskBlocks(Span(e)[a..b]) == if e.ex.start == 0 then [] else BlockList(Extent(e.ex.start + a, b - a))
    decreases b
  {
    hide *;
    if a == b {
      NoDisks(e, a);
    } else {
      PieceDisks(e, a, b - 1);
      SpanNext(e, a, b - 1);
      DisksNext(Span(e)[a..b - 1], CellIn(e, b - 1));
      CellDisk(e, b - 1);
      BlockListNext(e.ex.start + a, b - a - 1);
    }
  }

  lemma SpanDisks(m: ExtentMap, n: nat, k: nat, a: nat)
    requires Apart(m) && k in m && k <= a < k + m[k].ex.length <= n
    ensures var end := k + m[k].ex.length;
            DiskBlocks(CellsOf(m, n)[a..end]) ==
            if m[k].ex.start == 0 then [] else BlockList(Extent(m[k].ex.start + (a - k), end - a))
  {
    hide CellsOf;
    hide Span;
    hide DiskBlocks;
    SpanAt(m, n, k);
    var end := k + m[k].ex.length;
    SliceOfSlice(CellsOf(m, n), k, end, a, end);
    PieceDisks(m[k], a - k, end - k);
  }

  /** The extent that block `len` falls into is the first one at or after it, or the one before. */
  lemma WhereToLook(m: ExtentMap, n: nat, len: nat)
    requires Apart(m) && AllGood(m) && Tiles(m, n)
    ensures var p: Option<nat> := KeyAtOrAfter(m.Keys, len);
            var q: Option<nat> := KeyBefore(m.Keys, len);
            && (q.Some? ==> q.value in m && q.value + m[q.value].ex.length <= n)
            && (len < n && p != Some(len) ==> q.Some? && len < q.value + m[q.value].ex.length)
            && (n <= len ==> p == None && (q.Some? ==> KeyAtOrAfter(m.Keys, q.value + 1) == None))
  {
    hide At;
    hide CellIn;
    forall k | k in m ensures k + m[k].ex.length <= n {
      Below(m, n, k);
    }
    if len < n {
      KeyFor(m, n, len);
    }
  }

  lemma SameNext(m: ExtentMap, m': ExtentMap, pos: nat)
    requires SameFrom(m, m', pos)
    ensures KeyAtOrAfter(m'.Keys, pos + 1) == KeyAtOrAfter(m.Keys, pos + 1)
  {
    var a: Option<nat> := KeyAtOrAfter(m.Keys, pos + 1);
    var b: Option<nat> := KeyAtOrAfter(m'.Keys, pos + 1);
    assert a.Some? ==> a.value in m';
    assert b.Some? ==> b.value in m;
  }

  lemma DropNext(was: ExtentMap, m: ExtentMap, n: nat, len: nat, pos: nat)
    requires Apart(was) && AllGood(was) && Tiles(was, n) && len <= pos < n
    requires Carved(was, m, len, pos) && SameFrom(was, m, pos) && pos in m
    ensures pos in was && m[pos] == was[pos] && pos + m[pos].ex.length <= n && m[pos].ex.length > 0
    ensures Apart(m) && AllGood(m)
    ensures var e := pos + m[pos].ex.length;
            && KeyAtOrAfter(m.Keys, pos + 1) == (if e < n then Some(e) else None)
            && SameFrom(was, m - {pos}, e)
            && (e < n ==> e in m - {pos})
  {
    hide At;
    hide Tiles;
    NextKey(was, n, pos);
    SameNext(was, m, pos);
  }

  lemma DropDisks(was: ExtentMap, n: nat, len: nat, pos: nat, extra: seq<Extent>)
    requires Apart(was) && AllGood(was) && pos in was && len <= pos && pos + was[pos].ex.length <= n
    requires Flat(extra) == DiskBlocks(CellsOf(was, n)[len..pos])
    ensures Flat(if was[pos].ex.start != 0 then extra + [was[pos].ex] else extra)
            == DiskBlocks(CellsOf(was, n)[len..pos + was[pos].ex.length])
  {
    hide DiskBlocks;
    hide CellsOf;
    var c := CellsOf(was, n);
    var e := pos + was[pos].ex.length;
    SpanDisks(was, n, pos, pos);
    DisksConcat(c[len..pos], c[pos..e]);
    assert c[len..pos] + c[pos..e] == c[len..e];
    assert (extra + [was[pos].ex])[..|extra|] == extra;
  }

  lemma Truncated(was: ExtentMap, m: ExtentMap, n: nat, len: nat)
    requires Tiles(was, n) && Carved(was, m, len, n) && len <= n
    ensures Apart(m) && AllGood(m) && Tiles(m, len)
    ensures CellsOf(m, len) == CellsOf(was, n)[..len]
    ensures Reals(CellsOf(m, n)) == Reals(CellsOf(m, len)) && Sum(CellsOf(m, n)) == Sum(CellsOf(m, len))
  {
    hide At;
    hide Reals;
    hide Sum;
    assert CellsOf(m, n) == CellsOf(m, len) + Blank(n - len);
    Concat(CellsOf(m, len), Blank(n - len));
    NoReals(Blank(n - len));
  }

  // ---- looking up ----

  lemma LastIsLast(m: ExtentMap, n: nat)
    requires Apart(m) && AllGood(m) && Tiles(m, n) && m != map[]
    ensures KeyBefore(m.Keys, n).Some? && forall k :: k in m ==> k < n
  {
    hide At;
    hide CellIn;
    forall k | k in m ensures k < n {
      Below(m, n, k);
    }
  }

  lemma NoPlaces()
    ensures Places([]) == PlacesOf([])
  {
  }

  /** The first piece of a range ends where the second one begins, at the beginning of an extent. */
  ghost predicate FirstEnds(ls: seq<Extent>, first: nat, start: nat, m: ExtentMap) {
    && (ls == [] ==> start == first) && (|ls| == 1 ==> first + ls[0].length == start)
    && (|ls| > 1 ==> first + ls[0].length in m)
  }

  lemma FirstEndsMore(ls: seq<Extent>, first: nat, start: nat, e: Extent, m: ExtentMap)
    requires FirstEnds(ls, first, start, m) && start in m
    ensures FirstEnds(ls + [e], first, start + e.length, m)
  {
  }

  lemma FirstEnd(ls: seq<Extent>, first: nat, start: nat, m: ExtentMap)
    requires FirstEnds(ls, first, start, m)
    ensures |ls| > 1 ==> first + ls[0].length in m
  {
  }

  lemma MapPiece(m: ExtentMap, n: nat, k: nat, first: nat, start: nat, count: nat, ls: seq<Extent>)
    requires Apart(m) && k in m && k <= start && start + count <= k + m[k].ex.length <= n && first <= start
    requires Places(ls) == PlacesOf(CellsOf(m, n)[first..start])
    ensures Places(ls + [Extent(if m[k].ex.start != 0 then m[k].ex.start + (start - k) else 0, count)])
            == PlacesOf(CellsOf(m, n)[first..start + count])
  {
    hide *;
    var c := CellsOf(m, n);
    SpanAt(m, n, k);
    var ex := Extent(if m[k].ex.start != 0 then m[k].ex.start + (start - k) else 0, count);
    PlacesMore(ls, ex);
    PiecePlaces(m[k], start - k, count);
    SliceOfSlice(c, k, k + m[k].ex.length, start, start + count);
    SlicesJoin(c, first, start, start + count);
  }

  lemma SlicesJoin(c: seq<Cell>, a: nat, b: nat, e: nat)
    requires a <= b <= e <= |c|
    ensures PlacesOf(c[a..e]) == PlacesOf(c[a..b]) + PlacesOf(c[b..e])
  {
    hide PlacesOf;
    assert c[a..e] == c[a..b] + c[b..e];
    PlacesConcat(c[a..b], c[b..e]);
  }

  lemma PlacesMore(ls: seq<Extent>, ex: Extent)
    ensures Places(ls + [ex]) == Places(ls) + PlaceList(ex)
  {
    hide PlaceList;
    assert (ls + [ex])[..|ls|] == ls;
  }

  lemma PiecePlaces(e: ExtentCsum, a: nat, count: nat)
    requires a + count <= e.ex.length
    ensures PlacesOf(Span(e)[a..a + count])
            == PlaceList(Extent(if e.ex.start != 0 then e.ex.start + a else 0, count))
  {
  }

  lemma PlacesConcat(c: seq<Cell>, d: seq<Cell>)
    ensures PlacesOf(c + d) == PlacesOf(c) + PlacesOf(d)
  {
  }

  // ---- checksums ----

  lemma RealHolder(m: ExtentMap, n: nat, i: nat)
    requires Apart(m) && i < n && CellsOf(m, n)[i].Real?
    ensures exists h: nat :: Holds(m, h, i) && m[h].ex.start != 0 && i + 1 <= h + m[h].ex.length
  {
    assert At(m, i).Real?;
    var h := Holder(m, i);
    AtIs(m, h, i);
  }

  lemma ExtentCells(m: ExtentMap, n: nat, k: nat)
    requires Apart(m) && AllGood(m) && k in m && m[k].ex.start != 0 && k + m[k].ex.length <= n
    ensures forall b :: k <= b < k + m[k].ex.length ==>
              CellsOf(m, n)[b] == Real(m[k].ex.start + (b - k), m[k].csum[b - k])
  {
    forall b: nat | k <= b < k + m[k].ex.length ensures At(m, b) == CellIn(m[k], b - k) {
      assert Holds(m, k, b);
      AtIs(m, k, b);
    }
  }

  lemma ReplaceTotals(c: seq<Cell>, i: nat, x: Cell)
    requires i < |c| && c[i].Real? && x.Real?
    ensures Reals(c[i := x]) == Reals(c) && Sum(c[i := x]) == Sum(c) - c[i].csum + x.csum
  {
    var d := c[i := x];
    assert c == c[..i + 1] + c[i + 1..] && d == d[..i + 1] + c[i + 1..];
    Concat(c[..i + 1], c[i + 1..]);
    Concat(d[..i + 1], c[i + 1..]);
    assert c[..i + 1][..i] == c[..i] && d[..i + 1][..i] == c[..i];
  }

  lemma PutCsum(m: ExtentMap, n: nat, k: nat, j: nat, x: int)
    requires Apart(m) && AllGood(m) && Tiles(m, n) && k in m && j < |m[k].csum|
    ensures var m' := m[k := m[k].(csum := m[k].csum[j := x])];
            && Apart(m') && AllGood(m') && Tiles(m', n) && k + j < n
            && CellsOf(m, n)[k + j] == Real(m[k].ex.start + j, m[k].csum[j])
            && CellsOf(m', n) == CellsOf(m, n)[k + j := Real(m[k].ex.start + j, x)]
            && Reals(CellsOf(m', n)) == Reals(CellsOf(m, n))
            && Sum(CellsOf(m', n)) == Sum(CellsOf(m, n)) - m[k].csum[j] + x
  {
    hide At;
    hide Reals;
    hide Sum;
    hide CellIn;
    var e := m[k].(csum := m[k].csum[j := x]);
    Below(m, n, k);
    PutAt(m, k, j, x);
    CellIs(m[k], j);
    assert CellsOf(m[k := e], n) == CellsOf(m, n)[k + j := Real(m[k].ex.start + j, x)];
    ReplaceTotals(CellsOf(m, n), k + j, Real(m[k].ex.start + j, x));
  }

  lemma CellIs(e: ExtentCsum, j: nat)
    requires Good(e) && j < |e.csum|
    ensures CellIn(e, j) == Real(e.ex.start + j, e.csum[j])
  {
  }

  ghost predicate AtPut(m: ExtentMap, m': ExtentMap, b: nat, c: Cell) {
    && At(m, b).Real?
    && forall i: nat {:trigger At(m', i)} :: At(m', i) == if i == b then c else At(m, i)
  }

  ghost predicate SameBut(e: ExtentCsum, e': ExtentCsum, j: nat, c: Cell) {
    forall l: nat {:trigger CellIn(e', l)} :: CellIn(e', l) == if l == j then c else CellIn(e, l)
  }

  lemma CellPut(e: ExtentCsum, j: nat, x: int)
    requires Good(e) && j < |e.csum|
    ensures SameBut(e, e.(csum := e.csum[j := x]), j, Real(e.ex.start + j, x))
    ensures CellIn(e, j).Real?
  {
  }

  lemma PutAt(m: ExtentMap, k: nat, j: nat, x: int)
    requires Apart(m) && AllGood(m) && k in m && j < |m[k].csum|
    ensures At(m, k + j) == CellIn(m[k], j)
    ensures AtPut(m, m[k := m[k].(csum := m[k].csum[j := x])], k + j, Real(m[k].ex.start + j, x))
  {
    hide CellIn;
    var e := m[k].(csum := m[k].csum[j := x]);
    var m' := m[k := e];
    CellPut(m[k], j, x);
    assert Holds(m, k, k + j);
    AtIs(m, k, k + j);
    forall i: nat ensures At(m', i) == if i == k + j then Real(m[k].ex.start + j, x) else At(m, i) {
      if h: nat :| Holds(m, h, i) {
        assert Holds(m', h, i);
        AtIs(m, h, i);
        AtIs(m', h, i);
      } else {
        assert forall h: nat :: Holds(m', h, i) ==> Holds(m, h, i);
      }
    }
  }

  // ---- what users of the map rely on ----

  /** No disk block holds two blocks of the object. */
  ghost predicate Distinct(c: seq<Cell>) {
    forall i, j :: 0 <= i < j < |c| && c[i].Real? && c[j].Real? ==> c[i].disk != c[j].disk
  }

  lemma SetKeepsDistinct(c: seq<Cell>, offset: nat, ex: Extent)
    requires Distinct(c)
    requires forall i :: 0 <= i < |c| && c[i].Real? && !(offset <= i < offset + ex.length) ==>
               c[i].disk < ex.start || ex.End() <= c[i].disk
    ensures Distinct(SetCells(c, offset, ex))
  {
    var d := SetCells(c, offset, ex);
    forall i | 0 <= i < |d| && d[i].Real?
      ensures if offset <= i < offset + ex.length then d[i].disk == ex.start + (i - offset)
              else i < |c| && d[i] == c[i]
    {
    }
  }

  /** A real block is appended to an object of one block and a hole, and is lost. */
  lemma LostAppend()
    ensures var m := map[0 := ExtentCsum(Extent(9, 1), [5]), 1 := ExtentCsum(Extent(0, 7), [])];
            && Apart(m) && AllGood(m) && Tiles(m, 8)
            && MisMerges(m, 8, 8, Extent(7, 1))
  {
    var m := map[0 := ExtentCsum(Extent(9, 1), [5]), 1 := ExtentCsum(Extent(0, 7), [])];
    var k: Option<nat> := KeyBefore(m.Keys, 8);
    assert 1 in m.Keys;
    assert k.value == 1;
    forall i: nat ensures At(m, i) != Nowhere <==> i < 8 {
      if i < 8 {
        AtIs(m, if i < 1 then 0 else 1, i);
      }
    }
  }

  // ---- set_extent ----

  /** An extent of new blocks; their checksums are 0. */
  function NewExtent(ex: Extent): ExtentCsum {
    ExtentCsum(ex, if ex.start != 0 then ResizeTail([], ex.length) else [])
  }

  /** The last extent, made longer by ex. */
  function Grown(e: ExtentCsum, ex: Extent): ExtentCsum {
    ExtentCsum(Extent(e.ex.start, e.ex.length + ex.length),
               if ex.start != 0 then ResizeTail(e.csum, e.ex.length + ex.length) else e.csum)
  }

  lemma LastKey(m: ExtentMap, n: nat, k: nat)
    requires Apart(m) && AllGood(m) && Tiles(m, n) && KeyBefore(m.Keys, n) == Some(k)
    ensures k + m[k].ex.length == n
  {
    hide At;
    hide CellIn;
    NextKey(m, n, k);
  }

  /** Adding an extent of new blocks where nothing is. */
  lemma AddNew(m: ExtentMap, n: nat, k: nat, ex: Extent, n': nat)
    requires Apart(m) && AllGood(m) && ex.length > 0
    requires forall i: nat :: At(m, i) != Nowhere ==> i < n
    requires forall i: nat :: k <= i < k + ex.length ==> At(m, i) == Nowhere
    requires n <= n' && k + ex.length <= n'
    ensures var m' := m[k := NewExtent(ex)];
            && Added(m, m', k, NewExtent(ex)) && AllGood(m')
            && Reals(CellsOf(m', n')) == Reals(CellsOf(m, n)) + (if ex.start != 0 then ex.length else 0)
            && Sum(CellsOf(m', n')) == Sum(CellsOf(m, n))
  {
    AddIsAdded(m, k, NewExtent(ex));
    AddTotals(m, m[k := NewExtent(ex)], n, k, NewExtent(ex), n');
    if ex.start != 0 {
      TailTotal([], ex.length);
    }
  }

  lemma NewCellsAre(ex: Extent)
    ensures forall j :: 0 <= j < ex.length ==> CellIn(NewExtent(ex), j) == NewCells(ex)[j]
  {
  }

  lemma PastEndCells(c: seq<Cell>, offset: nat, ex: Extent)
    requires offset > |c|
    ensures SetCells(c, offset, ex)
            == if ex.start == 0 then c else c + NewCells(Extent(0, offset - |c|)) + NewCells(ex)
  {
    assert NewCells(Extent(0, offset - |c|)) == Holes(offset - |c|);
  }

  lemma AppendedCells(m: ExtentMap, n: nat, ex: Extent)
    requires ex.length > 0 && Tiles(m, n) && Added(m, m[n := NewExtent(ex)], n, NewExtent(ex))
    ensures var m' := m[n := NewExtent(ex)];
            Tiles(m', n + ex.length) && CellsOf(m', n + ex.length) == CellsOf(m, n) + NewCells(ex)
  {
    hide At;
    NewCellsAre(ex);
  }

  lemma GrowApart(m: ExtentMap, n: nat, k: nat, e: ExtentCsum)
    requires Apart(m) && AllGood(m) && Tiles(m, n) && k in m && k + m[k].ex.length == n
    ensures Apart(m[k := e])
  {
    hide At;
    hide CellIn;
    forall j | j in m ensures j <= k {
      Below(m, n, j);
    }
  }

  /** m' is m with its last extent k replaced by the longer e. */
  ghost predicate Grew(m: ExtentMap, m': ExtentMap, n: nat, k: nat, e: ExtentCsum) {
    k <= n && forall i: nat {:trigger At(m', i)} ::
      At(m', i) == if n <= i < k + e.ex.length then CellIn(e, i - k) else At(m, i)
  }

  lemma GrowLast(m: ExtentMap, n: nat, k: nat, ex: Extent)
    requires Apart(m) && AllGood(m) && Tiles(m, n) && k in m && k + m[k].ex.length == n && ex.length > 0
    ensures var m' := m[k := Grown(m[k], ex)];
            Apart(m') && Tiles(m', n + ex.length) && Grew(m, m', n, k, Grown(m[k], ex))
  {
    hide At;
    var e := Grown(m[k], ex);
    GrowApart(m, n, k, e);
    GrowAt(m, n, k, e);
    assert forall i: nat :: CellIn(e, i) != Nowhere;
  }

  lemma GrowAt(m: ExtentMap, n: nat, k: nat, e: ExtentCsum)
    requires Apart(m) && Apart(m[k := e]) && k in m && k + m[k].ex.length == n && n < k + e.ex.length
    requires forall i: nat :: n <= i ==> At(m, i) == Nowhere
    requires forall j :: 0 <= j < m[k].ex.length ==> CellIn(e, j) == CellIn(m[k], j)
    ensures Grew(m, m[k := e], n, k, e)
  {
    hide CellIn;
    var m' := m[k := e];
    forall i: nat ensures At(m', i) == if n <= i < k + e.ex.length then CellIn(e, i - k) else At(m, i) {
      if Holds(m', k, i) {
        AtIs(m', k, i);
        if i < n {
          AtIs(m, k, i);
        }
      } else if h: nat :| Holds(m, h, i) {
        assert Holds(m', h, i);
        AtIs(m, h, i);
        AtIs(m', h, i);
      } else {
        assert forall h: nat :: Holds(m', h, i) ==> h == k || Holds(m, h, i);
      }
    }
  }

  ghost predicate SameKind(e: ExtentCsum, ex: Extent) {
    if ex.start == 0 then e.ex.start == 0 else e.ex.start != 0 && e.ex.End() == ex.start
  }

  lemma GrownCells(e: ExtentCsum, ex: Extent)
    requires Good(e) && ex.length > 0
    ensures SameKind(e, ex) ==> forall j :: 0 <= j < ex.length ==>
              CellIn(Grown(e, ex), e.ex.length + j) == NewCells(ex)[j]
    ensures (e.ex.start == 0) != (ex.start == 0) ==> CellIn(Grown(e, ex), e.ex.length) != NewCells(ex)[0]
  {
  }

  /** The cells and totals, if the extent grows by one of its own kind. */
  lemma GrowTotals(m: ExtentMap, n: nat, k: nat, ex: Extent)
    requires AllGood(m) && k in m && k + m[k].ex.length == n && ex.length > 0
    requires Grew(m, m[k := Grown(m[k], ex)], n, k, Grown(m[k], ex))
    ensures var m' := m[k := Grown(m[k], ex)];
            var c := CellsOf(m', n + ex.length);
            && ((m[k].ex.start == 0) != (ex.start == 0) ==> c[n] != NewCells(ex)[0])
            && (SameKind(m[k], ex) ==>
                  && AllGood(m') && c == CellsOf(m, n) + NewCells(ex)
                  && Reals(c) == Reals(CellsOf(m, n)) + (if ex.start != 0 then ex.length else 0)
                  && Sum(c) == Sum(CellsOf(m, n)))
  {
    hide At;
    hide CellIn;
    hide NewCells;
    hide Reals;
    hide Sum;
    hide Total;
    var m' := m[k := Grown(m[k], ex)];
    var c := CellsOf(m', n + ex.length);
    GrownCells(m[k], ex);
    if SameKind(m[k], ex) {
      var l := m[k].ex.length;
      forall j: nat | n <= j < n + ex.length ensures c[j] == NewCells(ex)[j - n] {
        assert c[j] == At(m', j);
        assert CellIn(Grown(m[k], ex), l + (j - n)) == NewCells(ex)[j - n];
      }
      assert c == CellsOf(m, n) + NewCells(ex);
      Concat(CellsOf(m, n), NewCells(ex));
      NewCellsTotals(ex);
    } else {
      assert c[n] == At(m', n);
    }
  }

  lemma NewCellsTotals(ex: Extent)
    requires ex.length > 0
    ensures Reals(NewCells(ex)) == (if ex.start != 0 then ex.length else 0) && Sum(NewCells(ex)) == 0
  {
    NewCellsAre(ex);
    assert NewCells(ex) == Span(NewExtent(ex));
    SpanWhole(NewExtent(ex));
    if ex.start != 0 {
      TailTotal([], ex.length);
    }
  }

  lemma PunchedFacts(was: ExtentMap, m: ExtentMap, n: nat, offset: nat, len: nat)
    requires Tiles(was, n) && Carved(was, m, offset, offset + len)
    ensures Apart(m) && AllGood(m)
    ensures forall i: nat :: At(m, i) != Nowhere ==> i < n
    ensures forall i: nat :: offset <= i < offset + len ==> At(m, i) == Nowhere
  {
    hide At;
  }

  lemma OverwrittenCells(was: ExtentMap, m: ExtentMap, n: nat, offset: nat, ex: Extent)
    requires Tiles(was, n) && Carved(was, m, offset, offset + ex.length) && offset < n && ex.length > 0
    requires Added(m, m[offset := NewExtent(ex)], offset, NewExtent(ex))
    ensures var m' := m[offset := NewExtent(ex)];
            var n' := if offset + ex.length > n then offset + ex.length else n;
            Tiles(m', n') && CellsOf(m', n') == SetCells(CellsOf(was, n), offset, ex)
  {
    hide At;
    hide AllGood;
    hide Apart;
    hide CellIn;
    hide NewExtent;
    hide NewCells;
    NewCellsAre(ex);
    NewCellsReal(ex);
    var m' := m[offset := NewExtent(ex)];
    forall i: nat
      ensures At(m', i) == if offset <= i < offset + ex.length then NewCells(ex)[i - offset] else At(was, i)
    {
    }
  }

  lemma NewCellsReal(ex: Extent)
    ensures NewExtent(ex).ex == ex
    ensures forall j :: 0 <= j < ex.length ==> NewCells(ex)[j] != Nowhere
  {
  }

  // ---- the walk of Punch ----

  /** No extent from before `offset` reaches past it. */
  ghost predicate NoReach(m: ExtentMap, offset: nat) {
    forall k :: k in m && k < offset ==> k + m[k].ex.length <= offset
  }

  lemma CarvedNothing(m: ExtentMap, a: nat)
    requires Apart(m) && AllGood(m)
    ensures Carved(m, m, a, a)
  {
  }

  lemma CarvedParts(m: ExtentMap, m': ExtentMap, a: nat, b: nat, n: nat, k: nat)
    requires Carved(m, m', a, b) && Tiles(m, n) && k in m'
    ensures Apart(m') && AllGood(m') && k + m'[k].ex.length <= n
  {
    hide At;
    Below(m', n, k);
  }

  lemma CarvedTwice(m: ExtentMap, m': ExtentMap, m'': ExtentMap, a: nat, b: nat, c: nat)
    requires Carved(m, m', a, b) && Carved(m', m'', b, c) && a <= b <= c
    ensures Carved(m, m'', a, c)
  {
    hide At;
    hide Apart;
    hide AllGood;
  }

  lemma NoneReaches(m: ExtentMap, offset: nat)
    requires Apart(m) && var k := KeyBefore(m.Keys, offset); k.Some? ==> k.value + m[k.value].ex.length <= offset
    ensures NoReach(m, offset)
  {
  }

  lemma CutReaches(m: ExtentMap, m': ExtentMap, k: nat, offset: nat, e: nat)
    requires Apart(m) && k in m && KeyBefore(m.Keys, offset) == Some(k) && offset < k + m[k].ex.length
    requires Carved(m, m', offset, if e < k + m[k].ex.length then e else k + m[k].ex.length) && offset < e
    requires m'.Keys <= m.Keys + {e}
    ensures NoReach(m', offset)
    ensures var p: Option<nat> := KeyAtOrAfter(m'.Keys, offset);
            && p == KeyAtOrAfter(m'.Keys, k + 1)
            && Carved(m, m', offset, if p.Some? && p.value < e then p.value else e)
  {
    hide Carved;
    hide Good;
    CutLeavesNone(m, m', k, offset, e);
    assert forall j :: j in m' && j < offset ==> j <= k;
    var b := if e < k + m[k].ex.length then e else k + m[k].ex.length;
    assert forall j :: j in m' && j >= offset ==> j >= b;
    CarvedToNext(m, m', offset, b, e);
  }

  lemma CutLeavesNone(m: ExtentMap, m': ExtentMap, k: nat, offset: nat, e: nat)
    requires Apart(m) && k in m && KeyBefore(m.Keys, offset) == Some(k) && offset < k + m[k].ex.length
    requires Carved(m, m', offset, if e < k + m[k].ex.length then e else k + m[k].ex.length) && offset < e
    ensures NoReach(m', offset)
  {
    hide At;
    hide CellIn;
    forall j | j in m' && j < offset ensures j + m'[j].ex.length <= offset {
      assert At(m', offset) == Nowhere;
      if offset < j + m'[j].ex.length {
        NotNowhere(m', j, offset);
        assert false;
      }
    }
  }

  /** One extent further. */
  lemma Erased(was: ExtentMap, m: ExtentMap, m': ExtentMap, offset: nat, k: nat, e: nat)
    requires Apart(m) && NoReach(m, offset) && KeyAtOrAfter(m.Keys, offset) == Some(k)
    requires m' == m - {k} && k + m[k].ex.length <= e
    requires Carved(was, m, offset, k) && Carved(m, m', k, k + m[k].ex.length)
    ensures NoReach(m', offset)
    ensures var p: Option<nat> := KeyAtOrAfter(m'.Keys, offset);
            && p == KeyAtOrAfter(m.Keys, k + 1)
            && Carved(was, m', offset, if p.Some? && p.value < e then p.value else e)
  {
    hide Carved;
    CarvedTwice(was, m, m', offset, k, k + m[k].ex.length);
    EraseReaches(m, k, offset);
    CarvedToNext(was, m', offset, k + m[k].ex.length, e);
  }

  lemma EraseReaches(m: ExtentMap, k: nat, offset: nat)
    requires Apart(m) && NoReach(m, offset) && KeyAtOrAfter(m.Keys, offset) == Some(k)
    ensures NoReach(m - {k}, offset)
    ensures KeyAtOrAfter(m.Keys, k + 1) == KeyAtOrAfter((m - {k}).Keys, offset)
  {
    var a: Option<nat> := KeyAtOrAfter(m.Keys, k + 1);
    var b: Option<nat> := KeyAtOrAfter((m - {k}).Keys, offset);
    assert a.Some? ==> a.value in (m - {k}).Keys;
    assert b.Some? ==> b.value in m.Keys;
  }

  lemma NothingBetween(m: ExtentMap, offset: nat)
    requires NoReach(m, offset)
    ensures var p: Option<nat> := KeyAtOrAfter(m.Keys, offset);
            forall i: nat :: offset <= i && (p.Some? ==> i < p.value) ==> At(m, i) == Nowhere
  {
    var p: Option<nat> := KeyAtOrAfter(m.Keys, offset);
    forall i: nat | offset <= i && (p.Some? ==> i < p.value) ensures At(m, i) == Nowhere {
      NobodyHolds(m, i);
    }
  }

  /** From b to the next extent there is nothing to take out. */
  lemma CarvedToNext(m: ExtentMap, m': ExtentMap, offset: nat, b: nat, e: nat)
    requires Carved(m, m', offset, b) && NoReach(m', offset) && offset <= b <= e
    requires var p: Option<nat> := KeyAtOrAfter(m'.Keys, offset); p.Some? ==> b <= p.value
    ensures var p: Option<nat> := KeyAtOrAfter(m'.Keys, offset);
            Carved(m, m', offset, if p.Some? && p.value < e then p.value else e)
  {
    hide At;
    hide Apart;
    hide AllGood;
    hide NoReach;
    NothingBetween(m', offset);
  }
}
