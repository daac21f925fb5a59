/** Where the objects keep their blocks, and the reference counts that follow from it. */
module References {
  import opened AllocatorSpec

  /** The things that occupy a disk block: block `blk` of object `oid`, or the onode of the object. */
  datatype Slot = Block(oid: nat, blk: nat) | Inode(oid: nat)

  type Locs = map<Slot, nat>

  ghost function SlotsAt(loc: Locs, b: nat): set<Slot> {
    set s | s in loc && loc[s] == b
  }

  /** The count of every block is the number of slots that are there. */
  ghost predicate RefCounts(refs: map<nat, nat>, loc: Locs) {
    Positive(refs) && forall b: nat :: Count(refs, b) == |SlotsAt(loc, b)|
  }

  lemma Referenced(refs: map<nat, nat>, loc: Locs, s: Slot)
    requires RefCounts(refs, loc) && s in loc
    ensures loc[s] in refs
  {
    assert s in SlotsAt(loc, loc[s]);
    assert Count(refs, loc[s]) == |SlotsAt(loc, loc[s])|;
  }

  lemma AddSlot(refs: map<nat, nat>, loc: Locs, s: Slot, b: nat)
    requires RefCounts(refs, loc) && s !in loc
    ensures RefCounts(Inc(refs, {b}), loc[s := b])
  {
    forall c: nat ensures Count(Inc(refs, {b}), c) == |SlotsAt(loc[s := b], c)| {
      if c == b {
        assert SlotsAt(loc[s := b], c) == SlotsAt(loc, c) + {s};
      } else {
        assert SlotsAt(loc[s := b], c) == SlotsAt(loc, c);
      }
    }
  }

  lemma DropSlot(refs: map<nat, nat>, loc: Locs, s: Slot)
    requires RefCounts(refs, loc) && s in loc
    ensures loc[s] in refs
    ensures RefCounts(Dec(refs, {loc[s]}), loc - {s})
  {
    Referenced(refs, loc, s);
    var b := loc[s];
    forall c: nat ensures Count(Dec(refs, {b}), c) == |SlotsAt(loc - {s}, c)| {
      if c == b {
        assert SlotsAt(loc, c) == SlotsAt(loc - {s}, c) + {s};
      } else {
        assert SlotsAt(loc - {s}, c) == SlotsAt(loc, c);
      }
    }
  }

  /** A block with one reference is where one slot is, and no other. */
  lemma Sole(refs: map<nat, nat>, loc: Locs, s: Slot, t: Slot)
    requires RefCounts(refs, loc) && s in loc && t in loc && loc[s] == loc[t]
    requires Count(refs, loc[s]) == 1
    ensures s == t
  {
    var at := SlotsAt(loc, loc[s]);
    assert |at| == Count(refs, loc[s]);
    if s != t {
      AtLeastTwo(at, s, t);
    }
  }

  lemma AtLeastTwo(at: set<Slot>, s: Slot, t: Slot)
    requires s in at && t in at && s != t
    ensures |at| >= 2
  {
    assert at == (at - {s} - {t}) + {s} + {t};
  }

  /** The extent map of an object: object block -> disk block. */
  ghost function ExtOf(loc: Locs, o: nat): map<nat, nat> {
    map s | s in loc && s.Block? && s.oid == o :: s.blk := loc[s]
  }

  lemma ExtSame(loc: Locs, loc': Locs, o: nat)
    requires forall i: nat :: Block(o, i) in loc <==> Block(o, i) in loc'
    requires forall i: nat :: Block(o, i) in loc ==> Block(o, i) in loc' && loc'[Block(o, i)] == loc[Block(o, i)]
    ensures ExtOf(loc, o) == ExtOf(loc', o)
  {
    forall i ensures i in ExtOf(loc, o) <==> i in ExtOf(loc', o) {
      ExtAt(loc, o, i);
      ExtAt(loc', o, i);
    }
    forall i | i in ExtOf(loc, o) ensures ExtOf(loc, o)[i] == ExtOf(loc', o)[i] {
      ExtAt(loc, o, i);
      ExtAt(loc', o, i);
    }
  }

  lemma ExtAt(loc: Locs, o: nat, i: nat)
    ensures i in ExtOf(loc, o) <==> Block(o, i) in loc
    ensures Block(o, i) in loc ==> ExtOf(loc, o)[i] == loc[Block(o, i)]
  {
    if Block(o, i) in loc {
      var s := Block(o, i);
      assert s in loc && s.Block? && s.oid == o && s.blk == i;
    }
  }
}
