/** Creating, cloning and removing objects keeps the invariant of the store. */
module StoreObjects {
  import opened Extents
  import opened AllocatorSpec
  import opened PartialBlocks
  import opened InFlight
  import opened References
  import opened ObjectStore
  import opened StoreInvariant
  import opened StoreSteps

  lemma CreateKeeps(s: State, o: nat)
    requires Inv(s) && CanCreate(s, o)
    ensures Inv(Create(s, o))
  {
    hide Private;
    hide Placed;
    hide Era;
    hide Coherent;
    hide PendingOk;
    hide SupersOk;
    hide LastOk;
    hide NextOk;
    hide PhaseOk;
    hide RefCounts;
    hide Partitioned;
    hide Counted;
    hide Numbered;
    SupersFrame(s, Create(s, o));
  }

  // ---- clone ----

  lemma CloneSpace(space: Space, loc: Locs, from: Slot, to: Slot, uncommitted: set<Slot>)
    requires Partitioned(space) && RefCounts(space.refs, loc) && from in loc && to !in loc
    requires Private(space.refs, loc, uncommitted) && to !in uncommitted
    ensures var r := Share(space, {loc[from]});
            && Partitioned(r) && RefCounts(r.refs, loc[to := loc[from]])
            && Private(r.refs, loc[to := loc[from]], uncommitted - {from})
  {
    hide RefCounts;
    hide Partitioned;
    var b := loc[from];
    Referenced(space.refs, loc, from);
    AddSlot(space.refs, loc, to, b);
    StepKeepsPartition(space, OpShare({b}));
    forall u | u in uncommitted - {from} && u in loc ensures loc[u] != b {
      if loc[u] == b {
        Sole(space.refs, loc, u, from);
        assert false;
      }
    }
  }

  lemma CloneShape(s: State, from: Slot, o: nat)
    requires CanClone(s, from, o) && from in s.data
    requires Shape(s.objects, s.loc, s.data, s.image, s.dirty)
    requires Marks(s.loc, s.dirty, s.uncommitted, s.owed, s.pending.Keys)
    ensures var r := CloneBlock(s, from, o);
            && Shape(r.objects, r.loc, r.data, r.image, r.dirty)
            && Marks(r.loc, r.dirty, r.uncommitted, r.owed, r.pending.Keys)
            && Block(o, from.blk) !in s.uncommitted
  {
    hide Quiet;
  }

  lemma CloneCoherent(s: State, from: Slot, o: nat)
    requires CanClone(s, from, o) && from in s.data
    requires Coherent(s.disk, s.ios, s.loc, s.data, s.image, s.owed + s.pending.Keys)
    ensures var r := CloneBlock(s, from, o);
            Coherent(r.disk, r.ios, r.loc, r.data, r.image, r.owed + r.pending.Keys)
  {
    hide Latest;
    hide Quiet;
  }

  lemma CloneCurrent(s: State, from: Slot, o: nat)
    requires CanClone(s, from, o) && from in s.data
    requires Current(s.image, s.loc, s.dirty)
    ensures var r := CloneBlock(s, from, o); Current(r.image, r.loc, r.dirty)
  {
    hide Quiet;
    var r := CloneBlock(s, from, o);
    forall p | p in r.image && p !in r.dirty ensures r.image[p] == ExtOf(r.loc, p) {
      ExtSame(s.loc, r.loc, p);
    }
  }

  lemma ClonePending(s: State, from: Slot, o: nat)
    requires CanClone(s, from, o) && from in s.data
    requires PendingOk(s.disk, s.ios, s.pending, s.loc, s.data, s.uncommitted, s.space)
    requires Block(o, from.blk) !in s.data && Block(o, from.blk) !in s.uncommitted
    ensures var r := CloneBlock(s, from, o);
            PendingOk(r.disk, r.ios, r.pending, r.loc, r.data, r.uncommitted, r.space)
  {
    hide Quiet;
    hide Overlay;
  }

  lemma SlotsWithData(s: State)
    requires Shape(s.objects, s.loc, s.data, s.image, s.dirty)
    ensures forall t :: t in s.data <==> t in s.loc && t.Block?
  {
  }

  lemma CloneBlockKeeps(s: State, from: Slot, o: nat)
    requires Inv(s) && CanClone(s, from, o)
    ensures from in s.data && Inv(CloneBlock(s, from, o))
  {
    hide LastOk;
    hide RefCounts;
    hide Partitioned;
    SlotsWithData(s);
    CloneShape(s, from, o);
    CloneSpace(s.space, s.loc, from, Block(o, from.blk), s.uncommitted);
    CloneCoherent(s, from, o);
    CloneCurrent(s, from, o);
    ClonePending(s, from, o);
    assert Placed(s.ios, CloneBlock(s, from, o).space, s.epoch) by { ShareSamePlaces(s, {s.loc[from]}); }
    SupersFrame(s, CloneBlock(s, from, o));
  }

  lemma ShareSamePlaces(s: State, bs: set<nat>)
    requires Placed(s.ios, s.space, s.epoch)
    ensures Placed(s.ios, Share(s.space, bs), s.epoch)
  {
  }

  // ---- remove ----

  lemma RemoveShape(s: State, o: nat)
    requires CanRemove(s, o)
    requires Shape(s.objects, s.loc, s.data, s.image, s.dirty)
    requires Marks(s.loc, s.dirty, s.uncommitted, s.owed, s.pending.Keys)
    ensures var r := Remove(s, o);
            && Shape(r.objects, r.loc, r.data, r.image, r.dirty)
            && Marks(r.loc, r.dirty, r.uncommitted, r.owed, r.pending.Keys)
            && s.uncommitted - {Inode(o)} == s.uncommitted
  {
  }

  lemma RemoveSpace(s: State, o: nat)
    requires Partitioned(s.space) && RefCounts(s.space.refs, s.loc)
    requires Private(s.space.refs, s.loc, s.uncommitted)
    requires s.uncommitted - {Inode(o)} == s.uncommitted
    ensures var r := Remove(s, o);
            && Partitioned(r.space) && RefCounts(r.space.refs, r.loc)
            && Private(r.space.refs, r.loc, r.uncommitted)
            && r.space.free == s.space.free && r.space.limboTab == s.space.limboTab
  {
    hide Partitioned;
    hide RefCounts;
    hide Private;
    if Inode(o) in s.loc {
      ReleaseSlot(s.space, s.loc, Inode(o));
      ReleasePrivate(s.space, s.loc, Inode(o), s.uncommitted);
    } else {
      assert s.loc - {Inode(o)} == s.loc;
    }
  }

  lemma RemoveContents(s: State, o: nat)
    requires Coherent(s.disk, s.ios, s.loc, s.data, s.image, s.owed + s.pending.Keys)
    requires Current(s.image, s.loc, s.dirty)
    ensures var r := Remove(s, o);
            && Coherent(r.disk, r.ios, r.loc, r.data, r.image, r.owed + r.pending.Keys)
            && Current(r.image, r.loc, r.dirty)
  {
    hide Latest;
    var r := Remove(s, o);
    assert r.loc == s.loc - {Inode(o)} && r.image == s.image - {o};
    forall p | p in r.image && p !in r.dirty ensures r.image[p] == ExtOf(r.loc, p) {
      ExtSame(s.loc, r.loc, p);
    }
  }

  lemma RemovePending(s: State, o: nat)
    requires PendingOk(s.disk, s.ios, s.pending, s.loc, s.data, s.uncommitted, s.space)
    ensures var r := Remove(s, o);
            PendingOk(r.disk, r.ios, r.pending, r.loc, r.data, r.uncommitted, r.space)
  {
    hide Quiet;
    hide Overlay;
  }

  lemma RemovePlaced(s: State, o: nat)
    requires Placed(s.ios, s.space, s.epoch)
    ensures Placed(s.ios, Remove(s, o).space, s.epoch)
  {
  }

  lemma RemoveKeeps(s: State, o: nat)
    requires Inv(s) && CanRemove(s, o)
    ensures Inv(Remove(s, o))
  {
    RemoveShape(s, o);
    RemoveSpace(s, o);
    RemoveContents(s, o);
    RemovePending(s, o);
    RemovePlaced(s, o);
    SupersFrame(s, Remove(s, o));
  }
}
