/** Each step of the object store keeps the invariant. */
module StoreSteps {
  import opened Extents
  import opened AllocatorSpec
  import opened PartialBlocks
  import opened InFlight
  import opened References
  import opened ObjectStore
  import opened StoreInvariant

  // ---- giving up the block of a slot ----

  lemma ReleaseSlot(space: Space, loc: Locs, t: Slot)
    requires Partitioned(space) && RefCounts(space.refs, loc) && t in loc
    ensures var r := Release(space, {loc[t]});
            && Partitioned(r) && RefCounts(r.refs, loc - {t})
            && r.free == space.free && r.limboTab == space.limboTab
  {
    hide RefCounts;
    hide Partitioned;
    DropSlot(space.refs, loc, t);
    StepKeepsPartition(space, OpRelease({loc[t]}));
  }

  lemma ReleasePrivate(space: Space, loc: Locs, t: Slot, uncommitted: set<Slot>)
    requires RefCounts(space.refs, loc) && t in loc
    requires Private(space.refs, loc, uncommitted)
    ensures Private(Release(space, {loc[t]}).refs, loc - {t}, uncommitted - {t})
  {
    hide RefCounts;
    var r := Release(space, {loc[t]});
    forall u | u in uncommitted - {t} && u in loc - {t} ensures Count(r.refs, loc[u]) == 1 {
      if loc[u] == loc[t] {
        Sole(space.refs, loc, u, t);
        assert false;
      }
    }
  }

  lemma UnmapShape(s: State, t: Slot)
    requires t in s.loc && t.Block?
    requires Shape(s.objects, s.loc, s.data, s.image, s.dirty)
    requires Marks(s.loc, s.dirty, s.uncommitted, s.owed, s.pending.Keys)
    ensures var r := Unmap(s, t);
            && Shape(r.objects, r.loc, r.data, r.image, r.dirty)
            && Marks(r.loc, r.dirty, r.uncommitted, r.owed, r.pending.Keys)
  {
  }

  lemma UnmapPlaces(s: State, t: Slot)
    requires t in s.loc && t.Block?
    requires Placed(s.ios, s.space, s.epoch)
    ensures Placed(s.ios, Unmap(s, t).space, s.epoch)
  {
  }

  lemma UnmapCoherent(s: State, t: Slot)
    requires t in s.loc && t.Block?
    requires Coherent(s.disk, s.ios, s.loc, s.data, s.image, s.owed + s.pending.Keys)
    ensures var r := Unmap(s, t);
            Coherent(r.disk, r.ios, r.loc, r.data, r.image, r.owed + r.pending.Keys)
  {
    hide Latest;
  }

  lemma UnmapCurrent(s: State, t: Slot)
    requires t in s.loc && t.Block?
    requires Current(s.image, s.loc, s.dirty)
    ensures var r := Unmap(s, t); Current(r.image, r.loc, r.dirty)
  {
    var r := Unmap(s, t);
    forall o | o in r.image && o !in r.dirty ensures r.image[o] == ExtOf(r.loc, o) {
      ExtSame(s.loc, r.loc, o);
    }
  }

  lemma UnmapPending(s: State, t: Slot)
    requires t in s.loc && t.Block?
    requires PendingOk(s.disk, s.ios, s.pending, s.loc, s.data, s.uncommitted, s.space)
    ensures var r := Unmap(s, t);
            PendingOk(r.disk, r.ios, r.pending, r.loc, r.data, r.uncommitted, r.space)
  {
    hide Quiet;
    hide Overlay;
  }

  // ---- the super blocks, when nothing is written ----

  /** Uncommitted slots are where they were, or on blocks that were free. */
  ghost predicate Moved(loc: Locs, uncommitted: set<Slot>, loc': Locs, uncommitted': set<Slot>, free: set<nat>) {
    forall t :: t in uncommitted' && t in loc' ==>
      (t in uncommitted && t in loc && loc[t] == loc'[t]) || loc'[t] in free
  }

  lemma LastFrame(last: Super, snapshots: map<nat, Snapshot>, disk: Disk, ios: Ios, space: Space, loc: Locs,
                  uncommitted: set<Slot>, phase: Phase, space': Space, loc': Locs, uncommitted': set<Slot>)
    requires LastOk(last, snapshots, disk, ios, space, loc, uncommitted, phase)
    requires Moved(loc, uncommitted, loc', uncommitted', space.free)
    requires space'.free <= space.free && space'.limboTab == space.limboTab
    ensures LastOk(last, snapshots, disk, ios, space', loc', uncommitted', phase)
  {
    hide Kept;
    hide SnapshotOk;
    hide Spared;
  }

  lemma NextFrame(next: Super, epoch: nat, snapshots: map<nat, Snapshot>, disk: Disk, ios: Ios, space: Space, loc: Locs,
                  uncommitted: set<Slot>, space': Space, loc': Locs, uncommitted': set<Slot>)
    requires NextOk(next, epoch, snapshots, disk, ios, space, loc, uncommitted)
    requires Moved(loc, uncommitted, loc', uncommitted', space.free)
    requires space'.free <= space.free && space'.limboTab == space.limboTab
    ensures NextOk(next, epoch, snapshots, disk, ios, space', loc', uncommitted')
  {
    hide Kept;
    hide RefCounts;
    hide SparedBy;
  }

  lemma SupersFrame(s: State, r: State)
    requires Inv(s)
    requires r.supers == s.supers && r.snapshots == s.snapshots && r.disk == s.disk && r.ios == s.ios
    requires r.phase == s.phase && r.epoch == s.epoch
    requires Moved(s.loc, s.uncommitted, r.loc, r.uncommitted, s.space.free)
    requires r.space.free <= s.space.free && r.space.limboTab == s.space.limboTab
    requires r.phase.Starting? ==> r.pending == map[] && r.owed == {}
    ensures SupersOk(r.supers, r.epoch, r.phase)
    ensures LastOk(Newest(r.supers), r.snapshots, r.disk, r.ios, r.space, r.loc, r.uncommitted, r.phase)
    ensures SuperInMemory(r.phase) ==>
              NextOk(r.phase.super, r.epoch, r.snapshots, r.disk, r.ios, r.space, r.loc, r.uncommitted)
    ensures PhaseOk(r)
  {
    LastFrame(Newest(s.supers), s.snapshots, s.disk, s.ios, s.space, s.loc, s.uncommitted, s.phase,
              r.space, r.loc, r.uncommitted);
    if SuperInMemory(s.phase) {
      NextFrame(s.phase.super, s.epoch, s.snapshots, s.disk, s.ios, s.space, s.loc, s.uncommitted,
                r.space, r.loc, r.uncommitted);
    }
  }

  lemma UnmapKeeps(s: State, t: Slot)
    requires Inv(s) && CanUnmap(s, t)
    ensures Inv(Unmap(s, t))
  {
    ReleaseSlot(s.space, s.loc, t);
    ReleasePrivate(s.space, s.loc, t, s.uncommitted);
    UnmapShape(s, t);
    UnmapPlaces(s, t);
    UnmapCoherent(s, t);
    UnmapCurrent(s, t);
    UnmapPending(s, t);
    SupersFrame(s, Unmap(s, t));
  }

  // ---- taking a block for a slot ----

  lemma AllocateSlot(space: Space, loc: Locs, t: Slot, b: nat, uncommitted: set<Slot>)
    requires Partitioned(space) && RefCounts(space.refs, loc) && t !in loc && b in space.free
    requires Private(space.refs, loc, uncommitted)
    ensures var r := Allocate(space, {b});
            && Partitioned(r) && RefCounts(r.refs, loc[t := b])
            && Private(r.refs, loc[t := b], uncommitted + {t})
  {
    AddSlot(space.refs, loc, t, b);
    forall u | u in loc ensures loc[u] != b {
      Referenced(space.refs, loc, u);
    }
    hide RefCounts;
    StepKeepsPartition(space, OpAllocate({b}));
  }

  lemma PlaceShape(s: State, t: Slot, b: nat, bytes: Bytes)
    requires t !in s.loc && t.Block? && t.oid in s.objects
    requires Shape(s.objects, s.loc, s.data, s.image, s.dirty)
    ensures var r := Place(s, t, b, bytes); Shape(r.objects, r.loc, r.data, r.image, r.dirty)
    ensures t !in s.data
  {
  }

  lemma PlaceMarks(s: State, t: Slot, b: nat, bytes: Bytes)
    requires t !in s.loc && t.Block?
    requires Marks(s.loc, s.dirty, s.uncommitted, s.owed, s.pending.Keys)
    ensures var r := Place(s, t, b, bytes);
            Marks(r.loc, r.dirty, r.uncommitted, r.owed, r.pending.Keys)
    ensures t !in s.pending
  {
  }

  lemma PlacePlaced(s: State, t: Slot, b: nat, bytes: Bytes)
    requires Placed(s.ios, s.space, s.epoch)
    ensures var r := Place(s, t, b, bytes); Placed(r.ios, r.space, r.epoch)
  {
  }

  lemma PlaceCoherent(s: State, t: Slot, b: nat, bytes: Bytes)
    requires t !in s.loc && t.Block?
    requires Coherent(s.disk, s.ios, s.loc, s.data, s.image, s.owed + s.pending.Keys)
    ensures var r := Place(s, t, b, bytes);
            Coherent(r.disk, r.ios, r.loc, r.data, r.image, r.owed + r.pending.Keys)
  {
    hide Latest;
  }

  lemma PlaceCurrent(s: State, t: Slot, b: nat, bytes: Bytes)
    requires t !in s.loc && t.Block?
    requires Current(s.image, s.loc, s.dirty)
    ensures var r := Place(s, t, b, bytes); Current(r.image, r.loc, r.dirty)
  {
    var r := Place(s, t, b, bytes);
    forall o | o in r.image && o !in r.dirty ensures r.image[o] == ExtOf(r.loc, o) {
      ExtSame(s.loc, r.loc, o);
    }
  }

  lemma PlacePending(s: State, t: Slot, b: nat, bytes: Bytes)
    requires t !in s.loc && b in s.space.free && t !in s.pending
    requires PendingOk(s.disk, s.ios, s.pending, s.loc, s.data, s.uncommitted, s.space)
    ensures var r := Place(s, t, b, bytes);
            PendingOk(r.disk, r.ios, r.pending, r.loc, r.data, r.uncommitted, r.space)
  {
    hide Quiet;
    hide Overlay;
  }

  lemma PlaceKeeps(s: State, t: Slot, b: nat, bytes: Bytes)
    requires Inv(s) && CanPlace(s, t, b)
    ensures Inv(Place(s, t, b, bytes))
  {
    hide Shape;
    hide Marks;
    hide Private;
    hide Placed;
    hide Era;
    hide Coherent;
    hide Current;
    hide PendingOk;
    hide SupersOk;
    hide LastOk;
    hide NextOk;
    hide PhaseOk;
    hide RefCounts;
    hide Partitioned;
    hide Counted;
    hide Numbered;
    AllocateSlot(s.space, s.loc, t, b, s.uncommitted);
    PlaceShape(s, t, b, bytes);
    PlaceMarks(s, t, b, bytes);
    PlacePlaced(s, t, b, bytes);
    PlaceCoherent(s, t, b, bytes);
    PlaceCurrent(s, t, b, bytes);
    PlacePending(s, t, b, bytes);
    SupersFrame(s, Place(s, t, b, bytes));
  }

  lemma RelocateKeeps(s: State, t: Slot, b: nat, bytes: Bytes)
    requires Inv(s) && CanRelocate(s, t, b)
    ensures Inv(Relocate(s, t, b, bytes))
  {
    hide Inv;
    UnmapKeeps(s, t);
    PlaceKeeps(Unmap(s, t), t, b, bytes);
  }

  // ---- changing contents only ----

  lemma RewriteKeeps(s: State, t: Slot, bytes: Bytes)
    requires Inv(s) && CanRewrite(s, t)
    ensures Inv(Rewrite(s, t, bytes))
  {
    var r := Rewrite(s, t, bytes);
    RewriteParts(s, t, bytes);
    RewritePending(s, t, bytes);
    SupersFrame(s, r);
  }

  lemma RewriteParts(s: State, t: Slot, bytes: Bytes)
    requires Shape(s.objects, s.loc, s.data, s.image, s.dirty)
    requires Marks(s.loc, s.dirty, s.uncommitted, s.owed, s.pending.Keys)
    requires Coherent(s.disk, s.ios, s.loc, s.data, s.image, s.owed + s.pending.Keys)
    requires t in s.uncommitted
    ensures var r := Rewrite(s, t, bytes);
            && Shape(r.objects, r.loc, r.data, r.image, r.dirty)
            && Marks(r.loc, r.dirty, r.uncommitted, r.owed, r.pending.Keys)
            && Coherent(r.disk, r.ios, r.loc, r.data, r.image, r.owed + r.pending.Keys)
  {
    hide Latest;
  }

  lemma RewritePending(s: State, t: Slot, bytes: Bytes)
    requires PendingOk(s.disk, s.ios, s.pending, s.loc, s.data, s.uncommitted, s.space)
    ensures var r := Rewrite(s, t, bytes);
            PendingOk(r.disk, r.ios, r.pending, r.loc, r.data, r.uncommitted, r.space)
  {
    hide Quiet;
    hide Overlay;
    hide OnlyAt;
  }
}
