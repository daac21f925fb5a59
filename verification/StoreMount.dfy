/** After a crash, mount finds what the newest super block stands for. */
module StoreMount {
  import opened Extents
  import opened AllocatorSpec
  import opened PartialBlocks
  import opened InFlight
  import opened References
  import opened ObjectStore
  import opened StoreInvariant
  import opened StoreSteps
  import opened StoreWrites

  // ---- following the object table ----

  ghost predicate Holds(disk: Disk, snap: Snapshot) {
    forall t :: t in snap.loc ==>
      OnDisk(disk, snap.loc[t]) ==
      if t.Block? then Data(if t in snap.data then snap.data[t] else []) else Image(ExtOf(snap.loc, t.oid))
  }

  /** Nothing in flight can tear a block of the snapshot. */
  lemma SnapshotOnDisk(disk: Disk, ios: Ios, super: Super, snap: Snapshot, torn: Disk)
    requires SnapshotOk(super, snap) && Kept(disk, ios, snap) && Spared(ios, super.space.refs.Keys)
    requires forall b: nat :: Quiet(ios, b) ==> OnDisk(torn, b) == OnDisk(disk, b)
    ensures Holds(torn, snap)
  {
    forall t | t in snap.loc ensures OnDisk(torn, snap.loc[t]) == Latest(disk, ios, snap.loc[t]) {
      Referenced(super.space.refs, snap.loc, t);
      SparedQuiet(ios, super.space.refs.Keys, snap.loc[t]);
      LatestQuiet(disk, ios, snap.loc[t]);
    }
  }

  lemma SparedQuiet(ios: Ios, blocks: set<nat>, b: nat)
    requires Spared(ios, blocks) && b in blocks
    ensures Quiet(ios, b)
  {
  }

  lemma TableAt(loc: Locs, o: nat)
    ensures o in TableOf(loc) <==> Inode(o) in loc
    ensures Inode(o) in loc ==> TableOf(loc)[o] == loc[Inode(o)]
  {
    if Inode(o) in loc {
      var t := Inode(o);
      assert t in loc && t.Inode? && t.oid == o;
    }
  }

  lemma ImageOf(disk: Disk, snap: Snapshot, o: nat)
    requires Holds(disk, snap) && Inode(o) in snap.loc
    ensures o in TableOf(snap.loc) && ImageAt(disk, TableOf(snap.loc)[o]) == ExtOf(snap.loc, o)
  {
    hide ExtOf;
    TableAt(snap.loc, o);
  }

  lemma RecoveredKeys(disk: Disk, snap: Snapshot, t: Slot)
    requires Holds(disk, snap)
    requires forall u :: u in snap.loc ==> Inode(u.oid) in snap.loc
    ensures t in snap.loc <==> t in RecoveredLoc(disk, TableOf(snap.loc))
    ensures t in snap.loc ==> RecoveredLoc(disk, TableOf(snap.loc))[t] == snap.loc[t]
  {
    hide ExtOf;
    hide TableOf;
    hide Holds;
    hide ImageAt;
    TableAt(snap.loc, t.oid);
    if Inode(t.oid) in snap.loc {
      ImageOf(disk, snap, t.oid);
      if t.Block? {
        ExtAt(snap.loc, t.oid, t.blk);
      }
    }
  }

  lemma RecoversLoc(disk: Disk, snap: Snapshot)
    requires Holds(disk, snap)
    requires forall u :: u in snap.loc ==> Inode(u.oid) in snap.loc
    ensures RecoveredLoc(disk, TableOf(snap.loc)) == snap.loc
  {
    hide Holds;
    hide TableOf;
    hide RecoveredLoc;
    var r := RecoveredLoc(disk, TableOf(snap.loc));
    forall t ensures t in snap.loc <==> t in r
             ensures t in snap.loc ==> r[t] == snap.loc[t]
    {
      RecoveredKeys(disk, snap, t);
    }
    assert r.Keys == snap.loc.Keys;
  }

  lemma RecoversData(disk: Disk, snap: Snapshot)
    requires Holds(disk, snap)
    requires forall t :: t in snap.data <==> t in snap.loc && t.Block?
    ensures RecoveredData(disk, snap.loc) == snap.data
  {
    hide ExtOf;
  }

  /** Mount finds the snapshot of the newest super block, whatever the crash did to the blocks
      that were being written. */
  lemma MountFinds(s: State, disk: Disk)
    requires Inv(s) && Torn(s, disk)
    ensures CanMount(s) && Newest(s.supers).epoch in s.snapshots
    ensures var snap := s.snapshots[Newest(s.supers).epoch];
            && SnapshotOk(Newest(s.supers), snap) && Holds(disk, snap)
            && RecoveredLoc(disk, Newest(s.supers).table) == snap.loc
            && RecoveredData(disk, snap.loc) == snap.data
  {
    var super := Newest(s.supers);
    var snap := s.snapshots[super.epoch];
    SnapshotOnDisk(s.disk, s.ios, super, snap, disk);
    RecoversLoc(disk, snap);
    RecoversData(disk, snap);
  }

  // ---- the invariant of the store that is mounted ----

  lemma MountedShape(snap: Snapshot, objects: set<nat>, image: map<nat, map<nat, nat>>)
    requires forall t :: t in snap.loc ==> Inode(t.oid) in snap.loc
    requires forall t :: t in snap.data <==> t in snap.loc && t.Block?
    requires objects == TableOf(snap.loc).Keys
    requires image == map o | o in TableOf(snap.loc) :: ExtOf(snap.loc, o)
    ensures Shape(objects, snap.loc, snap.data, image, {})
    ensures Current(image, snap.loc, {})
  {
    hide TableOf;
    hide ExtOf;
    forall o: nat ensures o in TableOf(snap.loc) <==> Inode(o) in snap.loc {
      TableAt(snap.loc, o);
    }
  }

  lemma MountedContents(disk: Disk, snap: Snapshot, image: map<nat, map<nat, nat>>)
    requires Holds(disk, snap)
    requires forall t :: t in snap.loc ==> Inode(t.oid) in snap.loc
    requires image == map o | o in TableOf(snap.loc) :: ExtOf(snap.loc, o)
    ensures Coherent(disk, map[], snap.loc, snap.data, image, {})
    ensures Kept(disk, map[], snap)
  {
    hide TableOf;
    hide ExtOf;
    hide Latest;
    forall t | t in snap.loc ensures Latest(disk, map[], snap.loc[t]) == OnDisk(disk, snap.loc[t]) {
      LatestQuiet(disk, map[], snap.loc[t]);
    }
    forall t | t in snap.loc ensures t.oid in image && image[t.oid] == ExtOf(snap.loc, t.oid) {
      TableAt(snap.loc, t.oid);
    }
  }

  lemma NothingCounted()
    ensures Counted(map[], map[], 0)
  {
    assert forall e: nat :: DataOf(map[], e) == {};
    assert ImagesOf(map[]) == {};
  }

  lemma MountedLast(super: Super, snapshots: map<nat, Snapshot>, disk: Disk, loc: Locs)
    requires super.epoch in snapshots && SnapshotOk(super, snapshots[super.epoch])
    requires Kept(disk, map[], snapshots[super.epoch])
    ensures Partitioned(ReleaseLimbo(super.space))
    ensures LastOk(super, snapshots, disk, map[], ReleaseLimbo(super.space), loc, {}, Idle)
  {
    hide Kept;
    hide RefCounts;
    hide TableOf;
    StepKeepsPartition(super.space, OpReleaseLimbo);
  }

  lemma NothingInFlight(space: Space, epoch: nat, loc: Locs, refs: map<nat, nat>)
    ensures Placed(map[], space, epoch) && Era(map[], epoch, Idle) && Numbered(map[], 0)
    ensures Marks(loc, {}, {}, {}, {}) && Private(refs, loc, {})
  {
  }

  lemma MountKeeps(s: State, disk: Disk)
    requires Inv(s) && Torn(s, disk)
    ensures CanMount(s) && Inv(Mount(s, disk))
  {
    hide TableOf;
    hide RecoveredLoc;
    MountFinds(s, disk);
    var super := Newest(s.supers);
    var snap := s.snapshots[super.epoch];
    var r := Mount(s, disk);
    SnapshotFacts(super, snap);
    MountedShape(snap, r.objects, r.image);
    MountedContents(disk, snap, r.image);
    NothingCounted();
    MountedLast(super, s.snapshots, disk, snap.loc);
    NothingInFlight(r.space, r.epoch, r.loc, r.space.refs);
    assert r.owed + r.pending.Keys == {};
    NonePending(r);
  }

  lemma SnapshotFacts(super: Super, snap: Snapshot)
    requires SnapshotOk(super, snap)
    ensures RefCounts(ReleaseLimbo(super.space).refs, snap.loc) && ReleaseLimbo(super.space).limboTab == {}
    ensures super.table == TableOf(snap.loc)
    ensures forall t :: t in snap.loc ==> Inode(t.oid) in snap.loc
    ensures forall t :: t in snap.data <==> t in snap.loc && t.Block?
  {
  }
}
