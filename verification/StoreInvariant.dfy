/** What holds of the object store at every moment, and why it survives each kind of change. */
module StoreInvariant {
  import opened Extents
  import opened AllocatorSpec
  import opened PartialBlocks
  import opened InFlight
  import opened References
  import opened ObjectStore

  ghost predicate Shape(objects: set<nat>, loc: Locs, data: map<Slot, Bytes>, image: map<nat, map<nat, nat>>,
                        dirty: set<nat>) {
    && (forall t :: t in loc ==> t.oid in objects)
    && (forall t :: t in data <==> t in loc && t.Block?)
    && (forall o: nat :: o in image <==> Inode(o) in loc)
    && (forall o: nat :: o in objects ==> Inode(o) in loc || o in dirty)
    && dirty <= objects
  }

  /** Only uncommitted slots are owed or pending, and their onodes are dirty. */
  ghost predicate Marks(loc: Locs, dirty: set<nat>, uncommitted: set<Slot>, owed: set<Slot>, pending: set<Slot>) {
    && (forall t :: t in uncommitted ==> t in loc && t.Block? && t.oid in dirty)
    && owed <= uncommitted && pending <= uncommitted && owed !! pending
  }

  /** No clone shares the block of an uncommitted slot. */
  ghost predicate Private(refs: map<nat, nat>, loc: Locs, uncommitted: set<Slot>) {
    forall t :: t in uncommitted && t in loc ==> Count(refs, loc[t]) == 1
  }

  /** No uncommitted slot is on a block that a super block refers to. */
  ghost predicate Off(loc: Locs, uncommitted: set<Slot>, refs: set<nat>) {
    forall t :: t in uncommitted && t in loc ==> loc[t] !in refs
  }

  /** Nothing is in flight to a free block; and nothing of this epoch to the limbo table. */
  ghost predicate Placed(ios: Ios, space: Space, epoch: nat) {
    forall id :: id in ios ==>
      && ios[id].block !in space.free
      && (ios[id].content.Data? && ios[id].epoch == epoch ==> ios[id].block !in space.limboTab)
  }

  /** Which writes may be in flight in which phase. */
  ghost predicate Era(ios: Ios, epoch: nat, phase: Phase) {
    forall id :: id in ios ==>
      match phase
      case Starting => ios[id].content.Data? ==> ios[id].epoch + 1 == epoch
      case Flushing(_) => ios[id].content.Data? ==> ios[id].epoch == epoch || ios[id].epoch + 1 == epoch
      case _ => ios[id].content.Data? && ios[id].epoch == epoch
  }

  ghost function Wanted(t: Slot, data: map<Slot, Bytes>, image: map<nat, map<nat, nat>>): Content {
    if t.Block? then Data(if t in data then data[t] else [])
    else Image(if t.oid in image then image[t.oid] else map[])
  }

  /** Unless a slot is still to be written, its block holds its contents, or will when the writes
      in flight are done. */
  ghost predicate Coherent(disk: Disk, ios: Ios, loc: Locs, data: map<Slot, Bytes>,
                           image: map<nat, map<nat, nat>>, busy: set<Slot>) {
    forall t :: t in loc && t !in busy ==> Latest(disk, ios, loc[t]) == Wanted(t, data, image)
  }

  /** The image of a clean onode is its extent map. */
  ghost predicate Current(image: map<nat, map<nat, nat>>, loc: Locs, dirty: set<nat>) {
    forall o :: o in image && o !in dirty ==> image[o] == ExtOf(loc, o)
  }

  /** A pending partial write can still read its source block, and will get the right bytes. */
  ghost predicate PendingOk(disk: Disk, ios: Ios, pending: map<Slot, Pending>, loc: Locs,
                            data: map<Slot, Bytes>, uncommitted: set<Slot>, space: Space) {
    forall t :: t in pending ==>
      var b := pending[t].source;
      && Quiet(ios, b)
      && OnDisk(disk, b).Data?
      && t in data && data[t] == Overlay(OnDisk(disk, b).bytes, pending[t].patch)
      && b !in space.free && b !in space.limboTab
      && OnlyAt(loc, uncommitted, b, t)
  }

  ghost predicate OnlyAt(loc: Locs, uncommitted: set<Slot>, b: nat, t: Slot) {
    forall u :: u in uncommitted && u in loc && loc[u] == b ==> u == t
  }

  /** A super block and the state of the store that it stands for. */
  ghost predicate SnapshotOk(super: Super, snap: Snapshot) {
    && Partitioned(super.space) && super.space.limbo == {}
    && RefCounts(super.space.refs, snap.loc)
    && super.table == TableOf(snap.loc)
    && (forall t :: t in snap.loc ==> Inode(t.oid) in snap.loc)
    && (forall t :: t in snap.data <==> t in snap.loc && t.Block?)
  }

  /** Every block of the snapshot holds its contents, or will when the writes in flight are done. */
  ghost predicate Kept(disk: Disk, ios: Ios, snap: Snapshot) {
    forall t :: t in snap.loc ==>
      Latest(disk, ios, snap.loc[t]) ==
      if t.Block? then Data(if t in snap.data then snap.data[t] else []) else Image(ExtOf(snap.loc, t.oid))
  }

  /** Nothing is in flight to the blocks. */
  ghost predicate Spared(ios: Ios, blocks: set<nat>) {
    forall id :: id in ios ==> ios[id].block !in blocks
  }

  /** No data write of this epoch is in flight to the blocks. */
  ghost predicate SparedBy(ios: Ios, blocks: set<nat>, epoch: nat) {
    forall id :: id in ios && ios[id].content.Data? && ios[id].epoch == epoch ==> ios[id].block !in blocks
  }

  /** The super blocks alternate, and the newer one is the last one completed. */
  ghost predicate SupersOk(supers: map<nat, Super>, epoch: nat, phase: Phase) {
    && 0 in supers && 1 in supers
    && supers[0].epoch != supers[1].epoch
    && supers[Newest(supers).epoch % 2] == Newest(supers)
    && Newest(supers).epoch + (if Committing(phase) then 1 else 0) == epoch
  }

  /** An epoch has begun whose super block is not on disk yet. */
  ghost predicate Committing(phase: Phase) {
    phase.Starting? || phase.Flushing? || phase.Flushed?
  }

  /** The last completed super block: nothing it refers to is free or being written. */
  ghost predicate LastOk(last: Super, snapshots: map<nat, Snapshot>, disk: Disk, ios: Ios, space: Space,
                         loc: Locs, uncommitted: set<Slot>, phase: Phase) {
    && last.epoch in snapshots
    && SnapshotOk(last, snapshots[last.epoch])
    && Kept(disk, ios, snapshots[last.epoch])
    && Spared(ios, last.space.refs.Keys)
    && Off(loc, uncommitted, last.space.refs.Keys)
    && last.space.refs.Keys !! space.free
    && (phase.Written? ==> last.space.refs.Keys !! space.limboTab)
  }

  ghost predicate SuperInMemory(phase: Phase) {
    phase.Flushing? || phase.Flushed?
  }

  /** The super block being committed: nothing it refers to is free, and no write of the new epoch
      touches it. */
  ghost predicate NextOk(next: Super, epoch: nat, snapshots: map<nat, Snapshot>, disk: Disk, ios: Ios, space: Space,
                         loc: Locs, uncommitted: set<Slot>) {
    && next.epoch == epoch && epoch in snapshots
    && SnapshotOk(next, snapshots[epoch])
    && Kept(disk, ios, snapshots[epoch])
    && SparedBy(ios, next.space.refs.Keys, epoch)
    && Off(loc, uncommitted, next.space.refs.Keys)
    && space.free <= next.space.free
    && space.limboTab == next.space.limboTab
  }

  ghost predicate PhaseOk(s: State) {
    && ((s.phase.Idle? || s.phase.Draining? || s.phase.Starting?) ==> s.space.limboTab == {})
    && (s.phase.Starting? ==> s.pending == map[] && s.owed == {})
  }

  ghost predicate Inv(s: State) {
    && Partitioned(s.space)
    && RefCounts(s.space.refs, s.loc)
    && Shape(s.objects, s.loc, s.data, s.image, s.dirty)
    && Marks(s.loc, s.dirty, s.uncommitted, s.owed, s.pending.Keys)
    && Private(s.space.refs, s.loc, s.uncommitted)
    && Placed(s.ios, s.space, s.epoch)
    && Era(s.ios, s.epoch, s.phase)
    && Numbered(s.ios, s.nextIo)
    && Counted(s.ios, s.unflushed, s.flushing)
    && Coherent(s.disk, s.ios, s.loc, s.data, s.image, s.owed + s.pending.Keys)
    && Current(s.image, s.loc, s.dirty)
    && PendingOk(s.disk, s.ios, s.pending, s.loc, s.data, s.uncommitted, s.space)
    && SupersOk(s.supers, s.epoch, s.phase)
    && LastOk(Newest(s.supers), s.snapshots, s.disk, s.ios, s.space, s.loc, s.uncommitted, s.phase)
    && (SuperInMemory(s.phase) ==>
          NextOk(s.phase.super, s.epoch, s.snapshots, s.disk, s.ios, s.space, s.loc, s.uncommitted))
    && PhaseOk(s)
  }
}
