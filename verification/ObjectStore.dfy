/** The object store as steps taken under `ebofs_lock` (src/ebofs/Ebofs.cc): object operations,
    the completion of queued writes, the commit thread, and a crash followed by a mount.

    A step works on one block: an operation on a range of blocks is a run of such steps. The
    blocks that an operation has changed but not queued yet are `owed`; the commit thread cannot
    start an epoch while any are, because the operation holds the lock until it has queued them. */
module ObjectStore {
  import opened Extents
  import opened AllocatorSpec
  import opened PartialBlocks
  import opened InFlight
  import opened References

  type Bytes = seq<Byte>

  /** A super block: its epoch, the object table (object -> onode block), and the tables of the
      allocator. */
  datatype Super = Super(epoch: nat, table: map<nat, nat>, space: Space)

  /** Where the commit thread is. `Draining`: waiting for partial writes. `Starting`: writing the
      onodes under the lock. `Flushing`: waiting for the writes of the old epoch. `Flushed`: about
      to write the super block. `Written`: about to release the limbo table. */
  datatype Phase =
    | Idle
    | Draining
    | Starting
    | Flushing(super: Super)
    | Flushed(super: Super)
    | Written

  /** A partial write waits for block `source` to be read, and then lays `patch` over it. */
  datatype Pending = Pending(source: nat, patch: Patch)

  /** What the store held, and where, when a super block was prepared. It is not part of the
      program: it only says what recovery should bring back. */
  datatype Snapshot = Snapshot(loc: Locs, data: map<Slot, Bytes>)

  datatype State = State(
    objects: set<nat>,             // object_tab
    loc: Locs,                     // extent maps and onode locations
    data: map<Slot, Bytes>,        // the contents a reader sees
    image: map<nat, map<nat, nat>>, // the extent map last written out for each object
    uncommitted: set<Slot>,        // placed since the last commit began
    dirty: set<nat>,               // dirty_onodes
    owed: set<Slot>,               // changed, not queued for writing yet
    pending: map<Slot, Pending>,   // partial buffer heads
    space: Space,                  // the allocator
    epoch: nat,                    // super_epoch
    phase: Phase,
    ios: Ios, nextIo: nat,         // writes in flight
    unflushed: map<nat, nat>,      // data writes in flight, by epoch
    flushing: nat,                 // inodes_flushing
    disk: Disk,
    supers: map<nat, Super>,       // the two super blocks
    snapshots: map<nat, Snapshot>  // what each epoch's super block stands for
  )

  // ---- object operations ----

  ghost predicate LockFree(s: State) {
    !s.phase.Starting?
  }

  /** new_onode */
  ghost predicate CanCreate(s: State, o: nat) {
    LockFree(s) && o !in s.objects
  }
  ghost function Create(s: State, o: nat): State {
    s.(objects := s.objects + {o}, dirty := s.dirty + {o})
  }

  /** Gives the block of a slot back to the allocator: truncation, zeroing, or the first half of
      writing the slot somewhere else. */
  ghost predicate CanUnmap(s: State, t: Slot) {
    LockFree(s) && t.Block? && t in s.loc
  }
  ghost function Unmap(s: State, t: Slot): State
    requires t in s.loc
  {
    s.(loc := s.loc - {t}, data := s.data - {t}, uncommitted := s.uncommitted - {t},
       dirty := s.dirty + {t.oid}, owed := s.owed - {t}, pending := s.pending - {t},
       space := Release(s.space, {s.loc[t]}))
  }

  /** alloc_write for a slot that has no block: allocate one, map it, and remember that the
      onode changed and that the block holds nothing committed. */
  ghost predicate CanPlace(s: State, t: Slot, b: nat) {
    LockFree(s) && t.Block? && t.oid in s.objects && t !in s.loc && b in s.space.free
  }
  ghost function Place(s: State, t: Slot, b: nat, bytes: Bytes): State {
    s.(loc := s.loc[t := b], data := s.data[t := bytes], uncommitted := s.uncommitted + {t},
       dirty := s.dirty + {t.oid}, owed := s.owed + {t}, space := Allocate(s.space, {b}))
  }

  /** Overwriting a block: a slot that may hold committed data moves to another block. (With
      `ebofs_realloc` an uncommitted one may move as well.) */
  ghost predicate CanRelocate(s: State, t: Slot, b: nat) {
    CanUnmap(s, t) && CanPlace(Unmap(s, t), t, b)
  }
  ghost function Relocate(s: State, t: Slot, b: nat, bytes: Bytes): State
    requires t in s.loc
  {
    Place(Unmap(s, t), t, b, bytes)
  }

  /** Overwriting in place is for uncommitted slots only. */
  ghost predicate CanRewrite(s: State, t: Slot) {
    LockFree(s) && t in s.uncommitted
  }
  ghost function Rewrite(s: State, t: Slot, bytes: Bytes): State {
    s.(data := s.data[t := bytes], owed := s.owed + {t}, pending := s.pending - {t})
  }

  /** A partial write to a block that is not in memory: no write to it is in flight, and it must
      be read before the patch can be applied. Not while the commit thread drains. */
  ghost predicate CanStartPartial(s: State, t: Slot) {
    LockFree(s) && !s.phase.Draining? && t.Block? && t in s.loc && t !in s.owed && t !in s.pending
    && Quiet(s.ios, s.loc[t])
  }
  ghost predicate CanStartPartialInPlace(s: State, t: Slot) {
    CanStartPartial(s, t) && t in s.uncommitted
  }
  ghost function StartPartialInPlace(s: State, t: Slot, patch: Patch): State
    requires t in s.loc && t in s.data
  {
    s.(data := s.data[t := Overlay(s.data[t], patch)], pending := s.pending[t := Pending(s.loc[t], patch)])
  }
  ghost predicate CanStartPartialMoved(s: State, t: Slot, b: nat) {
    CanStartPartial(s, t) && CanRelocate(s, t, b)
  }
  ghost function StartPartialMoved(s: State, t: Slot, b: nat, patch: Patch): State
    requires t in s.loc && t in s.data
  {
    var r := Relocate(s, t, b, Overlay(s.data[t], patch));
    r.(owed := r.owed - {t}, pending := r.pending[t := Pending(s.loc[t], patch)])
  }

  ghost predicate CanAddPartial(s: State, t: Slot) {
    LockFree(s) && t in s.pending
  }
  ghost function AddPartial(s: State, t: Slot, patch: Patch): State
    requires t in s.pending && t in s.data
  {
    s.(data := s.data[t := Overlay(s.data[t], patch)],
       pending := s.pending[t := Pending(s.pending[t].source, s.pending[t].patch + patch)])
  }

  ghost function BytesAt(disk: Disk, b: nat): Bytes {
    if OnDisk(disk, b).Data? then OnDisk(disk, b).bytes else []
  }

  /** rx_finish on a partial buffer head: lay the patch over the block that was read. */
  ghost predicate CanFinishPartial(s: State, t: Slot) {
    LockFree(s) && t in s.pending
  }
  ghost function FinishPartial(s: State, t: Slot): State
    requires t in s.pending
  {
    s.(data := s.data[t := Overlay(BytesAt(s.disk, s.pending[t].source), s.pending[t].patch)],
       owed := s.owed + {t}, pending := s.pending - {t})
  }

  /** `_clone`, one block: the clone refers to the block too, and neither may write to it in place. */
  ghost predicate CanClone(s: State, from: Slot, o: nat) {
    && LockFree(s) && from.Block? && from in s.loc && o in s.objects && Block(o, from.blk) !in s.loc
    && from !in s.owed && from !in s.pending && Quiet(s.ios, s.loc[from])
  }
  ghost function CloneBlock(s: State, from: Slot, o: nat): State
    requires from.Block? && from in s.loc && from in s.data
  {
    var to := Block(o, from.blk);
    s.(loc := s.loc[to := s.loc[from]], data := s.data[to := s.data[from]],
       uncommitted := s.uncommitted - {from}, dirty := s.dirty + {o},
       space := Share(s.space, {s.loc[from]}))
  }

  /** remove_onode, once the data blocks are gone. */
  ghost predicate CanRemove(s: State, o: nat) {
    LockFree(s) && o in s.objects && forall t :: t in s.loc && t.Block? ==> t.oid != o
  }
  ghost function Remove(s: State, o: nat): State {
    var t := Inode(o);
    s.(objects := s.objects - {o}, dirty := s.dirty - {o}, image := s.image - {o},
       loc := s.loc - {t},
       space := if t in s.loc then Release(s.space, {s.loc[t]}) else s.space)
  }

  // ---- writes ----

  ghost function Submit(s: State, io: Io): State {
    s.(ios := s.ios[s.nextIo := io], nextIo := s.nextIo + 1,
       unflushed := if io.content.Data? then Bumped(s.unflushed, io.epoch) else s.unflushed,
       flushing := if io.content.Image? then s.flushing + 1 else s.flushing)
  }

  /** bh_write: queue a changed block. */
  ghost predicate CanWrite(s: State, t: Slot) {
    LockFree(s) && t in s.owed
  }
  ghost function Write(s: State, t: Slot): State
    requires t in s.loc && t in s.data
  {
    Submit(s.(owed := s.owed - {t}), Io(s.loc[t], Data(s.data[t]), s.epoch))
  }

  /** bh_cancel_write: take back a write of this epoch that the device has not started. */
  ghost predicate CanCancel(s: State, t: Slot, id: nat) {
    LockFree(s) && t in s.uncommitted && t in s.loc && t !in s.pending
    && LastFor(s.ios, id, s.loc[t]) && s.ios[id].epoch == s.epoch && s.ios[id].content.Data?
  }
  ghost function Cancel(s: State, t: Slot, id: nat): State
    requires id in s.ios
  {
    s.(ios := s.ios - {id}, owed := s.owed + {t}, unflushed := Dropped1(s.unflushed, s.ios[id].epoch))
  }

  /** The device finishes a write: of the writes to one block, always the oldest. */
  ghost predicate CanComplete(s: State, id: nat) {
    id in s.ios && FirstFor(s.ios, id, s.ios[id].block)
  }
  ghost function Complete(s: State, id: nat): State
    requires id in s.ios
  {
    var io := s.ios[id];
    s.(ios := s.ios - {id}, disk := s.disk[io.block := io.content],
       unflushed := if io.content.Data? then Dropped1(s.unflushed, io.epoch) else s.unflushed,
       flushing := if io.content.Image? && s.flushing > 0 then s.flushing - 1 else s.flushing)
  }

  // ---- the commit thread ----

  ghost predicate CanDrain(s: State) {
    s.phase.Idle?
  }
  ghost function Drain(s: State): State {
    s.(phase := Draining)
  }

  /** waitfor_partials is over: a new epoch begins. */
  ghost predicate CanStart(s: State) {
    s.phase.Draining? && s.pending == map[] && s.owed == {}
  }
  ghost function Start(s: State): State {
    s.(phase := Starting, epoch := s.epoch + 1)
  }

  /** write_onode: move the onode to a new block and queue its image. */
  ghost predicate CanFlushOnode(s: State, o: nat, b: nat) {
    && s.phase.Starting? && o in s.dirty
    && b in s.space.free
  }
  ghost function FlushOnode(s: State, o: nat, b: nat): State {
    var t := Inode(o);
    var released := if t in s.loc then Release(s.space, {s.loc[t]}) else s.space;
    var ext := ExtOf(s.loc, o);
    var moved := s.(loc := s.loc[t := b], image := s.image[o := ext], dirty := s.dirty - {o},
                    uncommitted := (set u | u in s.uncommitted && u.oid != o),
                    space := Allocate(released, {b}));
    Submit(moved, Io(b, Image(ext), s.epoch))
  }

  ghost function TableOf(loc: Locs): map<nat, nat> {
    map t | t in loc && t.Inode? :: t.oid := loc[t]
  }

  /** commit_limbo and prepare_super. */
  ghost predicate CanPrepare(s: State) {
    s.phase.Starting? && s.dirty == {}
  }
  ghost function Prepare(s: State): State {
    var space := CommitLimbo(s.space);
    s.(space := space, phase := Flushing(Super(s.epoch, TableOf(s.loc), space)),
       snapshots := s.snapshots[s.epoch := Snapshot(s.loc, s.data)])
  }

  /** commit_bc_wait and commit_inodes_wait. */
  ghost predicate CanFinishFlush(s: State) {
    s.phase.Flushing? && s.epoch > 0 && Unflushed(s.unflushed, s.epoch - 1) == 0 && s.flushing == 0
  }
  ghost function FinishFlush(s: State): State
    requires s.phase.Flushing?
  {
    s.(phase := Flushed(s.phase.super))
  }

  /** write_super: the super blocks take turns. */
  ghost predicate CanWriteSuper(s: State) {
    s.phase.Flushed?
  }
  ghost function WriteSuper(s: State): State
    requires s.phase.Flushed?
  {
    s.(phase := Written, supers := s.supers[s.epoch % 2 := s.phase.super])
  }

  /** release_limbo. */
  ghost predicate CanFinishCommit(s: State) {
    s.phase.Written?
  }
  ghost function FinishCommit(s: State): State {
    s.(phase := Idle, space := ReleaseLimbo(s.space))
  }

  // ---- crash and mount ----

  /** A disk after a crash: a block to which a write was in flight may hold anything. */
  ghost predicate Torn(s: State, disk: Disk) {
    forall b: nat :: Quiet(s.ios, b) ==> OnDisk(disk, b) == OnDisk(s.disk, b)
  }

  /** mount picks the super block with the larger epoch. */
  ghost function Newest(supers: map<nat, Super>): Super
    requires 0 in supers && 1 in supers
  {
    if supers[0].epoch > supers[1].epoch then supers[0] else supers[1]
  }

  ghost function ImageAt(disk: Disk, b: nat): map<nat, nat> {
    if OnDisk(disk, b).Image? then OnDisk(disk, b).ext else map[]
  }

  /** What mount finds by following the object table of a super block. */
  ghost function RecoveredLoc(disk: Disk, table: map<nat, nat>): Locs {
    (map o | o in table :: Inode(o) := table[o]) +
    (map t | t in RecoveredBlocks(disk, table) :: ImageAt(disk, table[t.oid])[t.blk])
  }

  ghost function RecoveredBlocks(disk: Disk, table: map<nat, nat>): (r: set<Slot>)
    ensures forall t :: t in r <==> t.Block? && t.oid in table && t.blk in ImageAt(disk, table[t.oid])
  {
    set o, i | o in table && i in ImageAt(disk, table[o]) :: Block(o, i)
  }

  ghost function RecoveredData(disk: Disk, loc: Locs): map<Slot, Bytes> {
    map t | t in loc && t.Block? :: BytesAt(disk, loc[t])
  }

  ghost predicate CanMount(s: State) {
    0 in s.supers && 1 in s.supers
  }
  ghost function Mount(s: State, disk: Disk): State
    requires 0 in s.supers && 1 in s.supers
  {
    var super := Newest(s.supers);
    var loc := RecoveredLoc(disk, super.table);
    State(super.table.Keys, loc, RecoveredData(disk, loc),
          map o | o in super.table :: ExtOf(loc, o),
          {}, {}, {}, map[],
          ReleaseLimbo(super.space), super.epoch, Idle,
          map[], 0, map[], 0,
          disk, s.supers, s.snapshots)
  }
}
