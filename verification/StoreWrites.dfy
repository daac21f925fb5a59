/** Queueing, cancelling and completing writes keeps the invariant of the store. */
module StoreWrites {
  import opened Extents
  import opened AllocatorSpec
  import opened PartialBlocks
  import opened InFlight
  import opened References
  import opened ObjectStore
  import opened StoreInvariant
  import opened StoreSteps

  // ---- the super blocks, when writes are queued or done ----

  /** The blocks hold, or will hold, what they did before. */
  ghost predicate SameOn(blocks: set<nat>, disk: Disk, ios: Ios, disk': Disk, ios': Ios) {
    forall b :: b in blocks ==> Latest(disk', ios', b) == Latest(disk, ios, b)
  }

  lemma KeptSame(super: Super, snap: Snapshot, disk: Disk, ios: Ios, disk': Disk, ios': Ios)
    requires SnapshotOk(super, snap) && Kept(disk, ios, snap)
    requires SameOn(super.space.refs.Keys, disk, ios, disk', ios')
    ensures Kept(disk', ios', snap)
  {
    hide Latest;
    hide RefCounts;
    hide Partitioned;
    forall t | t in snap.loc ensures Latest(disk', ios', snap.loc[t]) == Latest(disk, ios, snap.loc[t]) {
      Referenced(super.space.refs, snap.loc, t);
    }
  }

  lemma LastWrites(last: Super, snapshots: map<nat, Snapshot>, disk: Disk, ios: Ios, space: Space, loc: Locs,
                   uncommitted: set<Slot>, phase: Phase, disk': Disk, ios': Ios)
    requires LastOk(last, snapshots, disk, ios, space, loc, uncommitted, phase)
    requires SameOn(last.space.refs.Keys, disk, ios, disk', ios')
    requires Spared(ios', last.space.refs.Keys)
    ensures LastOk(last, snapshots, disk', ios', space, loc, uncommitted, phase)
  {
    KeptSame(last, snapshots[last.epoch], disk, ios, disk', ios');
  }

  lemma NextWrites(next: Super, epoch: nat, snapshots: map<nat, Snapshot>, disk: Disk, ios: Ios, space: Space, loc: Locs,
                   uncommitted: set<Slot>, disk': Disk, ios': Ios)
    requires NextOk(next, epoch, snapshots, disk, ios, space, loc, uncommitted)
    requires SameOn(next.space.refs.Keys, disk, ios, disk', ios')
    requires SparedBy(ios', next.space.refs.Keys, epoch)
    ensures NextOk(next, epoch, snapshots, disk', ios', space, loc, uncommitted)
  {
    KeptSame(next, snapshots[epoch], disk, ios, disk', ios');
  }

  /** The writes to the blocks of a set, and what they will hold, are as they were. */
  ghost predicate Untouched(blocks: set<nat>, disk: Disk, ios: Ios, disk': Disk, ios': Ios, epoch: nat) {
    && SameOn(blocks, disk, ios, disk', ios')
    && (Spared(ios, blocks) ==> Spared(ios', blocks))
    && (SparedBy(ios, blocks, epoch) ==> SparedBy(ios', blocks, epoch))
  }

  lemma SupersWrites(s: State, r: State)
    requires Inv(s)
    requires r.supers == s.supers && r.snapshots == s.snapshots && r.phase == s.phase && r.epoch == s.epoch
    requires r.loc == s.loc && r.uncommitted == s.uncommitted && r.space == s.space
    requires r.phase.Starting? ==> r.pending == map[] && r.owed == {}
    requires Untouched(Newest(s.supers).space.refs.Keys, s.disk, s.ios, r.disk, r.ios, s.epoch)
    requires SuperInMemory(s.phase) ==>
               Untouched(s.phase.super.space.refs.Keys, s.disk, s.ios, r.disk, r.ios, s.epoch)
    ensures SupersOk(r.supers, r.epoch, r.phase)
    ensures LastOk(Newest(r.supers), r.snapshots, r.disk, r.ios, r.space, r.loc, r.uncommitted, r.phase)
    ensures SuperInMemory(r.phase) ==>
              NextOk(r.phase.super, r.epoch, r.snapshots, r.disk, r.ios, r.space, r.loc, r.uncommitted)
    ensures PhaseOk(r)
  {
    assert Spared(s.ios, Newest(s.supers).space.refs.Keys) by { LastSpared(s); }
    LastWrites(Newest(s.supers), s.snapshots, s.disk, s.ios, s.space, s.loc, s.uncommitted, s.phase, r.disk, r.ios);
    if SuperInMemory(s.phase) {
      assert SparedBy(s.ios, s.phase.super.space.refs.Keys, s.epoch) by { NextSpared(s); }
      NextWrites(s.phase.super, s.epoch, s.snapshots, s.disk, s.ios, s.space, s.loc, s.uncommitted, r.disk, r.ios);
    }
  }

  lemma LastSpared(s: State)
    requires Inv(s)
    ensures 0 in s.supers && 1 in s.supers
    ensures Spared(s.ios, Newest(s.supers).space.refs.Keys)
    ensures Off(s.loc, s.uncommitted, Newest(s.supers).space.refs.Keys)
    ensures Newest(s.supers).space.refs.Keys !! s.space.free
  {
  }

  lemma NextSpared(s: State)
    requires Inv(s) && SuperInMemory(s.phase)
    ensures SparedBy(s.ios, s.phase.super.space.refs.Keys, s.epoch)
    ensures Off(s.loc, s.uncommitted, s.phase.super.space.refs.Keys)
  {
  }

  // ---- queueing ----

  lemma NonePending(s: State)
    requires s.pending == map[]
    ensures PendingOk(s.disk, s.ios, s.pending, s.loc, s.data, s.uncommitted, s.space)
  {
  }

  /** The slot of a changed block is the only one there, and its block is in use. */
  lemma OwnBlock(space: Space, loc: Locs, uncommitted: set<Slot>, t: Slot)
    requires Partitioned(space) && RefCounts(space.refs, loc) && Private(space.refs, loc, uncommitted)
    requires t in uncommitted && t in loc
    ensures loc[t] !in space.free && loc[t] !in space.limboTab
    ensures forall u :: u in loc && loc[u] == loc[t] ==> u == t
  {
    hide RefCounts;
    Referenced(space.refs, loc, t);
    forall u | u in loc && loc[u] == loc[t] ensures u == t {
      Sole(space.refs, loc, u, t);
    }
  }

  lemma WriteUntouched(s: State, t: Slot, blocks: set<nat>)
    requires t in s.loc && t in s.data && t in s.uncommitted && Off(s.loc, s.uncommitted, blocks)
    requires Numbered(s.ios, s.nextIo)
    ensures var r := Write(s, t); Untouched(blocks, s.disk, s.ios, r.disk, r.ios, s.epoch)
  {
    hide Latest;
    var r := Write(s, t);
    forall b | b in blocks ensures Latest(r.disk, r.ios, b) == Latest(s.disk, s.ios, b) {
      LatestSubmit(s.disk, s.ios, s.nextIo, Io(s.loc[t], Data(s.data[t]), s.epoch), b);
    }
  }

  lemma WriteCoherent(s: State, t: Slot)
    requires t in s.loc && t in s.data && t in s.owed && t.Block?
    requires Numbered(s.ios, s.nextIo)
    requires forall u :: u in s.loc && s.loc[u] == s.loc[t] ==> u == t
    requires Coherent(s.disk, s.ios, s.loc, s.data, s.image, s.owed + s.pending.Keys)
    ensures var r := Write(s, t); Coherent(r.disk, r.ios, r.loc, r.data, r.image, r.owed + r.pending.Keys)
  {
    hide Latest;
    hide Numbered;
    var r := Write(s, t);
    forall u | u in r.loc && u !in r.owed + r.pending.Keys
      ensures Latest(r.disk, r.ios, r.loc[u]) == Wanted(u, r.data, r.image)
    {
      LatestSubmit(s.disk, s.ios, s.nextIo, Io(s.loc[t], Data(s.data[t]), s.epoch), s.loc[u]);
    }
  }

  lemma WriteIos(s: State, t: Slot)
    requires LockFree(s) && t in s.loc && t in s.data
    requires s.loc[t] !in s.space.free && s.loc[t] !in s.space.limboTab
    requires Placed(s.ios, s.space, s.epoch) && Era(s.ios, s.epoch, s.phase) && Numbered(s.ios, s.nextIo)
    ensures var r := Write(s, t);
            Placed(r.ios, r.space, r.epoch) && Era(r.ios, r.epoch, r.phase) && Numbered(r.ios, r.nextIo)
  {
  }

  lemma WritePending(s: State, t: Slot)
    requires t in s.loc && t in s.data && t in s.uncommitted && t !in s.pending
    requires PendingOk(s.disk, s.ios, s.pending, s.loc, s.data, s.uncommitted, s.space)
    ensures var r := Write(s, t);
            PendingOk(r.disk, r.ios, r.pending, r.loc, r.data, r.uncommitted, r.space)
  {
    hide Overlay;
    var r := Write(s, t);
    forall u | u in s.pending ensures Quiet(r.ios, s.pending[u].source) {
      var b := s.pending[u].source;
      assert OnlyAt(s.loc, s.uncommitted, b, u) && Quiet(s.ios, b);
      forall id: nat ensures !Targets(r.ios, id, b) {
        assert !Targets(s.ios, id, b);
      }
    }
  }

  lemma OwedFacts(s: State, t: Slot)
    requires Marks(s.loc, s.dirty, s.uncommitted, s.owed, s.pending.Keys)
    requires Shape(s.objects, s.loc, s.data, s.image, s.dirty)
    requires t in s.owed + s.uncommitted
    ensures t in s.uncommitted && t in s.loc && t.Block? && t in s.data
    ensures t in s.owed ==> t !in s.pending
  {
    assert t in s.pending ==> t in s.pending.Keys;
  }

  lemma WriteMarks(s: State, t: Slot)
    requires Marks(s.loc, s.dirty, s.uncommitted, s.owed, s.pending.Keys)
    ensures Marks(s.loc, s.dirty, s.uncommitted, s.owed - {t}, s.pending.Keys)
  {
  }

  lemma WriteKeeps(s: State, t: Slot)
    requires Inv(s) && CanWrite(s, t)
    ensures t in s.loc && t in s.data && Inv(Write(s, t))
  {
    OwedFacts(s, t);
    OwnBlock(s.space, s.loc, s.uncommitted, t);
    CountSubmit(s.ios, s.unflushed, s.flushing, s.nextIo, Io(s.loc[t], Data(s.data[t]), s.epoch));
    WriteIos(s, t);
    WriteMarks(s, t);
    WriteCoherent(s, t);
    WritePending(s, t);
    LastSpared(s);
    WriteUntouched(s, t, Newest(s.supers).space.refs.Keys);
    if SuperInMemory(s.phase) {
      NextSpared(s);
      WriteUntouched(s, t, s.phase.super.space.refs.Keys);
    }
    SupersWrites(s, Write(s, t));
  }

  // ---- cancelling ----

  lemma CancelUntouched(s: State, t: Slot, id: nat, blocks: set<nat>)
    requires t in s.loc && t in s.uncommitted && Off(s.loc, s.uncommitted, blocks)
    requires id in s.ios && s.ios[id].block == s.loc[t]
    ensures var r := Cancel(s, t, id); Untouched(blocks, s.disk, s.ios, r.disk, r.ios, s.epoch)
  {
    hide Latest;
    var r := Cancel(s, t, id);
    forall b | b in blocks ensures Latest(r.disk, r.ios, b) == Latest(s.disk, s.ios, b) {
      LatestCancel(s.disk, s.ios, id, b);
    }
  }

  lemma CancelCoherent(s: State, t: Slot, id: nat)
    requires t in s.loc && id in s.ios && s.ios[id].block == s.loc[t]
    requires forall u :: u in s.loc && s.loc[u] == s.loc[t] ==> u == t
    requires Coherent(s.disk, s.ios, s.loc, s.data, s.image, s.owed + s.pending.Keys)
    ensures var r := Cancel(s, t, id); Coherent(r.disk, r.ios, r.loc, r.data, r.image, r.owed + r.pending.Keys)
  {
    hide Latest;
    var r := Cancel(s, t, id);
    forall u | u in r.loc && u !in r.owed + r.pending.Keys
      ensures Latest(r.disk, r.ios, r.loc[u]) == Wanted(u, r.data, r.image)
    {
      LatestCancel(s.disk, s.ios, id, s.loc[u]);
    }
  }

  /** Fewer writes in flight. */
  lemma FewerIos(ios: Ios, id: nat, space: Space, epoch: nat, phase: Phase, next: nat)
    requires Placed(ios, space, epoch) && Era(ios, epoch, phase) && Numbered(ios, next)
    ensures Placed(ios - {id}, space, epoch) && Era(ios - {id}, epoch, phase) && Numbered(ios - {id}, next)
  {
  }

  lemma FewerPending(s: State, id: nat, disk: Disk)
    requires PendingOk(s.disk, s.ios, s.pending, s.loc, s.data, s.uncommitted, s.space)
    requires forall b: nat :: Quiet(s.ios, b) ==> OnDisk(disk, b) == OnDisk(s.disk, b)
    ensures PendingOk(disk, s.ios - {id}, s.pending, s.loc, s.data, s.uncommitted, s.space)
  {
    hide Overlay;
    hide OnDisk;
    hide OnlyAt;
    forall b: nat | Quiet(s.ios, b) ensures Quiet(s.ios - {id}, b) {
      FewerQuiet(s.ios, id, b);
    }
    hide Quiet;
  }

  lemma FewerQuiet(ios: Ios, id: nat, b: nat)
    requires Quiet(ios, b)
    ensures Quiet(ios - {id}, b)
  {
    forall j: nat ensures !Targets(ios - {id}, j, b) {
      assert !Targets(ios, j, b);
    }
  }

  lemma CancelMarks(s: State, t: Slot)
    requires Marks(s.loc, s.dirty, s.uncommitted, s.owed, s.pending.Keys)
    requires t in s.uncommitted && t !in s.pending
    ensures Marks(s.loc, s.dirty, s.uncommitted, s.owed + {t}, s.pending.Keys)
  {
  }

  lemma CancelKeeps(s: State, t: Slot, id: nat)
    requires Inv(s) && CanCancel(s, t, id)
    ensures id in s.ios && Inv(Cancel(s, t, id))
  {
    OwnBlock(s.space, s.loc, s.uncommitted, t);
    CountRemove(s.ios, s.unflushed, s.flushing, id);
    FewerIos(s.ios, id, s.space, s.epoch, s.phase, s.nextIo);
    CancelMarks(s, t);
    CancelCoherent(s, t, id);
    FewerPending(s, id, s.disk);
    LastSpared(s);
    CancelUntouched(s, t, id, Newest(s.supers).space.refs.Keys);
    if SuperInMemory(s.phase) {
      NextSpared(s);
      CancelUntouched(s, t, id, s.phase.super.space.refs.Keys);
    }
    SupersWrites(s, Cancel(s, t, id));
  }

  // ---- completing ----

  lemma CompleteUntouched(s: State, id: nat, blocks: set<nat>)
    requires CanComplete(s, id)
    ensures var r := Complete(s, id); Untouched(blocks, s.disk, s.ios, r.disk, r.ios, s.epoch)
  {
    hide Latest;
    hide FirstFor;
    var r := Complete(s, id);
    forall b | b in blocks ensures Latest(r.disk, r.ios, b) == Latest(s.disk, s.ios, b) {
      LatestComplete(s.disk, s.ios, id, b);
    }
  }

  lemma CompleteCoherent(s: State, id: nat)
    requires CanComplete(s, id)
    requires Coherent(s.disk, s.ios, s.loc, s.data, s.image, s.owed + s.pending.Keys)
    ensures var r := Complete(s, id); Coherent(r.disk, r.ios, r.loc, r.data, r.image, r.owed + r.pending.Keys)
  {
    hide Latest;
    hide FirstFor;
    var r := Complete(s, id);
    forall u | u in r.loc && u !in r.owed + r.pending.Keys
      ensures Latest(r.disk, r.ios, r.loc[u]) == Wanted(u, r.data, r.image)
    {
      LatestComplete(s.disk, s.ios, id, s.loc[u]);
    }
  }

  lemma CompleteQuiet(s: State, id: nat)
    requires id in s.ios
    ensures forall b: nat :: Quiet(s.ios, b) ==> OnDisk(Complete(s, id).disk, b) == OnDisk(s.disk, b)
  {
    forall b: nat | Quiet(s.ios, b) ensures b != s.ios[id].block {
      assert !Targets(s.ios, id, b);
    }
  }

  lemma CompleteKeeps(s: State, id: nat)
    requires Inv(s) && CanComplete(s, id)
    ensures Inv(Complete(s, id))
  {
    CountRemove(s.ios, s.unflushed, s.flushing, id);
    FewerIos(s.ios, id, s.space, s.epoch, s.phase, s.nextIo);
    CompleteCoherent(s, id);
    CompleteQuiet(s, id);
    FewerPending(s, id, Complete(s, id).disk);
    LastSpared(s);
    CompleteUntouched(s, id, Newest(s.supers).space.refs.Keys);
    if SuperInMemory(s.phase) {
      CompleteUntouched(s, id, s.phase.super.space.refs.Keys);
    }
    SupersWrites(s, Complete(s, id));
  }
}
