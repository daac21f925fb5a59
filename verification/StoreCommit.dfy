/** The steps of the commit thread keep the invariant of the store. */
module StoreCommit {
  import opened Extents
  import opened AllocatorSpec
  import opened PartialBlocks
  import opened InFlight
  import opened References
  import opened ObjectStore
  import opened StoreInvariant
  import opened StoreSteps
  import opened StoreWrites

  lemma DrainKeeps(s: State)
    requires Inv(s) && CanDrain(s)
    ensures Inv(Drain(s))
  {
  }

  /** A commit begins with no onode on its way to the disk. */
  lemma NothingFlushing(s: State)
    requires Inv(s) && CanStart(s)
    ensures Start(s).flushing == 0
  {
    CountZero(s.ios, s.unflushed, s.flushing, s.epoch);
  }

  lemma StartKeeps(s: State)
    requires Inv(s) && CanStart(s)
    ensures Inv(Start(s))
  {
    hide SnapshotOk;
  }

  // ---- writing an onode ----

  lemma FlushSpace(s: State, o: nat, b: nat)
    requires Partitioned(s.space) && RefCounts(s.space.refs, s.loc) && b in s.space.free
    requires Private(s.space.refs, s.loc, s.uncommitted)
    ensures var r := FlushOnode(s, o, b);
            && Partitioned(r.space) && RefCounts(r.space.refs, r.loc)
            && Private(r.space.refs, r.loc, r.uncommitted)
            && r.space.free == s.space.free - {b} && r.space.limboTab == s.space.limboTab
  {
    hide RefCounts;
    hide Partitioned;
    hide ExtOf;
    var t := Inode(o);
    var loc := s.loc - {t};
    var released := if t in s.loc then Release(s.space, {s.loc[t]}) else s.space;
    if t in s.loc {
      ReleaseSlot(s.space, s.loc, t);
      ReleasePrivate(s.space, s.loc, t, s.uncommitted);
    } else {
      assert s.loc == loc;
    }
    AllocateSlot(released, loc, t, b, s.uncommitted - {t});
    assert loc[t := b] == s.loc[t := b];
  }

  lemma FlushShape(s: State, o: nat, b: nat)
    requires CanFlushOnode(s, o, b)
    requires Shape(s.objects, s.loc, s.data, s.image, s.dirty)
    ensures var r := FlushOnode(s, o, b); Shape(r.objects, r.loc, r.data, r.image, r.dirty)
  {
    hide ExtOf;
    hide Release;
    hide Allocate;
  }

  lemma FlushMarks(s: State, o: nat, b: nat)
    requires Marks(s.loc, s.dirty, s.uncommitted, s.owed, s.pending.Keys)
    requires s.owed == {} && s.pending == map[]
    ensures var r := FlushOnode(s, o, b);
            Marks(r.loc, r.dirty, r.uncommitted, r.owed, r.pending.Keys)
  {
    hide ExtOf;
    hide Release;
    hide Allocate;
  }

  lemma FlushIos(s: State, o: nat, b: nat)
    requires CanFlushOnode(s, o, b)
    requires Placed(s.ios, s.space, s.epoch) && Era(s.ios, s.epoch, s.phase) && Numbered(s.ios, s.nextIo)
    requires FlushOnode(s, o, b).space.free == s.space.free - {b}
    requires FlushOnode(s, o, b).space.limboTab == s.space.limboTab
    ensures var r := FlushOnode(s, o, b);
            Placed(r.ios, r.space, r.epoch) && Era(r.ios, r.epoch, r.phase) && Numbered(r.ios, r.nextIo)
  {
    hide Release;
    hide Allocate;
    hide ExtOf;
  }

  lemma FlushCoherent(s: State, o: nat, b: nat)
    requires CanFlushOnode(s, o, b) && Numbered(s.ios, s.nextIo)
    requires forall u :: u in s.loc ==> s.loc[u] != b
    requires Coherent(s.disk, s.ios, s.loc, s.data, s.image, s.owed + s.pending.Keys)
    ensures var r := FlushOnode(s, o, b); Coherent(r.disk, r.ios, r.loc, r.data, r.image, r.owed + r.pending.Keys)
  {
    hide Latest;
    hide Numbered;
    hide ExtOf;
    hide Release;
    hide Allocate;
    var r := FlushOnode(s, o, b);
    forall u | u in r.loc && u !in r.owed + r.pending.Keys
      ensures Latest(r.disk, r.ios, r.loc[u]) == Wanted(u, r.data, r.image)
    {
      LatestSubmit(s.disk, s.ios, s.nextIo, Io(b, Image(ExtOf(s.loc, o)), s.epoch), r.loc[u]);
    }
  }

  lemma FlushCurrent(s: State, o: nat, b: nat)
    requires Current(s.image, s.loc, s.dirty)
    ensures var r := FlushOnode(s, o, b); Current(r.image, r.loc, r.dirty)
  {
    hide ExtOf;
    hide Release;
    hide Allocate;
    var r := FlushOnode(s, o, b);
    forall p | p in r.image && p !in r.dirty ensures r.image[p] == ExtOf(r.loc, p) {
      ExtSame(s.loc, r.loc, p);
    }
  }

  lemma NobodyAt(space: Space, loc: Locs, b: nat)
    requires Partitioned(space) && RefCounts(space.refs, loc) && b in space.free
    ensures forall u :: u in loc ==> loc[u] != b
  {
    hide RefCounts;
    forall u | u in loc ensures loc[u] != b {
      Referenced(space.refs, loc, u);
    }
  }

  lemma FlushLast(s: State, o: nat, b: nat, last: Super)
    requires LastOk(last, s.snapshots, s.disk, s.ios, s.space, s.loc, s.uncommitted, s.phase)
    requires CanFlushOnode(s, o, b) && Numbered(s.ios, s.nextIo)
    requires forall t :: t in s.uncommitted ==> t.Block?
    requires FlushOnode(s, o, b).space.free == s.space.free - {b}
    requires FlushOnode(s, o, b).space.limboTab == s.space.limboTab
    ensures var r := FlushOnode(s, o, b);
            LastOk(last, r.snapshots, r.disk, r.ios, r.space, r.loc, r.uncommitted, r.phase)
  {
    hide SnapshotOk;
    hide ExtOf;
    hide Latest;
    var r := FlushOnode(s, o, b);
    var bs := last.space.refs.Keys;
    forall c | c in bs ensures Latest(r.disk, r.ios, c) == Latest(s.disk, s.ios, c) {
      LatestSubmit(s.disk, s.ios, s.nextIo, Io(b, Image(ExtOf(s.loc, o)), s.epoch), c);
    }
    assert SameOn(bs, s.disk, s.ios, r.disk, r.ios);
    KeptSame(last, s.snapshots[last.epoch], s.disk, s.ios, r.disk, r.ios);
  }

  lemma BlocksOnly(s: State)
    requires Marks(s.loc, s.dirty, s.uncommitted, s.owed, s.pending.Keys)
    ensures forall t :: t in s.uncommitted ==> t.Block?
  {
  }

  lemma FlushOnodeKeeps(s: State, o: nat, b: nat)
    requires Inv(s) && CanFlushOnode(s, o, b)
    ensures Inv(FlushOnode(s, o, b))
  {
    hide LastOk;
    hide Counted;
    hide Allocate;
    hide ExtOf;
    BlocksOnly(s);
    FlushSpace(s, o, b);
    NobodyAt(s.space, s.loc, b);
    CountSubmit(s.ios, s.unflushed, s.flushing, s.nextIo, Io(b, Image(ExtOf(s.loc, o)), s.epoch));
    FlushShape(s, o, b);
    FlushMarks(s, o, b);
    FlushIos(s, o, b);
    FlushCoherent(s, o, b);
    FlushCurrent(s, o, b);
    FlushLast(s, o, b, Newest(s.supers));
    assert PendingOk(s.disk, FlushOnode(s, o, b).ios, map[], FlushOnode(s, o, b).loc, s.data,
                     FlushOnode(s, o, b).uncommitted, FlushOnode(s, o, b).space) by {
      NonePending(FlushOnode(s, o, b));
    }
  }

  // ---- preparing the super block ----

  lemma NoneUncommitted(s: State)
    requires Marks(s.loc, s.dirty, s.uncommitted, s.owed, s.pending.Keys) && s.dirty == {}
    ensures s.uncommitted == {}
  {
    assert forall t :: t in s.uncommitted ==> t.oid in s.dirty;
  }

  lemma PrepareSnapshot(s: State)
    requires Partitioned(s.space) && RefCounts(s.space.refs, s.loc) && s.dirty == {}
    requires Shape(s.objects, s.loc, s.data, s.image, s.dirty)
    ensures SnapshotOk(Super(s.epoch, TableOf(s.loc), CommitLimbo(s.space)), Snapshot(s.loc, s.data))
    ensures Partitioned(CommitLimbo(s.space))
  {
    hide RefCounts;
    StepKeepsPartition(s.space, OpCommitLimbo);
  }

  lemma PrepareKept(s: State)
    requires Shape(s.objects, s.loc, s.data, s.image, s.dirty) && s.dirty == {}
    requires Coherent(s.disk, s.ios, s.loc, s.data, s.image, {})
    requires Current(s.image, s.loc, s.dirty)
    ensures Kept(s.disk, s.ios, Snapshot(s.loc, s.data))
  {
    hide Latest;
    hide ExtOf;
  }

  lemma PrepareIos(s: State)
    requires s.phase.Starting? && Era(s.ios, s.epoch, s.phase) && Placed(s.ios, s.space, s.epoch)
    ensures var r := Prepare(s);
            Era(r.ios, r.epoch, r.phase) && Placed(r.ios, r.space, r.epoch)
    ensures forall blocks :: SparedBy(s.ios, blocks, s.epoch)
  {
  }

  lemma PrepareLast(s: State, last: Super)
    requires LastOk(last, s.snapshots, s.disk, s.ios, s.space, s.loc, s.uncommitted, s.phase)
    requires last.epoch < s.epoch
    ensures var r := Prepare(s);
            LastOk(last, r.snapshots, r.disk, r.ios, r.space, r.loc, r.uncommitted, r.phase)
  {
    hide Kept;
    hide SnapshotOk;
    hide Spared;
    hide Off;
  }

  lemma PrepareNext(s: State)
    requires SnapshotOk(Super(s.epoch, TableOf(s.loc), CommitLimbo(s.space)), Snapshot(s.loc, s.data))
    requires Kept(s.disk, s.ios, Snapshot(s.loc, s.data))
    requires SparedBy(s.ios, s.space.refs.Keys, s.epoch)
    requires s.uncommitted == {}
    ensures var r := Prepare(s);
            NextOk(r.phase.super, r.epoch, r.snapshots, r.disk, r.ios, r.space, r.loc, r.uncommitted)
  {
    hide Kept;
    hide SnapshotOk;
    hide SparedBy;
    hide TableOf;
  }

  lemma PrepareKeeps(s: State)
    requires Inv(s) && CanPrepare(s)
    ensures Inv(Prepare(s))
  {
    hide Shape;
    hide Marks;
    hide Private;
    hide Placed;
    hide Era;
    hide Coherent;
    hide Current;
    hide PendingOk;
    hide LastOk;
    hide NextOk;
    hide RefCounts;
    hide Partitioned;
    hide Counted;
    hide Numbered;
    hide TableOf;
    hide CommitLimbo;
    hide SnapshotOk;
    hide Kept;
    hide SparedBy;
    NoneUncommitted(s);
    assert s.owed + s.pending.Keys == {};
    PrepareSnapshot(s);
    PrepareKept(s);
    PrepareIos(s);
    PrepareLast(s, Newest(s.supers));
    PrepareNext(s);
    assert Prepare(s).space.refs == s.space.refs by { LimboOnly(s.space); }
    NonePending(Prepare(s));
  }

  lemma LimboOnly(space: Space)
    ensures CommitLimbo(space).refs == space.refs
  {
  }

  // ---- waiting, and writing the super block ----

  /** When both counters are zero, only data writes of the new epoch are left in flight. */
  lemma WaitIsOver(s: State)
    requires Counted(s.ios, s.unflushed, s.flushing) && Era(s.ios, s.epoch, s.phase)
    requires CanFinishFlush(s)
    ensures forall id: nat :: id in s.ios ==> s.ios[id].content.Data? && s.ios[id].epoch == s.epoch
  {
    hide Counted;
    CountZero(s.ios, s.unflushed, s.flushing, s.epoch - 1);
  }

  lemma FinishFlushKeeps(s: State)
    requires Inv(s) && CanFinishFlush(s)
    ensures Inv(FinishFlush(s))
  {
    hide Shape;
    hide Marks;
    hide Private;
    hide Placed;
    hide Coherent;
    hide Current;
    hide PendingOk;
    hide NextOk;
    hide RefCounts;
    hide Partitioned;
    hide Counted;
    hide Numbered;
    hide Kept;
    hide SnapshotOk;
    hide Spared;
    hide Off;
    assert forall id: nat :: id in s.ios ==> s.ios[id].content.Data? && s.ios[id].epoch == s.epoch by { WaitIsOver(s); }
  }

  lemma WriteSuperLast(s: State)
    requires s.phase.Flushed? && Era(s.ios, s.epoch, s.phase)
    requires NextOk(s.phase.super, s.epoch, s.snapshots, s.disk, s.ios, s.space, s.loc, s.uncommitted)
    ensures LastOk(s.phase.super, s.snapshots, s.disk, s.ios, s.space, s.loc, s.uncommitted, Written)
  {
    hide Kept;
    hide RefCounts;
    hide TableOf;
  }

  lemma WriteSuperKeeps(s: State)
    requires Inv(s) && CanWriteSuper(s)
    ensures Inv(WriteSuper(s))
    ensures Turned(s.supers, WriteSuper(s).supers, s.phase.super)
  {
    WriteSuperLast(s);
    assert s.phase.super.epoch == s.epoch by { NextEpoch(s); }
    WriteSuperTurn(s.supers, s.phase.super, s.epoch);
  }

  /** The new super block took the place of the older one, and is the newer one now. */
  ghost predicate Turned(was: map<nat, Super>, now: map<nat, Super>, next: Super) {
    && 0 in was && 1 in was && 0 in now && 1 in now
    && Newest(now) == next && now[(next.epoch + 1) % 2] == Newest(was)
  }

  lemma WriteSuperTurn(supers: map<nat, Super>, next: Super, epoch: nat)
    requires 0 in supers && 1 in supers && next.epoch == epoch
    requires supers[Newest(supers).epoch % 2] == Newest(supers) && Newest(supers).epoch + 1 == epoch
    ensures var after := supers[epoch % 2 := next];
            && 0 in after && 1 in after && after[0].epoch != after[1].epoch
            && Turned(supers, after, next)
            && after[Newest(after).epoch % 2] == Newest(after)
  {
  }

  lemma NextEpoch(s: State)
    requires SuperInMemory(s.phase)
    requires NextOk(s.phase.super, s.epoch, s.snapshots, s.disk, s.ios, s.space, s.loc, s.uncommitted)
    ensures s.phase.super.epoch == s.epoch
  {
  }

  // ---- the end of a commit ----

  lemma FinishPlaces(s: State)
    requires s.phase.Written? && Era(s.ios, s.epoch, s.phase) && Placed(s.ios, s.space, s.epoch)
    requires Partitioned(s.space)
    ensures var r := FinishCommit(s);
            Partitioned(r.space) && Placed(r.ios, r.space, r.epoch) && Era(r.ios, r.epoch, r.phase)
  {
    assert Partitioned(ReleaseLimbo(s.space)) by { StepKeepsPartition(s.space, OpReleaseLimbo); }
    hide Partitioned;
  }

  lemma FinishPending(s: State)
    requires PendingOk(s.disk, s.ios, s.pending, s.loc, s.data, s.uncommitted, s.space)
    ensures PendingOk(s.disk, s.ios, s.pending, s.loc, s.data, s.uncommitted, FinishCommit(s).space)
  {
    hide Quiet;
    hide Overlay;
    hide OnlyAt;
  }

  lemma FinishLast(s: State, last: Super)
    requires s.phase.Written?
    requires LastOk(last, s.snapshots, s.disk, s.ios, s.space, s.loc, s.uncommitted, s.phase)
    ensures LastOk(last, s.snapshots, s.disk, s.ios, FinishCommit(s).space, s.loc, s.uncommitted, Idle)
  {
    hide Kept;
    hide SnapshotOk;
    hide Spared;
    hide Off;
  }

  lemma FinishCommitKeeps(s: State)
    requires Inv(s) && CanFinishCommit(s)
    ensures Inv(FinishCommit(s))
  {
    FinishPlaces(s);
    FinishPending(s);
    FinishLast(s, Newest(s.supers));
  }
}
