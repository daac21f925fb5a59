/** Runs of the object store, with crashes at any point: they refine a store that keeps the
    current contents, the contents at the start of the commit in progress, and those of the last
    commit that was completed, and that falls back to the last ones on a crash. */
module CrashSafety {
  import opened Extents
  import opened AllocatorSpec
  import opened PartialBlocks
  import opened InFlight
  import opened References
  import opened ObjectStore
  import opened StoreInvariant
  import opened StoreSteps
  import opened StorePartials
  import opened StoreObjects
  import opened StoreWrites
  import opened StoreCommit
  import opened StoreMount

  datatype Step =
    | SCreate(o: nat)
    | SUnmap(t: Slot)
    | SPlace(t: Slot, b: nat, bytes: Bytes)
    | SRelocate(t: Slot, b: nat, bytes: Bytes)
    | SRewrite(t: Slot, bytes: Bytes)
    | SPartialInPlace(t: Slot, patch: Patch)
    | SPartialMoved(t: Slot, b: nat, patch: Patch)
    | SAddPartial(t: Slot, patch: Patch)
    | SFinishPartial(t: Slot)
    | SClone(from: Slot, o: nat)
    | SRemove(o: nat)
    | SWrite(t: Slot)
    | SCancel(t: Slot, id: nat)
    | SComplete(id: nat)
    | SDrain
    | SStart
    | SFlushOnode(o: nat, b: nat)
    | SPrepare
    | SFinishFlush
    | SWriteSuper
    | SFinishCommit
    | SCrash(disk: Disk)

  ghost predicate Can(s: State, step: Step) {
    match step
    case SCreate(o) => CanCreate(s, o)
    case SUnmap(t) => CanUnmap(s, t)
    case SPlace(t, b, _) => CanPlace(s, t, b)
    case SRelocate(t, b, _) => CanRelocate(s, t, b)
    case SRewrite(t, _) => CanRewrite(s, t)
    case SPartialInPlace(t, _) => CanStartPartialInPlace(s, t) && t in s.data
    case SPartialMoved(t, b, _) => CanStartPartialMoved(s, t, b) && t in s.data
    case SAddPartial(t, _) => CanAddPartial(s, t) && t in s.data
    case SFinishPartial(t) => CanFinishPartial(s, t)
    case SClone(from, o) => CanClone(s, from, o) && from in s.data
    case SRemove(o) => CanRemove(s, o)
    case SWrite(t) => CanWrite(s, t) && t in s.loc && t in s.data
    case SCancel(t, id) => CanCancel(s, t, id) && id in s.ios
    case SComplete(id) => CanComplete(s, id)
    case SDrain => CanDrain(s)
    case SStart => CanStart(s)
    case SFlushOnode(o, b) => CanFlushOnode(s, o, b)
    case SPrepare => CanPrepare(s)
    case SFinishFlush => CanFinishFlush(s)
    case SWriteSuper => CanWriteSuper(s)
    case SFinishCommit => CanFinishCommit(s)
    case SCrash(disk) => CanMount(s) && Torn(s, disk)
  }

  ghost function After(s: State, step: Step): State
    requires Can(s, step)
  {
    match step
    case SCreate(o) => Create(s, o)
    case SUnmap(t) => Unmap(s, t)
    case SPlace(t, b, bytes) => Place(s, t, b, bytes)
    case SRelocate(t, b, bytes) => Relocate(s, t, b, bytes)
    case SRewrite(t, bytes) => Rewrite(s, t, bytes)
    case SPartialInPlace(t, patch) => StartPartialInPlace(s, t, patch)
    case SPartialMoved(t, b, patch) => StartPartialMoved(s, t, b, patch)
    case SAddPartial(t, patch) => AddPartial(s, t, patch)
    case SFinishPartial(t) => FinishPartial(s, t)
    case SClone(from, o) => CloneBlock(s, from, o)
    case SRemove(o) => Remove(s, o)
    case SWrite(t) => Write(s, t)
    case SCancel(t, id) => Cancel(s, t, id)
    case SComplete(id) => Complete(s, id)
    case SDrain => Drain(s)
    case SStart => Start(s)
    case SFlushOnode(o, b) => FlushOnode(s, o, b)
    case SPrepare => Prepare(s)
    case SFinishFlush => FinishFlush(s)
    case SWriteSuper => WriteSuper(s)
    case SFinishCommit => FinishCommit(s)
    case SCrash(disk) => Mount(s, disk)
  }

  /** The guards above say that a slot is mapped or has data only to make each step well formed:
      in a state that can be reached they follow from the guards of the source. */
  lemma GuardsSuffice(s: State, t: Slot, id: nat)
    requires Inv(s)
    ensures CanStartPartial(s, t) ==> t in s.data
    ensures CanAddPartial(s, t) ==> t in s.data
    ensures CanWrite(s, t) ==> t in s.loc && t in s.data
    ensures CanCancel(s, t, id) ==> id in s.ios
    ensures CanMount(s)
  {
    if CanStartPartial(s, t) {
      Settled(s, t);
    }
    if CanAddPartial(s, t) {
      PendingFacts(s, t);
    }
    if CanWrite(s, t) {
      OwedFacts(s, t);
    }
  }

  ghost predicate WritesBlock(step: Step) {
    step.SPlace? || step.SRelocate? || step.SRewrite?
    || step.SPartialInPlace? || step.SPartialMoved? || step.SAddPartial?
  }

  ghost predicate ChangesObjects(step: Step) {
    step.SCreate? || step.SUnmap? || step.SClone? || step.SRemove?
  }

  ghost predicate MovesData(step: Step) {
    step.SWrite? || step.SCancel? || step.SComplete? || step.SFinishPartial? || step.SFlushOnode?
  }

  ghost predicate CommitsOrCrashes(step: Step) {
    !WritesBlock(step) && !ChangesObjects(step) && !MovesData(step)
  }

  lemma BlockStepKeeps(s: State, step: Step)
    requires Inv(s) && Can(s, step) && WritesBlock(step)
    ensures Inv(After(s, step))
  {
    hide Inv;
    hide Torn;
    match step
    case SPlace(t, b, bytes) => PlaceKeeps(s, t, b, bytes);
    case SRelocate(t, b, bytes) => RelocateKeeps(s, t, b, bytes);
    case SRewrite(t, bytes) => RewriteKeeps(s, t, bytes);
    case SPartialInPlace(t, patch) => StartPartialInPlaceKeeps(s, t, patch);
    case SPartialMoved(t, b, patch) => StartPartialMovedKeeps(s, t, b, patch);
    case SAddPartial(t, patch) => AddPartialKeeps(s, t, patch);
  }

  lemma ObjectStepKeeps(s: State, step: Step)
    requires Inv(s) && Can(s, step) && ChangesObjects(step)
    ensures Inv(After(s, step))
  {
    hide Inv;
    hide Torn;
    match step
    case SCreate(o) => CreateKeeps(s, o);
    case SUnmap(t) => UnmapKeeps(s, t);
    case SClone(from, o) => CloneBlockKeeps(s, from, o);
    case SRemove(o) => RemoveKeeps(s, o);
  }

  lemma WriteStepKeeps(s: State, step: Step)
    requires Inv(s) && Can(s, step) && MovesData(step)
    ensures Inv(After(s, step))
  {
    hide Inv;
    hide Torn;
    match step
    case SWrite(t) => WriteKeeps(s, t);
    case SCancel(t, id) => CancelKeeps(s, t, id);
    case SComplete(id) => CompleteKeeps(s, id);
    case SFinishPartial(t) => FinishPartialKeeps(s, t);
    case SFlushOnode(o, b) => FlushOnodeKeeps(s, o, b);
  }

  lemma CommitStepKeeps(s: State, step: Step)
    requires Inv(s) && Can(s, step) && CommitsOrCrashes(step)
    ensures Inv(After(s, step))
  {
    hide Inv;
    hide Torn;
    match step
    case SDrain => DrainKeeps(s);
    case SStart => StartKeeps(s);
    case SPrepare => PrepareKeeps(s);
    case SFinishFlush => FinishFlushKeeps(s);
    case SWriteSuper => WriteSuperKeeps(s);
    case SFinishCommit => FinishCommitKeeps(s);
    case SCrash(disk) => MountKeeps(s, disk);
  }

  lemma StepKeeps(s: State, step: Step)
    requires Inv(s) && Can(s, step)
    ensures Inv(After(s, step))
  {
    hide *;
    if WritesBlock(step) {
      BlockStepKeeps(s, step);
    } else if ChangesObjects(step) {
      ObjectStepKeeps(s, step);
    } else if MovesData(step) {
      WriteStepKeeps(s, step);
    } else {
      IsOther(step);
      CommitStepKeeps(s, step);
    }
  }

  lemma IsOther(step: Step)
    requires !WritesBlock(step) && !ChangesObjects(step) && !MovesData(step)
    ensures CommitsOrCrashes(step)
  {
  }

  // ---- runs ----

  /** mkfs has written both super blocks, and the store has been mounted. */
  ghost function Fresh(free: set<nat>, disk: Disk): State {
    var space := Space(map[], free, {}, {});
    State({}, map[], map[], map[], {}, {}, {}, map[], space, 1, Idle, map[], 0, map[], 0, disk,
          map[0 := Super(0, map[], space), 1 := Super(1, map[], space)],
          map[0 := Snapshot(map[], map[]), 1 := Snapshot(map[], map[])])
  }

  ghost predicate CanRun(s: State, steps: seq<Step>)
    decreases |steps|
  {
    steps != [] ==> Can(s, steps[0]) && CanRun(After(s, steps[0]), steps[1..])
  }

  ghost function End(s: State, steps: seq<Step>): State
    requires CanRun(s, steps)
    decreases |steps|
  {
    if steps == [] then s else End(After(s, steps[0]), steps[1..])
  }

  lemma FreshContents(free: set<nat>)
    ensures var space := Space(map[], free, {}, {});
            Partitioned(space) && RefCounts(space.refs, map[])
  {
    assert forall b: nat :: SlotsAt(map[], b) == {};
  }

  lemma EmptyTable()
    ensures TableOf(map[]) == map[]
  {
  }

  lemma FreshLast(free: set<nat>, disk: Disk, ios: Ios, loc: Locs, snapshots: map<nat, Snapshot>)
    requires ios == map[] && 1 in snapshots && snapshots[1] == Snapshot(map[], map[])
    ensures var space := Space(map[], free, {}, {});
            LastOk(Super(1, map[], space), snapshots, disk, ios, space, loc, {}, Idle)
  {
    hide RefCounts;
    hide Partitioned;
    hide Latest;
    hide TableOf;
    FreshContents(free);
    EmptyTable();
  }

  lemma FreshCoherent(disk: Disk, ios: Ios)
    ensures Coherent(disk, ios, map[], map[], map[], {})
  {
    hide Latest;
  }

  lemma FreshShape()
    ensures Shape({}, map[], map[], map[], {}) && Current(map[], map[], {})
  {
  }

  lemma FreshInv(free: set<nat>, disk: Disk)
    ensures Inv(Fresh(free, disk))
  {
    hide Marks;
    hide Private;
    hide Placed;
    hide Shape;
    hide Current;
    hide Era;
    hide Coherent;
    hide PendingOk;
    hide LastOk;
    hide NextOk;
    hide RefCounts;
    hide Partitioned;
    hide Counted;
    hide Numbered;
    var s := Fresh(free, disk);
    FreshContents(free);
    FreshShape();
    FreshLast(free, disk, s.ios, s.loc, s.snapshots);
    FreshCoherent(disk, s.ios);
    NothingCounted();
    NothingInFlight(s.space, s.epoch, s.loc, s.space.refs);
    NonePending(s);
    assert s.owed + s.pending.Keys == {};
  }

  lemma FreshMeans(free: set<nat>, disk: Disk)
    ensures Meaning(Fresh(free, disk)) == Simple(View({}, map[]), None, View({}, map[]))
  {
    hide TableOf;
    EmptyTable();
  }

  lemma {:induction false} RunKeeps(s: State, steps: seq<Step>)
    requires Inv(s) && CanRun(s, steps)
    ensures Inv(End(s, steps))
    decreases |steps|
  {
    hide Inv;
    hide Can;
    hide After;
    if steps != [] {
      StepKeeps(s, steps[0]);
      RunKeeps(After(s, steps[0]), steps[1..]);
    }
  }

  // ---- what a user of the store relies on ----

  datatype View = View(objects: set<nat>, data: map<Slot, Bytes>)

  /** The store without disk, caches and epochs. `cut` holds the contents that the commit in
      progress is making durable. */
  datatype Simple = Simple(current: View, cut: Option<View>, durable: View)

  ghost function PutBytes(a: Simple, t: Slot, bytes: Bytes): Simple {
    a.(current := a.current.(data := a.current.data[t := bytes]))
  }

  ghost function Patched(a: Simple, t: Slot, patch: Patch): Simple {
    if t in a.current.data then PutBytes(a, t, Overlay(a.current.data[t], patch)) else a
  }

  ghost function SimpleStep(a: Simple, step: Step): Simple {
    match step
    case SCreate(o) => a.(current := a.current.(objects := a.current.objects + {o}))
    case SUnmap(t) => a.(current := a.current.(data := a.current.data - {t}))
    case SPlace(t, _, bytes) => PutBytes(a, t, bytes)
    case SRelocate(t, _, bytes) => PutBytes(a, t, bytes)
    case SRewrite(t, bytes) => PutBytes(a, t, bytes)
    case SPartialInPlace(t, patch) => Patched(a, t, patch)
    case SPartialMoved(t, _, patch) => Patched(a, t, patch)
    case SAddPartial(t, patch) => Patched(a, t, patch)
    case SClone(from, o) =>
      if from in a.current.data && from.Block? then PutBytes(a, Block(o, from.blk), a.current.data[from]) else a
    case SRemove(o) => a.(current := a.current.(objects := a.current.objects - {o}))
    case SStart => a.(cut := Some(a.current))
    case SWriteSuper => if a.cut.Some? then a.(durable := a.cut.value, cut := None) else a
    case SCrash(_) => a.(current := a.durable, cut := None)
    case _ => a
  }

  ghost function SimpleEnd(a: Simple, steps: seq<Step>): Simple
    decreases |steps|
  {
    if steps == [] then a else SimpleEnd(SimpleStep(a, steps[0]), steps[1..])
  }

  ghost function SnapView(snap: Snapshot): View {
    View(TableOf(snap.loc).Keys, snap.data)
  }

  ghost function SnapAt(snapshots: map<nat, Snapshot>, epoch: nat): View {
    if epoch in snapshots then SnapView(snapshots[epoch]) else View({}, map[])
  }

  ghost function NewestEpoch(supers: map<nat, Super>): nat {
    if 0 in supers && 1 in supers then Newest(supers).epoch else 0
  }

  ghost function Meaning(s: State): Simple {
    var current := View(s.objects, s.data);
    Simple(current,
           if s.phase.Starting? then Some(current)
           else if SuperInMemory(s.phase) then Some(SnapAt(s.snapshots, s.epoch))
           else None,
           SnapAt(s.snapshots, NewestEpoch(s.supers)))
  }

  /** Steps that change neither the super blocks nor the phase. */
  lemma OrdinaryStep(s: State, r: State)
    requires r.phase == s.phase && r.epoch == s.epoch && r.supers == s.supers && r.snapshots == s.snapshots
    requires s.phase.Starting? ==> r.objects == s.objects && r.data == s.data
    ensures Meaning(s).current == View(s.objects, s.data)
    ensures Meaning(r) == Meaning(s).(current := View(r.objects, r.data))
  {
    hide TableOf;
  }

  lemma ObjectsInTable(s: State)
    requires Inv(s) && s.dirty == {}
    ensures TableOf(s.loc).Keys == s.objects
  {
    hide Marks;
    hide Private;
    hide Placed;
    hide Era;
    hide Coherent;
    hide Current;
    hide PendingOk;
    hide SupersOk;
    hide LastOk;
    hide NextOk;
    hide PhaseOk;
    hide RefCounts;
    hide Partitioned;
    hide Counted;
    hide Numbered;
    hide TableOf;
    forall o ensures o in TableOf(s.loc) <==> o in s.objects {
      TableAt(s.loc, o);
      if Inode(o) in s.loc {
        assert Inode(o).oid in s.objects;
      }
    }
  }

  lemma NewestIs(s: State)
    requires Inv(s)
    ensures 0 in s.supers && 1 in s.supers
    ensures Newest(s.supers).epoch + (if Committing(s.phase) then 1 else 0) == s.epoch
  {
    hide Shape;
    hide Marks;
    hide Private;
    hide Placed;
    hide Era;
    hide Coherent;
    hide Current;
    hide PendingOk;
    hide LastOk;
    hide NextOk;
    hide PhaseOk;
    hide RefCounts;
    hide Partitioned;
    hide Counted;
    hide Numbered;
  }

  lemma PrepareMeans(s: State)
    requires Inv(s) && CanPrepare(s)
    ensures Meaning(Prepare(s)) == Meaning(s)
  {
    hide Inv;
    hide TableOf;
    NewestIs(s);
    ObjectsInTable(s);
  }

  lemma WriteSuperMeans(s: State)
    requires Inv(s) && CanWriteSuper(s)
    ensures Meaning(WriteSuper(s)) == SimpleStep(Meaning(s), SWriteSuper)
  {
    hide Inv;
    hide TableOf;
    WriteSuperKeeps(s);
    NewestIs(WriteSuper(s));
    NewestIs(s);
  }

  lemma CrashMeans(s: State, disk: Disk)
    requires Inv(s) && CanMount(s) && Torn(s, disk)
    ensures Meaning(Mount(s, disk)) == SimpleStep(Meaning(s), SCrash(disk))
  {
    hide TableOf;
    hide RecoveredLoc;
    MountFinds(s, disk);
  }

  lemma BlockStepMeans(s: State, step: Step)
    requires Inv(s) && Can(s, step) && WritesBlock(step)
    ensures Meaning(After(s, step)) == SimpleStep(Meaning(s), step)
  {
    hide Inv;
    hide Meaning;
    hide Quiet;
    hide Release;
    hide Allocate;
    hide Overlay;
    OrdinaryStep(s, After(s, step));
    if step.SRelocate? || step.SPartialMoved? {
      assert After(s, step).data == s.data[step.t := After(s, step).data[step.t]];
    }
  }

  lemma ObjectStepMeans(s: State, step: Step)
    requires Can(s, step) && ChangesObjects(step)
    ensures Meaning(After(s, step)) == SimpleStep(Meaning(s), step)
  {
    hide Meaning;
    hide Quiet;
    hide Release;
    hide Share;
    OrdinaryStep(s, After(s, step));
  }

  lemma WriteStepMeans(s: State, step: Step)
    requires Inv(s) && Can(s, step) && MovesData(step)
    ensures Meaning(After(s, step)) == SimpleStep(Meaning(s), step)
  {
    hide Inv;
    OrdinaryStep(s, After(s, step));
    if step.SFinishPartial? {
      FinishPartialContents(s, step.t);
    }
  }

  lemma StepMeans(s: State, step: Step)
    requires Inv(s) && Can(s, step)
    ensures Meaning(After(s, step)) == SimpleStep(Meaning(s), step)
  {
    hide Inv;
    hide TableOf;
    hide Torn;
    if WritesBlock(step) {
      BlockStepMeans(s, step);
    } else if ChangesObjects(step) {
      ObjectStepMeans(s, step);
    } else if MovesData(step) {
      WriteStepMeans(s, step);
    } else if step.SPrepare? {
      PrepareMeans(s);
    } else if step.SWriteSuper? {
      WriteSuperMeans(s);
    } else if step.SCrash? {
      CrashMeans(s, step.disk);
    }
  }

  /** Every run, with crashes anywhere in it, shows what the same run of the simple store shows.
      In particular a crash brings back exactly the objects and contents at the start of the last
      commit whose super block was written, whatever it did to the blocks being written. */
  lemma {:induction false} RunRefines(s: State, steps: seq<Step>)
    requires Inv(s) && CanRun(s, steps)
    ensures Meaning(End(s, steps)) == SimpleEnd(Meaning(s), steps)
    decreases |steps|
  {
    if steps != [] {
      StepKeeps(s, steps[0]);
      StepMeans(s, steps[0]);
      RunRefines(After(s, steps[0]), steps[1..]);
    }
  }

  lemma EveryRun(free: set<nat>, disk: Disk, steps: seq<Step>)
    requires CanRun(Fresh(free, disk), steps)
    ensures Inv(End(Fresh(free, disk), steps))
    ensures Meaning(End(Fresh(free, disk), steps))
            == SimpleEnd(Simple(View({}, map[]), None, View({}, map[])), steps)
  {
    hide Inv;
    FreshInv(free, disk);
    RunKeeps(Fresh(free, disk), steps);
    RunRefines(Fresh(free, disk), steps);
    FreshMeans(free, disk);
  }

  // ---- committed blocks ----

  /** The blocks are in use, and no slot that may be overwritten in place is there. */
  ghost predicate Protected(s: State, blocks: set<nat>) {
    blocks !! s.space.free && Off(s.loc, s.uncommitted, blocks)
  }

  lemma NextProtected(s: State)
    requires SuperInMemory(s.phase)
    requires NextOk(s.phase.super, s.epoch, s.snapshots, s.disk, s.ios, s.space, s.loc, s.uncommitted)
    ensures Protected(s, s.phase.super.space.refs.Keys)
    ensures SparedBy(s.ios, s.phase.super.space.refs.Keys, s.epoch)
  {
    hide Kept;
    hide RefCounts;
    hide TableOf;
  }

  lemma OldWritesDone(s: State)
    requires s.phase.Flushed? && Era(s.ios, s.epoch, s.phase)
    ensures forall id: nat :: id in s.ios ==> s.ios[id].content.Data? && s.ios[id].epoch == s.epoch
  {
  }

  /** In every run: a block of the last completed super block is never free, never overwritten in
      place, and nothing is in flight to it; a block of the super block being committed is never
      free, never overwritten in place, and no write of the new epoch is in flight to it; and when
      a super block is written, every write of an earlier epoch and every onode write is done. */
  lemma CommittedBlocksSafe(free: set<nat>, disk: Disk, steps: seq<Step>)
    requires CanRun(Fresh(free, disk), steps)
    ensures var s := End(Fresh(free, disk), steps);
            && CanMount(s)
            && Protected(s, Newest(s.supers).space.refs.Keys)
            && Spared(s.ios, Newest(s.supers).space.refs.Keys)
            && (SuperInMemory(s.phase) ==>
                  Protected(s, s.phase.super.space.refs.Keys)
                  && SparedBy(s.ios, s.phase.super.space.refs.Keys, s.epoch))
            && (CanWriteSuper(s) ==>
                  forall id: nat :: id in s.ios ==> s.ios[id].content.Data? && s.ios[id].epoch == s.epoch)
  {
    FreshInv(free, disk);
    RunKeeps(Fresh(free, disk), steps);
    var s := End(Fresh(free, disk), steps);
    LastSpared(s);
    if SuperInMemory(s.phase) {
      NextProtected(s);
    }
    if s.phase.Flushed? {
      OldWritesDone(s);
    }
  }
}
