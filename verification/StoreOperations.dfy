/** What the operations of the object store do to its contents, and that they can always be carried
    out: only the commit thread while it holds `ebofs_lock`, and a full disk, can keep them waiting. */
module StoreOperations {
  import opened Extents
  import opened AllocatorSpec
  import opened PartialBlocks
  import opened InFlight
  import opened References
  import opened ObjectStore
  import opened StoreInvariant
  import opened CrashSafety
  import opened Operations
  import opened CommitProgress

  /** The operation is over: its steps could be taken, and the store holds v. */
  ghost predicate Did(s: State, steps: seq<Step>, v: View) {
    UnderLock(steps) && CanRun(s, steps) && Inv(End(s, steps)) && LockFree(End(s, steps)) && Held(End(s, steps)) == v
  }

  lemma DataSlots(s: State)
    requires Inv(s)
    ensures forall t :: t in s.data <==> t in s.loc && t.Block?
    ensures forall t :: t in s.data ==> t.oid in s.objects
    ensures forall t :: t in s.uncommitted ==> t in s.loc
  {
  }

  /** A single step of an operation. */
  lemma StepDoes(s: State, step: Step, v: View)
    requires Inv(s) && Can(s, step) && LockFree(After(s, step)) && !Commits(step) && !step.SCrash?
    requires SimpleStep(Meaning(s), step).current == v
    ensures Did(s, [step], v) && End(s, [step]) == After(s, step)
  {
    hide *;
    StepOn(s, step);
    MeaningHolds(After(s, step));
    OneUnderLock(step);
    IsDone(s, [step], v);
  }

  lemma OneUnderLock(step: Step)
    requires !Commits(step) && !step.SCrash?
    ensures UnderLock([step])
  {
  }

  lemma IsDone(s: State, steps: seq<Step>, v: View)
    requires UnderLock(steps) && CanRun(s, steps) && Inv(End(s, steps)) && LockFree(End(s, steps))
    requires Held(End(s, steps)) == v
    ensures Did(s, steps, v)
  {
  }

  /** One step, and then the rest. */
  lemma ThenDid(s: State, step: Step, rest: seq<Step>, u: View, v: View)
    requires Did(s, [step], u) && End(s, [step]) == After(s, step) && Did(After(s, step), rest, v)
    ensures Did(s, [step] + rest, v) && End(s, [step] + rest) == End(After(s, step), rest)
  {
    hide Can;
    hide After;
    hide Inv;
    RunJoin(s, [step], rest);
  }

  lemma NothingDone(s: State)
    requires Inv(s) && LockFree(s)
    ensures Did(s, [], View(s.objects, s.data)) && End(s, []) == s
  {
    hide Inv;
  }

  // ---- one block ----

  lemma PlaceCan(s: State, t: Slot, b: nat, bytes: Bytes)
    requires LockFree(s) && t.Block? && t.oid in s.objects && t !in s.loc && b in s.space.free
    ensures Can(s, SPlace(t, b, bytes)) && LockFree(After(s, SPlace(t, b, bytes)))
    ensures SimpleStep(Meaning(s), SPlace(t, b, bytes)).current == View(s.objects, s.data[t := bytes])
  {
  }

  lemma RelocateCan(s: State, t: Slot, b: nat, bytes: Bytes)
    requires LockFree(s) && t.Block? && t.oid in s.objects && t in s.loc && b in s.space.free
    ensures Can(s, SRelocate(t, b, bytes)) && LockFree(After(s, SRelocate(t, b, bytes)))
    ensures SimpleStep(Meaning(s), SRelocate(t, b, bytes)).current == View(s.objects, s.data[t := bytes])
  {
  }

  lemma RewriteCan(s: State, t: Slot, bytes: Bytes)
    requires LockFree(s) && t in s.uncommitted
    ensures Can(s, SRewrite(t, bytes)) && LockFree(After(s, SRewrite(t, bytes)))
    ensures SimpleStep(Meaning(s), SRewrite(t, bytes)).current == View(s.objects, s.data[t := bytes])
  {
  }

  /** Any block of any object may be given any contents, as long as there is a free block. */
  lemma WriteBlock(s: State, o: nat, i: nat, bytes: Bytes) returns (step: Step)
    requires Inv(s) && LockFree(s) && o in s.objects && s.space.free != {}
    ensures Did(s, [step], View(s.objects, s.data[Block(o, i) := bytes]))
  {
    var t := Block(o, i);
    var b :| b in s.space.free;
    hide *;
    if t !in s.loc {
      step := SPlace(t, b, bytes);
      PlaceCan(s, t, b, bytes);
    } else if t in s.uncommitted {
      step := SRewrite(t, bytes);
      RewriteCan(s, t, bytes);
    } else {
      step := SRelocate(t, b, bytes);
      RelocateCan(s, t, b, bytes);
    }
    IsUserStep(step);
    StepDoes(s, step, View(s.objects, s.data[t := bytes]));
  }

  ghost predicate OfUser(step: Step) {
    || step.SCreate? || step.SUnmap? || step.SPlace? || step.SRelocate? || step.SRewrite? || step.SPartialInPlace?
    || step.SPartialMoved? || step.SAddPartial? || step.SClone? || step.SRemove?
  }

  lemma IsUserStep(step: Step)
    ensures OfUser(step) ==> !Commits(step) && !step.SCrash?
    ensures OfUser(step) <==>
              (step.SCreate? || step.SUnmap? || step.SPlace? || step.SRelocate? || step.SRewrite? || step.SPartialInPlace?
               || step.SPartialMoved? || step.SAddPartial? || step.SClone? || step.SRemove?)
  {
  }

  /** Whether part of the block may be written without having the rest in memory: earlier writes of
      part of it still wait for the rest, or nothing is on its way to the disk. */
  ghost predicate Patchable(s: State, t: Slot) {
    t in s.pending || (t !in s.owed && t in s.loc && Quiet(s.ios, s.loc[t]) && !s.phase.Draining?)
  }

  lemma AddPartialCan(s: State, t: Slot, patch: Patch)
    requires LockFree(s) && t in s.pending && t in s.data
    ensures Can(s, SAddPartial(t, patch)) && LockFree(After(s, SAddPartial(t, patch)))
    ensures SimpleStep(Meaning(s), SAddPartial(t, patch)).current == View(s.objects, s.data[t := Overlay(s.data[t], patch)])
  {
    hide Overlay;
  }

  lemma InPlaceCan(s: State, t: Slot, patch: Patch)
    requires LockFree(s) && t.Block? && t in s.data && t in s.loc && t in s.uncommitted && Patchable(s, t) && t !in s.pending
    ensures Can(s, SPartialInPlace(t, patch)) && LockFree(After(s, SPartialInPlace(t, patch)))
    ensures SimpleStep(Meaning(s), SPartialInPlace(t, patch)).current
            == View(s.objects, s.data[t := Overlay(s.data[t], patch)])
  {
    hide Overlay;
  }

  lemma MovedCan(s: State, t: Slot, b: nat, patch: Patch)
    requires LockFree(s) && t.Block? && t in s.data && t in s.loc && t.oid in s.objects && b in s.space.free
    requires Patchable(s, t) && t !in s.pending
    ensures Can(s, SPartialMoved(t, b, patch)) && LockFree(After(s, SPartialMoved(t, b, patch)))
    ensures SimpleStep(Meaning(s), SPartialMoved(t, b, patch)).current
            == View(s.objects, s.data[t := Overlay(s.data[t], patch)])
  {
    hide Overlay;
  }

  /** The same for a part of a block, whether or not the block may be overwritten where it is. */
  lemma PatchBlock(s: State, t: Slot, patch: Patch) returns (step: Step)
    requires Inv(s) && LockFree(s) && t in s.data && s.space.free != {} && Patchable(s, t)
    ensures step.SAddPartial? || step.SPartialInPlace? || step.SPartialMoved?
    ensures Did(s, [step], View(s.objects, s.data[t := Overlay(s.data[t], patch)]))
  {
    DataSlots(s);
    var b :| b in s.space.free;
    hide *;
    if t in s.pending {
      step := SAddPartial(t, patch);
      AddPartialCan(s, t, patch);
    } else if t in s.uncommitted {
      step := SPartialInPlace(t, patch);
      InPlaceCan(s, t, patch);
    } else {
      step := SPartialMoved(t, b, patch);
      MovedCan(s, t, b, patch);
    }
    IsUserStep(step);
    StepDoes(s, step, View(s.objects, s.data[t := Overlay(s.data[t], patch)]));
  }

  // ---- truncation and removal ----

  /** The blocks of an object from number n on. */
  ghost function From(data: map<Slot, Bytes>, o: nat, n: nat): set<Slot> {
    set t | t in data && t.oid == o && t.Block? && t.blk >= n
  }

  lemma UnmapCan(s: State, t: Slot)
    requires LockFree(s) && t.Block? && t in s.loc
    ensures Can(s, SUnmap(t)) && LockFree(After(s, SUnmap(t)))
    ensures After(s, SUnmap(t)).objects == s.objects && After(s, SUnmap(t)).data == s.data - {t}
    ensures SimpleStep(Meaning(s), SUnmap(t)).current == View(s.objects, s.data - {t})
  {
  }

  lemma FromLess(data: map<Slot, Bytes>, o: nat, n: nat, t: Slot)
    requires t in From(data, o, n)
    ensures From(data - {t}, o, n) == From(data, o, n) - {t}
    ensures |From(data - {t}, o, n)| < |From(data, o, n)|
    ensures data - {t} - From(data - {t}, o, n) == data - From(data, o, n)
  {
    assert From(data - {t}, o, n) == From(data, o, n) - {t};
    FewerSlots(From(data, o, n), t);
  }

  /** Any object may be cut to any length. */
  lemma TruncateObject(s: State, o: nat, n: nat) returns (steps: seq<Step>)
    requires Inv(s) && LockFree(s)
    ensures Did(s, steps, View(s.objects, s.data - From(s.data, o, n)))
    decreases |From(s.data, o, n)|
  {
    hide *;
    if From(s.data, o, n) == {} {
      steps := [];
      NothingDone(s);
      NoneCut(s.data);
    } else {
      var t := FirstCut(s, o, n);
      var step := SUnmap(t);
      UnmapCan(s, t);
      FromLess(s.data, o, n, t);
      IsUserStep(step);
      StepDoes(s, step, View(s.objects, s.data - {t}));
      DidInv(s, [step], View(s.objects, s.data - {t}));
      var rest := TruncateObject(After(s, step), o, n);
      ThenDid(s, step, rest, View(s.objects, s.data - {t}), View(s.objects, s.data - From(s.data, o, n)));
      steps := [step] + rest;
    }
  }

  lemma NoneCut(data: map<Slot, Bytes>)
    ensures data - {} == data
  {
  }

  lemma FirstCut(s: State, o: nat, n: nat) returns (t: Slot)
    requires Inv(s) && From(s.data, o, n) != {}
    ensures t in From(s.data, o, n) && t.Block? && t in s.loc
  {
    DataSlots(s);
    hide Inv;
    t :| t in From(s.data, o, n);
  }

  lemma DidInv(s: State, steps: seq<Step>, v: View)
    requires Did(s, steps, v)
    ensures CanRun(s, steps)
    ensures Inv(End(s, steps)) && LockFree(End(s, steps)) && End(s, steps).objects == v.objects && End(s, steps).data == v.data
  {
    hide Inv;
  }

  lemma RemoveCan(s: State, o: nat)
    requires LockFree(s) && o in s.objects && forall t :: t in s.loc && t.Block? ==> t.oid != o
    ensures Can(s, SRemove(o)) && LockFree(After(s, SRemove(o)))
    ensures SimpleStep(Meaning(s), SRemove(o)).current == View(s.objects - {o}, s.data)
  {
  }

  lemma NoneFrom(data: map<Slot, Bytes>, o: nat)
    ensures forall t :: t in data - From(data, o, 0) && t.Block? ==> t.oid != o
  {
  }

  /** Any object may be removed. */
  lemma RemoveObject(s: State, o: nat) returns (steps: seq<Step>)
    requires Inv(s) && LockFree(s) && o in s.objects
    ensures Did(s, steps, View(s.objects - {o}, s.data - From(s.data, o, 0)))
  {
    hide *;
    var cut := TruncateObject(s, o, 0);
    var u := View(s.objects, s.data - From(s.data, o, 0));
    DidInv(s, cut, u);
    var r := End(s, cut);
    DataSlots(r);
    NoneFrom(s.data, o);
    RemoveCan(r, o);
    IsUserStep(SRemove(o));
    var v := View(s.objects - {o}, s.data - From(s.data, o, 0));
    StepDoes(r, SRemove(o), v);
    DidBoth(s, cut, [SRemove(o)], u, v);
    steps := cut + [SRemove(o)];
  }

  lemma DidBoth(s: State, xs: seq<Step>, ys: seq<Step>, u: View, v: View)
    requires Did(s, xs, u) && Did(End(s, xs), ys, v)
    ensures Did(s, xs + ys, v)
  {
    hide Can;
    hide After;
    hide Inv;
    RunJoin(s, xs, ys);
  }

  // ---- cloning ----

  /** What the object `o` is to get from `from`. */
  ghost function Copies(data: map<Slot, Bytes>, from: nat, o: nat): map<Slot, Bytes> {
    map t | t in data && t.Block? && t.oid == from :: Block(o, t.blk) := data[t]
  }

  /** The blocks of `from` are on disk, or on the way there. */
  ghost predicate Settled(s: State, from: nat) {
    forall t :: t in s.data && t.oid == from ==>
      t !in s.owed && t !in s.pending && t in s.loc && Quiet(s.ios, s.loc[t])
  }

  /** What has been copied is as in `from`. */
  ghost predicate Like(data: map<Slot, Bytes>, from: nat, o: nat) {
    forall i: nat :: Block(o, i) in data ==> Block(from, i) in data && data[Block(o, i)] == data[Block(from, i)]
  }

  ghost function Missing(data: map<Slot, Bytes>, from: nat, o: nat): set<Slot> {
    set t | t in data && t.Block? && t.oid == from && Block(o, t.blk) !in data
  }

  lemma CloneCan(s: State, t: Slot, o: nat)
    requires LockFree(s) && Settled(s, t.oid) && t in s.data && t.Block? && o in s.objects && Block(o, t.blk) !in s.loc
    requires t.oid != o
    ensures Can(s, SClone(t, o)) && LockFree(After(s, SClone(t, o)))
    ensures After(s, SClone(t, o)).objects == s.objects
    ensures After(s, SClone(t, o)).data == s.data[Block(o, t.blk) := s.data[t]]
    ensures Settled(After(s, SClone(t, o)), t.oid)
    ensures SimpleStep(Meaning(s), SClone(t, o)).current == View(s.objects, s.data[Block(o, t.blk) := s.data[t]])
  {
  }

  lemma MissingLess(data: map<Slot, Bytes>, t: Slot, o: nat)
    requires t in Missing(data, t.oid, o) && t.oid != o && Like(data, t.oid, o)
    ensures var more := data[Block(o, t.blk) := data[t]];
            && Missing(more, t.oid, o) == Missing(data, t.oid, o) - {t} && Like(more, t.oid, o)
            && |Missing(more, t.oid, o)| < |Missing(data, t.oid, o)|
            && more + Copies(more, t.oid, o) == data + Copies(data, t.oid, o)
  {
    var more := data[Block(o, t.blk) := data[t]];
    assert Missing(more, t.oid, o) == Missing(data, t.oid, o) - {t};
    FewerSlots(Missing(data, t.oid, o), t);
    assert Copies(more, t.oid, o) == Copies(data, t.oid, o);
    assert Block(o, t.blk) in Copies(data, t.oid, o);
  }

  lemma NoneMissing(data: map<Slot, Bytes>, from: nat, o: nat)
    requires Missing(data, from, o) == {} && Like(data, from, o)
    ensures data + Copies(data, from, o) == data
  {
    forall t | t in Copies(data, from, o) ensures t in data && data[t] == Copies(data, from, o)[t] {
      assert Block(from, t.blk) !in Missing(data, from, o);
    }
  }

  lemma CloneRest(s: State, from: nat, o: nat) returns (steps: seq<Step>)
    requires Inv(s) && LockFree(s) && from != o && o in s.objects && Settled(s, from) && Like(s.data, from, o)
    ensures Did(s, steps, View(s.objects, s.data + Copies(s.data, from, o)))
    decreases |Missing(s.data, from, o)|
  {
    DataSlots(s);
    if Missing(s.data, from, o) == {} {
      steps := [];
      NothingDone(s);
      NoneMissing(s.data, from, o);
    } else {
      var t :| t in Missing(s.data, from, o);
      assert t.Block? && t.oid == from && t in s.data && Block(o, t.blk) !in s.loc;
      hide *;
      var step := SClone(t, o);
      CloneCan(s, t, o);
      MissingLess(s.data, t, o);
      IsUserStep(step);
      var u := View(s.objects, s.data[Block(o, t.blk) := s.data[t]]);
      StepDoes(s, step, u);
      DidInv(s, [step], u);
      var rest := CloneRest(After(s, step), from, o);
      ThenDid(s, step, rest, u, View(s.objects, s.data + Copies(s.data, from, o)));
      steps := [step] + rest;
    }
  }

  lemma CreateCan(s: State, o: nat)
    requires LockFree(s) && o !in s.objects
    ensures Can(s, SCreate(o)) && LockFree(After(s, SCreate(o)))
    ensures forall from: nat :: Settled(s, from) ==> Settled(After(s, SCreate(o)), from)
    ensures SimpleStep(Meaning(s), SCreate(o)).current == View(s.objects + {o}, s.data)
  {
  }

  lemma NewIsLike(s: State, from: nat, o: nat)
    requires Inv(s) && o !in s.objects
    ensures Like(s.data, from, o)
  {
    DataSlots(s);
  }

  /** Any object may be cloned whose blocks are settled; the clone has the same contents. No block is
      needed for it. */
  lemma CloneObject(s: State, from: nat, o: nat) returns (steps: seq<Step>)
    requires Inv(s) && LockFree(s) && from in s.objects && o !in s.objects && Settled(s, from)
    ensures Did(s, steps, View(s.objects + {o}, s.data + Copies(s.data, from, o)))
  {
    hide *;
    var step := SCreate(o);
    CreateCan(s, o);
    NewIsLike(s, from, o);
    IsUserStep(step);
    var u := View(s.objects + {o}, s.data);
    StepDoes(s, step, u);
    DidInv(s, [step], u);
    var rest := CloneRest(After(s, step), from, o);
    ThenDid(s, step, rest, u, View(s.objects + {o}, s.data + Copies(s.data, from, o)));
    steps := [step] + rest;
  }
}
