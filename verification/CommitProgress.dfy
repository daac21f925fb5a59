/** Nothing can keep a commit from being carried through: from every reachable state in which the
    commit thread is idle there are steps of the device and of the commit thread after which what the
    store holds is durable. */
module CommitProgress {
  import opened Extents
  import opened AllocatorSpec
  import opened InFlight
  import opened References
  import opened ObjectStore
  import opened StoreInvariant
  import opened CrashSafety
  import opened Operations

  /** What happens without any new operation: queued blocks and blocks that have been read are written,
      the device completes writes, and the commit thread goes on. */
  predicate Background(steps: seq<Step>) {
    forall k :: 0 <= k < |steps| ==>
      Commits(steps[k]) || steps[k].SComplete? || steps[k].SWrite? || steps[k].SFinishPartial?
  }

  /** Steps that change none of the three pictures. */
  predicate Unseen(steps: seq<Step>) {
    forall k :: 0 <= k < |steps| ==>
      steps[k].SComplete? || steps[k].SWrite? || steps[k].SFinishPartial? || steps[k].SFlushOnode? || steps[k].SPrepare?
  }

  lemma {:induction false} RunJoin(s: State, xs: seq<Step>, ys: seq<Step>)
    requires CanRun(s, xs) && CanRun(End(s, xs), ys)
    ensures CanRun(s, xs + ys) && End(s, xs + ys) == End(End(s, xs), ys)
    decreases |xs|
  {
    hide Can;
    hide After;
    if xs == [] {
      assert xs + ys == ys;
    } else {
      assert (xs + ys)[1..] == xs[1..] + ys;
      RunJoin(After(s, xs[0]), xs[1..], ys);
    }
  }

  lemma RunOne(s: State, step: Step)
    requires Can(s, step)
    ensures CanRun(s, [step]) && End(s, [step]) == After(s, step)
  {
    hide Can;
    hide After;
    assert CanRun(After(s, step), []);
  }

  lemma StepOn(s: State, step: Step)
    requires Inv(s) && Can(s, step)
    ensures CanRun(s, [step]) && End(s, [step]) == After(s, step)
    ensures Inv(After(s, step)) && Meaning(After(s, step)) == SimpleStep(Meaning(s), step)
  {
    hide *;
    RunOne(s, step);
    StepKeeps(s, step);
    StepMeans(s, step);
  }

  lemma {:induction false} UnseenSimple(a: Simple, steps: seq<Step>)
    requires Unseen(steps)
    ensures SimpleEnd(a, steps) == a
    decreases |steps|
  {
    if steps != [] {
      UnseenSimple(a, steps[1..]);
    }
  }

  lemma UnseenMeaning(s: State, steps: seq<Step>)
    requires Inv(s) && CanRun(s, steps) && Unseen(steps)
    ensures Inv(End(s, steps)) && Meaning(End(s, steps)) == Meaning(s)
  {
    hide *;
    RunKeeps(s, steps);
    RunRefines(s, steps);
    UnseenSimple(Meaning(s), steps);
  }

  // ---- before the commit ----

  /** The same phase, and the same work for the commit thread. */
  ghost predicate SameWork(s: State, r: State) {
    r.phase == s.phase && r.epoch == s.epoch && r.dirty == s.dirty && r.space == s.space
  }

  lemma FinishOne(s: State, t: Slot)
    requires LockFree(s) && t in s.pending
    ensures Can(s, SFinishPartial(t))
    ensures var r := After(s, SFinishPartial(t)); SameWork(s, r) && r.pending == s.pending - {t}
  {
  }

  lemma FewerPending(m: map<Slot, Pending>, t: Slot)
    requires t in m
    ensures |m - {t}| < |m|
  {
    assert (m - {t}).Keys == m.Keys - {t};
    assert m.Keys == (m.Keys - {t}) + {t};
  }

  lemma FinishAll(s: State) returns (steps: seq<Step>)
    requires Inv(s) && LockFree(s)
    ensures CanRun(s, steps) && Unseen(steps) && Background(steps)
    ensures SameWork(s, End(s, steps)) && End(s, steps).pending == map[]
    decreases |s.pending|
  {
    hide Inv;
    if s.pending == map[] {
      steps := [];
    } else {
      var t :| t in s.pending;
      var step := SFinishPartial(t);
      FinishOne(s, t);
      FewerPending(s.pending, t);
      StepKeeps(s, step);
      hide Can;
      hide After;
      var more := FinishAll(After(s, step));
      RunOne(s, step);
      RunJoin(s, [step], more);
      steps := [step] + more;
    }
  }

  lemma WriteOne(s: State, t: Slot)
    requires Inv(s) && LockFree(s) && t in s.owed
    ensures Can(s, SWrite(t))
    ensures var r := After(s, SWrite(t)); SameWork(s, r) && r.owed == s.owed - {t} && r.pending == s.pending
  {
    hide Inv;
    GuardsSuffice(s, t, 0);
  }

  lemma FewerSlots(a: set<Slot>, t: Slot)
    requires t in a
    ensures |a - {t}| < |a|
  {
    assert a == (a - {t}) + {t};
  }

  lemma WriteAll(s: State) returns (steps: seq<Step>)
    requires Inv(s) && LockFree(s)
    ensures CanRun(s, steps) && Unseen(steps) && Background(steps)
    ensures SameWork(s, End(s, steps)) && End(s, steps).owed == {} && End(s, steps).pending == s.pending
    decreases |s.owed|
  {
    hide Inv;
    if s.owed == {} {
      steps := [];
    } else {
      var t :| t in s.owed;
      var step := SWrite(t);
      WriteOne(s, t);
      FewerSlots(s.owed, t);
      StepKeeps(s, step);
      hide Can;
      hide After;
      var more := WriteAll(After(s, step));
      RunOne(s, step);
      RunJoin(s, [step], more);
      steps := [step] + more;
    }
  }

  // ---- the onodes ----

  lemma FlushOne(s: State, o: nat, b: nat)
    requires s.phase.Starting? && o in s.dirty && b in s.space.free
    ensures Can(s, SFlushOnode(o, b))
    ensures var r := After(s, SFlushOnode(o, b));
            r.phase == s.phase && r.epoch == s.epoch && r.dirty == s.dirty - {o} && r.space.free == s.space.free - {b}
  {
  }

  lemma FewerNumbers(a: set<nat>, x: nat)
    requires x in a
    ensures |a - {x}| == |a| - 1
  {
    assert a == (a - {x}) + {x};
  }

  lemma FlushAll(s: State) returns (steps: seq<Step>)
    requires Inv(s) && s.phase.Starting? && |s.dirty| <= |s.space.free|
    ensures CanRun(s, steps) && Unseen(steps) && Background(steps)
    ensures End(s, steps).phase.Starting? && End(s, steps).dirty == {} && End(s, steps).epoch == s.epoch
    decreases |s.dirty|
  {
    hide Inv;
    if s.dirty == {} {
      steps := [];
    } else {
      var o :| o in s.dirty;
      assert s.space.free != {};
      var b :| b in s.space.free;
      var step := SFlushOnode(o, b);
      FlushOne(s, o, b);
      FewerNumbers(s.dirty, o);
      FewerNumbers(s.space.free, b);
      hide *;
      StepKeeps(s, step);
      var more := FlushAll(After(s, step));
      RunOne(s, step);
      RunJoin(s, [step], more);
      FlushMore(o, b, more);
      steps := [step] + more;
    }
  }

  lemma FlushMore(o: nat, b: nat, more: seq<Step>)
    requires Unseen(more) && Background(more)
    ensures Unseen([SFlushOnode(o, b)] + more) && Background([SFlushOnode(o, b)] + more)
  {
  }

  // ---- the writes ----

  lemma CompleteOne(s: State, id: nat)
    requires id in s.ios && forall j :: j in s.ios ==> id <= j
    ensures Can(s, SComplete(id))
    ensures var r := After(s, SComplete(id)); r.phase == s.phase && r.epoch == s.epoch && r.ios == s.ios - {id}
  {
  }

  lemma FewerIos(ios: Ios, id: nat)
    requires id in ios
    ensures |ios - {id}| < |ios|
  {
    assert (ios - {id}).Keys == ios.Keys - {id};
    assert ios.Keys == (ios.Keys - {id}) + {id};
  }

  lemma CompleteAll(s: State) returns (steps: seq<Step>)
    requires Inv(s)
    ensures CanRun(s, steps) && Unseen(steps) && Background(steps)
    ensures End(s, steps).phase == s.phase && End(s, steps).epoch == s.epoch && End(s, steps).ios == map[]
    decreases |s.ios|
  {
    hide Inv;
    if s.ios == map[] {
      steps := [];
    } else {
      var x :| x in s.ios;
      LeastExists(s.ios.Keys, x);
      var id :| Least(s.ios.Keys, id);
      var step := SComplete(id);
      CompleteOne(s, id);
      FewerIos(s.ios, id);
      StepKeeps(s, step);
      hide Can;
      hide After;
      var more := CompleteAll(After(s, step));
      RunOne(s, step);
      RunJoin(s, [step], more);
      steps := [step] + more;
    }
  }

  // ---- the commit ----

  lemma DrainStart(s: State)
    requires s.phase.Idle? && s.owed == {} && s.pending == map[]
    ensures Can(s, SDrain) && Can(After(s, SDrain), SStart)
    ensures var r := After(After(s, SDrain), SStart);
            r.phase.Starting? && r.epoch > 0 && r.dirty == s.dirty && r.space == s.space
  {
  }

  lemma BeginsSimple(a: Simple)
    ensures SimpleStep(SimpleStep(a, SDrain), SStart) == a.(cut := Some(a.current))
  {
  }

  /** An idle commit thread may begin an epoch. */
  lemma Begins(s: State) returns (steps: seq<Step>)
    requires Inv(s) && s.phase.Idle? && s.owed == {} && s.pending == map[]
    ensures CanRun(s, steps) && Background(steps)
    ensures var r := End(s, steps);
            && Inv(r) && r.phase.Starting? && r.epoch > 0 && r.dirty == s.dirty && r.space == s.space
            && Meaning(r) == Meaning(s).(cut := Some(Meaning(s).current))
  {
    DrainStart(s);
    BeginsSimple(Meaning(s));
    steps := [SDrain] + [SStart];
    assert Background(steps);
    hide *;
    StepOn(s, SDrain);
    StepOn(After(s, SDrain), SStart);
    RunJoin(s, [SDrain], [SStart]);
  }

  lemma WaitsOver(s: State)
    requires Inv(s) && s.phase.Flushing? && s.epoch > 0 && s.ios == map[]
    ensures Can(s, SFinishFlush)
  {
    hide Shape;
    hide Coherent;
    hide LastOk;
    hide NextOk;
    hide RefCounts;
    hide PendingOk;
    var e: nat := s.epoch - 1;
    CountZero(s.ios, s.unflushed, s.flushing, e);
  }

  lemma SuperSteps(s: State)
    requires s.phase.Flushing?
    ensures Can(s, SFinishFlush) ==> Can(After(s, SFinishFlush), SWriteSuper)
    ensures Can(s, SFinishFlush) ==> Can(After(After(s, SFinishFlush), SWriteSuper), SFinishCommit)
    ensures Can(s, SFinishFlush) ==> After(After(After(s, SFinishFlush), SWriteSuper), SFinishCommit).phase.Idle?
  {
  }

  lemma EndsSimple(a: Simple)
    requires a.cut.Some?
    ensures SimpleStep(SimpleStep(SimpleStep(a, SFinishFlush), SWriteSuper), SFinishCommit)
            == a.(durable := a.cut.value, cut := None)
  {
  }

  /** With nothing in flight, a commit comes to its end. */
  lemma Ends(s: State) returns (steps: seq<Step>)
    requires Inv(s) && s.phase.Flushing? && s.epoch > 0 && s.ios == map[] && Meaning(s).cut.Some?
    ensures CanRun(s, steps) && Background(steps)
    ensures var r := End(s, steps);
            && Inv(r) && r.phase.Idle?
            && Meaning(r).current == Meaning(s).current && Meaning(r).durable == Meaning(s).cut.value
  {
    hide Inv;
    hide Meaning;
    SuperSteps(s);
    EndsSimple(Meaning(s));
    steps := ([SFinishFlush] + [SWriteSuper]) + [SFinishCommit];
    assert Background(steps);
    hide *;
    WaitsOver(s);
    var a := After(s, SFinishFlush);
    var b := After(a, SWriteSuper);
    StepOn(s, SFinishFlush);
    StepOn(a, SWriteSuper);
    StepOn(b, SFinishCommit);
    RunJoin(s, [SFinishFlush], [SWriteSuper]);
    RunJoin(s, [SFinishFlush] + [SWriteSuper], [SFinishCommit]);
  }

  lemma Prepares(s: State)
    requires s.phase.Starting? && s.dirty == {}
    ensures Can(s, SPrepare) && After(s, SPrepare).phase.Flushing? && After(s, SPrepare).epoch == s.epoch
    ensures Unseen([SPrepare]) && Background([SPrepare])
  {
  }

  /** From the beginning of an epoch to the point where nothing is in flight. */
  lemma Flushes(s: State) returns (steps: seq<Step>)
    requires Inv(s) && s.phase.Starting? && s.epoch > 0 && |s.dirty| <= |s.space.free|
    ensures CanRun(s, steps) && Background(steps)
    ensures var r := End(s, steps);
            Inv(r) && r.phase.Flushing? && r.epoch > 0 && r.ios == map[] && Meaning(r) == Meaning(s)
  {
    hide *;
    var xs := FlushAll(s);
    UnseenMeaning(s, xs);
    var a := End(s, xs);
    Prepares(a);
    StepOn(a, SPrepare);
    UnseenMeaning(a, [SPrepare]);
    RunJoin(s, xs, [SPrepare]);
    var b := After(a, SPrepare);
    var ys := CompleteAll(b);
    UnseenMeaning(b, ys);
    RunJoin(s, xs + [SPrepare], ys);
    BothBackground(xs, [SPrepare]);
    BothBackground(xs + [SPrepare], ys);
    steps := (xs + [SPrepare]) + ys;
  }

  lemma BothBackground(xs: seq<Step>, ys: seq<Step>)
    requires Background(xs) && Background(ys)
    ensures Background(xs + ys)
  {
  }

  /** Whatever the store holds can be made durable, without any new operation, as long as there is a
      free block for each onode that has changed. */
  lemma CommitCompletes(s: State) returns (steps: seq<Step>)
    requires Inv(s) && s.phase.Idle? && |s.dirty| <= |s.space.free|
    ensures CanRun(s, steps) && Background(steps)
    ensures var r := End(s, steps);
            Inv(r) && r.phase.Idle? && Meaning(r).current == Meaning(r).durable == Meaning(s).current
  {
    hide Inv;
    hide Meaning;
    hide CanRun;
    hide End;
    hide Background;
    var p := FinishAll(s);
    UnseenMeaning(s, p);
    var a := End(s, p);
    var w := WriteAll(a);
    UnseenMeaning(a, w);
    var b := End(a, w);
    var x := Begins(b);
    var c := End(b, x);
    var y := Flushes(c);
    var d := End(c, y);
    var z := Ends(d);
    RunJoin(s, p, w);
    RunJoin(s, p + w, x);
    RunJoin(s, p + w + x, y);
    RunJoin(s, p + w + x + y, z);
    BothBackground(p, w);
    BothBackground(p + w, x);
    BothBackground(p + w + x, y);
    BothBackground(p + w + x + y, z);
    steps := p + w + x + y + z;
  }

  // ---- a write that survives ----

  lemma CreateAndPlace(free: set<nat>, disk: Disk, o: nat, i: nat, b: nat, bytes: Bytes) returns (steps: seq<Step>)
    requires b in free
    ensures CanRun(Fresh(free, disk), steps)
    ensures var r := End(Fresh(free, disk), steps);
            && r.phase.Idle? && r.dirty == {o} && r.space.free == free - {b}
            && Held(r) == View({o}, map[Block(o, i) := bytes])
  {
    var s := Fresh(free, disk);
    var a := After(s, SCreate(o));
    assert Can(s, SCreate(o)) && Can(a, SPlace(Block(o, i), b, bytes));
    RunOne(s, SCreate(o));
    RunOne(a, SPlace(Block(o, i), b, bytes));
    RunJoin(s, [SCreate(o)], [SPlace(Block(o, i), b, bytes)]);
    steps := [SCreate(o)] + [SPlace(Block(o, i), b, bytes)];
  }

  /** A block can be written to a new store and survive a crash, if two blocks are free: after some
      steps, whatever the crash does to the blocks that are being written, the object is there. */
  lemma WriteSurvives(free: set<nat>, disk: Disk, o: nat, i: nat, bytes: Bytes) returns (steps: seq<Step>)
    requires |free| >= 2
    ensures CanRun(Fresh(free, disk), steps)
    ensures var s := End(Fresh(free, disk), steps);
            forall torn: Disk :: Torn(s, torn) ==>
              Can(s, SCrash(torn)) && Held(After(s, SCrash(torn))) == View({o}, map[Block(o, i) := bytes])
  {
    assert free != {};
    var b :| b in free;
    FewerNumbers(free, b);
    var f := Fresh(free, disk);
    var x := CreateAndPlace(free, disk, o, i, b, bytes);
    var s := End(f, x);
    FreshInv(free, disk);
    RunKeeps(f, x);
    hide Fresh;
    hide Inv;
    OneDirty(o);
    var y := CommitCompletes(s);
    RunJoin(f, x, y);
    steps := x + y;
    var r := End(s, y);
    MeaningHolds(s);
    hide Meaning;
    forall torn: Disk | Torn(r, torn)
      ensures Can(r, SCrash(torn)) && Held(After(r, SCrash(torn))) == View({o}, map[Block(o, i) := bytes])
    {
      AfterCrash(r, torn);
    }
  }

  lemma OneDirty(o: nat)
    ensures |{o}| == 1
  {
  }

  lemma AfterCrash(s: State, torn: Disk)
    requires Inv(s) && Torn(s, torn)
    ensures Can(s, SCrash(torn)) && Held(After(s, SCrash(torn))) == Meaning(s).durable
  {
    CanCrash(s, torn);
    CrashSimple(Meaning(s), torn);
    hide *;
    StepOn(s, SCrash(torn));
    MeaningHolds(After(s, SCrash(torn)));
  }

  lemma CanCrash(s: State, torn: Disk)
    requires Inv(s) && Torn(s, torn)
    ensures Can(s, SCrash(torn))
  {
    hide Inv;
    hide Torn;
    GuardsSuffice(s, Inode(0), 0);
  }

  lemma CrashSimple(a: Simple, torn: Disk)
    ensures SimpleStep(a, SCrash(torn)).current == a.durable
  {
  }
}
