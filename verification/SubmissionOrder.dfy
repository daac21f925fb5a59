/** In which order the device carries out the requests for one block (src/ebofs/BlockDevice.cc): requests
    wait in queues that barriers keep apart, and a request that has started locks its block. A request
    for several blocks counts as one request per block here. */
module SubmissionOrder {
  import opened Extents
  import CacheCoherence
  import opened StaleReads

  /** A request for a block, submitted after `era` barriers. */
  datatype Request = Request(block: nat, era: nat, started: bool)

  /** Requests by number, in the order of submission. */
  datatype State = State(reqs: map<nat, Request>, next: nat, now: nat)

  datatype Step =
    | DoSubmit(b: nat)
    | DoBarrier
    | DoStart(id: nat)
    | DoCancel(id: nat)
    | DoFinish(id: nat)

  /** A request may start if none from before an earlier barrier is queued, and its block is not locked. */
  ghost predicate CanStart(s: State, id: nat) {
    && id in s.reqs && !s.reqs[id].started
    && (forall j :: j in s.reqs && !s.reqs[j].started ==> s.reqs[id].era <= s.reqs[j].era)
    && (forall j :: j in s.reqs && s.reqs[j].started ==> s.reqs[j].block != s.reqs[id].block)
  }

  ghost predicate Can(s: State, step: Step) {
    match step
    case DoSubmit(_) => true
    case DoBarrier => true
    case DoStart(id) => CanStart(s, id)
    case DoCancel(id) => id in s.reqs && !s.reqs[id].started
    case DoFinish(id) => id in s.reqs && s.reqs[id].started
  }

  ghost function After(s: State, step: Step): State
    requires Can(s, step)
  {
    match step
    case DoSubmit(b) => s.(reqs := s.reqs[s.next := Request(b, s.now, false)], next := s.next + 1)
    case DoBarrier => s.(now := s.now + 1)
    case DoStart(id) => s.(reqs := s.reqs[id := s.reqs[id].(started := true)])
    case DoCancel(id) => s.(reqs := s.reqs - {id})
    case DoFinish(id) => s.(reqs := s.reqs - {id})
  }

  /** What a caller of submit_io has to see to: nothing is queued for the block behind the last barrier.
      The assertion in submit_io asks it of the first block of the request. */
  ghost predicate Clear(s: State, step: Step) {
    step.DoSubmit? ==> forall j :: j in s.reqs && s.reqs[j].block == step.b ==> s.reqs[j].started || s.reqs[j].era != s.now
  }

  ghost predicate InOrder(s: State, i: nat, j: nat)
    requires i in s.reqs && j in s.reqs
  {
    i < j && s.reqs[i].block == s.reqs[j].block ==>
      !s.reqs[j].started && (s.reqs[i].started || s.reqs[i].era < s.reqs[j].era)
  }

  ghost predicate Sound(s: State) {
    && (forall id :: id in s.reqs ==> id < s.next && s.reqs[id].era <= s.now)
    && (forall i, j :: i in s.reqs && j in s.reqs ==> InOrder(s, i, j))
  }

  /** Every step keeps the requests for each block in order, except a submission that does not find
      the block clear: that one never does. */
  lemma StepKeeps(s: State, step: Step)
    requires Sound(s) && Can(s, step)
    ensures Sound(After(s, step)) <==> Clear(s, step)
  {
    var r := After(s, step);
    if Clear(s, step) {
      forall i, j | i in r.reqs && j in r.reqs ensures InOrder(r, i, j) {
        if i in s.reqs && j in s.reqs {
          assert InOrder(s, i, j);
        }
      }
    } else {
      var j :| j in s.reqs && s.reqs[j].block == step.b && !s.reqs[j].started && s.reqs[j].era == s.now;
      assert !InOrder(r, j, s.next);
    }
  }

  ghost predicate CanRun(s: State, steps: seq<Step>)
    decreases |steps|
  {
    steps != [] ==> Can(s, steps[0]) && CanRun(After(s, steps[0]), steps[1..])
  }

  ghost predicate AllClear(s: State, steps: seq<Step>)
    requires CanRun(s, steps)
    decreases |steps|
  {
    steps != [] ==> Clear(s, steps[0]) && AllClear(After(s, steps[0]), steps[1..])
  }

  ghost function End(s: State, steps: seq<Step>): State
    requires CanRun(s, steps)
    decreases |steps|
  {
    if steps == [] then s else End(After(s, steps[0]), steps[1..])
  }

  lemma {:induction false} RunKeeps(s: State, steps: seq<Step>)
    requires Sound(s) && CanRun(s, steps) && AllClear(s, steps)
    ensures Sound(End(s, steps))
    decreases |steps|
  {
    hide Sound;
    hide Can;
    hide After;
    hide Clear;
    if steps != [] {
      StepKeeps(s, steps[0]);
      RunKeeps(After(s, steps[0]), steps[1..]);
    }
  }

  /** If every submission finds its block clear, then whatever barriers, cancels and starts there are,
      the request that finishes is the oldest one for its block. */
  lemma FinishesInOrder(steps: seq<Step>, id: nat)
    requires CanRun(State(map[], 0, 0), steps) && AllClear(State(map[], 0, 0), steps)
    requires Can(End(State(map[], 0, 0), steps), DoFinish(id))
    ensures var s := End(State(map[], 0, 0), steps);
            forall j :: j in s.reqs && s.reqs[j].block == s.reqs[id].block ==> id <= j
  {
    hide CanRun;
    hide End;
    hide AllClear;
    RunKeeps(State(map[], 0, 0), steps);
    var s := End(State(map[], 0, 0), steps);
    forall j | j in s.reqs && s.reqs[j].block == s.reqs[id].block ensures id <= j {
      assert InOrder(s, j, id);
    }
  }

  /** If one does not, and nothing keeps the device from starting it, it may finish first. */
  lemma UnclearOvertakes(s: State, b: nat, j: nat)
    requires Sound(s) && j in s.reqs && s.reqs[j] == Request(b, s.now, false) && CanStart(s, j)
    ensures !Clear(s, DoSubmit(b))
    ensures var r := After(s, DoSubmit(b));
            && Can(r, DoStart(s.next)) && Can(After(r, DoStart(s.next)), DoFinish(s.next))
            && j in After(After(r, DoStart(s.next)), DoFinish(s.next)).reqs && j < s.next
  {
  }

  // ---- every request is carried out ----

  /** Only what is queued starts, and only what has started finishes. */
  ghost predicate DeviceOnly(steps: seq<Step>) {
    forall k :: 0 <= k < |steps| ==> steps[k].DoStart? || steps[k].DoFinish?
  }

  ghost predicate Begun(s: State, id: nat) {
    id in s.reqs && s.reqs[id].started
  }

  ghost predicate Earliest(s: State, id: nat) {
    id in s.reqs && forall j :: j in s.reqs ==> s.reqs[id].era <= s.reqs[j].era
  }

  /** A request from before all barriers that matter. */
  lemma EarliestExists(s: State, x: nat)
    requires x in s.reqs
    ensures exists id: nat :: Earliest(s, id)
    decreases s.reqs[x].era
  {
    if j :| j in s.reqs && s.reqs[j].era < s.reqs[x].era {
      EarliestExists(s, j);
    } else {
      assert Earliest(s, x);
    }
  }

  lemma FewerLeft(m: map<nat, Request>, id: nat)
    requires id in m
    ensures |m - {id}| == |m| - 1
  {
    assert (m - {id}).Keys == m.Keys - {id};
  }

  lemma RunFirst(s: State, step: Step, rest: seq<Step>)
    requires Can(s, step) && CanRun(After(s, step), rest)
    ensures CanRun(s, [step] + rest) && End(s, [step] + rest) == End(After(s, step), rest)
  {
    hide Can;
    hide After;
    assert ([step] + rest)[1..] == rest;
  }

  /** Barriers and locks keep no request waiting for ever: whatever is queued or in flight, the device
      can carry all of it out, in the order of the eras. */
  lemma {:induction false} EverythingFinishes(s: State) returns (steps: seq<Step>)
    ensures DeviceOnly(steps) && CanRun(s, steps) && End(s, steps) == s.(reqs := map[])
    decreases |s.reqs|
  {
    if id: nat :| Begun(s, id) {
      FewerLeft(s.reqs, id);
      var rest := EverythingFinishes(After(s, DoFinish(id)));
      RunFirst(s, DoFinish(id), rest);
      steps := [DoFinish(id)] + rest;
    } else if x: nat :| x in s.reqs {
      EarliestExists(s, x);
      var id: nat :| Earliest(s, id);
      assert CanStart(s, id) by {
        assert forall j: nat :: j in s.reqs ==> !Begun(s, j);
      }
      var t := After(s, DoStart(id));
      assert t.reqs - {id} == s.reqs - {id};
      FewerLeft(s.reqs, id);
      var rest := EverythingFinishes(s.(reqs := s.reqs - {id}));
      assert After(t, DoFinish(id)) == s.(reqs := s.reqs - {id});
      RunFirst(t, DoFinish(id), rest);
      RunFirst(s, DoStart(id), [DoFinish(id)] + rest);
      steps := [DoStart(id)] + ([DoFinish(id)] + rest);
    } else {
      assert s.reqs == map[];
      steps := [];
    }
  }

  // ---- a block that is not clear ----

  /** Block 0 is written, flushed and evicted, and read again; then it is overwritten in place. */
  ghost function MeetingRun(): seq<CacheCoherence.Step> {
    [CacheCoherence.DoRead(1)] + ([CacheCoherence.DoFinishRead(0, [], false)] + ([CacheCoherence.DoOverwrite(0, 6, X())]
      + ([CacheCoherence.DoFinishWrite(1)] + ([CacheCoherence.DoEvict(0)] + ([CacheCoherence.DoRead(0)]
      + ([CacheCoherence.DoOverwrite(0, 6, Y())] + []))))))
  }

  ghost function Meet3(): CacheCoherence.State {
    Run2().(cells := map[1 := One, 0 := CacheCoherence.Cached(CacheCoherence.Tx, 1, Some(X()))],
            loc := map[0 := 6, 1 := 7], writes := map[1 := CacheCoherence.WriteReq(0, 6, X(), 1, 0)],
            csum := map[0 := CacheCoherence.Csum(X()), 1 := CacheCoherence.Csum(X())],
            next := 2, writeCount := 1)
  }
  ghost function Meet4(): CacheCoherence.State {
    Meet3().(cells := map[1 := One, 0 := CacheCoherence.Cached(CacheCoherence.Clean, 1, Some(X()))], writes := map[],
             disk := map[5 := X(), 7 := X(), 6 := X()])
  }
  ghost function Meet5(): CacheCoherence.State {
    Meet4().(cells := map[1 := One])
  }
  ghost function Meet6(): CacheCoherence.State {
    Meet5().(cells := map[1 := One, 0 := CacheCoherence.Cached(CacheCoherence.Rx, 0, None)],
             fetches := map[2 := CacheCoherence.ReadReq(0, 6, 0)], next := 3)
  }
  ghost function Meet7(): CacheCoherence.State {
    Meet6().(cells := map[1 := One, 0 := CacheCoherence.Cached(CacheCoherence.Tx, 2, Some(Y()))],
             writes := map[3 := CacheCoherence.WriteReq(0, 6, Y(), 2, 0)],
             csum := map[0 := CacheCoherence.Csum(Y()), 1 := CacheCoherence.Csum(X())], next := 4, writeCount := 2)
  }

  lemma ToMeet3()
    ensures CacheCoherence.Can(Run2(), CacheCoherence.DoOverwrite(0, 6, X()))
    ensures CacheCoherence.After(Run2(), CacheCoherence.DoOverwrite(0, 6, X())) == Meet3()
  {
    hide X;
    hide CacheCoherence.Csum;
    assert CacheCoherence.Quiet(Run2().writes, 6);
    assert Run2().loc[0 := 6] == map[0 := 6, 1 := 7];
    assert Run2().csum[0 := CacheCoherence.Csum(X())] == Meet3().csum;
    assert Run2().cells[0 := CacheCoherence.Cached(CacheCoherence.Tx, 1, Some(X()))] == Meet3().cells;
  }
  lemma ToMeet4()
    ensures CacheCoherence.Can(Meet3(), CacheCoherence.DoFinishWrite(1))
    ensures CacheCoherence.After(Meet3(), CacheCoherence.DoFinishWrite(1)) == Meet4()
  {
    hide X;
    hide CacheCoherence.Csum;
    assert Meet3().writes - {1} == map[];
  }
  lemma ToMeet5()
    ensures CacheCoherence.Can(Meet4(), CacheCoherence.DoEvict(0))
    ensures CacheCoherence.After(Meet4(), CacheCoherence.DoEvict(0)) == Meet5()
  {
    hide X;
    hide CacheCoherence.Csum;
    assert Meet4().cells - {0} == map[1 := One];
    assert 1 in map[1 := One];
  }
  lemma ToMeet6()
    ensures CacheCoherence.Can(Meet5(), CacheCoherence.DoRead(0))
    ensures CacheCoherence.After(Meet5(), CacheCoherence.DoRead(0)) == Meet6()
  {
    hide X;
    hide CacheCoherence.Csum;
  }
  lemma ToMeet7()
    ensures CacheCoherence.Can(Meet6(), CacheCoherence.DoOverwrite(0, 6, Y()))
    ensures CacheCoherence.After(Meet6(), CacheCoherence.DoOverwrite(0, 6, Y())) == Meet7()
  {
    Meet6Is();
    hide X;
    hide Y;
    hide CacheCoherence.Csum;
    hide CacheCoherence.Quiet;
    hide Meet6;
    var s := Meet6();
    var c := CacheCoherence.Cached(CacheCoherence.Tx, 2, Some(Y()));
    assert s.loc[0 := 6] == s.loc;
    assert s.csum[0 := CacheCoherence.Csum(Y())] == map[0 := CacheCoherence.Csum(Y()), 1 := CacheCoherence.Csum(X())];
    assert s.cells[0 := c] == map[1 := One, 0 := c];
  }

  lemma Meet6Is()
    ensures Meet6() == CacheCoherence.State(
      map[1 := One, 0 := CacheCoherence.Cached(CacheCoherence.Rx, 0, None)], map[0 := 6, 1 := 7], map[],
      map[2 := CacheCoherence.ReadReq(0, 6, 0)], 3, map[5 := X(), 7 := X(), 6 := X()],
      map[0 := CacheCoherence.Csum(X()), 1 := CacheCoherence.Csum(X())], 1, 0, true)
  {
    hide X;
    hide CacheCoherence.Csum;
  }

  /** At the end of that run a read and a write of disk block 6 have been submitted, one right after
      the other: if the device has not started the read, the block is not clear for the write. */
  lemma ReadMeetsWrite()
    ensures CacheCoherence.CanRun(Before(), MeetingRun()) && CacheCoherence.End(Before(), MeetingRun()) == Meet7()
    ensures 2 in Meet7().fetches && 3 in Meet7().writes && Meet7().fetches[2].block == Meet7().writes[3].block == 6
  {
    hide *;
    Stale1();
    Stale2();
    ToMeet3();
    ToMeet4();
    ToMeet5();
    ToMeet6();
    ToMeet7();
    TheyMeet();
    NoSteps(Meet7());
    var r7: seq<CacheCoherence.Step> := [];
    var r6 := [CacheCoherence.DoOverwrite(0, 6, Y())] + r7;
    var r5 := [CacheCoherence.DoRead(0)] + r6;
    var r4 := [CacheCoherence.DoEvict(0)] + r5;
    var r3 := [CacheCoherence.DoFinishWrite(1)] + r4;
    var r2 := [CacheCoherence.DoOverwrite(0, 6, X())] + r3;
    var r1 := [CacheCoherence.DoFinishRead(0, [], false)] + r2;
    Then(Meet6(), CacheCoherence.DoOverwrite(0, 6, Y()), Meet7(), r7);
    Then(Meet5(), CacheCoherence.DoRead(0), Meet6(), r6);
    Then(Meet4(), CacheCoherence.DoEvict(0), Meet5(), r5);
    Then(Meet3(), CacheCoherence.DoFinishWrite(1), Meet4(), r4);
    Then(Run2(), CacheCoherence.DoOverwrite(0, 6, X()), Meet3(), r3);
    Then(Run1(), CacheCoherence.DoFinishRead(0, [], false), Run2(), r2);
    Then(Before(), CacheCoherence.DoRead(1), Run1(), r1);
    MeetingRunIs();
  }

  lemma TheyMeet()
    ensures 2 in Meet7().fetches && 3 in Meet7().writes && Meet7().fetches[2].block == Meet7().writes[3].block == 6
  {
    hide X;
    hide Y;
    hide CacheCoherence.Csum;
  }

  lemma MeetingRunIs()
    ensures MeetingRun()
            == [CacheCoherence.DoRead(1)] + ([CacheCoherence.DoFinishRead(0, [], false)]
               + ([CacheCoherence.DoOverwrite(0, 6, X())] + ([CacheCoherence.DoFinishWrite(1)]
               + ([CacheCoherence.DoEvict(0)] + ([CacheCoherence.DoRead(0)]
               + ([CacheCoherence.DoOverwrite(0, 6, Y())] + []))))))
  {
  }
}
