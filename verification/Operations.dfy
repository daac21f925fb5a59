/** Whole operations of the object store. An operation on a range of blocks takes many steps, but it
    holds `ebofs_lock` for all of them, so that the commit thread acts between operations only. A
    crash may cut an operation short. */
module Operations {
  import opened Extents
  import opened ObjectStore
  import opened InFlight
  import opened CrashSafety

  datatype Event =
    | Operation(steps: seq<Step>)
    | Between(step: Step)                     // of the commit thread or the device, or a crash
    | CutShort(steps: seq<Step>, disk: Disk)  // an operation, and a crash before it is over

  predicate Commits(step: Step) {
    step.SDrain? || step.SStart? || step.SFlushOnode? || step.SPrepare? || step.SFinishFlush?
    || step.SWriteSuper? || step.SFinishCommit?
  }

  /** Steps that an operation may take; writes may be completed while it goes on. */
  predicate UnderLock(steps: seq<Step>) {
    forall k :: 0 <= k < |steps| ==> !Commits(steps[k]) && !steps[k].SCrash?
  }

  predicate Orderly(e: Event) {
    match e
    case Operation(steps) => UnderLock(steps)
    case Between(step) => Commits(step) || step.SComplete? || step.SCrash?
    case CutShort(steps, _) => UnderLock(steps)
  }

  predicate AllOrderly(events: seq<Event>) {
    forall k :: 0 <= k < |events| ==> Orderly(events[k])
  }

  function StepsOf(e: Event): seq<Step> {
    match e
    case Operation(steps) => steps
    case Between(step) => [step]
    case CutShort(steps, disk) => steps + [SCrash(disk)]
  }

  function AllSteps(events: seq<Event>): seq<Step> {
    if events == [] then [] else AllSteps(events[..|events| - 1]) + StepsOf(events[|events| - 1])
  }

  predicate EndsInCrash(events: seq<Event>) {
    events != [] && var e := events[|events| - 1]; e.CutShort? || (e.Between? && e.step.SCrash?)
  }

  // ---- runs in parts ----

  lemma {:induction false} SimpleInParts(a: Simple, xs: seq<Step>, ys: seq<Step>)
    ensures SimpleEnd(a, xs + ys) == SimpleEnd(SimpleEnd(a, xs), ys)
    decreases |xs|
  {
    hide SimpleStep;
    if xs == [] {
      assert xs + ys == ys;
    } else {
      assert (xs + ys)[1..] == xs[1..] + ys;
      SimpleInParts(SimpleStep(a, xs[0]), xs[1..], ys);
    }
  }

  lemma {:induction false} RunsPrefix(s: State, xs: seq<Step>, ys: seq<Step>)
    requires CanRun(s, xs + ys)
    ensures CanRun(s, xs)
    decreases |xs|
  {
    hide Can;
    hide After;
    if xs != [] {
      assert (xs + ys)[1..] == xs[1..] + ys;
      RunsPrefix(After(s, xs[0]), xs[1..], ys);
    }
  }

  lemma {:induction false} EventsPrefix(s: State, events: seq<Event>, k: nat)
    requires k <= |events| && CanRun(s, AllSteps(events))
    ensures CanRun(s, AllSteps(events[..k]))
    decreases |events|
  {
    hide CanRun;
    var n := |events|;
    if k < n {
      RunsPrefix(s, AllSteps(events[..n - 1]), StepsOf(events[n - 1]));
      assert events[..n - 1][..k] == events[..k];
      EventsPrefix(s, events[..n - 1], k);
    } else {
      assert events[..k] == events;
    }
  }

  // ---- what a commit makes durable ----

  ghost function EndOf(a: Simple, events: seq<Event>): Simple {
    SimpleEnd(a, AllSteps(events))
  }

  /** The view is what the store held before the first event, or after one of them. */
  ghost predicate OnBoundary(a: Simple, events: seq<Event>, v: View) {
    exists k: nat :: k <= |events| && EndOf(a, events[..k]).current == v
  }

  lemma Earlier(a: Simple, events: seq<Event>, v: View)
    requires events != [] && OnBoundary(a, events[..|events| - 1], v)
    ensures OnBoundary(a, events, v)
  {
    var k: nat :| k <= |events| - 1 && EndOf(a, events[..|events| - 1][..k]).current == v;
    assert events[..|events| - 1][..k] == events[..k];
  }

  lemma {:induction false} LockedSteps(a: Simple, steps: seq<Step>)
    requires UnderLock(steps)
    ensures SimpleEnd(a, steps).durable == a.durable && SimpleEnd(a, steps).cut == a.cut
    decreases |steps|
  {
    if steps != [] {
      LockedSteps(SimpleStep(a, steps[0]), steps[1..]);
    }
  }

  /** An event leaves what is durable and what is being committed, or advances them to what the
      store held before it. */
  lemma OneEvent(b: Simple, e: Event)
    requires Orderly(e)
    ensures var c := SimpleEnd(b, StepsOf(e));
            && (c.durable == b.durable || b.cut == Some(c.durable))
            && (c.cut == None || c.cut == b.cut || c.cut == Some(b.current))
            && (EndsInCrash([e]) ==> c.current == b.durable)
  {
    match e
    case Operation(steps) => LockedSteps(b, steps);
    case Between(step) => assert SimpleEnd(b, [step]) == SimpleStep(b, step);
    case CutShort(steps, disk) =>
      LockedSteps(b, steps);
      SimpleInParts(b, steps, [SCrash(disk)]);
      var m := SimpleEnd(b, steps);
      assert SimpleEnd(m, [SCrash(disk)]) == SimpleStep(m, SCrash(disk));
  }

  /** What is durable, and what is being committed, is what the store held between two operations. */
  lemma {:induction false} DurableOnBoundary(a: Simple, events: seq<Event>)
    requires AllOrderly(events) && a.durable == a.current && a.cut == None
    ensures OnBoundary(a, events, EndOf(a, events).durable)
    ensures EndOf(a, events).cut.Some? ==> OnBoundary(a, events, EndOf(a, events).cut.value)
    decreases |events|
  {
    if events == [] {
      assert EndOf(a, events[..0]) == a;
    } else {
      var n := |events| - 1;
      var pre := events[..n];
      var b := EndOf(a, pre);
      DurableOnBoundary(a, pre);
      SimpleInParts(a, AllSteps(pre), StepsOf(events[n]));
      OneEvent(b, events[n]);
      hide OnBoundary;
      hide SimpleEnd;
      NowOnBoundary(a, events);
      EarlierAll(a, events);
    }
  }

  lemma EarlierAll(a: Simple, events: seq<Event>)
    requires events != []
    ensures forall v :: OnBoundary(a, events[..|events| - 1], v) ==> OnBoundary(a, events, v)
  {
    hide OnBoundary;
    forall v | OnBoundary(a, events[..|events| - 1], v) ensures OnBoundary(a, events, v) {
      Earlier(a, events, v);
    }
  }

  lemma NowOnBoundary(a: Simple, events: seq<Event>)
    requires events != []
    ensures OnBoundary(a, events, EndOf(a, events[..|events| - 1]).current)
  {
  }

  ghost function Held(s: State): View {
    View(s.objects, s.data)
  }

  lemma FallsBack(a: Simple, events: seq<Event>) returns (k: nat)
    requires AllOrderly(events) && EndsInCrash(events) && a.durable == a.current && a.cut == None
    ensures k < |events| && EndOf(a, events).current == EndOf(a, events[..k]).current
  {
    hide SimpleEnd;
    var n := |events| - 1;
    var pre := events[..n];
    DurableOnBoundary(a, pre);
    k :| k <= n && EndOf(a, pre[..k]).current == EndOf(a, pre).durable;
    assert pre[..k] == events[..k];
    SimpleInParts(a, AllSteps(pre), StepsOf(events[n]));
    OneEvent(EndOf(a, pre), events[n]);
  }

  /** After a crash, even in the middle of an operation, the store holds what it held at some moment
      between two operations. */
  lemma CrashesFallBack(free: set<nat>, disk: Disk, events: seq<Event>)
    requires AllOrderly(events) && CanRun(Fresh(free, disk), AllSteps(events)) && EndsInCrash(events)
    ensures exists k: nat :: k < |events| && CanRun(Fresh(free, disk), AllSteps(events[..k]))
              && Held(End(Fresh(free, disk), AllSteps(events))) == Held(End(Fresh(free, disk), AllSteps(events[..k])))
  {
    hide CanRun;
    hide End;
    hide SimpleEnd;
    hide AllSteps;
    hide Fresh;
    hide AllOrderly;
    var a := Simple(View({}, map[]), None, View({}, map[]));
    var k := FallsBack(a, events);
    EventsPrefix(Fresh(free, disk), events, k);
    HeldIs(free, disk, AllSteps(events));
    HeldIs(free, disk, AllSteps(events[..k]));
  }

  lemma HeldIs(free: set<nat>, disk: Disk, steps: seq<Step>)
    requires CanRun(Fresh(free, disk), steps)
    ensures Held(End(Fresh(free, disk), steps))
            == SimpleEnd(Simple(View({}, map[]), None, View({}, map[])), steps).current
  {
    hide CanRun;
    hide SimpleEnd;
    EveryRun(free, disk, steps);
    MeaningHolds(End(Fresh(free, disk), steps));
  }

  lemma MeaningHolds(s: State)
    ensures Meaning(s).current == Held(s)
  {
  }
}
