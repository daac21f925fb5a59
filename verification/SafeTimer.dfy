/** The cancellable timer (src/common/Timer.cc:195-326) as steps of the timer thread and of its users.
    Each step is taken under the lock that the user gave to the timer; a callback runs while the
    timer thread holds that lock. An event is wrapped; the wrappers are what the underlying timer
    schedules (`Timers.Timer`). */
module SafeTimers {

  /** Callbacks and wrappers, by identity. */
  type Context = nat
  type Wrapper = nat

  /** What the timer thread is doing. `Executing`: inside the wrapper, calling back. `Skipping`:
      inside a wrapper whose event has been cancelled. `Leaving`: done with a wrapper, and without
      the lock, about to delete it. */
  datatype Thread =
    | Waiting
    | Executing(w: Wrapper)
    | Skipping(w: Wrapper)
    | Leaving(w: Wrapper)

  datatype State = State(
    scheduled: map<Context, Wrapper>,
    canceled: map<Context, Wrapper>,
    waiting: set<Wrapper>,              // in the underlying timer
    pending: seq<Wrapper>,              // taken by the timer thread, to be called back in order
    thread: Thread,
    actual: map<Wrapper, Context>,      // the event of every wrapper there ever was
    added: set<Context>,                // every event there ever was
    runs: map<Context, nat>,            // how often each event was called back
    frees: map<Context, nat>,           // how often it was deleted
    wrapperFrees: map<Wrapper, nat>,
    withdrawn: set<Context>             // those whose cancel_event has returned
  )

  ghost function Times(m: map<nat, nat>, k: nat): nat {
    if k in m then m[k] else 0
  }

  ghost function Once(m: map<nat, nat>, k: nat): map<nat, nat> {
    m[k := Times(m, k) + 1]
  }

  // ---- the steps ----

  /** add_event_at; an event is never added twice. */
  ghost predicate CanAdd(s: State, c: Context, w: Wrapper) {
    !s.thread.Skipping? && w !in s.actual && c !in s.added
  }
  ghost function Add(s: State, c: Context, w: Wrapper): State {
    s.(scheduled := s.scheduled[c := w], waiting := s.waiting + {w}, actual := s.actual[w := c], added := s.added + {c})
  }

  /** cancel_event, by a user or by a callback. */
  ghost predicate CanCancel(s: State, c: Context) {
    !s.thread.Skipping? && c in s.scheduled
  }
  ghost function Cancel(s: State, c: Context): State
    requires c in s.scheduled
  {
    var w := s.scheduled[c];
    var t := s.(scheduled := s.scheduled - {c}, withdrawn := s.withdrawn + {c});
    if w in s.waiting then
      t.(waiting := s.waiting - {w}, frees := Once(s.frees, c), wrapperFrees := Once(s.wrapperFrees, w))
    else t.(canceled := s.canceled[c := w])
  }

  /** The timer thread takes events that are due. */
  ghost predicate CanTake(s: State, due: seq<Wrapper>) {
    && s.thread.Waiting? && s.pending == []
    && (forall i :: 0 <= i < |due| ==> due[i] in s.waiting)
    && (forall i, j :: 0 <= i < j < |due| ==> due[i] != due[j])
  }
  ghost function Take(s: State, due: seq<Wrapper>): State {
    s.(waiting := s.waiting - (set i | 0 <= i < |due| :: due[i]), pending := due)
  }

  /** EventWrapper::finish, up to the callback. */
  ghost predicate CanBegin(s: State) {
    s.thread.Waiting? && s.pending != [] && s.pending[0] in s.actual
  }
  ghost function Begin(s: State): State
    requires CanBegin(s)
  {
    var w := s.pending[0];
    var c := s.actual[w];
    if c in s.scheduled then s.(pending := s.pending[1..], thread := Executing(w), runs := Once(s.runs, c))
    else s.(pending := s.pending[1..], thread := Skipping(w))
  }

  /** The rest of it, up to the release of the lock. */
  ghost predicate CanEnd(s: State) {
    (s.thread.Executing? || s.thread.Skipping?) && s.thread.w in s.actual
  }
  ghost function End(s: State): State
    requires CanEnd(s)
  {
    var w := s.thread.w;
    var c := s.actual[w];
    s.(scheduled := if s.thread.Executing? then s.scheduled - {c} else s.scheduled,
       canceled := s.canceled - {c}, thread := Leaving(w), frees := Once(s.frees, c))
  }

  /** The deletion of the wrapper, which needs no lock. */
  ghost predicate CanDelete(s: State) {
    s.thread.Leaving?
  }
  ghost function Delete(s: State): State
    requires CanDelete(s)
  {
    s.(thread := Waiting, wrapperFrees := Once(s.wrapperFrees, s.thread.w))
  }

  /** join returns, with the lock, when nothing is scheduled and nothing that was cancelled is still
      on its way. */
  ghost predicate Joined(s: State) {
    (s.thread.Waiting? || s.thread.Leaving?) && s.scheduled == map[] && s.canceled == map[]
  }

  datatype Step =
    | DoAdd(c: Context, w: Wrapper)
    | DoCancel(c: Context)
    | DoTake(due: seq<Wrapper>)
    | DoBegin
    | DoEnd
    | DoDelete

  ghost predicate Can(s: State, step: Step) {
    match step
    case DoAdd(c, w) => CanAdd(s, c, w)
    case DoCancel(c) => CanCancel(s, c)
    case DoTake(due) => CanTake(s, due)
    case DoBegin => CanBegin(s)
    case DoEnd => CanEnd(s)
    case DoDelete => CanDelete(s)
  }

  ghost function After(s: State, step: Step): State
    requires Can(s, step)
  {
    match step
    case DoAdd(c, w) => Add(s, c, w)
    case DoCancel(c) => Cancel(s, c)
    case DoTake(due) => Take(s, due)
    case DoBegin => Begin(s)
    case DoEnd => End(s)
    case DoDelete => Delete(s)
  }

  // ---- what holds ----

  /** Where a wrapper is; `Gone` when it has been deleted. */
  datatype Place = Unknown | Queued | Ahead | Current | Left | Gone

  ghost function PlaceOf(s: State, w: Wrapper): Place {
    if w !in s.actual then Unknown
    else if w in s.waiting then Queued
    else if w in s.pending then Ahead
    else if !s.thread.Waiting? && s.thread.w == w then if s.thread.Leaving? then Left else Current
    else Gone
  }

  /** What must be true of a wrapper and its event, by where the wrapper is. */
  ghost predicate WrapperOk(s: State, w: Wrapper)
    requires w in s.actual
  {
    var c := s.actual[w];
    var live := c in s.scheduled && s.scheduled[c] == w;
    var dead := c in s.canceled && s.canceled[c] == w;
    match PlaceOf(s, w)
    case Queued => live && c !in s.canceled && Times(s.runs, c) == 0 && Fresh(s, c, w)
    case Ahead => live != dead && (c in s.scheduled ==> live) && (c in s.canceled ==> dead)
                  && Times(s.runs, c) == 0 && Fresh(s, c, w)
    case Current => (c in s.scheduled ==> live) && (c in s.canceled ==> dead) && !(live && dead) && Fresh(s, c, w)
                    && (if s.thread.Executing? then (live || dead) && Times(s.runs, c) == 1
                        else dead && Times(s.runs, c) == 0)
    case _ => c !in s.scheduled && c !in s.canceled && Times(s.runs, c) <= 1
              && Times(s.frees, c) == 1 && Times(s.wrapperFrees, w) == if PlaceOf(s, w).Left? then 0 else 1
  }

  ghost predicate Fresh(s: State, c: Context, w: Wrapper) {
    Times(s.frees, c) == 0 && Times(s.wrapperFrees, w) == 0
  }

  /** Every wrapper is in one place, and wraps an event of its own. */
  ghost predicate Shape(s: State) {
    && (forall v, w :: v in s.actual && w in s.actual && v != w ==> s.actual[v] != s.actual[w])
    && (forall w :: w in s.actual ==> s.actual[w] in s.added)
    && (forall w :: w in s.waiting ==> w in s.actual && w !in s.pending)
    && (forall i :: 0 <= i < |s.pending| ==> s.pending[i] in s.actual)
    && (forall i, j :: 0 <= i < j < |s.pending| ==> s.pending[i] != s.pending[j])
    && (!s.thread.Waiting? ==> s.thread.w in s.actual && s.thread.w !in s.waiting && s.thread.w !in s.pending)
  }

  ghost predicate Names(s: State) {
    && (forall c :: c in s.scheduled ==> s.scheduled[c] in s.actual && s.actual[s.scheduled[c]] == c)
    && (forall c :: c in s.canceled ==> s.canceled[c] in s.actual && s.actual[s.canceled[c]] == c)
    && (forall c :: c in s.withdrawn ==> c in s.added && c !in s.scheduled)
  }

  /** Nothing has happened yet to what has not been added. */
  ghost predicate Untouched(s: State) {
    && (forall c :: c !in s.added ==> Times(s.runs, c) == 0 && Times(s.frees, c) == 0)
    && (forall w :: w !in s.actual ==> Times(s.wrapperFrees, w) == 0)
  }

  ghost predicate Inv(s: State) {
    Shape(s) && Names(s) && Untouched(s) && forall w :: w in s.actual ==> WrapperOk(s, w)
  }

  // ---- every step keeps it ----

  /** Nothing changed for wrapper v and its event. */
  ghost predicate Same(s: State, r: State, v: Wrapper)
    requires v in s.actual
  {
    var c := s.actual[v];
    && v in r.actual && r.actual[v] == c
    && PlaceOf(r, v) == PlaceOf(s, v)
    && (PlaceOf(s, v).Current? ==> r.thread == s.thread)
    && (c in s.scheduled <==> c in r.scheduled) && (c in s.scheduled ==> r.scheduled[c] == s.scheduled[c])
    && (c in s.canceled <==> c in r.canceled) && (c in s.canceled ==> r.canceled[c] == s.canceled[c])
    && Times(r.runs, c) == Times(s.runs, c) && Times(r.frees, c) == Times(s.frees, c)
    && Times(r.wrapperFrees, v) == Times(s.wrapperFrees, v)
  }

  lemma SameOk(s: State, r: State, v: Wrapper)
    requires v in s.actual && Same(s, r, v) && WrapperOk(s, v)
    ensures WrapperOk(r, v)
  {
  }

  lemma SameOthers(s: State, r: State, v: Wrapper, w: Wrapper)
    requires Shape(s) && v in s.actual && w in s.actual && v != w
    ensures s.actual[v] != s.actual[w] && s.actual[v] in s.added
  {
  }

  lemma AddKeeps(s: State, c: Context, w: Wrapper)
    requires Inv(s) && CanAdd(s, c, w)
    ensures Inv(Add(s, c, w))
  {
    hide WrapperOk;
    var r := Add(s, c, w);
    AddShape(s, c, w);
    AddNames(s, c, w);
    forall v | v in r.actual ensures WrapperOk(r, v) {
      if v == w {
        NotNamed(s, c);
        AddThis(s, c, w);
      } else {
        assert WrapperOk(s, v);
        AddOther(s, c, w, v);
        SameOk(s, r, v);
      }
    }
  }

  lemma NotNamed(s: State, c: Context)
    requires Shape(s) && Names(s) && c !in s.added
    ensures c !in s.scheduled && c !in s.canceled
  {
    assert forall d :: d in s.canceled ==> s.actual[s.canceled[d]] in s.added;
    assert forall d :: d in s.scheduled ==> s.actual[s.scheduled[d]] in s.added;
  }

  lemma AddShape(s: State, c: Context, w: Wrapper)
    requires Shape(s) && Untouched(s) && CanAdd(s, c, w)
    ensures Shape(Add(s, c, w)) && Untouched(Add(s, c, w))
  {
  }

  lemma AddNames(s: State, c: Context, w: Wrapper)
    requires Names(s) && CanAdd(s, c, w)
    ensures Names(Add(s, c, w))
  {
  }

  lemma AddThis(s: State, c: Context, w: Wrapper)
    requires Shape(s) && Untouched(s) && CanAdd(s, c, w) && c !in s.canceled
    ensures WrapperOk(Add(s, c, w), w)
  {
  }

  lemma AddOther(s: State, c: Context, w: Wrapper, v: Wrapper)
    requires Shape(s) && CanAdd(s, c, w) && v in s.actual
    ensures Same(s, Add(s, c, w), v)
  {
    assert s.actual[v] in s.added;
  }

  lemma CancelKeeps(s: State, c: Context)
    requires Inv(s) && CanCancel(s, c)
    ensures Inv(Cancel(s, c))
  {
    hide WrapperOk;
    var r := Cancel(s, c);
    CancelShape(s, c);
    CancelNames(s, c);
    CancelUntouched(s, c);
    forall v | v in r.actual ensures WrapperOk(r, v) {
      assert WrapperOk(s, v);
      if s.actual[v] != c {
        CancelOther(s, c, v);
        SameOk(s, r, v);
      } else {
        assert v == s.scheduled[c];
        CancelThis(s, c);
      }
    }
  }

  lemma CancelShape(s: State, c: Context)
    requires Shape(s) && CanCancel(s, c)
    ensures Shape(Cancel(s, c))
  {
  }

  lemma CancelNames(s: State, c: Context)
    requires Shape(s) && Names(s) && CanCancel(s, c)
    ensures Names(Cancel(s, c))
  {
    assert s.actual[s.scheduled[c]] in s.added;
  }

  lemma CancelUntouched(s: State, c: Context)
    requires Shape(s) && Names(s) && Untouched(s) && CanCancel(s, c)
    ensures Untouched(Cancel(s, c))
  {
    assert s.scheduled[c] in s.actual && c in s.added;
  }

  lemma CancelOther(s: State, c: Context, v: Wrapper)
    requires Names(s) && CanCancel(s, c) && v in s.actual && s.actual[v] != c
    ensures Same(s, Cancel(s, c), v)
  {
    assert v != s.scheduled[c];
    hide Names;
    var r := Cancel(s, c);
    assert PlaceOf(r, v) == PlaceOf(s, v);
    hide PlaceOf;
    if s.scheduled[c] in s.waiting {
      assert r.canceled == s.canceled;
    } else {
      assert r.frees == s.frees && r.wrapperFrees == s.wrapperFrees;
    }
  }

  lemma CancelThis(s: State, c: Context)
    requires Shape(s) && Names(s) && CanCancel(s, c) && WrapperOk(s, s.scheduled[c])
    ensures WrapperOk(Cancel(s, c), s.scheduled[c])
  {
    var w := s.scheduled[c];
    assert s.actual[w] == c;
    var r := Cancel(s, c);
    if w in s.waiting {
      assert PlaceOf(s, w) == Queued && PlaceOf(r, w) == Gone;
    } else {
      assert PlaceOf(r, w) == PlaceOf(s, w);
    }
  }

  lemma TakeKeeps(s: State, due: seq<Wrapper>)
    requires Inv(s) && CanTake(s, due)
    ensures Inv(Take(s, due))
  {
    hide WrapperOk;
    var r := Take(s, due);
    assert forall v :: v in due <==> exists i :: 0 <= i < |due| && due[i] == v;
    forall v | v in r.actual ensures WrapperOk(r, v) {
      assert WrapperOk(s, v);
      TakeOne(s, due, v);
    }
  }

  lemma TakeOne(s: State, due: seq<Wrapper>, v: Wrapper)
    requires Shape(s) && CanTake(s, due) && v in s.actual && WrapperOk(s, v)
    ensures WrapperOk(Take(s, due), v)
  {
    var r := Take(s, due);
    if v in due {
      assert PlaceOf(s, v) == Queued && PlaceOf(r, v) == Ahead;
    } else {
      assert PlaceOf(r, v) == PlaceOf(s, v);
    }
  }

  lemma BeginKeeps(s: State)
    requires Inv(s) && CanBegin(s)
    ensures Inv(Begin(s))
  {
    hide WrapperOk;
    var r := Begin(s);
    BeginShape(s);
    BeginNames(s);
    BeginUntouched(s);
    forall v | v in r.actual ensures WrapperOk(r, v) {
      assert WrapperOk(s, v);
      if v == s.pending[0] {
        BeginThis(s);
      } else {
        BeginOther(s, v);
        SameOk(s, r, v);
      }
    }
  }

  lemma BeginShape(s: State)
    requires Shape(s) && CanBegin(s)
    ensures Shape(Begin(s)) && s.pending[0] !in Begin(s).pending
  {
    assert s.pending[0] in s.pending;
  }

  lemma BeginNames(s: State)
    requires Names(s) && CanBegin(s)
    ensures Names(Begin(s))
  {
  }

  lemma BeginUntouched(s: State)
    requires Shape(s) && Untouched(s) && CanBegin(s)
    ensures Untouched(Begin(s))
  {
    assert s.actual[s.pending[0]] in s.added;
  }

  lemma BeginOther(s: State, v: Wrapper)
    requires Shape(s) && CanBegin(s) && v in s.actual && v != s.pending[0]
    ensures Same(s, Begin(s), v)
  {
    var r := Begin(s);
    SameOthers(s, r, v, s.pending[0]);
    assert v in s.pending <==> v in r.pending;
  }

  lemma BeginThis(s: State)
    requires Shape(s) && CanBegin(s) && WrapperOk(s, s.pending[0])
    ensures WrapperOk(Begin(s), s.pending[0])
  {
    var w := s.pending[0];
    BeginShape(s);
    assert w in s.pending;
    assert PlaceOf(s, w) == Ahead && PlaceOf(Begin(s), w) == Current;
  }

  lemma EndKeeps(s: State)
    requires Inv(s) && CanEnd(s)
    ensures Inv(End(s))
  {
    hide WrapperOk;
    var r := End(s);
    assert Shape(r) && Names(r);
    EndUntouched(s);
    forall v | v in r.actual ensures WrapperOk(r, v) {
      assert WrapperOk(s, v);
      if v == s.thread.w {
        EndThis(s);
      } else {
        EndOther(s, v);
        SameOk(s, r, v);
      }
    }
  }

  lemma EndUntouched(s: State)
    requires Shape(s) && Untouched(s) && CanEnd(s)
    ensures Untouched(End(s))
  {
    assert s.actual[s.thread.w] in s.added;
  }

  lemma EndOther(s: State, v: Wrapper)
    requires Shape(s) && CanEnd(s) && v in s.actual && v != s.thread.w
    ensures Same(s, End(s), v)
  {
    SameOthers(s, End(s), v, s.thread.w);
  }

  lemma EndThis(s: State)
    requires Shape(s) && CanEnd(s) && WrapperOk(s, s.thread.w)
    ensures WrapperOk(End(s), s.thread.w)
  {
    assert PlaceOf(s, s.thread.w) == Current && PlaceOf(End(s), s.thread.w) == Left;
  }

  lemma DeleteKeeps(s: State)
    requires Inv(s) && CanDelete(s)
    ensures Inv(Delete(s))
  {
    hide WrapperOk;
    var r := Delete(s);
    assert Shape(r) && Names(r) && Untouched(r);
    forall v | v in r.actual ensures WrapperOk(r, v) {
      assert WrapperOk(s, v);
      if v == s.thread.w {
        DeleteThis(s);
      } else {
        DeleteOther(s, v);
        SameOk(s, r, v);
      }
    }
  }

  lemma DeleteOther(s: State, v: Wrapper)
    requires Shape(s) && CanDelete(s) && v in s.actual && v != s.thread.w
    ensures Same(s, Delete(s), v)
  {
  }

  lemma DeleteThis(s: State)
    requires Shape(s) && CanDelete(s) && WrapperOk(s, s.thread.w)
    ensures WrapperOk(Delete(s), s.thread.w)
  {
    assert PlaceOf(s, s.thread.w) == Left && PlaceOf(Delete(s), s.thread.w) == Gone;
  }

  lemma StepKeeps(s: State, step: Step)
    requires Inv(s) && Can(s, step)
    ensures Inv(After(s, step))
  {
    hide Inv;
    match step
    case DoAdd(c, w) => AddKeeps(s, c, w);
    case DoCancel(c) => CancelKeeps(s, c);
    case DoTake(due) => TakeKeeps(s, due);
    case DoBegin => BeginKeeps(s);
    case DoEnd => EndKeeps(s);
    case DoDelete => DeleteKeeps(s);
  }

  // ---- runs ----

  ghost function Start(): State {
    State(map[], map[], {}, [], Waiting, map[], {}, map[], map[], map[], {})
  }

  ghost predicate Runs(s: State, steps: seq<Step>)
    decreases |steps|
  {
    steps != [] ==> Can(s, steps[0]) && Runs(After(s, steps[0]), steps[1..])
  }

  ghost function Finish(s: State, steps: seq<Step>): State
    requires Runs(s, steps)
    decreases |steps|
  {
    if steps == [] then s else Finish(After(s, steps[0]), steps[1..])
  }

  lemma {:induction false} RunKeeps(s: State, steps: seq<Step>)
    requires Inv(s) && Runs(s, steps)
    ensures Inv(Finish(s, steps))
    decreases |steps|
  {
    hide Inv;
    hide Can;
    hide After;
    if steps != [] {
      StepKeeps(s, steps[0]);
      RunKeeps(After(s, steps[0]), steps[1..]);
    }
  }

  /** Every event is called back at most once, and it and its wrapper are deleted at most once. */
  lemma AtMostOnce(steps: seq<Step>, w: Wrapper)
    requires Runs(Start(), steps) && w in Finish(Start(), steps).actual
    ensures var s := Finish(Start(), steps);
            Times(s.runs, s.actual[w]) <= 1 && Times(s.frees, s.actual[w]) <= 1 && Times(s.wrapperFrees, w) <= 1
  {
    hide Runs;
    hide Finish;
    RunKeeps(Start(), steps);
    assert WrapperOk(Finish(Start(), steps), w);
  }

  /** An event is not called back, or deleted, after it has been deleted; and the assertions of the
      source hold: an event that is not scheduled any more when its wrapper comes up was cancelled. */
  lemma BeginIsSafe(steps: seq<Step>)
    requires Runs(Start(), steps)
    ensures var s := Finish(Start(), steps);
            s.thread.Waiting? && s.pending != [] ==>
              && CanBegin(s) && Times(s.frees, s.actual[s.pending[0]]) == 0
              && (s.actual[s.pending[0]] !in s.scheduled ==> s.actual[s.pending[0]] in s.canceled)
  {
    hide Runs;
    hide Finish;
    RunKeeps(Start(), steps);
    var s := Finish(Start(), steps);
    if s.pending != [] {
      assert s.pending[0] in s.pending && WrapperOk(s, s.pending[0]);
    }
  }

  /** Once cancel_event has returned, the event does not start any more, whatever happens later. */
  lemma {:induction false} WithdrawnNeverStarts(s: State, steps: seq<Step>, c: Context)
    requires Inv(s) && Runs(s, steps) && c in s.withdrawn
    ensures Times(Finish(s, steps).runs, c) == Times(s.runs, c)
    decreases |steps|
  {
    hide Inv;
    hide Can;
    hide After;
    if steps != [] {
      StepKeeps(s, steps[0]);
      WithdrawnStays(s, steps[0], c);
      WithdrawnNeverStarts(After(s, steps[0]), steps[1..], c);
    }
  }

  lemma WithdrawnStays(s: State, step: Step, c: Context)
    requires Inv(s) && Can(s, step) && c in s.withdrawn
    ensures c in After(s, step).withdrawn && Times(After(s, step).runs, c) == Times(s.runs, c)
  {
    hide WrapperOk;
    assert c !in s.scheduled;
  }

  /** When join returns, no wrapper is scheduled, taken or running, and every event has been deleted.
      The only wrapper that may still exist is one that is done, and waits to be deleted. */
  lemma JoinedIsQuiet(steps: seq<Step>, w: Wrapper)
    requires Runs(Start(), steps) && Joined(Finish(Start(), steps))
    ensures var s := Finish(Start(), steps);
            && w !in s.waiting && w !in s.pending
            && (w in s.actual ==> Times(s.frees, s.actual[w]) == 1
                                  && Times(s.wrapperFrees, w) == if s.thread == Leaving(w) then 0 else 1)
  {
    hide Runs;
    hide Finish;
    RunKeeps(Start(), steps);
    var s := Finish(Start(), steps);
    if w in s.actual {
      assert WrapperOk(s, w);
    }
  }

  ghost predicate AddsNone(steps: seq<Step>) {
    forall k :: 0 <= k < |steps| ==> !steps[k].DoAdd?
  }

  /** The part of the state that belongs to the SafeTimer and its events. */
  ghost predicate SameTimer(s: State, r: State) {
    r.scheduled == s.scheduled && r.canceled == s.canceled && r.runs == s.runs && r.frees == s.frees
  }

  lemma AheadIsNamed(s: State)
    requires Inv(s) && s.pending != []
    ensures s.scheduled != map[] || s.canceled != map[]
  {
    assert s.pending[0] in s.pending && WrapperOk(s, s.pending[0]);
  }

  lemma JoinedStep(s: State, step: Step)
    requires Inv(s) && Joined(s) && Can(s, step) && !step.DoAdd?
    ensures SameTimer(s, After(s, step)) && Joined(After(s, step))
  {
    if s.pending != [] {
      AheadIsNamed(s);
      assert false;
    }
  }

  /** After join, as long as nothing new is added, no step of the timer thread touches the timer or
      any event: a wrapper may be deleted, and that is all. */
  lemma {:induction false} JoinedForGood(s: State, steps: seq<Step>)
    requires Inv(s) && Joined(s) && Runs(s, steps) && AddsNone(steps)
    ensures SameTimer(s, Finish(s, steps))
    decreases |steps|
  {
    hide Inv;
    hide Can;
    hide After;
    if steps != [] {
      JoinedStep(s, steps[0]);
      StepKeeps(s, steps[0]);
      JoinedForGood(After(s, steps[0]), steps[1..]);
    }
  }

  // ---- everything runs in the end ----

  /** Steps of the timer thread alone. */
  ghost predicate OnlyThread(steps: seq<Step>) {
    forall k :: 0 <= k < |steps| ==> steps[k].DoTake? || steps[k].DoBegin? || steps[k].DoEnd? || steps[k].DoDelete?
  }

  /** What the thread does next; it takes one event at a time. */
  ghost function Next(s: State): Step {
    if s.thread.Executing? || s.thread.Skipping? then DoEnd
    else if s.thread.Leaving? then DoDelete
    else if s.pending != [] then DoBegin
    else if w :| w in s.waiting then DoTake([w])
    else DoTake([])
  }

  ghost predicate Idle(s: State) {
    s.thread.Waiting? && s.pending == [] && s.waiting == {}
  }

  /** How much is left to do: a wrapper is taken, begun, ended and deleted. */
  ghost function Work(s: State): nat {
    4 * |s.waiting| + 3 * |s.pending|
    + match s.thread case Waiting => 0 case Leaving(_) => 1 case _ => 2
  }

  lemma NextCan(s: State)
    requires Inv(s) && !Idle(s)
    ensures Can(s, Next(s)) && Work(After(s, Next(s))) < Work(s)
  {
    hide WrapperOk;
    if s.thread.Waiting? && s.pending == [] {
      var w := Next(s).due[0];
      assert (set i | 0 <= i < |[w]| :: [w][i]) == {w};
      assert |s.waiting - {w}| == |s.waiting| - 1;
    }
  }

  /** Whether the event still has to be called back, or has been. */
  ghost predicate Served(s: State, c: Context) {
    c in s.scheduled || Times(s.runs, c) > 0
  }

  /** What a step of the thread may do to an event: it stays, or has been called back. */
  ghost predicate Serves(s: State, r: State, c: Context) {
    && r.actual == s.actual && (Served(s, c) ==> Served(r, c))
    && (c !in s.scheduled ==> c !in r.scheduled && Times(r.runs, c) == Times(s.runs, c))
  }

  lemma EndServes(s: State, c: Context)
    requires Inv(s) && CanEnd(s)
    ensures Serves(s, End(s), c)
  {
    assert WrapperOk(s, s.thread.w);
    assert PlaceOf(s, s.thread.w).Current?;
    hide Inv;
    hide PlaceOf;
  }

  lemma BeginServes(s: State, c: Context)
    requires CanBegin(s)
    ensures Serves(s, Begin(s), c)
  {
  }

  lemma NextServes(s: State, c: Context)
    requires Inv(s) && !Idle(s) && Can(s, Next(s))
    ensures Serves(s, After(s, Next(s)), c)
  {
    hide Inv;
    hide Serves;
    if s.thread.Executing? || s.thread.Skipping? {
      EndServes(s, c);
    } else if s.thread.Waiting? && s.pending != [] {
      BeginServes(s, c);
    } else {
      OthersServe(s, c);
    }
  }

  lemma OthersServe(s: State, c: Context)
    requires Can(s, Next(s)) && (s.thread.Leaving? || (s.thread.Waiting? && s.pending == []))
    ensures Serves(s, After(s, Next(s)), c)
  {
    hide CanTake;
    hide CanBegin;
    hide CanEnd;
  }

  lemma IdleIsJoined(s: State)
    requires Inv(s) && Idle(s)
    ensures Joined(s)
  {
    forall c: Context ensures c !in s.scheduled && c !in s.canceled {
      NotNamedIdle(s, c);
    }
  }

  lemma NotNamedIdle(s: State, c: Context)
    requires Inv(s) && Idle(s)
    ensures c !in s.scheduled && c !in s.canceled
  {
  }

  lemma RunFirst(s: State, step: Step, rest: seq<Step>)
    requires Can(s, step) && Runs(After(s, step), rest)
    ensures Runs(s, [step] + rest) && Finish(s, [step] + rest) == Finish(After(s, step), rest)
  {
    hide Can;
    hide After;
    assert ([step] + rest)[1..] == rest;
  }

  lemma {:induction false} ThreadRuns(s: State) returns (steps: seq<Step>)
    requires Inv(s)
    ensures OnlyThread(steps) && Runs(s, steps) && Idle(Finish(s, steps)) && Inv(Finish(s, steps))
    ensures Finish(s, steps).actual == s.actual
    ensures forall c: Context :: c in s.scheduled ==> Served(Finish(s, steps), c)
    ensures forall c: Context :: c !in s.scheduled ==> Times(Finish(s, steps).runs, c) == Times(s.runs, c)
    decreases Work(s)
  {
    hide Inv;
    if Idle(s) {
      steps := [];
    } else {
      NextCan(s);
      StepKeeps(s, Next(s));
      hide Can;
      hide After;
      hide Work;
      hide Idle;
      hide Serves;
      var rest := ThreadRuns(After(s, Next(s)));
      RunFirst(s, Next(s), rest);
      forall c: Context
        ensures c in s.scheduled ==> Served(Finish(s, [Next(s)] + rest), c)
        ensures c !in s.scheduled ==> Times(Finish(s, [Next(s)] + rest).runs, c) == Times(s.runs, c)
      {
        NextServes(s, c);
        ServesMeans(s, After(s, Next(s)), c);
      }
      NextIsThread(s);
      steps := [Next(s)] + rest;
    }
  }

  lemma ServesMeans(s: State, r: State, c: Context)
    requires Serves(s, r, c)
    ensures r.actual == s.actual && (c in s.scheduled ==> c in r.scheduled || Times(r.runs, c) > 0)
    ensures c !in s.scheduled ==> c !in r.scheduled && Times(r.runs, c) == Times(s.runs, c)
  {
  }

  lemma NextIsThread(s: State)
    ensures OnlyThread([Next(s)])
  {
  }

  /** Whatever the state, the timer thread alone brings every event that is still scheduled to be
      called back, exactly once, and calls no other; then join returns, and everything has been
      deleted. */
  lemma EveryEventRuns(s: State) returns (steps: seq<Step>)
    requires Inv(s)
    ensures OnlyThread(steps) && Runs(s, steps) && Joined(Finish(s, steps))
    ensures forall c: Context ::
              Times(Finish(s, steps).runs, c) == if c in s.scheduled then 1 else Times(s.runs, c)
    ensures forall w: Wrapper :: w in s.actual ==>
              Times(Finish(s, steps).frees, s.actual[w]) == 1 && Times(Finish(s, steps).wrapperFrees, w) == 1
  {
    steps := ThreadRuns(s);
    var r := Finish(s, steps);
    IdleIsJoined(r);
    hide Finish;
    hide Runs;
    forall c: Context ensures Times(r.runs, c) == if c in s.scheduled then 1 else Times(s.runs, c) {
      if c in s.scheduled {
        assert WrapperOk(r, s.scheduled[c]);
      }
    }
    forall w: Wrapper | w in s.actual ensures Times(r.frees, s.actual[w]) == 1 && Times(r.wrapperFrees, w) == 1 {
      assert WrapperOk(r, w);
    }
  }
}
