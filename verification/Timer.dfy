/** The timer: events by time, and times by event (src/common/Timer.cc, src/common/Timer.h). */
module Timers {
  import opened Extents

  /** A callback, by identity. Times are natural numbers. */
  type Context = nat

  /** Every context of a list once. */
  ghost predicate NoDuplicates(s: seq<Context>) {
    forall i, j :: 0 <= i < j < |s| ==> s[i] != s[j]
  }

  /** A list of the contexts of a set. */
  method Listed(s: set<Context>) returns (r: seq<Context>)
    ensures NoDuplicates(r) && forall c :: c in r <==> c in s
  {
    r := [];
    var left := s;
    while left != {}
      invariant NoDuplicates(r) && left <= s
      invariant forall c :: c in r <==> c in s - left
      decreases |left|
    {
      var c :| c in left;
      assert c !in r;
      r := r + [c];
      left := left - {c};
    }
  }

  class Timer {
    var scheduled: map<nat, set<Context>>
    var eventTimes: map<Context, nat>

    constructor ()
      ensures Valid() && eventTimes == map[]
    {
      scheduled, eventTimes := map[], map[];
    }

    /** The two maps are inverse, and no time is without an event. */
    ghost predicate Valid()
      reads this
    {
      Inverse(scheduled, eventTimes)
    }

    /** The earliest time. */
    method GetNextDue() returns (when: Option<nat>)
      requires Valid()
      ensures when.None? <==> eventTimes == map[]
      ensures when.Some? ==> when.value in eventTimes.Values
                             && forall c :: c in eventTimes ==> when.value <= eventTimes[c]
    {
      when := KeyAtOrAfter(scheduled.Keys, 0);
      if when.Some? {
        AtTime(scheduled, eventTimes, when.value);
      } else {
        NoTimes(scheduled, eventTimes);
      }
    }

    method AddEventAt(when: nat, callback: Context)
      requires Valid() && callback !in eventTimes
      modifies this
      ensures Valid() && eventTimes == old(eventTimes)[callback := when]
    {
      scheduled := scheduled[when := (if when in scheduled then scheduled[when] else {}) + {callback}];
      eventTimes := eventTimes[callback := when];
    }

    /** An event that has not been taken yet is withdrawn; otherwise nothing happens. */
    method CancelEvent(callback: Context) returns (ok: bool)
      requires Valid()
      modifies this
      ensures Valid() && (ok <==> callback in old(eventTimes))
      ensures eventTimes == old(eventTimes) - {callback}
    {
      if callback !in eventTimes {
        assert eventTimes - {callback} == eventTimes;
        return false;
      }
      var tp := eventTimes[callback];
      Withdrawn(scheduled, eventTimes, callback);
      eventTimes := eventTimes - {callback};
      scheduled := scheduled[tp := scheduled[tp] - {callback}];
      if scheduled[tp] == {} {
        scheduled := scheduled - {tp};
      }
      ok := true;
    }

    /** The timer thread takes every event that is due, in order of time, and no other. */
    method TakeDue(now: nat) returns (pending: seq<Context>)
      requires Valid()
      modifies this
      ensures Valid() && NoDuplicates(pending)
      ensures forall c :: c in pending <==> c in old(eventTimes) && old(eventTimes)[c] <= now
      ensures forall i, j :: 0 <= i < j < |pending| ==> old(eventTimes)[pending[i]] <= old(eventTimes)[pending[j]]
      ensures eventTimes == Later(old(eventTimes), now)
    {
      hide Inverse;
      pending := [];
      var it: Option<nat> := KeyAtOrAfter(scheduled.Keys, 0);
      TakeNone(scheduled, eventTimes);
      while it.Some? && it.value <= now
        invariant Valid() && Took(old(eventTimes), eventTimes, pending)
        invariant it == KeyAtOrAfter(scheduled.Keys, 0)
        invariant forall c :: c in pending ==> c in old(eventTimes) && old(eventTimes)[c] <= now
        decreases |scheduled|
      {
        var t := it.value;
        var due := Listed(scheduled[t]);
        TakeTime(old(eventTimes), scheduled, eventTimes, pending, t, due);
        pending := pending + due;
        eventTimes := eventTimes - scheduled[t];
        FewerTimes(scheduled, t);
        it := KeyAtOrAfter(scheduled.Keys, t + 1);
        scheduled := scheduled - {t};
        StillFirst(scheduled, it, t);
      }
      TookAll(old(eventTimes), scheduled, eventTimes, pending, now, it);
    }
  }

  ghost predicate Inverse(scheduled: map<nat, set<Context>>, eventTimes: map<Context, nat>) {
    && (forall t, c :: t in scheduled && c in scheduled[t] ==> c in eventTimes && eventTimes[c] == t)
    && (forall c :: c in eventTimes ==> eventTimes[c] in scheduled && c in scheduled[eventTimes[c]])
    && (forall t :: t in scheduled ==> scheduled[t] != {})
  }

  /** The events after `now`. */
  ghost function Later(eventTimes: map<Context, nat>, now: nat): map<Context, nat> {
    map c | c in eventTimes && eventTimes[c] > now :: eventTimes[c]
  }

  lemma AtTime(scheduled: map<nat, set<Context>>, eventTimes: map<Context, nat>, t: nat)
    requires Inverse(scheduled, eventTimes) && t in scheduled
    ensures t in eventTimes.Values && eventTimes != map[]
  {
    var c :| c in scheduled[t];
    assert c in eventTimes && eventTimes[c] == t;
  }

  lemma NoTimes(scheduled: map<nat, set<Context>>, eventTimes: map<Context, nat>)
    requires Inverse(scheduled, eventTimes) && KeyAtOrAfter(scheduled.Keys, 0) == None
    ensures eventTimes == map[]
  {
    assert forall c :: c !in eventTimes;
  }

  lemma Withdrawn(scheduled: map<nat, set<Context>>, eventTimes: map<Context, nat>, c: Context)
    requires Inverse(scheduled, eventTimes) && c in eventTimes
    ensures var t := eventTimes[c];
            && t in scheduled && c in scheduled[t]
            && (scheduled[t] - {c} != {} ==> Inverse(scheduled[t := scheduled[t] - {c}], eventTimes - {c}))
            && (scheduled[t] - {c} == {} ==> Inverse(scheduled[t := scheduled[t] - {c}] - {t}, eventTimes - {c}))
  {
  }

  /** What has been taken so far, in order, and what is left. */
  ghost predicate Took(was: map<Context, nat>, now: map<Context, nat>, pending: seq<Context>) {
    && NoDuplicates(pending)
    && (forall c :: c in pending <==> c in was && c !in now)
    && (forall c :: c in now ==> c in was && now[c] == was[c])
    && (forall i, j :: 0 <= i < j < |pending| ==> pending[i] in was && pending[j] in was && was[pending[i]] <= was[pending[j]])
    && (forall c, d :: c in pending && d in now ==> c in was && was[c] <= now[d])
  }

  lemma TakeNone(scheduled: map<nat, set<Context>>, eventTimes: map<Context, nat>)
    ensures Took(eventTimes, eventTimes, [])
  {
  }

  lemma TakeTime(was: map<Context, nat>, scheduled: map<nat, set<Context>>, eventTimes: map<Context, nat>,
                 pending: seq<Context>, t: nat, due: seq<Context>)
    requires Inverse(scheduled, eventTimes) && Took(was, eventTimes, pending)
    requires KeyAtOrAfter(scheduled.Keys, 0) == Some(t) && t in scheduled
    requires NoDuplicates(due) && forall c :: c in due <==> c in scheduled[t]
    ensures Inverse(scheduled - {t}, eventTimes - scheduled[t])
    ensures Took(was, eventTimes - scheduled[t], pending + due)
    ensures forall c :: c in due ==> c in was && was[c] == t
  {
    TakeInverse(scheduled, eventTimes, t);
    assert forall c :: c in due ==> c in eventTimes && eventTimes[c] == t;
    assert forall c :: c in eventTimes ==> t <= eventTimes[c];
    hide Inverse;
    TakeList(was, eventTimes, pending, t, due, scheduled[t]);
  }

  lemma TakeInverse(scheduled: map<nat, set<Context>>, eventTimes: map<Context, nat>, t: nat)
    requires Inverse(scheduled, eventTimes) && t in scheduled
    ensures Inverse(scheduled - {t}, eventTimes - scheduled[t])
  {
    var u, e := scheduled - {t}, eventTimes - scheduled[t];
    forall k, c | k in u && c in u[k] ensures c in e && e[c] == k {
      assert c in eventTimes && eventTimes[c] == k;
    }
    forall c | c in e ensures e[c] in u && c in u[e[c]] {
      assert c in scheduled[eventTimes[c]];
    }
  }

  lemma TakeList(was: map<Context, nat>, eventTimes: map<Context, nat>, pending: seq<Context>, t: nat,
                 due: seq<Context>, s: set<Context>)
    requires Took(was, eventTimes, pending) && NoDuplicates(due)
    requires forall c :: c in due <==> c in s
    requires forall c :: c in due ==> c in eventTimes && eventTimes[c] == t
    requires forall c :: c in eventTimes ==> t <= eventTimes[c]
    ensures Took(was, eventTimes - s, pending + due)
  {
    var p := pending + due;
    forall c ensures c in p <==> c in was && c !in eventTimes - s {
    }
    forall i, j | 0 <= i < j < |p| ensures p[i] != p[j] && p[i] in was && p[j] in was && was[p[i]] <= was[p[j]] {
      assert j >= |pending| ==> p[j] == due[j - |pending|];
      assert i < |pending| ==> p[i] == pending[i] && p[i] in pending;
      assert i >= |pending| ==> p[i] == due[i - |pending|];
    }
  }

  lemma FewerTimes(scheduled: map<nat, set<Context>>, t: nat)
    requires t in scheduled
    ensures |scheduled - {t}| < |scheduled|
  {
    assert (scheduled - {t}).Keys == scheduled.Keys - {t};
    assert scheduled.Keys == (scheduled.Keys - {t}) + {t};
  }

  lemma StillFirst(scheduled: map<nat, set<Context>>, it: Option<nat>, t: nat)
    requires t !in scheduled && (forall k :: k in scheduled ==> k > t)
    requires it.Some? ==> it.value in scheduled && forall k :: k in scheduled ==> it.value <= k
    requires it.None? ==> scheduled == map[]
    ensures it == KeyAtOrAfter(scheduled.Keys, 0)
  {
    var r: Option<nat> := KeyAtOrAfter(scheduled.Keys, 0);
    if r.Some? {
      assert r.value in scheduled;
    }
  }

  lemma TookAll(was: map<Context, nat>, scheduled: map<nat, set<Context>>, eventTimes: map<Context, nat>,
                pending: seq<Context>, now: nat, it: Option<nat>)
    requires Inverse(scheduled, eventTimes) && Took(was, eventTimes, pending)
    requires it == KeyAtOrAfter(scheduled.Keys, 0) && (it.Some? ==> it.value > now)
    requires forall c :: c in pending ==> c in was && was[c] <= now
    ensures eventTimes == Later(was, now)
    ensures forall c :: c in pending <==> c in was && was[c] <= now
  {
    assert forall c :: c in eventTimes ==> eventTimes[c] > now;
  }
}
