/** What the cache promises its user: what is written reaches the disk, and comes back from there. */
module CacheProgress {
  import opened Extents
  import opened CacheCoherence
  import StaleReads

  /** Only what is in flight finishes. */
  ghost predicate DeviceOnly(steps: seq<Step>) {
    forall k :: 0 <= k < |steps| ==> steps[k].DoFinishWrite? || steps[k].DoFinishRead?
  }

  /** The requests for disk block b that the device carries out before number n. */
  ghost function Earlier(s: State, b: nat, n: nat): set<nat> {
    (set m | m in s.writes && m < n && s.writes[m].block == b) +
    (set m | m in s.fetches && m < n && s.fetches[m].block == b)
  }

  /** Request `id` writes block i, as it is in the cache, to its place. */
  ghost predicate OnItsWay(s: State, i: nat, id: nat, b: nat, bytes: Bytes) {
    && i in s.cells && s.cells[i].state.Tx? && s.cells[i].bytes == Some(bytes)
    && i in s.loc && s.loc[i] == b && id < s.next
    && LastFor(s.writes, id, b) && s.writes[id] == WriteReq(i, b, bytes, s.cells[i].version, s.cache)
  }

  /** Block i is clean, and on disk. */
  ghost predicate Landed(s: State, i: nat, b: nat, bytes: Bytes) {
    && i in s.cells && s.cells[i].state.Clean? && s.cells[i].bytes == Some(bytes)
    && i in s.loc && s.loc[i] == b && OnDisk(s.disk, b) == bytes
  }

  lemma TxOnItsWay(s: State, i: nat)
    requires Inv(s) && i in s.loc && i in s.cells && s.cells[i].state.Tx?
    ensures s.cells[i].bytes.Some?
    ensures exists id: nat :: OnItsWay(s, i, id, s.loc[i], s.cells[i].bytes.value)
  {
    assert Flow(s, i);
    var id: nat :| LastFor(s.writes, id, s.loc[i]) && s.cells[i].bytes.Some?
      && s.writes[id] == WriteReq(i, s.loc[i], s.cells[i].bytes.value, s.cells[i].version, s.cache);
    assert OnItsWay(s, i, id, s.loc[i], s.cells[i].bytes.value);
  }

  /** Nothing is ahead of the write. */
  lemma Lands(s: State, i: nat, id: nat, b: nat, bytes: Bytes)
    requires OnItsWay(s, i, id, b, bytes) && Earlier(s, b, id) == {} && id !in s.fetches
    ensures CanFinishWrite(s, id) && Landed(FinishWrite(s, id), i, b, bytes)
    ensures FinishWrite(s, id).csum == s.csum
  {
    forall j: nat | Targets(s.writes, j, b) ensures id <= j {
      assert j !in Earlier(s, b, id);
    }
    forall j | j in s.fetches && s.fetches[j].block == b ensures id < j {
      assert j !in Earlier(s, b, id);
    }
  }

  ghost predicate FirstIn(s: State, b: nat, id: nat, m: nat) {
    m in Earlier(s, b, id) && forall j :: j in Earlier(s, b, id) ==> m <= j
  }

  lemma FirstInExists(s: State, b: nat, id: nat) returns (m: nat)
    requires Earlier(s, b, id) != {}
    ensures FirstIn(s, b, id, m) && (m in s.writes || m in s.fetches) && m < id
  {
    var x: nat :| x in Earlier(s, b, id);
    LeastExists(Earlier(s, b, id), x);
    m :| Least(Earlier(s, b, id), m);
  }

  lemma FirstCan(s: State, b: nat, id: nat, m: nat)
    requires Inv(s) && FirstIn(s, b, id, m)
    ensures m in s.writes ==> CanFinishWrite(s, m) && m !in s.fetches
    ensures m in s.fetches ==> CanFinishRead(s, m) && m !in s.writes
  {
    hide Flow;
    hide Current;
    forall j: nat | Targets(s.writes, j, b) ensures m <= j {
      assert j < id ==> j in Earlier(s, b, id);
    }
    forall j | j in s.fetches && s.fetches[j].block == b ensures m <= j {
      assert j < id ==> j in Earlier(s, b, id);
    }
  }

  lemma WriteAhead(s: State, i: nat, id: nat, b: nat, bytes: Bytes, m: nat)
    requires Inv(s) && OnItsWay(s, i, id, b, bytes) && m in s.writes && m < id && s.writes[m].block == b
    ensures var t := FinishWrite(s, m); OnItsWay(t, i, id, b, bytes) && SumOf(t.csum, i) == SumOf(s.csum, i)
  {
    assert Current(s, m);
    assert Targets(s.writes, id, b);
    hide Inv;
    hide Current;
    hide Flow;
    var t := FinishWrite(s, m);
    assert forall j: nat :: Targets(t.writes, j, b) ==> Targets(s.writes, j, b);
  }

  lemma WriteLess(s: State, b: nat, id: nat, m: nat)
    requires m in s.writes && m !in s.fetches && m in Earlier(s, b, id)
    ensures Earlier(FinishWrite(s, m), b, id) < Earlier(s, b, id)
  {
    assert m !in Earlier(FinishWrite(s, m), b, id);
    assert Earlier(FinishWrite(s, m), b, id) <= Earlier(s, b, id);
  }

  lemma ReadAhead(s: State, i: nat, id: nat, b: nat, bytes: Bytes, m: nat)
    requires Injective(s.loc) && OnItsWay(s, i, id, b, bytes) && m in s.fetches
    ensures var t := FinishRead(s, m, [], false); OnItsWay(t, i, id, b, bytes) && SumOf(t.csum, i) == SumOf(s.csum, i)
  {
    hide Csum;
    hide ReadIn;
    var t := FinishRead(s, m, [], false);
    var r := s.fetches[m];
    if r.cache == s.cache && r.obj in s.cells && s.cells[r.obj].state.Partial? && r.obj in s.loc {
      assert s.loc[r.obj] != b;
    }
    assert forall j: nat :: Targets(t.writes, j, b) ==> Targets(s.writes, j, b);
  }

  lemma ReadLess(s: State, b: nat, id: nat, m: nat)
    requires m in s.fetches && m !in s.writes && m in Earlier(s, b, id) && id < s.next
    ensures Earlier(FinishRead(s, m, [], false), b, id) < Earlier(s, b, id)
  {
    hide Csum;
    hide ReadIn;
    var t := FinishRead(s, m, [], false);
    assert m !in Earlier(t, b, id);
    forall j | j in Earlier(t, b, id) ensures j in Earlier(s, b, id) {
    }
  }

  lemma RunFirst(s: State, step: Step, rest: seq<Step>)
    requires Can(s, step) && CanRun(After(s, step), rest)
    ensures CanRun(s, [step] + rest) && End(s, [step] + rest) == End(After(s, step), rest)
  {
    hide *;
    StaleReads.RunFirst(s, step, rest);
  }

  /** What the device does before it comes to the write. */
  lemma StepAhead(s: State, i: nat, id: nat, b: nat, bytes: Bytes) returns (step: Step)
    requires Sound(s) && OnItsWay(s, i, id, b, bytes) && Earlier(s, b, id) != {}
    ensures (step.DoFinishWrite? || step.DoFinishRead?) && Can(s, step) && Sound(After(s, step))
    ensures var t := After(s, step);
            && OnItsWay(t, i, id, b, bytes) && SumOf(t.csum, i) == SumOf(s.csum, i)
            && |Earlier(t, b, id)| < |Earlier(s, b, id)|
  {
    hide Inv;
    hide FreshFetch;
    hide Earlier;
    hide FirstIn;
    hide OnItsWay;
    hide FinishRead;
    hide FinishWrite;
    hide SumOf;
    var m := FirstInExists(s, b, id);
    FirstCan(s, b, id, m);
    FirstFacts(s, i, id, b, bytes, m);
    if m in s.writes {
      step := DoFinishWrite(m);
      WriteAhead(s, i, id, b, bytes, m);
      WriteLess(s, b, id, m);
    } else {
      step := DoFinishRead(m, [], false);
      ReadAhead(s, i, id, b, bytes, m);
      ReadLess(s, b, id, m);
    }
    StepKeeps(s, step);
    StaleReads.Smaller(Earlier(After(s, step), b, id), Earlier(s, b, id));
  }

  lemma FirstFacts(s: State, i: nat, id: nat, b: nat, bytes: Bytes, m: nat)
    requires Inv(s) && OnItsWay(s, i, id, b, bytes) && FirstIn(s, b, id, m)
    ensures Injective(s.loc) && m in Earlier(s, b, id) && id < s.next
    ensures m in s.writes && m !in s.fetches ==> s.writes[m].block == b
  {
    hide Flow;
    hide Current;
  }

  lemma LastStep(s: State, i: nat, id: nat, b: nat, bytes: Bytes)
    requires Sound(s) && OnItsWay(s, i, id, b, bytes) && Earlier(s, b, id) == {}
    ensures Can(s, DoFinishWrite(id)) && Sound(After(s, DoFinishWrite(id)))
    ensures Landed(After(s, DoFinishWrite(id)), i, b, bytes)
    ensures SumOf(After(s, DoFinishWrite(id)).csum, i) == SumOf(s.csum, i)
  {
    hide Inv;
    hide FreshFetch;
    hide Earlier;
    hide FinishWrite;
    hide SumOf;
    hide Landed;
    assert id in s.writes;
    OwnNumber(s, id);
    Lands(s, i, id, b, bytes);
    StepKeeps(s, DoFinishWrite(id));
  }

  /** The device comes to the write of block i. */
  lemma {:induction false} WriteLands(s: State, i: nat, id: nat, b: nat, bytes: Bytes) returns (steps: seq<Step>)
    requires Sound(s) && OnItsWay(s, i, id, b, bytes)
    ensures DeviceOnly(steps) && CanRun(s, steps)
    ensures Sound(End(s, steps)) && Landed(End(s, steps), i, b, bytes)
    ensures SumOf(End(s, steps).csum, i) == SumOf(s.csum, i)
    decreases |Earlier(s, b, id)|
  {
    hide *;
    var step: Step;
    var rest: seq<Step>;
    if Earlier(s, b, id) == {} {
      step := DoFinishWrite(id);
      LastStep(s, i, id, b, bytes);
      NoSteps(After(s, step));
      rest := [];
    } else {
      step := StepAhead(s, i, id, b, bytes);
      rest := WriteLands(After(s, step), i, id, b, bytes);
    }
    RunFirst(s, step, rest);
    FirstIsDevice(step, rest);
    steps := [step] + rest;
  }

  lemma NoSteps(s: State)
    ensures CanRun(s, []) && End(s, []) == s && DeviceOnly([])
  {
  }

  lemma FirstIsDevice(step: Step, rest: seq<Step>)
    requires DeviceOnly(rest) && (step.DoFinishWrite? || step.DoFinishRead?)
    ensures DeviceOnly([step] + rest)
  {
  }

  lemma OwnNumber(s: State, id: nat)
    requires Inv(s) && id in s.writes
    ensures id !in s.fetches
  {
  }

  /** A block that has been changed reaches the disk, also if its write was taken back. */
  lemma ReachesDisk(s: State, i: nat) returns (steps: seq<Step>)
    requires Sound(s) && i in s.cells && i in s.loc && (s.cells[i].state.Tx? || s.cells[i].state.Dirty?)
    ensures s.cells[i].bytes.Some? && CanRun(s, steps) && Sound(End(s, steps))
    ensures Landed(End(s, steps), i, s.loc[i], s.cells[i].bytes.value)
    ensures DeviceOnly(if s.cells[i].state.Dirty? then steps[1..] else steps)
  {
    hide Inv;
    hide FreshFetch;
    hide OnItsWay;
    if s.cells[i].state.Tx? {
      TxOnItsWay(s, i);
      var id: nat :| OnItsWay(s, i, id, s.loc[i], s.cells[i].bytes.value);
      steps := WriteLands(s, i, id, s.loc[i], s.cells[i].bytes.value);
    } else {
      DirtyHasBytes(s, i);
      var t := Requeue(s, i);
      StepKeeps(s, DoRequeue(i));
      TxOnItsWay(t, i);
      var id: nat :| OnItsWay(t, i, id, t.loc[i], t.cells[i].bytes.value);
      var rest := WriteLands(t, i, id, t.loc[i], t.cells[i].bytes.value);
      RunFirst(s, DoRequeue(i), rest);
      steps := [DoRequeue(i)] + rest;
      assert steps[1..] == rest;
    }
  }

  lemma DirtyHasBytes(s: State, i: nat)
    requires Inv(s) && i in s.loc && i in s.cells && s.cells[i].state.Dirty?
    ensures CanRequeue(s, i)
  {
    assert Flow(s, i);
  }

  /** A read of a block that is not cached brings what is on disk; its checksum says whether it is
      taken for corrupt. */
  lemma ReadBrings(s: State, i: nat)
    requires Sound(s) && i !in s.cells && i in s.loc
    ensures var t := Read(s, i);
            && Can(s, DoRead(i)) && t == After(s, DoRead(i)) && Can(t, DoFinishRead(s.next, [], false))
            && var r := After(t, DoFinishRead(s.next, [], false));
               && i in r.cells && r.cells[i].bytes == Some(OnDisk(s.disk, s.loc[i])) && r.loc == s.loc && r.disk == s.disk
               && (if s.verify && Csum(OnDisk(s.disk, s.loc[i])) != SumOf(s.csum, i) then r.cells[i].state.Corrupt?
                   else r.cells[i].state.Clean?)
  {
    hide Csum;
    assert Flow(s, i);
    var t := Read(s, i);
    assert forall j: nat :: Targets(t.writes, j, s.loc[i]) ==> Targets(s.writes, j, s.loc[i]);
  }

  lemma EvictLeaves(s: State, i: nat)
    requires Sound(s) && CanEvict(s, i)
    ensures Sound(Evict(s, i))
    ensures var t := Evict(s, i); i !in t.cells && t.loc == s.loc && t.disk == s.disk && t.csum == s.csum && t.verify == s.verify
  {
    hide Inv;
    hide FreshFetch;
    StepKeeps(s, DoEvict(i));
  }

  /** The block leaves the cache, and is read back. */
  ghost predicate ComesBack(t: State, i: nat, b: nat, bytes: Bytes, f: nat) {
    Can(t, DoEvict(i)) && Can(After(t, DoEvict(i)), DoRead(i)) && i !in After(t, DoEvict(i)).cells &&
    var u := After(After(t, DoEvict(i)), DoRead(i));
    Can(u, DoFinishRead(f, [], false)) && Landed(After(u, DoFinishRead(f, [], false)), i, b, bytes)
  }

  lemma LandedComesBack(t: State, i: nat, b: nat, bytes: Bytes)
    requires Sound(t) && Landed(t, i, b, bytes) && SumOf(t.csum, i) == Csum(bytes)
    ensures ComesBack(t, i, b, bytes, Evict(t, i).next)
  {
    hide Inv;
    hide FreshFetch;
    hide Csum;
    hide SumOf;
    EvictLeaves(t, i);
    ReadBrings(Evict(t, i), i);
  }

  lemma OverwriteStarts(s: State, i: nat, b: nat, bytes: Bytes) returns (id: nat)
    requires Sound(s) && CanMoveTo(s, i, b)
    ensures var t := After(s, DoOverwrite(i, b, bytes));
            Sound(t) && OnItsWay(t, i, id, b, bytes) && SumOf(t.csum, i) == Csum(bytes)
  {
    hide Inv;
    hide FreshFetch;
    hide OnItsWay;
    hide Csum;
    var t := Overwrite(s, i, b, bytes);
    StepKeeps(s, DoOverwrite(i, b, bytes));
    TxOnItsWay(t, i);
    id :| OnItsWay(t, i, id, b, bytes);
  }

  /** Whatever else is going on: a block that is written wherever it may be placed reaches the disk;
      it may leave the cache then; and when it is read again, it has the same bytes and is good. */
  lemma WriteThenRead(s: State, i: nat, b: nat, bytes: Bytes) returns (steps: seq<Step>, f: nat)
    requires Sound(s) && CanMoveTo(s, i, b)
    ensures DeviceOnly(steps) && CanRun(s, [DoOverwrite(i, b, bytes)] + steps)
    ensures var t := End(s, [DoOverwrite(i, b, bytes)] + steps);
            Landed(t, i, b, bytes) && ComesBack(t, i, b, bytes, f)
  {
    var o := DoOverwrite(i, b, bytes);
    assert Can(s, o);
    hide *;
    var id := OverwriteStarts(s, i, b, bytes);
    steps := WriteLands(After(s, o), i, id, b, bytes);
    RunFirst(s, o, steps);
    LandedComesBack(End(After(s, o), steps), i, b, bytes);
    f := Evict(End(After(s, o), steps), i).next;
  }
}
