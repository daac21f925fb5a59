/** Which bytes the buffer cache of an object may show as clean, block by block, while reads and
    writes are in flight, cancelled and repeated (src/ebofs/BufferCache.cc, src/ebofs/Ebofs.cc).

    A request for several blocks counts as one request per block here: the device may finish them
    in any order, except that requests for the same disk block are carried out in order. Each step
    is taken under `ebofs_lock`.

    The cache of an object is closed when its last block leaves it, and a new one is opened when
    the object is used again. A completion works on the cache that its request came from, so that
    it changes nothing if that cache has been closed. */
module CacheCoherence {
  import opened Extents

  type Bytes = seq<Byte>

  datatype HeadState = Missing | Clean | Dirty | Tx | Rx | Partial | Corrupt

  /** A cached block. Without bytes it is a hole, or not loaded. */
  datatype Cached = Cached(state: HeadState, version: nat, bytes: Option<Bytes>)

  /** A write of object block `obj`, with the version it had, to disk block `block`; `cache` is the
      cache that it came from. */
  datatype WriteReq = WriteReq(obj: nat, block: nat, bytes: Bytes, version: nat, cache: nat)
  datatype ReadReq = ReadReq(obj: nat, block: nat, cache: nat)

  datatype State = State(
    cells: map<nat, Cached>,
    loc: map<nat, nat>,            // where each object block that is not a hole is on disk
    writes: map<nat, WriteReq>,    // in flight, by number
    fetches: map<nat, ReadReq>,    // reads in flight
    next: nat,
    disk: map<nat, Bytes>,
    csum: map<nat, nat>,           // the checksum that the onode has for each object block
    writeCount: nat,               // of the cache that is open
    cache: nat,                    // the number of that cache
    verify: bool)                  // ebofs_verify_csum_on_read

  ghost predicate Targets(writes: map<nat, WriteReq>, id: nat, b: nat) {
    id in writes && writes[id].block == b
  }

  ghost predicate Quiet(writes: map<nat, WriteReq>, b: nat) {
    forall id: nat :: !Targets(writes, id, b)
  }

  ghost predicate LastFor(writes: map<nat, WriteReq>, id: nat, b: nat) {
    Targets(writes, id, b) && forall j: nat :: Targets(writes, j, b) ==> j <= id
  }

  ghost predicate FirstFor(writes: map<nat, WriteReq>, id: nat, b: nat) {
    Targets(writes, id, b) && forall j: nat :: Targets(writes, j, b) ==> id <= j
  }

  function OnDisk(disk: map<nat, Bytes>, b: nat): Bytes {
    if b in disk then disk[b] else []
  }

  function SumOf(csum: map<nat, nat>, i: nat): nat {
    if i in csum then csum[i] else 0
  }

  /** 256 to the power of i modulo 8: what byte i of a block counts in its 64-bit word. */
  function Place(i: nat): nat {
    if i % 8 == 0 then 1 else 256 * Place(i - 1)
  }

  const WORD: nat := 0x1_0000_0000_0000_0000

  function Term(v: Byte, i: nat): nat {
    v as nat * Place(i)
  }

  /** calc_csum: the sum of the 64-bit words of a block. */
  function Csum(bytes: Bytes): nat {
    if bytes == [] then 0 else (Csum(bytes[..|bytes| - 1]) + Term(bytes[|bytes| - 1], |bytes| - 1)) % WORD
  }

  // ---- the steps ----

  ghost function AddFetch(s: State, i: nat, b: nat): State {
    s.(fetches := s.fetches[s.next := ReadReq(i, b, s.cache)], next := s.next + 1)
  }

  /** bh_write */
  ghost function Queue(s: State, i: nat, bytes: Bytes, version: nat, b: nat): State {
    s.(cells := s.cells[i := Cached(Tx, version, Some(bytes))],
       writes := s.writes[s.next := WriteReq(i, b, bytes, version, s.cache)], next := s.next + 1)
  }

  /** apply_write, a whole block: the block stays where it is, or moves to a block that the
      allocator hands out, to which nothing is in flight. */
  ghost predicate CanMoveTo(s: State, i: nat, b: nat) {
    (i in s.loc && s.loc[i] == b) || (Quiet(s.writes, b) && forall j :: j in s.loc ==> s.loc[j] != b)
  }
  ghost function Overwrite(s: State, i: nat, b: nat, bytes: Bytes): State {
    Queue(s.(loc := s.loc[i := b], csum := s.csum[i := Csum(bytes)], writeCount := s.writeCount + 1),
          i, bytes, s.writeCount + 1, b)
  }

  /** apply_write, part of a block that is not in memory: the rest is read first, unless a read of
      the block is under way. */
  ghost predicate CanStartPartial(s: State, i: nat, b: nat) {
    CanMoveTo(s, i, b) && i in s.loc && (i in s.cells ==> s.cells[i].state.Missing? || s.cells[i].state.Rx?)
  }
  ghost function StartPartial(s: State, i: nat, b: nat): State
    requires i in s.loc
  {
    if i in s.cells && s.cells[i].state.Rx? then PartialAt(s, i, b) else AddFetch(PartialAt(s, i, b), i, s.loc[i])
  }
  ghost function PartialAt(s: State, i: nat, b: nat): State {
    s.(cells := s.cells[i := Cached(Partial, s.writeCount + 1, None)], loc := s.loc[i := b],
       writeCount := s.writeCount + 1)
  }

  /** bh_cancel_write, and the repeated bh_write of what is not overwritten. */
  ghost predicate CanCancelWrite(s: State, id: nat) {
    id in s.writes && s.writes[id].cache == s.cache && s.writes[id].obj in s.cells
    && s.cells[s.writes[id].obj].state.Tx? && s.cells[s.writes[id].obj].version == s.writes[id].version
  }
  ghost function CancelWrite(s: State, id: nat): State
    requires id in s.writes && s.writes[id].obj in s.cells
  {
    var i := s.writes[id].obj;
    s.(cells := s.cells[i := s.cells[i].(state := Dirty)], writes := s.writes - {id})
  }
  ghost predicate CanRequeue(s: State, i: nat) {
    i in s.cells && s.cells[i].state.Dirty? && i in s.loc && s.cells[i].bytes.Some?
  }
  ghost function Requeue(s: State, i: nat): State
    requires CanRequeue(s, i)
  {
    Queue(s, i, s.cells[i].bytes.value, s.cells[i].version, s.loc[i])
  }

  /** tx_finish: only the completion of the current version makes a block clean. */
  ghost predicate CanFinishWrite(s: State, id: nat) {
    id in s.writes && FirstFor(s.writes, id, s.writes[id].block)
    && forall j :: j in s.fetches && s.fetches[j].block == s.writes[id].block ==> id < j
  }
  ghost function FinishWrite(s: State, id: nat): State
    requires id in s.writes
  {
    var w := s.writes[id];
    s.(disk := s.disk[w.block := w.bytes], writes := s.writes - {id},
       cells := if w.cache == s.cache && w.obj in s.cells && s.cells[w.obj].state.Tx? && s.cells[w.obj].version == w.version
                then s.cells[w.obj := s.cells[w.obj].(state := Clean)] else s.cells)
  }

  /** map_read and bh_read; a block whose read was cancelled is read again. */
  ghost predicate CanRead(s: State, i: nat) {
    i in s.cells ==> s.cells[i].state.Missing? && i in s.loc
  }
  ghost function Read(s: State, i: nat): State {
    if i in s.loc then AddFetch(s.(cells := s.cells[i := Cached(Rx, 0, None)]), i, s.loc[i])
    else s.(cells := s.cells[i := Cached(Clean, 0, None)])
  }

  /** bh_cancel_read, for the read that the block waits for. A partial write may wait for a read of the
      place where the block was. */
  ghost predicate CanCancelRead(s: State, id: nat) {
    id in s.fetches && var r := s.fetches[id];
    && r.cache == s.cache && r.obj in s.cells && r.obj in s.loc
    && (s.cells[r.obj].state.Partial? || (s.cells[r.obj].state.Rx? && s.loc[r.obj] == r.block))
  }
  ghost function CancelRead(s: State, id: nat): State
    requires id in s.fetches && s.fetches[id].obj in s.cells
  {
    var i := s.fetches[id].obj;
    s.(cells := s.cells[i := s.cells[i].(state := Missing)], fetches := s.fetches - {id})
  }

  /** rx_finish. It does not ask which read has finished. `full` is what a partial write makes of
      the block. `tail`: no block after this one in its head has the right checksum. */
  ghost predicate CanFinishRead(s: State, id: nat) {
    id in s.fetches && forall j: nat :: Targets(s.writes, j, s.fetches[id].block) ==> id < j
  }
  ghost function FinishRead(s: State, id: nat, full: Bytes, tail: bool): State
    requires id in s.fetches
  {
    var r := s.fetches[id];
    var t := s.(fetches := s.fetches - {id});
    if r.cache != s.cache || r.obj !in s.cells then t
    else
      var c := s.cells[r.obj];
      if c.state.Rx? then t.(cells := t.cells[r.obj := ReadIn(s, c, r.obj, OnDisk(s.disk, r.block), tail)])
      else if c.state.Partial? && r.obj in s.loc then
        Queue(t.(csum := t.csum[r.obj := Csum(full)]), r.obj, full, c.version, s.loc[r.obj])
      else t
  }

  /** The block is corrupt if its checksum is verified and is not the one that the onode has; but the
      bad blocks at the end of a head are marked clean in the end (src/ebofs/BufferCache.cc:191-222;
      `ObjectCaches.ObjectCache.VerifyHead`). */
  ghost function ReadIn(s: State, c: Cached, i: nat, bytes: Bytes, tail: bool): Cached {
    c.(state := if s.verify && !tail && Csum(bytes) != SumOf(s.csum, i) then Corrupt else Clean, bytes := Some(bytes))
  }

  /** close_oc */
  ghost function Close(s: State): State {
    s.(cache := s.cache + 1, writeCount := 0)
  }

  /** trim_bc: a head that nothing is waiting for is dropped, and with the last one the cache is
      closed. */
  ghost predicate CanEvict(s: State, i: nat) {
    i in s.cells && (s.cells[i].state.Clean? || s.cells[i].state.Corrupt?)
  }
  ghost function Evict(s: State, i: nat): State {
    var t := s.(cells := s.cells - {i});
    if t.cells == map[] then Close(t) else t
  }

  /** discard_bh and the change of the extent map that goes with it: the block becomes a hole, or
      is past the end. What is in flight and cannot be cancelled goes on. A truncation closes the
      cache if it has become empty; zeroing does not. */
  ghost function Discard(s: State, i: nat, truncation: bool): State {
    var t := s.(cells := s.cells - {i}, loc := s.loc - {i});
    if truncation && t.cells == map[] then Close(t) else t
  }

  datatype Step =
    | DoOverwrite(i: nat, b: nat, bytes: Bytes)
    | DoStartPartial(i: nat, b: nat)
    | DoCancelWrite(id: nat)
    | DoRequeue(i: nat)
    | DoFinishWrite(id: nat)
    | DoRead(i: nat)
    | DoCancelRead(id: nat)
    | DoFinishRead(id: nat, full: Bytes, tail: bool)
    | DoEvict(i: nat)
    | DoDiscard(i: nat, truncation: bool)

  ghost predicate Can(s: State, step: Step) {
    match step
    case DoOverwrite(i, b, _) => CanMoveTo(s, i, b)
    case DoStartPartial(i, b) => CanStartPartial(s, i, b)
    case DoCancelWrite(id) => CanCancelWrite(s, id)
    case DoRequeue(i) => CanRequeue(s, i)
    case DoFinishWrite(id) => CanFinishWrite(s, id)
    case DoRead(i) => CanRead(s, i)
    case DoCancelRead(id) => CanCancelRead(s, id)
    case DoFinishRead(id, _, _) => CanFinishRead(s, id)
    case DoEvict(i) => CanEvict(s, i)
    case DoDiscard(_, _) => true
  }

  ghost function After(s: State, step: Step): State
    requires Can(s, step)
  {
    match step
    case DoOverwrite(i, b, bytes) => Overwrite(s, i, b, bytes)
    case DoStartPartial(i, b) => StartPartial(s, i, b)
    case DoCancelWrite(id) => CancelWrite(s, id)
    case DoRequeue(i) => Requeue(s, i)
    case DoFinishWrite(id) => FinishWrite(s, id)
    case DoRead(i) => Read(s, i)
    case DoCancelRead(id) => CancelRead(s, id)
    case DoFinishRead(id, full, tail) => FinishRead(s, id, full, tail)
    case DoEvict(i) => Evict(s, i)
    case DoDiscard(i, truncation) => Discard(s, i, truncation)
  }

  // ---- what holds ----

  /** No two object blocks are in the same place. */
  ghost predicate Injective(loc: map<nat, nat>) {
    forall i, j :: i in loc && j in loc && i != j ==> loc[i] != loc[j]
  }

  ghost predicate Numbered(s: State) {
    && (forall id :: id in s.writes ==> id < s.next && s.writes[id].cache <= s.cache && id !in s.fetches)
    && (forall id :: id in s.writes && s.writes[id].cache == s.cache ==> 0 < s.writes[id].version <= s.writeCount)
    && (forall id :: id in s.fetches ==> id < s.next && s.fetches[id].cache <= s.cache)
    && (forall i :: i in s.cells ==> s.cells[i].version <= s.writeCount)
    && (forall i :: i in s.cells && s.cells[i].version == 0 ==>
          !s.cells[i].state.Tx? && !s.cells[i].state.Dirty? && !s.cells[i].state.Partial?)
  }

  /** What is in flight to the place of block i, given its cell. */
  ghost predicate Flow(s: State, i: nat)
    requires i in s.loc
  {
    var b := s.loc[i];
    if i in s.cells && s.cells[i].state.Tx? then
      exists id: nat :: LastFor(s.writes, id, b) && s.cells[i].bytes.Some?
                 && s.writes[id] == WriteReq(i, b, s.cells[i].bytes.value, s.cells[i].version, s.cache)
    else if i in s.cells && s.cells[i].state.Dirty? then s.cells[i].bytes.Some?
    else Quiet(s.writes, b)
  }

  /** A write that carries the current version of a block carries its bytes to its place, and is
      the last one there. */
  ghost predicate Current(s: State, id: nat)
    requires id in s.writes
  {
    var w := s.writes[id];
    w.cache == s.cache && w.obj in s.cells && s.cells[w.obj].version == w.version ==>
      && s.cells[w.obj].state.Tx? && s.cells[w.obj].bytes == Some(w.bytes)
      && w.obj in s.loc && s.loc[w.obj] == w.block && LastFor(s.writes, id, w.block)
  }

  /** A clean block that is not a hole holds what is on disk. */
  ghost predicate CleanOk(s: State, i: nat)
    requires i in s.cells
  {
    s.cells[i].state.Clean? && s.cells[i].bytes.Some? ==>
      i in s.loc && s.cells[i].bytes.value == OnDisk(s.disk, s.loc[i])
  }

  ghost predicate Placed(s: State, i: nat)
    requires i in s.cells
  {
    (s.cells[i].state.Tx? || s.cells[i].state.Rx? || s.cells[i].state.Dirty? || s.cells[i].state.Partial?) ==> i in s.loc
  }

  ghost predicate Inv(s: State) {
    && Injective(s.loc)
    && Numbered(s)
    && (forall i :: i in s.loc ==> Flow(s, i))
    && (forall id :: id in s.writes ==> Current(s, id))
    && (forall i :: i in s.cells ==> CleanOk(s, i) && Placed(s, i))
  }

  /** A read of this cache that is under way for a block that waits for one comes from where the
      block is. */
  ghost predicate FreshFetch(s: State, id: nat) {
    id in s.fetches ==>
    var r := s.fetches[id];
    r.cache == s.cache && r.obj in s.cells && s.cells[r.obj].state.Rx? ==> r.obj in s.loc && s.loc[r.obj] == r.block
  }

  ghost predicate Sound(s: State) {
    Inv(s) && forall id: nat :: FreshFetch(s, id)
  }

  /** A read of block i from some other place, which this cache began and which has not finished. */
  ghost predicate OldRead(s: State, i: nat, id: nat) {
    id in s.fetches && i in s.loc
    && s.fetches[id].obj == i && s.fetches[id].cache == s.cache && s.fetches[id].block != s.loc[i]
  }

  /** What map_read would have to ask before it reads a block: whether a read of the block from
      some other place is still under way. */
  ghost predicate Careful(s: State, step: Step) {
    step.DoRead? ==> forall id: nat :: !OldRead(s, step.i, id)
  }

  // ---- every step keeps it ----

  /** Queueing a write of block i to its place. */
  ghost predicate Queueable(s: State, i: nat, version: nat, b: nat) {
    && i in s.loc && s.loc[i] == b && 0 < version <= s.writeCount
    && (forall id :: id in s.writes && s.writes[id].obj == i && s.writes[id].cache == s.cache ==>
          s.writes[id].version != version)
  }

  lemma QueueFlow(s: State, i: nat, bytes: Bytes, version: nat, b: nat, j: nat)
    requires Injective(s.loc) && Numbered(s) && Queueable(s, i, version, b)
    requires j in s.loc && (j != i ==> Flow(s, j))
    ensures Flow(Queue(s, i, bytes, version, b), j)
  {
    var r := Queue(s, i, bytes, version, b);
    if j == i {
      assert LastFor(r.writes, s.next, b);
    } else {
      assert s.loc[j] != b;
      QueueElsewhere(s, i, bytes, version, b, s.loc[j]);
    }
  }

  lemma QueueElsewhere(s: State, i: nat, bytes: Bytes, version: nat, b: nat, c: nat)
    requires Numbered(s) && c != b
    ensures var r := Queue(s, i, bytes, version, b);
            && (Quiet(s.writes, c) ==> Quiet(r.writes, c))
            && forall id: nat :: LastFor(s.writes, id, c) ==> LastFor(r.writes, id, c) && r.writes[id] == s.writes[id]
  {
    var r := Queue(s, i, bytes, version, b);
    assert forall id: nat :: Targets(r.writes, id, c) <==> Targets(s.writes, id, c);
  }

  lemma QueueKeeps(s: State, i: nat, bytes: Bytes, version: nat, b: nat)
    requires Injective(s.loc) && Numbered(s) && Queueable(s, i, version, b)
    requires forall j :: j in s.loc && j != i ==> Flow(s, j)
    requires forall id :: id in s.writes && s.writes[id].obj != i ==> Current(s, id)
    requires forall j :: j in s.cells && j != i ==> CleanOk(s, j) && Placed(s, j)
    ensures Inv(Queue(s, i, bytes, version, b))
  {
    hide Flow;
    var r := Queue(s, i, bytes, version, b);
    forall j | j in r.loc ensures Flow(r, j) {
      QueueFlow(s, i, bytes, version, b, j);
    }
    forall id | id in r.writes ensures Current(r, id) {
      QueueCurrent(s, i, bytes, version, b, id);
    }
  }

  lemma QueueCurrent(s: State, i: nat, bytes: Bytes, version: nat, b: nat, id: nat)
    requires Injective(s.loc) && Numbered(s) && Queueable(s, i, version, b)
    requires id in s.writes && s.writes[id].obj != i ==> Current(s, id)
    requires id in s.writes || id == s.next
    ensures Current(Queue(s, i, bytes, version, b), id)
  {
    var r := Queue(s, i, bytes, version, b);
    if id == s.next {
      assert LastFor(r.writes, s.next, b);
    } else if s.writes[id].obj != i && s.writes[id].block != b {
      QueueElsewhere(s, i, bytes, version, b, s.writes[id].block);
    }
  }

  lemma OverwriteKeeps(s: State, i: nat, b: nat, bytes: Bytes)
    requires Inv(s) && CanMoveTo(s, i, b)
    ensures Inv(Overwrite(s, i, b, bytes))
  {
    var m := s.(loc := s.loc[i := b], csum := s.csum[i := Csum(bytes)], writeCount := s.writeCount + 1);
    forall j | j in m.loc && j != i ensures Flow(m, j) {
      MoveFlow(s, i, b, m, j);
    }
    MoveInjective(s, i, b);
    hide *;
    QueueKeeps(m, i, bytes, s.writeCount + 1, b);
  }

  lemma MoveInjective(s: State, i: nat, b: nat)
    requires Injective(s.loc) && CanMoveTo(s, i, b)
    ensures Injective(s.loc[i := b])
  {
  }

  /** Moving block i changes nothing for block j. */
  lemma MoveFlow(s: State, i: nat, b: nat, m: State, j: nat)
    requires j in s.loc ==> Flow(s, j)
    requires m.loc == s.loc[i := b] && m.writes == s.writes && m.cache == s.cache
    requires j in m.loc && j != i && (j in m.cells <==> j in s.cells) && (j in s.cells ==> m.cells[j] == s.cells[j])
    ensures Flow(m, j)
  {
  }

  lemma StartPartialKeeps(s: State, i: nat, b: nat)
    requires Inv(s) && CanStartPartial(s, i, b)
    ensures Inv(StartPartial(s, i, b))
  {
    PartialAtKeeps(s, i, b);
    hide Inv;
    hide PartialAt;
    hide AddFetch;
    MoreFetches(PartialAt(s, i, b), i, s.loc[i]);
  }

  lemma PartialAtKeeps(s: State, i: nat, b: nat)
    requires Inv(s) && CanStartPartial(s, i, b)
    ensures Inv(PartialAt(s, i, b))
  {
    var t := PartialAt(s, i, b);
    MoveInjective(s, i, b);
    assert Flow(s, i);
    PartialFlow(s, i, b);
    forall j | j in t.loc && j != i ensures Flow(t, j) {
      MoveFlow(s, i, b, t, j);
    }
    hide Flow;
    hide CanMoveTo;
    hide LastFor;
    forall id | id in t.writes ensures Current(t, id) {
      assert Current(s, id);
    }
  }

  lemma PartialFlow(s: State, i: nat, b: nat)
    requires CanStartPartial(s, i, b) && Flow(s, i)
    ensures Flow(PartialAt(s, i, b), i)
  {
  }

  lemma MoreFetches(s: State, i: nat, b: nat)
    requires Inv(s)
    ensures Inv(AddFetch(s, i, b))
  {
    var t := AddFetch(s, i, b);
    assert forall j :: j in s.loc ==> Flow(s, j) ==> Flow(t, j);
    assert forall w :: w in s.writes ==> Current(s, w) ==> Current(t, w);
  }

  lemma CancelFlow(s: State, id: nat, j: nat)
    requires CanCancelWrite(s, id) && Current(s, id) && Injective(s.loc) && j in s.loc && Flow(s, j)
    ensures Flow(CancelWrite(s, id), j)
  {
    if j != s.writes[id].obj {
      RemoveElsewhere(s, id, s.loc[j]);
    }
  }

  lemma CancelCurrent(s: State, id: nat, w: nat)
    requires CanCancelWrite(s, id) && Current(s, id) && w in s.writes && w != id && Current(s, w)
    ensures Current(CancelWrite(s, id), w)
  {
    if s.writes[w].block != s.writes[id].block {
      RemoveElsewhere(s, id, s.writes[w].block);
    }
  }

  lemma CancelWriteKeeps(s: State, id: nat)
    requires Inv(s) && CanCancelWrite(s, id)
    ensures Inv(CancelWrite(s, id))
  {
    var r := CancelWrite(s, id);
    hide Flow;
    hide Current;
    forall j | j in r.loc ensures Flow(r, j) {
      CancelFlow(s, id, j);
    }
    forall w | w in r.writes ensures Current(r, w) {
      CancelCurrent(s, id, w);
    }
  }

  lemma RemoveElsewhere(s: State, id: nat, c: nat)
    requires id in s.writes && s.writes[id].block != c
    ensures Quiet(s.writes, c) ==> Quiet(s.writes - {id}, c)
    ensures forall j: nat :: LastFor(s.writes, j, c) ==> LastFor(s.writes - {id}, j, c)
  {
    assert forall j: nat :: Targets(s.writes - {id}, j, c) <==> Targets(s.writes, j, c);
  }

  lemma RequeueKeeps(s: State, i: nat)
    requires Inv(s) && CanRequeue(s, i)
    ensures Inv(Requeue(s, i))
  {
    forall id | id in s.writes && s.writes[id].obj == i && s.writes[id].cache == s.cache
      ensures s.writes[id].version != s.cells[i].version
    {
      assert Current(s, id);
    }
    hide Current;
    hide Flow;
    QueueKeeps(s, i, s.cells[i].bytes.value, s.cells[i].version, s.loc[i]);
  }

  // ---- completion of a write ----

  lemma FinishFlow(s: State, id: nat, j: nat)
    requires CanFinishWrite(s, id) && Current(s, id) && Injective(s.loc) && j in s.loc && Flow(s, j)
    ensures Flow(FinishWrite(s, id), j)
  {
    var w := s.writes[id];
    if w.block != s.loc[j] {
      RemoveElsewhere(s, id, s.loc[j]);
    } else if j in s.cells && s.cells[j].state.Tx? {
      var l: nat :| LastFor(s.writes, l, s.loc[j]) && s.cells[j].bytes.Some?
                    && s.writes[l] == WriteReq(j, s.loc[j], s.cells[j].bytes.value, s.cells[j].version, s.cache);
      if l == id {
        OnlyOne(s, id);
      } else {
        FirstNotLast(s, id, l);
      }
    }
  }

  /** The first write to a block that is also the last one. */
  lemma OnlyOne(s: State, id: nat)
    requires CanFinishWrite(s, id) && LastFor(s.writes, id, s.writes[id].block)
    ensures Quiet(s.writes - {id}, s.writes[id].block)
  {
    forall j: nat ensures !Targets(s.writes - {id}, j, s.writes[id].block) {
      assert Targets(s.writes - {id}, j, s.writes[id].block) ==> Targets(s.writes, j, s.writes[id].block);
    }
  }

  lemma FirstNotLast(s: State, id: nat, l: nat)
    requires CanFinishWrite(s, id) && LastFor(s.writes, l, s.writes[id].block) && l != id
    ensures LastFor(s.writes - {id}, l, s.writes[id].block)
  {
    assert forall j: nat :: Targets(s.writes - {id}, j, s.writes[id].block) ==> Targets(s.writes, j, s.writes[id].block);
    assert Targets(s.writes - {id}, l, s.writes[id].block);
  }

  lemma FinishCurrent(s: State, id: nat, v: nat)
    requires CanFinishWrite(s, id) && Current(s, id) && v in s.writes && v != id && Current(s, v)
    ensures Current(FinishWrite(s, id), v)
  {
    if s.writes[v].block != s.writes[id].block {
      RemoveElsewhere(s, id, s.writes[v].block);
    } else if LastFor(s.writes, v, s.writes[v].block) {
      FirstNotLast(s, id, v);
    }
  }

  /** Bytes that change on disk are not those of a clean block; and a block becomes clean only when
      its own bytes have been written. */
  lemma FinishClean(s: State, id: nat, j: nat)
    requires CanFinishWrite(s, id) && Current(s, id) && j in s.cells && CleanOk(s, j) && Placed(s, j)
    requires j in s.loc ==> Flow(s, j)
    ensures CleanOk(FinishWrite(s, id), j) && Placed(FinishWrite(s, id), j)
  {
    var w := s.writes[id];
    assert Targets(s.writes, id, w.block);
    if w.cache == s.cache && j == w.obj && s.cells[j].state.Tx? && s.cells[j].version == w.version {
      assert s.loc[j] == w.block && s.cells[j].bytes == Some(w.bytes);
    }
  }

  lemma FinishWriteKeeps(s: State, id: nat)
    requires Inv(s) && CanFinishWrite(s, id)
    ensures Inv(FinishWrite(s, id))
  {
    var r := FinishWrite(s, id);
    hide *;
    forall j | j in r.loc ensures Flow(r, j) {
      FinishFlow(s, id, j);
    }
    forall v | v in r.writes ensures Current(r, v) {
      FinishCurrent(s, id, v);
    }
    forall j | j in r.cells ensures CleanOk(r, j) && Placed(r, j) {
      FinishClean(s, id, j);
    }
  }

  // ---- reading and forgetting ----

  /** The cell of block i changes; it is not about to be written, before or after. */
  ghost predicate OneCell(s: State, r: State, i: nat) {
    && r.loc == s.loc && r.writes == s.writes && r.disk == s.disk && r.writeCount == s.writeCount
    && r.next == s.next && r.cache == s.cache
    && (forall id :: id in r.fetches ==> id in s.fetches && r.fetches[id] == s.fetches[id])
    && (forall j: nat :: j != i ==> (j in s.cells <==> j in r.cells))
    && (forall j: nat :: j != i && j in s.cells ==> j in r.cells && r.cells[j] == s.cells[j])
    && (i in s.cells ==> !s.cells[i].state.Tx? && !s.cells[i].state.Dirty?)
    && (i in r.cells ==> !r.cells[i].state.Tx? && !r.cells[i].state.Dirty?
                         && (r.cells[i].version == 0 || (i in s.cells && r.cells[i].version == s.cells[i].version)))
  }

  lemma OneCellFlow(s: State, r: State, i: nat, j: nat)
    requires OneCell(s, r, i) && j in s.loc && Flow(s, j)
    ensures Flow(r, j)
  {
  }

  lemma OneCellCurrent(s: State, r: State, i: nat, id: nat)
    requires OneCell(s, r, i) && id in s.writes && Current(s, id)
    requires s.writes[id].cache == s.cache ==> s.writes[id].version > 0
    ensures Current(r, id)
  {
  }

  lemma OneCellKeeps(s: State, r: State, i: nat)
    requires Inv(s) && OneCell(s, r, i)
    requires i in r.cells ==> CleanOk(r, i) && Placed(r, i) && (r.cells[i].version == 0 ==> !r.cells[i].state.Partial?)
    ensures Inv(r)
  {
    hide Flow;
    hide Current;
    forall j | j in r.loc ensures Flow(r, j) {
      OneCellFlow(s, r, i, j);
    }
    forall id | id in r.writes ensures Current(r, id) {
      OneCellCurrent(s, r, i, id);
    }
    forall j | j in r.cells ensures j == i || (j in s.cells && r.cells[j] == s.cells[j]) {
    }
  }

  lemma ReadKeeps(s: State, i: nat)
    requires Inv(s) && CanRead(s, i)
    ensures Inv(Read(s, i))
  {
    hide AddFetch;
    hide Inv;
    var t := s.(cells := s.cells[i := if i in s.loc then Cached(Rx, 0, None) else Cached(Clean, 0, None)]);
    OneCellKeeps(s, t, i);
    if i in s.loc {
      MoreFetches(t, i, s.loc[i]);
    }
  }

  lemma CancelReadKeeps(s: State, id: nat)
    requires Inv(s) && CanCancelRead(s, id)
    ensures Inv(CancelRead(s, id))
  {
    hide Inv;
    OneCellKeeps(s, CancelRead(s, id), s.fetches[id].obj);
  }

  lemma CloseKeeps(s: State)
    requires Inv(s) && s.cells == map[]
    ensures Inv(Close(s))
  {
    var r := Close(s);
    hide Quiet;
    forall j | j in r.loc ensures Flow(r, j) {
      assert Flow(s, j);
    }
  }

  lemma EvictKeeps(s: State, i: nat)
    requires Inv(s) && CanEvict(s, i)
    ensures Inv(Evict(s, i))
  {
    hide Inv;
    var t := s.(cells := s.cells - {i});
    OneCellKeeps(s, t, i);
    if t.cells == map[] {
      CloseKeeps(t);
    }
  }

  lemma DiscardKeeps(s: State, i: nat, truncation: bool)
    requires Inv(s)
    ensures Inv(Discard(s, i, truncation))
  {
    var r := s.(cells := s.cells - {i}, loc := s.loc - {i});
    hide LastFor;
    hide Quiet;
    forall j | j in r.loc ensures Flow(r, j) {
      assert Flow(s, j);
    }
    forall w | w in r.writes ensures Current(r, w) {
      assert Current(s, w);
    }
    if r.cells == map[] {
      CloseKeeps(r);
    }
  }

  // ---- completion of a read ----

  lemma FinishPartialKeeps(s: State, id: nat, full: Bytes, tail: bool)
    requires Inv(s) && CanFinishRead(s, id) && s.fetches[id].cache == s.cache
    requires s.fetches[id].obj in s.cells && s.cells[s.fetches[id].obj].state.Partial?
    ensures Inv(FinishRead(s, id, full, tail))
  {
    hide Csum;
    var i := s.fetches[id].obj;
    var t := s.(fetches := s.fetches - {id}, csum := s.csum[i := Csum(full)]);
    assert Placed(s, i);
    forall w | w in s.writes
      ensures Current(t, w)
      ensures s.writes[w].obj == i && s.writes[w].cache == s.cache ==> s.writes[w].version != s.cells[i].version
    {
      assert Current(s, w);
    }
    forall j | j in s.loc ensures Flow(t, j) {
      assert Flow(s, j);
    }
    hide Current;
    hide Flow;
    QueueKeeps(t, i, full, s.cells[i].version, s.loc[i]);
  }

  /** A read that finishes for a block that is waiting for it. */
  lemma FinishLoad(s: State, id: nat, full: Bytes, tail: bool)
    requires Inv(s) && CanFinishRead(s, id) && FreshFetch(s, id) && s.fetches[id].cache == s.cache
    requires s.fetches[id].obj in s.cells && s.cells[s.fetches[id].obj].state.Rx?
    ensures Inv(FinishRead(s, id, full, tail))
  {
    hide Csum;
    hide Inv;
    OneCellKeeps(s, FinishRead(s, id, full, tail), s.fetches[id].obj);
  }

  lemma FewerFetches(s: State, id: nat)
    requires Inv(s)
    ensures Inv(s.(fetches := s.fetches - {id}))
  {
    var t := s.(fetches := s.fetches - {id});
    assert forall j :: j in s.loc ==> Flow(s, j) ==> Flow(t, j);
    assert forall w :: w in s.writes ==> Current(s, w) ==> Current(t, w);
  }

  /** The end of a read from where the block is keeps the invariant. */
  lemma FinishReadKeeps(s: State, id: nat, full: Bytes, tail: bool)
    requires Inv(s) && CanFinishRead(s, id) && FreshFetch(s, id)
    ensures Inv(FinishRead(s, id, full, tail))
  {
    var i := s.fetches[id].obj;
    if s.fetches[id].cache == s.cache && i in s.cells && s.cells[i].state.Partial? {
      FinishPartialKeeps(s, id, full, tail);
    } else if s.fetches[id].cache == s.cache && i in s.cells && s.cells[i].state.Rx? {
      FinishLoad(s, id, full, tail);
    } else {
      FewerFetches(s, id);
    }
  }

  /** The read is as it was or over, and a block waits for it only if it did, and is where it was. */
  ghost predicate SameFetch(s: State, r: State, id: nat) {
    id in r.fetches ==>
    && id in s.fetches && r.fetches[id] == s.fetches[id]
    && (r.cache == r.fetches[id].cache && Waits(r.cells, r.fetches[id].obj) ==>
          s.cache == r.cache && Waits(s.cells, r.fetches[id].obj) && SamePlace(s.loc, r.loc, r.fetches[id].obj))
  }

  ghost predicate Waits(cells: map<nat, Cached>, i: nat) {
    i in cells && cells[i].state.Rx?
  }

  ghost predicate SamePlace(loc: map<nat, nat>, loc': map<nat, nat>, i: nat) {
    i in loc ==> i in loc' && loc'[i] == loc[i]
  }

  lemma StaysFresh(s: State, r: State, id: nat)
    requires SameFetch(s, r, id) && FreshFetch(s, id)
    ensures FreshFetch(r, id)
  {
  }

  lemma QueueSame(s: State, t: State, i: nat, bytes: Bytes, version: nat, b: nat, id: nat)
    requires t.fetches == s.fetches && t.cells == s.cells && t.cache == s.cache
    requires forall j :: j in s.loc && j != i ==> j in t.loc && t.loc[j] == s.loc[j]
    ensures SameFetch(s, Queue(t, i, bytes, version, b), id)
  {
  }

  lemma CancelWriteSame(s: State, w: nat, id: nat)
    requires CanCancelWrite(s, w)
    ensures SameFetch(s, CancelWrite(s, w), id)
  {
  }

  lemma FinishWriteSame(s: State, w: nat, id: nat)
    requires w in s.writes
    ensures SameFetch(s, FinishWrite(s, w), id)
  {
  }

  lemma CancelReadSame(s: State, r: nat, id: nat)
    requires CanCancelRead(s, r)
    ensures SameFetch(s, CancelRead(s, r), id)
  {
  }

  lemma FinishReadSame(s: State, r: nat, full: Bytes, tail: bool, id: nat)
    requires r in s.fetches
    ensures SameFetch(s, FinishRead(s, r, full, tail), id)
  {
    hide Csum;
    hide ReadIn;
    var q := s.fetches[r];
    var t := s.(fetches := s.fetches - {r});
    if q.cache == s.cache && q.obj in s.cells {
      LoadedState(s, s.cells[q.obj], q.obj, OnDisk(s.disk, q.block), tail);
    }
  }

  lemma LoadedState(s: State, c: Cached, i: nat, bytes: Bytes, tail: bool)
    ensures ReadIn(s, c, i, bytes, tail).state.Clean? || ReadIn(s, c, i, bytes, tail).state.Corrupt?
    ensures ReadIn(s, c, i, bytes, tail).version == c.version && ReadIn(s, c, i, bytes, tail).bytes == Some(bytes)
  {
  }

  lemma EvictSame(s: State, i: nat, id: nat)
    ensures SameFetch(s, Evict(s, i), id)
  {
  }

  lemma DiscardSame(s: State, i: nat, truncation: bool, id: nat)
    ensures SameFetch(s, Discard(s, i, truncation), id)
  {
  }

  lemma PartialStaysFresh(s: State, i: nat, b: nat, id: nat)
    requires CanStartPartial(s, i, b) && FreshFetch(s, id)
    ensures FreshFetch(StartPartial(s, i, b), id)
  {
    hide CanMoveTo;
  }

  lemma ReadStaysFresh(s: State, i: nat, id: nat)
    requires CanRead(s, i) && FreshFetch(s, id) && !OldRead(s, i, id)
    ensures FreshFetch(Read(s, i), id)
  {
  }

  lemma StepSame(s: State, step: Step, id: nat)
    requires Can(s, step) && !step.DoStartPartial? && !step.DoRead?
    ensures SameFetch(s, After(s, step), id)
  {
    hide SameFetch;
    hide Queue;
    match step
    case DoOverwrite(i, b, bytes) =>
      var t := s.(loc := s.loc[i := b], csum := s.csum[i := Csum(bytes)], writeCount := s.writeCount + 1);
      QueueSame(s, t, i, bytes, t.writeCount, b, id);
    case DoRequeue(i) => QueueSame(s, s, i, s.cells[i].bytes.value, s.cells[i].version, s.loc[i], id);
    case DoCancelWrite(w) => CancelWriteSame(s, w, id);
    case DoFinishWrite(w) => FinishWriteSame(s, w, id);
    case DoCancelRead(r) => CancelReadSame(s, r, id);
    case DoFinishRead(r, full, tail) => FinishReadSame(s, r, full, tail, id);
    case DoEvict(i) => EvictSame(s, i, id);
    case DoDiscard(i, truncation) => DiscardSame(s, i, truncation, id);
  }

  /** Reads stay fresh in every step but one: when a read begins while an old one is under way. */
  lemma StepFresh(s: State, step: Step, id: nat)
    requires Can(s, step) && Careful(s, step) && FreshFetch(s, id)
    ensures FreshFetch(After(s, step), id)
  {
    hide FreshFetch;
    hide SameFetch;
    if step.DoStartPartial? {
      PartialStaysFresh(s, step.i, step.b, id);
    } else if step.DoRead? {
      ReadStaysFresh(s, step.i, id);
    } else {
      StepSame(s, step, id);
      hide Can;
      hide After;
      StaysFresh(s, After(s, step), id);
    }
  }

  // ---- runs ----

  lemma StepInv(s: State, step: Step)
    requires Sound(s) && Can(s, step)
    ensures Inv(After(s, step))
  {
    hide Inv;
    hide FreshFetch;
    match step
    case DoOverwrite(i, b, bytes) => OverwriteKeeps(s, i, b, bytes);
    case DoStartPartial(i, b) => StartPartialKeeps(s, i, b);
    case DoCancelWrite(id) => CancelWriteKeeps(s, id);
    case DoRequeue(i) => RequeueKeeps(s, i);
    case DoFinishWrite(id) => FinishWriteKeeps(s, id);
    case DoRead(i) => ReadKeeps(s, i);
    case DoCancelRead(id) => CancelReadKeeps(s, id);
    case DoFinishRead(id, full, tail) => FinishReadKeeps(s, id, full, tail);
    case DoEvict(i) => EvictKeeps(s, i);
    case DoDiscard(i, truncation) => DiscardKeeps(s, i, truncation);
  }

  /** Every step keeps the cache sound, except a read that begins while an older read of the same
      block, from some other place, is under way in the same cache: that one never does. */
  lemma StepKeeps(s: State, step: Step)
    requires Sound(s) && Can(s, step)
    ensures Sound(After(s, step)) <==> Careful(s, step)
  {
    hide Inv;
    hide FreshFetch;
    StepInv(s, step);
    hide After;
    hide Can;
    if Careful(s, step) {
      forall id: nat ensures FreshFetch(After(s, step), id) {
        assert FreshFetch(s, id);
        StepFresh(s, step, id);
      }
    } else {
      var id: nat :| OldRead(s, step.i, id);
      NotNext(s, id);
      OldIsNotFresh(s, step, id);
    }
  }

  lemma OldIsNotFresh(s: State, step: Step, id: nat)
    requires Can(s, step) && step.DoRead? && OldRead(s, step.i, id) && id < s.next
    ensures !FreshFetch(After(s, step), id)
  {
  }

  lemma NotNext(s: State, id: nat)
    requires Inv(s) && id in s.fetches
    ensures id < s.next
  {
  }

  /** Nothing is cached and nothing is in flight. */
  ghost function Start(loc: map<nat, nat>, disk: map<nat, Bytes>, csum: map<nat, nat>, verify: bool): State {
    State(map[], loc, map[], map[], 0, disk, csum, 0, 0, verify)
  }

  lemma StartSound(loc: map<nat, nat>, disk: map<nat, Bytes>, csum: map<nat, nat>, verify: bool)
    requires Injective(loc)
    ensures Sound(Start(loc, disk, csum, verify))
  {
  }

  ghost predicate CanRun(s: State, steps: seq<Step>)
    decreases |steps|
  {
    steps != [] ==> Can(s, steps[0]) && CanRun(After(s, steps[0]), steps[1..])
  }

  ghost predicate AllCareful(s: State, steps: seq<Step>)
    requires CanRun(s, steps)
    decreases |steps|
  {
    steps != [] ==> Careful(s, steps[0]) && AllCareful(After(s, steps[0]), steps[1..])
  }

  ghost function End(s: State, steps: seq<Step>): State
    requires CanRun(s, steps)
    decreases |steps|
  {
    if steps == [] then s else End(After(s, steps[0]), steps[1..])
  }

  lemma {:induction false} RunKeeps(s: State, steps: seq<Step>)
    requires Sound(s) && CanRun(s, steps) && AllCareful(s, steps)
    ensures Sound(End(s, steps))
    decreases |steps|
  {
    hide Sound;
    hide Can;
    hide After;
    hide Careful;
    if steps != [] {
      StepKeeps(s, steps[0]);
      RunKeeps(After(s, steps[0]), steps[1..]);
    }
  }

  /** In every run whose reads are careful, a clean block that is not a hole holds what is on disk,
      and no write is in flight to its place. */
  lemma CleanIsOnDisk(loc: map<nat, nat>, disk: map<nat, Bytes>, csum: map<nat, nat>, verify: bool,
                      steps: seq<Step>, i: nat)
    requires Injective(loc) && CanRun(Start(loc, disk, csum, verify), steps)
    requires AllCareful(Start(loc, disk, csum, verify), steps)
    ensures var s := End(Start(loc, disk, csum, verify), steps);
            i in s.cells && s.cells[i].state.Clean? && s.cells[i].bytes.Some? ==>
              i in s.loc && Quiet(s.writes, s.loc[i]) && OnDisk(s.disk, s.loc[i]) == s.cells[i].bytes.value
  {
    hide CanRun;
    hide End;
    hide AllCareful;
    StartSound(loc, disk, csum, verify);
    RunKeeps(Start(loc, disk, csum, verify), steps);
    var s := End(Start(loc, disk, csum, verify), steps);
    if i in s.cells {
      assert CleanOk(s, i);
      if i in s.loc {
        assert Flow(s, i);
      }
    }
  }

  // ---- what the checksums say ----

  /** A block that has bytes is corrupt exactly when they do not have the checksum of the onode. */
  ghost predicate Told(s: State, i: nat) {
    i in s.cells && s.cells[i].bytes.Some? ==>
      (s.cells[i].state.Corrupt? <==> Csum(s.cells[i].bytes.value) != SumOf(s.csum, i))
  }

  ghost predicate AllTold(s: State) {
    forall i: nat :: Told(s, i)
  }

  /** A read that brings wrong bytes which nobody notices: checksums are not verified, or no block
      after this one in its head is good. */
  ghost predicate Missed(s: State, step: Step) {
    step.DoFinishRead? && step.id in s.fetches
    && var r := s.fetches[step.id];
    && r.cache == s.cache && Waits(s.cells, r.obj)
    && (!s.verify || step.tail) && Csum(OnDisk(s.disk, r.block)) != SumOf(s.csum, r.obj)
  }

  lemma QueueTold(t: State, i: nat, bytes: Bytes, version: nat, b: nat, j: nat)
    requires SumOf(t.csum, i) == Csum(bytes) && Told(t, j)
    ensures Told(Queue(t, i, bytes, version, b), j)
  {
    hide Csum;
  }

  lemma SumSet(t: State, i: nat, bytes: Bytes, j: nat)
    requires j != i && Told(t, j)
    ensures SumOf(t.csum[i := Csum(bytes)], i) == Csum(bytes) && Told(t.(csum := t.csum[i := Csum(bytes)]), j)
  {
    hide Csum;
  }

  lemma OverwriteTold(s: State, i: nat, b: nat, bytes: Bytes, j: nat)
    requires Told(s, j)
    ensures Told(Overwrite(s, i, b, bytes), j)
  {
    hide Csum;
    if j != i {
      SumSet(s, i, bytes, j);
    }
  }

  lemma FinishReadTold(s: State, id: nat, full: Bytes, tail: bool, j: nat)
    requires id in s.fetches && Told(s, j) && !Missed(s, DoFinishRead(id, full, tail))
    ensures Told(FinishRead(s, id, full, tail), j)
  {
    hide Csum;
    var r := s.fetches[id];
    if r.cache == s.cache && r.obj in s.cells && s.cells[r.obj].state.Partial? && r.obj in s.loc {
      hide Told;
      PartialReadTold(s, id, full, tail, j);
    } else if r.cache == s.cache && Waits(s.cells, r.obj) {
      hide Told;
      LoadTold(s, id, full, tail, j);
    } else {
      assert FinishRead(s, id, full, tail) == s.(fetches := s.fetches - {id});
    }
  }

  lemma LoadTold(s: State, id: nat, full: Bytes, tail: bool, j: nat)
    requires id in s.fetches && Told(s, j) && !Missed(s, DoFinishRead(id, full, tail))
    requires s.fetches[id].cache == s.cache && Waits(s.cells, s.fetches[id].obj)
    ensures Told(FinishRead(s, id, full, tail), j)
  {
    hide Csum;
    hide Queue;
    hide OnDisk;
    hide SumOf;
  }

  lemma PartialReadTold(s: State, id: nat, full: Bytes, tail: bool, j: nat)
    requires id in s.fetches && Told(s, j)
    requires var r := s.fetches[id];
             r.cache == s.cache && r.obj in s.cells && s.cells[r.obj].state.Partial? && r.obj in s.loc
    ensures Told(FinishRead(s, id, full, tail), j)
  {
    hide Csum;
    var i := s.fetches[id].obj;
    var t := s.(fetches := s.fetches - {id});
    assert Told(t, j);
    if j != i {
      SumSet(t, i, full, j);
      hide Told;
      QueueTold(t.(csum := t.csum[i := Csum(full)]), i, full, s.cells[i].version, s.loc[i], j);
    }
  }

  lemma FinishReadMissed(s: State, id: nat, full: Bytes, tail: bool)
    requires id in s.fetches && Missed(s, DoFinishRead(id, full, tail))
    ensures !Told(FinishRead(s, id, full, tail), s.fetches[id].obj)
  {
    hide Csum;
  }

  lemma StartPartialTold(s: State, i: nat, b: nat, j: nat)
    requires CanStartPartial(s, i, b) && Told(s, j)
    ensures Told(StartPartial(s, i, b), j)
  {
    hide Csum;
    hide CanMoveTo;
  }

  lemma WriteTold(s: State, step: Step, j: nat)
    requires Can(s, step) && Told(s, j) && (step.DoCancelWrite? || step.DoRequeue? || step.DoFinishWrite?)
    ensures Told(After(s, step), j)
  {
    hide Csum;
    hide CanFinishWrite;
  }

  lemma ReadTold(s: State, i: nat, j: nat)
    requires CanRead(s, i) && Told(s, j)
    ensures Told(Read(s, i), j)
  {
    hide Csum;
    hide SumOf;
  }

  lemma CancelReadTold(s: State, id: nat, j: nat)
    requires CanCancelRead(s, id) && Told(s, j)
    ensures Told(CancelRead(s, id), j)
  {
    hide Csum;
    hide SumOf;
  }

  lemma DropTold(s: State, step: Step, j: nat)
    requires Can(s, step) && Told(s, j) && (step.DoEvict? || step.DoDiscard?)
    ensures Told(After(s, step), j)
  {
    hide Csum;
    hide SumOf;
  }

  /** Every step keeps it, except a read that is missed: that one never does. */
  lemma StepTells(s: State, step: Step)
    requires Can(s, step) && AllTold(s)
    ensures AllTold(After(s, step)) <==> !Missed(s, step)
  {
    hide Told;
    if Missed(s, step) {
      FinishReadMissed(s, step.id, step.full, step.tail);
    } else {
      forall j: nat ensures Told(After(s, step), j) {
        match step
        case DoOverwrite(i, b, bytes) => OverwriteTold(s, i, b, bytes, j);
        case DoFinishRead(id, full, tail) => FinishReadTold(s, id, full, tail, j);
        case DoStartPartial(i, b) => StartPartialTold(s, i, b, j);
        case DoCancelWrite(_) => WriteTold(s, step, j);
        case DoRequeue(_) => WriteTold(s, step, j);
        case DoFinishWrite(_) => WriteTold(s, step, j);
        case DoRead(i) => ReadTold(s, i, j);
        case DoCancelRead(id) => CancelReadTold(s, id, j);
        case _ => DropTold(s, step, j);
      }
    }
  }

  ghost predicate NoneMissed(s: State, steps: seq<Step>)
    requires CanRun(s, steps)
    decreases |steps|
  {
    steps != [] ==> !Missed(s, steps[0]) && NoneMissed(After(s, steps[0]), steps[1..])
  }

  lemma {:induction false} RunTells(s: State, steps: seq<Step>)
    requires AllTold(s) && CanRun(s, steps) && NoneMissed(s, steps)
    ensures AllTold(End(s, steps))
    decreases |steps|
  {
    hide AllTold;
    hide Can;
    hide After;
    hide Missed;
    if steps != [] {
      StepTells(s, steps[0]);
      RunTells(After(s, steps[0]), steps[1..]);
    }
  }

  /** In every run in which no wrong read is missed, a block that has bytes is corrupt exactly when
      they do not have their checksum, however reads and writes interleave. */
  lemma CorruptIsKnown(loc: map<nat, nat>, disk: map<nat, Bytes>, csum: map<nat, nat>, verify: bool,
                       steps: seq<Step>, i: nat)
    requires CanRun(Start(loc, disk, csum, verify), steps) && NoneMissed(Start(loc, disk, csum, verify), steps)
    ensures var s := End(Start(loc, disk, csum, verify), steps);
            i in s.cells && s.cells[i].bytes.Some? ==>
              (s.cells[i].state.Corrupt? <==> Csum(s.cells[i].bytes.value) != SumOf(s.csum, i))
  {
    hide CanRun;
    hide End;
    hide NoneMissed;
    RunTells(Start(loc, disk, csum, verify), steps);
    assert Told(End(Start(loc, disk, csum, verify), steps), i);
  }
}
