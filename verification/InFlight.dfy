/** Block writes that have been queued but may not have reached the disk yet
    (src/ebofs/BlockDevice.cc, src/ebofs/BufferCache.cc). */
module InFlight {
  import opened Extents
  import opened PartialBlocks

  /** What a disk block holds: object data, or an onode (of which only the extent map, object
      block -> disk block, matters here). */
  datatype Content = Data(bytes: seq<Byte>) | Image(ext: map<nat, nat>)

  /** A queued write, tagged with the epoch of the modification it carries. */
  datatype Io = Io(block: nat, content: Content, epoch: nat)

  /** The writes in flight, by the number under which each was submitted. */
  type Ios = map<nat, Io>
  type Disk = map<nat, Content>

  ghost predicate Targets(ios: Ios, id: nat, b: nat) {
    id in ios && ios[id].block == b
  }

  /** Nothing is in flight to block b. */
  ghost predicate Quiet(ios: Ios, b: nat) {
    forall id: nat :: !Targets(ios, id, b)
  }

  ghost predicate LastFor(ios: Ios, id: nat, b: nat) {
    Targets(ios, id, b) && forall j: nat :: Targets(ios, j, b) ==> j <= id
  }

  ghost predicate FirstFor(ios: Ios, id: nat, b: nat) {
    Targets(ios, id, b) && forall j: nat :: Targets(ios, j, b) ==> id <= j
  }

  ghost function OnDisk(disk: Disk, b: nat): Content {
    if b in disk then disk[b] else Data([])
  }

  /** What block b holds once everything in flight has been written. */
  ghost function Latest(disk: Disk, ios: Ios, b: nat): Content {
    if exists id: nat :: LastFor(ios, id, b) then
      var id :| LastFor(ios, id, b);
      ios[id].content
    else OnDisk(disk, b)
  }

  lemma LatestIs(disk: Disk, ios: Ios, id: nat, b: nat)
    requires LastFor(ios, id, b)
    ensures Latest(disk, ios, b) == ios[id].content
  {
  }

  lemma LatestQuiet(disk: Disk, ios: Ios, b: nat)
    requires Quiet(ios, b)
    ensures Latest(disk, ios, b) == OnDisk(disk, b)
  {
  }

  lemma LastExists(ios: Ios, id: nat, b: nat)
    requires Targets(ios, id, b)
    ensures exists j: nat :: LastFor(ios, j, b)
  {
    var s := set j | j in ios && Targets(ios, j, b);
    assert id in s;
    GreatestExists(s, id);
    var m :| Greatest(s, m);
    forall j: nat | Targets(ios, j, b) ensures j <= m {
      assert j in s;
    }
    assert LastFor(ios, m, b);
  }

  /** Latest at b depends only on the writes to b, and on the disk only when there are none. */
  lemma LatestSame(disk: Disk, ios: Ios, disk': Disk, ios': Ios, b: nat)
    requires forall id: nat :: Targets(ios, id, b) <==> Targets(ios', id, b)
    requires forall id: nat :: Targets(ios, id, b) ==> id in ios' && ios[id] == ios'[id]
    requires Quiet(ios, b) ==> OnDisk(disk, b) == OnDisk(disk', b)
    ensures Latest(disk, ios, b) == Latest(disk', ios', b)
  {
    if id :| Targets(ios, id, b) {
      LastExists(ios, id, b);
      var j :| LastFor(ios, j, b);
      assert LastFor(ios', j, b);
      LatestIs(disk, ios, j, b);
      LatestIs(disk', ios', j, b);
    } else {
      LatestQuiet(disk, ios, b);
      assert Quiet(ios', b);
      LatestQuiet(disk', ios', b);
    }
  }

  ghost predicate Numbered(ios: Ios, next: nat) {
    forall id: nat :: id in ios ==> id < next
  }

  lemma LatestSubmit(disk: Disk, ios: Ios, next: nat, io: Io, b: nat)
    requires Numbered(ios, next)
    ensures Latest(disk, ios[next := io], b) == if b == io.block then io.content else Latest(disk, ios, b)
  {
    var ios' := ios[next := io];
    if b == io.block {
      assert LastFor(ios', next, b);
    } else {
      assert forall id: nat :: Targets(ios, id, b) ==> id != next;
      LatestSame(disk, ios, disk, ios', b);
    }
  }

  /** Writes to one block are carried out in order, so finishing the first of them changes nothing. */
  lemma LatestComplete(disk: Disk, ios: Ios, id: nat, b: nat)
    requires id in ios && FirstFor(ios, id, ios[id].block)
    ensures Latest(disk[ios[id].block := ios[id].content], ios - {id}, b) == Latest(disk, ios, b)
  {
    var disk' := disk[ios[id].block := ios[id].content];
    var ios' := ios - {id};
    if b != ios[id].block {
      LatestSame(disk, ios, disk', ios', b);
    } else if j :| Targets(ios', j, b) {
      LastExists(ios', j, b);
      var l :| LastFor(ios', l, b);
      assert Targets(ios, j, b) && Targets(ios, l, b);
      forall i: nat | Targets(ios, i, b) ensures i <= l {
        assert i == id || Targets(ios', i, b);
      }
      assert LastFor(ios, l, b);
      LatestIs(disk, ios, l, b);
      LatestIs(disk', ios', l, b);
    } else {
      assert Quiet(ios', b);
      LatestQuiet(disk', ios', b);
      forall i: nat | Targets(ios, i, b) ensures i <= id {
        assert i == id || Targets(ios', i, b);
      }
      assert LastFor(ios, id, b);
      LatestIs(disk, ios, id, b);
    }
  }

  lemma LatestCancel(disk: Disk, ios: Ios, id: nat, b: nat)
    requires id in ios && b != ios[id].block
    ensures Latest(disk, ios - {id}, b) == Latest(disk, ios, b)
  {
    LatestSame(disk, ios, disk, ios - {id}, b);
  }

  // ---- the counters of unfinished writes ----

  ghost function DataOf(ios: Ios, e: nat): set<nat> {
    set id | id in ios && ios[id].content.Data? && ios[id].epoch == e
  }

  ghost function ImagesOf(ios: Ios): set<nat> {
    set id | id in ios && ios[id].content.Image?
  }

  ghost function Unflushed(counts: map<nat, nat>, e: nat): nat {
    if e in counts then counts[e] else 0
  }

  /** `unflushed[e]` counts the data writes of epoch e, and `flushing` the onode writes. */
  ghost predicate Counted(ios: Ios, counts: map<nat, nat>, flushing: nat) {
    (forall e: nat :: Unflushed(counts, e) == |DataOf(ios, e)|) && flushing == |ImagesOf(ios)|
  }

  ghost function Bumped(counts: map<nat, nat>, e: nat): map<nat, nat> {
    counts[e := Unflushed(counts, e) + 1]
  }

  ghost function Dropped1(counts: map<nat, nat>, e: nat): map<nat, nat> {
    counts[e := if Unflushed(counts, e) > 0 then Unflushed(counts, e) - 1 else 0]
  }

  /** The two ways in which a write enters or leaves one of these sets. */
  lemma OneMore(s: set<nat>, t: set<nat>, id: nat)
    requires id !in s && t == s + {id}
    ensures |t| == |s| + 1
  {
  }

  lemma DataSubmit(ios: Ios, next: nat, io: Io, e: nat)
    requires next !in ios
    ensures |DataOf(ios[next := io], e)| == |DataOf(ios, e)| + if io.content.Data? && io.epoch == e then 1 else 0
  {
    if io.content.Data? && io.epoch == e {
      OneMore(DataOf(ios, e), DataOf(ios[next := io], e), next);
    } else {
      assert DataOf(ios[next := io], e) == DataOf(ios, e);
    }
  }

  lemma ImagesSubmit(ios: Ios, next: nat, io: Io)
    requires next !in ios
    ensures |ImagesOf(ios[next := io])| == |ImagesOf(ios)| + if io.content.Image? then 1 else 0
  {
    if io.content.Image? {
      OneMore(ImagesOf(ios), ImagesOf(ios[next := io]), next);
    } else {
      assert ImagesOf(ios[next := io]) == ImagesOf(ios);
    }
  }

  lemma CountSubmit(ios: Ios, counts: map<nat, nat>, flushing: nat, next: nat, io: Io)
    requires Counted(ios, counts, flushing) && Numbered(ios, next)
    ensures io.content.Data? ==> Counted(ios[next := io], Bumped(counts, io.epoch), flushing)
    ensures io.content.Image? ==> Counted(ios[next := io], counts, flushing + 1)
  {
    hide DataOf;
    hide ImagesOf;
    assert next !in ios;
    var counts' := if io.content.Data? then Bumped(counts, io.epoch) else counts;
    forall e: nat ensures Unflushed(counts', e) == |DataOf(ios[next := io], e)| {
      DataSubmit(ios, next, io, e);
      assert Unflushed(counts, e) == |DataOf(ios, e)|;
    }
    ImagesSubmit(ios, next, io);
  }

  lemma CountRemove(ios: Ios, counts: map<nat, nat>, flushing: nat, id: nat)
    requires Counted(ios, counts, flushing) && id in ios
    ensures ios[id].content.Data? ==>
              Unflushed(counts, ios[id].epoch) > 0 && Counted(ios - {id}, Dropped1(counts, ios[id].epoch), flushing)
    ensures ios[id].content.Image? ==> flushing > 0 && Counted(ios - {id}, counts, flushing - 1)
  {
    hide DataOf;
    hide ImagesOf;
    var io := ios[id];
    assert (ios - {id})[id := io] == ios;
    forall e: nat
      ensures |DataOf(ios, e)| == |DataOf(ios - {id}, e)| + if io.content.Data? && io.epoch == e then 1 else 0
    {
      DataSubmit(ios - {id}, id, io, e);
    }
    ImagesSubmit(ios - {id}, id, io);
  }

  /** The waits of a commit are over when nothing they wait for is in flight. */
  lemma CountZero(ios: Ios, counts: map<nat, nat>, flushing: nat, e: nat)
    requires Counted(ios, counts, flushing)
    ensures Unflushed(counts, e) == 0 <==> forall id: nat :: id in ios && ios[id].epoch == e ==> ios[id].content.Image?
    ensures flushing == 0 <==> forall id: nat :: id in ios ==> ios[id].content.Data?
  {
    assert Unflushed(counts, e) == 0 <==> DataOf(ios, e) == {};
    assert flushing == 0 <==> ImagesOf(ios) == {};
    if DataOf(ios, e) == {} {
      forall id | id in ios && ios[id].epoch == e ensures ios[id].content.Image? {
        assert id !in DataOf(ios, e);
      }
    }
    if ImagesOf(ios) == {} {
      forall id | id in ios ensures ios[id].content.Data? {
        assert id !in ImagesOf(ios);
      }
    }
  }
}