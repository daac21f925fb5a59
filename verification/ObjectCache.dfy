/** The buffer cache of one object (src/ebofs/BufferCache.h, src/ebofs/BufferCache.cc). */
module ObjectCaches {
  import opened Extents
  import opened CacheCoherence
  import opened BufferHeads
  import opened CacheRequests
  import PartialBlocks
  import Onodes
  import ExtentMaps

  /** What the blocks of the object are, in order. */
  type Cells = seq<ExtentMaps.Cell>

  class ObjectCache {
    var heads: Heads         // data
    var stats: Stats
    var epoch: nat           // super_epoch
    var ios: Requests        // in flight
    var queued: set<nat>     // not started by the device yet
    var nextIo: nat
    var writeCount: nat

    constructor (superEpoch: nat)
      ensures Valid() && heads == map[] && epoch == superEpoch
    {
      hide Valid;
      hide Structured;
      heads, stats, epoch := map[], Stats(0, 0, 0, 0, 0, 0, 0, 0), superEpoch;
      ios, queued, nextIo, writeCount := map[], {}, 1, 0;
      new;
      Empty();
    }

    lemma Empty()
      requires heads == map[] && stats == Stats(0, 0, 0, 0, 0, 0, 0, 0)
      requires ios == map[] && queued == {} && nextIo == 1
      ensures Valid()
    {
      NoHeads();
      NoRequests(epoch);
    }

    ghost predicate Structured()
      reads this
    {
      Apart(heads) && AllGood(heads) && Counts(heads, stats) && Summed(stats)
    }

    ghost predicate Valid()
      reads this
    {
      Structured() && IoOk(heads, ios, queued, nextIo, epoch)
    }

    // ---- find_bh ----

    /** The head that contains block `start`, or else the next one. */
    method FindBh(start: nat, len: nat) returns (p: Option<nat>)
      requires Structured()
      ensures IsFirst(heads, start, p)
    {
      var last: Option<nat> := LastKey(heads);
      if start == 0 {
        p := KeyAtOrAfter(heads.Keys, 0);
      } else if len == 1 && last.Some? && last.value <= start {
        p := last;
        if p.value < start {
          p := None;
        }
      } else {
        p := KeyAtOrAfter(heads.Keys, start);
      }
      var before: Option<nat> := KeyBefore(heads.Keys, start);
      if before.Some? && (p.None? || p.value > start) && before.value + heads[before.value].length > start {
        p := before;
      }
    }

    method FindBhContaining(b: nat) returns (p: Option<nat>)
      requires Structured()
      ensures p.Some? ==> Holds(heads, p.value, b)
      ensures p.None? <==> At(heads, b) == None
    {
      p := FindBh(b, 1);
      if p.Some? && p.value <= b && b < p.value + heads[p.value].length {
        AtIs(heads, p.value, b);
      } else {
        NobodyAt(heads, b);
        p := None;
      }
    }

    // ---- one head ----

    /** set_state */
    method SetState(k: nat, s: HeadState)
      requires Structured() && k in heads
      requires GoodHead(heads[k].(state := s))
      modifies this`heads, this`stats
      ensures Structured() && heads == old(heads)[k := old(heads)[k].(state := s)]
      ensures StateSet(old(heads), heads, k, k + heads[k].length, s)
    {
      var h := heads[k].(state := s);
      StateView(heads, k, s);
      CountReplace(heads, stats, k, h);
      SummedAgain(stats, heads[k].state, s, heads[k].length);
      stats := Minus(stats, heads[k].state, heads[k].length);
      heads := heads[k := h];
      stats := Plus(stats, s, h.length);
    }

    method BhRead(k: nat)
      requires Valid() && k in heads && heads[k].state.Missing?
      modifies this`heads, this`stats, this`ios, this`queued, this`nextIo
      ensures Valid() && heads == old(heads)[k := old(heads)[k].(state := Rx, rx := old(nextIo))]
      ensures StateSet(old(heads), heads, k, k + heads[k].length, Rx)
      ensures ios == old(ios)[old(nextIo) := ReadOf(k, heads[k].length)]
      ensures queued == old(queued) + {old(nextIo)} && nextIo == old(nextIo) + 1
    {
      hide Counts;
      hide IoOk;
      hide HeadOk;
      SetState(k, Rx);
      var r := ReadOf(k, heads[k].length);
      ReadQueued(old(heads), k, ios, queued, nextIo, epoch);
      TagHead(heads, stats, k, heads[k].(rx := nextIo));
      heads := heads[k := heads[k].(rx := nextIo)];
      assert heads == old(heads)[k := old(heads)[k].(state := Rx, rx := nextIo)];
      ios, queued, nextIo := ios[nextIo := r], queued + {nextIo}, nextIo + 1;
    }

    method BhCancelRead(k: nat) returns (ok: bool)
      requires Valid() && k in heads && heads[k].state.Rx?
      modifies this`heads, this`stats, this`ios, this`queued
      ensures Valid() && (ok <==> old(heads[k].rx in queued))
      ensures ok ==> heads == old(heads)[k := old(heads)[k].(state := Missing, rx := 0)]
      ensures ok ==> StateSet(old(heads), heads, k, k + heads[k].length, Missing)
      ensures ok ==> ios == old(ios) - {old(heads[k].rx)} && queued == old(queued) - {old(heads[k].rx)}
      ensures !ok ==> heads == old(heads) && ios == old(ios) && queued == old(queued)
    {
      hide Counts;
      hide IoOk;
      hide HeadOk;
      var id := heads[k].rx;
      ok := id in queued;
      if ok {
        ReadDropped(heads, k, ios, queued, nextIo, epoch);
        ios, queued := ios - {id}, queued - {id};
        SetState(k, Missing);
        TagHead(heads, stats, k, heads[k].(rx := 0));
        heads := heads[k := heads[k].(rx := 0)];
        assert heads == old(heads)[k := old(heads)[k].(state := Missing, rx := 0)];
      }
    }

    method BhWrite(k: nat)
      requires Valid() && k in heads && heads[k].state.Dirty? && |heads[k].data| == heads[k].length
      modifies this`heads, this`stats, this`ios, this`queued, this`nextIo
      ensures Valid() && heads == old(heads)[k := old(heads)[k].(state := Tx, tx := old(nextIo))]
      ensures old(nextIo) !in old(ios) && queued == old(queued) + {old(nextIo)} && nextIo == old(nextIo) + 1
      ensures ios == old(ios)[old(nextIo) := WriteOf(k, heads[k].length, heads[k].version, heads[k].epoch, heads[k].data)]
      ensures StateSet(old(heads), heads, k, k + heads[k].length, Tx)
    {
      hide Counts;
      hide IoOk;
      hide HeadOk;
      NextIsFresh(heads, ios, queued, nextIo, epoch);
      SetState(k, Tx);
      var h := heads[k];
      var r := WriteOf(k, h.length, h.version, h.epoch, h.data);
      WriteQueued(old(heads), k, ios, queued, nextIo, epoch);
      TagHead(heads, stats, k, h.(tx := nextIo));
      heads := heads[k := h.(tx := nextIo)];
      assert heads == old(heads)[k := old(heads)[k].(state := Tx, tx := nextIo)];
      ios, queued, nextIo := ios[nextIo := r], queued + {nextIo}, nextIo + 1;
    }

    method BhCancelWrite(k: nat) returns (ok: bool)
      requires Valid() && k in heads && heads[k].state.Tx? && heads[k].epoch == epoch
      modifies this`heads, this`stats, this`ios, this`queued
      ensures Valid() && (ok <==> old(heads[k].tx in queued))
      ensures ok ==> heads == old(heads)[k := old(heads)[k].(state := Dirty, tx := 0)]
      ensures ok ==> StateSet(old(heads), heads, k, k + heads[k].length, Dirty)
      ensures ok ==> |heads[k].data| == heads[k].length
      ensures ok ==> ios == old(ios) - {old(heads[k].tx)} && queued == old(queued) - {old(heads[k].tx)}
      ensures !ok ==> heads == old(heads) && ios == old(ios) && queued == old(queued)
    {
      hide Counts;
      hide IoOk;
      hide HeadOk;
      var id := heads[k].tx;
      ok := id in queued;
      if ok {
        WriteDropped(heads, k, ios, queued, nextIo, epoch);
        ios, queued := ios - {id}, queued - {id};
        SetState(k, Dirty);
        TagHead(heads, stats, k, heads[k].(tx := 0));
        heads := heads[k := heads[k].(tx := 0)];
        assert heads == old(heads)[k := old(heads)[k].(state := Dirty, tx := 0)];
      }
    }

    /** A new head over blocks that are not cached. */
    method AddBh(k: nat, len: nat, state: HeadState)
      requires Valid() && len > 0 && (state.Missing? || state.Clean?)
      requires forall i: nat :: k <= i < k + len ==> At(heads, i) == None
      modifies this`heads, this`stats
      ensures Valid() && k !in old(heads) && heads == old(heads)[k := NewHead(len, state)]
      ensures forall i: nat {:trigger At(heads, i)} ::
                At(heads, i) == if k <= i < k + len then Some(Info(state, 0, 0, None, map[])) else old(At(heads, i))
    {
      hide Counts;
      hide IoOk;
      hide At;
      NewApart(heads, k, NewHead(len, state));
      PutView(heads, k, NewHead(len, state));
      CountInsert(heads, stats, k, NewHead(len, state));
      PlusStat(stats, state, len, state);
      NewIo(heads, k, len, state, ios, queued, nextIo, epoch);
      heads := heads[k := NewHead(len, state)];
      stats := Plus(stats, state, len);
    }

    /** Two heads for one; every block stays as it is. A request of the head must not be queued
        still, because then it could be cancelled for one part only. */
    method Split(k: nat, after: nat)
      requires Valid() && k in heads && k < after < k + heads[k].length
      requires !Cancellable(heads[k], queued, epoch) && !Unread(heads[k], queued)
      modifies this`heads, this`stats
      ensures Valid() && after !in old(heads) && heads == SplitAt(old(heads), k, after)
      ensures SameView(old(heads), heads)
    {
      hide Counts;
      hide IoOk;
      hide At;
      hide Apart;
      hide AllGood;
      hide Summed;
      var h := heads[k];
      SplitShape(heads, k, after);
      SplitView(heads, k, after);
      SplitCounts(heads, stats, k, after);
      IoSplit(heads, k, after, ios, queued, nextIo, epoch);
      SummedThrice(stats, h.state, h.length - (after - k), h.length, after - k);
      heads := heads[k := LeftPart(h, after - k)][after := RightPart(h, after - k)];
      stats := Plus(stats, h.state, h.length - (after - k));
      stats := Plus(Minus(stats, h.state, h.length), h.state, after - k);
    }

    // ---- map_write ----

    /** Takes the request of a head back, if the device has not started it. */
    method CancelFor(k: nat) returns (ok: bool)
      requires Valid() && k in heads
      modifies this`heads, this`stats, this`ios, this`queued
      ensures Others(old(heads), heads, k, {}) && heads[k].length == old(heads)[k].length
      ensures Valid() && !Cancellable(heads[k], queued, epoch) && !Unread(heads[k], queued)
      ensures ok ==> Cancelled(old(heads)[k], heads[k])
                     && StateSet(old(heads), heads, k, k + heads[k].length, heads[k].state)
      ensures !ok ==> heads == old(heads)
      ensures ok <==> Recalled(old(heads)[k], true, epoch) * old(queued) != {}
      ensures if ok then ios == old(ios) - Recalled(old(heads)[k], true, epoch)
                         && queued == old(queued) - Recalled(old(heads)[k], true, epoch)
              else ios == old(ios) && queued == old(queued)
      ensures ok ==> SameButTags(old(heads)[k], heads[k])
    {
      hide IoOk;
      hide Counts;
      hide At;
      ok := false;
      OneRecalled(heads[k], queued, epoch);
      if heads[k].state.Rx? {
        ok := BhCancelRead(k);
      } else if heads[k].state.Tx? && heads[k].epoch == epoch {
        ok := BhCancelWrite(k);
      }
    }

    /** Reads or writes a head again. */
    method Reissue(k: nat)
      requires Valid() && k in heads
      requires heads[k].state.Missing? || (heads[k].state.Dirty? && |heads[k].data| == heads[k].length)
      modifies this`heads, this`stats, this`ios, this`queued, this`nextIo
      ensures old(nextIo) <= nextIo && OnlyNew(old(queued), queued, old(nextIo))
      ensures Valid() && Others(old(heads), heads, k, {}) && heads[k].length == old(heads)[k].length
      ensures StateSet(old(heads), heads, k, k + heads[k].length, if old(heads)[k].state.Missing? then Rx else Tx)
      ensures ios == old(ios)[old(nextIo) := RequestFor(old(heads)[k], k)]
      ensures queued == old(queued) + {old(nextIo)} && nextIo == old(nextIo) + 1
    {
      hide IoOk;
      hide Counts;
      hide At;
      if heads[k].state.Missing? {
        BhRead(k);
      } else {
        BhWrite(k);
      }
    }

    /** Splits off the left part of a head; if its request could be cancelled, the left part is
        written or read again, and the right part is not. */
    method SplitOffLeft(k: nat, cur: nat) returns (ok: bool)
      requires Valid() && k in heads && k < cur < k + heads[k].length
      modifies this`heads, this`stats, this`ios, this`queued, this`nextIo
      ensures old(nextIo) <= nextIo && OnlyNew(old(queued), queued, old(nextIo))
      ensures Valid() && cur !in old(heads) && Others(old(heads), heads, k, {cur})
      ensures heads[k].length == cur - k && heads[cur].length == old(k + heads[k].length) - cur
      ensures !Cancellable(heads[cur], queued, epoch) && !Unread(heads[cur], queued)
      ensures ok ==> Cancelled(old(heads)[k], heads[cur])
                     && StateSet(old(heads), heads, cur, cur + heads[cur].length, heads[cur].state)
      ensures !ok ==> SameView(old(heads), heads)
      ensures ok <==> Recalled(old(heads)[k], true, epoch) * old(queued) != {}
      ensures ok ==> heads[cur] == RightPart(old(heads)[k], cur - k).(state := heads[cur].state)
      ensures Retaken(old(heads)[k], k, cur - k, old(ios), old(queued), old(nextIo), ios, queued, nextIo, epoch)
      ensures Recalled(heads[cur], true, epoch) * queued == {}
    {
      hide IoOk;
      hide Counts;
      hide Apart;
      hide AllGood;
      hide StateSet;
      hide SameView;
      hide Recalled;
      hide RequestFor;
      hide OnlyNew;
      ghost var h0, i0, q0, n0 := heads, ios, queued, nextIo;
      HeadInState(heads, k);
      ok := CancelFor(k);
      ghost var h1, i1, q1 := heads, ios, queued;
      Split(k, cur);
      SplitFacts(h1, k, cur);
      ghost var h2 := heads;
      if ok {
        Reissue(k);
        Restored(h0, h1, h2, heads, k, k + h0[k].length, cur, h0[k].state, h1[k].state);
      }
      RightIsFree(h1, k, cur, heads, ios, queued, nextIo, epoch);
      RetakenNow(h0[k], h1[k], h2[k], k, cur - k, i0, q0, n0, ok, i1, q1, ios, queued, nextIo, epoch);
      if ok {
        RightOfOld(h0[k], h1[k], cur - k);
      }
    }

    /** The head begins before the range. */
    method TakeRight(k: nat, cur: nat)
      requires Valid() && k in heads && k < cur < k + heads[k].length
      modifies this`heads, this`stats, this`ios, this`queued, this`nextIo
      ensures old(nextIo) <= nextIo && OnlyNew(old(queued), queued, old(nextIo))
      ensures Valid() && cur !in old(heads) && Others(old(heads), heads, k, {cur})
      ensures heads[k].length == cur - k && heads[cur].length == old(k + heads[k].length) - cur
      ensures Cut(old(heads), heads, cur, old(k + heads[k].length))
      ensures Retaken(old(heads)[k], k, cur - k, old(ios), old(queued), old(nextIo), ios, queued, nextIo, epoch)
      ensures Recalled(heads[cur], true, epoch) * queued == {}
      ensures Rearranged(old(ios), old(queued), old(nextIo), ios, queued, nextIo, cur, old(k + heads[k].length))
    {
      hide Counts;
      hide IoOk;
      hide Retaken;
      hide Recalled;
      hide Rearranged;
      ghost var h0, i0, q0, n0 := heads, ios, queued, nextIo;
      HeadInState(heads, k);
      var ok := SplitOffLeft(k, cur);
      RetakenMoves(h0, k, cur - k, i0, q0, n0, ios, queued, nextIo, epoch, k + h0[k].length);
      if ok {
        JustCancelled(h0, heads, k, cur, k + h0[k].length, h0[k].state, heads[cur].state);
      } else {
        JustSplit(h0, heads, cur, k + h0[k].length);
      }
    }

    /** The range lies inside the head: both ends are kept. */
    method TakeMiddle(k: nat, cur: nat, e: nat)
      requires Valid() && k in heads && k < cur < e < k + heads[k].length
      modifies this`heads, this`stats, this`ios, this`queued, this`nextIo
      ensures old(nextIo) <= nextIo && OnlyNew(old(queued), queued, old(nextIo))
      ensures Valid() && cur !in old(heads) && e !in old(heads)
      ensures Others(old(heads), heads, k, {cur, e})
      ensures heads[k].length == cur - k && heads[cur].length == e - cur
      ensures heads[e].length == old(k + heads[k].length) - e
      ensures Cut(old(heads), heads, cur, e)
      ensures Rearranged(old(ios), old(queued), old(nextIo), ios, queued, nextIo, cur, e)
    {
      hide IoOk;
      hide Counts;
      hide Apart;
      hide AllGood;
      hide Retaken;
      hide Recalled;
      hide Rearranged;
      hide At;
      hide SameView;
      hide StateSet;
      hide InState;
      hide Cut;
      hide Below;
      hide RequestFor;
      hide LeftPart;
      hide RightPart;
      ghost var h0, i0, q0, n0 := heads, ios, queued, nextIo;
      HeadInState(heads, k);
      var ok := SplitOffLeft(k, cur);
      RetakenMoves(h0, k, cur - k, i0, q0, n0, ios, queued, nextIo, epoch, e);
      ghost var h1, i1, q1, n1 := heads, ios, queued, nextIo;
      Split(cur, e);
      SplitFacts(h1, cur, e);
      ghost var h2 := heads;
      OthersTwice(h0, h1, h2, k, cur, e);
      if ok {
        Reissue(e);
        InStatePart(h0, k, cur, k + h0[k].length, h0[k].state);
        Redone(h0, h1, h2, heads, cur, k + h0[k].length, e, k + h0[k].length, h0[k].state, h1[cur].state);
        RightTwice(h0[k], h1[cur], cur - k, e - cur);
        RestMoves(h0, k, e, h1[cur].state, i0, q0, n0, i1, q1, n1, ios, queued, nextIo, epoch, cur, e);
      } else {
        SplitTwice(h0, h1, heads, cur, e);
      }
    }

    /** The head reaches past the range: its right part is kept. */
    method TakeLeft(k: nat, e: nat)
      requires Valid() && k in heads && k < e < k + heads[k].length
      modifies this`heads, this`stats, this`ios, this`queued, this`nextIo
      ensures old(nextIo) <= nextIo && OnlyNew(old(queued), queued, old(nextIo))
      ensures Valid() && e !in old(heads) && Others(old(heads), heads, k, {e})
      ensures heads[k].length == e - k && heads[e].length == old(k + heads[k].length) - e
      ensures Cut(old(heads), heads, k, e)
      ensures Rearranged(old(ios), old(queued), old(nextIo), ios, queued, nextIo, k, e)
    {
      hide IoOk;
      hide Counts;
      hide Apart;
      hide AllGood;
      hide Cut;
      hide Recalled;
      hide Rearranged;
      ghost var h0, i0, q0, n0 := heads, ios, queued, nextIo;
      HeadInState(heads, k);
      var ok := CancelFor(k);
      CancelMoves(h0, k, i0, q0, n0, ios, queued, epoch, k, e);
      ghost var h1, i1, q1 := heads, ios, queued;
      Split(k, e);
      SplitFacts(h1, k, e);
      ghost var h2 := heads;
      if ok {
        Reissue(e);
        Redone(h0, h1, h2, heads, k, k + h0[k].length, e, k + h0[k].length, h0[k].state, h1[k].state);
        RightOfOld(h0[k], h1[k], e - k);
        RestMoves(h0, k, e, h1[k].state, i0, q0, n0, i1, q1, n0, ios, queued, nextIo, epoch, k, e);
      } else {
        JustSplit(h0, heads, k, e);
      }
    }

    /** Brings a head that contains block cur to begin there and to reach no further than cur + max. */
    method TakePart(k: nat, cur: nat, max: nat)
      requires Valid() && k in heads && k <= cur < k + heads[k].length && max > 0
      modifies this`heads, this`stats, this`ios, this`queued, this`nextIo
      ensures old(nextIo) <= nextIo && OnlyNew(old(queued), queued, old(nextIo))
      ensures Valid() && SameBelow(old(heads), heads, cur)
      ensures cur in heads
      ensures cur + heads[cur].length == if cur + max < old(k + heads[k].length) then cur + max else old(k + heads[k].length)
      ensures Cut(old(heads), heads, cur, cur + heads[cur].length)
      ensures Rearranged(old(ios), old(queued), old(nextIo), ios, queued, nextIo, cur, cur + heads[cur].length)
      ensures SameEdges(old(heads), heads, cur, cur + heads[cur].length)
    {
      hide Counts;
      hide Apart;
      hide Cut;
      hide SameEdges;
      hide IoOk;
      hide Retaken;
      hide Recalled;
      hide Rearranged;
      ghost var h0 := heads;
      var end := k + heads[k].length;
      if k < cur {
        if cur + max >= end {
          TakeRight(k, cur);
          SameBefore(h0, heads, k, cur, {cur});
          EdgesRight(h0, heads, k, cur);
        } else {
          TakeMiddle(k, cur, cur + max);
          SameBefore(h0, heads, k, cur, {cur, cur + max});
          EdgesMiddle(h0, heads, k, cur, cur + max);
        }
      } else if heads[k].length > max {
        TakeLeft(k, cur + max);
        SameBefore(h0, heads, k, cur, {cur + max});
        EdgesLeft(h0, heads, k, cur + max);
      } else {
        CutNothing(heads, cur, end);
        SameBefore(h0, heads, k, cur, {});
        NotRearranged(ios, queued, nextIo, cur, end);
        EdgesStay(heads, cur, end);
      }
    }

    /** One head for the result of map_write. A write of this epoch to it is taken back. */
    method TakeHit(k: nat, cur: nat, max: nat)
      requires Valid() && k in heads && k <= cur < k + heads[k].length && max > 0
      modifies this`heads, this`stats, this`ios, this`queued, this`nextIo
      ensures old(nextIo) <= nextIo && OnlyNew(old(queued), queued, old(nextIo))
      ensures Valid() && SameBelow(old(heads), heads, cur)
      ensures cur in heads && heads[cur].length > 0
      ensures cur + heads[cur].length == if cur + max < old(k + heads[k].length) then cur + max else old(k + heads[k].length)
      ensures SameEdges(old(heads), heads, cur, cur + heads[cur].length)
      ensures Cut(old(heads), heads, cur, cur + heads[cur].length)
      ensures !Cancellable(heads[cur], queued, epoch)
      ensures Rearranged(old(ios), old(queued), old(nextIo), ios, queued, nextIo, cur, cur + heads[cur].length)
    {
      hide Counts;
      hide IoOk;
      hide At;
      hide Apart;
      hide AllGood;
      hide Cut;
      hide InState;
      hide StateSet;
      hide Below;
      hide Rearranged;
      hide Recalled;
      hide SameEdges;
      ghost var h0, i0, q0, n0 := heads, ios, queued, nextIo;
      IosBelow(heads, ios, queued, nextIo, epoch);
      TakePart(k, cur, max);
      ghost var h1, i1, q1, n1 := heads, ios, queued, nextIo;
      if heads[cur].state.Tx? && heads[cur].epoch == epoch {
        HeadInState(heads, cur);
        var ok := BhCancelWrite(cur);
        if ok {
          CutAgain(h0, h1, heads, cur, cur + h1[cur].length);
          EdgesTag(h0, h1, heads, cur, cur + heads[cur].length);
          TakenAlso(h1, cur, i0, q0, n0, i1, q1, n1, epoch);
        }
      }
    }

    /** How far one head may reach from cur, so that it does not cross the end of a disk extent. */
    method NextExtent(on: Onodes.Onode, cur: nat, left: nat) returns (max: nat, hole: bool)
      requires on.Valid() && left > 0
      ensures 0 < max <= left
      ensures hole <==> cur < |on.Cells()| && !on.Cells()[cur].Real?
      ensures OneExtent(on.Cells(), cur, cur + max)
      ensures max < left ==> cur + max in on.extents
    {
      var exv := on.MapExtents(cur, left);
      max := if |exv| > 1 then exv[0].length else left;
      hole := |exv| > 0 && exv[0].start == 0;
      FirstPlace(on.Cells(), cur, left, exv);
    }

    method HitHead(ghost h0: Heads, ghost c: Cells, ghost m: ExtentMaps.ExtentMap, ghost end: nat,
                   start: nat, cur: nat, max: nat, k: nat, hits: seq<nat>) returns (next: Option<nat>, e: nat)
      requires Valid() && max > 0 && Progress(h0, heads, c, hits, start, cur, Some(k)) && k <= cur
      requires AllFit(heads, queued, epoch, c, hits) && OneExtent(c, cur, cur + max)
      requires EdgesOk(h0, heads, m, end, cur) && Edge(h0, m, end, cur + max)
      modifies this`heads, this`stats, this`ios, this`queued, this`nextIo
      ensures Valid() && cur < e <= cur + max && Progress(h0, heads, c, hits + [cur], start, e, next)
      ensures AllFit(heads, queued, epoch, c, hits + [cur])
      ensures Rearranged(old(ios), old(queued), old(nextIo), ios, queued, nextIo, cur, e)
      ensures EdgesOk(h0, heads, m, end, e) && Edge(h0, m, end, e)
    {
      hide SameEdges;
      hide EdgesOk;
      hide Edge;
      hide Apart;
      hide Cancellable;
      hide AllFit;
      hide Rearranged;
      hide At;
      hide Cut;
      hide IoOk;
      hide Counts;
      hide AllGood;
      hide Tiling;
      hide MappedTo;
      hide OneExtent;
      hide SameBelow;
      ghost var h1, q1 := heads, queued;
      HeadCached(heads, k);
      TagsOld(heads, ios, queued, nextIo, epoch);
      TakeHit(k, cur, max);
      e := cur + heads[cur].length;
      EdgesMore(h0, h1, heads, m, end, cur, max, k, e);
      MapMore(h0, h1, heads, c, start, cur, e, k);
      OneExtentPart(c, cur, cur + max, e);
      FitLater(h1, heads, q1, queued, old(nextIo), epoch, c, hits, start, cur);
      FitMore(heads, queued, epoch, c, hits, cur);
      TilingMore(h1, heads, hits, start, cur);
      next := KeyAtOrAfter(heads.Keys, cur + 1);
      FirstAfter(heads, cur, next);
    }

    method GapHead(ghost h0: Heads, ghost c: Cells, ghost m: ExtentMaps.ExtentMap, ghost end: nat,
                   start: nat, cur: nat, n: nat, p: Option<nat>, hits: seq<nat>, hole: bool)
      requires Valid() && n > 0 && Progress(h0, heads, c, hits, start, cur, p)
      requires p.Some? ==> cur + n <= p.value
      requires AllFit(heads, queued, epoch, c, hits) && OneExtent(c, cur, cur + n)
      requires hole <==> cur < |c| && !c[cur].Real?
      requires EdgesOk(h0, heads, m, end, cur) && Edge(h0, m, end, cur + n)
      modifies this`heads, this`stats
      ensures Valid() && Progress(h0, heads, c, hits + [cur], start, cur + n, p)
      ensures AllFit(heads, queued, epoch, c, hits + [cur])
      ensures EdgesOk(h0, heads, m, end, cur + n)
    {
      hide EdgesOk;
      hide Edge;
      hide IoOk;
      hide Counts;
      hide At;
      hide MappedTo;
      hide SameBelow;
      hide Tiling;
      hide Apart;
      hide AllGood;
      hide AllFit;
      ghost var h1 := heads;
      NoneAhead(heads, cur, p, n);
      TagsOld(heads, ios, queued, nextIo, epoch);
      AddBh(cur, n, if hole then Clean else Missing);
      EdgesNew(h0, h1, m, end, cur, NewHead(n, if hole then Clean else Missing));
      MapNew(h0, h1, heads, c, start, cur, cur + n, if hole then Clean else Missing);
      FirstStays(h1, cur, p, NewHead(n, if hole then Clean else Missing));
      SameBelowNew(h1, cur, NewHead(n, if hole then Clean else Missing));
      FitLater(h1, heads, queued, queued, nextIo, epoch, c, hits, start, cur);
      FitMore(heads, queued, epoch, c, hits, cur);
      TilingMore(h1, heads, hits, start, cur);
    }

    /** One head more for the result of map_write, from cur on. */
    method NextHit(on: Onodes.Onode, ghost h0: Heads, ghost c: Cells, ghost m: ExtentMaps.ExtentMap, ghost end: nat,
                   start: nat, cur: nat, left: nat, p: Option<nat>, hits: seq<nat>) returns (next: Option<nat>, e: nat)
      requires Valid() && on.Valid() && c == on.Cells() && m == on.extents && left > 0 && cur + left == end
      requires Progress(h0, heads, c, hits, start, cur, p) && AllFit(heads, queued, epoch, c, hits)
      requires EdgesOk(h0, heads, m, end, cur)
      modifies this`heads, this`stats, this`ios, this`queued, this`nextIo
      ensures Valid() && cur < e <= end && Progress(h0, heads, c, hits + [cur], start, e, next)
      ensures AllFit(heads, queued, epoch, c, hits + [cur])
      ensures EdgesOk(h0, heads, m, end, e) && Edge(h0, m, end, e)
      ensures Rearranged(old(ios), old(queued), old(nextIo), ios, queued, nextIo, cur, e)
    {
      hide IoOk;
      hide Counts;
      hide At;
      hide MappedTo;
      hide Tiling;
      hide IsFirst;
      hide Rearranged;
      hide Below;
      hide OneExtent;
      hide Apart;
      hide AllGood;
      hide Summed;
      hide AllFit;
      hide EdgesOk;
      hide Edge;
      hide Maximal;
      var max, hole := NextExtent(on, cur, left);
      EdgeAt(h0, m, end, cur + max);
      if p.Some? && p.value <= cur {
        next, e := HitHead(h0, c, m, end, start, cur, max, p.value, hits);
      } else {
        var n := if p.Some? && p.value - cur < max then p.value - cur else max;
        OneExtentPart(c, cur, cur + max, cur + n);
        if n < max {
          EdgeOfHead(h0, heads, m, end, cur, p);
        }
        GapHead(h0, c, m, end, start, cur, n, p, hits, hole);
        NotRearranged(ios, queued, nextIo, cur, cur + n);
        next, e := p, cur + n;
      }
    }

    /** The heads for a range of blocks that is about to be overwritten: they fit the range exactly,
        one after the other, and what they hold has not changed. None of them reaches over the end
        of a disk extent or has a write of this epoch that could still be cancelled; a new one is
        clean where the object has a hole. */
    method MapWrite(on: Onodes.Onode, start: nat, len: nat) returns (hits: seq<nat>)
      requires Valid() && on.Valid()
      modifies this`heads, this`stats, this`ios, this`queued, this`nextIo
      ensures Valid()
      ensures Tiling(heads, hits, start, start + len)
      ensures MappedTo(old(heads), heads, on.Cells(), start, start + len)
      ensures AllFit(heads, queued, epoch, on.Cells(), hits)
      ensures Maximal(old(heads), on.extents, start + len, hits)
      ensures Rearranged(old(ios), old(queued), old(nextIo), ios, queued, nextIo, start, start + len)
    {
      hide IoOk;
      hide Counts;
      hide At;
      hide MappedTo;
      hide Tiling;
      hide IsFirst;
      hide Rearranged;
      hide Below;
      hide OneExtent;
      hide Apart;
      hide AllGood;
      hide Summed;
      hide AllFit;
      hide EdgesOk;
      hide Edge;
      hide Maximal;
      ghost var h0, c, i0, q0, n0 := heads, on.Cells(), ios, queued, nextIo;
      ghost var m, end := on.extents, start + len;
      var p: Option<nat> := FindBh(start, len);
      var cur, left := start, len;
      hits := [];
      MapNothing(heads, c, start);
      FitNothing(heads, queued, epoch, c);
      EdgesStart(heads, m, end, start);
      NotRearranged(ios, queued, nextIo, start, cur);
      IosBelow(heads, ios, queued, nextIo, epoch);
      while left > 0
        invariant left >= 0 && cur + left == end
        invariant Valid() && on.Valid() && c == on.Cells() && Progress(h0, heads, c, hits, start, cur, p)
        invariant AllFit(heads, queued, epoch, c, hits)
        invariant EdgesOk(h0, heads, m, end, cur) && Maximal(h0, m, end, hits) && (hits != [] ==> Edge(h0, m, end, cur))
        invariant Rearranged(i0, q0, n0, ios, queued, nextIo, start, cur)
        decreases left
      {
        var e: nat;
        ghost var i1, q1, n1 := ios, queued, nextIo;
        MaximalMore(h0, m, end, hits, cur);
        p, e := NextHit(on, h0, c, m, end, start, cur, left, p, hits);
        RearrangedNext(i0, q0, n0, i1, q1, n1, ios, queued, nextIo, start, cur, e);
        hits := hits + [cur];
        cur, left := e, left - (e - cur);
      }
    }

    // ---- truncate ----

    method RemoveBh(k: nat)
      requires Valid() && k in heads
      modifies this`heads, this`stats
      ensures Valid() && heads == old(heads) - {k}
      ensures forall i: nat {:trigger At(heads, i)} ::
                At(heads, i) == if k <= i < k + old(heads)[k].length then None else old(At(heads, i))
    {
      hide Counts;
      hide HeadOk;
      RemoveView(heads, k);
      hide At;
      CountRemove(heads, stats, k);
      PlusStat(stats, heads[k].state, 0 - heads[k].length, heads[k].state);
      stats := Minus(stats, heads[k].state, heads[k].length);
      heads := heads - {k};
    }

    /** discard_bh; `uncom` says that the blocks are uncommitted. */
    method DiscardBh(k: nat, uncom: bool)
      requires Valid() && k in heads
      modifies this`heads, this`stats, this`ios, this`queued
      ensures Valid() && heads == old(heads) - {k}
      ensures forall i: nat {:trigger At(heads, i)} ::
                At(heads, i) == if k <= i < k + old(heads)[k].length then None else old(At(heads, i))
      ensures ios == old(ios) - old(queued) * Recalled(old(heads)[k], uncom, epoch)
      ensures queued == old(queued) - Recalled(old(heads)[k], uncom, epoch)
    {
      hide Counts;
      hide IoOk;
      hide At;
      hide Summed;
      hide Apart;
      hide AllGood;
      if heads[k].state.Rx? {
        var ok := BhCancelRead(k);
      }
      if heads[k].state.Tx? && uncom && heads[k].epoch == epoch {
        var ok := BhCancelWrite(k);
      }
      RemoveBh(k);
      assert heads == old(heads) - {k};
    }

    /** Drops every cached block from `blocks` on, and changes nothing before it. Of the requests, those
        of the heads that it drops are taken back if they are still queued: the reads, and the writes of
        uncommitted blocks (`uncom`) in this epoch. If that of a head which is cut can be taken back, it
        is issued again for the part that stays. All others stay. */
    method Truncate(blocks: nat, uncom: set<nat>)
      requires Valid()
      modifies this`heads, this`stats, this`ios, this`queued, this`nextIo
      ensures Valid()
      ensures forall i: nat {:trigger At(heads, i)} :: At(heads, i) == if i < blocks then old(At(heads, i)) else None
      ensures Truncated(old(heads), blocks, uncom, epoch, old(ios), old(queued), old(nextIo), ios, queued, nextIo)
    {
      hide Counts;
      hide Beyond;
      hide IoOk;
      hide At;
      hide AllGood;
      hide Apart;
      hide TakenBack;
      hide SameUpTo;
      hide Recalled;
      hide Truncated;
      hide Summed;
      hide Left;
      hide Retaken;
      hide AllIn;
      ghost var h0, i0, q0, n0 := heads, ios, queued, nextIo;
      var last: Option<nat> := LastKey(heads);
      LeftAll(h0, blocks, uncom, epoch, i0, q0);
      SameSelf(h0, blocks);
      ghost var cut := false;
      while last.Some? && last.value + heads[last.value].length > blocks
        invariant Valid() && last == LastKey(heads) && SameUpTo(h0, heads, blocks)
        invariant !cut ==> Left(h0, heads, blocks) && nextIo == n0
        invariant !cut ==> TakenBack(h0, heads, blocks, uncom, epoch, i0, q0, ios, queued)
        invariant cut ==> Truncated(h0, blocks, uncom, epoch, i0, q0, n0, ios, queued, nextIo)
        invariant cut ==> last.Some? && last.value + heads[last.value].length <= blocks
        decreases |Beyond(heads, blocks)|
      {
        var k := last.value;
        ghost var h1, i1, q1 := heads, ios, queued;
        LeftHead(h0, heads, blocks, k);
        if k < blocks {
          TakeRight(k, blocks);
          NoneBack(heads[blocks], AllIn(blocks, heads[blocks].length, uncom), epoch, ios, queued);
          DiscardBh(blocks, AllIn(blocks, heads[blocks].length, uncom));
          CutOffEnd(h0, h1, heads, k, blocks);
          LastStays(h1, heads, k, blocks);
          CutBack(h0, h1, k, blocks, uncom, epoch, i0, q0, n0, i1, q1, ios, queued, nextIo);
          cut := true;
        } else {
          DiscardBh(k, AllIn(k, heads[k].length, uncom));
          CutOffHead(h0, h1, heads, k, blocks);
          BackMore(h0, h1, heads, k, blocks, uncom, epoch, i0, q0, i1, q1, ios, queued);
        }
        last := LastKey(heads);
      }
      if !cut {
        AllBack(h0, heads, blocks, uncom, epoch, i0, q0, n0, ios, queued);
      }
      NothingBeyond(h0, heads, blocks);
    }

    // ---- merging ----

    /** Takes the head that follows k into k; both are clean and loaded. */
    method MergeBhLeft(k: nat, r: nat)
      requires Valid() && Mergeable(heads, k, r)
      modifies this`heads, this`stats
      ensures Valid() && heads == MergeAt(old(heads), k, r) && SimilarView(old(heads), heads)
      ensures SameOutside(old(heads), heads, k, r + old(heads)[r].length)
    {
      hide Counts;
      hide IoOk;
      hide At;
      hide GoodHead;
      ghost var h0 := heads;
      MergeShape(heads, k, r);
      MergeView(heads, k, r);
      MergeCounts(heads, stats, k, r);
      IoMerge(heads, k, r, ios, queued, nextIo, epoch);
      MergeSummed(stats, heads[k].length, heads[r].length);
      stats := Minus(stats, Clean, heads[k].length);
      stats := Plus(stats, Clean, heads[k].length + heads[r].length);
      stats := Minus(stats, Clean, heads[r].length);
      heads := (heads - {r})[k := Merged(heads[k], heads[r])];
    }

    /** Merges head k with the one before it, if they touch and both are clean and loaded. `few`:
        nothing holds on to k, and neither has too many buffers. */
    method TryMergeLeft(k: nat, few: bool) returns (p: nat)
      requires Valid() && k in heads
      modifies this`heads, this`stats
      ensures Valid() && p in heads && p <= k && p + heads[p].length == old(k + heads[k].length)
      ensures var b: Option<nat> := KeyBefore(old(heads).Keys, k);
              if few && b.Some? && Mergeable(old(heads), b.value, k) then p == b.value && heads == MergeAt(old(heads), p, k)
              else p == k && heads == old(heads)
      ensures SimilarView(old(heads), heads) && SameButClean(old(heads), heads)
      ensures SameAfter(old(heads), heads, k + 1)
      ensures ViewFrom(old(heads), heads, old(k + heads[k].length))
    {
      hide Counts;
      hide IoOk;
      hide At;
      hide GoodHead;
      p := k;
      var before: Option<nat> := KeyBefore(heads.Keys, k);
      if before.Some? && before.value + heads[before.value].length == k
         && heads[before.value].state.Clean? && |heads[before.value].data| > 0
         && heads[k].state.Clean? && |heads[k].data| > 0 && few {
        MergeBhLeft(before.value, k);
        p := before.value;
      } else {
        SimilarSame(heads);
      }
    }

    method TryMergeRight(k: nat, few: bool)
      requires Valid() && k in heads
      modifies this`heads, this`stats
      ensures Valid() && SimilarView(old(heads), heads) && SameButClean(old(heads), heads)
      ensures var r := old(k + heads[k].length);
              heads == if few && Mergeable(old(heads), k, r) then MergeAt(old(heads), k, r) else old(heads)
    {
      hide Counts;
      hide IoOk;
      hide At;
      hide GoodHead;
      var r := k + heads[k].length;
      if r in heads && heads[k].state.Clean? && |heads[k].data| > 0
         && heads[r].state.Clean? && |heads[r].data| > 0 && few {
        MergeBhLeft(k, r);
      } else {
        SimilarSame(heads);
      }
    }

    // ---- tx_finish ----

    /** The head does not name the request that has finished any more. */
    method ClearTag(k: nat, ioh: nat)
      requires Valid() && k in heads
      modifies this`heads
      ensures Valid() && SameView(old(heads), heads) && heads.Keys == old(heads).Keys
      ensures heads[k] == old(heads)[k].(tx := if old(heads)[k].tx == ioh then 0 else old(heads)[k].tx)
      ensures forall j :: j in heads && j != k ==> heads[j] == old(heads)[j]
    {
      hide Counts;
      hide IoOk;
      hide At;
      hide GoodHead;
      var h := heads[k];
      ViewSame(heads);
      if h.tx == ioh {
        TagHead(heads, stats, k, h.(tx := 0));
        Untagged(heads, k, ios, queued, nextIo, epoch);
        heads := heads[k := h.(tx := 0)];
      }
    }

    method MarkFlushed(k: nat, version: nat)
      requires Valid() && k in heads && heads[k].state.Tx?
      modifies this`heads, this`stats
      ensures Valid() && StateSet(old(heads), heads, k, k + old(heads)[k].length, Clean)
      ensures heads == old(heads)[k := old(heads)[k].(flushed := version, state := Clean)]
    {
      hide Counts;
      hide IoOk;
      hide At;
      ghost var h0 := heads;
      TagHead(heads, stats, k, heads[k].(flushed := version));
      Cleaned(heads, k, version, ios, queued, nextIo, epoch);
      heads := heads[k := heads[k].(flushed := version)];
      ghost var h1 := heads;
      SetState(k, Clean);
      ThenSet(h0, h1, heads, k, k + h0[k].length, Clean);
      assert heads == h0[k := h0[k].(flushed := version, state := Clean)];
    }

    /** One head of tx_finish. */
    method FinishHead(k: nat, ioh: nat, version: nat)
      requires Valid() && k in heads
      modifies this`heads, this`stats
      ensures Valid() && heads.Keys == old(heads).Keys && heads[k].length == old(heads)[k].length
      ensures forall j :: j in heads && j != k ==> heads[j] == old(heads)[j]
      ensures !(heads[k].state.Tx? && heads[k].version == version)
      ensures if old(heads)[k].state.Tx? && old(heads)[k].version == version
              then StateSet(old(heads), heads, k, k + heads[k].length, Clean)
              else SameView(old(heads), heads) && heads[k].state == old(heads)[k].state
    {
      hide *;
      ghost var h0 := heads;
      ClearTag(k, ioh);
      ghost var h1 := heads;
      if heads[k].state.Tx? && heads[k].version == version {
        MarkFlushed(k, version);
        ThenSet(h0, h1, heads, k, k + h1[k].length, Clean);
      }
    }

    /** tx_finish, one head further. */
    method TxStep(ghost h0: Heads, k: nat, ioh: nat, start: nat, length: nat, version: nat, few: bool)
      returns (next: Option<nat>)
      requires Valid() && TxProgress(h0, heads, start, length, version, Some(k)) && k < start + length
      modifies this`heads, this`stats
      ensures Valid() && TxProgress(h0, heads, start, length, version, next)
      ensures next.Some? ==> next.value > k
    {
      hide Counts;
      hide IoOk;
      hide At;
      hide AllGood;
      hide Apart;
      hide TxView;
      hide NoTx;
      hide SameAfter;
      hide StateSet;
      hide SameView;
      hide SimilarView;
      hide SameButClean;
      hide ViewFrom;
      ghost var h1 := heads;
      ghost var l := heads[k].length;
      SameHere(h0, heads, k);
      HeadPositive(heads, k);
      var due := heads[k].state.Tx? && heads[k].version == version;
      FinishHead(k, ioh, version);
      ghost var h2 := heads;
      var q := k;
      if due {
        q := TryMergeLeft(k, few);
      } else {
        NotMerged(heads, k);
      }
      next := KeyAtOrAfter(heads.Keys, q + 1);
      TxNext(h0, h1, h2, heads, k, q, start, length, version, next);
      TxGap(h2, heads, k, q, l, next);
      TxStepView(h0, h1, h2, heads, k, l, start, length, version, next);
    }

    /** A write has finished: the blocks that still have the version it carried become clean. */
    method TxFinish(ioh: nat, start: nat, length: nat, version: nat, few: nat -> bool)
      requires Valid() && ioh in ios && ioh !in queued
      requires ios[ioh].WriteOf? && ios[ioh].start == start && ios[ioh].length == length && ios[ioh].version == version
      modifies this`heads, this`stats, this`ios
      ensures Valid() && ios == old(ios) - {ioh}
      ensures TxView(old(heads), heads, start, length, version, None)
    {
      ghost var h0 := heads;
      var p: Option<nat> := KeyAtOrAfter(heads.Keys, start);
      TxBegin(heads, start, length, version, p);
      while p.Some? && p.value < start + length
        invariant ios == old(ios) && queued == old(queued) && Valid()
        invariant TxProgress(h0, heads, start, length, version, p)
        decreases if p.Some? && p.value < start + length then start + length - p.value else 0
      {
        p := TxStep(h0, p.value, ioh, start, length, version, few(p.value));
      }
      ghost var h1 := heads;
      if p.Some? {
        TryMergeRight(p.value, few(p.value));
      } else {
        SimilarSame(heads);
      }
      TxEnd(h0, h1, heads, start, length, version, p);
      TxIo(heads, ios, queued, nextIo, epoch, ioh);
      ios := ios - {ioh};
    }

    // ---- overwriting ----

    /** One head of apply_write, all of it overwritten. */
    method OverwriteHead(k: nat, contents: seq<Bytes>, version: nat)
      requires Valid() && k in heads && |contents| == heads[k].length
      modifies this`heads, this`stats, this`ios, this`queued, this`nextIo
      ensures Valid() && heads.Keys == old(heads).Keys && heads[k].length == |contents|
      ensures forall j :: j in heads && j != k ==> heads[j] == old(heads)[j]
      ensures ios == old(ios)[old(nextIo) := WriteOf(k, |contents|, version, epoch, contents)]
      ensures queued == old(queued) + {old(nextIo)} && nextIo == old(nextIo) + 1
      ensures Written(old(heads), heads, k, contents, version, epoch)
    {
      hide Counts;
      hide At;
      hide IoOk;
      hide Put;
      hide StateSet;
      ghost var h0 := heads;
      var h := heads[k];
      TagsNew(heads, k, ios, queued, nextIo, epoch);
      Replace(k, h.(state := Dirty, version := version, epoch := epoch, data := contents, patch := map[]));
      ghost var h1 := heads;
      BhWrite(k);
      PutWritten(h0, h1, heads, k, contents, version, epoch);
    }

    /** apply_write for whole blocks, where the blocks are already placed: every block of the range
        gets its contents and the next version, and a write of it is queued. */
    method Overwrite(on: Onodes.Onode, start: nat, contents: seq<Bytes>)
      requires Valid() && on.Valid()
      modifies this`heads, this`stats, this`ios, this`queued, this`nextIo, this`writeCount
      ensures Valid() && writeCount == old(writeCount) + 1
      ensures forall i: nat :: start <= i < start + |contents| ==>
                At(heads, i) == Some(Info(Tx, writeCount, epoch, Some(contents[i - start]), map[]))
      ensures forall i: nat {:trigger At(heads, i)} ::
                i < start || start + |contents| <= i ==> At(heads, i) == old(At(heads, i))
      ensures Issued(old(ios), old(queued), old(nextIo), ios, queued, nextIo, start, contents, writeCount, epoch)
    {
      hide Issued;
      hide Rearranged;
      hide Below;
      hide WritesNew;
      hide At;
      hide IoOk;
      hide Counts;
      hide Tiling;
      hide AllFit;
      hide MappedTo;
      hide Apart;
      hide AllGood;
      hide Summed;
      hide Written;
      hide WrittenTo;
      ghost var h0, i0, q0, n0 := heads, ios, queued, nextIo;
      IosBelow(heads, ios, queued, nextIo, epoch);
      var hits := MapWrite(on, start, |contents|);
      writeCount := writeCount + 1;
      IssuedStart(i0, q0, n0, ios, queued, nextIo, start, contents, writeCount, epoch);
      ghost var h1 := heads;
      var pos := start;
      TilingStart(heads, hits, start, start + |contents|);
      WrittenNone(h1, start, contents, writeCount, epoch);
      for n := 0 to |hits|
        invariant Valid() && start <= pos <= start + |contents| && writeCount == old(writeCount) + 1
        invariant pos == if n < |hits| then hits[n] else start + |contents|
        invariant heads.Keys == h1.Keys && forall k :: k in heads && k >= pos ==> heads[k] == h1[k]
        invariant WrittenTo(h1, heads, start, contents, pos, writeCount, epoch)
        invariant Issued(i0, q0, n0, ios, queued, nextIo, start, contents, writeCount, epoch)
      {
        IosBelow(heads, ios, queued, nextIo, epoch);
        ghost var i1, q1, n1 := ios, queued, nextIo;
        var k := hits[n];
        TilingStep(h1, hits, start, start + |contents|, n);
        var e := k + heads[k].length;
        ghost var h2 := heads;
        OverwriteHead(k, contents[k - start..e - start], writeCount);
        PieceIsNew(start, contents, k, e, writeCount, epoch);
        IssuedMore(WriteOf(k, e - k, writeCount, epoch, contents[k - start..e - start]), i0, q0, n0, i1, q1, n1,
                   start, contents, writeCount, epoch);
        WrittenMore(h1, h2, heads, start, contents, k, e, writeCount, epoch);
        pos := e;
      }
      MappedOutside(h0, h1, on.Cells(), start, start + |contents|);
      AllWritten(h1, heads, start, contents, writeCount, epoch);
    }

    // ---- rx_finish ----

    /** Puts new contents into a head. */
    method Replace(k: nat, h: BufferHead)
      requires Valid() && k in heads && GoodHead(h) && h.length == heads[k].length
      requires (h.state.Clean? || h.state.Dirty?) && h.tx < nextIo && h.rx < nextIo
      modifies this`heads, this`stats
      ensures Valid() && heads == old(heads)[k := h] && Put(old(heads), heads, k, h)
    {
      hide Counts;
      hide At;
      CountReplace(heads, stats, k, h);
      PutView(heads, k, h);
      PutSummed(stats, heads[k].state, h.state, h.length);
      IoPut(heads, k, h, ios, queued, nextIo, epoch);
      hide IoOk;
      hide HeadOk;
      stats := Minus(stats, heads[k].state, heads[k].length);
      heads := heads[k := h];
      stats := Plus(stats, h.state, h.length);
    }

    /** mark_clean or mark_corrupt, for a head that is one of the two */
    method Mark(k: nat, st: HeadState)
      requires Valid() && k in heads && Settled(heads[k].state) && Settled(st)
      modifies this`heads, this`stats
      ensures Valid() && heads == old(heads)[k := old(heads)[k].(state := st)]
      ensures StateSet(old(heads), heads, k, k + heads[k].length, st)
    {
      hide Counts;
      hide At;
      MarkIo(heads, k, st, ios, queued, nextIo, epoch);
      hide IoOk;
      SetState(k, st);
    }

    /** Cuts the head in two, and keeps the right part. */
    method CutAt(ghost h0: Heads, ghost k: nat, ghost end: nat, cur: nat, b: nat)
      requires Valid() && Pieces(h0, heads, k, end) && k <= cur < b < end
      requires cur in heads && cur + heads[cur].length == end && heads[cur].state.Clean?
      modifies this`heads, this`stats
      ensures Valid() && Pieces(h0, heads, k, end) && SameView(old(heads), heads)
      ensures b in heads && b + heads[b].length == end && heads[b].state.Clean?
      ensures cur in heads && cur + heads[cur].length == b && heads[cur].state.Clean?
    {
      hide Counts;
      hide IoOk;
      hide At;
      hide SameView;
      hide Apart;
      hide AllGood;
      ghost var h1 := heads;
      Split(cur, b);
      SplitFacts(h1, cur, b);
      SplitPieces(h0, h1, k, end, cur, b);
    }

    /** What rx_finish makes of a head whose blocks fail their checksums where `bad` says so: the runs
        of bad blocks are split off and marked corrupt, and the head that is left at the end is marked
        clean. If the last run reaches the end of the head, nothing is left, and it is that run which is
        marked clean. (In the source the parts are being read until they are marked.) */
    method VerifyHead(k: nat, bad: nat -> bool)
      requires Valid() && k in heads && heads[k].state.Clean?
      modifies this`heads, this`stats
      ensures Valid() && Pieces(old(heads), heads, k, k + old(heads)[k].length)
      ensures Marked(old(heads), heads, bad, k, k + old(heads)[k].length)
    {
      hide Counts;
      hide IoOk;
      hide At;
      hide Pieces;
      hide MarkedTo;
      hide StateSet;
      hide SameView;
      hide Apart;
      hide AllGood;
      ghost var h0 := heads;
      var end := k + heads[k].length;
      var cur, b := k, k;
      HeadPositive(heads, k);
      PiecesStart(h0, k, h0[k]);
      assert h0[k := h0[k]] == h0;
      MarkedStart(h0, bad, k, end);
      while b < end
        invariant k <= cur <= b && cur < end && Valid() && Pieces(h0, heads, k, end)
        invariant cur in heads && cur + heads[cur].length == end && Settled(heads[cur].state)
        invariant MarkedTo(h0, heads, bad, k, cur, end, heads[cur].state)
        invariant heads[cur].state.Clean? ==> (b == k == cur || cur < b) && forall j :: cur <= j < b ==> !bad(j)
        invariant heads[cur].state.Corrupt? ==> b >= end && forall j :: cur <= j < end ==> bad(j)
      {
        if bad(b) {
          var e := b;
          while e < end && bad(e)
            invariant b <= e <= end && forall j :: b <= j < e ==> bad(j)
          {
            e := e + 1;
          }
          cur := MarkRun(h0, k, end, bad, cur, b, e);
          b := e;
        }
        b := b + 1;
      }
      ghost var h1 := heads;
      Mark(cur, Clean);
      MarkPieces(h0, h1, k, end, cur, Clean);
      MarkedEnd(h0, h1, heads, bad, k, cur, end, h1[cur].state);
    }

    /** One run of bad blocks, from b to e. */
    method MarkRun(ghost h0: Heads, k: nat, end: nat, ghost bad: nat -> bool, from: nat, b: nat, e: nat)
      returns (cur: nat)
      requires Valid() && Pieces(h0, heads, k, end) && k <= from <= b < e <= end && (b == k == from || from < b)
      requires from in heads && from + heads[from].length == end && heads[from].state.Clean?
      requires MarkedTo(h0, heads, bad, k, from, end, Clean) && forall j :: from <= j < b ==> !bad(j)
      requires (forall j :: b <= j < e ==> bad(j)) && (e < end ==> !bad(e))
      modifies this`heads, this`stats
      ensures Valid() && Pieces(h0, heads, k, end) && cur == if e < end then e else b
      ensures cur in heads && cur + heads[cur].length == end
      ensures heads[cur].state == if e < end then Clean else Corrupt
      ensures MarkedTo(h0, heads, bad, k, cur, end, heads[cur].state)
    {
      hide Counts;
      hide IoOk;
      hide At;
      hide Pieces;
      hide MarkedTo;
      hide StateSet;
      hide SameView;
      hide Apart;
      hide AllGood;
      cur := from;
      ghost var h1 := heads;
      if b > k {
        CutAt(h0, k, end, cur, b);
        cur := b;
      } else {
        ViewSame(heads);
      }
      MarkedGood(h0, h1, heads, bad, k, from, b, end);
      ghost var h2 := heads;
      if e < end {
        CutAt(h0, k, end, cur, e);
      } else {
        ViewSame(heads);
      }
      ghost var h3 := heads;
      Mark(cur, Corrupt);
      MarkPieces(h0, h3, k, end, cur, Corrupt);
      MarkedBad(h0, h2, h3, heads, bad, k, b, e, end);
      if e < end {
        cur := e;
      }
    }

    /** One head of rx_finish that was waiting. */
    method LoadRead(k: nat, rx: nat, start: nat, bl: seq<Bytes>, bad: nat -> bool)
      requires Valid() && k in heads && start <= k && k + heads[k].length <= start + |bl|
      requires heads[k].state.Rx? && heads[k].tx < nextIo && rx < nextIo
      modifies this`heads, this`stats
      ensures Valid() && Pieces(old(heads), heads, k, k + old(heads)[k].length)
      ensures Loaded(old(heads), heads, k, start, bl, bad)
    {
      hide Counts;
      hide IoOk;
      hide At;
      hide Marked;
      hide Loaded;
      hide Put;
      hide Pieces;
      hide Apart;
      hide AllGood;
      ghost var h0 := heads;
      var h := heads[k];
      HeadPositive(heads, k);
      var g := h.(rx := rx, state := Clean, data := bl[k - start..k - start + h.length]);
      NoPatch(heads, k);
      Replace(k, g);
      ghost var h1 := heads;
      VerifyHead(k, bad);
      LoadedClean(h0, h1, heads, k, g, start, bl, bad);
    }

    /** One head of rx_finish with a partial write, which is laid over the contents and written out. */
    method LoadPartial(k: nat, rx: nat, start: nat, bl: seq<Bytes>, ghost bad: nat -> bool)
      requires Valid() && k in heads && start <= k && k + heads[k].length <= start + |bl|
      requires heads[k].state.Partial? && heads[k].length == 1 && heads[k].tx < nextIo && rx < nextIo
      modifies this`heads, this`stats, this`ios, this`queued, this`nextIo
      ensures Valid() && Pieces(old(heads), heads, k, k + old(heads)[k].length)
      ensures LoadIo(old(heads)[k], k, old(ios), old(queued), old(nextIo), ios, queued, nextIo, bl[k - start])
      ensures Loaded(old(heads), heads, k, start, bl, bad)
    {
      hide Counts;
      hide IoOk;
      hide At;
      hide Loaded;
      hide Put;
      hide Apart;
      hide AllGood;
      hide Pieces;
      ghost var h0 := heads;
      var h := heads[k];
      var g := h.(rx := rx, state := Dirty, data := [PartialBlocks.Overlay(bl[k - start], h.patch)], patch := map[]);
      Replace(k, g);
      ghost var h1 := heads;
      BhWrite(k);
      LoadedDirty(h0, h1, heads, k, g, start, bl, bad);
      PiecesStart(h0, k, heads[k]);
      assert heads == h0[k := heads[k]];
    }

    /** One head of rx_finish. */
    method LoadHead(k: nat, ioh: nat, start: nat, bl: seq<Bytes>, bad: nat -> bool)
      requires Valid() && k in heads && start <= k && k + heads[k].length <= start + |bl|
      modifies this`heads, this`stats, this`ios, this`queued, this`nextIo
      ensures Valid() && Pieces(old(heads), heads, k, k + old(heads)[k].length)
      ensures LoadIo(old(heads)[k], k, old(ios), old(queued), old(nextIo), ios, queued, nextIo, bl[k - start])
      ensures Loaded(old(heads), heads, k, start, bl, bad)
    {
      hide Counts;
      hide IoOk;
      hide At;
      hide Loaded;
      hide Pieces;
      hide Apart;
      hide AllGood;
      ghost var h0 := heads;
      var h := heads[k];
      TagsBelow(heads, k, ios, queued, nextIo, epoch);
      var rx := if h.rx == ioh then 0 else h.rx;
      if h.state.Rx? {
        LoadRead(k, rx, start, bl, bad);
      } else if h.state.Partial? {
        PartialIsOne(heads, k);
        LoadPartial(k, rx, start, bl, bad);
      } else {
        LoadedNothing(h0, k, start, bl, bad);
        UnreadTag(heads, stats, k, rx, ios, queued, nextIo, epoch);
        heads := heads[k := h.(rx := rx)];
        LoadedTag(h0, heads, k, start, bl, bad);
        PiecesStart(h0, k, h.(rx := rx));
      }
    }

    /** rx_finish, one head further. */
    method RxStep(ghost h0: Heads, ghost i0: Requests, ghost q0: set<nat>, ghost n0: nat,
                  k: nat, ioh: nat, start: nat, bl: seq<Bytes>, bad: nat -> bool) returns (next: Option<nat>)
      requires Valid() && RxProgress(h0, heads, start, bl, bad, Some(k)) && k + heads[k].length <= start + |bl|
      requires Laid(h0, i0, q0, n0, ios, queued, nextIo, start, bl) && Below(i0, n0)
      modifies this`heads, this`stats, this`ios, this`queued, this`nextIo
      ensures Valid() && Laid(h0, i0, q0, n0, ios, queued, nextIo, start, bl)
      ensures RxProgress(h0, heads, start, bl, bad, next) && (next.Some? ==> next.value > k)
    {
      hide Laid;
      hide LoadIo;
      hide Below;
      hide Counts;
      hide IoOk;
      hide At;
      hide AllGood;
      hide Apart;
      hide RxView;
      hide NoRx;
      hide SameAfter;
      hide Loaded;
      hide Pieces;
      ghost var h1, i1, q1, n1 := heads, ios, queued, nextIo;
      SameHere(h0, heads, k);
      HeadPositive(heads, k);
      next := KeyAtOrAfter(heads.Keys, k + 1);
      RxGap(heads, k, next);
      IosBelow(heads, ios, queued, nextIo, epoch);
      LoadHead(k, ioh, start, bl, bad);
      LaidMore(h0, k, i0, q0, n0, i1, q1, n1, ios, queued, nextIo, start, bl);
      RxNext(h0, h1, heads, k, start, bl, next);
      RxStepView(h0, h1, heads, k, start, bl, bad, next);
    }

    /** A read has finished: every head inside its range that was waiting gets its contents. `bad`
        says which blocks came with another checksum than the one that the onode has. */
    method RxFinish(ioh: nat, start: nat, bl: seq<Bytes>, bad: nat -> bool)
      requires Valid() && ioh in ios && ioh !in queued && ios[ioh] == ReadOf(start, |bl|)
      modifies this`heads, this`stats, this`ios, this`queued, this`nextIo
      ensures Valid() && ioh !in ios
      ensures RxView(old(heads), heads, start, bl, bad, None)
      ensures Arrived(old(heads), heads, start, bl)
      ensures Laid(old(heads), old(ios), old(queued), old(nextIo), ios[ioh := ReadOf(start, |bl|)], queued, nextIo,
                   start, bl)
    {
      hide Laid;
      hide Arrived;
      hide IoOk;
      hide Counts;
      hide At;
      hide Apart;
      hide AllGood;
      hide RxView;
      hide NoRx;
      hide SameAfter;
      hide Below;
      hide Summed;
      ghost var h0, i0, q0, n0 := heads, ios, queued, nextIo;
      var p: Option<nat> := KeyAtOrAfter(heads.Keys, start);
      RxBegin(heads, start, bl, bad, p);
      LaidNothing(heads, ios, queued, nextIo, start, bl);
      IosBelow(heads, ios, queued, nextIo, epoch);
      while p.Some? && p.value < start + |bl| && p.value + heads[p.value].length <= start + |bl|
        invariant Valid() && RxProgress(h0, heads, start, bl, bad, p)
        invariant Laid(h0, i0, q0, n0, ios, queued, nextIo, start, bl)
        decreases if p.Some? && p.value < start + |bl| then start + |bl| - p.value else 0
      {
        p := RxStep(h0, i0, q0, n0, p.value, ioh, start, bl, bad);
      }
      LaidKept(ioh, h0, i0, q0, n0, ios, queued, nextIo, start, bl);
      RxEnd(h0, heads, start, bl, bad, p);
      RxIo(heads, ios, queued, nextIo, epoch, ioh);
      HaveArrived(h0, heads, start, bl, bad);
      assert (ios - {ioh})[ioh := ios[ioh]] == ios;
      ios := ios - {ioh};
    }
  }

  // ---- map_write ----

  /** A read or a write was cancelled. */
  ghost predicate Released(a: Option<Info>, b: Option<Info>) {
    a.Some? && b.Some?
    && ((a.value.state.Rx? && b == WithState(a, Missing)) || (a.value.state.Tx? && b == WithState(a, Dirty)))
  }

  /** Requests were cancelled within [lo, hi); nothing else changed. */
  ghost predicate Cut(heads: Heads, heads': Heads, lo: nat, hi: nat) {
    forall i: nat {:trigger At(heads', i)} ::
      At(heads', i) == At(heads, i) || (lo <= i < hi && Released(At(heads, i), At(heads', i)))
  }

  /** All heads but k are as they were; only those of `more` are new. */
  ghost predicate Others(heads: Heads, heads': Heads, k: nat, more: set<nat>) {
    && heads'.Keys == heads.Keys + more
    && forall j :: j in heads && j != k ==> heads'[j] == heads[j]
  }

  ghost predicate InState(heads: Heads, lo: nat, hi: nat, st: HeadState) {
    forall i: nat {:trigger At(heads, i)} :: lo <= i < hi ==> At(heads, i).Some? && At(heads, i).value.state == st
  }

  lemma HeadInState(heads: Heads, k: nat)
    requires Apart(heads) && k in heads
    ensures InState(heads, k, k + heads[k].length, heads[k].state)
  {
    hide At;
    forall i: nat | k <= i < k + heads[k].length
      ensures At(heads, i).Some? && At(heads, i).value.state == heads[k].state
    {
      assert Holds(heads, k, i);
      AtIs(heads, k, i);
    }
  }

  ghost predicate Cancelled(h: BufferHead, h': BufferHead) {
    (h.state.Rx? && h'.state.Missing?) || (h.state.Tx? && h'.state.Dirty? && |h'.data| == h'.length)
  }

  lemma SplitFacts(heads: Heads, k: nat, after: nat)
    requires k in heads && k < after < k + heads[k].length && after !in heads
    ensures var r := SplitAt(heads, k, after);
            && Others(heads, r, k, {after})
            && r[k].length == after - k && r[after].length == k + heads[k].length - after
            && r[k].state == heads[k].state && r[after].state == heads[k].state
            && (|heads[k].data| == heads[k].length ==> |r[k].data| == r[k].length && |r[after].data| == r[after].length)
  {
  }

  lemma JustSplit(h0: Heads, h1: Heads, lo: nat, hi: nat)
    requires SameView(h0, h1)
    ensures Cut(h0, h1, lo, hi)
  {
    hide At;
  }

  /** The part of a head that was split off names no request. */
  lemma RightIsFree(h1: Heads, k: nat, cur: nat, heads: Heads, ios: Requests, queued: set<nat>, next: nat, epoch: nat)
    requires k in h1 && k < cur < k + h1[k].length
    requires Others(SplitAt(h1, k, cur), heads, k, {})
    requires IoOk(heads, ios, queued, next, epoch)
    ensures cur in heads && !Cancellable(heads[cur], queued, epoch) && !Unread(heads[cur], queued)
    ensures Recalled(heads[cur], true, epoch) * queued == {}
  {
    hide HeadOk;
    assert heads[cur] == RightPart(h1[k], cur - k);
    assert 0 !in queued;
  }

  lemma SplitTwice(h0: Heads, h1: Heads, h2: Heads, lo: nat, hi: nat)
    requires SameView(h0, h1) && SameView(h1, h2)
    ensures Cut(h0, h2, lo, hi)
  {
    hide At;
  }

  lemma OthersTwice(h0: Heads, h1: Heads, h2: Heads, k: nat, cur: nat, e: nat)
    requires k in h0 && cur !in h0 && e !in h1 && Others(h0, h1, k, {cur}) && Others(h1, h2, cur, {e})
    ensures Others(h0, h2, k, {cur, e}) && h2[k] == h1[k]
  {
  }

  lemma InStatePart(heads: Heads, lo: nat, a: nat, hi: nat, st: HeadState)
    requires InState(heads, lo, hi, st) && lo <= a
    ensures InState(heads, a, hi, st)
  {
    hide At;
  }

  /** The request of [lo, hi) is cancelled, and repeated for [lo, cur). */
  lemma Restored(h0: Heads, h1: Heads, h2: Heads, h3: Heads, lo: nat, hi: nat, cur: nat, on: HeadState, off: HeadState)
    requires InState(h0, lo, hi, on) && Undoes(on, off)
    requires StateSet(h0, h1, lo, hi, off) && SameView(h1, h2) && StateSet(h2, h3, lo, cur, on)
    requires lo < cur < hi
    ensures StateSet(h0, h3, cur, hi, off)
  {
    hide At;
    forall i: nat ensures At(h3, i) == if cur <= i < hi then WithState(At(h0, i), off) else At(h0, i) {
      assert At(h2, i) == At(h1, i);
      assert At(h1, i) == if lo <= i < hi then WithState(At(h0, i), off) else At(h0, i);
    }
  }

  lemma JustCancelled(h0: Heads, h1: Heads, k: nat, lo: nat, hi: nat, on: HeadState, off: HeadState)
    requires InState(h0, k, hi, on) && Undoes(on, off) && StateSet(h0, h1, lo, hi, off) && k <= lo
    ensures Cut(h0, h1, lo, hi)
  {
    hide At;
  }

  /** The heads that end at or before cur are as they were. */
  ghost predicate SameBelow(heads: Heads, heads': Heads, cur: nat) {
    forall k :: k in heads && k + heads[k].length <= cur ==> k in heads' && heads'[k] == heads[k]
  }

  lemma SameBefore(h0: Heads, h1: Heads, k: nat, cur: nat, more: set<nat>)
    requires k in h0 && cur < k + h0[k].length
    requires Others(h0, h1, k, more)
    ensures SameBelow(h0, h1, cur)
  {
  }

  lemma CutNothing(heads: Heads, lo: nat, hi: nat)
    ensures Cut(heads, heads, lo, hi)
  {
  }

  lemma CutAgain(h0: Heads, h1: Heads, h2: Heads, lo: nat, hi: nat)
    requires Cut(h0, h1, lo, hi) && InState(h1, lo, hi, Tx) && StateSet(h1, h2, lo, hi, Dirty)
    ensures Cut(h0, h2, lo, hi)
  {
    hide At;
    forall i: nat ensures At(h2, i) == At(h0, i) || (lo <= i < hi && Released(At(h0, i), At(h2, i))) {
      assert At(h1, i) == At(h0, i) || (lo <= i < hi && Released(At(h0, i), At(h1, i)));
    }
  }

  ghost predicate Undoes(on: HeadState, off: HeadState) {
    (on == Rx && off == Missing) || (on == Tx && off == Dirty)
  }

  /** Cancelling the request of [lo, hi), and repeating it for the end [a, hi). */
  lemma Redone(h0: Heads, h1: Heads, h2: Heads, h3: Heads, lo: nat, hi: nat, a: nat, b: nat, on: HeadState, off: HeadState)
    requires InState(h0, lo, hi, on) && Undoes(on, off)
    requires StateSet(h0, h1, lo, hi, off) && SameView(h1, h2) && StateSet(h2, h3, a, b, on)
    requires lo < a < b == hi
    ensures Cut(h0, h3, lo, a)
  {
    hide At;
    forall i: nat ensures At(h3, i) == At(h0, i) || (lo <= i < a && Released(At(h0, i), At(h3, i))) {
      assert At(h2, i) == At(h1, i);
      assert At(h1, i) == if lo <= i < hi then WithState(At(h0, i), off) else At(h0, i);
    }
  }

  /** The heads begin one where the other ends, from start to end. */
  ghost predicate Tiling(heads: Heads, hits: seq<nat>, start: nat, end: nat) {
    if hits == [] then start == end
    else
      var n := |hits| - 1;
      hits[n] in heads && heads[hits[n]].length > 0 && hits[n] + heads[hits[n]].length == end
      && start <= hits[n] && Tiling(heads, hits[..n], start, hits[n])
  }

  /** A block of the range was cached, and holds what it held, or is new. */
  ghost predicate Mapped(a: Option<Info>, b: Option<Info>, c: Cells, i: nat) {
    if a == None then
      exists st: HeadState ::
        && b == Some(Info(st, 0, 0, None, map[])) && (st.Missing? || st.Clean?)
        && (i < |c| ==> (st.Clean? <==> !c[i].Real?))
    else b == a || Released(a, b)
  }

  ghost predicate MappedTo(heads: Heads, heads': Heads, c: Cells, lo: nat, hi: nat) {
    forall i: nat {:trigger At(heads', i)} ::
      if lo <= i < hi then Mapped(At(heads, i), At(heads', i), c, i) else At(heads', i) == At(heads, i)
  }

  /** As far as the object reaches, the blocks from a to b lie in a row on the disk, or are holes. */
  ghost predicate OneExtent(c: Cells, a: nat, b: nat) {
    forall i :: a <= i < b && i < |c| ==> if c[a].Real? then c[i].Real? && c[i].disk == c[a].disk + (i - a) else !c[i].Real?
  }

  lemma OneExtentPart(c: Cells, a: nat, b: nat, e: nat)
    requires OneExtent(c, a, b) && e <= b
    ensures OneExtent(c, a, e)
  {
  }

  ghost predicate Fit(heads: Heads, queued: set<nat>, epoch: nat, c: Cells, k: nat) {
    k in heads && !Cancellable(heads[k], queued, epoch) && OneExtent(c, k, k + heads[k].length)
  }

  ghost predicate AllFit(heads: Heads, queued: set<nat>, epoch: nat, c: Cells, hits: seq<nat>) {
    forall j :: 0 <= j < |hits| ==> Fit(heads, queued, epoch, c, hits[j])
  }

  /** Only requests from number n on have joined the queue. */
  ghost predicate OnlyNew(was: set<nat>, now: set<nat>, n: nat) {
    forall id :: id in now ==> id in was || id >= n
  }

  ghost predicate TagsUnder(heads: Heads, n: nat) {
    forall k :: k in heads ==> heads[k].tx < n
  }

  lemma TagsOld(heads: Heads, ios: Requests, queued: set<nat>, n: nat, epoch: nat)
    requires IoOk(heads, ios, queued, n, epoch)
    ensures TagsUnder(heads, n)
  {
  }

  lemma {:induction false} TilingEnds(heads: Heads, hits: seq<nat>, start: nat, cur: nat, j: nat)
    requires Tiling(heads, hits, start, cur) && j < |hits|
    ensures hits[j] in heads && hits[j] + heads[hits[j]].length <= cur
    decreases |hits|
  {
    var n := |hits| - 1;
    if j < n {
      TilingEnds(heads, hits[..n], start, hits[n], j);
    }
  }

  lemma FitLater(h1: Heads, h2: Heads, q1: set<nat>, q2: set<nat>, n: nat, epoch: nat, c: Cells, hits: seq<nat>,
                 start: nat, cur: nat)
    requires Tiling(h1, hits, start, cur) && SameBelow(h1, h2, cur) && AllFit(h1, q1, epoch, c, hits)
    requires TagsUnder(h1, n) && OnlyNew(q1, q2, n)
    ensures AllFit(h2, q2, epoch, c, hits)
  {
    hide OneExtent;
    hide Tiling;
    forall j | 0 <= j < |hits| ensures Fit(h2, q2, epoch, c, hits[j]) {
      TilingEnds(h1, hits, start, cur, j);
      assert Fit(h1, q1, epoch, c, hits[j]);
      assert h2[hits[j]] == h1[hits[j]];
    }
  }

  lemma FitNothing(heads: Heads, queued: set<nat>, epoch: nat, c: Cells)
    ensures AllFit(heads, queued, epoch, c, [])
  {
  }

  lemma FitMore(heads: Heads, queued: set<nat>, epoch: nat, c: Cells, hits: seq<nat>, cur: nat)
    requires AllFit(heads, queued, epoch, c, hits) && Fit(heads, queued, epoch, c, cur)
    ensures AllFit(heads, queued, epoch, c, hits + [cur])
  {
    hide Fit;
  }

  ghost predicate Progress(h0: Heads, heads: Heads, c: Cells, hits: seq<nat>, start: nat, cur: nat, p: Option<nat>) {
    start <= cur && IsFirst(heads, cur, p) && Tiling(heads, hits, start, cur) && MappedTo(h0, heads, c, start, cur)
  }

  // ---- where the heads of map_write end ----

  /** A boundary that was there before, the beginning of an extent, or the end of the range. */
  ghost predicate Edge(h0: Heads, m: ExtentMaps.ExtentMap, end: nat, b: nat) {
    b == end || b in m || b in h0 || EndsIn(h0, b)
  }

  ghost predicate EndsIn(heads: Heads, b: nat) {
    exists k: nat :: k in heads && k + heads[k].length == b
  }

  /** From cur on, heads begin and end at edges only. */
  ghost predicate EdgesOk(h0: Heads, heads: Heads, m: ExtentMaps.ExtentMap, end: nat, cur: nat) {
    forall k: nat :: k in heads ==>
      && (k > cur ==> Edge(h0, m, end, k))
      && (k + heads[k].length > cur ==> Edge(h0, m, end, k + heads[k].length))
  }

  /** Each head but the first begins, and so the one before it ends, at an edge: no head is shorter
      than it must be. */
  ghost predicate Maximal(h0: Heads, m: ExtentMaps.ExtentMap, end: nat, hits: seq<nat>) {
    forall j :: 0 < j < |hits| ==> Edge(h0, m, end, hits[j])
  }

  /** Only cur and e are new as beginnings and ends. */
  ghost predicate SameEdges(heads: Heads, heads': Heads, cur: nat, e: nat) {
    forall k: nat :: k in heads' ==>
      && (k in heads || k == cur || k == e)
      && (EndsIn(heads, k + heads'[k].length) || k + heads'[k].length == cur || k + heads'[k].length == e)
  }

  lemma EdgesStart(heads: Heads, m: ExtentMaps.ExtentMap, end: nat, cur: nat)
    ensures EdgesOk(heads, heads, m, end, cur) && Maximal(heads, m, end, [])
  {
  }

  lemma EdgeAt(h0: Heads, m: ExtentMaps.ExtentMap, end: nat, b: nat)
    requires b == end || b in m
    ensures Edge(h0, m, end, b)
  {
  }

  lemma MaximalMore(h0: Heads, m: ExtentMaps.ExtentMap, end: nat, hits: seq<nat>, cur: nat)
    requires Maximal(h0, m, end, hits) && (hits != [] ==> Edge(h0, m, end, cur))
    ensures Maximal(h0, m, end, hits + [cur])
  {
    hide Edge;
  }

  lemma EdgeOfHead(h0: Heads, heads: Heads, m: ExtentMaps.ExtentMap, end: nat, cur: nat, p: Option<nat>)
    requires EdgesOk(h0, heads, m, end, cur) && IsFirst(heads, cur, p) && p.Some? && p.value > cur
    ensures Edge(h0, m, end, p.value)
  {
    hide Edge;
  }

  lemma EdgesNew(h0: Heads, heads: Heads, m: ExtentMaps.ExtentMap, end: nat, cur: nat, h: BufferHead)
    requires EdgesOk(h0, heads, m, end, cur) && Edge(h0, m, end, cur + h.length)
    ensures EdgesOk(h0, heads[cur := h], m, end, cur + h.length)
  {
    hide Edge;
  }

  lemma EdgesMore(h0: Heads, h1: Heads, h2: Heads, m: ExtentMaps.ExtentMap, end: nat, cur: nat, max: nat, k: nat, e: nat)
    requires EdgesOk(h0, h1, m, end, cur) && Edge(h0, m, end, cur + max)
    requires k in h1 && cur < k + h1[k].length && e > cur && SameEdges(h1, h2, cur, e)
    requires e == if cur + max < k + h1[k].length then cur + max else k + h1[k].length
    ensures EdgesOk(h0, h2, m, end, e) && Edge(h0, m, end, e)
  {
    hide Edge;
  }

  lemma EdgesRight(h0: Heads, h1: Heads, k: nat, cur: nat)
    requires k in h0 && Others(h0, h1, k, {cur})
    requires k < cur && cur !in h0
    requires h1[k].length == cur - k && cur + h1[cur].length == k + h0[k].length
    ensures SameEdges(h0, h1, cur, k + h0[k].length)
  {
    EndsStay(h0);
    hide EndsIn;
  }

  lemma EndsStay(heads: Heads)
    ensures forall k: nat :: k in heads ==> EndsIn(heads, k + heads[k].length)
  {
  }

  lemma EdgesMiddle(h0: Heads, h1: Heads, k: nat, cur: nat, e: nat)
    requires k in h0 && Others(h0, h1, k, {cur, e})
    requires k < cur < e && cur !in h0 && e !in h0
    requires h1[k].length == cur - k && h1[cur].length == e - cur && e + h1[e].length == k + h0[k].length
    ensures SameEdges(h0, h1, cur, e)
  {
    EndsStay(h0);
    hide EndsIn;
  }

  lemma EdgesLeft(h0: Heads, h1: Heads, k: nat, e: nat)
    requires k in h0 && Others(h0, h1, k, {e})
    requires k < e && e !in h0
    requires h1[k].length == e - k && e + h1[e].length == k + h0[k].length
    ensures SameEdges(h0, h1, k, e)
  {
    EndsStay(h0);
    hide EndsIn;
  }

  lemma EdgesStay(heads: Heads, cur: nat, e: nat)
    ensures SameEdges(heads, heads, cur, e)
  {
    EndsStay(heads);
    hide EndsIn;
  }

  lemma EdgesTag(h0: Heads, h1: Heads, h2: Heads, cur: nat, e: nat)
    requires SameEdges(h0, h1, cur, e) && cur in h1 && h2 == h1[cur := h1[cur].(state := Dirty, tx := 0)]
    ensures SameEdges(h0, h2, cur, e)
  {
    hide EndsIn;
  }

  lemma MapNothing(heads: Heads, c: Cells, start: nat)
    ensures Tiling(heads, [], start, start) && MappedTo(heads, heads, c, start, start)
  {
  }

  ghost predicate AllCached(heads: Heads, lo: nat, hi: nat) {
    forall i: nat {:trigger At(heads, i)} :: lo <= i < hi ==> At(heads, i).Some?
  }

  lemma HeadCached(heads: Heads, k: nat)
    requires Apart(heads) && k in heads
    ensures AllCached(heads, k, k + heads[k].length)
  {
    HeadInState(heads, k);
  }

  lemma MapMore(h0: Heads, h1: Heads, h2: Heads, c: Cells, start: nat, cur: nat, e: nat, k: nat)
    requires MappedTo(h0, h1, c, start, cur) && Cut(h1, h2, cur, e) && start <= cur <= e
    requires k in h1 && k <= cur && AllCached(h1, k, k + h1[k].length) && e <= k + h1[k].length
    ensures MappedTo(h0, h2, c, start, e)
  {
    hide At;
    forall i: nat
      ensures if start <= i < e then Mapped(At(h0, i), At(h2, i), c, i) else At(h2, i) == At(h0, i)
    {
      assert At(h2, i) == At(h1, i) || (cur <= i < e && Released(At(h1, i), At(h2, i)));
      assert cur <= i < e ==> At(h1, i) == At(h0, i) && At(h1, i).Some?;
    }
  }

  lemma MapNew(h0: Heads, h1: Heads, h2: Heads, c: Cells, start: nat, cur: nat, e: nat, st: HeadState)
    requires MappedTo(h0, h1, c, start, cur) && start <= cur <= e && (st.Missing? || st.Clean?)
    requires OneExtent(c, cur, e) && (st.Clean? <==> cur < |c| && !c[cur].Real?)
    requires forall i: nat :: cur <= i < e ==> At(h1, i) == None
    requires forall i: nat {:trigger At(h2, i)} ::
               At(h2, i) == if cur <= i < e then Some(Info(st, 0, 0, None, map[])) else At(h1, i)
    ensures MappedTo(h0, h2, c, start, e)
  {
    hide At;
    forall i: nat
      ensures if start <= i < e then Mapped(At(h0, i), At(h2, i), c, i) else At(h2, i) == At(h0, i)
    {
      assert cur <= i < e ==> At(h1, i) == None && At(h1, i) == At(h0, i);
      assert cur <= i < e && i < |c| ==> (c[i].Real? <==> c[cur].Real?);
    }
  }

  lemma {:induction false} TilingSame(h1: Heads, h2: Heads, hits: seq<nat>, start: nat, cur: nat)
    requires Tiling(h1, hits, start, cur) && SameBelow(h1, h2, cur)
    ensures Tiling(h2, hits, start, cur)
    decreases |hits|
  {
    if hits != [] {
      var n := |hits| - 1;
      TilingSame(h1, h2, hits[..n], start, hits[n]);
    }
  }

  lemma TilingMore(h1: Heads, h2: Heads, hits: seq<nat>, start: nat, cur: nat)
    requires Tiling(h1, hits, start, cur) && SameBelow(h1, h2, cur) && start <= cur
    requires cur in h2 && h2[cur].length > 0
    ensures Tiling(h2, hits + [cur], start, cur + h2[cur].length)
  {
    TilingSame(h1, h2, hits, start, cur);
    assert (hits + [cur])[..|hits|] == hits;
  }

  lemma SameBelowNew(heads: Heads, cur: nat, h: BufferHead)
    requires cur !in heads
    ensures SameBelow(heads, heads[cur := h], cur)
  {
  }

  lemma FirstAfter(heads: Heads, cur: nat, next: Option<nat>)
    requires Apart(heads) && AllGood(heads) && cur in heads && next == KeyAtOrAfter(heads.Keys, cur + 1)
    ensures IsFirst(heads, cur + heads[cur].length, next)
  {
    hide GoodHead;
    if next.Some? {
      assert next.value in heads && GoodHead(heads[next.value]);
      PositiveHead(heads[next.value]);
    }
    forall j | j in heads && (next.Some? ==> j < next.value) ensures j + heads[j].length <= cur + heads[cur].length {
      assert j <= cur;
    }
  }

  lemma FirstStays(heads: Heads, cur: nat, p: Option<nat>, h: BufferHead)
    requires IsFirst(heads, cur, p) && AllGood(heads) && cur !in heads && (p.Some? ==> cur + h.length <= p.value)
    ensures IsFirst(heads[cur := h], cur + h.length, p)
  {
    hide GoodHead;
    if p.Some? {
      assert GoodHead(heads[p.value]);
      PositiveHead(heads[p.value]);
    }
  }

  lemma PositiveHead(h: BufferHead)
    requires GoodHead(h)
    ensures h.length > 0
  {
  }

  lemma NoneAhead(heads: Heads, cur: nat, p: Option<nat>, n: nat)
    requires IsFirst(heads, cur, p) && (p.Some? ==> cur + n <= p.value)
    ensures forall i: nat :: cur <= i < cur + n ==> At(heads, i) == None
    ensures forall j :: j in heads ==> j + heads[j].length <= cur || cur + n <= j
  {
    forall i: nat | cur <= i < cur + n ensures At(heads, i) == None {
      NobodyAt(heads, i);
    }
  }

  /** The first extent of a look-up tells whether the block is a hole, and how far it goes on so. */
  lemma {:induction false} FirstPlace(c: Cells, cur: nat, left: nat, exv: seq<Extent>)
    requires left > 0
    requires var a := if cur < |c| then cur else |c|;
             var b := if cur + left < |c| then cur + left else |c|;
             Onodes.Places(exv) == Onodes.PlacesOf(c[a..b])
    requires forall e :: e in exv ==> 0 < e.length <= left
    ensures (|exv| > 0 && exv[0].start == 0) <==> (cur < |c| && !c[cur].Real?)
    ensures OneExtent(c, cur, cur + if |exv| > 1 then exv[0].length else left)
  {
    PlacesStart(exv);
    if cur < |c| {
      hide Onodes.Places;
      var b := if cur + left < |c| then cur + left else |c|;
      assert |Onodes.Places(exv)| == b - cur;
      PlaceAt(c, cur, b, 0);
      var max := if |exv| > 1 then exv[0].length else left;
      forall i | cur <= i < cur + max && i < |c|
        ensures if c[cur].Real? then c[i].Real? && c[i].disk == c[cur].disk + (i - cur) else !c[i].Real?
      {
        assert i < b && i - cur < exv[0].length;
        PlaceAt(c, cur, b, i - cur);
        assert Onodes.Places(exv)[i - cur] == if exv[0].start == 0 then None else Some(exv[0].start + (i - cur));
      }
    }
  }

  lemma {:induction false} PlaceAt(c: Cells, cur: nat, b: nat, j: nat)
    requires cur <= b <= |c| && j < b - cur
    ensures Onodes.PlacesOf(c[cur..b])[j] == if c[cur + j].Real? then Some(c[cur + j].disk) else None
  {
  }

  lemma {:induction false} PlacesStart(exv: seq<Extent>)
    requires forall e :: e in exv ==> 0 < e.length
    ensures |Onodes.Places(exv)| > 0 <==> |exv| > 0
    ensures |exv| > 0 ==> |Onodes.Places(exv)| >= exv[0].length
    ensures |exv| == 1 ==> |Onodes.Places(exv)| == exv[0].length
    ensures |exv| > 0 ==> forall j :: 0 <= j < exv[0].length ==>
              Onodes.Places(exv)[j] == if exv[0].start == 0 then None else Some(exv[0].start + j)
    decreases |exv|
  {
    if |exv| > 0 {
      var n := |exv| - 1;
      assert exv[n] in exv;
      PlacesStart(exv[..n]);
      if n > 0 {
        assert exv[..n][0] == exv[0];
      }
    }
  }

  // ---- truncate ----

  /** What discarding a head takes back if it is still queued: its read, or its write if the
      blocks have not been committed. */
  ghost function Recalled(h: BufferHead, uncom: bool, epoch: nat): set<nat> {
    if h.state.Rx? then {h.rx} else if h.state.Tx? && uncom && h.epoch == epoch then {h.tx} else {}
  }

  predicate AllIn(k: nat, len: nat, uncom: set<nat>) {
    forall b :: k <= b < k + len ==> b in uncom
  }

  lemma OneRecalled(h: BufferHead, queued: set<nat>, epoch: nat)
    ensures h.state.Rx? ==> (Recalled(h, true, epoch) * queued != {} <==> h.rx in queued)
    ensures h.state.Tx? && h.epoch == epoch ==> (Recalled(h, true, epoch) * queued != {} <==> h.tx in queued)
    ensures !h.state.Rx? && !(h.state.Tx? && h.epoch == epoch) ==> Recalled(h, true, epoch) == {}
  {
    var r := Recalled(h, true, epoch);
    assert h.state.Rx? && h.rx in queued ==> h.rx in r * queued;
    assert h.state.Tx? && h.epoch == epoch && h.tx in queued ==> h.tx in r * queued;
  }

  ghost predicate SameButTags(h: BufferHead, h': BufferHead) {
    h' == h.(state := h'.state, tx := h'.tx, rx := h'.rx)
  }

  /** The request that a head is about to make. */
  ghost function RequestFor(h: BufferHead, k: nat): Request {
    if h.state.Missing? then ReadOf(k, h.length) else WriteOf(k, h.length, h.version, h.epoch, h.data)
  }

  /** The request of a head for its first n blocks. */
  ghost function Again(h: BufferHead, k: nat, n: nat): Request
    requires n <= h.length
  {
    if h.state.Rx? then ReadOf(k, n) else WriteOf(k, n, h.version, h.epoch, LeftPart(h, n).data)
  }

  /** The request of head h at k, if it is queued, is replaced by one for the first n blocks. */
  ghost predicate Retaken(h: BufferHead, k: nat, n: nat, ios: Requests, queued: set<nat>, next: nat,
                          ios': Requests, queued': set<nat>, next': nat, epoch: nat)
    requires n <= h.length
  {
    var r := Recalled(h, true, epoch);
    if r * queued == {} then ios' == ios && queued' == queued && next' == next
    else ios' == (ios - r)[next := Again(h, k, n)] && queued' == queued - r + {next} && next' == next + 1
  }

  lemma RetakenNow(h0: BufferHead, h1: BufferHead, h2: BufferHead, k: nat, n: nat,
                   i0: Requests, q0: set<nat>, n0: nat, ok: bool, i1: Requests, q1: set<nat>,
                   ios: Requests, queued: set<nat>, next: nat, epoch: nat)
    requires n <= h0.length == h1.length && h2 == LeftPart(h1, n)
    requires ok <==> Recalled(h0, true, epoch) * q0 != {}
    requires ok ==> Cancelled(h0, h1) && SameButTags(h0, h1)
    requires ok ==> i1 == i0 - Recalled(h0, true, epoch) && q1 == q0 - Recalled(h0, true, epoch)
    requires ok ==> ios == i1[n0 := RequestFor(h2, k)] && queued == q1 + {n0} && next == n0 + 1
    requires !ok ==> ios == i0 && queued == q0 && next == n0
    ensures Retaken(h0, k, n, i0, q0, n0, ios, queued, next, epoch) && OnlyNew(q0, queued, n0)
  {
    hide Recalled;
  }

  /** The request of a head that waits for the device. */
  ghost function WholeRequest(h: BufferHead, k: nat): Request {
    if h.state.Rx? then ReadOf(k, h.length) else WriteOf(k, h.length, h.version, h.epoch, h.data)
  }

  lemma OwnRequest(heads: Heads, k: nat, ios: Requests, queued: set<nat>, next: nat, epoch: nat) returns (id: nat)
    requires IoOk(heads, ios, queued, next, epoch) && AllGood(heads) && k in heads
    requires Recalled(heads[k], true, epoch) * queued != {}
    ensures Recalled(heads[k], true, epoch) == {id} && id in queued && id in ios && id < next
    ensures ios[id] == WholeRequest(heads[k], k) && Full(heads[k])
    ensures heads[k].state.Rx? || heads[k].state.Tx?
  {
    id :| id in Recalled(heads[k], true, epoch) * queued;
    assert HeadOk(k, heads[k], ios, queued, epoch);
    if heads[k].state.Tx? {
      var w: nat :| w in ios && Writes(ios[w], k, heads[k]);
    }
  }

  ghost predicate Full(h: BufferHead) {
    h.state.Tx? ==> |h.data| == h.length
  }

  lemma IosBelow(heads: Heads, ios: Requests, queued: set<nat>, next: nat, epoch: nat)
    requires IoOk(heads, ios, queued, next, epoch)
    ensures Below(ios, next)
  {
  }

  lemma AgainPart(h: BufferHead, k: nat, n: nat)
    requires Full(h) && (h.state.Rx? || h.state.Tx?) && n <= h.length
    ensures PartOf(Again(h, k, n), WholeRequest(h, k))
  {
    if h.state.Tx? {
      assert h.data[..n] == h.data[k - k..k - k + n];
    }
  }

  lemma RestPart(h: BufferHead, k: nat, d: nat, st: HeadState)
    requires Full(h) && d <= h.length && Undoes(h.state, st)
    ensures PartOf(RequestFor(RightPart(h, d).(state := st), k + d), WholeRequest(h, k))
  {
    if h.state.Tx? {
      assert h.data[d..] == h.data[k + d - k..k + d - k + (h.length - d)];
    }
  }

  lemma RightOfOld(h: BufferHead, h': BufferHead, n: nat)
    requires SameButTags(h, h') && n <= h.length
    ensures RightPart(h', n) == RightPart(h, n).(state := h'.state)
  {
  }

  lemma RightTwice(h: BufferHead, g: BufferHead, n: nat, m: nat)
    requires n + m <= h.length && g == RightPart(h, n).(state := g.state)
    ensures RightPart(g, m) == RightPart(h, n + m).(state := g.state)
  {
  }

  /** The request of a head is taken back. */
  lemma CancelMoves(heads: Heads, k: nat, i0: Requests, q0: set<nat>, n0: nat, ios: Requests, queued: set<nat>,
                    epoch: nat, lo: nat, hi: nat)
    requires IoOk(heads, i0, q0, n0, epoch) && AllGood(heads) && k in heads && k < hi && lo < k + heads[k].length
    requires if Recalled(heads[k], true, epoch) * q0 == {} then ios == i0 && queued == q0
             else ios == i0 - Recalled(heads[k], true, epoch) && queued == q0 - Recalled(heads[k], true, epoch)
    ensures Rearranged(i0, q0, n0, ios, queued, n0, lo, hi) && Below(i0, n0) && Below(ios, n0)
    ensures Recalled(heads[k], true, epoch) * q0 != {} ==> Recalled(heads[k], true, epoch) !! ios.Keys
  {
    IosBelow(heads, i0, q0, n0, epoch);
    if Recalled(heads[k], true, epoch) * q0 == {} {
      NotRearranged(i0, q0, n0, lo, hi);
    } else {
      var id := OwnRequest(heads, k, i0, q0, n0, epoch);
      hide *;
      assert Touches(i0[id], lo, hi) by { WholeTouches(heads[k], k, lo, hi); }
      TakenAway(id, i0, q0, n0, lo, hi);
      assert Below(ios, n0) by { StillBelow(i0, ios, n0); }
    }
  }

  lemma StillBelow(ios: Requests, ios': Requests, next: nat)
    requires Below(ios, next) && ios'.Keys <= ios.Keys
    ensures Below(ios', next)
  {
  }

  lemma WholeTouches(h: BufferHead, k: nat, lo: nat, hi: nat)
    requires k < hi && lo < k + h.length
    ensures Touches(WholeRequest(h, k), lo, hi)
  {
  }

  /** It is repeated for the part that begins at e. */
  lemma RestMoves(heads: Heads, k: nat, e: nat, st: HeadState, i0: Requests, q0: set<nat>, n0: nat,
                  i1: Requests, q1: set<nat>, n1: nat, ios: Requests, queued: set<nat>, next: nat, epoch: nat,
                  lo: nat, hi: nat)
    requires IoOk(heads, i0, q0, n0, epoch) && AllGood(heads) && k in heads && k <= e <= k + heads[k].length
    requires Recalled(heads[k], true, epoch) * q0 != {} && Recalled(heads[k], true, epoch) !! i1.Keys
    requires Undoes(heads[k].state, st)
    requires Rearranged(i0, q0, n0, i1, q1, n1, lo, hi) && Below(i0, n0) && Below(i1, n1)
    requires ios == i1[n1 := RequestFor(RightPart(heads[k], e - k).(state := st), e)]
    requires queued == q1 + {n1} && next == n1 + 1
    ensures Rearranged(i0, q0, n0, ios, queued, next, lo, hi)
  {
    var id := OwnRequest(heads, k, i0, q0, n0, epoch);
    RestPart(heads[k], k, e - k, st);
    hide PartOf;
    hide Rearranged;
    hide Recalled;
    hide IoOk;
    hide Below;
    assert id in Recalled(heads[k], true, epoch);
    PutBack(RequestFor(RightPart(heads[k], e - k).(state := st), e), id, i0, q0, n0, i1, q1, n1, lo, hi);
  }

  lemma RetakenMoves(heads: Heads, k: nat, n: nat, i0: Requests, q0: set<nat>, n0: nat, ios: Requests, queued: set<nat>,
                     next: nat, epoch: nat, hi: nat)
    requires IoOk(heads, i0, q0, n0, epoch) && AllGood(heads) && k in heads && n < heads[k].length && k + n < hi
    requires Retaken(heads[k], k, n, i0, q0, n0, ios, queued, next, epoch)
    ensures Rearranged(i0, q0, n0, ios, queued, next, k + n, hi) && Below(i0, n0) && Below(ios, next)
    ensures Recalled(heads[k], true, epoch) * q0 != {} ==> Recalled(heads[k], true, epoch) !! ios.Keys
  {
    var r := Recalled(heads[k], true, epoch);
    if r * q0 == {} {
      CancelMoves(heads, k, i0, q0, n0, i0, q0, epoch, k + n, hi);
    } else {
      var id := OwnRequest(heads, k, i0, q0, n0, epoch);
      AgainPart(heads[k], k, n);
      CancelMoves(heads, k, i0, q0, n0, i0 - r, q0 - r, epoch, k + n, hi);
      hide *;
      AgainMoves(Again(heads[k], k, n), id, r, i0, q0, n0, k + n, hi);
    }
  }

  lemma AgainMoves(a: Request, id: nat, r: set<nat>, i0: Requests, q0: set<nat>, n0: nat, lo: nat, hi: nat)
    requires Rearranged(i0, q0, n0, i0 - r, q0 - r, n0, lo, hi) && Below(i0, n0) && Below(i0 - r, n0)
    requires r == {id} && id in i0 && id < n0 && PartOf(a, i0[id])
    ensures Rearranged(i0, q0, n0, (i0 - r)[n0 := a], q0 - r + {n0}, n0 + 1, lo, hi)
    ensures Below((i0 - r)[n0 := a], n0 + 1) && r !! (i0 - r)[n0 := a].Keys
  {
    hide PartOf;
    hide Rearranged;
    PutBack(a, id, i0, q0, n0, i0 - r, q0 - r, n0, lo, hi);
  }

  /** What is left of a head is taken back as well. */
  lemma TakenAlso(h1: Heads, cur: nat, i0: Requests, q0: set<nat>, n0: nat, i1: Requests, q1: set<nat>, n1: nat, epoch: nat)
    requires IoOk(h1, i1, q1, n1, epoch) && AllGood(h1) && cur in h1 && Below(i0, n0)
    requires h1[cur].state.Tx? && h1[cur].epoch == epoch && h1[cur].tx in q1
    requires Rearranged(i0, q0, n0, i1, q1, n1, cur, cur + h1[cur].length)
    ensures Rearranged(i0, q0, n0, i1 - {h1[cur].tx}, q1 - {h1[cur].tx}, n1, cur, cur + h1[cur].length)
  {
    assert h1[cur].tx in Recalled(h1[cur], true, epoch) * q1;
    CancelMoves(h1, cur, i1, q1, n1, i1 - {h1[cur].tx}, q1 - {h1[cur].tx}, epoch, cur, cur + h1[cur].length);
    hide *;
    RearrangedTwice(i0, q0, n0, i1, q1, n1, i1 - {h1[cur].tx}, q1 - {h1[cur].tx}, n1, cur, cur + h1[cur].length);
  }

  lemma PieceIsNew(lo: nat, contents: seq<Bytes>, k: nat, e: nat, version: nat, epoch: nat)
    requires lo <= k <= e <= lo + |contents|
    ensures WritesNew(WriteOf(k, e - k, version, epoch, contents[k - lo..e - lo]), lo, contents, version, epoch)
  {
  }

  /** A head with nothing to take back can be discarded without any effect on the requests. */
  lemma NoneBack(h: BufferHead, u: bool, epoch: nat, ios: Requests, queued: set<nat>)
    requires Recalled(h, true, epoch) * queued == {}
    ensures ios - queued * Recalled(h, u, epoch) == ios && queued - Recalled(h, u, epoch) == queued
  {
    assert Recalled(h, u, epoch) <= Recalled(h, true, epoch);
    hide Recalled;
    forall id | id in queued ensures id !in Recalled(h, u, epoch) {
      assert id !in Recalled(h, true, epoch) * queued;
    }
    assert queued * Recalled(h, u, epoch) == {};
    assert queued - Recalled(h, u, epoch) == queued;
  }

  /** A queued request that a head may take back is its own. */
  lemma TagOwner(heads: Heads, k: nat, id: nat, ios: Requests, queued: set<nat>, next: nat, epoch: nat)
    requires IoOk(heads, ios, queued, next, epoch) && k in heads && id in queued && id in Recalled(heads[k], true, epoch)
    ensures id in ios && ios[id].start == k
  {
    assert HeadOk(k, heads[k], ios, queued, epoch);
  }

  /** The heads that are left are old ones; those that are gone began at or after `blocks`. */
  ghost predicate Left(h0: Heads, heads: Heads, blocks: nat) {
    && (forall k :: k in heads ==> k in h0 && heads[k] == h0[k])
    && (forall k :: k in h0 && k !in heads ==> k >= blocks)
  }

  /** What dropping head k may take back. */
  ghost function Back(h: BufferHead, k: nat, blocks: nat, uncom: set<nat>, epoch: nat): set<nat> {
    Recalled(h, k < blocks || AllIn(k, h.length, uncom), epoch)
  }

  /** The requests of all heads that reach past `blocks`, as far as they may be taken back. */
  ghost function Gone(heads: Heads, blocks: nat, uncom: set<nat>, epoch: nat): set<nat> {
    set k, id | k in heads && k + heads[k].length > blocks && id in Back(heads[k], k, blocks, uncom, epoch) :: id
  }

  /** truncate takes back what is queued of that, and no more; if the head that is cut had a request
      queued, the part that stays has it again. */
  ghost predicate Truncated(heads: Heads, blocks: nat, uncom: set<nat>, epoch: nat, ios: Requests, queued: set<nat>,
                            next: nat, ios': Requests, queued': set<nat>, next': nat) {
    var gone := Gone(heads, blocks, uncom, epoch);
    if k: nat :| k in heads && k < blocks < k + heads[k].length && Recalled(heads[k], true, epoch) * queued != {} then
      && ios' == (ios - queued * gone)[next := Again(heads[k], k, blocks - k)]
      && queued' == queued - gone + {next} && next' == next + 1
    else ios' == ios - queued * gone && queued' == queued - gone && next' == next
  }

  /** The same for the heads that are gone so far. */
  ghost predicate TakenBack(h0: Heads, heads: Heads, blocks: nat, uncom: set<nat>, epoch: nat, i0: Requests,
                            q0: set<nat>, ios: Requests, queued: set<nat>) {
    var gone := Gone(h0 - heads.Keys, blocks, uncom, epoch);
    ios == i0 - q0 * gone && queued == q0 - gone
  }

  lemma LeftAll(h0: Heads, blocks: nat, uncom: set<nat>, epoch: nat, i0: Requests, q0: set<nat>)
    ensures Left(h0, h0, blocks) && TakenBack(h0, h0, blocks, uncom, epoch, i0, q0, i0, q0)
  {
    assert h0 - h0.Keys == map[];
    assert Gone(map[], blocks, uncom, epoch) == {};
    assert i0 - {} == i0;
  }

  lemma SameSelf(h0: Heads, blocks: nat)
    ensures SameUpTo(h0, h0, blocks)
  {
  }

  lemma LeftHead(h0: Heads, heads: Heads, blocks: nat, k: nat)
    requires Left(h0, heads, blocks) && k in heads
    ensures k in h0 && heads[k] == h0[k]
  {
  }

  lemma GoneMore(h0: Heads, h1: Heads, k: nat, blocks: nat, uncom: set<nat>, epoch: nat)
    requires k in h1 && k in h0 && k >= blocks && h0[k].length > 0
    ensures Gone(h0 - (h1 - {k}).Keys, blocks, uncom, epoch)
            == Gone(h0 - h1.Keys, blocks, uncom, epoch) + Back(h0[k], k, blocks, uncom, epoch)
  {
    hide Back;
    var a, b := h0 - h1.Keys, h0 - (h1 - {k}).Keys;
    assert b.Keys == a.Keys + {k};
    assert forall j :: j in a ==> j in b && b[j] == a[j];
    assert b[k] == h0[k];
    forall id ensures id in Gone(b, blocks, uncom, epoch)
                      <==> id in Gone(a, blocks, uncom, epoch) || id in Back(h0[k], k, blocks, uncom, epoch) {
    }
  }

  lemma BackMore(h0: Heads, h1: Heads, h2: Heads, k: nat, blocks: nat, uncom: set<nat>, epoch: nat, i0: Requests,
                 q0: set<nat>, i1: Requests, q1: set<nat>, ios: Requests, queued: set<nat>)
    requires AllGood(h1) && Left(h0, h1, blocks) && k in h1 && k >= blocks && h2 == h1 - {k}
    requires TakenBack(h0, h1, blocks, uncom, epoch, i0, q0, i1, q1)
    requires var r := Recalled(h1[k], AllIn(k, h1[k].length, uncom), epoch);
             ios == i1 - q1 * r && queued == q1 - r
    ensures Left(h0, h2, blocks) && TakenBack(h0, h2, blocks, uncom, epoch, i0, q0, ios, queued)
  {
    assert GoodHead(h1[k]);
    hide GoodHead;
    hide Gone;
    hide Recalled;
    hide AllIn;
    GoneMore(h0, h1, k, blocks, uncom, epoch);
    var g, r := Gone(h0 - h1.Keys, blocks, uncom, epoch), Back(h0[k], k, blocks, uncom, epoch);
    LessTwice(i0, q0, g, r);
  }

  lemma LessTwice(ios: Requests, q: set<nat>, g: set<nat>, r: set<nat>)
    ensures ios - q * g - (q - g) * r == ios - q * (g + r) && q - g - r == q - (g + r)
  {
    assert q * g + (q - g) * r == q * (g + r);
  }

  /** Nothing is left to be dropped. */
  lemma AllBack(h0: Heads, heads: Heads, blocks: nat, uncom: set<nat>, epoch: nat, i0: Requests, q0: set<nat>, n0: nat,
                ios: Requests, queued: set<nat>)
    requires Apart(heads) && Left(h0, heads, blocks) && TakenBack(h0, heads, blocks, uncom, epoch, i0, q0, ios, queued)
    requires var last: Option<nat> := LastKey(heads); last.Some? ==> last.value + heads[last.value].length <= blocks
    ensures Truncated(h0, blocks, uncom, epoch, i0, q0, n0, ios, queued, n0)
  {
    EndsBefore(heads, blocks);
    assert forall k :: k in h0 && k < blocks ==> k in heads;
    SameGone(h0, heads, blocks, uncom, epoch);
    hide Gone;
    hide Recalled;
    assert forall k: nat :: k in h0 && k < blocks ==> k + h0[k].length <= blocks;
  }

  lemma EndsBefore(heads: Heads, blocks: nat)
    requires Apart(heads)
    requires var last: Option<nat> := LastKey(heads); last.Some? ==> last.value + heads[last.value].length <= blocks
    ensures forall k :: k in heads ==> k + heads[k].length <= blocks
  {
  }

  lemma SameGone(h0: Heads, heads: Heads, blocks: nat, uncom: set<nat>, epoch: nat)
    requires Left(h0, heads, blocks) && forall k :: k in heads ==> k + heads[k].length <= blocks
    ensures Gone(h0 - heads.Keys, blocks, uncom, epoch) == Gone(h0, blocks, uncom, epoch)
  {
    hide Back;
    var d := h0 - heads.Keys;
    forall id ensures id in Gone(h0, blocks, uncom, epoch) <==> id in Gone(d, blocks, uncom, epoch) {
      if j :| j in h0 && j + h0[j].length > blocks && id in Back(h0[j], j, blocks, uncom, epoch) {
        assert j in d && d[j] == h0[j];
      }
      if j :| j in d && j + d[j].length > blocks && id in Back(d[j], j, blocks, uncom, epoch) {
        assert j in h0 && h0[j] == d[j];
      }
    }
  }

  /** The last head is cut. */
  lemma CutBack(h0: Heads, h2: Heads, k: nat, blocks: nat, uncom: set<nat>, epoch: nat, i0: Requests, q0: set<nat>,
                n0: nat, i2: Requests, q2: set<nat>, ios: Requests, queued: set<nat>, next: nat)
    requires Apart(h0) && Apart(h2) && Left(h0, h2, blocks) && LastKey(h2) == Some(k)
    requires k in h2 && k < blocks < k + h2[k].length
    requires TakenBack(h0, h2, blocks, uncom, epoch, i0, q0, i2, q2) && IoOk(h0, i0, q0, n0, epoch)
    requires Retaken(h2[k], k, blocks - k, i2, q2, n0, ios, queued, next, epoch)
    ensures Truncated(h0, blocks, uncom, epoch, i0, q0, n0, ios, queued, next)
  {
    var g, r := Gone(h0 - h2.Keys, blocks, uncom, epoch), Recalled(h0[k], true, epoch);
    GoneCut(h0, h2, k, blocks, uncom, epoch);
    CutApart(h0, h2, k, blocks, uncom, epoch, i0, q0, n0);
    OnlyOneCut(h0, k, blocks);
    hide Gone;
    hide Recalled;
    hide IoOk;
    hide Left;
    hide Apart;
    CutSets(i0, q0, g, r);
  }

  lemma CutSets(ios: Requests, q: set<nat>, g: set<nat>, r: set<nat>)
    requires r * q * g == {}
    ensures r * q == {} <==> r * (q - g) == {}
    ensures r * q == {} ==> ios - q * (g + r) == ios - q * g && q - (g + r) == q - g
    ensures q - (g + r) == q - g - r
    ensures r <= q ==> ios - q * (g + r) == ios - q * g - r
  {
    forall x | x in q * (g + r) && r * q == {} ensures x in q * g {
      assert x !in r * q;
    }
    assert r * q == {} ==> q * (g + r) == q * g;
    forall x | x in q - g && r * q == {} ensures x in q - (g + r) {
      assert x !in r * q;
    }
    assert r <= q ==> q * (g + r) == q * g + r;
    forall x | x in r * q ensures x in r * (q - g) {
      assert x !in r * q * g;
    }
  }

  lemma OnlyOneCut(heads: Heads, k: nat, blocks: nat)
    requires Apart(heads) && k in heads && k < blocks < k + heads[k].length
    ensures forall j: nat :: j in heads && j < blocks < j + heads[j].length ==> j == k
  {
  }

  lemma GoneCut(h0: Heads, h2: Heads, k: nat, blocks: nat, uncom: set<nat>, epoch: nat)
    requires Apart(h0) && Apart(h2) && Left(h0, h2, blocks) && LastKey(h2) == Some(k)
    requires k in h2 && k < blocks < k + h2[k].length
    ensures k in h0 && h0[k] == h2[k]
    ensures Gone(h0, blocks, uncom, epoch)
            == Gone(h0 - h2.Keys, blocks, uncom, epoch) + Recalled(h0[k], true, epoch)
  {
    var d := h0 - h2.Keys;
    assert Back(h0[k], k, blocks, uncom, epoch) == Recalled(h0[k], true, epoch);
    hide Back;
    hide Recalled;
    assert forall j :: j in h2 && j != k ==> j + h2[j].length <= blocks;
    forall id ensures id in Gone(h0, blocks, uncom, epoch)
                      <==> id in Gone(d, blocks, uncom, epoch) || id in Back(h0[k], k, blocks, uncom, epoch) {
      if j :| j in h0 && j + h0[j].length > blocks && id in Back(h0[j], j, blocks, uncom, epoch) && j != k {
        assert j in d && d[j] == h0[j];
      }
      if j :| j in d && j + d[j].length > blocks && id in Back(d[j], j, blocks, uncom, epoch) {
        assert j in h0 && h0[j] == d[j];
      }
    }
  }

  /** The request of the head that is cut is not one of those that have been taken back, and it is
      queued or not as a whole. */
  lemma CutApart(h0: Heads, h2: Heads, k: nat, blocks: nat, uncom: set<nat>, epoch: nat, i0: Requests, q0: set<nat>,
                 n0: nat)
    requires IoOk(h0, i0, q0, n0, epoch) && k in h0 && k < blocks && k in h2
    ensures var g, r := Gone(h0 - h2.Keys, blocks, uncom, epoch), Recalled(h0[k], true, epoch);
            r * q0 * g == {} && (r * q0 != {} ==> r <= q0)
  {
    var d := h0 - h2.Keys;
    var g, r := Gone(d, blocks, uncom, epoch), Recalled(h0[k], true, epoch);
    forall id | id in r && id in q0 ensures id !in g {
      NotGone(h0, h2, k, blocks, uncom, epoch, i0, q0, n0, id);
    }
  }

  lemma NotGone(h0: Heads, h2: Heads, k: nat, blocks: nat, uncom: set<nat>, epoch: nat, i0: Requests, q0: set<nat>,
                n0: nat, id: nat)
    requires IoOk(h0, i0, q0, n0, epoch) && k in h0 && k in h2 && id in q0 && id in Recalled(h0[k], true, epoch)
    ensures id !in Gone(h0 - h2.Keys, blocks, uncom, epoch)
  {
    TagOwner(h0, k, id, i0, q0, n0, epoch);
    var d := h0 - h2.Keys;
    forall j | j in d && id in Back(d[j], j, blocks, uncom, epoch) ensures j == k {
      TagOwner(h0, j, id, i0, q0, n0, epoch);
    }
  }

  lemma LastStays(h2: Heads, h3: Heads, k: nat, blocks: nat)
    requires LastKey(h2) == Some(k) && k in h2 && k < blocks
    requires h3.Keys == h2.Keys && h3[k].length == blocks - k
    ensures var last: Option<nat> := LastKey(h3);
            last == Some(k) && last.value + h3[last.value].length <= blocks
  {
  }

  ghost function Beyond(heads: Heads, blocks: nat): set<nat> {
    set k | k in heads && k + heads[k].length > blocks
  }

  ghost predicate SameUpTo(heads: Heads, heads': Heads, blocks: nat) {
    forall i: nat {:trigger At(heads', i)} :: i < blocks ==> At(heads', i) == At(heads, i)
  }

  lemma FewerBeyond(a: set<nat>, b: set<nat>, k: nat)
    requires k in a && k !in b && b <= a
    ensures |b| < |a|
  {
    assert a == b + (a - b);
    assert k in a - b;
  }

  lemma CutOffHead(h0: Heads, h1: Heads, h2: Heads, k: nat, blocks: nat)
    requires SameUpTo(h0, h1, blocks) && k in h1 && h2 == h1 - {k} && blocks <= k
    requires forall i: nat {:trigger At(h2, i)} :: At(h2, i) == if k <= i < k + h1[k].length then None else At(h1, i)
    requires k + h1[k].length > blocks
    ensures SameUpTo(h0, h2, blocks) && |Beyond(h2, blocks)| < |Beyond(h1, blocks)|
  {
    hide At;
    FewerBeyond(Beyond(h1, blocks), Beyond(h2, blocks), k);
  }

  lemma CutOffEnd(h0: Heads, h1: Heads, h3: Heads, k: nat, blocks: nat)
    requires SameUpTo(h0, h1, blocks) && k in h1 && k < blocks < k + h1[k].length && blocks !in h1
    requires h3.Keys == h1.Keys && h3[k].length == blocks - k && (forall j :: j in h1 && j != k ==> h3[j] == h1[j])
    requires forall i: nat {:trigger At(h3, i)} :: i < blocks ==> At(h3, i) == At(h1, i)
    ensures SameUpTo(h0, h3, blocks) && |Beyond(h3, blocks)| < |Beyond(h1, blocks)|
  {
    hide At;
    FewerBeyond(Beyond(h1, blocks), Beyond(h3, blocks), k);
  }

  lemma NothingBeyond(h0: Heads, heads: Heads, blocks: nat)
    requires Apart(heads) && SameUpTo(h0, heads, blocks)
    requires var last: Option<nat> := LastKey(heads); last.Some? ==> last.value + heads[last.value].length <= blocks
    ensures forall i: nat {:trigger At(heads, i)} :: At(heads, i) == if i < blocks then At(h0, i) else None
  {
    forall i: nat | i >= blocks ensures At(heads, i) == None {
      NobodyAt(heads, i);
    }
  }

  // ---- merging ----

  /** Only clean heads changed. */
  ghost predicate SameButClean(heads: Heads, heads': Heads) {
    && (forall k :: k in heads && !heads[k].state.Clean? ==> k in heads' && heads'[k] == heads[k])
    && (forall k :: k in heads' && !heads'[k].state.Clean? ==> k in heads && heads'[k] == heads[k])
  }

  lemma SimilarSame(heads: Heads)
    ensures SimilarView(heads, heads) && SameButClean(heads, heads)
  {
  }

  lemma ViewSame(heads: Heads)
    ensures SameView(heads, heads)
  {
  }

  lemma IoMerge(heads: Heads, k: nat, r: nat, ios: Requests, queued: set<nat>, next: nat, epoch: nat)
    requires IoOk(heads, ios, queued, next, epoch) && Mergeable(heads, k, r)
    ensures IoOk(MergeAt(heads, k, r), ios, queued, next, epoch)
  {
  }

  lemma MergeSummed(s: Stats, l: int, g: int)
    requires Summed(s)
    ensures Summed(Minus(Plus(Minus(s, Clean, l), Clean, l + g), Clean, g))
  {
  }

  // ---- tx_finish ----

  lemma Untagged(heads: Heads, k: nat, ios: Requests, queued: set<nat>, next: nat, epoch: nat)
    requires IoOk(heads, ios, queued, next, epoch) && k in heads
    ensures IoOk(heads[k := heads[k].(tx := 0)], ios, queued, next, epoch)
  {
    var h := heads[k].(tx := 0);
    assert HeadOk(k, heads[k], ios, queued, epoch);
    assert h.rx < next;
    UntaggedHead(k, heads[k], ios, queued, epoch);
    IoPut(heads, k, h, ios, queued, next, epoch);
  }

  lemma UntaggedHead(k: nat, h: BufferHead, ios: Requests, queued: set<nat>, epoch: nat)
    requires HeadOk(k, h, ios, queued, epoch) && 0 !in queued
    ensures HeadOk(k, h.(tx := 0), ios, queued, epoch)
  {
    var g := h.(tx := 0);
    if h.state.Tx? {
      var id: nat :| id in ios && Writes(ios[id], k, h);
      assert Writes(ios[id], k, g);
    }
    if h.state.Rx? {
      var id: nat :| id in ios && Reads(ios[id], k, h);
      assert Reads(ios[id], k, g);
    }
  }

  lemma Cleaned(heads: Heads, k: nat, version: nat, ios: Requests, queued: set<nat>, next: nat, epoch: nat)
    requires IoOk(heads, ios, queued, next, epoch) && k in heads
    ensures IoOk(heads[k := heads[k].(flushed := version)][k := heads[k].(flushed := version, state := Clean)], ios, queued, next, epoch)
  {
    var h := heads[k].(flushed := version, state := Clean);
    assert HeadOk(k, h, ios, queued, epoch) && h.tx < next && h.rx < next;
    assert heads[k := heads[k].(flushed := version)][k := h] == heads[k := h];
    IoPut(heads, k, h, ios, queued, next, epoch);
  }

  /** The head of block i begins in the range of the write. */
  ghost predicate Started(heads: Heads, start: nat, length: nat, i: nat) {
    exists k: nat :: Holds(heads, k, i) && start <= k < start + length
  }

  ghost function TxDone(heads: Heads, start: nat, length: nat, version: nat, i: nat): Option<Info> {
    var a := At(heads, i);
    if Started(heads, start, length, i) && a.Some? && a.value.state.Tx? && a.value.version == version
    then WithState(a, Clean) else a
  }

  /** Up to head p, the blocks are clean that should be; from p on nothing has changed. */
  ghost predicate TxView(h0: Heads, heads: Heads, start: nat, length: nat, version: nat, p: Option<nat>) {
    forall i: nat {:trigger At(heads, i)} ::
      if p.Some? && p.value <= i then At(heads, i) == At(h0, i)
      else Similar(At(heads, i), TxDone(h0, start, length, version, i))
  }

  ghost predicate NoTx(heads: Heads, start: nat, length: nat, version: nat, p: Option<nat>) {
    forall k :: k in heads && start <= k < start + length && (p.Some? ==> k < p.value) ==>
      !(heads[k].state.Tx? && heads[k].version == version)
  }

  ghost predicate SameAfter(heads: Heads, heads': Heads, k: nat) {
    forall j: nat :: j >= k ==> (j in heads <==> j in heads') && (j in heads ==> j in heads' && heads'[j] == heads[j])
  }

  ghost predicate ViewFrom(heads: Heads, heads': Heads, lo: nat) {
    forall i: nat {:trigger At(heads', i)} :: i >= lo ==> At(heads', i) == At(heads, i)
  }

  ghost predicate TxProgress(h0: Heads, heads: Heads, start: nat, length: nat, version: nat, p: Option<nat>) {
    && (p.Some? ==> p.value in heads && p.value >= start && SameAfter(h0, heads, p.value))
    && Apart(h0)
    && NoTx(heads, start, length, version, p) && TxView(h0, heads, start, length, version, p)
  }

  lemma SameHere(h0: Heads, h1: Heads, k: nat)
    requires SameAfter(h0, h1, k) && k in h1
    ensures k in h0 && h0[k] == h1[k]
  {
  }

  lemma HeadPositive(heads: Heads, k: nat)
    requires AllGood(heads) && k in heads
    ensures heads[k].length > 0
  {
    assert GoodHead(heads[k]);
  }

  lemma NotMerged(heads: Heads, k: nat)
    ensures SimilarView(heads, heads) && SameButClean(heads, heads) && SameAfter(heads, heads, k + 1)
    ensures forall lo: nat :: ViewFrom(heads, heads, lo)
  {
  }

  lemma TxBegin(heads: Heads, start: nat, length: nat, version: nat, p: Option<nat>)
    requires Apart(heads) && p == KeyAtOrAfter(heads.Keys, start)
    ensures TxProgress(heads, heads, start, length, version, p)
  {
    hide At;
    forall i: nat | p.None? || i < p.value ensures !Started(heads, start, length, i) {
    }
  }

  lemma TxNext(h0: Heads, h1: Heads, h2: Heads, h3: Heads, k: nat, q: nat, start: nat, length: nat, version: nat,
               next: Option<nat>)
    requires k in h1 && k >= start && SameAfter(h0, h1, k) && NoTx(h1, start, length, version, Some(k))
    requires h2.Keys == h1.Keys && (forall j :: j in h2 && j != k ==> h2[j] == h1[j])
    requires !(h2[k].state.Tx? && h2[k].version == version)
    requires SameButClean(h2, h3) && SameAfter(h2, h3, k + 1) && q in h3 && q <= k
    requires Apart(h3) && q + h3[q].length == k + h2[k].length && h2[k].length > 0
    requires next == KeyAtOrAfter(h3.Keys, q + 1)
    ensures NoTx(h3, start, length, version, next)
    ensures next.Some? ==> next.value in h3 && next.value >= k + h2[k].length && SameAfter(h0, h3, next.value)
  {
    assert next.Some? ==> q + h3[q].length <= next.value;
  }

  /** Between head k and the next one there is nothing. */
  lemma TxGap(h2: Heads, h3: Heads, k: nat, q: nat, l: nat, next: Option<nat>)
    requires Apart(h2) && k in h2 && h2[k].length == l && SameAfter(h2, h3, k + 1) && q <= k
    requires next == KeyAtOrAfter(h3.Keys, q + 1) && (next.Some? ==> next.value > k)
    ensures forall i: nat {:trigger At(h2, i)} :: k + l <= i && (next.Some? ==> i < next.value) ==> At(h2, i) == None
  {
    forall i: nat | k + l <= i && (next.Some? ==> i < next.value) ensures At(h2, i) == None {
      forall j: nat ensures !Holds(h2, j, i) {
      }
      NobodyAt(h2, i);
    }
  }

  lemma SimilarTrans(a: Option<Info>, b: Option<Info>, c: Option<Info>)
    requires Similar(a, b) && Similar(b, c)
    ensures Similar(a, c)
  {
  }

  lemma TxHere(h0: Heads, k: nat, i: nat, start: nat, length: nat, version: nat)
    requires Apart(h0) && Holds(h0, k, i) && start <= k < start + length
    ensures TxDone(h0, start, length, version, i)
            == if h0[k].state.Tx? && h0[k].version == version then WithState(At(h0, i), Clean) else At(h0, i)
  {
    hide At;
    AtIs(h0, k, i);
    assert Started(h0, start, length, i);
  }

  lemma TxStepView(h0: Heads, h1: Heads, h2: Heads, h3: Heads, k: nat, l: nat, start: nat, length: nat, version: nat,
                   next: Option<nat>)
    requires Apart(h0) && k in h0 && k in h1 && h0[k] == h1[k] && h1[k].length == l && start <= k < start + length
    requires TxView(h0, h1, start, length, version, Some(k))
    requires if h1[k].state.Tx? && h1[k].version == version then StateSet(h1, h2, k, k + l, Clean) else SameView(h1, h2)
    requires SimilarView(h2, h3) && ViewFrom(h2, h3, k + l)
    requires next.Some? ==> next.value >= k + l
    requires forall i: nat {:trigger At(h2, i)} :: k + l <= i && (next.Some? ==> i < next.value) ==> At(h2, i) == None
    ensures TxView(h0, h3, start, length, version, next)
  {
    hide At;
    hide Started;
    forall i: nat ensures if next.Some? && next.value <= i then At(h3, i) == At(h0, i)
                          else Similar(At(h3, i), TxDone(h0, start, length, version, i))
    {
      assert Similar(At(h3, i), At(h2, i));
      assert k <= i ==> At(h1, i) == At(h0, i);
      if i < k {
        assert At(h2, i) == At(h1, i);
        SimilarTrans(At(h3, i), At(h2, i), TxDone(h0, start, length, version, i));
      } else if i < k + l {
        TxHere(h0, k, i, start, length, version);
      } else {
        assert At(h2, i) == At(h1, i) && At(h3, i) == At(h2, i);
      }
    }
  }

  lemma TxEnd(h0: Heads, h1: Heads, h2: Heads, start: nat, length: nat, version: nat, p: Option<nat>)
    requires TxProgress(h0, h1, start, length, version, p) && (p.Some? ==> p.value >= start + length)
    requires SimilarView(h1, h2) && SameButClean(h1, h2)
    ensures NoTx(h2, start, length, version, None) && TxView(h0, h2, start, length, version, None)
  {
    hide At;
    forall i: nat ensures Similar(At(h2, i), TxDone(h0, start, length, version, i)) {
      assert Similar(At(h2, i), At(h1, i));
      if p.Some? && p.value <= i {
        assert At(h1, i) == At(h0, i);
        TxBeyond(h0, h1, start, length, version, p.value, i);
      }
      SimilarTrans(At(h2, i), At(h1, i), TxDone(h0, start, length, version, i));
    }
  }

  lemma TxBeyond(h0: Heads, h1: Heads, start: nat, length: nat, version: nat, p: nat, i: nat)
    requires Apart(h0) && p in h1 && SameAfter(h0, h1, p) && p >= start + length && p <= i
    ensures TxDone(h0, start, length, version, i) == At(h0, i)
  {
    hide At;
    forall k: nat | Holds(h0, k, i) ensures k >= p {
    }
  }

  /** No head depends on the request any more. */
  lemma TxIo(heads: Heads, ios: Requests, queued: set<nat>, next: nat, epoch: nat, id: nat)
    requires IoOk(heads, ios, queued, next, epoch) && AllGood(heads) && id in ios && id !in queued && ios[id].WriteOf?
    requires NoTx(heads, ios[id].start, ios[id].length, ios[id].version, None)
    ensures IoOk(heads, ios - {id}, queued, next, epoch)
  {
    forall k | k in heads ensures HeadOk(k, heads[k], ios - {id}, queued, epoch) {
      assert HeadOk(k, heads[k], ios, queued, epoch) && GoodHead(heads[k]);
      if heads[k].state.Tx? {
        var w: nat :| w in ios && Writes(ios[w], k, heads[k]);
        assert w != id;
        assert w in ios - {id} && Writes((ios - {id})[w], k, heads[k]);
      }
      if heads[k].state.Rx? {
        var w: nat :| w in ios && Reads(ios[w], k, heads[k]);
        assert w in ios - {id} && Reads((ios - {id})[w], k, heads[k]);
      }
    }
  }

  lemma ThenSet(h0: Heads, h1: Heads, h2: Heads, lo: nat, hi: nat, st: HeadState)
    requires SameView(h0, h1) && StateSet(h1, h2, lo, hi, st)
    ensures StateSet(h0, h2, lo, hi, st)
  {
    hide At;
    forall i: nat ensures At(h2, i) == if lo <= i < hi then WithState(At(h0, i), st) else At(h0, i) {
      assert At(h1, i) == At(h0, i);
    }
  }

  // ---- overwriting ----

  /** The blocks from k on have these contents, and are being written; nothing else changed. */
  ghost predicate Written(heads: Heads, heads': Heads, k: nat, contents: seq<Bytes>, version: nat, epoch: nat) {
    forall i: nat {:trigger At(heads', i)} {:trigger At(heads, i)} ::
      At(heads', i) == if k <= i < k + |contents| then Some(Info(Tx, version, epoch, Some(contents[i - k]), map[]))
                       else At(heads, i)
  }

  lemma TagsNew(heads: Heads, k: nat, ios: Requests, queued: set<nat>, n: nat, epoch: nat)
    requires IoOk(heads, ios, queued, n, epoch) && k in heads
    ensures heads[k].tx < n && heads[k].rx < n
  {
  }

  lemma PutWritten(h0: Heads, h1: Heads, h2: Heads, k: nat, contents: seq<Bytes>, version: nat, epoch: nat)
    requires k in h0 && k in h1 && |contents| == h0[k].length && h1[k].length == |contents|
    requires h1[k] == h0[k].(state := Dirty, version := version, epoch := epoch, data := contents, patch := map[])
    requires Put(h0, h1, k, h1[k]) && StateSet(h1, h2, k, k + |contents|, Tx)
    ensures Written(h0, h2, k, contents, version, epoch)
  {
    hide At;
    forall i: nat
      ensures At(h2, i) == if k <= i < k + |contents| then Some(Info(Tx, version, epoch, Some(contents[i - k]), map[]))
                           else At(h0, i)
    {
      assert At(h1, i) == if k <= i < k + |contents| then Some(InfoIn(h1[k], i - k)) else At(h0, i);
    }
  }

  /** The range is written up to pos. */
  ghost predicate WrittenTo(heads: Heads, heads': Heads, start: nat, contents: seq<Bytes>, pos: nat, version: nat,
                            epoch: nat)
    requires start <= pos <= start + |contents|
  {
    Written(heads, heads', start, contents[..pos - start], version, epoch)
  }

  lemma WrittenNone(heads: Heads, start: nat, contents: seq<Bytes>, version: nat, epoch: nat)
    ensures WrittenTo(heads, heads, start, contents, start, version, epoch)
  {
  }

  lemma WrittenMore(h1: Heads, h2: Heads, h3: Heads, start: nat, contents: seq<Bytes>, k: nat, e: nat, version: nat,
                    epoch: nat)
    requires start <= k <= e <= start + |contents| && WrittenTo(h1, h2, start, contents, k, version, epoch)
    requires Written(h2, h3, k, contents[k - start..e - start], version, epoch)
    ensures WrittenTo(h1, h3, start, contents, e, version, epoch)
  {
    hide At;
    var c := contents[..e - start];
    forall i: nat
      ensures At(h3, i) == if start <= i < start + |c| then Some(Info(Tx, version, epoch, Some(c[i - start]), map[]))
                           else At(h1, i)
    {
      assert At(h2, i) == if start <= i < k then Some(Info(Tx, version, epoch, Some(contents[i - start]), map[]))
                          else At(h1, i);
    }
  }

  lemma AllWritten(heads: Heads, heads': Heads, start: nat, contents: seq<Bytes>, version: nat, epoch: nat)
    requires WrittenTo(heads, heads', start, contents, start + |contents|, version, epoch)
    ensures Written(heads, heads', start, contents, version, epoch)
    ensures forall i: nat {:trigger At(heads', i)} ::
              if start <= i < start + |contents| then
                At(heads', i) == Some(Info(Tx, version, epoch, Some(contents[i - start]), map[]))
              else At(heads', i) == At(heads, i)
  {
    hide At;
    assert contents[..start + |contents| - start] == contents;
  }

  lemma TilingStart(heads: Heads, hits: seq<nat>, start: nat, end: nat)
    requires Tiling(heads, hits, start, end)
    ensures if hits == [] then start == end else hits[0] == start
    decreases |hits|
  {
    if |hits| > 1 {
      var n := |hits| - 1;
      TilingStart(heads, hits[..n], start, hits[n]);
    }
  }

  lemma {:induction false} TilingStep(heads: Heads, hits: seq<nat>, start: nat, end: nat, j: nat)
    requires Tiling(heads, hits, start, end) && j < |hits|
    ensures hits[j] in heads && heads[hits[j]].length > 0 && start <= hits[j]
    ensures hits[j] + heads[hits[j]].length == if j + 1 < |hits| then hits[j + 1] else end
    ensures hits[j] + heads[hits[j]].length <= end
    decreases |hits|
  {
    var n := |hits| - 1;
    if j < n {
      TilingStep(heads, hits[..n], start, hits[n], j);
    }
  }

  lemma MappedOutside(heads: Heads, heads': Heads, c: Cells, lo: nat, hi: nat)
    requires MappedTo(heads, heads', c, lo, hi)
    ensures forall i: nat {:trigger At(heads', i)} :: i < lo || hi <= i ==> At(heads', i) == At(heads, i)
  {
    hide At;
  }

  // ---- rx_finish ----

  /** Head h is at k; nothing else changed. */
  ghost predicate Put(heads: Heads, heads': Heads, k: nat, h: BufferHead) {
    forall i: nat {:trigger At(heads', i)} {:trigger At(heads, i)} ::
      At(heads', i) == if k <= i < k + h.length then Some(InfoIn(h, i - k)) else At(heads, i)
  }

  lemma PutSummed(s: Stats, a: HeadState, b: HeadState, n: int)
    requires Summed(s)
    ensures Summed(Plus(Minus(s, a, n), b, n))
  {
  }

  predicate Settled(st: HeadState) {
    st.Clean? || st.Corrupt?
  }

  /** What becomes of block i of a head that ends at `end`: it is corrupt if it is bad, unless all the
      blocks after it in the head are bad as well. */
  ghost function Outcome(bad: nat -> bool, i: nat, end: nat): HeadState {
    if bad(i) && exists j: nat :: i < j < end && !bad(j) then Corrupt else Clean
  }

  /** From k to end there are now parts of the head that was at k, all settled; or the head itself, not
      waiting any more. The other heads are as they were. */
  ghost predicate Pieces(h0: Heads, heads: Heads, k: nat, end: nat) {
    && h0.Keys <= heads.Keys && (forall j :: j in h0 && k <= j < end ==> j == k)
    && (forall j :: j in heads && j in h0 && j != k ==> heads[j] == h0[j])
    && (forall j :: j in heads && (j !in h0 || j == k) ==> k <= j && j + heads[j].length <= end && !heads[j].state.Rx?)
  }

  lemma PiecesStart(h0: Heads, k: nat, h: BufferHead)
    requires Apart(h0) && k in h0 && h.length == h0[k].length && !h.state.Rx?
    ensures Pieces(h0, h0[k := h], k, k + h0[k].length)
  {
  }

  lemma SplitPieces(h0: Heads, h1: Heads, k: nat, end: nat, cur: nat, b: nat)
    requires Pieces(h0, h1, k, end) && k <= cur < b < end
    requires cur in h1 && cur + h1[cur].length == end && b !in h1
    ensures Pieces(h0, SplitAt(h1, cur, b), k, end)
  {
  }

  lemma MarkPieces(h0: Heads, h1: Heads, k: nat, end: nat, cur: nat, st: HeadState)
    requires Pieces(h0, h1, k, end) && cur in h1 && k <= cur < end && Settled(st)
    ensures Pieces(h0, h1[cur := h1[cur].(state := st)], k, end)
  {
  }

  lemma MarkIo(heads: Heads, k: nat, st: HeadState, ios: Requests, queued: set<nat>, next: nat, epoch: nat)
    requires IoOk(heads, ios, queued, next, epoch) && k in heads && Settled(st)
    ensures IoOk(heads[k := heads[k].(state := st)], ios, queued, next, epoch)
  {
    IoPut(heads, k, heads[k].(state := st), ios, queued, next, epoch);
  }

  /** Every block from k to end is as it was, but for its state. */
  ghost predicate Marked(h0: Heads, heads: Heads, bad: nat -> bool, k: nat, end: nat) {
    forall i: nat {:trigger At(heads, i)} {:trigger At(h0, i)} ::
      At(heads, i) == if k <= i < end then WithState(At(h0, i), Outcome(bad, i, end)) else At(h0, i)
  }

  /** After VerifyHead, the bad blocks at the end of a head are clean, with the contents that failed
      their checksums. */
  lemma BadHeadPasses(h0: Heads, heads: Heads, bad: nat -> bool, k: nat, end: nat, i: nat)
    requires Marked(h0, heads, bad, k, end) && k <= i < end && At(h0, i).Some?
    requires forall j: nat :: i <= j < end ==> bad(j)
    ensures At(heads, i) == Some(At(h0, i).value.(state := Clean))
  {
    hide At;
    assert Outcome(bad, i, end) == Clean;
  }

  /** A cache with one head of one block, which has just been read. */
  ghost function OneHead(bytes: Bytes): Heads {
    var none: Heads := map[];
    none[0 := NewHead(1, Clean).(data := [bytes])]
  }

  /** VerifyHead may be called on it, and if the block is bad, it nevertheless ends clean, whatever it
      holds. */
  lemma LostChecksum(bytes: Bytes, bad: nat -> bool, epoch: nat, heads: Heads)
    requires bad(0) && Marked(OneHead(bytes), heads, bad, 0, 1)
    ensures var h := OneHead(bytes);
            && Apart(h) && AllGood(h) && Counts(h, Stats(1, 0, 1, 0, 0, 0, 0, 0)) && Summed(Stats(1, 0, 1, 0, 0, 0, 0, 0))
            && IoOk(h, map[], {}, 1, epoch) && 0 in h && h[0].state.Clean?
    ensures At(heads, 0) == Some(Info(Clean, 0, 0, Some(bytes), map[]))
  {
    hide *;
    OneHeadShape(bytes);
    OneHeadCounts(bytes);
    OneHeadIo(bytes, epoch);
    BadHeadPasses(OneHead(bytes), heads, bad, 0, 1, 0);
  }

  lemma OneHeadShape(bytes: Bytes)
    ensures Apart(OneHead(bytes)) && AllGood(OneHead(bytes)) && 0 in OneHead(bytes)
    ensures OneHead(bytes)[0] == NewHead(1, Clean).(data := [bytes]) && OneHead(bytes)[0].state.Clean?
    ensures At(OneHead(bytes), 0) == Some(Info(Clean, 0, 0, Some(bytes), map[]))
  {
    hide At;
    assert Holds(OneHead(bytes), 0, 0);
    AtIs(OneHead(bytes), 0, 0);
  }

  lemma OneHeadCounts(bytes: Bytes)
    ensures Counts(OneHead(bytes), Stats(1, 0, 1, 0, 0, 0, 0, 0)) && Summed(Stats(1, 0, 1, 0, 0, 0, 0, 0))
  {
    hide Size;
    OneRun();
    NoRuns();
    var h := OneHead(bytes);
    assert Lens(h) == map[0 := 1];
    forall st: HeadState ensures Stat(Stats(1, 0, 1, 0, 0, 0, 0, 0), st) == Size(Of(h, st)) {
      assert Of(h, st) == if st == Clean then map[0 := 1] else map[];
    }
  }

  lemma OneRun()
    ensures Size(map[0 := 1]) == 1
  {
    var none: Runs := map[];
    NoRuns();
    BlocksInsert(none, 0, 1);
    RangeSize(0, 1);
  }

  lemma OneHeadIo(bytes: Bytes, epoch: nat)
    ensures IoOk(OneHead(bytes), map[], {}, 1, epoch)
  {
    hide IoOk;
    NoRequests(epoch);
    var none: Heads := map[];
    NewIsFree(bytes, epoch);
    IoPut(none, 0, NewHead(1, Clean).(data := [bytes]), map[], {}, 1, epoch);
  }

  lemma NewIsFree(bytes: Bytes, epoch: nat)
    ensures HeadOk(0, NewHead(1, Clean).(data := [bytes]), map[], {}, epoch)
  {
  }

  /** Up to cur the states are final; from there on the state is st. */
  ghost predicate MarkedTo(h0: Heads, heads: Heads, bad: nat -> bool, k: nat, cur: nat, end: nat, st: HeadState) {
    forall i: nat {:trigger At(heads, i)} {:trigger At(h0, i)} ::
      At(heads, i) == if k <= i < cur then WithState(At(h0, i), Outcome(bad, i, end))
                      else if cur <= i < end then WithState(At(h0, i), st) else At(h0, i)
  }

  lemma MarkedStart(h0: Heads, bad: nat -> bool, k: nat, end: nat)
    requires Apart(h0) && k in h0 && end == k + h0[k].length && h0[k].state.Clean?
    ensures MarkedTo(h0, h0, bad, k, k, end, Clean)
  {
    HeadInfo(h0, k);
    hide At;
  }

  /** Good blocks stay clean. */
  lemma MarkedGood(h0: Heads, h1: Heads, h2: Heads, bad: nat -> bool, k: nat, cur: nat, b: nat, end: nat)
    requires MarkedTo(h0, h1, bad, k, cur, end, Clean) && SameView(h1, h2) && k <= cur <= b < end
    requires forall j :: cur <= j < b ==> !bad(j)
    ensures MarkedTo(h0, h2, bad, k, b, end, Clean)
  {
    hide At;
    forall i: nat
      ensures At(h2, i) == if k <= i < b then WithState(At(h0, i), Outcome(bad, i, end))
                           else if b <= i < end then WithState(At(h0, i), Clean) else At(h0, i)
    {
      assert At(h2, i) == At(h1, i);
    }
  }

  /** A run of bad blocks becomes corrupt. */
  lemma MarkedBad(h0: Heads, h2: Heads, h3: Heads, h4: Heads, bad: nat -> bool, k: nat, b: nat, e: nat, end: nat)
    requires MarkedTo(h0, h2, bad, k, b, end, Clean) && SameView(h2, h3) && k <= b < e <= end
    requires StateSet(h3, h4, b, e, Corrupt)
    requires (forall j :: b <= j < e ==> bad(j)) && (e < end ==> !bad(e))
    ensures MarkedTo(h0, h4, bad, k, if e < end then e else b, end, if e < end then Clean else Corrupt)
  {
    hide At;
    forall i: nat
      ensures var cur, st := if e < end then e else b, if e < end then Clean else Corrupt;
              At(h4, i) == if k <= i < cur then WithState(At(h0, i), Outcome(bad, i, end))
                           else if cur <= i < end then WithState(At(h0, i), st) else At(h0, i)
    {
      assert At(h3, i) == At(h2, i);
      assert b <= i < e < end ==> Outcome(bad, i, end) == Corrupt;
    }
  }

  lemma MarkedEnd(h0: Heads, h1: Heads, h2: Heads, bad: nat -> bool, k: nat, cur: nat, end: nat, st: HeadState)
    requires MarkedTo(h0, h1, bad, k, cur, end, st) && k <= cur < end && StateSet(h1, h2, cur, end, Clean)
    requires (forall j :: cur <= j < end ==> !bad(j)) || (forall j :: cur <= j < end ==> bad(j))
    ensures Marked(h0, h2, bad, k, end)
  {
    hide At;
    forall i: nat
      ensures At(h2, i) == if k <= i < end then WithState(At(h0, i), Outcome(bad, i, end)) else At(h0, i)
    {
      assert At(h2, i) == if cur <= i < end then WithState(At(h1, i), Clean) else At(h1, i);
      assert cur <= i < end ==> Outcome(bad, i, end) == Clean;
    }
  }

  /** What a finished read makes of a block that was waiting for it; st says whether its checksum was
      right. */
  function LoadedInfo(a: Info, bytes: Bytes, st: HeadState): Info {
    if a.state.Rx? then a.(state := st, bytes := Some(bytes))
    else if a.state.Partial? then a.(state := Tx, bytes := Some(PartialBlocks.Overlay(bytes, a.patch)), patch := map[])
    else a
  }

  ghost predicate Loaded(heads: Heads, heads': Heads, k: nat, start: nat, bl: seq<Bytes>, bad: nat -> bool)
    requires k in heads && start <= k && k + heads[k].length <= start + |bl|
  {
    forall i: nat {:trigger At(heads', i)} {:trigger At(heads, i)} ::
      At(heads', i) == if k <= i < k + heads[k].length && At(heads, i).Some?
                       then Some(LoadedInfo(At(heads, i).value, bl[i - start], Outcome(bad, i, k + heads[k].length)))
                       else At(heads, i)
  }

  lemma NextIsFresh(heads: Heads, ios: Requests, queued: set<nat>, next: nat, epoch: nat)
    requires IoOk(heads, ios, queued, next, epoch)
    ensures next !in ios
  {
  }

  lemma TagsBelow(heads: Heads, k: nat, ios: Requests, queued: set<nat>, next: nat, epoch: nat)
    requires IoOk(heads, ios, queued, next, epoch) && k in heads
    ensures heads[k].tx < next && heads[k].rx < next && 0 < next
  {
  }

  lemma HeadInfo(heads: Heads, k: nat)
    requires Apart(heads) && k in heads
    ensures forall i: nat {:trigger At(heads, i)} :: k <= i < k + heads[k].length ==>
              At(heads, i) == Some(InfoIn(heads[k], i - k))
  {
    hide At;
    forall i: nat | k <= i < k + heads[k].length ensures At(heads, i) == Some(InfoIn(heads[k], i - k)) {
      assert Holds(heads, k, i);
      AtIs(heads, k, i);
    }
  }

  lemma NoPatch(heads: Heads, k: nat)
    requires AllGood(heads) && k in heads && heads[k].state.Rx?
    ensures heads[k].patch == map[]
  {
    assert GoodHead(heads[k]);
  }

  lemma PartialIsOne(heads: Heads, k: nat)
    requires AllGood(heads) && k in heads && heads[k].state.Partial?
    ensures heads[k].length == 1
  {
    assert GoodHead(heads[k]);
  }

  lemma LoadedClean(h0: Heads, h1: Heads, h2: Heads, k: nat, g: BufferHead, start: nat, bl: seq<Bytes>, bad: nat -> bool)
    requires Apart(h0) && AllGood(h0) && k in h0 && h0[k].state.Rx? && start <= k && k + h0[k].length <= start + |bl|
    requires g.length == h0[k].length && g.data == bl[k - start..k - start + g.length]
    requires g == h0[k].(rx := g.rx, state := Clean, data := g.data)
    requires h1 == h0[k := g] && Put(h0, h1, k, g)
    requires Marked(h1, h2, bad, k, k + g.length) && Pieces(h1, h2, k, k + g.length)
    ensures Loaded(h0, h2, k, start, bl, bad) && Pieces(h0, h2, k, k + h0[k].length)
  {
    hide At;
    hide Outcome;
    hide GoodHead;
    HeadInfo(h0, k);
    var end := k + h0[k].length;
    forall i: nat
      ensures At(h2, i) == if k <= i < end && At(h0, i).Some?
                           then Some(LoadedInfo(At(h0, i).value, bl[i - start], Outcome(bad, i, end))) else At(h0, i)
    {
      assert At(h1, i) == if k <= i < k + g.length then Some(InfoIn(g, i - k)) else At(h0, i);
    }
  }

  lemma LoadedDirty(h0: Heads, h1: Heads, h2: Heads, k: nat, g: BufferHead, start: nat, bl: seq<Bytes>, bad: nat -> bool)
    requires Apart(h0) && AllGood(h0) && k in h0 && h0[k].state.Partial? && start <= k && k + h0[k].length <= start + |bl|
    requires h0[k].length == 1 && g.data == [PartialBlocks.Overlay(bl[k - start], h0[k].patch)]
    requires g == h0[k].(rx := g.rx, state := Dirty, data := g.data, patch := map[])
    requires Put(h0, h1, k, g) && StateSet(h1, h2, k, k + 1, Tx)
    ensures Loaded(h0, h2, k, start, bl, bad)
  {
    hide At;
    hide Outcome;
    HeadInfo(h0, k);
    var end := k + h0[k].length;
    forall i: nat
      ensures At(h2, i) == if k <= i < end && At(h0, i).Some?
                           then Some(LoadedInfo(At(h0, i).value, bl[i - start], Outcome(bad, i, end))) else At(h0, i)
    {
      assert At(h1, i) == if k <= i < k + g.length then Some(InfoIn(g, i - k)) else At(h0, i);
    }
  }

  lemma LoadedNothing(heads: Heads, k: nat, start: nat, bl: seq<Bytes>, bad: nat -> bool)
    requires Apart(heads) && k in heads && start <= k && k + heads[k].length <= start + |bl|
    requires !heads[k].state.Rx? && !heads[k].state.Partial?
    ensures Loaded(heads, heads, k, start, bl, bad)
  {
    hide At;
    HeadInfo(heads, k);
  }

  lemma LoadedTag(h0: Heads, h1: Heads, k: nat, start: nat, bl: seq<Bytes>, bad: nat -> bool)
    requires k in h0 && start <= k && k + h0[k].length <= start + |bl|
    requires Loaded(h0, h0, k, start, bl, bad) && SameView(h0, h1)
    ensures Loaded(h0, h1, k, start, bl, bad)
  {
    hide At;
  }

  lemma UnreadTag(heads: Heads, stats: Stats, k: nat, rx: nat, ios: Requests, queued: set<nat>, next: nat, epoch: nat)
    requires Apart(heads) && AllGood(heads) && Counts(heads, stats) && IoOk(heads, ios, queued, next, epoch)
    requires k in heads && !heads[k].state.Rx? && rx < next
    ensures var t := heads[k := heads[k].(rx := rx)];
            && Apart(t) && AllGood(t) && Counts(t, stats) && SameView(heads, t)
            && IoOk(t, ios, queued, next, epoch)
  {
    var h := heads[k].(rx := rx);
    TagHead(heads, stats, k, h);
    hide Counts;
    hide At;
    assert HeadOk(k, heads[k], ios, queued, epoch) && h.tx < next;
    if h.state.Tx? {
      var id: nat :| id in ios && Writes(ios[id], k, heads[k]);
      assert Writes(ios[id], k, h);
    }
    assert HeadOk(k, h, ios, queued, epoch);
    IoPut(heads, k, h, ios, queued, next, epoch);
  }

  /** The head of block i lies inside the range of the read. */
  ghost predicate Within(heads: Heads, start: nat, length: nat, i: nat) {
    exists k: nat :: Holds(heads, k, i) && start <= k && k + heads[k].length <= start + length
  }

  /** Where the head of block i ends. */
  ghost function EndOf(heads: Heads, i: nat): nat {
    if k: nat :| Holds(heads, k, i) then k + heads[k].length else i
  }

  ghost function RxDone(heads: Heads, start: nat, bl: seq<Bytes>, bad: nat -> bool, i: nat): Option<Info> {
    var a := At(heads, i);
    if Within(heads, start, |bl|, i) && a.Some? && start <= i < start + |bl|
    then Some(LoadedInfo(a.value, bl[i - start], Outcome(bad, i, EndOf(heads, i)))) else a
  }

  ghost predicate RxView(h0: Heads, heads: Heads, start: nat, bl: seq<Bytes>, bad: nat -> bool, p: Option<nat>) {
    forall i: nat {:trigger At(heads, i)} ::
      At(heads, i) == if p.Some? && p.value <= i then At(h0, i) else RxDone(h0, start, bl, bad, i)
  }

  ghost predicate NoRx(heads: Heads, start: nat, length: nat, p: Option<nat>) {
    forall k :: k in heads && start <= k && k + heads[k].length <= start + length && (p.Some? ==> k < p.value) ==>
      !heads[k].state.Rx?
  }

  ghost predicate RxProgress(h0: Heads, heads: Heads, start: nat, bl: seq<Bytes>, bad: nat -> bool, p: Option<nat>) {
    && (p.Some? ==> p.value in heads && p.value >= start && SameAfter(h0, heads, p.value))
    && Apart(h0) && AllGood(h0)
    && NoRx(heads, start, |bl|, p) && RxView(h0, heads, start, bl, bad, p)
  }

  lemma RxBegin(heads: Heads, start: nat, bl: seq<Bytes>, bad: nat -> bool, p: Option<nat>)
    requires Apart(heads) && AllGood(heads) && p == KeyAtOrAfter(heads.Keys, start)
    ensures RxProgress(heads, heads, start, bl, bad, p)
  {
    hide At;
    forall i: nat | p.None? || i < p.value ensures !Within(heads, start, |bl|, i) {
    }
  }

  /** The write of a partial block that has been read. */
  function PatchWrite(h: BufferHead, k: nat, bytes: Bytes): Request {
    WriteOf(k, 1, h.version, h.epoch, [PartialBlocks.Overlay(bytes, h.patch)])
  }

  ghost predicate LoadIo(h: BufferHead, k: nat, i0: Requests, q0: set<nat>, n0: nat,
                         ios: Requests, queued: set<nat>, next: nat, bytes: Bytes) {
    if h.state.Partial? then ios == i0[n0 := PatchWrite(h, k, bytes)] && queued == q0 + {n0} && next == n0 + 1
    else ios == i0 && queued == q0 && next == n0
  }

  ghost predicate WrittenOut(h0: Heads, r: Request, start: nat, bl: seq<Bytes>) {
    var k := r.start;
    k in h0 && h0[k].state.Partial? && start <= k < start + |bl| && r == PatchWrite(h0[k], k, bl[k - start])
  }

  /** All requests are still there; what is new writes out a partial block that has been read. */
  ghost predicate Laid(h0: Heads, i0: Requests, q0: set<nat>, n0: nat, ios: Requests, queued: set<nat>, next: nat,
                       start: nat, bl: seq<Bytes>) {
    && n0 <= next && i0.Keys <= ios.Keys
    && (forall id: nat :: id in i0 ==> ios[id] == i0[id] && (id in queued <==> id in q0))
    && (forall id: nat :: id in ios && id !in i0 ==> n0 <= id && id in queued && WrittenOut(h0, ios[id], start, bl))
  }

  lemma LaidNothing(heads: Heads, ios: Requests, queued: set<nat>, next: nat, start: nat, bl: seq<Bytes>)
    ensures Laid(heads, ios, queued, next, ios, queued, next, start, bl)
  {
  }

  lemma LaidKept(id: nat, h0: Heads, i0: Requests, q0: set<nat>, n0: nat, ios: Requests, queued: set<nat>, next: nat,
                 start: nat, bl: seq<Bytes>)
    requires Laid(h0, i0, q0, n0, ios, queued, next, start, bl) && id in i0
    ensures id in ios && ios[id] == i0[id] && (id in queued <==> id in q0)
  {
  }

  lemma LaidMore(h0: Heads, k: nat, i0: Requests, q0: set<nat>, n0: nat, i1: Requests, q1: set<nat>, n1: nat,
                 ios: Requests, queued: set<nat>, next: nat, start: nat, bl: seq<Bytes>)
    requires Laid(h0, i0, q0, n0, i1, q1, n1, start, bl) && Below(i0, n0) && Below(i1, n1)
    requires k in h0 && start <= k < start + |bl|
    requires LoadIo(h0[k], k, i1, q1, n1, ios, queued, next, bl[k - start])
    ensures Laid(h0, i0, q0, n0, ios, queued, next, start, bl)
  {
    assert h0[k].state.Partial? ==> WrittenOut(h0, PatchWrite(h0[k], k, bl[k - start]), start, bl);
    hide WrittenOut;
  }

  /** Byte by byte: what the fragments do not have is as it was read. */
  ghost predicate LaidOver(bytes: Bytes, read: Bytes, patch: PartialBlocks.Patch) {
    |bytes| == |read| && forall x: nat :: x < |read| ==> bytes[x] == if x in patch then patch[x] else read[x]
  }

  /** What has become of a block that was in state `was`. */
  ghost predicate ArrivedAs(was: Info, now: Option<Info>, read: Bytes) {
    match was.state
    case Rx => now.Some? && (now.value.state.Clean? || now.value.state.Corrupt?) && now.value.bytes == Some(read)
    case Partial => now.Some? && now.value.state.Tx? && now.value.version == was.version && now.value.bytes.Some?
                    && LaidOver(now.value.bytes.value, read, was.patch)
    case _ => now == Some(was)
  }

  /** Every head that lies in the range of a read and was waiting has got its contents. */
  ghost predicate Arrived(h0: Heads, heads: Heads, start: nat, bl: seq<Bytes>) {
    forall k: nat, i: nat ::
      Holds(h0, k, i) && start <= k && k + h0[k].length <= start + |bl| ==>
        At(h0, i).Some? && ArrivedAs(At(h0, i).value, At(heads, i), bl[i - start])
  }

  lemma InfoArrives(a: Info, bytes: Bytes, st: HeadState)
    requires st.Clean? || st.Corrupt?
    ensures ArrivedAs(a, Some(LoadedInfo(a, bytes, st)), bytes)
  {
  }

  lemma HaveArrived(h0: Heads, heads: Heads, start: nat, bl: seq<Bytes>, bad: nat -> bool)
    requires Apart(h0) && RxView(h0, heads, start, bl, bad, None)
    ensures Arrived(h0, heads, start, bl)
  {
    hide At;
    hide RxDone;
    hide LoadedInfo;
    hide ArrivedAs;
    forall k: nat, i: nat | Holds(h0, k, i) && start <= k && k + h0[k].length <= start + |bl|
      ensures At(h0, i).Some? && ArrivedAs(At(h0, i).value, At(heads, i), bl[i - start])
    {
      RxHere(h0, k, i, start, bl, bad);
      InfoArrives(At(h0, i).value, bl[i - start], Outcome(bad, i, k + h0[k].length));
      assert At(heads, i) == RxDone(h0, start, bl, bad, i);
    }
  }

  lemma RxNext(h0: Heads, h1: Heads, h2: Heads, k: nat, start: nat, bl: seq<Bytes>, next: Option<nat>)
    requires k in h1 && k >= start && SameAfter(h0, h1, k) && NoRx(h1, start, |bl|, Some(k))
    requires Pieces(h1, h2, k, k + h1[k].length)
    requires Apart(h1) && next == KeyAtOrAfter(h1.Keys, k + 1)
    ensures NoRx(h2, start, |bl|, next)
    ensures next.Some? ==> next.value in h2 && next.value >= k + h1[k].length && SameAfter(h0, h2, next.value)
  {
    if next.Some? {
      assert next.value in h1.Keys;
    }
  }

  lemma RxGap(heads: Heads, k: nat, next: Option<nat>)
    requires Apart(heads) && k in heads && next == KeyAtOrAfter(heads.Keys, k + 1)
    ensures forall i: nat {:trigger At(heads, i)} ::
              k + heads[k].length <= i && (next.Some? ==> i < next.value) ==> At(heads, i) == None
  {
    forall i: nat | k + heads[k].length <= i && (next.Some? ==> i < next.value) ensures At(heads, i) == None {
      forall j: nat ensures !Holds(heads, j, i) {
      }
      NobodyAt(heads, i);
    }
  }

  lemma RxHere(h0: Heads, k: nat, i: nat, start: nat, bl: seq<Bytes>, bad: nat -> bool)
    requires Apart(h0) && Holds(h0, k, i) && start <= k && k + h0[k].length <= start + |bl|
    ensures At(h0, i).Some?
    ensures RxDone(h0, start, bl, bad, i)
            == Some(LoadedInfo(At(h0, i).value, bl[i - start], Outcome(bad, i, k + h0[k].length)))
  {
    hide At;
    hide Outcome;
    forall j: nat | Holds(h0, j, i) ensures j == k {
    }
    AtIs(h0, k, i);
    assert Within(h0, start, |bl|, i);
  }

  lemma RxStepView(h0: Heads, h1: Heads, h2: Heads, k: nat, start: nat, bl: seq<Bytes>, bad: nat -> bool,
                   next: Option<nat>)
    requires Apart(h0) && k in h0 && k in h1 && h0[k] == h1[k]
    requires start <= k && k + h1[k].length <= start + |bl|
    requires RxView(h0, h1, start, bl, bad, Some(k)) && Loaded(h1, h2, k, start, bl, bad)
    requires next.Some? ==> next.value >= k + h1[k].length
    requires forall i: nat {:trigger At(h1, i)} ::
               k + h1[k].length <= i && (next.Some? ==> i < next.value) ==> At(h1, i) == None
    ensures RxView(h0, h2, start, bl, bad, next)
  {
    hide At;
    hide Within;
    hide LoadedInfo;
    hide Outcome;
    hide EndOf;
    forall i: nat
      ensures At(h2, i) == if next.Some? && next.value <= i then At(h0, i) else RxDone(h0, start, bl, bad, i)
    {
      assert k <= i ==> At(h1, i) == At(h0, i);
      if i < k {
        assert At(h2, i) == At(h1, i);
      } else if i < k + h1[k].length {
        RxHere(h0, k, i, start, bl, bad);
      } else {
        assert At(h2, i) == At(h1, i);
      }
    }
  }

  lemma RxEnd(h0: Heads, heads: Heads, start: nat, bl: seq<Bytes>, bad: nat -> bool, p: Option<nat>)
    requires RxProgress(h0, heads, start, bl, bad, p) && Apart(heads) && AllGood(heads)
    requires p.Some? ==> p.value >= start + |bl| || p.value + heads[p.value].length > start + |bl|
    ensures NoRx(heads, start, |bl|, None) && RxView(h0, heads, start, bl, bad, None)
  {
    hide At;
    RxTail(heads, start, |bl|, p);
    hide AllGood;
    if p.Some? {
      forall i: nat | p.value <= i ensures RxDone(h0, start, bl, bad, i) == At(h0, i) {
        RxBeyond(h0, heads, start, bl, bad, p.value, i);
      }
    }
  }

  lemma RxTail(heads: Heads, start: nat, length: nat, p: Option<nat>)
    requires NoRx(heads, start, length, p) && Apart(heads) && AllGood(heads)
    requires p.Some? ==> p.value in heads && (p.value >= start + length || p.value + heads[p.value].length > start + length)
    ensures NoRx(heads, start, length, None)
  {
    forall k | k in heads && p.Some? && k >= p.value ensures k + heads[k].length > start + length {
      HeadPositive(heads, k);
    }
  }

  lemma RxBeyond(h0: Heads, heads: Heads, start: nat, bl: seq<Bytes>, bad: nat -> bool, p: nat, i: nat)
    requires Apart(h0) && AllGood(h0) && p in heads && SameAfter(h0, heads, p) && p <= i
    requires p >= start + |bl| || p + heads[p].length > start + |bl|
    ensures RxDone(h0, start, bl, bad, i) == At(h0, i)
  {
    hide At;
    SameHere(h0, heads, p);
    forall k: nat | Holds(h0, k, i) ensures k + h0[k].length > start + |bl| {
      HeadPositive(h0, k);
    }
  }

  lemma RxIo(heads: Heads, ios: Requests, queued: set<nat>, next: nat, epoch: nat, id: nat)
    requires IoOk(heads, ios, queued, next, epoch) && AllGood(heads) && id in ios && id !in queued && ios[id].ReadOf?
    requires NoRx(heads, ios[id].start, ios[id].length, None)
    ensures IoOk(heads, ios - {id}, queued, next, epoch)
  {
    forall k | k in heads ensures HeadOk(k, heads[k], ios - {id}, queued, epoch) {
      assert HeadOk(k, heads[k], ios, queued, epoch) && GoodHead(heads[k]);
      if heads[k].state.Tx? {
        var w: nat :| w in ios && Writes(ios[w], k, heads[k]);
        assert w in ios - {id} && Writes((ios - {id})[w], k, heads[k]);
      }
      if heads[k].state.Rx? {
        var w: nat :| w in ios && Reads(ios[w], k, heads[k]);
        assert w != id;
        assert w in ios - {id} && Reads((ios - {id})[w], k, heads[k]);
      }
    }
  }

  // ---- one head ----

  function NewHead(len: nat, state: HeadState): BufferHead {
    BufferHead(len, state, 0, 0, 0, 0, 0, [], map[])
  }

  lemma NoHeads()
    ensures Apart(map[]) && AllGood(map[]) && Counts(map[], Stats(0, 0, 0, 0, 0, 0, 0, 0))
    ensures Summed(Stats(0, 0, 0, 0, 0, 0, 0, 0))
  {
    NoRuns();
    assert Lens(map[]) == map[];
    assert forall st :: Of(map[], st) == map[];
  }

  lemma NoRequests(epoch: nat)
    ensures IoOk(map[], map[], {}, 1, epoch)
  {
  }

  /** rbegin */
  function LastKey(heads: Heads): (r: Option<nat>)
    ensures r.Some? ==> r.value in heads && forall j :: j in heads ==> j <= r.value
    ensures r.None? ==> heads == map[]
  {
    if heads == map[] then None
    else
      (var x :| x in heads;
       GreatestExists(heads.Keys, x);
       var m :| m in heads && forall j :: j in heads ==> j <= m;
       Some(m))
  }

  function WithState(a: Option<Info>, st: HeadState): Option<Info> {
    if a.Some? then Some(a.value.(state := st)) else None
  }

  /** The blocks in [lo, hi) are in state st; nothing else changed. */
  ghost predicate StateSet(heads: Heads, heads': Heads, lo: nat, hi: nat, st: HeadState) {
    forall i: nat {:trigger At(heads', i)} ::
      At(heads', i) == if lo <= i < hi then WithState(At(heads, i), st) else At(heads, i)
  }

  lemma StateView(heads: Heads, k: nat, s: HeadState)
    requires Apart(heads) && AllGood(heads) && k in heads
    ensures StateSet(heads, heads[k := heads[k].(state := s)], k, k + heads[k].length, s)
  {
    hide At;
    hide GoodHead;
    var h := heads[k];
    PutView(heads, k, h.(state := s));
    forall i: nat | k <= i < k + h.length ensures At(heads, i) == Some(InfoIn(h, i - k)) {
      assert Holds(heads, k, i);
      AtIs(heads, k, i);
    }
  }

  lemma SummedAgain(s: Stats, a: HeadState, b: HeadState, n: int)
    requires Summed(s)
    ensures Summed(Plus(Minus(s, a, n), b, n))
  {
  }

  lemma SummedThrice(s: Stats, st: HeadState, a: int, b: int, c: int)
    requires Summed(s)
    ensures Summed(Plus(Minus(Plus(s, st, a), st, b), st, c))
  {
  }

  /** Changing the tags of a head, or what it says has been flushed, changes nothing else. */
  lemma TagHead(heads: Heads, stats: Stats, k: nat, h: BufferHead)
    requires Apart(heads) && AllGood(heads) && Counts(heads, stats) && k in heads
    requires h == heads[k].(tx := h.tx, rx := h.rx, flushed := h.flushed)
    ensures Apart(heads[k := h]) && AllGood(heads[k := h]) && Counts(heads[k := h], stats)
    ensures SameView(heads, heads[k := h])
  {
    hide Counts;
    TagShape(heads, k, h);
    TagCounts(heads, stats, k, h);
    TagView(heads, k, h);
  }

  lemma TagShape(heads: Heads, k: nat, h: BufferHead)
    requires Apart(heads) && AllGood(heads) && k in heads
    requires h == heads[k].(tx := h.tx, rx := h.rx, flushed := h.flushed)
    ensures Apart(heads[k := h]) && AllGood(heads[k := h])
  {
  }

  lemma TagCounts(heads: Heads, stats: Stats, k: nat, h: BufferHead)
    requires Counts(heads, stats) && k in heads
    requires h == heads[k].(tx := h.tx, rx := h.rx, flushed := h.flushed)
    ensures Counts(heads[k := h], stats)
  {
    hide Size;
    hide Stat;
    assert Lens(heads[k := h]) == Lens(heads);
    forall st: HeadState ensures Of(heads[k := h], st) == Of(heads, st) {
    }
  }

  lemma TagView(heads: Heads, k: nat, h: BufferHead)
    requires Apart(heads) && AllGood(heads) && Apart(heads[k := h]) && k in heads
    requires h == heads[k].(tx := h.tx, rx := h.rx, flushed := h.flushed)
    ensures SameView(heads, heads[k := h])
  {
    hide At;
    hide GoodHead;
    PutView(heads, k, h);
    forall i: nat | k <= i < k + h.length ensures At(heads, i) == Some(InfoIn(h, i - k)) {
      assert Holds(heads, k, i);
      AtIs(heads, k, i);
    }
  }

  lemma ReadQueued(heads: Heads, k: nat, ios: Requests, queued: set<nat>, next: nat, epoch: nat)
    requires IoOk(heads, ios, queued, next, epoch) && k in heads
    ensures var h := heads[k].(state := Rx, rx := next);
            IoOk(heads[k := h], ios[next := ReadOf(k, h.length)], queued + {next}, next + 1, epoch)
  {
    var h := heads[k].(state := Rx, rx := next);
    var ios' := ios[next := ReadOf(k, h.length)];
    IoAdd(heads, ios, queued, next, epoch, ReadOf(k, h.length));
    assert next in ios' && Reads(ios'[next], k, h);
    assert HeadOk(k, h, ios', queued + {next}, epoch);
    assert h.tx < next;
    hide IoOk;
    IoPut(heads, k, h, ios', queued + {next}, next + 1, epoch);
  }

  lemma WriteQueued(heads: Heads, k: nat, ios: Requests, queued: set<nat>, next: nat, epoch: nat)
    requires IoOk(heads, ios, queued, next, epoch) && k in heads && |heads[k].data| == heads[k].length
    ensures var h := heads[k].(state := Tx, tx := next);
            IoOk(heads[k := h], ios[next := WriteOf(k, h.length, h.version, h.epoch, h.data)], queued + {next}, next + 1, epoch)
  {
    var h := heads[k].(state := Tx, tx := next);
    var r := WriteOf(k, h.length, h.version, h.epoch, h.data);
    IoAdd(heads, ios, queued, next, epoch, r);
    assert h.data[k - r.start..k - r.start + h.length] == h.data;
    assert next in ios[next := r] && Writes(ios[next := r][next], k, h);
    assert HeadOk(k, h, ios[next := r], queued + {next}, epoch);
    assert h.rx < next;
    hide IoOk;
    IoPut(heads, k, h, ios[next := r], queued + {next}, next + 1, epoch);
  }

  lemma ReadDropped(heads: Heads, k: nat, ios: Requests, queued: set<nat>, next: nat, epoch: nat)
    requires IoOk(heads, ios, queued, next, epoch) && Apart(heads) && AllGood(heads)
    requires k in heads && Unread(heads[k], queued)
    ensures var h := heads[k].(state := Missing, rx := 0);
            IoOk(heads[k := h], ios - {heads[k].rx}, queued - {heads[k].rx}, next, epoch)
  {
    var id := heads[k].rx;
    var h := heads[k].(state := Missing, rx := 0);
    assert HeadOk(k, heads[k], ios, queued, epoch);
    IoDrop(heads, k, ios, queued, next, epoch, id);
    assert h.tx < next;
    assert (heads - {k})[k := h] == heads[k := h];
    hide IoOk;
    IoPut(heads - {k}, k, h, ios - {id}, queued - {id}, next, epoch);
  }

  lemma WriteDropped(heads: Heads, k: nat, ios: Requests, queued: set<nat>, next: nat, epoch: nat)
    requires IoOk(heads, ios, queued, next, epoch) && Apart(heads) && AllGood(heads)
    requires k in heads && Cancellable(heads[k], queued, epoch)
    ensures |heads[k].data| == heads[k].length
    ensures var h := heads[k].(state := Dirty, tx := 0);
            IoOk(heads[k := h], ios - {heads[k].tx}, queued - {heads[k].tx}, next, epoch)
  {
    var id := heads[k].tx;
    var h := heads[k].(state := Dirty, tx := 0);
    assert HeadOk(k, heads[k], ios, queued, epoch);
    IoDrop(heads, k, ios, queued, next, epoch, id);
    assert h.rx < next;
    assert (heads - {k})[k := h] == heads[k := h];
    hide IoOk;
    IoPut(heads - {k}, k, h, ios - {id}, queued - {id}, next, epoch);
  }

  lemma NewApart(heads: Heads, k: nat, h: BufferHead)
    requires Apart(heads) && AllGood(heads) && GoodHead(h)
    requires forall i: nat :: k <= i < k + h.length ==> At(heads, i) == None
    ensures k !in heads && Apart(heads[k := h]) && AllGood(heads[k := h])
  {
    hide At;
    hide InfoIn;
    forall j | j in heads ensures j + heads[j].length <= k || k + h.length <= j {
      if j <= k < j + heads[j].length {
        assert At(heads, k) == None;
        AtIs(heads, j, k);
        assert false;
      } else if k <= j < k + h.length {
        assert At(heads, j) == None;
        AtIs(heads, j, j);
        assert false;
      }
    }
  }

  lemma NewIo(heads: Heads, k: nat, len: nat, state: HeadState, ios: Requests, queued: set<nat>, next: nat, epoch: nat)
    requires IoOk(heads, ios, queued, next, epoch) && (state.Missing? || state.Clean?)
    ensures IoOk(heads[k := NewHead(len, state)], ios, queued, next, epoch)
  {
  }
}
