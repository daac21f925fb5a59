/** The reads and writes that buffer heads have in flight: which of them may be cancelled, and why
    cancelling one loses nothing (src/ebofs/BufferCache.cc:1057-1169). */
module CacheRequests {
  import opened Extents
  import opened CacheCoherence
  import opened BufferHeads

  datatype Request =
    | ReadOf(start: nat, length: nat)
    | WriteOf(start: nat, length: nat, version: nat, epoch: nat, data: seq<Bytes>)

  type Requests = map<nat, Request>

  /** A write in flight that carries all of head k, in its current version. */
  ghost predicate Writes(r: Request, k: nat, h: BufferHead) {
    r.WriteOf? && r.start <= k && k + h.length <= r.start + r.length && |r.data| == r.length
    && r.version == h.version && r.data[k - r.start..k - r.start + h.length] == h.data
  }

  ghost predicate Reads(r: Request, k: nat, h: BufferHead) {
    r.ReadOf? && r.start <= k && k + h.length <= r.start + r.length
  }

  /** A head that waits for the device has a request in flight. If the request is still queued (for
      a write: one of this epoch), it is for exactly this head. */
  ghost predicate HeadOk(k: nat, h: BufferHead, ios: Requests, queued: set<nat>, epoch: nat) {
    && (h.state.Tx? ==> exists id: nat :: id in ios && Writes(ios[id], k, h))
    && (h.state.Rx? ==> exists id: nat :: id in ios && Reads(ios[id], k, h))
    && (Cancellable(h, queued, epoch) ==> h.tx in ios && ios[h.tx] == WriteOf(k, h.length, h.version, h.epoch, h.data))
    && (Unread(h, queued) ==> h.rx in ios && ios[h.rx] == ReadOf(k, h.length))
  }

  ghost predicate Cancellable(h: BufferHead, queued: set<nat>, epoch: nat) {
    h.state.Tx? && h.tx in queued && h.epoch == epoch
  }

  ghost predicate Unread(h: BufferHead, queued: set<nat>) {
    h.state.Rx? && h.rx in queued
  }

  ghost predicate IoOk(heads: Heads, ios: Requests, queued: set<nat>, next: nat, epoch: nat) {
    && queued <= ios.Keys && 0 < next
    && (forall id :: id in ios ==> 0 < id < next)
    && (forall k :: k in heads ==> heads[k].tx < next && heads[k].rx < next)
    && forall k :: k in heads ==> HeadOk(k, heads[k], ios, queued, epoch)
  }

  // ---- what each operation does to the requests ----

  lemma IoPut(heads: Heads, k: nat, h: BufferHead, ios: Requests, queued: set<nat>, next: nat, epoch: nat)
    requires IoOk(heads, ios, queued, next, epoch) && HeadOk(k, h, ios, queued, epoch) && h.tx < next && h.rx < next
    ensures IoOk(heads[k := h], ios, queued, next, epoch)
  {
    hide HeadOk;
  }

  lemma IoAdd(heads: Heads, ios: Requests, queued: set<nat>, next: nat, epoch: nat, r: Request)
    requires IoOk(heads, ios, queued, next, epoch)
    ensures IoOk(heads, ios[next := r], queued + {next}, next + 1, epoch)
  {
    hide HeadOk;
    forall k | k in heads ensures HeadOk(k, heads[k], ios[next := r], queued + {next}, epoch) {
      MoreIos(k, heads[k], ios, queued, epoch, next, r);
    }
  }

  lemma IoDrop(heads: Heads, k: nat, ios: Requests, queued: set<nat>, next: nat, epoch: nat, id: nat)
    requires IoOk(heads, ios, queued, next, epoch) && Apart(heads) && AllGood(heads) && k in heads
    requires id in ios && ios[id].start == k && ios[id].length == heads[k].length
    ensures IoOk(heads - {k}, ios - {id}, queued - {id}, next, epoch)
  {
    hide HeadOk;
    forall j | j in heads - {k} ensures HeadOk(j, heads[j], ios - {id}, queued - {id}, epoch) {
      FewerIos(j, heads[j], k, heads[k], ios, queued, epoch, id);
    }
  }

  lemma IoSplit(heads: Heads, k: nat, after: nat, ios: Requests, queued: set<nat>, next: nat, epoch: nat)
    requires IoOk(heads, ios, queued, next, epoch) && AllGood(heads)
    requires k in heads && k < after < k + heads[k].length
    requires !Cancellable(heads[k], queued, epoch) && !Unread(heads[k], queued)
    ensures IoOk(SplitAt(heads, k, after), ios, queued, next, epoch)
  {
    hide HeadOk;
    SplitOk(k, heads[k], after - k, ios, queued, epoch);
    IoPut(heads, k, LeftPart(heads[k], after - k), ios, queued, next, epoch);
    IoPut(heads[k := LeftPart(heads[k], after - k)], after, RightPart(heads[k], after - k), ios, queued, next, epoch);
  }

  /** A new request changes nothing for the heads that do not name it. */
  lemma MoreIos(k: nat, h: BufferHead, ios: Requests, queued: set<nat>, epoch: nat, id: nat, r: Request)
    requires HeadOk(k, h, ios, queued, epoch) && id !in ios && queued <= ios.Keys
    requires h.tx != id && h.rx != id
    ensures HeadOk(k, h, ios[id := r], queued + {id}, epoch)
  {
    if h.state.Tx? {
      var j: nat :| j in ios && Writes(ios[j], k, h);
      assert j in ios[id := r] && Writes(ios[id := r][j], k, h);
    }
    if h.state.Rx? {
      var j: nat :| j in ios && Reads(ios[j], k, h);
      assert j in ios[id := r] && Reads(ios[id := r][j], k, h);
    }
  }

  /** Without the request of one head, every other head still has its own. */
  lemma FewerIos(j: nat, g: BufferHead, k: nat, h: BufferHead, ios: Requests, queued: set<nat>, epoch: nat, id: nat)
    requires HeadOk(j, g, ios, queued, epoch) && GoodHead(g) && id in ios
    requires j + g.length <= k || k + h.length <= j
    requires ios[id].start == k && ios[id].length == h.length
    ensures HeadOk(j, g, ios - {id}, queued - {id}, epoch)
  {
    if g.state.Tx? {
      var w: nat :| w in ios && Writes(ios[w], j, g);
      assert w != id;
      assert w in ios - {id} && Writes((ios - {id})[w], j, g);
    }
    if g.state.Rx? {
      var w: nat :| w in ios && Reads(ios[w], j, g);
      assert w != id;
      assert w in ios - {id} && Reads((ios - {id})[w], j, g);
    }
  }

  /** Both parts of a head whose request is no longer queued. */
  lemma SplitOk(k: nat, h: BufferHead, n: nat, ios: Requests, queued: set<nat>, epoch: nat)
    requires HeadOk(k, h, ios, queued, epoch) && GoodHead(h) && 0 < n < h.length && 0 !in queued
    requires !Cancellable(h, queued, epoch) && !Unread(h, queued)
    ensures HeadOk(k, LeftPart(h, n), ios, queued, epoch)
    ensures HeadOk(k + n, RightPart(h, n), ios, queued, epoch)
  {
    if h.state.Tx? {
      var w: nat :| w in ios && Writes(ios[w], k, h);
      SplitWrites(ios[w], k, h, n);
    }
    if h.state.Rx? {
      var w: nat :| w in ios && Reads(ios[w], k, h);
      assert Reads(ios[w], k, LeftPart(h, n)) && Reads(ios[w], k + n, RightPart(h, n));
    }
  }

  lemma SplitWrites(r: Request, k: nat, h: BufferHead, n: nat)
    requires Writes(r, k, h) && GoodHead(h) && 0 < n < h.length
    ensures Writes(r, k, LeftPart(h, n)) && Writes(r, k + n, RightPart(h, n))
  {
    var a := k - r.start;
    var d := r.data[a..a + h.length];
    assert h.data == d;
    assert d[..n] == r.data[a..a + n];
    assert d[n..] == r.data[a + n..a + h.length];
  }

  // ---- how an operation on a range of blocks changes the requests ----

  /** r is for some of the blocks of s, and for nothing else. */
  ghost predicate PartOf(r: Request, s: Request) {
    && s.start <= r.start && r.start + r.length <= s.start + s.length
    && match r
       case ReadOf(_, _) => s.ReadOf?
       case WriteOf(start, n, version, epoch, data) =>
         && s.WriteOf? && s.version == version && s.epoch == epoch && |s.data| == s.length
         && data == s.data[start - s.start..start - s.start + n]
  }

  ghost predicate Touches(r: Request, lo: nat, hi: nat) {
    r.start < hi && lo < r.start + r.length
  }

  ghost predicate Replaces(r: Request, j: nat, ios: Requests, ios': Requests) {
    j in ios && j !in ios' && PartOf(r, ios[j])
  }

  /** An old request stays as it is, or it was still queued, is for blocks of [lo, hi), and is gone. */
  ghost predicate Kept(id: nat, ios: Requests, queued: set<nat>, ios': Requests, queued': set<nat>, lo: nat, hi: nat) {
    id in ios ==>
      if id in ios' then ios'[id] == ios[id] && (id in queued' <==> id in queued)
      else id in queued && Touches(ios[id], lo, hi)
  }

  /** A new request is queued, and is for a part of one that is gone. */
  ghost predicate Repeats(id: nat, ios: Requests, next: nat, ios': Requests, queued': set<nat>) {
    id in ios' && id !in ios ==> next <= id && id in queued' && exists j: nat :: Replaces(ios'[id], j, ios, ios')
  }

  ghost predicate AllKept(ios: Requests, queued: set<nat>, ios': Requests, queued': set<nat>, lo: nat, hi: nat) {
    forall id: nat {:trigger id in ios'} :: Kept(id, ios, queued, ios', queued', lo, hi)
  }

  /** Only queued requests for blocks of [lo, hi) were taken back, and what is new repeats parts of them. */
  ghost predicate Rearranged(ios: Requests, queued: set<nat>, next: nat, ios': Requests, queued': set<nat>, next': nat,
                             lo: nat, hi: nat) {
    && next <= next'
    && AllKept(ios, queued, ios', queued', lo, hi)
    && (forall id: nat {:trigger id in ios'} :: Repeats(id, ios, next, ios', queued'))
  }

  ghost predicate Below(ios: Requests, next: nat) {
    forall id :: id in ios ==> id < next
  }

  lemma NotRearranged(ios: Requests, queued: set<nat>, next: nat, lo: nat, hi: nat)
    ensures Rearranged(ios, queued, next, ios, queued, next, lo, hi)
  {
    forall id: nat ensures Kept(id, ios, queued, ios, queued, lo, hi) && Repeats(id, ios, next, ios, queued) {
    }
  }

  lemma PartOfPart(r: Request, s: Request, t: Request)
    requires PartOf(r, s) && PartOf(s, t)
    ensures PartOf(r, t)
  {
    if r.WriteOf? {
      var a, b := r.start - s.start, s.start - t.start;
      assert |s.data| == s.length;
      assert s.data[a..a + r.length] == t.data[b + a..b + a + r.length];
    }
  }

  lemma KeptTwice(id: nat, i0: Requests, q0: set<nat>, n0: nat, i1: Requests, q1: set<nat>, n1: nat,
                  i2: Requests, q2: set<nat>, n2: nat, lo: nat, hi: nat)
    requires Rearranged(i0, q0, n0, i1, q1, n1, lo, hi) && Rearranged(i1, q1, n1, i2, q2, n2, lo, hi)
    requires Below(i0, n0)
    ensures Kept(id, i0, q0, i2, q2, lo, hi)
  {
    hide PartOf;
    hide Rearranged;
    AreKept(id, i0, q0, n0, i1, q1, n1, lo, hi);
    AreKept(id, i1, q1, n1, i2, q2, n2, lo, hi);
  }

  lemma RepeatsTwice(id: nat, i0: Requests, q0: set<nat>, n0: nat, i1: Requests, q1: set<nat>, n1: nat,
                   i2: Requests, q2: set<nat>, n2: nat, lo: nat, hi: nat)
    requires Rearranged(i0, q0, n0, i1, q1, n1, lo, hi) && Rearranged(i1, q1, n1, i2, q2, n2, lo, hi)
    requires Below(i0, n0) && id in i2 && id !in i0
    ensures Repeats(id, i0, n0, i2, q2)
  {
    hide PartOf;
    hide Touches;
    hide Rearranged;
    var r := i2[id];
    AreKept(id, i1, q1, n1, i2, q2, n2, lo, hi);
    AreKept(id, i0, q0, n0, i1, q1, n1, lo, hi);
    if id in i1 {
      var j: nat :| Replaces(r, j, i0, i1);
      StaysGone(j, i0, n0, i1, q1, n1, i2, q2, n2, lo, hi);
      assert Replaces(r, j, i0, i2);
    } else {
      var m: nat :| Replaces(r, m, i1, i2);
      AreKept(m, i0, q0, n0, i1, q1, n1, lo, hi);
      if m in i0 {
        assert Replaces(r, m, i0, i2);
      } else {
        var j: nat :| Replaces(i1[m], j, i0, i1);
        PartOfPart(r, i1[m], i0[j]);
        StaysGone(j, i0, n0, i1, q1, n1, i2, q2, n2, lo, hi);
        assert Replaces(r, j, i0, i2);
      }
    }
  }

  lemma AreKept(id: nat, ios: Requests, queued: set<nat>, next: nat, ios': Requests, queued': set<nat>, next': nat,
                lo: nat, hi: nat)
    requires Rearranged(ios, queued, next, ios', queued', next', lo, hi)
    ensures Kept(id, ios, queued, ios', queued', lo, hi) && Repeats(id, ios, next, ios', queued') && next <= next'
  {
  }

  lemma StaysGone(j: nat, i0: Requests, n0: nat, i1: Requests, q1: set<nat>, n1: nat, i2: Requests, q2: set<nat>,
                  n2: nat, lo: nat, hi: nat)
    requires Rearranged(i1, q1, n1, i2, q2, n2, lo, hi) && Below(i0, n0) && n0 <= n1 && j in i0 && j !in i1
    ensures j !in i2
  {
    AreKept(j, i1, q1, n1, i2, q2, n2, lo, hi);
  }

  lemma RearrangedTwice(i0: Requests, q0: set<nat>, n0: nat, i1: Requests, q1: set<nat>, n1: nat,
                        i2: Requests, q2: set<nat>, n2: nat, lo: nat, hi: nat)
    requires Rearranged(i0, q0, n0, i1, q1, n1, lo, hi) && Rearranged(i1, q1, n1, i2, q2, n2, lo, hi)
    requires Below(i0, n0)
    ensures Rearranged(i0, q0, n0, i2, q2, n2, lo, hi)
  {
    assert n0 <= n1 <= n2;
    hide Kept;
    hide Repeats;
    forall id: nat ensures Kept(id, i0, q0, i2, q2, lo, hi) && Repeats(id, i0, n0, i2, q2) {
      KeptTwice(id, i0, q0, n0, i1, q1, n1, i2, q2, n2, lo, hi);
      NewRepeats(id, i0, n0, i2, q2);
      if id in i2 && id !in i0 {
        RepeatsTwice(id, i0, q0, n0, i1, q1, n1, i2, q2, n2, lo, hi);
      }
    }
  }

  lemma RearrangedWider(ios: Requests, queued: set<nat>, next: nat, ios': Requests, queued': set<nat>, next': nat,
                        lo: nat, hi: nat, lo': nat, hi': nat)
    requires Rearranged(ios, queued, next, ios', queued', next', lo, hi) && lo' <= lo && hi <= hi'
    ensures Rearranged(ios, queued, next, ios', queued', next', lo', hi')
  {
    hide Repeats;
    forall id: nat ensures Kept(id, ios, queued, ios', queued', lo', hi') && Repeats(id, ios, next, ios', queued') {
      AreKept(id, ios, queued, next, ios', queued', next', lo, hi);
    }
  }

  /** One range after the other. */
  lemma RearrangedNext(i0: Requests, q0: set<nat>, n0: nat, i1: Requests, q1: set<nat>, n1: nat,
                       i2: Requests, q2: set<nat>, n2: nat, lo: nat, mid: nat, hi: nat)
    requires Rearranged(i0, q0, n0, i1, q1, n1, lo, mid) && Rearranged(i1, q1, n1, i2, q2, n2, mid, hi)
    requires lo <= mid <= hi && Below(i0, n0)
    ensures Rearranged(i0, q0, n0, i2, q2, n2, lo, hi)
  {
    hide *;
    RearrangedWider(i0, q0, n0, i1, q1, n1, lo, mid, lo, hi);
    RearrangedWider(i1, q1, n1, i2, q2, n2, mid, hi, lo, hi);
    RearrangedTwice(i0, q0, n0, i1, q1, n1, i2, q2, n2, lo, hi);
  }

  lemma NewRepeats(id: nat, ios: Requests, next: nat, ios': Requests, queued': set<nat>)
    ensures (id in ios' && id !in ios) || Repeats(id, ios, next, ios', queued')
  {
  }

  /** A request is taken back. */
  lemma TakenAway(id: nat, ios: Requests, queued: set<nat>, next: nat, lo: nat, hi: nat)
    requires id in ios && id in queued && Touches(ios[id], lo, hi)
    ensures Rearranged(ios, queued, next, ios - {id}, queued - {id}, next, lo, hi)
  {
    hide PartOf;
    hide Touches;
    forall j: nat
      ensures Kept(j, ios, queued, ios - {id}, queued - {id}, lo, hi) && Repeats(j, ios, next, ios - {id}, queued - {id})
    {
    }
  }

  /** A request is repeated for a part of what was taken back. */
  lemma PutBack(r: Request, j: nat, ios: Requests, queued: set<nat>, next: nat, ios': Requests, queued': set<nat>,
                next': nat, lo: nat, hi: nat)
    requires Rearranged(ios, queued, next, ios', queued', next', lo, hi) && Below(ios, next) && Below(ios', next')
    requires Replaces(r, j, ios, ios')
    ensures Rearranged(ios, queued, next, ios'[next' := r], queued' + {next'}, next' + 1, lo, hi)
  {
    hide PartOf;
    hide Touches;
    var more, all := ios'[next' := r], queued' + {next'};
    assert Replaces(r, j, ios, more);
    forall id: nat ensures Kept(id, ios, queued, more, all, lo, hi) && Repeats(id, ios, next, more, all) {
      AreKept(id, ios, queued, next, ios', queued', next', lo, hi);
      if id in ios' && id !in ios {
        var m: nat :| Replaces(ios'[id], m, ios, ios');
        assert Replaces(more[id], m, ios, more);
      }
    }
  }

  /** r writes a part of the new contents of the blocks from lo on. */
  ghost predicate WritesNew(r: Request, lo: nat, contents: seq<Bytes>, version: nat, epoch: nat) {
    && lo <= r.start && r.start + r.length <= lo + |contents|
    && r == WriteOf(r.start, r.length, version, epoch, contents[r.start - lo..r.start - lo + r.length])
  }

  ghost predicate Due(id: nat, ios: Requests, next: nat, ios': Requests, queued': set<nat>, lo: nat,
                      contents: seq<Bytes>, version: nat, epoch: nat) {
    id in ios' && id !in ios ==>
      && next <= id && id in queued'
      && (WritesNew(ios'[id], lo, contents, version, epoch) || exists j: nat :: Replaces(ios'[id], j, ios, ios'))
  }

  /** Of the requests that are new, each writes new contents, or repeats a part of one that was taken
      back for them. */
  ghost predicate Issued(ios: Requests, queued: set<nat>, next: nat, ios': Requests, queued': set<nat>, next': nat,
                         lo: nat, contents: seq<Bytes>, version: nat, epoch: nat) {
    && next <= next'
    && AllKept(ios, queued, ios', queued', lo, lo + |contents|)
    && (forall id: nat {:trigger id in ios'} :: Due(id, ios, next, ios', queued', lo, contents, version, epoch))
  }

  lemma IssuedStart(ios: Requests, queued: set<nat>, next: nat, ios': Requests, queued': set<nat>, next': nat,
                    lo: nat, contents: seq<Bytes>, version: nat, epoch: nat)
    requires Rearranged(ios, queued, next, ios', queued', next', lo, lo + |contents|)
    ensures Issued(ios, queued, next, ios', queued', next', lo, contents, version, epoch)
  {
    hide WritesNew;
    hide Replaces;
    hide Kept;
    forall id: nat ensures Due(id, ios, next, ios', queued', lo, contents, version, epoch) {
      AreKept(id, ios, queued, next, ios', queued', next', lo, lo + |contents|);
    }
  }

  lemma AreIssued(id: nat, ios: Requests, queued: set<nat>, next: nat, ios': Requests, queued': set<nat>, next': nat,
                  lo: nat, contents: seq<Bytes>, version: nat, epoch: nat)
    requires Issued(ios, queued, next, ios', queued', next', lo, contents, version, epoch)
    ensures Kept(id, ios, queued, ios', queued', lo, lo + |contents|) && next <= next'
    ensures Due(id, ios, next, ios', queued', lo, contents, version, epoch)
  {
  }

  lemma IssuedMore(r: Request, ios: Requests, queued: set<nat>, next: nat, ios': Requests, queued': set<nat>,
                   next': nat, lo: nat, contents: seq<Bytes>, version: nat, epoch: nat)
    requires Issued(ios, queued, next, ios', queued', next', lo, contents, version, epoch)
    requires Below(ios, next) && Below(ios', next') && WritesNew(r, lo, contents, version, epoch)
    ensures Issued(ios, queued, next, ios'[next' := r], queued' + {next'}, next' + 1, lo, contents, version, epoch)
  {
    hide PartOf;
    hide Touches;
    hide WritesNew;
    var more, all := ios'[next' := r], queued' + {next'};
    KeptMore(r, ios, queued, next, ios', queued', next', lo, lo + |contents|);
    forall id: nat ensures Due(id, ios, next, more, all, lo, contents, version, epoch) {
      AreIssued(id, ios, queued, next, ios', queued', next', lo, contents, version, epoch);
      if id in ios' && id !in ios && !WritesNew(ios'[id], lo, contents, version, epoch) {
        var m: nat :| Replaces(ios'[id], m, ios, ios');
        assert Replaces(more[id], m, ios, more);
      }
    }
  }

  lemma KeptMore(r: Request, ios: Requests, queued: set<nat>, next: nat, ios': Requests, queued': set<nat>,
                 next': nat, lo: nat, hi: nat)
    requires AllKept(ios, queued, ios', queued', lo, hi) && Below(ios, next) && next <= next'
    ensures AllKept(ios, queued, ios'[next' := r], queued' + {next'}, lo, hi)
  {
    hide Touches;
    var more, all := ios'[next' := r], queued' + {next'};
    forall id: nat ensures Kept(id, ios, queued, more, all, lo, hi) {
      assert id in ios' || id !in ios';
    }
  }
}
