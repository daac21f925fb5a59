/** The buffer heads of an object: runs of cached blocks with a state, a version and contents
    (src/ebofs/BufferCache.h). */
module BufferHeads {
  import opened Extents
  import opened CacheCoherence
  import PartialBlocks

  /** `data` is empty (a hole, or not loaded) or holds every block; `patch` is the content of a
      partial head; `tx` and `rx` name the last write and read that were queued for it. */
  datatype BufferHead = BufferHead(length: nat, state: HeadState, version: nat, flushed: nat, epoch: nat,
                                   tx: nat, rx: nat, data: seq<Bytes>, patch: PartialBlocks.Patch)

  type Heads = map<nat, BufferHead>

  /** What the cache knows of one block. */
  datatype Info = Info(state: HeadState, version: nat, epoch: nat, bytes: Option<Bytes>, patch: PartialBlocks.Patch)

  function InfoIn(h: BufferHead, j: nat): Info {
    Info(h.state, h.version, h.epoch, if j < |h.data| then Some(h.data[j]) else None, h.patch)
  }

  ghost predicate Holds(heads: Heads, k: nat, i: nat) {
    k in heads && k <= i < k + heads[k].length
  }

  ghost function At(heads: Heads, i: nat): Option<Info> {
    if exists k: nat :: Holds(heads, k, i) then
      var k: nat :| Holds(heads, k, i);
      Some(InfoIn(heads[k], i - k))
    else None
  }

  ghost predicate GoodHead(h: BufferHead) {
    && h.length > 0 && (|h.data| == 0 || |h.data| == h.length)
    && (h.state.Partial? ==> h.length == 1)
    && (!h.state.Partial? ==> h.patch == map[])
  }

  ghost predicate AllGood(heads: Heads) {
    forall k :: k in heads ==> GoodHead(heads[k])
  }

  ghost predicate Apart(heads: Heads) {
    forall j, k :: j in heads && k in heads && j < k ==> j + heads[j].length <= k
  }

  lemma AtIs(heads: Heads, k: nat, i: nat)
    requires Apart(heads) && Holds(heads, k, i)
    ensures At(heads, i) == Some(InfoIn(heads[k], i - k))
  {
    forall j: nat | Holds(heads, j, i) ensures j == k {
      if j < k {
        assert false;
      } else if k < j {
        assert false;
      }
    }
  }

  lemma NobodyAt(heads: Heads, i: nat)
    requires forall k: nat :: !Holds(heads, k, i)
    ensures At(heads, i) == None
  {
  }

  // ---- the totals of the cache ----

  datatype Stats = Stats(all: int, missing: int, clean: int, dirty: int, tx: int, rx: int, partial: int, corrupt: int)

  function Stat(s: Stats, st: HeadState): int {
    match st
    case Missing => s.missing
    case Clean => s.clean
    case Dirty => s.dirty
    case Tx => s.tx
    case Rx => s.rx
    case Partial => s.partial
    case Corrupt => s.corrupt
  }

  function Plus(s: Stats, st: HeadState, n: int): Stats {
    var t := s.(all := s.all + n);
    match st
    case Missing => t.(missing := t.missing + n)
    case Clean => t.(clean := t.clean + n)
    case Dirty => t.(dirty := t.dirty + n)
    case Tx => t.(tx := t.tx + n)
    case Rx => t.(rx := t.rx + n)
    case Partial => t.(partial := t.partial + n)
    case Corrupt => t.(corrupt := t.corrupt + n)
  }

  function Minus(s: Stats, st: HeadState, n: int): Stats {
    Plus(s, st, 0 - n)
  }

  /** The runs of the heads, and of those in one state. */
  ghost function Lens(heads: Heads): Runs {
    map k | k in heads :: heads[k].length
  }

  ghost function Of(heads: Heads, st: HeadState): Runs {
    map k | k in heads && heads[k].state == st :: heads[k].length
  }

  /** Each counter is the number of blocks in its state, and `all` the number of cached blocks. */
  ghost predicate Counts(heads: Heads, s: Stats) {
    s.all == Size(Lens(heads)) && forall st: HeadState :: Stat(s, st) == Size(Of(heads, st))
  }

  /** The blocks in the seven states are the cached blocks. */
  ghost predicate Summed(s: Stats) {
    s.missing + s.clean + s.dirty + s.tx + s.rx + s.partial + s.corrupt == s.all
  }

  lemma PlusStat(s: Stats, st: HeadState, n: int, su: HeadState)
    ensures Stat(Plus(s, st, n), su) == Stat(s, su) + (if su == st then n else 0)
    ensures Plus(s, st, n).all == s.all + n
    ensures Summed(s) ==> Summed(Plus(s, st, n))
  {
  }

  lemma LensDisjoint(heads: Heads)
    requires Apart(heads) && AllGood(heads)
    ensures Disjoint(Lens(heads)) && forall st :: Disjoint(Of(heads, st))
  {
  }

  /** A run that is apart from all others adds its length. */
  lemma SizeOfNew(m: Runs, k: nat, len: nat)
    requires k !in m && Disjoint(m[k := len])
    ensures Size(m[k := len]) == Size(m) + len
  {
    assert m[k := len] - {k} == m;
    BlocksRemoveSize(m[k := len], k);
  }

  lemma OfIs(heads: Heads, k: nat, h: BufferHead, st: HeadState)
    requires k !in heads
    ensures Of(heads[k := h], st) == if h.state == st then Of(heads, st)[k := h.length] else Of(heads, st)
    ensures k !in Of(heads, st)
  {
  }

  lemma LensIs(heads: Heads, k: nat, h: BufferHead)
    requires k !in heads
    ensures Lens(heads[k := h]) == Lens(heads)[k := h.length] && k !in Lens(heads)
  {
  }

  lemma OfInsert(heads: Heads, k: nat, h: BufferHead, st: HeadState)
    requires k !in heads && Apart(heads[k := h]) && AllGood(heads[k := h])
    ensures Size(Of(heads[k := h], st)) == Size(Of(heads, st)) + if h.state == st then h.length else 0
    ensures Size(Lens(heads[k := h])) == Size(Lens(heads)) + h.length
  {
    hide *;
    LensDisjoint(heads[k := h]);
    LensIs(heads, k, h);
    SizeOfNew(Lens(heads), k, h.length);
    OfIs(heads, k, h, st);
    if h.state == st {
      SizeOfNew(Of(heads, st), k, h.length);
    }
  }

  lemma CountInsert(heads: Heads, s: Stats, k: nat, h: BufferHead)
    requires Counts(heads, s) && k !in heads
    requires Apart(heads[k := h]) && AllGood(heads[k := h])
    ensures Counts(heads[k := h], Plus(s, h.state, h.length))
  {
    PlusStat(s, h.state, h.length, h.state);
    OfInsert(heads, k, h, h.state);
    forall st: HeadState ensures Stat(Plus(s, h.state, h.length), st) == Size(Of(heads[k := h], st)) {
      PlusStat(s, h.state, h.length, st);
      OfInsert(heads, k, h, st);
      assert Stat(s, st) == Size(Of(heads, st));
    }
  }

  lemma CountRemove(heads: Heads, s: Stats, k: nat)
    requires Counts(heads, s) && k in heads && Apart(heads) && AllGood(heads)
    ensures Counts(heads - {k}, Minus(s, heads[k].state, heads[k].length))
  {
    hide Of;
    var h := heads[k];
    var t := heads - {k};
    assert t[k := h] == heads;
    hide Apart;
    hide AllGood;
    PlusStat(s, h.state, 0 - h.length, h.state);
    OfInsert(t, k, h, h.state);
    forall st: HeadState ensures Stat(Minus(s, h.state, h.length), st) == Size(Of(t, st)) {
      PlusStat(s, h.state, 0 - h.length, st);
      OfInsert(t, k, h, st);
      assert Stat(s, st) == Size(Of(heads, st));
    }
  }

  /** Replacing a head by one that is not longer. */
  lemma CountReplace(heads: Heads, s: Stats, k: nat, h: BufferHead)
    requires Counts(heads, s) && k in heads && Apart(heads) && AllGood(heads)
    requires GoodHead(h) && h.length <= heads[k].length
    ensures Apart(heads[k := h]) && AllGood(heads[k := h])
    ensures Counts(heads[k := h], Plus(Minus(s, heads[k].state, heads[k].length), h.state, h.length))
  {
    hide GoodHead;
    assert (heads - {k})[k := h] == heads[k := h];
    hide Counts;
    hide Minus;
    hide Plus;
    CountRemove(heads, s, k);
    CountInsert(heads - {k}, Minus(s, heads[k].state, heads[k].length), k, h);
  }

  // ---- splitting and merging ----

  function LeftPart(h: BufferHead, n: nat): BufferHead
    requires n <= h.length
  {
    h.(length := n, data := if n <= |h.data| then h.data[..n] else [])
  }

  function RightPart(h: BufferHead, n: nat): BufferHead
    requires n <= h.length
  {
    h.(length := h.length - n, tx := 0, rx := 0, data := if n <= |h.data| then h.data[n..] else [], patch := map[])
  }

  function SplitAt(heads: Heads, k: nat, after: nat): Heads
    requires k in heads && k < after < k + heads[k].length
  {
    heads[k := LeftPart(heads[k], after - k)][after := RightPart(heads[k], after - k)]
  }

  /** Every block looks as it did. */
  ghost predicate SameView(heads: Heads, heads': Heads) {
    forall i: nat {:trigger At(heads', i)} :: At(heads', i) == At(heads, i)
  }

  lemma SplitShape(heads: Heads, k: nat, after: nat)
    requires Apart(heads) && AllGood(heads) && k in heads && k < after < k + heads[k].length
    ensures after !in heads
    ensures Apart(SplitAt(heads, k, after)) && AllGood(SplitAt(heads, k, after))
  {
    var r := SplitAt(heads, k, after);
    forall i, j | i in r && j in r && i < j ensures i + r[i].length <= j {
      assert i == after || i in heads;
      assert j == after || j in heads;
    }
  }

  lemma SplitParts(h: BufferHead, n: nat)
    requires GoodHead(h) && 0 < n < h.length
    ensures forall j: nat {:trigger InfoIn(h, j)} :: j < n ==> InfoIn(LeftPart(h, n), j) == InfoIn(h, j)
    ensures forall j: nat {:trigger InfoIn(h, j)} :: n <= j < h.length ==> InfoIn(RightPart(h, n), j - n) == InfoIn(h, j)
  {
  }

  lemma SplitHolder(heads: Heads, k: nat, after: nat, h: nat, i: nat)
    requires Apart(heads) && AllGood(heads) && k in heads && k < after < k + heads[k].length
    requires after !in heads && Holds(heads, h, i)
    ensures var g := if h == k && after <= i then after else h;
            Holds(SplitAt(heads, k, after), g, i) && InfoIn(SplitAt(heads, k, after)[g], i - g) == InfoIn(heads[h], i - h)
  {
    SplitParts(heads[k], after - k);
    hide InfoIn;
  }

  lemma SplitNothing(heads: Heads, k: nat, after: nat, h: nat, i: nat)
    requires k in heads && k < after < k + heads[k].length
    requires Holds(SplitAt(heads, k, after), h, i)
    ensures Holds(heads, if h == after then k else h, i)
  {
  }

  lemma SplitView(heads: Heads, k: nat, after: nat)
    requires Apart(heads) && AllGood(heads) && k in heads && k < after < k + heads[k].length
    ensures SameView(heads, SplitAt(heads, k, after))
  {
    hide InfoIn;
    hide SplitAt;
    hide Holds;
    SplitShape(heads, k, after);
    var r := SplitAt(heads, k, after);
    forall i: nat ensures At(r, i) == At(heads, i) {
      if h: nat :| Holds(heads, h, i) {
        SplitHolder(heads, k, after, h, i);
        AtIs(heads, h, i);
        AtIs(r, if h == k && after <= i then after else h, i);
      } else if h: nat :| Holds(r, h, i) {
        SplitNothing(heads, k, after, h, i);
      }
    }
  }

  lemma SplitCounts(heads: Heads, s: Stats, k: nat, after: nat)
    requires Apart(heads) && AllGood(heads) && k in heads && k < after < k + heads[k].length
    requires Counts(heads, s)
    ensures var h := heads[k];
            Counts(SplitAt(heads, k, after),
                   Plus(Minus(Plus(s, h.state, h.length - (after - k)), h.state, h.length), h.state, after - k))
  {
    hide Counts;
    SplitShape(heads, k, after);
    var h := heads[k];
    var left := LeftPart(h, after - k);
    assert GoodHead(left);
    hide Apart;
    hide AllGood;
    hide GoodHead;
    CountReplace(heads, s, k, left);
    CountInsert(heads[k := left], Plus(Minus(s, h.state, h.length), h.state, after - k), after, RightPart(h, after - k));
    SameSum(s, h.state, h.length - (after - k), h.length, after - k);
  }

  lemma SameSum(s: Stats, st: HeadState, a: int, b: int, c: int)
    ensures Plus(Minus(Plus(s, st, a), st, b), st, c) == Plus(Plus(Minus(s, st, b), st, c), st, a)
  {
  }

  /** The head after k, taken into k. */
  function Merged(l: BufferHead, r: BufferHead): BufferHead {
    l.(length := l.length + r.length, data := l.data + r.data,
       version := if r.version > l.version then r.version else l.version,
       flushed := if r.flushed > l.flushed then r.flushed else l.flushed)
  }

  lemma MergeParts(l: BufferHead, r: BufferHead, j: nat)
    requires GoodHead(l) && GoodHead(r) && l.state.Clean? && r.state.Clean? && |l.data| > 0 && |r.data| > 0
    requires j < l.length + r.length
    ensures Similar(Some(InfoIn(Merged(l, r), j)), Some(if j < l.length then InfoIn(l, j) else InfoIn(r, j - l.length)))
  {
  }

  /** The same, except for the version and the epoch of a clean block. */
  ghost predicate Similar(a: Option<Info>, b: Option<Info>) {
    a == b || (a.Some? && b.Some? && a.value.state.Clean? && b.value.state.Clean? && a.value.bytes == b.value.bytes)
  }

  ghost predicate SimilarView(heads: Heads, heads': Heads) {
    forall i: nat {:trigger At(heads', i)} :: Similar(At(heads', i), At(heads, i))
  }

  ghost predicate Mergeable(heads: Heads, k: nat, r: nat) {
    && k in heads && r in heads && r == k + heads[k].length
    && heads[k].state.Clean? && |heads[k].data| > 0 && heads[r].state.Clean? && |heads[r].data| > 0
  }

  ghost function MergeAt(heads: Heads, k: nat, r: nat): Heads
    requires k in heads && r in heads
  {
    (heads - {r})[k := Merged(heads[k], heads[r])]
  }

  lemma MergeShape(heads: Heads, k: nat, r: nat)
    requires Apart(heads) && AllGood(heads) && Mergeable(heads, k, r)
    ensures Apart(MergeAt(heads, k, r)) && AllGood(MergeAt(heads, k, r)) && k < r
  {
    assert GoodHead(heads[k]) && GoodHead(heads[r]);
  }

  lemma MergeView(heads: Heads, k: nat, r: nat)
    requires Apart(heads) && AllGood(heads) && Mergeable(heads, k, r)
    ensures SimilarView(heads, MergeAt(heads, k, r))
    ensures SameOutside(heads, MergeAt(heads, k, r), k, r + heads[r].length)
  {
    MergeShape(heads, k, r);
    assert GoodHead(heads[k]) && GoodHead(heads[r]);
    hide *;
    var m := MergeAt(heads, k, r);
    forall i: nat ensures Similar(At(m, i), At(heads, i))
                  ensures i < k || r + heads[r].length <= i ==> At(m, i) == At(heads, i) {
      MergeViewAt(heads, k, r, i);
    }
  }

  ghost predicate SameOutside(heads: Heads, heads': Heads, lo: nat, hi: nat) {
    forall i: nat {:trigger At(heads', i)} :: i < lo || hi <= i ==> At(heads', i) == At(heads, i)
  }

  lemma MergeViewAt(heads: Heads, k: nat, r: nat, i: nat)
    requires Apart(heads) && Mergeable(heads, k, r) && Apart(MergeAt(heads, k, r))
    requires GoodHead(heads[k]) && GoodHead(heads[r])
    ensures Similar(At(MergeAt(heads, k, r), i), At(heads, i))
    ensures i < k || r + heads[r].length <= i ==> At(MergeAt(heads, k, r), i) == At(heads, i)
  {
    hide GoodHead;
    hide InfoIn;
    hide At;
    var m := MergeAt(heads, k, r);
    if h: nat :| Holds(heads, h, i) {
      AtIs(heads, h, i);
      MergedHolder(heads, k, r, h, i);
    } else {
      assert forall h: nat :: Holds(m, h, i) ==> Holds(heads, h, i) || Holds(heads, r, i);
      NobodyAt(heads, i);
      NobodyAt(m, i);
    }
  }

  lemma MergedHolder(heads: Heads, k: nat, r: nat, h: nat, i: nat)
    requires Apart(heads) && Mergeable(heads, k, r) && Apart(MergeAt(heads, k, r))
    requires GoodHead(heads[k]) && GoodHead(heads[r]) && Holds(heads, h, i)
    ensures Similar(At(MergeAt(heads, k, r), i), Some(InfoIn(heads[h], i - h)))
    ensures h != k && h != r ==> At(MergeAt(heads, k, r), i) == Some(InfoIn(heads[h], i - h))
    ensures i < k || r + heads[r].length <= i ==> h != k && h != r
  {
    hide GoodHead;
    hide InfoIn;
    hide At;
    var m := MergeAt(heads, k, r);
    var g := if h == r then k else h;
    assert Holds(m, g, i);
    AtIs(m, g, i);
    if g == k {
      MergeParts(heads[k], heads[r], i - k);
    }
  }

  lemma MergeCounts(heads: Heads, s: Stats, k: nat, r: nat)
    requires Apart(heads) && AllGood(heads) && Mergeable(heads, k, r) && Counts(heads, s)
    ensures var l, g := heads[k].length, heads[r].length;
            Counts(MergeAt(heads, k, r), Minus(Plus(Minus(s, Clean, l), Clean, l + g), Clean, g))
  {
    var l, g := heads[k].length, heads[r].length;
    MergeShape(heads, k, r);
    MergeFromParts(heads, k, r);
    MergeSum(s, l, g);
    hide Counts;
    hide Plus;
    hide Minus;
    hide Apart;
    hide AllGood;
    hide Mergeable;
    hide MergeAt;
    hide Merged;
    CountRemoveBoth(heads, s, k, r);
    CountInsert(heads - {k} - {r}, Minus(Minus(s, Clean, l), Clean, g), k, Merged(heads[k], heads[r]));
  }

  /** The merged heads are the others and one more. */
  lemma MergeFromParts(heads: Heads, k: nat, r: nat)
    requires Mergeable(heads, k, r) && k < r
    ensures var rest := heads - {k} - {r};
            && k !in rest && rest[k := Merged(heads[k], heads[r])] == MergeAt(heads, k, r)
            && Merged(heads[k], heads[r]).state == Clean
            && Merged(heads[k], heads[r]).length == heads[k].length + heads[r].length
  {
  }

  lemma CountRemoveBoth(heads: Heads, s: Stats, k: nat, r: nat)
    requires Apart(heads) && AllGood(heads) && Mergeable(heads, k, r) && k < r && Counts(heads, s)
    ensures Counts(heads - {k} - {r}, Minus(Minus(s, Clean, heads[k].length), Clean, heads[r].length))
  {
    hide Counts;
    hide Minus;
    hide GoodHead;
    CountRemove(heads, s, k);
    CountRemove(heads - {k}, Minus(s, Clean, heads[k].length), r);
  }

  lemma MergeSum(s: Stats, l: int, g: int)
    ensures Plus(Minus(Minus(s, Clean, l), Clean, g), Clean, l + g) == Minus(Plus(Minus(s, Clean, l), Clean, l + g), Clean, g)
  {
  }

  // ---- one head changes, comes or goes ----

  lemma PutView(heads: Heads, k: nat, h: BufferHead)
    requires Apart(heads) && Apart(heads[k := h]) && AllGood(heads)
    requires k in heads ==> h.length == heads[k].length
    ensures forall i: nat {:trigger At(heads[k := h], i)} {:trigger At(heads, i)} ::
              At(heads[k := h], i) == if k <= i < k + h.length then Some(InfoIn(h, i - k)) else At(heads, i)
  {
    hide InfoIn;
    hide GoodHead;
    var m := heads[k := h];
    forall i: nat ensures At(m, i) == if k <= i < k + h.length then Some(InfoIn(h, i - k)) else At(heads, i) {
      if Holds(m, k, i) {
        AtIs(m, k, i);
      } else if g: nat :| Holds(heads, g, i) {
        assert Holds(m, g, i);
        AtIs(heads, g, i);
        AtIs(m, g, i);
      } else {
        assert forall g: nat :: Holds(m, g, i) ==> g == k || Holds(heads, g, i);
      }
    }
  }

  lemma RemoveView(heads: Heads, k: nat)
    requires Apart(heads) && k in heads
    ensures forall i: nat {:trigger At(heads - {k}, i)} {:trigger At(heads, i)} ::
              At(heads - {k}, i) == if k <= i < k + heads[k].length then None else At(heads, i)
  {
    hide InfoIn;
    var m := heads - {k};
    forall i: nat ensures At(m, i) == if k <= i < k + heads[k].length then None else At(heads, i) {
      if g: nat :| Holds(m, g, i) {
        assert Holds(heads, g, i);
        AtIs(heads, g, i);
        AtIs(m, g, i);
      } else if g: nat :| Holds(heads, g, i) {
        assert g == k || Holds(m, g, i);
      }
    }
  }

  // ---- looking up ----

  /** The head that contains block pos, or else the next one. */
  ghost predicate IsFirst(heads: Heads, pos: nat, p: Option<nat>) {
    && (p.Some? ==> p.value in heads && pos < p.value + heads[p.value].length)
    && (forall j :: j in heads && (p.Some? ==> j < p.value) ==> j + heads[j].length <= pos)
  }

  lemma FirstUnique(heads: Heads, pos: nat, p: Option<nat>, q: Option<nat>)
    requires Apart(heads) && AllGood(heads) && IsFirst(heads, pos, p) && IsFirst(heads, pos, q)
    ensures p == q
  {
  }
}
