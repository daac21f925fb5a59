/** Partial writes keep the invariant of the store, and read the bytes that they should. */
module StorePartials {
  import opened Extents
  import opened AllocatorSpec
  import opened PartialBlocks
  import opened InFlight
  import opened References
  import opened ObjectStore
  import opened StoreInvariant
  import opened StoreSteps

  /** Slot t waits for block `source` to be read, and will then hold `bytes`. */
  ghost function Pend(s: State, t: Slot, source: nat, patch: Patch, bytes: Bytes): State {
    s.(data := s.data[t := bytes], owed := s.owed - {t}, pending := s.pending[t := Pending(source, patch)])
  }

  ghost predicate Readable(s: State, t: Slot, source: nat, patch: Patch, bytes: Bytes) {
    && Quiet(s.ios, source) && OnDisk(s.disk, source).Data?
    && bytes == Overlay(OnDisk(s.disk, source).bytes, patch)
    && source !in s.space.free && source !in s.space.limboTab
    && OnlyAt(s.loc, s.uncommitted, source, t)
  }

  lemma PendParts(s: State, t: Slot, source: nat, patch: Patch, bytes: Bytes)
    requires Shape(s.objects, s.loc, s.data, s.image, s.dirty)
    requires Marks(s.loc, s.dirty, s.uncommitted, s.owed, s.pending.Keys)
    requires Coherent(s.disk, s.ios, s.loc, s.data, s.image, s.owed + s.pending.Keys)
    requires t in s.uncommitted
    ensures var r := Pend(s, t, source, patch, bytes);
            && Shape(r.objects, r.loc, r.data, r.image, r.dirty)
            && Marks(r.loc, r.dirty, r.uncommitted, r.owed, r.pending.Keys)
            && Coherent(r.disk, r.ios, r.loc, r.data, r.image, r.owed + r.pending.Keys)
  {
    hide Latest;
  }

  lemma PendPending(s: State, t: Slot, source: nat, patch: Patch, bytes: Bytes)
    requires PendingOk(s.disk, s.ios, s.pending, s.loc, s.data, s.uncommitted, s.space)
    requires Readable(s, t, source, patch, bytes)
    ensures var r := Pend(s, t, source, patch, bytes);
            PendingOk(r.disk, r.ios, r.pending, r.loc, r.data, r.uncommitted, r.space)
  {
    hide Quiet;
    hide Overlay;
    hide OnlyAt;
  }

  lemma PendKeeps(s: State, t: Slot, source: nat, patch: Patch, bytes: Bytes)
    requires Inv(s) && LockFree(s) && t in s.uncommitted
    requires Readable(s, t, source, patch, bytes)
    ensures Inv(Pend(s, t, source, patch, bytes))
  {
    PendParts(s, t, source, patch, bytes);
    PendPending(s, t, source, patch, bytes);
    SupersFrame(s, Pend(s, t, source, patch, bytes));
  }

  /** What a partial write is about to read is what the slot holds. */
  lemma Settled(s: State, t: Slot)
    requires Inv(s) && CanStartPartial(s, t)
    ensures t in s.data && OnDisk(s.disk, s.loc[t]) == Data(s.data[t])
    ensures s.loc[t] !in s.space.free && s.loc[t] !in s.space.limboTab
    ensures OnlyAt(s.loc, s.uncommitted, s.loc[t], t)
  {
    SettledContents(s, t);
    SettledPlace(s.space, s.loc, s.uncommitted, t);
  }

  lemma SettledContents(s: State, t: Slot)
    requires Shape(s.objects, s.loc, s.data, s.image, s.dirty)
    requires Coherent(s.disk, s.ios, s.loc, s.data, s.image, s.owed + s.pending.Keys)
    requires CanStartPartial(s, t)
    ensures t in s.data && OnDisk(s.disk, s.loc[t]) == Data(s.data[t])
  {
    hide Latest;
    hide Quiet;
    LatestQuiet(s.disk, s.ios, s.loc[t]);
  }

  lemma SettledPlace(space: Space, loc: Locs, uncommitted: set<Slot>, t: Slot)
    requires Partitioned(space) && RefCounts(space.refs, loc) && Private(space.refs, loc, uncommitted)
    requires t in loc
    ensures loc[t] !in space.free && loc[t] !in space.limboTab
    ensures OnlyAt(loc, uncommitted, loc[t], t)
  {
    hide RefCounts;
    Referenced(space.refs, loc, t);
    forall u | u in uncommitted && u in loc && loc[u] == loc[t] ensures u == t {
      Sole(space.refs, loc, u, t);
    }
  }

  lemma StartPartialInPlaceKeeps(s: State, t: Slot, patch: Patch)
    requires Inv(s) && CanStartPartialInPlace(s, t)
    ensures t in s.data && Inv(StartPartialInPlace(s, t, patch))
  {
    hide Inv;
    hide Quiet;
    hide Overlay;
    Settled(s, t);
    assert s.owed - {t} == s.owed;
    PendKeeps(s, t, s.loc[t], patch, Overlay(s.data[t], patch));
  }

  lemma StartPartialMovedKeeps(s: State, t: Slot, b: nat, patch: Patch)
    requires Inv(s) && CanStartPartialMoved(s, t, b)
    ensures t in s.data && Inv(StartPartialMoved(s, t, b, patch))
  {
    hide Inv;
    hide Quiet;
    hide Overlay;
    Settled(s, t);
    var bytes := Overlay(s.data[t], patch);
    var r := Relocate(s, t, b, bytes);
    RelocateKeeps(s, t, b, bytes);
    assert Readable(r, t, s.loc[t], patch, bytes);
    assert r.data[t := bytes] == r.data;
    PendKeeps(r, t, s.loc[t], patch, bytes);
  }

  lemma PendingFacts(s: State, t: Slot)
    requires Inv(s) && t in s.pending
    ensures t in s.uncommitted && t !in s.owed && t in s.data
    ensures Readable(s, t, s.pending[t].source, s.pending[t].patch, s.data[t])
  {
    assert t in s.pending.Keys;
  }

  lemma AddPartialKeeps(s: State, t: Slot, patch: Patch)
    requires Inv(s) && CanAddPartial(s, t)
    ensures t in s.data && Inv(AddPartial(s, t, patch))
  {
    hide Inv;
    hide Quiet;
    hide Overlay;
    PendingFacts(s, t);
    var p := s.pending[t];
    OverlayTwice(OnDisk(s.disk, p.source).bytes, p.patch, patch);
    assert s.owed - {t} == s.owed;
    PendKeeps(s, t, p.source, p.patch + patch, Overlay(s.data[t], patch));
  }

  /** When the block has been read and the patch laid over it, the slot holds what it was
      supposed to hold: every partial write since, in order, over the contents before. */
  lemma FinishPartialContents(s: State, t: Slot)
    requires Inv(s) && CanFinishPartial(s, t)
    ensures FinishPartial(s, t).data == s.data
  {
    hide Inv;
    hide Quiet;
    hide Overlay;
    PendingFacts(s, t);
    assert s.data[t := s.data[t]] == s.data;
  }

  lemma FinishPartialKeeps(s: State, t: Slot)
    requires Inv(s) && CanFinishPartial(s, t)
    ensures Inv(FinishPartial(s, t))
  {
    hide Inv;
    hide Quiet;
    hide Overlay;
    PendingFacts(s, t);
    RewriteKeeps(s, t, Overlay(BytesAt(s.disk, s.pending[t].source), s.pending[t].patch));
  }
}
