/** The extent table that holds the reference counts (`alloc_tab`): entries first block ->
    (length, count), and the per-block counts it stands for. */
module RefTable {
  import opened Extents
  import opened AllocatorSpec

  datatype Entry = Entry(len: nat, ref: nat)

  type RefTab = map<nat, Entry>

  ghost predicate Holds(t: RefTab, k: nat, b: nat) {
    k in t && k <= b < k + t[k].len
  }

  /** Entries do not overlap, and each has at least one block and one reference. */
  ghost predicate WellFormed(t: RefTab) {
    && (forall k :: k in t ==> t[k].len > 0 && t[k].ref > 0)
    && (forall j, k :: j in t && k in t && j < k ==> j + t[j].len <= k)
  }

  ghost function Covered(t: RefTab): set<nat> {
    set k, b {:trigger Holds(t, k, b)} | k in t && k <= b < k + t[k].len && Holds(t, k, b) :: b
  }

  /** The entry that a covered block is in. */
  ghost function EntryOf(t: RefTab, b: nat): (k: nat)
    requires b in Covered(t)
    ensures Holds(t, k, b)
  {
    var k :| Holds(t, k, b);
    k
  }

  /** The reference count of every referenced block. */
  ghost function Refs(t: RefTab): map<nat, nat> {
    map b | b in Covered(t) :: t[EntryOf(t, b)].ref
  }

  lemma RefsAt(t: RefTab, k: nat, b: nat)
    requires WellFormed(t) && Holds(t, k, b)
    ensures b in Refs(t) && Refs(t)[b] == t[k].ref
  {
    assert b in Covered(t);
    assert EntryOf(t, b) == k;
  }

  /** A count map that agrees with every entry, and is defined nowhere else, is Refs(t). */
  lemma RefsAre(t: RefTab, m: map<nat, nat>)
    requires forall k, b :: Holds(t, k, b) ==> b in m && m[b] == t[k].ref
    requires forall b :: b in m ==> b in Covered(t)
    ensures Refs(t) == m
  {
    forall b | b in Covered(t) ensures b in m && Refs(t)[b] == m[b] {
      assert Holds(t, EntryOf(t, b), b);
    }
    assert Refs(t).Keys == m.Keys;
  }

  /** The counts that one entry contributes. */
  ghost function Flat(bs: set<nat>, ref: nat): map<nat, nat> {
    map b | b in bs :: ref
  }

  lemma NewEntryFits(t: RefTab, k: nat, e: Entry)
    requires WellFormed(t)
    requires e.len > 0 && e.ref > 0
    requires Range(k, e.len) !! Covered(t)
    ensures k !in t
    ensures WellFormed(t[k := e])
  {
    forall j | j in t ensures j + t[j].len <= k || k + e.len <= j {
      if j <= k < j + t[j].len {
        assert k in Range(k, e.len) by { assert InRange(k, e.len, k); }
        assert Holds(t, j, k);
        assert false;
      } else if k <= j < k + e.len {
        assert j in Range(k, e.len) by { assert InRange(k, e.len, j); }
        assert Holds(t, j, j);
        assert false;
      }
    }
  }

  lemma InsertEntry(t: RefTab, k: nat, e: Entry)
    requires WellFormed(t)
    requires e.len > 0 && e.ref > 0
    requires Range(k, e.len) !! Refs(t).Keys
    ensures k !in t
    ensures WellFormed(t[k := e])
    ensures Refs(t[k := e]) == Refs(t) + Flat(Range(k, e.len), e.ref)
  {
    KeysCovered(t);
    NewEntryFits(t, k, e);
    hide *;
    var n := t[k := e];
    var m := Refs(t) + Flat(Range(k, e.len), e.ref);
    forall j, b | Holds(n, j, b) ensures b in m && m[b] == n[j].ref {
      NewHolds(t, k, e, j, b);
    }
    forall b | b in m ensures b in Covered(n) {
      NewCovers(t, k, e, b);
    }
    RefsAre(n, m);
  }

  lemma NewHolds(t: RefTab, k: nat, e: Entry, j: nat, b: nat)
    requires WellFormed(t) && Range(k, e.len) !! Refs(t).Keys && Holds(t[k := e], j, b)
    ensures b in Refs(t) + Flat(Range(k, e.len), e.ref)
    ensures (Refs(t) + Flat(Range(k, e.len), e.ref))[b] == t[k := e][j].ref
  {
    hide Refs;
    if j == k {
      assert InRange(k, e.len, b);
    } else {
      assert Holds(t, j, b);
      RefsAt(t, j, b);
    }
  }

  lemma NewCovers(t: RefTab, k: nat, e: Entry, b: nat)
    requires k !in t && b in Refs(t) + Flat(Range(k, e.len), e.ref)
    ensures b in Covered(t[k := e])
  {
    hide Refs;
    hide Covered;
    if b in Range(k, e.len) {
      HeldIsCovered(t[k := e], k, b);
    } else {
      var j := Holder(t, b);
      HeldIsCovered(t[k := e], j, b);
    }
  }

  lemma KeysCovered(t: RefTab)
    ensures Refs(t).Keys == Covered(t)
  {
  }

  lemma HeldIsCovered(t: RefTab, k: nat, b: nat)
    requires Holds(t, k, b)
    ensures b in Covered(t)
  {
  }

  lemma Holder(t: RefTab, b: nat) returns (k: nat)
    requires b in Refs(t)
    ensures Holds(t, k, b)
  {
    k := EntryOf(t, b);
  }

  lemma RemoveEntry(t: RefTab, k: nat)
    requires WellFormed(t) && k in t
    ensures WellFormed(t - {k})
    ensures Range(k, t[k].len) <= Refs(t).Keys
    ensures forall b :: b in Range(k, t[k].len) ==> Refs(t)[b] == t[k].ref
    ensures Refs(t - {k}) == Refs(t) - Range(k, t[k].len)
  {
    var n := t - {k};
    var m := Refs(t) - Range(k, t[k].len);
    hide Refs;
    hide Covered;
    forall b | b in Range(k, t[k].len) ensures b in Refs(t) && Refs(t)[b] == t[k].ref {
      assert Holds(t, k, b);
      RefsAt(t, k, b);
    }
    forall j, b | Holds(n, j, b) ensures b in m && m[b] == n[j].ref {
      assert Holds(t, j, b);
      RefsAt(t, j, b);
    }
    forall b | b in m ensures b in Covered(n) {
      var j := Holder(t, b);
      assert j == k ==> InRange(k, t[k].len, b);
      HeldIsCovered(n, j, b);
    }
    RefsAre(n, m);
  }

  /** An entry for a run that may be empty, or whose count may be 0: then there is none. */
  ghost function AddPiece(t: RefTab, k: nat, len: nat, ref: nat): RefTab {
    if len > 0 && ref > 0 then t[k := Entry(len, ref)] else t
  }

  ghost function Counts(bs: set<nat>, ref: nat): map<nat, nat> {
    if ref > 0 then Flat(bs, ref) else map[]
  }

  lemma AddPieceRefs(t: RefTab, k: nat, len: nat, ref: nat)
    requires WellFormed(t)
    requires Range(k, len) !! Refs(t).Keys
    ensures WellFormed(AddPiece(t, k, len, ref))
    ensures Refs(AddPiece(t, k, len, ref)) == Refs(t) + Counts(Range(k, len), ref)
  {
    if len > 0 && ref > 0 {
      hide Refs;
      hide WellFormed;
      InsertEntry(t, k, Entry(len, ref));
    } else if ref > 0 {
      assert Range(k, len) == {};
    }
  }

  /** Entry c with its part [s, s + l) given count `ref` instead, or dropped when `ref` is 0;
      what is left of the entry on either side keeps its count. */
  ghost function Carve(t: RefTab, c: nat, s: nat, l: nat, ref: nat): RefTab
    requires c in t && c <= s && s + l <= c + t[c].len
  {
    var e := t[c];
    var t1 := if c < s then t[c := Entry(s - c, e.ref)]
              else if ref > 0 then t[c := Entry(l, ref)] else t - {c};
    var t2 := if c < s && ref > 0 then t1[s := Entry(l, ref)] else t1;
    if s + l < c + e.len then t2[s + l := Entry(c + e.len - (s + l), e.ref)] else t2
  }

  lemma CarvePieces(t: RefTab, c: nat, s: nat, l: nat, ref: nat)
    requires c in t && c <= s && 0 < l && s + l <= c + t[c].len && t[c].ref > 0
    ensures var e := t[c];
            Carve(t, c, s, l, ref) ==
            AddPiece(AddPiece(AddPiece(t - {c}, c, s - c, e.ref), s, l, ref), s + l, c + e.len - (s + l), e.ref)
  {
    var e := t[c];
    assert (t - {c})[c := Entry(s - c, e.ref)] == t[c := Entry(s - c, e.ref)];
    assert (t - {c})[c := Entry(l, ref)] == t[c := Entry(l, ref)];
  }

  lemma ThreePieces(t: RefTab, c: nat, s: nat, l: nat, end: nat, side: nat, ref: nat)
    requires WellFormed(t)
    requires c <= s && s + l <= end
    requires Range(c, end - c) !! Refs(t).Keys
    ensures var r := AddPiece(AddPiece(AddPiece(t, c, s - c, side), s, l, ref), s + l, end - (s + l), side);
            && WellFormed(r)
            && Refs(r) == Refs(t) + Counts(Range(c, s - c), side) + Counts(Range(s, l), ref)
                          + Counts(Range(s + l, end - (s + l)), side)
  {
    hide Refs;
    hide WellFormed;
    hide AddPiece;
    RangeInThree(c, s, l, end);
    AddPieceRefs(t, c, s - c, side);
    var t1 := AddPiece(t, c, s - c, side);
    AddPieceRefs(t1, s, l, ref);
    var t2 := AddPiece(t1, s, l, ref);
    AddPieceRefs(t2, s + l, end - (s + l), side);
  }

  lemma CarveSum(t: RefTab, c: nat, s: nat, l: nat, ref: nat)
    requires WellFormed(t)
    requires c in t && c <= s && 0 < l && s + l <= c + t[c].len
    ensures WellFormed(Carve(t, c, s, l, ref))
    ensures var end := c + t[c].len;
            Refs(Carve(t, c, s, l, ref)) ==
            Refs(t) - Range(c, end - c) + Counts(Range(c, s - c), t[c].ref) + Counts(Range(s, l), ref)
            + Counts(Range(s + l, end - (s + l)), t[c].ref)
  {
    hide Refs;
    hide Carve;
    hide AddPiece;
    hide Counts;
    var end := c + t[c].len;
    CarvePieces(t, c, s, l, ref);
    hide WellFormed;
    RemoveEntry(t, c);
    ThreePieces(t - {c}, c, s, l, end, t[c].ref, ref);
  }

  lemma CarveWithin(t: RefTab, c: nat, s: nat, l: nat)
    requires WellFormed(t)
    requires c in t && c <= s && s + l <= c + t[c].len
    ensures t[c].ref > 0
    ensures Range(s, l) <= Refs(t).Keys
    ensures forall b :: b in Range(s, l) ==> Refs(t)[b] == t[c].ref
  {
    hide Refs;
    RemoveEntry(t, c);
    assert Range(s, l) <= Range(c, t[c].len);
  }

  lemma CarveRefs(t: RefTab, c: nat, s: nat, l: nat, ref: nat)
    requires WellFormed(t)
    requires c in t && c <= s && 0 < l && s + l <= c + t[c].len
    ensures WellFormed(Carve(t, c, s, l, ref))
    ensures Refs(Carve(t, c, s, l, ref)) == Refs(t) - Range(s, l) + Counts(Range(s, l), ref)
  {
    hide *;
    var end := c + t[c].len;
    CarveSum(t, c, s, l, ref);
    CarveWithin(t, c, c, t[c].len);
    RangeInThree(c, s, l, end);
    CarvedCounts(Refs(t), Range(c, end - c), Range(c, s - c), Range(s, l), Range(s + l, end - (s + l)), t[c].ref, ref);
  }

  lemma CarvedCounts(m: map<nat, nat>, whole: set<nat>, left: set<nat>, mid: set<nat>, right: set<nat>,
                     was: nat, ref: nat)
    requires whole == left + mid + right && whole <= m.Keys && was > 0
    requires forall b :: b in whole ==> m[b] == was
    requires left !! mid && right !! mid
    ensures m - whole + Counts(left, was) + Counts(mid, ref) + Counts(right, was)
            == m - mid + Counts(mid, ref)
  {
  }

  lemma CarveUp(t: RefTab, c: nat, s: nat, l: nat)
    requires WellFormed(t)
    requires c in t && c <= s && 0 < l && s + l <= c + t[c].len
    ensures var n := Carve(t, c, s, l, t[c].ref + 1);
            && WellFormed(n) && NoneAcross(n, s + l)
            && Refs(n) == Inc(Refs(t), Range(s, l))
  {
    hide Refs;
    var n := Carve(t, c, s, l, t[c].ref + 1);
    CarveWithin(t, c, s, l);
    CarveRefs(t, c, s, l, t[c].ref + 1);
    RaisedCounts(Refs(t), Range(s, l), t[c].ref);
    NothingAcross(n, s, l);
  }

  lemma CarveDown(t: RefTab, c: nat, s: nat, l: nat)
    requires WellFormed(t)
    requires c in t && c <= s && 0 < l && s + l <= c + t[c].len
    ensures var n := Carve(t, c, s, l, t[c].ref - 1);
            WellFormed(n) && Refs(n) == Dec(Refs(t), Range(s, l))
    ensures Range(s, l) <= Refs(t).Keys
    ensures Dropped(Refs(t), Range(s, l)) == if t[c].ref == 1 then Range(s, l) else {}
    ensures NoneAcross(Carve(t, c, s, l, t[c].ref - 1), s + l)
  {
    hide *;
    CarveWithin(t, c, s, l);
    CarveRefs(t, c, s, l, t[c].ref - 1);
    LoweredCounts(Refs(t), Range(s, l), t[c].ref);
    CarveGap(t, c, s, l);
    NothingAcross(Carve(t, c, s, l, t[c].ref - 1), s, l);
  }

  lemma CarveGap(t: RefTab, c: nat, s: nat, l: nat)
    requires WellFormed(t)
    requires c in t && c <= s && 0 < l && s + l <= c + t[c].len
    ensures var n := Carve(t, c, s, l, t[c].ref - 1);
            if t[c].ref > 1 then s in n && n[s].len == l else s + l - 1 !in Refs(n)
  {
    hide Refs;
    CarveWithin(t, c, s, l);
    CarveRefs(t, c, s, l, t[c].ref - 1);
    assert s + l - 1 in Range(s, l);
  }

  lemma RaisedCounts(m: map<nat, nat>, bs: set<nat>, ref: nat)
    requires forall b :: b in bs ==> b in m && m[b] == ref
    ensures m - bs + Counts(bs, ref + 1) == Inc(m, bs)
  {
  }

  lemma LoweredCounts(m: map<nat, nat>, bs: set<nat>, ref: nat)
    requires ref > 0
    requires forall b :: b in bs ==> b in m && m[b] == ref
    ensures m - bs + Counts(bs, ref - 1) == Dec(m, bs)
    ensures Dropped(m, bs) == if ref == 1 then bs else {}
  {
  }

  /** A run of unreferenced blocks enters the table with count 1. */
  lemma InsertUp(t: RefTab, s: nat, l: nat)
    requires WellFormed(t) && l > 0
    requires Range(s, l) !! Refs(t).Keys
    ensures s !in t && WellFormed(t[s := Entry(l, 1)])
    ensures Refs(t[s := Entry(l, 1)]) == Inc(Refs(t), Range(s, l))
  {
    hide Refs;
    InsertEntry(t, s, Entry(l, 1));
    FreshCounts(Refs(t), Range(s, l));
  }

  lemma FreshCounts(m: map<nat, nat>, more: set<nat>)
    requires more !! m.Keys
    ensures m + Flat(more, 1) == Inc(m, more)
  {
  }

  lemma ReplaceEntry(t: RefTab, c: nat, e: Entry)
    requires WellFormed(t) && c in t
    requires e.len > 0 && e.ref > 0
    requires Range(c, e.len) !! Refs(t).Keys - Range(c, t[c].len)
    ensures WellFormed(t[c := e])
    ensures Refs(t[c := e]) == Refs(t) - Range(c, t[c].len) + Flat(Range(c, e.len), e.ref)
  {
    hide Refs;
    RemoveEntry(t, c);
    InsertEntry(t - {c}, c, e);
    assert (t - {c})[c := e] == t[c := e];
  }

  /** An unreferenced run right after an entry of count 1 can join that entry. */
  lemma ExtendUp(t: RefTab, c: nat, l: nat)
    requires WellFormed(t) && c in t && t[c].ref == 1 && l > 0
    requires Range(c + t[c].len, l) !! Refs(t).Keys
    ensures var n := t[c := Entry(t[c].len + l, 1)];
            WellFormed(n) && Refs(n) == Inc(Refs(t), Range(c + t[c].len, l))
  {
    hide Refs;
    hide WellFormed;
    var e := t[c].len;
    RemoveEntry(t, c);
    RangeInThree(c, c, e, c + e + l);
    assert Range(c, 0) == {};
    assert Range(c, e + l) == Range(c, e) + Range(c + e, l);
    hide Range;
    hide Flat;
    hide Inc;
    ReplaceEntry(t, c, Entry(e + l, 1));
    ExtendedCounts(Refs(t), Range(c, e), Range(c + e, l));
  }

  lemma ExtendedCounts(m: map<nat, nat>, base: set<nat>, more: set<nat>)
    requires more !! m.Keys
    requires forall b :: b in base ==> b in m && m[b] == 1
    ensures m - base + Flat(base + more, 1) == Inc(m, more)
  {
  }

  lemma NoBlocks(refs: map<nat, nat>, s: nat)
    ensures Inc(refs, Range(s, 0)) == refs
    ensures Positive(refs) ==> Dec(refs, Range(s, 0)) == refs
    ensures Dropped(refs, Range(s, 0)) == {}
  {
    assert Range(s, 0) == {};
  }

  lemma IncTwice(refs: map<nat, nat>, s: nat, m: nat, e: nat)
    requires s <= m <= e
    ensures Inc(Inc(refs, Range(s, m - s)), Range(m, e - m)) == Inc(refs, Range(s, e - s))
  {
    assert Range(s, e - s) == Range(s, m - s) + Range(m, e - m);
  }

  lemma DecTwice(refs: map<nat, nat>, s: nat, m: nat, e: nat)
    requires s <= m <= e && Positive(refs)
    ensures Dec(Dec(refs, Range(s, m - s)), Range(m, e - m)) == Dec(refs, Range(s, e - s))
    ensures Dropped(refs, Range(s, m - s)) + Dropped(Dec(refs, Range(s, m - s)), Range(m, e - m))
            == Dropped(refs, Range(s, e - s))
  {
    var d := Dec(refs, Range(s, m - s));
    assert Range(s, e - s) == Range(s, m - s) + Range(m, e - m);
    assert forall b :: b in Range(m, e - m) ==> Count(d, b) == Count(refs, b);
  }

  // ---- where the cursor may stand ----

  /** No entry begins before s and reaches past it. */
  ghost predicate NoneAcross(t: RefTab, s: nat) {
    forall k :: k in t && k < s ==> k + t[k].len <= s
  }

  /** Entry `cur` contains s, or is the first one after a gap that begins at s. */
  ghost predicate Position(t: RefTab, cur: nat, s: nat) {
    && cur in t
    && (cur <= s ==> s < cur + t[cur].len)
    && (cur > s ==> forall k :: k in t ==> k + t[k].len <= s || cur <= k)
  }

  lemma GapFree(t: RefTab, s: nat, l: nat)
    requires forall k :: k in t ==> k + t[k].len <= s || s + l <= k
    ensures Range(s, l) !! Refs(t).Keys
  {
    forall b | b in Refs(t) ensures b !in Range(s, l) {
      assert Holds(t, EntryOf(t, b), b);
    }
  }

  /** Nothing reaches across the end of [s, s + l) once it is one entry, or is unreferenced. */
  lemma NothingAcross(t: RefTab, s: nat, l: nat)
    requires WellFormed(t) && l > 0
    requires (s in t && t[s].len == l) || s + l - 1 !in Refs(t)
    ensures NoneAcross(t, s + l)
  {
    forall k | k in t && k < s + l ensures k + t[k].len <= s + l {
      if k + t[k].len > s + l {
        assert Holds(t, k, s + l - 1);
        RefsAt(t, k, s + l - 1);
        assert false;
      }
    }
  }

  lemma RefsPositive(t: RefTab)
    requires WellFormed(t)
    ensures Positive(Refs(t))
  {
    forall b | b in Refs(t) ensures Refs(t)[b] >= 1 {
      assert Holds(t, EntryOf(t, b), b);
    }
  }

  /** A referenced block is found at the look-up position for it, or one step to the left. */
  lemma ReferencedAt(t: RefTab, s: nat)
    requires WellFormed(t) && s in Refs(t)
    ensures s in t.Keys || (KeyBefore(t.Keys, s).Some? && Holds(t, KeyBefore(t.Keys, s).value, s))
    ensures NoneAcross(t, s) ==> s in t.Keys && Holds(t, s, s)
  {
    var k := EntryOf(t, s);
    assert Holds(t, k, s);
    if k < s {
      assert k in t.Keys;
      assert KeyBefore(t.Keys, s).Some?;
      var j := KeyBefore(t.Keys, s).value;
      assert j in t && k <= j;
    }
  }

  lemma TailOf(s0: nat, s: nat, e: nat)
    requires s0 <= s < e
    ensures Range(s, e - s) <= Range(s0, e - s0)
    ensures Range(s, e - s) !! Range(s0, s - s0)
    ensures s in Range(s, e - s)
  {
  }

  lemma DecKeeps(refs: map<nat, nat>, bs: set<nat>)
    requires Positive(refs)
    ensures refs.Keys - bs <= Dec(refs, bs).Keys <= refs.Keys
    ensures Dropped(refs, bs) <= bs
    ensures Dropped(refs, bs) == bs - Dec(refs, bs).Keys - (bs - refs.Keys)
    ensures Positive(Dec(refs, bs))
  {
  }

  lemma IncKeeps(refs: map<nat, nat>, bs: set<nat>)
    ensures Inc(refs, bs).Keys == refs.Keys + bs
  {
  }

  /** A cursor at or after s means a referenced block at or after s. */
  lemma PositionReaches(t: RefTab, k: nat, s: nat)
    requires WellFormed(t) && Position(t, k, s)
    ensures exists b :: b in Refs(t) && b >= s
  {
    var b := k + t[k].len - 1;
    assert Holds(t, k, b);
    RefsAt(t, k, b);
  }
}
