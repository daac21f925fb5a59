/** Why a read must not begin while an older read of the same block, from some other place, is under
    way in the same cache: rx_finish gives what the older one brings to whoever waits. */
module StaleReads {
  import opened Extents
  import opened CacheCoherence

  // ---- what the checksum cannot tell ----

  lemma {:induction false} PlaceRepeats(a: nat, i: nat)
    requires a % 8 == 0
    ensures Place(a + i) == Place(i)
    decreases i
  {
    if i % 8 != 0 {
      assert (a + i) % 8 != 0;
      PlaceRepeats(a, i - 1);
    }
  }

  lemma CsumLast(bytes: Bytes)
    requires bytes != []
    ensures var n := |bytes| - 1; Csum(bytes) == (Csum(bytes[..n]) + Term(bytes[n], n)) % WORD
  {
  }

  lemma {:induction false} CsumConcat(a: Bytes, b: Bytes)
    requires |a| % 8 == 0
    ensures Csum(a + b) == (Csum(a) + Csum(b)) % WORD
    decreases |b|
  {
    if b == [] {
      assert a + b == a;
      CsumSmall(a);
    } else {
      hide Csum;
      hide Term;
      var n := |b| - 1;
      assert (a + b)[..|a + b| - 1] == a + b[..n];
      CsumLast(a + b);
      CsumLast(b);
      CsumConcat(a, b[..n]);
      TermRepeats(b[n], |a|, n);
      AddMod(Csum(a), Csum(b[..n]), Term(b[n], n));
    }
  }

  lemma TermRepeats(v: Byte, a: nat, i: nat)
    requires a % 8 == 0
    ensures Term(v, a + i) == Term(v, i)
  {
    PlaceRepeats(a, i);
  }

  lemma AddMod(a: nat, b: nat, x: nat)
    ensures ((a + b) % WORD + x) % WORD == (a + (b + x) % WORD) % WORD
  {
  }

  lemma CsumSmall(a: Bytes)
    ensures Csum(a) % WORD == Csum(a)
  {
  }

  lemma CsumCommutes(a: Bytes, b: Bytes)
    requires |a| % 8 == 0 && |b| % 8 == 0
    ensures Csum(a + b) == Csum(b + a)
  {
    hide Csum;
    CsumConcat(a, b);
    CsumConcat(b, a);
  }

  /** The checksum does not see the order of the words. */
  lemma SwappedWords(a: Bytes, b: Bytes, rest: Bytes)
    requires |a| % 8 == 0 && |b| % 8 == 0
    ensures Csum(a + b + rest) == Csum(b + a + rest)
  {
    hide Csum;
    CsumCommutes(a, b);
    CsumConcat(a + b, rest);
    CsumConcat(b + a, rest);
  }

  // ---- what an old read will bring ----

  /** The last write to block b that was queued before request f. */
  ghost predicate LastBefore(writes: map<nat, WriteReq>, w: nat, b: nat, f: nat) {
    Targets(writes, w, b) && w < f && forall j: nat :: Targets(writes, j, b) && j < f ==> j <= w
  }

  ghost function SeenIn(writes: map<nat, WriteReq>, disk: map<nat, Bytes>, b: nat, f: nat): Bytes {
    if w: nat :| LastBefore(writes, w, b, f) then writes[w].bytes else OnDisk(disk, b)
  }

  /** What read f returns when the device comes to it. */
  ghost function Seen(s: State, f: nat): Bytes
    requires f in s.fetches
  {
    SeenIn(s.writes, s.disk, s.fetches[f].block, f)
  }

  ghost predicate SameBefore(writes: map<nat, WriteReq>, writes': map<nat, WriteReq>, b: nat, f: nat) {
    forall j: nat :: j < f ==>
      (Targets(writes', j, b) <==> Targets(writes, j, b)) && (Targets(writes, j, b) ==> writes'[j] == writes[j])
  }

  lemma SeenSame(writes: map<nat, WriteReq>, writes': map<nat, WriteReq>, disk: map<nat, Bytes>,
                 disk': map<nat, Bytes>, b: nat, f: nat)
    requires SameBefore(writes, writes', b, f) && OnDisk(disk', b) == OnDisk(disk, b)
    ensures SeenIn(writes', disk', b, f) == SeenIn(writes, disk, b, f)
  {
    forall w: nat ensures LastBefore(writes, w, b, f) <==> LastBefore(writes', w, b, f) {
    }
    if w: nat :| LastBefore(writes, w, b, f) {
      LastBeforeUnique(writes, b, f);
      LastBeforeUnique(writes', b, f);
      assert LastBefore(writes', w, b, f);
    }
  }

  lemma LastBeforeUnique(writes: map<nat, WriteReq>, b: nat, f: nat)
    ensures forall w: nat, v: nat :: LastBefore(writes, w, b, f) && LastBefore(writes, v, b, f) ==> w == v
  {
  }

  /** Carrying out the first write to a block changes nothing for a later read. */
  lemma SeenWritten(s: State, m: nat, b: nat, f: nat)
    requires FirstFor(s.writes, m, b) && m < f
    ensures SeenIn(s.writes - {m}, s.disk[b := s.writes[m].bytes], b, f) == SeenIn(s.writes, s.disk, b, f)
  {
    var rest := s.writes - {m};
    LastBeforeUnique(s.writes, b, f);
    LastBeforeUnique(rest, b, f);
    if w: nat :| LastBefore(rest, w, b, f) {
      assert Targets(s.writes, w, b);
      assert forall j: nat :: Targets(s.writes, j, b) && j != m ==> Targets(rest, j, b);
      assert LastBefore(s.writes, w, b, f);
    } else {
      assert forall j: nat :: Targets(s.writes, j, b) && j != m ==> Targets(rest, j, b);
      LastExists(rest, b, f);
      assert LastBefore(s.writes, m, b, f);
    }
  }

  /** If there is a write before f, there is a last one. */
  lemma LastExists(writes: map<nat, WriteReq>, b: nat, f: nat)
    ensures (exists w: nat :: LastBefore(writes, w, b, f)) || forall j: nat :: Targets(writes, j, b) ==> f <= j
    decreases f
  {
    if f > 0 {
      var e: nat := f - 1;
      if Targets(writes, e, b) {
        assert LastBefore(writes, e, b, f);
      } else {
        LastExists(writes, b, e);
        if w: nat :| LastBefore(writes, w, b, e) {
          assert LastBefore(writes, w, b, f);
        }
      }
    }
  }

  // ---- letting the device come to the old read ----

  ghost predicate FirstOld(s: State, i: nat, f: nat) {
    OldRead(s, i, f) && forall g: nat :: OldRead(s, i, g) ==> f <= g
  }

  ghost predicate OthersFresh(s: State, i: nat) {
    forall id: nat :: (id in s.fetches && s.fetches[id].obj == i) || FreshFetch(s, id)
  }

  /** Block i waits for a read, holds y, and the first old read will bring it something else that
      passes for it. */
  ghost predicate Threatened(s: State, i: nat, f: nat, y: Bytes, tail: bool) {
    && FirstOld(s, i, f) && Waits(s.cells, i) && OnDisk(s.disk, s.loc[i]) == y != Seen(s, f)
    && (s.verify && !tail ==> SumOf(s.csum, i) == Csum(Seen(s, f)))
  }

  /** Block i is clean in the cache, with other bytes than on disk. */
  ghost predicate Wrong(s: State, i: nat) {
    && i in s.cells && s.cells[i].state.Clean? && s.cells[i].bytes.Some?
    && i in s.loc && s.cells[i].bytes.value != OnDisk(s.disk, s.loc[i])
  }

  /** Only what is in flight finishes; `tail` tells how the last read does. */
  ghost predicate Completions(steps: seq<Step>, tail: bool) {
    && (forall k :: 0 <= k < |steps| ==> steps[k].DoFinishWrite? || steps[k].DoFinishRead?)
    && steps != [] && steps[|steps| - 1].DoFinishRead? && steps[|steps| - 1].tail == tail
  }

  /** The requests that the device carries out before read f. */
  ghost function Ahead(s: State, f: nat): set<nat>
    requires f in s.fetches
  {
    var b := s.fetches[f].block;
    (set m | m in s.writes && m < f && s.writes[m].block == b) +
    (set m | m in s.fetches && m < f && s.fetches[m].block == b)
  }

  lemma OldLands(s: State, i: nat, f: nat, y: Bytes, tail: bool)
    requires Inv(s) && Threatened(s, i, f, y, tail) && Ahead(s, f) == {}
    ensures CanFinishRead(s, f) && Wrong(FinishRead(s, f, [], tail), i)
  {
    hide Csum;
    hide Flow;
    hide Current;
    var b := s.fetches[f].block;
    forall j: nat | Targets(s.writes, j, b) ensures f < j {
      assert j !in Ahead(s, f);
    }
    NoneBefore(s.writes, s.disk, b, f);
  }

  lemma NoneBefore(writes: map<nat, WriteReq>, disk: map<nat, Bytes>, b: nat, f: nat)
    requires forall j: nat :: Targets(writes, j, b) ==> f <= j
    ensures SeenIn(writes, disk, b, f) == OnDisk(disk, b)
  {
  }

  lemma WriteAhead(s: State, i: nat, f: nat, y: Bytes, tail: bool, m: nat)
    requires Inv(s) && Threatened(s, i, f, y, tail) && OthersFresh(s, i)
    requires m in Ahead(s, f) && m in s.writes && forall j :: j in Ahead(s, f) ==> m <= j
    ensures CanFinishWrite(s, m)
    ensures var t := FinishWrite(s, m);
            Inv(t) && Threatened(t, i, f, y, tail) && OthersFresh(t, i) && Ahead(t, f) < Ahead(s, f)
  {
    hide Csum;
    var b := s.fetches[f].block;
    FirstAhead(s, f, m);
    FinishWriteKeeps(s, m);
    hide Inv;
    SeenWritten(s, m, b, f);
    var t := FinishWrite(s, m);
    forall id: nat ensures (id in t.fetches && t.fetches[id].obj == i) || FreshFetch(t, id) {
      FinishWriteSame(s, m, id);
      if FreshFetch(s, id) {
        StaysFresh(s, t, id);
      }
    }
    WriteThreatens(s, i, f, y, tail, m);
    assert Ahead(t, f) <= Ahead(s, f) && m !in Ahead(t, f) by { hide SeenIn; AheadLess(s, f, m); }
  }

  lemma AheadLess(s: State, f: nat, m: nat)
    requires m in s.writes && f in s.fetches && m in Ahead(s, f) && m !in s.fetches
    ensures Ahead(FinishWrite(s, m), f) <= Ahead(s, f) && m !in Ahead(FinishWrite(s, m), f)
  {
  }

  lemma WriteThreatens(s: State, i: nat, f: nat, y: Bytes, tail: bool, m: nat)
    requires Threatened(s, i, f, y, tail) && m in s.writes && s.writes[m].block == s.fetches[f].block
    requires SeenIn(s.writes - {m}, s.disk[s.writes[m].block := s.writes[m].bytes], s.fetches[f].block, f) == Seen(s, f)
    ensures Threatened(FinishWrite(s, m), i, f, y, tail)
  {
    hide Csum;
    hide SeenIn;
    var t := FinishWrite(s, m);
    forall g: nat ensures OldRead(t, i, g) <==> OldRead(s, i, g) {
    }
  }

  lemma FirstAhead(s: State, f: nat, m: nat)
    requires Inv(s) && f in s.fetches && m in s.writes && m in Ahead(s, f)
    requires forall j :: j in Ahead(s, f) ==> m <= j
    ensures m !in s.fetches && FirstFor(s.writes, m, s.fetches[f].block) && CanFinishWrite(s, m)
  {
    hide Flow;
    hide Current;
    var b := s.fetches[f].block;
    forall j: nat | Targets(s.writes, j, b) ensures m <= j {
      assert j < f ==> j in Ahead(s, f);
    }
    forall j | j in s.fetches && s.fetches[j].block == b ensures m < j {
      assert j < f ==> j in Ahead(s, f);
    }
  }

  lemma ReadAhead(s: State, i: nat, f: nat, y: Bytes, tail: bool, m: nat)
    requires Inv(s) && Threatened(s, i, f, y, tail) && OthersFresh(s, i)
    requires m in Ahead(s, f) && m in s.fetches && forall j :: j in Ahead(s, f) ==> m <= j
    ensures CanFinishRead(s, m)
    ensures var t := FinishRead(s, m, [], false);
            Inv(t) && Threatened(t, i, f, y, tail) && OthersFresh(t, i) && Ahead(t, f) < Ahead(s, f)
  {
    hide Csum;
    FirstRead(s, f, m);
    NotMine(s, i, f, y, m);
    FinishReadKeeps(s, m, [], false);
    var t := FinishRead(s, m, [], false);
    forall id: nat ensures (id in t.fetches && t.fetches[id].obj == i) || FreshFetch(t, id) {
      FinishReadSame(s, m, [], false, id);
      if FreshFetch(s, id) {
        StaysFresh(s, t, id);
      }
    }
    ReadThreatens(s, i, f, y, tail, m);
    ReadAside(s, i, f, m);
    AheadLessRead(s, t, f, m);
  }

  lemma FirstRead(s: State, f: nat, m: nat)
    requires Inv(s) && f in s.fetches && m in s.fetches && m in Ahead(s, f)
    requires forall j :: j in Ahead(s, f) ==> m <= j
    ensures CanFinishRead(s, m) && m !in s.writes && f < s.next && s.fetches[m].block == s.fetches[f].block
  {
    hide Flow;
    hide Current;
    forall j: nat | Targets(s.writes, j, s.fetches[f].block) ensures m < j {
      assert j < f ==> j in Ahead(s, f);
    }
  }

  /** Read m, ahead of the first old read of block i from the same place, is not one of block i in
      this cache. */
  lemma NotMine(s: State, i: nat, f: nat, y: Bytes, m: nat)
    requires FirstOld(s, i, f) && OthersFresh(s, i)
    requires m in s.fetches && m < f && s.fetches[m].block == s.fetches[f].block
    ensures s.fetches[m].obj != i || s.fetches[m].cache != s.cache
    ensures FreshFetch(s, m)
  {
    assert !OldRead(s, i, m);
  }

  lemma AheadLessRead(s: State, t: State, f: nat, m: nat)
    requires m in s.fetches && f in s.fetches && m in Ahead(s, f) && m !in s.writes && m != f
    requires t.fetches == s.fetches - {m} && SameBefore(s.writes, t.writes, s.fetches[f].block, f)
    ensures Ahead(t, f) < Ahead(s, f)
  {
    var b := s.fetches[f].block;
    forall j | j in Ahead(t, f) ensures j in Ahead(s, f) && j != m {
      if j in t.writes && t.writes[j].block == b {
        assert Targets(t.writes, j, b);
        assert Targets(s.writes, j, b);
      }
    }
  }

  lemma ReadThreatens(s: State, i: nat, f: nat, y: Bytes, tail: bool, m: nat)
    requires Threatened(s, i, f, y, tail) && Injective(s.loc) && f < s.next && m in s.fetches && m < f
    requires s.fetches[m].obj != i || s.fetches[m].cache != s.cache
    ensures Threatened(FinishRead(s, m, [], false), i, f, y, tail)
  {
    hide Csum;
    hide ReadIn;
    hide SeenIn;
    var t := FinishRead(s, m, [], false);
    ReadAside(s, i, f, m);
    SeenSame(s.writes, t.writes, s.disk, t.disk, s.fetches[f].block, f);
  }

  /** The end of a read of something else leaves block i and read f alone. */
  lemma ReadAside(s: State, i: nat, f: nat, m: nat)
    requires f in s.fetches && f < s.next && m in s.fetches && m < f
    requires s.fetches[m].obj != i || s.fetches[m].cache != s.cache
    ensures var t := FinishRead(s, m, [], false);
            && t.fetches == s.fetches - {m} && f in t.fetches && t.cache == s.cache && t.verify == s.verify
            && t.loc == s.loc && t.disk == s.disk && SumOf(t.csum, i) == SumOf(s.csum, i)
            && (Waits(s.cells, i) ==> Waits(t.cells, i))
            && SameBefore(s.writes, t.writes, s.fetches[f].block, f)
            && forall g: nat :: OldRead(t, i, g) ==> OldRead(s, i, g)
  {
    hide Csum;
    hide ReadIn;
    var r := s.fetches[m];
    var u := s.(fetches := s.fetches - {m});
    if r.cache != s.cache || r.obj !in s.cells {
    } else if s.cells[r.obj].state.Rx? {
    } else if s.cells[r.obj].state.Partial? && r.obj in s.loc {
    } else {
    }
  }

  /** The device carries out what is ahead of the old read, and then that read. */
  lemma OldReadLands(s: State, i: nat, f: nat, y: Bytes, tail: bool) returns (rest: seq<Step>)
    requires Inv(s) && Threatened(s, i, f, y, tail) && OthersFresh(s, i)
    ensures Completions(rest, tail) && CanRun(s, rest) && Wrong(End(s, rest), i)
    decreases |Ahead(s, f)|
  {
    hide Threatened;
    hide Ahead;
    hide Wrong;
    ThreatParts(s, i, f, y, tail);
    if Ahead(s, f) == {} {
      OldLands(s, i, f, y, tail);
      rest := [DoFinishRead(f, [], tail)];
      RunFirst(s, DoFinishRead(f, [], tail), []);
    } else {
      var m := FirstOf(s, f);
      var step := if m in s.writes then DoFinishWrite(m) else DoFinishRead(m, [], false);
      if m in s.writes {
        WriteAhead(s, i, f, y, tail, m);
      } else {
        ReadAhead(s, i, f, y, tail, m);
      }
      ThreatParts(After(s, step), i, f, y, tail);
      Smaller(Ahead(After(s, step), f), Ahead(s, f));
      var more := OldReadLands(After(s, step), i, f, y, tail);
      rest := [step] + more;
      RunFirst(s, step, more);
    }
  }

  lemma ThreatParts(s: State, i: nat, f: nat, y: Bytes, tail: bool)
    requires Threatened(s, i, f, y, tail)
    ensures f in s.fetches
  {
  }

  lemma Smaller(a: set<nat>, b: set<nat>)
    requires a < b
    ensures |a| < |b|
  {
    assert b == a + (b - a);
  }

  lemma FirstOf(s: State, f: nat) returns (m: nat)
    requires f in s.fetches && Ahead(s, f) != {}
    ensures m in Ahead(s, f) && (m in s.writes || m in s.fetches) && forall j :: j in Ahead(s, f) ==> m <= j
  {
    var x: nat :| x in Ahead(s, f);
    LeastExists(Ahead(s, f), x);
    m :| Least(Ahead(s, f), m);
  }

  lemma RunFirst(s: State, step: Step, rest: seq<Step>)
    requires Can(s, step) && CanRun(After(s, step), rest)
    ensures CanRun(s, [step] + rest) && End(s, [step] + rest) == End(After(s, step), rest)
  {
    hide Can;
    hide After;
    assert ([step] + rest)[1..] == rest;
  }

  // ---- the harm ----

  /** The same state, but for what is in the place of block i, and its checksum in the onode. */
  ghost function Holding(s: State, i: nat, y: Bytes): State
    requires i in s.loc
  {
    s.(disk := s.disk[s.loc[i] := y], csum := s.csum[i := Csum(y)])
  }

  /** If block i holds y, then reading it now and letting what is in flight finish may leave it clean
      in the cache with other bytes. */
  ghost predicate Harmed(s: State, i: nat, y: Bytes, tail: bool) {
    i in s.loc && CanRead(s, i) && Sound(Holding(s, i, y)) &&
    exists rest: seq<Step> ::
      Completions(rest, tail) && CanRun(Read(Holding(s, i, y), i), rest) && Wrong(End(Read(Holding(s, i, y), i), rest), i)
  }

  lemma HoldingSound(s: State, i: nat, y: Bytes)
    requires Sound(s) && CanRead(s, i) && i in s.loc
    ensures Sound(Holding(s, i, y))
  {
    hide Csum;
    var t := Holding(s, i, y);
    forall j | j in t.loc ensures Flow(t, j) {
      assert Flow(s, j);
    }
    forall w | w in t.writes ensures Current(t, w) {
      assert Current(s, w);
    }
    forall id: nat ensures FreshFetch(t, id) {
      assert FreshFetch(s, id);
    }
  }

  lemma ReadThreatened(s: State, i: nat, f: nat, y: Bytes, tail: bool)
    requires Sound(s) && CanRead(s, i) && FirstOld(s, i, f)
    requires y != Seen(s, f) && (s.verify && !tail ==> Csum(y) == Csum(Seen(s, f)))
    ensures Threatened(Read(Holding(s, i, y), i), i, f, y, tail) && OthersFresh(Read(Holding(s, i, y), i), i)
  {
    hide Csum;
    hide SeenIn;
    hide Flow;
    hide Current;
    var t := Holding(s, i, y);
    var r := Read(t, i);
    var b := s.fetches[f].block;
    assert f < s.next;
    assert SameBefore(s.writes, r.writes, b, f);
    SeenSame(s.writes, r.writes, s.disk, r.disk, b, f);
    forall g: nat ensures OldRead(r, i, g) ==> OldRead(s, i, g) {
    }
    forall id: nat ensures (id in r.fetches && r.fetches[id].obj == i) || FreshFetch(r, id) {
      assert FreshFetch(s, id);
    }
  }

  lemma FirstOldExists(s: State, i: nat, f: nat)
    requires OldRead(s, i, f)
    ensures exists g: nat :: FirstOld(s, i, g)
    decreases f
  {
    if g: nat :| OldRead(s, i, g) && g < f {
      FirstOldExists(s, i, g);
    } else {
      assert FirstOld(s, i, f);
    }
  }

  lemma OldReadHarms(s: State, i: nat, f: nat, y: Bytes, tail: bool)
    requires Sound(s) && CanRead(s, i) && FirstOld(s, i, f)
    requires y != Seen(s, f) && (s.verify && !tail ==> Csum(y) == Csum(Seen(s, f)))
    ensures Harmed(s, i, y, tail)
  {
    HoldingSound(s, i, y);
    ReadThreatened(s, i, f, y, tail);
    ReadKeeps(Holding(s, i, y), i);
    var rest := OldReadLands(Read(Holding(s, i, y), i), i, f, y, tail);
  }

  /** A careless read is never harmless: whatever the old read is about to bring, the cache ends up
      wrong for all contents of the block that differ from that; or, when the old read ends for a head
      in which a later block has the right checksum, for all that differ from it and that the checksum
      does not tell from it. */
  lemma CarelessReadHarms(s: State, i: nat)
    requires Sound(s) && CanRead(s, i) && !Careful(s, DoRead(i))
    ensures exists f: nat {:trigger FirstOld(s, i, f)} :: FirstOld(s, i, f) && f in s.fetches &&
              forall y: Bytes, tail: bool {:trigger Harmed(s, i, y, tail)} ::
                y != Seen(s, f) && (s.verify && !tail ==> Csum(y) == Csum(Seen(s, f))) ==> Harmed(s, i, y, tail)
  {
    var g: nat :| OldRead(s, i, g);
    FirstOldExists(s, i, g);
    var f: nat :| FirstOld(s, i, f);
    forall y: Bytes, tail: bool | y != Seen(s, f) && (s.verify && !tail ==> Csum(y) == Csum(Seen(s, f)))
      ensures Harmed(s, i, y, tail)
    {
      OldReadHarms(s, i, f, y, tail);
    }
  }

  // ---- a run from the start ----

  function Word(n: Byte): Bytes { [n, 0, 0, 0, 0, 0, 0, 0] }
  function X(): Bytes { Word(1) + Word(2) }
  function Y(): Bytes { Word(2) + Word(1) }

  lemma SameCsum()
    ensures Csum(X()) == Csum(Y()) && X() != Y()
  {
    SwappedWords(Word(1), Word(2), []);
    assert Word(1) + Word(2) + [] == X() && Word(2) + Word(1) + [] == Y();
    assert X()[0] == 1 && Y()[0] == 2;
  }

  /** Block 0 is being read from place 5 when all of it is overwritten, at place 6. The new contents
      leave the cache once they are on disk, and are read back; then the first read finishes. Block
      1, which has been read before, keeps the cache open. */
  ghost function StaleRun(): seq<Step> {
    [DoRead(1)] + ([DoFinishRead(0, [], false)] + ([DoRead(0)] + ([DoOverwrite(0, 6, Y())] + ([DoFinishWrite(2)]
      + ([DoEvict(0)] + ([DoRead(0)] + ([DoFinishRead(1, [], false)] + [])))))))
  }

  const Places: map<nat, nat> := map[0 := 5, 1 := 7]
  const One: Cached := Cached(Clean, 0, Some(X()))

  ghost function Before(): State {
    Start(Places, map[5 := X(), 7 := X()], map[0 := Csum(X()), 1 := Csum(X())], true)
  }
  ghost function Run1(): State {
    Before().(cells := map[1 := Cached(Rx, 0, None)], fetches := map[0 := ReadReq(1, 7, 0)], next := 1)
  }
  ghost function Run2(): State {
    Run1().(cells := map[1 := One], fetches := map[])
  }
  ghost function Run3(): State {
    Run2().(cells := map[1 := One, 0 := Cached(Rx, 0, None)], fetches := map[1 := ReadReq(0, 5, 0)], next := 2)
  }
  ghost function Run4(): State {
    Run3().(cells := map[1 := One, 0 := Cached(Tx, 1, Some(Y()))], loc := map[0 := 6, 1 := 7],
            csum := map[0 := Csum(Y()), 1 := Csum(X())], writes := map[2 := WriteReq(0, 6, Y(), 1, 0)],
            next := 3, writeCount := 1)
  }
  ghost function Run5(): State {
    Run4().(cells := map[1 := One, 0 := Cached(Clean, 1, Some(Y()))], writes := map[],
            disk := map[5 := X(), 7 := X(), 6 := Y()])
  }
  ghost function Run6(): State {
    Run5().(cells := map[1 := One])
  }
  ghost function Run7(): State {
    Run6().(cells := map[1 := One, 0 := Cached(Rx, 0, None)],
            fetches := map[1 := ReadReq(0, 5, 0), 3 := ReadReq(0, 6, 0)], next := 4)
  }
  ghost function Run8(): State {
    Run7().(cells := map[1 := One, 0 := Cached(Clean, 0, Some(X()))], fetches := map[3 := ReadReq(0, 6, 0)])
  }

  lemma Stale1()
    ensures Can(Before(), DoRead(1)) && After(Before(), DoRead(1)) == Run1()
  {
    hide X;
    hide Csum;
  }
  lemma Stale2()
    ensures Can(Run1(), DoFinishRead(0, [], false)) && After(Run1(), DoFinishRead(0, [], false)) == Run2()
  {
    hide X;
    hide Csum;
    assert Run1().fetches - {0} == map[];
  }
  lemma Stale3()
    ensures Can(Run2(), DoRead(0)) && After(Run2(), DoRead(0)) == Run3()
  {
    hide X;
    hide Csum;
  }
  lemma Stale4()
    ensures Can(Run3(), DoOverwrite(0, 6, Y())) && After(Run3(), DoOverwrite(0, 6, Y())) == Run4()
  {
    hide X;
    hide Y;
    hide Csum;
    assert Quiet(Run3().writes, 6);
    assert Run3().loc[0 := 6] == map[0 := 6, 1 := 7];
    assert Run3().csum[0 := Csum(Y())] == map[0 := Csum(Y()), 1 := Csum(X())];
    assert Run3().cells[0 := Cached(Tx, 1, Some(Y()))] == map[1 := One, 0 := Cached(Tx, 1, Some(Y()))];
  }
  lemma Stale5()
    ensures Can(Run4(), DoFinishWrite(2)) && After(Run4(), DoFinishWrite(2)) == Run5()
  {
    hide X;
    hide Y;
    hide Csum;
    assert Run4().writes - {2} == map[];
  }
  lemma Stale6()
    ensures Can(Run5(), DoEvict(0)) && After(Run5(), DoEvict(0)) == Run6()
  {
    hide X;
    hide Y;
    hide Csum;
    assert Run5().cells - {0} == map[1 := One];
    assert 1 in map[1 := One];
  }
  lemma Stale7()
    ensures Can(Run6(), DoRead(0)) && After(Run6(), DoRead(0)) == Run7()
    ensures !Careful(Run6(), DoRead(0))
  {
    hide X;
    hide Y;
    hide Csum;
    assert OldRead(Run6(), 0, 1);
  }
  lemma Stale8()
    ensures Can(Run7(), DoFinishRead(1, [], false)) && After(Run7(), DoFinishRead(1, [], false)) == Run8()
  {
    SameCsum();
    hide X;
    hide Y;
    hide Csum;
    assert Run7().fetches - {1} == map[3 := ReadReq(0, 6, 0)];
  }

  lemma Then(s: State, step: Step, r: State, rest: seq<Step>)
    requires Can(s, step) && After(s, step) == r && CanRun(r, rest)
    ensures CanRun(s, [step] + rest) && End(s, [step] + rest) == End(r, rest)
  {
    RunFirst(s, step, rest);
  }

  /** With checksums verified, and all of them right at the start, that run leaves block 0 clean in
      the cache with bytes that are not on disk. The read before last is the careless one. */
  lemma StaleHappens()
    ensures Sound(Before()) && Before().verify && CanRun(Before(), StaleRun()) && End(Before(), StaleRun()) == Run8()
    ensures Wrong(Run8(), 0)
  {
    StaleEnds();
    hide *;
    StaleRuns();
  }

  lemma StaleEnds()
    ensures Sound(Before()) && Before().verify && Wrong(Run8(), 0)
  {
    SameCsum();
    hide Csum;
    hide X;
    hide Y;
    hide Sound;
    StartSound(Places, map[5 := X(), 7 := X()], map[0 := Csum(X()), 1 := Csum(X())], true);
  }

  lemma StaleRuns()
    ensures CanRun(Before(), StaleRun()) && End(Before(), StaleRun()) == Run8()
  {
    hide *;
    Stale1();
    Stale2();
    Stale3();
    Stale4();
    Stale5();
    Stale6();
    Stale7();
    Stale8();
    var r8: seq<Step> := [];
    var r7 := [DoFinishRead(1, [], false)] + r8;
    var r6 := [DoRead(0)] + r7;
    var r5 := [DoEvict(0)] + r6;
    var r4 := [DoFinishWrite(2)] + r5;
    var r3 := [DoOverwrite(0, 6, Y())] + r4;
    var r2 := [DoRead(0)] + r3;
    var r1 := [DoFinishRead(0, [], false)] + r2;
    NoSteps(Run8());
    Then(Run7(), DoFinishRead(1, [], false), Run8(), r8);
    Then(Run6(), DoRead(0), Run7(), r7);
    Then(Run5(), DoEvict(0), Run6(), r6);
    Then(Run4(), DoFinishWrite(2), Run5(), r5);
    Then(Run3(), DoOverwrite(0, 6, Y()), Run4(), r4);
    Then(Run2(), DoRead(0), Run3(), r3);
    Then(Run1(), DoFinishRead(0, [], false), Run2(), r2);
    Then(Before(), DoRead(1), Run1(), r1);
    StaleRunIs();
  }

  lemma NoSteps(s: State)
    ensures CanRun(s, []) && End(s, []) == s
  {
  }

  lemma StaleRunIs()
    ensures StaleRun() == [DoRead(1)] + ([DoFinishRead(0, [], false)] + ([DoRead(0)] + ([DoOverwrite(0, 6, Y())]
                          + ([DoFinishWrite(2)] + ([DoEvict(0)] + ([DoRead(0)] + ([DoFinishRead(1, [], false)] + [])))))))
  {
  }
}
