/** When an onode survives being written out and read back, and how long its image is. */
module OnodeRoundTrip {
  import opened Extents
  import opened ExtentMaps
  import opened IntervalSet
  import opened Wire
  import opened OnodeCodec

  /** The ranges of the C++ types of the fields in memory; real extents carry their checksums. */
  ghost predicate Typed(on: Record) {
    && on.loc.start < WORD && on.loc.length < WORD
    && on.oid.volume < 0x1_0000_0000 && on.oid.rank < 0x1_0000_0000 && on.oid.ino < WORD
    && on.oid.bno < 0x1_0000_0000 && on.oid.rev < 0x1_0000_0000
    && on.readonly < WORD && on.size < WORD && on.allocBlocks < WORD && on.dataCsum < WORD
    && (forall c :: c in on.collections ==> c < WORD)
    && ExtentsOk(on.extents) && RunsOk(on.badBytes)
  }

  /** No extent overlaps another or leaves a gap before the next one, and the last ends at `last`. */
  ghost predicate Linked(m: ExtentMap, last: nat) {
    && Apart(m)
    && (last > 0 ==> 0 in m)
    && forall k :: k in m ==> Link(m, k, last)
  }

  ghost predicate Link(m: ExtentMap, k: nat, last: nat)
    requires k in m
  {
    var e := k + m[k].ex.length;
    e <= last && (e == last || (e in m && e > k))
  }

  /** What the format can hold: the counters on disk are narrower than in memory, names end at the
      first zero byte, lengths are signed, and extents are found by adding up lengths. */
  ghost predicate Storable(on: Record) {
    && on.allocBlocks < 0x1_0000_0000
    && |on.collections| < 0x1_0000 && |on.attrs| < 0x1_0000_0000
    && |on.extents| < 0x1_0000_0000 && |on.badBytes| < 0x1_0000_0000
    && AttrsOk(on.attrs)
    && Linked(on.extents, on.lastBlock)
    && Separate(on.badBytes)
  }

  // ---- where the fields are ----

  lemma {:induction false} WidthNext(ws: seq<nat>, i: nat)
    requires i < |ws|
    ensures Width(ws[..i + 1]) == Width(ws[..i]) + ws[i]
  {
    if i == 0 {
      assert ws[..1][1..] == [];
    } else {
      WidthNext(ws[1..], i - 1);
      assert ws[..i][1..] == ws[1..][..i - 1];
      assert ws[..i + 1][1..] == ws[1..][..i];
    }
  }

  lemma {:induction false} FieldAt(vs: seq<nat>, ws: seq<nat>, pre: seq<Byte>, rest: seq<Byte>, i: nat)
    requires |vs| == |ws| && i < |vs| && vs[i] < Pow256(ws[i])
    ensures var bs, off := pre + (PutFields(vs, ws) + rest), |pre| + Width(ws[..i]);
            off + ws[i] <= |bs| && Un(bs[off..off + ws[i]]) == vs[i]
    decreases i
  {
    hide Un;
    hide Le;
    hide Pow256;
    var bs := pre + (PutFields(vs, ws) + rest);
    var first, more := Le(vs[0], ws[0]), PutFields(vs[1..], ws[1..]);
    assert bs == (pre + first) + (more + rest);
    if i == 0 {
      assert bs[|pre|..|pre| + ws[0]] == first;
      UnLe(vs[0], ws[0]);
      SmallMod(vs[0], Pow256(ws[0]));
    } else {
      FieldAt(vs[1..], ws[1..], pre + first, rest, i - 1);
      assert ws[..i][1..] == ws[1..][..i - 1];
    }
  }

  /** Where each field begins, after the checksum and the length. */
  lemma Offsets()
    ensures Width(WIDTHS[..0]) == 0 && Width(WIDTHS[..1]) == 8 && Width(WIDTHS[..2]) == 16 && Width(WIDTHS[..3]) == 20
    ensures Width(WIDTHS[..4]) == 24 && Width(WIDTHS[..5]) == 32 && Width(WIDTHS[..6]) == 36 && Width(WIDTHS[..7]) == 40
    ensures Width(WIDTHS[..8]) == 48 && Width(WIDTHS[..9]) == 56 && Width(WIDTHS[..10]) == 60
    ensures Width(WIDTHS[..11]) == 68 && Width(WIDTHS[..12]) == 70 && Width(WIDTHS[..13]) == 72
    ensures Width(WIDTHS[..14]) == 76 && Width(WIDTHS[..15]) == 80 && Width(WIDTHS[..16]) == 84
  {
    hide Width;
    WidthNone(WIDTHS);
    Next4(WIDTHS, 0);
    Next4(WIDTHS, 4);
    Next4(WIDTHS, 8);
    Next4(WIDTHS, 12);
  }

  lemma WidthNone(ws: seq<nat>)
    ensures Width(ws[..0]) == 0
  {
  }

  lemma Next4(ws: seq<nat>, i: nat)
    requires i + 4 <= |ws|
    ensures var w := Width(ws[..i]);
            && Width(ws[..i + 1]) == w + ws[i] && Width(ws[..i + 2]) == w + ws[i] + ws[i + 1]
            && Width(ws[..i + 3]) == w + ws[i] + ws[i + 1] + ws[i + 2]
            && Width(ws[..i + 4]) == w + ws[i] + ws[i + 1] + ws[i + 2] + ws[i + 3]
  {
    hide Width;
    WidthNext(ws, i);
    WidthNext(ws, i + 1);
    WidthNext(ws, i + 2);
    WidthNext(ws, i + 3);
  }

  /** The number at byte `off` of an image, `w` bytes wide. */
  ghost function NumberAt(bs: seq<Byte>, off: nat, w: nat): nat
    requires off + w <= |bs|
  {
    Un(bs[off..off + w])
  }

  lemma EncodeParts(on: Record, sum: Checksum) returns (pre: seq<Byte>)
    ensures |pre| == 12 && Encode(on, sum) == pre + (PutFields(HeaderFields(on), WIDTHS) + PutParts(on))
  {
    EncodeIs(on, sum, []);
    BodyIs(on);
    var c := Le(sum(Tail(on)) % WORD, 8);
    hide *;
    assert Encode(on, sum) + [] == Encode(on, sum) && Body(on) + [] == Body(on);
    Assoc(c, Le(12 + |Body(on)|, 4), Body(on));
    pre := c + Le(12 + |Body(on)|, 4);
  }

  lemma FieldIn(bs: seq<Byte>, vs: seq<nat>, ws: seq<nat>, pre: seq<Byte>, rest: seq<Byte>, i: nat)
    requires FieldsFit(vs, ws) && i < |vs| && bs == pre + (PutFields(vs, ws) + rest)
    ensures var off := |pre| + Width(ws[..i]); off + ws[i] <= |bs| && NumberAt(bs, off, ws[i]) == vs[i]
  {
    hide *;
    FitsAt(vs, ws, i);
    FieldAt(vs, ws, pre, rest, i);
    NumberIs(bs, |pre| + Width(ws[..i]), ws[i]);
  }

  /** Which field is the i-th: where it is, how wide, and what it holds. */
  ghost predicate Field(on: Record, i: nat, off: nat, w: nat, v: nat) {
    i < 16 && off == 12 + Width(WIDTHS[..i]) && w == WIDTHS[i] && v == HeaderFields(on)[i]
  }

  lemma HeaderField(on: Record, sum: Checksum, i: nat, off: nat, w: nat, v: nat)
    requires Typed(on) && Storable(on) && Field(on, i, off, w, v)
    ensures off + w <= |Encode(on, sum)| && NumberAt(Encode(on, sum), off, w) == v
  {
    hide *;
    HeaderFits(on);
    FieldMeans(on, i, off, w, v);
    var pre := EncodeParts(on, sum);
    FieldIn(Encode(on, sum), HeaderFields(on), WIDTHS, pre, PutParts(on), i);
  }

  lemma FieldMeans(on: Record, i: nat, off: nat, w: nat, v: nat)
    requires Field(on, i, off, w, v)
    ensures i < |WIDTHS| && off == 12 + Width(WIDTHS[..i]) && w == WIDTHS[i] && v == HeaderFields(on)[i]
  {
  }

  lemma FitsAt(vs: seq<nat>, ws: seq<nat>, i: nat)
    requires FieldsFit(vs, ws) && i < |vs|
    ensures |vs| == |ws| && vs[i] < Pow256(ws[i])
  {
  }

  lemma NumberIs(bs: seq<Byte>, off: nat, w: nat)
    requires off + w <= |bs|
    ensures NumberAt(bs, off, w) == Un(bs[off..off + w])
  {
  }

  lemma HeaderStart(on: Record, sum: Checksum)
    requires 12 + |Body(on)| < 0x1_0000_0000
    ensures var bs := Encode(on, sum);
            |bs| >= 12 && NumberAt(bs, 0, 8) == sum(bs[8..]) % WORD && NumberAt(bs, 8, 4) == |bs|
  {
    var bs := Encode(on, sum);
    EncodeIs(on, sum, []);
    assert bs + [] == bs;
    HeadBack(sum(Tail(on)) % WORD, 12 + |Body(on)|, Body(on) + []);
    HeadOf(bs);
    hide *;
    NumberIs(bs, 0, 8);
    NumberIs(bs, 8, 4);
    assert bs[8..|bs|] == bs[8..] && bs[0..8] == bs[..8];
  }

  lemma PlaceFields(on: Record, sum: Checksum)
    requires Typed(on) && Storable(on)
    ensures var bs := Encode(on, sum);
            && |bs| >= 52
            && NumberAt(bs, 12, 8) == on.loc.start && NumberAt(bs, 20, 8) == on.loc.length
            && NumberAt(bs, 28, 4) == on.oid.volume && NumberAt(bs, 32, 4) == on.oid.rank
            && NumberAt(bs, 36, 8) == on.oid.ino && NumberAt(bs, 44, 4) == on.oid.bno && NumberAt(bs, 48, 4) == on.oid.rev
  {
    Offsets();
    hide Width;
    hide Encode;
    hide NumberAt;
    hide Typed;
    hide Storable;
    HeaderField(on, sum, 0, 12, 8, on.loc.start);
    HeaderField(on, sum, 1, 20, 8, on.loc.length);
    HeaderField(on, sum, 2, 28, 4, on.oid.volume);
    HeaderField(on, sum, 3, 32, 4, on.oid.rank);
    HeaderField(on, sum, 4, 36, 8, on.oid.ino);
    HeaderField(on, sum, 5, 44, 4, on.oid.bno);
    HeaderField(on, sum, 6, 48, 4, on.oid.rev);
  }

  lemma SizeFields(on: Record, sum: Checksum)
    requires Typed(on) && Storable(on)
    ensures var bs := Encode(on, sum);
            && |bs| >= 80
            && NumberAt(bs, 52, 8) == on.readonly && NumberAt(bs, 60, 8) == on.size
            && NumberAt(bs, 68, 4) == on.allocBlocks && NumberAt(bs, 72, 8) == on.dataCsum
  {
    Offsets();
    hide Width;
    hide Encode;
    hide NumberAt;
    hide Typed;
    hide Storable;
    HeaderField(on, sum, 7, 52, 8, on.readonly);
    HeaderField(on, sum, 8, 60, 8, on.size);
    HeaderField(on, sum, 9, 68, 4, on.allocBlocks);
    HeaderField(on, sum, 10, 72, 8, on.dataCsum);
  }

  lemma CountFields(on: Record, sum: Checksum)
    requires Typed(on) && Storable(on)
    ensures var bs := Encode(on, sum);
            && |bs| >= 96
            && NumberAt(bs, 80, 2) == 0 && NumberAt(bs, 82, 2) == |on.collections|
            && NumberAt(bs, 84, 4) == |on.attrs| && NumberAt(bs, 88, 4) == |on.extents|
            && NumberAt(bs, 92, 4) == |on.badBytes|
  {
    Offsets();
    hide Width;
    hide Encode;
    hide NumberAt;
    hide Typed;
    hide Storable;
    HeaderField(on, sum, 11, 80, 2, 0);
    HeaderField(on, sum, 12, 82, 2, |on.collections|);
    HeaderField(on, sum, 13, 84, 4, |on.attrs|);
    HeaderField(on, sum, 14, 88, 4, |on.extents|);
    HeaderField(on, sum, 15, 92, 4, |on.badBytes|);
  }

  /** The header of an image, byte by byte, is an ebofs_onode. */
  lemma HeaderLayout(on: Record, sum: Checksum)
    requires Typed(on) && Storable(on) && 12 + |Body(on)| < 0x1_0000_0000
    ensures var bs := Encode(on, sum);
            && |bs| >= 96
            && NumberAt(bs, 0, 8) == sum(bs[8..]) % WORD && NumberAt(bs, 8, 4) == |bs|
            && NumberAt(bs, 12, 8) == on.loc.start && NumberAt(bs, 20, 8) == on.loc.length
            && NumberAt(bs, 28, 4) == on.oid.volume && NumberAt(bs, 32, 4) == on.oid.rank
            && NumberAt(bs, 36, 8) == on.oid.ino && NumberAt(bs, 44, 4) == on.oid.bno && NumberAt(bs, 48, 4) == on.oid.rev
            && NumberAt(bs, 52, 8) == on.readonly && NumberAt(bs, 60, 8) == on.size
            && NumberAt(bs, 68, 4) == on.allocBlocks && NumberAt(bs, 72, 8) == on.dataCsum
            && NumberAt(bs, 80, 2) == 0 && NumberAt(bs, 82, 2) == |on.collections|
            && NumberAt(bs, 84, 4) == |on.attrs| && NumberAt(bs, 88, 4) == |on.extents|
            && NumberAt(bs, 92, 4) == |on.badBytes|
  {
    HeaderStart(on, sum);
    PlaceFields(on, sum);
    SizeFields(on, sum);
    CountFields(on, sum);
    hide *;
  }

  // ---- extents that tile the object are linked ----

  lemma TilesLinked(m: ExtentMap, n: nat)
    requires Apart(m) && AllGood(m) && Tiles(m, n)
    ensures Linked(m, n)
  {
    hide Tiles;
    FirstKey(m, n);
    forall k | k in m ensures Link(m, k, n) {
      NextKey(m, n, k);
    }
  }

  ghost function From(m: ExtentMap, pos: nat): ExtentMap {
    map k | k in m && k >= pos :: m[k]
  }

  ghost predicate NonEmpty(m: ExtentMap) {
    forall k :: k in m ==> m[k].ex.length > 0
  }

  lemma OkNonEmpty(m: ExtentMap)
    requires ExtentsOk(m) || AllGood(m)
    ensures NonEmpty(m)
  {
    hide Words;
    if ExtentsOk(m) {
      assert forall k :: k in m ==> ExtentOk(m[k]);
    }
  }

  lemma FirstFrom(m: ExtentMap, pos: nat)
    requires pos in m
    ensures KeyAtOrAfter(From(m, pos).Keys, 0) == Some(pos)
  {
    var first: Option<nat> := KeyAtOrAfter(From(m, pos).Keys, 0);
    assert pos in From(m, pos).Keys;
    assert first.value in From(m, pos).Keys;
  }

  lemma FromNext(m: ExtentMap, last: nat, pos: nat)
    requires Linked(m, last) && NonEmpty(m) && pos in m
    ensures From(m, pos) - {pos} == From(m, pos + m[pos].ex.length)
    ensures m[pos].ex.length > 0
    ensures var e := pos + m[pos].ex.length; e <= last && (e == last || e in m)
  {
    assert Link(m, pos, last);
    hide Link;
    FromSkip(m, pos, pos + m[pos].ex.length);
  }

  lemma FromSkip(m: ExtentMap, pos: nat, e: nat)
    requires pos < e && forall k :: k in m && k > pos ==> k >= e
    ensures From(m, pos) - {pos} == From(m, e)
  {
  }

  lemma FromEnd(m: ExtentMap, last: nat)
    requires Linked(m, last) && NonEmpty(m)
    ensures From(m, last) == map[]
  {
    forall k | k in m ensures k < last {
      assert Link(m, k, last);
    }
  }

  lemma ChainNext(m: ExtentMap, pos: nat, last: nat)
    requires pos in m && KeyAtOrAfter(m.Keys, 0) == Some(pos)
    requires Chain(m - {pos}, pos + m[pos].ex.length, last)
    ensures Chain(m, pos, last)
  {
    OneKeyLess(m, pos);
  }

  lemma {:induction false} LinkedChain(m: ExtentMap, last: nat, pos: nat)
    requires Linked(m, last) && NonEmpty(m) && pos <= last && (pos == last || pos in m)
    ensures Chain(From(m, pos), pos, last)
    decreases last - pos
  {
    hide Linked;
    hide NonEmpty;
    if pos == last {
      FromEnd(m, last);
    } else {
      hide Chain;
      FirstFrom(m, pos);
      FromNext(m, last, pos);
      LinkedChain(m, last, pos + m[pos].ex.length);
      ChainNext(From(m, pos), pos, last);
    }
  }

  lemma ChainOf(m: ExtentMap, last: nat)
    requires Linked(m, last) && ExtentsOk(m)
    ensures Chain(m, 0, last)
  {
    hide ExtentsOk;
    OkNonEmpty(m);
    assert From(m, 0) == m;
    LinkedChain(m, last, 0);
  }

  // ---- written out and read back ----

  lemma Widths()
    ensures Pow256(2) == 0x1_0000 && Pow256(4) == 0x1_0000_0000 && Pow256(8) == WORD
  {
    WordSize();
  }

  lemma HeaderFits(on: Record)
    requires Typed(on) && Storable(on)
    ensures FieldsFit(HeaderFields(on), WIDTHS)
  {
    Widths();
    hide Pow256;
    hide AttrsOk;
    hide Linked;
    hide Separate;
    hide ExtentsOk;
    hide RunsOk;
    var vs, ws := HeaderFields(on), WIDTHS;
    assert vs[0] < WORD && vs[1] < WORD && vs[4] < WORD && vs[7] < WORD && vs[8] < WORD && vs[10] < WORD;
  }

  lemma NothingBefore(m: Runs)
    ensures Separate(map[]) && AllBefore(map[], m)
  {
  }

  lemma RunsBack(m: Runs, rest: seq<Byte>)
    requires Separate(m) && RunsOk(m)
    ensures TakeRuns(|m|, map[], PutRuns(m) + rest) == Got(m, rest)
  {
    hide TakeRuns;
    hide PutRuns;
    hide RunsOk;
    assert Separate(map[]) && AllBefore(map[], m) by { NothingBefore(m); }
    hide Separate;
    TakePutRuns(m, map[], rest);
    NothingPlus(m);
  }

  lemma NothingPlus<K, V>(m: map<K, V>)
    ensures map[] + m == m
  {
  }

  lemma ExtentsBack(m: ExtentMap, last: nat, rest: seq<Byte>)
    requires Linked(m, last) && ExtentsOk(m)
    ensures TakeExtents(|m|, map[], 0, PutExtents(m) + rest) == Got((m, last), rest)
  {
    hide TakeExtents;
    hide PutExtents;
    hide ExtentsOk;
    ChainOf(m, last);
    hide Linked;
    TakePutExtents(m, map[], 0, last, rest);
    NothingPlus(m);
  }

  lemma AttrsBack(m: map<Name, Value>, rest: seq<Byte>)
    requires AttrsOk(m)
    ensures TakeAttrs(|m|, map[], PutAttrs(m) + rest) == Got(m, rest)
  {
    hide TakeAttrs;
    hide PutAttrs;
    hide AttrsOk;
    TakePutAttrs(m, map[], rest);
    NothingPlus(m);
  }

  lemma CollectionsBack(s: set<nat>, rest: seq<Byte>)
    requires forall c :: c in s ==> c < WORD
    ensures TakeCollections(|s|, {}, PutCollections(s) + rest) == Got(s, rest)
  {
    Widths();
    hide Pow256;
    TakePutCollections(s, {}, rest);
    assert {} + s == s;
  }

  ghost function PutParts(on: Record): seq<Byte> {
    PutCollections(on.collections) + (PutAttrs(on.attrs) + (PutExtents(on.extents) + PutRuns(on.badBytes)))
  }

  lemma PartsBack(on: Record, rest: seq<Byte>)
    requires Typed(on) && Storable(on)
    ensures DecodeParts(HeaderFields(on), PutParts(on) + rest) == Got(on, rest)
  {
    hide PutCollections;
    hide PutAttrs;
    hide PutExtents;
    hide PutRuns;
    hide TakeCollections;
    hide TakeAttrs;
    hide TakeExtents;
    hide TakeRuns;
    hide Linked;
    hide AttrsOk;
    hide ExtentsOk;
    hide RunsOk;
    hide Separate;
    var b4 := PutRuns(on.badBytes);
    var b3 := PutExtents(on.extents);
    var b2 := PutAttrs(on.attrs);
    var b1 := PutCollections(on.collections);
    Assoc(b1, b2 + (b3 + b4), rest);
    Assoc(b2, b3 + b4, rest);
    Assoc(b3, b4, rest);
    CollectionsBack(on.collections, b2 + (b3 + (b4 + rest)));
    AttrsBack(on.attrs, b3 + (b4 + rest));
    ExtentsBack(on.extents, on.lastBlock, b4 + rest);
    RunsBack(on.badBytes, rest);
  }

  lemma HeadBack(c: nat, n: nat, rest: seq<Byte>)
    requires c < WORD && n < 0x1_0000_0000
    ensures TakeFields([8, 4], Le(c, 8) + (Le(n, 4) + rest)) == Got([c, n], rest)
  {
    Widths();
    hide Pow256;
    hide Le;
    hide Take;
    TakeLe(c, 8, Le(n, 4) + rest);
    TakeLe(n, 4, rest);
    assert [8, 4][1..] == [4];
    OneField(4, n, Le(n, 4) + rest, rest);
    assert [c] + [n] == [c, n];
  }

  lemma OneField(w: nat, n: nat, bs: seq<Byte>, rest: seq<Byte>)
    requires Take(bs, w) == Got(n, rest)
    ensures TakeFields([w], bs) == Got([n], rest)
  {
    hide Take;
    assert [w][1..] == [];
    assert TakeFields([], rest) == Got([], rest);
    assert [n] + [] == [n];
  }

  lemma BodyBack(on: Record, rest: seq<Byte>)
    requires Typed(on) && Storable(on)
    ensures TakeFields(WIDTHS, Body(on) + rest) == Got(HeaderFields(on), PutParts(on) + rest)
    ensures DecodeParts(HeaderFields(on), PutParts(on) + rest) == Got(on, rest)
  {
    hide *;
    HeaderFits(on);
    PartsBack(on, rest);
    assert Body(on) == PutFields(HeaderFields(on), WIDTHS) + PutParts(on) by { BodyIs(on); }
    Assoc(PutFields(HeaderFields(on), WIDTHS), PutParts(on), rest);
    TakePutFields(HeaderFields(on), WIDTHS, PutParts(on) + rest);
  }

  lemma BodyIs(on: Record)
    ensures Body(on) == PutFields(HeaderFields(on), WIDTHS) + PutParts(on)
  {
  }

  lemma EncodeIs(on: Record, sum: Checksum, pad: seq<Byte>)
    ensures var bs := Encode(on, sum) + pad;
            var n := 12 + |Body(on)|;
            && bs == Le(sum(Tail(on)) % WORD, 8) + (Le(n, 4) + (Body(on) + pad))
            && |Encode(on, sum)| == n && |bs| >= n && bs[8..n] == Tail(on)
  {
    hide Body;
    hide Le;
    var c := Le(sum(Tail(on)) % WORD, 8);
    Assoc(c, Tail(on), pad);
    Assoc(Le(12 + |Body(on)|, 4), Body(on), pad);
    assert (c + Tail(on) + pad)[8..12 + |Body(on)|] == Tail(on);
  }

  /** An onode that the format can hold is read back as it was, whatever follows it in its block. */
  lemma RoundTrip(on: Record, sum: Checksum, pad: seq<Byte>)
    requires Typed(on) && Storable(on) && 12 + |Body(on)| < 0x1_0000_0000
    ensures Decode(Encode(on, sum) + pad, sum(Tail(on)) % WORD, sum) == Some(on)
  {
    hide Typed;
    hide Storable;
    hide TakeFields;
    hide DecodeParts;
    hide Body;
    hide Tail;
    hide Encode;
    hide Le;
    EncodeIs(on, sum, pad);
    HeadBack(sum(Tail(on)) % WORD, 12 + |Body(on)|, Body(on) + pad);
    BodyBack(on, pad);
  }

  // ---- whatever is read can be stored ----

  lemma {:induction false} TakeCollectionsSize(n: nat, acc: set<nat>, bs: seq<Byte>)
    requires TakeCollections(n, acc, bs).Got?
    ensures |TakeCollections(n, acc, bs).value| <= |acc| + n
    decreases n
  {
    hide Take;
    if n > 0 {
      var t := Take(bs, 8);
      OneMoreAtMost(acc, t.value);
      TakeCollectionsSize(n - 1, acc + {t.value}, t.rest);
    }
  }

  lemma OneMoreAtMost<T>(s: set<T>, x: T)
    ensures |s + {x}| <= |s| + 1
  {
    if x in s {
      assert s + {x} == s;
    }
  }

  lemma OneKeyMoreAtMost<K, V>(m: map<K, V>, k: K, v: V)
    ensures |m[k := v]| <= |m| + 1
  {
    assert m[k := v].Keys == m.Keys + {k};
    OneMoreAtMost(m.Keys, k);
  }

  lemma {:induction false} TakeAttrsOk(n: nat, acc: map<Name, Value>, bs: seq<Byte>)
    requires TakeAttrs(n, acc, bs).Got? && AttrsOk(acc)
    ensures AttrsOk(TakeAttrs(n, acc, bs).value) && |TakeAttrs(n, acc, bs).value| <= |acc| + n
    decreases n
  {
    if n > 0 {
      var t := TakeAttr(bs);
      assert 0 !in t.value.0 && |t.value.1| < 0x8000_0000;
      hide TakeAttr;
      OneKeyMoreAtMost(acc, t.value.0, t.value.1);
      TakeAttrsOk(n - 1, acc[t.value.0 := t.value.1], t.rest);
    }
  }

  /** While extents are being read, the last one may be empty; it is replaced by the next one. */
  ghost predicate LinkedTo(m: ExtentMap, pos: nat) {
    && Apart(m)
    && (pos > 0 ==> 0 in m)
    && forall k :: k in m ==> Link(m, k, pos) && (k < pos ==> m[k].ex.length > 0)
  }

  lemma LinkNext(m: ExtentMap, pos: nat, e: ExtentCsum)
    requires LinkedTo(m, pos)
    ensures LinkedTo(m[pos := e], pos + e.ex.length)
  {
    hide Link;
    LinkApart(m, pos, e);
    hide Apart;
    forall k | k in m && k != pos ensures Link(m[pos := e], k, pos + e.ex.length) && m[k].ex.length > 0 {
      LinkStays(m, pos, e, k);
    }
    LinkNew(m, pos, e);
  }

  lemma LinkStays(m: ExtentMap, pos: nat, e: ExtentCsum, k: nat)
    requires k in m && Link(m, k, pos) && (k < pos ==> m[k].ex.length > 0) && k != pos
    ensures Link(m[pos := e], k, pos + e.ex.length) && m[k].ex.length > 0
  {
  }

  lemma LinkNew(m: ExtentMap, pos: nat, e: ExtentCsum)
    ensures Link(m[pos := e], pos, pos + e.ex.length)
  {
  }

  lemma LinkApart(m: ExtentMap, pos: nat, e: ExtentCsum)
    requires LinkedTo(m, pos)
    ensures Apart(m[pos := e])
  {
    forall k | k in m ensures k + m[k].ex.length <= pos {
      assert Link(m, k, pos);
    }
  }

  lemma {:induction false} TakeExtentsLinked(n: nat, acc: ExtentMap, pos: nat, bs: seq<Byte>)
    requires TakeExtents(n, acc, pos, bs).Got? && LinkedTo(acc, pos)
    ensures var r := TakeExtents(n, acc, pos, bs).value; LinkedTo(r.0, r.1) && |r.0| <= |acc| + n
    decreases n
  {
    hide TakeExtent;
    hide LinkedTo;
    if n > 0 {
      var t := TakeExtent(bs);
      OneKeyMoreAtMost(acc, pos, t.value);
      LinkNext(acc, pos, t.value);
      TakeExtentsLinked(n - 1, acc[pos := t.value], pos + t.value.ex.length, t.rest);
    }
  }

  lemma InsertSize(m: Runs, start: nat, len: nat)
    requires Separate(m) && len > 0
    ensures |Insert(m, start, len)| <= |m| + 1
  {
    var r := Insert(m, start, len);
    assert r.Keys <= m.Keys + {start};
    SubsetSize(r.Keys, m.Keys + {start});
    OneMoreAtMost(m.Keys, start);
  }

  lemma {:induction false} TakeRunsSize(n: nat, acc: Runs, bs: seq<Byte>)
    requires Separate(acc) && TakeRuns(n, acc, bs).Got?
    ensures |TakeRuns(n, acc, bs).value| <= |acc| + n
    decreases n
  {
    hide Take;
    hide Insert;
    if n > 0 {
      var a := Take(bs, 8);
      var b := Take(a.rest, 8);
      InsertSeparate(acc, a.value, b.value);
      InsertSize(acc, a.value, b.value);
      TakeRunsSize(n - 1, Insert(acc, a.value, b.value), b.rest);
    }
  }

  lemma PartsStorable(vs: seq<nat>, bs: seq<Byte>)
    requires FieldsFit(vs, WIDTHS) && DecodeParts(vs, bs).Got?
    requires ExtentsOk(DecodeParts(vs, bs).value.extents)
    ensures Storable(DecodeParts(vs, bs).value)
  {
    Widths();
    hide Pow256;
    assert vs[9] < Pow256(WIDTHS[9]) && vs[12] < Pow256(WIDTHS[12]) && vs[13] < Pow256(WIDTHS[13])
        && vs[14] < Pow256(WIDTHS[14]) && vs[15] < Pow256(WIDTHS[15]);
    var r1 := TakeCollections(vs[12], {}, bs);
    TakeCollectionsSize(vs[12], {}, bs);
    assert AttrsOk(map[]) by { NoAttrsOk(); }
    TakeAttrsOk(vs[13], map[], r1.rest);
    var r2 := TakeAttrs(vs[13], map[], r1.rest);
    assert LinkedTo(map[], 0) by { NoneLinked(); }
    TakeExtentsLinked(vs[14], map[], 0, r2.rest);
    var r3 := TakeExtents(vs[14], map[], 0, r2.rest);
    TakeRunsSize(vs[15], map[], r3.rest);
    LinkedToLinked(r3.value.0, r3.value.1);
  }

  lemma NoAttrsOk()
    ensures AttrsOk(map[])
  {
  }

  lemma NoneLinked()
    ensures LinkedTo(map[], 0)
  {
  }

  lemma LinkedToLinked(m: ExtentMap, last: nat)
    requires LinkedTo(m, last)
    ensures Linked(m, last)
  {
  }

  lemma DecodedStorable(bs: seq<Byte>, expected: nat, sum: Checksum, on: Record)
    requires Decode(bs, expected, sum) == Some(on) && ExtentsOk(on.extents)
    ensures Storable(on)
  {
    hide TakeFields;
    hide DecodeParts;
    hide Storable;
    hide ExtentsOk;
    var head := TakeFields([8, 4], bs);
    var t := TakeFields(WIDTHS, head.rest);
    TakeFieldsFit(WIDTHS, head.rest);
    PartsStorable(t.value, t.rest);
  }

  /** Exactly the onodes that the format can hold come back. */
  lemma RoundTripIff(on: Record, sum: Checksum, pad: seq<Byte>)
    requires Typed(on) && 12 + |Body(on)| < 0x1_0000_0000
    ensures Decode(Encode(on, sum) + pad, sum(Tail(on)) % WORD, sum) == Some(on) <==> Storable(on)
  {
    if Storable(on) {
      RoundTrip(on, sum, pad);
    } else if Decode(Encode(on, sum) + pad, sum(Tail(on)) % WORD, sum) == Some(on) {
      DecodedStorable(Encode(on, sum) + pad, sum(Tail(on)) % WORD, sum, on);
    }
  }

  // ---- the length ----

  /** The blocks of the real extents. */
  ghost function RealBlocks(m: ExtentMap): nat
    decreases |m|
  {
    var k := KeyAtOrAfter(m.Keys, 0);
    if k.None? then 0
    else
      OneKeyLess(m, k.value);
      (if m[k.value].ex.start != 0 then m[k.value].ex.length else 0) + RealBlocks(m - {k.value})
  }

  /** get_ondisk_bytes */
  ghost function OndiskBytes(on: Record): nat {
    96 + 8 * |on.collections| + AttrBytes(on.attrs)
    + (16 * |on.extents| + 8 * on.allocBlocks) + 16 * |on.badBytes|
  }

  lemma {:induction false} ExtentsLength(m: ExtentMap)
    requires AllGood(m)
    ensures |PutExtents(m)| == 16 * |m| + 8 * RealBlocks(m)
    decreases |m|
  {
    var first: Option<nat> := KeyAtOrAfter(m.Keys, 0);
    if first.None? {
      NoneLeft(m.Keys);
      assert m == map[];
    } else {
      var k := first.value;
      OneKeyLess(m, k);
      ExtentsLength(m - {k});
    }
  }

  /** The buffer that is allocated for the image has the right size if and only if `alloc_blocks`
      is the number of blocks in real extents. */
  lemma EncodedLength(on: Record, sum: Checksum)
    requires AllGood(on.extents)
    ensures |Encode(on, sum)| == OndiskBytes(on) <==> on.allocBlocks == RealBlocks(on.extents)
  {
    hide AttrBytes;
    hide RealBlocks;
    hide AllGood;
    hide Encode;
    EncodeIs(on, sum, []);
    BodyLength(on);
    ExtentsLength(on.extents);
  }

  lemma BodyLength(on: Record)
    ensures |Body(on)| == 84 + 8 * |on.collections| + AttrBytes(on.attrs) + |PutExtents(on.extents)| + 16 * |on.badBytes|
  {
    BodyIs(on);
    HeaderWidth();
    hide Width;
  }

  lemma HeaderWidth()
    ensures Width(WIDTHS) == 84
  {
    hide Width;
    Width4(WIDTHS, 12);
    WidthEnd(WIDTHS);
    Width4(WIDTHS, 8);
    Width4(WIDTHS, 4);
    Width4(WIDTHS, 0);
    assert WIDTHS[0..] == WIDTHS;
  }

  lemma Width4(ws: seq<nat>, i: nat)
    requires i + 4 <= |ws|
    ensures Width(ws[i..]) == ws[i] + ws[i + 1] + ws[i + 2] + ws[i + 3] + Width(ws[i + 4..])
  {
    hide Width;
    WidthFrom(ws, i);
    WidthFrom(ws, i + 1);
    WidthFrom(ws, i + 2);
    WidthFrom(ws, i + 3);
  }

  lemma WidthEnd(ws: seq<nat>)
    ensures Width(ws[|ws|..]) == 0
  {
  }

  lemma WidthFrom(ws: seq<nat>, i: nat)
    requires i < |ws|
    ensures Width(ws[i..]) == ws[i] + Width(ws[i + 1..])
  {
    assert ws[i..][1..] == ws[i + 1..];
  }

  lemma RealBlocksNext(m: ExtentMap, k: nat)
    requires KeyAtOrAfter(m.Keys, 0) == Some(k)
    ensures k in m
    ensures RealBlocks(m) == (if m[k].ex.start != 0 then m[k].ex.length else 0) + RealBlocks(m - {k})
  {
  }

  lemma RealsNext(m: ExtentMap, n: nat, pos: nat)
    requires Apart(m) && AllGood(m) && pos in m && pos + m[pos].ex.length <= n
    ensures Reals(CellsOf(m, n)[pos..])
            == (if m[pos].ex.start != 0 then m[pos].ex.length else 0) + Reals(CellsOf(m, n)[pos + m[pos].ex.length..])
  {
    hide *;
    IsGood(m, pos);
    hide AllGood;
    SpanAt(m, n, pos);
    SplitAt(CellsOf(m, n), pos, pos + m[pos].ex.length);
    SpanWhole(m[pos]);
  }

  lemma IsGood(m: ExtentMap, k: nat)
    requires AllGood(m) && k in m
    ensures Good(m[k])
  {
  }

  lemma SplitAt(c: seq<Cell>, a: nat, b: nat)
    requires a <= b <= |c|
    ensures Reals(c[a..]) == Reals(c[a..b]) + Reals(c[b..])
  {
    hide Reals;
    assert c[a..] == c[a..b] + c[b..];
    Concat(c[a..b], c[b..]);
  }

  lemma {:induction false} RealBlocksFrom(m: ExtentMap, n: nat, pos: nat)
    requires Apart(m) && AllGood(m) && Linked(m, n) && NonEmpty(m)
    requires pos <= n && (pos == n || pos in m)
    ensures RealBlocks(From(m, pos)) == Reals(CellsOf(m, n)[pos..])
    decreases n - pos
  {
    hide CellsOf;
    hide Reals;
    hide RealBlocks;
    hide AllGood;
    hide Apart;
    hide Linked;
    hide NonEmpty;
    if pos == n {
      FromEnd(m, n);
      NoBlocks(CellsOf(m, n)[n..]);
    } else {
      FirstFrom(m, pos);
      FromNext(m, n, pos);
      RealBlocksFrom(m, n, pos + m[pos].ex.length);
      RealsNext(m, n, pos);
      RealBlocksNext(From(m, pos), pos);
    }
  }

  lemma NoBlocks(c: seq<Cell>)
    ensures RealBlocks(map[]) == 0 && (c == [] ==> Reals(c) == 0)
  {
  }

  /** For an onode in good order (`Onodes.Onode.Valid`), the image has the length that was
      allocated for it. */
  lemma GoodOnodeLength(on: Record, sum: Checksum)
    requires AllGood(on.extents) && Apart(on.extents) && Tiles(on.extents, on.lastBlock)
    requires on.allocBlocks == Reals(CellsOf(on.extents, on.lastBlock))
    ensures |Encode(on, sum)| == OndiskBytes(on)
  {
    OkNonEmpty(on.extents);
    hide NonEmpty;
    var m, n := on.extents, on.lastBlock;
    TilesLinked(m, n);
    assert n > 0 ==> 0 in m by { FirstKey(m, n); }
    hide Linked;
    RealBlocksFrom(m, n, 0);
    assert From(m, 0) == m;
    assert CellsOf(m, n)[0..] == CellsOf(m, n);
    EncodedLength(on, sum);
  }
}
