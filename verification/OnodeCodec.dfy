/** The on-disk form of an onode (src/ebofs/Ebofs.cc:678-754, 832-906; the layout is
    src/ebofs/types.h:76-93). */
module OnodeCodec {
  import opened Extents
  import opened ExtentMaps
  import opened IntervalSet
  import opened Wire

  type Value = seq<Byte>

  datatype ObjectId = ObjectId(volume: nat, rank: nat, ino: nat, bno: nat, rev: nat)

  /** What is kept of an onode. Signed fields stand for their 64-bit pattern. */
  datatype Record = Record(
    loc: Extent, oid: ObjectId, readonly: nat, size: nat, allocBlocks: nat, dataCsum: nat,
    collections: set<nat>, attrs: map<Name, Value>, extents: ExtentMap, lastBlock: nat, badBytes: Runs)

  // ---- the parts of variable length ----

  function PutCollections(s: set<nat>): (bs: seq<Byte>)
    ensures |bs| == 8 * |s|
    decreases |s|
  {
    var k := KeyAtOrAfter(s, 0);
    if k.None? then NoneLeft(s); []
    else
      OneLess(s, k.value);
      Le(k.value, 8) + PutCollections(s - {k.value})
  }

  lemma NoneLeft(s: set<nat>)
    requires KeyAtOrAfter(s, 0) == None
    ensures s == {}
  {
  }

  lemma OneLess<T>(s: set<T>, x: T)
    requires x in s
    ensures |s - {x}| == |s| - 1
  {
  }

  lemma OneKeyLess<K, V>(m: map<K, V>, k: K)
    requires k in m
    ensures |m - {k}| == |m| - 1
  {
    OneLess(m.Keys, k);
    assert (m - {k}).Keys == m.Keys - {k};
  }

  ghost function PutAttrs(m: map<Name, Value>): (bs: seq<Byte>)
    ensures |bs| == AttrBytes(m)
    decreases |m|
  {
    if m == map[] then [] else
      var k := FirstName(m.Keys);
      OneKeyLess(m, k);
      PutAttr(k, m[k]) + PutAttrs(m - {k})
  }

  function PutAttr(name: Name, value: Value): (bs: seq<Byte>)
    ensures |bs| == |name| + 1 + |value| + 4
  {
    name + ([0] + (Le(|value|, 4) + value))
  }

  /** get_attr_bytes */
  ghost function AttrBytes(m: map<Name, Value>): nat
    decreases |m|
  {
    if m == map[] then 0 else
      var k := FirstName(m.Keys);
      OneKeyLess(m, k);
      |k| + 1 + |m[k]| + 4 + AttrBytes(m - {k})
  }

  function PutWords(ws: seq<int>): (bs: seq<Byte>)
    ensures |bs| == 8 * |ws|
  {
    if ws == [] then [] else Le(if ws[0] >= 0 then ws[0] else 0, 8) + PutWords(ws[1..])
  }

  function PutExtent(e: ExtentCsum): (bs: seq<Byte>) {
    Le(e.ex.start, 8) + (Le(e.ex.length, 8) + if e.ex.start != 0 then PutWords(e.csum) else [])
  }

  ghost function PutExtents(m: ExtentMap): seq<Byte>
    decreases |m|
  {
    var k := KeyAtOrAfter(m.Keys, 0);
    if k.None? then []
    else
      OneKeyLess(m, k.value);
      PutExtent(m[k.value]) + PutExtents(m - {k.value})
  }

  ghost function PutRuns(m: Runs): (bs: seq<Byte>)
    ensures |bs| == 16 * |m|
    decreases |m|
  {
    var k := KeyAtOrAfter(m.Keys, 0);
    if k.None? then NoneLeft(m.Keys); []
    else
      OneKeyLess(m, k.value);
      Le(k.value, 8) + (Le(m[k.value], 8) + PutRuns(m - {k.value}))
  }

  // ---- reading them back ----

  function TakeCollections(n: nat, acc: set<nat>, bs: seq<Byte>): Got<set<nat>> {
    if n == 0 then Got(acc, bs)
    else
      match Take(bs, 8)
      case Bad => Bad
      case Got(k, rest) => TakeCollections(n - 1, acc + {k}, rest)
  }

  /** A name, a length (a signed int) and that many bytes. */
  function TakeAttr(bs: seq<Byte>): Got<(Name, Value)> {
    match TakeName(bs)
    case Bad => Bad
    case Got(name, rest) =>
      match Take(rest, 4)
      case Bad => Bad
      case Got(len, rest') =>
        if len >= 0x8000_0000 || |rest'| < len then Bad else Got((name, rest'[..len]), rest'[len..])
  }

  function TakeAttrs(n: nat, acc: map<Name, Value>, bs: seq<Byte>): Got<map<Name, Value>> {
    if n == 0 then Got(acc, bs)
    else
      match TakeAttr(bs)
      case Bad => Bad
      case Got(a, rest) => TakeAttrs(n - 1, acc[a.0 := a.1], rest)
  }

  function TakeWords(n: nat, bs: seq<Byte>): (g: Got<seq<int>>)
    ensures g.Got? ==> |g.value| == n
  {
    if n == 0 then Got([], bs)
    else
      match Take(bs, 8)
      case Bad => Bad
      case Got(w, rest) =>
        match TakeWords(n - 1, rest)
        case Bad => Bad
        case Got(ws, rest') => Got([w] + ws, rest')
  }

  function TakeExtent(bs: seq<Byte>): Got<ExtentCsum> {
    match Take(bs, 8)
    case Bad => Bad
    case Got(start, rest) =>
      match Take(rest, 8)
      case Bad => Bad
      case Got(length, rest') =>
        if start == 0 then Got(ExtentCsum(Extent(start, length), []), rest')
        else
          match TakeWords(length, rest')
          case Bad => Bad
          case Got(csum, rest'') => Got(ExtentCsum(Extent(start, length), csum), rest'')
  }

  /** The keys are not stored: each extent begins where the one before it ends. */
  function TakeExtents(n: nat, acc: ExtentMap, pos: nat, bs: seq<Byte>): Got<(ExtentMap, nat)> {
    if n == 0 then Got((acc, pos), bs)
    else
      match TakeExtent(bs)
      case Bad => Bad
      case Got(e, rest) => TakeExtents(n - 1, acc[pos := e], pos + e.ex.length, rest)
  }

  predicate Fits(m: Runs, start: nat, len: nat) {
    len > 0 && forall j :: j in m ==> j + m[j] <= start || start + len <= j
  }

  function TakeRuns(n: nat, acc: Runs, bs: seq<Byte>): (g: Got<Runs>)
    requires Separate(acc)
    ensures g.Got? ==> Separate(g.value)
  {
    if n == 0 then Got(acc, bs)
    else
      match Take(bs, 8)
      case Bad => Bad
      case Got(start, rest) =>
        match Take(rest, 8)
        case Bad => Bad
        case Got(len, rest') =>
          if !Fits(acc, start, len) then Bad
          else
            InsertSeparate(acc, start, len);
            TakeRuns(n - 1, Insert(acc, start, len), rest')
  }

  // ---- the whole ----

  /** All fields after the checksum and the length, in order, and their widths. */
  const WIDTHS: seq<nat> := [8, 8, 4, 4, 8, 4, 4, 8, 8, 4, 8, 2, 2, 4, 4, 4]

  function HeaderFields(on: Record): (vs: seq<nat>)
    ensures |vs| == |WIDTHS|
  {
    [on.loc.start, on.loc.length, on.oid.volume, on.oid.rank, on.oid.ino, on.oid.bno, on.oid.rev,
     on.readonly, on.size, on.allocBlocks, on.dataCsum, 0,
     |on.collections|, |on.attrs|, |on.extents|, |on.badBytes|]
  }

  ghost function Body(on: Record): seq<Byte> {
    PutFields(HeaderFields(on), WIDTHS) + (PutCollections(on.collections) + (PutAttrs(on.attrs)
      + (PutExtents(on.extents) + PutRuns(on.badBytes))))
  }

  type Checksum = seq<Byte> -> nat

  const WORD: nat := 0x1_0000_0000_0000_0000

  ghost function Tail(on: Record): seq<Byte> {
    Le(12 + |Body(on)|, 4) + Body(on)
  }

  ghost function Encode(on: Record, sum: Checksum): seq<Byte> {
    Le(sum(Tail(on)) % WORD, 8) + Tail(on)
  }

  function DecodeParts(vs: seq<nat>, bs: seq<Byte>): Got<Record>
    requires |vs| == |WIDTHS|
  {
    match TakeCollections(vs[12], {}, bs)
    case Bad => Bad
    case Got(collections, r1) =>
      match TakeAttrs(vs[13], map[], r1)
      case Bad => Bad
      case Got(attrs, r2) =>
        match TakeExtents(vs[14], map[], 0, r2)
        case Bad => Bad
        case Got(exts, r3) =>
          match TakeRuns(vs[15], map[], r3)
          case Bad => Bad
          case Got(bad, r4) =>
            Got(Record(Extent(vs[0], vs[1]), ObjectId(vs[2], vs[3], vs[4], vs[5], vs[6]), vs[7], vs[8], vs[9], vs[10],
                       collections, attrs, exts.0, exts.1, bad), r4)
  }

  /** The onode at the beginning of bs, if its length and both checksums are right. */
  function Decode(bs: seq<Byte>, expected: nat, sum: Checksum): Option<Record> {
    match TakeFields([8, 4], bs)
    case Bad => None
    case Got(head, rest) =>
      var csum, bytes := head[0], head[1];
      if bytes > |bs| || bytes < 8 then None
      else
        var actual := sum(bs[8..bytes]) % WORD;
        if actual != csum || actual != expected then None
        else
          match TakeFields(WIDTHS, rest)
          case Bad => None
          case Got(vs, parts) =>
            match DecodeParts(vs, parts)
            case Bad => None
            case Got(on, end) => if |bs| - |end| == bytes then Some(on) else None
  }

  /** The checks of decode_onode, on the bytes: n is the length that the image says it has. */
  ghost predicate Checked(bs: seq<Byte>, expected: nat, sum: Checksum) {
    |bs| >= 12 && var n := Un(bs[8..12]);
    8 <= n <= |bs| && Un(bs[..8]) == expected == sum(bs[8..n]) % WORD
  }

  /** Nothing is decoded whose length or checksum is wrong. */
  lemma DecodeChecks(bs: seq<Byte>, expected: nat, sum: Checksum)
    requires Decode(bs, expected, sum).Some?
    ensures Checked(bs, expected, sum)
  {
    HeadOf(bs);
    hide TakeFields;
    hide DecodeParts;
  }

  lemma HeadOf(bs: seq<Byte>)
    requires TakeFields([8, 4], bs).Got?
    ensures |bs| >= 12 && TakeFields([8, 4], bs).value == [Un(bs[..8]), Un(bs[8..12])]
  {
    hide Un;
    assert [8, 4][1..] == [4];
    assert [4][1..] == [];
    var r := Take(bs, 8).rest;
    assert r[..4] == bs[8..12];
    assert TakeFields([4], r).value == [Un(r[..4])];
  }

  // ---- each part is read back ----

  lemma {:induction false} TakePutCollections(s: set<nat>, acc: set<nat>, rest: seq<Byte>)
    requires forall k :: k in s ==> k < Pow256(8)
    ensures TakeCollections(|s|, acc, PutCollections(s) + rest) == Got(acc + s, rest)
    decreases |s|
  {
    hide Le;
    hide Pow256;
    hide Take;
    var first := KeyAtOrAfter(s, 0);
    if first.None? {
      NoneLeft(s);
      assert PutCollections(s) + rest == rest;
    } else {
      var k := first.value;
      OneLess(s, k);
      var tail := PutCollections(s - {k}) + rest;
      Assoc(Le(k, 8), PutCollections(s - {k}), rest);
      TakeLe(k, 8, tail);
      TakePutCollections(s - {k}, acc + {k}, rest);
      assert acc + {k} + (s - {k}) == acc + s;
    }
  }

  lemma TakePutAttr(name: Name, value: Value, rest: seq<Byte>)
    requires 0 !in name && |value| < 0x8000_0000
    ensures TakeAttr(PutAttr(name, value) + rest) == Got((name, value), rest)
  {
    hide Le;
    hide TakeName;
    hide Take;
    var l := Le(|value|, 4);
    Assoc(name, [0] + (l + value), rest);
    Assoc([0], l + value, rest);
    Assoc(l, value, rest);
    TakePutName(name, l + (value + rest));
    assert Pow256(4) == 0x1_0000_0000;
    hide Pow256;
    TakeLe(|value|, 4, value + rest);
    assert (value + rest)[..|value|] == value && (value + rest)[|value|..] == rest;
  }

  ghost predicate AttrsOk(m: map<Name, Value>) {
    forall name :: name in m ==> 0 !in name && |m[name]| < 0x8000_0000
  }

  lemma MapMove<K, V>(acc: map<K, V>, m: map<K, V>, k: K)
    requires k in m
    ensures acc[k := m[k]] + (m - {k}) == acc + m
  {
  }

  lemma AttrsNext(m: map<Name, Value>)
    requires m != map[]
    ensures var k := FirstName(m.Keys);
            && k in m && |m - {k}| == |m| - 1 && PutAttrs(m) == PutAttr(k, m[k]) + PutAttrs(m - {k})
            && (AttrsOk(m) ==> AttrsOk(m - {k}) && 0 !in k && |m[k]| < 0x8000_0000)
  {
    OneKeyLess(m, FirstName(m.Keys));
  }

  lemma NoAttrs(acc: map<Name, Value>, rest: seq<Byte>)
    ensures TakeAttrs(0, acc, PutAttrs(map[]) + rest) == Got(acc + map[], rest)
  {
    assert PutAttrs(map[]) + rest == rest;
    assert acc + map[] == acc;
  }

  lemma TakeNextAttr(n: nat, acc: map<Name, Value>, bs: seq<Byte>, name: Name, value: Value, rest: seq<Byte>)
    requires n > 0 && TakeAttr(bs) == Got((name, value), rest)
    ensures TakeAttrs(n, acc, bs) == TakeAttrs(n - 1, acc[name := value], rest)
  {
    hide TakeAttr;
  }

  lemma TakePutFirst(m: map<Name, Value>, k: Name, acc: map<Name, Value>, rest: seq<Byte>)
    requires k in m && 0 !in k && |m[k]| < 0x8000_0000
    requires |m| > 0 && PutAttrs(m) == PutAttr(k, m[k]) + PutAttrs(m - {k})
    ensures TakeAttrs(|m|, acc, PutAttrs(m) + rest)
            == TakeAttrs(|m| - 1, acc[k := m[k]], PutAttrs(m - {k}) + rest)
  {
    hide *;
    var tail := PutAttrs(m - {k}) + rest;
    Assoc(PutAttr(k, m[k]), PutAttrs(m - {k}), rest);
    TakePutAttr(k, m[k], tail);
    TakeNextAttr(|m|, acc, PutAttr(k, m[k]) + tail, k, m[k], tail);
  }

  lemma {:induction false} TakePutAttrs(m: map<Name, Value>, acc: map<Name, Value>, rest: seq<Byte>)
    requires AttrsOk(m)
    ensures TakeAttrs(|m|, acc, PutAttrs(m) + rest) == Got(acc + m, rest)
    decreases |m|
  {
    hide *;
    if m == map[] {
      NoAttrs(acc, rest);
    } else {
      var k := FirstName(m.Keys);
      AttrsNext(m);
      TakePutFirst(m, k, acc, rest);
      TakePutAttrs(m - {k}, acc[k := m[k]], rest);
      MapMove(acc, m, k);
    }
  }

  ghost predicate Words(ws: seq<int>) {
    forall i :: 0 <= i < |ws| ==> 0 <= ws[i] < WORD
  }

  lemma WordSize()
    ensures Pow256(8) == WORD
  {
    assert Pow256(4) == 0x1_0000_0000;
    assert Pow256(6) == 0x1_0000 * Pow256(4);
    assert Pow256(8) == 0x1_0000 * Pow256(6);
  }

  lemma {:induction false} TakePutWords(ws: seq<int>, rest: seq<Byte>)
    requires Words(ws)
    ensures TakeWords(|ws|, PutWords(ws) + rest) == Got(ws, rest)
  {
    hide Le;
    hide Pow256;
    hide Take;
    if ws == [] {
      assert PutWords(ws) + rest == rest;
    } else {
      var tail := PutWords(ws[1..]) + rest;
      Assoc(Le(ws[0], 8), PutWords(ws[1..]), rest);
      WordSize();
      TakeLe(ws[0], 8, tail);
      TakePutWords(ws[1..], rest);
      assert [ws[0]] + ws[1..] == ws;
    }
  }

  ghost predicate ExtentOk(e: ExtentCsum) {
    Good(e) && e.ex.start < WORD && e.ex.length < WORD && Words(e.csum)
  }

  lemma TakePutExtent(e: ExtentCsum, rest: seq<Byte>)
    requires ExtentOk(e)
    ensures TakeExtent(PutExtent(e) + rest) == Got(e, rest)
  {
    hide Words;
    hide Le;
    hide Pow256;
    hide Take;
    WordSize();
    var words := if e.ex.start != 0 then PutWords(e.csum) else [];
    Assoc(Le(e.ex.start, 8), Le(e.ex.length, 8) + words, rest);
    Assoc(Le(e.ex.length, 8), words, rest);
    TakeLe(e.ex.start, 8, Le(e.ex.length, 8) + (words + rest));
    TakeLe(e.ex.length, 8, words + rest);
    if e.ex.start != 0 {
      TakePutWords(e.csum, rest);
    } else {
      assert words + rest == rest;
      assert e.csum == [];
      assert e == ExtentCsum(Extent(0, e.ex.length), []);
    }
  }

  /** The extents follow one another from pos to last. */
  ghost predicate Chain(m: ExtentMap, pos: nat, last: nat)
    decreases |m|
  {
    if m == map[] then pos == last
    else
      pos in m && KeyAtOrAfter(m.Keys, 0) == Some(pos) &&
      (OneKeyLess(m, pos);
       Chain(m - {pos}, pos + m[pos].ex.length, last))
  }

  ghost predicate ExtentsOk(m: ExtentMap) {
    forall k :: k in m ==> ExtentOk(m[k])
  }

  lemma ExtentsNext(m: ExtentMap, pos: nat, last: nat)
    requires m != map[] && Chain(m, pos, last)
    ensures pos in m && |m - {pos}| == |m| - 1 && Chain(m - {pos}, pos + m[pos].ex.length, last)
    ensures PutExtents(m) == PutExtent(m[pos]) + PutExtents(m - {pos})
    ensures ExtentsOk(m) ==> ExtentsOk(m - {pos}) && ExtentOk(m[pos])
  {
    hide ExtentOk;
    OneKeyLess(m, pos);
  }

  lemma NoExtents(acc: ExtentMap, pos: nat, rest: seq<Byte>)
    ensures TakeExtents(0, acc, pos, PutExtents(map[]) + rest) == Got((acc + map[], pos), rest)
  {
    assert PutExtents(map[]) + rest == rest;
    assert acc + map[] == acc;
  }

  lemma TakeNextExtent(n: nat, acc: ExtentMap, pos: nat, bs: seq<Byte>, e: ExtentCsum, rest: seq<Byte>)
    requires n > 0 && TakeExtent(bs) == Got(e, rest)
    ensures TakeExtents(n, acc, pos, bs) == TakeExtents(n - 1, acc[pos := e], pos + e.ex.length, rest)
  {
    hide TakeExtent;
  }

  lemma TakePutFirstExtent(m: ExtentMap, acc: ExtentMap, pos: nat, rest: seq<Byte>)
    requires pos in m && ExtentOk(m[pos]) && |m| > 0
    requires PutExtents(m) == PutExtent(m[pos]) + PutExtents(m - {pos})
    ensures TakeExtents(|m|, acc, pos, PutExtents(m) + rest)
            == TakeExtents(|m| - 1, acc[pos := m[pos]], pos + m[pos].ex.length, PutExtents(m - {pos}) + rest)
  {
    hide *;
    var tail := PutExtents(m - {pos}) + rest;
    Assoc(PutExtent(m[pos]), PutExtents(m - {pos}), rest);
    TakePutExtent(m[pos], tail);
    TakeNextExtent(|m|, acc, pos, PutExtent(m[pos]) + tail, m[pos], tail);
  }

  lemma {:induction false} TakePutExtents(m: ExtentMap, acc: ExtentMap, pos: nat, last: nat, rest: seq<Byte>)
    requires Chain(m, pos, last) && ExtentsOk(m)
    ensures TakeExtents(|m|, acc, pos, PutExtents(m) + rest) == Got((acc + m, last), rest)
    decreases |m|
  {
    hide ExtentOk;
    hide ExtentsOk;
    hide TakeExtents;
    hide PutExtent;
    hide PutExtents;
    if m == map[] {
      NoExtents(acc, pos, rest);
    } else {
      ExtentsNext(m, pos, last);
      TakePutFirstExtent(m, acc, pos, rest);
      TakePutExtents(m - {pos}, acc[pos := m[pos]], pos + m[pos].ex.length, last, rest);
      MapMove(acc, m, pos);
    }
  }

  ghost predicate RunsOk(m: Runs) {
    forall k :: k in m ==> k < WORD && m[k] < WORD
  }

  lemma InsertAtEnd(m: Runs, start: nat, len: nat)
    requires Separate(m) && len > 0 && forall j :: j in m ==> j + m[j] < start
    ensures Fits(m, start, len) && Insert(m, start, len) == m[start := len]
  {
  }

  lemma TakeRun(n: nat, acc: Runs, k: nat, len: nat, rest: seq<Byte>)
    requires Separate(acc) && k < WORD && 0 < len < WORD
    requires forall j :: j in acc ==> j + acc[j] < k
    ensures Separate(acc[k := len])
    ensures TakeRuns(n + 1, acc, Le(k, 8) + (Le(len, 8) + rest)) == TakeRuns(n, acc[k := len], rest)
  {
    hide Le;
    hide Pow256;
    hide Take;
    hide Insert;
    WordSize();
    TakeLe(k, 8, Le(len, 8) + rest);
    TakeLe(len, 8, rest);
    InsertAtEnd(acc, k, len);
    InsertSeparate(acc, k, len);
  }

  lemma RunsNext(m: Runs, k: nat)
    requires KeyAtOrAfter(m.Keys, 0) == Some(k)
    ensures k in m && |m - {k}| == |m| - 1
    ensures PutRuns(m) == Le(k, 8) + (Le(m[k], 8) + PutRuns(m - {k}))
  {
    OneKeyLess(m, k);
  }

  lemma NoRunsLeft(m: Runs, acc: Runs, rest: seq<Byte>)
    requires KeyAtOrAfter(m.Keys, 0) == None && Separate(acc)
    ensures TakeRuns(|m|, acc, PutRuns(m) + rest) == Got(acc + m, rest)
  {
    NoneLeft(m.Keys);
    assert m == map[];
    assert PutRuns(m) + rest == rest;
    assert acc + m == acc;
  }

  lemma TakePutFirstRun(m: Runs, k: nat, acc: Runs, rest: seq<Byte>)
    requires k in m && k < WORD && 0 < m[k] < WORD && |m| > 0
    requires Separate(acc) && forall j :: j in acc ==> j + acc[j] < k
    requires PutRuns(m) == Le(k, 8) + (Le(m[k], 8) + PutRuns(m - {k}))
    ensures Separate(acc[k := m[k]])
    ensures TakeRuns(|m|, acc, PutRuns(m) + rest) == TakeRuns(|m| - 1, acc[k := m[k]], PutRuns(m - {k}) + rest)
  {
    hide *;
    Assoc(Le(k, 8), Le(m[k], 8) + PutRuns(m - {k}), rest);
    Assoc(Le(m[k], 8), PutRuns(m - {k}), rest);
    TakeRun(|m| - 1, acc, k, m[k], PutRuns(m - {k}) + rest);
  }

  ghost predicate AllBefore(acc: Runs, m: Runs) {
    forall j, k :: j in acc && k in m ==> j + acc[j] < k
  }

  lemma BeforeNext(acc: Runs, m: Runs, k: nat)
    requires AllBefore(acc, m) && Separate(m) && KeyAtOrAfter(m.Keys, 0) == Some(k)
    ensures AllBefore(acc[k := m[k]], m - {k}) && Separate(m - {k}) && m[k] > 0
    ensures forall j :: j in acc ==> j + acc[j] < k
    ensures RunsOk(m) ==> RunsOk(m - {k}) && k < WORD && m[k] < WORD
  {
  }

  lemma {:induction false} TakePutRuns(m: Runs, acc: Runs, rest: seq<Byte>)
    requires Separate(acc) && Separate(m) && RunsOk(m) && AllBefore(acc, m)
    ensures TakeRuns(|m|, acc, PutRuns(m) + rest) == Got(acc + m, rest)
    decreases |m|
  {
    hide *;
    var first: Option<nat> := KeyAtOrAfter(m.Keys, 0);
    if first.None? {
      NoRunsLeft(m, acc, rest);
    } else {
      var k := first.value;
      RunsNext(m, k);
      BeforeNext(acc, m, k);
      TakePutFirstRun(m, k, acc, rest);
      TakePutRuns(m - {k}, acc[k := m[k]], rest);
      MapMove(acc, m, k);
    }
  }
}
