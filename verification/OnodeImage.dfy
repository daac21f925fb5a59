/** encode_onode and decode_onode (src/ebofs/Ebofs.cc): the loops that move along the buffer. */
module OnodeImage {
  import opened Extents
  import opened ExtentMaps
  import opened IntervalSet
  import opened Wire
  import opened OnodeCodec

  method WriteCollections(bl: seq<Byte>, collections: set<nat>) returns (r: seq<Byte>)
    ensures r == bl + PutCollections(collections)
  {
    r := bl;
    var left := collections;
    var i: Option<nat> := KeyAtOrAfter(left, 0);
    while i.Some?
      invariant i == KeyAtOrAfter(left, 0)
      invariant r + PutCollections(left) == bl + PutCollections(collections)
      decreases |left|
    {
      OneLess(left, i.value);
      Assoc(r, Le(i.value, 8), PutCollections(left - {i.value}));
      r := r + Le(i.value, 8);
      left := left - {i.value};
      i := KeyAtOrAfter(left, 0);
    }
    NoneLeft(left);
    assert r + [] == r;
  }

  method WriteAttrs(bl: seq<Byte>, attrs: map<Name, Value>) returns (r: seq<Byte>)
    ensures r == bl + PutAttrs(attrs)
  {
    hide PutAttr;
    r := bl;
    var left := attrs;
    while left != map[]
      invariant r + PutAttrs(left) == bl + PutAttrs(attrs)
      decreases |left|
    {
      FirstExists(left.Keys);
      var name :| name in left.Keys && forall b :: b in left.Keys && b != name ==> LexLess(name, b);
      FirstUnique(left.Keys, name, FirstName(left.Keys));
      AttrsNext(left);
      Assoc(r, PutAttr(name, left[name]), PutAttrs(left - {name}));
      r := r + PutAttr(name, left[name]);
      left := left - {name};
    }
    assert PutAttrs(left) == [] && r + [] == r;
  }

  method WriteExtents(bl: seq<Byte>, exts: ExtentMap) returns (r: seq<Byte>)
    ensures r == bl + PutExtents(exts)
  {
    hide PutExtent;
    r := bl;
    var left := exts;
    var i: Option<nat> := KeyAtOrAfter(left.Keys, 0);
    while i.Some?
      invariant i == KeyAtOrAfter(left.Keys, 0)
      invariant r + PutExtents(left) == bl + PutExtents(exts)
      decreases |left|
    {
      OneKeyLess(left, i.value);
      Assoc(r, PutExtent(left[i.value]), PutExtents(left - {i.value}));
      r := r + PutExtent(left[i.value]);
      left := left - {i.value};
      i := KeyAtOrAfter(left.Keys, 0);
    }
    assert PutExtents(left) == [] && r + [] == r;
  }

  method WriteRuns(bl: seq<Byte>, runs: Runs) returns (r: seq<Byte>)
    ensures r == bl + PutRuns(runs)
  {
    hide Le;
    r := bl;
    var left := runs;
    var i: Option<nat> := KeyAtOrAfter(left.Keys, 0);
    while i.Some?
      invariant i == KeyAtOrAfter(left.Keys, 0)
      invariant r + PutRuns(left) == bl + PutRuns(runs)
      decreases |left|
    {
      RunsNext(left, i.value);
      Assoc(r + Le(i.value, 8), Le(left[i.value], 8), PutRuns(left - {i.value}));
      Assoc(r, Le(i.value, 8), Le(left[i.value], 8) + PutRuns(left - {i.value}));
      r := r + Le(i.value, 8) + Le(left[i.value], 8);
      left := left - {i.value};
      i := KeyAtOrAfter(left.Keys, 0);
    }
    assert PutRuns(left) == [] && r + [] == r;
  }

  method EncodeBody(on: Record) returns (bl: seq<Byte>)
    ensures bl == Body(on)
  {
    var header := PutFields(HeaderFields(on), WIDTHS);
    bl := WriteCollections(header, on.collections);
    bl := WriteAttrs(bl, on.attrs);
    bl := WriteExtents(bl, on.extents);
    bl := WriteRuns(bl, on.badBytes);
    Regroup(header, PutCollections(on.collections), PutAttrs(on.attrs), PutExtents(on.extents), PutRuns(on.badBytes));
  }

  /** Returns the image and its checksum; the length and the checksum are filled in at the end. */
  method EncodeOnode(on: Record, sum: Checksum) returns (bl: seq<Byte>, csum: nat)
    ensures bl == Encode(on, sum) && csum == sum(Tail(on)) % WORD
  {
    hide Body;
    hide Le;
    var body := EncodeBody(on);
    var tail := Le(12 + |body|, 4) + body;
    csum := sum(tail) % WORD;
    bl := Le(csum, 8) + tail;
  }

  lemma Regroup(a: seq<Byte>, b: seq<Byte>, c: seq<Byte>, d: seq<Byte>, e: seq<Byte>)
    ensures a + b + c + d + e == a + (b + (c + (d + e)))
  {
    Assoc(a + b + c, d, e);
    Assoc(a + b, c, d + e);
    Assoc(a, b, c + (d + e));
  }

  // ---- decoding ----

  method ReadCollections(count: nat, bs: seq<Byte>) returns (g: Got<set<nat>>)
    ensures g == TakeCollections(count, {}, bs)
  {
    hide Take;
    var s: set<nat>, p := {}, bs;
    var i := 0;
    while i < count
      invariant 0 <= i <= count
      invariant TakeCollections(count - i, s, p) == TakeCollections(count, {}, bs)
    {
      var t := Take(p, 8);
      if t.Bad? {
        return Bad;
      }
      s, p, i := s + {t.value}, t.rest, i + 1;
    }
    g := Got(s, p);
  }

  method ReadAttrs(count: nat, bs: seq<Byte>) returns (g: Got<map<Name, Value>>)
    ensures g == TakeAttrs(count, map[], bs)
  {
    hide TakeAttr;
    var m: map<Name, Value>, p := map[], bs;
    var i := 0;
    while i < count
      invariant 0 <= i <= count
      invariant TakeAttrs(count - i, m, p) == TakeAttrs(count, map[], bs)
    {
      var t := TakeAttr(p);
      if t.Bad? {
        return Bad;
      }
      m, p, i := m[t.value.0 := t.value.1], t.rest, i + 1;
    }
    g := Got(m, p);
  }

  method ReadExtents(count: nat, bs: seq<Byte>) returns (g: Got<(ExtentMap, nat)>)
    ensures g == TakeExtents(count, map[], 0, bs)
  {
    hide TakeExtent;
    var m: ExtentMap, n, p := map[], 0, bs;
    var i := 0;
    while i < count
      invariant 0 <= i <= count && n >= 0
      invariant TakeExtents(count - i, m, n, p) == TakeExtents(count, map[], 0, bs)
    {
      var t := TakeExtent(p);
      if t.Bad? {
        return Bad;
      }
      m, n, p, i := m[n := t.value], n + t.value.ex.length, t.rest, i + 1;
    }
    g := Got((m, n), p);
  }

  method ReadRuns(count: nat, bs: seq<Byte>) returns (g: Got<Runs>)
    ensures g == TakeRuns(count, map[], bs)
  {
    hide Take;
    hide Insert;
    var m: Runs, p := map[], bs;
    var i := 0;
    while i < count
      invariant 0 <= i <= count && Separate(m)
      invariant TakeRuns(count - i, m, p) == TakeRuns(count, map[], bs)
    {
      var a := Take(p, 8);
      if a.Bad? {
        return Bad;
      }
      var b := Take(a.rest, 8);
      if b.Bad? || !Fits(m, a.value, b.value) {
        return Bad;
      }
      InsertSeparate(m, a.value, b.value);
      m, p, i := Insert(m, a.value, b.value), b.rest, i + 1;
    }
    g := Got(m, p);
  }

  method DecodeOnode(bs: seq<Byte>, expected: nat, sum: Checksum) returns (r: Option<Record>)
    ensures r == Decode(bs, expected, sum)
    ensures r.Some? ==> Checked(bs, expected, sum)
  {
    if Decode(bs, expected, sum).Some? {
      DecodeChecks(bs, expected, sum);
    }
    var head := TakeFields([8, 4], bs);
    if head.Bad? {
      return None;
    }
    var csum, bytes := head.value[0], head.value[1];
    if bytes > |bs| || bytes < 8 {
      return None;
    }
    var actual := sum(bs[8..bytes]) % WORD;
    if actual != csum || actual != expected {
      return None;
    }
    var fields := TakeFields(WIDTHS, head.rest);
    if fields.Bad? {
      return None;
    }
    var vs := fields.value;
    var r1 := ReadCollections(vs[12], fields.rest);
    if r1.Bad? {
      return None;
    }
    var r2 := ReadAttrs(vs[13], r1.rest);
    if r2.Bad? {
      return None;
    }
    var r3 := ReadExtents(vs[14], r2.rest);
    if r3.Bad? {
      return None;
    }
    var r4 := ReadRuns(vs[15], r3.rest);
    if r4.Bad? || |bs| - |r4.rest| != bytes {
      return None;
    }
    r := Some(Record(Extent(vs[0], vs[1]), ObjectId(vs[2], vs[3], vs[4], vs[5], vs[6]), vs[7], vs[8], vs[9], vs[10],
                     r1.value, r2.value, r3.value.0, r3.value.1, r4.value));
  }
}
