/** The extent map of an object as a sequence of cells (src/ebofs/Onode.h): which disk block, if
    any, holds each object block, and its checksum. */
module ExtentMaps {
  import opened Extents

  /** A run of object blocks: on disk from `ex.start`, or a hole if that is 0. */
  datatype ExtentCsum = ExtentCsum(ex: Extent, csum: seq<int>)

  type ExtentMap = map<nat, ExtentCsum>

  /** What the extent map says of one object block. */
  datatype Cell = Nowhere | Hole | Real(disk: nat, csum: int)

  function ResizeTail(csum: seq<int>, n: nat): (r: seq<int>)
    ensures |r| == n
    ensures forall j :: 0 <= j < n && j < |csum| ==> r[j] == csum[j]
    ensures forall j :: |csum| <= j < n ==> r[j] == 0
  {
    if n <= |csum| then csum[..n] else csum + seq(n - |csum|, _ => 0)
  }

  function ResizeHead(csum: seq<int>, n: nat): (r: seq<int>)
    ensures |r| == n
    ensures n <= |csum| ==> r == csum[|csum| - n..]
  {
    if n <= |csum| then csum[|csum| - n..] else seq(n - |csum|, _ => 0) + csum
  }

  // ---- the map, block by block ----

  function CellIn(e: ExtentCsum, j: nat): Cell {
    if e.ex.start == 0 then Hole
    else Real(e.ex.start + j, if j < |e.csum| then e.csum[j] else 0)
  }

  ghost predicate Holds(m: ExtentMap, k: nat, i: nat) {
    k in m && k <= i < k + m[k].ex.length
  }

  ghost function At(m: ExtentMap, i: nat): Cell {
    if exists k: nat :: Holds(m, k, i) then
      var k: nat :| Holds(m, k, i);
      CellIn(m[k], i - k)
    else Nowhere
  }

  ghost function CellsOf(m: ExtentMap, n: nat): (c: seq<Cell>)
    ensures |c| == n
    ensures forall i :: 0 <= i < n ==> c[i] == At(m, i)
  {
    seq(n, i requires 0 <= i < n => At(m, i))
  }

  /** The cells that an extent stands for. */
  ghost function Span(e: ExtentCsum): (c: seq<Cell>)
    ensures |c| == e.ex.length
  {
    seq(e.ex.length, j requires 0 <= j < e.ex.length => CellIn(e, j))
  }

  ghost function Blank(n: nat): (c: seq<Cell>)
    ensures |c| == n
  {
    seq(n, _ => Nowhere)
  }

  ghost predicate Apart(m: ExtentMap) {
    forall j, k :: j in m && k in m && j < k ==> j + m[j].ex.length <= k
  }

  ghost predicate Good(e: ExtentCsum) {
    e.ex.length > 0 && |e.csum| == if e.ex.start == 0 then 0 else e.ex.length
  }

  ghost predicate AllGood(m: ExtentMap) {
    forall k :: k in m ==> Good(m[k])
  }

  ghost predicate Tiles(m: ExtentMap, n: nat) {
    forall i: nat :: At(m, i) != Nowhere <==> i < n
  }

  lemma AtIs(m: ExtentMap, k: nat, i: nat)
    requires Apart(m) && Holds(m, k, i)
    ensures At(m, i) == CellIn(m[k], i - k)
  {
    forall j: nat | Holds(m, j, i) ensures j == k {
      if j < k {
        assert false;
      } else if k < j {
        assert false;
      }
    }
  }

  lemma Holder(m: ExtentMap, i: nat) returns (k: nat)
    requires At(m, i) != Nowhere
    ensures Holds(m, k, i)
  {
    k :| Holds(m, k, i);
  }

  lemma NobodyHolds(m: ExtentMap, i: nat)
    requires forall k: nat :: !Holds(m, k, i)
    ensures At(m, i) == Nowhere
  {
  }

  /** The cells of an extent are a piece of the whole. */
  lemma SpanAt(m: ExtentMap, n: nat, k: nat)
    requires Apart(m) && k in m && k + m[k].ex.length <= n
    ensures CellsOf(m, n)[k..k + m[k].ex.length] == Span(m[k])
  {
    var c := CellsOf(m, n);
    forall j | 0 <= j < m[k].ex.length ensures c[k + j] == CellIn(m[k], j) {
      assert Holds(m, k, k + j);
      AtIs(m, k, k + j);
    }
    hide At;
    hide Holds;
    hide CellIn;
  }

  lemma SliceOfSlice(c: seq<Cell>, k: nat, e: nat, a: nat, b: nat)
    requires k <= a <= b <= e <= |c|
    ensures c[a..b] == c[k..e][a - k..b - k]
  {
    var d := c[k..e];
    forall i | 0 <= i < b - a ensures c[a..b][i] == d[a - k..b - k][i] {
      assert d[a - k + i] == c[k + (a - k + i)];
    }
  }

  // ---- totals ----

  ghost function Reals(c: seq<Cell>): nat {
    if c == [] then 0 else Reals(c[..|c| - 1]) + if c[|c| - 1].Real? then 1 else 0
  }

  ghost function Sum(c: seq<Cell>): int {
    if c == [] then 0 else Sum(c[..|c| - 1]) + if c[|c| - 1].Real? then c[|c| - 1].csum else 0
  }

  ghost function Total(s: seq<int>): int {
    if s == [] then 0 else Total(s[..|s| - 1]) + s[|s| - 1]
  }

  lemma {:induction false} Concat(c: seq<Cell>, d: seq<Cell>)
    ensures Reals(c + d) == Reals(c) + Reals(d)
    ensures Sum(c + d) == Sum(c) + Sum(d)
    decreases |d|
  {
    if d == [] {
      assert c + d == c;
    } else {
      var n := |d| - 1;
      Concat(c, d[..n]);
      assert (c + d)[..|c| + n] == c + d[..n];
    }
  }

  lemma {:induction false} NoReals(c: seq<Cell>)
    requires forall i :: 0 <= i < |c| ==> !c[i].Real?
    ensures Reals(c) == 0 && Sum(c) == 0
    decreases |c|
  {
    if c != [] {
      NoReals(c[..|c| - 1]);
    }
  }

  /** A piece of a real extent weighs its length, and its checksums. */
  lemma {:induction false} SpanTotals(e: ExtentCsum, a: nat, b: nat)
    requires Good(e) && a <= b <= e.ex.length && e.ex.start != 0
    ensures Reals(Span(e)[a..b]) == b - a
    ensures Sum(Span(e)[a..b]) == Total(e.csum[a..b])
    decreases b
  {
    var c := Span(e)[a..b];
    if a < b {
      SpanTotals(e, a, b - 1);
      assert c[..b - a - 1] == Span(e)[a..b - 1];
      assert c[b - a - 1] == CellIn(e, b - 1);
      assert e.csum[a..b][..b - a - 1] == e.csum[a..b - 1];
    }
  }

  lemma HoleTotals(e: ExtentCsum, a: nat, b: nat)
    requires a <= b <= e.ex.length && e.ex.start == 0
    ensures Reals(Span(e)[a..b]) == 0 && Sum(Span(e)[a..b]) == 0
  {
    NoReals(Span(e)[a..b]);
  }

  lemma {:induction false} TotalConcat(s: seq<int>, t: seq<int>)
    ensures Total(s + t) == Total(s) + Total(t)
    decreases |t|
  {
    if t == [] {
      assert s + t == s;
    } else {
      var n := |t| - 1;
      TotalConcat(s, t[..n]);
      assert (s + t)[..|s| + n] == s + t[..n];
    }
  }

  // ---- taking blocks out of the map ----

  /** m' is m without the blocks in [a, b). */
  ghost predicate Carved(m: ExtentMap, m': ExtentMap, a: nat, b: nat) {
    && Apart(m') && AllGood(m')
    && forall i: nat :: At(m', i) == if a <= i < b then Nowhere else At(m, i)
  }

  /** The first and the last n blocks of an extent. */
  function Front(e: ExtentCsum, n: nat): ExtentCsum
    requires n <= e.ex.length
  {
    ExtentCsum(Extent(e.ex.start, n), if e.ex.start == 0 then e.csum else ResizeTail(e.csum, n))
  }

  function Back(e: ExtentCsum, n: nat): ExtentCsum
    requires n <= e.ex.length
  {
    if e.ex.start == 0 then ExtentCsum(Extent(0, n), e.csum)
    else ExtentCsum(Extent(e.ex.start + e.ex.length - n, n), ResizeHead(e.csum, n))
  }

  /** Extent k without the blocks in [a, b). */
  ghost function Carve(m: ExtentMap, k: nat, a: nat, b: nat): ExtentMap
    requires k in m && k <= a < b <= k + m[k].ex.length
  {
    var left := if k < a then m[k := Front(m[k], a - k)] else m - {k};
    if b < k + m[k].ex.length then left[b := Back(m[k], k + m[k].ex.length - b)] else left
  }

  lemma CarveGood(m: ExtentMap, k: nat, a: nat, b: nat)
    requires AllGood(m) && k in m && k <= a < b <= k + m[k].ex.length
    ensures AllGood(Carve(m, k, a, b))
  {
  }

  lemma CarveApart(m: ExtentMap, k: nat, a: nat, b: nat)
    requires Apart(m) && AllGood(m) && k in m && k <= a < b <= k + m[k].ex.length
    ensures Apart(Carve(m, k, a, b))
  {
    hide ResizeTail;
    hide ResizeHead;
    var r := Carve(m, k, a, b);
    forall i, j | i in r && j in r && i < j ensures i + r[i].ex.length <= j {
      assert j in m || j == b;
      assert i in m || i == b;
    }
  }

  /** Block i, if it is not in [a, b), is where it was. */
  lemma CarveKeeps(m: ExtentMap, k: nat, a: nat, b: nat, i: nat, j: nat)
    requires Apart(m) && AllGood(m) && k in m && k <= a < b <= k + m[k].ex.length
    requires Holds(m, j, i) && !(a <= i < b)
    ensures var r := Carve(m, k, a, b);
            var h := if j == k && i >= b then b else j;
            Holds(r, h, i) && CellIn(r[h], i - h) == CellIn(m[j], i - j)
  {
  }

  /** And no other block is anywhere. */
  lemma CarveHolder(m: ExtentMap, k: nat, a: nat, b: nat, i: nat, h: nat)
    requires Apart(m) && AllGood(m) && k in m && k <= a < b <= k + m[k].ex.length
    requires Holds(Carve(m, k, a, b), h, i)
    ensures !(a <= i < b) && Holds(m, if h == b && b < k + m[k].ex.length then k else h, i)
  {
  }

  lemma CarveIsCarved(m: ExtentMap, k: nat, a: nat, b: nat)
    requires Apart(m) && AllGood(m) && k in m && k <= a < b <= k + m[k].ex.length
    ensures Carved(m, Carve(m, k, a, b), a, b)
  {
    hide Carve;
    hide CellIn;
    hide AllGood;
    CarveApart(m, k, a, b);
    CarveGood(m, k, a, b);
    var r := Carve(m, k, a, b);
    forall i: nat ensures At(r, i) == if a <= i < b then Nowhere else At(m, i) {
      if h: nat :| Holds(r, h, i) {
        CarveHolder(m, k, a, b, i, h);
        var j := if h == b && b < k + m[k].ex.length then k else h;
        AtIs(m, j, i);
        CarveKeeps(m, k, a, b, i, j);
        AtIs(r, if j == k && i >= b then b else j, i);
      } else if j: nat :| Holds(m, j, i) {
        if !(a <= i < b) {
          CarveKeeps(m, k, a, b, i, j);
        }
      }
    }
  }

  lemma CarveTotals(m: ExtentMap, m': ExtentMap, n: nat, k: nat, a: nat, b: nat)
    requires Apart(m) && AllGood(m) && k in m && k <= a <= b <= k + m[k].ex.length <= n
    requires Carved(m, m', a, b)
    ensures var onDisk := m[k].ex.start != 0;
            && Reals(CellsOf(m', n)) == Reals(CellsOf(m, n)) - (if onDisk then b - a else 0)
            && Sum(CellsOf(m', n)) == Sum(CellsOf(m, n)) - (if onDisk then Total(m[k].csum[a - k..b - k]) else 0)
  {
    hide At;
    hide Reals;
    hide Sum;
    hide Total;
    hide Span;
    var c := CellsOf(m, n);
    SpanAt(m, n, k);
    SliceOfSlice(c, k, k + m[k].ex.length, a, b);
    if m[k].ex.start != 0 {
      SpanTotals(m[k], a - k, b - k);
    } else {
      HoleTotals(m[k], a - k, b - k);
    }
    assert c == c[..a] + c[a..b] + c[b..];
    Concat(c[..a] + c[a..b], c[b..]);
    Concat(c[..a], c[a..b]);
    assert CellsOf(m', n) == c[..a] + Blank(b - a) + c[b..];
    Concat(c[..a] + Blank(b - a), c[b..]);
    Concat(c[..a], Blank(b - a));
    NoReals(Blank(b - a));
  }

  // ---- adding an extent ----

  /** m' is m with extent e at k, where nothing was. */
  ghost predicate Added(m: ExtentMap, m': ExtentMap, k: nat, e: ExtentCsum) {
    && Apart(m')
    && forall i: nat :: At(m', i) == if k <= i < k + e.ex.length then CellIn(e, i - k) else At(m, i)
  }

  lemma AddedApart(m: ExtentMap, k: nat, e: ExtentCsum)
    requires Apart(m) && AllGood(m) && e.ex.length > 0
    requires forall i: nat :: k <= i < k + e.ex.length ==> At(m, i) == Nowhere
    ensures k !in m && Apart(m[k := e])
  {
    hide At;
    hide CellIn;
    forall j | j in m ensures j + m[j].ex.length <= k || k + e.ex.length <= j {
      if j <= k < j + m[j].ex.length {
        assert At(m, k) == Nowhere;
        NotNowhere(m, j, k);
        assert false;
      } else if k <= j < k + e.ex.length {
        assert At(m, j) == Nowhere;
        NotNowhere(m, j, j);
        assert false;
      }
    }
  }

  lemma NotNowhere(m: ExtentMap, k: nat, i: nat)
    requires Apart(m) && Holds(m, k, i)
    ensures At(m, i) != Nowhere
  {
    AtIs(m, k, i);
  }

  lemma AddIsAdded(m: ExtentMap, k: nat, e: ExtentCsum)
    requires Apart(m) && AllGood(m) && e.ex.length > 0
    requires forall i: nat :: k <= i < k + e.ex.length ==> At(m, i) == Nowhere
    ensures Added(m, m[k := e], k, e)
  {
    hide CellIn;
    hide AllGood;
    AddedApart(m, k, e);
    var r := m[k := e];
    forall i: nat ensures At(r, i) == if k <= i < k + e.ex.length then CellIn(e, i - k) else At(m, i) {
      if h: nat :| Holds(r, h, i) {
        AtIs(r, h, i);
        if h != k {
          assert Holds(m, h, i);
          AtIs(m, h, i);
        }
      } else {
        assert forall h: nat :: Holds(m, h, i) ==> Holds(r, h, i);
        assert !Holds(r, k, i);
      }
    }
  }

  lemma AddTotals(m: ExtentMap, m': ExtentMap, n: nat, k: nat, e: ExtentCsum, n': nat)
    requires Good(e) && Added(m, m', k, e) && k + e.ex.length <= n'
    requires n <= n' && forall i: nat :: At(m, i) != Nowhere ==> i < n
    requires forall i: nat :: k <= i < k + e.ex.length ==> At(m, i) == Nowhere
    ensures var onDisk := e.ex.start != 0;
            && Reals(CellsOf(m', n')) == Reals(CellsOf(m, n)) + (if onDisk then e.ex.length else 0)
            && Sum(CellsOf(m', n')) == Sum(CellsOf(m, n)) + (if onDisk then Total(e.csum) else 0)
  {
    hide At;
    hide Reals;
    hide Sum;
    hide Total;
    hide CellIn;
    var c := CellsOf(m, n');
    var l := e.ex.length;
    assert c == CellsOf(m, n) + Blank(n' - n);
    Concat(CellsOf(m, n), Blank(n' - n));
    NoReals(Blank(n' - n));
    assert c == c[..k] + Blank(l) + c[k + l..];
    Concat(c[..k] + Blank(l), c[k + l..]);
    Concat(c[..k], Blank(l));
    NoReals(Blank(l));
    assert CellsOf(m', n') == c[..k] + Span(e) + c[k + l..];
    Concat(c[..k] + Span(e), c[k + l..]);
    Concat(c[..k], Span(e));
    SpanWhole(e);
  }

  lemma SpanWhole(e: ExtentCsum)
    requires Good(e)
    ensures e.ex.start != 0 ==> Reals(Span(e)) == e.ex.length && Sum(Span(e)) == Total(e.csum)
    ensures e.ex.start == 0 ==> Reals(Span(e)) == 0 && Sum(Span(e)) == 0
  {
    assert Span(e)[0..e.ex.length] == Span(e);
    if e.ex.start != 0 {
      assert e.csum[0..e.ex.length] == e.csum;
      SpanTotals(e, 0, e.ex.length);
    } else {
      HoleTotals(e, 0, e.ex.length);
    }
  }

  lemma {:induction false} ZerosTotal(n: nat)
    ensures Total(seq(n, _ => 0)) == 0
  {
    if n > 0 {
      ZerosTotal(n - 1);
      assert seq(n, _ => 0)[..n - 1] == seq(n - 1, _ => 0);
    }
  }

  /** An extent with a tail of new blocks: they have checksum 0. */
  lemma TailTotal(csum: seq<int>, n: nat)
    requires |csum| <= n
    ensures Total(ResizeTail(csum, n)) == Total(csum)
  {
    var z: seq<int> := seq(n - |csum|, _ => 0);
    ZerosTotal(n - |csum|);
    hide Total;
    assert ResizeTail(csum, n) == csum + z;
    hide ResizeTail;
    TotalConcat(csum, z);
  }

  // ---- walking over a map that tiles [0, n) ----

  lemma Below(m: ExtentMap, n: nat, k: nat)
    requires Apart(m) && AllGood(m) && k in m
    requires forall i: nat :: At(m, i) != Nowhere ==> i < n
    ensures k + m[k].ex.length <= n
  {
    hide At;
    hide CellIn;
    NotNowhere(m, k, k + m[k].ex.length - 1);
  }

  /** The extent after k begins where k ends. */
  lemma NextKey(m: ExtentMap, n: nat, k: nat)
    requires Apart(m) && AllGood(m) && Tiles(m, n) && k in m
    ensures var e := k + m[k].ex.length;
            && e <= n && (e < n ==> e in m)
            && KeyAtOrAfter(m.Keys, k + 1) == if e < n then Some(e) else None
  {
    hide At;
    hide CellIn;
    Below(m, n, k);
    var e := k + m[k].ex.length;
    if e < n {
      assert At(m, e) != Nowhere;
      var h := Holder(m, e);
      assert h == e;
    } else {
      forall h | h in m ensures h < k + 1 {
        Below(m, n, h);
      }
    }
  }

  /** Block i < n is in the last extent that starts at or before it. */
  lemma KeyFor(m: ExtentMap, n: nat, i: nat)
    requires Apart(m) && AllGood(m) && Tiles(m, n) && i < n
    ensures var k := KeyBefore(m.Keys, i + 1);
            k.Some? && i < k.value + m[k.value].ex.length
  {
    hide At;
    hide CellIn;
    assert At(m, i) != Nowhere;
    var h := Holder(m, i);
    var k := KeyBefore(m.Keys, i + 1);
    assert k.value == h;
  }

  lemma FirstKey(m: ExtentMap, n: nat)
    requires Apart(m) && AllGood(m) && Tiles(m, n)
    ensures n > 0 ==> 0 in m
    ensures n == 0 ==> m == map[]
  {
    hide At;
    hide CellIn;
    if n > 0 {
      assert At(m, 0) != Nowhere;
      var h := Holder(m, 0);
    } else if k :| k in m {
      Below(m, n, k);
      assert false;
    }
  }
}
