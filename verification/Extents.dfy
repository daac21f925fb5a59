/** Extents, runs of blocks, and the ordered look-ups that the source makes on its
    tables and maps (src/ebofs/types.h, src/ebofs/Table.h, src/include/interval_set.h). */
module Extents {

  datatype Option<+T> = None | Some(value: T)

  type Byte = n: nat | n < 256

  /** A run of `length` disk blocks. */
  datatype Extent = Extent(start: nat, length: nat) {
    function End(): nat { start + length }
  }

  /** The blocks start, ..., start + len - 1. */
  ghost function Range(start: nat, len: nat): set<nat> {
    set b {:trigger InRange(start, len, b)} | start <= b < start + len && InRange(start, len, b)
  }

  ghost predicate InRange(start: nat, len: nat, b: nat) {
    start <= b < start + len
  }

  lemma {:induction false} RangeSize(start: nat, len: nat)
    ensures |Range(start, len)| == len
  {
    if len == 0 {
      assert Range(start, len) == {};
    } else {
      RangeSize(start, len - 1);
      assert Range(start, len) == Range(start, len - 1) + {start + len - 1};
    }
  }

  ghost predicate Least(s: set<nat>, m: nat) {
    m in s && forall j :: j in s ==> m <= j
  }

  ghost predicate Greatest(s: set<nat>, m: nat) {
    m in s && forall j :: j in s ==> j <= m
  }

  lemma LeastExists(s: set<nat>, x: nat)
    requires x in s
    ensures exists m :: Least(s, m)
    decreases x
  {
    if y :| y in s && y < x {
      LeastExists(s, y);
    } else {
      assert Least(s, x);
    }
  }

  lemma GreatestExists(s: set<nat>, x: nat)
    requires x in s
    ensures exists m :: Greatest(s, m)
    decreases |s|
  {
    if y :| y in s && x < y {
      var t := s - {x};
      GreatestExists(t, y);
      var m :| Greatest(t, m);
      assert y in t;
      assert forall j :: j in s ==> j == x || j in t;
      assert Greatest(s, m);
    } else {
      assert Greatest(s, x);
    }
  }

  lemma RangeInThree(c: nat, s: nat, l: nat, end: nat)
    requires c <= s && s + l <= end
    ensures Range(c, end - c) == Range(c, s - c) + Range(s, l) + Range(s + l, end - (s + l))
    ensures Range(c, s - c) !! Range(s, l)
    ensures Range(s + l, end - (s + l)) !! Range(s, l)
    ensures Range(s + l, end - (s + l)) !! Range(c, s - c)
  {
  }

  /** The smallest key at or after k: where a table look-up for k lands. */
  function KeyAtOrAfter(keys: set<nat>, k: nat): (r: Option<nat>)
    ensures r.Some? ==> r.value in keys && r.value >= k
    ensures r.Some? ==> forall j :: j in keys && j >= k ==> r.value <= j
    ensures r.None? ==> forall j :: j in keys ==> j < k
  {
    var s := set j | j in keys && j >= k;
    assert forall j :: j in keys && j >= k ==> j in s;
    if s == {} then None
    else
      var x :| x in s;
      LeastExists(s, x);
      var m :| m in s && forall j :: j in s ==> m <= j;
      Some(m)
  }

  /** The largest key before k: one step to the left of that look-up. */
  function KeyBefore(keys: set<nat>, k: nat): (r: Option<nat>)
    ensures r.Some? ==> r.value in keys && r.value < k
    ensures r.Some? ==> forall j :: j in keys && j < k ==> j <= r.value
    ensures r.None? ==> forall j :: j in keys ==> j >= k
  {
    var s := set j | j in keys && j < k;
    assert forall j :: j in keys && j < k ==> j in s;
    if s == {} then None
    else
      var x :| x in s;
      GreatestExists(s, x);
      var m :| m in s && forall j :: j in s ==> j <= m;
      Some(m)
  }

  /** A table from the first block of a run to its length. */
  type Runs = map<nat, nat>

  ghost predicate Covers(m: Runs, k: nat, b: nat) {
    k in m && k <= b < k + m[k]
  }

  /** All blocks of all runs. */
  ghost function Blocks(m: Runs): set<nat> {
    set k, b {:trigger Covers(m, k, b)} | k in m && k <= b < k + m[k] && Covers(m, k, b) :: b
  }

  /** How many blocks that is. */
  ghost function Size(m: Runs): nat {
    |Blocks(m)|
  }

  lemma SizeInsert(m: Runs, start: nat, len: nat, m': Runs)
    requires Range(start, len) !! Blocks(m) && Blocks(m') == Blocks(m) + Range(start, len)
    ensures Size(m') == Size(m) + len
  {
    RangeSize(start, len);
  }

  /** Runs are non-empty and do not overlap. */
  ghost predicate Disjoint(m: Runs) {
    && (forall k :: k in m ==> m[k] > 0)
    && (forall j, k :: j in m && k in m && j < k ==> j + m[j] <= k)
  }

  /** Runs are non-empty and no two touch: each is maximal. */
  ghost predicate Separate(m: Runs) {
    && (forall k :: k in m ==> m[k] > 0)
    && (forall j, k :: j in m && k in m && j < k ==> j + m[j] < k)
  }

  lemma NoRuns()
    ensures Blocks(map[]) == {} && Size(map[]) == 0
    ensures Separate(map[]) && Disjoint(map[])
  {
  }

  lemma InBlocks(m: Runs, b: nat)
    ensures b in Blocks(m) <==> exists k :: Covers(m, k, b)
  {
    if b in Blocks(m) {
      var k :| k in m && k <= b < k + m[k];
      assert Covers(m, k, b);
    }
  }

  lemma BlocksInsert(m: Runs, k: nat, len: nat)
    requires k !in m
    ensures Blocks(m[k := len]) == Blocks(m) + Range(k, len)
  {
    var n := m[k := len];
    forall b ensures b in Blocks(n) <==> b in Blocks(m) + Range(k, len) {
      InBlocks(m, b);
      InBlocks(n, b);
      if j :| Covers(m, j, b) {
        assert Covers(n, j, b);
      }
      if b in Range(k, len) {
        assert Covers(n, k, b);
      }
      if j :| Covers(n, j, b) {
        assert j == k || Covers(m, j, b);
      }
    }
  }

  lemma BlocksRemove(m: Runs, k: nat)
    requires Disjoint(m) && k in m
    ensures Range(k, m[k]) <= Blocks(m)
    ensures Blocks(m - {k}) == Blocks(m) - Range(k, m[k])
    ensures Disjoint(m - {k})
  {
    var n := m - {k};
    forall b ensures b in Blocks(n) <==> b in Blocks(m) - Range(k, m[k]) {
      InBlocks(m, b);
      InBlocks(n, b);
      if j :| Covers(n, j, b) {
        assert Covers(m, j, b);
      }
      if j :| Covers(m, j, b) && b !in Range(k, m[k]) {
        assert Covers(n, j, b);
      }
    }
    forall b | b in Range(k, m[k]) ensures b in Blocks(m) {
      assert Covers(m, k, b);
      InBlocks(m, b);
    }
  }

  lemma BlocksRemoveSize(m: Runs, k: nat)
    requires Disjoint(m) && k in m
    ensures Size(m - {k}) + m[k] == Size(m)
  {
    BlocksRemove(m, k);
    RangeSize(k, m[k]);
    assert Blocks(m) == Blocks(m - {k}) + Range(k, m[k]);
  }

  /** A run whose blocks are all outside `m` starts and ends clear of every run of `m`. */
  lemma FreshRun(m: Runs, k: nat, len: nat)
    requires Disjoint(m) && len > 0
    requires Range(k, len) !! Blocks(m)
    ensures k !in m
    ensures Disjoint(m[k := len])
    ensures forall j :: j in m ==> j + m[j] <= k || k + len <= j
  {
    forall j | j in m ensures j + m[j] <= k || k + len <= j {
      if j <= k < j + m[j] {
        assert Covers(m, j, k);
        InBlocks(m, k);
        assert false;

      } else if k <= j < k + len {
        assert Covers(m, j, j);
        InBlocks(m, j);
        assert false;

      }
    }
  }

  // ---- walking over the runs in order ----

  /** The runs that a walk has passed when the cursor is at `p` (all of them at the end). */
  ghost function Passed(m: Runs, p: Option<nat>): Runs {
    map k | k in m && (p.Some? ==> k < p.value) :: m[k]
  }

  lemma PassedNone(m: Runs)
    ensures Passed(m, None) == m
    ensures Passed(m, KeyAtOrAfter(m.Keys, 0)) == map[]
  {
  }

  lemma PassedNext(m: Runs, k: nat)
    requires k in m
    ensures var next := KeyAtOrAfter(m.Keys, k + 1);
            && k !in Passed(m, Some(k))
            && Passed(m, next) == Passed(m, Some(k))[k := m[k]]
  {
  }

  lemma PassedDisjoint(m: Runs, k: nat)
    requires Disjoint(m) && k in m
    ensures Blocks(Passed(m, KeyAtOrAfter(m.Keys, k + 1))) == Blocks(Passed(m, Some(k))) + Range(k, m[k])
    ensures Range(k, m[k]) !! Blocks(Passed(m, Some(k)))
    ensures Range(k, m[k]) <= Blocks(m) && m[k] > 0
    ensures Size(Passed(m, KeyAtOrAfter(m.Keys, k + 1))) == Size(Passed(m, Some(k))) + m[k]
    ensures Size(Passed(m, Some(k))) + m[k] <= Size(m)
  {
    hide Blocks;
    var done := Passed(m, Some(k));
    PassedNext(m, k);
    BlocksInsert(done, k, m[k]);
    BlocksRemove(done[k := m[k]], k);
    assert done[k := m[k]] - {k} == done;
    BlocksRemove(m, k);
    PassedWithin(m, Some(k));
    assert Blocks(done) + Range(k, m[k]) <= Blocks(m);
    RangeSize(k, m[k]);
    SubsetSize(Blocks(done) + Range(k, m[k]), Blocks(m));
  }

  lemma PassedWithin(m: Runs, p: Option<nat>)
    ensures Blocks(Passed(m, p)) <= Blocks(m)
  {
    forall b | b in Blocks(Passed(m, p)) ensures b in Blocks(m) {
      InBlocks(Passed(m, p), b);
      var k :| Covers(Passed(m, p), k, b);
      assert k in Passed(m, p) && Passed(m, p)[k] == m[k];
      assert Covers(m, k, b);
    }
  }

  lemma SubsetSize(a: set<nat>, b: set<nat>)
    requires a <= b
    ensures |a| <= |b|
  {
    assert b == a + (b - a);
  }

  lemma UnionRuns(a: Runs, b: Runs)
    requires Disjoint(a) && Disjoint(b) && Blocks(a) !! Blocks(b)
    ensures Disjoint(a + b)
    ensures Blocks(a + b) == Blocks(a) + Blocks(b)
  {
    var u := a + b;
    forall k | k in b ensures k !in a && forall j :: j in a ==> j + a[j] <= k || k + b[k] <= j {
      assert Range(k, b[k]) !! Blocks(a) by { BlocksRemove(b, k); }
      FreshRun(a, k, b[k]);
    }
    forall x: nat ensures x in Blocks(u) <==> x in Blocks(a) + Blocks(b) {
      if k :| Covers(u, k, x) {
        assert Covers(if k in b then b else a, k, x);
      }
      if k :| Covers(a, k, x) {
        assert Covers(u, k, x);
      }
      if k :| Covers(b, k, x) {
        assert Covers(u, k, x);
      }
    }
  }

  /** The cursor is on a run, and the runs not yet passed are among `rest`. */
  ghost predicate Ahead(m: Runs, p: Option<nat>, rest: set<nat>) {
    p.Some? ==> p.value in m && p.value in rest && forall k :: k in m && k >= p.value ==> k in rest
  }

  lemma AheadFirst(m: Runs)
    ensures Ahead(m, KeyAtOrAfter(m.Keys, 0), m.Keys)
  {
  }

  lemma AheadNext(m: Runs, p: Option<nat>, rest: set<nat>)
    requires Ahead(m, p, rest) && p.Some?
    ensures p.value in m && p.value in rest
    ensures Ahead(m, KeyAtOrAfter(m.Keys, p.value + 1), rest - {p.value})
  {
  }
}
