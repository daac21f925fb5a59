/** `interval_set` (src/include/interval_set.h): a set of blocks kept as maximal runs. */
module IntervalSet {
  import opened Extents

  /** The first run that ends at or after `start`: it contains, touches or follows it. */
  function FindAdjacent(m: Runs, start: nat): (r: Option<nat>)
    requires Separate(m)
    ensures r.Some? ==> r.value in m && r.value + m[r.value] >= start
    ensures r.Some? ==> forall k :: k in m && k < r.value ==> k + m[k] < start
    ensures r.None? ==> forall k :: k in m ==> k + m[k] < start
  {
    var p := KeyAtOrAfter(m.Keys, start);
    if p.Some? && p.value == start then p
    else
      var q := KeyBefore(m.Keys, start);
      if q.Some? && q.value + m[q.value] >= start then q else p
  }

  /** Two runs of which the second begins where the first ends, made into one. */
  ghost function Joined(m: Runs, a: nat, b: nat): Runs
    requires a in m && b in m
  {
    (m - {b})[a := m[a] + m[b]]
  }

  lemma JoinKeepsBlocks(m: Runs, a: nat, b: nat)
    requires Disjoint(m) && a in m && b in m && a + m[a] == b
    ensures Disjoint(Joined(m, a, b))
    ensures Blocks(Joined(m, a, b)) == Blocks(m)
  {
    var j := Joined(m, a, b);
    forall x: nat ensures x in Blocks(j) <==> x in Blocks(m) {
      if k :| Covers(m, k, x) {
        assert Covers(j, if k == b then a else k, x);
      }
      if k :| Covers(j, k, x) {
        assert Covers(m, if k == a && x >= b then b else k, x);
      }
    }
  }

  /** Adds a run of blocks, none of which is in the set yet. */
  function Insert(m: Runs, start: nat, len: nat): Runs
    requires Separate(m) && len > 0
  {
    var p := FindAdjacent(m, start);
    if p.None? then m[start := len]
    else if p.value < start then
      var n := start + len;
      if n in m then m[p.value := m[p.value] + len + m[n]] - {n}
      else m[p.value := m[p.value] + len]
    else if start + len == p.value then m[start := len + m[p.value]] - {p.value}
    else m[start := len]
  }

  /** Runs stay maximal when each run that touches the new one is joined with it. */
  lemma InsertSeparate(m: Runs, start: nat, len: nat)
    requires Separate(m) && len > 0
    requires forall j :: j in m ==> j + m[j] <= start || start + len <= j
    ensures Separate(Insert(m, start, len))
  {
    IsFree(m, start, len);
    hide *;
    var p := FindAdjacent(m, start);
    InsertIs(m, start, len);
    if p.Some? && p.value < start {
      if start + len in m {
        BothSeparate(m, p.value, start, len);
      } else {
        LeftSeparate(m, p.value, start, len);
      }
    } else if p.Some? && start + len == p.value {
      RightSeparate(m, start, len);
    } else {
      AloneSeparate(m, p, start, len);
    }
  }

  lemma IsFree(m: Runs, start: nat, len: nat)
    requires len > 0 && forall j :: j in m ==> j + m[j] <= start || start + len <= j
    ensures Free(m, start, len)
  {
  }

  lemma InsertIs(m: Runs, start: nat, len: nat)
    requires Separate(m) && len > 0
    ensures var p, n := FindAdjacent(m, start), start + len;
            Insert(m, start, len) ==
              if p.Some? && p.value < start then
                if n in m then m[p.value := m[p.value] + len + m[n]] - {n} else m[p.value := m[p.value] + len]
              else if p.Some? && n == p.value then m[start := len + m[p.value]] - {p.value}
              else m[start := len]
  {
    hide FindAdjacent;
    hide Separate;
  }

  ghost predicate Free(m: Runs, start: nat, len: nat) {
    len > 0 && forall j :: j in m ==> j + m[j] <= start || start + len <= j
  }

  lemma BothSeparate(m: Runs, p: nat, start: nat, len: nat)
    requires Separate(m) && Free(m, start, len) && p in m && p < start <= p + m[p] && start + len in m
    ensures Separate(m[p := m[p] + len + m[start + len]] - {start + len})
  {
    var n: nat := start + len;
    var l := m[p] + len + m[n];
    LessSeparate(m, n);
    var r := m - {n};
    assert forall j :: j in r && j != p ==> j + m[j] < p || n + m[n] < j;
    PutSeparate(r, p, l);
    assert r[p := l] == m[p := l] - {n};
  }

  lemma LeftSeparate(m: Runs, p: nat, start: nat, len: nat)
    requires Separate(m) && Free(m, start, len) && p in m && p < start <= p + m[p] && start + len !in m
    ensures Separate(m[p := m[p] + len])
  {
    PutSeparate(m, p, m[p] + len);
  }

  lemma RightSeparate(m: Runs, start: nat, len: nat)
    requires Separate(m) && Free(m, start, len) && start + len in m
    requires forall j :: j in m && j < start + len ==> j + m[j] < start
    ensures Separate(m[start := len + m[start + len]] - {start + len})
  {
    var n: nat := start + len;
    var l := len + m[n];
    LessSeparate(m, n);
    PutSeparate(m - {n}, start, l);
    assert (m - {n})[start := l] == m[start := l] - {n};
  }

  lemma AloneSeparate(m: Runs, p: Option<nat>, start: nat, len: nat)
    requires Separate(m) && Free(m, start, len)
    requires p.None? ==> forall j :: j in m ==> j + m[j] < start
    requires p.Some? ==> p.value in m && start <= p.value && start + len != p.value
    requires p.Some? ==> forall j :: j in m && j < p.value ==> j + m[j] < start
    ensures Separate(m[start := len])
  {
    PutSeparate(m, start, len);
  }

  lemma PutSeparate(m: Runs, start: nat, len: nat)
    requires Separate(m) && len > 0
    requires forall j :: j in m && j != start ==> j + m[j] < start || start + len < j
    ensures Separate(m[start := len])
  {
  }

  lemma LessSeparate(m: Runs, k: nat)
    requires Separate(m)
    ensures Separate(m - {k})
  {
  }

  lemma JoinLeft(m: Runs, p: nat, start: nat, len: nat)
    requires Disjoint(m[start := len]) && start !in m && p in m && p + m[p] == start
    ensures var r := m[p := m[p] + len];
            Disjoint(r) && Blocks(r) == Blocks(m[start := len])
  {
    JoinKeepsBlocks(m[start := len], p, start);
    assert Joined(m[start := len], p, start) == m[p := m[p] + len];
  }

  lemma JoinBoth(m: Runs, p: nat, start: nat, len: nat)
    requires Disjoint(m[start := len]) && start !in m && p in m && p + m[p] == start
    requires start + len in m
    ensures Blocks(m[p := m[p] + len + m[start + len]] - {start + len}) == Blocks(m[start := len])
  {
    JoinLeft(m, p, start, len);
    var m2 := m[p := m[p] + len];
    JoinKeepsBlocks(m2, p, start + len);
    assert Joined(m2, p, start + len) == m[p := m[p] + len + m[start + len]] - {start + len};
  }

  lemma JoinRight(m: Runs, start: nat, len: nat)
    requires Disjoint(m[start := len]) && start !in m && start + len in m
    ensures Blocks(m[start := len + m[start + len]] - {start + len}) == Blocks(m[start := len])
  {
    JoinKeepsBlocks(m[start := len], start, start + len);
    assert Joined(m[start := len], start, start + len)
        == m[start := len + m[start + len]] - {start + len};
  }

  lemma InsertBlocks(m: Runs, start: nat, len: nat)
    requires Separate(m) && len > 0
    requires start !in m && Disjoint(m[start := len])
    requires forall j :: j in m ==> j + m[j] <= start || start + len <= j
    ensures Blocks(Insert(m, start, len)) == Blocks(m[start := len])
  {
    hide Blocks;
    hide Disjoint;
    hide FindAdjacent;
    var p := FindAdjacent(m, start);
    hide Separate;
    if p.Some? && p.value < start {
      if start + len in m {
        JoinBoth(m, p.value, start, len);
      } else {
        JoinLeft(m, p.value, start, len);
      }
    } else if p.Some? && start + len == p.value {
      JoinRight(m, start, len);
    }
  }

  /** The set gains exactly those blocks, and its runs stay maximal. */
  lemma InsertAdds(m: Runs, start: nat, len: nat)
    requires Separate(m) && len > 0
    requires Range(start, len) !! Blocks(m)
    ensures Separate(Insert(m, start, len))
    ensures Blocks(Insert(m, start, len)) == Blocks(m) + Range(start, len)
  {
    hide Blocks;
    hide Insert;
    FreshRun(m, start, len);
    InsertSeparate(m, start, len);
    InsertBlocks(m, start, len);
    BlocksInsert(m, start, len);
  }
}
