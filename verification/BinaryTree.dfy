/** The weight tree of the older placement code (src/crush.old/BinaryTree.h): leaves come and go,
    and the root moves up and down as the tree grows and shrinks. Weights are exact here. */
module BinaryTrees {
  import opened CrushTree

  /** The leaves in use, by position, with their weights. */
  type Leaves = map<nat, int>

  // ---- what a node should hold ----

  function LeafCount(l: Leaves, h: nat, q: nat): (n: nat) {
    if h == 0 then if q in l then 1 else 0
    else LeafCount(l, h - 1, 2 * q) + LeafCount(l, h - 1, 2 * q + 1)
  }

  function LeafWeight(l: Leaves, h: nat, q: nat): int {
    if h == 0 then if q in l then l[q] else 0
    else LeafWeight(l, h - 1, 2 * q) + LeafWeight(l, h - 1, 2 * q + 1)
  }

  /** Every leaf under the node is in use. */
  predicate Full(l: Leaves, h: nat, q: nat) {
    if h == 0 then q in l else Full(l, h - 1, 2 * q) && Full(l, h - 1, 2 * q + 1)
  }

  /** The two maps agree except at leaf i. */
  ghost predicate SameBut(l: Leaves, m: Leaves, i: nat) {
    forall j: nat :: j != i ==> (j in l <==> j in m) && (j in l ==> j in m && l[j] == m[j])
  }

  /** Nodes that are not above the leaf are not affected. */
  lemma {:induction false} Unaffected(l: Leaves, m: Leaves, i: nat, h: nat, q: nat)
    requires SameBut(l, m, i) && Above(i, h) != q
    ensures LeafCount(l, h, q) == LeafCount(m, h, q) && LeafWeight(l, h, q) == LeafWeight(m, h, q)
    ensures Full(l, h, q) == Full(m, h, q)
  {
    if h > 0 {
      Unaffected(l, m, i, h - 1, 2 * q);
      Unaffected(l, m, i, h - 1, 2 * q + 1);
    }
  }

  function Weigh(l: Leaves, i: nat): int {
    if i in l then l[i] else 0
  }

  /** And those above it change by that leaf. */
  lemma {:induction false} Affected(l: Leaves, m: Leaves, i: nat, h: nat)
    requires SameBut(l, m, i)
    ensures LeafCount(m, h, Above(i, h)) - (if i in m then 1 else 0) == LeafCount(l, h, Above(i, h)) - (if i in l then 1 else 0)
    ensures LeafWeight(m, h, Above(i, h)) - Weigh(m, i) == LeafWeight(l, h, Above(i, h)) - Weigh(l, i)
    ensures Full(l, h, Above(i, h)) ==> i in l
    ensures (i in l <==> i in m) ==> Full(l, h, Above(i, h)) == Full(m, h, Above(i, h))
  {
    if h > 0 {
      var c := Above(i, h - 1);
      var sibling := if c % 2 == 0 then c + 1 else c - 1;
      Affected(l, m, i, h - 1);
      Unaffected(l, m, i, h - 1, sibling);
    }
  }

  /** A node counts no leaf exactly when none is under it. */
  lemma {:induction false} CountZero(l: Leaves, h: nat, q: nat)
    ensures LeafCount(l, h, q) == 0 <==> forall i: nat :: i in l ==> Above(i, h) != q
    ensures LeafCount(l, h, q) == 0 ==> LeafWeight(l, h, q) == 0
    ensures Full(l, h, q) ==> LeafCount(l, h, q) > 0
  {
    if h > 0 {
      CountZero(l, h - 1, 2 * q);
      CountZero(l, h - 1, 2 * q + 1);
      forall i: nat ensures Above(i, h) == q <==> Above(i, h - 1) == 2 * q || Above(i, h - 1) == 2 * q + 1 {
      }
    }
  }

  /** The nodes under a node are those with its bits. */
  lemma {:induction false} AboveChild(q: nat, k: nat)
    ensures Above(2 * q, k + 1) == Above(q, k) && Above(2 * q + 1, k + 1) == Above(q, k)
  {
    if k > 0 {
      AboveChild(q, k - 1);
    }
  }

  // ---- what the vectors hold ----

  function Num(s: seq<int>, n: nat): int {
    if n < |s| then s[n] else 0
  }

  function Flag(s: seq<bool>, n: nat): bool {
    n < |s| && s[n]
  }

  /** The nodes below height j reflect the leaves `l`, the others reflect `m`; nodes at height
      `top` or more hold nothing. */
  ghost predicate Stored(ns: seq<int>, ws: seq<int>, cs: seq<bool>, l: Leaves, m: Leaves, j: nat, top: nat) {
    forall h: nat, q: nat :: NodeOk(ns, ws, cs, Side(l, m, j, h), h, q, top)
  }

  function Side(l: Leaves, m: Leaves, j: nat, h: nat): Leaves {
    if h < j then l else m
  }

  ghost predicate NodeOk(ns: seq<int>, ws: seq<int>, cs: seq<bool>, l: Leaves, h: nat, q: nat, top: nat) {
    var n := Node(h, q);
    && Num(ns, n) == (if h < top then LeafCount(l, h, q) else 0)
    && Num(ws, n) == (if h < top then LeafWeight(l, h, q) else 0)
    && (h > 0 ==> Flag(cs, n) == (h < top && Full(l, h, q)))
    && (h == 0 && q in l && h < top ==> Flag(cs, n))
  }

  lemma StoredAt(ns: seq<int>, ws: seq<int>, cs: seq<bool>, l: Leaves, m: Leaves, j: nat, top: nat, h: nat, q: nat)
    requires Stored(ns, ws, cs, l, m, j, top)
    ensures NodeOk(ns, ws, cs, Side(l, m, j, h), h, q, top)
  {
  }

  /** Putting the right values at the node of height j above leaf i moves the boundary up by one. */
  lemma StoredUp(ns: seq<int>, ws: seq<int>, cs: seq<bool>, ns': seq<int>, ws': seq<int>, cs': seq<bool>,
                 l: Leaves, m: Leaves, i: nat, j: nat, top: nat)
    requires Stored(ns, ws, cs, l, m, j, top) && SameBut(l, m, i)
    requires forall n: nat :: n != Node(j, Above(i, j)) ==>
               Num(ns', n) == Num(ns, n) && Num(ws', n) == Num(ws, n) && Flag(cs', n) == Flag(cs, n)
    requires NodeOk(ns', ws', cs', l, j, Above(i, j), top)
    ensures Stored(ns', ws', cs', l, m, j + 1, top)
  {
    hide LeafCount;
    hide LeafWeight;
    hide Full;
    var k := j + 1;
    forall h: nat, q: nat ensures NodeOk(ns', ws', cs', Side(l, m, k, h), h, q, top) {
      StoredAt(ns, ws, cs, l, m, j, top, h, q);
      if Node(h, q) == Node(j, Above(i, j)) {
        NodeUnique(h, q, j, Above(i, j));
      } else if h == j {
        assert q != Above(i, j);
        Unaffected(l, m, i, h, q);
      }
    }
  }

  /** Above the highest live node the boundary may be moved at will. */
  lemma StoredTop(ns: seq<int>, ws: seq<int>, cs: seq<bool>, l: Leaves, m: Leaves, j: nat, top: nat)
    requires Stored(ns, ws, cs, l, m, j, top) && j >= top
    ensures Stored(ns, ws, cs, l, l, 0, top)
  {
    hide LeafCount;
    hide LeafWeight;
    hide Full;
    forall h: nat, q: nat ensures NodeOk(ns, ws, cs, Side(l, l, 0, h), h, q, top) {
      StoredAt(ns, ws, cs, l, m, j, top, h, q);
    }
  }

  lemma StoredBegin(ns: seq<int>, ws: seq<int>, cs: seq<bool>, l: Leaves, m: Leaves, top: nat)
    requires Stored(ns, ws, cs, m, m, 0, top)
    ensures Stored(ns, ws, cs, l, m, 0, top)
  {
    hide NodeOk;
    forall h: nat, q: nat ensures NodeOk(ns, ws, cs, Side(l, m, 0, h), h, q, top) {
      StoredAt(ns, ws, cs, m, m, 0, top, h, q);
    }
  }

  /** What the accessors of the source say of a node. */
  function WeightOf(ns: seq<int>, ws: seq<int>, n: nat): int {
    if Num(ns, n) != 0 then Num(ws, n) else 0
  }

  function CompleteOf(ns: seq<int>, cs: seq<bool>, n: nat): bool {
    Num(ns, n) != 0 && Flag(cs, n)
  }

  lemma NodeSays(ns: seq<int>, ws: seq<int>, cs: seq<bool>, l: Leaves, h: nat, q: nat, top: nat)
    requires NodeOk(ns, ws, cs, l, h, q, top) && h < top
    ensures WeightOf(ns, ws, Node(h, q)) == LeafWeight(l, h, q)
    ensures CompleteOf(ns, cs, Node(h, q)) <==> Full(l, h, q)
    ensures Num(ns, Node(h, q)) != 0 <==> LeafCount(l, h, q) > 0
  {
    CountZero(l, h, q);
  }

  lemma LeafUnder(l: Leaves, i: nat, h: nat)
    requires i in l
    ensures LeafCount(l, h, Above(i, h)) > 0
  {
    CountZero(l, h, Above(i, h));
  }

  /** All leaves are under one node. */
  ghost predicate AllUnder(l: Leaves, h: nat, q: nat) {
    forall i: nat :: i in l ==> Above(i, h) == q
  }

  lemma OthersEmpty(l: Leaves, h: nat, q: nat, p: nat)
    requires AllUnder(l, h, q) && p != q
    ensures LeafCount(l, h, p) == 0 && LeafWeight(l, h, p) == 0 && !Full(l, h, p)
  {
    CountZero(l, h, p);
  }

  class BinaryTree {
    var root: nat
    var nested: seq<int>
    var weights: seq<int>
    var done: seq<bool>      // node_complete
    ghost var leaves: Leaves
    ghost var h: nat         // where the root is, unless the tree is empty
    ghost var q: nat

    ghost predicate Sized()
      reads this
    {
      |nested| == |weights| == |done|
    }

    ghost predicate Valid()
      reads this
    {
      && Sized()
      && (root == 0 <==> leaves == map[])
      && (root > 0 ==> root == Node(h, q) && AllUnder(leaves, h, q))
      && Stored(nested, weights, done, leaves, leaves, 0, if root == 0 then 0 else h + 1)
    }

    constructor ()
      ensures Valid() && leaves == map[]
    {
      root, nested, weights, done := 0, [], [], [];
      leaves := map[];
    }

    // ---- accessors ----

    function Exists(n: nat): bool
      reads this
    {
      Num(nested, n) != 0
    }

    function Weight(n: nat): int
      reads this
    {
      WeightOf(nested, weights, n)
    }

    function Complete(n: nat): bool
      reads this
    {
      CompleteOf(nested, done, n)
    }

    /** Every node in the tree knows the number and the weight of the leaves under it, and whether
        they are all in use. */
    lemma Accessors(g: nat, p: nat)
      requires Valid() && root > 0 && g <= h
      ensures Num(nested, Node(g, p)) == LeafCount(leaves, g, p)
      ensures Weight(Node(g, p)) == LeafWeight(leaves, g, p)
      ensures Complete(Node(g, p)) <==> Full(leaves, g, p)
      ensures Exists(Node(g, p)) <==> LeafCount(leaves, g, p) > 0
    {
      StoredAt(nested, weights, done, leaves, leaves, 0, h + 1, g, p);
      NodeSays(nested, weights, done, leaves, g, p, h + 1);
    }

    /** Each inner node is the sum of its two children, and complete when they both are. */
    lemma Sums(g: nat, p: nat)
      requires Valid() && root > 0 && 0 < g <= h
      ensures Weight(Node(g, p)) == Weight(Node(g - 1, 2 * p)) + Weight(Node(g - 1, 2 * p + 1))
      ensures Num(nested, Node(g, p)) == Num(nested, Node(g - 1, 2 * p)) + Num(nested, Node(g - 1, 2 * p + 1))
      ensures Complete(Node(g, p)) <==> Complete(Node(g - 1, 2 * p)) && Complete(Node(g - 1, 2 * p + 1))
    {
      Accessors(g, p);
      Accessors(g - 1, 2 * p);
      Accessors(g - 1, 2 * p + 1);
    }

    method Realloc(n: nat)
      requires Sized()
      modifies this`nested, this`weights, this`done
      ensures Sized() && n < |nested|
      ensures forall k: nat :: Num(nested, k) == old(Num(nested, k)) && Num(weights, k) == old(Num(weights, k))
                               && Flag(done, k) == old(Flag(done, k))
    {
      if |nested| <= n {
        var add := n - |nested| + 1;
        nested := nested + seq(add, _ => 0);
        weights := weights + seq(add, _ => 0);
        done := done + seq(add, _ => false);
      }
    }

    // ---- changing the weight of a leaf ----

    /** The node of height j above leaf i. */
    method AddWeight(p: nat, w: int, ghost m: Leaves, ghost i: nat, ghost j: nat)
      requires Sized() && p == Node(j, Above(i, j)) && j <= h && i in m
      requires Stored(nested, weights, done, m[i := m[i] + w], m, j, h + 1)
      modifies this`weights
      ensures Sized() && Stored(nested, weights, done, m[i := m[i] + w], m, j + 1, h + 1)
    {
      hide LeafCount;
      hide LeafWeight;
      hide Full;
      hide Stored;
      ghost var l := m[i := m[i] + w];
      ghost var was := weights;
      StoredAt(nested, weights, done, l, m, j, h + 1, j, Above(i, j));
      LeafUnder(m, i, j);
      Affected(m, l, i, j);
      weights := weights[p := weights[p] + w];
      StoredUp(nested, was, done, nested, weights, done, l, m, i, j, h + 1);
    }

    /** adjust_node_weight, for leaf i. */
    method AdjustNodeWeight(n: nat, w: int, ghost i: nat)
      requires Valid() && n == Node(0, i) && Exists(n)
      modifies this`weights, this`leaves
      ensures Valid() && i in old(leaves) && leaves == old(leaves)[i := old(leaves)[i] + w]
    {
      hide LeafCount;
      hide LeafWeight;
      hide Full;
      hide Stored;
      ghost var m := leaves;
      LeafThere(nested, weights, done, m, i, if root == 0 then 0 else h + 1);
      leaves := m[i := m[i] + w];
      StoredBegin(nested, weights, done, leaves, m, h + 1);
      var p := n;
      ghost var j := 0;
      AddWeight(p, w, m, i, 0);
      while p != root
        invariant Sized() && j <= h && p == Node(j, Above(i, j)) && leaves == m[i := m[i] + w]
        invariant Stored(nested, weights, done, leaves, m, j + 1, h + 1)
        decreases h - j
      {
        p := Parent(p, j, Above(i, j));
        j := j + 1;
        AddWeight(p, w, m, i, j);
      }
      NodeUnique(j, Above(i, j), h, q);
      StoredTop(nested, weights, done, leaves, m, j + 1, h + 1);
    }

    // ---- removing a leaf ----

    /** One node above the leaf that goes. */
    method RemoveUp(p: nat, ghost m: Leaves, ghost i: nat, ghost j: nat)
      requires Sized() && p == Node(j, Above(i, j)) && 0 < j <= h && i in m
      requires Stored(nested, weights, done, m - {i}, m, j, h + 1)
      modifies this`nested, this`weights, this`done
      ensures Sized() && Stored(nested, weights, done, m - {i}, m, j + 1, h + 1)
    {
      ghost var l := m - {i};
      ghost var ns, ws, cs := nested, weights, done;
      RemoveBefore(ns, ws, cs, m, i, j, h + 1);
      var left := Left(p, j, Above(i, j));
      var right := Right(p, j, Above(i, j));
      done := done[p := false];
      weights := weights[p := Weight(left) + Weight(right)];
      nested := nested[p := nested[p] - 1];
      if nested[p] == 0 {
        weights := weights[p := 0];
        nested := nested[p := 0];
      }
      RemoveAfter(nested, weights, done, m, i, j, h + 1);
      StoredUp(ns, ws, cs, nested, weights, done, l, m, i, j, h + 1);
    }

    /** remove_node */
    method RemoveNode(n: nat, ghost i: nat)
      requires Valid() && n == Node(0, i) && Exists(n)
      modifies this
      ensures Valid() && i in old(leaves) && leaves == old(leaves) - {i}
    {
      hide LeafCount;
      hide LeafWeight;
      hide Full;
      hide Stored;
      ghost var m := leaves;
      LeafThere(nested, weights, done, m, i, if root == 0 then 0 else h + 1);
      leaves := m - {i};
      StoredBegin(nested, weights, done, leaves, m, h + 1);
      ghost var ns, ws := nested, weights;
      nested := nested[n := 0];
      weights := weights[n := 0];
      LeafGone(ns, ws, nested, weights, done, m, i, h + 1);
      var p := n;
      ghost var j := 0;
      while p != root
        invariant Sized() && j <= h && p == Node(j, Above(i, j)) && leaves == m - {i}
        invariant root == Node(h, q) && Above(i, h) == q && i in m && AllUnder(m, h, q)
        invariant Stored(nested, weights, done, leaves, m, j + 1, h + 1)
        decreases h - j
      {
        p := Parent(p, j, Above(i, j));
        j := j + 1;
        RemoveUp(p, m, i, j);
      }
      NodeUnique(j, Above(i, j), h, q);
      StoredTop(nested, weights, done, leaves, m, j + 1, h + 1);
      Collapse();
    }

    /** The root moves down while one of its sides is empty; at the end the tree may be empty. */
    method Collapse()
      requires Sized() && root == Node(h, q) && AllUnder(leaves, h, q)
      requires Stored(nested, weights, done, leaves, leaves, 0, h + 1)
      modifies this`root, this`nested, this`weights, this`h, this`q
      ensures Valid()
    {
      LeafOdd(h, q);
      while root % 2 == 0
        invariant Sized() && root == Node(h, q) && AllUnder(leaves, h, q)
        invariant Stored(nested, weights, done, leaves, leaves, 0, h + 1)
        invariant root % 2 == 1 <==> h == 0
        decreases h
      {
        var left := Left(root, h, q);
        var right := Right(root, h, q);
        if Num(nested, left) != 0 && Num(nested, right) != 0 {
          RootHolds(nested, weights, done, leaves, h, q);
          break;
        }
        Narrow(nested, weights, done, leaves, h, q);
        ghost var goRight := Num(nested, left) == 0;
        var child := if Num(nested, left) == 0 then right else left;
        ClearRoot();
        root := child;
        h, q := h - 1, if goRight then 2 * q + 1 else 2 * q;
        LeafOdd(h, q);
      }
      RootHolds(nested, weights, done, leaves, h, q);
      if root % 2 == 1 && Num(nested, root) == 0 {
        LeafRootEmpty(leaves, h, q);
        ClearRoot();
        root := 0;
      }
    }

    /** The node at the root holds nothing any more. */
    method ClearRoot()
      requires Sized() && root == Node(h, q) && OneEmptySide(leaves, h, q) && AllUnder(leaves, h, q)
      requires Stored(nested, weights, done, leaves, leaves, 0, h + 1)
      modifies this`nested, this`weights
      ensures Sized() && Stored(nested, weights, done, leaves, leaves, 0, h)
    {
      ghost var ns, ws := nested, weights;
      if root < |nested| {
        weights := weights[root := 0];
        nested := nested[root := 0];
      }
      Lowered(ns, ws, nested, weights, done, leaves, h, q);
    }

    // ---- adding a leaf ----

    /** The root moves up by one; its new sibling side is empty. */
    method Grow() returns (n: nat, ghost c: nat)
      requires Valid() && root > 0
      modifies this`root, this`nested, this`weights, this`done, this`h, this`q
      ensures Sized() && root == Node(h, q) && h > 0 && AllUnder(leaves, h, q)
      ensures Stored(nested, weights, done, leaves, leaves, 0, h + 1)
      ensures n == Node(h - 1, c) && c / 2 == q && LeafCount(leaves, h - 1, c) == 0
    {
      hide LeafCount;
      hide LeafWeight;
      hide Full;
      hide Node;
      ghost var ns, ws, cs := nested, weights, done;
      RootKnown(ns, ws, cs, leaves, h, q);
      var newroot := Parent(root, h, q);
      Realloc(newroot);
      weights := weights[newroot := Num(weights, root)];
      nested := nested[newroot := if Exists(root) then Num(nested, root) else 0];
      Raised(ns, ws, cs, nested, weights, done, leaves, h, q);
      var left := Left(newroot, h + 1, q / 2);
      var right := Right(newroot, h + 1, q / 2);
      if left == root {
        NodeUnique(h, 2 * (q / 2), h, q);
        n, c := right, q + 1;
      } else {
        n, c := left, q - 1;
      }
      OthersEmpty(leaves, h, q, c);
      root := newroot;
      h, q := h + 1, q / 2;
    }

    /** Where the next leaf goes: a position that is not in use. */
    method FindSlot(forceRoot: bool) returns (n: nat, ghost i: nat)
      requires Valid()
      modifies this`root, this`nested, this`weights, this`done, this`h, this`q
      ensures Sized() && root == Node(h, q) && AllUnder(leaves, h, q)
      ensures Stored(nested, weights, done, leaves, leaves, 0, h + 1)
      ensures n == Node(0, i) && Above(i, h) == q && i !in leaves
    {
      if root == 0 {
        FirstRoot(nested, weights, done);
        root, n, i := 1, 1, 0;
        h, q := 0, 0;
      } else if forceRoot || Complete(root) {
        n, i := Grow();
        n, i := GoLeft(n, h - 1, i);
      } else {
        RootNotFull(nested, weights, done, leaves, h, q);
        n, i := GoIncomplete();
      }
    }

    /** Down the left side of a node that has no leaves. */
    method GoLeft(from: nat, ghost g: nat, ghost c: nat) returns (n: nat, ghost i: nat)
      requires from == Node(g, c) && g <= h && Above(c, h - g) == q && LeafCount(leaves, g, c) == 0
      ensures n == Node(0, i) && Above(i, h) == q && i !in leaves
    {
      hide Node;
      n, i := from, c;
      ghost var k: nat := g;
      LeafOdd(k, i);
      while n % 2 == 0
        invariant n == Node(k, i) && k <= h && Above(i, h - k) == q && LeafCount(leaves, k, i) == 0
        invariant n % 2 == 1 <==> k == 0
        decreases k
      {
        AboveChild(i, h - k);
        n := Left(n, k, i);
        k, i := k - 1, 2 * i;
        LeafOdd(k, i);
      }
    }

    /** Down a tree that is not complete, always to a side that is not complete. */
    method GoIncomplete() returns (n: nat, ghost i: nat)
      requires Sized() && root == Node(h, q) && !Full(leaves, h, q)
      requires Stored(nested, weights, done, leaves, leaves, 0, h + 1)
      ensures n == Node(0, i) && Above(i, h) == q && i !in leaves
    {
      n, i := root, q;
      ghost var k: nat := h;
      LeafOdd(k, i);
      while n % 2 == 0
        invariant n == Node(k, i) && k <= h && Above(i, h - k) == q && !Full(leaves, k, i)
        invariant n % 2 == 1 <==> k == 0
        decreases k
      {
        AboveChild(i, h - k);
        StoredAt(nested, weights, done, leaves, leaves, 0, h + 1, k - 1, 2 * i);
        NodeSays(nested, weights, done, leaves, k - 1, 2 * i, h + 1);
        var left := Left(n, k, i);
        if !Exists(left) || !Complete(left) {
          n := left;
          k, i := k - 1, 2 * i;
        } else {
          n := Right(n, k, i);
          k, i := k - 1, 2 * i + 1;
        }
        LeafOdd(k, i);
      }
    }

    /** One node above the new leaf. */
    method AddUp(p: nat, w: int, ghost m: Leaves, ghost i: nat, ghost j: nat)
      requires Sized() && p == Node(j, Above(i, j)) && 0 < j <= h && i !in m
      requires Stored(nested, weights, done, m[i := w], m, j, h + 1)
      modifies this`nested, this`weights, this`done
      ensures Sized() && Stored(nested, weights, done, m[i := w], m, j + 1, h + 1)
    {
      ghost var l := m[i := w];
      ghost var ns, ws, cs := nested, weights, done;
      AddBefore(ns, ws, cs, m, w, i, j, h + 1);
      Realloc(p);
      var left := Left(p, j, Above(i, j));
      var right := Right(p, j, Above(i, j));
      if !Complete(p) && Complete(left) && Complete(right) {
        done := done[p := true];
      }
      weights := weights[p := weights[p] + w];
      nested := nested[p := nested[p] + 1];
      AddAfter(nested, weights, done, m, w, i, j, h + 1);
      StoredUp(ns, ws, cs, nested, weights, done, l, m, i, j, h + 1);
    }

    /** The new leaf itself. */
    method PutLeaf(n: nat, w: int, ghost i: nat)
      requires Sized() && n == Node(0, i) && i !in leaves
      requires Stored(nested, weights, done, leaves, leaves, 0, h + 1)
      modifies this`nested, this`weights, this`done
      ensures Sized() && Stored(nested, weights, done, leaves[i := w], leaves, 1, h + 1)
    {
      ghost var l := leaves[i := w];
      StoredBegin(nested, weights, done, l, leaves, h + 1);
      ghost var ns, ws, cs := nested, weights, done;
      Realloc(n);
      weights := weights[n := w];
      nested := nested[n := 1];
      done := done[n := true];
      LeafNew(ns, ws, cs, nested, weights, done, leaves, w, i, h + 1);
    }

    /** add_node: a new leaf at a position that was not in use. */
    method AddNode(w: int, forceRoot: bool) returns (n: nat, ghost i: nat)
      requires Valid()
      modifies this
      ensures Valid() && n == Node(0, i) && i !in old(leaves) && leaves == old(leaves)[i := w]
      ensures Exists(n)
    {
      n, i := FindSlot(forceRoot);
      ghost var m := leaves;
      PutLeaf(n, w, i);
      leaves := m[i := w];
      var p := n;
      ghost var j := 0;
      while p != root
        invariant Sized() && j <= h && p == Node(j, Above(i, j)) && leaves == m[i := w]
        invariant root == Node(h, q) && Above(i, h) == q && AllUnder(m, h, q)
        invariant Stored(nested, weights, done, leaves, m, j + 1, h + 1)
        decreases h - j
      {
        p := Parent(p, j, Above(i, j));
        j := j + 1;
        AddUp(p, w, m, i, j);
      }
      NodeUnique(j, Above(i, j), h, q);
      StoredTop(nested, weights, done, leaves, m, j + 1, h + 1);
      LeafStored(nested, weights, done, leaves, i, h + 1);
    }
  }

  // ---- adding ----

  lemma RootKnown(ns: seq<int>, ws: seq<int>, cs: seq<bool>, l: Leaves, h: nat, q: nat)
    requires Stored(ns, ws, cs, l, l, 0, h + 1)
    ensures Num(ns, Node(h, q)) == LeafCount(l, h, q) && Num(ws, Node(h, q)) == LeafWeight(l, h, q)
  {
    StoredAt(ns, ws, cs, l, l, 0, h + 1, h, q);
  }

  lemma Raised(ns: seq<int>, ws: seq<int>, cs: seq<bool>, ns': seq<int>, ws': seq<int>, cs': seq<bool>,
               l: Leaves, h: nat, q: nat)
    requires Stored(ns, ws, cs, l, l, 0, h + 1) && AllUnder(l, h, q)
    requires Num(ns', Node(h + 1, q / 2)) == LeafCount(l, h, q) && Num(ws', Node(h + 1, q / 2)) == LeafWeight(l, h, q)
    requires forall n: nat :: (n != Node(h + 1, q / 2) ==> Num(ns', n) == Num(ns, n) && Num(ws', n) == Num(ws, n))
                              && Flag(cs', n) == Flag(cs, n)
    ensures Stored(ns', ws', cs', l, l, 0, h + 2) && AllUnder(l, h + 1, q / 2)
  {
    RootAbove(l, h, q);
    hide LeafCount;
    hide LeafWeight;
    hide Full;
    var top := h + 2;
    forall g: nat, p: nat ensures NodeOk(ns', ws', cs', Side(l, l, 0, g), g, p, top) {
      StoredAt(ns, ws, cs, l, l, 0, h + 1, g, p);
      if Node(g, p) == Node(h + 1, q / 2) {
        NodeUnique(g, p, h + 1, q / 2);
      } else if g == h + 1 {
        OthersEmpty(l, h + 1, q / 2, p);
      }
    }
  }

  /** The new root has the leaves of the old one, and is not full. */
  lemma RootAbove(l: Leaves, h: nat, q: nat)
    requires AllUnder(l, h, q)
    ensures AllUnder(l, h + 1, q / 2)
    ensures LeafCount(l, h + 1, q / 2) == LeafCount(l, h, q) && LeafWeight(l, h + 1, q / 2) == LeafWeight(l, h, q)
    ensures !Full(l, h + 1, q / 2)
  {
    var sibling := if q % 2 == 0 then q + 1 else q - 1;
    OthersEmpty(l, h, q, sibling);
    forall i: nat | i in l ensures Above(i, h + 1) == q / 2 {
      assert Above(i, h) == q;
    }
  }

  lemma FirstRoot(ns: seq<int>, ws: seq<int>, cs: seq<bool>)
    requires Stored(ns, ws, cs, map[], map[], 0, 0)
    ensures Stored(ns, ws, cs, map[], map[], 0, 1) && Node(0, 0) == 1 && AllUnder(map[], 0, 0)
  {
    forall g: nat, p: nat ensures NodeOk(ns, ws, cs, Side(map[], map[], 0, g), g, p, 1) {
      StoredAt(ns, ws, cs, map[], map[], 0, 0, g, p);
    }
  }

  lemma RootNotFull(ns: seq<int>, ws: seq<int>, cs: seq<bool>, l: Leaves, h: nat, q: nat)
    requires Stored(ns, ws, cs, l, l, 0, h + 1) && !CompleteOf(ns, cs, Node(h, q))
    ensures !Full(l, h, q)
  {
    StoredAt(ns, ws, cs, l, l, 0, h + 1, h, q);
    NodeSays(ns, ws, cs, l, h, q, h + 1);
  }

  lemma AddBefore(ns: seq<int>, ws: seq<int>, cs: seq<bool>, m: Leaves, w: int, i: nat, j: nat, top: nat)
    requires 0 < j < top && i !in m && Stored(ns, ws, cs, m[i := w], m, j, top)
    ensures var l, a := m[i := w], Above(i, j);
            && Num(ns, Node(j, a)) + 1 == LeafCount(l, j, a) && Num(ws, Node(j, a)) + w == LeafWeight(l, j, a)
            && !CompleteOf(ns, cs, Node(j, a)) && !Flag(cs, Node(j, a))
            && (CompleteOf(ns, cs, Node(j - 1, 2 * a)) && CompleteOf(ns, cs, Node(j - 1, 2 * a + 1)) <==> Full(l, j, a))
  {
    var l, a := m[i := w], Above(i, j);
    StoredAt(ns, ws, cs, l, m, j, top, j, a);
    StoredAt(ns, ws, cs, l, m, j, top, j - 1, 2 * a);
    StoredAt(ns, ws, cs, l, m, j, top, j - 1, 2 * a + 1);
    NodeSays(ns, ws, cs, l, j - 1, 2 * a, top);
    NodeSays(ns, ws, cs, l, j - 1, 2 * a + 1, top);
    Affected(m, l, i, j);
  }

  lemma AddAfter(ns: seq<int>, ws: seq<int>, cs: seq<bool>, m: Leaves, w: int, i: nat, j: nat, top: nat)
    requires 0 < j < top
    requires var l, a := m[i := w], Above(i, j);
             && Num(ns, Node(j, a)) == LeafCount(l, j, a) && Num(ws, Node(j, a)) == LeafWeight(l, j, a)
             && Flag(cs, Node(j, a)) == Full(l, j, a)
    ensures NodeOk(ns, ws, cs, m[i := w], j, Above(i, j), top)
  {
  }

  lemma LeafNew(ns: seq<int>, ws: seq<int>, cs: seq<bool>, ns': seq<int>, ws': seq<int>, cs': seq<bool>,
                m: Leaves, w: int, i: nat, top: nat)
    requires Stored(ns, ws, cs, m[i := w], m, 0, top) && i !in m && top > 0
    requires Num(ns', Node(0, i)) == 1 && Num(ws', Node(0, i)) == w && Flag(cs', Node(0, i))
    requires forall n: nat :: n != Node(0, i) ==>
               Num(ns', n) == Num(ns, n) && Num(ws', n) == Num(ws, n) && Flag(cs', n) == Flag(cs, n)
    ensures Stored(ns', ws', cs', m[i := w], m, 1, top)
  {
    hide Stored;
    assert NodeOk(ns', ws', cs', m[i := w], 0, i, top);
    StoredUp(ns, ws, cs, ns', ws', cs', m[i := w], m, i, 0, top);
  }

  lemma LeafStored(ns: seq<int>, ws: seq<int>, cs: seq<bool>, l: Leaves, i: nat, top: nat)
    requires Stored(ns, ws, cs, l, l, 0, top) && i in l && top > 0
    ensures Num(ns, Node(0, i)) == 1
  {
    StoredAt(ns, ws, cs, l, l, 0, top, 0, i);
  }

  // ---- removing ----

  lemma RemoveBefore(ns: seq<int>, ws: seq<int>, cs: seq<bool>, m: Leaves, i: nat, j: nat, top: nat)
    requires 0 < j < top && i in m && Stored(ns, ws, cs, m - {i}, m, j, top)
    ensures var l, a := m - {i}, Above(i, j);
            && Num(ns, Node(j, a)) == LeafCount(l, j, a) + 1
            && WeightOf(ns, ws, Node(j - 1, 2 * a)) + WeightOf(ns, ws, Node(j - 1, 2 * a + 1)) == LeafWeight(l, j, a)
            && !Full(l, j, a) && (LeafCount(l, j, a) == 0 ==> LeafWeight(l, j, a) == 0)
            && Node(j, a) < |ns|
  {
    var l, a := m - {i}, Above(i, j);
    StoredAt(ns, ws, cs, l, m, j, top, j, a);
    StoredAt(ns, ws, cs, l, m, j, top, j - 1, 2 * a);
    StoredAt(ns, ws, cs, l, m, j, top, j - 1, 2 * a + 1);
    NodeSays(ns, ws, cs, l, j - 1, 2 * a, top);
    NodeSays(ns, ws, cs, l, j - 1, 2 * a + 1, top);
    Affected(m, l, i, j);
    Affected(l, m, i, j);
    CountZero(l, j, a);
  }

  lemma RemoveAfter(ns: seq<int>, ws: seq<int>, cs: seq<bool>, m: Leaves, i: nat, j: nat, top: nat)
    requires 0 < j < top && i in m
    requires var l, a := m - {i}, Above(i, j);
             && Num(ns, Node(j, a)) == LeafCount(l, j, a) && Num(ws, Node(j, a)) == LeafWeight(l, j, a)
             && !Full(l, j, a) && !Flag(cs, Node(j, a))
    ensures NodeOk(ns, ws, cs, m - {i}, j, Above(i, j), top)
  {
  }

  lemma LeafGone(ns: seq<int>, ws: seq<int>, ns': seq<int>, ws': seq<int>, cs: seq<bool>, m: Leaves, i: nat, top: nat)
    requires i in m && Stored(ns, ws, cs, m - {i}, m, 0, top) && Node(0, i) < |ns| == |ws|
    requires ns' == ns[Node(0, i) := 0] && ws' == ws[Node(0, i) := 0]
    ensures Stored(ns', ws', cs, m - {i}, m, 1, top)
  {
    hide Stored;
    assert NodeOk(ns', ws', cs, m - {i}, 0, i, top);
    StoredUp(ns, ws, cs, ns', ws', cs, m - {i}, m, i, 0, top);
  }

  /** One side of the node has no leaves; or it is a leaf that is not in use. */
  ghost predicate OneEmptySide(l: Leaves, h: nat, q: nat) {
    if h == 0 then q !in l
    else LeafCount(l, h - 1, 2 * q) == 0 || LeafCount(l, h - 1, 2 * q + 1) == 0
  }

  lemma Narrow(ns: seq<int>, ws: seq<int>, cs: seq<bool>, l: Leaves, h: nat, q: nat)
    requires h > 0 && Stored(ns, ws, cs, l, l, 0, h + 1) && AllUnder(l, h, q)
    requires Num(ns, Node(h - 1, 2 * q)) == 0 || Num(ns, Node(h - 1, 2 * q + 1)) == 0
    ensures OneEmptySide(l, h, q)
    ensures AllUnder(l, h - 1, if Num(ns, Node(h - 1, 2 * q)) == 0 then 2 * q + 1 else 2 * q)
  {
    StoredAt(ns, ws, cs, l, l, 0, h + 1, h - 1, 2 * q);
    StoredAt(ns, ws, cs, l, l, 0, h + 1, h - 1, 2 * q + 1);
    CountZero(l, h - 1, 2 * q);
    CountZero(l, h - 1, 2 * q + 1);
    hide LeafCount;
    hide Stored;
    hide NodeOk;
    forall i: nat | i in l ensures Above(i, h - 1) == 2 * q || Above(i, h - 1) == 2 * q + 1 {
      assert Above(i, h) == q;
    }
  }

  lemma Lowered(ns: seq<int>, ws: seq<int>, ns': seq<int>, ws': seq<int>, cs: seq<bool>, l: Leaves, h: nat, q: nat)
    requires Stored(ns, ws, cs, l, l, 0, h + 1) && AllUnder(l, h, q) && OneEmptySide(l, h, q)
    requires Num(ns', Node(h, q)) == 0 && Num(ws', Node(h, q)) == 0
    requires forall n: nat :: n != Node(h, q) ==> Num(ns', n) == Num(ns, n) && Num(ws', n) == Num(ws, n)
    ensures Stored(ns', ws', cs, l, l, 0, h)
  {
    if h > 0 {
      NotFull(l, h, q);
    }
    hide *;
    forall g: nat, p: nat ensures NodeOk(ns', ws', cs, Side(l, l, 0, g), g, p, h) {
      StoredAt(ns, ws, cs, l, l, 0, h + 1, g, p);
      if Node(g, p) == Node(h, q) {
        NodeUnique(g, p, h, q);
      } else if g == h {
        OthersEmpty(l, h, q, p);
      }
    }
  }

  lemma NotFull(l: Leaves, h: nat, q: nat)
    requires h > 0 && OneEmptySide(l, h, q)
    ensures !Full(l, h, q)
  {
    CountZero(l, h - 1, 2 * q);
    CountZero(l, h - 1, 2 * q + 1);
  }

  lemma RootHolds(ns: seq<int>, ws: seq<int>, cs: seq<bool>, l: Leaves, h: nat, q: nat)
    requires Stored(ns, ws, cs, l, l, 0, h + 1)
    ensures Num(ns, Node(h, q)) == LeafCount(l, h, q)
    ensures l == map[] ==> LeafCount(l, h, q) == 0
    ensures h > 0 && l == map[] ==> Num(ns, Node(h - 1, 2 * q)) == 0
  {
    StoredAt(ns, ws, cs, l, l, 0, h + 1, h, q);
    CountZero(l, h, q);
    if h > 0 {
      CountZero(l, h - 1, 2 * q);
      StoredAt(ns, ws, cs, l, l, 0, h + 1, h - 1, 2 * q);
    }
  }

  lemma LeafRootEmpty(l: Leaves, h: nat, q: nat)
    requires h == 0 && LeafCount(l, h, q) == 0 && AllUnder(l, h, q)
    ensures OneEmptySide(l, h, q) && l == map[]
  {
    CountZero(l, h, q);
    forall i: nat ensures i !in l {
      assert i in l ==> Above(i, h) == q;
    }
  }

  lemma LeafThere(ns: seq<int>, ws: seq<int>, cs: seq<bool>, l: Leaves, i: nat, top: nat)
    requires Stored(ns, ws, cs, l, l, 0, top) && Num(ns, Node(0, i)) != 0
    ensures i in l && top > 0
  {
    StoredAt(ns, ws, cs, l, l, 0, top, 0, i);
  }
}
