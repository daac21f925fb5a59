/** Tree buckets: an implicit binary tree of weights, and the descent that chooses an item
    (src/crush/builder.c:208-272, src/crush/mapper.c:57-102). Node numbers carry the shape of the
    tree: leaf i is node 2i + 1, and the height of a node is the number of its trailing zero bits. */
module CrushTree {
  import opened CrushUniform
  import opened CrushDraw

  function Pow2(h: nat): (p: nat)
    ensures p > 0
  {
    if h == 0 then 1 else 2 * Pow2(h - 1)
  }

  /** The number of the q-th node at height h. */
  function Node(h: nat, q: nat): (n: nat)
    ensures n > 0
  {
    if h == 0 then 2 * q + 1 else 2 * Node(h - 1, q)
  }

  lemma {:induction false} NodeUnique(h: nat, q: nat, g: nat, p: nat)
    requires Node(h, q) == Node(g, p)
    ensures h == g && q == p
  {
    if h > 0 && g > 0 {
      NodeUnique(h - 1, q, g - 1, p);
    }
  }

  lemma {:induction false} NodeBelow(h: nat, q: nat, depth: nat)
    requires h < depth && q < Pow2(depth - 1 - h)
    ensures Node(h, q) < Pow2(depth)
  {
    if h > 0 {
      NodeBelow(h - 1, q, depth - 1);
    }
  }

  /** The children of a node are half its reach to the left and to the right. */
  lemma {:induction false} Children(h: nat, q: nat)
    requires h > 0
    ensures Node(h - 1, 2 * q) + Pow2(h - 1) == Node(h, q)
    ensures Node(h, q) + Pow2(h - 1) == Node(h - 1, 2 * q + 1)
  {
    if h > 1 {
      Children(h - 1, q);
    }
  }

  lemma DivUnique(n: nat, d: nat, k: nat, r: nat)
    requires n == d * k + r && r < d
    ensures n / d == k
  {
    var q := n / d;
    assert n == d * q + n % d;
    if q < k {
      Monotone(d, q, q + 1);
      Monotone(d, q + 1, k);
    } else if k < q {
      Monotone(d, k, k + 1);
      Monotone(d, k + 1, q);
    }
  }

  lemma DivDouble(a: nat, b: nat)
    requires b > 0
    ensures (2 * a) / (2 * b) == a / b
  {
    var k := a / b;
    assert a == b * k + a % b;
    assert 2 * b * k == 2 * (b * k);
    DivUnique(2 * a, 2 * b, k, 2 * (a % b));
  }

  /** The bits above the height of a node say which node of that height it is. */
  lemma {:induction false} NodeBits(h: nat, q: nat)
    ensures Node(h, q) / Pow2(h + 1) == q
  {
    if h == 0 {
      assert Pow2(1) == 2;
    } else {
      NodeBits(h - 1, q);
      DivDouble(Node(h - 1, q), Pow2(h));
    }
  }

  lemma {:induction false} LeafOdd(h: nat, q: nat)
    ensures Node(h, q) % 2 == 1 <==> h == 0
  {
  }

  // ---- the functions of the source ----

  /** height; q is which node of that height it is. */
  method Height(n: nat) returns (h: nat, ghost q: nat)
    requires n > 0
    ensures n == Node(h, q)
  {
    h := 0;
    var m := n;
    while m % 2 == 0
      invariant m > 0 && Lift(m, h) == n
      decreases m
    {
      LiftHalf(m / 2, h);
      h, m := h + 1, m / 2;
    }
    q := m / 2;
    LiftNode(q, h);
  }

  function Lift(m: nat, h: nat): nat {
    if h == 0 then m else 2 * Lift(m, h - 1)
  }

  lemma {:induction false} LiftHalf(m: nat, h: nat)
    ensures Lift(2 * m, h) == Lift(m, h + 1)
  {
    if h > 0 {
      LiftHalf(m, h - 1);
    }
  }

  lemma {:induction false} LiftNode(q: nat, h: nat)
    ensures Lift(2 * q + 1, h) == Node(h, q)
  {
    if h > 0 {
      LiftNode(q, h - 1);
    }
  }

  method Left(x: nat, ghost h: nat, ghost q: nat) returns (l: nat)
    requires h > 0 && x == Node(h, q)
    ensures l == Node(h - 1, 2 * q)
  {
    ghost var p: nat;
    var g: nat;
    g, p := Height(x);
    NodeUnique(h, q, g, p);
    Children(h, q);
    l := x - Pow2(g - 1);
  }

  method Right(x: nat, ghost h: nat, ghost q: nat) returns (r: nat)
    requires h > 0 && x == Node(h, q)
    ensures r == Node(h - 1, 2 * q + 1)
  {
    ghost var p: nat;
    var g: nat;
    g, p := Height(x);
    NodeUnique(h, q, g, p);
    Children(h, q);
    r := x + Pow2(g - 1);
  }

  method Parent(n: nat, ghost h: nat, ghost q: nat) returns (p: nat)
    requires n == Node(h, q)
    ensures p == Node(h + 1, q / 2)
  {
    ghost var t: nat;
    var g: nat;
    g, t := Height(n);
    NodeUnique(h, q, g, t);
    NodeBits(h, q);
    Children(h + 1, q / 2);
    var onRight := (n / Pow2(g + 1)) % 2 == 1;
    if onRight {
      p := n - Pow2(g);
    } else {
      p := n + Pow2(g);
    }
  }

  // ---- the weights ----

  /** The weight of a node: of its item if it is a leaf, of its children otherwise. A leaf beyond
      the items weighs nothing. */
  function NodeWeight(weights: seq<nat>, h: nat, q: nat): nat {
    if h == 0 then if q < |weights| then weights[q] else 0
    else NodeWeight(weights, h - 1, 2 * q) + NodeWeight(weights, h - 1, 2 * q + 1)
  }

  /** Which node of height h is above leaf i. */
  function Above(i: nat, h: nat): nat {
    if h == 0 then i else Above(i, h - 1) / 2
  }

  lemma {:induction false} AboveBelow(i: nat, h: nat, depth: nat)
    requires h < depth && i < Pow2(depth - 1)
    ensures Above(i, h) < Pow2(depth - 1 - h)
  {
    if h > 0 {
      AboveBelow(i, h - 1, depth);
    }
  }

  /** Changing the weight of one leaf changes exactly the nodes above it. */
  lemma {:induction false} WeightChange(weights: seq<nat>, weights': seq<nat>, i: nat, more: nat, h: nat, q: nat)
    requires NodeWeight(weights', 0, i) == NodeWeight(weights, 0, i) + more
    requires forall j: nat :: j != i ==> NodeWeight(weights', 0, j) == NodeWeight(weights, 0, j)
    ensures NodeWeight(weights', h, q) == NodeWeight(weights, h, q) + if Above(i, h) == q then more else 0
  {
    if h > 0 {
      WeightChange(weights, weights', i, more, h - 1, 2 * q);
      WeightChange(weights, weights', i, more, h - 1, 2 * q + 1);
    }
  }

  function Total(weights: seq<nat>): nat {
    if weights == [] then 0 else Total(weights[..|weights| - 1]) + weights[|weights| - 1]
  }

  lemma {:induction false} NoWeight(h: nat, q: nat)
    ensures NodeWeight([], h, q) == 0
  {
    if h > 0 {
      NoWeight(h - 1, 2 * q);
      NoWeight(h - 1, 2 * q + 1);
    }
  }

  /** The root weighs as much as all items together. */
  lemma {:induction false} RootWeight(weights: seq<nat>, depth: nat)
    requires depth > 0 && |weights| <= Pow2(depth - 1)
    ensures NodeWeight(weights, depth - 1, 0) == Total(weights)
    decreases |weights|
  {
    if weights == [] {
      NoWeight(depth - 1, 0);
    } else {
      var i := |weights| - 1;
      RootWeight(weights[..i], depth);
      WeightChange(weights[..i], weights, i, weights[i], depth - 1, 0);
      AboveBelow(i, depth - 1, depth);
      assert Pow2(0) == 1;
    }
  }

  // ---- building the tree ----

  /** How deep the tree must be: the least depth that has room for all items. */
  method Depth(size: nat) returns (depth: nat)
    requires size > 0
    ensures depth > 0 && size <= Pow2(depth - 1)
    ensures depth > 1 ==> Pow2(depth - 2) < size
  {
    hide Reach;
    hide Times;
    depth := 1;
    var t: nat := size - 1;
    ReachOne(t);
    TimesOne(t);
    while t != 0
      invariant depth > 0 && size - 1 < Reach(t, Pow2(depth - 1))
      invariant Times(t, Pow2(depth - 1)) < size && (depth > 1 ==> Pow2(depth - 2) < size)
      decreases t
    {
      ReachHalf(t, Pow2(depth - 1));
      TimesHalf(t, Pow2(depth - 1));
      t, depth := t / 2, depth + 1;
    }
    ReachNothing(Pow2(depth - 1));
  }

  function Reach(t: nat, p: nat): nat {
    (t + 1) * p
  }

  lemma ReachOne(t: nat)
    ensures Reach(t, Pow2(0)) == t + 1
  {
    assert Pow2(0) == 1;
  }

  function Times(t: nat, p: nat): nat {
    t * p
  }

  lemma TimesOne(t: nat)
    ensures Times(t, Pow2(0)) == t
  {
    assert Pow2(0) == 1;
  }

  lemma TimesHalf(t: nat, p: nat)
    ensures Times(t / 2, 2 * p) <= Times(t, p)
    ensures t > 0 ==> p <= Times(t, p)
  {
    var a := 2 * (t / 2);
    assert (t / 2) * (2 * p) == a * p;
    Monotone(p, a, t);
    assert p * a == a * p && p * t == t * p;
    if t > 0 {
      Monotone(p, 1, t);
    }
  }

  lemma ReachNothing(p: nat)
    ensures Reach(0, p) == p
  {
  }

  lemma ReachHalf(t: nat, p: nat)
    ensures Reach(t, p) <= Reach(t / 2, 2 * p)
  {
    var a := 2 * (t / 2) + 2;
    assert (t / 2 + 1) * (2 * p) == a * p;
    Monotone(p, t + 1, a);
    assert p * (t + 1) == (t + 1) * p && p * a == a * p;
  }

  function At(nodes: seq<nat>, n: nat): nat {
    if n < |nodes| then nodes[n] else 0
  }

  /** The nodes hold the weights of the first i items, and those below height j also that of item i. */
  ghost predicate Filled(nodes: seq<nat>, weights: seq<nat>, i: nat, j: nat, depth: nat)
    requires i <= |weights|
  {
    forall h: nat, q: nat {:trigger Node(h, q)} :: h < depth && q < Pow2(depth - 1 - h) ==>
      At(nodes, Node(h, q)) == NodeWeight(weights[..i], h, q)
                               + if i < |weights| && h < j && Above(i, h) == q then weights[i] else 0
  }

  lemma FillNode(nodes: seq<nat>, weights: seq<nat>, i: nat, j: nat, depth: nat)
    requires j < depth && i < |weights| <= Pow2(depth - 1) && |nodes| == Pow2(depth)
    requires Filled(nodes, weights, i, j, depth)
    ensures var n := Node(j, Above(i, j));
            && n < |nodes|
            && At(nodes, n) == NodeWeight(weights[..i], j, Above(i, j))
            && Filled(nodes[n := nodes[n] + weights[i]], weights, i, j + 1, depth)
  {
    AboveBelow(i, j, depth);
    NodeBelow(j, Above(i, j), depth);
    var n := Node(j, Above(i, j));
    hide NodeWeight;
    forall h: nat, q: nat | h < depth && q < Pow2(depth - 1 - h)
      ensures Node(h, q) == n ==> h == j && q == Above(i, j)
    {
      if Node(h, q) == n {
        NodeUnique(h, q, j, Above(i, j));
      }
    }
  }

  lemma FillNext(nodes: seq<nat>, weights: seq<nat>, i: nat, depth: nat)
    requires i < |weights| && Filled(nodes, weights, i, depth, depth)
    ensures Filled(nodes, weights, i + 1, 0, depth)
  {
    forall h: nat, q: nat | h < depth && q < Pow2(depth - 1 - h)
      ensures At(nodes, Node(h, q)) == NodeWeight(weights[..i + 1], h, q)
    {
      WeightChange(weights[..i], weights[..i + 1], i, weights[i], h, q);
    }
  }

  lemma FillStart(nodes: seq<nat>, weights: seq<nat>, depth: nat)
    requires forall n :: 0 <= n < |nodes| ==> nodes[n] == 0
    ensures Filled(nodes, weights, 0, 0, depth)
  {
    forall h: nat, q: nat ensures NodeWeight(weights[..0], h, q) == 0 {
      NoWeight(h, q);
    }
  }

  /** crush_make_tree_bucket: every node of the tree holds its weight. */
  method MakeTree(weights: seq<nat>) returns (nodes: array<nat>, depth: nat, total: nat)
    requires |weights| > 0
    ensures fresh(nodes) && depth > 0 && nodes.Length == Pow2(depth) && |weights| <= Pow2(depth - 1)
    ensures depth > 1 ==> Pow2(depth - 2) < |weights|
    ensures Weighs(nodes[..], weights, depth)
    ensures total == Total(weights) && nodes[nodes.Length / 2] == total
  {
    hide Filled;
    depth := Depth(|weights|);
    nodes := new nat[Pow2(depth)](_ => 0);
    total := 0;
    FillStart(nodes[..], weights, depth);
    var i := 0;
    while i < |weights|
      invariant 0 <= i <= |weights| && Filled(nodes[..], weights, i, 0, depth)
      invariant total == Total(weights[..i])
    {
      AddItem(nodes, weights, i, depth);
      assert weights[..i + 1][..i] == weights[..i];
      total := total + weights[i];
      i := i + 1;
    }
    assert weights[..i] == weights;
    FillEnd(nodes[..], weights, depth);
  }

  lemma FillEnd(nodes: seq<nat>, weights: seq<nat>, depth: nat)
    requires depth > 0 && |weights| <= Pow2(depth - 1) && |nodes| == Pow2(depth)
    requires Filled(nodes, weights, |weights|, 0, depth)
    ensures Weighs(nodes, weights, depth)
    ensures |nodes| / 2 < |nodes| && nodes[|nodes| / 2] == Total(weights)
  {
    assert weights[..|weights|] == weights;
    assert Pow2(0) == 1;
    RootWeight(weights, depth);
    RootNode(depth);
    NodeBelow(depth - 1, 0, depth);
    assert At(nodes, Node(depth - 1, 0)) == NodeWeight(weights, depth - 1, 0);
  }

  lemma {:induction false} RootNode(depth: nat)
    requires depth > 0
    ensures Node(depth - 1, 0) == Pow2(depth - 1) == Pow2(depth) / 2
  {
    if depth > 1 {
      RootNode(depth - 1);
    }
  }

  /** Adds the weight of an item to its leaf and to every node above it. */
  method AddItem(nodes: array<nat>, weights: seq<nat>, i: nat, depth: nat)
    requires depth > 0 && i < |weights| <= Pow2(depth - 1) && nodes.Length == Pow2(depth)
    requires Filled(nodes[..], weights, i, 0, depth)
    modifies nodes
    ensures Filled(nodes[..], weights, i + 1, 0, depth)
  {
    hide Filled;
    FillNode(nodes[..], weights, i, 0, depth);
    var node := 2 * i + 1;
    nodes[node] := weights[i];
    var j := 1;
    while j < depth
      invariant 1 <= j <= depth && node == Node(j - 1, Above(i, j - 1))
      invariant Filled(nodes[..], weights, i, j, depth)
    {
      node := Parent(node, j - 1, Above(i, j - 1));
      FillNode(nodes[..], weights, i, j, depth);
      nodes[node] := nodes[node] + weights[i];
      j := j + 1;
    }
    FillNext(nodes[..], weights, i, depth);
  }

  // ---- choosing ----

  /** The hash of an input and replica with a node. */
  type Hash = nat -> nat

  /** The leaf at which the descent from a node ends. */
  function Pick(weights: seq<nat>, hash: Hash, h: nat, q: nat): (leaf: nat)
  {
    if h == 0 then q
    else if Draw(hash(Node(h, q)), NodeWeight(weights, h, q), WORD) < NodeWeight(weights, h - 1, 2 * q)
    then Pick(weights, hash, h - 1, 2 * q)
    else Pick(weights, hash, h - 1, 2 * q + 1)
  }

  lemma {:induction false} PickUnder(weights: seq<nat>, hash: Hash, h: nat, q: nat)
    ensures Above(Pick(weights, hash, h, q), h) == q
  {
    if h > 0 {
      PickUnder(weights, hash, h - 1, 2 * q);
      PickUnder(weights, hash, h - 1, 2 * q + 1);
    }
  }

  /** What the hash says at node (g, p): left or right. */
  predicate GoesLeft(weights: seq<nat>, hash: Hash, g: nat, p: nat)
    requires g > 0
  {
    (hash(Node(g, p)) % WORD) * NodeWeight(weights, g, p) < WORD * NodeWeight(weights, g - 1, 2 * p)
  }

  /** At every node above it, a leaf lies on the side that the hash of the node says. */
  ghost predicate Follows(weights: seq<nat>, hash: Hash, leaf: nat, h: nat) {
    forall g: nat {:trigger Above(leaf, g)} :: 0 < g <= h ==>
      var p := Above(leaf, g);
      Above(leaf, g - 1) == if GoesLeft(weights, hash, g, p) then 2 * p else 2 * p + 1
  }

  lemma {:induction false} PickFollows(weights: seq<nat>, hash: Hash, h: nat, q: nat)
    ensures Follows(weights, hash, Pick(weights, hash, h, q), h)
    decreases h
  {
    if h > 0 {
      var leaf := Pick(weights, hash, h, q);
      DrawBelow(hash(Node(h, q)), NodeWeight(weights, h, q), WORD, NodeWeight(weights, h - 1, 2 * q));
      PickUnder(weights, hash, h, q);
      hide NodeWeight;
      hide Node;
      hide Draw;
      var p := if GoesLeft(weights, hash, h, q) then 2 * q else 2 * q + 1;
      assert leaf == Pick(weights, hash, h - 1, p);
      PickUnder(weights, hash, h - 1, p);
      PickFollows(weights, hash, h - 1, p);
    }
  }

  /** The leaf is determined by that. */
  lemma {:induction false} OneFollows(weights: seq<nat>, hash: Hash, a: nat, b: nat, h: nat)
    requires Follows(weights, hash, a, h) && Follows(weights, hash, b, h) && Above(a, h) == Above(b, h)
    ensures a == b
    decreases h
  {
    hide GoesLeft;
    if h > 0 {
      assert Above(a, h - 1) == Above(b, h - 1);
      OneFollows(weights, hash, a, b, h - 1);
    }
  }

  /** Of the 2^32 values of the hash at a node, the share that goes left is the left side's share of
      the weight, rounded up to a whole value. */
  lemma LeftShare(weights: seq<nat>, g: nat, p: nat)
    requires g > 0 && NodeWeight(weights, g, p) > 0
    ensures var w, l := NodeWeight(weights, g, p), NodeWeight(weights, g - 1, 2 * p);
            && l <= w && |Hits(w, WORD, l)| == RoundUp(WORD * l, w)
            && forall hash: Hash :: GoesLeft(weights, hash, g, p) <==> hash(Node(g, p)) % WORD in Hits(w, WORD, l)
  {
    var w, l := NodeWeight(weights, g, p), NodeWeight(weights, g - 1, 2 * p);
    assert w == l + NodeWeight(weights, g - 1, 2 * p + 1);
    hide NodeWeight;
    hide Node;
    hide Hits;
    hide RoundUp;
    HitShare(w, WORD, l);
    forall hash: Hash ensures GoesLeft(weights, hash, g, p) <==> hash(Node(g, p)) % WORD in Hits(w, WORD, l) {
      HitIs(hash(Node(g, p)), w, WORD, l);
    }
  }

  /** The nodes hold their weights. */
  ghost predicate Weighs(nodes: seq<nat>, weights: seq<nat>, depth: nat) {
    forall h: nat, q: nat {:trigger Node(h, q)} :: h < depth && q < Pow2(depth - 1 - h) ==>
      At(nodes, Node(h, q)) == NodeWeight(weights, h, q)
  }

  /** One step down. */
  method Descend(nodes: array<nat>, n: nat, ghost weights: seq<nat>, hash: Hash, depth: nat, ghost h: nat, ghost q: nat)
    returns (next: nat, ghost p: nat)
    requires nodes.Length == Pow2(depth) && Weighs(nodes[..], weights, depth)
    requires 0 < h < depth && q < Pow2(depth - 1 - h) && n == Node(h, q)
    ensures p == 2 * q || p == 2 * q + 1
    ensures next == Node(h - 1, p) && Pick(weights, hash, h, q) == Pick(weights, hash, h - 1, p)
  {
    hide NodeWeight;
    hide Node;
    hide Draw;
    NodeBelow(h, q, depth);
    NodeBelow(h - 1, 2 * q, depth);
    var w := nodes[n];
    var t := Draw(hash(n), w, WORD);
    var l := Left(n, h, q);
    assert At(nodes[..], n) == NodeWeight(weights, h, q);
    assert At(nodes[..], l) == NodeWeight(weights, h - 1, 2 * q);
    if t < nodes[l] {
      next, p := l, 2 * q;
    } else {
      next := Right(n, h, q);
      p := 2 * q + 1;
    }
  }

  /** crush_bucket_tree_choose: the node of the chosen leaf. */
  method Choose(nodes: array<nat>, depth: nat, ghost weights: seq<nat>, hash: Hash) returns (n: nat)
    requires depth > 0 && nodes.Length == Pow2(depth) && Weighs(nodes[..], weights, depth)
    ensures n == 2 * Pick(weights, hash, depth - 1, 0) + 1 && n < nodes.Length
    ensures Follows(weights, hash, n / 2, depth - 1) && Above(n / 2, depth - 1) == 0
  {
    hide Pick;
    hide Above;
    hide Follows;
    hide GoesLeft;
    hide Node;
    hide NodeWeight;
    hide Weighs;
    RootNode(depth);
    n := nodes.Length / 2;
    ghost var h: nat, q: nat := depth - 1, 0;
    while n % 2 == 0
      invariant h < depth && q < Pow2(depth - 1 - h) && n == Node(h, q)
      invariant Pick(weights, hash, h, q) == Pick(weights, hash, depth - 1, 0)
      decreases h
    {
      LeafOdd(h, q);
      n, q := Descend(nodes, n, weights, hash, depth, h, q);
      h := h - 1;
    }
    LeafOdd(h, q);
    NodeBelow(h, q, depth);
    LeafPicked(weights, hash, q);
    PickFollows(weights, hash, depth - 1, 0);
    PickUnder(weights, hash, depth - 1, 0);
  }

  lemma LeafPicked(weights: seq<nat>, hash: Hash, q: nat)
    ensures Pick(weights, hash, 0, q) == q && Node(0, q) == 2 * q + 1
  {
  }

  // ---- the item exists ----

  /** From a node that weighs something the descent ends at an item that weighs something, never at
      a leaf that is only there to fill the tree. */
  lemma {:induction false} PickHasWeight(weights: seq<nat>, hash: Hash, h: nat, q: nat)
    requires NodeWeight(weights, h, q) > 0
    ensures var leaf := Pick(weights, hash, h, q); leaf < |weights| && weights[leaf] > 0
  {
    if h > 0 {
      DrawInside(hash(Node(h, q)), NodeWeight(weights, h, q), WORD);
      if Draw(hash(Node(h, q)), NodeWeight(weights, h, q), WORD) < NodeWeight(weights, h - 1, 2 * q) {
        PickHasWeight(weights, hash, h - 1, 2 * q);
      } else {
        PickHasWeight(weights, hash, h - 1, 2 * q + 1);
      }
    }
  }

  lemma ChosenHasWeight(weights: seq<nat>, hash: Hash, depth: nat)
    requires depth > 0 && |weights| <= Pow2(depth - 1) && Total(weights) > 0
    ensures var leaf := Pick(weights, hash, depth - 1, 0); leaf < |weights| && weights[leaf] > 0
  {
    RootWeight(weights, depth);
    PickHasWeight(weights, hash, depth - 1, 0);
  }

  // ---- stability ----

  lemma LeafChange(weights: seq<nat>, k: nat, more: nat)
    requires k < |weights|
    ensures var raised := weights[k := weights[k] + more];
            && NodeWeight(raised, 0, k) == NodeWeight(weights, 0, k) + more
            && forall j: nat :: j != k ==> NodeWeight(raised, 0, j) == NodeWeight(weights, 0, j)
  {
  }

  /** Raising the weight of an item never moves an input away from it. */
  lemma {:induction false} RaiseKeeps(weights: seq<nat>, hash: Hash, k: nat, more: nat, h: nat, q: nat)
    requires k < |weights| && Pick(weights, hash, h, q) == k
    ensures Pick(weights[k := weights[k] + more], hash, h, q) == k
  {
    hide NodeWeight;
    hide Draw;
    hide Node;
    if h > 0 {
      LeafChange(weights, k, more);
      var raised := weights[k := weights[k] + more];
      var w, l := NodeWeight(weights, h, q), NodeWeight(weights, h - 1, 2 * q);
      WeightChange(weights, raised, k, more, h, q);
      WeightChange(weights, raised, k, more, h - 1, 2 * q);
      PickUnder(weights, hash, h, q);
      DrawGrows(hash(Node(h, q)), w, more, WORD, l);
      if Draw(hash(Node(h, q)), w, WORD) < l {
        PickUnder(weights, hash, h - 1, 2 * q);
        RaiseKeeps(weights, hash, k, more, h - 1, 2 * q);
      } else {
        PickUnder(weights, hash, h - 1, 2 * q + 1);
        RaiseKeeps(weights, hash, k, more, h - 1, 2 * q + 1);
      }
    }
  }
}
