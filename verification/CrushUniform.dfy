/** Uniform buckets: the table of prime strides and the choice of an item (src/crush/builder.c:150-164,
    src/crush/mapper.c:18-27). */
module CrushUniform {
  import opened CrushDraw

  // ---- numbers ----

  ghost predicate Divides(d: nat, n: nat) {
    exists k: nat :: n == d * k
  }

  ghost predicate Prime(p: nat) {
    p >= 2 && forall d: nat :: 2 <= d < p ==> !Divides(d, p)
  }

  lemma DividesBy(d: nat, k: nat)
    ensures Divides(d, d * k)
  {
  }

  lemma ModDivides(d: nat, n: nat)
    requires d > 0
    ensures n % d == 0 <==> Divides(d, n)
  {
    assert n == d * (n / d) + n % d;
    if n % d == 0 {
      DividesBy(d, n / d);
    } else if Divides(d, n) {
      var k: nat :| n == d * k;
      MulGap(d, n / d, k, n % d);
      assert false;
    }
  }

  /** d * a + r with 0 < r < d is not a multiple of d. */
  lemma MulGap(d: nat, a: nat, k: nat, r: nat)
    requires 0 < r < d
    ensures d * a + r != d * k
  {
    if k > a {
      Monotone(d, a + 1, k);
    } else {
      Monotone(d, k, a);
    }
  }

  lemma DividesSum(d: nat, a: nat, b: nat)
    requires Divides(d, a) && Divides(d, a + b)
    ensures Divides(d, b)
  {
    var k: nat :| a == d * k;
    var l: nat :| a + b == d * l;
    if l < k {
      Monotone(d, l, k);
      assert b == 0;
      DividesBy(d, 0);
    } else {
      assert b == d * (l - k);
      DividesBy(d, l - k);
    }
  }

  /** A number without a divisor up to its square root is prime. */
  lemma TrialDivision(x: nat, j: nat)
    requires x >= 2 && j >= 2 && j * j > x
    requires forall d: nat :: 2 <= d < j ==> !Divides(d, x)
    ensures Prime(x)
  {
    forall d: nat | 2 <= d < x ensures !Divides(d, x) {
      if Divides(d, x) {
        var k: nat :| x == d * k;
        DividesBy(k, d);
        Cofactor(x, d, k, j);
        assert false;
      }
    }
  }

  lemma Cofactor(x: nat, d: nat, k: nat, j: nat)
    requires x == d * k && 2 <= d < x && j * j > x && j >= 2
    requires forall e: nat :: 2 <= e < j ==> !Divides(e, x)
    ensures 2 <= k < j && x == k * d
  {
    assert Divides(d, x);
    assert d >= j;
    if k >= j {
      Monotone(d, j, k);
      Monotone(j, j, d);
      assert false;
    }
    if k <= 1 {
      Monotone(d, k, 1);
      assert false;
    }
  }

  // ---- a prime above every bound ----

  function Factorial(n: nat): (r: nat)
    ensures r >= 1
  {
    if n == 0 then 1 else n * Factorial(n - 1)
  }

  lemma {:induction false} FactorialDivisible(n: nat, d: nat)
    requires 1 <= d <= n
    ensures Divides(d, Factorial(n))
  {
    if d == n {
      DividesBy(n, Factorial(n - 1));
    } else {
      FactorialDivisible(n - 1, d);
      var k: nat :| Factorial(n - 1) == d * k;
      assert n * (d * k) == d * (n * k);
      DividesBy(d, n * k);
    }
  }

  lemma {:induction false} PrimeDivisor(n: nat, d: nat) returns (p: nat)
    requires 2 <= d <= n && Divides(d, n)
    ensures Prime(p) && Divides(p, n)
    decreases d
  {
    if e: nat :| 2 <= e < d && Divides(e, d) {
      var k: nat :| d == e * k;
      var l: nat :| n == d * l;
      assert n == e * (k * l);
      DividesBy(e, k * l);
      p := PrimeDivisor(n, e);
    } else {
      p := d;
    }
  }

  /** Euclid: there is a prime above n. */
  lemma PrimeAbove(n: nat) returns (p: nat)
    ensures Prime(p) && p > n
  {
    var f := Factorial(n);
    DividesBy(f + 1, 1);
    p := PrimeDivisor(f + 1, f + 1);
    if p <= n {
      FactorialDivisible(n, p);
      DividesSum(p, f, 1);
      var k: nat :| 1 == p * k;
      if k > 0 {
        Monotone(p, 1, k);
      }
      assert false;
    }
  }

  lemma OddPrime(p: nat)
    requires Prime(p) && p > 2
    ensures p % 2 == 1
  {
    ModDivides(2, p);
  }

  // ---- the table ----

  /** Whether trial division finds no divisor of x. */
  method IsPrime(x: nat) returns (r: bool)
    requires x >= 3
    ensures r <==> Prime(x)
  {
    var j := 2;
    while j * j <= x
      invariant j >= 2
      invariant forall d: nat :: 2 <= d < j ==> !Divides(d, x)
      decreases x - j
    {
      ModDivides(j, x);
      if x % j == 0 {
        Smaller(j, x);
        return false;
      }
      j := j + 1;
    }
    TrialDivision(x, j);
    r := true;
  }

  lemma Smaller(j: nat, x: nat)
    requires j >= 2 && j * j <= x
    ensures j < x
  {
    Monotone(j, 2, j);
  }

  /** A number above `size` to start from, made big and odd. */
  method FirstCandidate(size: nat, hash: nat) returns (x: nat)
    requires size > 0
    ensures size < x && 3 <= x <= 4 * size + 1 && x % 2 == 1
  {
    x := size + 1;
    x := x + hash % (3 * size);
    if x % 2 == 0 {
      x := x + 1;
    }
  }

  /** The strides of a bucket: `size` different odd primes, all larger than `size`. The search ends
      because there is always another prime. */
  method MakePrimes(size: nat, hash: nat) returns (primes: array<nat>)
    requires size > 0
    ensures fresh(primes) && primes.Length == size
    ensures GoodTable(primes[..])
    ensures forall i, j :: 0 <= i < j < size ==> primes[i] < primes[j]
  {
    hide Prime;
    hide Divides;
    primes := new nat[size];
    var x := FirstCandidate(size, hash);
    var i := 0;
    ghost var goal := NextGoal(x);
    while i < size
      invariant 0 <= i <= size && x > size && x >= 3 && x % 2 == 1
      invariant Prime(goal) && x <= goal && goal % 2 == 1
      invariant forall k :: 0 <= k < i ==> Prime(primes[k]) && size < primes[k] < x
      invariant forall k, l :: 0 <= k < l < i ==> primes[k] < primes[l]
      decreases size - i, goal - x
    {
      var prime := IsPrime(x);
      if prime {
        primes[i] := x;
        i := i + 1;
        goal := NextGoal(x + 2);
      }
      x := x + 2;
    }
  }

  lemma NextGoal(x: nat) returns (p: nat)
    requires x >= 3
    ensures Prime(p) && x <= p && p % 2 == 1
  {
    p := PrimeAbove(x);
    OddPrime(p);
  }

  // ---- choosing ----

  const WORD: nat := 0x1_0000_0000

  /** The slot for replica r: `start` stands for x plus the offset, `stride` for the prime. */
  function Slot(start: nat, stride: nat, r: nat, size: nat): (s: nat)
    requires size > 0
    ensures s < size
  {
    ((start + (r + 1) * stride) % WORD) % size
  }

  /** The 32-bit number that an input and its offset come to; `o` is the hash of the input. */
  function Begin(x: int, o: nat): nat {
    (x + o % 0x1_0000) % WORD
  }

  /** It is x and the low 16 bits of o, and no other 32-bit number. */
  lemma BeginIs(x: int, o: nat, b: nat)
    ensures Begin(x, o) == b <==> b < WORD && exists k: int :: x + o % 0x1_0000 == b + k * WORD
  {
    var n := x + o % 0x1_0000;
    assert n == Begin(x, o) + (n / WORD) * WORD;
    if k: int :| n == b + k * WORD {
      WordTimes(b, k);
    }
  }

  lemma {:induction false} WordTimes(b: nat, k: int)
    ensures (b + k * WORD) % WORD == b % WORD
  {
  }

  /** The position that is chosen; `h` is the hash that selects the stride. */
  function Position(primes: seq<nat>, x: int, o: nat, h: nat, r: nat): nat
    requires primes != []
  {
    Slot(Begin(x, o), primes[h % |primes|], r, |primes|)
  }

  /** crush_bucket_uniform_choose, with its sum in 32 bits */
  method Choose(items: array<int>, primes: array<nat>, x: int, o: nat, h: nat, r: nat) returns (item: int)
    requires items.Length == primes.Length > 0
    ensures item == items[Position(primes[..], x, o, h, r)]
  {
    var p := primes[h % items.Length];
    var s := ((x + o % 0x1_0000 + (r + 1) * p) % WORD) % items.Length;
    item := items[s];
    WordSum(x + o % 0x1_0000, (r + 1) * p);
  }

  lemma WordSum(a: int, b: nat)
    ensures (a % WORD + b) % WORD == (a + b) % WORD
  {
  }

  lemma DividesTimes(d: nat, a: nat, c: nat)
    requires Divides(d, a)
    ensures Divides(d, c * a)
  {
    var k: nat :| a == d * k;
    Regroup(c, d, k);
    DividesBy(d, c * k);
  }

  lemma Regroup(c: nat, d: nat, k: nat)
    ensures c * (d * k) == d * (c * k)
  {
  }

  lemma Expand(a: nat, c: nat, r: nat, b: nat)
    ensures (a * c + r) * b == c * (a * b) + r * b
  {
    Regroup(c, a, b);
    assert (a * c + r) * b == a * c * b + r * b;
    assert a * c * b == a * (c * b);
  }

  /** A prime that divides a product but not the first factor divides the second one. */
  lemma {:induction false} EuclidsLemma(p: nat, a: nat, b: nat)
    requires Prime(p) && 0 < a < p && Divides(p, a * b)
    ensures Divides(p, b)
    decreases a
  {
    var r := p % a;
    var c := p / a;
    assert p == a * c + r;
    if r == 0 {
      DividesBy(a, c);
      assert a == 1;
    } else {
      hide Prime;
      hide Divides;
      Expand(a, c, r, b);
      DividesTimes(p, a * b, c);
      DividesBy(p, b);
      DividesSum(p, c * (a * b), r * b);
      EuclidsLemma(p, r, b);
    }
  }

  /** Two replicas that fall on the same slot are a multiple of `size` apart. */
  lemma StrideCoprime(p: nat, size: nat, k: nat)
    requires Prime(p) && 0 < size < p && 0 < k < size
    ensures !Divides(size, k * p)
  {
    if Divides(size, k * p) {
      var q: nat :| k * p == size * q;
      assert size * q == p * k;
      DividesBy(p, k);
      EuclidsLemma(p, size, q);
      var t: nat :| q == p * t;
      assert p * k == p * (size * t);
      Cancel(p, k, size * t);
      assert t > 0;
      Monotone(size, 1, t);
      assert false;
    }
  }

  lemma Cancel(p: nat, a: nat, b: nat)
    requires p > 0 && p * a == p * b
    ensures a == b
  {
    if a < b {
      Monotone(p, a + 1, b);
      Monotone(p, a, a);
    } else if b < a {
      Monotone(p, b + 1, a);
      Monotone(p, b, b);
    }
  }

  lemma SameMod(a: nat, b: nat, size: nat)
    requires size > 0 && a <= b && a % size == b % size
    ensures Divides(size, b - a)
  {
    assert a == size * (a / size) + a % size;
    assert b == size * (b / size) + b % size;
    DivMonotone(a, b, size);
    assert b - a == size * (b / size - a / size);
    DividesBy(size, b / size - a / size);
  }

  lemma DivMonotone(a: nat, b: nat, d: nat)
    requires d > 0 && a <= b
    ensures a / d <= b / d
  {
    var q, t := a / d, b / d;
    assert a == d * q + a % d && b == d * t + b % d;
    if t < q {
      Monotone(d, t, t + 1);
      Monotone(d, t + 1, q);
    }
  }

  // ---- when different replicas fall on different slots ----

  /** The sum for replica r, before it is cut to 32 bits. */
  function Sum(start: nat, p: nat, r: nat): nat {
    start + (r + 1) * p
  }

  lemma SumGrows(start: nat, p: nat, r: nat, t: nat)
    requires r <= t
    ensures Sum(start, p, r) <= Sum(start, p, t)
    ensures Sum(start, p, t) - Sum(start, p, r) == (t - r) * p
  {
    Monotone(p, r + 1, t + 1);
    assert (t + 1) * p == p * (t + 1) && (r + 1) * p == p * (r + 1);
  }

  /** Sums that have wrapped equally often, or a size that divides 2^32. */
  lemma SameSlot(a: nat, b: nat, size: nat)
    requires size > 0 && a <= b && (a % WORD) % size == (b % WORD) % size
    requires a / WORD == b / WORD || WORD % size == 0
    ensures Divides(size, b - a)
  {
    if WORD % size == 0 {
      ModMod(a, size);
      ModMod(b, size);
      SameMod(a, b, size);
    } else {
      SameMod(a % WORD, b % WORD, size);
    }
  }

  lemma ModMod(a: nat, size: nat)
    requires size > 0 && WORD % size == 0
    ensures (a % WORD) % size == a % size
  {
    var c := WORD / size;
    assert WORD == size * c + WORD % size;
    var q := a / WORD;
    assert a == WORD * q + a % WORD;
    Regroup(q, size, c);
    assert a == size * (q * c) + a % WORD;
    ModPlus(a % WORD, q * c, size);
  }

  lemma {:induction false} ModPlus(a: nat, k: nat, size: nat)
    requires size > 0
    ensures (size * k + a) % size == a % size
    decreases k
  {
    if k > 0 {
      assert size * k == size * (k - 1) + size;
      ModPlus(a, k - 1, size);
      AddOnce(size * (k - 1) + a, size);
    }
  }

  lemma AddOnce(a: nat, size: nat)
    requires size > 0
    ensures (a + size) % size == a % size
  {
    var q := a / size;
    assert a == size * q + a % size;
    assert a + size == size * (q + 1) + a % size;
    Quotient(a + size, size, q + 1, a % size);
  }

  lemma Quotient(a: nat, size: nat, q: nat, m: nat)
    requires size > 0 && a == size * q + m && m < size
    ensures a % size == m
  {
    var d := a / size;
    assert a == size * d + a % size;
    if d < q {
      Monotone(size, d + 1, q);
    } else if q < d {
      Monotone(size, q + 1, d);
    }
  }

  /** Different replicas below `size` fall on different slots, if their sums have wrapped equally
      often, or if the size divides 2^32. */
  lemma SlotsDiffer(start: nat, p: nat, size: nat, r: nat, t: nat)
    requires Prime(p) && 0 < size < p && r < t < size
    requires Sum(start, p, r) / WORD == Sum(start, p, t) / WORD || WORD % size == 0
    ensures Slot(start, p, r, size) != Slot(start, p, t, size)
  {
    var a, b := Sum(start, p, r), Sum(start, p, t);
    SumGrows(start, p, r, t);
    if (a % WORD) % size == (b % WORD) % size {
      SameSlot(a, b, size);
      StrideCoprime(p, size, t - r);
      assert false;
    }
  }

  /** Of the first `size` sums, none wraps, or all do, or it does not matter. */
  predicate NoSplit(start: nat, p: nat, size: nat)
    requires size > 0
  {
    start + size * p < WORD || WORD <= start + p || WORD % size == 0
  }

  lemma WrapsAlike(start: nat, p: nat, size: nat, r: nat)
    requires start < WORD && size * p < WORD && r < size
    requires start + size * p < WORD || WORD <= start + p
    ensures Sum(start, p, r) / WORD == if start + size * p < WORD then 0 else 1
  {
    SumGrows(start, p, 0, r);
    SumGrows(start, p, r, size - 1);
    assert Sum(start, p, 0) == start + p && Sum(start, p, size - 1) == start + size * p;
  }

  lemma NoSplitDiffers(start: nat, p: nat, size: nat, r: nat, t: nat)
    requires Prime(p) && 0 < size < p && r < t < size && start < WORD && size * p < WORD
    requires NoSplit(start, p, size)
    ensures Slot(start, p, r, size) != Slot(start, p, t, size)
  {
    if WORD % size != 0 {
      WrapsAlike(start, p, size, r);
      WrapsAlike(start, p, size, t);
    }
    SlotsDiffer(start, p, size, r, t);
  }

  /** Among the first n replicas, which slots are taken. */
  ghost function Taken(start: nat, p: nat, size: nat, n: nat): set<nat>
    requires size > 0
  {
    set r: nat | r < n :: Slot(start, p, r, size)
  }

  lemma TakenNext(start: nat, p: nat, size: nat, n: nat)
    requires size > 0
    ensures Taken(start, p, size, n + 1) == Taken(start, p, size, n) + {Slot(start, p, n, size)}
  {
    hide Slot;
  }

  ghost predicate AllDiffer(start: nat, p: nat, size: nat)
    requires size > 0
  {
    forall r: nat, t: nat :: r < t < size ==> Slot(start, p, r, size) != Slot(start, p, t, size)
  }

  lemma {:induction false} TakenSize(start: nat, p: nat, size: nat, n: nat)
    requires 0 < size && n <= size && AllDiffer(start, p, size)
    ensures |Taken(start, p, size, n)| == n
    decreases n
  {
    hide Slot;
    if n == 0 {
      assert Taken(start, p, size, n) == {};
    } else {
      TakenSize(start, p, size, n - 1);
      TakenNext(start, p, size, n - 1);
    }
  }

  lemma {:induction false} Below(s: set<nat>, n: nat)
    requires forall x :: x in s ==> x < n
    ensures |s| <= n && (|s| == n ==> forall x: nat :: x < n ==> x in s)
  {
    if n > 0 {
      var t := s - {n - 1};
      Below(t, n - 1);
      if n - 1 in s {
        assert s == t + {n - 1};
      } else {
        assert s == t;
      }
    } else {
      assert s == {};
    }
  }

  /** Different slots for `size` replicas are all the slots. */
  lemma AllTaken(start: nat, p: nat, size: nat, slot: nat)
    requires slot < size && AllDiffer(start, p, size)
    ensures exists r: nat :: r < size && Slot(start, p, r, size) == slot
  {
    hide Slot;
    TakenSize(start, p, size, size);
    TakenBelow(start, p, size);
    Below(Taken(start, p, size, size), size);
    assert slot in Taken(start, p, size, size);
  }

  lemma TakenBelow(start: nat, p: nat, size: nat)
    requires size > 0
    ensures forall x :: x in Taken(start, p, size, size) ==> x < size
  {
  }

  // ---- a wrap between the replicas ----

  /** The first replica whose sum wraps. */
  lemma FirstWrapped(start: nat, p: nat, size: nat, k: nat) returns (j: nat)
    requires k < size && Sum(start, p, k) < WORD <= Sum(start, p, size - 1)
    ensures k < j < size && Sum(start, p, j - 1) < WORD <= Sum(start, p, j)
    decreases size - k
  {
    if WORD <= Sum(start, p, k + 1) {
      j := k + 1;
    } else {
      j := FirstWrapped(start, p, size, k + 1);
    }
  }

  /** Some number of strides comes to the same slot as a wrap does. */
  lemma StridesLikeWrap(p: nat, size: nat) returns (d: nat)
    requires Prime(p) && 0 < size < p && size * p < WORD && WORD % size != 0
    ensures 0 < d < size && (d * p) % size == WORD % size
  {
    var c: nat := WORD % size;
    forall r: nat, t: nat | r < t < size ensures Slot(0, p, r, size) != Slot(0, p, t, size) {
      NoSplitDiffers(0, p, size, r, t);
    }
    AllTaken(0, p, size, c);
    var r: nat :| r < size && Slot(0, p, r, size) == c;
    d := r + 1;
    SumGrows(0, p, r, size - 1);
    assert Sum(0, p, size - 1) == size * p && Sum(0, p, r) == d * p;
    assert (d * p) % WORD == d * p;
    if d == size {
      ModPlus(0, p, size);
      assert false;
    }
  }

  lemma ModEqual(a: nat, b: nat, w: nat, e: nat, size: nat)
    requires size > 0 && e <= w && a == b + (w - e) && e % size == w % size
    ensures a % size == b % size
  {
    SameMod(e, w, size);
    var k: nat :| w - e == size * k;
    ModPlus(b, k, size);
  }

  /** If some of the sums wrap and others do not, two replicas meet, unless the size divides 2^32. */
  lemma SplitCollides(start: nat, p: nat, size: nat) returns (r: nat, t: nat)
    requires Prime(p) && 0 < size < p && start < WORD && size * p < WORD
    requires !NoSplit(start, p, size)
    ensures r < t < size && Slot(start, p, r, size) == Slot(start, p, t, size)
  {
    hide Prime;
    assert Sum(start, p, 0) == start + p && Sum(start, p, size - 1) == start + size * p;
    var j := FirstWrapped(start, p, size, 0);
    var d := StridesLikeWrap(p, size);
    r := if j >= d then j - d else 0;
    t := r + d;
    Straddle(start, p, size, j, r, t);
    hide NoSplit;
    hide Sum;
    hide Slot;
    Meet(start, p, size, r, d);
  }

  lemma Meet(start: nat, p: nat, size: nat, r: nat, d: nat)
    requires 0 < d < size && size * p < WORD && (d * p) % size == WORD % size
    requires Sum(start, p, r) % WORD == Sum(start, p, r)
    requires Sum(start, p, r + d) >= WORD && Sum(start, p, r + d) % WORD == Sum(start, p, r + d) - WORD
    ensures Slot(start, p, r, size) == Slot(start, p, r + d, size)
  {
    var a, b := Sum(start, p, r), Sum(start, p, r + d);
    SumGrows(start, p, r, r + d);
    assert b - a == d * p;
    Monotone(p, d, size);
    assert p * d == d * p && p * size == size * p;
    SlotOf(start, p, r, size);
    SlotOf(start, p, r + d, size);
    hide Sum;
    hide Slot;
    ModEqual(a, b - WORD, WORD, d * p, size);
  }

  lemma SlotOf(start: nat, p: nat, r: nat, size: nat)
    requires size > 0
    ensures Slot(start, p, r, size) == (Sum(start, p, r) % WORD) % size
  {
  }

  lemma Straddle(start: nat, p: nat, size: nat, j: nat, r: nat, t: nat)
    requires start < WORD && size * p < WORD && r < j <= t < size
    requires Sum(start, p, j - 1) < WORD <= Sum(start, p, j)
    ensures Sum(start, p, r) % WORD == Sum(start, p, r)
    ensures Sum(start, p, t) >= WORD && Sum(start, p, t) % WORD == Sum(start, p, t) - WORD
  {
    SumLast(start, p, size);
    hide Sum;
    SumGrows(start, p, r, j - 1);
    SumGrows(start, p, j, t);
    SumGrows(start, p, t, size - 1);
    var a, b := Sum(start, p, r), Sum(start, p, t);
    assert a < WORD <= b < 2 * WORD;
    OneWrap(a, b);
  }

  lemma SumLast(start: nat, p: nat, size: nat)
    requires size > 0
    ensures Sum(start, p, size - 1) == start + size * p
  {
  }

  lemma OneWrap(a: nat, b: nat)
    requires a < WORD <= b < 2 * WORD
    ensures a % WORD == a && b % WORD == b - WORD
  {
  }

  // ---- every slot once ----

  ghost predicate OnceIn(s: seq<nat>, k: nat) {
    && (exists r :: 0 <= r < |s| && s[r] == k)
    && (forall r, t :: 0 <= r < |s| && 0 <= t < |s| && s[r] == k == s[t] ==> r == t)
  }

  /** Every number below the length occurs exactly once. */
  ghost predicate EachOnce(s: seq<nat>) {
    forall k: nat :: k < |s| ==> OnceIn(s, k)
  }

  /** The slots that the first `size` replicas visit. */
  ghost function Visited(start: nat, p: nat, size: nat): (s: seq<nat>)
    requires size > 0
    ensures |s| == size
  {
    seq(size, r requires 0 <= r < size => Slot(start, p, r, size))
  }

  /** They visit every slot exactly once if and only if no wrap falls between them, or the size
      divides 2^32. */
  lemma EverySlotOnce(start: nat, p: nat, size: nat)
    requires Prime(p) && 0 < size < p && start < WORD && size * p < WORD
    ensures EachOnce(Visited(start, p, size)) <==> NoSplit(start, p, size)
  {
    if NoSplit(start, p, size) {
      forall r: nat, t: nat | r < t < size ensures Slot(start, p, r, size) != Slot(start, p, t, size) {
        NoSplitDiffers(start, p, size, r, t);
      }
      DifferOnce(start, p, size);
    } else {
      var r, t := SplitCollides(start, p, size);
      hide Slot;
      var s := Visited(start, p, size);
      assert s[r] == s[t];
      assert !OnceIn(s, s[r]);
    }
  }

  lemma DifferOnce(start: nat, p: nat, size: nat)
    requires size > 0 && AllDiffer(start, p, size)
    ensures EachOnce(Visited(start, p, size))
  {
    hide Slot;
    var s := Visited(start, p, size);
    forall k: nat | k < size ensures OnceIn(s, k) {
      AllTaken(start, p, size, k);
      var r: nat :| r < size && Slot(start, p, r, size) == k;
      assert s[r] == k;
    }
  }

  /** A size that divides 2^32 is safe whatever the stride is. */
  lemma PowersAreSafe(start: nat, p: nat, size: nat)
    requires Prime(p) && 0 < size < p && WORD % size == 0
    ensures EachOnce(Visited(start, p, size))
  {
    forall r: nat, t: nat | r < t < size ensures Slot(start, p, r, size) != Slot(start, p, t, size) {
      SlotsDiffer(start, p, size, r, t);
    }
    DifferOnce(start, p, size);
  }

  /** What the table of strides promises. */
  ghost predicate GoodTable(primes: seq<nat>) {
    forall i :: 0 <= i < |primes| ==> Prime(primes[i]) && primes[i] > |primes|
  }

  /** The positions that the first replicas of an input choose. */
  ghost function Positions(primes: seq<nat>, x: int, o: nat, h: nat): seq<nat>
    requires primes != []
  {
    seq(|primes|, r requires 0 <= r < |primes| => Position(primes, x, o, h, r))
  }

  /** With a table of strides as MakePrimes builds it, the first replicas of an input choose every
      position of the bucket exactly once if and only if no wrap falls between them, or the size of
      the bucket divides 2^32. */
  lemma EveryItemOnce(primes: seq<nat>, x: int, o: nat, h: nat)
    requires primes != [] && GoodTable(primes) && |primes| * primes[h % |primes|] < WORD
    ensures EachOnce(Positions(primes, x, o, h)) <==> NoSplit(Begin(x, o), primes[h % |primes|], |primes|)
  {
    EverySlotOnce(Begin(x, o), primes[h % |primes|], |primes|);
    assert Positions(primes, x, o, h) == Visited(Begin(x, o), primes[h % |primes|], |primes|);
  }

  /** When the 32-bit sum wraps, two replicas may fall on one slot. */
  lemma WrapCollides()
    ensures Prime(5) && Slot(0xffff_fff5, 5, 0, 3) == Slot(0xffff_fff5, 5, 2, 3)
    ensures !NoSplit(0xffff_fff5, 5, 3)
  {
    forall d: nat | 2 <= d < 5 ensures !Divides(d, 5) {
      ModDivides(d, 5);
    }
  }
}
