/** Fixed-point draws: a hash picks a point below a weight (src/crush/mapper.c:32-102). */
module CrushDraw {

  /** The low bits of h, as a fraction of `scale`, of the way to `sum`. */
  function Draw(h: nat, sum: nat, scale: nat): nat
    requires scale > 0
  {
    ((h % scale) * sum) / scale
  }

  lemma DrawBelow(h: nat, sum: nat, scale: nat, limit: nat)
    requires scale > 0
    ensures Draw(h, sum, scale) < limit <==> (h % scale) * sum < scale * limit
  {
    var n := (h % scale) * sum;
    var q := n / scale;
    assert n == scale * q + n % scale;
    if q < limit {
      Monotone(scale, q + 1, limit);
    } else {
      Monotone(scale, limit, q);
    }
  }

  lemma {:induction false} Monotone(d: nat, a: nat, b: nat)
    requires a <= b
    ensures d * a <= d * b && d * (a + 1) == d * a + d
    decreases b - a
  {
    if a < b {
      Monotone(d, a + 1, b);
    }
  }

  lemma Distribute(m: nat, a: nat, b: nat)
    ensures m * (a + b) == m * a + m * b
  {
  }

  lemma LessTimes(m: nat, scale: nat, a: nat)
    requires m < scale
    ensures 0 <= m * a <= scale * a && (a > 0 ==> m * a < scale * a)
  {
    Distribute(a, m, scale - m);
    assert a > 0 ==> a * (scale - m) >= a;
  }

  // ---- how many hash values hit ----

  /** The first n values. */
  ghost function Under(n: nat): (s: set<nat>) {
    if n == 0 then {} else Under(n - 1) + {n - 1}
  }

  lemma {:induction false} HowManyUnder(n: nat)
    ensures |Under(n)| == n
    ensures forall x: nat :: x in Under(n) <==> x < n
  {
    if n > 0 {
      HowManyUnder(n - 1);
    }
  }

  /** The values of a hash below `scale` whose point is below `limit`. */
  ghost function Hits(sum: nat, scale: nat, limit: nat): (s: set<nat>)
    requires scale > 0
  {
    set x: nat | x in Under(scale) && x * sum < scale * limit
  }

  /** Of the `scale` values that a hash can have, the share that hits `limit` of `sum` is limit / sum,
      rounded up to a whole value. */
  lemma HitShare(sum: nat, scale: nat, limit: nat)
    requires scale > 0 && sum > 0 && limit <= sum
    ensures |Hits(sum, scale, limit)| == RoundUp(scale * limit, sum)
  {
    var c := RoundUp(scale * limit, sum);
    RoundedUp(scale * limit, sum);
    HowManyUnder(scale);
    HowManyUnder(c);
    forall x: nat ensures x in Hits(sum, scale, limit) <==> x in Under(c) {
      HitBelow(x, sum, scale, limit, c);
    }
    assert Hits(sum, scale, limit) == Under(c);
  }

  lemma HitIs(h: nat, sum: nat, scale: nat, limit: nat)
    requires scale > 0
    ensures h % scale in Hits(sum, scale, limit) <==> (h % scale) * sum < scale * limit
  {
    HowManyUnder(scale);
  }

  /** n / d, rounded up. */
  function RoundUp(n: nat, d: nat): nat
    requires d > 0
  {
    (n + d - 1) / d
  }

  lemma RoundedUp(n: nat, d: nat)
    requires d > 0
    ensures var c := RoundUp(n, d); d * c >= n && d * c < n + d
  {
    var c := RoundUp(n, d);
    assert n + d - 1 == d * c + (n + d - 1) % d;
  }

  lemma HitBelow(x: nat, sum: nat, scale: nat, limit: nat, c: nat)
    requires scale > 0 && sum > 0 && limit <= sum && scale * limit <= sum * c < scale * limit + sum
    ensures x < scale && x * sum < scale * limit <==> x < c
  {
    Monotone(scale, limit, sum);
    Swap(scale, sum);
    Swap(x, sum);
    if c > scale {
      Monotone(sum, scale + 1, c);
      Monotone(sum, scale, scale);
    }
    if x < c {
      Monotone(sum, x + 1, c);
      Monotone(sum, x, x);
    } else {
      Monotone(sum, c, x);
    }
  }

  lemma Swap(a: nat, b: nat)
    ensures a * b == b * a
  {
  }

  /** The point is below the weight. */
  lemma DrawInside(h: nat, sum: nat, scale: nat)
    requires scale > 0 && sum > 0
    ensures Draw(h, sum, scale) < sum
  {
    DrawBelow(h, sum, scale, sum);
    LessTimes(h % scale, scale, sum);
  }

  /** With more weight the point does not fall back, and it grows by less than the weight. */
  lemma DrawGrows(h: nat, sum: nat, more: nat, scale: nat, limit: nat)
    requires scale > 0
    ensures Draw(h, sum, scale) >= limit ==> Draw(h, sum + more, scale) >= limit
    ensures Draw(h, sum, scale) < limit ==> Draw(h, sum + more, scale) < limit + more
  {
    DrawBelow(h, sum, scale, limit);
    DrawBelow(h, sum + more, scale, limit);
    DrawBelow(h, sum + more, scale, limit + more);
    hide Draw;
    Distribute(h % scale, sum, more);
    Distribute(scale, limit, more);
    LessTimes(h % scale, scale, more);
  }
}
