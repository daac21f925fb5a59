/** Fixed-width integers and strings in a byte stream, low byte first. */
module Wire {
  import opened Extents

  /** What a read leaves: a value and the rest of the stream; or the stream was too short. */
  datatype Got<+T> = Bad | Got(value: T, rest: seq<Byte>)

  function Pow256(w: nat): (r: nat)
    ensures r > 0
  {
    if w == 0 then 1 else 256 * Pow256(w - 1)
  }

  /** The low w bytes of n. */
  function Le(n: nat, w: nat): (bs: seq<Byte>)
    ensures |bs| == w
  {
    if w == 0 then [] else [n % 256] + Le(n / 256, w - 1)
  }

  function Un(bs: seq<Byte>): (n: nat) {
    if bs == [] then 0 else bs[0] + 256 * Un(bs[1..])
  }

  lemma {:induction false} UnBound(bs: seq<Byte>)
    ensures Un(bs) < Pow256(|bs|)
  {
    if bs != [] {
      UnBound(bs[1..]);
    }
  }

  /** A number is read back if it fits, and only its low bytes otherwise. */
  lemma {:induction false} UnLe(n: nat, w: nat)
    ensures Un(Le(n, w)) == n % Pow256(w)
    decreases w
  {
    if w > 0 {
      UnLe(n / 256, w - 1);
      assert Le(n, w)[1..] == Le(n / 256, w - 1);
      ModSplit(n, Pow256(w - 1));
    }
  }

  lemma ModSplit(n: nat, p: nat)
    requires p > 0
    ensures n % (256 * p) == n % 256 + 256 * ((n / 256) % p)
  {
    var q := (n / 256) / p;
    var r := n % 256 + 256 * ((n / 256) % p);
    assert n == 256 * p * q + r by {
      assert n / 256 == p * q + (n / 256) % p;
      assert 256 * (p * q) == 256 * p * q;
    }
    ModIs(n, 256 * p, q, r);
  }

  lemma ModIs(n: nat, d: nat, q: nat, r: nat)
    requires n == d * q + r && r < d
    ensures n % d == r
  {
    var q' := n / d;
    var r' := n % d;
    assert n == d * q' + r';
    if q' > q {
      MulStep(d, q, q');
      assert false;
    } else if q' < q {
      MulStep(d, q', q);
      assert false;
    }
  }

  lemma {:induction false} MulStep(d: nat, a: nat, b: nat)
    requires a < b
    ensures d * a + d <= d * b
    decreases b
  {
    assert d * b == d * (b - 1) + d;
    if a < b - 1 {
      MulStep(d, a, b - 1);
    }
  }

  function Take(bs: seq<Byte>, w: nat): (g: Got<nat>)
  {
    if |bs| < w then Bad else Got(Un(bs[..w]), bs[w..])
  }

  lemma TakeLe(n: nat, w: nat, rest: seq<Byte>)
    requires n < Pow256(w)
    ensures Take(Le(n, w) + rest, w) == Got(n, rest)
  {
    var bs := Le(n, w) + rest;
    assert bs[..w] == Le(n, w) && bs[w..] == rest;
    UnLe(n, w);
    SmallMod(n, Pow256(w));
  }

  lemma SmallMod(n: nat, p: nat)
    requires n < p
    ensures n % p == n
  {
  }

  lemma TakeBound(bs: seq<Byte>, w: nat)
    requires Take(bs, w).Got?
    ensures Take(bs, w).value < Pow256(w) && |Take(bs, w).rest| == |bs| - w
  {
    UnBound(bs[..w]);
  }

  lemma Assoc(a: seq<Byte>, b: seq<Byte>, c: seq<Byte>)
    ensures a + b + c == a + (b + c)
  {
  }

  // ---- a list of fields ----

  ghost predicate FieldsFit(vs: seq<nat>, ws: seq<nat>) {
    |vs| == |ws| && forall i :: 0 <= i < |vs| ==> vs[i] < Pow256(ws[i])
  }

  function PutFields(vs: seq<nat>, ws: seq<nat>): (bs: seq<Byte>)
    requires |vs| == |ws|
    ensures |bs| == Width(ws)
  {
    if vs == [] then [] else Le(vs[0], ws[0]) + PutFields(vs[1..], ws[1..])
  }

  function Width(ws: seq<nat>): nat {
    if ws == [] then 0 else ws[0] + Width(ws[1..])
  }

  function TakeFields(ws: seq<nat>, bs: seq<Byte>): (g: Got<seq<nat>>)
    ensures g.Got? ==> |g.value| == |ws|
  {
    if ws == [] then Got([], bs)
    else
      match Take(bs, ws[0])
      case Bad => Bad
      case Got(v, rest) =>
        match TakeFields(ws[1..], rest)
        case Bad => Bad
        case Got(vs, rest') => Got([v] + vs, rest')
  }

  lemma {:induction false} TakePutFields(vs: seq<nat>, ws: seq<nat>, rest: seq<Byte>)
    requires FieldsFit(vs, ws)
    ensures TakeFields(ws, PutFields(vs, ws) + rest) == Got(vs, rest)
  {
    if vs == [] {
      assert PutFields(vs, ws) + rest == rest;
    } else {
      var tail := PutFields(vs[1..], ws[1..]);
      assert PutFields(vs, ws) + rest == Le(vs[0], ws[0]) + (tail + rest);
      TakeLe(vs[0], ws[0], tail + rest);
      TakePutFields(vs[1..], ws[1..], rest);
      assert [vs[0]] + vs[1..] == vs;
    }
  }

  lemma {:induction false} TakeFieldsFit(ws: seq<nat>, bs: seq<Byte>)
    requires TakeFields(ws, bs).Got?
    ensures FieldsFit(TakeFields(ws, bs).value, ws)
  {
    if ws != [] {
      TakeBound(bs, ws[0]);
      TakeFieldsFit(ws[1..], Take(bs, ws[0]).rest);
    }
  }

  // ---- strings that end in a zero byte ----

  type Name = seq<Byte>

  function TakeName(bs: seq<Byte>): (g: Got<Name>)
    ensures g.Got? ==> 0 !in g.value
  {
    if bs == [] then Bad
    else if bs[0] == 0 then Got([], bs[1..])
    else
      match TakeName(bs[1..])
      case Bad => Bad
      case Got(name, rest) => Got([bs[0]] + name, rest)
  }

  lemma {:induction false} TakePutName(name: Name, rest: seq<Byte>)
    requires 0 !in name
    ensures TakeName(name + ([0] + rest)) == Got(name, rest)
  {
    var bs := name + ([0] + rest);
    if name == [] {
      assert bs[1..] == rest;
    } else {
      assert bs[1..] == name[1..] + ([0] + rest);
      TakePutName(name[1..], rest);
      assert [name[0]] + name[1..] == name;
    }
  }

  /** Map order: byte by byte, and a prefix first. */
  predicate LexLess(a: Name, b: Name) {
    if b == [] then false
    else if a == [] then true
    else a[0] < b[0] || (a[0] == b[0] && LexLess(a[1..], b[1..]))
  }

  lemma {:induction false} LexTotal(a: Name, b: Name)
    ensures a == b || LexLess(a, b) || LexLess(b, a)
  {
    if a != [] && b != [] && a[0] == b[0] {
      LexTotal(a[1..], b[1..]);
      assert a == [a[0]] + a[1..] && b == [b[0]] + b[1..];
    }
  }

  lemma {:induction false} LexTrans(a: Name, b: Name, c: Name)
    requires LexLess(a, b) && LexLess(b, c)
    ensures LexLess(a, c)
  {
    if a != [] && a[0] == b[0] && b[0] == c[0] {
      LexTrans(a[1..], b[1..], c[1..]);
    }
  }

  lemma {:induction false} LexIrreflexive(a: Name)
    ensures !LexLess(a, a)
  {
    if a != [] {
      LexIrreflexive(a[1..]);
    }
  }

  ghost predicate FirstOf(names: set<Name>, a: Name) {
    a in names && forall b :: b in names && b != a ==> LexLess(a, b)
  }

  lemma {:induction false} FirstExists(names: set<Name>)
    requires names != {}
    ensures exists a :: FirstOf(names, a)
    decreases |names|
  {
    var x :| x in names;
    if names == {x} {
      assert FirstOf(names, x);
    } else {
      var others := names - {x};
      assert names == others + {x};
      FirstExists(others);
      var a :| FirstOf(others, a);
      LexTotal(a, x);
      if LexLess(a, x) {
        assert FirstOf(names, a);
      } else {
        forall b | b in names && b != x ensures LexLess(x, b) {
          if b != a {
            LexTrans(x, a, b);
          }
        }
        assert FirstOf(names, x);
      }
    }
  }

  /** The first name in map order. */
  ghost function FirstName(names: set<Name>): (a: Name)
    requires names != {}
    ensures FirstOf(names, a)
  {
    FirstExists(names);
    var a :| FirstOf(names, a);
    a
  }

  lemma FirstUnique(names: set<Name>, a: Name, b: Name)
    requires FirstOf(names, a) && FirstOf(names, b)
    ensures a == b
  {
    if a != b {
      LexTrans(a, b, a);
      LexIrreflexive(a);
      assert false;
    }
  }
}
