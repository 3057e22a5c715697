/** Products and quotients, one fact at a time. */
module Arith {

  /** A product of naturals, as a name to reason with. */
  function Times(a: nat, b: nat): nat {
    a * b
  }

  lemma MulMono(a: int, b: int, v: nat)
    requires a <= b
    ensures a * v <= b * v
  {
  }

  lemma MulDistrib(a: int, b: int, v: int)
    ensures (a + b) * v == a * v + b * v
  {
  }

  lemma MulLess(a: nat, n: nat, v: nat, r: nat)
    requires a < n && r < v
    ensures a * v + r < n * v
  {
    MulMono(a + 1, n, v);
    MulDistrib(a, 1, v);
  }

  lemma DivIsUnique(x: nat, v: nat, q: nat, r: nat)
    requires r < v && x == q * v + r
    ensures x / v == q && x % v == r
  {
    var q', r' := x / v, x % v;
    assert x == q' * v + r';
    if q' < q {
      MulMono(q' + 1, q, v);
      MulDistrib(q', 1, v);
    } else if q < q' {
      MulMono(q + 1, q', v);
      MulDistrib(q, 1, v);
    }
  }

  lemma DivBelow(x: nat, n: nat, v: nat)
    requires v > 0 && x < n * v
    ensures x / v < n
  {
  }

  lemma MulPositive(a: nat, b: nat)
    requires a > 0 && b > 0
    ensures a * b > 0
  {
  }

  /** Between two multiples of `v`: the quotient. */
  lemma DivBetween(x: nat, v: nat, q: nat)
    requires v > 0
    ensures x / v == q <==> q * v <= x < q * v + v
  {
    if q * v <= x < q * v + v {
      DivIsUnique(x, v, q, x - q * v);
    }
  }

  lemma Recombine(q: nat, k: nat, v: nat, q': nat, r': nat)
    ensures q * (k * v) + (q' * v + r') == (q * k + q') * v + r'
  {
  }

  lemma ModStep(x: nat, w: nat, k: nat, v: nat, r: nat)
    requires 0 < v && 0 < w == k * v && r == x % w
    ensures r % v == x % v
  {
    var q, q', r' := x / w, r / v, r % v;
    Recombine(q, k, v, q', r');
    DivIsUnique(x, v, q * k + q', r');
  }

  /** A remainder modulo a multiple of `v` has the same remainder modulo `v`. */
  lemma ModOfMultiple(x: nat, k: nat, v: nat)
    requires v > 0 && k > 0
    ensures k * v > 0 && x % (k * v) % v == x % v
  {
    MulPositive(k, v);
    ModStep(x, k * v, k, v, x % (k * v));
  }
}
