/** Floating-point draws. The compositions sample `rng.gen_range(lo, hi)` on
    `f32` (the padding of a striped shield, the offset of a shape). Here the
    draw source is the `Genome` pool, and such a draw is one of 2^23 evenly
    spaced points of `[lo, hi)`, picked with a single `take`. */
module Draws {
  import opened Results
  import opened Genomes

  /** Points per unit interval: the 23 fraction bits of an `f32`. */
  const FLOAT_STEPS: nat := 8388608

  /** The `k`-th of the `FLOAT_STEPS` evenly spaced points of `[lo, hi)`. */
  function FloatAt(lo: real, hi: real, k: nat): (x: real)
    requires lo < hi && k < FLOAT_STEPS
    ensures lo <= x < hi
    ensures k == 0 ==> x == lo
  {
    var d := hi - lo;
    var frac := k as real / 8388608.0;
    ScaleBelow(d, frac);
    assert lo + d * frac < lo + d == hi;
    lo + d * frac
  }

  lemma ScaleBelow(d: real, frac: real)
    requires d > 0.0 && 0.0 <= frac < 1.0
    ensures 0.0 <= d * frac < d
  {
    assert d * (1.0 - frac) > 0.0;
  }

  /** A float draw in `[lo, hi)` taken from the pool. */
  function FloatFrom(p: Pool, lo: real, hi: real): (r: Result<(real, Pool)>)
    requires lo < hi
    ensures r.Ok? <==> FLOAT_STEPS <= p.currentMax
    ensures r.Ok? ==> lo <= r.value.0 < hi
    ensures r.Ok? ==> r.value.1.currentMax == p.currentMax / FLOAT_STEPS
  {
    match TakeFrom(p, FLOAT_STEPS)
    case Err => Err
    case Ok(t) => Ok((FloatAt(lo, hi, t.0), t.1))
  }

  method GenFloatRange(g: Genome, lo: real, hi: real) returns (r: Result<real>)
    requires g.Valid() && lo < hi
    modifies g
    ensures g.Valid() && g.initial == old(g.initial)
    ensures r.Err? ==> FloatFrom(old(g.State()), lo, hi) == Err && g.State() == old(g.State())
    ensures r.Ok? ==> FloatFrom(old(g.State()), lo, hi) == Ok((r.value, g.State()))
    ensures r.Err? ==> g.sizes == old(g.sizes) && g.digits == old(g.digits)
    ensures r.Ok? ==> g.sizes == old(g.sizes) + [FLOAT_STEPS]
    ensures r.Ok? ==> |g.digits| == |old(g.digits)| + 1 && g.digits[..|old(g.digits)|] == old(g.digits)
    ensures r.Ok? ==> g.digits[|old(g.digits)|] < FLOAT_STEPS
    ensures r.Ok? ==> r.value == FloatAt(lo, hi, g.digits[|old(g.digits)|])
  {
    var k :- g.Take(FLOAT_STEPS);
    r := Ok(FloatAt(lo, hi, k));
  }

  /** The digit behind a float draw: the point at the digit of `take(2^23)`. */
  lemma FloatFromTake(p: Pool, lo: real, hi: real)
    requires lo < hi && FloatFrom(p, lo, hi).Ok?
    ensures TakeFrom(p, FLOAT_STEPS).Ok? && TakeFrom(p, FLOAT_STEPS).value.0 < FLOAT_STEPS
    ensures FloatFrom(p, lo, hi).value
         == (FloatAt(lo, hi, TakeFrom(p, FLOAT_STEPS).value.0), TakeFrom(p, FLOAT_STEPS).value.1)
  {}

  /** A bound `m` that covers `size` times a budget `b` grants a draw of
      `size` and leaves a bound of at least `b`. Chained, this bounds how much
      entropy a whole composition needs. */
  lemma WithinBudget(m: nat, size: nat, b: nat)
    requires size > 0 && b > 0 && size * b <= m
    ensures size <= m && m / size >= b
  {
    BoundedQuotient(b, m, size);
    MulLeq(size, 1, b);
  }

  /** The same for a draw of at most `n` items from a bound covering `n * b`. */
  lemma WithinShare(m: nat, size: nat, n: nat, b: nat)
    requires 0 < size <= n && b > 0 && n * b <= m
    ensures size <= m && m / size >= b
  {
    MulLeq(b, size, n);
    WithinBudget(m, size, b);
  }
}
