/** The entropy pool of identicons/src/genome.rs.

    A `Genome` holds a big number `remaining` and a bound `currentMax` on it.
    Every draw `take(size)` peels one mixed-radix digit off `remaining`
    (the remainder modulo `size`) and divides both numbers by `size`. The pure
    `Pool` / `TakeFrom` / `Replay` functions state what a draw and a run of
    draws do; the `Genome` class is the mutable object of the source, whose
    methods are proved against them. */
module Genomes {
  import opened Results
  import opened Weighted

  type byte = x: int | 0 <= x < 256

  function Pow(base: nat, exp: nat): nat {
    if exp == 0 then 1 else base * Pow(base, exp - 1)
  }

  /** 2^512, the starting bound: a SHA-512 digest read as a number is below it. */
  const MAX_512_BIT: nat := Pow(2, 512)

  lemma {:induction false} PowAdd(base: nat, m: nat, n: nat)
    ensures Pow(base, m + n) == Pow(base, m) * Pow(base, n)
    decreases n
  {
    if n > 0 {
      PowAdd(base, m, n - 1);
      MulAssociates(base, Pow(base, m), Pow(base, n - 1));
    }
  }

  /** n bytes hold 8n bits. */
  lemma {:induction false} BytePow(n: nat)
    ensures Pow(256, n) == Pow(2, 8 * n)
  {
    if n > 0 {
      BytePow(n - 1);
      PowAdd(2, 8, 8 * (n - 1));
      assert Pow(2, 8) == 256;
    }
  }

  lemma {:induction false} PowPositive(base: nat, n: nat)
    requires base > 0
    ensures Pow(base, n) > 0
  {
    if n > 0 {
      PowPositive(base, n - 1);
    }
  }

  /** A fresh pool has room for any run of draws whose sizes multiply to at
      most 2^128 (far more than one icon needs). */
  lemma FreshBoundCovers128Bits()
    ensures MAX_512_BIT >= 340282366920938463463374607431768211456
  {
    Pow2At128();
    PowAdd(2, 128, 384);
    PowPositive(2, 384);
  }

  lemma Pow2At128()
    ensures Pow(2, 128) == 340282366920938463463374607431768211456
  {
    assert Pow(2, 1) == 2;
    PowAdd(2, 1, 1);
    PowAdd(2, 2, 2);
    PowAdd(2, 4, 4);
    PowAdd(2, 8, 8);
    PowAdd(2, 16, 16);
    PowAdd(2, 32, 32);
    PowAdd(2, 64, 64);
  }

  /** `BigUint::from_bytes_be`: the bytes as a base-256 number, most
      significant byte first. */
  function FromBytesBE(bytes: seq<byte>): (n: nat)
    ensures |bytes| > 0 ==> n % 256 == bytes[|bytes| - 1]
    ensures n == 0 <==> forall i :: 0 <= i < |bytes| ==> bytes[i] == 0
  {
    if bytes == [] then 0
    else FromBytesBE(bytes[..|bytes| - 1]) * 256 + bytes[|bytes| - 1]
  }

  /** n bytes, read big-endian, are below 256^n. */
  lemma {:induction false} FromBytesBEBound(bytes: seq<byte>)
    ensures FromBytesBE(bytes) < Pow(256, |bytes|)
  {
    if bytes != [] {
      var init := bytes[..|bytes| - 1];
      FromBytesBEBound(init);
      assert FromBytesBE(init) + 1 <= Pow(256, |init|);
      calc {
        FromBytesBE(bytes);
      <  FromBytesBE(init) * 256 + 256;
      == (FromBytesBE(init) + 1) * 256;
      <= Pow(256, |init|) * 256;
      }
    }
  }

  // ---------------------------------------------------------------------
  // Pool state as a value, and the arithmetic of one draw and of many.
  // ---------------------------------------------------------------------

  datatype Pool = Pool(remaining: nat, currentMax: nat)

  /** `take(size)` on the pool `p` (requires `size > 0`: a zero size divides
      by zero in the source). It fails exactly when `size > currentMax`;
      otherwise it returns one digit below `size`, keeps the quotient, and
      divides the bound, which never grows and keeps bounding `remaining`. */
  function TakeFrom(p: Pool, size: nat): (r: Result<(nat, Pool)>)
    requires size > 0
    ensures r.Ok? <==> size <= p.currentMax
    ensures r.Ok? ==> r.value.0 < size
    ensures r.Ok? ==> p.remaining == r.value.0 + size * r.value.1.remaining
    ensures r.Ok? ==> r.value.1.currentMax == p.currentMax / size <= p.currentMax
    ensures r.Ok? && p.remaining <= p.currentMax ==> r.value.1.remaining <= r.value.1.currentMax
  {
    if size > p.currentMax then Err
    else
      DivSelf(p.remaining, size);
      DivLeq(p.currentMax, size);
      var q := Pool(p.remaining / size, p.currentMax / size);
      assert p.remaining <= p.currentMax ==> q.remaining <= q.currentMax by {
        if p.remaining <= p.currentMax {
          DivMonotone(p.remaining, p.currentMax, size);
        }
      }
      Ok((p.remaining % size, q))
  }

  /** An exhausted pool (bound 0) refuses every draw; a refusal changes nothing. */
  lemma ExhaustedStaysExhausted(p: Pool, size: nat)
    requires p.currentMax == 0 && size >= 1
    ensures TakeFrom(p, size) == Err
  {}

  predicate Positive(sizes: seq<nat>) {
    forall i :: 0 <= i < |sizes| ==> sizes[i] > 0
  }

  /** The product of the draw sizes: the radix of the whole digit string. */
  function Radix(sizes: seq<nat>): (r: nat)
    ensures Positive(sizes) ==> r > 0
  {
    if sizes == [] then 1 else Radix(sizes[..|sizes| - 1]) * sizes[|sizes| - 1]
  }

  /** The number whose mixed-radix digits (least significant first) are
      `digits`, in the radices `sizes`. */
  function MixedValue(digits: seq<nat>, sizes: seq<nat>): nat
    requires |digits| == |sizes|
  {
    if sizes == [] then 0
    else
      MixedValue(digits[..|digits| - 1], sizes[..|sizes| - 1])
      + Radix(sizes[..|sizes| - 1]) * digits[|digits| - 1]
  }

  /** The draws `take(sizes[0])`, `take(sizes[1])`, ... run one after the other
      from `p`: their digits and the final pool, or `Err` at the first refusal. */
  function Replay(p: Pool, sizes: seq<nat>): Result<(seq<nat>, Pool)>
    requires Positive(sizes)
  {
    if sizes == [] then Ok(([], p))
    else match Replay(p, sizes[..|sizes| - 1])
      case Err => Err
      case Ok(prev) =>
        match TakeFrom(prev.1, sizes[|sizes| - 1])
        case Err => Err
        case Ok(t) => Ok((prev.0 + [t.0], t.1))
  }

  /** A run of draws is a mixed-radix decomposition of the starting number:
      the digits fit their radices, the start equals the digits' value plus the
      radix times what is left, and the bound is the start bound over the radix. */
  lemma {:induction false} ReplayDecomposes(p: Pool, sizes: seq<nat>)
    requires Positive(sizes) && Replay(p, sizes).Ok?
    ensures |Replay(p, sizes).value.0| == |sizes|
    ensures forall i :: 0 <= i < |sizes| ==> Replay(p, sizes).value.0[i] < sizes[i]
    ensures p.remaining == MixedValue(Replay(p, sizes).value.0, sizes)
                           + Radix(sizes) * Replay(p, sizes).value.1.remaining
    ensures Replay(p, sizes).value.1.currentMax == p.currentMax / Radix(sizes)
  {
    ReplayDigits(p, sizes);
    ReplayValue(p, sizes);
    ReplayBound(p, sizes);
  }

  /** One step of `Replay`: the run minus its last draw succeeded, and the
      last draw is taken from the pool it left. */
  lemma ReplayLast(p: Pool, sizes: seq<nat>)
    requires Positive(sizes) && sizes != [] && Replay(p, sizes).Ok?
    ensures Positive(sizes[..|sizes| - 1]) && Replay(p, sizes[..|sizes| - 1]).Ok?
    ensures var prev := Replay(p, sizes[..|sizes| - 1]).value;
      var t := TakeFrom(prev.1, sizes[|sizes| - 1]);
      && t.Ok?
      && Replay(p, sizes).value == (prev.0 + [t.value.0], t.value.1)
  {}

  /** The digits of a run fit their radices. */
  lemma {:induction false} ReplayDigits(p: Pool, sizes: seq<nat>)
    requires Positive(sizes) && Replay(p, sizes).Ok?
    ensures |Replay(p, sizes).value.0| == |sizes|
    ensures forall i :: 0 <= i < |sizes| ==> Replay(p, sizes).value.0[i] < sizes[i]
  {
    if sizes != [] {
      var n := |sizes| - 1;
      ReplayLast(p, sizes);
      ReplayDigits(p, sizes[..n]);
      var ds := Replay(p, sizes[..n]).value.0;
      var digits := Replay(p, sizes).value.0;
      assert digits == ds + [digits[n]];
      assert forall i :: 0 <= i < n ==> digits[i] == ds[i] && sizes[i] == sizes[..n][i];
    }
  }

  /** The start equals the digits' value plus the radix times what is left. */
  lemma {:induction false} ReplayValue(p: Pool, sizes: seq<nat>)
    requires Positive(sizes) && Replay(p, sizes).Ok?
    ensures |Replay(p, sizes).value.0| == |sizes|
    ensures p.remaining == MixedValue(Replay(p, sizes).value.0, sizes)
                           + Radix(sizes) * Replay(p, sizes).value.1.remaining
  {
    ReplayDigits(p, sizes);
    if sizes != [] {
      var n := |sizes| - 1;
      ReplayLast(p, sizes);
      ReplayValue(p, sizes[..n]);
      var ds, mid := Replay(p, sizes[..n]).value.0, Replay(p, sizes[..n]).value.1;
      var d, q := TakeFrom(mid, sizes[n]).value.0, TakeFrom(mid, sizes[n]).value.1;
      var digits := Replay(p, sizes).value.0;
      assert digits == ds + [d] && digits[..n] == ds;
      var r := Radix(sizes[..n]);
      assert Radix(sizes) == r * sizes[n];
      assert MixedValue(digits, sizes) == MixedValue(ds, sizes[..n]) + r * d;
      DigitAppended(p.remaining, MixedValue(ds, sizes[..n]), r, mid.remaining, d, sizes[n], q.remaining);
    }
  }

  /** The bound left by a run is the start bound over the radix. */
  lemma {:induction false} ReplayBound(p: Pool, sizes: seq<nat>)
    requires Positive(sizes) && Replay(p, sizes).Ok?
    ensures Replay(p, sizes).value.1.currentMax == p.currentMax / Radix(sizes)
  {
    if sizes != [] {
      var n := |sizes| - 1;
      ReplayLast(p, sizes);
      ReplayBound(p, sizes[..n]);
      DivDiv(p.currentMax, Radix(sizes[..n]), sizes[n]);
    } else {
      DivSelf(p.currentMax, 1);
    }
  }

  /** The arithmetic of one more digit: `a = v + r m` and `m = d + s q` give
      `a = (v + r d) + (r s) q`. */
  lemma DigitAppended(a: nat, v: nat, r: nat, m: nat, d: nat, s: nat, q: nat)
    requires a == v + r * m && m == d + s * q
    ensures a == (v + r * d) + (r * s) * q
  {
    MulDistributes(r, d, s * q);
    MulAssociates(r, s, q);
  }

  /** A non-empty run of draws succeeds exactly when the product of its sizes
      does not exceed the starting bound: from a fresh 512-bit pool, any draw
      sequence whose sizes multiply to at most 2^512 never meets exhaustion. */
  lemma {:induction false} ReplaySucceedsIffWithinBound(p: Pool, sizes: seq<nat>)
    requires Positive(sizes)
    ensures Replay(p, sizes).Ok? <==> sizes == [] || Radix(sizes) <= p.currentMax
  {
    if sizes != [] {
      var init, s := sizes[..|sizes| - 1], sizes[|sizes| - 1];
      ReplaySucceedsIffWithinBound(p, init);
      var r := Radix(init);
      if Replay(p, init).Ok? {
        ReplayDecomposes(p, init);
        var mid := Replay(p, init).value.1;
        assert mid.currentMax == p.currentMax / r;
        BoundedQuotient(s, p.currentMax, r);
      } else {
        assert s >= 1;
        assert r <= r * s;
      }
    }
  }

  // ---------------------------------------------------------------------
  // Arithmetic helpers.
  // ---------------------------------------------------------------------

  lemma MulDistributes(a: nat, b: nat, c: nat)
    ensures a * (b + c) == a * b + a * c
  {}

  lemma MulAssociates(a: nat, b: nat, c: nat)
    ensures a * (b * c) == (a * b) * c
  {}

  lemma MulLeq(a: nat, b: nat, c: nat)
    requires b <= c
    ensures a * b <= a * c
  {}
  lemma MulCancelLt(d: nat, x: nat, y: nat)
    requires d > 0 && d * x < d * y
    ensures x < y
  {
    if x >= y { MulLeq(d, y, x); }
  }
  lemma DivSelf(a: nat, d: nat)
    requires d > 0
    ensures a == d * (a / d) + a % d && a % d < d
  {}
  lemma DivLeq(a: nat, d: nat)
    requires d > 0
    ensures a / d <= a
  {
    DivSelf(a, d);
    MulLeq(a / d, 1, d);
  }
  lemma QuotBelow(q: nat, b: nat, d: nat)
    requires d > 0 && d * q <= b
    ensures q <= b / d
  {
    DivSelf(b, d);
    assert d * (b / d + 1) == d * (b / d) + d;
    MulCancelLt(d, q, b / d + 1);
  }
  lemma DivMonotone(a: nat, b: nat, d: nat)
    requires a <= b && d > 0
    ensures a / d <= b / d
  {
    DivSelf(a, d);
    QuotBelow(a / d, b, d);
  }
  lemma DivUnique(a: nat, d: nat, q: nat, r: nat)
    requires d > 0 && r < d && a == d * q + r
    ensures a / d == q && a % d == r
  {
    QuotBelow(q, a, d);
    DivSelf(a, d);
    assert d * (q + 1) == d * q + d;
    MulCancelLt(d, a / d, q + 1);
  }
  /** Dividing by `b` and then by `c` is dividing by `b * c`; the remainder
      modulo `b * c` is made of the two remainders. */
  lemma DivDiv(a: nat, b: nat, c: nat)
    requires b > 0 && c > 0
    ensures a / b / c == a / (b * c)
    ensures a % (b * c) == a % b + b * (a / b % c)
  {
    var q1, r1 := a / b, a % b;
    var q2, r2 := q1 / c, q1 % c;
    DivSelf(a, b);
    DivSelf(q1, c);
    assert b * q1 == b * (c * q2) + b * r2;
    assert b * (c * q2) == (b * c) * q2;
    MulLeq(b, r2, c - 1);
    assert b * (c - 1) == b * c - b;
    DivUnique(a, b * c, q2, b * r2 + r1);
  }

  /** `s <= m / r` exactly when `r * s <= m`. */
  lemma BoundedQuotient(s: nat, m: nat, r: nat)
    requires r > 0
    ensures s <= m / r <==> r * s <= m
  {
    var q := m / r;
    assert m == r * q + m % r;
    if s <= q {
      assert r * s <= r * q;
    } else {
      assert r * s >= r * (q + 1) == r * q + r;
    }
  }

  // ---------------------------------------------------------------------
  // The draws built on `take`, as functions of the pool.
  // ---------------------------------------------------------------------

  /** Integer widths for which the source implements `gen` and `gen_range`. */
  datatype Width = U8 | U16 | U64 | Usize

  /** `T::max_value()`; `usize` is taken to be 64 bits wide. */
  function MaxValue(w: Width): nat {
    match w
    case U8 => 255
    case U16 => 65535
    case U64 => 18446744073709551615
    case Usize => 18446744073709551615
  }

  /** `gen::<T>()`: `take(T::max_value())`, so the value is below the maximum
      (which itself is never produced). */
  function GenFrom(p: Pool, w: Width): (r: Result<(nat, Pool)>)
    ensures r.Ok? <==> MaxValue(w) <= p.currentMax
    ensures r.Ok? ==> r.value.0 < MaxValue(w)
  {
    TakeFrom(p, MaxValue(w))
  }

  /** `gen_range(low, high)`: `take(high - low) + low`, a value in `[low, high)`.
      With `low == high` the source asks for `take(0)`, a division by zero. */
  function RangeFrom(p: Pool, low: nat, high: nat): (r: Result<(nat, Pool)>)
    requires low < high
    ensures r.Ok? <==> high - low <= p.currentMax
    ensures r.Ok? ==> low <= r.value.0 < high
    ensures r.Ok? ==> r.value.1.currentMax == p.currentMax / (high - low)
  {
    match TakeFrom(p, high - low)
    case Err => Err
    case Ok(t) => Ok((t.0 + low, t.1))
  }

  /** `choose(choices)`: the element at an index drawn below the length. */
  function ChooseFrom<T>(p: Pool, choices: seq<T>): (r: Result<(T, Pool)>)
    requires |choices| > 0
    ensures r.Ok? <==> |choices| <= p.currentMax
    ensures r.Ok? ==> r.value.0 in choices
    ensures r.Ok? ==> r.value.1.currentMax == p.currentMax / |choices|
  {
    match RangeFrom(p, 0, |choices|)
    case Err => Err
    case Ok(t) => Ok((choices[t.0], t.1))
  }

  /** `choose_weighted(choices)`: a draw below the total weight and the item
      that owns it, which is never one of weight zero. */
  function WeightedFrom<T>(p: Pool, choices: seq<(T, nat)>): (r: Result<(T, Pool)>)
    requires TotalWeight(choices) > 0
    ensures r.Ok? <==> TotalWeight(choices) <= p.currentMax
    ensures r.Ok? ==> exists k :: 0 <= k < |choices| && choices[k].1 > 0 && r.value.0 == choices[k].0
    ensures r.Ok? ==> exists d: nat :: d < TotalWeight(choices) && r.value.0 == choices[Owner(choices, d)].0
    ensures r.Ok? ==> r.value.1.currentMax == p.currentMax / TotalWeight(choices)
  {
    match RangeFrom(p, 0, TotalWeight(choices))
    case Err => Err
    case Ok(t) => Ok((choices[Owner(choices, t.0)].0, t.1))
  }

  /** The digit behind a range draw: the value is `low` plus the digit that
      `take(high - low)` peels off, and the pool moves as that take says. */
  lemma RangeFromTake(p: Pool, low: nat, high: nat)
    requires low < high && RangeFrom(p, low, high).Ok?
    ensures TakeFrom(p, high - low).Ok?
    ensures RangeFrom(p, low, high).value
         == (low + TakeFrom(p, high - low).value.0, TakeFrom(p, high - low).value.1)
  {}

  /** The digit behind `choose`: the element at the digit of `take(len)`. */
  lemma ChooseFromTake<T>(p: Pool, choices: seq<T>)
    requires |choices| > 0 && ChooseFrom(p, choices).Ok?
    ensures TakeFrom(p, |choices|).Ok? && TakeFrom(p, |choices|).value.0 < |choices|
    ensures ChooseFrom(p, choices).value
         == (choices[TakeFrom(p, |choices|).value.0], TakeFrom(p, |choices|).value.1)
  {
    RangeFromTake(p, 0, |choices|);
  }

  /** The digit behind `choose_weighted`: the owner of the digit of
      `take(total weight)`. */
  lemma WeightedFromTake<T>(p: Pool, choices: seq<(T, nat)>)
    requires TotalWeight(choices) > 0 && WeightedFrom(p, choices).Ok?
    ensures TakeFrom(p, TotalWeight(choices)).Ok?
    ensures TakeFrom(p, TotalWeight(choices)).value.0 < TotalWeight(choices)
    ensures WeightedFrom(p, choices).value
         == (choices[Owner(choices, TakeFrom(p, TotalWeight(choices)).value.0)].0,
             TakeFrom(p, TotalWeight(choices)).value.1)
  {
    RangeFromTake(p, 0, TotalWeight(choices));
  }

  /** A chain of takes, each from the pool the previous one left, is a replay
      of their sizes. */
  lemma {:induction false} ReplayTakes(p: Pool, sizes: seq<nat>, ds: seq<nat>, pools: seq<Pool>)
    requires Positive(sizes) && |ds| == |sizes| && |pools| == |sizes| + 1 && pools[0] == p
    requires forall i :: 0 <= i < |sizes| ==> TakeFrom(pools[i], sizes[i]) == Ok((ds[i], pools[i + 1]))
    ensures Replay(p, sizes) == Ok((ds, pools[|sizes|]))
    decreases |sizes|
  {
    if sizes != [] {
      var n := |sizes| - 1;
      ReplayTakes(p, sizes[..n], ds[..n], pools[..n + 1]);
      assert ds == ds[..n] + [ds[n]];
    }
  }

  /** Replaying two runs back to back is replaying their concatenation. */
  lemma {:induction false} ReplayAppend(p: Pool, a: seq<nat>, b: seq<nat>, da: seq<nat>, mid: Pool, db: seq<nat>, q: Pool)
    requires Positive(a) && Positive(b)
    requires Replay(p, a) == Ok((da, mid)) && Replay(mid, b) == Ok((db, q))
    ensures Positive(a + b)
    ensures Replay(p, a + b) == Ok((da + db, q))
    decreases |b|
  {
    if b == [] {
      assert a + b == a && da + db == da;
    } else {
      var n := |b| - 1;
      ReplayLast(mid, b);
      var r := Replay(mid, b[..n]).value;
      var t := TakeFrom(r.1, b[n]).value;
      assert db == r.0 + [t.0] && q == t.1;
      ReplayAppend(p, a, b[..n], da, mid, r.0, r.1);
      var ab := a + b;
      assert ab[..|ab| - 1] == a + b[..n] && ab[|ab| - 1] == b[n];
      assert Replay(p, ab) == Ok(((da + r.0) + [t.0], t.1));
      assert da + db == (da + r.0) + [t.0];
    }
  }

  /** Two replays from one start, the second over the first's sizes followed
      by a run `more`: the second's digits are the first's followed by the
      run's. */
  lemma LogExtends(p: Pool, sizes: seq<nat>, digits: seq<nat>, mid: Pool, more: seq<nat>, moreDigits: seq<nat>,
                   q: Pool, extended: seq<nat>)
    requires Positive(sizes) && Positive(more)
    requires Replay(p, sizes) == Ok((digits, mid)) && Replay(mid, more) == Ok((moreDigits, q))
    requires Replay(p, sizes + more) == Ok((extended, q))
    ensures extended == digits + moreDigits
  {
    ReplayAppend(p, sizes, more, digits, mid, moreDigits, q);
  }

  // ---------------------------------------------------------------------
  // The mutable pool.
  // ---------------------------------------------------------------------

  class Genome {
    /** Used for making choices. */
    var remaining: nat
    /** Biggest that `remaining` could be, given past choices; 0 once exhausted. */
    var currentMax: nat

    /** The pool as it was built from the digest. */
    ghost var initial: Pool
    /** The sizes of the successful draws so far, in order, and their results. */
    ghost var sizes: seq<nat>
    ghost var digits: seq<nat>

    function State(): Pool
      reads this
    {
      Pool(remaining, currentMax)
    }

    /** The object invariant: the pool started below 2^512 with bound 2^512,
        and its present state is what replaying the logged draws gives. */
    ghost predicate Valid()
      reads this
    {
      && initial.remaining < initial.currentMax == MAX_512_BIT
      && Positive(sizes)
      && Replay(initial, sizes) == Ok((digits, State()))
      && remaining <= currentMax
    }

    /** `Genome::via_sha512`: the 64 bytes of the input's SHA-512 digest (the
        hash itself is computed outside this model) read as a big-endian
        number, with bound 2^512. */
    constructor ViaSha512(digest: seq<byte>)
      requires |digest| == 64
      ensures Valid()
      ensures remaining == FromBytesBE(digest) && currentMax == MAX_512_BIT
      ensures initial == State() && sizes == [] && digits == []
    {
      FromBytesBEBound(digest);
      BytePow(64);
      remaining := FromBytesBE(digest);
      currentMax := MAX_512_BIT;
      initial := Pool(FromBytesBE(digest), MAX_512_BIT);
      sizes := [];
      digits := [];
    }

    /** `take(size)`: a refusal leaves the pool as it was; a success moves it
        as `TakeFrom` says and logs the draw. */
    method Take(size: nat) returns (r: Result<nat>)
      requires Valid() && size > 0
      modifies this
      ensures Valid() && initial == old(initial)
      ensures r.Err? ==> TakeFrom(old(State()), size) == Err && State() == old(State())
      ensures r.Err? ==> sizes == old(sizes) && digits == old(digits)
      ensures r.Ok? ==> TakeFrom(old(State()), size) == Ok((r.value, State()))
      ensures r.Ok? ==> sizes == old(sizes) + [size] && digits == old(digits) + [r.value]
    {
      if size > currentMax {
        return Err;
      }
      ghost var before := State();
      var res := remaining % size;
      remaining := remaining / size;
      currentMax := currentMax / size;
      assert TakeFrom(before, size) == Ok((res, State()));
      assert (sizes + [size])[..|sizes|] == sizes;
      sizes := sizes + [size];
      digits := digits + [res];
      r := Ok(res);
    }

    method Gen(w: Width) returns (r: Result<nat>)
      requires Valid()
      modifies this
      ensures Valid() && initial == old(initial)
      ensures r.Err? ==> GenFrom(old(State()), w) == Err && State() == old(State())
      ensures r.Ok? ==> GenFrom(old(State()), w) == Ok((r.value, State()))
      ensures r.Err? ==> sizes == old(sizes) && digits == old(digits)
      ensures r.Ok? ==> sizes == old(sizes) + [MaxValue(w)] && digits == old(digits) + [r.value]
    {
      r := Take(MaxValue(w));
    }

    method GenRange(low: nat, high: nat) returns (r: Result<nat>)
      requires Valid() && low < high
      modifies this
      ensures Valid() && initial == old(initial)
      ensures r.Err? ==> RangeFrom(old(State()), low, high) == Err && State() == old(State())
      ensures r.Ok? ==> RangeFrom(old(State()), low, high) == Ok((r.value, State()))
      ensures r.Err? ==> sizes == old(sizes) && digits == old(digits)
      ensures r.Ok? ==> sizes == old(sizes) + [high - low] && digits == old(digits) + [r.value - low]
    {
      ghost var before := State();
      var t := Take(high - low);
      if t.Err? {
        return Err;
      }
      assert TakeFrom(before, high - low) == Ok((t.value, State()));
      r := Ok(t.value + low);
    }

    method Choose<T>(choices: seq<T>) returns (r: Result<T>)
      requires Valid() && |choices| > 0
      modifies this
      ensures Valid() && initial == old(initial)
      ensures r.Err? ==> ChooseFrom(old(State()), choices) == Err && State() == old(State())
      ensures r.Ok? ==> ChooseFrom(old(State()), choices) == Ok((r.value, State()))
      ensures r.Err? ==> sizes == old(sizes) && digits == old(digits)
      ensures r.Ok? ==> sizes == old(sizes) + [|choices|]
      ensures r.Ok? ==> |digits| == |old(digits)| + 1 && digits[..|old(digits)|] == old(digits)
      ensures r.Ok? ==> digits[|old(digits)|] < |choices| && r.value == choices[digits[|old(digits)|]]
    {
      var i :- GenRange(0, |choices|);
      r := Ok(choices[i]);
    }

    method ChooseWeighted<T>(choices: seq<(T, nat)>) returns (r: Result<T>)
      requires Valid() && TotalWeight(choices) > 0
      modifies this
      ensures Valid() && initial == old(initial)
      ensures r.Err? ==> WeightedFrom(old(State()), choices) == Err && State() == old(State())
      ensures r.Ok? ==> WeightedFrom(old(State()), choices) == Ok((r.value, State()))
      ensures r.Err? ==> sizes == old(sizes) && digits == old(digits)
      ensures r.Ok? ==> sizes == old(sizes) + [TotalWeight(choices)]
      ensures r.Ok? ==> |digits| == |old(digits)| + 1 && digits[..|old(digits)|] == old(digits)
      ensures r.Ok? ==> digits[|old(digits)|] < TotalWeight(choices)
      ensures r.Ok? ==> r.value == choices[Owner(choices, digits[|old(digits)|])].0
    {
      var choice :- GenRange(0, TotalWeight(choices));
      var item := WeightedChoice(choices, choice);
      r := Ok(item);
    }
  }

  /** What the invariant says about the original number: the logged draws are
      its mixed-radix digits, `remaining` is what is left above them, and the
      bound is 2^512 over the product of the sizes drawn. */
  lemma GenomeDecomposes(g: Genome)
    requires g.Valid()
    ensures |g.digits| == |g.sizes|
    ensures forall i :: 0 <= i < |g.sizes| ==> g.digits[i] < g.sizes[i]
    ensures g.initial.remaining == MixedValue(g.digits, g.sizes) + Radix(g.sizes) * g.remaining
    ensures g.currentMax == MAX_512_BIT / Radix(g.sizes)
    ensures g.remaining <= g.currentMax
  {
    ReplayDecomposes(g.initial, g.sizes);
  }
}
