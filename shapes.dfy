/** Shape icons (identicons/src/shapes.rs): an emoji over a circle or a
    regular polygon with a border colour, a fill colour and a rotation offset. */
module Shapes {
  import opened Results
  import opened Colors
  import opened Genomes
  import opened Draws
  import opened Palettes

  datatype ShapeType = Polygon(sides: nat) | Circle

  datatype ShapeIconData = ShapeIconData(
    emoji: char, shape: ShapeType, fillColor: Color, borderColor: Color, offset: real)

  /** The placeholder every composition starts from. Its offset lies outside
      the range of a composed shape, so no composition leaves it untouched. */
  function Empty(): (r: ShapeIconData)
    ensures r.shape.Circle? && r.emoji == ' ' && r.fillColor == White() && r.borderColor == Black()
    ensures !(0.5 <= r.offset < 1.0)
  {
    ShapeIconData(' ', Circle, White(), Black(), 0.0)
  }

  /** A polygon of two or fewer sides makes no sense, so it becomes a circle. */
  function ShapeOf(numSides: nat): (s: ShapeType)
    ensures s.Circle? <==> numSides <= 2
    ensures s.Polygon? ==> s.sides == numSides && s.sides >= 3
  {
    if numSides <= 2 then Circle else Polygon(numSides)
  }

  /** The clamp applied to the drawn offset, with its two branches in the order
      they are written. The first branch catches every value below 0.5, so the
      second (`< 0.0` to 0.0) never applies: the result is never below 0.5. */
  function ClampOffset(o: real): (r: real)
    ensures r >= 0.5
    ensures r == 0.5 <==> o <= 0.5
    ensures o >= 0.5 ==> r == o
  {
    if o < 0.5 then 0.5 else if o < 0.0 then 0.0 else o
  }

  /** What every composed shape satisfies: the emoji comes from the list, the
      border is a palette colour contrasting with white, the fill a palette
      colour contrasting with the border, a polygon has 3 to 9 sides and the
      offset lies in [0.5, 1). */
  ghost predicate WellFormed(s: ShapeIconData, palette: seq<Color>, emojis: seq<char>) {
    && s.emoji in emojis
    && s.borderColor in palette && ContrastsWell(White(), s.borderColor)
    && s.fillColor in palette && ContrastsWell(s.borderColor, s.fillColor)
    && (s.shape.Polygon? ==> 3 <= s.shape.sides <= 9)
    && 0.5 <= s.offset < 1.0
  }

  /** The shape composition drawn from the pool `p`, in the source's order:
      emoji, border colour, fill colour, number of sides in [1, 10), offset in
      [-1, 1). Every field of `Empty()` is overwritten. `Err` when the pool runs
      out of entropy. */
  function ShapeFrom(p: Pool, palette: seq<Color>, emojis: seq<char>): (r: Result<(ShapeIconData, Pool)>)
    requires |emojis| > 0 && Contrasting(palette, White()) != [] && EveryColorHasPartner(palette)
    ensures r.Ok? ==> WellFormed(r.value.0, palette, emojis)
  {
    var e :- ChooseFrom(p, emojis);
    var b :- ChooseFrom(e.1, Contrasting(palette, White()));
    MemberHasPartner(palette, b.0);
    var f :- ChooseFrom(b.1, Contrasting(palette, b.0));
    var n :- RangeFrom(f.1, 1, 10);
    var o :- FloatFrom(n.1, -1.0, 1.0);
    Ok((Empty().(emoji := e.0, borderColor := b.0, fillColor := f.0,
                 shape := ShapeOf(n.0), offset := ClampOffset(o.0)), o.1))
  }

  /** The entropy one shape needs: emoji, border, fill (each colour list at most
      the palette), sides and offset. */
  function ShapeBudget(paletteSize: nat, emojiCount: nat): nat {
    emojiCount * (paletteSize * (paletteSize * (9 * FLOAT_STEPS)))
  }

  /** A pool whose bound covers `ShapeBudget` always yields a shape. */
  lemma {:induction false} ShapeFromSucceeds(p: Pool, palette: seq<Color>, emojis: seq<char>)
    requires |emojis| > 0 && Contrasting(palette, White()) != [] && EveryColorHasPartner(palette)
    requires p.currentMax >= ShapeBudget(|palette|, |emojis|)
    ensures ShapeFrom(p, palette, emojis).Ok?
  {
    var n, e := |palette|, |emojis|;
    var b3 := 9 * FLOAT_STEPS;
    var b2 := n * b3;
    var b1 := n * b2;
    WithinShare(p.currentMax, e, e, b1);
    var em := ChooseFrom(p, emojis).value;
    var whites := Contrasting(palette, White());
    WithinShare(em.1.currentMax, |whites|, n, b2);
    var b := ChooseFrom(em.1, whites).value;
    MemberHasPartner(palette, b.0);
    var fills := Contrasting(palette, b.0);
    WithinShare(b.1.currentMax, |fills|, n, b3);
    var f := ChooseFrom(b.1, fills).value;
    WithinBudget(f.1.currentMax, 9, FLOAT_STEPS);
    var k := RangeFrom(f.1, 1, 10).value;
    assert FloatFrom(k.1, -1.0, 1.0).Ok?;
  }

  /** The draw sizes a shape consumes, in order: the emoji, the border among
      the colours contrasting with white, the fill among those contrasting
      with the border, the sides (`gen_range(1, 10)`) and the offset. */
  function ShapeSizes(palette: seq<Color>, emojis: seq<char>, s: ShapeIconData): seq<nat> {
    [|emojis|, |Contrasting(palette, White())|, |Contrasting(palette, s.borderColor)|, 9, FLOAT_STEPS]
  }

  /** The five takes a shape makes, one by one, with every field read off its
      digit. */
  lemma {:induction false} ShapeTakes(p: Pool, palette: seq<Color>, emojis: seq<char>)
    returns (ds: seq<nat>, pools: seq<Pool>)
    requires |emojis| > 0 && Contrasting(palette, White()) != [] && EveryColorHasPartner(palette)
    requires ShapeFrom(p, palette, emojis).Ok?
    ensures var (s, q) := ShapeFrom(p, palette, emojis).value;
      var sizes := ShapeSizes(palette, emojis, s);
      && |ds| == 5 && |pools| == 6 && pools[0] == p && pools[5] == q
      && Positive(sizes)
      && TakeFrom(pools[0], sizes[0]) == Ok((ds[0], pools[1]))
      && TakeFrom(pools[1], sizes[1]) == Ok((ds[1], pools[2]))
      && TakeFrom(pools[2], sizes[2]) == Ok((ds[2], pools[3]))
      && TakeFrom(pools[3], sizes[3]) == Ok((ds[3], pools[4]))
      && TakeFrom(pools[4], sizes[4]) == Ok((ds[4], pools[5]))
      && ds[0] < |emojis| && s.emoji == emojis[ds[0]]
      && ds[1] < |Contrasting(palette, White())| && s.borderColor == Contrasting(palette, White())[ds[1]]
      && ds[2] < |Contrasting(palette, s.borderColor)| && s.fillColor == Contrasting(palette, s.borderColor)[ds[2]]
      && s.shape == ShapeOf(1 + ds[3])
      && ds[4] < FLOAT_STEPS && s.offset == ClampOffset(FloatAt(-1.0, 1.0, ds[4]))
  {
    var whites := Contrasting(palette, White());
    ChooseFromTake(p, emojis);
    var t0 := TakeFrom(p, |emojis|).value;
    ChooseFromTake(t0.1, whites);
    var t1 := TakeFrom(t0.1, |whites|).value;
    var border := whites[t1.0];
    MemberHasPartner(palette, border);
    var fills := Contrasting(palette, border);
    ChooseFromTake(t1.1, fills);
    var t2 := TakeFrom(t1.1, |fills|).value;
    RangeFromTake(t2.1, 1, 10);
    var t3 := TakeFrom(t2.1, 9).value;
    FloatFromTake(t3.1, -1.0, 1.0);
    var t4 := TakeFrom(t3.1, FLOAT_STEPS).value;
    ds, pools := [t0.0, t1.0, t2.0, t3.0, t4.0], [p, t0.1, t1.1, t2.1, t3.1, t4.1];
    assert ChooseFrom(p, emojis) == Ok((emojis[t0.0], t0.1));
    assert ChooseFrom(t0.1, whites) == Ok((border, t1.1));
    assert ChooseFrom(t1.1, fills) == Ok((fills[t2.0], t2.1));
    assert RangeFrom(t2.1, 1, 10) == Ok((1 + t3.0, t3.1));
    assert FloatFrom(t3.1, -1.0, 1.0) == Ok((FloatAt(-1.0, 1.0, t4.0), t4.1));
    assert ShapeFrom(p, palette, emojis) == Ok((Empty().(emoji := emojis[t0.0], borderColor := border,
      fillColor := fills[t2.0], shape := ShapeOf(1 + t3.0), offset := ClampOffset(FloatAt(-1.0, 1.0, t4.0))), t4.1));
  }

  /** A composed shape is exactly a run of five takes from the pool: every
      field is read off its own digit, in the source's draw order, and the
      pool is left where the run ends. */
  lemma {:induction false} ShapeDraws(p: Pool, palette: seq<Color>, emojis: seq<char>)
    requires |emojis| > 0 && Contrasting(palette, White()) != [] && EveryColorHasPartner(palette)
    requires ShapeFrom(p, palette, emojis).Ok?
    ensures var (s, q) := ShapeFrom(p, palette, emojis).value;
      var sizes := ShapeSizes(palette, emojis, s);
      && Positive(sizes)
      && Replay(p, sizes).Ok? && Replay(p, sizes).value.1 == q
      && var ds := Replay(p, sizes).value.0;
         && |ds| == 5 && (forall i :: 0 <= i < 5 ==> ds[i] < sizes[i])
         && s.emoji == emojis[ds[0]]
         && s.borderColor == Contrasting(palette, White())[ds[1]]
         && s.fillColor == Contrasting(palette, s.borderColor)[ds[2]]
         && s.shape == ShapeOf(1 + ds[3])
         && s.offset == ClampOffset(FloatAt(-1.0, 1.0, ds[4]))
  {
    var ds, pools := ShapeTakes(p, palette, emojis);
    var s := ShapeFrom(p, palette, emojis).value.0;
    var sizes := ShapeSizes(palette, emojis, s);
    forall i | 0 <= i < |sizes| ensures TakeFrom(pools[i], sizes[i]) == Ok((ds[i], pools[i + 1])) {
    }
    ReplayTakes(p, sizes, ds, pools);
  }

  /** `Rand::rand`: assigns the fields of `rv` one draw at a time, then clamps
      the offset. */
  method ComposeShape(g: Genome, palette: seq<Color>, emojis: seq<char>) returns (r: Result<ShapeIconData>)
    requires g.Valid() && |emojis| > 0 && Contrasting(palette, White()) != [] && EveryColorHasPartner(palette)
    modifies g
    ensures g.Valid() && g.initial == old(g.initial)
    ensures r.Ok? ==> ShapeFrom(old(g.State()), palette, emojis) == Ok((r.value, g.State()))
    ensures r.Err? ==> ShapeFrom(old(g.State()), palette, emojis).Err?
    ensures r.Ok? ==> g.sizes == old(g.sizes) + ShapeSizes(palette, emojis, r.value)
    ensures r.Ok? ==>
      && Positive(ShapeSizes(palette, emojis, r.value))
      && |g.digits| == |old(g.digits)| + |ShapeSizes(palette, emojis, r.value)|
      && g.digits[..|old(g.digits)|] == old(g.digits)
      && Replay(old(g.State()), ShapeSizes(palette, emojis, r.value)) == Ok((g.digits[|old(g.digits)|..], g.State()))
  {
    ghost var p0, sizes0, digits0, initial0 := g.State(), g.sizes, g.digits, g.initial;
    assert Positive(sizes0) && Replay(initial0, sizes0) == Ok((digits0, p0));
    var rv := Empty();
    var emoji :- g.Choose(emojis);
    rv := rv.(emoji := emoji);
    ghost var z1 := g.sizes;
    var white := White();
    var contrastsWithWhite := Contrasting(palette, white);
    var borderColor :- g.Choose(contrastsWithWhite);
    rv := rv.(borderColor := borderColor);
    ghost var z2 := g.sizes;
    MemberHasPartner(palette, rv.borderColor);
    var contrastsWithBorder := Contrasting(palette, rv.borderColor);
    var fillColor :- g.Choose(contrastsWithBorder);
    rv := rv.(fillColor := fillColor);
    ghost var z3 := g.sizes;
    var numSides :- g.GenRange(1, 10);
    ghost var z4 := g.sizes;
    if numSides <= 2 {
      rv := rv.(shape := Circle);
    } else {
      rv := rv.(shape := Polygon(numSides));
    }
    var offset :- GenFloatRange(g, -1.0, 1.0);
    rv := rv.(offset := offset);
    if rv.offset < 0.5 {
      rv := rv.(offset := 0.5);
    } else if rv.offset < 0.0 {
      rv := rv.(offset := 0.0);
    }
    assert ShapeFrom(p0, palette, emojis) == Ok((rv, g.State()));
    ShapeLog(p0, palette, emojis, rv, g.State(), initial0, sizes0, digits0, z1, z2, z3, z4, g.sizes, g.digits);
    r := Ok(rv);
  }

  /** The log grown one draw at a time, in the composition's order, has grown
      by the shape's draw sizes. */
  lemma ShapeSizesLogged(start: seq<nat>, z1: seq<nat>, z2: seq<nat>, z3: seq<nat>, z4: seq<nat>, last: seq<nat>,
                         palette: seq<Color>, emojis: seq<char>, s: ShapeIconData)
    requires z1 == start + [|emojis|] && z2 == z1 + [|Contrasting(palette, White())|]
    requires z3 == z2 + [|Contrasting(palette, s.borderColor)|] && z4 == z3 + [9] && last == z4 + [FLOAT_STEPS]
    ensures last == start + ShapeSizes(palette, emojis, s)
  {
    assert last == start + [|emojis|, |Contrasting(palette, White())|, |Contrasting(palette, s.borderColor)|, 9,
                            FLOAT_STEPS];
  }

  /** The draw log of a composition: logs that replay to the pool the
      composition starts at, and afterwards to the pool it ends at, have grown
      by exactly the shape's run, sizes and digits. */
  lemma ShapeLog(p: Pool, palette: seq<Color>, emojis: seq<char>, s: ShapeIconData, q: Pool, initial: Pool,
                 sizes: seq<nat>, digits: seq<nat>, z1: seq<nat>, z2: seq<nat>, z3: seq<nat>, z4: seq<nat>,
                 last: seq<nat>, extended: seq<nat>)
    requires |emojis| > 0 && Contrasting(palette, White()) != [] && EveryColorHasPartner(palette)
    requires ShapeFrom(p, palette, emojis) == Ok((s, q))
    requires Positive(sizes) && Replay(initial, sizes) == Ok((digits, p))
    requires z1 == sizes + [|emojis|] && z2 == z1 + [|Contrasting(palette, White())|]
    requires z3 == z2 + [|Contrasting(palette, s.borderColor)|] && z4 == z3 + [9] && last == z4 + [FLOAT_STEPS]
    requires Positive(last) && Replay(initial, last) == Ok((extended, q))
    ensures last == sizes + ShapeSizes(palette, emojis, s)
    ensures Positive(ShapeSizes(palette, emojis, s))
    ensures |extended| == |digits| + |ShapeSizes(palette, emojis, s)| && extended[..|digits|] == digits
    ensures Replay(p, ShapeSizes(palette, emojis, s)) == Ok((extended[|digits|..], q))
  {
    ShapeSizesLogged(sizes, z1, z2, z3, z4, last, palette, emojis, s);
    ShapeDraws(p, palette, emojis);
    var run := ShapeSizes(palette, emojis, s);
    var ds := Replay(p, run).value.0;
    LogExtends(initial, sizes, digits, p, run, ds, q, extended);
    assert extended[..|digits|] == digits && extended[|digits|..] == ds;
  }

  /** With up to 2^32 emojis, a palette of at most 53 colours never exhausts a
      fresh 512-bit pool. */
  lemma FreshPoolSuffices(p: Pool, palette: seq<Color>, emojis: seq<char>)
    requires p.currentMax == MAX_512_BIT
    requires |palette| <= 53 && |emojis| <= 4294967296
    ensures p.currentMax >= ShapeBudget(|palette|, |emojis|)
  {
    var k := 9 * FLOAT_STEPS;
    var n, e := |palette|, |emojis|;
    MulLeq(k, n, 53);
    MulLeq(n, n * k, 53 * k);
    MulLeq(n * (n * k), n, 53);
    MulLeq(53 * (53 * k), e, 4294967296);
    MulLeq(e, n * (n * k), 53 * (53 * k));
    FreshBoundCovers128Bits();
  }

  /** The Photon palette meets the composition's preconditions, and a fresh
      pool always yields a shape. */
  lemma PhotonShapeFromFreshPool(p: Pool, emojis: seq<char>)
    requires p.currentMax == MAX_512_BIT && 0 < |emojis| <= 4294967296
    ensures Contrasting(PHOTON, White()) != [] && EveryColorHasPartner(PHOTON)
    ensures ShapeFrom(p, PHOTON, emojis).Ok?
  {
    PhotonContrastsWithWhite();
    PhotonHasPartners();
    FreshPoolSuffices(p, PHOTON, emojis);
    ShapeFromSucceeds(p, PHOTON, emojis);
  }
}
