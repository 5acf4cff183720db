/** Shield icons (identicons/src/shields.rs and its older copies in
    src/icons/mod.rs, src/icons/shields.rs and src/icons.rs): a field colour,
    an emoji and a treatment, composed from a sequence of draws. */
module Shields {
  import opened Results
  import opened Colors
  import opened Weighted
  import opened Genomes
  import opened Draws
  import opened Palettes

  /** A treatment for a shield. Angles are in degrees. */
  datatype ShieldIconTreatment =
    | SingleColor
    | TwoColor(patternColor: Color, angle: nat)
    | Stripes(patternColor: Color, stride: real, stripeXs: seq<real>, angle: nat)

  datatype ShieldIconData = ShieldIconData(treatment: ShieldIconTreatment, fieldColor: Color, emoji: char)

  /** `ShieldIconData::default()` of identicons/src/shields.rs. */
  function Default(): (r: ShieldIconData)
    ensures r.treatment.SingleColor? && r.fieldColor == Black() && r.emoji == 'A'
  {
    ShieldIconData(SingleColor, Black(), 'A')
  }

  /** `ShieldIconData::empty()` of the older copies: `Default()` with a blank
      emoji. */
  function Empty(): (r: ShieldIconData)
    ensures r == Default().(emoji := ' ')
  {
    ShieldIconData(SingleColor, Black(), ' ')
  }

  /** `(0..8).map(|a| a * 45)`: exactly the multiples of 45 below 360. */
  function AngleChoices(): (r: seq<nat>)
    ensures |r| == 8
    ensures forall a: nat :: a in r <==> a % 45 == 0 && a < 360
  {
    var r := seq(8, a => 45 * a);
    assert forall a: nat :: a % 45 == 0 && a < 360 ==> a in r by {
      forall a: nat | a % 45 == 0 && a < 360 ensures a in r {
        assert r[a / 45] == a;
      }
    }
    r
  }

  /** The treatments and their weights, in the order they are listed. */
  const TREATMENTS: seq<(string, nat)> := [("SingleColor", 1), ("TwoColor", 4), ("Stripes", 6)]

  /** The treatment a weighted draw of `d` among the 11 picks. */
  function TreatmentByDigit(d: nat): string {
    if d == 0 then "SingleColor" else if d <= 4 then "TwoColor" else "Stripes"
  }

  /** Of the 11 draws of the weighted choice, 0 picks `SingleColor`, 1 to 4 pick
      `TwoColor` and 5 to 10 pick `Stripes`. */
  lemma TreatmentTable(d: nat)
    requires d < 11
    ensures TotalWeight(TREATMENTS) == 11
    ensures TREATMENTS[Owner(TREATMENTS, d)].0 == TreatmentByDigit(d)
  {
    var t := TREATMENTS;
    assert t[..0] == [] && t[..1] == [t[0]] && t[..2] == [t[0], t[1]];
    assert CumBefore(t, 1) == 1 && CumBefore(t, 2) == 5;
    var j := if d == 0 then 0 else if d <= 4 then 1 else 2;
    OwnerUnique(t, d, j);
  }

  /** `(1 - 2 padding) / (2 count + 1)`: the width of a stripe and of each gap.
      The `2 count + 1` strides exactly fill the band between the paddings,
      and the stride is positive exactly when the paddings leave a band. */
  function Stride(padding: real, count: nat): (r: real)
    ensures r * (2.0 * count as real + 1.0) == 1.0 - 2.0 * padding
    ensures r > 0.0 <==> padding < 0.5
  {
    (1.0 - 2.0 * padding) / (2.0 * count as real + 1.0)
  }

  /** `(0..count).map(|i| padding + stride * (2 * i + 1))`: where each stripe
      starts. The first starts one stride past the padding and each next one
      two strides after the previous. */
  function StripeXs(padding: real, stride: real, count: nat): (r: seq<real>)
    ensures |r| == count
    ensures count > 0 ==> r[0] == padding + stride
    ensures forall i :: 0 <= i < count - 1 ==> r[i + 1] == r[i] + 2.0 * stride
  {
    var xs := seq(count, i => padding + stride * (2 * i + 1) as real);
    assert forall i :: 0 <= i < count - 1 ==> xs[i + 1] == xs[i] + 2.0 * stride by {
      forall i | 0 <= i < count - 1 ensures xs[i + 1] == xs[i] + 2.0 * stride {
        StripeStep(padding, stride, i);
      }
    }
    xs
  }

  lemma ScaleMonotone(s: real, a: real, b: real)
    requires s > 0.0 && a <= b
    ensures s * a <= s * b
    ensures a < b ==> s * a < s * b
  {
    assert s * b - s * a == s * (b - a);
  }

  /** The stripes tile the band between the two paddings: `count` stripes of
      width `stride` separated and flanked by gaps of width `stride`, from
      `padding + stride` to `1 - padding - stride`, in increasing order. */
  lemma StripeGeometry(padding: real, count: nat)
    requires 0.1 <= padding < 0.4 && count >= 1
    ensures Stride(padding, count) > 0.0
    ensures StripesTile(padding, Stride(padding, count), StripeXs(padding, Stride(padding, count), count), count)
  {
    BandGeometry(padding, Stride(padding, count), count);
  }

  /** `xs` holds `count` stripes of width `stride` that, with the gaps of the
      same width between and around them, fill `[padding, 1 - padding]`. */
  predicate StripesTile(padding: real, stride: real, xs: seq<real>, count: nat) {
    && |xs| == count >= 1
    && xs[0] == padding + stride
    && (forall i :: 0 <= i < count - 1 ==> xs[i + 1] == xs[i] + 2.0 * stride)
    && xs[count - 1] + 2.0 * stride == 1.0 - padding
    && (forall i :: 0 <= i < count ==> padding < xs[i] && xs[i] + stride < 1.0 - padding)
  }

  /** The geometry for any positive stride that divides the band into
      `2 count + 1` equal parts. */
  lemma BandGeometry(padding: real, stride: real, count: nat)
    requires count >= 1 && stride > 0.0
    requires stride * (2.0 * count as real + 1.0) == 1.0 - 2.0 * padding
    ensures StripesTile(padding, stride, StripeXs(padding, stride, count), count)
  {
    StripesInside(padding, stride, count);
    StripeEnd(padding, count, stride);
  }

  lemma StripesInside(padding: real, stride: real, count: nat)
    requires stride > 0.0
    requires stride * (2.0 * count as real + 1.0) == 1.0 - 2.0 * padding
    ensures forall i :: 0 <= i < count ==>
      padding < StripeXs(padding, stride, count)[i]
      && StripeXs(padding, stride, count)[i] + stride < 1.0 - padding
  {
    var xs := StripeXs(padding, stride, count);
    forall i | 0 <= i < count ensures padding < xs[i] && xs[i] + stride < 1.0 - padding {
      StripeInside(padding, count, stride, i);
    }
  }

  /** The last stripe ends one stride before the far padding. */
  lemma StripeEnd(padding: real, count: nat, stride: real)
    requires count >= 1
    requires stride * (2.0 * count as real + 1.0) == 1.0 - 2.0 * padding
    ensures padding + stride * (2 * (count - 1) + 1) as real + 2.0 * stride == 1.0 - padding
  {
    assert (2 * (count - 1) + 1) as real + 2.0 == 2.0 * count as real + 1.0;
    assert stride * (2 * (count - 1) + 1) as real + stride * 2.0
        == stride * ((2 * (count - 1) + 1) as real + 2.0);
  }

  /** Stripe `i + 1` starts two strides after stripe `i`. */
  lemma StripeStep(padding: real, stride: real, i: nat)
    ensures padding + stride * (2 * (i + 1) + 1) as real
         == padding + stride * (2 * i + 1) as real + 2.0 * stride
  {
    assert stride * (2 * (i + 1) + 1) as real == stride * (2 * i + 1) as real + stride * 2.0;
  }

  /** Stripe `i` of `count` lies strictly inside the band between the paddings. */
  lemma StripeInside(padding: real, count: nat, stride: real, i: nat)
    requires i < count && stride > 0.0
    requires stride * (2.0 * count as real + 1.0) == 1.0 - 2.0 * padding
    ensures padding < padding + stride * (2 * i + 1) as real
    ensures padding + stride * (2 * i + 1) as real + stride < 1.0 - padding
  {
    ScaleMonotone(stride, 0.0, (2 * i + 1) as real);
    ScaleMonotone(stride, (2 * i + 2) as real, 2.0 * count as real + 1.0);
    assert stride * (2 * i + 1) as real + stride == stride * (2 * i + 2) as real;
  }

  /** What every composed shield satisfies: its colours come from the palette,
      the pattern colour contrasts with the field, the emoji comes from the
      list, every angle is one of `AngleChoices()`, stripes number 1 to 3 and
      are laid out as `StripeXs` says for a padding in [0.1, 0.4). */
  ghost predicate WellFormed(s: ShieldIconData, palette: seq<Color>, emojis: seq<char>) {
    && s.fieldColor in palette
    && s.emoji in emojis
    && (!s.treatment.SingleColor? ==>
          && s.treatment.patternColor in palette
          && ContrastsWell(s.fieldColor, s.treatment.patternColor)
          && s.treatment.angle in AngleChoices())
    && (s.treatment.Stripes? ==>
          && 1 <= |s.treatment.stripeXs| < 4
          && exists padding: real ::
               && 0.1 <= padding < 0.4
               && s.treatment.stride == Stride(padding, |s.treatment.stripeXs|)
               && s.treatment.stripeXs == StripeXs(padding, s.treatment.stride, |s.treatment.stripeXs|))
  }

  /** `count` stripes after `padding`, laid out by `Stride` and `StripeXs`. */
  function StripesOf(pattern: Color, count: nat, padding: real, angle: nat): ShieldIconTreatment {
    Stripes(pattern, Stride(padding, count), StripeXs(padding, Stride(padding, count), count), angle)
  }

  /** The treatment-specific draws, after the treatment name. */
  function TreatmentFrom(p: Pool, name: string, pattern: Color, rv: ShieldIconData): (r: Result<(ShieldIconData, Pool)>)
    requires name in ["SingleColor", "TwoColor", "Stripes"] && rv.treatment.SingleColor?
    ensures r.Ok? ==> r.value.0.fieldColor == rv.fieldColor && r.value.0.emoji == rv.emoji
    ensures r.Ok? && name == "SingleColor" ==> r.value.0 == rv
    ensures r.Ok? && name == "TwoColor" ==> r.value.0.treatment.TwoColor?
    ensures r.Ok? && name == "Stripes" ==> r.value.0.treatment.Stripes?
    ensures r.Ok? && !r.value.0.treatment.SingleColor? ==>
      r.value.0.treatment.patternColor == pattern && r.value.0.treatment.angle in AngleChoices()
    ensures r.Ok? && r.value.0.treatment.Stripes? ==>
      var t := r.value.0.treatment;
      1 <= |t.stripeXs| < 4 &&
      exists padding: real ::
        0.1 <= padding < 0.4 && t.stride == Stride(padding, |t.stripeXs|) && t.stripeXs == StripeXs(padding, t.stride, |t.stripeXs|)
  {
    if name == "SingleColor" then Ok((rv, p))
    else if name == "TwoColor" then
      var a :- ChooseFrom(p, AngleChoices());
      Ok((rv.(treatment := TwoColor(pattern, a.0)), a.1))
    else
      var c :- RangeFrom(p, 1, 4);
      var pad :- FloatFrom(c.1, 0.1, 0.4);
      var a :- ChooseFrom(pad.1, AngleChoices());
      var count, padding := c.0, pad.0;
      Ok((rv.(treatment := StripesOf(pattern, count, padding, a.0)), a.1))
  }

  /** The shield composition drawn from the pool `p`, in the source's order:
      field colour, emoji, pattern colour (drawn for every treatment), the
      treatment by weight, then the treatment's own draws. `Err` when the pool
      runs out of entropy. The composition starts from a single-colour `blank`
      (`Default()` or `Empty()`). */
  function ShieldFrom(p: Pool, palette: seq<Color>, emojis: seq<char>, blank: ShieldIconData): (r: Result<(ShieldIconData, Pool)>)
    requires |palette| > 0 && |emojis| > 0 && EveryColorHasPartner(palette)
    requires blank.treatment.SingleColor?
    ensures r.Ok? ==> WellFormed(r.value.0, palette, emojis)
  {
    var f :- ChooseFrom(p, palette);
    var field := f.0;
    MemberHasPartner(palette, field);
    var contrasting := Contrasting(palette, field);
    var e :- ChooseFrom(f.1, emojis);
    var pc :- ChooseFrom(e.1, contrasting);
    var tn :- WeightedFrom(pc.1, TREATMENTS);
    var rv := blank.(fieldColor := field, emoji := e.0);
    TreatmentFrom(tn.1, tn.0, pc.0, rv)
  }

  /** The entropy one shield can need at most: field colour, emoji, pattern
      colour (at most the palette), the treatment weight, and the stripes'
      count, padding and angle (which need more than a two-colour angle). */
  function ShieldBudget(paletteSize: nat, emojiCount: nat): nat {
    paletteSize * (emojiCount * (paletteSize * (11 * (3 * (FLOAT_STEPS * 8)))))
  }

  /** A pool whose bound covers `ShieldBudget` always yields a shield. */
  lemma {:induction false} ShieldFromSucceeds(p: Pool, palette: seq<Color>, emojis: seq<char>, blank: ShieldIconData)
    requires |palette| > 0 && |emojis| > 0 && EveryColorHasPartner(palette)
    requires blank.treatment.SingleColor?
    requires p.currentMax >= ShieldBudget(|palette|, |emojis|)
    ensures ShieldFrom(p, palette, emojis, blank).Ok?
  {
    var n, e := |palette|, |emojis|;
    var b4 := 3 * (FLOAT_STEPS * 8);
    var b3 := 11 * b4;
    var b2 := n * b3;
    var b1 := e * b2;
    WithinBudget(p.currentMax, n, b1);
    var f := ChooseFrom(p, palette).value;
    MemberHasPartner(palette, f.0);
    var contrasting := Contrasting(palette, f.0);
    WithinBudget(f.1.currentMax, e, b2);
    var em := ChooseFrom(f.1, emojis).value;
    MulLeq(b3, |contrasting|, n);
    WithinBudget(em.1.currentMax, |contrasting|, b3);
    var pc := ChooseFrom(em.1, contrasting).value;
    WithinBudget(pc.1.currentMax, 11, b4);
    TreatmentTable(0);
    var tn := WeightedFrom(pc.1, TREATMENTS).value;
    var q := tn.1;
    WithinBudget(q.currentMax, 3, FLOAT_STEPS * 8);
    var c := RangeFrom(q, 1, 4).value;
    WithinBudget(c.1.currentMax, FLOAT_STEPS, 8);
    var pad := FloatFrom(c.1, 0.1, 0.4).value;
    MulLeq(8, 1, 3 * FLOAT_STEPS);
  }

  /** The name the weighted choice yields for a treatment. */
  function TreatmentName(t: ShieldIconTreatment): string {
    match t
    case SingleColor => "SingleColor"
    case TwoColor(_, _) => "TwoColor"
    case Stripes(_, _, _, _) => "Stripes"
  }

  /** The draw sizes a treatment consumes after its name: none for a single
      colour, an angle for two colours, and count (`gen_range(1, 4)`), padding
      and angle for stripes. */
  function TreatmentSizes(t: ShieldIconTreatment): seq<nat> {
    match t
    case SingleColor => []
    case TwoColor(_, _) => [|AngleChoices()|]
    case Stripes(_, _, _, _) => [3, FLOAT_STEPS, |AngleChoices()|]
  }

  /** The draw sizes a shield consumes, in order: field colour, emoji, pattern
      colour among those contrasting with the field, treatment by weight, then
      the treatment's own. */
  function ShieldSizes(palette: seq<Color>, emojis: seq<char>, s: ShieldIconData): (r: seq<nat>)
    ensures r == [|palette|, |emojis|, |Contrasting(palette, s.fieldColor)|, 11] + TreatmentSizes(s.treatment)
  {
    var contrasting := |Contrasting(palette, s.fieldColor)|;
    match s.treatment
    case SingleColor => [|palette|, |emojis|, contrasting, 11]
    case TwoColor(_, _) => [|palette|, |emojis|, contrasting, 11, |AngleChoices()|]
    case Stripes(_, _, _, _) => [|palette|, |emojis|, contrasting, 11, 3, FLOAT_STEPS, |AngleChoices()|]
  }

  /** A treatment's draws as a run of takes, with every field read off its
      digit. */
  lemma TreatmentDraws(p: Pool, name: string, pattern: Color, rv: ShieldIconData, s: ShieldIconData, q: Pool)
    requires name in ["SingleColor", "TwoColor", "Stripes"] && rv.treatment.SingleColor?
    requires TreatmentFrom(p, name, pattern, rv) == Ok((s, q))
    ensures TreatmentName(s.treatment) == name
    ensures s.fieldColor == rv.fieldColor && s.emoji == rv.emoji
    ensures Positive(TreatmentSizes(s.treatment))
    ensures Replay(p, TreatmentSizes(s.treatment)).Ok? && Replay(p, TreatmentSizes(s.treatment)).value.1 == q
    ensures var sizes := TreatmentSizes(s.treatment);
      var ds := Replay(p, sizes).value.0;
      && |ds| == |sizes| && (forall i :: 0 <= i < |sizes| ==> ds[i] < sizes[i])
      && (s.treatment.SingleColor? ==> s == rv)
      && (s.treatment.TwoColor? ==> s.treatment == TwoColor(pattern, AngleChoices()[ds[0]]))
      && (s.treatment.Stripes? ==>
            s.treatment == StripesOf(pattern, 1 + ds[0], FloatAt(0.1, 0.4, ds[1]), AngleChoices()[ds[2]]))
  {
    if name == "TwoColor" {
      ChooseFromTake(p, AngleChoices());
      var t0 := TakeFrom(p, 8).value;
      ReplayTakes(p, [8], [t0.0], [p, t0.1]);
    } else if name == "Stripes" {
      RangeFromTake(p, 1, 4);
      var t0 := TakeFrom(p, 3).value;
      FloatFromTake(t0.1, 0.1, 0.4);
      var t1 := TakeFrom(t0.1, FLOAT_STEPS).value;
      ChooseFromTake(t1.1, AngleChoices());
      var t2 := TakeFrom(t1.1, 8).value;
      ReplayTakes(p, [3, FLOAT_STEPS, 8], [t0.0, t1.0, t2.0], [p, t0.1, t1.1, t2.1]);
    }
  }

  /** The four draws every shield makes before its treatment's own, as a run
      of takes: field colour, emoji, pattern colour and treatment name. */
  lemma {:induction false} ShieldHead(p: Pool, palette: seq<Color>, emojis: seq<char>, blank: ShieldIconData,
                                      s: ShieldIconData, q: Pool)
    returns (ds: seq<nat>, mid: Pool, rv: ShieldIconData, pattern: Color, name: string)
    requires |palette| > 0 && |emojis| > 0 && EveryColorHasPartner(palette)
    requires blank.treatment.SingleColor?
    requires ShieldFrom(p, palette, emojis, blank) == Ok((s, q))
    ensures |ds| == 4 && ds[0] < |palette| && ds[1] < |emojis|
    ensures rv == blank.(fieldColor := palette[ds[0]], emoji := emojis[ds[1]])
    ensures ds[2] < |Contrasting(palette, rv.fieldColor)| && pattern == Contrasting(palette, rv.fieldColor)[ds[2]]
    ensures ds[3] < 11 && name == TreatmentByDigit(ds[3])
    ensures Positive([|palette|, |emojis|, |Contrasting(palette, rv.fieldColor)|, 11])
    ensures Replay(p, [|palette|, |emojis|, |Contrasting(palette, rv.fieldColor)|, 11]) == Ok((ds, mid))
    ensures TreatmentFrom(mid, name, pattern, rv) == Ok((s, q))
  {
    ChooseFromTake(p, palette);
    var t0 := TakeFrom(p, |palette|).value;
    var field := palette[t0.0];
    MemberHasPartner(palette, field);
    var contrasting := Contrasting(palette, field);
    ChooseFromTake(t0.1, emojis);
    var t1 := TakeFrom(t0.1, |emojis|).value;
    ChooseFromTake(t1.1, contrasting);
    var t2 := TakeFrom(t1.1, |contrasting|).value;
    TreatmentTable(0);
    WeightedFromTake(t2.1, TREATMENTS);
    var t3 := TakeFrom(t2.1, TotalWeight(TREATMENTS)).value;
    TreatmentTable(t3.0);
    ds, mid := [t0.0, t1.0, t2.0, t3.0], t3.1;
    rv := blank.(fieldColor := field, emoji := emojis[t1.0]);
    pattern, name := contrasting[t2.0], TREATMENTS[Owner(TREATMENTS, t3.0)].0;
    ReplayTakes(p, [|palette|, |emojis|, |contrasting|, 11], ds, [p, t0.1, t1.1, t2.1, t3.1]);
  }

  /** A composed shield is exactly a run of takes from the pool: every field
      is read off its own digit, in the source's draw order, the pattern
      colour is drawn even for a single colour, and the pool is left where
      the run ends. */
  lemma {:induction false} ShieldDraws(p: Pool, palette: seq<Color>, emojis: seq<char>, blank: ShieldIconData,
                                       s: ShieldIconData, q: Pool)
    requires |palette| > 0 && |emojis| > 0 && EveryColorHasPartner(palette)
    requires blank.treatment.SingleColor?
    requires ShieldFrom(p, palette, emojis, blank) == Ok((s, q))
    ensures Positive(ShieldSizes(palette, emojis, s))
    ensures Replay(p, ShieldSizes(palette, emojis, s)).Ok? && Replay(p, ShieldSizes(palette, emojis, s)).value.1 == q
    ensures var sizes := ShieldSizes(palette, emojis, s);
      var ds := Replay(p, sizes).value.0;
      && |ds| == |sizes| && (forall i :: 0 <= i < |sizes| ==> ds[i] < sizes[i])
      && s.fieldColor == palette[ds[0]] && s.emoji == emojis[ds[1]]
      && TreatmentName(s.treatment) == TreatmentByDigit(ds[3])
      && (s.treatment.TwoColor? ==>
            s.treatment == TwoColor(Contrasting(palette, s.fieldColor)[ds[2]], AngleChoices()[ds[4]]))
      && (s.treatment.Stripes? ==>
            s.treatment == StripesOf(Contrasting(palette, s.fieldColor)[ds[2]], 1 + ds[4], FloatAt(0.1, 0.4, ds[5]),
                                     AngleChoices()[ds[6]]))
  {
    var head, mid, rv, pattern, name := ShieldHead(p, palette, emojis, blank, s, q);
    ShieldTail(p, palette, emojis, s, q, head, mid, rv, pattern, name);
  }

  /** The treatment's takes after the head's, joined into one run. */
  lemma ShieldTail(p: Pool, palette: seq<Color>, emojis: seq<char>, s: ShieldIconData, q: Pool,
                   head: seq<nat>, mid: Pool, rv: ShieldIconData, pattern: Color, name: string)
    requires |palette| > 0 && |emojis| > 0
    requires |head| == 4 && head[0] < |palette| && head[1] < |emojis|
    requires rv.treatment.SingleColor? && rv.fieldColor == palette[head[0]] && rv.emoji == emojis[head[1]]
    requires head[2] < |Contrasting(palette, rv.fieldColor)| && pattern == Contrasting(palette, rv.fieldColor)[head[2]]
    requires head[3] < 11 && name == TreatmentByDigit(head[3])
    requires Positive([|palette|, |emojis|, |Contrasting(palette, rv.fieldColor)|, 11])
    requires Replay(p, [|palette|, |emojis|, |Contrasting(palette, rv.fieldColor)|, 11]) == Ok((head, mid))
    requires TreatmentFrom(mid, name, pattern, rv) == Ok((s, q))
    ensures Positive(ShieldSizes(palette, emojis, s))
    ensures Replay(p, ShieldSizes(palette, emojis, s)).Ok? && Replay(p, ShieldSizes(palette, emojis, s)).value.1 == q
    ensures var sizes := ShieldSizes(palette, emojis, s);
      var ds := Replay(p, sizes).value.0;
      && |ds| == |sizes| && (forall i :: 0 <= i < |sizes| ==> ds[i] < sizes[i])
      && s.fieldColor == palette[ds[0]] && s.emoji == emojis[ds[1]]
      && TreatmentName(s.treatment) == TreatmentByDigit(ds[3])
      && (s.treatment.TwoColor? ==>
            s.treatment == TwoColor(Contrasting(palette, s.fieldColor)[ds[2]], AngleChoices()[ds[4]]))
      && (s.treatment.Stripes? ==>
            s.treatment == StripesOf(Contrasting(palette, s.fieldColor)[ds[2]], 1 + ds[4], FloatAt(0.1, 0.4, ds[5]),
                                     AngleChoices()[ds[6]]))
  {
    TreatmentDraws(mid, name, pattern, rv, s, q);
    var tail := Replay(mid, TreatmentSizes(s.treatment)).value.0;
    var ds := ShieldAssemble(p, palette, emojis, s, q, head, mid, pattern, tail);
    ShieldRun(p, palette, emojis, s, q, ds);
  }

  /** A run given by its digits, restated through `Replay`'s own result. */
  lemma ShieldRun(p: Pool, palette: seq<Color>, emojis: seq<char>, s: ShieldIconData, q: Pool, ds: seq<nat>)
    requires |palette| > 0 && |emojis| > 0
    requires var sizes := ShieldSizes(palette, emojis, s);
      Positive(sizes) && Replay(p, sizes) == Ok((ds, q)) && |ds| == |sizes|
    requires forall i :: 0 <= i < |ds| ==> ds[i] < ShieldSizes(palette, emojis, s)[i]
    requires |ds| >= 4 && s.fieldColor == palette[ds[0]] && s.emoji == emojis[ds[1]]
    requires TreatmentName(s.treatment) == TreatmentByDigit(ds[3])
    requires s.treatment.TwoColor? ==>
      |ds| == 5 && s.treatment == TwoColor(Contrasting(palette, s.fieldColor)[ds[2]], AngleChoices()[ds[4]])
    requires s.treatment.Stripes? ==>
      && |ds| == 7 && ds[5] < FLOAT_STEPS
      && s.treatment == StripesOf(Contrasting(palette, s.fieldColor)[ds[2]], 1 + ds[4], FloatAt(0.1, 0.4, ds[5]),
                                  AngleChoices()[ds[6]])
    ensures Positive(ShieldSizes(palette, emojis, s))
    ensures Replay(p, ShieldSizes(palette, emojis, s)).Ok? && Replay(p, ShieldSizes(palette, emojis, s)).value.1 == q
    ensures var sizes := ShieldSizes(palette, emojis, s);
      var ds := Replay(p, sizes).value.0;
      && |ds| == |sizes| && (forall i :: 0 <= i < |sizes| ==> ds[i] < sizes[i])
      && s.fieldColor == palette[ds[0]] && s.emoji == emojis[ds[1]]
      && TreatmentName(s.treatment) == TreatmentByDigit(ds[3])
      && (s.treatment.TwoColor? ==>
            s.treatment == TwoColor(Contrasting(palette, s.fieldColor)[ds[2]], AngleChoices()[ds[4]]))
      && (s.treatment.Stripes? ==>
            s.treatment == StripesOf(Contrasting(palette, s.fieldColor)[ds[2]], 1 + ds[4], FloatAt(0.1, 0.4, ds[5]),
                                     AngleChoices()[ds[6]]))
  {
    var sizes := ShieldSizes(palette, emojis, s);
    assert Replay(p, sizes).value.0 == ds;
  }

  /** The head's takes followed by the treatment's give the whole run. */
  lemma ShieldAssemble(p: Pool, palette: seq<Color>, emojis: seq<char>, s: ShieldIconData, q: Pool,
                       head: seq<nat>, mid: Pool, pattern: Color, tail: seq<nat>)
    returns (ds: seq<nat>)
    requires |palette| > 0 && |emojis| > 0
    requires |head| == 4 && head[0] < |palette| && head[1] < |emojis|
    requires s.fieldColor == palette[head[0]] && s.emoji == emojis[head[1]]
    requires head[2] < |Contrasting(palette, s.fieldColor)| && pattern == Contrasting(palette, s.fieldColor)[head[2]]
    requires head[3] < 11 && TreatmentName(s.treatment) == TreatmentByDigit(head[3])
    requires Positive([|palette|, |emojis|, |Contrasting(palette, s.fieldColor)|, 11])
    requires Replay(p, [|palette|, |emojis|, |Contrasting(palette, s.fieldColor)|, 11]) == Ok((head, mid))
    requires Positive(TreatmentSizes(s.treatment)) && Replay(mid, TreatmentSizes(s.treatment)) == Ok((tail, q))
    requires |tail| == |TreatmentSizes(s.treatment)|
    requires forall i :: 0 <= i < |tail| ==> tail[i] < TreatmentSizes(s.treatment)[i]
    requires s.treatment.TwoColor? ==> s.treatment == TwoColor(pattern, AngleChoices()[tail[0]])
    requires s.treatment.Stripes? ==>
      s.treatment == StripesOf(pattern, 1 + tail[0], FloatAt(0.1, 0.4, tail[1]), AngleChoices()[tail[2]])
    ensures var sizes := ShieldSizes(palette, emojis, s);
      Positive(sizes) && Replay(p, sizes) == Ok((ds, q)) && |ds| == |sizes|
    ensures forall i :: 0 <= i < |ds| ==> ds[i] < ShieldSizes(palette, emojis, s)[i]
    ensures |ds| >= 4 && s.fieldColor == palette[ds[0]] && s.emoji == emojis[ds[1]]
    ensures TreatmentName(s.treatment) == TreatmentByDigit(ds[3])
    ensures s.treatment.TwoColor? ==>
      |ds| == 5 && s.treatment == TwoColor(Contrasting(palette, s.fieldColor)[ds[2]], AngleChoices()[ds[4]])
    ensures s.treatment.Stripes? ==>
      && |ds| == 7 && ds[5] < FLOAT_STEPS
      && s.treatment == StripesOf(Contrasting(palette, s.fieldColor)[ds[2]], 1 + ds[4], FloatAt(0.1, 0.4, ds[5]),
                                  AngleChoices()[ds[6]])
  {
    var headSizes := [|palette|, |emojis|, |Contrasting(palette, s.fieldColor)|, 11];
    ReplayAppend(p, headSizes, TreatmentSizes(s.treatment), head, mid, tail, q);
    assert ShieldSizes(palette, emojis, s) == headSizes + TreatmentSizes(s.treatment);
    ReplayDigits(p, ShieldSizes(palette, emojis, s));
    ds := head + tail;
    assert ds[0] == head[0] && ds[1] == head[1] && ds[2] == head[2] && ds[3] == head[3];
    assert Replay(p, ShieldSizes(palette, emojis, s)) == Ok((ds, q));
    if s.treatment.TwoColor? {
      assert ds[4] == tail[0];
    } else if s.treatment.Stripes? {
      assert ds[4] == tail[0] && ds[5] == tail[1] && ds[6] == tail[2];
    }
    assert |ds| == |ShieldSizes(palette, emojis, s)|;
    assert s.fieldColor == palette[ds[0]] && s.emoji == emojis[ds[1]];
    assert TreatmentName(s.treatment) == TreatmentByDigit(ds[3]);
    assert s.treatment.TwoColor? ==>
      s.treatment == TwoColor(Contrasting(palette, s.fieldColor)[ds[2]], AngleChoices()[ds[4]]);
    assert s.treatment.Stripes? ==>
      s.treatment == StripesOf(Contrasting(palette, s.fieldColor)[ds[2]], 1 + ds[4], FloatAt(0.1, 0.4, ds[5]),
                               AngleChoices()[ds[6]]);
  }

  /** The shield composition, assigning the fields of `rv` as it draws them. */
  method ComposeShield(g: Genome, palette: seq<Color>, emojis: seq<char>, blank: ShieldIconData)
    returns (r: Result<ShieldIconData>)
    requires g.Valid() && |palette| > 0 && |emojis| > 0 && EveryColorHasPartner(palette)
    requires blank.treatment.SingleColor?
    modifies g
    ensures g.Valid() && g.initial == old(g.initial)
    ensures r.Ok? ==> ShieldFrom(old(g.State()), palette, emojis, blank) == Ok((r.value, g.State()))
    ensures r.Err? ==> ShieldFrom(old(g.State()), palette, emojis, blank).Err?
    ensures r.Ok? ==> g.sizes == old(g.sizes) + ShieldSizes(palette, emojis, r.value)
    ensures r.Ok? ==>
      && Positive(ShieldSizes(palette, emojis, r.value))
      && |g.digits| == |old(g.digits)| + |ShieldSizes(palette, emojis, r.value)|
      && g.digits[..|old(g.digits)|] == old(g.digits)
      && Replay(old(g.State()), ShieldSizes(palette, emojis, r.value)) == Ok((g.digits[|old(g.digits)|..], g.State()))
  {
    ghost var p0, sizes0, digits0, initial0 := g.State(), g.sizes, g.digits, g.initial;
    assert Positive(sizes0) && Replay(initial0, sizes0) == Ok((digits0, p0));
    var rv := blank;
    var angleChoices := AngleChoices();
    var fieldColor :- g.Choose(palette);
    rv := rv.(fieldColor := fieldColor);
    ghost var z1 := g.sizes;
    MemberHasPartner(palette, fieldColor);
    var contrastingColors := Contrasting(palette, fieldColor);
    var emoji :- g.Choose(emojis);
    rv := rv.(emoji := emoji);
    ghost var z2 := g.sizes;
    var patternColor :- g.Choose(contrastingColors);
    ghost var z3 := g.sizes;
    var treatmentName :- g.ChooseWeighted(TREATMENTS);
    ghost var z4, z5, z6 := g.sizes, [], [];
    if treatmentName == "SingleColor" {
    } else if treatmentName == "TwoColor" {
      var angle :- g.Choose(angleChoices);
      rv := rv.(treatment := TwoColor(patternColor, angle));
    } else if treatmentName == "Stripes" {
      var count :- g.GenRange(1, 4);
      z5 := g.sizes;
      var padding :- GenFloatRange(g, 0.1, 0.4);
      z6 := g.sizes;
      var stride := Stride(padding, count);
      var stripeXs := StripeXs(padding, stride, count);
      var angle :- g.Choose(angleChoices);
      rv := rv.(treatment := Stripes(patternColor, stride, stripeXs, angle));
    } else {
      assert false;
    }
    assert ShieldFrom(p0, palette, emojis, blank) == Ok((rv, g.State()));
    ShieldLog(p0, palette, emojis, blank, rv, g.State(), initial0, sizes0, digits0, z1, z2, z3, z4, z5, z6,
              g.sizes, g.digits);
    r := Ok(rv);
  }

  /** The log grown one draw at a time, in the composition's order, has grown
      by the shield's draw sizes. */
  lemma SizesLogged(start: seq<nat>, z1: seq<nat>, z2: seq<nat>, z3: seq<nat>, z4: seq<nat>, z5: seq<nat>,
                    z6: seq<nat>, last: seq<nat>, palette: seq<Color>, emojis: seq<char>, s: ShieldIconData)
    requires z1 == start + [|palette|] && z2 == z1 + [|emojis|]
    requires z3 == z2 + [|Contrasting(palette, s.fieldColor)|] && z4 == z3 + [TotalWeight(TREATMENTS)]
    requires s.treatment.SingleColor? ==> last == z4
    requires s.treatment.TwoColor? ==> last == z4 + [|AngleChoices()|]
    requires s.treatment.Stripes? ==> z5 == z4 + [3] && z6 == z5 + [FLOAT_STEPS] && last == z6 + [|AngleChoices()|]
    ensures last == start + ShieldSizes(palette, emojis, s)
  {
    TreatmentTable(0);
    var head := [|palette|, |emojis|, |Contrasting(palette, s.fieldColor)|, 11];
    assert z4 == start + head;
  }

  /** The draw log of a composition: logs that replay to the pool the
      composition starts at, and afterwards to the pool it ends at, have grown
      by exactly the shield's run, sizes and digits. */
  lemma ShieldLog(p: Pool, palette: seq<Color>, emojis: seq<char>, blank: ShieldIconData, s: ShieldIconData, q: Pool,
                  initial: Pool, sizes: seq<nat>, digits: seq<nat>, z1: seq<nat>, z2: seq<nat>, z3: seq<nat>,
                  z4: seq<nat>, z5: seq<nat>, z6: seq<nat>, last: seq<nat>, extended: seq<nat>)
    requires |palette| > 0 && |emojis| > 0 && EveryColorHasPartner(palette)
    requires blank.treatment.SingleColor?
    requires ShieldFrom(p, palette, emojis, blank) == Ok((s, q))
    requires Positive(sizes) && Replay(initial, sizes) == Ok((digits, p))
    requires z1 == sizes + [|palette|] && z2 == z1 + [|emojis|]
    requires z3 == z2 + [|Contrasting(palette, s.fieldColor)|] && z4 == z3 + [TotalWeight(TREATMENTS)]
    requires s.treatment.SingleColor? ==> last == z4
    requires s.treatment.TwoColor? ==> last == z4 + [|AngleChoices()|]
    requires s.treatment.Stripes? ==> z5 == z4 + [3] && z6 == z5 + [FLOAT_STEPS] && last == z6 + [|AngleChoices()|]
    requires Positive(last) && Replay(initial, last) == Ok((extended, q))
    ensures last == sizes + ShieldSizes(palette, emojis, s)
    ensures Positive(ShieldSizes(palette, emojis, s))
    ensures |extended| == |digits| + |ShieldSizes(palette, emojis, s)| && extended[..|digits|] == digits
    ensures Replay(p, ShieldSizes(palette, emojis, s)) == Ok((extended[|digits|..], q))
  {
    SizesLogged(sizes, z1, z2, z3, z4, z5, z6, last, palette, emojis, s);
    ShieldDraws(p, palette, emojis, blank, s, q);
    var run := ShieldSizes(palette, emojis, s);
    var ds := Replay(p, run).value.0;
    LogExtends(initial, sizes, digits, p, run, ds, q, extended);
    assert extended[..|digits|] == digits && extended[|digits|..] == ds;
  }

  /** With up to 2^32 emojis, a palette of at most 53 colours never exhausts a
      fresh 512-bit pool. */
  lemma FreshPoolSuffices(p: Pool, palette: seq<Color>, emojis: seq<char>)
    requires p.currentMax == MAX_512_BIT
    requires |palette| <= 53 && |emojis| <= 4294967296
    ensures p.currentMax >= ShieldBudget(|palette|, |emojis|)
  {
    var k := 11 * (3 * (FLOAT_STEPS * 8));
    var n, e := |palette|, |emojis|;
    MulLeq(k, n, 53);
    MulLeq(e, n * k, 53 * k);
    MulLeq(53 * k, e, 4294967296);
    MulLeq(n, e * (n * k), 4294967296 * (53 * k));
    MulLeq(4294967296 * (53 * k), n, 53);
    FreshBoundCovers128Bits();
  }

  lemma FreshShield(p: Pool, palette: seq<Color>, emojis: seq<char>, blank: ShieldIconData)
    requires 0 < |palette| <= 53 && 0 < |emojis| <= 4294967296 && EveryColorHasPartner(palette)
    requires blank.treatment.SingleColor? && p.currentMax == MAX_512_BIT
    ensures ShieldFrom(p, palette, emojis, blank).Ok?
  {
    FreshPoolSuffices(p, palette, emojis);
    ShieldFromSucceeds(p, palette, emojis, blank);
  }

  /** The palettes of the source meet the composition's preconditions, and a
      fresh pool always yields a shield: with Photon from `Default()`
      (identicons/src/shields.rs) or from `Empty()` (src/icons/mod.rs,
      src/icons/shields.rs). */
  lemma PhotonShieldFromFreshPool(p: Pool, emojis: seq<char>)
    requires p.currentMax == MAX_512_BIT && 0 < |emojis| <= 4294967296
    ensures EveryColorHasPartner(PHOTON)
    ensures ShieldFrom(p, PHOTON, emojis, Default()).Ok?
    ensures ShieldFrom(p, PHOTON, emojis, Empty()).Ok?
  {
    PhotonHasPartners();
    FreshShield(p, PHOTON, emojis, Default());
    FreshShield(p, PHOTON, emojis, Empty());
  }

  /** The same for the Solarized palette of src/icons.rs, from `Empty()`. */
  lemma SolarizedShieldFromFreshPool(p: Pool, emojis: seq<char>)
    requires p.currentMax == MAX_512_BIT && 0 < |emojis| <= 4294967296
    ensures EveryColorHasPartner(SOLARIZED)
    ensures ShieldFrom(p, SOLARIZED, emojis, Empty()).Ok?
  {
    SolarizedHasPartners();
    FreshShield(p, SOLARIZED, emojis, Empty());
  }
}
