/** RGB colours, their CSS rendering and the luminance-contrast rule
    (identicons/src/lib.rs; src/icons/mod.rs and src/icons.rs hold the same
    methods, without `white`). Luminance is computed over `real`, not `f32`. */
module Colors {
  import opened Results
  import opened Text

  type u8 = x: int | 0 <= x < 256

  datatype Color = Color(r: u8, g: u8, b: u8)

  /** The smallest luminance difference that does NOT count as contrasting. */
  const CONTRAST_THRESHOLD: real := 75.0

  function Black(): (c: Color)
    ensures Luminance(c) == 0.0
    ensures forall d: Color {:trigger Luminance(d)} :: Luminance(c) <= Luminance(d)
  {
    Color(0, 0, 0)
  }

  function White(): (c: Color)
    ensures Luminance(c) == 255.0
    ensures forall d: Color {:trigger Luminance(d)} :: Luminance(d) <= Luminance(c)
  {
    Color(255, 255, 255)
  }

  /** `format!("rgb({},{},{})", r, g, b)`. */
  function CssColor(c: Color): (s: string)
    ensures |s| >= 10 && s[..4] == "rgb(" && s[|s| - 1] == ')'
    ensures forall i :: 4 <= i < |s| - 1 ==> IsDigit(s[i]) || s[i] == ','
  {
    "rgb(" + Decimal(c.r) + "," + Decimal(c.g) + "," + Decimal(c.b) + ")"
  }

  /** Relative luminance with the coefficients 0.2126, 0.7152 and 0.0722. */
  function Luminance(c: Color): (l: real)
    ensures 0.0 <= l <= 255.0
  {
    0.2126 * c.r as real + 0.7152 * c.g as real + 0.0722 * c.b as real
  }

  function Abs(x: real): real {
    if x < 0.0 then -x else x
  }

  /** Two colours contrast well when their luminances differ by more than 75;
      so no colour contrasts with itself. */
  predicate ContrastsWell(a: Color, b: Color): (r: bool)
    ensures r ==> a != b
  {
    Abs(Luminance(a) - Luminance(b)) > CONTRAST_THRESHOLD
  }

  /** The colours of `palette` that contrast well with `c`, in palette order:
      `palette.iter().filter(|x| c.contrasts_well(x))`. */
  function Contrasting(palette: seq<Color>, c: Color): (r: seq<Color>)
    ensures |r| <= |palette|
    ensures forall x {:trigger x in r} :: x in r <==> x in palette && ContrastsWell(c, x)
  {
    if palette == [] then []
    else if ContrastsWell(c, palette[0]) then [palette[0]] + Contrasting(palette[1..], c)
    else Contrasting(palette[1..], c)
  }

  /** Filtering keeps the palette's order and multiplicity: the filter of a
      concatenation is the concatenation of the filters. */
  lemma {:induction false} ContrastingAppend(a: seq<Color>, b: seq<Color>, c: Color)
    ensures Contrasting(a + b, c) == Contrasting(a, c) + Contrasting(b, c)
  {
    if a != [] {
      assert (a + b)[0] == a[0] && (a + b)[1..] == a[1..] + b;
      ContrastingAppend(a[1..], b, c);
    } else {
      assert a + b == b;
    }
  }

  /** Every colour of the palette has at least one contrasting partner in it,
      so that choosing from `Contrasting(palette, c)` never meets an empty list. */
  predicate EveryColorHasPartner(palette: seq<Color>) {
    forall i :: 0 <= i < |palette| ==> Contrasting(palette, palette[i]) != []
  }

  lemma ContrastSymmetric(a: Color, b: Color)
    ensures ContrastsWell(a, b) == ContrastsWell(b, a)
  {}

  /** The threshold is strict: `Color(10, 92, 98)` has luminance exactly 75, and
      it does not contrast with black, while one step brighter in green does. */
  lemma ThresholdIsStrict()
    ensures Luminance(Color(10, 92, 98)) - Luminance(Black()) == CONTRAST_THRESHOLD
    ensures !ContrastsWell(Black(), Color(10, 92, 98))
    ensures ContrastsWell(Black(), Color(10, 93, 98))
  {}

  /** A colour is in `Contrasting(palette, c)` exactly when the palette has it
      and it contrasts with `c`; in particular a partner at index `j` makes the
      list non-empty. */
  lemma PartnerMakesNonEmpty(palette: seq<Color>, c: Color, j: nat)
    requires j < |palette| && ContrastsWell(c, palette[j])
    ensures Contrasting(palette, c) != []
  {
    assert palette[j] in Contrasting(palette, c);
  }

  /** A palette colour always has a partner in a palette where every colour has one. */
  lemma MemberHasPartner(palette: seq<Color>, c: Color)
    requires c in palette && EveryColorHasPartner(palette)
    ensures Contrasting(palette, c) != []
  {
    var i :| 0 <= i < |palette| && palette[i] == c;
  }

  /** The CSS rendering of the documented example. */
  lemma CssColorExample()
    ensures CssColor(Color(12, 34, 56)) == "rgb(12,34,56)"
  {
    assert Decimal(12) == "12" && Decimal(34) == "34" && Decimal(56) == "56";
  }

  /** A reader for the `rgb(r,g,b)` form, as a CSS consumer would parse it. */
  function ParseCss(s: string): Option<Color> {
    if |s| < 5 || s[..4] != "rgb(" || s[|s| - 1] != ')' then None
    else match SplitFirst(s[4..|s| - 1], ',')
      case None => None
      case Some(p) =>
        match SplitFirst(p.1, ',')
        case None => None
        case Some(q) =>
          if AllDigits(p.0) && AllDigits(q.0) && AllDigits(q.1)
             && DecimalValue(p.0) < 256 && DecimalValue(q.0) < 256 && DecimalValue(q.1) < 256
          then Some(Color(DecimalValue(p.0), DecimalValue(q.0), DecimalValue(q.1)))
          else None
  }

  /** Reading back the CSS rendering gives the colour again, so two colours
      render to the same CSS text only if they are equal. */
  lemma {:induction false} CssRoundTrip(c: Color)
    ensures ParseCss(CssColor(c)) == Some(c)
  {
    var rs, gs, bs := Decimal(c.r), Decimal(c.g), Decimal(c.b);
    var s := CssColor(c);
    assert s == "rgb(" + (rs + [','] + (gs + [','] + bs)) + ")";
    assert s[..4] == "rgb(";
    assert s[4..|s| - 1] == rs + [','] + (gs + [','] + bs);
    assert ',' !in rs by { assert forall i :: 0 <= i < |rs| ==> IsDigit(rs[i]); }
    assert ',' !in gs by { assert forall i :: 0 <= i < |gs| ==> IsDigit(gs[i]); }
    SplitFirstGlued(rs, gs + [','] + bs, ',');
    SplitFirstGlued(gs, bs, ',');
    DecimalRoundTrip(c.r);
    DecimalRoundTrip(c.g);
    DecimalRoundTrip(c.b);
  }

  lemma CssInjective(a: Color, b: Color)
    requires CssColor(a) == CssColor(b)
    ensures a == b
  {
    CssRoundTrip(a);
    CssRoundTrip(b);
  }
}
