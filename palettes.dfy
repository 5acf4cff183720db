/** The two palettes the compositions draw from, transcribed, and the facts
    about them that keep every `choose(...).unwrap()` of a filtered colour list
    from meeting an empty list. */
module Palettes {
  import opened Colors

  /** `data::COLORS` (identicons/src/data.rs, and the same table in
      src/icons/data.rs): the 53 Photon colours in the order of their sorted
      names. */
  const PHOTON: seq<Color> := [
      Color(69, 161, 255), // blue40
      Color(10, 132, 255), // blue50
      Color(0, 96, 223), // blue60
      Color(0, 62, 170), // blue70
      Color(0, 34, 117), // blue80
      Color(0, 15, 64), // blue90
      Color(48, 230, 11), // green50
      Color(18, 188, 0), // green60
      Color(5, 139, 0), // green70
      Color(0, 101, 4), // green80
      Color(0, 55, 6), // green90
      Color(249, 249, 250), // grey10
      Color(237, 237, 240), // grey20
      Color(215, 215, 219), // grey30
      Color(177, 177, 179), // grey40
      Color(115, 115, 115), // grey50
      Color(74, 74, 79), // grey60
      Color(56, 56, 61), // grey70
      Color(42, 42, 46), // grey80
      Color(12, 12, 13), // grey90
      Color(54, 57, 89), // ink70
      Color(32, 35, 64), // ink80
      Color(15, 17, 38), // ink90
      Color(255, 26, 217), // magenta50
      Color(237, 0, 181), // magenta60
      Color(181, 0, 127), // magenta70
      Color(125, 0, 79), // magenta80
      Color(68, 0, 39), // magenta90
      Color(255, 148, 0), // orange50
      Color(215, 110, 0), // orange60
      Color(164, 73, 0), // orange70
      Color(113, 43, 0), // orange80
      Color(62, 19, 0), // orange90
      Color(148, 0, 255), // purple50
      Color(128, 0, 215), // purple60
      Color(98, 0, 164), // purple70
      Color(68, 0, 113), // purple80
      Color(37, 0, 62), // purple90
      Color(255, 0, 57), // red50
      Color(215, 0, 34), // red60
      Color(164, 0, 15), // red70
      Color(90, 0, 2), // red80
      Color(62, 2, 0), // red90
      Color(0, 254, 255), // teal50
      Color(0, 200, 215), // teal60
      Color(0, 142, 164), // teal70
      Color(0, 90, 113), // teal80
      Color(0, 45, 62), // teal90
      Color(255, 233, 0), // yellow50
      Color(215, 182, 0), // yellow60
      Color(164, 127, 0), // yellow70
      Color(113, 81, 0), // yellow80
      Color(62, 40, 0) // yellow90
    ]

  /** The inline Solarized `COLORS` of src/icons.rs, in listed order. */
  const SOLARIZED: seq<Color> := [
      Color(0, 43, 54),
      Color(7, 54, 66),
      Color(88, 110, 117),
      Color(101, 123, 131),
      Color(131, 148, 150),
      Color(147, 161, 161),
      Color(238, 232, 213),
      Color(253, 246, 227),
      Color(255, 207, 0),
      Color(203, 75, 22),
      Color(220, 50, 47),
      Color(211, 54, 130),
      Color(108, 113, 196),
      Color(38, 139, 210),
      Color(42, 161, 152),
      Color(133, 153, 0)
    ]

  /** A palette whose darkest and lightest entries lie more than twice the
      threshold apart gives every colour, of the palette or not, a partner:
      one of the two extremes. */
  lemma {:induction false} ExtremesContrastWithAll(palette: seq<Color>, dark: nat, light: nat, c: Color)
    requires dark < |palette| && light < |palette|
    requires Luminance(palette[light]) - Luminance(palette[dark]) > 2.0 * CONTRAST_THRESHOLD
    ensures Contrasting(palette, c) != []
  {
    if ContrastsWell(c, palette[dark]) {
      PartnerMakesNonEmpty(palette, c, dark);
    } else {
      PartnerMakesNonEmpty(palette, c, light);
    }
  }

  lemma {:induction false} PartnersFromExtremes(palette: seq<Color>, dark: nat, light: nat)
    requires dark < |palette| && light < |palette|
    requires Luminance(palette[light]) - Luminance(palette[dark]) > 2.0 * CONTRAST_THRESHOLD
    ensures EveryColorHasPartner(palette)
  {
    forall i | 0 <= i < |palette|
      ensures Contrasting(palette, palette[i]) != []
    {
      ExtremesContrastWithAll(palette, dark, light, palette[i]);
    }
  }

  /** grey90 (index 19) and grey10 (index 11) are the extremes of Photon. */
  lemma PhotonHasPartners()
    ensures |PHOTON| == 53
    ensures EveryColorHasPartner(PHOTON)
  {
    PartnersFromExtremes(PHOTON, 19, 11);
  }

  /** The first (base03) and eighth (base3) entries are Solarized's extremes. */
  lemma SolarizedHasPartners()
    ensures |SOLARIZED| == 16
    ensures EveryColorHasPartner(SOLARIZED)
  {
    PartnersFromExtremes(SOLARIZED, 0, 7);
  }

  /** Some Photon colour contrasts with white, as the border of a shape must. */
  lemma PhotonContrastsWithWhite()
    ensures Contrasting(PHOTON, White()) != []
  {
    PartnerMakesNonEmpty(PHOTON, White(), 19);
  }
}
