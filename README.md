# Identicons: a verified model of the choice engine

This project models the deterministic core of the identicons service. The
service turns an arbitrary string into a small icon: either a *shield* (a
field colour, an emoji and a treatment) or a *shape* (an emoji over a circle or
a regular polygon, with a border and a fill colour). The model covers:

- **The entropy pool `Genome`** (`Genomes.Genome`). A 512-bit number and its
  bound 2^512. Each `take(size)` peels one mixed-radix digit off the number:
  the remainder comes out, the quotient stays, and the bound is divided by
  `size`. The class keeps ghost logs of the sizes and digits drawn. Its
  invariant `Valid()` states that replaying those sizes from the initial pool,
  using the pure `Genomes.Replay`, gives exactly the logged digits and the
  current state. `gen`, `gen_range`, `choose` and `choose_weighted` are
  methods of the class. Each is proved equal to a pure draw function (`GenFrom`,
  `RangeFrom`, `ChooseFrom` and `WeightedFrom`), and the properties are proved
  about those functions.
- **Weighted selection** (`Weighted`). The `weighted_choice` loop is proved to
  return the item that owns the draw's cumulative-weight interval (`Owner`).
  That item has positive weight, it is unique (`OwnerUnique`), and the code
  after the loop is never reached.
- **Colours** (`Colors`). Black and white, the `rgb(r,g,b)` rendering, the
  luminance, and the "contrasts well" rule (a luminance difference above 75).
  The model also has the filter that keeps a palette's contrasting colours.
- **Palettes** (`Palettes`). They are transcribed in the order the programs
  use:
  - the 53 Photon colours, in the sorted-key order that `COLORS` produces;
  - the 16 inline Solarized colours.

  Both are proved to give every colour at least one contrasting partner, so
  the pattern-colour and fill-colour draws never meet an empty list.
- **Icon composition** (`Shields`, `Shapes`).
  - The shield `sample`/`rand` and the shape `rand` are imperative methods
    (`ComposeShield`, `ComposeShape`). They update `rv` one draw at a time, in
    the source's order. They draw from a `Genome`, the model's draw source,
    where the source takes a `rand::Rng`.
  - Each method is proved equal to a pure reference composition (`ShieldFrom`,
    `ShapeFrom`) over the pool's state.
  - Every composed icon is proved `WellFormed`:
    - colours come from the palette and contrast as required;
    - angles are multiples of 45 below 360;
    - the stripe count matches the stripe list, and the stripes are laid out
      by the padding;
    - polygons have 3 to 9 sides, and two sides or fewer give a circle;
    - the shape offset lies in [0.5, 1).
  - From a fresh 512-bit pool, a composition never runs out of entropy
    (`...FromFreshPool`).
- **The HTTP front ends' pure parts** (`Server`):
  - splitting the query at the first `.`, with the format defaulting to `svg`;
  - packing the 64-bit hash into `[high, low, 0, 0]` 32-bit words, or into
    16 little-endian bytes (a loop, `SeedBytes`);
  - the `svg`/`json`/bad-request dispatch, and the 500 answer when generation
    fails;
  - the vertex angles of the polygon points.

The older copies of this code are modelled once, and the table cites each
copy:
- `src/icons.rs` and `src/icons/mod.rs` repeat `Color`, `weighted_choice` and
  the shield composition.
- `src/icons/shields.rs` repeats only the shield composition and its `empty()`.
- `src/server.rs`, `identicons-server/src/lib.rs` and
  `identicons-server/src/server.rs` repeat `parse_query` and the dispatch.

Every composition in the source, current and older, draws from a `rand::Rng`.
The current tests seed it with `XorShiftRng` (`identicons/src/shields.rs:120`,
`identicons/src/shapes.rs:92`). The `genome` module is declared
(`identicons/src/lib.rs:26`), but no composition uses it. This model drives every
composition from the `Genome` pool instead, which gives it a concrete, specified
draw source. So no version's seed-to-icon mapping is modelled.

Files:
- `results.dfy`: `Option` and `Result`.
- `text.dfy`: decimal rendering and splitting.
- `colors.dfy`
- `weighted.dfy`
- `genome.dfy`
- `draws.dfy`: float draws.
- `palettes.dfy`
- `shields.dfy`
- `shapes.dfy`
- `server.dfy`

## Model

| member | source | states |
|---|---|---|
| Genomes.FreshBoundCovers128Bits | identicons/src/genome.rs:8-13 | The starting bound 2^512 is at least 2^128, which is enough for any one icon. |
| Genomes.FromBytesBEBound | identicons/src/genome.rs:33 | Bytes read big-endian are below 256^n, so a 64-byte digest is below 2^512 = `MAX_512_BIT`. |
| Genomes.FromBytesBE | identicons/src/genome.rs:33 | `from_bytes_be`: the last byte is the number modulo 256, and the number is 0 exactly when every byte is 0. |
| Genomes.Genome.ViaSha512 | identicons/src/genome.rs:26-36 | The new genome holds the digest read big-endian, with bound 2^512. The invariant holds, with no draws logged. |
| Genomes.TakeFrom | identicons/src/genome.rs:43-55 | `Err` exactly when `size > current_max`. On success: the digit is below `size`; `old remaining == digit + size * new remaining`; `new current_max == old current_max / size <= old current_max`; and `remaining <= current_max` is preserved. |
| Genomes.ExhaustedStaysExhausted | identicons/src/genome.rs:48-50 | With `current_max == 0`, every take of size at least 1 fails. |
| Genomes.Genome.Take | identicons/src/genome.rs:43-55 | On refusal, neither field changes. On success, the state moves exactly as `TakeFrom` says. The invariant is kept, and the logs grow by this size and digit. |
| Genomes.Radix | identicons/src/genome.rs:53 | The sizes' product, which is positive when every size is. |
| Genomes.ReplayDecomposes | identicons/src/genome.rs:51-53 | A run of takes is a mixed-radix decomposition: each digit is below its size; start = digits' value + product of sizes × what remains; final bound = start bound / product of sizes. |
| Genomes.ReplayDigits | identicons/src/genome.rs:51 | A run of takes yields one digit per size, each below its size. |
| Genomes.ReplayValue | identicons/src/genome.rs:51-52 | The start number equals the digits' mixed-radix value plus the product of the sizes times what remains. |
| Genomes.ReplayBound | identicons/src/genome.rs:53 | The final bound is the start bound divided by the product of the sizes. |
| Genomes.ReplayLast | identicons/src/genome.rs:43-55 | A successful run's last take succeeds from the pool the rest of the run left, and appends its digit. |
| Genomes.ReplayTakes | identicons/src/genome.rs:43-55 | Takes chained pool to pool are exactly the replay of their sizes, giving their digits and the last pool. |
| Genomes.LogExtends | identicons/src/genome.rs:43-55 | Two replays from one start, the second over the first's sizes followed by a run: the second's digits are the first's followed by the run's. |
| Genomes.ReplayAppend | identicons/src/genome.rs:43-55 | A run followed by a run from the pool it left is the replay of the concatenated sizes, with the concatenated digits. |
| Genomes.ReplaySucceedsIffWithinBound | identicons/src/genome.rs:48-53 | A non-empty run of takes succeeds exactly when the product of its sizes is at most the starting bound. |
| Genomes.GenomeDecomposes | identicons/src/genome.rs:15-23 | For a valid genome: the logged digits are the initial number's mixed-radix digits; `remaining` is the rest above them; and `current_max` is 2^512 over the product of the sizes drawn. |
| Genomes.GenFrom | identicons/src/genome.rs:97-99 | `gen` succeeds exactly when `T::MAX <= current_max`. The value lies in `[0, T::MAX)`. |
| Genomes.Genome.Gen | identicons/src/genome.rs:57-59 | The method's result and new state are those of `GenFrom`. A refusal changes nothing. |
| Genomes.RangeFrom | identicons/src/genome.rs:103-105 | `gen_range(low, high)` succeeds exactly when `high - low <= current_max`. The value is in `[low, high)`, and the bound is divided by `high - low`. |
| Genomes.RangeFromTake | identicons/src/genome.rs:103-105 | A successful `gen_range(low, high)` is `low` plus the digit of one `take(high - low)`, and leaves the pool that take leaves. |
| Genomes.Genome.GenRange | identicons/src/genome.rs:61-63 | The method's result and new state are those of `RangeFrom`. A refusal changes nothing. |
| Genomes.ChooseFrom | identicons/src/genome.rs:65-67 | `choose` succeeds exactly when `len <= current_max`. The result is an element of the vector. |
| Genomes.ChooseFromTake | identicons/src/genome.rs:65-67 | A successful `choose` returns the element at the digit of one `take(len)`, and leaves the pool that take leaves. |
| Genomes.Genome.Choose | identicons/src/genome.rs:65-67 | The method's result and new state are those of `ChooseFrom`. |
| Genomes.WeightedFrom | identicons/src/genome.rs:69-79 | `choose_weighted` succeeds exactly when the total weight is at most `current_max`. The result is an item of positive weight. |
| Genomes.WeightedFromTake | identicons/src/genome.rs:69-77 | A successful `choose_weighted` returns the owner of the digit of one `take(total weight)`, and leaves the pool that take leaves. |
| Genomes.Genome.ChooseWeighted | identicons/src/genome.rs:69-79 | The method's result and new state are those of `WeightedFrom`, whose item is the owner of the drawn value. |
| Weighted.Owner | identicons/src/genome.rs:72-77 | The owner of a draw below the total has `CumBefore(k) <= draw < CumBefore(k) + weight_k`, and its weight is positive. |
| Weighted.TotalWeightBounds | identicons/src/genome.rs:70 | Every weight is at most the sum of the weights, and the sum is 0 exactly when every weight is 0. |
| Weighted.OwnerUnique | identicons/src/genome.rs:72-77 | No other index's interval contains the draw. |
| Weighted.WeightedChoice | identicons/src/genome.rs:72-78 | The loop returns the owner's item for every draw below the total, and never reaches `unreachable!`. The same code is repeated in `src/icons/mod.rs`, `src/icons.rs`. |
| Colors.Black | identicons/src/lib.rs:47-49 | Black has luminance 0, the least of any colour. |
| Colors.White | identicons/src/lib.rs:52-58 | White has luminance 255, the greatest of any colour. |
| Colors.CssColor | identicons/src/lib.rs:66-68 | `css_color` starts with `rgb(` and ends with `)`, holds only digits and commas in between, and is at least 10 characters long. |
| Colors.Luminance | identicons/src/lib.rs:71-73 | The luminance lies between 0 and 255. |
| Colors.ContrastSymmetric | identicons/src/lib.rs:76-78 | `contrasts_well` is symmetric. The same code is repeated in `src/icons/mod.rs`, `src/icons.rs`. |
| Colors.ContrastsWell | identicons/src/lib.rs:76-78 | Contrast needs a luminance difference above 75, so no colour contrasts with itself. The same code is repeated in `src/icons/mod.rs`, `src/icons.rs`. |
| Colors.ThresholdIsStrict | identicons/src/lib.rs:77 | A difference of exactly 75 does not contrast; a slightly brighter colour does. |
| Colors.CssColorExample | identicons/src/lib.rs:60-68 | `Color { 12, 34, 56 }` renders as `rgb(12,34,56)`. The same code is repeated in `src/icons/mod.rs`, `src/icons.rs`. |
| Colors.CssRoundTrip | identicons/src/lib.rs:66-68 | Parsing the rendering recovers any colour. |
| Colors.CssInjective | src/icons.rs:43-45 | Different colours render differently. |
| Text.Decimal | identicons/src/lib.rs:67 | `{}` of an unsigned integer is non-empty, all digits, and has no leading zero. |
| Text.DecimalRoundTrip | identicons/src/lib.rs:67 | The decimal digits read back to the number. |
| Text.SplitFirst | identicons-server/src/main.rs:67-71 | `splitn(2, ".")`: no split exactly when the separator is absent. Otherwise the first part holds no separator, and the two parts joined by the separator give the string back. |
| Text.SplitFirstGlued | identicons-server/src/main.rs:67-71 | Two parts joined at a separator that the first part lacks split back into exactly those parts. |
| Colors.Contrasting | identicons/src/shields.rs:62-65 | The filter keeps exactly the palette colours that contrast with the given colour, and is no longer than the palette. |
| Colors.ContrastingAppend | identicons/src/shields.rs:62-65 | The filter keeps palette order: filtering a concatenation is concatenating the filters. |
| Colors.PartnerMakesNonEmpty | identicons/src/shields.rs:62-68 | One contrasting palette colour makes the filtered list non-empty, so `unwrap` succeeds. |
| Colors.MemberHasPartner | identicons/src/shapes.rs:55-59 | In a palette where every colour has a partner, any palette colour (such as the border) has a non-empty contrasting list. |
| Palettes.PhotonHasPartners | identicons/src/data.rs:66-70 | The sorted Photon palette has 53 colours, and every one has a contrasting partner in it. |
| Palettes.SolarizedHasPartners | src/icons.rs:58-75 | The 16 Solarized colours each have a contrasting partner among them, so the `unwrap` at line 159 never panics. |
| Palettes.PhotonContrastsWithWhite | identicons/src/shapes.rs:47-53 | Some Photon colour contrasts with white, so the border draw has a choice. |
| Palettes.PartnersFromExtremes | identicons/src/data.rs:66-70 | Two palette colours whose luminances differ by more than 150 give every colour in it a partner. |
| Shields.AngleChoices | identicons/src/shields.rs:59 | Exactly eight angles: precisely the multiples of 45 below 360. |
| Shields.Default | identicons/src/shields.rs:99-107 | `Default` is a single colour, with a black field and emoji `A`. |
| Shields.Empty | src/icons/shields.rs:43-49 | The older copies' `empty()` is `Default()` with a blank emoji. |
| Shields.Stride | identicons/src/shields.rs:85 | The stride divides `1 - 2 padding` into `2 count + 1` parts, and it is positive exactly when the padding is below 0.5. |
| Shields.StripeXs | identicons/src/shields.rs:86-88 | There are `count` stripe positions. The first is `padding + stride`, and each next one is `2 * stride` further on. |
| Shields.TreatmentTable | identicons/src/shields.rs:70-74 | The weights total 11. Draw 0 picks `SingleColor`, draws 1-4 pick `TwoColor`, and draws 5-10 pick `Stripes` (the table `TreatmentByDigit`). |
| Shields.StripeGeometry | identicons/src/shields.rs:83-88 | For a padding in [0.1, 0.4) and a positive count, the stripe list has the following shape. The stride is positive, and there are `count` entries. The first entry is `padding + stride`. Each next entry is `2 * stride` further on. The last entry plus `2 * stride` is `1 - padding`. Every stripe lies strictly inside the padded band. |
| Shields.BandGeometry | identicons/src/shields.rs:86-88 | The same layout for any positive stride that divides `1 - 2 padding` into `2 count + 1` parts. |
| Shields.TreatmentFrom | identicons/src/shields.rs:76-93 | `SingleColor` leaves the default treatment. `TwoColor` and `Stripes` carry the pattern colour, an angle from `AngleChoices`, and, for stripes, 1 to 3 entries laid out by the padding. |
| Shields.ShieldFrom | identicons/src/shields.rs:56-96 | The shield composition (field colour, emoji, pattern colour, treatment, treatment draws), whenever it succeeds, is `WellFormed`. Its colours come from the palette, the pattern colour contrasts with the field, the emoji comes from the list, and angles and stripes obey the rules above. The same code is repeated in `src/icons/mod.rs`, `src/icons/shields.rs`, `src/icons.rs`. |
| Shields.ComposeShield | identicons/src/shields.rs:56-96 | The imperative composition, in the source's draw order. It draws from a `Genome` (the model's draw source; the source takes a `rand::Rng`). Its result and the genome's new state are those of `ShieldFrom`, and a refusal is reported as `Err`. On success the genome's size log has grown by exactly `ShieldSizes` of the result, and its digit log by the digits of that run, replayed from the pool it started at. |
| Shields.ShieldFromSucceeds | identicons/src/shields.rs:56-96 | A pool whose bound covers the shield's worst-case draw sizes always yields a shield. |
| Shields.TreatmentDraws | identicons/src/shields.rs:76-93 | A treatment is a run of takes: none for `SingleColor`; the angle for `TwoColor`; count, padding and angle for `Stripes`, in that order. Each field of the treatment is read off its own digit. |
| Shields.ShieldHead | identicons/src/shields.rs:57-75 | The four draws every shield makes first form a run of takes: field colour, emoji, pattern colour (drawn for every treatment) and treatment name. The rest of the composition continues from the pool they leave. |
| Shields.ShieldSizes | identicons/src/shields.rs:56-93 | A shield's draw sizes are the four head sizes followed by its treatment's own. |
| Shields.ShieldDraws | identicons/src/shields.rs:56-96 | A composed shield is exactly one run of takes, with the sizes in the source's draw order. Every field is read off its own digit, and the pool is left where the run ends. |
| Shields.SizesLogged | identicons/src/shields.rs:56-96 | A log grown one draw at a time in the composition's order (palette, emoji, contrasting colour, treatment, then the treatment's own draws) has grown by exactly `ShieldSizes`. |
| Shields.ShieldLog | identicons/src/shields.rs:56-96 | A genome whose logs replay to the pool a composition starts at, and afterwards replay to the pool it ends at, has logged exactly that composition's run: the sizes `ShieldSizes`, the old digits as prefix, the run's digits after them. |
| Shields.ShieldTail | identicons/src/shields.rs:76-93 | The treatment's takes after the head's four give the whole run of `ShieldDraws`. |
| Shields.ShieldAssemble | identicons/src/shields.rs:56-93 | The head's digits followed by the treatment's are the digits of the whole run. |
| Shields.ShieldRun | identicons/src/shields.rs:56-93 | The same run, stated through the replay's own digits. |
| Shields.FreshShield | identicons/src/shields.rs:56-96 | A fresh 2^512 pool always yields a shield, for at most 53 colours and 2^32 emojis. |
| Shields.PhotonShieldFromFreshPool | identicons/src/shields.rs:99-107 | With the Photon palette, both blank descriptors succeed from a fresh pool: `Default()` (`SingleColor`, black, `'A'`) and `Empty()`. |
| Shields.SolarizedShieldFromFreshPool | src/icons.rs:136-159 | With the Solarized palette and `empty()`, the composition succeeds from a fresh pool. |
| Shapes.ShapeOf | identicons/src/shapes.rs:61-67 | Two sides or fewer make a `Circle`. Otherwise the shape is `Polygon(n)` with `n >= 3`. |
| Shapes.Empty | identicons/src/shapes.rs:30-38 | `empty()` is a circle with a blank emoji, a white fill and a black border. Its offset lies outside [0.5, 1), so no composed shape is the blank. |
| Shapes.ClampOffset | identicons/src/shapes.rs:71-75 | The clamp, as written, never yields less than 0.5. It yields exactly 0.5 for any offset up to 0.5, and keeps larger offsets. |
| Shapes.ShapeFrom | identicons/src/shapes.rs:42-79 | Whenever the shape composition succeeds, it is `WellFormed`:<br>- the emoji comes from the list;<br>- the border is a palette colour contrasting with white;<br>- the fill is a palette colour contrasting with the border;<br>- polygons have 3-9 sides;<br>- the offset lies in [0.5, 1). |
| Shapes.ComposeShape | identicons/src/shapes.rs:42-79 | The imperative composition updates `rv` field by field, drawing from a `Genome` (the model's draw source; the source takes a `rand::Rng`), and runs the clamp's two branches as written. Its result and new state are those of `ShapeFrom`. On success the genome's size log has grown by exactly `ShapeSizes` of the result, and its digit log by the digits of that run, replayed from the pool it started at. |
| Shapes.ShapeFromSucceeds | identicons/src/shapes.rs:42-79 | A pool covering the shape's draw sizes always yields a shape. |
| Shapes.ShapeTakes | identicons/src/shapes.rs:42-79 | The shape composition makes five takes, each from the pool the previous one left: emoji, border, fill, sides and offset. Each field is read off its own digit. |
| Shapes.ShapeSizesLogged | identicons/src/shapes.rs:42-79 | A log grown one draw at a time in the composition's order (emoji, border, fill, sides, offset) has grown by exactly `ShapeSizes`. |
| Shapes.ShapeLog | identicons/src/shapes.rs:42-79 | The same as `Shields.ShieldLog`, for a shape: the genome's logs have grown by exactly the shape's run. |
| Shapes.ShapeDraws | identicons/src/shapes.rs:42-79 | A composed shape is exactly one run of five takes, in the source's draw order. Every field is read off its own digit, and the pool is left where the run ends. |
| Shapes.PhotonShapeFromFreshPool | identicons/src/shapes.rs:47-59 | With the Photon palette, the white filter is non-empty, every border has a partner, and a fresh pool always yields a shape. |
| Draws.FloatAt | identicons/src/shields.rs:84 | A float draw from `[lo, hi)` lies in `[lo, hi)`, and draw 0 gives `lo`. |
| Draws.FloatFrom | identicons/src/shapes.rs:70 | A float draw succeeds when 2^23 fits the bound, lies in `[lo, hi)`, and divides the bound by 2^23. |
| Draws.FloatFromTake | identicons/src/shapes.rs:70 | A successful float draw is the point at the digit of one `take(2^23)`, and leaves the pool that take leaves. |
| Draws.GenFloatRange | identicons/src/shields.rs:84 | The genome method's result and new state are those of `FloatFrom`. |
| Server.SplitQuery | identicons-server/src/main.rs:67-74 | Without a `.`, the result is `(query, "svg")`. With one, the seed has no `.`, and seed + `.` + format equals the query. The same code is repeated in `src/server.rs`, `identicons-server/src/lib.rs`, `identicons-server/src/server.rs`. |
| Server.SplitQueryJoin | identicons-server/src/main.rs:67-71 | The split is at the first `.` only: a dot-free seed joined to any format (dots allowed, possibly empty) splits back to both. |
| Server.SeedWords | src/server.rs:85-87 | The seed is `[high, low, 0, 0]` with `high * 2^32 + low == hash`. The same code is repeated in `identicons-server/src/lib.rs`, `identicons-server/src/server.rs`. |
| Server.SeedWordsInjective | src/server.rs:85-87 | Different hashes give different seeds. |
| Server.ParseQueryWords | src/server.rs:71-90 | `parse_query` returns four words whose top two are the seed part's hash, and the format part of the split. |
| Server.SeedBytes | identicons-server/src/main.rs:80-89 | The seed has 16 bytes. Byte `i < 8` is `(hash >> 8i) & 0xFF`, bytes 8-15 are zero, and the first eight read little-endian give back the hash. |
| Server.FromBytesLEBound | identicons-server/src/main.rs:80-86 | Bytes read little-endian are below 256^n. |
| Server.Dispatch | identicons-server/src/main.rs:106-122 | Exactly `svg` and `json` are rendered, and `svg` alone as SVG. Every other format is a bad request carrying `UnsupportedFormat(format)`. Dispatch never gives a 500. The same code is repeated in `src/server.rs`, `identicons-server/src/lib.rs`, `identicons-server/src/server.rs`. |
| Server.UnsupportedFormat | identicons-server/src/main.rs:121 | The bad-request message is `Unsupported format "`, then the format verbatim, then a closing `"`: 21 characters longer than the format. |
| Server.UnsupportedFormatInjective | identicons-server/src/main.rs:121 | The message determines the format: different formats give different messages. |
| Server.Handle | identicons-server/src/main.rs:102-122 | The answer is a 500 exactly when generation fails, and its text is then "There was an error generating the image" (lines 152-163), whatever the format. It is rendered exactly when generation succeeds and the format is `svg` or `json`, and rendered as SVG exactly for a success with `svg`. A bad request carries `UnsupportedFormat(format)`. |
| Server.VertexTurns | src/server.rs:140-151 | Points exist exactly for polygons, and there are `sides` of them. |
| Server.VerticesEvenlySpaced | src/server.rs:144-149 | Consecutive vertices are `1 / sides` turn apart, and all of them fit within one turn of the first. |

## Left out

- SHA-512 (`Sha512::digest`) is not computed. `ViaSha512` takes the 64-byte digest as a parameter.
- The `DefaultHasher` (SipHash) is likewise a parameter: `ParseQueryWords` takes the hash function, and `SeedWords`/`SeedBytes` take the hash value.
- The `rand` crate: `XorShiftRng`, its seeding, and the exact draws behind the golden tests. Every composition in the source draws from a `rand::Rng`; the model uses the `Genome` pool for all of them.
  - So the golden-test icons are not reproduced.
  - Which concrete icon a seed gives is unmodelled for every version, current and older, and for every server.
- Float draws (`gen_range(0.1, 0.4)`, `gen_range(-1.0, 1.0)`) are modelled as one take of 2^23 steps, mapped to evenly spaced points of `[lo, hi)`. The rand crate's float sampling is not reproduced.
- `f32` arithmetic is modelled over `real`: luminance, stride, stripe positions and offset. No IEEE rounding behaviour is claimed.
- The polygon points' `cos`/`sin`, radius 0.45 and centring are not modelled. `VertexTurns` gives each vertex's angle as a fraction of a turn.
- The `EMOJIS` table is not transcribed. The compositions take the emoji list as a parameter, and the fresh-pool lemmas assume at most 2^32 entries.
- The `HashMap` building of `COLOR_MAP` in `data.rs` is not modelled. The resulting sorted `COLORS` vector is transcribed as `PHOTON`.
- There is no HTTP and process plumbing: no iron/actix setup, routing, headers and MIME types, status codes beyond the 200/400/500 distinction, `main`, listeners or environment variables.
- `String::from_utf8_lossy` of the byte seed is not modelled.
- Templating (Tera, `templ.rs`, `to_svg`) and serde/JSON encoding are not modelled. `Rendered(format)` stands for a successful response in that format.
- `ShieldIconData::from_input` and `ShapeIconData::from_input` are not part of this model. `Handle` takes the outcome of generation as a parameter.
- The `BigUint` → primitive conversions (`to_u8`, `to_usize`, ...) cannot fail on a digit below `high - low`, so values are plain `nat`. `usize` is taken as 64-bit.
- The bit masks and shifts of `parse_query` are written as division and remainder by powers of two. For a `u64` these are equal.
- "Each field of `empty()` is overwritten exactly once" is not stated as a count of writes. `ComposeShape` writes every field, and its result is the `Empty()` record with all fields replaced.
- Genomes.RangeFrom: `gen_range(low, high)` with `low >= high` makes the source divide by zero or underflow, so the model requires `low < high`. `Genomes.Genome.GenRange` has the same requires.
- Genomes.TakeFrom: `take(0)` divides by zero (`identicons/src/genome.rs:51`), so the model requires `size > 0`. `Genomes.Genome.Take` has the same requires.
- Genomes.ChooseFrom: `choose` of an empty vector reaches `gen_range(0, 0)` (`identicons/src/genome.rs:66`), so the model requires a non-empty vector. `Genomes.Genome.Choose` has the same requires.
- Genomes.WeightedFrom: a zero total weight reaches `gen_range(0, 0)` (`identicons/src/genome.rs:71`), so the model requires a positive total. `Genomes.Genome.ChooseWeighted` has the same requires.
- Every call in the compositions meets these requires, and this is proved.

## Notes on the code

- `gen` asks for `take(T::max_value())`, so its value is below `T::MAX` and `T::MAX` itself is never produced. `GenFrom` states exactly that.
- Stripe layout: the useful end property holds with two strides, `xs[count-1] + 2 * stride == 1 - padding`. The last stripe also ends one stride before `1 - padding`. `xs[count-1] + stride == 1 - padding` does not hold.
- Offset clamp: modelled as written. Its `< 0.0` branch is dead because `< 0.5` is checked first. So every drawn offset below 0.5 (including negative ones) becomes 0.5, and the final offset lies in [0.5, 1).
