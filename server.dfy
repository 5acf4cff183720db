/** The pure parts of the HTTP front ends: `parse_query` in src/server.rs,
    identicons-server/src/lib.rs, identicons-server/src/server.rs and
    identicons-server/src/main.rs, the format dispatch of their shield and
    shape handlers, and the polygon vertices of src/server.rs. The hash of the
    seed text (Rust's `DefaultHasher`) is a parameter. */
module Server {
  import opened Results
  import opened Text
  import opened Genomes
  import opened Shapes

  type u32 = x: int | 0 <= x < 0x1_0000_0000
  type u64 = x: int | 0 <= x < 0x1_0000_0000_0000_0000

  const DEFAULT_FORMAT: string := "svg"

  /** The seed text and the format of a query: split at the first '.', the
      format being everything after it (possibly empty, possibly holding more
      dots); with no '.', the whole query and "svg". */
  function SplitQuery(query: string): (r: (string, string))
    ensures '.' !in query ==> r == (query, DEFAULT_FORMAT)
    ensures '.' in query ==> '.' !in r.0 && r.0 + "." + r.1 == query
  {
    match SplitFirst(query, '.')
    case None => (query, DEFAULT_FORMAT)
    case Some(parts) => (parts.0, parts.1)
  }

  /** Joining a seed without dots to any format, then splitting, gives both back. */
  lemma SplitQueryJoin(seed: string, format: string)
    requires '.' !in seed
    ensures SplitQuery(seed + "." + format) == (seed, format)
  {
    SplitFirstGlued(seed, format, '.');
  }

  // ---------------------------------------------------------------------
  // src/server.rs, identicons-server/src/lib.rs and server.rs: four words.
  // ---------------------------------------------------------------------

  /** `[high, low, 0, 0]`, where `high = (hash & 0xFFFF_FFFF_0000_0000) >> 32`
      and `low = hash & 0x0000_0000_FFFF_FFFF`, written as the quotient and the
      remainder by 2^32. */
  function SeedWords(hash: u64): (seed: seq<u32>)
    ensures |seed| == 4 && seed[2] == 0 && seed[3] == 0
    ensures seed[0] as int * 0x1_0000_0000 + seed[1] as int == hash
  {
    [hash / 0x1_0000_0000, hash % 0x1_0000_0000, 0, 0]
  }

  /** The hash the first two words stand for. */
  function WordsValue(seed: seq<u32>): nat
    requires |seed| >= 2
  {
    seed[0] as int * 0x1_0000_0000 + seed[1] as int
  }

  /** The words determine the hash: different hashes give different seeds. */
  lemma SeedWordsInjective(h1: u64, h2: u64)
    requires SeedWords(h1) == SeedWords(h2)
    ensures h1 == h2
  {
    assert WordsValue(SeedWords(h1)) == h1;
    assert WordsValue(SeedWords(h2)) == h2;
  }

  /** `parse_query` of the three four-word versions. */
  function ParseQueryWords(query: string, hash: string -> u64): (r: (seq<u32>, string))
    ensures r.1 == SplitQuery(query).1
    ensures |r.0| == 4 && WordsValue(r.0) == hash(SplitQuery(query).0)
  {
    var (seedText, format) := SplitQuery(query);
    (SeedWords(hash(seedText)), format)
  }

  // ---------------------------------------------------------------------
  // identicons-server/src/main.rs: sixteen bytes.
  // ---------------------------------------------------------------------

  /** The weight of byte `i`, 256^i. */
  function Weight(i: nat): (w: nat)
    ensures w > 0 && w == Pow(256, i)
  {
    PowPositive(256, i);
    Pow(256, i)
  }

  /** The number whose base-256 digits, least significant first, are `bytes`. */
  function FromBytesLE(bytes: seq<byte>): nat {
    if bytes == [] then 0
    else FromBytesLE(bytes[..|bytes| - 1]) + Pow(256, |bytes| - 1) * bytes[|bytes| - 1]
  }

  lemma Pow256At8()
    ensures Pow(256, 8) == 0x1_0000_0000_0000_0000
  {
    assert Pow(256, 1) == 256;
    assert Pow(256, 2) == 256 * Pow(256, 1);
    assert Pow(256, 3) == 256 * Pow(256, 2);
    assert Pow(256, 4) == 256 * Pow(256, 3);
    assert Pow(256, 5) == 256 * Pow(256, 4);
    assert Pow(256, 6) == 256 * Pow(256, 5);
    assert Pow(256, 7) == 256 * Pow(256, 6);
  }

  /** The seed of main.rs: byte `i < 8` is `(hash & (0xFF << 8i)) >> 8i`,
      written as digit `i` of the hash in base 256; the vector is then resized
      to 16 with zeros. The eight bytes read back little-endian are the hash. */
  method SeedBytes(hash: u64) returns (seed: seq<byte>)
    ensures |seed| == 16
    ensures forall i :: 0 <= i < 8 ==> seed[i] == hash / Weight(i) % 256
    ensures forall i :: 8 <= i < 16 ==> seed[i] == 0
    ensures FromBytesLE(seed[..8]) == hash
  {
    var seedVec: seq<byte> := [];
    for i := 0 to 8
      invariant |seedVec| == i
      invariant forall j :: 0 <= j < i ==> seedVec[j] == hash / Weight(j) % 256
      invariant FromBytesLE(seedVec) == hash % Weight(i)
    {
      var b: byte := hash / Weight(i) % 256;
      DivDiv(hash, Weight(i), 256);
      assert Weight(i) * 256 == Weight(i + 1);
      assert (seedVec + [b])[..i] == seedVec;
      seedVec := seedVec + [b];
    }
    Pow256At8();
    assert seedVec[..8] == seedVec;
    seed := seedVec + [0, 0, 0, 0, 0, 0, 0, 0];
    assert seed[..8] == seedVec;
  }

  /** `n` bytes read little-endian are below 256^n: any eight make a `u64`. */
  lemma {:induction false} FromBytesLEBound(bytes: seq<byte>)
    ensures FromBytesLE(bytes) < Pow(256, |bytes|)
  {
    if bytes != [] {
      var init := bytes[..|bytes| - 1];
      FromBytesLEBound(init);
      var w := Pow(256, |init|);
      MulLeq(w, bytes[|bytes| - 1], 255);
      assert Pow(256, |bytes|) == 256 * w;
    }
  }

  // ---------------------------------------------------------------------
  // Format dispatch.
  // ---------------------------------------------------------------------

  datatype Format = Svg | Json

  /** The handlers' answers: the icon rendered in a format (200), a bad
      request with a plain-text message (400), or a generation failure (500). */
  datatype Response = Rendered(format: Format) | BadRequest(message: string) | InternalError(message: string)

  /** `match &format[..]` in every shield and shape handler. */
  function Dispatch(format: string): (r: Response)
    ensures r.Rendered? <==> format == "svg" || format == "json"
    ensures r == Rendered(Svg) <==> format == "svg"
    ensures !r.InternalError?
    ensures r.BadRequest? ==> r.message == UnsupportedFormat(format)
  {
    if format == "svg" then Rendered(Svg)
    else if format == "json" then Rendered(Json)
    else BadRequest(UnsupportedFormat(format))
  }

  /** `format!("Unsupported format \"{}\"", format)`: the format is quoted
      verbatim after a fixed prefix, so it can be read back from the message. */
  function UnsupportedFormat(format: string): (m: string)
    ensures |m| == |format| + 21
    ensures m[..20] == "Unsupported format \"" && m[|m| - 1] == '"'
    ensures m[20..|m| - 1] == format
  {
    "Unsupported format \"" + format + "\""
  }

  /** Different formats get different messages. */
  lemma UnsupportedFormatInjective(a: string, b: string)
    requires UnsupportedFormat(a) == UnsupportedFormat(b)
    ensures a == b
  {
    var m := UnsupportedFormat(a);
    assert a == m[20..|m| - 1];
  }

  const GENERATOR_ERROR: string := "There was an error generating the image"

  /** The handlers of identicons-server/src/main.rs: the icon is generated
      first (and a failure answers 500 with the `GeneratorError` text, whatever
      the format), then the format is dispatched. `generated` is the outcome of
      `from_input` on the seed. */
  function Handle<T>(generated: Result<T>, format: string): (r: Response)
    ensures r.InternalError? <==> generated.Err?
    ensures r.InternalError? ==> r.message == GENERATOR_ERROR
    ensures r.Rendered? <==> generated.Ok? && (format == "svg" || format == "json")
    ensures r == Rendered(Svg) <==> generated.Ok? && format == "svg"
    ensures r.BadRequest? ==> r.message == UnsupportedFormat(format)
  {
    if generated.Err? then InternalError(GENERATOR_ERROR) else Dispatch(format)
  }

  // ---------------------------------------------------------------------
  // Polygon vertices of src/server.rs.
  // ---------------------------------------------------------------------

  /** The vertex angles computed for a polygon, as fractions of a full turn:
      vertex `i` is at `step * i + step * offset` with `step = 2π / sides`, that
      is `(i + offset) / sides` turns. Only polygons get points. */
  function VertexTurns(shape: ShapeType, offset: real): (r: Option<seq<real>>)
    ensures r.Some? <==> shape.Polygon?
    ensures r.Some? ==> |r.value| == shape.sides
  {
    match shape
    case Circle => None
    case Polygon(sides) =>
      if sides == 0 then Some([])
      else Some(seq(sides, i => (i as real + offset) / sides as real))
  }

  /** The vertices are evenly spaced a `1 / sides` turn apart and span less
      than one turn, so they are distinct points of the circle. */
  lemma VerticesEvenlySpaced(sides: nat, offset: real)
    requires sides >= 1
    ensures var t := VertexTurns(Polygon(sides), offset).value;
      && (forall i :: 0 <= i < sides - 1 ==> t[i + 1] - t[i] == 1.0 / sides as real)
      && t[sides - 1] - t[0] < 1.0
  {
    var t := VertexTurns(Polygon(sides), offset).value;
    var n := sides as real;
    assert t[sides - 1] - t[0] == (n - 1.0) / n;
  }
}
