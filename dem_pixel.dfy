/** Per-pixel transcoding of a GSI DEM-PNG elevation code into the
    Terrain-RGB encoding that MapLibre's `raster-dem` sources expect by
    default (offset 10000 m, step 0.1 m).

    Heights and the encoded value are exact rationals (`real`); `Math.floor`
    is `.Floor` and JavaScript's `%` is the truncating remainder `JsRem`. */
module DemPixel {

  /** One channel of an RGBA pixel as held in a canvas ImageData buffer. */
  type Byte = x: int | 0 <= x < 256

  /** The red, green and blue channels of one pixel; alpha is not part of the
      transcoding and stays in the buffer. */
  datatype Rgb = Rgb(r: Byte, g: Byte, b: Byte)

  const MinElevationM: real := 0.0
  const MaxElevationM: real := 4000.0
  /** Metres per unit of the GSI elevation code. */
  const SourceStep: real := 0.01
  /** Offset and step of the Terrain-RGB target encoding. */
  const TargetOffset: real := 10000.0
  const TargetStep: real := 0.1
  /** 2^24 and the largest unsigned 24-bit value. */
  const Span24: int := 16777216
  const Max24: int := 16777215
  /** The GSI "no data" pixel. */
  const NoData: Rgb := Rgb(128, 0, 0)

  function MaxR(x: real, y: real): real { if x >= y then x else y }
  function MinR(x: real, y: real): real { if x <= y then x else y }

  /** JavaScript's truncating integer part of a number. */
  function Trunc(x: real): int { if x >= 0.0 then x.Floor else -((-x).Floor) }

  /** JavaScript's `n % d` on numbers: the remainder of truncating division. */
  function JsRem(n: real, d: real): real
    requires d != 0.0
  {
    n - d * (Trunc(n / d) as real)
  }

  /** The three channels read as one unsigned 24-bit integer, R most significant. */
  function Unsigned24(p: Rgb): (u: int)
    ensures 0 <= u <= Max24
  {
    p.r * 65536 + p.g * 256 + p.b
  }

  /** The GSI elevation code: the 24-bit value read as two's complement,
      so that r >= 128 marks the negative half. */
  function SignedCode(p: Rgb): (c: int)
    ensures -Span24 / 2 <= c < Span24 / 2
    ensures c < 0 <==> p.r >= 128
    ensures (c + Span24) % Span24 == Unsigned24(p)
  {
    var u := Unsigned24(p);
    if p.r < 128 then u else u - Span24
  }

  /** Height in metres before clamping; the no-data pixel is the floor value. */
  function DecodeHeight(p: Rgb): (h: real)
    ensures p == NoData ==> h == MinElevationM
    ensures p != NoData ==> h == SignedCode(p) as real / 100.0
    ensures h < 0.0 <==> p.r >= 128 && p != NoData
  {
    if p == NoData then MinElevationM
    else SignedCode(p) as real * SourceStep
  }

  /** `Math.min(Math.max(h, MIN_ELEVATION_M), MAX_ELEVATION_M)`. */
  function ClampHeight(h: real): (c: real)
    ensures MinElevationM <= c <= MaxElevationM
    ensures MinElevationM <= h <= MaxElevationM ==> c == h
    ensures h <= MinElevationM ==> c == MinElevationM
    ensures h >= MaxElevationM ==> c == MaxElevationM
  {
    MinR(MaxR(h, MinElevationM), MaxElevationM)
  }

  /** The Terrain-RGB value of a height, before flooring: `(h + 10000) / 0.1`. */
  function EncodeValue(h: real): (v: real)
    ensures (v * TargetStep) - TargetOffset == h
  {
    (h + TargetOffset) / TargetStep
  }

  /** Clamp to the unsigned 24-bit range, `Math.min(Math.max(v, 0), 16777215)`. */
  function ClampU24(v: real): (c: real)
    ensures 0.0 <= c <= Max24 as real
    ensures 0.0 <= v <= Max24 as real ==> c == v
    ensures v <= 0.0 ==> c == 0.0
    ensures v >= Max24 as real ==> c == Max24 as real
  {
    MinR(MaxR(v, 0.0), Max24 as real)
  }

  /** Conversion to `real` commutes with multiplication. */
  lemma RealProduct(a: int, b: int)
    ensures (a * b) as real == a as real * b as real
  {
  }

  /** Dividing both sides of an inequality by a positive number. */
  lemma DivideBounds(lo: real, x: real, hi: real, c: real)
    requires c > 0.0 && lo * c <= x < hi * c
    ensures lo <= x / c < hi
  {
    assert x == (x / c) * c;
  }

  /** `Math.floor(v / m)` equals the integer quotient of `Math.floor(v)` by m. */
  lemma FloorDiv(v: real, m: int)
    requires v >= 0.0 && m > 0
    ensures (v / m as real).Floor == v.Floor / m
  {
    var n := v.Floor;
    var q := n / m;
    assert q * m <= n < (q + 1) * m;
    RealProduct(q, m);
    RealProduct(q + 1, m);
    DivideBounds(q as real, v, (q + 1) as real, m as real);
  }

  /** JavaScript's `v % m` for `v >= 0` is non-negative and its floor is the
      integer remainder of `Math.floor(v)` by m. */
  lemma JsRemFloor(v: real, m: int)
    requires v >= 0.0 && m > 0
    ensures JsRem(v, m as real) >= 0.0
    ensures JsRem(v, m as real).Floor == v.Floor % m
  {
    var n, mr := v.Floor, m as real;
    FloorDiv(v, m);
    DivideBounds(0.0, v, (n / m + 1) as real, mr);
    var q := n / m;
    assert Trunc(v / mr) == q;
    RealProduct(q, m);
    assert JsRem(v, mr) == (n % m) as real + (v - n as real);
  }

  /** Writing `v` into R, G and B as in the source gives the base-256 digits
      of `Math.floor(v)`, most significant first. */
  function Channels(v: real): (p: Rgb)
    requires 0.0 <= v <= Max24 as real
    ensures p == Digits(v.Floor)
    ensures Unsigned24(p) == v.Floor
  {
    ChannelDigits(v);
    Rgb((v / 65536.0).Floor, (JsRem(v, 65536.0) / 256.0).Floor, JsRem(v, 256.0).Floor)
  }

  /** The three `Math.floor` expressions of the source are the integer digits. */
  lemma ChannelDigits(v: real)
    requires 0.0 <= v <= Max24 as real
    ensures (v / 65536.0).Floor == v.Floor / 65536
    ensures (JsRem(v, 65536.0) / 256.0).Floor == v.Floor % 65536 / 256
    ensures JsRem(v, 256.0).Floor == v.Floor % 256
  {
    FloorDiv(v, 65536);
    JsRemFloor(v, 65536);
    FloorDiv(JsRem(v, 65536.0), 256);
    JsRemFloor(v, 256);
  }

  /** The base-256 digits of a 24-bit value, most significant first. */
  function Digits(n: int): (p: Rgb)
    requires 0 <= n <= Max24
    ensures Unsigned24(p) == n
  {
    Rgb(n / 65536, n % 65536 / 256, n % 256)
  }

  /** The GSI code clamped to [0, 400000], the height range in centimetres. */
  function ClampedCode(p: Rgb): (cm: int)
    ensures 0 <= cm <= 400000
  {
    var c := SignedCode(p);
    if c < 0 then 0 else if c > 400000 then 400000 else c
  }

  /** Reference definition in integer centimetres: the GSI code is the height
      in cm, clamped to [0, 400000] cm, and the Terrain-RGB value counts
      tenths of a metre above -10000 m. */
  function TerrainValue(p: Rgb): (n: int)
    ensures 100000 <= n <= 140000
  {
    100000 + ClampedCode(p) / 10
  }

  /** Specification of the loop body on one pixel: the RGB the source writes
      is the Terrain-RGB digits of the reference value. */
  function TranscodePixel(p: Rgb): Rgb
  {
    Digits(TerrainValue(p))
  }

  /** MapLibre's decoding of a Terrain-RGB pixel with the default encoding. */
  function DecodeTerrainRgb(p: Rgb): (h: real)
    ensures -TargetOffset <= h
  {
    Unsigned24(p) as real * TargetStep - TargetOffset
  }

  /** The clamped height always lies in [MIN_ELEVATION_M, MAX_ELEVATION_M],
      and for r < 128 the unclamped height is u * 0.01 m. */
  lemma ClampedHeightInRange(p: Rgb)
    ensures MinElevationM <= ClampHeight(DecodeHeight(p)) <= MaxElevationM
    ensures p.r < 128 ==> DecodeHeight(p) == Unsigned24(p) as real * SourceStep
  {
  }

  /** The clamped height in metres is the clamped code in centimetres; the
      sentinel test and the clamps agree with the plain integer clamp. */
  lemma {:induction false} ClampedHeightIsCode(p: Rgb)
    ensures ClampHeight(DecodeHeight(p)) == ClampedCode(p) as real / 100.0
  {
  }

  /** The encoded value lies in [100000, 140000], so the 24-bit clamp never
      changes it. */
  lemma {:induction false} EncodedInRange(p: Rgb)
    ensures 100000.0 <= EncodeValue(ClampHeight(DecodeHeight(p))) <= 140000.0
    ensures ClampU24(EncodeValue(ClampHeight(DecodeHeight(p)))) == EncodeValue(ClampHeight(DecodeHeight(p)))
  {
    ClampedHeightInRange(p);
  }

  /** The source's stages, run on exact numbers, write the reference pixel. */
  lemma {:induction false} StagesMatchReference(p: Rgb)
    ensures EncodeValue(ClampHeight(DecodeHeight(p))).Floor == TerrainValue(p)
    ensures Channels(ClampU24(EncodeValue(ClampHeight(DecodeHeight(p))))) == TranscodePixel(p)
  {
    var c := ClampedCode(p);
    ClampedHeightIsCode(p);
    var v := EncodeValue(ClampHeight(DecodeHeight(p)));
    assert v == c as real / 10.0 + 100000.0;
    EncodedInRange(p);
    FloorDiv(c as real, 10);
    assert (c as real).Floor == c;
    assert v.Floor == c / 10 + 100000;
    Unsigned24Injective(Channels(v), TranscodePixel(p));
  }

  /** Distinct pixels carry distinct 24-bit values: the digit split is unique. */
  lemma Unsigned24Injective(p: Rgb, q: Rgb)
    requires Unsigned24(p) == Unsigned24(q)
    ensures p == q
  {
    assert p.r == Unsigned24(p) / 65536 && q.r == Unsigned24(q) / 65536;
    assert p.g == Unsigned24(p) % 65536 / 256 && q.g == Unsigned24(q) % 65536 / 256;
  }

  /** Reading back the pixel q written for p gives the clamped height
      rounded down to the 0.1 m step: at most the height and within 0.1 m
      of it. */
  lemma {:induction false} TargetRoundTrip(p: Rgb, q: Rgb)
    requires q == TranscodePixel(p)
    ensures ClampHeight(DecodeHeight(p)) - TargetStep < DecodeTerrainRgb(q)
    ensures DecodeTerrainRgb(q) <= ClampHeight(DecodeHeight(p))
  {
    var c := ClampedCode(p);
    ClampedHeightIsCode(p);
    assert c == 10 * (c / 10) + c % 10;
    assert DecodeTerrainRgb(q) == (c / 10) as real / 10.0;
  }

  /** The no-data pixel decodes to exactly MIN_ELEVATION_M and is written as
      the Terrain-RGB value 100000, i.e. channels (1, 134, 160). */
  lemma {:induction false} NoDataPixel()
    ensures DecodeHeight(NoData) == MinElevationM
    ensures Unsigned24(TranscodePixel(NoData)) == 100000
    ensures TranscodePixel(NoData) == Rgb(1, 134, 160)
  {
    assert TerrainValue(NoData) == 100000;
  }

  /** Every pixel with r >= 128 decodes to u - 2^24, a negative height, which
      clamps to MIN_ELEVATION_M: the output is the no-data output. */
  lemma {:induction false} NegativeHalfLikeNoData(p: Rgb)
    requires p.r >= 128
    ensures SignedCode(p) == Unsigned24(p) - Span24 < 0
    ensures ClampHeight(DecodeHeight(p)) == MinElevationM
    ensures TranscodePixel(p) == TranscodePixel(NoData)
  {
    ClampedHeightIsCode(p);
  }

  /** The sentinel test is not needed for the output: the general formula,
      applied to (128, 0, 0), also clamps to MIN_ELEVATION_M. */
  lemma NoDataBranchAgrees()
    ensures ClampHeight(SignedCode(NoData) as real * SourceStep) == ClampHeight(DecodeHeight(NoData))
  {
  }

  /** Heights at or above MAX_ELEVATION_M all encode like MAX_ELEVATION_M,
      the Terrain-RGB value 140000, i.e. channels (2, 34, 224). */
  lemma {:induction false} SaturatesAtMax(p: Rgb)
    requires DecodeHeight(p) >= MaxElevationM
    ensures Unsigned24(TranscodePixel(p)) == 140000
    ensures TranscodePixel(p) == Rgb(2, 34, 224)
  {
    ClampedHeightIsCode(p);
    assert TerrainValue(p) == 140000;
  }

  /** Worked example: (100, 10, 5) has u = 6556165, i.e. 65561.65 m, which
      clamps to 4000 m. */
  lemma {:induction false} ExamplePixel()
    ensures Unsigned24(Rgb(100, 10, 5)) == 6556165
    ensures TranscodePixel(Rgb(100, 10, 5)) == Rgb(2, 34, 224)
  {
    SaturatesAtMax(Rgb(100, 10, 5));
  }

  /** The transcoder preserves the order of heights: a higher decoded height
      never yields a lower Terrain-RGB height. */
  lemma {:induction false} TranscodeMonotone(p: Rgb, q: Rgb)
    requires DecodeHeight(p) <= DecodeHeight(q)
    ensures Unsigned24(TranscodePixel(p)) <= Unsigned24(TranscodePixel(q))
    ensures DecodeTerrainRgb(TranscodePixel(p)) <= DecodeTerrainRgb(TranscodePixel(q))
  {
    ClampedHeightIsCode(p);
    ClampedHeightIsCode(q);
    assert ClampedCode(p) <= ClampedCode(q);
  }

  /** The body of the stride-4 loop as the source writes it, on one pixel's
      channels: `h` and `valEncoded` are reassigned step by step. */
  method TranscodeOne(r: Byte, g: Byte, b: Byte) returns (r': Byte, g': Byte, b': Byte)
    ensures Rgb(r', g', b') == TranscodePixel(Rgb(r, g, b))
  {
    var h: real := 0.0;
    if r == 128 && g == 0 && b == 0 {
      h := MinElevationM;
    } else {
      var u := r * 256 * 256 + g * 256 + b;
      h := (if r < 128 then u else u - Span24) as real * SourceStep;
    }
    assert h == DecodeHeight(Rgb(r, g, b));
    h := MinR(MaxR(h, MinElevationM), MaxElevationM);

    var valEncoded := (h + TargetOffset) / TargetStep;
    valEncoded := MinR(MaxR(valEncoded, 0.0), Max24 as real);

    ghost var q := Channels(valEncoded);
    r' := (valEncoded / 65536.0).Floor;
    g' := (JsRem(valEncoded, 65536.0) / 256.0).Floor;
    b' := JsRem(valEncoded, 256.0).Floor;
    assert Rgb(r', g', b') == q;
    StagesMatchReference(Rgb(r, g, b));
  }
}
