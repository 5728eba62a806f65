# GSI DEM tile transcoder for MapLibre terrain

This project models the `gsidem` protocol handler of a MapLibre GL JS web map
(`main.js`). The handler fetches an elevation tile of the Geospatial
Information Authority of Japan (GSI) from its `dem_png` endpoint. It then
rewrites every pixel of the tile's RGBA buffer in place, from the GSI
DEM-PNG elevation code into the Terrain-RGB encoding that MapLibre's
`raster-dem` sources use by default (offset 10000 m, step 0.1 m).

The model has three modules:

- `DemPixel` (`dem_pixel.dfy`) covers one pixel. `SignedCode` reads the GSI
  code: the 24-bit value `r·65536 + g·256 + b`, minus 2^24 when `r >= 128`.
  `DecodeHeight` turns it into metres, and the no-data pixel `(128, 0, 0)`
  gives 0 m. `ClampHeight` clamps to [0, 4000] m. `EncodeValue` computes
  `(h + 10000) / 0.1`, `ClampU24` clamps that to 24 bits, and `Channels`
  splits it into R, G and B the way the source does with `Math.floor` and
  `%`. These are the source's stages on exact reals.
  `TranscodePixel` is the specification of one pixel, on integers:
  `TerrainValue` works in centimetres and gives `100000 + min(max(code, 0),
  400000) div 10`, and `Digits` writes that value as three base-256 digits.
  `StagesMatchReference` proves that the real-valued stages produce exactly
  this pixel. `TranscodeOne` is the loop body as the source writes it, with
  `h` and `valEncoded` reassigned step by step, and it is proved to write
  `TranscodePixel` of its input. `DecodeTerrainRgb` is MapLibre's reading of
  the output pixel.
- `DemBuffer` (`dem_buffer.dfy`) covers the stride-4 loop over the ImageData
  buffer. `MapPixels` is the whole-buffer rewrite for any per-pixel function,
  and `TranscodeBuffer` is `MapPixels` with `TranscodePixel`. `MapInPlace` is
  the in-place loop over an `array` of bytes, proved to leave `MapPixels` of
  the old contents. `TranscodeInPlace` is that loop with `TranscodePixel`.
- `GsiDemProtocol` (`gsidem_protocol.dfy`) covers the handler. `RewriteUrl`
  replaces a leading `gsidem://` with the GSI endpoint. `HandleTile` gives
  the single answer the handler's callback receives: the transcoded tile, or
  one of its four error messages.

Arithmetic is exact. Heights and encoded values are Dafny `real`s, that is
rationals. `Math.floor` is `.Floor`, and JavaScript's `%` is the truncating
remainder `JsRem`. Bytes are the subset type `Byte` (0..255), so each channel
written is proved to fit in a byte.

## Model

| member | source | states |
|---|---|---|
| `DemPixel.Unsigned24` | main.js:31 | `u = r·65536 + g·256 + b` lies in the unsigned 24-bit range [0, 16777215] |
| `DemPixel.SignedCode` | main.js:31-32 | the code lies in [-2^23, 2^23); it is negative exactly when `r >= 128`; it is `u` read as a 24-bit two's-complement number (adding 2^24 mod 2^24 gives `u` back) |
| `DemPixel.DecodeHeight` | main.js:27-33 | the no-data pixel (128,0,0) gives exactly MIN_ELEVATION_M; any other pixel gives code/100 m; the height is negative exactly for `r >= 128` pixels other than the sentinel |
| `DemPixel.ClampHeight` | main.js:34 | the result lies in [0, 4000]; heights inside the range are unchanged; heights at or below 0 give 0; heights at or above 4000 give 4000 |
| `DemPixel.EncodeValue` | main.js:36 | `v·0.1 − 10000` gives the height back, so `v` is the Terrain-RGB value of the height before flooring |
| `DemPixel.ClampU24` | main.js:37 | the result lies in [0, 16777215]; values already in that range are unchanged; values at or below 0 give 0; values at or above 16777215 give 16777215 |
| `DemPixel.RealProduct` | main.js:39-40 | (helper for `FloorDiv`) a product of integers is the same as an integer and as a real |
| `DemPixel.DivideBounds` | main.js:39-40 | (helper for `FloorDiv`) dividing a real by a positive divisor keeps it between the bounds divided by it |
| `DemPixel.FloorDiv` | main.js:39-40 | for `v >= 0`, `Math.floor(v / m)` is the integer quotient of `Math.floor(v)` by `m` |
| `DemPixel.JsRemFloor` | main.js:40-41 | for `v >= 0`, JavaScript's `v % m` is non-negative and its floor is `Math.floor(v)` mod `m` |
| `DemPixel.ChannelDigits` | main.js:39-41 | the three expressions written into R, G and B are the quotient by 65536, the middle byte and the low byte of `Math.floor(v)` |
| `DemPixel.Channels` | main.js:39-41 | the three bytes written are the base-256 digits of `Math.floor(v)`, R most significant, and read back as a 24-bit value they give `Math.floor(v)` |
| `DemPixel.Digits` | main.js:39-41 | the three base-256 digits of a 24-bit value read back as that value |
| `DemPixel.ClampedCode` | main.js:34 | the reference clamp of the code (in centimetres) lies in [0, 400000] |
| `DemPixel.TerrainValue` | main.js:34-37 | the reference Terrain-RGB value lies in [100000, 140000] |
| `DemPixel.DecodeTerrainRgb` | main.js:70-76 | the terrain source declares no encoding, so MapLibre reads a pixel as `value·0.1 − 10000` m, which is never below −10000 m |
| `DemPixel.ClampedHeightInRange` | main.js:27-34 | the clamped height always lies in [0, 4000] m, and for `r < 128` the height before clamping is `u·0.01` m |
| `DemPixel.ClampedHeightIsCode` | main.js:27-34 | the clamped height in metres is the clamped code in centimetres divided by 100 |
| `DemPixel.EncodedInRange` | main.js:36-37 | the encoded value of a clamped height lies in [100000, 140000], so the 24-bit clamp never changes it |
| `DemPixel.StagesMatchReference` | main.js:26-41 | the source's stages (decode, clamp, encode, clamp, split) floor to the integer reference value and write exactly `TranscodePixel` |
| `DemPixel.Unsigned24Injective` | main.js:39-41 | the digit split is unique: two pixels with the same 24-bit value are the same pixel |
| `DemPixel.TargetRoundTrip` | main.js:34-41 | MapLibre's reading of the transcoded pixel is at most the clamped height and more than the clamped height minus 0.1 m |
| `DemPixel.NoDataPixel` | main.js:28-29 | the sentinel (128,0,0) decodes to exactly MIN_ELEVATION_M; its output value is 100000 and its output pixel is (1,134,160) |
| `DemPixel.NegativeHalfLikeNoData` | main.js:31-34 | every pixel with `r >= 128` has code `u − 16777216 < 0`, clamps to 0 m and gives the same output pixel as the sentinel |
| `DemPixel.NoDataBranchAgrees` | main.js:28-34 | the general formula applied to the sentinel also clamps to MIN_ELEVATION_M, so the sentinel test does not change the output |
| `DemPixel.SaturatesAtMax` | main.js:34-41 | every height at or above MAX_ELEVATION_M gives value 140000, i.e. pixel (2,34,224): the clamp saturates |
| `DemPixel.ExamplePixel` | main.js:31-41 | (100,10,5) has `u = 6556165` (65561.65 m) and gives (2,34,224) |
| `DemPixel.TranscodeMonotone` | main.js:34-41 | a higher decoded height never gives a lower output value or a lower height as MapLibre reads it |
| `DemPixel.TranscodeOne` | main.js:26-41 | the loop body, with `h` and `valEncoded` reassigned as in the source, writes exactly `TranscodePixel` of the pixel it reads |
| `DemBuffer.MapPixels` | main.js:25-42 | a per-pixel rewrite of a buffer of whole RGBA pixels keeps the buffer length |
| `DemBuffer.MapPixelsAt` | main.js:25-42 | channel `j` of output pixel `n` depends only on input pixel `n`: a channel of its rewritten RGB for R, G, B, and its own byte for alpha |
| `DemBuffer.PixelMapped` | main.js:25-42 | output pixel `n` is the rewritten RGB of input pixel `n`, and its alpha byte is the input's |
| `DemBuffer.LoopStep` | main.js:25-42 | one turn of the loop, writing the rewritten RGB of pixel `n` over bytes `4n..4n+2`, extends the finished prefix by one pixel and leaves the rest of the buffer as it was |
| `DemBuffer.AlphaUnchanged` | main.js:25-42 | transcoding keeps the buffer length and the alpha byte `data[4n+3]` of every pixel `n` |
| `DemBuffer.PixelTranscoded` | main.js:26-41 | output pixel `n` is `TranscodePixel` of input pixel `n`'s R, G, B |
| `DemBuffer.PixelLocal` | main.js:25-42 | two buffers that agree on one pixel's R, G, B agree on that pixel's output RGB, whatever their other pixels hold |
| `DemBuffer.BufferRoundTrip` | main.js:25-42 | every output pixel, read by MapLibre, is within 0.1 m below the clamped height of the input pixel |
| `DemBuffer.MapInPlace` | main.js:25-42 | the in-place stride-4 loop leaves the array equal to `MapPixels` of its old contents |
| `DemBuffer.TranscodeInPlace` | main.js:25-42 | the transcoding loop leaves the array equal to `TranscodeBuffer` of its old contents |
| `GsiDemProtocol.RewriteUrl` | main.js:58-61 | a URL starting with `gsidem://` becomes the GSI endpoint followed by the rest of the URL; any other URL is unchanged |
| `GsiDemProtocol.RewriteTileUrl` | main.js:61-62 | a tile URL `gsidem://<path>` is fetched from the GSI `dem_png` endpoint with the same path |
| `GsiDemProtocol.RewriteInvertible` | main.js:61 | putting `gsidem://` back before the rewritten path restores the requested URL |
| `GsiDemProtocol.RewriteIdempotent` | main.js:58 | rewriting twice is rewriting once: the result never starts with `gsidem://` |
| `GsiDemProtocol.HandleTile` | main.js:4-63 | the fetched URL is the rewritten one; a load error answers with the message ending in that same URL; a missing 2D context, a failed `toBlob` and a FileReader error answer with their messages; otherwise the answer is the transcoded buffer |

## Left out

- IEEE-754 rounding of `u * 0.01` and `(h + 10000.0) / 0.1` is not modelled. The contracts use exact rational arithmetic. With doubles, `valEncoded` can land just below an integer, so `Math.floor` may give one less than the exact value.
- The canvas pipeline is not modelled: `Image`, `drawImage`, `getImageData`, `putImageData`, `toBlob` and `FileReader`. `HandleTile` takes the decoded RGBA buffer and the success or failure of each step as parameters. The PNG encoding of the answer is left out, so the answer carries the raw pixel bytes. Canvas premultiplied-alpha effects are left out too.
- The asynchronous callbacks are not modelled. The handler's "answers exactly once" behaviour shows only as `HandleTile` returning one answer.
- The `cancel` handle (`image.src = ''`, main.js:63) is left out. It only aborts a network fetch.
- The loop in `MapInPlace` calls the per-pixel rewrite as a function. The statement-by-statement body, with `h` and `valEncoded` reassigned, is `TranscodeOne`, which is proved to compute that function. The two are kept apart to keep the loop's proof small.
- Tile width and height are not modelled separately. The buffer length, a multiple of 4, stands for `width·height·4`.
- Writes into the `Uint8ClampedArray` would clamp out-of-range values. This is not modelled, because every value written is proved to be a byte.
- The map setup is left out: styles, sources, controls, the `idle` and `styledata` retry, the radio-button listeners (main.js:66-157) and `js/map.js`. It is configuration glue over MapLibre with no logic of its own.

## Notes

The no-data pixel is written as (1,134,160), since
`100000 = 1·65536 + 134·256 + 160`, and (100,10,5) as (2,34,224), since
`140000 = 2·65536 + 34·256 + 224`; `NoDataPixel` and `ExamplePixel` prove
both.
