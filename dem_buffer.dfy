/** The ImageData buffer of a tile: RGBA bytes, four per pixel, which the
    protocol handler rewrites in place with a stride-4 loop. Pixel number n
    occupies bytes 4n (R), 4n + 1 (G), 4n + 2 (B) and 4n + 3 (alpha). */
module DemBuffer {
  import opened DemPixel

  /** The RGB part of the pixel whose red byte is at index i. */
  function PixelAt(s: seq<Byte>, i: int): Rgb
    requires 0 <= i && i + 2 < |s|
  {
    Rgb(s[i], s[i + 1], s[i + 2])
  }

  /** The buffer with f applied to every pixel's RGB, pixel by pixel from the
      front, and every alpha byte copied. */
  function MapPixels(s: seq<Byte>, f: Rgb -> Rgb): (t: seq<Byte>)
    requires |s| % 4 == 0
    ensures |t| == |s|
    decreases |s|
  {
    if s == [] then []
    else
      var q := f(PixelAt(s, 0));
      [q.r, q.g, q.b, s[3]] + MapPixels(s[4..], f)
  }

  /** The buffer after the transcoding loop. */
  function TranscodeBuffer(s: seq<Byte>): seq<Byte>
    requires |s| % 4 == 0
  {
    MapPixels(s, TranscodePixel)
  }

  /** Channel j of output pixel n, computed from the bytes of pixel n only. */
  function OutByte(s: seq<Byte>, f: Rgb -> Rgb, n: nat, j: int): Byte
    requires 0 <= j < 4 && 4 * n + 4 <= |s|
  {
    var q := f(PixelAt(s, 4 * n));
    if j == 0 then q.r
    else if j == 1 then q.g
    else if j == 2 then q.b
    else s[4 * n + 3]
  }

  /** Every byte of the whole-buffer rewrite is the pixel-local one. */
  lemma {:induction false} MapPixelsAt(s: seq<Byte>, f: Rgb -> Rgb, n: nat, j: int)
    requires |s| % 4 == 0 && 0 <= j < 4 && 4 * n + 4 <= |s|
    ensures MapPixels(s, f)[4 * n + j] == OutByte(s, f, n, j)
  {
    if n > 0 {
      MapPixelsAt(s[4..], f, n - 1, j);
      assert PixelAt(s[4..], 4 * (n - 1)) == PixelAt(s, 4 * n);
    }
  }

  /** One turn of the stride-4 loop: writing f of input pixel n over bytes
      4n .. 4n + 2 extends the finished prefix by one pixel. */
  lemma {:induction false} LoopStep(input: seq<Byte>, f: Rgb -> Rgb, before: seq<Byte>, after: seq<Byte>, n: nat, q: Rgb)
    requires |input| % 4 == 0 && 4 * n + 4 <= |input| && |before| == |input|
    requires before[..4 * n] == MapPixels(input, f)[..4 * n] && before[4 * n..] == input[4 * n..]
    requires q == f(PixelAt(input, 4 * n))
    requires after == before[4 * n := q.r][4 * n + 1 := q.g][4 * n + 2 := q.b]
    ensures after[..4 * n + 4] == MapPixels(input, f)[..4 * n + 4]
    ensures after[4 * n + 4..] == input[4 * n + 4..]
  {
    var m := MapPixels(input, f);
    PixelMapped(input, f, n);
    forall k | 0 <= k < 4 * n + 4
      ensures after[k] == m[k]
    {
      if k < 4 * n {
        assert after[k] == before[..4 * n][k] == m[..4 * n][k];
      } else if k == 4 * n + 3 {
        assert after[k] == before[4 * n..][3] == input[4 * n..][3];
      }
    }
    forall k | 4 * n + 4 <= k < |input|
      ensures after[k] == input[k]
    {
      assert after[k] == before[4 * n..][k - 4 * n];
    }
  }

  /** Output pixel n of MapPixels is f of input pixel n, and its alpha byte
      is the input's. */
  lemma {:induction false} PixelMapped(s: seq<Byte>, f: Rgb -> Rgb, n: nat)
    requires |s| % 4 == 0 && 4 * n + 4 <= |s|
    ensures PixelAt(MapPixels(s, f), 4 * n) == f(PixelAt(s, 4 * n))
    ensures MapPixels(s, f)[4 * n + 3] == s[4 * n + 3]
  {
    MapPixelsAt(s, f, n, 0);
    MapPixelsAt(s, f, n, 1);
    MapPixelsAt(s, f, n, 2);
    MapPixelsAt(s, f, n, 3);
  }

  /** The loop keeps the buffer's length and every alpha byte. */
  lemma {:induction false} AlphaUnchanged(s: seq<Byte>, n: nat)
    requires |s| % 4 == 0 && 4 * n + 4 <= |s|
    ensures |TranscodeBuffer(s)| == |s|
    ensures TranscodeBuffer(s)[4 * n + 3] == s[4 * n + 3]
  {
    PixelMapped(s, TranscodePixel, n);
  }

  /** Output pixel n is the transcoded RGB of input pixel n. */
  lemma {:induction false} PixelTranscoded(s: seq<Byte>, n: nat)
    requires |s| % 4 == 0 && 4 * n + 4 <= |s|
    ensures PixelAt(TranscodeBuffer(s), 4 * n) == TranscodePixel(PixelAt(s, 4 * n))
  {
    PixelMapped(s, TranscodePixel, n);
  }

  /** No cross-pixel dependency: two buffers whose pixel n has the same RGB
      get the same RGB at pixel n, whatever their other pixels hold. */
  lemma {:induction false} PixelLocal(s: seq<Byte>, t: seq<Byte>, n: nat)
    requires |s| % 4 == 0 && |t| % 4 == 0 && 4 * n + 4 <= |s| && 4 * n + 4 <= |t|
    requires PixelAt(s, 4 * n) == PixelAt(t, 4 * n)
    ensures PixelAt(TranscodeBuffer(s), 4 * n) == PixelAt(TranscodeBuffer(t), 4 * n)
  {
    PixelMapped(s, TranscodePixel, n);
    PixelMapped(t, TranscodePixel, n);
  }

  /** Every RGB triple the loop writes, read back by MapLibre, is the clamped
      GSI height of its input pixel rounded down to the 0.1 m step. */
  lemma {:induction false} BufferRoundTrip(s: seq<Byte>, n: nat)
    requires |s| % 4 == 0 && 4 * n + 4 <= |s|
    ensures ClampHeight(DecodeHeight(PixelAt(s, 4 * n))) - TargetStep < DecodeTerrainRgb(PixelAt(TranscodeBuffer(s), 4 * n))
    ensures DecodeTerrainRgb(PixelAt(TranscodeBuffer(s), 4 * n)) <= ClampHeight(DecodeHeight(PixelAt(s, 4 * n)))
  {
    var p, q := PixelAt(s, 4 * n), PixelAt(TranscodeBuffer(s), 4 * n);
    PixelTranscoded(s, n);
    TargetRoundTrip(p, q);
  }

  /** The stride-4 loop over `imageData.data`, with the per-pixel rewrite
      as a parameter: pixel by pixel, f of the pixel's R, G and B is written
      over bytes i, i + 1 and i + 2, and the alpha byte i + 3 is left alone. */
  method MapInPlace(data: array<Byte>, f: Rgb -> Rgb)
    requires data.Length % 4 == 0
    modifies data
    ensures data[..] == MapPixels(old(data[..]), f)
  {
    ghost var input := data[..];
    ghost var pixels := data.Length / 4;
    assert data.Length == 4 * pixels;
    var i := 0;
    ghost var done: nat := 0;
    while i < data.Length
      invariant done <= pixels && i == 4 * done
      invariant data[..i] == MapPixels(input, f)[..i]
      invariant data[i..] == input[i..]
    {
      ghost var before := data[..];
      assert before[i..][0] == input[i] && before[i..][1] == input[i + 1] && before[i..][2] == input[i + 2];
      var q := f(Rgb(data[i], data[i + 1], data[i + 2]));
      data[i], data[i + 1], data[i + 2] := q.r, q.g, q.b;
      assert data[..] == before[i := q.r][i + 1 := q.g][i + 2 := q.b];
      LoopStep(input, f, before, data[..], done, q);
      i, done := i + 4, done + 1;
    }
    assert data[..] == data[..i];
  }

  /** The transcoding loop of the handler: every pixel of the tile's RGBA
      buffer is rewritten in place from GSI DEM-PNG to Terrain-RGB. The
      per-pixel rewrite is `TranscodePixel`, which `TranscodeOne` (the loop
      body's statements) is proved to compute. */
  method TranscodeInPlace(data: array<Byte>)
    requires data.Length % 4 == 0
    modifies data
    ensures data[..] == TranscodeBuffer(old(data[..]))
  {
    MapInPlace(data, TranscodePixel);
  }
}
