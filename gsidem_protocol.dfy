/** The `gsidem` protocol handler registered with `maplibregl.addProtocol`:
    it rewrites the custom scheme to the GSI tile endpoint, and on a loaded
    image transcodes the pixels and answers with them, or answers with one
    of the handler's errors. */
module GsiDemProtocol {
  import opened DemPixel
  import opened DemBuffer

  const Scheme: string := "gsidem://"
  /** The GSI elevation tile endpoint the scheme stands for. */
  const GsiHost: string := "cyberjapandata.gsi.go.jp"
  const Endpoint: string := "https://" + GsiHost + "/xyz/dem_png/"

  /** `url.replace(/^gsidem:\/\//, endpoint)`: the regular expression is
      anchored, so only a leading `gsidem://` is replaced. */
  function RewriteUrl(url: string): (r: string)
    ensures Scheme <= url ==> Endpoint <= r && r[|Endpoint|..] == url[|Scheme|..]
    ensures !(Scheme <= url) ==> r == url
  {
    if Scheme <= url then Endpoint + url[|Scheme|..] else url
  }

  /** A tile URL built from the source's template `gsidem://{z}/{x}/{y}.png`
      is fetched from the GSI `dem_png` endpoint with the same tile path. */
  lemma {:induction false} RewriteTileUrl(path: string)
    ensures RewriteUrl(Scheme + path) == Endpoint + path
  {
    assert Scheme <= Scheme + path;
    assert (Scheme + path)[|Scheme|..] == path;
  }

  /** Putting the scheme back in front of the rewritten tile path restores
      the requested URL: the rewrite loses nothing. */
  lemma {:induction false} RewriteInvertible(url: string)
    requires Scheme <= url
    ensures Scheme + RewriteUrl(url)[|Endpoint|..] == url
  {
    assert url == Scheme + url[|Scheme|..];
  }

  /** The rewritten URL never starts with the custom scheme, so rewriting
      again changes nothing. */
  lemma {:induction false} RewriteIdempotent(url: string)
    ensures !(Scheme <= RewriteUrl(url))
    ensures RewriteUrl(RewriteUrl(url)) == RewriteUrl(url)
  {
    if Scheme <= url {
      var r := RewriteUrl(url);
      assert r == Endpoint + url[|Scheme|..];
      assert Endpoint[0] == 'h' && Scheme[0] == 'g';
      assert r[0] == Endpoint[0];
    }
  }

  /** What the browser reports for the tile image request. */
  datatype ImageLoad = LoadFailed | Loaded(pixels: seq<Byte>)

  /** The one answer the handler gives through its callback. */
  datatype TileAnswer = TileData(bytes: seq<Byte>) | TileError(message: string)

  const LoadErrorPrefix: string := "Could not load image for terrain tile at "
  const ContextErrorMessage: string := "Failed to get 2D context from canvas."
  const BlobErrorMessage: string := "Canvas to Blob failed."
  const ReaderErrorMessage: string := "FileReader error."

  /** One request to the handler. `load` is the outcome of fetching `src`;
      `hasContext`, `blobMade` and `readerOk` are the outcomes of getting the
      canvas 2D context, of `toBlob` and of the FileReader. The answer carries
      the transcoded buffer only when every step succeeded. */
  method HandleTile(url: string, load: ImageLoad, hasContext: bool, blobMade: bool, readerOk: bool)
    returns (src: string, answer: TileAnswer)
    requires load.Loaded? ==> |load.pixels| % 4 == 0
    ensures src == RewriteUrl(url)
    ensures load.LoadFailed? ==> answer == TileError(LoadErrorPrefix + src)
    ensures load.Loaded? && !hasContext ==> answer == TileError(ContextErrorMessage)
    ensures load.Loaded? && hasContext && !blobMade ==> answer == TileError(BlobErrorMessage)
    ensures load.Loaded? && hasContext && blobMade && !readerOk ==> answer == TileError(ReaderErrorMessage)
    ensures load.Loaded? && hasContext && blobMade && readerOk ==>
              answer == TileData(TranscodeBuffer(load.pixels))
  {
    src := RewriteUrl(url);
    if load.LoadFailed? {
      var actualUrl := RewriteUrl(url);
      answer := TileError(LoadErrorPrefix + actualUrl);
    } else if !hasContext {
      answer := TileError(ContextErrorMessage);
    } else {
      var pixels := load.pixels;
      var data := new Byte[|pixels|](k requires 0 <= k < |pixels| => pixels[k]);
      assert data[..] == pixels;
      TranscodeInPlace(data);
      if !blobMade {
        answer := TileError(BlobErrorMessage);
      } else if !readerOk {
        answer := TileError(ReaderErrorMessage);
      } else {
        answer := TileData(data[..]);
      }
    }
  }
}
