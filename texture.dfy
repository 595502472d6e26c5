/** The texture loader (`loadTexture`, identical in both programs) and the
    white fallback texel used when a material has no diffuse texture.

    The image decoder (SOIL) is an input: its answer for a path is either a
    decoded image with its channel count, or failure.  A texture is described
    by what the loader gives the GPU, not by the GL handle. */
module Textures {
  import opened Wrappers

  /** The GL pixel formats the loader chooses from. */
  datatype PixelFormat = Red | Rgb | Rgba

  /** A decoded image as `SOIL_load_image` returns it. */
  datatype Image = Image(width: int, height: int, channels: int, pixels: seq<bv8>)

  /** Texture parameters: `RepeatTrilinear` is repeat wrapping on both axes
      with trilinear minification and linear magnification, as `loadTexture`
      sets; `GlDefaults` means none were set. */
  datatype Sampling = GlDefaults | RepeatTrilinear

  /** The storage given to a texture object by `glTexImage2D` (followed in
      every case by `glGenerateMipmap`).  `format` is `None` when the
      channel count left the format variable uninitialised. */
  datatype Storage = Storage(format: Option<PixelFormat>, width: int, height: int,
                             pixels: seq<bv8>, sampling: Sampling)

  /** A texture object: the file it was loaded from (`None` for a texture
      built in memory) and its storage (`None` when nothing was uploaded). */
  datatype Texture = Texture(path: Option<string>, storage: Option<Storage>)

  /** Components per pixel of a format. */
  function Channels(f: PixelFormat): nat
  {
    match f
    case Red => 1
    case Rgb => 3
    case Rgba => 4
  }

  /** The format chosen for a channel count: the one with that many channels,
      and none for any count other than 1, 3 or 4. */
  function FormatFor(channels: int): (r: Option<PixelFormat>)
    ensures r.Some? <==> channels == 1 || channels == 3 || channels == 4
    ensures r.Some? ==> Channels(r.value) == channels
  {
    if channels == 1 then Some(Red)
    else if channels == 3 then Some(Rgb)
    else if channels == 4 then Some(Rgba)
    else None
  }

  /** Every format is chosen for its own channel count, and only for it. */
  lemma FormatRoundTrip(f: PixelFormat, channels: int)
    ensures FormatFor(Channels(f)) == Some(f)
    ensures FormatFor(channels) == Some(f) <==> channels == Channels(f)
  {
  }

  /** `loadTexture(path)`: one texture object per call; on a decoded image
      its pixels are uploaded with the format chosen from the channel count
      and the repeat/trilinear parameters; on failure the object is left
      without storage. */
  function LoadTexture(path: string, decoded: Option<Image>): (t: Texture)
    ensures t.path == Some(path)
    ensures t.storage.None? <==> decoded.None?
    ensures decoded.Some? ==>
              && t.storage.value.format == FormatFor(decoded.value.channels)
              && t.storage.value.width == decoded.value.width
              && t.storage.value.height == decoded.value.height
              && t.storage.value.pixels == decoded.value.pixels
              && t.storage.value.sampling == RepeatTrilinear
  {
    match decoded
    case None => Texture(Some(path), None)
    case Some(img) =>
      Texture(Some(path), Some(Storage(FormatFor(img.channels), img.width, img.height, img.pixels, RepeatTrilinear)))
  }

  /** The in-memory fallback: a 1x1 RGBA texture holding `{255, 255, 255, 255}`,
      uploaded without setting texture parameters. */
  function WhiteTexture(): Texture
  {
    Texture(None, Some(Storage(Some(Rgba), 1, 1, [255, 255, 255, 255], GlDefaults)))
  }

  /** The fallback is one opaque white pixel: its storage holds exactly
      width * height * channels bytes, all of them 255. */
  lemma WhiteTextureIsOpaqueWhite()
    ensures WhiteTexture().path.None?
    ensures WhiteTexture().storage.Some?
    ensures var s := WhiteTexture().storage.value;
              && s.format == Some(Rgba) && s.width == 1 && s.height == 1 && s.sampling == GlDefaults
              && |s.pixels| == s.width * s.height * Channels(s.format.value)
              && forall i :: 0 <= i < |s.pixels| ==> s.pixels[i] == 255
  {
  }
}
