/** Textures as the renderer creates them, and the decoded images they are
    created from (render3d.h:61-93, render3d.cpp:1434-1514). Decoding is
    outside the model: a decoded image is a `Frame`. */
module Textures {
  import opened Base
  import opened Gl

  datatype TextureFormat = RGB | RGBA

  /** A texture (render3d.h:87-91); `glName` is the GL texture name. */
  datatype Texture = Texture(glName: nat, width: int, height: int, format: TextureFormat, kind: TextureKind)

  /** A default-constructed texture: name 0, 0x0, RGBA, 2D. */
  const DefaultTexture := Texture(0, 0, 0, RGBA, Texture2D)

  /** The pixel layouts a decoded frame can report; only the two four-byte
      layouts with alpha matter to the model. */
  datatype PixelFormat = SRGBA | SBGRA | OtherPixels

  /** A decoded frame: `stride` bytes per row, rows top to bottom. */
  datatype Image = Image(width: nat, height: nat, stride: nat, format: PixelFormat, pixels: seq<bv8>)

  /** The byte the translucency scan reads for the pixel at (row, col):
      the fourth byte of the pixel (render3d.cpp:1485-1489). */
  function AlphaIndex(img: Image, row: nat, col: nat): nat
  {
    row * img.stride + col * 4 + 3
  }

  /** Every alpha byte the scan may read lies inside the pixel buffer, as
      it does for any frame the decoder returns. */
  predicate AlphaReadable(img: Image)
  {
    forall row: nat, col: nat :: row < img.height && col < img.width ==> AlphaIndex(img, row, col) < |img.pixels|
  }

  type Frame = img: Image | AlphaReadable(img) witness Image(0, 0, 0, SRGBA, [])

  /** Alpha strictly between 0 and 255. */
  predicate PartialAlpha(a: bv8)
  {
    0 < a < 255
  }

  /** The frame has a pixel whose alpha is neither opaque nor clear. */
  predicate HasPartialAlpha(img: Frame)
  {
    exists row: nat, col: nat :: row < img.height && col < img.width && PartialAlpha(img.pixels[AlphaIndex(img, row, col)])
  }

  /** The inner loop: columns col.. of one row, stopping at the first
      partial alpha. */
  function ScanRow(img: Frame, row: nat, col: nat): (found: bool)
    requires row < img.height && col <= img.width
    ensures found <==> exists c: nat :: col <= c < img.width && PartialAlpha(img.pixels[AlphaIndex(img, row, c)])
    decreases img.width - col
  {
    if col == img.width then false
    else if PartialAlpha(img.pixels[AlphaIndex(img, row, col)]) then true
    else ScanRow(img, row, col + 1)
  }

  /** The outer loop: rows row.. of the frame. */
  function ScanRows(img: Frame, row: nat): (found: bool)
    requires row <= img.height
    ensures found <==> exists r: nat, c: nat :: row <= r < img.height && c < img.width
                                                 && PartialAlpha(img.pixels[AlphaIndex(img, r, c)])
    decreases img.height - row
  {
    if row == img.height then false
    else if ScanRow(img, row, 0) then true
    else ScanRows(img, row + 1)
  }

  /** What the scan reports for a frame: only four-byte layouts with alpha
      are scanned, and the answer is whether some pixel is partially
      transparent (render3d.cpp:1472-1505). */
  function ScanTranslucent(img: Frame): (translucent: bool)
    ensures translucent <==> (img.format == SRGBA || img.format == SBGRA) && HasPartialAlpha(img)
  {
    (img.format == SRGBA || img.format == SBGRA) && ScanRows(img, 0)
  }
}
