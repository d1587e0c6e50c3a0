/** Raster images as the generator sees them: a mode, a size and a grid of
    8-bit pixels indexed `[x][y]`, one channel per band of the mode. */
module Raster {
  import opened Failures

  /** The 8-bit image modes a layer file can decode to. */
  datatype Mode = Bilevel | L | P | LA | PA | RGB | YCbCr | RGBA | CMYK

  /** The number of bands `split()` yields for an image of this mode. */
  function Bands(m: Mode): (n: nat)
    ensures 1 <= n <= 4
  {
    match m
    case Bilevel => 1
    case L => 1
    case P => 1
    case LA => 2
    case PA => 2
    case RGB => 3
    case YCbCr => 3
    case RGBA => 4
    case CMYK => 4
  }

  predicate ValidPixel(p: seq<int>, bands: nat)
  {
    |p| == bands && forall k | 0 <= k < |p| :: 0 <= p[k] <= 255
  }

  datatype Image = Image(mode: Mode, width: nat, height: nat, pixels: seq<seq<seq<int>>>)

  /** The grid has `width` columns of `height` pixels, each with one 8-bit value per band. */
  predicate Wf(img: Image)
  {
    && |img.pixels| == img.width
    && (forall x | 0 <= x < img.width :: |img.pixels[x]| == img.height)
    && (forall x, y | 0 <= x < img.width && 0 <= y < img.height ::
          ValidPixel(img.pixels[x][y], Bands(img.mode)))
  }

  type Raster = img: Image | Wf(img) witness Image(L, 0, 0, [])

  /** Band `k` of a multi-band `img` as a one-band L image, as `split()` returns it. */
  function Band(img: Raster, k: nat): (band: Raster)
    requires 2 <= Bands(img.mode) && k < Bands(img.mode)
    ensures band.mode == L && band.width == img.width && band.height == img.height
    ensures forall x, y | 0 <= x < img.width && 0 <= y < img.height ::
              band.pixels[x][y] == [img.pixels[x][y][k]]
  {
    var grid := seq(img.width, x requires 0 <= x < img.width =>
                  seq(img.height, y requires 0 <= y < img.height => [img.pixels[x][y][k]]));
    Image(L, img.width, img.height, grid)
  }

  /** The alpha mask of a layer: the second of two bands or the fourth of four;
      images with one or three bands have none. */
  function AlphaBand(img: Raster): (alpha: Option<Raster>)
    ensures alpha.Some? <==> Bands(img.mode) == 2 || Bands(img.mode) == 4
    ensures alpha.Some? ==> alpha.value == Band(img, Bands(img.mode) - 1)
  {
    var bands := Bands(img.mode);
    if bands == 2 then Some(Band(img, 1))
    else if bands == 4 then Some(Band(img, 3))
    else None
  }
}
