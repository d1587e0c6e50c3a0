/** The two per-pixel alpha passes. Their Python names are swapped with
    respect to what they compute: `_remove_premultiplied_alpha` multiplies
    each colour channel by alpha, `_apply_premultiplied_alpha` divides it back
    out. The names below follow the arithmetic; the methods keep the Python names. */
module Alpha {
  import opened Failures
  import opened Raster

  /** Writing a channel value into an 8-bit image saturates it to 0..255. */
  function Clip8(v: int): (c: int)
    ensures 0 <= c <= 255
    ensures 0 <= v <= 255 ==> c == v
  {
    if v < 0 then 0 else if v > 255 then 255 else v
  }

  /** One colour channel of the premultiply pass: `(c * a) // 255`. */
  function Premultiply(c: int, a: int): int
  {
    c * a / 255
  }

  /** One colour channel of the unpremultiply pass: `c * 255 / a` rounded to
      nearest, and `c` itself where alpha is zero. */
  function Unpremultiply(c: int, a: int): int
  {
    if a > 0 then (c * 255 + a / 2) / a else c
  }

  function PremultiplyPixel(p: seq<int>): (q: seq<int>)
    requires ValidPixel(p, 4)
    ensures ValidPixel(q, 4)
  {
    [Clip8(Premultiply(p[0], p[3])), Clip8(Premultiply(p[1], p[3])), Clip8(Premultiply(p[2], p[3])), p[3]]
  }

  function UnpremultiplyPixel(p: seq<int>): (q: seq<int>)
    requires ValidPixel(p, 4)
    ensures ValidPixel(q, 4)
  {
    [Clip8(Unpremultiply(p[0], p[3])), Clip8(Unpremultiply(p[1], p[3])), Clip8(Unpremultiply(p[2], p[3])), p[3]]
  }

  /** The premultiply pass over a whole image; only RGBA images are accepted. */
  function Premultiplied(img: Raster): Result<Raster>
  {
    if img.mode != RGBA then Err(NotRgba)
    else
      var grid := seq(img.width, x requires 0 <= x < img.width =>
                    seq(img.height, y requires 0 <= y < img.height => PremultiplyPixel(img.pixels[x][y])));
      Ok(Image(RGBA, img.width, img.height, grid))
  }

  /** The unpremultiply pass over a whole image; only RGBA images are accepted. */
  function Unpremultiplied(img: Raster): Result<Raster>
  {
    if img.mode != RGBA then Err(NotRgba)
    else
      var grid := seq(img.width, x requires 0 <= x < img.width =>
                    seq(img.height, y requires 0 <= y < img.height => UnpremultiplyPixel(img.pixels[x][y])));
      Ok(Image(RGBA, img.width, img.height, grid))
  }

  /** Multiplying by a non-negative factor is monotonic. */
  lemma MulMonotonic(x: int, y: int, d: int)
    requires x <= y && 0 <= d
    ensures x * d <= y * d
  {
    assert y * d - x * d == (y - x) * d;
  }

  /** `n / d` is the unique `q` with `q * d <= n < (q + 1) * d`. */
  lemma DivisionIsUnique(n: int, d: int, q: int)
    requires d > 0 && q * d <= n < q * d + d
    ensures n / d == q
  {
    var r, m := n / d, n % d;
    assert n == r * d + m && 0 <= m < d;
    if r < q {
      assert (r + 1) * d == r * d + d;
      MulMonotonic(r + 1, q, d);
    } else if r > q {
      assert (q + 1) * d == q * d + d;
      MulMonotonic(q + 1, r, d);
    }
  }

  /** Premultiplying an 8-bit channel never raises it above the channel or
      the alpha; it is the identity at full alpha and zero at zero alpha. */
  lemma PremultiplyBounds(c: int, a: int)
    requires 0 <= c <= 255 && 0 <= a <= 255
    ensures 0 <= Premultiply(c, a) <= c
    ensures Premultiply(c, a) <= a
    ensures a == 255 ==> Premultiply(c, a) == c
    ensures a == 0 ==> Premultiply(c, a) == 0
  {
    var prod := c * a;
    MulMonotonic(0, c, a);
    MulMonotonic(a, 255, c);
    MulMonotonic(c, 255, a);
    assert prod <= 255 * c && prod <= 255 * a && 0 <= prod;
    var q, m := prod / 255, prod % 255;
    assert prod == 255 * q + m && 0 <= m < 255;
  }

  /** Unpremultiplying a channel that does not exceed its alpha stays within
      8 bits, so the store does not saturate it; at full alpha it is the identity. */
  lemma UnpremultiplyBounds(c: int, a: int)
    requires 0 < a <= 255 && 0 <= c <= a
    ensures 0 <= Unpremultiply(c, a) <= 255
    ensures a == 255 ==> Unpremultiply(c, a) == c
  {
    var n := c * 255 + a / 2;
    assert 0 <= n < 256 * a;
    var u, m := n / a, n % a;
    assert n == u * a + m && 0 <= m < a;
    if u > 255 {
      MulMonotonic(256, u, a);
    } else if u < 0 {
      MulMonotonic(u, -1, a);
    }
    if a == 255 {
      DivisionIsUnique(c * 255 + 127, 255, c);
    }
  }

  /** Premultiplying then unpremultiplying: never above the original channel,
      exact at full alpha, zero at zero alpha, and the loss times alpha stays
      below 255 + alpha, so small alphas lose the most. */
  lemma ChannelRoundTrip(c: int, a: int)
    requires 0 <= c <= 255 && 0 <= a <= 255
    ensures 0 <= Unpremultiply(Premultiply(c, a), a) <= c
    ensures a == 255 ==> Unpremultiply(Premultiply(c, a), a) == c
    ensures a == 0 ==> Unpremultiply(Premultiply(c, a), a) == 0
    ensures a > 0 ==> (c - Unpremultiply(Premultiply(c, a), a)) * a < 255 + a
  {
    PremultiplyBounds(c, a);
    var p := Premultiply(c, a);
    if a > 0 {
      UnpremultiplyBounds(p, a);
      var prod := c * a;
      var m := prod % 255;
      assert prod == 255 * p + m && 0 <= m < 255;
      var n := p * 255 + a / 2;
      var u, m2 := n / a, n % a;
      assert n == u * a + m2 && 0 <= m2 < a;
      assert u == Unpremultiply(p, a);
      if u > c {
        assert (c + 1) * a == prod + a;
        MulMonotonic(c + 1, u, a);
      }
      assert (c - u) * a == prod - u * a;
    }
  }

  /** With alpha 1, a channel of 100 comes back as 0: the round trip is not
      accurate to within one unit. */
  lemma SmallAlphaLosesPrecision()
    ensures Unpremultiply(Premultiply(100, 1), 1) == 0
  {
  }

  /** The premultiply pass fails exactly on non-RGBA images; otherwise it keeps
      the size and the alpha of every pixel and replaces each colour channel
      `c` by `(c * a) // 255`, which is at most `c` and at most `a`. */
  lemma PremultipliedMeaning(img: Raster)
    ensures Premultiplied(img).Ok? <==> img.mode == RGBA
    ensures Premultiplied(img).Err? ==> Kind(Premultiplied(img).error) == ValueError
    ensures Premultiplied(img).Ok? ==>
              var out := Premultiplied(img).value;
              && out.mode == RGBA && out.width == img.width && out.height == img.height
              && (forall x, y | 0 <= x < img.width && 0 <= y < img.height ::
                    out.pixels[x][y][3] == img.pixels[x][y][3])
              && (forall x, y, k | 0 <= x < img.width && 0 <= y < img.height && 0 <= k < 3 ::
                    && out.pixels[x][y][k] == img.pixels[x][y][k] * img.pixels[x][y][3] / 255
                    && out.pixels[x][y][k] <= img.pixels[x][y][k]
                    && out.pixels[x][y][k] <= img.pixels[x][y][3])
  {
    if img.mode == RGBA {
      var out := Premultiplied(img).value;
      forall x, y, k | 0 <= x < img.width && 0 <= y < img.height && 0 <= k < 3
        ensures out.pixels[x][y][k] == img.pixels[x][y][k] * img.pixels[x][y][3] / 255
        ensures out.pixels[x][y][k] <= img.pixels[x][y][k]
        ensures out.pixels[x][y][k] <= img.pixels[x][y][3]
      {
        var p := img.pixels[x][y];
        PremultiplyBounds(p[k], p[3]);
      }
    }
  }

  /** The unpremultiply pass fails exactly on non-RGBA images; otherwise it
      keeps the size and the alpha of every pixel, leaves pixels with zero alpha
      unchanged, and replaces each colour channel `c` with `a > 0` by the
      saturated `(c * 255 + a // 2) // a`, which needs no saturation when `c <= a`. */
  lemma UnpremultipliedMeaning(img: Raster)
    ensures Unpremultiplied(img).Ok? <==> img.mode == RGBA
    ensures Unpremultiplied(img).Err? ==> Kind(Unpremultiplied(img).error) == ValueError
    ensures Unpremultiplied(img).Ok? ==>
              var out := Unpremultiplied(img).value;
              && out.mode == RGBA && out.width == img.width && out.height == img.height
              && (forall x, y | 0 <= x < img.width && 0 <= y < img.height ::
                    out.pixels[x][y][3] == img.pixels[x][y][3])
              && (forall x, y | 0 <= x < img.width && 0 <= y < img.height && img.pixels[x][y][3] == 0 ::
                    out.pixels[x][y] == img.pixels[x][y])
              && (forall x, y, k | 0 <= x < img.width && 0 <= y < img.height && 0 <= k < 3 && img.pixels[x][y][3] > 0 ::
                    out.pixels[x][y][k] == Clip8((img.pixels[x][y][k] * 255 + img.pixels[x][y][3] / 2) / img.pixels[x][y][3]))
              && (forall x, y, k | 0 <= x < img.width && 0 <= y < img.height && 0 <= k < 3
                                   && 0 < img.pixels[x][y][3] && img.pixels[x][y][k] <= img.pixels[x][y][3] ::
                    out.pixels[x][y][k] == (img.pixels[x][y][k] * 255 + img.pixels[x][y][3] / 2) / img.pixels[x][y][3])
  {
    if img.mode == RGBA {
      var out := Unpremultiplied(img).value;
      forall x, y | 0 <= x < img.width && 0 <= y < img.height && img.pixels[x][y][3] == 0
        ensures out.pixels[x][y] == img.pixels[x][y]
      {
        var p := img.pixels[x][y];
        assert out.pixels[x][y] == [Clip8(p[0]), Clip8(p[1]), Clip8(p[2]), p[3]];
      }
      forall x, y, k | 0 <= x < img.width && 0 <= y < img.height && 0 <= k < 3
                       && 0 < img.pixels[x][y][3] && img.pixels[x][y][k] <= img.pixels[x][y][3]
        ensures out.pixels[x][y][k] == (img.pixels[x][y][k] * 255 + img.pixels[x][y][3] / 2) / img.pixels[x][y][3]
      {
        var p := img.pixels[x][y];
        UnpremultiplyBounds(p[k], p[3]);
      }
    }
  }

  /** Every alpha of the image is 255. */
  predicate FullyOpaque(img: Raster)
    requires img.mode == RGBA
  {
    forall x, y | 0 <= x < img.width && 0 <= y < img.height :: img.pixels[x][y][3] == 255
  }

  /** Premultiplying an RGBA image and then unpremultiplying it keeps the size
      and every alpha, never brightens a channel, and gives a fully opaque
      image back exactly. */
  lemma ImageRoundTrip(img: Raster)
    requires img.mode == RGBA
    ensures Premultiplied(img).Ok? && Unpremultiplied(Premultiplied(img).value).Ok?
    ensures var out := Unpremultiplied(Premultiplied(img).value).value;
            && out.mode == RGBA && out.width == img.width && out.height == img.height
            && (forall x, y | 0 <= x < img.width && 0 <= y < img.height ::
                  out.pixels[x][y][3] == img.pixels[x][y][3])
            && (forall x, y, k | 0 <= x < img.width && 0 <= y < img.height && 0 <= k < 3 ::
                  out.pixels[x][y][k] <= img.pixels[x][y][k])
    ensures FullyOpaque(img) ==> Unpremultiplied(Premultiplied(img).value).value == img
  {
    var mid := Premultiplied(img).value;
    var out := Unpremultiplied(mid).value;
    forall x, y, k | 0 <= x < img.width && 0 <= y < img.height && 0 <= k < 3
      ensures out.pixels[x][y][k] <= img.pixels[x][y][k]
      ensures img.pixels[x][y][3] == 255 ==> out.pixels[x][y][k] == img.pixels[x][y][k]
    {
      var p := img.pixels[x][y];
      PremultiplyBounds(p[k], p[3]);
      ChannelRoundTrip(p[k], p[3]);
      assert mid.pixels[x][y][k] == Premultiply(p[k], p[3]);
      assert mid.pixels[x][y][3] == p[3];
    }
    if FullyOpaque(img) {
      forall x, y | 0 <= x < img.width && 0 <= y < img.height
        ensures out.pixels[x][y] == img.pixels[x][y]
      {
        assert |out.pixels[x][y]| == 4 == |img.pixels[x][y]|;
        assert out.pixels[x][y][3] == img.pixels[x][y][3];
      }
      forall x | 0 <= x < img.width
        ensures out.pixels[x] == img.pixels[x]
      {
      }
    }
  }

  /** `_remove_premultiplied_alpha`: allocates a buffer of the input's size
      and fills it column by column with premultiplied pixels. */
  method RemovePremultipliedAlpha(img: Raster) returns (r: Result<Raster>)
    ensures r == Premultiplied(img)
  {
    if img.mode != RGBA {
      return Err(NotRgba);
    }
    var o := new seq<int>[img.width, img.height];
    for x := 0 to img.width
      invariant forall i, j | 0 <= i < x && 0 <= j < img.height :: o[i, j] == PremultiplyPixel(img.pixels[i][j])
    {
      for y := 0 to img.height
        invariant forall i, j | 0 <= i < x && 0 <= j < img.height :: o[i, j] == PremultiplyPixel(img.pixels[i][j])
        invariant forall j | 0 <= j < y :: o[x, j] == PremultiplyPixel(img.pixels[x][j])
      {
        var p := img.pixels[x][y];
        var red, green, blue, a := p[0], p[1], p[2], p[3];
        red := red * a / 255;
        blue := blue * a / 255;
        green := green * a / 255;
        o[x, y] := [Clip8(red), Clip8(green), Clip8(blue), a];
      }
    }
    var grid := ToGrid(o);
    ghost var spec := Premultiplied(img).value.pixels;
    forall i | 0 <= i < img.width
      ensures grid[i] == spec[i]
    {
    }
    assert grid == spec;
    r := Ok(Image(RGBA, img.width, img.height, grid));
  }

  /** `_apply_premultiplied_alpha`: the same traversal, dividing alpha back out
      of every pixel whose alpha is not zero. */
  method ApplyPremultipliedAlpha(img: Raster) returns (r: Result<Raster>)
    ensures r == Unpremultiplied(img)
  {
    if img.mode != RGBA {
      return Err(NotRgba);
    }
    var o := new seq<int>[img.width, img.height];
    for x := 0 to img.width
      invariant forall i, j | 0 <= i < x && 0 <= j < img.height :: o[i, j] == UnpremultiplyPixel(img.pixels[i][j])
    {
      for y := 0 to img.height
        invariant forall i, j | 0 <= i < x && 0 <= j < img.height :: o[i, j] == UnpremultiplyPixel(img.pixels[i][j])
        invariant forall j | 0 <= j < y :: o[x, j] == UnpremultiplyPixel(img.pixels[x][j])
      {
        var p := img.pixels[x][y];
        var red, green, blue, a := p[0], p[1], p[2], p[3];
        if a > 0 {
          red := (red * 255 + a / 2) / a;
          green := (green * 255 + a / 2) / a;
          blue := (blue * 255 + a / 2) / a;
        }
        o[x, y] := [Clip8(red), Clip8(green), Clip8(blue), a];
      }
    }
    var grid := ToGrid(o);
    ghost var spec := Unpremultiplied(img).value.pixels;
    forall i | 0 <= i < img.width
      ensures grid[i] == spec[i]
    {
    }
    assert grid == spec;
    r := Ok(Image(RGBA, img.width, img.height, grid));
  }

  /** The contents of a pixel buffer as a column-major grid. */
  function ToGrid(o: array2<seq<int>>): (grid: seq<seq<seq<int>>>)
    reads o
    ensures |grid| == o.Length0
    ensures forall i | 0 <= i < o.Length0 :: |grid[i]| == o.Length1
    ensures forall i, j | 0 <= i < o.Length0 && 0 <= j < o.Length1 :: grid[i][j] == o[i, j]
  {
    seq(o.Length0, i requires 0 <= i < o.Length0 reads o =>
      seq(o.Length1, j requires 0 <= j < o.Length1 reads o => o[i, j]))
  }
}
