# imagecraft: a verified model of the layer compositor

imagecraft builds one image from a stack of greyscale "stencil" layers. Each
layer is tinted with a colour taken from a caller-supplied palette and painted
onto a shared canvas in paint order. This project models the four parts of
`imagecraft/imagecraft.py` that carry the logic, and proves properties of them:

- **Colour resolution** (`_rgbcolor`, module `Colors`). A palette value becomes
  an RGB triple, "do not tint" (Python `None`), or an exception.
- **Layer binding** (`_map_colors_to_layers`, module `Binding`). This is a loop
  over the layer definitions. It either returns one (colour, image) entry per
  layer, in layer order, or fails on the first bad layer and returns nothing.
- **The two alpha passes** (`_remove_premultiplied_alpha` and
  `_apply_premultiplied_alpha`, module `Alpha`). Each is a pair of nested x/y
  loops that fills a freshly allocated 2-D pixel buffer.
  - Their names are swapped relative to what they compute.
  - `_remove_premultiplied_alpha` premultiplies: `c*a//255`.
  - `_apply_premultiplied_alpha` divides alpha back out: `(c*255 + a//2)//a`.
  - The spec functions are named for what they compute (`Premultiplied`,
    `Unpremultiplied`). The methods keep the Python names.
- **The render loop** (`render`, module `Compositor`). It is a fold over the
  bound layers that carries an optional canvas (`baselayer`). It finishes by
  unpremultiplying an RGBA canvas.

Images (module `Raster`) have a mode, a width, a height and a grid of 8-bit
pixels, indexed `[x][y]` as in `p[x, y]`, with one channel per band of the mode.

The imaging-library primitives are fields of a `Backend` value and stay
uninterpreted:
- `ImageOps.grayscale`
- `ImageOps.colorize`
- `Image.composite`
- `putalpha`

Decoded layer files are given as a map from file name to image.

Every loop method is proved equal to a spec function. Lemmas about those
functions state the promised properties.

Some behaviours of the code are easy to miss, and the model keeps them:
- A colour variable missing from the palette raises `ValueError`. The
  docstring promises `KeyError`.
- The named-colour branch calls the undefined name `named_colors`, so any
  name in the colour table raises `NameError`. Names are not resolved
  recursively.
- A `#` token of a length other than 4 or 7 resolves to black, not to an error.
- A 3-tuple passes through unclamped (for example `(256, 96, 0)`).
- A layer is taken to have alpha exactly when it has 2 or 4 bands. So the
  fourth band of a CMYK image is used as alpha.
- An untinted layer with alpha composites onto the canvas with `None` as the
  bottom image when it comes first, and fails.
- An empty layer list fails when `render` reads the mode of the `None` canvas.
  That `AttributeError` comes before the `ValueError("Nothing to write to
  disk")` branch, which no input reaches.
- The premultiply/unpremultiply round trip is not accurate to ±1 unit. With
  alpha 1, a channel of 100 comes back as 0. The proved bound is
  `(c - c') * a < 255 + a`.

## Model

| member | source | states |
|---|---|---|
| `Colors.ParseHexPair` | imagecraft/imagecraft.py:142-152 | `int(pair, base=16)` on two characters. It succeeds only if one of them is a hex digit. Its value is in -15..255. Two hex digits give `16*hi + lo`. Every failure is `InvalidHexLiteral` (ValueError) |
| `Colors.Resolve` | imagecraft/imagecraft.py:128-195 | The result is "no tint" exactly for `None`, and for `'transparent'` when that is not a colour name. Every failure is a ValueError or a NameError, or the unmodelled `rgb(...)` form. A value that is neither a string, a tuple nor `None` is an unknown format |
| `Colors.SixDigitHexDecodes` | imagecraft/imagecraft.py:137-145 | For `#RRGGBB` with hex digits, each channel is the byte value of its pair, so it lies in 0..255 |
| `Colors.ThreeDigitHexDuplicatesNibbles` | imagecraft/imagecraft.py:147-153 | For `#RGB` with hex digits, each channel is its nibble times 17 |
| `Colors.ThreeDigitHexNeedsDigits` | imagecraft/imagecraft.py:148-153 | Because each character is doubled before parsing, `#RGB` resolves exactly when all three characters are hex digits. Otherwise it fails with `InvalidHexLiteral` |
| `Colors.OtherHashLengthIsBlack` | imagecraft/imagecraft.py:134-153 | A `#` token of any length other than 4 or 7 yields the default `(0,0,0)`, not an error |
| `Colors.TuplePassesThrough` | imagecraft/imagecraft.py:183-193 | A 3-tuple is returned unchanged and unclamped. A tuple of another length is an unknown format |
| `Colors.UnmatchedStringIsValueError` | imagecraft/imagecraft.py:187-193 | A string that matches no branch raises ValueError |
| `Binding.BindLayer` | imagecraft/imagecraft.py:104-124 | A successful binding satisfies `Binds`: one pair; the image is kept; the tint is the resolved palette entry, or "no tint" for an absent `'transparent'`. If no such binding exists, it fails. Each failure names its cause: TypeError for a non-mapping, ValueError for a pair count other than one, ValueError for a missing name, or the resolver's own error |
| `Binding.MapColorsToLayers` | imagecraft/imagecraft.py:86-126 | A non-mapping palette is a TypeError. Otherwise the loop succeeds exactly when every layer binds. It then returns one entry per layer, in layer order, each the binding of its layer. On failure it returns no partial result, and the error is that of the first layer that does not bind |
| `Binding.MissingNameIsValueError` | imagecraft/imagecraft.py:112-118 | A name absent from the palette raises ValueError unless it is `'transparent'`, which binds untinted |
| `Raster.Band` | imagecraft/imagecraft.py:214-218 | For an image of two or more bands, `split()[k]` is a one-band L image of the same size that holds channel `k` of every pixel |
| `Raster.AlphaBand` | imagecraft/imagecraft.py:213-220 | A layer has an alpha mask exactly when it has 2 or 4 bands, and the mask is its last band |
| `Alpha.PremultiplyBounds` | imagecraft/imagecraft.py:290-293 | For 8-bit `c` and `a`, `(c*a)//255` lies between 0 and `min(c, a)`. It is `c` at `a = 255` and 0 at `a = 0` |
| `Alpha.UnpremultiplyBounds` | imagecraft/imagecraft.py:309-312 | For `0 < a` and `c <= a`, `(c*255 + a//2)//a` lies in 0..255. It equals `c` at `a = 255` |
| `Alpha.ChannelRoundTrip` | imagecraft/imagecraft.py:280-315 | Premultiplying then unpremultiplying never raises a channel. It is exact at `a = 255` and gives 0 at `a = 0`. The loss times alpha is below `255 + a` |
| `Alpha.SmallAlphaLosesPrecision` | imagecraft/imagecraft.py:291-312 | At alpha 1, a channel of 100 comes back as 0 |
| `Alpha.PremultipliedMeaning` | imagecraft/imagecraft.py:280-296 | The premultiply pass fails (ValueError) exactly on non-RGBA images. Otherwise it keeps the mode, the size and every alpha, and sets each colour channel to `(c*a)//255`, which is at most `c` and at most `a` |
| `Alpha.UnpremultipliedMeaning` | imagecraft/imagecraft.py:298-315 | The unpremultiply pass fails (ValueError) exactly on non-RGBA images. Otherwise it keeps the size and every alpha, and leaves zero-alpha pixels unchanged. Each channel with `a > 0` becomes the saturated `(c*255 + a//2)//a`, unsaturated when `c <= a` |
| `Alpha.ImageRoundTrip` | imagecraft/imagecraft.py:280-315 | On an RGBA image both passes succeed. Together they keep the size and every alpha and never brighten a channel. A fully opaque image comes back exactly |
| `Alpha.RemovePremultipliedAlpha` | imagecraft/imagecraft.py:280-296 | The nested loops over the new 2-D buffer compute exactly the premultiply pass, including its ValueError |
| `Alpha.ApplyPremultipliedAlpha` | imagecraft/imagecraft.py:298-315 | The nested loops over the new 2-D buffer compute exactly the unpremultiply pass, including its ValueError |
| `Compositor.Step` | imagecraft/imagecraft.py:207-266 | A layer either fails or leaves a defined canvas |
| `Compositor.Fold` | imagecraft/imagecraft.py:204-266 | If the loop succeeds, the canvas is defined exactly when at least one layer was processed |
| `Compositor.FailureIsFinal` | imagecraft/imagecraft.py:207-266 | Once some prefix of the layers fails, the whole loop fails with the same error |
| `Compositor.Render` | imagecraft/imagecraft.py:197-278 | The `for` loop that reassigns `baselayer`, followed by the final RGBA pass, computes exactly `Rendered` |
| `Compositor.Generate` | imagecraft/imagecraft.py:66-84 | Constructing the generator and then rendering: a non-mapping palette is a TypeError. Otherwise the first layer that does not bind decides the error. If every layer binds, the result is the render of the bound layers in order |
| `Compositor.EmptyLayersFail` | imagecraft/imagecraft.py:268-276 | An empty layer list fails with AttributeError at the canvas's mode, before anything is written |
| `Compositor.OpaqueLayerDiscardsBelow` | imagecraft/imagecraft.py:255-266 | A layer without alpha, tinted or not, replaces the canvas. Whatever earlier layers painted, the render equals that of the stack starting at this layer |
| `Compositor.UntintedAlphaLayerFirstFails` | imagecraft/imagecraft.py:259-263 | If the first layer is untinted and has alpha, the render fails, whatever follows |
| `Compositor.TintedAlphaLayer` | imagecraft/imagecraft.py:244-253 | A tinted layer with alpha that is the first layer of the stack becomes the colorized image with its alpha put back, premultiplied. Over any earlier layer it is composited onto the canvas through its alpha |
| `Compositor.UntintedAlphaLayerComposites` | imagecraft/imagecraft.py:259-263 | An untinted layer with alpha over an existing canvas is composited onto that canvas, with the layer's own image as the mask |
| `Compositor.UntintedOpaqueLayerIsItsImage` | imagecraft/imagecraft.py:264-266 | An untinted layer without alpha sets the canvas to its own image, whatever was painted before |
| `Compositor.MissingImageFails` | imagecraft/imagecraft.py:207-211 | A layer whose image file cannot be opened stops the loop with IOError naming that file |
| `Compositor.FinishUnpremultipliesRgba` | imagecraft/imagecraft.py:268-270 | The final pass runs exactly when the canvas is RGBA. The result then has the canvas's size. Any other canvas is handed on unchanged |
| `Compositor.SingleOpaqueTintedLayer` | imagecraft/imagecraft.py:234-257 | A single tinted layer without alpha renders to its colorized image alone, blended with nothing |

## Left out

- File I/O. Opening and loading layer files, `_write_to_file` with its
  `NotImplementedError` checks and `save`, and the source and output path
  defaults are external effects. Decoded files are a map from file name to
  image, and a name missing from it stands for the IOError. `render` returns
  the image it would write.
- Imaging-library primitives. `ImageOps.grayscale`, `ImageOps.colorize`,
  `Image.composite` and `putalpha` are uninterpreted functions. The model
  states nothing about their pixel arithmetic or about the modes they return.
  `split()` is modelled as band extraction.
- Exceptions raised inside the imaging library. The primitives are taken to
  be total. The library raises ValueError when a mask or bottom image differs
  in size from the top image, and rejects mask modes it does not accept ("bad
  transparency mask"). An example is an untinted CMYK or PA layer composited
  at imagecraft/imagecraft.py:263, where the model returns a canvas. The
  model does not require all layer images to share one size.
- The `rgb(...)` branch. The percentage form uses floating point. The integer
  form builds a tuple of unbound `strip` methods. Both yield
  `RgbNotationNotModelled`.
- The named-colour table. Its contents are not given, so it is the parameter
  `names`. The model states only that a hit raises NameError.
- The `previous_alpha` tracker, with its `Image.new("L", …, 128)` and
  `ImageChops.screen`. It is written but never read.
- The `warn` call for a non-background layer without alpha. It is a side
  channel with no effect on the result.
- `Colors.ParseHexPair`: only ASCII is modelled. Python's `int` also accepts
  Unicode digits and Unicode whitespace in unicode strings. Identity tests
  (`is 'transparent'`, `find('#') is 0`) are modelled as equality.
- `Alpha.UnpremultipliedMeaning`: the imaging library is taken to saturate a
  stored channel to 0..255. This matters only when a channel exceeds its
  alpha, which a composited canvas can produce.
- Pixel values are 8-bit. Modes with 32-bit or floating-point pixels (I, F) are
  not modelled. The 8-bit modes La, RGBa, RGBX, LAB and HSV are not modelled
  either. By band count each would behave like a modelled mode. For example,
  the fourth band of RGBX would be used as alpha, as CMYK's is.
- Python values that are neither strings, integer tuples nor `None` collapse
  into one "other value" case. So a 3-tuple of non-integers (floats, say),
  which the code returns unchanged at imagecraft/imagecraft.py:183-184, gives
  `UnknownColorFormat` in the model. Layer definitions are the items of a mapping, in
  key order.
