/** The render loop: folds the bound layers, in paint order, into one canvas,
    then converts the canvas back to straight alpha. Reading files, writing
    the result and the imaging-library primitives are outside the model;
    `images` stands for the decoded files of the source directory. */
module Compositor {
  import opened Failures
  import opened Colors
  import opened Binding
  import opened Raster
  import opened Alpha

  /** The imaging-library primitives render calls, left uninterpreted:
      greyscale conversion, duotone colouring `colorize(img, black, white)`,
      masked `composite(top, bottom, mask)`, and `putalpha(img, mask)` as a new value.
      They are total: the library's own exceptions (a mask or bottom image of
      another size, a mask mode it does not accept) are not modelled. */
  datatype Backend = Backend(
    grayscale: Raster -> Raster,
    colorize: (Raster, Tint, Tint) -> Raster,
    composite: (Raster, Raster, Raster) -> Raster,
    putalpha: (Raster, Raster) -> Raster)

  const White: Tint := Rgb(255, 255, 255)

  /** The duotone image of a layer: its greyscale from `tint` (black) to white. */
  function Colorized(be: Backend, img: Raster, tint: Tint): Raster
  {
    be.colorize(be.grayscale(img), tint, White)
  }

  /** One iteration of the render loop, from the canvas before the layer to
      the canvas after it. A layer without alpha replaces the canvas; a tinted
      layer with alpha starts the canvas premultiplied or is composited onto
      it; an untinted layer with alpha is composited onto the canvas using
      itself as the mask, which fails when there is no canvas yet. */
  function Step(be: Backend, images: map<string, Raster>, canvas: Option<Raster>, layer: BoundLayer)
    : (r: Result<Option<Raster>>)
    ensures r.Ok? ==> r.value.Some?
  {
    if layer.image !in images then Err(ImageNotFound(layer.image))
    else
      var img := images[layer.image];
      var alpha := AlphaBand(img);
      if layer.tint.Rgb? then
        var colorized := Colorized(be, img, layer.tint);
        if alpha.Some? then
          if canvas.Some? then Ok(Some(be.composite(colorized, canvas.value, alpha.value)))
          else
            var first :- Premultiplied(be.putalpha(colorized, alpha.value));
            Ok(Some(first))
        else Ok(Some(colorized))
      else if alpha.Some? then
        if canvas.Some? then Ok(Some(be.composite(img, canvas.value, img)))
        else Err(CompositeWithoutCanvas)
      else Ok(Some(img))
  }

  /** The canvas after the given layers, or the first failure; the canvas is
      defined exactly when at least one layer was processed. */
  function Fold(be: Backend, images: map<string, Raster>, layers: seq<BoundLayer>): (r: Result<Option<Raster>>)
    ensures r.Ok? ==> (r.value.Some? <==> layers != [])
    decreases |layers|
  {
    if layers == [] then Ok(None)
    else
      var canvas :- Fold(be, images, layers[..|layers| - 1]);
      Step(be, images, canvas, layers[|layers| - 1])
  }

  /** After the loop: reading the mode of an undefined canvas fails; an RGBA
      canvas is unpremultiplied; any other canvas is kept as is. */
  function Finish(canvas: Option<Raster>): Result<Raster>
  {
    match canvas
    case None => Err(NoCanvas)
    case Some(c) => if c.mode == RGBA then Unpremultiplied(c) else Ok(c)
  }

  /** The image render hands to the file writer, or the failure that stops it. */
  function Rendered(be: Backend, images: map<string, Raster>, layers: seq<BoundLayer>): Result<Raster>
  {
    var canvas :- Fold(be, images, layers);
    Finish(canvas)
  }

  /** Once a prefix of the layers fails, the whole fold fails the same way. */
  lemma {:induction false} FailureIsFinal(be: Backend, images: map<string, Raster>, layers: seq<BoundLayer>, k: nat)
    requires k <= |layers| && Fold(be, images, layers[..k]).Err?
    ensures Fold(be, images, layers) == Fold(be, images, layers[..k])
    decreases |layers|
  {
    if k == |layers| {
      assert layers[..k] == layers;
    } else {
      var init := layers[..|layers| - 1];
      assert init[..k] == layers[..k];
      FailureIsFinal(be, images, init, k);
    }
  }

  /** `render`: the loop carries the canvas (`baselayer`, None at first)
      through the layers, then finishes it. */
  method Render(be: Backend, images: map<string, Raster>, layers: seq<BoundLayer>) returns (r: Result<Raster>)
    ensures r == Rendered(be, images, layers)
  {
    var baselayer: Option<Raster> := None;
    for i := 0 to |layers|
      invariant Fold(be, images, layers[..i]) == Ok(baselayer)
    {
      var layer := layers[i];
      assert layers[..i + 1][..i] == layers[..i];
      if layer.image !in images {
        FailureIsFinal(be, images, layers, i + 1);
        return Err(ImageNotFound(layer.image));
      }
      var img := images[layer.image];
      var alpha := AlphaBand(img);
      if layer.tint.Rgb? {
        var greyscale := be.grayscale(img);
        var colorized := be.colorize(greyscale, layer.tint, White);
        if alpha.Some? {
          if baselayer.Some? {
            baselayer := Some(be.composite(colorized, baselayer.value, alpha.value));
          } else {
            var withAlpha := be.putalpha(colorized, alpha.value);
            var first := RemovePremultipliedAlpha(withAlpha);
            if first.Err? {
              FailureIsFinal(be, images, layers, i + 1);
              return Err(first.error);
            }
            baselayer := Some(first.value);
          }
        } else {
          baselayer := Some(colorized);
        }
      } else {
        if alpha.Some? {
          if baselayer.None? {
            FailureIsFinal(be, images, layers, i + 1);
            return Err(CompositeWithoutCanvas);
          }
          baselayer := Some(be.composite(img, baselayer.value, img));
        } else {
          baselayer := Some(img);
        }
      }
    }
    assert layers[..|layers|] == layers;
    if baselayer.None? {
      return Err(NoCanvas);
    }
    var canvas := baselayer.value;
    if canvas.mode == RGBA {
      r := ApplyPremultipliedAlpha(canvas);
    } else {
      r := Ok(canvas);
    }
  }

  /** The generator as a whole: binding in the constructor, then `render`.
      A binding failure stops everything before any image is opened. */
  method Generate(palette: Palette, layerDefs: seq<LayerDef>, names: set<string>,
                  be: Backend, images: map<string, Raster>) returns (r: Result<Raster>)
    ensures palette.NotMapping? ==> r == Err(ColorDictNotMapping)
    ensures palette.Dict? && (exists i: nat :: FirstFailure(palette.entries, names, layerDefs, i)) ==>
              r.Err? && exists i: nat :: FirstFailure(palette.entries, names, layerDefs, i)
                                   && r.error == BindLayer(palette.entries, names, layerDefs[i]).error
    ensures palette.Dict? && (forall i | 0 <= i < |layerDefs| :: BindLayer(palette.entries, names, layerDefs[i]).Ok?) ==>
              r == Rendered(be, images, seq(|layerDefs|, i requires 0 <= i < |layerDefs| =>
                                              BindLayer(palette.entries, names, layerDefs[i]).value))
  {
    var bound := MapColorsToLayers(palette, layerDefs, names);
    if bound.Err? {
      return Err(bound.error);
    }
    r := Render(be, images, bound.value);
    ghost var expected := seq(|layerDefs|, i requires 0 <= i < |layerDefs| =>
                                BindLayer(palette.entries, names, layerDefs[i]).value);
    assert bound.value == expected;
  }

  /** An empty layer list fails at the canvas's mode (AttributeError), before
      the "nothing to write" check and before anything is written. */
  lemma EmptyLayersFail(be: Backend, images: map<string, Raster>)
    ensures Rendered(be, images, []) == Err(NoCanvas)
    ensures Kind(NoCanvas) == AttributeError
  {
  }

  /** A layer without an alpha band discards everything painted before it:
      whatever came below, the result is as if the stack started with it. */
  lemma {:induction false} OpaqueLayerDiscardsBelow(be: Backend, images: map<string, Raster>,
                                                    below: seq<BoundLayer>, layer: BoundLayer, above: seq<BoundLayer>)
    requires layer.image in images && AlphaBand(images[layer.image]).None?
    requires Fold(be, images, below).Ok?
    ensures Fold(be, images, below + [layer] + above) == Fold(be, images, [layer] + above)
    ensures Rendered(be, images, below + [layer] + above) == Rendered(be, images, [layer] + above)
    decreases |above|
  {
    if above == [] {
      assert below + [layer] + above == below + [layer];
      assert (below + [layer])[..|below|] == below;
      assert [layer] + above == [layer];
      assert [layer][..0] == [];
    } else {
      var lower := above[..|above| - 1];
      OpaqueLayerDiscardsBelow(be, images, below, layer, lower);
      var whole := below + [layer] + above;
      var short := [layer] + above;
      assert whole[..|whole| - 1] == below + [layer] + lower;
      assert short[..|short| - 1] == [layer] + lower;
      assert whole[|whole| - 1] == short[|short| - 1];
    }
  }

  /** The first layer that is untinted and has alpha is composited onto no
      canvas, so the whole render fails whatever follows. */
  lemma UntintedAlphaLayerFirstFails(be: Backend, images: map<string, Raster>, layer: BoundLayer, above: seq<BoundLayer>)
    requires layer.tint.NoTint? && layer.image in images && AlphaBand(images[layer.image]).Some?
    ensures Rendered(be, images, [layer] + above) == Err(CompositeWithoutCanvas)
  {
    var layers := [layer] + above;
    assert layers[..1] == [layer];
    assert [layer][..0] == [];
    FailureIsFinal(be, images, layers, 1);
  }

  /** A tinted layer with alpha: the first one of the stack becomes the
      colorized image with its alpha put back, premultiplied; a later one is
      composited onto the canvas through its alpha. */
  lemma TintedAlphaLayer(be: Backend, images: map<string, Raster>, below: seq<BoundLayer>, layer: BoundLayer)
    requires layer.tint.Rgb? && layer.image in images && AlphaBand(images[layer.image]).Some?
    requires Fold(be, images, below).Ok?
    ensures var img := images[layer.image];
            var colorized := Colorized(be, img, layer.tint);
            var alpha := AlphaBand(img).value;
            && (below == [] ==>
                  Fold(be, images, below + [layer])
                  == match Premultiplied(be.putalpha(colorized, alpha))
                     case Ok(first) => Ok(Some(first))
                     case Err(e) => Err(e))
            && (below != [] ==>
                  Fold(be, images, below + [layer])
                  == Ok(Some(be.composite(colorized, Fold(be, images, below).value.value, alpha))))
  {
    assert (below + [layer])[..|below|] == below;
  }

  /** An untinted layer with alpha over an existing canvas is composited onto
      it, using the layer's own image as the mask. */
  lemma UntintedAlphaLayerComposites(be: Backend, images: map<string, Raster>, below: seq<BoundLayer>, layer: BoundLayer)
    requires layer.tint.NoTint? && layer.image in images && AlphaBand(images[layer.image]).Some?
    requires Fold(be, images, below).Ok? && below != []
    ensures var img := images[layer.image];
            Fold(be, images, below + [layer]) == Ok(Some(be.composite(img, Fold(be, images, below).value.value, img)))
  {
    assert (below + [layer])[..|below|] == below;
  }

  /** A layer whose image file cannot be opened stops the loop with IOError. */
  lemma MissingImageFails(be: Backend, images: map<string, Raster>, below: seq<BoundLayer>, layer: BoundLayer)
    requires layer.image !in images && Fold(be, images, below).Ok?
    ensures Fold(be, images, below + [layer]) == Err(ImageNotFound(layer.image))
    ensures Kind(ImageNotFound(layer.image)) == IOError
  {
    assert (below + [layer])[..|below|] == below;
  }

  /** An untinted layer without alpha overwrites the canvas with its own image. */
  lemma UntintedOpaqueLayerIsItsImage(be: Backend, images: map<string, Raster>, below: seq<BoundLayer>, layer: BoundLayer)
    requires layer.tint.NoTint? && layer.image in images && AlphaBand(images[layer.image]).None?
    requires Fold(be, images, below).Ok?
    ensures Fold(be, images, below + [layer]) == Ok(Some(images[layer.image]))
  {
    assert (below + [layer])[..|below|] == below;
  }

  /** The finishing pass runs exactly when the final canvas is RGBA, and the
      image handed on is then the unpremultiplied canvas, with the same size. */
  lemma FinishUnpremultipliesRgba(be: Backend, images: map<string, Raster>, layers: seq<BoundLayer>)
    requires Fold(be, images, layers).Ok? && layers != []
    ensures var canvas := Fold(be, images, layers).value.value;
            && (canvas.mode == RGBA ==>
                  && Rendered(be, images, layers) == Unpremultiplied(canvas)
                  && Rendered(be, images, layers).Ok?
                  && Rendered(be, images, layers).value.width == canvas.width
                  && Rendered(be, images, layers).value.height == canvas.height)
            && (canvas.mode != RGBA ==> Rendered(be, images, layers) == Ok(canvas))
  {
    var canvas := Fold(be, images, layers).value.value;
    UnpremultipliedMeaning(canvas);
  }

  /** A single tinted layer without alpha renders to its duotone image alone
      (finished as any canvas is), blended with nothing. */
  lemma SingleOpaqueTintedLayer(be: Backend, images: map<string, Raster>, layer: BoundLayer)
    requires layer.tint.Rgb? && layer.image in images && AlphaBand(images[layer.image]).None?
    ensures Rendered(be, images, [layer]) == Finish(Some(Colorized(be, images[layer.image], layer.tint)))
  {
    assert [layer][..0] == [];
    assert Fold(be, images, [layer]) == Step(be, images, None, layer);
  }
}
