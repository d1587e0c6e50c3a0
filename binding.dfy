/** The layer binder: checks an ordered list of one-pair layer definitions
    against the palette and pairs each layer's image with its resolved colour. */
module Binding {
  import opened Failures
  import opened Colors

  /** The palette passed to the generator: a dictionary-like object, or a value without `keys`. */
  datatype Palette = Dict(entries: map<string, ColorValue>) | NotMapping

  /** One layer definition: the (colour variable, image file) pairs of a
      dictionary-like object, in its key order, or a value without `keys`. */
  datatype LayerDef = Layer(pairs: seq<(string, string)>) | NotMappingLayer

  /** A layer ready for compositing: its resolved colour and its image file. */
  datatype BoundLayer = BoundLayer(tint: Tint, image: string)

  /** What it means for `b` to be the binding of `layer`: the layer holds a
      single pair (name, image); `b` keeps the image; the name resolves through
      the palette to `b.tint`, or is an absent "transparent" and `b` is untinted. */
  ghost predicate Binds(entries: map<string, ColorValue>, names: set<string>, layer: LayerDef, b: BoundLayer)
  {
    && layer.Layer?
    && |layer.pairs| == 1
    && b.image == layer.pairs[0].1
    && var name := layer.pairs[0].0;
       if name in entries then Resolve(entries[name], names) == Ok(b.tint)
       else name == "transparent" && b.tint == NoTint
  }

  /** Binding of a single layer definition, failure included. */
  function BindLayer(entries: map<string, ColorValue>, names: set<string>, layer: LayerDef): (r: Result<BoundLayer>)
    ensures r.Ok? <==> exists b :: Binds(entries, names, layer, b)
    ensures r.Ok? ==> Binds(entries, names, layer, r.value)
    ensures layer.NotMappingLayer? ==> r == Err(LayerNotMapping)
    ensures layer.Layer? && |layer.pairs| != 1 ==> r == Err(LayerNotSinglePair)
    ensures layer.Layer? && |layer.pairs| == 1 && layer.pairs[0].0 !in entries && layer.pairs[0].0 != "transparent"
            ==> r == Err(MissingColor(layer.pairs[0].0))
    ensures layer.Layer? && |layer.pairs| == 1 && layer.pairs[0].0 in entries
            && Resolve(entries[layer.pairs[0].0], names).Err?
            ==> r == Err(Resolve(entries[layer.pairs[0].0], names).error)
  {
    match layer
    case NotMappingLayer => Err(LayerNotMapping)
    case Layer(pairs) =>
      if |pairs| != 1 then Err(LayerNotSinglePair)
      else
        var (name, image) := pairs[0];
        if name !in entries then
          if name == "transparent" then
            assert Binds(entries, names, layer, BoundLayer(NoTint, image));
            Ok(BoundLayer(NoTint, image))
          else Err(MissingColor(name))
        else
          match Resolve(entries[name], names)
          case Err(e) => Err(e)
          case Ok(tint) =>
            assert Binds(entries, names, layer, BoundLayer(tint, image));
            Ok(BoundLayer(tint, image))
  }

  /** `layers[i]` is the first definition that fails to bind. */
  predicate FirstFailure(entries: map<string, ColorValue>, names: set<string>, layers: seq<LayerDef>, i: nat)
  {
    && i < |layers|
    && BindLayer(entries, names, layers[i]).Err?
    && forall j | 0 <= j < i :: BindLayer(entries, names, layers[j]).Ok?
  }

  /** The loop of the binder. Either every layer binds, and the result has one
      entry per layer in layer order; or the first layer that does not bind
      decides the failure and no partial result is returned. */
  method MapColorsToLayers(palette: Palette, layers: seq<LayerDef>, names: set<string>)
    returns (r: Result<seq<BoundLayer>>)
    ensures palette.NotMapping? ==> r == Err(ColorDictNotMapping)
    ensures palette.Dict? ==>
              (r.Ok? <==> forall i | 0 <= i < |layers| :: BindLayer(palette.entries, names, layers[i]).Ok?)
    ensures r.Ok? ==> |r.value| == |layers|
    ensures r.Ok? ==> forall i | 0 <= i < |layers| :: Binds(palette.entries, names, layers[i], r.value[i])
    ensures r.Ok? ==> forall i | 0 <= i < |layers| :: r.value[i] == BindLayer(palette.entries, names, layers[i]).value
    ensures palette.Dict? && r.Err? ==>
              exists i: nat :: FirstFailure(palette.entries, names, layers, i)
                       && r.error == BindLayer(palette.entries, names, layers[i]).error
  {
    if palette.NotMapping? {
      return Err(ColorDictNotMapping);
    }
    var entries := palette.entries;
    var bound: seq<BoundLayer> := [];
    var i := 0;
    while i < |layers|
      invariant 0 <= i <= |layers|
      invariant |bound| == i
      invariant forall j | 0 <= j < i :: BindLayer(entries, names, layers[j]) == Ok(bound[j])
    {
      var layer := layers[i];
      if layer.NotMappingLayer? {
        assert FirstFailure(entries, names, layers, i);
        return Err(LayerNotMapping);
      }
      if |layer.pairs| != 1 {
        assert FirstFailure(entries, names, layers, i);
        return Err(LayerNotSinglePair);
      }
      var name := layer.pairs[0].0;
      var image := layer.pairs[0].1;
      if name !in entries {
        if name == "transparent" {
          bound := bound + [BoundLayer(NoTint, image)];
        } else {
          assert FirstFailure(entries, names, layers, i);
          return Err(MissingColor(name));
        }
      } else {
        var found := Resolve(entries[name], names);
        if found.Err? {
          assert FirstFailure(entries, names, layers, i);
          return Err(found.error);
        }
        bound := bound + [BoundLayer(found.value, image)];
      }
      i := i + 1;
    }
    return Ok(bound);
  }

  /** A colour variable missing from the palette raises ValueError (the
      docstring promises KeyError), unless it is "transparent". */
  lemma MissingNameIsValueError(entries: map<string, ColorValue>, names: set<string>, name: string, image: string)
    requires name !in entries
    ensures name != "transparent" ==>
              BindLayer(entries, names, Layer([(name, image)])).Err?
              && Kind(BindLayer(entries, names, Layer([(name, image)])).error) == ValueError
    ensures name == "transparent" ==> BindLayer(entries, names, Layer([(name, image)])) == Ok(BoundLayer(NoTint, image))
  {
  }
}
