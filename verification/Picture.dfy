/**
 The picture on the screen, in colours: stacking the planes of a plan gives what blending all
 layers directly would give, and exactly when.
 */
module Picture {
  import opened Rects
  import opened Layers
  import opened Squash
  import opened SquashCache
  import opened Separate
  import opened Planes
  import opened PlanForm
  import opened Composition
  import opened Blend
  import opened Sampling
  import opened Stacking
  import opened Screen
  import opened Commit

  /** The contents of every buffer: a colour for each texture coordinate. */
  type Texture = (Buffer, real, real) -> Rgba

  function SampleOf(tex: Texture, layer: Layer, x: int, y: int): Sample
    requires Drawable(layer)
  {
    var c := TexCoord(layer, Middle(x), Middle(y));
    Sample(tex(layer.buffer, c.x, c.y), LayerAlpha(layer), LayerPremult(layer))
  }

  /** What a layer contributes at a cell of its display frame. */
  function LayerColor(tex: Texture, layer: Layer, x: int, y: int): Rgba {
    if Drawable(layer) then Shade(SampleOf(tex, layer, x, y)) else CLEAR
  }

  function LayerColors(tex: Texture, layers: seq<Layer>, list: seq<nat>, x: int, y: int): (r: seq<Rgba>)
    ensures |r| == |list|
    ensures forall i :: 0 <= i < |r| ==> r[i] == if list[i] < |layers| then LayerColor(tex, layers[list[i]], x, y) else CLEAR
  {
    seq(|list|, i requires 0 <= i < |list| => if list[i] < |layers| then LayerColor(tex, layers[list[i]], x, y) else CLEAR)
  }

  /** The picture that is wanted: all layers over the cell, blended from the top. */
  function Wanted(tex: Texture, layers: seq<Layer>, x: int, y: int): Rgba {
    Stack(LayerColors(tex, layers, Descending(Cover(Frames(layers), x, y), |layers|), x, y))
  }

  ghost predicate WellFormed(layers: seq<Layer>) {
    forall l :: 0 <= l < |layers| ==>
      layers[l].buffer.width > 0 && layers[l].buffer.height > 0 && layers[l].alpha <= 255
  }

  /** Texels are colours, premultiplied where the layer says so, and opaque where it does not blend. */
  predicate ValidTexel(layer: Layer, c: Rgba) {
    && ValidSample(Sample(c, LayerAlpha(layer), LayerPremult(layer)))
    && (layer.blending == NoBlend ==> c.a == 1.0)
  }

  ghost predicate ValidTexture(tex: Texture, layers: seq<Layer>) {
    forall l, px, py :: 0 <= l < |layers| ==> ValidTexel(layers[l], tex(layers[l].buffer, px, py))
  }

  lemma {:induction false} ColorValid(tex: Texture, layers: seq<Layer>, l: nat, x: int, y: int)
    requires ValidTexture(tex, layers) && l < |layers|
    ensures Valid(LayerColor(tex, layers[l], x, y))
  {
    if Drawable(layers[l]) {
      var c := TexCoord(layers[l], Middle(x), Middle(y));
      assert ValidTexel(layers[l], tex(layers[l].buffer, c.x, c.y));
      ShadeValid(SampleOf(tex, layers[l], x, y));
    }
  }

  lemma {:induction false} ColorsValid(tex: Texture, layers: seq<Layer>, list: seq<nat>, x: int, y: int)
    requires ValidTexture(tex, layers)
    ensures forall i :: 0 <= i < |list| ==> Valid(LayerColors(tex, layers, list, x, y)[i])
  {
    forall i | 0 <= i < |list|
      ensures Valid(LayerColors(tex, layers, list, x, y)[i])
    {
      if list[i] < |layers| {
        ColorValid(tex, layers, list[i], x, y);
      }
    }
  }

  // ---------------------------------------------------------------- colours as paint

  const PAINT: Paint<Rgba> := Paint(CLEAR, (t, u) => Over(t, u))

  lemma {:induction false} PaintLawful()
    ensures Lawful(PAINT)
  {
    forall c
      ensures PAINT.over(PAINT.clear, c) == c && PAINT.over(c, PAINT.clear) == c
    {
      OverClear(c);
    }
    forall t, u, v
      ensures PAINT.over(PAINT.over(t, u), v) == PAINT.over(t, PAINT.over(u, v))
    {
      OverAssociative(t, u, v);
    }
  }

  lemma {:induction false} FoldIsStack(colors: seq<Rgba>)
    ensures Fold(PAINT, colors) == Stack(colors)
  {
    if colors != [] {
      FoldIsStack(colors[1..]);
    }
  }

  /** The cell as the stacking sees it. */
  function ViewAt(tex: Texture, layers: seq<Layer>, x: int, y: int): View<Rgba> {
    View(PAINT,
         seq(|layers|, l requires 0 <= l < |layers| => LayerColor(tex, layers[l], x, y)),
         Cover(Frames(layers), x, y),
         OpaqueIn(layers))
  }

  lemma {:induction false} ViewStack(tex: Texture, layers: seq<Layer>, list: seq<nat>, x: int, y: int)
    ensures StackOf(ViewAt(tex, layers, x, y), list) == Stack(LayerColors(tex, layers, list, x, y))
  {
    assert Colors(ViewAt(tex, layers, x, y), list) == LayerColors(tex, layers, list, x, y);
    FoldIsStack(LayerColors(tex, layers, list, x, y));
  }

  lemma {:induction false} SolidColor(tex: Texture, layers: seq<Layer>, l: nat, x: int, y: int)
    requires WellFormed(layers) && ValidTexture(tex, layers)
    requires l in Cover(Frames(layers), x, y) && layers[l].blending == NoBlend
    ensures LayerColor(tex, layers[l], x, y).a == 1.0
  {
    var c := TexCoord(layers[l], Middle(x), Middle(y));
    assert ValidTexel(layers[l], tex(layers[l].buffer, c.x, c.y));
    assert Times(1.0, 1.0) == 1.0;
  }

  lemma {:induction false} ViewIsSolid(tex: Texture, layers: seq<Layer>, x: int, y: int)
    requires WellFormed(layers) && ValidTexture(tex, layers)
    ensures ViewsCell(ViewAt(tex, layers, x, y), layers, x, y)
  {
    var v := ViewAt(tex, layers, x, y);
    PaintLawful();
    forall l | l in v.over && l in v.solid
      ensures Hides(v.paint, ColorOf(v, l))
    {
      SolidColor(tex, layers, l, x, y);
      forall d
        ensures v.paint.over(ColorOf(v, l), d) == ColorOf(v, l)
      {
        OverOpaque(ColorOf(v, l), d);
      }
    }
  }

  // ---------------------------------------------------------------- drawing

  /** Samples every texture of a command at the middle of a cell. */
  method SampleTextures(tex: Texture, layers: seq<Layer>, cmd: Command, ghost sources: seq<nat>, x: int, y: int)
      returns (samples: seq<Sample>)
    requires !cmd.bounds.Empty() && |cmd.textures| <= |sources| && InRange(sources, |layers|)
    requires forall k :: 0 <= k < |cmd.textures| ==> Draws(layers, cmd.bounds, cmd.textures[k], sources[k])
    ensures |samples| == |cmd.textures|
    ensures forall k :: 0 <= k < |samples| ==> Drawable(layers[sources[k]]) && samples[k] == SampleOf(tex, layers[sources[k]], x, y)
  {
    samples := [];
    for k := 0 to |cmd.textures|
      invariant |samples| == k
      invariant forall i :: 0 <= i < k ==> Drawable(layers[sources[i]]) && samples[i] == SampleOf(tex, layers[sources[i]], x, y)
    {
      var src := cmd.textures[k];
      assert Draws(layers, cmd.bounds, src, sources[k]);
      var c := Sampled(cmd.bounds, src, Middle(x), Middle(y));
      samples := samples + [Sample(tex(layers[src.index].buffer, c.x, c.y), src.alpha, src.premult)];
    }
  }

  lemma {:induction false} SamplesStack(tex: Texture, layers: seq<Layer>, list: seq<nat>, samples: seq<Sample>, x: int, y: int)
    requires ValidTexture(tex, layers) && InRange(list, |layers|) && |samples| == |list|
    requires forall k :: 0 <= k < |samples| ==> Drawable(layers[list[k]]) && samples[k] == SampleOf(tex, layers[list[k]], x, y)
    ensures forall k :: 0 <= k < |samples| ==> ValidSample(samples[k])
    ensures Stack(ShadeAll(samples)) == StackOf(ViewAt(tex, layers, x, y), list)
  {
    forall k | 0 <= k < |samples|
      ensures ValidSample(samples[k])
    {
      var c := TexCoord(layers[list[k]], Middle(x), Middle(y));
      assert ValidTexel(layers[list[k]], tex(layers[list[k]].buffer, c.x, c.y));
    }
    assert ShadeAll(samples) == LayerColors(tex, layers, list, x, y);
    ViewStack(tex, layers, list, x, y);
  }

  /** A pixel of a buffer: clear where nothing is drawn or seen, else within half a step of what it should be. */
  predicate Rendered(pixel: Rgba, exact: Rgba) {
    if exact == CLEAR then pixel == CLEAR else Near(pixel, exact)
  }

  /** The program ends early only over something that can be seen. */
  lemma {:induction false} RenderedFromProgram(samples: seq<Sample>, color: Rgba, blended: nat)
    requires Near(color, Stack(ShadeAll(samples)))
    requires blended <= |samples| && color == Stack(ShadeAll(samples[..blended]))
    requires blended < |samples| ==> 0 < blended && 1.0 - color.a <= CUTOFF
    ensures Rendered(color, Stack(ShadeAll(samples)))
  {
    if blended == |samples| {
      assert samples[..blended] == samples;
    }
  }

  /** The command and the fragment program draw, up to half a step, the stack of a region's layers. */
  method DrawPixel(tex: Texture, layers: seq<Layer>, region: CompositionRegion, x: int, y: int) returns (color: Rgba)
    requires WellFormed(layers) && ValidTexture(tex, layers)
    requires region.frame.Has(x, y)
    requires forall i :: 0 <= i < |region.sourceLayers| ==> region.sourceLayers[i] in Cover(Frames(layers), x, y)
    ensures Rendered(color, StackOf(ViewAt(tex, layers, x, y), region.sourceLayers))
    ensures Rendered(color, StackOf(ViewAt(tex, layers, x, y), DownToOpaque(OpaqueIn(layers), region.sourceLayers)))
  {
    var cmd := ConstructCommand(layers, region);
    ghost var list := DownToOpaque(OpaqueIn(layers), region.sourceLayers);
    var samples := SampleTextures(tex, layers, cmd, list, x, y);
    SamplesStack(tex, layers, list, samples, x, y);
    ghost var blended;
    color, blended := FragmentProgram(samples);
    RenderedFromProgram(samples, color, blended);
    ViewIsSolid(tex, layers, x, y);
    OpaqueHides(ViewAt(tex, layers, x, y), region.sourceLayers);
  }

  /** The layers of every region over the cell are over it. */
  ghost predicate DrawsCovered(layers: seq<Layer>, regions: seq<CompositionRegion>, x: int, y: int) {
    forall i, l :: 0 <= i < |regions| && regions[i].frame.Has(x, y) && l in regions[i].sourceLayers ==>
      l in Cover(Frames(layers), x, y)
  }

  /** One pixel of a framebuffer: cleared, then drawn by each region over it in turn. */
  method Composite(tex: Texture, layers: seq<Layer>, regions: seq<CompositionRegion>, x: int, y: int) returns (pixel: Rgba)
    requires WellFormed(layers) && ValidTexture(tex, layers)
    requires DrawsCovered(layers, regions, x, y)
    ensures Rendered(pixel, BufferColor(ViewAt(tex, layers, x, y), regions, x, y))
  {
    pixel := CLEAR;
    for i := 0 to |regions|
      invariant Rendered(pixel, BufferColor(ViewAt(tex, layers, x, y), regions[..i], x, y))
    {
      var region := regions[i];
      assert regions[..i + 1][..i] == regions[..i];
      if region.frame.Has(x, y) && region.sourceLayers != [] {
        assert forall k :: 0 <= k < |region.sourceLayers| ==> region.sourceLayers[k] in region.sourceLayers;
        pixel := DrawPixel(tex, layers, region, x, y);
      }
    }
    assert regions[..|regions|] == regions;
  }

  // ---------------------------------------------------------------- what a layer can look like

  /** Some layer shows the buffer without blending, so its texels are opaque. */
  ghost predicate OpaqueBuffer(layers: seq<Layer>, buffer: Buffer) {
    exists m :: 0 <= m < |layers| && layers[m].blending == NoBlend && layers[m].buffer == buffer
  }

  /** The layer is opaque whatever its buffer holds. */
  ghost predicate AlwaysOpaque(layers: seq<Layer>, l: nat)
    requires l < |layers|
  {
    layers[l].blending == NoBlend || (layers[l].alpha == 255 && OpaqueBuffer(layers, layers[l].buffer))
  }

  /** A layer that shows an opaque buffer in full is opaque. */
  lemma {:induction false} OpaqueTexels(tex: Texture, layers: seq<Layer>, layer: Layer, x: int, y: int)
    requires ValidTexture(tex, layers) && Drawable(layer) && OpaqueBuffer(layers, layer.buffer) && LayerAlpha(layer) == 1.0
    ensures LayerColor(tex, layer, x, y).a == 1.0
  {
    var c := TexCoord(layer, Middle(x), Middle(y));
    var m :| 0 <= m < |layers| && layers[m].blending == NoBlend && layers[m].buffer == layer.buffer;
    assert ValidTexel(layers[m], tex(layers[m].buffer, c.x, c.y));
    assert Times(1.0, 1.0) == 1.0;
  }

  lemma {:induction false} OpaqueColor(tex: Texture, layers: seq<Layer>, l: nat, x: int, y: int)
    requires WellFormed(layers) && ValidTexture(tex, layers)
    requires l in Cover(Frames(layers), x, y) && AlwaysOpaque(layers, l)
    ensures LayerColor(tex, layers[l], x, y).a == 1.0
    ensures LayerColor(tex, Committed(layers[l]), x, y).a == 1.0
  {
    assert OpaqueBuffer(layers, layers[l].buffer);
    OpaqueTexels(tex, layers, layers[l], x, y);
    OpaqueTexels(tex, layers, Committed(layers[l]), x, y);
  }

  lemma {:induction false} FadedColor(tex: Texture, layer: Layer, x: int, y: int)
    requires !CanShow(layer)
    ensures LayerColor(tex, layer, x, y) == CLEAR
  {
    if Drawable(layer) {
      var s := SampleOf(tex, layer, x, y);
      TimesZero(MaxReal(s.texel.a, s.premult));
      TimesZero(s.texel.r);
      TimesZero(s.texel.g);
      TimesZero(s.texel.b);
      TimesZero(s.texel.a);
    }
  }

  lemma {:induction false} TimesZero(x: real)
    ensures Times(x, 0.0) == 0.0
  {
  }

  /** Half-transparent white in every buffer that need not be opaque. */
  ghost function HalfTexture(layers: seq<Layer>): Texture {
    (b, px, py) => if OpaqueBuffer(layers, b) then Rgba(1.0, 1.0, 1.0, 1.0) else Rgba(0.5, 0.5, 0.5, 0.5)
  }

  lemma {:induction false} HalfValid(layers: seq<Layer>)
    requires WellFormed(layers)
    ensures ValidTexture(HalfTexture(layers), layers)
  {
    forall l, px, py | 0 <= l < |layers|
      ensures ValidTexel(layers[l], HalfTexture(layers)(layers[l].buffer, px, py))
    {
      assert 0.0 <= LayerAlpha(layers[l]) <= 1.0;
      assert layers[l].blending == NoBlend ==> OpaqueBuffer(layers, layers[l].buffer);
    }
  }

  /** With that texture a layer that can be translucent is, and a layer that can be seen is. */
  lemma {:induction false} HalfColor(layers: seq<Layer>, l: nat, x: int, y: int)
    requires WellFormed(layers) && l in Cover(Frames(layers), x, y) && !AlwaysOpaque(layers, l)
    ensures LayerColor(HalfTexture(layers), layers[l], x, y).a < 1.0
  {
    var s := SampleOf(HalfTexture(layers), layers[l], x, y);
    if OpaqueBuffer(layers, layers[l].buffer) {
      assert layers[l].alpha < 255;
      assert Times(1.0, s.alpha) == s.alpha;
    } else {
      UnitBounds(0.5, s.alpha);
    }
  }

  lemma {:induction false} HalfVisible(layers: seq<Layer>, layer: Layer, x: int, y: int)
    requires Drawable(layer) && CanShow(layer)
    ensures LayerColor(HalfTexture(layers), layer, x, y).a > 0.0
  {
    var s := SampleOf(HalfTexture(layers), layer, x, y);
    PositiveProduct(s.texel.a, s.alpha);
  }

  // ---------------------------------------------------------------- the layers on planes

  /** A layer as committed has valid texels where the layer has. */
  lemma {:induction false} OnPlanesValid(tex: Texture, layers: seq<Layer>, direct: seq<nat>)
    requires WellFormed(layers) && ValidTexture(tex, layers)
    ensures WellFormed(OnPlanes(layers, direct)) && ValidTexture(tex, OnPlanes(layers, direct))
  {
    var r := OnPlanes(layers, direct);
    forall l, px, py | 0 <= l < |r|
      ensures ValidTexel(r[l], tex(r[l].buffer, px, py))
    {
      assert ValidTexel(layers[l], tex(layers[l].buffer, px, py));
    }
  }

  /** Only the direct layers look different on their planes. */
  lemma {:induction false} PlaneView(tex: Texture, layers: seq<Layer>, direct: seq<nat>, x: int, y: int)
    ensures DirectDiffers(ViewAt(tex, OnPlanes(layers, direct), x, y), ViewAt(tex, layers, x, y), direct)
  {
  }

  // ---------------------------------------------------------------- one frame

  /** The squash buffer was drawn from layers that are still the same. */
  ghost predicate Backed(layers: seq<Layer>, regions: seq<RectSet>, flags: seq<bool>,
                         drawnFrom: seq<Layer>, drawn: seq<CompositionRegion>)
    requires |regions| == |flags|
  {
    true in flags ==>
      && drawn == FlaggedRegions(regions, flags, |layers|)
      && forall i :: 0 <= i < |regions| && flags[i] ==> LayersKept(regions[i].ids, drawnFrom, layers)
  }

  /** What is on the screen at a cell: direct layers as committed, the others as drawn. */
  function Displayed(tex: Texture, layers: seq<Layer>, a: Assignment, preComp: seq<CompositionRegion>,
                     drawnFrom: seq<Layer>, drawn: seq<CompositionRegion>, x: int, y: int): Rgba
  {
    OnScreen(ViewAt(tex, OnPlanes(layers, a.direct), x, y), ViewAt(tex, layers, x, y), a, preComp,
             ViewAt(tex, drawnFrom, x, y), drawn, x, y)
  }

  /** Whatever the buffers hold, the cell shows what is wanted. */
  ghost predicate Faithful(layers: seq<Layer>, a: Assignment, preComp: seq<CompositionRegion>,
                           drawnFrom: seq<Layer>, drawn: seq<CompositionRegion>, x: int, y: int)
  {
    forall tex :: ValidTexture(tex, layers) ==>
      Displayed(tex, layers, a, preComp, drawnFrom, drawn, x, y) == Wanted(tex, layers, x, y)
  }

  /** Some layer over the cell hides what is below it. */
  ghost predicate OpaqueCell(layers: seq<Layer>, x: int, y: int) {
    exists l :: l in Cover(Frames(layers), x, y) && AlwaysOpaque(layers, l)
  }

  /** No layer of a list can be seen at the cell. */
  ghost predicate NothingSeen(layers: seq<Layer>, list: seq<nat>, x: int, y: int) {
    forall l :: l in list && l in Cover(Frames(layers), x, y) ==> !CanShow(layers[l])
  }

  /** No layer that has a plane of its own can be seen at the cell, as committed. */
  ghost predicate NothingDirect(usable: nat, layers: seq<Layer>, regions: seq<RectSet>, flags: seq<bool>, x: int, y: int)
    requires |regions| == |flags|
  {
    forall l :: l in Cover(Frames(layers), x, y) && DirectLayer(usable, layers, regions, flags, l) ==>
      !CanShow(Committed(layers[l]))
  }

  lemma {:induction false} NothingDirectIff(usable: nat, layers: seq<Layer>, regions: seq<RectSet>, flags: seq<bool>,
                                            a: Assignment, preComp: seq<CompositionRegion>, x: int, y: int)
    requires |regions| == |flags| && FramePlan(usable, layers, regions, flags, a, preComp)
    ensures NothingDirect(usable, layers, regions, flags, x, y) <==> NothingSeen(OnPlanes(layers, a.direct), a.direct, x, y)
  {
    DirectIff(usable, ProtectedFlags(layers), NeededFlags(layers, regions, flags), true in flags, a);
  }

  /** The squash buffer shows what drawing it now would show. */
  lemma {:induction false} BackedColor(tex: Texture, layers: seq<Layer>, regions: seq<RectSet>, flags: seq<bool>,
                                       drawnFrom: seq<Layer>, drawn: seq<CompositionRegion>, x: int, y: int)
    requires |regions| == |flags| && Backed(layers, regions, flags, drawnFrom, drawn) && true in flags
    ensures BufferColor(ViewAt(tex, drawnFrom, x, y), drawn, x, y)
         == BufferColor(ViewAt(tex, layers, x, y), FlaggedRegions(regions, flags, |layers|), x, y)
  {
    var v, w := ViewAt(tex, drawnFrom, x, y), ViewAt(tex, layers, x, y);
    forall i | 0 <= i < |drawn|
      ensures SameLayers(v, w, drawn[i], x, y)
    {
      assert drawn[i] in drawn;
      FlaggedRegionsAre(regions, flags, |layers|, drawn[i]);
      assert forall l :: l in drawn[i].sourceLayers ==> l < |layers| && l < |drawnFrom| && drawnFrom[l] == layers[l];
    }
    BufferSame(v, w, drawn, x, y);
  }

  /**
   What a cell shows: where the squash plane shows something, the picture that is wanted over the
   direct layers once more; elsewhere the layers that are kept, the direct ones as committed.
   */
  lemma {:induction false} CellShows(tex: Texture, usable: nat, layers: seq<Layer>, regions: seq<RectSet>, flags: seq<bool>,
                                     a: Assignment, preComp: seq<CompositionRegion>,
                                     drawnFrom: seq<Layer>, drawn: seq<CompositionRegion>, x: int, y: int)
    requires WellFormed(layers) && ValidTexture(tex, layers)
    requires Fits(usable, layers, regions, flags, a, preComp) && Backed(layers, regions, flags, drawnFrom, drawn)
    ensures var p := ViewAt(tex, OnPlanes(layers, a.direct), x, y);
            Displayed(tex, layers, a, preComp, drawnFrom, drawn, x, y)
            == if a.squash && Squashed(regions, flags, x, y) then
                 Over(Wanted(tex, layers, x, y), StackOf(p, OverCell(p, a.direct)))
               else
                 StackOf(p, Descending(KeptLayers(layers, regions, flags, a, x, y), |layers|))
  {
    var p, v := ViewAt(tex, OnPlanes(layers, a.direct), x, y), ViewAt(tex, layers, x, y);
    var squash := BufferColor(ViewAt(tex, drawnFrom, x, y), drawn, x, y);
    ViewIsSolid(tex, layers, x, y);
    PlaneView(tex, layers, a.direct, x, y);
    if a.squash {
      BackedColor(tex, layers, regions, flags, drawnFrom, drawn, x, y);
    }
    if a.squash && Squashed(regions, flags, x, y) {
      CellInside(p, v, usable, layers, regions, flags, a, preComp, squash, x, y);
      ViewStack(tex, layers, Descending(v.over, |layers|), x, y);
    } else {
      CellKept(p, v, usable, layers, regions, flags, a, preComp, squash, x, y);
    }
  }

  // ---------------------------------------------------------------- where the squash plane shows something

  lemma {:induction false} OpaqueEnough(tex: Texture, layers: seq<Layer>, below: Rgba, x: int, y: int)
    requires WellFormed(layers) && ValidTexture(tex, layers)
    requires OpaqueCell(layers, x, y)
    ensures Over(Wanted(tex, layers, x, y), below) == Wanted(tex, layers, x, y)
  {
    var l :| l in Cover(Frames(layers), x, y) && AlwaysOpaque(layers, l);
    var order := Descending(Cover(Frames(layers), x, y), |layers|);
    assert l in order;
    var k :| 0 <= k < |order| && order[k] == l;
    OpaqueColor(tex, layers, l, x, y);
    StackWithOpaque(LayerColors(tex, layers, order, x, y), k);
    OverOpaque(Wanted(tex, layers, x, y), below);
  }

  lemma {:induction false} StackClear(colors: seq<Rgba>)
    requires forall i :: 0 <= i < |colors| ==> colors[i] == CLEAR
    ensures Stack(colors) == CLEAR
  {
    if colors != [] {
      StackClear(colors[1..]);
      OverClear(CLEAR);
    }
  }

  /** What cannot be seen adds nothing. */
  lemma {:induction false} NothingSeenClear(tex: Texture, layers: seq<Layer>, list: seq<nat>, x: int, y: int)
    requires Increasing(list) && NothingSeen(layers, list, x, y)
    ensures StackOf(ViewAt(tex, layers, x, y), OverCell(ViewAt(tex, layers, x, y), list)) == CLEAR
  {
    var v := ViewAt(tex, layers, x, y);
    var over := OverCell(v, list);
    OverCellHas(v, list);
    forall i | 0 <= i < |over|
      ensures LayerColors(tex, layers, over, x, y)[i] == CLEAR
    {
      assert over[i] in over;
      FadedColor(tex, layers[over[i]], x, y);
    }
    StackClear(LayerColors(tex, layers, over, x, y));
    ViewStack(tex, layers, over, x, y);
  }

  /** With half-transparent buffers the layers of a cell without an opaque one are translucent together. */
  lemma {:induction false} HalfTranslucent(layers: seq<Layer>, x: int, y: int)
    requires WellFormed(layers) && !OpaqueCell(layers, x, y)
    ensures Wanted(HalfTexture(layers), layers, x, y).a < 1.0
  {
    var tex, order := HalfTexture(layers), Descending(Cover(Frames(layers), x, y), |layers|);
    forall i | 0 <= i < |order|
      ensures LayerColors(tex, layers, order, x, y)[i].a < 1.0
    {
      assert order[i] in order;
      HalfColor(layers, order[i], x, y);
    }
    StackTranslucent(LayerColors(tex, layers, order, x, y));
  }

  /** And the planes of a list with a layer that can be seen are visible together. */
  lemma {:induction false} HalfPlanesVisible(layers: seq<Layer>, direct: seq<nat>, x: int, y: int)
    requires WellFormed(layers) && Increasing(direct)
    requires !NothingSeen(OnPlanes(layers, direct), direct, x, y)
    ensures var p := ViewAt(HalfTexture(layers), OnPlanes(layers, direct), x, y); StackOf(p, OverCell(p, direct)).a > 0.0
  {
    var tex, committed := HalfTexture(layers), OnPlanes(layers, direct);
    var p := ViewAt(tex, committed, x, y);
    var list := OverCell(p, direct);
    OverCellHas(p, direct);
    HalfValid(layers);
    OnPlanesValid(tex, layers, direct);
    var l :| l in direct && l in p.over && CanShow(committed[l]);
    assert l in list;
    var k :| 0 <= k < |list| && list[k] == l;
    HalfVisible(layers, committed[l], x, y);
    ColorsValid(tex, committed, list, x, y);
    StackVisible(LayerColors(tex, committed, list, x, y), k);
    ViewStack(tex, committed, list, x, y);
  }

  /** So a direct layer that can be seen shows through. */
  lemma {:induction false} ShowsThrough(layers: seq<Layer>, direct: seq<nat>, x: int, y: int)
    requires WellFormed(layers) && Increasing(direct)
    requires !OpaqueCell(layers, x, y) && !NothingSeen(OnPlanes(layers, direct), direct, x, y)
    ensures var tex := HalfTexture(layers);
            var p := ViewAt(tex, OnPlanes(layers, direct), x, y);
            Over(Wanted(tex, layers, x, y), StackOf(p, OverCell(p, direct))) != Wanted(tex, layers, x, y)
  {
    var p := ViewAt(HalfTexture(layers), OnPlanes(layers, direct), x, y);
    HalfTranslucent(layers, x, y);
    HalfPlanesVisible(layers, direct, x, y);
    OverDiffers(Wanted(HalfTexture(layers), layers, x, y), StackOf(p, OverCell(p, direct)));
  }

  lemma {:induction false} OverDiffers(t: Rgba, u: Rgba)
    requires t.a < 1.0 && u.a > 0.0
    ensures Over(t, u) != t
  {
    PositiveProduct(1.0 - t.a, u.a);
  }

  /**
   Where the squash plane shows something the cell shows the wanted picture, whatever the buffers
   hold, if and only if nothing can be seen of the direct layers there, or some layer is opaque.
   */
  lemma {:induction false} SquashedIff(usable: nat, layers: seq<Layer>, regions: seq<RectSet>, flags: seq<bool>,
                                       a: Assignment, preComp: seq<CompositionRegion>,
                                       drawnFrom: seq<Layer>, drawn: seq<CompositionRegion>, x: int, y: int)
    requires WellFormed(layers)
    requires Fits(usable, layers, regions, flags, a, preComp) && Backed(layers, regions, flags, drawnFrom, drawn)
    requires a.squash && Squashed(regions, flags, x, y)
    ensures Faithful(layers, a, preComp, drawnFrom, drawn, x, y) <==>
              NothingDirect(usable, layers, regions, flags, x, y) || OpaqueCell(layers, x, y)
  {
    NothingDirectIff(usable, layers, regions, flags, a, preComp, x, y);
    if NothingDirect(usable, layers, regions, flags, x, y) || OpaqueCell(layers, x, y) {
      forall tex | ValidTexture(tex, layers)
        ensures Displayed(tex, layers, a, preComp, drawnFrom, drawn, x, y) == Wanted(tex, layers, x, y)
      {
        SquashedIsWanted(tex, usable, layers, regions, flags, a, preComp, drawnFrom, drawn, x, y);
      }
    } else {
      var tex := HalfTexture(layers);
      HalfValid(layers);
      CellShows(tex, usable, layers, regions, flags, a, preComp, drawnFrom, drawn, x, y);
      ShowsThrough(layers, a.direct, x, y);
    }
  }

  lemma {:induction false} SquashedIsWanted(tex: Texture, usable: nat, layers: seq<Layer>, regions: seq<RectSet>, flags: seq<bool>,
                                            a: Assignment, preComp: seq<CompositionRegion>,
                                            drawnFrom: seq<Layer>, drawn: seq<CompositionRegion>, x: int, y: int)
    requires WellFormed(layers) && ValidTexture(tex, layers)
    requires Fits(usable, layers, regions, flags, a, preComp) && Backed(layers, regions, flags, drawnFrom, drawn)
    requires a.squash && Squashed(regions, flags, x, y)
    requires NothingSeen(OnPlanes(layers, a.direct), a.direct, x, y) || OpaqueCell(layers, x, y)
    ensures Displayed(tex, layers, a, preComp, drawnFrom, drawn, x, y) == Wanted(tex, layers, x, y)
  {
    var p := ViewAt(tex, OnPlanes(layers, a.direct), x, y);
    CellShows(tex, usable, layers, regions, flags, a, preComp, drawnFrom, drawn, x, y);
    if OpaqueCell(layers, x, y) {
      OpaqueEnough(tex, layers, StackOf(p, OverCell(p, a.direct)), x, y);
    } else {
      NothingSeenClear(tex, OnPlanes(layers, a.direct), a.direct, x, y);
      OverClear(Wanted(tex, layers, x, y));
    }
  }
}
