/** The requests of a commit, carried out by the planes, against the picture of the plan. */
module CommitPicture {
  import opened Rects
  import opened Sweep
  import opened Layers
  import opened Planes
  import opened Blend
  import opened Sampling
  import opened Stacking
  import opened Commit
  import opened Picture

  /** The layer that shows a framebuffer: all of it, over the whole screen, premultiplied. */
  predicate Framebuffer(layer: Layer) {
    && layer.buffer.width > 0 && layer.buffer.height > 0
    && layer.transform == Transform(false, false, false, false, false) && layer.blending == PreMult && layer.alpha == 255
    && layer.sourceCrop == Crop(0.0, 0.0, layer.buffer.width as real, layer.buffer.height as real)
    && layer.displayFrame == Rect(0, 0, layer.buffer.width, layer.buffer.height)
  }

  /** The pixel of a framebuffer. */
  function Pixel(tex: Texture, buffer: Buffer, x: int, y: int): Rgba
    requires buffer.width > 0 && buffer.height > 0
  {
    tex(buffer, Middle(x) / buffer.width as real, Middle(y) / buffer.height as real)
  }

  /** The source of a plane once the frame is prepared: the framebuffers have layers of their own. */
  function Prepared(source: Source, preComp: Option<nat>, squash: Option<nat>): Option<nat> {
    match source
    case FromLayer(l) => Some(l)
    case PreComp => preComp
    case Squash => squash
    case Disabled => None
  }

  /** A plane that carries out a request. */
  function Carried(tex: Texture, r: Request, blending: Blending, x: int, y: int): Rgba {
    if r.Show? && r.frame.Has(x, y) then LayerColor(tex, Asked(r, blending), x, y) else CLEAR
  }

  /** The planes of a frame, each over those before it. */
  function CarriedAll(tex: Texture, requests: seq<Request>, blendings: seq<Blending>, x: int, y: int): Rgba
    requires |requests| == |blendings|
  {
    if requests == [] then CLEAR
    else
      var n := |requests| - 1;
      Over(Carried(tex, requests[n], blendings[n], x, y), CarriedAll(tex, requests[..n], blendings[..n], x, y))
  }

  /** A framebuffer on a plane shows its pixels. */
  lemma {:induction false} FramebufferShown(tex: Texture, layer: Layer, x: int, y: int)
    requires Framebuffer(layer) && Pixel(tex, layer.buffer, x, y).a <= 1.0
    ensures layer.displayFrame.Has(x, y) <==> 0 <= x < layer.buffer.width && 0 <= y < layer.buffer.height
    ensures LayerColor(tex, layer, x, y) == Pixel(tex, layer.buffer, x, y)
  {
    PixelCoord(Middle(x), layer.buffer.width);
    PixelCoord(Middle(y), layer.buffer.height);
    var t := Pixel(tex, layer.buffer, x, y);
    assert LayerAlpha(layer) == 1.0;
    PremultipliedFades(t, 1.0);
  }

  lemma {:induction false} PixelCoord(x: real, size: int)
    requires size > 0
    ensures Lerp(0.0 / size as real, size as real / size as real, Fraction(x, 0, size)) == x / size as real
  {
    assert size as real / size as real == 1.0;
  }

  /** The request of a plane is what `CommitFrame` makes of its layer. */
  ghost predicate Requested(r: Request, layer: Layer) {
    var c := layer.sourceCrop;
    r == Show(layer.buffer, layer.displayFrame,
              Whole(c.left), Whole(c.top), Whole(c.right - c.left), Whole(c.bottom - c.top),
              layer.transform, if layer.blending == PreMult then layer.alpha else 255)
  }

  /** Carried out, the request for a layer shows the layer as committed. */
  lemma {:induction false} CarriedIsCommitted(tex: Texture, r: Request, layer: Layer, x: int, y: int)
    requires Requested(r, layer)
    ensures Carried(tex, r, layer.blending, x, y)
         == if layer.displayFrame.Has(x, y) then LayerColor(tex, Committed(layer), x, y) else CLEAR
  {
    SameLook(tex, Asked(r, layer.blending), Committed(layer), x, y);
  }

  /** Protection does not show. */
  lemma {:induction false} SameLook(tex: Texture, a: Layer, b: Layer, x: int, y: int)
    requires b == a.(protectedUsage := b.protectedUsage)
    ensures LayerColor(tex, a, x, y) == LayerColor(tex, b, x, y)
  {
  }

  /** A framebuffer is committed as it is. */
  lemma {:induction false} FramebufferCommitted(layer: Layer)
    requires Framebuffer(layer)
    ensures Committed(layer) == layer
  {
    assert Whole(layer.buffer.width as real) == layer.buffer.width && Whole(layer.buffer.height as real) == layer.buffer.height;
    assert Whole(0.0) == 0;
  }

  /** The planes of a frame that is prepared: their layers are there, and the framebuffers cover the cell. */
  ghost predicate PreparedAt(tex: Texture, layers: seq<Layer>, sources: seq<Source>, preComp: Option<nat>, squash: Option<nat>,
                             preColor: Rgba, squashColor: Rgba, x: int, y: int)
  {
    && (forall k :: 0 <= k < |sources| && sources[k] != Disabled ==>
          Prepared(sources[k], preComp, squash).Some? && Prepared(sources[k], preComp, squash).value < |layers|)
    && (preComp.Some? && preComp.value < |layers| ==> Holds(tex, layers[preComp.value], preColor, x, y))
    && (squash.Some? && squash.value < |layers| ==> Holds(tex, layers[squash.value], squashColor, x, y))
  }

  ghost predicate Holds(tex: Texture, layer: Layer, color: Rgba, x: int, y: int) {
    Framebuffer(layer) && layer.displayFrame.Has(x, y) && Pixel(tex, layer.buffer, x, y) == color && color.a <= 1.0
  }

  /** The layers of the planes, as they are asked of them. */
  ghost predicate AllRequested(layers: seq<Layer>, sources: seq<Source>, preComp: Option<nat>, squash: Option<nat>,
                               requests: seq<Request>, blendings: seq<Blending>)
  {
    && |requests| == |blendings| == |sources|
    && forall k :: 0 <= k < |sources| ==>
         var layer := Prepared(sources[k], preComp, squash);
         if layer.Some? && layer.value < |layers| then
           Requested(requests[k], layers[layer.value]) && blendings[k] == layers[layer.value].blending
         else requests[k] == Off
  }

  /** One plane shows at a cell what the plan says of its source. */
  lemma {:induction false} PlaneCarried(tex: Texture, layers: seq<Layer>, direct: seq<nat>, sources: seq<Source>,
                                        preComp: Option<nat>, squash: Option<nat>, requests: seq<Request>, blendings: seq<Blending>,
                                        preColor: Rgba, squashColor: Rgba, k: nat, x: int, y: int)
    requires k < |sources| && AllRequested(layers, sources, preComp, squash, requests, blendings)
    requires PreparedAt(tex, layers, sources, preComp, squash, preColor, squashColor, x, y)
    requires forall l: nat :: FromLayer(l) in sources ==> l in direct
    ensures Carried(tex, requests[k], blendings[k], x, y)
         == PlaneColor(ViewAt(tex, OnPlanes(layers, direct), x, y), sources[k], preColor, squashColor)
  {
    if sources[k] != Disabled {
      var l := Prepared(sources[k], preComp, squash).value;
      CarriedIsCommitted(tex, requests[k], layers[l], x, y);
      if sources[k].FromLayer? {
        assert sources[k] in sources;
      } else {
        FramebufferCommitted(layers[l]);
        FramebufferShown(tex, layers[l], x, y);
      }
    }
  }

  /**
   What the planes show when they carry out the requests of a commit is what the plan says: the
   direct layers as committed, and the framebuffers with what was drawn into them.
   */
  lemma {:induction false} CommitShows(tex: Texture, layers: seq<Layer>, direct: seq<nat>, sources: seq<Source>,
                                       preComp: Option<nat>, squash: Option<nat>, requests: seq<Request>, blendings: seq<Blending>,
                                       preColor: Rgba, squashColor: Rgba, x: int, y: int)
    requires AllRequested(layers, sources, preComp, squash, requests, blendings)
    requires PreparedAt(tex, layers, sources, preComp, squash, preColor, squashColor, x, y)
    requires forall l: nat :: FromLayer(l) in sources ==> l in direct
    ensures CarriedAll(tex, requests, blendings, x, y)
         == Shown(ViewAt(tex, OnPlanes(layers, direct), x, y), sources, preColor, squashColor)
    decreases |sources|
  {
    if sources != [] {
      var n := |sources| - 1;
      assert forall s :: s in sources[..n] ==> s in sources;
      CommitShows(tex, layers, direct, sources[..n], preComp, squash, requests[..n], blendings[..n], preColor, squashColor, x, y);
      PlaneCarried(tex, layers, direct, sources, preComp, squash, requests, blendings, preColor, squashColor, n, x, y);
    }
  }

  /**
   The commit of a prepared frame: the framebuffers take the place of the sources that stand for
   them. If every layer is ready and the commit is not refused, each plane is asked for its layer.
   */
  method CommitPrepared(planes: seq<CompositionPlane>, layers: seq<Layer>, preComp: Option<nat>, squash: Option<nat>,
                        ready: set<nat>, turns: set<nat>, fades: set<nat>)
      returns (ret: int, requests: seq<Request>, blendings: seq<Blending>)
    ensures ret == 0 && (forall l :: 0 <= l < |layers| ==> l in ready) ==>
              AllRequested(layers, SourcesOf(planes), preComp, squash, requests, blendings)
  {
    var sources := SourcesOf(planes);
    var prepared := seq(|sources|, k requires 0 <= k < |sources| => Prepared(sources[k], preComp, squash));
    ret, requests := CommitFrame(PlanesOf(planes), prepared, layers, ready, turns, fades);
    blendings := seq(|sources|, k requires 0 <= k < |sources| =>
      if prepared[k].Some? && prepared[k].value < |layers| then layers[prepared[k].value].blending else NoBlend);
  }
}
