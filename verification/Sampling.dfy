/**
 Where the textures of a region are sampled: the crop, flip and rotation of a layer, carried
 out by the command that draws the region and the vertex program that runs it.
 */
module Sampling {
  import opened Rects
  import opened Layers

  datatype Point = Point(x: real, y: real)

  // ---------------------------------------------------------------- the reference

  /** A transform as the caller gives it: flips first, then a quarter turn clockwise. */
  datatype HalTransform = HalTransform(flipH: bool, flipV: bool, rotate90: bool)

  /** Where a point of the unit square goes. */
  function Forward(t: HalTransform, p: Point): Point {
    var flipped := Point(if t.flipH then 1.0 - p.x else p.x, if t.flipV then 1.0 - p.y else p.y);
    if t.rotate90 then Point(1.0 - flipped.y, flipped.x) else flipped
  }

  /** The number of quarter turns, as a transform: a half turn is both flips. */
  function Turn(quarters: nat): HalTransform
    requires quarters < 4
  {
    HalTransform(quarters >= 2, quarters >= 2, quarters % 2 == 1)
  }

  /** The quarter turns compose as turns do. */
  lemma {:induction false} TurnsCompose(a: nat, b: nat, p: Point)
    requires a < 4 && b < 4
    ensures Forward(Turn(a), Forward(Turn(b), p)) == Forward(Turn((a + b) % 4), p)
  {
  }

  /** The layer's flags: half and three-quarter turns stand for both flips and exclude the other flags. */
  function Decode(t: HalTransform): Transform {
    if t.flipH && t.flipV then
      if t.rotate90 then Transform(false, false, false, false, true)
      else Transform(false, false, false, true, false)
    else
      Transform(t.flipH, t.flipV, t.rotate90, false, false)
  }

  // ---------------------------------------------------------------- the command

  /** How a display position maps to a texture position: swap the axes, then flip them. */
  datatype Mapping = Mapping(swap: bool, flipX: bool, flipY: bool)

  function MappingOf(t: Transform): Mapping {
    if t == Transform(false, false, false, true, false) then Mapping(false, true, true)
    else if t == Transform(false, false, false, false, true) then Mapping(true, true, false)
    else if t.rotate90 then
      if t.flipH then Mapping(true, true, true)
      else if t.flipV then Mapping(true, false, false)
      else Mapping(true, false, true)
    else Mapping(false, t.flipH, t.flipV)
  }

  /** The point of the unit square of the source that is shown at a point of the display frame. */
  function SourcePoint(m: Mapping, p: Point): Point {
    var q := if m.swap then Point(p.y, p.x) else p;
    Point(Flip(m.flipX, q.x), Flip(m.flipY, q.y))
  }

  /** For every decoded transform the mapping undoes the transform. */
  lemma {:induction false} MappingIsInverse(t: HalTransform, p: Point)
    ensures Forward(t, SourcePoint(MappingOf(Decode(t)), p)) == p
    ensures SourcePoint(MappingOf(Decode(t)), Forward(t, p)) == p
  {
  }

  /** The crop of a texture by its corners: x1, y1, x2, y2. */
  datatype TextureSource = TextureSource(index: nat, crop: Crop, alpha: real, premult: real, swap: bool)

  datatype Command = Command(bounds: Rect, textures: seq<TextureSource>)

  predicate Drawable(layer: Layer) {
    layer.buffer.width > 0 && layer.buffer.height > 0 && !layer.displayFrame.Empty() && layer.alpha <= 255
  }

  /** The position of `x` in a span of the display frame, as a fraction. */
  function Fraction(x: real, lo: int, hi: int): real
    requires lo < hi
  {
    (x - lo as real) / (hi - lo) as real
  }

  /** The point at fraction `f` of the way from `lo` to `hi`. */
  function Lerp(lo: real, hi: real, f: real): real {
    lo + f * (hi - lo)
  }

  function Flip(flip: bool, f: real): real {
    if flip then 1.0 - f else f
  }

  /** The crop of the texture on axis 0 (x) or 1 (y), in texture coordinates. */
  function CropLow(layer: Layer, axis: nat): real
    requires Drawable(layer) && axis < 2
  {
    if axis == 0 then layer.sourceCrop.left / layer.buffer.width as real
    else layer.sourceCrop.top / layer.buffer.height as real
  }

  function CropHigh(layer: Layer, axis: nat): real
    requires Drawable(layer) && axis < 2
  {
    if axis == 0 then layer.sourceCrop.right / layer.buffer.width as real
    else layer.sourceCrop.bottom / layer.buffer.height as real
  }

  /** Where the texture of a layer is to be sampled for a point of the display. */
  function TexCoord(layer: Layer, px: real, py: real): Point
    requires Drawable(layer)
  {
    var d := layer.displayFrame;
    var p := Point(Fraction(px, d.left, d.right), Fraction(py, d.top, d.bottom));
    var s := SourcePoint(MappingOf(layer.transform), p);
    Point(Lerp(CropLow(layer, 0), CropHigh(layer, 0), s.x), Lerp(CropLow(layer, 1), CropHigh(layer, 1), s.y))
  }

  /** What the vertex program computes for a point of the region that is drawn. */
  function Sampled(bounds: Rect, src: TextureSource, px: real, py: real): Point
    requires !bounds.Empty()
  {
    var u, v := Fraction(px, bounds.left, bounds.right), Fraction(py, bounds.top, bounds.bottom);
    var temp := if src.swap then Point(v, u) else Point(u, v);
    Point(Lerp(src.crop.left, src.crop.right, temp.x), Lerp(src.crop.top, src.crop.bottom, temp.y))
  }

  function LayerAlpha(layer: Layer): real {
    if layer.blending == NoBlend then 1.0 else layer.alpha as real / 255.0
  }

  function LayerPremult(layer: Layer): real {
    if layer.blending == Coverage then 0.0 else 1.0
  }

  ghost predicate InRange(s: seq<nat>, n: nat) {
    forall i :: 0 <= i < |s| ==> s[i] < n
  }

  /** The layers that are drawn without blending. */
  function OpaqueIn(layers: seq<Layer>): set<nat> {
    set l: nat | l < |layers| && layers[l].blending == NoBlend
  }

  /** The sources down to the first that is in `solid`; nothing below that one is drawn. */
  function DownToOpaque(solid: set<nat>, sources: seq<nat>): (r: seq<nat>)
    ensures r <= sources
    ensures |r| < |sources| ==> |r| > 0 && r[|r| - 1] in solid
  {
    if sources == [] then []
    else if sources[0] in solid then sources[..1]
    else [sources[0]] + DownToOpaque(solid, sources[1..])
  }

  lemma {:induction false} OpaqueEnds(solid: set<nat>, sources: seq<nat>, k: nat)
    requires k <= |sources|
    requires forall i :: 0 <= i < k ==> sources[i] !in solid
    ensures k < |sources| && sources[k] in solid ==> DownToOpaque(solid, sources) == sources[..k + 1]
    ensures k == |sources| ==> DownToOpaque(solid, sources) == sources
  {
    if k > 0 {
      OpaqueEnds(solid, sources[1..], k - 1);
    }
  }

  // ---------------------------------------------------------------- affine arithmetic

  /** The crop bound for a corner `bound` of the region, along one axis. */
  function Bound(flip: bool, lo: real, hi: real, percent: real): real {
    if flip then hi - percent * (hi - lo) else lo + percent * (hi - lo)
  }

  lemma {:induction false} BoundIsCrop(flip: bool, lo: real, hi: real, percent: real)
    ensures Bound(flip, lo, hi, percent) == Lerp(lo, hi, Flip(flip, percent))
  {
    var size := hi - lo;
    assert (1.0 - percent) * size == size - percent * size;
  }

  /** Interpolating an affine map between two bounds gives the map. */
  lemma {:induction false} Interpolate(lo: real, size: real, a: real, b: real, u: real)
    ensures (lo + a * size) + u * ((lo + b * size) - (lo + a * size)) == lo + (a + u * (b - a)) * size
  {
    assert (lo + b * size) - (lo + a * size) == (b - a) * size by {
      assert (b - a) * size == b * size - a * size;
    }
    Regroup(u, b - a, size);
    assert (a + u * (b - a)) * size == a * size + (u * (b - a)) * size;
  }

  lemma {:induction false} Regroup(x: real, y: real, z: real)
    ensures x * (y * z) == (x * y) * z
  {
  }

  /** Fractions of a part of a span are fractions of the span. */
  lemma {:induction false} FractionOfPart(x: real, lo: int, hi: int, from: int, to: int)
    requires lo < hi && from < to
    ensures Fraction(from as real, lo, hi)
            + Fraction(x, from, to) * (Fraction(to as real, lo, hi) - Fraction(from as real, lo, hi))
         == Fraction(x, lo, hi)
  {
    var w, n := (hi - lo) as real, (to - from) as real;
    var f, t, l := from as real, to as real, lo as real;
    Difference(t - l, f - l, w);
    assert Fraction(to as real, lo, hi) - Fraction(from as real, lo, hi) == n / w;
    Cancel(x - f, n, w);
    Difference(x - l, f - l, w);
  }

  lemma {:induction false} Difference(x: real, y: real, w: real)
    requires w != 0.0
    ensures x / w - y / w == (x - y) / w
  {
  }

  lemma {:induction false} Cancel(x: real, n: real, w: real)
    requires n != 0.0 && w != 0.0
    ensures (x / n) * (n / w) == x / w
  {
    var q := x / n;
    assert q * n == x;
    Quotient(q, n, w);
  }

  lemma {:induction false} Quotient(q: real, n: real, w: real)
    requires w != 0.0
    ensures q * (n / w) == (q * n) / w
  {
  }

  /** One axis of the sampling: what is drawn for the region is what the layer asks for. */
  lemma {:induction false} AxisIndependent(flip: bool, lo: real, hi: real, x: real, dLo: int, dHi: int, from: int, to: int)
    requires dLo < dHi && from < to
    ensures var c1 := Bound(flip, lo, hi, Fraction(from as real, dLo, dHi));
            var c2 := Bound(flip, lo, hi, Fraction(to as real, dLo, dHi));
            var f := Fraction(x, dLo, dHi);
            Lerp(c1, c2, Fraction(x, from, to)) == Lerp(lo, hi, Flip(flip, f))
  {
    var size := hi - lo;
    var a, b, u := Fraction(from as real, dLo, dHi), Fraction(to as real, dLo, dHi), Fraction(x, from, to);
    FractionOfPart(x, dLo, dHi, from, to);
    BoundIsCrop(flip, lo, hi, a);
    BoundIsCrop(flip, lo, hi, b);
    if flip {
      Interpolate(lo, size, 1.0 - a, 1.0 - b, u);
      assert (1.0 - b) - (1.0 - a) == -(b - a);
      Negate(u, b - a);
    } else {
      Interpolate(lo, size, a, b, u);
    }
  }

  lemma {:induction false} Negate(u: real, d: real)
    ensures u * -d == -(u * d)
  {
  }

  // ---------------------------------------------------------------- building the command

  /** Edge `b` of a rectangle: left, top, right, bottom. */
  function Edge(r: Rect, b: nat): int
    requires b < 4
  {
    if b == 0 then r.left else if b == 1 then r.top else if b == 2 then r.right else r.bottom
  }

  /** The display edge that crop edge `j` follows: that of the other axis if the axes are swapped. */
  function Across(m: Mapping, j: nat): nat
    requires j < 4
  {
    if m.swap then (if j % 2 == 0 then j + 1 else j - 1) else j
  }

  function CropEdge(layer: Layer, bounds: Rect, m: Mapping, j: nat): real
    requires Drawable(layer) && j < 4
  {
    var b := Across(m, j);
    var d := layer.displayFrame;
    Bound(if j % 2 == 0 then m.flipX else m.flipY, CropLow(layer, j % 2), CropHigh(layer, j % 2),
          Fraction(Edge(bounds, b) as real, Edge(d, b % 2), Edge(d, b % 2 + 2)))
  }

  /** The crop of one texture, edge by edge. */
  method CropBounds(layer: Layer, bounds: Rect, m: Mapping) returns (crop: seq<real>)
    requires Drawable(layer)
    ensures |crop| == 4 && forall j :: 0 <= j < 4 ==> crop[j] == CropEdge(layer, bounds, m, j)
  {
    crop := [];
    for j := 0 to 4
      invariant |crop| == j && forall k :: 0 <= k < j ==> crop[k] == CropEdge(layer, bounds, m, k)
    {
      var b := Across(m, j);
      var lo, hi := Edge(layer.displayFrame, b % 2), Edge(layer.displayFrame, b % 2 + 2);
      var boundPercent := Fraction(Edge(bounds, b) as real, lo, hi);
      var flip := if j % 2 == 0 then m.flipX else m.flipY;
      crop := crop + [Bound(flip, CropLow(layer, j % 2), CropHigh(layer, j % 2), boundPercent)];
    }
  }

  /** The texture is sampled where the layer asks for it, whatever region is drawn. */
  lemma {:induction false} SamplingIndependent(layer: Layer, bounds: Rect, src: TextureSource, px: real, py: real)
    requires Drawable(layer) && !bounds.Empty()
    requires src.swap == MappingOf(layer.transform).swap
    requires src.crop == Crop(CropEdge(layer, bounds, MappingOf(layer.transform), 0),
                              CropEdge(layer, bounds, MappingOf(layer.transform), 1),
                              CropEdge(layer, bounds, MappingOf(layer.transform), 2),
                              CropEdge(layer, bounds, MappingOf(layer.transform), 3))
    ensures Sampled(bounds, src, px, py) == TexCoord(layer, px, py)
  {
    var m, d := MappingOf(layer.transform), layer.displayFrame;
    if m.swap {
      AxisIndependent(m.flipX, CropLow(layer, 0), CropHigh(layer, 0), py, d.top, d.bottom, bounds.top, bounds.bottom);
      AxisIndependent(m.flipY, CropLow(layer, 1), CropHigh(layer, 1), px, d.left, d.right, bounds.left, bounds.right);
    } else {
      AxisIndependent(m.flipX, CropLow(layer, 0), CropHigh(layer, 0), px, d.left, d.right, bounds.left, bounds.right);
      AxisIndependent(m.flipY, CropLow(layer, 1), CropHigh(layer, 1), py, d.top, d.bottom, bounds.top, bounds.bottom);
    }
  }

  /**
   Where a layer is sampled, in pixels of its buffer: the point of its crop that the transform
   takes to the given point of its display frame, each axis by its own.
   */
  lemma {:induction false} SamplesCrop(layer: Layer, t: HalTransform, px: real, py: real, q: Point)
    requires Drawable(layer) && layer.transform == Decode(t)
    requires var d := layer.displayFrame;
             Forward(t, q) == Point((px - d.left as real) / (d.right - d.left) as real, (py - d.top as real) / (d.bottom - d.top) as real)
    ensures var c, s := layer.sourceCrop, TexCoord(layer, px, py);
            && s.x * layer.buffer.width as real == c.left + q.x * (c.right - c.left)
            && s.y * layer.buffer.height as real == c.top + q.y * (c.bottom - c.top)
  {
    MappingIsInverse(t, q);
    CropInPixels(layer, px, py, Forward(t, q), q);
  }

  lemma {:induction false} CropInPixels(layer: Layer, px: real, py: real, p: Point, q: Point)
    requires Drawable(layer) && SourcePoint(MappingOf(layer.transform), p) == q
    requires Fraction(px, layer.displayFrame.left, layer.displayFrame.right) == p.x
    requires Fraction(py, layer.displayFrame.top, layer.displayFrame.bottom) == p.y
    ensures var c, s := layer.sourceCrop, TexCoord(layer, px, py);
            && s.x * layer.buffer.width as real == c.left + q.x * (c.right - c.left)
            && s.y * layer.buffer.height as real == c.top + q.y * (c.bottom - c.top)
  {
    var c := layer.sourceCrop;
    LerpInPixels(c.left, c.right, layer.buffer.width as real, q.x);
    LerpInPixels(c.top, c.bottom, layer.buffer.height as real, q.y);
    assert TexCoord(layer, px, py) == Point(Lerp(CropLow(layer, 0), CropHigh(layer, 0), q.x), Lerp(CropLow(layer, 1), CropHigh(layer, 1), q.y));
  }

  lemma {:induction false} LerpInPixels(lo: real, hi: real, size: real, f: real)
    requires size > 0.0
    ensures Lerp(lo / size, hi / size, f) * size == lo + f * (hi - lo)
  {
    var a, b := lo / size, hi / size;
    assert a * size == lo && b * size == hi;
    assert (b - a) * size == hi - lo;
    Regroup(f, b - a, size);
  }

  /** The texture source draws the layer at every point as the layer asks. */
  ghost predicate Draws(layers: seq<Layer>, bounds: Rect, src: TextureSource, l: nat)
    requires l < |layers| && !bounds.Empty()
  {
    && src.index == l
    && Drawable(layers[l])
    && src.alpha == LayerAlpha(layers[l]) && src.premult == LayerPremult(layers[l])
    && forall px, py :: Sampled(bounds, src, px, py) == TexCoord(layers[l], px, py)
  }

  /** The texture of one source. */
  method ConstructTexture(layers: seq<Layer>, bounds: Rect, l: nat) returns (src: TextureSource)
    requires !bounds.Empty() && l < |layers| && Drawable(layers[l])
    ensures Draws(layers, bounds, src, l)
  {
    var layer := layers[l];
    var m := MappingOf(layer.transform);
    var crop := CropBounds(layer, bounds, m);
    src := TextureSource(l, Crop(crop[0], crop[1], crop[2], crop[3]), 1.0, 1.0, m.swap);
    if layer.blending != NoBlend {
      src := src.(alpha := layer.alpha as real / 255.0, premult := if layer.blending == PreMult then 1.0 else 0.0);
    }
    forall px, py
      ensures Sampled(bounds, src, px, py) == TexCoord(layer, px, py)
    {
      SamplingIndependent(layer, bounds, src, px, py);
    }
  }

  /** The command that draws a region: its sources from the top, down to the first opaque one. */
  method ConstructCommand(layers: seq<Layer>, region: CompositionRegion) returns (cmd: Command)
    requires !region.frame.Empty() && InRange(region.sourceLayers, |layers|)
    requires forall i :: 0 <= i < |region.sourceLayers| ==> Drawable(layers[region.sourceLayers[i]])
    ensures cmd.bounds == region.frame
    ensures |cmd.textures| == |DownToOpaque(OpaqueIn(layers), region.sourceLayers)|
    ensures forall k :: 0 <= k < |cmd.textures| ==> Draws(layers, region.frame, cmd.textures[k], region.sourceLayers[k])
  {
    var textures: seq<TextureSource> := [];
    var sources := region.sourceLayers;
    for i := 0 to |sources|
      invariant |textures| == i
      invariant forall k :: 0 <= k < i ==> sources[k] !in OpaqueIn(layers)
      invariant forall k :: 0 <= k < i ==> Draws(layers, region.frame, textures[k], sources[k])
    {
      OpaqueEnds(OpaqueIn(layers), sources, i);
      var src := ConstructTexture(layers, region.frame, sources[i]);
      textures := textures + [src];
      if layers[sources[i]].blending == NoBlend {
        // This layer is solid: nothing below it is drawn.
        return Command(region.frame, textures);
      }
    }
    OpaqueEnds(OpaqueIn(layers), sources, |sources|);
    cmd := Command(region.frame, textures);
  }
}
