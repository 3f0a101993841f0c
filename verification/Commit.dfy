/** What the commit of a frame asks of its planes, and what a plane then shows of its layer. */
module Commit {
  import opened Rects
  import opened Layers
  import opened Planes
  import opened Sampling

  const EINVAL: int := 22

  // ---------------------------------------------------------------- a layer as it is committed

  /** The integer part, as a cast to an integer takes it. */
  function Whole(x: real): int {
    if x >= 0.0 then x.Floor else -((-x).Floor)
  }

  /** A crop in whole pixels: its corner and its size lose their fractions. */
  function WholeCrop(c: Crop): Crop {
    var left, top := Whole(c.left) as real, Whole(c.top) as real;
    Crop(left, top, left + Whole(c.right - c.left) as real, top + Whole(c.bottom - c.top) as real)
  }

  /** The layer as a plane of its own shows it: only a premultiplied layer passes its alpha on. */
  function Committed(layer: Layer): Layer {
    layer.(alpha := if layer.blending == PreMult then layer.alpha else 255, sourceCrop := WholeCrop(layer.sourceCrop))
  }

  /** The layers of a frame, those of a list as their planes show them. */
  function OnPlanes(layers: seq<Layer>, direct: seq<nat>): (r: seq<Layer>)
    ensures |r| == |layers| && Frames(r) == Frames(layers) && OpaqueIn(r) == OpaqueIn(layers)
    ensures forall l :: 0 <= l < |r| ==> r[l] == if l in direct then Committed(layers[l]) else layers[l]
  {
    var r := seq(|layers|, l requires 0 <= l < |layers| => if l in direct then Committed(layers[l]) else layers[l]);
    assert Frames(r) == Frames(layers);
    r
  }

  // ---------------------------------------------------------------- the commit

  /** What is asked of a plane: nothing, or a part of the layer's buffer in a part of the screen. */
  datatype Request = Off | Show(buffer: Buffer, frame: Rect, left: int, top: int, width: int, height: int,
                                rotation: Transform, alpha: nat)

  /**
   The requests of a frame, plane by plane. A plane whose source is a layer that is ready is asked
   to show that layer's buffer in its frame, the crop in whole pixels, with its transform and, if
   it is premultiplied, its alpha; any other plane is switched off. A plane that cannot turn or
   fade its layer makes the commit fail.
   */
  method CommitFrame(planes: seq<Plane>, sources: seq<Option<nat>>, layers: seq<Layer>, ready: set<nat>,
                     turns: set<nat>, fades: set<nat>) returns (ret: int, requests: seq<Request>)
    requires |planes| == |sources|
    ensures ret == 0 || ret == -22
    ensures ret == 0 <==> forall k :: 0 <= k < |planes| && sources[k].Some? && sources[k].value < |layers| && sources[k].value in ready ==>
                            var layer := layers[sources[k].value];
                            && (layer.transform != Transform(false, false, false, false, false) ==> planes[k].id in turns)
                            && (layer.blending == PreMult && layer.alpha != 255 ==> planes[k].id in fades)
    ensures ret == 0 ==>
              && |requests| == |planes|
              && forall k :: 0 <= k < |planes| ==>
                   if sources[k].Some? && sources[k].value < |layers| && sources[k].value in ready then
                     var layer := layers[sources[k].value];
                     var c := layer.sourceCrop;
                     requests[k] == Show(layer.buffer, layer.displayFrame,
                                         Whole(c.left), Whole(c.top), Whole(c.right - c.left), Whole(c.bottom - c.top),
                                         layer.transform, if layer.blending == PreMult then layer.alpha else 255)
                   else
                     requests[k] == Off
  {
    requests := [];
    for k := 0 to |planes|
      invariant |requests| == k
      invariant forall i :: 0 <= i < k && sources[i].Some? && sources[i].value < |layers| && sources[i].value in ready ==>
                  var layer := layers[sources[i].value];
                  && (layer.transform != Transform(false, false, false, false, false) ==> planes[i].id in turns)
                  && (layer.blending == PreMult && layer.alpha != 255 ==> planes[i].id in fades)
      invariant forall i :: 0 <= i < k ==>
                  if sources[i].Some? && sources[i].value < |layers| && sources[i].value in ready then
                    var layer := layers[sources[i].value];
                    var c := layer.sourceCrop;
                    requests[i] == Show(layer.buffer, layer.displayFrame,
                                        Whole(c.left), Whole(c.top), Whole(c.right - c.left), Whole(c.bottom - c.top),
                                        layer.transform, if layer.blending == PreMult then layer.alpha else 255)
                  else
                    requests[i] == Off
    {
      if sources[k] == None || sources[k].value >= |layers| || sources[k].value !in ready {
        requests := requests + [Off];
        continue;
      }
      var layer := layers[sources[k].value];
      var alpha := 255;
      if layer.blending == PreMult {
        alpha := layer.alpha;
      }
      var t := layer.transform;
      var turned := t.flipH || t.flipV || t.rotate90 || t.rotate180 || t.rotate270;
      if (turned && planes[k].id !in turns) || (alpha != 255 && planes[k].id !in fades) {
        return -EINVAL, requests;
      }
      var crop := layer.sourceCrop;
      requests := requests + [Show(layer.buffer, layer.displayFrame, Whole(crop.left), Whole(crop.top),
                                   Whole(crop.right - crop.left), Whole(crop.bottom - crop.top), t, alpha)];
    }
    ret := 0;
  }

  /** The layer that a request shows, with the blending of the layer it was made for. */
  function Asked(r: Request, blending: Blending): Layer
    requires r.Show?
  {
    Layer(r.buffer, false, r.rotation, blending, r.alpha,
          Crop(r.left as real, r.top as real, (r.left + r.width) as real, (r.top + r.height) as real), r.frame)
  }

  /** What is cut off lies between zero and one, towards zero. */
  lemma {:induction false} WholeIs(x: real)
    ensures x >= 0.0 ==> Whole(x) as real <= x < Whole(x) as real + 1.0
    ensures x <= 0.0 ==> Whole(x) as real - 1.0 < x <= Whole(x) as real
  {
  }

  // ---------------------------------------------------------------- where the plane differs from the drawing

  function Middle(x: int): real {
    x as real + 0.5
  }

  /** The plane shows another point of the buffer at the cell than drawing the layer would. */
  predicate Misplaced(layer: Layer, x: int, y: int) {
    Drawable(layer) && TexCoord(Committed(layer), Middle(x), Middle(y)) != TexCoord(layer, Middle(x), Middle(y))
  }

  /** The crop has its corner and its size in whole pixels. */
  predicate IsWhole(c: Crop) {
    && Whole(c.left) as real == c.left && Whole(c.right - c.left) as real == c.right - c.left
    && Whole(c.top) as real == c.top && Whole(c.bottom - c.top) as real == c.bottom - c.top
  }

  lemma {:induction false} WholeBelow(x: real)
    requires x >= 0.0
    ensures Whole(x) as real <= x
  {
  }

  /** A part of a span strictly inside it moves just when the span's start or size does. */
  lemma {:induction false} SpanMoves(lo: real, size: real, lo': real, size': real, w: real, f: real)
    requires lo' <= lo && size' <= size && w > 0.0 && 0.0 < f < 1.0
    ensures Lerp(lo' / w, (lo' + size') / w, f) == Lerp(lo / w, (lo + size) / w, f) <==> lo' == lo && size' == size
  {
    ScaledLerp(lo, size, w, f);
    ScaledLerp(lo', size', w, f);
    var p, p' := lo + f * size, lo' + f * size';
    assert p' / w == p / w <==> p' == p;
    Product(f, size - size');
    assert p - p' == (lo - lo') + f * (size - size');
  }

  lemma {:induction false} Product(f: real, d: real)
    requires f > 0.0 && d >= 0.0
    ensures f * d >= 0.0 && (f * d == 0.0 <==> d == 0.0)
  {
  }

  lemma {:induction false} ScaledLerp(lo: real, size: real, w: real, f: real)
    requires w > 0.0
    ensures Lerp(lo / w, (lo + size) / w, f) == (lo + f * size) / w
  {
    var s := size / w;
    assert s * w == size;
    assert (lo + size) / w - lo / w == s;
    assert (lo + f * size) / w == lo / w + (f * size) / w;
    assert (f * size) / w == f * s by {
      Quotient(f, size, w);
    }
  }

  lemma {:induction false} InsideFraction(x: int, lo: int, hi: int)
    requires lo <= x < hi
    ensures 0.0 < Fraction(Middle(x), lo, hi) < 1.0
  {
    var n, d := Middle(x) - lo as real, (hi - lo) as real;
    assert 0.0 < n < d;
    assert n / d > 0.0 && (d - n) / d > 0.0;
    assert n / d + (d - n) / d == 1.0;
  }

  /** Inside its frame a layer is shown where drawing would show it if and only if its crop is in whole pixels. */
  lemma {:induction false} MisplacedIff(layer: Layer, x: int, y: int)
    requires Drawable(layer) && layer.displayFrame.Has(x, y)
    requires 0.0 <= layer.sourceCrop.left <= layer.sourceCrop.right && 0.0 <= layer.sourceCrop.top <= layer.sourceCrop.bottom
    ensures Misplaced(layer, x, y) <==> !IsWhole(layer.sourceCrop)
  {
    var c, c', d := layer.sourceCrop, WholeCrop(layer.sourceCrop), layer.displayFrame;
    var p := Point(Fraction(Middle(x), d.left, d.right), Fraction(Middle(y), d.top, d.bottom));
    InsideFraction(x, d.left, d.right);
    InsideFraction(y, d.top, d.bottom);
    var s := SourcePoint(MappingOf(layer.transform), p);
    WholeBelow(c.left);
    WholeBelow(c.right - c.left);
    WholeBelow(c.top);
    WholeBelow(c.bottom - c.top);
    SpanMoves(c.left, c.right - c.left, c'.left, Whole(c.right - c.left) as real, layer.buffer.width as real, s.x);
    SpanMoves(c.top, c.bottom - c.top, c'.top, Whole(c.bottom - c.top) as real, layer.buffer.height as real, s.y);
    assert c.left + (c.right - c.left) == c.right && c.top + (c.bottom - c.top) == c.bottom;
  }

  // ---------------------------------------------------------------- what can be seen

  /** The layer is not faded out altogether. */
  predicate CanShow(layer: Layer) {
    layer.blending == NoBlend || layer.alpha > 0
  }

  /** A plane of its own shows the layer otherwise than drawing it would. */
  predicate Misshown(layer: Layer, x: int, y: int) {
    && CanShow(Committed(layer))
    && ((layer.blending == Coverage && layer.alpha < 255) || Misplaced(layer, x, y))
  }
}
