/** The pixels on the screen, with the early end of the fragment program, against the picture. */
module Pixels {
  import opened Rects
  import opened Sweep
  import opened Layers
  import opened SquashCache
  import opened Planes
  import opened Composition
  import opened Blend
  import opened Sampling
  import opened Stacking
  import opened Screen
  import opened Commit
  import opened Picture
  import opened AnyFrame

  /** No channel is off by more than half a step of an 8-bit channel. */
  predicate Within(c: Rgba, exact: Rgba) {
    && -0.5 / 255.0 <= exact.r - c.r <= 0.5 / 255.0
    && -0.5 / 255.0 <= exact.g - c.g <= 0.5 / 255.0
    && -0.5 / 255.0 <= exact.b - c.b <= 0.5 / 255.0
    && -0.5 / 255.0 <= exact.a - c.a <= 0.5 / 255.0
  }

  lemma {:induction false} MixWithin(x': real, x: real, a': real, a: real, y: real)
    requires 0.0 <= x - x' <= CUTOFF && 0.0 <= a - a' <= CUTOFF && 0.0 <= y <= 1.0
    ensures -CUTOFF <= Mix(x, a, y) - Mix(x', a', y) <= CUTOFF
  {
    UnitBounds(a - a', y);
    assert Times(1.0 - a', y) - Times(1.0 - a, y) == Times(a - a', y);
  }

  lemma {:induction false} OverWithin(t': Rgba, t: Rgba, u: Rgba)
    requires Near(t', t) && Valid(u)
    ensures Within(Over(t', u), Over(t, u))
  {
    MixWithin(t'.r, t.r, t'.a, t.a, u.r);
    MixWithin(t'.g, t.g, t'.a, t.a, u.g);
    MixWithin(t'.b, t.b, t'.a, t.a, u.b);
    MixWithin(t'.a, t.a, t'.a, t.a, u.a);
  }

  lemma {:induction false} StackedWithin(squash': Rgba, preComp': Rgba, squash: Rgba, preComp: Rgba, below: Rgba)
    requires Rendered(squash', squash) && Rendered(preComp', preComp) && Valid(below)
    requires squash == CLEAR || preComp == CLEAR
    ensures Within(Over(squash', Over(preComp', below)), Over(squash, Over(preComp, below)))
  {
    OverClear(below);
    OverClear(Over(preComp', below));
    OverClear(Over(preComp, below));
    if squash == CLEAR {
      if preComp != CLEAR {
        OverWithin(preComp', preComp, below);
      }
    } else {
      OverWithin(squash', squash, below);
    }
  }

  /** At no cell do both buffers show something. */
  lemma {:induction false} BuffersApart(tex: Texture, usable: nat, layers: seq<Layer>, regions: seq<RectSet>, flags: seq<bool>,
                                        a: Assignment, preComp: seq<CompositionRegion>,
                                        drawnFrom: seq<Layer>, drawn: seq<CompositionRegion>, x: int, y: int)
    requires WellFormed(layers) && ValidTexture(tex, layers)
    requires Fits(usable, layers, regions, flags, a, preComp) && Backed(layers, regions, flags, drawnFrom, drawn)
    requires a.squash
    ensures || BufferColor(ViewAt(tex, layers, x, y), preComp, x, y) == CLEAR
            || BufferColor(ViewAt(tex, drawnFrom, x, y), drawn, x, y) == CLEAR
  {
    var v := ViewAt(tex, layers, x, y);
    ViewIsSolid(tex, layers, x, y);
    PreCompAt(v, usable, layers, regions, flags, a, preComp, x, y);
    BackedColor(tex, layers, regions, flags, drawnFrom, drawn, x, y);
    SquashAt(v, layers, regions, flags, x, y);
  }

  lemma {:induction false} DirectValid(tex: Texture, layers: seq<Layer>, direct: seq<nat>, x: int, y: int)
    requires WellFormed(layers) && ValidTexture(tex, layers)
    ensures var p := ViewAt(tex, OnPlanes(layers, direct), x, y); Valid(StackOf(p, OverCell(p, direct)))
  {
    var committed := OnPlanes(layers, direct);
    var p := ViewAt(tex, committed, x, y);
    OnPlanesValid(tex, layers, direct);
    ViewStack(tex, committed, OverCell(p, direct), x, y);
    ColorsValid(tex, committed, OverCell(p, direct), x, y);
    StackValid(LayerColors(tex, committed, OverCell(p, direct), x, y));
  }

  /** Where the picture is right, the pixels on the screen are within half a step of it. */
  lemma {:induction false} PixelsWithin(tex: Texture, usable: nat, layers: seq<Layer>, regions: seq<RectSet>, flags: seq<bool>,
                                        a: Assignment, preComp: seq<CompositionRegion>,
                                        drawnFrom: seq<Layer>, drawn: seq<CompositionRegion>, x: int, y: int,
                                        prePixel: Rgba, squashPixel: Rgba)
    requires WellFormed(layers) && ValidTexture(tex, layers)
    requires Fits(usable, layers, regions, flags, a, preComp) && Backed(layers, regions, flags, drawnFrom, drawn)
    requires RightAt(usable, layers, regions, flags, x, y)
    requires Rendered(prePixel, BufferColor(ViewAt(tex, layers, x, y), preComp, x, y))
    requires a.squash ==> Rendered(squashPixel, BufferColor(ViewAt(tex, drawnFrom, x, y), drawn, x, y))
    ensures Within(Shown(ViewAt(tex, OnPlanes(layers, a.direct), x, y), SourcesOf(a.planes), prePixel, squashPixel),
                   Wanted(tex, layers, x, y))
  {
    var v, p := ViewAt(tex, layers, x, y), ViewAt(tex, OnPlanes(layers, a.direct), x, y);
    FaithfulIff(usable, layers, regions, flags, a, preComp, drawnFrom, drawn, x, y);
    PaintLawful();
    if a.squash {
      BuffersApart(tex, usable, layers, regions, flags, a, preComp, drawnFrom, drawn, x, y);
    }
    PlanShown(p, a, prePixel, squashPixel);
    PlanShown(p, a, BufferColor(v, preComp, x, y), BufferColor(ViewAt(tex, drawnFrom, x, y), drawn, x, y));
    DirectValid(tex, layers, a.direct, x, y);
    StackedWithin(if a.squash then squashPixel else CLEAR, if a.preComp == [] then CLEAR else prePixel,
                  if a.squash then BufferColor(ViewAt(tex, drawnFrom, x, y), drawn, x, y) else CLEAR,
                  if a.preComp == [] then CLEAR else BufferColor(v, preComp, x, y),
                  StackOf(p, OverCell(p, a.direct)));
  }

  // ---------------------------------------------------------------- what is drawn

  /** The regions of a plan have only layers over the cell, wherever they are over it. */
  lemma {:induction false} PreCompCovered(usable: nat, layers: seq<Layer>, regions: seq<RectSet>, flags: seq<bool>,
                                          a: Assignment, preComp: seq<CompositionRegion>, x: int, y: int)
    requires Fits(usable, layers, regions, flags, a, preComp)
    ensures DrawsCovered(layers, preComp, x, y)
  {
    DrawnAt(usable, layers, regions, flags, a, preComp, x, y);
    DrawingIsCovered(layers, a, x, y);
  }

  lemma {:induction false} SquashCovered(layers: seq<Layer>, regions: seq<RectSet>, flags: seq<bool>,
                                         drawnFrom: seq<Layer>, drawn: seq<CompositionRegion>, x: int, y: int)
    requires |regions| == |flags| && Separated(Frames(layers), regions) && true in flags
    requires Backed(layers, regions, flags, drawnFrom, drawn)
    ensures DrawsCovered(drawnFrom, drawn, x, y)
  {
    SquashedRegion(layers, regions, flags, x, y);
    forall i, l | 0 <= i < |drawn| && drawn[i].frame.Has(x, y) && l in drawn[i].sourceLayers
      ensures l in Cover(Frames(drawnFrom), x, y)
    {
      assert drawn[i] in drawn;
      FlaggedRegionsAre(regions, flags, |layers|, drawn[i]);
      assert l in Cover(Frames(layers), x, y);
    }
  }

  /**
   Draws the cell of the buffers that the planes show, and stacks the planes: where the picture
   is right every channel is within half a step of it.
   */
  method ScreenPixel(tex: Texture, ghost usable: nat, layers: seq<Layer>, ghost regions: seq<RectSet>, ghost flags: seq<bool>,
                     a: Assignment, preComp: seq<CompositionRegion>,
                     drawnFrom: seq<Layer>, drawn: seq<CompositionRegion>, x: int, y: int) returns (color: Rgba)
    requires WellFormed(layers) && ValidTexture(tex, layers) && WellFormed(drawnFrom) && ValidTexture(tex, drawnFrom)
    requires Fits(usable, layers, regions, flags, a, preComp) && Backed(layers, regions, flags, drawnFrom, drawn)
    ensures RightAt(usable, layers, regions, flags, x, y) ==> Within(color, Wanted(tex, layers, x, y))
  {
    var prePixel, squashPixel := CLEAR, CLEAR;
    PreCompCovered(usable, layers, regions, flags, a, preComp, x, y);
    prePixel := Composite(tex, layers, preComp, x, y);
    if a.squash {
      SquashCovered(layers, regions, flags, drawnFrom, drawn, x, y);
      squashPixel := Composite(tex, drawnFrom, drawn, x, y);
    }
    color := Shown(ViewAt(tex, OnPlanes(layers, a.direct), x, y), SourcesOf(a.planes), prePixel, squashPixel);
    if RightAt(usable, layers, regions, flags, x, y) {
      PixelsWithin(tex, usable, layers, regions, flags, a, preComp, drawnFrom, drawn, x, y, prePixel, squashPixel);
    }
  }
}
