/** What one cell of the screen shows under the plan of a frame. */
module Screen {
  import opened Rects
  import opened Sweep
  import opened Pieces
  import opened Layers
  import opened SquashCache
  import opened Separate
  import opened Planes
  import opened Composition
  import opened Sampling
  import opened Stacking

  /** What is pre-composited, if anything, is few enough rectangles for the sweep. */
  ghost predicate FewRects(regions: seq<RectSet>, flags: seq<bool>, a: Assignment)
    requires |regions| == |flags|
  {
    a.preComp != [] ==> |FlaggedRects(regions, flags)| + |a.protectedLayers| + |a.preComp| <= MAX_ELEMENTS
  }

  /** A plan that is carried out. */
  ghost predicate Fits(usable: nat, layers: seq<Layer>, regions: seq<RectSet>, flags: seq<bool>,
                       a: Assignment, preComp: seq<CompositionRegion>)
  {
    && |regions| == |flags|
    && FramePlan(usable, layers, regions, flags, a, preComp)
    && (true in flags ==> Separated(Frames(layers), regions))
    && FewRects(regions, flags, a)
  }

  /** Such a plan without protected layers; with a squash buffer there are planes enough to show it. */
  ghost predicate Plain(usable: nat, layers: seq<Layer>, regions: seq<RectSet>, flags: seq<bool>,
                        a: Assignment, preComp: seq<CompositionRegion>)
  {
    && Fits(usable, layers, regions, flags, a, preComp)
    && (forall j :: 0 <= j < |layers| ==> !layers[j].protectedUsage)
    && (true in flags ==> usable > 1)
  }

  /** The cell lies in a region that is shown by the squash buffer. */
  ghost predicate Squashed(regions: seq<RectSet>, flags: seq<bool>, x: int, y: int)
    requires |regions| == |flags|
  {
    exists i :: 0 <= i < |regions| && flags[i] && regions[i].rect.Has(x, y)
  }

  /**
   What the planes of a frame show at the cell: `p` gives the layers as planes of their own show
   them, `v` as they are drawn, and `drawnView` those that the squash buffer was drawn from.
   */
  function OnScreen<C>(p: View<C>, v: View<C>, a: Assignment, preComp: seq<CompositionRegion>,
                       drawnView: View<C>, drawn: seq<CompositionRegion>, x: int, y: int): C
  {
    Shown(p, SourcesOf(a.planes), BufferColor(v, preComp, x, y), BufferColor(drawnView, drawn, x, y))
  }

  /** Only layers with planes of their own may look different. */
  ghost predicate DirectDiffers<C>(p: View<C>, v: View<C>, direct: seq<nat>) {
    p.paint == v.paint && p.over == v.over && forall l :: l !in direct ==> ColorOf(p, l) == ColorOf(v, l)
  }

  /** What the cell should show: all its layers, stacked. */
  function AllLayers<C>(v: View<C>, n: nat): C {
    StackOf(v, Descending(v.over, n))
  }

  ghost predicate ViewsCell<C(!new)>(v: View<C>, layers: seq<Layer>, x: int, y: int) {
    SolidView(v) && v.over == Cover(Frames(layers), x, y)
  }

  // ---------------------------------------------------------------- the squash buffer

  lemma {:induction false} SquashedIsExcluded(regions: seq<RectSet>, flags: seq<bool>, x: int, y: int)
    requires |regions| == |flags|
    ensures Excluded(FlaggedRects(regions, flags), x, y) <==> Squashed(regions, flags, x, y)
  {
    var rects := FlaggedRects(regions, flags);
    if i :| 0 <= i < |rects| && rects[i].Has(x, y) {
      FlaggedRectsAre(regions, flags, rects[i]);
    }
    if i :| 0 <= i < |regions| && flags[i] && regions[i].rect.Has(x, y) {
      FlaggedRectsAre(regions, flags, regions[i].rect);
      var k :| 0 <= k < |rects| && rects[k] == regions[i].rect;
      assert rects[k].Has(x, y);
    }
  }

  /** The flagged regions over a cell have all layers of the cell. */
  lemma {:induction false} SquashedRegion(layers: seq<Layer>, regions: seq<RectSet>, flags: seq<bool>, x: int, y: int)
    requires |regions| == |flags| && Separated(Frames(layers), regions)
    ensures var drawn := FlaggedRegions(regions, flags, |layers|);
            && (Drawn(drawn, x, y) <==> Squashed(regions, flags, x, y))
            && forall i :: 0 <= i < |drawn| && drawn[i].frame.Has(x, y) ==>
                 drawn[i].sourceLayers == Descending(Cover(Frames(layers), x, y), |layers|)
  {
    var drawn := FlaggedRegions(regions, flags, |layers|);
    SeparatedIsExact(Frames(layers), regions);
    forall i | 0 <= i < |drawn| && drawn[i].frame.Has(x, y)
      ensures Squashed(regions, flags, x, y)
      ensures drawn[i].sourceLayers == Descending(Cover(Frames(layers), x, y), |layers|)
    {
      assert drawn[i] in drawn;
      FlaggedRegionsAre(regions, flags, |layers|, drawn[i]);
    }
    if i :| 0 <= i < |regions| && flags[i] && regions[i].rect.Has(x, y) {
      var c := CompositionRegion(regions[i].rect, Descending(regions[i].ids, |layers|));
      FlaggedRegionsAre(regions, flags, |layers|, c);
      var k :| 0 <= k < |drawn| && drawn[k] == c;
      assert drawn[k].frame.Has(x, y);
    }
  }

  /** The squash buffer has the stack of all layers in the squashed cells, and nothing elsewhere. */
  lemma {:induction false} SquashAt<C(!new)>(v: View<C>, layers: seq<Layer>, regions: seq<RectSet>, flags: seq<bool>, x: int, y: int)
    requires ViewsCell(v, layers, x, y)
    requires |regions| == |flags| && Separated(Frames(layers), regions)
    ensures BufferColor(v, FlaggedRegions(regions, flags, |layers|), x, y)
         == if Squashed(regions, flags, x, y) then AllLayers(v, |layers|) else v.paint.clear
  {
    var drawn := FlaggedRegions(regions, flags, |layers|);
    SquashedRegion(layers, regions, flags, x, y);
    var sources := Descending(v.over, |layers|);
    BufferAt(v, drawn, sources, x, y);
    assert forall i :: 0 <= i < |sources| ==> sources[i] in sources;
    OpaqueHides(v, sources);
  }

  // ---------------------------------------------------------------- the pre-composited buffer

  /** The pre-composited layers that are drawn at a cell outside the squashed regions. */
  function Drawing(layers: seq<Layer>, a: Assignment, x: int, y: int): set<nat>
    requires Below(a.preComp, |layers|) && Below(a.protectedLayers, |layers|)
  {
    LayersAt(a.preComp, Positions(Frames(layers), a.preComp, a.protectedLayers, x, y))
  }

  lemma {:induction false} DrawingIsCovered(layers: seq<Layer>, a: Assignment, x: int, y: int)
    requires Below(a.preComp, |layers|) && Below(a.protectedLayers, |layers|)
    ensures forall l :: l in Drawing(layers, a, x, y) ==> l in a.preComp && l in Cover(Frames(layers), x, y)
    ensures !CoveredBy(Frames(layers), a.preComp, x, y) ==> Drawing(layers, a, x, y) == {}
  {
    var positions := Positions(Frames(layers), a.preComp, a.protectedLayers, x, y);
    forall l | l in Drawing(layers, a, x, y)
      ensures l in a.preComp && l in Cover(Frames(layers), x, y) && CoveredBy(Frames(layers), a.preComp, x, y)
    {
      var k :| k in positions && k < |a.preComp| && a.preComp[k] == l;
    }
  }

  /** Without pre-composited layers nothing is drawn; else each region over the cell has just those of the cell. */
  lemma {:induction false} DrawnAt(usable: nat, layers: seq<Layer>, regions: seq<RectSet>, flags: seq<bool>,
                                   a: Assignment, preComp: seq<CompositionRegion>, x: int, y: int)
    requires Fits(usable, layers, regions, flags, a, preComp)
    ensures var sources := Descending(Drawing(layers, a, x, y), |layers|);
            && (forall i :: 0 <= i < |preComp| && preComp[i].frame.Has(x, y) ==> preComp[i].sourceLayers == sources)
            && (Squashed(regions, flags, x, y) ==> !Drawn(preComp, x, y))
            && (!Squashed(regions, flags, x, y) && sources != [] ==> Drawn(preComp, x, y))
  {
    SquashedIsExcluded(regions, flags, x, y);
    DrawingIsCovered(layers, a, x, y);
    PickDescending(a.preComp, Positions(Frames(layers), a.preComp, a.protectedLayers, x, y), |layers|);
    assert Drawn(preComp, x, y) <==> InRegion(preComp, x, y);
    var sources := Descending(Drawing(layers, a, x, y), |layers|);
    assert sources != [] ==> sources[0] in sources;
  }

  /** The pre-composited buffer has the stack of the layers drawn there, but nothing in squashed cells. */
  lemma {:induction false} PreCompAt<C(!new)>(v: View<C>, usable: nat, layers: seq<Layer>, regions: seq<RectSet>, flags: seq<bool>,
                                              a: Assignment, preComp: seq<CompositionRegion>, x: int, y: int)
    requires ViewsCell(v, layers, x, y)
    requires Fits(usable, layers, regions, flags, a, preComp)
    ensures BufferColor(v, preComp, x, y)
         == if Squashed(regions, flags, x, y) then v.paint.clear else StackOf(v, Descending(Drawing(layers, a, x, y), |layers|))
  {
    var sources := Descending(Drawing(layers, a, x, y), |layers|);
    DrawnAt(usable, layers, regions, flags, a, preComp, x, y);
    DrawingIsCovered(layers, a, x, y);
    BufferAt(v, preComp, sources, x, y);
    assert forall i :: 0 <= i < |sources| ==> sources[i] in sources;
    OpaqueHides(v, sources);
    StackOfNone(v);
  }

  // ---------------------------------------------------------------- the layers that are kept

  /** The layers of the cell that its planes show, but for the squash buffer. */
  ghost function KeptLayers(layers: seq<Layer>, regions: seq<RectSet>, flags: seq<bool>, a: Assignment, x: int, y: int): set<nat>
    requires |regions| == |flags|
    requires Below(a.preComp, |layers|) && Below(a.protectedLayers, |layers|)
  {
    set l | l in Cover(Frames(layers), x, y)
            && (l in a.direct || (l in Drawing(layers, a, x, y) && !Squashed(regions, flags, x, y)))
  }

  lemma {:induction false} DescendingConcat(upper: seq<nat>, lower: seq<nat>)
    requires forall i, j :: 0 <= i < j < |upper| ==> upper[i] > upper[j]
    requires forall i, j :: 0 <= i < j < |lower| ==> lower[i] > lower[j]
    requires forall i, j :: i in upper && j in lower ==> i > j
    ensures forall i, j :: 0 <= i < j < |upper + lower| ==> (upper + lower)[i] > (upper + lower)[j]
  {
    assert forall i :: 0 <= i < |upper| ==> upper[i] in upper;
    assert forall j :: 0 <= j < |lower| ==> lower[j] in lower;
  }

  lemma {:induction false} DrawingIsAboveHole(layers: seq<Layer>, a: Assignment, x: int, y: int, l: nat, p: nat)
    requires Below(a.preComp, |layers|) && Below(a.protectedLayers, |layers|) && Increasing(a.preComp)
    requires l in Drawing(layers, a, x, y) && p in a.protectedLayers && p in Cover(Frames(layers), x, y)
    requires p !in a.preComp
    ensures l > p
  {
    var k :| k in Positions(Frames(layers), a.preComp, a.protectedLayers, x, y) && k < |a.preComp| && a.preComp[k] == l;
    var i :| 0 <= i < |a.protectedLayers| && a.protectedLayers[i] == p;
    PositionBelowIndex(a.preComp, k);
    assert a.preComp[k] in a.preComp;
  }

  /** What is drawn at a cell lies above every layer there with a plane of its own. */
  lemma {:induction false} DrawingIsAbove(usable: nat, layers: seq<Layer>, regions: seq<RectSet>, flags: seq<bool>,
                                          a: Assignment, preComp: seq<CompositionRegion>, x: int, y: int, l: nat, d: nat)
    requires Fits(usable, layers, regions, flags, a, preComp)
    requires l in Drawing(layers, a, x, y) && d in a.direct && d in Cover(Frames(layers), x, y)
    ensures l > d
  {
    if layers[d].protectedUsage {
      assert d in a.protectedLayers;
      DrawingIsAboveHole(layers, a, x, y, l, d);
    } else {
      DrawingIsCovered(layers, a, x, y);
    }
  }

  lemma {:induction false} KeptList<C(!new)>(v: View<C>, usable: nat, layers: seq<Layer>, regions: seq<RectSet>, flags: seq<bool>,
                                             a: Assignment, preComp: seq<CompositionRegion>, x: int, y: int)
    requires v.over == Cover(Frames(layers), x, y)
    requires Fits(usable, layers, regions, flags, a, preComp)
    ensures Descending(KeptLayers(layers, regions, flags, a, x, y), |layers|)
         == Descending(if Squashed(regions, flags, x, y) then {} else Drawing(layers, a, x, y), |layers|) + OverCell(v, a.direct)
  {
    var upper := Descending(if Squashed(regions, flags, x, y) then {} else Drawing(layers, a, x, y), |layers|);
    var lower := OverCell(v, a.direct);
    OverCellHas(v, a.direct);
    DrawingIsCovered(layers, a, x, y);
    forall l, d | l in upper && d in lower
      ensures l > d
    {
      DrawingIsAbove(usable, layers, regions, flags, a, preComp, x, y, l, d);
    }
    DescendingConcat(upper, lower);
    DescendingUnique(Descending(KeptLayers(layers, regions, flags, a, x, y), |layers|), upper + lower);
  }

  // ---------------------------------------------------------------- the cell

  lemma {:induction false} StackedKept<C(!new)>(p: View<C>, v: View<C>, direct: seq<nat>, squash: C, preComp: C,
                                                upper: seq<nat>, lower: seq<nat>)
    requires Lawful(p.paint) && DirectDiffers(p, v, direct) && forall l :: l in upper ==> l !in direct
    requires squash == v.paint.clear && preComp == StackOf(v, upper)
    ensures p.paint.over(squash, p.paint.over(preComp, StackOf(p, lower))) == StackOf(p, upper + lower)
  {
    StackSame(p, v, upper);
    StackOfConcat(p, upper, lower);
  }

  /** The pre-composited buffer, or nothing in its place, has the stack of the layers that are kept in it. */
  lemma {:induction false} PreCompKept<C(!new)>(v: View<C>, usable: nat, layers: seq<Layer>, regions: seq<RectSet>, flags: seq<bool>,
                                                a: Assignment, preComp: seq<CompositionRegion>, x: int, y: int)
    requires ViewsCell(v, layers, x, y)
    requires Fits(usable, layers, regions, flags, a, preComp)
    ensures (if a.preComp == [] then v.paint.clear else BufferColor(v, preComp, x, y))
         == StackOf(v, Descending(if Squashed(regions, flags, x, y) then {} else Drawing(layers, a, x, y), |layers|))
  {
    StackOfNone(v);
    DescendingNone(|layers|);
    if a.preComp == [] {
      assert Drawing(layers, a, x, y) == {};
    } else {
      PreCompAt(v, usable, layers, regions, flags, a, preComp, x, y);
    }
  }

  lemma {:induction false} DescendingNone(n: nat)
    ensures Descending({}, n) == []
  {
    if n > 0 {
      DescendingNone(n - 1);
    }
  }

  lemma {:induction false} SquashClear<C(!new)>(v: View<C>, usable: nat, layers: seq<Layer>, regions: seq<RectSet>, flags: seq<bool>,
                                                a: Assignment, preComp: seq<CompositionRegion>, x: int, y: int)
    requires ViewsCell(v, layers, x, y)
    requires Fits(usable, layers, regions, flags, a, preComp) && a.squash && !Squashed(regions, flags, x, y)
    ensures BufferColor(v, FlaggedRegions(regions, flags, |layers|), x, y) == v.paint.clear
  {
    SquashAt(v, layers, regions, flags, x, y);
  }

  /** Where the squash buffer shows nothing, the planes show the stack of the layers that are kept. */
  lemma {:induction false} CellKept<C(!new)>(p: View<C>, v: View<C>, usable: nat, layers: seq<Layer>, regions: seq<RectSet>,
                                             flags: seq<bool>, a: Assignment, preComp: seq<CompositionRegion>, squash: C, x: int, y: int)
    requires ViewsCell(v, layers, x, y) && DirectDiffers(p, v, a.direct)
    requires Fits(usable, layers, regions, flags, a, preComp)
    requires a.squash ==> squash == BufferColor(v, FlaggedRegions(regions, flags, |layers|), x, y)
    requires a.squash ==> !Squashed(regions, flags, x, y)
    ensures Shown(p, SourcesOf(a.planes), BufferColor(v, preComp, x, y), squash)
         == StackOf(p, Descending(KeptLayers(layers, regions, flags, a, x, y), |layers|))
  {
    PlanShown(p, a, BufferColor(v, preComp, x, y), squash);
    DrawingIsCovered(layers, a, x, y);
    PreCompKept(v, usable, layers, regions, flags, a, preComp, x, y);
    if a.squash {
      SquashClear(v, usable, layers, regions, flags, a, preComp, x, y);
    }
    KeptList(p, usable, layers, regions, flags, a, preComp, x, y);
    StackedKept(p, v, a.direct, if a.squash then squash else v.paint.clear,
                if a.preComp == [] then v.paint.clear else BufferColor(v, preComp, x, y),
                Descending(if Squashed(regions, flags, x, y) then {} else Drawing(layers, a, x, y), |layers|),
                OverCell(p, a.direct));
  }

  /** Where it shows something, they show the stack of all layers, over the direct layers once more. */
  lemma {:induction false} CellInside<C(!new)>(p: View<C>, v: View<C>, usable: nat, layers: seq<Layer>, regions: seq<RectSet>,
                                               flags: seq<bool>, a: Assignment, preComp: seq<CompositionRegion>, squash: C, x: int, y: int)
    requires ViewsCell(v, layers, x, y) && DirectDiffers(p, v, a.direct)
    requires Fits(usable, layers, regions, flags, a, preComp) && a.squash
    requires squash == BufferColor(v, FlaggedRegions(regions, flags, |layers|), x, y)
    requires Squashed(regions, flags, x, y)
    ensures Shown(p, SourcesOf(a.planes), BufferColor(v, preComp, x, y), squash)
         == v.paint.over(AllLayers(v, |layers|), StackOf(p, OverCell(p, a.direct)))
  {
    PreCompAt(v, usable, layers, regions, flags, a, preComp, x, y);
    PlanShown(p, a, BufferColor(v, preComp, x, y), squash);
    assert true in flags;
    SquashAt(v, layers, regions, flags, x, y);
  }

  // ---------------------------------------------------------------- frames without protected layers

  lemma {:induction false} NoProtected(usable: nat, layers: seq<Layer>, regions: seq<RectSet>, flags: seq<bool>,
                                       a: Assignment, preComp: seq<CompositionRegion>)
    requires Plain(usable, layers, regions, flags, a, preComp)
    ensures a.protectedLayers == []
    ensures a.squash <==> true in flags
  {
    NoneProtected(ProtectedFlags(layers));
  }

  lemma {:induction false} NoneProtected(isProtected: seq<bool>)
    requires forall j :: 0 <= j < |isProtected| ==> !isProtected[j]
    ensures CountTrue(isProtected) == 0
  {
    if isProtected != [] {
      NoneProtected(isProtected[..|isProtected| - 1]);
    }
  }

  /** A layer that was left out for the squash buffer is over squashed cells only. */
  lemma {:induction false} DroppedIsSquashed(layers: seq<Layer>, regions: seq<RectSet>, flags: seq<bool>, l: nat, x: int, y: int)
    requires |regions| == |flags| && Separated(Frames(layers), regions)
    requires l < |layers| && !NeededFlags(layers, regions, flags)[l] && layers[l].displayFrame.Has(x, y)
    ensures Squashed(regions, flags, x, y)
  {
    SeparatedIsExact(Frames(layers), regions);
    KeptAreaReachesIff(Frames(layers), regions, flags, l);
    assert l in Cover(Frames(layers), x, y);
    assert Pieces.Covered(regions, x, y);
  }

  /** Without protected layers every layer is kept outside the squashed cells. */
  lemma {:induction false} AllKept(usable: nat, layers: seq<Layer>, regions: seq<RectSet>, flags: seq<bool>,
                                   a: Assignment, preComp: seq<CompositionRegion>, x: int, y: int)
    requires Plain(usable, layers, regions, flags, a, preComp)
    requires !Squashed(regions, flags, x, y)
    ensures KeptLayers(layers, regions, flags, a, x, y) == Cover(Frames(layers), x, y)
  {
    NoProtected(usable, layers, regions, flags, a, preComp);
    forall l | l in Cover(Frames(layers), x, y)
      ensures l in a.direct || l in Drawing(layers, a, x, y)
    {
      if l !in a.direct && l !in a.preComp {
        assert Dropped(a, ProtectedFlags(layers), NeededFlags(layers, regions, flags), l);
        DroppedIsSquashed(layers, regions, flags, l, x, y);
      } else if l in a.preComp {
        var k :| 0 <= k < |a.preComp| && a.preComp[k] == l;
        assert k in Positions(Frames(layers), a.preComp, a.protectedLayers, x, y);
      }
    }
  }

  /** Outside the squashed regions the planes show the stack of all layers, the direct ones as their planes show them. */
  lemma {:induction false} CellOutside<C(!new)>(p: View<C>, v: View<C>, usable: nat, layers: seq<Layer>, regions: seq<RectSet>,
                                                flags: seq<bool>, a: Assignment, preComp: seq<CompositionRegion>, squash: C, x: int, y: int)
    requires ViewsCell(v, layers, x, y) && DirectDiffers(p, v, a.direct)
    requires Plain(usable, layers, regions, flags, a, preComp)
    requires true in flags ==> squash == BufferColor(v, FlaggedRegions(regions, flags, |layers|), x, y)
    requires !Squashed(regions, flags, x, y)
    ensures Shown(p, SourcesOf(a.planes), BufferColor(v, preComp, x, y), squash) == AllLayers(p, |layers|)
  {
    NoProtected(usable, layers, regions, flags, a, preComp);
    CellKept(p, v, usable, layers, regions, flags, a, preComp, squash, x, y);
    AllKept(usable, layers, regions, flags, a, preComp, x, y);
  }

  // ---------------------------------------------------------------- layers and regions

  /** Every layer is on a plane of its own, or pre-composited, or left to the squash buffer; never two of these. */
  lemma {:induction false} EachLayerOnce(usable: nat, layers: seq<Layer>, regions: seq<RectSet>, flags: seq<bool>,
                                         a: Assignment, preComp: seq<CompositionRegion>, j: nat)
    requires |regions| == |flags| && j < |layers|
    requires FramePlan(usable, layers, regions, flags, a, preComp)
    ensures var direct, rest, dropped := OnPlane(a.planes, j), j in a.preComp,
                                         Dropped(a, ProtectedFlags(layers), NeededFlags(layers, regions, flags), j);
            && (direct || rest || dropped)
            && !(direct && rest) && !(direct && dropped) && !(rest && dropped)
            && (layers[j].protectedUsage ==> direct && !InRegions(preComp, j))
            && (dropped ==> Squash in SourcesOf(a.planes))
  {
    OnPlaneIffDirect(a, (if a.preComp == [] then [] else [PreComp]) + (if a.squash then [Squash] else []), j);
    PreCompBelow(usable, layers, regions, flags, a, preComp);
    if a.squash {
      var sources := SourcesOf(a.planes);
      assert sources[|sources| - 1] == Squash;
    }
  }

  /** A layer that is still needed beside the squash buffer has a cell outside the squashed regions. */
  lemma {:induction false} NeededOutside(layers: seq<Layer>, regions: seq<RectSet>, flags: seq<bool>, l: nat) returns (x: int, y: int)
    requires |regions| == |flags| && l < |layers| && !layers[l].displayFrame.Empty()
    requires true in flags ==> Separated(Frames(layers), regions) && NeededFlags(layers, regions, flags)[l]
    ensures layers[l].displayFrame.Has(x, y) && !Squashed(regions, flags, x, y)
  {
    if true in flags {
      SeparatedIsExact(Frames(layers), regions);
      KeptAreaReachesIff(Frames(layers), regions, flags, l);
      var k :| 0 <= k < |regions| && l in regions[k].ids && !flags[k];
      x, y := regions[k].rect.left, regions[k].rect.top;
      assert l in Cover(Frames(layers), x, y);
      forall i | 0 <= i < |regions| && flags[i]
        ensures !regions[i].rect.Has(x, y)
      {
        assert !Overlap(regions[if i < k then i else k].rect, regions[if i < k then k else i].rect);
      }
    } else {
      x, y := layers[l].displayFrame.left, layers[l].displayFrame.top;
    }
  }

  /** No flagged region refers to a protected layer. */
  ghost predicate NoneProtectedIn(layers: seq<Layer>, regions: seq<RectSet>, flags: seq<bool>)
    requires |regions| == |flags|
  {
    forall i, l :: 0 <= i < |regions| && flags[i] && l in regions[i].ids && l < |layers| ==> !layers[l].protectedUsage
  }

  /** A layer that has a cell outside the squashed regions, and is split into regions there. */
  ghost predicate HasRegion(layers: seq<Layer>, regions: seq<RectSet>, flags: seq<bool>, a: Assignment, l: nat)
    requires |regions| == |flags|
  {
    && l < |layers| && !layers[l].displayFrame.Empty()
    && (layers[l].protectedUsage || (l in a.preComp && NeededFlags(layers, regions, flags)[l]))
  }

  lemma {:induction false} HasRegionDrawn(usable: nat, layers: seq<Layer>, regions: seq<RectSet>, flags: seq<bool>,
                                          a: Assignment, preComp: seq<CompositionRegion>, l: nat)
    requires |regions| == |flags| && FramePlan(usable, layers, regions, flags, a, preComp) && a.preComp != []
    requires true in flags ==> Separated(Frames(layers), regions)
    requires NoneProtectedIn(layers, regions, flags) && FewRects(regions, flags, a)
    requires HasRegion(layers, regions, flags, a, l)
    ensures preComp != []
  {
    var x, y;
    if layers[l].protectedUsage {
      x, y := layers[l].displayFrame.left, layers[l].displayFrame.top;
      ProtectedOutside(layers, regions, flags, l, x, y);
      assert l in a.protectedLayers;
      var i :| 0 <= i < |a.protectedLayers| && a.protectedLayers[i] == l;
      assert CoveredBy(Frames(layers), a.protectedLayers, x, y);
    } else {
      x, y := NeededOutside(layers, regions, flags, l);
      var i :| 0 <= i < |a.preComp| && a.preComp[i] == l;
      assert CoveredBy(Frames(layers), a.preComp, x, y);
    }
    SquashedIsExcluded(regions, flags, x, y);
    assert InRegion(preComp, x, y);
  }

  /** A protected layer has no squashed cell. */
  lemma {:induction false} ProtectedOutside(layers: seq<Layer>, regions: seq<RectSet>, flags: seq<bool>, l: nat, x: int, y: int)
    requires |regions| == |flags| && l < |layers| && layers[l].protectedUsage && layers[l].displayFrame.Has(x, y)
    requires true in flags ==> Separated(Frames(layers), regions)
    requires NoneProtectedIn(layers, regions, flags)
    ensures !Squashed(regions, flags, x, y)
  {
    assert l in Cover(Frames(layers), x, y);
    if true in flags {
      SeparatedIsExact(Frames(layers), regions);
    }
  }

  lemma {:induction false} NothingFlaggedArea(regions: seq<RectSet>, flags: seq<bool>, l: nat)
    requires |regions| == |flags| && true !in flags
    ensures AreaWhere(regions, flags, l) == 0
  {
    if regions != [] {
      assert flags[0] ==> true in flags;
      assert true in flags[1..] ==> true in flags;
      NothingFlaggedArea(regions[1..], flags[1..], l);
    }
  }

  /** A layer with a cell outside the squashed regions is still needed beside the squash buffer. */
  lemma {:induction false} OutsideIsNeeded(layers: seq<Layer>, regions: seq<RectSet>, flags: seq<bool>, l: nat, x: int, y: int)
    requires |regions| == |flags| && l < |layers| && layers[l].displayFrame.Has(x, y)
    requires true in flags ==> Separated(Frames(layers), regions)
    requires !Squashed(regions, flags, x, y)
    ensures NeededFlags(layers, regions, flags)[l]
  {
    if true in flags {
      if !NeededFlags(layers, regions, flags)[l] {
        DroppedIsSquashed(layers, regions, flags, l, x, y);
      }
    } else {
      NothingFlaggedArea(regions, flags, l);
      AreaPositive(layers[l].displayFrame, x, y);
    }
  }

  lemma {:induction false} AreaPositive(r: Rect, x: int, y: int)
    requires r.Has(x, y)
    ensures r.Area() > 0
  {
    assert (r.right - r.left) * (r.bottom - r.top) > 0;
  }

  lemma {:induction false} DrawnHasRegion(usable: nat, layers: seq<Layer>, regions: seq<RectSet>, flags: seq<bool>,
                                          a: Assignment, preComp: seq<CompositionRegion>) returns (l: nat)
    requires |regions| == |flags| && FramePlan(usable, layers, regions, flags, a, preComp) && preComp != []
    requires true in flags ==> Separated(Frames(layers), regions)
    requires FewRects(regions, flags, a)
    ensures HasRegion(layers, regions, flags, a, l)
  {
    var frames := Frames(layers);
    var r := preComp[0].frame;
    var x, y := r.left, r.top;
    assert r.Has(x, y);
    assert InRegion(preComp, x, y);
    SquashedIsExcluded(regions, flags, x, y);
    if CoveredBy(frames, a.protectedLayers, x, y) {
      var i :| 0 <= i < |a.protectedLayers| && frames[a.protectedLayers[i]].Has(x, y);
      l := a.protectedLayers[i];
      assert l in a.protectedLayers;
    } else {
      var i :| 0 <= i < |a.preComp| && frames[a.preComp[i]].Has(x, y);
      l := a.preComp[i];
      assert l in a.preComp;
      OutsideIsNeeded(layers, regions, flags, l, x, y);
    }
  }

  /**
   When the plane for pre-composition has something to show, and the frame is not refused: there
   are few enough rectangles, and some pre-composited layer reaches beyond the squashed regions
   or some protected layer has a cell at all.
   */
  lemma {:induction false} PreCompDrawnIff(usable: nat, layers: seq<Layer>, regions: seq<RectSet>, flags: seq<bool>,
                                           a: Assignment, preComp: seq<CompositionRegion>)
    requires |regions| == |flags| && FramePlan(usable, layers, regions, flags, a, preComp) && a.preComp != []
    requires true in flags ==> Separated(Frames(layers), regions)
    requires NoneProtectedIn(layers, regions, flags)
    ensures preComp != [] <==>
              && |FlaggedRects(regions, flags)| + |a.protectedLayers| + |a.preComp| <= 32
              && exists l :: HasRegion(layers, regions, flags, a, l)
  {
    if FewRects(regions, flags, a) {
      if l :| HasRegion(layers, regions, flags, a, l) {
        HasRegionDrawn(usable, layers, regions, flags, a, preComp, l);
      }
      if preComp != [] {
        var l := DrawnHasRegion(usable, layers, regions, flags, a, preComp);
      }
    }
  }
}
