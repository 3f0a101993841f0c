/**
 The picture of any frame, with protected layers or without: exactly when a cell shows the blend
 of all its layers, whatever the buffers hold.
 */
module AnyFrame {
  import opened Rects
  import opened Layers
  import opened SquashCache
  import opened Separate
  import opened Planes
  import opened PlanForm
  import opened Composition
  import opened Blend
  import opened Sampling
  import opened Stacking
  import opened Screen
  import opened Commit
  import opened Picture

  // ---------------------------------------------------------------- layers that are lost or misshown

  /** The layers of the cell that are not shown although they can be seen, or that their planes show otherwise. */
  function Wrong(layers: seq<Layer>, kept: set<nat>, direct: set<nat>, x: int, y: int): set<nat> {
    set l | l in Cover(Frames(layers), x, y)
            && ((l !in kept && CanShow(layers[l])) || (l in direct && Misshown(layers[l], x, y)))
  }

  /** The layers shown that hide what is below them. */
  ghost function Hiding(layers: seq<Layer>, kept: set<nat>, x: int, y: int): set<nat> {
    set l | l in kept && l in Cover(Frames(layers), x, y) && AlwaysOpaque(layers, l)
  }

  /** Every such layer lies below one that is shown and hides it. */
  ghost predicate NothingWrong(layers: seq<Layer>, kept: set<nat>, direct: set<nat>, x: int, y: int) {
    Obscured(Wrong(layers, kept, direct, x, y), Hiding(layers, kept, x, y), |layers|)
  }

  /** A plane shows a layer as it would be drawn, unless it is misshown. */
  lemma {:induction false} ShownAsDrawn(tex: Texture, layer: Layer, x: int, y: int)
    requires Drawable(layer) && !Misshown(layer, x, y)
    ensures LayerColor(tex, Committed(layer), x, y) == LayerColor(tex, layer, x, y)
  {
    if CanShow(Committed(layer)) {
      assert LayerAlpha(Committed(layer)) == LayerAlpha(layer);
    } else {
      FadedColor(tex, layer, x, y);
      FadedColor(tex, Committed(layer), x, y);
    }
  }

  lemma {:induction false} NothingWrongEnough(tex: Texture, layers: seq<Layer>, direct: seq<nat>, kept: set<nat>, x: int, y: int)
    requires WellFormed(layers) && ValidTexture(tex, layers) && kept <= Cover(Frames(layers), x, y)
    requires NothingWrong(layers, kept, Elements(direct), x, y)
    ensures StackOf(ViewAt(tex, OnPlanes(layers, direct), x, y), Descending(kept, |layers|)) == Wanted(tex, layers, x, y)
  {
    var v, p := ViewAt(tex, layers, x, y), ViewAt(tex, OnPlanes(layers, direct), x, y);
    var wrong, hiding := Wrong(layers, kept, Elements(direct), x, y), Hiding(layers, kept, x, y);
    PaintLawful();
    forall l | l in hiding
      ensures Hides(v.paint, ColorOf(v, l))
    {
      OpaqueColor(tex, layers, l, x, y);
      OpaqueHidesAll(ColorOf(v, l));
    }
    forall l | l in v.over && l !in wrong
      ensures if l in kept then ColorOf(p, l) == ColorOf(v, l) else ColorOf(v, l) == CLEAR
    {
      if l !in kept {
        FadedColor(tex, layers[l], x, y);
      } else if l in direct {
        ShownAsDrawn(tex, layers[l], x, y);
      }
    }
    KeptEnough(v, p, kept, v.over, wrong, hiding, |layers|);
    ViewStack(tex, layers, Descending(v.over, |layers|), x, y);
  }

  lemma {:induction false} OpaqueHidesAll(c: Rgba)
    requires c.a == 1.0
    ensures Hides(PAINT, c)
  {
    forall d
      ensures PAINT.over(c, d) == c
    {
      OverOpaque(c, d);
    }
  }

  // ---------------------------------------------------------------- a texture that tells

  const BLACK: Rgba := Rgba(0.0, 0.0, 0.0, 1.0)
  const WHITE: Rgba := Rgba(1.0, 1.0, 1.0, 1.0)

  /** White at one point of one buffer; elsewhere black where it must be opaque, and clear where it need not. */
  ghost function BrightTexture(layers: seq<Layer>, buffer: Buffer, at: Point): Texture {
    (b, px, py) => if b == buffer && px == at.x && py == at.y then WHITE
                   else if OpaqueBuffer(layers, b) then BLACK else CLEAR
  }

  lemma {:induction false} BrightValid(layers: seq<Layer>, buffer: Buffer, at: Point)
    requires WellFormed(layers)
    ensures ValidTexture(BrightTexture(layers, buffer, at), layers)
  {
    forall l, px, py | 0 <= l < |layers|
      ensures ValidTexel(layers[l], BrightTexture(layers, buffer, at)(layers[l].buffer, px, py))
    {
      assert 0.0 <= LayerAlpha(layers[l]) <= 1.0;
      assert layers[l].blending == NoBlend ==> OpaqueBuffer(layers, layers[l].buffer);
    }
  }

  /** The point of its buffer that is shown at a cell. */
  function ShownAt(layer: Layer, x: int, y: int): Point
    requires Drawable(layer)
  {
    TexCoord(layer, Middle(x), Middle(y))
  }

  lemma {:induction false} BrightColor(layers: seq<Layer>, layer: Layer, x: int, y: int)
    requires Drawable(layer)
    ensures LayerColor(BrightTexture(layers, layer.buffer, ShownAt(layer, x, y)), layer, x, y).r == LayerAlpha(layer)
  {
    assert Times(1.0, Times(1.0, LayerAlpha(layer))) == LayerAlpha(layer);
  }

  lemma {:induction false} DarkColor(layers: seq<Layer>, buffer: Buffer, at: Point, layer: Layer, x: int, y: int)
    requires Drawable(layer) && !(layer.buffer == buffer && ShownAt(layer, x, y) == at)
    ensures var c := LayerColor(BrightTexture(layers, buffer, at), layer, x, y);
            c.r == 0.0 && c.a == if OpaqueBuffer(layers, layer.buffer) then LayerAlpha(layer) else 0.0
  {
    var s := SampleOf(BrightTexture(layers, buffer, at), layer, x, y);
    assert s.texel == if OpaqueBuffer(layers, layer.buffer) then BLACK else CLEAR;
    assert Times(0.0, Times(MaxReal(s.texel.a, s.premult), s.alpha)) == 0.0;
    assert Times(1.0, s.alpha) == s.alpha && Times(0.0, s.alpha) == 0.0;
  }

  // ---------------------------------------------------------------- one bright layer

  /** The red channel of the stack of the layers of `s` below `n`. */
  function Red(v: View<Rgba>, s: set<nat>, n: nat): real {
    StackOf(v, Descending(s, n)).r
  }

  lemma {:induction false} RedFromTop(v: View<Rgba>, s: set<nat>, n: nat)
    requires v.paint == PAINT
    ensures Red(v, s, n + 1) == if n in s then Mix(ColorOf(v, n).r, ColorOf(v, n).a, Red(v, s, n)) else Red(v, s, n)
    ensures Red(v, s, 0) == 0.0
  {
    PaintLawful();
    StackFromTop(v, s, n);
    StackOfNone(v);
  }

  lemma {:induction false} MixZero(r: real, a: real)
    ensures Mix(r, a, 0.0) == r
  {
  }

  lemma {:induction false} MixDiffers(a: real, x: real, y: real)
    requires a < 1.0 && x != y
    ensures Mix(0.0, a, x) != Mix(0.0, a, y)
  {
    if x < y {
      PositiveProduct(1.0 - a, y - x);
    } else {
      PositiveProduct(1.0 - a, x - y);
    }
    assert Times(1.0 - a, x) - Times(1.0 - a, y) == Times(1.0 - a, x - y) == -Times(1.0 - a, y - x);
  }

  lemma {:induction false} DarkBelow(v: View<Rgba>, s: set<nat>, n: nat)
    requires v.paint == PAINT && forall k :: k in s && k < n ==> ColorOf(v, k).r == 0.0
    ensures Red(v, s, n) == 0.0
  {
    RedFromTop(v, s, 0);
    if n > 0 {
      DarkBelow(v, s, n - 1);
      RedFromTop(v, s, n - 1);
      MixZero(0.0, ColorOf(v, n - 1).a);
    }
  }

  /** At layer `k` both stacks get the same dark and translucent colour, or nothing. */
  ghost predicate SameDark(v: View<Rgba>, w: View<Rgba>, all: set<nat>, kept: set<nat>, k: nat) {
    if k in kept then
      k in all && ColorOf(w, k) == ColorOf(v, k) && ColorOf(v, k).r == 0.0 && ColorOf(v, k).a < 1.0
    else
      k in all ==> ColorOf(v, k) == CLEAR
  }

  /** Two dark stacks that differ in one layer, with nothing opaque above it, look different. */
  lemma {:induction false} OneBright(v: View<Rgba>, w: View<Rgba>, all: set<nat>, kept: set<nat>, bright: nat, n: nat)
    requires v.paint == PAINT && w.paint == PAINT && bright < n && bright in all
    requires forall k :: k in all && k < bright ==> ColorOf(v, k).r == 0.0
    requires forall k :: k in kept && k < bright ==> ColorOf(w, k).r == 0.0
    requires forall k :: bright < k < n ==> SameDark(v, w, all, kept, k)
    requires ColorOf(v, bright).r != if bright in kept then ColorOf(w, bright).r else 0.0
    ensures Red(v, all, n) != Red(w, kept, n)
  {
    if bright == n - 1 {
      RedFromTop(v, all, bright);
      RedFromTop(w, kept, bright);
      DarkBelow(v, all, bright);
      DarkBelow(w, kept, bright);
      MixZero(ColorOf(v, bright).r, ColorOf(v, bright).a);
      MixZero(ColorOf(w, bright).r, ColorOf(w, bright).a);
    } else {
      OneBright(v, w, all, kept, bright, n - 1);
      assert SameDark(v, w, all, kept, n - 1);
      StillDiffers(v, w, all, kept, n - 1);
    }
  }

  lemma {:induction false} StillDiffers(v: View<Rgba>, w: View<Rgba>, all: set<nat>, kept: set<nat>, n: nat)
    requires v.paint == PAINT && w.paint == PAINT
    requires SameDark(v, w, all, kept, n) && Red(v, all, n) != Red(w, kept, n)
    ensures Red(v, all, n + 1) != Red(w, kept, n + 1)
  {
    RedFromTop(v, all, n);
    RedFromTop(w, kept, n);
    if n in kept {
      MixDiffers(ColorOf(v, n).a, Red(v, all, n), Red(w, kept, n));
    } else {
      MixClear(Red(v, all, n));
    }
  }

  lemma {:induction false} MixClear(below: real)
    ensures Mix(0.0, 0.0, below) == below
  {
  }

  // ---------------------------------------------------------------- necessary

  /** The highest layer of `wrong` that nothing hides. */
  lemma {:induction false} TopWrong(wrong: set<nat>, hiding: set<nat>, n: nat) returns (l: nat)
    requires !Obscured(wrong, hiding, n)
    ensures l in wrong && l < n && forall k :: l < k < n ==> k !in wrong && k !in hiding
  {
    if n > 0 && n - 1 in wrong {
      l := n - 1;
    } else {
      var w :| w in wrong && w < n && !exists m :: m in hiding && w < m < n;
      assert n - 1 !in hiding;
      assert !exists m :: m in hiding && w < m < n - 1;
      l := TopWrong(wrong, hiding, n - 1);
    }
  }

  /** The points of its buffer that a layer shows at the cell, drawn or on a plane of its own. */
  function Points(layer: Layer, x: int, y: int): set<Point> {
    if Drawable(layer) then {ShownAt(layer, x, y), ShownAt(Committed(layer), x, y)} else {}
  }

  /** No two layers over the cell show the same point of the same buffer there. */
  ghost predicate Apart(layers: seq<Layer>, x: int, y: int) {
    forall l, k :: l in Cover(Frames(layers), x, y) && k in Cover(Frames(layers), x, y) && l != k ==>
      layers[l].buffer != layers[k].buffer || Points(layers[l], x, y) !! Points(layers[k], x, y)
  }

  /** The texture that is bright where layer `l` is shown: on its plane, if it has one, or as it would be drawn. */
  ghost function BrightAt(layers: seq<Layer>, direct: seq<nat>, l: nat, x: int, y: int): Texture
    requires l < |layers| && Drawable(layers[l])
  {
    BrightTexture(layers, layers[l].buffer, ShownAt(OnPlanes(layers, direct)[l], x, y))
  }

  /** With that texture any other layer of the cell is dark. */
  lemma {:induction false} OthersDark(layers: seq<Layer>, direct: seq<nat>, l: nat, k: nat, x: int, y: int)
    requires WellFormed(layers) && Apart(layers, x, y) && l != k
    requires l in Cover(Frames(layers), x, y) && k in Cover(Frames(layers), x, y)
    ensures var tex := BrightAt(layers, direct, l, x, y);
            && LayerColor(tex, layers[k], x, y).r == 0.0 && LayerColor(tex, Committed(layers[k]), x, y).r == 0.0
            && (!AlwaysOpaque(layers, k) ==> LayerColor(tex, layers[k], x, y).a < 1.0)
  {
    var at := ShownAt(OnPlanes(layers, direct)[l], x, y);
    assert at in Points(layers[l], x, y);
    assert ShownAt(layers[k], x, y) in Points(layers[k], x, y) && ShownAt(Committed(layers[k]), x, y) in Points(layers[k], x, y);
    DarkColor(layers, layers[l].buffer, at, layers[k], x, y);
    DarkColor(layers, layers[l].buffer, at, Committed(layers[k]), x, y);
  }

  /** With that texture a layer that is lost or misshown is brighter on one side than on the other. */
  lemma {:induction false} BrightDiffers(layers: seq<Layer>, direct: seq<nat>, kept: set<nat>, l: nat, x: int, y: int)
    requires WellFormed(layers) && l in Wrong(layers, kept, Elements(direct), x, y)
    requires l in direct ==> l in kept
    ensures var tex := BrightAt(layers, direct, l, x, y);
            LayerColor(tex, layers[l], x, y).r != if l in kept then LayerColor(tex, OnPlanes(layers, direct)[l], x, y).r else 0.0
  {
    var layer := OnPlanes(layers, direct)[l];
    BrightColor(layers, layer, x, y);
    assert LayerAlpha(layer) > 0.0;
    if l in direct && Misplaced(layers[l], x, y) {
      DarkColor(layers, layer.buffer, ShownAt(layer, x, y), layers[l], x, y);
    } else {
      BrightColor(layers, layers[l], x, y);
      assert ShownAt(layer, x, y) == ShownAt(layers[l], x, y);
    }
  }

  lemma {:induction false} WrongShows(layers: seq<Layer>, direct: seq<nat>, kept: set<nat>, x: int, y: int) returns (tex: Texture)
    requires WellFormed(layers) && Apart(layers, x, y) && kept <= Cover(Frames(layers), x, y)
    requires forall l :: l in direct && l in Cover(Frames(layers), x, y) ==> l in kept
    requires !NothingWrong(layers, kept, Elements(direct), x, y)
    ensures ValidTexture(tex, layers)
    ensures StackOf(ViewAt(tex, OnPlanes(layers, direct), x, y), Descending(kept, |layers|)) != Wanted(tex, layers, x, y)
  {
    var all := Cover(Frames(layers), x, y);
    var l := TopWrong(Wrong(layers, kept, Elements(direct), x, y), Hiding(layers, kept, x, y), |layers|);
    tex := BrightAt(layers, direct, l, x, y);
    BrightValid(layers, layers[l].buffer, ShownAt(OnPlanes(layers, direct)[l], x, y));
    var v, p := ViewAt(tex, layers, x, y), ViewAt(tex, OnPlanes(layers, direct), x, y);
    BrightDiffers(layers, direct, kept, l, x, y);
    forall k | k in all && k != l
      ensures ColorOf(v, k).r == 0.0 && ColorOf(p, k).r == 0.0
    {
      OthersDark(layers, direct, l, k, x, y);
    }
    forall k: nat | l < k < |layers|
      ensures SameDark(v, p, all, kept, k)
    {
      RightIsSameDark(layers, direct, kept, l, k, x, y);
    }
    OneBright(v, p, all, kept, l, |layers|);
    ViewStack(tex, layers, Descending(all, |layers|), x, y);
  }

  lemma {:induction false} RightIsSameDark(layers: seq<Layer>, direct: seq<nat>, kept: set<nat>, l: nat, k: nat, x: int, y: int)
    requires WellFormed(layers) && Apart(layers, x, y) && kept <= Cover(Frames(layers), x, y)
    requires l in Cover(Frames(layers), x, y) && l < k < |layers|
    requires k !in Wrong(layers, kept, Elements(direct), x, y) && k !in Hiding(layers, kept, x, y)
    ensures var tex := BrightAt(layers, direct, l, x, y);
            SameDark(ViewAt(tex, layers, x, y), ViewAt(tex, OnPlanes(layers, direct), x, y), Cover(Frames(layers), x, y), kept, k)
  {
    var tex := BrightAt(layers, direct, l, x, y);
    if k in Cover(Frames(layers), x, y) {
      OthersDark(layers, direct, l, k, x, y);
      if k !in kept {
        FadedColor(tex, layers[k], x, y);
      } else if k in direct {
        ShownAsDrawn(tex, layers[k], x, y);
      }
    }
  }

  /**
   The layers kept, the direct ones as committed, show what all layers drawn would show, whatever
   the buffers hold, if nothing is lost or misshown that could be seen; and only if, unless two
   layers show the same texel.
   */
  lemma {:induction false} KeptIff(layers: seq<Layer>, direct: seq<nat>, kept: set<nat>, x: int, y: int)
    requires WellFormed(layers) && kept <= Cover(Frames(layers), x, y)
    requires forall l :: l in direct && l in Cover(Frames(layers), x, y) ==> l in kept
    ensures NothingWrong(layers, kept, Elements(direct), x, y) ==> KeptShows(layers, direct, kept, x, y)
    ensures Apart(layers, x, y) && KeptShows(layers, direct, kept, x, y) ==> NothingWrong(layers, kept, Elements(direct), x, y)
  {
    if NothingWrong(layers, kept, Elements(direct), x, y) {
      forall tex | ValidTexture(tex, layers)
        ensures StackOf(ViewAt(tex, OnPlanes(layers, direct), x, y), Descending(kept, |layers|)) == Wanted(tex, layers, x, y)
      {
        NothingWrongEnough(tex, layers, direct, kept, x, y);
      }
    } else if Apart(layers, x, y) {
      var tex := WrongShows(layers, direct, kept, x, y);
    }
  }

  ghost predicate KeptShows(layers: seq<Layer>, direct: seq<nat>, kept: set<nat>, x: int, y: int) {
    forall tex :: ValidTexture(tex, layers) ==>
      StackOf(ViewAt(tex, OnPlanes(layers, direct), x, y), Descending(kept, |layers|)) == Wanted(tex, layers, x, y)
  }

  // ---------------------------------------------------------------- which layers are kept

  ghost function Rest(usable: nat, layers: seq<Layer>, regions: seq<RectSet>, flags: seq<bool>): (r: seq<bool>)
    requires |regions| == |flags|
    ensures |r| == |layers|
  {
    RestFlags(usable, ProtectedFlags(layers), NeededFlags(layers, regions, flags), true in flags)
  }

  /**
   The layers of the cell that the planes show, but for the squash buffer: those with planes of
   their own and, outside the squashed regions, the pre-composited ones that no hole takes away.
   */
  ghost function KeptSet(usable: nat, layers: seq<Layer>, regions: seq<RectSet>, flags: seq<bool>, x: int, y: int): set<nat>
    requires |regions| == |flags|
  {
    var rest := Rest(usable, layers, regions, flags);
    set l | l in Cover(Frames(layers), x, y)
            && (|| DirectLayer(usable, layers, regions, flags, l)
                || (&& rest[l] && !Squashed(regions, flags, x, y)
                    && forall p :: p in Cover(Frames(layers), x, y) && layers[p].protectedUsage ==> p <= CountTrue(rest[..l])))
  }

  lemma {:induction false} KeptIsForm(usable: nat, layers: seq<Layer>, regions: seq<RectSet>, flags: seq<bool>,
                                      a: Assignment, preComp: seq<CompositionRegion>, x: int, y: int)
    requires Fits(usable, layers, regions, flags, a, preComp)
    ensures KeptLayers(layers, regions, flags, a, x, y) == KeptSet(usable, layers, regions, flags, x, y)
  {
    var rest := Rest(usable, layers, regions, flags);
    DirectIff(usable, ProtectedFlags(layers), NeededFlags(layers, regions, flags), true in flags, a);
    RestIff(usable, ProtectedFlags(layers), NeededFlags(layers, regions, flags), true in flags, a);
    forall l | l in Cover(Frames(layers), x, y)
      ensures l in Drawing(layers, a, x, y) <==>
              rest[l] && forall p :: p in Cover(Frames(layers), x, y) && layers[p].protectedUsage ==> p <= CountTrue(rest[..l])
    {
      DrawingByCount(usable, layers, regions, flags, a, preComp, x, y, l);
    }
  }

  lemma {:induction false} DrawingByCount(usable: nat, layers: seq<Layer>, regions: seq<RectSet>, flags: seq<bool>,
                                          a: Assignment, preComp: seq<CompositionRegion>, x: int, y: int, l: nat)
    requires Fits(usable, layers, regions, flags, a, preComp) && l in Cover(Frames(layers), x, y)
    ensures var rest := Rest(usable, layers, regions, flags);
            l in Drawing(layers, a, x, y) <==>
              rest[l] && forall p :: p in Cover(Frames(layers), x, y) && layers[p].protectedUsage ==> p <= CountTrue(rest[..l])
  {
    var rest := Rest(usable, layers, regions, flags);
    RestIff(usable, ProtectedFlags(layers), NeededFlags(layers, regions, flags), true in flags, a);
    DrawingIsCovered(layers, a, x, y);
    if rest[l] {
      var k :| 0 <= k < |a.preComp| && a.preComp[k] == l;
      DrawingIfNoHole(layers, a, x, y, k);
    }
  }

  lemma {:induction false} DrawingIfNoHole(layers: seq<Layer>, a: Assignment, x: int, y: int, k: nat)
    requires Below(a.preComp, |layers|) && Below(a.protectedLayers, |layers|) && Increasing(a.preComp) && k < |a.preComp|
    requires forall p: nat :: p in a.protectedLayers <==> p < |layers| && layers[p].protectedUsage
    requires a.preComp[k] in Cover(Frames(layers), x, y)
    ensures a.preComp[k] in Drawing(layers, a, x, y)
       <==> forall p :: p in Cover(Frames(layers), x, y) && layers[p].protectedUsage ==> p <= k
  {
    DrawingIsPosition(layers, a, x, y, k);
    HolesByLayer(layers, a, x, y, k);
  }

  lemma {:induction false} DrawingIsPosition(layers: seq<Layer>, a: Assignment, x: int, y: int, k: nat)
    requires Below(a.preComp, |layers|) && Below(a.protectedLayers, |layers|) && Increasing(a.preComp) && k < |a.preComp|
    ensures a.preComp[k] in Drawing(layers, a, x, y)
       <==> k in Positions(Frames(layers), a.preComp, a.protectedLayers, x, y)
  {
    var positions := Positions(Frames(layers), a.preComp, a.protectedLayers, x, y);
    if a.preComp[k] in Drawing(layers, a, x, y) {
      var j :| j in positions && j < |a.preComp| && a.preComp[j] == a.preComp[k];
      assert j == k;
    }
  }

  /** The holes over a cell, by layer and by entry of the list of protected layers. */
  lemma {:induction false} HolesByLayer(layers: seq<Layer>, a: Assignment, x: int, y: int, k: nat)
    requires Below(a.protectedLayers, |layers|)
    requires forall p: nat :: p in a.protectedLayers <==> p < |layers| && layers[p].protectedUsage
    ensures (forall i :: 0 <= i < |a.protectedLayers| && Frames(layers)[a.protectedLayers[i]].Has(x, y) ==> a.protectedLayers[i] <= k)
            <==> forall p :: p in Cover(Frames(layers), x, y) && layers[p].protectedUsage ==> p <= k
  {
    if forall i :: 0 <= i < |a.protectedLayers| && Frames(layers)[a.protectedLayers[i]].Has(x, y) ==> a.protectedLayers[i] <= k {
      forall p | p in Cover(Frames(layers), x, y) && layers[p].protectedUsage
        ensures p <= k
      {
        assert p in a.protectedLayers;
      }
    } else {
      var i :| 0 <= i < |a.protectedLayers| && Frames(layers)[a.protectedLayers[i]].Has(x, y) && a.protectedLayers[i] > k;
      assert a.protectedLayers[i] in a.protectedLayers;
    }
  }

  // ---------------------------------------------------------------- the main result

  /** The layers with planes of their own. */
  ghost function DirectSet(usable: nat, layers: seq<Layer>, regions: seq<RectSet>, flags: seq<bool>): set<nat>
    requires |regions| == |flags|
  {
    set l: nat | l < |layers| && DirectLayer(usable, layers, regions, flags, l)
  }

  /** The squash plane shows something at the cell. */
  ghost predicate SquashShown(usable: nat, layers: seq<Layer>, regions: seq<RectSet>, flags: seq<bool>, x: int, y: int)
    requires |regions| == |flags|
  {
    && SquashPlane(usable, ProtectedFlags(layers), NeededFlags(layers, regions, flags), true in flags)
    && Squashed(regions, flags, x, y)
  }

  /** When the picture is right at a cell, in terms of the planes, the layers and the squashed regions. */
  ghost predicate RightAt(usable: nat, layers: seq<Layer>, regions: seq<RectSet>, flags: seq<bool>, x: int, y: int)
    requires |regions| == |flags|
  {
    if SquashShown(usable, layers, regions, flags, x, y) then
      NothingDirect(usable, layers, regions, flags, x, y) || OpaqueCell(layers, x, y)
    else
      NothingWrong(layers, KeptSet(usable, layers, regions, flags, x, y), DirectSet(usable, layers, regions, flags), x, y)
  }

  lemma {:induction false} DirectIsSet(usable: nat, layers: seq<Layer>, regions: seq<RectSet>, flags: seq<bool>,
                                       a: Assignment, preComp: seq<CompositionRegion>)
    requires |regions| == |flags| && FramePlan(usable, layers, regions, flags, a, preComp)
    ensures Elements(a.direct) == DirectSet(usable, layers, regions, flags)
  {
    DirectIff(usable, ProtectedFlags(layers), NeededFlags(layers, regions, flags), true in flags, a);
  }

  /**
   For every plan that is carried out, with protected layers or without: whatever the buffers
   hold, a cell shows the blend of all its layers if it is right; and only if, where the squash
   plane shows something or no two layers show the same texel.
   */
  lemma {:induction false} FaithfulIff(usable: nat, layers: seq<Layer>, regions: seq<RectSet>, flags: seq<bool>,
                                       a: Assignment, preComp: seq<CompositionRegion>,
                                       drawnFrom: seq<Layer>, drawn: seq<CompositionRegion>, x: int, y: int)
    requires WellFormed(layers)
    requires Fits(usable, layers, regions, flags, a, preComp) && Backed(layers, regions, flags, drawnFrom, drawn)
    ensures RightAt(usable, layers, regions, flags, x, y) ==> Faithful(layers, a, preComp, drawnFrom, drawn, x, y)
    ensures SquashShown(usable, layers, regions, flags, x, y) || Apart(layers, x, y) ==>
              (Faithful(layers, a, preComp, drawnFrom, drawn, x, y) <==> RightAt(usable, layers, regions, flags, x, y))
  {
    if SquashShown(usable, layers, regions, flags, x, y) {
      SquashedIff(usable, layers, regions, flags, a, preComp, drawnFrom, drawn, x, y);
    } else {
      var kept := KeptLayers(layers, regions, flags, a, x, y);
      KeptIsForm(usable, layers, regions, flags, a, preComp, x, y);
      DirectIsSet(usable, layers, regions, flags, a, preComp);
      KeptIff(layers, a.direct, kept, x, y);
      KeptIsFaithful(usable, layers, regions, flags, a, preComp, drawnFrom, drawn, x, y);
    }
  }

  lemma {:induction false} KeptIsFaithful(usable: nat, layers: seq<Layer>, regions: seq<RectSet>, flags: seq<bool>,
                                          a: Assignment, preComp: seq<CompositionRegion>,
                                          drawnFrom: seq<Layer>, drawn: seq<CompositionRegion>, x: int, y: int)
    requires WellFormed(layers)
    requires Fits(usable, layers, regions, flags, a, preComp) && Backed(layers, regions, flags, drawnFrom, drawn)
    requires !(a.squash && Squashed(regions, flags, x, y))
    ensures Faithful(layers, a, preComp, drawnFrom, drawn, x, y)
       <==> KeptShows(layers, a.direct, KeptLayers(layers, regions, flags, a, x, y), x, y)
  {
    forall tex | ValidTexture(tex, layers)
      ensures Displayed(tex, layers, a, preComp, drawnFrom, drawn, x, y)
           == StackOf(ViewAt(tex, OnPlanes(layers, a.direct), x, y), Descending(KeptLayers(layers, regions, flags, a, x, y), |layers|))
    {
      CellShows(tex, usable, layers, regions, flags, a, preComp, drawnFrom, drawn, x, y);
    }
  }

  // ---------------------------------------------------------------- frames without protected layers

  /** Every layer that its plane misshows lies below an opaque one. */
  ghost predicate NothingMisshown(usable: nat, layers: seq<Layer>, regions: seq<RectSet>, flags: seq<bool>, x: int, y: int)
    requires |regions| == |flags|
  {
    forall l :: l in Cover(Frames(layers), x, y) && DirectLayer(usable, layers, regions, flags, l) && Misshown(layers[l], x, y) ==>
      exists m :: m in Cover(Frames(layers), x, y) && AlwaysOpaque(layers, m) && l < m
  }

  /**
   Without protected layers: a squashed cell shows the wanted picture, whatever the buffers hold,
   if and only if nothing can be seen of the direct layers there or some layer is opaque; any
   other cell does if nothing can be seen there that its plane misshows, and only if, unless two
   layers show the same texel.
   */
  lemma {:induction false} PictureIff(usable: nat, layers: seq<Layer>, regions: seq<RectSet>, flags: seq<bool>,
                                      a: Assignment, preComp: seq<CompositionRegion>,
                                      drawnFrom: seq<Layer>, drawn: seq<CompositionRegion>, x: int, y: int)
    requires WellFormed(layers)
    requires Plain(usable, layers, regions, flags, a, preComp) && Backed(layers, regions, flags, drawnFrom, drawn)
    ensures Squashed(regions, flags, x, y) ==>
              (Faithful(layers, a, preComp, drawnFrom, drawn, x, y) <==>
                 NothingDirect(usable, layers, regions, flags, x, y) || OpaqueCell(layers, x, y))
    ensures !Squashed(regions, flags, x, y) && NothingMisshown(usable, layers, regions, flags, x, y) ==>
              Faithful(layers, a, preComp, drawnFrom, drawn, x, y)
    ensures !Squashed(regions, flags, x, y) && Apart(layers, x, y) ==>
              (Faithful(layers, a, preComp, drawnFrom, drawn, x, y) <==> NothingMisshown(usable, layers, regions, flags, x, y))
  {
    NoProtected(usable, layers, regions, flags, a, preComp);
    FaithfulIff(usable, layers, regions, flags, a, preComp, drawnFrom, drawn, x, y);
    if !Squashed(regions, flags, x, y) {
      KeptIsForm(usable, layers, regions, flags, a, preComp, x, y);
      AllKept(usable, layers, regions, flags, a, preComp, x, y);
      NothingMisshownIff(usable, layers, regions, flags, x, y);
    } else {
      assert true in flags;
    }
  }

  lemma {:induction false} NothingMisshownIff(usable: nat, layers: seq<Layer>, regions: seq<RectSet>, flags: seq<bool>, x: int, y: int)
    requires |regions| == |flags|
    ensures NothingMisshown(usable, layers, regions, flags, x, y)
       <==> NothingWrong(layers, Cover(Frames(layers), x, y), DirectSet(usable, layers, regions, flags), x, y)
  {
    var all := Cover(Frames(layers), x, y);
    var wrong, hiding := Wrong(layers, all, DirectSet(usable, layers, regions, flags), x, y), Hiding(layers, all, x, y);
    assert forall l :: l in wrong <==> l in all && DirectLayer(usable, layers, regions, flags, l) && Misshown(layers[l], x, y);
    assert forall m :: m in hiding <==> m in all && AlwaysOpaque(layers, m);
  }

  // ---------------------------------------------------------------- frames short of planes

  /** The lowest protected layers of the cell, as many as there are planes. */
  function StarvedKept(usable: nat, layers: seq<Layer>, x: int, y: int): set<nat> {
    set l | l in Cover(Frames(layers), x, y) && layers[l].protectedUsage && CountTrue(ProtectedFlags(layers)[..l]) < usable
  }

  lemma {:induction false} StarvedDirect(usable: nat, layers: seq<Layer>, a: Assignment)
    requires StarvedPlan(usable, layers, a)
    ensures forall l :: 0 <= l < |layers| ==>
              (l in a.direct <==> layers[l].protectedUsage && CountTrue(ProtectedFlags(layers)[..l]) < usable)
  {
    var flags := ProtectedFlags(layers);
    IncreasingSize(a.direct);
    forall l | 0 <= l < |layers|
      ensures l in a.direct <==> flags[l] && CountTrue(flags[..l]) < usable
    {
      if flags[l] {
        LowestByRank(flags, Elements(a.direct), l);
      }
    }
  }

  lemma {:induction false} StarvedShows(tex: Texture, usable: nat, layers: seq<Layer>, a: Assignment,
                                         drawnFrom: seq<Layer>, drawn: seq<CompositionRegion>, x: int, y: int)
    requires StarvedPlan(usable, layers, a)
    ensures Displayed(tex, layers, a, [], drawnFrom, drawn, x, y)
         == StackOf(ViewAt(tex, OnPlanes(layers, a.direct), x, y), Descending(StarvedKept(usable, layers, x, y), |layers|))
  {
    var p, kept := ViewAt(tex, OnPlanes(layers, a.direct), x, y), StarvedKept(usable, layers, x, y);
    StarvedDirect(usable, layers, a);
    PaintLawful();
    DirectShown(p, a.direct, BufferColor(ViewAt(tex, layers, x, y), [], x, y), BufferColor(ViewAt(tex, drawnFrom, x, y), drawn, x, y));
    OverCellHas(p, a.direct);
    DescendingUnique(OverCell(p, a.direct), Descending(kept, |layers|));
  }

  lemma {:induction false} StarvedIsFaithful(usable: nat, layers: seq<Layer>, a: Assignment,
                                             drawnFrom: seq<Layer>, drawn: seq<CompositionRegion>, x: int, y: int)
    requires StarvedPlan(usable, layers, a)
    ensures Faithful(layers, a, [], drawnFrom, drawn, x, y)
       <==> KeptShows(layers, a.direct, StarvedKept(usable, layers, x, y), x, y)
  {
    forall tex {
      StarvedShows(tex, usable, layers, a, drawnFrom, drawn, x, y);
    }
  }

  /** The same when the protected layers took every plane. */
  lemma {:induction false} StarvedIff(usable: nat, layers: seq<Layer>, a: Assignment,
                                      drawnFrom: seq<Layer>, drawn: seq<CompositionRegion>, x: int, y: int)
    requires WellFormed(layers) && StarvedPlan(usable, layers, a)
    ensures var kept := StarvedKept(usable, layers, x, y);
            && (NothingWrong(layers, kept, kept, x, y) ==> Faithful(layers, a, [], drawnFrom, drawn, x, y))
            && (Apart(layers, x, y) ==> (Faithful(layers, a, [], drawnFrom, drawn, x, y) <==> NothingWrong(layers, kept, kept, x, y)))
  {
    var kept := StarvedKept(usable, layers, x, y);
    StarvedIsFaithful(usable, layers, a, drawnFrom, drawn, x, y);
    StarvedDirect(usable, layers, a);
    assert Wrong(layers, kept, kept, x, y) == Wrong(layers, kept, Elements(a.direct), x, y);
    KeptIff(layers, a.direct, kept, x, y);
  }

  /** The direct layers over the cell are right among themselves. */
  ghost predicate DirectRight(layers: seq<Layer>, direct: set<nat>, x: int, y: int) {
    forall l :: l in Cover(Frames(layers), x, y) && l in direct && Misshown(layers[l], x, y) ==>
      exists m :: m in Cover(Frames(layers), x, y) && m in direct && AlwaysOpaque(layers, m) && l < m
  }

  /** A cell that is excluded, though the squash plane was dropped, shows its direct layers only. */
  lemma {:induction false} ExcludedCell(usable: nat, layers: seq<Layer>, regions: seq<RectSet>, flags: seq<bool>,
                                        a: Assignment, preComp: seq<CompositionRegion>, x: int, y: int)
    requires WellFormed(layers) && Fits(usable, layers, regions, flags, a, preComp)
    requires Squashed(regions, flags, x, y) && !a.squash
    requires forall l :: l in Cover(Frames(layers), x, y) ==> !layers[l].protectedUsage
    ensures !InRegion(preComp, x, y)
    ensures RightAt(usable, layers, regions, flags, x, y)
       <==> NothingSeen(layers, a.preComp, x, y) && DirectRight(layers, Elements(a.direct), x, y)
  {
    DrawnAt(usable, layers, regions, flags, a, preComp, x, y);
    assert InRegion(preComp, x, y) ==> Drawn(preComp, x, y);
    KeptIsForm(usable, layers, regions, flags, a, preComp, x, y);
    DirectIsSet(usable, layers, regions, flags, a, preComp);
    var kept, all := KeptLayers(layers, regions, flags, a, x, y), Cover(Frames(layers), x, y);
    forall l | l in all
      ensures l in kept <==> l in a.direct
      ensures l in a.direct <==> l !in a.preComp
      ensures forall m :: l in a.preComp && m in kept ==> m < l
    {
      assert ProtectedFlags(layers)[l] == layers[l].protectedUsage;
    }
    ExcludedIff(layers, kept, a.direct, a.preComp, x, y);
  }

  lemma {:induction false} ExcludedIff(layers: seq<Layer>, kept: set<nat>, direct: seq<nat>, preComp: seq<nat>, x: int, y: int)
    requires kept <= Cover(Frames(layers), x, y)
    requires forall l :: l in Cover(Frames(layers), x, y) ==>
               (l in kept <==> l in direct) && (l in direct <==> l !in preComp) && forall m :: l in preComp && m in kept ==> m < l
    ensures NothingWrong(layers, kept, Elements(direct), x, y)
       <==> NothingSeen(layers, preComp, x, y) && DirectRight(layers, Elements(direct), x, y)
  {
    var wrong, hiding := Wrong(layers, kept, Elements(direct), x, y), Hiding(layers, kept, x, y);
    assert forall l :: l in wrong <==> l in Cover(Frames(layers), x, y)
                                       && ((l in preComp && CanShow(layers[l])) || (l in direct && Misshown(layers[l], x, y)));
    assert forall m :: m in hiding <==> m in Cover(Frames(layers), x, y) && m in Elements(direct) && AlwaysOpaque(layers, m);
    if NothingWrong(layers, kept, Elements(direct), x, y) {
      forall l | l in preComp && l in Cover(Frames(layers), x, y)
        ensures l !in wrong
      {
        assert forall m :: m in hiding ==> m < l;
      }
    }
  }
}
