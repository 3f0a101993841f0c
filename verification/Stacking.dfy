/**
 One cell of the screen: the layers over it, the buffers drawn for it, and the planes that
 show it. Only the laws of blending matter here, not how colours are blended.
 */
module Stacking {
  import opened Rects
  import opened Layers
  import opened Separate
  import opened Planes
  import opened Sampling

  /** Colours and how one is drawn over another. */
  datatype Paint<!C> = Paint(clear: C, over: (C, C) -> C)

  ghost predicate Lawful<C(!new)>(p: Paint<C>) {
    && (forall c :: p.over(p.clear, c) == c && p.over(c, p.clear) == c)
    && (forall t, u, v :: p.over(p.over(t, u), v) == p.over(t, p.over(u, v)))
  }

  /** Nothing shows below `c`. */
  ghost predicate Hides<C(!new)>(p: Paint<C>, c: C) {
    forall d :: p.over(c, d) == c
  }

  /** A list of colours, given from the top, drawn over nothing. */
  function Fold<C>(p: Paint<C>, colors: seq<C>): C {
    if colors == [] then p.clear else p.over(colors[0], Fold(p, colors[1..]))
  }

  lemma {:induction false} FoldConcat<C(!new)>(p: Paint<C>, a: seq<C>, b: seq<C>)
    requires Lawful(p)
    ensures Fold(p, a + b) == p.over(Fold(p, a), Fold(p, b))
  {
    if a == [] {
      assert a + b == b;
    } else {
      assert (a + b)[1..] == a[1..] + b;
      FoldConcat(p, a[1..], b);
    }
  }

  lemma {:induction false} FoldOne<C(!new)>(p: Paint<C>, c: C)
    requires Lawful(p)
    ensures Fold(p, [c]) == c
  {
    assert Fold(p, [c][1..]) == p.clear;
    assert p.over(c, p.clear) == c;
  }

  /** The layers at one cell: their colours, which of them are over the cell, and which do not blend. */
  datatype View<!C> = View(paint: Paint<C>, colors: seq<C>, over: set<nat>, solid: set<nat>)

  function ColorOf<C>(v: View<C>, l: nat): C {
    if l < |v.colors| then v.colors[l] else v.paint.clear
  }

  function Colors<C>(v: View<C>, list: seq<nat>): (r: seq<C>)
    ensures |r| == |list| && forall i :: 0 <= i < |r| ==> r[i] == ColorOf(v, list[i])
  {
    seq(|list|, i requires 0 <= i < |list| => ColorOf(v, list[i]))
  }

  /** The stack of the layers of a list, given from the top. */
  function StackOf<C>(v: View<C>, list: seq<nat>): C {
    Fold(v.paint, Colors(v, list))
  }

  lemma {:induction false} StackOfConcat<C(!new)>(v: View<C>, a: seq<nat>, b: seq<nat>)
    requires Lawful(v.paint)
    ensures StackOf(v, a + b) == v.paint.over(StackOf(v, a), StackOf(v, b))
  {
    assert Colors(v, a + b) == Colors(v, a) + Colors(v, b);
    FoldConcat(v.paint, Colors(v, a), Colors(v, b));
  }

  lemma {:induction false} StackOfOne<C(!new)>(v: View<C>, l: nat)
    requires Lawful(v.paint)
    ensures StackOf(v, [l]) == ColorOf(v, l)
  {
    assert Colors(v, [l]) == [ColorOf(v, l)];
    FoldOne(v.paint, ColorOf(v, l));
  }

  lemma {:induction false} StackOfNone<C>(v: View<C>)
    ensures StackOf(v, []) == v.paint.clear
  {
    assert Colors(v, []) == [];
  }

  /** Layers that do not blend hide what is below them where they are over the cell. */
  ghost predicate SolidView<C(!new)>(v: View<C>) {
    Lawful(v.paint) && forall l :: l in v.over && l in v.solid ==> Hides(v.paint, ColorOf(v, l))
  }

  /** Leaving out what lies below a layer that does not blend changes nothing. */
  lemma {:induction false} OpaqueHides<C(!new)>(v: View<C>, list: seq<nat>)
    requires SolidView(v) && forall i :: 0 <= i < |list| ==> list[i] in v.over
    ensures StackOf(v, DownToOpaque(v.solid, list)) == StackOf(v, list)
  {
    if DownToOpaque(v.solid, list) != list {
      var n := CutBelow(v.solid, list);
      assert list[n] in v.over;
      HiddenBelow(v, list[..n], list[n], list[n + 1..]);
    }
  }

  lemma {:induction false} CutBelow(solid: set<nat>, list: seq<nat>) returns (n: nat)
    requires DownToOpaque(solid, list) != list
    ensures n < |list| && list[n] in solid
    ensures DownToOpaque(solid, list) == list[..n] + [list[n]]
    ensures list == list[..n] + [list[n]] + list[n + 1..]
  {
    var top := DownToOpaque(solid, list);
    assert |top| == |list| ==> top == list;
    n := |top| - 1;
    assert list[n] == top[n];
  }

  lemma {:induction false} HiddenBelow<C(!new)>(v: View<C>, above: seq<nat>, l: nat, below: seq<nat>)
    requires Lawful(v.paint) && Hides(v.paint, ColorOf(v, l))
    ensures StackOf(v, above + [l] + below) == StackOf(v, above + [l])
  {
    StackOfConcat(v, above + [l], below);
    StackOfConcat(v, above, [l]);
    StackOfOne(v, l);
  }

  // ---------------------------------------------------------------- buffers

  /** A cell of a buffer after its regions were drawn in order, later ones over earlier ones. */
  function BufferColor<C>(v: View<C>, regions: seq<CompositionRegion>, x: int, y: int): C {
    if regions == [] then v.paint.clear
    else
      var last := regions[|regions| - 1];
      if last.frame.Has(x, y) && last.sourceLayers != [] then StackOf(v, DownToOpaque(v.solid, last.sourceLayers))
      else BufferColor(v, regions[..|regions| - 1], x, y)
  }

  ghost predicate Drawn(regions: seq<CompositionRegion>, x: int, y: int) {
    exists i :: 0 <= i < |regions| && regions[i].frame.Has(x, y)
  }

  /** Where all regions over the cell have the same layers, the buffer shows those layers. */
  lemma {:induction false} BufferAt<C>(v: View<C>, regions: seq<CompositionRegion>, sources: seq<nat>, x: int, y: int)
    requires forall i :: 0 <= i < |regions| && regions[i].frame.Has(x, y) ==> regions[i].sourceLayers == sources
    ensures BufferColor(v, regions, x, y)
         == if Drawn(regions, x, y) then StackOf(v, DownToOpaque(v.solid, sources)) else v.paint.clear
  {
    if regions != [] {
      var n := |regions| - 1;
      BufferAt(v, regions[..n], sources, x, y);
      DrawnStep(regions, x, y);
      if sources == [] {
        StackOfNone(v);
      }
    }
  }

  lemma {:induction false} DrawnStep(regions: seq<CompositionRegion>, x: int, y: int)
    requires regions != []
    ensures Drawn(regions, x, y) <==> Drawn(regions[..|regions| - 1], x, y) || regions[|regions| - 1].frame.Has(x, y)
  {
    var n := |regions| - 1;
    if i :| 0 <= i < |regions| && regions[i].frame.Has(x, y) {
      assert i < n ==> regions[..n][i].frame.Has(x, y);
    }
  }

  /** The layers of a region that is over the cell look the same in both views. */
  ghost predicate SameLayers<C(!new)>(v: View<C>, w: View<C>, region: CompositionRegion, x: int, y: int) {
    region.frame.Has(x, y) ==>
      forall l :: l in region.sourceLayers ==> ColorOf(v, l) == ColorOf(w, l) && (l in v.solid <==> l in w.solid)
  }

  /** A buffer depends only on the layers drawn into it. */
  lemma {:induction false} BufferSame<C(!new)>(v: View<C>, w: View<C>, regions: seq<CompositionRegion>, x: int, y: int)
    requires v.paint == w.paint
    requires forall i :: 0 <= i < |regions| ==> SameLayers(v, w, regions[i], x, y)
    ensures BufferColor(v, regions, x, y) == BufferColor(w, regions, x, y)
  {
    if regions != [] {
      var n := |regions| - 1;
      assert SameLayers(v, w, regions[n], x, y);
      if regions[n].frame.Has(x, y) && regions[n].sourceLayers != [] {
        SameDrawing(v, w, regions[n].sourceLayers);
      } else {
        BufferSame(v, w, regions[..n], x, y);
      }
    }
  }

  lemma {:induction false} SameDrawing<C>(v: View<C>, w: View<C>, sources: seq<nat>)
    requires v.paint == w.paint
    requires forall l :: l in sources ==> ColorOf(v, l) == ColorOf(w, l) && (l in v.solid <==> l in w.solid)
    ensures StackOf(v, DownToOpaque(v.solid, sources)) == StackOf(w, DownToOpaque(w.solid, sources))
  {
    DownToSame(v.solid, w.solid, sources);
    var top := DownToOpaque(v.solid, sources);
    assert forall k :: 0 <= k < |top| ==> top[k] == sources[k] && sources[k] in sources;
    assert Colors(v, top) == Colors(w, top);
  }

  lemma {:induction false} DownToSame(solid: set<nat>, solid': set<nat>, sources: seq<nat>)
    requires forall l :: l in sources ==> (l in solid <==> l in solid')
    ensures DownToOpaque(solid, sources) == DownToOpaque(solid', sources)
  {
    if sources != [] {
      assert forall l :: l in sources[1..] ==> l in sources;
      DownToSame(solid, solid', sources[1..]);
    }
  }

  // ---------------------------------------------------------------- planes

  /** What one plane shows at the cell, given the cell of the two buffers. */
  function PlaneColor<C>(v: View<C>, source: Source, preComp: C, squash: C): C {
    match source
    case Disabled => v.paint.clear
    case PreComp => preComp
    case Squash => squash
    case FromLayer(l) => if l in v.over then ColorOf(v, l) else v.paint.clear
  }

  /** The planes on the screen, each over those before it. */
  function Shown<C>(v: View<C>, sources: seq<Source>, preComp: C, squash: C): C {
    if sources == [] then v.paint.clear
    else
      var n := |sources| - 1;
      v.paint.over(PlaneColor(v, sources[n], preComp, squash), Shown(v, sources[..n], preComp, squash))
  }

  /** The layers of an increasing list that are over the cell, from the top. */
  function OverCell<C>(v: View<C>, list: seq<nat>): seq<nat> {
    if list == [] then []
    else
      var n := |list| - 1;
      (if list[n] in v.over then [list[n]] else []) + OverCell(v, list[..n])
  }

  lemma {:induction false} OverCellHas<C(!new)>(v: View<C>, list: seq<nat>)
    requires Increasing(list)
    ensures forall l :: l in OverCell(v, list) <==> l in list && l in v.over
    ensures forall i, j :: 0 <= i < j < |OverCell(v, list)| ==> OverCell(v, list)[i] > OverCell(v, list)[j]
  {
    if list != [] {
      var n := |list| - 1;
      OverCellHas(v, list[..n]);
      assert forall l :: l in list <==> l in list[..n] || l == list[n];
      assert forall l :: l in list[..n] ==> l < list[n];
      var rest := OverCell(v, list[..n]);
      assert forall i :: 0 <= i < |rest| ==> rest[i] in rest;
    }
  }

  /** The planes with layers of their own show the stack of those layers. */
  lemma {:induction false} DirectShown<C(!new)>(v: View<C>, direct: seq<nat>, preComp: C, squash: C)
    requires Lawful(v.paint)
    ensures Shown(v, FromLayers(direct), preComp, squash) == StackOf(v, OverCell(v, direct))
  {
    if direct != [] {
      var n := |direct| - 1;
      DirectShown(v, direct[..n], preComp, squash);
      assert FromLayers(direct)[..n] == FromLayers(direct[..n]);
      var top := if direct[n] in v.over then [direct[n]] else [];
      StackOfConcat(v, top, OverCell(v, direct[..n]));
      StackOfOne(v, direct[n]);
      StackOfNone(v);
    } else {
      StackOfNone(v);
    }
  }

  /** Stacking one more plane, or not. */
  lemma {:induction false} ShownOver<C(!new)>(v: View<C>, sources: seq<Source>, top: Source, on: bool, preComp: C, squash: C)
    requires Lawful(v.paint)
    ensures Shown(v, sources + (if on then [top] else []), preComp, squash)
         == v.paint.over(if on then PlaneColor(v, top, preComp, squash) else v.paint.clear, Shown(v, sources, preComp, squash))
  {
    if on {
      assert (sources + [top])[..|sources|] == sources;
    } else {
      assert sources + [] == sources;
    }
  }

  /** The planes of a plan: the direct layers, then the pre-composited and the squash buffer, if any. */
  lemma {:induction false} PlanShown<C(!new)>(v: View<C>, a: Assignment, preComp: C, squash: C)
    requires Lawful(v.paint)
    requires SourcesOf(a.planes) == FromLayers(a.direct)
                                    + (if a.preComp == [] then [] else [PreComp])
                                    + (if a.squash then [Squash] else [])
    ensures Shown(v, SourcesOf(a.planes), preComp, squash)
         == v.paint.over(if a.squash then squash else v.paint.clear,
                         v.paint.over(if a.preComp == [] then v.paint.clear else preComp,
                                      StackOf(v, OverCell(v, a.direct))))
  {
    var direct := FromLayers(a.direct);
    DirectShown(v, a.direct, preComp, squash);
    ShownOver(v, direct, PreComp, a.preComp != [], preComp, squash);
    ShownOver(v, direct + (if a.preComp != [] then [PreComp] else []), Squash, a.squash, preComp, squash);
  }

  // ---------------------------------------------------------------- leaving layers out

  /** The stack of the layers of a set up to `n`, by its top one. */
  ghost predicate FromTop<C(!new)>(v: View<C>, s: set<nat>, n: nat) {
    StackOf(v, Descending(s, n + 1))
    == if n in s then v.paint.over(ColorOf(v, n), StackOf(v, Descending(s, n))) else StackOf(v, Descending(s, n))
  }

  lemma {:induction false} StackFromTop<C(!new)>(v: View<C>, s: set<nat>, n: nat)
    requires Lawful(v.paint)
    ensures FromTop(v, s, n)
  {
    if n in s {
      StackOfConcat(v, [n], Descending(s, n));
      StackOfOne(v, n);
    }
  }

  /** Every layer of `wrong` lies below one of `hiding`. */
  ghost predicate Obscured(wrong: set<nat>, hiding: set<nat>, n: nat) {
    forall l :: l in wrong && l < n ==> exists m :: m in hiding && l < m < n
  }

  /**
   Two views of a cell, the second with the layers of `kept` only. Their stacks agree if every
   layer that is left out or looks different is invisible or lies below one that hides it.
   */
  lemma {:induction false} KeptEnough<C(!new)>(v: View<C>, w: View<C>, kept: set<nat>, all: set<nat>,
                                               wrong: set<nat>, hiding: set<nat>, n: nat)
    requires Lawful(v.paint) && w.paint == v.paint && hiding <= kept <= all && Obscured(wrong, hiding, n)
    requires forall l :: l in hiding ==> Hides(v.paint, ColorOf(v, l))
    requires forall l :: l in kept && l !in wrong ==> ColorOf(w, l) == ColorOf(v, l)
    requires forall l :: l in all && l !in kept && l !in wrong ==> ColorOf(v, l) == v.paint.clear
    ensures StackOf(w, Descending(kept, n)) == StackOf(v, Descending(all, n))
  {
    forall k: nat
      ensures FromTop(v, all, k) && FromTop(w, kept, k)
    {
      StackFromTop(v, all, k);
      StackFromTop(w, kept, k);
    }
    StackOfNone(v);
    StackOfNone(w);
    KeptFromTop(v, w, kept, all, wrong, hiding, n);
  }

  /** What the two views say of layer `l`: it looks the same, or it is left out and invisible, or it is one of `wrong`. */
  ghost predicate Agree<C>(v: View<C>, w: View<C>, kept: set<nat>, all: set<nat>, wrong: set<nat>, l: nat) {
    || l in wrong
    || (l in kept && l in all && ColorOf(w, l) == ColorOf(v, l))
    || (l !in kept && (l in all ==> ColorOf(v, l) == v.paint.clear))
  }

  lemma {:induction false} KeptFromTop<C(!new)>(v: View<C>, w: View<C>, kept: set<nat>, all: set<nat>,
                                                wrong: set<nat>, hiding: set<nat>, n: nat)
    requires w.paint == v.paint && hiding <= kept && Obscured(wrong, hiding, n)
    requires forall c :: v.paint.over(v.paint.clear, c) == c
    requires StackOf(v, []) == StackOf(w, [])
    requires forall k: nat :: FromTop(v, all, k) && FromTop(w, kept, k)
    requires forall l :: l in hiding ==> Hides(v.paint, ColorOf(v, l))
    requires forall l :: Agree(v, w, kept, all, wrong, l)
    ensures StackOf(w, Descending(kept, n)) == StackOf(v, Descending(all, n))
  {
    if n > 0 {
      var k: nat := n - 1;
      assert Agree(v, w, kept, all, wrong, k) && k !in wrong;
      if k in hiding {
        OneMore(v, w, kept, all, k);
      } else {
        ObscuredBelow(wrong, hiding, k);
        KeptFromTop(v, w, kept, all, wrong, hiding, k);
        OneMore(v, w, kept, all, k);
      }
    }
  }

  lemma {:induction false} ObscuredBelow(wrong: set<nat>, hiding: set<nat>, n: nat)
    requires Obscured(wrong, hiding, n + 1) && n !in hiding
    ensures Obscured(wrong, hiding, n)
  {
  }

  lemma {:induction false} OneMore<C(!new)>(v: View<C>, w: View<C>, kept: set<nat>, all: set<nat>, k: nat)
    requires w.paint == v.paint && FromTop(v, all, k) && FromTop(w, kept, k)
    requires forall c :: v.paint.over(v.paint.clear, c) == c
    requires Agree(v, w, kept, all, {}, k)
    requires (k in kept && Hides(v.paint, ColorOf(v, k))) || StackOf(w, Descending(kept, k)) == StackOf(v, Descending(all, k))
    ensures StackOf(w, Descending(kept, k + 1)) == StackOf(v, Descending(all, k + 1))
  {
  }

  /** Lists of layers that look the same have the same stack. */
  lemma {:induction false} StackSame<C>(v: View<C>, w: View<C>, list: seq<nat>)
    requires v.paint == w.paint && forall l :: l in list ==> ColorOf(v, l) == ColorOf(w, l)
    ensures StackOf(v, list) == StackOf(w, list)
  {
    assert Colors(v, list) == Colors(w, list);
  }
}
