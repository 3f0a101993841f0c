/** Runs and plans, layer by layer, in which the picture on the screen is not the one wanted. */
module Cases {
  import opened Rects
  import opened Sweep
  import opened Pieces
  import opened Layers
  import opened Squash
  import opened SquashCache
  import opened Separate
  import opened Planes
  import opened PlanForm
  import opened Composition
  import opened Blend
  import opened Sampling
  import opened Stacking
  import opened Screen
  import opened Commit
  import opened Picture
  import opened AnyFrame
  import opened Runs

  // ---------------------------------------------------------------- building runs

  /** Pieces that cover every covered cell are all the pieces. */
  lemma {:induction false} AllPieces(rects: seq<Rect>, out: seq<RectSet>)
    requires Distinct(out) && forall p :: p in out ==> IsPiece(rects, p)
    requires forall x, y :: Cover(rects, x, y) != {} ==> Pieces.Covered(out, x, y)
    ensures Separated(rects, out)
  {
    forall p | IsPiece(rects, p)
      ensures p in out
    {
      var x, y := p.rect.left, p.rect.top;
      assert IsRun(rects, x, StripOf(p));
      PieceCover(rects, p, x, y);
      var k :| 0 <= k < |out| && out[k].rect.Has(x, y);
      assert out[k] in out;
      PieceUnique(rects, x, y, p, out[k]);
    }
  }

  /** A rectangle of cells with one cover, which changes at each of its four edges. */
  lemma {:induction false} PieceBy(rects: seq<Rect>, p: RectSet)
    requires p.ids != {} && !p.rect.Empty()
    requires forall x, y :: p.rect.Has(x, y) ==> Cover(rects, x, y) == p.ids
    requires forall x, y :: p.rect.left <= x < p.rect.right && (y == p.rect.top - 1 || y == p.rect.bottom) ==>
               Cover(rects, x, y) != p.ids
    requires Cover(rects, p.rect.left - 1, p.rect.top) != p.ids && Cover(rects, p.rect.right, p.rect.top) != p.ids
    ensures IsPiece(rects, p)
  {
    forall x | p.rect.left <= x < p.rect.right
      ensures IsRun(rects, x, StripOf(p))
    {
      forall y | p.rect.top <= y < p.rect.bottom
        ensures Cover(rects, x, y) == p.ids
      {
        assert p.rect.Has(x, y);
      }
    }
  }

  /** After a frame with new geometry the geometry stands. */
  ghost predicate Standing(frames: seq<Frame>) {
    && |frames| > 0 && frames[0].geometryChanged && |frames[0].layers| <= MAX_ELEMENTS
    && forall u :: 0 < u < |frames| ==> !frames[u].geometryChanged && Steady(frames[u - 1].layers, frames[u].layers)
  }

  /** Such frames have a run, with any order of the pieces. */
  lemma {:induction false} StandingRun(frames: seq<Frame>, pieces: seq<RectSet>) returns (states: seq<Cache>)
    requires Standing(frames) && Separated(Frames(frames[0].layers), pieces)
    ensures Run(states, frames)
    ensures forall t :: 0 < t <= |frames| ==> states[t].memory.Valid() && states[t].memory.regions == pieces
  {
    var last := frames[|frames| - 1];
    if |frames| == 1 {
      var start := Cache(Memory([], [], [], []), [], [], []);
      states := [start, Cache(Memory([], Buffers(last.layers), pieces, seq(|pieces|, _ => false)), last.layers, [], [])];
      RunKeepsShape(states, frames);
    } else {
      var before := frames[..|frames| - 1];
      states := StandingRun(before, pieces);
      states := states + [Advance(states[|before|], last)];
      RunExtends(states, frames);
      RunKeepsShape(states, frames);
    }
  }

  ghost function Advance(c: Cache, f: Frame): Cache
    requires c.memory.Valid()
  {
    var after := Remembered(c.memory, f.layers);
    if Redrawn(c.memory, f.layers) then
      Cache(after, f.layers, FlaggedRegions(c.memory.regions, StableFlags(c.memory, f.layers), |f.layers|), f.layers)
    else
      Cache(after, f.layers, c.drawn, c.drawnFrom)
  }

  lemma {:induction false} RunExtends(states: seq<Cache>, frames: seq<Frame>)
    requires Standing(frames) && |frames| > 1 && |states| == |frames| + 1
    requires Run(states[..|frames|], frames[..|frames| - 1])
    requires states[|frames| - 1].memory.Valid()
    requires states[|frames|] == Advance(states[|frames| - 1], frames[|frames| - 1])
    ensures Run(states, frames)
  {
    var n := |frames| - 1;
    var s, f := states[..|frames|], frames[..n];
    assert Step(s[n - 1], f[n - 1], s[n]);
    forall t | 0 <= t < |frames|
      ensures Step(states[t], frames[t], states[t + 1])
    {
      if t < n {
        assert Step(s[t], f[t], s[t + 1]);
      }
    }
  }

  lemma {:induction false} RunKeepsShape(states: seq<Cache>, frames: seq<Frame>)
    requires Run(states, frames)
    ensures forall t :: 0 <= t <= |frames| ==> states[t].memory.Valid()
    ensures forall t :: 0 < t < |frames| && !frames[t].geometryChanged ==> states[t + 1].memory.regions == states[t].memory.regions
  {
    forall t | 0 <= t <= |frames|
      ensures states[t].memory.Valid()
    {
      RunIsCoherent(states, frames, t);
    }
    forall t | 0 < t < |frames| && !frames[t].geometryChanged
      ensures states[t + 1].memory.regions == states[t].memory.regions
    {
      assert Step(states[t], frames[t], states[t + 1]);
    }
  }

  // ---------------------------------------------------------------- a direct layer in a squashed region

  /** A layer that shows all of its buffer. */
  function Plain(handle: nat, frame: Rect, protectedUsage: bool): Layer {
    Layer(Buffer(handle, 4, 4), protectedUsage, Transform(false, false, false, false, false), PreMult, 128,
          Crop(0.0, 0.0, 4.0, 4.0), frame)
  }

  ghost predicate LooksPlain(layer: Layer, protectedUsage: bool) {
    && layer.protectedUsage == protectedUsage && layer.blending == PreMult && layer.alpha == 128
    && layer.buffer.width > 0 && layer.buffer.height > 0 && !layer.displayFrame.Empty()
  }

  /** Two layers; the second covers half of the first. */
  function HalfCovered(t: nat): seq<Layer> {
    [Plain(0, Rect(0, 0, 4, 4), false), Plain(1 + t, Rect(2, 0, 4, 4), false)]
  }

  /** What the proofs use of those layers and their pieces. */
  ghost predicate Halves(layers: seq<Layer>, pieces: seq<RectSet>) {
    && |layers| == 2 && LooksPlain(layers[0], false) && LooksPlain(layers[1], false)
    && |pieces| == 2 && Separated(Frames(layers), pieces)
    && pieces[0].ids == {0} && pieces[1].ids == {0, 1} && pieces[0].rect.Has(0, 0)
  }

  lemma {:induction false} HalfCover(t: nat, x: int, y: int)
    ensures Cover(Frames(HalfCovered(t)), x, y)
         == (if Rect(0, 0, 4, 4).Has(x, y) then {0} else {}) + (if Rect(2, 0, 4, 4).Has(x, y) then {1} else {})
  {
    var frames := Frames(HalfCovered(t));
    assert |frames| == 2 && frames[0] == Rect(0, 0, 4, 4) && frames[1] == Rect(2, 0, 4, 4);
  }

  lemma {:induction false} HalfPieces() returns (pieces: seq<RectSet>)
    ensures Halves(HalfCovered(0), pieces)
  {
    pieces := [RectSet({0}, Rect(0, 0, 2, 4)), RectSet({0, 1}, Rect(2, 0, 4, 4))];
    forall x, y {
      HalfCover(0, x, y);
    }
    HalfSeparated(Frames(HalfCovered(0)), pieces);
  }

  /** The cells of the two rectangles. */
  ghost predicate HalfCells(rects: seq<Rect>) {
    forall x, y :: Cover(rects, x, y)
      == (if Rect(0, 0, 4, 4).Has(x, y) then {0} else {}) + (if Rect(2, 0, 4, 4).Has(x, y) then {1} else {})
  }

  lemma {:induction false} LeftPiece(rects: seq<Rect>, ids: set<nat>)
    requires HalfCells(rects) && ids == {0}
    ensures IsPiece(rects, RectSet(ids, Rect(0, 0, 2, 4)))
  {
    assert 1 !in ids;
    PieceBy(rects, RectSet(ids, Rect(0, 0, 2, 4)));
  }

  lemma {:induction false} RightPiece(rects: seq<Rect>, ids: set<nat>)
    requires HalfCells(rects) && ids == {0, 1}
    ensures IsPiece(rects, RectSet(ids, Rect(2, 0, 4, 4)))
  {
    assert 1 in ids;
    PieceBy(rects, RectSet(ids, Rect(2, 0, 4, 4)));
  }

  lemma {:induction false} HalfSeparated(rects: seq<Rect>, pieces: seq<RectSet>)
    requires HalfCells(rects) && |pieces| == 2
    requires pieces[0] == RectSet({0}, Rect(0, 0, 2, 4)) && pieces[1] == RectSet({0, 1}, Rect(2, 0, 4, 4))
    ensures Separated(rects, pieces)
  {
    LeftPiece(rects, {0});
    RightPiece(rects, {0, 1});
    forall x, y | Cover(rects, x, y) != {}
      ensures Pieces.Covered(pieces, x, y)
    {
      assert x < 2 ==> pieces[0].rect.Has(x, y);
      assert x >= 2 ==> pieces[1].rect.Has(x, y);
    }
    assert 1 !in pieces[0].ids && 1 in pieces[1].ids;
    AllPieces(rects, pieces);
  }

  // ---------------------------------------------------------------- a run of eight frames

  /** A geometry frame and seven more; the second layer changes its buffer at least in the last. */
  ghost predicate HalfChanging(frames: seq<Frame>, pieces: seq<RectSet>) {
    && |frames| == 8 && Standing(frames)
    && (forall t :: 0 <= t < 8 ==> Halves(frames[t].layers, pieces))
    && (forall t :: 0 < t < 8 ==> frames[t].layers[0] == frames[t - 1].layers[0])
    && frames[6].layers[1].buffer != frames[7].layers[1].buffer
  }

  lemma {:induction false} HalfFrames() returns (frames: seq<Frame>, pieces: seq<RectSet>)
    ensures HalfChanging(frames, pieces)
  {
    pieces := HalfPieces();
    frames := seq(8, t requires 0 <= t < 8 => Frame(HalfCovered(t), t == 0));
    forall u: nat | u < 8
      ensures Halves(frames[u].layers, pieces)
      ensures u > 0 ==> Steady(frames[u - 1].layers, frames[u].layers) && frames[u].layers[0] == frames[u - 1].layers[0]
    {
      HalfSteady(u, pieces);
    }
    assert frames[6].layers == HalfCovered(6) && frames[7].layers == HalfCovered(7);
  }

  lemma {:induction false} HalfSteady(t: nat, pieces: seq<RectSet>)
    requires Halves(HalfCovered(0), pieces)
    ensures Halves(HalfCovered(t), pieces)
    ensures t > 0 ==> Steady(HalfCovered(t - 1), HalfCovered(t)) && HalfCovered(t)[0] == HalfCovered(t - 1)[0]
  {
    assert Frames(HalfCovered(t)) == Frames(HalfCovered(0));
  }

  /** In the eighth frame the part that is not covered has come to rest, and the other has not. */
  lemma {:induction false} HalfAtRest(states: seq<Cache>, frames: seq<Frame>, pieces: seq<RectSet>)
    requires HalfChanging(frames, pieces)
    requires Run(states, frames) && states[7].memory.Valid() && states[7].memory.regions == pieces
    ensures StableFlags(states[7].memory, frames[7].layers)[0]
    ensures !StableFlags(states[7].memory, frames[7].layers)[1]
  {
    StableIffSevenQuietFrames(states, frames, 0, 7, 0);
    StableIffSevenQuietFrames(states, frames, 0, 7, 1);
    forall u | 0 < u <= 7
      ensures !Touched(frames, u, pieces[0].ids)
    {
      assert Halves(frames[u].layers, pieces);
    }
    assert 1 in pieces[1].ids;
    assert Touched(frames, 7, pieces[1].ids);
  }

  lemma {:induction false} HalfRun(frames: seq<Frame>, pieces: seq<RectSet>) returns (states: seq<Cache>, flags: seq<bool>)
    requires HalfChanging(frames, pieces)
    ensures Run(states, frames) && FrameRegions(states[7], frames[7], pieces, flags)
    ensures |flags| == 2 && flags[0] && !flags[1]
  {
    states := StandingRun(frames, pieces);
    flags := StableFlags(states[7].memory, frames[7].layers);
    HalfAtRest(states, frames, pieces);
  }

  // ---------------------------------------------------------------- its plan

  /** Three planes: one for each of two layers and one for the squash buffer. */
  lemma {:induction false} HalfPlanned(isProtected: seq<bool>, needed: seq<bool>) returns (a: Assignment)
    requires |isProtected| == |needed| == 2 && forall j :: 0 <= j < 2 ==> !isProtected[j] && needed[j]
    ensures Planned(3, isProtected, needed, true, a)
    ensures a.direct == [0, 1] && a.preComp == [] && a.protectedLayers == [] && a.squash
  {
    NoneProtected(isProtected);
    var planes := [CompositionPlane(Plane(0, true, {0}), FromLayer(0)), CompositionPlane(Plane(1, false, {0}), FromLayer(1)),
                   CompositionPlane(Plane(2, false, {0}), Source.Squash)];
    a := Assignment(planes, [0, 1], [], [], true);
    assert SourcesOf(planes) == FromLayers([0, 1]) + [] + [Source.Squash];
  }

  lemma {:induction false} HalfNeeded(layers: seq<Layer>, pieces: seq<RectSet>, flags: seq<bool>)
    requires Halves(layers, pieces) && |flags| == 2 && flags[0] && !flags[1]
    ensures forall j :: 0 <= j < 2 ==> !ProtectedFlags(layers)[j] && NeededFlags(layers, pieces, flags)[j]
  {
    assert 0 in pieces[1].ids && 1 in pieces[1].ids;
    KeptAreaReachesIff(Frames(layers), pieces, flags, 0);
    KeptAreaReachesIff(Frames(layers), pieces, flags, 1);
  }

  lemma {:induction false} HalfPlan(layers: seq<Layer>, pieces: seq<RectSet>, flags: seq<bool>) returns (a: Assignment)
    requires Halves(layers, pieces) && |flags| == 2 && flags[0] && !flags[1]
    ensures FramePlan(3, layers, pieces, flags, a, []) && 0 in a.direct && a.preComp == []
  {
    HalfNeeded(layers, pieces, flags);
    assert flags[0];
    assert true in flags;
    a := HalfPlanned(ProtectedFlags(layers), NeededFlags(layers, pieces, flags));
  }

  lemma {:induction false} HalfNotRight(layers: seq<Layer>, pieces: seq<RectSet>, flags: seq<bool>, direct: seq<nat>)
    requires Halves(layers, pieces) && |flags| == 2 && flags[0] && 0 in direct
    ensures Squashed(pieces, flags, 0, 0) && !NothingSeen(OnPlanes(layers, direct), direct, 0, 0) && !OpaqueCell(layers, 0, 0)
  {
    SeparatedIsExact(Frames(layers), pieces);
    assert pieces[0].rect.Has(0, 0);
    assert 0 in Cover(Frames(layers), 0, 0) && CanShow(Committed(layers[0]));
  }

  ghost predicate NoneIsProtected(layers: seq<Layer>) {
    forall j :: 0 <= j < |layers| ==> !layers[j].protectedUsage
  }

  lemma {:induction false} HalfWellFormed(layers: seq<Layer>, pieces: seq<RectSet>)
    requires Halves(layers, pieces)
    ensures WellFormed(layers) && NoneIsProtected(layers)
  {
  }

  lemma {:induction false} NotFaithful(states: seq<Cache>, frames: seq<Frame>, t: nat, pieces: seq<RectSet>, flags: seq<bool>,
                                       a: Assignment, x: int, y: int)
    requires Run(states, frames) && t < |frames| && FrameRegions(states[t], frames[t], pieces, flags) && |pieces| == |flags|
    requires WellFormed(frames[t].layers) && NoneIsProtected(frames[t].layers)
    requires FramePlan(3, frames[t].layers, pieces, flags, a, []) && a.preComp == []
    requires Squashed(pieces, flags, x, y)
    requires !NothingSeen(OnPlanes(frames[t].layers, a.direct), a.direct, x, y) && !OpaqueCell(frames[t].layers, x, y)
    ensures !Faithful(frames[t].layers, a, [], states[t + 1].drawnFrom, states[t + 1].drawn, x, y)
  {
    PictureOverRuns(states, frames, t, 3, pieces, flags, a, [], x, y);
    NothingDirectIff(3, frames[t].layers, pieces, flags, a, [], x, y);
  }

  /**
   A still layer under a video: the part beside the video is squashed while the layer also has a
   plane of its own, and that part is blended over itself.
   */
  lemma {:induction false} BlendedTwice() returns (states: seq<Cache>, frames: seq<Frame>, pieces: seq<RectSet>, flags: seq<bool>,
                                                   a: Assignment)
    ensures Run(states, frames) && HalfChanging(frames, pieces) && |pieces| == |flags|
    ensures FrameRegions(states[7], frames[7], pieces, flags)
    ensures FramePlan(3, frames[7].layers, pieces, flags, a, []) && a.preComp == []
    ensures !Faithful(frames[7].layers, a, [], states[8].drawnFrom, states[8].drawn, 0, 0)
  {
    frames, pieces := HalfFrames();
    states, flags := HalfRun(frames, pieces);
    a := HalfShown(states, frames, pieces, flags);
  }

  lemma {:induction false} HalfShown(states: seq<Cache>, frames: seq<Frame>, pieces: seq<RectSet>, flags: seq<bool>)
      returns (a: Assignment)
    requires |frames| == 8 && Run(states, frames) && Halves(frames[7].layers, pieces)
    requires FrameRegions(states[7], frames[7], pieces, flags) && |flags| == 2 && flags[0] && !flags[1]
    ensures FramePlan(3, frames[7].layers, pieces, flags, a, []) && a.preComp == []
    ensures !Faithful(frames[7].layers, a, [], states[8].drawnFrom, states[8].drawn, 0, 0)
  {
    HalfWellFormed(frames[7].layers, pieces);
    a := HalfPlan(frames[7].layers, pieces, flags);
    HalfNotRight(frames[7].layers, pieces, flags, a.direct);
    NotFaithful(states, frames, 7, pieces, flags, a, 0, 0);
  }

  // ---------------------------------------------------------------- a layer that vanishes

  /** Rectangles that do not meet are their own pieces. */
  lemma {:induction false} ApartPieces(rects: seq<Rect>, out: seq<RectSet>)
    requires |out| == |rects| && forall i :: 0 <= i < |rects| ==> out[i] == RectSet({i}, rects[i]) && !rects[i].Empty()
    requires forall i, j :: 0 <= i < j < |rects| ==> !Overlap(rects[i], rects[j])
    ensures Separated(rects, out)
  {
    forall i: nat, x, y | i < |rects| && rects[i].Has(x, y)
      ensures Cover(rects, x, y) == {i}
    {
      forall j: nat | j < |rects| && rects[j].Has(x, y)
        ensures j == i
      {
        assert Overlap(rects[i], rects[j]) && Overlap(rects[j], rects[i]);
      }
    }
    forall i: nat | i < |rects|
      ensures IsPiece(rects, out[i])
    {
      var r := rects[i];
      assert i in out[i].ids;
      forall x, y | r.left <= x < r.right && (y == r.top - 1 || y == r.bottom)
        ensures Cover(rects, x, y) != out[i].ids
      {
        NotOver(rects, i, x, y);
      }
      NotOver(rects, i, r.left - 1, r.top);
      NotOver(rects, i, r.right, r.top);
      PieceBy(rects, out[i]);
    }
    forall x, y | Cover(rects, x, y) != {}
      ensures Pieces.Covered(out, x, y)
    {
      var i :| i in Cover(rects, x, y);
      assert out[i].rect.Has(x, y);
    }
    AllPieces(rects, out);
  }

  lemma {:induction false} NotOver(rects: seq<Rect>, i: nat, x: int, y: int)
    requires i < |rects| && !rects[i].Has(x, y)
    ensures i !in Cover(rects, x, y)
  {
  }

  /** Four layers apart from each other; the second changes its buffer, the last two are protected. */
  function FourApart(t: nat): seq<Layer> {
    [Plain(0, Rect(0, 0, 4, 4), false), Plain(3 + t, Rect(10, 0, 14, 4), false),
     Plain(1, Rect(20, 0, 24, 4), true), Plain(2, Rect(30, 0, 34, 4), true)]
  }

  ghost predicate Four(layers: seq<Layer>, pieces: seq<RectSet>) {
    && |layers| == 4 && |pieces| == 4 && Separated(Frames(layers), pieces)
    && (forall i :: 0 <= i < 4 ==> LooksPlain(layers[i], i >= 2) && pieces[i].ids == {i})
    && pieces[0].rect.Has(0, 0)
  }

  lemma {:induction false} FourPieces() returns (pieces: seq<RectSet>)
    ensures Four(FourApart(0), pieces)
  {
    var layers := FourApart(0);
    var rects := Frames(layers);
    pieces := seq(4, i requires 0 <= i < 4 => RectSet({i}, rects[i]));
    ApartPieces(rects, pieces);
  }

  ghost predicate FourChanging(frames: seq<Frame>, pieces: seq<RectSet>) {
    && |frames| == 8 && Standing(frames)
    && (forall t :: 0 <= t < 8 ==> Four(frames[t].layers, pieces))
    && (forall t :: 0 < t < 8 ==> frames[t].layers[0] == frames[t - 1].layers[0])
    && frames[6].layers[1].buffer != frames[7].layers[1].buffer
  }

  lemma {:induction false} FourFrames() returns (frames: seq<Frame>, pieces: seq<RectSet>)
    ensures FourChanging(frames, pieces)
  {
    pieces := FourPieces();
    frames := seq(8, t requires 0 <= t < 8 => Frame(FourApart(t), t == 0));
    forall u: nat | u < 8
      ensures Four(frames[u].layers, pieces)
      ensures u > 0 ==> Steady(frames[u - 1].layers, frames[u].layers) && frames[u].layers[0] == frames[u - 1].layers[0]
    {
      FourSteady(u, pieces);
    }
    assert frames[6].layers == FourApart(6) && frames[7].layers == FourApart(7);
  }

  lemma {:induction false} FourSteady(t: nat, pieces: seq<RectSet>)
    requires Four(FourApart(0), pieces)
    ensures Four(FourApart(t), pieces)
    ensures t > 0 ==> Steady(FourApart(t - 1), FourApart(t)) && FourApart(t)[0] == FourApart(t - 1)[0]
  {
    assert Frames(FourApart(t)) == Frames(FourApart(0));
  }

  /** In the eighth frame only the first layer has come to rest. */
  lemma {:induction false} FourAtRest(states: seq<Cache>, frames: seq<Frame>, pieces: seq<RectSet>, i: nat)
    requires FourChanging(frames, pieces) && i < 4
    requires Run(states, frames) && states[7].memory.Valid() && states[7].memory.regions == pieces
    ensures StableFlags(states[7].memory, frames[7].layers)[i] <==> i == 0
  {
    StableIffSevenQuietFrames(states, frames, 0, 7, i);
    assert i in pieces[i].ids && Four(frames[7].layers, pieces);
    if i == 0 {
      forall u | 0 < u <= 7
        ensures !Touched(frames, u, pieces[0].ids)
      {
        assert Four(frames[u].layers, pieces);
      }
    } else {
      assert Touched(frames, 7, pieces[i].ids);
    }
  }

  /** Three planes: one for each of two protected layers and one for pre-composition. */
  lemma {:induction false} FourPlanned(isProtected: seq<bool>, needed: seq<bool>) returns (a: Assignment)
    requires |isProtected| == |needed| == 4 && forall j :: 0 <= j < 4 ==> (isProtected[j] <==> j >= 2) && (needed[j] <==> j > 0)
    ensures Planned(3, isProtected, needed, true, a)
    ensures a.direct == [2, 3] && a.preComp == [0, 1] && a.protectedLayers == [2, 3] && !a.squash
  {
    CountTwo(isProtected);
    var planes := [CompositionPlane(Plane(0, true, {0}), FromLayer(2)), CompositionPlane(Plane(1, false, {0}), FromLayer(3)),
                   CompositionPlane(Plane(2, false, {0}), Source.PreComp)];
    a := Assignment(planes, [2, 3], [2, 3], [0, 1], false);
    assert SourcesOf(planes) == FromLayers([2, 3]) + [Source.PreComp] + [];
    assert needed[1] && !isProtected[1];
  }

  lemma {:induction false} CountTwo(flags: seq<bool>)
    requires |flags| == 4 && forall j :: 0 <= j < 4 ==> (flags[j] <==> j >= 2)
    ensures CountTrue(flags) == 2
  {
    NoneProtected(flags[..2]);
    assert flags[..3][..2] == flags[..2];
    assert CountTrue(flags[..3]) == 1;
  }

  lemma {:induction false} FourNeeded(layers: seq<Layer>, pieces: seq<RectSet>, flags: seq<bool>, j: nat)
    requires Four(layers, pieces) && |flags| == 4 && j < 4
    requires forall i :: 0 <= i < 4 ==> (flags[i] <==> i == 0)
    ensures NeededFlags(layers, pieces, flags)[j] <==> j > 0
  {
    assert j in pieces[j].ids;
    KeptAreaReachesIff(Frames(layers), pieces, flags, j);
  }

  lemma {:induction false} FourRun(frames: seq<Frame>, pieces: seq<RectSet>) returns (states: seq<Cache>, flags: seq<bool>)
    requires FourChanging(frames, pieces)
    ensures Run(states, frames) && FrameRegions(states[7], frames[7], pieces, flags)
    ensures |flags| == 4 && forall i :: 0 <= i < 4 ==> (flags[i] <==> i == 0)
  {
    states := StandingRun(frames, pieces);
    flags := StableFlags(states[7].memory, frames[7].layers);
    forall i: nat | i < 4
      ensures flags[i] <==> i == 0
    {
      FourAtRest(states, frames, pieces, i);
    }
  }

  lemma {:induction false} FourNotRight(layers: seq<Layer>, pieces: seq<RectSet>, flags: seq<bool>,
                                        a: Assignment, preComp: seq<CompositionRegion>,
                                        drawnFrom: seq<Layer>, drawn: seq<CompositionRegion>)
    requires Four(layers, pieces) && |flags| == 4 && forall i :: 0 <= i < 4 ==> (flags[i] <==> i == 0)
    requires Fits(3, layers, pieces, flags, a, preComp) && !a.squash && 0 in a.preComp
    requires Backed(layers, pieces, flags, drawnFrom, drawn)
    ensures !InRegion(preComp, 0, 0) && !Faithful(layers, a, preComp, drawnFrom, drawn, 0, 0)
  {
    SeparatedIsExact(Frames(layers), pieces);
    assert Cover(Frames(layers), 0, 0) == {0};
    assert Squashed(pieces, flags, 0, 0);
    FourWellFormed(layers, pieces);
    ExcludedCell(3, layers, pieces, flags, a, preComp, 0, 0);
    assert CanShow(layers[0]);
    OneIsApart(layers, 0, 0, 0);
    FaithfulIff(3, layers, pieces, flags, a, preComp, drawnFrom, drawn, 0, 0);
  }

  lemma {:induction false} FourWellFormed(layers: seq<Layer>, pieces: seq<RectSet>)
    requires Four(layers, pieces)
    ensures WellFormed(layers)
  {
  }

  lemma {:induction false} OneIsApart(layers: seq<Layer>, l: nat, x: int, y: int)
    requires Cover(Frames(layers), x, y) == {l}
    ensures Apart(layers, x, y)
  {
  }

  /**
   Two protected layers leave one plane: the squash plane is dropped, but the region that has come
   to rest stays excluded, and its layer is pre-composited nowhere.
   */
  lemma {:induction false} LayerVanishes() returns (states: seq<Cache>, frames: seq<Frame>, pieces: seq<RectSet>, flags: seq<bool>,
                                                    a: Assignment)
    ensures Run(states, frames) && FourChanging(frames, pieces) && |pieces| == |flags| == 4
    ensures FrameRegions(states[7], frames[7], pieces, flags)
    ensures Planned(3, ProtectedFlags(frames[7].layers), NeededFlags(frames[7].layers, pieces, flags), true in flags, a)
    ensures 0 in a.preComp && 0 in Cover(Frames(frames[7].layers), 0, 0)
    ensures forall preComp :: FramePlan(3, frames[7].layers, pieces, flags, a, preComp) ==>
              && !InRegion(preComp, 0, 0)
              && !Faithful(frames[7].layers, a, preComp, states[8].drawnFrom, states[8].drawn, 0, 0)
  {
    frames, pieces := FourFrames();
    states, flags := FourRun(frames, pieces);
    assert Four(frames[7].layers, pieces);
    a := FourPlan(frames[7].layers, pieces, flags);
    RunIsBacked(states, frames, 7, pieces, flags);
    FourAllNotRight(frames[7].layers, pieces, flags, a, states[8].drawnFrom, states[8].drawn);
  }

  lemma {:induction false} FourPlan(layers: seq<Layer>, pieces: seq<RectSet>, flags: seq<bool>) returns (a: Assignment)
    requires Four(layers, pieces) && |flags| == 4 && forall i :: 0 <= i < 4 ==> (flags[i] <==> i == 0)
    ensures Planned(3, ProtectedFlags(layers), NeededFlags(layers, pieces, flags), true in flags, a)
    ensures a.preComp == [0, 1] && a.protectedLayers == [2, 3] && !a.squash
  {
    assert flags[0];
    forall j: nat | j < 4
      ensures NeededFlags(layers, pieces, flags)[j] <==> j > 0
    {
      FourNeeded(layers, pieces, flags, j);
    }
    a := FourPlanned(ProtectedFlags(layers), NeededFlags(layers, pieces, flags));
  }

  lemma {:induction false} FourAllNotRight(layers: seq<Layer>, pieces: seq<RectSet>, flags: seq<bool>, a: Assignment,
                                           drawnFrom: seq<Layer>, drawn: seq<CompositionRegion>)
    requires Four(layers, pieces) && |flags| == 4 && forall i :: 0 <= i < 4 ==> (flags[i] <==> i == 0)
    requires a.preComp == [0, 1] && a.protectedLayers == [2, 3] && !a.squash
    requires Backed(layers, pieces, flags, drawnFrom, drawn)
    ensures 0 in Cover(Frames(layers), 0, 0)
    ensures forall preComp :: FramePlan(3, layers, pieces, flags, a, preComp) ==>
              !InRegion(preComp, 0, 0) && !Faithful(layers, a, preComp, drawnFrom, drawn, 0, 0)
  {
    FlaggedRectsFew(pieces, flags);
    SeparatedIsExact(Frames(layers), pieces);
    forall preComp | FramePlan(3, layers, pieces, flags, a, preComp)
      ensures !InRegion(preComp, 0, 0) && !Faithful(layers, a, preComp, drawnFrom, drawn, 0, 0)
    {
      FourNotRight(layers, pieces, flags, a, preComp, drawnFrom, drawn);
    }
  }

  // ---------------------------------------------------------------- a hole that takes too much

  /** A background, a protected layer over it, and two more layers; the lower of these lies over the protected one. */
  ghost predicate OverProtected(layers: seq<Layer>) {
    && |layers| == 4
    && (forall l :: 0 <= l < 4 ==> LooksPlain(layers[l], l == 1) && layers[l].buffer.handle == l)
    && Cover(Frames(layers), 1, 1) == {0, 1, 2}
  }

  lemma {:induction false} HoleLayers() returns (layers: seq<Layer>)
    ensures OverProtected(layers)
  {
    layers := [Plain(0, Rect(0, 0, 4, 4), false), Plain(1, Rect(1, 1, 3, 3), true),
               Plain(2, Rect(1, 1, 2, 2), false), Plain(3, Rect(10, 0, 14, 4), false)];
  }

  /** Three planes: the background and the protected layer have their own, the others are pre-composited. */
  lemma {:induction false} HolePlanned(isProtected: seq<bool>, needed: seq<bool>) returns (a: Assignment)
    requires |isProtected| == |needed| == 4 && forall j :: 0 <= j < 4 ==> (isProtected[j] <==> j == 1)
    ensures Planned(3, isProtected, needed, false, a)
    ensures a.direct == [0, 1] && a.preComp == [2, 3] && a.protectedLayers == [1] && !a.squash
  {
    NoneProtected(isProtected[..1]);
    assert isProtected[..2][..1] == isProtected[..1] && isProtected[..3][..2] == isProtected[..2];
    assert CountTrue(isProtected[..2]) == 1;
    assert CountTrue(isProtected[..3]) == 1;
    var planes := [CompositionPlane(Plane(0, true, {0}), FromLayer(0)), CompositionPlane(Plane(1, false, {0}), FromLayer(1)),
                   CompositionPlane(Plane(2, false, {0}), Source.PreComp)];
    a := Assignment(planes, [0, 1], [1], [2, 3], false);
    assert SourcesOf(planes) == FromLayers([0, 1]) + [Source.PreComp] + [];
  }

  lemma {:induction false} HoleNotRight(layers: seq<Layer>, a: Assignment, preComp: seq<CompositionRegion>,
                                        drawnFrom: seq<Layer>, drawn: seq<CompositionRegion>)
    requires OverProtected(layers) && Fits(3, layers, [], [], a, preComp)
    requires a.direct == [0, 1] && a.preComp == [2, 3] && a.protectedLayers == [1] && !a.squash
    ensures !Faithful(layers, a, preComp, drawnFrom, drawn, 1, 1)
  {
    var kept := KeptLayers(layers, [], [], a, 1, 1);
    HoleLost(layers, a);
    assert Apart(layers, 1, 1);
    KeptIff(layers, a.direct, kept, 1, 1);
    KeptIsFaithful(3, layers, [], [], a, preComp, drawnFrom, drawn, 1, 1);
  }

  /** Layer 2 is lost, and nothing above it hides it. */
  lemma {:induction false} HoleLost(layers: seq<Layer>, a: Assignment)
    requires OverProtected(layers) && a.direct == [0, 1] && a.preComp == [2, 3] && a.protectedLayers == [1]
    ensures !NothingWrong(layers, KeptLayers(layers, [], [], a, 1, 1), Elements(a.direct), 1, 1)
  {
    var kept := KeptLayers(layers, [], [], a, 1, 1);
    DrawingIsCovered(layers, a, 1, 1);
    assert 2 in Cover(Frames(layers), 1, 1) && 1 in Cover(Frames(layers), 1, 1);
    assert forall k :: k in Positions(Frames(layers), a.preComp, a.protectedLayers, 1, 1) ==> a.protectedLayers[0] <= k;
    assert 2 !in Drawing(layers, a, 1, 1);
    assert CanShow(layers[2]);
    assert 2 in Wrong(layers, kept, Elements(a.direct), 1, 1);
    assert forall m :: m in Hiding(layers, kept, 1, 1) ==> m < 3;
  }

  /** A plan in which the hole for a protected layer takes away a layer above it. */
  lemma {:induction false} HoleTakesLayerAbove() returns (layers: seq<Layer>, a: Assignment)
    ensures OverProtected(layers)
    ensures Planned(3, ProtectedFlags(layers), NeededFlags(layers, [], []), false, a)
    ensures 2 in a.preComp && !HoleIsExact(a.preComp, 1)
    ensures forall preComp, drawnFrom, drawn :: FramePlan(3, layers, [], [], a, preComp) ==>
              !Faithful(layers, a, preComp, drawnFrom, drawn, 1, 1)
  {
    layers := HoleLayers();
    a := HolePlanned(ProtectedFlags(layers), NeededFlags(layers, [], []));
    assert a.preComp[0] == 2;
    forall preComp, drawnFrom, drawn | FramePlan(3, layers, [], [], a, preComp)
      ensures !Faithful(layers, a, preComp, drawnFrom, drawn, 1, 1)
    {
      HoleNotRight(layers, a, preComp, drawnFrom, drawn);
    }
  }

  // ---------------------------------------------------------------- a layer that its plane misshows

  /** A frame of one layer with a plane of its own. */
  lemma {:induction false} OneDirect(layer: Layer) returns (a: Assignment)
    requires !layer.protectedUsage
    ensures FramePlan(1, [layer], [], [], a, []) && a.direct == [0] && a.preComp == [] && !a.squash
    ensures a.protectedLayers == []
  {
    var isProtected, needed := ProtectedFlags([layer]), NeededFlags([layer], [], []);
    NoneProtected(isProtected);
    var planes := [CompositionPlane(Plane(0, true, {0}), FromLayer(0))];
    a := Assignment(planes, [0], [], [], false);
    assert SourcesOf(planes) == FromLayers([0]) + [] + [];
  }

  /** Such a frame shows its layer rightly at a cell just when the plane does not misshow it. */
  lemma {:induction false} AloneIff(layer: Layer, a: Assignment, drawnFrom: seq<Layer>, drawn: seq<CompositionRegion>, x: int, y: int)
    requires WellFormed([layer]) && !layer.protectedUsage && layer.displayFrame.Has(x, y)
    requires FramePlan(1, [layer], [], [], a, []) && a.direct == [0] && a.preComp == [] && !a.squash
    ensures Faithful([layer], a, [], drawnFrom, drawn, x, y) <==> !Misshown(layer, x, y)
  {
    var layers := [layer];
    assert Cover(Frames(layers), x, y) == {0};
    OneIsApart(layers, 0, x, y);
    var kept := KeptLayers(layers, [], [], a, x, y);
    assert kept == {0};
    KeptIff(layers, a.direct, kept, x, y);
    KeptIsFaithful(1, layers, [], [], a, [], drawnFrom, drawn, x, y);
    AloneWrong(layers, kept, x, y);
  }

  lemma {:induction false} AloneWrong(layers: seq<Layer>, kept: set<nat>, x: int, y: int)
    requires |layers| == 1 && Cover(Frames(layers), x, y) == {0} && kept == {0}
    ensures NothingWrong(layers, kept, Elements([0]), x, y) <==> !Misshown(layers[0], x, y)
  {
    assert 0 in Elements([0]);
    if Misshown(layers[0], x, y) {
      assert 0 in Wrong(layers, kept, Elements([0]), x, y);
      assert forall m :: m in Hiding(layers, kept, x, y) ==> m < 1;
    }
  }

  /** A layer over cell (1, 1) that its plane misshows there. */
  ghost predicate MisshownAlone(layer: Layer) {
    WellFormed([layer]) && !layer.protectedUsage && layer.displayFrame.Has(1, 1) && Misshown(layer, 1, 1)
  }

  lemma {:induction false} AloneWrongly(layer: Layer) returns (a: Assignment)
    requires MisshownAlone(layer)
    ensures FramePlan(1, [layer], [], [], a, []) && WellFormed([layer])
    ensures forall drawnFrom, drawn :: !Faithful([layer], a, [], drawnFrom, drawn, 1, 1)
  {
    a := OneDirect(layer);
    forall drawnFrom, drawn
      ensures !Faithful([layer], a, [], drawnFrom, drawn, 1, 1)
    {
      AloneIff(layer, a, drawnFrom, drawn, 1, 1);
    }
  }

  /** A half-faded layer with coverage blending: its plane shows it in full. */
  lemma {:induction false} FadedOnPlane() returns (layer: Layer, a: Assignment)
    ensures layer.blending == Coverage && layer.alpha == 128
    ensures FramePlan(1, [layer], [], [], a, []) && WellFormed([layer])
    ensures forall drawnFrom, drawn :: !Faithful([layer], a, [], drawnFrom, drawn, 1, 1)
  {
    layer := Plain(0, Rect(0, 0, 4, 4), false).(blending := Coverage);
    a := AloneWrongly(layer);
  }

  /** A layer whose crop begins between two pixels: its plane shows it shifted. */
  lemma {:induction false} ShiftedOnPlane() returns (layer: Layer, a: Assignment)
    ensures layer.sourceCrop.left == 0.5
    ensures FramePlan(1, [layer], [], [], a, []) && WellFormed([layer])
    ensures forall drawnFrom, drawn :: !Faithful([layer], a, [], drawnFrom, drawn, 1, 1)
  {
    layer := Plain(0, Rect(0, 0, 4, 4), false).(sourceCrop := Crop(0.5, 0.0, 3.5, 4.0));
    assert !IsWhole(layer.sourceCrop) by {
      assert Whole(0.5) == 0;
    }
    MisplacedIff(layer, 1, 1);
    a := AloneWrongly(layer);
  }

  // ---------------------------------------------------------------- a frame that is refused

  /** `n` layers with frames that are not empty, none of them protected. */
  ghost predicate Ordinary(layers: seq<Layer>, n: nat) {
    && |layers| == n && WellFormed(layers)
    && forall l :: 0 <= l < n ==> !layers[l].protectedUsage && !layers[l].displayFrame.Empty()
  }

  lemma {:induction false} Row(n: nat) returns (layers: seq<Layer>)
    ensures Ordinary(layers, n)
  {
    layers := seq(n, l requires 0 <= l < n => Plain(l, Rect(4 * l, 0, 4 * l + 4, 4), false));
  }

  /** With one plane all of them are pre-composited. */
  lemma {:induction false} AllPreComposited(isProtected: seq<bool>, needed: seq<bool>) returns (a: Assignment)
    requires |isProtected| == |needed| > 1 && forall j :: 0 <= j < |isProtected| ==> !isProtected[j]
    ensures Planned(1, isProtected, needed, false, a)
    ensures |a.preComp| == |isProtected| && a.protectedLayers == [] && Below(a.preComp, |isProtected|) && 0 in a.preComp
  {
    var n := |isProtected|;
    NoneProtected(isProtected);
    var rest: seq<nat> := seq(n, l requires 0 <= l < n => l);
    var planes := [CompositionPlane(Plane(0, true, {0}), Source.PreComp)];
    a := Assignment(planes, [], [], rest, false);
    assert SourcesOf(planes) == FromLayers([]) + [Source.PreComp] + [];
    forall l: nat | l < n
      ensures l in rest
    {
      assert rest[l] == l;
    }
  }

  /** Thirty-three layers and one plane: too many rectangles to split, so there is nothing to pre-composite. */
  lemma {:induction false} FrameRefused(layers: seq<Layer>) returns (a: Assignment)
    requires Ordinary(layers, 33)
    ensures FramePlan(1, layers, [], [], a, []) && a.preComp != []
    ensures forall preComp :: FramePlan(1, layers, [], [], a, preComp) ==> preComp == []
  {
    a := AllPreComposited(ProtectedFlags(layers), NeededFlags(layers, [], []));
  }

  /** Thirty-two are split: every plan of them has regions. */
  lemma {:induction false} FrameSplit(layers: seq<Layer>, a: Assignment, preComp: seq<CompositionRegion>)
    requires Ordinary(layers, 32) && FramePlan(1, layers, [], [], a, preComp)
    ensures a.preComp != [] && preComp != []
  {
    var like := AllPreComposited(ProtectedFlags(layers), NeededFlags(layers, [], []));
    PlanDetermined(1, ProtectedFlags(layers), NeededFlags(layers, [], []), false, a, like);
    NoneProtected(ProtectedFlags(layers));
    FewAreSplit(1, layers, a, preComp, 0);
  }

  lemma {:induction false} FewAreSplit(usable: nat, layers: seq<Layer>, a: Assignment, preComp: seq<CompositionRegion>, l: nat)
    requires FramePlan(usable, layers, [], [], a, preComp) && |a.protectedLayers| + |a.preComp| <= 32
    requires l in a.preComp && l < |layers| && !layers[l].displayFrame.Empty()
    ensures preComp != []
  {
    var r := layers[l].displayFrame;
    OutsideIsNeeded(layers, [], [], l, r.left, r.top);
    PreCompDrawnIff(usable, layers, [], [], a, preComp);
    assert HasRegion(layers, [], [], a, l);
  }

  // ---------------------------------------------------------------- two layers that show the same texels

  /** A layer half-faded over itself is itself. */
  lemma {:induction false} OverItself(t: Rgba, alpha: real)
    requires t.a == 1.0
    ensures Over(Shade(Sample(t, alpha, 0.0)), Over(Shade(Sample(t, 1.0, 1.0)), CLEAR)) == Shade(Sample(t, 1.0, 1.0))
    ensures Shade(Sample(t, 1.0, 0.0)) == Shade(Sample(t, 1.0, 1.0)) == t
  {
    FullTint(t.r);
    FullTint(t.g);
    FullTint(t.b);
    FadeOver(t.r, alpha);
    FadeOver(t.g, alpha);
    FadeOver(t.b, alpha);
    FadeOver(1.0, alpha);
    OverClear(t);
  }

  lemma {:induction false} FullTint(x: real)
    ensures Tint(x, 1.0, 0.0, 1.0) == Tint(x, 1.0, 1.0, 1.0) == x
  {
  }

  lemma {:induction false} FadeOver(x: real, alpha: real)
    ensures Tint(x, 1.0, 0.0, alpha) == Times(x, alpha)
    ensures Mix(Times(x, alpha), alpha, x) == x
  {
    assert x * alpha + (1.0 - alpha) * x == x;
  }

  /** A layer without blending, and the same buffer half-faded over it. */
  ghost predicate Doubled(layers: seq<Layer>) {
    && |layers| == 2 && WellFormed(layers) && !layers[0].protectedUsage
    && layers[0].blending == NoBlend && !layers[0].displayFrame.Empty()
    && IsWhole(layers[0].sourceCrop) && WholeCrop(layers[0].sourceCrop) == layers[0].sourceCrop
    && layers[1] == layers[0].(blending := Coverage, alpha := 128)
  }

  /** The texel that both layers show. */
  function SharedTexel(tex: Texture, layer: Layer, x: int, y: int): Rgba
    requires Drawable(layer)
  {
    var c := TexCoord(layer, Middle(x), Middle(y));
    tex(layer.buffer, c.x, c.y)
  }

  lemma {:induction false} DoubledShades(tex: Texture, layers: seq<Layer>, x: int, y: int)
    requires Doubled(layers) && layers[0].displayFrame.Has(x, y)
    ensures var t := SharedTexel(tex, layers[0], x, y);
            && LayerColor(tex, layers[0], x, y) == LayerColor(tex, Committed(layers[0]), x, y) == Shade(Sample(t, 1.0, 1.0))
            && LayerColor(tex, layers[1], x, y) == Shade(Sample(t, 128.0 / 255.0, 0.0))
            && LayerColor(tex, Committed(layers[1]), x, y) == Shade(Sample(t, 1.0, 0.0))
  {
    assert TexCoord(layers[1], Middle(x), Middle(y)) == TexCoord(layers[0], Middle(x), Middle(y));
    assert Committed(layers[0]).sourceCrop == layers[0].sourceCrop;
  }

  lemma {:induction false} DoubledColors(tex: Texture, layers: seq<Layer>, x: int, y: int)
    requires Doubled(layers) && ValidTexture(tex, layers) && layers[0].displayFrame.Has(x, y)
    ensures var lower := LayerColor(tex, layers[0], x, y);
            && LayerColor(tex, Committed(layers[0]), x, y) == LayerColor(tex, Committed(layers[1]), x, y) == lower
            && Over(LayerColor(tex, layers[1], x, y), Over(lower, CLEAR)) == lower && lower.a == 1.0
  {
    var t := SharedTexel(tex, layers[0], x, y);
    assert ValidTexel(layers[0], t);
    DoubledShades(tex, layers, x, y);
    OverItself(t, 128.0 / 255.0);
  }

  /**
   That nothing is misshown is not necessary where two layers show the same texels: the upper of
   these layers is misshown and in full view, and the picture is right.
   */
  lemma {:induction false} SharedTexels() returns (layers: seq<Layer>, a: Assignment)
    ensures Doubled(layers) && FramePlan(2, layers, [], [], a, []) && 1 in a.direct
    ensures !NothingMisshown(2, layers, [], [], 1, 1) && !Apart(layers, 1, 1)
    ensures forall drawnFrom, drawn :: Faithful(layers, a, [], drawnFrom, drawn, 1, 1)
  {
    var lower := Plain(0, Rect(0, 0, 4, 4), false).(blending := NoBlend, alpha := 255);
    layers := [lower, lower.(blending := Coverage, alpha := 128)];
    a := TwoDirect(layers);
    DoubledMisshown(layers, a);
    forall drawnFrom, drawn
      ensures Faithful(layers, a, [], drawnFrom, drawn, 1, 1)
    {
      DoubledFaithful(layers, a, drawnFrom, drawn, 1, 1);
    }
  }

  lemma {:induction false} TwoDirect(layers: seq<Layer>) returns (a: Assignment)
    requires |layers| == 2 && !layers[0].protectedUsage && !layers[1].protectedUsage
    ensures FramePlan(2, layers, [], [], a, []) && a.direct == [0, 1] && a.preComp == [] && !a.squash
  {
    NoneProtected(ProtectedFlags(layers));
    var planes := [CompositionPlane(Plane(0, true, {0}), FromLayer(0)), CompositionPlane(Plane(1, false, {0}), FromLayer(1))];
    a := Assignment(planes, [0, 1], [], [], false);
    assert SourcesOf(planes) == FromLayers([0, 1]) + [] + [];
  }

  lemma {:induction false} DoubledMisshown(layers: seq<Layer>, a: Assignment)
    requires Doubled(layers) && layers[0].displayFrame.Has(1, 1)
    requires FramePlan(2, layers, [], [], a, []) && a.direct == [0, 1]
    ensures !NothingMisshown(2, layers, [], [], 1, 1) && !Apart(layers, 1, 1)
  {
    DirectIff(2, ProtectedFlags(layers), NeededFlags(layers, [], []), false, a);
    assert 1 in a.direct && 1 in Cover(Frames(layers), 1, 1) && Misshown(layers[1], 1, 1);
    assert DirectLayer(2, layers, [], [], 1);
    var at := ShownAt(layers[0], 1, 1);
    assert 0 in Cover(Frames(layers), 1, 1) && at in Points(layers[0], 1, 1) && at in Points(layers[1], 1, 1);
  }

  lemma {:induction false} DoubledFaithful(layers: seq<Layer>, a: Assignment, drawnFrom: seq<Layer>, drawn: seq<CompositionRegion>,
                                           x: int, y: int)
    requires Doubled(layers) && layers[0].displayFrame.Has(x, y)
    requires FramePlan(2, layers, [], [], a, []) && a.direct == [0, 1] && a.preComp == [] && !a.squash
    ensures Faithful(layers, a, [], drawnFrom, drawn, x, y)
  {
    var all := Cover(Frames(layers), x, y);
    assert all == {0, 1};
    assert KeptLayers(layers, [], [], a, x, y) == all;
    KeptIsFaithful(2, layers, [], [], a, [], drawnFrom, drawn, x, y);
    forall tex | ValidTexture(tex, layers)
      ensures StackOf(ViewAt(tex, OnPlanes(layers, a.direct), x, y), Descending(all, 2)) == Wanted(tex, layers, x, y)
    {
      var v, p := ViewAt(tex, layers, x, y), ViewAt(tex, OnPlanes(layers, a.direct), x, y);
      DoubledColors(tex, layers, x, y);
      StackOfTwo(v, all);
      StackOfTwo(p, all);
      ViewStack(tex, layers, Descending(all, 2), x, y);
      OverOpaque(ColorOf(p, 1), Over(ColorOf(p, 0), CLEAR));
    }
  }

  lemma {:induction false} StackOfTwo(v: View<Rgba>, all: set<nat>)
    requires v.paint == PAINT && all == {0, 1}
    ensures StackOf(v, Descending(all, 2)) == Over(ColorOf(v, 1), Over(ColorOf(v, 0), CLEAR))
  {
    PaintLawful();
    StackFromTop(v, all, 1);
    StackFromTop(v, all, 0);
    StackOfNone(v);
  }

  // ---------------------------------------------------------------- a budget below zero

  /**
   Three protected layers and three planes, while the squash memory is of one layer and quiet:
   the layers are not compared, the region counts as stable, and a plane is reserved for the
   squash buffer when none is left.
   */
  lemma {:induction false} BudgetWraps() returns (m: Memory, layers: seq<Layer>)
    ensures m.Valid() && |m.last| == 1 && |layers| == 3
    ensures true in StableFlags(m, layers) && !NoWrap(3, ProtectedFlags(layers), true in StableFlags(m, layers))
  {
    var rect := Rect(0, 0, 4, 4);
    layers := [Plain(0, rect, true), Plain(1, rect, true), Plain(2, rect, true)];
    m := Memory(seq(6, _ => [false]), [Buffer(0, 4, 4)], [RectSet({0}, rect)], [true]);
    assert StableAt(m, Changed(m, layers), 0);
    assert StableFlags(m, layers)[0];
  }
}
