/**
 The composition of one display: which plane shows what, what is drawn into which buffer, and
 when the buffers of the layers are released.
 */
module Composition {
  import opened Rects
  import opened Sweep
  import opened Pieces
  import opened Layers
  import opened Squash
  import opened SquashCache
  import opened Separate
  import opened Planes
  import opened PlanForm

  datatype CompositionType = EmptyType | FrameType | DpmsType | ModesetType

  const ENODEV: int := 19

  /** The release fence of a layer: nobody asked for one, none yet, or a point on the timeline. */
  datatype ReleaseFence = NoOutput | Unset | At(point: nat)

  // ---------------------------------------------------------------- which stage reads a layer

  ghost predicate InRegions(regions: seq<CompositionRegion>, l: nat) {
    exists i :: 0 <= i < |regions| && l in regions[i].sourceLayers
  }

  ghost predicate OnPlane(planes: seq<CompositionPlane>, l: nat) {
    exists i :: 0 <= i < |planes| && planes[i].source == FromLayer(l)
  }

  ghost predicate PlanesBelow(planes: seq<CompositionPlane>, n: nat) {
    forall l: nat :: OnPlane(planes, l) ==> l < n
  }

  /** The planes that are there already are to be switched off. */
  ghost predicate OnlyDisabled(planes: seq<CompositionPlane>) {
    forall i :: 0 <= i < |planes| ==> planes[i].source == Disabled
  }

  ghost predicate SourcesBelow(regions: seq<CompositionRegion>, n: nat) {
    forall l: nat :: InRegions(regions, l) ==> l < n
  }

  /** The fence of `l` was set to a point after `lo` and not after `hi`, if one was asked for. */
  ghost predicate FencedWithin(before: seq<ReleaseFence>, after: seq<ReleaseFence>, l: nat, lo: nat, hi: nat)
    requires l < |before| == |after|
  {
    if before[l] == NoOutput then after[l] == NoOutput
    else after[l].At? && lo < after[l].point <= hi
  }

  /** Different layers have different points. */
  ghost predicate PointsDiffer(fences: seq<ReleaseFence>, stage: set<nat>) {
    forall l, m :: l in stage && m in stage && l != m && l < |fences| && m < |fences| && fences[l].At? && fences[m].At? ==>
      fences[l] != fences[m]
  }

  /** The kernel creates the `count` fences that come after `start`. */
  ghost predicate Creates(refused: set<nat>, start: nat, count: nat) {
    forall point :: start < point <= start + count ==> point !in refused
  }

  /** The layers for which fences are created with the squash stage, and with the other two. */
  ghost function SquashStage(n: nat, squash: seq<CompositionRegion>, preComp: seq<CompositionRegion>): set<nat> {
    set l | 0 <= l < n && InRegions(squash, l) && !InRegions(preComp, l)
  }

  ghost function PreCompStage(n: nat, preComp: seq<CompositionRegion>, planes: seq<CompositionPlane>): set<nat> {
    set l | 0 <= l < n && InRegions(preComp, l) && !OnPlane(planes, l)
  }

  ghost function PlaneStage(n: nat, planes: seq<CompositionPlane>): set<nat> {
    set l | 0 <= l < n && OnPlane(planes, l)
  }

  /** How many fences are created for the layers. */
  ghost function FenceCount(fences: seq<ReleaseFence>, n: nat, squash: seq<CompositionRegion>, preComp: seq<CompositionRegion>,
                            planes: seq<CompositionPlane>): nat
  {
    |Asking(fences, SquashStage(n, squash, preComp))| + |Asking(fences, PreCompStage(n, preComp, planes))|
    + |Asking(fences, PlaneStage(n, planes))|
  }

  /** The layers of a stage that asked for a fence. */
  ghost function Asking(fences: seq<ReleaseFence>, stage: set<nat>): set<nat> {
    set l | l in stage && l < |fences| && fences[l] != NoOutput
  }

  lemma {:induction false} AskingStep(fences: seq<ReleaseFence>, stage: set<nat>, pending: set<nat>, l: nat)
    requires pending <= stage && l in pending && l < |fences|
    ensures |Asking(fences, stage - (pending - {l}))|
         == |Asking(fences, stage - pending)| + if fences[l] == NoOutput then 0 else 1
    ensures |Asking(fences, stage - (pending - {l}))| <= |Asking(fences, stage)|
  {
    var done, next := Asking(fences, stage - pending), Asking(fences, stage - (pending - {l}));
    assert next == if fences[l] == NoOutput then done else done + {l};
    SubsetSize(next, Asking(fences, stage));
  }

  lemma {:induction false} SubsetSize(a: set<nat>, b: set<nat>)
    requires a <= b
    ensures |a| <= |b|
  {
    assert b == a + (b - a);
  }

  /** Giving out fences does not change who asked for one. */
  lemma {:induction false} SameAsking(before: seq<ReleaseFence>, after: seq<ReleaseFence>, fenced: set<nat>, stage: set<nat>)
    requires |after| == |before|
    requires forall l :: 0 <= l < |before| && l !in fenced ==> after[l] == before[l]
    requires forall l :: l in fenced && l < |before| ==> (before[l] == NoOutput <==> after[l] == NoOutput)
    ensures Asking(after, stage) == Asking(before, stage)
  {
  }

  // ---------------------------------------------------------------- what a plan is

  function ProtectedFlags(layers: seq<Layer>): (r: seq<bool>)
    ensures |r| == |layers| && forall j :: 0 <= j < |r| ==> r[j] == layers[j].protectedUsage
  {
    seq(|layers|, j requires 0 <= j < |layers| => layers[j].protectedUsage)
  }

  /** The layers whose area the flagged regions do not make up. */
  function NeededFlags(layers: seq<Layer>, regions: seq<RectSet>, flags: seq<bool>): (r: seq<bool>)
    requires |regions| == |flags|
    ensures |r| == |layers|
    ensures forall j :: 0 <= j < |r| ==> r[j] == (AreaWhere(regions, flags, j) < layers[j].displayFrame.Area())
  {
    seq(|layers|, j requires 0 <= j < |layers| => AreaWhere(regions, flags, j) < layers[j].displayFrame.Area())
  }

  ghost predicate Below(s: seq<nat>, n: nat) {
    forall i :: 0 <= i < |s| ==> s[i] < n
  }

  /** The plan of one frame, given the regions of the frame and which of them are squashed. */
  ghost predicate FramePlan(usable: nat, layers: seq<Layer>, regions: seq<RectSet>, flags: seq<bool>,
                            a: Assignment, preComp: seq<CompositionRegion>)
    requires |regions| == |flags|
  {
    && Planned(usable, ProtectedFlags(layers), NeededFlags(layers, regions, flags), true in flags, a)
    && Below(a.preComp, |layers|) && Below(a.protectedLayers, |layers|)
    && (a.preComp == [] ==> preComp == [])
    && (a.preComp != [] ==>
          var rectCount := |FlaggedRects(regions, flags)| + |a.protectedLayers| + |a.preComp|;
          && (rectCount > MAX_ELEMENTS ==> preComp == [])
          && (rectCount <= MAX_ELEMENTS ==>
                RegionsExact(Frames(layers), a.preComp, a.protectedLayers, FlaggedRects(regions, flags), preComp)))
  }

  /**
   What splitting the pre-composited layers demands, if there are any: with protected layers, the
   shift amounts of the hole masks fit a signed 32-bit one, and at most 64 layers are split.
   */
  ghost predicate SplitFits(usable: nat, layers: seq<Layer>, regions: seq<RectSet>, flags: seq<bool>)
    requires |regions| == |flags|
  {
    var excludes, count := |FlaggedRects(regions, flags)|, CountTrue(ProtectedFlags(layers));
    var rest := PreCompCount(usable, ProtectedFlags(layers), NeededFlags(layers, regions, flags), true in flags);
    rest > 0 ==>
      && (rest <= 64 ==> rest + count <= 64)
      && (excludes + count + rest <= MAX_ELEMENTS ==>
            forall j :: 0 <= j < |layers| && layers[j].protectedUsage ==> excludes + count + j < 31)
  }

  /** The layer is one of those that get planes of their own. */
  ghost predicate DirectLayer(usable: nat, layers: seq<Layer>, regions: seq<RectSet>, flags: seq<bool>, l: nat)
    requires |regions| == |flags|
  {
    IsDirect(usable, ProtectedFlags(layers), NeededFlags(layers, regions, flags), true in flags, l)
  }

  /** The protected layers took every plane. */
  ghost predicate StarvedPlan(usable: nat, layers: seq<Layer>, a: Assignment) {
    && SourcesOf(a.planes) == FromLayers(a.direct) && Increasing(a.direct)
    && |a.direct| == usable && a.preComp == [] && !a.squash
    && (forall j :: j in a.direct ==> j < |layers| && layers[j].protectedUsage)
    && LowestProtected(ProtectedFlags(layers), a.direct)
  }

  /** Where the layers and the planes went. */
  ghost predicate Layout(pipe: nat, layers: seq<Layer>, regions: seq<RectSet>, flags: seq<bool>,
                         primary: seq<Plane>, overlay: seq<Plane>, primary': seq<Plane>, overlay': seq<Plane>,
                         a: Assignment, preComp: seq<CompositionRegion>)
  {
    var usable := UsableIn(pipe, primary, overlay);
    && |regions| == |flags|
    && InTurn(pipe, primary, overlay, PlanesOf(a.planes), primary', overlay')
    && (Starved(usable, ProtectedFlags(layers)) ==> StarvedPlan(usable, layers, a) && preComp == [])
    && (!Starved(usable, ProtectedFlags(layers)) ==> FramePlan(usable, layers, regions, flags, a, preComp))
  }

  /** The squash memory belongs to this geometry. */
  ghost predicate Matches(m: Memory, layers: seq<Layer>) {
    && m.Valid()
    && |m.last| == |layers|
    && (|layers| <= MAX_ELEMENTS ==> Separated(Frames(layers), m.regions))
    && (|layers| > MAX_ELEMENTS ==> m.regions == [])
  }

  /** The memory of a squash state; an empty one when there is none. */
  ghost function MemoryOf(squash: SquashState?): (m: Memory)
    reads squash
    ensures squash != null && squash.Valid() ==> m.Valid()
    ensures squash == null ==> m.Valid()
  {
    if squash == null then Memory([], [], [], []) else squash.Model()
  }

  /** What a frame does to the squash memory, and what it draws into the squash buffer. */
  ghost predicate SquashPart(takesPart: bool, geometryChanged: bool, layers: seq<Layer>, before: Memory, after: Memory,
                             drawn: seq<CompositionRegion>, regions: seq<RectSet>, flags: seq<bool>)
    requires before.Valid()
  {
    if !takesPart then
      after == before && regions == [] && flags == [] && drawn == []
    else if geometryChanged then
      Fresh(after, layers) && regions == [] && flags == [] && drawn == []
    else
      && after == Remembered(before, layers)
      && regions == before.regions && flags == StableFlags(before, layers)
      && drawn == if Redrawn(before, layers) then FlaggedRegions(regions, flags, |layers|) else []
  }

  /** What a frame does to the squash memory, and where its layers and the planes go. */
  ghost predicate LaidOut(pipe: nat, takesPart: bool, geometryChanged: bool, layers: seq<Layer>, before: Memory, after: Memory,
                          drawn: seq<CompositionRegion>, regions: seq<RectSet>, flags: seq<bool>,
                          primary: seq<Plane>, overlay: seq<Plane>, primary': seq<Plane>, overlay': seq<Plane>,
                          a: Assignment, preComp: seq<CompositionRegion>)
    requires before.Valid()
  {
    && SquashPart(takesPart, geometryChanged, layers, before, after, drawn, regions, flags)
    && Layout(pipe, layers, regions, flags, primary, overlay, primary', overlay', a, preComp)
  }

  class DrmDisplayComposition {
    const pipe: nat
    /** The points for which the kernel creates no fence. */
    const refused: set<nat>
    var kind: CompositionType
    var geometryChanged: bool
    var layers: seq<Layer>
    var releaseFences: seq<ReleaseFence>
    var squashRegions: seq<CompositionRegion>
    var preCompRegions: seq<CompositionRegion>
    var compositionPlanes: seq<CompositionPlane>
    var timeline: nat
    var timelineCurrent: nat
    var timelineSquashDone: nat
    var timelinePreCompDone: nat

    /** No point is passed, and no stage done, before it exists. */
    ghost predicate TimelineValid()
      reads this
    {
      timelineSquashDone <= timeline && timelinePreCompDone <= timeline && timelineCurrent <= timeline
    }

    /** The fence of every layer lies in the interval of the last stage that reads the layer. */
    ghost predicate FencesStaged(before: seq<ReleaseFence>, start: nat)
      reads this
    {
      && |before| == |releaseFences| == |layers|
      && timelineSquashDone <= timelinePreCompDone <= timeline
      && forall l :: 0 <= l < |layers| ==>
           if OnPlane(compositionPlanes, l) then
             FencedWithin(before, releaseFences, l, timelinePreCompDone, timeline)
           else if InRegions(preCompRegions, l) then
             FencedWithin(before, releaseFences, l, timelineSquashDone, timelinePreCompDone)
           else if InRegions(squashRegions, l) then
             FencedWithin(before, releaseFences, l, start, timelineSquashDone)
           else
             releaseFences[l] == before[l]
    }

    /** All fences of the layers were created, just if the kernel refused none; then they are staged. */
    ghost predicate FencesMade(before: seq<ReleaseFence>, start: nat, made: bool)
      reads this
    {
      && (made <==> Creates(refused, start, FenceCount(before, |layers|, squashRegions, preCompRegions, compositionPlanes)))
      && (made ==> FencesStaged(before, start))
    }

    constructor (pipe: nat, refused: set<nat>)
      ensures this.pipe == pipe && this.refused == refused && kind == EmptyType && !geometryChanged
      ensures TimelineValid() && timeline == 0 && timelineCurrent == 0
      ensures layers == [] && releaseFences == []
      ensures squashRegions == [] && preCompRegions == [] && compositionPlanes == []
    {
      this.pipe, this.refused := pipe, refused;
      kind, geometryChanged := EmptyType, false;
      layers, releaseFences := [], [];
      squashRegions, preCompRegions, compositionPlanes := [], [], [];
      timeline, timelineCurrent, timelineSquashDone, timelinePreCompDone := 0, 0, 0, 0;
    }

    /** Has the plane switched off with this composition. */
    method AddPlaneDisable(plane: Plane)
      modifies `compositionPlanes
      ensures compositionPlanes == old(compositionPlanes) + [CompositionPlane(plane, Disabled)]
    {
      compositionPlanes := compositionPlanes + [CompositionPlane(plane, Disabled)];
    }

    /** Advances the timeline and asks the kernel for a fence at its new end; it may refuse. */
    method CreateNextTimelineFence() returns (ret: int)
      requires TimelineValid()
      modifies `timeline
      ensures timeline == old(timeline) + 1 && TimelineValid()
      ensures ret >= 0 <==> timeline !in refused
    {
      timeline := timeline + 1;
      ret := if timeline in refused then -1 else 0;
    }

    /** Signals all fences up to `point`. The current point never moves back. */
    method IncreaseTimelineToPoint(point: nat, granted: bool) returns (ret: int)
      requires TimelineValid() && point <= timeline
      modifies `timelineCurrent
      ensures TimelineValid()
      ensures ret == 0 <==> granted || point <= old(timelineCurrent)
      ensures timelineCurrent == if granted && old(timelineCurrent) < point then point else old(timelineCurrent)
    {
      var increase: int := point - timelineCurrent;
      if increase <= 0 {
        return 0;
      }
      ret := if granted then 0 else -1;
      if ret == 0 {
        timelineCurrent := point;
      }
    }

    method SignalSquashDone(granted: bool) returns (ret: int)
      requires TimelineValid()
      modifies `timelineCurrent
      ensures TimelineValid()
      ensures ret == 0 <==> granted || timelineSquashDone <= old(timelineCurrent)
      ensures timelineCurrent == if granted && old(timelineCurrent) < timelineSquashDone then timelineSquashDone else old(timelineCurrent)
    {
      ret := IncreaseTimelineToPoint(timelineSquashDone, granted);
    }

    method SignalPreCompDone(granted: bool) returns (ret: int)
      requires TimelineValid()
      modifies `timelineCurrent
      ensures TimelineValid()
      ensures ret == 0 <==> granted || timelinePreCompDone <= old(timelineCurrent)
      ensures timelineCurrent == if granted && old(timelineCurrent) < timelinePreCompDone then timelinePreCompDone else old(timelineCurrent)
    {
      ret := IncreaseTimelineToPoint(timelinePreCompDone, granted);
    }

    /** Signals every fence that was created. */
    method SignalCompositionDone(granted: bool) returns (ret: int)
      requires TimelineValid()
      modifies `timelineCurrent
      ensures TimelineValid()
      ensures ret == 0 <==> granted || timeline <= old(timelineCurrent)
      ensures timelineCurrent == if granted && old(timelineCurrent) < timeline then timeline else old(timelineCurrent)
    {
      ret := IncreaseTimelineToPoint(timeline, granted);
    }

    /** Gives a fence at a new point to each layer of a stage that asked for one. */
    method IssueFences(stage: set<nat>) returns (ret: int)
      requires TimelineValid() && forall l :: l in stage ==> l < |releaseFences|
      modifies `timeline, `releaseFences
      ensures TimelineValid() && old(timeline) <= timeline && |releaseFences| == |old(releaseFences)|
      ensures forall l :: 0 <= l < |releaseFences| && l !in stage ==> releaseFences[l] == old(releaseFences)[l]
      ensures ret >= 0 ==> forall l :: l in stage ==>
                FencedWithin(old(releaseFences), releaseFences, l, old(timeline), timeline)
      ensures ret >= 0 ==> PointsDiffer(releaseFences, stage)
      ensures ret >= 0 <==> Creates(refused, old(timeline), |Asking(old(releaseFences), stage)|)
      ensures ret >= 0 ==> timeline == old(timeline) + |Asking(old(releaseFences), stage)|
    {
      ret := 0;
      var pending := stage;
      ghost var before := releaseFences;
      while pending != {}
        invariant pending <= stage && ret >= 0
        invariant timeline == old(timeline) + |Asking(before, stage - pending)|
        invariant Creates(refused, old(timeline), |Asking(before, stage - pending)|)
        invariant TimelineValid() && old(timeline) <= timeline && |releaseFences| == |old(releaseFences)|
        invariant forall l :: 0 <= l < |releaseFences| && (l !in stage || l in pending) ==> releaseFences[l] == old(releaseFences)[l]
        invariant forall l :: l in stage && l !in pending ==>
                    FencedWithin(old(releaseFences), releaseFences, l, old(timeline), timeline)
        invariant PointsDiffer(releaseFences, stage - pending)
        decreases pending
      {
        var l :| l in pending;
        AskingStep(before, stage, pending, l);
        pending := pending - {l};
        if releaseFences[l] == NoOutput {
          continue;
        }
        ret := CreateNextTimelineFence();
        releaseFences := releaseFences[l := At(timeline)];
        if ret < 0 {
          return;
        }
      }
      assert stage - pending == stage;
    }

    /** The layers by the last stage that reads them, but for those of a squash region on a plane. */
    method CollectStages() returns (squashLayers: set<nat>, preCompLayers: set<nat>, compLayers: set<nat>)
      ensures forall l :: l in squashLayers <==> InRegions(squashRegions, l) && !InRegions(preCompRegions, l)
      ensures forall l :: l in preCompLayers <==> InRegions(preCompRegions, l) && !OnPlane(compositionPlanes, l)
      ensures forall l :: l in compLayers <==> OnPlane(compositionPlanes, l)
    {
      squashLayers, preCompLayers, compLayers := {}, {}, {};
      for i := 0 to |squashRegions|
        invariant forall l :: l in squashLayers <==> InRegions(squashRegions[..i], l)
      {
        InRegionsStep(squashRegions, i);
        squashLayers := squashLayers + set l | l in squashRegions[i].sourceLayers;
      }
      for i := 0 to |preCompRegions|
        invariant forall l :: l in preCompLayers <==> InRegions(preCompRegions[..i], l)
        invariant forall l :: l in squashLayers <==>
                    InRegions(squashRegions[..|squashRegions|], l) && !InRegions(preCompRegions[..i], l)
      {
        InRegionsStep(preCompRegions, i);
        preCompLayers := preCompLayers + set l | l in preCompRegions[i].sourceLayers;
        squashLayers := squashLayers - set l | l in preCompRegions[i].sourceLayers;
      }
      for i := 0 to |compositionPlanes|
        invariant forall l :: l in compLayers <==> OnPlane(compositionPlanes[..i], l)
        invariant forall l :: l in preCompLayers <==>
                    InRegions(preCompRegions[..|preCompRegions|], l) && !OnPlane(compositionPlanes[..i], l)
      {
        OnPlaneStep(compositionPlanes, i);
        if compositionPlanes[i].source.FromLayer? {
          var l := compositionPlanes[i].source.index;
          compLayers := compLayers + {l};
          preCompLayers := preCompLayers - {l};
        }
      }
      assert squashRegions[..|squashRegions|] == squashRegions;
      assert preCompRegions[..|preCompRegions|] == preCompRegions;
      assert compositionPlanes[..|compositionPlanes|] == compositionPlanes;
    }

    /**
     Each layer is released with the last stage that reads it: the squash buffer, the
     pre-composited buffer, or the screen.
     */
    method CreateAndAssignReleaseFences() returns (ret: int)
      requires TimelineValid()
      requires |releaseFences| == |layers|
      requires SourcesBelow(squashRegions, |layers|) && SourcesBelow(preCompRegions, |layers|)
      requires PlanesBelow(compositionPlanes, |layers|)
      modifies `timeline, `timelineSquashDone, `timelinePreCompDone, `releaseFences
      ensures TimelineValid() && |releaseFences| == |layers|
      ensures ret <= 0
      ensures ret == 0 <==>
                Creates(refused, old(timeline), FenceCount(old(releaseFences), |layers|, squashRegions, preCompRegions, compositionPlanes))
      ensures ret == 0 ==>
                && FencesStaged(old(releaseFences), old(timeline))
                && timelineSquashDone == old(timeline) + |Asking(old(releaseFences), SquashStage(|layers|, squashRegions, preCompRegions))|
                && timelinePreCompDone == timelineSquashDone + |Asking(old(releaseFences), PreCompStage(|layers|, preCompRegions, compositionPlanes))|
                && timeline == timelinePreCompDone + |Asking(old(releaseFences), PlaneStage(|layers|, compositionPlanes))|
    {
      var squashLayers, preCompLayers, compLayers := CollectStages();
      assert squashLayers == SquashStage(|layers|, squashRegions, preCompRegions);
      assert preCompLayers == PreCompStage(|layers|, preCompRegions, compositionPlanes);
      assert compLayers == PlaneStage(|layers|, compositionPlanes);
      ret := IssueFences(squashLayers);
      if ret < 0 {
        return;
      }
      timelineSquashDone := timeline;
      SameAsking(old(releaseFences), releaseFences, squashLayers, preCompLayers);
      SameAsking(old(releaseFences), releaseFences, squashLayers, compLayers);
      ghost var drawn := releaseFences;
      ret := IssueFences(preCompLayers);
      if ret < 0 {
        return;
      }
      SameAsking(drawn, releaseFences, preCompLayers, compLayers);
      timelinePreCompDone := timeline;
      ret := IssueFences(compLayers);
      if ret < 0 {
        return;
      }
      ret := 0;
    }

    /** The frame's turn with the squash buffer while the geometry stands. */
    method PlanSquash(squash: SquashState) returns (use: bool, areas: seq<int>, exclude: seq<Rect>)
      requires squash.Valid() && |layers| <= 64
      modifies squash, `squashRegions
      ensures squash.Valid() && squash.Model() == Remembered(old(squash.Model()), layers)
      ensures var m := old(squash.Model());
              var flags := StableFlags(m, layers);
              && use == (true in flags)
              && |areas| == |layers|
              && (forall j :: 0 <= j < |layers| ==> areas[j] == AreaWhere(m.regions, flags, j))
              && exclude == FlaggedRects(m.regions, flags)
              && squashRegions == old(squashRegions)
                   + if Redrawn(m, layers) then FlaggedRegions(m.regions, flags, |layers|) else []
    {
      ghost var m := squash.Model();
      var changedRegions := squash.GenerateHistory(layers);
      var stableRegions := squash.StableRegionsWithMarginalHistory(changedRegions);
      ghost var flags := StableFlags(m, layers);
      assert stableRegions == flags;
      use := true in stableRegions;
      squash.RecordHistory(layers, changedRegions);
      var render := squash.RecordAndCompareSquashed(stableRegions);
      assert squash.Model().regions == m.regions;
      assert forall i :: 0 <= i < |squash.regions| ==>
               m.regions[i] == RectSet(squash.regions[i].layerRefs, squash.regions[i].rect);
      var drawn;
      areas, exclude, drawn := CollectSquash(squash.regions, m.regions, stableRegions, |layers|, render);
      squashRegions := squashRegions + drawn;
      NoneFlagged(m.regions, flags, |layers|);
    }

    /** Whether this frame is planned with the regions of the squash state. */
    predicate Continues(squash: SquashState?, usable: nat)
      reads `geometryChanged
    {
      squash != null && usable >= 3 && !geometryChanged
    }

    /** The regions that this frame plans with, and which of them it finds stable. */
    ghost function SquashRegions(squash: SquashState?, usable: nat): seq<RectSet>
      reads this, squash
    {
      if Continues(squash, usable) then MemoryOf(squash).regions else []
    }

    ghost function SquashFlags(squash: SquashState?, usable: nat): (r: seq<bool>)
      requires squash != null ==> squash.Valid()
      reads this, squash
      ensures |r| == |SquashRegions(squash, usable)|
    {
      if Continues(squash, usable) then StableFlags(MemoryOf(squash), layers) else []
    }

    /** Nothing was planned yet, but for planes to be switched off. */
    ghost predicate Unplanned()
      reads this
    {
      |releaseFences| == |layers| && squashRegions == [] && preCompRegions == [] && OnlyDisabled(compositionPlanes)
    }

    /** A frame without the geometry flag leaves the budget of planes intact, and its layers can be split. */
    ghost predicate MayPlan(squash: SquashState?, usable: nat)
      reads this, squash
    {
      && (squash != null ==> squash.Valid())
      && (Continues(squash, usable) ==> |layers| <= 64)
      && NoWrap(usable, ProtectedFlags(layers), true in SquashFlags(squash, usable))
      && SplitFits(usable, layers, SquashRegions(squash, usable), SquashFlags(squash, usable))
    }

    /** What the squash state contributes to the plan of a frame, if it takes part at all. */
    method SquashTurn(squash: SquashState?, usable: nat)
        returns (useSquash: bool, needed: seq<bool>, exclude: seq<Rect>, ghost regions: seq<RectSet>, ghost flags: seq<bool>)
      requires squashRegions == [] && MayPlan(squash, usable)
      modifies `squashRegions, if squash == null then {} else {squash}
      ensures squash != null ==> squash.Valid()
      ensures SquashPart(squash != null && usable >= 3, geometryChanged, layers, old(MemoryOf(squash)), MemoryOf(squash),
                         squashRegions, regions, flags)
      ensures |regions| == |flags| && needed == NeededFlags(layers, regions, flags)
      ensures exclude == FlaggedRects(regions, flags) && (useSquash <==> true in flags)
      ensures NoWrap(usable, ProtectedFlags(layers), useSquash)
      ensures SplitFits(usable, layers, regions, flags)
      ensures SourcesBelow(squashRegions, |layers|)
    {
      regions, flags := [], [];
      var areas;
      useSquash, areas, exclude := false, seq(|layers|, _ => 0), [];
      if squash != null && usable >= 3 {
        if geometryChanged {
          squash.Init(layers);
        } else {
          regions, flags := squash.Model().regions, StableFlags(squash.Model(), layers);
          useSquash, areas, exclude := PlanSquash(squash);
        }
      }
      needed := StillShort(layers, areas);
      DrawnBelow(layers, regions, flags);
    }

    /** The squash memory, the squash regions and the plan `a` are those of this frame. */
    ghost predicate Laid(squash: SquashState?, usable: nat, before: Memory, regions: seq<RectSet>, flags: seq<bool>,
                         primary: seq<Plane>, overlay: seq<Plane>, primary': seq<Plane>, overlay': seq<Plane>,
                         a: Assignment, preComp: seq<CompositionRegion>)
      requires before.Valid()
      reads `layers, `geometryChanged, `squashRegions, squash
    {
      && (squash != null ==> squash.Valid())
      && LaidOut(pipe, squash != null && usable >= 3, geometryChanged, layers, before, MemoryOf(squash), squashRegions,
                 regions, flags, primary, overlay, primary', overlay', a, preComp)
    }

    /** The planes and regions of a frame, once the squash state has had its turn. */
    method PlanLayout(squash: SquashState?, usable: nat, primary: seq<Plane>, overlay: seq<Plane>)
        returns (ghost regions: seq<RectSet>, ghost flags: seq<bool>, a: Assignment, preComp: seq<CompositionRegion>,
                 primary': seq<Plane>, overlay': seq<Plane>)
      requires usable == UsableIn(pipe, primary, overlay) && usable > 0
      requires squashRegions == []
      requires MayPlan(squash, usable)
      modifies `squashRegions, if squash == null then {} else {squash}
      ensures Laid(squash, usable, old(MemoryOf(squash)), regions, flags, primary, overlay, primary', overlay', a, preComp)
      ensures SourcesBelow(squashRegions, |layers|) && SourcesBelow(preComp, |layers|) && PlanesBelow(a.planes, |layers|)
    {
      var useSquash, needed, exclude;
      useSquash, needed, exclude, regions, flags := SquashTurn(squash, usable);
      a, preComp, primary', overlay' :=
        PlanPlanes(pipe, usable, layers, regions, flags, needed, useSquash, exclude, primary, overlay);
    }

    /** Adds the planes and regions of a plan to the composition, and stages the fences of its layers. */
    method FinishPlan(a: Assignment, preComp: seq<CompositionRegion>) returns (ret: int)
      requires TimelineValid() && |releaseFences| == |layers| && OnlyDisabled(compositionPlanes)
      requires SourcesBelow(squashRegions, |layers|) && SourcesBelow(preComp, |layers|) && PlanesBelow(a.planes, |layers|)
      modifies `compositionPlanes, `preCompRegions, `timeline, `timelineSquashDone, `timelinePreCompDone, `releaseFences
      ensures TimelineValid() && preCompRegions == preComp && compositionPlanes == old(compositionPlanes) + a.planes
      ensures FencesMade(old(releaseFences), old(timeline), ret == 0)
    {
      AppendBelow(compositionPlanes, a.planes, |layers|);
      compositionPlanes, preCompRegions := compositionPlanes + a.planes, preComp;
      ret := CreateAndAssignReleaseFences();
    }

    /** Plans a frame that has planes. */
    method PlanFrame(squash: SquashState?, usable: nat, primary: seq<Plane>, overlay: seq<Plane>)
        returns (ret: int, primary': seq<Plane>, overlay': seq<Plane>,
                 ghost regions: seq<RectSet>, ghost flags: seq<bool>, ghost a: Assignment)
      requires TimelineValid() && usable == UsableIn(pipe, primary, overlay) > 0
      requires Unplanned() && MayPlan(squash, usable)
      modifies this, if squash == null then {} else {squash}
      ensures TimelineValid() && timelineCurrent == old(timelineCurrent)
      ensures layers == old(layers) && kind == old(kind) && geometryChanged == old(geometryChanged)
      ensures Laid(squash, usable, old(MemoryOf(squash)), regions, flags, primary, overlay, primary', overlay', a, preCompRegions)
      ensures compositionPlanes == old(compositionPlanes) + a.planes
      ensures FencesMade(old(releaseFences), old(timeline), ret == 0)
    {
      var plan, preComp;
      regions, flags, plan, preComp, primary', overlay' := PlanLayout(squash, usable, primary, overlay);
      a := plan;
      ret := FinishPlan(plan, preComp);
    }

    /**
     Plans a frame: protected layers first, then the squash buffer, then as many layers as
     possible on planes of their own, and the rest in the pre-composited buffer.
     */
    method Plan(squash: SquashState?, primary: seq<Plane>, overlay: seq<Plane>)
        returns (ret: int, primary': seq<Plane>, overlay': seq<Plane>,
                 ghost regions: seq<RectSet>, ghost flags: seq<bool>, ghost a: Assignment)
      requires TimelineValid()
      requires kind == FrameType && UsableIn(pipe, primary, overlay) > 0 ==>
                 Unplanned() && MayPlan(squash, UsableIn(pipe, primary, overlay))
      modifies this, if squash == null then {} else {squash}
      ensures TimelineValid() && timelineCurrent == old(timelineCurrent)
      ensures layers == old(layers) && kind == old(kind) && geometryChanged == old(geometryChanged)
      ensures var usable := UsableIn(pipe, primary, overlay);
              if kind != FrameType || usable == 0 then
                && ret == (if kind != FrameType then 0 else -19)
                && primary' == primary && overlay' == overlay && unchanged(this)
                && (squash != null ==> unchanged(squash))
              else
                && Laid(squash, usable, old(MemoryOf(squash)), regions, flags, primary, overlay, primary', overlay', a, preCompRegions)
                && compositionPlanes == old(compositionPlanes) + a.planes
                && FencesMade(old(releaseFences), old(timeline), ret == 0)
    {
      regions, flags, a := [], [], Assignment([], [], [], [], false);
      ret, primary', overlay' := 0, primary, overlay;
      if kind != FrameType {
        return;
      }
      var planesCanUse := UsableIn(pipe, primary, overlay);
      if planesCanUse == 0 {
        return -ENODEV, primary, overlay, regions, flags, a;
      }

      ret, primary', overlay', regions, flags, a := PlanFrame(squash, planesCanUse, primary, overlay);
    }
  }

  /** The layers that the squashed area falls short of. */
  function StillShort(layers: seq<Layer>, areas: seq<int>): (r: seq<bool>)
    requires |areas| == |layers|
    ensures |r| == |layers| && forall j :: 0 <= j < |r| ==> (r[j] <==> areas[j] < layers[j].displayFrame.Area())
  {
    seq(|layers|, j requires 0 <= j < |layers| => areas[j] < layers[j].displayFrame.Area())
  }

  /** Shares out the planes and splits what is left into regions. */
  method PlanPlanes(pipe: nat, ghost usable: nat, layers: seq<Layer>, ghost regions: seq<RectSet>, ghost flags: seq<bool>,
                    needed: seq<bool>, useSquash: bool, exclude: seq<Rect>,
                    primary: seq<Plane>, overlay: seq<Plane>)
      returns (a: Assignment, preComp: seq<CompositionRegion>, primary': seq<Plane>, overlay': seq<Plane>)
    requires |regions| == |flags|
    requires needed == NeededFlags(layers, regions, flags) && exclude == FlaggedRects(regions, flags)
    requires useSquash <==> true in flags
    requires NoWrap(usable, ProtectedFlags(layers), useSquash)
    requires SplitFits(usable, layers, regions, flags)
    requires usable == UsableIn(pipe, primary, overlay) && usable > 0
    ensures Layout(pipe, layers, regions, flags, primary, overlay, primary', overlay', a, preComp)
    ensures SourcesBelow(preComp, |layers|)
    ensures PlanesBelow(a.planes, |layers|)
  {
    preComp := [];
    var starved;
    starved, a, primary', overlay' := AssignPlanes(pipe, ProtectedFlags(layers), needed, useSquash, primary, overlay);
    if starved {
      PlaneLayersBelow(layers, a, []);
      return;
    }
    PlannedBelow(usable, layers, needed, useSquash, a);
    PlaneLayersBelow(layers, a, (if a.preComp == [] then [] else [PreComp]) + (if a.squash then [Squash] else []));
    if |a.preComp| > 0 {
      preComp := DrawRest(layers, regions, flags, a, exclude, usable, needed);
    }
    PreCompBelow(usable, layers, regions, flags, a, preComp);
  }

  /** The regions of the pre-composited buffer for the layers that got no plane. */
  method DrawRest(layers: seq<Layer>, ghost regions: seq<RectSet>, ghost flags: seq<bool>, a: Assignment,
                  exclude: seq<Rect>, ghost usable: nat, ghost needed: seq<bool>)
      returns (preComp: seq<CompositionRegion>)
    requires |needed| == |layers| && |regions| == |flags|
    requires Planned(usable, ProtectedFlags(layers), needed, true in flags, a)
    requires needed == NeededFlags(layers, regions, flags)
    requires a.preComp != [] && exclude == FlaggedRects(regions, flags)
    requires SplitFits(usable, layers, regions, flags)
    ensures FramePlan(usable, layers, regions, flags, a, preComp)
  {
    PlannedBelow(usable, layers, needed, true in flags, a);
    DirectIff(usable, ProtectedFlags(layers), needed, true in flags, a);
    forall i | 0 <= i < |a.protectedLayers|
      ensures layers[a.protectedLayers[i]].protectedUsage
    {
      assert ProtectedFlags(layers)[a.protectedLayers[i]] == layers[a.protectedLayers[i]].protectedUsage;
      assert a.protectedLayers[i] in a.protectedLayers;
    }
    preComp := SeparateLayers(Frames(layers), a.preComp, a.protectedLayers, exclude);
  }

  lemma {:induction false} PlannedBelow(usable: nat, layers: seq<Layer>, needed: seq<bool>, useSquash: bool, a: Assignment)
    requires |needed| == |layers|
    requires Planned(usable, ProtectedFlags(layers), needed, useSquash, a)
    ensures Below(a.direct, |layers|) && Below(a.preComp, |layers|) && Below(a.protectedLayers, |layers|)
  {
    assert forall i :: 0 <= i < |a.direct| ==> a.direct[i] in a.direct;
    assert forall i :: 0 <= i < |a.preComp| ==> a.preComp[i] in a.preComp;
    assert forall i :: 0 <= i < |a.protectedLayers| ==> a.protectedLayers[i] in a.protectedLayers;
  }

  /** A layer shown by a plane of its own is one of the direct layers. */
  lemma {:induction false} OnPlaneIffDirect(a: Assignment, tail: seq<Source>, l: nat)
    requires SourcesOf(a.planes) == FromLayers(a.direct) + tail
    requires forall i :: 0 <= i < |tail| ==> !tail[i].FromLayer?
    ensures OnPlane(a.planes, l) <==> l in a.direct
  {
    if i :| 0 <= i < |a.planes| && a.planes[i].source == FromLayer(l) {
      assert SourcesOf(a.planes)[i] == FromLayer(l);
      assert i < |a.direct|;
    }
    if l in a.direct {
      var i :| 0 <= i < |a.direct| && a.direct[i] == l;
      assert SourcesOf(a.planes)[i] == FromLayer(l);
    }
  }

  lemma {:induction false} PlaneLayersBelow(layers: seq<Layer>, a: Assignment, tail: seq<Source>)
    requires SourcesOf(a.planes) == FromLayers(a.direct) + tail
    requires forall i :: 0 <= i < |tail| ==> !tail[i].FromLayer?
    requires forall j :: j in a.direct ==> j < |layers|
    ensures PlanesBelow(a.planes, |layers|)
  {
    forall l: nat | OnPlane(a.planes, l)
      ensures l < |layers|
    {
      OnPlaneIffDirect(a, tail, l);
    }
  }

  lemma {:induction false} AppendBelow(before: seq<CompositionPlane>, planes: seq<CompositionPlane>, n: nat)
    requires OnlyDisabled(before) && PlanesBelow(planes, n)
    ensures PlanesBelow(before + planes, n)
  {
    forall l: nat | OnPlane(before + planes, l)
      ensures l < n
    {
      var i :| 0 <= i < |before + planes| && (before + planes)[i].source == FromLayer(l);
      assert planes[i - |before|].source == FromLayer(l);
      assert OnPlane(planes, l);
    }
  }

  lemma {:induction false} DrawnBelow(layers: seq<Layer>, regions: seq<RectSet>, flags: seq<bool>)
    requires |regions| == |flags|
    ensures SourcesBelow(FlaggedRegions(regions, flags, |layers|), |layers|)
  {
    var drawn := FlaggedRegions(regions, flags, |layers|);
    forall l: nat | InRegions(drawn, l)
      ensures l < |layers|
    {
      var i :| 0 <= i < |drawn| && l in drawn[i].sourceLayers;
      assert drawn[i] in drawn;
      FlaggedRegionsAre(regions, flags, |layers|, drawn[i]);
    }
  }

  lemma {:induction false} PreCompBelow(usable: nat, layers: seq<Layer>, regions: seq<RectSet>, flags: seq<bool>,
                                        a: Assignment, preComp: seq<CompositionRegion>)
    requires |regions| == |flags| && FramePlan(usable, layers, regions, flags, a, preComp)
    ensures forall l: nat :: InRegions(preComp, l) ==> l in a.preComp
    ensures SourcesBelow(preComp, |layers|)
  {
    forall l: nat | InRegions(preComp, l)
      ensures l in a.preComp && l < |layers|
    {
      var i :| 0 <= i < |preComp| && l in preComp[i].sourceLayers;
      SourceIsUsed(Frames(layers), a.preComp, a.protectedLayers, FlaggedRects(regions, flags), preComp, i, l);
    }
  }

  lemma {:induction false} FlaggedRectsFew(regions: seq<RectSet>, flags: seq<bool>)
    requires |regions| == |flags|
    ensures |FlaggedRects(regions, flags)| <= |regions|
  {
    if regions != [] {
      FlaggedRectsFew(regions[..|regions| - 1], flags[..|regions| - 1]);
    }
  }

  /** A layer of a stable region is not protected, so a frame of protected layers squashes nothing. */
  lemma {:induction false} StableHasUnprotected(m: Memory, layers: seq<Layer>)
    requires Matches(m, layers)
    ensures true in StableFlags(m, layers) ==> false in ProtectedFlags(layers)
  {
    if true in StableFlags(m, layers) {
      var i: nat :| i < |m.regions| && StableFlags(m, layers)[i];
      RegionIds(layers, m.regions, i);
      var j :| j in m.regions[i].ids;
      assert !Changed(m, layers)[i];
      assert !LayerChanged(m.last, layers, j);
      assert !ProtectedFlags(layers)[j];
    }
  }

  /**
   The stable regions are excluded from pre-composition, count towards the areas of their
   layers, and are drawn into the squash buffer if that is to be drawn.
   */
  method CollectSquash(regions: seq<Region>, ghost pieces: seq<RectSet>, stable: seq<bool>, layerCount: nat, render: bool)
      returns (areas: seq<int>, exclude: seq<Rect>, drawn: seq<CompositionRegion>)
    requires |regions| == |pieces| == |stable|
    requires forall i :: 0 <= i < |regions| ==> pieces[i] == RectSet(regions[i].layerRefs, regions[i].rect)
    ensures |areas| == layerCount && forall j :: 0 <= j < layerCount ==> areas[j] == AreaWhere(pieces, stable, j)
    ensures exclude == FlaggedRects(pieces, stable)
    ensures drawn == if render then FlaggedRegions(pieces, stable, layerCount) else []
  {
    areas := seq(layerCount, _ => 0);
    exclude, drawn := [], [];
    for i := 0 to |stable|
      invariant |areas| == layerCount
      invariant forall j :: 0 <= j < layerCount ==> areas[j] == AreaWhere(pieces[..i], stable[..i], j)
      invariant exclude == FlaggedRects(pieces[..i], stable[..i])
      invariant drawn == if render then FlaggedRegions(pieces[..i], stable[..i], layerCount) else []
    {
      FlaggedStep(pieces, stable, i, layerCount);
      AreaStep(pieces, stable, i, layerCount);
      if !stable[i] {
        continue;
      }
      exclude := exclude + [regions[i].rect];
      var sources;
      areas, sources := AddSquashedArea(regions[i].layerRefs, regions[i].rect.Area(), areas);
      if render {
        drawn := drawn + [CompositionRegion(regions[i].rect, sources)];
      }
    }
    assert pieces[..|stable|] == pieces && stable[..|stable|] == stable;
  }

  /** The areas after the layers from `from` on were dealt with. */
  function Added(areas: seq<int>, layerRefs: set<nat>, frameArea: int, from: nat): (r: seq<int>)
    ensures |r| == |areas|
  {
    seq(|areas|, k requires 0 <= k < |areas| => areas[k] + if k >= from && k in layerRefs then frameArea else 0)
  }

  lemma {:induction false} AddedStep(areas: seq<int>, layerRefs: set<nat>, frameArea: int, j: nat)
    requires j < |areas|
    ensures Added(areas, layerRefs, frameArea, j + 1)[j] == areas[j]
    ensures Added(areas, layerRefs, frameArea, j)
         == Added(areas, layerRefs, frameArea, j + 1)[j := areas[j] + if j in layerRefs then frameArea else 0]
  {
  }

  /** Walks over the layers of a region from the top, adding its area to each. */
  method AddSquashedArea(layerRefs: set<nat>, frameArea: int, areas: seq<int>)
      returns (areas': seq<int>, sources: seq<nat>)
    ensures |areas'| == |areas|
    ensures forall j :: 0 <= j < |areas| ==> areas'[j] == areas[j] + if j in layerRefs then frameArea else 0
    ensures sources == Descending(layerRefs, |areas|)
  {
    areas', sources := areas, [];
    assert areas == Added(areas, layerRefs, frameArea, |areas|);
    for j := |areas| downto 0
      invariant areas' == Added(areas, layerRefs, frameArea, j)
      invariant sources == DescendingFrom(layerRefs, j, |areas|)
    {
      AddedStep(areas, layerRefs, frameArea, j);
      if j in layerRefs {
        areas' := areas'[j := areas'[j] + frameArea];
        sources := sources + [j];
      }
    }
    DescendingSplit(layerRefs, 0, |areas|);
  }

  lemma {:induction false} FlaggedStep(regions: seq<RectSet>, flags: seq<bool>, i: nat, layerCount: nat)
    requires |regions| == |flags| && i < |regions|
    ensures FlaggedRects(regions[..i + 1], flags[..i + 1])
         == FlaggedRects(regions[..i], flags[..i]) + if flags[i] then [regions[i].rect] else []
    ensures FlaggedRegions(regions[..i + 1], flags[..i + 1], layerCount)
         == FlaggedRegions(regions[..i], flags[..i], layerCount)
            + if flags[i] then [CompositionRegion(regions[i].rect, Descending(regions[i].ids, layerCount))] else []
  {
    assert regions[..i + 1][..i] == regions[..i] && flags[..i + 1][..i] == flags[..i];
  }

  lemma {:induction false} AreaStep(regions: seq<RectSet>, flags: seq<bool>, i: nat, layerCount: nat)
    requires |regions| == |flags| && i < |regions|
    ensures forall j :: 0 <= j < layerCount ==>
              AreaWhere(regions[..i + 1], flags[..i + 1], j)
              == AreaWhere(regions[..i], flags[..i], j) + if flags[i] && j in regions[i].ids then regions[i].rect.Area() else 0
  {
    assert regions[..i + 1] == regions[..i] + [regions[i]] && flags[..i + 1] == flags[..i] + [flags[i]];
    forall j | 0 <= j < layerCount
      ensures AreaWhere(regions[..i + 1], flags[..i + 1], j)
           == AreaWhere(regions[..i], flags[..i], j) + if flags[i] && j in regions[i].ids then regions[i].rect.Area() else 0
    {
      AreaWhereSnoc(regions[..i], flags[..i], j, regions[i], flags[i]);
    }
  }

  lemma {:induction false} NoneFlagged(regions: seq<RectSet>, flags: seq<bool>, layerCount: nat)
    requires |regions| == |flags|
    ensures true !in flags ==> FlaggedRegions(regions, flags, layerCount) == []
  {
    if regions != [] {
      var n := |regions| - 1;
      assert true in flags[..n] ==> true in flags;
      assert flags[n] ==> true in flags;
      NoneFlagged(regions[..n], flags[..n], layerCount);
    }
  }

  lemma {:induction false} InRegionsStep(regions: seq<CompositionRegion>, i: nat)
    requires i < |regions|
    ensures forall l :: InRegions(regions[..i + 1], l) <==> InRegions(regions[..i], l) || l in regions[i].sourceLayers
  {
    var a, b := regions[..i], regions[..i + 1];
    forall l: nat
      ensures InRegions(b, l) <==> InRegions(a, l) || l in regions[i].sourceLayers
    {
      if k :| 0 <= k < |a| && l in a[k].sourceLayers {
        assert l in b[k].sourceLayers;
      }
      if l in regions[i].sourceLayers {
        assert l in b[i].sourceLayers;
      }
    }
  }

  lemma {:induction false} OnPlaneStep(planes: seq<CompositionPlane>, i: nat)
    requires i < |planes|
    ensures forall l :: OnPlane(planes[..i + 1], l) <==> OnPlane(planes[..i], l) || planes[i].source == FromLayer(l)
  {
    var a, b := planes[..i], planes[..i + 1];
    forall l: nat
      ensures OnPlane(b, l) <==> OnPlane(a, l) || planes[i].source == FromLayer(l)
    {
      if k :| 0 <= k < |a| && a[k].source == FromLayer(l) {
        assert b[k].source == FromLayer(l);
      }
      if planes[i].source == FromLayer(l) {
        assert b[i].source == FromLayer(l);
      }
    }
  }
}
