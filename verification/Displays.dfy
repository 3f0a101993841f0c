/** The compositions of all displays, which share one pool of planes. */
module Displays {
  import opened Layers
  import opened Squash
  import opened Planes
  import opened Composition

  /** A connected display: its composition, its squash state, and the pipe that drives it, if any. */
  datatype Display = Display(comp: DrmDisplayComposition, squash: SquashState?, crtc: Option<nat>)

  datatype Pools = Pools(primary: seq<Plane>, overlay: seq<Plane>)

  /** What a plan says of one composition. */
  datatype Outcome = Outcome(
    pipe: nat,
    kind: CompositionType,
    layers: seq<Layer>,
    planes: seq<CompositionPlane>,
    preComp: seq<CompositionRegion>,
    squash: seq<CompositionRegion>,
    timeline: nat,
    fences: seq<ReleaseFence>,
    refused: set<nat>)

  function PlaneLists(outcomes: seq<Outcome>): (r: seq<seq<Plane>>)
    ensures |r| == |outcomes| && forall i :: 0 <= i < |r| ==> r[i] == PlanesOf(outcomes[i].planes)
  {
    seq(|outcomes|, i requires 0 <= i < |outcomes| => PlanesOf(outcomes[i].planes))
  }

  /** Planning with these planes succeeded: there are some that can be used, and all fences were created. */
  ghost predicate Succeeds(start: Outcome, o: Outcome, before: Pools) {
    start.kind == FrameType ==>
      && Most(before, start.pipe) > 0
      && Creates(start.refused, start.timeline, FenceCount(start.fences, |start.layers|, o.squash, o.preComp, o.planes))
  }

  /** The composition was planned with the planes of `before`, and `after` is what it left. */
  ghost predicate PlannedFrom(start: Outcome, o: Outcome, before: Pools, after: Pools) {
    && o == start.(planes := o.planes, preComp := o.preComp, squash := o.squash, timeline := o.timeline, fences := o.fences)
    && Succeeds(start, o, before)
    && if o.kind != FrameType then
         o == start && after == before
       else
         exists regions, flags, a: Assignment ::
           && o.planes == start.planes + a.planes
           && Layout(o.pipe, o.layers, regions, flags, before.primary, before.overlay, after.primary, after.overlay,
                     a, o.preComp)
  }

  /** The first `n` displays were planned one after the other, each with what the one before had left. */
  ghost predicate PlannedInTurn(start: seq<Outcome>, now: seq<Outcome>, pools: seq<Pools>, n: nat)
    requires n <= |start| == |now|
  {
    && |pools| == n + 1
    && (forall i :: 0 <= i < n ==> PlannedFrom(start[i], now[i], pools[i], pools[i + 1]))
    && (forall i :: n <= i < |now| ==> now[i] == start[i])
  }

  /** The displays were planned in turn until one could not be planned. */
  ghost predicate StoppedAt(start: seq<Outcome>, now: seq<Outcome>, pools: seq<Pools>) {
    && 0 < |pools| <= |start| == |now|
    && (forall i :: 0 <= i < |pools| - 1 ==> PlannedFrom(start[i], now[i], pools[i], pools[i + 1]))
    && !Succeeds(start[|pools| - 1], now[|pools| - 1], pools[|pools| - 1])
  }

  lemma {:induction false} Stopped(start: seq<Outcome>, now: seq<Outcome>, next: Outcome, pools: seq<Pools>, n: nat)
    requires n < |start| == |now| && PlannedInTurn(start, now, pools, n)
    requires !Succeeds(now[n], next, pools[n])
    ensures StoppedAt(start, now[n := next], pools)
  {
    forall i | 0 <= i < |pools| - 1
      ensures PlannedFrom(start[i], now[n := next][i], pools[i], pools[i + 1])
    {
      assert PlannedFrom(start[i], now[i], pools[i], pools[i + 1]);
    }
  }

  lemma {:induction false} NextPlanned(start: seq<Outcome>, now: seq<Outcome>, next: Outcome, pools: seq<Pools>, left: Pools, n: nat)
    requires n < |start| == |now| && PlannedInTurn(start, now, pools, n)
    requires PlannedFrom(now[n], next, pools[n], left)
    ensures PlannedInTurn(start, now[n := next], pools + [left], n + 1)
  {
    var after, pools' := now[n := next], pools + [left];
    forall i | 0 <= i < n + 1
      ensures PlannedFrom(start[i], after[i], pools'[i], pools'[i + 1])
    {
      if i < n {
        assert PlannedFrom(start[i], now[i], pools[i], pools[i + 1]);
      }
    }
  }

  // ---------------------------------------------------------------- how many planes are left

  /** The planes of the pools that a pipe can use. */
  function Most(pools: Pools, pipe: nat): nat {
    UsableIn(pipe, pools.primary, pools.overlay)
  }

  ghost predicate Fewer(after: Pools, before: Pools) {
    forall pipe: nat :: Most(after, pipe) <= Most(before, pipe)
  }

  /** The number of usable planes does not depend on their order. */
  lemma {:induction false} UsablePermuted(pipe: nat, a: seq<Plane>, b: seq<Plane>)
    requires multiset(a) == multiset(b)
    ensures Usable(pipe, a) == Usable(pipe, b)
  {
    if a == [] {
      assert |b| == |multiset(b)|;
    } else {
      var n := |a| - 1;
      LastApart(a);
      assert a[n] in multiset(b);
      var i :| 0 <= i < |b| && b[i] == a[n];
      var rest := b[..i] + b[i + 1..];
      assert b == (b[..i] + [b[i]]) + b[i + 1..];
      assert multiset(rest) == multiset(b) - multiset{b[i]};
      assert multiset(a[..n]) == multiset(a) - multiset{a[n]};
      UsablePermuted(pipe, a[..n], rest);
      UsableConcat(pipe, b[..i] + [b[i]], b[i + 1..]);
      UsableConcat(pipe, b[..i], [b[i]]);
      UsableConcat(pipe, b[..i], b[i + 1..]);
    }
  }

  lemma {:induction false} FewerLeft(before: Pools, after: Pools, moved: seq<Plane>)
    requires multiset(before.primary) + multiset(before.overlay)
          == multiset(after.primary) + multiset(after.overlay) + multiset(moved)
    ensures Fewer(after, before)
  {
    var a, b := before.primary + before.overlay, (after.primary + after.overlay) + moved;
    assert multiset(a) == multiset(b);
    forall pipe: nat
      ensures Most(after, pipe) <= Most(before, pipe)
    {
      UsablePermuted(pipe, a, b);
      UsableConcat(pipe, before.primary, before.overlay);
      UsableConcat(pipe, after.primary + after.overlay, moved);
      UsableConcat(pipe, after.primary, after.overlay);
    }
  }

  // ---------------------------------------------------------------- pools of planes

  /** All planes of the lists together. */
  function Total(lists: seq<seq<Plane>>): multiset<Plane> {
    if lists == [] then multiset{} else Total(lists[..|lists| - 1]) + multiset(lists[|lists| - 1])
  }

  lemma {:induction false} Exchange(a: multiset<Plane>, b: multiset<Plane>, x: multiset<Plane>, y: multiset<Plane>, z: multiset<Plane>)
    requires b + x == a + y
    ensures (b + z) + x == (a + z) + y
  {
    assert (b + z) + x == (b + x) + z && (a + z) + y == (a + y) + z;
  }

  /** Planes move from the pools to one composition, and none is lost. */
  lemma {:induction false} PlanesMove(primary: multiset<Plane>, overlay: multiset<Plane>, primary': multiset<Plane>, overlay': multiset<Plane>,
                                      total: multiset<Plane>, total': multiset<Plane>,
                                      before: multiset<Plane>, moved: multiset<Plane>)
    requires primary + overlay == primary' + overlay' + moved
    requires total' + before == total + (before + moved)
    ensures primary + overlay + total == primary' + overlay' + total'
  {
    assert total' == total + moved by {
      assert total' + before == (total + moved) + before;
      assert forall p :: (total' + before)[p] == total'[p] + before[p];
      assert forall p :: total'[p] == (total + moved)[p];
    }
    assert (primary' + overlay' + moved) + total == primary' + overlay' + (total + moved);
  }

  lemma {:induction false} TotalUpdate(lists: seq<seq<Plane>>, i: nat, planes: seq<Plane>)
    requires i < |lists|
    ensures Total(lists[i := planes]) + multiset(lists[i]) == Total(lists) + multiset(planes)
  {
    var n, updated := |lists| - 1, lists[i := planes];
    if i < n {
      TotalUpdate(lists[..n], i, planes);
      assert updated[..n] == lists[..n][i := planes];
      assert updated[n] == lists[n] && lists[..n][i] == lists[i];
      Exchange(Total(lists[..n]), Total(updated[..n]), multiset(lists[i]), multiset(planes), multiset(lists[n]));
    } else {
      assert updated[..n] == lists[..n];
    }
  }

  lemma {:induction false} TotalHas(lists: seq<seq<Plane>>, i: nat, plane: Plane)
    requires i < |lists|
    ensures Total(lists)[plane] >= multiset(lists[i])[plane]
  {
    if i < |lists| - 1 {
      TotalHas(lists[..|lists| - 1], i, plane);
    }
  }

  /** A plane in two lists counts twice. */
  lemma {:induction false} TotalHasBoth(lists: seq<seq<Plane>>, i: nat, j: nat, plane: Plane)
    requires i < j < |lists| && plane in lists[i] && plane in lists[j]
    ensures Total(lists)[plane] >= 2
  {
    var n := |lists| - 1;
    if j < n {
      TotalHasBoth(lists[..n], i, j, plane);
    } else {
      TotalHas(lists[..n], i, plane);
    }
  }

  /** If every plane is there once, no plane is in two compositions, nor in one and in a pool. */
  lemma {:induction false} NoPlaneTwice(pools: Pools, outcomes: seq<Outcome>, i: nat, plane: Plane)
    requires forall p :: PlanesIn(pools, outcomes)[p] <= 1
    requires i < |outcomes| && plane in PlanesOf(outcomes[i].planes)
    ensures plane !in pools.primary && plane !in pools.overlay
    ensures forall j :: 0 <= j < |outcomes| && j != i ==> plane !in PlanesOf(outcomes[j].planes)
  {
    var lists := PlaneLists(outcomes);
    TotalHas(lists, i, plane);
    assert PlanesIn(pools, outcomes)[plane] <= 1;
    forall j | 0 <= j < |lists| && j != i
      ensures plane !in lists[j]
    {
      if plane in lists[j] {
        TotalHasBoth(lists, if i < j then i else j, if i < j then j else i, plane);
      }
    }
  }

  /** The planes that the pipe can use, or those that it cannot, in order. */
  function Sift(pipe: nat, planes: seq<Plane>, usable: bool): seq<Plane> {
    if planes == [] then []
    else
      var n := |planes| - 1;
      Sift(pipe, planes[..n], usable) + if (pipe in planes[n].pipes) == usable then [planes[n]] else []
  }

  lemma {:induction false} SiftStep(pipe: nat, planes: seq<Plane>, k: nat, usable: bool)
    requires k < |planes|
    ensures Sift(pipe, planes[..k + 1], usable)
         == Sift(pipe, planes[..k], usable) + if (pipe in planes[k].pipes) == usable then [planes[k]] else []
  {
    assert planes[..k + 1][..k] == planes[..k];
  }

  lemma {:induction false} LastApart(planes: seq<Plane>)
    requires planes != []
    ensures multiset(planes) == multiset(planes[..|planes| - 1]) + multiset{planes[|planes| - 1]}
  {
    assert planes == planes[..|planes| - 1] + [planes[|planes| - 1]];
  }

  lemma {:induction false} JoinedLast(a: seq<Plane>, x: Plane, b: multiset<Plane>)
    ensures multiset(a + [x]) + b == (multiset(a) + b) + multiset{x}
    ensures b + multiset(a + [x]) == (b + multiset(a)) + multiset{x}
  {
    assert multiset(a + [x]) == multiset(a) + multiset{x};
  }

  /** Sifting loses no plane. */
  lemma {:induction false} SiftSplits(pipe: nat, planes: seq<Plane>)
    ensures multiset(planes) == multiset(Sift(pipe, planes, true)) + multiset(Sift(pipe, planes, false))
  {
    if planes != [] {
      var n := |planes| - 1;
      SiftSplits(pipe, planes[..n]);
      LastApart(planes);
      var used, rest := Sift(pipe, planes[..n], true), Sift(pipe, planes[..n], false);
      if pipe in planes[n].pipes {
        JoinedLast(used, planes[n], multiset(rest));
        assert Sift(pipe, planes, false) == rest;
      } else {
        JoinedLast(rest, planes[n], multiset(used));
        assert Sift(pipe, planes, true) == used;
      }
    }
  }

  /** It leaves nothing that the pipe can use, and nothing new for another pipe. */
  lemma {:induction false} SiftUsable(pipe: nat, planes: seq<Plane>, other: nat)
    ensures Usable(pipe, Sift(pipe, planes, false)) == 0
    ensures Usable(other, Sift(pipe, planes, false)) <= Usable(other, planes)
  {
    if planes != [] {
      var n := |planes| - 1;
      SiftUsable(pipe, planes[..n], other);
      var last := if pipe in planes[n].pipes then [] else [planes[n]];
      UsableConcat(pipe, Sift(pipe, planes[..n], false), last);
      UsableConcat(other, Sift(pipe, planes[..n], false), last);
    }
  }

  lemma {:induction false} SiftLeaves(pipe: nat, planes: seq<Plane>)
    ensures Usable(pipe, Sift(pipe, planes, false)) == 0
    ensures forall other: nat :: Usable(other, Sift(pipe, planes, false)) <= Usable(other, planes)
  {
    forall other: nat
      ensures Usable(pipe, Sift(pipe, planes, false)) == 0 && Usable(other, Sift(pipe, planes, false)) <= Usable(other, planes)
    {
      SiftUsable(pipe, planes, other);
    }
  }

  lemma {:induction false} SiftHasPipe(pipe: nat, planes: seq<Plane>)
    ensures forall k :: 0 <= k < |Sift(pipe, planes, true)| ==> pipe in Sift(pipe, planes, true)[k].pipes
  {
    if planes != [] {
      SiftHasPipe(pipe, planes[..|planes| - 1]);
    }
  }

  /** `now` is the list sifted up to `k`, and `switched` what was added for the planes erased so far. */
  ghost predicate Erased(pipe: nat, planes: seq<Plane>, k: nat, now: seq<Plane>, i: nat, switched: seq<CompositionPlane>) {
    && k <= |planes| && i == |Sift(pipe, planes[..k], false)|
    && now == Sift(pipe, planes[..k], false) + planes[k..]
    && switched == Disables(Sift(pipe, planes[..k], true))
  }

  /** One step of erasing the planes that the pipe can use from a list that is sifted up to `k`. */
  lemma {:induction false} EraseStep(pipe: nat, planes: seq<Plane>, k: nat, now: seq<Plane>, i: nat, switched: seq<CompositionPlane>)
    requires Erased(pipe, planes, k, now, i, switched) && i < |now|
    ensures k < |planes| && now[i] == planes[k]
    ensures if pipe in now[i].pipes then
              Erased(pipe, planes, k + 1, now[..i] + now[i + 1..], i, switched + [CompositionPlane(now[i], Disabled)])
            else
              Erased(pipe, planes, k + 1, now, i + 1, switched)
  {
    SiftStep(pipe, planes, k, true);
    SiftStep(pipe, planes, k, false);
    EraseAt(Sift(pipe, planes[..k], false), planes, k);
    DisablesSnoc(Sift(pipe, planes[..k], true), planes[k]);
  }

  lemma {:induction false} EraseStart(pipe: nat, planes: seq<Plane>)
    ensures Erased(pipe, planes, 0, planes, 0, [])
  {
    assert Disables([]) == [];
  }

  lemma {:induction false} ErasedAll(pipe: nat, planes: seq<Plane>, k: nat, now: seq<Plane>, i: nat, switched: seq<CompositionPlane>)
    requires Erased(pipe, planes, k, now, i, switched) && i >= |now|
    ensures now == Sift(pipe, planes, false) && switched == Disables(Sift(pipe, planes, true))
  {
    assert k == |planes|;
    assert planes[..k] == planes;
  }

  /** A list with its entry at `i` erased, or moved to the part before. */
  lemma {:induction false} EraseAt(kept: seq<Plane>, planes: seq<Plane>, k: nat)
    requires k < |planes|
    ensures var now, i := kept + planes[k..], |kept|;
            && i < |now| && now[i] == planes[k]
            && now[..i] + now[i + 1..] == kept + planes[k + 1..]
            && now == (kept + [planes[k]]) + planes[k + 1..]
  {
    var tail := planes[k..];
    assert tail[0] == planes[k] && tail[1..] == planes[k + 1..];
    assert tail == [tail[0]] + tail[1..];
    assert (kept + tail)[..|kept|] == kept;
    assert (kept + tail)[|kept| + 1..] == tail[1..];
  }

  /** Composition planes that switch the given planes off. */
  function Disables(planes: seq<Plane>): (r: seq<CompositionPlane>)
    ensures PlanesOf(r) == planes
    ensures forall k :: 0 <= k < |r| ==> r[k] == CompositionPlane(planes[k], Disabled)
  {
    var r := seq(|planes|, i requires 0 <= i < |planes| => CompositionPlane(planes[i], Disabled));
    assert PlanesOf(r) == planes;
    r
  }

  lemma {:induction false} PlanesOfConcat(a: seq<CompositionPlane>, b: seq<CompositionPlane>)
    ensures PlanesOf(a + b) == PlanesOf(a) + PlanesOf(b)
  {
  }

  /** What the pipe can use and no composition does: one primary plane and all overlays. */
  function Unused(pipe: nat, pools: Pools): seq<Plane> {
    First(pipe, pools.primary, 1) + Sift(pipe, pools.overlay, true)
  }

  /** The pools without it. */
  function Without(pipe: nat, pools: Pools): Pools {
    Pools(Others(pipe, pools.primary, 1), Sift(pipe, pools.overlay, false))
  }

  lemma {:induction false} UnusedHasPipe(pipe: nat, pools: Pools)
    ensures forall p :: p in Unused(pipe, pools) ==> pipe in p.pipes
  {
    FirstHasPipe(pipe, pools.primary, 1);
    SiftHasPipe(pipe, pools.overlay);
  }

  /** The pools after the first `n` pipes. */
  function PoolsAfter(pipes: seq<Option<nat>>, pools: Pools, n: nat): Pools
    requires n <= |pipes|
  {
    if n == 0 then pools
    else
      var before := PoolsAfter(pipes, pools, n - 1);
      if pipes[n - 1].Some? then Without(pipes[n - 1].value, before) else before
  }

  /** None of the first `n` pipes can use an overlay plane that is left. */
  ghost predicate OverlaysUsed(pipes: seq<Option<nat>>, overlay: seq<Plane>, n: nat)
    requires n <= |pipes|
  {
    forall i :: 0 <= i < n && pipes[i].Some? ==> Usable(pipes[i].value, overlay) == 0
  }

  lemma {:induction false} NoOverlayLeft(pipes: seq<Option<nat>>, overlay: seq<Plane>)
    requires OverlaysUsed(pipes, overlay, |pipes|)
    ensures forall i, p :: 0 <= i < |pipes| && pipes[i].Some? && p in overlay ==> pipes[i].value !in p.pipes
  {
    forall i | 0 <= i < |pipes| && pipes[i].Some? {
      UsableNone(pipes[i].value, overlay);
    }
  }

  lemma {:induction false} AllOverlaysUsed(pipes: seq<Option<nat>>, pools: Pools, n: nat)
    requires n <= |pipes|
    ensures OverlaysUsed(pipes, PoolsAfter(pipes, pools, n).overlay, n)
  {
    if n > 0 {
      AllOverlaysUsed(pipes, pools, n - 1);
      if pipes[n - 1].Some? {
        SiftLeaves(pipes[n - 1].value, PoolsAfter(pipes, pools, n - 1).overlay);
      }
    }
  }

  /** The compositions of the first `n` pipes got what their pipe could use to switch off, the others nothing. */
  ghost predicate SwitchedOff(pipes: seq<Option<nat>>, pools: Pools, start: seq<Outcome>, now: seq<Outcome>, n: nat)
    requires n <= |pipes| == |start| == |now|
  {
    forall i :: 0 <= i < |pipes| ==>
      now[i] == if i < n && pipes[i].Some? then Switched(start[i], pipes[i].value, PoolsAfter(pipes, pools, i)) else start[i]
  }

  function Switched(o: Outcome, pipe: nat, pools: Pools): Outcome {
    o.(planes := o.planes + Disables(Unused(pipe, pools)))
  }

  /** The first `n` displays have had their turn. */
  ghost predicate HadTurn(pipes: seq<Option<nat>>, pools: Pools, start: seq<Outcome>, now: seq<Outcome>, left: Pools, n: nat)
    requires n <= |pipes| == |start| == |now|
  {
    && left == PoolsAfter(pipes, pools, n) && SwitchedOff(pipes, pools, start, now, n)
    && PlanesIn(left, now) == PlanesIn(pools, start)
  }

  /** Switching off loses no plane. */
  lemma {:induction false} UnusedSplits(pipe: nat, pools: Pools)
    ensures var left := Without(pipe, pools);
            multiset(pools.primary) + multiset(pools.overlay)
            == multiset(left.primary) + multiset(left.overlay) + multiset(Unused(pipe, pools))
  {
    FirstSplits(pipe, pools.primary, 1);
    SiftSplits(pipe, pools.overlay);
    assert multiset(Unused(pipe, pools)) == multiset(First(pipe, pools.primary, 1)) + multiset(Sift(pipe, pools.overlay, true));
  }

  lemma {:induction false} NextTurn(pipes: seq<Option<nat>>, pools: Pools, start: seq<Outcome>,
                                    before: seq<Outcome>, left: Pools, after: seq<Outcome>, left': Pools, n: nat)
    requires n < |pipes| == |start| == |before| == |after|
    requires HadTurn(pipes, pools, start, before, left, n)
    requires pipes[n] == None ==> left' == left && after == before
    requires pipes[n].Some? ==>
               left' == Without(pipes[n].value, left) && after == before[n := Switched(before[n], pipes[n].value, left)]
    ensures HadTurn(pipes, pools, start, after, left', n + 1)
  {
    if pipes[n].Some? {
      var pipe := pipes[n].value;
      UnusedSplits(pipe, left);
      PlanesOfConcat(before[n].planes, Disables(Unused(pipe, left)));
      Accounted(before, after[n], n, Unused(pipe, left), left, left');
    }
    forall i | 0 <= i < |pipes|
      ensures after[i] == if i < n + 1 && pipes[i].Some? then Switched(start[i], pipes[i].value, PoolsAfter(pipes, pools, i)) else start[i]
    {
      assert i != n ==> after[i] == before[i];
    }
  }

  /** The pipes of the displays whose leftover planes are switched off. */
  function ActivePipes(displays: seq<Display>, outcomes: seq<Outcome>): (r: seq<Option<nat>>)
    requires |displays| == |outcomes|
    ensures |r| == |displays|
    ensures forall i :: 0 <= i < |r| ==>
              r[i] == if outcomes[i].kind != EmptyType && outcomes[i].kind != ModesetType then displays[i].crtc else None
  {
    seq(|displays|, i requires 0 <= i < |displays| =>
      if outcomes[i].kind != EmptyType && outcomes[i].kind != ModesetType then displays[i].crtc else None)
  }

  /** Then no overlay is left that the pipe of an active display can use. */
  lemma {:induction false} NoneLeft(displays: seq<Display>, start: seq<Outcome>, pools: Pools, now: seq<Outcome>, left: Pools)
    requires |displays| == |start| == |now|
    requires HadTurn(ActivePipes(displays, start), pools, start, now, left, |displays|)
    ensures forall i, p :: 0 <= i < |displays| && displays[i].crtc.Some? && p in left.overlay ==>
              start[i].kind in {EmptyType, ModesetType} || displays[i].crtc.value !in p.pipes
  {
    var pipes := ActivePipes(displays, start);
    AllOverlaysUsed(pipes, pools, |displays|);
    NoOverlayLeft(pipes, left.overlay);
    forall i, p | 0 <= i < |displays| && displays[i].crtc.Some? && p in left.overlay && start[i].kind !in {EmptyType, ModesetType}
      ensures displays[i].crtc.value !in p.pipes
    {
      assert pipes[i] == displays[i].crtc;
    }
  }

  // ---------------------------------------------------------------- all displays

  class DrmComposition {
    var primaryPlanes: seq<Plane>
    var overlayPlanes: seq<Plane>
    const displays: seq<Display>

    constructor (displays: seq<Display>, primary: seq<Plane>, overlay: seq<Plane>)
      ensures this.displays == displays && primaryPlanes == primary && overlayPlanes == overlay
    {
      this.displays := displays;
      primaryPlanes, overlayPlanes := primary, overlay;
    }

    /** No two displays share a composition or a squash state. */
    ghost predicate Apart() {
      && (forall i, j :: 0 <= i < j < |displays| ==> displays[i].comp != displays[j].comp)
      && (forall i, j :: 0 <= i < j < |displays| && displays[i].squash != null ==> displays[i].squash != displays[j].squash)
    }

    ghost function Comps(): set<DrmDisplayComposition> {
      set i | 0 <= i < |displays| :: displays[i].comp
    }

    ghost function States(): set<SquashState> {
      set i | 0 <= i < |displays| && displays[i].squash != null :: displays[i].squash
    }

    ghost function Outcomes(): (r: seq<Outcome>)
      reads Comps()
      ensures |r| == |displays|
      ensures forall i :: 0 <= i < |r| ==> r[i] == OutcomeOf(displays[i].comp)
    {
      seq(|displays|, i requires 0 <= i < |displays| reads Comps() => OutcomeOf(displays[i].comp))
    }

    ghost function Left(): Pools
      reads this
    {
      Pools(primaryPlanes, overlayPlanes)
    }

    /** All planes, in the pools and in the compositions. */
    ghost function AllPlanes(): multiset<Plane>
      reads this, Comps()
    {
      PlanesIn(Left(), Outcomes())
    }

    /** The composition may be planned with however many planes, up to `most`, are left for it. */
    ghost predicate Ready(c: DrmDisplayComposition, squash: SquashState?, most: nat)
      reads c, squash
    {
      && c.TimelineValid()
      && (c.kind == FrameType && most > 0 ==> c.Unplanned())
      && (forall usable: nat :: c.kind == FrameType && 0 < usable <= most ==> c.MayPlan(squash, usable))
    }

    ghost predicate ReadyFrom(n: nat, pools: Pools)
      reads Comps(), States()
    {
      forall i :: n <= i < |displays| ==> Ready(displays[i].comp, displays[i].squash, Most(pools, displays[i].comp.pipe))
    }

    /** Planning one display leaves the others as they are. */
    twostate lemma StillReady(n: nat)
      requires Apart() && n < |displays|
      requires forall i :: n < i < |displays| ==> unchanged(displays[i].comp)
      requires forall i :: n < i < |displays| && displays[i].squash != null ==> unchanged(displays[i].squash)
      ensures forall pools :: old(ReadyFrom(n, pools)) ==> ReadyFrom(n + 1, pools)
    {
      forall pools, i | old(ReadyFrom(n, pools)) && n < i < |displays|
        ensures Ready(displays[i].comp, displays[i].squash, Most(pools, displays[i].comp.pipe))
      {
        assert old(Ready(displays[i].comp, displays[i].squash, Most(pools, displays[i].comp.pipe)));
      }
    }

    /** Plans one composition and takes its planes out of the pools. */
    method PlanOne(comp: DrmDisplayComposition, squash: SquashState?, ghost most: nat) returns (ret: int, ghost moved: seq<Plane>)
      requires Ready(comp, squash, most) && Most(Left(), comp.pipe) <= most
      modifies this, comp, squash
      ensures ret == 0 ==> PlannedFrom(old(OutcomeOf(comp)), OutcomeOf(comp), old(Left()), Left())
      ensures ret == 0 <==> Succeeds(old(OutcomeOf(comp)), OutcomeOf(comp), old(Left()))
      ensures PlanesOf(comp.compositionPlanes) == PlanesOf(old(comp.compositionPlanes)) + moved
      ensures multiset(old(primaryPlanes)) + multiset(old(overlayPlanes))
           == multiset(primaryPlanes) + multiset(overlayPlanes) + multiset(moved)
    {
      ghost var before, primary, overlay := comp.compositionPlanes, primaryPlanes, overlayPlanes;
      var primary', overlay';
      ghost var regions, flags, a;
      ret, primary', overlay', regions, flags, a := comp.Plan(squash, primaryPlanes, overlayPlanes);
      primaryPlanes, overlayPlanes := primary', overlay';
      if comp.compositionPlanes == before && primary' == primary && overlay' == overlay {
        moved := [];
      } else {
        moved := PlanesOf(a.planes);
        InTurnConserves(comp.pipe, primary, overlay, a.planes, primary', overlay');
        PlanesOfConcat(before, a.planes);
      }
    }

    /** Plans the composition of one display with the planes that are left. */
    method PlanFor(n: nat, ghost most: Pools) returns (ret: int)
      requires Apart() && n < |displays| && ReadyFrom(n, most) && Fewer(Left(), most)
      modifies this, displays[n].comp, displays[n].squash
      ensures AllPlanes() == old(AllPlanes()) && ReadyFrom(n + 1, most) && Fewer(Left(), most)
      ensures Outcomes() == old(Outcomes())[n := OutcomeOf(displays[n].comp)]
      ensures ret == 0 ==> PlannedFrom(old(OutcomeOf(displays[n].comp)), OutcomeOf(displays[n].comp), old(Left()), Left())
      ensures ret == 0 <==> Succeeds(old(OutcomeOf(displays[n].comp)), OutcomeOf(displays[n].comp), old(Left()))
    {
      var comp, squash := displays[n].comp, displays[n].squash;
      assert Ready(comp, squash, Most(most, comp.pipe));
      ghost var outcomes, pools := Outcomes(), Left();
      ghost var moved;
      ret, moved := PlanOne(comp, squash, Most(most, comp.pipe));
      assert Outcomes() == outcomes[n := OutcomeOf(comp)];
      Accounted(outcomes, OutcomeOf(comp), n, moved, pools, Left());
      FewerLeft(pools, Left(), moved);
      StillReady(n);
    }

    /** Plans the displays in turn; what one leaves in the pools is there for the next. */
    method Plan() returns (ret: int, ghost pools: seq<Pools>)
      requires Apart() && ReadyFrom(0, Left())
      modifies this, Comps(), States()
      ensures AllPlanes() == old(AllPlanes())
      ensures ret == 0 ==>
                && PlannedInTurn(old(Outcomes()), Outcomes(), pools, |displays|)
                && pools[0] == old(Left()) && pools[|displays|] == Left()
      ensures ret != 0 ==> StoppedAt(old(Outcomes()), Outcomes(), pools)
    {
      ret, pools := 0, [Left()];
      ghost var all, start, left := AllPlanes(), Outcomes(), Left();
      for n := 0 to |displays|
        invariant AllPlanes() == all
        invariant ReadyFrom(n, left) && Fewer(Left(), left)
        invariant PlannedInTurn(start, Outcomes(), pools, n) && pools[0] == left && pools[n] == Left()
      {
        ghost var now := Outcomes();
        ret := PlanFor(n, left);
        if ret != 0 {
          Stopped(start, now, OutcomeOf(displays[n].comp), pools, n);
          return;
        }
        NextPlanned(start, now, OutcomeOf(displays[n].comp), pools, Left(), n);
        pools := pools + [Left()];
      }
    }

    /** Switches off what no composition uses: one primary plane and all overlays of each display. */
    method DisableUnusedPlanes()
      requires Apart()
      modifies this, Comps()`compositionPlanes
      ensures AllPlanes() == old(AllPlanes())
      ensures forall i, p :: 0 <= i < |displays| && displays[i].crtc.Some? && p in overlayPlanes ==>
                old(displays[i].comp.kind) in {EmptyType, ModesetType} || displays[i].crtc.value !in p.pipes
      ensures HadTurn(ActivePipes(displays, old(Outcomes())), old(Left()), old(Outcomes()), Outcomes(), Left(), |displays|)
    {
      ghost var start, pools := Outcomes(), Left();
      ghost var pipes := ActivePipes(displays, start);
      for n := 0 to |displays|
        invariant HadTurn(pipes, pools, start, Outcomes(), Left(), n)
      {
        ghost var now, left := Outcomes(), Left();
        assert now[n] == start[n];
        var kind := displays[n].comp.kind;
        // Empty compositions are left alone, and displays without a pipe.
        if kind != EmptyType && kind != ModesetType && displays[n].crtc.Some? {
          DisableFor(n);
        }
        NextTurn(pipes, pools, start, now, left, Outcomes(), Left(), n);
      }
      NoneLeft(displays, start, pools, Outcomes(), Left());
    }

    /** Has every overlay plane that the pipe can use switched off. */
    method DisableOverlays(comp: DrmDisplayComposition, pipe: nat)
      modifies `overlayPlanes, comp`compositionPlanes
      ensures overlayPlanes == Sift(pipe, old(overlayPlanes), false)
      ensures comp.compositionPlanes == old(comp.compositionPlanes) + Disables(Sift(pipe, old(overlayPlanes), true))
    {
      ghost var before, planes, k: nat := comp.compositionPlanes, overlayPlanes, 0;
      ghost var switched: seq<CompositionPlane> := [];
      var i := 0;
      EraseStart(pipe, planes);
      while i < |overlayPlanes|
        invariant i <= |overlayPlanes| && Erased(pipe, planes, k, overlayPlanes, i, switched)
        invariant comp.compositionPlanes == before + switched
        decreases |overlayPlanes| - i
      {
        var plane := overlayPlanes[i];
        EraseStep(pipe, planes, k, overlayPlanes, i, switched);
        if pipe in plane.pipes {
          comp.AddPlaneDisable(plane);
          switched := switched + [CompositionPlane(plane, Disabled)];
          overlayPlanes := overlayPlanes[..i] + overlayPlanes[i + 1..];
          assert comp.compositionPlanes == before + switched;
        } else {
          i := i + 1;
        }
        k := k + 1;
      }
      ErasedAll(pipe, planes, k, overlayPlanes, i, switched);
    }

    /** Has one primary plane switched off, if the pipe can use one. */
    method DisablePrimary(comp: DrmDisplayComposition, pipe: nat)
      modifies `primaryPlanes, comp`compositionPlanes
      ensures primaryPlanes == Others(pipe, old(primaryPlanes), 1)
      ensures comp.compositionPlanes == old(comp.compositionPlanes) + Disables(First(pipe, old(primaryPlanes), 1))
    {
      var plane, rest := TakeFrom(pipe, primaryPlanes);
      FirstIsTaken(pipe, primaryPlanes, plane, rest);
      if plane.Some? {
        primaryPlanes := rest;
        comp.AddPlaneDisable(plane.value);
      }
    }

    /** Has one primary plane and all overlays that the pipe can use switched off. */
    method DisablePlanes(comp: DrmDisplayComposition, pipe: nat)
      modifies this, comp`compositionPlanes
      ensures Left() == Without(pipe, old(Left()))
      ensures comp.compositionPlanes == old(comp.compositionPlanes) + Disables(Unused(pipe, old(Left())))
    {
      ghost var before, pools := comp.compositionPlanes, Left();
      DisablePrimary(comp, pipe);
      DisableOverlays(comp, pipe);
      DisablesConcat(before, First(pipe, pools.primary, 1), Sift(pipe, pools.overlay, true));
    }

    /** Has the planes that are left and that display `n` can use switched off with its composition. */
    method DisableFor(n: nat)
      requires Apart() && n < |displays| && displays[n].crtc.Some?
      modifies this, displays[n].comp`compositionPlanes
      ensures Left() == Without(displays[n].crtc.value, old(Left()))
      ensures Outcomes() == old(Outcomes())[n := Switched(old(Outcomes())[n], displays[n].crtc.value, old(Left()))]
    {
      var comp, pipe := displays[n].comp, displays[n].crtc.value;
      ghost var outcomes, pools := Outcomes(), Left();
      DisablePlanes(comp, pipe);
      assert Outcomes() == outcomes[n := Switched(outcomes[n], pipe, pools)];
    }
  }

  /** What `TakeFrom` takes is the first plane that the pipe can use. */
  lemma {:induction false} FirstIsTaken(pipe: nat, planes: seq<Plane>, plane: Option<Plane>, rest: seq<Plane>)
    requires if plane == None then rest == planes && Usable(pipe, planes) == 0 else FirstTaken(pipe, planes, plane.value, rest)
    ensures Others(pipe, planes, 1) == rest
    ensures Disables(First(pipe, planes, 1)) == if plane == None then [] else [CompositionPlane(plane.value, Disabled)]
  {
    if plane.Some? {
      NextTaken(pipe, planes, 0, plane.value, rest);
      assert First(pipe, planes, 0) == [];
      assert First(pipe, planes, 1) == [plane.value];
    } else {
      NoneTaken(pipe, planes);
    }
  }

  lemma {:induction false} NoneTaken(pipe: nat, planes: seq<Plane>)
    requires Usable(pipe, planes) == 0
    ensures First(pipe, planes, 1) == [] && Others(pipe, planes, 1) == planes
  {
    if planes != [] {
      assert planes == [planes[0]] + planes[1..];
      UsableConcat(pipe, [planes[0]], planes[1..]);
      NoneTaken(pipe, planes[1..]);
    }
  }

  ghost function OutcomeOf(c: DrmDisplayComposition): Outcome
    reads c
  {
    Outcome(c.pipe, c.kind, c.layers, c.compositionPlanes, c.preCompRegions,
            c.squashRegions, c.timeline, c.releaseFences, c.refused)
  }

  /** All planes, in the pools and in the compositions. */
  function PlanesIn(pools: Pools, outcomes: seq<Outcome>): multiset<Plane> {
    multiset(pools.primary) + multiset(pools.overlay) + Total(PlaneLists(outcomes))
  }

  /** Planes went from the pools to composition `n`, and nothing else changed. */
  lemma {:induction false} Accounted(outcomes: seq<Outcome>, next: Outcome, n: nat, moved: seq<Plane>, before: Pools, after: Pools)
    requires n < |outcomes|
    requires PlanesOf(next.planes) == PlanesOf(outcomes[n].planes) + moved
    requires multiset(before.primary) + multiset(before.overlay)
          == multiset(after.primary) + multiset(after.overlay) + multiset(moved)
    ensures PlanesIn(before, outcomes) == PlanesIn(after, outcomes[n := next])
  {
    var lists := PlaneLists(outcomes);
    assert PlaneLists(outcomes[n := next]) == lists[n := PlanesOf(next.planes)];
    assert multiset(PlanesOf(next.planes)) == multiset(lists[n]) + multiset(moved);
    TotalUpdate(lists, n, PlanesOf(next.planes));
    PlanesMove(multiset(before.primary), multiset(before.overlay), multiset(after.primary), multiset(after.overlay),
               Total(lists), Total(PlaneLists(outcomes[n := next])), multiset(lists[n]), multiset(moved));
  }

  lemma {:induction false} DisablesConcat(before: seq<CompositionPlane>, a: seq<Plane>, b: seq<Plane>)
    ensures before + Disables(a) + Disables(b) == before + Disables(a + b)
  {
    assert Disables(a) + Disables(b) == Disables(a + b);
  }

  lemma {:induction false} DisablesSnoc(planes: seq<Plane>, plane: Plane)
    ensures Disables(planes + [plane]) == Disables(planes) + [CompositionPlane(plane, Disabled)]
  {
  }
}
