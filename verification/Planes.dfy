/** Hardware planes and how they are shared out among the layers of one frame. */
module Planes {
  import opened Separate

  datatype Option<+T> = None | Some(value: T)

  /** A hardware plane and the display pipes it can feed. */
  datatype Plane = Plane(id: nat, primary: bool, pipes: set<nat>)

  /** What a composition plane shows. */
  datatype Source = Disabled | PreComp | Squash | FromLayer(index: nat)

  datatype CompositionPlane = CompositionPlane(plane: Plane, source: Source)

  /** The number of planes the pipe can use. */
  function Usable(pipe: nat, planes: seq<Plane>): nat {
    if planes == [] then 0
    else Usable(pipe, planes[..|planes| - 1]) + if pipe in planes[|planes| - 1].pipes then 1 else 0
  }

  /** The number of planes of both pools that the pipe can use. */
  function UsableIn(pipe: nat, primary: seq<Plane>, overlay: seq<Plane>): nat {
    Usable(pipe, primary) + Usable(pipe, overlay)
  }

  /** No plane counts just when none can feed the pipe. */
  lemma {:induction false} UsableNone(pipe: nat, planes: seq<Plane>)
    ensures Usable(pipe, planes) == 0 <==> forall p :: p in planes ==> pipe !in p.pipes
  {
    if planes != [] {
      var n := |planes| - 1;
      UsableNone(pipe, planes[..n]);
      assert planes == planes[..n] + [planes[n]];
      assert forall p :: p in planes <==> p in planes[..n] || p == planes[n];
    }
  }

  lemma {:induction false} UsableConcat(pipe: nat, a: seq<Plane>, b: seq<Plane>)
    ensures Usable(pipe, a + b) == Usable(pipe, a) + Usable(pipe, b)
  {
    if b == [] {
      assert a + b == a;
    } else {
      assert (a + b)[..|a + b| - 1] == a + b[..|b| - 1];
      UsableConcat(pipe, a, b[..|b| - 1]);
    }
  }

  function PlanesOf(cps: seq<CompositionPlane>): (r: seq<Plane>)
    ensures |r| == |cps| && forall i :: 0 <= i < |r| ==> r[i] == cps[i].plane
  {
    seq(|cps|, i requires 0 <= i < |cps| => cps[i].plane)
  }

  function SourcesOf(cps: seq<CompositionPlane>): (r: seq<Source>)
    ensures |r| == |cps| && forall i :: 0 <= i < |r| ==> r[i] == cps[i].source
  {
    seq(|cps|, i requires 0 <= i < |cps| => cps[i].source)
  }

  /** Planes handed out and planes left over are together the planes there were. */
  ghost predicate Conserved(primary: seq<Plane>, overlay: seq<Plane>, cps: seq<CompositionPlane>,
                            primary': seq<Plane>, overlay': seq<Plane>)
  {
    multiset(primary) + multiset(overlay) == multiset(primary') + multiset(overlay') + multiset(PlanesOf(cps))
  }

  /** `plane` is the first of `planes` that the pipe can use, and `rest` the others in their order. */
  ghost predicate FirstTaken(pipe: nat, planes: seq<Plane>, plane: Plane, rest: seq<Plane>) {
    exists i :: 0 <= i < |planes| && plane == planes[i] && rest == planes[..i] + planes[i + 1..]
             && pipe in plane.pipes && forall k :: 0 <= k < i ==> pipe !in planes[k].pipes
  }

  lemma {:induction false} TakenAt(pipe: nat, planes: seq<Plane>, i: nat)
    requires i < |planes| && pipe in planes[i].pipes && Usable(pipe, planes[..i]) == 0
    ensures var rest := planes[..i] + planes[i + 1..];
            && multiset(planes) == multiset(rest) + multiset{planes[i]}
            && Usable(pipe, rest) == Usable(pipe, planes) - 1
  {
    assert planes[..i + 1][..i] == planes[..i];
    assert planes == planes[..i] + [planes[i]] + planes[i + 1..];
    UsableConcat(pipe, planes[..i + 1], planes[i + 1..]);
    UsableConcat(pipe, planes[..i], planes[i + 1..]);
    assert planes[..i + 1] + planes[i + 1..] == planes;
  }

  /** Removes the first plane the pipe can use. */
  method TakeFrom(pipe: nat, planes: seq<Plane>) returns (plane: Option<Plane>, rest: seq<Plane>)
    ensures plane == None <==> Usable(pipe, planes) == 0
    ensures plane == None <==> forall p :: p in planes ==> pipe !in p.pipes
    ensures plane == None ==> rest == planes
    ensures plane.Some? ==>
              && FirstTaken(pipe, planes, plane.value, rest)
              && pipe in plane.value.pipes
              && multiset(planes) == multiset(rest) + multiset{plane.value}
              && Usable(pipe, rest) == Usable(pipe, planes) - 1
  {
    UsableNone(pipe, planes);
    for i := 0 to |planes|
      invariant Usable(pipe, planes[..i]) == 0 && forall k :: 0 <= k < i ==> pipe !in planes[k].pipes
    {
      assert planes[..i + 1][..i] == planes[..i];
      if pipe in planes[i].pipes {
        TakenAt(pipe, planes, i);
        return Some(planes[i]), planes[..i] + planes[i + 1..];
      }
    }
    assert planes[..|planes|] == planes;
    plane, rest := None, planes;
  }

  /** Primary planes are taken before overlay planes, and in their order. */
  ghost predicate Taken(pipe: nat, primary: seq<Plane>, overlay: seq<Plane>, plane: Plane, primary': seq<Plane>, overlay': seq<Plane>) {
    if exists p :: p in primary && pipe in p.pipes then FirstTaken(pipe, primary, plane, primary') && overlay' == overlay
    else FirstTaken(pipe, overlay, plane, overlay') && primary' == primary
  }

  /** A primary plane if there is one, else an overlay plane. */
  method TakePlane(pipe: nat, primary: seq<Plane>, overlay: seq<Plane>)
      returns (plane: Option<Plane>, primary': seq<Plane>, overlay': seq<Plane>)
    ensures plane == None <==> UsableIn(pipe, primary, overlay) == 0
    ensures plane == None <==> forall p :: p in primary || p in overlay ==> pipe !in p.pipes
    ensures plane == None ==> primary' == primary && overlay' == overlay
    ensures plane.Some? ==> Taken(pipe, primary, overlay, plane.value, primary', overlay')
    ensures plane.Some? ==>
              && pipe in plane.value.pipes
              && multiset(primary) + multiset(overlay) == multiset(primary') + multiset(overlay') + multiset{plane.value}
              && UsableIn(pipe, primary', overlay') == UsableIn(pipe, primary, overlay) - 1
  {
    overlay' := overlay;
    plane, primary' := TakeFrom(pipe, primary);
    if plane == None {
      plane, overlay' := TakeFrom(pipe, overlay);
    }
  }

  function Min(a: nat, b: nat): nat {
    if a < b then a else b
  }

  /** The first `n` planes that the pipe can use. */
  function First(pipe: nat, planes: seq<Plane>, n: nat): seq<Plane> {
    if n == 0 || planes == [] then []
    else if pipe in planes[0].pipes then [planes[0]] + First(pipe, planes[1..], n - 1)
    else First(pipe, planes[1..], n)
  }

  /** What is left without them. */
  function Others(pipe: nat, planes: seq<Plane>, n: nat): seq<Plane> {
    if n == 0 || planes == [] then planes
    else if pipe in planes[0].pipes then Others(pipe, planes[1..], n - 1)
    else [planes[0]] + Others(pipe, planes[1..], n)
  }

  /** Erasing an entry of the tail. */
  lemma {:induction false} ErasedTail(plane: Plane, tail: seq<Plane>, i: nat)
    requires i < |tail|
    ensures var from := [plane] + tail;
            from[..i + 1] + from[i + 2..] == [plane] + (tail[..i] + tail[i + 1..])
  {
  }

  lemma {:induction false} HeadStays(pipe: nat, planes: seq<Plane>, n: nat)
    requires planes != [] && pipe !in planes[0].pipes
    ensures First(pipe, planes, n) == First(pipe, planes[1..], n)
    ensures Others(pipe, planes, n) == [planes[0]] + Others(pipe, planes[1..], n)
  {
  }

  lemma {:induction false} HeadTaken(pipe: nat, planes: seq<Plane>, n: nat)
    requires planes != [] && pipe in planes[0].pipes
    ensures First(pipe, planes, n + 1) == [planes[0]] + First(pipe, planes[1..], n)
    ensures Others(pipe, planes, n + 1) == Others(pipe, planes[1..], n)
    ensures First(pipe, planes, 0) == [] && Others(pipe, planes, 0) == planes
  {
  }

  /** The first plane that is left and that the pipe can use is the next one. */
  lemma {:induction false} NextAt(pipe: nat, planes: seq<Plane>, n: nat, i: nat)
    requires i < |Others(pipe, planes, n)| && pipe in Others(pipe, planes, n)[i].pipes
    requires forall k :: 0 <= k < i ==> pipe !in Others(pipe, planes, n)[k].pipes
    ensures var from := Others(pipe, planes, n);
            && First(pipe, planes, n + 1) == First(pipe, planes, n) + [from[i]]
            && Others(pipe, planes, n + 1) == from[..i] + from[i + 1..]
    decreases |planes|
  {
    var tail := planes[1..];
    if pipe !in planes[0].pipes {
      var left := Others(pipe, tail, n);
      HeadStays(pipe, planes, n);
      HeadStays(pipe, planes, n + 1);
      assert forall k :: 0 <= k < |left| ==> left[k] == Others(pipe, planes, n)[k + 1];
      NextAt(pipe, tail, n, i - 1);
      ErasedTail(planes[0], left, i - 1);
    } else {
      HeadTaken(pipe, planes, n);
      if n > 0 {
        HeadTaken(pipe, planes, n - 1);
        NextAt(pipe, tail, n - 1, i);
      }
    }
  }

  lemma {:induction false} NextTaken(pipe: nat, planes: seq<Plane>, n: nat, plane: Plane, rest: seq<Plane>)
    requires FirstTaken(pipe, Others(pipe, planes, n), plane, rest)
    ensures First(pipe, planes, n + 1) == First(pipe, planes, n) + [plane]
    ensures Others(pipe, planes, n + 1) == rest
  {
    var from := Others(pipe, planes, n);
    var i: nat :| i < |from| && plane == from[i] && rest == from[..i] + from[i + 1..]
                  && pipe in plane.pipes && forall k :: 0 <= k < i ==> pipe !in from[k].pipes;
    NextAt(pipe, planes, n, i);
  }

  /** The planes were taken in turn: the first of the primary ones that the pipe can use, then the first overlays. */
  ghost predicate InTurn(pipe: nat, primary0: seq<Plane>, overlay0: seq<Plane>, taken: seq<Plane>,
                         primary: seq<Plane>, overlay: seq<Plane>)
  {
    var n := Min(|taken|, Usable(pipe, primary0));
    && taken == First(pipe, primary0, n) + First(pipe, overlay0, |taken| - n)
    && primary == Others(pipe, primary0, n) && overlay == Others(pipe, overlay0, |taken| - n)
  }

  lemma {:induction false} NextInTurn(pipe: nat, primary0: seq<Plane>, overlay0: seq<Plane>, taken: seq<Plane>,
                                      primary: seq<Plane>, overlay: seq<Plane>, plane: Plane,
                                      primary': seq<Plane>, overlay': seq<Plane>)
    requires InTurn(pipe, primary0, overlay0, taken, primary, overlay)
    requires Taken(pipe, primary, overlay, plane, primary', overlay')
    ensures InTurn(pipe, primary0, overlay0, taken + [plane], primary', overlay')
  {
    var n := Min(|taken|, Usable(pipe, primary0));
    FirstSize(pipe, primary0, n);
    UsableNone(pipe, primary);
    NothingTaken(pipe, overlay0);
    if exists p :: p in primary && pipe in p.pipes {
      NextPrimary(pipe, primary0, overlay0, taken, primary, plane, primary');
    } else {
      NextOverlay(pipe, primary0, overlay0, taken, overlay, plane, overlay');
    }
  }

  lemma {:induction false} NextPrimary(pipe: nat, primary0: seq<Plane>, overlay: seq<Plane>, taken: seq<Plane>,
                                       primary: seq<Plane>, plane: Plane, primary': seq<Plane>)
    requires |taken| < Usable(pipe, primary0)
    requires taken == First(pipe, primary0, |taken|) && primary == Others(pipe, primary0, |taken|)
    requires FirstTaken(pipe, primary, plane, primary')
    ensures InTurn(pipe, primary0, overlay, taken + [plane], primary', overlay)
  {
    NextTaken(pipe, primary0, |taken|, plane, primary');
    NothingTaken(pipe, overlay);
  }

  lemma {:induction false} NothingTaken(pipe: nat, planes: seq<Plane>)
    ensures First(pipe, planes, 0) == [] && Others(pipe, planes, 0) == planes
  {
  }

  lemma {:induction false} NextOverlay(pipe: nat, primary0: seq<Plane>, overlay0: seq<Plane>, taken: seq<Plane>,
                                       overlay: seq<Plane>, plane: Plane, overlay': seq<Plane>)
    requires var n := Usable(pipe, primary0);
             && n <= |taken| && taken == First(pipe, primary0, n) + First(pipe, overlay0, |taken| - n)
             && overlay == Others(pipe, overlay0, |taken| - n)
    requires FirstTaken(pipe, overlay, plane, overlay')
    ensures InTurn(pipe, primary0, overlay0, taken + [plane], Others(pipe, primary0, Usable(pipe, primary0)), overlay')
  {
    var n := Usable(pipe, primary0);
    NextTaken(pipe, overlay0, |taken| - n, plane, overlay');
    assert taken + [plane] == First(pipe, primary0, n) + (First(pipe, overlay0, |taken| - n) + [plane]);
  }

  lemma {:induction false} FirstHasPipe(pipe: nat, planes: seq<Plane>, n: nat)
    ensures forall p :: p in First(pipe, planes, n) ==> pipe in p.pipes
  {
    if n > 0 && planes != [] {
      FirstHasPipe(pipe, planes[1..], if pipe in planes[0].pipes then n - 1 else n);
    }
  }

  lemma {:induction false} FirstSplits(pipe: nat, planes: seq<Plane>, n: nat)
    ensures multiset(planes) == multiset(Others(pipe, planes, n)) + multiset(First(pipe, planes, n))
  {
    if n > 0 && planes != [] {
      var tail := planes[1..];
      assert planes == [planes[0]] + tail;
      FirstSplits(pipe, tail, if pipe in planes[0].pipes then n - 1 else n);
    }
  }

  /** The planes handed out so far were taken in turn. */
  ghost predicate Handed(pipe: nat, primary0: seq<Plane>, overlay0: seq<Plane>, cps: seq<CompositionPlane>,
                         primary: seq<Plane>, overlay: seq<Plane>)
  {
    && UsableIn(pipe, primary, overlay) + |cps| == UsableIn(pipe, primary0, overlay0)
    && InTurn(pipe, primary0, overlay0, PlanesOf(cps), primary, overlay)
  }

  /** Taking planes in turn loses none and takes only what the pipe can use. */
  lemma {:induction false} InTurnConserves(pipe: nat, primary0: seq<Plane>, overlay0: seq<Plane>, cps: seq<CompositionPlane>,
                                          primary: seq<Plane>, overlay: seq<Plane>)
    requires InTurn(pipe, primary0, overlay0, PlanesOf(cps), primary, overlay)
    ensures Conserved(primary0, overlay0, cps, primary, overlay)
    ensures forall i :: 0 <= i < |cps| ==> pipe in cps[i].plane.pipes
    ensures UsableIn(pipe, primary, overlay) + |cps| == UsableIn(pipe, primary0, overlay0)
  {
    var n := Min(|cps|, Usable(pipe, primary0));
    var m := |cps| - n;
    FirstSplits(pipe, primary0, n);
    FirstSplits(pipe, overlay0, m);
    FirstSize(pipe, primary0, n);
    FirstSize(pipe, overlay0, m);
    FirstHasPipe(pipe, primary0, n);
    FirstHasPipe(pipe, overlay0, m);
    PartsHanded(pipe, primary0, overlay0, cps, primary, overlay, First(pipe, primary0, n), First(pipe, overlay0, m));
  }

  lemma {:induction false} PartsHanded(pipe: nat, primary0: seq<Plane>, overlay0: seq<Plane>, cps: seq<CompositionPlane>,
                                       primary: seq<Plane>, overlay: seq<Plane>, a: seq<Plane>, b: seq<Plane>)
    requires PlanesOf(cps) == a + b
    requires multiset(primary0) == multiset(primary) + multiset(a) && multiset(overlay0) == multiset(overlay) + multiset(b)
    requires forall p :: p in a || p in b ==> pipe in p.pipes
    requires Usable(pipe, primary) + |a| == Usable(pipe, primary0) && Usable(pipe, overlay) + |b| == Usable(pipe, overlay0)
    ensures Conserved(primary0, overlay0, cps, primary, overlay)
    ensures forall i :: 0 <= i < |cps| ==> pipe in cps[i].plane.pipes
    ensures UsableIn(pipe, primary, overlay) + |cps| == UsableIn(pipe, primary0, overlay0)
  {
    assert multiset(a + b) == multiset(a) + multiset(b);
    forall i | 0 <= i < |cps|
      ensures pipe in cps[i].plane.pipes
    {
      assert PlanesOf(cps)[i] == (a + b)[i];
    }
  }

  lemma {:induction false} FirstSize(pipe: nat, planes: seq<Plane>, n: nat)
    ensures |First(pipe, planes, n)| == Min(n, Usable(pipe, planes))
    ensures Usable(pipe, Others(pipe, planes, n)) + |First(pipe, planes, n)| == Usable(pipe, planes)
  {
    if n > 0 && planes != [] {
      var tail := planes[1..];
      assert planes == [planes[0]] + tail;
      UsableConcat(pipe, [planes[0]], tail);
      if pipe in planes[0].pipes {
        FirstSize(pipe, tail, n - 1);
      } else {
        FirstSize(pipe, tail, n);
        UsableConcat(pipe, [planes[0]], Others(pipe, tail, n));
      }
    }
  }

  lemma {:induction false} HandedNext(pipe: nat, primary0: seq<Plane>, overlay0: seq<Plane>, cps: seq<CompositionPlane>,
                                      primary: seq<Plane>, overlay: seq<Plane>, cp: CompositionPlane,
                                      primary': seq<Plane>, overlay': seq<Plane>)
    requires Handed(pipe, primary0, overlay0, cps, primary, overlay)
    requires Taken(pipe, primary, overlay, cp.plane, primary', overlay')
    requires UsableIn(pipe, primary', overlay') == UsableIn(pipe, primary, overlay) - 1
    ensures Handed(pipe, primary0, overlay0, cps + [cp], primary', overlay')
    ensures SourcesOf(cps + [cp]) == SourcesOf(cps) + [cp.source]
  {
    ListsNext(cps, cp);
    NextInTurn(pipe, primary0, overlay0, PlanesOf(cps), primary, overlay, cp.plane, primary', overlay');
  }

  lemma {:induction false} ListsNext(cps: seq<CompositionPlane>, cp: CompositionPlane)
    ensures PlanesOf(cps + [cp]) == PlanesOf(cps) + [cp.plane]
    ensures SourcesOf(cps + [cp]) == SourcesOf(cps) + [cp.source]
  {
  }

  /** Gives the next plane to `source`; without one, nothing is added. */
  method EmplaceCompositionPlane(pipe: nat, source: Source, cps: seq<CompositionPlane>,
                                 primary: seq<Plane>, overlay: seq<Plane>,
                                 ghost primary0: seq<Plane>, ghost overlay0: seq<Plane>)
      returns (cps': seq<CompositionPlane>, primary': seq<Plane>, overlay': seq<Plane>)
    requires Handed(pipe, primary0, overlay0, cps, primary, overlay)
    ensures Handed(pipe, primary0, overlay0, cps', primary', overlay')
    ensures UsableIn(pipe, primary, overlay) > 0 ==> SourcesOf(cps') == SourcesOf(cps) + [source]
    ensures UsableIn(pipe, primary, overlay) > 0 ==>
              |cps'| == |cps| + 1 && cps'[..|cps|] == cps && Taken(pipe, primary, overlay, cps'[|cps|].plane, primary', overlay')
    ensures UsableIn(pipe, primary, overlay) == 0 ==> cps' == cps
  {
    var plane;
    plane, primary', overlay' := TakePlane(pipe, primary, overlay);
    if plane == None {
      cps' := cps;
      return;
    }
    cps' := cps + [CompositionPlane(plane.value, source)];
    HandedNext(pipe, primary0, overlay0, cps, primary, overlay, CompositionPlane(plane.value, source), primary', overlay');
  }

  // ---------------------------------------------------------------- sharing out

  /** The planes of a frame, and the layers that are left for pre-composition. */
  datatype Assignment = Assignment(
    planes: seq<CompositionPlane>,
    direct: seq<nat>,
    protectedLayers: seq<nat>,
    preComp: seq<nat>,
    squash: bool)

  function FromLayers(layers: seq<nat>): (r: seq<Source>)
    ensures |r| == |layers| && forall i :: 0 <= i < |r| ==> r[i] == FromLayer(layers[i])
  {
    seq(|layers|, i requires 0 <= i < |layers| => FromLayer(layers[i]))
  }

  function CountTrue(flags: seq<bool>): (c: nat)
    ensures c <= |flags|
  {
    if flags == [] then 0
    else CountTrue(flags[..|flags| - 1]) + if flags[|flags| - 1] then 1 else 0
  }

  /** The protected layers leave no plane for a layer that is not protected. */
  ghost predicate Starved(usable: nat, isProtected: seq<bool>) {
    CountTrue(isProtected) >= usable && |isProtected| > usable
  }

  /** A layer that is left out because the squash buffer shows all of it. */
  predicate Dropped(a: Assignment, isProtected: seq<bool>, needed: seq<bool>, j: nat)
    requires j < |isProtected| == |needed|
  {
    a.squash && !isProtected[j] && !needed[j]
  }

  /** The squash buffer shows all that is not protected. */
  ghost predicate NoneNeeded(isProtected: seq<bool>, needed: seq<bool>)
    requires |isProtected| == |needed|
  {
    forall j :: 0 <= j < |needed| && needed[j] ==> isProtected[j]
  }

  /** Whether the squash buffer gets a plane. */
  ghost predicate SquashPlane(usable: nat, isProtected: seq<bool>, needed: seq<bool>, useSquash: bool)
    requires |isProtected| == |needed|
  {
    useSquash && (usable > CountTrue(isProtected) + 1 || NoneNeeded(isProtected, needed))
  }

  /** The order of the planes, and where every layer went. */
  ghost predicate Planned(usable: nat, isProtected: seq<bool>, needed: seq<bool>, useSquash: bool, a: Assignment)
    requires |isProtected| == |needed|
  {
    && SourcesOf(a.planes) == FromLayers(a.direct)
                              + (if a.preComp == [] then [] else [PreComp])
                              + (if a.squash then [Squash] else [])
    && Increasing(a.direct) && Increasing(a.preComp) && Increasing(a.protectedLayers)
    && (forall j: nat :: j in a.protectedLayers <==> j < |isProtected| && isProtected[j])
    && |a.protectedLayers| == CountTrue(isProtected)
    && (forall j :: j in a.direct || j in a.preComp ==> j < |isProtected|)
    && (forall j: nat :: j < |isProtected| ==>
          && (j in a.direct ==> j !in a.preComp && !Dropped(a, isProtected, needed, j))
          && (j in a.preComp ==> !isProtected[j] && !Dropped(a, isProtected, needed, j))
          && (j in a.direct || j in a.preComp || Dropped(a, isProtected, needed, j)))
    && (forall i, j :: i in a.direct && j in a.preComp && !isProtected[i] ==> i < j)
    && (a.squash <==> SquashPlane(usable, isProtected, needed, useSquash))
    && |a.planes| <= usable
    && (a.preComp != [] ==> |a.planes| == usable && |a.direct| + |a.preComp| + (if a.squash then 1 else 0) > usable)
  }

  /** The elements of an increasing list are as many as its entries. */
  lemma {:induction false} IncreasingSize(s: seq<nat>)
    requires Increasing(s)
    ensures |Elements(s)| == |s|
  {
    if s != [] {
      var n := |s| - 1;
      IncreasingSize(s[..n]);
      assert forall i :: 0 <= i < n ==> s[..n][i] != s[n];
      assert Elements(s) == Elements(s[..n]) + {s[n]};
    }
  }

  function Elements(s: seq<nat>): set<nat> {
    set j | j in s
  }

  /** An increasing list is determined by its elements. */
  lemma {:induction false} IncreasingUnique(s: seq<nat>, t: seq<nat>)
    requires Increasing(s) && Increasing(t) && Elements(s) == Elements(t)
    ensures s == t
  {
    IncreasingSize(s);
    IncreasingSize(t);
    if s != [] {
      var n := |s| - 1;
      assert s[n] in Elements(t) && t[n] in Elements(s);
      assert s[n] == t[n];
      assert Elements(s[..n]) == Elements(s) - {s[n]};
      assert Elements(t[..n]) == Elements(t) - {t[n]};
      IncreasingUnique(s[..n], t[..n]);
    }
  }

  lemma {:induction false} Appended(s: seq<nat>, x: nat)
    requires Increasing(s) && forall j :: j in s ==> j < x
    ensures Increasing(s + [x])
    ensures forall j :: j in s + [x] <==> j in s || j == x
  {
    assert forall k :: 0 <= k < |s| ==> s[k] in s;
  }

  /** Of the protected layers the lowest are chosen. */
  ghost predicate LowestProtected(isProtected: seq<bool>, chosen: seq<nat>) {
    forall i: nat, j :: j in chosen && i < j && i < |isProtected| && isProtected[i] ==> i in chosen
  }

  /** The first `i` layers are shared out: the protected ones get planes while there are any. */
  ghost predicate TakenUpTo(isProtected: seq<bool>, usable: nat, i: nat, protectedLayers: seq<nat>, remaining: seq<nat>) {
    && i <= |isProtected|
    && Increasing(protectedLayers) && Increasing(remaining)
    && (forall j: nat :: j in protectedLayers ==> j < i && isProtected[j])
    && (forall j: nat :: j in remaining <==> j < i && j !in protectedLayers)
    && |protectedLayers| <= usable && |protectedLayers| + |remaining| == i
    && (|protectedLayers| < usable ==> forall j: nat :: j < i && isProtected[j] ==> j in protectedLayers)
    && LowestProtected(isProtected, protectedLayers)
    && |protectedLayers| == Min(CountTrue(isProtected[..i]), usable)
  }

  lemma {:induction false} CountNext(flags: seq<bool>, i: nat)
    requires i < |flags|
    ensures CountTrue(flags[..i + 1]) == CountTrue(flags[..i]) + if flags[i] then 1 else 0
  {
    assert flags[..i + 1][..i] == flags[..i];
  }

  lemma {:induction false} TakeNext(isProtected: seq<bool>, usable: nat, i: nat, protectedLayers: seq<nat>, remaining: seq<nat>)
    requires TakenUpTo(isProtected, usable, i, protectedLayers, remaining)
    requires i < |isProtected| && isProtected[i] && |protectedLayers| < usable
    ensures TakenUpTo(isProtected, usable, i + 1, protectedLayers + [i], remaining)
  {
    CountNext(isProtected, i);
    Appended(protectedLayers, i);
  }

  lemma {:induction false} LeaveNext(isProtected: seq<bool>, usable: nat, i: nat, protectedLayers: seq<nat>, remaining: seq<nat>)
    requires TakenUpTo(isProtected, usable, i, protectedLayers, remaining)
    requires i < |isProtected| && (!isProtected[i] || |protectedLayers| == usable)
    ensures TakenUpTo(isProtected, usable, i + 1, protectedLayers, remaining + [i])
  {
    CountNext(isProtected, i);
    Appended(remaining, i);
  }

  /** Protected layers take their planes first; `remaining` is the others. */
  method TakeProtected(isProtected: seq<bool>, usable: nat)
      returns (protectedLayers: seq<nat>, remaining: seq<nat>, left: nat)
    ensures Increasing(protectedLayers) && Increasing(remaining)
    ensures forall j: nat :: j in protectedLayers ==> j < |isProtected| && isProtected[j]
    ensures LowestProtected(isProtected, protectedLayers)
    ensures forall j: nat :: j in remaining <==> j < |isProtected| && j !in protectedLayers
    ensures left + |protectedLayers| == usable && |protectedLayers| + |remaining| == |isProtected|
    ensures left > 0 ==> forall j: nat :: j < |isProtected| && isProtected[j] ==> j in protectedLayers
    ensures |protectedLayers| == Min(CountTrue(isProtected), usable)
  {
    protectedLayers, remaining, left := [], [], usable;
    for i := 0 to |isProtected|
      invariant TakenUpTo(isProtected, usable, i, protectedLayers, remaining) && left + |protectedLayers| == usable
    {
      if !isProtected[i] || left == 0 {
        LeaveNext(isProtected, usable, i, protectedLayers, remaining);
        remaining := remaining + [i];
        continue;
      }
      TakeNext(isProtected, usable, i, protectedLayers, remaining);
      protectedLayers := protectedLayers + [i];
      left := left - 1;
    }
    assert isProtected[..|isProtected|] == isProtected;
  }

  /** The layers of a list that are still needed beside the squash buffer. */
  method StillNeeded(layers: seq<nat>, needed: seq<bool>) returns (r: seq<nat>)
    requires Increasing(layers) && forall j :: j in layers ==> j < |needed|
    ensures Increasing(r)
    ensures forall j :: j in r <==> j in layers && needed[j]
  {
    r := [];
    for i := 0 to |layers|
      invariant Increasing(r)
      invariant forall j :: j in r <==> j in layers[..i] && j < |needed| && needed[j]
    {
      assert layers[..i + 1] == layers[..i] + [layers[i]];
      assert layers[i] in layers;
      assert forall j :: j in layers[..i] ==> j < layers[i];
      assert forall k :: 0 <= k < |r| ==> r[k] in r;
      if needed[layers[i]] {
        r := r + [layers[i]];
      }
    }
    assert layers[..|layers|] == layers;
  }

  /** `direct` is the first `p` protected layers merged with the first `n` others. */
  ghost predicate Merged(direct: seq<nat>, protectedLayers: seq<nat>, p: nat, others: seq<nat>, n: nat) {
    && p <= |protectedLayers| && n <= |others|
    && |direct| == p + n
    && Increasing(direct)
    && (forall j :: j in direct <==> j in protectedLayers[..p] || j in others[..n])
    && (p < |protectedLayers| ==> forall j :: j in direct ==> j < protectedLayers[p])
    && (n < |others| ==> forall j :: j in direct ==> j < others[n])
  }

  lemma {:induction false} MergeProtected(direct: seq<nat>, protectedLayers: seq<nat>, p: nat, others: seq<nat>, n: nat)
    requires Increasing(protectedLayers)
    requires Merged(direct, protectedLayers, p, others, n)
    requires p < |protectedLayers| && (n < |others| ==> protectedLayers[p] < others[n])
    ensures Merged(direct + [protectedLayers[p]], protectedLayers, p + 1, others, n)
  {
    assert protectedLayers[..p + 1] == protectedLayers[..p] + [protectedLayers[p]];
    assert forall k :: 0 <= k < |direct| ==> direct[k] in direct;
  }

  lemma {:induction false} MergeOther(direct: seq<nat>, protectedLayers: seq<nat>, p: nat, others: seq<nat>, n: nat)
    requires Increasing(others)
    requires Merged(direct, protectedLayers, p, others, n)
    requires n < |others| && (p < |protectedLayers| ==> others[n] < protectedLayers[p])
    ensures Merged(direct + [others[n]], protectedLayers, p, others, n + 1)
  {
    assert others[..n + 1] == others[..n] + [others[n]];
    assert forall k :: 0 <= k < |direct| ==> direct[k] in direct;
  }

  /** The planes handed out show exactly the layers of `direct`. */
  ghost predicate Showing(pipe: nat, primary0: seq<Plane>, overlay0: seq<Plane>, cps: seq<CompositionPlane>,
                          direct: seq<nat>, primary: seq<Plane>, overlay: seq<Plane>)
  {
    Handed(pipe, primary0, overlay0, cps, primary, overlay) && SourcesOf(cps) == FromLayers(direct)
  }

  lemma {:induction false} NoneShown(pipe: nat, primary: seq<Plane>, overlay: seq<Plane>)
    ensures Showing(pipe, primary, overlay, [], [], primary, overlay)
  {
    assert PlanesOf([]) == [] && SourcesOf([]) == FromLayers([]);
  }

  method EmplaceLayer(pipe: nat, layer: nat, cps: seq<CompositionPlane>, ghost direct: seq<nat>,
                      primary: seq<Plane>, overlay: seq<Plane>,
                      ghost primary0: seq<Plane>, ghost overlay0: seq<Plane>)
      returns (cps': seq<CompositionPlane>, primary': seq<Plane>, overlay': seq<Plane>)
    requires Showing(pipe, primary0, overlay0, cps, direct, primary, overlay)
    requires |direct| < UsableIn(pipe, primary0, overlay0)
    ensures Showing(pipe, primary0, overlay0, cps', direct + [layer], primary', overlay')
  {
    assert |SourcesOf(cps)| == |cps|;
    cps', primary', overlay' := EmplaceCompositionPlane(pipe, FromLayer(layer), cps, primary, overlay, primary0, overlay0);
    assert FromLayers(direct + [layer]) == FromLayers(direct) + [FromLayer(layer)];
  }

  /**
   Places as many ordinary layers as the budget allows, from the bottom, with every protected
   layer at its own depth among them and the others of the protected layers after them.
   */
  method PlaceLayers(pipe: nat, protectedLayers: seq<nat>, remaining: seq<nat>, budget: nat,
                     primary: seq<Plane>, overlay: seq<Plane>)
      returns (cps: seq<CompositionPlane>, direct: seq<nat>, rest: seq<nat>, primary': seq<Plane>, overlay': seq<Plane>)
    requires Increasing(protectedLayers) && Increasing(remaining)
    requires forall j :: j in remaining ==> j !in protectedLayers
    requires |protectedLayers| + Min(budget, |remaining|) <= UsableIn(pipe, primary, overlay)
    ensures Showing(pipe, primary, overlay, cps, direct, primary', overlay')
    ensures var n := Min(budget, |remaining|);
            Merged(direct, protectedLayers, |protectedLayers|, remaining[..n], n) && rest == remaining[n..]
  {
    cps, direct, primary', overlay' := [], [], primary, overlay;
    NoneShown(pipe, primary, overlay);
    var last: nat, protectedIdx: nat, left: nat := 0, 0, budget;
    while last < |remaining| && left > 0
      invariant last <= |remaining| && left + last == budget
      invariant Showing(pipe, primary, overlay, cps, direct, primary', overlay')
      invariant Merged(direct, protectedLayers, protectedIdx, remaining, last)
      decreases |remaining| - last + |protectedLayers| - protectedIdx
    {
      var idx := remaining[last];
      assert idx in remaining;
      if protectedIdx < |protectedLayers| && idx > protectedLayers[protectedIdx] {
        cps, primary', overlay' :=
          EmplaceLayer(pipe, protectedLayers[protectedIdx], cps, direct, primary', overlay', primary, overlay);
        MergeProtected(direct, protectedLayers, protectedIdx, remaining, last);
        direct := direct + [protectedLayers[protectedIdx]];
        protectedIdx := protectedIdx + 1;
        continue;
      }
      cps, primary', overlay' := EmplaceLayer(pipe, idx, cps, direct, primary', overlay', primary, overlay);
      MergeOther(direct, protectedLayers, protectedIdx, remaining, last);
      direct := direct + [idx];
      last := last + 1;
      left := left - 1;
    }
    assert last == Min(budget, |remaining|);
    rest := remaining[last..];
    for i := protectedIdx to |protectedLayers|
      invariant Showing(pipe, primary, overlay, cps, direct, primary', overlay')
      invariant Merged(direct, protectedLayers, i, remaining[..last], last)
    {
      cps, primary', overlay' := EmplaceLayer(pipe, protectedLayers[i], cps, direct, primary', overlay', primary, overlay);
      MergeProtected(direct, protectedLayers, i, remaining[..last], last);
      direct := direct + [protectedLayers[i]];
    }
  }

  lemma {:induction false} SplitAt(s: seq<nat>, n: nat)
    requires Increasing(s) && n <= |s|
    ensures Increasing(s[n..])
    ensures forall j :: j in s <==> j in s[..n] || j in s[n..]
    ensures forall i, j :: i in s[..n] && j in s[n..] ==> i < j
  {
    assert s == s[..n] + s[n..];
  }

  /** Where every layer went, once the direct layers are merged. */
  lemma {:induction false} Partitioned(isProtected: seq<bool>, needed: seq<bool>, protectedLayers: seq<nat>, chosen: seq<nat>, n: nat, a: Assignment)
    requires |isProtected| == |needed| && n <= |chosen| && Increasing(chosen)
    requires forall j: nat :: j in protectedLayers <==> j < |isProtected| && isProtected[j]
    requires forall j: nat :: j in chosen <==> j < |isProtected| && !isProtected[j] && (a.squash ==> needed[j])
    requires Merged(a.direct, protectedLayers, |protectedLayers|, chosen[..n], n) && a.preComp == chosen[n..]
    ensures Increasing(a.direct) && Increasing(a.preComp)
    ensures forall j :: j in a.direct || j in a.preComp ==> j < |isProtected|
    ensures forall j: nat :: j < |isProtected| ==>
              && (j in a.direct ==> j !in a.preComp && !Dropped(a, isProtected, needed, j))
              && (j in a.preComp ==> !isProtected[j] && !Dropped(a, isProtected, needed, j))
              && (j in a.direct || j in a.preComp || Dropped(a, isProtected, needed, j))
    ensures forall i, j :: i in a.direct && j in a.preComp && !isProtected[i] ==> i < j
  {
    SplitAt(chosen, n);
    assert chosen[..n][..n] == chosen[..n];
    assert protectedLayers[..|protectedLayers|] == protectedLayers;
    forall j | j in a.direct
      ensures j in protectedLayers || j in chosen[..n]
    {
    }
  }

  /** Decides whether the squash buffer gets a plane. */
  method ReserveSquash(useSquash: bool, remaining: seq<nat>, needed: seq<bool>, planesCanUse: nat)
      returns (squash: bool, chosen: seq<nat>, left: nat)
    requires Increasing(remaining) && forall j :: j in remaining ==> j < |needed|
    requires planesCanUse == 0 ==> !useSquash
    ensures Increasing(chosen)
    ensures forall j :: j in chosen <==> j in remaining && (squash ==> needed[j])
    ensures squash <==> useSquash && (planesCanUse > 1 || forall j :: j in remaining ==> !needed[j])
    ensures left == if squash then planesCanUse - 1 else planesCanUse
    ensures left == 0 && (planesCanUse == 0 ==> remaining == []) ==> chosen == []
  {
    var ifSquash := StillNeeded(remaining, needed);
    squash, chosen, left := useSquash, remaining, planesCanUse;
    if squash {
      assert |ifSquash| > 0 ==> ifSquash[0] in ifSquash;
      if planesCanUse > 1 || |ifSquash| == 0 {
        chosen := ifSquash;
        left := left - 1;
      } else {
        squash := false;
      }
    }
  }

  /** The decision in terms of the layers. */
  lemma {:induction false} SquashReserved(usable: nat, isProtected: seq<bool>, needed: seq<bool>, useSquash: bool,
                                          protectedLayers: seq<nat>, ordinary: seq<nat>, squash: bool)
    requires |isProtected| == |needed|
    requires forall j: nat :: j in protectedLayers <==> j < |isProtected| && isProtected[j]
    requires forall j: nat :: j in ordinary <==> j < |isProtected| && !isProtected[j]
    requires |protectedLayers| == CountTrue(isProtected) <= usable
    requires squash <==> useSquash && (usable - |protectedLayers| > 1 || forall j :: j in ordinary ==> !needed[j])
    ensures squash <==> SquashPlane(usable, isProtected, needed, useSquash)
  {
    if NoneNeeded(isProtected, needed) {
      assert forall j :: j in ordinary ==> !needed[j];
    } else {
      var j: nat :| j < |needed| && needed[j] && !isProtected[j];
      assert j in ordinary;
    }
  }

  /**
   The unsigned budget of planes does not run below zero. It would, if the squash buffer were to
   be used while protected layers took every plane and no other layer was left.
   */
  predicate NoWrap(usable: nat, isProtected: seq<bool>, useSquash: bool) {
    useSquash && usable == |isProtected| ==> false in isProtected
  }

  /** Shares out the planes. */
  method AssignPlanes(pipe: nat, isProtected: seq<bool>, needed: seq<bool>, useSquash: bool,
                      primary: seq<Plane>, overlay: seq<Plane>)
      returns (starved: bool, a: Assignment, primary': seq<Plane>, overlay': seq<Plane>)
    requires |needed| == |isProtected|
    requires NoWrap(UsableIn(pipe, primary, overlay), isProtected, useSquash)
    requires UsableIn(pipe, primary, overlay) > 0
    ensures Handed(pipe, primary, overlay, a.planes, primary', overlay')
    ensures forall k :: 0 <= k < |a.planes| ==> pipe in a.planes[k].plane.pipes
    ensures Conserved(primary, overlay, a.planes, primary', overlay')
    ensures starved <==> Starved(UsableIn(pipe, primary, overlay), isProtected)
    ensures starved ==>
              && SourcesOf(a.planes) == FromLayers(a.direct) && Increasing(a.direct)
              && |a.direct| == UsableIn(pipe, primary, overlay)
              && (forall j :: j in a.direct ==> j < |isProtected| && isProtected[j])
              && LowestProtected(isProtected, a.direct)
              && a.preComp == [] && !a.squash
    ensures !starved ==>
              Planned(UsableIn(pipe, primary, overlay), isProtected, needed, useSquash, a)
  {
    var usable := UsableIn(pipe, primary, overlay);
    var protectedLayers, remaining, planesCanUse: nat := TakeProtected(isProtected, usable);
    starved := planesCanUse == 0 && |remaining| > 0;
    if starved {
      a, primary', overlay' := FillWithProtected(pipe, protectedLayers, primary, overlay);
      InTurnConserves(pipe, primary, overlay, a.planes, primary', overlay');
      return;
    }

    ghost var ordinary := remaining;
    if planesCanUse == 0 {
      AllTaken(isProtected, protectedLayers, usable);
    }
    var squash;
    squash, remaining, planesCanUse := ReserveSquash(useSquash, remaining, needed, planesCanUse);
    SquashReserved(usable, isProtected, needed, useSquash, protectedLayers, ordinary, squash);
    if |remaining| > planesCanUse {
      planesCanUse := planesCanUse - 1;
    }
    a, primary', overlay' := FillPlanes(pipe, protectedLayers, remaining, planesCanUse, squash, primary, overlay);
    InTurnConserves(pipe, primary, overlay, a.planes, primary', overlay');
    Partitioned(isProtected, needed, protectedLayers, remaining, Min(planesCanUse, |remaining|), a);
  }

  /** If every layer is protected and has taken a plane, there are as many layers as planes taken. */
  lemma {:induction false} AllTaken(isProtected: seq<bool>, protectedLayers: seq<nat>, taken: nat)
    requires Increasing(protectedLayers) && |protectedLayers| == taken
    requires forall j: nat :: j in protectedLayers <==> j < |isProtected|
    ensures taken == |isProtected|
  {
    var all: seq<nat> := seq(|isProtected|, j requires 0 <= j < |isProtected| => j);
    forall j: nat
      ensures j in all <==> j < |isProtected|
    {
      if j < |isProtected| {
        assert all[j] == j;
      }
    }
    IncreasingUnique(all, protectedLayers);
  }

  /** Emplaces the protected layers alone. */
  method FillWithProtected(pipe: nat, protectedLayers: seq<nat>, primary: seq<Plane>, overlay: seq<Plane>)
      returns (a: Assignment, primary': seq<Plane>, overlay': seq<Plane>)
    requires Increasing(protectedLayers)
    requires |protectedLayers| <= UsableIn(pipe, primary, overlay)
    ensures Handed(pipe, primary, overlay, a.planes, primary', overlay')
    ensures SourcesOf(a.planes) == FromLayers(a.direct) && Increasing(a.direct) && |a.direct| == |protectedLayers|
    ensures forall j :: j in a.direct <==> j in protectedLayers
    ensures a.preComp == [] && !a.squash
  {
    var cps, direct, rest;
    cps, direct, rest, primary', overlay' := PlaceLayers(pipe, protectedLayers, [], 0, primary, overlay);
    assert protectedLayers[..|protectedLayers|] == protectedLayers;
    a := Assignment(cps, direct, protectedLayers, [], false);
  }

  /** Two increasing lists of different numbers below `n` have together at most `n` entries. */
  lemma {:induction false} ListsFit(s: seq<nat>, t: seq<nat>, n: nat)
    requires Increasing(s) && Increasing(t)
    requires forall j :: j in s ==> j < n && j !in t
    requires forall j :: j in t ==> j < n
    ensures |s| + |t| <= n
  {
    assert |s| > 0 ==> s[|s| - 1] in s;
    assert |t| > 0 ==> t[|t| - 1] in t;
    if |s| > 0 && (|t| == 0 || t[|t| - 1] < s[|s| - 1]) {
      var k := |s| - 1;
      assert forall j :: j in s[..k] ==> j in s && j < s[k];
      assert forall j :: j in t ==> exists i :: 0 <= i < |t| && t[i] == j && (i < |t| - 1 ==> t[i] < t[|t| - 1]);
      ListsFit(s[..k], t, s[k]);
    } else if |t| > 0 {
      var k := |t| - 1;
      assert forall j :: j in t[..k] ==> j in t && j < t[k];
      assert forall j :: j in s ==> exists i :: 0 <= i < |s| && s[i] == j && (i < |s| - 1 ==> s[i] < s[|s| - 1]);
      ListsFit(s, t[..k], t[k]);
    }
  }

  /** Emplaces the direct layers, then the pre-composited buffer, then the squash buffer. */
  method FillPlanes(pipe: nat, protectedLayers: seq<nat>, remaining: seq<nat>, budget: nat, squash: bool,
                    primary: seq<Plane>, overlay: seq<Plane>)
      returns (a: Assignment, primary': seq<Plane>, overlay': seq<Plane>)
    requires Increasing(protectedLayers) && Increasing(remaining)
    requires forall j :: j in remaining ==> j !in protectedLayers
    requires |protectedLayers| + Min(budget, |remaining|)
             + (if budget < |remaining| then 1 else 0) + (if squash then 1 else 0)
             <= UsableIn(pipe, primary, overlay)
    ensures Handed(pipe, primary, overlay, a.planes, primary', overlay')
    ensures var n := Min(budget, |remaining|);
            && Merged(a.direct, protectedLayers, |protectedLayers|, remaining[..n], n)
            && a.preComp == remaining[n..]
    ensures a.squash == squash && a.protectedLayers == protectedLayers
    ensures SourcesOf(a.planes) == FromLayers(a.direct)
                                   + (if a.preComp == [] then [] else [PreComp])
                                   + (if a.squash then [Squash] else [])
  {
    var cps, direct, rest;
    cps, direct, rest, primary', overlay' := PlaceLayers(pipe, protectedLayers, remaining, budget, primary, overlay);
    assert |SourcesOf(cps)| == |cps|;
    if |rest| > 0 {
      cps, primary', overlay' := EmplaceCompositionPlane(pipe, PreComp, cps, primary', overlay', primary, overlay);
      assert |SourcesOf(cps)| == |cps|;
    }
    if squash {
      cps, primary', overlay' := EmplaceCompositionPlane(pipe, Squash, cps, primary', overlay', primary, overlay);
    }
    a := Assignment(cps, direct, protectedLayers, rest, squash);
  }
}
