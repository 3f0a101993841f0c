/** The plan in closed form: which layers get planes of their own, by counting. */
module PlanForm {
  import opened Separate
  import opened Planes

  /** The ordinary layers that have to be shown beside the squash buffer, if that gets a plane. */
  function Chosen(squash: bool, isProtected: seq<bool>, needed: seq<bool>): (r: seq<bool>)
    requires |isProtected| == |needed|
    ensures |r| == |isProtected|
    ensures forall j :: 0 <= j < |r| ==> (r[j] <==> !isProtected[j] && (squash ==> needed[j]))
  {
    seq(|isProtected|, j requires 0 <= j < |isProtected| => !isProtected[j] && (squash ==> needed[j]))
  }

  /** How many ordinary layers get planes: all, or all but the plane reserved for pre-composition. */
  ghost function DirectCount(usable: nat, isProtected: seq<bool>, needed: seq<bool>, useSquash: bool): nat
    requires |isProtected| == |needed|
  {
    var squash := SquashPlane(usable, isProtected, needed, useSquash);
    var left := usable - CountTrue(isProtected) - if squash then 1 else 0;
    var chosen := CountTrue(Chosen(squash, isProtected, needed));
    if chosen <= left then chosen else if left > 0 then left - 1 else 0
  }

  /** The layer has a plane of its own: it is protected, or one of the lowest that are chosen. */
  ghost predicate IsDirect(usable: nat, isProtected: seq<bool>, needed: seq<bool>, useSquash: bool, j: nat)
    requires |isProtected| == |needed|
  {
    var chosen := Chosen(SquashPlane(usable, isProtected, needed, useSquash), isProtected, needed);
    && j < |isProtected|
    && (isProtected[j] || (chosen[j] && CountTrue(chosen[..j]) < DirectCount(usable, isProtected, needed, useSquash)))
  }

  /** How many layers are pre-composited. */
  ghost function PreCompCount(usable: nat, isProtected: seq<bool>, needed: seq<bool>, useSquash: bool): int
    requires |isProtected| == |needed|
  {
    CountTrue(Chosen(SquashPlane(usable, isProtected, needed, useSquash), isProtected, needed))
    - DirectCount(usable, isProtected, needed, useSquash)
  }

  // ---------------------------------------------------------------- counting

  function TrueBelow(flags: seq<bool>, n: nat): set<nat> {
    set j: nat | j < |flags| && j < n && flags[j]
  }

  lemma {:induction false} CountIsSize(flags: seq<bool>, n: nat)
    requires n <= |flags|
    ensures |TrueBelow(flags, n)| == CountTrue(flags[..n])
  {
    if n > 0 {
      CountIsSize(flags, n - 1);
      assert flags[..n][..n - 1] == flags[..n - 1];
      assert TrueBelow(flags, n) == TrueBelow(flags, n - 1) + if flags[n - 1] then {n - 1} else {};
    }
  }

  lemma {:induction false} SubsetSize(s: set<nat>, t: set<nat>)
    requires s <= t
    ensures |s| <= |t|
    ensures s != t ==> |s| < |t|
  {
    assert t == s + (t - s);
    assert s != t ==> t - s != {};
  }

  /** The ordinary direct layers are the lowest of the chosen ones, so an element is one just when its rank is below their number. */
  lemma {:induction false} LowestByRank(all: seq<bool>, lower: set<nat>, j: nat)
    requires lower <= TrueBelow(all, |all|) && j in TrueBelow(all, |all|)
    requires forall i, k :: i in lower && k in TrueBelow(all, |all|) && k !in lower ==> i < k
    ensures j in lower <==> CountTrue(all[..j]) < |lower|
  {
    CountIsSize(all, j);
    if j in lower {
      SubsetSize(TrueBelow(all, j), lower);
    } else {
      SubsetSize(lower, TrueBelow(all, j));
    }
  }

  // ---------------------------------------------------------------- the plan

  /** The layers on planes of their own that are not protected. */
  function Ordinary(a: Assignment): set<nat> {
    Elements(a.direct) - Elements(a.protectedLayers)
  }

  /** The lists of a plan as sets: the direct ordinary layers are the lowest of those chosen. */
  ghost predicate Lowest(a: Assignment, isProtected: seq<bool>, chosen: seq<bool>)
    requires |chosen| == |isProtected|
  {
    && Increasing(a.direct) && Increasing(a.preComp) && Increasing(a.protectedLayers)
    && Ordinary(a) + Elements(a.preComp) == TrueBelow(chosen, |chosen|)
    && Ordinary(a) !! Elements(a.preComp)
    && (forall i, k :: i in Ordinary(a) && k in Elements(a.preComp) ==> i < k)
    && Elements(a.protectedLayers) <= Elements(a.direct)
    && (forall j: nat :: j in a.protectedLayers <==> j < |isProtected| && isProtected[j])
    && (forall j :: 0 <= j < |chosen| && chosen[j] ==> !isProtected[j])
    && |a.protectedLayers| == CountTrue(isProtected)
  }

  lemma {:induction false} PlanIsLowest(usable: nat, isProtected: seq<bool>, needed: seq<bool>, useSquash: bool, a: Assignment)
    requires |isProtected| == |needed|
    requires Planned(usable, isProtected, needed, useSquash, a)
    ensures Lowest(a, isProtected, Chosen(a.squash, isProtected, needed))
  {
  }

  lemma {:induction false} LowestSizes(a: Assignment, isProtected: seq<bool>, chosen: seq<bool>)
    requires |chosen| == |isProtected| && Lowest(a, isProtected, chosen)
    ensures |a.direct| == |Ordinary(a)| + CountTrue(isProtected)
    ensures |Ordinary(a)| + |a.preComp| == CountTrue(chosen)
  {
    IncreasingSize(a.direct);
    IncreasingSize(a.preComp);
    IncreasingSize(a.protectedLayers);
    CountIsSize(chosen, |chosen|);
    assert chosen[..|chosen|] == chosen;
    assert Elements(a.direct) == Ordinary(a) + Elements(a.protectedLayers);
  }

  lemma {:induction false} LowestDirect(a: Assignment, isProtected: seq<bool>, chosen: seq<bool>, j: nat)
    requires |chosen| == |isProtected| && Lowest(a, isProtected, chosen)
    ensures j in a.direct <==> j < |chosen| && (isProtected[j] || (chosen[j] && CountTrue(chosen[..j]) < |Ordinary(a)|))
  {
    assert j in a.direct <==> j in Ordinary(a) || j in a.protectedLayers;
    if j < |chosen| && chosen[j] {
      LowestByRank(chosen, Ordinary(a), j);
    } else {
      assert j !in TrueBelow(chosen, |chosen|);
    }
  }

  /** The number of planes a plan takes. */
  lemma {:induction false} PlanSize(usable: nat, isProtected: seq<bool>, needed: seq<bool>, useSquash: bool, a: Assignment)
    requires |isProtected| == |needed|
    requires Planned(usable, isProtected, needed, useSquash, a)
    ensures |a.direct| + (if a.preComp == [] then 0 else 1) + (if a.squash then 1 else 0) <= usable
    ensures a.preComp != [] ==>
              && |a.direct| + 1 + (if a.squash then 1 else 0) == usable
              && |a.direct| + |a.preComp| + (if a.squash then 1 else 0) > usable
  {
    assert |SourcesOf(a.planes)| == |a.planes|;
  }

  lemma {:induction false} PlanSizes(usable: nat, isProtected: seq<bool>, needed: seq<bool>, useSquash: bool, a: Assignment)
    requires |isProtected| == |needed|
    requires Planned(usable, isProtected, needed, useSquash, a)
    ensures |Ordinary(a)| == DirectCount(usable, isProtected, needed, useSquash)
    ensures |a.preComp| == PreCompCount(usable, isProtected, needed, useSquash)
  {
    PlanSize(usable, isProtected, needed, useSquash, a);
    PlanIsLowest(usable, isProtected, needed, useSquash, a);
    LowestSizes(a, isProtected, Chosen(a.squash, isProtected, needed));
  }

  /** Which layers have planes of their own, and how many are pre-composited. */
  lemma {:induction false} DirectIff(usable: nat, isProtected: seq<bool>, needed: seq<bool>, useSquash: bool, a: Assignment)
    requires |isProtected| == |needed|
    requires Planned(usable, isProtected, needed, useSquash, a)
    ensures forall j :: j in a.direct <==> IsDirect(usable, isProtected, needed, useSquash, j)
    ensures |a.preComp| == PreCompCount(usable, isProtected, needed, useSquash)
  {
    PlanIsLowest(usable, isProtected, needed, useSquash, a);
    PlanSizes(usable, isProtected, needed, useSquash, a);
    forall j
      ensures j in a.direct <==> IsDirect(usable, isProtected, needed, useSquash, j)
    {
      LowestDirect(a, isProtected, Chosen(a.squash, isProtected, needed), j);
    }
  }

  /** The layers that are pre-composited: those chosen that get no plane of their own. */
  ghost function RestFlags(usable: nat, isProtected: seq<bool>, needed: seq<bool>, useSquash: bool): (r: seq<bool>)
    requires |isProtected| == |needed|
    ensures |r| == |isProtected|
    ensures forall j :: 0 <= j < |r| ==>
              (r[j] <==> && Chosen(SquashPlane(usable, isProtected, needed, useSquash), isProtected, needed)[j]
                         && !IsDirect(usable, isProtected, needed, useSquash, j))
  {
    seq(|isProtected|, j requires 0 <= j < |isProtected| =>
      && Chosen(SquashPlane(usable, isProtected, needed, useSquash), isProtected, needed)[j]
      && !IsDirect(usable, isProtected, needed, useSquash, j))
  }

  /** Which layers are pre-composited, and where each is in their list. */
  lemma {:induction false} RestIff(usable: nat, isProtected: seq<bool>, needed: seq<bool>, useSquash: bool, a: Assignment)
    requires |isProtected| == |needed|
    requires Planned(usable, isProtected, needed, useSquash, a)
    ensures var rest := RestFlags(usable, isProtected, needed, useSquash);
            && (forall j: nat :: j in a.preComp <==> j < |rest| && rest[j])
            && forall k :: 0 <= k < |a.preComp| ==> a.preComp[k] < |rest| && k == CountTrue(rest[..a.preComp[k]])
  {
    var rest := RestFlags(usable, isProtected, needed, useSquash);
    DirectIff(usable, isProtected, needed, useSquash, a);
    PlanIsLowest(usable, isProtected, needed, useSquash, a);
    assert forall j :: j in a.preComp <==> j in Elements(a.preComp);
    forall j: nat
      ensures j in a.preComp <==> j < |rest| && rest[j]
    {
      assert j in Ordinary(a) + Elements(a.preComp) <==> j in TrueBelow(Chosen(a.squash, isProtected, needed), |rest|);
    }
    forall k | 0 <= k < |a.preComp|
      ensures a.preComp[k] < |rest| && k == CountTrue(rest[..a.preComp[k]])
    {
      assert a.preComp[k] in a.preComp;
      PositionIsCount(a.preComp, rest, k);
    }
  }

  /** An entry of an increasing list has as many elements before it as lie below it. */
  lemma {:induction false} PositionIsCount(list: seq<nat>, flags: seq<bool>, k: nat)
    requires Increasing(list) && k < |list|
    requires forall j: nat :: j in list <==> j < |flags| && flags[j]
    ensures list[k] < |flags| && k == CountTrue(flags[..list[k]])
  {
    assert list[k] in list;
    IncreasingSize(list[..k]);
    CountIsSize(flags, list[k]);
    forall j
      ensures j in Elements(list[..k]) <==> j in TrueBelow(flags, list[k])
    {
      if j in TrueBelow(flags, list[k]) {
        assert j in list;
        var i :| 0 <= i < |list| && list[i] == j;
        assert i < k;
        assert list[..k][i] == j;
      }
    }
    assert Elements(list[..k]) == TrueBelow(flags, list[k]);
  }

  /** A plan is determined by the number of planes, the layers, and what the squash buffer can show. */
  lemma {:induction false} PlanDetermined(usable: nat, isProtected: seq<bool>, needed: seq<bool>, useSquash: bool,
                                          a: Assignment, b: Assignment)
    requires |isProtected| == |needed|
    requires Planned(usable, isProtected, needed, useSquash, a) && Planned(usable, isProtected, needed, useSquash, b)
    ensures a.direct == b.direct && a.preComp == b.preComp && a.squash == b.squash
  {
    DirectIff(usable, isProtected, needed, useSquash, a);
    DirectIff(usable, isProtected, needed, useSquash, b);
    assert Elements(a.direct) == Elements(b.direct);
    IncreasingUnique(a.direct, b.direct);
    PlanIsLowest(usable, isProtected, needed, useSquash, a);
    PlanIsLowest(usable, isProtected, needed, useSquash, b);
    assert Elements(a.protectedLayers) == Elements(b.protectedLayers);
    assert Elements(a.preComp) == Elements(b.preComp);
    IncreasingUnique(a.preComp, b.preComp);
  }

  /** A plane is reserved for pre-composition only if two layers or more are left. */
  lemma {:induction false} NeverOneLeft(usable: nat, isProtected: seq<bool>, needed: seq<bool>, useSquash: bool, a: Assignment)
    requires |isProtected| == |needed|
    requires Planned(usable, isProtected, needed, useSquash, a)
    ensures |a.preComp| != 1
  {
    PlanSize(usable, isProtected, needed, useSquash, a);
  }
}
