/** Splitting the pre-composited layers on words, as the original does, against the same on sets. */
module Words {
  import opened Rects
  import opened Layers
  import opened IdSets
  import opened Separate

  /** The entries of `indexMap` at the set bits, from the highest bit down. */
  method SetBits(bits: nat, indexMap: seq<nat>) returns (out: seq<nat>)
    requires forall k :: k in Members(bits) ==> k < |indexMap|
    ensures forall k :: k in Descending(Members(bits), WIDTH) ==> k < |indexMap|
    ensures out == Pick(indexMap, Descending(Members(bits), WIDTH))
  {
    out := [];
    ghost var done: seq<nat> := [];
    for i := WIDTH downto 0
      invariant done == DescendingFrom(Members(bits), i, WIDTH)
      invariant forall k :: 0 <= k < |done| ==> done[k] < |indexMap|
      invariant |out| == |done| && forall k :: 0 <= k < |out| ==> out[k] == indexMap[done[k]]
    {
      BitTest(bits, i);
      if And(bits, Pow2(i)) != 0 {
        out := out + [indexMap[i]];
        done := done + [i];
      }
    }
    DescendingSplit(Members(bits), 0, WIDTH);
    assert done == Descending(Members(bits), WIDTH);
  }

  /** Clears the bits below each protected layer that the piece meets. */
  method ClearHoles(bits: nat, excludes: nat, protectedLayers: seq<nat>) returns (kept: nat)
    requires IsWord(bits) && excludes + |protectedLayers| <= WIDTH
    requires forall i :: 0 <= i < |protectedLayers| ==> excludes + |protectedLayers| + protectedLayers[i] < 31
    ensures IsWord(kept)
    ensures Members(kept) == Punch(Members(bits), excludes, excludes + |protectedLayers|, protectedLayers)
  {
    var offset := excludes + |protectedLayers|;
    var intersect := And(bits, FieldMask(|protectedLayers|, excludes));
    FieldIsRange(bits, |protectedLayers|, excludes);
    AndFits(WIDTH, bits, FieldMask(|protectedLayers|, excludes));
    ZeroIsEmpty(intersect);
    assert intersect == 0 ==> forall k :: k in Members(bits) ==> !(excludes <= k < offset) by {
      assert forall k :: k in Members(bits) && excludes <= k < offset ==> k in Members(intersect);
    }
    kept := bits;
    var i := 0;
    while intersect != 0 && i < |protectedLayers|
      invariant 0 <= i <= |protectedLayers| && IsWord(kept)
      invariant Members(kept) == Punch(Members(bits), excludes, offset, protectedLayers[..i])
    {
      MeetsTest(bits, intersect, excludes, |protectedLayers|, i);
      HoleStep(Members(bits), kept, excludes, offset, protectedLayers, i);
      if And(intersect, Pow2(i + excludes)) != 0 {
        kept := SubtractRange(kept, offset, offset + protectedLayers[i]);
      }
      i := i + 1;
    }
    if i < |protectedLayers| {
      PunchNothing(Members(bits), excludes, offset, protectedLayers, i);
    } else {
      assert protectedLayers[..i] == protectedLayers;
    }
  }

  /** The test of one bit of the intersection tells whether the piece meets that protected layer. */
  lemma {:induction false} MeetsTest(bits: nat, intersect: nat, excludes: nat, count: nat, i: nat)
    requires Members(intersect) == set k | k in Members(bits) && excludes <= k < excludes + count
    requires i < count && excludes + count <= WIDTH
    ensures And(intersect, Pow2(i + excludes)) != 0 <==> Meets(Members(bits), excludes, i)
  {
    BitTest(intersect, i + excludes);
  }

  lemma {:induction false} HoleStep(ids: set<nat>, kept: nat, excludes: nat, offset: nat, protectedLayers: seq<nat>, i: nat)
    requires i < |protectedLayers| && offset + protectedLayers[i] < 31 && IsWord(kept)
    requires Members(kept) == Punch(ids, excludes, offset, protectedLayers[..i])
    ensures var next := if Meets(ids, excludes, i) then SubtractRange(kept, offset, offset + protectedLayers[i]) else kept;
            IsWord(next) && Members(next) == Punch(ids, excludes, offset, protectedLayers[..i + 1])
  {
    PunchStep(ids, excludes, offset, protectedLayers, i);
    SubtractRangeIsDifference(kept, offset, offset + protectedLayers[i]);
    SubtractRangeFits(kept, offset, offset + protectedLayers[i]);
  }

  lemma {:induction false} PunchStep(ids: set<nat>, excludes: nat, offset: nat, protectedLayers: seq<nat>, i: nat)
    requires i < |protectedLayers|
    ensures var before := Punch(ids, excludes, offset, protectedLayers[..i]);
            Punch(ids, excludes, offset, protectedLayers[..i + 1])
            == if Meets(ids, excludes, i) then set k | k in before && !(offset <= k < offset + protectedLayers[i]) else before
  {
  }

  lemma {:induction false} PunchNothing(ids: set<nat>, excludes: nat, offset: nat, protectedLayers: seq<nat>, i: nat)
    requires i <= |protectedLayers| && forall k :: k in ids ==> !(excludes <= k < excludes + |protectedLayers|)
    ensures Punch(ids, excludes, offset, protectedLayers) == Punch(ids, excludes, offset, protectedLayers[..i])
  {
  }

  /** The region of a piece, from its word: nothing, or the same as from its set. */
  method RegionForWord(rect: Rect, bits: nat, excludes: nat, used: seq<nat>, protectedLayers: seq<nat>)
      returns (regions: seq<CompositionRegion>)
    requires IsWord(bits) && bits != 0
    requires forall k :: k in Members(bits) ==> k < excludes + |protectedLayers| + |used|
    requires excludes + |protectedLayers| + |used| <= WIDTH
    requires forall i :: 0 <= i < |protectedLayers| ==> excludes + |protectedLayers| + protectedLayers[i] < 31
    ensures var piece := RectSet(Members(bits), rect);
            regions == if Kept(piece, excludes) then [RegionOf(piece, excludes, used, protectedLayers)] else []
  {
    LowMaskTest(bits, excludes);
    if And(bits, Pow2(excludes) - 1) != 0 {
      return [];
    }
    ZeroIsEmpty(bits);
    var offset := excludes + |protectedLayers|;
    PunchKeepsSome(Members(bits), excludes, offset, protectedLayers);
    var kept := ClearHoles(bits, excludes, protectedLayers);
    ZeroIsEmpty(kept);
    if kept == 0 {
      return [];
    }
    ShiftIsMove(kept, offset);
    var sources := SetBits(ShiftDown(kept, offset), used);
    DescendingBound(ShiftRight(Members(kept), offset), |used|, WIDTH);
    regions := [CompositionRegion(rect, sources)];
  }
}
