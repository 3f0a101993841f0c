/**
 Splitting the layers of the pre-composited buffer into regions, leaving out the excluded
 rectangles and punching holes for protected layers.
 */
module Separate {
  import opened Rects
  import opened Sweep
  import opened Pieces
  import opened Layers

  ghost predicate Increasing(s: seq<nat>) {
    forall i, j :: 0 <= i < j < |s| ==> s[i] < s[j]
  }

  /** The entries of a table at the given positions. */
  function Pick(table: seq<nat>, positions: seq<nat>): (r: seq<nat>)
    requires forall k :: k in positions ==> k < |table|
    ensures |r| == |positions| && forall i :: 0 <= i < |r| ==> positions[i] in positions && r[i] == table[positions[i]]
  {
    assert forall i :: 0 <= i < |positions| ==> positions[i] in positions;
    seq(|positions|, i requires 0 <= i < |positions| => table[positions[i]])
  }

  /** The rectangles handed to the sweep: exclusions, then protected layers, then used ones. */
  function AllRects(frames: seq<Rect>, used: seq<nat>, protectedLayers: seq<nat>, exclude: seq<Rect>): (r: seq<Rect>)
    requires forall i :: 0 <= i < |used| ==> used[i] < |frames|
    requires forall i :: 0 <= i < |protectedLayers| ==> protectedLayers[i] < |frames|
    ensures |r| == |exclude| + |protectedLayers| + |used|
  {
    exclude
    + seq(|protectedLayers|, i requires 0 <= i < |protectedLayers| => frames[protectedLayers[i]])
    + seq(|used|, i requires 0 <= i < |used| => frames[used[i]])
  }

  // ---------------------------------------------------------------- specification

  /** The used positions drawn at a cell: those over it, less those punched out. */
  function Positions(frames: seq<Rect>, used: seq<nat>, protectedLayers: seq<nat>, x: int, y: int): set<nat>
    requires forall i :: 0 <= i < |used| ==> used[i] < |frames|
    requires forall i :: 0 <= i < |protectedLayers| ==> protectedLayers[i] < |frames|
  {
    set k: nat | k < |used| && frames[used[k]].Has(x, y)
                 && forall i :: 0 <= i < |protectedLayers| && frames[protectedLayers[i]].Has(x, y) ==> protectedLayers[i] <= k
  }

  ghost predicate InRegion(regions: seq<CompositionRegion>, x: int, y: int) {
    exists i :: 0 <= i < |regions| && regions[i].frame.Has(x, y)
  }

  ghost predicate CoveredBy(frames: seq<Rect>, picks: seq<nat>, x: int, y: int)
    requires forall i :: 0 <= i < |picks| ==> picks[i] < |frames|
  {
    exists i :: 0 <= i < |picks| && frames[picks[i]].Has(x, y)
  }

  ghost predicate Excluded(exclude: seq<Rect>, x: int, y: int) {
    exists i :: 0 <= i < |exclude| && exclude[i].Has(x, y)
  }

  /** What the regions mean, cell by cell. */
  ghost predicate RegionsExact(frames: seq<Rect>, used: seq<nat>, protectedLayers: seq<nat>, exclude: seq<Rect>,
                               regions: seq<CompositionRegion>)
    requires forall i :: 0 <= i < |used| ==> used[i] < |frames|
    requires forall i :: 0 <= i < |protectedLayers| ==> protectedLayers[i] < |frames|
  {
    && (forall x, y :: InRegion(regions, x, y) <==>
          !Excluded(exclude, x, y) && (CoveredBy(frames, used, x, y) || CoveredBy(frames, protectedLayers, x, y)))
    && (forall i :: 0 <= i < |regions| ==> !regions[i].frame.Empty())
    && (forall i, j :: 0 <= i < j < |regions| ==> !Overlap(regions[i].frame, regions[j].frame))
    && (forall i, x, y :: 0 <= i < |regions| && regions[i].frame.Has(x, y) ==>
          regions[i].sourceLayers == Pick(used, Descending(Positions(frames, used, protectedLayers, x, y), |used|)))
  }

  // ---------------------------------------------------------------- one region

  /** The piece with these ids meets rectangle number `i` of those that begin at `first`. */
  predicate Meets(ids: set<nat>, first: nat, i: nat) {
    first + i in ids
  }

  /** The ids left after the used positions below each intersecting protected layer are removed. */
  function Punch(ids: set<nat>, excludes: nat, offset: nat, protectedLayers: seq<nat>): set<nat> {
    set k | k in ids && forall i :: 0 <= i < |protectedLayers| && Meets(ids, excludes, i) ==>
                                !(offset <= k < offset + protectedLayers[i])
  }

  /** A set shifted down, as the right shift of its word does. */
  function ShiftRight(ids: set<nat>, offset: nat): set<nat> {
    set k | k in ids && k >= offset :: k - offset
  }

  /** The entries of `indexMap` at the elements of `s`, from the highest element down. */
  method SetBitsToVector(s: set<nat>, indexMap: seq<nat>) returns (out: seq<nat>)
    requires forall k :: k in s ==> k < |indexMap| && k < 64
    ensures forall i :: 0 <= i < |Descending(s, 64)| ==> Descending(s, 64)[i] < |indexMap|
    ensures out == Pick(indexMap, Descending(s, 64))
  {
    out := [];
    ghost var done: seq<nat> := [];
    for i := 64 downto 0
      invariant done == DescendingFrom(s, i, 64)
      invariant forall k :: 0 <= k < |done| ==> done[k] < |indexMap|
      invariant |out| == |done| && forall k :: 0 <= k < |out| ==> out[k] == indexMap[done[k]]
    {
      if i in s {
        out := out + [indexMap[i]];
        done := done + [i];
      }
    }
    DescendingSplit(s, 0, 64);
    assert done == Descending(s, 64);
  }

  /** A list read from a set does not depend on a bound above all its elements. */
  lemma {:induction false} DescendingBound(s: set<nat>, m: nat, n: nat)
    requires m <= n && forall k :: k in s ==> k < m
    ensures Descending(s, m) == Descending(s, n)
    decreases n - m
  {
    if m < n {
      DescendingBound(s, m, n - 1);
    }
  }

  // ---------------------------------------------------------------- all regions

  function RegionOf(p: RectSet, excludes: nat, used: seq<nat>, protectedLayers: seq<nat>): CompositionRegion
    requires forall k :: k in p.ids ==> k < excludes + |protectedLayers| + |used|
  {
    var kept := ShiftRight(Punch(p.ids, excludes, excludes + |protectedLayers|, protectedLayers), excludes + |protectedLayers|);
    assert forall k :: k in Descending(kept, |used|) ==> k < |used|;
    CompositionRegion(p.rect, Pick(used, Descending(kept, |used|)))
  }

  predicate Kept(p: RectSet, excludes: nat) {
    forall k :: k in p.ids ==> k >= excludes
  }

  /** The numbers below `n` of the pieces that meet no exclusion. */
  function KeptUpTo(pieces: seq<RectSet>, excludes: nat, n: nat): (r: seq<nat>)
    requires n <= |pieces|
    ensures Increasing(r)
    ensures forall k: nat :: k in r <==> k < n && Kept(pieces[k], excludes)
    ensures forall i :: 0 <= i < |r| ==> r[i] < n
  {
    if n == 0 then []
    else if Kept(pieces[n - 1], excludes) then KeptUpTo(pieces, excludes, n - 1) + [n - 1]
    else KeptUpTo(pieces, excludes, n - 1)
  }

  ghost predicate IdsBelow(pieces: seq<RectSet>, bound: nat) {
    forall i, k :: 0 <= i < |pieces| && k in pieces[i].ids ==> k < bound
  }

  /** The regions made of the kept pieces below `n`, in order. */
  ghost predicate MadeOf(regions: seq<CompositionRegion>, pieces: seq<RectSet>, n: nat, excludes: nat,
                         used: seq<nat>, protectedLayers: seq<nat>)
    requires n <= |pieces| && IdsBelow(pieces, excludes + |protectedLayers| + |used|)
  {
    var from := KeptUpTo(pieces, excludes, n);
    && |regions| == |from|
    && forall i :: 0 <= i < |from| ==> regions[i] == RegionOf(pieces[from[i]], excludes, used, protectedLayers)
  }

  /** The next piece adds its region if it is kept. */
  lemma {:induction false} MadeOfStep(regions: seq<CompositionRegion>, pieces: seq<RectSet>, n: nat, excludes: nat,
                                      used: seq<nat>, protectedLayers: seq<nat>)
    requires n < |pieces| && IdsBelow(pieces, excludes + |protectedLayers| + |used|)
    requires MadeOf(regions, pieces, n, excludes, used, protectedLayers)
    ensures forall k :: k in pieces[n].ids ==> k < excludes + |protectedLayers| + |used|
    ensures MadeOf(regions + if Kept(pieces[n], excludes) then [RegionOf(pieces[n], excludes, used, protectedLayers)] else [],
                   pieces, n + 1, excludes, used, protectedLayers)
  {
    var from, next := KeptUpTo(pieces, excludes, n), KeptUpTo(pieces, excludes, n + 1);
    assert next == from + if Kept(pieces[n], excludes) then [n] else [];
  }

  lemma {:induction false} PunchKeepsSome(ids: set<nat>, excludes: nat, offset: nat, protectedLayers: seq<nat>)
    requires ids != {} && offset == excludes + |protectedLayers|
    requires forall k :: k in ids ==> k >= excludes
    ensures Punch(ids, excludes, offset, protectedLayers) != {}
  {
    var k :| k in ids;
    if i :| 0 <= i < |protectedLayers| && Meets(ids, excludes, i) {
      assert excludes + i in Punch(ids, excludes, offset, protectedLayers);
    } else {
      assert k in Punch(ids, excludes, offset, protectedLayers);
    }
  }

  /** Removes what lies below the intersecting protected layers. */
  method PunchHoles(ids: set<nat>, excludes: nat, offset: nat, protectedLayers: seq<nat>) returns (kept: set<nat>)
    requires offset == excludes + |protectedLayers|
    // The masks are shifts of a signed 32-bit one.
    requires forall i :: 0 <= i < |protectedLayers| ==> offset + protectedLayers[i] < 31
    ensures kept == Punch(ids, excludes, offset, protectedLayers)
  {
    kept := ids;
    var intersect := set k | k in ids && excludes <= k < offset;
    var i := 0;
    while intersect != {} && i < |protectedLayers|
      invariant 0 <= i <= |protectedLayers|
      invariant kept == Punch(ids, excludes, offset, protectedLayers[..i])
    {
      assert excludes + i in intersect <==> Meets(ids, excludes, i);
      if excludes + i in intersect {
        kept := set k | k in kept && !(offset <= k < offset + protectedLayers[i]);
      }
      i := i + 1;
    }
    if i < |protectedLayers| {
      forall j | 0 <= j < |protectedLayers|
        ensures !Meets(ids, excludes, j)
      {
        assert excludes + j !in intersect;
      }
    } else {
      assert protectedLayers[..i] == protectedLayers;
    }
  }

  /** The layers to draw for a piece of which `ids` is left, from the top. */
  method SourcesLeft(ghost region: RectSet, ids: set<nat>, excludes: nat, used: seq<nat>, protectedLayers: seq<nat>)
      returns (sources: seq<nat>)
    requires forall k :: k in region.ids ==> k < excludes + |protectedLayers| + |used|
    requires |used| <= 64
    requires ids == Punch(region.ids, excludes, excludes + |protectedLayers|, protectedLayers)
    ensures sources == RegionOf(region, excludes, used, protectedLayers).sourceLayers
  {
    var kept := ShiftRight(ids, excludes + |protectedLayers|);
    DescendingBound(kept, |used|, 64);
    sources := SetBitsToVector(kept, used);
  }

  /** The region of a piece that meets no exclusion. */
  method RegionFor(region: RectSet, excludes: nat, used: seq<nat>, protectedLayers: seq<nat>)
      returns (regions: seq<CompositionRegion>)
    requires region.ids != {} && forall k :: k in region.ids ==> k < excludes + |protectedLayers| + |used|
    requires |used| <= 64
    requires forall i :: 0 <= i < |protectedLayers| ==> excludes + |protectedLayers| + protectedLayers[i] < 31
    ensures regions == if Kept(region, excludes) then [RegionOf(region, excludes, used, protectedLayers)] else []
  {
    if exists k :: k in region.ids && k < excludes {
      return [];
    }
    var offset := excludes + |protectedLayers|;
    PunchKeepsSome(region.ids, excludes, offset, protectedLayers);
    var ids := PunchHoles(region.ids, excludes, offset, protectedLayers);
    if ids == {} {
      return [];
    }
    var sources := SourcesLeft(region, ids, excludes, used, protectedLayers);
    regions := [CompositionRegion(region.rect, sources)];
  }

  method RegionsOf(pieces: seq<RectSet>, excludes: nat, used: seq<nat>, protectedLayers: seq<nat>)
      returns (regions: seq<CompositionRegion>)
    requires IdsBelow(pieces, excludes + |protectedLayers| + |used|)
    requires forall n :: 0 <= n < |pieces| ==> pieces[n].ids != {}
    requires |used| <= 64
    requires forall i :: 0 <= i < |protectedLayers| ==> excludes + |protectedLayers| + protectedLayers[i] < 31
    ensures MadeOf(regions, pieces, |pieces|, excludes, used, protectedLayers)
  {
    regions := [];
    for n := 0 to |pieces|
      invariant MadeOf(regions, pieces, n, excludes, used, protectedLayers)
    {
      var region := RegionFor(pieces[n], excludes, used, protectedLayers);
      MadeOfStep(regions, pieces, n, excludes, used, protectedLayers);
      regions := regions + region;
    }
  }

  /** The regions of the pre-composited buffer. */
  method SeparateLayers(frames: seq<Rect>, used: seq<nat>, protectedLayers: seq<nat>, exclude: seq<Rect>)
      returns (regions: seq<CompositionRegion>)
    requires forall i :: 0 <= i < |used| ==> used[i] < |frames|
    requires forall i :: 0 <= i < |protectedLayers| ==> protectedLayers[i] < |frames|
    // The count of exclusions left after truncation is an unsigned difference.
    requires |used| <= 64 ==> |used| + |protectedLayers| <= 64
    // The hole masks are shifts of a signed 32-bit one; beyond the sweep's limit there are none.
    requires |exclude| + |protectedLayers| + |used| <= MAX_ELEMENTS ==>
               forall i :: 0 <= i < |protectedLayers| ==> |exclude| + |protectedLayers| + protectedLayers[i] < 31
    ensures |exclude| + |protectedLayers| + |used| <= 32 ==>
              RegionsExact(frames, used, protectedLayers, exclude, regions)
    ensures |exclude| + |protectedLayers| + |used| > 32 ==> regions == []
  {
    regions := [];
    if |used| > 64 {
      return;
    }
    var excludes := |exclude|;
    var offset := excludes + |protectedLayers|;
    if |used| + offset > 64 {
      excludes := 64 - |used| - |protectedLayers|;
    }
    var gap := seq(|exclude| - excludes, _ => Rect(0, 0, 0, 0));
    var rects := AllRects(frames, used, protectedLayers, exclude[..excludes]);
    rects := rects[..excludes + |protectedLayers|] + gap + rects[excludes + |protectedLayers|..];
    var pieces := SeparateRects(rects);
    if |rects| <= MAX_ELEMENTS {
      assert exclude[..excludes] == exclude && gap == [];
      assert rects == AllRects(frames, used, protectedLayers, exclude);
      PieceIds(rects, pieces);
    }
    if pieces != [] {
      assert |rects| <= MAX_ELEMENTS;
      regions := RegionsOf(pieces, excludes, used, protectedLayers);
    }
    if |rects| <= MAX_ELEMENTS {
      RegionsAreExact(frames, used, protectedLayers, exclude, pieces, regions);
    }
  }

  lemma {:induction false} PieceIds(rects: seq<Rect>, pieces: seq<RectSet>)
    requires Separated(rects, pieces)
    ensures forall i :: 0 <= i < |pieces| ==> pieces[i].ids != {}
    ensures IdsBelow(pieces, |rects|)
  {
    SeparatedIsExact(rects, pieces);
    forall i, k | 0 <= i < |pieces| && k in pieces[i].ids
      ensures k < |rects|
    {
      assert Cover(rects, pieces[i].rect.left, pieces[i].rect.top) == pieces[i].ids;
    }
  }

  // ---------------------------------------------------------------- correctness of the regions

  /** Where the rectangles of the used and of the protected layers are in the list of all. */
  lemma {:induction false} RectsOf(frames: seq<Rect>, used: seq<nat>, protectedLayers: seq<nat>, exclude: seq<Rect>)
    requires forall i :: 0 <= i < |used| ==> used[i] < |frames|
    requires forall i :: 0 <= i < |protectedLayers| ==> protectedLayers[i] < |frames|
    ensures var rects := AllRects(frames, used, protectedLayers, exclude);
            && (forall i :: 0 <= i < |protectedLayers| ==> rects[|exclude| + i] == frames[protectedLayers[i]])
            && (forall i :: 0 <= i < |used| ==> rects[|exclude| + |protectedLayers| + i] == frames[used[i]])
  {
  }

  /** `ids` has the used and the protected layers over the cell. */
  ghost predicate CellIds(frames: seq<Rect>, used: seq<nat>, protectedLayers: seq<nat>, excludes: nat, ids: set<nat>, x: int, y: int)
    requires forall i :: 0 <= i < |used| ==> used[i] < |frames|
    requires forall i :: 0 <= i < |protectedLayers| ==> protectedLayers[i] < |frames|
  {
    && (forall k: nat :: Meets(ids, excludes + |protectedLayers|, k) <==> k < |used| && frames[used[k]].Has(x, y))
    && (forall i :: 0 <= i < |protectedLayers| ==> (Meets(ids, excludes, i) <==> frames[protectedLayers[i]].Has(x, y)))
  }

  /** The ids of a cell, by used layer and by protected layer. */
  lemma {:induction false} IdsOfCell(frames: seq<Rect>, used: seq<nat>, protectedLayers: seq<nat>, exclude: seq<Rect>,
                                     ids: set<nat>, x: int, y: int)
    requires forall i :: 0 <= i < |used| ==> used[i] < |frames|
    requires forall i :: 0 <= i < |protectedLayers| ==> protectedLayers[i] < |frames|
    requires ids == Cover(AllRects(frames, used, protectedLayers, exclude), x, y)
    ensures CellIds(frames, used, protectedLayers, |exclude|, ids, x, y)
  {
    var rects := AllRects(frames, used, protectedLayers, exclude);
    RectsOf(frames, used, protectedLayers, exclude);
    forall k: nat
      ensures Meets(ids, |exclude| + |protectedLayers|, k) <==> k < |used| && frames[used[k]].Has(x, y)
    {
      assert k < |used| ==> rects[|exclude| + |protectedLayers| + k] == frames[used[k]];
    }
    forall i | 0 <= i < |protectedLayers|
      ensures Meets(ids, |exclude|, i) <==> frames[protectedLayers[i]].Has(x, y)
    {
      assert rects[|exclude| + i] == frames[protectedLayers[i]];
    }
  }

  /** In a piece, position `k` is drawn just when it covers the cell and is not punched out. */
  lemma {:induction false} PositionsOfPiece(frames: seq<Rect>, used: seq<nat>, protectedLayers: seq<nat>, exclude: seq<Rect>,
                                            ids: set<nat>, x: int, y: int)
    requires forall i :: 0 <= i < |used| ==> used[i] < |frames|
    requires forall i :: 0 <= i < |protectedLayers| ==> protectedLayers[i] < |frames|
    requires ids == Cover(AllRects(frames, used, protectedLayers, exclude), x, y)
    ensures ShiftRight(Punch(ids, |exclude|, |exclude| + |protectedLayers|, protectedLayers), |exclude| + |protectedLayers|)
         == Positions(frames, used, protectedLayers, x, y)
  {
    IdsOfCell(frames, used, protectedLayers, exclude, ids, x, y);
    PunchedPositions(frames, used, protectedLayers, |exclude|, ids, x, y);
  }

  lemma {:induction false} PunchedPositions(frames: seq<Rect>, used: seq<nat>, protectedLayers: seq<nat>, excludes: nat,
                                            ids: set<nat>, x: int, y: int)
    requires forall i :: 0 <= i < |used| ==> used[i] < |frames|
    requires forall i :: 0 <= i < |protectedLayers| ==> protectedLayers[i] < |frames|
    requires CellIds(frames, used, protectedLayers, excludes, ids, x, y)
    ensures ShiftRight(Punch(ids, excludes, excludes + |protectedLayers|, protectedLayers), excludes + |protectedLayers|)
         == Positions(frames, used, protectedLayers, x, y)
  {
    var offset := excludes + |protectedLayers|;
    forall k: nat
      ensures k in ShiftRight(Punch(ids, excludes, offset, protectedLayers), offset)
              <==> k in Positions(frames, used, protectedLayers, x, y)
    {
      ShiftedHas(Punch(ids, excludes, offset, protectedLayers), offset, k);
      assert Meets(ids, offset, k) <==> k < |used| && frames[used[k]].Has(x, y);
    }
  }

  lemma {:induction false} ShiftedHas(s: set<nat>, offset: nat, k: nat)
    ensures k in ShiftRight(s, offset) <==> offset + k in s
  {
    if offset + k in s {
      assert offset + k - offset == k;
    }
  }

  lemma {:induction false} KeptIffOutside(frames: seq<Rect>, used: seq<nat>, protectedLayers: seq<nat>, exclude: seq<Rect>,
                                          p: RectSet, x: int, y: int)
    requires forall i :: 0 <= i < |used| ==> used[i] < |frames|
    requires forall i :: 0 <= i < |protectedLayers| ==> protectedLayers[i] < |frames|
    requires p.ids == Cover(AllRects(frames, used, protectedLayers, exclude), x, y)
    ensures Kept(p, |exclude|) <==> !Excluded(exclude, x, y)
  {
    var rects := AllRects(frames, used, protectedLayers, exclude);
    assert forall i :: 0 <= i < |exclude| ==> rects[i] == exclude[i];
    if i :| 0 <= i < |exclude| && exclude[i].Has(x, y) {
      assert i in p.ids;
    }
  }

  lemma {:induction false} CoveredIffSome(frames: seq<Rect>, used: seq<nat>, protectedLayers: seq<nat>, exclude: seq<Rect>, x: int, y: int)
    requires forall i :: 0 <= i < |used| ==> used[i] < |frames|
    requires forall i :: 0 <= i < |protectedLayers| ==> protectedLayers[i] < |frames|
    requires !Excluded(exclude, x, y)
    ensures Cover(AllRects(frames, used, protectedLayers, exclude), x, y) != {} <==>
            CoveredBy(frames, used, x, y) || CoveredBy(frames, protectedLayers, x, y)
  {
    var e, offset := |exclude|, |exclude| + |protectedLayers|;
    var rects := AllRects(frames, used, protectedLayers, exclude);
    var cover := Cover(rects, x, y);
    assert forall i :: 0 <= i < |exclude| ==> rects[i] == exclude[i];
    assert forall i :: 0 <= i < |protectedLayers| ==> rects[e + i] == frames[protectedLayers[i]];
    assert forall i :: 0 <= i < |used| ==> rects[offset + i] == frames[used[i]];
    if i :| 0 <= i < |used| && frames[used[i]].Has(x, y) {
      assert offset + i in cover;
    }
    if i :| 0 <= i < |protectedLayers| && frames[protectedLayers[i]].Has(x, y) {
      assert e + i in cover;
    }
    if k :| k in cover {
      assert k >= e;
      if k < offset {
        assert frames[protectedLayers[k - e]].Has(x, y);
      } else {
        assert frames[used[k - offset]].Has(x, y);
      }
    }
  }

  /** What a kept piece draws at each of its cells. */
  lemma {:induction false} RegionOfPiece(frames: seq<Rect>, used: seq<nat>, protectedLayers: seq<nat>, exclude: seq<Rect>,
                                         p: RectSet, x: int, y: int)
    requires forall i :: 0 <= i < |used| ==> used[i] < |frames|
    requires forall i :: 0 <= i < |protectedLayers| ==> protectedLayers[i] < |frames|
    requires p.ids == Cover(AllRects(frames, used, protectedLayers, exclude), x, y) && p.ids != {}
    requires Kept(p, |exclude|)
    ensures forall k :: k in p.ids ==> k < |exclude| + |protectedLayers| + |used|
    ensures RegionOf(p, |exclude|, used, protectedLayers).sourceLayers
         == Pick(used, Descending(Positions(frames, used, protectedLayers, x, y), |used|))
    ensures !Excluded(exclude, x, y) && (CoveredBy(frames, used, x, y) || CoveredBy(frames, protectedLayers, x, y))
  {
    PositionsOfPiece(frames, used, protectedLayers, exclude, p.ids, x, y);
    KeptIffOutside(frames, used, protectedLayers, exclude, p, x, y);
    CoveredIffSome(frames, used, protectedLayers, exclude, x, y);
  }

  lemma {:induction false} RegionsAreExact(frames: seq<Rect>, used: seq<nat>, protectedLayers: seq<nat>, exclude: seq<Rect>,
                                           pieces: seq<RectSet>, regions: seq<CompositionRegion>)
    requires forall i :: 0 <= i < |used| ==> used[i] < |frames|
    requires forall i :: 0 <= i < |protectedLayers| ==> protectedLayers[i] < |frames|
    requires Separated(AllRects(frames, used, protectedLayers, exclude), pieces)
    requires IdsBelow(pieces, |exclude| + |protectedLayers| + |used|)
    requires MadeOf(regions, pieces, |pieces|, |exclude|, used, protectedLayers)
    ensures RegionsExact(frames, used, protectedLayers, exclude, regions)
  {
    SeparatedIsExact(AllRects(frames, used, protectedLayers, exclude), pieces);
    forall x, y
      ensures InRegion(regions, x, y) <==>
              !Excluded(exclude, x, y) && (CoveredBy(frames, used, x, y) || CoveredBy(frames, protectedLayers, x, y))
    {
      if i: nat :| i < |regions| && regions[i].frame.Has(x, y) {
        RegionDraws(frames, used, protectedLayers, exclude, pieces, regions, i, x, y);
      }
      if !Excluded(exclude, x, y) && (CoveredBy(frames, used, x, y) || CoveredBy(frames, protectedLayers, x, y)) {
        var i := KeptPieceAt(frames, used, protectedLayers, exclude, pieces, x, y);
        assert regions[i].frame.Has(x, y);
      }
    }
    forall i: nat, x, y | i < |regions| && regions[i].frame.Has(x, y)
      ensures regions[i].sourceLayers == Pick(used, Descending(Positions(frames, used, protectedLayers, x, y), |used|))
    {
      RegionDraws(frames, used, protectedLayers, exclude, pieces, regions, i, x, y);
    }
    RegionsDisjoint(used, protectedLayers, |exclude|, pieces, regions);
  }

  lemma {:induction false} RegionsDisjoint(used: seq<nat>, protectedLayers: seq<nat>, excludes: nat,
                                           pieces: seq<RectSet>, regions: seq<CompositionRegion>)
    requires IdsBelow(pieces, excludes + |protectedLayers| + |used|)
    requires MadeOf(regions, pieces, |pieces|, excludes, used, protectedLayers)
    requires forall k :: 0 <= k < |pieces| ==> !pieces[k].rect.Empty()
    requires forall j, k :: 0 <= j < k < |pieces| ==> !Overlap(pieces[j].rect, pieces[k].rect)
    ensures forall i :: 0 <= i < |regions| ==> !regions[i].frame.Empty()
    ensures forall i, j :: 0 <= i < j < |regions| ==> !Overlap(regions[i].frame, regions[j].frame)
  {
    var from := KeptUpTo(pieces, excludes, |pieces|);
    forall i, j | 0 <= i < j < |regions|
      ensures !Overlap(regions[i].frame, regions[j].frame)
    {
      assert !Overlap(pieces[from[i]].rect, pieces[from[j]].rect);
    }
  }

  lemma {:induction false} RegionDraws(frames: seq<Rect>, used: seq<nat>, protectedLayers: seq<nat>, exclude: seq<Rect>,
                                       pieces: seq<RectSet>, regions: seq<CompositionRegion>, i: nat, x: int, y: int)
    requires forall i :: 0 <= i < |used| ==> used[i] < |frames|
    requires forall i :: 0 <= i < |protectedLayers| ==> protectedLayers[i] < |frames|
    requires Exact(AllRects(frames, used, protectedLayers, exclude), pieces)
    requires IdsBelow(pieces, |exclude| + |protectedLayers| + |used|)
    requires MadeOf(regions, pieces, |pieces|, |exclude|, used, protectedLayers)
    requires i < |regions| && regions[i].frame.Has(x, y)
    ensures regions[i].sourceLayers == Pick(used, Descending(Positions(frames, used, protectedLayers, x, y), |used|))
    ensures !Excluded(exclude, x, y) && (CoveredBy(frames, used, x, y) || CoveredBy(frames, protectedLayers, x, y))
  {
    var from := KeptUpTo(pieces, |exclude|, |pieces|);
    assert from[i] in from;
    RegionOfPiece(frames, used, protectedLayers, exclude, pieces[from[i]], x, y);
  }

  lemma {:induction false} KeptPieceAt(frames: seq<Rect>, used: seq<nat>, protectedLayers: seq<nat>, exclude: seq<Rect>,
                                       pieces: seq<RectSet>, x: int, y: int) returns (i: nat)
    requires forall i :: 0 <= i < |used| ==> used[i] < |frames|
    requires forall i :: 0 <= i < |protectedLayers| ==> protectedLayers[i] < |frames|
    requires Exact(AllRects(frames, used, protectedLayers, exclude), pieces)
    requires !Excluded(exclude, x, y)
    requires CoveredBy(frames, used, x, y) || CoveredBy(frames, protectedLayers, x, y)
    ensures var from := KeptUpTo(pieces, |exclude|, |pieces|);
            i < |from| && pieces[from[i]].rect.Has(x, y)
  {
    CoveredIffSome(frames, used, protectedLayers, exclude, x, y);
    assert Covered(pieces, x, y);
    var n :| 0 <= n < |pieces| && pieces[n].rect.Has(x, y);
    KeptIffOutside(frames, used, protectedLayers, exclude, pieces[n], x, y);
    var from := KeptUpTo(pieces, |exclude|, |pieces|);
    assert n in from;
    i :| 0 <= i < |from| && from[i] == n;
  }

  // ---------------------------------------------------------------- consequences

  /** A region drawn over a protected layer has only layers above it. */
  lemma {:induction false} HoleIsSafe(frames: seq<Rect>, used: seq<nat>, protectedLayers: seq<nat>, exclude: seq<Rect>,
                                      regions: seq<CompositionRegion>, i: nat, p: nat, l: nat)
    requires Increasing(used) && forall k :: 0 <= k < |used| ==> used[k] < |frames|
    requires forall k :: 0 <= k < |protectedLayers| ==> protectedLayers[k] < |frames|
    requires RegionsExact(frames, used, protectedLayers, exclude, regions)
    requires p in protectedLayers && p !in used
    requires i < |regions| && Overlap(regions[i].frame, frames[p]) && l in regions[i].sourceLayers
    ensures l > p
  {
    var x, y :| regions[i].frame.Has(x, y) && frames[p].Has(x, y);
    var positions := Descending(Positions(frames, used, protectedLayers, x, y), |used|);
    var n :| 0 <= n < |regions[i].sourceLayers| && regions[i].sourceLayers[n] == l;
    assert positions[n] in positions;
    var j :| 0 <= j < |protectedLayers| && protectedLayers[j] == p;
    assert protectedLayers[j] <= positions[n];
    PositionBelowIndex(used, positions[n]);
  }

  /** In an increasing list no entry is below its position. */
  lemma {:induction false} PositionBelowIndex(used: seq<nat>, k: nat)
    requires Increasing(used) && k < |used|
    ensures k <= used[k]
  {
    if k > 0 {
      PositionBelowIndex(used, k - 1);
    }
  }

  /** The used positions that a hole for `p` should leave: those of the layers above it. */
  ghost predicate HoleIsExact(used: seq<nat>, p: nat) {
    forall k: nat :: k < |used| ==> (p <= k <==> used[k] > p)
  }

  /** If all layers up to `k` are used, they are the first ones. */
  lemma {:induction false} FirstEntries(used: seq<nat>, k: nat)
    requires Increasing(used) && forall l: nat :: l <= k ==> l in used
    ensures k < |used| && used[k] == k
  {
    if k > 0 {
      FirstEntries(used, k - 1);
    }
    assert k in used;
    var j: nat :| j < |used| && used[j] == k;
    PositionBelowIndex(used, j);
    assert k > 0 ==> used[k - 1] == k - 1;
  }

  /** If the entry at `n` is as low as it can be, so are those before it. */
  lemma {:induction false} TightBelow(used: seq<nat>, n: nat, k: nat)
    requires Increasing(used) && k <= n < |used| && used[n] <= n
    ensures used[k] == k
    decreases n - k
  {
    PositionBelowIndex(used, k);
    if k < n {
      TightBelow(used, n, k + 1);
    }
  }

  /**
   The hole removes by position what should be removed by layer. It removes just the layers
   below the protected one if and only if all of those are used, or no layer above it is.
   */
  lemma {:induction false} HoleExactIff(used: seq<nat>, p: nat)
    requires Increasing(used) && p !in used
    ensures HoleIsExact(used, p) <==> (forall l: nat :: l < p ==> l in used) || (forall l :: l in used ==> l < p)
  {
    forall k: nat | k < |used|
      ensures used[k] in used && used[k] != p && k <= used[k]
    {
      PositionBelowIndex(used, k);
    }
    if forall l: nat :: l < p ==> l in used {
      forall k: nat | k < |used| && k < p
        ensures used[k] < p
      {
        FirstEntries(used, k);
      }
    } else if HoleIsExact(used, p) && |used| > p {
      assert used[p] > p;
      forall l: nat | l < p
        ensures l in used
      {
        assert used[p - 1] < p;
        TightBelow(used, p - 1, l);
      }
    }
  }

  /** The layers at the given positions. */
  function LayersAt(used: seq<nat>, positions: set<nat>): set<nat> {
    set k | k in positions && k < |used| :: used[k]
  }

  /** Reading positions from the top down reads the layers from the top down. */
  lemma {:induction false} PickDescending(used: seq<nat>, positions: set<nat>, n: nat)
    requires Increasing(used) && forall k :: 0 <= k < |used| ==> used[k] < n
    ensures forall k :: k in Descending(positions, |used|) ==> k < |used|
    ensures Pick(used, Descending(positions, |used|)) == Descending(LayersAt(used, positions), n)
  {
    var order := Descending(positions, |used|);
    var sources, layers := Pick(used, order), Descending(LayersAt(used, positions), n);
    forall l
      ensures l in sources <==> l in layers
    {
      if l in layers {
        var k :| k in positions && k < |used| && used[k] == l;
        assert k in order;
        var m :| 0 <= m < |order| && order[m] == k;
        assert sources[m] == l;
      }
    }
    forall i, j | 0 <= i < j < |sources|
      ensures sources[i] > sources[j]
    {
      assert order[i] > order[j];
    }
    DescendingUnique(sources, layers);
  }

  /** Without protected layers the sources of a region are all used layers over it, top first. */
  lemma {:induction false} SourcesWithoutProtected(frames: seq<Rect>, used: seq<nat>, exclude: seq<Rect>,
                                                   regions: seq<CompositionRegion>, i: nat, x: int, y: int)
    requires Increasing(used) && forall k :: 0 <= k < |used| ==> used[k] < |frames|
    requires RegionsExact(frames, used, [], exclude, regions)
    requires i < |regions| && regions[i].frame.Has(x, y)
    ensures regions[i].sourceLayers == Descending(set l | l in used && l < |frames| && frames[l].Has(x, y), |frames|)
  {
    var positions := Positions(frames, used, [], x, y);
    PickDescending(used, positions, |frames|);
    var covering := set l | l in used && l < |frames| && frames[l].Has(x, y);
    forall l
      ensures l in LayersAt(used, positions) <==> l in covering
    {
      if l in covering {
        var k :| 0 <= k < |used| && used[k] == l;
        assert k in positions;
      }
    }
    assert LayersAt(used, positions) == covering;
  }

  /** Every source of a region is a used layer. */
  lemma {:induction false} SourceIsUsed(frames: seq<Rect>, used: seq<nat>, protectedLayers: seq<nat>, exclude: seq<Rect>,
                                        regions: seq<CompositionRegion>, i: nat, l: nat)
    requires forall k :: 0 <= k < |used| ==> used[k] < |frames|
    requires forall k :: 0 <= k < |protectedLayers| ==> protectedLayers[k] < |frames|
    requires RegionsExact(frames, used, protectedLayers, exclude, regions)
    requires i < |regions| && l in regions[i].sourceLayers
    ensures l in used
  {
    var r := regions[i].frame;
    assert r.Has(r.left, r.top);
    var positions := Descending(Positions(frames, used, protectedLayers, r.left, r.top), |used|);
    assert regions[i].sourceLayers == Pick(used, positions);
    var n :| 0 <= n < |regions[i].sourceLayers| && regions[i].sourceLayers[n] == l;
    assert positions[n] in positions;
  }
}
