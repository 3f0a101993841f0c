/** What the output of the sweep means: exactness, canonicity and conservation of area. */
module Pieces {
  import opened Rects
  import opened Sweep

  // ---------------------------------------------------------------- cells

  /** Every covered cell lies in a maximal run of its column. */
  lemma {:induction false} RunAt(rects: seq<Rect>, x: int, y: int) returns (s: Strip)
    requires Cover(rects, x, y) != {}
    ensures s.top <= y < s.bottom && IsRun(rects, x, s)
  {
    var ids := Cover(rects, x, y);
    var i :| i in ids;
    var top, bottom := y, y + 1;
    while Cover(rects, x, top - 1) == ids
      invariant top <= y && forall z :: top <= z <= y ==> Cover(rects, x, z) == ids
      decreases top - rects[i].top
    {
      top := top - 1;
      assert i in Cover(rects, x, top);
    }
    while Cover(rects, x, bottom) == ids
      invariant y < bottom && forall z :: y <= z < bottom ==> Cover(rects, x, z) == ids
      decreases rects[i].bottom - bottom
    {
      assert i in Cover(rects, x, bottom);
      bottom := bottom + 1;
    }
    s := Strip(top, bottom, ids);
  }

  /** Every covered cell lies in a piece. */
  lemma {:induction false} PieceAt(rects: seq<Rect>, x: int, y: int) returns (p: RectSet)
    requires Cover(rects, x, y) != {}
    ensures IsPiece(rects, p) && p.rect.Has(x, y)
  {
    var s := RunAt(rects, x, y);
    var i :| i in s.ids;
    assert i in Cover(rects, x, s.top);
    var left, right := x, x + 1;
    while IsRun(rects, left - 1, s)
      invariant left <= x && forall c :: left <= c <= x ==> IsRun(rects, c, s)
      decreases left - rects[i].left
    {
      left := left - 1;
      assert i in Cover(rects, left, s.top);
    }
    while IsRun(rects, right, s)
      invariant x < right && forall c :: x <= c < right ==> IsRun(rects, c, s)
      decreases rects[i].right - right
    {
      assert i in Cover(rects, right, s.top);
      right := right + 1;
    }
    p := RectSet(s.ids, Rect(left, s.top, right, s.bottom));
    assert StripOf(p) == s;
  }

  /** The id set of a piece is the cover of each of its cells. */
  lemma {:induction false} PieceCover(rects: seq<Rect>, p: RectSet, x: int, y: int)
    requires IsPiece(rects, p) && p.rect.Has(x, y)
    ensures Cover(rects, x, y) == p.ids
  {
    assert IsRun(rects, x, StripOf(p));
  }

  /** Two runs of a column that share a row are the same run. */
  lemma {:induction false} RunUnique(rects: seq<Rect>, x: int, y: int, s: Strip, t: Strip)
    requires IsRun(rects, x, s) && IsRun(rects, x, t)
    requires s.top <= y < s.bottom && t.top <= y < t.bottom
    ensures s == t
  {
    assert Cover(rects, x, y) == s.ids == t.ids;
    assert s.top < t.top ==> Cover(rects, x, t.top - 1) == s.ids;
    assert t.top < s.top ==> Cover(rects, x, s.top - 1) == t.ids;
    assert s.bottom < t.bottom ==> Cover(rects, x, s.bottom) == t.ids;
    assert t.bottom < s.bottom ==> Cover(rects, x, t.bottom) == s.ids;
  }

  /** Two pieces that share a cell are the same piece. */
  lemma {:induction false} PieceUnique(rects: seq<Rect>, x: int, y: int, p: RectSet, q: RectSet)
    requires IsPiece(rects, p) && IsPiece(rects, q)
    requires p.rect.Has(x, y) && q.rect.Has(x, y)
    ensures p == q
  {
    var s := StripOf(p);
    RunUnique(rects, x, y, s, StripOf(q));
    assert p.rect.left < q.rect.left ==> IsRun(rects, q.rect.left - 1, s);
    assert q.rect.left < p.rect.left ==> IsRun(rects, p.rect.left - 1, s);
    assert p.rect.right < q.rect.right ==> IsRun(rects, p.rect.right, s);
    assert q.rect.right < p.rect.right ==> IsRun(rects, q.rect.right, s);
  }

  // ---------------------------------------------------------------- the documented contract

  ghost predicate Overlap(r: Rect, q: Rect) {
    exists x, y :: r.Has(x, y) && q.Has(x, y)
  }

  /** Disjoint rectangles over the same area, each with the indices of the inputs over it. */
  ghost predicate Exact(rects: seq<Rect>, out: seq<RectSet>) {
    && (forall k :: 0 <= k < |out| ==> !out[k].rect.Empty() && out[k].ids != {})
    && (forall j, k :: 0 <= j < k < |out| ==> !Overlap(out[j].rect, out[k].rect))
    && (forall k, x, y :: 0 <= k < |out| && out[k].rect.Has(x, y) ==> Cover(rects, x, y) == out[k].ids)
    && (forall x, y :: Cover(rects, x, y) != {} ==> Covered(out, x, y))
  }

  ghost predicate Covered(out: seq<RectSet>, x: int, y: int) {
    exists k :: 0 <= k < |out| && out[k].rect.Has(x, y)
  }

  lemma {:induction false} SeparatedIsExact(rects: seq<Rect>, out: seq<RectSet>)
    requires Separated(rects, out)
    ensures Exact(rects, out)
  {
    forall k | 0 <= k < |out|
      ensures !out[k].rect.Empty() && out[k].ids != {}
    {
      assert out[k] in out;
      assert IsRun(rects, out[k].rect.left, StripOf(out[k]));
    }
    forall k, x, y | 0 <= k < |out| && out[k].rect.Has(x, y)
      ensures Cover(rects, x, y) == out[k].ids
    {
      assert out[k] in out;
      PieceCover(rects, out[k], x, y);
    }
    forall j, k | 0 <= j < k < |out|
      ensures !Overlap(out[j].rect, out[k].rect)
    {
      assert out[j] in out && out[k] in out;
      if x, y :| out[j].rect.Has(x, y) && out[k].rect.Has(x, y) {
        PieceUnique(rects, x, y, out[j], out[k]);
      }
    }
    forall x, y | Cover(rects, x, y) != {}
      ensures Covered(out, x, y)
    {
      var p := PieceAt(rects, x, y);
      assert p in out;
    }
  }

  /**
   The header promises the contract for up to 64 inputs. The code meets it exactly up to 32,
   and beyond that only when there is nothing to cover.
   */
  lemma {:induction false} ContractIffWithinGuard(rects: seq<Rect>, out: seq<RectSet>)
    requires |rects| <= 32 ==> Separated(rects, out)
    requires |rects| > 32 ==> out == []
    ensures Exact(rects, out) <==> |rects| <= 32 || NonEmpty(rects) == {}
  {
    if |rects| <= 32 {
      SeparatedIsExact(rects, out);
    } else if NonEmpty(rects) == {} {
      forall x, y
        ensures Cover(rects, x, y) == {}
      {
        assert forall i :: i in Cover(rects, x, y) ==> i in NonEmpty(rects);
      }
    } else {
      var i :| i in NonEmpty(rects);
      assert i in Cover(rects, rects[i].left, rects[i].top);
      assert !Covered(out, rects[i].left, rects[i].top);
    }
  }

  /** Thirty-three unit squares, fewer than the documented 64, get no output. */
  lemma {:induction false} ThirtyThreeInputs() returns (rects: seq<Rect>)
    ensures |rects| == 33 && !Exact(rects, [])
  {
    rects := seq(33, _ => Rect(0, 0, 1, 1));
    assert 0 in NonEmpty(rects);
    ContractIffWithinGuard(rects, []);
  }

  /** Thirty-two get one: every output for them is exact, and not empty. */
  lemma {:induction false} ThirtyTwoInputs(rects: seq<Rect>, out: seq<RectSet>)
    requires |rects| == 32 && Separated(rects, out) && NonEmpty(rects) != {}
    ensures Exact(rects, out) && out != []
  {
    ContractIffWithinGuard(rects, out);
    var i :| i in NonEmpty(rects);
    assert i in Cover(rects, rects[i].left, rects[i].top);
    assert Covered(out, rects[i].left, rects[i].top);
  }

  // ---------------------------------------------------------------- canonicity

  /** No two outputs with the same ids, top and bottom touch along a vertical edge. */
  lemma {:induction false} NoVerticalSeam(rects: seq<Rect>, out: seq<RectSet>, p: RectSet, q: RectSet)
    requires Separated(rects, out) && p in out && q in out
    requires StripOf(p) == StripOf(q)
    ensures p.rect.right != q.rect.left
  {
    assert IsRun(rects, q.rect.left, StripOf(q));
  }

  /** No two outputs with the same ids share part of a horizontal edge. */
  lemma {:induction false} NoHorizontalSeam(rects: seq<Rect>, out: seq<RectSet>, p: RectSet, q: RectSet, x: int)
    requires Separated(rects, out) && p in out && q in out
    requires p.rect.left <= x < p.rect.right && q.rect.left <= x < q.rect.right
    requires p.ids == q.ids
    ensures p.rect.bottom != q.rect.top
  {
    assert IsRun(rects, x, StripOf(p)) && IsRun(rects, x, StripOf(q));
  }

  /** The output is determined by the input, up to its order. */
  lemma {:induction false} OutputUnique(rects: seq<Rect>, out: seq<RectSet>, out': seq<RectSet>)
    requires Separated(rects, out) && Separated(rects, out')
    ensures multiset(out) == multiset(out')
  {
    forall p
      ensures multiset(out)[p] == multiset(out')[p]
    {
      DistinctCount(out, p);
      DistinctCount(out', p);
      assert p in out <==> p in out';
    }
  }

  lemma {:induction false} DistinctCount<T>(s: seq<T>, x: T)
    requires Distinct(s)
    ensures multiset(s)[x] == if x in s then 1 else 0
  {
    if s != [] {
      DistinctCount(s[1..], x);
      assert s == [s[0]] + s[1..];
    }
  }

  // ---------------------------------------------------------------- area

  ghost function Cells(r: Rect): set<(int, int)> {
    set x: int, y: int | r.left <= x < r.right && r.top <= y < r.bottom :: (x, y)
  }

  lemma {:induction false} ColumnSize(x: int, top: int, bottom: int)
    requires top <= bottom
    ensures |Cells(Rect(x, top, x + 1, bottom))| == bottom - top
    decreases bottom - top
  {
    if top < bottom {
      ColumnSize(x, top, bottom - 1);
      assert Cells(Rect(x, top, x + 1, bottom)) == Cells(Rect(x, top, x + 1, bottom - 1)) + {(x, bottom - 1)};
    } else {
      assert Cells(Rect(x, top, x + 1, bottom)) == {};
    }
  }

  lemma {:induction false} CellsSize(r: Rect)
    requires r.left <= r.right && r.top <= r.bottom
    ensures |Cells(r)| == r.Area()
    decreases r.Width()
  {
    if r.left < r.right {
      var rest, last := r.(right := r.right - 1), Rect(r.right - 1, r.top, r.right - 1 + 1, r.bottom);
      CellsSize(rest);
      ColumnSize(r.right - 1, r.top, r.bottom);
      SplitLastColumn(r, rest, last);
      Distribute(r.Width() - 1, r.Height());
    } else {
      assert Cells(r) == {};
    }
  }

  lemma {:induction false} SplitLastColumn(r: Rect, rest: Rect, last: Rect)
    requires r.left < r.right && rest == r.(right := r.right - 1) && last == r.(left := r.right - 1)
    ensures |Cells(r)| == |Cells(rest)| + |Cells(last)|
  {
    assert Cells(r) == Cells(rest) + Cells(last);
    assert Cells(rest) !! Cells(last);
  }

  lemma {:induction false} Distribute(n: int, h: int)
    ensures (n + 1) * h == n * h + h
  {
  }

  /** The area of the outputs that are kept and refer to input `i`. */
  function AreaWhere(out: seq<RectSet>, keep: seq<bool>, i: nat): int
    requires |out| == |keep|
  {
    if out == [] then 0
    else AreaWhere(out[1..], keep[1..], i) + if keep[0] && i in out[0].ids then out[0].rect.Area() else 0
  }

  lemma {:induction false} AreaWhereSnoc(out: seq<RectSet>, keep: seq<bool>, i: nat, p: RectSet, k: bool)
    requires |out| == |keep|
    ensures AreaWhere(out + [p], keep + [k], i) == AreaWhere(out, keep, i) + if k && i in p.ids then p.rect.Area() else 0
  {
    if out != [] {
      assert (out + [p])[1..] == out[1..] + [p] && (keep + [k])[1..] == keep[1..] + [k];
      AreaWhereSnoc(out[1..], keep[1..], i, p, k);
    }
  }

  ghost function CellsWhere(out: seq<RectSet>, i: nat): set<(int, int)> {
    if out == [] then {}
    else CellsWhere(out[1..], i) + if i in out[0].ids then Cells(out[0].rect) else {}
  }

  lemma {:induction false} CellsWhereHas(out: seq<RectSet>, i: nat, x: int, y: int)
    ensures (x, y) in CellsWhere(out, i) <==>
            exists k :: 0 <= k < |out| && i in out[k].ids && out[k].rect.Has(x, y)
  {
    if out != [] {
      CellsWhereHas(out[1..], i, x, y);
      assert forall k :: 1 <= k < |out| ==> out[k] == out[1..][k - 1];
      if k :| 0 <= k < |out| && i in out[k].ids && out[k].rect.Has(x, y) {
        assert k > 0 ==> 0 <= k - 1 < |out[1..]| && i in out[1..][k - 1].ids && out[1..][k - 1].rect.Has(x, y);
      }
    }
  }

  function All(n: nat): seq<bool> {
    seq(n, _ => true)
  }

  lemma {:induction false} CellsWhereSize(out: seq<RectSet>, i: nat)
    requires forall k :: 0 <= k < |out| ==> !out[k].rect.Empty()
    requires forall j, k :: 0 <= j < k < |out| ==> !Overlap(out[j].rect, out[k].rect)
    ensures |CellsWhere(out, i)| == AreaWhere(out, All(|out|), i)
  {
    if out != [] {
      var first, rest := out[0].rect, out[1..];
      CellsWhereSize(rest, i);
      CellsSize(first);
      assert All(|out|)[1..] == All(|rest|);
      forall c | c in Cells(first)
        ensures c !in CellsWhere(rest, i)
      {
        CellsWhereHas(rest, i, c.0, c.1);
        assert first.Has(c.0, c.1);
        assert forall k :: 0 <= k < |rest| ==> !Overlap(first, rest[k].rect) by {
          assert forall k :: 0 <= k < |rest| ==> rest[k] == out[k + 1];
        }
      }
      assert CellsWhere(rest, i) !! Cells(first);
    }
  }

  /** The outputs that refer to an input have together the area of that input. */
  lemma {:induction false} AreaConserved(rects: seq<Rect>, out: seq<RectSet>, i: nat)
    requires Separated(rects, out)
    requires i in NonEmpty(rects)
    ensures AreaWhere(out, All(|out|), i) == rects[i].Area()
  {
    SeparatedIsExact(rects, out);
    CellsWhereSize(out, i);
    CellsSize(rects[i]);
    forall c: (int, int)
      ensures c in CellsWhere(out, i) <==> c in Cells(rects[i])
    {
      CellsWhereHas(out, i, c.0, c.1);
      assert i in Cover(rects, c.0, c.1) <==> rects[i].Has(c.0, c.1);
      if rects[i].Has(c.0, c.1) {
        assert Covered(out, c.0, c.1);
      }
    }
    assert CellsWhere(out, i) == Cells(rects[i]);
  }

  lemma {:induction false} AreaWhereBound(out: seq<RectSet>, keep: seq<bool>, i: nat)
    requires |out| == |keep|
    requires forall k :: 0 <= k < |out| ==> out[k].rect.Area() > 0
    ensures AreaWhere(out, keep, i) <= AreaWhere(out, All(|out|), i)
    ensures AreaWhere(out, keep, i) == AreaWhere(out, All(|out|), i) <==>
            forall k :: 0 <= k < |out| && i in out[k].ids ==> keep[k]
  {
    if out != [] {
      AreaWhereBound(out[1..], keep[1..], i);
      assert All(|out|)[1..] == All(|out[1..]|);
      assert forall k :: 1 <= k < |out| ==> out[k] == out[1..][k - 1] && keep[k] == keep[1..][k - 1];
      assert (forall k :: 0 <= k < |out| && i in out[k].ids ==> keep[k]) <==>
             (i in out[0].ids ==> keep[0]) && forall k :: 0 <= k < |out[1..]| && i in out[1..][k].ids ==> keep[1..][k];
    }
  }

  lemma {:induction false} PositiveArea(r: Rect)
    requires !r.Empty()
    ensures r.Area() > 0
  {
  }

  /** The kept area reaches the area of the input just when every output that refers to it is kept. */
  lemma {:induction false} KeptAreaReachesIff(rects: seq<Rect>, out: seq<RectSet>, keep: seq<bool>, i: nat)
    requires Separated(rects, out) && |out| == |keep|
    requires i in NonEmpty(rects)
    ensures AreaWhere(out, keep, i) < rects[i].Area() <==>
            exists k :: 0 <= k < |out| && i in out[k].ids && !keep[k]
  {
    SeparatedIsExact(rects, out);
    forall k | 0 <= k < |out|
      ensures out[k].rect.Area() > 0
    {
      PositiveArea(out[k].rect);
    }
    AreaConserved(rects, out, i);
    AreaWhereBound(out, keep, i);
  }
}
