/** The layers of a frame and the regions that the compositor draws them in. */
module Layers {
  import opened Rects

  /** A graphics buffer: its handle and its size. */
  datatype Buffer = Buffer(handle: nat, width: nat, height: nat)

  datatype Blending = NoBlend | PreMult | Coverage

  datatype Transform = Transform(flipH: bool, flipV: bool, rotate90: bool, rotate180: bool, rotate270: bool)

  datatype Crop = Crop(left: real, top: real, right: real, bottom: real)

  /** Layers are numbered from the back: the layer with the highest index is on top. */
  datatype Layer = Layer(
    buffer: Buffer,
    protectedUsage: bool,
    transform: Transform,
    blending: Blending,
    alpha: nat,
    sourceCrop: Crop,
    displayFrame: Rect)

  /** A rectangle to draw, with its source layers from the top down. */
  datatype CompositionRegion = CompositionRegion(frame: Rect, sourceLayers: seq<nat>)

  function Frames(layers: seq<Layer>): (r: seq<Rect>)
    ensures |r| == |layers| && forall i :: 0 <= i < |r| ==> r[i] == layers[i].displayFrame
  {
    seq(|layers|, i requires 0 <= i < |layers| => layers[i].displayFrame)
  }

  function Buffers(layers: seq<Layer>): (r: seq<Buffer>)
    ensures |r| == |layers| && forall i :: 0 <= i < |r| ==> r[i] == layers[i].buffer
  {
    seq(|layers|, i requires 0 <= i < |layers| => layers[i].buffer)
  }

  /** The elements of `s` below `n`, highest first. */
  function Descending(s: set<nat>, n: nat): (r: seq<nat>)
    ensures forall k :: k in r <==> k in s && k < n
    ensures forall i, j :: 0 <= i < j < |r| ==> r[i] > r[j]
  {
    if n == 0 then []
    else
      var rest := Descending(s, n - 1);
      if n - 1 in s then
        assert forall j :: 0 <= j < |rest| ==> rest[j] in rest;
        [n - 1] + rest
      else rest
  }

  /** The elements of `s` from `lo` up to `hi`, highest first. */
  function DescendingFrom(s: set<nat>, lo: nat, hi: nat): seq<nat>
    requires lo <= hi
    decreases hi - lo
  {
    if lo == hi then [] else DescendingFrom(s, lo + 1, hi) + if lo in s then [lo] else []
  }

  lemma {:induction false} DescendingSplit(s: set<nat>, lo: nat, hi: nat)
    requires lo <= hi
    ensures DescendingFrom(s, lo, hi) + Descending(s, lo) == Descending(s, hi)
    decreases hi - lo
  {
    if lo < hi {
      DescendingSplit(s, lo + 1, hi);
      Regroup(DescendingFrom(s, lo + 1, hi), if lo in s then [lo] else [], Descending(s, lo));
    }
  }

  lemma {:induction false} Regroup(a: seq<nat>, b: seq<nat>, c: seq<nat>)
    ensures (a + b) + c == a + (b + c)
    ensures [] + c == c
  {
  }

  /** A descending list is determined by its elements. */
  lemma {:induction false} DescendingUnique(a: seq<nat>, b: seq<nat>)
    requires forall i, j :: 0 <= i < j < |a| ==> a[i] > a[j]
    requires forall i, j :: 0 <= i < j < |b| ==> b[i] > b[j]
    requires forall k :: k in a <==> k in b
    ensures a == b
  {
    assert a != [] ==> a[0] in b;
    assert b != [] ==> b[0] in a;
    if a != [] {
      assert a[0] == b[0];
      forall k
        ensures k in a[1..] <==> k in b[1..]
      {
        assert k in a[1..] <==> k in a && k != a[0];
        assert k in b[1..] <==> k in b && k != b[0];
      }
      DescendingUnique(a[1..], b[1..]);
    }
  }
}
