/**
 The squash buffer as a cache over a run of frames: what was drawn into it, and when it may
 be shown again without drawing.
 */
module SquashCache {
  import opened Rects
  import opened Sweep
  import opened Pieces
  import opened Layers
  import opened Squash

  ghost function StableFlags(m: Memory, layers: seq<Layer>): (r: seq<bool>)
    requires m.Valid()
    ensures |r| == |m.regions|
    ensures forall i :: 0 <= i < |r| ==> (r[i] <==> StableAt(m, Changed(m, layers), i))
  {
    seq(|m.regions|, i requires 0 <= i < |m.regions| => StableAt(m, Changed(m, layers), i))
  }

  /** The rectangles of the regions that are flagged. */
  function FlaggedRects(regions: seq<RectSet>, flags: seq<bool>): seq<Rect>
    requires |regions| == |flags|
  {
    if regions == [] then []
    else
      var n := |regions| - 1;
      FlaggedRects(regions[..n], flags[..n]) + if flags[n] then [regions[n].rect] else []
  }

  /** The flagged regions with their layers, top first, as they are drawn into the squash buffer. */
  function FlaggedRegions(regions: seq<RectSet>, flags: seq<bool>, layerCount: nat): seq<CompositionRegion>
    requires |regions| == |flags|
  {
    if regions == [] then []
    else
      var n := |regions| - 1;
      FlaggedRegions(regions[..n], flags[..n], layerCount)
      + if flags[n] then [CompositionRegion(regions[n].rect, Descending(regions[n].ids, layerCount))] else []
  }

  lemma {:induction false} FlaggedRectsAre(regions: seq<RectSet>, flags: seq<bool>, r: Rect)
    requires |regions| == |flags|
    ensures r in FlaggedRects(regions, flags) <==> exists i :: 0 <= i < |regions| && flags[i] && regions[i].rect == r
  {
    if regions != [] {
      var n := |regions| - 1;
      FlaggedRectsAre(regions[..n], flags[..n], r);
      if i :| 0 <= i < |regions| && flags[i] && regions[i].rect == r {
        assert i < n ==> regions[..n][i].rect == r && flags[..n][i];
      }
      if i :| 0 <= i < n && flags[..n][i] && regions[..n][i].rect == r {
        assert flags[i] && regions[i].rect == r;
      }
    }
  }

  lemma {:induction false} FlaggedRegionsAre(regions: seq<RectSet>, flags: seq<bool>, layerCount: nat, c: CompositionRegion)
    requires |regions| == |flags|
    ensures c in FlaggedRegions(regions, flags, layerCount) <==>
            exists i :: 0 <= i < |regions| && flags[i]
              && c == CompositionRegion(regions[i].rect, Descending(regions[i].ids, layerCount))
  {
    if regions != [] {
      var n := |regions| - 1;
      FlaggedRegionsAre(regions[..n], flags[..n], layerCount, c);
      if i :| 0 <= i < |regions| && flags[i] && c == CompositionRegion(regions[i].rect, Descending(regions[i].ids, layerCount)) {
        assert i < n ==> regions[..n][i] == regions[i] && flags[..n][i];
      }
      if i :| 0 <= i < n && flags[..n][i] && c == CompositionRegion(regions[..n][i].rect, Descending(regions[..n][i].ids, layerCount)) {
        assert flags[i] && regions[i] == regions[..n][i];
      }
    }
  }

  // ---------------------------------------------------------------- runs

  /** The squash memory, the frame last planned, and what was last drawn from which layers. */
  datatype Cache = Cache(memory: Memory, current: seq<Layer>, drawn: seq<CompositionRegion>, drawnFrom: seq<Layer>)

  datatype Frame = Frame(layers: seq<Layer>, geometryChanged: bool)

  /** Only the buffer of a layer may change while the geometry does not. */
  predicate SameButBuffer(a: Layer, b: Layer) {
    b == a.(buffer := b.buffer, protectedUsage := b.protectedUsage)
  }

  ghost predicate Steady(before: seq<Layer>, after: seq<Layer>) {
    |before| == |after| && forall j :: 0 <= j < |before| ==> SameButBuffer(before[j], after[j])
  }

  /** Fresh regions for a new geometry. */
  ghost predicate Fresh(m: Memory, layers: seq<Layer>) {
    && m.log == [] && m.last == Buffers(layers)
    && (|layers| <= MAX_ELEMENTS ==> Separated(Frames(layers), m.regions))
    && (|layers| > MAX_ELEMENTS ==> m.regions == [])
    && |m.squashed| == |m.regions| && true !in m.squashed
  }

  /** The memory after a frame with unchanged geometry. */
  ghost function Remembered(m: Memory, layers: seq<Layer>): Memory
    requires m.Valid()
  {
    Recorded(m, layers, Changed(m, layers)).(squashed := StableFlags(m, layers))
  }

  /** The squash buffer is drawn when the set of stable regions is a new one and not empty. */
  ghost predicate Redrawn(m: Memory, layers: seq<Layer>)
    requires m.Valid()
  {
    StableFlags(m, layers) != m.squashed && true in StableFlags(m, layers)
  }

  ghost predicate Step(c: Cache, f: Frame, c': Cache) {
    && c'.current == f.layers
    && if f.geometryChanged then
         Fresh(c'.memory, f.layers) && c'.drawn == c.drawn && c'.drawnFrom == c.drawnFrom
       else
         && Steady(c.current, f.layers)
         && c.memory.Valid()
         && c'.memory == Remembered(c.memory, f.layers)
         && if Redrawn(c.memory, f.layers) then
              && c'.drawn == FlaggedRegions(c.memory.regions, StableFlags(c.memory, f.layers), |f.layers|)
              && c'.drawnFrom == f.layers
            else
              c'.drawn == c.drawn && c'.drawnFrom == c.drawnFrom
  }

  ghost predicate Initial(c: Cache) {
    c.memory == Memory([], [], [], []) && c.current == []
  }

  /** A run from the start: a frame leads from each state to the next. */
  ghost predicate Run(states: seq<Cache>, frames: seq<Frame>) {
    && |states| == |frames| + 1
    && Initial(states[0])
    && forall t {:trigger frames[t]} :: 0 <= t < |frames| ==> Step(states[t], frames[t], states[t + 1])
  }

  /** The squash buffer shows what drawing the squashed regions from the current layers would. */
  ghost predicate Coherent(c: Cache) {
    && |c.memory.squashed| == |c.memory.regions|
    && (true in c.memory.squashed ==>
          c.drawn == FlaggedRegions(c.memory.regions, c.memory.squashed, |c.current|))
    && forall i :: 0 <= i < |c.memory.regions| && c.memory.squashed[i] ==>
         LayersKept(c.memory.regions[i].ids, c.drawnFrom, c.current)
  }

  /** The layers `ids` are the same in both frames, and none is protected. */
  ghost predicate LayersKept(ids: set<nat>, before: seq<Layer>, after: seq<Layer>) {
    forall j :: j in ids ==> j < |before| && j < |after| && before[j] == after[j] && !after[j].protectedUsage
  }

  ghost predicate Invariant(c: Cache) {
    && c.memory.Valid()
    && c.memory.last == Buffers(c.current)
    && (|c.current| <= MAX_ELEMENTS ==> Separated(Frames(c.current), c.memory.regions))
    && (|c.current| > MAX_ELEMENTS ==> c.memory.regions == [])
    && Coherent(c)
  }

  lemma {:induction false} InitialInvariant(c: Cache)
    requires Initial(c)
    ensures Invariant(c)
  {
    assert Frames(c.current) == [];
    forall p
      ensures !IsPiece([], p)
    {
      assert IsPiece([], p) ==> IsRun([], p.rect.left, StripOf(p));
      assert Cover([], p.rect.left, p.rect.top) == {};
    }
  }

  lemma {:induction false} SteadyFrames(before: seq<Layer>, after: seq<Layer>)
    requires Steady(before, after)
    ensures Frames(before) == Frames(after)
  {
    forall j | 0 <= j < |before|
      ensures before[j].displayFrame == after[j].displayFrame
    {
      assert SameButBuffer(before[j], after[j]);
    }
  }

  /** The layers of a stable region are what they were in the frame before. */
  lemma {:induction false} StableLayersUnchanged(m: Memory, before: seq<Layer>, after: seq<Layer>, i: nat, j: nat)
    requires m.Valid() && m.last == Buffers(before) && Steady(before, after)
    requires i < |m.regions| && StableFlags(m, after)[i]
    requires j in m.regions[i].ids && j < |after|
    ensures !after[j].protectedUsage && after[j].buffer == before[j].buffer
    ensures !before[j].protectedUsage ==> after[j] == before[j]
  {
    assert !Changed(m, after)[i];
    assert !LayerChanged(m.last, after, j);
    assert SameButBuffer(before[j], after[j]);
  }

  lemma {:induction false} RegionIds(layers: seq<Layer>, regions: seq<RectSet>, i: nat)
    requires |layers| <= MAX_ELEMENTS ==> Separated(Frames(layers), regions)
    requires |layers| > MAX_ELEMENTS ==> regions == []
    requires i < |regions|
    ensures regions[i].ids != {} && forall j :: j in regions[i].ids ==> j < |layers|
  {
    SeparatedIsExact(Frames(layers), regions);
    var r := regions[i].rect;
    assert Cover(Frames(layers), r.left, r.top) == regions[i].ids;
  }

  lemma {:induction false} StableLayersKept(c: Cache, layers: seq<Layer>, i: nat)
    requires Invariant(c) && Steady(c.current, layers)
    requires i < |c.memory.regions| && StableFlags(c.memory, layers)[i]
    ensures LayersKept(c.memory.regions[i].ids, layers, layers)
    ensures c.memory.squashed[i] ==> LayersKept(c.memory.regions[i].ids, c.drawnFrom, layers)
  {
    RegionIds(c.current, c.memory.regions, i);
    forall j | j in c.memory.regions[i].ids
      ensures j < |layers| && !layers[j].protectedUsage
      ensures c.memory.squashed[i] ==> j < |c.drawnFrom| && c.drawnFrom[j] == layers[j]
    {
      StableLayersUnchanged(c.memory, c.current, layers, i, j);
    }
  }

  lemma {:induction false} StepInvariant(c: Cache, f: Frame, c': Cache)
    requires Invariant(c) && Step(c, f, c')
    ensures Invariant(c')
  {
    if !f.geometryChanged {
      SteadyFrames(c.current, f.layers);
      assert |Changed(c.memory, f.layers)| == |c.memory.regions|;
      forall i | 0 <= i < |c'.memory.regions| && c'.memory.squashed[i]
        ensures LayersKept(c'.memory.regions[i].ids, c'.drawnFrom, c'.current)
      {
        StableLayersKept(c, f.layers, i);
      }
    }
  }

  /** Over every run the squash buffer agrees with the current frame. */
  lemma {:induction false} RunIsCoherent(states: seq<Cache>, frames: seq<Frame>, t: nat)
    requires Run(states, frames) && t <= |frames|
    ensures Invariant(states[t])
  {
    if t == 0 {
      InitialInvariant(states[0]);
    } else {
      RunIsCoherent(states, frames, t - 1);
      StepInvariant(states[t - 1], frames[t - 1], states[t]);
    }
  }

  /** The frame shows the squash buffer as it is. */
  ghost predicate Reuses(c: Cache, f: Frame) {
    && c.memory.Valid()
    && !f.geometryChanged
    && true in StableFlags(c.memory, f.layers)
    && !Redrawn(c.memory, f.layers)
  }

  /**
   Whenever a frame shows the squash buffer without drawing it, the stable regions are those
   last drawn, and every layer in them is still the one it was drawn from.
   */
  lemma {:induction false} ReuseIsSafe(states: seq<Cache>, frames: seq<Frame>, t: nat)
    requires Run(states, frames) && t < |frames| && Reuses(states[t], frames[t])
    ensures var c, f := states[t], frames[t];
            && c.drawn == FlaggedRegions(c.memory.regions, StableFlags(c.memory, f.layers), |f.layers|)
            && forall i :: 0 <= i < |c.memory.regions| && StableFlags(c.memory, f.layers)[i] ==>
                 LayersKept(c.memory.regions[i].ids, c.drawnFrom, f.layers)
  {
    RunIsCoherent(states, frames, t);
    var c, f := states[t], frames[t];
    assert Step(c, f, states[t + 1]);
    forall i | 0 <= i < |c.memory.regions| && StableFlags(c.memory, f.layers)[i]
      ensures LayersKept(c.memory.regions[i].ids, c.drawnFrom, f.layers)
    {
      StableLayersKept(c, f.layers, i);
    }
  }

  // ---------------------------------------------------------------- the history in terms of frames

  /** In frame `u` a layer of `ids` is protected or has another buffer than in the frame before. */
  ghost predicate Touched(frames: seq<Frame>, u: nat, ids: set<nat>)
    requires 0 < u < |frames|
  {
    exists j :: j in ids && j < |frames[u].layers| && j < |frames[u - 1].layers|
      && (frames[u].layers[j].protectedUsage || frames[u - 1].layers[j].buffer != frames[u].layers[j].buffer)
  }

  /** The geometry was set up in frame `s` and has not changed up to `t`. */
  ghost predicate SameGeometry(frames: seq<Frame>, s: nat, t: nat) {
    s < t <= |frames| && frames[s].geometryChanged && forall u :: s < u < t ==> !frames[u].geometryChanged
  }

  /** One flag has been recorded for every frame since the geometry was set up. */
  lemma {:induction false} LogIsFrames(states: seq<Cache>, frames: seq<Frame>, s: nat, t: nat)
    requires Run(states, frames) && SameGeometry(frames, s, t)
    ensures states[t].memory.Valid()
    ensures states[t].memory.last == Buffers(frames[t - 1].layers)
    ensures |states[t].memory.log| == t - 1 - s
    ensures forall u, i :: s < u < t && 0 <= i < |states[t].memory.regions| ==>
              (states[t].memory.log[u - s - 1][i] <==> Touched(frames, u, states[t].memory.regions[i].ids))
    decreases t
  {
    RunIsCoherent(states, frames, t);
    assert Step(states[t - 1], frames[t - 1], states[t]);
    if s < t - 1 {
      LogIsFrames(states, frames, s, t - 1);
      RecordIsTouched(states, frames, t - 1);
    }
  }

  /** A frame with standing geometry adds one flag for each region to the log: whether it was touched. */
  lemma {:induction false} RecordIsTouched(states: seq<Cache>, frames: seq<Frame>, t: nat)
    requires Run(states, frames) && 0 < t < |frames| && !frames[t].geometryChanged
    requires states[t].memory.Valid() && states[t].memory.last == Buffers(frames[t - 1].layers)
    ensures states[t + 1].memory.regions == states[t].memory.regions
    ensures |states[t + 1].memory.log| == |states[t].memory.log| + 1
    ensures states[t + 1].memory.log[..|states[t].memory.log|] == states[t].memory.log
    ensures var flags := states[t + 1].memory.log[|states[t].memory.log|];
            && |flags| == |states[t].memory.regions|
            && forall i :: 0 <= i < |flags| ==> (flags[i] <==> Touched(frames, t, states[t].memory.regions[i].ids))
  {
    var m := states[t].memory;
    assert Step(states[t], frames[t], states[t + 1]);
    assert states[t].current == frames[t - 1].layers by {
      assert Step(states[t - 1], frames[t - 1], states[t]);
    }
    assert |Changed(m, frames[t].layers)| == |m.regions|;
    forall i | 0 <= i < |m.regions|
      ensures Changed(m, frames[t].layers)[i] <==> Touched(frames, t, m.regions[i].ids)
    {
      ChangedIsTouched(m, frames, t, i);
    }
  }

  lemma {:induction false} ChangedIsTouched(m: Memory, frames: seq<Frame>, u: nat, i: nat)
    requires 0 < u < |frames| && i < |m.regions|
    requires m.last == Buffers(frames[u - 1].layers) && |frames[u].layers| == |frames[u - 1].layers|
    ensures Changed(m, frames[u].layers)[i] <==> Touched(frames, u, m.regions[i].ids)
  {
    var ids := m.regions[i].ids;
    if j :| j in ids && j < |frames[u].layers| && j < |frames[u - 1].layers|
            && (frames[u].layers[j].protectedUsage || frames[u - 1].layers[j].buffer != frames[u].layers[j].buffer) {
      assert LayerChanged(m.last, frames[u].layers, j);
    }
    if j :| j in ids && LayerChanged(m.last, frames[u].layers, j) {
      assert frames[u].layers[j].protectedUsage || frames[u - 1].layers[j].buffer != frames[u].layers[j].buffer;
    }
  }

  /** No flag in the recent part of the log means that no layer was touched in those frames. */
  lemma {:induction false} QuietIsUntouched(log: seq<seq<bool>>, frames: seq<Frame>, s: nat, t: nat, i: nat, ids: set<nat>)
    requires s < t <= |frames| && |log| == t - 1 - s >= HISTORY_LENGTH
    requires forall k :: 0 <= k < |log| ==> i < |log[k]|
    requires forall u :: s < u < t ==> (log[u - s - 1][i] <==> Touched(frames, u, ids))
    ensures Quiet(log, i, HISTORY_LENGTH) <==> forall u :: t - HISTORY_LENGTH <= u < t ==> !Touched(frames, u, ids)
  {
    if Quiet(log, i, HISTORY_LENGTH) {
      forall u | t - HISTORY_LENGTH <= u < t
        ensures !Touched(frames, u, ids)
      {
        assert !log[u - s - 1][i];
      }
    } else {
      var k :| |log| - HISTORY_LENGTH <= k < |log| && log[k][i];
      assert log[(k + s + 1) - s - 1][i];
      assert Touched(frames, k + s + 1, ids);
    }
  }

  lemma {:induction false} SevenFrames(frames: seq<Frame>, s: nat, t: nat, ids: set<nat>)
    requires HISTORY_LENGTH <= t - 1 - s && t < |frames|
    ensures (forall u :: t - HISTORY_LENGTH <= u <= t && u > s ==> !Touched(frames, u, ids))
       <==> !Touched(frames, t, ids) && forall u :: t - HISTORY_LENGTH <= u < t ==> !Touched(frames, u, ids)
  {
  }

  /**
   A region is stable in frame `t` just when at least six frames were recorded since the
   geometry was set up (by a 32-bit count) and in this frame and the six before it none of its
   layers was protected or changed its buffer.
   */
  lemma {:induction false} StableIffSevenQuietFrames(states: seq<Cache>, frames: seq<Frame>, s: nat, t: nat, i: nat)
    requires Run(states, frames) && t < |frames| && SameGeometry(frames, s, t + 1) && s < t
    requires states[t].memory.Valid() && i < |states[t].memory.regions|
    ensures StableFlags(states[t].memory, frames[t].layers)[i] <==>
              && (t - 1 - s) % 0x1_0000_0000 >= 6
              && forall u :: t - 6 <= u <= t && u > s ==> !Touched(frames, u, states[t].memory.regions[i].ids)
  {
    LogIsFrames(states, frames, s, t);
    RunIsCoherent(states, frames, t);
    assert Step(states[t], frames[t], states[t + 1]);
    assert Step(states[t - 1], frames[t - 1], states[t]);
    var m := states[t].memory;
    ChangedIsTouched(m, frames, t, i);
    if |m.log| % COUNTER_RANGE >= HISTORY_LENGTH {
      assert |m.log| >= HISTORY_LENGTH;
      QuietIsUntouched(m.log, frames, s, t, i, m.regions[i].ids);
      SevenFrames(frames, s, t, m.regions[i].ids);
    }
  }

  /**
   The 32-bit count of frames wraps: once 2^32 frames were recorded, a region that nothing ever
   touched is taken for a new one in six frames, and for a stable one again in the seventh.
   */
  lemma {:induction false} CounterWraps(states: seq<Cache>, frames: seq<Frame>, s: nat, k: nat, i: nat)
    requires var t := s + 1 + 0x1_0000_0000 + k;
             Run(states, frames) && t < |frames| && SameGeometry(frames, s, t + 1)
             && states[t].memory.Valid() && i < |states[t].memory.regions|
             && forall u :: s < u <= t ==> !Touched(frames, u, states[t].memory.regions[i].ids)
    requires k < 0x1_0000_0000
    ensures var t := s + 1 + 0x1_0000_0000 + k;
            StableFlags(states[t].memory, frames[t].layers)[i] <==> k >= 6
  {
    StableIffSevenQuietFrames(states, frames, s, s + 1 + 0x1_0000_0000 + k, i);
    assert (0x1_0000_0000 + k) % 0x1_0000_0000 == k;
  }
}
