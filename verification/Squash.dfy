/**
 The change history that decides which regions of a frame may be kept in the squash buffer.
 */
module Squash {
  import opened Rects
  import opened Sweep
  import opened Layers

  const HISTORY_LENGTH: nat := 6

  /** The frame counter is an unsigned 32-bit number. */
  const COUNTER_RANGE: nat := 0x1_0000_0000

  // ---------------------------------------------------------------- specification

  /**
   What the squash state stands for: the flags recorded for every frame since the regions
   were made, the buffers of the last frame, the regions, and which of them were squashed.
   */
  datatype Memory = Memory(log: seq<seq<bool>>, last: seq<Buffer>, regions: seq<RectSet>, squashed: seq<bool>)
  {
    ghost predicate Valid() {
      && |squashed| == |regions|
      && forall t :: 0 <= t < |log| ==> |log[t]| == |regions|
    }
  }

  /** Whether layer `j` counts as changed. A protected layer always does. */
  predicate LayerChanged(last: seq<Buffer>, layers: seq<Layer>, j: nat) {
    j < |last| && j < |layers| && (layers[j].protectedUsage || last[j] != layers[j].buffer)
  }

  /** Which regions have changed since the last frame; none, if the layers do not match. */
  function Changed(m: Memory, layers: seq<Layer>): (r: seq<bool>)
    ensures |r| == |m.regions|
  {
    seq(|m.regions|, i requires 0 <= i < |m.regions| =>
      |layers| == |m.last| && exists j :: j in m.regions[i].ids && LayerChanged(m.last, layers, j))
  }

  /** No change was recorded for region `i` in the last `n` frames, and there were that many. */
  predicate Quiet(log: seq<seq<bool>>, i: nat, n: nat)
    requires forall t :: 0 <= t < |log| ==> i < |log[t]|
  {
    n <= |log| && forall t :: |log| - n <= t < |log| ==> !log[t][i]
  }

  ghost predicate StableAt(m: Memory, changed: seq<bool>, i: nat)
    requires m.Valid() && |changed| == |m.regions| && i < |m.regions|
  {
    !changed[i] && HISTORY_LENGTH <= |m.log| % COUNTER_RANGE && Quiet(m.log, i, HISTORY_LENGTH)
  }

  ghost function Recorded(m: Memory, layers: seq<Layer>, changed: seq<bool>): Memory {
    if |layers| != |m.last| || |changed| != |m.regions| then m
    else m.(last := Buffers(layers), log := m.log + [changed])
  }

  /** The six-bit history of region `i`: each recorded frame shifts it and sets the low bit. */
  function History(log: seq<seq<bool>>, i: nat): (h: seq<bool>)
    requires forall t :: 0 <= t < |log| ==> i < |log[t]|
    ensures |h| == HISTORY_LENGTH
  {
    if log == [] then NoChange()
    else ShiftIn(History(log[..|log| - 1], i), log[|log| - 1][i])
  }

  function NoChange(): (h: seq<bool>)
    ensures |h| == HISTORY_LENGTH
  {
    seq(HISTORY_LENGTH, _ => false)
  }

  /** Shifts a history up by one bit, dropping the oldest, and sets bit 0. */
  function ShiftIn(h: seq<bool>, changed: bool): (r: seq<bool>)
    requires |h| == HISTORY_LENGTH
    ensures |r| == HISTORY_LENGTH
  {
    [changed] + h[..HISTORY_LENGTH - 1]
  }

  /** Bit `k` of the history tells whether the region changed `k` recorded frames ago. */
  lemma {:induction false} HistoryIsLog(log: seq<seq<bool>>, i: nat, k: nat)
    requires forall t :: 0 <= t < |log| ==> i < |log[t]|
    requires k < HISTORY_LENGTH
    ensures History(log, i)[k] <==> k < |log| && log[|log| - 1 - k][i]
  {
    if log != [] && k > 0 {
      HistoryIsLog(log[..|log| - 1], i, k - 1);
    }
  }

  /** A history without a set bit, over enough frames, is six quiet frames. */
  lemma {:induction false} HistoryNoneIsQuiet(log: seq<seq<bool>>, i: nat)
    requires forall t :: 0 <= t < |log| ==> i < |log[t]|
    requires |log| >= HISTORY_LENGTH
    ensures true !in History(log, i) <==> Quiet(log, i, HISTORY_LENGTH)
  {
    var h := History(log, i);
    forall k: nat | k < HISTORY_LENGTH
      ensures h[k] <==> log[|log| - 1 - k][i]
    {
      HistoryIsLog(log, i, k);
    }
    if Quiet(log, i, HISTORY_LENGTH) {
      assert forall k :: 0 <= k < HISTORY_LENGTH ==> h[k] == log[|log| - 1 - k][i];
    } else {
      var t :| |log| - HISTORY_LENGTH <= t < |log| && log[t][i];
      assert h[|log| - 1 - t];
    }
  }

  // ---------------------------------------------------------------- the class

  datatype Region = Region(rect: Rect, layerRefs: set<nat>, changeHistory: seq<bool>, squashed: bool)

  class SquashState {
    var generationNumber: nat
    var validHistory: nat
    var lastHandles: seq<Buffer>
    var regions: seq<Region>
    ghost var log: seq<seq<bool>>

    ghost predicate Valid()
      reads this
    {
      && validHistory == |log| % COUNTER_RANGE
      && (forall t :: 0 <= t < |log| ==> |log[t]| == |regions|)
      && forall i :: 0 <= i < |regions| ==> regions[i].changeHistory == History(log, i)
    }

    ghost function Model(): (m: Memory)
      reads this
      ensures Valid() ==> m.Valid()
    {
      Memory(log, lastHandles,
             seq(|regions|, i requires 0 <= i < |regions| reads this => RectSet(regions[i].layerRefs, regions[i].rect)),
             seq(|regions|, i requires 0 <= i < |regions| reads this => regions[i].squashed))
    }

    constructor ()
      ensures Valid() && Model() == Memory([], [], [], [])
    {
      generationNumber, validHistory := 0, 0;
      lastHandles, regions, log := [], [], [];
    }

    /** A new geometry: the frames of the layers are separated into fresh regions. */
    method Init(layers: seq<Layer>)
      modifies this
      ensures Valid() && generationNumber == old(generationNumber) + 1
      ensures Model().log == [] && Model().last == Buffers(layers)
      ensures |layers| <= 32 ==> Separated(Frames(layers), Model().regions)
      ensures |layers| > 32 ==> Model().regions == []
      ensures true !in Model().squashed
    {
      generationNumber := generationNumber + 1;
      validHistory := 0;
      log := [];
      regions, lastHandles := [], [];
      var inRects: seq<Rect> := [];
      for i := 0 to |layers|
        invariant lastHandles == Buffers(layers[..i]) && inRects == Frames(layers[..i])
        invariant regions == [] && log == [] && validHistory == 0
        invariant generationNumber == old(generationNumber) + 1
      {
        inRects := inRects + [layers[i].displayFrame];
        lastHandles := lastHandles + [layers[i].buffer];
      }
      assert layers[..|layers|] == layers;
      var outRegions := SeparateRects(inRects);
      for i := 0 to |outRegions|
        invariant |regions| == i && log == [] && validHistory == 0 && lastHandles == Buffers(layers)
        invariant generationNumber == old(generationNumber) + 1
        invariant forall k :: 0 <= k < i ==>
                    regions[k] == Region(outRegions[k].rect, outRegions[k].ids, NoChange(), false)
      {
        regions := regions + [Region(outRegions[i].rect, outRegions[i].ids, NoChange(), false)];
      }
      assert Model().regions == outRegions;
    }

    method GenerateHistory(layers: seq<Layer>) returns (changedRegions: seq<bool>)
      // A set of layers has 64 bits.
      requires Valid() && (|layers| == |lastHandles| ==> |layers| <= 64)
      ensures changedRegions == Changed(Model(), layers)
    {
      changedRegions := seq(|regions|, _ => false);
      if |layers| != |lastHandles| {
        return;
      }
      var changedLayers: set<nat> := {};
      for i := 0 to |lastHandles|
        invariant forall j: nat :: j in changedLayers <==> j < i && LayerChanged(lastHandles, layers, j)
      {
        if layers[i].protectedUsage || lastHandles[i] != layers[i].buffer {
          changedLayers := changedLayers + {i};
        }
      }
      ghost var m := Model();
      for i := 0 to |regions|
        invariant |changedRegions| == |regions|
        invariant forall k :: 0 <= k < i ==> changedRegions[k] == Changed(m, layers)[k]
      {
        changedRegions := changedRegions[i := regions[i].layerRefs * changedLayers != {}];
        assert m.regions[i].ids == regions[i].layerRefs;
        assert regions[i].layerRefs * changedLayers != {} <==>
               exists j :: j in m.regions[i].ids && LayerChanged(m.last, layers, j) by {
          if j :| j in m.regions[i].ids && LayerChanged(m.last, layers, j) {
            assert j in regions[i].layerRefs * changedLayers;
          }
        }
      }
    }

    predicate IsStable(i: nat)
      requires i < |regions|
      reads this
    {
      validHistory >= HISTORY_LENGTH && true !in regions[i].changeHistory
    }

    method RecordHandles(layers: seq<Layer>)
      requires |layers| == |lastHandles|
      modifies `lastHandles
      ensures lastHandles == Buffers(layers)
    {
      for i := 0 to |lastHandles|
        invariant |lastHandles| == |layers|
        invariant forall k :: 0 <= k < i ==> lastHandles[k] == layers[k].buffer
      {
        lastHandles := lastHandles[i := layers[i].buffer];
      }
    }

    method ShiftHistories(changedRegions: seq<bool>)
      requires |changedRegions| == |regions| && forall k :: 0 <= k < |regions| ==> |regions[k].changeHistory| == HISTORY_LENGTH
      modifies `regions
      ensures |regions| == |old(regions)|
      ensures forall k :: 0 <= k < |regions| ==>
                regions[k] == old(regions)[k].(changeHistory := ShiftIn(old(regions)[k].changeHistory, changedRegions[k]))
    {
      for i := 0 to |regions|
        invariant |regions| == |old(regions)|
        invariant forall k :: 0 <= k < i ==>
                    regions[k] == old(regions)[k].(changeHistory := ShiftIn(old(regions)[k].changeHistory, changedRegions[k]))
        invariant forall k :: i <= k < |regions| ==> regions[k] == old(regions)[k]
      {
        regions := regions[i := regions[i].(changeHistory := ShiftIn(regions[i].changeHistory, changedRegions[i]))];
      }
    }

    /** Stable means: at least six frames recorded, and quiet over them and the current one. */
    method StableRegionsWithMarginalHistory(changedRegions: seq<bool>) returns (stableRegions: seq<bool>)
      requires Valid() && |changedRegions| == |regions|
      ensures |stableRegions| == |regions|
      ensures forall i :: 0 <= i < |regions| ==> (stableRegions[i] <==> StableAt(Model(), changedRegions, i))
    {
      stableRegions := [];
      for i := 0 to |regions|
        invariant |stableRegions| == i
        invariant forall k :: 0 <= k < i ==> (stableRegions[k] <==> StableAt(Model(), changedRegions, k))
      {
        if |log| >= HISTORY_LENGTH {
          HistoryNoneIsQuiet(log, i);
        }
        stableRegions := stableRegions + [!changedRegions[i] && IsStable(i)];
      }
    }

    method RecordHistory(layers: seq<Layer>, changedRegions: seq<bool>)
      requires Valid()
      modifies this
      ensures Valid() && Model() == Recorded(old(Model()), layers, changedRegions)
    {
      if |layers| != |lastHandles| || |changedRegions| != |regions| {
        return;
      }
      RecordHandles(layers);
      ShiftHistories(changedRegions);
      validHistory := (validHistory + 1) % COUNTER_RANGE;
      log := log + [changedRegions];
      assert log[..|log| - 1] == old(log);
    }

    /** Remembers which regions are squashed; tells whether that is news. */
    method RecordAndCompareSquashed(squashedRegions: seq<bool>) returns (changed: bool)
      requires Valid()
      modifies this
      ensures Valid()
      ensures |squashedRegions| == |regions| ==>
                && Model() == old(Model()).(squashed := squashedRegions)
                && (changed <==> squashedRegions != old(Model()).squashed)
      ensures |squashedRegions| != |regions| ==> Model() == old(Model()) && !changed
    {
      changed := false;
      if |squashedRegions| != |regions| {
        return;
      }
      for i := 0 to |regions|
        invariant |regions| == |old(regions)| && log == old(log)
        invariant validHistory == old(validHistory) && lastHandles == old(lastHandles)
        invariant forall k :: 0 <= k < |regions| ==>
                    regions[k] == old(regions)[k].(squashed := if k < i then squashedRegions[k] else old(regions)[k].squashed)
        invariant changed <==> exists k :: 0 <= k < i && old(regions)[k].squashed != squashedRegions[k]
      {
        if regions[i].squashed != squashedRegions[i] {
          regions := regions[i := regions[i].(squashed := squashedRegions[i])];
          changed := true;
        }
      }
      if !changed {
        assert squashedRegions == old(Model()).squashed;
      }
    }
  }
}
