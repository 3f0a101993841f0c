/** The picture over a whole run of frames, from the first one on. */
module Runs {
  import opened Rects
  import opened Sweep
  import opened Layers
  import opened Squash
  import opened SquashCache
  import opened Planes
  import opened Composition
  import opened Screen
  import opened Picture
  import opened AnyFrame
  import Faults

  /** The regions that a frame plans with, and which of them are squashed. */
  ghost predicate FrameRegions(c: Cache, f: Frame, regions: seq<RectSet>, flags: seq<bool>)
  {
    if f.geometryChanged then regions == [] && flags == []
    else c.memory.Valid() && regions == c.memory.regions && flags == StableFlags(c.memory, f.layers)
  }

  /** The state after a frame that left `memory` and drew `drawn` into the squash buffer, if anything. */
  function AfterFrame(c: Cache, f: Frame, memory: Memory, drawn: seq<CompositionRegion>): Cache {
    if drawn == [] then Cache(memory, f.layers, c.drawn, c.drawnFrom)
    else Cache(memory, f.layers, drawn, f.layers)
  }

  /** Planning a frame and drawing what the plan asks for is a step of the cache. */
  lemma {:induction false} PlanIsStep(c: Cache, f: Frame, after: Memory, drawn: seq<CompositionRegion>,
                                      regions: seq<RectSet>, flags: seq<bool>)
    requires Invariant(c)
    requires !f.geometryChanged ==> Steady(c.current, f.layers)
    requires SquashPart(true, f.geometryChanged, f.layers, c.memory, after, drawn, regions, flags)
    ensures Step(c, f, AfterFrame(c, f, after, drawn))
    ensures FrameRegions(c, f, regions, flags)
  {
    if !f.geometryChanged && true in flags {
      var i :| 0 <= i < |flags| && flags[i];
      FlaggedRegionsAre(regions, flags, |f.layers|, CompositionRegion(regions[i].rect, Descending(regions[i].ids, |f.layers|)));
    }
  }

  /** After a run, planning the next frame leaves the budget of planes intact, however many there are. */
  lemma {:induction false} PlanMayFollow(c: Cache, f: Frame, usable: nat)
    requires Invariant(c) && Steady(c.current, f.layers)
    ensures Matches(c.memory, f.layers)
    ensures NoWrap(usable, ProtectedFlags(f.layers), true in StableFlags(c.memory, f.layers))
  {
    SteadyFrames(c.current, f.layers);
    StableHasUnprotected(c.memory, f.layers);
  }

  /** At every frame of a run the squash buffer is as if it had been drawn from the current layers. */
  lemma {:induction false} RunIsBacked(states: seq<Cache>, frames: seq<Frame>, t: nat, regions: seq<RectSet>, flags: seq<bool>)
    requires Run(states, frames) && t < |frames|
    requires FrameRegions(states[t], frames[t], regions, flags)
    ensures |regions| == |flags|
    ensures Backed(frames[t].layers, regions, flags, states[t + 1].drawnFrom, states[t + 1].drawn)
    ensures true in flags ==> Separated(Frames(frames[t].layers), regions)
  {
    RunIsCoherent(states, frames, t);
    RunIsCoherent(states, frames, t + 1);
    assert Step(states[t], frames[t], states[t + 1]);
    if true in flags {
      var i :| 0 <= i < |flags| && flags[i];
      assert regions != [];
      SteadyFrames(states[t].current, frames[t].layers);
    }
  }

  /** No protected layer is ever in a squashed region. */
  lemma {:induction false} NoProtectedSquashed(states: seq<Cache>, frames: seq<Frame>, t: nat,
                                               regions: seq<RectSet>, flags: seq<bool>, i: nat, l: nat)
    requires Run(states, frames) && t < |frames|
    requires FrameRegions(states[t], frames[t], regions, flags)
    requires |regions| == |flags| && i < |regions| && flags[i] && l in regions[i].ids
    ensures l < |frames[t].layers| && !frames[t].layers[l].protectedUsage
  {
    RunIsCoherent(states, frames, t);
    assert Step(states[t], frames[t], states[t + 1]);
    StableLayersKept(states[t], frames[t].layers, i);
  }

  /**
   At every frame of every run, a plan for three planes or more without protected layers shows
   the wanted picture at a squashed cell, whatever the buffers hold, just when nothing can be
   seen of the direct layers there or some layer is opaque; at any other cell when nothing can be
   seen that its plane misshows, and only then, unless two layers show the same texel.
   */
  lemma {:induction false} PictureOverRuns(states: seq<Cache>, frames: seq<Frame>, t: nat, usable: nat,
                                           regions: seq<RectSet>, flags: seq<bool>,
                                           a: Assignment, preComp: seq<CompositionRegion>, x: int, y: int)
    requires Run(states, frames) && t < |frames|
    requires FrameRegions(states[t], frames[t], regions, flags) && |regions| == |flags|
    requires usable >= 3 && FramePlan(usable, frames[t].layers, regions, flags, a, preComp)
    requires WellFormed(frames[t].layers)
    requires forall j :: 0 <= j < |frames[t].layers| ==> !frames[t].layers[j].protectedUsage
    requires FewRects(regions, flags, a)
    ensures var layers := frames[t].layers;
            var faithful := Faithful(layers, a, preComp, states[t + 1].drawnFrom, states[t + 1].drawn, x, y);
            if Squashed(regions, flags, x, y) then
              faithful <==> NothingDirect(usable, layers, regions, flags, x, y) || OpaqueCell(layers, x, y)
            else
              && (NothingMisshown(usable, layers, regions, flags, x, y) ==> faithful)
              && (Apart(layers, x, y) ==> (faithful <==> NothingMisshown(usable, layers, regions, flags, x, y)))
  {
    RunIsBacked(states, frames, t, regions, flags);
    PictureIff(usable, frames[t].layers, regions, flags, a, preComp, states[t + 1].drawnFrom, states[t + 1].drawn, x, y);
  }

  /**
   At every frame of every run, a plan that is carried out, with protected layers or without,
   shows the wanted picture at a cell, whatever the buffers hold, if no layer is lost, doubled or
   misshown there that could be seen; and only if, where the squash plane shows something or no
   two layers show the same texel.
   */
  lemma {:induction false} RightOverRuns(states: seq<Cache>, frames: seq<Frame>, t: nat, usable: nat,
                                         regions: seq<RectSet>, flags: seq<bool>,
                                         a: Assignment, preComp: seq<CompositionRegion>, x: int, y: int)
    requires Run(states, frames) && t < |frames|
    requires FrameRegions(states[t], frames[t], regions, flags) && |regions| == |flags|
    requires FramePlan(usable, frames[t].layers, regions, flags, a, preComp) && FewRects(regions, flags, a)
    requires WellFormed(frames[t].layers)
    ensures var layers := frames[t].layers;
            var faithful := Faithful(layers, a, preComp, states[t + 1].drawnFrom, states[t + 1].drawn, x, y);
            && (RightAt(usable, layers, regions, flags, x, y) ==> faithful)
            && (SquashShown(usable, layers, regions, flags, x, y) || Apart(layers, x, y) ==>
                  (faithful <==> RightAt(usable, layers, regions, flags, x, y)))
  {
    RunIsBacked(states, frames, t, regions, flags);
    FaithfulIff(usable, frames[t].layers, regions, flags, a, preComp, states[t + 1].drawnFrom, states[t + 1].drawn, x, y);
  }

  // ---------------------------------------------------------------- with frames passed over and drawings that fail

  /** The regions that a frame plans with: none, if it takes no part or brings new geometry. */
  ghost predicate PlannedWith(s: Faults.State, e: Faults.Event, regions: seq<RectSet>, flags: seq<bool>) {
    if !e.takesPart || e.frame.geometryChanged then regions == [] && flags == []
    else s.memory.Valid() && regions == s.memory.regions && flags == StableFlags(s.memory, e.frame.layers)
  }

  /** The contents of the squash framebuffer that is shown, as what was drawn from which layers. */
  function DrawnFrom(s: Faults.State): seq<Layer> {
    if s.index < |s.held| && s.held[s.index].Drawing? then s.held[s.index].from else []
  }

  function DrawnIn(s: Faults.State): seq<CompositionRegion> {
    if s.index < |s.held| && s.held[s.index].Drawing? then s.held[s.index].regions else []
  }

  /** A frame that leaves the squash buffer sound has it backed by its layers. */
  lemma {:induction false} SoundIsBacked(states: seq<Faults.State>, events: seq<Faults.Event>, t: nat,
                                         regions: seq<RectSet>, flags: seq<bool>)
    requires Faults.Run(states, events) && t < |events| && Faults.ContinuousUpTo(states, events, t + 1)
    requires Faults.Sound(states[t + 1])
    requires PlannedWith(states[t], events[t], regions, flags)
    ensures |regions| == |flags|
    ensures Backed(events[t].frame.layers, regions, flags, DrawnFrom(states[t + 1]), DrawnIn(states[t + 1]))
    ensures true in flags ==> Separated(Frames(events[t].frame.layers), regions)
  {
    var e := events[t];
    Faults.RunIsKnown(states, events, t);
    Faults.RunIsKnown(states, events, t + 1);
    assert Faults.Step(states[t], e, states[t + 1]);
    if true in flags {
      var i :| 0 <= i < |flags| && flags[i];
      assert regions != [];
    }
  }

  /**
   The theorem over runs in which frames take no part and drawings fail: at every frame that
   leaves the squash buffer sound.
   */
  lemma {:induction false} RightOverFaults(states: seq<Faults.State>, events: seq<Faults.Event>, t: nat, usable: nat,
                                           regions: seq<RectSet>, flags: seq<bool>,
                                           a: Assignment, preComp: seq<CompositionRegion>, x: int, y: int)
    requires Faults.Run(states, events) && t < |events| && Faults.ContinuousUpTo(states, events, t + 1)
    requires Faults.Sound(states[t + 1])
    requires PlannedWith(states[t], events[t], regions, flags) && |regions| == |flags|
    requires FramePlan(usable, events[t].frame.layers, regions, flags, a, preComp) && FewRects(regions, flags, a)
    requires WellFormed(events[t].frame.layers)
    ensures var layers := events[t].frame.layers;
            var faithful := Faithful(layers, a, preComp, DrawnFrom(states[t + 1]), DrawnIn(states[t + 1]), x, y);
            && (RightAt(usable, layers, regions, flags, x, y) ==> faithful)
            && (SquashShown(usable, layers, regions, flags, x, y) || Apart(layers, x, y) ==>
                  (faithful <==> RightAt(usable, layers, regions, flags, x, y)))
  {
    SoundIsBacked(states, events, t, regions, flags);
    FaithfulIff(usable, events[t].frame.layers, regions, flags, a, preComp, DrawnFrom(states[t + 1]), DrawnIn(states[t + 1]), x, y);
  }

  /** In particular while every drawing is done, whichever frames have too few planes to take part. */
  lemma {:induction false} RightWhileDone(states: seq<Faults.State>, events: seq<Faults.Event>, t: nat, usable: nat,
                                          regions: seq<RectSet>, flags: seq<bool>,
                                          a: Assignment, preComp: seq<CompositionRegion>, x: int, y: int)
    requires Faults.Run(states, events) && t < |events| && Faults.InOrder(events)
    requires forall v {:trigger events[v]} :: 0 <= v <= t ==> events[v].outcome == Faults.Done
    requires PlannedWith(states[t], events[t], regions, flags) && |regions| == |flags|
    requires FramePlan(usable, events[t].frame.layers, regions, flags, a, preComp) && FewRects(regions, flags, a)
    requires WellFormed(events[t].frame.layers) && RightAt(usable, events[t].frame.layers, regions, flags, x, y)
    ensures Faithful(events[t].frame.layers, a, preComp, DrawnFrom(states[t + 1]), DrawnIn(states[t + 1]), x, y)
  {
    Faults.InOrderIsContinuous(states, events);
    Faults.DoneIsSound(states, events, t + 1);
    RightOverFaults(states, events, t, usable, regions, flags, a, preComp, x, y);
  }
}
