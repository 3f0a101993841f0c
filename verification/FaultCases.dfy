/** Runs in which a failed drawing, or new geometry that is passed over, spoils the squash buffer. */
module FaultCases {
  import opened Rects
  import opened Sweep
  import opened Layers
  import opened Squash
  import opened SquashCache
  import opened Cases
  import Faults

  // ---------------------------------------------------------------- building runs

  /** The frames of `frames` as events that all take part; only the drawing of frame `bad` is not done. */
  ghost function Events(frames: seq<Frame>, bad: nat, outcome: Faults.Outcome): (r: seq<Faults.Event>)
    ensures |r| == |frames|
    ensures forall t :: 0 <= t < |r| ==> r[t] == Faults.Event(frames[t], true, if t == bad then outcome else Faults.Done)
  {
    seq(|frames|, t requires 0 <= t < |frames| => Faults.Event(frames[t], true, if t == bad then outcome else Faults.Done))
  }

  /** The state after a frame that takes part, when the memory after it is `m`. */
  ghost function Advanced(s: Faults.State, e: Faults.Event, m: Memory): Faults.State
    requires s.memory.Valid() && |s.held| == 2 && s.index < 2
  {
    var layers := e.frame.layers;
    var next := (s.index + 1) % 2;
    var drawn := Faults.Drawing(FlaggedRegions(s.memory.regions, StableFlags(s.memory, layers), |layers|), layers);
    if e.frame.geometryChanged || !Redrawn(s.memory, layers) then Faults.State(m, layers, s.held, s.index)
    else
      match e.outcome
      case Done => Faults.State(m, layers, s.held[next := drawn], next)
      case Begun => Faults.State(m, layers, s.held[next := Faults.Unknown], next)
      case GivenUp => Faults.State(m, layers, s.held, next)
      case Unprepared => Faults.State(m, layers, s.held, s.index)
  }

  /** The same memory and the same frame planned last, whatever becomes of the drawings. */
  ghost predicate Follows(s: Faults.State, c: Cache) {
    s.memory == c.memory && s.current == c.current && c.memory.Valid() && |s.held| == 2 && s.index < 2
  }

  lemma {:induction false} AdvancedFollows(s: Faults.State, c: Cache, e: Faults.Event, c': Cache)
    requires Follows(s, c) && e.takesPart && Step(c, e.frame, c') && c'.memory.Valid()
    ensures Faults.Step(s, e, Advanced(s, e, c'.memory))
    ensures Follows(Advanced(s, e, c'.memory), c')
  {
  }

  /** Every run of the squash buffer has its counterpart with any outcome of one drawing. */
  lemma {:induction false} FaultRun(states: seq<Cache>, frames: seq<Frame>, bad: nat, outcome: Faults.Outcome)
      returns (r: seq<Faults.State>)
    requires Run(states, frames)
    ensures Faults.Run(r, Events(frames, bad, outcome))
    ensures forall t :: 0 <= t <= |frames| ==> Follows(r[t], states[t])
  {
    var n := |frames|;
    RunIsCoherent(states, frames, n);
    var events := Events(frames, bad, outcome);
    if n == 0 {
      r := [Faults.State(states[0].memory, states[0].current, [Faults.Unknown, Faults.Unknown], 0)];
    } else {
      var f := frames[..n - 1];
      forall t | 0 <= t < n - 1
        ensures Step(states[..n][t], f[t], states[..n][t + 1])
      {
        assert Step(states[t], frames[t], states[t + 1]);
      }
      var before := FaultRun(states[..n], f, bad, outcome);
      assert Step(states[n - 1], frames[n - 1], states[n]);
      AdvancedFollows(before[n - 1], states[n - 1], events[n - 1], states[n]);
      r := before + [Advanced(before[n - 1], events[n - 1], states[n].memory)];
      RunAppended(before, Events(f, bad, outcome), events[n - 1], r);
      assert Events(f, bad, outcome) + [events[n - 1]] == events;
    }
  }

  lemma {:induction false} RunAppended(before: seq<Faults.State>, events: seq<Faults.Event>, e: Faults.Event, r: seq<Faults.State>)
    requires Faults.Run(before, events) && |r| == |before| + 1 && r[..|before|] == before
    requires Faults.Step(before[|before| - 1], e, r[|before|])
    ensures Faults.Run(r, events + [e])
  {
    var all := events + [e];
    assert r[0] == r[..|before|][0];
    forall t | 0 <= t < |all|
      ensures Faults.Step(r[t], all[t], r[t + 1])
    {
      assert r[t] == r[..|before|][t];
      if t < |events| {
        assert r[t + 1] == r[..|before|][t + 1];
        assert Faults.Step(before[t], events[t], before[t + 1]);
      }
    }
  }

  // ---------------------------------------------------------------- a layer at rest

  /** One layer at rest for nine frames. */
  ghost predicate AtRest(frames: seq<Frame>, layers: seq<Layer>) {
    && |frames| == 9 && Standing(frames)
    && forall t :: 0 <= t < 9 ==> frames[t].layers == layers
  }

  lemma {:induction false} RestingFrames() returns (layers: seq<Layer>, frames: seq<Frame>, pieces: seq<RectSet>)
    ensures AtRest(frames, layers) && layers == [Plain(0, Rect(0, 0, 4, 4), false)]
    ensures |pieces| == 1 && pieces[0].ids == {0} && Separated(Frames(layers), pieces)
  {
    layers := [Plain(0, Rect(0, 0, 4, 4), false)];
    var rects := Frames(layers);
    pieces := [RectSet({0}, rects[0])];
    ApartPieces(rects, pieces);
    frames := seq(9, t requires 0 <= t < 9 => Frame(layers, t == 0));
  }

  /** Its region is squashed from the eighth frame on. */
  lemma {:induction false} RestingFlags(states: seq<Cache>, frames: seq<Frame>, layers: seq<Layer>, t: nat)
    requires AtRest(frames, layers) && layers == [Plain(0, Rect(0, 0, 4, 4), false)] && 0 < t < 9
    requires Run(states, frames) && states[t].memory.Valid()
    requires |states[t].memory.regions| == 1
    requires states[t].memory.regions[0].ids == {0}
    ensures StableFlags(states[t].memory, layers) == [t >= 7]
  {
    StableIffSevenQuietFrames(states, frames, 0, t, 0);
    forall u | 0 < u <= t
      ensures !Touched(frames, u, states[t].memory.regions[0].ids)
    {
    }
  }

  /** A run of the squash buffer with that layer. */
  lemma {:induction false} RestingRun() returns (layers: seq<Layer>, frames: seq<Frame>, states: seq<Cache>)
    ensures AtRest(frames, layers) && Run(states, frames) && |layers| == 1
    ensures layers == [Plain(0, Rect(0, 0, 4, 4), false)]
    ensures states[7].memory.Valid() && states[8].memory.Valid()
    ensures states[8].memory.regions == states[7].memory.regions && |states[7].memory.regions| == 1
    ensures states[7].memory.regions[0].ids == {0}
    ensures states[7].memory.squashed == [false]
    ensures StableFlags(states[7].memory, layers) == [true] && StableFlags(states[8].memory, layers) == [true]
  {
    var pieces;
    layers, frames, pieces := RestingFrames();
    states := StandingRun(frames, pieces);
    RestingFlags(states, frames, layers, 6);
    RestingFlags(states, frames, layers, 7);
    RestingFlags(states, frames, layers, 8);
    assert Step(states[6], frames[6], states[7]);
  }

  /** The layer is drawn in the eighth frame and shown again in the ninth. */
  ghost predicate Rested(states: seq<Faults.State>, events: seq<Faults.Event>, layers: seq<Layer>, outcome: Faults.Outcome) {
    && |states| == 10 && |events| == 9 && |layers| == 1
    && (forall t :: 0 <= t < 9 ==> events[t] == Faults.Event(Frame(layers, t == 0), true, if t == 7 then outcome else Faults.Done))
    && AtFrame(states[7], layers) && states[7].memory.squashed == [false]
    && AtFrame(states[8], layers) && states[8].memory.squashed == [true] && states[8].current == layers
  }

  /** One region of one layer, which is stable in the next frame. */
  ghost predicate AtFrame(s: Faults.State, layers: seq<Layer>) {
    && s.memory.Valid() && |s.memory.regions| == 1 && s.memory.regions[0].ids == {0}
    && StableFlags(s.memory, layers) == [true]
  }

  lemma {:induction false} RestingStates(outcome: Faults.Outcome)
      returns (layers: seq<Layer>, states: seq<Faults.State>, events: seq<Faults.Event>)
    ensures Faults.Run(states, events) && Faults.InOrder(events)
    ensures Rested(states, events, layers, outcome)
  {
    var frames, caches;
    layers, frames, caches := RestingRun();
    states := FaultRun(caches, frames, 7, outcome);
    events := Events(frames, 7, outcome);
    assert Follows(states[7], caches[7]) && Follows(states[8], caches[8]);
    assert Step(caches[7], frames[7], caches[8]);
    forall u | 0 <= u < 9
      ensures frames[u] == Frame(layers, u == 0)
      ensures u > 0 ==> Steady(frames[u - 1].layers, frames[u].layers)
    {
    }
  }

  // ---------------------------------------------------------------- the two ways to break it

  /** With one region to squash, a drawing left half way is not sound. */
  lemma {:induction false} BegunIsUnsound(s: Faults.State, e: Faults.Event)
    requires AtFrame(s, e.frame.layers) && s.memory.squashed == [false] && s.index < 2
    requires e.takesPart && !e.frame.geometryChanged && e.outcome == Faults.Begun
    ensures Faults.Due(s, e) && !Faults.SoundAfter(s, e)
  {
    assert [true][0];
  }

  /**
   A drawing that fails half way: the next frame is planned to show the squash buffer as it is,
   although it does not hold the layer.
   */
  lemma {:induction false} HalfDrawn() returns (states: seq<Faults.State>, events: seq<Faults.Event>)
    ensures Faults.Run(states, events) && Faults.InOrder(events) && |events| == 9
    ensures forall t :: 0 <= t < 9 ==> events[t].takesPart && (events[t].outcome == if t == 7 then Faults.Begun else Faults.Done)
    ensures ShownAsItIs(states[8], events[8])
    ensures !Faults.Sound(states[9])
  {
    var layers;
    layers, states, events := RestingStates(Faults.Begun);
    Faults.InOrderIsContinuous(states, events);
    Faults.RunIsKnown(states, events, 7);
    BegunIsUnsound(states[7], events[7]);
    assert [true][0];
    assert Faults.LastDue(states, events, 7, 9);
    Faults.SoundIff(states, events, 7, 9);
  }

  /** The frame shows the squash buffer without drawing it. */
  ghost predicate ShownAsItIs(s: Faults.State, e: Faults.Event) {
    && s.memory.Valid() && e.takesPart && !e.frame.geometryChanged
    && !Redrawn(s.memory, e.frame.layers) && true in StableFlags(s.memory, e.frame.layers)
  }

  /** The layers moved to another place, with the same buffers. */
  ghost predicate Moved(before: seq<Layer>, after: seq<Layer>) {
    && |before| == |after|
    && forall j :: 0 <= j < |before| ==> after[j] == before[j].(displayFrame := after[j].displayFrame) && after[j] != before[j]
  }

  lemma {:induction false} MovedFlags(m: Memory, a: seq<Layer>, b: seq<Layer>)
    requires m.Valid() && Moved(a, b)
    ensures StableFlags(m, a) == StableFlags(m, b)
  {
    forall j: nat
      ensures LayerChanged(m.last, a, j) <==> LayerChanged(m.last, b, j)
    {
    }
    assert Changed(m, a) == Changed(m, b);
  }

  /** The squash buffer of layers that were moved since is not sound. */
  lemma {:induction false} MovedIsUnsound(s: Faults.State, e: Faults.Event) returns (after: Faults.State)
    requires Faults.Known(s) && Faults.Sound(s) && AtFrame(s, s.current) && s.memory.squashed == [true]
    requires Moved(s.current, e.frame.layers) && e.takesPart && !e.frame.geometryChanged
    ensures Faults.Step(s, e, after) && ShownAsItIs(s, e) && !Faults.Sound(after)
  {
    MovedFlags(s.memory, s.current, e.frame.layers);
    assert [true][0];
    after := s.(memory := Remembered(s.memory, e.frame.layers), current := e.frame.layers);
    assert after.memory.squashed[0] && s.memory.squashed[0] && 0 in s.memory.regions[0].ids;
    assert LayersKept(s.memory.regions[0].ids, s.held[s.index].from, s.current);
    assert e.frame.layers[0] != s.current[0];
  }

  lemma {:induction false} RunCut(states: seq<Faults.State>, events: seq<Faults.Event>, n: nat)
    requires Faults.Run(states, events) && n <= |events|
    ensures Faults.Run(states[..n + 1], events[..n])
  {
    var r, before := states[..n + 1], events[..n];
    forall t | 0 <= t < n
      ensures Faults.Step(r[t], before[t], r[t + 1])
    {
      assert Faults.Step(states[t], events[t], states[t + 1]);
    }
  }

  /** One squashed region of one layer, and the squash buffer holds it. */
  ghost predicate Still(s: Faults.State) {
    && Faults.Known(s) && Faults.Sound(s) && |s.current| == 1
    && AtFrame(s, s.current) && s.memory.squashed == [true]
  }

  lemma {:induction false} StillAfterEight() returns (states: seq<Faults.State>, events: seq<Faults.Event>)
    ensures Faults.Run(states, events) && |events| == 8 && Still(states[8])
    ensures forall t :: 0 <= t < 8 ==> events[t].outcome == Faults.Done && events[t].takesPart
  {
    var layers, longer, more;
    layers, longer, more := RestingStates(Faults.Done);
    Faults.InOrderIsContinuous(longer, more);
    Faults.DoneIsSound(longer, more, 8);
    Faults.RunIsKnown(longer, more, 8);
    RunCut(longer, more, 8);
    states, events := longer[..9], more[..8];
  }

  /** Two more frames: new geometry in the first, which takes no part; none in the second, which does. */
  lemma {:induction false} PassOver(states: seq<Faults.State>, events: seq<Faults.Event>)
      returns (longer: seq<Faults.State>, more: seq<Faults.Event>)
    requires Faults.Run(states, events)
    requires Still(states[|events|])
    ensures Faults.Run(longer, more) && |more| == |events| + 2 && more[..|events|] == events
    ensures var n := |events|;
            && more[n] == Faults.Event(Frame(more[n].frame.layers, true), false, Faults.Done)
            && more[n + 1] == Faults.Event(Frame(more[n].frame.layers, false), true, Faults.Done)
            && ShownAsItIs(longer[n + 1], more[n + 1]) && !Faults.Sound(longer[n + 2])
  {
    var s := states[|events|];
    var frame := s.current[0].displayFrame;
    var layers := [s.current[0].(displayFrame := Rect(frame.left + 1, frame.top, frame.right + 1, frame.bottom))];
    var passed := Faults.Event(Frame(layers, true), false, Faults.Done);
    var next := Faults.Event(Frame(layers, false), true, Faults.Done);
    var after := MovedIsUnsound(s, next);
    RunAppended(states, events, passed, states + [s]);
    RunAppended(states + [s], events + [passed], next, states + [s] + [after]);
    longer, more := states + [s] + [after], events + [passed] + [next];
  }

  /**
   New geometry that comes in a frame with too few planes: the next frame that has enough shows
   the squash buffer with the layer where it was, although every drawing was done.
   */
  lemma {:induction false} PassedOver() returns (states: seq<Faults.State>, events: seq<Faults.Event>)
    ensures Faults.Run(states, events) && |events| == 10
    ensures forall t :: 0 <= t < 10 ==> events[t].outcome == Faults.Done && (events[t].takesPart <==> t != 8)
    ensures events[8].frame.geometryChanged && events[9].frame.layers == events[8].frame.layers
    ensures ShownAsItIs(states[9], events[9])
    ensures !Faults.Sound(states[10])
  {
    var first, before := StillAfterEight();
    states, events := PassOver(first, before);
    assert forall t :: 0 <= t < 8 ==> events[t] == events[..8][t];
  }
}
