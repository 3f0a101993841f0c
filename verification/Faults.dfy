/**
 The squash buffer over runs in which drawings fail and frames take no part: when what it holds
 is what drawing it now would give.
 */
module Faults {
  import opened Sweep
  import opened Layers
  import opened Squash
  import opened SquashCache

  /** What a squash framebuffer holds. */
  datatype Contents = Unknown | Drawing(regions: seq<CompositionRegion>, from: seq<Layer>)

  /** What becomes of a drawing: done; begun and left; given up before it began; or the frame is never prepared. */
  datatype Outcome = Done | Begun | GivenUp | Unprepared

  /** A frame that may have too few planes to take part, and what becomes of its drawing if one is due. */
  datatype Event = Event(frame: Frame, takesPart: bool, outcome: Outcome)

  /** The squash memory, the last frame that took part, and the two framebuffers. */
  datatype State = State(memory: Memory, current: seq<Layer>, held: seq<Contents>, index: nat)

  ghost predicate Step(s: State, e: Event, s': State) {
    var layers := e.frame.layers;
    if !e.takesPart then s' == s
    else if e.frame.geometryChanged then
      Fresh(s'.memory, layers) && s' == s.(memory := s'.memory, current := layers)
    else
      && s.memory.Valid() && |s.held| == 2 && s.index < 2
      && var next := (s.index + 1) % 2;
         var after := s.(memory := Remembered(s.memory, layers), current := layers);
         var drawn := Drawing(FlaggedRegions(s.memory.regions, StableFlags(s.memory, layers), |layers|), layers);
         if !Redrawn(s.memory, layers) then s' == after
         else
           match e.outcome
           case Done => s' == after.(index := next, held := s.held[next := drawn])
           case Begun => s' == after.(index := next, held := s.held[next := Unknown])
           case GivenUp => s' == after.(index := next)
           case Unprepared => s' == after
  }

  ghost predicate Initial(s: State) {
    s == State(Memory([], [], [], []), [], s.held, 0) && |s.held| == 2
  }

  ghost predicate Run(states: seq<State>, events: seq<Event>) {
    && |states| == |events| + 1
    && Initial(states[0])
    && forall t {:trigger events[t]} :: 0 <= t < |events| ==> Step(states[t], events[t], states[t + 1])
  }

  // ---------------------------------------------------------------- soundness

  /** Framebuffer `i` holds what drawing the flagged regions from `layers` would give. */
  ghost predicate Holds(s: State, i: nat, flags: seq<bool>, layers: seq<Layer>)
    requires |flags| == |s.memory.regions|
  {
    && i < |s.held| && s.held[i].Drawing?
    && s.held[i].regions == FlaggedRegions(s.memory.regions, flags, |layers|)
    && forall j :: 0 <= j < |flags| && flags[j] ==> LayersKept(s.memory.regions[j].ids, s.held[i].from, layers)
  }

  /** If a region is squashed, the framebuffer that is shown holds it as it would be drawn now. */
  ghost predicate Sound(s: State) {
    |s.memory.squashed| == |s.memory.regions|
    && (true in s.memory.squashed ==> Holds(s, s.index, s.memory.squashed, s.current))
  }

  ghost predicate Known(s: State) {
    && s.memory.Valid() && |s.held| == 2 && s.index < 2
    && s.memory.last == Buffers(s.current)
    && (|s.current| <= MAX_ELEMENTS ==> Separated(Frames(s.current), s.memory.regions))
    && (|s.current| > MAX_ELEMENTS ==> s.memory.regions == [])
    && (forall j :: 0 <= j < |s.memory.regions| && s.memory.squashed[j] ==>
          LayersKept(s.memory.regions[j].ids, s.current, s.current))
  }

  /** The frame has the geometry that the memory was made for, or sets up a new one, or takes no part. */
  ghost predicate Continuous(s: State, e: Event) {
    e.takesPart && !e.frame.geometryChanged ==> Steady(s.current, e.frame.layers)
  }

  /** The frame changes which regions are squashed. */
  ghost predicate Due(s: State, e: Event) {
    s.memory.Valid() && e.takesPart && (e.frame.geometryChanged || StableFlags(s.memory, e.frame.layers) != s.memory.squashed)
  }

  /** What a frame that changes them leaves is sound: nothing is squashed, or the drawing was done, or it was there already. */
  ghost predicate SoundAfter(s: State, e: Event)
    requires s.memory.Valid() && s.index < 2
  {
    var flags := StableFlags(s.memory, e.frame.layers);
    e.frame.geometryChanged || true !in flags ||
    match e.outcome
    case Done => true
    case Begun => false
    case GivenUp => Holds(s, (s.index + 1) % 2, flags, e.frame.layers)
    case Unprepared => Holds(s, s.index, flags, e.frame.layers)
  }

  lemma {:induction false} StableKept(s: State, layers: seq<Layer>, i: nat)
    requires Known(s) && Steady(s.current, layers)
    requires i < |s.memory.regions| && StableFlags(s.memory, layers)[i]
    ensures LayersKept(s.memory.regions[i].ids, layers, layers)
    ensures s.memory.squashed[i] ==> LayersKept(s.memory.regions[i].ids, s.current, layers)
  {
    RegionIds(s.current, s.memory.regions, i);
    forall j | j in s.memory.regions[i].ids
      ensures j < |layers| && !layers[j].protectedUsage && (s.memory.squashed[i] ==> s.current[j] == layers[j])
    {
      StableLayersUnchanged(s.memory, s.current, layers, i, j);
    }
  }

  lemma {:induction false} StepKnown(s: State, e: Event, s': State)
    requires Known(s) && Step(s, e, s') && Continuous(s, e)
    ensures Known(s')
  {
    if e.takesPart && !e.frame.geometryChanged {
      SteadyFrames(s.current, e.frame.layers);
      forall j | 0 <= j < |s'.memory.regions| && s'.memory.squashed[j]
        ensures LayersKept(s'.memory.regions[j].ids, s'.current, s'.current)
      {
        StableKept(s, e.frame.layers, j);
      }
    }
  }

  /** A frame that changes what is squashed is sound just when its drawing is there. */
  lemma {:induction false} DueStep(s: State, e: Event, s': State)
    requires Known(s) && Step(s, e, s') && Continuous(s, e) && Due(s, e)
    ensures Sound(s') <==> SoundAfter(s, e)
  {
    if !e.frame.geometryChanged {
      var flags := StableFlags(s.memory, e.frame.layers);
      forall j | 0 <= j < |flags| && flags[j]
        ensures LayersKept(s.memory.regions[j].ids, e.frame.layers, e.frame.layers)
      {
        StableKept(s, e.frame.layers, j);
      }
    }
  }

  /** Any other frame leaves the squash buffer as sound as it was. */
  lemma {:induction false} OtherStep(s: State, e: Event, s': State)
    requires Known(s) && Step(s, e, s') && Continuous(s, e) && !Due(s, e)
    ensures Sound(s') <==> Sound(s)
  {
    if e.takesPart {
      forall j | 0 <= j < |s.memory.regions| && s.memory.squashed[j]
        ensures LayersKept(s.memory.regions[j].ids, s.current, e.frame.layers)
      {
        StableKept(s, e.frame.layers, j);
      }
    }
  }

  // ---------------------------------------------------------------- over runs

  ghost predicate ContinuousUpTo(states: seq<State>, events: seq<Event>, t: nat) {
    t <= |events| < |states| && forall u {:trigger events[u]} :: 0 <= u < t ==> Continuous(states[u], events[u])
  }

  /** `u` is the last frame before `t` that changes which regions are squashed. */
  ghost predicate LastDue(states: seq<State>, events: seq<Event>, u: nat, t: nat) {
    && u < t <= |events| < |states| && Due(states[u], events[u])
    && forall v {:trigger events[v]} :: u < v < t ==> !Due(states[v], events[v])
  }

  lemma {:induction false} RunIsKnown(states: seq<State>, events: seq<Event>, t: nat)
    requires Run(states, events) && ContinuousUpTo(states, events, t)
    ensures Known(states[t])
  {
    if t == 0 {
      InitialInvariant(Cache(states[0].memory, states[0].current, [], []));
    } else {
      var e := events[t - 1];
      RunIsKnown(states, events, t - 1);
      StepKnown(states[t - 1], e, states[t]);
    }
  }

  /** Until a frame changes what is squashed, nothing is. */
  lemma {:induction false} SoundBefore(states: seq<State>, events: seq<Event>, t: nat)
    requires Run(states, events) && ContinuousUpTo(states, events, t)
    requires forall v {:trigger events[v]} :: 0 <= v < t ==> !Due(states[v], events[v])
    ensures Sound(states[t])
  {
    if t > 0 {
      var e := events[t - 1];
      RunIsKnown(states, events, t - 1);
      SoundBefore(states, events, t - 1);
      OtherStep(states[t - 1], e, states[t]);
    }
  }

  /**
   Exactly when the squash buffer that is shown holds what drawing it now would give, whatever
   becomes of the drawings: the last change of what is squashed left it so.
   */
  lemma {:induction false} SoundIff(states: seq<State>, events: seq<Event>, u: nat, t: nat)
    requires Run(states, events) && ContinuousUpTo(states, events, t) && LastDue(states, events, u, t)
    ensures Known(states[u])
    ensures Sound(states[t]) <==> SoundAfter(states[u], events[u])
    decreases t
  {
    var e := events[t - 1];
    RunIsKnown(states, events, t - 1);
    if u == t - 1 {
      DueStep(states[u], e, states[t]);
    } else {
      SoundIff(states, events, u, t - 1);
      OtherStep(states[t - 1], e, states[t]);
    }
  }

  /** While every drawing is done, the squash buffer is sound, whichever frames take no part. */
  lemma {:induction false} DoneIsSound(states: seq<State>, events: seq<Event>, t: nat)
    requires Run(states, events) && ContinuousUpTo(states, events, t)
    requires forall v {:trigger events[v]} :: 0 <= v < t ==> events[v].outcome == Done
    ensures Sound(states[t])
  {
    if u :| 0 <= u < t && LastDue(states, events, u, t) {
      var e := events[u];
      SoundIff(states, events, u, t);
    } else {
      NoneDue(states, events, t, t);
      SoundBefore(states, events, t);
    }
  }

  lemma {:induction false} NoneDue(states: seq<State>, events: seq<Event>, k: nat, t: nat)
    requires k <= t <= |events| < |states|
    requires forall v {:trigger events[v]} :: k <= v < t ==> !Due(states[v], events[v])
    requires forall u :: 0 <= u < t ==> !LastDue(states, events, u, t)
    ensures forall v {:trigger events[v]} :: 0 <= v < t ==> !Due(states[v], events[v])
  {
    if k > 0 {
      assert Due(states[k - 1], events[k - 1]) ==> LastDue(states, events, k - 1, t);
      NoneDue(states, events, k - 1, t);
    }
  }

  // ---------------------------------------------------------------- which runs are continuous

  /** Every frame with new geometry takes part, and the other frames keep the geometry of the frame before. */
  ghost predicate InOrder(events: seq<Event>) {
    && (|events| > 0 ==> events[0].frame.geometryChanged)
    && (forall t {:trigger events[t]} :: 0 <= t < |events| && events[t].frame.geometryChanged ==> events[t].takesPart)
    && forall t {:trigger events[t]} :: 0 < t < |events| && !events[t].frame.geometryChanged ==>
         Steady(events[t - 1].frame.layers, events[t].frame.layers)
  }

  lemma {:induction false} SteadyTransitive(a: seq<Layer>, b: seq<Layer>, c: seq<Layer>)
    requires Steady(a, b) && Steady(b, c)
    ensures Steady(a, c)
  {
    forall j | 0 <= j < |a|
      ensures SameButBuffer(a[j], c[j])
    {
      assert SameButBuffer(a[j], b[j]) && SameButBuffer(b[j], c[j]);
    }
  }

  /** Frames that take no part do no harm between two that do, unless they bring new geometry. */
  lemma {:induction false} CurrentIsSteady(states: seq<State>, events: seq<Event>, t: nat)
    requires Run(states, events) && InOrder(events) && 0 < t <= |events|
    ensures Steady(states[t].current, events[t - 1].frame.layers)
  {
    var e := events[t - 1];
    assert Step(states[t - 1], e, states[t]);
    if !e.takesPart {
      CurrentIsSteady(states, events, t - 1);
      SteadyTransitive(states[t].current, events[t - 2].frame.layers, e.frame.layers);
    }
  }

  lemma {:induction false} InOrderIsContinuous(states: seq<State>, events: seq<Event>)
    requires Run(states, events) && InOrder(events)
    ensures ContinuousUpTo(states, events, |events|)
  {
    forall u | 0 <= u < |events|
      ensures Continuous(states[u], events[u])
    {
      if u > 0 && !events[u].frame.geometryChanged {
        CurrentIsSteady(states, events, u);
        SteadyTransitive(states[u].current, events[u - 1].frame.layers, events[u].frame.layers);
      }
    }
  }

  // ---------------------------------------------------------------- runs in any order

  lemma {:induction false} RunIsValid(states: seq<State>, events: seq<Event>, t: nat)
    requires Run(states, events) && t <= |events|
    ensures states[t].memory.Valid() && |states[t].held| == 2 && states[t].index < 2
  {
    if t > 0 {
      var e := events[t - 1];
      RunIsValid(states, events, t - 1);
      assert Step(states[t - 1], e, states[t]);
    }
  }

  /** Frames that do not change what is squashed change neither the regions nor the framebuffers. */
  lemma {:induction false} SameSince(states: seq<State>, events: seq<Event>, u: nat, t: nat)
    requires Run(states, events) && LastDue(states, events, u, t)
    ensures states[t].memory.regions == states[u + 1].memory.regions
    ensures states[t].memory.squashed == states[u + 1].memory.squashed
    ensures states[t].held == states[u + 1].held && states[t].index == states[u + 1].index
    decreases t
  {
    if u + 1 < t {
      var e := events[t - 1];
      SameSince(states, events, u, t - 1);
      RunIsValid(states, events, t - 1);
      assert Step(states[t - 1], e, states[t]);
    }
  }

  /** Whatever the frames are, the buffer is sound while the squashed regions refer to the layers that were drawn. */
  lemma {:induction false} SoundIfKept(states: seq<State>, events: seq<Event>, u: nat, t: nat)
    requires Run(states, events) && LastDue(states, events, u, t)
    requires events[u].outcome == Done && Redrawn(states[u].memory, events[u].frame.layers) && !events[u].frame.geometryChanged
    requires |states[t].current| == |events[u].frame.layers|
    ensures states[t].memory.Valid()
    ensures Sound(states[t]) <==>
              forall j :: 0 <= j < |states[t].memory.regions| && states[t].memory.squashed[j] ==>
                LayersKept(states[t].memory.regions[j].ids, events[u].frame.layers, states[t].current)
  {
    var e := events[u];
    RunIsValid(states, events, u);
    RunIsValid(states, events, t);
    SameSince(states, events, u, t);
    assert Step(states[u], e, states[u + 1]);
  }

  // ---------------------------------------------------------------- what the history forces

  /** A frame that takes part without new geometry has as many layers as the memory. */
  ghost predicate Counted(s: State, e: Event) {
    e.takesPart && !e.frame.geometryChanged ==> |e.frame.layers| == |s.memory.last|
  }

  ghost predicate CountedFrom(states: seq<State>, events: seq<Event>, u: nat, t: nat) {
    t <= |events| < |states| && forall v {:trigger events[v]} :: u <= v < t ==> Counted(states[v], events[v])
  }

  /** The regions refer to layers that the memory has. */
  ghost predicate IdsInRange(s: State) {
    forall j, l :: 0 <= j < |s.memory.regions| && l in s.memory.regions[j].ids ==> l < |s.memory.last|
  }

  lemma {:induction false} RunIdsInRange(states: seq<State>, events: seq<Event>, t: nat)
    requires Run(states, events) && t <= |events|
    ensures IdsInRange(states[t])
  {
    if t > 0 {
      var e := events[t - 1];
      RunIdsInRange(states, events, t - 1);
      RunIsValid(states, events, t - 1);
      assert Step(states[t - 1], e, states[t]);
      if e.takesPart && e.frame.geometryChanged {
        forall j: nat | j < |states[t].memory.regions| {
          RegionIds(e.frame.layers, states[t].memory.regions, j);
        }
      }
    }
  }

  /** The squashed layers have the buffers they were drawn from, and none is protected. */
  ghost predicate Unchanged(s: State, drawn: seq<Layer>) {
    && |s.memory.squashed| == |s.memory.regions| && s.memory.last == Buffers(s.current) && |s.current| == |drawn|
    && forall j, l :: 0 <= j < |s.memory.regions| && s.memory.squashed[j] && l in s.memory.regions[j].ids ==>
         l < |drawn| && s.current[l].buffer == drawn[l].buffer && !s.current[l].protectedUsage && !drawn[l].protectedUsage
  }

  /** The layers `ids` have the same geometry in both frames. */
  ghost predicate InPlace(ids: set<nat>, drawn: seq<Layer>, current: seq<Layer>) {
    forall l :: l in ids ==> l < |drawn| && l < |current| && SameButBuffer(drawn[l], current[l])
  }

  lemma {:induction false} StableUnchanged(s: State, e: Event, s': State, j: nat, l: nat)
    requires s.memory.Valid() && IdsInRange(s) && Counted(s, e) && e.takesPart && !e.frame.geometryChanged && Step(s, e, s')
    requires j < |s'.memory.regions| && s'.memory.squashed[j] && l in s'.memory.regions[j].ids
    ensures l < |e.frame.layers| && e.frame.layers[l].buffer == s.memory.last[l] && !e.frame.layers[l].protectedUsage
  {
    var layers := e.frame.layers;
    assert StableFlags(s.memory, layers)[j];
    assert !Changed(s.memory, layers)[j];
    assert l in s.memory.regions[j].ids && !LayerChanged(s.memory.last, layers, l);
  }

  lemma {:induction false} StepUnchanged(s: State, e: Event, s': State, drawn: seq<Layer>)
    requires s.memory.Valid() && IdsInRange(s) && Counted(s, e) && Step(s, e, s') && !Due(s, e) && Unchanged(s, drawn)
    ensures Unchanged(s', drawn)
  {
    if e.takesPart {
      forall j, l | 0 <= j < |s'.memory.regions| && s'.memory.squashed[j] && l in s'.memory.regions[j].ids
        ensures l < |drawn| && s'.current[l].buffer == drawn[l].buffer && !s'.current[l].protectedUsage && !drawn[l].protectedUsage
      {
        StableUnchanged(s, e, s', j, l);
      }
    }
  }

  lemma {:induction false} RunUnchanged(states: seq<State>, events: seq<Event>, u: nat, t: nat)
    requires Run(states, events) && LastDue(states, events, u, t) && CountedFrom(states, events, u, t)
    requires !events[u].frame.geometryChanged
    ensures Unchanged(states[t], events[u].frame.layers)
    decreases t
  {
    var e := events[t - 1];
    RunIsValid(states, events, t - 1);
    RunIdsInRange(states, events, t - 1);
    assert Step(states[t - 1], e, states[t]);
    if u + 1 < t {
      RunUnchanged(states, events, u, t - 1);
      StepUnchanged(states[t - 1], e, states[t], events[u].frame.layers);
    } else {
      forall j, l | 0 <= j < |states[t].memory.regions| && states[t].memory.squashed[j] && l in states[t].memory.regions[j].ids
        ensures l < |e.frame.layers| && !e.frame.layers[l].protectedUsage
      {
        StableUnchanged(states[u], e, states[t], j, l);
      }
    }
  }

  /**
   Whatever frames are passed over: as long as the number of layers stays, the squash buffer shown
   is sound if and only if every layer of a squashed region has the geometry it was drawn with.
   That its buffer and its protection are the same the history sees to.
   */
  lemma {:induction false} SoundIffUnmoved(states: seq<State>, events: seq<Event>, u: nat, t: nat)
    requires Run(states, events) && LastDue(states, events, u, t) && CountedFrom(states, events, u, t)
    requires events[u].outcome == Done && !events[u].frame.geometryChanged
    requires states[u].memory.Valid() && Redrawn(states[u].memory, events[u].frame.layers)
    ensures Unchanged(states[t], events[u].frame.layers)
    ensures Sound(states[t]) <==>
              forall j :: 0 <= j < |states[t].memory.regions| && states[t].memory.squashed[j] ==>
                InPlace(states[t].memory.regions[j].ids, events[u].frame.layers, states[t].current)
  {
    RunUnchanged(states, events, u, t);
    SoundIfKept(states, events, u, t);
    forall j | 0 <= j < |states[t].memory.regions| && states[t].memory.squashed[j]
      ensures LayersKept(states[t].memory.regions[j].ids, events[u].frame.layers, states[t].current)
         <==> InPlace(states[t].memory.regions[j].ids, events[u].frame.layers, states[t].current)
    {
      KeptIffInPlace(states[t], events[u].frame.layers, j);
    }
  }

  lemma {:induction false} KeptIffInPlace(s: State, drawn: seq<Layer>, j: nat)
    requires Unchanged(s, drawn) && j < |s.memory.regions| && s.memory.squashed[j]
    ensures LayersKept(s.memory.regions[j].ids, drawn, s.current) <==> InPlace(s.memory.regions[j].ids, drawn, s.current)
  {
    if InPlace(s.memory.regions[j].ids, drawn, s.current) {
      forall l | l in s.memory.regions[j].ids
        ensures l < |drawn| && l < |s.current| && drawn[l] == s.current[l] && !s.current[l].protectedUsage
      {
        assert SameButBuffer(drawn[l], s.current[l]);
      }
    }
  }

  /**
   A frame with another number of layers is neither compared nor recorded: the regions that the
   history calls quiet are squashed, whatever its layers are.
   */
  lemma {:induction false} UncountedStep(s: State, e: Event, s': State)
    requires s.memory.Valid() && Step(s, e, s') && e.takesPart && !Counted(s, e)
    ensures s'.memory.log == s.memory.log && s'.memory.last == s.memory.last && s'.memory.regions == s.memory.regions
    ensures s'.memory.Valid()
    ensures forall i :: 0 <= i < |s.memory.regions| ==>
              (s'.memory.squashed[i] <==>
                 HISTORY_LENGTH <= |s.memory.log| % COUNTER_RANGE && Quiet(s.memory.log, i, HISTORY_LENGTH))
  {
    assert forall i :: 0 <= i < |s.memory.regions| ==> !Changed(s.memory, e.frame.layers)[i];
  }
}
