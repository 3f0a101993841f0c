/**
 The two squash framebuffers: when one that is shown can be drawn again. Unlike the others, a
 squash framebuffer may be shown by several compositions, and has the fence of the last.
 */
module SquashBuffers {
  import opened Planes
  import opened Scanout

  /** Compositions in preparation come after those that were prepared. */
  ghost predicate LastInLine(s: State) {
    && (forall c :: c in s.preparing && s.active.Some? ==> s.active.value < c)
    && (forall c, k :: c in s.preparing && 0 <= k < |s.queue| ==> s.queue[k] < c)
  }

  /** The squash framebuffer of `c` is held by `c` or by a later composition that has not been retired. */
  ghost predicate SquashHeld(s: State, c: nat)
    requires c < |s.comps|
  {
    s.comps[c].squashFb.Some? ==>
      var i := s.comps[c].squashFb.value;
      && i < |s.squashFramebuffers|
      && var f := s.squashFramebuffers[i];
         && f.FenceAt? && c <= f.comp < |s.comps| && Live(s, f.comp)
         && s.comps[f.comp].preCompDone < f.point <= s.comps[f.comp].timeline
  }

  ghost predicate SquashInvariant(s: State) {
    && Invariant(s) && LastInLine(s)
    && (forall c: nat :: c < |s.comps| && Live(s, c) ==> SquashHeld(s, c))
  }

  /** No fence of a squash framebuffer in use has been signalled. */
  ghost predicate Guarded(s: State) {
    forall c: nat :: c < |s.comps| && Live(s, c) && s.comps[c].squashFb.Some? ==>
      var i := s.comps[c].squashFb.value;
      i < |s.squashFramebuffers| && !Signalled(s, s.squashFramebuffers[i])
  }

  lemma {:induction false} HeldIsGuarded(s: State)
    requires SquashInvariant(s)
    ensures Guarded(s)
  {
    forall c: nat | c < |s.comps| && Live(s, c) && s.comps[c].squashFb.Some?
      ensures s.comps[c].squashFb.value < |s.squashFramebuffers|
      ensures !Signalled(s, s.squashFramebuffers[s.comps[c].squashFb.value])
    {
      assert SquashHeld(s, c);
      assert Holding(s, s.squashFramebuffers[s.comps[c].squashFb.value].comp);
    }
  }

  // ---------------------------------------------------------------- losing a composition

  /** The composition that a step destroys without its having been superseded. */
  function LostBy(s: State, e: Event): Option<nat> {
    match e
    case RenderSquash(fenced, _) => if fenced || s.comps == [] then None else Some(|s.comps| - 1)
    case SquashWaitFails(_) => if s.comps == [] then None else Some(|s.comps| - 1)
    case RenderPreComp(fenced, _) => if fenced || s.comps == [] then None else Some(|s.comps| - 1)
    case Apply(committed, disabled, _) => if committed || disabled || s.queue == [] then None else Some(s.queue[0])
    case Drop(d, _) => Some(d)
    case _ => None
  }

  /** The composition that is destroyed does not hold the squash framebuffer of another one. */
  ghost predicate Harmless(s: State, e: Event) {
    LostBy(s, e).Some? ==>
      forall c: nat :: c < |s.comps| && Live(s, c) && c != LostBy(s, e).value && s.comps[c].squashFb.Some? ==>
        var i := s.comps[c].squashFb.value;
        i < |s.squashFramebuffers| && s.squashFramebuffers[i].FenceAt? ==>
          s.squashFramebuffers[i].comp != LostBy(s, e).value
  }

  lemma {:induction false} StepLastInLine(s: State, e: Event, s': State)
    requires Invariant(s) && LastInLine(s) && Step(s, e, s')
    ensures LastInLine(s')
  {
    if e.Apply? {
      assert forall k :: 0 <= k < |s'.queue| ==> s'.queue[k] == s.queue[k + 1];
    }
  }

  /** A live composition stays live, but for the active one when it is superseded, and for the one that is lost. */
  lemma {:induction false} StaysLive(s: State, e: Event, s': State, d: nat)
    requires Shapes(s) && Step(s, e, s') && Live(s, d) && d < |s.comps|
    ensures Live(s', d) || LostBy(s, e) == Some(d) || (e.Apply? && s.active == Some(d))
  {
    if e.Apply? && d in s.queue {
      assert d == s.queue[0] || d in s.queue[1..];
    }
  }

  lemma {:induction false} WasLive(s: State, e: Event, s': State, c: nat)
    requires Shapes(s) && Step(s, e, s') && Live(s', c) && c < |s.comps|
    ensures Live(s, c) && LostBy(s, e) != Some(c)
  {
  }

  /** Compositions after the active one outlive it. */
  lemma {:induction false} ActiveIsFirst(s: State, c: nat)
    requires Shapes(s) && LastInLine(s) && Live(s, c) && s.active.Some?
    ensures s.active.value <= c
  {
  }

  /** What held the framebuffer of `c` still does, if the step did not touch that framebuffer. */
  lemma {:induction false} StillHeld(s: State, e: Event, s': State, c: nat)
    requires SquashInvariant(s) && Step(s, e, s') && Harmless(s, e)
    requires c < |s.comps| <= |s'.comps| && Live(s, c) && Live(s', c) && LostBy(s, e) != Some(c)
    requires s'.comps[c].squashFb == s.comps[c].squashFb
    requires s.comps[c].squashFb.Some? ==>
               var i := s.comps[c].squashFb.value;
               i < |s.squashFramebuffers| == |s'.squashFramebuffers| && s'.squashFramebuffers[i] == s.squashFramebuffers[i]
    ensures SquashHeld(s', c)
  {
    if s.comps[c].squashFb.Some? {
      assert SquashHeld(s, c);
      var user := s.squashFramebuffers[s.comps[c].squashFb.value].comp;
      SameMarks(s, e, s');
      StaysLive(s, e, s', user);
      if s.active.Some? {
        ActiveIsFirst(s, c);
      }
    }
  }

  /** A composition whose framebuffer is not touched keeps it; the one in preparation may get one. */
  lemma {:induction false} StageKeepsSquashHeld(s: State, e: Event, s': State, c: nat)
    requires SquashInvariant(s) && Step(s, e, s') && Harmless(s, e) && (e.RenderSquash? || e.ReuseSquash?)
    requires c < |s.comps| == |s'.comps| && Live(s', c) && Live(s, c) && LostBy(s, e) != Some(c)
    requires forall d :: 0 <= d < |s.comps| ==> s'.comps[d].preCompDone == s.comps[d].preCompDone
    ensures SquashHeld(s', c)
  {
    var last := |s.comps| - 1;
    assert Holding(s, last);
    HeldIsGuarded(s);
    assert SquashHeld(s, c);
    if c != last && !(e.ReuseSquash? && s.comps[c].squashFb == Some(s.squashIndex)) {
      StillHeld(s, e, s', c);
    }
  }

  lemma {:induction false} StepKeepsSquashHeld(s: State, e: Event, s': State, c: nat)
    requires SquashInvariant(s) && Step(s, e, s') && Harmless(s, e)
    requires c < |s'.comps| && Live(s', c)
    ensures SquashHeld(s', c)
  {
    SameMarks(s, e, s');
    if c < |s.comps| {
      WasLive(s, e, s', c);
      if e.RenderSquash? || e.ReuseSquash? {
        StageKeepsSquashHeld(s, e, s', c);
      } else {
        assert SquashHeld(s, c);
        StillHeld(s, e, s', c);
      }
    }
  }

  lemma {:induction false} StepKeepsSquashInvariant(s: State, e: Event, s': State)
    requires SquashInvariant(s) && Step(s, e, s') && Harmless(s, e)
    ensures SquashInvariant(s')
  {
    StepKeepsInvariant(s, e, s');
    StepLastInLine(s, e, s');
    forall c: nat | c < |s'.comps| && Live(s', c)
      ensures SquashHeld(s', c)
    {
      StepKeepsSquashHeld(s, e, s', c);
    }
  }

  /** The framebuffer of a composition in use has lost its fence when the one that holds it signals. */
  lemma {:induction false} LossIsUnguarded(s: State, e: Event, s': State)
    requires SquashInvariant(s) && Step(s, e, s') && !Harmless(s, e) && Granted(e)
    ensures !Guarded(s')
  {
    var lost := LostBy(s, e).value;
    var c: nat :| c < |s.comps| && Live(s, c) && c != lost && s.comps[c].squashFb.Some?
                  && s.comps[c].squashFb.value < |s.squashFramebuffers|
                  && s.squashFramebuffers[s.comps[c].squashFb.value].FenceAt?
                  && s.squashFramebuffers[s.comps[c].squashFb.value].comp == lost;
    var i := s.comps[c].squashFb.value;
    assert SquashHeld(s, c);
    HeldIsGuarded(s);
    StaysLive(s, e, s', c);
    assert s'.squashFramebuffers[i] == s.squashFramebuffers[i];
    assert Signalled(s', s'.squashFramebuffers[i]);
  }

  /** A loss that the kernel does not let signal leaves every fence as it was. */
  lemma {:induction false} SilentLossIsGuarded(s: State, e: Event, s': State)
    requires SquashInvariant(s) && Step(s, e, s') && LostBy(s, e).Some? && !Granted(e)
    ensures Guarded(s')
  {
    HeldIsGuarded(s);
    forall c: nat | c < |s'.comps| && Live(s', c) && s'.comps[c].squashFb.Some?
      ensures s'.comps[c].squashFb.value < |s'.squashFramebuffers|
      ensures !Signalled(s', s'.squashFramebuffers[s'.comps[c].squashFb.value])
    {
      WasLive(s, e, s', c);
    }
  }

  /**
   From a state in which every squash framebuffer in use is held, a step leaves them all guarded
   if and only if it destroys no composition that holds the framebuffer of another, or the kernel
   refuses to signal for the one that it destroys.
   */
  lemma {:induction false} GuardedIffHarmless(s: State, e: Event, s': State)
    requires SquashInvariant(s) && Step(s, e, s')
    ensures Guarded(s') <==> Harmless(s, e) || !Granted(e)
  {
    if Harmless(s, e) {
      StepKeepsSquashInvariant(s, e, s');
      HeldIsGuarded(s');
    } else if Granted(e) {
      LossIsUnguarded(s, e, s');
    } else {
      SilentLossIsGuarded(s, e, s');
    }
  }

  // ---------------------------------------------------------------- runs

  lemma {:induction false} RunKeepsSquashInvariant(states: seq<State>, events: seq<Event>, t: nat)
    requires Run(states, events) && t <= |events|
    requires forall u :: 0 <= u < t ==> Harmless(states[u], events[u])
    ensures SquashInvariant(states[t])
  {
    if t == 0 {
      InitialInvariant(states[0]);
    } else {
      RunKeepsSquashInvariant(states, events, t - 1);
      StepKeepsSquashInvariant(states[t - 1], events[t - 1], states[t]);
    }
  }

  /**
   As long as no composition is destroyed that holds the squash framebuffer of another, no
   squash framebuffer is drawn that a composition on the screen or on its way there shows.
   */
  lemma {:induction false} SquashNotOverwritten(states: seq<State>, events: seq<Event>, t: nat, c: nat)
    requires Run(states, events) && t < |events| && events[t].RenderSquash?
    requires forall u :: 0 <= u < t ==> Harmless(states[u], events[u])
    requires Live(states[t], c) || states[t].onScreen == Some(c)
    ensures c < |states[t].comps| && states[t].comps[c].squashFb != Some((states[t].squashIndex + 1) % SQUASH_BUFFERS)
  {
    RunKeepsSquashInvariant(states, events, t);
    HeldIsGuarded(states[t]);
    assert Step(states[t], events[t], states[t + 1]);
  }

  // ---------------------------------------------------------------- a squash framebuffer drawn while on the screen

  const PLANNED: Comp := Comp(0, 0, 0, 0, None, None)

  /** A composition that shows squash framebuffer `i`, and how far it has signalled. */
  function Shows1(i: nat, current: nat): Comp {
    PLANNED.(timeline := 1, squashFb := Some(i), current := current)
  }

  function Situation(comps: seq<Comp>, preparing: set<nat>, queue: seq<nat>, shown: Option<nat>, i: nat, f: Fence, g: Fence): State {
    State(comps, preparing, queue, shown, shown, [NoFence, NoFence, NoFence], 0, [f, g], i)
  }

  /** Composition 0 is drawn into framebuffer 1 and shown; composition 1 is to show the same drawing. */
  function Opening(): seq<State> {
    var a := Shows1(1, 0);
    [Situation([], {}, [], None, 0, NoFence, NoFence),
     Situation([PLANNED], {0}, [], None, 0, NoFence, NoFence),
     Situation([a], {0}, [], None, 1, NoFence, FenceAt(0, 1)),
     Situation([a], {}, [0], None, 1, NoFence, FenceAt(0, 1)),
     Situation([a], {}, [], Some(0), 1, NoFence, FenceAt(0, 1)),
     Situation([a, PLANNED], {1}, [], Some(0), 1, NoFence, FenceAt(0, 1)),
     Situation([a, a], {1}, [], Some(0), 1, NoFence, FenceAt(1, 1)),
     Situation([a, a], {}, [1], Some(0), 1, NoFence, FenceAt(1, 1))]
  }

  /** Composition 1 is destroyed and signals the fence; two drawings later framebuffer 1 is drawn again. */
  function Ending(): seq<State> {
    var a, b := Shows1(1, 0), Shows1(1, 1);
    var c := Shows1(0, 0);
    [Situation([a, b], {}, [], Some(0), 1, NoFence, FenceAt(1, 1)),
     Situation([a, b, PLANNED], {2}, [], Some(0), 1, NoFence, FenceAt(1, 1)),
     Situation([a, b, c], {2}, [], Some(0), 0, FenceAt(2, 1), FenceAt(1, 1)),
     Situation([a, b, c], {}, [2], Some(0), 0, FenceAt(2, 1), FenceAt(1, 1)),
     Situation([a, b, c, PLANNED], {3}, [2], Some(0), 0, FenceAt(2, 1), FenceAt(1, 1)),
     Situation([a, b, c, a], {3}, [2], Some(0), 1, FenceAt(2, 1), FenceAt(3, 1))]
  }

  lemma {:induction false} OpeningSteps()
    ensures Initial(Opening()[0])
    ensures Step(Opening()[0], Begin(PLANNED), Opening()[1])
    ensures Step(Opening()[1], RenderSquash(true, true), Opening()[2])
    ensures Step(Opening()[2], Enqueue, Opening()[3])
  {
  }

  lemma {:induction false} NextOpeningSteps()
    ensures Step(Opening()[3], Apply(true, true, true), Opening()[4])
    ensures Step(Opening()[4], Begin(PLANNED), Opening()[5])
    ensures Step(Opening()[5], ReuseSquash, Opening()[6])
    ensures Step(Opening()[6], Enqueue, Opening()[7])
  {
  }

  lemma {:induction false} EndingSteps()
    ensures Step(Opening()[7], Apply(false, false, true), Ending()[0])
    ensures Step(Ending()[0], Begin(PLANNED), Ending()[1])
    ensures Step(Ending()[1], RenderSquash(true, true), Ending()[2])
  {
  }

  lemma {:induction false} NextEndingSteps()
    ensures Step(Ending()[2], Enqueue, Ending()[3])
    ensures Step(Ending()[3], Begin(PLANNED), Ending()[4])
    ensures Step(Ending()[4], RenderSquash(true, true), Ending()[5])
  {
  }

  /** Consecutive steps. */
  ghost predicate Path(states: seq<State>, events: seq<Event>) {
    |states| == |events| + 1 && forall t {:trigger events[t]} :: 0 <= t < |events| ==> Step(states[t], events[t], states[t + 1])
  }

  lemma {:induction false} PathsJoin(a: seq<State>, f: seq<Event>, e: Event, b: seq<State>, g: seq<Event>)
    requires Path(a, f) && Path(b, g) && Step(a[|f|], e, b[0])
    ensures Path(a + b, f + [e] + g)
  {
    var states, events := a + b, f + [e] + g;
    forall t | 0 <= t < |events|
      ensures Step(states[t], events[t], states[t + 1])
    {
      if t > |f| {
        assert Step(b[t - |f| - 1], g[t - |f| - 1], b[t - |f|]);
      }
    }
  }

  const OPENING: seq<Event> := [Begin(PLANNED), RenderSquash(true, true), Enqueue, Apply(true, true, true), Begin(PLANNED), ReuseSquash, Enqueue]
  const ENDING: seq<Event> := [Begin(PLANNED), RenderSquash(true, true), Enqueue, Begin(PLANNED), RenderSquash(true, true)]

  lemma {:induction false} OpeningIsPath()
    ensures Path(Opening(), OPENING)
  {
    OpeningSteps();
    NextOpeningSteps();
  }

  lemma {:induction false} EndingIsPath()
    ensures Path(Ending(), ENDING)
  {
    EndingSteps();
    NextEndingSteps();
  }

  lemma {:induction false} OpeningEndsBadly()
    ensures !Harmless(Opening()[7], Apply(false, false, true))
  {
    var s := Opening()[7];
    assert Live(s, 0) && LostBy(s, Apply(false, false, true)) == Some(1);
  }

  /**
   Without that condition it can happen: composition 1 shows the drawing of composition 0, which
   is on the screen, and can neither be committed nor have its predecessor switched off.
   */
  lemma {:induction false} SquashOverwritten() returns (states: seq<State>, events: seq<Event>, t: nat)
    ensures Run(states, events) && t == 12 < |events|
    ensures events[t] == RenderSquash(true, true)
    ensures states[t].onScreen == Some(0) && |states[t].comps| > 0
    ensures states[t].comps[0].squashFb == Some((states[t].squashIndex + 1) % SQUASH_BUFFERS)
    ensures events[7] == Apply(false, false, true) && !Harmless(states[7], events[7])
  {
    OpeningIsPath();
    OpeningSteps();
    EndingIsPath();
    EndingSteps();
    PathsJoin(Opening(), OPENING, Apply(false, false, true), Ending(), ENDING);
    states, events, t := Opening() + Ending(), OPENING + [Apply(false, false, true)] + ENDING, 12;
    assert states[12] == Ending()[4] && states[7] == Opening()[7];
    OpeningEndsBadly();
  }
}
