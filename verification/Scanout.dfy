/**
 From a planned composition to the screen and back: rotating framebuffers, the fences that
 release them, and the commit that replaces what is on the screen.
 */
module Scanout {
  import opened Planes

  const DRM_DISPLAY_BUFFERS: nat := 3
  const SQUASH_BUFFERS: nat := 2

  /** The release fence of a framebuffer: a point on the timeline of a composition. */
  datatype Fence = NoFence | FenceAt(comp: nat, point: nat)

  /** A composition: its timeline, and the framebuffers its planes show. */
  datatype Comp = Comp(
    timeline: nat,
    current: nat,
    squashDone: nat,
    preCompDone: nat,
    preFb: Option<nat>,
    squashFb: Option<nat>)

  /** Compositions are numbered as the compositor takes them up; the last one is being prepared. */
  datatype State = State(
    comps: seq<Comp>,
    preparing: set<nat>,
    queue: seq<nat>,
    active: Option<nat>,
    onScreen: Option<nat>,
    framebuffers: seq<Fence>,
    index: nat,
    squashFramebuffers: seq<Fence>,
    squashIndex: nat)

  ghost predicate Signalled(s: State, f: Fence) {
    f.FenceAt? && f.comp < |s.comps| ==> s.comps[f.comp].current >= f.point
  }

  /** The composition has not been retired. */
  ghost predicate Live(s: State, c: nat) {
    c in s.preparing || c in s.queue || s.active == Some(c)
  }

  // ---------------------------------------------------------------- steps

  /** What happens to the state from outside: the kernel's answers, and what the frame asks for. */
  datatype Event =
    | Begin(planned: Comp)
    | RenderSquash(fenced: bool, granted: bool)
    | SquashWaitFails(granted: bool)
    | ReuseSquash
    | RenderPreComp(fenced: bool, granted: bool)
    | Enqueue
    | Apply(committed: bool, disabled: bool, granted: bool)
    | Drop(comp: nat, granted: bool)

  /** The kernel granted what was to be signalled in the step, if anything was. */
  predicate Granted(e: Event) {
    e.Begin? || e.ReuseSquash? || e.Enqueue? || e.granted
  }

  /** A composition just planned: nothing is signalled and nothing rendered. */
  predicate Fresh(c: Comp) {
    c.current == 0 && c.squashDone <= c.preCompDone <= c.timeline && c.preFb == None && c.squashFb == None
  }

  /** The composition signalled up to `point`, if the kernel granted it. The current point never moves back. */
  function Raised(c: Comp, point: nat, granted: bool): (r: Comp)
    ensures r == c.(current := r.current) && c.current <= r.current
    ensures granted ==> r.current >= point
    ensures r.current != c.current ==> granted && r.current == point
  {
    if granted && c.current < point then c.(current := point) else c
  }

  /** The composition in preparation gets one more fence, and some framebuffer. */
  ghost predicate Staged(s: State, s': State, comp: Comp, done: nat, granted: bool) {
    && |s'.comps| == |s.comps| > 0
    && |s.comps| - 1 in s.preparing
    && s'.comps[..|s.comps| - 1] == s.comps[..|s.comps| - 1]
    && s'.comps[|s.comps| - 1] == Raised(comp.(timeline := comp.timeline + 1), done, granted)
  }

  ghost predicate Step(s: State, e: Event, s': State) {
    var c := |s.comps| - 1;
    match e
    case Begin(planned) =>
      Fresh(planned) && s' == s.(comps := s.comps + [planned], preparing := s.preparing + {|s.comps|})
    case RenderSquash(fenced, granted) =>
      var i := (s.squashIndex + 1) % SQUASH_BUFFERS;
      && i < |s.squashFramebuffers| && Signalled(s, s.squashFramebuffers[i])
      && c >= 0 && s.comps[c].squashFb == None
      && if fenced then
           && Staged(s, s', s.comps[c].(squashFb := Some(i)), s.comps[c].squashDone, granted)
           && s' == s.(comps := s'.comps, squashIndex := i,
                       squashFramebuffers := s.squashFramebuffers[i := FenceAt(c, s.comps[c].timeline + 1)])
         else
           && c in s.preparing && Retired(s, s', Some(c), granted)
           && s' == s.(comps := s'.comps, preparing := s.preparing - {c}, squashIndex := i,
                       squashFramebuffers := s.squashFramebuffers[i := NoFence])
    case SquashWaitFails(granted) =>
      && c >= 0 && c in s.preparing && Retired(s, s', Some(c), granted)
      && s' == s.(comps := s'.comps, preparing := s.preparing - {c}, squashIndex := (s.squashIndex + 1) % SQUASH_BUFFERS)
    case ReuseSquash =>
      var i := s.squashIndex;
      && i < |s.squashFramebuffers|
      && c >= 0 && s.comps[c].squashFb == None
      && Staged(s, s', s.comps[c].(squashFb := Some(i)), 0, true)
      && s' == s.(comps := s'.comps,
                  squashFramebuffers := s.squashFramebuffers[i := FenceAt(c, s.comps[c].timeline + 1)])
    case RenderPreComp(fenced, granted) =>
      var i := s.index;
      && i < |s.framebuffers| && Signalled(s, s.framebuffers[i])
      && c >= 0 && s.comps[c].preFb == None
      && if fenced then
           && Staged(s, s', s.comps[c].(preFb := Some(i)), s.comps[c].preCompDone, granted)
           && s' == s.(comps := s'.comps, index := (i + 1) % DRM_DISPLAY_BUFFERS,
                       framebuffers := s.framebuffers[i := FenceAt(c, s.comps[c].timeline + 1)])
         else
           && c in s.preparing && Retired(s, s', Some(c), granted)
           && s' == s.(comps := s'.comps, preparing := s.preparing - {c}, framebuffers := s.framebuffers[i := NoFence])
    case Enqueue =>
      s.preparing == {c} && c >= 0 && s' == s.(preparing := {}, queue := s.queue + [c])
    case Apply(committed, disabled, granted) =>
      s.queue != [] &&
      var next := s.queue[0];
      if committed then
        Retired(s, s', s.active, granted) && s' == s.(comps := s'.comps, queue := s.queue[1..], active := Some(next), onScreen := Some(next))
      else
        && s.active.Some?
        && if disabled then
             Retired(s, s', s.active, granted) && s' == s.(comps := s'.comps, queue := s.queue[1..], active := Some(next), onScreen := None)
           else
             Retired(s, s', Some(next), granted) && s' == s.(comps := s'.comps, queue := s.queue[1..])
    case Drop(d, granted) =>
      d in s.preparing && Retired(s, s', Some(d), granted) && s' == s.(comps := s'.comps, preparing := s.preparing - {d})
  }

  /** The composition, if there is one, signals all its fences, if the kernel grants it. */
  ghost predicate Retired(s: State, s': State, c: Option<nat>, granted: bool) {
    if c.Some? && c.value < |s.comps| then
      && |s'.comps| == |s.comps|
      && (forall d :: 0 <= d < |s.comps| && d != c.value ==> s'.comps[d] == s.comps[d])
      && s'.comps[c.value] == Raised(s.comps[c.value], s.comps[c.value].timeline, granted)
    else s'.comps == s.comps
  }

  ghost predicate Initial(s: State) {
    && s == State([], {}, [], None, None, s.framebuffers, 0, s.squashFramebuffers, 0)
    && |s.framebuffers| == DRM_DISPLAY_BUFFERS && |s.squashFramebuffers| == SQUASH_BUFFERS
    && (forall i :: 0 <= i < |s.framebuffers| ==> s.framebuffers[i] == NoFence)
    && (forall i :: 0 <= i < |s.squashFramebuffers| ==> s.squashFramebuffers[i] == NoFence)
  }

  ghost predicate Run(states: seq<State>, events: seq<Event>) {
    && |states| == |events| + 1
    && Initial(states[0])
    && forall t {:trigger events[t]} :: 0 <= t < |events| ==> Step(states[t], events[t], states[t + 1])
  }

  // ---------------------------------------------------------------- the invariant

  /** The fence of framebuffer `i` is one of a composition that shows it. */
  ghost predicate FenceOfShown(s: State, i: nat)
    requires i < |s.framebuffers| && s.framebuffers[i].FenceAt?
  {
    var c := s.framebuffers[i].comp;
    c < |s.comps| && s.comps[c].preFb == Some(i)
  }

  ghost predicate Shapes(s: State) {
    && |s.framebuffers| == DRM_DISPLAY_BUFFERS && s.index < DRM_DISPLAY_BUFFERS
    && |s.squashFramebuffers| == SQUASH_BUFFERS && s.squashIndex < SQUASH_BUFFERS
    && (forall c :: c in s.preparing ==> c < |s.comps|)
    && (forall k :: 0 <= k < |s.queue| ==> s.queue[k] < |s.comps| && s.queue[k] !in s.preparing)
    && (forall j, k :: 0 <= j < k < |s.queue| ==> s.queue[j] < s.queue[k])
    && (s.active.Some? ==> s.active.value < |s.comps| && s.active.value !in s.preparing)
    && (s.active.Some? ==> forall k :: 0 <= k < |s.queue| ==> s.active.value < s.queue[k])
    && (s.onScreen.Some? ==> s.onScreen == s.active)
  }

  /** No point of a stage is signalled before the stage is drawn, none after the pre-composition, and the framebuffer is still held. */
  ghost predicate Holding(s: State, c: nat)
    requires c < |s.comps|
  {
    var comp := s.comps[c];
    && comp.current <= comp.preCompDone && comp.squashDone <= comp.preCompDone <= comp.timeline
    && (comp.preFb == None ==> comp.current <= comp.squashDone)
    && (comp.preFb == None && comp.squashFb == None ==> comp.current == 0)
    && (comp.preFb.Some? ==>
          var i := comp.preFb.value;
          && i < |s.framebuffers| && s.framebuffers[i].FenceAt?
          && s.framebuffers[i].comp == c && comp.preCompDone < s.framebuffers[i].point <= comp.timeline)
  }

  ghost predicate Invariant(s: State) {
    && Shapes(s)
    && (forall i :: 0 <= i < |s.framebuffers| && s.framebuffers[i].FenceAt? ==> FenceOfShown(s, i))
    && (forall c :: 0 <= c < |s.comps| && Live(s, c) ==> Holding(s, c))
  }

  lemma {:induction false} InitialInvariant(s: State)
    requires Initial(s)
    ensures Invariant(s)
  {
  }

  lemma {:induction false} ApplyKeepsShapes(s: State, e: Event, s': State)
    requires Invariant(s) && Step(s, e, s') && e.Apply?
    ensures Shapes(s')
  {
    assert forall k :: 0 <= k < |s.queue[1..]| ==> s.queue[1..][k] == s.queue[k + 1];
  }

  lemma {:induction false} StageKeepsShapes(s: State, e: Event, s': State)
    requires Invariant(s) && Step(s, e, s') && (e.RenderSquash? || e.SquashWaitFails? || e.ReuseSquash? || e.RenderPreComp?)
    ensures Shapes(s')
  {
  }

  lemma {:induction false} StepKeepsShapes(s: State, e: Event, s': State)
    requires Invariant(s) && Step(s, e, s')
    ensures Shapes(s')
  {
    if e.Apply? {
      ApplyKeepsShapes(s, e, s');
    } else if e.Enqueue? {
      var c := |s.comps| - 1;
      assert forall k :: 0 <= k < |s.queue| ==> s.queue[k] < c;
      assert s.active.Some? ==> s.active.value != c;
    } else if !e.Begin? && !e.Drop? {
      StageKeepsShapes(s, e, s');
    }
  }

  /** A framebuffer whose fence has been signalled is not held. */
  lemma {:induction false} SignalledIsFree(s: State, i: nat, c: nat)
    requires Invariant(s) && i < |s.framebuffers| && Signalled(s, s.framebuffers[i])
    requires c < |s.comps| && Live(s, c)
    ensures s.comps[c].preFb != Some(i)
  {
    assert Holding(s, c);
  }

  /** Nothing changed for a composition that was alive and still is. */
  lemma {:induction false} StillHolding(s: State, s': State, c: nat)
    requires c < |s.comps| && c < |s'.comps| && Holding(s, c)
    requires s'.comps[c] == s.comps[c]
    requires |s'.framebuffers| == |s.framebuffers|
    requires s.comps[c].preFb.Some? && s.comps[c].preFb.value < |s.framebuffers| ==>
               s'.framebuffers[s.comps[c].preFb.value] == s.framebuffers[s.comps[c].preFb.value]
    ensures Holding(s', c)
  {
  }

  /** A stage leaves the composition in preparation holding what it held, and what it rendered. */
  lemma {:induction false} StageKeepsHolding(s: State, e: Event, s': State, c: nat)
    requires Invariant(s) && Step(s, e, s') && (e.RenderSquash? || e.ReuseSquash? || e.RenderPreComp?)
    requires c < |s'.comps| && Live(s', c)
    ensures Holding(s', c)
  {
    var last := |s.comps| - 1;
    assert Holding(s, last);
    if c != last {
      if e.RenderPreComp? {
        SignalledIsFree(s, s.index, c);
      }
      StillHolding(s, s', c);
    }
  }

  lemma {:induction false} StepKeepsHolding(s: State, e: Event, s': State, c: nat)
    requires Invariant(s) && Step(s, e, s')
    requires c < |s'.comps| && Live(s', c)
    ensures Holding(s', c)
  {
    if e.RenderSquash? || e.ReuseSquash? || e.RenderPreComp? {
      StageKeepsHolding(s, e, s', c);
    } else if e.Begin? {
      if c < |s.comps| {
        StillHolding(s, s', c);
      }
    } else {
      StillHolding(s, s', c);
    }
  }

  lemma {:induction false} StepKeepsFences(s: State, e: Event, s': State, i: nat)
    requires Invariant(s) && Step(s, e, s')
    requires i < |s'.framebuffers| && s'.framebuffers[i].FenceAt?
    ensures FenceOfShown(s', i)
  {
    if !(e.RenderPreComp? && i == s.index) {
      assert FenceOfShown(s, i);
    }
  }

  lemma {:induction false} StepKeepsInvariant(s: State, e: Event, s': State)
    requires Invariant(s) && Step(s, e, s')
    ensures Invariant(s')
  {
    StepKeepsShapes(s, e, s');
    forall i | 0 <= i < |s'.framebuffers| && s'.framebuffers[i].FenceAt?
      ensures FenceOfShown(s', i)
    {
      StepKeepsFences(s, e, s', i);
    }
    forall c | 0 <= c < |s'.comps| && Live(s', c)
      ensures Holding(s', c)
    {
      StepKeepsHolding(s, e, s', c);
    }
  }

  lemma {:induction false} RunKeepsInvariant(states: seq<State>, events: seq<Event>, t: nat)
    requires Run(states, events) && t <= |events|
    ensures Invariant(states[t])
  {
    if t == 0 {
      InitialInvariant(states[0]);
    } else {
      RunKeepsInvariant(states, events, t - 1);
      StepKeepsInvariant(states[t - 1], events[t - 1], states[t]);
    }
  }

  // ---------------------------------------------------------------- safety

  /** While a composition is on the screen no point after its pre-composition is signalled. */
  lemma {:induction false} OnScreenNotSignalled(states: seq<State>, events: seq<Event>, t: nat, point: nat)
    requires Run(states, events) && t <= |events|
    requires states[t].onScreen.Some?
    ensures var s := states[t];
            var c := s.onScreen.value;
            c < |s.comps| && (point > s.comps[c].preCompDone ==> !Signalled(s, FenceAt(c, point)))
  {
    RunKeepsInvariant(states, events, t);
    assert Holding(states[t], states[t].onScreen.value);
  }

  /** No framebuffer is rendered while a composition that shows it is on the screen or on its way there. */
  lemma {:induction false} PreCompNotOverwritten(states: seq<State>, events: seq<Event>, t: nat, c: nat)
    requires Run(states, events) && t < |events| && events[t].RenderPreComp?
    requires Live(states[t], c) || states[t].onScreen == Some(c)
    ensures c < |states[t].comps| && states[t].comps[c].preFb != Some(states[t].index)
  {
    RunKeepsInvariant(states, events, t);
    assert Step(states[t], events[t], states[t + 1]);
    SignalledIsFree(states[t], states[t].index, c);
  }

  /** What no step changes of a composition. */
  lemma {:induction false} SameMarks(s: State, e: Event, s': State)
    requires Shapes(s) && Step(s, e, s')
    ensures |s.comps| <= |s'.comps|
    ensures forall d :: 0 <= d < |s.comps| ==>
              s'.comps[d].preCompDone == s.comps[d].preCompDone && s'.comps[d].squashDone == s.comps[d].squashDone
    ensures forall d :: 0 <= d < |s.comps| && d != |s.comps| - 1 ==> s'.comps[d].squashFb == s.comps[d].squashFb
    ensures !e.RenderSquash? && !e.ReuseSquash? ==> forall d :: 0 <= d < |s.comps| ==> s'.comps[d].squashFb == s.comps[d].squashFb
    ensures !e.RenderSquash? && !e.ReuseSquash? ==> s'.squashFramebuffers == s.squashFramebuffers
  {
  }

  // ---------------------------------------------------------------- release

  /** All fences of the composition that were created have been signalled. */
  ghost predicate Released(s: State, c: nat) {
    c < |s.comps| && s.comps[c].timeline <= s.comps[c].current
  }

  /** A commit, or switching the old planes off, retires the active composition. */
  lemma {:induction false} SupersededIsRetired(s: State, e: Event, s': State)
    requires Shapes(s) && Step(s, e, s') && e.Apply? && (e.committed || e.disabled) && s.active.Some?
    ensures !Live(s', s.active.value)
  {
    assert forall k :: 0 <= k < |s'.queue| ==> s'.queue[k] == s.queue[k + 1];
  }

  /** A composition that a step retires has signalled all its fences, if the kernel granted that. */
  lemma {:induction false} RetiredIsReleased(s: State, e: Event, s': State, c: nat)
    requires Shapes(s) && Step(s, e, s') && Live(s, c) && !Live(s', c) && Granted(e)
    ensures Released(s', c)
  {
    if c in s.queue {
      HeadOrTail(s.queue, c);
    }
  }

  lemma {:induction false} HeadOrTail(queue: seq<nat>, c: nat)
    requires c in queue
    ensures queue != [] && (c == queue[0] || c in queue[1..])
  {
  }

  /** Once retired, a composition never changes. */
  lemma {:induction false} StaysRetired(s: State, e: Event, s': State, c: nat)
    requires Shapes(s) && Step(s, e, s') && c < |s.comps| && !Live(s, c)
    ensures c < |s'.comps| && s'.comps[c] == s.comps[c] && !Live(s', c)
  {
    if e.Apply? {
      assert forall k :: 0 <= k < |s'.queue| ==> s'.queue[k] == s.queue[k + 1];
    }
  }

  /** Points that were signalled stay signalled, and a timeline never loses one. */
  lemma {:induction false} PointsStay(s: State, e: Event, s': State, c: nat)
    requires Shapes(s) && Step(s, e, s') && c < |s.comps|
    ensures c < |s'.comps| && s.comps[c].current <= s'.comps[c].current && s.comps[c].timeline <= s'.comps[c].timeline
  {
  }

  /** So do they over a run. */
  lemma {:induction false} PointsStayOverRuns(states: seq<State>, events: seq<Event>, v: nat, t: nat, c: nat)
    requires Run(states, events) && v <= t <= |events| && c < |states[v].comps|
    ensures c < |states[t].comps| && states[v].comps[c].current <= states[t].comps[c].current
  {
    if v < t {
      PointsStayOverRuns(states, events, v, t - 1, c);
      RunKeepsInvariant(states, events, t - 1);
      PointsStay(states[t - 1], events[t - 1], states[t], c);
    }
  }

  /** A buffer that is drawn and fenced signals the points of its stage, if the kernel grants it. */
  lemma {:induction false} DrawnIsSignalled(s: State, e: Event, s': State)
    requires Shapes(s) && Step(s, e, s') && Granted(e)
    requires (e.RenderSquash? || e.RenderPreComp?) && e.fenced
    ensures s.comps != []
    ensures var c := |s.comps| - 1;
            && c < |s'.comps|
            && (e.RenderSquash? ==> s'.comps[c].current >= s.comps[c].squashDone)
            && (e.RenderPreComp? ==> s'.comps[c].current >= s.comps[c].preCompDone)
  {
  }

  /** A composition that was retired in a step the kernel granted is released from then on. */
  lemma {:induction false} ReleasedEverAfter(states: seq<State>, events: seq<Event>, v: nat, t: nat, c: nat)
    requires Run(states, events) && v < t <= |events| && Granted(events[v])
    requires Live(states[v], c) && !Live(states[v + 1], c)
    ensures !Live(states[t], c) && Released(states[t], c)
    decreases t
  {
    RunKeepsInvariant(states, events, t - 1);
    if t == v + 1 {
      RetiredIsReleased(states[v], events[v], states[t], c);
    } else {
      ReleasedEverAfter(states, events, v, t - 1, c);
      StaysRetired(states[t - 1], events[t - 1], states[t], c);
    }
  }

  /** The kernel grants every signal of the run. */
  ghost predicate AllGranted(events: seq<Event>) {
    forall t :: 0 <= t < |events| ==> Granted(events[t])
  }

  /** Over runs in which the kernel grants every signal, every composition is on its way, on the screen, or released. */
  lemma {:induction false} LiveOrReleased(states: seq<State>, events: seq<Event>, t: nat, c: nat)
    requires Run(states, events) && AllGranted(events) && t <= |events| && c < |states[t].comps|
    ensures Live(states[t], c) || Released(states[t], c)
  {
    if t > 0 && !Live(states[t], c) {
      RunKeepsInvariant(states, events, t - 1);
      var s, e := states[t - 1], events[t - 1];
      assert Step(s, e, states[t]);
      if Live(s, c) {
        RetiredIsReleased(s, e, states[t], c);
      } else {
        if c >= |s.comps| {
          BegunIsLive(s, e, states[t], c);
        }
        LiveOrReleased(states, events, t - 1, c);
        StaysRetired(s, e, states[t], c);
      }
    }
  }

  lemma {:induction false} BegunIsLive(s: State, e: Event, s': State, c: nat)
    requires Step(s, e, s') && |s.comps| <= c < |s'.comps|
    ensures Live(s', c)
  {
  }

  /** Then a composition has signalled its pre-composition as soon as its framebuffer is drawn. */
  lemma {:induction false} DrawnOverRuns(states: seq<State>, events: seq<Event>, t: nat, c: nat)
    requires Run(states, events) && AllGranted(events) && t <= |events| && c < |states[t].comps|
    requires states[t].comps[c].preFb.Some?
    ensures states[t].comps[c].current >= states[t].comps[c].preCompDone
  {
    if t > 0 {
      RunKeepsInvariant(states, events, t - 1);
      var s, e := states[t - 1], events[t - 1];
      assert Step(s, e, states[t]);
      SameMarks(s, e, states[t]);
      if c < |s.comps| && s.comps[c].preFb.Some? {
        DrawnOverRuns(states, events, t - 1, c);
        PointsStay(s, e, states[t], c);
      } else {
        ShownIsDrawn(s, e, states[t], c);
        DrawnIsSignalled(s, e, states[t]);
      }
    }
  }

  /** A composition shows a framebuffer from the step on in which the framebuffer is drawn and fenced. */
  lemma {:induction false} ShownIsDrawn(s: State, e: Event, s': State, c: nat)
    requires Shapes(s) && Step(s, e, s') && c < |s'.comps| && s'.comps[c].preFb.Some?
    requires c < |s.comps| ==> s.comps[c].preFb == None
    ensures c == |s.comps| - 1 && e.RenderPreComp? && e.fenced
  {
  }
}
