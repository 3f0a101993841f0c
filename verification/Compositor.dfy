/** The compositor of one display: its framebuffers, its queue, and what it hands to the kernel. */
module Compositor {
  import opened Planes
  import opened Composition
  import opened Scanout

  const EINVAL: int := 22

  /**
   What the kernel and the display answer while a buffer is drawn: whether the wait for its
   release did not fail, whether the size of the screen is known, whether the buffer could be
   allocated, imported and drawn, whether a fence was created, and whether the points of the
   stage, or all points if the composition is destroyed, could be signalled.
   */
  datatype Answers = Answers(waited: bool, sized: bool, drawn: bool, fenced: bool, granted: bool)

  /** There is a new fence for what was drawn. */
  predicate Done(a: Answers) {
    a.drawn && a.fenced
  }

  /** The framebuffer with this fence may be drawn. */
  ghost predicate Ready(s: State, fence: Fence, a: Answers) {
    (fence == NoFence || (a.waited && Signalled(s, fence))) && a.sized
  }

  class DrmDisplayCompositor {
    var comps: seq<Comp>
    var preparing: set<nat>
    var frameQueue: seq<nat>
    var activeComposition: Option<nat>
    /** What the display shows; the kernel knows. */
    ghost var onScreen: Option<nat>
    var framebuffers: seq<Fence>
    var framebufferIndex: nat
    var squashFramebuffers: seq<Fence>
    var squashFramebufferIndex: nat

    ghost function Model(): State
      reads this
    {
      State(comps, preparing, frameQueue, activeComposition, onScreen,
            framebuffers, framebufferIndex, squashFramebuffers, squashFramebufferIndex)
    }

    ghost predicate Valid()
      reads this
    {
      Invariant(Model())
    }

    constructor ()
      ensures Valid() && Scanout.Initial(Model())
      ensures |framebuffers| == 3 && |squashFramebuffers| == 2
    {
      comps, preparing, frameQueue := [], {}, [];
      activeComposition, onScreen := None, None;
      framebuffers, framebufferIndex := seq(DRM_DISPLAY_BUFFERS, _ => NoFence), 0;
      squashFramebuffers, squashFramebufferIndex := seq(SQUASH_BUFFERS, _ => NoFence), 0;
    }

    /** Waits for the release fence, if there is one; the wait may fail. */
    method WaitReleased(fence: Fence, waited: bool) returns (ret: int)
      ensures ret == 0 <==> fence == NoFence || (waited && Signalled(Model(), fence))
    {
      if fence == NoFence {
        return 0;
      }
      if !waited || (fence.comp < |comps| && comps[fence.comp].current < fence.point) {
        return -1;
      }
      ret := 0;
    }

    /** Makes a framebuffer ready to be drawn: it waits for its release, and needs the size of the screen. */
    method PrepareFramebuffer(fence: Fence, a: Answers) returns (ret: int)
      ensures ret == 0 <==> Ready(Model(), fence, a)
    {
      ret := WaitReleased(fence, a.waited);
      if ret != 0 {
        return;
      }
      if !a.sized {
        ret := -ENODEV;
      }
    }

    /** Draws into a framebuffer for pre-composition. None that is or may come on the screen is drawn. */
    method Render(i: nat, drawn: bool) returns (ret: int)
      requires Valid()
      requires forall c :: 0 <= c < |comps| && (Live(Model(), c) || onScreen == Some(c)) ==> comps[c].preFb != Some(i)
      ensures ret == 0 <==> drawn
    {
      ret := if drawn then 0 else -1;
    }

    /** Signals `c` up to `point`, if the kernel grants it. The done point is not signalled on the screen. */
    method SignalTo(c: nat, point: nat, granted: bool)
      requires c < |comps|
      requires onScreen == Some(c) ==> point <= comps[c].preCompDone
      modifies `comps
      ensures comps == old(comps)[c := Raised(old(comps)[c], point, granted)]
    {
      if comps[c].current < point && granted {
        comps := comps[c := comps[c].(current := point)];
      }
    }

    /** Takes up a composition whose plan and fences are made. */
    method Begin(planned: DrmDisplayComposition, ghost before: seq<ReleaseFence>, ghost start: nat) returns (c: nat)
      requires Valid() && planned.FencesStaged(before, start) && planned.timelineCurrent == 0
      modifies this
      ensures Valid() && c == |old(comps)| && Step(old(Model()), Event.Begin(TakenUp(planned)), Model())
    {
      c := |comps|;
      var comp := TakenUp(planned);
      comps, preparing := comps + [comp], preparing + {c};
      StepKeepsInvariant(old(Model()), Event.Begin(comp), Model());
    }

    /** The composition in preparation is destroyed, which signals all its fences. */
    method Drop(c: nat, granted: bool)
      requires Valid() && c in preparing
      modifies this
      ensures Valid() && Step(old(Model()), Event.Drop(c, granted), Model())
    {
      SignalTo(c, comps[c].timeline, granted);
      preparing := preparing - {c};
      StepKeepsInvariant(old(Model()), Event.Drop(c, granted), Model());
    }

    /** The composition in preparation was drawn, but there is no fence to wait for: it is destroyed. */
    method LosePreComp(granted: bool)
      requires Valid() && |comps| > 0 && |comps| - 1 in preparing && comps[|comps| - 1].preFb == None
      requires Signalled(Model(), framebuffers[framebufferIndex])
      modifies this
      ensures Valid() && Step(old(Model()), RenderPreComp(false, granted), Model())
    {
      var c := |comps| - 1;
      SignalTo(c, comps[c].timeline, granted);
      preparing, framebuffers := preparing - {c}, framebuffers[framebufferIndex := NoFence];
      StepKeepsInvariant(old(Model()), RenderPreComp(false, granted), Model());
    }

    /** The framebuffer drawn is released at a new point of the composition's timeline. */
    method FencePreComp(granted: bool)
      requires Valid() && |comps| > 0 && |comps| - 1 in preparing && comps[|comps| - 1].preFb == None
      requires Signalled(Model(), framebuffers[framebufferIndex])
      modifies this
      ensures Valid() && Step(old(Model()), RenderPreComp(true, granted), Model())
    {
      var c, i := |comps| - 1, framebufferIndex;
      var point := comps[c].timeline + 1;
      assert onScreen != Some(c);
      comps := comps[c := comps[c].(timeline := point, preFb := Some(i))];
      framebuffers := framebuffers[i := FenceAt(c, point)];
      SignalTo(c, comps[c].preCompDone, granted);
      framebufferIndex := (i + 1) % DRM_DISPLAY_BUFFERS;
      StepKeepsInvariant(old(Model()), RenderPreComp(true, granted), Model());
    }

    /** Draws the pre-composited buffer of the composition in preparation. */
    method ApplyPreComposite(a: Answers) returns (ret: int)
      requires Valid() && |comps| > 0 && |comps| - 1 in preparing && comps[|comps| - 1].preFb == None
      modifies this
      ensures Valid()
      ensures ret == 0 <==> Ready(old(Model()), old(framebuffers[framebufferIndex]), a) && Done(a)
      ensures if Ready(old(Model()), old(framebuffers[framebufferIndex]), a) then
                Step(old(Model()), RenderPreComp(Done(a), a.granted), Model())
              else
                unchanged(this)
    {
      ret := PrepareFramebuffer(framebuffers[framebufferIndex], a);
      if ret != 0 {
        return;
      }
      forall d: nat | d < |comps| && (Live(Model(), d) || onScreen == Some(d))
        ensures comps[d].preFb != Some(framebufferIndex)
      {
        SignalledIsFree(Model(), framebufferIndex, d);
      }
      ret := Render(framebufferIndex, a.drawn);
      if ret != 0 || !a.fenced {
        ret := -1;
        LosePreComp(a.granted);
      } else {
        FencePreComp(a.granted);
      }
    }

    method LoseSquash(rendered: bool, granted: bool)
      requires Valid() && |comps| > 0 && |comps| - 1 in preparing && comps[|comps| - 1].squashFb == None
      requires rendered ==> Signalled(Model(), squashFramebuffers[(squashFramebufferIndex + 1) % SQUASH_BUFFERS])
      modifies this
      ensures Valid()
      ensures Step(old(Model()), if rendered then RenderSquash(false, granted) else SquashWaitFails(granted), Model())
    {
      var c, i := |comps| - 1, (squashFramebufferIndex + 1) % SQUASH_BUFFERS;
      SignalTo(c, comps[c].timeline, granted);
      preparing, squashFramebufferIndex := preparing - {c}, i;
      if rendered {
        squashFramebuffers := squashFramebuffers[i := NoFence];
      }
      StepKeepsInvariant(old(Model()), if rendered then RenderSquash(false, granted) else SquashWaitFails(granted), Model());
    }

    method FenceSquash(granted: bool)
      requires Valid() && |comps| > 0 && |comps| - 1 in preparing && comps[|comps| - 1].squashFb == None
      requires Signalled(Model(), squashFramebuffers[(squashFramebufferIndex + 1) % SQUASH_BUFFERS])
      modifies this
      ensures Valid() && Step(old(Model()), RenderSquash(true, granted), Model())
    {
      var c, i := |comps| - 1, (squashFramebufferIndex + 1) % SQUASH_BUFFERS;
      var point := comps[c].timeline + 1;
      assert onScreen != Some(c);
      comps := comps[c := comps[c].(timeline := point, squashFb := Some(i))];
      squashFramebuffers := squashFramebuffers[i := FenceAt(c, point)];
      SignalTo(c, comps[c].squashDone, granted);
      squashFramebufferIndex := i;
      StepKeepsInvariant(old(Model()), RenderSquash(true, granted), Model());
    }

    /** The squash framebuffer that is drawn next, and its fence. */
    ghost function NextSquashFence(): Fence
      requires Valid()
      reads this
    {
      squashFramebuffers[(squashFramebufferIndex + 1) % SQUASH_BUFFERS]
    }

    /** Draws the next squash buffer for the composition in preparation, which is destroyed if that fails. */
    method ApplySquash(a: Answers) returns (ret: int)
      requires Valid() && |comps| > 0 && |comps| - 1 in preparing && comps[|comps| - 1].squashFb == None
      modifies this
      ensures Valid()
      ensures ret == 0 <==> Ready(old(Model()), old(NextSquashFence()), a) && Done(a)
      ensures Step(old(Model()),
                   if Ready(old(Model()), old(NextSquashFence()), a) then RenderSquash(Done(a), a.granted)
                   else SquashWaitFails(a.granted),
                   Model())
    {
      ret := PrepareFramebuffer(squashFramebuffers[(squashFramebufferIndex + 1) % SQUASH_BUFFERS], a);
      if ret != 0 {
        LoseSquash(false, a.granted);
        return;
      }
      if !a.drawn || !a.fenced {
        ret := -1;
        LoseSquash(true, a.granted);
      } else {
        FenceSquash(a.granted);
      }
    }

    /** Shows the squash buffer as it is; its fence becomes one of this composition. */
    method ReuseSquashBuffer(a: Answers) returns (ret: int)
      requires Valid() && |comps| > 0 && |comps| - 1 in preparing && comps[|comps| - 1].squashFb == None
      modifies this
      ensures ret == 0 <==> Done(a)
      ensures Valid() && Step(old(Model()), if Done(a) then ReuseSquash else Event.Drop(|old(comps)| - 1, a.granted), Model())
    {
      var c, i := |comps| - 1, squashFramebufferIndex;
      if !a.drawn || !a.fenced {
        Drop(c, a.granted);
        return -1;
      }
      var point := comps[c].timeline + 1;
      comps := comps[c := comps[c].(timeline := point, squashFb := Some(i))];
      squashFramebuffers := squashFramebuffers[i := FenceAt(c, point)];
      StepKeepsInvariant(old(Model()), ReuseSquash, Model());
      ret := 0;
    }

    /** The composition in preparation has what it asks for, or was destroyed. */
    ghost predicate Prepared(s: State, s': State, ok: bool, granted: bool)
    {
      && |s'.comps| == |s.comps| > 0
      && s'.comps[..|s.comps| - 1] == s.comps[..|s.comps| - 1]
      && s'.preparing == (if ok then s.preparing else s.preparing - {|s.comps| - 1})
      && s'.queue == s.queue && s'.active == s.active && s'.onScreen == s.onScreen
      && (!ok && granted ==> Released(s', |s.comps| - 1))
    }

    /** The squash buffer of the composition in preparation: drawn, or shown as it is, or none. */
    method PrepareSquash(squashRegions: bool, squashPlane: bool, a: Answers) returns (ret: int)
      requires Valid() && |comps| > 0 && |comps| - 1 in preparing
      requires comps[|comps| - 1].squashFb == None && comps[|comps| - 1].preFb == None
      modifies this
      ensures ret == 0 <==>
                && (squashRegions ==> Ready(old(Model()), old(NextSquashFence()), a) && Done(a))
                && (!squashRegions && squashPlane ==> Done(a))
      ensures Valid() && Prepared(old(Model()), Model(), ret == 0, a.granted)
      ensures framebufferIndex == old(framebufferIndex) && framebuffers == old(framebuffers)
      ensures var c := |comps| - 1;
              ret == 0 ==>
                && comps[c].preFb == None
                && (comps[c].squashFb == if squashRegions || squashPlane then Some(squashFramebufferIndex) else None)
                && squashFramebufferIndex == (if squashRegions then 1 - old(squashFramebufferIndex) else old(squashFramebufferIndex))
                && comps[c].timeline == old(comps[|comps| - 1].timeline) + (if comps[c].squashFb.Some? then 1 else 0)
                && (comps[c].squashFb.Some? ==> squashFramebuffers[squashFramebufferIndex] == FenceAt(c, comps[c].timeline))
    {
      ret := 0;
      if squashRegions {
        ret := ApplySquash(a);
      } else if squashPlane {
        ret := ReuseSquashBuffer(a);
      }
    }

    /** Its pre-composited buffer: drawn, or none; a plane for it then is an error. */
    method PreparePreComp(preCompRegions: bool, preCompPlane: bool, b: Answers, granted: bool) returns (ret: int)
      requires Valid() && |comps| > 0 && |comps| - 1 in preparing && comps[|comps| - 1].preFb == None
      modifies this
      ensures ret == 0 <==>
                && (preCompRegions ==> Ready(old(Model()), old(framebuffers[framebufferIndex]), b) && Done(b))
                && (preCompPlane ==> preCompRegions)
      ensures preCompPlane && !preCompRegions ==> ret == -22
      ensures Valid() && Prepared(old(Model()), Model(), ret == 0, b.granted && granted)
      ensures squashFramebuffers == old(squashFramebuffers) && squashFramebufferIndex == old(squashFramebufferIndex)
      ensures var c := |comps| - 1;
              ret == 0 ==>
                && comps[c].squashFb == old(comps[|comps| - 1].squashFb)
                && (comps[c].preFb == if preCompRegions then Some(old(framebufferIndex)) else None)
                && comps[c].timeline == old(comps[|comps| - 1].timeline) + (if preCompRegions then 1 else 0)
                && (if preCompRegions then
                      && framebuffers == old(framebuffers)[old(framebufferIndex) := FenceAt(c, comps[c].timeline)]
                      && framebufferIndex == (if old(framebufferIndex) == 2 then 0 else old(framebufferIndex) + 1)
                    else
                      framebuffers == old(framebuffers) && framebufferIndex == old(framebufferIndex))
    {
      ret := 0;
      if preCompRegions {
        ret := ApplyPreComposite(b);
        if ret != 0 {
          if |comps| - 1 in preparing {
            Drop(|comps| - 1, granted);
          }
          return;
        }
      }
      if preCompPlane && !preCompRegions {
        ret := -EINVAL;
        Drop(|comps| - 1, granted);
      }
    }

    /**
     Draws what the composition in preparation needs: a squash buffer if there are regions for
     one, else the old one if a plane shows it, then the pre-composited buffer. If something
     fails, or a plane is to show a buffer that has no regions, the composition is destroyed.
     */
    method PrepareFrame(squashRegions: bool, squashPlane: bool, preCompRegions: bool, preCompPlane: bool,
                        a: Answers, b: Answers, granted: bool) returns (ret: int)
      requires Valid() && |comps| > 0 && |comps| - 1 in preparing
      requires comps[|comps| - 1].squashFb == None && comps[|comps| - 1].preFb == None
      modifies this
      ensures ret == 0 <==>
                && (squashRegions ==> Ready(old(Model()), old(NextSquashFence()), a) && Done(a))
                && (!squashRegions && squashPlane ==> Done(a))
                && (preCompRegions ==> Ready(old(Model()), old(framebuffers[framebufferIndex]), b) && Done(b))
                && (preCompPlane ==> preCompRegions)
      ensures Valid() && Prepared(old(Model()), Model(), ret == 0, a.granted && b.granted && granted)
      ensures var c := |comps| - 1;
              ret == 0 ==>
                // The squash buffer comes first, and each buffer has a new point of its own.
                && squashFramebufferIndex == (if squashRegions then 1 - old(squashFramebufferIndex) else old(squashFramebufferIndex))
                && (comps[c].squashFb == if squashRegions || squashPlane then Some(squashFramebufferIndex) else None)
                && (comps[c].preFb == if preCompRegions then Some(old(framebufferIndex)) else None)
                && (comps[c].squashFb.Some? ==>
                      squashFramebuffers[squashFramebufferIndex] == FenceAt(c, old(comps[|comps| - 1].timeline) + 1))
                && (preCompRegions ==> framebuffers[old(framebufferIndex)] == FenceAt(c, comps[c].timeline))
                && comps[c].timeline == old(comps[|comps| - 1].timeline) + (if comps[c].squashFb.Some? then 1 else 0)
                                                                         + (if preCompRegions then 1 else 0)
    {
      ret := PrepareSquash(squashRegions, squashPlane, a);
      if ret != 0 {
        return;
      }
      FenceStays(old(Model()), Model());
      ret := PreparePreComp(preCompRegions, preCompPlane, b, granted);
    }

    method QueueFrame()
      requires Valid() && |comps| > 0 && preparing == {|comps| - 1}
      modifies this
      ensures Valid() && Step(old(Model()), Enqueue, Model())
    {
      preparing, frameQueue := {}, frameQueue + [|comps| - 1];
      StepKeepsInvariant(old(Model()), Enqueue, Model());
    }

    /**
     Commits the next frame. If the kernel refuses, the planes of the active composition are
     switched off so that its fences can be signalled; if that is refused too, the frame is
     destroyed and nothing else changes. The superseded composition signals its fences, and
     tries again when it is destroyed. Before any commit there is no active composition, and
     a refusal then reads through a null pointer.
     */
    method ApplyFrame(commit: int, disable: int, signalled: bool, destroyed: bool) returns (crashed: bool)
      requires Valid() && frameQueue != []
      modifies this
      ensures crashed <==> commit != 0 && old(activeComposition) == None
      ensures Valid()
      ensures if crashed then unchanged(this)
              else Step(old(Model()), Apply(commit == 0, disable == 0, Heard(commit, disable, signalled, destroyed)), Model())
      ensures (commit == 0 || disable == 0) && !crashed && (signalled || destroyed) && old(activeComposition).Some? ==>
                Released(Model(), old(activeComposition).value)
      ensures commit != 0 && disable != 0 && !crashed && destroyed ==> Released(Model(), old(frameQueue)[0])
    {
      crashed := commit != 0 && activeComposition == None;
      if crashed {
        return;
      }
      ghost var event := Apply(commit == 0, disable == 0, Heard(commit, disable, signalled, destroyed));
      var composition := frameQueue[0];
      frameQueue := frameQueue[1..];
      if commit == 0 {
        onScreen := Some(composition);
      } else {
        if disable != 0 {
          SignalTo(composition, comps[composition].timeline, destroyed);
          StepKeepsInvariant(old(Model()), event, Model());
          return;
        }
        onScreen := None;
      }
      var superseded := activeComposition;
      if superseded.Some? {
        SignalTo(superseded.value, comps[superseded.value].timeline, signalled);
      }
      activeComposition := Some(composition);
      if superseded.Some? {
        SignalTo(superseded.value, comps[superseded.value].timeline, destroyed);
      }
      StepKeepsInvariant(old(Model()), event, Model());
    }
  }

  /**
   Whether the kernel lets the composition that a commit retires signal its fences: the superseded
   one asks twice, a frame that is destroyed once.
   */
  predicate Heard(commit: int, disable: int, signalled: bool, destroyed: bool) {
    destroyed || (signalled && (commit == 0 || disable == 0))
  }

  /** The fence of the next framebuffer is not one of the composition in preparation. */
  lemma {:induction false} FenceStays(s: State, s': State)
    requires Invariant(s) && s.comps != [] && |s'.comps| == |s.comps|
    requires s'.comps[..|s.comps| - 1] == s.comps[..|s.comps| - 1] && s.comps[|s.comps| - 1].preFb == None
    ensures Signalled(s', s.framebuffers[s.index]) <==> Signalled(s, s.framebuffers[s.index])
  {
    var f := s.framebuffers[s.index];
    if f.FenceAt? {
      assert FenceOfShown(s, s.index);
      assert f.comp < |s.comps| - 1;
      assert s'.comps[..|s.comps| - 1][f.comp] == s.comps[..|s.comps| - 1][f.comp];
    }
  }

  /** A composition as the compositor takes it up. */
  function TakenUp(c: DrmDisplayComposition): Comp
    reads c
  {
    Comp(c.timeline, c.timelineCurrent, c.timelineSquashDone, c.timelinePreCompDone, None, None)
  }

  // ---------------------------------------------------------------- the fences of the layers

  /** The points of a plan stay what they are while its composition is carried out. */
  ghost predicate Marked(s: State, c: nat, planned: Comp) {
    c < |s.comps| && s.comps[c].squashDone == planned.squashDone && s.comps[c].preCompDone == planned.preCompDone
  }

  lemma {:induction false} StaysMarked(states: seq<State>, events: seq<Event>, t: nat, c: nat, planned: Comp)
    requires Run(states, events) && t < |events| && Marked(states[t], c, planned)
    ensures Marked(states[t + 1], c, planned)
  {
    RunKeepsInvariant(states, events, t);
    SameMarks(states[t], events[t], states[t + 1]);
  }

  lemma {:induction false} MarksStay(states: seq<State>, events: seq<Event>, u: nat, t: nat, c: nat, planned: Comp)
    requires Run(states, events) && u <= t <= |events| && Marked(states[u], c, planned)
    ensures Marked(states[t], c, planned)
  {
    if u < t {
      MarksStay(states, events, u, t - 1, c, planned);
      StaysMarked(states, events, t - 1, c, planned);
    }
  }

  lemma {:induction false} BeginMarks(s: State, planned: Comp, s': State)
    requires Step(s, Event.Begin(planned), s')
    ensures s'.comps == s.comps + [planned]
  {
  }

  /**
   The fence of a layer is not signalled while the layer may still be read: that of a layer with a
   plane of its own not while the composition is on its way to the screen or on it, that of a
   pre-composited layer not before the pre-composited buffer is drawn, and that of a squashed
   layer not before the squash buffer is.
   */
  lemma {:induction false} FencesHeld(states: seq<State>, events: seq<Event>, u: nat, t: nat, planned: Comp, point: nat)
    requires Run(states, events) && u < t <= |events| && events[u] == Event.Begin(planned)
    requires var c := |states[u].comps|; Live(states[t], c) || states[t].onScreen == Some(c)
    ensures var c, s := |states[u].comps|, states[t];
            && c < |s.comps|
            && (Signalled(s, FenceAt(c, point)) ==> point <= planned.preCompDone)
            && (Signalled(s, FenceAt(c, point)) && s.comps[c].preFb == None ==> point <= planned.squashDone)
            && (Signalled(s, FenceAt(c, point)) && s.comps[c].preFb == None && s.comps[c].squashFb == None ==> point == 0)
  {
    BeginMarks(states[u], planned, states[u + 1]);
    MarksStay(states, events, u + 1, t, |states[u].comps|, planned);
    RunKeepsInvariant(states, events, t);
    assert Holding(states[t], |states[u].comps|);
  }

  /** The fence that was given to layer `l` when its composition was planned. */
  ghost predicate ReleasedAt(planned: DrmDisplayComposition, l: nat, point: nat)
    reads planned
  {
    l < |planned.releaseFences| && planned.releaseFences[l] == At(point)
  }

  /**
   The release fence of a layer is not signalled while the layer may still be read: over a whole
   run, not while a plane of its own shows it or is on the way to do so, not before the
   pre-composited buffer is drawn if it is drawn into that one, and not before the squash buffer
   is if it is drawn into that one.
   */
  lemma {:induction false} LayerHeld(states: seq<State>, events: seq<Event>, u: nat, t: nat, planned: DrmDisplayComposition,
                                     before: seq<ReleaseFence>, start: nat, l: nat, point: nat)
    requires Run(states, events) && u < t <= |events| && events[u] == Event.Begin(TakenUp(planned))
    requires planned.FencesStaged(before, start) && ReleasedAt(planned, l, point)
    requires l < |before| && before[l] != NoOutput
    requires var c := |states[u].comps|; Live(states[t], c) || states[t].onScreen == Some(c)
    ensures var c, s := |states[u].comps|, states[t];
            && c < |s.comps|
            && (OnPlane(planned.compositionPlanes, l) ==> !Signalled(s, FenceAt(c, point)))
            && (InRegions(planned.preCompRegions, l) && s.comps[c].preFb == None ==> !Signalled(s, FenceAt(c, point)))
            && (InRegions(planned.squashRegions, l) && s.comps[c].preFb == None && s.comps[c].squashFb == None ==>
                  !Signalled(s, FenceAt(c, point)))
  {
    FencesHeld(states, events, u, t, TakenUp(planned), point);
  }

  // ---------------------------------------------------------------- the release

  /** No step shortens the timeline of a composition. */
  lemma {:induction false} TimelineStays(states: seq<State>, events: seq<Event>, u: nat, t: nat, planned: Comp)
    requires Run(states, events) && u < t <= |events| && events[u] == Event.Begin(planned)
    ensures var c := |states[u].comps|; c < |states[t].comps| && planned.timeline <= states[t].comps[c].timeline
  {
    if t == u + 1 {
      BeginMarks(states[u], planned, states[t]);
    } else {
      TimelineStays(states, events, u, t - 1, planned);
      RunKeepsInvariant(states, events, t - 1);
      PointsStay(states[t - 1], events[t - 1], states[t], |states[u].comps|);
    }
  }

  /**
   The counterpart of `FencesHeld`. Once a composition was superseded, dropped or destroyed in a
   step whose signal the kernel granted, every point that its plan created is signalled from
   then on; and so are the points of a stage once its buffer was drawn and the signal granted.
   */
  lemma {:induction false} FencesReleased(states: seq<State>, events: seq<Event>, u: nat, v: nat, t: nat, planned: Comp, point: nat)
    requires Run(states, events) && u < v < t <= |events| && events[u] == Event.Begin(planned) && Granted(events[v])
    ensures var c := |states[u].comps|;
            && c < |states[v].comps|
            && (Live(states[v], c) && !Live(states[v + 1], c) && point <= planned.timeline ==>
                  Signalled(states[t], FenceAt(c, point)))
            && (c == |states[v].comps| - 1 && events[v].RenderPreComp? && events[v].fenced && point <= planned.preCompDone ==>
                  Signalled(states[t], FenceAt(c, point)))
            && (c == |states[v].comps| - 1 && events[v].RenderSquash? && events[v].fenced && point <= planned.squashDone ==>
                  Signalled(states[t], FenceAt(c, point)))
  {
    var c := |states[u].comps|;
    TimelineStays(states, events, u, v, planned);
    TimelineStays(states, events, u, t, planned);
    if Live(states[v], c) && !Live(states[v + 1], c) && point <= planned.timeline {
      ReleasedEverAfter(states, events, v, t, c);
    }
    if c == |states[v].comps| - 1 && (events[v].RenderPreComp? || events[v].RenderSquash?) && events[v].fenced {
      BeginMarks(states[u], planned, states[u + 1]);
      MarksStay(states, events, u + 1, v, c, planned);
      RunKeepsInvariant(states, events, v);
      DrawnIsSignalled(states[v], events[v], states[v + 1]);
      PointsStayOverRuns(states, events, v + 1, t, c);
    }
  }

  /**
   When a layer is released, exactly: over every run in which the kernel grants what is to be
   signalled, the release fence of a layer on a plane of its own is signalled if and only if its
   composition was superseded, dropped or destroyed, and that of a layer in the pre-composited
   buffer if and only if that buffer was drawn or the composition is gone.
   */
  lemma {:induction false} LayerReleasedIff(states: seq<State>, events: seq<Event>, u: nat, t: nat, planned: DrmDisplayComposition,
                                            before: seq<ReleaseFence>, start: nat, l: nat, point: nat)
    requires Run(states, events) && AllGranted(events)
    requires u < t <= |events| && events[u] == Event.Begin(TakenUp(planned))
    requires planned.FencesStaged(before, start) && ReleasedAt(planned, l, point)
    requires l < |before| && before[l] != NoOutput
    ensures var c, s := |states[u].comps|, states[t];
            && c < |s.comps|
            && (OnPlane(planned.compositionPlanes, l) ==>
                  (Signalled(s, FenceAt(c, point)) <==> !Live(s, c)))
            && (InRegions(planned.preCompRegions, l) && !OnPlane(planned.compositionPlanes, l) ==>
                  (Signalled(s, FenceAt(c, point)) <==> s.comps[c].preFb.Some? || !Live(s, c)))
            && (!Live(s, c) && point <= planned.timeline ==> Signalled(s, FenceAt(c, point)))
  {
    var c, s := |states[u].comps|, states[t];
    TimelineStays(states, events, u, t, TakenUp(planned));
    if Live(s, c) {
      LayerHeld(states, events, u, t, planned, before, start, l, point);
      if s.comps[c].preFb.Some? {
        DrawnOverRuns(states, events, t, c);
        BeginMarks(states[u], TakenUp(planned), states[u + 1]);
        MarksStay(states, events, u + 1, t, c, TakenUp(planned));
      }
    } else {
      LiveOrReleased(states, events, t, c);
    }
  }
}
