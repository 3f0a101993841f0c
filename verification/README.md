# A hardware composer for DRM, modelled and verified in Dafny

The program composes the layers of a frame onto the planes of a display controller. This
project models the pipeline from the layers of a frame to the screen and proves what it
promises:

1. `Rects`, `SweepLine`, `Sweep`, `Pieces`, `IdSets`: the line sweep that turns overlapping
   rectangles into disjoint ones, each with the set of inputs over it.
2. `Layers`, `Squash`, `SquashCache`, `Faults`: the history of every region, and the buffer that
   keeps the drawing of the regions that have stopped changing, also over runs in which drawings
   fail or frames take no part.
3. `Separate`, `Words`, `Planes`, `PlanForm`, `Composition`, `Displays`: the planner. It shares
   out the planes, splits what is left into regions for the pre-composited buffer, and stages the
   fences that release the layers. `PlanForm` gives the plan in closed form, by counting.
4. `Blend`, `Sampling`, `Commit`: the command and the shader programs that draw a region, and what
   the commit of a frame asks of the planes.
5. `Stacking`, `Screen`, `Picture`, `CommitPicture`, `AnyFrame`, `Pixels`, `Runs`: what is on the
   screen at a cell, against the blend of all layers, with protected layers or without.
6. `Scanout`, `SquashBuffers`, `Compositor`: the rotating framebuffers, the queue, the commit and
   the fences, as a machine whose steps may interleave in any order: no fence is signalled too
   early, and every fence is signalled when its layer is no longer read.
7. `Cases`, `FaultCases`: runs and plans, layer by layer, in which the picture is not the one wanted.

There are two top results. `Runs.PictureOverRuns`: at every frame of every run without protected
layers, a cell shows what blending all layers would show, whatever the buffers hold, if and only
if, in a squashed region, nothing can be seen there of a layer with a plane of its own or some
layer is opaque, and elsewhere nothing can be seen that its plane shows otherwise than drawing
would. `Runs.RightOverRuns`: the same with protected layers, where moreover no layer may be lost.
Outside squashed regions "only if" is for cells at which no two layers show the same texel;
`Cases.SharedTexels` shows why. The conditions are in terms of the planes, the layers and the
flags of the stable regions, not of the plan. `Runs.RightOverFaults` carries the theorem over to
runs in which frames take no part and drawings fail. The theorems rest on the exactness and the
area conservation of the sweep, on the coherence of the squash buffer over runs, on the order and
the partition of the planes, and on the associativity of "over".

`dafny verify dfyconfig.toml` checks the project. Lemmas carry `{:induction false}`, so that no
proof depends on a hypothesis that Dafny adds by itself.

## What the code does otherwise than it says

- separate_rects.h:164 promises 64 inputs. The guard at separate_rects.cpp:88 counts the bits of
  the coordinate type, so the integer sweep takes 32 and returns nothing for more
  (`Pieces.ContractIffWithinGuard`, `Pieces.ThirtyThreeInputs`).
- A frame that pre-composites layers therefore gets no regions for them when these layers, the
  protected layers and the squashed regions are together more than 32, and
  `Compositor.DrmDisplayCompositor.PrepareFrame` refuses it (`Cases.FrameRefused`).
  `Screen.PreCompDrawnIff` says exactly when a frame is refused, for this reason or because none
  of its layers has a cell to draw. A frame that pre-composites nothing has no limit.
- drmdisplaycomposition.cpp:363-364 says that the top layer has the lowest index. The code, here
  and elsewhere, treats the highest index as the top; the model follows the code.
- The direct layers of a squashed region are shown by their planes and by the squash buffer. That
  is the picture only under the condition of `Picture.SquashedIff`; `Cases.BlendedTwice` is a run
  of eight frames in which it is not.
- The commit passes the alpha of a premultiplied layer only (drmdisplaycompositor.cpp:659 and
  700-701) and takes the crop in whole pixels (762-768). A plane therefore shows a layer with
  coverage blending in full, however faded it is (`Cases.FadedOnPlane`), and a layer whose crop
  has a fraction from another place (`Cases.ShiftedOnPlane`, `Commit.MisplacedIff`). Where that
  can be seen the picture is wrong (`AnyFrame.PictureIff`, `AnyFrame.FaithfulIff`).
- With two protected layers or more the squash plane may be dropped
  (drmdisplaycomposition.cpp:410) while the squashed regions are still left out of
  pre-composition. `AnyFrame.FaithfulIff` says exactly where the picture is right nevertheless,
  `AnyFrame.ExcludedCell` what that means in such a region, and `Cases.LayerVanishes` is a run in
  which a layer is not shown at all.
- The hole for a protected layer is punched by position among the used layers
  (drmdisplaycomposition.cpp:241). It never leaves a layer below the protected one
  (`Separate.HoleIsSafe`), but it may take away one above it; `Separate.HoleExactIff` says when
  it does not, and `Cases.HoleTakesLayerAbove` is a plan where it does.
- A squash framebuffer may be drawn while it is on the screen, after a composition that reused it
  could be neither committed nor replaced (`SquashBuffers.SquashOverwritten`). As long as no
  composition is destroyed that holds the squash framebuffer of another, that cannot happen
  (`SquashBuffers.SquashNotOverwritten`); destroying one leaves that framebuffer free to be drawn
  (`SquashBuffers.GuardedIffHarmless`).
- The regions count as squashed as soon as they are planned so, and the index of the squash
  framebuffer has moved (drmdisplaycompositor.cpp:528), even when the drawing then fails. The next
  frame shows the buffer all the same (`FaultCases.HalfDrawn`). `Faults.SoundIff` says exactly when
  the buffer is what drawing it would give.
- A frame with new geometry and fewer than three planes leaves the regions of the old geometry
  (drmdisplaycomposition.cpp:328), and a later frame with three planes uses them
  (`FaultCases.PassedOver`). That is right if and only if the squashed layers have not moved since
  they were drawn (`Faults.SoundIffUnmoved`). Frames without new geometry may be passed over
  without harm (`Faults.InOrderIsContinuous`).
- A frame without the geometry flag but with another number of layers is not compared with the one
  before (drmdisplaycompositor.cpp:71-75), so its regions may count as stable whatever it shows
  (`Faults.UncountedStep`). If its layers are all protected and as many as the planes, the unsigned
  budget of planes then runs below zero (`Cases.BudgetWraps`); `Planes.NoWrap` excludes just that.
- The history counter is a 32-bit one that wraps, so a region that has been quiet for 2^32 frames
  is taken for a new one for six frames (`SquashCache.CounterWraps`).

## Assumptions of the theorems

- Coordinates are integers without bounds, and areas do not overflow. Colours are reals: rounding
  in shaders and 8-bit buffers is not modelled, except for the early end of the fragment program.
- Id sets are sets of numbers. `IdSets` proves that the word operations of the original are those
  set operations, for 64-bit words and within the widths that its 32-bit shifts allow; the
  methods that use those shifts state the width in a `requires`.
- Planes are stacked in the order of the plan. A plane carries out what the commit asks of it: it
  shows the part of the buffer, turned and faded as asked, at the middle of each pixel. The commit
  says nothing about blending; a plane is taken to blend as its layer asks. A layer that does not
  blend has opaque texels. The buffers of direct layers are ready when the frame is committed.
- A buffer with the same handle holds the same picture.
- Between frames without the geometry flag only buffers and protection change; `Faults` says what
  becomes of the squash buffer otherwise.
- What the kernel, GL and the fence library answer is any value. It is a parameter of the methods
  and part of the events, so contracts say what happens for each answer. A commit replaces what is
  on the screen at once.

## Model

| member | source | states |
|---|---|---|
| IdSets.AddIsUnion | separate_rects.h:100-102 | adding an id is set union with it |
| IdSets.SubtractIsDifference | separate_rects.h:104-106 | removing an id is set difference |
| IdSets.SubtractRangeIsDifference | separate_rects.h:108-114 | removing a range removes the ids from start up to end, and nothing if start exceeds end |
| IdSets.BitTest | drmdisplaycomposition.cpp:236-239 | a word meets a one-bit mask just when it has that id |
| IdSets.LowMaskTest | drmdisplaycomposition.cpp:222-228 | a word meets the low mask of n bits just when it has an id below n |
| IdSets.FieldIsRange | drmdisplaycomposition.cpp:223-235 | the mask of m bits shifted by n leaves the ids from n up to n + m |
| IdSets.ShiftIsMove | drmdisplaycomposition.cpp:246-249 | the right shift of a word lowers its ids and drops those below the shift |
| IdSets.WordSize | separate_rects.h:172-173 | a word holds 64 bits |
| IdSets.WordsAreSets | separate_rects.h:124-126 | two words are equal just when they stand for the same set |
| SweepLine.RunningIsAt | separate_rects.cpp:185-203 | the running set after the events up to a position is the set of rectangles over that position |
| SweepLine.InsertInterval | separate_rects.cpp:139-146 | inserting the two events of a rectangle keeps the events sorted and complete |
| SweepLine.EraseInterval | separate_rects.cpp:147-161 | erasing finds both events (the two asserts) and leaves the events of the others |
| Sweep.HorizontalEvents | separate_rects.cpp:107-126 | the events are those of the rectangles that are not empty, sorted |
| Sweep.UpdateLine | separate_rects.cpp:134-161 | the sweep line holds the events of the rectangles that are open |
| Sweep.WalkDown | separate_rects.cpp:185-203 | the walk yields the cross section: the maximal stretches of rows with one cover |
| Sweep.MarkSeen | separate_rects.cpp:234-272 | exactly the runs of the column are started or seen, with their left edges; the last region is empty (third assert) |
| Sweep.EndUnseen | separate_rects.cpp:281-303 | the rectangles not seen are output with their right edge, the others stay |
| Sweep.ProcessLine | separate_rects.cpp:179-303 | one stop of the sweep keeps: output are the pieces that ended, open those that have not |
| Sweep.SeparateRects | separate_rects.cpp:74-305 | for at most 32 inputs the output is every maximal piece of the arrangement once; for more than 32 it is empty |
| Pieces.PieceAt | separate_rects.h:164-169 | every covered cell lies in a maximal piece |
| Pieces.PieceUnique | separate_rects.h:164-169 | and in only one |
| Pieces.SeparatedIsExact | separate_rects.h:164-169 | outputs are non-empty, disjoint, cover the covered cells and no other, and their id sets are exactly the inputs over each cell |
| Pieces.ContractIffWithinGuard | separate_rects.cpp:88-90 | the documented contract holds if and only if there are at most 32 inputs or none that is not empty |
| Pieces.ThirtyThreeInputs | separate_rects.cpp:88-90 | 33 unit squares for which it does not hold |
| Pieces.ThirtyTwoInputs | separate_rects.cpp:88-90 | for 32 inputs, unless all are empty, the documented contract holds and there is output |
| Pieces.NoVerticalSeam | separate_rects.cpp:224-272 | no two outputs with equal ids, top and bottom abut |
| Pieces.NoHorizontalSeam | separate_rects.cpp:187-203 | no two outputs with equal ids share part of a horizontal edge |
| Pieces.OutputUnique | separate_rects.cpp:74-305 | the output is determined by the input up to order |
| Pieces.AreaConserved | separate_rects.h:78-80 | the outputs that refer to an input have together its area |
| Pieces.KeptAreaReachesIff | drmdisplaycomposition.cpp:398-403 | the kept area falls short of the input's just when some output that refers to it is not kept |
| Squash.HistoryIsLog | drmdisplaycompositor.cpp:117-120 | the shifted six bits are the last six flags of the log |
| Squash.HistoryNoneIsQuiet | drmdisplaycompositor.h:55-58 | no bit set means no change in the last six recorded frames |
| Squash.SquashState.Init | drmdisplaycompositor.cpp:44-66 | fresh regions by the sweep, the handles of the layers, no history, nothing squashed |
| Squash.SquashState.GenerateHistory | drmdisplaycompositor.cpp:68-88 | a region changed just when a layer of it is protected or has another handle |
| Squash.SquashState.StableRegionsWithMarginalHistory | drmdisplaycompositor.cpp:90-97 | stable: not changed now, six frames recorded, quiet in all of them |
| Squash.SquashState.RecordHistory | drmdisplaycompositor.cpp:99-123 | the log grows by the flags, the handles are the new ones; nothing happens if the counts differ |
| Squash.SquashState.RecordAndCompareSquashed | drmdisplaycompositor.cpp:125-142 | the squashed set is replaced, and the answer is whether it differs |
| SquashCache.FlaggedRegionsAre | drmdisplaycomposition.cpp:349-374 | the squash regions are the stable ones, each with its layers from the top down |
| SquashCache.RunIsCoherent | drmdisplaycompositor.cpp:68-142 | over every run, what was last drawn is the squashed set, and its layers are still those drawn |
| SquashCache.ReuseIsSafe | drmdisplaycompositor.cpp:526-562 | when the buffer is shown without drawing, stable set and layers are those of the last drawing |
| SquashCache.CounterWraps | drmdisplaycompositor.h:55-58 | when 2^32 frames were recorded a region that nothing touched is not stable for six frames, and is again in the seventh |
| SquashCache.LogIsFrames | drmdisplaycompositor.cpp:99-123 | the log of a reachable state says for every frame since the geometry changed which regions were touched |
| SquashCache.StableIffSevenQuietFrames | drmdisplaycompositor.h:55-58 | stable if and only if six frames were recorded and no layer of the region changed or was protected in this frame and the six before |
| SquashCache.StableLayersKept | drmdisplaycompositor.cpp:76-87 | the layers of a stable region are unprotected, and the same as at the last drawing if it was squashed |
| Faults.DueStep | drmdisplaycompositor.cpp:416-446 | after a frame that changes what is squashed the buffer is sound if and only if nothing is squashed, or its drawing was done, or the buffer shown held it already |
| Faults.OtherStep | drmdisplaycompositor.cpp:535-561 | any other frame leaves the buffer as sound as it was |
| Faults.SoundIff | drmdisplaycompositor.cpp:526-562 | over every run, with any outcome of the drawings, the buffer shown holds what drawing it now would give if and only if the last change of what is squashed left it so |
| Faults.DoneIsSound | drmdisplaycompositor.cpp:526-562 | while every drawing is done the buffer is sound, whichever frames take no part |
| Faults.SoundIffUnmoved | drmdisplaycomposition.cpp:328-375 | over runs in which new geometry may be passed over, while the number of layers stays: the buffer shown is sound if and only if the squashed layers have the geometry they were drawn with; the history sees to their buffers and their protection |
| Faults.UncountedStep | drmdisplaycompositor.cpp:68-106 | a frame with another number of layers changes nothing in the history, and squashes every region that the history calls quiet |
| Faults.InOrderIsContinuous | drmdisplaycomposition.cpp:328-330 | `Faults.SoundIff` and `Faults.DoneIsSound` apply to every run in which the frames with new geometry take part |
| FaultCases.HalfDrawn | drmdisplaycompositor.cpp:526-533 | a run in which a drawing fails half way and the next frame shows the buffer as it is |
| FaultCases.PassedOver | drmdisplaycomposition.cpp:328-330 | a run in which new geometry comes with too few planes and the buffer is shown with a layer where it was |
| Separate.SetBitsToVector | drmdisplaycomposition.cpp:171-179 | the entries at the set bits, from the highest bit down |
| Separate.PunchHoles | drmdisplaycomposition.cpp:235-242 | the positions below every intersecting protected layer are removed, no other |
| Separate.RegionFor | drmdisplaycomposition.cpp:226-249 | a piece that meets an exclusion is dropped, any other gives one region |
| Separate.SeparateLayers | drmdisplaycomposition.cpp:181-251 | the regions are disjoint, lie exactly outside the exclusions and under used or protected layers, and list exactly the positions left at each cell, top first; beyond 32 rectangles there are none |
| Separate.SourcesWithoutProtected | drmdisplaycomposition.cpp:246-249 | without protected layers a region lists all used layers over its cells, highest first |
| Separate.SourceIsUsed | drmdisplaycomposition.cpp:246-249 | every source of a region is a used layer |
| Separate.HoleIsSafe | drmdisplaycomposition.cpp:230-242 | a region over a protected layer has only layers above it |
| Separate.PositionBelowIndex | drmdisplaycomposition.cpp:241 | no used layer has an index below its position |
| Separate.HoleExactIff | drmdisplaycomposition.cpp:241 | the hole for layer p removes exactly the layers below it if and only if all layers below p are used, or no used layer is above p |
| Cases.HoleTakesLayerAbove | drmdisplaycomposition.cpp:230-242 | a plan of four layers, one of them protected, in which a layer above it is removed and the picture is not always right |
| Words.SetBits | drmdisplaycomposition.cpp:171-179 | the loop over the bits of a word yields the entries of its id set from the top down |
| Words.ClearHoles | drmdisplaycomposition.cpp:223-242 | masks, tests and subtractions on a word give the id set with the holes punched |
| Words.RegionForWord | drmdisplaycomposition.cpp:222-250 | the region made from a word, by its masks and shifts, is the region of its id set, or none when that is dropped |
| Planes.TakeFrom | drmdisplaycomposition.cpp:137-146 | the first plane whose mask has the pipe is removed, the others stay in order; none if no mask has it |
| Planes.TakePlane | drmdisplaycomposition.cpp:148-155 | primary planes before overlay planes, and only a plane whose mask has the pipe; none just if no mask of either pool has it |
| Planes.UsableNone | drmplane.cpp:135-137 | no plane counts as usable just when no mask has the pipe |
| Planes.EmplaceCompositionPlane | drmdisplaycomposition.cpp:157-169 | with a usable plane left the next one is added for the source; else nothing changes |
| Planes.NextInTurn | drmdisplaycomposition.cpp:148-155 | planes taken one by one are the first primary ones that the pipe can use, then the first overlays; the pools keep the others in their order |
| Planes.InTurnConserves | drmdisplaycomposition.cpp:137-155 | taking planes in turn loses none and takes only what the pipe can use |
| Planes.TakeProtected | drmdisplaycomposition.cpp:378-388 | the lowest protected layers, as many as there are planes; the rest remain |
| Planes.StillNeeded | drmdisplaycomposition.cpp:398-403 | the remaining layers that the squashed area does not reach, in order |
| Planes.ReserveSquash | drmdisplaycomposition.cpp:405-412 | the squash buffer gets a plane just when another plane is left or no other layer needs one; the budget stays natural |
| Planes.PlaceLayers | drmdisplaycomposition.cpp:417-447 | the loop ends, and the planes show the protected layers merged by index with the lowest others; what is left is the rest |
| Planes.FillPlanes | drmdisplaycomposition.cpp:417-461 | direct layers, then PreComp if layers are left, then Squash if reserved; every one finds its plane |
| Planes.AssignPlanes | drmdisplaycomposition.cpp:378-461 | order of the sources, the planes that show them, taken in turn, partition of the layers, budget and conservation, also on the early return, unless the budget would run below zero |
| Cases.BudgetWraps | drmdisplaycomposition.cpp:405-412 | a squash memory and a frame with which it would |
| PlanForm.PlanDetermined | drmdisplaycomposition.cpp:378-461 | number of planes, layers and squashed area determine the plan |
| PlanForm.DirectIff | drmdisplaycomposition.cpp:378-447 | closed form: direct are the protected layers and the lowest n of the others that the squash buffer does not show, n given by the budget |
| PlanForm.RestIff | drmdisplaycomposition.cpp:449-456 | closed form of the pre-composited layers, and the position of each in their list |
| PlanForm.NeverOneLeft | drmdisplaycomposition.cpp:414-447 | never is exactly one layer pre-composited |
| Composition.AddSquashedArea | drmdisplaycomposition.cpp:362-373 | the area is added to every layer of the region and no other, and the sources are its layers, highest first |
| Composition.CollectSquash | drmdisplaycomposition.cpp:349-374 | exclusions, squashed areas and squash regions are those of the stable regions |
| Composition.StableHasUnprotected | drmdisplaycompositor.cpp:79-86 | a stable region has an unprotected layer, so the budget cannot run below zero |
| Composition.DrmDisplayComposition.CreateNextTimelineFence | drmdisplaycomposition.cpp:68-72 | the timeline grows by one, and there is a fence just if the kernel creates one at the new end |
| Composition.DrmDisplayComposition.IncreaseTimelineToPoint | drmdisplaycomposition.cpp:74-86 | the current point becomes the larger of itself and the point, or stays if the kernel refuses; it fails just when the kernel refused a point that was still to come |
| Composition.DrmDisplayComposition.SignalSquashDone | drmdisplaycomposition.h:77-79 | the current point becomes the squash mark if that is ahead and the kernel grants it, and never goes back |
| Composition.DrmDisplayComposition.SignalPreCompDone | drmdisplaycomposition.h:80-82 | the same with the mark of pre-composition |
| Composition.DrmDisplayComposition.SignalCompositionDone | drmdisplaycomposition.h:83-85 | the same with the end of the timeline: every fence created is signalled |
| Composition.DrmDisplayComposition.IssueFences | drmdisplaycomposition.cpp:281-297 | every layer of a stage that asked gets its own point in the interval of the stage, one point a layer; it fails just when the kernel refuses one of these points |
| Composition.DrmDisplayComposition.CollectStages | drmdisplaycomposition.cpp:253-279 | each set has the layers whose last stage it is, save the squashed layers that are also direct |
| Composition.DrmDisplayComposition.CreateAndAssignReleaseFences | drmdisplaycomposition.cpp:253-308 | the fence of each layer lies in the interval of the last stage that reads it, the marks are as far apart as layers asked; it fails just when the kernel refuses one of these points |
| Composition.DrmDisplayComposition.AddPlaneDisable | drmdisplaycomposition.cpp:120-124 | one plane to be switched off is added |
| Composition.DrmDisplayComposition.PlanSquash | drmdisplaycomposition.cpp:332-375 | memory, exclusions, areas and squash regions after the frame's turn with the squash state, for any number of layers |
| Composition.DrmDisplayComposition.SquashTurn | drmdisplaycomposition.cpp:323-376 | the same with the cases in which the squash state is set up anew or, with fewer than 3 planes, takes no part |
| Composition.PlanPlanes | drmdisplaycomposition.cpp:378-461 | planes, layers and pre-composited regions of a plan |
| Composition.DrmDisplayComposition.Plan | drmdisplaycomposition.cpp:310-464 | other types and no plane return at once, the latter with -19; else the squash memory, the plan of planes and regions, and staged fences, unless the kernel refuses one, also for a frame with another number of layers |
| Displays.DrmComposition.Plan | drmcomposition.cpp:103-117 | each display is planned with what the ones before it left, until one has no plane or is refused a fence; all planes are conserved |
| Displays.DrmComposition.DisableOverlays | drmcomposition.cpp:147-155 | every usable overlay is switched off in order, the others stay in order |
| Displays.DrmComposition.DisablePrimary | drmcomposition.cpp:139-146 | the first primary plane that the pipe can use is switched off, if there is one, and the others stay in order |
| Displays.DrmComposition.DisablePlanes | drmcomposition.cpp:139-155 | that one and all usable overlays are switched off, in this order, and leave the pools |
| Displays.DrmComposition.DisableUnusedPlanes | drmcomposition.cpp:119-158 | display by display, each active one switches off exactly what its pipe can still use; planes are conserved, and no overlay is left whose mask has the pipe of an active display |
| Displays.UnusedHasPipe | drmplane.cpp:135-137 | only planes that the pipe can use are switched off |
| Displays.FirstIsTaken | drmcomposition.cpp:139-146 | what the search takes is the first plane that the pipe can use |
| Displays.NoPlaneTwice | drmcomposition.cpp:103-158 | if every plane was there once, none is in two compositions or in a composition and a pool |
| Displays.NoOverlayLeft | drmcomposition.cpp:147-155 | none usable is left just when no mask of an overlay has the pipe |
| Displays.SiftUsable | drmcomposition.cpp:147-155 | what is left has no plane for the pipe, and no new one for another |
| Blend.OverAssociative | glworker.cpp:231-237 | "over" is associative |
| Blend.StackConcat | glworker.cpp:208-245 | a stack drawn in two parts is the stack |
| Blend.ShadeValid | glworker.cpp:234-237 | a valid sample contributes a valid premultiplied colour |
| Blend.PremultipliedFades | glworker.cpp:231-237 | a premultiplied texel contributes all its channels times alpha |
| Blend.StraightFades | glworker.cpp:231-237 | any other contributes its colours times its own opacity and alpha, and its opacity times alpha |
| Blend.StraightIsPremultiplied | glworker.cpp:231-237 | a straight texel and its premultiplied form contribute the same |
| Blend.OutputDetermined | glworker.cpp:208-245 | the output is determined by what the layers contribute |
| Blend.OneSampleShown | glworker.cpp:231-241 | a single premultiplied texel in full view comes out as it is |
| Blend.StackBelowOpaque | glworker.cpp:383-387 | nothing shows below an opaque colour |
| Blend.FragmentProgram | glworker.cpp:208-245 | the program returns the stack of the first layers, as few as leave an opacity of 0.5/255 or less to cover, or all; every channel is within 0.5/255 of the whole stack |
| Sampling.TurnsCompose | hwcomposer.cpp:314-330 | the quarter turns compose as a cyclic group |
| Sampling.MappingIsInverse | glworker.cpp:335-368 | for every decoded transform the texture mapping undoes flips first, then rotation |
| Sampling.AxisIndependent | glworker.cpp:370-381 | along an axis the interpolated crop of a region gives the layer's own coordinate |
| Sampling.SamplingIndependent | glworker.cpp:196-200 | what the vertex program computes does not depend on the region drawn |
| Sampling.SamplesCrop | glworker.cpp:316-326 | a point of the display frame is sampled, in pixels of the buffer, at the point of the crop that the transform takes there |
| Sampling.CropBounds | glworker.cpp:370-381 | the four crop edges of a texture |
| Sampling.OpaqueEnds | glworker.cpp:383-387 | the sources drawn end at the first that does not blend |
| Sampling.ConstructTexture | glworker.cpp:312-390 | the texture of one source is sampled where its layer asks, with its alpha and premultiplication |
| Sampling.ConstructCommand | glworker.cpp:309-392 | the textures are the sources from the top down to the first opaque one, each drawn as its layer asks |
| Commit.CommitFrame | drmdisplaycompositor.cpp:649-796 | every plane whose source is a layer that is ready is asked to show that layer's buffer in its frame, its crop in whole pixels, its transform, and its alpha if it is premultiplied, else 255; any other is switched off; the commit fails, with -22, just when a plane cannot turn or fade its layer |
| Commit.WholeIs | drmdisplaycompositor.cpp:757-768 | the whole pixels of a number are the nearest integer towards zero |
| Commit.MisplacedIff | drmdisplaycompositor.cpp:757-768 | inside its frame a plane shows a layer where drawing would show it if and only if the crop has its corner and its size in whole pixels |
| Stacking.OpaqueHides | glworker.cpp:383-387 | leaving out what lies below a layer that does not blend changes nothing |
| Stacking.BufferAt | drmdisplaycompositor.cpp:426-429 | where all regions over a cell have the same layers the buffer shows their stack, else nothing |
| Stacking.BufferSame | drmdisplaycompositor.cpp:535-550 | a buffer drawn from other layers shows the same if those it drew are the same |
| Stacking.DirectShown | drmdisplaycomposition.cpp:420-447 | the planes of direct layers show the stack of those layers |
| Stacking.PlanShown | drmdisplaycomposition.cpp:417-461 | a plan shows squash buffer over pre-composited buffer over direct layers |
| CommitPicture.FramebufferShown | drmdisplaycompositor.cpp:400-407 | the layer made for a framebuffer shows the pixels of that framebuffer |
| CommitPicture.PlaneCarried | drmdisplaycompositor.cpp:649-796 | a plane that carries out its request shows what the plan says of its source |
| CommitPicture.CommitShows | drmdisplaycompositor.cpp:649-796 | all planes together show the stack of the plan, the direct layers as committed |
| CommitPicture.CommitPrepared | drmdisplaycompositor.cpp:571-592 | a prepared frame whose layers are ready asks every plane for its own layer or framebuffer |
| Screen.SquashAt | drmdisplaycomposition.cpp:357-373 | the squash buffer has the stack of all layers in squashed cells, and nothing elsewhere |
| Screen.PreCompAt | drmdisplaycomposition.cpp:449-456 | the pre-composited buffer has the stack of its layers, but nothing in squashed cells |
| Screen.DroppedIsSquashed | drmdisplaycomposition.cpp:398-412 | a layer left to the squash buffer is over squashed cells only |
| Screen.DrawingIsAbove | drmdisplaycomposition.cpp:417-456 | what is pre-composited at a cell lies above every direct layer there, protected or not |
| Screen.CellKept | drmdisplaycomposition.cpp:378-461 | where the squash plane shows nothing, the planes show the stack of the layers that are kept: the direct ones, as their planes show them, and, outside squashed regions, those pre-composited ones that no hole takes |
| Screen.AllKept | drmdisplaycomposition.cpp:417-456 | without protected layers every layer is kept outside squashed cells |
| Screen.CellOutside | drmdisplaycomposition.cpp:378-461 | without protected layers, outside squashed cells the planes show the stack of all layers, the direct ones as their planes show them |
| Screen.CellInside | drmdisplaycomposition.cpp:378-461 | inside they show it over the direct layers once more |
| Screen.EachLayerOnce | drmdisplaycomposition.cpp:378-461 | every layer is direct, pre-composited or left to the squash plane, and only one of these; protected layers are direct and in no region |
| Screen.PreCompDrawnIff | drmdisplaycompositor.cpp:580-586 | with protected layers or without, the plane for pre-composition has regions if and only if there are at most 32 rectangles and some pre-composited layer reaches beyond the squashed regions or some protected layer is not empty |
| Cases.FrameRefused | drmdisplaycomposition.cpp:181-219 | a plan of 33 layers on one plane that has no regions |
| Cases.FrameSplit | drmdisplaycomposition.cpp:181-219 | every plan of 32 non-empty layers on one plane has regions |
| Picture.DrawPixel | glworker.cpp:309-392 | command and program draw, within 0.5/255, the stack of a region's layers, and nothing where there is nothing to see |
| Picture.Composite | glworker.cpp:552-684 | a framebuffer, cleared and drawn region by region, has at every cell what the regions make of their layers, within 0.5/255 |
| Picture.PaintLawful | glworker.cpp:231-237 | blending obeys the laws the stacking uses |
| Picture.BackedColor | drmdisplaycompositor.cpp:535-550 | the old squash buffer shows what drawing it now would show |
| Picture.CellShows | drmdisplaycomposition.cpp:310-464 | what a cell shows under any plan: the wanted picture over the direct layers where the squash plane shows something, else the layers that are kept; direct layers as committed |
| Picture.SquashedIff | drmdisplaycomposition.cpp:398-461 | where the squash plane shows something, a cell shows the wanted picture for all buffer contents if and only if nothing of the direct layers can be seen there or an opaque layer is there |
| AnyFrame.PictureIff | drmdisplaycomposition.cpp:310-464 | without protected layers: that condition in squashed cells; elsewhere the wanted picture if, and where no two layers show the same texel only if, every layer that its plane misshows (coverage blending with alpha below 255, or a crop off the pixel grid) lies below an opaque one |
| Picture.ShowsThrough | drmdisplaycomposition.cpp:398-412 | otherwise, in squashed cells, half-transparent buffers give another picture |
| Pixels.PixelsWithin | glworker.cpp:227-241 | for every plan that is carried out, where the picture is right, buffer pixels as the program leaves them give a screen within 0.5/255 of the picture in every channel |
| Pixels.ScreenPixel | drmdisplaycompositor.cpp:416-479 | drawing both buffers with that program and stacking the planes gives such a screen |
| Cases.BlendedTwice | drmdisplaycomposition.cpp:398-461 | a run of eight frames in which a squashed cell does not show the picture, because its layer is direct as well |
| AnyFrame.KeptIff | drmdisplaycomposition.cpp:449-456 | the layers kept, the direct ones as committed, show what all layers drawn would show for all buffer contents if nothing is lost or misshown that could be seen, and only if, where no two layers show the same texel |
| AnyFrame.FaithfulIff | drmdisplaycomposition.cpp:310-464 | for every plan that is carried out, with protected layers or without, the condition under which a cell shows the wanted picture for all buffer contents; exact where the squash plane shows something or no two layers show the same texel |
| AnyFrame.StarvedIff | drmdisplaycomposition.cpp:390-396 | the same on the early return |
| AnyFrame.ExcludedCell | drmdisplaycomposition.cpp:405-456 | a squashed cell (no protected layer is there, `Runs.NoProtectedSquashed`) without a squash plane has no pre-composited region, and is right if and only if no pre-composited layer can be seen there and the direct ones are right among themselves |
| AnyFrame.ShownAsDrawn | drmdisplaycompositor.cpp:696-717 | a plane shows a layer as drawing would, unless it is misshown |
| Cases.AloneIff | drmdisplaycompositor.cpp:696-768 | a frame of one layer on one plane is right at a cell if and only if its plane does not misshow it there |
| Cases.FadedOnPlane | drmdisplaycompositor.cpp:696-701 | a frame of one half-faded layer with coverage blending that is shown wrongly |
| Cases.ShiftedOnPlane | drmdisplaycompositor.cpp:757-768 | a frame of one layer whose crop begins between two pixels that is shown wrongly |
| Cases.SharedTexels | drmdisplaycompositor.cpp:696-701 | two layers that show the same texels, the upper one misshown and in full view, and the picture is right |
| Cases.LayerVanishes | drmdisplaycomposition.cpp:405-456 | a run with two protected layers in which a pre-composited layer is not shown |
| Runs.PlanIsStep | drmdisplaycomposition.cpp:323-376 | planning and drawing a frame is a step of the squash cache |
| Runs.PlanMayFollow | drmdisplaycomposition.cpp:332-336 | after every run the next frame leaves the budget of planes intact |
| Runs.RunIsBacked | drmdisplaycompositor.cpp:526-562 | at every frame of a run the squash buffer is as if drawn from the current layers |
| Runs.NoProtectedSquashed | drmdisplaycompositor.cpp:79-86 | no protected layer is in a squashed region |
| Runs.PictureOverRuns | drmdisplaycomposition.cpp:310-464 | the picture theorem at every frame of every run |
| Runs.RightOverRuns | drmdisplaycomposition.cpp:310-464 | the theorem for frames with protected layers or without, at every frame of every run |
| Runs.SoundIsBacked | drmdisplaycompositor.cpp:526-562 | over runs in which frames take no part and drawings fail, a frame that leaves the squash buffer sound has it as if drawn from its layers |
| Runs.RightOverFaults | drmdisplaycomposition.cpp:310-464 | the theorem over such runs, at every frame that leaves the squash buffer sound |
| Runs.RightWhileDone | drmdisplaycomposition.cpp:310-464 | in particular while every drawing is done, whichever frames without new geometry have too few planes |
| Scanout.StepKeepsInvariant | drmdisplaycompositor.cpp:448-479 | every step keeps: a composition not retired holds its framebuffer and has no later point signalled |
| Scanout.OnScreenNotSignalled | drmdisplaycompositor.cpp:877-907 | while a composition is on the screen no point after its pre-composition is signalled |
| Scanout.PreCompNotOverwritten | drmdisplaycompositor.cpp:377-414 | no framebuffer is drawn while a composition that shows it is on the screen or on its way |
| Scanout.SupersededIsRetired | drmdisplaycompositor.cpp:894-901 | a commit, or switching the old planes off, retires the composition that was active |
| Scanout.RetiredIsReleased | drmdisplaycomposition.cpp:41-46 | a composition that a step retires has all its points signalled, if the kernel grants it |
| Scanout.ReleasedEverAfter | drmdisplaycompositor.cpp:877-907 | and they stay signalled over every run |
| Scanout.LiveOrReleased | drmdisplaycompositor.cpp:877-907 | over runs in which the kernel grants every signal, every composition is on its way, active, or has all its points signalled |
| Scanout.DrawnOverRuns | drmdisplaycompositor.cpp:475-476 | in such runs the points of pre-composition are signalled as soon as the framebuffer is drawn |
| SquashBuffers.GuardedIffHarmless | drmdisplaycomposition.cpp:41-46 | a step leaves every squash framebuffer in use guarded by a fence if and only if it destroys no composition that holds the framebuffer of another, or the kernel refuses to signal for that one |
| SquashBuffers.SquashNotOverwritten | drmdisplaycompositor.cpp:416-446 | while that holds of every step, no squash framebuffer is drawn that a composition on the screen or on its way shows |
| SquashBuffers.SquashOverwritten | drmdisplaycompositor.cpp:535-561 | a run with one step for which it does not, in which the framebuffer on the screen is drawn |
| Compositor.FencesHeld | drmdisplaycomposition.cpp:253-308 | over every run no point of a stage is signalled while the stage may still read its layers |
| Compositor.LayerHeld | drmdisplaycomposition.cpp:253-308 | so the release fence of a layer on a plane is not signalled while its composition is on its way to the screen or on it, that of a layer in a pre-composited region not before that buffer is drawn, and that of a layer in a squash region not before the squash buffer is |
| Compositor.FencesReleased | drmdisplaycompositor.cpp:877-907 | after a step that retires a composition and whose signal is granted, every point of its plan is signalled for good; after the drawing of a buffer those of its stage are |
| Compositor.LayerReleasedIff | drmdisplaycomposition.cpp:253-308 | over every run with all signals granted, the fence of a layer on a plane is signalled if and only if its composition is gone, that of a pre-composited layer if and only if its buffer was drawn or the composition is gone |
| Compositor.DrmDisplayCompositor.Begin | drmdisplaycompositor.cpp:315-358 | a composition whose fences are staged is taken up with those stages, which is a step of the machine |
| Compositor.DrmDisplayCompositor.WaitReleased | drmframebuffer.h:87-95 | the wait succeeds just when there is no fence, or it is signalled and the wait did not fail |
| Compositor.DrmDisplayCompositor.SignalTo | drmdisplaycomposition.cpp:74-86 | the current point is raised to the given one just if it is ahead and the kernel grants it, never past the pre-composition of what is on the screen |
| Compositor.DrmDisplayCompositor.ApplyPreComposite | drmdisplaycompositor.cpp:448-479 | it succeeds just when the wait, the size, the drawing and the fence do, and each outcome is one step of the machine |
| Compositor.DrmDisplayCompositor.ApplySquash | drmdisplaycompositor.cpp:416-446 | the same for the next squash framebuffer, whose composition is destroyed otherwise |
| Compositor.DrmDisplayCompositor.ReuseSquashBuffer | drmdisplaycompositor.cpp:535-561 | a step of the machine, or the composition is destroyed |
| Compositor.DrmDisplayCompositor.PrepareSquash | drmdisplaycompositor.cpp:526-562 | the next squash framebuffer if one is drawn, the old one if a plane shows it, with a fence at a new point; exactly when it succeeds |
| Compositor.DrmDisplayCompositor.PreparePreComp | drmdisplaycompositor.cpp:564-592 | the next of the three framebuffers if one is drawn; a plane without regions fails with -22 |
| Compositor.DrmDisplayCompositor.PrepareFrame | drmdisplaycompositor.cpp:515-595 | the squash buffer first, the next one if it is drawn, then the next pre-composited one, each with a fence at a new point, and each just when it was asked for; exactly when that succeeds, and otherwise the composition is destroyed and its points signalled |
| Compositor.DrmDisplayCompositor.QueueFrame | drmdisplaycompositor.cpp:192-201 | the prepared composition goes to the end of the queue |
| Compositor.DrmDisplayCompositor.Drop | drmdisplaycomposition.cpp:41-46 | destroying a composition signals its fences, if the kernel grants it |
| Compositor.DrmDisplayCompositor.ApplyFrame | drmdisplaycompositor.cpp:877-907 | success, failure with the old planes switched off, and failure without, each a step of the machine; the superseded composition has all its points signalled if the kernel grants either request; a first commit that fails ends in a crash |

## Left out

- Sweep.SeparateRects: does not model the order of the output within one stop of the sweep, because the order of a map keyed by bit patterns has no meaning for its callers; the float instance is not modelled.
- Separate.SeparateLayers: does not model truncated exclusions as they are, because the sweep has given up long before (64 against 32 rectangles); up to 32 rectangles, widths beyond the 32-bit shifts are excluded by `requires`.
- Composition.DrmDisplayComposition.Plan: for frames without the geometry flag, more than 64 layers are excluded, because the set of layers of a region has 64 bits, and so is the budget that runs below zero (`Planes.NoWrap`).
- Displays.DrmComposition.Plan: asks that every display can be planned with any number of planes up to those it could use, because how many are left depends on the plans of the displays before it.
- Composition.StableHasUnprotected: stated for the layers the regions were made for, like the plan.
- Runs.PictureOverRuns: is for frames without protected layers; frames with them are covered by `Runs.RightOverRuns` and `AnyFrame.StarvedIff`. Frames that pre-composite more than fits into 32 rectangles are refused and show nothing new.
- AnyFrame.FaithfulIff: where two layers show the same texel at a cell the condition is sufficient only; what is necessary there depends on the alphas of all layers that share it.
- Faults.SoundIff: takes a buffer whose drawing was begun and left as unknown, because what GL leaves there is unknown.
- SquashBuffers.SquashNotOverwritten: goes one way over whole runs, because whether a framebuffer that lost its fence is drawn depends on what follows; step by step the condition is exact (`SquashBuffers.GuardedIffHarmless`).
- Compositor.DrmDisplayCompositor.ApplyFrame: a first commit that fails reads through a null pointer in the code; the model reports it and goes no further. The commit is one step, and the race of `SquashAll` with the frame worker is outside.
- Compositor.DrmDisplayCompositor.PrepareFrame: planes, regions and layers are parameters here, because the planner's result is the subject of other modules.
- SquashFrame: its rollback after the layers were moved, and the commit test that leads to it. Its plan with planes switched off beforehand is covered by `Composition.DrmDisplayComposition.Plan`.
- Acquire fences, and closing the fences that were handed out.
- The values of the transform flags: they come from a system header that is not part of this model.
- Frame numbers, generation numbers, dumps and logs.
- EGL and GL calls, shader compilation, DRM ioctls, buffer allocation and import: foreign calls.
- Worker threads, locks, vsync, the virtual compositor and the event listener.
- Modes, DPMS, connectors and encoders: easy members or kernel error paths.
