# Liquid Aurora: a verified model of the background engine

`LiquidAurora` (assets/js/liquid-aurora.js) draws an animated WebGL
background whose "liquid" is pulled towards influence points, the
*attractors*, placed on the page's buttons, links, headings and cards. Its
shader work is out of scope. What is modelled is the bookkeeping around it:

- the device performance profile that lowers the tunables;
- the selection of permanent attractors from the page elements (filter by
  size, one or three candidate points per element, sort by priority, keep
  as many as the shader has slots for);
- the per-frame attractor update (reposition, relax the strength, splice
  out finished transient points, cut back to capacity);
- the packing of the three uniform buffers (attractors, mask rectangles,
  glowing attractors) that `render` fills every frame;
- the frame loop: the `requestAnimationFrame` callback with its frame
  accumulator and shader time, and the lifecycle handlers (visibility
  change, page hide and show, context loss and restoration, destroy,
  start-up).

Modules, in dependency order:

| module | file | contents |
|---|---|---|
| `Util` | util.dfy | `Option`, min and max |
| `Geometry` | geometry.dfy | rectangles, viewport, `toNorm`, `getElementCenter` |
| `Profile` | profile.dfy | tunables, device signals, the profile as a function |
| `Attractors` | attractors.dfy | the attractor record and the per-frame update as functions |
| `Selection` | selection.dfy | candidate generation, the descending sort and the choice |
| `FrameClock` | frameclock.dfy | the frame accumulator as a function on timing states |
| `Packing` | packing.dfy | buffer contents as sequences, and the three packing loops on arrays |
| `Aurora` | aurora.dfy | the class `LiquidAurora`, its fields and its methods |

The class keeps the source's mutable state as fields. The attractor list is
a `seq` field that the update reassigns. The three `Float32Array` buffers
are `array<real>` fields, and the packing loops write them in place. Each
method is proved against a function of the old state: `UpdatedAttractors`
for the update, `Triples`/`Quads` for the buffers, `Advance` for the
refresh callback. The properties the source relies on are lemmas about
those functions.

The browser's callback queue is modelled as a handle counter `lastHandle`
and a ghost set `pending` of handles whose callback was requested and has
been neither cancelled nor run. `RequestFrame` and `CancelFrame` stand for
`requestAnimationFrame` and `cancelAnimationFrame`. `Fire(h)` is the
browser running callback `h`. The invariant `SinglePending()` says at most
one callback is pending, and that it is the one `animationId` tracks. Every
handler preserves it except the restored-context handler as written (see
Findings).

Modelling decisions:
- Numbers are `real`. `Float32Array` rounding and IEEE corner cases are
  not modelled, and neither is `NaN`: `a.halfW || 0.05` is modelled as
  "0 becomes 0.05".
- Clock readings (`performance.now()`), the page's visibility state, the
  viewport size, element rectangles and the outcome of each WebGL set-up
  step are parameters. A handler that reads the clock twice in a row
  (`handleVisibilityChange` and `handlePageShow`, then `animate`) receives
  one reading for both.
- Clock readings never go back in time: `Animate` and `Fire` require
  `now` to be at least the last recorded frame time, as `performance.now()`
  guarantees. Without that the accumulator could go negative.
- The viewport has positive width and height (`ValidViewport`). The
  source would divide by zero otherwise.
- Attractor objects are values. `updateAttractors` mutates each object in
  place, but nothing else holds a reference to them, so a list of records
  that is reassigned behaves the same.
- `init` sets `isInitialized` after `animate` and before
  `handleVisibilityChange`. The model does the same, in `StartAnimation`.
- `render` reallocates the buffers when their length differs from
  `maxAttractors * 3` (assets/js/liquid-aurora.js:623-625). That guard
  never fires: the buffers are allocated once for
  `max(1, maxAttractors)` slots, and `maxAttractors` is at least 5 and is
  never changed afterwards. `Valid()` states the buffer sizes and the
  guard is not modelled.
- The cut back to capacity at the end of `updateAttractors`
  (assets/js/liquid-aurora.js:594-596) never fires either: the list never
  exceeds `maxAttractors`, and the sweep only removes points
  (`CutNeverFires`). `UpdateAttractors` keeps it, as `Truncate`.
- The refresh callback right after a timing reset (on resume, on start and
  after a context restore) cannot render: `AnimateIdle` is `Animate` with
  that branch left out, and the handlers call it.

## Model

| member | source | states |
|---|---|---|
| Geometry.ToNorm | assets/js/liquid-aurora.js:510-513 | normalised x times the width gives back the pixel x, and (1 - y) times the height gives back the pixel y; a point inside the viewport lands in [0, 1]² |
| Geometry.ElementCenter | assets/js/liquid-aurora.js:563-570 | the centre is the normalised middle of the rectangle, inside [0, 1]² for a rectangle inside the viewport; the half extents are 0.55 of width and height over the viewport's width and height, so non-negative for non-negative sizes |
| Profile.Profiled | assets/js/liquid-aurora.js:91-111 | the profile never raises a knob and touches only the six it lowers; a mobile device or a viewport of at most 1024 px caps dprCap at 1.5, resolutionScale at 0.26, glowStrength at 0.12 and maxAttractors at 6; memory of at most 4 GiB caps dprCap at 1.3, resolutionScale at 0.20, colorIntensity at 0.25 and maxAttractors at 5; mobile or low memory caps targetFps at 28; dprCap ends at the smallest applicable cap; with no signal nothing changes |
| Profile.FrameMs | assets/js/liquid-aurora.js:113 | the frame interval is positive |
| Profile.FrameMsIsPeriod | assets/js/liquid-aurora.js:113 | targetFps intervals of frameMs fill exactly 1000 ms |
| Profile.DefaultProfileBounds | assets/js/liquid-aurora.js:91-114 | from the defaults, maxAttractors ends as 8, 6 or 5 (each with the exact signals that give it) and fits the shader's 8 slots; dprCap ≤ 2, resolutionScale ≤ 0.35, glowStrength ≤ 0.5, colorIntensity ≤ 0.3; targetFps is 30 or 28; frameMs ≥ 1000/30 |
| Aurora.LiquidAurora.constructor | assets/js/liquid-aurora.js:11-76 | a fresh engine is valid and paused with nothing pending; its knobs are the profile applied to the defaults; frameMs is 1000/targetFps; no canvas, context or program |
| Aurora.LiquidAurora.ApplyPerformanceProfile | assets/js/liquid-aurora.js:91-114 | the new knobs are `Profiled` of the old ones under the device signals, frameMs is 1000/targetFps, and nothing else changes |
| Aurora.LiquidAurora.AllocateBuffers | assets/js/liquid-aurora.js:116-121 | three fresh, distinct, zero-filled buffers of 3, 4 and 3 floats per slot for max(1, maxAttractors) slots; nothing else changes |
| Attractors.Reposition | assets/js/liquid-aurora.js:575-585 | with an element of positive size, the position and half extents become its current centre and footprint; otherwise, or without an element, the attractor is unchanged; nothing but those four fields changes |
| Attractors.Relax | assets/js/liquid-aurora.js:587 | the strength update `s + (t - s) · k`; its bounds are proved by `RelaxStaysBetween` |
| Attractors.RelaxStaysBetween | assets/js/liquid-aurora.js:587 | with a rate in [0, 1] the new strength lies between the old strength and the target, and the distance to the target shrinks by 1 - rate |
| Attractors.Relaxed | assets/js/liquid-aurora.js:587 | the strength update changes no field but the strength |
| Attractors.ShippedRateIsContraction | assets/js/liquid-aurora.js:48-54 | the registered fall speed times any clamped delta multiplier is a rate in [0, 1] |
| Attractors.Step | assets/js/liquid-aurora.js:573-587 | one attractor's frame takes its position and footprint from `Reposition` (the element's current rectangle), keeps identity, flags, target and fade speed, and moves the strength by (target - strength) · fadeSpeed · delta |
| Attractors.StepNeverOvershoots | assets/js/liquid-aurora.js:587 | with a rate in [0, 1] the stepped strength never passes the target |
| Attractors.Expired | assets/js/liquid-aurora.js:589 | the splice test: a transient point with target 0 whose strength fell below 0.01 |
| Attractors.Survivors | assets/js/liquid-aurora.js:573-592 | the sweep's specification: every point stepped, the expired ones dropped, in order; never longer than its input |
| Attractors.SurvivorsAreExactlyUnexpired | assets/js/liquid-aurora.js:573-592 | the update drops exactly the expired points: the survivor count is the input count minus the expired count, no survivor is expired, and each survivor is the step of some input |
| Attractors.PermanentSurvive | assets/js/liquid-aurora.js:589-591 | a permanent attractor is never removed: the number of permanent points is unchanged |
| Attractors.AllPermanentKeepsAll | assets/js/liquid-aurora.js:573-592 | a list of permanent attractors keeps its length, and each entry is merely stepped in place |
| Attractors.PositionsHoldTrue | assets/js/liquid-aurora.js:573-592 | each position listed by `Positions` (built with the index shift `Shift`) is in range and marks a kept point |
| Attractors.PositionsAscend | assets/js/liquid-aurora.js:573-592 | the listed positions ascend strictly |
| Attractors.PositionsComplete | assets/js/liquid-aurora.js:573-592 | every kept point's position is listed |
| Attractors.SurvivorsAreKeptSteps | assets/js/liquid-aurora.js:573-592 | the backward splicing pass equals stepping every point (`Stepped`), then keeping exactly the ones the mask `KeepMask` marks as not expired |
| Attractors.SelectCount | assets/js/liquid-aurora.js:589-591 | filtering by a mask keeps as many entries as the mask has marked positions |
| Attractors.SelectAtPositions | assets/js/liquid-aurora.js:589-591 | the k-th entry kept by a mask is the entry at the k-th marked position |
| Attractors.SurvivorsKeepOrder | assets/js/liquid-aurora.js:573-592 | the splice keeps relative order: the k-th survivor is the step of the input at the k-th kept position (those positions ascend by `PositionsAscend`) |
| Attractors.Truncate | assets/js/liquid-aurora.js:594-596 | the result is the prefix of length min(length, capacity) |
| Attractors.UpdatedAttractors | assets/js/liquid-aurora.js:572-597 | after the update the list holds at most maxAttractors points and never more than before |
| Attractors.CutNeverFires | assets/js/liquid-aurora.js:594-596 | a list that already fits the capacity comes out of the update as exactly its survivors: the cut back to capacity never fires while the engine is valid |
| Aurora.LiquidAurora.StepAttractor | assets/js/liquid-aurora.js:574-587 | the loop body's reposition and relaxation compute `Step` |
| Aurora.LiquidAurora.SweepAttractors | assets/js/liquid-aurora.js:573-592 | the backward loop with in-place splicing leaves exactly `Survivors` of its input |
| Aurora.LiquidAurora.UpdateAttractors | assets/js/liquid-aurora.js:572-597 | the new attractor list is `UpdatedAttractors` of the old one, so the engine stays valid |
| Selection.KeptElements | assets/js/liquid-aurora.js:506-507 | an element is kept exactly when it is more than 8 px wide and more than 8 px high |
| Selection.Kept | assets/js/liquid-aurora.js:507 | the size filter: more than 8 layout pixels wide and high |
| Selection.IsWide | assets/js/liquid-aurora.js:528 | more than 15% wider than high |
| Selection.IsTall | assets/js/liquid-aurora.js:529 | more than 15% higher than wide |
| Selection.CandidatesOf | assets/js/liquid-aurora.js:519-542 | one centre candidate with priority = area and scale 1; two more at 0.65 · area and scale 0.88 when the element is wide or tall; all share the element's footprint |
| Selection.SidePointsFlankCentre | assets/js/liquid-aurora.js:529-541 | a wide element's side points flank the centre left and right at its height; a tall one's flank it above and below at its x |
| Selection.NeverWideAndTall | assets/js/liquid-aurora.js:528-529 | no rectangle is both wide and tall |
| Selection.AllCandidates | assets/js/liquid-aurora.js:519-542 | every candidate comes from a kept element, every candidate of every kept element is in the pool, and the pool holds between one and three candidates per kept element |
| Selection.CandidatesOfEachLength | assets/js/liquid-aurora.js:519-541 | a run of elements yields one candidate each plus two for each wide or tall one |
| Selection.AllCandidatesInOrder | assets/js/liquid-aurora.js:506-541 | the pool is exactly the kept elements' candidate blocks concatenated in document order, so each kept element is registered once and the pool's length is the number of kept elements plus two per wide or tall one |
| Selection.SingleElementPool | assets/js/liquid-aurora.js:506-541 | a page with one element yields exactly that element's candidates when it is kept, and none otherwise |
| Selection.Insert | assets/js/liquid-aurora.js:544 | insertion adds exactly one candidate |
| Selection.InsertKeepsDescending | assets/js/liquid-aurora.js:544 | inserting into a descending list keeps it descending |
| Selection.SortDesc | assets/js/liquid-aurora.js:544 | the sort result is descending by priority and a permutation of its input |
| Selection.Chosen | assets/js/liquid-aurora.js:545 | min(#candidates, maxAttractors) candidates are chosen |
| Selection.ChosenAreTopPriority | assets/js/liquid-aurora.js:544-545 | the chosen candidates are descending; with the rejected ones they are exactly the candidates; no rejected candidate outranks a chosen one |
| Selection.ToAttractor | assets/js/liquid-aurora.js:547-558 | a chosen candidate becomes a permanent, non-glowing attractor for its element at the candidate's position and footprint, at rest at base strength times its scale, with the fall speed |
| Selection.Registered | assets/js/liquid-aurora.js:547-558 | never more attractors than the capacity |
| Selection.RegisteredShape | assets/js/liquid-aurora.js:547-558 | one attractor per chosen candidate, in order; each is permanent, not glowing, at strength = target = base · scale, with the fall speed |
| Selection.RegisteredAtRest | assets/js/liquid-aurora.js:553-555 | a registered attractor's step keeps its strength, and it is never expired |
| Aurora.LiquidAurora.RegisterUniformAttractors | assets/js/liquid-aurora.js:494-561 | the attractor list becomes `Registered` for the page and the capacity |
| FrameClock.DeltaMultiplier | assets/js/liquid-aurora.js:618 | the multiplier is in [0, 3], is elapsed/referenceFrameMs in range, and saturates at 0 and 3 |
| FrameClock.FMod | assets/js/liquid-aurora.js:702 | the remainder is in [0, m), x minus it is a whole multiple of m, it is at most x, and x itself when x < m |
| FrameClock.Advance | assets/js/liquid-aurora.js:689-710 | the first tick only records the time; otherwise the elapsed time is added to the accumulator; a render happens exactly when the accumulated time reaches frameMs; it is then given the whole accumulated time, the shader time grows by that over referenceFrameMs, and the accumulator becomes that time modulo frameMs |
| FrameClock.Replay | assets/js/liquid-aurora.js:684-711 | the timing state after a run of refresh callbacks: unchanged for none, and the last reading recorded otherwise |
| FrameClock.ReplayKeepsClockSettled | assets/js/liquid-aurora.js:684-711 | over any run of monotone clock readings the accumulator stays in [0, frameMs), the shader time never decreases, and it lags the wall clock by at most what is still accumulated |
| Packing.MaskHalf | assets/js/liquid-aurora.js:641-642 | a zero half extent becomes 0.05 in the mask buffer; non-zero values pass through, so the value is never 0 |
| Packing.Slot3 | assets/js/liquid-aurora.js:635-637 | a triple slot holds 3 floats |
| Packing.Slot4 | assets/js/liquid-aurora.js:639-642 | a mask slot holds 4 floats |
| Packing.Triples | assets/js/liquid-aurora.js:632-670 | n triple slots take 3n floats |
| Packing.Quads | assets/js/liquid-aurora.js:632-663 | n mask slots take 4n floats |
| Packing.Glowing | assets/js/liquid-aurora.js:644-649 | the glowing attractors in list order, the ones the third buffer is filled from |
| Packing.GlowingExtend | assets/js/liquid-aurora.js:644-649 | scanning one more attractor adds it to the glowing ones exactly when it glows |
| Packing.GlowingBounded | assets/js/liquid-aurora.js:644-649 | never more glowing slots than live ones, and the glow slots hold exactly the glowing attractors |
| Packing.PutTriple | assets/js/liquid-aurora.js:635-637 | writing slot i appends (x, y, z) to the first i slots; every float before and after the slot keeps its value |
| Packing.PutQuad | assets/js/liquid-aurora.js:639-642 | writing mask slot i appends its four values to the first i slots; every float before and after the slot keeps its value |
| Packing.LiveSlot | assets/js/liquid-aurora.js:632-642 | live slot i holds (x, y, strength) and (x, y, halfW or 0.05, halfH or 0.05) |
| Packing.DeadSlot | assets/js/liquid-aurora.js:652-670 | every slot from the live count up to the capacity is zero |
| Packing.FillLiveSlots | assets/js/liquid-aurora.js:621-650 | the first loop fills the live attractor and mask slots and one glow slot per glowing attractor; glowCount ≤ activeCount; every float past the filled prefixes keeps its value |
| Packing.PackSlot | assets/js/liquid-aurora.js:632-650 | one pass extends each filled prefix by one slot, and the glow prefix exactly when the attractor glows; the floats past the new prefixes keep their values |
| Packing.PackLiveSlot | assets/js/liquid-aurora.js:633-642 | slot i of the attractor and mask buffers is filled from the i-th attractor; the floats after it keep their values |
| Packing.PackGlowSlot | assets/js/liquid-aurora.js:644-649 | the next glow slot is filled from the glowing attractor; the floats after it keep their values |
| Packing.ZeroUnusedSlots | assets/js/liquid-aurora.js:652-663 | after the second loop the attractor and mask buffers equal the full packing of the list |
| Packing.ZeroUnusedGlowSlots | assets/js/liquid-aurora.js:665-670 | after the third loop the glow buffer equals the full packing of the glowing attractors |
| Aurora.LiquidAurora.PackBuffers | assets/js/liquid-aurora.js:621-670 | the three buffers hold exactly the packing of the current attractors; the counts are the list length and its glowing count |
| Aurora.AfterRender | assets/js/liquid-aurora.js:599-617 | what a render does to the list: nothing without context and program, otherwise the update; never longer, and within capacity after an update |
| Aurora.LiquidAurora.Render | assets/js/liquid-aurora.js:599-682 | without context or program nothing changes; otherwise the list becomes `UpdatedAttractors` with the clamped multiplier and the buffers hold its packing |
| Aurora.LiquidAurora.RequestFrame | assets/js/liquid-aurora.js:687 | a new handle, not pending before, becomes pending |
| Aurora.LiquidAurora.CancelFrame | assets/js/liquid-aurora.js:714 | the handle is no longer pending |
| Aurora.LiquidAurora.AccumulateFrameTime | assets/js/liquid-aurora.js:689-708 | the new timing state and the render decision are those of `Advance` |
| Aurora.LiquidAurora.Animate | assets/js/liquid-aurora.js:684-711 | with reduced motion nothing happens; otherwise exactly one new callback is requested and tracked, the timing follows `Advance`, a due render applies `AfterRender` and, with context and program, leaves the buffers holding the new list's packing; without a due render, or without context and program, the buffers are untouched |
| Aurora.LiquidAurora.AnimateIdle | assets/js/liquid-aurora.js:684-702 | the refresh callback when no render is due: one new callback tracked, the timing state becomes `Advance`'s, and attractors and buffers are not touched |
| Aurora.LiquidAurora.Fire | assets/js/liquid-aurora.js:687 | the browser runs pending callback h: it leaves the pending set, and `Animate`'s effect follows from the same old state: under reduced motion nothing else changes; otherwise one new callback replaces it, the timing follows `Advance`, the list follows `AfterRender` and the buffers its packing or stay untouched; at most one stays pending |
| Aurora.LiquidAurora.HandleVisibilityChange | assets/js/liquid-aurora.js:736-752 | hidden: the tracked callback is cancelled and the engine paused, idempotently; visible: a callback is requested only when none is tracked and motion is not reduced, with the timing reset to the current reading and no render; attractors, shader time and buffers never change; at most one stays pending |
| Aurora.LiquidAurora.HandlePageHide | assets/js/liquid-aurora.js:754-761 | cancels the tracked callback and pauses; a paused engine is left unchanged (idempotent) |
| Aurora.LiquidAurora.HandlePageShow | assets/js/liquid-aurora.js:763-770 | resumes only when visible, motion not reduced and no callback tracked, and then with exactly one new callback, the timing reset to the current reading, and attractors, shader time and buffers unchanged; otherwise nothing changes |
| Aurora.LiquidAurora.HandleContextLost | assets/js/liquid-aurora.js:772-781 | cancels the tracked callback, pauses and drops the program; a second call changes nothing |
| Aurora.LiquidAurora.Destroy | assets/js/liquid-aurora.js:713-719 | cancels the tracked callback, clears the id and drops the program; nothing pending remains if at most one was |
| Aurora.LiquidAurora.SetUpGraphics | assets/js/liquid-aurora.js:136-139 | set-up succeeds exactly when canvas, context, vertex buffer and both shaders and the link succeed; a program object exists once both shaders compiled |
| Aurora.LiquidAurora.Init | assets/js/liquid-aurora.js:123-163 | a second call changes nothing; reduced motion marks the instance initialised with the static fallback and touches neither graphics, timing, callbacks, attractors nor buffers; otherwise canvas, context and program follow the set-up outcomes, and the engine is initialised exactly when set-up succeeds, with the registered attractors rendered once, the buffers packed, and one callback pending on a visible page or none on a hidden one; a failed set-up leaves timing, callbacks, attractors and buffers untouched |
| Aurora.LiquidAurora.InitStatic | assets/js/liquid-aurora.js:127-133 | with reduced motion, start-up only marks the instance initialised and shows the static fallback when a canvas exists |
| Aurora.LiquidAurora.InitAnimated | assets/js/liquid-aurora.js:127-157 | the start-up without reduced motion: canvas, context and program follow the set-up outcomes; on failure timing, callbacks, attractors and buffers are untouched; on success the state is that of `Init`'s started engine |
| Aurora.LiquidAurora.FirstRender | assets/js/liquid-aurora.js:141-150 | registration, timing reset and one render at the reference interval |
| Aurora.LiquidAurora.StartAnimation | assets/js/liquid-aurora.js:152-157 | the first callback, the initialised mark and the visibility check; attractors and buffers untouched |
| Aurora.LiquidAurora.Start | assets/js/liquid-aurora.js:141-157 | the part of start-up after a successful set-up: registered, rendered, marked initialised, and running exactly when visible |
| Aurora.LiquidAurora.RestoreGraphics | assets/js/liquid-aurora.js:783-801 | without a canvas nothing changes; otherwise the context and program flags follow the outcomes; on success the timing is reset and one frame rendered with its packing; on failure timing, callbacks, attractors and buffers are untouched |
| Aurora.LiquidAurora.HandleContextRestoredAsWritten | assets/js/liquid-aurora.js:783-806 | the restore's outcome as in `RestoreGraphics` (context, program, timing, one rendered and packed frame, or nothing on failure); on success without reduced motion a new callback is always requested with the timestamp recorded, so a callback already tracked stays pending untracked and two are pending |
| Aurora.LiquidAurora.HandleContextRestored | assets/js/liquid-aurora.js:783-806 | the same restored state; the corrected handler resumes only when no callback is tracked, and keeps at most one pending |
| Aurora.StartOnDesktop | assets/js/liquid-aurora.js:123-163 | a desktop engine started on a visible page has a canvas, no reduced motion, and exactly its tracked callback pending |
| Aurora.LoseThenShow | assets/js/liquid-aurora.js:763-781 | losing the context and then showing the page leaves exactly one callback pending, the tracked one |
| Aurora.RestoreAfterShowAsWritten | assets/js/liquid-aurora.js:754-806 | start, lose the context, show the page, restore the context, hide the page: a callback is still pending on a paused engine |
| Aurora.RestoreAfterShow | assets/js/liquid-aurora.js:754-806 | the same sequence with the corrected handler leaves nothing pending |

## Left out

- GLSL shaders, `createShader`, uniform locations, `uniform*` uploads and `drawArrays`: GPU work with no statable contract. Shader set-up is an outcome parameter (`ShaderOutcome`).
- `setupCanvas`, `resizeCanvas`, `initWebGL` and `setupShaders` internals: DOM and WebGL I/O. Only whether each step succeeds is modelled. `resizeCanvas` (device pixel ratio and canvas size) is not part of this model.
- `initStaticFallback` and `ensureGlassLayer`: style assignments. Only the fact that the static fallback was set up is recorded.
- `detectMobile`: user-agent sniffing. Its result is the `isMobile` device signal.
- `attachVisibilityHandler` and the `_…Attached` guards: listener registration. The handlers are methods called directly.
- `handleContextLost`'s `event.preventDefault()`: browser event plumbing.
- The deferred start (`requestIdleCallback`/`setTimeout`) and `window.tuneLiquidAurora`: timing plumbing and an unchecked configuration patch.
- `console` logging and the opacity of the `.aurora` container.
- The buffer-reallocation guard in `render`: it cannot fire (see above).
- Selection.SortDesc: the comparator sort is modelled as a stable insertion sort. Its result is proved descending and a permutation, but stability is not proved.

## Findings

| source | as written | input that shows it | evidently intended | confidence | as-written member | corrected member |
|---|---|---|---|---|---|---|
| assets/js/liquid-aurora.js:803-805 | `handleContextRestored` calls `animate()` whenever motion is not reduced, without checking whether a callback is already tracked | start on a visible page, lose the context, get a `pageshow` or `focus` (a callback is requested), then have the context restored: `animate` requests a second callback and overwrites `animationId`, so the first stays pending untracked; the next `pagehide` cancels only the tracked one, and the untracked callback stays queued; once the page is shown again it runs and starts a second callback chain beside the tracked one | resume only when `animationId` is null, as `handleVisibilityChange` and `handlePageShow` do | not executed | Aurora.LiquidAurora.HandleContextRestoredAsWritten, Aurora.RestoreAfterShowAsWritten | Aurora.LiquidAurora.HandleContextRestored, Aurora.RestoreAfterShow |
