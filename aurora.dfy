/**
 * The background engine `LiquidAurora`: its tunables, its attractor list,
 * the three uniform buffers it fills every rendered frame, and the frame
 * scheduling state machine (running, paused, context lost, destroyed).
 *
 * The display-refresh callback queue of the browser is modelled by a
 * handle counter (`lastHandle`) and the ghost set `pending` of handles
 * whose callback has been requested and neither cancelled nor fired.
 * Clock readings (`performance.now()`), the page's visibility and the
 * outcome of every WebGL setup step are parameters.
 */
module Aurora {
  import opened Util
  import opened Geometry
  import opened Profile
  import opened Attractors
  import opened Selection
  import opened Packing
  import opened FrameClock

  /** How shader compilation and program linking end. */
  datatype ShaderOutcome = CompileFailed | LinkFailed | Linked

  /** The reduced-motion preference and the outcome of each fallible setup step. */
  datatype Startup = Startup(reducedMotion: bool, canvasFound: bool, contextAcquired: bool,
                             vertexBufferReady: bool, shaders: ShaderOutcome)

  function HandleSet(id: Option<nat>): set<nat> {
    if id.Some? then {id.value} else {}
  }

  /** What a render does to the attractor list: nothing without a context and program. */
  function AfterRender(s: seq<Attractor>, drawable: bool, effectiveDt: real, page: Page, cap: nat): (r: seq<Attractor>)
    requires ValidViewport(page.view)
    ensures |r| <= |s|
    ensures drawable ==> |r| <= cap
    ensures !drawable ==> r == s
  {
    if drawable then UpdatedAttractors(s, DeltaMultiplier(effectiveDt), page, cap) else s
  }

  class LiquidAurora {
    // rendering surface, context and program: present or null
    var hasCanvas: bool
    var hasContext: bool
    var hasProgram: bool

    const isMobile: bool
    const behavior: Behavior

    // tunables
    var dprCap: real
    var config: Config
    var maxAttractors: nat
    var targetFps: real
    var frameMs: real

    var attractors: seq<Attractor>
    var attractorBuffer: array<real>
    var maskBuffer: array<real>
    var glowBuffer: array<real>

    // time and animation
    var time: real
    var animationId: Option<nat>
    var reducedMotion: bool
    var isInitialized: bool
    var staticFallback: bool
    var lastFrameTime: Option<real>
    var frameAccumulator: real

    // the browser's callback queue
    var lastHandle: nat
    ghost var pending: set<nat>

    ghost predicate Valid()
      reads this
    {
      && 1 <= maxAttractors <= ShaderCapacity
      && targetFps > 0.0 && frameMs > 0.0
      && BuffersSized()
      && Settled(Clock(lastFrameTime, frameAccumulator, time), frameMs)
      && (forall h :: h in pending ==> 0 < h <= lastHandle)
    }

    /** Three distinct buffers with room for every slot, and no more attractors than slots. */
    ghost predicate BuffersSized()
      reads this
    {
      && 1 <= maxAttractors
      && attractorBuffer.Length == 3 * maxAttractors
      && maskBuffer.Length == 4 * maxAttractors
      && glowBuffer.Length == 3 * maxAttractors
      && attractorBuffer != maskBuffer && attractorBuffer != glowBuffer && maskBuffer != glowBuffer
      && |attractors| <= maxAttractors
    }

    /** At most one callback is pending, and it is the one `animationId` tracks. */
    ghost predicate SinglePending()
      reads this
    {
      pending <= HandleSet(animationId)
    }

    /** No callback tracked and the timing state reset. */
    ghost predicate Paused()
      reads this
    {
      animationId.None? && lastFrameTime.None? && frameAccumulator == 0.0
    }

    predicate Drawable()
      reads this
    {
      hasContext && hasProgram
    }

    /** The three buffers hold exactly the packing of the current attractors, slot by slot. */
    ghost predicate BuffersHold()
      reads this, attractorBuffer, maskBuffer, glowBuffer
    {
      && attractorBuffer[..] == Triples(attractors, maxAttractors)
      && maskBuffer[..] == Quads(attractors, maxAttractors)
      && glowBuffer[..] == Triples(Glowing(attractors), maxAttractors)
    }

    /** No buffer content changed. */
    twostate predicate BuffersUnchanged()
      reads this, attractorBuffer, maskBuffer, glowBuffer
    {
      && attractorBuffer[..] == old(attractorBuffer[..])
      && maskBuffer[..] == old(maskBuffer[..])
      && glowBuffer[..] == old(glowBuffer[..])
    }

    /**
     * The state right after a successful start from `pending0` pending
     * callbacks and shader time `time0`: program ready, the registered
     * attractors updated once at the reference interval and packed, and one
     * new callback running on a visible page, or paused on a hidden one.
     */
    ghost predicate Started(els: seq<Element>, page: Page, now: real, visible: bool,
                            pending0: set<nat>, time0: real)
      reads this, attractorBuffer, maskBuffer, glowBuffer
    {
      && ValidViewport(page.view)
      && Drawable() && time == time0 && BuffersHold()
      && attractors == UpdatedAttractors(Registered(els, page.view, maxAttractors, behavior),
                                         DeltaMultiplier(ReferenceFrameMs), page, maxAttractors)
      && (visible ==> && animationId.Some? && animationId.value !in pending0
                      && pending == pending0 + {animationId.value}
                      && lastFrameTime == Some(now) && frameAccumulator == 0.0)
      && (!visible ==> Paused() && pending == pending0)
    }

    /** The timing, scheduling, attractor and buffer state are those of the previous state. */
    twostate predicate Untouched()
      reads this, attractorBuffer, maskBuffer, glowBuffer
    {
      && attractors == old(attractors) && time == old(time)
      && lastFrameTime == old(lastFrameTime) && frameAccumulator == old(frameAccumulator)
      && animationId == old(animationId) && lastHandle == old(lastHandle) && pending == old(pending)
      && BuffersUnchanged()
    }

    constructor (signals: Signals)
      ensures Valid() && SinglePending() && pending == {} && Paused()
      ensures frameMs == FrameMs(targetFps)
      ensures fresh(attractorBuffer) && fresh(maskBuffer) && fresh(glowBuffer)
      ensures isMobile == signals.isMobile && behavior == DefaultBehavior
      ensures Knobs(dprCap, config, maxAttractors, targetFps) == Profiled(DefaultKnobs, signals)
      ensures attractors == [] && time == 0.0
      ensures !hasCanvas && !hasContext && !hasProgram
      ensures !reducedMotion && !isInitialized && !staticFallback
    {
      hasCanvas, hasContext, hasProgram := false, false, false;
      isMobile := signals.isMobile;
      behavior := DefaultBehavior;
      dprCap := DefaultDprCap;
      config := DefaultConfig;
      maxAttractors := ShaderCapacity;
      targetFps := DefaultTargetFps;
      frameMs := FrameMs(DefaultTargetFps);
      attractors := [];
      attractorBuffer, maskBuffer, glowBuffer := new real[0], new real[0], new real[0];
      time := 0.0;
      animationId := None;
      reducedMotion, isInitialized, staticFallback := false, false, false;
      lastFrameTime := None;
      frameAccumulator := 0.0;
      lastHandle := 0;
      pending := {};
      new;
      ApplyPerformanceProfile(signals.deviceMemory, signals.innerWidth);
      AllocateBuffers();
    }

    /** Lowers the tunables according to the device signals and recomputes the frame interval. */
    method ApplyPerformanceProfile(deviceMemory: Option<real>, innerWidth: int)
      requires 1 <= maxAttractors && targetFps > 0.0
      modifies this`dprCap, this`config, this`maxAttractors, this`targetFps, this`frameMs
      ensures Knobs(dprCap, config, maxAttractors, targetFps)
           == Profiled(old(Knobs(dprCap, config, maxAttractors, targetFps)),
                       Signals(isMobile, deviceMemory, innerWidth))
      ensures frameMs == FrameMs(targetFps) && 1 <= maxAttractors
    {
      var s := Signals(isMobile, deviceMemory, innerWidth);
      var lowMemory := deviceMemory.Some? && deviceMemory.value <= 4.0;
      var narrowViewport := innerWidth != 0 && innerWidth <= 1024;
      assert lowMemory == LowMemory(s) && narrowViewport == NarrowViewport(s);

      if isMobile || narrowViewport {
        dprCap := Min(dprCap, 1.5);
        config := config.(resolutionScale := Min(config.resolutionScale, 0.26));
        config := config.(glowStrength := Min(config.glowStrength, 0.12));
        maxAttractors := MinNat(maxAttractors, 6);
      }

      if lowMemory {
        dprCap := Min(dprCap, 1.3);
        config := config.(resolutionScale := Min(config.resolutionScale, 0.20));
        config := config.(colorIntensity := Min(config.colorIntensity, 0.25));
        maxAttractors := MinNat(maxAttractors, 5);
      }

      if isMobile || lowMemory {
        targetFps := Min(targetFps, 28.0);
      }

      frameMs := FrameMs(targetFps);
    }

    /** Fresh zero-filled buffers with room for `max(1, maxAttractors)` slots each. */
    method AllocateBuffers()
      modifies this`attractorBuffer, this`maskBuffer, this`glowBuffer
      ensures fresh(attractorBuffer) && fresh(maskBuffer) && fresh(glowBuffer)
      ensures attractorBuffer != maskBuffer && attractorBuffer != glowBuffer && maskBuffer != glowBuffer
      ensures attractorBuffer.Length == 3 * MaxNat(1, maxAttractors)
      ensures maskBuffer.Length == 4 * MaxNat(1, maxAttractors)
      ensures glowBuffer.Length == 3 * MaxNat(1, maxAttractors)
      ensures forall k :: 0 <= k < attractorBuffer.Length ==> attractorBuffer[k] == 0.0
      ensures forall k :: 0 <= k < maskBuffer.Length ==> maskBuffer[k] == 0.0
      ensures forall k :: 0 <= k < glowBuffer.Length ==> glowBuffer[k] == 0.0
    {
      var max := MaxNat(1, maxAttractors);
      attractorBuffer := new real[max * 3](_ => 0.0);
      maskBuffer := new real[max * 4](_ => 0.0);
      glowBuffer := new real[max * 3](_ => 0.0);
    }

    /**
     * Canvas lookup, context acquisition, vertex buffer and shader program,
     * each of which may fail; a program object exists once both shaders
     * compiled, even when linking then fails.
     */
    method SetUpGraphics(st: Startup) returns (ok: bool)
      modifies this`hasCanvas, this`hasContext, this`hasProgram
      ensures ok <==> st.canvasFound && st.contextAcquired && st.vertexBufferReady && st.shaders == Linked
      ensures hasCanvas == st.canvasFound
      ensures hasContext == (if st.canvasFound then st.contextAcquired else old(hasContext))
      ensures hasProgram == (if st.canvasFound && st.contextAcquired && st.vertexBufferReady
                             && st.shaders != CompileFailed then true else old(hasProgram))
    {
      ok := false;
      hasCanvas := st.canvasFound;
      if !hasCanvas {
        return;
      }
      hasContext := st.contextAcquired;
      if !hasContext {
        return;
      }
      if !st.vertexBufferReady {
        return;
      }
      match st.shaders
      case CompileFailed => return;
      case LinkFailed => hasProgram := true; return;
      case Linked => hasProgram := true;
      ok := true;
    }

    /**
     * Start-up: nothing on a second call; with reduced motion only the
     * static fallback; otherwise graphics set-up, attractor registration,
     * one immediate render, the first refresh callback and the visibility
     * check, which pauses again on a hidden page.
     */
    method Init(st: Startup, els: seq<Element>, page: Page, now: real, visible: bool)
      requires Valid() && ValidViewport(page.view)
      modifies this`reducedMotion, this`staticFallback, this`isInitialized,
               this`hasCanvas, this`hasContext, this`hasProgram,
               this`animationId, this`lastHandle, this`pending, this`lastFrameTime,
               this`frameAccumulator, this`time, this`attractors,
               attractorBuffer, maskBuffer, glowBuffer
      ensures Valid()
      ensures old(isInitialized) ==> unchanged(this)
      ensures old(isInitialized) ==>
        BuffersUnchanged()
      ensures old(pending) == {} ==> SinglePending()
      ensures !old(isInitialized) && st.reducedMotion ==>
        && isInitialized && reducedMotion && staticFallback == st.canvasFound
        && hasCanvas == old(hasCanvas) && hasContext == old(hasContext) && hasProgram == old(hasProgram)
        && Untouched()
      ensures !old(isInitialized) && !st.reducedMotion ==>
        && !reducedMotion && staticFallback == old(staticFallback) && hasCanvas == st.canvasFound
        && hasContext == (if st.canvasFound then st.contextAcquired else old(hasContext))
        && hasProgram == (if st.canvasFound && st.contextAcquired && st.vertexBufferReady
                          && st.shaders != CompileFailed then true else old(hasProgram))
        && (isInitialized <==> st.canvasFound && st.contextAcquired && st.vertexBufferReady
                               && st.shaders == Linked)
      ensures !old(isInitialized) && !st.reducedMotion && !isInitialized ==>
        Untouched()
      ensures !old(isInitialized) && !st.reducedMotion && isInitialized ==>
        Started(els, page, now, visible, old(pending), old(time))
    {
      if isInitialized {
        return;
      }

      if st.reducedMotion {
        InitStatic(st);
      } else {
        InitAnimated(st, els, page, now, visible);
      }
    }

    /** Start-up with reduced motion: only the static fallback, shown when a canvas exists. */
    method InitStatic(st: Startup)
      requires Valid() && st.reducedMotion
      modifies this`reducedMotion, this`staticFallback, this`isInitialized
      ensures Valid()
      ensures isInitialized && reducedMotion && staticFallback == st.canvasFound
    {
      reducedMotion := st.reducedMotion;
      staticFallback := st.canvasFound;
      isInitialized := true;
    }

    /** Start-up without reduced motion: graphics set-up and, when it succeeds, the start. */
    method InitAnimated(st: Startup, els: seq<Element>, page: Page, now: real, visible: bool)
      requires Valid() && ValidViewport(page.view) && !st.reducedMotion && !isInitialized
      modifies this`reducedMotion, this`hasCanvas, this`hasContext, this`hasProgram, this`isInitialized,
               this`animationId, this`lastHandle, this`pending, this`lastFrameTime,
               this`frameAccumulator, this`time, this`attractors,
               attractorBuffer, maskBuffer, glowBuffer
      ensures Valid() && !reducedMotion
      ensures old(pending) == {} ==> SinglePending()
      ensures hasCanvas == st.canvasFound
      ensures hasContext == (if st.canvasFound then st.contextAcquired else old(hasContext))
      ensures hasProgram == (if st.canvasFound && st.contextAcquired && st.vertexBufferReady
                             && st.shaders != CompileFailed then true else old(hasProgram))
      ensures isInitialized <==> st.canvasFound && st.contextAcquired && st.vertexBufferReady
                                 && st.shaders == Linked
      ensures !isInitialized ==> Untouched()
      ensures isInitialized ==> Started(els, page, now, visible, old(pending), old(time))
    {
      reducedMotion := st.reducedMotion;
      var ready := SetUpGraphics(st);
      if !ready {
        return;
      }
      assert Valid() && Drawable();

      Start(els, page, now, visible);
    }

    /**
     * Replaces the attractor list with the permanent attractors chosen from
     * the candidate elements of the page (see `Selection.Registered`).
     */
    method RegisterUniformAttractors(els: seq<Element>, page: Page)
      requires Valid() && ValidViewport(page.view)
      modifies this`attractors
      ensures Valid()
      ensures attractors == Registered(els, page.view, maxAttractors, behavior)
    {
      attractors := Registered(els, page.view, maxAttractors, behavior);
    }

    /** The part of start-up after a successful graphics set-up. */
    method Start(els: seq<Element>, page: Page, now: real, visible: bool)
      requires Valid() && ValidViewport(page.view) && Drawable() && !reducedMotion
      modifies this`isInitialized, this`animationId, this`lastHandle, this`pending, this`lastFrameTime,
               this`frameAccumulator, this`time, this`attractors,
               attractorBuffer, maskBuffer, glowBuffer
      ensures Valid() && isInitialized && time == old(time) && BuffersHold()
      ensures attractors == UpdatedAttractors(Registered(els, page.view, maxAttractors, behavior),
                                              DeltaMultiplier(ReferenceFrameMs), page, maxAttractors)
      ensures visible ==> && animationId.Some? && animationId.value !in old(pending)
                          && pending == old(pending) + {animationId.value}
                          && lastFrameTime == Some(now) && frameAccumulator == 0.0
      ensures !visible ==> Paused() && pending == old(pending)
      ensures old(pending) == {} ==> SinglePending()
    {
      FirstRender(els, page);
      ghost var rendered := attractors;

      StartAnimation(now, page, visible);
      assert attractors == rendered;
      assert BuffersHold();
    }

    /** Registration, timing reset and the immediate first render. */
    method FirstRender(els: seq<Element>, page: Page)
      requires Valid() && ValidViewport(page.view) && Drawable()
      modifies this`lastFrameTime, this`frameAccumulator, this`attractors,
               attractorBuffer, maskBuffer, glowBuffer
      ensures Valid() && BuffersHold()
      ensures attractors == UpdatedAttractors(Registered(els, page.view, maxAttractors, behavior),
                                              DeltaMultiplier(ReferenceFrameMs), page, maxAttractors)
      ensures lastFrameTime.None? && frameAccumulator == 0.0
    {
      RegisterUniformAttractors(els, page);
      ghost var registered := attractors;
      lastFrameTime := None;
      frameAccumulator := 0.0;
      Render(ReferenceFrameMs, page);
      assert attractors == UpdatedAttractors(registered, DeltaMultiplier(ReferenceFrameMs), page, maxAttractors);
    }

    /**
     * The first refresh callback request after the immediate render, the
     * initialised mark, then the visibility check.
     */
    method StartAnimation(now: real, page: Page, visible: bool)
      requires Valid() && ValidViewport(page.view) && !reducedMotion
      requires lastFrameTime.None? && frameAccumulator == 0.0
      modifies this`isInitialized, this`animationId, this`lastHandle, this`pending, this`lastFrameTime,
               this`frameAccumulator, this`time
      ensures Valid() && isInitialized && time == old(time) && attractors == old(attractors)
      ensures BuffersUnchanged()
      ensures visible ==> && animationId.Some? && animationId.value !in old(pending)
                          && pending == old(pending) + {animationId.value}
                          && lastFrameTime == Some(now) && frameAccumulator == 0.0
      ensures !visible ==> Paused() && pending == old(pending)
      ensures old(pending) == {} ==> SinglePending()
    {
      ghost var before := pending;
      AnimateIdle(now);
      assert pending == before + {animationId.value};
      ghost var scheduled := pending;
      isInitialized := true;

      HandleVisibilityChange(visible, now, page);
      assert visible ==> pending == scheduled;
    }

    /** `requestAnimationFrame`: a new handle whose callback is now pending. */
    method RequestFrame() returns (h: nat)
      requires Valid()
      modifies this`lastHandle, this`pending
      ensures Valid()
      ensures h > 0 && h !in old(pending) && pending == old(pending) + {h}
    {
      lastHandle := lastHandle + 1;
      h := lastHandle;
      pending := pending + {h};
    }

    /** `cancelAnimationFrame`. */
    method CancelFrame(h: nat)
      requires Valid()
      modifies this`pending
      ensures Valid()
      ensures pending == old(pending) - {h}
    {
      pending := pending - {h};
    }

    /** The body of the update loop for one attractor: reposition, then relax. */
    static method StepAttractor(a0: Attractor, deltaMultiplier: real, page: Page) returns (a: Attractor)
      requires ValidViewport(page.view)
      ensures a == Step(a0, deltaMultiplier, page)
    {
      a := a0;
      if a.element.Some? {
        var rect := RectOf(page, a.element.value);
        if rect.width > 0.0 && rect.height > 0.0 {
          var c := ElementCenter(rect, page.view);
          a := a.(x := c.x, y := c.y, halfW := c.halfW, halfH := c.halfH);
        }
      }
      a := a.(strength := a.strength + (a.targetStrength - a.strength) * a.fadeSpeed * deltaMultiplier);
    }

    /**
     * Walks the attractors from the last to the first: repositions each from
     * its element's current rectangle, relaxes its strength, and splices out
     * the expired transient ones; then cuts the list back to capacity.
     */
    method UpdateAttractors(deltaMultiplier: real, page: Page)
      requires Valid() && ValidViewport(page.view)
      modifies this`attractors
      ensures Valid()
      ensures attractors == UpdatedAttractors(old(attractors), deltaMultiplier, page, maxAttractors)
    {
      var list := SweepAttractors(attractors, deltaMultiplier, page);
      // the cut back to capacity; the sweep never lengthens the list, so it never cuts here
      attractors := Truncate(list, maxAttractors);
    }

    /** The backward loop of the update, on the list it splices. */
    static method SweepAttractors(s: seq<Attractor>, deltaMultiplier: real, page: Page)
      returns (list: seq<Attractor>)
      requires ValidViewport(page.view)
      ensures list == Survivors(s, deltaMultiplier, page)
    {
      list := s;
      var i := |list|;
      while i > 0
        invariant 0 <= i <= |s|
        invariant list == s[..i] + Survivors(s[i..], deltaMultiplier, page)
      {
        i := i - 1;
        ghost var tail := Survivors(s[i + 1..], deltaMultiplier, page);
        SurvivorsUnfold(s, i, deltaMultiplier, page);
        assert s[..i + 1] == s[..i] + [s[i]];
        assert list == s[..i] + [s[i]] + tail;
        var a := StepAttractor(list[i], deltaMultiplier, page);
        if !a.isPermanent && a.targetStrength == 0.0 && a.strength < NegligibleStrength {
          assert list[..i] == s[..i] && list[i + 1..] == tail;
          list := list[..i] + list[i + 1..];
        } else {
          list := list[i := a];
          assert list == s[..i] + [a] + tail;
        }
      }
      assert s[..0] == [] && s[0..] == s;
    }

    /**
     * Fills the three uniform buffers: live slots from the attractors, glow
     * slots from the glowing ones among them, the rest zero.
     */
    method PackBuffers() returns (activeCount: nat, glowCount: nat)
      requires Valid()
      modifies attractorBuffer, maskBuffer, glowBuffer
      ensures activeCount == |attractors| <= maxAttractors
      ensures glowCount == |Glowing(attractors)| <= activeCount
      ensures BuffersHold()
    {
      var attractorData, maskData, glowData := attractorBuffer, maskBuffer, glowBuffer;
      activeCount, glowCount := FillLiveSlots(attractors, maxAttractors, attractorData, maskData, glowData);
      ZeroUnusedSlots(attractors, maxAttractors, activeCount, attractorData, maskData);
      ZeroUnusedGlowSlots(Glowing(attractors), maxAttractors, glowCount, glowData);
    }

    /**
     * One render: skipped entirely without a context or program; otherwise
     * the attractor update with the clamped delta multiplier, then the
     * buffer packing (uniform upload and the draw call are not modelled).
     */
    method Render(effectiveDt: real, page: Page)
      requires Valid() && ValidViewport(page.view)
      modifies this`attractors, attractorBuffer, maskBuffer, glowBuffer
      ensures Valid()
      ensures attractors == AfterRender(old(attractors), Drawable(), effectiveDt, page, maxAttractors)
      ensures Drawable() ==> BuffersHold()
      ensures !Drawable() ==>
        BuffersUnchanged()
    {
      if !hasContext || !hasProgram {
        return;
      }
      var deltaMultiplier := Min(Max(effectiveDt / ReferenceFrameMs, 0.0), 3.0);
      UpdateAttractors(deltaMultiplier, page);
      var activeCount, glowCount := PackBuffers();
    }

    /**
     * The refresh callback: requests the next callback first, then either
     * records the first timestamp, or accumulates the elapsed time and
     * renders once a whole frame interval has accumulated.
     */
    method Animate(now: real, page: Page)
      requires Valid() && ValidViewport(page.view)
      requires lastFrameTime.Some? ==> lastFrameTime.value <= now
      modifies this`animationId, this`lastHandle, this`pending, this`lastFrameTime,
               this`frameAccumulator, this`time, this`attractors,
               attractorBuffer, maskBuffer, glowBuffer
      ensures Valid()
      ensures old(reducedMotion) ==> unchanged(this)
      ensures old(reducedMotion) ==>
        BuffersUnchanged()
      ensures !old(reducedMotion) ==>
        && animationId.Some? && animationId.value !in old(pending)
        && pending == old(pending) + {animationId.value}
      ensures !old(reducedMotion) ==>
        var t := Advance(old(Clock(lastFrameTime, frameAccumulator, time)), now, frameMs);
        && Clock(lastFrameTime, frameAccumulator, time) == t.clock
        && attractors == (if t.render.Some? then AfterRender(old(attractors), Drawable(), t.render.value, page, maxAttractors)
                          else old(attractors))
        && (t.render.Some? && Drawable() ==> BuffersHold())
        && (t.render.None? || !Drawable() ==> BuffersUnchanged())
      ensures old(SinglePending()) && old(pending) == {} ==> SinglePending()
    {
      if reducedMotion {
        return;
      }

      var h := RequestFrame();
      animationId := Some(h);

      var render := AccumulateFrameTime(now);
      if render.Some? {
        Render(render.value, page);
      }
    }

    /**
     * The refresh callback when no render is due (no timestamp recorded yet,
     * or less than one frame interval accumulated): it requests the next
     * callback and advances the timing state only, the render branch of
     * `Animate` not being taken.
     */
    method AnimateIdle(now: real)
      requires Valid() && !reducedMotion
      requires lastFrameTime.Some? ==> lastFrameTime.value <= now
      requires Advance(Clock(lastFrameTime, frameAccumulator, time), now, frameMs).render.None?
      modifies this`animationId, this`lastHandle, this`pending, this`lastFrameTime,
               this`frameAccumulator, this`time
      ensures Valid()
      ensures animationId.Some? && animationId.value !in old(pending)
      ensures pending == old(pending) + {animationId.value}
      ensures Clock(lastFrameTime, frameAccumulator, time)
           == Advance(old(Clock(lastFrameTime, frameAccumulator, time)), now, frameMs).clock
    {
      var h := RequestFrame();
      animationId := Some(h);
      var render := AccumulateFrameTime(now);
    }

    /**
     * The timing part of the refresh callback: records the first timestamp,
     * or accumulates the elapsed time; once a whole frame interval has
     * accumulated, keeps the remainder, advances the shader time by the
     * whole accumulated time and returns it as the render's elapsed time.
     */
    method AccumulateFrameTime(now: real) returns (render: Option<real>)
      requires Valid()
      requires lastFrameTime.Some? ==> lastFrameTime.value <= now
      modifies this`lastFrameTime, this`frameAccumulator, this`time
      ensures Valid()
      ensures Tick(Clock(lastFrameTime, frameAccumulator, time), render)
           == Advance(old(Clock(lastFrameTime, frameAccumulator, time)), now, frameMs)
    {
      if lastFrameTime.None? {
        lastFrameTime := Some(now);
        return None;
      }

      var dt := now - lastFrameTime.value;
      lastFrameTime := Some(now);
      frameAccumulator := frameAccumulator + dt;

      if frameAccumulator < frameMs {
        return None;
      }

      var effectiveDt := frameAccumulator;
      frameAccumulator := FMod(frameAccumulator, frameMs);

      time := time + effectiveDt / ReferenceFrameMs;
      render := Some(effectiveDt);
    }

    /** The browser runs the pending callback `h`. */
    method Fire(h: nat, now: real, page: Page)
      requires Valid() && ValidViewport(page.view) && h in pending
      requires lastFrameTime.Some? ==> lastFrameTime.value <= now
      modifies this`animationId, this`lastHandle, this`pending, this`lastFrameTime,
               this`frameAccumulator, this`time, this`attractors,
               attractorBuffer, maskBuffer, glowBuffer
      ensures Valid()
      ensures old(SinglePending()) ==> SinglePending()
      ensures old(reducedMotion) ==> pending == old(pending) - {h}
      ensures old(reducedMotion) ==>
        && animationId == old(animationId) && lastHandle == old(lastHandle)
        && Clock(lastFrameTime, frameAccumulator, time) == old(Clock(lastFrameTime, frameAccumulator, time))
        && attractors == old(attractors) && BuffersUnchanged()
      ensures !old(reducedMotion) ==>
        && animationId.Some? && pending == old(pending) - {h} + {animationId.value}
        && |pending| == |old(pending)|
      ensures !old(reducedMotion) ==>
        var t := Advance(old(Clock(lastFrameTime, frameAccumulator, time)), now, frameMs);
        && Clock(lastFrameTime, frameAccumulator, time) == t.clock
        && attractors == (if t.render.Some? then AfterRender(old(attractors), Drawable(), t.render.value, page, maxAttractors)
                          else old(attractors))
        && (t.render.Some? && Drawable() ==> BuffersHold())
        && (t.render.None? || !Drawable() ==> BuffersUnchanged())
    {
      pending := pending - {h};
      ghost var afterRemoval := pending;
      Animate(now, page);
      if !reducedMotion {
        assert pending == afterRemoval + {animationId.value};
      }
    }

    /** Cancels the tracked callback, if any, and resets the timing state. */
    method HandlePageHide()
      requires Valid()
      modifies this`animationId, this`pending, this`lastFrameTime, this`frameAccumulator
      ensures Valid() && Paused()
      ensures pending == old(pending) - HandleSet(old(animationId))
      ensures old(SinglePending()) ==> pending == {}
      ensures attractors == old(attractors) && time == old(time) && lastHandle == old(lastHandle)
      ensures hasContext == old(hasContext) && hasProgram == old(hasProgram)
      ensures old(Paused()) ==> unchanged(this)
    {
      if animationId.Some? {
        CancelFrame(animationId.value);
        animationId := None;
      }
      lastFrameTime := None;
      frameAccumulator := 0.0;
    }

    /** Hidden: pause as on page hide. Visible: resume unless a callback is tracked or motion is reduced. */
    method HandleVisibilityChange(visible: bool, now: real, page: Page)
      requires Valid() && ValidViewport(page.view)
      modifies this`animationId, this`lastHandle, this`pending, this`lastFrameTime,
               this`frameAccumulator, this`time
      ensures Valid()
      ensures old(SinglePending()) ==> SinglePending()
      ensures !visible ==> Paused() && pending == old(pending) - HandleSet(old(animationId))
      ensures !visible ==> attractors == old(attractors) && time == old(time) && lastHandle == old(lastHandle)
      ensures BuffersUnchanged()
      ensures !visible && old(Paused()) ==> unchanged(this)
      ensures visible && (old(animationId).Some? || old(reducedMotion)) ==> unchanged(this)
      ensures visible && old(animationId).None? && !old(reducedMotion) ==>
        && animationId.Some? && animationId.value !in old(pending)
        && pending == old(pending) + {animationId.value}
        && lastFrameTime == Some(now) && frameAccumulator == 0.0
        && time == old(time) && attractors == old(attractors)
    {
      if !visible {
        if animationId.Some? {
          CancelFrame(animationId.value);
          animationId := None;
        }
        lastFrameTime := None;
        frameAccumulator := 0.0;
        return;
      }

      if animationId.None? && !reducedMotion {
        lastFrameTime := Some(now);
        frameAccumulator := 0.0;
        AnimateIdle(now);
      }
    }

    /** Resume on page show or focus, under the same guard as a visibility change. */
    method HandlePageShow(visible: bool, now: real, page: Page)
      requires Valid() && ValidViewport(page.view)
      modifies this`animationId, this`lastHandle, this`pending, this`lastFrameTime,
               this`frameAccumulator, this`time
      ensures Valid()
      ensures hasContext == old(hasContext) && hasProgram == old(hasProgram)
      ensures old(SinglePending()) ==> SinglePending()
      ensures BuffersUnchanged()
      ensures old(reducedMotion) || !visible || old(animationId).Some? ==> unchanged(this)
      ensures !old(reducedMotion) && visible && old(animationId).None? ==>
        && animationId.Some? && animationId.value !in old(pending)
        && pending == old(pending) + {animationId.value}
        && lastFrameTime == Some(now) && frameAccumulator == 0.0
        && time == old(time) && attractors == old(attractors)
    {
      if reducedMotion || !visible {
        return;
      }
      if animationId.None? {
        lastFrameTime := Some(now);
        frameAccumulator := 0.0;
        AnimateIdle(now);
      }
    }

    /** Context loss: pause and drop the program. */
    method HandleContextLost()
      requires Valid()
      modifies this`animationId, this`pending, this`lastFrameTime, this`frameAccumulator,
               this`hasProgram
      ensures Valid() && Paused() && !hasProgram
      ensures pending == old(pending) - HandleSet(old(animationId))
      ensures old(SinglePending()) ==> pending == {}
      ensures attractors == old(attractors) && time == old(time) && lastHandle == old(lastHandle)
      ensures hasContext == old(hasContext)
      ensures old(Paused()) && !old(hasProgram) ==> unchanged(this)
    {
      if animationId.Some? {
        CancelFrame(animationId.value);
        animationId := None;
      }
      hasProgram := false;
      lastFrameTime := None;
      frameAccumulator := 0.0;
    }

    /** Teardown: cancel the tracked callback and drop the program. */
    method Destroy()
      requires Valid()
      modifies this`animationId, this`pending, this`hasProgram
      ensures Valid()
      ensures animationId.None? && !hasProgram
      ensures pending == old(pending) - HandleSet(old(animationId))
      ensures old(SinglePending()) ==> pending == {}
      ensures attractors == old(attractors) && time == old(time) && lastHandle == old(lastHandle)
      ensures lastFrameTime == old(lastFrameTime) && frameAccumulator == old(frameAccumulator)
      ensures hasContext == old(hasContext)
    {
      if animationId.Some? {
        CancelFrame(animationId.value);
      }
      animationId := None;
      hasProgram := false;
    }

    /** Re-acquires the context and relinks the program; on success renders one frame. */
    method RestoreGraphics(contextAcquired: bool, vertexBufferReady: bool, shaders: ShaderOutcome, page: Page)
      returns (ok: bool)
      requires Valid() && ValidViewport(page.view)
      modifies this`hasContext, this`hasProgram, this`lastFrameTime, this`frameAccumulator,
               this`attractors, attractorBuffer, maskBuffer, glowBuffer
      ensures Valid()
      ensures ok <==> old(hasCanvas) && contextAcquired && vertexBufferReady && shaders == Linked
      ensures animationId == old(animationId) && pending == old(pending) && lastHandle == old(lastHandle)
      ensures time == old(time)
      ensures !old(hasCanvas) ==> unchanged(this)
      ensures hasContext == (if old(hasCanvas) then contextAcquired else old(hasContext))
      ensures hasProgram == (if old(hasCanvas) && contextAcquired && vertexBufferReady
                             && shaders != CompileFailed then true else old(hasProgram))
      ensures !ok ==> Untouched()
      ensures ok ==> Drawable() && lastFrameTime.None? && frameAccumulator == 0.0
      ensures ok ==> attractors == AfterRender(old(attractors), true, ReferenceFrameMs, page, maxAttractors) && BuffersHold()
    {
      ok := false;
      if !hasCanvas {
        return;
      }
      hasContext := contextAcquired;
      if !hasContext {
        return;
      }
      if !vertexBufferReady {
        return;
      }
      match shaders
      case CompileFailed => return;
      case LinkFailed => hasProgram := true; return;
      case Linked => hasProgram := true;

      lastFrameTime := None;
      frameAccumulator := 0.0;
      Render(ReferenceFrameMs, page);
      ok := true;
    }

    /** `handleContextRestored` as the source has it: resumes without checking for a tracked callback. */
    method HandleContextRestoredAsWritten(contextAcquired: bool, vertexBufferReady: bool,
                                          shaders: ShaderOutcome, now: real, page: Page)
      requires Valid() && ValidViewport(page.view)
      modifies this`hasContext, this`hasProgram,
               this`animationId, this`lastHandle, this`pending, this`lastFrameTime,
               this`frameAccumulator, this`time, this`attractors,
               attractorBuffer, maskBuffer, glowBuffer
      ensures Valid()
      ensures hasContext == (if old(hasCanvas) then contextAcquired else old(hasContext))
      ensures hasProgram == (if old(hasCanvas) && contextAcquired && vertexBufferReady
                             && shaders != CompileFailed then true else old(hasProgram))
      ensures var ok := old(hasCanvas) && contextAcquired && vertexBufferReady && shaders == Linked;
        && (!ok ==> Untouched())
        && (ok ==> && Drawable() && time == old(time) && frameAccumulator == 0.0 && BuffersHold()
                   && attractors == AfterRender(old(attractors), true, ReferenceFrameMs, page, maxAttractors))
        && (ok && old(reducedMotion) ==>
              lastFrameTime.None? && pending == old(pending) && animationId == old(animationId))
        && (ok && !old(reducedMotion) ==>
              lastFrameTime == Some(now) && animationId.Some? && animationId.value !in old(pending) &&
              pending == old(pending) + {animationId.value})
        && (ok && !old(reducedMotion) && old(animationId).Some? && old(animationId).value in old(pending) ==>
              && old(animationId).value in pending && animationId.value != old(animationId).value
              && !SinglePending())
    {
      var ok := RestoreGraphics(contextAcquired, vertexBufferReady, shaders, page);
      if ok && !reducedMotion {
        AnimateIdle(now);
      }
    }

    /** `handleContextRestored` with the same guard as every other resume path. */
    method HandleContextRestored(contextAcquired: bool, vertexBufferReady: bool,
                                 shaders: ShaderOutcome, now: real, page: Page)
      requires Valid() && ValidViewport(page.view)
      modifies this`hasContext, this`hasProgram,
               this`animationId, this`lastHandle, this`pending, this`lastFrameTime,
               this`frameAccumulator, this`time, this`attractors,
               attractorBuffer, maskBuffer, glowBuffer
      ensures Valid()
      ensures old(SinglePending()) ==> SinglePending()
      ensures hasContext == (if old(hasCanvas) then contextAcquired else old(hasContext))
      ensures hasProgram == (if old(hasCanvas) && contextAcquired && vertexBufferReady
                             && shaders != CompileFailed then true else old(hasProgram))
      ensures var ok := old(hasCanvas) && contextAcquired && vertexBufferReady && shaders == Linked;
        && (!ok ==> Untouched())
        && (ok ==> && Drawable() && time == old(time) && frameAccumulator == 0.0 && BuffersHold()
                   && attractors == AfterRender(old(attractors), true, ReferenceFrameMs, page, maxAttractors))
        && (ok && (old(reducedMotion) || old(animationId).Some?) ==>
              lastFrameTime.None? && pending == old(pending) && animationId == old(animationId))
        && (ok && !old(reducedMotion) && old(animationId).None? ==>
              lastFrameTime == Some(now) && animationId.Some? && animationId.value !in old(pending) &&
              pending == old(pending) + {animationId.value})
    {
      var ok := RestoreGraphics(contextAcquired, vertexBufferReady, shaders, page);
      if ok && !reducedMotion && animationId.None? {
        AnimateIdle(now);
      }
    }
  }

  /** A 1920 by 1080 page without candidate elements. */
  const DesktopPage := Page(Viewport(1920.0, 1080.0), map[])

  /** A desktop engine started on a visible page: one callback pending and tracked. */
  method StartOnDesktop() returns (engine: LiquidAurora)
    ensures fresh(engine) && fresh(engine.attractorBuffer) && fresh(engine.maskBuffer) && fresh(engine.glowBuffer)
    ensures engine.Valid() && engine.hasCanvas && !engine.reducedMotion
    ensures engine.animationId.Some? && engine.pending == {engine.animationId.value}
  {
    engine := new LiquidAurora(Signals(false, None, 1920));
    engine.Init(Startup(false, true, true, true, Linked), [], DesktopPage, 0.0, true);
  }

  /**
   * Start on a visible desktop page, lose the context, then show the page
   * again: one callback is requested and tracked while the context is gone.
   */
  method LoseThenShow() returns (engine: LiquidAurora)
    ensures fresh(engine) && fresh(engine.attractorBuffer) && fresh(engine.maskBuffer) && fresh(engine.glowBuffer)
    ensures engine.Valid() && engine.hasCanvas && !engine.reducedMotion
    ensures engine.animationId.Some? && engine.pending == {engine.animationId.value}
  {
    engine := StartOnDesktop();
    engine.HandleContextLost();
    assert engine.pending == {} && engine.animationId.None?;
    engine.HandlePageShow(true, 100.0, DesktopPage);
  }

  /**
   * Lose the context, show the page, then have the context restored with
   * the handler as written: the callback requested on page show stays
   * pending untracked, so the page hide that follows cannot cancel it.
   */
  method RestoreAfterShowAsWritten() returns (engine: LiquidAurora)
    ensures engine.Valid() && engine.Paused() && engine.pending != {}
  {
    engine := LoseThenShow();
    ghost var shown := engine.animationId.value;
    engine.HandleContextRestoredAsWritten(true, true, Linked, 200.0, DesktopPage);
    assert shown in engine.pending && engine.animationId.value != shown;
    engine.HandlePageHide();
    assert shown in engine.pending;
  }

  /** The same sequence with the guarded handler: the page hide leaves nothing pending. */
  method RestoreAfterShow() returns (engine: LiquidAurora)
    ensures engine.Valid() && engine.Paused() && engine.pending == {}
  {
    engine := LoseThenShow();
    engine.HandleContextRestored(true, true, Linked, 200.0, DesktopPage);
    assert engine.SinglePending();
    engine.HandlePageHide();
  }
}
