/**
 * Device performance profile: the device signals can only lower the
 * rendering knobs, never raise them.
 */
module Profile {
  import opened Util

  /** The visual tunables handed to the shader every frame. */
  datatype Config = Config(
    baseDriftSpeed: real,
    viscosity: real,
    attractionStrength: real,
    attractionFalloff: real,
    glowStrength: real,
    resolutionScale: real,
    colorIntensity: real,
    threshold: real,
    canvasOpacity: real,
    fallbackOpacity: real)

  const DefaultConfig := Config(0.0002, 0.00000978, 50.0, 3.9, 0.5, 0.35, 0.3, 0.086, 0.5, 0.26)

  /** Size of the shader's attractor arrays. */
  const ShaderCapacity: nat := 8

  const DefaultDprCap: real := 2.0
  const DefaultTargetFps: real := 30.0

  /** The knobs the profile may lower. */
  datatype Knobs = Knobs(dprCap: real, config: Config, maxAttractors: nat, targetFps: real)

  const DefaultKnobs := Knobs(DefaultDprCap, DefaultConfig, ShaderCapacity, DefaultTargetFps)

  /**
   * What the device reports: a mobile/touch user agent, `navigator.deviceMemory`
   * when it is a number (in GiB), and `window.innerWidth`.
   */
  datatype Signals = Signals(isMobile: bool, deviceMemory: Option<real>, innerWidth: int)

  predicate LowMemory(s: Signals) {
    s.deviceMemory.Some? && s.deviceMemory.value <= 4.0
  }

  /** A zero width is falsy and does not count as narrow. */
  predicate NarrowViewport(s: Signals) {
    s.innerWidth != 0 && s.innerWidth <= 1024
  }

  /** The profile applied to the given knobs. */
  function Profiled(k: Knobs, s: Signals): (r: Knobs)
    // never raises a knob
    ensures r.dprCap <= k.dprCap && r.maxAttractors <= k.maxAttractors && r.targetFps <= k.targetFps
    ensures r.config.resolutionScale <= k.config.resolutionScale
    ensures r.config.glowStrength <= k.config.glowStrength
    ensures r.config.colorIntensity <= k.config.colorIntensity
    // touches nothing but the six knobs
    ensures r.config.(resolutionScale := k.config.resolutionScale,
                      glowStrength := k.config.glowStrength,
                      colorIntensity := k.config.colorIntensity) == k.config
    // without any signal nothing changes
    ensures !s.isMobile && !NarrowViewport(s) && !LowMemory(s) ==> r == k
    ensures !s.isMobile && !LowMemory(s) ==> r.targetFps == k.targetFps
    ensures k.targetFps > 0.0 ==> r.targetFps > 0.0
    // a mobile device or a narrow viewport caps the pixel ratio, resolution, glow and capacity
    ensures s.isMobile || NarrowViewport(s) ==>
      && r.dprCap <= 1.5 && r.config.resolutionScale <= 0.26
      && r.config.glowStrength <= 0.12 && r.maxAttractors <= 6
    // low memory caps them further, and the colour intensity
    ensures LowMemory(s) ==>
      && r.dprCap <= 1.3 && r.config.resolutionScale <= 0.20
      && r.config.colorIntensity <= 0.25 && r.maxAttractors <= 5
    // a mobile device or low memory caps the frame rate
    ensures s.isMobile || LowMemory(s) ==> r.targetFps <= 28.0
    // each knob ends exactly at the smallest cap that applies to it
    ensures r.dprCap == (if LowMemory(s) then Min(k.dprCap, 1.3)
                         else if s.isMobile || NarrowViewport(s) then Min(k.dprCap, 1.5) else k.dprCap)
  {
    var small := s.isMobile || NarrowViewport(s);
    var low := LowMemory(s);
    var k1 :=
      if small then
        Knobs(Min(k.dprCap, 1.5),
              k.config.(resolutionScale := Min(k.config.resolutionScale, 0.26),
                        glowStrength := Min(k.config.glowStrength, 0.12)),
              MinNat(k.maxAttractors, 6),
              k.targetFps)
      else k;
    var k2 :=
      if low then
        Knobs(Min(k1.dprCap, 1.3),
              k1.config.(resolutionScale := Min(k1.config.resolutionScale, 0.20),
                         colorIntensity := Min(k1.config.colorIntensity, 0.25)),
              MinNat(k1.maxAttractors, 5),
              k1.targetFps)
      else k1;
    if s.isMobile || low then k2.(targetFps := Min(k2.targetFps, 28.0)) else k2
  }

  /** The render interval in milliseconds for a frame rate. */
  function FrameMs(targetFps: real): (ms: real)
    requires targetFps > 0.0
    ensures ms > 0.0
  {
    1000.0 / targetFps
  }

  /** `targetFps` frames of `FrameMs(targetFps)` milliseconds each fill exactly one second. */
  lemma FrameMsIsPeriod(targetFps: real)
    requires targetFps > 0.0
    ensures FrameMs(targetFps) * targetFps == 1000.0
  {
  }

  /**
   * Starting from the defaults, the attractor capacity ends as 8, 6 or 5 and
   * never exceeds the shader's array size; every other knob stays at or
   * below its default, and the frame rate is 30 or 28.
   */
  lemma DefaultProfileBounds(s: Signals)
    ensures var r := Profiled(DefaultKnobs, s);
      && 1 <= r.maxAttractors <= ShaderCapacity
      && (r.maxAttractors == 8 <==> !s.isMobile && !NarrowViewport(s) && !LowMemory(s))
      && (r.maxAttractors == 6 <==> (s.isMobile || NarrowViewport(s)) && !LowMemory(s))
      && (r.maxAttractors == 5 <==> LowMemory(s))
      && r.dprCap <= 2.0 && r.config.resolutionScale <= 0.35
      && r.config.glowStrength <= 0.5 && r.config.colorIntensity <= 0.3
      && (r.targetFps == 30.0 <==> !s.isMobile && !LowMemory(s))
      && (r.targetFps == 28.0 <==> s.isMobile || LowMemory(s))
      && FrameMs(r.targetFps) >= 1000.0 / 30.0
  {
    var r := Profiled(DefaultKnobs, s);
    assert r.targetFps <= 30.0;
    assert FrameMs(r.targetFps) * r.targetFps == 1000.0;
  }
}
