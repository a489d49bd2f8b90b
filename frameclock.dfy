/**
 * The frame accumulator that decouples the display's refresh rate from the
 * capped render rate, and the shader time it drives.
 */
module FrameClock {
  import opened Util

  /** Duration of one frame at the 60 Hz reference rate, in milliseconds. */
  const ReferenceFrameMs: real := 1000.0 / 60.0

  /** The elapsed-time ratio handed to the attractor update, clamped to [0, 3]. */
  function DeltaMultiplier(effectiveDt: real): (m: real)
    ensures 0.0 <= m <= 3.0
    ensures 0.0 <= effectiveDt <= 3.0 * ReferenceFrameMs ==> m == effectiveDt / ReferenceFrameMs
    ensures effectiveDt <= 0.0 ==> m == 0.0
    ensures effectiveDt >= 3.0 * ReferenceFrameMs ==> m == 3.0
  {
    Min(Max(effectiveDt / ReferenceFrameMs, 0.0), 3.0)
  }

  /** The remainder `x % m` of two non-negative numbers (truncating and flooring agree here). */
  function FMod(x: real, m: real): (r: real)
    requires x >= 0.0 && m > 0.0
    ensures 0.0 <= r < m
    ensures r <= x
    ensures x < m ==> r == x
    ensures ((x - r) / m).Floor as real == (x - r) / m
  {
    FloorQuotient(x, m);
    var q := (x / m).Floor;
    WholeMultiple(q, m);
    x - m * q as real
  }

  /** A whole multiple of `m`, divided by `m`, is that whole number again. */
  lemma WholeMultiple(q: int, m: real)
    requires m > 0.0
    ensures (m * q as real) / m == q as real
    ensures ((m * q as real) / m).Floor == q
  {
  }

  /** The floored quotient q of x by m satisfies q * m <= x < (q + 1) * m, and is 0 when x < m. */
  lemma FloorQuotient(x: real, m: real)
    requires x >= 0.0 && m > 0.0
    ensures var q := (x / m).Floor;
      q >= 0 && q as real * m <= x < (q as real + 1.0) * m && (x < m ==> q == 0)
  {
    var q := (x / m).Floor;
    BetweenMultiples(x / m, q as real, m, x);
  }

  lemma BetweenMultiples(f: real, q: real, m: real, x: real)
    requires m > 0.0 && x >= 0.0 && f * m == x && q <= f < q + 1.0
    ensures q * m <= x < (q + 1.0) * m
    ensures q > -1.0
    ensures x < m ==> q < 1.0
  {
    ProductSign(f - q, m);
    Distribute(f - q, f, q, m);
    ProductSign(q + 1.0 - f, m);
    Distribute(q + 1.0 - f, q + 1.0, f, m);
    Below(f, q + 1.0, m, x);
    ProductSign(q + 1.0, m);
    if x < m {
      Distribute(1.0 - f, 1.0, f, m);
      ProductSign(1.0 - f, m);
    }
  }

  lemma Below(f: real, u: real, m: real, x: real)
    requires f * m == x && u * m - f * m > 0.0
    ensures x < u * m
  {
  }

  lemma Distribute(d: real, a: real, b: real, m: real)
    requires d == a - b
    ensures d * m == a * m - b * m
  {
  }

  lemma ProductSign(a: real, m: real)
    requires m > 0.0
    ensures a >= 0.0 ==> a * m >= 0.0
    ensures a > 0.0 ==> a * m > 0.0
    ensures a * m > 0.0 ==> a > 0.0
  {
  }

  /** Timing state: the last refresh timestamp seen, the accumulated time and the shader time. */
  datatype Clock = Clock(lastFrameTime: Option<real>, accumulator: real, time: real)

  /** The new timing state and, when a render is due, its effective elapsed time. */
  datatype Tick = Tick(clock: Clock, render: Option<real>)

  /** One refresh callback at time `now`. */
  function Advance(c: Clock, now: real, frameMs: real): (t: Tick)
    requires frameMs > 0.0
    ensures t.clock.lastFrameTime == Some(now)
    ensures c.lastFrameTime.None? ==> t == Tick(c.(lastFrameTime := Some(now)), None)
    ensures t.render.Some? <==>
      c.lastFrameTime.Some? && c.accumulator + (now - c.lastFrameTime.value) >= frameMs
    ensures t.render.None? ==> t.clock.time == c.time
    ensures c.lastFrameTime.Some? && t.render.None? ==>
      t.clock.accumulator == c.accumulator + (now - c.lastFrameTime.value)
    ensures t.render.Some? ==>
      t.render.value == c.accumulator + (now - c.lastFrameTime.value) &&
      t.clock.time == c.time + t.render.value / ReferenceFrameMs &&
      t.render.value >= frameMs && t.clock.accumulator == FMod(t.render.value, frameMs) &&
      0.0 <= t.clock.accumulator < frameMs
  {
    match c.lastFrameTime
    case None => Tick(c.(lastFrameTime := Some(now)), None)
    case Some(last) =>
      var acc := c.accumulator + (now - last);
      if acc < frameMs then Tick(Clock(Some(now), acc, c.time), None)
      else Tick(Clock(Some(now), FMod(acc, frameMs), c.time + acc / ReferenceFrameMs), Some(acc))
  }

  /** The accumulator stays within one frame interval. */
  predicate Settled(c: Clock, frameMs: real) {
    0.0 <= c.accumulator < frameMs && (c.lastFrameTime.None? ==> c.accumulator == 0.0)
  }

  /** Clock readings that never go backwards from the last one seen. */
  predicate Monotone(c: Clock, nows: seq<real>) {
    (forall i, j :: 0 <= i < j < |nows| ==> nows[i] <= nows[j]) &&
    (c.lastFrameTime.Some? && nows != [] ==> c.lastFrameTime.value <= nows[0])
  }

  /** The timing state after a run of refresh callbacks. */
  function Replay(c: Clock, nows: seq<real>, frameMs: real): (r: Clock)
    requires frameMs > 0.0
    ensures nows == [] ==> r == c
    ensures nows != [] ==> r.lastFrameTime == Some(nows[|nows| - 1])
    decreases |nows|
  {
    if nows == [] then c else Replay(Advance(c, nows[0], frameMs).clock, nows[1..], frameMs)
  }

  /**
   * Over any run of monotone clock readings the accumulator stays in
   * [0, frameMs), the shader time never decreases, and the time never lags
   * the wall clock by more than what is still accumulated.
   */
  lemma {:induction false} ReplayKeepsClockSettled(c: Clock, nows: seq<real>, frameMs: real)
    requires frameMs > 0.0 && Settled(c, frameMs) && Monotone(c, nows)
    ensures var r := Replay(c, nows, frameMs);
      && Settled(r, frameMs)
      && r.time >= c.time
      && (c.lastFrameTime.Some? && nows != [] ==>
            (r.time - c.time) * ReferenceFrameMs
              >= nows[|nows| - 1] - c.lastFrameTime.value + c.accumulator - r.accumulator)
    decreases |nows|
  {
    if nows != [] {
      var t := Advance(c, nows[0], frameMs);
      var c1 := t.clock;
      assert Settled(c1, frameMs);
      assert Monotone(c1, nows[1..]);
      ReplayKeepsClockSettled(c1, nows[1..], frameMs);
      var r := Replay(c1, nows[1..], frameMs);
      assert r == Replay(c, nows, frameMs);
      assert c1.time >= c.time by {
        if t.render.Some? {
          assert t.render.value >= 0.0;
        }
      }
      if c.lastFrameTime.Some? {
        // what is gained in this step covers the elapsed time minus what stays accumulated
        assert (c1.time - c.time) * ReferenceFrameMs >= nows[0] - c.lastFrameTime.value + c.accumulator - c1.accumulator;
        if |nows| > 1 {
          assert nows[1..][|nows[1..]| - 1] == nows[|nows| - 1];
        }
      } else if |nows| > 1 {
        assert nows[1..][|nows[1..]| - 1] == nows[|nows| - 1];
      }
    }
  }
}
