/**
 * Influence points ("attractors") and the per-frame update applied to them:
 * reposition from the element's current rectangle, relax the strength toward
 * its target, drop finished transient points, cut back to capacity.
 */
module Attractors {
  import opened Util
  import opened Geometry

  datatype Attractor = Attractor(
    element: Option<nat>,
    x: real,
    y: real,
    halfW: real,
    halfH: real,
    strength: real,
    targetStrength: real,
    fadeSpeed: real,
    isPermanent: bool,
    isGlowing: bool)

  /** Strength tuning; only `baseStrength` and `fallSpeed` are used by the shipped variant. */
  datatype Behavior = Behavior(baseStrength: real, hoverStrength: real, riseSpeed: real,
                               fallSpeed: real, removeSpeed: real)

  const DefaultBehavior := Behavior(0.06, 0.30, 0.020, 0.060, 0.140)

  /** Below this strength a finished transient point is dropped. */
  const NegligibleStrength: real := 0.01

  /** Re-read the element's rectangle; a zero-sized (hidden or detached) element keeps its old position. */
  function Reposition(a: Attractor, p: Page): (b: Attractor)
    requires ValidViewport(p.view)
    ensures b.(x := a.x, y := a.y, halfW := a.halfW, halfH := a.halfH) == a
    ensures a.element.None? ==> b == a
    ensures a.element.Some? && RectOf(p, a.element.value).width > 0.0 && RectOf(p, a.element.value).height > 0.0
      ==> var c := ElementCenter(RectOf(p, a.element.value), p.view);
          b.x == c.x && b.y == c.y && b.halfW == c.halfW && b.halfH == c.halfH
    ensures a.element.Some? && !(RectOf(p, a.element.value).width > 0.0 && RectOf(p, a.element.value).height > 0.0)
      ==> b == a
  {
    match a.element
    case None => a
    case Some(id) =>
      var r := RectOf(p, id);
      if r.width > 0.0 && r.height > 0.0 then
        var c := ElementCenter(r, p.view);
        a.(x := c.x, y := c.y, halfW := c.halfW, halfH := c.halfH)
      else a
  }

  /** One relaxation step of `s` toward `t` at rate `k`. */
  function Relax(s: real, t: real, k: real): real {
    s + (t - s) * k
  }

  /**
   * With a rate in [0, 1] the new strength lies between the old strength and
   * the target, and its distance to the target shrinks by the factor 1 - k.
   */
  lemma RelaxStaysBetween(s: real, t: real, k: real)
    requires 0.0 <= k <= 1.0
    ensures Min(s, t) <= Relax(s, t, k) <= Max(s, t)
    ensures t - Relax(s, t, k) == (1.0 - k) * (t - s)
  {
    var d := t - s;
    assert Relax(s, t, k) == s + d * k;
    if d >= 0.0 {
      assert 0.0 <= d * k <= d * 1.0;
    } else {
      assert d * 1.0 <= d * k <= 0.0;
    }
  }

  /** The strength update of one frame, scaled by the frame's delta multiplier. */
  function Relaxed(a: Attractor, deltaMultiplier: real): (b: Attractor)
    ensures b.(strength := a.strength) == a
  {
    a.(strength := Relax(a.strength, a.targetStrength, a.fadeSpeed * deltaMultiplier))
  }

  /** The registered decay rate times any clamped delta multiplier is a rate in [0, 1]. */
  lemma ShippedRateIsContraction(deltaMultiplier: real)
    requires 0.0 <= deltaMultiplier <= 3.0
    ensures 0.0 <= DefaultBehavior.fallSpeed * deltaMultiplier <= 1.0
  {
  }

  /** A transient point that has faded out. */
  predicate Expired(a: Attractor) {
    !a.isPermanent && a.targetStrength == 0.0 && a.strength < NegligibleStrength
  }

  /** One attractor's frame: reposition, then relax. */
  function Step(a: Attractor, deltaMultiplier: real, p: Page): (b: Attractor)
    requires ValidViewport(p.view)
    ensures b.element == a.element && b.isPermanent == a.isPermanent && b.isGlowing == a.isGlowing
    ensures b.targetStrength == a.targetStrength && b.fadeSpeed == a.fadeSpeed
    ensures b.strength == Relax(a.strength, a.targetStrength, a.fadeSpeed * deltaMultiplier)
    // position and footprint follow the element, as Reposition gives them
    ensures b.(strength := a.strength) == Reposition(a, p)
  {
    Relaxed(Reposition(a, p), deltaMultiplier)
  }

  /**
   * Whenever the rate is in [0, 1] (as it always is for the registered decay
   * rate and a clamped delta), a frame never overshoots the target.
   */
  lemma StepNeverOvershoots(a: Attractor, deltaMultiplier: real, p: Page)
    requires ValidViewport(p.view)
    requires 0.0 <= a.fadeSpeed * deltaMultiplier <= 1.0
    ensures var b := Step(a, deltaMultiplier, p);
      Min(a.strength, a.targetStrength) <= b.strength <= Max(a.strength, a.targetStrength)
  {
    RelaxStaysBetween(a.strength, a.targetStrength, a.fadeSpeed * deltaMultiplier);
  }

  /** The stepped attractors that are not expired, in their original order. */
  function Survivors(s: seq<Attractor>, deltaMultiplier: real, p: Page): (r: seq<Attractor>)
    requires ValidViewport(p.view)
    ensures |r| <= |s|
  {
    if s == [] then []
    else
      var b := Step(s[0], deltaMultiplier, p);
      (if Expired(b) then [] else [b]) + Survivors(s[1..], deltaMultiplier, p)
  }

  lemma SurvivorsUnfold(s: seq<Attractor>, i: nat, deltaMultiplier: real, p: Page)
    requires ValidViewport(p.view) && i < |s|
    ensures Survivors(s[i..], deltaMultiplier, p)
      == (if Expired(Step(s[i], deltaMultiplier, p)) then [] else [Step(s[i], deltaMultiplier, p)])
         + Survivors(s[i + 1..], deltaMultiplier, p)
  {
    assert s[i..][1..] == s[i + 1..];
  }

  function Truncate(s: seq<Attractor>, cap: nat): (r: seq<Attractor>)
    ensures |r| == MinNat(|s|, cap)
    ensures r == s[..|r|]
  {
    if |s| > cap then s[..cap] else s
  }

  function CountExpired(s: seq<Attractor>, deltaMultiplier: real, p: Page): nat
    requires ValidViewport(p.view)
  {
    if s == [] then 0
    else (if Expired(Step(s[0], deltaMultiplier, p)) then 1 else 0) + CountExpired(s[1..], deltaMultiplier, p)
  }

  function CountPermanent(s: seq<Attractor>): (n: nat)
    ensures n <= |s|
  {
    if s == [] then 0 else (if s[0].isPermanent then 1 else 0) + CountPermanent(s[1..])
  }

  /**
   * The update removes exactly the expired points: the survivors number the
   * inputs minus the expired ones, none of them is expired, and each is the
   * step of some input.
   */
  lemma {:induction false} SurvivorsAreExactlyUnexpired(s: seq<Attractor>, deltaMultiplier: real, p: Page)
    requires ValidViewport(p.view)
    ensures |Survivors(s, deltaMultiplier, p)| + CountExpired(s, deltaMultiplier, p) == |s|
    ensures forall b :: b in Survivors(s, deltaMultiplier, p) ==> !Expired(b)
    ensures forall b :: b in Survivors(s, deltaMultiplier, p) ==>
      exists i :: 0 <= i < |s| && b == Step(s[i], deltaMultiplier, p)
  {
    if s != [] {
      SurvivorsAreExactlyUnexpired(s[1..], deltaMultiplier, p);
      var b := Step(s[0], deltaMultiplier, p);
      var rest := Survivors(s[1..], deltaMultiplier, p);
      assert Survivors(s, deltaMultiplier, p) == (if Expired(b) then [] else [b]) + rest;
      forall c | c in rest ensures exists i :: 0 <= i < |s| && c == Step(s[i], deltaMultiplier, p) {
        var j :| 0 <= j < |s[1..]| && c == Step(s[1..][j], deltaMultiplier, p);
        assert s[1..][j] == s[j + 1];
      }
    }
  }

  /** A permanent point is never removed: the survivors hold as many permanent points as the input. */
  lemma {:induction false} PermanentSurvive(s: seq<Attractor>, deltaMultiplier: real, p: Page)
    requires ValidViewport(p.view)
    ensures CountPermanent(Survivors(s, deltaMultiplier, p)) == CountPermanent(s)
  {
    if s != [] {
      PermanentSurvive(s[1..], deltaMultiplier, p);
      var b := Step(s[0], deltaMultiplier, p);
      var rest := Survivors(s[1..], deltaMultiplier, p);
      CountPermanentAppend(if Expired(b) then [] else [b], rest);
    }
  }

  lemma {:induction false} CountPermanentAppend(a: seq<Attractor>, b: seq<Attractor>)
    ensures CountPermanent(a + b) == CountPermanent(a) + CountPermanent(b)
  {
    if a != [] {
      assert (a + b)[1..] == a[1..] + b;
      CountPermanentAppend(a[1..], b);
    } else {
      assert a + b == b;
    }
  }

  /** Points that are all permanent all survive, in order, merely stepped. */
  lemma {:induction false} AllPermanentKeepsAll(s: seq<Attractor>, deltaMultiplier: real, p: Page)
    requires ValidViewport(p.view)
    requires forall a :: a in s ==> a.isPermanent
    ensures |Survivors(s, deltaMultiplier, p)| == |s|
    ensures forall i :: 0 <= i < |s| ==> Survivors(s, deltaMultiplier, p)[i] == Step(s[i], deltaMultiplier, p)
  {
    if s != [] {
      AllPermanentKeepsAll(s[1..], deltaMultiplier, p);
    }
  }

  /** Every position one further on. */
  function Shift(t: seq<nat>): (r: seq<nat>)
    ensures |r| == |t| && forall k :: 0 <= k < |t| ==> r[k] == t[k] + 1
  {
    seq(|t|, k requires 0 <= k < |t| => t[k] + 1)
  }

  /** The positions of `true` in `m`, in ascending order. */
  function Positions(m: seq<bool>): seq<nat> {
    if m == [] then [] else (if m[0] then [0] else []) + Shift(Positions(m[1..]))
  }

  /** The listed positions are in range and hold `true`. */
  lemma {:induction false} PositionsHoldTrue(m: seq<bool>)
    ensures forall k :: 0 <= k < |Positions(m)| ==> Positions(m)[k] < |m| && m[Positions(m)[k]]
  {
    if m != [] {
      PositionsHoldTrue(m[1..]);
      var rest := Positions(m[1..]);
      var head: seq<nat> := if m[0] then [0] else [];
      var idx := head + Shift(rest);
      assert idx == Positions(m);
      forall k | 0 <= k < |idx| ensures idx[k] < |m| && m[idx[k]] {
        if k >= |head| {
          assert idx[k] == rest[k - |head|] + 1;
          assert m[1..][rest[k - |head|]] == m[idx[k]];
        }
      }
    }
  }

  /** The listed positions ascend strictly. */
  lemma {:induction false} PositionsAscend(m: seq<bool>)
    ensures forall k, l :: 0 <= k < l < |Positions(m)| ==> Positions(m)[k] < Positions(m)[l]
  {
    if m != [] {
      PositionsAscend(m[1..]);
      var rest := Positions(m[1..]);
      var head: seq<nat> := if m[0] then [0] else [];
      var idx := head + Shift(rest);
      assert idx == Positions(m);
      forall k, l | 0 <= k < l < |idx| ensures idx[k] < idx[l] {
        if k >= |head| {
          assert idx[k] == rest[k - |head|] + 1 && idx[l] == rest[l - |head|] + 1;
        } else {
          assert idx[k] == 0 && idx[l] == rest[l - |head|] + 1;
        }
      }
    }
  }

  /** Every position holding `true` is listed. */
  lemma {:induction false} PositionsComplete(m: seq<bool>)
    ensures forall i :: 0 <= i < |m| && m[i] ==> i in Positions(m)
  {
    if m != [] {
      PositionsComplete(m[1..]);
      var rest := Positions(m[1..]);
      var head: seq<nat> := if m[0] then [0] else [];
      var idx := head + Shift(rest);
      assert idx == Positions(m);
      forall i | 0 <= i < |m| && m[i] ensures i in idx {
        if i > 0 {
          assert m[1..][i - 1];
          var j :| 0 <= j < |rest| && rest[j] == i - 1;
          assert idx[|head| + j] == i;
        }
      }
    }
  }

  /** Each input stepped, in place. */
  function Stepped(s: seq<Attractor>, deltaMultiplier: real, p: Page): (t: seq<Attractor>)
    requires ValidViewport(p.view)
    ensures |t| == |s| && forall i :: 0 <= i < |s| ==> t[i] == Step(s[i], deltaMultiplier, p)
  {
    seq(|s|, i requires 0 <= i < |s| => Step(s[i], deltaMultiplier, p))
  }

  /** Which points of `t` are kept. */
  function KeepMask(t: seq<Attractor>): (m: seq<bool>)
    ensures |m| == |t| && forall i :: 0 <= i < |t| ==> m[i] == !Expired(t[i])
  {
    seq(|t|, i requires 0 <= i < |t| => !Expired(t[i]))
  }

  /** The entries of `t` whose mask bit is set, in order. */
  function Select<T>(t: seq<T>, m: seq<bool>): seq<T>
    requires |m| == |t|
  {
    if t == [] then [] else (if m[0] then [t[0]] else []) + Select(t[1..], m[1..])
  }

  /** Stepping and dropping in one backward pass equals stepping everything, then keeping the unexpired. */
  lemma {:induction false} SurvivorsAreKeptSteps(s: seq<Attractor>, deltaMultiplier: real, p: Page)
    requires ValidViewport(p.view)
    ensures Survivors(s, deltaMultiplier, p)
      == Select(Stepped(s, deltaMultiplier, p), KeepMask(Stepped(s, deltaMultiplier, p)))
  {
    if s != [] {
      SurvivorsAreKeptSteps(s[1..], deltaMultiplier, p);
      var t := Stepped(s, deltaMultiplier, p);
      assert t[1..] == Stepped(s[1..], deltaMultiplier, p);
      assert KeepMask(t)[1..] == KeepMask(t[1..]);
    }
  }

  /** There are as many set positions as selected entries. */
  lemma {:induction false} SelectCount<T>(t: seq<T>, m: seq<bool>)
    requires |m| == |t|
    ensures |Positions(m)| == |Select(t, m)|
  {
    if t != [] {
      SelectCount(t[1..], m[1..]);
    }
  }

  /** The k-th selected entry is the entry at the k-th set position. */
  lemma {:induction false} SelectAtPositions<T>(t: seq<T>, m: seq<bool>)
    requires |m| == |t|
    ensures forall k :: 0 <= k < |Select(t, m)| ==>
      k < |Positions(m)| && Positions(m)[k] < |t| && Select(t, m)[k] == t[Positions(m)[k]]
  {
    SelectCount(t, m);
    PositionsHoldTrue(m);
    if t != [] {
      SelectAtPositions(t[1..], m[1..]);
      SelectCount(t[1..], m[1..]);
      var rest := Positions(m[1..]);
      var head: seq<nat> := if m[0] then [0] else [];
      var idx := head + Shift(rest);
      var tail := Select(t[1..], m[1..]);
      var r := (if m[0] then [t[0]] else []) + tail;
      assert idx == Positions(m);
      assert r == Select(t, m);
      forall k | 0 <= k < |r| ensures r[k] == t[idx[k]] {
        if k >= |head| {
          var j := k - |head|;
          assert idx[k] == rest[j] + 1 && r[k] == tail[j];
          assert tail[j] == t[1..][rest[j]];
        }
      }
    }
  }

  /**
   * The in-place splice keeps the relative order: the k-th survivor is the
   * step of the input at the k-th position whose step is kept (those
   * positions ascend and miss none: `PositionsAscend`, `PositionsComplete`,
   * and each holds a kept step: `PositionsHoldTrue`).
   */
  lemma SurvivorsKeepOrder(s: seq<Attractor>, deltaMultiplier: real, p: Page)
    requires ValidViewport(p.view)
    ensures |Positions(KeepMask(Stepped(s, deltaMultiplier, p)))| == |Survivors(s, deltaMultiplier, p)|
    ensures forall k :: 0 <= k < |Survivors(s, deltaMultiplier, p)| ==>
      Positions(KeepMask(Stepped(s, deltaMultiplier, p)))[k] < |s| &&
      Survivors(s, deltaMultiplier, p)[k]
        == Step(s[Positions(KeepMask(Stepped(s, deltaMultiplier, p)))[k]], deltaMultiplier, p)
  {
    var t := Stepped(s, deltaMultiplier, p);
    SurvivorsAreKeptSteps(s, deltaMultiplier, p);
    SelectCount(t, KeepMask(t));
    SelectAtPositions(t, KeepMask(t));
  }

  /** The attractor list after one frame's update with the given delta multiplier and capacity. */
  function UpdatedAttractors(s: seq<Attractor>, deltaMultiplier: real, p: Page, cap: nat): (r: seq<Attractor>)
    requires ValidViewport(p.view)
    ensures |r| <= cap && |r| <= |s|
  {
    SurvivorsAreExactlyUnexpired(s, deltaMultiplier, p);
    Truncate(Survivors(s, deltaMultiplier, p), cap)
  }

  /**
   * Within capacity the cut never happens: a list that already fits comes
   * out as exactly the survivors of the sweep.
   */
  lemma CutNeverFires(s: seq<Attractor>, deltaMultiplier: real, p: Page, cap: nat)
    requires ValidViewport(p.view) && |s| <= cap
    ensures UpdatedAttractors(s, deltaMultiplier, p, cap) == Survivors(s, deltaMultiplier, p)
  {
  }
}
