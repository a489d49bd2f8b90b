/**
 * The contents of the three uniform buffers handed to the shader: three
 * floats per attractor (x, y, strength), four per mask rectangle (x, y,
 * half width, half height) and three per glowing attractor. Slots past the
 * live ones, up to the capacity, are zero.
 */
module Packing {
  import opened Attractors

  /** `h || 0.05`: a zero half extent falls back to 0.05. */
  function MaskHalf(h: real): (r: real)
    ensures r != 0.0
    ensures h == 0.0 ==> r == 0.05
    ensures h != 0.0 ==> r == h
  {
    if h == 0.0 then 0.05 else h
  }

  /** Slot `j` of a buffer of (x, y, strength) triples filled from `s`. */
  function Slot3(s: seq<Attractor>, j: nat): (r: seq<real>)
    ensures |r| == 3
  {
    if j < |s| then [s[j].x, s[j].y, s[j].strength] else [0.0, 0.0, 0.0]
  }

  /** Slot `j` of the mask buffer filled from `s`. */
  function Slot4(s: seq<Attractor>, j: nat): (r: seq<real>)
    ensures |r| == 4
  {
    if j < |s| then [s[j].x, s[j].y, MaskHalf(s[j].halfW), MaskHalf(s[j].halfH)]
    else [0.0, 0.0, 0.0, 0.0]
  }

  /** The first `n` slots of a triple buffer filled from `s`. */
  function Triples(s: seq<Attractor>, n: nat): (r: seq<real>)
    ensures |r| == 3 * n
  {
    if n == 0 then [] else Triples(s, n - 1) + Slot3(s, n - 1)
  }

  /** The first `n` slots of the mask buffer filled from `s`. */
  function Quads(s: seq<Attractor>, n: nat): (r: seq<real>)
    ensures |r| == 4 * n
  {
    if n == 0 then [] else Quads(s, n - 1) + Slot4(s, n - 1)
  }

  /** The glowing attractors of `s`, in order. */
  function Glowing(s: seq<Attractor>): seq<Attractor>
  {
    if s == [] then []
    else Glowing(s[..|s| - 1]) + (if s[|s| - 1].isGlowing then [s[|s| - 1]] else [])
  }

  /** Extending the scanned prefix by one attractor adds it to the glowing ones exactly when it glows. */
  lemma GlowingExtend(s: seq<Attractor>, i: nat)
    requires i < |s|
    ensures Glowing(s[..i + 1]) == Glowing(s[..i]) + (if s[i].isGlowing then [s[i]] else [])
  {
    assert s[..i + 1][..i] == s[..i];
  }

  /**
   * There are never more glowing slots than live slots, and the glow slots
   * hold exactly the glowing attractors.
   */
  lemma {:induction false} GlowingBounded(s: seq<Attractor>)
    ensures |Glowing(s)| <= |s|
    ensures forall a :: a in Glowing(s) <==> a in s && a.isGlowing
  {
    if s != [] {
      var init := s[..|s| - 1];
      GlowingBounded(init);
      assert s == init + [s[|s| - 1]];
      forall a ensures a in Glowing(s) <==> a in s && a.isGlowing {
        if a != s[|s| - 1] {
          assert a in s <==> a in init;
        }
      }
    }
  }

  /** Filling from a longer list changes none of the slots already filled. */
  lemma {:induction false} TriplesPrefix(s: seq<Attractor>, t: seq<Attractor>, n: nat)
    requires n <= |s|
    ensures Triples(s + t, n) == Triples(s, n)
  {
    if n > 0 {
      TriplesPrefix(s, t, n - 1);
    }
  }

  /** Float `3 * i + j` of the triple buffer is float `j` of slot `i`. */
  lemma {:induction false} TriplesAt(s: seq<Attractor>, n: nat, i: nat, j: nat)
    requires i < n && j < 3
    ensures Triples(s, n)[3 * i + j] == Slot3(s, i)[j]
  {
    if i < n - 1 {
      TriplesAt(s, n - 1, i, j);
    }
  }

  /** Float `4 * i + j` of the mask buffer is float `j` of slot `i`. */
  lemma {:induction false} QuadsAt(s: seq<Attractor>, n: nat, i: nat, j: nat)
    requires i < n && j < 4
    ensures Quads(s, n)[4 * i + j] == Slot4(s, i)[j]
  {
    if i < n - 1 {
      QuadsAt(s, n - 1, i, j);
    }
  }

  /**
   * A live slot `i` of buffers of capacity `n` holds the attractor's position
   * and strength, and its mask rectangle with the 0.05 fallback.
   */
  lemma LiveSlot(s: seq<Attractor>, n: nat, i: nat)
    requires i < |s| && i < n
    ensures var t := Triples(s, n);
      t[3 * i] == s[i].x && t[3 * i + 1] == s[i].y && t[3 * i + 2] == s[i].strength
    ensures var q := Quads(s, n);
      && q[4 * i] == s[i].x && q[4 * i + 1] == s[i].y
      && q[4 * i + 2] == MaskHalf(s[i].halfW) && q[4 * i + 3] == MaskHalf(s[i].halfH)
  {
    TriplesAt(s, n, i, 0); TriplesAt(s, n, i, 1); TriplesAt(s, n, i, 2);
    QuadsAt(s, n, i, 0); QuadsAt(s, n, i, 1); QuadsAt(s, n, i, 2); QuadsAt(s, n, i, 3);
  }

  /** Every slot from the number of live attractors up to the capacity is zero. */
  lemma DeadSlot(s: seq<Attractor>, n: nat, i: nat, j: nat)
    requires |s| <= i < n
    ensures j < 3 ==> Triples(s, n)[3 * i + j] == 0.0
    ensures j < 4 ==> Quads(s, n)[4 * i + j] == 0.0
  {
    if j < 3 {
      TriplesAt(s, n, i, j);
    }
    if j < 4 {
      QuadsAt(s, n, i, j);
    }
  }

  /** Writes one three-float slot; every other float is kept. */
  method PutTriple(buf: array<real>, slot: nat, x: real, y: real, z: real)
    requires 3 * slot + 3 <= buf.Length
    modifies buf
    ensures buf[..3 * slot + 3] == old(buf[..3 * slot]) + [x, y, z]
    ensures buf[3 * slot + 3..] == old(buf[3 * slot + 3..])
  {
    buf[slot * 3 + 0] := x;
    buf[slot * 3 + 1] := y;
    buf[slot * 3 + 2] := z;
  }

  /** Writes one four-float slot; every other float is kept. */
  method PutQuad(buf: array<real>, slot: nat, x: real, y: real, w: real, h: real)
    requires 4 * slot + 4 <= buf.Length
    modifies buf
    ensures buf[..4 * slot + 4] == old(buf[..4 * slot]) + [x, y, w, h]
    ensures buf[4 * slot + 4..] == old(buf[4 * slot + 4..])
  {
    buf[slot * 4 + 0] := x;
    buf[slot * 4 + 1] := y;
    buf[slot * 4 + 2] := w;
    buf[slot * 4 + 3] := h;
  }

  /**
   * The first loop of the packing: one attractor slot and one mask slot per
   * live attractor, and one glow slot per glowing one, in order.
   */
  method FillLiveSlots(attractors: seq<Attractor>, maxAttractors: nat,
                       attractorData: array<real>, maskData: array<real>, glowData: array<real>)
    returns (activeCount: nat, glowCount: nat)
    requires |attractors| <= maxAttractors
    requires attractorData.Length == 3 * maxAttractors && maskData.Length == 4 * maxAttractors
    requires glowData.Length == 3 * maxAttractors
    requires attractorData != maskData && attractorData != glowData && maskData != glowData
    modifies attractorData, maskData, glowData
    ensures activeCount == |attractors| && glowCount == |Glowing(attractors)| <= activeCount
    ensures attractorData[..3 * activeCount] == Triples(attractors, activeCount)
    ensures maskData[..4 * activeCount] == Quads(attractors, activeCount)
    ensures glowData[..3 * glowCount] == Triples(Glowing(attractors), glowCount)
    // the slots past the filled ones are left as they were
    ensures attractorData[3 * activeCount..] == old(attractorData[3 * activeCount..])
    ensures maskData[4 * activeCount..] == old(maskData[4 * activeCount..])
    ensures glowData[3 * glowCount..] == old(glowData[3 * glowCount..])
  {
    activeCount := if |attractors| < maxAttractors then |attractors| else maxAttractors;
    glowCount := 0;
    ghost var g: seq<Attractor> := [];
    ghost var slots0, masks0, glows0 := attractorData[..], maskData[..], glowData[..];
    var i := 0;
    while i < activeCount
      invariant 0 <= i <= activeCount
      invariant g == Glowing(attractors[..i]) && glowCount == |g| <= i
      invariant attractorData[..3 * i] == Triples(attractors, i)
      invariant maskData[..4 * i] == Quads(attractors, i)
      invariant glowData[..3 * glowCount] == Triples(g, glowCount)
      invariant attractorData[3 * i..] == slots0[3 * i..]
      invariant maskData[4 * i..] == masks0[4 * i..]
      invariant glowData[3 * glowCount..] == glows0[3 * glowCount..]
    {
      glowCount := PackSlot(attractors, maxAttractors, i, glowCount, g, attractorData, maskData, glowData,
                            slots0, masks0, glows0);
      g := Glowing(attractors[..i + 1]);
      i := i + 1;
    }
    assert attractors[..activeCount] == attractors;
  }

  /** Two buffers that agree from `k` on agree from any later `m` on. */
  lemma LaterSuffix(a: seq<real>, b: seq<real>, k: nat, m: nat)
    requires k <= m <= |a| == |b| && a[k..] == b[k..]
    ensures a[m..] == b[m..]
  {
    assert a[m..] == a[k..][m - k..];
    assert b[m..] == b[k..][m - k..];
  }

  /** One pass of the first loop: slot `i` of the attractor and mask buffers, and a glow slot if it glows. */
  method PackSlot(attractors: seq<Attractor>, maxAttractors: nat, i: nat, glowCount: nat,
                  ghost g: seq<Attractor>,
                  attractorData: array<real>, maskData: array<real>, glowData: array<real>,
                  ghost slots0: seq<real>, ghost masks0: seq<real>, ghost glows0: seq<real>)
    returns (newGlowCount: nat)
    requires i < |attractors| <= maxAttractors
    requires attractorData.Length == 3 * maxAttractors && maskData.Length == 4 * maxAttractors
    requires glowData.Length == 3 * maxAttractors
    requires attractorData != maskData && attractorData != glowData && maskData != glowData
    requires g == Glowing(attractors[..i]) && glowCount == |g| <= i
    requires attractorData[..3 * i] == Triples(attractors, i)
    requires maskData[..4 * i] == Quads(attractors, i)
    requires glowData[..3 * glowCount] == Triples(g, glowCount)
    // the loop's snapshots of the buffers, still matched past the filled prefixes
    requires |slots0| == attractorData.Length && attractorData[3 * i..] == slots0[3 * i..]
    requires |masks0| == maskData.Length && maskData[4 * i..] == masks0[4 * i..]
    requires |glows0| == glowData.Length && glowData[3 * glowCount..] == glows0[3 * glowCount..]
    modifies attractorData, maskData, glowData
    ensures newGlowCount == |Glowing(attractors[..i + 1])| <= i + 1
    ensures newGlowCount == if attractors[i].isGlowing then glowCount + 1 else glowCount
    ensures attractorData[..3 * (i + 1)] == Triples(attractors, i + 1)
    ensures maskData[..4 * (i + 1)] == Quads(attractors, i + 1)
    ensures glowData[..3 * newGlowCount] == Triples(Glowing(attractors[..i + 1]), newGlowCount)
    // the floats past each filled prefix are left as they were
    ensures attractorData[3 * (i + 1)..] == old(attractorData[3 * (i + 1)..])
    ensures maskData[4 * (i + 1)..] == old(maskData[4 * (i + 1)..])
    ensures glowData[3 * newGlowCount..] == old(glowData[3 * newGlowCount..])
    ensures attractorData[3 * (i + 1)..] == slots0[3 * (i + 1)..]
    ensures maskData[4 * (i + 1)..] == masks0[4 * (i + 1)..]
    ensures glowData[3 * newGlowCount..] == glows0[3 * newGlowCount..]
  {
    var a := attractors[i];
    LaterSuffix(attractorData[..], slots0, 3 * i, 3 * (i + 1));
    LaterSuffix(maskData[..], masks0, 4 * i, 4 * (i + 1));
    LaterSuffix(glowData[..], glows0, 3 * glowCount, 3 * glowCount + 3);
    PackLiveSlot(attractors, i, attractorData, maskData);
    GlowingExtend(attractors, i);
    newGlowCount := glowCount;
    if a.isGlowing && glowCount < maxAttractors {
      ghost var slotsNow, masksNow := attractorData[..], maskData[..];
      PackGlowSlot(g, a, glowCount, glowData);
      assert attractorData[..] == slotsNow && maskData[..] == masksNow;
      newGlowCount := glowCount + 1;
    } else {
      assert g + [] == g;
    }
  }

  /** Slot `i` of the attractor and mask buffers, written from the `i`-th attractor. */
  method PackLiveSlot(attractors: seq<Attractor>, i: nat, attractorData: array<real>, maskData: array<real>)
    requires i < |attractors| && attractorData != maskData
    requires 3 * i + 3 <= attractorData.Length && 4 * i + 4 <= maskData.Length
    requires attractorData[..3 * i] == Triples(attractors, i)
    requires maskData[..4 * i] == Quads(attractors, i)
    modifies attractorData, maskData
    ensures attractorData[..3 * (i + 1)] == Triples(attractors, i + 1)
    ensures maskData[..4 * (i + 1)] == Quads(attractors, i + 1)
    ensures attractorData[3 * (i + 1)..] == old(attractorData[3 * (i + 1)..])
    ensures maskData[4 * (i + 1)..] == old(maskData[4 * (i + 1)..])
  {
    var a := attractors[i];
    PutTriple(attractorData, i, a.x, a.y, a.strength);
    PutQuad(maskData, i, a.x, a.y, MaskHalf(a.halfW), MaskHalf(a.halfH));
  }

  /** The next glow slot, written from the glowing attractor `a` after the ones in `g`. */
  method PackGlowSlot(ghost g: seq<Attractor>, a: Attractor, glowCount: nat, glowData: array<real>)
    requires glowCount == |g| && 3 * glowCount + 3 <= glowData.Length
    requires glowData[..3 * glowCount] == Triples(g, glowCount)
    modifies glowData
    ensures glowData[..3 * (glowCount + 1)] == Triples(g + [a], glowCount + 1)
    ensures glowData[3 * (glowCount + 1)..] == old(glowData[3 * (glowCount + 1)..])
  {
    PutTriple(glowData, glowCount, a.x, a.y, a.strength);
    TriplesPrefix(g, [a], glowCount);
    assert Slot3(g + [a], glowCount) == [a.x, a.y, a.strength];
  }

  /** The second loop: every attractor and mask slot from `activeCount` up to the capacity is zeroed. */
  method ZeroUnusedSlots(attractors: seq<Attractor>, maxAttractors: nat, activeCount: nat,
                         attractorData: array<real>, maskData: array<real>)
    requires activeCount == |attractors| <= maxAttractors
    requires attractorData.Length == 3 * maxAttractors && maskData.Length == 4 * maxAttractors
    requires attractorData != maskData
    requires attractorData[..3 * activeCount] == Triples(attractors, activeCount)
    requires maskData[..4 * activeCount] == Quads(attractors, activeCount)
    modifies attractorData, maskData
    ensures attractorData[..] == Triples(attractors, maxAttractors)
    ensures maskData[..] == Quads(attractors, maxAttractors)
  {
    var i := activeCount;
    while i < maxAttractors
      invariant activeCount <= i <= maxAttractors
      invariant attractorData[..3 * i] == Triples(attractors, i)
      invariant maskData[..4 * i] == Quads(attractors, i)
    {
      ghost var masks := maskData[..4 * i];
      PutTriple(attractorData, i, 0.0, 0.0, 0.0);
      assert maskData[..4 * i] == masks;
      ghost var slots := attractorData[..3 * (i + 1)];
      PutQuad(maskData, i, 0.0, 0.0, 0.0, 0.0);
      assert attractorData[..3 * (i + 1)] == slots;
      i := i + 1;
    }
    assert attractorData[..] == attractorData[..3 * maxAttractors];
    assert maskData[..] == maskData[..4 * maxAttractors];
  }

  /** The third loop: every glow slot from `glowCount` up to the capacity is zeroed. */
  method ZeroUnusedGlowSlots(glowing: seq<Attractor>, maxAttractors: nat, glowCount: nat,
                             glowData: array<real>)
    requires glowCount == |glowing| <= maxAttractors && glowData.Length == 3 * maxAttractors
    requires glowData[..3 * glowCount] == Triples(glowing, glowCount)
    modifies glowData
    ensures glowData[..] == Triples(glowing, maxAttractors)
  {
    var i := glowCount;
    while i < maxAttractors
      invariant glowCount <= i <= maxAttractors
      invariant glowData[..3 * i] == Triples(glowing, i)
    {
      PutTriple(glowData, i, 0.0, 0.0, 0.0);
      i := i + 1;
    }
    assert glowData[..] == glowData[..3 * maxAttractors];
  }
}
