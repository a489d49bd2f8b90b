/**
 * Registration of the permanent attractors: filter the page elements by
 * size, turn each into one or three candidate points, sort the candidates
 * by descending priority and keep as many as the capacity allows.
 */
module Selection {
  import opened Util
  import opened Geometry
  import opened Attractors

  datatype Candidate = Candidate(el: nat, x: real, y: real, priority: real,
                                 strengthScale: real, halfW: real, halfH: real)

  /** Elements at most 8 layout pixels wide or high are ignored. */
  predicate Kept(e: Element) {
    e.offsetWidth > 8 && e.offsetHeight > 8
  }

  function KeptElements(els: seq<Element>): (r: seq<Element>)
    ensures forall e :: e in r <==> e in els && Kept(e)
    ensures |r| <= |els|
  {
    if els == [] then []
    else (if Kept(els[0]) then [els[0]] else []) + KeptElements(els[1..])
  }

  /** More than 15% wider than high. */
  predicate IsWide(r: Rect) { r.width > r.height * 1.15 }

  /** More than 15% higher than wide. */
  predicate IsTall(r: Rect) { r.height > r.width * 1.15 }

  /**
   * The candidates of one element: its centre at priority = area, then for a
   * wide element two points at 32% and 68% of its width, or else for a tall
   * element two at 32% and 68% of its height, both at 65% of the priority
   * and 88% of the strength.
   */
  function CandidatesOf(e: Element, v: Viewport): (r: seq<Candidate>)
    requires ValidViewport(v)
    ensures |r| == (if IsWide(e.rect) || IsTall(e.rect) then 3 else 1)
    ensures forall c :: c in r ==> c.el == e.id
    ensures var f := ElementCenter(e.rect, v);
      forall c :: c in r ==> c.halfW == f.halfW && c.halfH == f.halfH
    ensures var f := ElementCenter(e.rect, v);
      r[0] == Candidate(e.id, f.x, f.y, e.rect.width * e.rect.height, 1.0, f.halfW, f.halfH)
    ensures |r| == 3 ==> forall i :: 1 <= i < 3 ==>
      r[i].priority == 0.65 * (e.rect.width * e.rect.height) && r[i].strengthScale == 0.88
  {
    var rect := e.rect;
    var area := rect.width * rect.height;
    var f := ElementCenter(rect, v);
    var center := Candidate(e.id, f.x, f.y, area, 1.0, f.halfW, f.halfH);
    if IsWide(rect) then
      var l := ToNorm(v, rect.left + rect.width * 0.32, rect.top + rect.height * 0.5);
      var rt := ToNorm(v, rect.left + rect.width * 0.68, rect.top + rect.height * 0.5);
      [center, Candidate(e.id, l.x, l.y, area * 0.65, 0.88, f.halfW, f.halfH),
               Candidate(e.id, rt.x, rt.y, area * 0.65, 0.88, f.halfW, f.halfH)]
    else if IsTall(rect) then
      var t := ToNorm(v, rect.left + rect.width * 0.5, rect.top + rect.height * 0.32);
      var b := ToNorm(v, rect.left + rect.width * 0.5, rect.top + rect.height * 0.68);
      [center, Candidate(e.id, t.x, t.y, area * 0.65, 0.88, f.halfW, f.halfH),
               Candidate(e.id, b.x, b.y, area * 0.65, 0.88, f.halfW, f.halfH)]
    else
      [center]
  }

  /**
   * For a rectangle of positive size, the two side points of a wide element
   * flank its centre horizontally at the centre's height, and those of a tall
   * element flank it vertically (the first one above) at the centre's x.
   */
  lemma SidePointsFlankCentre(e: Element, v: Viewport)
    requires ValidViewport(v) && e.rect.width > 0.0 && e.rect.height > 0.0
    ensures var r := CandidatesOf(e, v);
      && (IsWide(e.rect) ==> r[1].y == r[0].y == r[2].y && r[1].x < r[0].x < r[2].x)
      && (!IsWide(e.rect) && IsTall(e.rect) ==> r[1].x == r[0].x == r[2].x && r[1].y > r[0].y > r[2].y)
  {
    var rect := e.rect;
    if IsWide(rect) {
      DivStrictlyMonotone(rect.left + rect.width * 0.32, rect.left + rect.width * 0.5, v.innerWidth);
      DivStrictlyMonotone(rect.left + rect.width * 0.5, rect.left + rect.width * 0.68, v.innerWidth);
    } else if IsTall(rect) {
      DivStrictlyMonotone(rect.top + rect.height * 0.32, rect.top + rect.height * 0.5, v.innerHeight);
      DivStrictlyMonotone(rect.top + rect.height * 0.5, rect.top + rect.height * 0.68, v.innerHeight);
    }
  }

  /** An element is never both wide and tall. */
  lemma NeverWideAndTall(r: Rect)
    requires r.width >= 0.0 && r.height >= 0.0
    ensures !(IsWide(r) && IsTall(r))
  {
  }

  lemma DivStrictlyMonotone(a: real, b: real, d: real)
    requires d > 0.0 && a < b
    ensures a / d < b / d
  {
    assert b / d - a / d == (b - a) / d;
  }

  /** All candidates, element by element in document order. */
  function AllCandidates(els: seq<Element>, v: Viewport): (r: seq<Candidate>)
    requires ValidViewport(v)
    ensures forall c :: c in r ==> exists e :: e in els && Kept(e) && c.el == e.id
    ensures forall e, c :: e in els && Kept(e) && c in CandidatesOf(e, v) ==> c in r
    ensures |KeptElements(els)| <= |r| <= 3 * |KeptElements(els)|
  {
    if els == [] then []
    else
      var rest := AllCandidates(els[1..], v);
      var own := if Kept(els[0]) then CandidatesOf(els[0], v) else [];
      assert forall c :: c in rest ==> exists e :: e in els && Kept(e) && c.el == e.id by {
        forall c | c in rest ensures exists e :: e in els && Kept(e) && c.el == e.id {
          var e :| e in els[1..] && Kept(e) && c.el == e.id;
          assert e in els;
        }
      }
      own + rest
  }

  /** The candidates of each element of `ks` in turn: one block per element, in order. */
  function CandidatesOfEach(ks: seq<Element>, v: Viewport): seq<Candidate>
    requires ValidViewport(v)
  {
    if ks == [] then [] else CandidatesOf(ks[0], v) + CandidatesOfEach(ks[1..], v)
  }

  /** The elements of `ks` that are wide or tall, and so contribute two side points. */
  function Elongated(ks: seq<Element>): seq<Element> {
    if ks == [] then []
    else (if IsWide(ks[0].rect) || IsTall(ks[0].rect) then [ks[0]] else []) + Elongated(ks[1..])
  }

  /** Each element contributes its centre, and a wide or tall one two more. */
  lemma {:induction false} CandidatesOfEachLength(ks: seq<Element>, v: Viewport)
    requires ValidViewport(v)
    ensures |CandidatesOfEach(ks, v)| == |ks| + 2 * |Elongated(ks)|
  {
    if ks != [] {
      CandidatesOfEachLength(ks[1..], v);
    }
  }

  /**
   * The pool is exactly the kept elements' candidate blocks concatenated in
   * document order: each kept element appears once, with its centre first,
   * so the pool has one candidate per kept element plus two per wide or tall one.
   */
  lemma {:induction false} AllCandidatesInOrder(els: seq<Element>, v: Viewport)
    requires ValidViewport(v)
    ensures AllCandidates(els, v) == CandidatesOfEach(KeptElements(els), v)
    ensures |AllCandidates(els, v)| == |KeptElements(els)| + 2 * |Elongated(KeptElements(els))|
  {
    if els != [] {
      AllCandidatesInOrder(els[1..], v);
      var rest := KeptElements(els[1..]);
      if Kept(els[0]) {
        assert KeptElements(els) == [els[0]] + rest;
        assert KeptElements(els)[1..] == rest;
      } else {
        assert KeptElements(els) == rest;
      }
    }
    CandidatesOfEachLength(KeptElements(els), v);
  }

  /** A single kept element registers its own candidates once each, and a dropped one none. */
  lemma SingleElementPool(e: Element, v: Viewport)
    requires ValidViewport(v)
    ensures AllCandidates([e], v) == (if Kept(e) then CandidatesOf(e, v) else [])
  {
    AllCandidatesInOrder([e], v);
    assert [e][1..] == [];
  }

  /** Descending by priority. */
  predicate Descending(s: seq<Candidate>) {
    forall i, j :: 0 <= i < j < |s| ==> s[i].priority >= s[j].priority
  }

  /** Inserts `c` before the first element of lower priority: `c` goes ahead of equal ones that came after it. */
  function Insert(c: Candidate, s: seq<Candidate>): (r: seq<Candidate>)
    ensures multiset(r) == multiset(s) + multiset{c}
    ensures |r| == |s| + 1
  {
    if s == [] || c.priority >= s[0].priority then [c] + s
    else
      assert s == [s[0]] + s[1..];
      [s[0]] + Insert(c, s[1..])
  }

  lemma {:induction false} InsertKeepsDescending(c: Candidate, s: seq<Candidate>)
    requires Descending(s)
    ensures Descending(Insert(c, s))
    ensures Insert(c, s)[0] == c || Insert(c, s)[0] == s[0]
  {
    if s != [] && c.priority < s[0].priority {
      var t := Insert(c, s[1..]);
      InsertKeepsDescending(c, s[1..]);
      var r := [s[0]] + t;
      assert r == Insert(c, s);
      forall i, j | 0 <= i < j < |r| ensures r[i].priority >= r[j].priority {
        if i == 0 {
          assert r[j] in multiset(t);
          assert r[j] in multiset(s[1..]) + multiset{c};
          if r[j] != c {
            assert r[j] in s[1..];
            var k :| 0 <= k < |s[1..]| && s[1..][k] == r[j];
            assert s[k + 1] == r[j];
          }
        } else {
          assert r[i] == t[i - 1] && r[j] == t[j - 1];
        }
      }
    }
  }

  /** A stable sort by descending priority (the comparator `b.priority - a.priority`). */
  function SortDesc(s: seq<Candidate>): (r: seq<Candidate>)
    ensures Descending(r)
    ensures multiset(r) == multiset(s)
    ensures |r| == |s|
  {
    if s == [] then []
    else
      assert s == [s[0]] + s[1..];
      InsertKeepsDescending(s[0], SortDesc(s[1..]));
      Insert(s[0], SortDesc(s[1..]))
  }

  /** A chosen candidate becomes a permanent attractor at the base strength scaled by its factor. */
  function ToAttractor(c: Candidate, b: Behavior): (a: Attractor)
    ensures a.element == Some(c.el) && a.isPermanent && !a.isGlowing
    ensures a.strength == a.targetStrength == b.baseStrength * c.strengthScale && a.fadeSpeed == b.fallSpeed
    ensures a.x == c.x && a.y == c.y && a.halfW == c.halfW && a.halfH == c.halfH
  {
    Attractor(Some(c.el), c.x, c.y, c.halfW, c.halfH,
              b.baseStrength * c.strengthScale, b.baseStrength * c.strengthScale,
              b.fallSpeed, true, false)
  }

  /** The candidates that make the cut. */
  function Chosen(els: seq<Element>, v: Viewport, cap: nat): (r: seq<Candidate>)
    requires ValidViewport(v)
    ensures |r| == MinNat(|AllCandidates(els, v)|, cap)
  {
    SortDesc(AllCandidates(els, v))[..MinNat(|AllCandidates(els, v)|, cap)]
  }

  /** The attractors registered from a page snapshot: never more than the capacity. */
  function Registered(els: seq<Element>, v: Viewport, cap: nat, b: Behavior): (r: seq<Attractor>)
    requires ValidViewport(v)
    ensures |r| <= cap
  {
    var chosen := Chosen(els, v, cap);
    seq(|chosen|, i requires 0 <= i < |chosen| => ToAttractor(chosen[i], b))
  }

  /**
   * One registered attractor per chosen candidate, in the same order: all
   * permanent, none glowing, at rest, falling back at the fall speed.
   */
  lemma RegisteredShape(els: seq<Element>, v: Viewport, cap: nat, b: Behavior)
    requires ValidViewport(v)
    ensures var r := Registered(els, v, cap, b);
      && |r| == MinNat(|AllCandidates(els, v)|, cap)
      && (forall i :: 0 <= i < |r| ==> r[i] == ToAttractor(Chosen(els, v, cap)[i], b))
      && (forall a :: a in r ==>
            a.isPermanent && !a.isGlowing && a.fadeSpeed == b.fallSpeed &&
            a.strength == a.targetStrength && a.element.Some?)
  {
  }

  /**
   * The chosen candidates are the highest-priority ones: they are in
   * descending order, together with the rejected ones they are exactly the
   * candidates, and none of the rejected outranks any chosen one.
   */
  lemma ChosenAreTopPriority(els: seq<Element>, v: Viewport, cap: nat)
    requires ValidViewport(v)
    ensures var all := AllCandidates(els, v);
      var sorted := SortDesc(all);
      var k := MinNat(|all|, cap);
      && Descending(Chosen(els, v, cap))
      && multiset(Chosen(els, v, cap)) + multiset(sorted[k..]) == multiset(all)
      && forall c, d :: c in Chosen(els, v, cap) && d in sorted[k..] ==> c.priority >= d.priority
  {
    var all := AllCandidates(els, v);
    PrefixOutranksRest(SortDesc(all), MinNat(|all|, cap));
  }

  lemma PrefixOutranksRest(s: seq<Candidate>, k: nat)
    requires Descending(s) && k <= |s|
    ensures Descending(s[..k])
    ensures multiset(s[..k]) + multiset(s[k..]) == multiset(s)
    ensures forall c, d :: c in s[..k] && d in s[k..] ==> c.priority >= d.priority
  {
    assert s == s[..k] + s[k..];
    forall c, d | c in s[..k] && d in s[k..] ensures c.priority >= d.priority {
      var i :| 0 <= i < k && s[..k][i] == c;
      var j :| 0 <= j < |s| - k && s[k..][j] == d;
      assert s[i] == c && s[k + j] == d;
    }
  }

  /** Every registered attractor starts at rest: strength equals target, so the first frames do not move it. */
  lemma RegisteredAtRest(els: seq<Element>, v: Viewport, cap: nat, b: Behavior, dm: real, p: Page)
    requires ValidViewport(v) && ValidViewport(p.view)
    ensures var r := Registered(els, v, cap, b);
      forall a :: a in r ==> Step(a, dm, p).strength == a.strength && !Expired(Step(a, dm, p))
  {
    var r := Registered(els, v, cap, b);
    RegisteredShape(els, v, cap, b);
    forall a | a in r ensures Step(a, dm, p).strength == a.strength && !Expired(Step(a, dm, p)) {
      assert a.strength == a.targetStrength && a.isPermanent;
    }
  }
}
