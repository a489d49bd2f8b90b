/**
 * Element geometry and its normalisation to viewport coordinates:
 * x grows to the right, y grows upwards (the shader's convention), both in
 * [0, 1] for points inside the viewport.
 */
module Geometry {

  /** A bounding client rectangle, in CSS pixels. */
  datatype Rect = Rect(left: real, top: real, width: real, height: real)

  /** The window's inner size, in CSS pixels. */
  datatype Viewport = Viewport(innerWidth: real, innerHeight: real)

  predicate ValidViewport(v: Viewport) {
    v.innerWidth > 0.0 && v.innerHeight > 0.0
  }

  /** A page element as the registration sees it: its layout size and its rectangle. */
  datatype Element = Element(id: nat, offsetWidth: int, offsetHeight: int, rect: Rect)

  /** The page at one moment: the viewport and the current rectangle of each element. */
  datatype Page = Page(view: Viewport, rects: map<nat, Rect>)

  /** A detached element reports an all-zero rectangle. */
  function RectOf(p: Page, id: nat): Rect {
    if id in p.rects then p.rects[id] else Rect(0.0, 0.0, 0.0, 0.0)
  }

  datatype Point = Point(x: real, y: real)

  /** A normalised centre together with the normalised half extents used as the mask rectangle. */
  datatype Footprint = Footprint(x: real, y: real, halfW: real, halfH: real)

  /** A rectangle that lies wholly inside the viewport. */
  predicate Inside(r: Rect, v: Viewport) {
    0.0 <= r.left && 0.0 <= r.width && r.left + r.width <= v.innerWidth &&
    0.0 <= r.top && 0.0 <= r.height && r.top + r.height <= v.innerHeight
  }

  /** Pixel coordinates to normalised coordinates, flipping the y axis. */
  function ToNorm(v: Viewport, px: real, py: real): (p: Point)
    requires ValidViewport(v)
    ensures 0.0 <= px <= v.innerWidth ==> 0.0 <= p.x <= 1.0
    ensures 0.0 <= py <= v.innerHeight ==> 0.0 <= p.y <= 1.0
    ensures p.x * v.innerWidth == px && (1.0 - p.y) * v.innerHeight == py
  {
    UnitFraction(px, v.innerWidth);
    UnitFraction(py, v.innerHeight);
    Point(px / v.innerWidth, 1.0 - py / v.innerHeight)
  }

  lemma UnitFraction(a: real, b: real)
    requires b > 0.0
    ensures (a / b) * b == a
    ensures 0.0 <= a <= b ==> 0.0 <= a / b <= 1.0
  {
    var q := a / b;
    assert q * b == a;
    if 0.0 <= a <= b {
      assert (1.0 - q) * b == b - a;
      SignOfProduct(1.0 - q, b);
      SignOfProduct(q, b);
    }
  }

  lemma SignOfProduct(x: real, b: real)
    requires b > 0.0 && x * b >= 0.0
    ensures x >= 0.0
  {
  }

  /** The element's centre and its footprint (55% of each extent on either side, normalised). */
  function ElementCenter(r: Rect, v: Viewport): (c: Footprint)
    requires ValidViewport(v)
    ensures Inside(r, v) ==> 0.0 <= c.x <= 1.0 && 0.0 <= c.y <= 1.0
    ensures c.halfW == r.width * 0.55 / v.innerWidth && c.halfH == r.height * 0.55 / v.innerHeight
    ensures r.width >= 0.0 ==> c.halfW >= 0.0
    ensures r.height >= 0.0 ==> c.halfH >= 0.0
    ensures Point(c.x, c.y) == ToNorm(v, r.left + r.width * 0.5, r.top + r.height * 0.5)
  {
    var p := ToNorm(v, r.left + r.width / 2.0, r.top + r.height / 2.0);
    Footprint(p.x, p.y, (r.width * 0.55) / v.innerWidth, (r.height * 0.55) / v.innerHeight)
  }
}
