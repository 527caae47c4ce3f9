/** The capture circle of the kiosk (app/static/pointeur-borne.js, guideGeometry): the circle drawn over a
    displayed video and the square cut out of the video itself. Lengths are reals; rounding is not modelled. */
module GuideGeometry {
  import opened Wrappers

  datatype Fit = Cover | Contain

  /** An element of `elW` by `elH` on screen, showing a video of `vw` by `vh` pixels. */
  datatype View = View(elW: real, elH: real, vw: real, vh: real, fit: Fit, mirrored: bool, ratio: real)

  datatype Guide = Guide(cx: real, cy: real, d: real, sx: real, sy: real, side: real, scale: real)

  function Min(x: real, y: real): real { if x < y then x else y }

  function Max(x: real, y: real): real { if x > y then x else y }

  /** Products and quotients are named, so that a proof can set their arithmetic aside. */
  function Times(x: real, y: real): real { x * y }

  function Over(x: real, y: real): real
    requires y != 0.0
  {
    x / y
  }

  predicate Shown(v: View) { v.elW > 0.0 && v.elH > 0.0 && v.vw > 0.0 && v.vh > 0.0 }

  function Scale(v: View): (s: real)
    requires Shown(v)
    ensures s > 0.0
  {
    if v.fit == Contain then Min(v.elW / v.vw, v.elH / v.vh) else Max(v.elW / v.vw, v.elH / v.vh)
  }

  /** Where the displayed video starts along one side; negative when it is cut. */
  function Offset(el: real, size: real, scale: real): real { (el - Times(size, scale)) / 2.0 }

  /** The visible stretch along one side: its start and its length. */
  function VisibleStart(el: real, size: real, scale: real): real { Max(0.0, Offset(el, size, scale)) }

  function VisibleLength(el: real, size: real, scale: real): real { Min(el, Times(size, scale)) }

  function Diameter(v: View): real
    requires Shown(v)
  {
    Times(v.ratio, Min(VisibleLength(v.elW, v.vw, Scale(v)), VisibleLength(v.elH, v.vh, Scale(v))))
  }

  function Geometry(v: View): Option<Guide> {
    if !Shown(v) then None
    else
      var scale := Scale(v);
      var ox, oy := Offset(v.elW, v.vw, scale), Offset(v.elH, v.vh, scale);
      var visW, visH := VisibleLength(v.elW, v.vw, scale), VisibleLength(v.elH, v.vh, scale);
      var d := Diameter(v);
      var cx, cy := VisibleStart(v.elW, v.vw, scale) + visW / 2.0, VisibleStart(v.elH, v.vh, scale) + visH / 2.0;
      var ux := if v.mirrored then v.elW - cx else cx;
      var side := Min(Min(Over(d, scale), v.vw), v.vh);
      var sx, sy := Over(ux - ox, scale) - side / 2.0, Over(cy - oy, scale) - side / 2.0;
      Some(Guide(cx, cy, d, Min(Max(0.0, sx), v.vw - side), Min(Max(0.0, sy), v.vh - side), side, scale))
  }

  // ---- What the screen shows ----

  /** Where a point of the video appears in the element. */
  function DisplayX(v: View, x: real): real
    requires Shown(v)
  {
    var unmirrored := Offset(v.elW, v.vw, Scale(v)) + Times(x, Scale(v));
    if v.mirrored then v.elW - unmirrored else unmirrored
  }

  function DisplayY(v: View, y: real): real
    requires Shown(v)
  {
    Offset(v.elH, v.vh, Scale(v)) + Times(y, Scale(v))
  }

  predicate InCrop(g: Guide, x: real, y: real) {
    g.sx <= x <= g.sx + g.side && g.sy <= y <= g.sy + g.side
  }

  /** Inside the square around the circle. */
  predicate InBounds(g: Guide, x: real, y: real) {
    g.cx - g.d / 2.0 <= x <= g.cx + g.d / 2.0 && g.cy - g.d / 2.0 <= y <= g.cy + g.d / 2.0
  }

  /** A stretch of the element where the video is visible. */
  predicate Visible(v: View, left: real, right: real, top: real, bottom: real)
    requires Shown(v)
  {
    && 0.0 <= left <= right <= v.elW && 0.0 <= top <= bottom <= v.elH
    && Offset(v.elW, v.vw, Scale(v)) <= left && right <= Offset(v.elW, v.vw, Scale(v)) + Times(v.vw, Scale(v))
    && Offset(v.elH, v.vh, Scale(v)) <= top && bottom <= Offset(v.elH, v.vh, Scale(v)) + Times(v.vh, Scale(v))
  }

  // ---- Arithmetic ----

  lemma Divided(a: real, b: real)
    requires b > 0.0
    ensures Times(Over(a, b), b) == a && Over(Times(a, b), b) == a
  {
  }

  lemma Scaled(a: real, b: real, s: real)
    requires s > 0.0
    ensures a <= b <==> Times(a, s) <= Times(b, s)
    ensures Times(0.0, s) == 0.0 && Times(1.0, s) == s
  {
    if a < b { assert (b - a) * s > 0.0; }
    if a > b { assert (a - b) * s > 0.0; }
  }

  lemma Halves(a: real, b: real, s: real)
    ensures Times((a - b) / 2.0, s) == (Times(a, s) - Times(b, s)) / 2.0
    ensures Times((a - b) / 2.0 + b, s) == (Times(a, s) + Times(b, s)) / 2.0
    ensures Times(a / 2.0, s) == Times(a, s) / 2.0
  {
  }

  lemma CentreOf(el: real, size: real, scale: real)
    ensures VisibleStart(el, size, scale) + VisibleLength(el, size, scale) / 2.0 == el / 2.0
  {
    hide Times;
  }

  /** The middle of the element is the middle of the video. */
  lemma MiddleOf(el: real, size: real, scale: real)
    requires scale > 0.0
    ensures Over(el / 2.0 - Offset(el, size, scale), scale) == size / 2.0
  {
    hide Times, Over;
    Halves(size, 0.0, scale);
    Divided(size / 2.0, scale);
  }

  lemma Shrunk(ratio: real, x: real)
    requires 0.0 < ratio && x > 0.0
    ensures 0.0 < Times(ratio, x) && (Times(ratio, x) <= x <==> ratio <= 1.0)
  {
    hide Times;
    Scaled(ratio, 1.0, x);
    Scaled(ratio, 0.0, x);
  }

  lemma VisiblePositive(el: real, size: real, s: real)
    requires el > 0.0 && size > 0.0 && s > 0.0
    ensures 0.0 < VisibleLength(el, size, s) <= Times(size, s)
  {
    hide Times;
    Scaled(size, 0.0, s);
  }

  lemma QuotientBounds(d: real, size: real, s: real)
    requires s > 0.0 && 0.0 < d <= Times(size, s)
    ensures 0.0 < Over(d, s) <= size
  {
    hide Times, Over;
    Divided(d, s);
    Scaled(Over(d, s), size, s);
    Scaled(Over(d, s), 0.0, s);
  }

  // ---- The geometry ----

  lemma DiameterBounds(v: View)
    requires Shown(v) && v.ratio > 0.0
    ensures var w, h := VisibleLength(v.elW, v.vw, Scale(v)), VisibleLength(v.elH, v.vh, Scale(v));
            && 0.0 < w <= Times(v.vw, Scale(v)) && 0.0 < h <= Times(v.vh, Scale(v)) && 0.0 < Diameter(v)
            && (Diameter(v) <= w && Diameter(v) <= h <==> v.ratio <= 1.0)
  {
    hide Scale, Times, VisibleLength;
    var s := Scale(v);
    VisiblePositive(v.elW, v.vw, s);
    VisiblePositive(v.elH, v.vh, s);
    Shrunk(v.ratio, Min(VisibleLength(v.elW, v.vw, s), VisibleLength(v.elH, v.vh, s)));
  }

  /** The diameter, in video pixels, fits in the video: the size is never clamped. */
  lemma FitsInVideo(v: View)
    requires Shown(v) && 0.0 < v.ratio <= 1.0
    ensures var size := Over(Diameter(v), Scale(v));
            0.0 < size && size <= v.vw && size <= v.vh && Times(size, Scale(v)) == Diameter(v)
  {
    DiameterBounds(v);
    hide Scale, Diameter, VisibleLength, Times, Over;
    Divided(Diameter(v), Scale(v));
    QuotientBounds(Diameter(v), v.vw, Scale(v));
    QuotientBounds(Diameter(v), v.vh, Scale(v));
  }

  /** Everything is centred, and no clamp changes anything. */
  lemma Centred(v: View)
    requires Shown(v) && 0.0 < v.ratio <= 1.0
    ensures var g := Geometry(v).value;
            && g.cx == v.elW / 2.0 && g.cy == v.elH / 2.0
            && g.d == Diameter(v) && g.side == Over(Diameter(v), Scale(v))
            && g.sx == (v.vw - g.side) / 2.0 && g.sy == (v.vh - g.side) / 2.0
  {
    hide Scale, Offset, VisibleStart, VisibleLength, Diameter, Times, Over;
    var s := Scale(v);
    CentreOf(v.elW, v.vw, s);
    CentreOf(v.elH, v.vh, s);
    MiddleOf(v.elW, v.vw, s);
    MiddleOf(v.elH, v.vh, s);
    FitsInVideo(v);
  }

  lemma CropInVideo(v: View)
    requires Shown(v) && 0.0 < v.ratio <= 1.0
    ensures var g := Geometry(v).value;
            0.0 <= g.sx && g.sx + g.side <= v.vw && 0.0 <= g.sy && g.sy + g.side <= v.vh && g.side > 0.0
  {
    hide Scale, Diameter, Times, Over;
    Centred(v);
    FitsInVideo(v);
    hide Geometry;
  }

  /** One side: a point of the video lies in the crop when its image lies in the square. */
  lemma SideImage(el: real, size: real, side: real, d: real, s: real, x: real)
    requires s > 0.0 && Times(side, s) == d
    ensures var shown := Offset(el, size, s) + Times(x, s);
            && ((size - side) / 2.0 <= x <==> el / 2.0 - d / 2.0 <= shown)
            && (x <= (size - side) / 2.0 + side <==> shown <= el / 2.0 + d / 2.0)
  {
    hide Times;
    Scaled((size - side) / 2.0, x, s);
    Scaled(x, (size - side) / 2.0 + side, s);
    Halves(size, side, s);
  }

  /** What is cut out of the video is what the screen shows in the square of the circle, mirrored or not. */
  lemma CropIsWhatIsShown(v: View, x: real, y: real)
    requires Shown(v) && 0.0 < v.ratio <= 1.0
    ensures InCrop(Geometry(v).value, x, y) <==> InBounds(Geometry(v).value, DisplayX(v, x), DisplayY(v, y))
  {
    hide Scale, Offset, Diameter, Times, Over;
    var g := Geometry(v).value;
    Centred(v);
    FitsInVideo(v);
    hide Geometry;
    SideImage(v.elW, v.vw, g.side, Diameter(v), Scale(v), x);
    SideImage(v.elH, v.vh, g.side, Diameter(v), Scale(v), y);
  }

  lemma VisibleSide(el: real, size: real, d: real, s: real)
    ensures d <= VisibleLength(el, size, s) <==>
              && 0.0 <= el / 2.0 - d / 2.0 && el / 2.0 + d / 2.0 <= el
              && Offset(el, size, s) <= el / 2.0 - d / 2.0 && el / 2.0 + d / 2.0 <= Offset(el, size, s) + Times(size, s)
  {
    hide Times;
  }

  /** The circle is drawn in full on the visible video exactly when the ratio is at most one. */
  lemma CircleVisible(v: View)
    requires Shown(v) && v.ratio > 0.0
    ensures var g := Geometry(v).value;
            Visible(v, g.cx - g.d / 2.0, g.cx + g.d / 2.0, g.cy - g.d / 2.0, g.cy + g.d / 2.0) <==> v.ratio <= 1.0
  {
    hide Scale, Times, Over, VisibleLength, VisibleStart, Diameter, Offset;
    var g, s := Geometry(v).value, Scale(v);
    CentreOf(v.elW, v.vw, s);
    CentreOf(v.elH, v.vh, s);
    DiameterBounds(v);
    assert g.cx == v.elW / 2.0 && g.cy == v.elH / 2.0 && g.d == Diameter(v);
    hide Geometry;
    VisibleSide(v.elW, v.vw, g.d, s);
    VisibleSide(v.elH, v.vh, g.d, s);
  }

  // ---- What the scale and the diameter mean ----

  lemma Fills(el: real, size: real, s: real)
    requires size > 0.0
    ensures s <= el / size <==> Times(size, s) <= el
    ensures s >= el / size <==> Times(size, s) >= el
  {
    assert el / size * size == el;
    if s < el / size { assert (el / size - s) * size > 0.0; }
    if s > el / size { assert (s - el / size) * size > 0.0; }
  }

  /** Contained, the whole video is within the element and fills one side of it; covering, the video fills the
      element, and one side exactly. */
  lemma ScaleFits(v: View)
    requires Shown(v)
    ensures var w, h := Times(v.vw, Scale(v)), Times(v.vh, Scale(v));
            && (w == v.elW || h == v.elH)
            && (v.fit == Contain ==> w <= v.elW && h <= v.elH) && (v.fit == Cover ==> w >= v.elW && h >= v.elH)
  {
    Fills(v.elW, v.vw, Scale(v));
    Fills(v.elH, v.vh, Scale(v));
    hide Times;
  }

  /** The diameter is its ratio of the shorter visible side: of the video when it is contained, of the element when
      it is covered. */
  lemma DiameterIs(v: View)
    requires Shown(v)
    ensures var w, h := if v.fit == Contain then Times(v.vw, Scale(v)) else v.elW,
                        if v.fit == Contain then Times(v.vh, Scale(v)) else v.elH;
            Geometry(v).value.d == Times(v.ratio, if w < h then w else h)
  {
    ScaleFits(v);
    hide Scale, Times, Over, Offset;
  }

  /** Nothing is drawn for an element or a video without size, and something for any other. */
  lemma DrawnExactly(v: View)
    ensures Geometry(v).Some? <==> v.elW > 0.0 && v.elH > 0.0 && v.vw > 0.0 && v.vh > 0.0
  {
    hide Scale, Times, Over, Offset, VisibleStart, VisibleLength, Diameter;
  }
}
