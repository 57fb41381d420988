/** The pending shapes (`begin`, `rect`, `roundrect`, `ellipse`), the image elements, and
    the rotation `rotate` adds to the painting state. Coordinates are translated by the
    state offset and multiplied by its scale. */
module Shapes {
  import opened Strings
  import opened Numbers
  import opened Svg
  import opened PaintState

  /** `begin`: an empty pending path. */
  function PathNode(): (n: Element)
    ensures n.name == "path" && n.attrs == map[] && n.children == []
  {
    NewElement("path")
  }

  /** `rect(x, y, w, h)`: the box translated and scaled, each number formatted. */
  function RectNode(s: State, x: real, y: real, w: real, h: real): (n: Element)
    ensures n.name == "rect" && n.children == [] && n.attrs.Keys == {"x", "y", "width", "height"}
    ensures n.attrs["x"] == Num(Format((x + s.dx) * s.scale)) && n.attrs["y"] == Num(Format((y + s.dy) * s.scale))
    ensures n.attrs["width"] == Num(Format(w * s.scale)) && n.attrs["height"] == Num(Format(h * s.scale))
  {
    Element("rect", map["x" := Num(Format((x + s.dx) * s.scale)), "y" := Num(Format((y + s.dy) * s.scale)),
                         "width" := Num(Format(w * s.scale)), "height" := Num(Format(h * s.scale))], [])
  }

  /** Whether attribute `key` is a number within 0.005 of `v` with at most two decimals. */
  predicate Near(n: Element, key: string, v: real) {
    key in n.attrs && n.attrs[key].Num? && Abs(n.attrs[key].r - v) <= 0.005 && IsHundredths(n.attrs[key].r)
  }

  /** A rect's attributes are the device box to the hundredth. */
  lemma RectIsDeviceBox(s: State, x: real, y: real, w: real, h: real)
    ensures var n := RectNode(s, x, y, w, h);
      Near(n, "x", (x + s.dx) * s.scale) && Near(n, "y", (y + s.dy) * s.scale)
      && Near(n, "width", w * s.scale) && Near(n, "height", h * s.scale)
  {
  }

  /** With offset (5, 5) and scale 2, `rect(10, 10, 50, 20)` is at (30, 30) and 100 by 40. */
  lemma RectExample(s: State)
    requires s.dx == 5.0 && s.dy == 5.0 && s.scale == 2.0
    ensures RectNode(s, 10.0, 10.0, 50.0, 20.0).attrs ==
      map["x" := Num(30.0), "y" := Num(30.0), "width" := Num(100.0), "height" := Num(40.0)]
  {
    FormatKeepsHundredths(30.0);
    FormatKeepsHundredths(100.0);
    FormatKeepsHundredths(40.0);
  }

  /** `roundrect`: a rect with `rx`/`ry` for positive corner sizes only. */
  function RoundrectNode(s: State, x: real, y: real, w: real, h: real, dx: real, dy: real): (n: Element)
    ensures SameExcept(RectNode(s, x, y, w, h), n, {"rx", "ry"})
    ensures dx > 0.0 ==> Attr(n, "rx") == Some(Num(Format(dx * s.scale)))
    ensures dx <= 0.0 ==> Attr(n, "rx") == None
    ensures dy > 0.0 ==> Attr(n, "ry") == Some(Num(Format(dy * s.scale)))
    ensures dy <= 0.0 ==> Attr(n, "ry") == None
  {
    var r := RectNode(s, x, y, w, h);
    var r1 := SetAttrIf(r, dx > 0.0, "rx", Num(Format(dx * s.scale)));
    var r2 := SetAttrIf(r1, dy > 0.0, "ry", Num(Format(dy * s.scale)));
    SameExceptTrans(r, r1, r2, {"rx"}, {"ry"});
    SameExceptKeeps(r1, r2, {"ry"}, "rx");
    r2
  }

  /** `ellipse(x, y, w, h)`: the centre rounded to whole device units (not formatted), the
      radii scaled. */
  function EllipseNode(s: State, x: real, y: real, w: real, h: real): (n: Element)
    ensures n.name == "ellipse" && n.children == [] && n.attrs.Keys == {"cx", "cy", "rx", "ry"}
    ensures n.attrs["cx"] == Num(Round((x + w / 2.0 + s.dx) * s.scale) as real)
    ensures n.attrs["cy"] == Num(Round((y + h / 2.0 + s.dy) * s.scale) as real)
    ensures n.attrs["rx"] == Num(w / 2.0 * s.scale) && n.attrs["ry"] == Num(h / 2.0 * s.scale)
  {
    Element("ellipse", map["cx" := Num(Round((x + w / 2.0 + s.dx) * s.scale) as real),
                           "cy" := Num(Round((y + h / 2.0 + s.dy) * s.scale) as real),
                           "rx" := Num(w / 2.0 * s.scale), "ry" := Num(h / 2.0 * s.scale)], [])
  }

  /** The ellipse's centre is the centre of the device box to within half a unit. */
  lemma EllipseCentreNear(s: State, x: real, y: real, w: real, h: real)
    ensures var n := EllipseNode(s, x, y, w, h);
      && Abs(n.attrs["cx"].r - (x + s.dx) * s.scale - n.attrs["rx"].r) <= 0.5
      && Abs(n.attrs["cy"].r - (y + s.dy) * s.scale - n.attrs["ry"].r) <= 0.5
  {
    var n := EllipseNode(s, x, y, w, h);
    assert (x + w / 2.0 + s.dx) * s.scale == (x + s.dx) * s.scale + w / 2.0 * s.scale;
    assert (y + h / 2.0 + s.dy) * s.scale == (y + s.dy) * s.scale + h / 2.0 * s.scale;
  }

  /** The terms `image` adds to the state transform to mirror the image about its own box:
      `scale(sx,sy)` then a translation by the scaled mirror offset. `x` and `y` are already
      translated by the state offset. None when the image is not flipped. */
  function ImageFlip(s: State, x: real, y: real, w: real, h: real, flipH: bool, flipV: bool): (t: seq<TransformTerm>)
    ensures !flipH && !flipV ==> t == []
    ensures flipH || flipV ==> |t| == 2 && t[0] == Scale(if flipH then -1.0 else 1.0, if flipV then -1.0 else 1.0)
    ensures flipH || flipV ==> t[1] == Translate((if flipH then -w - 2.0 * x else 0.0) * s.scale,
                                                (if flipV then -h - 2.0 * y else 0.0) * s.scale)
  {
    if flipH || flipV then
      [Scale(if flipH then -1.0 else 1.0, if flipV then -1.0 else 1.0),
       Translate((if flipH then -w - 2.0 * x else 0.0) * s.scale, (if flipV then -h - 2.0 * y else 0.0) * s.scale)]
    else []
  }

  /** Mirroring about the box: `scale(-1,-1) translate(...)` swaps the two edges of the
      image's device box, horizontally and vertically. */
  lemma ImageFlipMirrorsBox(s: State, x: real, y: real, w: real, h: real)
    ensures var t := ImageFlip(s, x, y, w, h, true, true);
      && t[0].sx * (x * s.scale + t[1].tx) == (x + w) * s.scale
      && t[0].sx * ((x + w) * s.scale + t[1].tx) == x * s.scale
      && t[0].sy * (y * s.scale + t[1].ty) == (y + h) * s.scale
      && t[0].sy * ((y + h) * s.scale + t[1].ty) == y * s.scale
  {
    assert (-w - 2.0 * x) * s.scale == -(w * s.scale) - 2.0 * (x * s.scale);
    assert (-h - 2.0 * y) * s.scale == -(h * s.scale) - 2.0 * (y * s.scale);
    assert (x + w) * s.scale == x * s.scale + w * s.scale;
    assert (y + h) * s.scale == y * s.scale + h * s.scale;
  }

  /** The `image` element, with the defaults of the optional arguments applied (`aspect`
      true, no flips). `src` is the converted source. Every image has its box, offset by the
      image offset, and its source; `ImageOptional` states the other attributes. */
  function ImageNode(s: State, opts: Options, x: real, y: real, w: real, h: real, src: string,
                     aspect: Option<bool>, flipH: Option<bool>, flipV: Option<bool>): (n: Element)
    ensures n.name == "image" && n.children == []
    ensures Attr(n, "x") == Some(Num(Format((x + s.dx) * s.scale) + opts.imageOffset))
    ensures Attr(n, "y") == Some(Num(Format((y + s.dy) * s.scale) + opts.imageOffset))
    ensures Attr(n, "width") == Some(Num(Format(w * s.scale))) && Attr(n, "height") == Some(Num(Format(h * s.scale)))
    ensures Attr(n, "xlink:href") == Some(Str(src))
    ensures SameExcept(ImageOptional(s, opts, x, y, w, h, aspect, flipH, flipV), n, ImageBoxKeys)
  {
    WithBox(ImageOptional(s, opts, x, y, w, h, aspect, flipH, flipV),
            Num(Format((x + s.dx) * s.scale) + opts.imageOffset), Num(Format((y + s.dy) * s.scale) + opts.imageOffset),
            Num(Format(w * s.scale)), Num(Format(h * s.scale)), Str(src))
  }

  const ImageBoxKeys: set<string> := {"x", "y", "width", "height", "xlink:href"}

  /** An element with its box and source attributes set. */
  function WithBox(e: Element, x: Value, y: Value, w: Value, h: Value, src: Value): (n: Element)
    ensures n.name == e.name && n.children == e.children
    ensures Attr(n, "x") == Some(x) && Attr(n, "y") == Some(y) && Attr(n, "width") == Some(w)
    ensures Attr(n, "height") == Some(h) && Attr(n, "xlink:href") == Some(src)
    ensures SameExcept(e, n, ImageBoxKeys)
  {
    e.(attrs := e.attrs["x" := x]["y" := y]["width" := w]["height" := h]["xlink:href" := src])
  }

  /** The attributes `image` sets only in some cases, on an image element of their own:
      `preserveAspectRatio="none"` only when the aspect is not kept, the combined alpha only
      when below 1, the state transform followed by the flip, `pointer-events="none"` only
      when pointer events are off, and the blocking style only when image pointer events
      are blocked. */
  function ImageOptional(s: State, opts: Options, x: real, y: real, w: real, h: real,
                         aspect: Option<bool>, flipH: Option<bool>, flipV: Option<bool>): (n: Element)
    ensures n.attrs.Keys <= {"preserveAspectRatio", "opacity", "transform", "pointer-events", "style"}
    ensures Attr(n, "preserveAspectRatio") == (if aspect == Some(false) then Some(Str("none")) else None)
    ensures Attr(n, "opacity") == (if s.alpha < 1.0 || s.fillAlpha < 1.0 then Some(Num(s.alpha * s.fillAlpha)) else None)
    ensures var t := s.transform + ImageFlip(s, x + s.dx, y + s.dy, w, h, flipH == Some(true), flipV == Some(true));
      Attr(n, "transform") == (if |t| > 0 then Some(Transform(t)) else None)
    ensures Attr(n, "pointer-events") == (if !opts.pointerEvents then Some(Str("none")) else None)
    ensures Attr(n, "style") == (if opts.blockImagePointerEvents then Some(Str("pointer-events:none")) else None)
  {
    var tr := s.transform + ImageFlip(s, x + s.dx, y + s.dy, w, h, flipH == Some(true), flipV == Some(true));
    var m := Put(map[], aspect == Some(false), "preserveAspectRatio", Str("none"));
    var m := Put(m, s.alpha < 1.0 || s.fillAlpha < 1.0, "opacity", Num(s.alpha * s.fillAlpha));
    var m := Put(m, |tr| > 0, "transform", Transform(tr));
    var m := Put(m, !opts.pointerEvents, "pointer-events", Str("none"));
    Element("image", Put(m, opts.blockImagePointerEvents, "style", Str("pointer-events:none")), [])
  }

  /** The hidden rect `image` lays over the image when image pointer events are blocked: it
      takes the clicks on the image's box (without the image offset). */
  function ImageOverlay(s: State, x: real, y: real, w: real, h: real): (n: Element)
    ensures n.name == "rect" && n.children == []
    ensures Attr(n, "visibility") == Some(Str("hidden")) && Attr(n, "pointer-events") == Some(Str("fill"))
    ensures SameExcept(RectNode(s, x, y, w, h), n, {"visibility", "pointer-events"})
    ensures Attr(n, "x") == Some(Num(Format((x + s.dx) * s.scale))) && Attr(n, "y") == Some(Num(Format((y + s.dy) * s.scale)))
    ensures Attr(n, "width") == Some(Num(Format(w * s.scale))) && Attr(n, "height") == Some(Num(Format(h * s.scale)))
  {
    HiddenHitArea(RectNode(s, x, y, w, h))
  }

  /** An element made invisible but still receiving clicks on its fill. */
  function HiddenHitArea(e: Element): (n: Element)
    ensures n.name == e.name && n.children == e.children
    ensures Attr(n, "visibility") == Some(Str("hidden")) && Attr(n, "pointer-events") == Some(Str("fill"))
    ensures SameExcept(e, n, {"visibility", "pointer-events"})
  {
    e.(attrs := e.attrs["visibility" := Str("hidden")]["pointer-events" := Str("fill")])
  }

  /** What `image` appends to the root, in order. */
  function ImageNodes(s: State, opts: Options, x: real, y: real, w: real, h: real, src: string,
                      aspect: Option<bool>, flipH: Option<bool>, flipV: Option<bool>): (out: seq<Element>)
  {
    [ImageNode(s, opts, x, y, w, h, src, aspect, flipH, flipV)]
    + (if opts.blockImagePointerEvents then [ImageOverlay(s, x, y, w, h)] else [])
  }

  /** The overlay covers the image box exactly: it has the image's width and height, and its
      corner is the image's corner less the image offset. */
  lemma OverlayCoversImage(s: State, opts: Options, x: real, y: real, w: real, h: real, src: string,
                           aspect: Option<bool>, flipH: Option<bool>, flipV: Option<bool>)
    ensures var o := ImageOverlay(s, x, y, w, h);
      var n := ImageNode(s, opts, x, y, w, h, src, aspect, flipH, flipV);
      && Attr(o, "x").value.r + opts.imageOffset == Attr(n, "x").value.r
      && Attr(o, "y").value.r + opts.imageOffset == Attr(n, "y").value.r
      && Attr(o, "width") == Attr(n, "width") && Attr(o, "height") == Attr(n, "height")
  {
  }

  /** The transform terms `rotate` appends, given the translated and scaled centre. */
  function RotationTerms(theta: real, flipH: bool, flipV: bool, cx: real, cy: real): seq<TransformTerm> {
    var theta := if flipH && flipV then theta + 180.0 else theta;
    var tx := if flipH then cx else 0.0;
    var ty := if flipV then cy else 0.0;
    var mirror := if flipH != flipV then
      [Translate(Format(tx), Format(ty)),
       Scale(Format(if flipH then -1.0 else 1.0), Format(if flipV then -1.0 else 1.0)),
       Translate(Format(-tx), Format(-ty))]
      else [];
    var theta := if flipH != flipV then -theta else theta;
    mirror + (if theta != 0.0 then [Rotate(Format(theta), Format(cx), Format(cy))] else [])
  }

  /** The angle `rotate` adds to the accumulated rotation: 180 more for a double flip,
      negated for a single flip. */
  function RotationAngle(theta: real, flipH: bool, flipV: bool): (a: real)
    ensures flipH && flipV ==> a == theta + 180.0
    ensures flipH != flipV ==> a == -theta
    ensures !flipH && !flipV ==> a == theta
  {
    if flipH && flipV then theta + 180.0 else if flipH != flipV then -theta else theta
  }

  /** `rotate(theta, flipH, flipV, cx, cy)` on the painting state. Nothing happens for a
      zero angle without flips; otherwise the terms are appended to the transform, the
      angle is accumulated and the device centre is recorded. */
  function RotateState(s: State, theta: real, flipH: bool, flipV: bool, cx: real, cy: real): (r: State)
    ensures !(theta != 0.0 || flipH || flipV) ==> r == s
    ensures theta != 0.0 || flipH || flipV ==>
      var dcx := (cx + s.dx) * s.scale;
      var dcy := (cy + s.dy) * s.scale;
      r == s.(transform := s.transform + RotationTerms(theta, flipH, flipV, dcx, dcy),
              rotation := s.rotation + RotationAngle(theta, flipH, flipV),
              rotationCx := dcx, rotationCy := dcy)
  {
    if theta != 0.0 || flipH || flipV then
      var cx := (cx + s.dx) * s.scale;
      var cy := (cy + s.dy) * s.scale;
      s.(transform := s.transform + RotationTerms(theta, flipH, flipV, cx, cy),
         rotation := s.rotation + RotationAngle(theta, flipH, flipV),
         rotationCx := cx, rotationCy := cy)
    else s
  }

  /** Flipping both ways is a half turn: unless the total angle is zero it appends the
      same terms and accumulates the same angle as rotating by 180 more without flips. */
  lemma DoubleFlipIsHalfTurn(s: State, theta: real, cx: real, cy: real)
    requires theta + 180.0 != 0.0
    ensures RotateState(s, theta, true, true, cx, cy) == RotateState(s, theta + 180.0, false, false, cx, cy)
  {
  }

  /** A single flip appends the mirror (a translation, a reflection and the inverse
      translation) before a rotation by the negated angle. */
  lemma SingleFlipMirrors(theta: real, flipH: bool, cx: real, cy: real)
    ensures var t := RotationTerms(theta, flipH, !flipH, cx, cy);
      && |t| == (if theta != 0.0 then 4 else 3)
      && t[1] == (if flipH then Scale(-1.0, 1.0) else Scale(1.0, -1.0))
      && t[0].Translate? && t[2].Translate? && t[2].tx == -t[0].tx && t[2].ty == -t[0].ty
      && (theta != 0.0 ==> t[3] == Rotate(Format(-theta), Format(cx), Format(cy)))
  {
    assert IsHundredths(1.0) && IsHundredths(-1.0);
    FormatKeepsHundredths(1.0);
    FormatKeepsHundredths(-1.0);
    var tx := if flipH then cx else 0.0;
    var ty := if !flipH then cy else 0.0;
    FormatNegate(tx);
    FormatNegate(ty);
  }
}
