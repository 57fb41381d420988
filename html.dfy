/** HTML labels (`text` with the `html` format and foreign objects enabled): the
    arithmetic that places the label once the browser has measured it, and the group with
    its `foreignObject` (and alternate text for export) that `text` appends. The label's
    XHTML content is an input: building it is not part of this model. */
module Html {
  import opened Strings
  import opened Numbers
  import opened Svg
  import opened PaintState
  import opened Text

  /** The size of the label box after measuring: the measured size is capped by the box
      when clipping; a filled label keeps its box, a width-overflow label keeps its width
      and takes the measured height, and any other label takes the measured size. */
  function HtmlSize(w: real, h: real, ow: real, oh: real, overflow: Overflow, clip: bool): (r: (real, real))
    ensures overflow == OverflowFill ==> r == (w, h)
    ensures overflow == OverflowWidth ==> r.0 == w
    ensures overflow != OverflowFill ==> r.1 == (if clip then Min(oh, h) else oh)
    ensures overflow == OverflowOther ==> r.0 == (if clip then Min(ow, w) else ow)
    ensures clip ==> r.0 <= w && r.1 <= h
  {
    var ow := if clip then Min(ow, w) else ow;
    var oh := if clip then Min(oh, h) else oh;
    match overflow
    case OverflowWidth => (w, oh)
    case OverflowOther => (ow, oh)
    case OverflowFill => (w, h)
  }

  /** `rotatePoint(x, y, angle, cx, cy)`: the point turned about a centre. Its trigonometry
      is not modelled; the canvas takes it as a parameter. */
  type PointRotation = (real, real, real, real, real) -> (real, real)

  /** A point turned by the shape's rotation about the shape's centre. */
  function Turned(rotatePoint: PointRotation, s: State, px: real, py: real): (real, real) {
    rotatePoint(px, py, s.rotation, s.rotationCx, s.rotationCy)
  }

  /** Where an HTML label goes: its box size, its alignment offsets, the position of its
      corner in device units before rounding, and the transform terms after the
      translation. */
  datatype Placement = Placement(w: real, h: real, dx: real, dy: real, x: real, y: real, terms: seq<TransformTerm>)

  /** Whether the label turns with the shape it belongs to. */
  predicate TurnsWithShape(s: State, opts: Options) {
    s.rotation != 0.0 && opts.rotateHtml
  }

  /** The vertical counterpart of `AnchorFraction`. */
  function VAnchorFraction(valign: VAlign): real {
    match valign
    case Middle => 0.5
    case Bottom => 1.0
    case Top => 0.0
  }

  /** The extra two units Firefox on Windows needs above labels that do not fill their box. */
  function FirefoxLift(opts: Options, overflow: Overflow): real {
    if overflow != OverflowFill && opts.firefoxOnWindows then 2.0 else 0.0
  }

  /** The placement arithmetic of `text` for HTML labels. `x` and `y` already include the
      state offset; `ow` and `oh` are the measured size. */
  function Place(s: State, opts: Options, x: real, y: real, w: real, h: real, align: HAlign, valign: VAlign,
                 overflow: Overflow, clip: bool, rotation: real, ow: real, oh: real,
                 rotatePoint: PointRotation): (p: Placement)
    ensures (p.w, p.h) == HtmlSize(w, h, ow, oh, overflow, clip)
  {
    var size := HtmlSize(w, h, ow, oh, overflow, clip);
    var w, h := size.0, size.1;
    var dx := AlignOffset(align, w);
    var dy := VAlignOffset(valign, h) - FirefoxLift(opts, overflow);
    var x := x + dx;
    var y := y + dy;
    var scaling := if s.scale != 1.0 then [ScaleUniform(s.scale)] else [];
    var turning := if TurnsWithShape(s, opts) then [Rotate(s.rotation, w / 2.0, h / 2.0)] else [];
    var own := if rotation != 0.0 then [Rotate(rotation, -dx, -dy)] else [];
    if TurnsWithShape(s, opts) then
      var pt := Turned(rotatePoint, s, Device(x + w / 2.0, s.scale), Device(y + h / 2.0, s.scale));
      Placement(w, h, dx, dy, pt.0 - Device(w, s.scale) / 2.0, pt.1 - Device(h, s.scale) / 2.0, scaling + turning + own)
    else
      Placement(w, h, dx, dy, Device(x, s.scale), Device(y, s.scale), scaling + turning + own)
  }

  /** Without the shape's rotation, the label box sits so that the point its alignment
      names (left, centre or right; top, middle or bottom) is the given point in device
      units, lifted by the Firefox correction. */
  lemma PlacedAtAnchor(s: State, opts: Options, x: real, y: real, w: real, h: real, align: HAlign, valign: VAlign,
                       overflow: Overflow, clip: bool, rotation: real, ow: real, oh: real, rotatePoint: PointRotation)
    requires !TurnsWithShape(s, opts)
    ensures var p := Place(s, opts, x, y, w, h, align, valign, overflow, clip, rotation, ow, oh, rotatePoint);
      && p.x + AnchorFraction(TextAnchor(align)) * Device(p.w, s.scale) == Device(x, s.scale)
      && p.y + VAnchorFraction(valign) * Device(p.h, s.scale) == Device(y - FirefoxLift(opts, overflow), s.scale)
  {
    var p := Place(s, opts, x, y, w, h, align, valign, overflow, clip, rotation, ow, oh, rotatePoint);
    var f := AnchorFraction(TextAnchor(align));
    var g := VAnchorFraction(valign);
    var lift := FirefoxLift(opts, overflow);
    AlignOffsetMatchesAnchor(align, x, p.w);
    assert p.dx + f * p.w == 0.0;
    assert p.dy + g * p.h == -lift by {
      match valign
      case Top =>
      case Middle =>
      case Bottom =>
    }
    assert p.x == Device(x + p.dx, s.scale);
    assert p.y == Device(y + p.dy, s.scale);
    calc {
      p.x + f * Device(p.w, s.scale);
      (x + p.dx) * s.scale + f * (p.w * s.scale);
      x * s.scale + (p.dx + f * p.w) * s.scale;
      x * s.scale;
    }
    calc {
      p.y + g * Device(p.h, s.scale);
      (y + p.dy) * s.scale + g * (p.h * s.scale);
      y * s.scale + (p.dy + g * p.h) * s.scale;
      (y - lift) * s.scale;
    }
  }

  /** With the shape's rotation, the centre of the label box is the rotated centre of the
      unrotated box, and the box turns about its own centre: the label keeps its place on
      the turned shape. */
  lemma CentredOnTurnedShape(s: State, opts: Options, x: real, y: real, w: real, h: real, align: HAlign,
                             valign: VAlign, overflow: Overflow, clip: bool, rotation: real, ow: real, oh: real,
                             rotatePoint: PointRotation)
    requires TurnsWithShape(s, opts)
    ensures var p := Place(s, opts, x, y, w, h, align, valign, overflow, clip, rotation, ow, oh, rotatePoint);
      && (p.x + Device(p.w, s.scale) / 2.0, p.y + Device(p.h, s.scale) / 2.0)
         == Turned(rotatePoint, s, Device(x + p.dx + p.w / 2.0, s.scale), Device(y + p.dy + p.h / 2.0, s.scale))
      && Rotate(s.rotation, p.w / 2.0, p.h / 2.0) in p.terms
  {
  }

  /** The label's own rotation comes last and turns it about the given point: the corner
      of the box lies at `(dx, dy)` from it, so the pivot `(-dx, -dy)` in the box's frame is
      that point. Without scaling and rotations there are no terms at all. */
  lemma OwnRotationAboutAnchor(s: State, opts: Options, x: real, y: real, w: real, h: real, align: HAlign,
                               valign: VAlign, overflow: Overflow, clip: bool, rotation: real, ow: real, oh: real,
                               rotatePoint: PointRotation)
    ensures var p := Place(s, opts, x, y, w, h, align, valign, overflow, clip, rotation, ow, oh, rotatePoint);
      && (rotation != 0.0 ==> |p.terms| > 0 && p.terms[|p.terms| - 1] == Rotate(rotation, -p.dx, -p.dy))
      && (p.terms == [] <==> s.scale == 1.0 && !TurnsWithShape(s, opts) && rotation == 0.0)
  {
  }

  const Extensibility: string := "http://www.w3.org/TR/SVG11/feature#Extensibility"

  /** The label's XHTML content with its text direction. */
  function LabelDiv(div: Element, dir: Option<string>): (r: Element)
    ensures SameExcept(div, r, {"dir"})
    ensures Attr(r, "dir") == if dir.Some? then Some(Str(dir.value)) else Attr(div, "dir")
  {
    if dir.Some? then SetAttr(div, "dir", Str(dir.value)) else div
  }

  /** The `foreignObject` holding the label: visible overflow, all pointer events, and the
      rounded size of the box, at least 1. */
  function ForeignObject(p: Placement, div: Element, dir: Option<string>): (fo: Element)
    ensures fo.name == "foreignObject" && fo.children == [Elem(LabelDiv(div, dir))]
    ensures Attr(fo, "style") == Some(Str("overflow:visible;")) && Attr(fo, "pointer-events") == Some(Str("all"))
    ensures Attr(fo, "width") == Some(Num(Round(Max(1.0, p.w)) as real))
    ensures Attr(fo, "height") == Some(Num(Round(Max(1.0, p.h)) as real))
  {
    Element("foreignObject", map["style" := Str("overflow:visible;"), "pointer-events" := Str("all"),
                                 "width" := Num(Round(Max(1.0, p.w)) as real),
                                 "height" := Num(Round(Max(1.0, p.h)) as real)], [Elem(LabelDiv(div, dir))])
  }

  /** The translation of the label group: the rounded corner plus the foreign-object
      offset, followed by the placement's terms. */
  function GroupTransform(opts: Options, p: Placement): seq<TransformTerm> {
    [Translate(Round(p.x) as real + opts.foOffset, Round(p.y) as real + opts.foOffset)] + p.terms
  }

  /** Whether `text` wraps the foreign object in a `switch` with alternate text: only when
      writing an export document and alternate text is configured. */
  predicate HasFallback(opts: Options) {
    !opts.liveDocument && opts.foAltText.Some?
  }

  /** The group `text` appends for an HTML label. */
  function HtmlLabel(s: State, opts: Options, p: Placement, div: Element, dir: Option<string>): (g: Element)
    ensures g.name == "g" && |g.children| == 1 && g.children[0].Elem?
    ensures Attr(g, "transform") == Some(Transform(GroupTransform(opts, p)))
    ensures Attr(g, "opacity") == if s.alpha < 1.0 then Some(Num(s.alpha)) else None
  {
    var fo := ForeignObject(p, div, dir);
    var alt := AlternateContent(s, opts.foAltText, p.w, p.h);
    var content := if HasFallback(opts) then Fallback(fo, alt.value) else fo;
    LabelGroup(Transform(GroupTransform(opts, p)), if s.alpha < 1.0 then Some(Num(s.alpha)) else None, content)
  }

  /** The `switch` of an export label: the foreign object, marked as needing the
      extensibility feature, or else the alternate text. */
  function Fallback(fo: Element, alt: Element): (sw: Element)
    ensures sw.name == "switch" && |sw.children| == 2
  {
    Element("switch", map[], [Elem(SetAttr(fo, "requiredFeatures", Str(Extensibility))), Elem(alt)])
  }

  /** A label group: the opacity when given, the transform, and the one child. */
  function LabelGroup(transform: Value, opacity: Option<Value>, content: Element): (g: Element)
    ensures g.name == "g" && g.children == [Elem(content)]
    ensures Attr(g, "transform") == Some(transform) && Attr(g, "opacity") == opacity
  {
    var attrs := map["transform" := transform];
    Element("g", if opacity.Some? then attrs["opacity" := opacity.value] else attrs, [Elem(content)])
  }

  /** The label's content sits in a foreign object at least one unit in each direction.
      Without a fallback it is the group's only child; with one, the group holds a `switch`
      whose first choice is the foreign object, marked as needing the extensibility
      feature, and whose second is the alternate text, sized to the label box. */
  lemma LabelStructure(s: State, opts: Options, p: Placement, div: Element, dir: Option<string>)
    ensures var g := HtmlLabel(s, opts, p, div, dir);
      var fo := ForeignObject(p, div, dir);
      && (!HasFallback(opts) ==> g.children == [Elem(fo)])
      && (HasFallback(opts) ==>
            && g.children[0].e.name == "switch"
            && g.children[0].e.children ==
               [Elem(SetAttr(fo, "requiredFeatures", Str(Extensibility))),
                Elem(AlternateContent(s, opts.foAltText, p.w, p.h).value)])
      && Attr(fo, "width").value.r >= 1.0 && Attr(fo, "height").value.r >= 1.0
  {
    var fo := ForeignObject(p, div, dir);
    assert Round(Max(1.0, p.w)) >= 1 && Round(Max(1.0, p.h)) >= 1;
  }
}
