/** Finishing a pending shape (`addNode`): fill and stroke attributes (SVG 1.1, section 11.4,
    whose defaults are left out), the dash array, the shadow copy, the stroke-tolerance
    copy, pointer events, and the pruning of shapes that can neither be seen nor hit. */
module Paint {
  import opened Strings
  import opened Numbers
  import opened Svg
  import opened PaintState

  /** `getCurrentStrokeWidth`: the scaled stroke width, formatted, and at least 1. */
  function CurrentStrokeWidth(s: State): (w: real)
    ensures w >= 1.0 && IsHundredths(w)
    ensures Abs(w - Max(1.0, s.strokeWidth * s.scale)) <= 0.005
    ensures s.strokeWidth * s.scale <= 1.0 ==> w == 1.0
  {
    var v := s.strokeWidth * s.scale;
    var f := Format(v);
    assert IsHundredths(1.0);
    FormatKeepsHundredths(1.0);
    if v >= 1.0 then FormatMonotone(1.0, v); Max(1.0, f)
    else FormatMonotone(v, 1.0); Max(1.0, f)
  }

  /** The dash array of a pattern: every entry times `unit`; no pattern gives none. */
  function DashArray(pattern: Option<seq<real>>, unit: real): (r: seq<real>)
  {
    if pattern.None? then [] else seq(|pattern.value|, i requires 0 <= i < |pattern.value| => pattern.value[i] * unit)
  }

  /** `createDashPattern(scale)`: fills the array entry by entry from the pattern. */
  method CreateDashPattern(pattern: Option<seq<real>>, unit: real) returns (pat: seq<real>)
    ensures pattern.None? ==> pat == []
    ensures pattern.Some? ==> |pat| == |pattern.value|
    ensures forall i :: 0 <= i < |pat| ==> pat[i] == pattern.value[i] * unit
    ensures pat == DashArray(pattern, unit)
  {
    pat := [];
    if pattern.Some? {
      var dash := pattern.value;
      for i := 0 to |dash|
        invariant |pat| == i
        invariant forall j :: 0 <= j < i ==> pat[j] == dash[j] * unit
      {
        pat := pat + [dash[i] * unit];
      }
      assert |pat| == |DashArray(pattern, unit)|;
      assert forall j :: 0 <= j < |pat| ==> DashArray(pattern, unit)[j] == dash[j] * unit;
    }
  }

  /** The unit the dash pattern is scaled by: the stroke width unless dashes are fixed, times
      the scale. */
  function DashUnit(s: State): real {
    (if s.fixDash then 1.0 else s.strokeWidth) * s.scale
  }

  /** The opacity of the fill: the global alpha times the fill alpha. */
  function FillOpacity(s: State): real { s.alpha * s.fillAlpha }

  /** The opacity of the stroke: the global alpha times the stroke alpha. */
  function StrokeOpacity(s: State): real { s.alpha * s.strokeAlpha }

  /** The fill `updateFill` writes: a reference to the gradient, or the fill colour in
      lower case. */
  function FillValue(s: State, opts: Options, gradient: Option<Id>): (v: Value)
    requires s.fillColor.Some?
    ensures gradient.Some? ==> v == Url(UrlBase(opts), gradient.value)
    ensures gradient.None? ==> v == Str(Lower(s.fillColor.value))
  {
    if gradient.Some? then Url(UrlBase(opts), gradient.value) else Str(Lower(s.fillColor.value))
  }

  /** `updateFill`, given the id `getSvgGradient` returned when there is a gradient colour:
      the fill opacity when it is below 1, and the fill colour in lower case or a reference
      to the gradient. */
  function FillAttributes(n: Element, s: State, opts: Options, gradient: Option<Id>): (r: Element)
    requires s.fillColor.Some?
    ensures SameExcept(n, r, {"fill", "fill-opacity"})
    ensures (s.alpha < 1.0 || s.fillAlpha < 1.0) ==> Attr(r, "fill-opacity") == Some(Num(FillOpacity(s)))
    ensures !(s.alpha < 1.0 || s.fillAlpha < 1.0) ==> Attr(r, "fill-opacity") == Attr(n, "fill-opacity")
    ensures Attr(r, "fill") == Some(FillValue(s, opts, gradient))
  {
    var n1 := SetAttrIf(n, s.alpha < 1.0 || s.fillAlpha < 1.0, "fill-opacity", Num(FillOpacity(s)));
    var r := SetAttr(n1, "fill", FillValue(s, opts, gradient));
    SetAttrIfOnly(n, s.alpha < 1.0 || s.fillAlpha < 1.0, "fill-opacity", Num(FillOpacity(s)));
    SetAttrOnly(n1, "fill", FillValue(s, opts, gradient));
    SameExceptTrans(n, n1, r, {"fill-opacity"}, {"fill"});
    SameExceptKeeps(n1, r, {"fill"}, "fill-opacity");
    r
  }

  /** `flat` is called `butt` in SVG. */
  function LineCapValue(cap: string): (v: string)
    ensures v == "butt" <==> cap in {"flat", "butt"}
    ensures cap != "flat" ==> v == cap
  {
    if cap == "flat" then "butt" else cap
  }

  const JoinCapKeys: set<string> := {"stroke-linejoin", "stroke-linecap", "stroke-miterlimit"}

  /** `updateStrokeAttributes`: join, cap and miter limit, each left out when it is the
      default (`miter`, `butt`, and a limit of 10 when the style section sets it). */
  function JoinCapAndLimit(n: Element, s: State, styleEnabled: bool): (r: Element)
    ensures SameExcept(n, r, JoinCapKeys)
    ensures s.lineJoin.Some? && s.lineJoin.value != "miter" ==> Attr(r, "stroke-linejoin") == Some(Str(s.lineJoin.value))
    ensures !(s.lineJoin.Some? && s.lineJoin.value != "miter") ==> Attr(r, "stroke-linejoin") == Attr(n, "stroke-linejoin")
    ensures s.lineCap.Some? && LineCapValue(s.lineCap.value) != "butt" ==> Attr(r, "stroke-linecap") == Some(Str(s.lineCap.value))
    ensures !(s.lineCap.Some? && LineCapValue(s.lineCap.value) != "butt") ==> Attr(r, "stroke-linecap") == Attr(n, "stroke-linecap")
    ensures s.miterLimit.Some? && (!styleEnabled || s.miterLimit.value != 10.0) ==> Attr(r, "stroke-miterlimit") == Some(Num(s.miterLimit.value))
    ensures !(s.miterLimit.Some? && (!styleEnabled || s.miterLimit.value != 10.0)) ==> Attr(r, "stroke-miterlimit") == Attr(n, "stroke-miterlimit")
  {
    var join := s.lineJoin.Some? && s.lineJoin.value != "miter";
    var cap := s.lineCap.Some? && LineCapValue(s.lineCap.value) != "butt";
    var limit := s.miterLimit.Some? && (!styleEnabled || s.miterLimit.value != 10.0);
    var n1 := SetAttrIf(n, join, "stroke-linejoin", Str(if join then s.lineJoin.value else ""));
    var n2 := SetAttrIf(n1, cap, "stroke-linecap", Str(if cap then LineCapValue(s.lineCap.value) else ""));
    var r := SetAttrIf(n2, limit, "stroke-miterlimit", Num(if limit then s.miterLimit.value else 0.0));
    SetAttrIfOnly(n, join, "stroke-linejoin", Str(if join then s.lineJoin.value else ""));
    SetAttrIfOnly(n1, cap, "stroke-linecap", Str(if cap then LineCapValue(s.lineCap.value) else ""));
    SetAttrIfOnly(n2, limit, "stroke-miterlimit", Num(if limit then s.miterLimit.value else 0.0));
    SameExceptTrans(n, n1, n2, {"stroke-linejoin"}, {"stroke-linecap"});
    SameExceptTrans(n, n2, r, {"stroke-linejoin", "stroke-linecap"}, {"stroke-miterlimit"});
    SameExceptKeeps(n1, n2, {"stroke-linecap"}, "stroke-linejoin");
    SameExceptKeeps(n2, r, {"stroke-miterlimit"}, "stroke-linejoin");
    SameExceptKeeps(n2, r, {"stroke-miterlimit"}, "stroke-linecap");
    SameExceptKeeps(n, n1, {"stroke-linejoin"}, "stroke-linecap");
    SameExceptKeeps(n, n1, {"stroke-linejoin"}, "stroke-miterlimit");
    SameExceptKeeps(n1, n2, {"stroke-linecap"}, "stroke-miterlimit");
    assert {"stroke-linejoin", "stroke-linecap"} + {"stroke-miterlimit"} == JoinCapKeys;
    r
  }

  const StrokeKeys: set<string> := {"stroke", "stroke-opacity", "stroke-width", "stroke-dasharray"} + JoinCapKeys

  /** The first three steps of `updateStroke`: colour, opacity below 1, and the width
      unless it is 1. */
  function StrokePaint(n: Element, s: State): (r: Element)
    requires s.strokeColor.Some?
    ensures SameExcept(n, r, {"stroke", "stroke-opacity", "stroke-width"})
    ensures Attr(r, "stroke") == Some(Str(Lower(s.strokeColor.value)))
    ensures (s.alpha < 1.0 || s.strokeAlpha < 1.0) ==> Attr(r, "stroke-opacity") == Some(Num(StrokeOpacity(s)))
    ensures !(s.alpha < 1.0 || s.strokeAlpha < 1.0) ==> Attr(r, "stroke-opacity") == Attr(n, "stroke-opacity")
    ensures CurrentStrokeWidth(s) != 1.0 ==> Attr(r, "stroke-width") == Some(Num(CurrentStrokeWidth(s)))
    ensures CurrentStrokeWidth(s) == 1.0 ==> Attr(r, "stroke-width") == Attr(n, "stroke-width")
  {
    var sw := CurrentStrokeWidth(s);
    var n1 := SetAttr(n, "stroke", Str(Lower(s.strokeColor.value)));
    var n2 := SetAttrIf(n1, s.alpha < 1.0 || s.strokeAlpha < 1.0, "stroke-opacity", Num(StrokeOpacity(s)));
    var r := SetAttrIf(n2, sw != 1.0, "stroke-width", Num(sw));
    SetAttrOnly(n, "stroke", Str(Lower(s.strokeColor.value)));
    SetAttrIfOnly(n1, s.alpha < 1.0 || s.strokeAlpha < 1.0, "stroke-opacity", Num(StrokeOpacity(s)));
    SetAttrIfOnly(n2, sw != 1.0, "stroke-width", Num(sw));
    SameExceptTrans(n, n1, n2, {"stroke"}, {"stroke-opacity"});
    SameExceptTrans(n, n2, r, {"stroke", "stroke-opacity"}, {"stroke-width"});
    SameExceptKeeps(n1, n2, {"stroke-opacity"}, "stroke");
    SameExceptKeeps(n2, r, {"stroke-width"}, "stroke");
    SameExceptKeeps(n2, r, {"stroke-width"}, "stroke-opacity");
    SameExceptKeeps(n, n1, {"stroke"}, "stroke-opacity");
    SameExceptKeeps(n, n1, {"stroke"}, "stroke-width");
    SameExceptKeeps(n1, n2, {"stroke-opacity"}, "stroke-width");
    assert {"stroke", "stroke-opacity"} + {"stroke-width"} == {"stroke", "stroke-opacity", "stroke-width"};
    r
  }

  /** `updateStroke`: colour, opacity, width, the join/cap/limit attributes on paths only,
      and the dash array when dashed. */
  function StrokeAttributes(n: Element, s: State, styleEnabled: bool): (r: Element)
    requires s.strokeColor.Some?
    ensures SameExcept(n, r, StrokeKeys)
    ensures Attr(r, "stroke") == Some(Str(Lower(s.strokeColor.value)))
    ensures (s.alpha < 1.0 || s.strokeAlpha < 1.0) ==> Attr(r, "stroke-opacity") == Some(Num(StrokeOpacity(s)))
    ensures CurrentStrokeWidth(s) != 1.0 ==> Attr(r, "stroke-width") == Some(Num(CurrentStrokeWidth(s)))
    ensures CurrentStrokeWidth(s) == 1.0 ==> Attr(r, "stroke-width") == Attr(n, "stroke-width")
    ensures n.name != "path" ==> forall k :: k in JoinCapKeys ==> Attr(r, k) == Attr(n, k)
    ensures n.name == "path" ==> forall k :: k in JoinCapKeys ==> Attr(r, k) == Attr(JoinCapAndLimit(n, s, styleEnabled), k)
    ensures s.dashed ==> Attr(r, "stroke-dasharray") == Some(Numbers(DashArray(s.dashPattern, DashUnit(s))))
    ensures !s.dashed ==> Attr(r, "stroke-dasharray") == Attr(n, "stroke-dasharray")
  {
    var n1 := StrokePaint(n, s);
    var n2 := if n1.name == "path" then JoinCapAndLimit(n1, s, styleEnabled) else n1;
    var r := SetAttrIf(n2, s.dashed, "stroke-dasharray", Numbers(DashArray(s.dashPattern, DashUnit(s))));
    SetAttrIfOnly(n2, s.dashed, "stroke-dasharray", Numbers(DashArray(s.dashPattern, DashUnit(s))));
    assert SameExcept(n1, n2, JoinCapKeys);
    SameExceptTrans(n, n1, n2, {"stroke", "stroke-opacity", "stroke-width"}, JoinCapKeys);
    SameExceptTrans(n, n2, r, {"stroke", "stroke-opacity", "stroke-width"} + JoinCapKeys, {"stroke-dasharray"});
    assert {"stroke", "stroke-opacity", "stroke-width"} + JoinCapKeys + {"stroke-dasharray"} == StrokeKeys;
    SameExceptKeeps(n2, r, {"stroke-dasharray"}, "stroke");
    SameExceptKeeps(n2, r, {"stroke-dasharray"}, "stroke-opacity");
    SameExceptKeeps(n2, r, {"stroke-dasharray"}, "stroke-width");
    SameExceptKeeps(n1, n2, JoinCapKeys, "stroke");
    SameExceptKeeps(n1, n2, JoinCapKeys, "stroke-opacity");
    SameExceptKeeps(n1, n2, JoinCapKeys, "stroke-width");
    SameExceptKeeps(n1, n2, JoinCapKeys, "stroke-dasharray");
    SameExceptKeeps(n, n1, {"stroke", "stroke-opacity", "stroke-width"}, "stroke-dasharray");
    JoinCapKept(n, n1, n2, r, s, styleEnabled);
    assert Attr(r, "stroke-opacity") == Attr(n1, "stroke-opacity");
    r
  }

  /** Helper for `StrokeAttributes`: the join/cap/limit attributes pass through the steps
      that do not write them. */
  lemma JoinCapKept(n: Element, n1: Element, n2: Element, r: Element, s: State, styleEnabled: bool)
    requires SameExcept(n, n1, {"stroke", "stroke-opacity", "stroke-width"})
    requires n2 == if n1.name == "path" then JoinCapAndLimit(n1, s, styleEnabled) else n1
    requires SameExcept(n2, r, {"stroke-dasharray"})
    ensures n.name != "path" ==> forall k :: k in JoinCapKeys ==> Attr(r, k) == Attr(n, k)
    ensures n.name == "path" ==> forall k :: k in JoinCapKeys ==> Attr(r, k) == Attr(JoinCapAndLimit(n, s, styleEnabled), k)
  {
    forall k | k in JoinCapKeys
      ensures n.name != "path" ==> Attr(r, k) == Attr(n, k)
      ensures n.name == "path" ==> Attr(r, k) == Attr(JoinCapAndLimit(n, s, styleEnabled), k)
    {
      SameExceptKeeps(n2, r, {"stroke-dasharray"}, k);
      SameExceptKeeps(n, n1, {"stroke", "stroke-opacity", "stroke-width"}, k);
      if n.name == "path" {
        JoinCapAndLimitLocal(n, n1, s, styleEnabled, k);
      }
    }
  }

  /** `JoinCapAndLimit` sets each of its attributes from the state alone or keeps it. */
  lemma JoinCapAndLimitLocal(n: Element, n1: Element, s: State, styleEnabled: bool, k: string)
    requires k in JoinCapKeys && Attr(n1, k) == Attr(n, k)
    ensures Attr(JoinCapAndLimit(n1, s, styleEnabled), k) == Attr(JoinCapAndLimit(n, s, styleEnabled), k)
  {
  }

  /** Whether a fill or stroke attribute is recoloured by the shadow: it is not `none`
      (nor, in Firefox, a `transparent` fill). */
  predicate Recolours(n: Element, key: string, firefox: bool) {
    Attr(n, key) != Some(Str("none")) && (key != "fill" || !firefox || Attr(n, key) != Some(Str("transparent")))
  }

  /** The transform of a shadow: the scaled, formatted shadow offset ahead of the state
      transform. */
  function ShadowTransform(s: State): Value {
    Transform([Translate(Format(s.shadowDx * s.scale), Format(s.shadowDy * s.scale))] + s.transform)
  }

  /** `createShadow`: a copy recoloured with the shadow colour, moved by the scaled shadow
      offset ahead of the state transform, with the shadow alpha as its opacity. */
  function CreateShadow(n: Element, s: State, firefox: bool): (r: Element)
    ensures SameExcept(n, r, {"fill", "stroke", "transform", "opacity"})
    ensures Recolours(n, "fill", firefox) ==> Attr(r, "fill") == Some(Str(s.shadowColor))
    ensures !Recolours(n, "fill", firefox) ==> Attr(r, "fill") == Attr(n, "fill")
    ensures Recolours(n, "stroke", firefox) ==> Attr(r, "stroke") == Some(Str(s.shadowColor))
    ensures !Recolours(n, "stroke", firefox) ==> Attr(r, "stroke") == Attr(n, "stroke")
    ensures Attr(r, "transform") == Some(ShadowTransform(s))
    ensures Attr(r, "opacity") == Some(Num(s.shadowAlpha))
  {
    var n1 := SetAttrIf(n, Recolours(n, "fill", firefox), "fill", Str(s.shadowColor));
    var n2 := SetAttrIf(n1, Recolours(n, "stroke", firefox), "stroke", Str(s.shadowColor));
    var n3 := SetAttr(n2, "transform", ShadowTransform(s));
    var r := SetAttr(n3, "opacity", Num(s.shadowAlpha));
    SetAttrIfOnly(n, Recolours(n, "fill", firefox), "fill", Str(s.shadowColor));
    SetAttrIfOnly(n1, Recolours(n, "stroke", firefox), "stroke", Str(s.shadowColor));
    SetAttrOnly(n2, "transform", ShadowTransform(s));
    SetAttrOnly(n3, "opacity", Num(s.shadowAlpha));
    SameExceptKeeps(n, n1, {"fill"}, "stroke");
    SameExceptKeeps(n1, n2, {"stroke"}, "fill");
    SameExceptKeeps(n2, n3, {"transform"}, "fill");
    SameExceptKeeps(n2, n3, {"transform"}, "stroke");
    SameExceptKeeps(n3, r, {"opacity"}, "fill");
    SameExceptKeeps(n3, r, {"opacity"}, "stroke");
    SameExceptKeeps(n3, r, {"opacity"}, "transform");
    SameExceptTrans(n, n1, n2, {"fill"}, {"stroke"});
    SameExceptTrans(n, n2, n3, {"fill", "stroke"}, {"transform"});
    SameExceptTrans(n, n3, r, {"fill", "stroke", "transform"}, {"opacity"});
    assert {"fill", "stroke"} + {"transform"} + {"opacity"} == {"fill", "stroke", "transform", "opacity"};
    r
  }

  /** `parseFloat(getAttribute('stroke-width') || 1)`. */
  function StrokeWidthOf(n: Element): real {
    if "stroke-width" in n.attrs && n.attrs["stroke-width"].Num? then n.attrs["stroke-width"].r else 1.0
  }

  const ToleranceKeys: set<string> := {"pointer-events", "visibility", "stroke-dasharray", "stroke-width", "fill", "stroke"}

  /** `createTolerance`: an invisible copy whose stroke is `tolerance` wider, which only its
      stroke makes hit-testable. */
  function CreateTolerance(n: Element, tolerance: real, opera: bool): (r: Element)
    ensures SameExcept(n, r, ToleranceKeys)
    ensures Attr(r, "stroke-width") == Some(Num(StrokeWidthOf(n) + tolerance))
    ensures Attr(r, "pointer-events") == Some(Str("stroke")) && Attr(r, "visibility") == Some(Str("hidden"))
    ensures Attr(r, "stroke-dasharray") == None
    ensures Attr(r, "fill") == Some(Str("none")) && Attr(r, "stroke") == Some(Str(if opera then "none" else "white"))
  {
    var t := n.(attrs := n.attrs - ToleranceKeys);
    var t := SetAttr(t, "pointer-events", Str("stroke"));
    var t := SetAttr(t, "visibility", Str("hidden"));
    var t := SetAttr(t, "stroke-width", Num(StrokeWidthOf(n) + tolerance));
    var t := SetAttr(t, "fill", Str("none"));
    SetAttr(t, "stroke", Str(if opera then "none" else "white"))
  }

  /** Whether a path's last token closes it. */
  predicate Closed(path: seq<PathItem>, closeOp: PathItem) {
    |path| > 0 && path[|path| - 1] == closeOp
  }

  /** Whether `addNode` gives the node the active pointer-events value: pointer events are
      on and the node is not an open path. */
  predicate Hittable(n: Element, path: seq<PathItem>, opts: Options) {
    opts.pointerEvents && (n.name != "path" || Closed(path, opts.closeOp))
  }

  /** The pointer-events rule of `addNode`: the active value for hittable nodes; `none`
      when pointer events are off, except inside a link. */
  function WithPointerEvents(n: Element, path: seq<PathItem>, opts: Options, linkOpened: bool): (r: Element)
    ensures SameExcept(n, r, {"pointer-events"})
    ensures Hittable(n, path, opts) ==> Attr(r, "pointer-events") == Some(Str(opts.pointerEventsValue))
    ensures !opts.pointerEvents && !linkOpened ==> Attr(r, "pointer-events") == Some(Str("none"))
    ensures !Hittable(n, path, opts) && (opts.pointerEvents || linkOpened) ==> r == n
  {
    if Hittable(n, path, opts) then SetAttr(n, "pointer-events", Str(opts.pointerEventsValue))
    else if !opts.pointerEvents && !linkOpened then SetAttr(n, "pointer-events", Str("none"))
    else n
  }

  /** The pointer-events rule as the source writes it. Its `none` branch tests
      `originalRoot === null`, but the field is `undefined` until the first `setLink` and a
      node after it, so the strict test never holds: every node is treated as if it were
      inside a link. */
  function WithPointerEventsAsWritten(n: Element, path: seq<PathItem>, opts: Options): (r: Element)
    ensures r == WithPointerEvents(n, path, opts, true)
    ensures !Hittable(n, path, opts) ==> r == n
  {
    if Hittable(n, path, opts) then SetAttr(n, "pointer-events", Str(opts.pointerEventsValue)) else n
  }

  /** The shapes `addNode` may prune. */
  predicate Prunable(n: Element) {
    n.name in {"rect", "path", "ellipse"}
  }

  /** Whether a finished node is appended: it is not a prunable shape, or it is filled, or
      stroked, or receives pointer events. */
  predicate Shown(n: Element) {
    || !Prunable(n)
    || (Attr(n, "fill") != Some(Str("none")) && Attr(n, "fill") != Some(Str("transparent")))
    || Attr(n, "stroke") != Some(Str("none"))
    || Attr(n, "pointer-events") != Some(Str("none"))
  }

  /** A pending node after fill, stroke and transform, with whether it counts as filled
      (the stroke tolerance is added for unfilled shapes only). */
  datatype Decorated = Decorated(node: Element, filled: bool)

  /** The no-fill value `addNode` writes without the style section: Firefox needs
      `transparent` on ellipses. */
  function NoFill(n: Element, firefox: bool): Value {
    Str(if n.name == "ellipse" && firefox then "transparent" else "none")
  }

  /** The fill step of `addNode`. */
  function FillStep(n: Element, s: State, opts: Options, filled: bool, gradient: Option<Id>): (d: Decorated)
    ensures SameExcept(n, d.node, {"fill", "fill-opacity"})
    ensures filled && s.fillColor.Some? ==> d.filled && Attr(d.node, "fill") == Some(FillValue(s, opts, gradient))
    ensures !(filled && s.fillColor.Some?) && !opts.styleEnabled ==> !d.filled && Attr(d.node, "fill") == Some(NoFill(n, opts.firefox))
    ensures !(filled && s.fillColor.Some?) && opts.styleEnabled ==> d == Decorated(n, filled)
  {
    if filled && s.fillColor.Some? then Decorated(FillAttributes(n, s, opts, gradient), true)
    else if !opts.styleEnabled then
      var r := SetAttr(n, "fill", NoFill(n, opts.firefox));
      SameExceptWiden(n, r, {"fill"}, {"fill", "fill-opacity"});
      Decorated(r, false)
    else Decorated(n, filled)
  }

  /** The stroke step of `addNode`. */
  function StrokeStep(n: Element, s: State, opts: Options, stroked: bool): (r: Element)
    ensures SameExcept(n, r, StrokeKeys)
    ensures stroked && s.strokeColor.Some? ==> r == StrokeAttributes(n, s, opts.styleEnabled)
    ensures stroked && s.strokeColor.Some? ==> Attr(r, "stroke") == Some(Str(Lower(s.strokeColor.value)))
    ensures !(stroked && s.strokeColor.Some?) && !opts.styleEnabled ==> Attr(r, "stroke") == Some(Str("none"))
    ensures !(stroked && s.strokeColor.Some?) && opts.styleEnabled ==> r == n
  {
    if stroked && s.strokeColor.Some? then StrokeAttributes(n, s, opts.styleEnabled)
    else if !opts.styleEnabled then
      var r := SetAttr(n, "stroke", Str("none"));
      SameExceptWiden(n, r, {"stroke"}, StrokeKeys);
      r
    else n
  }

  /** Steps 1 to 4 of `addNode` on a node that survives the empty-path check: the path data,
      the fill (or an explicit no-fill), the stroke (or `none`), and the state transform.
      `DecorateFill`, `DecorateStroke` and `DecoratePathAndTransform` state what each step
      leaves on the node. */
  function Decorate(n: Element, path: seq<PathItem>, s: State, opts: Options, filled: bool, stroked: bool,
                    gradient: Option<Id>): (d: Decorated)
    ensures d.node.name == n.name && d.node.children == n.children
  {
    var n1 := SetAttrIf(n, n.name == "path", "d", PathData(path));
    var f := FillStep(n1, s, opts, filled, gradient);
    var n3 := StrokeStep(f.node, s, opts, stroked);
    Decorated(SetAttrIf(n3, |s.transform| > 0, "transform", Transform(s.transform)), f.filled)
  }

  /** After `addNode`'s steps the fill is the state's (a gradient reference or the colour)
      when filling, the explicit no-fill without the style section, and otherwise the
      node's own; only a filled shape counts as filled. */
  lemma DecorateFill(n: Element, path: seq<PathItem>, s: State, opts: Options, filled: bool, stroked: bool,
                     gradient: Option<Id>)
    ensures var d := Decorate(n, path, s, opts, filled, stroked, gradient);
      && (filled && s.fillColor.Some? ==> d.filled && Attr(d.node, "fill") == Some(FillValue(s, opts, gradient)))
      && (!(filled && s.fillColor.Some?) && !opts.styleEnabled ==> !d.filled && Attr(d.node, "fill") == Some(NoFill(n, opts.firefox)))
      && (!(filled && s.fillColor.Some?) && opts.styleEnabled ==> d.filled == filled && Attr(d.node, "fill") == Attr(n, "fill"))
  {
    var n1 := SetAttrIf(n, n.name == "path", "d", PathData(path));
    var f := FillStep(n1, s, opts, filled, gradient);
    var n3 := StrokeStep(f.node, s, opts, stroked);
    var n4 := SetAttrIf(n3, |s.transform| > 0, "transform", Transform(s.transform));
    SetAttrIfOnly(n, n.name == "path", "d", PathData(path));
    SetAttrIfOnly(n3, |s.transform| > 0, "transform", Transform(s.transform));
    SameExceptKeeps(n, n1, {"d"}, "fill");
    SameExceptKeeps(f.node, n3, StrokeKeys, "fill");
    SameExceptKeeps(n3, n4, {"transform"}, "fill");
  }

  /** After `addNode`'s steps the stroke is the state's colour in lower case when stroking,
      `none` without the style section, and otherwise the node's own. */
  lemma DecorateStroke(n: Element, path: seq<PathItem>, s: State, opts: Options, filled: bool, stroked: bool,
                       gradient: Option<Id>)
    ensures var d := Decorate(n, path, s, opts, filled, stroked, gradient);
      && (stroked && s.strokeColor.Some? ==> Attr(d.node, "stroke") == Some(Str(Lower(s.strokeColor.value))))
      && (!(stroked && s.strokeColor.Some?) && !opts.styleEnabled ==> Attr(d.node, "stroke") == Some(Str("none")))
      && (!(stroked && s.strokeColor.Some?) && opts.styleEnabled ==> Attr(d.node, "stroke") == Attr(n, "stroke"))
  {
    var n1 := SetAttrIf(n, n.name == "path", "d", PathData(path));
    var f := FillStep(n1, s, opts, filled, gradient);
    var n3 := StrokeStep(f.node, s, opts, stroked);
    var n4 := SetAttrIf(n3, |s.transform| > 0, "transform", Transform(s.transform));
    SetAttrIfOnly(n, n.name == "path", "d", PathData(path));
    SetAttrIfOnly(n3, |s.transform| > 0, "transform", Transform(s.transform));
    SameExceptKeeps(n, n1, {"d"}, "stroke");
    SameExceptKeeps(n1, f.node, {"fill", "fill-opacity"}, "stroke");
    SameExceptKeeps(n3, n4, {"transform"}, "stroke");
  }

  /** After `addNode`'s steps a path carries its path data, and the node carries the state
      transform when there is one (otherwise its own). */
  lemma DecoratePathAndTransform(n: Element, path: seq<PathItem>, s: State, opts: Options, filled: bool, stroked: bool,
                                 gradient: Option<Id>)
    ensures var d := Decorate(n, path, s, opts, filled, stroked, gradient);
      && (n.name == "path" ==> Attr(d.node, "d") == Some(PathData(path)))
      && (|s.transform| > 0 ==> Attr(d.node, "transform") == Some(Transform(s.transform)))
      && (|s.transform| == 0 ==> Attr(d.node, "transform") == Attr(n, "transform"))
  {
    var n1 := SetAttrIf(n, n.name == "path", "d", PathData(path));
    var f := FillStep(n1, s, opts, filled, gradient);
    var n3 := StrokeStep(f.node, s, opts, stroked);
    var n4 := SetAttrIf(n3, |s.transform| > 0, "transform", Transform(s.transform));
    SetAttrIfOnly(n, n.name == "path", "d", PathData(path));
    SetAttrIfOnly(n3, |s.transform| > 0, "transform", Transform(s.transform));
    SameExceptKeeps(n, n1, {"d"}, "transform");
    SameExceptKeeps(n1, f.node, {"fill", "fill-opacity"}, "d");
    SameExceptKeeps(n1, f.node, {"fill", "fill-opacity"}, "transform");
    SameExceptKeeps(f.node, n3, StrokeKeys, "d");
    SameExceptKeeps(f.node, n3, StrokeKeys, "transform");
    SameExceptKeeps(n3, n4, {"transform"}, "d");
  }

  /** The node as finally appended: the decorated node with its pointer events. */
  function FinalNode(d: Decorated, path: seq<PathItem>, opts: Options, linkOpened: bool): Element {
    WithPointerEvents(d.node, path, opts, linkOpened)
  }

  /** Whether `addNode` adds the stroke-tolerance copy. */
  predicate AddsTolerance(d: Decorated, opts: Options) {
    opts.strokeTolerance > 0.0 && !d.filled
  }

  /** Steps 5 to 9 of `addNode`: what is appended to the root, in order: the shadow copy,
      the tolerance copy, then the node itself unless it is pruned. */
  function Emitted(d: Decorated, path: seq<PathItem>, s: State, opts: Options, linkOpened: bool): (out: seq<Element>)
  {
    ShadowCopies(d, s, opts) + RealNodes(d, path, opts, linkOpened)
  }

  /** The shadow copy `addNode` appends first, when the state draws shadows. */
  function ShadowCopies(d: Decorated, s: State, opts: Options): seq<Element> {
    if s.shadow then [CreateShadow(d.node, s, opts.firefox)] else []
  }

  /** What `addNode` appends after the shadow: the tolerance copy and the node, unless pruned. */
  function RealNodes(d: Decorated, path: seq<PathItem>, opts: Options, linkOpened: bool): seq<Element> {
    (if AddsTolerance(d, opts) then [CreateTolerance(d.node, opts.strokeTolerance, opts.opera)] else [])
    + (if Shown(FinalNode(d, path, opts, linkOpened)) then [FinalNode(d, path, opts, linkOpened)] else [])
  }

  /** The shadow comes first, ahead of the real node, and the real node is the same whether
      or not a shadow is drawn: the shadow only adds a leading sibling. */
  lemma ShadowPrecedesNode(d: Decorated, path: seq<PathItem>, s: State, opts: Options, linkOpened: bool)
    requires s.shadow
    ensures Emitted(d, path, s, opts, linkOpened) ==
      [CreateShadow(d.node, s, opts.firefox)] + Emitted(d, path, s.(shadow := false), opts, linkOpened)
    ensures var out := Emitted(d, path, s, opts, linkOpened);
      |out| >= 1 && out[0] == CreateShadow(d.node, s, opts.firefox)
  {
    var rest := RealNodes(d, path, opts, linkOpened);
    assert ShadowCopies(d, s.(shadow := false), opts) == [];
    assert Emitted(d, path, s.(shadow := false), opts, linkOpened) == [] + rest;
    assert [] + rest == rest;
  }

  /** The real node is appended exactly once, last, when it is shown; otherwise only the
      shadow and tolerance copies are. */
  lemma NodeAppendedLastIffShown(d: Decorated, path: seq<PathItem>, s: State, opts: Options, linkOpened: bool)
    ensures var out := Emitted(d, path, s, opts, linkOpened);
      var before := (if s.shadow then 1 else 0) + (if AddsTolerance(d, opts) then 1 else 0);
      && (Shown(FinalNode(d, path, opts, linkOpened)) <==> |out| == before + 1)
      && (Shown(FinalNode(d, path, opts, linkOpened)) ==> out[|out| - 1] == FinalNode(d, path, opts, linkOpened))
      && (!Shown(FinalNode(d, path, opts, linkOpened)) ==> |out| == before)
  {
  }

  /** A rect, path or ellipse drawn neither filled nor stroked, without the style section,
      with pointer events off and outside a link is not appended. */
  lemma UnpaintedShapeIsPruned(n: Element, path: seq<PathItem>, s: State, opts: Options, filled: bool, stroked: bool,
                               gradient: Option<Id>)
    requires Prunable(n) && !opts.styleEnabled && !opts.pointerEvents
    requires !(filled && s.fillColor.Some?) && !(stroked && s.strokeColor.Some?)
    ensures !Shown(FinalNode(Decorate(n, path, s, opts, filled, stroked, gradient), path, opts, false))
  {
    var d := Decorate(n, path, s, opts, filled, stroked, gradient);
    var f := FinalNode(d, path, opts, false);
    DecorateFill(n, path, s, opts, filled, stroked, gradient);
    DecorateStroke(n, path, s, opts, filled, stroked, gradient);
    SameExceptKeeps(d.node, f, {"pointer-events"}, "fill");
    SameExceptKeeps(d.node, f, {"pointer-events"}, "stroke");
  }

  /** As written, a rect drawn with neither fill nor stroke, without the style section, with
      pointer events off and outside any link, is still appended, since nothing writes
      `pointer-events="none"` on it; under the intended rule it is pruned. */
  lemma StrictNullTestKeepsUnpaintedRect(r: Element, s: State, opts: Options, gradient: Option<Id>)
    requires r.name == "rect" && Attr(r, "pointer-events") == None
    requires !opts.styleEnabled && !opts.pointerEvents
    ensures var d := Decorate(r, [], s, opts, false, false, gradient);
      && Shown(WithPointerEventsAsWritten(d.node, [], opts))
      && !Shown(FinalNode(d, [], opts, false))
  {
    var n1 := SetAttrIf(r, r.name == "path", "d", PathData([]));
    var f := FillStep(n1, s, opts, false, gradient);
    var n3 := StrokeStep(f.node, s, opts, false);
    var n4 := SetAttrIf(n3, |s.transform| > 0, "transform", Transform(s.transform));
    SetAttrIfOnly(r, r.name == "path", "d", PathData([]));
    SetAttrIfOnly(n3, |s.transform| > 0, "transform", Transform(s.transform));
    SameExceptKeeps(r, n1, {"d"}, "pointer-events");
    SameExceptKeeps(n1, f.node, {"fill", "fill-opacity"}, "pointer-events");
    SameExceptKeeps(f.node, n3, StrokeKeys, "pointer-events");
    SameExceptKeeps(n3, n4, {"transform"}, "pointer-events");
    UnpaintedShapeIsPruned(r, [], s, opts, false, false, gradient);
  }
}
