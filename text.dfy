/** Plain SVG text (`plainText`): the font attributes, the text anchor, the clip rectangle,
    one `text` row per non-blank line, and the analytic text background. */
module Text {
  import opened Strings
  import opened Numbers
  import opened Svg
  import opened PaintState

  /** `MxRectangle`: a box in device units. */
  datatype Box = Box(x: real, y: real, width: real, height: real)

  /** The `text-anchor` for an alignment (section 10.9.1 of SVG 1.1): the left edge, the
      middle or the right edge of the text sits at the given x. */
  function TextAnchor(align: HAlign): (a: string)
    ensures a in {"start", "middle", "end"}
    ensures a == "start" <==> align == Left
    ensures a == "middle" <==> align == Center
  {
    match align
    case Right => "end"
    case Center => "middle"
    case Left => "start"
  }

  /** How far a box of width `w` starts left of the given x under an alignment. */
  function AlignOffset(align: HAlign, w: real): real {
    match align
    case Center => -w / 2.0
    case Right => -w
    case Left => 0.0
  }

  /** How far a box of height `h` starts above the given y under a vertical alignment. */
  function VAlignOffset(valign: VAlign, h: real): real {
    match valign
    case Middle => -h / 2.0
    case Bottom => -h
    case Top => 0.0
  }

  /** The fraction of the width left of the anchor point that `text-anchor` names. */
  function AnchorFraction(anchor: string): real {
    if anchor == "end" then 1.0 else if anchor == "middle" then 0.5 else 0.0
  }

  /** The box that clips and backgrounds use agrees with the text anchor: the anchor
      point of a box of width `w` starting at `x + AlignOffset(align, w)` is `x`. */
  lemma AlignOffsetMatchesAnchor(align: HAlign, x: real, w: real)
    ensures x + AlignOffset(align, w) + AnchorFraction(TextAnchor(align)) * w == x
  {
  }

  const FontKeys: set<string> := {"fill", "font-family", "font-weight", "font-style", "text-decoration"}

  /** The fill `updateFont` writes: the font colour; a missing colour is written as the
      text `null`. */
  function FontFill(s: State): string {
    if s.fontColor.Some? then s.fontColor.value else "null"
  }

  /** Whether `updateFont` writes the font family: always without the style section, else
      only when it differs from the default. */
  predicate ShowsFontFamily(s: State, styleEnabled: bool) {
    !styleEnabled || s.fontFamily != DefaultFontFamily
  }

  /** `updateFont` on the new group `plainText` creates (its only caller): the font colour,
      the family when it is shown, and one attribute per style bit that is set. */
  function FontGroup(s: State, styleEnabled: bool): (g: Element)
    ensures g.name == "g" && g.children == [] && g.attrs.Keys <= FontKeys
    ensures Attr(g, "fill") == Some(Str(FontFill(s)))
    ensures Attr(g, "font-family") == if ShowsFontFamily(s, styleEnabled) then Some(Str(s.fontFamily)) else None
    ensures Attr(g, "font-weight") == StyleAttr(s.fontStyle, FontBold, "bold")
    ensures Attr(g, "font-style") == StyleAttr(s.fontStyle, FontItalic, "italic")
    ensures Attr(g, "text-decoration") == StyleAttr(s.fontStyle, FontUnderline, "underline")
  {
    var base := Put(map["fill" := Str(FontFill(s))], ShowsFontFamily(s, styleEnabled), "font-family", Str(s.fontFamily));
    Styled("g", base, s.fontStyle, [])
  }

  /** `createAlternateContent`: when alternate text is configured, a centred `text`
      element in the font colour (black by default) and size, holding that text. */
  function AlternateContent(s: State, altText: Option<string>, w: real, h: real): (alt: Option<Element>)
    ensures altText.None? <==> alt.None?
    ensures alt.Some? ==> alt.value.name == "text" && alt.value.children == [Text(altText.value)]
  {
    if altText.None? then None
    else Some(AltElement(Num(Round(w / 2.0) as real), Num(Round((h + s.fontSize) / 2.0) as real),
                         Str(OrElse(s.fontColor, "black")), Px(s.fontSize), Str(s.fontFamily), s.fontStyle, altText.value))
  }

  /** The alternate text is centred in the label box (rounded), in the font colour (black by
      default), size and family. */
  lemma AltContentAttributes(s: State, altText: string, w: real, h: real)
    ensures var alt := AlternateContent(s, Some(altText), w, h).value;
      && Attr(alt, "x") == Some(Num(Round(w / 2.0) as real))
      && Attr(alt, "y") == Some(Num(Round((h + s.fontSize) / 2.0) as real))
      && Attr(alt, "fill") == Some(Str(OrElse(s.fontColor, "black")))
      && Attr(alt, "text-anchor") == Some(Str("middle"))
      && Attr(alt, "font-size") == Some(Px(s.fontSize))
      && Attr(alt, "font-family") == Some(Str(s.fontFamily))
  {
  }

  /** The alternate `text` element for given attribute values: anchored in the middle, with
      the style bits of `style`, holding `content`. */
  function AltElement(x: Value, y: Value, fill: Value, size: Value, family: Value, style: nat, content: string): (e: Element)
    ensures e.name == "text" && e.children == [Text(content)]
    ensures Attr(e, "x") == Some(x) && Attr(e, "y") == Some(y) && Attr(e, "fill") == Some(fill)
    ensures Attr(e, "text-anchor") == Some(Str("middle"))
    ensures Attr(e, "font-size") == Some(size) && Attr(e, "font-family") == Some(family)
  {
    var base := map["x" := x, "y" := y, "fill" := fill, "text-anchor" := Str("middle"), "font-size" := size, "font-family" := family];
    Styled("text", base, style, [Text(content)])
  }

  /** An element with the attributes `base` plus the style bits of `style`. */
  function Styled(name: string, base: map<string, Value>, style: nat, children: seq<Node>): (e: Element)
    requires "font-weight" !in base && "font-style" !in base && "text-decoration" !in base
    ensures e.name == name && e.children == children
    ensures forall k :: k in base ==> Attr(e, k) == Some(base[k])
    ensures e.attrs.Keys <= base.Keys + {"font-weight", "font-style", "text-decoration"}
    ensures Attr(e, "font-weight") == StyleAttr(style, FontBold, "bold")
    ensures Attr(e, "font-style") == StyleAttr(style, FontItalic, "italic")
    ensures Attr(e, "text-decoration") == StyleAttr(style, FontUnderline, "underline")
  {
    var attrs := Put(base, HasStyle(style, FontBold), "font-weight", Str("bold"));
    var attrs := Put(attrs, HasStyle(style, FontItalic), "font-style", Str("italic"));
    var attrs := Put(attrs, HasStyle(style, FontUnderline), "text-decoration", Str("underline"));
    Element(name, attrs, children)
  }

  /** The attribute a style bit gives an element that had none: `word` when the bit is set. */
  function StyleAttr(style: nat, bit: nat, word: string): Option<Value>
    requires bit == FontBold || bit == FontItalic || bit == FontUnderline
  {
    if HasStyle(style, bit) then Some(Str(word)) else None
  }

  /** The alternate text has exactly the style-bit attributes of `style`. */
  lemma AltElementStyle(x: Value, y: Value, fill: Value, size: Value, family: Value, style: nat, content: string)
    ensures var e := AltElement(x, y, fill, size, family, style, content);
      && Attr(e, "font-weight") == StyleAttr(style, FontBold, "bold")
      && Attr(e, "font-style") == StyleAttr(style, FontItalic, "italic")
      && Attr(e, "text-decoration") == StyleAttr(style, FontUnderline, "underline")
  {
  }

  /** The alternate text carries the same weight, style and decoration as the label's
      own font. */
  lemma AltTextSharesFontStyle(s: State, altText: string, w: real, h: real, styleEnabled: bool)
    ensures var alt := AlternateContent(s, Some(altText), w, h).value;
      var font := FontGroup(s, styleEnabled);
      && Attr(alt, "font-weight") == Attr(font, "font-weight")
      && Attr(alt, "font-style") == Attr(font, "font-style")
      && Attr(alt, "text-decoration") == Attr(font, "text-decoration")
  {
    AltContentStyle(s, altText, w, h);
  }

  /** The style-bit attributes of the alternate text. */
  lemma AltContentStyle(s: State, altText: string, w: real, h: real)
    ensures var alt := AlternateContent(s, Some(altText), w, h).value;
      && Attr(alt, "font-weight") == StyleAttr(s.fontStyle, FontBold, "bold")
      && Attr(alt, "font-style") == StyleAttr(s.fontStyle, FontItalic, "italic")
      && Attr(alt, "text-decoration") == StyleAttr(s.fontStyle, FontUnderline, "underline")
  {
    AltElementStyle(Num(Round(w / 2.0) as real), Num(Round((h + s.fontSize) / 2.0) as real),
                    Str(OrElse(s.fontColor, "black")), Px(s.fontSize), Str(s.fontFamily), s.fontStyle, altText);
  }

  /** The clip box of `plainText` in device units, 2 units wider on every side: the text
      box aligned horizontally, and vertically too unless the text fills its box. */
  function ClipBox(s: State, x: real, y: real, w: real, h: real, align: HAlign, valign: VAlign, overflow: Overflow): Box {
    var cx := x + AlignOffset(align, w);
    var cy := if overflow != OverflowFill then y + VAlignOffset(valign, h) else y;
    Box(cx * s.scale - 2.0, cy * s.scale - 2.0, w * s.scale + 4.0, h * s.scale + 4.0)
  }

  /** The suffixes of `mx-clip-x-y-w-h` already used in the document. */
  ghost function ClipSuffixes(ids: map<Id, bool>, x: int, y: int, w: int, h: int): (t: set<nat>)
    ensures forall n: nat :: n in t <==> ClipId(x, y, w, h, n) in ids
  {
    set id | id in ids && id.ClipId? && id.x == x && id.y == y && id.w == w && id.h == h :: id.suffix
  }

  /** The `clipPath` element with the given id, holding one rect with the id's box. */
  function ClipElement(id: Id): (clip: Element)
    requires id.ClipId?
    ensures clip.name == "clipPath" && clip.attrs == map["id" := Ident(id)] && |clip.children| == 1
    ensures clip.children[0].Elem? && clip.children[0].e.name == "rect" && clip.children[0].e.children == []
    ensures clip.children[0].e.attrs == map["x" := Num(id.x as real), "y" := Num(id.y as real),
                                           "width" := Num(id.w as real), "height" := Num(id.h as real)]
  {
    var rect := Element("rect", map["x" := Num(id.x as real), "y" := Num(id.y as real),
                                    "width" := Num(id.w as real), "height" := Num(id.h as real)], []);
    Element("clipPath", map["id" := Ident(id)], [Elem(rect)])
  }

  /** `createClip(x, y, w, h)`: rounds the box, then tries `mx-clip-x-y-w-h-0`, `-1`, …
      (pre-increment) until the document has no element with that id. */
  method CreateClip(ids: map<Id, bool>, x: real, y: real, w: real, h: real) returns (clip: Element, id: Id)
    ensures id == ClipId(Round(x), Round(y), Round(w), Round(h), LeastAbsent(ClipSuffixes(ids, Round(x), Round(y), Round(w), Round(h))))
    ensures id !in ids
    ensures clip == ClipElement(id)
  {
    var rx, ry, rw, rh := Round(x), Round(y), Round(w), Round(h);
    ghost var used := ClipSuffixes(ids, rx, ry, rw, rh);
    var counter: nat := 0;
    id := ClipId(rx, ry, rw, rh, counter);
    while id in ids
      invariant id == ClipId(rx, ry, rw, rh, counter)
      invariant forall m: nat :: m < counter ==> m in used
      decreases UpperBound(used) - counter
    {
      counter := counter + 1;
      id := ClipId(rx, ry, rw, rh, counter);
    }
    ghost var least := LeastAbsent(used);
    assert !(least < counter);
    assert !(counter < least);
    clip := ClipElement(id);
  }

  /** The device coordinate of a text row: formatted, plus the text offset. */
  function TextCoord(scale: real, offset: real, v: real): real {
    Format(v * scale) + offset
  }

  /** One line of text with its baseline at `cy`. */
  function Row(s: State, opts: Options, x: real, cy: real, line: string): (e: Element)
    ensures e.name == "text" && e.children == [Text(line)]
    ensures e.attrs == map["x" := Num(TextCoord(s.scale, opts.textOffset, x)), "y" := Num(TextCoord(s.scale, opts.textOffset, cy))]
  {
    Element("text", map["x" := Num(TextCoord(s.scale, opts.textOffset, x)), "y" := Num(TextCoord(s.scale, opts.textOffset, cy))], [Text(line)])
  }

  /** The rows for `lines`, the first with its baseline at `cy` and each next one `lh`
      lower. Blank lines get no row but still move the baseline. */
  function Rows(s: State, opts: Options, x: real, cy: real, lh: real, lines: seq<string>): seq<Node>
    decreases |lines|
  {
    if lines == [] then []
    else (if IsBlank(lines[0]) then [] else [Elem(Row(s, opts, x, cy, lines[0]))]) + Rows(s, opts, x, cy + lh, lh, lines[1..])
  }

  /** The line loop of `plainText`. */
  method LayOutLines(s: State, opts: Options, x: real, cy: real, lh: real, lines: seq<string>) returns (rows: seq<Node>)
    ensures rows == Rows(s, opts, x, cy, lh, lines)
  {
    rows := [];
    var y := cy;
    for i := 0 to |lines|
      invariant rows + Rows(s, opts, x, y, lh, lines[i..]) == Rows(s, opts, x, cy, lh, lines)
    {
      RowsUnfold(s, opts, x, y, lh, lines, i);
      if !IsBlank(lines[i]) {
        rows := rows + [Elem(Row(s, opts, x, y, lines[i]))];
      }
      y := y + lh;
    }
    assert lines[|lines|..] == [];
  }

  lemma RowsUnfold(s: State, opts: Options, x: real, y: real, lh: real, lines: seq<string>, i: nat)
    requires i < |lines|
    ensures Rows(s, opts, x, y, lh, lines[i..]) ==
      (if IsBlank(lines[i]) then [] else [Elem(Row(s, opts, x, y, lines[i]))]) + Rows(s, opts, x, y + lh, lh, lines[i + 1..])
  {
    assert lines[i..][1..] == lines[i + 1..];
  }

  /** The lines that get a row. */
  function NonBlank(lines: seq<string>): seq<string> {
    if lines == [] then [] else (if IsBlank(lines[0]) then [] else [lines[0]]) + NonBlank(lines[1..])
  }

  /** The text of a row. */
  function RowText(n: Node): string {
    if n.Elem? && |n.e.children| == 1 && n.e.children[0].Text? then n.e.children[0].content else ""
  }

  function RowTexts(rows: seq<Node>): (t: seq<string>)
    ensures |t| == |rows|
  {
    if rows == [] then [] else [RowText(rows[0])] + RowTexts(rows[1..])
  }

  lemma {:induction false} RowTextsAppend(a: seq<Node>, b: seq<Node>)
    ensures RowTexts(a + b) == RowTexts(a) + RowTexts(b)
    decreases |a|
  {
    if a != [] {
      assert (a + b)[1..] == a[1..] + b;
      assert (a + b)[0] == a[0];
      RowTextsAppend(a[1..], b);
    } else {
      assert a + b == b;
    }
  }

  /** A line of no-break spaces between two words is blank to `trim`, so it gets no row
      while the baseline still moves down past it. */
  lemma NoBreakSpaceLineIsSkipped(s: State, opts: Options, x: real, cy: real, lh: real)
    ensures Rows(s, opts, x, cy, lh, ["a", "\U{A0}\U{A0}", "b"])
         == [Elem(Row(s, opts, x, cy, "a")), Elem(Row(s, opts, x, cy + lh + lh, "b"))]
  {
    assert "a"[0] == 'a' && !IsSpace('a');
    assert "b"[0] == 'b' && !IsSpace('b');
    assert ["a", "\U{A0}\U{A0}", "b"][1..] == ["\U{A0}\U{A0}", "b"];
    assert ["\U{A0}\U{A0}", "b"][1..] == ["b"];
    assert ["b"][1..] == [];
  }

  /** The rows hold exactly the non-blank lines, in order. */
  lemma {:induction false} RowsHoldNonBlankLines(s: State, opts: Options, x: real, cy: real, lh: real, lines: seq<string>)
    ensures RowTexts(Rows(s, opts, x, cy, lh, lines)) == NonBlank(lines)
    decreases |lines|
  {
    if lines != [] {
      var head := if IsBlank(lines[0]) then [] else [Elem(Row(s, opts, x, cy, lines[0]))];
      RowTextsAppend(head, Rows(s, opts, x, cy + lh, lh, lines[1..]));
      RowsHoldNonBlankLines(s, opts, x, cy + lh, lh, lines[1..]);
    }
  }

  /** The y attribute of a row. */
  function RowY(n: Node): (y: real)
    ensures n.Elem? && n.e.name == "text" && "y" in n.e.attrs && n.e.attrs["y"].Num? ==> y == n.e.attrs["y"].r
  {
    if n.Elem? && "y" in n.e.attrs && n.e.attrs["y"].Num? then n.e.attrs["y"].r else 0.0
  }

  lemma RowYOf(s: State, opts: Options, x: real, cy: real, line: string)
    ensures RowY(Elem(Row(s, opts, x, cy, line))) == TextCoord(s.scale, opts.textOffset, cy)
  {
    var e := Row(s, opts, x, cy, line);
    assert "y" in e.attrs && e.attrs["y"] == Num(TextCoord(s.scale, opts.textOffset, cy));
  }

  /** Every row lies at or below the first baseline. */
  lemma {:induction false} RowsBelow(s: State, opts: Options, x: real, cy: real, lh: real, lines: seq<string>)
    requires lh >= 0.0 && s.scale >= 0.0
    ensures forall i :: 0 <= i < |Rows(s, opts, x, cy, lh, lines)| ==> RowY(Rows(s, opts, x, cy, lh, lines)[i]) >= TextCoord(s.scale, opts.textOffset, cy)
    decreases |lines|
  {
    if lines != [] {
      var rest := Rows(s, opts, x, cy + lh, lh, lines[1..]);
      RowsBelow(s, opts, x, cy + lh, lh, lines[1..]);
      StepDown(s.scale, opts.textOffset, cy, lh);
      var rows := Rows(s, opts, x, cy, lh, lines);
      if !IsBlank(lines[0]) {
        assert rows == [Elem(Row(s, opts, x, cy, lines[0]))] + rest;
        RowYOf(s, opts, x, cy, lines[0]);
        forall i | 0 <= i < |rows| ensures RowY(rows[i]) >= TextCoord(s.scale, opts.textOffset, cy) {
          if i > 0 {
            assert rows[i] == rest[i - 1];
            assert RowY(rest[i - 1]) >= TextCoord(s.scale, opts.textOffset, cy + lh);
          } else {
            assert rows[0] == Elem(Row(s, opts, x, cy, lines[0]));
          }
        }
      } else {
        assert rows == rest;
      }
    }
  }

  /** The next baseline formats to no smaller a coordinate. */
  lemma StepDown(scale: real, offset: real, cy: real, lh: real)
    requires lh >= 0.0 && scale >= 0.0
    ensures TextCoord(scale, offset, cy) <= TextCoord(scale, offset, cy + lh)
  {
    MulMonotone(cy, cy + lh, scale);
    FormatMonotone(cy * scale, (cy + lh) * scale);
  }

  /** Each row lies at or below the ones before it. */
  predicate Descending(rows: seq<Node>) {
    forall i, j :: 0 <= i < j < |rows| ==> RowY(rows[i]) <= RowY(rows[j])
  }

  /** The rows keep the order of the lines, top to bottom. */
  lemma {:induction false} RowsDescend(s: State, opts: Options, x: real, cy: real, lh: real, lines: seq<string>)
    requires lh >= 0.0 && s.scale >= 0.0
    ensures Descending(Rows(s, opts, x, cy, lh, lines))
    decreases |lines|
  {
    if lines != [] {
      var rest := Rows(s, opts, x, cy + lh, lh, lines[1..]);
      RowsDescend(s, opts, x, cy + lh, lh, lines[1..]);
      RowsBelow(s, opts, x, cy + lh, lh, lines[1..]);
      StepDown(s.scale, opts.textOffset, cy, lh);
      var rows := Rows(s, opts, x, cy, lh, lines);
      if !IsBlank(lines[0]) {
        assert rows == [Elem(Row(s, opts, x, cy, lines[0]))] + rest;
        RowYOf(s, opts, x, cy, lines[0]);
        forall i, j | 0 <= i < j < |rows| ensures RowY(rows[i]) <= RowY(rows[j]) {
          assert rows[j] == rest[j - 1];
          if i > 0 {
            assert rows[i] == rest[i - 1];
            assert RowY(rest[i - 1]) <= RowY(rest[j - 1]);
          } else {
            assert RowY(rest[j - 1]) >= TextCoord(s.scale, opts.textOffset, cy + lh);
            assert rows[0] == Elem(Row(s, opts, x, cy, lines[0]));
            assert RowY(rows[0]) == TextCoord(s.scale, opts.textOffset, cy);
          }
        }
      } else {
        assert rows == rest;
      }
    }
  }

  /** The distance between baselines: `round(fontSize * LINE_HEIGHT)`. */
  function LineSpacing(s: State): real {
    Round(s.fontSize * LineHeight) as real
  }

  /** The height of `count` lines: one font size plus a line spacing per further line. */
  function TextHeight(s: State, count: nat): real
    requires count >= 1
  {
    s.fontSize + (count - 1) as real * LineSpacing(s)
  }

  /** The first baseline of `plainText`: one unit above the font size below `y`, moved up
      by the box or text height (or half of it) for bottom and middle alignment. The text
      height is capped by the clip box when HTML alignment is matched. */
  function FirstBaseline(s: State, opts: Options, y: real, h: real, valign: VAlign, overflow: Overflow, clip: bool,
                         textHeight: real): real
  {
    var top := y + s.fontSize - 1.0;
    var d := if opts.matchHtmlAlignment && clip && h > 0.0 then Min(textHeight, h) else textHeight;
    match valign
    case Middle => if overflow == OverflowFill then top - h / 2.0 else top - (d / 2.0 + 1.0)
    case Bottom => if overflow == OverflowFill then top - h else top - (d + 2.0)
    case Top => top
  }

  /** Bottom-aligned text starts above middle-aligned text, which starts above top-aligned
      text, whenever the height it is aligned by is not negative. */
  lemma BaselinesOrdered(s: State, opts: Options, y: real, h: real, overflow: Overflow, clip: bool, textHeight: real)
    requires h >= 0.0 && textHeight >= 0.0
    ensures FirstBaseline(s, opts, y, h, Bottom, overflow, clip, textHeight)
         <= FirstBaseline(s, opts, y, h, Middle, overflow, clip, textHeight)
         <= FirstBaseline(s, opts, y, h, Top, overflow, clip, textHeight)
  {
  }

  /** The background box of the analytic branch of `addTextBackground` (the text fills its
      box, or its width): the aligned box, inset by one unit horizontally and grown by two
      vertically, in device units. */
  function AnalyticBackgroundBox(s: State, x: real, y: real, w: real, h: real, align: HAlign, valign: VAlign): Box {
    var x := x + AlignOffset(align, w);
    var y := y + VAlignOffset(valign, h);
    Box((x + 1.0) * s.scale, y * s.scale, (w - 2.0) * s.scale, (h + 2.0) * s.scale)
  }

  /** The background rect for a box: whole units, grown outward, filled and outlined in the
      background and border colours (`none` when unset), with a border width of at least 1
      when there is a border, and shifted by half a unit for crisp odd widths in a live
      document. */
  function BackgroundRect(s: State, opts: Options, b: Box): (r: Element)
    ensures r.name == "rect" && r.children == []
    ensures Attr(r, "fill") == Some(Str(OrElse(s.fontBackgroundColor, "none")))
    ensures Attr(r, "stroke") == Some(Str(OrElse(s.fontBorderColor, "none")))
    ensures Attr(r, "x") == Some(Num(Floor(b.x - 1.0) as real)) && Attr(r, "y") == Some(Num(Floor(b.y - 1.0) as real))
    ensures Attr(r, "width") == Some(Num(Ceil(b.width + 2.0) as real)) && Attr(r, "height") == Some(Num(Ceil(b.height) as real))
    ensures Attr(r, "stroke-width") == Some(Num(BorderWidth(s)))
    ensures Attr(r, "transform") == (if opts.liveDocument && IsOdd(BorderWidth(s)) then Some(Transform([Translate(0.5, 0.5)])) else None)
  {
    var n := NewElement("rect");
    var n := SetAttr(n, "fill", Str(OrElse(s.fontBackgroundColor, "none")));
    var n := SetAttr(n, "stroke", Str(OrElse(s.fontBorderColor, "none")));
    var n := SetAttr(n, "x", Num(Floor(b.x - 1.0) as real));
    var n := SetAttr(n, "y", Num(Floor(b.y - 1.0) as real));
    var n := SetAttr(n, "width", Num(Ceil(b.width + 2.0) as real));
    var n := SetAttr(n, "height", Num(Ceil(b.height) as real));
    var n := SetAttr(n, "stroke-width", Num(BorderWidth(s)));
    SetAttrIf(n, opts.liveDocument && IsOdd(BorderWidth(s)), "transform", Transform([Translate(0.5, 0.5)]))
  }

  /** The border width of a text background: `max(1, format(scale))` with a border, else 0. */
  function BorderWidth(s: State): (sw: real)
    ensures s.fontBorderColor.Some? ==> sw >= 1.0
    ensures s.fontBorderColor.None? ==> sw == 0.0
  {
    if s.fontBorderColor.Some? then Max(1.0, Format(s.scale)) else 0.0
  }

  /** `MxUtils.mod(v, 2) === 1`. */
  predicate IsOdd(v: real) {
    v - 2.0 * Floor(v / 2.0) as real == 1.0
  }

  /** The background rect reaches from at least a unit left of the box to its right edge,
      starts at least a unit above it, and is at least as tall. */
  lemma BackgroundCoversBox(s: State, opts: Options, b: Box)
    ensures var r := BackgroundRect(s, opts, b);
      var x := Attr(r, "x").value.r;
      var y := Attr(r, "y").value.r;
      && x <= b.x - 1.0 && x + Attr(r, "width").value.r >= b.x + b.width
      && y <= b.y - 1.0 && Attr(r, "height").value.r >= b.height
  {
  }

  /** `addTextBackground` with the analytic branch and, for other overflows, the box the
      browser measured (`None` when it could not). No box without a background or border
      colour. */
  function TextBackground(s: State, opts: Options, x: real, y: real, w: real, h: real, align: HAlign, valign: VAlign,
                          overflow: Overflow, measured: Option<Box>): (bg: Option<Element>)
    ensures s.fontBackgroundColor.None? && s.fontBorderColor.None? ==> bg.None?
    ensures bg.Some? ==> bg.value.name == "rect"
    ensures (s.fontBackgroundColor.Some? || s.fontBorderColor.Some?) && overflow != OverflowOther ==>
      bg == Some(BackgroundRect(s, opts, AnalyticBackgroundBox(s, x, y, w, h, align, valign)))
    ensures (s.fontBackgroundColor.Some? || s.fontBorderColor.Some?) && overflow == OverflowOther ==>
      bg == if measured.Some? then Some(BackgroundRect(s, opts, measured.value)) else None
  {
    if s.fontBackgroundColor.None? && s.fontBorderColor.None? then None
    else if overflow != OverflowOther then Some(BackgroundRect(s, opts, AnalyticBackgroundBox(s, x, y, w, h, align, valign)))
    else if measured.Some? then Some(BackgroundRect(s, opts, measured.value))
    else None
  }

  /** The attributes `plainText` sets on its group after the font, the direction and the
      clip reference. */
  const TailKeys: set<string> := {"text-anchor", "font-size", "transform", "opacity"}

  /** Whether `plainText` writes the font size: always without the style section, else only
      when it differs from the default. */
  predicate ShowsFontSize(s: State, styleEnabled: bool) {
    !styleEnabled || s.fontSize != DefaultFontSize
  }

  /** The font size in device pixels. */
  function FontPx(s: State): real {
    s.fontSize * s.scale
  }

  /** The transform of the text group: the state's transform, then a rotation about the
      formatted device position of the text when the label is rotated. */
  function TextTransform(s: State, x: real, y: real, rotation: real): (t: seq<TransformTerm>)
    ensures rotation == 0.0 ==> t == s.transform
    ensures rotation != 0.0 ==> t == s.transform + [Rotate(rotation, Format(x * s.scale), Format(y * s.scale))]
  {
    s.transform + (if rotation != 0.0 then [Rotate(rotation, Format(x * s.scale), Format(y * s.scale))] else [])
  }

  /** The first part of the `plainText` group: the font attributes, the direction and
      the clip reference (when a clip was made). */
  function TextGroupHead(s: State, opts: Options, dir: Option<string>, clipId: Option<Id>): (r: Element)
    ensures r.name == "g" && r.children == []
    ensures SameExcept(FontGroup(s, opts.styleEnabled), r, {"direction", "clip-path"})
    ensures Attr(r, "direction") == if dir.Some? then Some(Str(dir.value)) else None
    ensures Attr(r, "clip-path") == if clipId.Some? then Some(Url(UrlBase(opts), clipId.value)) else None
    ensures TailUnset(r)
  {
    var font := FontGroup(s, opts.styleEnabled);
    FontLeavesGroupKeys(font);
    GroupHead(font, if dir.Some? then Some(Str(dir.value)) else None,
              if clipId.Some? then Some(Url(UrlBase(opts), clipId.value)) else None)
  }

  /** None of the attributes `plainText` sets last is present. */
  ghost predicate TailUnset(e: Element) {
    && Attr(e, "text-anchor") == None && Attr(e, "font-size") == None
    && Attr(e, "transform") == None && Attr(e, "opacity") == None
  }

  /** A group holding only font attributes holds none of the ones `plainText` sets after them. */
  lemma FontLeavesGroupKeys(g: Element)
    requires g.attrs.Keys <= FontKeys
    ensures Attr(g, "direction") == None && Attr(g, "clip-path") == None && TailUnset(g)
  {
  }

  /** The direction and the clip reference, each set when given. */
  function GroupHead(font: Element, direction: Option<Value>, clipPath: Option<Value>): (r: Element)
    requires Attr(font, "direction") == None && Attr(font, "clip-path") == None && TailUnset(font)
    ensures r.name == font.name && r.children == font.children
    ensures SameExcept(font, r, {"direction", "clip-path"})
    ensures Attr(r, "direction") == direction && Attr(r, "clip-path") == clipPath && TailUnset(r)
  {
    var g1 := SetAttrOpt(font, "direction", direction);
    var r := SetAttrOpt(g1, "clip-path", clipPath);
    SameExceptTrans(font, g1, r, {"direction"}, {"clip-path"});
    assert {"direction"} + {"clip-path"} == {"direction", "clip-path"};
    SameExceptKeeps(g1, r, {"clip-path"}, "direction");
    SameExceptKeeps(font, r, {"direction", "clip-path"}, "text-anchor");
    SameExceptKeeps(font, r, {"direction", "clip-path"}, "font-size");
    SameExceptKeeps(font, r, {"direction", "clip-path"}, "transform");
    SameExceptKeeps(font, r, {"direction", "clip-path"}, "opacity");
    r
  }

  /** The group `plainText` fills with rows: the head, then the anchor unless it is the
      default `start`, the font size, the transform when there is one, and the opacity when
      the text is translucent. */
  function TextGroup(s: State, opts: Options, x: real, y: real, align: HAlign, rotation: real,
                     dir: Option<string>, clipId: Option<Id>): (r: Element)
    ensures r.name == "g" && r.children == []
    ensures SameExcept(TextGroupHead(s, opts, dir, clipId), r, TailKeys)
    ensures Attr(r, "text-anchor") == if align == Left then None else Some(Str(TextAnchor(align)))
    ensures Attr(r, "font-size") == if ShowsFontSize(s, opts.styleEnabled) then Some(Px(FontPx(s))) else None
    ensures var tr := TextTransform(s, x, y, rotation);
      Attr(r, "transform") == if |tr| > 0 then Some(Transform(tr)) else None
    ensures Attr(r, "opacity") == if s.alpha < 1.0 then Some(Num(s.alpha)) else None
  {
    var tr := TextTransform(s, x, y, rotation);
    GroupTail(TextGroupHead(s, opts, dir, clipId),
              if align == Left then None else Some(Str(TextAnchor(align))),
              if ShowsFontSize(s, opts.styleEnabled) then Some(Px(FontPx(s))) else None,
              if |tr| > 0 then Some(Transform(tr)) else None,
              if s.alpha < 1.0 then Some(Num(s.alpha)) else None)
  }

  /** The last four attributes of the `plainText` group, each set when given. */
  function GroupTail(g: Element, anchor: Option<Value>, size: Option<Value>, transform: Option<Value>,
                     opacity: Option<Value>): (r: Element)
    requires TailUnset(g)
    ensures r.name == g.name && r.children == g.children
    ensures SameExcept(g, r, TailKeys)
    ensures Attr(r, "text-anchor") == anchor && Attr(r, "font-size") == size
    ensures Attr(r, "transform") == transform && Attr(r, "opacity") == opacity
  {
    var g3 := SetAttrOpt(g, "text-anchor", anchor);
    var g4 := SetAttrOpt(g3, "font-size", size);
    var g5 := SetAttrOpt(g4, "transform", transform);
    var r := SetAttrOpt(g5, "opacity", opacity);
    TailKept(g, g3, g4, g5, r);
    r
  }

  /** Helper for `GroupTail`: each attribute set along the chain survives the later steps. */
  lemma TailKept(g2: Element, g3: Element, g4: Element, g5: Element, r: Element)
    requires TailUnset(g2)
    requires SameExcept(g2, g3, {"text-anchor"}) && SameExcept(g3, g4, {"font-size"})
    requires SameExcept(g4, g5, {"transform"}) && SameExcept(g5, r, {"opacity"})
    ensures SameExcept(g2, r, TailKeys)
    ensures Attr(g2, "text-anchor") == None && Attr(g3, "font-size") == None
    ensures Attr(g4, "transform") == None && Attr(g5, "opacity") == None
    ensures Attr(r, "text-anchor") == Attr(g3, "text-anchor") && Attr(r, "font-size") == Attr(g4, "font-size")
    ensures Attr(r, "transform") == Attr(g5, "transform")
  {
    var k5: set<string> := {"opacity"};
    var k4 := {"transform"} + k5;
    var k3 := {"font-size"} + k4;
    SameExceptTrans(g4, g5, r, {"transform"}, k5);
    SameExceptTrans(g3, g4, r, {"font-size"}, k4);
    SameExceptTrans(g2, g3, r, {"text-anchor"}, k3);
    assert {"text-anchor"} + k3 == TailKeys;
    SameExceptKeeps(g5, r, k5, "transform");
    SameExceptKeeps(g4, r, k4, "font-size");
    SameExceptKeeps(g3, r, k3, "text-anchor");
    SameExceptKeeps(g2, g3, {"text-anchor"}, "font-size");
    SameExceptKeeps(g2, g3, {"text-anchor"}, "transform");
    SameExceptKeeps(g2, g3, {"text-anchor"}, "opacity");
    SameExceptKeeps(g3, g4, {"font-size"}, "transform");
    SameExceptKeeps(g3, g4, {"font-size"}, "opacity");
    SameExceptKeeps(g4, g5, {"transform"}, "opacity");
  }

  /** Whether `plainText` makes a clip: clipping is asked for and the box is not empty. */
  predicate ClipsText(clip: bool, w: real, h: real) {
    clip && w > 0.0 && h > 0.0
  }

  /** The rows of a label: the lines of `str` laid out from the first baseline. */
  function LabelRows(s: State, opts: Options, x: real, y: real, h: real, str: string, valign: VAlign,
                     overflow: Overflow, clip: bool): seq<Node>
  {
    var lines := Split(str);
    Rows(s, opts, x, FirstBaseline(s, opts, y, h, valign, overflow, clip, TextHeight(s, |lines|)), LineSpacing(s), lines)
  }

  /** The background `plainText` asks for: the box is the given one for filled text, else
      as tall as the text. */
  function LabelBackground(s: State, opts: Options, x: real, y: real, w: real, h: real, str: string, align: HAlign,
                           valign: VAlign, overflow: Overflow, measured: Option<Box>): Option<Element>
  {
    var bh := if overflow == OverflowFill then h else TextHeight(s, |Split(str)|);
    TextBackground(s, opts, x, y, w, bh, align, valign, overflow, measured)
  }

  /** The background, when there is one, as a leading child. */
  function BackgroundChildren(bg: Option<Element>): (c: seq<Node>)
    ensures |c| <= 1 && (bg.Some? <==> |c| == 1) && (bg.Some? ==> c[0] == Elem(bg.value))
  {
    if bg.Some? then [Elem(bg.value)] else []
  }

  /** The group `plainText` appends: the attributes of `TextGroup`, the background (inserted
      before the first row) and the rows. `clipId` is the clip `plainText` made, if any. */
  function PlainTextLabel(s: State, opts: Options, x: real, y: real, w: real, h: real, str: string,
                          align: HAlign, valign: VAlign, overflow: Overflow, clip: bool, rotation: real,
                          dir: Option<string>, clipId: Option<Id>, measured: Option<Box>): Element
  {
    var g := TextGroup(s, opts, x, y, align, rotation, dir, clipId);
    var bg := LabelBackground(s, opts, x, y, w, h, str, align, valign, overflow, measured);
    g.(children := BackgroundChildren(bg) + LabelRows(s, opts, x, y, h, str, valign, overflow, clip))
  }

  /** The rows of a label hold every non-blank line of its text, in order, top to bottom. */
  lemma LabelRowsShowLines(s: State, opts: Options, x: real, y: real, h: real, str: string, valign: VAlign,
                           overflow: Overflow, clip: bool)
    requires s.fontSize >= 0.0 && s.scale >= 0.0
    ensures var rows := LabelRows(s, opts, x, y, h, str, valign, overflow, clip);
      RowTexts(rows) == NonBlank(Split(str)) && Descending(rows)
  {
    var lines := Split(str);
    var cy := FirstBaseline(s, opts, y, h, valign, overflow, clip, TextHeight(s, |lines|));
    RowsHoldNonBlankLines(s, opts, x, cy, LineSpacing(s), lines);
    RowsDescend(s, opts, x, cy, LineSpacing(s), lines);
  }

  /** A plain-text label shows every non-blank line of its text, in order, one row each, top
      to bottom, after at most one background rect. */
  lemma PlainTextShowsLines(s: State, opts: Options, x: real, y: real, w: real, h: real, str: string,
                            align: HAlign, valign: VAlign, overflow: Overflow, clip: bool, rotation: real,
                            dir: Option<string>, clipId: Option<Id>, measured: Option<Box>)
    requires s.fontSize >= 0.0 && s.scale >= 0.0
    ensures var r := PlainTextLabel(s, opts, x, y, w, h, str, align, valign, overflow, clip, rotation, dir, clipId, measured);
      var b := |BackgroundChildren(LabelBackground(s, opts, x, y, w, h, str, align, valign, overflow, measured))|;
      && b <= |r.children|
      && (b == 1 ==> r.children[0].Elem? && r.children[0].e.name == "rect")
      && RowTexts(r.children[b..]) == NonBlank(Split(str))
      && Descending(r.children[b..])
  {
    var bg := LabelBackground(s, opts, x, y, w, h, str, align, valign, overflow, measured);
    var rows := LabelRows(s, opts, x, y, h, str, valign, overflow, clip);
    AfterBackground(BackgroundChildren(bg), rows);
    LabelRowsShowLines(s, opts, x, y, h, str, valign, overflow, clip);
  }

  lemma AfterBackground(bgc: seq<Node>, rows: seq<Node>)
    ensures (bgc + rows)[|bgc|..] == rows
  {
  }
}
