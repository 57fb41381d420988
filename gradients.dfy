/** Linear gradients: the canonical gradient id, the two-stop `linearGradient` element
    (SVG 1.1, section 13.2.2), and the id probe against the host document. */
module Gradients {
  import opened Strings
  import opened Svg
  import opened Numbers

  /** The colour part of a gradient id: one leading `#` removed, then lower-cased. */
  function ColourPart(colour: string): (r: string)
    ensures IsLower(r)
    ensures |colour| > 0 && colour[0] == '#' ==> r == Lower(colour[1..])
    ensures (|colour| == 0 || colour[0] != '#') ==> r == Lower(colour)
  {
    Lower(StripHash(colour))
  }

  /** `createGradientId`: south (or no direction) and east keep the colours in order, every
      other direction swaps them together with their alphas; north folds onto the
      vertical axis `s`, west onto the horizontal axis `e`, any other name gives `null`. */
  function CreateGradientId(start: string, end: string, alpha1: real, alpha2: real,
                            direction: Option<Direction>): (k: GradientKey)
    ensures IsLower(k.start) && IsLower(k.end)
    ensures k.axis in {"s", "e", "null"}
    ensures k.axis == "s" <==> direction in {None, Some(South), Some(North)}
    ensures k.axis == "e" <==> direction in {Some(East), Some(West)}
    ensures direction in {None, Some(South), Some(East)} ==>
      (k.start, k.startAlpha, k.end, k.endAlpha) == (ColourPart(start), alpha1, ColourPart(end), alpha2)
    ensures direction !in {None, Some(South), Some(East)} ==>
      (k.start, k.startAlpha, k.end, k.endAlpha) == (ColourPart(end), alpha2, ColourPart(start), alpha1)
  {
    var s := ColourPart(start);
    var e := ColourPart(end);
    if direction == None || direction == Some(South) then GradientKey(s, alpha1, e, alpha2, "s")
    else if direction == Some(East) then GradientKey(s, alpha1, e, alpha2, "e")
    else if direction == Some(North) then GradientKey(e, alpha2, s, alpha1, "s")
    else if direction == Some(West) then GradientKey(e, alpha2, s, alpha1, "e")
    else GradientKey(e, alpha2, s, alpha1, "null")
  }

  /** A gradient running north is the same gradient as the one running south with the
      colours and alphas swapped: both get the same id. */
  lemma NorthIsSwappedSouth(a: string, b: string, alpha1: real, alpha2: real)
    ensures CreateGradientId(a, b, alpha1, alpha2, Some(North))
         == CreateGradientId(b, a, alpha2, alpha1, Some(South))
    ensures CreateGradientId(a, b, alpha1, alpha2, Some(North))
         == CreateGradientId(b, a, alpha2, alpha1, None)
  {
  }

  /** Likewise west is east with the colours and alphas swapped. */
  lemma WestIsSwappedEast(a: string, b: string, alpha1: real, alpha2: real)
    ensures CreateGradientId(a, b, alpha1, alpha2, Some(West))
         == CreateGradientId(b, a, alpha2, alpha1, Some(East))
  {
  }

  /** Lower-casing a colour first does not change its colour part. */
  lemma ColourPartOfLower(c: string)
    ensures ColourPart(Lower(c)) == ColourPart(c)
  {
    var l := Lower(c);
    if |c| > 0 && c[0] == '#' {
      assert l[0] == '#';
      assert l[1..] == Lower(c[1..]);
      LowerIdempotent(c[1..]);
    } else {
      assert |c| == 0 || l[0] != '#';
      LowerIdempotent(c);
    }
  }

  /** Colours that differ only in one leading `#` or in letter case share a gradient id. */
  lemma IdIgnoresHashAndCase(a: string, b: string, alpha1: real, alpha2: real, d: Option<Direction>)
    requires |a| == 0 || a[0] != '#'
    ensures CreateGradientId("#" + a, b, alpha1, alpha2, d) == CreateGradientId(a, b, alpha1, alpha2, d)
    ensures CreateGradientId(Lower(a), Lower(b), alpha1, alpha2, d) == CreateGradientId(a, b, alpha1, alpha2, d)
  {
    assert ("#" + a)[1..] == a;
    assert ColourPart("#" + a) == ColourPart(a);
    ColourPartOfLower(a);
    ColourPartOfLower(b);
  }

  /** The stop opacity an alpha produces. */
  function StopOpacity(alpha: real): Option<real> {
    if alpha < 1.0 then Some(alpha) else None
  }

  /** One `stop` of a gradient: `stop-opacity` is written only for an alpha below 1. */
  function CreateStop(offset: string, colour: string, alpha: real): (e: Element)
    ensures e.name == "stop" && e.children == []
    ensures e.attrs.Keys == {"offset", "style"} && e.attrs["offset"] == Str(offset)
    ensures e.attrs["style"].StopStyle? && e.attrs["style"].color == colour
    ensures e.attrs["style"].opacity.Some? <==> alpha < 1.0
    ensures alpha < 1.0 ==> e.attrs["style"].opacity == Some(alpha)
  {
    Element("stop", map["offset" := Str(offset), "style" := StopStyle(colour, StopOpacity(alpha))], [])
  }

  /** `createSvgGradient`: a `linearGradient` whose vector starts at 0% 0% and ends at
      0% 0%, then has one coordinate moved to 100% by the direction; its two stops are the
      start colour at offset 0% and the end colour at offset 100%. */
  function CreateSvgGradient(start: string, end: string, alpha1: real, alpha2: real,
                             direction: Option<Direction>): (g: Element)
    ensures g.name == "linearGradient"
    ensures g.attrs.Keys == {"x1", "y1", "x2", "y2"}
    ensures |g.children| == 2 && g.children[0].Elem? && g.children[1].Elem?
    ensures g.children[0].e == CreateStop("0%", start, alpha1)
    ensures g.children[1].e == CreateStop("100%", end, alpha2)
    ensures g.attrs["y2"] == Str(if direction in {None, Some(South)} then "100%" else "0%")
    ensures g.attrs["x2"] == Str(if direction == Some(East) then "100%" else "0%")
    ensures g.attrs["y1"] == Str(if direction == Some(North) then "100%" else "0%")
    ensures g.attrs["x1"] == Str(if direction == Some(West) then "100%" else "0%")
  {
    var x1 := if direction == Some(West) then "100%" else "0%";
    var y1 := if direction == Some(North) then "100%" else "0%";
    var x2 := if direction == Some(East) then "100%" else "0%";
    var y2 := if direction == None || direction == Some(South) then "100%" else "0%";
    Element("linearGradient", map["x1" := Str(x1), "y1" := Str(y1), "x2" := Str(x2), "y2" := Str(y2)],
            [Elem(CreateStop("0%", start, alpha1)), Elem(CreateStop("100%", end, alpha2))])
  }

  /** Whether the gradient runs along the vertical axis. */
  predicate Vertical(g: Element) {
    ("y1" in g.attrs && g.attrs["y1"] == Str("100%")) || ("y2" in g.attrs && g.attrs["y2"] == Str("100%"))
  }

  /** Whether the gradient vector runs up or leftwards, so that its 100% stop is painted at
      the top or left edge. */
  predicate Reversed(g: Element) {
    ("y1" in g.attrs && g.attrs["y1"] == Str("100%")) || ("x1" in g.attrs && g.attrs["x1"] == Str("100%"))
  }

  /** The stop painted at the top (vertical) or left (horizontal) edge, and the one at the
      opposite edge. */
  function LeadingStop(g: Element): Element
    requires |g.children| == 2 && g.children[0].Elem? && g.children[1].Elem?
  {
    if Reversed(g) then g.children[1].e else g.children[0].e
  }

  function TrailingStop(g: Element): Element
    requires |g.children| == 2 && g.children[0].Elem? && g.children[1].Elem?
  {
    if Reversed(g) then g.children[0].e else g.children[1].e
  }

  /** The gradient id describes what is painted: for every named direction (and for none),
      the id's axis is the gradient's axis, its first colour and alpha are those of the stop
      at the top or left edge, and its second those of the stop at the opposite edge. This
      is why gradients that fold onto one id can share one element. */
  lemma IdDescribesGradient(start: string, end: string, alpha1: real, alpha2: real, d: Option<Direction>)
    requires d != Some(OtherDirection)
    ensures var k := CreateGradientId(start, end, alpha1, alpha2, d);
            var g := CreateSvgGradient(start, end, alpha1, alpha2, d);
            && (Vertical(g) <==> k.axis == "s")
            && (!Vertical(g) <==> k.axis == "e")
            && ColourPart(LeadingStop(g).attrs["style"].color) == k.start
            && LeadingStop(g).attrs["style"].opacity == StopOpacity(k.startAlpha)
            && ColourPart(TrailingStop(g).attrs["style"].color) == k.end
            && TrailingStop(g).attrs["style"].opacity == StopOpacity(k.endAlpha)
  {
    var k := CreateGradientId(start, end, alpha1, alpha2, d);
    var g := CreateSvgGradient(start, end, alpha1, alpha2, d);
    var first, last := g.children[0].e, g.children[1].e;
    assert first.attrs["style"] == StopStyle(start, StopOpacity(alpha1));
    assert last.attrs["style"] == StopStyle(end, StopOpacity(alpha2));
    match d
    case None =>
    case Some(South) =>
    case Some(East) =>
    case Some(North) =>
    case Some(West) =>
  }

  /** Two gradient requests with equal ids paint the same colours, modulo the spelling of
      the colours, at the same edges along the same axis. */
  lemma EqualIdsPaintAlike(s1: string, e1: string, a1: real, b1: real, d1: Option<Direction>,
                           s2: string, e2: string, a2: real, b2: real, d2: Option<Direction>)
    requires d1 != Some(OtherDirection) && d2 != Some(OtherDirection)
    requires CreateGradientId(s1, e1, a1, b1, d1) == CreateGradientId(s2, e2, a2, b2, d2)
    ensures var g1 := CreateSvgGradient(s1, e1, a1, b1, d1);
            var g2 := CreateSvgGradient(s2, e2, a2, b2, d2);
            && (Vertical(g1) <==> Vertical(g2))
            && ColourPart(LeadingStop(g1).attrs["style"].color) == ColourPart(LeadingStop(g2).attrs["style"].color)
            && LeadingStop(g1).attrs["style"].opacity == LeadingStop(g2).attrs["style"].opacity
            && ColourPart(TrailingStop(g1).attrs["style"].color) == ColourPart(TrailingStop(g2).attrs["style"].color)
            && TrailingStop(g1).attrs["style"].opacity == TrailingStop(g2).attrs["style"].opacity
  {
    IdDescribesGradient(s1, e1, a1, b1, d1);
    IdDescribesGradient(s2, e2, a2, b2, d2);
  }

  // ---------------------------------------------------------------------------------
  // The id probe in a live document

  /** Whether suffix `n` is unusable: an element with that id exists and lies outside this
      canvas's svg (`gradient.ownerSVGElement !== svg`). */
  predicate Taken(ids: map<Id, bool>, key: GradientKey, n: nat) {
    GradientId(key, n) in ids && !ids[GradientId(key, n)]
  }

  /** The suffixes under which an element outside this svg already holds the id. */
  ghost function TakenSuffixes(ids: map<Id, bool>, key: GradientKey): (t: set<nat>)
    ensures forall n: nat :: n in t <==> Taken(ids, key, n)
  {
    set id | id in ids && id.GradientId? && id.key == key && !ids[id] :: id.suffix
  }

  /** The suffix the probe settles on: the least one whose id is not taken. */
  ghost function ProbeSuffix(ids: map<Id, bool>, key: GradientKey): (n: nat)
    ensures !Taken(ids, key, n)
    ensures forall m: nat :: m < n ==> Taken(ids, key, m)
  {
    LeastAbsent(TakenSuffixes(ids, key))
  }

  /** The probe loop of `getSvgGradient` in a live document: try `<key>-0`; while an element
      with the tried id lies outside this svg, try `<key>-<counter++>`. The post-increment
      makes the first retry try `-0` again; the result is the least suffix whose id is free
      or already names an element of this svg, and `existing` tells which. */
  method ProbeGradient(ids: map<Id, bool>, key: GradientKey) returns (id: Id, existing: bool)
    ensures id == GradientId(key, ProbeSuffix(ids, key))
    ensures existing <==> id in ids
    ensures existing ==> ids[id]
  {
    var counter: nat := 0;
    id := GradientId(key, counter);
    while id in ids && !ids[id]
      invariant id.GradientId? && id.key == key
      invariant id.suffix == if counter == 0 then 0 else counter - 1
      invariant forall m: nat :: m < id.suffix ==> Taken(ids, key, m)
      decreases UpperBound(TakenSuffixes(ids, key)) + 1 - counter
    {
      assert Taken(ids, key, id.suffix);
      id := GradientId(key, counter);
      counter := counter + 1;
    }
    existing := id in ids;
    ghost var p := ProbeSuffix(ids, key);
    assert !(p < id.suffix);
    assert !Taken(ids, key, id.suffix);
    assert !(id.suffix < p);
  }
}
