/** The output the canvas writes: SVG elements with attribute maps and ordered children.
    Attribute values keep their structure (numbers, transform terms, path items, ids);
    JavaScript's printing of numbers into attribute text is not modelled. */
module Svg {
  import opened Strings

  /** `MxConstants.DIRECTION_*`; any other non-null string is `OtherDirection`. */
  datatype Direction = North | South | East | West | OtherDirection

  /** The parts of a gradient id `mx-gradient-<start>-<alpha1>-<end>-<alpha2>-<axis>`
      (`createGradientId`). */
  datatype GradientKey = GradientKey(start: string, startAlpha: real, end: string, endAlpha: real, axis: string)

  /** Element ids the canvas allocates, kept as the parts their text is built from:
      `'id' + n` in export mode, `<gradient id>-<n>` in a live document, and
      `mx-clip-<x>-<y>-<w>-<h>-<n>` for clips. */
  datatype Id =
    | ExportId(n: nat)
    | GradientId(key: GradientKey, suffix: nat)
    | ClipId(x: int, y: int, w: int, h: int, suffix: nat)

  /** One token of the path accumulator: an operator letter or a formatted coordinate. */
  datatype PathItem = Op(name: string) | Coord(v: real)

  /** One term of a `transform` attribute. `ScaleUniform` is the one-argument `scale(s)`. */
  datatype TransformTerm =
    | Translate(tx: real, ty: real)
    | Scale(sx: real, sy: real)
    | ScaleUniform(s: real)
    | Rotate(angle: real, cx: real, cy: real)

  /** An attribute value. */
  datatype Value =
    | Str(s: string)                                  // literal text
    | Num(r: real)                                    // a number
    | Px(px: real)                                    // a number followed by `px`
    | Numbers(rs: seq<real>)                          // numbers joined by single spaces
    | PathData(items: seq<PathItem>)                  // path tokens joined by single spaces
    | Transform(terms: seq<TransformTerm>)            // transform terms, concatenated
    | StopStyle(color: string, opacity: Option<real>) // `stop-color:c` and optionally `;stop-opacity:a`
    | Url(base: string, id: Id)                       // `url(<base>#<id>)`
    | Ident(id: Id)                                   // the text of an id

  /** An element; `children` holds finished subtrees and text. */
  datatype Element = Element(name: string, attrs: map<string, Value>, children: seq<Node>)

  /** A child: a finished element, a text node, or the slot of an element the canvas still
      appends into (a link anchor made by `setLink`). */
  datatype Node = Elem(e: Element) | Text(content: string) | Slot(index: nat)

  /** `createElement(name)`: an element with no attributes and no children. */
  function NewElement(name: string): (e: Element)
    ensures e.name == name && e.attrs == map[] && e.children == []
  {
    Element(name, map[], [])
  }

  /** `getAttribute(key)`; `None` stands for null. */
  function Attr(e: Element, key: string): (v: Option<Value>)
    ensures v.Some? <==> key in e.attrs
    ensures v.Some? ==> v.value == e.attrs[key]
  {
    if key in e.attrs then Some(e.attrs[key]) else None
  }

  /** `setAttribute(key, v)`. */
  function SetAttr(e: Element, key: string, v: Value): (r: Element)
    ensures r.name == e.name && r.children == e.children
    ensures r.attrs == e.attrs[key := v]
    ensures Attr(r, key) == Some(v)
  {
    e.(attrs := e.attrs[key := v])
  }

  /** `setAttribute(key, v)` changes only `key`. */
  lemma SetAttrOnly(e: Element, key: string, v: Value)
    ensures SameExcept(e, SetAttr(e, key, v), {key})
  {
  }

  /** `if (c) setAttribute(key, v)`. */
  function SetAttrIf(e: Element, c: bool, key: string, v: Value): (r: Element)
    ensures c ==> Attr(r, key) == Some(v)
    ensures !c ==> r == e
  {
    if c then SetAttr(e, key, v) else e
  }

  /** `setAttribute(key, v)` when there is a value, else nothing. */
  function SetAttrOpt(e: Element, key: string, v: Option<Value>): (r: Element)
    ensures r.name == e.name && r.children == e.children
    ensures Attr(r, key) == if v.Some? then v else Attr(e, key)
    ensures SameExcept(e, r, {key})
  {
    if v.Some? then SetAttr(e, key, v.value) else e
  }

  /** `if (c) setAttribute(key, v)` on an attribute map. */
  function Put(m: map<string, Value>, c: bool, key: string, v: Value): map<string, Value> {
    if c then m[key := v] else m
  }

  /** A conditional `setAttribute` changes at most `key`. */
  lemma SetAttrIfOnly(e: Element, c: bool, key: string, v: Value)
    ensures SameExcept(e, SetAttrIf(e, c, key, v), {key})
  {
    if c {
      SetAttrOnly(e, key, v);
    }
  }

  /** `removeAttribute(key)`. */
  function RemoveAttr(e: Element, key: string): (r: Element)
    ensures r.name == e.name && r.children == e.children
    ensures key !in r.attrs && forall k :: k in e.attrs && k != key ==> k in r.attrs && r.attrs[k] == e.attrs[k]
    ensures forall k :: k in r.attrs ==> k in e.attrs
    ensures SameExcept(e, r, {key}) && Attr(r, key) == None
  {
    e.(attrs := e.attrs - {key})
  }

  /** `appendChild(n)`. */
  function AppendChild(e: Element, n: Node): (r: Element)
    ensures r.name == e.name && r.attrs == e.attrs && r.children == e.children + [n]
  {
    e.(children := e.children + [n])
  }

  /** Whether attribute `key` holds the literal text `s`. */
  predicate HasText(e: Element, key: string, s: string) {
    key in e.attrs && e.attrs[key] == Str(s)
  }

  /** `b` is `a` with at most the attributes in `keys` changed, added or removed. */
  ghost predicate SameExcept(a: Element, b: Element, keys: set<string>) {
    && a.name == b.name && a.children == b.children
    && forall k {:trigger Attr(a, k)} {:trigger Attr(b, k)} :: k !in keys ==> Attr(a, k) == Attr(b, k)
  }

  lemma SameExceptTrans(a: Element, b: Element, c: Element, k1: set<string>, k2: set<string>)
    requires SameExcept(a, b, k1) && SameExcept(b, c, k2)
    ensures SameExcept(a, c, k1 + k2)
  {
    forall k | k !in k1 + k2
      ensures Attr(a, k) == Attr(c, k)
    {
      assert Attr(a, k) == Attr(b, k);
    }
  }

  lemma SameExceptWiden(a: Element, b: Element, k1: set<string>, k2: set<string>)
    requires SameExcept(a, b, k1) && k1 <= k2
    ensures SameExcept(a, b, k2)
  {
  }

  lemma SameExceptSymmetric(a: Element, b: Element, keys: set<string>)
    requires SameExcept(a, b, keys)
    ensures SameExcept(b, a, keys)
  {
  }

  /** An attribute outside the changed keys keeps its value. */
  lemma SameExceptKeeps(a: Element, b: Element, keys: set<string>, key: string)
    requires SameExcept(a, b, keys) && key !in keys
    ensures Attr(b, key) == Attr(a, key)
  {
  }
}
