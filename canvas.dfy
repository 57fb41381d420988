/** The canvas (`MxSvgCanvas2D`): the painting state, the pending node and path, the
    gradient cache and id counter, the link redirection of the root, and the output
    document. The document is a sequence of element slots; an element that the canvas
    still appends into (the root, a link anchor, the defs section, the svg element) sits
    in its own slot and its parent holds a `Slot` child pointing at it. */
module Canvas {
  import opened Strings
  import opened Numbers
  import opened Svg
  import opened PaintState
  import opened Gradients
  import opened Paint
  import opened Shapes
  import opened Text
  import opened Html

  /** `appendChild` on the element in slot `i`. */
  function AppendTo(slots: seq<Element>, i: nat, n: Node): (r: seq<Element>)
    requires i < |slots|
    ensures |r| == |slots| && r[i] == AppendChild(slots[i], n)
    ensures forall j :: 0 <= j < |slots| && j != i ==> r[j] == slots[j]
  {
    slots[i := AppendChild(slots[i], n)]
  }

  /** The nodes for a sequence of elements. */
  function Elems(es: seq<Element>): (ns: seq<Node>)
    ensures |ns| == |es| && forall k :: 0 <= k < |es| ==> ns[k] == Elem(es[k])
  {
    if es == [] then [] else [Elem(es[0])] + Elems(es[1..])
  }

  /** `appendChild` of several elements in order on the element in slot `i`. */
  function AppendAll(slots: seq<Element>, i: nat, es: seq<Element>): (r: seq<Element>)
    requires i < |slots|
    ensures |r| == |slots| && r[i].name == slots[i].name && r[i].attrs == slots[i].attrs
    ensures r[i].children == slots[i].children + Elems(es)
    ensures forall j :: 0 <= j < |slots| && j != i ==> r[j] == slots[j]
  {
    slots[i := slots[i].(children := slots[i].children + Elems(es))]
  }

  /** The path tokens, the empty sequence standing for a null path. */
  function PathItems(path: Option<seq<PathItem>>): seq<PathItem> {
    if path.Some? then path.value else []
  }

  /** Whether `addNode` leaves a node alone: a path with no tokens. */
  predicate EmptyPath(n: Element, path: Option<seq<PathItem>>) {
    n.name == "path" && |PathItems(path)| == 0
  }

  /** Whether `updateFill` asks for a gradient: the node is filled with a fill colour and a
      gradient colour. */
  predicate NeedsGradient(s: State, filled: bool) {
    filled && s.fillColor.Some? && s.gradientColor.Some?
  }

  /** The cache key of the state's gradient. */
  function StateGradientKey(s: State): GradientKey
    requires s.fillColor.Some? && s.gradientColor.Some?
  {
    CreateGradientId(s.fillColor.value, s.gradientColor.value, s.gradientFillAlpha, s.gradientAlpha, s.gradientDirection)
  }

  /** The id `getSvgGradient` returns for a key: the cached one; else, inside an svg, the
      first probed id not held outside it; else the next export id. */
  ghost function GradientIdFor(cache: map<GradientKey, Id>, refCount: nat, ids: map<Id, bool>, inSvg: bool,
                               key: GradientKey): Id
  {
    if key in cache then cache[key]
    else if inSvg then GradientId(key, ProbeSuffix(ids, key))
    else ExportId(refCount + 1)
  }

  /** Whether `getSvgGradient` creates the gradient element: a cache miss, and either
      export mode or a probed id no element holds yet. */
  predicate CreatesGradient(cache: map<GradientKey, Id>, ids: map<Id, bool>, inSvg: bool, key: GradientKey, id: Id) {
    key !in cache && (!inSvg || id !in ids)
  }

  /** The gradient element with its id. */
  function GradientElement(start: string, end: string, alpha1: real, alpha2: real, direction: Option<Direction>,
                           id: Id): Element
  {
    SetAttr(CreateSvgGradient(start, end, alpha1, alpha2, direction), "id", Ident(id))
  }

  /** Where definitions go: the defs section when there is one, else the svg element. */
  function DefsSlot(defs: Option<nat>, svg: Option<nat>): nat
    requires defs.Some? || svg.Some?
  {
    if defs.Some? then defs.value else svg.value
  }

  /** Where a clip goes: the defs section when there is one, else the root. */
  function ClipSlot(defs: Option<nat>, root: nat): nat {
    if defs.Some? then defs.value else root
  }

  /** The link anchor `setLink` opens. */
  function Anchor(link: string): (a: Element)
    ensures a.name == "a" && a.children == [] && Attr(a, "xlink:href") == Some(Str(link))
  {
    SetAttr(NewElement("a"), "xlink:href", Str(link))
  }

  /** The id `createClip` settles on for a box. */
  ghost function ClipIdFor(ids: map<Id, bool>, b: Box): Id {
    var x, y, w, h := Round(b.x), Round(b.y), Round(b.width), Round(b.height);
    ClipId(x, y, w, h, LeastAbsent(ClipSuffixes(ids, x, y, w, h)))
  }

  /** The cache lookup of `getSvgGradient` as the source writes it. The cache is an array
      indexed by the id text, so a missing entry reads as `undefined`; the strict test
      `gradient === null` does not catch it, nothing is created or cached, and reading the
      id of `undefined` throws. `None` stands for the throw. */
  function SvgGradientAsWritten(cache: map<GradientKey, Id>, key: GradientKey): (r: Option<Id>)
    ensures r.Some? <==> key in cache
    ensures key in cache ==> r.value == cache[key]
  {
    if key in cache then Some(cache[key]) else None
  }

  /** As written, the cache starts empty (and `reset` empties it) and nothing ever fills it,
      so the first gradient request throws; the intended lookup settles on an id whose
      element is either created or already in this svg. */
  lemma StrictNullTestThrowsOnFirstGradient(refCount: nat, ids: map<Id, bool>, inSvg: bool, key: GradientKey)
    ensures SvgGradientAsWritten(map[], key).None?
    ensures var id := GradientIdFor(map[], refCount, ids, inSvg, key);
      CreatesGradient(map[], ids, inSvg, key, id) || (inSvg && id in ids && ids[id])
  {
    var id := GradientIdFor(map[], refCount, ids, inSvg, key);
    if inSvg && id in ids {
      assert !Taken(ids, key, ProbeSuffix(ids, key));
    }
  }

  class SvgCanvas {
    const opts: Options
    /** The defs section (export only) and the svg element of the root (`ownerSVGElement`).
        Both are fixed at construction: `setLink` only moves the root to an anchor inside
        the same svg, so the svg the source reads on every call never changes. */
    const defs: Option<nat>
    const svg: Option<nat>

    var state: State
    var path: Option<seq<PathItem>>
    var node: Option<Element>
    var gradients: map<GradientKey, Id>
    var refCount: nat
    /** The ids of the host document's elements, each with whether it lies in this svg. */
    var ids: map<Id, bool>
    var slots: seq<Element>
    var root: nat
    var originalRoot: Option<nat>

    ghost predicate Valid()
      reads this
    {
      && root < |slots|
      && (originalRoot.Some? ==> originalRoot.value < |slots|)
      && (defs.Some? ==> defs.value < |slots|)
      && (svg.Some? ==> svg.value < |slots|)
      && (defs.Some? || svg.Some?)
    }

    /** A canvas over a document whose root is in slot `root`, with an empty gradient cache
        and no pending node. The search for (or creation of) the defs section is done by
        the caller, which passes its slot. */
    constructor(opts: Options, state: State, doc: seq<Element>, root: nat, svg: Option<nat>, defs: Option<nat>,
                ids: map<Id, bool>)
      requires root < |doc| && (svg.Some? ==> svg.value < |doc|) && (defs.Some? ==> defs.value < |doc|)
      requires defs.Some? || svg.Some?
      ensures Valid()
      ensures this.opts == opts && this.state == state && this.slots == doc && this.root == root
      ensures this.svg == svg && this.defs == defs && this.ids == ids
      ensures gradients == map[] && refCount == 0 && node.None? && path.None? && originalRoot.None?
    {
      this.opts := opts;
      this.state := state;
      this.slots := doc;
      this.root := root;
      this.svg := svg;
      this.defs := defs;
      this.ids := ids;
      gradients := map[];
      refCount := 0;
      node := None;
      path := None;
      originalRoot := None;
    }

    /** `appendChild` of `n` on the element in slot `i`. */
    method AppendAt(i: nat, n: Node)
      requires Valid() && i < |slots|
      modifies this
      ensures Valid()
      ensures slots == AppendTo(old(slots), i, n)
      ensures state == old(state) && path == old(path) && node == old(node) && root == old(root) && ids == old(ids)
      ensures originalRoot == old(originalRoot) && gradients == old(gradients) && refCount == old(refCount)
    {
      slots := AppendTo(slots, i, n);
    }

    /** `appendChild` of each of `es`, in order, on the root. */
    method AppendAllToRoot(es: seq<Element>)
      requires Valid()
      modifies this
      ensures Valid()
      ensures slots == AppendAll(old(slots), old(root), es)
      ensures state == old(state) && path == old(path) && node == old(node) && root == old(root) && ids == old(ids)
      ensures originalRoot == old(originalRoot) && gradients == old(gradients) && refCount == old(refCount)
    {
      slots := AppendAll(slots, root, es);
    }

    /** `reset`: the abstract canvas resets the painting state (to `initial`) and the
        gradient cache is emptied. */
    method Reset(initial: State)
      requires Valid()
      modifies this
      ensures Valid()
      ensures gradients == map[] && state == initial
      ensures path == old(path) && node == old(node) && refCount == old(refCount) && ids == old(ids)
      ensures slots == old(slots) && root == old(root) && originalRoot == old(originalRoot)
    {
      gradients := map[];
      state := initial;
    }

    /** The effect of `getSvgGradient` on the cache, the counter and the document ids. */
    twostate predicate GradientBookkeeping(key: GradientKey, id: Id)
      reads this
    {
      && id == GradientIdFor(old(gradients), old(refCount), old(ids), svg.Some?, key)
      && gradients == old(gradients)[key := id]
      && refCount == (if key !in old(gradients) && svg.None? then old(refCount) + 1 else old(refCount))
      && ids == (if CreatesGradient(old(gradients), old(ids), svg.Some?, key, id) && svg.Some?
                 then old(ids)[id := true] else old(ids))
    }

    /** `getSvgGradient`: the id of the gradient for the colours, alphas and direction,
        from the cache when the canonical id is cached; otherwise probed (inside an svg)
        or numbered (export), the element created and appended to the definitions unless
        the probe found it in this svg, and the id cached. */
    method GetSvgGradient(start: string, end: string, alpha1: real, alpha2: real, direction: Option<Direction>)
      returns (id: Id)
      requires Valid()
      modifies this
      ensures Valid()
      ensures GradientBookkeeping(CreateGradientId(start, end, alpha1, alpha2, direction), id)
      ensures slots == (if CreatesGradient(old(gradients), old(ids), svg.Some?, CreateGradientId(start, end, alpha1, alpha2, direction), id)
                        then AppendTo(old(slots), DefsSlot(defs, svg), Elem(GradientElement(start, end, alpha1, alpha2, direction, id)))
                        else old(slots))
      ensures state == old(state) && path == old(path) && node == old(node)
      ensures root == old(root) && originalRoot == old(originalRoot)
    {
      var key := CreateGradientId(start, end, alpha1, alpha2, direction);
      if key in gradients {
        id := gradients[key];
        assert gradients == old(gradients)[key := id];
      } else {
        var creates;
        id, creates := CacheGradient(key);
        if creates {
          AppendAt(DefsSlot(defs, svg), Elem(GradientElement(start, end, alpha1, alpha2, direction, id)));
        }
      }
    }

    /** The bookkeeping of a cache miss in `getSvgGradient`: the id probed or numbered, the
        counter and the document ids updated, and the id cached; `creates` tells whether the
        element is to be created. */
    method CacheGradient(key: GradientKey) returns (id: Id, creates: bool)
      requires Valid() && key !in gradients
      modifies this
      ensures Valid()
      ensures GradientBookkeeping(key, id)
      ensures creates == CreatesGradient(old(gradients), old(ids), svg.Some?, key, id)
      ensures state == old(state) && path == old(path) && node == old(node) && slots == old(slots)
      ensures root == old(root) && originalRoot == old(originalRoot)
    {
      if svg.Some? {
        var existing;
        id, existing := ProbeGradient(ids, key);
        creates := !existing;
        if creates {
          ids := ids[id := true];
        }
      } else {
        refCount := refCount + 1;
        id := ExportId(refCount);
        creates := true;
      }
      gradients := gradients[key := id];
    }

    /** What `addNode(filled, stroked)` does: nothing without a pending node or for a path
        with no tokens; otherwise the gradient is looked up when needed, the shadow, the
        tolerance copy and the node (unless pruned) are appended to the root in that order,
        and the pending node is cleared. */
    twostate predicate NodeAdded(filled: bool, stroked: bool)
      reads this
      requires old(Valid())
    {
      && path == old(path) && state == old(state) && root == old(root) && originalRoot == old(originalRoot)
      && if old(node).None? || EmptyPath(old(node).value, old(path)) then
           && node == old(node) && slots == old(slots)
           && gradients == old(gradients) && refCount == old(refCount) && ids == old(ids)
         else
           var s := old(state);
           var items := PathItems(old(path));
           var needs := NeedsGradient(s, filled);
           var key := if needs then StateGradientKey(s) else GradientKey("", 0.0, "", 0.0, "");
           var id := GradientIdFor(old(gradients), old(refCount), old(ids), svg.Some?, key);
           var gradient := if needs then Some(id) else None;
           var withGradient :=
             if needs && CreatesGradient(old(gradients), old(ids), svg.Some?, key, id)
             then AppendTo(old(slots), DefsSlot(defs, svg),
                           Elem(GradientElement(s.fillColor.value, s.gradientColor.value, s.gradientFillAlpha,
                                                s.gradientAlpha, s.gradientDirection, id)))
             else old(slots);
           var d := Decorate(old(node).value, items, s, opts, filled, stroked, gradient);
           && node.None?
           && (needs ==> GradientBookkeeping(key, id))
           && (!needs ==> gradients == old(gradients) && refCount == old(refCount) && ids == old(ids))
           && |withGradient| == |old(slots)|
           && slots == AppendAll(withGradient, root, Emitted(d, items, s, opts, originalRoot.Some?))
    }

    /** The gradient `updateFill` asks for: `getSvgGradient` on the state's colours, alphas
        and direction when the node is filled with a gradient, else none and nothing changes. */
    method FillGradient(filled: bool) returns (gradient: Option<Id>)
      requires Valid()
      modifies this
      ensures Valid()
      ensures var s := old(state);
        if NeedsGradient(s, filled) then
          var key := StateGradientKey(s);
          var id := GradientIdFor(old(gradients), old(refCount), old(ids), svg.Some?, key);
          && gradient == Some(id)
          && GradientBookkeeping(key, id)
          && slots == (if CreatesGradient(old(gradients), old(ids), svg.Some?, key, id)
                       then AppendTo(old(slots), DefsSlot(defs, svg),
                                     Elem(GradientElement(s.fillColor.value, s.gradientColor.value, s.gradientFillAlpha,
                                                          s.gradientAlpha, s.gradientDirection, id)))
                       else old(slots))
        else
          gradient == None && slots == old(slots) && gradients == old(gradients) && refCount == old(refCount)
          && ids == old(ids)
      ensures state == old(state) && path == old(path) && node == old(node)
      ensures root == old(root) && originalRoot == old(originalRoot)
    {
      gradient := None;
      var s := state;
      if NeedsGradient(s, filled) {
        var id := GetSvgGradient(s.fillColor.value, s.gradientColor.value, s.gradientFillAlpha,
                                 s.gradientAlpha, s.gradientDirection);
        gradient := Some(id);
      }
    }

    /** `addNode`. */
    method AddNode(filled: bool, stroked: bool)
      requires Valid()
      modifies this
      ensures Valid()
      ensures NodeAdded(filled, stroked)
    {
      if node.Some? && !EmptyPath(node.value, path) {
        EmitNode(filled, stroked);
      }
    }

    /** `addNode` past its guard: a pending node that is not an empty path. */
    method EmitNode(filled: bool, stroked: bool)
      requires Valid() && node.Some? && !EmptyPath(node.value, path)
      modifies this
      ensures Valid()
      ensures NodeAdded(filled, stroked)
    {
      var n, items, s, linked := node.value, PathItems(path), state, originalRoot.Some?;
      var gradient := FillGradient(filled);
      AppendAllToRoot(Emitted(Decorate(n, items, s, opts, filled, stroked, gradient), items, s, opts, linked));
      node := None;
    }

    /** `stroke`: outline the pending node. */
    method Stroke()
      requires Valid()
      modifies this
      ensures Valid()
      ensures NodeAdded(false, true)
    {
      AddNode(false, true);
    }

    /** `fill`: fill the pending node. */
    method Fill()
      requires Valid()
      modifies this
      ensures Valid()
      ensures NodeAdded(true, false)
    {
      AddNode(true, false);
    }

    /** `fillAndStroke`: fill and outline the pending node. */
    method FillAndStroke()
      requires Valid()
      modifies this
      ensures Valid()
      ensures NodeAdded(true, true)
    {
      AddNode(true, true);
    }

    /** `setLink`: a link opens an anchor appended to the root and makes it the root,
        remembering the previous root; no link returns to the remembered root, which stays
        remembered. */
    method SetLink(link: Option<string>)
      requires Valid()
      requires link.Some? || originalRoot.Some?
      modifies this
      ensures Valid()
      ensures link.None? ==> root == old(originalRoot).value && originalRoot == old(originalRoot) && slots == old(slots)
      ensures link.Some? ==>
        && originalRoot == Some(old(root))
        && root == |old(slots)|
        && slots == AppendTo(old(slots), old(root), Slot(|old(slots)|)) + [Anchor(link.value)]
      ensures state == old(state) && path == old(path) && node == old(node)
      ensures gradients == old(gradients) && refCount == old(refCount) && ids == old(ids)
    {
      if link.None? {
        root := originalRoot.value;
      } else {
        originalRoot := Some(root);
        var k := |slots|;
        slots := AppendTo(slots, root, Slot(k)) + [Anchor(link.value)];
        root := k;
      }
    }

    /** `rotate`: the painting state gains the rotation (see `RotateState`). */
    method Rotate(theta: real, flipH: bool, flipV: bool, cx: real, cy: real)
      requires Valid()
      modifies this
      ensures Valid()
      ensures state == RotateState(old(state), theta, flipH, flipV, cx, cy)
      ensures path == old(path) && node == old(node) && slots == old(slots) && root == old(root)
      ensures originalRoot == old(originalRoot) && gradients == old(gradients) && refCount == old(refCount) && ids == old(ids)
    {
      state := RotateState(state, theta, flipH, flipV, cx, cy);
    }

    /** `begin`: an empty path and a pending `path` element. */
    method Begin()
      requires Valid()
      modifies this
      ensures Valid()
      ensures path == Some([]) && node == Some(PathNode())
      ensures state == old(state) && slots == old(slots) && root == old(root) && originalRoot == old(originalRoot)
      ensures gradients == old(gradients) && refCount == old(refCount) && ids == old(ids)
    {
      path := Some([]);
      node := Some(PathNode());
    }

    /** `rect`: a pending rectangle. */
    method Rect(x: real, y: real, w: real, h: real)
      requires Valid()
      modifies this
      ensures Valid()
      ensures node == Some(RectNode(state, x, y, w, h))
      ensures state == old(state) && path == old(path) && slots == old(slots) && root == old(root)
      ensures originalRoot == old(originalRoot) && gradients == old(gradients) && refCount == old(refCount) && ids == old(ids)
    {
      node := Some(RectNode(state, x, y, w, h));
    }

    /** `roundrect`: a pending rectangle with corner radii. */
    method Roundrect(x: real, y: real, w: real, h: real, dx: real, dy: real)
      requires Valid()
      modifies this
      ensures Valid()
      ensures node == Some(RoundrectNode(state, x, y, w, h, dx, dy))
      ensures state == old(state) && path == old(path) && slots == old(slots) && root == old(root)
      ensures originalRoot == old(originalRoot) && gradients == old(gradients) && refCount == old(refCount) && ids == old(ids)
    {
      node := Some(RoundrectNode(state, x, y, w, h, dx, dy));
    }

    /** `ellipse`: a pending ellipse. */
    method Ellipse(x: real, y: real, w: real, h: real)
      requires Valid()
      modifies this
      ensures Valid()
      ensures node == Some(EllipseNode(state, x, y, w, h))
      ensures state == old(state) && path == old(path) && slots == old(slots) && root == old(root)
      ensures originalRoot == old(originalRoot) && gradients == old(gradients) && refCount == old(refCount) && ids == old(ids)
    {
      node := Some(EllipseNode(state, x, y, w, h));
    }

    /** `image`: the image, and the overlay when image pointer events are blocked, are
        appended to the root. `src` is the already converted source. */
    method Image(x: real, y: real, w: real, h: real, src: string, aspect: Option<bool>, flipH: Option<bool>,
                 flipV: Option<bool>)
      requires Valid()
      modifies this
      ensures Valid()
      ensures slots == AppendAll(old(slots), old(root), ImageNodes(state, opts, x, y, w, h, src, aspect, flipH, flipV))
      ensures state == old(state) && path == old(path) && node == old(node) && root == old(root)
      ensures originalRoot == old(originalRoot) && gradients == old(gradients) && refCount == old(refCount) && ids == old(ids)
    {
      AppendAllToRoot(ImageNodes(state, opts, x, y, w, h, src, aspect, flipH, flipV));
    }

    /** `createClip` placed in the document: appended to the defs section, or to the root
        when there is none, and its id registered when the document is the live one. */
    method AddClip(b: Box) returns (id: Id)
      requires Valid()
      modifies this
      ensures Valid()
      ensures id == ClipIdFor(old(ids), b) && id !in old(ids)
      ensures slots == AppendTo(old(slots), ClipSlot(defs, old(root)), Elem(ClipElement(id)))
      ensures ids == if opts.liveDocument then old(ids)[id := true] else old(ids)
      ensures state == old(state) && path == old(path) && node == old(node) && root == old(root)
      ensures originalRoot == old(originalRoot) && gradients == old(gradients) && refCount == old(refCount)
    {
      var clip;
      clip, id := CreateClip(ids, b.x, b.y, b.width, b.height);
      slots := AppendTo(slots, ClipSlot(defs, root), Elem(clip));
      if opts.liveDocument {
        ids := ids[id := true];
      }
    }

    /** What `plainText` does: the clip (when clipping a non-empty box) goes to the defs
        section or the root and, in a live document, its id is registered; then the group
        with the background and the rows is appended to the root. */
    twostate predicate PlainTextAdded(x: real, y: real, w: real, h: real, str: string, align: HAlign, valign: VAlign,
                                      overflow: Overflow, clip: bool, rotation: real, dir: Option<string>,
                                      measured: Option<Box>)
      reads this
      requires old(Valid())
    {
      var clips := ClipsText(clip, w, h);
      var cid := ClipIdFor(old(ids), ClipBox(old(state), x, y, w, h, align, valign, overflow));
      var withClip := if clips then AppendTo(old(slots), ClipSlot(defs, old(root)), Elem(ClipElement(cid)))
                      else old(slots);
      && |withClip| == |old(slots)|
      && slots == AppendTo(withClip, old(root),
                           Elem(PlainTextLabel(old(state), opts, x, y, w, h, str, align, valign, overflow, clip,
                                               rotation, dir, if clips then Some(cid) else None, measured)))
      && ids == (if clips && opts.liveDocument then old(ids)[cid := true] else old(ids))
      && state == old(state) && path == old(path) && node == old(node) && root == old(root)
      && originalRoot == old(originalRoot) && gradients == old(gradients) && refCount == old(refCount)
    }

    /** `plainText`. `measured` is the box the browser measured for backgrounds of overflows
        other than `fill`; a missing rotation counts as 0. */
    method PlainText(x: real, y: real, w: real, h: real, str: string, align: HAlign, valign: VAlign,
                     overflow: Overflow, clip: bool, rotation: Option<real>, dir: Option<string>, measured: Option<Box>)
      requires Valid()
      modifies this
      ensures Valid()
      ensures PlainTextAdded(x, y, w, h, str, align, valign, overflow, clip,
                             if rotation.Some? then rotation.value else 0.0, dir, measured)
    {
      var s := state;
      var rot := if rotation.Some? then rotation.value else 0.0;
      var clipId: Option<Id> := None;
      if ClipsText(clip, w, h) {
        var id := AddClip(ClipBox(s, x, y, w, h, align, valign, overflow));
        clipId := Some(id);
      }
      AppendAt(root, Elem(PlainTextLabel(s, opts, x, y, w, h, str, align, valign, overflow, clip, rot, dir, clipId, measured)));
    }

    /** Nothing the canvas holds has changed. */
    twostate predicate Unchanged()
      reads this
    {
      && slots == old(slots) && ids == old(ids) && state == old(state) && path == old(path) && node == old(node)
      && root == old(root) && originalRoot == old(originalRoot) && gradients == old(gradients)
      && refCount == old(refCount)
    }

    /** What `text` does with an HTML label placed at `p` with content `div`: its group is
        appended to the root and nothing else changes. */
    twostate predicate HtmlTextAdded(p: Placement, div: Element, dir: Option<string>)
      reads this
      requires old(Valid())
    {
      && slots == AppendTo(old(slots), old(root), Elem(HtmlLabel(old(state), opts, p, div, dir)))
      && ids == old(ids) && state == old(state) && path == old(path) && node == old(node)
      && root == old(root) && originalRoot == old(originalRoot) && gradients == old(gradients)
      && refCount == old(refCount)
    }

    /** What `text` does (see `Text`). */
    twostate predicate TextDrawn(x: real, y: real, w: real, h: real, str: Option<string>, align: HAlign, valign: VAlign,
                                 html: bool, overflow: Overflow, clip: bool, rotation: Option<real>, dir: Option<string>,
                                 div: Option<Element>, ow: real, oh: real, rotatePoint: PointRotation,
                                 measured: Option<Box>)
      reads this
      requires old(Valid())
    {
      var rot := if rotation.Some? then rotation.value else 0.0;
      if !opts.textEnabled || str.None? || (opts.foEnabled && html && div.None?) then Unchanged()
      else if opts.foEnabled && html then
        HtmlTextAdded(Place(old(state), opts, Moved(x, old(state).dx), Moved(y, old(state).dy), w, h, align, valign, overflow, clip,
                            rot, ow, oh, rotatePoint), div.value, dir)
      else
        PlainTextAdded(Moved(x, old(state).dx), Moved(y, old(state).dy), w, h, str.value, align, valign, overflow, clip, rot, dir,
                       measured)
    }

    /** `text`: nothing when text is disabled or the string is null. Otherwise the position
        is moved by the state's offset; an HTML label (when foreign objects are enabled)
        whose content `div` could be built is placed by the measured size `ow` x `oh` and
        its group appended to the root, and an invalid one is dropped; any other label is
        drawn by `plainText`. `div` stands for the converted HTML content, `rotatePoint` for
        the geometry helper the placement calls. */
    method Text(x: real, y: real, w: real, h: real, str: Option<string>, align: HAlign, valign: VAlign, html: bool,
                overflow: Overflow, clip: bool, rotation: Option<real>, dir: Option<string>, div: Option<Element>,
                ow: real, oh: real, rotatePoint: PointRotation, measured: Option<Box>)
      requires Valid()
      modifies this
      ensures Valid()
      ensures TextDrawn(x, y, w, h, str, align, valign, html, overflow, clip, rotation, dir, div, ow, oh, rotatePoint,
                        measured)
    {
      if !opts.textEnabled || str.None? {
        return;
      }
      if opts.foEnabled && html {
        if div.Some? {
          HtmlText(x, y, w, h, align, valign, overflow, clip, rotation, div.value, dir, ow, oh, rotatePoint);
        }
      } else {
        PlainText(Moved(x, state.dx), Moved(y, state.dy), w, h, str.value, align, valign, overflow, clip, rotation, dir, measured);
      }
    }

    /** The HTML branch of `text` for content `div` that could be built: the position moved
        by the state's offset, the label placed by its measured size and its group appended
        to the root. */
    method HtmlText(x: real, y: real, w: real, h: real, align: HAlign, valign: VAlign, overflow: Overflow, clip: bool,
                    rotation: Option<real>, div: Element, dir: Option<string>, ow: real, oh: real,
                    rotatePoint: PointRotation)
      requires Valid()
      modifies this
      ensures Valid()
      ensures HtmlTextAdded(Place(old(state), opts, Moved(x, old(state).dx), Moved(y, old(state).dy), w, h, align, valign, overflow,
                                  clip, if rotation.Some? then rotation.value else 0.0, ow, oh, rotatePoint),
                            div, dir)
    {
      AppendAt(root, Elem(HtmlLabel(state, opts, Place(state, opts, Moved(x, state.dx), Moved(y, state.dy), w, h, align, valign,
                                                      overflow, clip, if rotation.Some? then rotation.value else 0.0,
                                                      ow, oh, rotatePoint), div, dir)));
    }
  }
}
