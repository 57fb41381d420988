# A verified model of the mxGraph SVG canvas

This project models `MxSvgCanvas2D`, the canvas in `src/lib/board/mxGraph/util/mxSvgCanvas2D.js`.
The canvas turns drawing calls into SVG elements. It holds a painting state (colours,
alphas, scale, offset, transform, font), a pending shape (`node`) and its path, a gradient
cache with an export counter, and a root element that a link can redirect.

The model is written in Dafny 4.11 in nine modules:

- `Strings`: `Option`, ASCII lower-casing, newline splitting, and the escaping of parentheses in a URL base.
- `Numbers`: `Math.round`, `Math.floor`, `Math.ceil`, and `format` (`toFixed(2)`) over exact reals.
- `Svg`: the output elements. Each element has a name, a map of structured attribute values and ordered children.
- `PaintState`: the painting state and the canvas options.
- `Gradients`: `createGradientId`, `createSvgGradient` and the id probe of `getSvgGradient`.
- `Paint`: everything `addNode` does to a pending shape. This covers fill and stroke attributes, the dash array, the shadow and tolerance copies, pointer events and pruning.
- `Shapes`: `begin`, `rect`, `roundrect`, `ellipse`, `image` and `rotate`.
- `Text`: `plainText`, `updateFont`, `createClip`, the analytic branch of `addTextBackground`, and `createAlternateContent`.
- `Html`: how `text` places an HTML label once the browser has measured it, and the group it appends.
- `Canvas`: the class `SvgCanvas`. Its methods update the canvas fields as the source's methods do.

The document is a sequence of element slots. An element the canvas still appends into has
a slot of its own; this covers the root, a link anchor, the defs section and the svg
element. Its parent holds a `Slot` child pointing at it. Every other subtree is a value that
is appended once it is finished.

## Model

| member | source | states |
|---|---|---|
| Strings.OrElse | src/lib/board/mxGraph/util/mxSvgCanvas2D.js:379 | `a \|\| d`: a present, non-empty string is kept; a missing or empty one gives the default |
| Strings.Lower | src/lib/board/mxGraph/util/mxSvgCanvas2D.js:430 | `toLowerCase`: same length, each upper-case ASCII letter lowered, every other character kept, and the result has no upper-case letter |
| Strings.LowerIdempotent | src/lib/board/mxGraph/util/mxSvgCanvas2D.js:430 | lower-casing twice is lower-casing once |
| Strings.StripHash | src/lib/board/mxGraph/util/mxSvgCanvas2D.js:420-426 | exactly one leading `#` is removed; a string without one is unchanged |
| Strings.Split | src/lib/board/mxGraph/util/mxSvgCanvas2D.js:1989 | `split('\n')`: at least one piece, and no piece contains a newline |
| Strings.JoinSplit | src/lib/board/mxGraph/util/mxSvgCanvas2D.js:1989 | joining the pieces with newlines gives back the text, so no character of the label is lost |
| Strings.SplitJoin | src/lib/board/mxGraph/util/mxSvgCanvas2D.js:1989 | splitting newline-free lines joined by newlines gives back those lines |
| Strings.EscapeParens | src/lib/board/mxGraph/util/mxSvgCanvas2D.js:1954 | `replace(/([()])/g, '\\$1')`: never shorter, and a base without parentheses is unchanged |
| Strings.UnescapeEscape | src/lib/board/mxGraph/util/mxSvgCanvas2D.js:1954 | for a base without backslashes, unescaping undoes the escaping, so distinct bases stay distinct |
| Numbers.Round | src/lib/board/mxGraph/util/mxSvgCanvas2D.js:974-975 | `Math.round`: the integer within half a unit, halves going up |
| Numbers.Floor | src/lib/board/mxGraph/util/mxSvgCanvas2D.js:2187-2188 | `Math.floor`: the greatest integer not above the value |
| Numbers.Ceil | src/lib/board/mxGraph/util/mxSvgCanvas2D.js:2189-2190 | `Math.ceil`: the least integer not below the value |
| Numbers.Format | src/lib/board/mxGraph/util/mxSvgCanvas2D.js:279-281 | `format`: within 0.005 of the value and a whole number of hundredths |
| Numbers.FormatNegate | src/lib/board/mxGraph/util/mxSvgCanvas2D.js:279-281 | formatting is symmetric about zero |
| Numbers.FormatTiesAwayFromZero | src/lib/board/mxGraph/util/mxSvgCanvas2D.js:279-281 | a value halfway between two hundredths rounds away from zero, as `toFixed(2)` rounds the magnitude |
| Numbers.FormatKeepsHundredths | src/lib/board/mxGraph/util/mxSvgCanvas2D.js:279-281 | a value that is already a whole number of hundredths is kept |
| Numbers.FormatIdempotent | src/lib/board/mxGraph/util/mxSvgCanvas2D.js:279-281 | formatting twice is formatting once |
| Numbers.FormatMonotone | src/lib/board/mxGraph/util/mxSvgCanvas2D.js:279-281 | formatting keeps the order of values |
| PaintState.UrlBase | src/lib/board/mxGraph/util/mxSvgCanvas2D.js:654-665 | the base of a `url(...)` reference is empty for export documents and legacy browsers; otherwise it is the page address with parentheses escaped |
| Gradients.ColourPart | src/lib/board/mxGraph/util/mxSvgCanvas2D.js:420-431 | the colour in a gradient id has one leading `#` removed and is lower-cased |
| Gradients.CreateGradientId | src/lib/board/mxGraph/util/mxSvgCanvas2D.js:412-453 | south, or no direction, and east keep the colours and alphas in order; every other direction swaps them; north folds onto axis `s`, west onto `e`, and any other direction gives `null` |
| Gradients.NorthIsSwappedSouth | src/lib/board/mxGraph/util/mxSvgCanvas2D.js:436-450 | a north gradient has the id of the south, or no-direction, gradient with colours and alphas swapped |
| Gradients.WestIsSwappedEast | src/lib/board/mxGraph/util/mxSvgCanvas2D.js:436-450 | a west gradient has the id of the east gradient with colours and alphas swapped |
| Gradients.ColourPartOfLower | src/lib/board/mxGraph/util/mxSvgCanvas2D.js:420-431 | lower-casing a colour first does not change its part of the id |
| Gradients.IdIgnoresHashAndCase | src/lib/board/mxGraph/util/mxSvgCanvas2D.js:419-431 | colours that differ only by a leading `#` or by letter case give the same id |
| Gradients.CreateStop | src/lib/board/mxGraph/util/mxSvgCanvas2D.js:533-545 | a stop has exactly its offset and style; `stop-opacity` is present exactly when the alpha is below 1, and then it equals the alpha |
| Gradients.CreateSvgGradient | src/lib/board/mxGraph/util/mxSvgCanvas2D.js:510-548 | a `linearGradient` with exactly x1, y1, x2 and y2, and exactly two stops: the start colour at 0% and the end colour at 100%; the one coordinate at 100% is y2 for south or no direction, x2 for east, y1 for north and x1 for west |
| Gradients.IdDescribesGradient | src/lib/board/mxGraph/util/mxSvgCanvas2D.js:412-548 | for every named direction, the id's axis is the gradient's axis; its first colour and alpha belong to the stop painted at the top or left edge, and its second to the stop at the opposite edge |
| Gradients.EqualIdsPaintAlike | src/lib/board/mxGraph/util/mxSvgCanvas2D.js:460-503 | two requests with equal ids paint the same colours and opacities at the same edges along the same axis, so one cached element can serve both |
| Gradients.ProbeGradient | src/lib/board/mxGraph/util/mxSvgCanvas2D.js:473-482 | the probe loop ends on the least suffix whose id is free or names an element of this svg, and reports which of the two it is |
| Paint.CurrentStrokeWidth | src/lib/board/mxGraph/util/mxSvgCanvas2D.js:678-680 | at least 1, a whole number of hundredths, within 0.005 of max(1, width × scale), and exactly 1 when the scaled width is at most 1 |
| Paint.CreateDashPattern | src/lib/board/mxGraph/util/mxSvgCanvas2D.js:752-766 | one entry per pattern entry, each equal to that entry times the unit; no pattern gives no entries |
| Paint.FillValue | src/lib/board/mxGraph/util/mxSvgCanvas2D.js:644-669 | the fill is a reference to the gradient when there is one, else the fill colour in lower case |
| Paint.FillAttributes | src/lib/board/mxGraph/util/mxSvgCanvas2D.js:637-671 | `updateFill` changes only fill and fill-opacity; the opacity is alpha × fill alpha and is written only when one of them is below 1 |
| Paint.LineCapValue | src/lib/board/mxGraph/util/mxSvgCanvas2D.js:727-733 | `flat` becomes `butt`; any other cap is kept |
| Paint.JoinCapAndLimit | src/lib/board/mxGraph/util/mxSvgCanvas2D.js:719-745 | `updateStrokeAttributes` changes only the join, cap and miter limit; each is written only when set and not the default (`miter`; `butt` or `flat`; 10 when the style section is on) |
| Paint.StrokePaint | src/lib/board/mxGraph/util/mxSvgCanvas2D.js:687-700 | the stroke colour in lower case; the opacity only below 1; the width only when it is not 1; nothing else changes |
| Paint.StrokeAttributes | src/lib/board/mxGraph/util/mxSvgCanvas2D.js:687-712 | `updateStroke` changes only stroke attributes; join, cap and limit are touched on paths only; the dash array is written when dashed, scaled by the stroke width (or 1 for fixed dashes) times the scale |
| Paint.CreateShadow | src/lib/board/mxGraph/util/mxSvgCanvas2D.js:797-825 | the copy changes only fill, stroke, transform and opacity; fill and stroke take the shadow colour unless `none` (or, in Firefox, a `transparent` fill); the scaled, formatted shadow offset goes ahead of the state transform; the opacity is the shadow alpha |
| Paint.CreateTolerance | src/lib/board/mxGraph/util/mxSvgCanvas2D.js:773-790 | the copy is hidden and only its stroke is hit-tested; its stroke is `tolerance` wider; it has no dash array, no fill, and a white stroke (`none` in Opera); nothing else changes |
| Paint.WithPointerEvents | src/lib/board/mxGraph/util/mxSvgCanvas2D.js:602-612 | a hittable node (pointer events on, and not an open path) gets the active value; otherwise, outside a link and with pointer events off, it gets `none`; otherwise it is unchanged |
| Paint.WithPointerEventsAsWritten | src/lib/board/mxGraph/util/mxSvgCanvas2D.js:609 | as written, the rule behaves as if every node were inside a link |
| Paint.FillStep | src/lib/board/mxGraph/util/mxSvgCanvas2D.js:569-581 | filling with a colour applies `updateFill` and counts as filled; otherwise, without the style section, the fill is `none` (`transparent` for Firefox ellipses) and the node counts as unfilled |
| Paint.StrokeStep | src/lib/board/mxGraph/util/mxSvgCanvas2D.js:583-587 | stroking with a colour applies `updateStroke`; otherwise, without the style section, the stroke is `none` |
| Paint.DecorateFill | src/lib/board/mxGraph/util/mxSvgCanvas2D.js:569-591 | after `addNode`'s steps, the fill is the state's when filling, the explicit no-fill without the style section, and otherwise the node's own |
| Paint.DecorateStroke | src/lib/board/mxGraph/util/mxSvgCanvas2D.js:583-591 | after `addNode`'s steps, the stroke is the lower-cased colour when stroking, `none` without the style section, and otherwise the node's own |
| Paint.DecoratePathAndTransform | src/lib/board/mxGraph/util/mxSvgCanvas2D.js:560-591 | a path carries its joined tokens as `d`; the state transform is set when it is non-empty |
| Paint.ShadowPrecedesNode | src/lib/board/mxGraph/util/mxSvgCanvas2D.js:593-595 | the shadow is appended first, and everything after it is what would be appended without a shadow |
| Paint.NodeAppendedLastIffShown | src/lib/board/mxGraph/util/mxSvgCanvas2D.js:597-626 | the node is appended exactly when it is shown, once, after the shadow and tolerance copies |
| Paint.UnpaintedShapeIsPruned | src/lib/board/mxGraph/util/mxSvgCanvas2D.js:614-626 | a rect, path or ellipse with no fill and no stroke, without the style section, with pointer events off and outside a link, is not appended |
| Paint.StrictNullTestKeepsUnpaintedRect | src/lib/board/mxGraph/util/mxSvgCanvas2D.js:609-626 | as written, such a rect is still appended; under the intended test it is pruned |
| Shapes.PathNode | src/lib/board/mxGraph/util/mxSvgCanvas2D.js:927-930 | `begin` makes an empty `path` element |
| Shapes.RectNode | src/lib/board/mxGraph/util/mxSvgCanvas2D.js:937-946 | a rect with exactly x, y, width and height: the box moved by the offset, scaled and formatted |
| Shapes.RectIsDeviceBox | src/lib/board/mxGraph/util/mxSvgCanvas2D.js:937-946 | every rect attribute is the device box value to the hundredth |
| Shapes.RectExample | src/lib/board/mxGraph/util/mxSvgCanvas2D.js:937-946 | with offset (5, 5) and scale 2, `rect(10, 10, 50, 20)` is at (30, 30) and measures 100 by 40 |
| Shapes.RoundrectNode | src/lib/board/mxGraph/util/mxSvgCanvas2D.js:953-963 | the rect plus `rx` or `ry` exactly when the corner size is positive, scaled and formatted |
| Shapes.EllipseNode | src/lib/board/mxGraph/util/mxSvgCanvas2D.js:970-979 | exactly cx, cy, rx and ry; the centre is rounded to whole device units and the radii are scaled but not formatted |
| Shapes.EllipseCentreNear | src/lib/board/mxGraph/util/mxSvgCanvas2D.js:970-979 | the centre lies within half a unit of the device box's centre |
| Shapes.ImageFlip | src/lib/board/mxGraph/util/mxSvgCanvas2D.js:1030-1057 | no terms without a flip; otherwise a reflection then the scaled mirror translation |
| Shapes.ImageFlipMirrorsBox | src/lib/board/mxGraph/util/mxSvgCanvas2D.js:1030-1057 | flipping swaps the two edges of the image's device box, in each direction |
| Shapes.ImageNode | src/lib/board/mxGraph/util/mxSvgCanvas2D.js:1003-1018 | the image has its box, formatted and shifted by the image offset, and its source; its other attributes are those of `ImageOptional` |
| Shapes.ImageOptional | src/lib/board/mxGraph/util/mxSvgCanvas2D.js:1020-1073 | `preserveAspectRatio` only when the aspect is not kept; the opacity only below 1; the transform when there is one; pointer-events `none` only when pointer events are off; the blocking style only when image events are blocked |
| Shapes.ImageOverlay | src/lib/board/mxGraph/util/mxSvgCanvas2D.js:1072-1083 | the overlay is the image's rect, hidden but hit on its fill |
| Shapes.OverlayCoversImage | src/lib/board/mxGraph/util/mxSvgCanvas2D.js:1072-1083 | the overlay has the image's size, and its corner is the image's corner less the image offset |
| Shapes.RotationAngle | src/lib/board/mxGraph/util/mxSvgCanvas2D.js:874-903 | the angle gains 180 for a double flip and is negated for a single flip |
| Shapes.RotateState | src/lib/board/mxGraph/util/mxSvgCanvas2D.js:861-920 | no change for a zero angle without flips; otherwise the terms are appended, the angle is accumulated and the device centre is recorded; nothing else changes |
| Shapes.DoubleFlipIsHalfTurn | src/lib/board/mxGraph/util/mxSvgCanvas2D.js:874-876 | a double flip equals a rotation by 180 more without flips |
| Shapes.SingleFlipMirrors | src/lib/board/mxGraph/util/mxSvgCanvas2D.js:876-914 | a single flip appends a translation, the reflection and the inverse translation, then the negated rotation |
| Text.TextAnchor | src/lib/board/mxGraph/util/mxSvgCanvas2D.js:1964-1970 | `start` exactly for left, `middle` exactly for centre, `end` for right |
| Text.AlignOffsetMatchesAnchor | src/lib/board/mxGraph/util/mxSvgCanvas2D.js:1913-1921 | the box that clips and backgrounds shift by alignment has its anchor point at the text's x |
| Text.FontGroup | src/lib/board/mxGraph/util/mxSvgCanvas2D.js:2052-2075 | only font attributes: the font colour; the family unless it is the default under the style section; weight, style and decoration exactly for the style bits that are set |
| Text.AlternateContent | src/lib/board/mxGraph/util/mxSvgCanvas2D.js:359-405 | alternate text exists exactly when it is configured, as a `text` element holding it |
| Text.AltContentAttributes | src/lib/board/mxGraph/util/mxSvgCanvas2D.js:374-382 | the alternate text is centred in the label box (rounded), anchored in the middle, in the font colour (black by default), size and family |
| Text.AltTextSharesFontStyle | src/lib/board/mxGraph/util/mxSvgCanvas2D.js:384-397 | the alternate text has the same weight, style and decoration as the label's font group |
| Text.ClipElement | src/lib/board/mxGraph/util/mxSvgCanvas2D.js:1856-1867 | a `clipPath` with just the id, holding exactly one rect whose box is the id's box |
| Text.CreateClip | src/lib/board/mxGraph/util/mxSvgCanvas2D.js:1840-1868 | the box is rounded and the suffix is the least one under which no element exists, so the id is new |
| Text.Row | src/lib/board/mxGraph/util/mxSvgCanvas2D.js:2019-2026 | a row holds its line, at the formatted device x and baseline plus the text offset |
| Text.LayOutLines | src/lib/board/mxGraph/util/mxSvgCanvas2D.js:2017-2030 | the loop yields one row per non-blank line, each line spacing lower |
| Text.RowsHoldNonBlankLines | src/lib/board/mxGraph/util/mxSvgCanvas2D.js:2017-2030 | the rows hold exactly the non-blank lines, in order |
| Text.NoBreakSpaceLineIsSkipped | src/lib/board/mxGraph/util/mxSvgCanvas2D.js:2017-2030 | a line of only no-break spaces gets no row, and the next line's row is two line spacings below the first |
| Text.RowsBelow | src/lib/board/mxGraph/util/mxSvgCanvas2D.js:2017-2030 | no row is above the first baseline |
| Text.RowsDescend | src/lib/board/mxGraph/util/mxSvgCanvas2D.js:2017-2030 | each row is at or below the rows before it |
| Text.BaselinesOrdered | src/lib/board/mxGraph/util/mxSvgCanvas2D.js:1993-2015 | bottom-aligned text starts above middle-aligned text, which starts above top-aligned text |
| Text.BackgroundRect | src/lib/board/mxGraph/util/mxSvgCanvas2D.js:2183-2201 | background and border colours (`none` when unset), the box floored and grown outward, the border width, and the half-unit shift for odd widths in a live document |
| Text.BorderWidth | src/lib/board/mxGraph/util/mxSvgCanvas2D.js:2192-2193 | at least 1 with a border colour, 0 without |
| Text.BackgroundCoversBox | src/lib/board/mxGraph/util/mxSvgCanvas2D.js:2183-2190 | the rect starts at least a unit left of and above the box, reaches its right edge, and is at least as tall |
| Text.TextBackground | src/lib/board/mxGraph/util/mxSvgCanvas2D.js:2082-2204 | no background without a background or border colour; the analytic box for `fill` and `width`; the measured box otherwise |
| Text.TextTransform | src/lib/board/mxGraph/util/mxSvgCanvas2D.js:1894-1907 | the state transform, followed by a rotation about the formatted device position when the label is rotated |
| Text.TextGroupHead | src/lib/board/mxGraph/util/mxSvgCanvas2D.js:1893-1961 | the font group with only `direction` and `clip-path` added, each present exactly when a direction or clip is given |
| Text.TextGroup | src/lib/board/mxGraph/util/mxSvgCanvas2D.js:1964-1987 | the head with only the anchor (not for left), the font size (unless it is the default under the style section), the transform (when non-empty) and the opacity (below 1) added |
| Text.LabelRowsShowLines | src/lib/board/mxGraph/util/mxSvgCanvas2D.js:1989-2030 | a label's rows hold every non-blank line of its text, in order, top to bottom |
| Text.PlainTextShowsLines | src/lib/board/mxGraph/util/mxSvgCanvas2D.js:1989-2043 | the group holds at most one background rect first, then the rows of every non-blank line, in order, top to bottom |
| Html.HtmlSize | src/lib/board/mxGraph/util/mxSvgCanvas2D.js:1710-1720 | a clip caps the measured size by the box; `fill` keeps the box; `width` keeps the width and takes the measured height; any other overflow takes the measured size |
| Html.Place | src/lib/board/mxGraph/util/mxSvgCanvas2D.js:1710-1770 | the placed size is the size `HtmlSize` gives |
| Html.PlacedAtAnchor | src/lib/board/mxGraph/util/mxSvgCanvas2D.js:1726-1766 | without the shape's rotation, the point the alignment names is at the given point, lifted by the Firefox correction |
| Html.CentredOnTurnedShape | src/lib/board/mxGraph/util/mxSvgCanvas2D.js:1752-1763 | with the shape's rotation, the label's centre is the rotated centre of the unrotated box, and it turns about its own centre |
| Html.OwnRotationAboutAnchor | src/lib/board/mxGraph/util/mxSvgCanvas2D.js:1750-1770 | the label's own rotation comes last and pivots on the given point; there are no terms exactly when there is no scaling and no rotation |
| Html.LabelDiv | src/lib/board/mxGraph/util/mxSvgCanvas2D.js:1531-1535 | only `dir` changes, and only when a direction is given |
| Html.ForeignObject | src/lib/board/mxGraph/util/mxSvgCanvas2D.js:1524-1784 | visible overflow, all pointer events, the rounded size of at least 1, and the content as the only child |
| Html.HtmlLabel | src/lib/board/mxGraph/util/mxSvgCanvas2D.js:1518-1813 | a group with one child, the rounded translation plus the foreign-object offset followed by the placement terms, and the opacity below 1 |
| Html.Fallback | src/lib/board/mxGraph/util/mxSvgCanvas2D.js:1809-1812 | the fallback is a `switch` with exactly two children |
| Html.LabelStructure | src/lib/board/mxGraph/util/mxSvgCanvas2D.js:1786-1813 | without a fallback the foreign object is the only child; for export with alternate text, a `switch` holds the foreign object marked as needing the extensibility feature, then the alternate text |
| Canvas.Anchor | src/lib/board/mxGraph/util/mxSvgCanvas2D.js:838-849 | an empty `a` element linking to the target |
| Canvas.SvgGradientAsWritten | src/lib/board/mxGraph/util/mxSvgCanvas2D.js:468-502 | as written, a lookup returns exactly the cached ids and throws on every miss |
| Canvas.StrictNullTestThrowsOnFirstGradient | src/lib/board/mxGraph/util/mxSvgCanvas2D.js:468-502 | as written, the first gradient request throws; the intended lookup ends on an id whose element is created or already in this svg |
| Canvas.SvgCanvas.constructor | src/lib/board/mxGraph/util/mxSvgCanvas2D.js:64-133 | an empty cache, a zero counter, no pending node or path, no remembered root, and the given document, root, svg and defs |
| Canvas.SvgCanvas.Reset | src/lib/board/mxGraph/util/mxSvgCanvas2D.js:307-310 | the cache is emptied and the state reset; nothing else changes |
| Canvas.SvgCanvas.GetSvgGradient | src/lib/board/mxGraph/util/mxSvgCanvas2D.js:460-503 | a hit returns the cached id and appends nothing; an export miss returns `'id' + (refCount + 1)` and increments the counter; a live miss returns the probed id; the gradient is created and appended to the definitions exactly when its element does not already exist; the id is cached |
| Canvas.SvgCanvas.CacheGradient | src/lib/board/mxGraph/util/mxSvgCanvas2D.js:470-500 | the bookkeeping of a miss: probe or counter, the new id registered, the id cached, and whether to create the element |
| Canvas.SvgCanvas.FillGradient | src/lib/board/mxGraph/util/mxSvgCanvas2D.js:644-652 | a gradient is looked up exactly when the node is filled with a fill and a gradient colour; otherwise nothing changes |
| Canvas.SvgCanvas.AddNode | src/lib/board/mxGraph/util/mxSvgCanvas2D.js:555-628 | with no pending node, or an empty path, nothing changes; otherwise the gradient bookkeeping is done, the shadow, the tolerance copy and the node (unless pruned) are appended to the root in that order, and the pending node is cleared |
| Canvas.SvgCanvas.EmitNode | src/lib/board/mxGraph/util/mxSvgCanvas2D.js:569-628 | the same effect as `AddNode` for a node past the empty-path check |
| Canvas.SvgCanvas.Stroke | src/lib/board/mxGraph/util/mxSvgCanvas2D.js:2211-2213 | `addNode(false, true)` |
| Canvas.SvgCanvas.Fill | src/lib/board/mxGraph/util/mxSvgCanvas2D.js:2220-2222 | `addNode(true, false)` |
| Canvas.SvgCanvas.FillAndStroke | src/lib/board/mxGraph/util/mxSvgCanvas2D.js:2229-2231 | `addNode(true, true)` |
| Canvas.SvgCanvas.SetLink | src/lib/board/mxGraph/util/mxSvgCanvas2D.js:832-854 | a link appends an anchor to the root, makes it the root and remembers the old root; no link returns to the remembered root, which stays remembered |
| Canvas.SvgCanvas.Rotate | src/lib/board/mxGraph/util/mxSvgCanvas2D.js:861-920 | the state becomes `RotateState` of the old state; nothing else changes |
| Canvas.SvgCanvas.Begin | src/lib/board/mxGraph/util/mxSvgCanvas2D.js:927-930 | an empty path and a pending empty `path` element |
| Canvas.SvgCanvas.Rect | src/lib/board/mxGraph/util/mxSvgCanvas2D.js:937-946 | the pending node is the rect of the box |
| Canvas.SvgCanvas.Roundrect | src/lib/board/mxGraph/util/mxSvgCanvas2D.js:953-963 | the pending node is the rounded rect of the box |
| Canvas.SvgCanvas.Ellipse | src/lib/board/mxGraph/util/mxSvgCanvas2D.js:970-979 | the pending node is the ellipse of the box |
| Canvas.SvgCanvas.Image | src/lib/board/mxGraph/util/mxSvgCanvas2D.js:986-1084 | the image, then the overlay when image events are blocked, are appended to the root; nothing else changes |
| Canvas.SvgCanvas.AddClip | src/lib/board/mxGraph/util/mxSvgCanvas2D.js:1932-1944 | the clip has a new id and goes to the defs section, or to the root when there is none; a live document registers its id |
| Canvas.SvgCanvas.PlainText | src/lib/board/mxGraph/util/mxSvgCanvas2D.js:1876-2044 | the clip, when clipping a non-empty box, then the label group referencing it are appended; nothing else changes |
| Canvas.SvgCanvas.Text | src/lib/board/mxGraph/util/mxSvgCanvas2D.js:1458-1832 | nothing when text is disabled, the string is null, or the HTML content is invalid; otherwise the position is moved by the offset, and the label is drawn as an HTML group or by `plainText` |
| Canvas.SvgCanvas.HtmlText | src/lib/board/mxGraph/util/mxSvgCanvas2D.js:1480-1815 | the HTML label group, at its placement, is appended to the root; nothing else changes |

## Left out

- `convertHtml`, `createDiv`, `updateText` and the CSS style string of HTML labels: the label's XHTML content is an input, `div`, and `None` stands for an invalid label.
- Browser measurement: the measured HTML size (`ow`, `oh`) and the measured background box are inputs. The `getBBox` and off-screen `div` branches of `addTextBackground` are not modelled.
- Browser and environment flags (`IS_FF`, `IS_OT`, `IS_WIN`, `IS_IE`, `IS_EDGE`, `IS_CHROME_APP`, `root.ownerDocument === document`) are fields of `Options`.
- `rotatePoint` is a function parameter, because its trigonometry is not modelled.
- `MxAbstractCanvas2D` is not part of this model. This covers the path operators, `save` and `restore`, the state defaults and the state reset. `Reset` takes the reset state as a parameter.
- Numbers are exact reals, and the text JavaScript prints for numbers is not modelled. Attribute values keep their structure (numbers, transform terms, path tokens, ids).
- Numbers.Format: `toFixed(2)` on exact reals; IEEE double rounding is not modelled.
- Strings.Lower: lowers ASCII letters only; Unicode case mapping is not modelled.
- `MxUtils.trim` is not part of this model. `Text.Rows` takes a line as blank when every character is in JavaScript's `\s` class, which is what mxGraph's `trim` strips by default.
- Paint.CreateDashPattern: the pattern is given as parsed numbers; the `split(' ')` parse and the NaN that `Number` gives for a bad entry are not modelled.
- The constructor's search for an existing defs section, its insertion of a new one, and `createStyle`: the caller passes the slots of the svg element and the defs section.
- Canvas.SvgCanvas.constructor: requires a defs section or an svg element. Without either, the source throws on its first gradient.
- Canvas.SvgCanvas.SetLink: requires a link or a remembered root. Without either, the source sets the root to `undefined`.
- `converter.convert` in `image`: `src` is the converted source.
- Optional arguments tested with `=== null` (the image's aspect and flips, and the text's rotation and direction) are `Option`s, with `None` standing for `null`. A caller that omits such an argument passes `undefined`, which the strict tests do not catch; that case is not modelled.
- One map of element ids stands for the document that both id searches query. `createClip` queries the page's `document`, and `getSvgGradient` queries the svg's own document.
- `updateFont` is modelled on the fresh group that `plainText` creates, its only caller.
- Later changes to elements that were already appended are folded into the final value, which is appended once. This covers the background inserted into the text group, the image style set after the image is appended, and the HTML group filled after it is appended. The final tree is the same; the intermediate DOM states are not modelled.
- Gradients.IdDescribesGradient: covers the named directions and no direction. For any other direction both coordinates stay at 0% and the id's axis is `null`.

## Findings

| source | as written | input that shows it | evidently intended | confidence | as-written member | corrected member |
|---|---|---|---|---|---|---|
| src/lib/board/mxGraph/util/mxSvgCanvas2D.js:609 | `this.originalRoot === null`. The field is `undefined` until the first `setLink` and a node after it, so the test never holds and `pointer-events="none"` is never written. Then no shape is ever pruned (lines 614-626). | a `rect` drawn with `fill()` and no fill colour, the style section off, pointer events off, no link | `originalRoot == null` (as in mxGraph), so that `undefined` counts as no link | medium, not executed: `MxAbstractCanvas2D` is not part of this model, and the finding assumes it does not set `originalRoot` | Paint.StrictNullTestKeepsUnpaintedRect | Paint.UnpaintedShapeIsPruned |
| src/lib/board/mxGraph/util/mxSvgCanvas2D.js:470 | `gradient === null`. The cache is an array indexed by the id text, so a miss reads `undefined`: nothing is created or cached, and line 502 reads the id of `undefined` and throws | the first `fill()` of a shape with a fill and a gradient colour | `gradient == null` at both line 470 and line 488. On the export path `gradient` is still `undefined` when line 488 tests it, so fixing line 470 alone still creates nothing there, and line 502 still throws. With both fixed, a miss creates, appends and caches the gradient | high, not executed | Canvas.StrictNullTestThrowsOnFirstGradient | Canvas.SvgCanvas.GetSvgGradient |
