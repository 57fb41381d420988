/** The painting state every drawing call reads, the canvas's settings, and the library
    constants the canvas uses. */
module PaintState {
  import opened Strings
  import opened Svg

  /** `MxConstants.LINE_HEIGHT`. */
  const LineHeight: real := 1.2
  /** `MxConstants.DEFAULT_FONTSIZE`. */
  const DefaultFontSize: real := 11.0
  /** `MxConstants.DEFAULT_FONTFAMILY`. */
  const DefaultFontFamily: string := "Arial,Helvetica"
  /** `MxConstants.FONT_BOLD`, `FONT_ITALIC`, `FONT_UNDERLINE`: bits of the font style. */
  const FontBold: nat := 1
  const FontItalic: nat := 2
  const FontUnderline: nat := 4

  /** Horizontal alignment: `ALIGN_CENTER`, `ALIGN_RIGHT`, and every other value (the
      default, left). */
  datatype HAlign = Left | Center | Right
  /** Vertical alignment: `ALIGN_MIDDLE`, `ALIGN_BOTTOM`, and every other value (top). */
  datatype VAlign = Top | Middle | Bottom
  /** The text overflow setting: `'fill'`, `'width'`, and every other value. */
  datatype Overflow = OverflowFill | OverflowWidth | OverflowOther

  /** The painting state (`this.state`). Colours that may be null are options; the
      transform string is the sequence of its terms, the empty sequence standing for
      both null and `''`; `dashPattern` holds the numbers of the space-separated pattern
      string (`None` when it is not a string). */
  datatype State = State(
    dx: real, dy: real, scale: real,
    alpha: real, fillAlpha: real, strokeAlpha: real,
    fillColor: Option<string>,
    gradientColor: Option<string>, gradientFillAlpha: real, gradientAlpha: real,
    gradientDirection: Option<Direction>,
    strokeColor: Option<string>, strokeWidth: real,
    dashed: bool, dashPattern: Option<seq<real>>, fixDash: bool,
    lineJoin: Option<string>, lineCap: Option<string>, miterLimit: Option<real>,
    shadow: bool, shadowColor: string, shadowAlpha: real, shadowDx: real, shadowDy: real,
    transform: seq<TransformTerm>,
    rotation: real, rotationCx: real, rotationCy: real,
    fontColor: Option<string>, fontFamily: string, fontSize: real, fontStyle: nat,
    fontBackgroundColor: Option<string>, fontBorderColor: Option<string>)

  /** The canvas's settings (prototype fields of the canvas and of its abstract base) and
      the host environment it tests. */
  datatype Options = Options(
    styleEnabled: bool,
    pointerEvents: bool,
    pointerEventsValue: string,
    strokeTolerance: real,
    blockImagePointerEvents: bool,
    matchHtmlAlignment: bool,
    textEnabled: bool,
    foEnabled: bool,
    foAltText: Option<string>,
    foOffset: real,
    textOffset: real,
    imageOffset: real,
    rotateHtml: bool,
    closeOp: PathItem,
    // `root.ownerDocument === document`: false when writing an export document
    liveDocument: bool,
    // `MxClient.IS_FF`, `MxClient.IS_OT`, `IS_FF && IS_WIN`
    firefox: bool,
    opera: bool,
    firefoxOnWindows: bool,
    // `IS_CHROME_APP || IS_IE || IS_IE11 || IS_EDGE`
    legacyBrowser: bool,
    // `getBaseUrl()`: the page URL without its hash
    baseUrl: string)

  /** Whether one of the font style bits is set: `(style & bit) === bit`. */
  predicate HasStyle(style: nat, bit: nat)
    requires bit == FontBold || bit == FontItalic || bit == FontUnderline
  {
    if bit == FontBold then style % 2 == 1
    else if bit == FontItalic then (style / 2) % 2 == 1
    else (style / 4) % 2 == 1
  }

  /** The prefix of a `url(...)` reference: the escaped page URL when the output lives in
      the page (to survive a `<base>` tag), nothing otherwise. */
  function UrlBase(opts: Options): (b: string)
    ensures !opts.liveDocument || opts.legacyBrowser ==> b == ""
    ensures opts.liveDocument && !opts.legacyBrowser ==> b == EscapeParens(opts.baseUrl)
  {
    if !opts.legacyBrowser && opts.liveDocument then EscapeParens(opts.baseUrl) else ""
  }
}
