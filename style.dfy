/** The user's settings, the drawing context's style state, and the way
    setCtxStyle, fillBackground and drawText derive one from the other. */
module Style {

  /** The drawing tools; exactly one is selected at a time. */
  datatype Tool = Pen | Eraser | Line | Rect | Square | Circle | Ellipse | Polygon | Text

  /** Freehand tools draw straight onto the canvas as the pointer moves. */
  predicate IsFreehand(t: Tool)
  {
    t == Pen || t == Eraser
  }

  /** Shape tools preview on a baseline and commit when the pointer is released. */
  predicate IsShape(t: Tool)
  {
    !IsFreehand(t) && t != Text
  }

  datatype LineCap = CapButt | CapRound | CapSquare

  /** The canvas's `globalCompositeOperation` values the app uses. */
  datatype Composite = SourceOver | DestinationOut | Xor

  /** The canvas's `textBaseline` values the app uses. */
  datatype Baseline = Alphabetic | Top

  /** A CSS font `<size>px <family>`. */
  datatype Font = Font(size: int, family: string)

  /** The app's settings record, as the form controls leave it. */
  datatype Settings = Settings(
    tool: Tool,
    stroke: string,
    fill: string,
    fillEnabled: bool,
    background: string,
    lineWidth: int,
    lineCap: LineCap,
    dashOn: int,
    dashGap: int,
    xor: bool,
    polygonSides: int,
    fontSize: int,
    fontFamily: string)

  /** The style state of the 2D drawing context. */
  datatype Gfx = Gfx(
    lineWidth: int,
    lineCap: LineCap,
    strokeStyle: string,
    fillStyle: string,
    lineDash: seq<int>,
    composite: Composite,
    font: Font,
    baseline: Baseline)

  /** A fresh 2D context's style state. */
  const InitialGfx: Gfx :=
    Gfx(1, CapButt, "#000000", "#000000", [], SourceOver, Font(10, "sans-serif"), Alphabetic)

  /** The composite mode setCtxStyle selects: the eraser always clears, whatever
      the xor flag says; every other tool uses xor exactly when it is enabled. */
  function CompositeFor(tool: Tool, xor: bool): (c: Composite)
    ensures c == DestinationOut <==> tool == Eraser
    ensures c == Xor <==> tool != Eraser && xor
    ensures c == SourceOver <==> tool != Eraser && !xor
  {
    if tool == Eraser then DestinationOut
    else if xor then Xor else SourceOver
  }

  /** The dash pattern setCtxStyle installs: solid unless the dash length is
      positive, and then the (dash, gap) pair. */
  function DashFor(on: int, gap: int): (d: seq<int>)
    ensures d == [] <==> on <= 0
    ensures d != [] ==> d == [on, gap]
  {
    if on > 0 then [on, gap] else []
  }

  /** setCtxStyle: copy the settings into the context. Font and text baseline
      are not touched, so whatever the last drawText installed stays. */
  function ApplyStyle(st: Settings, g: Gfx): (r: Gfx)
    ensures r.lineWidth == st.lineWidth && r.lineCap == st.lineCap
    ensures r.strokeStyle == st.stroke && r.fillStyle == st.fill
    ensures r.lineDash == DashFor(st.dashOn, st.dashGap)
    ensures r.composite == CompositeFor(st.tool, st.xor)
    ensures r.font == g.font && r.baseline == g.baseline
  {
    g.(lineWidth := st.lineWidth, lineCap := st.lineCap,
       strokeStyle := st.stroke, fillStyle := st.fill,
       lineDash := DashFor(st.dashOn, st.dashGap),
       composite := CompositeFor(st.tool, st.xor))
  }

  /** setCtxStyle runs on pointer-down and again on every move; running it
      twice with the same settings is the same as running it once, and what
      it leaves does not depend on the style it overwrote. */
  lemma ApplyStyleIdempotent(st: Settings, g: Gfx, g': Gfx)
    ensures ApplyStyle(st, ApplyStyle(st, g)) == ApplyStyle(st, g)
    ensures g.font == g'.font && g.baseline == g'.baseline ==> ApplyStyle(st, g) == ApplyStyle(st, g')
  {
  }

  /** The state fillBackground paints with: normal compositing, no dash, the
      background colour; everything else as the context had it. */
  function BackgroundGfx(g: Gfx, color: string): (r: Gfx)
    ensures r.composite == SourceOver && r.lineDash == [] && r.fillStyle == color
    ensures r.(composite := g.composite, lineDash := g.lineDash, fillStyle := g.fillStyle) == g
  {
    g.(composite := SourceOver, lineDash := [], fillStyle := color)
  }

  /** The state drawText leaves: the settings' font and a top baseline. */
  function TextGfx(st: Settings, g: Gfx): (r: Gfx)
    ensures r.font == Font(st.fontSize, st.fontFamily) && r.baseline == Top
    ensures r.(font := g.font, baseline := g.baseline) == g
  {
    g.(font := Font(st.fontSize, st.fontFamily), baseline := Top)
  }

  /** `textInputEl.value || 'Text'`: an empty text field places the word "Text". */
  function TextOrDefault(value: string): (r: string)
    ensures r != []
    ensures value != [] ==> r == value
    ensures value == [] ==> r == "Text"
  {
    if value == [] then "Text" else value
  }
}
