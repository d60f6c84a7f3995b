/** The raster surface, seen as the sequence of rendering commands that produced
    it. A command records the path it painted and the context style it was
    painted with; snapshots are whole values of this sequence. */
module Surface {
  import opened Geometry
  import opened Style

  /** A path vertex. Polygon vertices lie on the circle through `through`
      centred at `center`, the `index`-th of `sides` evenly spaced ones, the
      first pointing straight up; their floating-point coordinates are not
      modelled. */
  datatype Vertex =
    | At(p: Point)
    | PolyVertex(center: Point, through: Point, index: nat, sides: nat)

  /** The path-building calls of the 2D context. */
  datatype PathOp =
    | MoveTo(v: Vertex)
    | LineTo(v: Vertex)
    | RectTo(origin: Point, extent: Extent)
    | Arc(center: Point, through: Point)
    | EllipseIn(corner: Point, opposite: Point)
    | ClosePath

  /** One painting call and the state it painted with. */
  datatype Mark =
    | StrokePath(path: seq<PathOp>, g: Gfx)
    | FillPath(path: seq<PathOp>, g: Gfx)
    | FillText(text: string, at: Point, g: Gfx)
    | StrokeText(text: string, at: Point, g: Gfx)
    | FillCanvas(g: Gfx)

  /** The buffer contents, and equally a snapshot of them. */
  type Snapshot = seq<Mark>

  /** How every closed shape is painted: filled first when fill is enabled, so
      that the outline is stroked on top. */
  function Painted(path: seq<PathOp>, fillEnabled: bool, g: Gfx): seq<Mark>
  {
    (if fillEnabled then [FillPath(path, g)] else []) + [StrokePath(path, g)]
  }

  /** drawText: filled text when fill is enabled, outline text otherwise. */
  function TextMarks(text: string, at: Point, fillEnabled: bool, g: Gfx): seq<Mark>
  {
    if fillEnabled then [FillText(text, at, g)] else [StrokeText(text, at, g)]
  }

  function LinePath(a: Point, b: Point): seq<PathOp>
  {
    [MoveTo(At(a)), LineTo(At(b))]
  }

  function RectPath(a: Point, b: Point, square: bool): seq<PathOp>
  {
    [RectTo(a, RectExtent(a, b, square))]
  }

  /** The call drawPolygon's loop makes for vertex `i`: a move to the first
      vertex, a line to each later one. */
  function VertexOp(c: Point, q: Point, i: nat, n: nat): PathOp
  {
    if i == 0 then MoveTo(PolyVertex(c, q, 0, n)) else LineTo(PolyVertex(c, q, i, n))
  }

  /** The calls of the first `k` iterations of drawPolygon's loop. */
  function PolygonVertices(c: Point, q: Point, k: nat, n: nat): seq<PathOp>
  {
    if k == 0 then [] else PolygonVertices(c, q, k - 1, n) + [VertexOp(c, q, k - 1, n)]
  }

  /** The full polygon path: all `n` vertices, then the path is closed. */
  function PolygonPath(c: Point, q: Point, n: nat): (o: seq<PathOp>)
    ensures |o| == n + 1 && o[n] == ClosePath
    ensures n >= 1 ==> o[0] == MoveTo(PolyVertex(c, q, 0, n))
  {
    PolygonVerticesAt(c, q, n, n);
    PolygonVertices(c, q, n, n) + [ClosePath]
  }

  /** The loop visits vertex 0 .. k-1 in order, one call each. */
  lemma {:induction false} PolygonVerticesAt(c: Point, q: Point, k: nat, n: nat)
    ensures |PolygonVertices(c, q, k, n)| == k
    ensures forall i :: 0 <= i < k ==> PolygonVertices(c, q, k, n)[i] == VertexOp(c, q, i, n)
  {
    if k > 0 {
      PolygonVerticesAt(c, q, k - 1, n);
    }
  }

  /** A polygon of `n` sides is exactly `n` vertex calls, the first a move and
      every other a line, in index order, and a closing call. */
  lemma PolygonPathShape(c: Point, q: Point, n: nat)
    requires n >= 1
    ensures var o := PolygonPath(c, q, n);
      |o| == n + 1 && o[n] == ClosePath &&
      (forall i :: 0 <= i < n ==> o[i] == VertexOp(c, q, i, n)) &&
      o[0] == MoveTo(PolyVertex(c, q, 0, n)) &&
      (forall i :: 0 < i < n ==> o[i] == LineTo(PolyVertex(c, q, i, n)))
  {
    PolygonVerticesAt(c, q, n, n);
  }

  /** The path a shape tool draws for a drag from `a` to `b`; the other tools
      draw no shape. */
  function ShapePath(tool: Tool, a: Point, b: Point, sides: int): (p: seq<PathOp>)
    ensures p != [] <==> IsShape(tool)
    ensures tool == Polygon ==> |p| == PolygonSides(sides) + 1 && p[|p| - 1] == ClosePath
    ensures tool == Rect || tool == Square ==> p == [RectTo(a, RectExtent(a, b, tool == Square))]
    ensures tool == Line ==> p == [MoveTo(At(a)), LineTo(At(b))]
  {
    match tool
    case Line => LinePath(a, b)
    case Rect => RectPath(a, b, false)
    case Square => RectPath(a, b, true)
    case Circle => [Arc(a, b)]
    case Ellipse => [EllipseIn(a, b)]
    case Polygon => PolygonPath(a, b, PolygonSides(sides))
    case _ => []
  }

  /** What one preview frame of the current tool paints: a line is only
      stroked, the closed shapes are painted with fill as the settings say. */
  function ShapeMarks(st: Settings, a: Point, b: Point, g: Gfx): (m: seq<Mark>)
    ensures m != [] <==> IsShape(st.tool)
    ensures forall i :: 0 <= i < |m| ==>
      (m[i].StrokePath? || m[i].FillPath?) && m[i].g == g &&
      m[i].path == ShapePath(st.tool, a, b, st.polygonSides)
  {
    match st.tool
    case Line => [StrokePath(ShapePath(st.tool, a, b, st.polygonSides), g)]
    case Rect | Square | Circle | Ellipse | Polygon =>
      Painted(ShapePath(st.tool, a, b, st.polygonSides), st.fillEnabled, g)
    case _ => []
  }

  /** A preview frame is one shape: its stroke of the tool's path comes last,
      preceded only by the fill of that same path when fill is on and the
      tool is not the line. */
  lemma ShapeMarksOneShape(st: Settings, a: Point, b: Point, g: Gfx)
    requires IsShape(st.tool)
    ensures var m := ShapeMarks(st, a, b, g);
      var p := ShapePath(st.tool, a, b, st.polygonSides);
      1 <= |m| <= 2 && m[|m| - 1] == StrokePath(p, g) &&
      (|m| == 2 <==> st.fillEnabled && st.tool != Line) &&
      (|m| == 2 ==> m[0] == FillPath(p, g))
  {
  }
}
