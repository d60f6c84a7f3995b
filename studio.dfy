/** The drawing app's mutable core: the canvas, the context's style and current
    path, the undo/redo stacks, and the pointer-gesture state. */
module CanvasStudio {
  import opened Geometry
  import opened Style
  import opened Surface
  import History

  datatype Option<T> = None | Some(value: T)

  /** What restoreSnapshot leaves: the saved baseline when there is one,
      otherwise the canvas as it is. */
  function Restored(saved: Option<Snapshot>, canvas: Snapshot): (r: Snapshot)
    ensures saved.Some? ==> r == saved.value
    ensures saved.None? ==> r == canvas
  {
    match saved
    case Some(s) => s
    case None => canvas
  }

  /** What clearing the buffer and then drawing an entry onto it leaves.
      Destination-out only removes what is already there, so onto a cleared
      buffer it draws nothing; source-over and xor both draw the entry as it
      is where the buffer is transparent. */
  function Redrawn(entry: Snapshot, composite: Composite): (r: Snapshot)
    ensures composite == DestinationOut ==> r == []
    ensures composite != DestinationOut ==> r == entry
  {
    if composite == DestinationOut then [] else entry
  }

  class Studio {
    /** The buffer's contents. */
    var canvas: Snapshot
    /** The 2D context's style state and current path. */
    var gfx: Gfx
    var path: seq<PathOp>
    /** History, most recent entry last. */
    var undoStack: seq<Snapshot>
    var redoStack: seq<Snapshot>
    /** Gesture state. */
    var drawing: bool
    var start: Point
    var last: Point
    var startSnapshot: Option<Snapshot>

    /** The canvas and the history stacks, as the History module sees them. */
    function Hist(): History.Hist<Snapshot>
      reads this
    {
      History.Hist(canvas, undoStack, redoStack)
    }

    ghost predicate Valid()
      reads this
    {
      History.Bounded(Hist())
    }

    /** init: a blank canvas filled with the background colour, and that state
        committed as the first history entry. */
    constructor (background: string, encoded: bool)
      ensures Valid()
      ensures canvas == [FillCanvas(BackgroundGfx(InitialGfx, background))]
      ensures undoStack == (if encoded then [canvas] else []) && redoStack == []
      ensures gfx == InitialGfx && path == []
      ensures !drawing && startSnapshot == None
    {
      canvas := [];
      gfx := InitialGfx;
      path := [];
      undoStack := [];
      redoStack := [];
      drawing := false;
      start := Point(0, 0);
      last := Point(0, 0);
      startSnapshot := None;
      new;
      FillBackground(background);
      PushHistory(encoded);
    }

    /** setCtxStyle. */
    method SetCtxStyle(st: Settings)
      modifies this`gfx
      ensures gfx == ApplyStyle(st, old(gfx))
    {
      gfx := gfx.(lineWidth := st.lineWidth);
      gfx := gfx.(lineCap := st.lineCap);
      gfx := gfx.(strokeStyle := st.stroke);
      gfx := gfx.(fillStyle := st.fill);
      gfx := gfx.(lineDash := if st.dashOn > 0 then [st.dashOn, st.dashGap] else []);
      if st.tool == Eraser {
        gfx := gfx.(composite := DestinationOut);
      } else {
        gfx := gfx.(composite := if st.xor then Xor else SourceOver);
      }
    }

    /** fillBackground: paint the whole canvas with normal compositing and no
        dash; the context's style is saved before and restored after. */
    method FillBackground(color: string)
      modifies this`canvas, this`gfx
      ensures canvas == old(canvas) + [FillCanvas(BackgroundGfx(old(gfx), color))]
      ensures gfx == old(gfx)
    {
      var saved := gfx;
      var prev := gfx.composite;
      gfx := gfx.(composite := SourceOver);
      gfx := gfx.(lineDash := []);
      gfx := gfx.(fillStyle := color);
      canvas := canvas + [FillCanvas(gfx)];
      gfx := gfx.(composite := prev);
      gfx := saved;
    }

    /** pushHistory. `encoded` says whether encoding the canvas succeeded; when
        it throws, the push and the redo clear are both skipped. */
    method PushHistory(encoded: bool)
      requires Valid()
      modifies this`undoStack, this`redoStack
      ensures Valid()
      ensures Hist() == History.Commit(old(Hist()), encoded)
    {
      History.StepsKeepBounded(Hist(), encoded);
      if encoded {
        undoStack := undoStack + [canvas];
        if |undoStack| > History.MaxHistory {
          undoStack := undoStack[1..];
        }
        redoStack := [];
      }
    }

    /** drawImageFromDataUrl, with the image load taken as synchronous: the
        buffer is cleared to transparent and the entry is drawn onto it under
        the context's current composite mode. */
    method DrawImage(entry: Snapshot)
      modifies this`canvas
      ensures canvas == Redrawn(entry, gfx.composite)
    {
      canvas := [];
      if gfx.composite != DestinationOut {
        canvas := entry;
      }
    }

    /** The restore as evidently intended: save the context, draw with normal
        compositing, restore the context, as fillBackground does. */
    method DrawImageOver(entry: Snapshot)
      modifies this`canvas, this`gfx
      ensures canvas == entry
      ensures gfx == old(gfx)
    {
      var saved := gfx;
      gfx := gfx.(composite := SourceOver);
      DrawImage(entry);
      gfx := saved;
    }

    /** undo. The popped entry is redrawn under whatever composite mode the
        last gesture left, so after an eraser gesture the canvas comes back
        blank instead of as the entry. */
    method Undo(encoded: bool)
      requires Valid()
      modifies this`canvas, this`undoStack, this`redoStack
      ensures Valid()
      ensures var u := History.Undo(old(Hist()), encoded);
        undoStack == u.undo && redoStack == u.redo &&
        canvas == (if |old(undoStack)| > 0 && encoded then Redrawn(u.canvas, gfx.composite) else old(canvas))
      ensures gfx.composite != DestinationOut ==> Hist() == History.Undo(old(Hist()), encoded)
    {
      History.StepsKeepBounded(Hist(), encoded);
      if |undoStack| == 0 {
        return;
      }
      if !encoded {
        return;
      }
      var current := canvas;
      var previous := undoStack[|undoStack| - 1];
      undoStack := undoStack[..|undoStack| - 1];
      redoStack := redoStack + [current];
      DrawImage(previous);
    }

    /** redo, with the same redraw as undo. */
    method Redo(encoded: bool)
      requires Valid()
      modifies this`canvas, this`undoStack, this`redoStack
      ensures Valid()
      ensures var r := History.Redo(old(Hist()), encoded);
        undoStack == r.undo && redoStack == r.redo &&
        canvas == (if |old(redoStack)| > 0 && encoded then Redrawn(r.canvas, gfx.composite) else old(canvas))
      ensures gfx.composite != DestinationOut ==> Hist() == History.Redo(old(Hist()), encoded)
    {
      History.StepsKeepBounded(Hist(), encoded);
      if |redoStack| == 0 {
        return;
      }
      if !encoded {
        return;
      }
      var current := canvas;
      var next := redoStack[|redoStack| - 1];
      redoStack := redoStack[..|redoStack| - 1];
      undoStack := undoStack + [current];
      DrawImage(next);
    }

    /** undo as evidently intended: the popped entry comes back exactly,
        whatever tool was last used, and the context's style is kept. */
    method UndoWithSourceOver(encoded: bool)
      requires Valid()
      modifies this`canvas, this`gfx, this`undoStack, this`redoStack
      ensures Valid()
      ensures Hist() == History.Undo(old(Hist()), encoded)
      ensures gfx == old(gfx)
    {
      History.StepsKeepBounded(Hist(), encoded);
      if |undoStack| == 0 {
        return;
      }
      if !encoded {
        return;
      }
      var current := canvas;
      var previous := undoStack[|undoStack| - 1];
      undoStack := undoStack[..|undoStack| - 1];
      redoStack := redoStack + [current];
      DrawImageOver(previous);
    }

    /** redo as evidently intended, mirroring UndoWithSourceOver. */
    method RedoWithSourceOver(encoded: bool)
      requires Valid()
      modifies this`canvas, this`gfx, this`undoStack, this`redoStack
      ensures Valid()
      ensures Hist() == History.Redo(old(Hist()), encoded)
      ensures gfx == old(gfx)
    {
      History.StepsKeepBounded(Hist(), encoded);
      if |redoStack| == 0 {
        return;
      }
      if !encoded {
        return;
      }
      var current := canvas;
      var next := redoStack[|redoStack| - 1];
      redoStack := redoStack[..|redoStack| - 1];
      undoStack := undoStack + [current];
      DrawImageOver(next);
    }

    /** takeSnapshot: remember the canvas as the gesture's baseline. */
    method TakeSnapshot()
      modifies this`startSnapshot
      ensures startSnapshot == Some(canvas)
    {
      startSnapshot := Some(canvas);
    }

    /** restoreSnapshot: put the baseline back, if one was ever taken. */
    method RestoreSnapshot()
      modifies this`canvas
      ensures canvas == Restored(startSnapshot, old(canvas))
    {
      if startSnapshot.Some? {
        canvas := startSnapshot.value;
      }
    }

    method DrawLine(a: Point, b: Point)
      modifies this`canvas, this`path
      ensures path == LinePath(a, b)
      ensures canvas == old(canvas) + [StrokePath(path, gfx)]
    {
      path := [];
      path := path + [MoveTo(At(a))];
      path := path + [LineTo(At(b))];
      canvas := canvas + [StrokePath(path, gfx)];
    }

    /** Fill (when enabled) and then stroke the current path. */
    method FillAndStroke(fillEnabled: bool)
      modifies this`canvas
      ensures canvas == old(canvas) + Painted(path, fillEnabled, gfx)
    {
      if fillEnabled {
        canvas := canvas + [FillPath(path, gfx)];
      }
      canvas := canvas + [StrokePath(path, gfx)];
      assert canvas == old(canvas) + Painted(path, fillEnabled, gfx);
    }

    /** drawRect, with the square variant's extent from RectExtent. */
    method DrawRect(a: Point, b: Point, square: bool, fillEnabled: bool)
      modifies this`canvas, this`path
      ensures path == RectPath(a, b, square)
      ensures canvas == old(canvas) + Painted(path, fillEnabled, gfx)
    {
      var w := b.x - a.x;
      var h := b.y - a.y;
      var rw, rh := w, h;
      if square {
        var s := Max(Abs(w), Abs(h));
        rw := s * DragSign(w);
        rh := s * DragSign(h);
      }
      path := [RectTo(a, Extent(rw, rh))];
      FillAndStroke(fillEnabled);
    }

    method DrawCircle(c: Point, q: Point, fillEnabled: bool)
      modifies this`canvas, this`path
      ensures path == [Arc(c, q)]
      ensures canvas == old(canvas) + Painted(path, fillEnabled, gfx)
    {
      path := [Arc(c, q)];
      FillAndStroke(fillEnabled);
    }

    method DrawEllipse(a: Point, b: Point, fillEnabled: bool)
      modifies this`canvas, this`path
      ensures path == [EllipseIn(a, b)]
      ensures canvas == old(canvas) + Painted(path, fillEnabled, gfx)
    {
      path := [EllipseIn(a, b)];
      FillAndStroke(fillEnabled);
    }

    /** drawPolygon: clamp the side count, then one vertex call per side and a
        closing call. */
    method DrawPolygon(c: Point, q: Point, sides: int, fillEnabled: bool)
      modifies this`canvas, this`path
      ensures path == PolygonPath(c, q, PolygonSides(sides))
      ensures canvas == old(canvas) + Painted(path, fillEnabled, gfx)
    {
      var n := Max(MinPolygonSides, ToInt32(sides));
      path := [];
      for i := 0 to n
        invariant path == PolygonVertices(c, q, i, n)
        invariant canvas == old(canvas)
      {
        if i == 0 {
          path := path + [MoveTo(PolyVertex(c, q, i, n))];
        } else {
          path := path + [LineTo(PolyVertex(c, q, i, n))];
        }
      }
      path := path + [ClosePath];
      FillAndStroke(fillEnabled);
    }

    /** drawText: install the font and a top baseline, then fill or outline
        the text. */
    method DrawText(p: Point, text: string, st: Settings)
      modifies this`canvas, this`gfx
      ensures gfx == TextGfx(st, old(gfx))
      ensures canvas == old(canvas) + TextMarks(text, p, st.fillEnabled, gfx)
    {
      gfx := gfx.(font := Font(st.fontSize, st.fontFamily));
      gfx := gfx.(baseline := Top);
      if st.fillEnabled {
        canvas := canvas + [FillText(text, p, gfx)];
      } else {
        canvas := canvas + [StrokeText(text, p, gfx)];
      }
    }

    /** The text tool's pointer-down: commit, then draw the input's text (or
        the default word) at the pointer. */
    method PlaceText(p: Point, st: Settings, textValue: string, encoded: bool)
      requires Valid()
      modifies this`canvas, this`gfx, this`undoStack, this`redoStack
      ensures Valid()
      ensures gfx == TextGfx(st, old(gfx))
      ensures undoStack == History.Commit(old(Hist()), encoded).undo
      ensures redoStack == History.Commit(old(Hist()), encoded).redo
      ensures canvas == old(canvas) + TextMarks(TextOrDefault(textValue), p, st.fillEnabled, gfx)
    {
      PushHistory(encoded);
      var text := if textValue == [] then "Text" else textValue;
      DrawText(p, text, st);
    }

    /** onPointerDown. Freehand tools start a path and commit the canvas as it
        is before the stroke; text commits, draws the text and ends the gesture
        at once; shape tools only take the baseline. */
    method PointerDown(p: Point, st: Settings, textValue: string, encoded: bool)
      requires Valid()
      modifies this
      ensures Valid()
      ensures start == p && last == p
      ensures drawing <==> st.tool != Text
      ensures IsFreehand(st.tool) ==>
        gfx == ApplyStyle(st, old(gfx)) && path == [MoveTo(At(p))] &&
        Hist() == History.Commit(old(Hist()), encoded) &&
        startSnapshot == old(startSnapshot)
      ensures st.tool == Text ==>
        gfx == TextGfx(st, ApplyStyle(st, old(gfx))) && path == old(path) &&
        undoStack == History.Commit(old(Hist()), encoded).undo &&
        redoStack == History.Commit(old(Hist()), encoded).redo &&
        canvas == old(canvas) + TextMarks(TextOrDefault(textValue), p, st.fillEnabled, gfx) &&
        startSnapshot == old(startSnapshot)
      ensures IsShape(st.tool) ==>
        gfx == ApplyStyle(st, old(gfx)) && path == old(path) &&
        Hist() == old(Hist()) && startSnapshot == Some(old(canvas))
    {
      drawing := true;
      start, last := p, p;
      SetCtxStyle(st);
      if st.tool == Pen || st.tool == Eraser {
        path := [MoveTo(At(p))];
        PushHistory(encoded);
      } else if st.tool == Text {
        PlaceText(p, st, textValue, encoded);
        drawing := false;
      } else {
        TakeSnapshot();
      }
    }

    /** onPointerMove. Nothing happens outside a gesture. A freehand tool
        extends its path and strokes it; any other tool puts the baseline back
        and draws one shape from the start point to the cursor. */
    method PointerMove(p: Point, st: Settings)
      modifies this`canvas, this`gfx, this`path, this`last
      ensures !old(drawing) ==> unchanged(this)
      ensures old(drawing) ==> gfx == ApplyStyle(st, old(gfx))
      ensures old(drawing) && IsFreehand(st.tool) ==>
        path == old(path) + [LineTo(At(p))] &&
        canvas == old(canvas) + [StrokePath(path, gfx)] && last == p
      ensures old(drawing) && !IsFreehand(st.tool) ==>
        canvas == Restored(startSnapshot, old(canvas)) + ShapeMarks(st, start, p, gfx) &&
        last == old(last) &&
        path == (if IsShape(st.tool) then ShapePath(st.tool, start, p, st.polygonSides) else old(path))
    {
      if !drawing {
        return;
      }
      SetCtxStyle(st);
      if st.tool == Pen || st.tool == Eraser {
        path := path + [LineTo(At(p))];
        canvas := canvas + [StrokePath(path, gfx)];
        last := p;
      } else {
        RestoreSnapshot();
        match st.tool {
          case Line => DrawLine(start, p);
          case Rect => DrawRect(start, p, false, st.fillEnabled);
          case Square => DrawRect(start, p, true, st.fillEnabled);
          case Circle => DrawCircle(start, p, st.fillEnabled);
          case Ellipse => DrawEllipse(start, p, st.fillEnabled);
          case Polygon => DrawPolygon(start, p, st.polygonSides, st.fillEnabled);
          case _ =>
        }
      }
    }

    /** onPointerUp. Ends a gesture; only a shape tool commits, capturing the
        canvas with the shape drawn. */
    method PointerUp(st: Settings, encoded: bool)
      requires Valid()
      modifies this`drawing, this`undoStack, this`redoStack
      ensures Valid()
      ensures !old(drawing) ==> unchanged(this)
      ensures !drawing
      ensures old(drawing) && IsShape(st.tool) ==> Hist() == History.Commit(old(Hist()), encoded)
      ensures !IsShape(st.tool) ==> Hist() == old(Hist())
    {
      if !drawing {
        return;
      }
      drawing := false;
      if st.tool != Pen && st.tool != Eraser && st.tool != Text {
        PushHistory(encoded);
      }
    }

    /** onPointerUp as evidently intended: a shape gesture commits its
        baseline, the canvas as it was before the shape, so that one undo takes
        the shape away, as it does for a freehand stroke or a text. */
    method PointerUpCommittingBaseline(st: Settings, encoded: bool)
      requires Valid()
      modifies this`drawing, this`undoStack, this`redoStack
      ensures Valid()
      ensures !old(drawing) ==> unchanged(this)
      ensures !drawing
      ensures old(drawing) && IsShape(st.tool) ==>
        Hist() == History.Commit(History.Hist(Restored(startSnapshot, canvas), old(undoStack), old(redoStack)), encoded).(canvas := canvas)
      ensures !IsShape(st.tool) ==> Hist() == old(Hist())
    {
      if !drawing {
        return;
      }
      drawing := false;
      if st.tool != Pen && st.tool != Eraser && st.tool != Text {
        var baseline := Restored(startSnapshot, canvas);
        History.StepsKeepBounded(History.Hist(baseline, undoStack, redoStack), encoded);
        if encoded {
          undoStack := undoStack + [baseline];
          if |undoStack| > History.MaxHistory {
            undoStack := undoStack[1..];
          }
          redoStack := [];
        }
      }
    }

    /** onPointerCancel: end the gesture without a commit; whatever was drawn
        so far stays. */
    method PointerCancel()
      modifies this`drawing
      ensures !drawing
    {
      drawing := false;
    }

    /** The clear button (once confirmed): commit, then fill with the
        background colour. */
    method Clear(background: string, encoded: bool)
      requires Valid()
      modifies this`canvas, this`gfx, this`undoStack, this`redoStack
      ensures Valid()
      ensures undoStack == History.Commit(old(Hist()), encoded).undo
      ensures redoStack == History.Commit(old(Hist()), encoded).redo
      ensures canvas == old(canvas) + [FillCanvas(BackgroundGfx(gfx, background))]
      ensures gfx == old(gfx)
    {
      PushHistory(encoded);
      FillBackground(background);
    }

    /** A confirmed background change: fill with the new colour, then commit
        the filled canvas. */
    method ChangeBackground(background: string, encoded: bool)
      requires Valid()
      modifies this`canvas, this`gfx, this`undoStack, this`redoStack
      ensures Valid()
      ensures canvas == old(canvas) + [FillCanvas(BackgroundGfx(gfx, background))]
      ensures gfx == old(gfx)
      ensures Hist() == History.Commit(History.Hist(canvas, old(undoStack), old(redoStack)), encoded)
    {
      FillBackground(background);
      PushHistory(encoded);
    }
  }

  /** A whole shape gesture on a fresh canvas as the source runs it: down,
      two moves, up. The canvas then holds the background and exactly one
      shape, to the last cursor position; but the commit on pointer-up saved
      the canvas with the shape, so the first undo restores it unchanged. */
  method ShapeGestureAsWritten(st: Settings, background: string, a: Point, p: Point, q: Point)
    returns (final: Snapshot, undone: Snapshot)
    requires IsShape(st.tool)
    ensures final == [FillCanvas(BackgroundGfx(InitialGfx, background))] +
                     ShapeMarks(st, a, q, ApplyStyle(st, InitialGfx))
    ensures undone == final
  {
    var s := new Studio(background, true);
    s.PointerDown(a, st, "", true);
    s.PointerMove(p, st);
    assert s.gfx == ApplyStyle(st, InitialGfx);
    s.PointerMove(q, st);
    assert s.gfx == ApplyStyle(st, InitialGfx);
    s.PointerUp(st, true);
    final := s.canvas;
    assert s.undoStack[|s.undoStack| - 1] == final;
    assert s.gfx.composite != DestinationOut;
    s.Undo(true);
    undone := s.canvas;
  }

  /** The same gesture with the corrected pointer-up: the canvas holds the
      background and exactly one shape; one undo takes the shape away and
      redo brings it back. */
  method ShapeGesture(st: Settings, background: string, a: Point, p: Point, q: Point)
    returns (final: Snapshot, undone: Snapshot, redone: Snapshot)
    requires IsShape(st.tool)
    ensures var base := [FillCanvas(BackgroundGfx(InitialGfx, background))];
      final == base + ShapeMarks(st, a, q, ApplyStyle(st, InitialGfx)) &&
      undone == base && redone == final
  {
    var s := new Studio(background, true);
    var base := s.canvas;
    s.PointerDown(a, st, "", true);
    s.PointerMove(p, st);
    assert s.gfx == ApplyStyle(st, InitialGfx);
    s.PointerMove(q, st);
    assert s.gfx == ApplyStyle(st, InitialGfx);
    s.PointerUpCommittingBaseline(st, true);
    assert s.undoStack == [base, base];
    final := s.canvas;
    s.UndoWithSourceOver(true);
    undone := s.canvas;
    s.RedoWithSourceOver(true);
    redone := s.canvas;
  }

  /** A confirmed background change as the source runs it: the fill comes
      before the commit, so the first undo restores the new background. */
  method BackgroundChangeAsWritten(first: string, second: string)
    returns (changed: Snapshot, undone: Snapshot)
    ensures changed == [FillCanvas(BackgroundGfx(InitialGfx, first)),
                        FillCanvas(BackgroundGfx(InitialGfx, second))]
    ensures undone == changed
  {
    var s := new Studio(first, true);
    s.ChangeBackground(second, true);
    changed := s.canvas;
    s.Undo(true);
    undone := s.canvas;
  }

  /** A background change that commits before filling, as the clear button
      does: one undo brings back the old background. */
  method BackgroundChangeCorrected(first: string, second: string)
    returns (changed: Snapshot, undone: Snapshot)
    ensures changed == [FillCanvas(BackgroundGfx(InitialGfx, first)),
                        FillCanvas(BackgroundGfx(InitialGfx, second))]
    ensures undone == [FillCanvas(BackgroundGfx(InitialGfx, first))]
  {
    var s := new Studio(first, true);
    s.Clear(second, true);
    changed := s.canvas;
    s.UndoWithSourceOver(true);
    undone := s.canvas;
  }

  /** A whole freehand stroke on a fresh canvas as the source runs it: down,
      two moves, up, undo. The stroke is drawn segment by segment, and a
      single undo removes all of it with the pen; after the eraser, the
      context is still in destination-out mode, so the undo leaves a blank
      canvas instead of the background. */
  method FreehandStrokeAsWritten(st: Settings, background: string, a: Point, p: Point, q: Point)
    returns (final: Snapshot, undone: Snapshot)
    requires IsFreehand(st.tool)
    ensures var base := [FillCanvas(BackgroundGfx(InitialGfx, background))];
      var g := ApplyStyle(st, InitialGfx);
      final == base + [StrokePath([MoveTo(At(a)), LineTo(At(p))], g),
                       StrokePath([MoveTo(At(a)), LineTo(At(p)), LineTo(At(q))], g)] &&
      undone == (if st.tool == Eraser then [] else base)
  {
    var s := new Studio(background, true);
    var base := s.canvas;
    s.PointerDown(a, st, "", true);
    assert s.undoStack == [base, base];
    s.PointerMove(p, st);
    assert s.path == [MoveTo(At(a)), LineTo(At(p))];
    assert s.gfx == ApplyStyle(st, InitialGfx);
    assert s.canvas == base + [StrokePath([MoveTo(At(a)), LineTo(At(p))], s.gfx)];
    s.PointerMove(q, st);
    assert s.path == [MoveTo(At(a)), LineTo(At(p)), LineTo(At(q))];
    assert s.gfx == ApplyStyle(st, InitialGfx);
    s.PointerUp(st, true);
    assert s.undoStack == [base, base];
    final := s.canvas;
    assert final == base + [StrokePath([MoveTo(At(a)), LineTo(At(p))], s.gfx)]
                         + [StrokePath([MoveTo(At(a)), LineTo(At(p)), LineTo(At(q))], s.gfx)];
    s.Undo(true);
    undone := s.canvas;
  }

  /** The same stroke with the corrected undo: for the pen and the eraser
      alike, a single undo brings back the canvas as it was before the
      stroke. */
  method FreehandStroke(st: Settings, background: string, a: Point, p: Point, q: Point)
    returns (final: Snapshot, undone: Snapshot)
    requires IsFreehand(st.tool)
    ensures var base := [FillCanvas(BackgroundGfx(InitialGfx, background))];
      var g := ApplyStyle(st, InitialGfx);
      final == base + [StrokePath([MoveTo(At(a)), LineTo(At(p))], g),
                       StrokePath([MoveTo(At(a)), LineTo(At(p)), LineTo(At(q))], g)] &&
      undone == base
  {
    var s := new Studio(background, true);
    var base := s.canvas;
    s.PointerDown(a, st, "", true);
    assert s.undoStack == [base, base];
    s.PointerMove(p, st);
    assert s.path == [MoveTo(At(a)), LineTo(At(p))];
    assert s.gfx == ApplyStyle(st, InitialGfx);
    assert s.canvas == base + [StrokePath([MoveTo(At(a)), LineTo(At(p))], s.gfx)];
    s.PointerMove(q, st);
    assert s.path == [MoveTo(At(a)), LineTo(At(p)), LineTo(At(q))];
    assert s.gfx == ApplyStyle(st, InitialGfx);
    s.PointerUp(st, true);
    assert s.undoStack == [base, base];
    final := s.canvas;
    assert final == base + [StrokePath([MoveTo(At(a)), LineTo(At(p))], s.gfx)]
                         + [StrokePath([MoveTo(At(a)), LineTo(At(p)), LineTo(At(q))], s.gfx)];
    s.UndoWithSourceOver(true);
    undone := s.canvas;
  }
}
