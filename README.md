# Canvas Studio drawing core, modelled in Dafny

Canvas Studio is a browser drawing app. Its logic lives in `script.js`, in
three parts, and this project models all three:

- **History manager** (`pushHistory`, `undo`, `redo`). Two stacks of
  whole-canvas snapshots. The undo stack holds at most 50 entries and evicts
  the oldest first. Every commit empties the redo stack. Undo and redo swap the
  current canvas between the two stacks.
- **Gesture controller** (`onPointerDown/Move/Up/Cancel`). Pen and eraser
  commit on pointer-down and then stroke on every move. Text commits, draws
  and ends the gesture at once. Shape tools take a baseline on pointer-down;
  each move restores it and draws one shape; pointer-up commits.
- **Style and geometry helpers**. `setCtxStyle` picks the composite mode and
  dash. `fillBackground` saves and restores the context. `drawRect` computes
  the square variant's extent. `drawPolygon` clamps the side count and builds
  its path in a loop.

How the model represents things:

- The canvas is the sequence of painting calls that produced it
  (`Surface.Mark`). Each call records its path and the context style it used.
  A snapshot is a whole value of that sequence. The empty sequence is a
  cleared, fully transparent canvas.
- The 2D context's state is `Style.Gfx` plus the current path
  (`seq<PathOp>`).
- Mutable state is the class `CanvasStudio.Studio`. Its fields are the
  module-level variables of `script.js`: the canvas, the context, the two
  stacks, `drawing`, the start and last points, and `startSnapshot`.
- Each history method is proved against the pure functions in module
  `History`. Those functions carry the lemmas: capacity, round trips, and
  eviction order.
- The settings record `state` is passed to every handler as a `Settings`
  value. The source reads `state` afresh on each event, so the tool can change
  in the middle of a gesture. The model allows this too. In that case a move
  restores whatever `startSnapshot` holds, even one left over from an earlier
  gesture, because the source never clears it.
- Whether `canvas.toDataURL` succeeds is the `encoded` parameter. In
  `pushHistory` a throw is caught and skips both the push and the redo clear.
  In `undo` and `redo` it would throw before any change, so nothing changes.
- The model takes pointer positions as integers, and on integers the extent
  arithmetic of `drawRect` (subtraction, absolute value, maximum, sign) is
  exact. In the source, positions are fractional after `getPointerPos`
  scales them (script.js:115-118).
- Undo and redo restore an entry by clearing the canvas and drawing the
  entry's image onto it (script.js:159-167). That drawing happens under the
  composite mode the context currently has. `Redrawn` models the effect:
  under destination-out nothing is drawn onto the cleared canvas, and under
  source-over or xor the entry comes back as it was.

Two behaviours of the code worth knowing:

- Cancelling a shape gesture does not roll the preview back:
  `onPointerCancel` only clears `drawing` (script.js:324-326), so the last
  preview stays on the canvas uncommitted. `PointerCancel` models that.
- Import commits before it fills the background (script.js:440-442). Import is
  not modelled.

## Model

| member | source | states |
|---|---|---|
| Geometry.DragSign | script.js:213-214 | the drag sign is -1 exactly for a negative delta, and 1 otherwise, including 0 |
| Geometry.RectExtent | script.js:207-215 | non-square: the extent is the drag delta; square: both sides have magnitude max(abs(w), abs(h)), each negative exactly when its delta is |
| Geometry.SquareCoversCursor | script.js:207-215 | the square's far corner is at or beyond the cursor on both axes, in the drag direction |
| Geometry.SquareFromVerticalDrag | script.js:211-215 | a drag from (10,10) to (10,40) gives a 30 by 30 square; the zero width counts as positive |
| Geometry.ToInt32 | script.js:243 | the 32-bit conversion of n lands in the signed 32-bit range, is congruent to n mod 2^32, and is n when n is already in range |
| Geometry.PolygonSides | script.js:243 | the side count drawn is at least 3; it is `sides` for 3 <= sides < 2^31, and 3 for in-range values up to 3 |
| Style.CompositeFor | script.js:127-131 | destination-out exactly for the eraser, whatever the xor flag; xor exactly for other tools with the flag set; source-over otherwise |
| Style.DashFor | script.js:126 | the dash is empty exactly when the dash length is not positive, and is otherwise the (dash, gap) pair |
| Style.ApplyStyle | script.js:121-132 | setCtxStyle copies width, cap, colours, the selected dash and composite mode, and leaves font and text baseline as they were |
| Style.ApplyStyleIdempotent | script.js:121-132 | running setCtxStyle again with the same settings changes nothing, and its result does not depend on the style it overwrites |
| Style.BackgroundGfx | script.js:134-144 | the background is painted with source-over, no dash and the background colour; nothing else differs from the context |
| Style.TextGfx | script.js:259-262 | drawText installs the settings' font and a top baseline and changes nothing else |
| Style.TextOrDefault | script.js:286 | the placed text is never empty: the input's value, or "Text" when it is empty |
| Surface.PolygonPath | script.js:242-254 | a polygon path of n sides has n + 1 calls, starts with a move to vertex 0 and ends with the close |
| Surface.ShapePath | script.js:303-313 | a path is drawn exactly for the shape tools; the line is move-to then line-to; the rectangle and the square are one rectangle with RectExtent; the polygon has the clamped side count plus one calls and ends with the close |
| Surface.ShapeMarks | script.js:216-219 | a preview frame paints something exactly for the shape tools, and every call in it is a fill or a stroke of the tool's path with the given context |
| Surface.PolygonVerticesAt | script.js:247-253 | after k iterations the loop has made k vertex calls, the i-th for vertex i |
| Surface.PolygonPathShape | script.js:242-254 | a polygon path is n vertex calls in index order (move to the first, line to each other) followed by a close |
| Surface.ShapeMarksOneShape | script.js:303-313 | one preview frame is a single shape: the stroke of the tool's path, preceded only by its fill when fill is on and the tool is not the line |
| History.PushCapped | script.js:149-150 | the pushed snapshot is on top and, from at most 50 entries, the stack is the newest 50 of old stack + [s] |
| History.Commit | script.js:146-156 | a commit keeps the canvas, puts it on top of the undo stack and empties redo; below capacity the old stack is kept whole, at capacity the oldest entry is dropped and the rest shift down; when encoding throws nothing changes |
| History.Undo | script.js:174-181 | with entries and a successful encoding: the popped top becomes the canvas, the rest of the undo stack stays, and the old canvas is pushed onto redo; otherwise nothing changes |
| History.Redo | script.js:183-190 | the mirror of undo: the top of redo becomes the canvas and the old canvas is pushed onto undo; otherwise nothing changes |
| History.UndoKeepsSnapshots | script.js:174-181 | undo loses no snapshot and makes none up: the canvas and the two stacks together hold the same multiset of snapshots before and after |
| History.RedoKeepsSnapshots | script.js:183-190 | the same conservation for redo |
| History.EmptyStacksAreNoOps | script.js:174-190 | undo with an empty undo stack, and redo with an empty redo stack, leave canvas and stacks unchanged |
| History.CommitSpec | script.js:146-156 | a commit keeps the canvas, leaves the newest 50 of undo + [canvas], empties redo so that redo becomes a no-op, and changes nothing when encoding throws |
| History.StepsKeepBounded | script.js:146-190 | commit, undo and redo preserve the bound of 50 on the two stacks' combined length, so redo never overfills the undo stack although it does not check capacity |
| History.UndoRedoInverse | script.js:174-190 | undo then redo, and redo then undo, each return exactly to the previous canvas and stacks |
| History.UndoAfterCommitKeepsCanvas | script.js:146-156 | an undo straight after a commit restores the canvas that was just committed, so the canvas shows no change |
| History.CommitDrawUndoRedo | script.js:146-190 | commit then draw: undo restores the committed canvas with only the drawing left to redo, redo brings the drawing back, and a commit at capacity has evicted the oldest entry |
| History.PushAllKeepsNewest | script.js:149-150 | any run of commits leaves exactly the newest 50 snapshots in order; from empty, N commits leave min(N, 50) |
| History.UndoNMovesEntries | script.js:174-181 | after k undos the undo stack is the old one without its top k entries, the canvas is the entry k places below the top of (old undo stack + old canvas), and the redo stack is the old one followed by the k states that were shown, in the order they were left |
| History.UndoNRedoN | script.js:174-190 | k undos followed by k redos restore the canvas and both stacks exactly |
| History.RunKeepsBounded | script.js:146-190 | from a bounded state, any sequence of commits, undos, redos and drawings keeps both stacks at 50 entries or fewer |
| CanvasStudio.Studio.constructor | script.js:541-551 | init leaves the background fill as the canvas and as the only undo entry, with nothing to redo and no gesture active |
| CanvasStudio.Studio.SetCtxStyle | script.js:121-132 | the context becomes ApplyStyle of the settings |
| CanvasStudio.Studio.FillBackground | script.js:134-144 | appends one full-canvas fill painted with BackgroundGfx, and the context's style afterwards is exactly what it was before |
| CanvasStudio.Studio.PushHistory | script.js:146-157 | the canvas and stacks become History.Commit of the old ones; the capacity invariant is kept |
| CanvasStudio.Redrawn | script.js:159-167 | clearing and then drawing an entry leaves nothing under destination-out and the entry itself under source-over or xor |
| CanvasStudio.Studio.DrawImage | script.js:159-165 | the canvas becomes Redrawn of the entry under the context's current composite mode |
| CanvasStudio.Studio.DrawImageOver | script.js:134-144 | corrected restore: the canvas becomes exactly the entry and the context's style is unchanged afterwards |
| CanvasStudio.Studio.Undo | script.js:174-181 | the stacks become those of History.Undo; when it undoes, the canvas is the popped entry as Redrawn under the current composite mode, so it equals History.Undo unless the mode is destination-out; the capacity invariant is kept |
| CanvasStudio.Studio.Redo | script.js:183-190 | the mirror of Undo for History.Redo |
| CanvasStudio.Studio.UndoWithSourceOver | script.js:174-181 | corrected undo: the canvas and stacks become exactly History.Undo of the old ones, and the context's style is unchanged |
| CanvasStudio.Studio.RedoWithSourceOver | script.js:183-190 | corrected redo: the canvas and stacks become exactly History.Redo of the old ones, and the context's style is unchanged |
| CanvasStudio.Restored | script.js:195-197 | the baseline when one was taken, otherwise the canvas as it is |
| CanvasStudio.Studio.TakeSnapshot | script.js:192-194 | the baseline becomes the current canvas |
| CanvasStudio.Studio.RestoreSnapshot | script.js:195-197 | the canvas becomes the baseline if one was ever taken, and is otherwise unchanged |
| CanvasStudio.Studio.DrawLine | script.js:200-205 | the path is move-to, line-to, and one stroke of it is appended |
| CanvasStudio.Studio.FillAndStroke | script.js:218-219 | the current path is filled when fill is enabled and is then stroked |
| CanvasStudio.Studio.DrawRect | script.js:207-220 | the path is one rectangle at the drag origin with RectExtent as its extent, filled (if enabled) and stroked |
| CanvasStudio.Studio.DrawCircle | script.js:222-229 | the path is one arc about the start point through the cursor, filled (if enabled) and stroked |
| CanvasStudio.Studio.DrawEllipse | script.js:231-240 | the path is one ellipse in the box of the two points, filled (if enabled) and stroked |
| CanvasStudio.Studio.DrawPolygon | script.js:242-257 | the loop builds PolygonPath with the clamped side count, which is then filled (if enabled) and stroked |
| CanvasStudio.Studio.DrawText | script.js:259-268 | installs the font and top baseline, then appends filled text when fill is on and outline text otherwise |
| CanvasStudio.Studio.PlaceText | script.js:284-286 | the text tool commits the canvas as it is, then installs the text font and draws the input's text, or "Text" when the input is empty, at the pointer |
| CanvasStudio.Studio.PointerDown | script.js:271-291 | pen/eraser: start a path and commit the pre-stroke canvas; text: commit, then draw the text, and leave drawing false; shapes: take the baseline and commit nothing |
| CanvasStudio.Studio.PointerMove | script.js:293-314 | no-op when not drawing; freehand: extend the path and stroke it; otherwise the canvas is the baseline plus one ShapeMarks frame from the start point to the cursor; never touches the stacks |
| CanvasStudio.Studio.PointerUp | script.js:316-322 | no-op when not drawing; ends the gesture; only a shape tool commits, and it commits the canvas with the shape drawn |
| CanvasStudio.Studio.PointerUpCommittingBaseline | script.js:316-322 | corrected pointer-up: a shape gesture commits its baseline instead |
| CanvasStudio.Studio.PointerCancel | script.js:324-326 | clears drawing and nothing else, so there is no commit |
| CanvasStudio.Studio.Clear | script.js:460-464 | commits the current canvas, then appends the background fill; the context's style is unchanged |
| CanvasStudio.Studio.ChangeBackground | script.js:373-381 | appends the background fill, then commits the filled canvas |
| CanvasStudio.ShapeGestureAsWritten | script.js:271-322 | down, two moves, up on a fresh canvas give the background plus exactly one shape to the last cursor, and the first undo leaves that canvas as it is |
| CanvasStudio.ShapeGesture | script.js:271-322 | the same gesture with the corrected pointer-up: one undo gives back the bare background, and redo gives back the shape |
| CanvasStudio.FreehandStrokeAsWritten | script.js:271-322 | a freehand stroke appends one stroke per move, each of the whole path so far; one undo removes the whole pen stroke, but after an eraser stroke it leaves a blank canvas |
| CanvasStudio.FreehandStroke | script.js:271-322 | the same stroke with the corrected undo: for the pen and the eraser alike, one undo brings back the canvas as it was before the stroke |
| CanvasStudio.BackgroundChangeAsWritten | script.js:373-381 | after a background change, the first undo shows the new background unchanged |
| CanvasStudio.BackgroundChangeCorrected | script.js:460-464 | committing before the fill, as the clear button does, lets one undo bring back the old background |

## Left out

- DOM wiring and UI glue are not modelled: radio and input bindings, hint text, grid and panel toggles, keyboard shortcuts, `resetSettings`, `updateHistoryButtons` and the confirm/alert dialogs. A modelled operation is simply called where the source would call it after a confirmation.
- Rasterization is not modelled, because `stroke`, `fill`, `arc`, `ellipse`, `fillText` and `strokeText` are browser calls. A painting call is recorded as a `Mark`.
- PNG encoding and decoding are not modelled. Snapshots are exact values, not PNG round trips.
- `drawImageFromDataUrl` is treated as synchronous. In the source, undo and redo restore the canvas later, in an `img.onload` callback.
- Floating-point geometry is not modelled: the DPR scaling in `getPointerPos`, the circle radius via `Math.hypot`, polygon vertex coordinates via `cos`/`sin` (a vertex is kept as its centre, radius point, index and count), and the ellipse centre and radii.
- The canvas's own validation of what it is handed is not modelled. It ignores a non-positive `lineWidth` and a `setLineDash` with a negative entry; the model records the values as `setCtxStyle` passes them.
- `setTransform` in `fillBackground` is not modelled, because no modelled operation changes the transform.
- `resizeCanvasPreserve` and the debounced resize timer are not modelled, because they involve floats, asynchrony and timers.
- CanvasStudio.Studio.constructor: does not model init's own resize (script.js:547). Its deferred redraw (script.js:99-105) runs after the background fill and the first commit (script.js:549-550). It clears the canvas and draws the blank bitmap captured before the resize. As the code is written, the canvas then shows no background, while the first undo entry still holds the fill. The model starts from the fill.
- Persistence and export are not modelled, because they are I/O: save, load, download and file import with its contain-fit scaling.
- `getImageData`/`putImageData` failures are not modelled. The baseline snapshot is assumed to always succeed.

## Findings

| source | as written | input that shows it | evidently intended | confidence | as-written member | corrected member |
|---|---|---|---|---|---|---|
| script.js:316-322 | a shape gesture commits on pointer-up, after the shape is drawn, so its undo entry already holds the shape | on a fresh canvas, drag a rectangle and release, then undo: the rectangle is still shown, and only a second undo removes it | the entry for a shape gesture is the canvas before the shape (its baseline), so one undo removes the shape, as it does for pen strokes and text | not executed | CanvasStudio.ShapeGestureAsWritten | CanvasStudio.ShapeGesture |
| script.js:159-167 | undo and redo redraw the popped entry under the context's current composite mode, and the eraser leaves that mode at destination-out (script.js:127-128) | on a fresh canvas, erase a stroke, then undo: the canvas is left blank, fully transparent, instead of showing the background | redraw the entry with source-over, saving and restoring the context as fillBackground does (script.js:134-144), so the entry comes back exactly | not executed | CanvasStudio.FreehandStrokeAsWritten | CanvasStudio.FreehandStroke |
| script.js:373-381 | a confirmed background change fills first and commits afterwards, so its undo entry already holds the new background | change the background colour and confirm, then undo: the new background is still shown | commit before filling, as the clear button does (script.js:460-464), so one undo restores the old canvas | not executed | CanvasStudio.BackgroundChangeAsWritten | CanvasStudio.BackgroundChangeCorrected |
