# Window-dragging canvas: interaction state machine

This project models the core of a browser-based experiment. Rectangular
"windows" are dragged on a canvas into a red target zone while a gaze
tracker's samples are logged. The logged session can later be replayed.
Here the JavaScript `CanvasState` and its callbacks become an immutable `Scene`
record and one pure function per event or tick:

- `Shapes`: the shape record, the constructor with its truthiness defaults,
  inclusive containment, `Window.fromJson`, and the copy the recorder takes.
- `Scenes`: the scene record, the selection, `addShape`, and `draw`. `draw`
  returns a `Frame` (the shape indices painted, in order, and the outlined
  selection) instead of calling the canvas API.
- `Pointer`: press (reverse-index hit test), move (drag, with optional
  per-axis mirroring about the anchor) and release.
- `Tick`: the draw interval (falling step, skip-frames throttle, gated draw)
  and the completion check.
- `Setup`: `init`'s windows and target zone, the start button, and the
  self-guiding walk.
- `Recorder`: the gaze listener's log and the replay button's step.

Two modelling choices follow the JavaScript object semantics:

- The selection is `NoSel`, `Sel(i)` (the shape at index `i`) or
  `Detached(shape)`. The replay step replaces the shape list without clearing
  the selection. The selected object then lives on outside the list: `draw`
  still outlines it and a drag still moves it.
- Some callbacks dereference a null selection: `mousemove` while dragging with
  no selection, and the throttle branch of the draw tick. These return an
  `Outcome` with `fault = true`. The mutations made before the `TypeError`
  are kept, and the rest of the callback is skipped.

Two edge cases of the event handlers:

- A press that hits only non-selectable shapes, such as the target zone,
  clears the selection like any other miss.
- With `skipframes = 0`, the JavaScript `t % 0` is NaN. A drag then never
  redraws through the throttle, and the selection stays hidden.

Coordinates are Dafny `real`s. The recorder's `mx || 0` keeps the pointer
position as it is, so a position of 0 and a missing one both log 0.
JavaScript `%` is modelled as the truncating remainder, with NaN (`None`) for
a zero divisor.

## Model

| member | source | states |
|---|---|---|
| Shapes.MakeShape | js/test.js:14-23 | the constructor keeps `x`/`y` exactly as given (their falsy default 0 coincides with 0), turns a 0 or missing width/height into 1, and a missing or empty fill/name into the defaults; the result is always visible, never has zero extent, and `selectable` is stored unchanged |
| Shapes.Contains | js/test.js:29-34 | a point is contained iff it lies in the closed intervals `[x, x+w]` and `[y, y+h]`, both edges inclusive |
| Shapes.ContainsCorners | js/test.js:29-34 | all four corners of a rectangle with non-negative extent count as contained (both edges inclusive on both axes) |
| Shapes.ContainsTranslate | js/test.js:29-34 | containment is invariant under moving the shape and the point by the same displacement |
| Shapes.FromJson | js/test.js:41-43 | `fromJson` keeps the record's position, keeps its extent when the record is a constructed shape, puts the record's `visible` flag into `selectable`, and always yields a visible window with default fill and name |
| Shapes.CloneWindow | js/test.js:494-495 | the recorder's copy is a window with the original's `visible` and `selectable` flags, and equals the original whenever the original is a constructed window |
| Shapes.MakeShapeIdempotent | js/test.js:14-23 | re-running the constructor on a constructed visible shape's own fields reproduces it: the truthiness defaults never fire twice |
| Scenes.NewScene | js/test.js:83-116 | a fresh state has no shapes, no selection, no pointer position and zero drag offsets, is not dragging, is invalid, has counter -1, and has falling switched off whatever the configuration says (lines 272-273) |
| Scenes.AddShape | js/test.js:395-398 | the shape is appended on top of the z-order, earlier shapes are unchanged, the canvas becomes invalid, and every other field of the state is kept |
| Scenes.AddShapeDrawn | js/test.js:395-423 | after `addShape`, the next `draw` paints a frame; the new shape is painted iff it is visible and not off the canvas, and every other painted index is an earlier unculled shape |
| Scenes.Culled | js/test.js:420-421 | `draw` skips a shape that is invisible or lies wholly beyond `width`, beyond `height`, left of 0 or above 0 |
| Scenes.PaintedFromSpec | js/test.js:416-423 | the painting loop from index `i` yields a strictly increasing index list holding exactly the later shapes that are visible and not wholly off-canvas |
| Scenes.PaintedSpec | js/test.js:416-423 | `draw` paints, in index order, exactly the visible shapes not lying entirely beyond `width`, `height` or the origin |
| Scenes.Draw | js/test.js:406-438 | `draw` is a no-op on a valid canvas; otherwise it paints one frame whose outline is present iff there is a selection; it changes no shape and always leaves the canvas valid |
| Scenes.DrawIdempotent | js/test.js:406-438 | a second `draw` right after a first paints nothing and changes nothing |
| Pointer.HitBelow | js/test.js:139-153 | the scan below index `n` returns the highest index whose shape contains the point and is selectable, and returns nothing only if no such shape exists |
| Pointer.HitScan | js/test.js:137-153 | the reverse `for` loop returns the topmost selectable shape containing the point; non-selectable shapes above it are passed over |
| Pointer.Press | js/test.js:130-160 | a press selects iff some selectable shape contains the point, and then picks the topmost one, records the grab offset and the anchor, starts dragging and invalidates; a miss clears any selection and invalidates only if there was one; no shape moves in either case, and apart from the pointer, the selection, the drag fields and `valid`, nothing in the state changes |
| Pointer.Move | js/test.js:161-192 | while dragging, only the selection moves, only in `x`/`y`, to pointer minus offset, or mirrored about the anchor on an inverted axis, and the canvas is invalidated; the drag flag, offsets, anchor, configuration and counter are kept, and an index selection stays the same index; with no selection it throws; when not dragging no shape changes; the pointer position is always kept |
| Pointer.Release | js/test.js:193-195 | release ends the drag and changes nothing else in the state |
| Pointer.ReleaseEndsDrag | js/test.js:161-195 | after a release, a pointer move only records the pointer position: it moves no shape, paints nothing and does not throw |
| Pointer.PressMoveBack | js/test.js:144-181 | after a press on a shape, moving the pointer back to the press point restores every shape, with or without axis inversion |
| Pointer.DragTracksPointer | js/test.js:161-186 | during a non-inverted drag, after any number of moves the selection sits at the last pointer position minus the offset fixed at press time, and no other shape has moved |
| Tick.Fall | js/test.js:279-292 | the falling step moves exactly the visible, unselected windows that stay on the canvas by 0.9 downwards, leaves every other shape as it was, changes nothing else, and invalidates the canvas |
| Tick.FallMovesOnlyWindows | js/test.js:280-291 | a falling shape keeps `x`, extent, kind and visibility, drops by 0 or exactly 0.9, drops iff the bounds test passes, stays within the canvas height, and plain shapes (the target) never move |
| Tick.JsRem | js/test.js:297 | JavaScript `%` yields NaN exactly for a zero divisor and coincides with the mathematical remainder for non-negative operands |
| Tick.DueIffLimit | js/test.js:297 | for `skipframes = k > 0` and a counter in `[-1, k]`, the redraw test fires exactly when the counter equals `k` |
| Tick.ThrottleRedraw | js/test.js:297-302 | the redraw branch resets the counter to 0; with a selection it shows it, redraws, and appends one frame that paints the unculled shapes and outlines the selection; with none it throws, leaving the canvas invalid and the shapes unchanged; the fields other than the shapes, the selection, `valid` and the counter are kept |
| Tick.ThrottleSkip | js/test.js:303-308 | the skip branch counts the counter up, marks the canvas valid and paints nothing; with a selection it hides it, with none it throws and leaves the shapes unchanged; the fields other than the shapes, the selection, `valid` and the counter are kept |
| Tick.Throttle | js/test.js:295-308 | the throttle throws iff there is no selection, and then leaves the shapes; when the redraw test fires the counter resets and a frame is painted, otherwise the counter counts up and nothing is painted; without a fault the canvas ends valid, the shapes are the old ones with the selection shown iff the test fired, and the other fields are kept |
| Tick.ThrottleCycle | js/test.js:295-308 | with falling off, during a drag of a selection with `k > 0` and a counter in `[-1, k]`, the counter stays in `[-1, k]` and the canvas ends valid; at `k` the counter resets to 0, the selection is shown and one frame outlines it; otherwise the counter counts up, the selection is hidden and nothing is painted |
| Tick.ZeroSkipHidesForever | js/test.js:295-308 | with falling off and `skipframes = 0`, a tick dragging a selection never paints, counts up and hides the selection |
| Tick.PlainTickDraws | js/test.js:310-314 | with falling off, and without a drag or with negative `skipframes`, the tick draws: it paints iff the canvas was invalid and leaves it valid, changing nothing else |
| Tick.DrawTick | js/test.js:278-315 | a tick keeps the shape count, the well-formedness of the selection, and every field other than the shapes, the selection, `valid` and the counter (so the drag flag, offsets, anchor, configuration and pointer survive); it faults iff the throttle dereferences a missing selection, and otherwise leaves the canvas valid |
| Tick.FallingTick | js/test.js:279-315 | with falling on, the first frame of the tick is the drawn falling step; afterwards the shapes are the fallen ones except for the selection's `visible` flag; without a drag (or with `skipframes < 0`) the tick ends there, valid and without fault; with `skipframes = k > 0` the counter stays in `[-1, k]` |
| Tick.Complete | js/test.js:317-323 | the scene is complete iff the last shape (the target) contains the origin corner of every earlier shape |
| Tick.CheckComplete | js/test.js:316-324 | the completion loop succeeds iff the last shape contains the origin corner of every earlier shape; it succeeds vacuously with fewer than two shapes, and on failure names an uncovered shape |
| Tick.CompleteAfterMove | js/test.js:317-323 | with every other shape already in place, moving one shape's origin completes the scene exactly when the target contains the new origin |
| Setup.TargetZone | js/test.js:539-559 | decisions 1-4 each add a red, visible, non-selectable plain shape; any other decision adds none |
| Setup.TargetZoneBand | js/test.js:541-557 | on a canvas of positive size, each zone lies inside the canvas and contains a point iff the point is in the left, right, top or bottom quarter band respectively |
| Setup.InitScene | js/test.js:519-564 | `init` places three selectable visible 200×100 windows with the default fill, named window1-3, at (w/2, 300), (w/2+10, 400) and (w/2, 500) for page width w, then the target zone on top (the right-hand zone without a random target); every other field is that of a fresh state; the decision is logged iff the target is random |
| Setup.DisableSelection | js/test.js:226-228 | self-guiding makes every shape unselectable and changes nothing else |
| Setup.Start | js/test.js:197-277 | with falling configured the start button switches falling on and changes nothing else; otherwise in self-guiding mode it makes every shape unselectable, changing nothing else about the shapes or the state; otherwise it does nothing |
| Setup.GuideDelta | js/test.js:207-225 | decisions 1-4 map to steps of 2 left, right, up and down; an absent or other decision maps to no movement |
| Setup.GuideDeltaPointsAtZone | js/test.js:212-225 | for decisions 1-4 on a canvas of positive size, the guiding step points from the canvas centre towards the centre of the zone that decision places |
| Setup.GuideStep | js/test.js:230-244 | a guiding step moves only shape `i`, by the delta, and paints one frame of the unculled shapes with the selection outlined, changing no other field of the state; the walk stays on `i` iff the target does not contain its new origin, moves to `i+1` iff it does and `i+1` is a window, and stops otherwise; an index past the list throws before anything changes or is painted |
| Setup.GuideIterMoves | js/test.js:230-236 | after `k` steps on shape `i` it has moved by `k` deltas and every other shape is where it was |
| Setup.WalkRightArrives | js/test.js:235-236 | walking right by 2 towards a zone at least 2 wide, from `n` steps short of its left edge within its vertical band, stays outside for the first `n-1` positions and is inside at the `n`-th |
| Setup.GuideRightTakesNSteps | js/test.js:230-244 | with decision 2, a window `n` steps short of the zone's left edge keeps the walk on itself for exactly `n-1` steps, and the `n`-th step finds it inside the zone |
| Recorder.EmptyLog | js/test.js:519 | the session log starts with empty, equally long sequences and the given target decision |
| Recorder.Snapshot | js/test.js:491-498 | the snapshot holds one copy per window of the scene, in order, each a window with the original's `visible` flag; plain shapes are not logged |
| Recorder.SnapshotOfNormalised | js/test.js:491-498 | for constructed shapes the snapshot equals the list of the scene's windows |
| Recorder.Record | js/test.js:474-500 | a null sample leaves the log unchanged; otherwise exactly one entry is appended to every parallel sequence (offset gaze point, last pointer position or 0, time, dragging flag, snapshot), so equal lengths stay equal |
| Recorder.GazeMarker | js/test.js:607 | the gaze marker is a visible, unselectable purple 3×3 plain shape at the gaze point, with a missing `y` read as 0 |
| Recorder.PointerMarker | js/test.js:608 | the pointer marker is a visible, unselectable red 4×4 plain shape at the logged pointer position, with missing coordinates read as 0 |
| Recorder.Rebuild | js/test.js:603-606 | replay rebuilds one window per visible record of the snapshot, in order, through `fromJson` |
| Recorder.RebuildGeometry | js/test.js:603-606 | the rebuilt windows of constructed records keep the records' position and extent, and come back visible and selectable |
| Recorder.Detach | js/test.js:598-599 | replacing the shape list keeps the selected object as a detached selection, and keeps no selection as none |
| Recorder.ReplayStep | js/test.js:593-616 | past the end of the log nothing happens; otherwise the selection becomes detached, the first frame is the emptied canvas with the old selection outlined, then the shapes become the rebuilt windows plus the gaze and pointer markers and a second frame paints them with the same outline, the replay continuing with the next record; a missing snapshot throws after the first draw, leaving no shapes, one frame and no next record; only the shapes, the selection and `valid` change |
| Recorder.ReplayFrom | js/test.js:593-616 | the replay always ends; on an aligned log it never throws, paints two frames per remaining record and ends showing the last record |
| Recorder.RecordReplayRoundTrip | js/test.js:485-606 | replaying the record just logged for a scene of constructed shapes gives back its visible windows with their exact position and extent, in order, followed by markers at the offset gaze point and the last pointer position |

## Left out

- Canvas painting (`Shape.draw`, `Window.draw` chrome, `clear`, colours, stroke widths): a frame is abstracted as the list of painted indices and the outlined selection.
- DOM wiring, `getComputedStyle`, and the offset-parent walk of `getMouse`: handlers take canvas-relative coordinates, and the recorder takes the canvas offset as parameters.
- The gaze library's set-up, `begin`/`end`, and the `ready` flag with its alert: the listener body is modelled with the sample as a parameter.
- `setInterval`/`setTimeout` scheduling: each tick, guiding step or replay step is one function call. Guiding runs are stated with an explicit step count, and `ReplayFrom` runs the replay to the end.
- `Math.random` in the target decision: the decision is a parameter of `InitScene`.
- The `done` button: it reads files, serialises to JSON, downloads and navigates away. Its replay branch is unreachable when `window.replayEnabled` is set, because line 331 reads the undefined `evt` and throws first.
- JSON serialisation and `handleFileSelect`: a log record is modelled as the shape record it was stringified from, so `JSON.parse(JSON.stringify(x))` is the identity.
- Floating point: coordinates are reals, so rounding of the 0.9 step and NaN/Infinity coordinates are not modelled.
- Non-numeric and NaN configuration values: `skipframes` is an integer.
- Setup.GuideRightTakesNSteps: the arrival bound is proved for decision 2 only. The other three directions are the same one-axis walk mirrored or on the other axis.
