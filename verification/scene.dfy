/**
 * The canvas state (`CanvasState`): the shape list in z-order, the selection,
 * drag bookkeeping, the `valid` flag that gates redrawing, and the frame
 * counter used by the skip-frames throttle.
 */
module Scenes {
  import opened Wrappers
  import opened Shapes

  /** The selected object.  `Sel(i)` is `shapes[i]`; `Detached(s)` is an object
      still held as the selection after the list it belonged to was replaced. */
  datatype Selection = NoSel | Sel(index: nat) | Detached(shape: Shape)

  /** Start-up options (`window.testConfig`). */
  datatype Config = Config(
    falling: bool, invertx: bool, inverty: bool, skipframes: int,
    selfguiding: bool, randomtarget: bool)

  datatype Scene = Scene(
    shapes: seq<Shape>,
    selection: Selection,
    dragging: bool,
    dragoffx: real, dragoffy: real,
    origx: real, origy: real,
    valid: bool,
    timeSinceUpdate: int,
    width: real, height: real,
    mx: Option<real>, my: Option<real>,
    falling: bool,
    invertx: bool, inverty: bool,
    skipframes: int)

  /** What one call of `draw` paints: the indices of the shapes painted, in
      painting order, and the shape whose outline marks the selection. */
  datatype Frame = Frame(painted: seq<nat>, outline: Option<Shape>)

  /** The effect of one callback: the new state, the frames painted, and whether
      the callback stopped on a `TypeError` (a null selection dereferenced);
      the mutations made before the throw are kept. */
  datatype Outcome = Outcome(scene: Scene, frames: seq<Frame>, fault: bool)

  /** The selection, when it is an index, points into the shape list. */
  predicate WellFormed(s: Scene) {
    s.selection.Sel? ==> s.selection.index < |s.shapes|
  }

  /** The selected shape object, if any. */
  function Selected(s: Scene): (r: Option<Shape>)
    requires WellFormed(s)
    ensures r.None? <==> s.selection.NoSel?
  {
    match s.selection
    case NoSel => None
    case Sel(i) => Some(s.shapes[i])
    case Detached(sh) => Some(sh)
  }

  /** Replaces the selected object by `sh`, wherever it lives. */
  function SetSelected(s: Scene, sh: Shape): (r: Scene)
    requires WellFormed(s)
    ensures WellFormed(r) && |r.shapes| == |s.shapes|
    ensures r.selection.Sel? <==> s.selection.Sel?
    ensures r.selection.NoSel? <==> s.selection.NoSel?
    ensures s.selection.Sel? ==> r.shapes == s.shapes[s.selection.index := sh] && r.selection == s.selection
    ensures !s.selection.Sel? ==> r.shapes == s.shapes
    ensures !s.selection.NoSel? ==> Selected(r) == Some(sh)
    ensures s.selection.NoSel? ==> r == s
    ensures r.(shapes := s.shapes, selection := s.selection) == s
  {
    match s.selection
    case NoSel => s
    case Sel(i) => s.(shapes := s.shapes[i := sh])
    case Detached(_) => s.(selection := Detached(sh))
  }

  /** The state built by the `CanvasState` constructor.  A configured falling
      mode is switched off until the start button switches it on. */
  function NewScene(cfg: Config, width: real, height: real): (r: Scene)
    ensures WellFormed(r) && r.shapes == [] && r.selection.NoSel?
    ensures !r.dragging && !r.valid && !r.falling && r.timeSinceUpdate == -1
    ensures r.width == width && r.height == height
    ensures r.invertx == cfg.invertx && r.inverty == cfg.inverty && r.skipframes == cfg.skipframes
    ensures r.mx.None? && r.my.None? && r.dragoffx == 0.0 && r.dragoffy == 0.0
  {
    Scene([], NoSel, false, 0.0, 0.0, 0.0, 0.0, false, -1, width, height, None, None,
          false, cfg.invertx, cfg.inverty, cfg.skipframes)
  }

  /** `addShape`: the shape goes on top and the canvas is invalidated. */
  function AddShape(s: Scene, sh: Shape): (r: Scene)
    requires WellFormed(s)
    ensures WellFormed(r) && !r.valid
    ensures |r.shapes| == |s.shapes| + 1 && r.shapes[|s.shapes|] == sh
    ensures r.shapes[..|s.shapes|] == s.shapes
    ensures r.selection == s.selection && r.dragging == s.dragging
    ensures r.(shapes := s.shapes, valid := s.valid) == s
  {
    s.(shapes := s.shapes + [sh], valid := false)
  }

  /** Adds every shape of `shs`, in order. */
  function AddShapes(s: Scene, shs: seq<Shape>): (r: Scene)
    requires WellFormed(s)
    ensures WellFormed(r)
    ensures r.shapes == s.shapes + shs
    ensures r == s.(shapes := s.shapes + shs, valid := if shs == [] then s.valid else false)
    decreases |shs|
  {
    if shs == [] then s
    else
      var r := AddShapes(AddShape(s, shs[0]), shs[1..]);
      assert s.shapes + shs == s.shapes + [shs[0]] + shs[1..];
      r
  }

  /** A shape `draw` skips: invisible, or entirely off the canvas. */
  predicate Culled(sh: Shape, width: real, height: real) {
    sh.x > width || sh.y > height || sh.x + sh.w < 0.0 || sh.y + sh.h < 0.0 || !sh.visible
  }

  /** The indices from `i` on that `draw` paints, in increasing order. */
  function PaintedFrom(shapes: seq<Shape>, width: real, height: real, i: nat): (r: seq<nat>)
    requires i <= |shapes|
    decreases |shapes| - i
  {
    if i == |shapes| then []
    else if Culled(shapes[i], width, height) then PaintedFrom(shapes, width, height, i + 1)
    else [i] + PaintedFrom(shapes, width, height, i + 1)
  }

  function Painted(shapes: seq<Shape>, width: real, height: real): seq<nat> {
    PaintedFrom(shapes, width, height, 0)
  }

  predicate StrictlyIncreasing(r: seq<nat>) {
    forall a, b :: 0 <= a < b < |r| ==> r[a] < r[b]
  }

  /** The painted list from `i` is strictly increasing, and holds exactly the
      indices from `i` on whose shape is not culled. */
  lemma {:induction false} PaintedFromSpec(shapes: seq<Shape>, width: real, height: real, i: nat)
    requires i <= |shapes|
    ensures StrictlyIncreasing(PaintedFrom(shapes, width, height, i))
    ensures forall k :: k in PaintedFrom(shapes, width, height, i) <==>
              i <= k < |shapes| && !Culled(shapes[k], width, height)
    decreases |shapes| - i
  {
    if i < |shapes| {
      PaintedFromSpec(shapes, width, height, i + 1);
      var rest := PaintedFrom(shapes, width, height, i + 1);
      assert forall k :: k in rest ==> i < k;
      if !Culled(shapes[i], width, height) {
        var r := [i] + rest;
        forall a, b | 0 <= a < b < |r|
          ensures r[a] < r[b]
        {
          if a > 0 {
            assert r[a] == rest[a - 1] && r[b] == rest[b - 1];
          } else {
            assert r[b] == rest[b - 1] && rest[b - 1] in rest;
          }
        }
      }
    }
  }

  /** `draw` paints, in index order, exactly the visible shapes that are not
      wholly off the canvas. */
  lemma PaintedSpec(shapes: seq<Shape>, width: real, height: real)
    ensures StrictlyIncreasing(Painted(shapes, width, height))
    ensures forall k :: k in Painted(shapes, width, height) <==>
              0 <= k < |shapes| && !Culled(shapes[k], width, height)
  {
    PaintedFromSpec(shapes, width, height, 0);
  }

  datatype Drawn = Drawn(scene: Scene, frame: Option<Frame>)

  /**
   * `draw`: nothing happens while the canvas is valid.  Otherwise every shape
   * that is not culled is painted, then the selection outline if there is a
   * selection, and the canvas becomes valid.  No shape changes either way.
   */
  function Draw(s: Scene): (r: Drawn)
    requires WellFormed(s)
    ensures r.scene == s.(valid := true) && WellFormed(r.scene)
    ensures r.frame.Some? <==> !s.valid
    ensures r.frame.Some? ==> r.frame.value.painted == Painted(s.shapes, s.width, s.height)
    ensures r.frame.Some? ==> r.frame.value.outline == Selected(s)
    ensures r.frame.Some? ==> (r.frame.value.outline.Some? <==> !s.selection.NoSel?)
  {
    if s.valid then Drawn(s, None)
    else Drawn(s.(valid := true), Some(Frame(Painted(s.shapes, s.width, s.height), Selected(s))))
  }

  /** The frames of a `Drawn`, as a list of zero or one. */
  function FramesOf(d: Drawn): (r: seq<Frame>)
    ensures |r| <= 1 && (|r| == 1 <==> d.frame.Some?)
  {
    if d.frame.Some? then [d.frame.value] else []
  }

  /** A shape just added is redrawn on the next `draw`, on top of the earlier
      ones, unless it is invisible or off the canvas. */
  lemma AddShapeDrawn(s: Scene, sh: Shape)
    requires WellFormed(s)
    ensures var d := Draw(AddShape(s, sh));
      && d.frame.Some?
      && (|s.shapes| in d.frame.value.painted <==> !Culled(sh, s.width, s.height))
      && (forall k :: k in d.frame.value.painted && k != |s.shapes| ==>
            k < |s.shapes| && !Culled(s.shapes[k], s.width, s.height))
  {
    PaintedSpec(s.shapes + [sh], s.width, s.height);
  }

  /** Drawing twice in a row paints once: the second call finds the canvas valid. */
  lemma DrawIdempotent(s: Scene)
    requires WellFormed(s)
    ensures Draw(Draw(s).scene).frame.None?
    ensures Draw(Draw(s).scene).scene == Draw(s).scene
  {
  }
}
