/**
 * Scene set-up and the self-guiding mode: the three windows and the target
 * zone placed by `init`, the start button, and the step that walks each
 * window into the target zone on its own.
 */
module Setup {
  import opened Wrappers
  import opened Shapes
  import opened Scenes

  /** The target zone for a decision: 1 left, 2 right, 3 top, 4 bottom quarter
      of the canvas.  Any other decision matches no case and adds no shape. */
  function TargetZone(d: int, width: real, height: real): (r: Option<Shape>)
    ensures r.Some? <==> 1 <= d <= 4
    ensures r.Some? ==> r.value.kind == Plain && !r.value.selectable && r.value.visible && r.value.fill == "red"
  {
    var red := Some("red");
    if d == 1 then Some(MakeShape(Plain, Some(0.0), Some(0.0), Some(width / 4.0), Some(height), red, false, None))
    else if d == 2 then Some(MakeShape(Plain, Some(width * 3.0 / 4.0), Some(0.0), Some(width / 4.0), Some(height), red, false, None))
    else if d == 3 then Some(MakeShape(Plain, Some(0.0), Some(0.0), Some(width), Some(height / 4.0), red, false, None))
    else if d == 4 then Some(MakeShape(Plain, Some(0.0), Some(height * 3.0 / 4.0), Some(width), Some(height / 4.0), red, false, None))
    else None
  }

  /** On a canvas of positive size each zone is the quarter band along its edge:
      a point is in the zone exactly when it lies in that band. */
  lemma TargetZoneBand(d: int, width: real, height: real, px: real, py: real)
    requires 1 <= d <= 4 && width > 0.0 && height > 0.0
    ensures var z := TargetZone(d, width, height).value;
      && 0.0 <= z.x && z.x + z.w <= width && 0.0 <= z.y && z.y + z.h <= height
      && (d == 1 ==> (Contains(z, px, py) <==> 0.0 <= px <= width / 4.0 && 0.0 <= py <= height))
      && (d == 2 ==> (Contains(z, px, py) <==> width * 3.0 / 4.0 <= px <= width && 0.0 <= py <= height))
      && (d == 3 ==> (Contains(z, px, py) <==> 0.0 <= px <= width && 0.0 <= py <= height / 4.0))
      && (d == 4 ==> (Contains(z, px, py) <==> 0.0 <= px <= width && height * 3.0 / 4.0 <= py <= height))
  {
  }

  /** The result of `init`: the scene and the decision logged with the session. */
  datatype Init = Init(scene: Scene, targetDecision: Option<int>)

  /** The windows `init` places, centred on half the page width. */
  function InitWindows(innerWidth: real): seq<Shape> {
    [ MakeShape(Win, Some(innerWidth / 2.0), Some(300.0), Some(200.0), Some(100.0), None, true, Some("window1")),
      MakeShape(Win, Some(innerWidth / 2.0 + 10.0), Some(400.0), Some(200.0), Some(100.0), None, true, Some("window2")),
      MakeShape(Win, Some(innerWidth / 2.0), Some(500.0), Some(200.0), Some(100.0), None, true, Some("window3")) ]
  }

  /**
   * `init`: three selectable windows, then the target zone on top.  With a
   * random target the decision (drawn by the caller) picks the zone and is
   * logged; otherwise the right-hand zone is used and nothing is logged.
   */
  function InitScene(cfg: Config, innerWidth: real, width: real, height: real, decision: int): (r: Init)
    ensures WellFormed(r.scene) && !r.scene.valid && r.scene.selection.NoSel?
    ensures r.targetDecision.Some? <==> cfg.randomtarget
    ensures cfg.randomtarget ==> r.targetDecision == Some(decision)
    ensures |r.scene.shapes| == (if cfg.randomtarget && !(1 <= decision <= 4) then 3 else 4)
    ensures forall i :: 0 <= i < 3 ==>
      r.scene.shapes[i].kind == Win && r.scene.shapes[i].selectable && r.scene.shapes[i].visible
      && r.scene.shapes[i].w == 200.0 && r.scene.shapes[i].h == 100.0
    ensures |r.scene.shapes| == 4 ==>
      var z := r.scene.shapes[3];
      z.kind == Plain && !z.selectable && z == TargetZone(if cfg.randomtarget then decision else 2, width, height).value
    ensures r.scene == NewScene(cfg, width, height).(shapes := r.scene.shapes)
    ensures r.scene.shapes[0].x == innerWidth / 2.0 && r.scene.shapes[0].y == 300.0
    ensures r.scene.shapes[1].x == innerWidth / 2.0 + 10.0 && r.scene.shapes[1].y == 400.0
    ensures r.scene.shapes[2].x == innerWidth / 2.0 && r.scene.shapes[2].y == 500.0
    ensures forall i :: 0 <= i < 3 ==> r.scene.shapes[i].fill == DefaultFill
    ensures r.scene.shapes[0].name == "window1" && r.scene.shapes[1].name == "window2"
      && r.scene.shapes[2].name == "window3"
  {
    var d := if cfg.randomtarget then decision else 2;
    var target := TargetZone(d, width, height);
    var shapes := InitWindows(innerWidth) + (if target.Some? then [target.value] else []);
    Init(AddShapes(NewScene(cfg, width, height), shapes), if cfg.randomtarget then Some(decision) else None)
  }

  /** Every shape made unselectable, as self-guiding mode does before it starts. */
  function DisableSelection(shapes: seq<Shape>): (r: seq<Shape>)
    ensures |r| == |shapes|
    ensures forall i :: 0 <= i < |r| ==> r[i] == shapes[i].(selectable := false)
  {
    seq(|shapes|, i requires 0 <= i < |shapes| => shapes[i].(selectable := false))
  }

  /** The start button: it switches falling on when falling mode is configured
      (that handler replaces the self-guiding one); otherwise in self-guiding
      mode it makes every shape unselectable before the guiding steps run. */
  function Start(cfg: Config, s: Scene): (r: Scene)
    requires WellFormed(s)
    ensures WellFormed(r) && |r.shapes| == |s.shapes|
    ensures r.falling == (cfg.falling || s.falling)
    ensures cfg.falling ==> r.shapes == s.shapes && r.(falling := s.falling) == s
    ensures !cfg.falling && cfg.selfguiding ==> forall i :: 0 <= i < |r.shapes| ==> !r.shapes[i].selectable
    ensures !cfg.falling && cfg.selfguiding ==>
      && r.(shapes := s.shapes) == s
      && forall i :: 0 <= i < |s.shapes| ==> r.shapes[i] == s.shapes[i].(selectable := false)
    ensures !cfg.falling && !cfg.selfguiding ==> r == s
  {
    if cfg.falling then s.(falling := true)
    else if cfg.selfguiding then s.(shapes := DisableSelection(s.shapes))
    else s
  }

  /** The step size of the self-guiding walk. */
  const Mag: real := 2.0

  /** The per-step displacement for a logged decision: towards the zone's edge.
      An absent or unknown decision leaves the windows where they are. */
  function GuideDelta(d: Option<int>): (r: (real, real))
    ensures d == Some(1) ==> r == (-Mag, 0.0)
    ensures d == Some(2) ==> r == (Mag, 0.0)
    ensures d == Some(3) ==> r == (0.0, -Mag)
    ensures d == Some(4) ==> r == (0.0, Mag)
    ensures !(d.Some? && 1 <= d.value <= 4) ==> r == (0.0, 0.0)
  {
    match d
    case Some(1) => (-1.0 * Mag, 0.0)
    case Some(2) => (1.0 * Mag, 0.0)
    case Some(3) => (0.0, -1.0 * Mag)
    case Some(4) => (0.0, 1.0 * Mag)
    case _ => (0.0, 0.0)
  }

  /** For every decision, the walk heads from the canvas centre towards the
      centre of the zone that decision placed: the step is along the axis on
      which the zone is off-centre, in the direction of the zone. */
  lemma GuideDeltaPointsAtZone(d: int, width: real, height: real)
    requires 1 <= d <= 4 && width > 0.0 && height > 0.0
    ensures var (dx, dy) := GuideDelta(Some(d)); var z := TargetZone(d, width, height).value;
      var cx := z.x + z.w / 2.0 - width / 2.0; var cy := z.y + z.h / 2.0 - height / 2.0;
      && (dx == 0.0 <==> cx == 0.0) && (dx != 0.0 ==> dx * cx > 0.0)
      && (dy == 0.0 <==> cy == 0.0) && (dy != 0.0 ==> dy * cy > 0.0)
  {
  }

  /** One guiding step and the index the walk continues with (`None`: it stops). */
  datatype GuideOut = GuideOut(out: Outcome, next: Option<nat>)

  /**
   * One self-guiding step on shape `i`: it moves by the delta, the canvas is
   * redrawn, and the walk stays on `i` until the target (the last shape)
   * contains its origin; then it moves on to `i + 1` if that is a window and
   * stops otherwise.  An index past the list throws.
   */
  function GuideStep(s: Scene, i: nat, dx: real, dy: real): (r: GuideOut)
    requires WellFormed(s)
    ensures WellFormed(r.out.scene) && |r.out.scene.shapes| == |s.shapes|
    ensures r.out.fault <==> i >= |s.shapes|
    ensures r.out.fault ==> r.out.scene == s && r.out.frames == [] && r.next.None?
    ensures !r.out.fault ==>
      var sh := r.out.scene.shapes;
      && sh == s.shapes[i := s.shapes[i].(x := s.shapes[i].x + dx, y := s.shapes[i].y + dy)]
      && r.out.scene.valid && |r.out.frames| == 1
      && r.out.frames == [Frame(Painted(sh, s.width, s.height), Selected(r.out.scene))]
      && r.out.scene.(shapes := s.shapes, valid := s.valid) == s
      && (r.next == Some(i) <==> !Contains(sh[|sh| - 1], sh[i].x, sh[i].y))
      && (r.next == Some(i + 1) <==> Contains(sh[|sh| - 1], sh[i].x, sh[i].y) && i + 1 < |sh| && sh[i + 1].kind == Win)
      && (r.next.Some? ==> r.next == Some(i) || r.next == Some(i + 1))
  {
    if i >= |s.shapes| then GuideOut(Outcome(s, [], true), None)
    else
      var sh := s.shapes[i];
      var d := Draw(s.(shapes := s.shapes[i := sh.(x := sh.x + dx, y := sh.y + dy)], valid := false));
      var moved := d.scene.shapes;
      var next :=
        if !Contains(moved[|moved| - 1], moved[i].x, moved[i].y) then Some(i)
        else if i + 1 < |moved| && moved[i + 1].kind == Win then Some(i + 1)
        else None;
      GuideOut(Outcome(d.scene, FramesOf(d), false), next)
  }

  /** A coordinate after `k` steps of `step`. */
  function Along(p: real, k: nat, step: real): real {
    p + k as real * step
  }

  /** One more step first is the same as one step more. */
  lemma AlongShift(p: real, k: nat, step: real)
    requires k > 0
    ensures Along(p + step, k - 1, step) == Along(p, k, step)
  {
  }

  /** `k` guiding steps on the same shape. */
  function GuideIter(s: Scene, i: nat, dx: real, dy: real, k: nat): (r: Scene)
    requires WellFormed(s)
    ensures WellFormed(r) && |r.shapes| == |s.shapes|
    decreases k
  {
    if k == 0 then s else GuideIter(GuideStep(s, i, dx, dy).out.scene, i, dx, dy, k - 1)
  }

  /** After `k` steps on shape `i` (below the target) it has moved by `k` deltas
      and every other shape, the target included, is where it was. */
  lemma {:induction false} GuideIterMoves(s: Scene, i: nat, dx: real, dy: real, k: nat)
    requires WellFormed(s) && i < |s.shapes|
    ensures var r := GuideIter(s, i, dx, dy, k);
      && r.shapes[i] == s.shapes[i].(x := Along(s.shapes[i].x, k, dx), y := Along(s.shapes[i].y, k, dy))
      && forall j :: 0 <= j < |s.shapes| && j != i ==> r.shapes[j] == s.shapes[j]
    decreases k
  {
    if k > 0 {
      var s1 := GuideStep(s, i, dx, dy).out.scene;
      assert s1.shapes[i] == s.shapes[i].(x := s.shapes[i].x + dx, y := s.shapes[i].y + dy);
      assert forall j :: 0 <= j < |s.shapes| && j != i ==> s1.shapes[j] == s.shapes[j];
      GuideIterMoves(s1, i, dx, dy, k - 1);
      AlongShift(s.shapes[i].x, k, dx);
      AlongShift(s.shapes[i].y, k, dy);
    }
  }

  /**
   * The walk towards the right-hand zone ends: a window whose origin lies in the
   * zone's vertical band and whose `x` sits `n` steps short of the zone's left
   * edge is outside the zone after every step before the `n`-th and inside it
   * after the `n`-th, provided the zone is at least one step wide.
   */
  lemma WalkRightArrives(z: Shape, px: real, py: real, n: nat)
    requires z.w >= Mag && z.y <= py <= z.y + z.h
    requires z.x - n as real * Mag <= px < z.x - (n as real - 1.0) * Mag
    ensures forall k: nat :: k < n ==> !Contains(z, Along(px, k, Mag), py)
    ensures Contains(z, Along(px, n, Mag), py)
  {
  }

  /**
   * Self-guiding with decision 2 on a window below the target: it takes exactly
   * `n` steps, where `n` is the number of steps between its origin and the
   * zone's left edge — the walk stays on it for the first `n - 1` steps and the
   * `n`-th step finds its origin inside the zone.
   */
  lemma GuideRightTakesNSteps(s: Scene, i: nat, n: nat)
    requires WellFormed(s) && i < |s.shapes| - 1 && n > 0
    requires var z := s.shapes[|s.shapes| - 1]; var o := s.shapes[i];
      && z.w >= Mag && z.y <= o.y <= z.y + z.h
      && z.x - n as real * Mag <= o.x < z.x - (n as real - 1.0) * Mag
    ensures forall k: nat :: k < n - 1 ==> GuideStep(GuideIter(s, i, Mag, 0.0, k), i, Mag, 0.0).next == Some(i)
    ensures GuideStep(GuideIter(s, i, Mag, 0.0, n - 1), i, Mag, 0.0).next != Some(i)
  {
    var z := s.shapes[|s.shapes| - 1];
    var o := s.shapes[i];
    WalkRightArrives(z, o.x, o.y, n);
    forall k: nat | k < n
      ensures var r := GuideStep(GuideIter(s, i, Mag, 0.0, k), i, Mag, 0.0);
              r.next == Some(i) <==> k < n - 1
    {
      var sk := GuideIter(s, i, Mag, 0.0, k);
      GuideIterMoves(s, i, Mag, 0.0, k);
      assert sk.shapes[|s.shapes| - 1] == z;
      AlongShift(o.x, k + 1, Mag);
      assert Along(o.y, k, 0.0) == o.y;
      assert sk.shapes[i].y == o.y;
    }
  }
}
