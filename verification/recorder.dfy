/**
 * The session log: the gaze listener appends one observation per gaze sample
 * (parallel sequences plus a copy of the windows), and the replay button
 * rebuilds the scene from the log, one record per step.
 */
module Recorder {
  import opened Wrappers
  import opened Shapes
  import opened Scenes

  /** A gaze estimate, in the gaze library's coordinates. */
  datatype Gaze = Gaze(x: real, y: real)

  /** `webgazeobs`: parallel sequences indexed by record, the window snapshots,
      and the target decision of the session (absent without a random target). */
  datatype Log = Log(
    x: seq<real>, y: seq<real>,
    mx: seq<real>, my: seq<real>,
    time: seq<real>,
    dragging: seq<bool>,
    shapeStates: seq<seq<Shape>>,
    targetDecision: Option<int>)

  /** All the parallel sequences have one entry per record. */
  predicate Aligned(log: Log) {
    && |log.y| == |log.x| && |log.mx| == |log.x| && |log.my| == |log.x|
    && |log.time| == |log.x| && |log.dragging| == |log.x| && |log.shapeStates| == |log.x|
  }

  /** The log `init` starts with. */
  function EmptyLog(targetDecision: Option<int>): (r: Log)
    ensures Aligned(r) && |r.x| == 0 && r.targetDecision == targetDecision
  {
    Log([], [], [], [], [], [], [], targetDecision)
  }

  /** The windows of a shape list, in order. */
  function Windows(shapes: seq<Shape>): seq<Shape> {
    if shapes == [] then []
    else (if shapes[0].kind == Win then [shapes[0]] else []) + Windows(shapes[1..])
  }

  /** The visible shapes of a list, in order. */
  function VisibleOnly(shapes: seq<Shape>): seq<Shape> {
    if shapes == [] then []
    else (if shapes[0].visible then [shapes[0]] else []) + VisibleOnly(shapes[1..])
  }

  /** The snapshot taken per record: a fresh copy of each window, in order,
      carrying the window's `visible` flag; plain shapes are not logged. */
  function Snapshot(shapes: seq<Shape>): (r: seq<Shape>)
    ensures |r| == |Windows(shapes)|
    ensures forall k :: 0 <= k < |r| ==> r[k] == CloneWindow(Windows(shapes)[k])
    ensures forall k :: 0 <= k < |r| ==> r[k].kind == Win && r[k].visible == Windows(shapes)[k].visible
  {
    if shapes == [] then []
    else (if shapes[0].kind == Win then [CloneWindow(shapes[0])] else []) + Snapshot(shapes[1..])
  }

  /** The copy is exact for shapes the constructor could have produced. */
  lemma {:induction false} SnapshotOfNormalised(shapes: seq<Shape>)
    requires forall k :: 0 <= k < |shapes| ==> Normalised(shapes[k])
    ensures Snapshot(shapes) == Windows(shapes)
  {
    if shapes != [] {
      SnapshotOfNormalised(shapes[1..]);
    }
  }

  /**
   * The gaze listener.  A null sample is ignored.  Otherwise one entry is
   * appended to every parallel sequence: the gaze point shifted by the canvas
   * offset, the last pointer position (0 when there has been none), the
   * elapsed time, the dragging flag, and the window snapshot.
   */
  function Record(log: Log, sample: Option<Gaze>, elapsed: real, s: Scene, offX: real, offY: real): (r: Log)
    ensures sample.None? ==> r == log
    ensures sample.Some? ==>
      && r.x == log.x + [sample.value.x + offX] && r.y == log.y + [sample.value.y + offY]
      && r.mx == log.mx + [s.mx.GetOr(0.0)] && r.my == log.my + [s.my.GetOr(0.0)]
      && r.time == log.time + [elapsed] && r.dragging == log.dragging + [s.dragging]
      && r.shapeStates == log.shapeStates + [Snapshot(s.shapes)]
      && r.targetDecision == log.targetDecision
    ensures Aligned(log) ==> Aligned(r)
    ensures sample.Some? ==> |r.x| == |log.x| + 1
  {
    match sample
    case None => log
    case Some(g) =>
      log.(x := log.x + [g.x + offX], y := log.y + [g.y + offY],
           mx := log.mx + [s.mx.GetOr(0.0)], my := log.my + [s.my.GetOr(0.0)],
           time := log.time + [elapsed], dragging := log.dragging + [s.dragging],
           shapeStates := log.shapeStates + [Snapshot(s.shapes)])
  }

  /** The windows the replay rebuilds from one snapshot: the visible records,
      each through `Window.fromJson`. */
  function Rebuild(snap: seq<Shape>): (r: seq<Shape>)
    ensures |r| == |VisibleOnly(snap)|
    ensures forall k :: 0 <= k < |r| ==> r[k] == FromJson(VisibleOnly(snap)[k])
  {
    if snap == [] then []
    else (if snap[0].visible then [FromJson(snap[0])] else []) + Rebuild(snap[1..])
  }

  /** The marker for the logged gaze point: a purple 3 by 3 plain shape at the
      point, which the press handler never picks. */
  function GazeMarker(x: real, y: Option<real>): (r: Shape)
    ensures r.kind == Plain && !r.selectable && r.visible
    ensures r.x == x && r.y == y.GetOr(0.0) && r.w == 3.0 && r.h == 3.0 && r.fill == "purple"
  {
    MakeShape(Plain, Some(x), y, Some(3.0), Some(3.0), Some("purple"), false, None)
  }

  /** The marker for the logged pointer position: a red 4 by 4 plain shape at
      the position (0 for a coordinate missing from the log). */
  function PointerMarker(mx: Option<real>, my: Option<real>): (r: Shape)
    ensures r.kind == Plain && !r.selectable && r.visible
    ensures r.x == mx.GetOr(0.0) && r.y == my.GetOr(0.0) && r.w == 4.0 && r.h == 4.0 && r.fill == "red"
  {
    MakeShape(Plain, mx, my, Some(4.0), Some(4.0), Some("red"), false, None)
  }

  /** The selection after the shape list is replaced: the selected object is no
      longer in the list but is still held. */
  function Detach(s: Scene): (r: Selection)
    requires WellFormed(s)
    ensures !r.Sel?
    ensures r.NoSel? <==> s.selection.NoSel?
    ensures !r.NoSel? ==> r.shape == Selected(s).value
  {
    match s.selection
    case Sel(k) => Detached(s.shapes[k])
    case _ => s.selection
  }

  /** One replay step and the record the replay continues with (`None`: done). */
  datatype ReplayOut = ReplayOut(out: Outcome, next: Option<nat>)

  /**
   * Replay of record `i`.  Past the end of the log nothing happens.  Otherwise
   * the shape list is emptied and drawn, then refilled with the rebuilt
   * windows, the gaze marker and the pointer marker, and drawn again.  A log
   * without a snapshot at `i` throws after the first draw.
   */
  function ReplayStep(s: Scene, log: Log, i: nat): (r: ReplayOut)
    requires WellFormed(s)
    ensures WellFormed(r.out.scene)
    ensures i >= |log.x| ==> r == ReplayOut(Outcome(s, [], false), None)
    ensures i < |log.x| ==> !r.out.scene.selection.Sel? && r.out.scene.valid
    ensures i < |log.x| ==> r.out.scene.selection == Detach(s)
    ensures r.out.fault ==> r.out.scene.shapes == [] && r.out.frames == [Frame([], Selected(s))] && r.next.None?
    ensures r.out.fault <==> |log.shapeStates| <= i < |log.x|
    ensures i < |log.x| ==>
      && |r.out.frames| >= 1 && r.out.frames[0] == Frame([], Selected(s))
      && r.out.scene.(shapes := s.shapes, selection := s.selection, valid := s.valid) == s
    ensures i < |log.x| && !r.out.fault ==>
      && r.next == Some(i + 1) && |r.out.frames| == 2
      && r.out.frames[1] == Frame(Painted(r.out.scene.shapes, s.width, s.height), Selected(s))
      && r.out.scene.shapes == Rebuild(log.shapeStates[i])
           + [GazeMarker(log.x[i], Get(log.y, i)), PointerMarker(Get(log.mx, i), Get(log.my, i))]
  {
    if i >= |log.x| then ReplayOut(Outcome(s, [], false), None)
    else
      var d1 := Draw(s.(shapes := [], valid := false, selection := Detach(s)));
      if i >= |log.shapeStates| then ReplayOut(Outcome(d1.scene, FramesOf(d1), true), None)
      else
        var shs := Rebuild(log.shapeStates[i])
                   + [GazeMarker(log.x[i], Get(log.y, i)), PointerMarker(Get(log.mx, i), Get(log.my, i))];
        var d2 := Draw(AddShapes(d1.scene, shs));
        ReplayOut(Outcome(d2.scene, FramesOf(d1) + FramesOf(d2), false), Some(i + 1))
  }

  /** The whole replay from record `i`: steps until the log is exhausted or a
      step throws.  It always ends, and a log whose sequences are aligned
      replays without a fault, painting two frames per record. */
  function ReplayFrom(s: Scene, log: Log, i: nat): (r: Outcome)
    requires WellFormed(s)
    ensures WellFormed(r.scene)
    ensures Aligned(log) ==> !r.fault
    ensures Aligned(log) && i <= |log.x| ==> |r.frames| == 2 * (|log.x| - i)
    ensures Aligned(log) && i < |log.x| ==>
      r.scene.shapes == Rebuild(log.shapeStates[|log.x| - 1])
        + [GazeMarker(log.x[|log.x| - 1], Some(log.y[|log.x| - 1])),
           PointerMarker(Some(log.mx[|log.x| - 1]), Some(log.my[|log.x| - 1]))]
    decreases |log.x| - i
  {
    var st := ReplayStep(s, log, i);
    if st.next.None? then st.out
    else
      var rest := ReplayFrom(st.out.scene, log, st.next.value);
      assert Aligned(log) && i + 1 == |log.x| ==> rest.scene == st.out.scene && rest.frames == [];
      Outcome(rest.scene, st.out.frames + rest.frames, rest.fault)
  }

  /** Geometry of a shape. */
  function Geom(sh: Shape): (real, real, real, real) {
    (sh.x, sh.y, sh.w, sh.h)
  }

  /**
   * Recording then replaying: replaying the record just appended for a scene
   * of constructed shapes puts back its visible windows with their exact
   * geometry, in order, as visible and (by the `fromJson` quirk) selectable
   * windows, followed by the gaze marker at the offset gaze point and the
   * pointer marker at the last pointer position.
   */
  lemma RecordReplayRoundTrip(log: Log, g: Gaze, elapsed: real, s: Scene, offX: real, offY: real, s2: Scene)
    requires Aligned(log) && WellFormed(s2)
    requires forall k :: 0 <= k < |s.shapes| ==> Normalised(s.shapes[k])
    ensures var r := ReplayStep(s2, Record(log, Some(g), elapsed, s, offX, offY), |log.x|);
      var vis := VisibleOnly(Windows(s.shapes));
      && !r.out.fault && r.next == Some(|log.x| + 1)
      && |r.out.scene.shapes| == |vis| + 2
      && (forall k :: 0 <= k < |vis| ==>
            && Geom(r.out.scene.shapes[k]) == Geom(vis[k])
            && r.out.scene.shapes[k].kind == Win
            && r.out.scene.shapes[k].visible && r.out.scene.shapes[k].selectable)
      && r.out.scene.shapes[|vis|].x == g.x + offX && r.out.scene.shapes[|vis|].y == g.y + offY
      && r.out.scene.shapes[|vis| + 1].x == s.mx.GetOr(0.0) && r.out.scene.shapes[|vis| + 1].y == s.my.GetOr(0.0)
  {
    var log2 := Record(log, Some(g), elapsed, s, offX, offY);
    var i := |log.x|;
    var r := ReplayStep(s2, log2, i);
    var wins := Windows(s.shapes);
    SnapshotOfNormalised(s.shapes);
    assert log2.shapeStates[i] == wins;
    WindowsAreMembers(s.shapes);
    assert forall k :: 0 <= k < |wins| ==> Normalised(wins[k]);
    RebuildGeometry(wins);
    var rb := Rebuild(wins);
    assert r.out.scene.shapes == rb + [GazeMarker(log2.x[i], Get(log2.y, i)), PointerMarker(Get(log2.mx, i), Get(log2.my, i))];
    assert log2.x[i] == g.x + offX && log2.y[i] == g.y + offY;
    assert log2.mx[i] == s.mx.GetOr(0.0) && log2.my[i] == s.my.GetOr(0.0);
  }

  /** The rebuilt windows of a snapshot of constructed windows keep the visible
      records' geometry, and come back visible and selectable. */
  lemma RebuildGeometry(snap: seq<Shape>)
    requires forall k :: 0 <= k < |snap| ==> Normalised(snap[k])
    ensures var vis := VisibleOnly(snap); var rb := Rebuild(snap);
      forall k :: 0 <= k < |vis| ==>
        && Geom(rb[k]) == Geom(vis[k]) && rb[k].kind == Win && rb[k].visible && rb[k].selectable
  {
  }

  /** Every element of `Windows(shapes)` is a window taken from `shapes`. */
  lemma {:induction false} WindowsAreMembers(shapes: seq<Shape>)
    ensures forall k :: 0 <= k < |Windows(shapes)| ==> Windows(shapes)[k] in shapes && Windows(shapes)[k].kind == Win
  {
    if shapes != [] {
      WindowsAreMembers(shapes[1..]);
      var head := if shapes[0].kind == Win then [shapes[0]] else [];
      forall k | 0 <= k < |Windows(shapes)|
        ensures Windows(shapes)[k] in shapes && Windows(shapes)[k].kind == Win
      {
        if k >= |head| {
          assert Windows(shapes)[k] == Windows(shapes[1..])[k - |head|];
          assert Windows(shapes[1..])[k - |head|] in shapes[1..];
        }
      }
    }
  }
}
