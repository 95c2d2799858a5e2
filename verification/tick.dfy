/**
 * The two periodic callbacks of the canvas: the draw tick (falling step,
 * skip-frames throttle, gated draw) and the completion check.
 */
module Tick {
  import opened Wrappers
  import opened Shapes
  import opened Scenes

  /** How far a falling window drops per tick. */
  const FallStep: real := 0.9

  /** Is shape `i` the selected object (`Object.is(shapes[i], selection)`)?
      A detached selection is never an element of the list. */
  predicate IsSelectedIndex(sel: Selection, i: nat) {
    sel.Sel? && sel.index == i
  }

  /** Whether shape `i` drops on a falling tick: a visible, unselected window
      that stays within the canvas after the drop on both axes. */
  predicate Drops(s: Scene, i: nat)
    requires i < |s.shapes|
  {
    var sh := s.shapes[i];
    && sh.kind == Win && !IsSelectedIndex(s.selection, i) && sh.visible
    && sh.x + sh.w + FallStep <= s.width
    && sh.y + sh.h + FallStep <= s.height
  }

  /** The falling step: every shape that drops moves down by `FallStep`, every
      other shape is left as it is, and the canvas is invalidated. */
  function Fall(s: Scene): (r: Scene)
    requires WellFormed(s)
    ensures WellFormed(r) && !r.valid && |r.shapes| == |s.shapes|
    ensures r.(shapes := s.shapes, valid := s.valid) == s
    ensures forall i :: 0 <= i < |s.shapes| ==>
      r.shapes[i] == (if Drops(s, i) then s.shapes[i].(y := s.shapes[i].y + FallStep) else s.shapes[i])
  {
    var shapes := seq(|s.shapes|, i requires 0 <= i < |s.shapes| =>
      if Drops(s, i) then s.shapes[i].(y := s.shapes[i].y + FallStep) else s.shapes[i]);
    s.(shapes := shapes, valid := false)
  }

  /** JavaScript `a % b` on integers: the remainder takes the dividend's sign,
      and a zero divisor gives NaN (`None`). */
  function JsRem(a: int, b: int): (r: Option<int>)
    ensures r.None? <==> b == 0
    ensures b > 0 && a >= 0 ==> r == Some(a % b)
  {
    if b == 0 then None
    else
      var m := if b < 0 then -b else b;
      if a >= 0 then Some(a % m) else Some(-((-a) % m))
  }

  /** The throttle's redraw test `t % k === 0 && t !== 0 && t !== -1`. */
  predicate Due(t: int, k: int) {
    JsRem(t, k) == Some(0) && t != 0 && t != -1
  }

  /** Sets the selected object's `visible` flag. */
  function ShowSelection(s: Scene, v: bool): (r: Scene)
    requires WellFormed(s) && !s.selection.NoSel?
    ensures WellFormed(r) && !r.selection.NoSel?
    ensures Selected(r).value == Selected(s).value.(visible := v)
    ensures r.(shapes := s.shapes, selection := s.selection) == s
  {
    SetSelected(s, Selected(s).value.(visible := v))
  }

  /** The draw call at the end of the tick. */
  function DrawOut(s: Scene, frames: seq<Frame>): Outcome
    requires WellFormed(s)
  {
    var d := Draw(s);
    Outcome(d.scene, frames + FramesOf(d), false)
  }

  /** The throttle's redraw branch: the counter resets, the selection is shown
      and the canvas is redrawn.  A missing selection throws right after the
      counter reset, leaving the canvas invalid. */
  function ThrottleRedraw(s: Scene, frames: seq<Frame>): (r: Outcome)
    requires WellFormed(s)
    ensures WellFormed(r.scene) && |r.scene.shapes| == |s.shapes|
    ensures r.fault <==> s.selection.NoSel?
    ensures !s.selection.Detached? ==> r.scene.selection == s.selection
    ensures r.scene.dragging == s.dragging && r.scene.falling == s.falling
    ensures r.scene.timeSinceUpdate == 0
    ensures r.fault ==> r.frames == frames && r.scene.shapes == s.shapes && !r.scene.valid
    ensures !r.fault ==>
      && r.scene.valid && !r.scene.selection.NoSel?
      && Selected(r.scene).value == Selected(s).value.(visible := true)
      && r.scene.shapes == ShowSelection(s, true).shapes
      && |r.frames| == |frames| + 1 && r.frames[..|frames|] == frames
      && r.frames[|frames|].outline == Selected(r.scene)
      && r.frames[|frames|].painted == Painted(r.scene.shapes, s.width, s.height)
    ensures r.scene.(shapes := s.shapes, selection := s.selection, valid := s.valid, timeSinceUpdate := s.timeSinceUpdate) == s
  {
    var s1 := s.(timeSinceUpdate := 0, valid := false);
    if s1.selection.NoSel? then Outcome(s1, frames, true)
    else DrawOut(ShowSelection(s1, true), frames)
  }

  /** The throttle's skip branch: the counter counts up, the canvas is marked
      valid and the selection hidden; nothing is painted.  A missing selection
      throws right after the counter and the valid flag are set. */
  function ThrottleSkip(s: Scene, frames: seq<Frame>): (r: Outcome)
    requires WellFormed(s)
    ensures WellFormed(r.scene) && |r.scene.shapes| == |s.shapes|
    ensures r.fault <==> s.selection.NoSel?
    ensures !s.selection.Detached? ==> r.scene.selection == s.selection
    ensures r.scene.dragging == s.dragging && r.scene.falling == s.falling
    ensures r.scene.timeSinceUpdate == s.timeSinceUpdate + 1
    ensures r.scene.valid && r.frames == frames
    ensures r.fault ==> r.scene.shapes == s.shapes
    ensures !r.fault ==>
      && !r.scene.selection.NoSel?
      && Selected(r.scene).value == Selected(s).value.(visible := false)
      && r.scene.shapes == ShowSelection(s, false).shapes
    ensures r.scene.(shapes := s.shapes, selection := s.selection, valid := s.valid, timeSinceUpdate := s.timeSinceUpdate) == s
  {
    var s1 := s.(timeSinceUpdate := s.timeSinceUpdate + 1, valid := true);
    if s1.selection.NoSel? then Outcome(s1, frames, true)
    else Outcome(ShowSelection(s1, false), frames, false)
  }

  /** The throttle part of the tick (`skipframes >= 0` and dragging): the
      redraw branch when the redraw test fires, the skip branch otherwise. */
  function Throttle(s: Scene, frames: seq<Frame>): (r: Outcome)
    requires WellFormed(s)
    ensures WellFormed(r.scene) && |r.scene.shapes| == |s.shapes|
    ensures r.fault <==> s.selection.NoSel?
    ensures Due(s.timeSinceUpdate, s.skipframes) ==>
      r.scene.timeSinceUpdate == 0 && (r.fault || |r.frames| == |frames| + 1)
    ensures !Due(s.timeSinceUpdate, s.skipframes) ==>
      r.scene.timeSinceUpdate == s.timeSinceUpdate + 1 && r.frames == frames && r.scene.valid
    ensures !r.fault ==>
      && r.scene.valid && !r.scene.selection.NoSel?
      && Selected(r.scene).value.visible == Due(s.timeSinceUpdate, s.skipframes)
      && r.scene.shapes == ShowSelection(s, Due(s.timeSinceUpdate, s.skipframes)).shapes
    ensures r.fault ==> r.scene.shapes == s.shapes
    ensures r.scene.(shapes := s.shapes, selection := s.selection, valid := s.valid, timeSinceUpdate := s.timeSinceUpdate) == s
  {
    if Due(s.timeSinceUpdate, s.skipframes) then ThrottleRedraw(s, frames) else ThrottleSkip(s, frames)
  }

  /**
   * One tick of the draw interval.  With falling on, the falling step runs and
   * the canvas is drawn.  Then, with `skipframes >= 0` and a drag in progress,
   * the throttle decides between a redraw that shows the selection and a
   * skipped frame that hides it; in every other case the canvas is drawn.
   */
  function DrawTick(s: Scene): (r: Outcome)
    requires WellFormed(s)
    ensures WellFormed(r.scene) && |r.scene.shapes| == |s.shapes| && |r.frames| <= 2
    ensures r.scene.selection.Sel? <==> s.selection.Sel?
    ensures r.fault <==> s.skipframes >= 0 && s.dragging && s.selection.NoSel?
    ensures !r.fault ==> r.scene.valid
    ensures r.scene.dragging == s.dragging && r.scene.falling == s.falling
    ensures r.scene.(shapes := s.shapes, selection := s.selection, valid := s.valid, timeSinceUpdate := s.timeSinceUpdate) == s
  {
    var pre := if s.falling then
                 var d := Draw(Fall(s)); Outcome(d.scene, FramesOf(d), false)
               else Outcome(s, [], false);
    if pre.scene.skipframes >= 0 && pre.scene.dragging then Throttle(pre.scene, pre.frames)
    else DrawOut(pre.scene, pre.frames)
  }

  /**
   * A tick with falling on: the falling step runs and is drawn first, so the
   * first frame is the drawn falling step; afterwards the shapes are the fallen
   * ones, except that the throttle may flip the selection's `visible` flag.
   * Without a drag (or with `skipframes < 0`) that is the whole tick, and for
   * `skipframes = k > 0` the counter stays in `[-1, k]`.
   */
  lemma FallingTick(s: Scene)
    requires WellFormed(s) && s.falling
    ensures var r := DrawTick(s); var f := Fall(s);
      && |r.frames| >= 1 && r.frames[0] == Draw(f).frame.value
      && |r.scene.shapes| == |f.shapes|
      && (forall i :: 0 <= i < |f.shapes| && !IsSelectedIndex(s.selection, i) ==> r.scene.shapes[i] == f.shapes[i])
      && (forall i :: 0 <= i < |f.shapes| && IsSelectedIndex(s.selection, i) ==>
            r.scene.shapes[i] == f.shapes[i].(visible := r.scene.shapes[i].visible))
      && (!s.dragging || s.skipframes < 0 ==> r.scene == f.(valid := true) && |r.frames| == 1 && !r.fault)
      && (s.skipframes > 0 && s.dragging && -1 <= s.timeSinceUpdate <= s.skipframes ==>
            -1 <= r.scene.timeSinceUpdate <= s.skipframes)
  {
  }

  /** A falling tick moves only visible, unselected windows, only downwards and
      by exactly `FallStep`, and only while they stay on the canvas; plain shapes
      such as the target zone never move. */
  lemma FallMovesOnlyWindows(s: Scene, i: nat)
    requires WellFormed(s) && i < |s.shapes|
    ensures var r := Fall(s).shapes[i]; var o := s.shapes[i];
      && r.x == o.x && r.w == o.w && r.h == o.h && r.kind == o.kind && r.visible == o.visible
      && (r.y == o.y || r.y == o.y + FallStep)
      && (r.y != o.y <==> Drops(s, i))
      && (o.kind == Plain || !o.visible || IsSelectedIndex(s.selection, i) ==> r == o)
      && (r.y != o.y ==> r.y + r.h <= s.height && r.x + r.w + FallStep <= s.width)
  {
  }

  /** With a positive `skipframes` and a counter in `[-1, k]`, the redraw test
      fires exactly when the counter has reached `k`. */
  lemma DueIffLimit(t: int, k: int)
    requires k > 0 && -1 <= t <= k
    ensures Due(t, k) <==> t == k
  {
    if 0 < t < k {
      assert t % k == t;
    } else if t == k {
      assert t % k == 0;
    }
  }

  /** With `skipframes == 0`, `t % 0` is NaN, so a drag never redraws through the
      throttle: the counter climbs and the selection stays hidden. */
  lemma ZeroSkipHidesForever(s: Scene)
    requires WellFormed(s) && s.skipframes == 0 && s.dragging && !s.falling && !s.selection.NoSel?
    ensures var r := DrawTick(s);
      && !r.fault && r.frames == []
      && r.scene.timeSinceUpdate == s.timeSinceUpdate + 1
      && !Selected(r.scene).value.visible
  {
  }

  /**
   * The throttle with `skipframes = k > 0` during a drag (falling off): the
   * counter stays in `[-1, k]`; at `k` it resets to 0, shows the selection and
   * paints one frame; on every other tick it counts up, marks the canvas valid,
   * hides the selection and paints nothing.
   */
  lemma ThrottleCycle(s: Scene)
    requires WellFormed(s) && s.skipframes > 0 && s.dragging && !s.falling && !s.selection.NoSel?
    requires -1 <= s.timeSinceUpdate <= s.skipframes
    ensures var r := DrawTick(s);
      && !r.fault && -1 <= r.scene.timeSinceUpdate <= s.skipframes && r.scene.valid
      && r.scene.shapes == ShowSelection(s, Selected(r.scene).value.visible).shapes
      && (s.timeSinceUpdate == s.skipframes ==>
            && r.scene.timeSinceUpdate == 0 && Selected(r.scene).value.visible && |r.frames| == 1
            && r.frames[0].outline == Selected(r.scene))
      && (s.timeSinceUpdate != s.skipframes ==>
            && r.scene.timeSinceUpdate == s.timeSinceUpdate + 1
            && !Selected(r.scene).value.visible && r.frames == [])
  {
  }

  /** Without a drag, or with `skipframes < 0`, the tick just draws: it paints
      exactly when the canvas was invalid and leaves it valid. */
  lemma PlainTickDraws(s: Scene)
    requires WellFormed(s) && !s.falling && (!s.dragging || s.skipframes < 0)
    ensures var r := DrawTick(s);
      && !r.fault && r.scene == s.(valid := true)
      && (|r.frames| == 1 <==> !s.valid)
  {
  }

  /** Completion: the last shape (the target zone) contains the origin corner
      of every other shape. */
  predicate Complete(shapes: seq<Shape>) {
    forall i :: 0 <= i < |shapes| - 1 ==> Contains(shapes[|shapes| - 1], shapes[i].x, shapes[i].y)
  }

  /** The completion check's loop, scanning from the shape under the target down. */
  method CheckComplete(shapes: seq<Shape>) returns (done: bool)
    ensures done <==> Complete(shapes)
    ensures |shapes| < 2 ==> done
    ensures !done ==> exists i :: 0 <= i < |shapes| - 1 && !Contains(shapes[|shapes| - 1], shapes[i].x, shapes[i].y)
  {
    var l := |shapes|;
    var i := l - 2;
    while i >= 0
      invariant -1 <= i <= l - 2 || (l < 2 && i == l - 2)
      invariant forall j :: i < j < l - 1 ==> Contains(shapes[l - 1], shapes[j].x, shapes[j].y)
    {
      if !Contains(shapes[l - 1], shapes[i].x, shapes[i].y) {
        return false;
      }
      i := i - 1;
    }
    return true;
  }

  /** When every other shape is already in place, moving shape `j`'s origin to
      `(a, b)` completes the scene exactly when the target contains `(a, b)`. */
  lemma CompleteAfterMove(shapes: seq<Shape>, j: nat, a: real, b: real)
    requires j < |shapes| - 1
    requires forall i :: 0 <= i < |shapes| - 1 && i != j ==> Contains(shapes[|shapes| - 1], shapes[i].x, shapes[i].y)
    ensures Complete(shapes[j := shapes[j].(x := a, y := b)]) <==> Contains(shapes[|shapes| - 1], a, b)
  {
    var moved := shapes[j := shapes[j].(x := a, y := b)];
    assert moved[|moved| - 1] == shapes[|shapes| - 1];
    if Contains(shapes[|shapes| - 1], a, b) {
      forall i | 0 <= i < |moved| - 1
        ensures Contains(moved[|moved| - 1], moved[i].x, moved[i].y)
      {
        if i != j { assert moved[i] == shapes[i]; }
      }
    } else {
      assert !Contains(moved[|moved| - 1], moved[j].x, moved[j].y);
    }
  }
}
