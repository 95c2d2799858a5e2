/**
 * The mouse handlers of the canvas: press selects the topmost selectable shape
 * under the pointer, move drags the selection, release ends the drag.
 * Coordinates are canvas-relative.
 */
module Pointer {
  import opened Wrappers
  import opened Shapes
  import opened Scenes

  /** A shape the press handler can pick at this point. */
  predicate Hits(sh: Shape, mx: real, my: real) {
    Contains(sh, mx, my) && sh.selectable
  }

  /** The highest index below `n` whose shape can be picked at the point. */
  function HitBelow(shapes: seq<Shape>, mx: real, my: real, n: nat): (r: Option<nat>)
    requires n <= |shapes|
    ensures r.Some? ==> r.value < n && Hits(shapes[r.value], mx, my)
    ensures r.Some? ==> forall j :: r.value < j < n ==> !Hits(shapes[j], mx, my)
    ensures r.None? ==> forall j :: 0 <= j < n ==> !Hits(shapes[j], mx, my)
  {
    if n == 0 then None
    else if Hits(shapes[n - 1], mx, my) then Some(n - 1)
    else HitBelow(shapes, mx, my, n - 1)
  }

  /** The topmost selectable shape containing the point; shapes that contain it
      but are not selectable are passed over, not blocking. */
  function TopHit(shapes: seq<Shape>, mx: real, my: real): Option<nat> {
    HitBelow(shapes, mx, my, |shapes|)
  }

  /** The press handler's loop: scan from the top of the list down. */
  method HitScan(shapes: seq<Shape>, mx: real, my: real) returns (r: Option<nat>)
    ensures r == TopHit(shapes, mx, my)
    ensures r.Some? ==> r.value < |shapes| && Hits(shapes[r.value], mx, my)
    ensures r.Some? ==> forall j :: r.value < j < |shapes| ==> !Hits(shapes[j], mx, my)
    ensures r.None? ==> forall j :: 0 <= j < |shapes| ==> !Hits(shapes[j], mx, my)
  {
    var i := |shapes| - 1;
    while i >= 0
      invariant -1 <= i < |shapes|
      invariant forall j :: i < j < |shapes| ==> !Hits(shapes[j], mx, my)
      invariant TopHit(shapes, mx, my) == HitBelow(shapes, mx, my, i + 1)
    {
      if Contains(shapes[i], mx, my) && shapes[i].selectable {
        return Some(i);
      }
      i := i - 1;
    }
    return None;
  }

  /**
   * Pointer press.  On a hit the topmost pickable shape becomes the selection,
   * the grab offset and the shape's origin are recorded, and dragging starts.
   * On a miss an existing selection is dropped.  No shape moves.
   */
  function Press(s: Scene, mx: real, my: real): (r: Scene)
    requires WellFormed(s)
    ensures WellFormed(r) && r.shapes == s.shapes
    ensures r.mx == Some(mx) && r.my == Some(my)
    ensures r.selection.Sel? || r.selection.NoSel?
    ensures r.selection.Sel? <==> exists j :: 0 <= j < |s.shapes| && Hits(s.shapes[j], mx, my)
    ensures r.selection.Sel? ==>
      var i := r.selection.index;
      && Hits(s.shapes[i], mx, my)
      && (forall j :: i < j < |s.shapes| ==> !Hits(s.shapes[j], mx, my))
      && r.dragoffx == mx - s.shapes[i].x && r.dragoffy == my - s.shapes[i].y
      && r.origx == s.shapes[i].x && r.origy == s.shapes[i].y
      && r.dragging && !r.valid
    ensures r.selection.NoSel? ==>
      && r.dragging == s.dragging
      && r.valid == (s.valid && s.selection.NoSel?)
      && r == s.(mx := Some(mx), my := Some(my), selection := NoSel, valid := r.valid)
    ensures r == s.(mx := Some(mx), my := Some(my), selection := r.selection, dragging := r.dragging,
                    valid := r.valid, dragoffx := r.dragoffx, dragoffy := r.dragoffy,
                    origx := r.origx, origy := r.origy)
  {
    var s1 := s.(mx := Some(mx), my := Some(my));
    match TopHit(s.shapes, mx, my)
    case Some(i) =>
      var sel := s.shapes[i];
      s1.(dragoffx := mx - sel.x, dragoffy := my - sel.y, dragging := true,
          selection := Sel(i), valid := false, origx := sel.x, origy := sel.y)
    case None =>
      if !s.selection.NoSel? then s1.(selection := NoSel, valid := false) else s1
  }

  /** Where a drag puts the selection along one axis: under the pointer, less
      the grab offset, or mirrored about the anchor when the axis is inverted. */
  function DragTo(pointer: real, off: real, orig: real, invert: bool): real {
    if invert then orig - ((pointer - off) - orig) else pointer - off
  }

  /**
   * Pointer move.  While dragging, the selection is moved (only its `x` and
   * `y` change) and the canvas invalidated; with no selection the handler
   * throws before touching any shape.  The pointer position is always kept.
   */
  function Move(s: Scene, mx: real, my: real): (r: Outcome)
    requires WellFormed(s)
    ensures WellFormed(r.scene) && r.frames == [] && |r.scene.shapes| == |s.shapes|
    ensures r.scene.mx == Some(mx) && r.scene.my == Some(my)
    ensures r.scene.selection.NoSel? <==> s.selection.NoSel?
    ensures r.scene.selection.Sel? <==> s.selection.Sel?
    ensures r.fault <==> s.dragging && s.selection.NoSel?
    ensures !s.dragging || s.selection.NoSel? ==> r.scene == s.(mx := Some(mx), my := Some(my))
    ensures s.dragging && !s.selection.NoSel? ==>
      var before := Selected(s).value;
      var after := Selected(r.scene).value;
      && !r.scene.valid
      && after == before.(x := after.x, y := after.y)
      && (!s.invertx ==> after.x == mx - s.dragoffx)
      && (!s.inverty ==> after.y == my - s.dragoffy)
      && (s.invertx ==> after.x - s.origx == s.origx - (mx - s.dragoffx))
      && (s.inverty ==> after.y - s.origy == s.origy - (my - s.dragoffy))
      && (forall j :: 0 <= j < |s.shapes| && s.selection != Sel(j) ==> r.scene.shapes[j] == s.shapes[j])
      && r.scene.(shapes := s.shapes, selection := s.selection, valid := s.valid, mx := s.mx, my := s.my) == s
      && (s.selection.Sel? ==> r.scene.selection == s.selection)
  {
    var s1 := s.(mx := Some(mx), my := Some(my));
    if !s.dragging then Outcome(s1, [], false)
    else match Selected(s)
      case None => Outcome(s1, [], true)
      case Some(sel) =>
        var moved := sel.(x := DragTo(mx, s.dragoffx, s.origx, s.invertx),
                          y := DragTo(my, s.dragoffy, s.origy, s.inverty));
        Outcome(SetSelected(s1, moved).(valid := false), [], false)
  }

  /** Pointer release: the drag ends; the selection stays. */
  function Release(s: Scene): (r: Scene)
    ensures !r.dragging
    ensures r.shapes == s.shapes && r.selection == s.selection && r.valid == s.valid
    ensures r.(dragging := s.dragging) == s
  {
    s.(dragging := false)
  }

  /** After a release, moving the pointer drags nothing: no shape moves, no
      frame is painted, nothing throws, and only the pointer position changes. */
  lemma ReleaseEndsDrag(s: Scene, mx: real, my: real)
    requires WellFormed(s)
    ensures Move(Release(s), mx, my) == Outcome(Release(s).(mx := Some(mx), my := Some(my)), [], false)
    ensures Move(Release(s), mx, my).scene.shapes == s.shapes
  {
  }

  /** Returning the pointer to where it was pressed puts the picked shape back
      on its anchor, whether or not the axes are inverted. */
  lemma PressMoveBack(s: Scene, mx: real, my: real)
    requires WellFormed(s) && TopHit(s.shapes, mx, my).Some?
    ensures Move(Press(s, mx, my), mx, my).scene.shapes == s.shapes
  {
  }

  /** Moves through a sequence of pointer positions. */
  function Drag(s: Scene, pts: seq<(real, real)>): (r: Outcome)
    requires WellFormed(s)
    ensures WellFormed(r.scene)
    decreases |pts|
  {
    if pts == [] then Outcome(s, [], false)
    else
      var m := Move(s, pts[0].0, pts[0].1);
      Drag(m.scene, pts[1..])
  }

  /** After a press on a pickable shape and any sequence of moves without
      inversion, the shape sits at the last pointer position less the offset
      fixed at press time, and no other shape has moved. */
  lemma {:induction false} DragTracksPointer(s: Scene, pts: seq<(real, real)>)
    requires WellFormed(s) && s.dragging && s.selection.Sel?
    requires !s.invertx && !s.inverty && |pts| > 0
    ensures var r := Drag(s, pts).scene;
      && r.selection == s.selection && |r.shapes| == |s.shapes|
      && r.shapes[s.selection.index].x == pts[|pts| - 1].0 - s.dragoffx
      && r.shapes[s.selection.index].y == pts[|pts| - 1].1 - s.dragoffy
      && forall j :: 0 <= j < |s.shapes| && j != s.selection.index ==> r.shapes[j] == s.shapes[j]
    decreases |pts|
  {
    var m := Move(s, pts[0].0, pts[0].1);
    assert m.scene.selection == s.selection;
    if |pts| > 1 {
      DragTracksPointer(m.scene, pts[1..]);
      assert pts[1..][|pts[1..]| - 1] == pts[|pts| - 1];
    }
  }
}
