/**
 * Shapes of the canvas: axis-aligned rectangles, either plain (`Shape`) or
 * decorated (`Window`).  Coordinates are reals; painting is abstracted away.
 */
module Shapes {
  import opened Wrappers

  /** The run-time class of a shape object, as seen by `instanceof Window`. */
  datatype Kind = Plain | Win

  datatype Shape = Shape(
    kind: Kind,
    x: real, y: real, w: real, h: real,
    fill: string,
    selectable: bool,
    visible: bool,
    name: string)

  const DefaultFill: string := "#AAAAAA"
  const DefaultName: string := "default"

  /** `a || d` for a numeric argument: `0` and `undefined` are falsy. */
  function OrNum(a: Option<real>, d: real): real {
    if a.Some? && a.value != 0.0 then a.value else d
  }

  /** `a || d` for a string argument: `""`, `0` and `undefined` are falsy. */
  function OrStr(a: Option<string>, d: string): string {
    if a.Some? && a.value != "" then a.value else d
  }

  /**
   * The constructor of `Shape` (and of `Window`, which only forwards to it).
   * Every default is taken on JavaScript truthiness, so an explicit 0 width
   * becomes 1; for `x` and `y` the default is 0, so the quirk is harmless there.
   * `selectable` is stored as given; `visible` always starts true.
   */
  function MakeShape(kind: Kind, x: Option<real>, y: Option<real>, w: Option<real>, h: Option<real>,
                     fill: Option<string>, selectable: bool, name: Option<string>): (r: Shape)
    ensures r.kind == kind && r.selectable == selectable && r.visible
    ensures r.x == x.GetOr(0.0) && r.y == y.GetOr(0.0)
    ensures r.w != 0.0 && r.h != 0.0 && r.fill != "" && r.name != ""
    ensures w.Some? && w.value != 0.0 ==> r.w == w.value
    ensures (w.None? || w.value == 0.0) ==> r.w == 1.0
    ensures h.Some? && h.value != 0.0 ==> r.h == h.value
    ensures (h.None? || h.value == 0.0) ==> r.h == 1.0
    ensures fill.Some? && fill.value != "" ==> r.fill == fill.value
    ensures (fill.None? || fill.value == "") ==> r.fill == DefaultFill
    ensures name.Some? && name.value != "" ==> r.name == name.value
    ensures (name.None? || name.value == "") ==> r.name == DefaultName
  {
    Shape(kind, OrNum(x, 0.0), OrNum(y, 0.0), OrNum(w, 1.0), OrNum(h, 1.0),
          OrStr(fill, DefaultFill), selectable, true, OrStr(name, DefaultName))
  }

  /** Inclusive point-in-rectangle test used for hit testing and completion. */
  predicate Contains(s: Shape, mx: real, my: real) {
    s.x <= mx && s.x + s.w >= mx && s.y <= my && s.y + s.h >= my
  }

  /** A shape as the constructor can leave it: no field holds a falsy value
      that the constructor would have replaced by its default. */
  predicate Normalised(s: Shape) {
    s.w != 0.0 && s.h != 0.0 && s.fill != "" && s.name != ""
  }

  /**
   * `Window.fromJson`: rebuilds a window from a logged record.  Fill and name
   * are not passed (fill is given as 0), and the record's `visible` flag lands
   * in the `selectable` slot; the new window is always visible.
   */
  function FromJson(o: Shape): (r: Shape)
    ensures r.kind == Win && r.visible && r.selectable == o.visible
    ensures r.fill == DefaultFill && r.name == DefaultName
    ensures r.x == o.x && r.y == o.y
    ensures Normalised(o) ==> r.w == o.w && r.h == o.h
    ensures !Normalised(o) ==> r.w == (if o.w == 0.0 then 1.0 else o.w)
    ensures !Normalised(o) ==> r.h == (if o.h == 0.0 then 1.0 else o.h)
  {
    MakeShape(Win, Some(o.x), Some(o.y), Some(o.w), Some(o.h), None, o.visible, None)
  }

  /** The copy the gaze listener takes of a live window: the constructor is run
      on the window's own fields, then its `visible` flag is copied over. */
  function CloneWindow(o: Shape): (r: Shape)
    ensures r.kind == Win && r.visible == o.visible && r.selectable == o.selectable
    ensures o.kind == Win && Normalised(o) ==> r == o
  {
    MakeShape(Win, Some(o.x), Some(o.y), Some(o.w), Some(o.h), Some(o.fill), o.selectable, Some(o.name))
      .(visible := o.visible)
  }

  /** The four corners of a rectangle with non-negative extent are inside it. */
  lemma ContainsCorners(s: Shape)
    requires s.w >= 0.0 && s.h >= 0.0
    ensures Contains(s, s.x, s.y) && Contains(s, s.x + s.w, s.y)
    ensures Contains(s, s.x, s.y + s.h) && Contains(s, s.x + s.w, s.y + s.h)
  {
  }

  /** Moving a shape and a point by the same amount keeps the point inside. */
  lemma ContainsTranslate(s: Shape, mx: real, my: real, dx: real, dy: real)
    ensures Contains(s, mx, my) <==> Contains(s.(x := s.x + dx, y := s.y + dy), mx + dx, my + dy)
  {
  }

  /** Constructing a shape from a shape's own fields gives that shape back: the
      truthiness defaults never fire on a constructed shape. */
  lemma MakeShapeIdempotent(s: Shape)
    requires Normalised(s) && s.visible
    ensures MakeShape(s.kind, Some(s.x), Some(s.y), Some(s.w), Some(s.h),
                      Some(s.fill), s.selectable, Some(s.name)) == s
  {
  }
}
