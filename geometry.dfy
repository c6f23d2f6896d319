/**
 * Axis-aligned rectangles in client (viewport) coordinates, and the overlap
 * test the drag controller runs between the dragged slide and each landing.
 * Pixel coordinates are JavaScript numbers; only +, -, min, max and
 * comparisons are applied to them, so they are modelled as reals.
 */
module Geometry {

  /** A bounding client rectangle: the fields the overlap test reads. */
  datatype Rect = Rect(left: real, right: real, top: real, bottom: real)

  function Min(a: real, b: real): real { if a < b then a else b }
  function Max(a: real, b: real): real { if a < b then b else a }

  /**
   * The overlap test of the drag handler: the horizontal intervals overlap
   * and the vertical intervals overlap, both with strict inequality. Spelled
   * out, each rectangle has positive width and height and each starts before
   * the other ends, on both axes.
   */
  predicate Overlaps(a: Rect, b: Rect)
    ensures Overlaps(a, b) <==>
      (a.left < a.right && b.left < b.right && a.left < b.right && b.left < a.right &&
       a.top < a.bottom && b.top < b.bottom && a.top < b.bottom && b.top < a.bottom)
  {
    Min(a.right, b.right) > Max(a.left, b.left) &&
    Min(a.bottom, b.bottom) > Max(a.top, b.top)
  }

  /** The point (x, y) lies strictly inside the rectangle. */
  predicate StrictlyInside(a: Rect, x: real, y: real)
  {
    a.left < x < a.right && a.top < y < a.bottom
  }

  /**
   * The rectangle of the dragged slide, rebuilt from the pointer position
   * minus the offset captured at the start of the session, and the slide's
   * client width and height.
   */
  function DraggedRect(clientX: real, clientY: real, offsetX: real, offsetY: real,
                       width: real, height: real): (r: Rect)
    ensures r.left + offsetX == clientX && r.top + offsetY == clientY
    ensures r.right - r.left == width && r.bottom - r.top == height
  {
    var l := clientX - offsetX;
    var t := clientY - offsetY;
    Rect(l, l + width, t, t + height)
  }

  /** The test is symmetric in its two rectangles. */
  lemma OverlapsSymmetric(a: Rect, b: Rect)
    ensures Overlaps(a, b) <==> Overlaps(b, a)
  {
  }

  /**
   * Independent characterisation: two rectangles overlap exactly when some
   * point lies strictly inside both, that is, when their intersection has
   * positive area.
   */
  lemma OverlapsIffCommonInteriorPoint(a: Rect, b: Rect)
    ensures Overlaps(a, b) <==> exists x: real, y: real :: StrictlyInside(a, x, y) && StrictlyInside(b, x, y)
  {
    if Overlaps(a, b) {
      var x := (Max(a.left, b.left) + Min(a.right, b.right)) / 2.0;
      var y := (Max(a.top, b.top) + Min(a.bottom, b.bottom)) / 2.0;
      assert StrictlyInside(a, x, y) && StrictlyInside(b, x, y);
    }
  }

  /**
   * Rectangles separated along either axis do not overlap; because the
   * inequalities are strict this includes rectangles that only share an edge.
   */
  lemma SeparatedIsNotOverlap(a: Rect, b: Rect)
    requires a.right <= b.left || b.right <= a.left || a.bottom <= b.top || b.bottom <= a.top
    ensures !Overlaps(a, b)
  {
  }
}
