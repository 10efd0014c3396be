/** The one geometric primitive of the player: an axis-aligned integer
    rectangle (SDL_Rect), and the hit test the click handler uses. */
module Geometry {

  datatype Rect = Rect(x: int, y: int, w: int, h: int)

  /** The click hit test: a point is inside when it lies on the rectangle
      or on any of its four edges. */
  predicate IsInside(r: Rect, x: int, y: int)
    ensures IsInside(r, x, y) ==> 0 <= r.w && 0 <= r.h
  {
    r.x <= x <= r.x + r.w && r.y <= y <= r.y + r.h
  }

  /** Both the top-left and the bottom-right corner count as inside, as do
      the other two corners, whenever the rectangle is not inverted. */
  lemma CornersInside(r: Rect)
    requires 0 <= r.w && 0 <= r.h
    ensures IsInside(r, r.x, r.y) && IsInside(r, r.x + r.w, r.y + r.h)
    ensures IsInside(r, r.x + r.w, r.y) && IsInside(r, r.x, r.y + r.h)
  {
  }

  /** One unit beyond any edge is outside, whatever the other coordinate. */
  lemma OneBeyondEdgeOutside(r: Rect, x: int, y: int)
    ensures !IsInside(r, r.x - 1, y) && !IsInside(r, r.x + r.w + 1, y)
    ensures !IsInside(r, x, r.y - 1) && !IsInside(r, x, r.y + r.h + 1)
  {
  }

  /** A rectangle with a negative width or height contains no point. */
  lemma InvertedIsEmpty(r: Rect, x: int, y: int)
    requires r.w < 0 || r.h < 0
    ensures !IsInside(r, x, y)
  {
  }
}
