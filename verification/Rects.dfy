/** Rectangles of half-open integer cells, and the sets of inputs covering a cell. */
module Rects {

  datatype Rect = Rect(left: int, top: int, right: int, bottom: int) {

    predicate Empty() {
      left >= right || top >= bottom
    }

    /** The cell with corner (x, y) lies inside. An empty or inverted rectangle has no cell. */
    predicate Has(x: int, y: int) {
      left <= x < right && top <= y < bottom
    }

    function Width(): int {
      right - left
    }

    function Height(): int {
      bottom - top
    }

    /** Signed: a rectangle inverted both ways has a positive area and no cell. */
    function Area(): int {
      Width() * Height()
    }
  }

  /** An output rectangle with the indices of the inputs that overlap it. */
  datatype RectSet = RectSet(ids: set<nat>, rect: Rect)

  /** The indices of the rectangles that contain the cell (x, y). */
  function Cover(rects: seq<Rect>, x: int, y: int): set<nat> {
    set i: nat | i < |rects| && rects[i].Has(x, y)
  }

  /** The rectangles that are not filtered out, by index. */
  function NonEmpty(rects: seq<Rect>): set<nat> {
    set i: nat | i < |rects| && !rects[i].Empty()
  }
}
