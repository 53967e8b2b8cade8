/** Integer rectangles as the simulator uses them (the rectangle type of its
    graphics library): a corner (x, y) with y growing downwards, a width and a
    height. Width and height may be negative; nothing in the simulator
    normalises them. */
module Rects {

  datatype Point = Point(x: int, y: int)

  datatype Rect = Rect(x: int, y: int, width: int, height: int) {

    /** The x coordinate of the right edge. */
    function Right(): int { x + width }

    /** The y coordinate of the bottom edge. */
    function Bottom(): int { y + height }

    /** Point containment with the library's half-open rule: the left and top
        edges belong to the rectangle, the right and bottom edges do not. */
    predicate ContainsPoint(p: Point) {
      x <= p.x < x + width && y <= p.y < y + height
    }
  }
}
