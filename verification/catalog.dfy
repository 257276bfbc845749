/** The fixed tables of the passthrough window: the three overlay bezels with
    the rectangle the live picture is pasted into, and the three capture
    resolutions that the bracket keys cycle through. */
module Catalog {

  /** The overlay identifiers; the keys `0`, `-` and `=` select them. */
  datatype OverlayId = Vita2000 | Vita1000 | Psp

  /** A rectangle in an image's own pixel coordinates: columns [x1, x2),
      rows [y1, y2). */
  datatype Rect = Rect(x1: int, y1: int, x2: int, y2: int) {

    function Width(): (w: int) { x2 - x1 }

    function Height(): (h: int) { y2 - y1 }

    /** Pixel (x, y) lies inside the rectangle. */
    predicate Contains(x: int, y: int) {
      x1 <= x < x2 && y1 <= y < y2
    }

    /** The rectangle lies inside an image of h rows and w columns. */
    predicate Within(h: int, w: int) {
      0 <= x1 <= x2 <= w && 0 <= y1 <= y2 <= h
    }
  }

  /** An overlay: the asset file holding the bezel art and the screen rectangle. */
  datatype OverlaySpec = OverlaySpec(file: string, rect: Rect)

  /** The overlay table. The rectangles are calibrated per asset; each one
      has a positive width and height and starts at non-negative coordinates. */
  function Lookup(id: OverlayId): (s: OverlaySpec)
    ensures 0 <= s.rect.x1 < s.rect.x2 && 0 <= s.rect.y1 < s.rect.y2
  {
    match id
    case Vita2000 => OverlaySpec("vita.png", Rect(221, 64, 858, 424))
    case Vita1000 => OverlaySpec("vita1.png", Rect(213, 53, 866, 426))
    case Psp => OverlaySpec("psp.png", Rect(238, 68, 845, 414))
  }

  /** A requested capture size, in pixels. */
  datatype Resolution = Resolution(width: nat, height: nat)

  /** The resolution table, in cycling order. */
  const Resolutions: seq<Resolution> :=
    [Resolution(896, 504), Resolution(960, 544), Resolution(480, 272)]
}
