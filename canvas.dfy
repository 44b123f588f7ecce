/** The part of a 2D drawing context that `updateMosaic` uses. The raster
    context of the filter canvas and the vector context that records SVG are
    both instances of `Sink`; each keeps what it has painted as a display
    list in absolute canvas coordinates. */
module Canvas {
  import opened Pixels

  /** A fill style: a CSS colour string as the control panel supplies it,
      or the `rgb(r, g, b)` of a sampled pixel. */
  datatype Color = Css(text: string) | Rgb(r: Channel, g: Channel, b: Channel)

  /** An axis-aligned rectangle: corner `(x, y)`, width `w`, height `h`. */
  datatype Box = Box(x: real, y: real, w: real, h: real)

  /** One paint operation: the rectangles of a path filled with one style. */
  datatype Shape = Shape(area: seq<Box>, fill: Color)

  /** `b` under a translation by `(dx, dy)`. */
  function Moved(b: Box, dx: real, dy: real): Box {
    Box(b.x + dx, b.y + dy, b.w, b.h)
  }

  /** The initial fill style of a 2D context. */
  const Black := Css("#000000")

  class Sink {
    /** The current transform, a translation (the pass only ever resets it
        and translates). */
    var dx: real
    var dy: real
    var fillStyle: Color
    /** The current path, already in absolute coordinates. */
    var path: seq<Box>
    /** Everything painted since the last clear, oldest first. */
    var drawn: seq<Shape>

    constructor ()
      ensures dx == 0.0 && dy == 0.0 && fillStyle == Black && path == [] && drawn == []
    {
      dx, dy := 0.0, 0.0;
      fillStyle := Black;
      path, drawn := [], [];
    }

    /** Assigning the canvas's `width` or `height`: the bitmap is cleared and
        the context returns to its initial state. */
    method Resize()
      modifies this
      ensures dx == 0.0 && dy == 0.0 && fillStyle == Black && path == [] && drawn == []
    {
      dx, dy := 0.0, 0.0;
      fillStyle := Black;
      path, drawn := [], [];
    }

    /** `setTransform(1, 0, 0, 1, 0, 0)`. */
    method ResetTransform()
      modifies this
      ensures dx == 0.0 && dy == 0.0
      ensures fillStyle == old(fillStyle) && path == old(path) && drawn == old(drawn)
    {
      dx, dy := 0.0, 0.0;
    }

    /** `translate(tx, ty)`: translations accumulate. */
    method Translate(tx: real, ty: real)
      modifies this
      ensures dx == old(dx) + tx && dy == old(dy) + ty
      ensures fillStyle == old(fillStyle) && path == old(path) && drawn == old(drawn)
    {
      dx, dy := dx + tx, dy + ty;
    }

    /** `clearRect(0, 0, width, height)` on the raster context and
        `__clearCanvas(...)` on the vector one: everything painted is erased. */
    method Clear()
      modifies this
      ensures drawn == []
      ensures dx == old(dx) && dy == old(dy) && fillStyle == old(fillStyle) && path == old(path)
    {
      drawn := [];
    }

    /** Assigning `fillStyle`. */
    method SetFillStyle(c: Color)
      modifies this
      ensures fillStyle == c
      ensures dx == old(dx) && dy == old(dy) && path == old(path) && drawn == old(drawn)
    {
      fillStyle := c;
    }

    /** `fillRect(x, y, w, h)`: paints one rectangle under the current
        transform and leaves the path alone. */
    method FillRect(x: real, y: real, w: real, h: real)
      modifies this
      ensures drawn == old(drawn) + [Shape([Moved(Box(x, y, w, h), dx, dy)], fillStyle)]
      ensures dx == old(dx) && dy == old(dy) && fillStyle == old(fillStyle) && path == old(path)
    {
      drawn := drawn + [Shape([Moved(Box(x, y, w, h), dx, dy)], fillStyle)];
    }

    /** `beginPath()`. */
    method BeginPath()
      modifies this
      ensures path == []
      ensures dx == old(dx) && dy == old(dy) && fillStyle == old(fillStyle) && drawn == old(drawn)
    {
      path := [];
    }

    /** `rect(x, y, w, h)`: adds a rectangle, under the current transform, to
        the path. */
    method Rect(x: real, y: real, w: real, h: real)
      modifies this
      ensures path == old(path) + [Moved(Box(x, y, w, h), dx, dy)]
      ensures dx == old(dx) && dy == old(dy) && fillStyle == old(fillStyle) && drawn == old(drawn)
    {
      path := path + [Moved(Box(x, y, w, h), dx, dy)];
    }

    /** `fill()`: paints the current path with the current style; an empty
        path paints nothing. */
    method Fill()
      modifies this
      ensures drawn == if old(path) == [] then old(drawn) else old(drawn) + [Shape(path, fillStyle)]
      ensures dx == old(dx) && dy == old(dy) && fillStyle == old(fillStyle) && path == old(path)
    {
      if path != [] {
        drawn := drawn + [Shape(path, fillStyle)];
      }
    }
  }

  /** Two sinks whose transform, style, path and painted content agree. */
  predicate SameState(a: Sink, b: Sink)
    reads a, b
  {
    a.dx == b.dx && a.dy == b.dy && a.fillStyle == b.fillStyle && a.path == b.path && a.drawn == b.drawn
  }
}
