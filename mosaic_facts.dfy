/** What a mosaic pass guarantees: the order and number of the shapes in
    each sink, the bar-length law, and the geometry of the bars once the
    half-tile translation is applied. */
module MosaicFacts {
  import opened Mapping
  import opened Pixels
  import opened Canvas
  import opened Mosaic

  /** Inner-loop order: the `y`-th shape of column `x` is cell `(x, y)`. */
  lemma {:induction false} ColumnAt(img: Image, p: Params, x: nat, n: nat, y: nat)
    requires Ready(img, p) && x < p.tilesX && y < n <= p.tilesY
    ensures Column(img, p, x, n)[y] == CellShape(img, p, x, y)
  {
    if y < n - 1 {
      ColumnAt(img, p, x, n - 1, y);
    }
  }

  /** Outer-loop order: after `m` columns, cell `(x, y)` sits at position
      `CellIndex(x, y, tilesY)`, that is `x * tilesY + y` (x outer,
      y inner). */
  lemma {:induction false} GridAt(img: Image, p: Params, m: nat, x: nat, y: nat)
    requires Ready(img, p) && x < m <= p.tilesX && y < p.tilesY
    ensures CellIndex(x, y, p.tilesY) < |Grid(img, p, m)|
    ensures Grid(img, p, m)[CellIndex(x, y, p.tilesY)] == CellShape(img, p, x, y)
  {
    var n := p.tilesY;
    var prev, col := Grid(img, p, m - 1), Column(img, p, m - 1, n);
    var i := CellIndex(x, y, n);
    assert Grid(img, p, m) == prev + col;
    if x < m - 1 {
      GridAt(img, p, m - 1, x, y);
      IndexBefore(prev, col, i);
      assert (prev + col)[i] == CellShape(img, p, x, y);
    } else {
      GridLength(img, p, m - 1);
      assert i == |prev| + y;
      ColumnAt(img, p, x, n, y);
      IndexAfter(prev, col, y);
      assert (prev + col)[i] == CellShape(img, p, x, y);
    }
  }

  /** Grid cardinality and order of a whole pass: the background (only when
      it is not transparent) comes first, then the cells, cell `(x, y)` at
      offset `x * tilesY + y`. */
  lemma DisplayListOrder(img: Image, p: Params, x: nat, y: nat)
    requires Ready(img, p) && x < p.tilesX && y < p.tilesY
    ensures |Background(img, p)| + CellIndex(x, y, p.tilesY) < |DisplayList(img, p)|
    ensures DisplayList(img, p)[|Background(img, p)| + CellIndex(x, y, p.tilesY)] == CellShape(img, p, x, y)
  {
    GridAt(img, p, p.tilesX, x, y);
    IndexAfter(Background(img, p), Grid(img, p, p.tilesX), CellIndex(x, y, p.tilesY));
  }

  /** Element `i` of `a` is element `i` of `a + b`. */
  lemma IndexBefore<T>(a: seq<T>, b: seq<T>, i: nat)
    requires i < |a|
    ensures i < |a + b| && (a + b)[i] == a[i]
  {
  }

  /** Element `i` of `b` is element `|a| + i` of `a + b`. */
  lemma IndexAfter<T>(a: seq<T>, b: seq<T>, i: nat)
    requires i < |b|
    ensures |a| + i < |a + b| && (a + b)[|a| + i] == b[i]
  {
  }

  /** The background, when drawn, is the first shape: the whole canvas in
      the background colour, drawn before any translation. */
  lemma DisplayListBackground(img: Image, p: Params)
    requires Ready(img, p)
    ensures !p.filterBG <==> |DisplayList(img, p)| == p.tilesX * p.tilesY + 1
    ensures !p.filterBG ==>
      DisplayList(img, p)[0] == Shape([Box(0.0, 0.0, img.width as real, img.height as real)], Css(p.colorBG))
  {
    DisplayListLength(img, p);
  }

  /** Invert symmetry: the inverted bar at brightness `b` is the plain bar
      at brightness `255 - b`. */
  lemma RadiusInvertSymmetry(b: real, minH: real, maxH: real)
    ensures Radius(b, minH, maxH, true) == Radius(255.0 - b, minH, maxH, false)
  {
    var lhs := Map(b, 0.0, 255.0, minH, maxH).v;
    var rhs := Map(255.0 - b, 0.0, 255.0, maxH, minH).v;
    assert lhs == b / 255.0 * (maxH - minH) + minH;
    assert rhs == (255.0 - b) / 255.0 * (minH - maxH) + maxH;
    assert (255.0 - b) / 255.0 == 1.0 - b / 255.0;
  }

  /** Bar lengths stay between `minH / 2` and `maxH / 2` for every brightness
      a pixel can have. */
  lemma RadiusBounds(b: real, minH: real, maxH: real, invert: bool)
    requires 0.0 <= b <= 255.0 && minH <= maxH
    ensures minH / 2.0 <= Radius(b, minH, maxH, invert) <= maxH / 2.0
  {
    var t := b / 255.0;
    assert 0.0 <= t <= 1.0;
    var d := maxH - minH;
    assert 0.0 <= t * d <= d by {
      assert 0.0 <= (1.0 - t) * d;
    }
    if invert {
      assert Map(b, 0.0, 255.0, minH, maxH).v == t * d + minH;
    } else {
      assert Map(b, 0.0, 255.0, maxH, minH).v == maxH - t * d;
    }
  }

  /** Constant-range flattening: when `minH == maxH == k` every bar is
      `k / 2`, whatever the brightness. */
  lemma RadiusFlat(b: real, k: real, invert: bool)
    ensures Radius(b, k, k, invert) == k / 2.0
  {
  }

  /** With `minH <= maxH`, a brighter pixel never gives a longer bar, and
      with `invert` never a shorter one. */
  lemma RadiusMonotone(b1: real, b2: real, minH: real, maxH: real)
    requires b1 <= b2 && minH <= maxH
    ensures Radius(b2, minH, maxH, false) <= Radius(b1, minH, maxH, false)
    ensures Radius(b1, minH, maxH, true) <= Radius(b2, minH, maxH, true)
  {
    MapMonotone(b1, b2, 0.0, 255.0, maxH, minH);
    MapMonotone(b1, b2, 0.0, 255.0, minH, maxH);
  }

  /** Every cell's bar lies between `minH / 2` and `maxH / 2`; when
      `minH == maxH` every cell's bar is `minH / 2`, whatever the image. */
  lemma CellRadiusBounds(img: Image, p: Params, x: nat, y: nat)
    requires Ready(img, p) && x < p.tilesX && y < p.tilesY && p.minH <= p.maxH
    ensures p.minH / 2.0 <= CellRadius(img, p, x, y) <= p.maxH / 2.0
    ensures p.minH == p.maxH ==> CellRadius(img, p, x, y) == p.minH / 2.0
  {
    RadiusBounds(CellBrightness(img, p, x, y), p.minH, p.maxH, p.invertFilter);
  }

  /** Toggling `invert` with everything else fixed swaps the bar of every
      cell for the bar of the complementary brightness. */
  lemma InvertToggle(img: Image, p: Params, x: nat, y: nat)
    requires Ready(img, p) && x < p.tilesX && y < p.tilesY
    ensures CellRadius(img, p.(invertFilter := true), x, y)
         == Radius(255.0 - CellBrightness(img, p, x, y), p.minH, p.maxH, false)
    ensures CellRadius(img, p.(invertFilter := false), x, y)
         == Radius(255.0 - CellBrightness(img, p, x, y), p.minH, p.maxH, true)
  {
    var b := CellBrightness(img, p, x, y);
    assert CellBrightness(img, p.(invertFilter := true), x, y) == b;
    assert CellBrightness(img, p.(invertFilter := false), x, y) == b;
    RadiusInvertSymmetry(b, p.minH, p.maxH);
    RadiusInvertSymmetry(255.0 - b, p.minH, p.maxH);
  }

  /** The bar painted for cell `(x, y)`, in absolute coordinates. */
  function Bar(img: Image, p: Params, x: nat, y: nat): Box
    requires Ready(img, p) && x < p.tilesX && y < p.tilesY
  {
    CellShape(img, p, x, y).area[0]
  }

  /** A horizontal bar spans its tile's columns `[x * tileW, (x + 1) * tileW]`
      and is centred on the tile's middle row, with height the cell's bar
      length. */
  lemma HorizontalBar(img: Image, p: Params, x: nat, y: nat)
    requires Ready(img, p) && x < p.tilesX && y < p.tilesY && p.direction == Horizontal
    ensures |CellShape(img, p, x, y).area| == 1
    ensures Bar(img, p, x, y).x == x as real * TileW(img, p)
    ensures Bar(img, p, x, y).x + Bar(img, p, x, y).w == (x + 1) as real * TileW(img, p)
    ensures Bar(img, p, x, y).y + Bar(img, p, x, y).h / 2.0 == y as real * TileH(img, p) + TileH(img, p) / 2.0
    ensures Bar(img, p, x, y).h == CellRadius(img, p, x, y)
  {
  }

  /** A vertical bar spans its tile's rows `[y * tileH, (y + 1) * tileH]` and
      is centred on the tile's middle column, with width the cell's bar
      length. */
  lemma VerticalBar(img: Image, p: Params, x: nat, y: nat)
    requires Ready(img, p) && x < p.tilesX && y < p.tilesY && p.direction == Vertical
    ensures |CellShape(img, p, x, y).area| == 1
    ensures Bar(img, p, x, y).y == y as real * TileH(img, p)
    ensures Bar(img, p, x, y).h == TileH(img, p)
    ensures Bar(img, p, x, y).x + Bar(img, p, x, y).w / 2.0 == x as real * TileW(img, p) + TileW(img, p) / 2.0
    ensures Bar(img, p, x, y).w == CellRadius(img, p, x, y)
  {
  }

  /** Neighbouring horizontal bars in a row abut. */
  lemma HorizontalStep(img: Image, p: Params, x: nat, y: nat)
    requires Ready(img, p) && x + 1 < p.tilesX && y < p.tilesY && p.direction == Horizontal
    ensures Bar(img, p, x, y).x + Bar(img, p, x, y).w == Bar(img, p, x + 1, y).x
  {
    HorizontalBar(img, p, x, y);
    HorizontalBar(img, p, x + 1, y);
  }

  /** Neighbouring vertical bars in a column abut. */
  lemma VerticalStep(img: Image, p: Params, x: nat, y: nat)
    requires Ready(img, p) && x < p.tilesX && y + 1 < p.tilesY && p.direction == Vertical
    ensures Bar(img, p, x, y).y + Bar(img, p, x, y).h == Bar(img, p, x, y + 1).y
  {
    VerticalBar(img, p, x, y);
    VerticalBar(img, p, x, y + 1);
  }

  /** Horizontal bars tile each row: the first starts at the left edge of
      the canvas, each ends where the next begins, and the last ends at the
      right edge. */
  lemma RowTiling(img: Image, p: Params, y: nat)
    requires Ready(img, p) && y < p.tilesY && p.direction == Horizontal
    ensures Bar(img, p, 0, y).x == 0.0
    ensures forall x :: 0 <= x < p.tilesX - 1 ==>
      Bar(img, p, x, y).x + Bar(img, p, x, y).w == Bar(img, p, x + 1, y).x
    ensures Bar(img, p, p.tilesX - 1, y).x + Bar(img, p, p.tilesX - 1, y).w == img.width as real
  {
    forall x | 0 <= x < p.tilesX - 1
      ensures Bar(img, p, x, y).x + Bar(img, p, x, y).w == Bar(img, p, x + 1, y).x
    {
      HorizontalStep(img, p, x, y);
    }
    HorizontalBar(img, p, 0, y);
    HorizontalBar(img, p, p.tilesX - 1, y);
  }

  /** Vertical bars tile each column the same way, top to bottom. */
  lemma ColumnTiling(img: Image, p: Params, x: nat)
    requires Ready(img, p) && x < p.tilesX && p.direction == Vertical
    ensures Bar(img, p, x, 0).y == 0.0
    ensures forall y :: 0 <= y < p.tilesY - 1 ==>
      Bar(img, p, x, y).y + Bar(img, p, x, y).h == Bar(img, p, x, y + 1).y
    ensures Bar(img, p, x, p.tilesY - 1).y + Bar(img, p, x, p.tilesY - 1).h == img.height as real
  {
    forall y | 0 <= y < p.tilesY - 1
      ensures Bar(img, p, x, y).y + Bar(img, p, x, y).h == Bar(img, p, x, y + 1).y
    {
      VerticalStep(img, p, x, y);
    }
    VerticalBar(img, p, x, 0);
    VerticalBar(img, p, x, p.tilesY - 1);
  }

  /** A one-by-one grid paints a single bar, which spans the whole canvas
      across the bar direction. */
  lemma SingleTile(img: Image, p: Params)
    requires Ready(img, p) && p.tilesX == 1 && p.tilesY == 1
    ensures |DisplayList(img, p)| == |Background(img, p)| + 1
    ensures p.direction == Horizontal ==>
      Bar(img, p, 0, 0).x == 0.0 && Bar(img, p, 0, 0).w == img.width as real
    ensures p.direction == Vertical ==>
      Bar(img, p, 0, 0).y == 0.0 && Bar(img, p, 0, 0).h == img.height as real
  {
    DisplayListLength(img, p);
    if p.direction == Horizontal {
      RowTiling(img, p, 0);
    } else {
      ColumnTiling(img, p, 0);
    }
  }

  /** A two-by-two checkerboard (black, white / white, black) with bars from
      0 to 100: the black cells get the full half-bar 50 and the white cells
      a zero-height bar. */
  lemma Checkerboard()
    ensures
      var black, white := Pixel(0, 0, 0), Pixel(255, 255, 255);
      var img := Image(2, 2, [[black, white], [white, black]]);
      var p := Params(2, 2, 0.0, 100.0, Horizontal, "#282828", false, "#FFFFFF", false, false);
      && Ready(img, p)
      && CellRadius(img, p, 0, 0) == 50.0
      && CellRadius(img, p, 1, 0) == 0.0
      && CellRadius(img, p, 0, 1) == 0.0
      && CellRadius(img, p, 1, 1) == 50.0
  {
    var black, white := Pixel(0, 0, 0), Pixel(255, 255, 255);
    var img := Image(2, 2, [[black, white], [white, black]]);
    var p := Params(2, 2, 0.0, 100.0, Horizontal, "#282828", false, "#FFFFFF", false, false);
    assert SampleCoord(0, 2, 2) == 0;
    assert Map(1.0, 0.0, 2.0, 0.0, 2.0).v == 1.0;
    assert SampleCoord(1, 2, 2) == 1;
  }
}
