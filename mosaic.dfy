/** The specification of `updateMosaic`: what one pass computes for each
    grid cell, and the display list a pass leaves in each sink. */
module Mosaic {
  import opened Mapping
  import opened Pixels
  import opened Canvas

  datatype Direction = Horizontal | Vertical

  /** The control-panel parameters a pass reads. `color` and `colorBG` are
      the CSS strings of the colour pickers. */
  datatype Params = Params(
    tilesX: nat,
    tilesY: nat,
    minH: real,
    maxH: real,
    direction: Direction,
    color: string,
    showImageColor: bool,
    colorBG: string,
    filterBG: bool,
    invertFilter: bool)

  /** What a pass needs: a loaded image and at least one tile each way (the
      panel's sliders range over 1..400). */
  predicate Ready(img: Image, p: Params) {
    WellFormed(img) && p.tilesX >= 1 && p.tilesY >= 1
  }

  function TileW(img: Image, p: Params): real
    requires p.tilesX >= 1
  {
    img.width as real / p.tilesX as real
  }

  function TileH(img: Image, p: Params): real
    requires p.tilesY >= 1
  {
    img.height as real / p.tilesY as real
  }

  /** The pixel column (or row) read for grid column (or row) `i`:
      `map(i, 0, tiles, 0, dim)`, truncated by `getImageData`; every grid
      index lands inside the image. */
  function SampleCoord(i: nat, tiles: nat, dim: nat): (k: int)
    requires tiles >= 1
    ensures 0 <= k && (i < tiles && dim > 0 ==> k < dim)
  {
    SampleCoordIsQuotient(i, tiles, dim);
    Map(i as real, 0.0, tiles as real, 0.0, dim as real).v.Floor
  }

  /** The sampled coordinate is the integer quotient of `i * dim` by `tiles`. */
  lemma SampleCoordIsQuotient(i: nat, tiles: nat, dim: nat)
    requires tiles >= 1
    ensures var k := Map(i as real, 0.0, tiles as real, 0.0, dim as real).v.Floor;
      k * tiles <= i * dim < (k + 1) * tiles && 0 <= k && (i < tiles ==> k < dim || dim == 0)
  {
    var m := Map(i as real, 0.0, tiles as real, 0.0, dim as real).v;
    MapOnLine(i as real, 0.0, tiles as real, 0.0, dim as real);
    FloorBounds(m, i * dim, tiles);
    var k := m.Floor;
    if i < tiles && dim > 0 {
      assert i * dim < tiles * dim;
      assert k < dim;
    }
  }

  /** If `m * tiles == n`, the floor of `m` is the integer quotient of `n`
      by `tiles`. */
  lemma FloorBounds(m: real, n: int, tiles: int)
    requires tiles >= 1 && m * tiles as real == n as real
    ensures m.Floor * tiles <= n < (m.Floor + 1) * tiles
  {
    var k := m.Floor;
    var t := tiles as real;
    assert k as real * t <= m * t by {
      assert 0.0 <= (m - k as real) * t;
    }
    assert m < (k + 1) as real;
    assert m * t < (k + 1) as real * t by {
      assert 0.0 < ((k + 1) as real - m) * t;
    }
    assert (k * tiles) as real == k as real * t;
    assert ((k + 1) * tiles) as real == (k + 1) as real * t;
    assert (n as real) < ((k + 1) * tiles) as real;
  }

  /** The pixel sampled for cell `(x, y)`. */
  function CellPixel(img: Image, p: Params, x: nat, y: nat): Pixel
    requires Ready(img, p) && x < p.tilesX && y < p.tilesY
  {
    PixelAt(img, SampleCoord(x, p.tilesX, img.width), SampleCoord(y, p.tilesY, img.height))
  }

  function CellBrightness(img: Image, p: Params, x: nat, y: nat): real
    requires Ready(img, p) && x < p.tilesX && y < p.tilesY
  {
    var px := CellPixel(img, p, x, y);
    Brightness(px.r, px.g, px.b)
  }

  /** The bar length for brightness `bValue`. By default black gives the
      longest bar (`maxH / 2`) and white the shortest (`minH / 2`); `invert`
      swaps the two ends. */
  function Radius(bValue: real, minH: real, maxH: real, invert: bool): (r: real)
    ensures bValue == 0.0 ==> r == (if invert then minH else maxH) / 2.0
    ensures bValue == 255.0 ==> r == (if invert then maxH else minH) / 2.0
  {
    if invert then Map(bValue, 0.0, 255.0, minH, maxH).v / 2.0
    else Map(bValue, 0.0, 255.0, maxH, minH).v / 2.0
  }

  function CellRadius(img: Image, p: Params, x: nat, y: nat): real
    requires Ready(img, p) && x < p.tilesX && y < p.tilesY
  {
    Radius(CellBrightness(img, p, x, y), p.minH, p.maxH, p.invertFilter)
  }

  /** The fill of cell `(x, y)`: the sampled pixel's colour, or the tile colour. */
  function CellColor(img: Image, p: Params, x: nat, y: nat): Color
    requires Ready(img, p) && x < p.tilesX && y < p.tilesY
  {
    var px := CellPixel(img, p, x, y);
    if p.showImageColor then Rgb(px.r, px.g, px.b) else Css(p.color)
  }

  /** The rectangle passed to `rect` for the bar of length `r` in cell
      `(x, y)`, in the coordinates of the translated context: a vertical bar
      is `r` wide and a tile high, a horizontal one a tile wide and `r` high. */
  function BarRect(d: Direction, x: nat, y: nat, tileW: real, tileH: real, r: real): Box {
    if d == Vertical then Box(x as real * tileW - r / 2.0, y as real * tileH - tileH / 2.0, r, tileH)
    else Box(x as real * tileW - tileW / 2.0, y as real * tileH - r / 2.0, tileW, r)
  }

  function CellRect(img: Image, p: Params, x: nat, y: nat): Box
    requires Ready(img, p) && x < p.tilesX && y < p.tilesY
  {
    BarRect(p.direction, x, y, TileW(img, p), TileH(img, p), CellRadius(img, p, x, y))
  }

  /** What cell `(x, y)` paints, in absolute coordinates: its rectangle under
      the half-tile translation, filled with its colour. */
  function CellShape(img: Image, p: Params, x: nat, y: nat): Shape
    requires Ready(img, p) && x < p.tilesX && y < p.tilesY
  {
    Shape([Moved(CellRect(img, p, x, y), TileW(img, p) / 2.0, TileH(img, p) / 2.0)], CellColor(img, p, x, y))
  }

  /** The full-canvas background fill, unless the background is transparent. */
  function Background(img: Image, p: Params): (bg: seq<Shape>)
    ensures |bg| == if p.filterBG then 0 else 1
  {
    if p.filterBG then []
    else [Shape([Box(0.0, 0.0, img.width as real, img.height as real)], Css(p.colorBG))]
  }

  /** The position of cell `(x, y)` among the cells of a pass over `n` rows:
      the outer loop runs over columns, so whole columns come first. */
  function CellIndex(x: nat, y: nat, n: nat): nat {
    x * n + y
  }

  /** The shapes of cells `(x, 0) .. (x, n - 1)`, in the inner loop's order. */
  function Column(img: Image, p: Params, x: nat, n: nat): (col: seq<Shape>)
    requires Ready(img, p) && x < p.tilesX && n <= p.tilesY
    ensures |col| == n
  {
    if n == 0 then [] else Column(img, p, x, n - 1) + [CellShape(img, p, x, n - 1)]
  }

  /** The shapes of columns `0 .. m - 1`, each column complete. */
  function Grid(img: Image, p: Params, m: nat): seq<Shape>
    requires Ready(img, p) && m <= p.tilesX
  {
    if m == 0 then [] else Grid(img, p, m - 1) + Column(img, p, m - 1, p.tilesY)
  }

  /** `m` complete columns hold `m * tilesY` shapes. */
  lemma {:induction false} GridLength(img: Image, p: Params, m: nat)
    requires Ready(img, p) && m <= p.tilesX
    ensures |Grid(img, p, m)| == m * p.tilesY
  {
    if m > 0 {
      GridLength(img, p, m - 1);
      assert (m - 1) * p.tilesY + p.tilesY == m * p.tilesY;
    }
  }

  /** The display list one full pass leaves in each sink: the background (if
      any) and then one shape per cell, `tilesX * tilesY` of them. */
  function DisplayList(img: Image, p: Params): seq<Shape>
    requires Ready(img, p)
  {
    Background(img, p) + Grid(img, p, p.tilesX)
  }

  /** A pass paints the background (unless it is transparent) and exactly
      one shape per cell. */
  lemma DisplayListLength(img: Image, p: Params)
    requires Ready(img, p)
    ensures |DisplayList(img, p)| == (if p.filterBG then 0 else 1) + p.tilesX * p.tilesY
  {
    GridLength(img, p, p.tilesX);
  }
}
