/** The render body of `updateMosaic`: one pass over the grid that drives
    the raster sink and the vector sink from a single loop. */
module Render {
  import opened Mapping
  import opened Pixels
  import opened Canvas
  import opened Mosaic

  /** One pass. Afterwards each sink holds exactly `DisplayList(img, p)`,
      translated by half a tile, and the two sinks are in the same state
      whatever they held before. */
  method UpdateMosaic(img: Image, p: Params, raster: Sink, vector: Sink)
    requires Ready(img, p)
    requires raster != vector
    modifies raster, vector
    ensures raster.drawn == DisplayList(img, p)
    ensures raster.dx == TileW(img, p) / 2.0 && raster.dy == TileH(img, p) / 2.0
    ensures SameState(raster, vector)
  {
    var tileW := img.width as real / p.tilesX as real;
    var tileH := img.height as real / p.tilesY as real;

    Prepare(img, p, raster, vector);

    for x := 0 to p.tilesX
      invariant raster.dx == vector.dx == tileW / 2.0 && raster.dy == vector.dy == tileH / 2.0
      invariant raster.drawn == vector.drawn == Background(img, p) + Grid(img, p, x)
      invariant x > 0 ==> SameState(raster, vector)
    {
      DrawColumn(img, p, x, raster, vector);
    }
    assert raster.drawn == Background(img, p) + Grid(img, p, p.tilesX);
  }

  /** The inner loop for grid column `x`: cells `(x, 0) .. (x, tilesY - 1)`,
      each painted into both sinks before the next one. */
  method DrawColumn(img: Image, p: Params, x: nat, raster: Sink, vector: Sink)
    requires Ready(img, p) && x < p.tilesX
    requires raster != vector
    requires raster.dx == vector.dx == TileW(img, p) / 2.0 && raster.dy == vector.dy == TileH(img, p) / 2.0
    requires raster.drawn == vector.drawn
    modifies raster, vector
    ensures raster.drawn == old(raster.drawn) + Column(img, p, x, p.tilesY)
    ensures raster.dx == old(raster.dx) && raster.dy == old(raster.dy)
    ensures raster.fillStyle == CellColor(img, p, x, p.tilesY - 1)
    ensures raster.path == CellShape(img, p, x, p.tilesY - 1).area
    ensures SameState(raster, vector)
  {
    for y := 0 to p.tilesY
      invariant raster.dx == vector.dx == old(raster.dx) && raster.dy == vector.dy == old(raster.dy)
      invariant raster.drawn == vector.drawn == old(raster.drawn) + Column(img, p, x, y)
      invariant y > 0 ==> SameState(raster, vector)
      invariant y > 0 ==> raster.fillStyle == CellColor(img, p, x, y - 1)
      invariant y > 0 ==> raster.path == CellShape(img, p, x, y - 1).area
    {
      DrawCell(img, p, x, y, raster, vector);
    }
  }

  /** Before the cells: resize the raster canvas to the image (which resets
      its context), reset the transform of both sinks, clear them, fill
      the background unless it is transparent, and translate both by half a
      tile. */
  method Prepare(img: Image, p: Params, raster: Sink, vector: Sink)
    requires Ready(img, p)
    requires raster != vector
    modifies raster, vector
    ensures raster.drawn == vector.drawn == Background(img, p)
    ensures raster.dx == vector.dx == TileW(img, p) / 2.0 && raster.dy == vector.dy == TileH(img, p) / 2.0
    ensures raster.fillStyle == if p.filterBG then Black else Css(p.colorBG)
    ensures vector.fillStyle == if p.filterBG then old(vector.fillStyle) else Css(p.colorBG)
    ensures raster.path == [] && vector.path == old(vector.path)
  {
    var width, height := img.width as real, img.height as real;
    var tileW := width / p.tilesX as real;
    var tileH := height / p.tilesY as real;

    raster.Resize();
    raster.ResetTransform();
    vector.ResetTransform();
    raster.Clear();
    vector.Clear();

    if !p.filterBG {
      raster.SetFillStyle(Css(p.colorBG));
      raster.FillRect(0.0, 0.0, width, height);
      vector.SetFillStyle(Css(p.colorBG));
      vector.FillRect(0.0, 0.0, width, height);
    }

    raster.Translate(tileW / 2.0, tileH / 2.0);
    vector.Translate(tileW / 2.0, tileH / 2.0);
  }

  /** The sampling half of one iteration: the pixel under cell `(x, y)` and
      the bar length its brightness gives. */
  method SampleCell(img: Image, p: Params, x: nat, y: nat) returns (px: Pixel, radius: real)
    requires Ready(img, p) && x < p.tilesX && y < p.tilesY
    ensures px == CellPixel(img, p, x, y)
    ensures radius == CellRadius(img, p, x, y)
  {
    // map the tile to the image canvas; getImageData reads the pixel there
    var imgX := Map(x as real, 0.0, p.tilesX as real, 0.0, img.width as real).v;
    var imgY := Map(y as real, 0.0, p.tilesY as real, 0.0, img.height as real).v;
    assert imgX.Floor == SampleCoord(x, p.tilesX, img.width);
    assert imgY.Floor == SampleCoord(y, p.tilesY, img.height);
    px := PixelAt(img, imgX.Floor, imgY.Floor);
    var bValue := Brightness(px.r, px.g, px.b);

    if p.invertFilter {
      radius := Map(bValue, 0.0, 255.0, p.minH, p.maxH).v / 2.0;
    } else {
      radius := Map(bValue, 0.0, 255.0, p.maxH, p.minH).v / 2.0;
    }
  }

  /** One iteration of the inner loop: sample the pixel under cell `(x, y)`,
      turn its brightness into a bar length, and paint the same bar with the
      same fill into both sinks. */
  method DrawCell(img: Image, p: Params, x: nat, y: nat, raster: Sink, vector: Sink)
    requires Ready(img, p) && x < p.tilesX && y < p.tilesY
    requires raster != vector
    requires raster.dx == vector.dx == TileW(img, p) / 2.0 && raster.dy == vector.dy == TileH(img, p) / 2.0
    modifies raster, vector
    ensures raster.drawn == old(raster.drawn) + [CellShape(img, p, x, y)]
    ensures vector.drawn == old(vector.drawn) + [CellShape(img, p, x, y)]
    ensures raster.fillStyle == vector.fillStyle == CellColor(img, p, x, y)
    ensures raster.path == vector.path == CellShape(img, p, x, y).area
    ensures raster.dx == old(raster.dx) && raster.dy == old(raster.dy)
    ensures vector.dx == old(vector.dx) && vector.dy == old(vector.dy)
  {
    var width, height := img.width as real, img.height as real;
    var tileW := width / p.tilesX as real;
    var tileH := height / p.tilesY as real;

    var px, radius := SampleCell(img, p, x, y);

    var fill := if p.showImageColor then Rgb(px.r, px.g, px.b) else Css(p.color);
    assert fill == CellColor(img, p, x, y);
    var bar := BarRect(p.direction, x, y, tileW, tileH, radius);
    PaintBar(raster, vector, fill, bar);
  }

  /** The drawing half of one iteration: set the fill of both sinks, then
      fill the same one-rectangle path on the raster sink and on the vector
      sink. */
  method PaintBar(raster: Sink, vector: Sink, fill: Color, bar: Box)
    requires raster != vector
    modifies raster, vector
    ensures raster.drawn == old(raster.drawn) + [Shape([Moved(bar, raster.dx, raster.dy)], fill)]
    ensures vector.drawn == old(vector.drawn) + [Shape([Moved(bar, vector.dx, vector.dy)], fill)]
    ensures raster.fillStyle == vector.fillStyle == fill
    ensures raster.path == [Moved(bar, raster.dx, raster.dy)]
    ensures vector.path == [Moved(bar, vector.dx, vector.dy)]
    ensures raster.dx == old(raster.dx) && raster.dy == old(raster.dy)
    ensures vector.dx == old(vector.dx) && vector.dy == old(vector.dy)
  {
    raster.SetFillStyle(fill);
    vector.SetFillStyle(fill);
    raster.BeginPath();
    raster.Rect(bar.x, bar.y, bar.w, bar.h);
    assert raster.path == [Moved(bar, raster.dx, raster.dy)];
    raster.Fill();
    vector.BeginPath();
    vector.Rect(bar.x, bar.y, bar.w, bar.h);
    assert vector.path == [Moved(bar, vector.dx, vector.dy)];
    vector.Fill();
  }
}
