# Mosaic renderer — a Dafny model

This project models the core of a browser tool that turns an image into a
mosaic of bars. The image is divided into a `tilesX` by `tilesY` grid. For
each cell the renderer:

- reads the pixel under the cell's top-left corner;
- averages its red, green and blue channels into a brightness;
- remaps that brightness linearly onto the range between `minH` and `maxH`
  (brighter means shorter, unless inverted) and halves it, giving a bar
  length between `minH / 2` and `maxH / 2`;
- paints a horizontal or vertical bar centred in the cell.

Every bar is painted twice, into a raster canvas context and into an SVG
recording context, from one loop. A control panel holds the parameters. When
the maximum bar length is changed, the panel clamps the minimum down to it.

Modules:

- `Mapping`: the p5.js-style `map`, and its algebra (endpoints, affinity,
  inverse, monotonicity, no clamping).
- `Pixels`: the image as read back through `getImageData`, and `brightness`.
- `Canvas`: a drawing context (`Sink`), the part of the 2D canvas API the
  renderer uses. It keeps a translation, a fill style, a current path and a
  display list of what it has painted, in absolute coordinates.
- `Mosaic`: specification functions for one pass. It defines:
  - which pixel each cell samples;
  - the bar length law (`Radius`);
  - the rectangle and fill of each cell;
  - the display list a whole pass leaves in a sink (`DisplayList`).
- `Render`: the pass itself (`UpdateMosaic`), written as the source writes
  it. It resets and clears both sinks, fills the background (unless it is
  transparent), then translates both sinks by half a tile, and runs the
  x-outer, y-inner loop. It is proved to leave `DisplayList` in both
  sinks, which end in the same state.
- `MosaicFacts`: properties of a pass:
  - cardinality and x-outer/y-inner order;
  - the background rule;
  - bar-length bounds, flattening, monotonicity and invert symmetry;
  - bar geometry under the half-tile translation, and bars tiling each row
    or column;
  - a worked 2×2 example.
- `Controls`: the panel (`Panel`) and its maximum-height handler.

## Model

| member | source | states |
|---|---|---|
| Mapping.Map | src/main.js:229-231 | the result is a finite number exactly when the input range is non-empty; otherwise it is NaN/Infinity |
| Mapping.MapOnLine | src/main.js:229-231 | a finite result lies on the line through `(start1, start2)` and `(stop1, stop2)` |
| Mapping.MapEndpoints | src/main.js:229-231 | `start1` maps to `start2` and `stop1` maps to `stop2` |
| Mapping.MapAffine | src/main.js:229-231 | `map` commutes with affine combinations of inputs |
| Mapping.MapRoundTrip | src/main.js:229-231 | mapping back with the ranges swapped recovers the value when both ranges are non-empty |
| Mapping.MapMonotone | src/main.js:229-231 | order is preserved over an increasing output range and reversed over a decreasing one |
| Mapping.MapInRangeIff | src/main.js:229-231 | no clamping: the result is inside `[start2, stop2]` if and only if the value is inside `[start1, stop1]` |
| Pixels.Brightness | src/main.js:232-234 | the mean lies between the smallest and largest channel, so in [0, 255]; it is 0 only for black and 255 only for white |
| Canvas.Sink.constructor | src/main.js:27-29 | a fresh context has no transform, a black fill, an empty path and nothing painted |
| Canvas.Sink.Resize | src/main.js:146-147 | resizing the raster canvas returns its context to the initial state and erases it |
| Canvas.Sink.ResetTransform | src/main.js:157-159 | the translation becomes zero; nothing else changes |
| Canvas.Sink.Clear | src/main.js:160-161 | everything painted is erased; transform, style and path are kept |
| Canvas.Sink.SetFillStyle | src/main.js:193-199 | only the fill style changes |
| Canvas.Sink.FillRect | src/main.js:164-169 | appends one rectangle, translated by the current transform, in the current style; the path is untouched |
| Canvas.Sink.Translate | src/main.js:170-172 | translations accumulate onto the current one |
| Canvas.Sink.BeginPath | src/main.js:200-214 | the path becomes empty; nothing is painted |
| Canvas.Sink.Rect | src/main.js:200-214 | appends the translated rectangle to the path; nothing is painted |
| Canvas.Sink.Fill | src/main.js:200-214 | paints the current path in the current style, or nothing if the path is empty |
| Mosaic.TileW | src/main.js:154 | defines the tile width, the image width divided by `tilesX` |
| Mosaic.TileH | src/main.js:155 | defines the tile height, the image height divided by `tilesY` |
| Pixels.PixelAt | src/main.js:180-184 | defines the red, green and blue channels that `getImageData(x, y, 1, 1)` returns for an in-bounds integer pixel |
| Mosaic.SampleCoord | src/main.js:176-180 | the truncated sample coordinate of every grid index lies inside the image |
| Mosaic.SampleCoordIsQuotient | src/main.js:176-180 | the sampled coordinate is the integer quotient `i * dim div tiles` |
| Mosaic.FloorBounds | src/main.js:180 | truncating `n / tiles` gives the integer quotient |
| Mosaic.CellPixel | src/main.js:177-184 | defines the pixel read for cell `(x, y)`, at the truncated mapped coordinates |
| Mosaic.CellBrightness | src/main.js:186 | defines the brightness of the pixel read for cell `(x, y)` |
| Mosaic.Radius | src/main.js:185-192 | brightness 0 gives `maxH / 2` and brightness 255 gives `minH / 2`; `invert` swaps the two |
| Mosaic.CellRadius | src/main.js:186-192 | defines the bar length of cell `(x, y)`: `Radius` of its brightness under the panel's `minH`, `maxH` and `invertFilter` |
| Mosaic.CellColor | src/main.js:193-199 | defines the fill of cell `(x, y)`: `rgb(r, g, b)` of its pixel when image colours are on, otherwise the tile colour |
| Mosaic.BarRect | src/main.js:200-214 | defines the arguments of `rect`: a vertical bar `(x * tileW - r / 2, y * tileH - tileH / 2, r, tileH)`, a horizontal one `(x * tileW - tileW / 2, y * tileH - r / 2, tileW, r)` |
| Mosaic.CellRect | src/main.js:200-214 | defines the rectangle of cell `(x, y)`: `BarRect` with the pass's tile size and the cell's bar length |
| Mosaic.CellShape | src/main.js:171-214 | defines what cell `(x, y)` paints: its rectangle moved by the half-tile translation, in its fill |
| Mosaic.Background | src/main.js:163-169 | one background shape unless the background is transparent, otherwise none |
| Mosaic.Column | src/main.js:174-215 | the inner loop over `n` rows yields exactly `n` shapes |
| Mosaic.Grid | src/main.js:173-216 | defines the shapes of the first `m` complete columns, column by column |
| Mosaic.CellIndex | src/main.js:173-174 | defines the position `x * tilesY + y` of cell `(x, y)` among the cells of a pass |
| Mosaic.GridLength | src/main.js:173-216 | `m` complete columns yield `m * tilesY` shapes |
| Mosaic.DisplayList | src/main.js:163-216 | defines what one pass leaves in a sink: the background (if any) followed by all columns |
| Mosaic.DisplayListLength | src/main.js:154-216 | a pass paints the background (unless it is transparent) plus exactly `tilesX * tilesY` bars |
| Render.UpdateMosaic | src/main.js:146-216 | starting from any state, both sinks end holding `DisplayList`, translated by half a tile, and in the same state |
| Render.Prepare | src/main.js:146-172 | after the set-up, both sinks hold only the background and are translated by half a tile; the raster sink has an empty path and a black or background fill, while the vector sink keeps its path and takes the background fill only when the background is drawn |
| Render.DrawColumn | src/main.js:174-215 | the inner loop appends column `x` in row order to both sinks and keeps them equal |
| Render.SampleCell | src/main.js:176-192 | the pixel read and the bar length computed are those of cell `(x, y)` |
| Render.DrawCell | src/main.js:176-214 | one iteration appends the cell's shape to both sinks and leaves the same style and path in both |
| Render.PaintBar | src/main.js:193-214 | the same style and the same one-rectangle path are filled in the raster sink and then in the vector sink |
| MosaicFacts.ColumnAt | src/main.js:174-215 | the `y`-th shape of column `x` is cell `(x, y)` |
| MosaicFacts.GridAt | src/main.js:173-216 | x-outer, y-inner order: cell `(x, y)` is at position `x * tilesY + y` |
| MosaicFacts.DisplayListOrder | src/main.js:163-216 | the background comes first, then the cells, cell `(x, y)` at offset `x * tilesY + y` after it |
| MosaicFacts.DisplayListBackground | src/main.js:163-169 | the background is drawn if and only if it is not transparent; it is the first shape and covers the untranslated canvas in `colorBG` |
| MosaicFacts.RadiusInvertSymmetry | src/main.js:187-192 | the inverted bar at brightness `b` equals the plain bar at `255 - b` |
| MosaicFacts.RadiusBounds | src/main.js:185-192 | for brightness in [0, 255] and `minH <= maxH`, the bar length is between `minH / 2` and `maxH / 2` |
| MosaicFacts.RadiusFlat | src/main.js:187-192 | when `minH == maxH == k`, every bar is `k / 2` |
| MosaicFacts.RadiusMonotone | src/main.js:187-192 | brighter never means longer, and with `invert` never shorter |
| MosaicFacts.CellRadiusBounds | src/main.js:176-192 | every cell's bar is between `minH / 2` and `maxH / 2`, and it is `minH / 2` when the range is flat |
| MosaicFacts.InvertToggle | src/main.js:186-192 | toggling `invertFilter` gives each cell the bar of the complementary brightness |
| MosaicFacts.HorizontalBar | src/main.js:171-213 | a horizontal bar spans `[x * tileW, (x + 1) * tileW]`, is centred at `y * tileH + tileH / 2`, and has height equal to the cell's bar length |
| MosaicFacts.VerticalBar | src/main.js:171-206 | a vertical bar spans `[y * tileH, (y + 1) * tileH]`, is centred at `x * tileW + tileW / 2`, and has width equal to the cell's bar length |
| MosaicFacts.HorizontalStep | src/main.js:207-213 | neighbouring horizontal bars in a row abut |
| MosaicFacts.VerticalStep | src/main.js:200-206 | neighbouring vertical bars in a column abut |
| MosaicFacts.RowTiling | src/main.js:171-213 | horizontal bars tile each row from 0 to the image width without gaps or overlaps |
| MosaicFacts.ColumnTiling | src/main.js:171-206 | vertical bars tile each column from 0 to the image height without gaps or overlaps |
| MosaicFacts.SingleTile | src/main.js:154-213 | a 1×1 grid paints one bar spanning the whole canvas across the bar direction |
| MosaicFacts.Checkerboard | src/main.js:176-192 | a 2×2 black/white checkerboard with bars from 0 to 100 gives bar lengths 50, 0, 0, 50 |
| Controls.ClampMinH | src/main.js:111 | the new minimum is the smaller of the old minimum and the new maximum |
| Controls.ClampMinHIdempotent | src/main.js:111 | clamping twice to the same maximum changes nothing |
| Controls.Panel.constructor | src/main.js:38-48 | the initial parameters are a 10×10 horizontal grid with bars from 0 to 100, and they satisfy `minH <= maxH` |
| Controls.Panel.OnMaxHChange | src/main.js:106-114 | afterwards `minH <= maxH == value`; `minH` is unchanged if it already fit; no other parameter moves; both sinks show the pass for the new parameters under the half-tile translation, in which every bar lies between `minH / 2` and `maxH / 2` |

## Left out

- The on-screen canvas is not modelled: letterboxing to 80% of the window (lines 129-139) and the final blit of the filter or reference image (lines 217-222), including `showReferenceImage`. They are presentation only and never feed back into the bars.
- Image loading, the random picsum URL, `FileReader`, SVG serialization and download, and `initializeSVGContext` are left out. They are I/O. The image is a parameter of the pass.
- The window resize listener and the debounce helper are left out. They are timers and events; each resize simply runs the same pass.
- The wiring of the other panel controls (lines 102-120) is left out. Each of them only re-runs the pass with the changed parameter. The two buttons (lines 121-122) load an image and download the SVG, both I/O as above.
- Numbers are exact reals, not IEEE doubles, so rounding in `map` and in the tile arithmetic is not modelled. A zero-width input range to `map` is modelled as a distinct non-finite value.
- Drawing the image into the image canvas is modelled as reading its pixels back unchanged. Alpha, colour management and premultiplication are not modelled.
- `getImageData` at fractional coordinates is modelled as truncation to the integer pixel. The coordinates are never negative, so truncation is the floor.
- Fill styles are kept as given: a CSS string, or the three channels of `rgb(r, g, b)`. The canvas's parsing and normalisation of colour strings is not modelled.
- The transform is a translation only. The pass only resets it and translates, so rotation and scaling are left out.
- `clearRect` and `__clearCanvas` always cover the whole canvas here, so `Clear` erases everything. Clearing part of a canvas is not modelled.
- Resizing the vector canvas does not touch the SVG recording context and is not modelled. That context is only reset by `setTransform` and `__clearCanvas`.
- The svgcanvas library's internal SVG tree is not modelled. The vector sink is specified by the same display list as the raster one.
- Render.UpdateMosaic: the final fill style and path are stated only as equal in both sinks. They are not tied to the last cell (`Render.DrawColumn` states that per column).
- Render.UpdateMosaic: requires at least one tile each way (the sliders start at 1) and a loaded image at least one pixel in each dimension. A pass can start before the first image has loaded, from any slider's change handler (lines 102-120) or from the debounced resize listener (line 250). The image then has width 0 and the SVG context is still undefined, so the pass throws at line 159. That error path is not modelled.
- Controls.Panel.OnMaxHChange: requires a loaded image, like `Render.UpdateMosaic`. Moved before the image has loaded, the handler throws at line 159 in its first pass, and that error path is not modelled.
- Controls.Panel.OnMaxHChange: the slider's own range (0 to 1000 in steps of 1) is not modelled. The handler is specified for every value.
