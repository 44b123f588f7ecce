/** The control panel's maximum-height handler: moving the maximum bar
    length lowers the minimum-height slider's limit to it, pulls the
    minimum down when it would exceed the new maximum, and re-renders. */
module Controls {
  import opened Pixels
  import opened Canvas
  import opened Mosaic
  import opened Render
  import opened MosaicFacts

  /** The minimum bar length after the maximum moves to `value`: the
      smaller of the two, so an old minimum that already fits is kept. */
  function ClampMinH(minH: real, value: real): (r: real)
    ensures r <= value && r <= minH
    ensures r == minH || r == value
  {
    if minH > value then value else minH
  }

  /** A clamped minimum is left alone by a second clamp to the same maximum. */
  lemma ClampMinHIdempotent(minH: real, value: real)
    ensures ClampMinH(ClampMinH(minH, value), value) == ClampMinH(minH, value)
  {
    var r := ClampMinH(minH, value);
    assert r <= value;
  }

  /** The panel: the parameters every pass reads, the upper limit of the
      minimum-height slider, the loaded image and the two sinks. */
  class Panel {
    var params: Params
    /** The largest value the minimum-height slider offers. */
    var minHLimit: real
    var image: Image
    const raster: Sink
    const vector: Sink

    /** The slider invariant: the minimum never exceeds the maximum, which
        is also the minimum slider's limit. */
    predicate Consistent()
      reads this
    {
      params.minH <= minHLimit == params.maxH
    }

    /** The panel's initial parameters: a 10 by 10 grid, bars from 0 to
        100, horizontal, dark grey on white, not inverted. */
    constructor (img: Image, raster: Sink, vector: Sink)
      ensures params == Params(10, 10, 0.0, 100.0, Horizontal, "#282828", false, "#FFFFFF", false, false)
      ensures minHLimit == 100.0
      ensures image == img && this.raster == raster && this.vector == vector
      ensures Consistent()
    {
      params := Params(10, 10, 0.0, 100.0, Horizontal, "#282828", false, "#FFFFFF", false, false);
      minHLimit := 100.0;
      image := img;
      this.raster := raster;
      this.vector := vector;
    }

    /** The maximum-height slider moved to `value`. The slider has already
        stored `value` as the maximum; the handler then sets the minimum
        slider's limit, pulls the minimum down to `value` if it is larger
        (which fires the minimum's own change handler, a render pass), and
        renders once more. Afterwards the panel is consistent whatever it
        was before, only `minH` and `maxH` have moved, both sinks show the
        pass for the new parameters under the half-tile translation, and
        every bar of that pass lies between
        half the new minimum and half the new maximum. */
    method OnMaxHChange(value: real)
      requires Ready(image, params)
      requires raster != vector
      modifies this, raster, vector
      ensures params == old(params).(maxH := value, minH := ClampMinH(old(params.minH), value))
      ensures old(params.minH) <= value ==> params.minH == old(params.minH)
      ensures minHLimit == value && image == old(image)
      ensures Consistent()
      ensures raster.drawn == DisplayList(image, params)
      ensures raster.dx == TileW(image, params) / 2.0 && raster.dy == TileH(image, params) / 2.0
      ensures SameState(raster, vector)
      ensures forall x: nat, y: nat :: x < params.tilesX && y < params.tilesY ==>
        params.minH / 2.0 <= CellRadius(image, params, x, y) <= params.maxH / 2.0
    {
      params := params.(maxH := value);
      minHLimit := value;
      if params.minH > value {
        params := params.(minH := value);
        UpdateMosaic(image, params, raster, vector);
      }
      UpdateMosaic(image, params, raster, vector);
      forall x: nat, y: nat | x < params.tilesX && y < params.tilesY
        ensures params.minH / 2.0 <= CellRadius(image, params, x, y) <= params.maxH / 2.0
      {
        CellRadiusBounds(image, params, x, y);
      }
    }
  }
}
