/** The image as `updateMosaic` reads it back through `getImageData`, and
    `brightness`, the brightness of one pixel. */
module Pixels {

  /** One 8-bit colour channel, as `getImageData` reports it. */
  type Channel = c: int | 0 <= c <= 255

  /** The red, green and blue channels of one pixel (alpha is never read). */
  datatype Pixel = Pixel(r: Channel, g: Channel, b: Channel)

  /** The image drawn into the image canvas: `rows[y][x]` is the pixel in
      column `x` of row `y`. */
  datatype Image = Image(width: nat, height: nat, rows: seq<seq<Pixel>>)

  /** The canvas is at least one pixel wide and high and every row has
      `width` pixels. */
  predicate WellFormed(img: Image) {
    && img.width >= 1
    && img.height >= 1
    && |img.rows| == img.height
    && forall row :: row in img.rows ==> |row| == img.width
  }

  /** `getImageData(x, y, 1, 1)` on an in-bounds integer pixel. */
  function PixelAt(img: Image, x: int, y: int): Pixel
    requires WellFormed(img)
    requires 0 <= x < img.width && 0 <= y < img.height
  {
    assert img.rows[y] in img.rows;
    img.rows[y][x]
  }

  function Min3(a: int, b: int, c: int): int {
    if a <= b && a <= c then a else if b <= c then b else c
  }

  function Max3(a: int, b: int, c: int): int {
    if a >= b && a >= c then a else if b >= c then b else c
  }

  /** `brightness(r, g, b)`: the mean of the three channels. It lies between
      the darkest and the brightest channel, hence in [0, 255], and it is 0
      only for black and 255 only for white. */
  function Brightness(r: Channel, g: Channel, b: Channel): (v: real)
    ensures Min3(r, g, b) as real <= v <= Max3(r, g, b) as real
    ensures 0.0 <= v <= 255.0
    ensures v == 0.0 <==> r == 0 && g == 0 && b == 0
    ensures v == 255.0 <==> r == 255 && g == 255 && b == 255
  {
    (r + g + b) as real / 3.0
  }
}
