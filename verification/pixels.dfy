/** The sampled image the heuristic engine works on: a 128 x 128 grid of RGB
    byte triples in row-major order, as the canvas hands it over after
    resampling (the alpha channel is never read). */
module Pixels {
  import opened Numeric

  const Side: nat := 128
  const PixelCount: nat := Side * Side

  type Byte = x: int | 0 <= x < 256

  datatype Pixel = Pixel(r: Byte, g: Byte, b: Byte)

  const Black: Pixel := Pixel(0, 0, 0)
  const White: Pixel := Pixel(255, 255, 255)

  /** The resampled canvas: exactly `PixelCount` pixels, row after row. */
  type Image = s: seq<Pixel> | |s| == PixelCount witness seq(PixelCount, _ => Black)

  /** Position of pixel (x, y) in the row-major buffer. */
  function Index(x: nat, y: nat): (i: nat)
    requires x < Side && y < Side
    ensures i < PixelCount
  {
    y * 128 + x
  }

  /** Perceptual luminance with the weights 0.299 / 0.587 / 0.114. The weights
      sum to one, so byte channels give a value in [0, 255]. */
  function Luminance(p: Pixel): (l: real)
    ensures 0.0 <= l <= 255.0
    ensures p.r == p.g == p.b ==> l == p.r as real
  {
    0.299 * p.r as real + 0.587 * p.g as real + 0.114 * p.b as real
  }

  function RedOf(p: Pixel): Byte { p.r }
  function GreenOf(p: Pixel): Byte { p.g }
  function BlueOf(p: Pixel): Byte { p.b }

  /** One channel of every pixel, in buffer order. */
  function Channel(img: Image, c: Pixel -> Byte): (s: seq<real>)
    ensures |s| == PixelCount
    ensures forall i :: 0 <= i < PixelCount ==> 0.0 <= s[i] <= 255.0
  {
    seq(PixelCount, i requires 0 <= i < PixelCount => c(img[i]) as real)
  }

  /** The luminance buffer `grays`, computed once per pixel and reused by every
      later statistic. */
  function Grays(img: Image): (gs: seq<real>)
    ensures |gs| == PixelCount
    ensures forall i :: 0 <= i < PixelCount ==> 0.0 <= gs[i] <= 255.0
  {
    seq(PixelCount, i requires 0 <= i < PixelCount => Luminance(img[i]))
  }

  predicate Uniform(img: Image)
  {
    forall i :: 0 <= i < PixelCount ==> img[i] == img[0]
  }
}
