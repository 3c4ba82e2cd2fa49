/**
 * The glyph mask of the words "LOCK" and "IN": where the two words are laid out on the
 * canvas, which word a column belongs to, and which pixels are part of the text.
 */
module Glyph {
  import opened Wrappers

  /** What createTextImageData records about the layout of the two words. */
  datatype TextMetrics = TextMetrics(
    startX: real, startY: real, lockWidth: real, textSpacing: real, fontSize: real)

  /**
   * What the canvas hands back after the two words are drawn: the RGBA bytes of
   * getImageData(0, 0, width, height) and the measureText widths of the two words.
   */
  datatype Raster = Raster(data: seq<int>, lockWidth: real, inWidth: real)

  function FontSize(mobile: bool): real
  {
    if mobile then 60.0 else 110.0
  }

  function TextSpacing(mobile: bool): real
  {
    if mobile then 15.0 else 50.0
  }

  /** The metrics createTextImageData computes for a canvas of the given size. */
  function Layout(width: nat, height: nat, mobile: bool, lockWidth: real, inWidth: real): TextMetrics
  {
    var fontSize := FontSize(mobile);
    var textSpacing := TextSpacing(mobile);
    var totalWidth := lockWidth + inWidth + textSpacing;
    var startX := width as real / 2.0 - totalWidth / 2.0;
    var startY := height as real * 0.48 + fontSize / 3.0;
    TextMetrics(startX, startY, lockWidth, textSpacing, fontSize)
  }

  /** The column from which on a pixel belongs to "IN": midway through the gap. */
  function Boundary(t: TextMetrics): real
  {
    t.startX + t.lockWidth + t.textSpacing / 2.0
  }

  /** isPixelInSecondWord: false without metrics, otherwise a single threshold on x. */
  function IsPixelInSecondWord(metrics: Option<TextMetrics>, x: real): (b: bool)
    ensures metrics.None? ==> !b
    ensures metrics.Some? ==> (b <==> Boundary(metrics.value) <= x)
  {
    if metrics.None? then false
    else Boundary(metrics.value) <= x
  }

  /** The test is monotone in x: once a column is in the second word, so is every column right of it. */
  lemma SecondWordMonotone(metrics: Option<TextMetrics>, x1: real, x2: real)
    requires x1 <= x2 && IsPixelInSecondWord(metrics, x1)
    ensures IsPixelInSecondWord(metrics, x2)
  {
  }

  /**
   * With the words laid out by Layout, every column of "LOCK" is in the first word and every
   * column of "IN" in the second, and the pair of words is centred on the canvas.
   */
  lemma LayoutSeparatesWords(width: nat, height: nat, mobile: bool, lockWidth: real, inWidth: real, x: real)
    requires 0.0 <= lockWidth && 0.0 <= inWidth
    ensures var t := Layout(width, height, mobile, lockWidth, inWidth);
      && t.startX + (lockWidth + inWidth + t.textSpacing) / 2.0 == width as real / 2.0
      && (t.startX <= x <= t.startX + lockWidth ==> !IsPixelInSecondWord(Some(t), x))
      && (t.startX + lockWidth + t.textSpacing <= x ==> IsPixelInSecondWord(Some(t), x))
  {
  }

  /** data[i] as JavaScript reads it: an index outside the buffer gives undefined, which is not > 128. */
  function Alpha(data: seq<int>, i: int): int
  {
    if 0 <= i < |data| then data[i] else 0
  }

  /**
   * The index of the first byte of row y in an RGBA buffer of the given width, one row of
   * 4 * width bytes at a time (RowStartIsProduct gives the closed form y * width * 4).
   */
  function RowStart(width: nat, y: int): int
    decreases if y < 0 then -y else y
  {
    if y == 0 then 0
    else if y > 0 then RowStart(width, y - 1) + 4 * width
    else RowStart(width, y + 1) - 4 * width
  }

  lemma {:induction false} RowStartIsProduct(width: nat, y: int)
    ensures RowStart(width, y) == y * width * 4
    decreases if y < 0 then -y else y
  {
    if y > 0 {
      RowStartIsProduct(width, y - 1);
    } else if y < 0 {
      RowStartIsProduct(width, y + 1);
    }
  }

  /** The index of the alpha byte of pixel (x, y) in an RGBA buffer of the given width. */
  function AlphaIndex(width: nat, x: int, y: int): int
  {
    RowStart(width, y) + 4 * x + 3
  }

  /** The pixel is part of the drawn text: its alpha exceeds 128. */
  predicate Accepts(data: seq<int>, width: nat, x: int, y: int)
  {
    Alpha(data, AlphaIndex(width, x, y)) > 128
  }

  /** An accepted pixel lies in a non-empty buffer, so the canvas has both dimensions positive. */
  lemma AcceptedMeansNonEmpty(data: seq<int>, width: nat, height: nat, x: int, y: int)
    requires |data| == width * height * 4
    requires Accepts(data, width, x, y)
    ensures width > 0 && height > 0
    ensures 0 <= AlphaIndex(width, x, y) < |data| && data[AlphaIndex(width, x, y)] > 128
  {
  }
}
