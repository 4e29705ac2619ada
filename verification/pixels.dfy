/**
 The pixel buffer a 2D canvas returns from getImageData, and the brightness
 test the particle sampler applies to each pixel of it.

 Pixels are numbered in row-major scan order: pixel p sits in column
 p % width and row p / width, and its four channels R, G, B, A occupy
 data[4p .. 4p + 4].
 */
module Pixels {

  /** One 8-bit channel value, as stored in a Uint8ClampedArray. */
  type byte = x: int | 0 <= x < 256

  /** Canvas image data: a width, a height and row-major RGBA bytes. */
  datatype ImageData = ImageData(width: nat, height: nat, data: seq<byte>)

  /** width * height, as repeated addition of whole rows: the number of
      pixels in the first h rows of a width-w image. */
  function Area(w: nat, h: nat): nat
  {
    if h == 0 then 0 else Area(w, h - 1) + w
  }

  /** Image data whose buffer holds exactly four channels per pixel, which is
      what getImageData returns for a width x height region. */
  type Image = d: ImageData | |d.data| == 4 * Area(d.width, d.height)
    witness ImageData(0, 0, [])

  function PixelCount(img: Image): nat
  {
    Area(img.width, img.height)
  }

  /** 4 * p + 3 indexes the buffer whenever p names a pixel. */
  lemma ChannelsInBuffer(img: Image, p: nat)
    requires p < PixelCount(img)
    ensures 4 * p + 3 < |img.data|
  {
  }

  function Red(img: Image, p: nat): byte
    requires p < PixelCount(img)
  {
    ChannelsInBuffer(img, p);
    img.data[4 * p]
  }

  function Green(img: Image, p: nat): byte
    requires p < PixelCount(img)
  {
    ChannelsInBuffer(img, p);
    img.data[4 * p + 1]
  }

  function Blue(img: Image, p: nat): byte
    requires p < PixelCount(img)
  {
    ChannelsInBuffer(img, p);
    img.data[4 * p + 2]
  }

  /** Area is the product of its arguments. */
  lemma {:induction false} AreaIsProduct(w: nat, h: nat)
    ensures Area(w, h) == w * h
  {
    if h > 0 {
      AreaIsProduct(w, h - 1);
    }
  }

  /** More rows never hold fewer pixels; a row more holds at least one row more. */
  lemma {:induction false} AreaMonotone(w: nat, h: nat, h': nat)
    requires h <= h'
    ensures Area(w, h) <= Area(w, h')
    ensures h < h' ==> Area(w, h) + w <= Area(w, h')
    decreases h'
  {
    if h < h' {
      AreaMonotone(w, h, h' - 1);
    }
  }

  /** The scan index of the first pixel of row y; row `height` starts just
      past the last pixel. */
  function RowStart(img: Image, y: nat): (p: nat)
    requires y <= img.height
    ensures p <= PixelCount(img)
    ensures y < img.height ==> p + img.width <= PixelCount(img)
  {
    AreaMonotone(img.width, y, img.height);
    Area(img.width, y)
  }

  /** An image with a pixel has at least one row and one column. */
  lemma {:induction false} HasPixel(img: Image, p: nat)
    requires p < PixelCount(img)
    ensures img.width > 0 && img.height > 0
  {
    if img.width == 0 {
      AreaIsProduct(img.width, img.height);
    }
  }

  /** A pixel index at or past the start of row y lies in the image only if
      row y does. */
  lemma {:induction false} RowInImage(img: Image, y: nat, p: nat)
    requires Area(img.width, y) <= p < PixelCount(img)
    ensures y < img.height
  {
    if y >= img.height {
      AreaMonotone(img.width, img.height, y);
    }
  }

  /** The column of pixel p: p less as many whole rows as fit. */
  function Column(img: Image, p: nat): (x: nat)
    requires p < PixelCount(img)
    ensures x < img.width
    decreases p
  {
    HasPixel(img, p);
    if p < img.width then p else Column(img, p - img.width)
  }

  /** The row of pixel p, counted from the top of the image. Row and Column
      together recover p. */
  function Row(img: Image, p: nat): (y: nat)
    requires p < PixelCount(img)
    ensures y < img.height
    ensures RowStart(img, y) + Column(img, p) == p
    decreases p
  {
    HasPixel(img, p);
    if p < img.width then 0
    else
      var y := Row(img, p - img.width) + 1;
      RowInImage(img, y, p);
      y
  }

  /** Row y + 1 starts where row y ends. */
  lemma NextRow(img: Image, y: nat)
    requires y < img.height
    ensures RowStart(img, y) + img.width == RowStart(img, y + 1)
  {
  }

  /** Row y starts at y * width. */
  lemma RowStartIsProduct(img: Image, y: nat)
    requires y <= img.height
    ensures RowStart(img, y) == y * img.width
  {
    AreaIsProduct(img.width, y);
  }

  /** RowStart(q) + r with 0 <= r < width determines the row q and column r. */
  lemma RowColumnUnique(img: Image, q: nat, r: nat, q': nat, r': nat)
    requires q < img.height && q' < img.height && r < img.width && r' < img.width
    requires RowStart(img, q) + r == RowStart(img, q') + r'
    ensures q == q' && r == r'
  {
    if q < q' {
      AreaMonotone(img.width, q, q');
    } else if q' < q {
      AreaMonotone(img.width, q', q);
    }
  }

  /** The scan index of column x in row y: y * width + x. Column and Row
      give x and y back. */
  function PixelIndex(img: Image, x: nat, y: nat): (p: nat)
    requires x < img.width && y < img.height
    ensures p < PixelCount(img)
    ensures Column(img, p) == x && Row(img, p) == y
  {
    var p := RowStart(img, y) + x;
    RowColumnUnique(img, Row(img, p), Column(img, p), y, x);
    p
  }

  /** Mean of the three colour channels, normalised to [0, 1]:
      (r + g + b) / (3 * 255). Alpha plays no part. */
  function Brightness(r: byte, g: byte, b: byte): (v: real)
    ensures 0.0 <= v <= 1.0
    ensures v == 0.0 <==> r == 0 && g == 0 && b == 0
    ensures v == 1.0 <==> r == 255 && g == 255 && b == 255
  {
    (r + g + b) as real / 765.0
  }

  function PixelBrightness(img: Image, p: nat): real
    requires p < PixelCount(img)
  {
    Brightness(Red(img, p), Green(img, p), Blue(img, p))
  }

  /** A pixel produces a particle exactly when its brightness is strictly
      greater than the threshold. */
  predicate Accepted(img: Image, threshold: real, p: nat)
    requires p < PixelCount(img)
  {
    PixelBrightness(img, p) > threshold
  }

  /** The pixels among the first n that pass the threshold. */
  function AcceptedSet(img: Image, threshold: real, n: nat): set<nat>
    requires n <= PixelCount(img)
  {
    set p: nat | p < n && Accepted(img, threshold, p)
  }

  /** Scan order is row-major order: pixel p comes before pixel p' exactly
      when it lies in an earlier row, or in the same row further left. */
  lemma {:induction false} RowMajor(img: Image, p: nat, p': nat)
    requires p < PixelCount(img) && p' < PixelCount(img)
    ensures p < p' <==> Row(img, p) < Row(img, p') || (Row(img, p) == Row(img, p') && Column(img, p) < Column(img, p'))
  {
    var q, q' := Row(img, p), Row(img, p');
    if q < q' {
      AreaMonotone(img.width, q + 1, q');
    } else if q' < q {
      AreaMonotone(img.width, q' + 1, q);
    }
  }

  /** Scanning one more pixel adds it to the accepted set exactly when it is
      accepted; it was not among the earlier pixels. */
  lemma AcceptedSetStep(img: Image, threshold: real, n: nat)
    requires n < PixelCount(img)
    ensures n !in AcceptedSet(img, threshold, n)
    ensures AcceptedSet(img, threshold, n + 1)
            == if Accepted(img, threshold, n) then AcceptedSet(img, threshold, n) + {n}
               else AcceptedSet(img, threshold, n)
  {
  }

  /** Raising the threshold can only remove pixels from the accepted set. */
  lemma AcceptedSetAntitone(img: Image, t1: real, t2: real, n: nat)
    requires t1 <= t2 && n <= PixelCount(img)
    ensures AcceptedSet(img, t2, n) <= AcceptedSet(img, t1, n)
  {
  }
}
