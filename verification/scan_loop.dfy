/**
 The nested loop of createImageParticleSystem as it is written: rows top to
 bottom, columns left to right, reading the channels at (y * width + x) * 4
 and pushing into the five arrays. It is proved to build exactly the layout
 of the recursive scan in Sampler.
 */
module ScanLoop {
  import opened Pixels
  import opened Sampler
  import SamplerFacts

  /** b holds the arrays after the first n pixels of the scan. */
  ghost predicate ScannedTo(img: Image, opts: Options, rand: Draws, n: nat, b: Buffers)
  {
    n <= PixelCount(img) && b == Layout(Scan(img, opts, rand, n))
  }

  /** Visiting column x of row y (scan index p) extends the scan by exactly
      that pixel, read from the buffer at p * 4: its record is pushed when it
      is bright enough, and nothing happens otherwise. */
  lemma VisitStep(img: Image, opts: Options, rand: Draws, x: nat, y: nat, p: nat)
    requires x < img.width && y < img.height
    requires p == RowStart(img, y) + x
    ensures p < PixelCount(img) && PixelIndex(img, x, y) == p
    ensures var px := Pixel(x, y, img.data[p * 4], img.data[p * 4 + 1], img.data[p * 4 + 2]);
            && (Brightness(px.r, px.g, px.b) > opts.threshold ==>
                  Layout(Scan(img, opts, rand, p + 1))
                  == Push(Layout(Scan(img, opts, rand, p)),
                          Emit(px, img.width, img.height, opts.scale, rand, Count(Layout(Scan(img, opts, rand, p))))))
            && (Brightness(px.r, px.g, px.b) <= opts.threshold ==>
                  Layout(Scan(img, opts, rand, p + 1)) == Layout(Scan(img, opts, rand, p)))
  {
    assert p == PixelIndex(img, x, y);
    assert PixelAt(img, p) == Pixel(x, y, img.data[p * 4], img.data[p * 4 + 1], img.data[p * 4 + 2]);
    ScanStep(img, opts, rand, p);
  }

  /** The buffer offset (y * width + x) * 4 the loop computes is four times
      the scan index of column x in row y. */
  lemma BufferIndex(img: Image, x: nat, y: nat, p: nat)
    requires x < img.width && y < img.height
    requires p == RowStart(img, y) + x
    ensures (y * img.width + x) * 4 == p * 4
  {
    RowStartIsProduct(img, y);
  }

  /** One pass of the inner loop body: read pixel (x, y), scan index p, and
      when it is brighter than the threshold push its record into the five
      arrays. */
  method VisitPixel(img: Image, opts: Options, rand: Draws, x: nat, y: nat, ghost p: nat, b: Buffers)
    returns (b': Buffers)
    requires x < img.width && y < img.height && p == RowStart(img, y) + x
    requires ScannedTo(img, opts, rand, p, b)
    ensures ScannedTo(img, opts, rand, p + 1, b')
  {
    VisitStep(img, opts, rand, x, y, p);
    BufferIndex(img, x, y, p);
    var index := (y * img.width + x) * 4;
    assert index == p * 4;
    var r := img.data[index];
    var g := img.data[index + 1];
    var bl := img.data[index + 2];
    ghost var px := Pixel(x, y, r, g, bl);
    assert px == Pixel(x, y, img.data[p * 4], img.data[p * 4 + 1], img.data[p * 4 + 2]);
    if Brightness(r, g, bl) > opts.threshold {
      b' := Push(b, Emit(Pixel(x, y, r, g, bl), img.width, img.height, opts.scale, rand, |b.offsets|));
    } else {
      b' := b;
    }
  }

  /** The inner loop over the columns of row y, left to right. */
  method ScanRow(img: Image, opts: Options, rand: Draws, y: nat, b: Buffers) returns (b': Buffers)
    requires y < img.height
    requires ScannedTo(img, opts, rand, RowStart(img, y), b)
    ensures ScannedTo(img, opts, rand, RowStart(img, y + 1), b')
  {
    NextRow(img, y);
    ghost var end := RowStart(img, y + 1);
    b' := b;
    var x: nat := 0;
    ghost var p := RowStart(img, y);
    while x < img.width
      invariant x <= img.width && p == RowStart(img, y) + x
      invariant ScannedTo(img, opts, rand, p, b')
    {
      b' := VisitPixel(img, opts, rand, x, y, p, b');
      x := x + 1;
      p := p + 1;
    }
    assert p == end;
  }

  /** The scan starts from five empty arrays at row 0 and ends at the start
      of the row past the last, which is the whole image. */
  lemma ScanBounds(img: Image, opts: Options, rand: Draws)
    ensures ScannedTo(img, opts, rand, RowStart(img, 0), NoBuffers)
    ensures forall b :: ScannedTo(img, opts, rand, RowStart(img, img.height), b) ==> b == Layout(Sample(img, opts, rand))
  {
  }

  /** The outer loop over the rows, top to bottom. */
  method ScanRows(img: Image, opts: Options, rand: Draws) returns (b: Buffers)
    ensures b == Layout(Sample(img, opts, rand))
  {
    ScanBounds(img, opts, rand);
    b := NoBuffers;
    var y: nat := 0;
    while y < img.height
      invariant y <= img.height
      invariant ScannedTo(img, opts, rand, RowStart(img, y), b)
    {
      b := ScanRow(img, opts, rand, y, b);
      y := y + 1;
    }
    assert y == img.height;
  }

  /** The scan loop of createImageParticleSystem: rows top to bottom, columns
      left to right, pushing into the five arrays for every pixel brighter
      than the threshold. The arrays are aligned, hold one record per pixel
      above the threshold, and record k is particle k of Sample. */
  method CreateImageParticleSystem(img: Image, opts: Options, rand: Draws) returns (b: Buffers)
    ensures b == Layout(Sample(img, opts, rand))
    ensures Aligned(b) && Count(b) == |AcceptedSet(img, opts.threshold, PixelCount(img))|
    ensures forall k :: 0 <= k < Count(b) ==> RecordAt(b, k) == Sample(img, opts, rand)[k]
  {
    b := ScanRows(img, opts, rand);
    SamplerFacts.SampleLayout(img, opts, rand);
  }
}
