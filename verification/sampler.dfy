/**
 The image-to-particle sampler of createImageParticleSystem: a row-major scan
 over the pixels that keeps each pixel brighter than the threshold and turns it
 into one particle record, laid out across five index-aligned attribute arrays
 (position, aOriginal, aOffset, aInfluence, aColor).

 Floats are exact reals here. Math.random is replaced by an injected stream of
 draws: the k-th emitted particle takes draw 3k for its z jitter, 3k + 1 for
 its wave offset and 3k + 2 for its influence, the order the scan calls it in.
 */
module Sampler {
  import opened Pixels

  datatype Vec3 = Vec3(x: real, y: real, z: real)

  /** One emitted point: render position, rest (undisplaced) position, wave
      phase offset, displacement influence and RGB colour. */
  datatype Particle = Particle(position: Vec3, rest: Vec3, offset: real, influence: real, color: Vec3)

  /** The sampler's options. maxPoints is accepted but never read. */
  datatype Options = Options(threshold: real, maxPoints: int, scale: real)

  /** The defaults createImageParticleSystem declares for omitted options. */
  const DefaultOptions: Options := Options(0.01, 50000, 1.5)

  /** Math.PI, as JavaScript prints it. */
  const PI: real := 3.141592653589793

  /** An injected source of random draws, standing in for Math.random. */
  type Draws = nat -> real

  /** Every draw lies in [0, 1), as Math.random promises. */
  ghost predicate UnitDraws(rand: Draws)
  {
    forall i: nat :: 0.0 <= rand(i) < 1.0
  }

  // ---------------------------------------------------------------------------
  // Per-pixel mappings
  // ---------------------------------------------------------------------------

  /** Column x of a width-w image in normalised device coordinates. */
  function NormX(x: nat, w: nat): (nx: real)
    requires x < w
    ensures -1.0 <= nx < 1.0
  {
    assert x as real / w as real < 1.0;
    (x as real / w as real) * 2.0 - 1.0
  }

  /** Row y of a height-h image in normalised device coordinates, with the
      vertical axis flipped so that the top row is highest. */
  function NormY(y: nat, h: nat): (ny: real)
    requires y < h
    ensures -1.0 < ny <= 1.0
  {
    assert y as real / h as real < 1.0;
    1.0 - (y as real / h as real) * 2.0
  }

  /** The z jitter derived from one draw. */
  function ZJitter(u: real): (z: real)
    ensures 0.0 <= u < 1.0 ==> -0.05 <= z < 0.05
  {
    (u - 0.5) * 0.1
  }

  /** The wave phase offset derived from one draw. */
  function WaveOffset(u: real): (phase: real)
    ensures 0.0 <= u < 1.0 ==> 0.0 <= phase < 2.0 * PI
  {
    u * 3.141592653589793 * 2.0  // Math.PI written out, so that the product stays linear
  }

  /** The displacement influence derived from one draw. */
  function Influence(u: real): (inf: real)
    ensures 0.0 <= u < 1.0 ==> 0.2 <= inf < 1.0
  {
    0.2 + u * 0.8
  }

  /** A colour channel normalised to [0, 1]. */
  function Channel(c: byte): (v: real)
    ensures 0.0 <= v <= 1.0
    ensures v == 0.0 <==> c == 0
    ensures v == 1.0 <==> c == 255
  {
    c as real / 255.0
  }

  /** What the scan reads of one pixel: its column, its row and its three
      colour channels. */
  datatype Pixel = Pixel(x: nat, y: nat, r: byte, g: byte, b: byte)

  /** Pixel p of the image, located by row-major order. */
  function PixelAt(img: Image, p: nat): (px: Pixel)
    requires p < PixelCount(img)
    ensures px.x < img.width && px.y < img.height
    ensures RowStart(img, px.y) + px.x == p
  {
    Pixel(Column(img, p), Row(img, p), Red(img, p), Green(img, p), Blue(img, p))
  }

  /** The record a pixel of a w x h image contributes when it is the k-th
      particle emitted. */
  function Emit(px: Pixel, w: nat, h: nat, scale: real, rand: Draws, k: nat): (q: Particle)
    requires px.x < w && px.y < h
    ensures WellFormedParticle(q)
    ensures UnitDraws(rand) ==> InRange(q)
  {
    var nx := NormX(px.x, w);
    var ny := NormY(px.y, h);
    Particle(
      Vec3(nx * scale, ny * scale, ZJitter(rand(3 * k))),
      Vec3(nx * scale, ny * scale, 0.0),
      WaveOffset(rand(3 * k + 1)),
      Influence(rand(3 * k + 2)),
      Vec3(Channel(px.r), Channel(px.g), Channel(px.b)))
  }

  /** The record pixel p contributes when it is the k-th particle emitted. */
  function EmitAt(img: Image, scale: real, rand: Draws, p: nat, k: nat): Particle
    requires p < PixelCount(img)
  {
    Emit(PixelAt(img, p), img.width, img.height, scale, rand, k)
  }

  /** A record is well formed: rest z is 0, rest x/y equal the position's, and
      every colour channel lies in [0, 1]. */
  predicate WellFormedParticle(q: Particle)
  {
    && q.rest.z == 0.0
    && q.rest.x == q.position.x && q.rest.y == q.position.y
    && 0.0 <= q.color.x <= 1.0 && 0.0 <= q.color.y <= 1.0 && 0.0 <= q.color.z <= 1.0
  }

  /** The random-derived fields lie in their promised ranges. */
  predicate InRange(q: Particle)
  {
    && -0.05 <= q.position.z < 0.05
    && 0.0 <= q.offset < 2.0 * PI
    && 0.2 <= q.influence < 1.0
  }

  // ---------------------------------------------------------------------------
  // The scan
  // ---------------------------------------------------------------------------

  /** The particles emitted by the first n pixels of the scan. Each accepted
      pixel appends one record, numbered by how many came before it. */
  function Scan(img: Image, opts: Options, rand: Draws, n: nat): (ps: seq<Particle>)
    requires n <= PixelCount(img)
    ensures |ps| <= n
    decreases n
  {
    if n == 0 then []
    else
      var ps := Scan(img, opts, rand, n - 1);
      if Accepted(img, opts.threshold, n - 1)
      then ps + [EmitAt(img, opts.scale, rand, n - 1, |ps|)]
      else ps
  }

  /** Every record of the scan is well formed, and in range when the draws
      lie in [0, 1). */
  lemma {:induction false} ScanWellFormed(img: Image, opts: Options, rand: Draws, n: nat)
    requires n <= PixelCount(img)
    ensures forall k :: 0 <= k < |Scan(img, opts, rand, n)| ==> WellFormedParticle(Scan(img, opts, rand, n)[k])
    ensures UnitDraws(rand) ==> forall k :: 0 <= k < |Scan(img, opts, rand, n)| ==> InRange(Scan(img, opts, rand, n)[k])
    decreases n
  {
    if n > 0 {
      ScanWellFormed(img, opts, rand, n - 1);
    }
  }

  /** All particles of an image: the scan over every pixel. There is at most
      one per pixel, every one is well formed, and the draw-derived fields lie
      in their ranges when the draws lie in [0, 1). */
  function Sample(img: Image, opts: Options, rand: Draws): (ps: seq<Particle>)
    ensures |ps| <= PixelCount(img)
    ensures forall k :: 0 <= k < |ps| ==> WellFormedParticle(ps[k])
    ensures UnitDraws(rand) ==> forall k :: 0 <= k < |ps| ==> InRange(ps[k])
  {
    ScanWellFormed(img, opts, rand, PixelCount(img));
    Scan(img, opts, rand, PixelCount(img))
  }

  /** The indices of the accepted pixels among the first n, in scan order: an
      increasing sequence of accepted pixels. */
  function Kept(img: Image, threshold: real, n: nat): (ks: seq<nat>)
    requires n <= PixelCount(img)
    ensures forall j :: 0 <= j < |ks| ==> ks[j] < n
    decreases n
  {
    if n == 0 then []
    else
      var ks := Kept(img, threshold, n - 1);
      if Accepted(img, threshold, n - 1) then ks + [n - 1] else ks
  }

  // ---------------------------------------------------------------------------
  // The five attribute arrays
  // ---------------------------------------------------------------------------

  /** The five parallel arrays the scan pushes into. */
  datatype Buffers = Buffers(
    positions: seq<real>,
    originals: seq<real>,
    offsets: seq<real>,
    influences: seq<real>,
    colors: seq<real>)

  const NoBuffers: Buffers := Buffers([], [], [], [], [])

  /** The number of particles the arrays describe. */
  function Count(b: Buffers): nat
  {
    |b.offsets|
  }

  /** The arrays have lengths 3n, 3n, n, n, 3n for n particles. */
  predicate Aligned(b: Buffers)
  {
    && |b.positions| == 3 * Count(b)
    && |b.originals| == 3 * Count(b)
    && |b.influences| == Count(b)
    && |b.colors| == 3 * Count(b)
  }

  /** The record assembled from index k of every array. */
  function RecordAt(b: Buffers, k: nat): Particle
    requires Aligned(b) && k < Count(b)
  {
    Particle(
      Vec3(b.positions[3 * k], b.positions[3 * k + 1], b.positions[3 * k + 2]),
      Vec3(b.originals[3 * k], b.originals[3 * k + 1], b.originals[3 * k + 2]),
      b.offsets[k],
      b.influences[k],
      Vec3(b.colors[3 * k], b.colors[3 * k + 1], b.colors[3 * k + 2]))
  }

  /** The five pushes one accepted pixel makes: three values onto each
      three-wide array and one onto each one-wide array, so one particle more
      and the arrays still aligned. PushAligned shows that the records
      already pushed stay in place. */
  function Push(b: Buffers, q: Particle): (b': Buffers)
    ensures Count(b') == Count(b) + 1
    ensures Aligned(b) ==> Aligned(b')
    ensures && |b'.positions| == |b.positions| + 3 && |b'.originals| == |b.originals| + 3
            && |b'.influences| == |b.influences| + 1 && |b'.colors| == |b.colors| + 3
  {
    Buffers(
      b.positions + [q.position.x, q.position.y, q.position.z],
      b.originals + [q.rest.x, q.rest.y, q.rest.z],
      b.offsets + [q.offset],
      b.influences + [q.influence],
      b.colors + [q.color.x, q.color.y, q.color.z])
  }

  /** Pushing a record keeps the arrays aligned, leaves every earlier record
      as it was and puts the new one last. */
  lemma PushAligned(b: Buffers, q: Particle)
    requires Aligned(b)
    ensures Aligned(Push(b, q)) && Count(Push(b, q)) == Count(b) + 1
    ensures forall k :: 0 <= k < Count(b) ==> RecordAt(Push(b, q), k) == RecordAt(b, k)
    ensures RecordAt(Push(b, q), Count(b)) == q
  {
    var b' := Push(b, q);
    forall k | 0 <= k < Count(b)
      ensures RecordAt(b', k) == RecordAt(b, k)
    {
      assert b'.positions[3 * k] == b.positions[3 * k];
      assert b'.positions[3 * k + 2] == b.positions[3 * k + 2];
      assert b'.originals[3 * k + 2] == b.originals[3 * k + 2];
      assert b'.colors[3 * k + 2] == b.colors[3 * k + 2];
    }
  }

  /** The arrays a sequence of records is pushed into, in order. Record k of
      the result, read back across all five arrays, is ps[k]. */
  function Layout(ps: seq<Particle>): (b: Buffers)
    ensures Aligned(b) && Count(b) == |ps|
  {
    if ps == [] then NoBuffers
    else Push(Layout(ps[..|ps| - 1]), ps[|ps| - 1])
  }

  lemma {:induction false} LayoutSnoc(ps: seq<Particle>, q: Particle)
    ensures Layout(ps + [q]) == Push(Layout(ps), q)
  {
    assert (ps + [q])[..|ps|] == ps;
  }

  /** One more pixel of the scan either pushes that pixel's record, numbered
      by the records already pushed, or leaves the arrays as they were. */
  lemma ScanStep(img: Image, opts: Options, rand: Draws, p: nat)
    requires p < PixelCount(img)
    ensures Layout(Scan(img, opts, rand, p + 1))
            == if Accepted(img, opts.threshold, p)
               then Push(Layout(Scan(img, opts, rand, p)),
                         EmitAt(img, opts.scale, rand, p, Count(Layout(Scan(img, opts, rand, p)))))
               else Layout(Scan(img, opts, rand, p))
  {
    var ps := Scan(img, opts, rand, p);
    if Accepted(img, opts.threshold, p) {
      LayoutSnoc(ps, EmitAt(img, opts.scale, rand, p, |ps|));
    }
  }
}
