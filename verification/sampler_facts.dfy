/**
 What the particle sampler promises: aligned arrays, one particle per pixel
 above the threshold and no others, no cap on the count, fewer particles as
 the threshold rises, coordinates in the unit square, rest positions on the
 z = 0 plane, unit colours and draw-derived fields in their ranges, and
 row-major emission order.
 */
module SamplerFacts {
  import opened Pixels
  import opened Sampler

  // ---------------------------------------------------------------------------
  // Coordinates
  // ---------------------------------------------------------------------------

  /** A column maps into [-1, 1): column 0 to -1 and the last column to
      1 - 2/w, short of +1. */
  lemma NormXRange(x: nat, w: nat)
    requires x < w
    ensures -1.0 <= NormX(x, w) < 1.0
    ensures x == 0 ==> NormX(x, w) == -1.0
    ensures x + 1 == w ==> NormX(x, w) == 1.0 - 2.0 / w as real
  {
    assert x as real / w as real < 1.0;
  }

  /** A row maps into (-1, 1]: row 0 to +1 and the last row to -1 + 2/h,
      short of -1. */
  lemma NormYRange(y: nat, h: nat)
    requires y < h
    ensures -1.0 < NormY(y, h) <= 1.0
    ensures y == 0 ==> NormY(y, h) == 1.0
    ensures y + 1 == h ==> NormY(y, h) == -1.0 + 2.0 / h as real
  {
    assert y as real / h as real < 1.0;
  }

  /** The column is recovered from its coordinate: x = (nx + 1) * w / 2. */
  lemma NormXInverse(x: nat, w: nat)
    requires x < w
    ensures (NormX(x, w) + 1.0) * w as real / 2.0 == x as real
  {
  }

  /** The row is recovered from its coordinate: y = (1 - ny) * h / 2. */
  lemma NormYInverse(y: nat, h: nat)
    requires y < h
    ensures (1.0 - NormY(y, h)) * h as real / 2.0 == y as real
  {
  }

  /** Columns further right map further right. */
  lemma NormXIncreasing(x: nat, x': nat, w: nat)
    requires x < x' < w
    ensures NormX(x, w) < NormX(x', w)
  {
    assert x as real / w as real < x' as real / w as real;
  }

  /** Rows further down map further down: the vertical axis is flipped. */
  lemma NormYDecreasing(y: nat, y': nat, h: nat)
    requires y < y' < h
    ensures NormY(y', h) < NormY(y, h)
  {
    assert y as real / h as real < y' as real / h as real;
  }

  /** Multiplying by a positive scale keeps the order. */
  lemma ScalePreservesOrder(a: real, b: real, scale: real)
    requires a < b && scale > 0.0
    ensures a * scale < b * scale
  {
    assert (b - a) * scale > 0.0;
  }

  // ---------------------------------------------------------------------------
  // One record
  // ---------------------------------------------------------------------------

  /** The column is recovered from its scaled coordinate. */
  lemma RecoverColumn(x: nat, w: nat, scale: real)
    requires x < w && scale != 0.0
    ensures (NormX(x, w) * scale / scale + 1.0) * w as real / 2.0 == x as real
  {
    assert NormX(x, w) * scale / scale == NormX(x, w);
    NormXInverse(x, w);
  }

  /** The row is recovered from its scaled coordinate. */
  lemma RecoverRow(y: nat, h: nat, scale: real)
    requires y < h && scale != 0.0
    ensures (1.0 - NormY(y, h) * scale / scale) * h as real / 2.0 == y as real
  {
    assert NormY(y, h) * scale / scale == NormY(y, h);
    NormYInverse(y, h);
  }

  /** A record gives its pixel's column and row back from its rest position,
      for a non-zero scale. */
  lemma EmitRecoversPlace(px: Pixel, w: nat, h: nat, scale: real, rand: Draws, k: nat)
    requires px.x < w && px.y < h && scale != 0.0
    ensures var q := Emit(px, w, h, scale, rand, k);
            && (q.rest.x / scale + 1.0) * w as real / 2.0 == px.x as real
            && (1.0 - q.rest.y / scale) * h as real / 2.0 == px.y as real
  {
    RecoverColumn(px.x, w, scale);
    RecoverRow(px.y, h, scale);
  }

  /** A record gives its pixel's channel bytes back from its colour. */
  lemma EmitRecoversColor(px: Pixel, w: nat, h: nat, scale: real, rand: Draws, k: nat)
    requires px.x < w && px.y < h
    ensures var q := Emit(px, w, h, scale, rand, k);
            && q.color.x * 255.0 == px.r as real
            && q.color.y * 255.0 == px.g as real
            && q.color.z * 255.0 == px.b as real
  {
  }

  /** The k-th record reads draws 3k, 3k + 1 and 3k + 2 and no others: two
      draw streams that agree there give the same record. */
  lemma EmitDraws(px: Pixel, w: nat, h: nat, scale: real, rand: Draws, rand': Draws, k: nat)
    requires px.x < w && px.y < h
    requires rand(3 * k) == rand'(3 * k) && rand(3 * k + 1) == rand'(3 * k + 1)
    requires rand(3 * k + 2) == rand'(3 * k + 2)
    ensures Emit(px, w, h, scale, rand, k) == Emit(px, w, h, scale, rand', k)
  {
  }

  // ---------------------------------------------------------------------------
  // The scan as a filter and map
  // ---------------------------------------------------------------------------

  /** The scan is the filter-then-map: its k-th record is the record of the
      k-th accepted pixel, numbered k. */
  lemma {:induction false} ScanIsEmitOverKept(img: Image, opts: Options, rand: Draws, n: nat)
    requires n <= PixelCount(img)
    ensures |Scan(img, opts, rand, n)| == |Kept(img, opts.threshold, n)|
    ensures forall k :: 0 <= k < |Kept(img, opts.threshold, n)| ==>
              Scan(img, opts, rand, n)[k] == EmitAt(img, opts.scale, rand, Kept(img, opts.threshold, n)[k], k)
  {
    if n > 0 {
      var m := n - 1;
      ScanIsEmitOverKept(img, opts, rand, m);
      var ps, ks := Scan(img, opts, rand, m), Kept(img, opts.threshold, m);
      if Accepted(img, opts.threshold, m) {
        var ps', ks' := ps + [EmitAt(img, opts.scale, rand, m, |ps|)], ks + [m];
        assert Scan(img, opts, rand, n) == ps';
        assert Kept(img, opts.threshold, n) == ks';
        forall k | 0 <= k < |ks'|
          ensures ps'[k] == EmitAt(img, opts.scale, rand, ks'[k], k)
        {
          if k < |ks| {
            assert ps'[k] == ps[k] && ks'[k] == ks[k];
          } else {
            assert k == |ps| && ks'[k] == m;
          }
        }
      } else {
        assert Scan(img, opts, rand, n) == ps;
        assert Kept(img, opts.threshold, n) == ks;
      }
    }
  }

  /** The kept indices are accepted pixels in strictly increasing order. */
  lemma {:induction false} KeptSorted(img: Image, threshold: real, n: nat)
    requires n <= PixelCount(img)
    ensures forall j :: 0 <= j < |Kept(img, threshold, n)| ==> Accepted(img, threshold, Kept(img, threshold, n)[j])
    ensures forall i, j :: 0 <= i < j < |Kept(img, threshold, n)| ==> Kept(img, threshold, n)[i] < Kept(img, threshold, n)[j]
  {
    if n > 0 {
      KeptSorted(img, threshold, n - 1);
    }
  }

  /** Scanning one more pixel appends it to the kept indices exactly when it
      is accepted. */
  lemma KeptStep(img: Image, threshold: real, n: nat)
    requires n < PixelCount(img)
    ensures Kept(img, threshold, n + 1)
            == if Accepted(img, threshold, n) then Kept(img, threshold, n) + [n] else Kept(img, threshold, n)
  {
  }

  /** The kept indices are exactly the accepted pixels. */
  lemma {:induction false} KeptMembers(img: Image, threshold: real, n: nat)
    requires n <= PixelCount(img)
    ensures forall p :: p in Kept(img, threshold, n) <==> p in AcceptedSet(img, threshold, n)
  {
    if n > 0 {
      KeptMembers(img, threshold, n - 1);
      KeptStep(img, threshold, n - 1);
      AcceptedSetStep(img, threshold, n - 1);
    }
  }

  /** There are as many kept indices as accepted pixels: none is kept twice. */
  lemma {:induction false} KeptCount(img: Image, threshold: real, n: nat)
    requires n <= PixelCount(img)
    ensures |Kept(img, threshold, n)| == |AcceptedSet(img, threshold, n)|
  {
    if n > 0 {
      var m := n - 1;
      KeptCount(img, threshold, m);
      KeptStep(img, threshold, m);
      AcceptedSetStep(img, threshold, m);
      var kept, accepted := Kept(img, threshold, m), AcceptedSet(img, threshold, m);
      if Accepted(img, threshold, m) {
        assert Kept(img, threshold, n) == kept + [m];
        assert AcceptedSet(img, threshold, n) == accepted + {m};
        assert |accepted + {m}| == |accepted| + 1;
      } else {
        assert Kept(img, threshold, n) == kept;
        assert AcceptedSet(img, threshold, n) == accepted;
      }
    }
  }

  /** A pixel yields a particle exactly when its brightness is strictly above
      the threshold. */
  lemma {:induction false} PixelEmittedIff(img: Image, threshold: real, p: nat)
    requires p < PixelCount(img)
    ensures p in Kept(img, threshold, PixelCount(img)) <==> PixelBrightness(img, p) > threshold
  {
    KeptMembers(img, threshold, PixelCount(img));
  }

  /** The particle count is the number of pixels above the threshold. */
  lemma SampleCount(img: Image, opts: Options, rand: Draws)
    ensures |Sample(img, opts, rand)| == |AcceptedSet(img, opts.threshold, PixelCount(img))|
  {
    ScanIsEmitOverKept(img, opts, rand, PixelCount(img));
    KeptCount(img, opts.threshold, PixelCount(img));
  }

  /** No particle at all exactly when no pixel is above the threshold. */
  lemma SampleEmptyIff(img: Image, opts: Options, rand: Draws)
    ensures Sample(img, opts, rand) == [] <==>
            forall p: nat :: p < PixelCount(img) ==> !Accepted(img, opts.threshold, p)
  {
    SampleCount(img, opts, rand);
    var accepted := AcceptedSet(img, opts.threshold, PixelCount(img));
    if p: nat :| p < PixelCount(img) && Accepted(img, opts.threshold, p) {
      assert p in accepted;
    } else {
      assert accepted == {};
    }
  }

  /** An all-black image yields no particle for any threshold >= 0. */
  lemma AllBlackIsEmpty(img: Image, opts: Options, rand: Draws)
    requires opts.threshold >= 0.0
    requires forall p: nat :: p < PixelCount(img) ==> Red(img, p) == 0 && Green(img, p) == 0 && Blue(img, p) == 0
    ensures Sample(img, opts, rand) == []
  {
    SampleEmptyIff(img, opts, rand);
  }

  /** Every particle is well formed, and its draw-derived fields lie in their
      ranges when the draws lie in [0, 1). */
  lemma SampleWellFormed(img: Image, opts: Options, rand: Draws)
    ensures forall k :: 0 <= k < |Sample(img, opts, rand)| ==> WellFormedParticle(Sample(img, opts, rand)[k])
    ensures UnitDraws(rand) ==> forall k :: 0 <= k < |Sample(img, opts, rand)| ==> InRange(Sample(img, opts, rand)[k])
  {
    ScanIsEmitOverKept(img, opts, rand, PixelCount(img));
  }

  /** Particle k reads only draws 3k, 3k + 1 and 3k + 2. */
  lemma SampleDraws(img: Image, opts: Options, rand: Draws, rand': Draws, k: nat)
    requires k < |Sample(img, opts, rand)|
    requires rand(3 * k) == rand'(3 * k) && rand(3 * k + 1) == rand'(3 * k + 1)
    requires rand(3 * k + 2) == rand'(3 * k + 2)
    ensures |Sample(img, opts, rand')| == |Sample(img, opts, rand)|
    ensures Sample(img, opts, rand')[k] == Sample(img, opts, rand)[k]
  {
    ScanIsEmitOverKept(img, opts, rand, PixelCount(img));
    ScanIsEmitOverKept(img, opts, rand', PixelCount(img));
    EmitDraws(PixelAt(img, Kept(img, opts.threshold, PixelCount(img))[k]), img.width, img.height, opts.scale, rand, rand', k);
  }

  /** The scaled place of a pixel in a higher row is higher, and of a pixel
      further left in the same row is as high and further left. */
  lemma PlaceRowMajor(x: nat, y: nat, x': nat, y': nat, w: nat, h: nat, scale: real)
    requires x < w && y < h && x' < w && y' < h && scale > 0.0
    requires y < y' || (y == y' && x < x')
    ensures || NormY(y, h) * scale > NormY(y', h) * scale
            || (NormY(y, h) * scale == NormY(y', h) * scale && NormX(x, w) * scale < NormX(x', w) * scale)
  {
    if y < y' {
      NormYDecreasing(y, y', h);
      ScalePreservesOrder(NormY(y', h), NormY(y, h), scale);
    } else {
      NormXIncreasing(x, x', w);
      ScalePreservesOrder(NormX(x, w), NormX(x', w), scale);
    }
  }

  /** The rest position of a record is its pixel's scaled place. */
  lemma EmitRest(px: Pixel, w: nat, h: nat, scale: real, rand: Draws, k: nat)
    requires px.x < w && px.y < h
    ensures Emit(px, w, h, scale, rand, k).rest == Vec3(NormX(px.x, w) * scale, NormY(px.y, h) * scale, 0.0)
  {
  }

  /** Of the records of two pixels, the one from the higher row, or from
      the same row further left, is higher, or as high and further left (for
      a positive scale). */
  lemma EmitRowMajor(px: Pixel, px': Pixel, w: nat, h: nat, scale: real, rand: Draws, k: nat, k': nat)
    requires px.x < w && px.y < h && px'.x < w && px'.y < h && scale > 0.0
    requires px.y < px'.y || (px.y == px'.y && px.x < px'.x)
    ensures var q, q' := Emit(px, w, h, scale, rand, k), Emit(px', w, h, scale, rand, k');
            || q.rest.y > q'.rest.y
            || (q.rest.y == q'.rest.y && q.rest.x < q'.rest.x)
  {
    EmitRest(px, w, h, scale, rand, k);
    EmitRest(px', w, h, scale, rand, k');
    PlaceRowMajor(px.x, px.y, px'.x, px'.y, w, h, scale);
  }

  /** Particles come out in row-major order: of two particles, the earlier is
      on a higher row, or on the same row further left (for a positive
      scale). */
  lemma SampleRowMajor(img: Image, opts: Options, rand: Draws, i: nat, j: nat)
    requires opts.scale > 0.0
    requires i < j < |Sample(img, opts, rand)|
    ensures var ps := Sample(img, opts, rand);
            || ps[i].rest.y > ps[j].rest.y
            || (ps[i].rest.y == ps[j].rest.y && ps[i].rest.x < ps[j].rest.x)
  {
    ScanIsEmitOverKept(img, opts, rand, PixelCount(img));
    KeptSorted(img, opts.threshold, PixelCount(img));
    var ks := Kept(img, opts.threshold, PixelCount(img));
    RowMajor(img, ks[i], ks[j]);
    EmitRowMajor(PixelAt(img, ks[i]), PixelAt(img, ks[j]), img.width, img.height, opts.scale, rand, i, j);
  }

  // ---------------------------------------------------------------------------
  // The five arrays
  // ---------------------------------------------------------------------------

  /** Entry k of every array belongs to record k. */
  lemma {:induction false} LayoutRecords(ps: seq<Particle>)
    ensures forall k :: 0 <= k < |ps| ==> RecordAt(Layout(ps), k) == ps[k]
  {
    if ps != [] {
      var init := ps[..|ps| - 1];
      LayoutRecords(init);
      PushAligned(Layout(init), ps[|ps| - 1]);
    }
  }

  /** The arrays of an image: aligned at lengths 3n, 3n, n, n, 3n for n the
      number of pixels above the threshold, record k being particle k. */
  lemma SampleLayout(img: Image, opts: Options, rand: Draws)
    ensures var b := Layout(Sample(img, opts, rand));
            && Aligned(b)
            && Count(b) == |AcceptedSet(img, opts.threshold, PixelCount(img))|
            && forall k :: 0 <= k < Count(b) ==> RecordAt(b, k) == Sample(img, opts, rand)[k]
  {
    SampleCount(img, opts, rand);
    LayoutRecords(Sample(img, opts, rand));
  }

  // ---------------------------------------------------------------------------
  // maxPoints
  // ---------------------------------------------------------------------------

  /** The scan never reads maxPoints. */
  lemma {:induction false} ScanIgnoresMaxPoints(img: Image, opts: Options, rand: Draws, m: int, n: nat)
    requires n <= PixelCount(img)
    ensures Scan(img, opts.(maxPoints := m), rand, n) == Scan(img, opts, rand, n)
  {
    if n > 0 {
      ScanIgnoresMaxPoints(img, opts, rand, m, n - 1);
    }
  }

  /** Changing maxPoints changes nothing. */
  lemma SampleIgnoresMaxPoints(img: Image, opts: Options, rand: Draws, m: int)
    ensures Sample(img, opts.(maxPoints := m), rand) == Sample(img, opts, rand)
  {
    ScanIgnoresMaxPoints(img, opts, rand, m, PixelCount(img));
  }

  /** A 2 x 1 white image. */
  const WhitePair: Image := ImageData(2, 1, [255, 255, 255, 255, 255, 255, 255, 255])

  /** maxPoints is no cap: with the default options but maxPoints = 1, a
      2 x 1 white image still yields two particles. */
  lemma MaxPointsIsNoCap(rand: Draws)
    ensures |Sample(WhitePair, DefaultOptions.(maxPoints := 1), rand)| == 2
  {
  }

  // ---------------------------------------------------------------------------
  // Threshold monotonicity
  // ---------------------------------------------------------------------------

  /** a is obtained from b by deleting elements. */
  predicate Subsequence<T(==)>(a: seq<T>, b: seq<T>)
    decreases |b|
  {
    && |a| <= |b|
    && (|| a == []
        || (a[|a| - 1] == b[|b| - 1] && Subsequence(a[..|a| - 1], b[..|b| - 1]))
        || Subsequence(a, b[..|b| - 1]))
  }

  /** Appending the same element to both keeps a subsequence. */
  lemma {:induction false} SubsequenceSnocBoth<T>(a: seq<T>, b: seq<T>, v: T)
    requires Subsequence(a, b)
    ensures Subsequence(a + [v], b + [v])
  {
    assert (a + [v])[..|a|] == a;
    assert (b + [v])[..|b|] == b;
  }

  /** Appending to the longer one keeps a subsequence. */
  lemma {:induction false} SubsequenceSnocRight<T>(a: seq<T>, b: seq<T>, v: T)
    requires Subsequence(a, b)
    ensures Subsequence(a, b + [v])
  {
    assert (b + [v])[..|b|] == b;
  }

  /** The pixels kept at a higher threshold are a subsequence of those kept
      at a lower one. */
  lemma {:induction false} KeptAntitone(img: Image, t1: real, t2: real, n: nat)
    requires t1 <= t2 && n <= PixelCount(img)
    ensures Subsequence(Kept(img, t2, n), Kept(img, t1, n))
  {
    if n > 0 {
      var k1, k2 := Kept(img, t1, n - 1), Kept(img, t2, n - 1);
      KeptAntitone(img, t1, t2, n - 1);
      if Accepted(img, t2, n - 1) {
        SubsequenceSnocBoth<nat>(k2, k1, n - 1);
      } else if Accepted(img, t1, n - 1) {
        SubsequenceSnocRight<nat>(k2, k1, n - 1);
      }
    }
  }

  /** The part of a record its pixel alone fixes: rest position and colour. */
  datatype Footprint = Footprint(rest: Vec3, color: Vec3)

  function FootprintOf(q: Particle): Footprint
  {
    Footprint(q.rest, q.color)
  }

  function Footprints(ps: seq<Particle>): (fs: seq<Footprint>)
    ensures |fs| == |ps|
    ensures forall k :: 0 <= k < |ps| ==> fs[k] == FootprintOf(ps[k])
  {
    if ps == [] then [] else Footprints(ps[..|ps| - 1]) + [FootprintOf(ps[|ps| - 1])]
  }

  lemma {:induction false} FootprintsSnoc(ps: seq<Particle>, q: Particle)
    ensures Footprints(ps + [q]) == Footprints(ps) + [FootprintOf(q)]
  {
    assert (ps + [q])[..|ps|] == ps;
  }

  /** A pixel's footprint depends neither on the draws nor on its number. */
  lemma EmitFootprint(px: Pixel, w: nat, h: nat, scale: real, rand: Draws, rand': Draws, k: nat, k': nat)
    requires px.x < w && px.y < h
    ensures FootprintOf(Emit(px, w, h, scale, rand, k)) == FootprintOf(Emit(px, w, h, scale, rand', k'))
  {
  }

  /** Raising the threshold, whatever the draws, keeps a subsequence of the
      particles (up to their draw-derived fields). */
  lemma {:induction false} ScanAntitone(img: Image, opts: Options, t2: real, rand: Draws, rand': Draws, n: nat)
    requires opts.threshold <= t2 && n <= PixelCount(img)
    ensures Subsequence(Footprints(Scan(img, opts.(threshold := t2), rand', n)), Footprints(Scan(img, opts, rand, n)))
  {
    if n > 0 {
      var opts2 := opts.(threshold := t2);
      var ps1, ps2 := Scan(img, opts, rand, n - 1), Scan(img, opts2, rand', n - 1);
      ScanAntitone(img, opts, t2, rand, rand', n - 1);
      var q1 := EmitAt(img, opts.scale, rand, n - 1, |ps1|);
      var q2 := EmitAt(img, opts.scale, rand', n - 1, |ps2|);
      if Accepted(img, t2, n - 1) {
        FootprintsSnoc(ps1, q1);
        FootprintsSnoc(ps2, q2);
        EmitFootprint(PixelAt(img, n - 1), img.width, img.height, opts.scale, rand, rand', |ps1|, |ps2|);
        SubsequenceSnocBoth(Footprints(ps2), Footprints(ps1), FootprintOf(q1));
      } else if Accepted(img, opts.threshold, n - 1) {
        FootprintsSnoc(ps1, q1);
        SubsequenceSnocRight(Footprints(ps2), Footprints(ps1), FootprintOf(q1));
      }
    }
  }

  /** With a higher threshold: no more particles, the accepted pixels a
      subset, the kept pixels a subsequence, and the particles a subsequence
      up to their draw-derived fields. */
  lemma {:induction false} ThresholdAntitone(img: Image, opts: Options, t2: real, rand: Draws, rand': Draws)
    requires opts.threshold <= t2
    ensures |Sample(img, opts.(threshold := t2), rand')| <= |Sample(img, opts, rand)|
    ensures AcceptedSet(img, t2, PixelCount(img)) <= AcceptedSet(img, opts.threshold, PixelCount(img))
    ensures Subsequence(Kept(img, t2, PixelCount(img)), Kept(img, opts.threshold, PixelCount(img)))
    ensures Subsequence(Footprints(Sample(img, opts.(threshold := t2), rand')), Footprints(Sample(img, opts, rand)))
  {
    KeptAntitone(img, opts.threshold, t2, PixelCount(img));
    ScanAntitone(img, opts, t2, rand, rand', PixelCount(img));
  }

  // ---------------------------------------------------------------------------
  // A 2 x 2 white image
  // ---------------------------------------------------------------------------

  const WhiteSquare: Image := ImageData(2, 2, seq(16, _ => 255))

  /** A 2 x 2 white image at threshold 0.01 and scale 1 gives four white
      particles in scan order at (-1, 1), (0, 1), (-1, 0), (0, 0): the
      right column and bottom row land on 0, not on +1 and -1. */
  lemma WhiteSquareSample(rand: Draws)
    ensures var ps := Sample(WhiteSquare, Options(0.01, 50000, 1.0), rand);
            && |ps| == 4
            && (forall k :: 0 <= k < 4 ==> ps[k].color == Vec3(1.0, 1.0, 1.0) && ps[k].rest.z == 0.0)
            && ps[0].rest.x == -1.0 && ps[0].rest.y == 1.0
            && ps[1].rest.x == 0.0 && ps[1].rest.y == 1.0
            && ps[2].rest.x == -1.0 && ps[2].rest.y == 0.0
            && ps[3].rest.x == 0.0 && ps[3].rest.y == 0.0
  {
  }
}
