# Image particle sampler and pointer-trail animation, in Dafny

This project models the core of a small three.js demo. An image is turned
into a cloud of particles. A render loop then eases a smoothed pointer
toward the real pointer and hands both the time and the smoothed pointer to
the shader.

- **`createImageParticleSystem`** scans the canvas pixels of an image row by
  row, left to right.
  - A pixel is kept when its brightness, (r + g + b) / (3 · 255), is strictly
    above the threshold.
  - Each kept pixel is mapped to normalised device coordinates:
    nx = 2x/w − 1 and ny = 1 − 2y/h.
  - Each kept pixel pushes one record into five parallel arrays:
    - position (3 values): nx·scale, ny·scale and a random z jitter;
    - aOriginal (3 values): the rest position on z = 0;
    - aOffset (1 value): a random wave phase;
    - aInfluence (1 value): a random influence in [0.2, 1);
    - aColor (3 values): the colour, in [0, 1].
- **The render loop's state** covers three things:
  - the pointermove handler, which stores the pointer in normalised device
    coordinates;
  - the `animate` frame, which converts its timestamp to seconds, lerps the
    smoothed pointer toward the pointer by 0.07, and writes `uTime` and
    `uMouse` only when the material has them;
  - the initial uniforms (`uTime` 0, `uMouse` at the origin, `uRelaxation`
    0.05) and the pointers, which both start at the origin.

Modules:

- `pixels.dfy` (`Pixels`): covers image data as getImageData returns it, row-major pixel numbering, brightness and the accepted set.
- `sampler.dfy` (`Sampler`): defines the particle record, the per-pixel mappings, the recursive scan and the layout of the five arrays.
- `scan_loop.dfy` (`ScanLoop`): holds the nested loop as written, proved to build the layout of the recursive scan.
- `sampler_facts.dfy` (`SamplerFacts`): proves the sampler's properties: count, alignment, ranges, order, threshold monotonicity and the 2 × 2 example.
- `animation.dfy` (`Animation`): models the pointer, the frame tick and runs of many frames.

How things are modelled:

- Floats are exact reals.
- `Math.random` is an injected stream `Draws = nat -> real`. The k-th emitted particle consumes draws 3k (z), 3k + 1 (offset) and 3k + 2 (influence), the order the loop calls it in.
- The range facts for the random fields hold under `UnitDraws` (every draw in [0, 1)).
- `Math.PI` is the literal 3.141592653589793.

## Model

| member | source | states |
|---|---|---|
| Pixels.Brightness | src/lib/ImageParticleSystem.js:36 | brightness lies in [0, 1]; it is 0 exactly for a black pixel and 1 exactly for a white one |
| Pixels.PixelIndex | src/lib/ImageParticleSystem.js:29-31 | y·width + x names a pixel of the image, and that pixel's column and row are x and y again |
| Pixels.RowMajor | src/lib/ImageParticleSystem.js:29-30 | pixel p is visited before p' exactly when it is on an earlier row, or on the same row further left |
| Pixels.AcceptedSetStep | src/lib/ImageParticleSystem.js:36-38 | one more pixel joins the accepted set exactly when its brightness passes the threshold |
| Pixels.AcceptedSetAntitone | src/lib/ImageParticleSystem.js:38 | a higher threshold accepts a subset of the pixels |
| Sampler.ZJitter | src/lib/ImageParticleSystem.js:44 | a draw in [0, 1) gives a z jitter in [−0.05, 0.05) |
| Sampler.WaveOffset | src/lib/ImageParticleSystem.js:47 | a draw in [0, 1) gives a phase in [0, 2π) |
| Sampler.Influence | src/lib/ImageParticleSystem.js:48 | a draw in [0, 1) gives an influence in [0.2, 1) |
| Sampler.Channel | src/lib/ImageParticleSystem.js:49 | a channel byte over 255 lies in [0, 1]: 0 only for byte 0 and 1 only for byte 255 |
| Sampler.PixelAt | src/lib/ImageParticleSystem.js:29-34 | pixel p has a column and row inside the image, and they locate it again |
| Sampler.NormX | src/lib/ImageParticleSystem.js:40 | a column maps into [−1, 1) |
| Sampler.NormY | src/lib/ImageParticleSystem.js:41 | a row maps into (−1, 1] |
| Sampler.Emit | src/lib/ImageParticleSystem.js:40-49 | a record, as pushed, has rest z = 0, rest x/y equal to position x/y and colour in [0, 1]; with unit draws its z, offset and influence lie in their ranges |
| Sampler.Scan | src/lib/ImageParticleSystem.js:29-52 | the first n pixels yield at most n particles |
| Sampler.ScanWellFormed | src/lib/ImageParticleSystem.js:29-50 | every record the scan pushes is well formed, and in range under unit draws |
| Sampler.Sample | src/lib/ImageParticleSystem.js:29-52 | the particles of an image: at most one per pixel, each well formed as pushed, with random fields in range under unit draws; the exact count is in SamplerFacts.SampleCount |
| Sampler.Kept | src/lib/ImageParticleSystem.js:29-38 | every kept index among the first n pixels is below n |
| Sampler.PushAligned | src/lib/ImageParticleSystem.js:45-49 | the five pushes keep the arrays at lengths 3n, 3n, n, n, 3n; earlier records are unchanged and the new record is last |
| Sampler.Push | src/lib/ImageParticleSystem.js:45-49 | the five pushes add three values to each three-wide array and one to each one-wide array: one particle more, and aligned arrays stay aligned |
| Sampler.Layout | src/lib/ImageParticleSystem.js:23-27 | pushing n records into five empty arrays leaves them aligned with count n |
| ScanLoop.BufferIndex | src/lib/ImageParticleSystem.js:31 | the buffer offset (y·width + x)·4 is four times the row-major scan index of column x in row y |
| ScanLoop.VisitStep | src/lib/ImageParticleSystem.js:31-50 | reading the channels at (y·width + x)·4 and pushing when bright enough extends the scan by exactly that pixel |
| ScanLoop.VisitPixel | src/lib/ImageParticleSystem.js:31-50 | the inner loop body takes arrays holding the scan up to pixel p to arrays holding it up to p + 1 |
| ScanLoop.ScanRow | src/lib/ImageParticleSystem.js:30-51 | the inner loop takes the arrays from the start of row y to the start of row y + 1 |
| ScanLoop.ScanRows | src/lib/ImageParticleSystem.js:29-52 | the outer loop builds exactly the layout of the recursive scan over all pixels |
| ScanLoop.CreateImageParticleSystem | src/lib/ImageParticleSystem.js:23-52 | the five arrays are aligned, hold one record per pixel above the threshold and no cap, and record k is particle k of the sample |
| SamplerFacts.NormXRange | src/lib/ImageParticleSystem.js:40 | nx lies in [−1, 1): column 0 gives −1 and the last column 1 − 2/w |
| SamplerFacts.NormYRange | src/lib/ImageParticleSystem.js:41 | ny lies in (−1, 1]: row 0 gives 1 and the last row −1 + 2/h |
| SamplerFacts.NormXInverse | src/lib/ImageParticleSystem.js:40 | x is recovered from nx as (nx + 1)·w/2 |
| SamplerFacts.NormYInverse | src/lib/ImageParticleSystem.js:41 | y is recovered from ny as (1 − ny)·h/2 |
| SamplerFacts.NormXIncreasing | src/lib/ImageParticleSystem.js:40 | columns further right map strictly further right |
| SamplerFacts.NormYDecreasing | src/lib/ImageParticleSystem.js:41 | rows further down map strictly lower, so the axis is flipped |
| SamplerFacts.EmitRecoversPlace | src/lib/ImageParticleSystem.js:40-46 | for a non-zero scale, a record's rest position gives its pixel's column and row back |
| SamplerFacts.EmitRecoversColor | src/lib/ImageParticleSystem.js:49 | a record's colour times 255 gives its pixel's channel bytes back |
| SamplerFacts.EmitDraws | src/lib/ImageParticleSystem.js:44-48 | the k-th record depends on draws 3k, 3k + 1 and 3k + 2 only |
| SamplerFacts.ScanIsEmitOverKept | src/lib/ImageParticleSystem.js:29-50 | the scan is filter-then-map: particle k is the record of the k-th accepted pixel |
| SamplerFacts.KeptSorted | src/lib/ImageParticleSystem.js:29-38 | the kept pixels are accepted and strictly increasing in scan order |
| SamplerFacts.KeptMembers | src/lib/ImageParticleSystem.js:36-38 | a pixel is kept if and only if it is in the accepted set |
| SamplerFacts.KeptCount | src/lib/ImageParticleSystem.js:36-38 | there are exactly as many kept pixels as accepted ones |
| SamplerFacts.PixelEmittedIff | src/lib/ImageParticleSystem.js:36-38 | a pixel yields a particle if and only if its brightness is strictly above the threshold |
| SamplerFacts.SampleCount | src/lib/ImageParticleSystem.js:29-50 | the particle count equals the number of pixels above the threshold |
| SamplerFacts.SampleEmptyIff | src/lib/ImageParticleSystem.js:36-38 | there are no particles if and only if no pixel passes the threshold |
| SamplerFacts.AllBlackIsEmpty | src/lib/ImageParticleSystem.js:36-38 | an all-black image yields no particle at any threshold ≥ 0 |
| SamplerFacts.SampleWellFormed | src/lib/ImageParticleSystem.js:44-49 | every particle in the returned arrays has rest z = 0, rest x/y equal to position x/y and colour in [0, 1]; with unit draws its random fields are in range |
| SamplerFacts.SampleDraws | src/lib/ImageParticleSystem.js:44-48 | particle k changes only if draws 3k, 3k + 1 or 3k + 2 change |
| SamplerFacts.PlaceRowMajor | src/lib/ImageParticleSystem.js:40-45 | with a positive scale, a pixel from a higher row is placed higher, and one further left in the same row is placed further left |
| SamplerFacts.EmitRowMajor | src/lib/ImageParticleSystem.js:40-46 | of two records, the one whose pixel comes first in row-major order is higher, or as high and further left |
| SamplerFacts.SampleRowMajor | src/lib/ImageParticleSystem.js:29-46 | for a positive scale, particles come out in row-major order of their rest positions |
| SamplerFacts.LayoutRecords | src/lib/ImageParticleSystem.js:45-49 | index k of all five arrays reads back record k |
| SamplerFacts.SampleLayout | src/lib/ImageParticleSystem.js:23-52 | the arrays of an image are aligned, count the pixels above the threshold, and read back particle k at index k |
| SamplerFacts.ScanIgnoresMaxPoints | src/lib/ImageParticleSystem.js:6 | no prefix of the scan depends on maxPoints |
| SamplerFacts.SampleIgnoresMaxPoints | src/lib/ImageParticleSystem.js:6 | the particles do not depend on maxPoints |
| SamplerFacts.MaxPointsIsNoCap | src/lib/ImageParticleSystem.js:6 | with maxPoints 1, a 2 × 1 white image still yields two particles |
| SamplerFacts.KeptAntitone | src/lib/ImageParticleSystem.js:38 | the pixels kept at a higher threshold are a subsequence of those kept at a lower one |
| SamplerFacts.Footprints | src/lib/ImageParticleSystem.js:46-49 | there is one footprint (rest position and colour) per particle, in order |
| SamplerFacts.EmitFootprint | src/lib/ImageParticleSystem.js:46-49 | a record's rest position and colour depend neither on the draws nor on its number |
| SamplerFacts.ScanAntitone | src/lib/ImageParticleSystem.js:38-49 | at a higher threshold, with any draws, the footprints are a subsequence of those at the lower one |
| SamplerFacts.ThresholdAntitone | src/lib/ImageParticleSystem.js:36-38 | a higher threshold gives no more particles, a subset of the accepted pixels, a subsequence of the kept pixels and a subsequence of the footprints |
| SamplerFacts.WhiteSquareSample | src/lib/ImageParticleSystem.js:29-49 | a 2 × 2 white image at scale 1 gives four white particles at (−1, 1), (0, 1), (−1, 0) and (0, 0), in that order |
| Animation.PointerToNdc | src/script.js:47-48 | a client position inside the viewport maps into [−1, 1]², and the client position is recovered from the result |
| Animation.PointerRange | src/script.js:46-49 | a pointer inside the viewport maps into [−1, 1]²: left edge to −1, right edge to 1, top edge to 1, bottom edge to −1 |
| Animation.PointerInverse | src/script.js:46-49 | the client position is recovered from the normalised pointer |
| Animation.PointerOrder | src/script.js:47-48 | x order is kept and y order is reversed, in both directions |
| Animation.PointerMove | src/script.js:46-49 | a pointer move stores the pointer, recoverable as the client position, and leaves the smoothed pointer and the uniforms unchanged |
| Animation.Seconds | src/script.js:92 | the seconds times 1000 are the timestamp in milliseconds |
| Animation.Lerp | src/script.js:96 | the interpolated value keeps the share 1 − alpha of the gap to the target: alpha 0 stays and alpha 1 lands on it |
| Animation.LerpVec | src/script.js:96 | Vector2.lerp keeps the share 1 − alpha of each component's gap to the target |
| Animation.SecondsMonotone | src/script.js:92 | milliseconds to seconds keeps and reflects order, and times 1000 gives the timestamp back |
| Animation.Tick | src/script.js:88-105 | a frame leaves the pointer and uRelaxation alone and never creates or removes a uniform; an existing uTime gets time/1000, and an existing uMouse gets the new smoothed pointer |
| Animation.TickContracts | src/script.js:96 | a frame multiplies each signed gap between smoothed pointer and pointer by 0.93 |
| Animation.TickContractsAbs | src/script.js:96 | a frame multiplies each absolute gap by 0.93 |
| Animation.TickFixedPoint | src/script.js:96 | a frame leaves the smoothed pointer in place if and only if it is already on the pointer |
| Animation.PowPositive | src/script.js:96 | powers of 0.93 are positive and strictly decreasing |
| Animation.Run | src/script.js:88-105 | frames in sequence with no pointer move keep the pointer and uRelaxation, and never create or remove a uniform |
| Animation.RunGap | src/script.js:88-96 | after N frames with the pointer still, the pointer is unchanged and the gap is 0.93^N times the first gap |
| Animation.RunSnoc | src/script.js:88-96 | one more frame on the end is one more tick of the result |
| Animation.RunGapZero | src/script.js:96 | frames never close a gap exactly and never open a closed one |
| Animation.RunGapStep | src/script.js:96 | each further frame multiplies the absolute gap by 0.93 |
| Animation.RunGapShrinks | src/script.js:96 | in each component, a further frame multiplies the absolute gap by 0.93, a strict shrink if and only if that component's first gap was non-zero |
| Animation.RunPublishes | src/script.js:99-105 | after at least one frame, an existing uMouse holds the smoothed pointer and an existing uTime the last timestamp in seconds; missing uniforms stay missing and uRelaxation is unchanged |
| Animation.RestingRun | src/script.js:7-8 | before any pointer move, frames keep both pointers at the origin and publish the last timestamp in seconds, the origin and uRelaxation 0.05 (the uniforms of lines 55-59) |
| Animation.ConvergenceFromOrigin | src/script.js:96 | with the pointer at (1, 1) and the smoothed pointer at the origin, the gap after N frames is 0.93^N: about 7.05e-4 after 100 frames, above 1e-4 after 126 and below 1e-4 after 127 |
| Animation.PowFacts | src/script.js:96 | 0.93^100 lies in (7e-4, 7.1e-4), 0.93^126 > 1e-4 and 0.93^127 < 1e-4 |
| Animation.PowBernoulli | src/script.js:96 | Bernoulli's inequality for the retained share: 0.93^N · (93 + 7N) ≤ 93, so the share falls at least like 93 / (93 + 7N) |
| Animation.PowWithin | src/script.js:96 | the retained share 0.93^N is below eps as soon as N · eps > 14 |
| Animation.RunGapWithin | src/script.js:88-96 | with the pointer still, every run of at least N frames with N · eps > 14 leaves each component's gap within eps times the first gap |
| Animation.RunGapVanishes | src/script.js:88-96 | the smoothed pointer converges to a still pointer: for every eps > 0 some frame count exists from which on each component's gap stays within eps times the first gap |

Proof steps without a row of their own, because each only unfolds a
definition or is a generic fact: `Sampler.LayoutSnoc`, `Sampler.ScanStep`,
`SamplerFacts.KeptStep`, `SamplerFacts.EmitRest`,
`SamplerFacts.SubsequenceSnocBoth`, `SamplerFacts.SubsequenceSnocRight`,
`Animation.PowAdd` and the other bound lemmas behind `Animation.PowFacts`,
and the arithmetic steps behind `Animation.RunGapVanishes`
(`Animation.CancelFrames`, `Animation.PowAntitone`,
`Animation.PowWithinFrom`, `Animation.ScaleWithin`, `Animation.MulStrict`,
`Animation.Archimedes`).

## Left out

- Image loading is not modelled: `loadImage`, the promise, `crossOrigin` and the error rejection (ImageParticleSystem.js:11, 79-87). The model starts from the decoded pixel buffer.
- The canvas (ImageParticleSystem.js:12-20) is not modelled: creating it, `drawImage` and `getImageData`. The model takes their output as an `Image`: width, height and 4·width·height bytes.
- The THREE.BufferGeometry, the Float32BufferAttribute conversion and the Points object are not modelled (ImageParticleSystem.js:54-75). The five arrays are kept as exact reals. Rounding to 32-bit floats is not modelled.
- The commented-out code after line 88 of ImageParticleSystem.js is not modelled, because it is dead code.
- `Math.random` is not called. The model injects it as a `Draws` parameter, so the statements about the random fields hold for every draw stream, or for every stream in [0, 1).
- IEEE-754 double arithmetic is modelled as exact real arithmetic. For example, (r + g + b) / 765 and 0.93^N are exact, with no rounding.
- Scene, camera, renderer, the resize handler, `requestAnimationFrame` scheduling and adding the points to the scene (script.js:15-43, 84, 89) are rendering and I/O, and are not modelled.
- The centring of the geometry (script.js:75-81) is not modelled. Once the particles exist, the code computes the bounding box of the `position` attribute and translates the geometry by minus its centre. three.js's `translate` moves `position` only; the custom `aOriginal` attribute stays where the sampler put it. So after centring, a particle's position is its rest position shifted by minus the box centre. For example, when every pixel is accepted the box runs from −scale to (1 − 2/w)·scale in x, so every position moves right by scale/w. The statements "rest x/y equal position x/y" (`Sampler.Emit`, `SamplerFacts.SampleWellFormed`) describe the arrays `createImageParticleSystem` returns, not the geometry the shader later receives.
- The trail clear and the render call (script.js:107-112) are not modelled.
- The direct call `animate()` at script.js:13 passes no timestamp, so that first frame publishes NaN as `uTime`. NaN has no real counterpart, so the model gives every frame a timestamp.
- Animation.PointerToNdc: requires a positive viewport width and height. A zero-sized window makes the source divide by zero, which gives Infinity or NaN in JavaScript.
- A material that does not exist yet, or has no such uniform, is modelled as the uniform being `None`. The optional chaining of script.js:99 and 103 is not modelled beyond that.
- The uniforms' values live in the driver state. The GPU upload, and the shaders that read them, are not modelled.

## Behaviour of the code worth knowing

- **The right column and the bottom row do not reach the edge.** Line 40 of
  ImageParticleSystem.js maps column x to 2x/w − 1, and line 41 maps row y
  to 1 − 2y/h. So the last column lands on 1 − 2/w and the last row on
  −1 + 2/h. For a 2 × 2 white image the particles are at (−1, 1), (0, 1),
  (−1, 0) and (0, 0), not at the four corners
  (`SamplerFacts.NormXRange`, `SamplerFacts.NormYRange`,
  `SamplerFacts.WhiteSquareSample`).
- **The trail converges slowly.** With lerp factor 0.07 (script.js:96) the
  gap to a still pointer after N frames is exactly 0.93^N of the first gap.
  From the origin toward (1, 1), 100 frames leave about 7.05e-4 in each
  component, and the first N with a gap below 1e-4 is 127
  (`Animation.ConvergenceFromOrigin`). The gap does reach any tolerance in
  the end: N frames with N · eps > 14 bring it within eps times the first
  gap (`Animation.RunGapWithin`, `Animation.RunGapVanishes`).
- **maxPoints is not a cap.** The option is declared with default 50000
  (ImageParticleSystem.js:6), and the commented-out earlier version of the
  function used it to "Cap total particles" (line 94). The live loop never
  reads it. The model carries it in `Options` and proves it has no effect
  (`SamplerFacts.SampleIgnoresMaxPoints`, `SamplerFacts.MaxPointsIsNoCap`).
