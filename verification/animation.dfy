/**
 The per-frame state of the render loop: the pointer position the
 pointermove handler stores in normalised device coordinates, the smoothed
 pointer the loop eases toward it, and the uTime / uMouse / uRelaxation
 shader uniforms the loop publishes.

 One animation frame (a tick) converts the frame timestamp from
 milliseconds to seconds, moves the smoothed pointer 7% of the way toward
 the pointer (Vector2.lerp with alpha 0.07) and copies both into their
 uniforms when the material has them. A pointer move replaces the pointer
 and touches nothing else.
 */
module Animation {

  datatype Vec2 = Vec2(x: real, y: real)

  datatype Option<T> = None | Some(value: T)

  /** The shader uniforms; a uniform the material does not declare (or a
      material not yet created) is None. */
  datatype Uniforms = Uniforms(uTime: Option<real>, uMouse: Option<Vec2>, uRelaxation: Option<real>)

  /** The loop's state: the latest pointer, the smoothed pointer and the
      material's uniforms. */
  datatype Driver = Driver(mouse: Vec2, smoothed: Vec2, uniforms: Uniforms)

  /** The lerp factor of one frame. */
  const Smoothing: real := 0.07

  /** The share of the gap to the pointer that one frame leaves. */
  const Retention: real := 0.93

  /** The uniforms the material is created with. */
  const InitialUniforms: Uniforms := Uniforms(Some(0.0), Some(Vec2(0.0, 0.0)), Some(0.05))

  /** The state once the scene is set up: both pointers at the origin. */
  const Initial: Driver := Driver(Vec2(0.0, 0.0), Vec2(0.0, 0.0), InitialUniforms)

  // ---------------------------------------------------------------------------
  // Pointer
  // ---------------------------------------------------------------------------

  /** Client pixel coordinates in a width x height viewport, in normalised
      device coordinates: x grows to the right, y grows upward. */
  function PointerToNdc(clientX: real, clientY: real, width: real, height: real): (m: Vec2)
    requires width > 0.0 && height > 0.0
    ensures 0.0 <= clientX <= width ==> -1.0 <= m.x <= 1.0
    ensures 0.0 <= clientY <= height ==> -1.0 <= m.y <= 1.0
    ensures NdcToPointer(m, width, height) == Vec2(clientX, clientY)
  {
    UnitRatio(clientX, width);
    UnitRatio(clientY, height);
    Vec2((clientX / width) * 2.0 - 1.0, -(clientY / height) * 2.0 + 1.0)
  }

  /** The client pixel a normalised device point comes from. */
  function NdcToPointer(m: Vec2, width: real, height: real): (c: Vec2)
  {
    Vec2((m.x + 1.0) * width / 2.0, (1.0 - m.y) * height / 2.0)
  }

  /** a / w lies in [0, 1] when a lies in [0, w]. */
  lemma UnitRatio(a: real, w: real)
    requires w > 0.0
    ensures 0.0 <= a <= w ==> 0.0 <= a / w <= 1.0
  {
    var q := a / w;
    assert a == q * w;
  }

  /** The viewport maps onto [-1, 1] x [-1, 1]: the left edge to -1, the
      right edge to +1, the top edge to +1 and the bottom edge to -1. */
  lemma PointerRange(clientX: real, clientY: real, width: real, height: real)
    requires width > 0.0 && height > 0.0
    ensures var m := PointerToNdc(clientX, clientY, width, height);
            && (0.0 <= clientX <= width ==> -1.0 <= m.x <= 1.0)
            && (0.0 <= clientY <= height ==> -1.0 <= m.y <= 1.0)
            && (clientX == 0.0 ==> m.x == -1.0) && (clientX == width ==> m.x == 1.0)
            && (clientY == 0.0 ==> m.y == 1.0) && (clientY == height ==> m.y == -1.0)
  {
    UnitRatio(clientX, width);
    UnitRatio(clientY, height);
  }

  /** The mapping is invertible: the client position is recovered. */
  lemma PointerInverse(clientX: real, clientY: real, width: real, height: real)
    requires width > 0.0 && height > 0.0
    ensures NdcToPointer(PointerToNdc(clientX, clientY, width, height), width, height) == Vec2(clientX, clientY)
  {
  }

  /** Further right is further right, and further down is further down:
      the vertical axis is flipped. */
  lemma PointerOrder(cx: real, cy: real, cx': real, cy': real, width: real, height: real)
    requires width > 0.0 && height > 0.0
    ensures var m, m' := PointerToNdc(cx, cy, width, height), PointerToNdc(cx', cy', width, height);
            && (cx < cx' <==> m.x < m'.x)
            && (cy < cy' <==> m'.y < m.y)
  {
    assert cx < cx' <==> cx / width < cx' / width;
    assert cy < cy' <==> cy / height < cy' / height;
  }

  /** The pointermove handler: store the pointer, leave the rest alone. */
  function PointerMove(d: Driver, clientX: real, clientY: real, width: real, height: real): (d': Driver)
    requires width > 0.0 && height > 0.0
    ensures d'.smoothed == d.smoothed && d'.uniforms == d.uniforms
    ensures NdcToPointer(d'.mouse, width, height) == Vec2(clientX, clientY)
  {
    PointerInverse(clientX, clientY, width, height);
    d.(mouse := PointerToNdc(clientX, clientY, width, height))
  }

  // ---------------------------------------------------------------------------
  // One frame
  // ---------------------------------------------------------------------------

  /** Frame timestamps in milliseconds, as seconds. */
  function Seconds(time: real): (seconds: real)
    ensures seconds * 1000.0 == time
  {
    time * 0.001
  }

  /** Seconds preserves and reflects the order of timestamps, and gives the
      milliseconds back when multiplied by 1000. */
  lemma SecondsMonotone(t: real, t': real)
    ensures t <= t' <==> Seconds(t) <= Seconds(t')
    ensures t < t' <==> Seconds(t) < Seconds(t')
    ensures Seconds(t) * 1000.0 == t
  {
  }

  /** Linear interpolation from s toward m by alpha, one component: the gap
      to m keeps the share 1 - alpha, so alpha 0 stays at s and alpha 1
      lands on m. */
  function Lerp(s: real, m: real, alpha: real): (r: real)
    ensures r - m == (1.0 - alpha) * (s - m)
    ensures alpha == 0.0 ==> r == s
    ensures alpha == 1.0 ==> r == m
  {
    s + (m - s) * alpha
  }

  /** Vector2.lerp: both components move toward m, keeping the share
      1 - alpha of their gaps. */
  function LerpVec(s: Vec2, m: Vec2, alpha: real): (r: Vec2)
    ensures r.x - m.x == (1.0 - alpha) * (s.x - m.x)
    ensures r.y - m.y == (1.0 - alpha) * (s.y - m.y)
  {
    Vec2(Lerp(s.x, m.x, alpha), Lerp(s.y, m.y, alpha))
  }

  /** One animation frame at timestamp time (milliseconds): ease the
      smoothed pointer toward the pointer and publish time and smoothed
      pointer to the uniforms that exist. The pointer is left as it is, and
      a missing uniform stays missing. */
  function Tick(d: Driver, time: real): (d': Driver)
    ensures d'.mouse == d.mouse
    ensures d'.uniforms.uRelaxation == d.uniforms.uRelaxation
    ensures d'.uniforms.uTime.Some? <==> d.uniforms.uTime.Some?
    ensures d'.uniforms.uMouse.Some? <==> d.uniforms.uMouse.Some?
    ensures d.uniforms.uTime.Some? ==> d'.uniforms.uTime.value * 1000.0 == time
    ensures d.uniforms.uMouse.Some? ==> d'.uniforms.uMouse.value == d'.smoothed
  {
    var smoothed := LerpVec(d.smoothed, d.mouse, Smoothing);
    var u := d.uniforms;
    var uTime := if u.uTime.Some? then Some(Seconds(time)) else u.uTime;
    var uMouse := if u.uMouse.Some? then Some(smoothed) else u.uMouse;
    Driver(d.mouse, smoothed, u.(uTime := uTime, uMouse := uMouse))
  }

  /** The smoothed pointer moves 7% of the way: the gap to the pointer
      shrinks to 93% of what it was, component by component, signs kept. */
  lemma TickContracts(d: Driver, time: real)
    ensures Tick(d, time).smoothed.x - d.mouse.x == Retention * (d.smoothed.x - d.mouse.x)
    ensures Tick(d, time).smoothed.y - d.mouse.y == Retention * (d.smoothed.y - d.mouse.y)
  {
  }

  function Abs(v: real): real
  {
    if v < 0.0 then -v else v
  }

  /** In absolute terms: |s' - m| = 0.93 |s - m| for each component. */
  lemma TickContractsAbs(d: Driver, time: real)
    ensures Abs(Tick(d, time).smoothed.x - d.mouse.x) == Retention * Abs(d.smoothed.x - d.mouse.x)
    ensures Abs(Tick(d, time).smoothed.y - d.mouse.y) == Retention * Abs(d.smoothed.y - d.mouse.y)
  {
    TickContracts(d, time);
  }

  /** A frame leaves the smoothed pointer where it is exactly when it is
      already on the pointer. */
  lemma TickFixedPoint(d: Driver, time: real)
    ensures Tick(d, time).smoothed == d.smoothed <==> d.smoothed == d.mouse
  {
    TickContracts(d, time);
  }

  // ---------------------------------------------------------------------------
  // Many frames
  // ---------------------------------------------------------------------------

  /** The frames at the given timestamps, in order, with no pointer move in
      between. */
  function Run(d: Driver, times: seq<real>): (d': Driver)
    ensures d'.mouse == d.mouse
    ensures d'.uniforms.uRelaxation == d.uniforms.uRelaxation
    ensures d'.uniforms.uTime.Some? <==> d.uniforms.uTime.Some?
    ensures d'.uniforms.uMouse.Some? <==> d.uniforms.uMouse.Some?
    decreases |times|
  {
    if times == [] then d else Run(Tick(d, times[0]), times[1..])
  }

  /** b to the n-th power. */
  function Pow(b: real, n: nat): real
  {
    if n == 0 then 1.0 else b * Pow(b, n - 1)
  }

  /** A positive base has positive powers, and powers of a base in (0, 1)
      strictly decrease. */
  lemma {:induction false} PowPositive(b: real, n: nat)
    requires 0.0 < b
    ensures 0.0 < Pow(b, n)
    ensures b < 1.0 ==> Pow(b, n + 1) < Pow(b, n)
  {
    if n > 0 {
      PowPositive(b, n - 1);
    }
    assert Pow(b, n + 1) == b * Pow(b, n);
  }

  /** After N frames with the pointer held still, the gap to the pointer is
      0.93^N times the initial gap, and the pointer has not moved. */
  lemma {:induction false} RunGap(d: Driver, times: seq<real>)
    ensures Run(d, times).mouse == d.mouse
    ensures Run(d, times).smoothed.x - d.mouse.x == Pow(Retention, |times|) * (d.smoothed.x - d.mouse.x)
    ensures Run(d, times).smoothed.y - d.mouse.y == Pow(Retention, |times|) * (d.smoothed.y - d.mouse.y)
    decreases |times|
  {
    if times != [] {
      var d' := Tick(d, times[0]);
      RunGap(d', times[1..]);
      TickContracts(d, times[0]);
      var p := Pow(Retention, |times| - 1);
      assert p * (Retention * (d.smoothed.x - d.mouse.x)) == (Retention * p) * (d.smoothed.x - d.mouse.x);
      assert p * (Retention * (d.smoothed.y - d.mouse.y)) == (Retention * p) * (d.smoothed.y - d.mouse.y);
    }
  }

  /** One more frame on the end is one more tick on the result. */
  lemma {:induction false} RunSnoc(d: Driver, times: seq<real>, t: real)
    ensures Run(d, times + [t]) == Tick(Run(d, times), t)
    decreases |times|
  {
    if times != [] {
      assert (times + [t])[1..] == times[1..] + [t];
      RunSnoc(Tick(d, times[0]), times[1..], t);
    }
  }

  /** A positive factor leaves a product zero exactly when the other factor
      is. */
  lemma PositiveFactor(p: real, g: real)
    requires p > 0.0
    ensures p * g == 0.0 <==> g == 0.0
  {
    if g > 0.0 {
      assert p * g > 0.0;
    } else if g < 0.0 {
      assert p * g < 0.0;
    }
  }

  /** Frames with the pointer held still never close a gap exactly, nor
      open a closed one. */
  lemma {:induction false} RunGapZero(d: Driver, times: seq<real>)
    ensures Run(d, times).smoothed.x == d.mouse.x <==> d.smoothed.x == d.mouse.x
    ensures Run(d, times).smoothed.y == d.mouse.y <==> d.smoothed.y == d.mouse.y
  {
    RunGap(d, times);
    PowPositive(Retention, |times|);
    PositiveFactor(Pow(Retention, |times|), d.smoothed.x - d.mouse.x);
    PositiveFactor(Pow(Retention, |times|), d.smoothed.y - d.mouse.y);
  }

  /** One frame more on the end multiplies the gap by 0.93. */
  lemma {:induction false} RunGapStep(d: Driver, times: seq<real>, t: real)
    ensures Abs(Run(d, times + [t]).smoothed.x - d.mouse.x) == Retention * Abs(Run(d, times).smoothed.x - d.mouse.x)
    ensures Abs(Run(d, times + [t]).smoothed.y - d.mouse.y) == Retention * Abs(Run(d, times).smoothed.y - d.mouse.y)
  {
    RunSnoc(d, times, t);
    TickContractsAbs(Run(d, times), t);
  }

  /** Each further frame shrinks the gap by the factor 0.93, which is a
      strict shrink exactly when the initial gap was non-zero. */
  lemma {:induction false} RunGapShrinks(d: Driver, times: seq<real>, t: real)
    ensures var g, g' := Run(d, times).smoothed.x - d.mouse.x, Run(d, times + [t]).smoothed.x - d.mouse.x;
            && Abs(g') == Retention * Abs(g)
            && (Abs(g') < Abs(g) <==> d.smoothed.x != d.mouse.x)
    ensures var g, g' := Run(d, times).smoothed.y - d.mouse.y, Run(d, times + [t]).smoothed.y - d.mouse.y;
            && Abs(g') == Retention * Abs(g)
            && (Abs(g') < Abs(g) <==> d.smoothed.y != d.mouse.y)
  {
    RunGapStep(d, times, t);
    RunGapZero(d, times);
  }

  /** Every frame republishes: after at least one frame an existing uMouse
      holds the smoothed pointer and an existing uTime the last timestamp in
      seconds; missing uniforms stay missing. */
  lemma {:induction false} RunPublishes(d: Driver, times: seq<real>)
    requires times != []
    ensures var d' := Run(d, times);
            && (d.uniforms.uMouse.Some? ==> d'.uniforms.uMouse == Some(d'.smoothed))
            && (d.uniforms.uTime.Some? ==> d'.uniforms.uTime == Some(Seconds(times[|times| - 1])))
            && (d.uniforms.uMouse.None? ==> d'.uniforms.uMouse.None?)
            && (d.uniforms.uTime.None? ==> d'.uniforms.uTime.None?)
            && d'.uniforms.uRelaxation == d.uniforms.uRelaxation
    decreases |times|
  {
    var d1 := Tick(d, times[0]);
    if |times| > 1 {
      RunPublishes(d1, times[1..]);
      assert times[1..][|times[1..]| - 1] == times[|times| - 1];
    }
  }

  /** Frames before any pointer move keep the smoothed pointer at the
      origin; they publish the timestamp in seconds and the origin, and leave
      uRelaxation at 0.05. */
  lemma {:induction false} RestingRun(times: seq<real>)
    requires times != []
    ensures var d := Run(Initial, times);
            && d.mouse == Vec2(0.0, 0.0) && d.smoothed == Vec2(0.0, 0.0)
            && d.uniforms == Uniforms(Some(Seconds(times[|times| - 1])), Some(Vec2(0.0, 0.0)), Some(0.05))
  {
    RunGap(Initial, times);
    RunPublishes(Initial, times);
  }

  /** The smoothed pointer starting at the origin and the pointer held at
      (1, 1): after 100 frames it is still more than 1e-4 (about 7.05e-4)
      short in each component; after 126 frames still more than 1e-4 short,
      and only after 127 frames within 1e-4. */
  lemma {:induction false} ConvergenceFromOrigin(d: Driver, times: seq<real>)
    requires d.mouse == Vec2(1.0, 1.0) && d.smoothed == Vec2(0.0, 0.0)
    ensures var s := Run(d, times).smoothed;
            && 1.0 - s.x == Pow(Retention, |times|) && 1.0 - s.y == Pow(Retention, |times|)
            && (|times| == 100 ==> 0.0007 < 1.0 - s.x < 0.00071)
            && (|times| == 126 ==> 0.0001 < 1.0 - s.x)
            && (|times| == 127 ==> 1.0 - s.x < 0.0001)
  {
    RunGap(d, times);
    PowFacts();
  }

  /** Powers add their exponents. */
  lemma {:induction false} PowAdd(b: real, m: nat, n: nat)
    ensures Pow(b, m + n) == Pow(b, m) * Pow(b, n)
    decreases m
  {
    if m > 0 {
      PowAdd(b, m - 1, n);
      assert Pow(b, m + n) == b * Pow(b, m - 1 + n);
      assert b * (Pow(b, m - 1) * Pow(b, n)) == (b * Pow(b, m - 1)) * Pow(b, n);
    }
  }

  /** Bounds on two non-negative factors bound their product. */
  lemma MulBounds(a: real, b: real, la: real, ua: real, lb: real, ub: real)
    requires 0.0 <= la <= a <= ua && 0.0 <= lb <= b <= ub
    ensures la * lb <= a * b <= ua * ub
  {
    assert (a - la) * lb >= 0.0 && a * (b - lb) >= 0.0;
    assert (ua - a) * b >= 0.0 && ua * (ub - b) >= 0.0;
  }

  /** Bounds on two powers of a base bound the power with the summed
      exponent. */
  lemma PowBounds(b: real, m: nat, n: nat, lm: real, um: real, ln: real, un: real)
    requires 0.0 <= lm <= Pow(b, m) <= um && 0.0 <= ln <= Pow(b, n) <= un
    ensures lm * ln <= Pow(b, m + n) <= um * un
  {
    var x, y := Pow(b, m), Pow(b, n);
    PowAdd(b, m, n);
    MulBounds(x, y, lm, um, ln, un);
  }

  /** The first powers of 0.93, exactly. */
  lemma SmallPowers()
    ensures Pow(Retention, 1) == 0.93
    ensures Pow(Retention, 6) == 0.646990183449
    ensures Pow(Retention, 10) == 0.48398230717929318249
  {
    assert Pow(Retention, 1) == Retention * Pow(Retention, 0);
    PowAdd(Retention, 1, 1);
    PowAdd(Retention, 2, 2);
    PowAdd(Retention, 4, 1);
    PowAdd(Retention, 5, 1);
    PowAdd(Retention, 5, 5);
  }

  /** Bounds on 0.93^20 and 0.93^40. */
  lemma Pow40Bounds()
    ensures 0.2342388 <= Pow(Retention, 20) <= 0.234239
    ensures 0.05486781 <= Pow(Retention, 40) <= 0.05486791
  {
    SmallPowers();
    PowBounds(Retention, 10, 10, 0.4839823, 0.4839824, 0.4839823, 0.4839824);
    PowBounds(Retention, 20, 20, 0.2342388, 0.234239, 0.2342388, 0.234239);
  }

  /** Bounds on 0.93^100. */
  lemma Pow100Bounds()
    ensures 0.0007051702 <= Pow(Retention, 100) <= 0.0007051737
  {
    Pow40Bounds();
    PowBounds(Retention, 40, 40, 0.05486781, 0.05486791, 0.05486781, 0.05486791);
    PowBounds(Retention, 80, 20, 0.003010476, 0.003010488, 0.2342388, 0.234239);
  }

  /** 0.93^100 is about 7.05e-4, 0.93^126 about 1.07e-4 and 0.93^127 about
      9.94e-5. */
  lemma PowFacts()
    ensures 0.0007 < Pow(Retention, 100) < 0.00071
    ensures 0.0001 < Pow(Retention, 126)
    ensures Pow(Retention, 127) < 0.0001
  {
    SmallPowers();
    Pow40Bounds();
    Pow100Bounds();
    PowBounds(Retention, 100, 20, 0.0007051702, 0.0007051737, 0.2342388, 0.234239);
    PowBounds(Retention, 120, 6, 0.0001651782, 0.0001651792, 0.646990183449, 0.646990183449);
    PowBounds(Retention, 126, 1, 0.0001068686, 0.0001068694, 0.93, 0.93);
  }

  // ---------------------------------------------------------------------------
  // The gap vanishes
  // ---------------------------------------------------------------------------

  /** Bernoulli's inequality for 1 / 0.93 = 1 + 7/93, multiplied out:
      0.93^n (93 + 7n) <= 93. */
  lemma {:induction false} PowBernoulli(n: nat)
    ensures 93.0 * Pow(Retention, n) + 7.0 * ((n as real) * Pow(Retention, n)) <= 93.0
  {
    if n > 0 {
      PowBernoulli(n - 1);
      PowPositive(Retention, n - 1);
      var p, m := Pow(Retention, n - 1), (n - 1) as real;
      assert Pow(Retention, n) == 0.93 * p;
      assert (n as real) * Pow(Retention, n) == 0.93 * (m * p) + 0.93 * p;
    }
  }

  /** A non-negative frame count cancels from a strict inequality. */
  lemma {:induction false} CancelFrames(n: nat, eps: real)
    requires (n as real) * Pow(Retention, n) < (n as real) * eps
    ensures Pow(Retention, n) < eps
  {
    assert (n as real) * (eps - Pow(Retention, n)) > 0.0;
  }

  /** 0.93^n drops below eps once n eps exceeds 14, a bound above 93/7. */
  lemma {:induction false} PowWithin(eps: real, n: nat)
    requires (n as real) * eps > 14.0
    ensures Pow(Retention, n) < eps
  {
    PowBernoulli(n);
    PowPositive(Retention, n);
    var a, b := (n as real) * eps, (n as real) * Pow(Retention, n);
    assert b < 14.0 < a;
    CancelFrames(n, eps);
  }

  /** Powers of 0.93 never grow with the exponent. */
  lemma {:induction false} PowAntitone(m: nat, n: nat)
    requires m <= n
    ensures Pow(Retention, n) <= Pow(Retention, m)
    decreases n
  {
    if m < n {
      PowAntitone(m, n - 1);
      PowPositive(Retention, n - 1);
    }
  }

  /** Once below eps, powers of 0.93 stay below it. */
  lemma PowWithinFrom(eps: real, n: nat, k: nat)
    requires (n as real) * eps > 14.0 && n <= k
    ensures 0.0 < Pow(Retention, k) < eps
  {
    PowWithin(eps, n);
    PowAntitone(n, k);
    PowPositive(Retention, k);
  }

  /** A value scaled by a positive factor below eps is at most eps times
      the value, in absolute terms. */
  lemma ScaleWithin(r: real, p: real, eps: real, g: real)
    requires r == p * g && 0.0 < p < eps
    ensures Abs(r) <= eps * Abs(g)
  {
    if g < 0.0 {
      var h := -g;
      assert r == -(p * h);
      assert (eps - p) * h > 0.0;
    } else {
      assert r >= 0.0;
      assert (eps - p) * g >= 0.0;
    }
  }

  /** With the pointer held still, from any n frames with n eps > 14 on,
      each component of the gap is at most eps times the initial gap. */
  lemma {:induction false} RunGapWithin(d: Driver, eps: real, n: nat, times: seq<real>)
    requires (n as real) * eps > 14.0 && |times| >= n
    ensures Abs(Run(d, times).smoothed.x - d.mouse.x) <= eps * Abs(d.smoothed.x - d.mouse.x)
    ensures Abs(Run(d, times).smoothed.y - d.mouse.y) <= eps * Abs(d.smoothed.y - d.mouse.y)
  {
    PowWithinFrom(eps, n, |times|);
    RunGap(d, times);
    var gx, gy := d.smoothed.x - d.mouse.x, d.smoothed.y - d.mouse.y;
    ScaleWithin(Run(d, times).smoothed.x - d.mouse.x, Pow(Retention, |times|), eps, gx);
    ScaleWithin(Run(d, times).smoothed.y - d.mouse.y, Pow(Retention, |times|), eps, gy);
  }

  /** Every run of at least n frames from d, the pointer held still, ends
      within eps times the initial gap in each component. */
  ghost predicate SettledAfter(d: Driver, eps: real, n: nat)
  {
    forall times: seq<real> | |times| >= n ::
      && Abs(Run(d, times).smoothed.x - d.mouse.x) <= eps * Abs(d.smoothed.x - d.mouse.x)
      && Abs(Run(d, times).smoothed.y - d.mouse.y) <= eps * Abs(d.smoothed.y - d.mouse.y)
  }

  /** A positive factor keeps a strict order. */
  lemma MulStrict(a: real, b: real, k: real, c: real)
    requires a > b && k > 0.0 && b * k == c
    ensures a * k > c
  {
    assert (a - b) * k > 0.0;
  }

  /** Some whole number of steps of size e passes c. */
  lemma Archimedes(c: real, e: real) returns (n: nat)
    requires c > 0.0 && e > 0.0
    ensures (n as real) * e > c
  {
    var q := c / e;
    assert q * e == c;
    n := q.Floor + 1;
    MulStrict(n as real, q, e, c);
  }

  /** The smoothed pointer converges to a pointer held still: for every
      eps > 0 there is a frame count from which on the gap stays within
      eps times the initial gap, in both components. */
  lemma {:induction false} RunGapVanishes(d: Driver, eps: real)
    requires eps > 0.0
    ensures exists n: nat :: SettledAfter(d, eps, n)
  {
    var n := Archimedes(14.0, eps);
    forall times: seq<real> | |times| >= n
      ensures Abs(Run(d, times).smoothed.x - d.mouse.x) <= eps * Abs(d.smoothed.x - d.mouse.x)
      ensures Abs(Run(d, times).smoothed.y - d.mouse.y) <= eps * Abs(d.smoothed.y - d.mouse.y)
    {
      RunGapWithin(d, eps, n, times);
    }
    assert SettledAfter(d, eps, n);
  }
}
