/**
 * The plotter (`rpnUsesY`, `computeWorldSamplesFromRPN`, `computeGraphFromRPN`).
 * An RPN program that mentions `y` is drawn as the zero contour of F(x, y) over
 * a grid covering the screen; any other program is sampled along x, and the
 * samples are reduced to at most two screen vertices per pixel column.
 * World coordinates and screen coordinates are reals; the vertex colour is
 * not modelled.
 */
module Grapher {
  import opened Wrappers
  import opened Numeric
  import opened Tokens
  import opened Evaluator
  import opened Contour

  /** `rpnUsesY`. */
  function RpnUsesY(rpn: seq<Token>): (r: bool)
    ensures r <==> exists i :: 0 <= i < |rpn| && rpn[i].kind == Variable && rpn[i].text == "y"
  {
    if rpn == [] then false
    else if rpn[0].kind == Variable && rpn[0].text == "y" then true
    else
      var r := RpnUsesY(rpn[1..]);
      assert forall i :: 0 < i < |rpn| ==> rpn[i] == rpn[1..][i - 1];
      r
  }

  // ---------------------------------------------------------------------------
  // 1-D sampling

  /** A sample of the 1-D plot in world coordinates (`sf::Vector2f`); always finite. */
  datatype Sample = Sample(x: real, y: real)

  /**
   * The variables an evaluation at `x` sees: with no environment only `x`
   * (`evaluateRPNVec`); otherwise a copy of the environment with `x` set.
   */
  function SampleBinding(env: Option<map<string, Double>>, x: real): Binding {
    match env
    case None => XOnly(Num(x))
    case Some(e) => Env(e["x" := Num(x)])
  }

  /** The value at `x`: none when the evaluation throws or its value is not finite. */
  function SampleValue(lib: MathLib, rpn: seq<Token>, env: Option<map<string, Double>>, x: real): Option<real> {
    match Evaluate(lib, SampleBinding(env, x), rpn)
    case Ok(Num(y)) => Some(y)
    case _ => None
  }

  /** The function being sampled. */
  function Sampler(lib: MathLib, rpn: seq<Token>, env: Option<map<string, Double>>): real -> Option<real> {
    x => SampleValue(lib, rpn, env, x)
  }

  /** The samples the point `x` contributes. */
  function Emitted(x: real, y: Option<real>): seq<Sample> {
    match y
    case Some(v) => [Sample(x, v)]
    case None => []
  }

  /** The number of values `xMin`, `xMin + step`, ... that do not exceed `xMax`. */
  function StepCount(xMin: real, xMax: real, step: real): nat {
    if xMax < xMin || step <= 0.0 then 0 else ((xMax - xMin) / step).Floor + 1
  }

  lemma PositiveFactor(a: real, s: real)
    requires s > 0.0 && a * s >= 0.0
    ensures a >= 0.0
  {
  }

  lemma StepBound(xMin: real, xMax: real, step: real, k: nat)
    requires step > 0.0 && xMin + Times(k, step) <= xMax
    ensures k < StepCount(xMin, xMax, step)
  {
    TimesIsProduct(k, step);
    var q := (xMax - xMin) / step;
    assert q * step == xMax - xMin;
    assert (q - k as real) * step == (xMax - xMin) - (k as real) * step;
    PositiveFactor(q - k as real, step);
  }

  /** The samples of `at` at `xMin + k*step`, `xMin + (k+1)*step`, ... up to `xMax`. */
  function SamplesFrom(at: real -> Option<real>, xMin: real, xMax: real, step: real, k: nat): seq<Sample>
    requires step > 0.0
    decreases StepCount(xMin, xMax, step) - k
  {
    var x := xMin + Times(k, step);
    if x > xMax then []
    else
      StepBound(xMin, xMax, step, k);
      Emitted(x, at(x)) + SamplesFrom(at, xMin, xMax, step, k + 1)
  }

  /** The samples of `at` at the first k points `xMin`, ..., `xMin + (k-1)*step`: what the loop has kept after k rounds. */
  function SamplesUpTo(at: real -> Option<real>, xMin: real, step: real, k: nat): seq<Sample> {
    if k == 0 then []
    else SamplesUpTo(at, xMin, step, k - 1) + Emitted(xMin + Times(k - 1, step), at(xMin + Times(k - 1, step)))
  }

  /** While the points so far lie within `xMax`, the first k rounds and the remaining ones together give all samples. */
  lemma {:induction false} PrefixSplit(at: real -> Option<real>, xMin: real, xMax: real, step: real, j: nat)
    requires step > 0.0 && (j == 0 || xMin + Times(j - 1, step) <= xMax)
    ensures SamplesUpTo(at, xMin, step, j) + SamplesFrom(at, xMin, xMax, step, j) == SamplesFrom(at, xMin, xMax, step, 0)
  {
    if j > 0 {
      if j > 1 {
        TimesMonotone(j - 2, j - 1, step);
      }
      PrefixSplit(at, xMin, xMax, step, j - 1);
      var x := xMin + Times(j - 1, step);
      StepBound(xMin, xMax, step, j - 1);
      assert SamplesFrom(at, xMin, xMax, step, j - 1) == Emitted(x, at(x)) + SamplesFrom(at, xMin, xMax, step, j);
      assert SamplesUpTo(at, xMin, step, j) == SamplesUpTo(at, xMin, step, j - 1) + Emitted(x, at(x));
    }
  }

  /** What `computeWorldSamplesFromRPN` returns. */
  function WorldSamples(lib: MathLib, rpn: seq<Token>, env: Option<map<string, Double>>, xMin: real, xMax: real, step: real): seq<Sample>
    requires step > 0.0 || xMin > xMax
  {
    if rpn == [] || xMin > xMax then [] else SamplesFrom(Sampler(lib, rpn, env), xMin, xMax, step, 0)
  }

  /** One iteration of the sampling loop: evaluate at `x` and keep a finite value. */
  method SampleOne(lib: MathLib, rpn: seq<Token>, env: Option<map<string, Double>>, x: real) returns (o: Option<real>)
    ensures o == SampleValue(lib, rpn, env, x)
  {
    var y: Result<Double, EvalError>;
    if env.Some? {
      var local := env.value["x" := Num(x)];
      y := EvaluateRPNEnv(lib, rpn, local);
    } else {
      y := EvaluateRPNVec(lib, rpn, Num(x));
    }
    if y.Ok? && y.value.IsFinite() {
      o := Some(y.value.r);
    } else {
      o := None;
    }
  }

  /**
   * `computeWorldSamplesFromRPN`. With `xMin <= xMax` the loop of the source
   * ends only for a positive step.
   */
  method ComputeWorldSamplesFromRPN(lib: MathLib, rpn: seq<Token>, xMin: real, xMax: real, step: real, env: Option<map<string, Double>>)
    returns (samples: seq<Sample>)
    requires step > 0.0 || xMin > xMax
    ensures samples == WorldSamples(lib, rpn, env, xMin, xMax, step)
  {
    samples := [];
    if rpn == [] {
      return;
    }
    ghost var at := Sampler(lib, rpn, env);
    var x := xMin;
    ghost var k: nat := 0;
    while x <= xMax
      invariant x == xMin + Times(k, step)
      invariant samples == SamplesUpTo(at, xMin, step, k)
      invariant xMin > xMax ==> k == 0
      invariant k == 0 || xMin + Times(k - 1, step) <= xMax
      decreases StepCount(xMin, xMax, step) - k
    {
      StepBound(xMin, xMax, step, k);
      var o := SampleOne(lib, rpn, env, x);
      assert at(x) == o;
      if o.Some? {
        samples := samples + [Sample(x, o.value)];
      }
      x := x + step;
      k := k + 1;
    }
    if xMin <= xMax {
      PrefixSplit(at, xMin, xMax, step, k);
    }
  }

  /** An evaluation at `x` sees `x` and, otherwise, exactly the caller's environment. */
  lemma OnlyXOverridden(env: map<string, Double>, x: real, name: string)
    ensures Lookup(SampleBinding(Some(env), x), name) == if name == "x" then Num(x) else Lookup(Env(env), name)
  {
  }

  /** `x` is one of `xMin + n*step` for some n >= k. */
  ghost predicate OnGrid(x: real, xMin: real, step: real, k: nat) {
    exists n: nat :: n >= k && x == xMin + Times(n, step)
  }

  /** Every sample lies on the grid `xMin + n*step`, n >= k, within [xMin + k*step, xMax], and carries the value of `at` there. */
  lemma {:induction false} SamplesFromSound(at: real -> Option<real>, xMin: real, xMax: real, step: real, k: nat)
    requires step > 0.0
    ensures forall s :: s in SamplesFrom(at, xMin, xMax, step, k) ==>
              xMin + Times(k, step) <= s.x <= xMax && at(s.x) == Some(s.y) && OnGrid(s.x, xMin, step, k)
    decreases StepCount(xMin, xMax, step) - k
  {
    var x := xMin + Times(k, step);
    if x <= xMax {
      StepBound(xMin, xMax, step, k);
      SamplesFromSound(at, xMin, xMax, step, k + 1);
      var head := Emitted(x, at(x));
      var rest := SamplesFrom(at, xMin, xMax, step, k + 1);
      assert SamplesFrom(at, xMin, xMax, step, k) == head + rest;
      assert Times(k + 1, step) == Times(k, step) + step;
      forall s: Sample | s in head + rest
        ensures xMin + Times(k, step) <= s.x <= xMax && at(s.x) == Some(s.y) && OnGrid(s.x, xMin, step, k)
      {
        if s in head {
          assert s.x == xMin + Times(k, step);
        } else {
          assert OnGrid(s.x, xMin, step, k + 1);
        }
      }
    }
  }

  /** Strictly increasing x. */
  predicate Increasing(s: seq<Sample>) {
    forall a, b :: 0 <= a < b < |s| ==> s[a].x < s[b].x
  }

  /** Samples come in strictly increasing x. */
  lemma {:induction false} SamplesFromIncreasing(at: real -> Option<real>, xMin: real, xMax: real, step: real, k: nat)
    requires step > 0.0
    ensures Increasing(SamplesFrom(at, xMin, xMax, step, k))
    decreases StepCount(xMin, xMax, step) - k
  {
    var x := xMin + Times(k, step);
    if x <= xMax {
      StepBound(xMin, xMax, step, k);
      SamplesFromIncreasing(at, xMin, xMax, step, k + 1);
      SamplesFromSound(at, xMin, xMax, step, k + 1);
      var head := Emitted(x, at(x));
      var rest := SamplesFrom(at, xMin, xMax, step, k + 1);
      var g := head + rest;
      assert SamplesFrom(at, xMin, xMax, step, k) == g;
      assert Times(k + 1, step) == Times(k, step) + step;
      forall a, b | 0 <= a < b < |g|
        ensures g[a].x < g[b].x
      {
        assert g[b] == rest[b - |head|] && rest[b - |head|] in rest;
        if a < |head| {
          assert g[a] == head[0];
        } else {
          assert g[a] == rest[a - |head|];
        }
      }
    }
  }

  /** Every grid point where `at` has a value is sampled. */
  lemma {:induction false} SamplesFromComplete(at: real -> Option<real>, xMin: real, xMax: real, step: real, k: nat, n: nat)
    requires step > 0.0 && k <= n && xMin + Times(n, step) <= xMax
    requires at(xMin + Times(n, step)).Some?
    ensures Sample(xMin + Times(n, step), at(xMin + Times(n, step)).value) in SamplesFrom(at, xMin, xMax, step, k)
    decreases n - k
  {
    TimesMonotone(k, n, step);
    StepBound(xMin, xMax, step, k);
    if k < n {
      SamplesFromComplete(at, xMin, xMax, step, k + 1, n);
    }
  }

  lemma {:induction false} TimesMonotone(k: nat, n: nat, step: real)
    requires k <= n && step > 0.0
    ensures Times(k, step) <= Times(n, step)
    decreases n - k
  {
    if k < n {
      TimesMonotone(k, n - 1, step);
    }
  }

  /**
   * The 1-D samples lie on the grid `xMin + n*step` within [xMin, xMax], carry
   * the finite value there, come in increasing x, and an empty program gives none.
   */
  lemma WorldSamplesSound(lib: MathLib, rpn: seq<Token>, env: Option<map<string, Double>>, xMin: real, xMax: real, step: real)
    requires step > 0.0
    ensures var s := WorldSamples(lib, rpn, env, xMin, xMax, step);
            (rpn == [] ==> s == []) &&
            (forall p :: p in s ==> xMin <= p.x <= xMax && SampleValue(lib, rpn, env, p.x) == Some(p.y) && OnGrid(p.x, xMin, step, 0)) &&
            Increasing(s)
  {
    if rpn != [] && xMin <= xMax {
      SamplesFromSound(Sampler(lib, rpn, env), xMin, xMax, step, 0);
      SamplesFromIncreasing(Sampler(lib, rpn, env), xMin, xMax, step, 0);
    }
  }

  /** Every point `xMin + n*step <= xMax` whose value is finite is among the samples. */
  lemma WorldSamplesComplete(lib: MathLib, rpn: seq<Token>, env: Option<map<string, Double>>, xMin: real, xMax: real, step: real, n: nat)
    requires step > 0.0 && rpn != [] && xMin + Times(n, step) <= xMax
    requires SampleValue(lib, rpn, env, xMin + Times(n, step)).Some?
    ensures Sample(xMin + Times(n, step), SampleValue(lib, rpn, env, xMin + Times(n, step)).value) in WorldSamples(lib, rpn, env, xMin, xMax, step)
  {
    var at := Sampler(lib, rpn, env);
    var x := xMin + Times(n, step);
    assert at(x) == SampleValue(lib, rpn, env, x);
    TimesMonotone(0, n, step);
    SamplesFromComplete(at, xMin, xMax, step, 0, n);
  }

  // ---------------------------------------------------------------------------
  // Screen vertices

  /** The screen column of world x. */
  function ScreenX(x: real, centerX: real, scale: real): real {
    centerX + x * scale
  }

  /** The screen row of world y (screen rows grow downwards). */
  function ScreenY(y: real, centerY: real, scale: real): real {
    centerY - y * scale
  }

  /** World to screen; a NaN point stays NaN. */
  function ToScreen(p: Pt, centerX: real, centerY: real, scale: real): Pt {
    match p
    case Pt(x, y) => Pt(ScreenX(x, centerX, scale), ScreenY(y, centerY, scale))
    case NaNPt => NaNPt
  }

  /** The 1-D path with `screenWidth <= 0`: one vertex per sample, in sample order. */
  function SampleVertices(samples: seq<Sample>, centerX: real, centerY: real, scale: real): (r: seq<Pt>)
    ensures |r| == |samples|
    ensures forall n :: 0 <= n < |samples| ==> r[n] == ToScreen(Pt(samples[n].x, samples[n].y), centerX, centerY, scale)
  {
    if samples == [] then []
    else SampleVertices(samples[..|samples| - 1], centerX, centerY, scale)
         + [ToScreen(Pt(samples[|samples| - 1].x, samples[|samples| - 1].y), centerX, centerY, scale)]
  }

  method PlotSamples(samples: seq<Sample>, centerX: real, centerY: real, scale: real) returns (graph: seq<Pt>)
    ensures graph == SampleVertices(samples, centerX, centerY, scale)
  {
    graph := [];
    for n := 0 to |samples|
      invariant graph == SampleVertices(samples[..n], centerX, centerY, scale)
    {
      var p := samples[n];
      graph := graph + [ToScreen(Pt(p.x, p.y), centerX, centerY, scale)];
      assert samples[..n + 1][..n] == samples[..n];
    }
    assert samples[..|samples|] == samples;
  }

  /** The implicit path: every point of every segment, in order. */
  function SegmentVertices(segments: seq<seq<Pt>>, centerX: real, centerY: real, scale: real): seq<Pt> {
    if segments == [] then []
    else SegmentVertices(segments[..|segments| - 1], centerX, centerY, scale)
         + PointVertices(segments[|segments| - 1], centerX, centerY, scale)
  }

  function PointVertices(points: seq<Pt>, centerX: real, centerY: real, scale: real): (r: seq<Pt>)
    ensures |r| == |points|
    ensures forall n :: 0 <= n < |points| ==> r[n] == ToScreen(points[n], centerX, centerY, scale)
  {
    if points == [] then []
    else PointVertices(points[..|points| - 1], centerX, centerY, scale)
         + [ToScreen(points[|points| - 1], centerX, centerY, scale)]
  }

  method PlotSegments(segments: seq<seq<Pt>>, centerX: real, centerY: real, scale: real) returns (graph: seq<Pt>)
    ensures graph == SegmentVertices(segments, centerX, centerY, scale)
  {
    graph := [];
    for n := 0 to |segments|
      invariant graph == SegmentVertices(segments[..n], centerX, centerY, scale)
    {
      var seg := segments[n];
      ghost var before := graph;
      for m := 0 to |seg|
        invariant graph == before + PointVertices(seg[..m], centerX, centerY, scale)
      {
        graph := graph + [ToScreen(seg[m], centerX, centerY, scale)];
        assert seg[..m + 1][..m] == seg[..m];
      }
      assert seg[..|seg|] == seg;
      assert segments[..n + 1][..n] == segments[..n];
    }
    assert segments[..|segments|] == segments;
  }

  /** Two-point segments give twice as many vertices, segment k's points at 2k and 2k+1. */
  lemma {:induction false} SegmentVerticesPairs(segments: seq<seq<Pt>>, centerX: real, centerY: real, scale: real)
    requires forall s :: s in segments ==> |s| == 2
    ensures |SegmentVertices(segments, centerX, centerY, scale)| == 2 * |segments|
    ensures forall k :: 0 <= k < |segments| ==>
              SegmentVertices(segments, centerX, centerY, scale)[2 * k] == ToScreen(segments[k][0], centerX, centerY, scale) &&
              SegmentVertices(segments, centerX, centerY, scale)[2 * k + 1] == ToScreen(segments[k][1], centerX, centerY, scale)
    decreases |segments|
  {
    if segments != [] {
      var init := segments[..|segments| - 1];
      var last := segments[|segments| - 1];
      assert forall k :: 0 <= k < |init| ==> init[k] == segments[k] && segments[k] in segments;
      SegmentVerticesPairs(init, centerX, centerY, scale);
      assert last in segments;
      var v := SegmentVertices(init, centerX, centerY, scale);
      var p := PointVertices(last, centerX, centerY, scale);
      var g := v + p;
      assert SegmentVertices(segments, centerX, centerY, scale) == g;
      forall k | 0 <= k < |segments|
        ensures g[2 * k] == ToScreen(segments[k][0], centerX, centerY, scale)
        ensures g[2 * k + 1] == ToScreen(segments[k][1], centerX, centerY, scale)
      {
        if k < |init| {
          assert g[2 * k] == v[2 * k] && g[2 * k + 1] == v[2 * k + 1];
        } else {
          assert g[2 * k] == p[0] && g[2 * k + 1] == p[1];
        }
      }
    }
  }

  // ---------------------------------------------------------------------------
  // Per-column bucketing

  /** `(int)std::floor(centerX + p.x * scale)`. */
  function Column(s: Sample, centerX: real, scale: real): int {
    ScreenX(s.x, centerX, scale).Floor
  }

  /** The least and greatest y seen in a column. */
  datatype Span = Span(lo: real, hi: real)

  /** Folding one more value into a column's span. */
  function Include(b: Option<Span>, y: real): Option<Span> {
    if b.None? then Some(Span(y, y))
    else Some(Span(if y < b.value.lo then y else b.value.lo, if y > b.value.hi then y else b.value.hi))
  }

  /** The (min, max) of the y values of the samples that fall in column c, if any. */
  function Bucket(samples: seq<Sample>, centerX: real, scale: real, c: int): Option<Span>
    decreases |samples|
  {
    if samples == [] then None
    else
      var b := Bucket(samples[..|samples| - 1], centerX, scale, c);
      var s := samples[|samples| - 1];
      if Column(s, centerX, scale) == c then Include(b, s.y) else b
  }

  /** A column yields nothing exactly when no sample falls in it; otherwise its min and max are attained and bound every sample in it. */
  lemma {:induction false} BucketIsMinMax(samples: seq<Sample>, centerX: real, scale: real, c: int)
    ensures Bucket(samples, centerX, scale, c).None? <==> forall n :: 0 <= n < |samples| ==> Column(samples[n], centerX, scale) != c
    ensures Bucket(samples, centerX, scale, c).Some? ==>
              var lo := Bucket(samples, centerX, scale, c).value.lo;
              var hi := Bucket(samples, centerX, scale, c).value.hi;
              lo <= hi &&
              (forall n :: 0 <= n < |samples| && Column(samples[n], centerX, scale) == c ==> lo <= samples[n].y <= hi) &&
              (exists n :: 0 <= n < |samples| && Column(samples[n], centerX, scale) == c && samples[n].y == lo) &&
              (exists n :: 0 <= n < |samples| && Column(samples[n], centerX, scale) == c && samples[n].y == hi)
    decreases |samples|
  {
    if samples != [] {
      var init := samples[..|samples| - 1];
      var last := |samples| - 1;
      BucketIsMinMax(init, centerX, scale, c);
      assert forall n :: 0 <= n < last ==> samples[n] == init[n];
      var b := Bucket(init, centerX, scale, c);
      if Column(samples[last], centerX, scale) == c && b.Some? {
        var lo, hi := b.value.lo, b.value.hi;
        var lo0, hi0 :| 0 <= lo0 < last && Column(init[lo0], centerX, scale) == c && init[lo0].y == lo
                    && 0 <= hi0 < last && Column(init[hi0], centerX, scale) == c && init[hi0].y == hi;
        if samples[last].y < lo {
          assert samples[last].y == Bucket(samples, centerX, scale, c).value.lo;
        } else {
          assert samples[lo0].y == Bucket(samples, centerX, scale, c).value.lo;
        }
        if samples[last].y > hi {
          assert samples[last].y == Bucket(samples, centerX, scale, c).value.hi;
        } else {
          assert samples[hi0].y == Bucket(samples, centerX, scale, c).value.hi;
        }
      } else if Column(samples[last], centerX, scale) == c {
        assert samples[last].y == Bucket(samples, centerX, scale, c).value.lo;
      }
    }
  }

  /** The vertices of column c: (c, min) and, when max differs from min, (c, max). */
  function ColumnVertices(c: int, b: Option<Span>, centerY: real, scale: real): seq<Pt> {
    if b.None? then []
    else if b.value.hi != b.value.lo then [Pt(c as real, ScreenY(b.value.lo, centerY, scale)), Pt(c as real, ScreenY(b.value.hi, centerY, scale))]
    else [Pt(c as real, ScreenY(b.value.lo, centerY, scale))]
  }

  /** The vertices of columns 0, 1, ..., c-1, left to right. */
  function Bucketed(samples: seq<Sample>, centerX: real, centerY: real, scale: real, c: nat): seq<Pt> {
    if c == 0 then []
    else Bucketed(samples, centerX, centerY, scale, c - 1)
         + ColumnVertices(c - 1, Bucket(samples, centerX, scale, c - 1), centerY, scale)
  }

  /**
   * The first loop of the bucketed path: per column, whether a sample fell in it
   * and the least and greatest y among those samples. (The source starts the
   * buffers at plus and minus infinity; a column without samples is never read.)
   */
  method FillBuckets(samples: seq<Sample>, centerX: real, scale: real, screenWidth: int)
    returns (minY: array<real>, maxY: array<real>, has: array<bool>)
    requires screenWidth > 0
    ensures fresh(minY) && fresh(maxY) && fresh(has)
    ensures minY.Length == screenWidth && maxY.Length == screenWidth && has.Length == screenWidth
    ensures forall c :: 0 <= c < screenWidth ==> has[c] == Bucket(samples, centerX, scale, c).Some?
    ensures forall c :: 0 <= c < screenWidth && has[c] ==> Bucket(samples, centerX, scale, c) == Some(Span(minY[c], maxY[c]))
  {
    minY := new real[screenWidth](_ => 0.0);
    maxY := new real[screenWidth](_ => 0.0);
    has := new bool[screenWidth](_ => false);
    for n := 0 to |samples|
      invariant forall c :: 0 <= c < screenWidth ==> has[c] == Bucket(samples[..n], centerX, scale, c).Some?
      invariant forall c :: 0 <= c < screenWidth && has[c] ==> Bucket(samples[..n], centerX, scale, c) == Some(Span(minY[c], maxY[c]))
    {
      assert samples[..n + 1][..n] == samples[..n];
      var p := samples[n];
      var px := ScreenX(p.x, centerX, scale).Floor;
      if px < 0 || px >= screenWidth {
        continue;
      }
      var y := p.y;
      if !has[px] {
        minY[px] := y;
        maxY[px] := y;
        has[px] := true;
      } else {
        if y < minY[px] {
          minY[px] := y;
        }
        if y > maxY[px] {
          maxY[px] := y;
        }
      }
    }
    assert samples[..|samples|] == samples;
  }

  /** The 1-D path with `screenWidth > 0`: bucket the samples, then emit the columns left to right. */
  method BucketColumns(samples: seq<Sample>, centerX: real, centerY: real, scale: real, screenWidth: int) returns (graph: seq<Pt>)
    requires screenWidth > 0
    ensures graph == Bucketed(samples, centerX, centerY, scale, screenWidth)
  {
    var minY, maxY, has := FillBuckets(samples, centerX, scale, screenWidth);
    graph := [];
    for px := 0 to screenWidth
      invariant graph == Bucketed(samples, centerX, centerY, scale, px)
    {
      ghost var b := Bucket(samples, centerX, scale, px);
      assert has[px] == b.Some?;
      if has[px] {
        var y1 := minY[px];
        var y2 := maxY[px];
        assert b == Some(Span(y1, y2));
        graph := graph + [Pt(px as real, ScreenY(y1, centerY, scale))];
        if y2 != y1 {
          graph := graph + [Pt(px as real, ScreenY(y2, centerY, scale))];
        }
      } else {
        assert b == None;
      }
    }
  }

  /** Column c's vertices sit at x = c; there are one or two of them exactly when some sample falls in the column. */
  lemma ColumnVerticesShape(c: int, b: Option<Span>, centerY: real, scale: real)
    ensures b.None? <==> ColumnVertices(c, b, centerY, scale) == []
    ensures |ColumnVertices(c, b, centerY, scale)| <= 2
    ensures b.Some? ==> |ColumnVertices(c, b, centerY, scale)| == (if b.value.lo == b.value.hi then 1 else 2)
    ensures forall p :: p in ColumnVertices(c, b, centerY, scale) ==> p == Pt(c as real, p.y)
  {
  }

  /** A vertex at an integral screen column in [lo, hi). */
  predicate AtColumnIn(p: Pt, lo: int, hi: int) {
    p.Pt? && p.x == p.x.Floor as real && lo <= p.x.Floor < hi
  }

  /**
   * The bucketed vertices run left to right: every vertex sits at an integral
   * column in [0, c) that holds a sample, in non-decreasing order, at most
   * 2c of them in all.
   */
  lemma {:induction false} BucketedOrdered(samples: seq<Sample>, centerX: real, centerY: real, scale: real, c: nat)
    ensures var g := Bucketed(samples, centerX, centerY, scale, c);
            (forall n :: 0 <= n < |g| ==> AtColumnIn(g[n], 0, c) && Bucket(samples, centerX, scale, g[n].x.Floor).Some?) &&
            (forall a, b :: 0 <= a < b < |g| ==> g[a].x <= g[b].x) &&
            |g| <= 2 * c
  {
    if c > 0 {
      var init := Bucketed(samples, centerX, centerY, scale, c - 1);
      var bk := Bucket(samples, centerX, scale, c - 1);
      var last := ColumnVertices(c - 1, bk, centerY, scale);
      ColumnVerticesShape(c - 1, bk, centerY, scale);
      BucketedOrdered(samples, centerX, centerY, scale, c - 1);
      var g := init + last;
      assert forall n :: |init| <= n < |g| ==> g[n] == last[n - |init|] && last[n - |init|] in last;
      forall n | 0 <= n < |g|
        ensures AtColumnIn(g[n], 0, c) && Bucket(samples, centerX, scale, g[n].x.Floor).Some?
      {
        if n < |init| {
          assert g[n] == init[n];
        } else {
          assert g[n] == Pt((c - 1) as real, g[n].y);
        }
      }
      forall a, b | 0 <= a < b < |g|
        ensures g[a].x <= g[b].x
      {
        if |init| <= a {
          assert g[a] == Pt((c - 1) as real, g[a].y) && g[b] == Pt((c - 1) as real, g[b].y);
        } else if |init| <= b {
          assert g[a] == init[a] && AtColumnIn(init[a], 0, c - 1);
          assert g[b] == Pt((c - 1) as real, g[b].y);
        } else {
          assert g[a] == init[a] && g[b] == init[b];
        }
      }
    }
  }

  /** No column holds three vertices: any two vertices two places apart lie in different columns. */
  lemma {:induction false} BucketedTwoPerColumn(samples: seq<Sample>, centerX: real, centerY: real, scale: real, c: nat)
    ensures var g := Bucketed(samples, centerX, centerY, scale, c);
            forall a, b :: 0 <= a && a + 2 <= b < |g| ==> g[a].Pt? && g[b].Pt? && g[a].x < g[b].x
  {
    if c > 0 {
      var init := Bucketed(samples, centerX, centerY, scale, c - 1);
      var bk := Bucket(samples, centerX, scale, c - 1);
      var last := ColumnVertices(c - 1, bk, centerY, scale);
      ColumnVerticesShape(c - 1, bk, centerY, scale);
      BucketedOrdered(samples, centerX, centerY, scale, c - 1);
      BucketedTwoPerColumn(samples, centerX, centerY, scale, c - 1);
      var g := init + last;
      forall a, b | 0 <= a && a + 2 <= b < |g|
        ensures g[a].Pt? && g[b].Pt? && g[a].x < g[b].x
      {
        assert g[a] == init[a] && AtColumnIn(init[a], 0, c - 1);
        if |init| <= b {
          assert g[b] == last[b - |init|] && last[b - |init|] in last;
          assert g[b] == Pt((c - 1) as real, g[b].y);
        } else {
          assert g[b] == init[b];
        }
      }
    }
  }

  /** A column holding a sample yields its (column, screen row of the least y) vertex. */
  lemma {:induction false} BucketedHasColumns(samples: seq<Sample>, centerX: real, centerY: real, scale: real, c: nat, col: nat)
    requires col < c
    ensures Bucket(samples, centerX, scale, col).Some? ==>
              Pt(col as real, ScreenY(Bucket(samples, centerX, scale, col).value.lo, centerY, scale)) in Bucketed(samples, centerX, centerY, scale, c)
  {
    var init := Bucketed(samples, centerX, centerY, scale, c - 1);
    var b := Bucket(samples, centerX, scale, c - 1);
    var last := ColumnVertices(c - 1, b, centerY, scale);
    assert Bucketed(samples, centerX, centerY, scale, c) == init + last;
    if col < c - 1 {
      BucketedHasColumns(samples, centerX, centerY, scale, c - 1, col);
    } else if b.Some? {
      assert last[0] == Pt(col as real, ScreenY(b.value.lo, centerY, scale));
      assert (init + last)[|init|] == last[0];
    }
  }

  // ---------------------------------------------------------------------------
  // computeGraphFromRPN

  function Min(a: int, b: int): int {
    if a < b then a else b
  }

  /**
   * The world coordinate of grid line i out of n between lo and hi. With a
   * single line the spacing `(hi - lo) / 0` is infinite, and `0 * inf` makes
   * the coordinate NaN.
   */
  function GridCoord(lo: real, hi: real, n: int, i: nat): Double {
    if n > 1 then Num(lo + Times(i, (hi - lo) / ((n - 1) as real))) else NaN
  }

  /** The spacing handed to the contour tracer; unused when there is a single line. */
  function Spacing(lo: real, hi: real, n: int): real {
    if n > 1 then (hi - lo) / ((n - 1) as real) else 0.0
  }

  /** The variables a grid evaluation sees: `x` and `y` set, over a copy of the environment if there is one. */
  function GridBinding(env: Option<map<string, Double>>, wx: Double, wy: Double): Binding {
    match env
    case None => XAndY(wx, wy)
    case Some(e) => Env(e["x" := wx]["y" := wy])
  }

  /** A grid cell: the program's value there, or NaN when the evaluation throws. */
  function GridValue(lib: MathLib, rpn: seq<Token>, env: Option<map<string, Double>>, wx: Double, wy: Double): Double {
    match Evaluate(lib, GridBinding(env, wx, wy), rpn)
    case Ok(v) => v
    case Err(_) => NaN
  }

  /** The world rectangle the screen shows. */
  datatype World = World(xMin: real, xMax: real, yMin: real, yMax: real)

  function VisibleWorld(scale: real, centerX: real, centerY: real, screenWidth: int, screenHeight: int): World
    requires scale != 0.0
  {
    World((0.0 - centerX) / scale, (screenWidth as real - centerX) / scale,
          (centerY - screenHeight as real) / scale, centerY / scale)
  }

  /** The sampling grid: `ny` rows of `nx` values, row j at `y = yMin + j*dy`, column i at `x = xMin + i*dx`. */
  function Grid(lib: MathLib, rpn: seq<Token>, env: Option<map<string, Double>>, w: World, nx: nat, ny: nat): seq<seq<Double>> {
    seq(ny, j requires 0 <= j < ny =>
      seq(nx, i requires 0 <= i < nx =>
        GridValue(lib, rpn, env, GridCoord(w.xMin, w.xMax, nx, i), GridCoord(w.yMin, w.yMax, ny, j))))
  }

  /** The grid-filling loops of the implicit path. */
  method FillGrid(lib: MathLib, rpn: seq<Token>, env: Option<map<string, Double>>, w: World, nx: nat, ny: nat)
    returns (grid: seq<seq<Double>>)
    ensures grid == Grid(lib, rpn, env, w, nx, ny)
  {
    grid := [];
    for j := 0 to ny
      invariant |grid| == j
      invariant forall j' :: 0 <= j' < j ==> grid[j'] == Grid(lib, rpn, env, w, nx, ny)[j']
    {
      var row: seq<Double> := [];
      for i := 0 to nx
        invariant |row| == i
        invariant forall i' :: 0 <= i' < i ==> row[i'] == Grid(lib, rpn, env, w, nx, ny)[j][i']
      {
        var wx := GridCoord(w.xMin, w.xMax, nx, i);
        var wy := GridCoord(w.yMin, w.yMax, ny, j);
        var r: Result<Double, EvalError>;
        if env.Some? {
          var local := env.value["x" := wx]["y" := wy];
          r := EvaluateRPNEnv(lib, rpn, local);
        } else {
          r := EvaluateRPNXY(lib, rpn, wx, wy);
        }
        var cell := if r.Ok? then r.value else NaN;
        assert cell == GridValue(lib, rpn, env, wx, wy);
        row := row + [cell];
      }
      grid := grid + [row];
    }
  }

  /** The implicit path: grid, contour, then the segments' points on screen. */
  function ImplicitGraph(lib: MathLib, rpn: seq<Token>, env: Option<map<string, Double>>, scale: real, centerX: real, centerY: real, screenWidth: int, screenHeight: int): seq<Pt>
    requires scale != 0.0 && screenWidth > 0 && screenHeight > 0
  {
    var w := VisibleWorld(scale, centerX, centerY, screenWidth, screenHeight);
    var nx := Min(300, screenWidth);
    var ny := Min(300, screenHeight);
    var grid := Grid(lib, rpn, env, w, nx, ny);
    assert Rectangular(grid);
    var segments := Segments(grid, Frame(w.xMin, w.yMin, Spacing(w.xMin, w.xMax, nx), Spacing(w.yMin, w.yMax, ny)), 0.0);
    SegmentVertices(segments, centerX, centerY, scale)
  }

  /** What `computeGraphFromRPN` returns (the vertex positions). */
  function GraphFromRPN(lib: MathLib, rpn: seq<Token>, scale: real, xMin: real, xMax: real, step: real, centerX: real, centerY: real,
                        screenWidth: int, screenHeight: int, env: Option<map<string, Double>>): seq<Pt>
    requires scale != 0.0 && (step > 0.0 || xMin > xMax)
  {
    if rpn == [] then []
    else if RpnUsesY(rpn) && screenWidth > 0 && screenHeight > 0 then
      ImplicitGraph(lib, rpn, env, scale, centerX, centerY, screenWidth, screenHeight)
    else
      var samples := WorldSamples(lib, rpn, env, xMin, xMax, step);
      if screenWidth <= 0 then SampleVertices(samples, centerX, centerY, scale)
      else Bucketed(samples, centerX, centerY, scale, screenWidth)
  }

  /** `computeGraphFromRPN`. */
  method ComputeGraphFromRPN(lib: MathLib, rpn: seq<Token>, scale: real, xMin: real, xMax: real, step: real, centerX: real, centerY: real,
                             screenWidth: int, screenHeight: int, env: Option<map<string, Double>>)
    returns (graph: seq<Pt>)
    requires scale != 0.0 && (step > 0.0 || xMin > xMax)
    ensures graph == GraphFromRPN(lib, rpn, scale, xMin, xMax, step, centerX, centerY, screenWidth, screenHeight, env)
  {
    graph := [];
    if rpn == [] {
      return;
    }
    if RpnUsesY(rpn) && screenWidth > 0 && screenHeight > 0 {
      var w := VisibleWorld(scale, centerX, centerY, screenWidth, screenHeight);
      var nx := Min(300, screenWidth);
      var ny := Min(300, screenHeight);
      var dx := Spacing(w.xMin, w.xMax, nx);
      var dy := Spacing(w.yMin, w.yMax, ny);
      var grid := FillGrid(lib, rpn, env, w, nx, ny);
      var segments := MarchingSquares(grid, w.xMin, w.yMin, dx, dy, 0.0);
      graph := PlotSegments(segments, centerX, centerY, scale);
      return;
    }
    var samples := ComputeWorldSamplesFromRPN(lib, rpn, xMin, xMax, step, env);
    if screenWidth <= 0 {
      graph := PlotSamples(samples, centerX, centerY, scale);
      return;
    }
    graph := BucketColumns(samples, centerX, centerY, scale, screenWidth);
  }

  /**
   * The implicit grid is `min(300, screenHeight)` rows of `min(300, screenWidth)`
   * values; a cell whose evaluation throws holds NaN.
   */
  lemma GridShape(lib: MathLib, rpn: seq<Token>, env: Option<map<string, Double>>, scale: real, centerX: real, centerY: real, screenWidth: int, screenHeight: int)
    requires scale != 0.0 && screenWidth > 0 && screenHeight > 0
    ensures var w := VisibleWorld(scale, centerX, centerY, screenWidth, screenHeight);
            var nx := Min(300, screenWidth);
            var ny := Min(300, screenHeight);
            var grid := Grid(lib, rpn, env, w, nx, ny);
            1 <= nx <= 300 && nx <= screenWidth && 1 <= ny <= 300 && ny <= screenHeight &&
            |grid| == ny && (forall j :: 0 <= j < ny ==> |grid[j]| == nx) &&
            forall j, i | 0 <= j < ny && 0 <= i < nx ::
              Evaluate(lib, GridBinding(env, GridCoord(w.xMin, w.xMax, nx, i), GridCoord(w.yMin, w.yMax, ny, j)), rpn).Err?
              ==> grid[j][i] == NaN
  {
  }

  /** The grid lines are `lo + i * (hi - lo) / (n - 1)`. */
  lemma GridCoordIsLinear(lo: real, hi: real, n: int, i: nat)
    requires n > 1
    ensures GridCoord(lo, hi, n, i) == Num(lo + (i as real) * ((hi - lo) / ((n - 1) as real)))
  {
    TimesIsProduct(i, (hi - lo) / ((n - 1) as real));
  }

  /** A contour yields two vertices per segment, at most 2(nx-1)(ny-1) in all. */
  lemma ContourVertexCount(grid: seq<seq<Double>>, f: Frame, iso: real, centerX: real, centerY: real, scale: real)
    requires Rectangular(grid) && |grid[0]| >= 1
    ensures |SegmentVertices(Segments(grid, f, iso), centerX, centerY, scale)| == 2 * |Segments(grid, f, iso)|
    ensures |Segments(grid, f, iso)| <= (|grid[0]| - 1) * (|grid| - 1)
  {
    SegmentCount(grid, f, iso);
    SegmentVerticesPairs(Segments(grid, f, iso), centerX, centerY, scale);
  }

  /** The implicit path yields an even number of vertices, at most 2(nx-1)(ny-1). */
  lemma ImplicitVertexCount(lib: MathLib, rpn: seq<Token>, env: Option<map<string, Double>>, scale: real, centerX: real, centerY: real, screenWidth: int, screenHeight: int)
    requires scale != 0.0 && screenWidth > 0 && screenHeight > 0
    ensures |ImplicitGraph(lib, rpn, env, scale, centerX, centerY, screenWidth, screenHeight)| % 2 == 0
    ensures |ImplicitGraph(lib, rpn, env, scale, centerX, centerY, screenWidth, screenHeight)|
            <= 2 * ((Min(300, screenWidth) - 1) * (Min(300, screenHeight) - 1))
  {
    var w := VisibleWorld(scale, centerX, centerY, screenWidth, screenHeight);
    var nx := Min(300, screenWidth);
    var ny := Min(300, screenHeight);
    var grid := Grid(lib, rpn, env, w, nx, ny);
    assert |grid| == ny && |grid[0]| == nx;
    var f := Frame(w.xMin, w.yMin, Spacing(w.xMin, w.xMax, nx), Spacing(w.yMin, w.yMax, ny));
    ContourVertexCount(grid, f, 0.0, centerX, centerY, scale);
  }

  /**
   * What `computeGraphFromRPN` returns, whichever branch it takes: nothing for an
   * empty program; on the contour path an even number of vertices, at most
   * 2(nx-1)(ny-1); with no screen width one vertex per world sample, in order;
   * otherwise vertices at integral columns in [0, screenWidth) that some sample
   * falls in, left to right, with no column holding more than two.
   */
  lemma GraphShape(lib: MathLib, rpn: seq<Token>, scale: real, xMin: real, xMax: real, step: real, centerX: real, centerY: real,
                   screenWidth: int, screenHeight: int, env: Option<map<string, Double>>)
    requires scale != 0.0 && (step > 0.0 || xMin > xMax)
    ensures rpn == [] ==> GraphFromRPN(lib, rpn, scale, xMin, xMax, step, centerX, centerY, screenWidth, screenHeight, env) == []
    ensures rpn != [] && RpnUsesY(rpn) && screenWidth > 0 && screenHeight > 0 ==>
              var g := GraphFromRPN(lib, rpn, scale, xMin, xMax, step, centerX, centerY, screenWidth, screenHeight, env);
              |g| % 2 == 0 && |g| <= 2 * ((Min(300, screenWidth) - 1) * (Min(300, screenHeight) - 1))
    ensures rpn != [] && screenWidth <= 0 ==>
              var g := GraphFromRPN(lib, rpn, scale, xMin, xMax, step, centerX, centerY, screenWidth, screenHeight, env);
              var samples := WorldSamples(lib, rpn, env, xMin, xMax, step);
              |g| == |samples| &&
              forall n :: 0 <= n < |g| ==> g[n] == Pt(ScreenX(samples[n].x, centerX, scale), ScreenY(samples[n].y, centerY, scale))
    ensures rpn != [] && (!RpnUsesY(rpn) || screenHeight <= 0) && screenWidth > 0 ==>
              var g := GraphFromRPN(lib, rpn, scale, xMin, xMax, step, centerX, centerY, screenWidth, screenHeight, env);
              var samples := WorldSamples(lib, rpn, env, xMin, xMax, step);
              |g| <= 2 * screenWidth &&
              (forall n :: 0 <= n < |g| ==>
                 AtColumnIn(g[n], 0, screenWidth) &&
                 exists k :: 0 <= k < |samples| && Column(samples[k], centerX, scale) == g[n].x.Floor) &&
              (forall a, b :: 0 <= a < b < |g| ==> g[a].x <= g[b].x) &&
              (forall a, b :: 0 <= a && a + 2 <= b < |g| ==> g[a].x < g[b].x)
  {
    if rpn != [] {
      if RpnUsesY(rpn) && screenWidth > 0 && screenHeight > 0 {
        ImplicitVertexCount(lib, rpn, env, scale, centerX, centerY, screenWidth, screenHeight);
      } else if screenWidth > 0 {
        var samples := WorldSamples(lib, rpn, env, xMin, xMax, step);
        var g := Bucketed(samples, centerX, centerY, scale, screenWidth);
        BucketedOrdered(samples, centerX, centerY, scale, screenWidth);
        BucketedTwoPerColumn(samples, centerX, centerY, scale, screenWidth);
        forall n | 0 <= n < |g|
          ensures exists k :: 0 <= k < |samples| && Column(samples[k], centerX, scale) == g[n].x.Floor
        {
          BucketIsMinMax(samples, centerX, scale, g[n].x.Floor);
        }
      }
    }
  }
}
