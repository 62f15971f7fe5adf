/** Helpers over polylines: wrap-around indexing with C's remainder, the
    weighted-neighbour smoothing of a closed polyline, and the resampling
    of a polyline at a fixed spacing along its length. */
module ShapeUtils {
  import opened Util
  import Polyline

  function Abs(i: int): nat { if i < 0 then -i else i }

  /** C's `%` on `int`: the quotient truncates toward zero, so a non-zero
      remainder takes the sign of the dividend. */
  function CRem(i: int, n: int): (r: int)
    requires n != 0
    ensures Abs(r) < Abs(n)
    ensures i >= 0 ==> r >= 0
    ensures i < 0 ==> r <= 0
  {
    var r := Abs(i) % Abs(n);
    if i < 0 then -r else r
  }

  /** `loopMod`: C's remainder, moved up by `n` when it is negative. */
  function LoopMod(i: int, n: int): int
    requires n != 0
  {
    var r := CRem(i, n);
    if r < 0 then r + n else r
  }

  /** Euclidean division has one answer. */
  lemma ModUnique(i: int, n: int, q: int, r: int)
    requires n > 0 && 0 <= r < n && i == q * n + r
    ensures i % n == r
  {
    var k := i / n - q;
    assert k * n == r - i % n;
    MulBound(k, n);
  }

  /** A non-zero multiple of a positive `n` is at least `n` away from 0. */
  lemma MulBound(k: int, n: int)
    requires n > 0
    ensures k >= 1 ==> k * n >= n
    ensures k <= -1 ==> k * n <= -n
  {
  }

  /** The remainder of a negative dividend, from that of its negation. */
  lemma NegativeMod(i: int, n: int)
    requires n > 0 && i < 0
    ensures (-i) % n == 0 ==> i % n == 0
    ensures (-i) % n != 0 ==> i % n == n - (-i) % n
  {
    var r := (-i) % n;
    var q := (-i) / n;
    assert -i == q * n + r;
    if r == 0 {
      ModUnique(i, n, -q, 0);
    } else {
      ModUnique(i, n, -q - 1, n - r);
    }
  }

  /** For a positive modulus `loopMod` lands in `[0, n)` and agrees with the
      mathematical (Euclidean) remainder, negative `i` included; so it is
      congruent to `i` modulo `n`. */
  lemma LoopModIsMod(i: int, n: int)
    requires n > 0
    ensures 0 <= LoopMod(i, n) < n
    ensures LoopMod(i, n) == i % n
    ensures (i - LoopMod(i, n)) % n == 0
  {
    if i < 0 {
      NegativeMod(i, n);
    }
    CongruentToMod(i, n);
  }

  lemma CongruentToMod(i: int, n: int)
    requires n > 0
    ensures (i - i % n) % n == 0
  {
    ModUnique(i - i % n, n, i / n, 0);
  }

  /** `loopGet`: indexing a non-empty vector with any `int` wraps around. */
  function LoopGet<T>(vec: seq<T>, i: int): (r: T)
    requires |vec| > 0
    ensures r == vec[i % |vec|]
  {
    LoopModIsMod(i, |vec|);
    vec[LoopMod(i, |vec|)]
  }

  // ---------------------------------------------------------------------
  // Smoothing

  /** `ofMap(i, 0, size, 1, amount)`: the weight of the neighbours `i`
      apart, falling linearly from 1 at distance 0 to `amount` at distance
      `size`. */
  function SideWeight(i: int, size: int, amount: real): real
    requires size != 0
  {
    (i as real - 0.0) / (size as real - 0.0) * (amount - 1.0) + 1.0
  }

  /** The weight list after the first `m` side weights: the centre weight
      1, then the weights of distances 1 to `m`. */
  function Weights(m: int, size: int, amount: real): seq<real>
    requires m <= 0 || m <= size
    decreases m
  {
    if m <= 0 then [1.0] else Weights(m - 1, size, amount) + [SideWeight(m, size, amount)]
  }

  lemma {:induction false} WeightsShape(m: int, size: int, amount: real)
    requires m <= 0 || m <= size
    ensures |Weights(m, size, amount)| == (if m <= 0 then 1 else m + 1)
    ensures Weights(m, size, amount)[0] == 1.0
    ensures forall i :: 1 <= i <= m ==> Weights(m, size, amount)[i] == SideWeight(i, size, amount)
    decreases m
  {
    if m > 0 {
      WeightsShape(m - 1, size, amount);
    }
  }

  /** One more side weight adds itself to the sum of the side weights. */
  lemma WeightsStep(i: int, size: int, amount: real)
    requires 1 <= i <= size
    ensures SumReal(Weights(i, size, amount)[1..]) == SumReal(Weights(i - 1, size, amount)[1..]) + SideWeight(i, size, amount)
  {
    var prev := Weights(i - 1, size, amount);
    var next := Weights(i, size, amount)[1..];
    WeightsShape(i - 1, size, amount);
    assert next == prev[1..] + [SideWeight(i, size, amount)];
    SumRealSnoc(next, i - 1);
    assert next[..i - 1] == prev[1..];
    assert next[..i] == next;
  }

  /** The sum of the side weights. */
  function WeightSum(size: int, amount: real): real
  {
    SumReal(Weights(size, size, amount)[1..])
  }

  /** The first loop of `ofSmoothPolyline`: the weights and their sum. The
      list holds `size + 1` weights, the centre one being 1 and the
      farthest one `amount`. */
  method SmoothingWeights(size: int, amount: real) returns (weights: seq<real>, weightSum: real)
    ensures |weights| == (if size <= 0 then 1 else size + 1) && weights[0] == 1.0
    ensures forall i :: 1 <= i <= size ==> weights[i] == SideWeight(i, size, amount)
    ensures size >= 1 ==> weights[size] == amount
    ensures weights == Weights(size, size, amount) && weightSum == WeightSum(size, amount)
  {
    weights := [1.0];
    weightSum := 0.0;
    var i := 1;
    while i <= size
      invariant 1 <= i && (i <= size + 1 || i == 1)
      invariant weights == Weights(i - 1, size, amount)
      invariant weightSum == SumReal(weights[1..])
    {
      var curWeight := SideWeight(i, size, amount);
      WeightsStep(i, size, amount);
      weights := weights + [curWeight];
      weightSum := weightSum + curWeight;
      i := i + 1;
    }
    if size >= 1 {
      assert i - 1 == size;
    } else {
      assert Weights(size, size, amount) == [1.0] == Weights(i - 1, size, amount);
    }
    WeightsShape(size, size, amount);
  }

  /** The neighbours `j` to the left and to the right of vertex `i` on a
      closed polyline of `n` vertices. */
  function LeftOf(n: int, i: int, j: int): int requires n > 0 { (n + i - j) % n }
  function RightOf(n: int, i: int, j: int): int requires n > 0 { (i + j) % n }

  /** With `0 <= i < n` and `1 <= j <= n` (that is, a smoothing size at
      most `n`) the operands are not negative, so C's `%` agrees with the
      Euclidean one: both neighbours are valid indices and equal the
      wrap-around indices `loopMod(i - j)` and `loopMod(i + j)`. */
  lemma NeighbourIndices(n: int, i: int, j: int)
    requires 0 <= i < n && 1 <= j <= n
    ensures 0 <= LeftOf(n, i, j) < n && 0 <= RightOf(n, i, j) < n
    ensures LeftOf(n, i, j) == LoopMod(i - j, n) && RightOf(n, i, j) == LoopMod(i + j, n)
    ensures CRem(n + i - j, n) == LeftOf(n, i, j) && CRem(i + j, n) == RightOf(n, i, j)
  {
    // Every operand lies in [-n, 2n), so each remainder is the operand
    // itself or the operand moved by `n` once.
    if i - j >= 0 {
      ModUnique(n + i - j, n, 1, i - j);
      ModUnique(i - j, n, 0, i - j);
    } else if j - i == n {
      ModUnique(0, n, 0, 0);
    } else {
      ModUnique(n + i - j, n, 0, n + i - j);
      ModUnique(j - i, n, 0, j - i);
    }
    if i + j < n {
      ModUnique(i + j, n, 0, i + j);
    } else {
      ModUnique(i + j, n, 1, i + j - n);
    }
  }

  /** The weighted sum of the first `m` pairs of neighbours of vertex `i`,
      accumulated from the origin. */
  function NeighbourSum(orig: seq<Point>, i: int, m: int, weights: seq<real>): Point
    requires 0 <= i < |orig| && 0 <= m < |weights| && m <= |orig|
  {
    if m == 0 then Origin
    else
      var n := |orig|;
      Add(NeighbourSum(orig, i, m - 1, weights),
          Scale(Add(orig[LeftOf(n, i, m)], orig[RightOf(n, i, m)]), weights[m]))
  }

  /** The preconditions under which smoothing with `size` is defined: C's
      `%` on a negative neighbour position would index before the vector,
      and a zero normaliser would divide by zero. */
  predicate SmoothingDefined(n: nat, size: int, amount: real)
  {
    (n == 0 || size <= n) && 1.0 + 2.0 * WeightSum(size, amount) != 0.0
  }

  /** Vertex `i` after smoothing: its neighbours weighted, plus itself, all
      scaled by the normaliser `1 / (1 + 2 * weightSum)`. */
  function SmoothedAt(orig: seq<Point>, i: int, size: int, amount: real): Point
    requires 0 <= i < |orig| && SmoothingDefined(|orig|, size, amount)
  {
    WeightsShape(size, size, amount);
    var m := if size <= 0 then 0 else size;
    Scale(Add(NeighbourSum(orig, i, m, Weights(size, size, amount)), orig[i]),
          1.0 / (1.0 + 2.0 * WeightSum(size, amount)))
  }

  /** Smoothing with no side weights changes no vertex. */
  lemma SmoothingNothing(orig: seq<Point>, i: int, size: int, amount: real)
    requires 0 <= i < |orig| && size <= 0
    ensures SmoothingDefined(|orig|, size, amount)
    ensures SmoothedAt(orig, i, size, amount) == orig[i]
  {
    assert Weights(size, size, amount)[1..] == [];
  }

  /** Two more neighbours at `c` with weight `w` add `2 w` copies of `c`. */
  lemma AddPair(c: Point, a: real, w: real)
    ensures Add(Scale(c, a), Scale(Add(c, c), w)) == Scale(c, a + 2.0 * w)
  {
    assert c.x * a + (c.x + c.x) * w == c.x * (a + 2.0 * w);
    assert c.y * a + (c.y + c.y) * w == c.y * (a + 2.0 * w);
    assert c.z * a + (c.z + c.z) * w == c.z * (a + 2.0 * w);
  }

  lemma SumRealStep(ws: seq<real>, m: int)
    requires 1 <= m < |ws|
    ensures SumReal(ws[1..m + 1]) == SumReal(ws[1..m]) + ws[m]
  {
    SumRealSnoc(ws[1..m + 1], m - 1);
    assert ws[1..m + 1][..m - 1] == ws[1..m];
    assert ws[1..m + 1][..m] == ws[1..m + 1];
  }

  lemma {:induction false} NeighbourSumConstant(orig: seq<Point>, i: int, m: int, weights: seq<real>, c: Point)
    requires 0 <= i < |orig| && 0 <= m < |weights| && m <= |orig|
    requires forall t :: 0 <= t < |orig| ==> orig[t] == c
    ensures NeighbourSum(orig, i, m, weights) == Scale(c, 2.0 * SumReal(weights[1..m + 1]))
    decreases m
  {
    if m > 0 {
      NeighbourSumConstant(orig, i, m - 1, weights, c);
      SumRealStep(weights, m);
      var n := |orig|;
      assert orig[LeftOf(n, i, m)] == c && orig[RightOf(n, i, m)] == c;
      AddPair(c, 2.0 * SumReal(weights[1..m]), weights[m]);
    } else {
      assert weights[1..1] == [];
      assert Scale(c, 0.0) == Origin;
    }
  }

  lemma ScaleBack(x: real, d: real)
    requires d != 0.0
    ensures x * d * (1.0 / d) == x
  {
    assert d * (1.0 / d) == 1.0;
  }

  /** Adding `c` itself and normalising by `d` gives `c` back. */
  lemma Normalised(c: Point, a: real, d: real)
    requires d == 1.0 + a && d != 0.0
    ensures Scale(Add(Scale(c, a), c), 1.0 / d) == c
  {
    ScaleBack(c.x, d);
    ScaleBack(c.y, d);
    ScaleBack(c.z, d);
    assert c.x * a + c.x == c.x * d;
    assert c.y * a + c.y == c.y * d;
    assert c.z * a + c.z == c.z * d;
  }

  /** Smoothing a polyline whose vertices all coincide changes nothing:
      the weights are normalised. */
  lemma SmoothingConstant(orig: seq<Point>, i: int, size: int, amount: real, c: Point)
    requires 0 <= i < |orig| && SmoothingDefined(|orig|, size, amount)
    requires forall t :: 0 <= t < |orig| ==> orig[t] == c
    ensures SmoothedAt(orig, i, size, amount) == c
  {
    WeightsShape(size, size, amount);
    var weights := Weights(size, size, amount);
    var m := if size <= 0 then 0 else size;
    NeighbourSumConstant(orig, i, m, weights, c);
    assert weights[1..m + 1] == weights[1..];
    Normalised(c, 2.0 * WeightSum(size, amount), 1.0 + 2.0 * WeightSum(size, amount));
  }

  /** The body of the outer loop of `ofSmoothPolyline`: the weighted sum
      of the neighbours of vertex `i` and the vertex itself, normalised. */
  method SmoothVertex(original: seq<Point>, i: int, size: int, amount: real,
                      weights: seq<real>, weightNormalization: real) returns (acc: Point)
    requires 0 <= i < |original| && SmoothingDefined(|original|, size, amount)
    requires weights == Weights(size, size, amount)
    requires weightNormalization == 1.0 / (1.0 + 2.0 * WeightSum(size, amount))
    ensures acc == SmoothedAt(original, i, size, amount)
  {
    WeightsShape(size, size, amount);
    var n := |original|;
    acc := Origin;
    var j := 1;
    while j <= size
      invariant 1 <= j && (j <= size + 1 || j == 1)
      invariant acc == NeighbourSum(original, i, j - 1, weights)
    {
      NeighbourIndices(n, i, j);
      var left := original[(n + i - j) % n];
      var right := original[(i + j) % n];
      acc := Add(acc, Scale(Add(left, right), weights[j]));
      j := j + 1;
    }
    assert acc == NeighbourSum(original, i, if size <= 0 then 0 else size, weights);
    acc := Add(acc, original[i]);
    acc := Scale(acc, weightNormalization);
  }

  /** `ofSmoothPolyline`: every vertex becomes the weighted average of its
      neighbours on the closed polyline, computed from a copy of the
      original vertices. The vertex count stays; writing through the
      vertex operator marks the polyline as changed. */
  method SmoothPolyline(polyline: Polyline.Polyline, smoothingSize: int, smoothingAmount: real)
    requires SmoothingDefined(|polyline.points|, smoothingSize, smoothingAmount)
    modifies polyline
    ensures |polyline.points| == |old(polyline.points)|
    ensures forall i :: 0 <= i < |polyline.points| ==>
      polyline.points[i] == SmoothedAt(old(polyline.points), i, smoothingSize, smoothingAmount)
    ensures polyline.changed == (old(polyline.changed) || |polyline.points| > 0)
    ensures polyline.closed == old(polyline.closed) && polyline.curveVertices == old(polyline.curveVertices)
    ensures polyline.angles == old(polyline.angles)
  {
    var original := polyline.points;
    var weights, weightSum := SmoothingWeights(smoothingSize, smoothingAmount);
    var weightNormalization := 1.0 / (1.0 + 2.0 * weightSum);
    var n := |polyline.points|;
    var i := 0;
    while i < n
      invariant 0 <= i <= n && |polyline.points| == n
      invariant forall t :: 0 <= t < i ==> polyline.points[t] == SmoothedAt(original, t, smoothingSize, smoothingAmount)
      invariant polyline.changed == (old(polyline.changed) || i > 0)
      invariant polyline.closed == old(polyline.closed) && polyline.curveVertices == old(polyline.curveVertices)
      invariant polyline.angles == old(polyline.angles)
    {
      var acc := SmoothVertex(original, i, smoothingSize, smoothingAmount, weights, weightNormalization);
      polyline.SetVertex(i, acc);
      i := i + 1;
    }
  }

  // ---------------------------------------------------------------------
  // Resampling

  /** `ofVec3f::getInterpolated`: `p` of the way from `a` to `b`. */
  function Interpolated(a: Point, b: Point, p: real): Point
  {
    Point(a.x * (1.0 - p) + b.x * p, a.y * (1.0 - p) + b.y * p, a.z * (1.0 - p) + b.z * p)
  }

  /** The position of a sample `curLength` into a segment of length `len`,
      as a fraction of the segment. */
  function Relative(curLength: real, len: real): real
  {
    if len == 0.0 then 0.0 else curLength / len
  }

  /** The length of the first `s` segments. */
  function Prefix(lengths: seq<real>, s: int): real
    requires 0 <= s <= |lengths|
  {
    SumReal(lengths[..s])
  }

  /** Sample `c`, at distance `c * spacing` along the polyline, is drawn on
      segment `s`: the first segment whose end is at or beyond that
      distance, at the matching fraction of the segment. */
  predicate SampleOn(orig: seq<Point>, lengths: seq<real>, spacing: real, s: int, c: int, p: Point)
    requires |lengths| + 1 == |orig|
  {
    0 <= s < |lengths|
    && (s == 0 || Prefix(lengths, s) < c as real * spacing)
    && c as real * spacing <= Prefix(lengths, s + 1)
    && p == Interpolated(orig[s], orig[s + 1], Relative(c as real * spacing - Prefix(lengths, s), lengths[s]))
  }

  /** Every sample in `pts` so far lies where `SampleOn` puts it, on the
      segment recorded for it in `seg`. */
  predicate Sampled(orig: seq<Point>, lengths: seq<real>, spacing: real, seg: seq<int>, pts: seq<Point>)
    requires |lengths| + 1 == |orig|
  {
    |seg| == |pts| && forall c :: 0 <= c < |pts| ==> SampleOn(orig, lengths, spacing, seg[c], c, pts[c])
  }

  lemma SampledSnoc(orig: seq<Point>, lengths: seq<real>, spacing: real, seg: seq<int>, pts: seq<Point>, s: int, p: Point)
    requires |lengths| + 1 == |orig| && Sampled(orig, lengths, spacing, seg, pts)
    requires SampleOn(orig, lengths, spacing, s, |pts|, p)
    ensures Sampled(orig, lengths, spacing, seg + [s], pts + [p])
  {
    assert forall c :: 0 <= c < |pts| ==> (seg + [s])[c] == seg[c] && (pts + [p])[c] == pts[c];
  }

  /** The sample at step `k` on segment `i`, when segment `i` is the
      first to reach `k * spacing`. */
  lemma SampleHere(orig: seq<Point>, lengths: seq<real>, spacing: real, i: int, k: nat)
    requires |lengths| + 1 == |orig| && 0 <= i < |lengths|
    requires i == 0 || Prefix(lengths, i) < k as real * spacing
    requires k as real * spacing <= Prefix(lengths, i + 1) == Prefix(lengths, i) + lengths[i]
    ensures SampleOn(orig, lengths, spacing, i, k,
      Interpolated(orig[i], orig[i + 1],
        Relative(k as real * spacing - (Prefix(lengths, i + 1) - lengths[i]), lengths[i])))
  {
  }

  lemma StepBound(c: int, spacing: real, total: real)
    requires spacing > 0.0 && c as real * spacing <= total
    ensures c <= (total / spacing).Floor
  {
    assert c as real == (c as real * spacing) / spacing;
    assert (c as real * spacing) / spacing <= total / spacing;
  }

  /** The inner loop of `ofResamplePolyline` on segment `i`: while the
      next multiple of `spacing` lies within the first `i + 1` segments, a
      sample is interpolated on segment `i` and appended. Afterwards the
      samples reach just past the end of the segment. */
  method SampleSegment(polyline: Polyline.Polyline, original: seq<Point>, lengths: seq<real>,
                       spacing: real, i: int, totalLength: real, curStep: nat, ghost segment: seq<int>)
      returns (nextStep: nat, ghost nextSegment: seq<int>)
    requires |lengths| + 1 == |original| && 0 <= i < |lengths| && spacing > 0.0
    requires lengths[i] >= 0.0 && totalLength == Prefix(lengths, i) + lengths[i] == Prefix(lengths, i + 1)
    requires curStep == |polyline.points|
    requires i == 0 ==> curStep == 0 && Prefix(lengths, i) == 0.0
    requires i > 0 ==> curStep >= 1 && curStep as real * spacing > Prefix(lengths, i)
                       && (curStep - 1) as real * spacing <= Prefix(lengths, i)
    requires Sampled(original, lengths, spacing, segment, polyline.points)
    requires polyline.changed && polyline.curveVertices == []
    modifies polyline`points, polyline`changed, polyline`curveVertices
    ensures |polyline.points| == nextStep >= 1
    ensures nextStep as real * spacing > totalLength && (nextStep - 1) as real * spacing <= totalLength
    ensures Sampled(original, lengths, spacing, nextSegment, polyline.points)
    ensures polyline.changed && polyline.curveVertices == []
  {
    nextStep := curStep;
    nextSegment := segment;
    while nextStep as real * spacing <= totalLength
      invariant |polyline.points| == nextStep >= curStep
      invariant nextStep > curStep ==> (nextStep - 1) as real * spacing <= totalLength
      invariant i == 0 || nextStep as real * spacing > Prefix(lengths, i)
      invariant Sampled(original, lengths, spacing, nextSegment, polyline.points)
      invariant polyline.changed && polyline.curveVertices == []
      decreases (totalLength / spacing).Floor + 1 - nextStep
    {
      StepBound(nextStep, spacing, totalLength);
      nextSegment := AppendSample(polyline, original, lengths, spacing, i, totalLength, nextStep, nextSegment);
      StepAdvance(nextStep, spacing, Prefix(lengths, i));
      nextStep := nextStep + 1;
    }
  }

  /** A step past `prefix` stays past it after one more `spacing`. */
  lemma StepAdvance(k: nat, spacing: real, prefix: real)
    requires spacing > 0.0
    ensures k as real * spacing > prefix ==> (k + 1) as real * spacing > prefix
  {
    assert (k + 1) as real * spacing == k as real * spacing + spacing;
  }

  /** One pass of the inner loop: the sample at step `k` is interpolated
      on segment `i` and appended to the polyline. */
  method AppendSample(polyline: Polyline.Polyline, original: seq<Point>, lengths: seq<real>,
                      spacing: real, i: int, totalLength: real, k: nat, ghost segment: seq<int>)
      returns (ghost nextSegment: seq<int>)
    requires |lengths| + 1 == |original| && 0 <= i < |lengths|
    requires totalLength == Prefix(lengths, i) + lengths[i] == Prefix(lengths, i + 1)
    requires (i == 0 || Prefix(lengths, i) < k as real * spacing) && k as real * spacing <= totalLength
    requires k == |polyline.points| && Sampled(original, lengths, spacing, segment, polyline.points)
    modifies polyline`points, polyline`changed, polyline`curveVertices
    ensures |polyline.points| == k + 1 && polyline.changed && polyline.curveVertices == []
    ensures Sampled(original, lengths, spacing, nextSegment, polyline.points)
  {
    var cur := original[i];
    var next := original[i + 1];
    var curSegmentLength := lengths[i];
    var curSample := k as real * spacing;
    var curLength := curSample - (totalLength - curSegmentLength);
    var relativeSample := Relative(curLength, curSegmentLength);
    var p := Interpolated(cur, next, relativeSample);
    SampleHere(original, lengths, spacing, i, k);
    SampledSnoc(original, lengths, spacing, segment, polyline.points, i, p);
    polyline.AddVertex(p);
    nextSegment := segment + [i];
  }

  /** `ofResamplePolyline`, given the length of each segment: the polyline
      is cleared, then a sample is taken every `spacing` along its length,
      starting at the first vertex. Below two vertices the result is
      empty; otherwise there is exactly one sample per multiple of
      `spacing` up to the total length, each on the segment it falls in. */
  method ResamplePolyline(polyline: Polyline.Polyline, spacing: real, lengths: seq<real>)
      returns (ghost segment: seq<int>)
    requires |lengths| == (if |polyline.points| == 0 then 0 else |polyline.points| - 1)
    requires forall s :: 0 <= s < |lengths| ==> lengths[s] >= 0.0
    requires |polyline.points| < 2 || spacing > 0.0
    modifies polyline
    ensures |old(polyline.points)| < 2 ==> polyline.points == []
    ensures |old(polyline.points)| >= 2 ==>
      (|polyline.points| as real * spacing > SumReal(lengths)
       && (|polyline.points| - 1) as real * spacing <= SumReal(lengths))
    ensures |segment| == |polyline.points|
    ensures |old(polyline.points)| >= 2 ==> forall c :: 0 <= c < |polyline.points| ==>
      SampleOn(old(polyline.points), lengths, spacing, segment[c], c, polyline.points[c])
    ensures !polyline.closed && polyline.changed && polyline.curveVertices == []
    ensures polyline.angles == old(polyline.angles)
  {
    var original := polyline.points;
    polyline.Clear();
    segment := [];
    if |original| < 2 {
      return;
    }
    var totalLength := 0.0;
    var curStep := 0;
    var i := 0;
    while i < |original| - 1
      invariant 0 <= i <= |original| - 1
      invariant totalLength == Prefix(lengths, i)
      invariant |polyline.points| == curStep
      invariant i == 0 ==> curStep == 0
      invariant i > 0 ==> curStep >= 1 && curStep as real * spacing > totalLength
                          && (curStep - 1) as real * spacing <= totalLength
      invariant Sampled(original, lengths, spacing, segment, polyline.points)
      invariant !polyline.closed && polyline.changed && polyline.curveVertices == []
      invariant polyline.angles == old(polyline.angles)
    {
      SumRealSnoc(lengths, i);
      if i == 0 {
        assert lengths[..0] == [];
      }
      totalLength := totalLength + lengths[i];
      curStep, segment := SampleSegment(polyline, original, lengths, spacing, i, totalLength, curStep, segment);
      i := i + 1;
    }
    assert lengths[..i] == lengths;
  }
}
