/** A polyline: a list of vertices with a closed flag and a dirty flag that
    every mutation through the vertex API raises. Also its read-only
    measures (signed area, bounding box), the clamping of vertex indices
    for the cached per-vertex angles, and the two-stage simplification
    (vertex reduction, then Douglas-Peucker). */
module Polyline {
  import opened Util

  // ---------------------------------------------------------------------
  // Subsequences and filtering

  /** `a` is obtained from `b` by deleting elements. */
  predicate SubsequenceOf(a: seq<Point>, b: seq<Point>)
    decreases |b|
  {
    if a == [] then true
    else if b == [] then false
    else ((a[|a| - 1] == b[|b| - 1] && SubsequenceOf(a[..|a| - 1], b[..|b| - 1]))
          || SubsequenceOf(a, b[..|b| - 1]))
  }

  lemma SubsequenceSnocBoth(a: seq<Point>, b: seq<Point>, x: Point)
    requires SubsequenceOf(a, b)
    ensures SubsequenceOf(a + [x], b + [x])
  {
    assert (a + [x])[..|a + [x]| - 1] == a;
    assert (b + [x])[..|b + [x]| - 1] == b;
  }

  lemma SubsequenceSnocRight(a: seq<Point>, b: seq<Point>, x: Point)
    requires SubsequenceOf(a, b)
    ensures SubsequenceOf(a, b + [x])
  {
    assert (b + [x])[..|b + [x]| - 1] == b;
  }

  lemma {:induction false} SubsequenceLength(a: seq<Point>, b: seq<Point>)
    requires SubsequenceOf(a, b)
    ensures |a| <= |b|
    decreases |b|
  {
    if a != [] {
      if a[|a| - 1] == b[|b| - 1] && SubsequenceOf(a[..|a| - 1], b[..|b| - 1]) {
        SubsequenceLength(a[..|a| - 1], b[..|b| - 1]);
      } else {
        SubsequenceLength(a, b[..|b| - 1]);
      }
    }
  }

  /** A subsequence of a prefix is a subsequence of every longer prefix. */
  lemma {:induction false} SubsequenceExtend(a: seq<Point>, b: seq<Point>, m: nat, m': nat)
    requires m <= m' <= |b| && SubsequenceOf(a, b[..m])
    ensures SubsequenceOf(a, b[..m'])
    decreases m' - m
  {
    if m < m' {
      SubsequenceExtend(a, b, m, m' - 1);
      assert b[..m'] == b[..m' - 1] + [b[m' - 1]];
      SubsequenceSnocRight(a, b[..m' - 1], b[m' - 1]);
    }
  }

  /** Deleting from a subsequence leaves a subsequence. */
  lemma {:induction false} SubsequenceTrans(a: seq<Point>, b: seq<Point>, c: seq<Point>)
    requires SubsequenceOf(a, b) && SubsequenceOf(b, c)
    ensures SubsequenceOf(a, c)
    decreases |c|
  {
    if a == [] {
    } else if b[|b| - 1] == c[|c| - 1] && SubsequenceOf(b[..|b| - 1], c[..|c| - 1]) {
      if a[|a| - 1] == b[|b| - 1] && SubsequenceOf(a[..|a| - 1], b[..|b| - 1]) {
        SubsequenceTrans(a[..|a| - 1], b[..|b| - 1], c[..|c| - 1]);
      } else {
        SubsequenceTrans(a, b[..|b| - 1], c[..|c| - 1]);
      }
    } else {
      SubsequenceTrans(a, b, c[..|c| - 1]);
    }
  }

  /** The elements of `v` whose marker is non-zero, in order. */
  function Filter(v: seq<Point>, mk: seq<int>): seq<Point>
    requires |mk| == |v|
  {
    if v == [] then []
    else Filter(v[..|v| - 1], mk[..|v| - 1]) + (if mk[|v| - 1] != 0 then [v[|v| - 1]] else [])
  }

  /** Filtering keeps a subsequence, and keeps the first and the last
      element when they are marked. */
  lemma {:induction false} FilterShape(v: seq<Point>, mk: seq<int>)
    requires |mk| == |v|
    ensures SubsequenceOf(Filter(v, mk), v)
    ensures |v| > 0 && mk[0] != 0 ==> |Filter(v, mk)| > 0 && Filter(v, mk)[0] == v[0]
    ensures |v| > 0 && mk[|v| - 1] != 0 ==> |Filter(v, mk)| > 0 && Filter(v, mk)[|Filter(v, mk)| - 1] == v[|v| - 1]
    decreases |v|
  {
    if v != [] {
      var v', mk' := v[..|v| - 1], mk[..|v| - 1];
      var x := v[|v| - 1];
      FilterShape(v', mk');
      assert v' + [x] == v;
      if mk[|v| - 1] != 0 {
        assert Filter(v, mk) == Filter(v', mk') + [x];
        SubsequenceSnocBoth(Filter(v', mk'), v', x);
      } else {
        assert Filter(v, mk) == Filter(v', mk');
        SubsequenceSnocRight(Filter(v', mk'), v', x);
      }
      if |v| > 1 && mk[0] != 0 {
        assert mk'[0] == mk[0] && v'[0] == v[0];
      }
    }
  }

  // ---------------------------------------------------------------------
  // Signed area

  /** The z component of the cross product of the xy projections. */
  function Cross(p: Point, q: Point): real { p.x * q.y - q.x * p.y }

  /** The shoelace terms of the open chain of vertices. */
  function OpenSum(ps: seq<Point>): real
  {
    if |ps| < 2 then 0.0 else OpenSum(ps[..|ps| - 1]) + Cross(ps[|ps| - 2], ps[|ps| - 1])
  }

  /** The signed area of the closed polygon through the vertices: half the
      shoelace sum, the closing edge included; zero below two vertices. */
  function Area(ps: seq<Point>): real
  {
    if |ps| < 2 then 0.0 else 0.5 * (OpenSum(ps) + Cross(ps[|ps| - 1], ps[0]))
  }

  function Reverse(ps: seq<Point>): (r: seq<Point>)
    ensures |r| == |ps|
    ensures forall i :: 0 <= i < |ps| ==> r[i] == ps[|ps| - 1 - i]
  {
    if ps == [] then [] else [ps[|ps| - 1]] + Reverse(ps[..|ps| - 1])
  }

  lemma {:induction false} OpenSumCons(x: Point, q: seq<Point>)
    requires |q| >= 1
    ensures OpenSum([x] + q) == Cross(x, q[0]) + OpenSum(q)
    decreases |q|
  {
    if |q| >= 2 {
      assert ([x] + q)[..|[x] + q| - 1] == [x] + q[..|q| - 1];
      OpenSumCons(x, q[..|q| - 1]);
    } else {
      assert ([x] + q)[..1] == [x];
    }
  }

  lemma {:induction false} OpenSumReverse(ps: seq<Point>)
    ensures OpenSum(Reverse(ps)) == -OpenSum(ps)
    decreases |ps|
  {
    if |ps| >= 2 {
      var init := ps[..|ps| - 1];
      OpenSumReverse(init);
      assert Reverse(ps) == [ps[|ps| - 1]] + Reverse(init);
      OpenSumCons(ps[|ps| - 1], Reverse(init));
      assert Reverse(init)[0] == ps[|ps| - 2];
    } else if |ps| == 1 {
      assert Reverse(ps) == ps;
    }
  }

  /** Walking the vertices the other way round flips the sign of the area. */
  lemma AreaReversed(ps: seq<Point>)
    ensures Area(Reverse(ps)) == -Area(ps)
  {
    OpenSumReverse(ps);
  }

  // ---------------------------------------------------------------------
  // Index clamping for the per-vertex caches

  /** The cache index `getAngleAtIndex` reads for `index` on `n` vertices:
      out-of-range indices wrap to the other end on a closed polyline and
      stick to the near end on an open one. */
  function ClampedIndex(index: int, n: nat, closed: bool): (r: int)
    requires n >= 1
    ensures 0 <= r < n
    ensures 0 <= index < n ==> r == index
    ensures index < 0 ==> r == (if closed then n - 1 else 0)
    ensures index >= n ==> r == (if closed then 0 else n - 1)
  {
    if index < 0 then (if closed then n - 1 else 0)
    else if index > n - 1 then (if closed then 0 else n - 1)
    else index
  }

  // ---------------------------------------------------------------------
  // Douglas-Peucker

  /** Squared distance between two points. */
  function Dist2(p: Point, q: Point): real { Dot(Sub(p, q), Sub(p, q)) }

  /** Squared distance from `p` to the segment from `a` to `b`: to `a` when
      the foot of the perpendicular falls before it, to `b` when it falls
      beyond, else to the foot. */
  function SegDist2(p: Point, a: Point, b: Point): real
  {
    var u := Sub(b, a);
    var cu := Dot(u, u);
    var cw := Dot(Sub(p, a), u);
    if cw <= 0.0 then Dist2(p, a)
    else if cu <= cw then Dist2(p, b)
    else Dist2(p, Add(a, Scale(u, cw / cu)))
  }

  /** The first marked index after `i`, or `k` when there is none up to it. */
  function NextMark(mk: seq<int>, i: int, k: int): (r: int)
    requires 0 <= i < k <= |mk| - 1 || (0 <= i && k <= i + 1 && k < |mk|)
    ensures i < k ==> i < r <= k
    decreases k - i
  {
    if i + 1 >= k then k else if mk[i + 1] != 0 then i + 1 else NextMark(mk, i + 1, k)
  }

  /** The last marked index before `i`, or `j` when there is none down to it. */
  function PrevMark(mk: seq<int>, j: int, i: int): (r: int)
    requires 0 <= j < i < |mk| || (0 <= j && i <= j + 1 && i <= |mk|)
    ensures j < i ==> j <= r < i
    decreases i - j
  {
    if i - 1 <= j then j else if mk[i - 1] != 0 then i - 1 else PrevMark(mk, j, i - 1)
  }

  /** Every unmarked vertex strictly between `j` and `k` lies within the
      tolerance of the chord joining the marked vertices around it (`j` and
      `k` count as marked). */
  predicate WithinTolerance(v: seq<Point>, mk: seq<int>, j: int, k: int, tol2: real)
    requires 0 <= j <= k < |v| == |mk|
  {
    forall i :: j < i < k && mk[i] == 0 ==> SegDist2(v[i], v[PrevMark(mk, j, i)], v[NextMark(mk, i, k)]) <= tol2
  }

  lemma {:induction false} NoMarksBefore(mk: seq<int>, j: int, i: int)
    requires 0 <= j < i < |mk|
    requires forall t :: j < t < i ==> mk[t] == 0
    ensures PrevMark(mk, j, i) == j
    decreases i - j
  {
    if i - 1 > j {
      NoMarksBefore(mk, j, i - 1);
    }
  }

  lemma {:induction false} NoMarksAfter(mk: seq<int>, i: int, k: int)
    requires 0 <= i < k < |mk|
    requires forall t :: i < t < k ==> mk[t] == 0
    ensures NextMark(mk, i, k) == k
    decreases k - i
  {
    if i + 1 < k {
      NoMarksAfter(mk, i + 1, k);
    }
  }

  /** A mark at `c` ends every search that reaches it. */
  lemma {:induction false} NextMarkStops(mk: seq<int>, i: int, c: int, k: int)
    requires 0 <= i < c <= k < |mk| && mk[c] != 0
    ensures NextMark(mk, i, k) == NextMark(mk, i, c)
    decreases c - i
  {
    if i + 1 < c && mk[i + 1] == 0 {
      NextMarkStops(mk, i + 1, c, k);
    }
  }

  lemma {:induction false} PrevMarkStops(mk: seq<int>, j: int, c: int, i: int)
    requires 0 <= j <= c < i < |mk| && mk[c] != 0
    ensures PrevMark(mk, j, i) == PrevMark(mk, c, i)
    decreases i - c
  {
    if i - 1 > c && mk[i - 1] == 0 {
      PrevMarkStops(mk, j, c, i - 1);
    }
  }

  /** The searches only look at markers between their bounds. */
  lemma {:induction false} PrevMarkFrame(mk: seq<int>, mk': seq<int>, lo: int, i: int)
    requires 0 <= lo < i < |mk| == |mk'|
    requires forall t :: lo <= t < i ==> mk[t] == mk'[t]
    ensures PrevMark(mk, lo, i) == PrevMark(mk', lo, i)
    decreases i - lo
  {
    if i - 1 > lo && mk[i - 1] == 0 {
      PrevMarkFrame(mk, mk', lo, i - 1);
    }
  }

  lemma {:induction false} NextMarkFrame(mk: seq<int>, mk': seq<int>, i: int, hi: int)
    requires 0 <= i < hi < |mk| == |mk'|
    requires forall t :: i < t <= hi ==> mk[t] == mk'[t]
    ensures NextMark(mk, i, hi) == NextMark(mk', i, hi)
    decreases hi - i
  {
    if i + 1 < hi && mk[i + 1] == 0 {
      NextMarkFrame(mk, mk', i + 1, hi);
    }
  }

  /** After the two halves of a split at a marked `c` are each within the
      tolerance, so is the whole range. */
  lemma CombineHalves(v: seq<Point>, mk: seq<int>, mk1: seq<int>, j: int, c: int, k: int, tol2: real)
    requires 0 <= j < c < k < |v| == |mk| == |mk1| && mk[c] != 0
    requires forall t :: j <= t <= c ==> mk[t] == mk1[t]
    requires WithinTolerance(v, mk1, j, c, tol2) && WithinTolerance(v, mk, c, k, tol2)
    ensures WithinTolerance(v, mk, j, k, tol2)
  {
    forall i | j < i < k && mk[i] == 0
      ensures SegDist2(v[i], v[PrevMark(mk, j, i)], v[NextMark(mk, i, k)]) <= tol2
    {
      if i < c {
        PrevMarkFrame(mk, mk1, j, i);
        NextMarkFrame(mk, mk1, i, c);
        NextMarkStops(mk, i, c, k);
        assert mk1[i] == 0;
      } else {
        assert i != c;
        PrevMarkStops(mk, j, c, i);
      }
    }
  }

  /** The interior vertex farthest from the chord `v[j] v[k]` and its
      squared distance; `j` and 0 when no vertex is strictly farther than
      0. */
  method Farthest(v: seq<Point>, j: int, k: int) returns (maxi: int, maxd2: real)
    requires 0 <= j < k < |v|
    ensures forall i :: j < i < k ==> SegDist2(v[i], v[j], v[k]) <= maxd2
    ensures (maxi == j && maxd2 == 0.0) || (j < maxi < k && maxd2 == SegDist2(v[maxi], v[j], v[k]) && maxd2 > 0.0)
  {
    maxi, maxd2 := j, 0.0;
    var i := j + 1;
    while i < k
      invariant j + 1 <= i <= k
      invariant forall t :: j < t < i ==> SegDist2(v[t], v[j], v[k]) <= maxd2
      invariant (maxi == j && maxd2 == 0.0) || (j < maxi < i && maxd2 == SegDist2(v[maxi], v[j], v[k]) && maxd2 > 0.0)
    {
      var dv2 := SegDist2(v[i], v[j], v[k]);
      if dv2 > maxd2 {
        maxi, maxd2 := i, dv2;
      }
      i := i + 1;
    }
  }

  lemma SquareNonNegative(t: real)
    ensures t * t >= 0.0
  {
    if t < 0.0 {
      assert t * t == (-t) * (-t);
    }
  }

  /** `simplifyDP`: marks the vertex farthest from the chord `v[j] v[k]`
      when it is farther than the tolerance and recurses on both halves.
      Only markers strictly between `j` and `k` change, only to 1, and in
      the end every unmarked vertex of the range lies within the tolerance
      of the chord between its marked neighbours. */
  method SimplifyDP(tol: real, v: seq<Point>, j: int, k: int, mk: array<int>)
    requires 0 <= j <= k < |v| <= mk.Length
    requires forall t :: j < t < k ==> mk[t] == 0
    modifies mk
    ensures forall t :: 0 <= t < mk.Length && !(j < t < k) ==> mk[t] == old(mk[t])
    ensures forall t :: 0 <= t < mk.Length ==> mk[t] == old(mk[t]) || mk[t] == 1
    ensures WithinTolerance(v, mk[..|v|], j, k, tol * tol)
    decreases k - j
  {
    if k <= j + 1 {
      return;
    }
    var maxi, maxd2 := Farthest(v, j, k);
    var tol2 := tol * tol;
    if maxd2 > tol2 {
      SquareNonNegative(tol);
      mk[maxi] := 1;
      SimplifyDP(tol, v, j, maxi, mk);
      ghost var mk1 := mk[..|v|];
      SimplifyDP(tol, v, maxi, k, mk);
      CombineHalves(v, mk[..|v|], mk1, j, maxi, k, tol2);
    } else {
      forall i | j < i < k && mk[i] == 0
        ensures SegDist2(v[i], v[PrevMark(mk[..|v|], j, i)], v[NextMark(mk[..|v|], i, k)]) <= tol2
      {
        NoMarksBefore(mk[..|v|], j, i);
        NoMarksAfter(mk[..|v|], i, k);
      }
    }
  }

  /** The vertices vertex reduction keeps from index `i` on, when the last
      one kept is vertex `pv`: a vertex closer than the tolerance to the
      last kept vertex is dropped, any other is kept and becomes the last
      kept one. */
  function RadialFrom(points: seq<Point>, tol2: real, pv: nat, i: nat): seq<Point>
    requires pv < i
    decreases |points| - i
  {
    if i >= |points| then []
    else if Dist2(points[i], points[pv]) < tol2 then RadialFrom(points, tol2, pv, i + 1)
    else [points[i]] + RadialFrom(points, tol2, i, i + 1)
  }

  /** The index of the last vertex kept by vertex reduction from index `i`
      on, when the last one kept is vertex `pv`. */
  function LastKept(points: seq<Point>, tol2: real, pv: nat, i: nat): nat
    requires pv < i
    decreases |points| - i
  {
    if i >= |points| then pv
    else if Dist2(points[i], points[pv]) < tol2 then LastKept(points, tol2, pv, i + 1)
    else LastKept(points, tol2, i, i + 1)
  }

  /** Stage 1 of `simplify`: the first vertex, the vertices vertex
      reduction keeps after it, and the last vertex unless it was kept. */
  function Reduced(points: seq<Point>, tol2: real): seq<Point>
    requires |points| >= 1
  {
    var kept := [points[0]] + RadialFrom(points, tol2, 0, 1);
    if LastKept(points, tol2, 0, 1) < |points| - 1 then kept + [points[|points| - 1]] else kept
  }

  /** Consecutive vertices are at least the tolerance apart (squared). */
  predicate Spread(vt: seq<Point>, tol2: real)
  {
    forall t :: 0 < t < |vt| ==> Gap(vt, t) >= tol2
  }

  /** The squared distance from vertex `t` to the one before it. */
  function Gap(vt: seq<Point>, t: int): real
    requires 0 < t < |vt|
  {
    Dist2(vt[t], vt[t - 1])
  }

  /** Keeping vertex `i` after the last kept vertex `pv` extends the
      subsequence. */
  lemma KeepStep(vt: seq<Point>, points: seq<Point>, pv: int, i: int)
    requires 0 <= pv < i < |points| && SubsequenceOf(vt, points[..pv + 1])
    ensures SubsequenceOf(vt + [points[i]], points[..i + 1])
  {
    SubsequenceExtend(vt, points, pv + 1, i);
    assert points[..i + 1] == points[..i] + [points[i]];
    SubsequenceSnocBoth(vt, points[..i], points[i]);
  }

  lemma SpreadSnoc(vt: seq<Point>, x: Point, tol2: real)
    requires Spread(vt, tol2) && |vt| >= 1 && Dist2(x, vt[|vt| - 1]) >= tol2
    ensures Spread(vt + [x], tol2)
  {
    var w := vt + [x];
    forall t | 0 < t < |w|
      ensures Gap(w, t) >= tol2
    {
      if t < |vt| {
        assert w[t] == vt[t] && w[t - 1] == vt[t - 1] && Gap(vt, t) >= tol2;
      }
    }
  }

  lemma SpreadPrefix(vt: seq<Point>, tol2: real)
    requires Spread(vt, tol2) && |vt| >= 1
    ensures Spread(vt[..|vt| - 1], tol2)
  {
    var w := vt[..|vt| - 1];
    forall t | 0 < t < |w|
      ensures Gap(w, t) >= tol2
    {
      assert w[t] == vt[t] && w[t - 1] == vt[t - 1] && Gap(vt, t) >= tol2;
    }
  }

  // ---------------------------------------------------------------------
  // The polyline

  class Polyline {
    var points: seq<Point>
    var closed: bool
    var changed: bool
    /** The vertices of a pending Catmull-Rom curve. */
    var curveVertices: seq<Point>
    /** The per-vertex angle cache that `updateCache` fills. */
    var angles: seq<real>

    /** An empty open polyline, marked as changed. */
    constructor ()
      ensures points == [] && !closed && changed && curveVertices == [] && angles == []
    {
      points := [];
      closed := false;
      changed := true;
      curveVertices := [];
      angles := [];
    }

    /** A polyline through `verts`. */
    constructor FromVertices(verts: seq<Point>)
      ensures points == verts && !closed && changed && curveVertices == [] && angles == []
    {
      points := verts;
      closed := false;
      changed := true;
      curveVertices := [];
      angles := [];
    }

    /** No vertices, open, and marked as changed. */
    method Clear()
      modifies this`points, this`closed, this`changed, this`curveVertices
      ensures points == [] && !closed && changed && curveVertices == []
    {
      closed := false;
      points := [];
      changed := true;
      curveVertices := [];
    }

    /** Appends one vertex. */
    method AddVertex(p: Point)
      modifies this`points, this`changed, this`curveVertices
      ensures points == old(points) + [p] && changed && curveVertices == []
    {
      curveVertices := [];
      points := points + [p];
      changed := true;
    }

    /** Appends the vertices in order. */
    method AddVertices(verts: seq<Point>)
      modifies this`points, this`changed, this`curveVertices
      ensures points == old(points) + verts && changed && curveVertices == []
    {
      curveVertices := [];
      points := points + verts;
      changed := true;
    }

    /** Inserts `p` before the vertex at `index`; the vertices from there on
        move one place right. */
    method InsertVertex(p: Point, index: int)
      requires 0 <= index <= |points|
      modifies this`points, this`changed, this`curveVertices
      ensures |points| == |old(points)| + 1 && points[index] == p
      ensures forall i :: 0 <= i < index ==> points[i] == old(points[i])
      ensures forall i :: index < i < |points| ==> points[i] == old(points[i - 1])
      ensures changed && curveVertices == []
    {
      curveVertices := [];
      points := points[..index] + [p] + points[index..];
      changed := true;
    }

    function Size(): (n: nat)
      reads this
      ensures n == |points|
    {
      |points|
    }

    /** The writable `operator[]`: handing out the vertex marks the polyline
        as changed; the write itself is `p`. */
    method SetVertex(index: int, p: Point)
      requires 0 <= index < |points|
      modifies this`points, this`changed
      ensures points == old(points)[index := p] && changed
    {
      changed := true;
      points := points[index := p];
    }

    /** Grows with origin vertices or cuts to `size` vertices. */
    method Resize(size: nat)
      modifies this`points, this`changed
      ensures |points| == size && changed
      ensures forall i :: 0 <= i < size && i < |old(points)| ==> points[i] == old(points[i])
      ensures forall i :: |old(points)| <= i < size ==> points[i] == Origin
    {
      changed := true;
      if size <= |points| {
        points := points[..size];
      } else {
        points := points + seq(size - |points|, _ => Origin);
      }
    }

    /** Sets the closed flag and marks the polyline as changed. */
    method SetClosed(tf: bool)
      modifies this`closed, this`changed
      ensures closed == tf && changed
    {
      changed := true;
      closed := tf;
    }

    function IsClosed(): (r: bool)
      reads this
      ensures r == closed
    {
      closed
    }

    /** Closes the polyline without marking it as changed. */
    method Close()
      modifies this`closed
      ensures closed
    {
      closed := true;
    }

    /** Reports the dirty flag and clears it, so that a second call with no
        mutation in between reports false. */
    method HasChanged() returns (r: bool)
      modifies this`changed
      ensures r == old(changed) && !changed
    {
      if changed {
        changed := false;
        return true;
      } else {
        return false;
      }
    }

    /** `getArea`: the shoelace loop over the open chain, then the closing
        edge. */
    method GetArea() returns (area: real)
      ensures area == Area(points)
    {
      if |points| < 2 {
        return 0.0;
      }
      area := 0.0;
      var i := 0;
      while i < |points| - 1
        invariant 0 <= i <= |points| - 1
        invariant area == OpenSum(points[..i + 1])
      {
        assert points[..i + 2][..i + 1] == points[..i + 1];
        area := area + (points[i].x * points[i + 1].y - points[i + 1].x * points[i].y);
        i := i + 1;
      }
      assert points[..i + 1] == points;
      area := area + (points[|points| - 1].x * points[0].y - points[0].x * points[|points| - 1].y);
      area := 0.5 * area;
    }

    /** `getBoundingBox`: the smallest rectangle holding every vertex (in
        x and y); each of its sides passes through a vertex. An empty
        polyline gives the empty rectangle at the origin. */
    method GetBoundingBox() returns (box: Rect)
      ensures points == [] ==> box == Rect(0.0, 0.0, 0.0, 0.0)
      ensures forall i :: 0 <= i < |points| ==>
        box.x <= points[i].x <= box.x + box.width && box.y <= points[i].y <= box.y + box.height
      ensures points != [] ==>
        (exists i :: 0 <= i < |points| && points[i].x == box.x)
        && (exists i :: 0 <= i < |points| && points[i].x == box.x + box.width)
        && (exists i :: 0 <= i < |points| && points[i].y == box.y)
        && (exists i :: 0 <= i < |points| && points[i].y == box.y + box.height)
    {
      box := Rect(0.0, 0.0, 0.0, 0.0);
      var n := |points|;
      if n > 0 {
        var first := points[0];
        // The width and height hold the largest x and y until the end.
        box := Rect(first.x, first.y, first.x, first.y);
        ghost var ix, iw, iy, ih := 0, 0, 0, 0;
        var i := 0;
        while i < n
          invariant 0 <= i <= n
          invariant 0 <= ix < n && points[ix].x == box.x && 0 <= iw < n && points[iw].x == box.width
          invariant 0 <= iy < n && points[iy].y == box.y && 0 <= ih < n && points[ih].y == box.height
          invariant forall t :: 0 <= t < i ==>
            box.x <= points[t].x <= box.width && box.y <= points[t].y <= box.height
        {
          var cur := points[i];
          if cur.x < box.x {
            box := box.(x := cur.x);
            ix := i;
          }
          if cur.x > box.width {
            box := box.(width := cur.x);
            iw := i;
          }
          if cur.y < box.y {
            box := box.(y := cur.y);
            iy := i;
          }
          if cur.y > box.height {
            box := box.(height := cur.y);
            ih := i;
          }
          i := i + 1;
        }
        box := box.(width := box.width - box.x);
        box := box.(height := box.height - box.y);
      }
    }

    /** `getAngleAtIndex`, given the angles a cache update would compute
        now: below two vertices 0 with nothing touched; otherwise the cache
        is refreshed when the dirty flag is up (which clears it), and the
        angle at the clamped index is read. */
    method GetAngleAtIndex(index: int, freshAngles: seq<real>) returns (a: real)
      requires |freshAngles| == |points|
      requires |points| < 2 || changed || |points| <= |angles|
      modifies this`changed, this`angles
      ensures |points| < 2 ==> a == 0.0 && changed == old(changed) && angles == old(angles)
      ensures |points| >= 2 ==> (!changed && angles == (if old(changed) then freshAngles else old(angles))
                                 && a == angles[ClampedIndex(index, |points|, closed)])
    {
      if |points| < 2 {
        return 0.0;
      }
      var dirty := HasChanged();
      if dirty {
        angles := freshAngles;
      }
      var i := index;
      if i < 0 {
        i := if closed then |points| - 1 else 0;
      } else if i > |points| - 1 {
        i := if closed then 0 else |points| - 1;
      }
      a := angles[i];
    }

    /** Stage 1 of `simplify`: walks the vertices keeping each one at least
        the tolerance away from the last kept one, and always keeps the
        first and the last vertex. */
    static method ReduceVertices(points: seq<Point>, tol2: real) returns (vt: seq<Point>)
      requires |points| >= 1
      ensures vt == Reduced(points, tol2)
      ensures SubsequenceOf(vt, points) && 1 <= |vt|
      ensures vt[0] == points[0] && vt[|vt| - 1] == points[|points| - 1]
      ensures Spread(vt[..|vt| - 1], tol2)
    {
      var n := |points|;
      var pv;
      vt, pv := StartReducing(points, tol2);
      var i := 1;
      while i < n
        invariant i <= n && Reducing(points, tol2, vt, pv, i)
      {
        vt, pv := ReduceStep(points, tol2, vt, pv, i);
        i := i + 1;
      }
      vt := KeepLast(points, tol2, vt, pv);
    }

    /** The start of vertex reduction: the first vertex is kept. */
    static method StartReducing(points: seq<Point>, tol2: real) returns (vt: seq<Point>, pv: int)
      requires |points| >= 1
      ensures Reducing(points, tol2, vt, pv, 1) && vt == [points[0]] && pv == 0
    {
      vt, pv := [points[0]], 0;
      assert vt == [] + [points[0]] && points[..1] == [] + [points[0]];
      SubsequenceSnocBoth([], [], points[0]);
    }

    /** The end of vertex reduction: the last vertex is appended unless it
        was the last one kept. */
    static method KeepLast(points: seq<Point>, tol2: real, vt: seq<Point>, pv: int)
      returns (vt': seq<Point>)
      requires Reducing(points, tol2, vt, pv, |points|)
      ensures vt' == Reduced(points, tol2)
      ensures SubsequenceOf(vt', points) && 1 <= |vt'|
      ensures vt'[0] == points[0] && vt'[|vt'| - 1] == points[|points| - 1]
      ensures Spread(vt'[..|vt'| - 1], tol2)
    {
      var n := |points|;
      if pv < n - 1 {
        KeepStep(vt, points, pv, n - 1);
        assert points[..n] == points;
        vt' := vt + [points[n - 1]];
        assert vt'[..|vt'| - 1] == vt;
      } else {
        assert points[..pv + 1] == points;
        SpreadPrefix(vt, tol2);
        vt' := vt;
      }
    }

    /** Vertex reduction has looked at the first `i` vertices: `vt` is
        spread out, starts at the first vertex and ends at vertex `pv`, the
        last one kept. */
    static ghost predicate Reducing(points: seq<Point>, tol2: real, vt: seq<Point>, pv: int, i: int)
    {
      && 1 <= i <= |points| && 0 <= pv < i && 1 <= |vt|
      && SubsequenceOf(vt, points[..pv + 1])
      && vt[0] == points[0] && vt[|vt| - 1] == points[pv]
      && Spread(vt, tol2)
      && vt + RadialFrom(points, tol2, pv, i) == [points[0]] + RadialFrom(points, tol2, 0, 1)
      && LastKept(points, tol2, pv, i) == LastKept(points, tol2, 0, 1)
    }

    /** One step of vertex reduction: vertex `i` is kept when it is at
        least the tolerance away from the last kept vertex. */
    static method ReduceStep(points: seq<Point>, tol2: real, vt: seq<Point>, pv: int, i: int)
      returns (vt': seq<Point>, pv': int)
      requires i < |points| && Reducing(points, tol2, vt, pv, i)
      ensures Reducing(points, tol2, vt', pv', i + 1)
      ensures Dist2(points[i], points[pv]) >= tol2 ==> vt' == vt + [points[i]] && pv' == i
      ensures Dist2(points[i], points[pv]) < tol2 ==> vt' == vt && pv' == pv
    {
      vt', pv' := vt, pv;
      if Dist2(points[i], points[pv]) >= tol2 {
        SpreadSnoc(vt, points[i], tol2);
        KeepStep(vt, points, pv, i);
        vt', pv' := vt + [points[i]], i;
        assert vt' + RadialFrom(points, tol2, pv', i + 1) == vt + RadialFrom(points, tol2, pv, i);
      }
    }

    /** `simplify`: vertex reduction, then Douglas-Peucker on the reduced
        vertices, whose marked ones replace the polyline's vertices. The
        result is a subsequence of the old vertices keeping the first and
        the last; every reduced vertex it drops lies within the tolerance of
        the chord between the kept vertices around it. The flags are not
        touched. */
    method Simplify(tol: real) returns (ghost vt: seq<Point>, ghost marks: seq<int>)
      requires |points| >= 1
      modifies this`points
      ensures vt == Reduced(old(points), tol * tol)
      ensures SubsequenceOf(vt, old(points)) && |vt| >= 1
      ensures vt[0] == old(points)[0] && vt[|vt| - 1] == old(points)[|old(points)| - 1]
      ensures |marks| == |vt| && marks[0] != 0 && marks[|vt| - 1] != 0
      ensures points == Filter(vt, marks)
      ensures WithinTolerance(vt, marks, 0, |vt| - 1, tol * tol)
      ensures SubsequenceOf(points, old(points)) && 1 <= |points| <= |old(points)|
      ensures points[0] == old(points)[0] && points[|points| - 1] == old(points)[|old(points)| - 1]
    {
      var n := |points|;
      var tol2 := tol * tol;
      var reduced := ReduceVertices(points, tol2);
      SubsequenceLength(reduced, points);
      var mk := MarkReduced(tol, reduced, n);
      vt, marks := reduced, mk[..|reduced|];
      var sV := CopyMarked(reduced, mk);
      FilterShape(vt, marks);
      SubsequenceTrans(sV, vt, points);
      SubsequenceLength(sV, points);
      points := sV;
    }

    /** The marker array of `simplify`: `n` zeros, the first and the last
        reduced vertex marked, then Douglas-Peucker between them. */
    static method MarkReduced(tol: real, v: seq<Point>, n: int) returns (mk: array<int>)
      requires 1 <= |v| <= n
      ensures fresh(mk) && mk.Length == n
      ensures mk[0] != 0 && mk[|v| - 1] != 0
      ensures WithinTolerance(v, mk[..|v|], 0, |v| - 1, tol * tol)
    {
      var k := |v|;
      mk := new int[n](_ => 0);
      mk[k - 1] := 1;
      mk[0] := 1;
      SimplifyDP(tol, v, 0, k - 1, mk);
    }

    /** The copy loop of `simplify`: the reduced vertices whose marker is
        set, in order. */
    static method CopyMarked(v: seq<Point>, mk: array<int>) returns (sV: seq<Point>)
      requires |v| <= mk.Length
      ensures sV == Filter(v, mk[..|v|])
    {
      sV := [];
      var i := 0;
      while i < |v|
        invariant 0 <= i <= |v|
        invariant sV == Filter(v[..i], mk[..i])
      {
        assert v[..i + 1][..i] == v[..i] && mk[..i + 1][..i] == mk[..i];
        if mk[i] != 0 {
          sV := sV + [v[i]];
        }
        i := i + 1;
      }
      assert v[..i] == v;
    }
  }
}
