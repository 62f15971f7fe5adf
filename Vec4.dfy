/** Four-component vectors (`ofVec4f`): the component-wise operators
    return new values; the assignment forms, `interpolate`, `middle` and
    `average` update a vector in place. */
module Vec4 {

  datatype Vec4 = Vec4(x: real, y: real, z: real, w: real)

  const Zero := Vec4(0.0, 0.0, 0.0, 0.0)

  /** `operator[]`: 0 to 3 select x, y, z, w; any other index selects x. */
  function Index(v: Vec4, i: int): (c: real)
    ensures i == 1 ==> c == v.y
    ensures i == 2 ==> c == v.z
    ensures i == 3 ==> c == v.w
    ensures (i < 1 || i > 3) ==> c == v.x
  {
    match i
    case 0 => v.x
    case 1 => v.y
    case 2 => v.z
    case 3 => v.w
    case _ => v.x
  }

  /** Writing through `operator[]`: the selected component is replaced. */
  function WithIndex(v: Vec4, i: int, c: real): (r: Vec4)
    ensures Index(r, i) == c
    ensures forall k :: 0 <= k < 4 && k != (if 0 <= i < 4 then i else 0) ==> Index(r, k) == Index(v, k)
  {
    match i
    case 1 => v.(y := c)
    case 2 => v.(z := c)
    case 3 => v.(w := c)
    case _ => v.(x := c)
  }

  function Plus(a: Vec4, b: Vec4): Vec4 { Vec4(a.x + b.x, a.y + b.y, a.z + b.z, a.w + b.w) }
  function Minus(a: Vec4, b: Vec4): Vec4 { Vec4(a.x - b.x, a.y - b.y, a.z - b.z, a.w - b.w) }
  function PlusScalar(a: Vec4, f: real): Vec4 { Vec4(a.x + f, a.y + f, a.z + f, a.w + f) }
  function MinusScalar(a: Vec4, f: real): Vec4 { Vec4(a.x - f, a.y - f, a.z - f, a.w - f) }
  function Neg(a: Vec4): Vec4 { Vec4(-a.x, -a.y, -a.z, -a.w) }
  function Mul(a: Vec4, b: Vec4): Vec4 { Vec4(a.x * b.x, a.y * b.y, a.z * b.z, a.w * b.w) }
  function MulScalar(a: Vec4, f: real): Vec4 { Vec4(a.x * f, a.y * f, a.z * f, a.w * f) }

  /** Subtracting what was added gives the vector back, and so does
      adding what was subtracted. */
  lemma PlusMinus(a: Vec4, b: Vec4, f: real)
    ensures Minus(Plus(a, b), b) == a && Plus(Minus(a, b), b) == a
    ensures MinusScalar(PlusScalar(a, f), f) == a && PlusScalar(MinusScalar(a, f), f) == a
  {
  }

  /** Addition is commutative and associative, with the zero vector as its
      identity. */
  lemma PlusLaws(a: Vec4, b: Vec4, c: Vec4)
    ensures Plus(a, b) == Plus(b, a)
    ensures Plus(Plus(a, b), c) == Plus(a, Plus(b, c))
    ensures Plus(a, Zero) == a
  {
  }

  /** A scalar operand acts on every component, like the vector with the
      scalar in all four components; negation is scaling by -1. */
  lemma ScalarIsSplat(a: Vec4, f: real)
    ensures PlusScalar(a, f) == Plus(a, Vec4(f, f, f, f))
    ensures MinusScalar(a, f) == Minus(a, Vec4(f, f, f, f))
    ensures MulScalar(a, f) == Mul(a, Vec4(f, f, f, f))
    ensures Neg(a) == MulScalar(a, -1.0)
  {
  }

  /** Component-wise multiplication is commutative, scaling by one changes
      nothing, and scaling distributes over addition. */
  lemma MulLaws(a: Vec4, b: Vec4, f: real)
    ensures Mul(a, b) == Mul(b, a)
    ensures MulScalar(a, 1.0) == a
    ensures MulScalar(Plus(a, b), f) == Plus(MulScalar(a, f), MulScalar(b, f))
  {
  }

  /** Negation is an involution and adding the negation is subtracting. */
  lemma NegNeg(a: Vec4, b: Vec4)
    ensures Neg(Neg(a)) == a
    ensures Plus(a, Neg(b)) == Minus(a, b)
  {
  }

  /** One component of a guarded division: left alone when the divisor
      is 0. */
  function DivPart(a: real, d: real): real
  {
    if d != 0.0 then a / d else a
  }

  /** `operator/(vec)`: each component is divided by the matching one,
      except where that divisor is 0. */
  function Div(a: Vec4, b: Vec4): (r: Vec4)
    ensures b.x == 0.0 ==> r.x == a.x
    ensures b.y == 0.0 ==> r.y == a.y
    ensures b.z == 0.0 ==> r.z == a.z
    ensures b.w == 0.0 ==> r.w == a.w
    ensures b.x != 0.0 ==> r.x * b.x == a.x
    ensures b.y != 0.0 ==> r.y * b.y == a.y
    ensures b.z != 0.0 ==> r.z * b.z == a.z
    ensures b.w != 0.0 ==> r.w * b.w == a.w
  {
    Vec4(DivPart(a.x, b.x), DivPart(a.y, b.y), DivPart(a.z, b.z), DivPart(a.w, b.w))
  }

  /** `operator/(f)`: dividing by 0 returns an unchanged copy. */
  function DivScalar(a: Vec4, f: real): (r: Vec4)
    ensures f == 0.0 ==> r == a
    ensures f != 0.0 ==> MulScalar(r, f) == a
  {
    if f == 0.0 then a else Vec4(a.x / f, a.y / f, a.z / f, a.w / f)
  }

  /** Component-wise division undoes component-wise multiplication by a
      vector without zero components. */
  lemma DivUndoesMul(a: Vec4, b: Vec4)
    requires b.x != 0.0 && b.y != 0.0 && b.z != 0.0 && b.w != 0.0
    ensures Div(Mul(a, b), b) == a
  {
  }

  /** `getInterpolated`: `p` of the way from `a` to `b`. */
  function GetInterpolated(a: Vec4, b: Vec4, p: real): Vec4
  {
    Vec4(a.x * (1.0 - p) + b.x * p, a.y * (1.0 - p) + b.y * p,
         a.z * (1.0 - p) + b.z * p, a.w * (1.0 - p) + b.w * p)
  }

  /** As the documentation promises: p = 0 gives the vector, p = 1 gives
      the other point; and interpolating from a point to itself stays
      there. */
  lemma InterpolatedEnds(a: Vec4, b: Vec4, p: real)
    ensures GetInterpolated(a, b, 0.0) == a
    ensures GetInterpolated(a, b, 1.0) == b
    ensures GetInterpolated(a, a, p) == a
  {
    assert a.x * (1.0 - p) + a.x * p == a.x;
    assert a.y * (1.0 - p) + a.y * p == a.y;
    assert a.z * (1.0 - p) + a.z * p == a.z;
    assert a.w * (1.0 - p) + a.w * p == a.w;
  }

  /** Interpolation is the sum of the two points weighted by `1 - p` and
      `p`. */
  lemma InterpolatedIsWeighted(a: Vec4, b: Vec4, p: real)
    ensures GetInterpolated(a, b, p) == Plus(MulScalar(a, 1.0 - p), MulScalar(b, p))
  {
  }

  /** `getMiddle`: the component-wise mean. */
  function GetMiddle(a: Vec4, b: Vec4): Vec4
  {
    Vec4((a.x + b.x) / 2.0, (a.y + b.y) / 2.0, (a.z + b.z) / 2.0, (a.w + b.w) / 2.0)
  }

  /** The middle is the interpolation at p = 0.5, as documented, and it
      does not depend on the order of the two points. */
  lemma MiddleIsHalfway(a: Vec4, b: Vec4)
    ensures GetMiddle(a, b) == GetInterpolated(a, b, 0.5)
    ensures GetMiddle(a, b) == GetMiddle(b, a)
  {
  }

  /** `dot`. */
  function Dot(a: Vec4, b: Vec4): real { a.x * b.x + a.y * b.y + a.z * b.z + a.w * b.w }

  /** The dot product is symmetric and linear in its first argument. */
  lemma DotLaws(a: Vec4, b: Vec4, c: Vec4, f: real)
    ensures Dot(a, b) == Dot(b, a)
    ensures Dot(Plus(a, b), c) == Dot(a, c) + Dot(b, c)
    ensures Dot(MulScalar(a, f), b) == f * Dot(a, b)
  {
  }

  /** `squareLength`. */
  function SquareLength(a: Vec4): (r: real)
    ensures r >= 0.0
  {
    a.x * a.x + a.y * a.y + a.z * a.z + a.w * a.w
  }

  /** `squareDistance`. */
  function SquareDistance(a: Vec4, b: Vec4): (r: real)
    ensures r >= 0.0
  {
    var vx := a.x - b.x;
    var vy := a.y - b.y;
    var vz := a.z - b.z;
    var vw := a.w - b.w;
    vx * vx + vy * vy + vz * vz + vw * vw
  }

  /** The square length is the dot product with itself; the square
      distance is the square length of the difference, symmetric, and 0
      from a point to itself. */
  lemma SquareMeasures(a: Vec4, b: Vec4)
    ensures SquareLength(a) == Dot(a, a)
    ensures SquareDistance(a, b) == SquareLength(Minus(a, b))
    ensures SquareDistance(a, b) == SquareDistance(b, a)
    ensures SquareDistance(a, a) == 0.0
  {
    assert (b.x - a.x) * (b.x - a.x) == (a.x - b.x) * (a.x - b.x);
    assert (b.y - a.y) * (b.y - a.y) == (a.y - b.y) * (a.y - b.y);
    assert (b.z - a.z) * (b.z - a.z) == (a.z - b.z) * (a.z - b.z);
    assert (b.w - a.w) * (b.w - a.w) == (a.w - b.w) * (a.w - b.w);
  }

  /** The component-wise sum of `points`. */
  function SumOf(points: seq<Vec4>): Vec4
  {
    if points == [] then Zero else Plus(SumOf(points[..|points| - 1]), points[|points| - 1])
  }

  /** `n` copies of `p` sum to `n` times `p`. */
  lemma {:induction false} SumOfCopies(points: seq<Vec4>, p: Vec4)
    requires forall i :: 0 <= i < |points| ==> points[i] == p
    ensures SumOf(points) == MulScalar(p, |points| as real)
    decreases |points|
  {
    if points != [] {
      var n := |points| as real;
      SumOfCopies(points[..|points| - 1], p);
      assert p.x * (n - 1.0) + p.x == p.x * n;
      assert p.y * (n - 1.0) + p.y == p.y * n;
      assert p.z * (n - 1.0) + p.z == p.z * n;
      assert p.w * (n - 1.0) + p.w == p.w * n;
    }
  }

  /** The sum of two runs of points, one after the other, is the sum of
      their sums. */
  lemma {:induction false} SumOfAppend(p: seq<Vec4>, q: seq<Vec4>)
    ensures SumOf(p + q) == Plus(SumOf(p), SumOf(q))
    decreases |q|
  {
    if q == [] {
      assert p + q == p;
    } else {
      var init := q[..|q| - 1];
      assert (p + q)[..|p + q| - 1] == p + init;
      SumOfAppend(p, init);
      PlusLaws(SumOf(p), SumOf(init), q[|q| - 1]);
    }
  }

  /** The centroid `average` computes over the first `num` points: the sum
      with each component then divided by `num`. A negative count sums no
      point. */
  function Average(points: seq<Vec4>, num: int): Vec4
    requires num != 0 && num <= |points|
  {
    var s := if num < 0 then Zero else SumOf(points[..num]);
    Vec4(s.x / num as real, s.y / num as real, s.z / num as real, s.w / num as real)
  }

  /** The average of copies of one point is that point. */
  lemma AverageOfCopies(points: seq<Vec4>, num: int, p: Vec4)
    requires 0 < num <= |points|
    requires forall i :: 0 <= i < num ==> points[i] == p
    ensures Average(points, num) == p
  {
    SumOfCopies(points[..num], p);
    var n := num as real;
    assert p.x * n / n == p.x && p.y * n / n == p.y && p.z * n / n == p.z && p.w * n / n == p.w;
  }

  /** `ofVec4f` as an object whose components its assignment operators
      update in place. */
  class Vec4f {
    var x: real
    var y: real
    var z: real
    var w: real

    /** The components as a value. */
    function Value(): Vec4
      reads this
    {
      Vec4(x, y, z, w)
    }

    /** The constructor, whose arguments default to 0. */
    constructor (v: Vec4)
      ensures Value() == v
    {
      x, y, z, w := v.x, v.y, v.z, v.w;
    }

    /** `set(x, y, z, w)` and `set(vec)`. */
    method Set(v: Vec4)
      modifies this
      ensures Value() == v
    {
      x := v.x;
      y := v.y;
      z := v.z;
      w := v.w;
    }

    /** Assigning through `operator[]`. */
    method SetIndex(i: int, c: real)
      modifies this
      ensures Value() == WithIndex(old(Value()), i, c)
    {
      match i
      case 1 => y := c;
      case 2 => z := c;
      case 3 => w := c;
      case _ => x := c;
    }

    /** `operator+=(vec)`. */
    method PlusAssign(v: Vec4)
      modifies this
      ensures Value() == Plus(old(Value()), v)
    {
      x := x + v.x;
      y := y + v.y;
      z := z + v.z;
      w := w + v.w;
    }

    /** `operator/=(vec)`: components whose divisor is 0 are kept. */
    method DivAssign(v: Vec4)
      modifies this
      ensures Value() == Div(old(Value()), v)
    {
      if v.x != 0.0 { x := x / v.x; }
      if v.y != 0.0 { y := y / v.y; }
      if v.z != 0.0 { z := z / v.z; }
      if v.w != 0.0 { w := w / v.w; }
    }

    /** `operator/=(f)`: dividing by 0 is a no-op. */
    method DivAssignScalar(f: real)
      modifies this
      ensures Value() == DivScalar(old(Value()), f)
    {
      if f == 0.0 {
        return;
      }
      x := x / f;
      y := y / f;
      z := z / f;
      w := w / f;
    }

    /** `interpolate`: the in-place form of `getInterpolated`. */
    method Interpolate(pnt: Vec4, p: real)
      modifies this
      ensures Value() == GetInterpolated(old(Value()), pnt, p)
    {
      x := x * (1.0 - p) + pnt.x * p;
      y := y * (1.0 - p) + pnt.y * p;
      z := z * (1.0 - p) + pnt.z * p;
      w := w * (1.0 - p) + pnt.w * p;
    }

    /** `middle`: the in-place form of `getMiddle`. */
    method Middle(pnt: Vec4)
      modifies this
      ensures Value() == GetMiddle(old(Value()), pnt)
    {
      x := (x + pnt.x) / 2.0;
      y := (y + pnt.y) / 2.0;
      z := (z + pnt.z) / 2.0;
      w := (w + pnt.w) / 2.0;
    }

    /** `average(points, num)`: the components are reset, the first `num`
        points are summed into them, and each is divided by `num`. */
    method AverageOf(points: seq<Vec4>, num: int)
      requires num != 0 && num <= |points|
      modifies this
      ensures Value() == Average(points, num)
    {
      x, y, z, w := 0.0, 0.0, 0.0, 0.0;
      var i := 0;
      while i < num
        invariant 0 <= i && (i <= num || i == 0)
        invariant Value() == SumOf(points[..i])
      {
        assert points[..i + 1][..i] == points[..i];
        PlusAssign(points[i]);
        i := i + 1;
      }
      assert Value() == if num < 0 then Zero else SumOf(points[..num]);
      x := x / num as real;
      y := y / num as real;
      z := z / num as real;
      w := w / num as real;
    }
  }
}
