/** 4x4 matrices (`ofMatrix4x4`), stored as 16 values in row-major order:
    entry (i, j) is value `4 i + j`. The queries and products are
    functions on the values; `set`, assignment and the translate and scale
    updates change a matrix's storage in place. */
module Matrix4x4 {
  import opened Util
  import opened Vec4

  /** Sixteen values make a matrix. */
  predicate IsMatrix(m: seq<real>) { |m| == 16 }

  /** Entry (i, j), that is `_mat[i][j]`. */
  function At(m: seq<real>, i: int, j: int): real
    requires IsMatrix(m) && 0 <= i < 4 && 0 <= j < 4
  {
    m[4 * i + j]
  }

  /** Component `i` of a three-vector, as `getPtr()[i]` reads it. */
  function Coord(v: Point, i: int): real
    requires 0 <= i < 3
  {
    if i == 0 then v.x else if i == 1 then v.y else v.z
  }

  /** The sixteen-argument constructor: the arguments in row-major order. */
  function FromRowMajor(a00: real, a01: real, a02: real, a03: real,
                        a10: real, a11: real, a12: real, a13: real,
                        a20: real, a21: real, a22: real, a23: real,
                        a30: real, a31: real, a32: real, a33: real): (m: seq<real>)
    ensures IsMatrix(m)
    ensures At(m, 0, 0) == a00 && At(m, 0, 1) == a01 && At(m, 0, 2) == a02 && At(m, 0, 3) == a03
    ensures At(m, 1, 0) == a10 && At(m, 1, 1) == a11 && At(m, 1, 2) == a12 && At(m, 1, 3) == a13
    ensures At(m, 2, 0) == a20 && At(m, 2, 1) == a21 && At(m, 2, 2) == a22 && At(m, 2, 3) == a23
    ensures At(m, 3, 0) == a30 && At(m, 3, 1) == a31 && At(m, 3, 2) == a32 && At(m, 3, 3) == a33
  {
    [a00, a01, a02, a03, a10, a11, a12, a13, a20, a21, a22, a23, a30, a31, a32, a33]
  }

  /** `getTransposedOf`: the entries passed column by column to the
      row-major constructor, so that entries (i, j) and (j, i) swap. */
  function TransposedOf(m: seq<real>): (t: seq<real>)
    requires IsMatrix(m)
    ensures IsMatrix(t)
    ensures forall i, j :: 0 <= i < 4 && 0 <= j < 4 ==> At(t, i, j) == At(m, j, i)
  {
    FromRowMajor(At(m, 0, 0), At(m, 1, 0), At(m, 2, 0), At(m, 3, 0),
                 At(m, 0, 1), At(m, 1, 1), At(m, 2, 1), At(m, 3, 1),
                 At(m, 0, 2), At(m, 1, 2), At(m, 2, 2), At(m, 3, 2),
                 At(m, 0, 3), At(m, 1, 3), At(m, 2, 3), At(m, 3, 3))
  }

  /** Two matrices with the same entries are the same values. */
  lemma SameEntries(a: seq<real>, b: seq<real>)
    requires IsMatrix(a) && IsMatrix(b)
    requires forall i, j :: 0 <= i < 4 && 0 <= j < 4 ==> At(a, i, j) == At(b, i, j)
    ensures a == b
  {
    forall k | 0 <= k < 16
      ensures a[k] == b[k]
    {
      assert At(a, k / 4, k % 4) == At(b, k / 4, k % 4);
    }
  }

  /** Transposing twice gives the matrix back. */
  lemma TransposeInvolution(m: seq<real>)
    requires IsMatrix(m)
    ensures TransposedOf(TransposedOf(m)) == m
  {
    SameEntries(TransposedOf(TransposedOf(m)), m);
  }

  /** `isIdentity`: each of the sixteen entries compared with the
      identity's. It holds exactly when the diagonal is 1 and every other
      entry is 0. */
  function IsIdentity(m: seq<real>): (b: bool)
    requires IsMatrix(m)
    ensures b <==> forall i, j :: 0 <= i < 4 && 0 <= j < 4 ==> At(m, i, j) == (if i == j then 1.0 else 0.0)
  {
    At(m, 0, 0) == 1.0 && At(m, 0, 1) == 0.0 && At(m, 0, 2) == 0.0 && At(m, 0, 3) == 0.0 &&
    At(m, 1, 0) == 0.0 && At(m, 1, 1) == 1.0 && At(m, 1, 2) == 0.0 && At(m, 1, 3) == 0.0 &&
    At(m, 2, 0) == 0.0 && At(m, 2, 1) == 0.0 && At(m, 2, 2) == 1.0 && At(m, 2, 3) == 0.0 &&
    At(m, 3, 0) == 0.0 && At(m, 3, 1) == 0.0 && At(m, 3, 2) == 0.0 && At(m, 3, 3) == 1.0
  }

  /** `getTranslation`: the first three entries of row 3. */
  function GetTranslation(m: seq<real>): (t: Point)
    requires IsMatrix(m)
    ensures t == Point(m[12], m[13], m[14])
  {
    Point(At(m, 3, 0), At(m, 3, 1), At(m, 3, 2))
  }

  /** `postMult(ofVec4f)`: M times v, v a column. */
  function PostMult(m: seq<real>, v: Vec4): Vec4
    requires IsMatrix(m)
  {
    Vec4(At(m, 0, 0) * v.x + At(m, 0, 1) * v.y + At(m, 0, 2) * v.z + At(m, 0, 3) * v.w,
         At(m, 1, 0) * v.x + At(m, 1, 1) * v.y + At(m, 1, 2) * v.z + At(m, 1, 3) * v.w,
         At(m, 2, 0) * v.x + At(m, 2, 1) * v.y + At(m, 2, 2) * v.z + At(m, 2, 3) * v.w,
         At(m, 3, 0) * v.x + At(m, 3, 1) * v.y + At(m, 3, 2) * v.z + At(m, 3, 3) * v.w)
  }

  /** `preMult(ofVec4f)`: v times M, v a row. */
  function PreMult(m: seq<real>, v: Vec4): Vec4
    requires IsMatrix(m)
  {
    Vec4(At(m, 0, 0) * v.x + At(m, 1, 0) * v.y + At(m, 2, 0) * v.z + At(m, 3, 0) * v.w,
         At(m, 0, 1) * v.x + At(m, 1, 1) * v.y + At(m, 2, 1) * v.z + At(m, 3, 1) * v.w,
         At(m, 0, 2) * v.x + At(m, 1, 2) * v.y + At(m, 2, 2) * v.z + At(m, 3, 2) * v.w,
         At(m, 0, 3) * v.x + At(m, 1, 3) * v.y + At(m, 2, 3) * v.z + At(m, 3, 3) * v.w)
  }

  /** Multiplying a row vector by M is multiplying M's transpose by the
      vector as a column. */
  lemma PreMultIsTransposedPostMult(m: seq<real>, v: Vec4)
    requires IsMatrix(m)
    ensures PreMult(m, v) == PostMult(TransposedOf(m), v)
  {
    var t := TransposedOf(m);
    assert At(t, 0, 1) == At(m, 1, 0) && At(t, 0, 2) == At(m, 2, 0) && At(t, 0, 3) == At(m, 3, 0);
    assert At(t, 1, 0) == At(m, 0, 1) && At(t, 1, 2) == At(m, 2, 1) && At(t, 1, 3) == At(m, 3, 1);
    assert At(t, 2, 0) == At(m, 0, 2) && At(t, 2, 1) == At(m, 1, 2) && At(t, 2, 3) == At(m, 3, 2);
    assert At(t, 3, 0) == At(m, 0, 3) && At(t, 3, 1) == At(m, 1, 3) && At(t, 3, 2) == At(m, 2, 3);
  }

  /** The identity leaves vectors alone, from either side. */
  lemma IdentityMult(m: seq<real>, v: Vec4)
    requires IsMatrix(m) && IsIdentity(m)
    ensures PreMult(m, v) == v && PostMult(m, v) == v
  {
    assert At(m, 0, 0) == 1.0 && At(m, 1, 1) == 1.0 && At(m, 2, 2) == 1.0 && At(m, 3, 3) == 1.0;
  }

  /** `transform3x3(v, m)`: v times the upper-left 3x3 block. */
  function Transform3x3Pre(v: Point, m: seq<real>): Point
    requires IsMatrix(m)
  {
    Point(At(m, 0, 0) * v.x + At(m, 1, 0) * v.y + At(m, 2, 0) * v.z,
          At(m, 0, 1) * v.x + At(m, 1, 1) * v.y + At(m, 2, 1) * v.z,
          At(m, 0, 2) * v.x + At(m, 1, 2) * v.y + At(m, 2, 2) * v.z)
  }

  /** `transform3x3(m, v)`: the upper-left 3x3 block times v. */
  function Transform3x3Post(m: seq<real>, v: Point): Point
    requires IsMatrix(m)
  {
    Point(At(m, 0, 0) * v.x + At(m, 0, 1) * v.y + At(m, 0, 2) * v.z,
          At(m, 1, 0) * v.x + At(m, 1, 1) * v.y + At(m, 1, 2) * v.z,
          At(m, 2, 0) * v.x + At(m, 2, 1) * v.y + At(m, 2, 2) * v.z)
  }

  /** Only the rotation part counts: matrices agreeing on the upper-left
      3x3 block transform row vectors alike ... */
  lemma Transform3x3PreBlock(m: seq<real>, n: seq<real>, v: Point)
    requires IsMatrix(m) && IsMatrix(n)
    requires forall i, j :: 0 <= i < 3 && 0 <= j < 3 ==> At(m, i, j) == At(n, i, j)
    ensures Transform3x3Pre(v, m) == Transform3x3Pre(v, n)
  {
    assert At(m, 0, 0) == At(n, 0, 0) && At(m, 0, 1) == At(n, 0, 1) && At(m, 0, 2) == At(n, 0, 2);
    assert At(m, 1, 0) == At(n, 1, 0) && At(m, 1, 1) == At(n, 1, 1) && At(m, 1, 2) == At(n, 1, 2);
    assert At(m, 2, 0) == At(n, 2, 0) && At(m, 2, 1) == At(n, 2, 1) && At(m, 2, 2) == At(n, 2, 2);
  }

  /** ... and column vectors alike. */
  lemma Transform3x3PostBlock(m: seq<real>, n: seq<real>, v: Point)
    requires IsMatrix(m) && IsMatrix(n)
    requires forall i, j :: 0 <= i < 3 && 0 <= j < 3 ==> At(m, i, j) == At(n, i, j)
    ensures Transform3x3Post(m, v) == Transform3x3Post(n, v)
  {
    assert At(m, 0, 0) == At(n, 0, 0) && At(m, 0, 1) == At(n, 0, 1) && At(m, 0, 2) == At(n, 0, 2);
    assert At(m, 1, 0) == At(n, 1, 0) && At(m, 1, 1) == At(n, 1, 1) && At(m, 1, 2) == At(n, 1, 2);
    assert At(m, 2, 0) == At(n, 2, 0) && At(m, 2, 1) == At(n, 2, 1) && At(m, 2, 2) == At(n, 2, 2);
  }

  /** The two forms of `transform3x3` are each other on the transpose. */
  lemma Transform3x3Transposed(m: seq<real>, v: Point)
    requires IsMatrix(m)
    ensures Transform3x3Pre(v, m) == Transform3x3Post(TransposedOf(m), v)
  {
    var t := TransposedOf(m);
    assert At(t, 0, 1) == At(m, 1, 0) && At(t, 0, 2) == At(m, 2, 0);
    assert At(t, 1, 0) == At(m, 0, 1) && At(t, 1, 2) == At(m, 2, 1);
    assert At(t, 2, 0) == At(m, 0, 2) && At(t, 2, 1) == At(m, 1, 2);
  }

  /** `transform3x3(v, m)` is the row-vector product with w = 0, cut to
      three components. */
  lemma Transform3x3IsPreMult(m: seq<real>, v: Point)
    requires IsMatrix(m)
    ensures var p := PreMult(m, Vec4(v.x, v.y, v.z, 0.0)); Transform3x3Pre(v, m) == Point(p.x, p.y, p.z)
  {
  }

  /** Entry (i, j) of the product of `a` and `b`. */
  function MultAt(a: seq<real>, b: seq<real>, i: int, j: int): real
    requires IsMatrix(a) && IsMatrix(b) && 0 <= i < 4 && 0 <= j < 4
  {
    At(a, i, 0) * At(b, 0, j) + At(a, i, 1) * At(b, 1, j) + At(a, i, 2) * At(b, 2, j) + At(a, i, 3) * At(b, 3, j)
  }

  /** What `makeIdentityMatrix` (and so the default constructor) is taken
      to produce. */
  function Identity(): (m: seq<real>)
    ensures IsMatrix(m) && IsIdentity(m)
  {
    FromRowMajor(1.0, 0.0, 0.0, 0.0, 0.0, 1.0, 0.0, 0.0, 0.0, 0.0, 1.0, 0.0, 0.0, 0.0, 0.0, 1.0)
  }

  /** The matrix product `a b`; `b.preMult(a)` makes `b` this product. */
  function Product(a: seq<real>, b: seq<real>): (p: seq<real>)
    requires IsMatrix(a) && IsMatrix(b)
    ensures IsMatrix(p)
    ensures forall i, j :: 0 <= i < 4 && 0 <= j < 4 ==> At(p, i, j) == MultAt(a, b, i, j)
  {
    seq(16, k requires 0 <= k < 16 => MultAt(a, b, k / 4, k % 4))
  }

  /** The identity is a left unit of the product. */
  lemma IdentityProduct(a: seq<real>, b: seq<real>)
    requires IsMatrix(a) && IsMatrix(b) && IsIdentity(a)
    ensures Product(a, b) == b
  {
    forall i, j | 0 <= i < 4 && 0 <= j < 4
      ensures At(Product(a, b), i, j) == At(b, i, j)
    {
      assert At(a, i, i) == 1.0;
    }
    SameEntries(Product(a, b), b);
  }

  /** The translation matrix in the row-vector convention: the offset in
      row 3. */
  function Translation(v: Point): seq<real>
  {
    FromRowMajor(1.0, 0.0, 0.0, 0.0, 0.0, 1.0, 0.0, 0.0, 0.0, 0.0, 1.0, 0.0, v.x, v.y, v.z, 1.0)
  }

  /** The scaling matrix: the factors on the diagonal. */
  function Scaling(v: Point): seq<real>
  {
    FromRowMajor(v.x, 0.0, 0.0, 0.0, 0.0, v.y, 0.0, 0.0, 0.0, 0.0, v.z, 0.0, 0.0, 0.0, 0.0, 1.0)
  }

  /** The translation and scaling matrices act on a row vector as their
      names say: a point (w = 1) moves by the offset and a direction
      (w = 0) does not; scaling multiplies each coordinate by its factor. */
  lemma TranslationScalingAct(v: Point, p: Vec4)
    ensures PreMult(Translation(v), p) == Vec4(p.x + p.w * v.x, p.y + p.w * v.y, p.z + p.w * v.z, p.w)
    ensures PreMult(Scaling(v), p) == Vec4(p.x * v.x, p.y * v.y, p.z * v.z, p.w)
  {
  }

  /** Entry (i, j) after `preMultTranslate(v)`: row 3 gains v's
      components times rows 0 to 2; the other rows stay. */
  function PreTranslatedAt(m: seq<real>, v: Point, i: int, j: int): real
    requires IsMatrix(m) && 0 <= i < 4 && 0 <= j < 4
  {
    if i < 3 then At(m, i, j)
    else At(m, 3, j) + v.x * At(m, 0, j) + v.y * At(m, 1, j) + v.z * At(m, 2, j)
  }

  /** Entry (i, j) after `postMultTranslate(v)`: columns 0 to 2 gain v's
      component times column 3; column 3 stays. */
  function PostTranslatedAt(m: seq<real>, v: Point, i: int, j: int): real
    requires IsMatrix(m) && 0 <= i < 4 && 0 <= j < 4
  {
    if j < 3 then At(m, i, j) + Coord(v, j) * At(m, i, 3) else At(m, i, j)
  }

  /** Entry (i, j) after `preMultScale(v)`: rows 0 to 2 scaled by v's
      components; row 3 stays. */
  function PreScaledAt(m: seq<real>, v: Point, i: int, j: int): real
    requires IsMatrix(m) && 0 <= i < 4 && 0 <= j < 4
  {
    if i < 3 then At(m, i, j) * Coord(v, i) else At(m, i, j)
  }

  /** Entry (i, j) after `postMultScale(v)`: columns 0 to 2 scaled by v's
      components; column 3 stays. */
  function PostScaledAt(m: seq<real>, v: Point, i: int, j: int): real
    requires IsMatrix(m) && 0 <= i < 4 && 0 <= j < 4
  {
    if j < 3 then At(m, i, j) * Coord(v, j) else At(m, i, j)
  }

  /** As the comments in the class promise, the translate updates are the
      products T M and M T with the translation matrix T. */
  lemma TranslatedIsProduct(m: seq<real>, v: Point, i: int, j: int)
    requires IsMatrix(m) && 0 <= i < 4 && 0 <= j < 4
    ensures PreTranslatedAt(m, v, i, j) == MultAt(Translation(v), m, i, j)
    ensures PostTranslatedAt(m, v, i, j) == MultAt(m, Translation(v), i, j)
  {
    // With the row and the column fixed, every entry of the sum is known.
    if i == 0 {} else if i == 1 {} else if i == 2 {} else {}
    if j == 0 {} else if j == 1 {} else if j == 2 {} else {}
  }

  /** The scale updates are the products S M and M S with the scaling
      matrix S. */
  lemma ScaledIsProduct(m: seq<real>, v: Point, i: int, j: int)
    requires IsMatrix(m) && 0 <= i < 4 && 0 <= j < 4
    ensures PreScaledAt(m, v, i, j) == MultAt(Scaling(v), m, i, j)
    ensures PostScaledAt(m, v, i, j) == MultAt(m, Scaling(v), i, j)
  {
    // With the row and the column fixed, every entry of the sum is known.
    if i == 0 {} else if i == 1 {} else if i == 2 {} else {}
    if j == 0 {} else if j == 1 {} else if j == 2 {} else {}
  }

  /** Translating by the zero vector and scaling by (1, 1, 1) change no
      entry. */
  lemma NeutralUpdates(m: seq<real>, i: int, j: int)
    requires IsMatrix(m) && 0 <= i < 4 && 0 <= j < 4
    ensures PreTranslatedAt(m, Origin, i, j) == At(m, i, j)
    ensures PostTranslatedAt(m, Origin, i, j) == At(m, i, j)
    ensures PreScaledAt(m, Point(1.0, 1.0, 1.0), i, j) == At(m, i, j)
    ensures PostScaledAt(m, Point(1.0, 1.0, 1.0), i, j) == At(m, i, j)
  {
  }

  /** Row 3 of `preMultTranslate` after the first `n` components. */
  function PreTranslatedPartial(m: seq<real>, v: Point, n: int, j: int): real
    requires IsMatrix(m) && 0 <= n <= 3 && 0 <= j < 4
  {
    if n == 0 then At(m, 3, j) else PreTranslatedPartial(m, v, n - 1, j) + Coord(v, n - 1) * At(m, n - 1, j)
  }

  /** After all three components, row 3 is the one `preMultTranslate`
      promises. */
  lemma PreTranslatedFull(m: seq<real>, v: Point, j: int)
    requires IsMatrix(m) && 0 <= j < 4
    ensures PreTranslatedPartial(m, v, 3, j) == PreTranslatedAt(m, v, 3, j)
  {
    assert PreTranslatedPartial(m, v, 1, j) == At(m, 3, j) + v.x * At(m, 0, j);
    assert PreTranslatedPartial(m, v, 2, j) == At(m, 3, j) + v.x * At(m, 0, j) + v.y * At(m, 1, j);
  }

  /** `m` with column `c` plus `tmp` times column 3. */
  function ColumnAdded(m: seq<real>, c: int, tmp: real): seq<real>
    requires IsMatrix(m) && 0 <= c < 3
  {
    m[c := m[c] + tmp * m[3]][4 + c := m[4 + c] + tmp * m[7]][8 + c := m[8 + c] + tmp * m[11]][12 + c := m[12 + c] + tmp * m[15]]
  }

  /** Proof step, not a property: unfolds `ColumnAdded` into the four
      updates `AddToColumn` makes, so that the method's last state can be
      matched against it. */
  lemma UnfoldColumnAdded(m: seq<real>, c: int, tmp: real)
    requires IsMatrix(m) && 0 <= c < 3
    ensures ColumnAdded(m, c, tmp) == m[c := m[c] + tmp * m[3]][4 + c := m[4 + c] + tmp * m[7]][8 + c := m[8 + c] + tmp * m[11]][12 + c := m[12 + c] + tmp * m[15]]
  {
  }

  /** Entry by entry: only column `c` changes, by `tmp` times column 3. */
  lemma ColumnAddedAt(m: seq<real>, c: int, tmp: real, r: int, j: int)
    requires IsMatrix(m) && 0 <= c < 3 && 0 <= r < 4 && 0 <= j < 4
    ensures IsMatrix(ColumnAdded(m, c, tmp))
    ensures At(ColumnAdded(m, c, tmp), r, j) == if j == c then At(m, r, j) + tmp * At(m, r, 3) else At(m, r, j)
  {
  }

  /** The first `n` columns of `e` are those of `postMultTranslate(v)`
      on `m`; the others are still `m`'s. */
  ghost predicate PostTranslatedUpTo(m: seq<real>, v: Point, n: int, e: seq<real>)
    requires IsMatrix(m)
  {
    IsMatrix(e) &&
    forall r, c :: 0 <= r < 4 && 0 <= c < 4 ==>
      At(e, r, c) == if c < n then PostTranslatedAt(m, v, r, c) else At(m, r, c)
  }

  /** One round of `postMultTranslate`'s loop, skipped for a zero
      component, extends the translated columns by one. */
  lemma PostTranslatedStep(m: seq<real>, v: Point, n: int, e: seq<real>)
    requires IsMatrix(m) && 0 <= n < 3 && PostTranslatedUpTo(m, v, n, e)
    ensures PostTranslatedUpTo(m, v, n + 1, if Coord(v, n) == 0.0 then e else ColumnAdded(e, n, Coord(v, n)))
  {
    forall r, c | 0 <= r < 4 && 0 <= c < 4 {
      ColumnAddedAt(e, n, Coord(v, n), r, c);
    }
  }

  class Matrix {
    const mat: array<real>

    predicate Valid() { mat.Length == 16 }

    /** The sixteen values, row by row. */
    function Entries(): (m: seq<real>)
      reads mat
      requires Valid()
      ensures IsMatrix(m)
    {
      mat[..]
    }

    /** A matrix holding `values` in row-major order. */
    constructor (values: seq<real>)
      requires IsMatrix(values)
      ensures Valid() && Entries() == values && fresh(mat)
    {
      mat := new real[16](i requires 0 <= i < 16 => values[i]);
    }

    /** `set(ptr)`: exactly sixteen values are copied, in order. */
    method Set(ptr: seq<real>)
      requires Valid() && |ptr| >= 16
      modifies mat
      ensures Entries() == ptr[..16]
    {
      var i := 0;
      while i < 16
        invariant 0 <= i <= 16
        invariant mat[..i] == ptr[..i]
      {
        mat[i] := ptr[i];
        assert mat[..i + 1] == mat[..i] + [mat[i]];
        i := i + 1;
      }
      assert mat[..] == mat[..16];
    }

    /** `operator=`: assigning a matrix to itself changes nothing;
        otherwise its values are copied. */
    method Assign(rhs: Matrix)
      requires Valid() && rhs.Valid()
      modifies mat
      ensures Entries() == old(rhs.Entries())
    {
      if rhs == this {
        return;
      }
      Set(rhs.mat[..]);
    }

    /** `preMultTranslate(v)`: for each non-zero component, row 3 gains
        that component times the matching row. That is T M. */
    method PreMultTranslate(v: Point)
      requires Valid()
      modifies mat
      ensures forall i, j :: 0 <= i < 4 && 0 <= j < 4 ==> At(Entries(), i, j) == PreTranslatedAt(old(Entries()), v, i, j)
    {
      ghost var m := mat[..];
      var i := 0;
      while i < 3
        invariant 0 <= i <= 3
        invariant forall k :: 0 <= k < 12 ==> mat[k] == m[k]
        invariant forall j :: 0 <= j < 4 ==> mat[12 + j] == PreTranslatedPartial(m, v, i, j)
      {
        var tmp := Coord(v, i);
        if tmp != 0.0 {
          forall k | 12 <= k < 16 {
            mat[k] := mat[k] + tmp * mat[4 * i + k - 12];
          }
        }
        i := i + 1;
      }
      forall j | 0 <= j < 4
        ensures mat[12 + j] == PreTranslatedAt(m, v, 3, j)
      {
        PreTranslatedFull(m, v, j);
      }
    }

    /** `postMultTranslate(v)`: for each non-zero component, the matching
        column gains that component times column 3. That is M T. */
    method PostMultTranslate(v: Point)
      requires Valid()
      modifies mat
      ensures forall i, j :: 0 <= i < 4 && 0 <= j < 4 ==> At(Entries(), i, j) == PostTranslatedAt(old(Entries()), v, i, j)
    {
      ghost var m := mat[..];
      var i := 0;
      while i < 3
        invariant 0 <= i <= 3
        invariant PostTranslatedUpTo(m, v, i, Entries())
      {
        var tmp := Coord(v, i);
        PostTranslatedStep(m, v, i, Entries());
        if tmp != 0.0 {
          AddToColumn(i, tmp);
        }
        i := i + 1;
      }
    }

    /** `postMultTranslate(x, y, z)`: the same three column updates,
        written out one component at a time. */
    method PostMultTranslateComponents(x: real, y: real, z: real)
      requires Valid()
      modifies mat
      ensures forall i, j :: 0 <= i < 4 && 0 <= j < 4 ==> At(Entries(), i, j) == PostTranslatedAt(old(Entries()), Point(x, y, z), i, j)
    {
      ghost var m := mat[..];
      ghost var v := Point(x, y, z);
      PostTranslatedStep(m, v, 0, Entries());
      if x != 0.0 {
        AddToColumn(0, x);
      }
      PostTranslatedStep(m, v, 1, Entries());
      if y != 0.0 {
        AddToColumn(1, y);
      }
      PostTranslatedStep(m, v, 2, Entries());
      if z != 0.0 {
        AddToColumn(2, z);
      }
    }

    /** One step of `postMultTranslate`: column `c` gains `tmp` times
        column 3. */
    method AddToColumn(c: int, tmp: real)
      requires Valid() && 0 <= c < 3
      modifies mat
      ensures Entries() == ColumnAdded(old(Entries()), c, tmp)
    {
      ghost var m := mat[..];
      mat[c] := mat[c] + tmp * mat[3];
      ghost var m1 := m[c := m[c] + tmp * m[3]];
      assert mat[..] == m1;
      mat[4 + c] := mat[4 + c] + tmp * mat[7];
      ghost var m2 := m1[4 + c := m[4 + c] + tmp * m[7]];
      assert mat[..] == m2;
      mat[8 + c] := mat[8 + c] + tmp * mat[11];
      ghost var m3 := m2[8 + c := m[8 + c] + tmp * m[11]];
      assert mat[..] == m3;
      mat[12 + c] := mat[12 + c] + tmp * mat[15];
      assert mat[..] == m3[12 + c := m[12 + c] + tmp * m[15]];
      UnfoldColumnAdded(m, c, tmp);
    }

    /** `preMultScale(v)`: rows 0 to 2 scaled by v's components. That is
        S M. */
    method PreMultScale(v: Point)
      requires Valid()
      modifies mat
      ensures forall i, j :: 0 <= i < 4 && 0 <= j < 4 ==> At(Entries(), i, j) == PreScaledAt(old(Entries()), v, i, j)
    {
      forall k | 0 <= k < 12 {
        mat[k] := mat[k] * Coord(v, k / 4);
      }
    }

    /** `postMultScale(v)` and `postMultScale(x, y, z)`: columns 0 to 2
        scaled by v's components. That is M S. */
    method PostMultScale(v: Point)
      requires Valid()
      modifies mat
      ensures forall i, j :: 0 <= i < 4 && 0 <= j < 4 ==> At(Entries(), i, j) == PostScaledAt(old(Entries()), v, i, j)
    {
      forall k | 0 <= k < 16 && k % 4 < 3 {
        mat[k] := mat[k] * Coord(v, k % 4);
      }
    }
  }
}
