/** What one Jacobi rotation does to a symmetric matrix, over exact arithmetic.

    Matrices are total functions of two indices; only indices below k matter. */
module JacobiAlgebra {
  import opened Sums

  type Matrix = (int, int) -> real

  /** `sqrt` is a non-negative square root of every non-negative number. */
  ghost predicate IsRoot(sqrt: real -> real) {
    forall x: real :: x >= 0.0 ==> sqrt(x) >= 0.0 && sqrt(x) * sqrt(x) == x
  }

  function Delta(i: int, j: int): real {
    if i == j then 1.0 else 0.0
  }

  ghost predicate Symmetric(a: Matrix, k: nat) {
    forall i, j | 0 <= i < k && 0 <= j < k :: a(i, j) == a(j, i)
  }

  /** Inner product of columns i and j. */
  function ColDot(v: Matrix, k: nat, i: int, j: int): real {
    Sum(k, r => v(r, i) * v(r, j))
  }

  /** Inner product of rows i and j. */
  function RowDot(v: Matrix, k: nat, i: int, j: int): real {
    Sum(k, r => v(i, r) * v(j, r))
  }

  /** Entry (r, j) of the product a * v. */
  function Product(a: Matrix, v: Matrix, k: nat, r: int, j: int): real {
    Sum(k, i => a(r, i) * v(i, j))
  }

  ghost predicate OrthonormalColumns(v: Matrix, k: nat) {
    forall i, j | 0 <= i < k && 0 <= j < k :: ColDot(v, k, i, j) == Delta(i, j)
  }

  ghost predicate OrthonormalRows(v: Matrix, k: nat) {
    forall i, j | 0 <= i < k && 0 <= j < k :: RowDot(v, k, i, j) == Delta(i, j)
  }

  /** aIn * v == v * a */
  ghost predicate Similar(aIn: Matrix, v: Matrix, a: Matrix, k: nat) {
    forall r, j | 0 <= r < k && 0 <= j < k :: Product(aIn, v, k, r, j) == Product(v, a, k, r, j)
  }

  function Trace(a: Matrix, k: nat): real {
    Sum(k, i => a(i, i))
  }

  /** The off-diagonal measure of the sweep loop: squares strictly above the diagonal. */
  function Upper(a: Matrix, k: nat): real {
    Sum2(k, k, (p, q) => if p < q then a(p, q) * a(p, q) else 0.0)
  }

  /** Component r of aIn * v_m - lambda * v_m. */
  function Defect(aIn: Matrix, v: Matrix, k: nat, m: int, lambda: real, r: int): real {
    Product(aIn, v, k, r, m) - lambda * v(r, m)
  }

  /** Squared norm of aIn * v_m - lambda * v_m. */
  function Residual(aIn: Matrix, v: Matrix, k: nat, m: int, lambda: real): real {
    SumSquares(k, r => Defect(aIn, v, k, m, lambda, r))
  }

  // ----- plane rotations

  /** A linear map of the plane, one function per output coordinate. */
  datatype Rotation = Rotation(lo: (real, real) -> real, hi: (real, real) -> real)

  function Givens(c: real, s: real): Rotation {
    Rotation((x: real, y: real) => c * x - s * y, (x: real, y: real) => s * x + c * y)
  }

  // The laws of a rotation, stated at points so that a proof picks the instances it uses.

  ghost predicate Additive(f: (real, real) -> real, x: real, y: real, u: real, w: real) {
    f(x + u, y + w) == f(x, y) + f(u, w)
  }

  ghost predicate Homogeneous(f: (real, real) -> real, x: real, y: real, z: real) {
    f(x, y) * z == f(x * z, y * z)
  }

  /** Inner products of pairs are kept. */
  ghost predicate Isometric(rot: Rotation, x: real, y: real, u: real, w: real) {
    rot.lo(x, y) * rot.lo(u, w) + rot.hi(x, y) * rot.hi(u, w) == x * u + y * w
  }

  /** Rotating a symmetric 2x2 block from both sides keeps it symmetric and keeps its trace. */
  ghost predicate KeepsBlock(rot: Rotation, x: real, y: real, z: real) {
    && rot.lo(rot.hi(x, y), rot.hi(y, z)) == rot.hi(rot.lo(x, y), rot.lo(y, z))
    && rot.lo(rot.lo(x, y), rot.lo(y, z)) + rot.hi(rot.hi(x, y), rot.hi(y, z)) == x + z
  }

  ghost predicate Linear(f: (real, real) -> real) {
    && f(0.0, 0.0) == 0.0
    && (forall x, y, u, w :: Additive(f, x, y, u, w))
    && (forall x, y, z :: Homogeneous(f, x, y, z))
  }

  /** The images of the unit vectors are orthonormal. */
  ghost predicate UnitImages(rot: Rotation) {
    && rot.lo(rot.lo(1.0, 0.0), rot.lo(0.0, 1.0)) == 1.0
    && rot.lo(rot.hi(1.0, 0.0), rot.hi(0.0, 1.0)) == 0.0
    && rot.hi(rot.lo(1.0, 0.0), rot.lo(0.0, 1.0)) == 0.0
    && rot.hi(rot.hi(1.0, 0.0), rot.hi(0.0, 1.0)) == 1.0
  }

  ghost predicate Rigid(rot: Rotation) {
    && Linear(rot.lo) && Linear(rot.hi) && UnitImages(rot)
    && (forall x, y, u, w :: Isometric(rot, x, y, u, w))
    && (forall x, y, z :: KeepsBlock(rot, x, y, z))
  }

  lemma IsometricPair(c: real, s: real, x: real, y: real, u: real, w: real,
                      x': real, y': real, u': real, w': real)
    requires c * c + s * s == 1.0
    requires x' == c * x - s * y && y' == s * x + c * y && u' == c * u - s * w && w' == s * u + c * w
    ensures x' * u' + y' * w' == x * u + y * w
  {
    assert x' * u' == c * c * (x * u) - c * s * (x * w) - s * c * (y * u) + s * s * (y * w);
    assert y' * w' == s * s * (x * u) + s * c * (x * w) + c * s * (y * u) + c * c * (y * w);
    assert (c * c + s * s) * (x * u) + (c * c + s * s) * (y * w) == x * u + y * w;
  }

  lemma BlockPair(c: real, s: real, x: real, y: real, z: real, xy: real, xy': real, yz: real, yz': real)
    requires c * c + s * s == 1.0
    requires xy == c * x - s * y && xy' == s * x + c * y && yz == c * y - s * z && yz' == s * y + c * z
    ensures c * xy' - s * yz' == s * xy + c * yz
    ensures (c * xy - s * yz) + (s * xy' + c * yz') == x + z
  {
    assert (c * xy - s * yz) + (s * xy' + c * yz') == (c * c + s * s) * x + (c * c + s * s) * z;
  }

  lemma GivensLinear(c: real, s: real)
    ensures Linear(Givens(c, s).lo) && Linear(Givens(c, s).hi)
  {
    var rot := Givens(c, s);
    forall x, y, u, w ensures Additive(rot.lo, x, y, u, w) && Additive(rot.hi, x, y, u, w) {
      assert c * (x + u) - s * (y + w) == (c * x - s * y) + (c * u - s * w);
      assert s * (x + u) + c * (y + w) == (s * x + c * y) + (s * u + c * w);
    }
    forall x, y, z ensures Homogeneous(rot.lo, x, y, z) && Homogeneous(rot.hi, x, y, z) {
      assert (c * x - s * y) * z == c * (x * z) - s * (y * z);
      assert (s * x + c * y) * z == s * (x * z) + c * (y * z);
    }
  }

  lemma GivensIsRigid(c: real, s: real)
    requires c * c + s * s == 1.0
    ensures Rigid(Givens(c, s))
  {
    var rot := Givens(c, s);
    GivensLinear(c, s);
    forall x, y, u, w ensures Isometric(rot, x, y, u, w) { GivensIsometric(c, s, x, y, u, w); }
    forall x, y, z ensures KeepsBlock(rot, x, y, z) { GivensKeepsBlock(c, s, x, y, z); }
    GivensUnitImages(c, s);
  }

  lemma GivensIsometric(c: real, s: real, x: real, y: real, u: real, w: real)
    requires c * c + s * s == 1.0
    ensures Isometric(Givens(c, s), x, y, u, w)
  {
    var rot := Givens(c, s);
    IsometricPair(c, s, x, y, u, w, rot.lo(x, y), rot.hi(x, y), rot.lo(u, w), rot.hi(u, w));
  }

  lemma GivensKeepsBlock(c: real, s: real, x: real, y: real, z: real)
    requires c * c + s * s == 1.0
    ensures KeepsBlock(Givens(c, s), x, y, z)
  {
    var rot := Givens(c, s);
    var (xy, xy', yz, yz') := (c * x - s * y, s * x + c * y, c * y - s * z, s * y + c * z);
    BlockPair(c, s, x, y, z, xy, xy', yz, yz');
    GivensAt(c, s, x, y, xy, xy');
    GivensAt(c, s, y, z, yz, yz');
    GivensAt(c, s, xy, yz, c * xy - s * yz, s * xy + c * yz);
    GivensAt(c, s, xy', yz', c * xy' - s * yz', s * xy' + c * yz');
  }

  lemma GivensUnitImages(c: real, s: real)
    requires c * c + s * s == 1.0
    ensures UnitImages(Givens(c, s))
  {
    GivensAt(c, s, 1.0, 0.0, c, s);
    GivensAt(c, s, 0.0, 1.0, -s, c);
    GivensAt(c, s, c, -s, 1.0, 0.0);
    GivensAt(c, s, s, c, 0.0, 1.0);
  }

  lemma GivensAt(c: real, s: real, x: real, y: real, u: real, w: real)
    requires u == c * x - s * y && w == s * x + c * y
    ensures Givens(c, s).lo(x, y) == u && Givens(c, s).hi(x, y) == w
  {
  }

  /** b is a with columns p and q rotated. */
  ghost predicate ColumnsRotated(a: Matrix, b: Matrix, k: nat, p: int, q: int, rot: Rotation) {
    0 <= p < q < k &&
    forall i, j | 0 <= i < k && 0 <= j < k ::
      b(i, j) == if j == p then rot.lo(a(i, p), a(i, q))
                 else if j == q then rot.hi(a(i, p), a(i, q))
                 else a(i, j)
  }

  /** b is a with rows p and q rotated. */
  ghost predicate RowsRotated(a: Matrix, b: Matrix, k: nat, p: int, q: int, rot: Rotation) {
    0 <= p < q < k &&
    forall i, j | 0 <= i < k && 0 <= j < k ::
      b(i, j) == if i == p then rot.lo(a(p, j), a(q, j))
                 else if i == q then rot.hi(a(p, j), a(q, j))
                 else a(i, j)
  }

  lemma SymmetryKept(a: Matrix, b: Matrix, d: Matrix, k: nat, p: int, q: int, rot: Rotation)
    requires Rigid(rot) && Symmetric(a, k)
    requires ColumnsRotated(a, b, k, p, q, rot) && RowsRotated(b, d, k, p, q, rot)
    ensures Symmetric(d, k)
    ensures Trace(d, k) == Trace(a, k)
  {
    assert KeepsBlock(rot, a(p, p), a(p, q), a(q, q));
    SumTwoChanged(k, p, q, i => a(i, i), i => d(i, i));
  }

  lemma RowsKept(v: Matrix, w: Matrix, k: nat, p: int, q: int, rot: Rotation)
    requires Rigid(rot) && ColumnsRotated(v, w, k, p, q, rot)
    ensures forall i, j | 0 <= i < k && 0 <= j < k :: RowDot(w, k, i, j) == RowDot(v, k, i, j)
  {
    forall i, j | 0 <= i < k && 0 <= j < k ensures RowDot(w, k, i, j) == RowDot(v, k, i, j) {
      assert Isometric(rot, v(i, p), v(i, q), v(j, p), v(j, q));
      SumTwoChanged(k, p, q, r => v(i, r) * v(j, r), r => w(i, r) * w(j, r));
    }
  }

  lemma {:induction false} SumRotated(k: nat, f: (real, real) -> real, x: int -> real, y: int -> real)
    requires Linear(f)
    ensures Sum(k, r => f(x(r), y(r))) == f(Sum(k, x), Sum(k, y))
  {
    if k > 0 {
      SumRotated(k - 1, f, x, y);
      assert Additive(f, Sum(k - 1, x), Sum(k - 1, y), x(k - 1), y(k - 1));
    }
  }

  /** The inner product of column j with an arbitrary vector. */
  function Against(v: Matrix, k: nat, j: int, z: int -> real): real {
    Sum(k, r => v(r, j) * z(r))
  }

  /** A rotated column against any vector is the rotation of the two inner products. */
  lemma RotatedAgainst(v: Matrix, w: Matrix, k: nat, p: int, q: int, rot: Rotation, j: int, z: int -> real)
    requires Rigid(rot) && ColumnsRotated(v, w, k, p, q, rot) && 0 <= j < k
    ensures Against(w, k, j, z) ==
      if j == p then rot.lo(Against(v, k, p, z), Against(v, k, q, z))
      else if j == q then rot.hi(Against(v, k, p, z), Against(v, k, q, z))
      else Against(v, k, j, z)
  {
    var (x, y) := ((r: int) => v(r, p) * z(r), (r: int) => v(r, q) * z(r));
    if j == p {
      forall r | 0 <= r < k ensures w(r, p) * z(r) == rot.lo(x(r), y(r)) {
        assert Homogeneous(rot.lo, v(r, p), v(r, q), z(r));
        assert w(r, p) == rot.lo(v(r, p), v(r, q));
        assert x(r) == v(r, p) * z(r) && y(r) == v(r, q) * z(r);
      }
      SumExt(k, r => w(r, p) * z(r), r => rot.lo(x(r), y(r)));
      SumRotated(k, rot.lo, x, y);
    } else if j == q {
      forall r | 0 <= r < k ensures w(r, q) * z(r) == rot.hi(x(r), y(r)) {
        assert Homogeneous(rot.hi, v(r, p), v(r, q), z(r));
        assert w(r, q) == rot.hi(v(r, p), v(r, q));
        assert x(r) == v(r, p) * z(r) && y(r) == v(r, q) * z(r);
      }
      SumExt(k, r => w(r, q) * z(r), r => rot.hi(x(r), y(r)));
      SumRotated(k, rot.hi, x, y);
    } else {
      SumExt(k, r => w(r, j) * z(r), r => v(r, j) * z(r));
    }
  }

  lemma AgainstColumn(v: Matrix, w: Matrix, k: nat, i: int, j: int)
    ensures Against(v, k, i, r => w(r, j)) == Against(w, k, j, r => v(r, i))
  {
    var (f, g) := ((r: int) => w(r, j), (r: int) => v(r, i));
    SumExt(k, r => v(r, i) * f(r), r => w(r, j) * g(r));
  }

  lemma ColDotAgainst(v: Matrix, w: Matrix, k: nat, i: int, j: int)
    ensures Against(w, k, i, r => w(r, j)) == ColDot(w, k, i, j)
  {
    var f := (r: int) => w(r, j);
    SumExt(k, r => w(r, i) * f(r), r => w(r, i) * w(r, j));
  }

  lemma ColumnsKept(v: Matrix, w: Matrix, k: nat, p: int, q: int, rot: Rotation)
    requires Rigid(rot) && ColumnsRotated(v, w, k, p, q, rot) && OrthonormalColumns(v, k)
    ensures OrthonormalColumns(w, k)
  {
    forall i, j | 0 <= i < k && 0 <= j < k ensures ColDot(w, k, i, j) == Delta(i, j) {
      ColDotAgainst(v, w, k, i, j);
      RotatedAgainst(v, w, k, p, q, rot, i, r => w(r, j));
      MixedDot(v, w, k, p, q, rot, p, j);
      MixedDot(v, w, k, p, q, rot, q, j);
      MixedDot(v, w, k, p, q, rot, i, j);
    }
  }

  /** An old column against a new one. */
  lemma MixedDot(v: Matrix, w: Matrix, k: nat, p: int, q: int, rot: Rotation, l: int, j: int)
    requires Rigid(rot) && ColumnsRotated(v, w, k, p, q, rot) && OrthonormalColumns(v, k)
    requires 0 <= l < k && 0 <= j < k
    ensures Against(v, k, l, r => w(r, j)) ==
      if j == p then rot.lo(Delta(p, l), Delta(q, l))
      else if j == q then rot.hi(Delta(p, l), Delta(q, l))
      else Delta(j, l)
  {
    AgainstColumn(v, w, k, l, j);
    RotatedAgainst(v, w, k, p, q, rot, j, r => v(r, l));
    ColDotAgainst(v, v, k, p, l);
    ColDotAgainst(v, v, k, q, l);
    ColDotAgainst(v, v, k, j, l);
  }

  lemma ProductAgainst(x: Matrix, y: Matrix, k: nat, r: int, j: int)
    ensures Product(x, y, k, r, j) == Against(y, k, j, i => x(r, i))
  {
    var z := (i: int) => x(r, i);
    SumExt(k, i => x(r, i) * y(i, j), i => y(i, j) * z(i));
  }

  lemma {:induction false} ProductRotated(x: Matrix, y: Matrix, w: Matrix, k: nat, p: int, q: int, rot: Rotation,
                                          r: int, j: int)
    requires Rigid(rot) && ColumnsRotated(y, w, k, p, q, rot) && 0 <= j < k
    ensures Product(x, w, k, r, j) ==
      if j == p then rot.lo(Product(x, y, k, r, p), Product(x, y, k, r, q))
      else if j == q then rot.hi(Product(x, y, k, r, p), Product(x, y, k, r, q))
      else Product(x, y, k, r, j)
  {
    RotatedAgainst(y, w, k, p, q, rot, j, i => x(r, i));
    ProductAgainst(x, w, k, r, j);
    ProductAgainst(x, y, k, r, j);
    ProductAgainst(x, y, k, r, p);
    ProductAgainst(x, y, k, r, q);
  }

  /** Rotating the inner index on both sides leaves a product alone. */
  lemma InnerRotated(v: Matrix, w: Matrix, b: Matrix, d: Matrix, k: nat, p: int, q: int, rot: Rotation, r: int, j: int)
    requires Rigid(rot) && ColumnsRotated(v, w, k, p, q, rot) && RowsRotated(b, d, k, p, q, rot)
    requires 0 <= r < k && 0 <= j < k
    ensures Product(w, d, k, r, j) == Product(v, b, k, r, j)
  {
    assert Isometric(rot, v(r, p), v(r, q), b(p, j), b(q, j));
    SumTwoChanged(k, p, q, i => v(r, i) * b(i, j), i => w(r, i) * d(i, j));
  }

  /** aIn * v == v * a survives the rotation of a from both sides and of v from the right. */
  lemma SimilarityKept(aIn: Matrix, v: Matrix, w: Matrix, a: Matrix, b: Matrix, d: Matrix,
                       k: nat, p: int, q: int, rot: Rotation)
    requires Rigid(rot) && Similar(aIn, v, a, k) && ColumnsRotated(v, w, k, p, q, rot)
    requires ColumnsRotated(a, b, k, p, q, rot) && RowsRotated(b, d, k, p, q, rot)
    ensures Similar(aIn, w, d, k)
  {
    forall r, j | 0 <= r < k && 0 <= j < k ensures Product(aIn, w, k, r, j) == Product(w, d, k, r, j) {
      ProductRotated(aIn, v, w, k, p, q, rot, r, j);
      ProductRotated(v, a, b, k, p, q, rot, r, j);
      InnerRotated(v, w, b, d, k, p, q, rot, r, j);
    }
  }

  // ----- the off-diagonal measure

  /** The sum of all squares. */
  function Frobenius(a: Matrix, k: nat): real {
    Sum(k, i => RowDot(a, k, i, i))
  }

  function DiagonalSquares(a: Matrix, k: nat): real {
    Sum(k, i => a(i, i) * a(i, i))
  }

  lemma FrobeniusAsTable(a: Matrix, k: nat)
    ensures Frobenius(a, k) == Sum2(k, k, (i, j) => a(i, j) * a(i, j))
  {
    var f := (i: int, j: int) => a(i, j) * a(i, j);
    forall i | 0 <= i < k ensures RowDot(a, k, i, i) == Row(k, f, i) {
      SumExt(k, j => a(i, j) * a(i, j), j => f(i, j));
    }
    SumExt(k, i => RowDot(a, k, i, i), i => Row(k, f, i));
  }

  lemma FrobeniusKept(a: Matrix, b: Matrix, k: nat, p: int, q: int, rot: Rotation)
    requires Rigid(rot)
    requires ColumnsRotated(a, b, k, p, q, rot) || RowsRotated(a, b, k, p, q, rot)
    ensures Frobenius(b, k) == Frobenius(a, k)
    decreases !ColumnsRotated(a, b, k, p, q, rot)
  {
    if ColumnsRotated(a, b, k, p, q, rot) {
      RowsKept(a, b, k, p, q, rot);
      SumExt(k, i => RowDot(b, k, i, i), i => RowDot(a, k, i, i));
    } else {
      var (at, bt) := ((i: int, j: int) => a(j, i), (i: int, j: int) => b(j, i));
      Transposed(a, at, k);
      Transposed(b, bt, k);
      assert ColumnsRotated(at, bt, k, p, q, rot);
      FrobeniusKept(at, bt, k, p, q, rot);
    }
  }

  lemma Transposed(a: Matrix, b: Matrix, k: nat)
    requires forall i, j | 0 <= i < k && 0 <= j < k :: b(i, j) == a(j, i)
    ensures Frobenius(b, k) == Frobenius(a, k)
  {
    FrobeniusAsTable(a, k);
    FrobeniusAsTable(b, k);
    var f := (i: int, j: int) => a(i, j) * a(i, j);
    SumSwap(k, k, f);
    Sum2Ext(k, k, (i, j) => b(i, j) * b(i, j), (j, i) => f(i, j));
  }

  lemma UpperIsHalf(a: Matrix, k: nat)
    requires Symmetric(a, k)
    ensures 2.0 * Upper(a, k) + DiagonalSquares(a, k) == Frobenius(a, k)
  {
    var all := (i: int, j: int) => a(i, j) * a(i, j);
    var above := (i: int, j: int) => if i < j then a(i, j) * a(i, j) else 0.0;
    var below := (i: int, j: int) => if j < i then a(i, j) * a(i, j) else 0.0;
    var diag := (i: int, j: int) => if i == j then a(i, j) * a(i, j) else 0.0;
    FrobeniusAsTable(a, k);
    SymmetricTable(k, all, above, below, diag);
    DiagonalTable(a, diag, k);
  }

  /** A symmetric table is twice what lies above its diagonal, and the diagonal. */
  lemma SymmetricTable(k: nat, all: Matrix, above: Matrix, below: Matrix, diag: Matrix)
    requires forall i, j | 0 <= i < k && 0 <= j < k :: all(i, j) == above(i, j) + below(i, j) + diag(i, j)
    requires forall i, j | 0 <= i < k && 0 <= j < k :: above(i, j) == below(j, i)
    ensures Sum2(k, k, all) == 2.0 * Sum2(k, k, above) + Sum2(k, k, diag)
  {
    var off := (i: int, j: int) => above(i, j) + below(i, j);
    Sum2Add(k, k, above, below);
    Sum2Add(k, k, off, diag);
    Sum2Ext(k, k, all, (i, j) => off(i, j) + diag(i, j));
    SumSwap(k, k, below);
    Sum2Ext(k, k, above, (j, i) => below(i, j));
  }

  lemma DiagonalTable(a: Matrix, diag: Matrix, k: nat)
    requires forall i, j | 0 <= i < k && 0 <= j < k :: diag(i, j) == if i == j then a(i, j) * a(i, j) else 0.0
    ensures Sum2(k, k, diag) == DiagonalSquares(a, k)
  {
    forall i | 0 <= i < k ensures Row(k, diag, i) == a(i, i) * a(i, i) {
      SumSingle(k, i, j => diag(i, j));
    }
    SumExt(k, i => Row(k, diag, i), i => a(i, i) * a(i, i));
  }

  /** When the rotation zeroes entry (p, q), the measure drops by exactly the square it removed. */
  lemma UpperDrops(a: Matrix, b: Matrix, d: Matrix, k: nat, p: int, q: int, rot: Rotation)
    requires Rigid(rot) && Symmetric(a, k)
    requires ColumnsRotated(a, b, k, p, q, rot) && RowsRotated(b, d, k, p, q, rot)
    requires d(p, q) == 0.0
    ensures Upper(d, k) == Upper(a, k) - a(p, q) * a(p, q)
  {
    SymmetryKept(a, b, d, k, p, q, rot);
    FrobeniusKept(a, b, k, p, q, rot);
    FrobeniusKept(b, d, k, p, q, rot);
    UpperIsHalf(a, k);
    UpperIsHalf(d, k);
    DiagonalGains(a, b, d, k, p, q, rot);
  }

  /** What leaves the entries off the diagonal arrives on it. */
  lemma DiagonalGains(a: Matrix, b: Matrix, d: Matrix, k: nat, p: int, q: int, rot: Rotation)
    requires Rigid(rot) && Symmetric(a, k) && Symmetric(d, k)
    requires ColumnsRotated(a, b, k, p, q, rot) && RowsRotated(b, d, k, p, q, rot)
    requires d(p, q) == 0.0
    ensures DiagonalSquares(d, k) == DiagonalSquares(a, k) + 2.0 * (a(p, q) * a(p, q))
  {
    BlockSquares(a, b, d, k, p, q, rot);
    var (f, g) := ((i: int) => a(i, i) * a(i, i), (i: int) => d(i, i) * d(i, i));
    forall i | 0 <= i < k && i != p && i != q ensures f(i) == g(i) {
      assert d(i, i) == b(i, i) == a(i, i);
    }
    SumTwoChanged(k, p, q, f, g);
  }

  lemma BlockSquares(a: Matrix, b: Matrix, d: Matrix, k: nat, p: int, q: int, rot: Rotation)
    requires Rigid(rot) && Symmetric(a, k)
    requires ColumnsRotated(a, b, k, p, q, rot) && RowsRotated(b, d, k, p, q, rot)
    requires d(p, q) == 0.0 && d(q, p) == 0.0
    ensures d(p, p) * d(p, p) + d(q, q) * d(q, q) == a(p, p) * a(p, p) + a(q, q) * a(q, q) + 2.0 * (a(p, q) * a(p, q))
  {
    assert Isometric(rot, a(p, p), a(p, q), a(p, p), a(p, q));
    assert Isometric(rot, a(q, p), a(q, q), a(q, p), a(q, q));
    assert Isometric(rot, b(p, p), b(q, p), b(p, p), b(q, p));
    assert Isometric(rot, b(p, q), b(q, q), b(p, q), b(q, q));
  }

  // ----- the angle

  /** The code's tangent solves t^2 + 2 theta t = 1. */
  lemma TangentSolves(theta: real, w: real, t: real)
    requires w >= 0.0 && w * w == theta * theta + 1.0
    requires Abs(theta) + w != 0.0
    requires t == (if theta < 0.0 then -1.0 else 1.0) / (Abs(theta) + w)
    ensures t * t + 2.0 * theta * t == 1.0
  {
    var y := Abs(theta);
    assert y * y == theta * theta;
    assert (w - y) * (w + y) == 1.0;
    var u := 1.0 / (y + w);
    assert u * (y + w) == 1.0;
    assert u == w - y by {
      assert u * ((w - y) * (w + y)) == (u * (y + w)) * (w - y);
    }
    assert u * u + 2.0 * y * u == 1.0 by {
      assert u * u + 2.0 * y * u == (w - y) * (w - y) + 2.0 * y * (w - y) == w * w - y * y;
    }
    if theta < 0.0 {
      assert t == -u && theta == -y;
    }
  }

  lemma CosineNormal(t: real, h: real, c: real, s: real)
    requires h > 0.0 && h * h == t * t + 1.0 && c == 1.0 / h && s == t * c
    ensures c * c + s * s == 1.0
  {
    assert c * h == 1.0;
    assert c * c + s * s == c * c * (1.0 + t * t) == (c * h) * (c * h);
  }

  /** Of the two tangents that solve it, the code takes the one of size at most one. */
  lemma TangentIsSmall(theta: real, w: real, t: real)
    requires w >= 0.0 && w * w == theta * theta + 1.0
    requires Abs(theta) + w != 0.0
    requires t == (if theta < 0.0 then -1.0 else 1.0) / (Abs(theta) + w)
    ensures -1.0 <= t <= 1.0
  {
    SquareNonNeg(theta);
    if w < 1.0 { ProductPositive(1.0 - w, 1.0 + w, (1.0 - w) * (1.0 + w)); }
    var d := Abs(theta) + w;
    assert d >= 1.0;
    assert t * d == 1.0 || t * d == -1.0;
    if t > 1.0 { ProductPositive(t - 1.0, d, (t - 1.0) * d); }
    if t < -1.0 { ProductPositive(-1.0 - t, d, (-1.0 - t) * d); }
  }

  lemma SineBelowCosine(t: real, h: real, c: real, s: real)
    requires -1.0 <= t <= 1.0 && h >= 0.0 && h * h == t * t + 1.0 && h != 0.0 && c == 1.0 / h && s == t * c
    ensures 0.0 < c && -c <= s <= c
  {
    assert c * h == 1.0;
    if c <= 0.0 { ProductNonNeg(-c, h, -c * h); }
    ProductNonNeg(1.0 - t, c, (1.0 - t) * c);
    ProductNonNeg(1.0 + t, c, (1.0 + t) * c);
  }

  /** With that tangent the rotated entry (p, q) vanishes. */
  lemma EntryVanishes(theta: real, t: real, c: real, s: real, app: real, apq: real, aqq: real)
    requires t * t + 2.0 * theta * t == 1.0 && s == t * c
    requires aqq - app == 2.0 * theta * apq
    ensures c * (s * app + c * apq) - s * (s * apq + c * aqq) == 0.0
  {
    assert c * (s * app + c * apq) - s * (s * apq + c * aqq)
        == c * c * (apq * (1.0 - t * t) - t * (aqq - app));
    assert t * (aqq - app) == (2.0 * theta * t) * apq;
  }

  // ----- eigen-residuals

  /** l is the combination of the columns of v with coefficients e; f holds the scaled columns. */
  ghost predicate Combination(v: Matrix, k: nat, e: int -> real, f: Matrix, l: int -> real) {
    && (forall r, i | 0 <= r < k && 0 <= i < k :: f(r, i) == v(r, i) * e(i))
    && (forall r | 0 <= r < k :: l(r) == Row(k, f, r))
  }

  /** An orthonormal combination has the norm of its coefficients. */
  lemma Parseval(v: Matrix, k: nat, e: int -> real, f: Matrix, l: int -> real)
    requires OrthonormalColumns(v, k) && Combination(v, k, e, f, l)
    ensures SumSquares(k, l) == SumSquares(k, e)
  {
    SumWeightedRows(k, k, l, f);
    SquaresAsRows(k, l, f);
    forall i | 0 <= i < k ensures Weighted(k, l, f, i) == e(i) * e(i) {
      ParsevalTerm(v, k, e, f, l, i);
    }
    SumExt(k, i => Weighted(k, l, f, i), i => e(i) * e(i));
  }

  lemma SquaresAsRows(k: nat, l: int -> real, f: Matrix)
    requires forall r | 0 <= r < k :: l(r) == Row(k, f, r)
    ensures SumSquares(k, l) == Sum(k, r => l(r) * Row(k, f, r))
  {
    forall r | 0 <= r < k ensures l(r) * l(r) == l(r) * Row(k, f, r) { assert l(r) == Row(k, f, r); }
    SumExt(k, r => l(r) * l(r), r => l(r) * Row(k, f, r));
  }

  lemma ParsevalTerm(v: Matrix, k: nat, e: int -> real, f: Matrix, l: int -> real, i: int)
    requires OrthonormalColumns(v, k) && Combination(v, k, e, f, l) && 0 <= i < k
    ensures Weighted(k, l, f, i) == e(i) * e(i)
  {
    Coefficient(v, k, e, f, l, i);
    PullOut(k, e(i), l, f, r => v(r, i), i);
  }

  lemma PullOut(k: nat, c: real, x: int -> real, f: Matrix, u: int -> real, i: int)
    requires forall r | 0 <= r < k :: f(r, i) == u(r) * c
    ensures Weighted(k, x, f, i) == c * Sum(k, r => u(r) * x(r))
  {
    var g := (r: int) => u(r) * x(r);
    SumScale(k, c, g);
    forall r | 0 <= r < k ensures x(r) * f(r, i) == c * g(r) {
      assert x(r) * (u(r) * c) == c * (u(r) * x(r));
    }
    SumExt(k, r => x(r) * f(r, i), r => c * g(r));
  }

  lemma Coefficient(v: Matrix, k: nat, e: int -> real, f: Matrix, l: int -> real, i: int)
    requires OrthonormalColumns(v, k) && Combination(v, k, e, f, l) && 0 <= i < k
    ensures var u := (r: int) => v(r, i); Sum(k, r => u(r) * l(r)) == e(i)
  {
    var u := (r: int) => v(r, i);
    SumWeightedRows(k, k, u, f);
    forall r | 0 <= r < k ensures u(r) * l(r) == u(r) * Row(k, f, r) { assert l(r) == Row(k, f, r); }
    SumExt(k, r => u(r) * l(r), r => u(r) * Row(k, f, r));
    forall j | 0 <= j < k ensures Weighted(k, u, f, j) == if j == i then e(i) else 0.0 {
      CoefficientTerm(v, k, e(j), f, u, i, j);
    }
    SumSingle(k, i, j => Weighted(k, u, f, j));
  }

  lemma CoefficientTerm(v: Matrix, k: nat, c: real, f: Matrix, u: int -> real, i: int, j: int)
    requires OrthonormalColumns(v, k) && 0 <= i < k && 0 <= j < k
    requires forall r | 0 <= r < k :: f(r, j) == v(r, j) * c && u(r) == v(r, i)
    ensures Weighted(k, u, f, j) == if j == i then c else 0.0
  {
    var w := (r: int) => v(r, j);
    PullOut(k, c, u, f, w, j);
    forall r | 0 <= r < k ensures w(r) * u(r) == v(r, j) * v(r, i) { assert w(r) == v(r, j) && u(r) == v(r, i); }
    SumExt(k, r => w(r) * u(r), r => v(r, j) * v(r, i));
    assert ColDot(v, k, j, i) == Delta(j, i);
  }

  /** Column m of a, without its diagonal entry, is part of the off-diagonal measure. */
  lemma ColumnBelowUpper(a: Matrix, k: nat, m: int, e: int -> real)
    requires Symmetric(a, k) && 0 <= m < k
    requires forall i | 0 <= i < k :: e(i) == if i == m then 0.0 else a(i, m)
    ensures SumSquares(k, e) <= Upper(a, k)
  {
    var above := (p: int, q: int) => if p < q then a(p, q) * a(p, q) else 0.0;
    var cross := (i: int) => if i < m then above(i, m) else if i == m then 0.0 else above(m, i);
    forall p, q | 0 <= p < k && 0 <= q < k ensures above(p, q) >= 0.0 { SquareNonNeg(a(p, q)); }
    CrossBelowTable(k, above, m, cross);
    forall i | 0 <= i < k ensures e(i) * e(i) == cross(i) {
      CrossEntry(a, k, m, e(i), i);
    }
    SumExt(k, i => e(i) * e(i), cross);
  }

  lemma CrossEntry(a: Matrix, k: nat, m: int, x: real, i: int)
    requires Symmetric(a, k) && 0 <= m < k && 0 <= i < k && x == if i == m then 0.0 else a(i, m)
    ensures x * x == if i < m then a(i, m) * a(i, m) else if i == m then 0.0 else a(m, i) * a(m, i)
  {
  }

  /** The entries of a non-negative table in column m above row m, and in row m right of column m. */
  lemma CrossBelowTable(k: nat, f: (int, int) -> real, m: int, cross: int -> real)
    requires 0 <= m < k && forall p, q | 0 <= p < k && 0 <= q < k :: f(p, q) >= 0.0
    requires forall i | 0 <= i < k :: cross(i) == if i < m then f(i, m) else if i == m then 0.0 else f(m, i)
    ensures Sum(k, cross) <= Sum2(k, k, f)
  {
    var left := (p: int) => if p < m then f(p, m) else 0.0;
    var right := (p: int) => if p > m then f(m, p) else 0.0;
    SumAdd(k, left, right);
    SumExt(k, cross, i => left(i) + right(i));
    var part := (p: int) => if p == m then Sum(k, right) else left(p);
    forall p | 0 <= p < k ensures part(p) <= Row(k, f, p) {
      if p == m {
        SumMono(k, right, q => f(m, q));
      } else {
        RowAtLeast(k, f, p, m);
      }
    }
    SumMono(k, part, p => Row(k, f, p));
    SumOneChanged(k, m, left, part);
  }

  lemma RowAtLeast(k: nat, f: (int, int) -> real, p: int, m: int)
    requires 0 <= m < k && forall q | 0 <= q < k :: f(p, q) >= 0.0
    ensures f(p, m) <= Row(k, f, p)
  {
    var g := (q: int) => if q == m then f(p, m) else 0.0;
    SumSingle(k, m, g);
    SumMono(k, g, q => f(p, q));
  }

  /** Every squared eigen-residual is bounded by what is left above the diagonal. */
  lemma ResidualBounded(aIn: Matrix, v: Matrix, a: Matrix, k: nat, m: int)
    requires Symmetric(a, k) && OrthonormalColumns(v, k) && Similar(aIn, v, a, k) && 0 <= m < k
    ensures Residual(aIn, v, k, m, a(m, m)) <= Upper(a, k)
  {
    var e := (i: int) => if i == m then 0.0 else a(i, m);
    ResidualNorm(aIn, v, a, k, m, e, (r, i) => v(r, i) * e(i));
    ColumnBelowUpper(a, k, m, e);
  }

  lemma ResidualNorm(aIn: Matrix, v: Matrix, a: Matrix, k: nat, m: int, e: int -> real, f: Matrix)
    requires OrthonormalColumns(v, k) && Similar(aIn, v, a, k) && 0 <= m < k
    requires forall i | 0 <= i < k :: e(i) == if i == m then 0.0 else a(i, m)
    requires forall r, i | 0 <= r < k && 0 <= i < k :: f(r, i) == v(r, i) * e(i)
    ensures Residual(aIn, v, k, m, a(m, m)) == SumSquares(k, e)
  {
    var l := (r: int) => Defect(aIn, v, k, m, a(m, m), r);
    forall r | 0 <= r < k ensures l(r) == Row(k, f, r) {
      DropDiagonal(aIn, v, a, k, m, e, f, r);
    }
    Parseval(v, k, e, f, l);
  }

  /** a == transpose(v) * aIn * v, entry by entry. */
  lemma CongruenceForm(aIn: Matrix, v: Matrix, a: Matrix, k: nat, i: int, j: int)
    requires OrthonormalColumns(v, k) && Similar(aIn, v, a, k) && 0 <= i < k && 0 <= j < k
    ensures a(i, j) == Against(v, k, i, r => Product(aIn, v, k, r, j))
  {
    var e := (l: int) => a(l, j);
    var f := (r: int, l: int) => v(r, l) * e(l);
    var product := (r: int) => Product(aIn, v, k, r, j);
    forall r | 0 <= r < k ensures product(r) == Row(k, f, r) {
      assert Product(aIn, v, k, r, j) == Product(v, a, k, r, j);
      ProductAsRow(v, a, k, j, e, f, r);
    }
    AgainstCombination(v, k, e, f, product, i);
  }

  lemma ProductAsRow(v: Matrix, a: Matrix, k: nat, j: int, e: int -> real, f: Matrix, r: int)
    requires forall l | 0 <= l < k :: e(l) == a(l, j)
    requires forall l | 0 <= l < k :: f(r, l) == v(r, l) * e(l)
    ensures Product(v, a, k, r, j) == Row(k, f, r)
  {
    SumExt(k, l => v(r, l) * a(l, j), l => f(r, l));
  }

  lemma AgainstCombination(v: Matrix, k: nat, e: int -> real, f: Matrix, l: int -> real, i: int)
    requires OrthonormalColumns(v, k) && Combination(v, k, e, f, l) && 0 <= i < k
    ensures Against(v, k, i, l) == e(i)
  {
    Coefficient(v, k, e, f, l, i);
    var u := (r: int) => v(r, i);
    SumExt(k, r => u(r) * l(r), r => v(r, i) * l(r));
  }

  lemma DropDiagonal(aIn: Matrix, v: Matrix, a: Matrix, k: nat, m: int, e: int -> real, f: Matrix, r: int)
    requires Similar(aIn, v, a, k) && 0 <= m < k && 0 <= r < k
    requires forall i | 0 <= i < k :: e(i) == if i == m then 0.0 else a(i, m)
    requires forall i | 0 <= i < k :: f(r, i) == v(r, i) * e(i)
    ensures Defect(aIn, v, k, m, a(m, m), r) == Row(k, f, r)
  {
    assert Product(aIn, v, k, r, m) == Product(v, a, k, r, m);
    SumOneChanged(k, m, i => v(r, i) * a(i, m), i => f(r, i));
  }
}
