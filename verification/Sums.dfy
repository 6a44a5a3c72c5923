/** Finite sums of reals: the algebra the kernels and the eigensolver are specified in. */
module Sums {

  /** f(0) + ... + f(n - 1) */
  function Sum(n: nat, f: int -> real): real {
    if n == 0 then 0.0 else Sum(n - 1, f) + f(n - 1)
  }

  /** A product by name: equal factors give equal products. */
  function Mul(x: real, y: real): real {
    x * y
  }

  /** x is d over y, said without a quotient. */
  ghost predicate Balanced(x: real, y: real, d: real) {
    x * y == d
  }

  function Abs(x: real): real {
    if x < 0.0 then -x else x
  }

  lemma {:induction false} SumExt(n: nat, f: int -> real, g: int -> real)
    requires forall i | 0 <= i < n :: f(i) == g(i)
    ensures Sum(n, f) == Sum(n, g)
  {
    if n > 0 { SumExt(n - 1, f, g); }
  }

  lemma {:induction false} SumZero(n: nat, f: int -> real)
    requires forall i | 0 <= i < n :: f(i) == 0.0
    ensures Sum(n, f) == 0.0
  {
    if n > 0 { SumZero(n - 1, f); }
  }

  lemma {:induction false} SumScale(n: nat, c: real, f: int -> real)
    ensures Sum(n, i => c * f(i)) == c * Sum(n, f)
  {
    if n > 0 { SumScale(n - 1, c, f); }
  }

  lemma {:induction false} SumAdd(n: nat, f: int -> real, g: int -> real)
    ensures Sum(n, i => f(i) + g(i)) == Sum(n, f) + Sum(n, g)
  {
    if n > 0 { SumAdd(n - 1, f, g); }
  }

  /** c * f + d * g, summed. */
  lemma {:induction false} SumLinear(n: nat, c: real, f: int -> real, d: real, g: int -> real)
    ensures Sum(n, i => c * f(i) + d * g(i)) == c * Sum(n, f) + d * Sum(n, g)
  {
    if n > 0 { SumLinear(n - 1, c, f, d, g); }
  }

  /** f(i, 0) + ... + f(i, n - 1) */
  function Row(n: nat, f: (int, int) -> real, i: int): real {
    Sum(n, j => f(i, j))
  }

  /** The sum of f over an m by n table, row by row. */
  function Sum2(m: nat, n: nat, f: (int, int) -> real): real {
    Sum(m, i => Row(n, f, i))
  }

  lemma Sum2Ext(m: nat, n: nat, f: (int, int) -> real, g: (int, int) -> real)
    requires forall i, j | 0 <= i < m && 0 <= j < n :: f(i, j) == g(i, j)
    ensures Sum2(m, n, f) == Sum2(m, n, g)
  {
    forall i | 0 <= i < m ensures Row(n, f, i) == Row(n, g, i) {
      SumExt(n, j => f(i, j), j => g(i, j));
    }
    SumExt(m, i => Row(n, f, i), i => Row(n, g, i));
  }

  lemma Sum2Add(m: nat, n: nat, f: (int, int) -> real, g: (int, int) -> real)
    ensures Sum2(m, n, (i, j) => f(i, j) + g(i, j)) == Sum2(m, n, f) + Sum2(m, n, g)
  {
    var h := (i: int, j: int) => f(i, j) + g(i, j);
    forall i | 0 <= i < m ensures Row(n, h, i) == Row(n, f, i) + Row(n, g, i) {
      SumAdd(n, j => f(i, j), j => g(i, j));
      var (x, y) := ((j: int) => f(i, j), (j: int) => g(i, j));
      SumExt(n, j => h(i, j), j => x(j) + y(j));
    }
    SumAdd(m, i => Row(n, f, i), i => Row(n, g, i));
    var (u, w) := ((i: int) => Row(n, f, i), (i: int) => Row(n, g, i));
    SumExt(m, i => Row(n, h, i), i => u(i) + w(i));
  }

  /** Finite sums commute. */
  lemma {:induction false} SumSwap(m: nat, n: nat, f: (int, int) -> real)
    ensures Sum2(m, n, f) == Sum2(n, m, (j, i) => f(i, j))
  {
    var flipped := (j: int, i: int) => f(i, j);
    if m == 0 {
      forall j | 0 <= j < n ensures Row(m, flipped, j) == 0.0 {}
      SumZero(n, j => Row(m, flipped, j));
    } else {
      SumSwap(m - 1, n, f);
      var below := (j: int) => Row(m - 1, flipped, j);
      var last := (j: int) => f(m - 1, j);
      SumAdd(n, below, last);
      forall j | 0 <= j < n ensures Row(m, flipped, j) == below(j) + last(j) {}
      SumExt(n, j => below(j) + last(j), j => Row(m, flipped, j));
    }
  }

  /** x(0) f(0, i) + ... + x(m - 1) f(m - 1, i) */
  function Weighted(m: nat, x: int -> real, f: (int, int) -> real, i: int): real {
    Sum(m, r => x(r) * f(r, i))
  }

  /** Weighting the row sums is summing the weighted columns. */
  lemma SumWeightedRows(m: nat, n: nat, x: int -> real, f: (int, int) -> real)
    ensures Sum(m, r => x(r) * Row(n, f, r)) == Sum(n, i => Weighted(m, x, f, i))
  {
    var g := (r: int, i: int) => x(r) * f(r, i);
    forall r | 0 <= r < m ensures x(r) * Row(n, f, r) == Row(n, g, r) {
      ScaledRow(n, x(r), f, g, r);
    }
    SumExt(m, r => x(r) * Row(n, f, r), r => Row(n, g, r));
    SumSwap(m, n, g);
    var flipped := (i: int, r: int) => g(r, i);
    forall i | 0 <= i < n ensures Row(m, flipped, i) == Weighted(m, x, f, i) {
      SumExt(m, r => flipped(i, r), r => x(r) * f(r, i));
    }
    SumExt(n, i => Row(m, flipped, i), i => Weighted(m, x, f, i));
  }

  lemma ScaledRow(n: nat, c: real, f: (int, int) -> real, g: (int, int) -> real, r: int)
    requires forall i | 0 <= i < n :: g(r, i) == c * f(r, i)
    ensures Row(n, g, r) == c * Row(n, f, r)
  {
    SumScale(n, c, i => f(r, i));
    var h := (i: int) => f(r, i);
    SumExt(n, i => c * h(i), i => g(r, i));
  }

  lemma {:induction false} SumMono(n: nat, f: int -> real, g: int -> real)
    requires forall i | 0 <= i < n :: f(i) <= g(i)
    ensures Sum(n, f) <= Sum(n, g)
  {
    if n > 0 { SumMono(n - 1, f, g); }
  }

  lemma {:induction false} SumNonNeg(n: nat, f: int -> real)
    requires forall i | 0 <= i < n :: f(i) >= 0.0
    ensures Sum(n, f) >= 0.0
  {
    if n > 0 { SumNonNeg(n - 1, f); }
  }

  lemma {:induction false} SumPositive(n: nat, f: int -> real)
    requires n > 0 && forall i | 0 <= i < n :: f(i) > 0.0
    ensures Sum(n, f) > 0.0
  {
    if n > 1 { SumPositive(n - 1, f); }
  }

  /** Only position p contributes. */
  lemma {:induction false} SumSingle(n: nat, p: nat, f: int -> real)
    requires p < n && forall i | 0 <= i < n && i != p :: f(i) == 0.0
    ensures Sum(n, f) == f(p)
  {
    if p == n - 1 { SumZero(n - 1, f); } else { SumSingle(n - 1, p, f); }
  }

  /** Two sums whose terms agree except at p. */
  lemma {:induction false} SumOneChanged(n: nat, p: nat, f: int -> real, g: int -> real)
    requires p < n && forall i | 0 <= i < n && i != p :: f(i) == g(i)
    ensures Sum(n, g) - Sum(n, f) == g(p) - f(p)
  {
    if p == n - 1 { SumExt(n - 1, f, g); } else { SumOneChanged(n - 1, p, f, g); }
  }

  /** Two sums whose terms agree except at p and q. */
  lemma {:induction false} SumTwoChanged(n: nat, p: nat, q: nat, f: int -> real, g: int -> real)
    requires p < q < n && forall i | 0 <= i < n && i != p && i != q :: f(i) == g(i)
    ensures Sum(n, g) - Sum(n, f) == g(p) - f(p) + g(q) - f(q)
  {
    if q == n - 1 { SumOneChanged(n - 1, p, f, g); } else { SumTwoChanged(n - 1, p, q, f, g); }
  }

  /** A sum over a concatenated range, in two parts. */
  lemma {:induction false} SumAppend(m: nat, n: nat, f: int -> real)
    ensures Sum(m + n, f) == Sum(m, f) + Sum(n, j => f(m + j))
  {
    if n > 0 { SumAppend(m, n - 1, f); }
  }

  /** A sum over m consecutive blocks of n. */
  lemma {:induction false} SumBlocks(m: nat, n: nat, f: int -> real)
    ensures Sum(m * n, f) == Sum(m, i => Sum(n, j => f(i * n + j)))
  {
    if m > 0 {
      assert m * n == (m - 1) * n + n;
      SumBlocks(m - 1, n, f);
      SumAppend((m - 1) * n, n, f);
      SumExt(n, j => f((m - 1) * n + j), j => f((m - 1) * n + j));
    } else {
      assert m * n == 0;
    }
  }

  function SumSquares(n: nat, f: int -> real): real {
    Sum(n, i => f(i) * f(i))
  }

  lemma SquareNonNeg(x: real)
    ensures x * x >= 0.0
  {
  }

  lemma SumSquaresNonNeg(n: nat, f: int -> real)
    ensures Sum(n, i => f(i) * f(i)) >= 0.0
  {
    var ff := (i: int) => f(i) * f(i);
    forall i | 0 <= i < n ensures ff(i) >= 0.0 { SquareNonNeg(f(i)); }
    SumNonNeg(n, ff);
  }

  lemma ProductPositive(x: real, y: real, m: real)
    requires m == x * y && ((x > 0.0 && y > 0.0) || (x < 0.0 && y < 0.0))
    ensures m > 0.0
    decreases x < 0.0
  {
    if x < 0.0 { ProductPositive(-x, -y, m); }
  }

  lemma ProductNonNeg(x: real, y: real, m: real)
    requires m == x * y && x >= 0.0 && y >= 0.0
    ensures m >= 0.0
  {
  }

  lemma {:induction false} SumSquaresZero(n: nat, g: int -> real)
    requires Sum(n, i => g(i) * g(i)) == 0.0
    ensures forall i | 0 <= i < n :: g(i) == 0.0
  {
    if n > 0 {
      var gg := (i: int) => g(i) * g(i);
      SumSquaresNonNeg(n - 1, g);
      SquareNonNeg(g(n - 1));
      if g(n - 1) != 0.0 { ProductPositive(g(n - 1), g(n - 1), gg(n - 1)); }
      SumSquaresZero(n - 1, g);
    }
  }

  lemma {:induction false} SumSquaredDifference(n: nat, b: real, f: int -> real, d: real, g: int -> real)
    ensures Sum(n, i => (b * f(i) - d * g(i)) * (b * f(i) - d * g(i)))
         == b * b * Sum(n, i => f(i) * f(i)) - 2.0 * b * d * Sum(n, i => f(i) * g(i))
            + d * d * Sum(n, i => g(i) * g(i))
  {
    if n > 0 {
      SumSquaredDifference(n - 1, b, f, d, g);
      var (x, y) := (f(n - 1), g(n - 1));
      assert (b * x - d * y) * (b * x - d * y) == b * b * (x * x) - 2.0 * b * d * (x * y) + d * d * (y * y);
    }
  }

  /** The Cauchy-Schwarz inequality. */
  lemma CauchySchwarz(n: nat, f: int -> real, g: int -> real)
    ensures var dot := Sum(n, i => f(i) * g(i));
      dot * dot <= Sum(n, i => f(i) * f(i)) * Sum(n, i => g(i) * g(i))
  {
    var (b, d) := (Sum(n, i => g(i) * g(i)), Sum(n, i => f(i) * g(i)));
    SumSquaresNonNeg(n, g);
    if b == 0.0 {
      SumSquaresZero(n, g);
      SumZero(n, i => f(i) * g(i));
    } else {
      DifferenceNonNeg(n, b, f, d, g);
      SumSquaredDifference(n, b, f, d, g);
      Factor(Sum(n, i => f(i) * f(i)), b, d);
    }
  }

  lemma DifferenceNonNeg(n: nat, b: real, f: int -> real, d: real, g: int -> real)
    ensures Sum(n, i => (b * f(i) - d * g(i)) * (b * f(i) - d * g(i))) >= 0.0
  {
    var u := (i: int) => b * f(i) - d * g(i);
    SumSquaresNonNeg(n, u);
    SumExt(n, i => u(i) * u(i), i => (b * f(i) - d * g(i)) * (b * f(i) - d * g(i)));
  }

  lemma Factor(a: real, b: real, d: real)
    requires b > 0.0 && b * b * a - 2.0 * b * d * d + d * d * b >= 0.0
    ensures d * d <= a * b
  {
    assert b * (a * b - d * d) >= 0.0;
  }
}
