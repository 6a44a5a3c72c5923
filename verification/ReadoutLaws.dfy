/** What the readout values are, by the sums they balance and the flat cells those sums run over. */
module ReadoutLaws {
  import opened Sums
  import opened Layout
  import opened Keep
  import opened Readout
  import Algebra = JacobiAlgebra

  // ----- one row pair

  lemma RootSquared(sqrt: real -> real, x: real)
    requires Algebra.IsRoot(sqrt) && x >= 0.0
    ensures sqrt(x) >= 0.0 && sqrt(x) * sqrt(x) == x
  {
  }

  /** y = x / n balances x, and squares balance squares. */
  lemma RatioBalances(x: real, n: real, y: real)
    requires n != 0.0 && y == Ratio(x, n)
    ensures y * n == x && (y * y) * (n * n) == x * x
  {
    assert y * n == x;
    assert (y * y) * (n * n) == (y * n) * (y * n);
  }

  /** The displacement squared, times the squared norm of f, is the squared distance of g from f. */
  lemma L2Balances(sqrt: real -> real, r: nat, f: int -> real, g: int -> real)
    requires Algebra.IsRoot(sqrt) && sqrt(Inner(r, f, f)) > 0.0
    ensures var x := L2(sqrt, r, f, g);
      x >= 0.0 && (x * x) * Sum(r, i => f(i) * f(i)) == Sum(r, i => (g(i) - f(i)) * (g(i) - f(i)))
  {
    var (ff, gap) := (Inner(r, f, f), Gap(r, f, g));
    InnerNonNeg(r, f);
    GapNonNeg(r, f, g);
    RootSquared(sqrt, ff);
    RootSquared(sqrt, gap);
    RatioBalances(sqrt(gap), sqrt(ff), L2(sqrt, r, f, g));
    QuotientSign(sqrt(gap), sqrt(ff), L2(sqrt, r, f, g));
  }

  lemma GapNonNeg(r: nat, f: int -> real, g: int -> real)
    ensures Gap(r, f, g) >= 0.0
  {
    var d := (i: int) => g(i) - f(i);
    SumSquaresNonNeg(r, d);
    SumExt(r, i => d(i) * d(i), i => (g(i) - f(i)) * (g(i) - f(i)));
  }

  lemma QuotientSign(x: real, n: real, y: real)
    requires n > 0.0 && y == Ratio(x, n)
    ensures y >= 0.0 <==> x >= 0.0
  {
    assert y * n == x;
    if y >= 0.0 { ProductNonNeg(y, n, x); } else { ProductPositive(-y, n, -x); }
  }

  /** One minus the angle value is the cosine: it balances the inner product, and has its sign. */
  lemma DcosBalances(sqrt: real -> real, r: nat, f: int -> real, g: int -> real)
    requires Algebra.IsRoot(sqrt) && sqrt(Inner(r, f, f)) > 0.0 && sqrt(Inner(r, g, g)) > 0.0
    ensures var (c, fg) := (1.0 - Dcos(sqrt, r, f, g), Sum(r, i => f(i) * g(i)));
      && (c >= 0.0 <==> fg >= 0.0)
      && (c * c) * (Sum(r, i => f(i) * f(i)) * Sum(r, i => g(i) * g(i))) == fg * fg
  {
    var (ff, gg, fg) := (Inner(r, f, f), Inner(r, g, g), Inner(r, f, g));
    InnerNonNeg(r, f);
    InnerNonNeg(r, g);
    RootSquared(sqrt, ff);
    RootSquared(sqrt, gg);
    CosineBalances(fg, sqrt(ff), sqrt(gg), ff, gg, 1.0 - Dcos(sqrt, r, f, g));
  }

  lemma CosineBalances(fg: real, nf: real, ng: real, ff: real, gg: real, c: real)
    requires nf > 0.0 && ng > 0.0 && nf * nf == ff && ng * ng == gg && c == Ratio(fg, nf * ng)
    ensures (c >= 0.0 <==> fg >= 0.0) && (c * c) * (ff * gg) == fg * fg
  {
    var n := nf * ng;
    ProductPositive(nf, ng, n);
    RatioBalances(fg, n, c);
    QuotientSign(fg, n, c);
    assert n * n == (nf * nf) * (ng * ng);
  }

  // ----- the same, on the flat buffers

  /** Cell k of row t. */
  function RowCell(w: seq<real>, r: nat, t: int): int -> real {
    k => At(w, t * r + k)
  }

  lemma RowIsFlat(w: seq<real>, rows: nat, r: nat, t: nat)
    requires |w| == rows * r && t < rows
    ensures forall k | 0 <= k < r :: ReadoutRow(w, r, t)(k) == RowCell(w, r, t)(k)
  {
    BlockFits(w, t, rows, r);
    forall k | 0 <= k < r ensures ReadoutRow(w, r, t)(k) == RowCell(w, r, t)(k) {
      assert Block(w, t, r)[k] == w[Ix(t, k, r)];
    }
  }

  /** x squared takes aa to the gap; one minus y is a cosine for aa, bb and ab. */
  ghost predicate Balance(x: real, y: real, aa: real, bb: real, ab: real, gap: real) {
    && x >= 0.0 && (x * x) * aa == gap
    && (1.0 - y >= 0.0 <==> ab >= 0.0) && ((1.0 - y) * (1.0 - y)) * (aa * bb) == ab * ab
  }

  /** What displacement x and angle y say about two rows of r cells. */
  ghost predicate Balances(x: real, y: real, r: nat, a: int -> real, b: int -> real) {
    Balance(x, y, Sum(r, k => a(k) * a(k)), Sum(r, k => b(k) * b(k)), Sum(r, k => a(k) * b(k)),
            Sum(r, k => (b(k) - a(k)) * (b(k) - a(k))))
  }

  lemma RowsBalance(sqrt: real -> real, r: nat, f: int -> real, g: int -> real)
    requires Algebra.IsRoot(sqrt) && sqrt(Inner(r, f, f)) > 0.0 && sqrt(Inner(r, g, g)) > 0.0
    ensures Balances(L2(sqrt, r, f, g), Dcos(sqrt, r, f, g), r, f, g)
  {
    L2Balances(sqrt, r, f, g);
    DcosBalances(sqrt, r, f, g);
  }

  lemma BalancesExt(x: real, y: real, r: nat, f: int -> real, g: int -> real, a: int -> real, b: int -> real)
    requires Balances(x, y, r, f, g) && forall k | 0 <= k < r :: f(k) == a(k) && g(k) == b(k)
    ensures Balances(x, y, r, a, b)
  {
    RowSumsAgree(r, f, g, a, b);
  }

  lemma RowSumsAgree(r: nat, f: int -> real, g: int -> real, a: int -> real, b: int -> real)
    requires forall k | 0 <= k < r :: f(k) == a(k) && g(k) == b(k)
    ensures Sum(r, k => f(k) * f(k)) == Sum(r, k => a(k) * a(k)) && Sum(r, k => g(k) * g(k)) == Sum(r, k => b(k) * b(k))
    ensures Sum(r, k => f(k) * g(k)) == Sum(r, k => a(k) * b(k))
    ensures Sum(r, k => (g(k) - f(k)) * (g(k) - f(k))) == Sum(r, k => (b(k) - a(k)) * (b(k) - a(k)))
  {
    SumExt(r, k => f(k) * f(k), k => a(k) * a(k));
    SumExt(r, k => g(k) * g(k), k => b(k) * b(k));
    SumExt(r, k => f(k) * g(k), k => a(k) * b(k));
    SumExt(r, k => (g(k) - f(k)) * (g(k) - f(k)), k => (b(k) - a(k)) * (b(k) - a(k)));
  }

  /** The cells `fill_layer` writes for a row without fault. */
  lemma CellsAreBalanced(sqrt: real -> real, wBase: seq<real>, wCand: seq<real>, rows: nat, r: nat, layer: nat, t: nat)
    requires Algebra.IsRoot(sqrt) && |wBase| == |wCand| == rows * r && t < rows
    requires RowFault(sqrt, wBase, wCand, r, layer, t) == None
    ensures Balances(L2Rows(sqrt, wBase, wCand, r)(t), DcosRows(sqrt, wBase, wCand, r)(t), r,
                     RowCell(wBase, r, t), RowCell(wCand, r, t))
  {
    var (f, g) := (ReadoutRow(wBase, r, t), ReadoutRow(wCand, r, t));
    NormsPositive(sqrt, wBase, wCand, r, layer, t);
    RowsBalance(sqrt, r, f, g);
    RowIsFlat(wBase, rows, r, t);
    RowIsFlat(wCand, rows, r, t);
    BalancesExt(L2(sqrt, r, f, g), Dcos(sqrt, r, f, g), r, f, g, RowCell(wBase, r, t), RowCell(wCand, r, t));
  }

  lemma NormsPositive(sqrt: real -> real, wBase: seq<real>, wCand: seq<real>, r: nat, layer: nat, t: nat)
    requires Algebra.IsRoot(sqrt) && RowFault(sqrt, wBase, wCand, r, layer, t) == None
    ensures var (f, g) := (ReadoutRow(wBase, r, t), ReadoutRow(wCand, r, t));
      sqrt(Inner(r, f, f)) > 0.0 && sqrt(Inner(r, g, g)) > 0.0
  {
    InnerNonNeg(r, ReadoutRow(wCand, r, t));
  }

  // ----- the four scores

  /** The visible rows below n, as a set. */
  ghost function VisibleSet(visible: set<nat>, n: nat): set<nat> {
    set t | t in visible && t < n
  }

  lemma {:induction false} VisibleCountIs(visible: set<nat>, n: nat)
    ensures VisibleCount(visible, n) == |VisibleSet(visible, n)|
  {
    if n > 0 {
      VisibleCountIs(visible, n - 1);
      if n - 1 in visible {
        assert VisibleSet(visible, n) == VisibleSet(visible, n - 1) + {n - 1};
      } else {
        assert VisibleSet(visible, n) == VisibleSet(visible, n - 1);
      }
    } else {
      assert VisibleSet(visible, n) == {};
    }
  }

  /** The sum of h over the visible cells of a grid. */
  function VisibleSum(nLayers: nat, rows: nat, visible: set<nat>, h: (int, int) -> real): real {
    Sum(nLayers, l => Sum(rows, t => if t in visible then h(l, t) else 0.0))
  }

  function Squares(f: (int, int) -> real): (int, int) -> real {
    (l, t) => f(l, t) * f(l, t)
  }

  lemma VisibleSumIs(nLayers: nat, rows: nat, visible: set<nat>, h: (int, int) -> real, masked: (int, int) -> real)
    requires forall l, t | 0 <= l < nLayers && 0 <= t < rows :: masked(l, t) == if t in visible then h(l, t) else 0.0
    ensures Sum2(nLayers, rows, masked) == VisibleSum(nLayers, rows, visible, h)
  {
    forall l | 0 <= l < nLayers ensures Row(rows, masked, l) == Sum(rows, t => if t in visible then h(l, t) else 0.0) {
      SumExt(rows, t => masked(l, t), t => if t in visible then h(l, t) else 0.0);
    }
    SumExt(nLayers, l => Row(rows, masked, l), l => Sum(rows, t => if t in visible then h(l, t) else 0.0));
  }

  /** One value's two scores over n visible cells. */
  ghost predicate IsMeanAndRms(mean: real, rms: real, nLayers: nat, rows: nat, visible: set<nat>, f: (int, int) -> real,
                               n: nat) {
    && mean * n as real == VisibleSum(nLayers, rows, visible, f)
    && rms >= 0.0 && (rms * rms) * n as real == VisibleSum(nLayers, rows, visible, Squares(f))
  }

  lemma MeanAndRms(sqrt: real -> real, nLayers: nat, rows: nat, visible: set<nat>, f: (int, int) -> real, n: nat)
    requires Algebra.IsRoot(sqrt) && n > 0
    ensures IsMeanAndRms(Mean(nLayers, rows, visible, f, n), Rms(sqrt, nLayers, rows, visible, f, n), nLayers, rows,
                         visible, f, n)
  {
    VisibleSumIs(nLayers, rows, visible, f, Masked(visible, f));
    VisibleSumIs(nLayers, rows, visible, Squares(f), MaskedSquares(visible, f));
    var (sum, sq, m) := (Sum2(nLayers, rows, Masked(visible, f)), Sum2(nLayers, rows, MaskedSquares(visible, f)),
                         n as real);
    RatioBalances(sum, m, Ratio(sum, m));
    RatioBalances(sq, m, Ratio(sq, m));
    SquaresNonNeg(nLayers, rows, visible, f);
    QuotientSign(sq, m, Ratio(sq, m));
    RootSquared(sqrt, Ratio(sq, m));
  }

  lemma SquaresNonNeg(nLayers: nat, rows: nat, visible: set<nat>, f: (int, int) -> real)
    ensures Sum2(nLayers, rows, MaskedSquares(visible, f)) >= 0.0
  {
    var q := MaskedSquares(visible, f);
    forall l ensures Row(rows, q, l) >= 0.0 {
      forall t ensures q(l, t) >= 0.0 { SquareNonNeg(f(l, t)); }
      SumNonNeg(rows, t => q(l, t));
    }
    SumNonNeg(nLayers, l => Row(rows, q, l));
  }

  /** Which score a kind names: the mean or the root mean square, of the displacements or of the angles. */
  lemma ScoresByKind(sqrt: real -> real, nLayers: nat, rows: nat, visible: set<nat>, f: (int, int) -> real,
                     g: (int, int) -> real)
    requires Algebra.IsRoot(sqrt) && rows <= 32 && nLayers > 0 && VisibleSet(visible, rows) != {}
    ensures var (s, n) := (Scores(sqrt, nLayers, rows, visible, f, g), nLayers * |VisibleSet(visible, rows)|);
      && s.nCells == n > 0
      && IsMeanAndRms(s.Get(Kind(L2Value, MeanAgg)), s.Get(Kind(L2Value, RmsAgg)), nLayers, rows, visible, f, n)
      && IsMeanAndRms(s.Get(Kind(DcosValue, MeanAgg)), s.Get(Kind(DcosValue, RmsAgg)), nLayers, rows, visible, g, n)
  {
    VisibleCountIs(visible, rows);
    var count := |VisibleSet(visible, rows)|;
    assert count > 0;
    CellsCounted(nLayers, count);
    MeanAndRms(sqrt, nLayers, rows, visible, f, nLayers * count);
    MeanAndRms(sqrt, nLayers, rows, visible, g, nLayers * count);
  }

  /** The cells a kind sums: the displacements or the angles, or their squares. */
  function Summed(kind: Kind, f: (int, int) -> real, g: (int, int) -> real): (int, int) -> real {
    var h := if kind.value.L2Value? then f else g;
    if kind.agg.MeanAgg? then h else Squares(h)
  }

  /** x is the score of that kind when its cells sum to `total` over n of them. */
  ghost predicate IsScore(x: real, kind: Kind, total: real, n: nat) {
    if kind.agg.MeanAgg? then x * n as real == total else x >= 0.0 && (x * x) * n as real == total
  }

  lemma ScoreOfKind(sqrt: real -> real, nLayers: nat, rows: nat, visible: set<nat>, f: (int, int) -> real,
                    g: (int, int) -> real,
                    kind: Kind)
    requires Algebra.IsRoot(sqrt) && rows <= 32 && nLayers > 0 && VisibleSet(visible, rows) != {}
    ensures var n := nLayers * |VisibleSet(visible, rows)|;
      n > 0 && IsScore(Scores(sqrt, nLayers, rows, visible, f, g).Get(kind), kind,
                       VisibleSum(nLayers, rows, visible, Summed(kind, f, g)), n)
  {
    ScoresByKind(sqrt, nLayers, rows, visible, f, g);
    match kind
    case Kind(L2Value, MeanAgg) =>
    case Kind(L2Value, RmsAgg) =>
    case Kind(DcosValue, MeanAgg) =>
    case Kind(DcosValue, RmsAgg) =>
  }

  /** a over m is at most b over n, less if `strict`, written without a quotient. */
  ghost predicate AtMost(a: real, m: nat, b: real, n: nat, strict: bool) {
    if strict then a * n as real < b * m as real else a * n as real <= b * m as real
  }

  /** Scores compare as their sums over their numbers of cells. */
  lemma ScoresCompare(x: real, y: real, kind: Kind, a: real, m: nat, b: real, n: nat, strict: bool)
    requires IsScore(x, kind, a, m) && IsScore(y, kind, b, n) && m > 0 && n > 0 && x <= y && (strict ==> x < y)
    ensures AtMost(a, m, b, n, strict)
  {
    if kind.agg.MeanAgg? {
      Compare(x, y, m as real, n as real, a, b, strict);
    } else {
      SquaresCompare(x, y, strict);
      Compare(x * x, y * y, m as real, n as real, a, b, strict);
    }
  }

  lemma SquaresCompare(x: real, y: real, strict: bool)
    requires 0.0 <= x <= y && (strict ==> x < y)
    ensures x * x <= y * y && (strict ==> x * x < y * y)
  {
    var d := (y - x) * (y + x);
    assert d == y * y - x * x;
    ProductNonNeg(y - x, y + x, d);
    if strict { ProductPositive(y - x, y + x, d); }
  }

  lemma Compare(x: real, y: real, m: real, n: real, a: real, b: real, strict: bool)
    requires x * m == a && y * n == b && m > 0.0 && n > 0.0 && x <= y && (strict ==> x < y)
    ensures a * n <= b * m && (strict ==> a * n < b * m)
  {
    var k := m * n;
    ProductPositive(m, n, k);
    assert a * n == x * k && b * m == y * k;
    ProductNonNeg(y - x, k, (y - x) * k);
    if strict { ProductPositive(y - x, k, (y - x) * k); }
  }
}
