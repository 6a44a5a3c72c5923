/** Displacement and angle of row pairs, grids of both, and their means over the visible rows. */
module Readout {
  import opened Sums
  import opened Softmax
  import opened Layout
  import opened Keep
  import opened Ordering
  import opened KernelSpec
  import Algebra = JacobiAlgebra

  // ----- one cell

  function Inner(n: nat, f: int -> real, g: int -> real): real {
    Sum(n, i => f(i) * g(i))
  }

  /** The squared distance of two rows. */
  function Gap(n: nat, f: int -> real, g: int -> real): real {
    Sum(n, i => (g(i) - f(i)) * (g(i) - f(i)))
  }

  /** x / y, and 0 where y is 0, which stands for the NaN of 0 / 0. */
  function Ratio(x: real, y: real): real {
    if y == 0.0 then 0.0 else x / y
  }

  /** The relative displacement of g from f. */
  function L2(sqrt: real -> real, n: nat, f: int -> real, g: int -> real): real {
    Displacement(sqrt, Gap(n, f, g), Inner(n, f, f))
  }

  function Displacement(sqrt: real -> real, gap: real, ff: real): real {
    Ratio(sqrt(gap), sqrt(ff))
  }

  /** One minus the cosine of the angle between f and g. */
  function Dcos(sqrt: real -> real, n: nat, f: int -> real, g: int -> real): real {
    Angle(sqrt, Inner(n, f, g), Inner(n, f, f), Inner(n, g, g))
  }

  function Angle(sqrt: real -> real, fg: real, ff: real, gg: real): real {
    1.0 - Ratio(fg, sqrt(ff) * sqrt(gg))
  }

  lemma InnerNonNeg(n: nat, f: int -> real)
    ensures Inner(n, f, f) >= 0.0
  {
    SumSquaresNonNeg(n, f);
  }

  lemma GapExpands(n: nat, f: int -> real, g: int -> real)
    ensures Gap(n, f, g) == Inner(n, g, g) - 2.0 * Inner(n, g, f) + Inner(n, f, f)
  {
    SumSquaredDifference(n, 1.0, g, 1.0, f);
    forall i | 0 <= i < n
      ensures (1.0 * g(i) - 1.0 * f(i)) * (1.0 * g(i) - 1.0 * f(i)) == (g(i) - f(i)) * (g(i) - f(i))
    {
      assert 1.0 * g(i) - 1.0 * f(i) == g(i) - f(i);
    }
    SumExt(n, i => (1.0 * g(i) - 1.0 * f(i)) * (1.0 * g(i) - 1.0 * f(i)), i => (g(i) - f(i)) * (g(i) - f(i)));
  }

  /** A candidate that reproduces the baseline row is at displacement and angle exactly zero. */
  lemma SameRowIsZero(sqrt: real -> real, n: nat, f: int -> real)
    requires Algebra.IsRoot(sqrt) && sqrt(Inner(n, f, f)) > 0.0
    ensures L2(sqrt, n, f, f) == 0.0 && Dcos(sqrt, n, f, f) == 0.0
  {
    SumZero(n, i => (f(i) - f(i)) * (f(i) - f(i)));
    InnerNonNeg(n, f);
    RootOfZero(sqrt);
    SelfRatio(Inner(n, f, f), sqrt(Inner(n, f, f)));
  }

  lemma RootOfZero(sqrt: real -> real)
    requires Algebra.IsRoot(sqrt)
    ensures sqrt(0.0) == 0.0
  {
    var s := sqrt(0.0);
    if s > 0.0 { ProductPositive(s, s, s * s); }
  }

  lemma SelfRatio(x: real, s: real)
    requires s > 0.0 && s * s == x
    ensures Ratio(x, s * s) == 1.0
  {
    ProductPositive(s, s, x);
    Unity(x);
  }

  lemma Unity(x: real)
    requires x > 0.0
    ensures x / x == 1.0
  {
  }

  /** The angle readout lies in [0, 2]. */
  lemma DcosInRange(sqrt: real -> real, n: nat, f: int -> real, g: int -> real)
    requires Algebra.IsRoot(sqrt) && sqrt(Inner(n, f, f)) > 0.0 && sqrt(Inner(n, g, g)) > 0.0
    ensures 0.0 <= Dcos(sqrt, n, f, g) <= 2.0
  {
    CauchySchwarz(n, f, g);
    InnerNonNeg(n, f);
    InnerNonNeg(n, g);
    AngleBound(sqrt, Inner(n, f, g), Inner(n, f, f), Inner(n, g, g));
  }

  lemma AngleBound(sqrt: real -> real, fg: real, ff: real, gg: real)
    requires Algebra.IsRoot(sqrt) && ff >= 0.0 && gg >= 0.0 && sqrt(ff) > 0.0 && sqrt(gg) > 0.0 && fg * fg <= ff * gg
    ensures 0.0 <= Angle(sqrt, fg, ff, gg) <= 2.0
  {
    CosineBound(fg, sqrt(ff), sqrt(gg), ff, gg);
  }

  lemma CosineBound(dot: real, a: real, b: real, aa: real, bb: real)
    requires a > 0.0 && b > 0.0 && a * a == aa && b * b == bb && dot * dot <= aa * bb
    ensures -1.0 <= Ratio(dot, a * b) <= 1.0
  {
    var m := a * b;
    ProductPositive(a, b, m);
    assert dot * dot <= m * m by { assert aa * bb == (a * b) * (a * b); }
    SquareOrder(dot, m);
    QuotientBound(dot, m);
  }

  /** |x| <= y from the squares. */
  lemma SquareOrder(x: real, y: real)
    requires y >= 0.0 && x * x <= y * y
    ensures -y <= x <= y
  {
    if x > y {
      assert (x - y) * (x + y) == x * x - y * y;
      ProductPositive(x - y, x + y, (x - y) * (x + y));
    }
    if -x > y {
      assert (-x - y) * (-x + y) == x * x - y * y;
      ProductPositive(-x - y, -x + y, (-x - y) * (-x + y));
    }
  }

  lemma QuotientBound(x: real, y: real)
    requires y > 0.0 && -y <= x <= y
    ensures -1.0 <= x / y <= 1.0
  {
  }

  // ----- the left factor of the output projection cancels

  /** Row w of r components mapped through u, component i. */
  function Image(u: (int, int) -> real, r: nat, w: int -> real, i: int): real {
    Weighted(r, w, Flip(u), i)
  }

  function Flip(u: (int, int) -> real): (int, int) -> real {
    (k, i) => u(i, k)
  }

  function Mapped(u: (int, int) -> real, r: nat, w: int -> real): int -> real {
    i => Image(u, r, w, i)
  }

  /** The d by r matrix u has orthonormal columns. */
  ghost predicate Isometry(u: (int, int) -> real, d: nat, r: nat) {
    forall j, k | 0 <= j < r && 0 <= k < r :: Algebra.ColDot(u, d, j, k) == Algebra.Delta(j, k)
  }

  /** Inner products survive an isometry. */
  lemma InnerKept(u: (int, int) -> real, d: nat, r: nat, f: int -> real, g: int -> real)
    requires Isometry(u, d, r)
    ensures Inner(d, Mapped(u, r, f), Mapped(u, r, g)) == Inner(r, f, g)
  {
    var coef := (k: int, _: int) => g(k);
    var b := (i: int, _: int) => Image(u, r, g, i);
    forall k | 0 <= k < r ensures coef(k, 0) == Projected(d, Flip(u), b, k, 0) {
      CoefficientRecovered(u, d, r, g, k);
      SumExt(d, i => Flip(u)(k, i) * b(i, 0), i => u(i, k) * Image(u, r, g, i));
    }
    WeightedCommutes(r, f, d, Flip(u), b, coef, 0);
    InnerAsContraction(u, d, r, f, g, b);
    InnerAsWeighted(r, f, g, coef);
  }

  lemma InnerAsWeighted(r: nat, f: int -> real, g: int -> real, coef: (int, int) -> real)
    requires forall k | 0 <= k < r :: coef(k, 0) == g(k)
    ensures Inner(r, f, g) == Weighted(r, f, coef, 0)
  {
    SumExt(r, k => f(k) * g(k), k => f(k) * coef(k, 0));
  }

  lemma InnerAsContraction(u: (int, int) -> real, d: nat, r: nat, f: int -> real, g: int -> real, b: (int, int) -> real)
    requires forall i | 0 <= i < d :: b(i, 0) == Image(u, r, g, i)
    ensures Inner(d, Mapped(u, r, f), Mapped(u, r, g)) == WeightedContraction(r, f, d, Flip(u), b, 0)
  {
    var (mf, mg) := (Mapped(u, r, f), Mapped(u, r, g));
    forall i | 0 <= i < d ensures Weighted(r, f, Flip(u), i) == mf(i) && b(i, 0) == mg(i) {}
    SumExt(d, i => Weighted(r, f, Flip(u), i) * b(i, 0), i => mf(i) * mg(i));
  }

  /** Column k of u against the image of g gives back g(k). */
  lemma CoefficientRecovered(u: (int, int) -> real, d: nat, r: nat, g: int -> real, k: int)
    requires Isometry(u, d, r) && 0 <= k < r
    ensures Sum(d, i => u(i, k) * Image(u, r, g, i)) == g(k)
  {
    var ut := Flip(u);
    var b := (i: int, _: int) => u(i, k);
    var delta := (l: int, _: int) => Algebra.Delta(l, k);
    forall l | 0 <= l < r ensures delta(l, 0) == Projected(d, ut, b, l, 0) {
      SumExt(d, i => ut(l, i) * b(i, 0), i => u(i, l) * u(i, k));
      assert Algebra.ColDot(u, d, l, k) == Algebra.Delta(l, k);
    }
    WeightedCommutes(r, g, d, ut, b, delta, 0);
    SumSingle(r, k, l => g(l) * delta(l, 0));
    forall i ensures Weighted(r, g, ut, i) * b(i, 0) == u(i, k) * Image(u, r, g, i) {}
    SumExt(d, i => Weighted(r, g, ut, i) * b(i, 0), i => u(i, k) * Image(u, r, g, i));
  }

  /** Both cell values are functions of the r-space rows alone. */
  lemma CellsKept(sqrt: real -> real, u: (int, int) -> real, d: nat, r: nat, f: int -> real, g: int -> real)
    requires Isometry(u, d, r)
    ensures L2(sqrt, d, Mapped(u, r, f), Mapped(u, r, g)) == L2(sqrt, r, f, g)
    ensures Dcos(sqrt, d, Mapped(u, r, f), Mapped(u, r, g)) == Dcos(sqrt, r, f, g)
  {
    InnerKept(u, d, r, f, f);
    InnerKept(u, d, r, f, g);
    InnerKept(u, d, r, g, g);
    GapKept(u, d, r, f, g);
  }

  lemma GapKept(u: (int, int) -> real, d: nat, r: nat, f: int -> real, g: int -> real)
    requires Isometry(u, d, r)
    ensures Gap(d, Mapped(u, r, f), Mapped(u, r, g)) == Gap(r, f, g)
  {
    InnerKept(u, d, r, f, f);
    InnerKept(u, d, r, g, f);
    InnerKept(u, d, r, g, g);
    GapExpands(r, f, g);
    GapExpands(d, Mapped(u, r, f), Mapped(u, r, g));
  }

  // ----- the grid and its aggregates

  datatype ReadoutError =
    | ZeroBaseline(layer: nat, row: nat)
    | NonFinite(layer: nat, row: nat)
    | NoVisibleRows

  datatype Value = L2Value | DcosValue
  datatype Agg = MeanAgg | RmsAgg
  datatype Kind = Kind(value: Value, agg: Agg)

  /** Mean and root mean square of displacement and angle, and how many cells they cover. */
  datatype ReadoutSet = ReadoutSet(l2Mean: real, l2Rms: real, dcosMean: real, dcosRms: real, nCells: nat) {
    function Get(kind: Kind): real {
      match (kind.value, kind.agg)
      case (L2Value, MeanAgg) => l2Mean
      case (L2Value, RmsAgg) => l2Rms
      case (DcosValue, MeanAgg) => dcosMean
      case (DcosValue, RmsAgg) => dcosRms
    }
  }

  function ReadoutRow(w: seq<real>, r: nat, t: int): int -> real {
    Elements(Block(w, t, r))
  }

  /**
   * What stops row t: a baseline row of zero norm, or a candidate row of zero norm, whose cosine
   * would be 0 / 0.
   */
  function RowFault(sqrt: real -> real, wBase: seq<real>, wCand: seq<real>, r: nat, layer: nat,
                    t: nat): Option<ReadoutError> {
    var (a, b) := (ReadoutRow(wBase, r, t), ReadoutRow(wCand, r, t));
    if sqrt(Inner(r, a, a)) <= 0.0 then Some(ZeroBaseline(layer, t))
    else if sqrt(Inner(r, b, b)) == 0.0 then Some(NonFinite(layer, t))
    else None
  }

  function RowFaults(sqrt: real -> real, wBase: seq<real>, wCand: seq<real>, r: nat,
                     layer: nat): nat -> Option<ReadoutError> {
    (t: nat) => RowFault(sqrt, wBase, wCand, r, layer, t)
  }

  /** The fault of the first failing row from t on. */
  function FirstFault(faults: nat -> Option<ReadoutError>, rows: nat, t: nat): Option<ReadoutError>
    decreases rows - t
  {
    if t >= rows then None else if faults(t).Some? then faults(t) else FirstFault(faults, rows, t + 1)
  }

  function LayerFault(sqrt: real -> real, wBase: seq<real>, wCand: seq<real>, r: nat, layer: nat,
                      rows: nat): Option<ReadoutError> {
    FirstFault(RowFaults(sqrt, wBase, wCand, r, layer), rows, 0)
  }

  /** The displacement and the angle of row t, as functions of t. */
  function L2Rows(sqrt: real -> real, wBase: seq<real>, wCand: seq<real>, r: nat): int -> real {
    t => L2(sqrt, r, ReadoutRow(wBase, r, t), ReadoutRow(wCand, r, t))
  }

  function DcosRows(sqrt: real -> real, wBase: seq<real>, wCand: seq<real>, r: nat): int -> real {
    t => Dcos(sqrt, r, ReadoutRow(wBase, r, t), ReadoutRow(wCand, r, t))
  }

  /** The three functions give what row t of both buffers means. */
  ghost predicate RowMeans(sqrt: real -> real, wBase: seq<real>, wCand: seq<real>, r: nat, layer: nat, t: nat,
                           faults: nat -> Option<ReadoutError>, f: int -> real, g: int -> real)
  {
    && faults(t) == RowFault(sqrt, wBase, wCand, r, layer, t)
    && f(t) == L2(sqrt, r, ReadoutRow(wBase, r, t), ReadoutRow(wCand, r, t))
    && g(t) == Dcos(sqrt, r, ReadoutRow(wBase, r, t), ReadoutRow(wCand, r, t))
  }

  ghost function Meaning(sqrt: real -> real, wBase: seq<real>, wCand: seq<real>, r: nat, layer: nat,
                         faults: nat -> Option<ReadoutError>, f: int -> real, g: int -> real): nat -> bool
  {
    (t: nat) => RowMeans(sqrt, wBase, wCand, r, layer, t, faults, f, g)
  }

  /** The cells of one layer are f. */
  ghost predicate HoldsLayer(s: seq<real>, layer: nat, rows: nat, f: int -> real) {
    forall t | 0 <= t < rows :: 0 <= Ix(layer, t, rows) < |s| && s[Ix(layer, t, rows)] == f(t)
  }

  /** Displacement and angle of every row of every layer for one keep-set, flat in layer-major order. */
  class CellGrid {
    const nLayers: nat
    const rows: nat
    var l2: seq<real>
    var dcos: seq<real>

    ghost predicate Valid()
      reads this
    {
      |l2| == |dcos| == nLayers * rows
    }

    constructor (nLayers: nat, rows: nat)
      ensures Valid() && this.nLayers == nLayers && this.rows == rows
      ensures l2 == seq(nLayers * rows, _ => 0.0) && dcos == seq(nLayers * rows, _ => 0.0)
    {
      this.nLayers, this.rows := nLayers, rows;
      l2, dcos := seq(nLayers * rows, _ => 0.0), seq(nLayers * rows, _ => 0.0);
    }

    /** A grid that resumes from cells already filled. */
    constructor Resume(nLayers: nat, rows: nat, l2: seq<real>, dcos: seq<real>)
      requires |l2| == |dcos| == nLayers * rows
      ensures Valid() && this.nLayers == nLayers && this.rows == rows && this.l2 == l2 && this.dcos == dcos
    {
      this.nLayers, this.rows, this.l2, this.dcos := nLayers, rows, l2, dcos;
    }

    /** Cell `at` from row t of both; a failing row reports instead. */
    method FillRow(sqrt: real -> real, at: nat, layer: nat, t: nat, wBase: seq<real>, wCand: seq<real>, r: nat,
                   ghost faults: nat -> Option<ReadoutError>, ghost f: int -> real, ghost g: int -> real)
      returns (res: Option<ReadoutError>)
      requires at < |l2| == |dcos| && t < rows && |wBase| == |wCand| == rows * r
      requires Meaning(sqrt, wBase, wCand, r, layer, faults, f, g)(t)
      modifies this
      ensures |l2| == |dcos| == old(|l2|)
      ensures res == faults(t)
      ensures res.None? ==> l2[at] == f(t) && dcos[at] == g(t)
      ensures forall x | 0 <= x < |l2| && x != at :: l2[x] == old(l2[x]) && dcos[x] == old(dcos[x])
    {
      assert RowMeans(sqrt, wBase, wCand, r, layer, t, faults, f, g);
      BlockFits(wBase, t, rows, r);
      BlockFits(wCand, t, rows, r);
      var na, displacement, angle := Cell(sqrt, Block(wBase, t, r), Block(wCand, t, r));
      if na <= 0.0 {
        return Some(ZeroBaseline(layer, t));
      }
      l2 := l2[at := displacement];
      if angle.None? {
        return Some(NonFinite(layer, t));
      }
      dcos := dcos[at := angle.value];
      return None;
    }

    /** The rows of one layer, into the cells from `from` on. */
    method FillRows(sqrt: real -> real, from: nat, layer: nat, wBase: seq<real>, wCand: seq<real>, r: nat,
                    ghost faults: nat -> Option<ReadoutError>, ghost f: int -> real, ghost g: int -> real)
      returns (res: Option<ReadoutError>)
      requires from + rows <= |l2| == |dcos| && |wBase| == |wCand| == rows * r
      requires forall t: nat | t < rows :: Meaning(sqrt, wBase, wCand, r, layer, faults, f, g)(t)
      modifies this
      ensures |l2| == |dcos| == old(|l2|)
      ensures res == FirstFault(faults, rows, 0)
      ensures res.None? ==> FilledTo(l2, from, rows, f) && FilledTo(dcos, from, rows, g)
      ensures forall x | 0 <= x < |l2| && !(from <= x < from + rows) :: l2[x] == old(l2[x]) && dcos[x] == old(dcos[x])
    {
      for t := 0 to rows
        invariant |l2| == |dcos| == old(|l2|)
        invariant FirstFault(faults, rows, 0) == FirstFault(faults, rows, t)
        invariant FilledTo(l2, from, t, f) && FilledTo(dcos, from, t, g)
        invariant forall x | 0 <= x < |l2| && !(from <= x < from + rows) ::
          l2[x] == old(l2[x]) && dcos[x] == old(dcos[x])
      {
        ghost var (before, before') := (l2, dcos);
        res := FillRow(sqrt, from + t, layer, t, wBase, wCand, r, faults, f, g);
        if res.Some? {
          return;
        }
        FillsOne(before, l2, from, t, f);
        FillsOne(before', dcos, from, t, g);
      }
      return None;
    }

    /** Write the cells of one layer and no others. */
    method FillLayer(sqrt: real -> real, layer: nat, wBase: seq<real>, wCand: seq<real>, r: nat)
      returns (res: Result<(), ReadoutError>)
      requires Valid() && layer < nLayers && |wBase| == |wCand| == rows * r
      modifies this
      ensures Valid()
      ensures match LayerFault(sqrt, wBase, wCand, r, layer, rows)
        case Some(e) => res == Err(e)
        case None => res.Ok?
      ensures res.Ok? ==>
        && HoldsLayer(l2, layer, rows, L2Rows(sqrt, wBase, wCand, r))
        && HoldsLayer(dcos, layer, rows, DcosRows(sqrt, wBase, wCand, r))
      ensures forall x | 0 <= x < |l2| && !(layer * rows <= x < layer * rows + rows) ::
        l2[x] == old(l2[x]) && dcos[x] == old(dcos[x])
    {
      NextRow(-1, layer, rows);
      NextRow(layer, nLayers, rows);
      var from := layer * rows;
      ghost var (faults, f, g) := (RowFaults(sqrt, wBase, wCand, r, layer), L2Rows(sqrt, wBase, wCand, r),
                                   DcosRows(sqrt, wBase, wCand, r));
      forall t: nat | t < rows ensures Meaning(sqrt, wBase, wCand, r, layer, faults, f, g)(t) {
        RowsMean(sqrt, wBase, wCand, r, layer, t);
      }
      var fault := FillRows(sqrt, from, layer, wBase, wCand, r, faults, f, g);
      if fault.None? {
        LayerHeld(l2, layer, rows, from, f);
        LayerHeld(dcos, layer, rows, from, g);
      }
      return if fault.Some? then Err(fault.value) else Ok(());
    }
  }

  /** The first n of the cells from `from` on are f. */
  ghost predicate FilledTo(s: seq<real>, from: nat, n: nat, f: int -> real) {
    from + n <= |s| && forall x | from <= x < from + n :: s[x] == f(x - from)
  }

  lemma FillsOne(s: seq<real>, s': seq<real>, from: nat, n: nat, f: int -> real)
    requires FilledTo(s, from, n, f) && |s'| == |s| && from + n < |s| && s'[from + n] == f(n)
    requires forall x | 0 <= x < |s| && x != from + n :: s'[x] == s[x]
    ensures FilledTo(s', from, n + 1, f)
  {
  }

  lemma LayerHeld(s: seq<real>, layer: nat, rows: nat, from: nat, f: int -> real)
    requires from == layer * rows && FilledTo(s, from, rows, f)
    ensures HoldsLayer(s, layer, rows, f)
  {
    forall t | 0 <= t < rows ensures 0 <= Ix(layer, t, rows) < |s| && s[Ix(layer, t, rows)] == f(t) {
      FilledAt(s, from, rows, f, t, Ix(layer, t, rows));
    }
  }

  lemma FilledAt(s: seq<real>, from: nat, n: nat, f: int -> real, t: nat, x: int)
    requires FilledTo(s, from, n, f) && t < n && x == from + t
    ensures 0 <= x < |s| && s[x] == f(t)
  {
    assert s[x] == f(x - from);
  }

  lemma RowsMean(sqrt: real -> real, wBase: seq<real>, wCand: seq<real>, r: nat, layer: nat, t: nat)
    ensures Meaning(sqrt, wBase, wCand, r, layer, RowFaults(sqrt, wBase, wCand, r, layer),
                    L2Rows(sqrt, wBase, wCand, r), DcosRows(sqrt, wBase, wCand, r))(t)
  {
    assert RowMeans(sqrt, wBase, wCand, r, layer, t, RowFaults(sqrt, wBase, wCand, r, layer),
                    L2Rows(sqrt, wBase, wCand, r), DcosRows(sqrt, wBase, wCand, r));
  }

  /** One cell: the norm of the baseline row and both values, the angle undefined against a zero row. */
  method Cell(sqrt: real -> real, a: seq<real>, b: seq<real>)
    returns (na: real, displacement: real, angle: Option<real>)
    requires |a| == |b|
    ensures na == sqrt(Inner(|a|, Elements(a), Elements(a)))
    ensures na > 0.0 ==> displacement == L2(sqrt, |a|, Elements(a), Elements(b))
    ensures na > 0.0 ==> (angle.None? <==> sqrt(Inner(|a|, Elements(b), Elements(b))) == 0.0)
    ensures na > 0.0 && angle.Some? ==> angle.value == Dcos(sqrt, |a|, Elements(a), Elements(b))
  {
    var aa, bb, ab, gap := RowSums(a, b);
    na, displacement, angle := sqrt(aa), 0.0, None;
    var nb := sqrt(bb);
    if na > 0.0 {
      displacement := sqrt(gap) / na;
      angle := CellAngle(ab, na, nb);
    }
  }

  /** One minus the cosine, undefined over a vanishing product of norms. */
  method CellAngle(ab: real, na: real, nb: real) returns (angle: Option<real>)
    requires na > 0.0
    ensures angle.None? <==> nb == 0.0
    ensures angle.Some? ==> angle.value == 1.0 - Ratio(ab, na * nb)
  {
    var product := na * nb;
    ProductVanishes(na, nb, product);
    angle := if product != 0.0 then Some(1.0 - ab / product) else None;
  }

  lemma ProductVanishes(x: real, y: real, m: real)
    requires x > 0.0 && m == x * y
    ensures m == 0.0 <==> y == 0.0
  {
    if y > 0.0 { ProductPositive(x, y, m); }
    if y < 0.0 { ProductPositive(x, -y, -m); }
  }

  /** The four running sums of one row pair. */
  method RowSums(a: seq<real>, b: seq<real>) returns (aa: real, bb: real, ab: real, gap: real)
    requires |a| == |b|
    ensures aa == Inner(|a|, Elements(a), Elements(a)) && bb == Inner(|a|, Elements(b), Elements(b))
    ensures ab == Inner(|a|, Elements(a), Elements(b)) && gap == Gap(|a|, Elements(a), Elements(b))
  {
    aa, bb, ab, gap := 0.0, 0.0, 0.0, 0.0;
    for k := 0 to |a|
      invariant aa == Inner(k, Elements(a), Elements(a)) && bb == Inner(k, Elements(b), Elements(b))
      invariant ab == Inner(k, Elements(a), Elements(b)) && gap == Gap(k, Elements(a), Elements(b))
    {
      aa := aa + a[k] * a[k];
      bb := bb + b[k] * b[k];
      ab := ab + a[k] * b[k];
      var d := b[k] - a[k];
      gap := gap + d * d;
    }
  }

  // ----- aggregation over the visible rows

  /** How many of the first n rows the mask holds. */
  function VisibleCount(visible: set<nat>, n: nat): nat {
    if n == 0 then 0 else VisibleCount(visible, n - 1) + if n - 1 in visible then 1 else 0
  }

  /** The cells of the visible rows; the others count nothing. */
  function Masked(visible: set<nat>, f: (int, int) -> real): (int, int) -> real {
    (l, t) => if t in visible then f(l, t) else 0.0
  }

  function MaskedSquares(visible: set<nat>, f: (int, int) -> real): (int, int) -> real {
    (l, t) => if t in visible then f(l, t) * f(l, t) else 0.0
  }

  function CellsOf(s: seq<real>, rows: nat): (int, int) -> real {
    (l, t) => At(s, Ix(l, t, rows))
  }

  function Mean(nLayers: nat, rows: nat, visible: set<nat>, f: (int, int) -> real, n: nat): real {
    Ratio(Sum2(nLayers, rows, Masked(visible, f)), n as real)
  }

  function Rms(sqrt: real -> real, nLayers: nat, rows: nat, visible: set<nat>, f: (int, int) -> real, n: nat): real {
    sqrt(Ratio(Sum2(nLayers, rows, MaskedSquares(visible, f)), n as real))
  }

  /** The four scores of a grid whose displacement and angle cells are f and g. */
  function Scores(sqrt: real -> real, nLayers: nat, rows: nat, visible: set<nat>, f: (int, int) -> real,
                  g: (int, int) -> real): ReadoutSet {
    var n := nLayers * VisibleCount(visible, Min(rows, 32));
    ReadoutSet(Mean(nLayers, rows, visible, f, n), Rms(sqrt, nLayers, rows, visible, f, n),
               Mean(nLayers, rows, visible, g, n), Rms(sqrt, nLayers, rows, visible, g, n), n)
  }

  /** The sum and the sum of squares of one row of the grid. */
  method RowTotals(src: seq<real>, rows: nat, visible: set<nat>, l: nat) returns (sum: real, sq: real)
    requires 0 <= l * rows && l * rows + rows <= |src|
    ensures sum == Row(rows, Masked(visible, CellsOf(src, rows)), l)
    ensures sq == Row(rows, MaskedSquares(visible, CellsOf(src, rows)), l)
  {
    sum, sq := 0.0, 0.0;
    for t := 0 to rows
      invariant sum == Row(t, Masked(visible, CellsOf(src, rows)), l)
      invariant sq == Row(t, MaskedSquares(visible, CellsOf(src, rows)), l)
    {
      if t in visible {
        var x := src[l * rows + t];
        sum := sum + x;
        sq := sq + x * x;
      }
    }
  }

  method Totals(src: seq<real>, nLayers: nat, rows: nat, visible: set<nat>) returns (sum: real, sq: real)
    requires |src| == nLayers * rows
    ensures sum == Sum2(nLayers, rows, Masked(visible, CellsOf(src, rows)))
    ensures sq == Sum2(nLayers, rows, MaskedSquares(visible, CellsOf(src, rows)))
  {
    sum, sq := 0.0, 0.0;
    for l := 0 to nLayers
      invariant sum == Sum2(l, rows, Masked(visible, CellsOf(src, rows)))
      invariant sq == Sum2(l, rows, MaskedSquares(visible, CellsOf(src, rows)))
    {
      NextRow(-1, l, rows);
      NextRow(l, nLayers, rows);
      var a, b := RowTotals(src, rows, visible, l);
      sum, sq := sum + a, sq + b;
    }
  }

  /** Mean and root mean square of both values over the cells of the visible rows. */
  method Aggregate(sqrt: real -> real, grid: CellGrid, visible: set<nat>)
    returns (res: Result<ReadoutSet, ReadoutError>)
    requires grid.Valid() && grid.rows <= 32
    ensures res == if VisibleCount(visible, grid.rows) == 0 then Err(NoVisibleRows)
      else Ok(Scores(sqrt, grid.nLayers, grid.rows, visible, CellsOf(grid.l2, grid.rows),
                     CellsOf(grid.dcos, grid.rows)))
  {
    var nVis := 0;
    for t := 0 to Min(grid.rows, 32)
      invariant nVis == VisibleCount(visible, t)
    {
      if t in visible {
        nVis := nVis + 1;
      }
    }
    if nVis == 0 {
      return Err(NoVisibleRows);
    }
    var n := grid.nLayers * nVis;
    var mean, rms := Averages(sqrt, grid.l2, grid.nLayers, grid.rows, visible, n);
    var mean', rms' := Averages(sqrt, grid.dcos, grid.nLayers, grid.rows, visible, n);
    return Ok(ReadoutSet(mean, rms, mean', rms', n));
  }

  method Averages(sqrt: real -> real, src: seq<real>, nLayers: nat, rows: nat, visible: set<nat>, n: nat)
    returns (mean: real, rms: real)
    requires |src| == nLayers * rows
    ensures mean == Mean(nLayers, rows, visible, CellsOf(src, rows), n)
    ensures rms == Rms(sqrt, nLayers, rows, visible, CellsOf(src, rows), n)
  {
    var inv := if n == 0 then 0.0 else 1.0 / n as real;
    var sum, sq := Totals(src, nLayers, rows, visible);
    ByInverse(sum, n as real, inv);
    ByInverse(sq, n as real, inv);
    mean := sum * inv;
    var square := sq * inv;
    rms := sqrt(square);
  }

  lemma ByInverse(x: real, n: real, inv: real)
    requires n >= 0.0 && inv == if n == 0.0 then 0.0 else 1.0 / n
    ensures x * inv == Ratio(x, n)
  {
    if n > 0.0 { Quotient(x, n); }
  }

  lemma CellsCounted(m: nat, n: nat)
    requires m > 0 && n > 0
    ensures m * n > 0
  {
  }

  // ----- mean is at most RMS

  /** n values of sum s and square sum q: their squared spread about c is not negative. */
  ghost predicate Spreads(c: real, q: real, s: real, n: real) {
    q - 2.0 * c * s + c * c * n >= 0.0
  }

  lemma SpreadOne(c: real, x: real)
    ensures Spreads(c, x * x, x, 1.0)
  {
    SquareNonNeg(x - c);
    assert (x - c) * (x - c) == x * x - 2.0 * c * x + c * c;
  }

  lemma SpreadSum(c: real, q: real, s: real, n: real, q': real, s': real, n': real)
    requires Spreads(c, q, s, n) && Spreads(c, q', s', n')
    ensures Spreads(c, q + q', s + s', n + n')
  {
  }

  lemma {:induction false} RowSpread(rows: nat, visible: set<nat>, f: (int, int) -> real, l: int, c: real)
    ensures Spreads(c, Row(rows, MaskedSquares(visible, f), l), Row(rows, Masked(visible, f), l),
                    VisibleCount(visible, rows) as real)
  {
    if rows > 0 {
      var t := rows - 1;
      RowSpread(t, visible, f, l, c);
      var (q, s, n) := (Row(t, MaskedSquares(visible, f), l), Row(t, Masked(visible, f), l),
                        VisibleCount(visible, t) as real);
      var (x, y) := (MaskedSquares(visible, f)(l, t), Masked(visible, f)(l, t));
      if t in visible {
        SpreadOne(c, f(l, t));
        SpreadSum(c, q, s, n, x, y, 1.0);
      } else {
        SpreadSum(c, q, s, n, x, y, 0.0);
      }
    }
  }

  lemma {:induction false} GridSpread(nLayers: nat, rows: nat, visible: set<nat>, f: (int, int) -> real, c: real)
    ensures Spreads(c, Sum2(nLayers, rows, MaskedSquares(visible, f)), Sum2(nLayers, rows, Masked(visible, f)),
                    (nLayers * VisibleCount(visible, rows)) as real)
  {
    if nLayers > 0 {
      GridSpread(nLayers - 1, rows, visible, f, c);
      RowSpread(rows, visible, f, nLayers - 1, c);
      var n := VisibleCount(visible, rows);
      LayerCount(nLayers, n);
      SpreadSum(c, Sum2(nLayers - 1, rows, MaskedSquares(visible, f)), Sum2(nLayers - 1, rows, Masked(visible, f)),
                ((nLayers - 1) * n) as real,
                Row(rows, MaskedSquares(visible, f), nLayers - 1), Row(rows, Masked(visible, f), nLayers - 1),
                n as real);
    }
  }

  lemma LayerCount(l: nat, n: nat)
    requires l > 0
    ensures (l * n) as real == ((l - 1) * n) as real + n as real
  {
    assert l * n == (l - 1) * n + n;
  }

  /** The mean of the visible cells never exceeds their root mean square. */
  lemma MeanAtMostRms(sqrt: real -> real, nLayers: nat, rows: nat, visible: set<nat>, f: (int, int) -> real)
    requires Algebra.IsRoot(sqrt) && nLayers * VisibleCount(visible, rows) > 0
    ensures var n := nLayers * VisibleCount(visible, rows);
      Mean(nLayers, rows, visible, f, n) <= Rms(sqrt, nLayers, rows, visible, f, n)
  {
    var n := nLayers * VisibleCount(visible, rows);
    var (s, q) := (Sum2(nLayers, rows, Masked(visible, f)), Sum2(nLayers, rows, MaskedSquares(visible, f)));
    var (mean, square) := (s / n as real, q / n as real);
    GridSpread(nLayers, rows, visible, f, mean);
    MeanSquare(s, q, n as real, mean, square);
    SquareNonNeg(mean);
    SquareOrder(mean, sqrt(square));
  }

  lemma MeanSquare(s: real, q: real, n: real, mean: real, square: real)
    requires n > 0.0 && mean == s / n && square == q / n
    requires Spreads(mean, q, s, n)
    ensures mean * mean <= square
  {
    assert s == mean * n && q == square * n;
    assert n * (square - mean * mean) >= 0.0;
    if square < mean * mean { ProductPositive(n, mean * mean - square, n * (mean * mean - square)); }
  }

  // ----- what the scores depend on

  /** Scores are determined by the visible cells. */
  lemma ScoresExt(sqrt: real -> real, nLayers: nat, rows: nat, visible: set<nat>, f: (int, int) -> real,
                  g: (int, int) -> real,
                  f': (int, int) -> real, g': (int, int) -> real)
    requires forall l, t | 0 <= l < nLayers && 0 <= t < rows && t in visible ::
      f(l, t) == f'(l, t) && g(l, t) == g'(l, t)
    ensures Scores(sqrt, nLayers, rows, visible, f, g) == Scores(sqrt, nLayers, rows, visible, f', g')
  {
    TotalsExt(nLayers, rows, visible, f, f');
    TotalsExt(nLayers, rows, visible, g, g');
  }

  lemma TotalsExt(nLayers: nat, rows: nat, visible: set<nat>, f: (int, int) -> real, f': (int, int) -> real)
    requires forall l, t | 0 <= l < nLayers && 0 <= t < rows && t in visible :: f(l, t) == f'(l, t)
    ensures Sum2(nLayers, rows, Masked(visible, f)) == Sum2(nLayers, rows, Masked(visible, f'))
    ensures Sum2(nLayers, rows, MaskedSquares(visible, f)) == Sum2(nLayers, rows, MaskedSquares(visible, f'))
  {
    Sum2Ext(nLayers, rows, Masked(visible, f), Masked(visible, f'));
    forall l, t | 0 <= l < nLayers && 0 <= t < rows
      ensures MaskedSquares(visible, f)(l, t) == MaskedSquares(visible, f')(l, t)
    {
      if t in visible { assert f(l, t) == f'(l, t); }
    }
    Sum2Ext(nLayers, rows, MaskedSquares(visible, f), MaskedSquares(visible, f'));
  }

  /** A grid whose visible cells are all zero scores exactly zero in both aggregates. */
  lemma ZeroCells(sqrt: real -> real, nLayers: nat, rows: nat, visible: set<nat>, f: (int, int) -> real, n: nat)
    requires Algebra.IsRoot(sqrt) && n > 0
    requires forall l, t | 0 <= l < nLayers && 0 <= t < rows && t in visible :: f(l, t) == 0.0
    ensures Mean(nLayers, rows, visible, f, n) == 0.0 && Rms(sqrt, nLayers, rows, visible, f, n) == 0.0
  {
    var zero := (l: int, t: int) => 0.0;
    TotalsExt(nLayers, rows, visible, f, zero);
    ZeroTable(nLayers, rows, Masked(visible, zero));
    ZeroTable(nLayers, rows, MaskedSquares(visible, zero));
    RootOfZero(sqrt);
  }

  lemma ZeroTable(m: nat, n: nat, f: (int, int) -> real)
    requires forall i, j | 0 <= i < m && 0 <= j < n :: f(i, j) == 0.0
    ensures Sum2(m, n, f) == 0.0
  {
    forall i | 0 <= i < m ensures Row(n, f, i) == 0.0 { SumZero(n, j => f(i, j)); }
    SumZero(m, i => Row(n, f, i));
  }

  /** The displacement of every cell of a pair of tables of rows with d components. */
  function L2Cells(sqrt: real -> real, d: nat, a: (int, int) -> (int -> real),
                   b: (int, int) -> (int -> real)): (int, int) -> real {
    (l, t) => L2(sqrt, d, a(l, t), b(l, t))
  }

  function DcosCells(sqrt: real -> real, d: nat, a: (int, int) -> (int -> real),
                     b: (int, int) -> (int -> real)): (int, int) -> real {
    (l, t) => Dcos(sqrt, d, a(l, t), b(l, t))
  }

  /** Every row of layer l mapped through that layer's left factor. */
  function MappedRows(us: int -> ((int, int) -> real), r: nat,
                      a: (int, int) -> (int -> real)): (int, int) -> (int -> real) {
    (l, t) => Mapped(us(l), r, a(l, t))
  }

  /** All four scores are the same whether read in r-space or after any isometry, layer by layer. */
  lemma ScoresKept(sqrt: real -> real, us: int -> ((int, int) -> real), d: nat, r: nat, nLayers: nat, rows: nat,
                   visible: set<nat>,
                   a: (int, int) -> (int -> real), b: (int, int) -> (int -> real))
    requires forall l | 0 <= l < nLayers :: Isometry(us(l), d, r)
    ensures Scores(sqrt, nLayers, rows, visible, L2Cells(sqrt, d, MappedRows(us, r, a), MappedRows(us, r, b)),
                   DcosCells(sqrt, d, MappedRows(us, r, a), MappedRows(us, r, b)))
         == Scores(sqrt, nLayers, rows, visible, L2Cells(sqrt, r, a, b), DcosCells(sqrt, r, a, b))
  {
    var (a', b') := (MappedRows(us, r, a), MappedRows(us, r, b));
    forall l, t | 0 <= l < nLayers && 0 <= t < rows
      ensures L2Cells(sqrt, d, a', b')(l, t) == L2Cells(sqrt, r, a, b)(l, t)
      ensures DcosCells(sqrt, d, a', b')(l, t) == DcosCells(sqrt, r, a, b)(l, t)
    {
      CellsKept(sqrt, us(l), d, r, a(l, t), b(l, t));
    }
    ScoresExt(sqrt, nLayers, rows, visible, L2Cells(sqrt, d, a', b'), DcosCells(sqrt, d, a', b'),
              L2Cells(sqrt, r, a, b), DcosCells(sqrt, r, a, b));
  }
}
