/** Softmax over a finite row of logits and the attention it weights. */
module Softmax {
  import opened Sums

  function Max(x: real, y: real): real {
    if x < y then y else x
  }

  /** The largest of f(0), ..., f(n - 1). */
  function MaxOf(n: nat, f: int -> real): real
    requires n > 0
  {
    if n == 1 then f(0) else Max(MaxOf(n - 1, f), f(n - 1))
  }

  lemma {:induction false} MaxOfExt(n: nat, f: int -> real, g: int -> real)
    requires n > 0 && forall i | 0 <= i < n :: f(i) == g(i)
    ensures MaxOf(n, f) == MaxOf(n, g)
  {
    if n > 1 { MaxOfExt(n - 1, f, g); }
  }

  lemma {:induction false} MaxOfIsMax(n: nat, f: int -> real)
    requires n > 0
    ensures forall i | 0 <= i < n :: f(i) <= MaxOf(n, f)
    ensures exists i | 0 <= i < n :: f(i) == MaxOf(n, f)
  {
    if n == 1 {
      assert f(0) == MaxOf(n, f);
    } else {
      MaxOfIsMax(n - 1, f);
      var i :| 0 <= i < n - 1 && f(i) == MaxOf(n - 1, f);
      assert f(i) == MaxOf(n, f) || f(n - 1) == MaxOf(n, f);
    }
  }

  ghost predicate Positive(exp: real -> real) {
    forall x :: exp(x) > 0.0
  }

  /** exp(f(j) - shift) */
  function Unnormalised(exp: real -> real, f: int -> real, shift: real, j: int): real {
    exp(f(j) - shift)
  }

  function Partition(exp: real -> real, n: nat, f: int -> real, shift: real): real {
    Sum(n, j => Unnormalised(exp, f, shift, j))
  }

  /** The weight of column j among n, every exponent lowered by shift first. */
  function Weight(exp: real -> real, n: nat, f: int -> real, shift: real, j: int): real {
    if Partition(exp, n, f, shift) == 0.0 then 0.0
    else Unnormalised(exp, f, shift, j) / Partition(exp, n, f, shift)
  }

  /** The weight the kernels use: the shift is the row maximum. */
  function Soft(exp: real -> real, n: nat, f: int -> real, j: int): real
    requires n > 0
  {
    Weight(exp, n, f, MaxOf(n, f), j)
  }

  lemma PartitionPositive(exp: real -> real, n: nat, f: int -> real, shift: real)
    requires n > 0 && Positive(exp)
    ensures Partition(exp, n, f, shift) > 0.0
  {
    SumPositive(n, j => Unnormalised(exp, f, shift, j));
  }

  /** The weights of a row are positive and sum to one. */
  lemma WeightsSumToOne(exp: real -> real, n: nat, f: int -> real, shift: real)
    requires n > 0 && Positive(exp)
    ensures Sum(n, j => Weight(exp, n, f, shift, j)) == 1.0
    ensures forall j :: Weight(exp, n, f, shift, j) > 0.0
  {
    PartitionPositive(exp, n, f, shift);
    var total := Partition(exp, n, f, shift);
    var inv := 1.0 / total;
    var u := (j: int) => Unnormalised(exp, f, shift, j);
    SumScale(n, inv, u);
    forall j ensures Weight(exp, n, f, shift, j) == inv * u(j) && Weight(exp, n, f, shift, j) > 0.0 {
      WeightAt(exp, n, f, shift, j, total, inv);
    }
    SumExt(n, j => inv * u(j), j => Weight(exp, n, f, shift, j));
    Quotient(total, total);
  }

  lemma WeightAt(exp: real -> real, n: nat, f: int -> real, shift: real, j: int, total: real, inv: real)
    requires Positive(exp) && total == Partition(exp, n, f, shift) && total > 0.0 && inv == 1.0 / total
    ensures Weight(exp, n, f, shift, j) == inv * Unnormalised(exp, f, shift, j) && Weight(exp, n, f, shift, j) > 0.0
  {
    Quotient(Unnormalised(exp, f, shift, j), total);
  }

  lemma Quotient(x: real, y: real)
    requires y > 0.0
    ensures x / y == (1.0 / y) * x == x * (1.0 / y)
    ensures x > 0.0 ==> x / y > 0.0
  {
  }

  /** exp turns sums into products. */
  ghost predicate Exponential(exp: real -> real) {
    Positive(exp) && forall x, y :: Multiplies(exp, x, y)
  }

  predicate Multiplies(exp: real -> real, x: real, y: real) {
    exp(x + y) == exp(x) * exp(y)
  }

  /** For a true exponential the shift cancels: subtracting the row maximum changes no weight. */
  lemma ShiftCancels(exp: real -> real, n: nat, f: int -> real, shift: real, j: int)
    requires n > 0 && Exponential(exp)
    ensures Weight(exp, n, f, shift, j) == Weight(exp, n, f, 0.0, j)
  {
    ShiftFactors(exp, n, f, shift, j);
    PartitionPositive(exp, n, f, shift);
    PartitionPositive(exp, n, f, 0.0);
    CancelFactor(exp(-shift), Unnormalised(exp, f, 0.0, j), Partition(exp, n, f, 0.0));
  }

  lemma {:induction false} ShiftFactors(exp: real -> real, n: nat, f: int -> real, shift: real, j: int)
    requires Exponential(exp)
    ensures Unnormalised(exp, f, shift, j) == exp(-shift) * Unnormalised(exp, f, 0.0, j)
    ensures Partition(exp, n, f, shift) == exp(-shift) * Partition(exp, n, f, 0.0)
  {
    assert Multiplies(exp, -shift, f(j));
    assert -shift + f(j) == f(j) - shift && f(j) - 0.0 == f(j);
    if n > 0 {
      ShiftFactors(exp, n - 1, f, shift, n - 1);
    }
  }

  lemma CancelFactor(c: real, x: real, y: real)
    requires c > 0.0 && y > 0.0 && c * y > 0.0
    ensures (c * x) / (c * y) == x / y
  {
    var q := x / y;
    assert x == q * y;
    assert c * x == q * (c * y);
  }

  /** The sum of the exponentials of a row, nothing subtracted. */
  function ExpSum(exp: real -> real, n: nat, f: int -> real): real {
    Sum(n, i => exp(f(i)))
  }

  lemma UnshiftedIsExp(exp: real -> real, n: nat, f: int -> real)
    ensures forall j :: Unnormalised(exp, f, 0.0, j) == exp(f(j))
    ensures Partition(exp, n, f, 0.0) == ExpSum(exp, n, f)
  {
    forall j ensures Unnormalised(exp, f, 0.0, j) == exp(f(j)) { assert f(j) - 0.0 == f(j); }
    SumExt(n, j => Unnormalised(exp, f, 0.0, j), i => exp(f(i)));
  }

  /** The weights of a row, as one function. */
  function Weights(exp: real -> real, n: nat, f: int -> real): int -> real
    requires n > 0
  {
    j => Soft(exp, n, f, j)
  }

  /** w(j) is the share of e(j) in the total z. */
  ghost predicate IsShare(w: int -> real, e: int -> real, z: real, j: int) {
    z > 0.0 && w(j) > 0.0 && w(j) * z == e(j)
  }

  function ExpOf(exp: real -> real, f: int -> real): int -> real {
    j => exp(f(j))
  }

  lemma WeightsAreShares(exp: real -> real, n: nat, f: int -> real, j: int)
    requires n > 0 && Exponential(exp)
    ensures IsShare(Weights(exp, n, f), ExpOf(exp, f), ExpSum(exp, n, f), j)
  {
    WeightIsShare(exp, n, f, j);
  }

  /** The weight of a column is its own exponential's share of the sum. */
  lemma WeightIsShare(exp: real -> real, n: nat, f: int -> real, j: int)
    requires n > 0 && Exponential(exp)
    ensures ExpSum(exp, n, f) > 0.0 && Soft(exp, n, f, j) * ExpSum(exp, n, f) == exp(f(j)) && Soft(exp, n, f, j) > 0.0
  {
    ShiftCancels(exp, n, f, MaxOf(n, f), j);
    PartitionPositive(exp, n, f, 0.0);
    UnshiftedIsExp(exp, n, f);
    WeightAt(exp, n, f, 0.0, j, ExpSum(exp, n, f), 1.0 / ExpSum(exp, n, f));
  }

  /** Two columns weigh as their exponentials. */
  lemma WeightsAreProportional(exp: real -> real, n: nat, f: int -> real, i: int, j: int)
    requires n > 0 && Exponential(exp)
    ensures Soft(exp, n, f, i) * exp(f(j)) == Soft(exp, n, f, j) * exp(f(i))
  {
    WeightIsShare(exp, n, f, i);
    WeightIsShare(exp, n, f, j);
    CrossMultiply(Soft(exp, n, f, i), Soft(exp, n, f, j), exp(f(i)), exp(f(j)), ExpSum(exp, n, f));
  }

  lemma CrossMultiply(x: real, y: real, a: real, b: real, z: real)
    requires x * z == a && y * z == b
    ensures x * b == y * a
  {
    assert x * (y * z) == y * (x * z);
  }

  ghost predicate Increasing(exp: real -> real) {
    forall x, y | x < y :: exp(x) < exp(y)
  }

  /** A larger logit gets a larger weight. */
  lemma LargerLogitWeighsMore(exp: real -> real, n: nat, f: int -> real, i: int, j: int)
    requires n > 0 && Exponential(exp) && Increasing(exp) && f(i) < f(j)
    ensures Soft(exp, n, f, i) < Soft(exp, n, f, j)
  {
    WeightsAreShares(exp, n, f, i);
    WeightsAreShares(exp, n, f, j);
    LargerShare(Weights(exp, n, f), ExpOf(exp, f), ExpSum(exp, n, f), i, j);
  }

  lemma LargerShare(w: int -> real, e: int -> real, z: real, i: int, j: int)
    requires IsShare(w, e, z, i) && IsShare(w, e, z, j) && e(i) < e(j)
    ensures w(i) < w(j)
  {
    SmallerShare(w(i), w(j), e(i), e(j), z);
  }

  lemma SmallerShare(x: real, y: real, a: real, b: real, z: real)
    requires z > 0.0 && x * z == a && y * z == b && a < b
    ensures x < y
  {
    if x >= y { ProductNonNeg(x - y, z, (x - y) * z); }
  }

  lemma SoftExt(exp: real -> real, n: nat, f: int -> real, g: int -> real, j: int)
    requires n > 0 && 0 <= j < n && forall i | 0 <= i < n :: f(i) == g(i)
    ensures Soft(exp, n, f, j) == Soft(exp, n, g, j)
  {
    MaxOfExt(n, f, g);
    var m := MaxOf(n, f);
    SumExt(n, i => Unnormalised(exp, f, m, i), i => Unnormalised(exp, g, m, i));
  }

  /** Component e of one attention row: the rows of v weighted by the softmax of f. */
  function Mix(exp: real -> real, n: nat, f: int -> real, v: (int, int) -> real, e: int): real
    requires n > 0
  {
    Sum(n, j => Soft(exp, n, f, j) * v(j, e))
  }

  /** Attention is the average of the rows of v, each counted by the exponential of its logit. */
  lemma MixIsAverage(exp: real -> real, n: nat, f: int -> real, v: (int, int) -> real, e: int)
    requires n > 0 && Exponential(exp)
    ensures ExpSum(exp, n, f) > 0.0 && Mix(exp, n, f, v, e) * ExpSum(exp, n, f) == Weighted(n, ExpOf(exp, f), v, e)
  {
    forall j
      ensures IsShare(Weights(exp, n, f), ExpOf(exp, f), ExpSum(exp, n, f), j)
    {
      WeightsAreShares(exp, n, f, j);
    }
    SharesTotal(n, Weights(exp, n, f), ExpOf(exp, f), ExpSum(exp, n, f), v, e);
    MixIsWeighted(exp, n, f, Weights(exp, n, f), v, e);
    assert IsShare(Weights(exp, n, f), ExpOf(exp, f), ExpSum(exp, n, f), 0);
  }

  lemma {:induction false} SharesTotal(n: nat, a: int -> real, b: int -> real, z: real, v: (int, int) -> real, e: int)
    requires forall j | 0 <= j < n :: IsShare(a, b, z, j)
    ensures Weighted(n, a, v, e) * z == Weighted(n, b, v, e)
  {
    if n > 0 {
      SharesTotal(n - 1, a, b, z, v, e);
      WeightedGrows(n, a, v, e);
      WeightedGrows(n, b, v, e);
      assert IsShare(a, b, z, n - 1);
      Regroup(Weighted(n - 1, a, v, e), z, a(n - 1), v(n - 1, e), b(n - 1));
    }
  }

  lemma Regroup(w: real, z: real, a: real, x: real, b: real)
    requires a * z == b
    ensures (w + a * x) * z == w * z + b * x
  {
    assert (a * x) * z == (a * z) * x;
  }

  lemma MixExt(exp: real -> real, n: nat, f: int -> real, v: (int, int) -> real,
               g: int -> real, w: (int, int) -> real, e: int, e': int)
    requires n > 0 && forall i | 0 <= i < n :: f(i) == g(i) && v(i, e) == w(i, e')
    ensures Mix(exp, n, f, v, e) == Mix(exp, n, g, w, e')
  {
    var a := Weights(exp, n, f);
    forall j | 0 <= j < n ensures a(j) == Soft(exp, n, g, j) { SoftExt(exp, n, f, g, j); }
    MixIsWeighted(exp, n, f, a, v, e);
    MixIsWeighted(exp, n, g, a, w, e');
    SameWeighted(n, a, v, e, w, e');
  }

  lemma SameWeighted(n: nat, a: int -> real, v: (int, int) -> real, e: int, w: (int, int) -> real, e': int)
    requires forall j | 0 <= j < n :: v(j, e) == w(j, e')
    ensures Weighted(n, a, v, e) == Weighted(n, a, w, e')
  {
    SumExt(n, j => a(j) * v(j, e), j => a(j) * w(j, e'));
  }

  /** b projects the width-m rows of v: component k of row j. */
  function Projected(m: nat, v: (int, int) -> real, b: (int, int) -> real, j: int, k: int): real {
    Sum(m, e => v(j, e) * b(e, k))
  }

  /** Column k of b against component-wise attention: the projection after the mix. */
  function Contracted(exp: real -> real, n: nat, f: int -> real, m: nat, v: (int, int) -> real, b: (int, int) -> real,
                      k: int): real
    requires n > 0
  {
    Sum(m, e => ContractedTerm(exp, n, f, v, b, k, e))
  }

  function ContractedTerm(exp: real -> real, n: nat, f: int -> real, v: (int, int) -> real, b: (int, int) -> real,
                          k: int, e: int): real
    requires n > 0
  {
    Mix(exp, n, f, v, e) * b(e, k)
  }

  /** Attention commutes with a projection of the values. */
  lemma MixCommutes(exp: real -> real, n: nat, f: int -> real, m: nat, v: (int, int) -> real, b: (int, int) -> real,
                    k: int)
    requires n > 0
    ensures Mix(exp, n, f, (j, k') => Projected(m, v, b, j, k'), k) == Contracted(exp, n, f, m, v, b, k)
  {
    var a := (j: int) => Soft(exp, n, f, j);
    var vb := (j: int, k': int) => Projected(m, v, b, j, k');
    MixIsWeighted(exp, n, f, a, vb, k);
    WeightedCommutes(n, a, m, v, b, vb, k);
    ContractedIsWeighted(exp, n, f, a, m, v, b, k);
  }

  lemma MixIsWeighted(exp: real -> real, n: nat, f: int -> real, a: int -> real, v: (int, int) -> real, e: int)
    requires n > 0 && forall j | 0 <= j < n :: a(j) == Soft(exp, n, f, j)
    ensures Mix(exp, n, f, v, e) == Weighted(n, a, v, e)
  {
    SumExt(n, j => a(j) * v(j, e), j => Soft(exp, n, f, j) * v(j, e));
  }

  function WeightedContraction(n: nat, a: int -> real, m: nat, v: (int, int) -> real, b: (int, int) -> real,
                               k: int): real {
    Sum(m, e => Weighted(n, a, v, e) * b(e, k))
  }

  lemma ContractedIsWeighted(exp: real -> real, n: nat, f: int -> real, a: int -> real, m: nat, v: (int, int) -> real,
                             b: (int, int) -> real, k: int)
    requires n > 0 && forall j | 0 <= j < n :: a(j) == Soft(exp, n, f, j)
    ensures Contracted(exp, n, f, m, v, b, k) == WeightedContraction(n, a, m, v, b, k)
  {
    forall e | 0 <= e < m ensures Mix(exp, n, f, v, e) == Weighted(n, a, v, e) {
      MixIsWeighted(exp, n, f, a, v, e);
    }
    SumExt(m, e => ContractedTerm(exp, n, f, v, b, k, e), e => Weighted(n, a, v, e) * b(e, k));
  }

  lemma {:induction false} WeightedCommutes(n: nat, a: int -> real, m: nat, v: (int, int) -> real,
                                            b: (int, int) -> real,
                                            vb: (int, int) -> real, k: int)
    requires forall j | 0 <= j < n :: vb(j, k) == Projected(m, v, b, j, k)
    ensures Weighted(n, a, vb, k) == WeightedContraction(n, a, m, v, b, k)
  {
    if n == 0 {
      forall e | 0 <= e < m ensures Weighted(n, a, v, e) * b(e, k) == 0.0 { assert Weighted(n, a, v, e) == 0.0; }
      SumZero(m, e => Weighted(n, a, v, e) * b(e, k));
    } else {
      WeightedCommutes(n - 1, a, m, v, b, vb, k);
      ContractionGrows(n, a, m, v, b, k);
      WeightedGrows(n, a, vb, k);
    }
  }

  lemma WeightedGrows(n: nat, a: int -> real, v: (int, int) -> real, k: int)
    requires n > 0
    ensures Weighted(n, a, v, k) == Weighted(n - 1, a, v, k) + a(n - 1) * v(n - 1, k)
  {
  }

  lemma ContractionGrows(n: nat, a: int -> real, m: nat, v: (int, int) -> real, b: (int, int) -> real, k: int)
    requires n > 0
    ensures WeightedContraction(n, a, m, v, b, k)
         == WeightedContraction(n - 1, a, m, v, b, k) + a(n - 1) * Projected(m, v, b, n - 1, k)
  {
    var below := (e: int) => Weighted(n - 1, a, v, e) * b(e, k);
    var last := (e: int) => v(n - 1, e) * b(e, k);
    var all := (e: int) => Weighted(n, a, v, e) * b(e, k);
    forall e | 0 <= e < m ensures all(e) == below(e) + a(n - 1) * last(e) {
      Distribute(Weighted(n - 1, a, v, e), a(n - 1), v(n - 1, e), b(e, k));
    }
    SumExtended(m, below, a(n - 1), last, all);
  }

  lemma {:induction false} SumExtended(m: nat, f: int -> real, c: real, g: int -> real, h: int -> real)
    requires forall e | 0 <= e < m :: h(e) == f(e) + c * g(e)
    ensures Sum(m, h) == Sum(m, f) + c * Sum(m, g)
  {
    if m > 0 { SumExtended(m - 1, f, c, g, h); }
  }

  lemma Distribute(w: real, c: real, x: real, b: real)
    ensures (w + c * x) * b == w * b + c * (x * b)
  {
  }
}
