/** The tables a decision projects through: adopted, built from factors, or the weights transposed. */
module Basis {
  import opened Sums
  import opened Layout
  import opened Keep
  import opened Ordering
  import opened Logits
  import opened KernelSpec
  import opened Kernel
  import opened DecideSpec

  /** The first layer of the wrong length. */
  ghost predicate FirstMisfit(layers: seq<seq<real>>, want: nat, e: AperturbError) {
    exists l: nat | l < |layers| ::
      |layers[l]| != want && e == BasisShape(l, |layers[l]|, want) && forall l' | 0 <= l' < l :: |layers[l']| == want
  }

  method FromLayers(layers: seq<seq<real>>, d: nat, rank: nat, frac: Option<real>)
    returns (r: Result<OutputBasis, AperturbError>)
    ensures r.Ok? <==> forall l | 0 <= l < |layers| :: |layers[l]| == d * rank
    ensures r.Ok? ==> r.value == OutputBasis(layers, d, rank, frac) && r.value.WellFormed()
    ensures r.Err? ==> FirstMisfit(layers, d * rank, r.error)
  {
    for l := 0 to |layers|
      invariant forall l' | 0 <= l' < l :: |layers[l']| == d * rank
    {
      if |layers[l]| != d * rank {
        return Err(BasisShape(l, |layers[l]|, d * rank));
      }
    }
    return Ok(OutputBasis(layers, d, rank, frac));
  }

  /** b[e][i] = w[i][e], one row of w at a time. */
  method Transpose(w: seq<real>, dIn: nat, dOut: nat) returns (b: seq<real>)
    requires |w| == dOut * dIn
    ensures IsTable(b, dIn, dOut, (e, i) => At(w, Ix(i, e, dIn)))
  {
    var buf := new real[dIn * dOut](_ => 0.0);
    for i := 0 to dOut
      invariant forall e, i' | 0 <= e < dIn && 0 <= i' < i ::
        0 <= Ix(e, i', dOut) < buf.Length && buf[Ix(e, i', dOut)] == At(w, Ix(i', e, dIn))
    {
      TransposeRow(w, buf, dIn, dOut, i);
    }
    b := buf[..];
  }

  method TransposeRow(w: seq<real>, buf: array<real>, dIn: nat, dOut: nat, i: nat)
    requires |w| == dOut * dIn && i < dOut && buf.Length == dIn * dOut
    modifies buf
    ensures forall e, i' | 0 <= e < dIn && 0 <= i' < dOut ::
      && 0 <= Ix(e, i', dOut) < buf.Length
      && buf[Ix(e, i', dOut)] == if i' == i then At(w, Ix(i, e, dIn)) else old(buf[Ix(e, i', dOut)])
  {
    forall e, i' | 0 <= e < dIn && 0 <= i' < dOut
      ensures 0 <= Ix(e, i', dOut) < buf.Length
    {
      IxBound(e, i', dIn, dOut);
    }
    for e := 0 to dIn
      invariant forall e', i' | 0 <= e' < dIn && 0 <= i' < dOut ::
        buf[Ix(e', i', dOut)] == if i' == i && e' < e then At(w, Ix(i, e', dIn)) else old(buf[Ix(e', i', dOut)])
    {
      IxBound(i, e, dOut, dIn);
      SetCell(buf, dIn, dOut, e, i, w[i * dIn + e]);
    }
  }

  /** Store one cell of an m by n table. */
  method SetCell(buf: array<real>, m: nat, n: nat, e: nat, i: nat, x: real)
    requires e < m && i < n && buf.Length == m * n
    modifies buf
    ensures forall e', i' | 0 <= e' < m && 0 <= i' < n ::
      0 <= Ix(e', i', n) < buf.Length && buf[Ix(e', i', n)] == if e' == e && i' == i then x else old(buf[Ix(e', i', n)])
  {
    IxBound(e, i, m, n);
    buf[e * n + i] := x;
    forall e', i' | 0 <= e' < m && 0 <= i' < n
      ensures 0 <= Ix(e', i', n) < buf.Length && (Ix(e', i', n) == Ix(e, i, n) ==> e' == e && i' == i)
    {
      IxBound(e', i', m, n);
      if Ix(e', i', n) == Ix(e, i, n) { IxInjective(e', i', e, i, n); }
    }
  }

  /** The untruncated arm: every weight transposed. */
  method Untruncated(wo: seq<seq<real>>, dIn: nat, dOut: nat) returns (r: Result<OutputBasis, AperturbError>)
    ensures r.Ok? <==> forall l | 0 <= l < |wo| :: |wo[l]| == dOut * dIn
    ensures r.Ok? ==>
      && |r.value.layers| == |wo| && r.value.d == dIn && r.value.rank == dOut && r.value.frac == None
        && r.value.WellFormed()
      && forall l | 0 <= l < |wo| :: IsTable(r.value.layers[l], dIn, dOut, (e, i) => At(wo[l], Ix(i, e, dIn)))
    ensures r.Err? ==> FirstMisfit(wo, dOut * dIn, r.error)
  {
    var layers: seq<seq<real>> := [];
    for l := 0 to |wo|
      invariant |layers| == l && forall l' | 0 <= l' < l :: |wo[l']| == dOut * dIn
      invariant forall l' | 0 <= l' < l :: IsTable(layers[l'], dIn, dOut, (e, i) => At(wo[l'], Ix(i, e, dIn)))
    {
      if |wo[l]| != dOut * dIn {
        return Err(BasisShape(l, |wo[l]|, dOut * dIn));
      }
      var b := Transpose(wo[l], dIn, dOut);
      layers := layers + [b];
    }
    r := FromLayers(layers, dIn, dOut, None);
  }

  /** Projecting through the untruncated table is multiplying by the weight itself: w[t][i] = x[t] . W[i]. */
  lemma UntruncatedIsExact(x: seq<real>, weight: seq<real>, b: seq<real>, rows: nat, dIn: nat, dOut: nat, t: nat,
                           i: nat)
    requires |x| == rows * dIn && |weight| == dOut * dIn && t < rows && i < dOut
    requires IsTable(b, dIn, dOut, (e, i') => At(weight, Ix(i', e, dIn)))
    ensures ProjectCell(x, b, dIn, dOut, t, i) == Dot(dIn, Block(x, t, dIn), Block(weight, i, dIn))
  {
    var (xr, wr) := (Block(x, t, dIn), Block(weight, i, dIn));
    forall e | 0 <= e < dIn ensures RowsOf(b, dOut)(e, i) == At(wr, e) { TransposedCell(weight, b, dIn, dOut, i, e); }
    WeightedIsDot(dIn, xr, wr, RowsOf(b, dOut), i);
  }

  lemma TransposedCell(weight: seq<real>, b: seq<real>, dIn: nat, dOut: nat, i: nat, e: nat)
    requires |weight| == dOut * dIn && i < dOut && e < dIn
    requires IsTable(b, dIn, dOut, (e, i') => At(weight, Ix(i', e, dIn)))
    ensures RowsOf(b, dOut)(e, i) == At(Block(weight, i, dIn), e)
  {
    BlockFits(weight, i, dOut, dIn);
    BlockFits(b, e, dIn, dOut);
    assert b[Ix(e, i, dOut)] == At(weight, Ix(i, e, dIn));
  }

  lemma WeightedIsDot(n: nat, xr: seq<real>, wr: seq<real>, rows: (int, int) -> real, i: int)
    requires forall e | 0 <= e < n :: rows(e, i) == At(wr, e)
    ensures Weighted(n, Elements(xr), rows, i) == Dot(n, xr, wr)
  {
    var c := Elements(xr);
    forall e | 0 <= e < n ensures c(e) * rows(e, i) == Product(xr, wr, e) { assert c(e) == At(xr, e); }
    SumExt(n, e => c(e) * rows(e, i), e => Product(xr, wr, e));
  }

  /** v[e][k] s[k] */
  function FactorCells(v: seq<real>, s: seq<real>, rank: nat): (int, int) -> real {
    (e, k) => Factored(v, s, Ix(e, k, rank), k)
  }

  function Factored(v: seq<real>, s: seq<real>, x: int, k: int): real {
    At(v, x) * At(s, k)
  }

  /** b[e][k] = v[e][k] s[k] */
  method ScaleColumns(v: seq<real>, s: seq<real>, d: nat, rank: nat) returns (b: seq<real>)
    requires |v| == d * rank && |s| == rank
    ensures IsTable(b, d, rank, FactorCells(v, s, rank))
  {
    ghost var f := FactorCells(v, s, rank);
    var buf := new real[d * rank](_ => 0.0);
    for e := 0 to d
      invariant RowsDone(buf[..], 0, e, rank, f)
    {
      RowFits(0, e, d, rank, buf.Length);
      ghost var before := buf[..];
      ScaleRow(v, s, buf, e * rank, rank);
      forall k | 0 <= k < rank ensures buf[0 + e * rank + k] == f(e, k) {
        assert buf[e * rank + k] == Factored(v, s, Ix(e, k, rank), k);
      }
      RowsGrow(before, buf[..], 0, e, rank, f);
    }
    b := buf[..];
  }

  method ScaleRow(v: seq<real>, s: seq<real>, buf: array<real>, at: nat, rank: nat)
    requires at + rank <= buf.Length == |v| && |s| == rank
    modifies buf
    ensures forall x | at <= x < at + rank :: buf[x] == Factored(v, s, x, x - at)
    ensures forall x | 0 <= x < buf.Length && !(at <= x < at + rank) :: buf[x] == old(buf[x])
  {
    for k := 0 to rank
      invariant forall x | 0 <= x < buf.Length ::
        buf[x] == if at <= x < at + k then Factored(v, s, x, x - at) else old(buf[x])
    {
      buf[at + k] := v[at + k] * s[k];
    }
  }

  predicate FactorFits(v: seq<real>, s: seq<real>, d: nat, rank: nat) {
    |v| == d * rank && |s| == rank
  }

  /** e names the first layer whose factors do not fit, and the length of its vectors. */
  ghost predicate FirstFactorMisfit(vr: seq<seq<real>>, sigma: seq<seq<real>>, d: nat, rank: nat, l: int,
                                    e: AperturbError) {
    && 0 <= l < |vr| && l < |sigma| && !FactorFits(vr[l], sigma[l], d, rank) && e == BasisShape(l, |vr[l]|, d * rank)
    && forall l' | 0 <= l' < l :: FactorFits(vr[l'], sigma[l'], d, rank)
  }

  /** Right singular vectors scaled by their singular values, as many layers as both lists hold. */
  method FromFactors(vr: seq<seq<real>>, sigma: seq<seq<real>>, d: nat, rank: nat, frac: real)
    returns (r: Result<OutputBasis, AperturbError>)
    ensures var n := Min(|vr|, |sigma|); r.Ok? <==> forall l | 0 <= l < n :: FactorFits(vr[l], sigma[l], d, rank)
    ensures r.Ok? ==>
      && |r.value.layers| == Min(|vr|, |sigma|) && r.value.WellFormed()
      && r.value.d == d && r.value.rank == rank && r.value.frac == Some(frac)
      && forall l | 0 <= l < |r.value.layers| :: IsTable(r.value.layers[l], d, rank, FactorCells(vr[l], sigma[l], rank))
    ensures r.Err? ==> exists l :: FirstFactorMisfit(vr, sigma, d, rank, l, r.error)
  {
    var layers: seq<seq<real>> := [];
    for l := 0 to Min(|vr|, |sigma|)
      invariant |layers| == l && forall l' | 0 <= l' < l :: FactorFits(vr[l'], sigma[l'], d, rank)
      invariant forall l' | 0 <= l' < l :: IsTable(layers[l'], d, rank, FactorCells(vr[l'], sigma[l'], rank))
    {
      if !FactorFits(vr[l], sigma[l], d, rank) {
        r := Err(BasisShape(l, |vr[l]|, d * rank));
        assert FirstFactorMisfit(vr, sigma, d, rank, l, r.error);
        return;
      }
      var b := ScaleColumns(vr[l], sigma[l], d, rank);
      layers := layers + [b];
    }
    r := FromLayers(layers, d, rank, Some(frac));
  }

  /** Element x of a layer built from factors is element x of the vectors times the singular value of its column. */
  lemma FactorLaw(v: seq<real>, s: seq<real>, b: seq<real>, d: nat, rank: nat, e: nat, k: nat)
    requires |v| == d * rank && |s| == rank && IsTable(b, d, rank, FactorCells(v, s, rank)) && e < d && k < rank
    ensures 0 <= e * rank + k < |b| && b[e * rank + k] == v[e * rank + k] * s[k]
  {
    IxBound(e, k, d, rank);
    assert b[Ix(e, k, rank)] == FactorCells(v, s, rank)(e, k) == Factored(v, s, Ix(e, k, rank), k);
  }
}
