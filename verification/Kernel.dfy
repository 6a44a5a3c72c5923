/** The kernels of one layer, as the loops that fill their output buffers. */
module Kernel {
  import opened Sums
  import opened Layout
  import opened Softmax
  import opened Keep
  import opened Logits
  import opened KernelSpec

  // ----- rows of accumulators

  /** o[at + k] += c * v[from + k] */
  method AddScaled(o: array<real>, at: nat, c: real, v: seq<real>, r: nat)
    requires at + r <= o.Length && |v| == r
    modifies o
    ensures forall k | 0 <= k < r :: o[at + k] == old(o[at + k]) + c * v[k]
    ensures forall x | 0 <= x < o.Length && !(at <= x < at + r) :: o[x] == old(o[x])
  {
    for k := 0 to r
      invariant forall x | 0 <= x < o.Length :: o[x] == old(o[x]) + (if at <= x < at + k then c * v[x - at] else 0.0)
    {
      o[at + k] := o[at + k] + c * v[k];
    }
  }

  method AddScaledAll(acc: array<real>, c: real, v: seq<real>)
    requires acc.Length == |v|
    modifies acc
    ensures forall k | 0 <= k < acc.Length :: acc[k] == old(acc[k]) + c * v[k]
  {
    AddScaled(acc, 0, c, v, |v|);
    forall k | 0 <= k < acc.Length
      ensures acc[k] == old(acc[k]) + c * v[k]
    {
      assert acc[0 + k] == old(acc[0 + k]) + c * v[k];
    }
  }

  method CopyInto(o: array<real>, at: nat, src: seq<real>)
    requires at + |src| <= o.Length
    modifies o
    ensures forall k | 0 <= k < |src| :: o[at + k] == src[k]
    ensures forall x | 0 <= x < o.Length && !(at <= x < at + |src|) :: o[x] == old(o[x])
  {
    for k := 0 to |src|
      invariant forall x | 0 <= x < o.Length :: o[x] == if at <= x < at + k then src[x - at] else old(o[x])
    {
      o[at + k] := src[k];
    }
  }

  method Clear(o: array<real>, at: nat, r: nat)
    requires at + r <= o.Length
    modifies o
    ensures forall x | at <= x < at + r :: o[x] == 0.0
    ensures forall x | 0 <= x < o.Length && !(at <= x < at + r) :: o[x] == old(o[x])
  {
    for k := 0 to r
      invariant forall x | 0 <= x < o.Length :: o[x] == if at <= x < at + k then 0.0 else old(o[x])
    {
      o[at + k] := 0.0;
    }
  }

  // ----- the softmax of one row

  /** The exponentials of one row and the factor that normalises them. */
  method SoftmaxRow(exp: real -> real, zr: seq<real>, li: seq<nat>) returns (a: seq<real>, inv: real)
    requires Positive(exp) && ColumnsFit(li, |zr|)
    ensures |a| == |li| && forall j | 0 <= j < |li| :: Coefs(a, inv)(j) == Soft(exp, |li|, Cols(zr, li), j)
  {
    var f := Cols(zr, li);
    var m: Option<real> := None;
    for j := 0 to |li|
      invariant j == 0 ==> m == None
      invariant j > 0 ==> m == Some(MaxOf(j, f))
    {
      var zp := zr[li[j]];
      if m.None? || zp > m.value {
        m := Some(zp);
      }
    }
    a := [];
    var sum := 0.0;
    for j := 0 to |li|
      invariant |a| == j && sum == Partition(exp, j, f, m.value)
      invariant forall i | 0 <= i < j :: a[i] == Unnormalised(exp, f, m.value, i)
    {
      var e := exp(zr[li[j]] - m.value);
      a := a + [e];
      sum := sum + e;
    }
    PartitionPositive(exp, |li|, f, m.value);
    inv := 1.0 / sum;
    CoefsAreSoft(exp, |li|, f, a, sum, inv);
  }

  lemma CoefsAreSoft(exp: real -> real, n: nat, f: int -> real, a: seq<real>, sum: real, inv: real)
    requires n > 0 && |a| == n && sum == Partition(exp, n, f, MaxOf(n, f)) && sum > 0.0 && inv == 1.0 / sum
    requires forall j | 0 <= j < n :: a[j] == Unnormalised(exp, f, MaxOf(n, f), j)
    ensures forall j | 0 <= j < n :: Coefs(a, inv)(j) == Soft(exp, n, f, j)
  {
    forall j | 0 <= j < n ensures Coefs(a, inv)(j) == Soft(exp, n, f, j) {
      Quotient(a[j], sum);
    }
  }

  function Coefs(a: seq<real>, inv: real): int -> real {
    j => At(a, j) * inv
  }

  // ----- contracting one row: rank at run time, and rank a constant

  lemma ContractionGrows(a: seq<real>, vbh: seq<real>, li: seq<nat>, inv: real, r: nat, j: nat, c: real, row: seq<real>)
    requires j < |a| == |li| && c == a[j] * inv && row == Block(vbh, li[j], r) && |row| == r
    ensures forall k | 0 <= k < r ::
      Weighted(j + 1, Coefs(a, inv), Vals(vbh, r, li), k)
        == Weighted(j, Coefs(a, inv), Vals(vbh, r, li), k) + c * row[k]
  {
  }

  /** The sum over the admitted columns, added to what the row holds. */
  method ContractRowDyn(a: seq<real>, vbh: seq<real>, li: seq<nat>, inv: real, o: array<real>, at: nat, r: nat)
    requires |a| == |li| && at + r <= o.Length && forall j | 0 <= j < |li| :: |Block(vbh, li[j], r)| == r
    modifies o
    ensures forall k | 0 <= k < r :: o[at + k] == old(o[at + k]) + Weighted(|li|, Coefs(a, inv), Vals(vbh, r, li), k)
    ensures forall x | 0 <= x < o.Length && !(at <= x < at + r) :: o[x] == old(o[x])
  {
    var v := Vals(vbh, r, li);
    for j := 0 to |li|
      invariant forall k | 0 <= k < r :: o[at + k] == old(o[at + k]) + Weighted(j, Coefs(a, inv), v, k)
      invariant forall x | 0 <= x < o.Length && !(at <= x < at + r) :: o[x] == old(o[x])
    {
      var (c, row) := (a[j] * inv, Block(vbh, li[j], r));
      ContractionGrows(a, vbh, li, inv, r, j, c, row);
      AddScaled(o, at, c, row, r);
    }
  }

  /** The same sum in an accumulator of its own, which then overwrites the row. */
  method ContractRow(a: seq<real>, vbh: seq<real>, li: seq<nat>, inv: real, o: array<real>, at: nat, r: nat)
    requires |a| == |li| && at + r <= o.Length && forall j | 0 <= j < |li| :: |Block(vbh, li[j], r)| == r
    modifies o
    ensures forall k | 0 <= k < r :: o[at + k] == Weighted(|li|, Coefs(a, inv), Vals(vbh, r, li), k)
    ensures forall x | 0 <= x < o.Length && !(at <= x < at + r) :: o[x] == old(o[x])
  {
    var acc := Accumulated(a, vbh, li, inv, r);
    CopyInto(o, at, acc);
  }

  method Accumulated(a: seq<real>, vbh: seq<real>, li: seq<nat>, inv: real, r: nat) returns (row: seq<real>)
    requires |a| == |li| && forall j | 0 <= j < |li| :: |Block(vbh, li[j], r)| == r
    ensures |row| == r && forall k | 0 <= k < r :: row[k] == Weighted(|li|, Coefs(a, inv), Vals(vbh, r, li), k)
  {
    var acc := new real[r](_ => 0.0);
    for j := 0 to |li|
      invariant forall k | 0 <= k < r :: acc[k] == Weighted(j, Coefs(a, inv), Vals(vbh, r, li), k)
    {
      var (c, row') := (a[j] * inv, Block(vbh, li[j], r));
      ContractionGrows(a, vbh, li, inv, r, j, c, row');
      AddScaledAll(acc, c, row');
    }
    row := acc[..];
  }

  // ----- filling a table row by row

  /** The first n rows of the table at `base` hold f. */
  ghost predicate RowsDone(o: seq<real>, base: nat, n: int, r: nat, f: (int, int) -> real) {
    forall p, k | 0 <= p < n && 0 <= k < r :: 0 <= base + Ix(p, k, r) < |o| && o[base + Ix(p, k, r)] == f(p, k)
  }

  /** o' is o outside [at, at + n). */
  ghost predicate Confined(o: seq<real>, o': seq<real>, at: int, n: int) {
    |o| == |o'| && forall x | 0 <= x < |o| && !(at <= x < at + n) :: o'[x] == o[x]
  }

  /** A store confined to row p leaves the rows before it alone. */
  lemma RowsGrow(o: seq<real>, o': seq<real>, base: nat, p: nat, r: nat, f: (int, int) -> real)
    requires RowsDone(o, base, p, r, f) && 0 <= p * r && base + p * r + r <= |o|
    requires Confined(o, o', base + p * r, r)
    requires forall k | 0 <= k < r :: o'[base + p * r + k] == f(p, k)
    ensures RowsDone(o', base, p + 1, r, f)
  {
    forall p', k | 0 <= p' < p + 1 && 0 <= k < r
      ensures 0 <= base + Ix(p', k, r) < |o'| && o'[base + Ix(p', k, r)] == f(p', k)
    {
      NextRow(-1, p', r);
      if p' < p {
        NextRow(p', p, r);
        assert o[base + Ix(p', k, r)] == f(p', k);
      } else {
        assert o'[base + p * r + k] == f(p, k);
      }
    }
  }

  lemma RowFits(base: nat, p: nat, n: nat, r: nat, length: nat)
    requires p < n && base + n * r <= length
    ensures 0 <= p * r && base + p * r + r <= base + n * r
  {
    NextRow(-1, p, r);
    NextRow(p, n, r);
  }

  // ----- the values seen through the basis

  function ValueRows(vh: seq<real>, bh: seq<real>, dh: nat, r: nat): (int, int) -> real {
    (p, k) => ValueRow(vh, bh, dh, r, p, k)
  }

  lemma ProjectionGrows(vr: seq<real>, bh: seq<real>, r: nat, e: nat, c: real, row: seq<real>)
    requires e < |vr| && c == vr[e] && row == Block(bh, e, r) && |row| == r
    ensures forall k | 0 <= k < r ::
      Weighted(e + 1, Elements(vr), RowsOf(bh, r), k) == Weighted(e, Elements(vr), RowsOf(bh, r), k) + c * row[k]
  {
  }

  /** One row with the rank at run time: cleared, then accumulated in place. */
  method ProjectRowDyn(vr: seq<real>, bh: seq<real>, o: array<real>, at: nat, r: nat)
    requires at + r <= o.Length && forall e | 0 <= e < |vr| :: |Block(bh, e, r)| == r
    modifies o
    ensures forall k | 0 <= k < r :: o[at + k] == Weighted(|vr|, Elements(vr), RowsOf(bh, r), k)
    ensures forall x | 0 <= x < o.Length && !(at <= x < at + r) :: o[x] == old(o[x])
  {
    Clear(o, at, r);
    for e := 0 to |vr|
      invariant forall k | 0 <= k < r :: o[at + k] == Weighted(e, Elements(vr), RowsOf(bh, r), k)
      invariant forall x | 0 <= x < o.Length && !(at <= x < at + r) :: o[x] == old(o[x])
    {
      var (c, row) := (vr[e], Block(bh, e, r));
      ProjectionGrows(vr, bh, r, e, c, row);
      AddScaled(o, at, c, row, r);
    }
  }

  /** One row with the rank a constant: accumulated apart. */
  method ProjectRow(vr: seq<real>, bh: seq<real>, r: nat) returns (row: seq<real>)
    requires forall e | 0 <= e < |vr| :: |Block(bh, e, r)| == r
    ensures |row| == r && forall k | 0 <= k < r :: row[k] == Weighted(|vr|, Elements(vr), RowsOf(bh, r), k)
  {
    var acc := new real[r](_ => 0.0);
    for e := 0 to |vr|
      invariant forall k | 0 <= k < r :: acc[k] == Weighted(e, Elements(vr), RowsOf(bh, r), k)
    {
      var (c, slab) := (vr[e], Block(bh, e, r));
      ProjectionGrows(vr, bh, r, e, c, slab);
      AddScaledAll(acc, c, slab);
    }
    row := acc[..];
  }

  method ProjectHeadDyn(vh: seq<real>, bh: seq<real>, vb: array<real>, base: nat, s: nat, dh: nat, r: nat)
    requires |vh| == s * dh && |bh| == dh * r && base + s * r <= vb.Length
    modifies vb
    ensures RowsDone(vb[..], base, s, r, ValueRows(vh, bh, dh, r))
    ensures forall x | 0 <= x < vb.Length && !(base <= x < base + s * r) :: vb[x] == old(vb[x])
  {
    forall e | 0 <= e < dh ensures |Block(bh, e, r)| == r { BlockFits(bh, e, dh, r); }
    for p := 0 to s
      invariant RowsDone(vb[..], base, p, r, ValueRows(vh, bh, dh, r))
      invariant forall x | 0 <= x < vb.Length && !(base <= x < base + s * r) :: vb[x] == old(vb[x])
    {
      BlockFits(vh, p, s, dh);
      RowFits(base, p, s, r, vb.Length);
      ghost var before := vb[..];
      ProjectRowDyn(Block(vh, p, dh), bh, vb, base + p * r, r);
      RowsGrow(before, vb[..], base, p, r, ValueRows(vh, bh, dh, r));
    }
  }

  method ProjectHead(vh: seq<real>, bh: seq<real>, vb: array<real>, base: nat, s: nat, dh: nat, r: nat)
    requires |vh| == s * dh && |bh| == dh * r && base + s * r <= vb.Length
    modifies vb
    ensures RowsDone(vb[..], base, s, r, ValueRows(vh, bh, dh, r))
    ensures forall x | 0 <= x < vb.Length && !(base <= x < base + s * r) :: vb[x] == old(vb[x])
  {
    forall e | 0 <= e < dh ensures |Block(bh, e, r)| == r { BlockFits(bh, e, dh, r); }
    for p := 0 to s
      invariant RowsDone(vb[..], base, p, r, ValueRows(vh, bh, dh, r))
      invariant forall x | 0 <= x < vb.Length && !(base <= x < base + s * r) :: vb[x] == old(vb[x])
    {
      BlockFits(vh, p, s, dh);
      RowFits(base, p, s, r, vb.Length);
      var row := ProjectRow(Block(vh, p, dh), bh, r);
      ghost var before := vb[..];
      CopyInto(vb, base + p * r, row);
      RowsGrow(before, vb[..], base, p, r, ValueRows(vh, bh, dh, r));
    }
  }

  /** The ranks that get a body of their own. */
  predicate Specialised(r: nat) {
    r == 4 || r == 6 || r == 8 || r == 12 || r == 16 || r == 24 || r == 32
  }

  function ProjectFault(v: seq<real>, basis: seq<real>, vbLen: nat, g: Geom, r: nat): Option<KernelError> {
    OrElse(CheckLen("v", |v|, g.nKvHeads * (g.currentPos * g.headDim)),
    OrElse(CheckLen("basis", |basis|, g.nHeadsQ * (g.headDim * r)),
           CheckLen("projected values", vbLen, g.nHeadsQ * (g.currentPos * r))))
  }

  method ProjectValuesInto(v: seq<real>, basis: seq<real>, vb: array<real>, g: Geom, r: nat)
    returns (res: Result<(), KernelError>)
    requires g.Grouped()
    modifies vb
    ensures match ProjectFault(v, basis, vb.Length, g, r)
      case Some(e) => res == Err(e)
      case None => res.Ok? && IsTable3(vb[..], g.nHeadsQ, g.currentPos, r,
                                       (h, p, k) => ValueCell(v, basis, g, r, h, p, k))
  {
    var fault := ProjectFault(v, basis, vb.Length, g, r);
    if fault.Some? {
      return Err(fault.value);
    }
    ghost var f: (int, int, int) -> real := (h, p, k) => ValueCell(v, basis, g, r, h, p, k);
    for h := 0 to g.nHeadsQ
      invariant HeadsDone(vb[..], h, g.nHeadsQ, g.currentPos, r, f)
    {
      ghost var before := vb[..];
      ghost var rows := ProjectValuesHead(v, basis, vb, g, r, h);
      HeadsGrow(before, vb[..], h, g.nHeadsQ, g.currentPos, r, rows, f);
    }
    return Ok(());
  }

  /** Query head h, by the body its rank has. */
  method ProjectValuesHead(v: seq<real>, basis: seq<real>, vb: array<real>, g: Geom, r: nat, h: nat)
    returns (ghost rows: (int, int) -> real)
    requires g.Grouped() && h < g.nHeadsQ && ProjectFault(v, basis, vb.Length, g, r) == None
    modifies vb
    ensures 0 <= h * (g.currentPos * r) && Confined(old(vb[..]), vb[..], h * (g.currentPos * r), g.currentPos * r)
    ensures RowsDone(vb[..], h * (g.currentPos * r), g.currentPos, r, rows)
    ensures forall p, k :: rows(p, k) == ValueCell(v, basis, g, r, h, p, k)
  {
    var (dh, s) := (g.headDim, g.currentPos);
    BlockFits(v, g.KvHead(h), g.nKvHeads, s * dh);
    BlockFits(basis, h, g.nHeadsQ, dh * r);
    RowFits(0, h, g.nHeadsQ, s * r, vb.Length);
    var (vh, bh) := (GroupBlock(v, g, h), Slab(basis, g, r, h));
    rows := ValueRows(vh, bh, dh, r);
    if Specialised(r) {
      ProjectHead(vh, bh, vb, h * (s * r), s, dh, r);
    } else {
      ProjectHeadDyn(vh, bh, vb, h * (s * r), s, dh, r);
    }
  }

  /** The first h blocks of a three-dimensional table hold f. */
  ghost predicate HeadsDone(o: seq<real>, h: int, l: int, m: nat, n: nat, f: (int, int, int) -> real) {
    && |o| == l * (m * n)
    && forall a, b, c | 0 <= a < h && 0 <= b < m && 0 <= c < n ::
         0 <= Ix3(a, b, c, m, n) < |o| && o[Ix3(a, b, c, m, n)] == f(a, b, c)
  }

  /** A store confined to block h, and complete there, leaves the blocks before it alone. */
  lemma HeadsGrow(o: seq<real>, o': seq<real>, h: nat, l: nat, m: nat, n: nat, rows: (int, int) -> real,
                  f: (int, int, int) -> real)
    requires h < l && HeadsDone(o, h, l, m, n, f) && 0 <= h * (m * n)
    requires Confined(o, o', h * (m * n), m * n)
    requires RowsDone(o', h * (m * n), m, n, rows) && forall b, c | 0 <= b < m && 0 <= c < n :: rows(b, c) == f(h, b, c)
    ensures HeadsDone(o', h + 1, l, m, n, f)
  {
    forall a, b, c | 0 <= a < h + 1 && 0 <= b < m && 0 <= c < n
      ensures 0 <= Ix3(a, b, c, m, n) < |o'| && o'[Ix3(a, b, c, m, n)] == f(a, b, c)
    {
      IxBound(b, c, m, n);
      if a < h {
        NextRow(a, h, m * n);
        assert o[Ix3(a, b, c, m, n)] == f(a, b, c);
      } else {
        assert o'[h * (m * n) + Ix(b, c, n)] == rows(b, c);
      }
    }
  }

  // ----- attention over the retained columns

  /** What row t of a head may attend to: the admitted prefix, a blind row clamped to one column. */
  function Admit(list: seq<nat>, kp: KeyPos, kv: nat, t: nat): seq<nat>
    requires kp.WellFormed() && kv < kp.nKvHeads && t < kp.rows
  {
    var n := if kp.Admitted(kv, t) < 1 then 1 else kp.Admitted(kv, t);
    if n <= |list| then list[..n] else list
  }

  /** The keep-set of one layer and its boundary can be indexed at this geometry. */
  ghost predicate Indexable(keep: KeepSets, layer: nat, kp: KeyPos, g: Geom) {
    && keep.WellFormed() && keep.IsComplete() && layer < keep.nLayers && keep.nKvHeads == g.nKvHeads
    && kp.WellFormed() && kp.nKvHeads == g.nKvHeads && kp.rows == g.rows
    && forall kv: nat | kv < g.nKvHeads :: ListFits(keep.Head(layer, kv), kp, kv, g)
  }

  ghost predicate ListFits(list: seq<nat>, kp: KeyPos, kv: nat, g: Geom)
    requires kp.WellFormed() && kv < kp.nKvHeads && kp.rows == g.rows
  {
    && (forall j | 0 <= j < |list| :: list[j] < g.currentPos)
    && forall t | 0 <= t < g.rows :: kp.Admitted(kv, t) <= |list|
  }

  /** The admitted columns of every query head and row. */
  ghost function LayerCols(keep: KeepSets, layer: nat, kp: KeyPos, g: Geom): (int, int) -> seq<nat>
    requires g.Grouped() && Indexable(keep, layer, kp, g)
  {
    (h, t) => if 0 <= h < g.nHeadsQ && 0 <= t < g.rows then Admit(keep.Head(layer, g.KvHead(h)), kp, g.KvHead(h), t)
      else []
  }

  /** One head: a table of rows, from its logits and its block of values, or the error of an empty list. */
  method HeadRows(exp: real -> real, zh: seq<real>, list: seq<nat>, kp: KeyPos, kv: nat, block: seq<real>, g: Geom,
                  width: nat, constantRank: bool, ghost f: (int, int) -> real)
    returns (res: Result<seq<real>, KernelError>)
    requires Positive(exp) && |zh| == g.rows * g.currentPos && |block| == g.currentPos * width
    requires kp.WellFormed() && kv < kp.nKvHeads && kp.rows == g.rows && ListFits(list, kp, kv, g)
    requires forall t, k | 0 <= t < g.rows && 0 <= k < width ::
      f(t, k) == HeadMix(exp, Block(zh, t, g.currentPos), Admit(list, kp, kv, t), block, width, k)
    ensures |list| == 0 ==> res == Err(NoAdmittedKeys(kv, 0))
    ensures |list| > 0 ==> res.Ok? && IsTable(res.value, g.rows, width, f)
  {
    if |list| == 0 {
      return Err(NoAdmittedKeys(kv, 0));
    }
    var out := new real[g.rows * width](_ => 0.0);
    for t := 0 to g.rows
      invariant RowsDone(out[..], 0, t, width, f)
      invariant forall x | t * width <= x < out.Length :: out[x] == 0.0
    {
      BlockFits(zh, t, g.rows, g.currentPos);
      RowFits(0, t, g.rows, width, out.Length);
      assert (t + 1) * width == t * width + width;
      ghost var before := out[..];
      HeadRow(exp, Block(zh, t, g.currentPos), Admit(list, kp, kv, t), block, out, t * width, width, g.currentPos,
              constantRank);
      RowsGrow(before, out[..], 0, t, width, f);
    }
    return Ok(out[..]);
  }

  /** One row of one head. */
  method HeadRow(exp: real -> real, zr: seq<real>, li: seq<nat>, block: seq<real>, out: array<real>, at: nat,
                 width: nat, ghost s: nat,
                 constantRank: bool)
    requires Positive(exp) && ColumnsFit(li, s) && |zr| == s && |block| == s * width && at + width <= out.Length
    requires forall x | at <= x < at + width :: out[x] == 0.0
    modifies out
    ensures forall k | 0 <= k < width :: out[at + k] == HeadMix(exp, zr, li, block, width, k)
    ensures forall x | 0 <= x < out.Length && !(at <= x < at + width) :: out[x] == old(out[x])
  {
    var a, inv := SoftmaxRow(exp, zr, li);
    forall j | 0 <= j < |li| ensures |Block(block, li[j], width)| == width { BlockFits(block, li[j], s, width); }
    if constantRank {
      ContractRow(a, block, li, inv, out, at, width);
    } else {
      ContractRowDyn(a, block, li, inv, out, at, width);
    }
    forall k | 0 <= k < width ensures out[at + k] == HeadMix(exp, zr, li, block, width, k) {
      MixIsWeighted(exp, |li|, Cols(zr, li), Coefs(a, inv), Vals(block, width, li), k);
    }
  }

  /** The error of the first query head, from h on, whose list is empty. */
  function EmptyFault(keep: KeepSets, layer: nat, g: Geom, h: nat): Option<KernelError>
    requires keep.WellFormed() && keep.IsComplete() && layer < keep.nLayers && keep.nKvHeads == g.nKvHeads
      && g.Grouped()
    decreases g.nHeadsQ - h
  {
    if h >= g.nHeadsQ then None
    else if |keep.Head(layer, g.KvHead(h))| == 0 then Some(NoAdmittedKeys(g.KvHead(h), 0))
    else EmptyFault(keep, layer, g, h + 1)
  }

  lemma {:induction false} NoEmptyFault(keep: KeepSets, layer: nat, g: Geom, h: nat)
    requires keep.WellFormed() && keep.IsComplete() && layer < keep.nLayers && keep.nKvHeads == g.nKvHeads
      && g.Grouped()
    ensures EmptyFault(keep, layer, g, h) == None <==>
      forall h': nat | h <= h' < g.nHeadsQ :: |keep.Head(layer, g.KvHead(h'))| > 0
    decreases g.nHeadsQ - h
  {
    if h < g.nHeadsQ { NoEmptyFault(keep, layer, g, h + 1); }
  }

  /** A head's outcome: the error of its empty list, or its table. */
  ghost predicate HeadOutcome(res: Result<seq<real>, KernelError>, list: seq<nat>, kv: nat, rows: nat, width: nat,
                              f: (int, int) -> real) {
    && (|list| == 0 ==> res == Err(NoAdmittedKeys(kv, 0)))
    && (|list| > 0 ==> res.Ok? && IsTable(res.value, rows, width, f))
  }

  function AttendFault(z: seq<real>, v: seq<real>, xLen: nat, g: Geom): Option<KernelError> {
    OrElse(CheckLen("logits", |z|, g.nHeadsQ * (g.rows * g.currentPos)),
    OrElse(CheckLen("v", |v|, g.nKvHeads * (g.currentPos * g.headDim)),
           CheckLen("x", xLen, g.rows * g.QDim())))
  }

  ghost function AttendRows(exp: real -> real, z: seq<real>, cols: (int, int) -> seq<nat>, v: seq<real>, g: Geom,
                            h: int): (int, int) -> real
    requires g.nKvHeads > 0
  {
    (t, e) => AttendCell(exp, z, cols, v, g, t, h, e)
  }

  /** The rows of every head, before any is copied out. */
  method AttendHeads(exp: real -> real, z: seq<real>, keep: KeepSets, layer: nat, kp: KeyPos, v: seq<real>, g: Geom)
    returns (heads: seq<Result<seq<real>, KernelError>>)
    requires Positive(exp) && g.Grouped() && Indexable(keep, layer, kp, g)
    requires |z| == g.nHeadsQ * (g.rows * g.currentPos) && |v| == g.nKvHeads * (g.currentPos * g.headDim)
    ensures |heads| == g.nHeadsQ
    ensures forall h | 0 <= h < |heads| ::
      HeadOutcome(heads[h], keep.Head(layer, g.KvHead(h)), g.KvHead(h), g.rows, g.headDim,
                  AttendRows(exp, z, LayerCols(keep, layer, kp, g), v, g, h))
  {
    heads := [];
    for h := 0 to g.nHeadsQ
      invariant |heads| == h
      invariant forall h' | 0 <= h' < |heads| ::
        HeadOutcome(heads[h'], keep.Head(layer, g.KvHead(h')), g.KvHead(h'), g.rows, g.headDim,
                    AttendRows(exp, z, LayerCols(keep, layer, kp, g), v, g, h'))
    {
      BlockFits(z, h, g.nHeadsQ, g.rows * g.currentPos);
      BlockFits(v, g.KvHead(h), g.nKvHeads, g.currentPos * g.headDim);
      var res := HeadRows(exp, Block(z, h, g.rows * g.currentPos), keep.Head(layer, g.KvHead(h)), kp, g.KvHead(h),
                          GroupBlock(v, g, h), g, g.headDim, false,
                          AttendRows(exp, z, LayerCols(keep, layer, kp, g), v, g, h));
      heads := heads + [res];
    }
  }

  /** Where head h's part of row t meets the cell (t', h', e). */
  lemma PartOfRow(t: nat, h: nat, t': nat, h': nat, e: nat, m: nat, n: nat)
    requires h < m && h' < m && e < n
    ensures (t * (m * n) + h * n <= Ix3(t', h', e, m, n) < t * (m * n) + h * n + n) <==> t == t' && h == h'
  {
    IxBound(h, 0, m, n);
    IxBound(h', e, m, n);
    if t < t' {
      NextRow(t, t', m * n);
    } else if t' < t {
      NextRow(t', t, m * n);
    } else if h < h' {
      NextRow(h, h', n);
    } else if h' < h {
      NextRow(h', h, n);
    }
  }

  /** The cells of head h in the first t rows are copied; every other cell is as before. */
  ghost predicate CopiedUpTo(x: seq<real>, x': seq<real>, rows: int, m: nat, n: nat, h: int, t: int,
                             f: (int, int) -> real) {
    && |x| == |x'| == rows * (m * n)
    && forall t', h', e | 0 <= t' < rows && 0 <= h' < m && 0 <= e < n ::
         && 0 <= Ix3(t', h', e, m, n) < |x|
         && x'[Ix3(t', h', e, m, n)] == if h' == h && t' < t then f(t', e) else x[Ix3(t', h', e, m, n)]
  }

  lemma CopiedRow(x: seq<real>, x1: seq<real>, x2: seq<real>, rows: nat, m: nat, n: nat, h: nat, t: nat,
                  f: (int, int) -> real)
    requires CopiedUpTo(x, x1, rows, m, n, h, t, f) && t < rows && h < m
    requires 0 <= t * (m * n) + h * n && t * (m * n) + h * n + n <= |x|
    requires Confined(x1, x2, t * (m * n) + h * n, n)
    requires forall e | 0 <= e < n :: x2[t * (m * n) + h * n + e] == f(t, e)
    ensures CopiedUpTo(x, x2, rows, m, n, h, t + 1, f)
  {
    forall t', h', e | 0 <= t' < rows && 0 <= h' < m && 0 <= e < n
      ensures x2[Ix3(t', h', e, m, n)] == if h' == h && t' < t + 1 then f(t', e) else x[Ix3(t', h', e, m, n)]
    {
      PartOfRow(t, h, t', h', e, m, n);
      if t' == t && h' == h { assert x2[t * (m * n) + h * n + e] == f(t, e); }
    }
  }

  method CopyHead(x: array<real>, h: nat, out: seq<real>, rows: nat, m: nat, n: nat, ghost f: (int, int) -> real)
    requires h < m && x.Length == rows * (m * n) && IsTable(out, rows, n, f)
    modifies x
    ensures CopiedUpTo(old(x[..]), x[..], rows, m, n, h, rows, f)
  {
    ghost var before := x[..];
    forall t, h', e | 0 <= t < rows && 0 <= h' < m && 0 <= e < n ensures 0 <= Ix3(t, h', e, m, n) < x.Length {
      Ix3Bound(t, h', e, rows, m, n);
    }
    for t := 0 to rows
      invariant CopiedUpTo(before, x[..], rows, m, n, h, t, f)
    {
      BlockFits(out, t, rows, n);
      IxBound(t, 0, rows, 1);
      NextRow(-1, h, n);
      NextRow(h, m, n);
      NextRow(-1, t, m * n);
      NextRow(t, rows, m * n);
      ghost var x1 := x[..];
      CopyInto(x, t * (m * n) + h * n, Block(out, t, n));
      forall e | 0 <= e < n ensures Block(out, t, n)[e] == f(t, e) { assert out[Ix(t, e, n)] == f(t, e); }
      CopiedRow(before, x1, x[..], rows, m, n, h, t, f);
    }
  }

  /** The heads below h are in place. */
  ghost predicate HeadsCopied(x: seq<real>, rows: int, m: nat, n: nat, h: int, f: (int, int, int) -> real) {
    && |x| == rows * (m * n)
    && forall t, h', e | 0 <= t < rows && 0 <= h' < h && h' < m && 0 <= e < n ::
         0 <= Ix3(t, h', e, m, n) < |x| && x[Ix3(t, h', e, m, n)] == f(t, h', e)
  }

  lemma HeadsCopiedGrow(x: seq<real>, x': seq<real>, rows: nat, m: nat, n: nat, h: nat, fh: (int, int) -> real,
                        f: (int, int, int) -> real)
    requires HeadsCopied(x, rows, m, n, h, f) && CopiedUpTo(x, x', rows, m, n, h, rows, fh)
    requires forall t, e | 0 <= t < rows && 0 <= e < n :: fh(t, e) == f(t, h, e)
    ensures HeadsCopied(x', rows, m, n, h + 1, f)
  {
    forall t, h', e | 0 <= t < rows && 0 <= h' < h + 1 && h' < m && 0 <= e < n
      ensures 0 <= Ix3(t, h', e, m, n) < |x'| && x'[Ix3(t, h', e, m, n)] == f(t, h', e)
    {
      if h' < h { assert x[Ix3(t, h', e, m, n)] == f(t, h', e); }
    }
  }

  /**
   * The pre-projection rows of one layer: every cell is the softmax attention of its head over
   * the admitted columns. The first query head with an empty list stops the layer.
   */
  method AttendInto(exp: real -> real, z: seq<real>, keep: KeepSets, layer: nat, kp: KeyPos, v: seq<real>,
                    x: array<real>, g: Geom)
    returns (res: Result<(), KernelError>)
    requires Positive(exp) && g.Grouped() && Indexable(keep, layer, kp, g)
    modifies x
    ensures match OrElse(AttendFault(z, v, x.Length, g), EmptyFault(keep, layer, g, 0))
      case Some(e) => res == Err(e)
      case None =>
        && res.Ok? && Admits(LayerCols(keep, layer, kp, g), g)
        && IsTable3(x[..], g.rows, g.nHeadsQ, g.headDim,
                    (t, h, e) => AttendCell(exp, z, LayerCols(keep, layer, kp, g), v, g, t, h, e))
  {
    var fault := AttendFault(z, v, x.Length, g);
    if fault.Some? {
      return Err(fault.value);
    }
    ghost var cols := LayerCols(keep, layer, kp, g);
    ghost var f: (int, int, int) -> real := (t, h, e) => AttendCell(exp, z, cols, v, g, t, h, e);
    var heads := AttendHeads(exp, z, keep, layer, kp, v, g);
    for h := 0 to g.nHeadsQ
      invariant EmptyFault(keep, layer, g, 0) == EmptyFault(keep, layer, g, h)
      invariant HeadsCopied(x[..], g.rows, g.nHeadsQ, g.headDim, h, f)
    {
      if heads[h].Err? {
        return Err(heads[h].error);
      }
      ghost var before := x[..];
      CopyHead(x, h, heads[h].value, g.rows, g.nHeadsQ, g.headDim, AttendRows(exp, z, cols, v, g, h));
      HeadsCopiedGrow(before, x[..], g.rows, g.nHeadsQ, g.headDim, h, AttendRows(exp, z, cols, v, g, h), f);
    }
    AllAdmit(keep, layer, kp, g);
    return Ok(());
  }

  lemma AllAdmit(keep: KeepSets, layer: nat, kp: KeyPos, g: Geom)
    requires g.Grouped() && Indexable(keep, layer, kp, g) && EmptyFault(keep, layer, g, 0) == None
    ensures Admits(LayerCols(keep, layer, kp, g), g)
  {
    NoEmptyFault(keep, layer, g, 0);
    forall h, t | 0 <= h < g.nHeadsQ && 0 <= t < g.rows
      ensures ColumnsFit(LayerCols(keep, layer, kp, g)(h, t), g.currentPos)
    {
      assert ListFits(keep.Head(layer, g.KvHead(h)), kp, g.KvHead(h), g);
    }
  }

  // ----- the fused readout

  /** The length of w fixes the rank: r cells for each row. */
  function FusedFault(z: seq<real>, vbLen: nat, wLen: nat, g: Geom): Option<KernelError> {
    OrElse(CheckLen("logits", |z|, g.nHeadsQ * (g.rows * g.currentPos)),
    if g.rows == 0 || wLen % g.rows != 0 then Some(BadLen("readout", wLen, g.rows))
    else CheckLen("projected values", vbLen, g.nHeadsQ * (g.currentPos * (wLen / g.rows))))
  }

  ghost function FusedRows(exp: real -> real, z: seq<real>, cols: (int, int) -> seq<nat>, vb: seq<real>, g: Geom,
                           r: nat, h: int): (int, int) -> real {
    (t, k) => FusedTerm(exp, z, cols, vb, g, r, t, k, h)
  }

  method FusedHeads(exp: real -> real, z: seq<real>, keep: KeepSets, layer: nat, kp: KeyPos, vb: seq<real>, g: Geom,
                    r: nat)
    returns (heads: seq<Result<seq<real>, KernelError>>)
    requires Positive(exp) && g.Grouped() && Indexable(keep, layer, kp, g)
    requires |z| == g.nHeadsQ * (g.rows * g.currentPos) && |vb| == g.nHeadsQ * (g.currentPos * r)
    ensures |heads| == g.nHeadsQ
    ensures forall h | 0 <= h < |heads| ::
      HeadOutcome(heads[h], keep.Head(layer, g.KvHead(h)), g.KvHead(h), g.rows, r,
                  FusedRows(exp, z, LayerCols(keep, layer, kp, g), vb, g, r, h))
  {
    heads := [];
    for h := 0 to g.nHeadsQ
      invariant |heads| == h
      invariant forall h' | 0 <= h' < |heads| ::
        HeadOutcome(heads[h'], keep.Head(layer, g.KvHead(h')), g.KvHead(h'), g.rows, r,
                    FusedRows(exp, z, LayerCols(keep, layer, kp, g), vb, g, r, h'))
    {
      var res := FusedHead(exp, z, keep, layer, kp, vb, g, r, h);
      heads := heads + [res];
    }
  }

  method FusedHead(exp: real -> real, z: seq<real>, keep: KeepSets, layer: nat, kp: KeyPos, vb: seq<real>, g: Geom,
                   r: nat, h: nat)
    returns (res: Result<seq<real>, KernelError>)
    requires Positive(exp) && g.Grouped() && Indexable(keep, layer, kp, g) && h < g.nHeadsQ
    requires |z| == g.nHeadsQ * (g.rows * g.currentPos) && |vb| == g.nHeadsQ * (g.currentPos * r)
    ensures HeadOutcome(res, keep.Head(layer, g.KvHead(h)), g.KvHead(h), g.rows, r,
                        FusedRows(exp, z, LayerCols(keep, layer, kp, g), vb, g, r, h))
  {
    BlockFits(z, h, g.nHeadsQ, g.rows * g.currentPos);
    BlockFits(vb, h, g.nHeadsQ, g.currentPos * r);
    res := HeadRows(exp, Block(z, h, g.rows * g.currentPos), keep.Head(layer, g.KvHead(h)), kp, g.KvHead(h),
                    Block(vb, h, g.currentPos * r), g, r, Specialised(r),
                    FusedRows(exp, z, LayerCols(keep, layer, kp, g), vb, g, r, h));
  }

  method AddAll(w: array<real>, o: seq<real>)
    requires w.Length == |o|
    modifies w
    ensures forall x | 0 <= x < w.Length :: w[x] == old(w[x]) + o[x]
  {
    for i := 0 to w.Length
      invariant forall x | 0 <= x < w.Length :: w[x] == if x < i then old(w[x]) + o[x] else old(w[x])
    {
      w[i] := w[i] + o[i];
    }
  }

  /** The readout of the heads below n. */
  ghost function PartialReadout(exp: real -> real, z: seq<real>, cols: (int, int) -> seq<nat>, vb: seq<real>, g: Geom,
                                r: nat, n: nat): (int, int) -> real {
    (t, k) => Sum(n, h => FusedTerm(exp, z, cols, vb, g, r, t, k, h))
  }

  lemma ReadoutGrows(w: seq<real>, o: seq<real>, w': seq<real>, exp: real -> real, z: seq<real>,
                     cols: (int, int) -> seq<nat>,
                     vb: seq<real>, g: Geom, r: nat, n: nat)
    requires IsTable(w, g.rows, r, PartialReadout(exp, z, cols, vb, g, r, n))
    requires IsTable(o, g.rows, r, FusedRows(exp, z, cols, vb, g, r, n))
    requires |w'| == |w| && forall x | 0 <= x < |w| :: w'[x] == w[x] + o[x]
    ensures IsTable(w', g.rows, r, PartialReadout(exp, z, cols, vb, g, r, n + 1))
  {
    forall t, k | 0 <= t < g.rows && 0 <= k < r
      ensures 0 <= Ix(t, k, r) < |w'| && w'[Ix(t, k, r)] == PartialReadout(exp, z, cols, vb, g, r, n + 1)(t, k)
    {
      assert w[Ix(t, k, r)] == PartialReadout(exp, z, cols, vb, g, r, n)(t, k);
      assert o[Ix(t, k, r)] == FusedRows(exp, z, cols, vb, g, r, n)(t, k);
    }
  }

  /** Fused attention and projection of one layer: softmax rows over the admitted columns of z, contracted with vb. */
  method AttendProjectInto(exp: real -> real, z: seq<real>, keep: KeepSets, layer: nat, kp: KeyPos, vb: seq<real>,
                           w: array<real>, g: Geom)
    returns (res: Result<(), KernelError>)
    requires Positive(exp) && g.Grouped() && Indexable(keep, layer, kp, g)
    modifies w
    ensures match OrElse(FusedFault(z, |vb|, w.Length, g), EmptyFault(keep, layer, g, 0))
      case Some(e) => res == Err(e)
      case None =>
        && res.Ok? && Admits(LayerCols(keep, layer, kp, g), g)
        && IsTable(w[..], g.rows, w.Length / g.rows,
                   (t, k) => FusedCell(exp, z, LayerCols(keep, layer, kp, g), vb, g, w.Length / g.rows, t, k))
  {
    var fault := FusedFault(z, |vb|, w.Length, g);
    if fault.Some? {
      return Err(fault.value);
    }
    var r := w.Length / g.rows;
    assert w.Length == g.rows * r;
    ghost var cols := LayerCols(keep, layer, kp, g);
    var heads := FusedHeads(exp, z, keep, layer, kp, vb, g, r);
    Clear(w, 0, w.Length);
    ZeroReadout(w[..], exp, z, cols, vb, g, r);
    for h := 0 to g.nHeadsQ
      invariant EmptyFault(keep, layer, g, 0) == EmptyFault(keep, layer, g, h)
      invariant IsTable(w[..], g.rows, r, PartialReadout(exp, z, cols, vb, g, r, h))
    {
      if heads[h].Err? {
        return Err(heads[h].error);
      }
      ghost var before := w[..];
      AddAll(w, heads[h].value);
      ReadoutGrows(before, heads[h].value, w[..], exp, z, cols, vb, g, r, h);
    }
    AllAdmit(keep, layer, kp, g);
    return Ok(());
  }

  lemma ZeroReadout(w: seq<real>, exp: real -> real, z: seq<real>, cols: (int, int) -> seq<nat>, vb: seq<real>, g: Geom,
                    r: nat)
    requires |w| == g.rows * r && forall x | 0 <= x < |w| :: w[x] == 0.0
    ensures IsTable(w, g.rows, r, PartialReadout(exp, z, cols, vb, g, r, 0))
  {
    forall t, k | 0 <= t < g.rows && 0 <= k < r ensures 0 <= Ix(t, k, r) < |w| {
      IxBound(t, k, g.rows, r);
    }
  }

  // ----- the projection on its own

  method ProjectInto(x: seq<real>, basis: seq<real>, w: array<real>, rows: nat, d: nat, r: nat)
    requires |x| == rows * d && |basis| == d * r && w.Length == rows * r
    modifies w
    ensures IsTable(w[..], rows, r, (t, k) => ProjectCell(x, basis, d, r, t, k))
  {
    ghost var f: (int, int) -> real := (t, k) => ProjectCell(x, basis, d, r, t, k);
    for t := 0 to rows
      invariant RowsDone(w[..], 0, t, r, f)
    {
      BlockFits(x, t, rows, d);
      RowFits(0, t, rows, r, w.Length);
      ghost var before := w[..];
      ProjectIntoRow(Block(x, t, d), basis, w, t * r, r);
      RowsGrow(before, w[..], 0, t, r, f);
    }
  }

  /** One row; a zero component is skipped. */
  method ProjectIntoRow(xr: seq<real>, basis: seq<real>, w: array<real>, at: nat, r: nat)
    requires |basis| == |xr| * r && at + r <= w.Length
    modifies w
    ensures forall k | 0 <= k < r :: w[at + k] == Weighted(|xr|, Elements(xr), RowsOf(basis, r), k)
    ensures forall y | 0 <= y < w.Length && !(at <= y < at + r) :: w[y] == old(w[y])
  {
    Clear(w, at, r);
    for e := 0 to |xr|
      invariant forall k | 0 <= k < r :: w[at + k] == Weighted(e, Elements(xr), RowsOf(basis, r), k)
      invariant forall y | 0 <= y < w.Length && !(at <= y < at + r) :: w[y] == old(w[y])
    {
      BlockFits(basis, e, |xr|, r);
      var (xe, row) := (xr[e], Block(basis, e, r));
      ProjectionGrows(xr, basis, r, e, xe, row);
      if xe != 0.0 {
        AddScaled(w, at, xe, row, r);
      }
    }
  }
}
