/** The shared logit block, computed eight query rows and four components at a time. */
module Logits {
  import opened Sums
  import opened Layout
  import opened Keep
  import opened Ordering

  const TB: nat := 8
  const VW: nat := 4

  /** The extents every flat buffer is indexed by. */
  datatype Geom = Geom(nLayers: nat, nHeadsQ: nat, nKvHeads: nat, headDim: nat, currentPos: nat, rows: nat) {

    /** How many consecutive query heads share a KV head, never zero. */
    function NRep(): nat
      requires nKvHeads > 0
    {
      if nHeadsQ / nKvHeads > 1 then nHeadsQ / nKvHeads else 1
    }

    function QDim(): nat {
      nHeadsQ * headDim
    }

    /** The KV group of query head h. */
    function KvHead(h: nat): nat
      requires nKvHeads > 0
    {
      h / NRep()
    }

    /** Every query head has a group: true of every ratio that divides. */
    ghost predicate Grouped() {
      nKvHeads > 0 && forall h: nat | h < nHeadsQ :: KvHead(h) < nKvHeads
    }
  }

  /** Grouped-query ratios that divide, and fewer query heads than groups, both give groups. */
  lemma DividingRatioIsGrouped(g: Geom, ratio: nat)
    requires g.nKvHeads > 0 && (g.nHeadsQ == ratio * g.nKvHeads || g.nHeadsQ <= g.nKvHeads)
    ensures g.Grouped()
  {
    if g.nHeadsQ == ratio * g.nKvHeads {
      ExactQuotient(ratio, g.nKvHeads);
    }
    forall h: nat | h < g.nHeadsQ ensures g.KvHead(h) < g.nKvHeads {
      if g.NRep() > 1 { QuotientBelow(h, g.NRep(), g.nKvHeads); }
    }
  }

  lemma ExactQuotient(n: nat, m: nat)
    requires m > 0
    ensures (n * m) / m == n
  {
    var (q, r) := ((n * m) / m, (n * m) % m);
    assert n * m == q * m + r;
    if q < n { NextRow(q, n, m); }
    if n < q { NextRow(n, q, m); }
  }

  lemma QuotientBelow(h: nat, n: nat, m: nat)
    requires n > 0 && h < n * m
    ensures h / n < m
  {
    assert h == (h / n) * n + h % n;
    if h / n >= m { NextRow(m - 1, h / n, n); }
  }

  datatype KernelError =
    | NoAdmittedKeys(kvHead: nat, row: nat)
    | BadLen(what: string, got: nat, want: nat)

  function CheckLen(what: string, got: nat, want: nat): Option<KernelError> {
    if got == want then None else Some(BadLen(what, got, want))
  }

  function OrElse(a: Option<KernelError>, b: Option<KernelError>): Option<KernelError> {
    if a.Some? then a else b
  }

  // ----- the specification: a plain dot product

  function Product(a: seq<real>, b: seq<real>, e: int): real {
    At(a, e) * At(b, e)
  }

  function Dot(n: nat, a: seq<real>, b: seq<real>): real {
    Sum(n, e => Product(a, b, e))
  }

  /** The query row t of head h. */
  function QueryRow(q: seq<real>, g: Geom, h: int, t: int): seq<real> {
    Block(Block(q, h, g.rows * g.headDim), t, g.headDim)
  }

  /** The row p of KV head `kv` in a head-major cache. */
  function CacheRow(k: seq<real>, g: Geom, kv: int, p: int): seq<real> {
    Block(Block(k, kv, g.currentPos * g.headDim), p, g.headDim)
  }

  /** The logit of query row t of head h against cache position p; root is the square root of the head dimension. */
  function Logit(q: seq<real>, k: seq<real>, g: Geom, root: real, h: int, t: int, p: int): real
    requires g.nKvHeads > 0 && root != 0.0
  {
    if h < 0 then 0.0 else Dot(g.headDim, QueryRow(q, g, h, t), CacheRow(k, g, g.KvHead(h), p)) / root
  }

  function LogitFault(q: seq<real>, k: seq<real>, zLen: nat, g: Geom): Option<KernelError> {
    OrElse(CheckLen("q", |q|, g.nHeadsQ * (g.rows * g.headDim)),
    OrElse(CheckLen("k", |k|, g.nKvHeads * (g.currentPos * g.headDim)),
           CheckLen("logits", zLen, g.nHeadsQ * (g.rows * g.currentPos))))
  }

  // ----- one block of query rows against one key

  /** The lanes of row i hold a partial dot product of c components. */
  ghost predicate Lanes(acc: array2<real>, i: int, c: nat, qr: seq<real>, kr: seq<real>)
    reads acc
    requires acc.Length0 == TB && acc.Length1 == VW && 0 <= i < TB
  {
    acc[i, 0] + acc[i, 1] + acc[i, 2] + acc[i, 3] == Dot(c, qr, kr)
  }

  /** Four more components of one row, one per lane. */
  method AddLanes(acc: array2<real>, i: nat, c: nat, qr: seq<real>, kr: seq<real>)
    requires acc.Length0 == TB && acc.Length1 == VW && i < TB
    requires c + VW <= |qr| && c + VW <= |kr|
    requires Lanes(acc, i, c, qr, kr)
    modifies acc
    ensures Lanes(acc, i, c + VW, qr, kr)
    ensures forall i', e | 0 <= i' < TB && 0 <= e < VW && i' != i :: acc[i', e] == old(acc[i', e])
  {
    for e := 0 to VW
      invariant forall e' | 0 <= e' < VW ::
        acc[i, e'] == if e' < e then old(acc[i, e']) + Product(qr, kr, c + e') else old(acc[i, e'])
      invariant forall i', e' | 0 <= i' < TB && 0 <= e' < VW && i' != i :: acc[i', e'] == old(acc[i', e'])
    {
      acc[i, e] := acc[i, e] + qr[c + e] * kr[c + e];
    }
    FourMore(c, e => Product(qr, kr, e));
  }

  lemma FourMore(c: nat, f: int -> real)
    ensures Sum(c + 4, f) == Sum(c, f) + f(c) + f(c + 1) + f(c + 2) + f(c + 3)
  {
    assert Sum(c + 2, f) == Sum(c, f) + f(c) + f(c + 1);
  }

  /** Row i of the block of query rows that starts at t0. */
  function RowOf(qh: seq<real>, t0: nat, i: int, dh: nat): seq<real> {
    Block(qh, t0 + i, dh)
  }

  /** Components c, ..., c + 3 of every row of the block. */
  method AddBlock(acc: array2<real>, c: nat, qh: seq<real>, kr: seq<real>, t0: nat, nb: nat, dh: nat)
    requires acc.Length0 == TB && acc.Length1 == VW && nb <= TB && c + VW <= dh == |kr|
    requires forall i | 0 <= i < nb :: |RowOf(qh, t0, i, dh)| == dh && Lanes(acc, i, c, RowOf(qh, t0, i, dh), kr)
    modifies acc
    ensures forall i | 0 <= i < nb :: Lanes(acc, i, c + VW, RowOf(qh, t0, i, dh), kr)
  {
    for i := 0 to nb
      invariant forall i' | 0 <= i' < i :: Lanes(acc, i', c + VW, RowOf(qh, t0, i', dh), kr)
      invariant forall i' | i <= i' < nb :: Lanes(acc, i', c, RowOf(qh, t0, i', dh), kr)
    {
      AddLanes(acc, i, c, RowOf(qh, t0, i, dh), kr);
    }
  }

  /** Fold the lanes of one row, then the components a four-wide block cannot cover. */
  method FoldLanes(acc: array2<real>, i: nat, blocked: nat, qr: seq<real>, kr: seq<real>, dh: nat) returns (sum: real)
    requires acc.Length0 == TB && acc.Length1 == VW && i < TB && blocked <= dh == |qr| == |kr|
    requires Lanes(acc, i, blocked, qr, kr)
    ensures sum == Dot(dh, qr, kr)
  {
    sum := (acc[i, 0] + acc[i, 1]) + (acc[i, 2] + acc[i, 3]);
    for e := blocked to dh
      invariant sum == Dot(e, qr, kr)
    {
      sum := sum + qr[e] * kr[e];
    }
  }

  /** The lanes of every row of the block, over the components four-wide steps cover. */
  method BlockLanes(qh: seq<real>, kr: seq<real>, t0: nat, nb: nat, dh: nat, blocked: nat) returns (acc: array2<real>)
    requires nb <= TB && |kr| == dh && blocked <= dh && blocked % VW == 0
    requires forall i | 0 <= i < nb :: |RowOf(qh, t0, i, dh)| == dh
    ensures acc.Length0 == TB && acc.Length1 == VW
    ensures forall i | 0 <= i < nb :: Lanes(acc, i, blocked, RowOf(qh, t0, i, dh), kr)
  {
    acc := new real[TB, VW]((_, _) => 0.0);
    forall i | 0 <= i < nb ensures Lanes(acc, i, 0, RowOf(qh, t0, i, dh), kr) {}
    var c := 0;
    while c < blocked
      invariant 0 <= c <= blocked && c % VW == 0 && fresh(acc)
      invariant forall i | 0 <= i < nb :: Lanes(acc, i, c, RowOf(qh, t0, i, dh), kr)
    {
      AddBlock(acc, c, qh, kr, t0, nb, dh);
      c := c + VW;
    }
  }

  /** The dot products of query rows t0, ..., t0 + nb - 1 with one key. */
  method BlockScores(qh: seq<real>, kr: seq<real>, t0: nat, nb: nat, dh: nat) returns (sums: seq<real>)
    requires nb <= TB && |kr| == dh
    requires forall i | 0 <= i < nb :: |RowOf(qh, t0, i, dh)| == dh
    ensures |sums| == nb && forall i | 0 <= i < nb :: sums[i] == Dot(dh, RowOf(qh, t0, i, dh), kr)
  {
    var blocked := dh - dh % VW;
    var acc := BlockLanes(qh, kr, t0, nb, dh, blocked);
    sums := [];
    for i := 0 to nb
      invariant forall i' | 0 <= i' < nb :: Lanes(acc, i', blocked, RowOf(qh, t0, i', dh), kr)
      invariant |sums| == i && forall i' | 0 <= i' < i :: sums[i'] == Dot(dh, RowOf(qh, t0, i', dh), kr)
    {
      var sum := FoldLanes(acc, i, blocked, RowOf(qh, t0, i, dh), kr, dh);
      sums := sums + [sum];
    }
  }

  // ----- one head, and the whole block

  /** What cell (t, p) of one head's block must hold. */
  function HeadLogit(qh: seq<real>, kh: seq<real>, dh: nat, root: real, t: int, p: int): real
    requires root != 0.0
  {
    Dot(dh, Block(qh, t, dh), Block(kh, p, dh)) / root
  }

  /** Store one cell of the table at `base`, and count the store. */
  method WriteCell(z: array<real>, ghost writes: seq<nat>, base: nat, rows: nat, s: nat, t: nat, p: nat, x: real)
    returns (ghost writes': seq<nat>)
    requires t < rows && p < s && base + rows * s <= z.Length == |writes|
    modifies z
    ensures |writes'| == |writes|
    ensures forall t', p' | 0 <= t' < rows && 0 <= p' < s ::
      0 <= base + Ix(t', p', s) < z.Length
      && z[base + Ix(t', p', s)] == (if t' == t && p' == p then x else old(z[base + Ix(t', p', s)]))
      && writes'[base + Ix(t', p', s)] == writes[base + Ix(t', p', s)] + (if t' == t && p' == p then 1 else 0)
    ensures forall y | 0 <= y < z.Length && !(base <= y < base + rows * s) ::
      z[y] == old(z[y]) && writes'[y] == writes[y]
  {
    IxBound(t, p, rows, s);
    var at := base + Ix(t, p, s);
    z[at] := x;
    writes' := writes[at := writes[at] + 1];
    forall t', p' | 0 <= t' < rows && 0 <= p' < s
      ensures 0 <= base + Ix(t', p', s) < z.Length
      ensures Ix(t', p', s) == Ix(t, p, s) ==> t' == t && p' == p
    {
      IxBound(t', p', rows, s);
      if Ix(t', p', s) == Ix(t, p, s) { IxInjective(t', p', t, p, s); }
    }
  }

  /** The cells below row t0, and those of the next nb rows left of column p, are stored once; the rest not yet. */
  predicate Stored(t: int, p: int, t0: int, nb: int, p0: int) {
    t < t0 || (t < t0 + nb && p < p0)
  }

  ghost predicate HeadState(z: array<real>, writes: seq<nat>, base: nat, qh: seq<real>, kh: seq<real>,
                            rows: nat, s: nat, dh: nat, root: real, t0: int, nb: int, p0: int)
    reads z
    requires root != 0.0
  {
    && base + rows * s <= z.Length == |writes|
    && forall t, p | 0 <= t < rows && 0 <= p < s ::
      && 0 <= base + Ix(t, p, s) < z.Length
      && writes[base + Ix(t, p, s)] == (if Stored(t, p, t0, nb, p0) then 1 else 0)
      && (Stored(t, p, t0, nb, p0) ==> z[base + Ix(t, p, s)] == HeadLogit(qh, kh, dh, root, t, p))
  }

  /** The cells of column p0 in rows t0, ..., t0 + nb - 1. */
  method StoreColumn(z: array<real>, ghost writes: seq<nat>, base: nat, qh: seq<real>, kh: seq<real>,
                     rows: nat, s: nat, dh: nat, root: real, t0: nat, nb: nat, p0: nat)
    returns (ghost writes': seq<nat>)
    requires root != 0.0 && nb <= TB && t0 + nb <= rows && p0 < s && |qh| == rows * dh && |kh| == s * dh
    requires HeadState(z, writes, base, qh, kh, rows, s, dh, root, t0, nb, p0)
    modifies z
    ensures HeadState(z, writes', base, qh, kh, rows, s, dh, root, t0, nb, p0 + 1)
    ensures forall y | 0 <= y < z.Length && !(base <= y < base + rows * s) ::
      z[y] == old(z[y]) && writes'[y] == writes[y]
  {
    BlockFits(kh, p0, s, dh);
    forall i | 0 <= i < nb ensures |RowOf(qh, t0, i, dh)| == dh { BlockFits(qh, t0 + i, rows, dh); }
    var sums := BlockScores(qh, Block(kh, p0, dh), t0, nb, dh);
    writes' := writes;
    for i := 0 to nb
      invariant |writes'| == z.Length
      invariant forall t, p | 0 <= t < rows && 0 <= p < s ::
        var done := Stored(t, p, t0, nb, p0) || (t0 <= t < t0 + i && p == p0);
        && writes'[base + Ix(t, p, s)] == (if done then 1 else 0)
        && (done ==> z[base + Ix(t, p, s)] == HeadLogit(qh, kh, dh, root, t, p))
      invariant forall y | 0 <= y < z.Length && !(base <= y < base + rows * s) ::
        z[y] == old(z[y]) && writes'[y] == writes[y]
    {
      assert sums[i] == Dot(dh, RowOf(qh, t0, i, dh), Block(kh, p0, dh));
      writes' := WriteCell(z, writes', base, rows, s, t0 + i, p0, sums[i] / root);
    }
  }

  /** One query head: its block of cells is filled, each cell stored exactly once, and no other touched. */
  method LogitsHead(z: array<real>, ghost writes: seq<nat>, base: nat, qh: seq<real>, kh: seq<real>,
                    rows: nat, s: nat, dh: nat, root: real)
    returns (ghost writes': seq<nat>)
    requires root != 0.0 && |qh| == rows * dh && |kh| == s * dh
    requires base + rows * s <= z.Length == |writes|
    requires forall y | base <= y < base + rows * s :: writes[y] == 0
    modifies z
    ensures HeadState(z, writes', base, qh, kh, rows, s, dh, root, rows, 0, 0)
    ensures forall y | 0 <= y < z.Length && !(base <= y < base + rows * s) ::
      z[y] == old(z[y]) && writes'[y] == writes[y]
  {
    writes' := writes;
    forall t, p | 0 <= t < rows && 0 <= p < s ensures 0 <= Ix(t, p, s) < rows * s { IxBound(t, p, rows, s); }
    var t0 := 0;
    while t0 < rows
      invariant 0 <= t0 <= rows + TB
      invariant HeadState(z, writes', base, qh, kh, rows, s, dh, root, t0, 0, 0)
      invariant forall y | 0 <= y < z.Length && !(base <= y < base + rows * s) ::
        z[y] == old(z[y]) && writes'[y] == writes[y]
    {
      var nb := Min(TB, rows - t0);
      for p0 := 0 to s
        invariant HeadState(z, writes', base, qh, kh, rows, s, dh, root, t0, nb, p0)
        invariant forall y | 0 <= y < z.Length && !(base <= y < base + rows * s) ::
          z[y] == old(z[y]) && writes'[y] == writes[y]
      {
        writes' := StoreColumn(z, writes', base, qh, kh, rows, s, dh, root, t0, nb, p0);
      }
      t0 := t0 + TB;
    }
  }

  /** Cell (h, t, p) of the block, and how often it was stored. */
  ghost predicate CellDone(z: array<real>, writes: seq<nat>, q: seq<real>, k: seq<real>, g: Geom, root: real, h: int,
                           t: int, p: int)
    reads z
    requires g.nKvHeads > 0 && root != 0.0
  {
    var x := Ix3(h, t, p, g.rows, g.currentPos);
    0 <= x < z.Length == |writes| && z[x] == Logit(q, k, g, root, h, t, p) && writes[x] == 1
  }

  method LogitsOfHead(q: seq<real>, k: seq<real>, z: array<real>, ghost writes: seq<nat>, g: Geom, root: real, h: nat)
    returns (ghost writes': seq<nat>)
    requires g.Grouped() && root != 0.0 && h < g.nHeadsQ && LogitFault(q, k, z.Length, g) == None
      && |writes| == z.Length
    requires forall x | h * (g.rows * g.currentPos) <= x < z.Length :: writes[x] == 0
    modifies z
    ensures |writes'| == z.Length
    ensures forall t, p | 0 <= t < g.rows && 0 <= p < g.currentPos :: CellDone(z, writes', q, k, g, root, h, t, p)
    ensures var from := h * (g.rows * g.currentPos);
      forall x | 0 <= x < z.Length && !(from <= x < from + g.rows * g.currentPos) ::
        z[x] == old(z[x]) && writes'[x] == writes[x]
  {
    var (dh, s, rows) := (g.headDim, g.currentPos, g.rows);
    HeadFits(q, k, z.Length, g, h);
    var (qh, kh) := (Block(q, h, rows * dh), Block(k, g.KvHead(h), s * dh));
    writes' := LogitsHead(z, writes, h * (rows * s), qh, kh, rows, s, dh, root);
    forall t, p | 0 <= t < rows && 0 <= p < s ensures CellDone(z, writes', q, k, g, root, h, t, p) {
      assert 0 <= h * (rows * s) + Ix(t, p, s) < z.Length;
      assert HeadLogit(qh, kh, dh, root, t, p) == Logit(q, k, g, root, h, t, p);
    }
  }

  /**
   * The whole block. Every cell equals the plain dot product over the square root of the head
   * dimension and is stored exactly once; a slice of the wrong length is named instead.
   */
  method LogitsInto(q: seq<real>, k: seq<real>, z: array<real>, g: Geom, root: real)
    returns (r: Result<(), KernelError>, ghost writes: seq<nat>)
    requires g.Grouped() && root > 0.0 && root * root == g.headDim as real
    modifies z
    ensures match LogitFault(q, k, z.Length, g)
      case Some(e) => r == Err(e) && z[..] == old(z[..])
      case None =>
        && r.Ok? && |writes| == z.Length && (forall x | 0 <= x < |writes| :: writes[x] == 1)
        && IsTable3(z[..], g.nHeadsQ, g.rows, g.currentPos, (h, t, p) => Logit(q, k, g, root, h, t, p))
  {
    writes := [];
    var fault := LogitFault(q, k, z.Length, g);
    if fault.Some? {
      return Err(fault.value), writes;
    }
    r := Ok(());
    var (s, rows) := (g.currentPos, g.rows);
    writes := seq(z.Length, _ => 0);
    for h := 0 to g.nHeadsQ
      invariant |writes| == z.Length
      invariant forall h', t, p | 0 <= h' < h && 0 <= t < rows && 0 <= p < s ::
        CellDone(z, writes, q, k, g, root, h', t, p)
      invariant forall x | h * (rows * s) <= x < z.Length :: writes[x] == 0
    {
      label L:
      ghost var before := writes;
      writes := LogitsOfHead(q, k, z, writes, g, root, h);
      assert (h + 1) * (rows * s) == h * (rows * s) + rows * s;
      forall h', t, p | 0 <= h' < h && 0 <= t < rows && 0 <= p < s
        ensures CellDone(z, writes, q, k, g, root, h', t, p)
      {
        IxBound(t, p, rows, s);
        NextRow(h', h, rows * s);
        assert old@L(CellDone(z, before, q, k, g, root, h', t, p));
      }
    }
    Covered(z, writes, q, k, g, root);
  }

  lemma HeadFits(q: seq<real>, k: seq<real>, zLen: nat, g: Geom, h: nat)
    requires g.Grouped() && h < g.nHeadsQ && LogitFault(q, k, zLen, g) == None
    ensures |Block(q, h, g.rows * g.headDim)| == g.rows * g.headDim
    ensures |Block(k, g.KvHead(h), g.currentPos * g.headDim)| == g.currentPos * g.headDim
    ensures 0 <= h * (g.rows * g.currentPos)
      && (h + 1) * (g.rows * g.currentPos) == h * (g.rows * g.currentPos) + g.rows * g.currentPos <= zLen
  {
    BlockFits(q, h, g.nHeadsQ, g.rows * g.headDim);
    BlockFits(k, g.KvHead(h), g.nKvHeads, g.currentPos * g.headDim);
    NextRow(-1, h, g.rows * g.currentPos);
    NextRow(h, g.nHeadsQ, g.rows * g.currentPos);
  }

  lemma Covered(z: array<real>, writes: seq<nat>, q: seq<real>, k: seq<real>, g: Geom, root: real)
    requires g.nKvHeads > 0 && root != 0.0 && z.Length == |writes| == g.nHeadsQ * (g.rows * g.currentPos)
    requires forall h, t, p | 0 <= h < g.nHeadsQ && 0 <= t < g.rows && 0 <= p < g.currentPos ::
      CellDone(z, writes, q, k, g, root, h, t, p)
    ensures forall x | 0 <= x < |writes| :: writes[x] == 1
    ensures IsTable3(z[..], g.nHeadsQ, g.rows, g.currentPos, (h, t, p) => Logit(q, k, g, root, h, t, p))
  {
    forall x | 0 <= x < |writes| ensures writes[x] == 1 {
      var n := g.rows * g.currentPos;
      assert n == 0 ==> g.nHeadsQ * n == 0;
      var h, y := IxCovers(x, g.nHeadsQ, n);
      assert g.currentPos == 0 ==> n == 0;
      var t, p := IxCovers(y, g.rows, g.currentPos);
      assert CellDone(z, writes, q, k, g, root, h, t, p);
    }
    forall h, t, p | 0 <= h < g.nHeadsQ && 0 <= t < g.rows && 0 <= p < g.currentPos
      ensures 0 <= Ix3(h, t, p, g.rows, g.currentPos) < z.Length
      ensures z[..][Ix3(h, t, p, g.rows, g.currentPos)] == Logit(q, k, g, root, h, t, p)
    {
      assert CellDone(z, writes, q, k, g, root, h, t, p);
    }
  }
}
