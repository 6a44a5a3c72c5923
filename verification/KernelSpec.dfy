/** What the attention kernels mean, cell by cell, and the identities between their forms. */
module KernelSpec {
  import opened Sums
  import opened Layout
  import opened Softmax
  import opened Logits
  import Keep

  /** The consecutive rows of a buffer. */
  function RowsOf(s: seq<real>, width: nat): (int, int) -> real {
    (p, e) => At(Block(s, p, width), e)
  }

  function Elements(s: seq<real>): int -> real {
    i => At(s, i)
  }

  /** The logits of the retained columns li in one logit row. */
  function Cols(zr: seq<real>, li: seq<nat>): int -> real {
    j => if 0 <= j < |li| then At(zr, li[j]) else 0.0
  }

  /** The rows of a block of values that the columns li retain. */
  function Vals(block: seq<real>, width: nat, li: seq<nat>): (int, int) -> real {
    (j, e) => if 0 <= j < |li| then At(Block(block, li[j], width), e) else 0.0
  }

  /** Component e of the attention of one logit row over the columns li. */
  function HeadMix(exp: real -> real, zr: seq<real>, li: seq<nat>, block: seq<real>, width: nat, e: int): real {
    if |li| == 0 then 0.0 else Mix(exp, |li|, Cols(zr, li), Vals(block, width, li), e)
  }

  /** Component k of row p of the values vh, seen through the slab bh of the basis. */
  function ValueRow(vh: seq<real>, bh: seq<real>, dh: nat, r: nat, p: int, k: int): real {
    Weighted(dh, Elements(Block(vh, p, dh)), RowsOf(bh, r), k)
  }

  // ----- one layer, as the buffers lay it out

  /** Logit row t of head h. */
  function LogitRow(z: seq<real>, g: Geom, h: int, t: int): seq<real> {
    Block(Block(z, h, g.rows * g.currentPos), t, g.currentPos)
  }

  /** The cache block of query head h's group. */
  function GroupBlock(v: seq<real>, g: Geom, h: int): seq<real>
    requires g.nKvHeads > 0
  {
    if h < 0 then [] else Block(v, g.KvHead(h), g.currentPos * g.headDim)
  }

  /** The slab of the basis that head h meets. */
  function Slab(basis: seq<real>, g: Geom, r: nat, h: int): seq<real> {
    Block(basis, h, g.headDim * r)
  }

  /** x[t][h][e]: the attention output of `attend_into`; cols(h, t) are the admitted columns. */
  function AttendCell(exp: real -> real, z: seq<real>, cols: (int, int) -> seq<nat>, v: seq<real>, g: Geom,
                      t: int, h: int, e: int): real
    requires g.nKvHeads > 0
  {
    HeadMix(exp, LogitRow(z, g, h, t), cols(h, t), GroupBlock(v, g, h), g.headDim, e)
  }

  /** vb[h][p][k]: the values of head h's group seen through the basis. */
  function ValueCell(v: seq<real>, basis: seq<real>, g: Geom, r: nat, h: int, p: int, k: int): real
    requires g.nKvHeads > 0
  {
    ValueRow(GroupBlock(v, g, h), Slab(basis, g, r, h), g.headDim, r, p, k)
  }

  /** What head h adds to w[t][k] in the fused form. */
  function FusedTerm(exp: real -> real, z: seq<real>, cols: (int, int) -> seq<nat>, vb: seq<real>, g: Geom, r: nat,
                     t: int, k: int, h: int): real
  {
    HeadMix(exp, LogitRow(z, g, h, t), cols(h, t), Block(vb, h, g.currentPos * r), r, k)
  }

  /** w[t][k]: the fused readout, heads in ascending order. */
  function FusedCell(exp: real -> real, z: seq<real>, cols: (int, int) -> seq<nat>, vb: seq<real>, g: Geom, r: nat,
                     t: int, k: int): real
  {
    Sum(g.nHeadsQ, h => FusedTerm(exp, z, cols, vb, g, r, t, k, h))
  }

  /** w[t][k] = sum over e of x[t][e] basis[e][k] */
  function ProjectCell(x: seq<real>, basis: seq<real>, d: nat, r: nat, t: int, k: int): real {
    Weighted(d, Elements(Block(x, t, d)), RowsOf(basis, r), k)
  }

  function ProjectTerm(x: seq<real>, basis: seq<real>, d: nat, r: nat, t: int, k: int, e: int): real {
    Mul(At(Block(x, t, d), e), At(Block(basis, e, r), k))
  }

  ghost predicate ColumnsFit(li: seq<nat>, s: nat) {
    |li| > 0 && forall j | 0 <= j < |li| :: li[j] < s
  }

  /** Every query row of every head admits at least one column, and only resident ones. */
  ghost predicate Admits(cols: (int, int) -> seq<nat>, g: Geom) {
    forall h, t | 0 <= h < g.nHeadsQ && 0 <= t < g.rows :: ColumnsFit(cols(h, t), g.currentPos)
  }

  // ----- the fused readout is attention followed by projection

  function HeadTerm(exp: real -> real, zr: seq<real>, li: seq<nat>, vh: seq<real>, bh: seq<real>, dh: nat, r: nat,
                    k: int, e: int): real {
    Mul(HeadMix(exp, zr, li, vh, dh, e), At(Block(bh, e, r), k))
  }

  /** The attention of one head, projected through its slab. */
  function HeadProjection(exp: real -> real, zr: seq<real>, li: seq<nat>, vh: seq<real>, bh: seq<real>, dh: nat, r: nat,
                          k: int): real {
    Sum(dh, e => HeadTerm(exp, zr, li, vh, bh, dh, r, k, e))
  }

  /** One head: attending over projected values is projecting the attention. */
  lemma HeadCommutes(exp: real -> real, zr: seq<real>, li: seq<nat>, vh: seq<real>, bh: seq<real>, vbh: seq<real>,
                     dh: nat, r: nat, s: nat, k: nat)
    requires ColumnsFit(li, s)
    requires forall p | 0 <= p < s :: At(Block(vbh, p, r), k) == ValueRow(vh, bh, dh, r, p, k)
    ensures HeadMix(exp, zr, li, vbh, r, k) == HeadProjection(exp, zr, li, vh, bh, dh, r, k)
  {
    var (f, b, vals) := (Cols(zr, li), RowsOf(bh, r), Vals(vh, dh, li));
    forall j | 0 <= j < |li| ensures Vals(vbh, r, li)(j, k) == Projected(dh, vals, b, j, k) {
      GatheredProjection(vh, bh, dh, r, li, j, k);
    }
    MixExt(exp, |li|, f, Vals(vbh, r, li), f, (j, k') => Projected(dh, vals, b, j, k'), k, k);
    MixCommutes(exp, |li|, f, dh, vals, b, k);
    ProjectionIsContracted(exp, zr, li, vh, bh, dh, r, k);
  }

  lemma ProjectionIsContracted(exp: real -> real, zr: seq<real>, li: seq<nat>, vh: seq<real>, bh: seq<real>, dh: nat,
                               r: nat, k: int)
    requires |li| > 0
    ensures Contracted(exp, |li|, Cols(zr, li), dh, Vals(vh, dh, li), RowsOf(bh, r), k)
         == HeadProjection(exp, zr, li, vh, bh, dh, r, k)
  {
    var (f, b, vals) := (Cols(zr, li), RowsOf(bh, r), Vals(vh, dh, li));
    forall e ensures ContractedTerm(exp, |li|, f, vals, b, k, e) == HeadTerm(exp, zr, li, vh, bh, dh, r, k, e) {}
    SumExt(dh, e => ContractedTerm(exp, |li|, f, vals, b, k, e), e => HeadTerm(exp, zr, li, vh, bh, dh, r, k, e));
  }

  lemma GatheredProjection(vh: seq<real>, bh: seq<real>, dh: nat, r: nat, li: seq<nat>, j: nat, k: int)
    requires j < |li|
    ensures Projected(dh, Vals(vh, dh, li), RowsOf(bh, r), j, k) == ValueRow(vh, bh, dh, r, li[j], k)
  {
    var (vals, row, b) := (Vals(vh, dh, li), Elements(Block(vh, li[j], dh)), RowsOf(bh, r));
    SumExt(dh, e => vals(j, e) * b(e, k), e => row(e) * b(e, k));
  }

  lemma XRow(x: seq<real>, f: (int, int, int) -> real, g: Geom, t: nat, h: nat)
    requires IsTable3(x, g.rows, g.nHeadsQ, g.headDim, f) && t < g.rows && h < g.nHeadsQ
    ensures forall e | 0 <= e < g.headDim :: At(Block(x, t, g.QDim()), Ix(h, e, g.headDim)) == f(t, h, e)
  {
    BlockFits(x, t, g.rows, g.QDim());
    forall e | 0 <= e < g.headDim ensures At(Block(x, t, g.QDim()), Ix(h, e, g.headDim)) == f(t, h, e) {
      IxBound(h, e, g.nHeadsQ, g.headDim);
      assert x[Ix3(t, h, e, g.nHeadsQ, g.headDim)] == f(t, h, e);
    }
  }

  /** What head h contributes to w[t][k] when the rows x are projected. */
  function SlabTerm(x: seq<real>, basis: seq<real>, g: Geom, r: nat, t: int, k: int, h: int): real {
    Sum(g.headDim, e => ProjectTerm(x, basis, g.QDim(), r, t, k, h * g.headDim + e))
  }

  lemma ProjectCellTerms(x: seq<real>, basis: seq<real>, d: nat, r: nat, t: int, k: int)
    ensures ProjectCell(x, basis, d, r, t, k) == Sum(d, e => ProjectTerm(x, basis, d, r, t, k, e))
  {
    var (xr, b) := (Elements(Block(x, t, d)), RowsOf(basis, r));
    SumExt(d, e => xr(e) * b(e, k), e => ProjectTerm(x, basis, d, r, t, k, e));
  }

  /** The projection splits into the contributions of the heads. */
  lemma ProjectByHeads(x: seq<real>, basis: seq<real>, g: Geom, r: nat, t: int, k: int)
    ensures ProjectCell(x, basis, g.QDim(), r, t, k) == Sum(g.nHeadsQ, h => SlabTerm(x, basis, g, r, t, k, h))
  {
    var f := (e: int) => ProjectTerm(x, basis, g.QDim(), r, t, k, e);
    SumBlocks(g.nHeadsQ, g.headDim, f);
    ProjectCellTerms(x, basis, g.QDim(), r, t, k);
    forall h ensures SlabTerm(x, basis, g, r, t, k, h) == Sum(g.headDim, j => f(h * g.headDim + j)) {
      SumExt(g.headDim, e => ProjectTerm(x, basis, g.QDim(), r, t, k, h * g.headDim + e), j => f(h * g.headDim + j));
    }
    SumExt(g.nHeadsQ, h => SlabTerm(x, basis, g, r, t, k, h), i => Sum(g.headDim, j => f(i * g.headDim + j)));
  }

  lemma TermIsHeadTerm(exp: real -> real, z: seq<real>, cols: (int, int) -> seq<nat>, v: seq<real>, basis: seq<real>,
                       x: seq<real>, g: Geom, r: nat, t: nat, k: nat, h: nat, e: nat)
    requires g.Grouped() && t < g.rows && h < g.nHeadsQ && e < g.headDim && |basis| == g.nHeadsQ * (g.headDim * r)
    requires IsTable3(x, g.rows, g.nHeadsQ, g.headDim, (t', h', e') => AttendCell(exp, z, cols, v, g, t', h', e'))
    ensures ProjectTerm(x, basis, g.QDim(), r, t, k, h * g.headDim + e)
         == HeadTerm(exp, LogitRow(z, g, h, t), cols(h, t), GroupBlock(v, g, h), Slab(basis, g, r, h), g.headDim, r, k,
                     e)
  {
    XRow(x, (t', h', e') => AttendCell(exp, z, cols, v, g, t', h', e'), g, t, h);
    assert At(Block(x, t, g.QDim()), Ix(h, e, g.headDim)) == AttendCell(exp, z, cols, v, g, t, h, e);
    SlabRow(basis, h, e, g.nHeadsQ, g.headDim, r);
  }

  /** One head's contribution is its projected attention. */
  lemma SlabTermIsHead(exp: real -> real, z: seq<real>, cols: (int, int) -> seq<nat>, v: seq<real>, basis: seq<real>,
                       x: seq<real>, g: Geom, r: nat, t: nat, k: nat, h: nat)
    requires g.Grouped() && t < g.rows && h < g.nHeadsQ && |basis| == g.nHeadsQ * (g.headDim * r)
    requires IsTable3(x, g.rows, g.nHeadsQ, g.headDim, (t', h', e) => AttendCell(exp, z, cols, v, g, t', h', e))
    ensures SlabTerm(x, basis, g, r, t, k, h)
         == HeadProjection(exp, LogitRow(z, g, h, t), cols(h, t), GroupBlock(v, g, h), Slab(basis, g, r, h), g.headDim,
                           r, k)
  {
    var (zr, li, vh, bh, dh) := (LogitRow(z, g, h, t), cols(h, t), GroupBlock(v, g, h), Slab(basis, g, r, h),
                                 g.headDim);
    forall e | 0 <= e < dh
      ensures ProjectTerm(x, basis, g.QDim(), r, t, k, h * dh + e) == HeadTerm(exp, zr, li, vh, bh, dh, r, k, e)
    {
      TermIsHeadTerm(exp, z, cols, v, basis, x, g, r, t, k, h, e);
    }
    SumExt(dh, e => ProjectTerm(x, basis, g.QDim(), r, t, k, h * dh + e),
           e => HeadTerm(exp, zr, li, vh, bh, dh, r, k, e));
  }

  /**
   * The fused readout (values projected first, then attended) is attention followed by
   * projection, for every geometry, rank and choice of admitted columns.
   */
  lemma FusedIsTwoStep(exp: real -> real, z: seq<real>, cols: (int, int) -> seq<nat>, v: seq<real>, basis: seq<real>,
                       vb: seq<real>, x: seq<real>, w: seq<real>, w2: seq<real>, g: Geom, r: nat)
    requires g.Grouped() && Admits(cols, g) && |basis| == g.nHeadsQ * (g.headDim * r)
    requires IsTable3(vb, g.nHeadsQ, g.currentPos, r, (h, p, k) => ValueCell(v, basis, g, r, h, p, k))
    requires IsTable(w, g.rows, r, (t, k) => FusedCell(exp, z, cols, vb, g, r, t, k))
    requires IsTable3(x, g.rows, g.nHeadsQ, g.headDim, (t, h, e) => AttendCell(exp, z, cols, v, g, t, h, e))
    requires IsTable(w2, g.rows, r, (t, k) => ProjectCell(x, basis, g.QDim(), r, t, k))
    ensures w == w2
  {
    forall t, k | 0 <= t < g.rows && 0 <= k < r
      ensures FusedCell(exp, z, cols, vb, g, r, t, k) == ProjectCell(x, basis, g.QDim(), r, t, k)
    {
      ProjectByHeads(x, basis, g, r, t, k);
      forall h | 0 <= h < g.nHeadsQ
        ensures FusedTerm(exp, z, cols, vb, g, r, t, k, h) == SlabTerm(x, basis, g, r, t, k, h)
      {
        FusedTermIsSlabTerm(exp, z, cols, v, basis, vb, x, g, r, t, k, h);
      }
      SumExt(g.nHeadsQ, h => FusedTerm(exp, z, cols, vb, g, r, t, k, h), h => SlabTerm(x, basis, g, r, t, k, h));
    }
    TableUnique(w, w2, g.rows, r, (t, k) => FusedCell(exp, z, cols, vb, g, r, t, k),
                (t, k) => ProjectCell(x, basis, g.QDim(), r, t, k));
  }

  lemma ProjectedRows(v: seq<real>, basis: seq<real>, vb: seq<real>, g: Geom, r: nat, k: nat, h: nat)
    requires g.nKvHeads > 0 && h < g.nHeadsQ && k < r
    requires IsTable3(vb, g.nHeadsQ, g.currentPos, r, (h', p, k') => ValueCell(v, basis, g, r, h', p, k'))
    ensures forall p | 0 <= p < g.currentPos ::
      At(Block(Block(vb, h, g.currentPos * r), p, r), k)
        == ValueRow(GroupBlock(v, g, h), Slab(basis, g, r, h), g.headDim, r, p, k)
  {
    forall p | 0 <= p < g.currentPos
      ensures At(Block(Block(vb, h, g.currentPos * r), p, r), k) == ValueCell(v, basis, g, r, h, p, k)
    {
      TableRow(vb, g.nHeadsQ, g.currentPos, r, (h', p', k') => ValueCell(v, basis, g, r, h', p', k'), h, p);
    }
  }

  lemma FusedTermIsSlabTerm(exp: real -> real, z: seq<real>, cols: (int, int) -> seq<nat>, v: seq<real>,
                            basis: seq<real>,
                            vb: seq<real>, x: seq<real>, g: Geom, r: nat, t: nat, k: nat, h: nat)
    requires g.Grouped() && t < g.rows && h < g.nHeadsQ && k < r && |basis| == g.nHeadsQ * (g.headDim * r)
    requires ColumnsFit(cols(h, t), g.currentPos)
    requires IsTable3(vb, g.nHeadsQ, g.currentPos, r, (h', p, k') => ValueCell(v, basis, g, r, h', p, k'))
    requires IsTable3(x, g.rows, g.nHeadsQ, g.headDim, (t', h', e) => AttendCell(exp, z, cols, v, g, t', h', e))
    ensures FusedTerm(exp, z, cols, vb, g, r, t, k, h) == SlabTerm(x, basis, g, r, t, k, h)
  {
    SlabTermIsHead(exp, z, cols, v, basis, x, g, r, t, k, h);
    var (vh, bh, vbh) := (GroupBlock(v, g, h), Slab(basis, g, r, h), Block(vb, h, g.currentPos * r));
    ProjectedRows(v, basis, vb, g, r, k, h);
    HeadCommutes(exp, LogitRow(z, g, h, t), cols(h, t), vh, bh, vbh, g.headDim, r, g.currentPos, k);
  }

  // ----- gathering columns is gathering the cache

  /**
   * c' is the cache c with the rows `lists` names moved to the front of each KV head. The lists may
   * differ in length; what c' holds behind a shorter one is nobody's row.
   */
  ghost predicate IsGather(c': seq<real>, c: seq<real>, g: Geom, s': nat, lists: int -> seq<nat>) {
    forall kv, j | 0 <= kv < g.nKvHeads && 0 <= j < |lists(kv)| ::
      |lists(kv)| <= s' && CacheRow(c', g.(currentPos := s'), kv, j) == CacheRow(c, g, kv, lists(kv)[j])
  }

  /** The same choice of columns, as a gather over the shared logits and as a prefix of the gathered cache. */
  ghost predicate SameColumns(cols: (int, int) -> seq<nat>, cols': (int, int) -> seq<nat>, g: Geom, s': nat,
                              lists: int -> seq<nat>)
    requires g.nKvHeads > 0
  {
    forall h: nat, t: nat | h < g.nHeadsQ && t < g.rows ::
      var (list, n) := (lists(g.KvHead(h)), |cols(h, t)|);
      0 < n <= |list| <= s' && cols(h, t) == list[..n] && cols'(h, t) == Keep.Range(0, n)
  }

  /** Attention over the shared logits, restricted to a keep list, is attention recomputed over the gathered cache. */
  lemma GatherColumnsIsGatherCache(exp: real -> real, q: seq<real>, k: seq<real>, v: seq<real>, k': seq<real>,
                                   v': seq<real>,
                                   z: seq<real>, z': seq<real>, cols: (int, int) -> seq<nat>,
                                     cols': (int, int) -> seq<nat>,
                                   g: Geom, g': Geom, root: real, lists: int -> seq<nat>, x: seq<real>, x': seq<real>)
    requires g.Grouped() && g' == g.(currentPos := g'.currentPos) && root != 0.0
    requires Admits(cols, g) && SameColumns(cols, cols', g, g'.currentPos, lists)
    requires IsGather(k', k, g, g'.currentPos, lists) && IsGather(v', v, g, g'.currentPos, lists)
    requires IsTable3(z, g.nHeadsQ, g.rows, g.currentPos, (h, t, p) => Logit(q, k, g, root, h, t, p))
    requires IsTable3(z', g.nHeadsQ, g.rows, g'.currentPos, (h, t, p) => Logit(q, k', g', root, h, t, p))
    requires IsTable3(x, g.rows, g.nHeadsQ, g.headDim, (t, h, e) => AttendCell(exp, z, cols, v, g, t, h, e))
    requires IsTable3(x', g.rows, g.nHeadsQ, g.headDim, (t, h, e) => AttendCell(exp, z', cols', v', g', t, h, e))
    ensures x == x'
  {
    forall t, h, e | 0 <= t < g.rows && 0 <= h < g.nHeadsQ && 0 <= e < g.headDim
      ensures AttendCell(exp, z, cols, v, g, t, h, e) == AttendCell(exp, z', cols', v', g', t, h, e)
    {
      GatheredCell(exp, q, k, v, k', v', z, z', cols, cols', g, g', root, lists, t, h, e);
    }
    Table3Unique(x, x', g.rows, g.nHeadsQ, g.headDim, (t, h, e) => AttendCell(exp, z, cols, v, g, t, h, e),
                 (t, h, e) => AttendCell(exp, z', cols', v', g', t, h, e));
  }

  /** One cell of the two. */
  lemma GatheredCell(exp: real -> real, q: seq<real>, k: seq<real>, v: seq<real>, k': seq<real>, v': seq<real>,
                     z: seq<real>, z': seq<real>, cols: (int, int) -> seq<nat>, cols': (int, int) -> seq<nat>,
                     g: Geom, g': Geom, root: real, lists: int -> seq<nat>, t: nat, h: nat, e: nat)
    requires g.Grouped() && g' == g.(currentPos := g'.currentPos) && root != 0.0
    requires Admits(cols, g) && SameColumns(cols, cols', g, g'.currentPos, lists)
    requires IsGather(k', k, g, g'.currentPos, lists) && IsGather(v', v, g, g'.currentPos, lists)
    requires IsTable3(z, g.nHeadsQ, g.rows, g.currentPos, (h, t, p) => Logit(q, k, g, root, h, t, p))
    requires IsTable3(z', g.nHeadsQ, g.rows, g'.currentPos, (h, t, p) => Logit(q, k', g', root, h, t, p))
    requires t < g.rows && h < g.nHeadsQ && e < g.headDim
    ensures AttendCell(exp, z, cols, v, g, t, h, e) == AttendCell(exp, z', cols', v', g', t, h, e)
  {
    HeadGather(exp, q, k, v, k', v', z, z', cols(h, t), cols'(h, t), g, g'.currentPos, root, lists, t, h, e);
  }

  /** One row of one head. */
  lemma HeadGather(exp: real -> real, q: seq<real>, k: seq<real>, v: seq<real>, k': seq<real>, v': seq<real>,
                   z: seq<real>, z': seq<real>, li: seq<nat>, li': seq<nat>,
                   g: Geom, s': nat, root: real, lists: int -> seq<nat>, t: nat, h: nat, e: nat)
    requires g.Grouped() && root != 0.0 && t < g.rows && h < g.nHeadsQ && ColumnsFit(li, g.currentPos)
    requires |li| <= |lists(g.KvHead(h))| <= s' && li == lists(g.KvHead(h))[..|li|] && li' == Keep.Range(0, |li|)
    requires IsGather(k', k, g, s', lists) && IsGather(v', v, g, s', lists)
    requires IsTable3(z, g.nHeadsQ, g.rows, g.currentPos, (h, t, p) => Logit(q, k, g, root, h, t, p))
    requires IsTable3(z', g.nHeadsQ, g.rows, s', (h, t, p) => Logit(q, k', g.(currentPos := s'), root, h, t, p))
    ensures HeadMix(exp, LogitRow(z, g, h, t), li, GroupBlock(v, g, h), g.headDim, e)
         == HeadMix(exp, LogitRow(z', g.(currentPos := s'), h, t), li', GroupBlock(v', g.(currentPos := s'), h),
                    g.headDim, e)
  {
    var g' := g.(currentPos := s');
    var (zr, zr') := (LogitRow(z, g, h, t), LogitRow(z', g', h, t));
    var (vh, vh') := (GroupBlock(v, g, h), GroupBlock(v', g', h));
    forall j | 0 <= j < |li|
      ensures Cols(zr, li)(j) == Cols(zr', li')(j) && Vals(vh, g.headDim, li)(j, e) == Vals(vh', g.headDim, li')(j, e)
    {
      GatheredLogit(q, k, k', z, z', g, s', root, lists, t, h, j);
      assert CacheRow(v', g', g.KvHead(h), j) == CacheRow(v, g, g.KvHead(h), lists(g.KvHead(h))[j]);
    }
    MixExt(exp, |li|, Cols(zr, li), Vals(vh, g.headDim, li), Cols(zr', li'), Vals(vh', g.headDim, li'), e, e);
  }

  lemma GatheredLogit(q: seq<real>, k: seq<real>, k': seq<real>, z: seq<real>, z': seq<real>,
                      g: Geom, s': nat, root: real, lists: int -> seq<nat>, t: nat, h: nat, j: nat)
    requires g.Grouped() && root != 0.0 && t < g.rows && h < g.nHeadsQ
    requires j < |lists(g.KvHead(h))| <= s' && lists(g.KvHead(h))[j] < g.currentPos
    requires IsGather(k', k, g, s', lists)
    requires IsTable3(z, g.nHeadsQ, g.rows, g.currentPos, (h, t, p) => Logit(q, k, g, root, h, t, p))
    requires IsTable3(z', g.nHeadsQ, g.rows, s', (h, t, p) => Logit(q, k', g.(currentPos := s'), root, h, t, p))
    ensures At(LogitRow(z, g, h, t), lists(g.KvHead(h))[j]) == At(LogitRow(z', g.(currentPos := s'), h, t), j)
  {
    var (p, g') := (lists(g.KvHead(h))[j], g.(currentPos := s'));
    TableRow(z, g.nHeadsQ, g.rows, g.currentPos, (h, t, p) => Logit(q, k, g, root, h, t, p), h, t);
    TableRow(z', g.nHeadsQ, g.rows, s', (h, t, p) => Logit(q, k', g', root, h, t, p), h, t);
    assert At(LogitRow(z, g, h, t), p) == Logit(q, k, g, root, h, t, p);
    assert At(LogitRow(z', g', h, t), j) == Logit(q, k', g', root, h, t, j);
    assert CacheRow(k', g', g.KvHead(h), j) == CacheRow(k, g, g.KvHead(h), p);
  }
}
