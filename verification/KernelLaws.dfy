/** The kernels by flat index: which element of which buffer enters which sum, and with what weight. */
module KernelLaws {
  import opened Sums
  import opened Layout
  import opened Softmax
  import opened Logits
  import opened KernelSpec

  // ----- addresses

  /** The elements of a buffer from position x on. */
  function Line(s: seq<real>, x: int): int -> real {
    c => At(s, x + c)
  }

  /** Where row (a, b) of a buffer begins whose inner extents are m and n. */
  function RowAt(a: nat, b: nat, m: nat, n: nat): nat {
    Times(Times(a, m) + b, n)
  }

  lemma RowAtIs(a: nat, b: nat, m: nat, n: nat)
    ensures RowAt(a, b, m, n) == (a * m + b) * n
  {
    TimesIsProduct(a, m);
    TimesIsProduct(Times(a, m) + b, n);
  }

  lemma Address3(a: nat, b: nat, c: nat, l: nat, m: nat, n: nat)
    requires a < l && b < m && c < n
    ensures Ix3(a, b, c, m, n) == RowAt(a, b, m, n) + c
  {
    RowAtIs(a, b, m, n);
    Ix3Bound(a, b, c, l, m, n);
  }

  lemma Address2(a: nat, b: nat, n: nat)
    ensures Ix(a, b, n) == Times(a, n) + b
  {
    TimesIsProduct(a, n);
  }

  /** row is the n elements of s from x on. */
  ghost predicate IsLine(row: seq<real>, s: seq<real>, x: int, n: nat) {
    forall c | 0 <= c < n :: At(row, c) == Line(s, x)(c)
  }

  lemma LineCell(s: seq<real>, i: int, x: int, c: int)
    requires 0 <= i < |s| && i == x + c
    ensures Line(s, x)(c) == s[i]
  {
    assert Line(s, x)(c) == At(s, x + c);
  }

  lemma BlockIsLine(s: seq<real>, l: nat, m: nat, n: nat, a: nat, b: nat)
    requires |s| == l * (m * n) && a < l && b < m
    ensures IsLine(Block(Block(s, a, m * n), b, n), s, RowAt(a, b, m, n), n)
  {
    forall c | 0 <= c < n ensures At(Block(Block(s, a, m * n), b, n), c) == Line(s, RowAt(a, b, m, n))(c) {
      BlockCell(s, l, m, n, a, b, c);
      Address3(a, b, c, l, m, n);
      LineCell(s, Ix3(a, b, c, m, n), RowAt(a, b, m, n), c);
    }
  }

  lemma BlockCell(s: seq<real>, l: nat, m: nat, n: nat, a: nat, b: nat, c: nat)
    requires |s| == l * (m * n) && a < l && b < m && c < n
    ensures 0 <= Ix3(a, b, c, m, n) < |s| && At(Block(Block(s, a, m * n), b, n), c) == s[Ix3(a, b, c, m, n)]
  {
    BlockFits(s, a, l, m * n);
    BlockFits(Block(s, a, m * n), b, m, n);
    IxBound(b, c, m, n);
    Ix3Bound(a, b, c, l, m, n);
    assert Block(Block(s, a, m * n), b, n)[c] == Block(s, a, m * n)[Ix(b, c, n)];
  }

  lemma RowIsLine(s: seq<real>, m: nat, n: nat, a: nat)
    requires |s| == m * n && a < m
    ensures IsLine(Block(s, a, n), s, Times(a, n), n)
  {
    BlockFits(s, a, m, n);
    TimesIsProduct(a, n);
  }

  lemma Table3Line(s: seq<real>, l: nat, m: nat, n: nat, f: (int, int, int) -> real, a: nat, b: nat, c: nat)
    requires IsTable3(s, l, m, n, f) && a < l && b < m && c < n
    ensures Line(s, RowAt(a, b, m, n))(c) == f(a, b, c)
  {
    Address3(a, b, c, l, m, n);
    assert s[Ix3(a, b, c, m, n)] == f(a, b, c);
    LineCell(s, Ix3(a, b, c, m, n), RowAt(a, b, m, n), c);
  }

  lemma TableLine(s: seq<real>, m: nat, n: nat, f: (int, int) -> real, a: nat, b: nat)
    requires IsTable(s, m, n, f) && a < m && b < n
    ensures Line(s, Times(a, n))(b) == f(a, b)
  {
    Address2(a, b, n);
    assert s[Ix(a, b, n)] == f(a, b);
    LineCell(s, Ix(a, b, n), Times(a, n), b);
  }

  // ----- which KV head a query head reads

  /** Consecutive query heads share a KV head, as many as the ratio says. */
  lemma GroupsAreConsecutive(g: Geom, ratio: nat, h: nat, kv: nat)
    requires g.nKvHeads > 0 && ratio > 0 && g.nHeadsQ == ratio * g.nKvHeads
    ensures g.KvHead(h) == kv <==> kv * ratio <= h < kv * ratio + ratio
  {
    ExactQuotient(ratio, g.nKvHeads);
    assert g.NRep() == ratio;
    var (q, r) := (h / ratio, h % ratio);
    assert h == q * ratio + r;
    if q < kv { NextRow(q, kv, ratio); }
    if kv < q { NextRow(kv, q, ratio); }
  }

  // ----- logits

  function Inner(n: nat, f: int -> real, g: int -> real): real {
    Sum(n, e => f(e) * g(e))
  }

  lemma DotOfLines(n: nat, a: seq<real>, b: seq<real>, s: seq<real>, x: int, s': seq<real>, y: int)
    requires IsLine(a, s, x, n) && IsLine(b, s', y, n)
    ensures Dot(n, a, b) == Inner(n, Line(s, x), Line(s', y))
  {
    var (f, g) := (Line(s, x), Line(s', y));
    forall e | 0 <= e < n ensures Product(a, b, e) == f(e) * g(e) { assert At(a, e) == f(e) && At(b, e) == g(e); }
    SumExt(n, e => Product(a, b, e), e => f(e) * g(e));
  }

  /** z is x / y. */
  lemma DividedBack(x: real, y: real, z: real, c: real)
    requires y > 0.0 && z == x / y && c == z
    ensures c * y == x
  {
  }

  lemma LogitCell(q: seq<real>, k: seq<real>, g: Geom, root: real, h: nat, t: nat, p: nat, c: real)
    requires g.nKvHeads > 0 && root > 0.0 && c == Logit(q, k, g, root, h, t, p)
    ensures c * root == Dot(g.headDim, QueryRow(q, g, h, t), CacheRow(k, g, g.KvHead(h), p))
  {
    DividedBack(Dot(g.headDim, QueryRow(q, g, h, t), CacheRow(k, g, g.KvHead(h), p)), root,
                Logit(q, k, g, root, h, t, p), c);
  }

  ghost function LogitOf(q: seq<real>, k: seq<real>, g: Geom, root: real): (int, int, int) -> real
    requires g.nKvHeads > 0 && root != 0.0
  {
    (h, t, p) => Logit(q, k, g, root, h, t, p)
  }

  lemma LogitLine(q: seq<real>, k: seq<real>, g: Geom, root: real, h: nat, t: nat, p: nat, kv: nat, c: real)
    requires g.nKvHeads > 0 && root > 0.0 && h < g.nHeadsQ && t < g.rows && p < g.currentPos
    requires |q| == g.nHeadsQ * (g.rows * g.headDim) && |k| == g.nKvHeads * (g.currentPos * g.headDim)
    requires kv == g.KvHead(h) < g.nKvHeads && c == LogitOf(q, k, g, root)(h, t, p)
    ensures Balanced(c, root,
              Inner(g.headDim, Line(q, RowAt(h, t, g.rows, g.headDim)), Line(k, RowAt(kv, p, g.currentPos, g.headDim))))
  {
    LogitCell(q, k, g, root, h, t, p, c);
    BlockIsLine(q, g.nHeadsQ, g.rows, g.headDim, h, t);
    BlockIsLine(k, g.nKvHeads, g.currentPos, g.headDim, kv, p);
    DotOfLines(g.headDim, QueryRow(q, g, h, t), CacheRow(k, g, kv, p), q, RowAt(h, t, g.rows, g.headDim),
               k, RowAt(kv, p, g.currentPos, g.headDim));
  }

  /** A logit times the root of the head dimension is the dot product of its query row and its key row. */
  lemma LogitLaw(q: seq<real>, k: seq<real>, z: seq<real>, g: Geom, root: real, h: nat, t: nat, p: nat)
    requires g.Grouped() && root > 0.0
    requires |q| == g.nHeadsQ * (g.rows * g.headDim) && |k| == g.nKvHeads * (g.currentPos * g.headDim)
    requires IsTable3(z, g.nHeadsQ, g.rows, g.currentPos, (h', t', p') => Logit(q, k, g, root, h', t', p'))
    requires h < g.nHeadsQ && t < g.rows && p < g.currentPos
    ensures Balanced(Line(z, RowAt(h, t, g.rows, g.currentPos))(p), root,
                     Inner(g.headDim, Line(q, RowAt(h, t, g.rows, g.headDim)),
                           Line(k, RowAt(g.KvHead(h), p, g.currentPos, g.headDim))))
  {
    Table3Line(z, g.nHeadsQ, g.rows, g.currentPos, LogitOf(q, k, g, root), h, t, p);
    LogitLine(q, k, g, root, h, t, p, g.KvHead(h), Line(z, RowAt(h, t, g.rows, g.currentPos))(p));
  }

  // ----- attention

  /** x is the average of component e of the n rows v, row j counted by the exponential of f(j). */
  ghost predicate IsAverage(x: real, exp: real -> real, n: nat, f: int -> real, v: (int, int) -> real, e: int) {
    ExpSum(exp, n, f) > 0.0 && Balanced(x, ExpSum(exp, n, f), Weighted(n, ExpOf(exp, f), v, e))
  }

  /** The elements li of the row that begins at x. */
  function Picked(z: seq<real>, x: int, li: seq<nat>): int -> real {
    j => if 0 <= j < |li| then Line(z, x)(li[j]) else 0.0
  }

  /** The rows li of block b, in a buffer whose blocks have m rows of n elements. */
  function PickedRows(s: seq<real>, b: nat, m: nat, n: nat, li: seq<nat>): (int, int) -> real {
    (j, e) => if 0 <= j < |li| then Line(s, RowAt(b, li[j], m, n))(e) else 0.0
  }

  lemma PickedColumn(zr: seq<real>, z: seq<real>, x: int, s: nat, li: seq<nat>, j: nat)
    requires IsLine(zr, z, x, s) && ColumnsFit(li, s) && j < |li|
    ensures Cols(zr, li)(j) == Picked(z, x, li)(j)
  {
    assert At(zr, li[j]) == Line(z, x)(li[j]);
  }

  lemma PickedRow(buf: seq<real>, l: nat, m: nat, n: nat, b: nat, li: seq<nat>, j: nat, e: nat)
    requires |buf| == l * (m * n) && b < l && ColumnsFit(li, m) && j < |li| && e < n
    ensures Vals(Block(buf, b, m * n), n, li)(j, e) == PickedRows(buf, b, m, n, li)(j, e)
  {
    BlockIsLine(buf, l, m, n, b, li[j]);
    assert At(Block(Block(buf, b, m * n), li[j], n), e) == Line(buf, RowAt(b, li[j], m, n))(e);
  }

  lemma MixOfLines(exp: real -> real, n: nat, f: int -> real, v: (int, int) -> real, f': int -> real,
                   v': (int, int) -> real, e: int)
    requires n > 0 && Exponential(exp) && forall j | 0 <= j < n :: f(j) == f'(j) && v(j, e) == v'(j, e)
    ensures IsAverage(Mix(exp, n, f, v, e), exp, n, f', v', e)
  {
    MixExt(exp, n, f, v, f', v', e, e);
    MixIsAverage(exp, n, f', v', e);
  }

  /** What one head does with row x of the logits and block b of a buffer of values. */
  lemma HeadLaw(exp: real -> real, zr: seq<real>, z: seq<real>, x: int, li: seq<nat>,
                buf: seq<real>, l: nat, m: nat, n: nat, b: nat, e: nat)
    requires Exponential(exp) && ColumnsFit(li, m) && IsLine(zr, z, x, m)
    requires |buf| == l * (m * n) && b < l && e < n
    ensures IsAverage(HeadMix(exp, zr, li, Block(buf, b, m * n), n, e), exp, |li|, Picked(z, x, li),
                      PickedRows(buf, b, m, n, li), e)
  {
    var vh := Block(buf, b, m * n);
    forall j | 0 <= j < |li|
      ensures Cols(zr, li)(j) == Picked(z, x, li)(j) && Vals(vh, n, li)(j, e) == PickedRows(buf, b, m, n, li)(j, e)
    {
      PickedColumn(zr, z, x, m, li, j);
      PickedRow(buf, l, m, n, b, li, j, e);
    }
    MixOfLines(exp, |li|, Cols(zr, li), Vals(vh, n, li), Picked(z, x, li), PickedRows(buf, b, m, n, li), e);
  }

  ghost function AttendOf(exp: real -> real, z: seq<real>, cols: (int, int) -> seq<nat>, v: seq<real>,
                          g: Geom): (int, int, int) -> real
    requires g.nKvHeads > 0
  {
    (t, h, e) => AttendCell(exp, z, cols, v, g, t, h, e)
  }

  lemma AttendLine(exp: real -> real, z: seq<real>, cols: (int, int) -> seq<nat>, v: seq<real>, g: Geom,
                   t: nat, h: nat, e: nat, kv: nat)
    requires Exponential(exp) && g.nKvHeads > 0 && ColumnsFit(cols(h, t), g.currentPos)
    requires t < g.rows && h < g.nHeadsQ && e < g.headDim && kv == g.KvHead(h) < g.nKvHeads
    requires |z| == g.nHeadsQ * (g.rows * g.currentPos) && |v| == g.nKvHeads * (g.currentPos * g.headDim)
    ensures IsAverage(AttendOf(exp, z, cols, v, g)(t, h, e), exp, |cols(h, t)|,
                      Picked(z, RowAt(h, t, g.rows, g.currentPos), cols(h, t)),
                      PickedRows(v, kv, g.currentPos, g.headDim, cols(h, t)), e)
  {
    BlockIsLine(z, g.nHeadsQ, g.rows, g.currentPos, h, t);
    HeadLaw(exp, LogitRow(z, g, h, t), z, RowAt(h, t, g.rows, g.currentPos), cols(h, t), v, g.nKvHeads, g.currentPos,
            g.headDim, kv, e);
    assert AttendOf(exp, z, cols, v, g)(t, h, e) == AttendCell(exp, z, cols, v, g, t, h, e);
  }

  /**
   * A cell of `attend_into`: the average, over the admitted columns, of the cached values of the head's
   * group, each counted by the exponential of its logit.
   */
  lemma AttendLaw(exp: real -> real, z: seq<real>, cols: (int, int) -> seq<nat>, v: seq<real>, x: seq<real>, g: Geom,
                  t: nat, h: nat, e: nat)
    requires Exponential(exp) && g.Grouped() && Admits(cols, g) && t < g.rows && h < g.nHeadsQ && e < g.headDim
    requires |z| == g.nHeadsQ * (g.rows * g.currentPos) && |v| == g.nKvHeads * (g.currentPos * g.headDim)
    requires IsTable3(x, g.rows, g.nHeadsQ, g.headDim, (t', h', e') => AttendCell(exp, z, cols, v, g, t', h', e'))
    ensures IsAverage(Line(x, RowAt(t, h, g.nHeadsQ, g.headDim))(e), exp, |cols(h, t)|,
                      Picked(z, RowAt(h, t, g.rows, g.currentPos), cols(h, t)),
                      PickedRows(v, g.KvHead(h), g.currentPos, g.headDim, cols(h, t)), e)
  {
    Table3Line(x, g.rows, g.nHeadsQ, g.headDim, AttendOf(exp, z, cols, v, g), t, h, e);
    AttendLine(exp, z, cols, v, g, t, h, e, g.KvHead(h));
  }

  ghost function PartOf(exp: real -> real, z: seq<real>, cols: (int, int) -> seq<nat>, vb: seq<real>, g: Geom, r: nat,
                        t: int, k: int): int -> real {
    h => FusedTerm(exp, z, cols, vb, g, r, t, k, h)
  }

  lemma PartLine(exp: real -> real, z: seq<real>, cols: (int, int) -> seq<nat>, vb: seq<real>, g: Geom, r: nat, t: nat,
                 k: nat, h: nat)
    requires Exponential(exp) && ColumnsFit(cols(h, t), g.currentPos) && t < g.rows && h < g.nHeadsQ && k < r
    requires |z| == g.nHeadsQ * (g.rows * g.currentPos) && |vb| == g.nHeadsQ * (g.currentPos * r)
    ensures IsAverage(PartOf(exp, z, cols, vb, g, r, t, k)(h), exp, |cols(h, t)|,
                      Picked(z, RowAt(h, t, g.rows, g.currentPos), cols(h, t)),
                      PickedRows(vb, h, g.currentPos, r, cols(h, t)), k)
  {
    BlockIsLine(z, g.nHeadsQ, g.rows, g.currentPos, h, t);
    HeadLaw(exp, LogitRow(z, g, h, t), z, RowAt(h, t, g.rows, g.currentPos), cols(h, t), vb, g.nHeadsQ, g.currentPos, r,
            h, k);
    assert PartOf(exp, z, cols, vb, g, r, t, k)(h) == FusedTerm(exp, z, cols, vb, g, r, t, k, h);
  }

  lemma FusedIsSumOfParts(exp: real -> real, z: seq<real>, cols: (int, int) -> seq<nat>, vb: seq<real>, w: seq<real>,
                          g: Geom, r: nat,
                          t: nat, k: nat)
    requires t < g.rows && k < r && IsTable(w, g.rows, r, (t', k') => FusedCell(exp, z, cols, vb, g, r, t', k'))
    ensures Line(w, Times(t, r))(k) == Sum(g.nHeadsQ, PartOf(exp, z, cols, vb, g, r, t, k))
  {
    TableLine(w, g.rows, r, (t', k') => FusedCell(exp, z, cols, vb, g, r, t', k'), t, k);
    assert FusedCell(exp, z, cols, vb, g, r, t, k) == Sum(g.nHeadsQ, h => FusedTerm(exp, z, cols, vb, g, r, t, k, h));
    SumExt(g.nHeadsQ, h => FusedTerm(exp, z, cols, vb, g, r, t, k, h), PartOf(exp, z, cols, vb, g, r, t, k));
  }

  /** A cell of `attend_project_into` is the sum over the heads of such averages of the projected values. */
  lemma FusedLaw(exp: real -> real, z: seq<real>, cols: (int, int) -> seq<nat>, vb: seq<real>, w: seq<real>, g: Geom,
                 r: nat,
                 t: nat, k: nat)
    returns (part: int -> real)
    requires Exponential(exp) && Admits(cols, g) && t < g.rows && k < r
    requires |z| == g.nHeadsQ * (g.rows * g.currentPos) && |vb| == g.nHeadsQ * (g.currentPos * r)
    requires IsTable(w, g.rows, r, (t', k') => FusedCell(exp, z, cols, vb, g, r, t', k'))
    ensures Line(w, Times(t, r))(k) == Sum(g.nHeadsQ, part)
    ensures forall h: nat | h < g.nHeadsQ ::
      IsAverage(part(h), exp, |cols(h, t)|, Picked(z, RowAt(h, t, g.rows, g.currentPos), cols(h, t)),
                PickedRows(vb, h, g.currentPos, r, cols(h, t)), k)
  {
    part := PartOf(exp, z, cols, vb, g, r, t, k);
    FusedIsSumOfParts(exp, z, cols, vb, w, g, r, t, k);
    forall h: nat | h < g.nHeadsQ
      ensures IsAverage(part(h), exp, |cols(h, t)|, Picked(z, RowAt(h, t, g.rows, g.currentPos), cols(h, t)),
                        PickedRows(vb, h, g.currentPos, r, cols(h, t)), k)
    {
      PartLine(exp, z, cols, vb, g, r, t, k, h);
    }
  }

  // ----- projections

  /** Column k of the n rows of width r that begin at x. */
  function Column(s: seq<real>, x: nat, r: nat, k: int): int -> real {
    e => if e < 0 then 0.0 else Line(s, x + Times(e, r))(k)
  }

  ghost function ValueOf(v: seq<real>, basis: seq<real>, g: Geom, r: nat): (int, int, int) -> real
    requires g.nKvHeads > 0
  {
    (h, p, k) => ValueCell(v, basis, g, r, h, p, k)
  }

  lemma ColumnCell(s: seq<real>, l: nat, m: nat, r: nat, a: nat, e: nat, k: nat)
    requires |s| == l * (m * r) && a < l && e < m && k < r
    ensures At(Block(Block(s, a, m * r), e, r), k) == Column(s, Times(a, m * r), r, k)(e)
  {
    BlockCell(s, l, m, r, a, e, k);
    TimesIsProduct(a, m * r);
    TimesIsProduct(e, r);
    LineCell(s, Ix3(a, e, k, m, r), Times(a, m * r) + Times(e, r), k);
  }

  lemma ValueLine(v: seq<real>, basis: seq<real>, g: Geom, r: nat, h: nat, p: nat, k: nat, kv: nat)
    requires g.nKvHeads > 0 && h < g.nHeadsQ && p < g.currentPos && k < r && kv == g.KvHead(h) < g.nKvHeads
    requires |v| == g.nKvHeads * (g.currentPos * g.headDim) && |basis| == g.nHeadsQ * (g.headDim * r)
    ensures ValueOf(v, basis, g, r)(h, p, k)
         == Inner(g.headDim, Line(v, RowAt(kv, p, g.currentPos, g.headDim)),
                  Column(basis, Times(h, g.headDim * r), r, k))
  {
    var (row, rows) := (Elements(Block(GroupBlock(v, g, h), p, g.headDim)), RowsOf(Slab(basis, g, r, h), r));
    var (f, c) := (Line(v, RowAt(kv, p, g.currentPos, g.headDim)), Column(basis, Times(h, g.headDim * r), r, k));
    BlockIsLine(v, g.nKvHeads, g.currentPos, g.headDim, kv, p);
    forall e | 0 <= e < g.headDim ensures row(e) == f(e) && rows(e, k) == c(e) {
      assert At(Block(GroupBlock(v, g, h), p, g.headDim), e) == f(e);
      ColumnCell(basis, g.nHeadsQ, g.headDim, r, h, e, k);
    }
    SameProducts(g.headDim, row, rows, k, f, c);
    assert ValueOf(v, basis, g, r)(h, p, k) == ValueCell(v, basis, g, r, h, p, k);
  }

  lemma SameProducts(n: nat, row: int -> real, rows: (int, int) -> real, k: int, f: int -> real, c: int -> real)
    requires forall e | 0 <= e < n :: row(e) == f(e) && rows(e, k) == c(e)
    ensures Weighted(n, row, rows, k) == Inner(n, f, c)
  {
    SumExt(n, e => row(e) * rows(e, k), e => f(e) * c(e));
  }

  /** vb[h][p][k]: the cached value row p of the head's group against column k of the head's slab of the basis. */
  lemma ValueLaw(v: seq<real>, basis: seq<real>, vb: seq<real>, g: Geom, r: nat, h: nat, p: nat, k: nat)
    requires g.Grouped() && h < g.nHeadsQ && p < g.currentPos && k < r
    requires |v| == g.nKvHeads * (g.currentPos * g.headDim) && |basis| == g.nHeadsQ * (g.headDim * r)
    requires IsTable3(vb, g.nHeadsQ, g.currentPos, r, (h', p', k') => ValueCell(v, basis, g, r, h', p', k'))
    ensures Line(vb, RowAt(h, p, g.currentPos, r))(k)
         == Inner(g.headDim, Line(v, RowAt(g.KvHead(h), p, g.currentPos, g.headDim)),
                  Column(basis, Times(h, g.headDim * r), r, k))
  {
    Table3Line(vb, g.nHeadsQ, g.currentPos, r, ValueOf(v, basis, g, r), h, p, k);
    ValueLine(v, basis, g, r, h, p, k, g.KvHead(h));
  }

  /** w[t][k]: row t of x against column k of the basis. */
  lemma ProjectLaw(x: seq<real>, basis: seq<real>, w: seq<real>, rows: nat, d: nat, r: nat, t: nat, k: nat)
    requires |x| == rows * d && |basis| == d * r && t < rows && k < r
    requires IsTable(w, rows, r, (t', k') => ProjectCell(x, basis, d, r, t', k'))
    ensures Line(w, Times(t, r))(k) == Inner(d, Line(x, Times(t, d)), Column(basis, 0, r, k))
  {
    TableLine(w, rows, r, (t', k') => ProjectCell(x, basis, d, r, t', k'), t, k);
    ProjectLine(x, basis, rows, d, r, t, k);
  }

  lemma ProjectLine(x: seq<real>, basis: seq<real>, rows: nat, d: nat, r: nat, t: nat, k: nat)
    requires |x| == rows * d && |basis| == d * r && t < rows && k < r
    ensures ProjectCell(x, basis, d, r, t, k) == Inner(d, Line(x, Times(t, d)), Column(basis, 0, r, k))
  {
    var (xr, b) := (Elements(Block(x, t, d)), RowsOf(basis, r));
    var (f, c) := (Line(x, Times(t, d)), Column(basis, 0, r, k));
    RowIsLine(x, rows, d, t);
    forall e | 0 <= e < d ensures xr(e) == f(e) && b(e, k) == c(e) {
      assert At(Block(x, t, d), e) == f(e);
      RowIsLine(basis, d, r, e);
      assert At(Block(basis, e, r), k) == Line(basis, Times(e, r))(k);
    }
    SameProducts(d, xr, b, k, f, c);
  }
}
