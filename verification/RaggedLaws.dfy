/** Ragged and dense attention by flat index: which slots are read, and what each of them weighs. */
module RaggedLaws {
  import opened Sums
  import opened Layout
  import opened Softmax
  import opened Logits
  import opened KernelSpec
  import opened KernelLaws
  import opened Ragged

  /** The scaled dot products of query head h with the cached keys of KV head kv, from slot `start` on. */
  function Scaled(scale: real, q: seq<real>, k: seq<real>, g: Geom, h: nat, kv: nat, start: nat): int -> real {
    j => if j < 0 then 0.0
      else Inner(g.headDim, Line(q, Times(h, g.headDim)),
                 Line(k, RowAt(kv, start + j, g.currentPos, g.headDim))) * scale
  }

  /** The cached value rows of KV head kv, from slot `start` on. */
  function Values(v: seq<real>, g: Geom, kv: nat, start: nat): (int, int) -> real {
    (j, e) => if j < 0 then 0.0 else Line(v, RowAt(kv, start + j, g.currentPos, g.headDim))(e)
  }

  lemma ScaledSlot(scale: real, q: seq<real>, k: seq<real>, g: Geom, h: nat, kv: nat, start: nat, j: nat)
    requires CacheFits(q, k, k, g) && h < g.nHeadsQ && kv == g.KvHead(h) < g.nKvHeads && start + j < g.currentPos
    ensures SlotLogits(scale, Block(q, h, g.headDim), GroupBlock(k, g, h), g.headDim, start)(j)
         == Scaled(scale, q, k, g, h, kv, start)(j)
  {
    var (dh, p) := (g.headDim, start + j);
    RowIsLine(q, g.nHeadsQ, dh, h);
    BlockIsLine(k, g.nKvHeads, g.currentPos, dh, kv, p);
    DotOfLines(dh, Block(q, h, dh), Block(GroupBlock(k, g, h), p, dh), q, Times(h, dh), k,
               RowAt(kv, p, g.currentPos, dh));
  }

  lemma ValueSlot(v: seq<real>, g: Geom, h: nat, kv: nat, start: nat, j: nat, e: nat)
    requires |v| == g.nKvHeads * (g.currentPos * g.headDim) && g.nKvHeads > 0
    requires kv == g.KvHead(h) < g.nKvHeads && start + j < g.currentPos && e < g.headDim
    ensures SlotValues(GroupBlock(v, g, h), g.headDim, start)(j, e) == Values(v, g, kv, start)(j, e)
  {
    BlockIsLine(v, g.nKvHeads, g.currentPos, g.headDim, kv, start + j);
    assert At(Block(GroupBlock(v, g, h), start + j, g.headDim), e)
      == Line(v, RowAt(kv, start + j, g.currentPos, g.headDim))(e);
  }

  /** One output component over n slots: zero of none, else the average by the exponentials of their logits. */
  ghost predicate OutIs(x: real, exp: real -> real, n: nat, f: int -> real, v: (int, int) -> real, e: int) {
    if n == 0 then x == 0.0 else IsAverage(x, exp, n, f, v, e)
  }

  /** The score of slot j among n: its exponential's share, and zero outside. */
  ghost predicate ScoreIs(x: real, exp: real -> real, n: nat, f: int -> real, j: int) {
    if 0 <= j < n then ExpSum(exp, n, f) > 0.0 && Balanced(x, ExpSum(exp, n, f), ExpOf(exp, f)(j)) else x == 0.0
  }

  lemma SlotsLaw(exp: real -> real, scale: real, q: seq<real>, k: seq<real>, v: seq<real>, g: Geom, h: nat, kv: nat,
                 start: nat, n: nat, e: nat, x: real)
    requires Exponential(exp) && CacheFits(q, k, v, g) && h < g.nHeadsQ && kv == g.KvHead(h) < g.nKvHeads
    requires start + n <= g.currentPos && e < g.headDim
    requires x == SlotMix(exp, scale, Block(q, h, g.headDim), GroupBlock(k, g, h), GroupBlock(v, g, h), g.headDim,
                          start, n, e)
    ensures OutIs(x, exp, n, Scaled(scale, q, k, g, h, kv, start), Values(v, g, kv, start), e)
  {
    if n > 0 {
      var (qr, kh, vh, dh) := (Block(q, h, g.headDim), GroupBlock(k, g, h), GroupBlock(v, g, h), g.headDim);
      forall j | 0 <= j < n
        ensures SlotLogits(scale, qr, kh, dh, start)(j) == Scaled(scale, q, k, g, h, kv, start)(j)
        ensures SlotValues(vh, dh, start)(j, e) == Values(v, g, kv, start)(j, e)
      {
        ScaledSlot(scale, q, k, g, h, kv, start, j);
        ValueSlot(v, g, h, kv, start, j, e);
      }
      MixOfLines(exp, n, SlotLogits(scale, qr, kh, dh, start), SlotValues(vh, dh, start),
                 Scaled(scale, q, k, g, h, kv, start), Values(v, g, kv, start), e);
    }
  }

  lemma SlotScoreLaw(exp: real -> real, scale: real, q: seq<real>, k: seq<real>, g: Geom, h: nat, kv: nat,
                     start: nat, n: nat, j: int, x: real)
    requires Exponential(exp) && CacheFits(q, k, k, g) && h < g.nHeadsQ && kv == g.KvHead(h) < g.nKvHeads
    requires start + n <= g.currentPos
    requires x == SlotWeight(exp, scale, Block(q, h, g.headDim), GroupBlock(k, g, h), g.headDim, start, n, j)
    ensures ScoreIs(x, exp, n, Scaled(scale, q, k, g, h, kv, start), j)
  {
    if 0 <= j < n {
      var (f, f') := (SlotLogits(scale, Block(q, h, g.headDim), GroupBlock(k, g, h), g.headDim, start),
                      Scaled(scale, q, k, g, h, kv, start));
      forall i | 0 <= i < n ensures f(i) == f'(i) { ScaledSlot(scale, q, k, g, h, kv, start, i); }
      SoftExt(exp, n, f, f', j);
      SoftLaw(exp, n, f', j, x);
    }
  }

  lemma SoftLaw(exp: real -> real, n: nat, f: int -> real, j: int, x: real)
    requires n > 0 && Exponential(exp) && x == Soft(exp, n, f, j)
    ensures ExpSum(exp, n, f) > 0.0 && Balanced(x, ExpSum(exp, n, f), ExpOf(exp, f)(j))
  {
    WeightIsShare(exp, n, f, j);
  }

  /** The slots a head reads: those of the row that the head holds. */
  lemma StartIs(kvStart: seq<nat>, g: Geom, base: nat, len: nat, h: nat, slot: nat)
    requires g.nKvHeads > 0 && g.KvHead(h) < |kvStart| && base <= slot < len
    ensures StartOf(kvStart, g, base, len, h) <= slot <==> kvStart[g.KvHead(h)] <= slot
    ensures base <= StartOf(kvStart, g, base, len, h) <= len
  {
  }

  /** An output cell of ragged attention. */
  lemma RaggedOutLaw(exp: real -> real, scale: real, q: seq<real>, k: seq<real>, v: seq<real>, g: Geom,
                     kvStart: seq<nat>,
                     base: nat, len: nat, out: seq<real>, h: nat, e: nat, start: nat)
    requires Exponential(exp) && CacheFits(q, k, v, g) && base <= len <= g.currentPos && h < g.nHeadsQ && e < g.headDim
    requires IsTable(out, g.nHeadsQ, g.headDim, RaggedOut(exp, scale, q, k, v, g, kvStart, base, len))
    requires start == StartOf(kvStart, g, base, len, h)
    ensures OutIs(Line(out, Times(h, g.headDim))(e), exp, len - start,
                  Scaled(scale, q, k, g, h, g.KvHead(h), start), Values(v, g, g.KvHead(h), start), e)
  {
    StartInRange(kvStart, g, base, len, h);
    TableLine(out, g.nHeadsQ, g.headDim, RaggedOut(exp, scale, q, k, v, g, kvStart, base, len), h, e);
    SlotsLaw(exp, scale, q, k, v, g, h, g.KvHead(h), start, len - start, e, Line(out, Times(h, g.headDim))(e));
  }

  /** A score of ragged attention: slot base + x of head h. */
  lemma RaggedScoreLaw(exp: real -> real, scale: real, q: seq<real>, k: seq<real>, g: Geom, kvStart: seq<nat>,
                       base: nat, len: nat, scores: seq<seq<real>>, h: nat, x: nat, start: nat)
    requires Exponential(exp) && CacheFits(q, k, k, g) && base <= len <= g.currentPos && h < g.nHeadsQ && x < len - base
    requires |scores| == g.nHeadsQ && RowsAre(scores, len - base, RaggedScores(exp, scale, q, k, g, kvStart, base, len))
    requires start == StartOf(kvStart, g, base, len, h)
    ensures |scores[h]| == len - base
    ensures ScoreIs(scores[h][x], exp, len - start, Scaled(scale, q, k, g, h, g.KvHead(h), start), base + x - start)
  {
    StartInRange(kvStart, g, base, len, h);
    assert RowIs(scores[h], len - base, RaggedScores(exp, scale, q, k, g, kvStart, base, len), h);
    SlotScoreLaw(exp, scale, q, k, g, h, g.KvHead(h), start, len - start, base + x - start, scores[h][x]);
  }

  /** An output cell and a score of dense attention: every slot from the first on. */
  lemma DenseLaw(exp: real -> real, scale: real, q: seq<real>, k: seq<real>, v: seq<real>, g: Geom, len: nat,
                 out: seq<real>, scores: seq<seq<real>>, h: nat, e: nat, x: nat)
    requires Exponential(exp) && CacheFits(q, k, v, g) && len <= g.currentPos && h < g.nHeadsQ && e < g.headDim
      && x < len
    requires IsTable(out, g.nHeadsQ, g.headDim, DenseOut(exp, scale, q, k, v, g, len))
    requires |scores| == g.nHeadsQ && RowsAre(scores, len, DenseScores(exp, scale, q, k, g, len))
    ensures |scores[h]| == len
    ensures var f := Scaled(scale, q, k, g, h, g.KvHead(h), 0);
      && OutIs(Line(out, Times(h, g.headDim))(e), exp, len, f, Values(v, g, g.KvHead(h), 0), e)
      && ScoreIs(scores[h][x], exp, len, f, x)
  {
    TableLine(out, g.nHeadsQ, g.headDim, DenseOut(exp, scale, q, k, v, g, len), h, e);
    assert RowIs(scores[h], len, DenseScores(exp, scale, q, k, g, len), h);
    SlotsLaw(exp, scale, q, k, v, g, h, g.KvHead(h), 0, len, e, Line(out, Times(h, g.headDim))(e));
    SlotScoreLaw(exp, scale, q, k, g, h, g.KvHead(h), 0, len, x, scores[h][x]);
  }
}
