/** Host attention of one query token over a head-major cache: every slot, or only the resident ones. */
module Ragged {
  import opened Sums
  import opened Layout
  import opened Softmax
  import opened Keep
  import opened Logits
  import opened KernelSpec
  import opened Kernel

  // Here g.currentPos is the capacity of the cache in slots and g.rows is not used.

  // ----- what attention over the slots [from, from + n) is

  /** The scaled logits of the slots from `from` on. */
  function SlotLogits(scale: real, qr: seq<real>, kh: seq<real>, dh: nat, from: int): int -> real {
    j => Dot(dh, qr, Block(kh, from + j, dh)) * scale
  }

  function SlotValues(vh: seq<real>, dh: nat, from: int): (int, int) -> real {
    (j, e) => At(Block(vh, from + j, dh), e)
  }

  /** Component e of the output over n slots; an empty range gives zero. */
  function SlotMix(exp: real -> real, scale: real, qr: seq<real>, kh: seq<real>, vh: seq<real>, dh: nat, from: int,
                   n: nat, e: int): real {
    if n == 0 then 0.0 else Mix(exp, n, SlotLogits(scale, qr, kh, dh, from), SlotValues(vh, dh, from), e)
  }

  /** The weight of slot from + j, and zero outside the range. */
  function SlotWeight(exp: real -> real, scale: real, qr: seq<real>, kh: seq<real>, dh: nat, from: int, n: nat,
                      j: int): real {
    if 0 <= j < n then Soft(exp, n, SlotLogits(scale, qr, kh, dh, from), j) else 0.0
  }

  // ----- one head of the ragged form: n resident slots from `start` on, behind `skip` holes

  /** The logits of the resident slots, in place; what lies before them is left alone. */
  method FillLogits(scale: real, qr: seq<real>, kh: seq<real>, dh: nat, start: nat, n: nat, skip: nat,
                    logits: array<real>)
    requires logits.Length == skip + n && |qr| == dh
    requires forall slot | start <= slot < start + n :: |Block(kh, slot, dh)| == dh
    modifies logits
    ensures forall x | skip <= x < skip + n :: logits[x] == SlotLogits(scale, qr, kh, dh, start)(x - skip)
  {
    for j := 0 to n
      invariant forall x | skip <= x < skip + j :: logits[x] == SlotLogits(scale, qr, kh, dh, start)(x - skip)
    {
      var dot := DotRows(qr, Block(kh, start + j, dh));
      logits[skip + j] := dot * scale;
    }
  }

  method DotRows(a: seq<real>, b: seq<real>) returns (sum: real)
    requires |a| == |b|
    ensures sum == Dot(|a|, a, b)
  {
    sum := 0.0;
    for e := 0 to |a|
      invariant sum == Dot(e, a, b)
    {
      assert Product(a, b, e) == a[e] * b[e];
      sum := sum + a[e] * b[e];
    }
  }

  method MaxTail(logits: array<real>, skip: nat, ghost f: int -> real) returns (m: Option<real>)
    requires skip <= logits.Length && forall x | skip <= x < logits.Length :: logits[x] == f(x - skip)
    ensures if skip == logits.Length then m == None else m == Some(MaxOf(logits.Length - skip, f))
  {
    m := None;
    for x := skip to logits.Length
      invariant if x == skip then m == None else m == Some(MaxOf(x - skip, f))
    {
      if m.None? || m.value < logits[x] {
        m := Some(logits[x]);
      }
    }
  }

  /** Exponentials over the last n elements of the row, and their sum. */
  method ExpTail(exp: real -> real, logits: array<real>, skip: nat, n: nat, m: real, ghost f: int -> real)
    returns (sum: real)
    requires logits.Length == skip + n && forall x | skip <= x < skip + n :: logits[x] == f(x - skip)
    modifies logits
    ensures sum == Partition(exp, n, f, m)
    ensures forall x | skip <= x < skip + n :: logits[x] == Unnormalised(exp, f, m, x - skip)
  {
    sum := 0.0;
    for j := 0 to n
      invariant sum == Partition(exp, j, f, m)
      invariant forall y | skip <= y < skip + n ::
        logits[y] == if y < skip + j then Unnormalised(exp, f, m, y - skip) else f(y - skip)
    {
      var x := skip + j;
      var e := exp(logits[x] - m);
      assert e == Unnormalised(exp, f, m, x - skip);
      logits[x] := e;
      sum := sum + e;
    }
  }

  /** The score row of one head: zero over the holes, the softmax of the resident slots behind them. */
  method RaggedWeights(exp: real -> real, scale: real, qr: seq<real>, kh: seq<real>, dh: nat, start: nat, n: nat,
                       skip: nat, lowest: real)
    returns (weights: seq<real>)
    requires Positive(exp) && |qr| == dh
    requires forall slot | start <= slot < start + n :: |Block(kh, slot, dh)| == dh
    ensures |weights| == skip + n
    ensures forall x | 0 <= x < |weights| :: weights[x] == SlotWeight(exp, scale, qr, kh, dh, start, n, x - skip)
  {
    var logits := new real[skip + n](_ => lowest);
    FillLogits(scale, qr, kh, dh, start, n, skip, logits);
    Normalise(exp, logits, skip, n, SlotLogits(scale, qr, kh, dh, start));
    weights := logits[..];
  }

  /** Softmax in place over the last n elements of the row, zeros before them. */
  method Normalise(exp: real -> real, logits: array<real>, skip: nat, n: nat, ghost f: int -> real)
    requires Positive(exp) && logits.Length == skip + n && forall x | skip <= x < skip + n :: logits[x] == f(x - skip)
    modifies logits
    ensures forall x | 0 <= x < skip :: logits[x] == 0.0
    ensures n > 0 ==> forall x | skip <= x < skip + n :: logits[x] == Soft(exp, n, f, x - skip)
  {
    var m := MaxTail(logits, skip, f);
    var max := if m.None? then 0.0 else m.value;
    var sum := ExpTail(exp, logits, skip, n, max, f);
    ghost var stage := logits[..];
    var inv := InverseOf(n, sum);
    FinishRow(logits, skip, inv);
    if n > 0 { TailIsSoft(exp, stage, skip, n, sum, inv, logits[..], f); }
  }

  /** Zeros over the holes, the factor applied behind them. */
  method FinishRow(logits: array<real>, skip: nat, inv: real)
    requires skip <= logits.Length
    modifies logits
    ensures forall x | 0 <= x < logits.Length :: logits[x] == if x < skip then 0.0 else old(logits[x]) * inv
  {
    Clear(logits, 0, skip);
    ScaleTail(logits, skip, inv);
  }

  /** The normalising factor: nothing resident gives zero, a sum that is not positive the uniform weight. */
  function InverseOf(n: nat, sum: real): real {
    if n == 0 then 0.0 else if sum <= 0.0 then 1.0 / n as real else 1.0 / sum
  }

  lemma TailIsSoft(exp: real -> real, stage: seq<real>, skip: nat, n: nat, sum: real, inv: real, row: seq<real>,
                   f: int -> real)
    requires Positive(exp) && n > 0 && inv == InverseOf(n, sum) && |stage| == |row| == skip + n
      && sum == Partition(exp, n, f, MaxOf(n, f))
    requires forall x | skip <= x < |stage| :: stage[x] == Unnormalised(exp, f, MaxOf(n, f), x - skip)
    requires forall x | skip <= x < |stage| :: row[x] == stage[x] * inv
    ensures forall x | skip <= x < |stage| :: row[x] == Soft(exp, n, f, x - skip)
  {
    PartitionPositive(exp, n, f, MaxOf(n, f));
    forall x | skip <= x < |stage| ensures row[x] == Soft(exp, n, f, x - skip) {
      SoftByInverse(exp, n, f, sum, x - skip);
    }
  }

  lemma SoftByInverse(exp: real -> real, n: nat, f: int -> real, sum: real, j: int)
    requires n > 0 && sum == Partition(exp, n, f, MaxOf(n, f)) && sum > 0.0
    ensures Unnormalised(exp, f, MaxOf(n, f), j) * (1.0 / sum) == Soft(exp, n, f, j)
    ensures Unnormalised(exp, f, MaxOf(n, f), j) / sum == Soft(exp, n, f, j)
  {
    Quotient(Unnormalised(exp, f, MaxOf(n, f), j), sum);
  }

  method ScaleTail(logits: array<real>, skip: nat, inv: real)
    requires skip <= logits.Length
    modifies logits
    ensures forall x | 0 <= x < logits.Length :: logits[x] == if x < skip then old(logits[x]) else old(logits[x]) * inv
  {
    for x := skip to logits.Length
      invariant forall y | 0 <= y < logits.Length ::
        logits[y] == if skip <= y < x then old(logits[y]) * inv else old(logits[y])
    {
      logits[x] := if inv == 0.0 then 0.0 else logits[x] * inv;
    }
  }

  /** The weighted sum of the value rows from `start` on; a zero weight may be skipped. */
  method MixSlots(weights: seq<real>, vh: seq<real>, dh: nat, start: nat, out: array<real>, at: nat, skipZeros: bool)
    requires at + dh <= out.Length && forall slot | start <= slot < start + |weights| :: |Block(vh, slot, dh)| == dh
    modifies out
    ensures forall e | 0 <= e < dh ::
      out[at + e] == Weighted(|weights|, Elements(weights), SlotValues(vh, dh, start), e)
    ensures forall x | 0 <= x < out.Length && !(at <= x < at + dh) :: out[x] == old(out[x])
  {
    Clear(out, at, dh);
    for j := 0 to |weights|
      invariant forall e | 0 <= e < dh :: out[at + e] == Weighted(j, Elements(weights), SlotValues(vh, dh, start), e)
      invariant forall x | 0 <= x < out.Length && !(at <= x < at + dh) :: out[x] == old(out[x])
    {
      ghost var before := out[..];
      assert forall e | 0 <= e < dh :: before[at + e] == Weighted(j, Elements(weights), SlotValues(vh, dh, start), e);
      var row := Block(vh, start + j, dh);
      if !skipZeros || weights[j] != 0.0 {
        AddScaled(out, at, weights[j], row, dh);
      }
      ghost var next := j + 1;
      forall e | 0 <= e < dh ensures out[at + e] == Weighted(next, Elements(weights), SlotValues(vh, dh, start), e) {
        SlotAdds(weights, vh, dh, start, j, e);
        assert out[at + e] == before[at + e] + weights[j] * row[e];
      }
    }
  }

  lemma SlotAdds(weights: seq<real>, vh: seq<real>, dh: nat, start: nat, j: nat, e: nat)
    requires j < |weights| && |Block(vh, start + j, dh)| == dh && e < dh
    ensures Weighted(j + 1, Elements(weights), SlotValues(vh, dh, start), e)
         == Weighted(j, Elements(weights), SlotValues(vh, dh, start), e) + weights[j] * Block(vh, start + j, dh)[e]
  {
    assert SlotValues(vh, dh, start)(j, e) == At(Block(vh, start + j, dh), e);
  }

  /** One head: its score row and its output. */
  method RaggedHead(exp: real -> real, scale: real, qr: seq<real>, kh: seq<real>, vh: seq<real>, dh: nat, start: nat,
                    n: nat, skip: nat,
                    lowest: real, out: array<real>, at: nat)
    returns (weights: seq<real>)
    requires Positive(exp) && |qr| == dh && at + dh <= out.Length
    requires forall slot | start <= slot < start + n :: |Block(kh, slot, dh)| == dh && |Block(vh, slot, dh)| == dh
    modifies out
    ensures |weights| == skip + n
    ensures forall x | 0 <= x < |weights| :: weights[x] == SlotWeight(exp, scale, qr, kh, dh, start, n, x - skip)
    ensures forall e | 0 <= e < dh :: out[at + e] == SlotMix(exp, scale, qr, kh, vh, dh, start, n, e)
    ensures forall x | 0 <= x < out.Length && !(at <= x < at + dh) :: out[x] == old(out[x])
  {
    weights := RaggedWeights(exp, scale, qr, kh, dh, start, n, skip, lowest);
    MixSlots(weights[skip..], vh, dh, start, out, at, true);
    WeightedIsSlotMix(exp, scale, qr, kh, vh, dh, start, n, weights[skip..]);
  }

  lemma WeightedIsSlotMix(exp: real -> real, scale: real, qr: seq<real>, kh: seq<real>, vh: seq<real>, dh: nat,
                          start: nat, n: nat, weights: seq<real>)
    requires |weights| == n && forall j | 0 <= j < n :: weights[j] == SlotWeight(exp, scale, qr, kh, dh, start, n, j)
    ensures forall e | 0 <= e < dh ::
      Weighted(n, Elements(weights), SlotValues(vh, dh, start), e) == SlotMix(exp, scale, qr, kh, vh, dh, start, n, e)
  {
    if n > 0 {
      forall e | 0 <= e < dh
        ensures Weighted(n, Elements(weights), SlotValues(vh, dh, start), e)
          == SlotMix(exp, scale, qr, kh, vh, dh, start, n, e)
      {
        MixIsWeighted(exp, n, SlotLogits(scale, qr, kh, dh, start), Elements(weights), SlotValues(vh, dh, start), e);
      }
    }
  }

  // ----- one head of the dense form

  method DenseHead(exp: real -> real, scale: real, qr: seq<real>, kh: seq<real>, vh: seq<real>, dh: nat, len: nat,
                   out: array<real>, at: nat)
    returns (weights: seq<real>)
    requires Positive(exp) && |qr| == dh && at + dh <= out.Length
    requires forall slot | 0 <= slot < len :: |Block(kh, slot, dh)| == dh && |Block(vh, slot, dh)| == dh
    modifies out
    ensures |weights| == len
    ensures forall x | 0 <= x < |weights| :: weights[x] == SlotWeight(exp, scale, qr, kh, dh, 0, len, x)
    ensures forall e | 0 <= e < dh :: out[at + e] == SlotMix(exp, scale, qr, kh, vh, dh, 0, len, e)
    ensures forall x | 0 <= x < out.Length && !(at <= x < at + dh) :: out[x] == old(out[x])
  {
    weights := DenseWeights(exp, scale, qr, kh, dh, len);
    MixSlots(weights, vh, dh, 0, out, at, false);
    WeightedIsSlotMix(exp, scale, qr, kh, vh, dh, 0, len, weights);
  }

  method DenseWeights(exp: real -> real, scale: real, qr: seq<real>, kh: seq<real>, dh: nat, len: nat)
    returns (weights: seq<real>)
    requires Positive(exp) && |qr| == dh && forall slot | 0 <= slot < len :: |Block(kh, slot, dh)| == dh
    ensures |weights| == len
    ensures forall x | 0 <= x < |weights| :: weights[x] == SlotWeight(exp, scale, qr, kh, dh, 0, len, x)
  {
    var scores := new real[len](_ => 0.0);
    ghost var f := SlotLogits(scale, qr, kh, dh, 0);
    FillLogits(scale, qr, kh, dh, 0, len, 0, scores);
    if len > 0 { NormaliseAll(exp, scores, f); }
    weights := scores[..];
  }

  method NormaliseAll(exp: real -> real, scores: array<real>, ghost f: int -> real)
    requires Positive(exp) && scores.Length > 0 && forall x | 0 <= x < scores.Length :: scores[x] == f(x)
    modifies scores
    ensures forall x | 0 <= x < scores.Length :: scores[x] == Soft(exp, scores.Length, f, x)
  {
    var n := scores.Length;
    var m := MaxTail(scores, 0, f);
    var sum := ExpTail(exp, scores, 0, n, m.value, f);
    PartitionPositive(exp, n, f, m.value);
    ghost var stage := scores[..];
    AllDivided(exp, stage, n, sum, f);
    DivideAll(scores, sum);
    assert forall x | 0 <= x < n :: scores[x] == Share(stage[x], sum);
  }

  function Share(x: real, total: real): real
    requires total != 0.0
  {
    x / total
  }

  lemma AllDivided(exp: real -> real, stage: seq<real>, n: nat, sum: real, f: int -> real)
    requires n > 0 && |stage| == n && sum == Partition(exp, n, f, MaxOf(n, f)) && sum > 0.0
    requires forall x | 0 <= x < n :: stage[x] == Unnormalised(exp, f, MaxOf(n, f), x - 0)
    ensures forall x | 0 <= x < n :: Share(stage[x], sum) == Soft(exp, n, f, x)
  {
    forall x | 0 <= x < n ensures Share(stage[x], sum) == Soft(exp, n, f, x) {
      SoftByInverse(exp, n, f, sum, x);
    }
  }

  method DivideAll(a: array<real>, total: real)
    requires total != 0.0
    modifies a
    ensures forall x | 0 <= x < a.Length :: a[x] == Share(old(a[x]), total)
  {
    for i := 0 to a.Length
      invariant forall x | 0 <= x < a.Length :: a[x] == if x < i then Share(old(a[x]), total) else old(a[x])
    {
      a[i] := a[i] / total;
    }
  }

  // ----- all heads

  /** Where head h's slots begin: never below the base of the row, never past its end. */
  function StartOf(kvStart: seq<nat>, g: Geom, base: nat, len: nat, h: nat): nat
    requires g.nKvHeads > 0
  {
    var s := if g.KvHead(h) < |kvStart| then kvStart[g.KvHead(h)] else 0;
    var s' := if s < base then base else s;
    if s' < len then s' else len
  }

  /** out[h][e] over the slots from `start` to `len`. */
  function OutCell(exp: real -> real, scale: real, q: seq<real>, k: seq<real>, v: seq<real>, g: Geom, start: nat,
                   len: nat, h: int, e: int): real
    requires g.nKvHeads > 0
  {
    if start > len then 0.0
    else SlotMix(exp, scale, Block(q, h, g.headDim), GroupBlock(k, g, h), GroupBlock(v, g, h), g.headDim, start,
                 len - start, e)
  }

  /** The weight of slot base + x in head h's score row. */
  function ScoreCell(exp: real -> real, scale: real, q: seq<real>, k: seq<real>, g: Geom, start: nat, len: nat,
                     base: int, h: int, x: int): real
    requires g.nKvHeads > 0
  {
    if start > len then 0.0
    else SlotWeight(exp, scale, Block(q, h, g.headDim), GroupBlock(k, g, h), g.headDim, start, len - start,
                    x - (start - base))
  }

  ghost predicate CacheFits(q: seq<real>, k: seq<real>, v: seq<real>, g: Geom) {
    && g.Grouped() && |q| == g.nHeadsQ * g.headDim
    && |k| == |v| == g.nKvHeads * (g.currentPos * g.headDim)
  }

  lemma HeadBlocks(q: seq<real>, k: seq<real>, v: seq<real>, g: Geom, h: nat)
    requires CacheFits(q, k, v, g) && h < g.nHeadsQ
    ensures |Block(q, h, g.headDim)| == g.headDim && 0 <= h * g.headDim
      && h * g.headDim + g.headDim <= g.nHeadsQ * g.headDim
    ensures forall slot | 0 <= slot < g.currentPos ::
      |Block(GroupBlock(k, g, h), slot, g.headDim)| == g.headDim
        && |Block(GroupBlock(v, g, h), slot, g.headDim)| == g.headDim
  {
    BlockFits(q, h, g.nHeadsQ, g.headDim);
    BlockFits(k, g.KvHead(h), g.nKvHeads, g.currentPos * g.headDim);
    BlockFits(v, g.KvHead(h), g.nKvHeads, g.currentPos * g.headDim);
    forall slot | 0 <= slot < g.currentPos
      ensures |Block(GroupBlock(k, g, h), slot, g.headDim)| == g.headDim
        && |Block(GroupBlock(v, g, h), slot, g.headDim)| == g.headDim
    {
      BlockFits(GroupBlock(k, g, h), slot, g.currentPos, g.headDim);
      BlockFits(GroupBlock(v, g, h), slot, g.currentPos, g.headDim);
    }
  }

  ghost function RaggedOut(exp: real -> real, scale: real, q: seq<real>, k: seq<real>, v: seq<real>, g: Geom,
                           kvStart: seq<nat>, base: nat, len: nat): (int, int) -> real
    requires g.nKvHeads > 0
  {
    (h, e) => if h < 0 then 0.0 else OutCell(exp, scale, q, k, v, g, StartOf(kvStart, g, base, len, h), len, h, e)
  }

  ghost function RaggedScores(exp: real -> real, scale: real, q: seq<real>, k: seq<real>, g: Geom, kvStart: seq<nat>,
                              base: nat, len: nat): (int, int) -> real
    requires g.nKvHeads > 0
  {
    (h, x) => if h < 0 then 0.0 else ScoreCell(exp, scale, q, k, g, StartOf(kvStart, g, base, len, h), len, base, h, x)
  }

  ghost predicate RowsAre(rows: seq<seq<real>>, n: nat, f: (int, int) -> real) {
    forall h | 0 <= h < |rows| :: RowIs(rows[h], n, f, h)
  }

  ghost predicate RowIs(row: seq<real>, n: nat, f: (int, int) -> real, h: int) {
    |row| == n && forall x | 0 <= x < n :: row[x] == f(h, x)
  }

  lemma OneMoreRow(rows: seq<seq<real>>, n: nat, f: (int, int) -> real, row: seq<real>)
    requires RowsAre(rows, n, f) && RowIs(row, n, f, |rows|)
    ensures RowsAre(rows + [row], n, f)
  {
  }

  method RaggedHeadAt(exp: real -> real, scale: real, q: seq<real>, k: seq<real>, v: seq<real>, g: Geom,
                      kvStart: seq<nat>, base: nat, len: nat,
                      lowest: real, out: array<real>, h: nat)
    returns (weights: seq<real>)
    requires Positive(exp) && CacheFits(q, k, v, g) && out.Length == g.nHeadsQ * g.headDim && h < g.nHeadsQ
      && base <= len <= g.currentPos
    modifies out
    ensures RowIs(weights, len - base, RaggedScores(exp, scale, q, k, g, kvStart, base, len), h)
    ensures 0 <= h * g.headDim && h * g.headDim + g.headDim <= out.Length
      && Confined(old(out[..]), out[..], h * g.headDim, g.headDim)
    ensures forall e | 0 <= e < g.headDim ::
      out[h * g.headDim + e] == RaggedOut(exp, scale, q, k, v, g, kvStart, base, len)(h, e)
  {
    StartInRange(kvStart, g, base, len, h);
    weights := HeadFrom(exp, scale, q, k, v, g, StartOf(kvStart, g, base, len, h), base, len, lowest, out, h);
  }

  lemma StartInRange(kvStart: seq<nat>, g: Geom, base: nat, len: nat, h: nat)
    requires g.nKvHeads > 0 && base <= len
    ensures base <= StartOf(kvStart, g, base, len, h) <= len
  {
  }

  /** One head over the slots from `start` on, the score row beginning at `base`. */
  method HeadFrom(exp: real -> real, scale: real, q: seq<real>, k: seq<real>, v: seq<real>, g: Geom, start: nat,
                  base: nat, len: nat,
                  lowest: real, out: array<real>, h: nat)
    returns (weights: seq<real>)
    requires Positive(exp) && CacheFits(q, k, v, g) && out.Length == g.nHeadsQ * g.headDim && h < g.nHeadsQ
    requires base <= start <= len <= g.currentPos
    modifies out
    ensures |weights| == len - base
    ensures forall x | 0 <= x < |weights| :: weights[x] == ScoreCell(exp, scale, q, k, g, start, len, base, h, x)
    ensures 0 <= h * g.headDim && h * g.headDim + g.headDim <= out.Length
      && Confined(old(out[..]), out[..], h * g.headDim, g.headDim)
    ensures forall e | 0 <= e < g.headDim :: out[h * g.headDim + e] == OutCell(exp, scale, q, k, v, g, start, len, h, e)
  {
    HeadBlocks(q, k, v, g, h);
    weights := RaggedHead(exp, scale, Block(q, h, g.headDim), GroupBlock(k, g, h), GroupBlock(v, g, h), g.headDim,
                          start, len - start, start - base, lowest, out, h * g.headDim);
    forall x ensures ScoreCell(exp, scale, q, k, g, start, len, base, h, x)
      == SlotWeight(exp, scale, Block(q, h, g.headDim), GroupBlock(k, g, h), g.headDim, start, len - start,
                    x - (start - base)) {}
    assert |weights| == (start - base) + (len - start);
  }

  /** Attention over the resident slots only; refused when the starts, the base or the length do not fit. */
  method AttentionRagged(exp: real -> real, scale: real, q: seq<real>, k: seq<real>, v: seq<real>, g: Geom,
                         kvStart: seq<nat>, base: nat, len: nat,
                         lowest: real, out: array<real>)
    returns (ok: bool, scores: seq<seq<real>>)
    requires Positive(exp) && CacheFits(q, k, v, g) && out.Length == g.nHeadsQ * g.headDim
    modifies out
    ensures ok == (|kvStart| == g.nKvHeads && base <= len <= g.currentPos)
    ensures ok ==> IsTable(out[..], g.nHeadsQ, g.headDim, RaggedOut(exp, scale, q, k, v, g, kvStart, base, len))
    ensures ok ==> |scores| == g.nHeadsQ && RowsAre(scores, len - base,
                                                    RaggedScores(exp, scale, q, k, g, kvStart, base, len))
    ensures !ok ==> out[..] == old(out[..])
  {
    scores := [];
    ok := |kvStart| == g.nKvHeads && base <= len && len <= g.currentPos;
    if !ok {
      return;
    }
    ghost var f := RaggedOut(exp, scale, q, k, v, g, kvStart, base, len);
    ghost var w := RaggedScores(exp, scale, q, k, g, kvStart, base, len);
    for h := 0 to g.nHeadsQ
      invariant RowsDone(out[..], 0, h, g.headDim, f)
      invariant |scores| == h && RowsAre(scores, len - base, w)
    {
      ghost var before := out[..];
      var weights := RaggedHeadAt(exp, scale, q, k, v, g, kvStart, base, len, lowest, out, h);
      OneMoreRow(scores, len - base, w, weights);
      scores := scores + [weights];
      RowsGrow(before, out[..], 0, h, g.headDim, f);
    }
  }

  ghost function DenseOut(exp: real -> real, scale: real, q: seq<real>, k: seq<real>, v: seq<real>, g: Geom,
                          len: nat): (int, int) -> real
    requires g.nKvHeads > 0
  {
    (h, e) => OutCell(exp, scale, q, k, v, g, 0, len, h, e)
  }

  ghost function DenseScores(exp: real -> real, scale: real, q: seq<real>, k: seq<real>, g: Geom,
                             len: nat): (int, int) -> real
    requires g.nKvHeads > 0
  {
    (h, x) => ScoreCell(exp, scale, q, k, g, 0, len, 0, h, x)
  }

  method DenseHeadAt(exp: real -> real, scale: real, q: seq<real>, k: seq<real>, v: seq<real>, g: Geom, len: nat,
                     out: array<real>, h: nat)
    returns (weights: seq<real>)
    requires Positive(exp) && CacheFits(q, k, v, g) && out.Length == g.nHeadsQ * g.headDim && h < g.nHeadsQ
      && len <= g.currentPos
    modifies out
    ensures RowIs(weights, len, DenseScores(exp, scale, q, k, g, len), h)
    ensures 0 <= h * g.headDim && h * g.headDim + g.headDim <= out.Length
      && Confined(old(out[..]), out[..], h * g.headDim, g.headDim)
    ensures forall e | 0 <= e < g.headDim :: out[h * g.headDim + e] == DenseOut(exp, scale, q, k, v, g, len)(h, e)
  {
    HeadBlocks(q, k, v, g, h);
    weights := DenseHead(exp, scale, Block(q, h, g.headDim), GroupBlock(k, g, h), GroupBlock(v, g, h), g.headDim, len,
                         out, h * g.headDim);
  }

  /** Attention over every slot of a head-major cache. */
  method AttentionDense(exp: real -> real, scale: real, q: seq<real>, k: seq<real>, v: seq<real>, g: Geom, len: nat,
                        out: array<real>)
    returns (scores: seq<seq<real>>)
    requires Positive(exp) && CacheFits(q, k, v, g) && g.nHeadsQ >= g.nKvHeads && len <= g.currentPos
      && out.Length == g.nHeadsQ * g.headDim
    modifies out
    ensures IsTable(out[..], g.nHeadsQ, g.headDim, DenseOut(exp, scale, q, k, v, g, len))
    ensures |scores| == g.nHeadsQ && RowsAre(scores, len, DenseScores(exp, scale, q, k, g, len))
  {
    scores := [];
    ghost var f := DenseOut(exp, scale, q, k, v, g, len);
    ghost var w := DenseScores(exp, scale, q, k, g, len);
    for h := 0 to g.nHeadsQ
      invariant RowsDone(out[..], 0, h, g.headDim, f)
      invariant |scores| == h && RowsAre(scores, len, w)
    {
      ghost var before := out[..];
      var weights := DenseHeadAt(exp, scale, q, k, v, g, len, out, h);
      OneMoreRow(scores, len, w, weights);
      scores := scores + [weights];
      RowsGrow(before, out[..], 0, h, g.headDim, f);
    }
  }

  // ----- the holes do not matter

  /** Two caches agree on every slot a query head may attend to. */
  ghost predicate AgreeFrom(k: seq<real>, k': seq<real>, g: Geom, kvStart: seq<nat>, base: nat, len: nat, h: nat)
    requires g.nKvHeads > 0
  {
    forall slot | StartOf(kvStart, g, base, len, h) <= slot < len ::
      Block(GroupBlock(k, g, h), slot, g.headDim) == Block(GroupBlock(k', g, h), slot, g.headDim)
  }

  /** Neither the output nor the scores of a head depend on keys or values below its start. */
  lemma HolesDoNotMatter(exp: real -> real, scale: real, q: seq<real>, k: seq<real>, v: seq<real>, k': seq<real>,
                         v': seq<real>,
                         g: Geom, kvStart: seq<nat>, base: nat, len: nat, h: nat, e: int, x: int)
    requires g.nKvHeads > 0 && AgreeFrom(k, k', g, kvStart, base, len, h) && AgreeFrom(v, v', g, kvStart, base, len, h)
    ensures RaggedOut(exp, scale, q, k, v, g, kvStart, base, len)(h, e)
      == RaggedOut(exp, scale, q, k', v', g, kvStart, base, len)(h, e)
    ensures RaggedScores(exp, scale, q, k, g, kvStart, base, len)(h, x)
      == RaggedScores(exp, scale, q, k', g, kvStart, base, len)(h, x)
  {
    CellsAgree(exp, scale, q, k, v, k', v', g, StartOf(kvStart, g, base, len, h), base, len, h, e, x);
  }

  lemma CellsAgree(exp: real -> real, scale: real, q: seq<real>, k: seq<real>, v: seq<real>, k': seq<real>,
                   v': seq<real>,
                   g: Geom, start: nat, base: nat, len: nat, h: nat, e: int, x: int)
    requires g.nKvHeads > 0
    requires forall slot | start <= slot < len ::
      Block(GroupBlock(k, g, h), slot, g.headDim) == Block(GroupBlock(k', g, h), slot, g.headDim)
    requires forall slot | start <= slot < len ::
      Block(GroupBlock(v, g, h), slot, g.headDim) == Block(GroupBlock(v', g, h), slot, g.headDim)
    ensures OutCell(exp, scale, q, k, v, g, start, len, h, e) == OutCell(exp, scale, q, k', v', g, start, len, h, e)
    ensures ScoreCell(exp, scale, q, k, g, start, len, base, h, x)
      == ScoreCell(exp, scale, q, k', g, start, len, base, h, x)
  {
    if start <= len {
      SlotsDetermine(exp, scale, Block(q, h, g.headDim), GroupBlock(k, g, h), GroupBlock(v, g, h), GroupBlock(k', g, h),
                     GroupBlock(v', g, h), g.headDim, start, len - start, e, x - (start - base));
    }
  }

  lemma SlotsDetermine(exp: real -> real, scale: real, qr: seq<real>, kh: seq<real>, vh: seq<real>, kh': seq<real>,
                       vh': seq<real>,
                       dh: nat, from: int, n: nat, e: int, j: int)
    requires forall slot | from <= slot < from + n :: Block(kh, slot, dh) == Block(kh', slot, dh)
    requires forall slot | from <= slot < from + n :: Block(vh, slot, dh) == Block(vh', slot, dh)
    ensures SlotMix(exp, scale, qr, kh, vh, dh, from, n, e) == SlotMix(exp, scale, qr, kh', vh', dh, from, n, e)
    ensures SlotWeight(exp, scale, qr, kh, dh, from, n, j) == SlotWeight(exp, scale, qr, kh', dh, from, n, j)
  {
    var (f, f') := (SlotLogits(scale, qr, kh, dh, from), SlotLogits(scale, qr, kh', dh, from));
    var (u, u') := (SlotValues(vh, dh, from), SlotValues(vh', dh, from));
    forall i | 0 <= i < n ensures f(i) == f'(i) && u(i, e) == u'(i, e) {
      assert Block(kh, from + i, dh) == Block(kh', from + i, dh) && Block(vh, from + i, dh) == Block(vh', from + i, dh);
    }
    if n > 0 { MixExt(exp, n, f, u, f', u', e, e); }
    if 0 <= j < n { SoftExt(exp, n, f, f', j); }
  }

  /** A score row is zero below the start, and sums to one whenever a slot is resident. */
  lemma ScoreRowSums(exp: real -> real, scale: real, q: seq<real>, k: seq<real>, g: Geom, kvStart: seq<nat>, base: nat,
                     len: nat, h: nat)
    requires Positive(exp) && g.nKvHeads > 0 && base <= len
    ensures var (w, start) := (RaggedScores(exp, scale, q, k, g, kvStart, base, len),
                               StartOf(kvStart, g, base, len, h));
      && base <= start <= len && (forall x | 0 <= x < start - base :: w(h, x) == 0.0)
      && Row(len - base, w, h) == if start < len then 1.0 else 0.0
  {
    StartInRange(kvStart, g, base, len, h);
    ScoreRowFrom(exp, scale, q, k, g, StartOf(kvStart, g, base, len, h), base, len, h,
                 RaggedScores(exp, scale, q, k, g, kvStart, base, len));
  }

  lemma ScoreRowFrom(exp: real -> real, scale: real, q: seq<real>, k: seq<real>, g: Geom, start: nat, base: nat,
                     len: nat, h: nat,
                     w: (int, int) -> real)
    requires Positive(exp) && g.nKvHeads > 0 && base <= start <= len
    requires forall x :: w(h, x) == ScoreCell(exp, scale, q, k, g, start, len, base, h, x)
    ensures forall x | 0 <= x < start - base :: w(h, x) == 0.0
    ensures Row(len - base, w, h) == if start < len then 1.0 else 0.0
  {
    var (skip, row) := (start - base, (x: int) => w(h, x));
    SlotWeightsSum(exp, scale, Block(q, h, g.headDim), GroupBlock(k, g, h), g.headDim, start, len - start, skip, row);
    forall x | 0 <= x < skip ensures w(h, x) == 0.0 { assert row(x) == 0.0; }
  }

  /** Zeros over the holes and a softmax behind them. */
  lemma SlotWeightsSum(exp: real -> real, scale: real, qr: seq<real>, kh: seq<real>, dh: nat, start: int, n: nat,
                       skip: nat, row: int -> real)
    requires Positive(exp) && forall x :: row(x) == SlotWeight(exp, scale, qr, kh, dh, start, n, x - skip)
    ensures (forall x | 0 <= x < skip :: row(x) == 0.0) && Sum(skip + n, row) == if n > 0 then 1.0 else 0.0
  {
    PaddedSoftSums(exp, n, skip, SlotLogits(scale, qr, kh, dh, start), row);
  }

  lemma PaddedSoftSums(exp: real -> real, n: nat, skip: nat, f: int -> real, row: int -> real)
    requires Positive(exp) && forall x | 0 <= x < skip :: row(x) == 0.0
    requires n > 0 ==> forall x | skip <= x < skip + n :: row(x) == Soft(exp, n, f, x - skip)
    ensures Sum(skip + n, row) == if n > 0 then 1.0 else 0.0
  {
    SumZero(skip, row);
    SumAppend(skip, n, row);
    if n > 0 {
      WeightsSumToOne(exp, n, f, MaxOf(n, f));
      SumExt(n, j => row(skip + j), j => Weight(exp, n, f, MaxOf(n, f), j));
    }
  }

  /** With nothing missing, the ragged form is the dense form: same output, same scores. */
  lemma RaggedIsDense(exp: real -> real, scale: real, q: seq<real>, k: seq<real>, v: seq<real>, g: Geom,
                      kvStart: seq<nat>, len: nat,
                      out: seq<real>, out': seq<real>, scores: seq<seq<real>>, scores': seq<seq<real>>)
    requires g.Grouped() && |kvStart| == g.nKvHeads && forall kv | 0 <= kv < |kvStart| :: kvStart[kv] == 0
    requires IsTable(out, g.nHeadsQ, g.headDim, RaggedOut(exp, scale, q, k, v, g, kvStart, 0, len))
    requires IsTable(out', g.nHeadsQ, g.headDim, DenseOut(exp, scale, q, k, v, g, len))
    requires |scores| == g.nHeadsQ && RowsAre(scores, len, RaggedScores(exp, scale, q, k, g, kvStart, 0, len))
    requires |scores'| == g.nHeadsQ && RowsAre(scores', len, DenseScores(exp, scale, q, k, g, len))
    ensures out == out' && scores == scores'
  {
    forall h | 0 <= h < g.nHeadsQ ensures StartOf(kvStart, g, 0, len, h) == 0 {}
    TableUnique(out, out', g.nHeadsQ, g.headDim, RaggedOut(exp, scale, q, k, v, g, kvStart, 0, len),
                DenseOut(exp, scale, q, k, v, g, len));
    forall h | 0 <= h < g.nHeadsQ ensures scores[h] == scores'[h] {
      assert RowIs(scores[h], len, RaggedScores(exp, scale, q, k, g, kvStart, 0, len), h);
      assert RowIs(scores'[h], len, DenseScores(exp, scale, q, k, g, len), h);
    }
  }
}
