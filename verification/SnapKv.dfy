/** SnapKV's per-head selection: window mean, pooling, group mean, then the top-k shape. */
module SnapKv {
  import opened Sums
  import opened Layout
  import opened KeepTopK

  datatype Select = Select(nQHeads: nat, nKvHeads: nat, cols: nat, current: nat, window: nat, kernel: nat, heavy: nat,
                           protected: nat) {
    /** How many consecutive query heads vote for one KV head, never zero. */
    function Groups(): nat {
      var q := nQHeads / (if nKvHeads > 1 then nKvHeads else 1);
      if q > 1 then q else 1
    }

    /** The scored region is [0, HeavyLen). */
    function HeavyLen(): nat {
      Max(current - window, 0)
    }

    /** Every group has its query heads, rows cover the scored region, and the divisors are positive. */
    ghost predicate Valid() {
      window > 0 && kernel > 0 && cols >= HeavyLen() && nKvHeads * Groups() <= nQHeads
    }

    function SpecOf(headStart: seq<nat>, kv: nat): Spec {
      Spec(if kv < |headStart| then headStart[kv] else 0, current, protected, window, heavy)
    }
  }

  // ----- pooling

  /** The zero-padded window of `kernel` positions around i, averaged over `kernel`. */
  function PoolAt(input: seq<real>, kernel: nat, i: int): real
    requires kernel > 0
  {
    Sum(kernel, j => At(input, i - kernel / 2 + j)) / kernel as real
  }

  method AvgPool1d(input: seq<real>, kernel: nat, out: array<real>)
    requires kernel > 0 && out.Length == |input|
    modifies out
    ensures forall i | 0 <= i < out.Length :: out[i] == PoolAt(input, kernel, i)
  {
    var pad := kernel / 2;
    for i := 0 to out.Length
      invariant forall i' | 0 <= i' < i :: out[i'] == PoolAt(input, kernel, i')
    {
      var s := 0.0;
      for j := 0 to kernel
        invariant s == Sum(j, j' => At(input, i - kernel / 2 + j'))
      {
        var x := i - pad + j;
        assert At(input, x) == if x >= 0 && x < |input| then input[x] else 0.0;
        if x >= 0 && x < |input| {
          s := s + input[x];
        }
      }
      out[i] := s / kernel as real;
    }
  }

  // ----- scores

  function Scaled(row: seq<real>, c: real, n: nat): seq<real>
    requires n <= |row|
  {
    seq(n, i requires 0 <= i < n => row[i] * c)
  }

  /** One query head's smoothed mean attention to a position. */
  function HeadScore(s: Select, row: seq<real>, pos: int): real
    requires s.window > 0 && s.kernel > 0
  {
    if s.HeavyLen() <= |row| then PoolAt(Scaled(row, 1.0 / s.window as real, s.HeavyLen()), s.kernel, pos) else 0.0
  }

  function GroupSum(s: Select, read: int -> seq<real>, kv: int, pos: int, n: nat): real
    requires s.window > 0 && s.kernel > 0
  {
    Sum(n, g => HeadScore(s, read(kv * s.Groups() + g), pos))
  }

  /** The ranking key of a KV head: the mean over its query heads. */
  function GroupScore(s: Select, read: int -> seq<real>, kv: int): int -> real
    requires s.window > 0 && s.kernel > 0
  {
    pos => GroupSum(s, read, kv, pos, s.Groups()) * (1.0 / s.Groups() as real)
  }

  method PoolHeads(s: Select, read: int -> seq<real>) returns (pooled: seq<seq<real>>)
    requires s.Valid() && forall qh | 0 <= qh < s.nQHeads :: |read(qh)| == s.cols
    ensures ArePooled(pooled, s, read)
  {
    pooled := [];
    var inv := 1.0 / s.window as real;
    for qh := 0 to s.nQHeads
      invariant |pooled| == qh && forall q | 0 <= q < qh :: IsPooled(pooled[q], s, read, q)
    {
      var scaled := Scaled(read(qh), inv, s.HeavyLen());
      var p := new real[s.HeavyLen()](_ => 0.0);
      AvgPool1d(scaled, s.kernel, p);
      pooled := pooled + [p[..]];
    }
  }

  /** pooled holds the smoothed score of every query head at every position of the scored region. */
  ghost predicate ArePooled(pooled: seq<seq<real>>, s: Select, read: int -> seq<real>)
    requires s.window > 0 && s.kernel > 0
  {
    |pooled| == s.nQHeads && forall qh | 0 <= qh < |pooled| :: IsPooled(pooled[qh], s, read, qh)
  }

  ghost predicate IsPooled(row: seq<real>, s: Select, read: int -> seq<real>, qh: int)
    requires s.window > 0 && s.kernel > 0
  {
    |row| == s.HeavyLen() && forall pos | 0 <= pos < |row| :: row[pos] == HeadScore(s, read(qh), pos)
  }

  /** The scores of a group's query heads at one position, added up. */
  method AddGroup(s: Select, pooled: seq<seq<real>>, kv: nat, base: nat, pos: nat, ghost read: int -> seq<real>)
    returns (sum: real)
    requires s.window > 0 && s.kernel > 0 && ArePooled(pooled, s, read) && pos < s.HeavyLen()
    requires base == kv * s.Groups() && base + s.Groups() <= s.nQHeads
    ensures sum == GroupSum(s, read, kv, pos, s.Groups())
  {
    sum := 0.0;
    for g := 0 to s.Groups()
      invariant sum == GroupSum(s, read, kv, pos, g)
    {
      assert IsPooled(pooled[base + g], s, read, base + g);
      sum := sum + pooled[base + g][pos];
    }
  }

  method GroupScores(s: Select, pooled: seq<seq<real>>, kv: nat, ghost read: int -> seq<real>)
    returns (scores: seq<real>)
    requires s.Valid() && kv < s.nKvHeads && ArePooled(pooled, s, read)
    ensures |scores| == s.HeavyLen() && forall pos | 0 <= pos < |scores| :: scores[pos] == GroupScore(s, read, kv)(pos)
  {
    var (base, inv) := (kv * s.Groups(), 1.0 / s.Groups() as real);
    GroupBounds(s, kv, base);
    scores := [];
    for pos := 0 to s.HeavyLen()
      invariant |scores| == pos && forall p | 0 <= p < pos :: scores[p] == GroupScore(s, read, kv)(p)
    {
      var sum := AddGroup(s, pooled, kv, base, pos, read);
      var mean := sum * inv;
      assert mean == GroupScore(s, read, kv)(pos);
      scores := scores + [mean];
    }
  }

  // ----- the selection

  /** The scored region covers every position that is ever ranked. */
  lemma MiddleIsScored(s: Select, headStart: seq<nat>, kv: nat, pos: int)
    requires InMiddle(s.SpecOf(headStart, kv), pos)
    ensures 0 <= pos < s.HeavyLen()
  {
  }

  /** A score list read with a fallback past its end. */
  function WithFallback(scores: seq<real>, fallback: real): int -> real {
    pos => if 0 <= pos < |scores| then scores[pos] else fallback
  }

  /** The fallback is never reached: any value in its place selects the same list. */
  lemma FallbackUnreached(s: Select, headStart: seq<nat>, kv: nat, scores: seq<real>, a: real, b: real, keep: seq<int>)
    requires |scores| == s.HeavyLen() && IsTopK(s.SpecOf(headStart, kv), WithFallback(scores, a), keep)
    ensures IsTopK(s.SpecOf(headStart, kv), WithFallback(scores, b), keep)
  {
    forall pos | InMiddle(s.SpecOf(headStart, kv), pos)
      ensures WithFallback(scores, a)(pos) == WithFallback(scores, b)(pos)
    {
      MiddleIsScored(s, headStart, kv, pos);
    }
    ScoresOutsideDoNotMatter(s.SpecOf(headStart, kv), WithFallback(scores, a), WithFallback(scores, b), keep);
  }

  /** For each KV head, the top-k list of the mean pooled score of its query heads. */
  method PerHeadKeepFrom(s: Select, read: int -> seq<real>, headStart: seq<nat>) returns (keeps: seq<seq<int>>)
    requires s.Valid() && forall qh | 0 <= qh < s.nQHeads :: |read(qh)| == s.cols
    ensures |keeps| == s.nKvHeads
    ensures forall kv | 0 <= kv < |keeps| :: IsTopK(s.SpecOf(headStart, kv), GroupScore(s, read, kv), keeps[kv])
  {
    var pooled := PoolHeads(s, read);
    keeps := [];
    for kv := 0 to s.nKvHeads
      invariant |keeps| == kv
      invariant forall k | 0 <= k < kv :: IsTopK(s.SpecOf(headStart, k), GroupScore(s, read, k), keeps[k])
    {
      var scores := GroupScores(s, pooled, kv, read);
      var keep := CompileKeepTopK(s.SpecOf(headStart, kv), WithFallback(scores, 0.0));
      forall pos | InMiddle(s.SpecOf(headStart, kv), pos)
        ensures WithFallback(scores, 0.0)(pos) == GroupScore(s, read, kv)(pos)
      {
        MiddleIsScored(s, headStart, kv, pos);
      }
      ScoresOutsideDoNotMatter(s.SpecOf(headStart, kv), WithFallback(scores, 0.0), GroupScore(s, read, kv), keep);
      keeps := keeps + [keep];
    }
  }

  /**
   * Two heads keep equally many positions exactly when they start at the same place, or both have
   * room for the whole budget: protected prefix, heavy hitters and window.
   */
  lemma LengthsAgreeExactly(s: Select, headStart: seq<nat>, read: int -> seq<real>, a: nat, b: nat,
                            keepA: seq<int>, keepB: seq<int>)
    requires s.Valid()
    requires IsTopK(s.SpecOf(headStart, a), GroupScore(s, read, a), keepA)
    requires IsTopK(s.SpecOf(headStart, b), GroupScore(s, read, b), keepB)
    ensures var (x, y, n) := (s.SpecOf(headStart, a).First(), s.SpecOf(headStart, b).First(),
                              s.protected + s.heavy + s.window);
      |keepA| == |keepB| <==> x == y || (n <= s.current - x && n <= s.current - y)
  {
    TopKLength(s.SpecOf(headStart, a), GroupScore(s, read, a), keepA);
    TopKLength(s.SpecOf(headStart, b), GroupScore(s, read, b), keepB);
  }

  /** Without starts every list has the same length: the promise of the uniform entry point. */
  lemma UniformLengthsAgree(s: Select, read: int -> seq<real>, a: nat, b: nat, keepA: seq<int>, keepB: seq<int>)
    requires s.Valid()
    requires IsTopK(s.SpecOf([], a), GroupScore(s, read, a), keepA)
      && IsTopK(s.SpecOf([], b), GroupScore(s, read, b), keepB)
    ensures |keepA| == |keepB|
  {
    LengthsAgreeExactly(s, [], read, a, b, keepA, keepB);
  }

  /** With starts it can fail: of 8 positions a head resident from 6 keeps 2, one resident from 0 keeps 4. */
  lemma RaggedLengthsDiffer(read: int -> seq<real>, keepA: seq<int>, keepB: seq<int>)
    requires var s := Select(2, 2, 8, 8, 1, 1, 3, 0);
      IsTopK(s.SpecOf([0, 6], 0), GroupScore(s, read, 0), keepA)
        && IsTopK(s.SpecOf([0, 6], 1), GroupScore(s, read, 1), keepB)
    ensures |keepA| == 4 && |keepB| == 2
  {
    var s := Select(2, 2, 8, 8, 1, 1, 3, 0);
    TopKLength(s.SpecOf([0, 6], 0), GroupScore(s, read, 0), keepA);
    TopKLength(s.SpecOf([0, 6], 1), GroupScore(s, read, 1), keepB);
  }

  // ----- the scores by position

  /** The terms of f from a on, k of them, as far as they are below n: a sum over all n that counts only those. */
  lemma {:induction false} WindowSum(n: nat, a: int, k: nat, f: int -> real)
    ensures Sum(k, j => if 0 <= a + j < n then f(a + j) else 0.0) == Sum(n, p => if a <= p < a + k then f(p) else 0.0)
  {
    if k == 0 {
      SumZero(n, p => if a <= p < a + k then f(p) else 0.0);
    } else {
      WindowSum(n, a, k - 1, f);
      var before := (p: int) => if a <= p < a + k - 1 then f(p) else 0.0;
      var after := (p: int) => if a <= p < a + k then f(p) else 0.0;
      SumExt(n, p => if a <= p < a + (k - 1) then f(p) else 0.0, before);
      var q := a + k - 1;
      if 0 <= q < n { SumOneChanged(n, q, before, after); } else { SumExt(n, before, after); }
      SumExt(n, after, p => if a <= p < a + k then f(p) else 0.0);
      SumExt(k - 1, j => if 0 <= a + j < n then f(a + j) else 0.0, j => if 0 <= a + j < n then f(a + j) else 0.0);
    }
  }

  /** The sum of f over the positions below n from a on, k of them. */
  function WindowOf(n: nat, a: int, k: nat, f: int -> real): real {
    Sum(n, p => if a <= p < a + k then f(p) else 0.0)
  }

  function CellsOf(input: seq<real>): int -> real {
    p => At(input, p)
  }

  lemma QuotientBalances(x: real, y: real)
    requires y > 0.0
    ensures Balanced(x / y, y, x) && Balanced(x * (1.0 / y), y, x)
  {
  }

  lemma PoolIsWindow(input: seq<real>, kernel: nat, i: int)
    ensures Sum(kernel, j => At(input, i - kernel / 2 + j)) == WindowOf(|input|, i - kernel / 2, kernel, CellsOf(input))
  {
    var (a, f) := (i - kernel / 2, CellsOf(input));
    WindowSum(|input|, a, kernel, f);
    SumExt(kernel, j => At(input, i - kernel / 2 + j), j => if 0 <= a + j < |input| then f(a + j) else 0.0);
  }

  /** A pooled value times the kernel: the inputs from kernel / 2 before the position on, `kernel` of them. */
  lemma PoolLaw(input: seq<real>, kernel: nat, i: int)
    requires kernel > 0
    ensures Balanced(PoolAt(input, kernel, i), kernel as real,
                     WindowOf(|input|, i - kernel / 2, kernel, CellsOf(input)))
  {
    PoolIsWindow(input, kernel, i);
    QuotientBalances(Sum(kernel, j => At(input, i - kernel / 2 + j)), kernel as real);
  }

  function HeadScores(s: Select, read: int -> seq<real>, pos: int): int -> real
    requires s.window > 0 && s.kernel > 0
  {
    qh => HeadScore(s, read(qh), pos)
  }

  lemma GroupIsWindow(s: Select, read: int -> seq<real>, kv: int, pos: int, a: nat, k: nat)
    requires s.window > 0 && s.kernel > 0 && k == s.Groups() && a == kv * k && a + k <= s.nQHeads
    ensures GroupSum(s, read, kv, pos, k) == WindowOf(s.nQHeads, a, k, HeadScores(s, read, pos))
  {
    var f := HeadScores(s, read, pos);
    WindowSum(s.nQHeads, a, k, f);
    SumExt(k, g => HeadScore(s, read(kv * s.Groups() + g), pos), j => if 0 <= a + j < s.nQHeads then f(a + j) else 0.0);
  }

  lemma GroupBounds(s: Select, kv: nat, a: int)
    requires s.Valid() && kv < s.nKvHeads && a == kv * s.Groups()
    ensures 0 <= a && a + s.Groups() <= s.nQHeads
  {
    NextRow(-1, kv, s.Groups());
    NextRow(kv, s.nKvHeads, s.Groups());
  }

  lemma GroupShare(s: Select, read: int -> seq<real>, kv: int, pos: int, total: real)
    requires s.window > 0 && s.kernel > 0 && total == GroupSum(s, read, kv, pos, s.Groups())
    ensures Balanced(GroupScore(s, read, kv)(pos), s.Groups() as real, total)
  {
    QuotientBalances(total, s.Groups() as real);
  }

  /** The score of a KV head times the size of its group: the scores of its query heads, which begin at head a. */
  lemma GroupLaw(s: Select, read: int -> seq<real>, kv: nat, pos: int, a: nat)
    requires s.Valid() && kv < s.nKvHeads && a == kv * s.Groups()
    ensures a + s.Groups() <= s.nQHeads
    ensures Balanced(GroupScore(s, read, kv)(pos), s.Groups() as real,
                     WindowOf(s.nQHeads, a, s.Groups(), HeadScores(s, read, pos)))
  {
    GroupBounds(s, kv, a);
    GroupIsWindow(s, read, kv, pos, a, s.Groups());
    GroupShare(s, read, kv, pos, WindowOf(s.nQHeads, a, s.Groups(), HeadScores(s, read, pos)));
  }

  lemma {:induction false} ScaledWindow(n: nat, a: int, k: nat, f: int -> real, c: real, g: int -> real)
    requires forall p | 0 <= p < n :: f(p) == c * g(p)
    ensures WindowOf(n, a, k, f) == c * WindowOf(n, a, k, g)
  {
    var h := (p: int) => if a <= p < a + k then g(p) else 0.0;
    SumScale(n, c, h);
    SumExt(n, p => if a <= p < a + k then f(p) else 0.0, p => c * h(p));
    SumExt(n, h, p => if a <= p < a + k then g(p) else 0.0);
  }

  lemma PoolOfHead(s: Select, read: int -> seq<real>, pos: int, qh: int, c: real)
    requires s.window > 0 && s.kernel > 0 && s.HeavyLen() <= |read(qh)| && c == 1.0 / s.window as real
    ensures Balanced(HeadScores(s, read, pos)(qh), s.kernel as real,
                     WindowOf(s.HeavyLen(), pos - s.kernel / 2, s.kernel, CellsOf(Scaled(read(qh), c, s.HeavyLen()))))
  {
    PoolLaw(Scaled(read(qh), c, s.HeavyLen()), s.kernel, pos);
    assert HeadScores(s, read, pos)(qh) == HeadScore(s, read(qh), pos);
  }

  lemma ShareOfWindow(y: real, raw: real, c: real, w: real)
    requires y == c * raw && w > 0.0 && c == 1.0 / w
    ensures Balanced(y, w, raw)
  {
    QuotientBalances(raw, w);
  }

  lemma RawWindow(row: seq<real>, n: nat, a: int, k: nat, w: nat, c: real)
    requires n <= |row| && w > 0 && c == 1.0 / w as real
    ensures Balanced(WindowOf(n, a, k, CellsOf(Scaled(row, c, n))), w as real, WindowOf(n, a, k, CellsOf(row)))
  {
    ScaledWindow(n, a, k, CellsOf(Scaled(row, c, n)), c, CellsOf(row));
    ShareOfWindow(WindowOf(n, a, k, CellsOf(Scaled(row, c, n))), WindowOf(n, a, k, CellsOf(row)), c, w as real);
  }

  /**
   * A query head's score times the kernel is y, and y times the window is its raw attention over the
   * positions of the pooling window.
   */
  lemma HeadLaw(s: Select, read: int -> seq<real>, pos: int, qh: int) returns (y: real)
    requires s.window > 0 && s.kernel > 0 && s.HeavyLen() <= |read(qh)|
    ensures Balanced(HeadScores(s, read, pos)(qh), s.kernel as real, y)
    ensures Balanced(y, s.window as real, WindowOf(s.HeavyLen(), pos - s.kernel / 2, s.kernel, CellsOf(read(qh))))
  {
    var c := 1.0 / s.window as real;
    y := WindowOf(s.HeavyLen(), pos - s.kernel / 2, s.kernel, CellsOf(Scaled(read(qh), c, s.HeavyLen())));
    PoolOfHead(s, read, pos, qh, c);
    RawWindow(read(qh), s.HeavyLen(), pos - s.kernel / 2, s.kernel, s.window, c);
  }

  /** Where the heads divide, a group is as large as the ratio; the scored region is all but the window. */
  lemma GroupsAre(s: Select, ratio: nat)
    requires s.nKvHeads > 0 && ratio > 0 && s.nQHeads == ratio * s.nKvHeads
    ensures s.Groups() == ratio && s.HeavyLen() == if s.window <= s.current then s.current - s.window else 0
  {
    var (q, r) := (s.nQHeads / s.nKvHeads, s.nQHeads % s.nKvHeads);
    assert Ix(q, r, s.nKvHeads) == Ix(ratio, 0, s.nKvHeads);
    IxInjective(q, r, ratio, 0, s.nKvHeads);
  }

  /** A KV head keeps its first `protected` resident positions and the whole window, and the rest by its own score. */
  lemma KeptPerHead(s: Select, headStart: seq<nat>, read: int -> seq<real>, kv: nat, keep: seq<int>, x: int, start: nat)
    requires s.Valid() && IsTopK(s.SpecOf(headStart, kv), GroupScore(s, read, kv), keep)
    requires start == if kv < |headStart| then headStart[kv] else 0
    ensures x in keep ==> start <= x < s.current
    ensures start <= x < s.current && (x < start + s.protected || s.current <= x + s.window) ==> x in keep
    ensures x in keep && start + s.protected <= x < s.current - s.window ==>
      var score := GroupScore(s, read, kv);
      forall y | start <= y < s.current && y !in keep :: score(x) > score(y) || (score(x) == score(y) && x < y)
  {
    KeptExactly(s.SpecOf(headStart, kv), GroupScore(s, read, kv), keep, x);
  }
}
