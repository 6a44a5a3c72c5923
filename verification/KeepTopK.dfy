/** The keep-list shape of score-based eviction, and the SnapKV selection built on it. */
module KeepTopK {
  import opened Ordering
  import opened StableSort

  function Max(a: int, b: int): int {
    if a < b then b else a
  }

  /** Budgets of one list: a protected prefix, a recent window, and the heavy hitters between them. */
  datatype Spec = Spec(start: nat, current: nat, prefix: nat, recent: nat, heavy: nat) {
    /** The first resident position, clamped. */
    function First(): nat {
      Min(start, current)
    }

    function PrefixEnd(): nat {
      Min(First() + prefix, current)
    }

    function RecentStart(): nat {
      Max(Max(current - recent, 0), PrefixEnd())
    }

    /** How many heavy hitters there is room for. */
    function HeavyCount(): nat {
      Min(heavy, RecentStart() - PrefixEnd())
    }
  }

  function Run(from: int, to: int): (r: seq<int>)
    ensures |r| == Max(to - from, 0) && forall i | 0 <= i < |r| :: r[i] == from + i
  {
    if from < to then seq(to - from, i requires 0 <= i => from + i) else []
  }

  /** Positions between the prefix and the window. */
  predicate InMiddle(s: Spec, pos: int) {
    s.PrefixEnd() <= pos < s.RecentStart()
  }

  /** heavy is the best HeavyCount() middle positions by score, ties to the lower position, ascending. */
  ghost predicate IsHeavy(s: Spec, score: int -> real, heavy: seq<int>) {
    && Ascending(heavy) && |heavy| == s.HeavyCount() && (forall x | x in heavy :: InMiddle(s, x))
    && forall x, y | x in heavy && y !in heavy && InMiddle(s, y) :: Before(x, y, score)
  }

  ghost predicate IsTopK(s: Spec, score: int -> real, keep: seq<int>) {
    exists heavy :: IsHeavy(s, score, heavy) && keep == Assembled(s, heavy)
  }

  function Assembled(s: Spec, heavy: seq<int>): seq<int> {
    Run(s.First(), s.PrefixEnd()) + heavy + Run(s.RecentStart(), s.current)
  }

  // ----- the selection

  /** `sort_unstable` on distinct positions. */
  method SortAscending(xs: seq<int>) returns (ys: seq<int>)
    requires forall i, j | 0 <= i < j < |xs| :: xs[i] != xs[j]
    ensures Ascending(ys) && multiset(ys) == multiset(xs)
  {
    ys := [];
    for n := 0 to |xs|
      invariant Ascending(ys) && multiset(ys) == multiset(xs[..n])
    {
      Members(ys, xs[..n]);
      var k := |ys|;
      while k > 0 && ys[k - 1] > xs[n]
        invariant 0 <= k <= |ys| && forall i | k <= i < |ys| :: ys[i] > xs[n]
      {
        k := k - 1;
      }
      assert k > 0 ==> ys[k - 1] in xs[..n];
      InsertAscending(ys, k, xs[n]);
      ys := ys[..k] + [xs[n]] + ys[k..];
      assert xs[..n + 1] == xs[..n] + [xs[n]];
    }
    assert xs[..|xs|] == xs;
  }

  lemma InsertAscending(ys: seq<int>, k: nat, x: int)
    requires Ascending(ys) && k <= |ys| && (k > 0 ==> ys[k - 1] < x) && forall i | k <= i < |ys| :: ys[i] > x
    ensures Ascending(ys[..k] + [x] + ys[k..])
    ensures multiset(ys[..k] + [x] + ys[k..]) == multiset(ys) + multiset{x}
  {
    var r := ys[..k] + [x] + ys[k..];
    forall i | 0 <= i < k ensures r[i] == ys[i] < x {
      if i < k - 1 { assert ys[i] < ys[k - 1]; }
    }
    forall i, j | 0 <= i < j < |r| ensures r[i] < r[j] {
      if j < k {
        assert r[j] == ys[j];
      } else if i > k {
        assert r[i] == ys[i - 1] && r[j] == ys[j - 1];
      }
    }
    Inserted(ys, k, x);
  }

  lemma Inserted(ys: seq<int>, k: nat, x: int)
    requires k <= |ys|
    ensures multiset(ys[..k] + [x] + ys[k..]) == multiset(ys) + multiset{x}
  {
    assert ys == ys[..k] + ys[k..];
  }

  method CompileKeepTopK(s: Spec, score: int -> real) returns (keep: seq<int>)
    ensures IsTopK(s, score, keep)
  {
    var middle := Run(s.PrefixEnd(), s.RecentStart());
    var ranked := SortDescending(middle, score);
    OrderedDistinct(ranked, score);
    Members(ranked, middle);
    var best := ranked[..s.HeavyCount()];
    var heavy := SortAscending(best);
    Members(heavy, best);
    BestIsHeavy(s, score, middle, ranked, heavy);
    keep := Run(s.First(), s.PrefixEnd());
    keep := keep + heavy;
    keep := keep + Run(s.RecentStart(), s.current);
  }

  lemma BestIsHeavy(s: Spec, score: int -> real, middle: seq<int>, ranked: seq<int>, heavy: seq<int>)
    requires middle == Run(s.PrefixEnd(), s.RecentStart()) && Ordered(ranked, score)
    requires |ranked| == |middle| && forall x :: x in ranked <==> x in middle
    requires Ascending(heavy) && |heavy| == s.HeavyCount() && forall x :: x in heavy <==> x in ranked[..s.HeavyCount()]
    ensures IsHeavy(s, score, heavy)
  {
    var n := s.HeavyCount();
    forall x | x in heavy ensures InMiddle(s, x) {
      assert x in ranked[..n];
      assert x in ranked && x in middle;
    }
    forall k | 0 <= k < n ensures ranked[k] in heavy { assert ranked[..n][k] == ranked[k]; }
    forall x, y | x in heavy && y !in heavy && InMiddle(s, y) ensures Before(x, y, score) {
      assert middle[y - s.PrefixEnd()] == y;
      assert y in ranked;
      var i :| 0 <= i < n && ranked[i] == x;
      var j :| 0 <= j < |ranked| && ranked[j] == y;
    }
  }

  // ----- what every list satisfies

  /** Strictly ascending, inside [First, current), of exactly the three parts' length. */
  lemma TopKShape(s: Spec, score: int -> real, keep: seq<int>)
    requires IsTopK(s, score, keep)
    ensures Ascending(keep) && forall i | 0 <= i < |keep| :: s.First() <= keep[i] < s.current
    ensures |keep| == (s.PrefixEnd() - s.First()) + s.HeavyCount() + (s.current - s.RecentStart())
  {
    var heavy :| IsHeavy(s, score, heavy) && keep == Assembled(s, heavy);
    var (a, b) := (s.PrefixEnd() - s.First(), s.PrefixEnd() - s.First() + |heavy|);
    assert s.RecentStart() <= s.current;
    forall i | a <= i < b ensures InMiddle(s, keep[i]) && keep[i] == heavy[i - a] {
      assert keep[i] == heavy[i - a];
      assert heavy[i - a] in heavy;
    }
    assert forall i | 0 <= i < a :: keep[i] == s.First() + i;
    assert forall i | b <= i < |keep| :: keep[i] == s.RecentStart() + (i - b);
  }

  /** The length in one formula: the three budgets together, or everything resident if that is less. */
  lemma TopKLength(s: Spec, score: int -> real, keep: seq<int>)
    requires IsTopK(s, score, keep)
    ensures |keep| == Min(s.prefix + s.heavy + s.recent, s.current - s.First())
  {
    TopKShape(s, score, keep);
  }

  /** Whatever is dropped ranks behind every kept heavy hitter; prefix and window are never dropped. */
  lemma DroppedIsDominated(s: Spec, score: int -> real, keep: seq<int>, y: int)
    requires IsTopK(s, score, keep) && s.First() <= y < s.current && y !in keep
    ensures InMiddle(s, y)
    ensures forall x | x in keep && InMiddle(s, x) :: Before(x, y, score)
  {
    var heavy :| IsHeavy(s, score, heavy) && keep == Assembled(s, heavy);
    var (front, back) := (Run(s.First(), s.PrefixEnd()), Run(s.RecentStart(), s.current));
    forall p | s.First() <= p < s.PrefixEnd() ensures p in keep { assert front[p - s.First()] == p; }
    forall p | s.RecentStart() <= p < s.current ensures p in keep { assert back[p - s.RecentStart()] == p; }
    forall x | x in keep && InMiddle(s, x) ensures x in heavy {
      assert x !in front && x !in back;
    }
  }

  lemma SameHeavy(s: Spec, score: int -> real, a: seq<int>, b: seq<int>)
    requires IsHeavy(s, score, a) && IsHeavy(s, score, b)
    ensures a == b
  {
    var (sa, sb) := (Elements(a), Elements(b));
    AscendingCount(a);
    AscendingCount(b);
    EqualSizes(sa, sb);
    OneHoldsTheOther(s, score, a, b);
    assert sa == sb;
    forall x ensures x in a <==> x in b { assert x in sa <==> x in sb; }
    SortedUnique(a, b);
  }

  /** Positions in one heavy list alone would rank before those in the other alone, and behind them. */
  lemma OneHoldsTheOther(s: Spec, score: int -> real, a: seq<int>, b: seq<int>)
    requires IsHeavy(s, score, a) && IsHeavy(s, score, b)
    ensures Elements(a) - Elements(b) == {} || Elements(b) - Elements(a) == {}
  {
    var only := Elements(a) - Elements(b);
    if |only| > 0 {
      var x :| x in only;
      assert forall y | y in b && y !in a :: Before(x, y, score) && Before(y, x, score);
      assert Elements(b) - Elements(a) == {};
    }
  }

  /** Sets of one size lack as many elements of each other. */
  lemma EqualSizes(a: set<int>, b: set<int>)
    requires |a| == |b|
    ensures |a - b| == |b - a| && (a - b == {} <==> b - a == {})
  {
    assert a == a * b + (a - b) && b == a * b + (b - a);
    assert |a| == |a * b| + |a - b| && |b| == |a * b| + |b - a|;
  }

  function Elements(a: seq<int>): set<int> {
    set x | x in a
  }

  lemma {:induction false} AscendingCount(a: seq<int>)
    requires Ascending(a)
    ensures |Elements(a)| == |a|
  {
    if |a| > 0 {
      var init := a[..|a| - 1];
      AscendingCount(init);
      assert Elements(a) == Elements(init) + {a[|a| - 1]};
    }
  }

  lemma {:induction false} SortedUnique(a: seq<int>, b: seq<int>)
    requires Ascending(a) && Ascending(b) && forall x :: x in a <==> x in b
    ensures a == b
  {
    if |a| > 0 { assert a[0] in a; }
    if |b| > 0 { assert b[0] in b; }
    if |a| > 0 {
      var (x, y) := (a[|a| - 1], b[|b| - 1]);
      assert x in a && y in b;
      var (a', b') := (a[..|a| - 1], b[..|b| - 1]);
      forall z ensures z in a' <==> z in b' {
        assert a == a' + [x] && b == b' + [y];
        assert z in a <==> z in a' || z == x;
      }
      SortedUnique(a', b');
      assert a == a' + [x] && b == b' + [y];
    }
  }

  /** The list is determined by the spec and the scores: nothing about the sort shows. */
  lemma TopKUnique(s: Spec, score: int -> real, keep: seq<int>, keep': seq<int>)
    requires IsTopK(s, score, keep) && IsTopK(s, score, keep')
    ensures keep == keep'
  {
    var a :| IsHeavy(s, score, a) && keep == Assembled(s, a);
    var b :| IsHeavy(s, score, b) && keep' == Assembled(s, b);
    SameHeavy(s, score, a, b);
  }

  /** Only scores between the prefix and the window are ever consulted. */
  lemma ScoresOutsideDoNotMatter(s: Spec, score: int -> real, score': int -> real, keep: seq<int>)
    requires IsTopK(s, score, keep) && forall pos | InMiddle(s, pos) :: score(pos) == score'(pos)
    ensures IsTopK(s, score', keep)
  {
    var heavy :| IsHeavy(s, score, heavy) && keep == Assembled(s, heavy);
    forall x, y | x in heavy && y !in heavy && InMiddle(s, y) ensures Before(x, y, score') {
      assert Before(x, y, score);
    }
    assert IsHeavy(s, score', heavy);
  }

  /**
   * What is kept, position by position: everything within the prefix or the recent window, and of the
   * rest a position only if nothing that is dropped scores higher, or as high and earlier.
   */
  lemma KeptExactly(s: Spec, score: int -> real, keep: seq<int>, x: int)
    requires IsTopK(s, score, keep)
    ensures x in keep ==> s.start <= x < s.current
    ensures s.start <= x < s.current && (x < s.start + s.prefix || s.current <= x + s.recent) ==> x in keep
    ensures x in keep && s.start + s.prefix <= x < s.current - s.recent ==>
      forall y | s.start <= y < s.current && y !in keep :: score(x) > score(y) || (score(x) == score(y) && x < y)
  {
    TopKShape(s, score, keep);
    if s.start <= x < s.current && (x < s.start + s.prefix || s.current <= x + s.recent) && x !in keep {
      DroppedIsDominated(s, score, keep, x);
      assert false;
    }
    if x in keep && s.start + s.prefix <= x < s.current - s.recent {
      forall y | s.start <= y < s.current && y !in keep ensures Before(x, y, score) {
        DroppedIsDominated(s, score, keep, y);
      }
    }
  }
}
