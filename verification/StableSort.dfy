/** The standard library's stable sort, as the code uses it: positions by descending key. */
module StableSort {
  import opened Ordering

  /** x comes before y: the larger key first, and among equal keys the lower position. */
  predicate Before(x: int, y: int, key: int -> real) {
    key(x) > key(y) || (key(x) == key(y) && x < y)
  }

  ghost predicate Ordered(s: seq<int>, key: int -> real) {
    forall i, j | 0 <= i < j < |s| :: Before(s[i], s[j], key)
  }

  /** Stable insertion sort by descending key; an ascending input makes stability an index order. */
  method SortDescending(xs: seq<int>, key: int -> real) returns (ys: seq<int>)
    requires Ascending(xs)
    ensures Ordered(ys, key)
    ensures multiset(ys) == multiset(xs)
  {
    ys := [];
    for n := 0 to |xs|
      invariant Ordered(ys, key)
      invariant multiset(ys) == multiset(xs[..n])
    {
      Members(ys, xs[..n]);
      forall y | y in ys ensures y < xs[n] { assert y in xs[..n]; }
      ys := Place(ys, xs[n], key);
      assert xs[..n + 1] == xs[..n] + [xs[n]];
    }
    assert xs[..|xs|] == xs;
  }

  /** One insertion: behind every key that is not smaller. */
  method Place(ys: seq<int>, x: int, key: int -> real) returns (zs: seq<int>)
    requires Ordered(ys, key) && forall y | y in ys :: y < x
    ensures Ordered(zs, key) && multiset(zs) == multiset(ys) + multiset{x}
  {
    var k := |ys|;
    while k > 0 && key(ys[k - 1]) < key(x)
      invariant 0 <= k <= |ys|
      invariant forall i | k <= i < |ys| :: key(ys[i]) < key(x)
    {
      k := k - 1;
    }
    forall i | 0 <= i < k ensures Before(ys[i], x, key) {
      assert ys[i] in ys;
      if i < k - 1 { assert Before(ys[i], ys[k - 1], key); }
    }
    Insert(ys, k, x, key);
    zs := ys[..k] + [x] + ys[k..];
  }

  lemma Insert(ys: seq<int>, k: nat, x: int, key: int -> real)
    requires Ordered(ys, key) && k <= |ys|
    requires forall i | 0 <= i < k :: Before(ys[i], x, key)
    requires forall i | k <= i < |ys| :: key(ys[i]) < key(x)
    ensures Ordered(ys[..k] + [x] + ys[k..], key)
    ensures multiset(ys[..k] + [x] + ys[k..]) == multiset(ys) + multiset{x}
  {
    assert ys == ys[..k] + ys[k..];
  }

  lemma Members(s: seq<int>, t: seq<int>)
    requires multiset(s) == multiset(t)
    ensures forall x :: x in s <==> x in t
    ensures |s| == |t|
  {
    forall x ensures x in s <==> x in t {
      assert x in multiset(s) <==> x in multiset(t);
    }
    assert |multiset(s)| == |multiset(t)|;
  }

  /** Ordered sequences have distinct elements. */
  lemma OrderedDistinct(s: seq<int>, key: int -> real)
    requires Ordered(s, key)
    ensures forall i, j | 0 <= i < j < |s| :: s[i] != s[j]
  {
    forall i, j | 0 <= i < j < |s| ensures s[i] != s[j] {
      assert Before(s[i], s[j], key);
    }
  }
}
