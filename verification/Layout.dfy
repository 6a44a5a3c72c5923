/** Row-major addressing of flat buffers. */
module Layout {

  /** The flat position of (i, j) when the inner extent is n. */
  function Ix(i: int, j: int, n: int): int {
    i * n + j
  }

  /** A whole row fits between two different rows. */
  lemma NextRow(i: int, i': int, n: int)
    requires i < i' && n >= 0
    ensures i * n + n <= i' * n
  {
    var d := i' - i - 1;
    assert d * n >= 0;
    assert i' * n == i * n + n + d * n;
  }

  lemma IxBound(i: int, j: int, m: int, n: int)
    requires 0 <= i < m && 0 <= j < n
    ensures 0 <= Ix(i, j, n) < m * n
    ensures 0 <= i * n && i * n + n <= m * n
  {
    NextRow(i, m, n);
    NextRow(-1, i, n);
  }

  lemma IxInjective(i: int, j: int, i': int, j': int, n: int)
    requires 0 <= j < n && 0 <= j' < n && Ix(i, j, n) == Ix(i', j', n)
    ensures i == i' && j == j'
  {
    if i < i' {
      NextRow(i, i', n);
    } else if i' < i {
      NextRow(i', i, n);
    }
  }

  /** Every flat position is the position of some pair. */
  lemma {:induction false} IxCovers(x: int, m: int, n: int) returns (i: int, j: int)
    requires n > 0 && m >= 0 && 0 <= x < m * n
    ensures 0 <= i < m && 0 <= j < n && Ix(i, j, n) == x
    decreases m
  {
    var below := (m - 1) * n;
    assert m * n == below + n;
    if x >= below {
      i, j := m - 1, x - below;
    } else {
      i, j := IxCovers(x, m - 1, n);
    }
  }

  /** n times k, as n rounds of k: an address that costs a proof no multiplication. */
  function Times(n: nat, k: nat): nat {
    if n == 0 then 0 else Times(n - 1, k) + k
  }

  lemma {:induction false} TimesIsProduct(n: nat, k: nat)
    ensures Times(n, k) == n * k
  {
    if n > 0 {
      TimesIsProduct(n - 1, k);
      assert n * k == (n - 1) * k + k;
    }
  }

  function At(s: seq<real>, i: int): real {
    if 0 <= i < |s| then s[i] else 0.0
  }

  /** The i-th of the consecutive blocks of n elements. */
  function Block(s: seq<real>, i: int, n: nat): seq<real>
    decreases i
  {
    if i < 0 || |s| < n then [] else if i == 0 then s[..n] else Block(s[n..], i - 1, n)
  }

  lemma {:induction false} BlockSlice(s: seq<real>, i: nat, n: nat)
    requires i * n + n <= |s|
    ensures 0 <= i * n && Block(s, i, n) == s[i * n..i * n + n]
  {
    NextRow(-1, i, n);
    if i > 0 {
      assert i * n == (i - 1) * n + n;
      BlockSlice(s[n..], i - 1, n);
    }
  }

  lemma BlockFits(s: seq<real>, i: int, m: int, n: nat)
    requires 0 <= i < m && |s| == m * n
    ensures 0 <= i * n && i * n + n <= |s| && |Block(s, i, n)| == n && Block(s, i, n) == s[i * n..i * n + n]
    ensures forall j | 0 <= j < n :: Block(s, i, n)[j] == s[Ix(i, j, n)]
  {
    NextRow(-1, i, n);
    NextRow(i, m, n);
    BlockSlice(s, i, n);
  }

  /** s holds the m by n table f, row by row. */
  ghost predicate IsTable(s: seq<real>, m: int, n: int, f: (int, int) -> real) {
    && |s| == m * n
    && forall i, j | 0 <= i < m && 0 <= j < n :: 0 <= Ix(i, j, n) < |s| && s[Ix(i, j, n)] == f(i, j)
  }

  /** A table determines its buffer. */
  lemma TableUnique(s: seq<real>, s': seq<real>, m: nat, n: nat, f: (int, int) -> real, f': (int, int) -> real)
    requires IsTable(s, m, n, f) && IsTable(s', m, n, f')
    requires forall i, j | 0 <= i < m && 0 <= j < n :: f(i, j) == f'(i, j)
    ensures s == s'
  {
    forall x | 0 <= x < |s| ensures s[x] == s'[x] {
      assert n == 0 ==> m * n == 0;
      var i, j := IxCovers(x, m, n);
    }
  }

  /** The flat position of (a, b, c) in a table whose inner extents are m and n. */
  function Ix3(a: int, b: int, c: int, m: int, n: int): int {
    Ix(a, Ix(b, c, n), m * n)
  }

  lemma Ix3Bound(a: int, b: int, c: int, l: int, m: int, n: int)
    requires 0 <= a < l && 0 <= b < m && 0 <= c < n
    ensures 0 <= Ix3(a, b, c, m, n) < l * (m * n)
    ensures Ix3(a, b, c, m, n) == (a * m + b) * n + c
  {
    IxBound(b, c, m, n);
    IxBound(a, Ix(b, c, n), l, m * n);
  }

  ghost predicate IsTable3(s: seq<real>, l: int, m: int, n: int, f: (int, int, int) -> real) {
    && |s| == l * (m * n)
    && forall a, b, c | 0 <= a < l && 0 <= b < m && 0 <= c < n ::
         0 <= Ix3(a, b, c, m, n) < |s| && s[Ix3(a, b, c, m, n)] == f(a, b, c)
  }

  /** Row (a, b) of a three-dimensional table, by taking a block of a block. */
  lemma TableRow(s: seq<real>, l: int, m: int, n: nat, f: (int, int, int) -> real, a: int, b: int)
    requires IsTable3(s, l, m, n, f) && 0 <= a < l && 0 <= b < m
    ensures m * n >= 0 && |Block(s, a, m * n)| == m * n && |Block(Block(s, a, m * n), b, n)| == n
    ensures forall c | 0 <= c < n :: Block(Block(s, a, m * n), b, n)[c] == f(a, b, c)
  {
    NextRow(-1, m, n);
    BlockFits(s, a, l, m * n);
    BlockFits(Block(s, a, m * n), b, m, n);
    forall c | 0 <= c < n ensures Block(Block(s, a, m * n), b, n)[c] == f(a, b, c) {
      IxBound(b, c, m, n);
      assert s[Ix3(a, b, c, m, n)] == f(a, b, c);
    }
  }

  /** A row of a slab, reached through the slab or directly. */
  lemma SlabRow(s: seq<real>, a: nat, b: nat, l: nat, m: nat, n: nat)
    requires |s| == l * (m * n) && a < l && b < m
    ensures Block(Block(s, a, m * n), b, n) == Block(s, Ix(a, b, m), n)
  {
    BlockFits(s, a, l, m * n);
    BlockFits(Block(s, a, m * n), b, m, n);
    SlabOffset(a, b, m, n);
    NextRow(-1, a, m);
    BlockSlice(s, Ix(a, b, m), n);
    SliceOfSlice(s, a * (m * n), m * n, b * n, n);
  }

  lemma SliceOfSlice(s: seq<real>, o: nat, w: nat, i: nat, n: nat)
    requires o + w <= |s| && i + n <= w
    ensures s[o..o + w][i..i + n] == s[o + i..o + i + n]
  {
    var (a, b) := (s[o..o + w][i..i + n], s[o + i..o + i + n]);
    assert |a| == |b| == n;
    assert forall x | 0 <= x < n :: a[x] == b[x];
  }

  lemma SlabOffset(a: int, b: int, m: int, n: int)
    ensures Ix(a, b, m) * n == a * (m * n) + b * n
  {
  }

  lemma Table3Unique(s: seq<real>, s': seq<real>, l: nat, m: nat, n: nat, f: (int, int, int) -> real,
                     f': (int, int, int) -> real)
    requires IsTable3(s, l, m, n, f) && IsTable3(s', l, m, n, f')
    requires forall a, b, c | 0 <= a < l && 0 <= b < m && 0 <= c < n :: f(a, b, c) == f'(a, b, c)
    ensures s == s'
  {
    forall x | 0 <= x < |s| ensures s[x] == s'[x] {
      assert m * n == 0 ==> l * (m * n) == 0;
      var a, y := IxCovers(x, l, m * n);
      assert n == 0 ==> m * n == 0;
      var b, c := IxCovers(y, m, n);
      assert s[Ix3(a, b, c, m, n)] == f(a, b, c);
    }
  }

  // ----- the buffer of a table

  lemma IxDecode(i: nat, j: nat, n: nat)
    requires j < n
    ensures Ix(i, j, n) / n == i && Ix(i, j, n) % n == j
  {
    var (q, r) := (Ix(i, j, n) / n, Ix(i, j, n) % n);
    assert Ix(q, r, n) == Ix(i, j, n);
    IxInjective(q, r, i, j, n);
  }

  function Table(m: nat, n: nat, f: (int, int) -> real): (s: seq<real>)
    ensures |s| == m * n
  {
    if n == 0 then [] else seq(m * n, x requires 0 <= x => f(x / n, x % n))
  }

  function Table3(l: nat, m: nat, n: nat, f: (int, int, int) -> real): (s: seq<real>)
    ensures |s| == l * (m * n)
  {
    Table(l, m * n, (a, y) => if n == 0 then 0.0 else f(a, y / n, y % n))
  }

  lemma TableHolds(m: nat, n: nat, f: (int, int) -> real)
    ensures IsTable(Table(m, n, f), m, n, f)
  {
    forall i, j | 0 <= i < m && 0 <= j < n ensures 0 <= Ix(i, j, n) < m * n && Table(m, n, f)[Ix(i, j, n)] == f(i, j) {
      IxBound(i, j, m, n);
      IxDecode(i, j, n);
    }
  }

  lemma Table3Holds(l: nat, m: nat, n: nat, f: (int, int, int) -> real)
    ensures IsTable3(Table3(l, m, n, f), l, m, n, f)
  {
    var g := (a: int, y: int) => if n == 0 then 0.0 else f(a, y / n, y % n);
    TableHolds(l, m * n, g);
    forall a, b, c | 0 <= a < l && 0 <= b < m && 0 <= c < n
      ensures 0 <= Ix3(a, b, c, m, n) < l * (m * n) && Table3(l, m, n, f)[Ix3(a, b, c, m, n)] == f(a, b, c)
    {
      IxBound(b, c, m, n);
      IxBound(a, Ix(b, c, n), l, m * n);
      IxDecode(b, c, n);
      assert Table(l, m * n, g)[Ix(a, Ix(b, c, n), m * n)] == g(a, Ix(b, c, n));
    }
  }

  /** A buffer that holds a table is that table's buffer. */
  lemma TableIs(s: seq<real>, m: nat, n: nat, f: (int, int) -> real, f': (int, int) -> real)
    requires IsTable(s, m, n, f) && forall i, j | 0 <= i < m && 0 <= j < n :: f(i, j) == f'(i, j)
    ensures s == Table(m, n, f')
  {
    TableHolds(m, n, f');
    TableUnique(s, Table(m, n, f'), m, n, f, f');
  }

  lemma Table3Is(s: seq<real>, l: nat, m: nat, n: nat, f: (int, int, int) -> real)
    requires IsTable3(s, l, m, n, f)
    ensures s == Table3(l, m, n, f)
  {
    Table3Holds(l, m, n, f);
    Table3Unique(s, Table3(l, m, n, f), l, m, n, f, f);
  }
}
