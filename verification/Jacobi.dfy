/** `jacobi_eigh`: cyclic Jacobi on a symmetric matrix, rotating its working arrays in place. */
module Jacobi {
  import opened Sums
  import opened StableSort
  import opened JacobiAlgebra

  const MAX_SWEEPS: nat := 60

  predicate IsSquare(rows: seq<seq<real>>, k: nat) {
    |rows| == k && forall i | 0 <= i < k :: |rows[i]| == k
  }

  /** The rows of a matrix as a total function. */
  function Entries(rows: seq<seq<real>>): Matrix {
    (i, j) => if 0 <= i < |rows| && 0 <= j < |rows[i]| then rows[i][j] else 0.0
  }

  ghost function Rows(a: array2<real>): seq<seq<real>>
    reads a
  {
    seq(a.Length0, i requires 0 <= i < a.Length0 reads a =>
      seq(a.Length1, j requires 0 <= j < a.Length1 reads a => a[i, j]))
  }

  /** The contents of a working array. */
  ghost function View(a: array2<real>): Matrix
    reads a
  {
    Entries(Rows(a))
  }

  function Nth(s: seq<real>): int -> real {
    m => if 0 <= m < |s| then s[m] else 0.0
  }

  lemma ViewAt(a: array2<real>)
    ensures forall i, j | 0 <= i < a.Length0 && 0 <= j < a.Length1 :: View(a)(i, j) == a[i, j]
  {
  }

  lemma RowsOf(a: array2<real>, rows: seq<seq<real>>)
    requires a.Length0 == a.Length1 == |rows| && IsSquare(rows, |rows|)
    requires forall i, j | 0 <= i < |rows| && 0 <= j < |rows| :: a[i, j] == rows[i][j]
    ensures Rows(a) == rows
  {
    forall i | 0 <= i < |rows| ensures Rows(a)[i] == rows[i] {
      assert |Rows(a)[i]| == |rows[i]|;
    }
  }

  /** Columns p and q, row by row: x, y := c x - s y, s x + c y. */
  method RotateColumns(a: array2<real>, p: nat, q: nat, rot: Rotation)
    requires a.Length0 == a.Length1 && p < q < a.Length0
    modifies a
    ensures ColumnsRotated(old(View(a)), View(a), a.Length0, p, q, rot)
  {
    var k := a.Length0;
    ViewAt(a);
    for i := 0 to k
      invariant forall x, y | 0 <= x < k && 0 <= y < k ::
        a[x, y] == if x < i && y == p then rot.lo(old(a[x, p]), old(a[x, q]))
                   else if x < i && y == q then rot.hi(old(a[x, p]), old(a[x, q]))
                   else old(a[x, y])
    {
      var (aip, aiq) := (a[i, p], a[i, q]);
      a[i, p] := rot.lo(aip, aiq);
      a[i, q] := rot.hi(aip, aiq);
    }
    ViewAt(a);
  }

  /** Rows p and q, column by column. */
  method RotateRows(a: array2<real>, p: nat, q: nat, rot: Rotation)
    requires a.Length0 == a.Length1 && p < q < a.Length0
    modifies a
    ensures RowsRotated(old(View(a)), View(a), a.Length0, p, q, rot)
  {
    var k := a.Length0;
    ViewAt(a);
    for i := 0 to k
      invariant forall x, y | 0 <= x < k && 0 <= y < k ::
        a[x, y] == if y < i && x == p then rot.lo(old(a[p, y]), old(a[q, y]))
                   else if y < i && x == q then rot.hi(old(a[p, y]), old(a[q, y]))
                   else old(a[x, y])
    {
      var (api, aqi) := (a[p, i], a[q, i]);
      a[p, i] := rot.lo(api, aqi);
      a[q, i] := rot.hi(api, aqi);
    }
    ViewAt(a);
  }

  // ----- the loop invariant

  /** a is an orthogonal similarity transform of aIn by v, and no further from diagonal. */
  ghost predicate Decomposes(aIn: Matrix, a: Matrix, v: Matrix, k: nat) {
    && Symmetric(a, k) && OrthonormalColumns(v, k) && OrthonormalRows(v, k)
    && Similar(aIn, v, a, k) && Trace(a, k) == Trace(aIn, k) && Upper(a, k) <= Upper(aIn, k)
  }

  /** One rotation keeps the decomposition and removes exactly the square of the entry it zeroes. */
  lemma RotationStep(aIn: Matrix, a: Matrix, b: Matrix, d: Matrix, v: Matrix, w: Matrix,
                     k: nat, p: int, q: int, apq: real, rot: Rotation)
    requires Decomposes(aIn, a, v, k) && Rigid(rot) && a(p, q) == apq
    requires ColumnsRotated(a, b, k, p, q, rot) && RowsRotated(b, d, k, p, q, rot)
    requires ColumnsRotated(v, w, k, p, q, rot) && d(p, q) == 0.0
    ensures Decomposes(aIn, d, w, k)
    ensures Upper(d, k) == Upper(a, k) - apq * apq
    ensures apq != 0.0 ==> Upper(d, k) < Upper(a, k)
  {
    SymmetryKept(a, b, d, k, p, q, rot);
    ColumnsKept(v, w, k, p, q, rot);
    RowsKept(v, w, k, p, q, rot);
    SimilarityKept(aIn, v, w, a, b, d, k, p, q, rot);
    UpperDrops(a, b, d, k, p, q, rot);
    SquareNonNeg(a(p, q));
    if apq != 0.0 { ProductPositive(apq, apq, Upper(a, k) - Upper(d, k)); }
  }

  lemma IdentityDecomposes(a: Matrix, v: Matrix, k: nat)
    requires Symmetric(a, k)
    requires forall i, j | 0 <= i < k && 0 <= j < k :: v(i, j) == Delta(i, j)
    ensures Decomposes(a, a, v, k)
  {
    forall i, j | 0 <= i < k && 0 <= j < k
      ensures ColDot(v, k, i, j) == Delta(i, j) && RowDot(v, k, i, j) == Delta(i, j)
      ensures Product(a, v, k, i, j) == Product(v, a, k, i, j)
    {
      SumSingle(k, i, r => v(r, i) * v(r, j));
      SumSingle(k, i, r => v(i, r) * v(j, r));
      SumSingle(k, j, r => a(i, r) * v(r, j));
      SumSingle(k, i, r => v(i, r) * a(r, j));
    }
  }

  // ----- one rotation

  /** A rotation by at most an eighth of a full turn. */
  ghost predicate SmallTurn(c: real, s: real) {
    c * c + s * s == 1.0 && 0.0 < c && -c <= s <= c
  }

  /** Turning by (c, s) zeroes the entry apq between app and aqq. */
  ghost predicate ZeroesEntry(c: real, s: real, app: real, apq: real, aqq: real) {
    c * (s * app + c * apq) - s * (s * apq + c * aqq) == 0.0
  }

  /** Tangent, cosine and sine of the turn, as the code computes them. */
  method ChooseTurn(app: real, apq: real, aqq: real, sqrt: real -> real) returns (c: real, s: real)
    requires apq != 0.0 && IsRoot(sqrt)
    ensures SmallTurn(c, s) && ZeroesEntry(c, s, app, apq, aqq)
  {
    var theta := (aqq - app) / (2.0 * apq);
    SquareNonNeg(theta);
    var root := sqrt(theta * theta + 1.0);
    assert root * root == theta * theta + 1.0;
    var signum := if theta < 0.0 then -1.0 else 1.0;
    var t := signum / (Abs(theta) + root);
    TangentSolves(theta, root, t);
    TangentIsSmall(theta, root, t);
    SquareNonNeg(t);
    var h := sqrt(t * t + 1.0);
    assert h * h == t * t + 1.0;
    c := 1.0 / h;
    s := t * c;
    CosineNormal(t, h, c, s);
    EntryVanishes(theta, t, c, s, app, apq, aqq);
    SineBelowCosine(t, h, c, s);
  }

  /** The rotation that zeroes entry (p, q) of a symmetric block, by the smaller of the two angles that do. */
  method ChooseRotation(app: real, apq: real, aqq: real, sqrt: real -> real)
    returns (rot: Rotation, ghost cosine: real, ghost sine: real)
    requires apq != 0.0 && IsRoot(sqrt)
    ensures Rigid(rot) && rot == Givens(cosine, sine) && SmallTurn(cosine, sine)
    ensures rot.lo(rot.hi(app, apq), rot.hi(apq, aqq)) == 0.0
  {
    var c, s := ChooseTurn(app, apq, aqq, sqrt);
    rot, cosine, sine := Givens(c, s), c, s;
    GivensIsRigid(c, s);
    GivensZeroes(c, s, app, apq, aqq, s * app + c * apq, s * apq + c * aqq);
  }

  lemma GivensZeroes(c: real, s: real, app: real, apq: real, aqq: real, x: real, y: real)
    requires ZeroesEntry(c, s, app, apq, aqq) && x == s * app + c * apq && y == s * apq + c * aqq
    ensures Givens(c, s).lo(Givens(c, s).hi(app, apq), Givens(c, s).hi(apq, aqq)) == 0.0
  {
    GivensAt(c, s, app, apq, c * app - s * apq, x);
    GivensAt(c, s, apq, aqq, c * apq - s * aqq, y);
    GivensAt(c, s, x, y, c * x - s * y, s * x + c * y);
  }

  lemma ViewEntry(a: array2<real>, i: int, j: int)
    requires 0 <= i < a.Length0 && 0 <= j < a.Length1
    ensures View(a)(i, j) == a[i, j]
  {
  }

  /** The three loops of one rotation: columns of a, rows of a, columns of v. */
  method RotateBoth(a: array2<real>, v: array2<real>, p: nat, q: nat, rot: Rotation) returns (ghost half: Matrix)
    requires a != v && a.Length0 == a.Length1 == v.Length0 == v.Length1 && p < q < a.Length0
    modifies a, v
    ensures ColumnsRotated(old(View(a)), half, a.Length0, p, q, rot)
    ensures RowsRotated(half, View(a), a.Length0, p, q, rot)
    ensures ColumnsRotated(old(View(v)), View(v), a.Length0, p, q, rot)
  {
    RotateColumns(a, p, q, rot);
    half := View(a);
    RotateRows(a, p, q, rot);
    RotateColumns(v, p, q, rot);
  }

  /** The two working matrices at one moment. */
  datatype Stage = Stage(a: Matrix, v: Matrix)

  ghost function Now(a: array2<real>, v: array2<real>): Stage
    reads a, v
  {
    Stage(View(a), View(v))
  }

  /** y is x turned by (c, s) in the plane of p and q, which zeroes entry (p, q). */
  ghost predicate TurnedBy(x: Stage, y: Stage, k: nat, p: int, q: int, half: Matrix, c: real, s: real) {
    && SmallTurn(c, s) && ColumnsRotated(x.a, half, k, p, q, Givens(c, s))
      && RowsRotated(half, y.a, k, p, q, Givens(c, s))
    && ColumnsRotated(x.v, y.v, k, p, q, Givens(c, s)) && y.a(p, q) == 0.0
  }

  method ZeroEntry(a: array2<real>, v: array2<real>, p: nat, q: nat, sqrt: real -> real, ghost aIn: Matrix)
    returns (ghost apq: real, ghost half: Matrix, ghost c: real, ghost s: real)
    requires a != v && a.Length0 == a.Length1 == v.Length0 == v.Length1 && p < q < a.Length0 && IsRoot(sqrt)
    requires Decomposes(aIn, View(a), View(v), a.Length0) && a[p, q] != 0.0
    modifies a, v
    ensures Decomposes(aIn, View(a), View(v), a.Length0)
    ensures TurnedBy(old(Now(a, v)), Now(a, v), a.Length0, p, q, half, c, s)
    ensures View(a)(p, q) == 0.0
    ensures apq == old(a[p, q])
    ensures Upper(View(a), a.Length0) == old(Upper(View(a), a.Length0)) - apq * apq
    ensures Upper(View(a), a.Length0) < old(Upper(View(a), a.Length0))
  {
    ghost var (a0, v0) := (View(a), View(v));
    apq := a[p, q];
    ViewEntry(a, p, p); ViewEntry(a, p, q); ViewEntry(a, q, q);
    var rot;
    rot, c, s := ChooseRotation(a[p, p], a[p, q], a[q, q], sqrt);
    half := RotateBoth(a, v, p, q, rot);
    Vanishes(a0, half, View(a), a.Length0, p, q, rot);
    RotationStep(aIn, a0, half, View(a), v0, View(v), a.Length0, p, q, apq, rot);
  }

  lemma Vanishes(a: Matrix, b: Matrix, d: Matrix, k: nat, p: int, q: int, rot: Rotation)
    requires Symmetric(a, k)
    requires ColumnsRotated(a, b, k, p, q, rot) && RowsRotated(b, d, k, p, q, rot)
    requires rot.lo(rot.hi(a(p, p), a(p, q)), rot.hi(a(p, q), a(q, q))) == 0.0
    ensures d(p, q) == 0.0
  {
  }

  // ----- the sweeps

  /** The sum the sweep loop stops on, in its own order. */
  method OffDiagonal(a: array2<real>) returns (off: real)
    requires a.Length0 == a.Length1
    ensures off == Upper(View(a), a.Length0)
  {
    var k := a.Length0;
    ghost var m := View(a);
    ghost var above := (p: int, q: int) => if p < q then m(p, q) * m(p, q) else 0.0;
    off := 0.0;
    for p := 0 to k
      invariant off == Sum2(p, k, above)
    {
      off := AddRowSquares(a, p, off, above);
    }
    UpperIs(m, k, above);
  }

  lemma UpperIs(m: Matrix, k: nat, above: Matrix)
    requires forall p, q | 0 <= p < k && 0 <= q < k :: above(p, q) == if p < q then m(p, q) * m(p, q) else 0.0
    ensures Upper(m, k) == Sum2(k, k, above)
  {
    Sum2Ext(k, k, above, (p, q) => if p < q then m(p, q) * m(p, q) else 0.0);
  }

  /** Row p of the sum, from the entry right of the diagonal on. */
  method AddRowSquares(a: array2<real>, p: nat, before: real, ghost above: Matrix) returns (off: real)
    requires a.Length0 == a.Length1 && p < a.Length0
    requires forall q | 0 <= q < a.Length0 :: above(p, q) == if p < q then View(a)(p, q) * View(a)(p, q) else 0.0
    ensures off == before + Row(a.Length0, above, p)
  {
    off := before;
    SumZero(p + 1, q => above(p, q));
    for q := p + 1 to a.Length0
      invariant off == before + Sum(q, j => above(p, j))
    {
      SquareAbove(a, p, q, above);
      off := off + a[p, q] * a[p, q];
    }
  }

  lemma SquareAbove(a: array2<real>, p: nat, q: nat, above: Matrix)
    requires p < a.Length0 && p < q < a.Length1 && above(p, q) == View(a)(p, q) * View(a)(p, q)
    ensures above(p, q) == a[p, q] * a[p, q]
  {
    ViewEntry(a, p, q);
  }

  ghost predicate NegligibleRows(a: Matrix, k: nat, n: nat, tiny: real) {
    forall p, q | 0 <= p < n && p < q < k :: Abs(a(p, q)) <= tiny
  }

  ghost predicate Negligible(a: Matrix, k: nat, tiny: real) {
    NegligibleRows(a, k, k, tiny)
  }

  // What a sweep does, visit by visit.

  /** One visit: the entry, the stage before and after, and the turn between them if there is one. */
  datatype Step = Step(p: int, q: int, before: Stage, after: Stage, half: Matrix, c: real, s: real)

  /** A negligible entry is left alone, any other is zeroed. */
  ghost predicate IsVisit(step: Step, k: nat, tiny: real) {
    if Abs(step.before.a(step.p, step.q)) <= tiny then step.after == step.before
    else TurnedBy(step.before, step.after, k, step.p, step.q, step.half, step.c, step.s)
  }

  /** The entry whose turn it is, row by row above the diagonal. */
  function NextEntry(trail: seq<Step>, k: nat): (int, int) {
    if trail == [] then (0, 1)
    else
      var last := trail[|trail| - 1];
      if last.q + 1 < k then (last.p, last.q + 1) else (last.p + 1, last.p + 2)
  }

  function EndOf(trail: seq<Step>, x: Stage): Stage {
    if trail == [] then x else trail[|trail| - 1].after
  }

  /** Visits from stage x on, entry after entry, each starting where the one before ended. */
  ghost predicate IsTrail(trail: seq<Step>, x: Stage, k: nat, tiny: real) {
    trail == [] ||
    var (init, last) := (trail[..|trail| - 1], trail[|trail| - 1]);
    && IsTrail(init, x, k, tiny) && IsVisit(last, k, tiny)
    && (last.p, last.q) == NextEntry(init, k) && last.before == EndOf(init, x)
  }

  /** A trail from x to y that visits every entry above the diagonal once, row by row. */
  ghost predicate IsSweep(trail: seq<Step>, x: Stage, y: Stage, k: nat, tiny: real) {
    && IsTrail(trail, x, k, tiny) && EndOf(trail, x) == y
    && (k < 2 ==> trail == []) && (k >= 2 ==> NextEntry(trail, k) == (k - 1, k))
  }

  /** A trail from x that has come to stage y and visits entry (p, q) next, or the row below where the row ends. */
  ghost predicate Reached(trail: seq<Step>, x: Stage, y: Stage, k: nat, p: int, q: int, tiny: real) {
    && IsTrail(trail, x, k, tiny) && EndOf(trail, x) == y
    && NextEntry(trail, k) == if q < k || q == p + 1 then (p, q) else (p + 1, p + 2)
  }

  /** The same of a decomposition of aIn, as a function of the trail and where it has come to. */
  ghost function Course(aIn: Matrix, x: Stage, k: nat, tiny: real): (seq<Step>, Stage, int, int) -> bool {
    (trail, y, p, q) => Reached(trail, x, y, k, p, q, tiny) && Decomposes(aIn, y.a, y.v, k)
  }

  lemma OneMoreVisit(trail: seq<Step>, step: Step, x: Stage, k: nat, tiny: real)
    requires Reached(trail, x, step.before, k, step.p, step.q, tiny) && step.p < step.q < k && IsVisit(step, k, tiny)
    ensures Reached(trail + [step], x, step.after, k, step.p, step.q + 1, tiny)
  {
    assert (trail + [step])[..|trail|] == trail;
  }

  /** Zero entry (p, q) unless it is negligible already. */
  method Visit(a: array2<real>, v: array2<real>, p: nat, q: nat, tiny: real, sqrt: real -> real, ghost aIn: Matrix)
    returns (ghost step: Step)
    requires a != v && a.Length0 == a.Length1 == v.Length0 == v.Length1 && p < q < a.Length0
    requires IsRoot(sqrt) && tiny >= 0.0
    requires Decomposes(aIn, View(a), View(v), a.Length0)
    modifies a, v
    ensures Decomposes(aIn, View(a), View(v), a.Length0)
    ensures IsVisit(step, a.Length0, tiny) && step.p == p && step.q == q
    ensures step.before == old(Now(a, v)) && step.after == Now(a, v)
  {
    ViewEntry(a, p, q);
    ghost var x := Now(a, v);
    if Abs(a[p, q]) > tiny {
      ghost var apq, half, c, s := ZeroEntry(a, v, p, q, sqrt, aIn);
      step := Step(p, q, x, Now(a, v), half, c, s);
    } else {
      step := Step(p, q, x, x, x.a, 1.0, 0.0);
    }
  }

  /** The next visit of a trail. */
  method VisitNext(a: array2<real>, v: array2<real>, p: nat, q: nat, tiny: real, sqrt: real -> real, ghost aIn: Matrix,
                   ghost trail: seq<Step>, ghost x: Stage)
    returns (ghost trail': seq<Step>)
    requires a != v && a.Length0 == a.Length1 == v.Length0 == v.Length1 && p < q < a.Length0
    requires IsRoot(sqrt) && tiny >= 0.0 && Course(aIn, x, a.Length0, tiny)(trail, Now(a, v), p, q)
    modifies a, v
    ensures Course(aIn, x, a.Length0, tiny)(trail', Now(a, v), p, q + 1)
  {
    CourseKeeps(aIn, trail, x, Now(a, v), a.Length0, p, q, tiny);
    ghost var step := Visit(a, v, p, q, tiny, sqrt, aIn);
    CourseGoesOn(aIn, trail, step, x, a.Length0, tiny);
    trail' := trail + [step];
  }

  lemma CourseDecomposes(aIn: Matrix, trail: seq<Step>, x: Stage, y: Stage, k: nat, p: int, q: int, tiny: real)
    requires Course(aIn, x, k, tiny)(trail, y, p, q)
    ensures Reached(trail, x, y, k, p, q, tiny) && Decomposes(aIn, y.a, y.v, k)
  {
  }

  lemma CourseKeeps(aIn: Matrix, trail: seq<Step>, x: Stage, y: Stage, k: nat, p: int, q: int, tiny: real)
    requires Course(aIn, x, k, tiny)(trail, y, p, q)
    ensures Decomposes(aIn, y.a, y.v, k)
  {
  }

  lemma CourseGoesOn(aIn: Matrix, trail: seq<Step>, step: Step, x: Stage, k: nat, tiny: real)
    requires Course(aIn, x, k, tiny)(trail, step.before, step.p, step.q) && step.p < step.q < k
      && IsVisit(step, k, tiny)
    requires Decomposes(aIn, step.after.a, step.after.v, k)
    ensures Course(aIn, x, k, tiny)(trail + [step], step.after, step.p, step.q + 1)
  {
    CourseDecomposes(aIn, trail, x, step.before, k, step.p, step.q, tiny);
    OneMoreVisit(trail, step, x, k, tiny);
  }

  /** The entries of row p above the diagonal, left to right. */
  method SweepRow(a: array2<real>, v: array2<real>, p: nat, tiny: real, sqrt: real -> real, ghost aIn: Matrix,
                  ghost trail: seq<Step>, ghost x: Stage)
    returns (ghost trail': seq<Step>)
    requires a != v && a.Length0 == a.Length1 == v.Length0 == v.Length1 && p < a.Length0
    requires IsRoot(sqrt) && tiny >= 0.0 && Course(aIn, x, a.Length0, tiny)(trail, Now(a, v), p, p + 1)
    modifies a, v
    ensures Course(aIn, x, a.Length0, tiny)(trail', Now(a, v), p, a.Length0)
    ensures p + 1 == a.Length0 ==> trail' == trail
  {
    var k := a.Length0;
    trail' := trail;
    for q := p + 1 to k
      invariant Course(aIn, x, k, tiny)(trail', Now(a, v), p, q) && (q == p + 1 ==> trail' == trail)
    {
      trail' := VisitNext(a, v, p, q, tiny, sqrt, aIn, trail', x);
    }
  }

  /** One pass over the upper triangle: it lowers the measure unless every entry is negligible. */
  method OneSweep(a: array2<real>, v: array2<real>, tiny: real, sqrt: real -> real, ghost aIn: Matrix)
    returns (ghost trail: seq<Step>)
    requires a != v && a.Length0 == a.Length1 == v.Length0 == v.Length1 && IsRoot(sqrt) && tiny >= 0.0
    requires Decomposes(aIn, View(a), View(v), a.Length0)
    modifies a, v
    ensures Decomposes(aIn, View(a), View(v), a.Length0)
    ensures IsSweep(trail, old(Now(a, v)), Now(a, v), a.Length0, tiny)
    ensures || Upper(View(a), a.Length0) < old(Upper(View(a), a.Length0))
            || (Now(a, v) == old(Now(a, v)) && Negligible(View(a), a.Length0, tiny))
  {
    var k := a.Length0;
    ghost var x := Now(a, v);
    trail := [];
    StartOfSweep(aIn, x, k, tiny);
    for p := 0 to k
      invariant k == 0 ==> Now(a, v) == x
      invariant p < k ==> Course(aIn, x, k, tiny)(trail, Now(a, v), p, p + 1)
      invariant p == k > 0 ==> Course(aIn, x, k, tiny)(trail, Now(a, v), k - 1, k)
      invariant k < 2 ==> trail == []
    {
      trail := SweepRow(a, v, p, tiny, sqrt, aIn, trail, x);
      if p + 1 < k { NextRowOfSweep(aIn, trail, x, Now(a, v), k, p, tiny); }
    }
    SweepIsDone(aIn, trail, x, Now(a, v), k, tiny);
    SweepLowers(aIn, trail, x, Now(a, v), k, tiny);
  }

  lemma StartOfSweep(aIn: Matrix, x: Stage, k: nat, tiny: real)
    requires Decomposes(aIn, x.a, x.v, k)
    ensures Course(aIn, x, k, tiny)([], x, 0, 1)
  {
    assert Reached([], x, x, k, 0, 1, tiny);
  }

  lemma NextRowOfSweep(aIn: Matrix, trail: seq<Step>, x: Stage, y: Stage, k: nat, p: int, tiny: real)
    requires Course(aIn, x, k, tiny)(trail, y, p, k) && p + 1 < k
    ensures Course(aIn, x, k, tiny)(trail, y, p + 1, p + 2)
  {
    assert Reached(trail, x, y, k, p, k, tiny) && Decomposes(aIn, y.a, y.v, k);
    assert Reached(trail, x, y, k, p + 1, p + 2, tiny);
  }

  lemma SweepIsDone(aIn: Matrix, trail: seq<Step>, x: Stage, y: Stage, k: nat, tiny: real)
    requires k < 2 ==> trail == []
    requires if k == 0 then y == x && Decomposes(aIn, x.a, x.v, k) else Course(aIn, x, k, tiny)(trail, y, k - 1, k)
    ensures IsSweep(trail, x, y, k, tiny) && Decomposes(aIn, y.a, y.v, k)
  {
    if k > 0 { assert Reached(trail, x, y, k, k - 1, k, tiny) && Decomposes(aIn, y.a, y.v, k); }
  }

  /** The entries before (p, q), row by row, are negligible. */
  ghost predicate NegligibleBefore(a: Matrix, k: nat, p: int, q: int, tiny: real) {
    forall i, j | 0 <= i < j < k && (i < p || (i == p && j < q)) :: Abs(a(i, j)) <= tiny
  }

  lemma OneVisitLowers(aIn: Matrix, step: Step, k: nat, tiny: real)
    requires Decomposes(aIn, step.before.a, step.before.v, k) && IsVisit(step, k, tiny) && tiny >= 0.0
    ensures Decomposes(aIn, step.after.a, step.after.v, k)
    ensures || Upper(step.after.a, k) < Upper(step.before.a, k)
            || (step.after == step.before && Abs(step.before.a(step.p, step.q)) <= tiny)
  {
    var (x, y) := (step.before, step.after);
    if Abs(x.a(step.p, step.q)) > tiny {
      GivensIsRigid(step.c, step.s);
      RotationStep(aIn, x.a, step.half, y.a, x.v, y.v, k, step.p, step.q, x.a(step.p, step.q), Givens(step.c, step.s));
    }
  }

  /** A trail lowers the measure, or has found every entry it visited negligible and changed nothing. */
  lemma {:induction false} TrailLowers(aIn: Matrix, trail: seq<Step>, x: Stage, k: nat, tiny: real)
    requires Decomposes(aIn, x.a, x.v, k) && IsTrail(trail, x, k, tiny) && tiny >= 0.0
    ensures Decomposes(aIn, EndOf(trail, x).a, EndOf(trail, x).v, k)
    ensures var (y, next) := (EndOf(trail, x), NextEntry(trail, k));
      Upper(y.a, k) < Upper(x.a, k) || (y == x && NegligibleBefore(x.a, k, next.0, next.1, tiny))
  {
    if trail != [] {
      var (init, last) := (trail[..|trail| - 1], trail[|trail| - 1]);
      TrailLowers(aIn, init, x, k, tiny);
      OneVisitLowers(aIn, last, k, tiny);
      if last.after == last.before == x && Abs(x.a(last.p, last.q)) <= tiny
        && NegligibleBefore(x.a, k, last.p, last.q, tiny) {
        OneMoreNegligible(x.a, k, last.p, last.q, tiny);
      }
    }
  }

  lemma OneMoreNegligible(a: Matrix, k: nat, p: int, q: int, tiny: real)
    requires NegligibleBefore(a, k, p, q, tiny) && Abs(a(p, q)) <= tiny
    ensures if q + 1 < k then NegligibleBefore(a, k, p, q + 1, tiny) else NegligibleBefore(a, k, p + 1, p + 2, tiny)
  {
  }

  lemma SweepLowers(aIn: Matrix, trail: seq<Step>, x: Stage, y: Stage, k: nat, tiny: real)
    requires Decomposes(aIn, x.a, x.v, k) && IsSweep(trail, x, y, k, tiny) && tiny >= 0.0
    ensures Upper(y.a, k) < Upper(x.a, k) || (y == x && Negligible(x.a, k, tiny))
  {
    TrailLowers(aIn, trail, x, k, tiny);
  }

  /** Each stage is a full cyclic sweep of the one before, which was not within tolerance yet. */
  ghost predicate SweptInTurn(stages: seq<Stage>, trails: seq<seq<Step>>, k: nat, enough: real, tiny: real) {
    && |stages| == |trails| + 1
    && forall n | 0 <= n < |trails| :: SweptOnce(stages, trails, n, k, enough, tiny)
  }

  ghost predicate SweptOnce(stages: seq<Stage>, trails: seq<seq<Step>>, n: int, k: nat, enough: real, tiny: real)
    requires 0 <= n < |trails| && |stages| == |trails| + 1
  {
    Upper(stages[n].a, k) > enough && IsSweep(trails[n], stages[n], stages[n + 1], k, tiny)
  }

  lemma OneMoreSweep(stages: seq<Stage>, trails: seq<seq<Step>>, next: Stage, trail: seq<Step>, k: nat, enough: real,
                     tiny: real)
    requires SweptInTurn(stages, trails, k, enough, tiny)
    requires Upper(stages[|trails|].a, k) > enough && IsSweep(trail, stages[|trails|], next, k, tiny)
    ensures SweptInTurn(stages + [next], trails + [trail], k, enough, tiny)
  {
    var (stages', trails') := (stages + [next], trails + [trail]);
    forall n | 0 <= n < |trails'| ensures SweptOnce(stages', trails', n, k, enough, tiny) {
      if n < |trails| { assert SweptOnce(stages, trails, n, k, enough, tiny); }
    }
  }

  /** Sweep after sweep until the measure is within tolerance, sixty at the most. */
  method Sweeps(a: array2<real>, v: array2<real>, enough: real, tiny: real, sqrt: real -> real, ghost aIn: Matrix)
    returns (ghost stages: seq<Stage>, ghost trails: seq<seq<Step>>)
    requires a != v && a.Length0 == a.Length1 == v.Length0 == v.Length1 && IsRoot(sqrt) && tiny >= 0.0
    requires Decomposes(aIn, View(a), View(v), a.Length0)
    modifies a, v
    ensures Decomposes(aIn, View(a), View(v), a.Length0)
    ensures SweptInTurn(stages, trails, a.Length0, enough, tiny)
    ensures stages[0] == old(Now(a, v)) && stages[|trails|] == Now(a, v)
    ensures |trails| <= 60 && (|trails| == 60 || Upper(View(a), a.Length0) <= enough)
    ensures Upper(View(a), a.Length0) <= enough || Negligible(View(a), a.Length0, tiny) ||
      Upper(View(a), a.Length0) < old(Upper(View(a), a.Length0))
  {
    var k := a.Length0;
    ghost var (start, now, settled) := (Upper(View(a), k), Upper(View(a), k), false);
    stages, trails := [Now(a, v)], [];
    for sweep := 0 to MAX_SWEEPS
      invariant Decomposes(aIn, View(a), View(v), k)
      invariant now == Upper(View(a), k) <= start
      invariant settled ==> Negligible(View(a), k, tiny)
      invariant sweep > 0 ==> settled || now < start
      invariant SweptInTurn(stages, trails, k, enough, tiny) && |trails| == sweep
      invariant stages[0] == old(Now(a, v)) && stages[|trails|] == Now(a, v)
    {
      var off := OffDiagonal(a);
      if off <= enough {
        break;
      }
      ghost var trail := OneSweep(a, v, tiny, sqrt, aIn);
      settled := Upper(View(a), k) >= now;
      now := Upper(View(a), k);
      OneMoreSweep(stages, trails, Now(a, v), trail, k, enough, tiny);
      stages, trails := stages + [Now(a, v)], trails + [trail];
    }
  }

  /** The off-diagonal sum of a two by two matrix is one square. */
  lemma UpperOfTwo(a: Matrix)
    ensures Upper(a, 2) == a(0, 1) * a(0, 1)
  {
    var above := (p: int, q: int) => if p < q then a(p, q) * a(p, q) else 0.0;
    assert Row(2, above, 0) == a(0, 1) * a(0, 1) && Row(2, above, 1) == 0.0;
    assert Sum2(2, 2, above) == Row(2, above, 0) + Row(2, above, 1);
  }

  /** Sweeping a two by two matrix is visiting its one entry. */
  lemma SweepOfTwo(trail: seq<Step>, x: Stage, y: Stage, tiny: real)
    requires IsSweep(trail, x, y, 2, tiny)
    ensures |trail| == 1 && trail[0].before == x && trail[0].after == y && trail[0].p == 0 && trail[0].q == 1
    ensures IsVisit(trail[0], 2, tiny)
  {
    var n := |trail| - 1;
    assert IsTrail(trail[..n], x, 2, tiny) && NextEntry(trail[..n], 2) == (trail[n].p, trail[n].q);
    if n > 0 { RowsAscend(trail[..n], x, tiny); }
  }

  /** Two by two, visits would go on below the matrix. */
  lemma {:induction false} RowsAscend(trail: seq<Step>, x: Stage, tiny: real)
    requires IsTrail(trail, x, 2, tiny) && trail != []
    ensures trail[|trail| - 1].p == |trail| - 1 && trail[|trail| - 1].q == |trail|
  {
    var n := |trail| - 1;
    if n > 0 { RowsAscend(trail[..n], x, tiny); }
  }

  lemma NotNegligible(x: real)
    requires x * x > 1e-30
    ensures Abs(x) > 1e-300
  {
    var y := Abs(x);
    assert y * y == x * x;
    if y <= 1e-300 {
      ProductNonNeg(1.0 - y, y, (1.0 - y) * y);
      assert false;
    }
  }

  /** No sweep if the one entry is within tolerance; else one, and it zeroes the entry. */
  ghost predicate ExactOfTwo(stages: seq<Stage>, trails: seq<seq<Step>>)
    requires |stages| == |trails| + 1
  {
    var (first, last) := (stages[0].a, stages[|trails|].a);
    if first(0, 1) * first(0, 1) <= 1e-30 then trails == [] else |trails| == 1 && last(0, 1) == 0.0
  }

  /** Two by two, the first sweep is exact, and the only one. */
  lemma TwoByTwoIsExact(stages: seq<Stage>, trails: seq<seq<Step>>)
    requires SweptInTurn(stages, trails, 2, 1e-30, 1e-300)
    requires |trails| == 60 || Upper(stages[|trails|].a, 2) <= 1e-30
    ensures ExactOfTwo(stages, trails)
  {
    UpperOfTwo(stages[0].a);
    if trails != [] {
      assert SweptOnce(stages, trails, 0, 2, 1e-30, 1e-300);
      FirstSweepOfTwo(stages[0], stages[1], trails[0]);
      assert |trails| > 1 ==> SweptOnce(stages, trails, 1, 2, 1e-30, 1e-300);
    }
  }

  lemma FirstSweepOfTwo(x: Stage, y: Stage, trail: seq<Step>)
    requires Upper(x.a, 2) > 1e-30 && IsSweep(trail, x, y, 2, 1e-300)
    ensures y.a(0, 1) == 0.0 && Upper(y.a, 2) <= 1e-30
  {
    UpperOfTwo(x.a);
    UpperOfTwo(y.a);
    SweepOfTwo(trail, x, y, 1e-300);
    var e := x.a(0, 1);
    assert Upper(x.a, 2) == e * e;
    NotNegligible(e);
  }

  // ----- sorting and signs

  /** The total of f over the listed indices. */
  function SumOver(s: seq<int>, f: int -> real): real {
    if s == [] then 0.0 else SumOver(s[..|s| - 1], f) + f(s[|s| - 1])
  }

  lemma {:induction false} SumOverRemoved(s: seq<int>, j: nat, f: int -> real)
    requires j < |s|
    ensures SumOver(s, f) == SumOver(s[..j] + s[j + 1..], f) + f(s[j])
  {
    var n := |s| - 1;
    if j == n {
      assert s[..j] + s[j + 1..] == s[..n];
    } else {
      SumOverRemoved(s[..n], j, f);
      var t := s[..j] + s[j + 1..];
      assert t[..|t| - 1] == s[..n][..j] + s[..n][j + 1..];
    }
  }

  lemma RemovedMultiset(t: seq<int>, j: nat)
    requires j < |t|
    ensures multiset(t[..j] + t[j + 1..]) == multiset(t) - multiset{t[j]}
  {
    assert t == t[..j] + [t[j]] + t[j + 1..];
  }

  lemma {:induction false} SumOverPermuted(s: seq<int>, t: seq<int>, f: int -> real)
    requires multiset(s) == multiset(t)
    ensures SumOver(s, f) == SumOver(t, f)
  {
    Members(s, t);
    if s != [] {
      var n := |s| - 1;
      assert s[n] in s;
      var j :| 0 <= j < |t| && t[j] == s[n];
      SumOverRemoved(t, j, f);
      RemovedMultiset(s, n);
      RemovedMultiset(t, j);
      assert s[..n] == s[..n] + s[n + 1..];
      SumOverPermuted(s[..n], t[..j] + t[j + 1..], f);
    }
  }

  lemma {:induction false} SumOverList(s: seq<int>, f: int -> real, g: int -> real)
    requires forall m | 0 <= m < |s| :: g(m) == f(s[m])
    ensures SumOver(s, f) == Sum(|s|, g)
  {
    if s != [] { SumOverList(s[..|s| - 1], f, g); }
  }

  /** w is v with its columns permuted by order and flipped by sign. */
  ghost predicate Rearranged(v: Matrix, w: Matrix, k: nat, order: seq<int>, sign: int -> real) {
    && |order| == k
    && (forall m | 0 <= m < k :: 0 <= order[m] < k && (sign(m) == 1.0 || sign(m) == -1.0))
    && (forall m, l | 0 <= m < l < k :: order[m] != order[l])
    && (forall r, m | 0 <= r < k && 0 <= m < k :: w(r, m) == sign(m) * v(r, order[m]))
  }

  lemma RearrangedOrthonormal(v: Matrix, w: Matrix, k: nat, order: seq<int>, sign: int -> real)
    requires Rearranged(v, w, k, order, sign) && OrthonormalColumns(v, k)
    ensures OrthonormalColumns(w, k)
  {
    forall m, l | 0 <= m < k && 0 <= l < k ensures ColDot(w, k, m, l) == Delta(m, l) {
      assert ColDot(v, k, order[m], order[l]) == Delta(order[m], order[l]);
      SignedDot(v, w, k, order[m], order[l], m, l, sign(m), sign(l));
      if m != l { assert order[m] != order[l]; }
    }
  }

  /** Signed columns have the inner product of the columns, up to the two signs. */
  lemma SignedDot(v: Matrix, w: Matrix, k: nat, om: int, ol: int, m: int, l: int, sm: real, sl: real)
    requires (sm == 1.0 || sm == -1.0) && (sl == 1.0 || sl == -1.0)
    requires forall r | 0 <= r < k :: w(r, m) == sm * v(r, om) && w(r, l) == sl * v(r, ol)
    ensures ColDot(w, k, m, l) == if sm == sl then ColDot(v, k, om, ol) else -ColDot(v, k, om, ol)
  {
    var c := if sm == sl then 1.0 else -1.0;
    var g := (r: int) => v(r, om) * v(r, ol);
    SumScale(k, c, g);
    forall r | 0 <= r < k ensures w(r, m) * w(r, l) == c * g(r) {
      SignedProduct(v(r, om), v(r, ol), w(r, m), w(r, l), sm, sl);
    }
    SumExt(k, r => w(r, m) * w(r, l), r => c * g(r));
    SumExt(k, g, r => v(r, om) * v(r, ol));
  }

  lemma SignedProduct(x: real, y: real, x': real, y': real, sm: real, sl: real)
    requires (sm == 1.0 || sm == -1.0) && (sl == 1.0 || sl == -1.0) && x' == sm * x && y' == sl * y
    ensures x' * y' == if sm == sl then x * y else -(x * y)
  {
  }

  lemma RearrangedResidual(aIn: Matrix, v: Matrix, w: Matrix, k: nat, order: seq<int>, sign: int -> real,
                           m: int, lambda: real)
    requires Rearranged(v, w, k, order, sign) && 0 <= m < k
    ensures Residual(aIn, w, k, m, lambda) == Residual(aIn, v, k, order[m], lambda)
  {
    var (x, y) := ((r: int) => Defect(aIn, w, k, m, lambda, r), (r: int) => Defect(aIn, v, k, order[m], lambda, r));
    forall r | 0 <= r < k ensures x(r) * x(r) == y(r) * y(r) {
      FlippedDefect(aIn, v, w, k, order, sign, m, lambda, r);
    }
    SumExt(k, r => x(r) * x(r), r => y(r) * y(r));
  }

  lemma FlippedDefect(aIn: Matrix, v: Matrix, w: Matrix, k: nat, order: seq<int>, sign: int -> real,
                      m: int, lambda: real, r: int)
    requires Rearranged(v, w, k, order, sign) && 0 <= m < k && 0 <= r < k
    ensures Defect(aIn, w, k, m, lambda, r) == Defect(aIn, v, k, order[m], lambda, r)
         || Defect(aIn, w, k, m, lambda, r) == -Defect(aIn, v, k, order[m], lambda, r)
  {
    if sign(m) == 1.0 {
      FlippedProduct(aIn, v, w, k, order[m], m, 1.0, r);
    } else {
      FlippedProduct(aIn, v, w, k, order[m], m, -1.0, r);
    }
  }

  lemma FlippedProduct(aIn: Matrix, v: Matrix, w: Matrix, k: nat, o: int, m: int, sign: real, r: int)
    requires forall i | 0 <= i < k :: w(i, m) == sign * v(i, o)
    ensures Product(aIn, w, k, r, m) == sign * Product(aIn, v, k, r, o)
  {
    var g := (i: int) => aIn(r, i) * v(i, o);
    SumScale(k, sign, g);
    forall i | 0 <= i < k ensures aIn(r, i) * w(i, m) == sign * g(i) {
      assert aIn(r, i) * (sign * v(i, o)) == sign * (aIn(r, i) * v(i, o));
    }
    SumExt(k, i => aIn(r, i) * w(i, m), i => sign * g(i));
  }

  /** piv is the row of the largest magnitude in column m, the last one among equals. */
  ghost predicate IsPivot(w: Matrix, k: nat, m: int, piv: int) {
    0 <= piv < k &&
    forall r | 0 <= r < k ::
      Abs(w(r, m)) <= Abs(w(piv, m)) && (r > piv ==> Abs(w(r, m)) < Abs(w(piv, m)))
  }

  /** The sign convention: the pivot of column m is not negative. */
  ghost predicate SignFixed(w: Matrix, k: nat, m: int) {
    exists piv :: IsPivot(w, k, m, piv) && w(piv, m) >= 0.0
  }

  method Pivot(col: seq<real>) returns (piv: nat)
    requires col != []
    ensures piv < |col|
    ensures forall r | 0 <= r < |col| :: Abs(col[r]) <= Abs(col[piv]) && (r > piv ==> Abs(col[r]) < Abs(col[piv]))
  {
    piv := 0;
    for j := 1 to |col|
      invariant piv < j
      invariant forall r | 0 <= r < j :: Abs(col[r]) <= Abs(col[piv]) && (r > piv ==> Abs(col[r]) < Abs(col[piv]))
    {
      if Abs(col[j]) >= Abs(col[piv]) {
        piv := j;
      }
    }
  }

  /** Column m of w is column i of v up to sign, with the pivot made non-negative. */
  ghost predicate ColumnSigned(v: Matrix, w: Matrix, k: nat, i: int, m: int, sign: real) {
    && (sign == 1.0 || sign == -1.0)
    && (forall r | 0 <= r < k :: w(r, m) == sign * v(r, i))
    && SignFixed(w, k, m)
  }

  lemma SameColumn(v: Matrix, w: Matrix, w': Matrix, k: nat, i: int, m: int, sign: real)
    requires ColumnSigned(v, w, k, i, m, sign)
    requires forall r | 0 <= r < k :: w'(r, m) == w(r, m)
    ensures ColumnSigned(v, w', k, i, m, sign)
  {
    var piv :| IsPivot(w, k, m, piv) && w(piv, m) >= 0.0;
    assert IsPivot(w', k, m, piv);
  }

  /** Column m of the output: column i of v, flipped so that its pivot is not negative. */
  method SignedColumn(v: array2<real>, i: nat, out: array2<real>, m: nat) returns (ghost sign: real)
    requires v != out && v.Length0 == v.Length1 == out.Length0 == out.Length1 && i < v.Length0 && m < out.Length1
    modifies out
    ensures ColumnSigned(View(v), View(out), v.Length0, i, m, sign)
    ensures forall r, c | 0 <= r < out.Length0 && 0 <= c < out.Length1 && c != m ::
      View(out)(r, c) == old(View(out))(r, c)
  {
    var k := v.Length0;
    var col := seq(k, row requires 0 <= row < k reads v => v[row, i]);
    var at := Pivot(col);
    var s := if col[at] < 0.0 then -1.0 else 1.0;
    sign := s;
    ViewAt(v);
    ViewAt(out);
    for row := 0 to k
      invariant forall r | 0 <= r < row :: out[r, m] == s * col[r]
      invariant forall r, c | 0 <= r < k && 0 <= c < k && c != m :: out[r, c] == old(out[r, c])
    {
      out[row, m] := s * col[row];
    }
    ViewAt(out);
    FlippedPivot(col, View(v), View(out), k, i, m, s, at);
  }

  lemma FlippedPivot(col: seq<real>, v: Matrix, w: Matrix, k: nat, i: int, m: int, s: real, at: int)
    requires |col| == k && 0 <= at < k && s == (if col[at] < 0.0 then -1.0 else 1.0)
    requires forall r | 0 <= r < k :: w(r, m) == s * col[r] && v(r, i) == col[r]
    requires forall r | 0 <= r < k :: Abs(col[r]) <= Abs(col[at]) && (r > at ==> Abs(col[r]) < Abs(col[at]))
    ensures ColumnSigned(v, w, k, i, m, s)
  {
    forall r | 0 <= r < k ensures Abs(w(r, m)) == Abs(col[r]) { assert w(r, m) == s * col[r]; }
    assert IsPivot(w, k, m, at) && w(at, m) >= 0.0;
  }

  method GatherColumns(v: array2<real>, order: seq<int>) returns (vecs: seq<seq<real>>, ghost signs: seq<real>)
    requires v.Length0 == v.Length1 == |order| && forall m | 0 <= m < |order| :: 0 <= order[m] < |order|
    ensures IsSquare(vecs, |order|) && |signs| == |order|
    ensures forall m | 0 <= m < |order| ::
      ColumnSigned(View(v), Entries(vecs), |order|, order[m], m, signs[m])
  {
    var k := |order|;
    var out := new real[k, k];
    signs := [];
    for m := 0 to k
      invariant |signs| == m
      invariant forall l | 0 <= l < m :: ColumnSigned(View(v), View(out), k, order[l], l, signs[l])
    {
      ghost var before := View(out);
      ghost var sign := SignedColumn(v, order[m], out, m);
      forall l | 0 <= l < m ensures ColumnSigned(View(v), View(out), k, order[l], l, signs[l]) {
        SameColumn(View(v), before, View(out), k, order[l], l, signs[l]);
      }
      signs := signs + [sign];
    }
    vecs := seq(k, i requires 0 <= i < k reads out => seq(k, j requires 0 <= j < k reads out => out[i, j]));
    assert vecs == Rows(out);
  }

  ghost predicate Descending(vals: seq<real>) {
    forall m, l | 0 <= m < l < |vals| :: vals[m] >= vals[l]
  }

  /** Values descending with the input's trace, orthonormal columns, every sign fixed. */
  ghost predicate Eigenbasis(aIn: Matrix, k: nat, vals: seq<real>, vecs: seq<seq<real>>) {
    && |vals| == k && IsSquare(vecs, k)
    && Descending(vals)
    && Sum(k, Nth(vals)) == Trace(aIn, k)
    && OrthonormalColumns(Entries(vecs), k)
    && (forall m | 0 <= m < k :: SignFixed(Entries(vecs), k, m))
  }

  /** How far each pair is from an eigenpair, squared. */
  ghost predicate ResidualsWithin(aIn: Matrix, k: nat, vals: seq<real>, vecs: seq<seq<real>>, off: real) {
    |vals| == k && forall m | 0 <= m < k :: Residual(aIn, Entries(vecs), k, m, vals[m]) <= off
  }

  /** The diagonal of a matrix, as a sort key. */
  function Diagonal(a: Matrix): int -> real {
    i => a(i, i)
  }

  /**
   * The pairs read off a matrix a and rotations v: positions by descending diagonal entry, lower index
   * first among equals, each value that entry and each vector that column of v up to its sign.
   */
  ghost predicate ReadOff(a: Matrix, v: Matrix, k: nat, order: seq<int>, signs: seq<real>, vals: seq<real>,
                          vecs: seq<seq<real>>) {
    && Ordered(order, Diagonal(a)) && Rearranged(v, Entries(vecs), k, order, Nth(signs))
    && |vals| == k && forall m | 0 <= m < k :: vals[m] == a(order[m], order[m])
  }

  /** Sort the diagonal, gather the columns in that order and fix their signs. */
  method Collect(a: array2<real>, v: array2<real>, ghost aIn: Matrix)
    returns (vals: seq<real>, vecs: seq<seq<real>>, ghost order: seq<int>, ghost signs: seq<real>)
    requires a.Length0 == a.Length1 == v.Length0 == v.Length1
    requires Decomposes(aIn, View(a), View(v), a.Length0)
    ensures ReadOff(View(a), View(v), a.Length0, order, signs, vals, vecs)
    ensures Eigenbasis(aIn, a.Length0, vals, vecs)
    ensures ResidualsWithin(aIn, a.Length0, vals, vecs, Upper(View(a), a.Length0))
  {
    var k := a.Length0;
    var diag := seq(k, i requires 0 <= i < k reads a => a[i, i]);
    var indices := seq(k, i => i);
    var sorted := SortDescending(indices, Nth(diag));
    OrderIsPermutation(sorted, indices, k, Nth(diag));
    SameKeys(sorted, k, Nth(diag), Diagonal(View(a)));
    vals := seq(k, m requires 0 <= m < k => diag[sorted[m]]);
    vecs, signs := GatherColumns(v, sorted);
    order := sorted;
    SignsRearrange(View(v), k, order, signs, vecs);
    Finish(aIn, View(a), View(v), k, order, indices, signs, vals, vecs);
  }

  lemma SameKeys(order: seq<int>, k: nat, key: int -> real, key': int -> real)
    requires Ordered(order, key) && forall m | 0 <= m < |order| :: 0 <= order[m] < k
    requires forall i | 0 <= i < k :: key(i) == key'(i)
    ensures Ordered(order, key')
  {
    forall i, j | 0 <= i < j < |order| ensures Before(order[i], order[j], key') {
      assert Before(order[i], order[j], key);
    }
  }

  lemma SignsRearrange(v: Matrix, k: nat, order: seq<int>, signs: seq<real>, vecs: seq<seq<real>>)
    requires |order| == k && |signs| == k && forall m | 0 <= m < k :: 0 <= order[m] < k
    requires forall m, l | 0 <= m < l < k :: order[m] != order[l]
    requires forall m | 0 <= m < k :: ColumnSigned(v, Entries(vecs), k, order[m], m, signs[m])
    ensures Rearranged(v, Entries(vecs), k, order, Nth(signs))
    ensures forall m | 0 <= m < k :: SignFixed(Entries(vecs), k, m)
  {
    var (w, sign) := (Entries(vecs), Nth(signs));
    forall r, m | 0 <= r < k && 0 <= m < k ensures w(r, m) == sign(m) * v(r, order[m]) {
      assert ColumnSigned(v, w, k, order[m], m, signs[m]);
    }
    forall m | 0 <= m < k ensures SignFixed(w, k, m) && (sign(m) == 1.0 || sign(m) == -1.0) {
      assert ColumnSigned(v, w, k, order[m], m, signs[m]);
    }
  }

  lemma OrderIsPermutation(order: seq<int>, indices: seq<int>, k: nat, key: int -> real)
    requires Ordered(order, key) && indices == seq(k, i => i) && multiset(order) == multiset(indices)
    ensures |order| == k && forall m | 0 <= m < k :: 0 <= order[m] < k
    ensures forall m, l | 0 <= m < l < k :: order[m] != order[l] && key(order[m]) >= key(order[l])
  {
    Members(order, indices);
    OrderedDistinct(order, key);
    forall m | 0 <= m < k ensures 0 <= order[m] < k { assert order[m] in order; }
    forall m, l | 0 <= m < l < k ensures key(order[m]) >= key(order[l]) {
      assert Before(order[m], order[l], key);
    }
  }

  lemma Finish(aIn: Matrix, a: Matrix, v: Matrix, k: nat, order: seq<int>, indices: seq<int>, signs: seq<real>,
               vals: seq<real>, vecs: seq<seq<real>>)
    requires Decomposes(aIn, a, v, k) && ReadOff(a, v, k, order, signs, vals, vecs) && IsSquare(vecs, k)
    requires indices == seq(k, i => i) && multiset(order) == multiset(indices)
    requires forall m | 0 <= m < k :: SignFixed(Entries(vecs), k, m)
    ensures Eigenbasis(aIn, k, vals, vecs) && ResidualsWithin(aIn, k, vals, vecs, Upper(a, k))
  {
    RearrangedOrthonormal(v, Entries(vecs), k, order, Nth(signs));
    TraceOfValues(a, k, order, indices, vals);
    ValuesDescend(a, k, order, vals);
    ResidualsOfPairs(aIn, a, v, k, order, signs, vals, vecs);
  }

  lemma ValuesDescend(a: Matrix, k: nat, order: seq<int>, vals: seq<real>)
    requires |order| == |vals| == k && Ordered(order, Diagonal(a)) && forall m | 0 <= m < k ::
      vals[m] == a(order[m], order[m])
    ensures Descending(vals)
  {
    forall m, l | 0 <= m < l < k ensures vals[m] >= vals[l] {
      assert Before(order[m], order[l], Diagonal(a));
    }
  }

  lemma ResidualsOfPairs(aIn: Matrix, a: Matrix, v: Matrix, k: nat, order: seq<int>, signs: seq<real>,
                         vals: seq<real>, vecs: seq<seq<real>>)
    requires Decomposes(aIn, a, v, k) && ReadOff(a, v, k, order, signs, vals, vecs)
    ensures ResidualsWithin(aIn, k, vals, vecs, Upper(a, k))
  {
    forall m | 0 <= m < k ensures Residual(aIn, Entries(vecs), k, m, vals[m]) <= Upper(a, k) {
      RearrangedResidual(aIn, v, Entries(vecs), k, order, Nth(signs), m, vals[m]);
      ResidualBounded(aIn, v, a, k, order[m]);
    }
  }

  lemma TraceOfValues(a: Matrix, k: nat, order: seq<int>, indices: seq<int>, vals: seq<real>)
    requires indices == seq(k, i => i) && multiset(order) == multiset(indices)
    requires |order| == k && forall m | 0 <= m < k :: 0 <= order[m] < k
    requires |vals| == k && forall m | 0 <= m < k :: vals[m] == a(order[m], order[m])
    ensures Sum(k, Nth(vals)) == Trace(a, k)
  {
    var d := (i: int) => a(i, i);
    SumOverPermuted(order, indices, d);
    SumOverList(order, d, Nth(vals));
    SumOverList(indices, d, d);
  }

  /** The sweeps start from the input and the identity. */
  ghost predicate FromIdentity(stages: seq<Stage>, aIn: seq<seq<real>>, k: nat) {
    && |stages| > 0 && stages[0].a == Entries(aIn)
    && forall i, j | 0 <= i < k && 0 <= j < k :: stages[0].v(i, j) == Delta(i, j)
  }

  /** The decomposition at given tolerances. */
  method Diagonalise(aIn: seq<seq<real>>, k: nat, sqrt: real -> real, enough: real, tiny: real)
    returns (vals: seq<real>, vecs: seq<seq<real>>,
             ghost left: Matrix, ghost turned: Matrix, ghost stages: seq<Stage>, ghost trails: seq<seq<Step>>,
             ghost order: seq<int>, ghost signs: seq<real>)
    requires IsSquare(aIn, k) && Symmetric(Entries(aIn), k) && IsRoot(sqrt) && tiny >= 0.0
    ensures Eigenbasis(Entries(aIn), k, vals, vecs)
    ensures Decomposes(Entries(aIn), left, turned, k)
    ensures FromIdentity(stages, aIn, k) && SweptInTurn(stages, trails, k, enough, tiny)
    ensures stages[|trails|] == Stage(left, turned) && |trails| <= 60 && (|trails| == 60 || Upper(left, k) <= enough)
    ensures ReadOff(left, turned, k, order, signs, vals, vecs)
    ensures ResidualsWithin(Entries(aIn), k, vals, vecs, Upper(left, k))
    ensures Upper(left, k) <= enough || Negligible(left, k, tiny) || Upper(left, k) < Upper(Entries(aIn), k)
  {
    var a := new real[k, k]((i, j) requires 0 <= i < k && 0 <= j < k => aIn[i][j]);
    var v := new real[k, k]((i, j) => if i == j then 1.0 else 0.0);
    ghost var m := Entries(aIn);
    RowsOf(a, aIn);
    ViewAt(v);
    IdentityDecomposes(m, View(v), k);
    stages, trails := Sweeps(a, v, enough, tiny, sqrt, m);
    left, turned := View(a), View(v);
    vals, vecs, order, signs := Collect(a, v, m);
  }

  /**
   * Symmetric eigendecomposition by cyclic Jacobi, over exact arithmetic. `stages` are the working
   * matrices after each sweep and `trails` the visits between them: sweep follows full sweep until the
   * off-diagonal sum is at most 1e-30, or sixty are done. `left` and `turned` are the last stage; the
   * pairs are the diagonal of the one and the columns of the other, in the order and with the signs the
   * ghost results name.
   */
  method JacobiEigh(aIn: seq<seq<real>>, k: nat, sqrt: real -> real)
    returns (vals: seq<real>, vecs: seq<seq<real>>,
             ghost left: Matrix, ghost turned: Matrix, ghost stages: seq<Stage>, ghost trails: seq<seq<Step>>,
             ghost order: seq<int>, ghost signs: seq<real>)
    requires IsSquare(aIn, k) && Symmetric(Entries(aIn), k) && IsRoot(sqrt)
    ensures Eigenbasis(Entries(aIn), k, vals, vecs)
    ensures Decomposes(Entries(aIn), left, turned, k)
    ensures FromIdentity(stages, aIn, k) && SweptInTurn(stages, trails, k, 1e-30, 1e-300)
    ensures stages[|trails|] == Stage(left, turned) && |trails| <= 60 && (|trails| == 60 || Upper(left, k) <= 1e-30)
    ensures ReadOff(left, turned, k, order, signs, vals, vecs)
    ensures ResidualsWithin(Entries(aIn), k, vals, vecs, Upper(left, k))
    ensures Upper(left, k) <= 1e-30 || Negligible(left, k, 1e-300) || Upper(left, k) < Upper(Entries(aIn), k)
    ensures k == 2 ==> ExactOfTwo(stages, trails)
  {
    vals, vecs, left, turned, stages, trails, order, signs := Diagonalise(aIn, k, sqrt, 1e-30, 1e-300);
    if k == 2 { TwoByTwoIsExact(stages, trails); }
  }
}
