/** The loops of a decision, each proved against the run in which no duplicate is skipped. */
module Decide {
  import opened Layout
  import opened Keep
  import opened Logits
  import opened KernelSpec
  import opened Kernel
  import opened Readout
  import opened DecideSpec
  import opened Sums

  // ----- one keep-set at one layer

  /** Every retained position is resident. */
  ghost predicate InRange(keep: KeepSets, l: nat, g: Geom)
    requires Shaped(keep, g) && l < g.nLayers
  {
    forall h: nat | h < g.nKvHeads :: ListInRange(keep.Head(l, h), g.currentPos)
  }

  ghost predicate ListInRange(list: seq<nat>, currentPos: nat) {
    forall j | 0 <= j < |list| :: list[j] < currentPos
  }

  lemma {:induction false} BoundaryIndexes(keep: KeepSets, l: nat, g: Geom, kp: KeyPos)
    requires Shaped(keep, g) && l < g.nLayers && InRange(keep, l, g) && IsBoundary(keep, l, g.currentPos, g.rows, kp)
    ensures Indexable(keep, l, kp, g)
  {
    forall kv: nat | kv < g.nKvHeads ensures ListFits(keep.Head(l, kv), kp, kv, g) {
      assert ListInRange(keep.Head(l, kv), g.currentPos);
      forall t | 0 <= t < g.rows ensures kp.Admitted(kv, t) <= |keep.Head(l, kv)| {
        AdmittedBounded(keep, l, g.currentPos, g.rows, kp, kv, t);
      }
    }
  }

  lemma {:induction false} BoundaryColumns(keep: KeepSets, l: nat, g: Geom, kp: KeyPos, h: nat, t: nat)
    requires Shaped(keep, g) && g.Grouped() && l < g.nLayers && IsBoundary(keep, l, g.currentPos, g.rows, kp)
    requires Indexable(keep, l, kp, g) && h < g.nHeadsQ && t < g.rows
    ensures LayerCols(keep, l, kp, g)(h, t) == KeepCols(keep, l, g)(h, t)
  {
    AdmittedBounded(keep, l, g.currentPos, g.rows, kp, g.KvHead(h), t);
  }

  lemma {:induction false} FusedCellExt(exp: real -> real, z: seq<real>, cols: (int, int) -> seq<nat>,
                                        cols': (int, int) -> seq<nat>, vb: seq<real>,
                     g: Geom, r: nat, t: int, k: int)
    requires forall h | 0 <= h < g.nHeadsQ :: cols(h, t) == cols'(h, t)
    ensures FusedCell(exp, z, cols, vb, g, r, t, k) == FusedCell(exp, z, cols', vb, g, r, t, k)
  {
    SumExt(g.nHeadsQ, h => FusedTerm(exp, z, cols, vb, g, r, t, k, h),
           h => FusedTerm(exp, z, cols', vb, g, r, t, k, h));
  }

  lemma {:induction false} RowsTimes(rows: nat, rank: nat)
    requires rows > 0
    ensures (rows * rank) % rows == 0 && (rows * rank) / rows == rank
  {
    IxDecode(rank, 0, rows);
    assert Ix(rank, 0, rows) == rows * rank;
  }

  /** The readout of one keep-set, its boundary derived first. */
  method ReadoutFor(i: Inputs, l: nat, keep: KeepSets, z: seq<real>, vb: seq<real>)
    returns (res: Option<KernelError>, kp: KeyPos, readout: seq<real>)
    requires i.Valid() && i.g.rows > 0 && l < i.g.nLayers && Shaped(keep, i.g) && InRange(keep, l, i.g)
    requires z == LogitsOf(i, l) && vb == ValuesOf(i, l)
    ensures res == EmptyFault(keep, l, i.g, 0)
    ensures res.None? ==> readout == ReadoutOf(i, l, keep)
    ensures IsBoundary(keep, l, i.g.currentPos, i.g.rows, kp)
  {
    var g := i.g;
    var w := new real[g.rows * i.basis.rank](_ => 0.0);
    kp := ForLayer(keep, l, g.currentPos, g.rows);
    BoundaryIndexes(keep, l, g, kp);
    RowsTimes(g.rows, i.basis.rank);
    var r := AttendProjectInto(i.exp, z, keep, l, kp, vb, w, g);
    if r.Err? {
      return Some(r.error), kp, [];
    }
    ReadoutIs(i, l, keep, kp, z, vb, w[..]);
    return None, kp, w[..];
  }

  lemma {:induction false} ReadoutIs(i: Inputs, l: nat, keep: KeepSets, kp: KeyPos, z: seq<real>, vb: seq<real>,
                                     w: seq<real>)
    requires i.Valid() && l < i.g.nLayers && Shaped(keep, i.g)
    requires Indexable(keep, l, kp, i.g) && IsBoundary(keep, l, i.g.currentPos, i.g.rows, kp)
    requires z == LogitsOf(i, l) && vb == ValuesOf(i, l)
    requires IsTable(w, i.g.rows, i.basis.rank,
                     (t, k) => FusedCell(i.exp, z, LayerCols(keep, l, kp, i.g), vb, i.g, i.basis.rank, t, k))
    ensures w == ReadoutOf(i, l, keep)
  {
    var (g, r) := (i.g, i.basis.rank);
    var (cols, cols') := (LayerCols(keep, l, kp, g), KeepCols(keep, l, g));
    forall t, k | 0 <= t < g.rows && 0 <= k < r
      ensures FusedCell(i.exp, z, cols, vb, g, r, t, k) == FusedCell(i.exp, z, cols', vb, g, r, t, k)
    {
      forall h | 0 <= h < g.nHeadsQ ensures cols(h, t) == cols'(h, t) { BoundaryColumns(keep, l, g, kp, h, t); }
      FusedCellExt(i.exp, z, cols, cols', vb, g, r, t, k);
    }
    TableIs(w, g.rows, r, (t, k) => FusedCell(i.exp, z, cols, vb, g, r, t, k),
            (t, k) => FusedCell(i.exp, z, cols', vb, g, r, t, k));
    assert w == Table(g.rows, r, (t, k) => FusedCell(i.exp, z, cols', vb, g, r, t, k));
  }

  lemma {:induction false} SeenIs(keep: KeepSets, l: nat, g: Geom, kp: KeyPos, m: set<nat>)
    requires Shaped(keep, g) && l < g.nLayers && IsBoundary(keep, l, g.currentPos, g.rows, kp)
    requires forall t :: t in m <==> 0 <= t < kp.rows && t < 32 && kp.Sees(t)
    ensures m == SeenRows(l, keep, g)
  {
    forall t: nat | t < g.rows ensures kp.Sees(t) <==> SeesAll(l, keep, g, t) {
      forall h: nat | h < g.nKvHeads
        ensures kp.Get(h, t) == Prefix(keep.Head(l, h), RowPos(g.currentPos, g.rows, t)) - 1 {}
    }
  }

  // ----- one candidate at one layer

  /** The cells of the first n layers, the rest still zero. */
  function CellsAfter(run: Run, keep: KeepSets, g: Geom, n: int): Cells {
    Cells(Table(g.nLayers, g.rows, Below(n, L2Of(run, keep))), Table(g.nLayers, g.rows, Below(n, DcosOf(run, keep))))
  }

  /** The cells of the layers below n, zeros above. */
  function Below(n: int, f: (int, int) -> real): (int, int) -> real {
    (l, t) => if l < n then f(l, t) else 0.0
  }

  /** Boundary, visible rows, readout and cells of one candidate. */
  method CandidatePass(i: Inputs, l: nat, ghost base: KeepSets, keep: KeepSets, z: seq<real>, vb: seq<real>,
                       wBase: seq<real>,
                       cells: Cells, ghost run: Run)
    returns (res: Option<AperturbError>, seen: set<nat>, cells': Cells)
    requires i.Valid() && i.g.rows > 0 && l < i.g.nLayers && Shaped(keep, i.g) && InRange(keep, l, i.g)
      && Shaped(base, i.g)
    requires z == LogitsOf(i, l) && vb == ValuesOf(i, l) && wBase == ReadoutOf(i, l, base)
    requires run == RunOf(i, base) && cells == CellsAfter(run, keep, i.g, l)
    ensures res == run.fault(l, keep)
    ensures seen == run.seen(l, keep)
    ensures res.None? ==> cells' == CellsAfter(run, keep, i.g, l + 1)
  {
    cells' := cells;
    var fault, kp, wCand := ReadoutFor(i, l, keep, z, vb);
    seen := VisibleRows(kp);
    SeenIs(keep, l, i.g, kp, seen);
    if fault.Some? {
      return Some(KernelFault(fault.value)), seen, cells';
    }
    var grid := new CellGrid.Resume(i.g.nLayers, i.g.rows, cells.l2, cells.dcos);
    var filled := grid.FillLayer(i.sqrt, l, wBase, wCand, i.basis.rank);
    cells' := Cells(grid.l2, grid.dcos);
    if filled.Err? {
      return Some(ReadoutFault(filled.error)), seen, cells';
    }
    LayerAdded(i, l, base, keep, cells', run, cells);
    return None, seen, cells';
  }

  /** Filling layer l leaves the layers before it as they were. */
  lemma {:induction false} LayerAdded(i: Inputs, l: nat, base: KeepSets, keep: KeepSets, cells: Cells, run: Run,
                                      before: Cells)
    requires i.Valid() && l < i.g.nLayers && Shaped(keep, i.g) && Shaped(base, i.g) && run == RunOf(i, base)
    requires before == CellsAfter(run, keep, i.g, l) && |cells.l2| == |cells.dcos| == |before.l2|
    requires HoldsLayer(cells.l2, l, i.g.rows,
                        L2Rows(i.sqrt, ReadoutOf(i, l, base), ReadoutOf(i, l, keep), i.basis.rank))
    requires HoldsLayer(cells.dcos, l, i.g.rows,
                        DcosRows(i.sqrt, ReadoutOf(i, l, base), ReadoutOf(i, l, keep), i.basis.rank))
    requires forall x | 0 <= x < |cells.l2| && !(l * i.g.rows <= x < l * i.g.rows + i.g.rows) ::
      cells.l2[x] == before.l2[x] && cells.dcos[x] == before.dcos[x]
    ensures cells == CellsAfter(run, keep, i.g, l + 1)
  {
    var (m, n) := (i.g.nLayers, i.g.rows);
    LayerJoins(cells.l2, before.l2, m, n, l, L2Of(run, keep),
               L2Rows(i.sqrt, ReadoutOf(i, l, base), ReadoutOf(i, l, keep), i.basis.rank));
    LayerJoins(cells.dcos, before.dcos, m, n, l, DcosOf(run, keep),
               DcosRows(i.sqrt, ReadoutOf(i, l, base), ReadoutOf(i, l, keep), i.basis.rank));
  }

  lemma {:induction false} LayerJoins(cells: seq<real>, before: seq<real>, m: nat, n: nat, l: nat,
                                      f: (int, int) -> real, row: int -> real)
    requires l < m && before == Table(m, n, Below(l, f)) && |cells| == |before|
    requires HoldsLayer(cells, l, n, row) && forall t | 0 <= t < n :: row(t) == f(l, t)
    requires forall x | 0 <= x < |cells| && !(l * n <= x < l * n + n) :: cells[x] == before[x]
    ensures cells == Table(m, n, Below(l + 1, f))
  {
    TableHolds(m, n, Below(l, f));
    forall l', t | 0 <= l' < m && 0 <= t < n
      ensures 0 <= Ix(l', t, n) < |cells| && cells[Ix(l', t, n)] == Below(l + 1, f)(l', t)
    {
      assert 0 <= Ix(l', t, n) < |before|;
      if l' < l { NextRow(l', l, n); } else if l < l' { NextRow(l, l', n); }
    }
    TableIs(cells, m, n, Below(l + 1, f), Below(l + 1, f));
  }

  // ----- what a layer computes once

  /** The shared logits: the exported block when its length fits, computed otherwise. */
  method SharedLogits(i: Inputs, l: nat) returns (res: Result<seq<real>, KernelError>)
    requires i.Valid() && l < i.g.nLayers
    ensures var fault := LogitFault(i.layers[l].q, i.layers[l].k, i.g.nHeadsQ * (i.g.rows * i.g.currentPos), i.g);
      res == if i.UsesExport(l) || fault == None then Ok(LogitsOf(i, l)) else Err(fault.value)
  {
    if i.UsesExport(l) {
      return Ok(i.layers[l].logits.value);
    }
    var (q, k) := (i.layers[l].q, i.layers[l].k);
    var z := new real[i.g.nHeadsQ * (i.g.rows * i.g.currentPos)](_ => 0.0);
    var r, writes := LogitsInto(q, k, z, i.g, i.root);
    if r.Err? {
      return Err(r.error);
    }
    Table3Is(z[..], i.g.nHeadsQ, i.g.rows, i.g.currentPos, (h, t, p) => Logit(q, k, i.g, i.root, h, t, p));
    return Ok(z[..]);
  }

  /** What a layer shares: its logits, its projected values and the baseline's readout. */
  datatype Shared = Shared(z: seq<real>, vb: seq<real>, wBase: seq<real>)

  method LayerHead(i: Inputs, l: nat, base: KeepSets) returns (res: Result<Shared, AperturbError>)
    requires i.Valid() && i.g.rows > 0 && l < i.g.nLayers && Shaped(base, i.g) && InRange(base, l, i.g)
    ensures match HeadFault(i, base, l)
      case Some(e) => res == Err(e)
      case None => res == Ok(Shared(LogitsOf(i, l), ValuesOf(i, l), ReadoutOf(i, l, base)))
  {
    var zl := SharedLogits(i, l);
    if zl.Err? {
      return Err(KernelFault(zl.error));
    }
    var (v, b, r) := (i.layers[l].v, i.basis.layers[l], i.basis.rank);
    var vb := new real[i.g.nHeadsQ * (i.g.currentPos * r)](_ => 0.0);
    var projected := ProjectValuesInto(v, b, vb, i.g, r);
    if projected.Err? {
      return Err(KernelFault(projected.error));
    }
    Table3Is(vb[..], i.g.nHeadsQ, i.g.currentPos, r, (h, p, k) => ValueCell(v, b, i.g, r, h, p, k));
    var fault, kp, wBase := ReadoutFor(i, l, base, zl.value, vb[..]);
    if fault.Some? {
      return Err(KernelFault(fault.value));
    }
    return Ok(Shared(zl.value, vb[..], wBase));
  }

  // ----- the fold

  /** rep[c] is the least index whose table equals that of c. */
  ghost predicate IsRep(keeps: seq<KeepSets>, rep: seq<nat>) {
    && |rep| == |keeps|
    && forall c | 0 <= c < |rep| :: RepAt(keeps, rep, c)
  }

  ghost predicate RepAt(keeps: seq<KeepSets>, rep: seq<nat>, c: int)
    requires 0 <= c < |rep| == |keeps|
  {
    IsRepOf(keeps, rep[c], c)
  }

  ghost predicate IsRepOf(keeps: seq<KeepSets>, p: nat, c: nat)
    requires c < |keeps|
  {
    p <= c && keeps[p] == keeps[c] && forall p' | 0 <= p' < p :: keeps[p'] != keeps[c]
  }

  method Representatives(keeps: seq<KeepSets>) returns (rep: seq<nat>)
    ensures IsRep(keeps, rep)
  {
    rep := [];
    for c := 0 to |keeps|
      invariant |rep| == c && forall c' | 0 <= c' < c :: IsRepOf(keeps, rep[c'], c')
    {
      var p := 0;
      while p < c && keeps[p] != keeps[c]
        invariant 0 <= p <= c && forall p' | 0 <= p' < p :: keeps[p'] != keeps[c]
      {
        p := p + 1;
      }
      rep := rep + [p];
    }
    forall c | 0 <= c < |rep| ensures RepAt(keeps, rep, c) { assert IsRepOf(keeps, rep[c], c); }
  }

  /** A representative represents itself. */
  lemma {:induction false} RepOfRep(keeps: seq<KeepSets>, rep: seq<nat>, c: nat)
    requires IsRep(keeps, rep) && c < |rep|
    ensures rep[c] < |rep| && rep[rep[c]] == rep[c]
  {
    var p := rep[c];
    assert RepAt(keeps, rep, c);
    assert RepAt(keeps, rep, p);
  }

  /** How many of the first n candidates are scored. */
  function Reps(rep: seq<nat>, n: nat): nat
    requires n <= |rep|
  {
    if n == 0 then 0 else Reps(rep, n - 1) + if rep[n - 1] == n - 1 then 1 else 0
  }

  /** The candidates that repeat an earlier one. */
  function Repeats(keeps: seq<KeepSets>, n: nat): nat
    requires n <= |keeps|
  {
    if n == 0 then 0 else Repeats(keeps, n - 1) + if exists p | 0 <= p < n - 1 :: keeps[p] == keeps[n - 1] then 1 else 0
  }

  /** Every candidate is either scored or a repeat. */
  lemma {:induction false} RepsAndRepeats(keeps: seq<KeepSets>, rep: seq<nat>, n: nat)
    requires IsRep(keeps, rep) && n <= |rep|
    ensures Reps(rep, n) + Repeats(keeps, n) == n
  {
    if n > 0 {
      RepsAndRepeats(keeps, rep, n - 1);
      assert RepAt(keeps, rep, n - 1);
    }
  }

  /** How many layers candidate a has behind it when the first c candidates of layer l are scored. */
  function LayersBehind(rep: seq<nat>, l: nat, c: int, a: int): nat
    requires 0 <= a < |rep|
  {
    if rep[a] != a then 0 else if a < c then l + 1 else l
  }

  /** Every candidate's cells and visible rows at that point: a duplicate's are still blank. */
  function GridsAt(keeps: seq<KeepSets>, rep: seq<nat>, run: Run, g: Geom, l: nat, c: int): (r: seq<Cells>)
    requires |rep| == |keeps|
    ensures |r| == |keeps|
  {
    seq(|keeps|, a requires 0 <= a < |keeps| => CellsAfter(run, keeps[a], g, LayersBehind(rep, l, c, a)))
  }

  function MasksAt(keeps: seq<KeepSets>, rep: seq<nat>, run: Run, l: nat, c: int): (r: seq<set<nat>>)
    requires |rep| == |keeps|
    ensures |r| == |keeps|
  {
    seq(|keeps|, a requires 0 <= a < |keeps| => VisibleAfter(run, keeps[a], LayersBehind(rep, l, c, a)))
  }

  /** What candidate c of layer l is scored against. */
  ghost predicate CandidateReady(i: Inputs, l: nat, base: KeepSets, keeps: seq<KeepSets>, shared: Shared, run: Run,
                                 c: int)
  {
    && i.Valid() && i.g.rows > 0 && l < i.g.nLayers && Shaped(base, i.g) && run == RunOf(i, base)
    && shared == Shared(LogitsOf(i, l), ValuesOf(i, l), ReadoutOf(i, l, base))
    && 0 <= c < |keeps| && Shaped(keeps[c], i.g) && InRange(keeps[c], l, i.g)
  }

  /** The candidates that can be scored at layer l. */
  ghost function Scorable(i: Inputs, l: nat, base: KeepSets, keeps: seq<KeepSets>, shared: Shared,
                          run: Run): int -> bool
  {
    c => CandidateReady(i, l, base, keeps, shared, run, c)
  }

  /** One representative. */
  method CandidateStep(i: Inputs, l: nat, ghost base: KeepSets, keeps: seq<KeepSets>, ghost rep: seq<nat>,
                       shared: Shared,
                       grids: seq<Cells>, visible: seq<set<nat>>, ghost run: Run, c: nat)
    returns (res: Option<AperturbError>, grids': seq<Cells>, visible': seq<set<nat>>)
    requires Scorable(i, l, base, keeps, shared, run)(c) && c < |rep| == |keeps| && rep[c] == c
    requires grids == GridsAt(keeps, rep, run, i.g, l, c) && visible == MasksAt(keeps, rep, run, l, c)
    ensures res == run.fault(l, keeps[c])
    ensures res.None? ==>
      grids' == GridsAt(keeps, rep, run, i.g, l, c + 1) && visible' == MasksAt(keeps, rep, run, l, c + 1)
  {
    assert CandidateReady(i, l, base, keeps, shared, run, c);
    var seen, cells;
    res, seen, cells := CandidatePass(i, l, base, keeps[c], shared.z, shared.vb, shared.wBase, grids[c], run);
    grids', visible' := grids[c := cells], visible[c := visible[c] * seen];
    if res.None? { StateStep(keeps, rep, run, i.g, l, c); }
  }

  /** Scoring candidate c changes its own entry and no other. */
  lemma {:induction false} StateStep(keeps: seq<KeepSets>, rep: seq<nat>, run: Run, g: Geom, l: nat, c: nat)
    requires c < |rep| == |keeps|
    ensures GridsAt(keeps, rep, run, g, l, c + 1)
         == GridsAt(keeps, rep, run, g, l, c)[c := CellsAfter(run, keeps[c], g, LayersBehind(rep, l, c + 1, c))]
    ensures MasksAt(keeps, rep, run, l, c + 1)
         == MasksAt(keeps, rep, run, l, c)[c := VisibleAfter(run, keeps[c], LayersBehind(rep, l, c + 1, c))]
  {
  }

  /** A duplicate passes where its representative did, and changes nothing. */
  lemma {:induction false} SkipDuplicate(keeps: seq<KeepSets>, rep: seq<nat>, run: Run, g: Geom, l: nat, c: nat)
    requires IsRep(keeps, rep) && c < |rep| && rep[c] != c && PassedBefore(run, keeps, l, c)
    ensures PassedBefore(run, keeps, l, c + 1) && Reps(rep, c + 1) == Reps(rep, c)
    ensures GridsAt(keeps, rep, run, g, l, c + 1) == GridsAt(keeps, rep, run, g, l, c)
    ensures MasksAt(keeps, rep, run, l, c + 1) == MasksAt(keeps, rep, run, l, c)
  {
    assert RepAt(keeps, rep, c);
    DuplicatePasses(run, keeps, l, rep[c], c);
  }

  lemma {:induction false} NextLayer(keeps: seq<KeepSets>, rep: seq<nat>, run: Run, g: Geom, l: nat)
    requires |rep| == |keeps|
    ensures GridsAt(keeps, rep, run, g, l, |keeps|) == GridsAt(keeps, rep, run, g, l + 1, 0)
    ensures MasksAt(keeps, rep, run, l, |keeps|) == MasksAt(keeps, rep, run, l + 1, 0)
  {
  }

  /** The candidates of one layer, duplicates skipped: the first fault is that of a scan that skips none. */
  method CandidateLoop(i: Inputs, l: nat, ghost base: KeepSets, keeps: seq<KeepSets>, rep: seq<nat>, shared: Shared,
                       grids: seq<Cells>, visible: seq<set<nat>>, ghost run: Run)
    returns (res: Option<AperturbError>, grids': seq<Cells>, visible': seq<set<nat>>, ran: nat)
    requires forall c | 0 <= c < |keeps| :: Scorable(i, l, base, keeps, shared, run)(c)
    requires IsRep(keeps, rep) && grids == GridsAt(keeps, rep, run, i.g, l, 0)
      && visible == MasksAt(keeps, rep, run, l, 0)
    ensures res == FirstAt(run, keeps, l, 0)
    ensures res.None? ==>
      grids' == GridsAt(keeps, rep, run, i.g, l, |keeps|) && visible' == MasksAt(keeps, rep, run, l, |keeps|)
    ensures res.None? ==> ran == Reps(rep, |rep|)
  {
    grids', visible', ran := grids, visible, 0;
    for c := 0 to |keeps|
      invariant grids' == GridsAt(keeps, rep, run, i.g, l, c) && visible' == MasksAt(keeps, rep, run, l, c)
      invariant ran == Reps(rep, c) && PassedBefore(run, keeps, l, c)
    {
      if rep[c] != c {
        SkipDuplicate(keeps, rep, run, i.g, l, c);
      } else {
        var fault;
        fault, grids', visible' := CandidateStep(i, l, base, keeps, rep, shared, grids', visible', run, c);
        if fault.Some? {
          Resume(run, keeps, l, c);
          return fault, grids', visible', ran;
        }
        ran := ran + 1;
      }
    }
    Resume(run, keeps, l, |keeps|);
    return None, grids', visible', ran;
  }

  // ----- all layers

  /** The layers whose exported logits are borrowed. */
  function Borrowed(i: Inputs): seq<bool> {
    seq(|i.layers|, l requires 0 <= l < |i.layers| => i.UsesExport(l))
  }

  /** How many of the first n layers compute their logits rather than borrow them. */
  function Computed(borrowed: seq<bool>, n: nat): nat
    requires n <= |borrowed|
  {
    if n == 0 then 0 else Computed(borrowed, n - 1) + if borrowed[n - 1] then 0 else 1
  }

  type Progress = nat -> (seq<Cells>, seq<set<nat>>)

  /** Cells and visible rows of all candidates with l layers behind them. */
  ghost function After(keeps: seq<KeepSets>, rep: seq<nat>, run: Run, g: Geom): Progress
    requires |rep| == |keeps|
  {
    (l: nat) => (GridsAt(keeps, rep, run, g, l, 0), MasksAt(keeps, rep, run, l, 0))
  }

  /** What layer l is scored with, and where the candidates stand before and after it. */
  ghost predicate LayerReady(i: Inputs, base: KeepSets, keeps: seq<KeepSets>, rep: seq<nat>, run: Run,
                             borrowed: seq<bool>,
                             after: Progress, l: int)
  {
    && i.Valid() && i.g.rows > 0 && Shaped(base, i.g) && run == RunOf(i, base)
    && 0 <= l < i.g.nLayers && InRange(base, l, i.g)
    && IsRep(keeps, rep) && borrowed == Borrowed(i) && after == After(keeps, rep, run, i.g)
    && forall c | 0 <= c < |keeps| :: Shaped(keeps[c], i.g) && InRange(keeps[c], l, i.g)
  }

  ghost function Runnable(i: Inputs, base: KeepSets, keeps: seq<KeepSets>, rep: seq<nat>, run: Run, borrowed: seq<bool>,
                          after: Progress): int -> bool
  {
    l => LayerReady(i, base, keeps, rep, run, borrowed, after, l)
  }

  /** One layer: what it shares, then its candidates. */
  method LayerPass(i: Inputs, l: nat, base: KeepSets, keeps: seq<KeepSets>, rep: seq<nat>,
                   grids: seq<Cells>, visible: seq<set<nat>>, ghost run: Run, ghost borrowed: seq<bool>,
                   ghost after: Progress)
    returns (res: Option<AperturbError>, grids': seq<Cells>, visible': seq<set<nat>>, ran: nat, computed: nat)
    requires Runnable(i, base, keeps, rep, run, borrowed, after)(l)
    requires (grids, visible) == after(l)
    ensures res == if run.head(l).Some? then run.head(l) else FirstAt(run, keeps, l, 0)
    ensures res.None? ==> (grids', visible') == after(l + 1)
    ensures res.None? ==> ran == 1 + Reps(rep, |rep|)
    ensures l < |borrowed| && computed == if borrowed[l] then 0 else 1
  {
    assert LayerReady(i, base, keeps, rep, run, borrowed, after, l);
    grids', visible', ran, computed := grids, visible, 0, if i.UsesExport(l) then 0 else 1;
    var shared := LayerHead(i, l, base);
    if shared.Err? {
      return Some(shared.error), grids', visible', ran, computed;
    }
    forall c | 0 <= c < |keeps| ensures Scorable(i, l, base, keeps, shared.value, run)(c) {
      assert CandidateReady(i, l, base, keeps, shared.value, run, c);
    }
    res, grids', visible', ran := CandidateLoop(i, l, base, keeps, rep, shared.value, grids, visible, run);
    ran := ran + 1;
    NextLayer(keeps, rep, run, i.g, l);
  }

  /** All layers: the first fault of the run, or every representative's cells and visible rows. */
  method LayerLoop(i: Inputs, base: KeepSets, keeps: seq<KeepSets>, rep: seq<nat>,
                   grids: seq<Cells>, visible: seq<set<nat>>, ghost run: Run, ghost borrowed: seq<bool>,
                   ghost after: Progress)
    returns (res: Option<AperturbError>, grids': seq<Cells>, visible': seq<set<nat>>, attendN: nat, logitsN: nat)
    requires forall l | 0 <= l < i.g.nLayers :: Runnable(i, base, keeps, rep, run, borrowed, after)(l)
    requires (grids, visible) == after(0)
    requires i.g.nLayers <= |borrowed|
    ensures res == FirstFrom(run, keeps, i.g.nLayers, 0)
    ensures res.None? ==> (grids', visible') == after(i.g.nLayers)
    ensures res.None? ==>
      attendN == Times(i.g.nLayers, 1 + Reps(rep, |rep|)) && logitsN == Computed(borrowed, i.g.nLayers)
  {
    ghost var per := 1 + Reps(rep, |rep|);
    grids', visible', attendN, logitsN := grids, visible, 0, 0;
    for l := 0 to i.g.nLayers
      invariant (grids', visible') == after(l)
      invariant FirstFrom(run, keeps, i.g.nLayers, 0) == FirstFrom(run, keeps, i.g.nLayers, l)
      invariant attendN == Times(l, per) && logitsN == Computed(borrowed, l)
    {
      var fault, ran, computed;
      fault, grids', visible', ran, computed := LayerPass(i, l, base, keeps, rep, grids', visible', run, borrowed,
                                                          after);
      if fault.Some? {
        return fault, grids', visible', attendN, logitsN;
      }
      attendN := attendN + ran;
      logitsN := logitsN + computed;
    }
    return None, grids', visible', attendN, logitsN;
  }

  // ----- scores and the winner

  /** Candidate c has its own cells and visible rows, whoever computed them. */
  ghost predicate Finished(cells: Cells, visible: set<nat>, keep: KeepSets, run: Run, g: Geom) {
    cells == CellsAfter(run, keep, g, g.nLayers) && visible == VisibleAfter(run, keep, g.nLayers)
  }

  /** Hand each duplicate its representative's readout. */
  method ShareWithDuplicates(grids: seq<Cells>, visible: seq<set<nat>>, ghost keeps: seq<KeepSets>, rep: seq<nat>,
                             ghost run: Run, ghost g: Geom)
    returns (grids': seq<Cells>, visible': seq<set<nat>>)
    requires IsRep(keeps, rep) && grids == GridsAt(keeps, rep, run, g, g.nLayers, 0)
      && visible == MasksAt(keeps, rep, run, g.nLayers, 0)
    ensures |grids'| == |visible'| == |keeps|
    ensures forall c | 0 <= c < |keeps| :: Finished(grids'[c], visible'[c], keeps[c], run, g)
  {
    grids', visible' := grids, visible;
    for c := 0 to |rep|
      invariant |grids'| == |visible'| == |keeps|
      invariant forall a | 0 <= a < c :: Finished(grids'[a], visible'[a], keeps[a], run, g)
      invariant forall a | c <= a < |keeps| :: grids'[a] == grids[a] && visible'[a] == visible[a]
    {
      var p := rep[c];
      assert RepAt(keeps, rep, c);
      RepOfRep(keeps, rep, c);
      if p != c {
        visible' := visible'[c := visible'[p]];
        grids' := grids'[c := grids'[p]];
      }
    }
  }

  /** One candidate's entry, from its finished cells. */
  method ScoreOne(i: Inputs, name: string, keep: KeepSets, cells: Cells, visible: set<nat>, cfg: Config, ghost run: Run)
    returns (res: Option<Scored>)
    requires i.Valid() && i.g.rows <= 32 && Shaped(keep, i.g) && Finished(cells, visible, keep, run, i.g)
    ensures res.None? <==> VisibleCount(visible, i.g.rows) == 0
    ensures res.Some? ==> res.value == ScoredAlone(i, run, name, keep, cfg)
  {
    var grid := new CellGrid.Resume(i.g.nLayers, i.g.rows, cells.l2, cells.dcos);
    var r := Aggregate(i.sqrt, grid, visible);
    if r.Err? {
      return None;
    }
    CellsAreRun(i, keep, cells, visible, run);
    return Some(Scored(name, r.value, visible, IsRagged(keep), if cfg.keepCells then Some(cells) else None));
  }

  lemma {:induction false} CellsAreRun(i: Inputs, keep: KeepSets, cells: Cells, visible: set<nat>, run: Run)
    requires cells == CellsAfter(run, keep, i.g, i.g.nLayers)
    ensures Scores(i.sqrt, i.g.nLayers, i.g.rows, visible, CellsOf(cells.l2, i.g.rows), CellsOf(cells.dcos, i.g.rows))
         == Scores(i.sqrt, i.g.nLayers, i.g.rows, visible, L2Of(run, keep), DcosOf(run, keep))
    ensures cells.l2 == Table(i.g.nLayers, i.g.rows, L2Of(run, keep))
      && cells.dcos == Table(i.g.nLayers, i.g.rows, DcosOf(run, keep))
  {
    var (m, n) := (i.g.nLayers, i.g.rows);
    TableHolds(m, n, Below(m, L2Of(run, keep)));
    TableHolds(m, n, Below(m, DcosOf(run, keep)));
    TableIs(cells.l2, m, n, Below(m, L2Of(run, keep)), L2Of(run, keep));
    TableIs(cells.dcos, m, n, Below(m, DcosOf(run, keep)), DcosOf(run, keep));
    ScoresExt(i.sqrt, m, n, visible, CellsOf(cells.l2, n), CellsOf(cells.dcos, n), L2Of(run, keep), DcosOf(run, keep));
  }

  /** Candidate c is ready to be aggregated. */
  ghost predicate EntryReady(pool: seq<(string, KeepSets)>, grids: seq<Cells>, visible: seq<set<nat>>, run: Run,
                             g: Geom, c: int)
    requires 0 <= c < |pool| == |grids| == |visible|
  {
    Shaped(pool[c].1, g) && Finished(grids[c], visible[c], pool[c].1, run, g)
  }

  /** One of the entries, by its place in the pool. */
  method ScoreEntry(i: Inputs, pool: seq<(string, KeepSets)>, grids: seq<Cells>, visible: seq<set<nat>>, cfg: Config,
                    ghost run: Run, c: nat)
    returns (res: Option<Scored>)
    requires i.Valid() && i.g.rows <= 32 && c < |pool| == |grids| == |visible|
      && EntryReady(pool, grids, visible, run, i.g, c)
    ensures Shaped(pool[c].1, i.g) && KeepsOf(pool)[c] == pool[c].1
    ensures res.None? <==> VisibleCount(VisibleAfter(run, KeepsOf(pool)[c], i.g.nLayers), i.g.rows) == 0
    ensures res.Some? ==> res.value == ScoredAlone(i, run, pool[c].0, pool[c].1, cfg)
  {
    res := ScoreOne(i, pool[c].0, pool[c].1, grids[c], visible[c], cfg, run);
  }

  /** The entry of every candidate in pool order, or the error of a candidate no row sees. */
  method ScoreAll(i: Inputs, pool: seq<(string, KeepSets)>, grids: seq<Cells>, visible: seq<set<nat>>, cfg: Config,
                  ghost run: Run)
    returns (res: Result<seq<Scored>, AperturbError>)
    requires i.Valid() && i.g.rows <= 32 && |grids| == |visible| == |pool|
    requires forall c | 0 <= c < |pool| :: EntryReady(pool, grids, visible, run, i.g, c)
    ensures if SomeBlind(run, KeepsOf(pool), i.g) then res == Err(ReadoutFault(NoVisibleRows))
      else res.Ok? && |res.value| == |pool| && forall c | 0 <= c < |pool| ::
        EntryScored(i, pool, cfg, run, res.value, c)
  {
    var scored := [];
    for c := 0 to |pool|
      invariant |scored| == c && forall a | 0 <= a < c :: EntryScored(i, pool, cfg, run, scored, a)
      invariant forall a | 0 <= a < c :: VisibleCount(VisibleAfter(run, KeepsOf(pool)[a], i.g.nLayers), i.g.rows) > 0
    {
      var one := ScoreEntry(i, pool, grids, visible, cfg, run, c);
      if one.None? {
        return Err(ReadoutFault(NoVisibleRows));
      }
      ghost var before := scored;
      scored := scored + [one.value];
      forall a | 0 <= a < c
        ensures EntryScored(i, pool, cfg, run, scored, a)
      {
        assert EntryScored(i, pool, cfg, run, before, a);
      }
    }
    return Ok(scored);
  }

  /** Entry c is what scoring candidate c alone gives. */
  ghost predicate EntryScored(i: Inputs, pool: seq<(string, KeepSets)>, cfg: Config, run: Run, scored: seq<Scored>,
                              c: int)
    requires 0 <= c < |pool| && c < |scored| && i.g.nKvHeads > 0
  {
    Shaped(pool[c].1, i.g) && scored[c] == ScoredAlone(i, run, pool[c].0, pool[c].1, cfg)
  }

  /** The first index of the smallest score. */
  method PickWinner(scored: seq<Scored>, kind: Kind) returns (best: nat)
    requires |scored| > 0
    ensures IsWinner(scored, kind, best)
  {
    best := 0;
    for c := 0 to |scored|
      invariant best < |scored| && (best < c || best == 0)
      invariant forall a | 0 <= a < c :: scored[best].scores.Get(kind) <= scored[a].scores.Get(kind)
      invariant forall a | 0 <= a < best :: scored[best].scores.Get(kind) < scored[a].scores.Get(kind)
    {
      if scored[c].scores.Get(kind) < scored[best].scores.Get(kind) {
        best := c;
      }
    }
  }

  // ----- validation of the pool

  /** The candidate passes both checks. */
  ghost predicate Passes(keep: KeepSets, base: KeepSets, g: Geom)
    requires Shaped(base, g) && keep.WellFormed() && keep.nLayers == g.nLayers && keep.nKvHeads == g.nKvHeads
  {
    && keep.IsComplete()
    && (forall l, h | keep.HasHead(l, h) :: Usable(keep.Head(l, h), g.currentPos))
    && (forall l, h | keep.HasHead(l, h) :: HoleFault(keep.Head(l, h), base.Head(l, h), l, h) == None)
  }

  /** The candidate fails with e: the first failing check of `validate`, else of `validate_within`. */
  ghost predicate FailsWith(keep: KeepSets, base: KeepSets, g: Geom, e: KeepError)
    requires Shaped(base, g) && keep.WellFormed() && keep.nLayers == g.nLayers && keep.nKvHeads == g.nKvHeads
  {
    if !keep.IsComplete() then
      keep.nKvHeads > 0 && e == Order((|keep.off| - 1) / keep.nKvHeads, (|keep.off| - 1) % keep.nKvHeads)
    else
      || IsVerdict(keep, ListFaults(keep, g.currentPos), Err(e))
      || (IsVerdict(keep, ListFaults(keep, g.currentPos), Ok(())) && IsVerdict(keep, HoleFaults(keep, base), Err(e)))
  }

  ghost predicate PoolShaped(pool: seq<(string, KeepSets)>, g: Geom) {
    forall c | 0 <= c < |pool| ::
      pool[c].1.WellFormed() && pool[c].1.nLayers == g.nLayers && pool[c].1.nKvHeads == g.nKvHeads
  }

  method ValidateOne(keep: KeepSets, base: KeepSets, g: Geom) returns (r: Result<(), KeepError>)
    requires Shaped(base, g) && keep.WellFormed() && keep.nLayers == g.nLayers && keep.nKvHeads == g.nKvHeads
    ensures r.Ok? <==> Passes(keep, base, g)
    ensures r.Err? ==> FailsWith(keep, base, g, r.error)
  {
    r := Validate(keep, g.currentPos);
    if r.Ok? {
      r := ValidateWithin(keep, base);
      if r.Ok? {
        forall l, h | keep.HasHead(l, h) ensures HoleFault(keep.Head(l, h), base.Head(l, h), l, h) == None {
          assert HoleFaults(keep, base)(l, h) == None;
        }
      } else {
        ghost var l, h :| keep.HasHead(l, h) && IsFirstFault(keep, l, h, HoleFaults(keep, base), r.error);
        assert HoleFault(keep.Head(l, h), base.Head(l, h), l, h) == Some(r.error);
      }
    }
  }

  method ValidatePool(pool: seq<(string, KeepSets)>, base: KeepSets, g: Geom) returns (r: Result<(), KeepError>)
    requires Shaped(base, g) && PoolShaped(pool, g)
    ensures r.Ok? <==> forall c | 0 <= c < |pool| :: Passes(pool[c].1, base, g)
    ensures r.Err? ==> exists c :: FirstToFail(pool, base, g, c, r.error) && !Passes(pool[c].1, base, g)
  {
    for c := 0 to |pool|
      invariant forall c' | 0 <= c' < c :: Passes(pool[c'].1, base, g)
    {
      r := ValidateOne(pool[c].1, base, g);
      if r.Err? {
        assert FirstToFail(pool, base, g, c, r.error);
        return;
      }
    }
    return Ok(());
  }

  // ----- the decision

  /** The checks before any table is built. */
  function DegenerateFault(i: Inputs, pool: seq<(string, KeepSets)>): Option<AperturbError> {
    if |pool| == 0 then Some(Degenerate("the candidate pool is empty"))
    else if i.g.rows == 0 || i.g.rows > i.g.currentPos || i.g.rows > 32
    then Some(Degenerate("rows must be in 1..=32 and no larger than the resident token count"))
    else if i.basis.d != i.g.QDim() then Some(BasisShape(0, i.basis.d, i.g.QDim()))
    else None
  }

  ghost predicate AllPass(pool: seq<(string, KeepSets)>, base: KeepSets, g: Geom)
    requires Shaped(base, g) && PoolShaped(pool, g)
  {
    forall c | 0 <= c < |pool| :: Passes(pool[c].1, base, g)
  }

  ghost predicate FirstToFail(pool: seq<(string, KeepSets)>, base: KeepSets, g: Geom, c: int, e: KeepError)
    requires Shaped(base, g) && PoolShaped(pool, g)
  {
    0 <= c < |pool| && FailsWith(pool[c].1, base, g, e) && forall c' | 0 <= c' < c :: Passes(pool[c'].1, base, g)
  }

  /** What a decision over the resident table `base` must be. */
  ghost predicate IsDecision(i: Inputs, base: KeepSets, pool: seq<(string, KeepSets)>, cfg: Config,
                             r: Result<Decision, AperturbError>)
    requires i.Valid() && IsResident(base, i) && PoolShaped(pool, i.g)
  {
    if AllPass(pool, base, i.g) then IsUnfolded(i, RunOf(i, base), pool, cfg, r)
    else exists c, e :: FirstToFail(pool, base, i.g, c, e) && r == Err(KeepFault(e))
  }

  /** The representatives, scored; everything `decide` does once the pool is valid. */
  method ScorePool(i: Inputs, base: KeepSets, pool: seq<(string, KeepSets)>, cfg: Config)
    returns (r: Result<Decision, AperturbError>)
    requires i.Valid() && IsResident(base, i) && PoolShaped(pool, i.g) && AllPass(pool, base, i.g)
    requires |pool| > 0 && 0 < i.g.rows <= 32
    ensures IsUnfolded(i, RunOf(i, base), pool, cfg, r)
    ensures r.Ok? ==> Reported(i, KeepsOf(pool), r.value)
  {
    ghost var run := RunOf(i, base);
    var rep := Representatives(KeepsOf(pool));
    AllRunnable(i, base, pool, rep, run);
    var fault, grids, visible, attendN, logitsN := RunLayers(i, base, KeepsOf(pool), rep, run, Borrowed(i));
    if fault.Some? {
      return Err(fault.value);
    }
    var scored := Conclude(i, base, pool, rep, grids, visible, cfg, run);
    if scored.Err? {
      return Err(scored.error);
    }
    var d := Report(i, pool, cfg, rep, scored.value, attendN, logitsN, run);
    return Ok(d);
  }

  /** The winner and the counters, once every entry is there. */
  method Report(i: Inputs, pool: seq<(string, KeepSets)>, cfg: Config, rep: seq<nat>, scored: seq<Scored>, attendN: nat,
                logitsN: nat, ghost run: Run)
    returns (d: Decision)
    requires i.Valid() && |pool| > 0 && IsRep(KeepsOf(pool), rep)
    requires FirstFrom(run, KeepsOf(pool), i.g.nLayers, 0) == None && !SomeBlind(run, KeepsOf(pool), i.g)
    requires |scored| == |pool| && forall c | 0 <= c < |pool| :: EntryScored(i, pool, cfg, run, scored, c)
    requires attendN == i.g.nLayers * (1 + Reps(rep, |rep|)) && logitsN == Computed(Borrowed(i), i.g.nLayers)
    ensures forall c | 0 <= c < |pool| :: Shaped(pool[c].1, i.g)
    ensures IsUnfolded(i, run, pool, cfg, Ok(d)) && Reported(i, KeepsOf(pool), d)
  {
    var winner := PickWinner(scored, cfg.kind);
    RepsAndRepeats(KeepsOf(pool), rep, |rep|);
    d := Decision(scored, winner, attendN, |rep| - Reps(rep, |rep|), logitsN);
    Counted(i, KeepsOf(pool), rep, d);
    Assembled(i, run, pool, cfg, d);
  }

  lemma {:induction false} Counted(i: Inputs, keeps: seq<KeepSets>, rep: seq<nat>, d: Decision)
    requires i.Valid() && IsRep(keeps, rep) && Reps(rep, |rep|) <= |rep| && d.folded == |rep| - Reps(rep, |rep|)
    requires d.attendN == i.g.nLayers * (1 + Reps(rep, |rep|)) && d.logitsN == Computed(Borrowed(i), i.g.nLayers)
    ensures Reported(i, keeps, d)
  {
    RepsAndRepeats(keeps, rep, |rep|);
    assert 1 + |keeps| - d.folded == 1 + Reps(rep, |rep|);
  }

  /** The layers from a blank state. */
  method RunLayers(i: Inputs, base: KeepSets, keeps: seq<KeepSets>, rep: seq<nat>, ghost run: Run,
                   ghost borrowed: seq<bool>)
    returns (fault: Option<AperturbError>, grids: seq<Cells>, visible: seq<set<nat>>, attendN: nat, logitsN: nat)
    requires |rep| == |keeps| && i.g.nLayers <= |borrowed|
    requires forall l | 0 <= l < i.g.nLayers ::
      Runnable(i, base, keeps, rep, run, borrowed, After(keeps, rep, run, i.g))(l)
    ensures fault == FirstFrom(run, keeps, i.g.nLayers, 0)
    ensures fault.None? ==>
      grids == GridsAt(keeps, rep, run, i.g, i.g.nLayers, 0) && visible == MasksAt(keeps, rep, run, i.g.nLayers, 0)
    ensures fault.None? ==>
      attendN == i.g.nLayers * (1 + Reps(rep, |rep|)) && logitsN == Computed(borrowed, i.g.nLayers)
  {
    ghost var after := After(keeps, rep, run, i.g);
    BlankStands(i, keeps, rep, run);
    var blank := BlankState(i.g, |keeps|);
    fault, grids, visible, attendN, logitsN := LayerLoop(i, base, keeps, rep, blank.0, blank.1, run, borrowed, after);
    TimesIsProduct(i.g.nLayers, 1 + Reps(rep, |rep|));
  }

  /** Entries that are right one by one make a decision that is right. */
  lemma {:induction false} Assembled(i: Inputs, run: Run, pool: seq<(string, KeepSets)>, cfg: Config, d: Decision)
    requires i.g.nKvHeads > 0 && FirstFrom(run, KeepsOf(pool), i.g.nLayers, 0) == None
      && !SomeBlind(run, KeepsOf(pool), i.g)
    requires |d.scored| == |pool| && forall c | 0 <= c < |pool| :: EntryScored(i, pool, cfg, run, d.scored, c)
    requires IsWinner(d.scored, cfg.kind, d.winner)
    ensures forall c | 0 <= c < |pool| :: Shaped(pool[c].1, i.g)
    ensures IsUnfolded(i, run, pool, cfg, Ok(d))
  {
    forall c | 0 <= c < |pool|
      ensures Shaped(pool[c].1, i.g) && d.scored[c] == ScoredAlone(i, run, pool[c].0, pool[c].1, cfg)
    {
      assert EntryScored(i, pool, cfg, run, d.scored, c);
    }
  }

  method Conclude(i: Inputs, ghost base: KeepSets, pool: seq<(string, KeepSets)>, rep: seq<nat>, grids: seq<Cells>,
                  visible: seq<set<nat>>,
                  cfg: Config, ghost run: Run)
    returns (scored: Result<seq<Scored>, AperturbError>)
    requires i.Valid() && IsResident(base, i) && PoolShaped(pool, i.g) && AllPass(pool, base, i.g) && i.g.rows <= 32
    requires IsRep(KeepsOf(pool), rep)
    requires grids == GridsAt(KeepsOf(pool), rep, run, i.g, i.g.nLayers, 0)
      && visible == MasksAt(KeepsOf(pool), rep, run, i.g.nLayers, 0)
    ensures if SomeBlind(run, KeepsOf(pool), i.g) then scored == Err(ReadoutFault(NoVisibleRows))
      else scored.Ok? && |scored.value| == |pool| && forall c | 0 <= c < |pool| ::
        EntryScored(i, pool, cfg, run, scored.value, c)
  {
    var grids', visible' := ShareWithDuplicates(grids, visible, KeepsOf(pool), rep, run, i.g);
    PoolFinished(i, base, pool, grids', visible', run);
    scored := ScoreAll(i, pool, grids', visible', cfg, run);
  }

  /**
   * The counters of a decision: the candidates that repeat an earlier one, the readouts run, the logit blocks
   * computed.
   */
  ghost predicate Reported(i: Inputs, keeps: seq<KeepSets>, d: Decision)
    requires i.Valid()
  {
    && d.folded == Repeats(keeps, |keeps|) <= |keeps|
    && d.attendN == i.g.nLayers * (1 + |keeps| - d.folded)
    && d.logitsN == Computed(Borrowed(i), i.g.nLayers)
  }

  function BlankState(g: Geom, n: nat): (seq<Cells>, seq<set<nat>>) {
    var zeros := seq(g.nLayers * g.rows, _ => 0.0);
    (seq(n, _ => Cells(zeros, zeros)), seq(n, _ => Bits(32)))
  }

  /** Nothing scored yet. */
  lemma {:induction false} BlankStands(i: Inputs, keeps: seq<KeepSets>, rep: seq<nat>, run: Run)
    requires |rep| == |keeps|
    ensures var s := BlankState(i.g, |keeps|);
      s.0 == GridsAt(keeps, rep, run, i.g, 0, 0) && s.1 == MasksAt(keeps, rep, run, 0, 0)
  {
    var s := BlankState(i.g, |keeps|);
    forall a | 0 <= a < |keeps| ensures CellsAfter(run, keeps[a], i.g, 0) == s.0[a] { BlankCells(run, keeps[a], i.g); }
  }

  lemma {:induction false} BlankCells(run: Run, keep: KeepSets, g: Geom)
    ensures var zeros := seq(g.nLayers * g.rows, _ => 0.0); CellsAfter(run, keep, g, 0) == Cells(zeros, zeros)
  {
    var (m, n) := (g.nLayers, g.rows);
    var zeros := seq(m * n, _ => 0.0);
    forall l, t | 0 <= l < m && 0 <= t < n ensures 0 <= Ix(l, t, n) < |zeros| { IxBound(l, t, m, n); }
    var zero := (l: int, t: int) => 0.0;
    TableIs(zeros, m, n, zero, Below(0, L2Of(run, keep)));
    TableIs(zeros, m, n, zero, Below(0, DcosOf(run, keep)));
  }

  lemma {:induction false} AllRunnable(i: Inputs, base: KeepSets, pool: seq<(string, KeepSets)>, rep: seq<nat>,
                                       run: Run)
    requires i.Valid() && IsResident(base, i) && PoolShaped(pool, i.g) && AllPass(pool, base, i.g)
    requires i.g.rows > 0 && IsRep(KeepsOf(pool), rep) && run == RunOf(i, base)
    ensures forall l | 0 <= l < i.g.nLayers ::
      Runnable(i, base, KeepsOf(pool), rep, run, Borrowed(i), After(KeepsOf(pool), rep, run, i.g))(l)
  {
    forall l | 0 <= l < i.g.nLayers
      ensures Runnable(i, base, KeepsOf(pool), rep, run, Borrowed(i), After(KeepsOf(pool), rep, run, i.g))(l)
    {
      ResidentInRange(i, base, l);
      PoolInRange(i, base, pool, l);
      assert LayerReady(i, base, KeepsOf(pool), rep, run, Borrowed(i), After(KeepsOf(pool), rep, run, i.g), l);
    }
  }

  lemma {:induction false} ResidentInRange(i: Inputs, base: KeepSets, l: nat)
    requires IsResident(base, i) && l < i.g.nLayers
    ensures InRange(base, l, i.g)
  {
    forall h: nat | h < i.g.nKvHeads ensures ListInRange(base.Head(l, h), i.g.currentPos) {
      assert base.Head(l, h) == ResidentRange(l, h, i.g.currentPos, i.headStart);
    }
  }

  lemma {:induction false} PoolInRange(i: Inputs, base: KeepSets, pool: seq<(string, KeepSets)>, l: nat)
    requires Shaped(base, i.g) && PoolShaped(pool, i.g) && AllPass(pool, base, i.g) && l < i.g.nLayers
    ensures forall c | 0 <= c < |pool| :: Shaped(KeepsOf(pool)[c], i.g) && InRange(KeepsOf(pool)[c], l, i.g)
  {
    forall c | 0 <= c < |pool| ensures Shaped(KeepsOf(pool)[c], i.g) && InRange(KeepsOf(pool)[c], l, i.g) {
      assert Passes(pool[c].1, base, i.g);
      forall h: nat | h < i.g.nKvHeads ensures ListInRange(pool[c].1.Head(l, h), i.g.currentPos) {
        assert pool[c].1.HasHead(l, h);
      }
    }
  }

  lemma {:induction false} PoolFinished(i: Inputs, base: KeepSets, pool: seq<(string, KeepSets)>, grids: seq<Cells>,
                                        visible: seq<set<nat>>, run: Run)
    requires Shaped(base, i.g) && PoolShaped(pool, i.g) && AllPass(pool, base, i.g) && |grids| == |visible| == |pool|
    requires forall c | 0 <= c < |pool| :: Finished(grids[c], visible[c], KeepsOf(pool)[c], run, i.g)
    ensures forall c | 0 <= c < |pool| :: EntryReady(pool, grids, visible, run, i.g, c)
  {
    forall c | 0 <= c < |pool| ensures EntryReady(pool, grids, visible, run, i.g, c) {
      assert KeepsOf(pool)[c] == pool[c].1 && Passes(pool[c].1, base, i.g);
    }
  }

  /**
   * The checks, the resident table, the layers and the choice. Whatever the duplicates, the outcome
   * is that of scoring every candidate separately against what is resident, errors included; only
   * the counters show the fold.
   */
  method Decide(i: Inputs, pool: seq<(string, KeepSets)>, cfg: Config) returns (r: Result<Decision, AperturbError>)
    requires i.Valid() && PoolShaped(pool, i.g)
    ensures DegenerateFault(i, pool).Some? ==> r == Err(DegenerateFault(i, pool).value)
    ensures DegenerateFault(i, pool).None? ==> forall base | IsResident(base, i) :: IsDecision(i, base, pool, cfg, r)
    ensures r.Ok? ==> Reported(i, KeepsOf(pool), r.value)
  {
    var fault := DegenerateFault(i, pool);
    if fault.Some? {
      return Err(fault.value);
    }
    var identity := Resident(i.g.nLayers, i.g.nKvHeads, i.g.currentPos, i.headStart);
    forall base | IsResident(base, i) ensures base == identity { ResidentUnique(base, identity, i); }
    var valid := ValidatePool(pool, identity, i.g);
    if valid.Err? {
      return Err(KeepFault(valid.error));
    }
    r := ScorePool(i, identity, pool, cfg);
  }
}
