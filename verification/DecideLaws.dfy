/** What a decision returns, by positions and sums alone. */
module DecideLaws {
  import opened Keep
  import opened Logits
  import opened Readout
  import opened ReadoutLaws
  import opened DecideSpec
  import opened Decide
  import opened DecideTheorems
  import Algebra = JacobiAlgebra

  // ----- which columns a row reads

  /** The admitted columns: positions not after the row, and the first entry whatever it is. */
  lemma {:induction false} ColumnsRead(keep: KeepSets, l: nat, g: Geom, h: nat, t: nat)
    requires Shaped(keep, g) && g.Grouped() && l < g.nLayers && h < g.nHeadsQ && t < g.rows <= g.currentPos
    requires Usable(keep.Head(l, g.KvHead(h)), g.currentPos)
    ensures var (list, cols) := (keep.Head(l, g.KvHead(h)), KeepCols(keep, l, g)(h, t));
      && 0 < |cols| <= |list| && cols == list[..|cols|]
      && (forall j | 0 <= j < |list| :: j < |cols| <==> j == 0 || list[j] + g.rows <= g.currentPos + t)
      && (t == g.rows - 1 ==> cols == list)
  {
    var list := keep.Head(l, g.KvHead(h));
    forall j | 0 <= j < |list|
      ensures j < Prefix(list, RowPos(g.currentPos, g.rows, t)) <==> list[j] + g.rows <= g.currentPos + t
    {
      RowAdmits(list, g.currentPos, g.rows, t, j);
    }
    if t == g.rows - 1 { LastRowAdmitsAll(list, g.currentPos, g.rows); }
  }

  // ----- which rows count

  lemma {:induction false} VisibleIsAll(run: Run, keep: KeepSets, n: nat, t: nat)
    ensures t in VisibleAfter(run, keep, n) <==> t < 32 && forall l: nat | l < n :: t in run.seen(l, keep)
  {
    if n > 0 { VisibleIsAll(run, keep, n - 1, t); }
  }

  /** A row of the candidate stands at or after the first retained position of every head of layer l. */
  ghost predicate AfterFirst(keep: KeepSets, l: nat, g: Geom, t: nat)
    requires Shaped(keep, g) && l < g.nLayers
  {
    forall kv: nat | kv < g.nKvHeads :: |keep.Head(l, kv)| > 0 && keep.Head(l, kv)[0] + g.rows <= g.currentPos + t
  }

  lemma {:induction false} SeenIsAfterFirst(keep: KeepSets, l: nat, g: Geom, t: nat)
    requires Shaped(keep, g) && l < g.nLayers && g.rows <= g.currentPos
    requires forall kv: nat | kv < g.nKvHeads :: |keep.Head(l, kv)| > 0
    ensures t in SeenRows(l, keep, g) <==> t < g.rows && t < 32 && AfterFirst(keep, l, g, t)
  {
    forall kv: nat | kv < g.nKvHeads
      ensures Prefix(keep.Head(l, kv), RowPos(g.currentPos, g.rows, t)) > 0 <==>
        keep.Head(l, kv)[0] + g.rows <= g.currentPos + t
    {
      SeesFirst(keep.Head(l, kv), g.currentPos, g.rows, t);
    }
  }

  /** The rows counted for a candidate are exactly those that see something in every head of every layer. */
  lemma {:induction false} CountedRowsExactly(i: Inputs, base: KeepSets, pool: seq<(string, KeepSets)>, cfg: Config,
                                              d: Decision,
                                              c: nat, t: nat)
    requires i.Valid() && IsResident(base, i) && PoolShaped(pool, i.g) && IsDecision(i, base, pool, cfg, Ok(d))
    requires c < |pool| && Shaped(pool[c].1, i.g) && 0 < i.g.nLayers && i.g.rows <= i.g.currentPos && i.g.rows <= 32
    ensures c < |d.scored|
    ensures t in d.scored[c].visibleRows <==> t < i.g.rows && forall l: nat | l < i.g.nLayers ::
      AfterFirst(pool[c].1, l, i.g, t)
  {
    var (run, keep) := (RunOf(i, base), pool[c].1);
    assert Passes(keep, base, i.g);
    assert d.scored[c] == ScoredAlone(i, run, pool[c].0, keep, cfg);
    VisibleIsAll(run, keep, i.g.nLayers, t);
    forall l: nat | l < i.g.nLayers
      ensures t in run.seen(l, keep) <==> t < i.g.rows && AfterFirst(keep, l, i.g, t)
    {
      SeenAt(i, base, keep, l, t);
    }
    if t in d.scored[c].visibleRows { assert t in run.seen(0, keep); }
  }

  lemma {:induction false} SeenAt(i: Inputs, base: KeepSets, keep: KeepSets, l: nat, t: nat)
    requires i.Valid() && Shaped(base, i.g) && Shaped(keep, i.g) && Passes(keep, base, i.g) && l < i.g.nLayers
    requires i.g.rows <= i.g.currentPos && i.g.rows <= 32
    ensures t in RunOf(i, base).seen(l, keep) <==> t < i.g.rows && AfterFirst(keep, l, i.g, t)
  {
    forall kv: nat | kv < i.g.nKvHeads ensures |keep.Head(l, kv)| > 0 {
      assert keep.HasHead(l, kv);
      assert Usable(keep.Head(l, kv), i.g.currentPos);
    }
    SeenIsAfterFirst(keep, l, i.g, t);
    assert RunOf(i, base).seen(l, keep) == SeenRows(l, keep, i.g);
  }

  // ----- who wins

  /** What candidate c is compared by: the sum of the configured cells over its visible rows. */
  ghost function TotalOf(i: Inputs, base: KeepSets, keep: KeepSets, kind: Kind, visible: set<nat>): real
    requires i.Valid() && Shaped(base, i.g)
  {
    var run := RunOf(i, base);
    VisibleSum(i.g.nLayers, i.g.rows, visible, Summed(kind, L2Of(run, keep), DcosOf(run, keep)))
  }

  ghost function CellsOfRows(g: Geom, visible: set<nat>): nat {
    g.nLayers * |VisibleSet(visible, g.rows)|
  }

  lemma {:induction false} EntryScore(i: Inputs, base: KeepSets, pool: seq<(string, KeepSets)>, cfg: Config,
                                      d: Decision, c: nat)
    requires i.Valid() && IsResident(base, i) && PoolShaped(pool, i.g) && IsDecision(i, base, pool, cfg, Ok(d))
    requires Algebra.IsRoot(i.sqrt) && c < |pool| && 0 < i.g.nLayers && i.g.rows <= 32
    ensures c < |d.scored| && CellsOfRows(i.g, d.scored[c].visibleRows) > 0
    ensures IsScore(d.scored[c].scores.Get(cfg.kind), cfg.kind,
                    TotalOf(i, base, pool[c].1, cfg.kind, d.scored[c].visibleRows),
                    CellsOfRows(i.g, d.scored[c].visibleRows))
  {
    var (run, keep) := (RunOf(i, base), pool[c].1);
    assert Passes(keep, base, i.g);
    assert d.scored[c] == ScoredAlone(i, run, pool[c].0, keep, cfg);
    var visible := VisibleAfter(run, keep, i.g.nLayers);
    assert KeepsOf(pool)[c] == keep && VisibleCount(visible, i.g.rows) > 0;
    VisibleCountIs(visible, i.g.rows);
    ScoreOfKind(i.sqrt, i.g.nLayers, i.g.rows, visible, L2Of(run, keep), DcosOf(run, keep), cfg.kind);
  }

  /**
   * The winner of every decision: of the cells the configured kind sums, its average is the smallest, and
   * smaller than that of every candidate before it.
   */
  lemma {:induction false} WinnerBySums(i: Inputs, base: KeepSets, pool: seq<(string, KeepSets)>, cfg: Config,
                                        d: Decision, c: nat)
    requires i.Valid() && IsResident(base, i) && PoolShaped(pool, i.g) && IsDecision(i, base, pool, cfg, Ok(d))
    requires Algebra.IsRoot(i.sqrt) && c < |pool| && 0 < i.g.nLayers && i.g.rows <= 32
    ensures d.winner < |pool| == |d.scored|
    ensures var (w, best, other) := (d.winner, d.scored[d.winner].visibleRows, d.scored[c].visibleRows);
      AtMost(TotalOf(i, base, pool[w].1, cfg.kind, best), CellsOfRows(i.g, best),
             TotalOf(i, base, pool[c].1, cfg.kind, other), CellsOfRows(i.g, other), c < w)
  {
    assert IsUnfolded(i, RunOf(i, base), pool, cfg, Ok(d)) by { if !AllPass(pool, base, i.g) { assert false; } }
    var w := d.winner;
    EntryScore(i, base, pool, cfg, d, w);
    EntryScore(i, base, pool, cfg, d, c);
    assert IsWinner(d.scored, cfg.kind, w);
    ScoresCompare(d.scored[w].scores.Get(cfg.kind), d.scored[c].scores.Get(cfg.kind), cfg.kind,
                  TotalOf(i, base, pool[w].1, cfg.kind, d.scored[w].visibleRows),
                  CellsOfRows(i.g, d.scored[w].visibleRows),
                  TotalOf(i, base, pool[c].1, cfg.kind, d.scored[c].visibleRows),
                  CellsOfRows(i.g, d.scored[c].visibleRows), c < w);
  }

  /** Every cell that enters such a sum balances the readout rows of baseline and candidate. */
  lemma {:induction false} DecisionCellsBalance(i: Inputs, base: KeepSets, pool: seq<(string, KeepSets)>, cfg: Config,
                                                d: Decision,
                                                c: nat, l: nat, t: nat)
    requires i.Valid() && IsResident(base, i) && PoolShaped(pool, i.g) && IsDecision(i, base, pool, cfg, Ok(d))
    requires Algebra.IsRoot(i.sqrt) && c < |pool| && l < i.g.nLayers && t < i.g.rows && Shaped(pool[c].1, i.g)
    ensures var (run, keep, r) := (RunOf(i, base), pool[c].1, i.basis.rank);
      Balances(L2Of(run, keep)(l, t), DcosOf(run, keep)(l, t), r,
               RowCell(ReadoutOf(i, l, base), r, t), RowCell(ReadoutOf(i, l, keep), r, t))
  {
    var (run, keep) := (RunOf(i, base), pool[c].1);
    assert Passes(keep, base, i.g);
    NoFaultFrom(run, KeepsOf(pool), i.g.nLayers, 0);
    assert run.fault(l, KeepsOf(pool)[c]) == None;
    CellBalances(i, base, keep, l, t);
  }

  lemma {:induction false} CellBalances(i: Inputs, base: KeepSets, keep: KeepSets, l: nat, t: nat)
    requires i.Valid() && Shaped(base, i.g) && Shaped(keep, i.g) && l < i.g.nLayers && t < i.g.rows
    requires Algebra.IsRoot(i.sqrt) && CandidateFault(i, base, l, keep) == None
    ensures var (run, r) := (RunOf(i, base), i.basis.rank);
      Balances(L2Of(run, keep)(l, t), DcosOf(run, keep)(l, t), r,
               RowCell(ReadoutOf(i, l, base), r, t), RowCell(ReadoutOf(i, l, keep), r, t))
  {
    var (r, wBase, wCand) := (i.basis.rank, ReadoutOf(i, l, base), ReadoutOf(i, l, keep));
    NoRowFault(RowFaults(i.sqrt, wBase, wCand, r, l), i.g.rows, 0);
    assert RowFaults(i.sqrt, wBase, wCand, r, l)(t) == None;
    assert RowFault(i.sqrt, wBase, wCand, r, l, t) == None;
    CellsAreBalanced(i.sqrt, wBase, wCand, i.g.rows, r, l, t);
  }

  // ----- what is refused

  /** A decision is refused before anything is scored exactly for these reasons, the first that applies. */
  lemma {:induction false} RefusedExactly(i: Inputs, pool: seq<(string, KeepSets)>)
    ensures DegenerateFault(i, pool) == None <==>
      |pool| > 0 && 1 <= i.g.rows <= 32 && i.g.rows <= i.g.currentPos && i.basis.d == i.g.nHeadsQ * i.g.headDim
    ensures var d := i.g.nHeadsQ * i.g.headDim;
      pool != [] && 1 <= i.g.rows <= 32 && i.g.rows <= i.g.currentPos && i.basis.d != d ==>
        DegenerateFault(i, pool) == Some(BasisShape(0, i.basis.d, d))
  {
  }

  /** Nothing went wrong in the layers before l. */
  ghost predicate CleanBefore(run: Run, pool: seq<KeepSets>, l: int) {
    forall l' | 0 <= l' < l :: run.head(l') == None && forall c | 0 <= c < |pool| :: run.fault(l', pool[c]) == None
  }

  /** The fault of the candidate c of layer l, everyone before it having passed. */
  ghost predicate FirstCandidate(run: Run, pool: seq<KeepSets>, l: int, c: int, e: AperturbError) {
    0 <= c < |pool| && run.fault(l, pool[c]) == Some(e) && PassedBefore(run, pool, l, c)
  }

  lemma {:induction false} FirstAtIsFirst(run: Run, pool: seq<KeepSets>, l: int, c: nat) returns (at: nat)
    requires c <= |pool| && PassedBefore(run, pool, l, c) && FirstAt(run, pool, l, c).Some?
    ensures FirstCandidate(run, pool, l, at, FirstAt(run, pool, l, c).value)
    decreases |pool| - c
  {
    if run.fault(l, pool[c]).Some? {
      at := c;
    } else {
      at := FirstAtIsFirst(run, pool, l, c + 1);
    }
  }

  /** The error of a run is that of the first layer with a fault: its head's, or its first failing candidate's. */
  lemma {:induction false} FirstFaultIsFirst(run: Run, pool: seq<KeepSets>, n: nat, l: nat) returns (at: nat, c: int)
    requires l <= n && CleanBefore(run, pool, l) && FirstFrom(run, pool, n, l).Some?
    ensures l <= at < n && CleanBefore(run, pool, at)
    ensures var e := FirstFrom(run, pool, n, l).value;
      run.head(at) == Some(e) || (run.head(at) == None && FirstCandidate(run, pool, at, c, e))
    decreases n - l
  {
    if run.head(l).Some? {
      at, c := l, -1;
    } else if FirstAt(run, pool, l, 0).Some? {
      at := l;
      c := FirstAtIsFirst(run, pool, l, 0);
    } else {
      NoFaultAt(run, pool, l, 0);
      at, c := FirstFaultIsFirst(run, pool, n, l + 1);
    }
  }

  // ----- what the counters count

  /** The candidates whose keep-set an earlier one has. */
  ghost function Duplicates(keeps: seq<KeepSets>, n: nat): set<nat>
    requires n <= |keeps|
  {
    set c: nat | c < n && exists p: nat :: p < c && keeps[p] == keeps[c]
  }

  /** The layers without exported logits of the right length. */
  ghost function WithoutExport(i: Inputs, n: nat): set<nat>
    requires n <= |i.layers|
  {
    set l: nat | l < n && !(i.layers[l].logits.Some?
                            && |i.layers[l].logits.value| == i.g.nHeadsQ * (i.g.rows * i.g.currentPos))
  }

  lemma {:induction false} RepeatsAre(keeps: seq<KeepSets>, n: nat)
    requires n <= |keeps|
    ensures Repeats(keeps, n) == |Duplicates(keeps, n)|
  {
    if n > 0 {
      RepeatsAre(keeps, n - 1);
      var (before, now) := (Duplicates(keeps, n - 1), Duplicates(keeps, n));
      if exists p: nat :: p < n - 1 && keeps[p] == keeps[n - 1] {
        assert now == before + {n - 1};
      } else {
        assert now == before;
      }
    } else {
      assert Duplicates(keeps, n) == {};
    }
  }

  lemma {:induction false} ComputedAre(i: Inputs, n: nat)
    requires n <= |i.layers|
    ensures Computed(Borrowed(i), n) == |WithoutExport(i, n)|
  {
    if n > 0 {
      ComputedAre(i, n - 1);
      var (before, now) := (WithoutExport(i, n - 1), WithoutExport(i, n));
      if i.UsesExport(n - 1) { assert now == before; } else { assert now == before + {n - 1}; }
    } else {
      assert WithoutExport(i, n) == {};
    }
  }

  /** The counters of every decision, by counting. */
  lemma {:induction false} CountersExactly(i: Inputs, keeps: seq<KeepSets>, d: Decision)
    requires i.Valid() && Reported(i, keeps, d)
    ensures d.folded == |Duplicates(keeps, |keeps|)| && d.logitsN == |WithoutExport(i, i.g.nLayers)|
    ensures d.attendN == i.g.nLayers * (1 + |keeps| - d.folded)
  {
    RepeatsAre(keeps, |keeps|);
    ComputedAre(i, i.g.nLayers);
  }
}
