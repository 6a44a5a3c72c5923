/** What holds of every decision that returns scores. */
module DecideTheorems {
  import opened Layout
  import opened Keep
  import opened Logits
  import opened Kernel
  import opened Readout
  import opened DecideSpec
  import opened Decide
  import Algebra = JacobiAlgebra

  // ----- a decision without error met no fault anywhere

  lemma {:induction false} NoFaultAt(run: Run, pool: seq<KeepSets>, l: int, c: nat)
    requires FirstAt(run, pool, l, c) == None
    ensures forall c' | c <= c' < |pool| :: run.fault(l, pool[c']) == None
    decreases |pool| - c
  {
    if c < |pool| { NoFaultAt(run, pool, l, c + 1); }
  }

  lemma {:induction false} NoFaultFrom(run: Run, pool: seq<KeepSets>, n: nat, l: nat)
    requires FirstFrom(run, pool, n, l) == None
    ensures forall l' | l <= l' < n :: run.head(l') == None
    ensures forall l', c | l <= l' < n && 0 <= c < |pool| :: run.fault(l', pool[c]) == None
    decreases n - l
  {
    if l < n {
      NoFaultAt(run, pool, l, 0);
      NoFaultFrom(run, pool, n, l + 1);
    }
  }

  lemma {:induction false} NoRowFault(faults: nat -> Option<ReadoutError>, rows: nat, t: nat)
    requires FirstFault(faults, rows, t) == None
    ensures forall t': nat | t <= t' < rows :: faults(t') == None
    decreases rows - t
  {
    if t < rows { NoRowFault(faults, rows, t + 1); }
  }

  /** The rows a scored candidate is compared by have positive norms. */
  lemma {:induction false} RowsHaveNorm(i: Inputs, base: KeepSets, keep: KeepSets, l: nat, t: nat)
    requires i.Valid() && Shaped(base, i.g) && Shaped(keep, i.g) && l < i.g.nLayers && t < i.g.rows
    requires Algebra.IsRoot(i.sqrt) && CandidateFault(i, base, l, keep) == None
    ensures var (r, a, b) := (i.basis.rank, ReadoutRow(ReadoutOf(i, l, base), i.basis.rank, t),
                              ReadoutRow(ReadoutOf(i, l, keep), i.basis.rank, t));
      i.sqrt(Inner(r, a, a)) > 0.0 && i.sqrt(Inner(r, b, b)) > 0.0
  {
    var (r, wBase, wCand) := (i.basis.rank, ReadoutOf(i, l, base), ReadoutOf(i, l, keep));
    NoRowFault(RowFaults(i.sqrt, wBase, wCand, r, l), i.g.rows, 0);
    assert RowFaults(i.sqrt, wBase, wCand, r, l)(t) == None;
    assert RowFault(i.sqrt, wBase, wCand, r, l, t) == None;
    InnerNonNeg(r, ReadoutRow(wCand, r, t));
  }

  /** The cells of the run, spelled out. */
  lemma {:induction false} RunCells(i: Inputs, base: KeepSets, keep: KeepSets, l: nat, t: nat)
    requires i.Valid() && Shaped(base, i.g) && Shaped(keep, i.g) && l < i.g.nLayers
    ensures var (r, a, b) := (i.basis.rank, ReadoutRow(ReadoutOf(i, l, base), i.basis.rank, t),
                              ReadoutRow(ReadoutOf(i, l, keep), i.basis.rank, t));
      RunOf(i, base).l2(keep, l, t) == L2(i.sqrt, r, a, b) && RunOf(i, base).dcos(keep, l, t) == Dcos(i.sqrt, r, a, b)
  {
    var (r, wBase, wCand) := (i.basis.rank, ReadoutOf(i, l, base), ReadoutOf(i, l, keep));
    assert L2Rows(i.sqrt, wBase, wCand, r)(t) == L2(i.sqrt, r, ReadoutRow(wBase, r, t), ReadoutRow(wCand, r, t));
    assert DcosRows(i.sqrt, wBase, wCand, r)(t) == Dcos(i.sqrt, r, ReadoutRow(wBase, r, t), ReadoutRow(wCand, r, t));
  }

  // ----- the identity candidate

  /** Every cell of a candidate equal to the resident set is exactly zero. */
  lemma {:induction false} ResidentCellsAreZero(i: Inputs, base: KeepSets, l: nat, t: nat)
    requires i.Valid() && Shaped(base, i.g) && l < i.g.nLayers && t < i.g.rows
    requires Algebra.IsRoot(i.sqrt) && CandidateFault(i, base, l, base) == None
    ensures RunOf(i, base).l2(base, l, t) == 0.0 && RunOf(i, base).dcos(base, l, t) == 0.0
  {
    RunCells(i, base, base, l, t);
    RowsHaveNorm(i, base, base, l, t);
    SameRowIsZero(i.sqrt, i.basis.rank, ReadoutRow(ReadoutOf(i, l, base), i.basis.rank, t));
  }

  /** A candidate equal to the resident set scores exactly zero in all four readouts. */
  lemma {:induction false} ResidentCandidateScoresZero(i: Inputs, base: KeepSets, pool: seq<(string, KeepSets)>,
                                                       cfg: Config, d: Decision, c: nat)
    requires i.g.nLayers > 0
    requires i.Valid() && Algebra.IsRoot(i.sqrt) && IsResident(base, i) && c < |pool| && pool[c].1 == base
      && i.g.rows <= 32
    requires forall c' | 0 <= c' < |pool| :: Shaped(pool[c'].1, i.g)
    requires IsUnfolded(i, RunOf(i, base), pool, cfg, Ok(d))
    ensures var s := d.scored[c].scores; s.l2Mean == s.l2Rms == s.dcosMean == s.dcosRms == 0.0
  {
    var run := RunOf(i, base);
    NoFaultFrom(run, KeepsOf(pool), i.g.nLayers, 0);
    assert KeepsOf(pool)[c] == base;
    forall l, t | 0 <= l < i.g.nLayers && 0 <= t < i.g.rows
      ensures run.l2(base, l, t) == 0.0 && run.dcos(base, l, t) == 0.0
    {
      assert run.fault(l, KeepsOf(pool)[c]) == None;
      ResidentCellsAreZero(i, base, l, t);
    }
    var visible := VisibleAfter(run, base, i.g.nLayers);
    assert VisibleCount(visible, i.g.rows) > 0;
    var n := i.g.nLayers * VisibleCount(visible, i.g.rows);
    CellsCounted(i.g.nLayers, VisibleCount(visible, i.g.rows));
    ZeroCells(i.sqrt, i.g.nLayers, i.g.rows, visible, L2Of(run, base), n);
    ZeroCells(i.sqrt, i.g.nLayers, i.g.rows, visible, DcosOf(run, base), n);
    assert d.scored[c] == ScoredAlone(i, run, pool[c].0, pool[c].1, cfg);
  }

  // ----- the ranges of the scores

  lemma {:induction false} AngleCellsInRange(i: Inputs, base: KeepSets, keep: KeepSets, l: nat, t: nat)
    requires i.Valid() && Shaped(base, i.g) && Shaped(keep, i.g) && l < i.g.nLayers && t < i.g.rows
    requires Algebra.IsRoot(i.sqrt) && CandidateFault(i, base, l, keep) == None
    ensures 0.0 <= RunOf(i, base).dcos(keep, l, t) <= 2.0
  {
    RunCells(i, base, keep, l, t);
    RowsHaveNorm(i, base, keep, l, t);
    DcosInRange(i.sqrt, i.basis.rank, ReadoutRow(ReadoutOf(i, l, base), i.basis.rank, t),
                ReadoutRow(ReadoutOf(i, l, keep), i.basis.rank, t));
  }

  /** For every candidate of every decision: angles in [0, 2], and mean at most RMS in both values. */
  lemma {:induction false} ScoresInRange(i: Inputs, base: KeepSets, pool: seq<(string, KeepSets)>, cfg: Config,
                                         d: Decision, c: nat)
    requires i.g.nLayers > 0
    requires i.Valid() && Algebra.IsRoot(i.sqrt) && IsResident(base, i) && c < |pool| && i.g.rows <= 32
    requires forall c' | 0 <= c' < |pool| :: Shaped(pool[c'].1, i.g)
    requires IsUnfolded(i, RunOf(i, base), pool, cfg, Ok(d))
    ensures var s := d.scored[c].scores; s.l2Mean <= s.l2Rms && s.dcosMean <= s.dcosRms
    ensures forall l, t | 0 <= l < i.g.nLayers && 0 <= t < i.g.rows ::
      0.0 <= RunOf(i, base).dcos(pool[c].1, l, t) <= 2.0
  {
    var (run, keep) := (RunOf(i, base), pool[c].1);
    NoFaultFrom(run, KeepsOf(pool), i.g.nLayers, 0);
    assert KeepsOf(pool)[c] == keep;
    forall l, t | 0 <= l < i.g.nLayers && 0 <= t < i.g.rows ensures 0.0 <= run.dcos(keep, l, t) <= 2.0 {
      assert run.fault(l, KeepsOf(pool)[c]) == None;
      AngleCellsInRange(i, base, keep, l, t);
    }
    var visible := VisibleAfter(run, keep, i.g.nLayers);
    CellsCounted(i.g.nLayers, VisibleCount(visible, i.g.rows));
    MeanAtMostRms(i.sqrt, i.g.nLayers, i.g.rows, visible, L2Of(run, keep));
    MeanAtMostRms(i.sqrt, i.g.nLayers, i.g.rows, visible, DcosOf(run, keep));
    assert d.scored[c] == ScoredAlone(i, run, pool[c].0, pool[c].1, cfg);
  }

  // ----- what a scored candidate retains

  /** Some query head attends over KV head kv. */
  ghost predicate Attended(g: Geom, kv: nat)
    requires g.nKvHeads > 0
  {
    exists h: nat :: h < g.nHeadsQ && g.KvHead(h) == kv
  }

  /** When the query heads divide among the groups, every KV head is attended. */
  lemma {:induction false} DividingRatioAttendsAll(g: Geom, ratio: nat, kv: nat)
    requires g.nKvHeads > 0 && ratio > 0 && g.nHeadsQ == ratio * g.nKvHeads && kv < g.nKvHeads
    ensures Attended(g, kv)
  {
    ExactQuotient(ratio, g.nKvHeads);
    IxDecode(kv, 0, ratio);
    IxBound(kv, 0, g.nKvHeads, ratio);
    assert g.KvHead(kv * ratio) == kv;
  }

  /** The baseline's own readout is what rules out a head with nothing resident. */
  lemma {:induction false} ResidentIsNotEmpty(i: Inputs, base: KeepSets, l: nat, kv: nat)
    requires i.Valid() && IsResident(base, i) && l < i.g.nLayers && kv < i.g.nKvHeads && Attended(i.g, kv)
    requires HeadFault(i, base, l) == None
    ensures |base.Head(l, kv)| > 0 && i.headStart(l, kv) < i.g.currentPos
  {
    NoEmptyFault(base, l, i.g, 0);
    var h: nat :| h < i.g.nHeadsQ && i.g.KvHead(h) == kv;
    assert |base.Head(l, i.g.KvHead(h))| > 0;
    assert base.Head(l, kv) == ResidentRange(l, kv, i.g.currentPos, i.headStart);
  }

  /** If a decision returns scores, every list of every candidate lies in its head's resident range. */
  lemma {:induction false} CandidatesAreResident(i: Inputs, base: KeepSets, pool: seq<(string, KeepSets)>, cfg: Config,
                                                 d: Decision, c: nat, l: nat, kv: nat)
    requires i.Valid() && IsResident(base, i) && PoolShaped(pool, i.g) && IsDecision(i, base, pool, cfg, Ok(d))
    requires c < |pool| && l < i.g.nLayers && kv < i.g.nKvHeads && Attended(i.g, kv)
    ensures Shaped(pool[c].1, i.g)
    ensures forall j | 0 <= j < |pool[c].1.Head(l, kv)| ::
      i.headStart(l, kv) <= pool[c].1.Head(l, kv)[j] < i.g.currentPos
  {
    var (run, keep) := (RunOf(i, base), pool[c].1);
    assert Passes(keep, base, i.g);
    NoFaultFrom(run, KeepsOf(pool), i.g.nLayers, 0);
    assert run.head(l) == None;
    ResidentIsNotEmpty(i, base, l, kv);
    assert keep.HasHead(l, kv);
    WithinResident(keep.Head(l, kv), i.headStart(l, kv), i.g.currentPos, l, kv);
  }

  /** Every row counted for a candidate is non-blind in the baseline too. */
  lemma {:induction false} CountedRowsSeenByBaseline(i: Inputs, base: KeepSets, pool: seq<(string, KeepSets)>,
                                                     cfg: Config, d: Decision, c: nat, l: nat)
    requires i.Valid() && IsResident(base, i) && PoolShaped(pool, i.g) && IsDecision(i, base, pool, cfg, Ok(d))
    requires c < |pool| && l < i.g.nLayers && forall kv: nat | kv < i.g.nKvHeads :: Attended(i.g, kv)
    ensures d.scored[c].visibleRows <= SeenRows(l, base, i.g)
  {
    var (run, keep) := (RunOf(i, base), pool[c].1);
    assert Passes(keep, base, i.g);
    NoFaultFrom(run, KeepsOf(pool), i.g.nLayers, 0);
    assert run.head(l) == None;
    VisibleThroughLayer(run, keep, i.g.nLayers, l);
    assert d.scored[c] == ScoredAlone(i, run, pool[c].0, pool[c].1, cfg);
    forall h: nat | h < i.g.nKvHeads ensures |base.Head(l, h)| > 0 { ResidentIsNotEmpty(i, base, l, h); }
    SeenInBoth(keep, base, i.g, l);
    assert run.seen(l, keep) == SeenRows(l, keep, i.g);
  }

  /** Where every head of the baseline holds something, a row the candidate sees is one the baseline sees. */
  lemma {:induction false} SeenInBoth(keep: KeepSets, base: KeepSets, g: Geom, l: nat)
    requires Shaped(keep, g) && Shaped(base, g) && l < g.nLayers && Passes(keep, base, g)
    requires forall h: nat | h < g.nKvHeads :: |base.Head(l, h)| > 0
    ensures SeenRows(l, keep, g) <= SeenRows(l, base, g)
  {
    forall t: nat | t in SeenRows(l, keep, g) ensures SeesAll(l, base, g, t) {
      assert SeesAll(l, keep, g, t);
      var pos := RowPos(g.currentPos, g.rows, t);
      forall h: nat | h < g.nKvHeads ensures Prefix(base.Head(l, h), pos) > 0 {
        assert keep.HasHead(l, h);
        FirstPositionAdmitted(keep.Head(l, h), base.Head(l, h), l, h, pos);
      }
    }
  }

  /** A list that starts at or after the resident range admits nothing the range does not. */
  lemma {:induction false} FirstPositionAdmitted(list: seq<nat>, base: seq<nat>, l: nat, h: nat, pos: int)
    requires |base| > 0 && HoleFault(list, base, l, h) == None && Prefix(list, pos) > 0
    ensures Prefix(base, pos) > 0
  {
    assert base[0] <= list[0] <= pos;
  }

  lemma {:induction false} VisibleThroughLayer(run: Run, keep: KeepSets, n: nat, l: nat)
    requires l < n
    ensures VisibleAfter(run, keep, n) <= run.seen(l, keep)
  {
    if l < n - 1 { VisibleThroughLayer(run, keep, n - 1, l); }
  }
}
