/** The scores of a decision, as attention computed again over a cache that holds the retained rows alone. */
module Recompute {
  import opened Layout
  import opened Keep
  import opened Logits
  import opened KernelSpec
  import opened Kernel
  import opened Readout
  import opened DecideSpec
  import opened Decide
  import opened DecideTheorems
  import opened Gather

  /** Every attended head retains something, and only cached positions. */
  ghost predicate Retains(keep: KeepSets, l: nat, g: Geom)
    requires Shaped(keep, g) && g.Grouped() && l < g.nLayers
  {
    forall h: nat | h < g.nHeadsQ :: ColumnsFit(keep.Head(l, g.KvHead(h)), g.currentPos)
  }

  lemma {:induction false} RetainedAdmits(keep: KeepSets, l: nat, g: Geom)
    requires Shaped(keep, g) && g.Grouped() && l < g.nLayers && Retains(keep, l, g)
    ensures Admits(KeepCols(keep, l, g), g)
  {
    forall h, t | 0 <= h < g.nHeadsQ && 0 <= t < g.rows ensures ColumnsFit(KeepCols(keep, l, g)(h, t), g.currentPos) {
      assert ColumnsFit(keep.Head(l, g.KvHead(h)), g.currentPos);
    }
  }

  // ----- attention, then projection

  /** The rows attention gives, [rows][query heads][head dimension]. */
  ghost function AttentionRows(exp: real -> real, z: seq<real>, cols: (int, int) -> seq<nat>, v: seq<real>,
                               g: Geom): seq<real>
    requires g.nKvHeads > 0
  {
    Table3(g.rows, g.nHeadsQ, g.headDim, (t, h, e) => AttendCell(exp, z, cols, v, g, t, h, e))
  }

  ghost function ProjectionRows(x: seq<real>, basis: seq<real>, d: nat, r: nat, rows: nat): seq<real> {
    Table(rows, r, (t, k) => ProjectCell(x, basis, d, r, t, k))
  }

  /** The readout a decision uses is the two-step one: attend, then project. */
  lemma {:induction false} ReadoutIsTwoStep(i: Inputs, base: KeepSets, l: nat, keep: KeepSets)
    requires i.Valid() && l < i.g.nLayers && Shaped(base, i.g) && Shaped(keep, i.g)
    requires HeadFault(i, base, l) == None && Retains(keep, l, i.g)
    ensures var x := AttentionRows(i.exp, LogitsOf(i, l), KeepCols(keep, l, i.g), i.layers[l].v, i.g);
      ReadoutOf(i, l, keep) == ProjectionRows(x, i.basis.layers[l], i.g.QDim(), i.basis.rank, i.g.rows)
  {
    var (g, r, basis, v, z) := (i.g, i.basis.rank, i.basis.layers[l], i.layers[l].v, LogitsOf(i, l));
    var (cols, vb) := (KeepCols(keep, l, g), ValuesOf(i, l));
    var x := AttentionRows(i.exp, z, cols, v, g);
    RetainedAdmits(keep, l, g);
    Table3Holds(g.nHeadsQ, g.currentPos, r, (h, p, k) => ValueCell(v, basis, g, r, h, p, k));
    Table3Holds(g.rows, g.nHeadsQ, g.headDim, (t, h, e) => AttendCell(i.exp, z, cols, v, g, t, h, e));
    TableHolds(g.rows, r, (t, k) => FusedCell(i.exp, z, cols, vb, g, r, t, k));
    TableHolds(g.rows, r, (t, k) => ProjectCell(x, basis, g.QDim(), r, t, k));
    FusedIsTwoStep(i.exp, z, cols, v, basis, vb, x, ReadoutOf(i, l, keep),
                   ProjectionRows(x, basis, g.QDim(), r, g.rows), g, r);
  }

  // ----- over the gathered cache

  /** As many of the first slots as cols admits columns. */
  function FirstSlots(cols: (int, int) -> seq<nat>): (int, int) -> seq<nat> {
    (h, t) => Range(0, |cols(h, t)|)
  }

  /** Attention and projection from the keys k' and the values v' of g'.currentPos slots, logits computed anew. */
  ghost function Recomputed(i: Inputs, l: nat, cols: (int, int) -> seq<nat>, k': seq<real>, v': seq<real>,
                            g': Geom): seq<real>
    requires i.Valid() && l < i.g.nLayers && g'.nKvHeads > 0
  {
    var z' := Table3(g'.nHeadsQ, g'.rows, g'.currentPos, (h, t, p) => Logit(i.layers[l].q, k', g', i.root, h, t, p));
    ProjectionRows(AttentionRows(i.exp, z', FirstSlots(cols), v', g'), i.basis.layers[l], g'.QDim(), i.basis.rank,
                   g'.rows)
  }

  /** k' and v' are layer l's cache with the rows of `keep` moved to the front of g'.currentPos slots. */
  ghost predicate Holds(i: Inputs, l: nat, keep: KeepSets, k': seq<real>, v': seq<real>, g': Geom)
    requires i.Valid() && l < i.g.nLayers && Shaped(keep, i.g)
  {
    && g' == i.g.(currentPos := g'.currentPos) && HasRoom(keep, l, i.g, g'.currentPos)
    && IsGather(k', i.layers[l].k, i.g, g'.currentPos, ListsOf(keep, l))
    && IsGather(v', i.layers[l].v, i.g, g'.currentPos, ListsOf(keep, l))
  }

  lemma {:induction false} KeepColsArePrefixes(keep: KeepSets, l: nat, g: Geom, s': nat)
    requires Shaped(keep, g) && g.Grouped() && l < g.nLayers && Retains(keep, l, g) && HasRoom(keep, l, g, s')
    ensures SameColumns(KeepCols(keep, l, g), FirstSlots(KeepCols(keep, l, g)), g, s', ListsOf(keep, l))
  {
    forall h: nat, t: nat | h < g.nHeadsQ && t < g.rows
      ensures var (list, cols) := (ListsOf(keep, l)(g.KvHead(h)), KeepCols(keep, l, g)(h, t));
        0 < |cols| <= |list| <= s' && cols == list[..|cols|]
    {
      assert ColumnsFit(keep.Head(l, g.KvHead(h)), g.currentPos);
    }
  }

  /** One layer of one keep-set: restricting the shared logits is attending over the retained rows alone. */
  lemma {:induction false} ReadoutIsRecomputed(i: Inputs, base: KeepSets, l: nat, keep: KeepSets, k': seq<real>,
                                               v': seq<real>, g': Geom)
    requires i.Valid() && l < i.g.nLayers && Shaped(base, i.g) && Shaped(keep, i.g) && !i.UsesExport(l)
    requires HeadFault(i, base, l) == None && Retains(keep, l, i.g) && Holds(i, l, keep, k', v', g')
    ensures ReadoutOf(i, l, keep) == Recomputed(i, l, KeepCols(keep, l, i.g), k', v', g')
  {
    var (g, q, k, v, z) := (i.g, i.layers[l].q, i.layers[l].k, i.layers[l].v, LogitsOf(i, l));
    var (cols, cols') := (KeepCols(keep, l, g), FirstSlots(KeepCols(keep, l, g)));
    var z' := Table3(g'.nHeadsQ, g'.rows, g'.currentPos, (h, t, p) => Logit(q, k', g', i.root, h, t, p));
    ReadoutIsTwoStep(i, base, l, keep);
    RetainedAdmits(keep, l, g);
    KeepColsArePrefixes(keep, l, g, g'.currentPos);
    Table3Holds(g.nHeadsQ, g.rows, g.currentPos, (h, t, p) => Logit(q, k, g, i.root, h, t, p));
    Table3Holds(g.nHeadsQ, g.rows, g'.currentPos, (h, t, p) => Logit(q, k', g', i.root, h, t, p));
    Table3Holds(g.rows, g.nHeadsQ, g.headDim, (t, h, e) => AttendCell(i.exp, z, cols, v, g, t, h, e));
    Table3Holds(g.rows, g.nHeadsQ, g.headDim, (t, h, e) => AttendCell(i.exp, z', cols', v', g', t, h, e));
    GatherColumnsIsGatherCache(i.exp, q, k, v, k', v', z, z', cols, cols', g, g', i.root, ListsOf(keep, l),
                               AttentionRows(i.exp, z, cols, v, g), AttentionRows(i.exp, z', cols', v', g'));
  }

  // ----- a whole decision

  lemma {:induction false} ResidentRetains(i: Inputs, base: KeepSets, l: nat)
    requires i.Valid() && IsResident(base, i) && l < i.g.nLayers && HeadFault(i, base, l) == None
    ensures Retains(base, l, i.g)
  {
    NoEmptyFault(base, l, i.g, 0);
    forall h: nat | h < i.g.nHeadsQ ensures ColumnsFit(base.Head(l, i.g.KvHead(h)), i.g.currentPos) {
      assert base.Head(l, i.g.KvHead(h)) == ResidentRange(l, i.g.KvHead(h), i.g.currentPos, i.headStart);
    }
  }

  lemma {:induction false} CandidateRetains(keep: KeepSets, base: KeepSets, l: nat, g: Geom)
    requires Shaped(keep, g) && Shaped(base, g) && g.Grouped() && l < g.nLayers && Passes(keep, base, g)
    ensures Retains(keep, l, g)
  {
    forall h: nat | h < g.nHeadsQ ensures ColumnsFit(keep.Head(l, g.KvHead(h)), g.currentPos) {
      assert keep.HasHead(l, g.KvHead(h));
      assert Usable(keep.Head(l, g.KvHead(h)), g.currentPos);
    }
  }

  /**
   * Every cell of every decision that returns scores compares two readouts recomputed from scratch: the
   * baseline's over a cache of the resident rows, the candidate's over a cache of its retained rows.
   */
  lemma {:induction false} CellsAreRecomputed(i: Inputs, base: KeepSets, pool: seq<(string, KeepSets)>, cfg: Config,
                                              d: Decision,
                                              c: nat, l: nat, t: nat, kb: seq<real>, vb: seq<real>, gb: Geom,
                                              kc: seq<real>, vc: seq<real>, gc: Geom)
    requires i.Valid() && IsResident(base, i) && PoolShaped(pool, i.g) && IsDecision(i, base, pool, cfg, Ok(d))
    requires c < |pool| && l < i.g.nLayers && t < i.g.rows && !i.UsesExport(l) && Shaped(pool[c].1, i.g)
    requires Holds(i, l, base, kb, vb, gb) && Holds(i, l, pool[c].1, kc, vc, gc)
    ensures var (r, keep) := (i.basis.rank, pool[c].1);
      var a := ReadoutRow(Recomputed(i, l, KeepCols(base, l, i.g), kb, vb, gb), r, t);
      var b := ReadoutRow(Recomputed(i, l, KeepCols(keep, l, i.g), kc, vc, gc), r, t);
      L2Of(RunOf(i, base), keep)(l, t) == L2(i.sqrt, r, a, b)
        && DcosOf(RunOf(i, base), keep)(l, t) == Dcos(i.sqrt, r, a, b)
  {
    var (run, keep) := (RunOf(i, base), pool[c].1);
    assert Passes(keep, base, i.g);
    NoFaultFrom(run, KeepsOf(pool), i.g.nLayers, 0);
    assert run.head(l) == None;
    ResidentRetains(i, base, l);
    CandidateRetains(keep, base, l, i.g);
    ReadoutIsRecomputed(i, base, l, base, kb, vb, gb);
    ReadoutIsRecomputed(i, base, l, keep, kc, vc, gc);
    RunCells(i, base, keep, l, t);
  }

  // ----- such caches exist

  /** Wherever the lengths pass and the lists name cached positions, enough slots hold the gathered rows. */
  lemma {:induction false} GatheredHolds(i: Inputs, base: KeepSets, l: nat, keep: KeepSets, s': nat)
    requires i.Valid() && l < i.g.nLayers && Shaped(base, i.g) && Shaped(keep, i.g) && !i.UsesExport(l)
    requires HeadFault(i, base, l) == None && HasRoom(keep, l, i.g, s')
    requires forall kv, j | 0 <= kv < i.g.nKvHeads && 0 <= j < |keep.Head(l, kv)| ::
      keep.Head(l, kv)[j] < i.g.currentPos
    ensures var lists := ListsOf(keep, l);
      Holds(i, l, keep, Gathered(i.layers[l].k, i.g, s', lists), Gathered(i.layers[l].v, i.g, s', lists),
            i.g.(currentPos := s'))
  {
    var lists := ListsOf(keep, l);
    GatheredIsGather(i.layers[l].k, i.g, s', lists);
    GatheredIsGather(i.layers[l].v, i.g, s', lists);
  }
}
