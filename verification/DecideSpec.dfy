/** What a decision means: every candidate scored on its own, and the smallest score chosen. */
module DecideSpec {
  import opened Layout
  import opened Keep
  import opened Softmax
  import opened Logits
  import opened KernelSpec
  import opened Kernel
  import opened Readout

  /** One layer as the source of a decision hands it over; exported logits are optional. */
  datatype LayerData = LayerData(q: seq<real>, k: seq<real>, v: seq<real>, logits: Option<seq<real>>)

  /** One low-rank table per layer, [d][rank] row-major. */
  datatype OutputBasis = OutputBasis(layers: seq<seq<real>>, d: nat, rank: nat, frac: Option<real>) {
    ghost predicate WellFormed() {
      forall l | 0 <= l < |layers| :: |layers[l]| == d * rank
    }
  }

  datatype AperturbError =
    | KeepFault(keep: KeepError)
    | KernelFault(kernel: KernelError)
    | ReadoutFault(readout: ReadoutError)
    | BasisShape(layer: nat, got: nat, want: nat)
    | Degenerate(why: string)

  datatype Inputs = Inputs(exp: real -> real, sqrt: real -> real, root: real,
                           layers: seq<LayerData>, headStart: (nat, nat) -> nat, basis: OutputBasis, g: Geom)
  {
    /** What a caller owes: a geometry with groups, tables for every layer, and the two functions. */
    ghost predicate Valid() {
      && g.Grouped() && root > 0.0 && root * root == g.headDim as real && Positive(exp)
      && |layers| >= g.nLayers && |basis.layers| >= g.nLayers && basis.WellFormed() && basis.rank > 0
    }

    predicate UsesExport(l: nat)
      requires l < |layers|
    {
      layers[l].logits.Some? && |layers[l].logits.value| == g.nHeadsQ * (g.rows * g.currentPos)
    }
  }

  /** A complete table of the decision's shape. */
  ghost predicate Shaped(keep: KeepSets, g: Geom) {
    keep.WellFormed() && keep.IsComplete() && keep.nLayers == g.nLayers && keep.nKvHeads == g.nKvHeads
  }

  /** The table of what is resident. */
  ghost predicate IsResident(base: KeepSets, i: Inputs) {
    && Shaped(base, i.g)
    && forall l, h | 0 <= l < i.g.nLayers && 0 <= h < i.g.nKvHeads ::
         base.Head(l, h) == ResidentRange(l, h, i.g.currentPos, i.headStart)
  }

  lemma {:induction false} ResidentUnique(base: KeepSets, base': KeepSets, i: Inputs)
    requires IsResident(base, i) && IsResident(base', i)
    ensures base == base'
  {
    EqualHeadsEqualTables(base, base');
  }

  // ----- one layer

  ghost function LogitsOf(i: Inputs, l: nat): seq<real>
    requires i.Valid() && l < i.g.nLayers
  {
    if i.UsesExport(l) then i.layers[l].logits.value
    else Table3(i.g.nHeadsQ, i.g.rows, i.g.currentPos,
                (h, t, p) => Logit(i.layers[l].q, i.layers[l].k, i.g, i.root, h, t, p))
  }

  ghost function ValuesOf(i: Inputs, l: nat): seq<real>
    requires i.Valid() && l < i.g.nLayers
  {
    Table3(i.g.nHeadsQ, i.g.currentPos, i.basis.rank,
           (h, p, k) => ValueCell(i.layers[l].v, i.basis.layers[l], i.g, i.basis.rank, h, p, k))
  }

  /** The admitted prefix of a list, a blind row clamped to one column. */
  function ClampedPrefix(list: seq<nat>, pos: int): seq<nat> {
    var n := if Prefix(list, pos) < 1 then 1 else Prefix(list, pos);
    if n <= |list| then list[..n] else list
  }

  ghost function KeepCols(keep: KeepSets, l: nat, g: Geom): (int, int) -> seq<nat>
    requires Shaped(keep, g) && g.Grouped() && l < g.nLayers
  {
    (h, t) => if 0 <= h < g.nHeadsQ && 0 <= t < g.rows
      then ClampedPrefix(keep.Head(l, g.KvHead(h)), RowPos(g.currentPos, g.rows, t)) else []
  }

  /** The readout rows of a keep-set at one layer. */
  ghost function ReadoutOf(i: Inputs, l: nat, keep: KeepSets): seq<real>
    requires i.Valid() && l < i.g.nLayers && Shaped(keep, i.g)
  {
    Table(i.g.rows, i.basis.rank,
          (t, k) => FusedCell(i.exp, LogitsOf(i, l), KeepCols(keep, l, i.g), ValuesOf(i, l), i.g, i.basis.rank, t, k))
  }

  /** What stops a layer before any candidate is scored. */
  ghost function HeadFault(i: Inputs, base: KeepSets, l: nat): Option<AperturbError>
    requires i.Valid() && l < i.g.nLayers && Shaped(base, i.g)
  {
    var d := i.layers[l];
    var fault := OrElse(if i.UsesExport(l) then None
                        else LogitFault(d.q, d.k, i.g.nHeadsQ * (i.g.rows * i.g.currentPos), i.g),
                 OrElse(ProjectFault(d.v, i.basis.layers[l], i.g.nHeadsQ * (i.g.currentPos * i.basis.rank), i.g,
                                     i.basis.rank),
                        EmptyFault(base, l, i.g, 0)));
    if fault.Some? then Some(KernelFault(fault.value)) else None
  }

  /** What stops one candidate at one layer. */
  ghost function CandidateFault(i: Inputs, base: KeepSets, l: nat, keep: KeepSets): Option<AperturbError>
    requires i.Valid() && l < i.g.nLayers && Shaped(base, i.g) && Shaped(keep, i.g)
  {
    var empty := EmptyFault(keep, l, i.g, 0);
    var row := LayerFault(i.sqrt, ReadoutOf(i, l, base), ReadoutOf(i, l, keep), i.basis.rank, l, i.g.rows);
    if empty.Some? then Some(KernelFault(empty.value)) else if row.Some? then Some(ReadoutFault(row.value)) else None
  }

  /** The mask of one layer: rows with a non-empty admitted prefix in all its heads. */
  ghost function SeenRows(l: nat, keep: KeepSets, g: Geom): set<nat>
    requires Shaped(keep, g) && l < g.nLayers
  {
    set t: nat | t < g.rows && t < 32 && SeesAll(l, keep, g, t)
  }

  ghost predicate SeesAll(l: nat, keep: KeepSets, g: Geom, t: nat)
    requires Shaped(keep, g) && l < g.nLayers
  {
    forall h: nat | h < g.nKvHeads :: Prefix(keep.Head(l, h), RowPos(g.currentPos, g.rows, t)) > 0
  }

  // ----- a whole run, as functions of the layer and the keep-set alone

  datatype Run = Run(head: int -> Option<AperturbError>, fault: (int, KeepSets) -> Option<AperturbError>,
                     seen: (int, KeepSets) -> set<nat>, l2: (KeepSets, int, int) -> real,
                     dcos: (KeepSets, int, int) -> real)

  ghost function RunOf(i: Inputs, base: KeepSets): Run
    requires i.Valid() && Shaped(base, i.g)
  {
    Run(l => if 0 <= l < i.g.nLayers then HeadFault(i, base, l) else None,
        (l, keep) => if 0 <= l < i.g.nLayers && Shaped(keep, i.g) then CandidateFault(i, base, l, keep) else None,
        (l, keep) => if 0 <= l < i.g.nLayers && Shaped(keep, i.g) then SeenRows(l, keep, i.g) else {},
        (keep, l, t) => if 0 <= l < i.g.nLayers && Shaped(keep, i.g)
          then L2Rows(i.sqrt, ReadoutOf(i, l, base), ReadoutOf(i, l, keep), i.basis.rank)(t) else 0.0,
        (keep, l, t) => if 0 <= l < i.g.nLayers && Shaped(keep, i.g)
          then DcosRows(i.sqrt, ReadoutOf(i, l, base), ReadoutOf(i, l, keep), i.basis.rank)(t) else 0.0)
  }

  /** The first candidate fault of layer l, every candidate from c on being scored. */
  function FirstAt(run: Run, pool: seq<KeepSets>, l: int, c: nat): Option<AperturbError>
    decreases |pool| - c
  {
    if c >= |pool| then None else if run.fault(l, pool[c]).Some? then run.fault(l, pool[c])
      else FirstAt(run, pool, l, c + 1)
  }

  /** The first fault of the whole run, layer by layer. */
  function FirstFrom(run: Run, pool: seq<KeepSets>, n: nat, l: nat): Option<AperturbError>
    decreases n - l
  {
    if l >= n then None
    else if run.head(l).Some? then run.head(l)
    else if FirstAt(run, pool, l, 0).Some? then FirstAt(run, pool, l, 0)
    else FirstFrom(run, pool, n, l + 1)
  }

  function Bits(n: nat): (s: set<nat>)
    ensures forall t :: t in s <==> 0 <= t < n
  {
    if n == 0 then {} else Bits(n - 1) + {n - 1}
  }

  /** The rows visible through the first n layers. */
  function VisibleAfter(run: Run, keep: KeepSets, n: nat): set<nat> {
    if n == 0 then Bits(32) else VisibleAfter(run, keep, n - 1) * run.seen(n - 1, keep)
  }

  datatype Config = Config(kind: Kind, keepCells: bool)
  datatype Cells = Cells(l2: seq<real>, dcos: seq<real>)
  datatype Scored = Scored(name: string, scores: ReadoutSet, visibleRows: set<nat>, ragged: bool, cells: Option<Cells>)
  datatype Decision = Decision(scored: seq<Scored>, winner: nat, attendN: nat, folded: nat, logitsN: nat)

  function L2Of(run: Run, keep: KeepSets): (int, int) -> real {
    (l, t) => run.l2(keep, l, t)
  }

  function DcosOf(run: Run, keep: KeepSets): (int, int) -> real {
    (l, t) => run.dcos(keep, l, t)
  }

  /** One candidate's entry, from its own keep-set and nothing else. */
  ghost function ScoredAlone(i: Inputs, run: Run, name: string, keep: KeepSets, cfg: Config): Scored
    requires Shaped(keep, i.g) && i.g.nKvHeads > 0
  {
    var visible := VisibleAfter(run, keep, i.g.nLayers);
    Scored(name, Scores(i.sqrt, i.g.nLayers, i.g.rows, visible, L2Of(run, keep), DcosOf(run, keep)), visible,
           IsRagged(keep),
           if cfg.keepCells
           then Some(Cells(Table(i.g.nLayers, i.g.rows, L2Of(run, keep)),
                           Table(i.g.nLayers, i.g.rows, DcosOf(run, keep))))
           else None)
  }

  /** The earliest of the smallest scores. */
  ghost predicate IsWinner(scored: seq<Scored>, kind: Kind, w: nat) {
    && w < |scored|
    && (forall c | 0 <= c < |scored| :: scored[w].scores.Get(kind) <= scored[c].scores.Get(kind))
    && (forall c | 0 <= c < w :: scored[w].scores.Get(kind) < scored[c].scores.Get(kind))
  }

  lemma {:induction false} WinnerUnique(scored: seq<Scored>, kind: Kind, w: nat, w': nat)
    requires IsWinner(scored, kind, w) && IsWinner(scored, kind, w')
    ensures w == w'
  {
    assert scored[w].scores.Get(kind) <= scored[w'].scores.Get(kind) <= scored[w].scores.Get(kind);
  }

  function KeepsOf(pool: seq<(string, KeepSets)>): seq<KeepSets> {
    seq(|pool|, c requires 0 <= c < |pool| => pool[c].1)
  }

  /** Some candidate has no visible row. */
  ghost predicate SomeBlind(run: Run, keeps: seq<KeepSets>, g: Geom) {
    exists c | 0 <= c < |keeps| :: VisibleCount(VisibleAfter(run, keeps[c], g.nLayers), g.rows) == 0
  }

  /** The outcome of scoring every candidate of a valid pool separately. */
  ghost predicate IsUnfolded(i: Inputs, run: Run, pool: seq<(string, KeepSets)>, cfg: Config,
                             r: Result<Decision, AperturbError>)
    requires forall c | 0 <= c < |pool| :: Shaped(pool[c].1, i.g)
    requires i.g.nKvHeads > 0
  {
    match FirstFrom(run, KeepsOf(pool), i.g.nLayers, 0)
    case Some(e) => r == Err(e)
    case None =>
      if SomeBlind(run, KeepsOf(pool), i.g) then r == Err(ReadoutFault(NoVisibleRows))
      else
        && r.Ok? && |r.value.scored| == |pool|
        && (forall c | 0 <= c < |pool| :: r.value.scored[c] == ScoredAlone(i, run, pool[c].0, pool[c].1, cfg))
        && IsWinner(r.value.scored, cfg.kind, r.value.winner)
  }

  // ----- scanning without the duplicates finds the same fault

  ghost predicate PassedBefore(run: Run, pool: seq<KeepSets>, l: int, c: int) {
    forall c' | 0 <= c' < c && c' < |pool| :: run.fault(l, pool[c']) == None
  }

  /** As long as nothing has failed, the scan may be resumed where it stands. */
  lemma {:induction false} Resume(run: Run, pool: seq<KeepSets>, l: int, c: nat)
    requires c <= |pool| && PassedBefore(run, pool, l, c)
    ensures FirstAt(run, pool, l, 0) == FirstAt(run, pool, l, c)
  {
    if c > 0 {
      Resume(run, pool, l, c - 1);
    }
  }

  /** A candidate equal to an earlier one that passed adds no fault. */
  lemma {:induction false} DuplicatePasses(run: Run, pool: seq<KeepSets>, l: int, p: nat, c: nat)
    requires p < c < |pool| && pool[p] == pool[c] && PassedBefore(run, pool, l, c)
    ensures PassedBefore(run, pool, l, c + 1)
  {
    assert run.fault(l, pool[p]) == None;
  }
}
