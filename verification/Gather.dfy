/** What `attend_into` computes over a gathered cache, with the identity table and the same boundary. */
module Gather {
  import opened Layout
  import opened Keep
  import opened Logits
  import opened KernelSpec
  import opened Kernel

  /** One layer of a table that retains all of s' positions. */
  ghost predicate IsIdentity(k: KeepSets, layer: nat, s': nat, g: Geom) {
    && k.WellFormed() && k.IsComplete() && layer < k.nLayers && k.nKvHeads == g.nKvHeads
    && forall kv: nat | kv < g.nKvHeads :: k.Head(layer, kv) == Range(0, s')
  }

  /** The lists of one layer, by KV head. */
  ghost function ListsOf(keep: KeepSets, layer: nat): int -> seq<nat>
    requires keep.WellFormed() && keep.IsComplete() && layer < keep.nLayers
  {
    kv => if 0 <= kv < keep.nKvHeads then keep.Head(layer, kv) else []
  }

  /** s' slots hold every list of the layer. */
  ghost predicate HasRoom(keep: KeepSets, layer: nat, g: Geom, s': nat)
    requires keep.WellFormed() && keep.IsComplete() && layer < keep.nLayers && keep.nKvHeads == g.nKvHeads
  {
    forall kv: nat | kv < g.nKvHeads :: |keep.Head(layer, kv)| <= s'
  }

  /** The boundary of a keep-set indexes the identity table of any cache its lists fit in. */
  lemma {:induction false} IdentityIndexes(keep: KeepSets, ident: KeepSets, layer: nat, kp: KeyPos, g: Geom, s': nat)
    requires Indexable(keep, layer, kp, g) && IsIdentity(ident, layer, s', g) && HasRoom(keep, layer, g, s')
    ensures Indexable(ident, layer, kp, g.(currentPos := s'))
  {
    forall kv: nat | kv < g.nKvHeads ensures ListFits(ident.Head(layer, kv), kp, kv, g.(currentPos := s')) {
      assert ListFits(keep.Head(layer, kv), kp, kv, g);
    }
  }

  lemma ResizedIsGrouped(g: Geom, s': nat)
    requires g.Grouped()
    ensures g.(currentPos := s').Grouped() && forall h: nat :: g.(currentPos := s').KvHead(h) == g.KvHead(h)
  {
    var g' := g.(currentPos := s');
    assert forall h: nat :: g'.KvHead(h) == g.KvHead(h);
  }

  /** One row of one head. */
  lemma {:induction false} RowAdmitsTheSame(list: seq<nat>, kp: KeyPos, kv: nat, t: nat, g: Geom, s': nat)
    requires kp.WellFormed() && kv < kp.nKvHeads && kp.rows == g.rows && t < g.rows && ListFits(list, kp, kv, g)
    requires 0 < |list| <= s'
    ensures var cols := Admit(list, kp, kv, t);
      0 < |cols| <= |list| && cols == list[..|cols|] && Admit(Range(0, s'), kp, kv, t) == Range(0, |cols|)
  {
    assert kp.Admitted(kv, t) <= |list|;
    RangePrefix(s', |Admit(list, kp, kv, t)|);
  }

  /** The same boundary admits the same columns, as a prefix of the list and as a prefix of the slots. */
  lemma {:induction false} BoundaryAdmitsTheSame(keep: KeepSets, ident: KeepSets, layer: nat, kp: KeyPos, g: Geom,
                                                 g': Geom)
    requires g.Grouped() && g'.Grouped() && g' == g.(currentPos := g'.currentPos)
    requires Indexable(keep, layer, kp, g) && EmptyFault(keep, layer, g, 0) == None
    requires IsIdentity(ident, layer, g'.currentPos, g) && HasRoom(keep, layer, g, g'.currentPos)
    ensures Indexable(ident, layer, kp, g')
    ensures SameColumns(LayerCols(keep, layer, kp, g), LayerCols(ident, layer, kp, g'), g, g'.currentPos,
                        ListsOf(keep, layer))
  {
    IdentityIndexes(keep, ident, layer, kp, g, g'.currentPos);
    NoEmptyFault(keep, layer, g, 0);
    ResizedIsGrouped(g, g'.currentPos);
    forall h: nat, t: nat | h < g.nHeadsQ && t < g.rows
      ensures var (list, cols) := (ListsOf(keep, layer)(g.KvHead(h)), LayerCols(keep, layer, kp, g)(h, t));
        && 0 < |cols| <= |list| <= g'.currentPos && cols == list[..|cols|]
        && LayerCols(ident, layer, kp, g')(h, t) == Range(0, |cols|)
    {
      var kv := g.KvHead(h);
      assert ListFits(keep.Head(layer, kv), kp, kv, g) && g'.KvHead(h) == kv;
      RowAdmitsTheSame(keep.Head(layer, kv), kp, kv, t, g, g'.currentPos);
    }
  }

  lemma RangePrefix(s: nat, n: nat)
    requires n <= s
    ensures Range(0, s)[..n] == Range(0, n)
  {
  }

  /**
   * `attend_into` over the shared logits with a keep-set, and `attend_into` over the logits of the
   * gathered cache with the identity table and the same boundary, fill the same buffer: for every
   * keep-set with something in each attended head, its lists of one length or of many.
   */
  lemma {:induction false} GatheredAttentionAgrees(exp: real -> real, q: seq<real>, k: seq<real>, v: seq<real>,
                                                   k': seq<real>, v': seq<real>, z: seq<real>, z': seq<real>,
                                                   keep: KeepSets, ident: KeepSets, layer: nat, kp: KeyPos,
                                                   g: Geom, g': Geom, root: real, x: seq<real>, x': seq<real>)
    requires g.Grouped() && g'.Grouped() && g' == g.(currentPos := g'.currentPos) && root != 0.0
    requires Indexable(keep, layer, kp, g) && EmptyFault(keep, layer, g, 0) == None
      && HasRoom(keep, layer, g, g'.currentPos)
    requires IsIdentity(ident, layer, g'.currentPos, g) && Indexable(ident, layer, kp, g')
    requires IsGather(k', k, g, g'.currentPos, ListsOf(keep, layer))
      && IsGather(v', v, g, g'.currentPos, ListsOf(keep, layer))
    requires IsTable3(z, g.nHeadsQ, g.rows, g.currentPos, (h, t, p) => Logit(q, k, g, root, h, t, p))
    requires IsTable3(z', g.nHeadsQ, g.rows, g'.currentPos, (h, t, p) => Logit(q, k', g', root, h, t, p))
    requires IsTable3(x, g.rows, g.nHeadsQ, g.headDim,
                      (t, h, e) => AttendCell(exp, z, LayerCols(keep, layer, kp, g), v, g, t, h, e))
    requires IsTable3(x', g.rows, g.nHeadsQ, g.headDim,
                      (t, h, e) => AttendCell(exp, z', LayerCols(ident, layer, kp, g'), v', g', t, h, e))
    ensures x == x'
  {
    BoundaryAdmitsTheSame(keep, ident, layer, kp, g, g');
    AllAdmit(keep, layer, kp, g);
    GatherColumnsIsGatherCache(exp, q, k, v, k', v', z, z', LayerCols(keep, layer, kp, g),
                               LayerCols(ident, layer, kp, g'), g, g', root, ListsOf(keep, layer), x, x');
  }

  // ----- every choice of rows can be gathered

  function GatheredRow(cache: seq<real>, g: Geom, lists: int -> seq<nat>, kv: int, j: int): seq<real> {
    if 0 <= j < |lists(kv)| then CacheRow(cache, g, kv, lists(kv)[j]) else []
  }

  /** A cache of s' slots per KV head with the named rows in front and zeros behind. */
  function Gathered(cache: seq<real>, g: Geom, s': nat, lists: int -> seq<nat>): seq<real> {
    Table3(g.nKvHeads, s', g.headDim, (kv, j, e) => At(GatheredRow(cache, g, lists, kv, j), e))
  }

  lemma {:induction false} GatheredIsGather(cache: seq<real>, g: Geom, s': nat, lists: int -> seq<nat>)
    requires |cache| == g.nKvHeads * (g.currentPos * g.headDim)
    requires forall kv | 0 <= kv < g.nKvHeads :: |lists(kv)| <= s'
    requires forall kv, j | 0 <= kv < g.nKvHeads && 0 <= j < |lists(kv)| :: lists(kv)[j] < g.currentPos
    ensures IsGather(Gathered(cache, g, s', lists), cache, g, s', lists)
  {
    var (cache', g') := (Gathered(cache, g, s', lists), g.(currentPos := s'));
    var f := (kv: int, j: int, e: int) => At(GatheredRow(cache, g, lists, kv, j), e);
    Table3Holds(g.nKvHeads, s', g.headDim, f);
    forall kv, j | 0 <= kv < g.nKvHeads && 0 <= j < |lists(kv)|
      ensures CacheRow(cache', g', kv, j) == CacheRow(cache, g, kv, lists(kv)[j])
    {
      TableRow(cache', g.nKvHeads, s', g.headDim, f, kv, j);
      CacheRowFits(cache, g, kv, lists(kv)[j]);
    }
  }

  lemma CacheRowFits(cache: seq<real>, g: Geom, kv: nat, p: nat)
    requires |cache| == g.nKvHeads * (g.currentPos * g.headDim) && kv < g.nKvHeads && p < g.currentPos
    ensures |CacheRow(cache, g, kv, p)| == g.headDim
  {
    BlockFits(cache, kv, g.nKvHeads, g.currentPos * g.headDim);
    BlockFits(Block(cache, kv, g.currentPos * g.headDim), p, g.currentPos, g.headDim);
  }
}
