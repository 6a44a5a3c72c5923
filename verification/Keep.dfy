/** Tables of position lists, the checks a table must pass, and how far into each list a query row may look. */
module Keep {
  import opened Layout
  import opened Ordering

  datatype Result<+T, +E> = Ok(value: T) | Err(error: E)

  datatype KeepError =
    | Order(layer: nat, kvHead: nat)
    | NotAscending(layer: nat, kvHead: nat)
    | OutOfRange(layer: nat, kvHead: nat, pos: nat, currentPos: nat)
    | Empty(layer: nat, kvHead: nat)
    | Hole(layer: nat, kvHead: nat, pos: nat, start: nat)

  /** One list of positions per layer and KV head, concatenated: list i is idx[off[i]..off[i + 1]]. */
  datatype KeepSets = KeepSets(nLayers: nat, nKvHeads: nat, idx: seq<nat>, off: seq<nat>) {

    /** What every constructor establishes and `push` keeps. */
    ghost predicate WellFormed() {
      && |off| >= 1 && off[0] == 0 && off[|off| - 1] == |idx| && |off| - 1 <= nLayers * nKvHeads
      && forall i, j | 0 <= i <= j < |off| :: off[i] <= off[j] <= |idx|
    }

    predicate IsComplete() {
      |off| == nLayers * nKvHeads + 1
    }

    function ListAt(i: nat): seq<nat>
      requires WellFormed() && i + 1 < |off|
    {
      idx[off[i]..off[i + 1]]
    }

    /** The table as a list of lists. */
    ghost function Lists(): (r: seq<seq<nat>>)
      requires WellFormed()
      ensures |r| == |off| - 1
    {
      seq(|off| - 1, i requires 0 <= i < |off| - 1 => ListAt(i))
    }

    ghost predicate HasHead(layer: int, kvHead: int) {
      0 <= layer < nLayers && 0 <= kvHead < nKvHeads
    }

    /** The list stored for a layer and a KV head. */
    function Head(layer: nat, kvHead: nat): seq<nat>
      requires WellFormed() && IsComplete() && HasHead(layer, kvHead)
    {
      IxBound(layer, kvHead, nLayers, nKvHeads);
      ListAt(Ix(layer, kvHead, nKvHeads))
    }
  }

  /** The table under construction: `with_capacity`, then one `push` per (layer, kv_head). */
  class KeepBuilder {
    var sets: KeepSets

    constructor (nLayers: nat, nKvHeads: nat)
      ensures sets == KeepSets(nLayers, nKvHeads, [], [0]) && sets.WellFormed()
    {
      sets := KeepSets(nLayers, nKvHeads, [], [0]);
    }

    /** Append the next list; refused out of row-major order or past the end. */
    method Push(layer: nat, kvHead: nat, list: seq<nat>) returns (r: Result<(), KeepError>)
      requires sets.WellFormed()
      modifies this
      ensures sets.WellFormed()
      ensures sets.nLayers == old(sets.nLayers) && sets.nKvHeads == old(sets.nKvHeads)
      ensures r.Ok? <==> old(sets.HasHead(layer, kvHead)) && old(|sets.off|) - 1 == layer * old(sets.nKvHeads) + kvHead
      ensures r.Err? ==> r.error == Order(layer, kvHead) && sets == old(sets)
      ensures r.Ok? ==> sets.Lists() == old(sets.Lists()) + [list]
    {
      var want := |sets.off| - 1;
      if layer >= sets.nLayers || kvHead >= sets.nKvHeads || want != layer * sets.nKvHeads + kvHead {
        return Err(Order(layer, kvHead));
      }
      IxBound(layer, kvHead, sets.nLayers, sets.nKvHeads);
      ghost var before := sets;
      sets := sets.(idx := sets.idx + list, off := sets.off + [|sets.idx| + |list|]);
      Appended(before, sets, list);
      return Ok(());
    }
  }

  lemma Appended(k: KeepSets, k': KeepSets, list: seq<nat>)
    requires k.WellFormed() && |k.off| <= k.nLayers * k.nKvHeads
    requires k' == k.(idx := k.idx + list, off := k.off + [|k.idx| + |list|])
    ensures k'.WellFormed() && k'.Lists() == k.Lists() + [list]
  {
    assert k'.ListAt(|k.off| - 1) == list;
    assert forall i | 0 <= i < |k.off| - 1 :: k'.ListAt(i) == k.ListAt(i);
  }

  function Range(from: nat, to: nat): (r: seq<nat>)
    ensures |r| == if from < to then to - from else 0
    ensures forall i | 0 <= i < |r| :: r[i] == from + i
  {
    if from < to then seq(to - from, i requires 0 <= i => from + i) else []
  }

  function ResidentRange(l: nat, h: nat, currentPos: nat, start: (nat, nat) -> nat): seq<nat> {
    Range(Min(start(l, h), currentPos), currentPos)
  }

  /** One layer of `resident`: a list per kv_head, after the lists already there. */
  method ResidentLayer(before: KeepSets, l: nat, currentPos: nat, start: (nat, nat) -> nat) returns (s: KeepSets)
    requires before.WellFormed() && |before.off| - 1 + before.nKvHeads <= before.nLayers * before.nKvHeads
    ensures s.WellFormed() && s.nLayers == before.nLayers && s.nKvHeads == before.nKvHeads
    ensures s.Lists() == before.Lists() + seq(s.nKvHeads, h requires 0 <= h => ResidentRange(l, h, currentPos, start))
  {
    s := before;
    ghost var added: seq<seq<nat>> := [];
    for h := 0 to before.nKvHeads
      invariant s.WellFormed() && s.nLayers == before.nLayers && s.nKvHeads == before.nKvHeads
      invariant |added| == h && forall h' | 0 <= h' < h :: added[h'] == ResidentRange(l, h', currentPos, start)
      invariant s.Lists() == before.Lists() + added
    {
      var list := ResidentRange(l, h, currentPos, start);
      var next := s.(idx := s.idx + list, off := s.off + [|s.idx| + |list|]);
      Appended(s, next, list);
      s := next;
      added := added + [list];
    }
    assert added == seq(s.nKvHeads, h requires 0 <= h => ResidentRange(l, h, currentPos, start));
  }

  /** The table whose every list is the range from its head's clamped start to currentPos. */
  method Resident(nLayers: nat, nKvHeads: nat, currentPos: nat, start: (nat, nat) -> nat) returns (s: KeepSets)
    ensures s.WellFormed() && s.IsComplete() && s.nLayers == nLayers && s.nKvHeads == nKvHeads
    ensures forall l, h | 0 <= l < nLayers && 0 <= h < nKvHeads ::
      s.Head(l, h) == ResidentRange(l, h, currentPos, start)
  {
    s := KeepSets(nLayers, nKvHeads, [], [0]);
    assert nLayers * nKvHeads >= 0;
    for l := 0 to nLayers
      invariant s.WellFormed() && s.nLayers == nLayers && s.nKvHeads == nKvHeads
      invariant |s.Lists()| == l * nKvHeads
      invariant forall l', h | 0 <= l' < l && 0 <= h < nKvHeads :: ResidentList(s, l', h, currentPos, start)
    {
      NextRow(l, nLayers, nKvHeads);
      ghost var before := s;
      s := ResidentLayer(s, l, currentPos, start);
      assert (l + 1) * nKvHeads == l * nKvHeads + nKvHeads;
      forall l', h | 0 <= l' < l + 1 && 0 <= h < nKvHeads ensures ResidentList(s, l', h, currentPos, start) {
        if l' < l {
          assert ResidentList(before, l', h, currentPos, start);
        } else {
          assert s.Lists()[|before.Lists()| + h] == ResidentRange(l, h, currentPos, start);
        }
      }
    }
    forall l, h | 0 <= l < nLayers && 0 <= h < nKvHeads
      ensures s.Head(l, h) == ResidentRange(l, h, currentPos, start)
    {
      assert ResidentList(s, l, h, currentPos, start);
    }
  }

  ghost predicate ResidentList(s: KeepSets, l: nat, h: nat, currentPos: nat, start: (nat, nat) -> nat)
    requires s.WellFormed()
  {
    && 0 <= Ix(l, h, s.nKvHeads) < |s.Lists()|
    && s.Lists()[Ix(l, h, s.nKvHeads)] == ResidentRange(l, h, currentPos, start)
  }

  // ----- equality of tables is equality of the lists they hold

  lemma {:induction false} SamePrefix(k: KeepSets, k': KeepSets, n: nat)
    requires k.WellFormed() && k'.WellFormed() && |k.off| == |k'.off| && n < |k.off|
    requires forall i: nat | i + 1 < |k.off| :: k.ListAt(i) == k'.ListAt(i)
    ensures k.off[..n + 1] == k'.off[..n + 1] && k.idx[..k.off[n]] == k'.idx[..k.off[n]]
  {
    if n == 0 {
      assert k.off[..1] == [0] == k'.off[..1];
    } else {
      SamePrefix(k, k', n - 1);
      assert k.off[n - 1] == k.off[..n][n - 1] == k'.off[..n][n - 1] == k'.off[n - 1];
      var list := k.ListAt(n - 1);
      assert |list| == |k'.ListAt(n - 1)|;
      assert k.off[n] == k.off[n - 1] + |list| == k'.off[n];
      assert k.off[..n + 1] == k.off[..n] + [k.off[n]] && k'.off[..n + 1] == k'.off[..n] + [k'.off[n]];
      assert k.idx[..k.off[n]] == k.idx[..k.off[n - 1]] + list && k'.idx[..k.off[n]] == k'.idx[..k.off[n - 1]] + list;
    }
  }

  /** Tables of one shape are equal exactly when every (layer, kv_head) list is. */
  lemma EqualHeadsEqualTables(k: KeepSets, k': KeepSets)
    requires SameShape(k, k')
    ensures k == k' <==> forall l, h | k.HasHead(l, h) :: k.Head(l, h) == k'.Head(l, h)
  {
    if forall l, h | k.HasHead(l, h) :: k.Head(l, h) == k'.Head(l, h) {
      forall i: nat | i + 1 < |k.off| ensures k.ListAt(i) == k'.ListAt(i) {
        assert k.nKvHeads == 0 ==> k.nLayers * k.nKvHeads == 0;
        var l, h := IxCovers(i, k.nLayers, k.nKvHeads);
        assert k.Head(l, h) == k'.Head(l, h);
      }
      var n := |k.off| - 1;
      SamePrefix(k, k', n);
      assert k.off == k.off[..n + 1] && k'.off == k'.off[..n + 1];
      assert k.off[n] == k.off[..n + 1][n] == k'.off[..n + 1][n] == k'.off[n];
      assert k.idx == k.idx[..k.off[n]] && k'.idx == k'.idx[..k.off[n]];
    }
  }

  // ----- validation

  datatype Option<+T> = None | Some(value: T)

  predicate HasDescent(list: seq<nat>) {
    exists i | 0 <= i < |list| - 1 :: list[i] >= list[i + 1]
  }

  /** What is wrong with one list, by the priority the errors have. */
  function ListFault(list: seq<nat>, layer: nat, kvHead: nat, currentPos: nat): Option<KeepError> {
    if |list| == 0 then Some(Empty(layer, kvHead))
    else if list[|list| - 1] >= currentPos then Some(OutOfRange(layer, kvHead, list[|list| - 1], currentPos))
    else if HasDescent(list) then Some(NotAscending(layer, kvHead))
    else None
  }

  /** A list every scoring loop can index with. */
  ghost predicate Usable(list: seq<nat>, currentPos: nat) {
    |list| > 0 && Ascending(list) && forall i | 0 <= i < |list| :: list[i] < currentPos
  }

  lemma {:induction false} NoDescentAscends(list: seq<nat>)
    requires !HasDescent(list)
    ensures Ascending(list)
  {
    if |list| > 1 {
      var init := list[..|list| - 1];
      assert !HasDescent(init) by {
        forall i | 0 <= i < |init| - 1 ensures init[i] < init[i + 1] {
          assert list[i] < list[i + 1];
        }
      }
      NoDescentAscends(init);
      assert list[|list| - 2] < list[|list| - 1];
    }
  }

  lemma NoFaultIsUsable(list: seq<nat>, layer: nat, kvHead: nat, currentPos: nat)
    ensures ListFault(list, layer, kvHead, currentPos) == None <==> Usable(list, currentPos)
  {
    if !HasDescent(list) { NoDescentAscends(list); }
  }

  /** The check of (layer, kvHead) fails with e, and those before it in row-major order pass. */
  ghost predicate IsFirstFault(k: KeepSets, layer: nat, kvHead: nat, fault: (nat, nat) -> Option<KeepError>,
                               e: KeepError)
    requires k.HasHead(layer, kvHead)
  {
    && fault(layer, kvHead) == Some(e)
    && forall l, h | k.HasHead(l, h) && (l < layer || (l == layer && h < kvHead)) :: fault(l, h) == None
  }

  /** Ok exactly when no check fails, otherwise the error of the first one that does. */
  ghost predicate IsVerdict(k: KeepSets, fault: (nat, nat) -> Option<KeepError>, r: Result<(), KeepError>) {
    match r
    case Ok(_) => forall l, h | k.HasHead(l, h) :: fault(l, h) == None
    case Err(e) => exists l, h | k.HasHead(l, h) :: IsFirstFault(k, l, h, fault, e)
  }

  lemma VerdictUnique(k: KeepSets, fault: (nat, nat) -> Option<KeepError>, r: Result<(), KeepError>,
                      r': Result<(), KeepError>)
    requires IsVerdict(k, fault, r) && IsVerdict(k, fault, r')
    ensures r == r'
  {
    match (r, r')
    case (Ok(()), Ok(())) =>
    case (Err(e), Err(e')) =>
      var l, h :| k.HasHead(l, h) && IsFirstFault(k, l, h, fault, e);
      var l', h' :| k.HasHead(l', h') && IsFirstFault(k, l', h', fault, e');
    case _ =>
  }

  ghost function ListFaults(k: KeepSets, currentPos: nat): (nat, nat) -> Option<KeepError>
    requires k.WellFormed() && k.IsComplete()
  {
    (l, h) => if k.HasHead(l, h) then ListFault(k.Head(l, h), l, h, currentPos) else None
  }

  /** Completeness first, then list by list in row-major order; the verdict is that of the first list with a fault. */
  method Validate(k: KeepSets, currentPos: nat) returns (r: Result<(), KeepError>)
    requires k.WellFormed()
    ensures r.Ok? <==> k.IsComplete() && forall l, h | k.HasHead(l, h) :: Usable(k.Head(l, h), currentPos)
    ensures k.IsComplete() ==> IsVerdict(k, ListFaults(k, currentPos), r)
    ensures !k.IsComplete() ==>
      k.nKvHeads > 0 && r == Err(Order((|k.off| - 1) / k.nKvHeads, (|k.off| - 1) % k.nKvHeads))
  {
    if !k.IsComplete() {
      var want := |k.off| - 1;
      assert k.nKvHeads == 0 ==> k.nLayers * k.nKvHeads == 0;
      return Err(Order(want / k.nKvHeads, want % k.nKvHeads));
    }
    ghost var fault := ListFaults(k, currentPos);
    forall l, h | k.HasHead(l, h) ensures fault(l, h) == None <==> Usable(k.Head(l, h), currentPos) {
      NoFaultIsUsable(k.Head(l, h), l, h, currentPos);
    }
    for l := 0 to k.nLayers
      invariant forall l', h' | k.HasHead(l', h') && l' < l :: fault(l', h') == None
    {
      for h := 0 to k.nKvHeads
        invariant forall l', h' | k.HasHead(l', h') && (l' < l || (l' == l && h' < h)) :: fault(l', h') == None
      {
        var f := ListFault(k.Head(l, h), l, h, currentPos);
        if f.Some? {
          assert IsFirstFault(k, l, h, fault, f.value);
          return Err(f.value);
        }
      }
    }
    return Ok(());
  }

  function HeadOrZero(list: seq<nat>): nat {
    if |list| == 0 then 0 else list[0]
  }

  function HoleFault(list: seq<nat>, base: seq<nat>, l: nat, h: nat): Option<KeepError> {
    if |list| > 0 && list[0] < HeadOrZero(base) then Some(Hole(l, h, list[0], HeadOrZero(base))) else None
  }

  ghost predicate SameShape(k: KeepSets, base: KeepSets) {
    && k.WellFormed() && k.IsComplete() && base.WellFormed() && base.IsComplete()
    && k.nLayers == base.nLayers && k.nKvHeads == base.nKvHeads
  }

  ghost function HoleFaults(k: KeepSets, base: KeepSets): (nat, nat) -> Option<KeepError>
    requires SameShape(k, base)
  {
    (l, h) => if k.HasHead(l, h) then HoleFault(k.Head(l, h), base.Head(l, h), l, h) else None
  }

  /** No list starts below the first resident position of its head. */
  method ValidateWithin(k: KeepSets, base: KeepSets) returns (r: Result<(), KeepError>)
    requires SameShape(k, base)
    ensures IsVerdict(k, HoleFaults(k, base), r)
  {
    ghost var fault := HoleFaults(k, base);
    for l := 0 to k.nLayers
      invariant forall l', h' | k.HasHead(l', h') && l' < l :: fault(l', h') == None
    {
      for h := 0 to k.nKvHeads
        invariant forall l', h' | k.HasHead(l', h') && (l' < l || (l' == l && h' < h)) :: fault(l', h') == None
      {
        var f := HoleFault(k.Head(l, h), base.Head(l, h), l, h);
        if f.Some? {
          assert IsFirstFault(k, l, h, fault, f.value);
          return Err(f.value);
        }
      }
    }
    return Ok(());
  }

  /**
   * A usable list that passes the hole check lies inside its head's resident range, if and only
   * if the head holds anything at all: against an empty head the hole check compares with zero
   * and lets every list through.
   */
  lemma WithinResident(list: seq<nat>, start: nat, currentPos: nat, l: nat, h: nat)
    requires Usable(list, currentPos)
    ensures HoleFault(list, Range(Min(start, currentPos), currentPos), l, h) == None
        <==> start >= currentPos || forall i | 0 <= i < |list| :: start <= list[i] < currentPos
    ensures start >= currentPos ==> !forall i | 0 <= i < |list| :: start <= list[i] < currentPos
  {
    var base := Range(Min(start, currentPos), currentPos);
    if start < currentPos {
      assert base[0] == start;
    } else {
      assert list[0] < currentPos;
    }
  }

  /** Two heads of one layer have lists of unequal length. */
  predicate IsRagged(k: KeepSets)
    requires k.WellFormed() && k.IsComplete() && (k.nLayers == 0 || k.nKvHeads > 0)
  {
    exists l: nat, h: nat | l < k.nLayers && 1 <= h < k.nKvHeads :: |k.Head(l, h)| != |k.Head(l, 0)|
  }

  lemma NotRaggedIsUniform(k: KeepSets)
    requires k.WellFormed() && k.IsComplete() && (k.nLayers == 0 || k.nKvHeads > 0)
    ensures !IsRagged(k) <==>
      forall l, h, h' | k.HasHead(l, h) && k.HasHead(l, h') :: |k.Head(l, h)| == |k.Head(l, h')|
  {
    if !IsRagged(k) {
      forall l, h, h' | k.HasHead(l, h) && k.HasHead(l, h') ensures |k.Head(l, h)| == |k.Head(l, h')| {
        assert |k.Head(l, h)| == |k.Head(l, 0)|;
        assert |k.Head(l, h')| == |k.Head(l, 0)|;
      }
    }
  }

  // ----- the causal boundary

  /** j counts the longest prefix of the list at or below pos. */
  ghost predicate IsPrefix(list: seq<nat>, pos: int, j: int) {
    && 0 <= j <= |list| && (j < |list| ==> list[j] > pos)
    && forall i | 0 <= i < j :: list[i] <= pos
  }

  function Prefix(list: seq<nat>, pos: int): (j: nat)
    ensures IsPrefix(list, pos, j)
  {
    if |list| == 0 || list[0] > pos then 0
    else
      var j := Prefix(list[1..], pos);
      assert forall i | 1 <= i < j + 1 :: list[i] == list[1..][i - 1];
      j + 1
  }

  lemma PrefixUnique(list: seq<nat>, pos: int, j: int)
    requires IsPrefix(list, pos, j)
    ensures j == Prefix(list, pos)
  {
    assert IsPrefix(list, pos, Prefix(list, pos));
  }

  function Below(list: seq<nat>, pos: int): set<int> {
    set i | 0 <= i < |list| && list[i] <= pos
  }

  function Indices(n: nat): (s: set<int>)
    ensures |s| == n && forall i :: i in s <==> 0 <= i < n
  {
    if n == 0 then {} else Indices(n - 1) + {n - 1}
  }

  /** The first position beyond pos ends the prefix, and an ascending list holds no smaller one behind it. */
  lemma PrefixCounts(list: seq<nat>, pos: int)
    requires Ascending(list)
    ensures Prefix(list, pos) == |Below(list, pos)|
  {
    var j := Prefix(list, pos);
    forall i | 0 <= i < |list| ensures list[i] <= pos <==> i < j {
      if i > j { assert list[j] < list[i]; }
    }
    assert Below(list, pos) == Indices(j);
  }

  /** One layer's boundaries, row-major by KV head and row: the admitted prefix is one longer than the entry. */
  datatype KeyPos = KeyPos(kp: seq<int>, nKvHeads: nat, rows: nat) {

    ghost predicate WellFormed() {
      |kp| == nKvHeads * rows
    }

    function Get(kvHead: nat, row: nat): int
      requires WellFormed() && kvHead < nKvHeads && row < rows
    {
      IxBound(kvHead, row, nKvHeads, rows);
      kp[Ix(kvHead, row, rows)]
    }

    function Admitted(kvHead: nat, row: nat): nat
      requires WellFormed() && kvHead < nKvHeads && row < rows
    {
      if Get(kvHead, row) + 1 > 0 then Get(kvHead, row) + 1 else 0
    }

    predicate Sees(row: nat)
      requires WellFormed() && row < rows
    {
      forall h | 0 <= h < nKvHeads :: Get(h, row) >= 0
    }
  }

  /** Row t of the last `rows` positions of the sequence. */
  function RowPos(currentPos: nat, rows: nat, t: nat): nat {
    (if currentPos < rows then 0 else currentPos - rows) + t
  }

  /** What the boundary table means: it holds the prefix counts of the layer's lists, less one. */
  ghost predicate IsBoundary(k: KeepSets, layer: nat, currentPos: nat, rows: nat, b: KeyPos)
    requires k.WellFormed() && k.IsComplete() && layer < k.nLayers
  {
    && b.WellFormed() && b.nKvHeads == k.nKvHeads && b.rows == rows
    && forall h, t | 0 <= h < k.nKvHeads && 0 <= t < rows ::
         b.Get(h, t) == Prefix(k.Head(layer, h), RowPos(currentPos, rows, t)) - 1
  }

  /**
   * Which entries a row admits: row t of the last `rows` positions admits exactly the positions that are
   * not after it. With more rows than positions, row t stands at position t.
   */
  lemma RowAdmits(list: seq<nat>, currentPos: nat, rows: nat, t: nat, j: nat)
    requires Ascending(list) && j < |list|
    ensures j < Prefix(list, RowPos(currentPos, rows, t))
      <==> list[j] + rows <= (if rows <= currentPos then currentPos else rows) + t
  {
    var n := Prefix(list, RowPos(currentPos, rows, t));
    if j > n { assert list[n] < list[j]; }
  }

  /** The same of the boundary table, by flat index. */
  lemma BoundaryAdmits(k: KeepSets, layer: nat, currentPos: nat, rows: nat, b: KeyPos, h: nat, t: nat, j: nat)
    requires k.WellFormed() && k.IsComplete() && layer < k.nLayers && h < k.nKvHeads && t < rows <= currentPos
    requires IsBoundary(k, layer, currentPos, rows, b) && Ascending(k.Head(layer, h)) && j < |k.Head(layer, h)|
    ensures 0 <= h * rows + t < |b.kp| && (j <= b.kp[h * rows + t] <==> k.Head(layer, h)[j] + rows <= currentPos + t)
  {
    RowAdmits(k.Head(layer, h), currentPos, rows, t, j);
    IxBound(h, t, k.nKvHeads, rows);
    assert b.Get(h, t) == b.kp[Ix(h, t, rows)];
  }

  /** The last row admits every usable list whole. */
  lemma LastRowAdmitsAll(list: seq<nat>, currentPos: nat, rows: nat)
    requires Usable(list, currentPos) && 0 < rows <= currentPos
    ensures Prefix(list, RowPos(currentPos, rows, rows - 1)) == |list|
  {
    RowAdmits(list, currentPos, rows, rows - 1, |list| - 1);
  }

  /** A row sees something exactly when the first entry is not after it. */
  lemma SeesFirst(list: seq<nat>, currentPos: nat, rows: nat, t: nat)
    requires 0 < |list| && rows <= currentPos
    ensures Prefix(list, RowPos(currentPos, rows, t)) > 0 <==> list[0] + rows <= currentPos + t
  {
  }

  /** One head's merge: both sequences ascend, so the index j never moves back. */
  method MergeHead(list: seq<nat>, h: nat, n: nat, first: nat, rows: nat, kp: array<int>)
    requires h < n && kp.Length == n * rows
    modifies kp
    ensures forall t | 0 <= t < rows ::
      0 <= Ix(h, t, rows) < kp.Length && kp[Ix(h, t, rows)] == Prefix(list, first + t) - 1
    ensures forall x | 0 <= x < kp.Length && !(h * rows <= x < h * rows + rows) :: kp[x] == old(kp[x])
  {
    NextRow(-1, h, rows);
    NextRow(h, n, rows);
    var j := 0;
    for t := 0 to rows
      invariant 0 <= j <= |list| && forall i | 0 <= i < j :: list[i] <= first + t - 1
      invariant forall t' | 0 <= t' < t :: kp[Ix(h, t', rows)] == Prefix(list, first + t') - 1
      invariant forall x | 0 <= x < kp.Length && !(h * rows <= x < h * rows + rows) :: kp[x] == old(kp[x])
    {
      var pos := first + t;
      while j < |list| && list[j] <= pos
        invariant 0 <= j <= |list| && forall i | 0 <= i < j :: list[i] <= pos
      {
        j := j + 1;
      }
      PrefixUnique(list, pos, j);
      kp[Ix(h, t, rows)] := j - 1;
    }
  }

  method ForLayer(k: KeepSets, layer: nat, currentPos: nat, rows: nat) returns (b: KeyPos)
    requires k.WellFormed() && k.IsComplete() && layer < k.nLayers
    ensures IsBoundary(k, layer, currentPos, rows, b)
  {
    var n := k.nKvHeads;
    var first := RowPos(currentPos, rows, 0);
    var kp := new int[n * rows](_ => -1);
    for h := 0 to n
      invariant forall h', t | 0 <= h' < h && 0 <= t < rows ::
        0 <= Ix(h', t, rows) < kp.Length && kp[Ix(h', t, rows)] == Prefix(k.Head(layer, h'), first + t) - 1
    {
      label L:
      MergeHead(k.Head(layer, h), h, n, first, rows, kp);
      forall h', t | 0 <= h' < h && 0 <= t < rows ensures kp[Ix(h', t, rows)] == old@L(kp[Ix(h', t, rows)]) {
        NextRow(h', h, rows);
      }
    }
    b := KeyPos(kp[..], n, rows);
  }

  /** The visible rows of one layer as the set of bits of a 32-bit mask. */
  method VisibleRows(b: KeyPos) returns (m: set<nat>)
    requires b.WellFormed()
    ensures forall t :: t in m <==> 0 <= t < b.rows && t < 32 && b.Sees(t)
  {
    m := {};
    for t := 0 to Min(b.rows, 32)
      invariant forall t' :: t' in m <==> 0 <= t' < t && b.Sees(t')
    {
      if b.Sees(t) {
        m := m + {t};
      }
    }
  }

  /** The admitted columns of a usable list fit the list. */
  lemma AdmittedBounded(k: KeepSets, layer: nat, currentPos: nat, rows: nat, b: KeyPos, h: nat, t: nat)
    requires k.WellFormed() && k.IsComplete() && layer < k.nLayers && h < k.nKvHeads && t < rows
    requires IsBoundary(k, layer, currentPos, rows, b)
    ensures b.Admitted(h, t) == Prefix(k.Head(layer, h), RowPos(currentPos, rows, t)) <= |k.Head(layer, h)|
  {
  }

  /** A row a candidate counts is not blind in the baseline either. */
  lemma VisibleInBaseline(k: KeepSets, base: KeepSets, layer: nat, currentPos: nat, rows: nat, b: KeyPos, b0: KeyPos,
                          t: nat)
    requires SameShape(k, base) && layer < k.nLayers && t < rows
    requires IsBoundary(k, layer, currentPos, rows, b) && IsBoundary(base, layer, currentPos, rows, b0)
    requires forall h: nat | h < k.nKvHeads :: |base.Head(layer, h)| > 0 && |k.Head(layer, h)| > 0
    requires forall h: nat | h < k.nKvHeads :: HoleFault(k.Head(layer, h), base.Head(layer, h), layer, h) == None
    requires b.Sees(t)
    ensures b0.Sees(t)
  {
    var pos := RowPos(currentPos, rows, t);
    forall h: nat | h < k.nKvHeads ensures b0.Get(h, t) >= 0 {
      assert b.Get(h, t) >= 0;
      assert base.Head(layer, h)[0] <= k.Head(layer, h)[0] <= pos;
    }
  }
}
