/** The inductive invariant of the SpinPool protocol and its preservation by every action. */
module SpinPoolInvariant {
  import opened SpinPool

  /** Program order inside `steal_work`. */
  function StealRank(pc: StealPc): nat {
    match pc
    case Out => 0
    case LoadFn => 1
    case LoadCtx => 2
    case LoadTotal => 3
    case Claim => 4
    case RunChunk => 5
  }

  // ----- the inductive invariant

  predicate Working(pc: WorkerPc) {
    pc == Stealing || pc == Bump
  }

  predicate ShapeInv(s: State) {
    && WellSized(s) && s.n < STAMP_SPAN && s.sh.activeWorkers <= s.n
    && (s.main.pc == MainSteal <==> s.thieves[s.n].at != Out)
    && (forall i | 0 <= i < s.n :: s.workers[i].pc == Stealing <==> s.thieves[i].at != Out)
    && (s.sh.shutdown <==> InDrop(s.main.pc))
    && (!s.sh.shutdown ==> forall i | 0 <= i < s.n :: s.workers[i].pc != Exited)
  }

  /** The word carries the publish count modulo 2^48, and no `last_gen` is ahead of it. */
  predicate GenerationInv(s: State)
    requires WellSized(s)
  {
    && s.hist.published <= SEQ_LIMIT
    && (!InDrop(s.main.pc) ==>
      && s.sh.generation == (s.hist.published % SEQ_LIMIT) * STAMP_SPAN + Stamp(s)
      && Stamp(s) <= s.n && (s.hist.published == 0 ==> s.sh.generation == 0)
      && forall i | 0 <= i < s.n :: SeenWord(s, s.workers[i].lastGen))
  }

  /** A word some thread may have seen: the present one, the initial zero, or an earlier publish's. */
  predicate SeenWord(s: State, w: nat) {
    || w == s.sh.generation || w == 0
    || (w >= STAMP_SPAN && (s.hist.published < SEQ_LIMIT ==> w <= s.sh.generation))
  }

  predicate Idling(s: State)
    requires WellSized(s)
  {
    forall i | 0 <= i < s.n ::
      !Working(s.workers[i].pc) && (i < Stamp(s) ==> s.workers[i].lastGen == s.sh.generation)
  }

  predicate SetupInv(s: State)
    requires WellSized(s)
  {
    var (rank, m, sh) := (Rank(s.main.pc), s.main, s.sh);
    InSetup(m.pc) ==>
      && Idling(s) && s.hist.ran == multiset{}
      && (rank == 0 <==> m.items == [])
      && (rank <= 3 ==> sh.nextChunk >= sh.totalChunks)
      && (rank >= 2 ==> sh.workFn == m.items[0].fn)
      && (rank >= 3 ==> sh.workCtx == m.items[0].ctx)
      && (rank >= 4 ==> sh.totalChunks == m.items[0].chunks)
      && (rank >= 5 ==> sh.nextChunk == 0)
      && (rank >= 6 ==> sh.doneCount == 0)
      && (rank >= 7 ==> m.pub == sh.activeWorkers)
      && (rank == 8 ==> m.seqNo == sh.generation / STAMP_SPAN + 1)
      && (rank > 0 && !m.first ==> m.active == sh.activeWorkers)
  }

  /** What the item under way has published; constant while it runs. */
  predicate PublishedInv(s: State) {
    InLive(s.main.pc) ==>
      && s.main.items != [] && !s.main.first
      && s.sh.workFn == s.main.items[0].fn && s.sh.workCtx == s.main.items[0].ctx
      && s.sh.totalChunks == s.main.items[0].chunks
      && s.main.active == s.sh.activeWorkers == Stamp(s) <= s.n
      && (s.main.pc.Unpark? ==> s.main.pc.k <= s.main.active)
  }

  /** Who takes part, who is through, and what the done counter counts. */
  predicate ParticipationInv(s: State)
    requires WellSized(s)
  {
    InLive(s.main.pc) ==>
      && s.sh.doneCount == |s.hist.finishers|
      && (forall i | i in s.hist.finishers :: i < s.main.active && i < s.n)
      && (forall i | 0 <= i < s.n ::
            && (Working(s.workers[i].pc) ==> i < s.main.active && s.workers[i].lastGen == s.sh.generation)
            && (i in s.hist.finishers <==>
                  i < s.main.active && s.workers[i].lastGen == s.sh.generation && !Working(s.workers[i].pc)))
  }

  /** The claim counter: chunks handed out plus threads turned away. */
  predicate ClaimInv(s: State)
    requires WellSized(s)
  {
    InLive(s.main.pc) ==>
      && s.sh.nextChunk == |s.hist.holder| + |s.hist.overshot|
      && |s.hist.holder| <= s.sh.totalChunks
      && (s.hist.overshot != {} ==> |s.hist.holder| == s.sh.totalChunks)
      && (forall id | id in s.hist.overshot :: id < s.main.active || id == s.n)
      && (s.n in s.hist.overshot <==> s.main.pc == Wait)
      && (forall i | 0 <= i < s.n ::
            i in s.hist.overshot <==> s.workers[i].pc == Bump || i in s.hist.finishers)
  }

  /** Every claimed chunk is either still held by its claimant or has run exactly once. */
  predicate ExecutionInv(s: State)
    requires WellSized(s)
  {
    InLive(s.main.pc) ==>
      && (forall id | 0 <= id <= s.n :: RegistersMatch(s, s.thieves[id]))
      && (forall id | 0 <= id <= s.n && s.thieves[id].at == RunChunk ::
            s.thieves[id].chunk < |s.hist.holder| && s.hist.holder[s.thieves[id].chunk] == id)
      && (forall c | 0 <= c < |s.hist.holder| :: s.hist.holder[c] <= s.n &&
            s.hist.ran[Ran(s.sh.workFn, s.sh.workCtx, c)] == if Holds(s, s.hist.holder[c], c) then 0 else 1)
      && (forall r | r in s.hist.ran ::
            r.fn == s.sh.workFn && r.ctx == s.sh.workCtx && r.chunk < |s.hist.holder|)
  }

  predicate RegistersMatch(s: State, t: Thief) {
    && (StealRank(t.at) >= 2 ==> t.fn == s.sh.workFn)
    && (StealRank(t.at) >= 3 ==> t.ctx == s.sh.workCtx)
    && (StealRank(t.at) >= 4 ==> t.total == s.sh.totalChunks)
  }

  predicate Holds(s: State, id: nat, c: nat)
    requires WellSized(s) && id <= s.n
  {
    s.thieves[id].at == RunChunk && s.thieves[id].chunk == c
  }

  /** A worker that has not seen the generation is on its way to it, holds a token, or will get one. */
  predicate WakeInv(s: State)
    requires WellSized(s)
  {
    InLive(s.main.pc) ==>
      forall i | 0 <= i < s.n && i < s.main.active ::
        || s.workers[i].lastGen == s.sh.generation
        || s.workers[i].token
        || s.workers[i].pc == CheckShutdown || s.workers[i].pc == LoadGen
        || (s.main.pc.Unpark? && s.main.pc.k <= i)
  }

  predicate DropInv(s: State)
    requires WellSized(s)
  {
    InDrop(s.main.pc) ==>
      && s.sh.nextChunk >= s.sh.totalChunks && s.hist.ran == multiset{}
      && (forall i | 0 <= i < s.n ::
            && s.thieves[i].at != RunChunk
            && (s.thieves[i].at == Claim ==> s.thieves[i].total == s.sh.totalChunks)
            && (DropWoken(s, i) ==>
                  s.workers[i].token || s.workers[i].pc == CheckShutdown || s.workers[i].pc == Exited)
            && (Joined(s, i) ==> s.workers[i].pc == Exited))
  }

  predicate DropWoken(s: State, i: nat) {
    (s.main.pc.DropUnpark? && i < s.main.pc.k) || s.main.pc.Join? || s.main.pc == Dropped
  }

  predicate Joined(s: State, i: nat) {
    (s.main.pc.Join? && i < s.main.pc.k) || s.main.pc == Dropped
  }

  /** `ran` is each chunk of `item`, once, with the item's own function and context; nothing else. */
  ghost predicate ExactlyOnce(item: Item, ran: multiset<Ran>) {
    forall r: Ran ::
      ran[r] == if r.fn == item.fn && r.ctx == item.ctx && r.chunk < item.chunks then 1 else 0
  }

  ghost predicate HistoryInv(s: State) {
    forall j | 0 <= j < |s.hist.finished| ::
      ExactlyOnce(s.hist.finished[j].item, s.hist.finished[j].ran)
  }

  ghost predicate Inv(s: State) {
    && ShapeInv(s) && GenerationInv(s) && SetupInv(s) && PublishedInv(s) && ParticipationInv(s)
    && ClaimInv(s) && ExecutionInv(s) && WakeInv(s) && DropInv(s) && HistoryInv(s)
  }


  // ----- preservation
  /** A set of `m` naturals below `m` holds all of them. */
  lemma {:induction false} FullSet(f: set<nat>, m: nat)
    requires forall i | i in f :: i < m
    ensures |f| <= m
    ensures |f| == m ==> forall i | 0 <= i < m :: i in f
  {
    if m > 0 {
      var g := f - {m - 1};
      FullSet(g, m - 1);
      assert f == g || f == g + {m - 1};
    }
  }

  lemma CompletionIsQuiet(s: State)
    requires Inv(s) && s.main.pc == Wait && s.sh.doneCount >= s.main.active
    ensures Idling(s)
    ensures forall id | 0 <= id <= s.n :: s.thieves[id].at == Out
    ensures ExactlyOnce(s.main.items[0], s.hist.ran)
  {
    FullSet(s.hist.finishers, s.main.active);
    assert |s.hist.holder| == s.main.items[0].chunks;
    forall r: Ran
      ensures s.hist.ran[r] == if r.fn == s.sh.workFn && r.ctx == s.sh.workCtx
        && r.chunk < |s.hist.holder| then 1 else 0
    {
      if r in s.hist.ran { assert r == Ran(s.sh.workFn, s.sh.workCtx, r.chunk); }
    }
  }


  /** ExecutionInv only looks at the claimed chunks, so entering `steal_work` cannot disturb it. */
  lemma SameExecution(s: State, t: State)
    requires WellSized(s) && WellSized(t) && t.n == s.n
    requires ExecutionInv(s) && InLive(s.main.pc) == InLive(t.main.pc)
    requires t.sh.workFn == s.sh.workFn && t.sh.workCtx == s.sh.workCtx && t.sh.totalChunks == s.sh.totalChunks
    requires t.hist.holder == s.hist.holder && t.hist.ran == s.hist.ran
    requires forall id | 0 <= id <= s.n ::
      t.thieves[id] == s.thieves[id] || (s.thieves[id].at == Out && t.thieves[id].at == LoadFn)
    ensures ExecutionInv(t)
  {
    if InLive(t.main.pc) {
      assert forall c | 0 <= c < |s.hist.holder| :: Holds(t, s.hist.holder[c], c) == Holds(s, s.hist.holder[c], c);
    }
  }

  lemma WorkerShape(s: State, i: nat)
    requires ShapeInv(s) && PublishedInv(s)
    requires WorkerEnabled(s, i) && s.workers[i].pc != Stealing
    ensures var t := WorkerNext(s, i); WellSized(t) && ShapeInv(t) && PublishedInv(t)
  {
  }

  lemma WorkerGeneration(s: State, i: nat)
    requires ShapeInv(s) && GenerationInv(s)
    requires WorkerEnabled(s, i) && s.workers[i].pc != Stealing
    ensures var t := WorkerNext(s, i); WellSized(t) && GenerationInv(t)
  {
  }

  lemma WorkerSetup(s: State, i: nat)
    requires ShapeInv(s) && GenerationInv(s) && SetupInv(s)
    requires WorkerEnabled(s, i) && s.workers[i].pc != Stealing
    ensures var t := WorkerNext(s, i); WellSized(t) && SetupInv(t)
  {
  }

  lemma WorkerBumpParticipation(s: State, i: nat)
    requires ShapeInv(s) && PublishedInv(s) && ParticipationInv(s)
    requires WorkerEnabled(s, i) && s.workers[i].pc == Bump
    ensures var t := WorkerNext(s, i); WellSized(t) && ParticipationInv(t)
  {
  }

  lemma WorkerParticipation(s: State, i: nat)
    requires ShapeInv(s) && GenerationInv(s) && PublishedInv(s) && ParticipationInv(s)
    requires WorkerEnabled(s, i) && s.workers[i].pc != Stealing
    ensures var t := WorkerNext(s, i); WellSized(t) && ParticipationInv(t)
  {
    if s.workers[i].pc == Bump { WorkerBumpParticipation(s, i); }
  }

  lemma WorkerClaim(s: State, i: nat)
    requires ShapeInv(s) && PublishedInv(s) && ParticipationInv(s) && ClaimInv(s)
    requires WorkerEnabled(s, i) && s.workers[i].pc != Stealing
    ensures var t := WorkerNext(s, i); WellSized(t) && ClaimInv(t)
  {
  }

  lemma WorkerExecution(s: State, i: nat)
    requires ShapeInv(s) && ExecutionInv(s)
    requires WorkerEnabled(s, i) && s.workers[i].pc != Stealing
    ensures var t := WorkerNext(s, i); WellSized(t) && ExecutionInv(t)
  {
    SameExecution(s, WorkerNext(s, i));
  }

  lemma WorkerWake(s: State, i: nat)
    requires ShapeInv(s) && GenerationInv(s) && PublishedInv(s) && ParticipationInv(s) && WakeInv(s)
    requires WorkerEnabled(s, i) && s.workers[i].pc != Stealing
    ensures var t := WorkerNext(s, i); WellSized(t) && WakeInv(t)
  {
  }

  lemma WorkerDrop(s: State, i: nat)
    requires ShapeInv(s) && DropInv(s)
    requires WorkerEnabled(s, i) && s.workers[i].pc != Stealing
    ensures var t := WorkerNext(s, i); WellSized(t) && DropInv(t)
  {
  }

  lemma StealShape(s: State, i: nat)
    requires ShapeInv(s) && PublishedInv(s)
    requires WorkerEnabled(s, i) && s.workers[i].pc == Stealing
    ensures var t := WorkerNext(s, i); WellSized(t) && ShapeInv(t) && PublishedInv(t)
  {
  }

  lemma StealGeneration(s: State, i: nat)
    requires ShapeInv(s) && GenerationInv(s) && SetupInv(s)
    requires WorkerEnabled(s, i) && s.workers[i].pc == Stealing
    ensures var t := WorkerNext(s, i); WellSized(t) && GenerationInv(t) && SetupInv(t)
  {
  }

  lemma StealParticipation(s: State, i: nat)
    requires ShapeInv(s) && PublishedInv(s) && ParticipationInv(s)
    requires WorkerEnabled(s, i) && s.workers[i].pc == Stealing
    ensures var t := WorkerNext(s, i); WellSized(t) && ParticipationInv(t)
  {
  }

  lemma StealClaim(s: State, i: nat)
    requires ShapeInv(s) && PublishedInv(s) && ParticipationInv(s) && ClaimInv(s) && ExecutionInv(s)
    requires WorkerEnabled(s, i) && s.workers[i].pc == Stealing
    ensures var t := WorkerNext(s, i); WellSized(t) && ClaimInv(t)
  {
    if s.thieves[i].at == Claim { TakeClaim(s, i); }
  }

  lemma TakeClaim(s: State, i: nat)
    requires ShapeInv(s) && ParticipationInv(s) && ClaimInv(s) && ExecutionInv(s)
    requires WorkerEnabled(s, i) && s.workers[i].pc == Stealing && s.thieves[i].at == Claim
    ensures var t := WorkerNext(s, i); WellSized(t) && ClaimInv(t)
  {
  }

  lemma ThiefExecution(s: State, id: nat)
    requires ShapeInv(s) && ClaimInv(s) && ExecutionInv(s)
    requires id <= s.n && s.thieves[id].at != Out
    ensures var t := StealNext(s, id); WellSized(t) && ExecutionInv(t)
  {
    if s.thieves[id].at == Claim {
      ThiefClaims(s, id);
    } else if s.thieves[id].at == RunChunk {
      ThiefRuns(s, id);
    }
  }

  lemma ThiefClaims(s: State, id: nat)
    requires ShapeInv(s) && ClaimInv(s) && ExecutionInv(s) && id <= s.n && s.thieves[id].at == Claim
    ensures var t := StealNext(s, id); WellSized(t) && ExecutionInv(t)
  {
  }

  lemma ThiefRuns(s: State, id: nat)
    requires ShapeInv(s) && ClaimInv(s) && ExecutionInv(s) && id <= s.n && s.thieves[id].at == RunChunk
    ensures var t := StealNext(s, id); WellSized(t) && ExecutionInv(t)
  {
  }

  lemma StealExecution(s: State, i: nat)
    requires ShapeInv(s) && ClaimInv(s) && ExecutionInv(s)
    requires WorkerEnabled(s, i) && s.workers[i].pc == Stealing
    ensures var t := WorkerNext(s, i); WellSized(t) && ExecutionInv(t)
  {
    ThiefExecution(s, i);
    SameExecution(StealNext(s, i), WorkerNext(s, i));
  }

  lemma StealWake(s: State, i: nat)
    requires ShapeInv(s) && PublishedInv(s) && ParticipationInv(s) && WakeInv(s)
    requires WorkerEnabled(s, i) && s.workers[i].pc == Stealing
    ensures var t := WorkerNext(s, i); WellSized(t) && WakeInv(t)
  {
  }

  lemma StealDrop(s: State, i: nat)
    requires ShapeInv(s) && DropInv(s)
    requires WorkerEnabled(s, i) && s.workers[i].pc == Stealing
    ensures var t := WorkerNext(s, i); WellSized(t) && DropInv(t)
  {
  }


  lemma MainExecution(s: State)
    requires ShapeInv(s) && SetupInv(s) && ClaimInv(s) && ExecutionInv(s)
    requires MainEnabled(s)
    ensures var t := MainNext(s); WellSized(t) && ExecutionInv(t)
  {
    if s.main.pc == MainSteal {
      MainStealExecution(s);
    } else if InLive(s.main.pc) {
      UnparkExecution(s);
    } else if s.main.pc == StoreGen {
      PublishExecution(s);
    } else {
      assert !InLive(MainNext(s).main.pc);
    }
  }

  lemma MainStealExecution(s: State)
    requires ShapeInv(s) && ClaimInv(s) && ExecutionInv(s) && MainEnabled(s) && s.main.pc == MainSteal
    ensures var t := MainNext(s); WellSized(t) && ExecutionInv(t)
  {
    ThiefExecution(s, s.n);
    SameExecution(StealNext(s, s.n), MainNext(s));
  }

  lemma UnparkExecution(s: State)
    requires ShapeInv(s) && ExecutionInv(s) && MainEnabled(s) && (s.main.pc.Unpark? || s.main.pc == Wait)
    ensures var t := MainNext(s); WellSized(t) && ExecutionInv(t)
  {
    if InLive(MainNext(s).main.pc) { SameExecution(s, MainNext(s)); }
  }

  lemma PublishExecution(s: State)
    requires ShapeInv(s) && SetupInv(s) && MainEnabled(s) && s.main.pc == StoreGen
    ensures var t := MainNext(s); WellSized(t) && ExecutionInv(t)
  {
    var t := MainNext(s);
    assert t.thieves == s.thieves && t.hist.holder == [] && t.hist.ran == multiset{};
    assert forall id | 0 <= id <= s.n :: t.thieves[id].at == Out;
  }

  lemma MainShape(s: State)
    requires ShapeInv(s)
    requires MainEnabled(s)
    ensures var t := MainNext(s); WellSized(t) && ShapeInv(t)
  {
    if InSetup(s.main.pc) {
      assert MainNext(s).workers == s.workers && MainNext(s).thieves == s.thieves;
    } else if InLive(s.main.pc) {
      LiveShape(s);
    }
  }

  lemma LiveShape(s: State)
    requires ShapeInv(s) && MainEnabled(s) && InLive(s.main.pc)
    ensures var t := MainNext(s); WellSized(t) && ShapeInv(t)
  {
    MainKeepsProgress(s);
  }

  /** Packing the stamp under the sequence number keeps the stamp, and the number modulo 2^48. */
  lemma StampUnpacks(seqNo: nat, active: nat)
    requires active < STAMP_SPAN
    ensures (seqNo * STAMP_SPAN + active) % STAMP_SPAN == active
    ensures (seqNo * STAMP_SPAN + active) / STAMP_SPAN == seqNo
  {
  }

  lemma SequenceWraps(p: nat)
    ensures ((p % SEQ_LIMIT + 1) * STAMP_SPAN) % WORD_SPAN == ((p + 1) % SEQ_LIMIT) * STAMP_SPAN
  {
    var q := p % SEQ_LIMIT;
    if q + 1 == SEQ_LIMIT {
      assert (p + 1) % SEQ_LIMIT == 0;
    } else {
      assert (p + 1) % SEQ_LIMIT == q + 1;
    }
  }

  lemma PublishBumps(s: State)
    requires ShapeInv(s) && GenerationInv(s) && SetupInv(s) && MainEnabled(s) && s.main.pc == StoreGen
    ensures var t := MainNext(s);
      && t.sh == s.sh.(generation := t.sh.generation) && t.workers == s.workers && t.n == s.n
      && t.sh.generation == ((s.hist.published + 1) % SEQ_LIMIT) * STAMP_SPAN + s.sh.activeWorkers
      && Stamp(t) == s.sh.activeWorkers && t.hist.published == s.hist.published + 1
  {
    NextWord(s.hist.published, Stamp(s), s.sh.activeWorkers);
  }

  /** What `publish` makes of a word with stamp b when a workers are active. */
  lemma NextWord(p: nat, b: nat, a: nat)
    requires a < STAMP_SPAN && b < STAMP_SPAN
    ensures var (before, after) := ((p % SEQ_LIMIT) * STAMP_SPAN + b, ((p + 1) % SEQ_LIMIT) * STAMP_SPAN + a);
      ((before / STAMP_SPAN + 1) * STAMP_SPAN) % WORD_SPAN + a == after && after % STAMP_SPAN == a
  {
    StampUnpacks(p % SEQ_LIMIT, b);
    StampUnpacks((p + 1) % SEQ_LIMIT, a);
    SequenceWraps(p);
  }

  /** The word a publish stores is unseen by every worker it counts on, up to the 2^48th publish. */
  lemma PublishIsUnseen(s: State, i: nat)
    requires ShapeInv(s) && GenerationInv(s) && SetupInv(s) && MainEnabled(s) && s.main.pc == StoreGen
    requires s.hist.published < SEQ_LIMIT && i < s.n
    ensures var t := MainNext(s);
      && SeenWord(t, s.workers[i].lastGen)
      && (i < s.sh.activeWorkers ==> s.workers[i].lastGen != t.sh.generation)
  {
    PublishBumps(s);
    assert SeenWord(s, s.workers[i].lastGen);
    NextSequence(s.hist.published);
  }

  lemma NextSequence(p: nat)
    requires p < SEQ_LIMIT
    ensures p % SEQ_LIMIT == p && (p + 1) % SEQ_LIMIT == if p + 1 < SEQ_LIMIT then p + 1 else 0
  {
  }

  lemma MainGeneration(s: State)
    requires ShapeInv(s) && GenerationInv(s) && SetupInv(s)
    requires MainEnabled(s) && MainNext(s).hist.published <= SEQ_LIMIT
    ensures var t := MainNext(s); WellSized(t) && GenerationInv(t)
  {
    var t := MainNext(s);
    if s.main.pc == StoreGen {
      PublishGeneration(s);
    } else if !InDrop(s.main.pc) {
      MainKeepsWords(s);
      SameGeneration(s, t);
    }
  }

  lemma PublishGeneration(s: State)
    requires ShapeInv(s) && GenerationInv(s) && SetupInv(s) && MainEnabled(s) && s.main.pc == StoreGen
    requires s.hist.published < SEQ_LIMIT
    ensures var t := MainNext(s); WellSized(t) && GenerationInv(t)
  {
    PublishBumps(s);
    forall i | 0 <= i < s.n ensures SeenWord(MainNext(s), s.workers[i].lastGen) { PublishIsUnseen(s, i); }
  }

  lemma MainKeepsWords(s: State)
    requires ShapeInv(s) && MainEnabled(s) && s.main.pc != StoreGen && !InDrop(s.main.pc)
    ensures var t := MainNext(s);
      && WellSized(t) && t.n == s.n && !InDrop(t.main.pc)
      && t.sh.generation == s.sh.generation && t.hist.published == s.hist.published
      && forall i | 0 <= i < s.n :: t.workers[i].lastGen == s.workers[i].lastGen
  {
  }

  lemma SameGeneration(s: State, t: State)
    requires WellSized(s) && WellSized(t) && t.n == s.n && GenerationInv(s) && !InDrop(s.main.pc)
    requires t.sh.generation == s.sh.generation && t.hist.published == s.hist.published
    requires forall i | 0 <= i < s.n :: t.workers[i].lastGen == s.workers[i].lastGen
    ensures GenerationInv(t)
  {
    forall i | 0 <= i < s.n ensures SeenWord(t, t.workers[i].lastGen) {
      assert SeenWord(s, s.workers[i].lastGen);
    }
  }

  lemma MainSetup(s: State)
    requires ShapeInv(s) && SetupInv(s) && PublishedInv(s)
    requires MainEnabled(s)
    requires s.main.pc == Wait && s.sh.doneCount >= s.main.active ==> Idling(s) && s.sh.nextChunk >= s.sh.totalChunks
    ensures var t := MainNext(s); WellSized(t) && SetupInv(t)
  {
    if InSetup(s.main.pc) { SetupStep(s); }
  }

  lemma SetupStep(s: State)
    requires ShapeInv(s) && SetupInv(s) && MainEnabled(s) && InSetup(s.main.pc)
    ensures var t := MainNext(s); WellSized(t) && SetupInv(t)
  {
    assert MainNext(s).workers == s.workers;
  }

  lemma MainPublished(s: State)
    requires ShapeInv(s) && GenerationInv(s) && SetupInv(s) && PublishedInv(s)
    requires MainEnabled(s) && MainNext(s).hist.published <= SEQ_LIMIT
    ensures PublishedInv(MainNext(s))
  {
    if s.main.pc == StoreGen {
      PublishBumps(s);
    } else if InLive(s.main.pc) {
      LivePublished(s);
    } else {
      assert !InLive(MainNext(s).main.pc);
    }
  }

  lemma LivePublished(s: State)
    requires ShapeInv(s) && PublishedInv(s) && MainEnabled(s) && InLive(s.main.pc)
    ensures PublishedInv(MainNext(s))
  {
    assert Stamp(MainNext(s)) == Stamp(s);
  }

  lemma PublishParticipation(s: State)
    requires ShapeInv(s) && GenerationInv(s) && SetupInv(s)
    requires MainEnabled(s) && s.main.pc == StoreGen && s.hist.published < SEQ_LIMIT
    ensures var t := MainNext(s); WellSized(t) && ParticipationInv(t)
  {
    PublishBumps(s);
    var t := MainNext(s);
    assert t.hist.finishers == {} && t.sh.doneCount == 0;
    forall i | 0 <= i < s.n && i < t.main.active ensures t.workers[i].lastGen != t.sh.generation {
      PublishIsUnseen(s, i);
    }
  }

  lemma MainParticipation(s: State)
    requires ShapeInv(s) && GenerationInv(s) && SetupInv(s) && PublishedInv(s) && ParticipationInv(s)
    requires MainEnabled(s) && MainNext(s).hist.published <= SEQ_LIMIT
    ensures var t := MainNext(s); WellSized(t) && ParticipationInv(t)
  {
    if s.main.pc == StoreGen {
      PublishParticipation(s);
    } else if InLive(s.main.pc) {
      LiveParticipation(s);
    } else {
      assert !InLive(MainNext(s).main.pc);
    }
  }

  lemma LiveParticipation(s: State)
    requires ShapeInv(s) && PublishedInv(s) && ParticipationInv(s) && MainEnabled(s) && InLive(s.main.pc)
    ensures var t := MainNext(s); WellSized(t) && ParticipationInv(t)
  {
    MainKeepsProgress(s);
    if InLive(MainNext(s).main.pc) { SameParticipation(s, MainNext(s)); }
  }

  lemma MainKeepsProgress(s: State)
    requires ShapeInv(s) && MainEnabled(s) && InLive(s.main.pc)
    ensures var t := MainNext(s);
      && WellSized(t) && t.n == s.n && t.main.active == s.main.active && t.hist.finishers == s.hist.finishers
      && t.sh.doneCount == s.sh.doneCount && t.sh.generation == s.sh.generation
      && forall i | 0 <= i < s.n ::
           t.workers[i].pc == s.workers[i].pc && t.workers[i].lastGen == s.workers[i].lastGen
  {
  }

  /** Participation looks at the workers' progress, the counters and the word, and at nothing else. */
  lemma SameParticipation(s: State, t: State)
    requires WellSized(s) && WellSized(t) && t.n == s.n && ParticipationInv(s) && InLive(s.main.pc)
    requires t.main.active == s.main.active && t.hist.finishers == s.hist.finishers
    requires t.sh.doneCount == s.sh.doneCount && t.sh.generation == s.sh.generation
    requires forall i | 0 <= i < s.n ::
      t.workers[i].pc == s.workers[i].pc && t.workers[i].lastGen == s.workers[i].lastGen
    ensures ParticipationInv(t)
  {
  }

  lemma MainClaim(s: State)
    requires ShapeInv(s) && SetupInv(s) && PublishedInv(s) && ParticipationInv(s) && ClaimInv(s) && ExecutionInv(s)
    requires MainEnabled(s)
    ensures var t := MainNext(s); WellSized(t) && ClaimInv(t)
  {
    if s.main.pc == MainSteal {
      MainStealClaim(s);
    } else if s.main.pc == StoreGen {
      PublishClaim(s);
    } else if InLive(s.main.pc) {
      UnparkClaim(s);
    } else {
      assert !InLive(MainNext(s).main.pc);
    }
  }

  lemma PublishClaim(s: State)
    requires ShapeInv(s) && SetupInv(s) && MainEnabled(s) && s.main.pc == StoreGen
    ensures var t := MainNext(s); WellSized(t) && ClaimInv(t)
  {
    assert MainNext(s).workers == s.workers;
  }

  lemma UnparkClaim(s: State)
    requires ShapeInv(s) && ClaimInv(s) && MainEnabled(s) && (s.main.pc.Unpark? || s.main.pc == Wait)
    ensures var t := MainNext(s); WellSized(t) && ClaimInv(t)
  {
    MainKeepsProgress(s);
  }

  lemma MainStealClaim(s: State)
    requires ShapeInv(s) && ClaimInv(s) && ExecutionInv(s)
    requires MainEnabled(s) && s.main.pc == MainSteal
    ensures var t := MainNext(s); WellSized(t) && ClaimInv(t)
  {
  }

  lemma MainWake(s: State)
    requires ShapeInv(s) && PublishedInv(s) && WakeInv(s)
    requires MainEnabled(s)
    ensures var t := MainNext(s); WellSized(t) && WakeInv(t)
  {
  }

  lemma MainDrop(s: State)
    requires ShapeInv(s) && DropInv(s)
    requires MainEnabled(s)
    ensures var t := MainNext(s); WellSized(t) && DropInv(t)
  {
  }

  lemma ClientShape(s: State, a: Action)
    requires Inv(s) && Enabled(s, a) && !a.WorkerStep? && !a.MainStep?
    ensures var t := Next(s, a); WellSized(t) && ShapeInv(t) && GenerationInv(t) && SetupInv(t)
  {
  }

  lemma ClientParticipation(s: State, a: Action)
    requires Inv(s) && Enabled(s, a) && !a.WorkerStep? && !a.MainStep?
    ensures var t := Next(s, a); WellSized(t) && ParticipationInv(t) && ClaimInv(t) && PublishedInv(t)
  {
  }

  lemma ClientWake(s: State, a: Action)
    requires Inv(s) && Enabled(s, a) && !a.WorkerStep? && !a.MainStep?
    ensures var t := Next(s, a); WellSized(t) && WakeInv(t) && DropInv(t) && HistoryInv(t)
  {
  }

  lemma ClientExecution(s: State, a: Action)
    requires Inv(s) && Enabled(s, a) && !a.WorkerStep? && !a.MainStep?
    ensures var t := Next(s, a); WellSized(t) && ExecutionInv(t)
  {
  }

  lemma WorkerKeepsInv(s: State, i: nat)
    requires Inv(s) && WorkerEnabled(s, i) && s.workers[i].pc != Stealing
    ensures Inv(WorkerNext(s, i))
  {
    WorkerShape(s, i); WorkerGeneration(s, i); WorkerSetup(s, i); WorkerParticipation(s, i);
    WorkerClaim(s, i); WorkerExecution(s, i); WorkerWake(s, i); WorkerDrop(s, i);
    assert WorkerNext(s, i).hist.finished == s.hist.finished;
  }

  lemma StealKeepsInv(s: State, i: nat)
    requires Inv(s) && WorkerEnabled(s, i) && s.workers[i].pc == Stealing
    ensures Inv(WorkerNext(s, i))
  {
    StealShape(s, i); StealGeneration(s, i); StealParticipation(s, i);
    StealClaim(s, i); StealExecution(s, i); StealWake(s, i); StealDrop(s, i);
    assert WorkerNext(s, i).hist.finished == s.hist.finished;
  }

  lemma MainHistory(s: State)
    requires Inv(s) && MainEnabled(s)
    ensures HistoryInv(MainNext(s))
  {
    if s.main.pc == Wait && s.sh.doneCount >= s.main.active {
      CompletionIsQuiet(s);
    } else {
      assert MainNext(s).hist.finished == s.hist.finished;
    }
  }

  lemma MainKeepsInv(s: State)
    requires Inv(s) && MainEnabled(s) && MainNext(s).hist.published <= SEQ_LIMIT
    ensures Inv(MainNext(s))
  {
    if s.main.pc == Wait && s.sh.doneCount >= s.main.active { CompletionIsQuiet(s); }
    MainShape(s); MainGeneration(s); MainSetup(s); MainPublished(s); MainParticipation(s);
    MainClaim(s); MainExecution(s); MainWake(s); MainDrop(s); MainHistory(s);
  }

  /** Every action of every thread keeps the invariant, up to the 2^48th publish. */
  lemma ActionKeepsInv(s: State, a: Action)
    requires Inv(s) && Enabled(s, a) && Next(s, a).hist.published <= SEQ_LIMIT
    ensures Inv(Next(s, a))
  {
    match a
    case WorkerStep(i) =>
      if s.workers[i].pc == Stealing { StealKeepsInv(s, i); } else { WorkerKeepsInv(s, i); }
    case MainStep => MainKeepsInv(s);
    case _ => ClientKeepsInv(s, a);
  }

  lemma ClientKeepsInv(s: State, a: Action)
    requires Inv(s) && Enabled(s, a) && !a.WorkerStep? && !a.MainStep?
    ensures Inv(Next(s, a))
  {
    ClientShape(s, a); ClientParticipation(s, a); ClientWake(s, a); ClientExecution(s, a);
  }
}
