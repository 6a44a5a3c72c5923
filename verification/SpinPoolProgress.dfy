/** The pool is never stuck: from every reachable state the operation under way can still complete. */
module SpinPoolProgress {
  import opened SpinPool
  import opened SpinPoolInvariant
  import opened SpinPoolTheorems

  ghost predicate Connects(path: seq<State>, s: State, t: State) {
    path != [] && path[0] == s && path[|path| - 1] == t && IsPath(path)
  }

  ghost predicate Reaches(s: State, t: State) {
    exists path :: Connects(path, s, t)
  }

  lemma ReachesSelf(s: State)
    ensures Reaches(s, s)
  {
    assert Connects([s], s, s);
  }

  lemma ReachesByStep(s: State, a: Action, t: State)
    requires Enabled(s, a) && Reaches(Next(s, a), t)
    ensures Reaches(s, t)
  {
    var tail :| Connects(tail, Next(s, a), t);
    var path := [s] + tail;
    forall j | 0 < j < |path|
      ensures StepAt(path, j)
    {
      if j > 1 {
        assert StepAt(tail, j - 1);
      } else {
        assert StepsTo(s, Next(s, a));
      }
    }
    assert Connects(path, s, t);
  }

  lemma ReachesTransitively(s: State, t: State, u: State)
    requires Reaches(s, t) && Reaches(t, u)
    ensures Reaches(s, u)
  {
    var p :| Connects(p, s, t);
    var q :| Connects(q, t, u);
    var path := p + q[1..];
    forall j | 0 < j < |path|
      ensures StepAt(path, j)
    {
      if j < |p| {
        assert StepAt(p, j);
      } else {
        assert StepAt(q, j - |p| + 1);
      }
    }
    assert Connects(path, s, u);
  }

  // ----- a dispatch under way can finish

  function ChunksLeft(s: State): nat {
    if s.sh.totalChunks > |s.hist.holder| then s.sh.totalChunks - |s.hist.holder| else 0
  }

  /** Steps a thread alone still needs to leave `steal_work`. */
  function StealDistance(s: State, at: StealPc): nat {
    2 * ChunksLeft(s) + if at == RunChunk then 3 else 6 - StealRank(at)
  }

  /** Steps worker `i` alone still needs to report done. */
  function WorkerDistance(s: State, i: nat): nat
    requires WellSized(s) && i < s.n
  {
    match s.workers[i].pc
    case Bump => 1
    case Stealing => StealDistance(s, s.thieves[i].at) + 1
    case LoadGen => 2 * ChunksLeft(s) + 8
    case CheckShutdown => 2 * ChunksLeft(s) + 9
    case Parked => 2 * ChunksLeft(s) + 10
    case LoadBatch => 2 * ChunksLeft(s) + 11
    case _ => 2 * ChunksLeft(s) + 12
  }

  ghost predicate AwaitsWorker(s: State, i: nat) {
    Inv(s) && s.main.pc == Wait && i < s.main.active && i !in s.hist.finishers
  }

  ghost predicate Advances(s: State, i: nat)
    requires WorkerEnabled(s, i)
  {
    var t := WorkerNext(s, i);
    && t.main == s.main && t.hist.published == s.hist.published && t.hist.finished == s.hist.finished
    && WellSized(t) && t.n == s.n
    && if s.workers[i].pc == Bump then t.hist.finishers == s.hist.finishers + {i}
       else t.hist.finishers == s.hist.finishers && WorkerDistance(t, i) < WorkerDistance(s, i)
  }

  lemma StealAdvances(s: State, i: nat)
    requires ShapeInv(s) && ClaimInv(s) && ExecutionInv(s)
    requires s.main.pc == Wait && i < s.n && s.workers[i].pc == Stealing
    ensures WorkerEnabled(s, i) && Advances(s, i)
  {
    if s.thieves[i].at == Claim { ClaimAdvances(s, i); }
  }

  lemma ClaimAdvances(s: State, i: nat)
    requires ShapeInv(s) && ClaimInv(s) && ExecutionInv(s)
    requires s.main.pc == Wait && i < s.n && s.workers[i].pc == Stealing && s.thieves[i].at == Claim
    ensures WorkerEnabled(s, i) && Advances(s, i)
  {
  }

  lemma WorkerAdvances(s: State, i: nat)
    requires AwaitsWorker(s, i)
    ensures WorkerEnabled(s, i) && Advances(s, i)
  {
    if s.workers[i].pc == Stealing {
      StealAdvances(s, i);
    } else {
      IdleAdvances(s, i);
    }
  }

  lemma IdleAdvances(s: State, i: nat)
    requires ShapeInv(s) && PublishedInv(s) && ParticipationInv(s) && WakeInv(s)
    requires s.main.pc == Wait && i < s.main.active && i !in s.hist.finishers && s.workers[i].pc != Stealing
    ensures WorkerEnabled(s, i) && Advances(s, i)
  {
  }

  /** Scheduled alone, a worker the dispatcher waits for reports done. */
  lemma {:induction false} WorkerFinishes(s: State, i: nat) returns (t: State)
    requires AwaitsWorker(s, i)
    ensures Reaches(s, t) && Inv(t) && t.main == s.main
    ensures t.hist.published == s.hist.published && t.hist.finished == s.hist.finished
    ensures t.hist.finishers == s.hist.finishers + {i}
    decreases WorkerDistance(s, i)
  {
    WorkerAdvances(s, i);
    var u := WorkerNext(s, i);
    ActionKeepsInv(s, WorkerStep(i));
    if s.workers[i].pc == Bump {
      t := u;
      ReachesSelf(t);
    } else {
      t := WorkerFinishes(u, i);
    }
    ReachesByStep(s, WorkerStep(i), t);
  }

  lemma {:induction false} WorkersFinish(s: State) returns (t: State)
    requires Inv(s) && s.main.pc == Wait
    ensures Reaches(s, t) && Inv(t) && t.main == s.main && t.sh.doneCount >= t.main.active
    ensures t.hist.published == s.hist.published && t.hist.finished == s.hist.finished
    decreases s.main.active - |s.hist.finishers|
  {
    FullSet(s.hist.finishers, s.main.active);
    if s.sh.doneCount >= s.main.active {
      t := s;
      ReachesSelf(s);
    } else {
      var i := Missing(s.hist.finishers, s.main.active);
      var u := WorkerFinishes(s, i);
      t := WorkersFinish(u);
      ReachesTransitively(s, u, t);
    }
  }

  lemma {:induction false} Missing(f: set<nat>, m: nat) returns (i: nat)
    requires |f| < m
    ensures i < m && i !in f
  {
    i := m - 1;
    if i in f {
      i := Missing(f - {m - 1}, m - 1);
    }
  }

  /** Steps the dispatching thread alone still needs to get from publishing to its wait loop. */
  function MainDistance(s: State): nat
    requires WellSized(s)
  {
    match s.main.pc
    case MainSteal => StealDistance(s, s.thieves[s.n].at)
    case Unpark(k) => 2 * ChunksLeft(s) + 7 + if k < s.main.active then s.main.active - k else 0
    case _ => 0
  }

  ghost predicate UnderWay(s: State) {
    Inv(s) && s.main.items != [] && !InDrop(s.main.pc)
    && s.hist.published + (if InSetup(s.main.pc) then 1 else 0) <= SEQ_LIMIT
  }

  ghost predicate MainMovesOn(s: State)
    requires MainEnabled(s)
  {
    var t := MainNext(s);
    && t.main.items == s.main.items && t.hist.finished == s.hist.finished && WellSized(t)
    && !InDrop(t.main.pc)
    && t.hist.published == s.hist.published + (if s.main.pc == StoreGen then 1 else 0)
    && (InSetup(s.main.pc) ==> Rank(t.main.pc) == Rank(s.main.pc) + 1)
    && (InLive(s.main.pc) ==> InLive(t.main.pc) && MainDistance(t) < MainDistance(s))
  }

  lemma SetupAdvances(s: State)
    requires ShapeInv(s) && SetupInv(s) && InSetup(s.main.pc) && s.main.pc != Idle
    ensures MainEnabled(s) && MainMovesOn(s)
  {
  }

  lemma LiveAdvances(s: State)
    requires ShapeInv(s) && PublishedInv(s) && ClaimInv(s) && ExecutionInv(s)
    requires InLive(s.main.pc) && s.main.pc != Wait
    ensures MainEnabled(s) && MainMovesOn(s)
  {
    if s.main.pc.Unpark? { UnparkAdvances(s); } else { MainStealAdvances(s); }
  }

  lemma UnparkAdvances(s: State)
    requires ShapeInv(s) && PublishedInv(s) && s.main.pc.Unpark?
    ensures MainEnabled(s) && MainMovesOn(s)
  {
  }

  lemma MainStealAdvances(s: State)
    requires ShapeInv(s) && PublishedInv(s) && ClaimInv(s) && ExecutionInv(s) && s.main.pc == MainSteal
    ensures MainEnabled(s) && MainMovesOn(s)
  {
  }

  lemma {:induction false} MainReachesWait(s: State) returns (t: State)
    requires UnderWay(s)
    ensures Reaches(s, t) && Inv(t) && t.main.pc == Wait
    ensures t.main.items == s.main.items && t.hist.finished == s.hist.finished
    decreases 9 - Rank(s.main.pc), MainDistance(s)
  {
    if s.main.pc == Wait {
      t := s;
      ReachesSelf(s);
    } else {
      if InSetup(s.main.pc) { SetupAdvances(s); } else { LiveAdvances(s); }
      ActionKeepsInv(s, MainStep);
      t := MainReachesWait(MainNext(s));
      ReachesByStep(s, MainStep, t);
    }
  }

  /** From every reachable state in the middle of an item, some schedule completes that item, with
      every chunk run exactly once. */
  lemma DispatchCanFinish(path: seq<State>, j: nat) returns (t: State)
    requires IsRun(path) && j < |path|
    requires path[j].hist.published + (if InSetup(path[j].main.pc) then 1 else 0) <= SEQ_LIMIT
    requires path[j].main.pc != Idle && !InDrop(path[j].main.pc)
    ensures Reaches(path[j], t) && path[j].main.items != []
    ensures exists ran ::
      && ExactlyOnce(path[j].main.items[0], ran)
      && t.hist.finished == path[j].hist.finished + [Record(path[j].main.items[0], ran)]
  {
    var s := path[j];
    RunInv(path, j);
    var u := MainReachesWait(s);
    var v := WorkersFinish(u);
    CompletionIsQuiet(v);
    t := Next(v, MainStep);
    ReachesSelf(t);
    ReachesByStep(v, MainStep, t);
    ReachesTransitively(u, v, t);
    ReachesTransitively(s, u, t);
    assert t.hist.finished == s.hist.finished + [Record(s.main.items[0], v.hist.ran)];
  }

  // ----- a shutdown under way can finish

  /** Steps worker `i` alone still needs to exit once shutdown is set. */
  function ExitDistance(s: State, i: nat): nat
    requires WellSized(s) && i < s.n
  {
    match s.workers[i].pc
    case Exited => 0
    case CheckShutdown => 1
    case Bump => 2
    case Parked => 2
    case LoadBatch => 3
    case LoadActive => 4
    case Stealing => 8 - StealRank(s.thieves[i].at)
    case LoadGen => 8
  }

  ghost predicate Joining(s: State) {
    Inv(s) && s.main.pc.Join?
  }

  lemma ExitAdvances(s: State, i: nat)
    requires ShapeInv(s) && DropInv(s) && s.main.pc.Join? && i < s.n && s.workers[i].pc != Exited
    ensures WorkerEnabled(s, i)
    ensures var t := WorkerNext(s, i);
      t.main == s.main && t.n == s.n && WellSized(t) && ExitDistance(t, i) < ExitDistance(s, i)
  {
  }

  lemma {:induction false} WorkerExits(s: State, i: nat) returns (t: State)
    requires Joining(s) && i < s.n
    ensures Reaches(s, t) && Joining(t) && t.main == s.main && t.n == s.n && t.workers[i].pc == Exited
    decreases ExitDistance(s, i)
  {
    if s.workers[i].pc == Exited {
      t := s;
      ReachesSelf(s);
    } else {
      ExitAdvances(s, i);
      ActionKeepsInv(s, WorkerStep(i));
      t := WorkerExits(WorkerNext(s, i), i);
      ReachesByStep(s, WorkerStep(i), t);
    }
  }

  lemma {:induction false} JoinFinishes(s: State) returns (t: State)
    requires Joining(s)
    ensures Reaches(s, t) && t.main.pc == Dropped
    decreases s.n - s.main.pc.k, 1
  {
    if s.main.pc.k >= s.n {
      t := Next(s, MainStep);
      ReachesSelf(t);
      ReachesByStep(s, MainStep, t);
    } else {
      var u := WorkerExits(s, s.main.pc.k);
      ActionKeepsInv(u, MainStep);
      t := JoinFinishes(Next(u, MainStep));
      ReachesByStep(u, MainStep, t);
      ReachesTransitively(s, u, t);
    }
  }

  lemma {:induction false} DropFinishes(s: State) returns (t: State)
    requires Inv(s) && InDrop(s.main.pc)
    ensures Reaches(s, t) && t.main.pc == Dropped
    decreases match s.main.pc
      case DropGen => s.n + 2
      case DropUnpark(k) => if k < s.n then s.n + 1 - k else 1
      case _ => 0
  {
    if s.main.pc == Dropped {
      t := s;
      ReachesSelf(s);
    } else if s.main.pc.Join? {
      t := JoinFinishes(s);
    } else {
      ActionKeepsInv(s, MainStep);
      t := DropFinishes(Next(s, MainStep));
      ReachesByStep(s, MainStep, t);
    }
  }

  /** From every reachable state inside `drop`, some schedule joins every worker. */
  lemma ShutdownCanFinish(path: seq<State>, j: nat) returns (t: State)
    requires IsRun(path) && j < |path| && path[j].hist.published <= SEQ_LIMIT && InDrop(path[j].main.pc)
    ensures Reaches(path[j], t) && t.main.pc == Dropped
  {
    RunInv(path, j);
    t := DropFinishes(path[j]);
  }
}
