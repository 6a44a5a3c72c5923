/** Every fair schedule finishes: each thread needs only so many turns of its own, whatever the others do. */
module SpinPoolFairness {
  import opened SpinPool
  import opened SpinPoolInvariant
  import opened SpinPoolTheorems
  import opened SpinPoolProgress

  /** A stretch of a run together with the actions taken. */
  ghost predicate IsSchedule(path: seq<State>, acts: seq<Action>) {
    |path| == |acts| + 1 && forall k | 0 <= k < |acts| :: TakenAt(path, acts, k)
  }

  ghost predicate TakenAt(path: seq<State>, acts: seq<Action>, k: int)
    requires 0 <= k < |acts| && |path| == |acts| + 1
  {
    Enabled(path[k], acts[k]) && path[k + 1] == Next(path[k], acts[k])
  }

  /** How often action a is taken in the first k steps. */
  function Turns(acts: seq<Action>, k: nat, a: Action): nat
    requires k <= |acts|
  {
    if k == 0 then 0 else Turns(acts, k - 1, a) + if acts[k - 1] == a then 1 else 0
  }

  // ----- one step inside an item

  /** The item is still under way after a step: nothing published, nobody uncounted. */
  ghost predicate StaysLive(s: State, t: State) {
    && WellSized(t) && InLive(t.main.pc) && t.n == s.n && t.main.active == s.main.active && t.main.items == s.main.items
    && t.hist.finished == s.hist.finished && t.hist.published == s.hist.published
      && s.hist.finishers <= t.hist.finishers
  }

  /** The item completes in this step. */
  ghost predicate Completes(s: State, t: State) {
    && s.main.items != [] && ExactlyOnce(s.main.items[0], s.hist.ran)
    && t.hist.finished == s.hist.finished + [Record(s.main.items[0], s.hist.ran)]
  }

  lemma LiveStep(s: State, a: Action)
    requires Inv(s) && InLive(s.main.pc) && Enabled(s, a)
    ensures Completes(s, Next(s, a)) || StaysLive(s, Next(s, a))
    ensures a == MainStep && s.main.pc == Wait && s.sh.doneCount >= s.main.active ==> Completes(s, Next(s, a))
  {
    match a
    case MainStep =>
      if s.main.pc == Wait && s.sh.doneCount >= s.main.active { CompletionIsQuiet(s); } else { MainStaysLive(s); }
    case WorkerStep(i) => WorkerStaysLive(s, i);
    case _ =>
  }

  lemma MainStaysLive(s: State)
    requires ShapeInv(s) && InLive(s.main.pc) && MainEnabled(s)
    requires s.main.pc == Wait ==> s.sh.doneCount < s.main.active
    ensures StaysLive(s, MainNext(s))
  {
  }

  lemma WorkerStaysLive(s: State, i: nat)
    requires ShapeInv(s) && InLive(s.main.pc) && WorkerEnabled(s, i)
    ensures StaysLive(s, WorkerNext(s, i))
  {
  }

  // ----- a worker's own turns

  /** Worker i is through, or has come at least its own step closer. */
  ghost predicate Closer(s: State, a: Action, t: State, i: nat)
    requires WellSized(s) && WellSized(t) && i < s.n == t.n
  {
    || i in t.hist.finishers
    || WorkerDistance(t, i) + (if a == WorkerStep(i) then 1 else 0) <= WorkerDistance(s, i)
  }

  lemma OwnTurn(s: State, i: nat)
    requires ShapeInv(s) && PublishedInv(s) && ParticipationInv(s) && ClaimInv(s) && ExecutionInv(s)
    requires InLive(s.main.pc) && i < s.main.active && i !in s.hist.finishers && WorkerEnabled(s, i)
    ensures var t := WorkerNext(s, i); WellSized(t) && t.n == s.n && Closer(s, WorkerStep(i), t, i)
  {
    if s.workers[i].pc == Stealing { OwnStealTurn(s, i); }
  }

  lemma OwnStealTurn(s: State, i: nat)
    requires ShapeInv(s) && ClaimInv(s) && ExecutionInv(s)
    requires InLive(s.main.pc) && WorkerEnabled(s, i) && s.workers[i].pc == Stealing
    ensures var t := WorkerNext(s, i); WellSized(t) && t.n == s.n && Closer(s, WorkerStep(i), t, i)
  {
    if s.thieves[i].at == Claim { OwnClaimTurn(s, i); }
  }

  lemma OwnClaimTurn(s: State, i: nat)
    requires ShapeInv(s) && ClaimInv(s) && ExecutionInv(s) && InLive(s.main.pc)
    requires WorkerEnabled(s, i) && s.workers[i].pc == Stealing && s.thieves[i].at == Claim
    ensures var t := WorkerNext(s, i); WellSized(t) && t.n == s.n && Closer(s, WorkerStep(i), t, i)
  {
  }

  /** Another thread's step leaves worker i where it is, and can only shrink what is left to claim. */
  ghost predicate Bystander(s: State, t: State, i: nat) {
    && WellSized(s) && WellSized(t) && i < s.n == t.n
    && t.thieves[i] == s.thieves[i] && ChunksLeft(t) <= ChunksLeft(s)
    && (t.workers[i].pc == s.workers[i].pc || (s.workers[i].pc == Parked && t.workers[i].pc == CheckShutdown))
  }

  lemma BystanderIsNoFurther(s: State, t: State, i: nat)
    requires Bystander(s, t, i)
    ensures WorkerDistance(t, i) <= WorkerDistance(s, i)
  {
  }

  lemma OtherWorkersTurn(s: State, j: nat, i: nat)
    requires ShapeInv(s) && InLive(s.main.pc) && WorkerEnabled(s, j) && i < s.n && i != j
    ensures Bystander(s, WorkerNext(s, j), i)
  {
  }

  lemma MainsTurn(s: State, i: nat)
    requires ShapeInv(s) && InLive(s.main.pc) && MainEnabled(s) && i < s.n
    ensures Bystander(s, MainNext(s), i)
  {
  }

  /** No step of any thread takes an awaited worker further from reporting done. */
  lemma StepIsCloser(s: State, a: Action, i: nat)
    requires Inv(s) && InLive(s.main.pc) && Enabled(s, a) && StaysLive(s, Next(s, a))
    requires i < s.main.active && i !in s.hist.finishers
    ensures i < s.n && Closer(s, a, Next(s, a), i)
  {
    match a
    case WorkerStep(j) =>
      if j == i { OwnTurn(s, i); } else { OtherWorkersTurn(s, j, i); BystanderIsNoFurther(s, Next(s, a), i); }
    case MainStep => MainsTurn(s, i); BystanderIsNoFurther(s, Next(s, a), i);
    case SpuriousWake(_) => BystanderIsNoFurther(s, Next(s, a), i);
    case SetBatch(_) => BystanderIsNoFurther(s, Next(s, a), i);
    case _ =>
  }

  // ----- the dispatcher's own turns

  /** The dispatcher waits, or has come at least its own step closer to waiting. */
  ghost predicate MainCloser(s: State, a: Action, t: State)
    requires WellSized(s) && WellSized(t)
  {
    t.main.pc == Wait || MainDistance(t) + (if a == MainStep then 1 else 0) <= MainDistance(s)
  }

  lemma StepIsMainCloser(s: State, a: Action)
    requires Inv(s) && InLive(s.main.pc) && Enabled(s, a) && StaysLive(s, Next(s, a))
    ensures s.main.pc == Wait ==> Next(s, a).main.pc == Wait
    ensures MainCloser(s, a, Next(s, a))
  {
    match a
    case MainStep => if s.main.pc != Wait { LiveAdvances(s); }
    case WorkerStep(j) => WorkersTurn(s, j);
    case _ =>
  }

  lemma WorkersTurn(s: State, j: nat)
    requires ShapeInv(s) && InLive(s.main.pc) && WorkerEnabled(s, j)
    ensures var t := WorkerNext(s, j);
      && WellSized(t) && t.n == s.n && t.main == s.main && t.thieves[s.n] == s.thieves[s.n]
      && ChunksLeft(t) <= ChunksLeft(s) && MainDistance(t) <= MainDistance(s)
  {
  }

  // ----- a whole stretch

  /** After k steps the item is under way, and every thread is through or as much closer as its turns. */
  ghost predicate OnCourse(path: seq<State>, acts: seq<Action>, k: nat)
    requires IsSchedule(path, acts) && k <= |acts| && Inv(path[0])
  {
    && Inv(path[k]) && InLive(path[k].main.pc) && path[k].n == path[0].n && path[k].main.active == path[0].main.active
    && path[k].main.items == path[0].main.items && path[k].hist.finished == path[0].hist.finished
    && Waits(path, acts, k)
    && forall i | 0 <= i < path[0].n && i < path[0].main.active :: Served(path, acts, k, i)
  }

  ghost predicate Waits(path: seq<State>, acts: seq<Action>, k: nat)
    requires k <= |acts| && k < |path| && WellSized(path[k]) && WellSized(path[0])
  {
    path[k].main.pc == Wait || Turns(acts, k, MainStep) + MainDistance(path[k]) <= MainDistance(path[0])
  }

  ghost predicate Served(path: seq<State>, acts: seq<Action>, k: nat, i: nat)
    requires k <= |acts| && k < |path| && WellSized(path[k]) && WellSized(path[0]) && i < path[k].n == path[0].n
  {
    || i in path[k].hist.finishers
    || Turns(acts, k, WorkerStep(i)) + WorkerDistance(path[k], i) <= WorkerDistance(path[0], i)
  }

  /** The item under way at the start completes in step c. */
  ghost predicate CompletesAt(path: seq<State>, c: int) {
    && 0 < c < |path| && path[0].main.items != []
    && exists ran ::
         && ExactlyOnce(path[0].main.items[0], ran)
         && path[c].hist.finished == path[0].hist.finished + [Record(path[0].main.items[0], ran)]
  }

  lemma {:induction false} Track(path: seq<State>, acts: seq<Action>, k: nat)
    requires IsSchedule(path, acts) && k <= |acts| && Inv(path[0]) && InLive(path[0].main.pc)
    ensures OnCourse(path, acts, k) || exists c | 0 < c <= k :: CompletesAt(path, c)
  {
    if k > 0 {
      Track(path, acts, k - 1);
      if OnCourse(path, acts, k - 1) {
        CourseStep(path, acts, k - 1);
      } else {
        var c :| 0 < c <= k - 1 && CompletesAt(path, c);
      }
    }
  }

  /** What one step of any thread does to the item and to everyone's distance. */
  ghost predicate Progresses(s: State, a: Action, t: State) {
    && WellSized(s) && StaysLive(s, t) && Inv(t) && MainCloser(s, a, t) && (s.main.pc == Wait ==> t.main.pc == Wait)
    && forall i | 0 <= i < s.n && i < s.main.active && i !in s.hist.finishers :: Closer(s, a, t, i)
  }

  lemma StepProgresses(s: State, a: Action)
    requires Inv(s) && InLive(s.main.pc) && Enabled(s, a)
    ensures Completes(s, Next(s, a)) || Progresses(s, a, Next(s, a))
  {
    LiveStep(s, a);
    if !Completes(s, Next(s, a)) {
      ActionKeepsInv(s, a);
      StepIsMainCloser(s, a);
      forall i | 0 <= i < s.n && i < s.main.active && i !in s.hist.finishers ensures Closer(s, a, Next(s, a), i) {
        StepIsCloser(s, a, i);
      }
    }
  }

  lemma ScheduledStep(path: seq<State>, acts: seq<Action>, k: nat)
    requires IsSchedule(path, acts) && k < |acts| && Inv(path[k]) && InLive(path[k].main.pc)
    ensures Completes(path[k], path[k + 1]) || Progresses(path[k], acts[k], path[k + 1])
  {
    assert TakenAt(path, acts, k);
    StepProgresses(path[k], acts[k]);
  }

  lemma CourseStep(path: seq<State>, acts: seq<Action>, k: nat)
    requires IsSchedule(path, acts) && k < |acts| && Inv(path[0]) && OnCourse(path, acts, k)
    ensures OnCourse(path, acts, k + 1) || CompletesAt(path, k + 1)
  {
    var next := k + 1;
    ScheduledStep(path, acts, k);
    if Completes(path[k], path[next]) {
      assert CompletesAt(path, next);
    } else {
      WaitsNext(path, acts, k);
      forall i | 0 <= i < path[0].n && i < path[0].main.active ensures Served(path, acts, next, i) {
        assert Served(path, acts, k, i);
        ServedNext(path, acts, k, i);
      }
    }
  }

  lemma WaitsNext(path: seq<State>, acts: seq<Action>, k: nat)
    requires |path| == |acts| + 1 && k < |acts| && WellSized(path[k]) && WellSized(path[k + 1]) && WellSized(path[0])
    requires Waits(path, acts, k) && MainCloser(path[k], acts[k], path[k + 1])
    requires path[k].main.pc == Wait ==> path[k + 1].main.pc == Wait
    ensures Waits(path, acts, k + 1)
  {
  }

  lemma ServedNext(path: seq<State>, acts: seq<Action>, k: nat, i: nat)
    requires |path| == |acts| + 1 && k < |acts| && WellSized(path[k]) && WellSized(path[k + 1]) && WellSized(path[0])
    requires i < path[k].n == path[k + 1].n == path[0].n && Served(path, acts, k, i)
    requires path[k].hist.finishers <= path[k + 1].hist.finishers
    requires i !in path[k].hist.finishers ==> Closer(path[k], acts[k], path[k + 1], i)
    ensures Served(path, acts, k + 1, i)
  {
  }

  /** Inside an item the dispatcher can always step, and while it waits so can every worker it waits for. */
  lemma LiveIsEnabled(s: State)
    requires Inv(s) && InLive(s.main.pc)
    ensures MainEnabled(s)
    ensures s.main.pc == Wait ==>
      forall i | 0 <= i < s.n && i < s.main.active && i !in s.hist.finishers :: WorkerEnabled(s, i)
  {
    if s.main.pc == Wait {
      forall i | 0 <= i < s.n && i < s.main.active && i !in s.hist.finishers ensures WorkerEnabled(s, i) {
        WorkerAdvances(s, i);
      }
    } else {
      LiveAdvances(s);
    }
  }

  /**
   * In every schedule, whatever the interleaving: once the dispatcher and each active worker have
   * had the turns their distance asks for, the dispatcher's next step completes the item, every
   * chunk of it run exactly once, unless it has completed before.
   */
  lemma FairDispatchFinishes(run: seq<State>, j: nat, path: seq<State>, acts: seq<Action>, m: nat)
    requires IsRun(run) && j < |run| && run[j].hist.published <= SEQ_LIMIT && InLive(run[j].main.pc)
    requires IsSchedule(path, acts) && path[0] == run[j] && m < |acts| && acts[m] == MainStep
    requires WellSized(run[j]) && Turns(acts, m, MainStep) >= MainDistance(run[j])
    requires forall i | 0 <= i < run[j].n && i < run[j].main.active ::
      Turns(acts, m, WorkerStep(i)) >= WorkerDistance(run[j], i)
    ensures exists c | 0 < c <= m + 1 :: CompletesAt(path, c)
  {
    RunInv(run, j);
    Track(path, acts, m);
    if OnCourse(path, acts, m) {
      var s := path[m];
      EveryoneIsThrough(path, acts, m);
      assert TakenAt(path, acts, m);
      LiveStep(s, MainStep);
      assert CompletesAt(path, m + 1);
    } else {
      var c :| 0 < c <= m && CompletesAt(path, c);
    }
  }

  lemma EveryoneIsThrough(path: seq<State>, acts: seq<Action>, m: nat)
    requires IsSchedule(path, acts) && m <= |acts| && Inv(path[0]) && OnCourse(path, acts, m)
    requires Turns(acts, m, MainStep) >= MainDistance(path[0])
    requires forall i | 0 <= i < path[0].n && i < path[0].main.active ::
      Turns(acts, m, WorkerStep(i)) >= WorkerDistance(path[0], i)
    ensures path[m].main.pc == Wait && path[m].sh.doneCount >= path[m].main.active
  {
    var s := path[m];
    assert s.main.active <= s.n;
    forall i | 0 <= i < s.main.active ensures i in s.hist.finishers {
      assert Served(path, acts, m, i);
      assert WorkerDistance(s, i) > 0;
    }
    HoldsAll(s.hist.finishers, s.main.active);
  }

  lemma {:induction false} HoldsAll(f: set<nat>, m: nat)
    requires forall i | 0 <= i < m :: i in f
    ensures |f| >= m
  {
    if m > 0 { HoldsAll(f - {m - 1}, m - 1); }
  }

  // ----- from the call to the publish

  /** An item is being set up. */
  ghost predicate SettingUp(s: State) {
    Inv(s) && InSetup(s.main.pc) && s.main.pc != Idle && s.hist.published < SEQ_LIMIT
  }

  /** t has published the item s was setting up. */
  ghost predicate HasPublished(s: State, t: State) {
    Inv(t) && InLive(t.main.pc) && t.main.items == s.main.items && t.hist.finished == s.hist.finished
  }

  ghost predicate SetsUpFurther(s: State, a: Action, t: State) {
    && SettingUp(t) && t.main.items == s.main.items && t.hist.finished == s.hist.finished
    && Rank(t.main.pc) == Rank(s.main.pc) + if a == MainStep then 1 else 0
  }

  /** Only the dispatcher's own steps move the setup, and each moves it on. */
  lemma SetupTurn(s: State, a: Action)
    requires SettingUp(s) && Enabled(s, a)
    ensures HasPublished(s, Next(s, a)) || SetsUpFurther(s, a, Next(s, a))
  {
    match a
    case MainStep => SetupAdvances(s); ActionKeepsInv(s, a); RankOfLive(MainNext(s).main.pc);
    case WorkerStep(i) => WorkerKeepsSetup(s, i); ActionKeepsInv(s, a);
    case _ => ActionKeepsInv(s, a);
  }

  lemma RankOfLive(pc: MainPc)
    requires 1 < Rank(pc) <= 9 && !InDrop(pc)
    ensures if Rank(pc) == 9 then InLive(pc) else InSetup(pc) && pc != Idle
  {
  }

  lemma WorkerKeepsSetup(s: State, i: nat)
    requires WorkerEnabled(s, i)
    ensures var t := WorkerNext(s, i);
      t.main == s.main && t.hist.published == s.hist.published && t.hist.finished == s.hist.finished
  {
  }

  lemma {:induction false} TrackSetup(path: seq<State>, acts: seq<Action>, k: nat)
    requires IsSchedule(path, acts) && k <= |acts| && SettingUp(path[0])
    ensures || (exists c | 0 < c <= k :: HasPublished(path[0], path[c]))
            || (SettingUp(path[k]) && path[k].main.items == path[0].main.items
                && path[k].hist.finished == path[0].hist.finished
                && Rank(path[k].main.pc) == Rank(path[0].main.pc) + Turns(acts, k, MainStep))
  {
    if k > 0 {
      TrackSetup(path, acts, k - 1);
      if c :| 0 < c <= k - 1 && HasPublished(path[0], path[c]) {
      } else {
        assert TakenAt(path, acts, k - 1);
        SetupTurn(path[k - 1], acts[k - 1]);
        assert HasPublished(path[k - 1], path[k]) ==> HasPublished(path[0], path[k]);
      }
    }
  }

  /** In every schedule the dispatcher's own turns, at most eight of them, bring the item under way. */
  lemma {:induction false} FairSetupPublishes(run: seq<State>, j: nat, path: seq<State>, acts: seq<Action>)
    requires IsRun(run) && j < |run| && run[j].hist.published < SEQ_LIMIT
    requires InSetup(run[j].main.pc) && run[j].main.pc != Idle
    requires IsSchedule(path, acts) && path[0] == run[j]
    requires Turns(acts, |acts|, MainStep) >= 9 - Rank(run[j].main.pc)
    ensures exists c | 0 < c <= |acts| :: HasPublished(path[0], path[c])
  {
    RunInv(run, j);
    TrackSetup(path, acts, |acts|);
  }

  // ----- shutdown

  /** Steps the dispatching thread needs to get through `drop`. */
  function DropDistance(s: State): nat {
    match s.main.pc
    case DropGen => 2 * s.n + 3
    case DropUnpark(k) => s.n + 2 + if k < s.n then s.n - k else 0
    case Join(k) => 1 + if k < s.n then s.n - k else 0
    case _ => 0
  }

  /** One step of any thread inside `drop`: the stepping thread comes closer to its end, no other further from it. */
  ghost predicate Unwinds(s: State, a: Action, t: State) {
    && WellSized(s) && WellSized(t) && t.n == s.n && InDrop(t.main.pc) && t.hist.published == s.hist.published
    && DropDistance(t) + (if a == MainStep then 1 else 0) <= DropDistance(s)
    && forall i | 0 <= i < s.n :: ExitCloser(s, a, t, i)
  }

  ghost predicate ExitCloser(s: State, a: Action, t: State, i: nat)
    requires WellSized(s) && WellSized(t) && i < s.n == t.n
  {
    ExitDistance(t, i) + (if a == WorkerStep(i) then 1 else 0) <= ExitDistance(s, i)
  }

  lemma StepUnwinds(s: State, a: Action)
    requires ShapeInv(s) && DropInv(s) && InDrop(s.main.pc) && Enabled(s, a)
    ensures Unwinds(s, a, Next(s, a))
  {
    match a
    case WorkerStep(j) => WorkerUnwinds(s, j);
    case MainStep => MainUnwinds(s);
    case SpuriousWake(j) => WakeUnwinds(s, j);
    case _ =>
  }

  lemma WakeUnwinds(s: State, j: nat)
    requires InDrop(s.main.pc) && Enabled(s, SpuriousWake(j))
    ensures Unwinds(s, SpuriousWake(j), Next(s, SpuriousWake(j)))
  {
  }

  lemma WorkerUnwinds(s: State, j: nat)
    requires ShapeInv(s) && DropInv(s) && InDrop(s.main.pc) && WorkerEnabled(s, j)
    ensures Unwinds(s, WorkerStep(j), WorkerNext(s, j))
  {
    OwnExitTurn(s, j);
    forall i | 0 <= i < s.n ensures ExitCloser(s, WorkerStep(j), WorkerNext(s, j), i) {
      if i != j { OtherExitTurn(s, j, i); }
    }
  }

  lemma OtherExitTurn(s: State, j: nat, i: nat)
    requires WorkerEnabled(s, j) && i < s.n && i != j
    ensures var t := WorkerNext(s, j); WellSized(t) && t.n == s.n && ExitDistance(t, i) == ExitDistance(s, i)
  {
  }

  lemma MainUnwinds(s: State)
    requires ShapeInv(s) && InDrop(s.main.pc) && MainEnabled(s)
    ensures Unwinds(s, MainStep, MainNext(s))
  {
  }

  lemma OwnExitTurn(s: State, i: nat)
    requires ShapeInv(s) && DropInv(s) && InDrop(s.main.pc) && WorkerEnabled(s, i)
    ensures var t := WorkerNext(s, i);
      && WellSized(t) && t.n == s.n && t.main == s.main && t.hist.published == s.hist.published
      && ExitDistance(t, i) < ExitDistance(s, i)
  {
  }

  /** After k steps of `drop` every thread is as much closer to its end as its turns. */
  ghost predicate Unwinding(path: seq<State>, acts: seq<Action>, k: nat)
    requires IsSchedule(path, acts) && k <= |acts| && Inv(path[0])
  {
    && Inv(path[k]) && InDrop(path[k].main.pc) && path[k].n == path[0].n
    && Turns(acts, k, MainStep) + DropDistance(path[k]) <= DropDistance(path[0])
    && forall i | 0 <= i < path[0].n :: Leaves(path, acts, k, i)
  }

  ghost predicate Leaves(path: seq<State>, acts: seq<Action>, k: nat, i: nat)
    requires k <= |acts| && k < |path| && WellSized(path[k]) && WellSized(path[0]) && i < path[k].n == path[0].n
  {
    Turns(acts, k, WorkerStep(i)) + ExitDistance(path[k], i) <= ExitDistance(path[0], i)
  }

  lemma {:induction false} TrackDrop(path: seq<State>, acts: seq<Action>, k: nat)
    requires IsSchedule(path, acts) && k <= |acts| && Inv(path[0]) && InDrop(path[0].main.pc)
    ensures Unwinding(path, acts, k)
  {
    if k > 0 {
      TrackDrop(path, acts, k - 1);
      ScheduledUnwind(path, acts, k - 1);
      forall i | 0 <= i < path[0].n ensures Leaves(path, acts, k, i) {
        assert Leaves(path, acts, k - 1, i);
        assert ExitCloser(path[k - 1], acts[k - 1], path[k], i);
      }
    }
  }

  lemma ScheduledUnwind(path: seq<State>, acts: seq<Action>, k: nat)
    requires IsSchedule(path, acts) && k < |acts| && Inv(path[k]) && InDrop(path[k].main.pc)
    ensures Inv(path[k + 1]) && Unwinds(path[k], acts[k], path[k + 1])
  {
    assert TakenAt(path, acts, k);
    StepUnwinds(path[k], acts[k]);
    ActionKeepsInv(path[k], acts[k]);
  }

  /**
   * In every schedule inside `drop`: a worker that has had the turns its distance asks for has
   * exited, a dispatching thread that has had its own has joined them all, and until then one of
   * the two sides of the join can step.
   */
  lemma FairShutdownFinishes(run: seq<State>, j: nat, path: seq<State>, acts: seq<Action>)
    requires IsRun(run) && j < |run| && run[j].hist.published <= SEQ_LIMIT && InDrop(run[j].main.pc)
    requires IsSchedule(path, acts) && path[0] == run[j]
    ensures WellSized(path[0]) && WellSized(path[|acts|]) && path[|acts|].n == path[0].n
    ensures forall i | 0 <= i < path[0].n && Turns(acts, |acts|, WorkerStep(i)) >= ExitDistance(path[0], i) ::
      path[|acts|].workers[i].pc == Exited
    ensures Turns(acts, |acts|, MainStep) >= DropDistance(path[0]) ==>
      path[|acts|].main.pc == Dropped && forall i | 0 <= i < path[0].n :: path[|acts|].workers[i].pc == Exited
    ensures path[|acts|].main.pc != Dropped ==>
      || MainEnabled(path[|acts|])
      || (path[|acts|].main.pc.Join? && path[|acts|].main.pc.k < path[0].n
          && WorkerEnabled(path[|acts|], path[|acts|].main.pc.k))
  {
    RunInv(run, j);
    TrackDrop(path, acts, |acts|);
    WorkersLeave(path, acts);
    MainLeaves(path, acts);
    if path[|acts|].main.pc != Dropped { DropCanStep(path[|acts|]); }
  }

  lemma WorkersLeave(path: seq<State>, acts: seq<Action>)
    requires IsSchedule(path, acts) && Inv(path[0]) && Unwinding(path, acts, |acts|)
    ensures forall i | 0 <= i < path[0].n && Turns(acts, |acts|, WorkerStep(i)) >= ExitDistance(path[0], i) ::
      path[|acts|].workers[i].pc == Exited
  {
    forall i | 0 <= i < path[0].n && Turns(acts, |acts|, WorkerStep(i)) >= ExitDistance(path[0], i)
      ensures path[|acts|].workers[i].pc == Exited
    {
      assert Leaves(path, acts, |acts|, i);
      GoneAtZero(path[|acts|], i);
    }
  }

  lemma GoneAtZero(s: State, i: nat)
    requires WellSized(s) && i < s.n && ExitDistance(s, i) == 0
    ensures s.workers[i].pc == Exited
  {
  }

  lemma MainLeaves(path: seq<State>, acts: seq<Action>)
    requires IsSchedule(path, acts) && Inv(path[0]) && Unwinding(path, acts, |acts|)
    ensures Turns(acts, |acts|, MainStep) >= DropDistance(path[0]) ==>
      path[|acts|].main.pc == Dropped && forall i | 0 <= i < path[0].n :: path[|acts|].workers[i].pc == Exited
  {
    var t := path[|acts|];
    if Turns(acts, |acts|, MainStep) >= DropDistance(path[0]) {
      assert DropDistance(t) == 0;
      AllJoined(t);
    }
  }

  lemma AllJoined(t: State)
    requires ShapeInv(t) && DropInv(t) && InDrop(t.main.pc) && DropDistance(t) == 0
    ensures t.main.pc == Dropped && forall i | 0 <= i < t.n :: t.workers[i].pc == Exited
  {
  }

  lemma DropCanStep(t: State)
    requires ShapeInv(t) && DropInv(t) && InDrop(t.main.pc) && t.main.pc != Dropped
    ensures MainEnabled(t) || (t.main.pc.Join? && t.main.pc.k < t.n && WorkerEnabled(t, t.main.pc.k))
  {
    if t.main.pc.Join? && t.main.pc.k < t.n && t.workers[t.main.pc.k].pc != Exited { ExitAdvances(t, t.main.pc.k); }
  }
}
