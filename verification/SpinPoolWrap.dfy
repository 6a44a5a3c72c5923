/** Why the sequence number matters: after 2^48 publishes a generation word comes round again, and a
    worker that slept through them all takes the new one for the one it has already served. */
module SpinPoolWrap {
  import opened SpinPool
  import opened SpinPoolInvariant
  import opened SpinPoolTheorems
  import opened SpinPoolProgress

  /** The word of the first publish to one active worker. */
  const SEEN: nat := 0x1_0001

  /** A batch of one item without chunks still publishes a generation. */
  const NoChunks: Item := Item(0, 0, 0)

  lemma Then(s: State, t: State, a: Action)
    requires Reaches(s, t) && Enabled(t, a)
    ensures Reaches(s, Next(t, a))
  {
    ReachesSelf(Next(t, a));
    ReachesByStep(t, a, Next(t, a));
    ReachesTransitively(s, t, Next(t, a));
  }

  /** One worker that is not scheduled: it last saw generation `seen`. */
  ghost predicate Asleep(s: State, seen: nat) {
    && WellSized(s) && s.n == 1 && !s.sh.shutdown
    && s.workers[0].pc == CheckShutdown && s.workers[0].lastGen == seen && s.thieves[0].at == Out
  }

  /** Between dispatches, p publishes in, a workers active. */
  ghost predicate Between(s: State, seen: nat, p: nat, a: nat) {
    && Asleep(s, seen) && s.main.pc == Idle && s.thieves[1].at == Out && s.hist.published == p
    && s.sh.activeWorkers == a && s.sh.generation / STAMP_SPAN == p % SEQ_LIMIT
  }

  /** A dispatch of no chunks, about to store its generation. */
  ghost predicate Ready(s: State, seen: nat, p: nat, a: nat) {
    && Asleep(s, seen) && s.main.pc == StoreGen && s.main.items == [NoChunks] && s.main.first && s.thieves[1].at == Out
    && s.hist.published == p && s.sh.activeWorkers == a && s.main.pub == a && s.main.seqNo == p % SEQ_LIMIT + 1
    && s.sh.totalChunks == 0 && s.sh.nextChunk == 0 && s.sh.doneCount == 0
  }

  /** The dispatcher waits for the workers of publish p; what ran and who finished is on record. */
  ghost predicate Waiting(s: State, seen: nat, p: nat, a: nat) {
    && Asleep(s, seen) && s.main.pc == Wait && s.main.items == [NoChunks] && s.main.active == a
      && s.thieves[1].at == Out
    && s.hist.published == p && s.sh.activeWorkers == a && s.sh.generation == (p % SEQ_LIMIT) * STAMP_SPAN + a
    && s.sh.doneCount == 0 && s.sh.totalChunks == 0 && s.hist.finishers == {}
  }

  /** A dispatch of no chunks, its work stored and the claim counter reset. */
  ghost predicate Stored(s: State, seen: nat, p: nat, a: nat) {
    && Asleep(s, seen) && s.main.pc == ResetDone && s.main.items == [NoChunks] && s.main.first && s.thieves[1].at == Out
    && s.hist.published == p && s.sh.activeWorkers == a && s.sh.generation / STAMP_SPAN == p % SEQ_LIMIT
    && s.sh.totalChunks == 0 && s.sh.nextChunk == 0
  }

  lemma StoreWork(s: State, seen: nat, p: nat, a: nat) returns (t: State)
    requires Between(s, seen, p, a)
    ensures Reaches(s, t) && Stored(t, seen, p, a)
  {
    ReachesSelf(s);
    Then(s, s, Begin([NoChunks]));
    var s1 := Next(s, Begin([NoChunks]));
    Then(s, s1, MainStep);
    var s2 := MainNext(s1);
    Then(s, s2, MainStep);
    var s3 := MainNext(s2);
    Then(s, s3, MainStep);
    var s4 := MainNext(s3);
    Then(s, s4, MainStep);
    t := MainNext(s4);
  }

  lemma Prepare(s: State, seen: nat, p: nat, a: nat) returns (t: State)
    requires Between(s, seen, p, a)
    ensures Reaches(s, t) && Ready(t, seen, p, a)
  {
    var s1 := StoreWork(s, seen, p, a);
    t := ReadStamp(s1, seen, p, a);
    ReachesTransitively(s, s1, t);
  }

  lemma ReadStamp(s: State, seen: nat, p: nat, a: nat) returns (t: State)
    requires Stored(s, seen, p, a)
    ensures Reaches(s, t) && Ready(t, seen, p, a)
  {
    ReachesSelf(s);
    Then(s, s, MainStep);
    var s1 := MainNext(s);
    Then(s, s1, MainStep);
    var s2 := MainNext(s1);
    Then(s, s2, MainStep);
    t := MainNext(s2);
  }

  lemma Publish(s: State, seen: nat, p: nat, a: nat) returns (t: State)
    requires Ready(s, seen, p, a) && a <= 1
    ensures Reaches(s, t) && Published(t, seen, p + 1, a) && t.main.pc == MainSteal && t.thieves[1].at == LoadFn
  {
    SequenceWraps(p);
    ReachesSelf(s);
    Then(s, s, MainStep);
    var s1 := MainNext(s);
    Then(s, s1, MainStep);
    t := MainNext(s1);
    if a == 1 {
      Then(s, t, MainStep);
      t := MainNext(t);
    }
  }

  ghost predicate Published(s: State, seen: nat, p: nat, a: nat) {
    && Asleep(s, seen) && s.main.items == [NoChunks] && s.main.active == a
    && s.hist.published == p && s.sh.activeWorkers == a && s.sh.generation == (p % SEQ_LIMIT) * STAMP_SPAN + a
    && s.sh.doneCount == 0 && s.sh.totalChunks == 0 && s.hist.finishers == {}
  }

  lemma StealNothing(s: State, seen: nat, p: nat, a: nat) returns (t: State)
    requires Published(s, seen, p, a) && s.main.pc == MainSteal && s.thieves[1].at == LoadFn
    ensures Reaches(s, t) && Waiting(t, seen, p, a)
  {
    ReachesSelf(s);
    Then(s, s, MainStep);
    var s1 := MainNext(s);
    Then(s, s1, MainStep);
    var s2 := MainNext(s1);
    Then(s, s2, MainStep);
    var s3 := MainNext(s2);
    Then(s, s3, MainStep);
    t := MainNext(s3);
  }

  /** A dispatch up to its wait. */
  lemma DispatchUntilWait(s: State, seen: nat, p: nat, a: nat) returns (t: State)
    requires Between(s, seen, p, a) && a <= 1
    ensures Reaches(s, t) && Waiting(t, seen, p + 1, a)
  {
    var s1 := Prepare(s, seen, p, a);
    var s2 := Publish(s1, seen, p, a);
    t := StealNothing(s2, seen, p + 1, a);
    ReachesTransitively(s, s1, s2);
    ReachesTransitively(s, s2, t);
  }

  /** With no active worker, a dispatch completes on its own. */
  lemma DispatchAlone(s: State, seen: nat, p: nat) returns (t: State)
    requires Between(s, seen, p, 0)
    ensures Reaches(s, t) && Between(t, seen, p + 1, 0)
  {
    var s1 := DispatchUntilWait(s, seen, p, 0);
    Then(s, s1, MainStep);
    t := MainNext(s1);
  }

  lemma {:induction false} DispatchMany(s: State, seen: nat, p: nat, n: nat) returns (t: State)
    requires Between(s, seen, p, 0)
    ensures Reaches(s, t) && Between(t, seen, p + n, 0)
    decreases n
  {
    if n == 0 {
      t := s;
      ReachesSelf(s);
    } else {
      var s1 := DispatchAlone(s, seen, p);
      t := DispatchMany(s1, seen, p + 1, n - 1);
      ReachesTransitively(s, s1, t);
    }
  }

  /** The worker serves the first dispatch, and from then on is left alone. */
  lemma ServeOnce(s: State) returns (t: State)
    requires Waiting(s, 0, 1, 1)
    ensures Reaches(s, t) && Between(t, SEEN, 1, 0)
  {
    ReachesSelf(s);
    Then(s, s, WorkerStep(0));
    var s1 := WorkerNext(s, 0);
    Then(s, s1, WorkerStep(0));
    var s2 := WorkerNext(s1, 0);
    Then(s, s2, WorkerStep(0));
    var s3 := WorkerNext(s2, 0);
    Then(s, s3, WorkerStep(0));
    var s4 := WorkerNext(s3, 0);
    var s5 := FinishServing(s4);
    ReachesTransitively(s, s4, s5);
    Then(s, s5, MainStep);
    var s6 := MainNext(s5);
    Then(s, s6, SetActive(0));
    t := Next(s6, SetActive(0));
  }

  lemma FinishServing(s: State) returns (t: State)
    requires WellSized(s) && s.n == 1 && !s.sh.shutdown && s.main.pc == Wait && s.main.active == 1
      && s.main.items == [NoChunks]
    requires s.workers[0].pc == Stealing && s.workers[0].lastGen == SEEN && s.thieves[0].at == LoadTotal
      && s.thieves[1].at == Out
    requires s.sh.generation == SEEN && s.sh.totalChunks == 0 && s.sh.doneCount == 0 && s.hist.published == 1
    ensures Reaches(s, t) && Asleep(t, SEEN) && t.main == s.main && t.sh.doneCount == 1 && t.thieves[1].at == Out
    ensures t.sh.generation == SEEN && t.hist.published == 1
  {
    ReachesSelf(s);
    Then(s, s, WorkerStep(0));
    var s1 := WorkerNext(s, 0);
    Then(s, s1, WorkerStep(0));
    var s2 := WorkerNext(s1, 0);
    Then(s, s2, WorkerStep(0));
    t := WorkerNext(s2, 0);
  }

  /** The dispatcher waits for a worker that holds the very word it is waiting to see change. */
  ghost predicate Stuck(s: State) {
    && WellSized(s) && s.n == 1 && !s.sh.shutdown && s.main.pc == Wait && s.main.active == 1 && s.sh.doneCount == 0
    && !Working(s.workers[0].pc) && s.workers[0].pc != Exited && s.workers[0].lastGen == s.sh.generation
    && 0 !in s.hist.finishers
  }

  lemma StuckStays(s: State, t: State)
    requires Stuck(s) && StepsTo(s, t)
    ensures Stuck(t)
  {
  }

  lemma {:induction false} StuckForever(path: seq<State>, j: nat)
    requires path != [] && Stuck(path[0]) && IsPath(path) && j < |path|
    ensures Stuck(path[j])
  {
    if j > 0 {
      StuckForever(path, j - 1);
      assert StepAt(path, j);
      StuckStays(path[j - 1], path[j]);
    }
  }

  /**
   * A run of one worker whose dispatcher waits for ever: the worker is counted on, has not taken
   * part, and no schedule from there lets it.
   */
  lemma WrapLosesAWorker() returns (s: State)
    ensures Reaches(Initial(1), s) && s.hist.published == SEQ_LIMIT + 1
    ensures Stuck(s) && forall t | Reaches(s, t) :: t.main.pc == Wait && t.sh.doneCount < t.main.active
  {
    var s0 := Initial(1);
    var s3 := ServeThenSleep();
    Then(s0, s3, SetActive(1));
    var s4 := Next(s3, SetActive(1));
    s := DispatchUntilWait(s4, SEEN, SEQ_LIMIT, 1);
    ReachesTransitively(s0, s4, s);
    forall t | Reaches(s, t) ensures Stuck(t) {
      var path :| Connects(path, s, t);
      StuckForever(path, |path| - 1);
    }
  }

  lemma ServeThenSleep() returns (s: State)
    ensures Reaches(Initial(1), s) && Between(s, SEEN, SEQ_LIMIT, 0)
  {
    var s0 := Initial(1);
    var s1 := DispatchUntilWait(s0, 0, 0, 1);
    var s2 := ServeOnce(s1);
    s := DispatchMany(s2, SEEN, 1, SEQ_LIMIT - 1);
    ReachesTransitively(s0, s1, s2);
    ReachesTransitively(s0, s2, s);
  }

  // ----- the exact limit

  /** An active worker of the item under way that holds its word has taken part, or is doing so. */
  ghost predicate KnowsItsTurn(s: State) {
    WellSized(s) && (InLive(s.main.pc) ==>
      forall i | 0 <= i < s.n && i < s.main.active && s.workers[i].lastGen == s.sh.generation ::
        Working(s.workers[i].pc) || i in s.hist.finishers)
  }

  /** Some state of some run, at most n publishes in, is not as KnowsItsTurn says. */
  ghost predicate FailsWithin(n: nat) {
    exists path: seq<State>, j | IsRun(path) && 0 <= j < |path| :: path[j].hist.published <= n && !KnowsItsTurn(path[j])
  }

  /** Every run of at most n publishes keeps every worker's turn exactly when n is at most 2^48. */
  lemma TurnsAreKeptUpToTheWrap(n: nat)
    ensures !FailsWithin(n) <==> n <= SEQ_LIMIT
  {
    if n <= SEQ_LIMIT {
      forall path: seq<State>, j | IsRun(path) && 0 <= j < |path| && path[j].hist.published <= n
        ensures KnowsItsTurn(path[j])
      {
        RunInv(path, j);
      }
    } else {
      var s := WrapLosesAWorker();
      var path :| Connects(path, Initial(1), s);
      assert IsRun(path) && path[|path| - 1] == s && !KnowsItsTurn(s);
    }
  }
}
