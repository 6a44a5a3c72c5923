/** What the invariant means for whole runs of the pool. */
module SpinPoolTheorems {
  import opened SpinPool
  import opened SpinPoolInvariant

  lemma InitialInv(n: nat)
    requires n < STAMP_SPAN
    ensures Inv(Initial(n))
  {
  }

  lemma StepKeepsInv(s: State, t: State)
    requires Inv(s) && StepsTo(s, t) && t.hist.published <= SEQ_LIMIT
    ensures Inv(t)
  {
    var a :| Enabled(s, a) && t == Next(s, a);
    ActionKeepsInv(s, a);
  }

  lemma PublishedGrows(s: State, t: State)
    requires StepsTo(s, t)
    ensures s.hist.published <= t.hist.published
  {
  }

  /** Every state of every run satisfies the invariant, up to the 2^48th publish. */
  lemma {:induction false} RunInv(path: seq<State>, j: nat)
    requires IsRun(path) && j < |path| && path[j].hist.published <= SEQ_LIMIT
    ensures Inv(path[j])
  {
    if j == 0 {
      InitialInv(path[0].n);
    } else {
      assert StepAt(path, j);
      PublishedGrows(path[j - 1], path[j]);
      RunInv(path, j - 1);
      StepKeepsInv(path[j - 1], path[j]);
    }
  }

  lemma OnlyCompletionRecords(s: State, t: State)
    requires StepsTo(s, t) && s.hist.finished != t.hist.finished
    ensures s.main.pc == Wait && s.sh.doneCount >= s.main.active && s.main.items != []
    ensures t.thieves == s.thieves && t.n == s.n && t.main.items == s.main.items[1..]
    ensures t.hist.finished == s.hist.finished + [Record(s.main.items[0], s.hist.ran)]
  {
  }

  /** Whenever an item completes, every chunk of it has run exactly once with its own function and
      context, nothing else has run, and no thread is inside `steal_work`. */
  lemma DispatchRunsEveryChunkOnce(path: seq<State>, j: nat)
    requires IsRun(path) && 0 < j < |path| && path[j].hist.published <= SEQ_LIMIT
    ensures forall k | 0 <= k < |path[j].hist.finished| ::
      ExactlyOnce(path[j].hist.finished[k].item, path[j].hist.finished[k].ran)
    ensures path[j].hist.finished != path[j - 1].hist.finished ==>
      var (s, t) := (path[j - 1], path[j]);
      && s.main.items != []
      && t.hist.finished == s.hist.finished + [Record(s.main.items[0], s.hist.ran)]
      && ExactlyOnce(s.main.items[0], s.hist.ran)
      && |t.thieves| == t.n + 1 && (forall id | 0 <= id <= t.n :: t.thieves[id].at == Out)
      && t.main.items == s.main.items[1..]
  {
    var (s, t) := (path[j - 1], path[j]);
    assert StepAt(path, j);
    PublishedGrows(s, t);
    RunInv(path, j - 1);
    RunInv(path, j);
    if t.hist.finished != s.hist.finished {
      OnlyCompletionRecords(s, t);
      CompletionIsQuiet(s);
    }
  }

  /** No lost wakeup: while an item is under way, an active worker that has not seen its generation
      is never parked without a token unless its unpark is still to come. */
  lemma NoLostWakeup(path: seq<State>, j: nat, i: nat)
    requires IsRun(path) && j < |path| && path[j].hist.published <= SEQ_LIMIT
    requires InLive(path[j].main.pc) && i < path[j].main.active
    ensures i < |path[j].workers|
    ensures path[j].workers[i].pc == Parked && !path[j].workers[i].token ==>
      path[j].workers[i].lastGen == path[j].sh.generation ||
      (path[j].main.pc.Unpark? && path[j].main.pc.k <= i)
    ensures path[j].main.pc == Wait && path[j].workers[i].lastGen != path[j].sh.generation ==>
      WorkerEnabled(path[j], i)
  {
    RunInv(path, j);
  }

  /** The counters of the item under way: who may be counted, and how far each can get. */
  lemma CountersAreBounded(path: seq<State>, j: nat)
    requires IsRun(path) && j < |path| && path[j].hist.published <= SEQ_LIMIT
    requires InLive(path[j].main.pc)
    ensures var s := path[j];
      && s.sh.doneCount <= Stamp(s) == s.main.active <= |s.workers| == s.n
      && s.sh.nextChunk <= s.sh.totalChunks + s.main.active + 1
      && (forall i | Stamp(s) <= i < s.n :: !Working(s.workers[i].pc))
  {
    var s := path[j];
    RunInv(path, j);
    FullSet(s.hist.finishers, s.main.active);
    var overshot := s.hist.overshot - {s.n};
    FullSet(overshot, s.main.active);
    assert s.hist.overshot == overshot || s.hist.overshot == overshot + {s.n};
  }

  /** Between dispatches the claim counter is past the end, so the generation `Drop` publishes hands
      out nothing: no chunk runs after shutdown begins, woken workers are never parked for good, and
      when `drop` returns every worker has exited. */
  lemma ShutdownIsSafe(path: seq<State>, j: nat)
    requires IsRun(path) && j < |path| && path[j].hist.published <= SEQ_LIMIT
    ensures var s := path[j];
      && (s.main.pc == Idle || InDrop(s.main.pc) ==>
            s.sh.nextChunk >= s.sh.totalChunks && s.hist.ran == multiset{})
      && |s.workers| == s.n
      && (s.main.pc.Join? ==> forall i | 0 <= i < s.n && s.workers[i].pc == Parked :: s.workers[i].token)
      && (s.main.pc == Dropped ==> forall i | 0 <= i < s.n :: s.workers[i].pc == Exited)
  {
    RunInv(path, j);
  }
}
