/** What a call hands over is what runs: the items of a dispatch, and the number of workers asked for. */
module SpinPoolBatch {
  import opened SpinPool
  import opened SpinPoolInvariant
  import opened SpinPoolTheorems
  import opened SpinPoolFairness

  /** The dispatching thread is inside one call from state `from` up to, not including, state `to`. */
  ghost predicate Busy(path: seq<State>, from: nat, to: nat) {
    forall x | from <= x < to && x < |path| :: path[x].main.pc != Idle
  }

  /** `done` of the items have their records behind `before`, the rest are still to come. */
  ghost predicate Through(items: seq<Item>, before: seq<Record>, s: State, done: nat) {
    && done <= |items| && |s.hist.finished| == |before| + done && s.hist.finished[..|before|] == before
    && (forall x | 0 <= x < done :: s.hist.finished[|before| + x].item == items[x])
    && s.main.items == items[done..] && !InDrop(s.main.pc) && (s.main.pc == Idle <==> done == |items|)
  }

  lemma StepThrough(items: seq<Item>, before: seq<Record>, s: State, t: State, done: nat) returns (done': nat)
    requires Through(items, before, s, done) && s.main.pc != Idle && StepsTo(s, t)
    ensures Through(items, before, t, done')
  {
    if t.hist.finished == s.hist.finished {
      QuietStep(s, t);
      done' := done;
    } else {
      OnlyCompletionRecords(s, t);
      CompletingStep(s, t);
      done' := done + 1;
    }
  }

  lemma QuietStep(s: State, t: State)
    requires StepsTo(s, t) && t.hist.finished == s.hist.finished && s.main.pc != Idle && !InDrop(s.main.pc)
    ensures t.main.items == s.main.items && t.main.pc != Idle && !InDrop(t.main.pc)
  {
  }

  lemma CompletingStep(s: State, t: State)
    requires StepsTo(s, t) && t.hist.finished != s.hist.finished
    ensures !InDrop(t.main.pc) && s.main.items != [] && (t.main.pc == Idle <==> |s.main.items| == 1)
  {
  }

  lemma {:induction false} Progress(path: seq<State>, j: nat, k: nat, items: seq<Item>) returns (done: nat)
    requires IsRun(path) && j < k < |path| && Busy(path, j + 1, k)
    requires Enabled(path[j], Begin(items)) && path[j + 1] == Next(path[j], Begin(items))
    ensures Through(items, path[j].hist.finished, path[k], done)
  {
    if k == j + 1 {
      done := 0;
    } else {
      var n := Progress(path, j, k - 1, items);
      assert StepAt(path, k);
      done := StepThrough(items, path[j].hist.finished, path[k - 1], path[k], n);
    }
  }

  /**
   * From a call with `items` up to the first return to Idle: the records added are those of the items
   * handed over, in their order, each chunk of each run exactly once; when the call returns, of all.
   */
  lemma BatchRunsItsItems(path: seq<State>, j: nat, k: nat, items: seq<Item>)
    requires IsRun(path) && j < k < |path| && Busy(path, j + 1, k) && path[k].hist.published <= SEQ_LIMIT
    requires Enabled(path[j], Begin(items)) && path[j + 1] == Next(path[j], Begin(items))
    ensures var (before, now) := (path[j].hist.finished, path[k].hist.finished);
      && |before| <= |now| <= |before| + |items| && now[..|before|] == before
      && (forall x | 0 <= x < |now| - |before| ::
            now[|before| + x].item == items[x] && ExactlyOnce(items[x], now[|before| + x].ran))
      && (path[k].main.pc == Idle <==> |now| == |before| + |items|)
  {
    var done := Progress(path, j, k, items);
    DispatchRunsEveryChunkOnce(path, k);
  }

  /** The workers of every item are as many as the last `set_active_workers` asked for and the pool has. */
  lemma {:induction false} RequestedWorkersServe(path: seq<State>, acts: seq<Action>, j: nat, k: nat, m: nat)
    requires IsSchedule(path, acts) && IsRun(path) && j < k <= |acts| && path[k].hist.published <= SEQ_LIMIT
    requires acts[j] == SetActive(m) && forall x | j < x < k :: !acts[x].SetActive?
    ensures path[k].n == path[j].n && path[k].sh.activeWorkers == if m < path[j].n then m else path[j].n
    ensures InLive(path[k].main.pc) ==> path[k].main.active == Stamp(path[k]) == path[k].sh.activeWorkers
  {
    RunInv(path, k);
    assert TakenAt(path, acts, k - 1);
    if j < k - 1 {
      assert StepAt(path, k);
      PublishedGrows(path[k - 1], path[k]);
      RequestedWorkersServe(path, acts, j, k - 1, m);
      OthersLeaveTheRequest(path[k - 1], acts[k - 1]);
    }
  }

  lemma OthersLeaveTheRequest(s: State, a: Action)
    requires Enabled(s, a) && !a.SetActive?
    ensures Next(s, a).sh.activeWorkers == s.sh.activeWorkers && Next(s, a).n == s.n
  {
  }

  /** Until someone asks for fewer, every item is served by all the workers of the pool. */
  lemma {:induction false} AllWorkersServeByDefault(path: seq<State>, acts: seq<Action>, k: nat)
    requires IsSchedule(path, acts) && IsRun(path) && k <= |acts| && path[k].hist.published <= SEQ_LIMIT
    requires forall x | 0 <= x < k :: !acts[x].SetActive?
    ensures path[k].n == path[0].n && path[k].sh.activeWorkers == path[0].n
    ensures InLive(path[k].main.pc) ==> path[k].main.active == Stamp(path[k]) == path[0].n
  {
    RunInv(path, k);
    if k > 0 {
      assert TakenAt(path, acts, k - 1) && StepAt(path, k);
      PublishedGrows(path[k - 1], path[k]);
      AllWorkersServeByDefault(path, acts, k - 1);
      OthersLeaveTheRequest(path[k - 1], acts[k - 1]);
    }
  }
}
