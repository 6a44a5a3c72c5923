/** The SpinPool dispatch protocol as a transition system.

    One dispatching thread and `n` workers share a handful of atomics. Every atomic load, store or
    fetch_add, every park, unpark and chunk execution is one step, and a run is any interleaving of
    those steps under sequential consistency. `History` holds auxiliary variables: steps write them,
    but no step of the protocol reads them. */
module SpinPool {

  const STAMP_SPAN: nat := 0x1_0000                  // 1 << ACTIVE_BITS
  const WORD_SPAN: nat := 0x1_0000_0000_0000_0000    // values of an AtomicU64
  const SEQ_LIMIT: nat := 0x1_0000_0000_0000         // sequence numbers that fit above the stamp

  /** One unit of dispatched work: `work_fn(ctx, c)` for every `c < chunks`. */
  datatype Item = Item(fn: nat, ctx: nat, chunks: nat)

  /** One execution of a work function. */
  datatype Ran = Ran(fn: nat, ctx: nat, chunk: nat)

  /** A completed item and everything that ran since the previous completion. */
  datatype Record = Record(item: Item, ran: multiset<Ran>)

  datatype StealPc = Out | LoadFn | LoadCtx | LoadTotal | Claim | RunChunk

  /** The registers of one thread inside `steal_work`. */
  datatype Thief = Thief(at: StealPc, fn: nat, ctx: nat, total: nat, chunk: nat)

  datatype WorkerPc =
    CheckShutdown | LoadGen | LoadActive | LoadBatch | Parked | Stealing | Bump | Exited

  datatype Worker = Worker(pc: WorkerPc, lastGen: nat, spins: nat, token: bool)

  datatype MainPc =
    | Idle | StoreFn | StoreCtx | StoreTotal | ResetNext | ResetDone
    | ReadActive | ReadGen | StoreGen
    | Unpark(k: nat) | MainSteal | Wait
    | DropGen | DropUnpark(k: nat) | Join(k: nat) | Dropped

  datatype Main = Main(pc: MainPc, items: seq<Item>, first: bool, pub: nat, seqNo: nat, active: nat)

  datatype Shared = Shared(
    generation: nat, nextChunk: nat, doneCount: nat, totalChunks: nat,
    workFn: nat, workCtx: nat, shutdown: bool, batchMode: bool, activeWorkers: nat)

  datatype History = History(
    published: nat,          // generations published so far
    holder: seq<nat>,        // holder[c] is the thread that claimed chunk c of the current item
    overshot: set<nat>,      // threads whose claim of the current item came back past the end
    finishers: set<nat>,     // workers that reported done for the current item
    ran: multiset<Ran>,      // executions since the last completed item
    finished: seq<Record>)   // completed items

  /** Thread ids: worker `i` is `i`, the dispatching thread is `n`. */
  datatype State = State(
    n: nat, sh: Shared, main: Main, workers: seq<Worker>, thieves: seq<Thief>, hist: History)

  datatype Action =
    | WorkerStep(i: nat)        // the next step of worker i
    | SpuriousWake(i: nat)      // thread::park may return without a token
    | MainStep                  // the next step of the operation under way
    | Begin(items: seq<Item>)   // dispatch (one item) or dispatch_batch
    | SetActive(m: nat)         // set_active_workers
    | SetBatch(on: bool)        // begin_batch / end_batch
    | Shutdown                  // Drop

  const NoThief: Thief := Thief(Out, 0, 0, 0, 0)

  function Initial(n: nat): State {
    State(n,
          Shared(0, 0, 0, 0, 0, 0, false, false, n),
          Main(Idle, [], true, 0, 0, 0),
          seq(n, _ => Worker(CheckShutdown, 0, 0, false)),
          seq(n + 1, _ => NoThief),
          History(0, [], {}, {}, multiset{}, []))
  }

  predicate WellSized(s: State) {
    |s.workers| == s.n && |s.thieves| == s.n + 1
  }

  function Stamp(s: State): nat {
    s.sh.generation % STAMP_SPAN
  }

  // ----- phases of the dispatching thread

  /** Program order of the steps before an item is published; later steps rank highest. */
  function Rank(pc: MainPc): nat {
    match pc
    case Idle => 0
    case StoreFn => 1
    case StoreCtx => 2
    case StoreTotal => 3
    case ResetNext => 4
    case ResetDone => 5
    case ReadActive => 6
    case ReadGen => 7
    case StoreGen => 8
    case _ => 9
  }

  predicate InSetup(pc: MainPc) {
    Rank(pc) <= 8
  }

  predicate InLive(pc: MainPc) {
    pc.Unpark? || pc == MainSteal || pc == Wait
  }

  predicate InDrop(pc: MainPc) {
    pc == DropGen || pc.DropUnpark? || pc.Join? || pc == Dropped
  }

  // ----- steps

  /** One step of `steal_work` by thread `id`. */
  function StealNext(s: State, id: nat): State
    requires WellSized(s) && id <= s.n && s.thieves[id].at != Out
  {
    var t := s.thieves[id];
    match t.at
    case LoadFn => s.(thieves := s.thieves[id := t.(at := LoadCtx, fn := s.sh.workFn)])
    case LoadCtx => s.(thieves := s.thieves[id := t.(at := LoadTotal, ctx := s.sh.workCtx)])
    case LoadTotal => s.(thieves := s.thieves[id := t.(at := Claim, total := s.sh.totalChunks)])
    case Claim =>
      var c := s.sh.nextChunk;
      var sh := s.sh.(nextChunk := c + 1);
      if c >= t.total then
        s.(sh := sh, thieves := s.thieves[id := t.(at := Out, chunk := c)],
           hist := s.hist.(overshot := s.hist.overshot + {id}))
      else
        s.(sh := sh, thieves := s.thieves[id := t.(at := RunChunk, chunk := c)],
           hist := s.hist.(holder := s.hist.holder + [id]))
    case RunChunk =>
      s.(thieves := s.thieves[id := t.(at := Claim)],
         hist := s.hist.(ran := s.hist.ran + multiset{Ran(t.fn, t.ctx, t.chunk)}))
  }

  predicate WorkerEnabled(s: State, i: nat) {
    WellSized(s) && i < s.n && s.workers[i].pc != Exited
    && (s.workers[i].pc == Parked ==> s.workers[i].token)
    && (s.workers[i].pc == Stealing ==> s.thieves[i].at != Out)
  }

  function SetWorker(s: State, i: nat, w: Worker): State
    requires i < |s.workers|
  {
    s.(workers := s.workers[i := w])
  }

  /** The next step of `worker_loop` in worker `i`. */
  function WorkerNext(s: State, i: nat): State
    requires WorkerEnabled(s, i)
  {
    var w := s.workers[i];
    match w.pc
    case CheckShutdown => SetWorker(s, i, w.(pc := if s.sh.shutdown then Exited else LoadGen))
    case LoadGen =>
      var g := s.sh.generation;
      if g == w.lastGen then
        SetWorker(s, i, w.(pc := LoadActive, spins := w.spins + 1))
      else if i < g % STAMP_SPAN then
        SetWorker(s, i, w.(pc := Stealing, lastGen := g))
          .(thieves := s.thieves[i := s.thieves[i].(at := LoadFn)])
      else
        SetWorker(s, i, w.(pc := CheckShutdown, lastGen := g, spins := 500))
    case LoadActive =>
      if w.spins < 500 then SetWorker(s, i, w.(pc := CheckShutdown))
      else SetWorker(s, i, w.(pc := if i < s.sh.activeWorkers then LoadBatch else Parked))
    case LoadBatch =>
      if s.sh.batchMode then
        SetWorker(s, i, w.(pc := CheckShutdown, spins := if w.spins > 500 then 500 else w.spins))
      else
        SetWorker(s, i, w.(pc := Parked))
    case Parked => SetWorker(s, i, w.(pc := CheckShutdown, spins := 0, token := false))
    case Stealing =>
      var s' := StealNext(s, i);
      if s'.thieves[i].at == Out then SetWorker(s', i, w.(pc := Bump)) else s'
    case Bump =>
      SetWorker(s, i, w.(pc := CheckShutdown, spins := 0))
        .(sh := s.sh.(doneCount := s.sh.doneCount + 1),
          hist := s.hist.(finishers := s.hist.finishers + {i}))
  }

  predicate MainEnabled(s: State) {
    WellSized(s)
    && s.main.pc != Idle && s.main.pc != Dropped
    && (InSetup(s.main.pc) || InLive(s.main.pc) ==> s.main.items != [])
    && (s.main.pc == MainSteal ==> s.thieves[s.n].at != Out)
    && (s.main.pc.Unpark? ==> s.main.active <= s.n)
    && (s.main.pc.Join? && s.main.pc.k < s.n ==> s.workers[s.main.pc.k].pc == Exited)
  }

  /** The next step of the dispatching thread inside `dispatch`, `dispatch_batch` or `drop`. */
  function MainNext(s: State): State
    requires MainEnabled(s)
  {
    var m := s.main;
    match m.pc
    case StoreFn => s.(sh := s.sh.(workFn := m.items[0].fn), main := m.(pc := StoreCtx))
    case StoreCtx => s.(sh := s.sh.(workCtx := m.items[0].ctx), main := m.(pc := StoreTotal))
    case StoreTotal => s.(sh := s.sh.(totalChunks := m.items[0].chunks), main := m.(pc := ResetNext))
    case ResetNext => s.(sh := s.sh.(nextChunk := 0), main := m.(pc := ResetDone))
    case ResetDone => s.(sh := s.sh.(doneCount := 0), main := m.(pc := ReadActive))
    case ReadActive => s.(main := m.(pc := ReadGen, pub := s.sh.activeWorkers))
    case ReadGen => s.(main := m.(pc := StoreGen, seqNo := s.sh.generation / STAMP_SPAN + 1))
    case StoreGen =>
      s.(sh := s.sh.(generation := (m.seqNo * STAMP_SPAN) % WORD_SPAN + m.pub),
         main := m.(pc := Unpark(0), first := false, active := if m.first then m.pub else m.active),
         hist := s.hist.(published := s.hist.published + 1,
                         holder := [], overshot := {}, finishers := {}))
    case Unpark(k) =>
      if k < m.active then
        SetWorker(s, k, s.workers[k].(token := true)).(main := m.(pc := Unpark(k + 1)))
      else
        s.(main := m.(pc := MainSteal), thieves := s.thieves[s.n := s.thieves[s.n].(at := LoadFn)])
    case MainSteal =>
      var s' := StealNext(s, s.n);
      if s'.thieves[s.n].at == Out then s'.(main := m.(pc := Wait)) else s'
    case Wait =>
      if s.sh.doneCount < m.active then s
      else
        s.(main := m.(pc := if |m.items| == 1 then Idle else StoreFn, items := m.items[1..]),
           hist := s.hist.(ran := multiset{},
                           finished := s.hist.finished + [Record(m.items[0], s.hist.ran)]))
    case DropGen =>
      s.(sh := s.sh.(generation := (s.sh.generation + STAMP_SPAN) % WORD_SPAN),
         main := m.(pc := DropUnpark(0)))
    case DropUnpark(k) =>
      if k < s.n then
        SetWorker(s, k, s.workers[k].(token := true)).(main := m.(pc := DropUnpark(k + 1)))
      else
        s.(main := m.(pc := Join(0)))
    case Join(k) => s.(main := m.(pc := if k < s.n then Join(k + 1) else Dropped))
  }

  predicate Enabled(s: State, a: Action) {
    WellSized(s) &&
    match a
    case WorkerStep(i) => WorkerEnabled(s, i)
    case SpuriousWake(i) => i < s.n && s.workers[i].pc == Parked
    case MainStep => MainEnabled(s)
    case Begin(items) => s.main.pc == Idle && items != []
    case SetActive(_) => s.main.pc == Idle
    case SetBatch(_) => s.main.pc != Dropped
    case Shutdown => s.main.pc == Idle
  }

  function Next(s: State, a: Action): State
    requires Enabled(s, a)
  {
    match a
    case WorkerStep(i) => WorkerNext(s, i)
    case SpuriousWake(i) => SetWorker(s, i, s.workers[i].(pc := CheckShutdown, spins := 0))
    case MainStep => MainNext(s)
    case Begin(items) => s.(main := s.main.(pc := StoreFn, items := items, first := true))
    case SetActive(m) => s.(sh := s.sh.(activeWorkers := if m < s.n then m else s.n))
    case SetBatch(on) => s.(sh := s.sh.(batchMode := on))
    case Shutdown => s.(sh := s.sh.(shutdown := true), main := s.main.(pc := DropGen))
  }

  /** `path` is a run of the pool: it starts fresh and every step is an enabled action. */
  ghost predicate IsRun(path: seq<State>) {
    path != [] && path[0] == Initial(path[0].n) && path[0].n < STAMP_SPAN && IsPath(path)
  }

  ghost predicate IsPath(path: seq<State>) {
    forall j :: 0 < j < |path| ==> StepAt(path, j)
  }

  ghost predicate StepAt(path: seq<State>, j: int)
    requires 0 < j < |path|
  {
    StepsTo(path[j - 1], path[j])
  }

  ghost predicate StepsTo(s: State, s': State) {
    exists a :: Enabled(s, a) && s' == Next(s, a)
  }
}
