/**
 The render worker pool as a system of interleaved steps.

 One program counter per worker and one for the calling ("main") thread; the
 startup mutex and condition variable; two barriers of `n + 1` parties, each a
 count and a phase. A run is any sequence of enabled actions: the scheduler,
 thread-creation failures and spurious condition wakeups are all free choices.
 */
module WorkerPool {
  import opened Arith

  const MAX_WORKERS: nat := 8
  const INT_MAX: int := 0x7fff_ffff

  /** The pixels of one row. */
  type Row = seq<int>

  /** A row-local job: what it leaves in one row, given the slot, generation and row. */
  type RowJob = (nat, nat, nat) -> Row

  /** Worker count and row count fixed by init. The band products must fit a C int. */
  datatype Config = Config(n: nat, rows: nat) {
    ghost predicate Valid() {
      1 <= n <= MAX_WORKERS && 0 < rows && n * rows <= INT_MAX
    }
  }

  datatype Request = Request(job: RowJob, slots: seq<nat>, generation: nat)

  /** One invocation `job(slot, first, end, generation)`. */
  datatype Call = Call(job: RowJob, slot: nat, first: nat, end: nat, generation: nat)

  /** Program counters of `worker_main`. */
  datatype Worker =
    | NotCreated
    | GateLock
    | GateTest
    | GateWait
    | GateCount
    | GateSignal
    | GateUnlock
    | GateQuit
    | AtStart
    | InStart(ticket: nat)
    | TestExit
    | Load
    | Running(call: Call, next: nat)
    | AtStop
    | InStop(ticket: nat)
    | Exited

  /** Unwinding a failed init, joining the threads made so far. */
  datatype FailPc = FailLock | FailSet | FailUnlock | FailJoin(next: nat) | FailDestroy | FailDone

  /** Opening the startup gate once every thread exists. */
  datatype OpenPc = ReadyLock | ReadySet | ReadyTest | ReadyWait | ReadyRelock | ReadyUnlock

  datatype DispatchPc =
    | PutJob(request: Request)
    | PutSlots(request: Request)
    | PutGeneration(request: Request)
    | MainAtStart
    | MainInStart(ticket: nat)
    | MainAtStop
    | MainInStop(ticket: nat)

  datatype ClosePc = CloseSet | CloseAtStart | CloseInStart(ticket: nat) | CloseJoin(next: nat) | CloseDestroy | CloseDone

  /** The calling thread: in init (creating, failing or opening), between calls, in dispatch, in shutdown. */
  datatype Main =
    | Creating(index: nat)
    | Failing(made: nat, fail: FailPc)
    | Opening(open: OpenPc)
    | Idle
    | Dispatching(dispatch: DispatchPc)
    | Closing(close: ClosePc)

  datatype Owner = Free | ByMain | ByWorker(index: nat)

  datatype Barrier = Barrier(count: nat, phase: nat)

  /** `history` and `log` only observe: the requests dispatched and the calls each worker made. */
  datatype State = State(
    workers: seq<Worker>,
    main: Main,
    mutex: Owner,
    ready: bool,
    released: nat,
    shuttingDown: bool,
    start: Barrier,
    stop: Barrier,
    posted: Request,
    image: seq<Row>,
    destroyed: bool,
    history: seq<Request>,
    log: seq<seq<Call>>)

  datatype Action =
    | MainAct
    | WorkerAct(index: nat)
    | CreateFails
    | WakeMain
    | WakeWorker(index: nat)
    | Dispatch(request: Request)
    | Shutdown

  // ---------------------------------------------------------------- bands

  function BandStart(c: Config, worker: nat): nat
    requires c.n > 0
  {
    worker * c.rows / c.n
  }

  function CallFor(c: Config, request: Request, worker: nat): Call
    requires c.n > 0 && worker < |request.slots|
  {
    Call(request.job, request.slots[worker], BandStart(c, worker), BandStart(c, worker + 1), request.generation)
  }

  // -------------------------------------------------------------- barriers

  /** Arrival of one of `parties` threads; the last arrival resets the count and opens the phase. */
  function Arrive(b: Barrier, parties: nat): Barrier {
    if b.count + 1 == parties then Barrier(0, b.phase + 1) else Barrier(b.count + 1, b.phase)
  }

  // ------------------------------------------------------------- transitions

  ghost function Init(c: Config): State {
    State(seq(c.n, _ => NotCreated), Creating(0), Free, false, 0, false,
          Barrier(0, 0), Barrier(0, 0), Request((slot, generation, row) => [], seq(c.n, _ => 0), 0),
          seq(c.rows, _ => []), false, [], seq(c.n, _ => []))
  }

  function Woken(workers: seq<Worker>): (r: seq<Worker>)
    ensures |r| == |workers|
  {
    seq(|workers|, i requires 0 <= i < |workers| => if workers[i].GateWait? then GateLock else workers[i])
  }

  ghost function Broadcast(s: State): State {
    s.(workers := Woken(s.workers), main := if s.main == Opening(ReadyWait) then Opening(ReadyRelock) else s.main)
  }

  ghost predicate WorkerEnabled(s: State, i: nat) {
    i < |s.workers| &&
    match s.workers[i]
    case NotCreated => false
    case GateLock => s.mutex.Free?
    case GateWait => false
    case InStart(t) => t < s.start.phase
    case InStop(t) => t < s.stop.phase
    case Exited => false
    case _ => true
  }

  ghost predicate Shaped(c: Config, s: State) {
    && |s.workers| == |s.log| == |s.posted.slots| == c.n > 0
    && |s.image| == c.rows
  }

  /** A store to one row; the invariant shows the index is always inside the image. */
  function Store(image: seq<Row>, row: nat, value: Row): (r: seq<Row>)
    ensures |r| == |image|
  {
    if row < |image| then image[row := value] else image
  }

  ghost function SetWorker(s: State, i: nat, w: Worker): State
    requires i < |s.workers|
  {
    s.(workers := s.workers[i := w])
  }

  predicate InGate(w: Worker) {
    w.GateLock? || w.GateTest? || w.GateCount? || w.GateSignal? || w.GateUnlock? || w.GateQuit?
  }

  /** The startup gate, `worker_main` lines 25-34. */
  ghost function GateStep(s: State, i: nat): (t: State)
    requires WorkerEnabled(s, i) && InGate(s.workers[i])
    ensures t.main == s.main || (s.main == Opening(ReadyWait) && t.main == Opening(ReadyRelock))
  {
    match s.workers[i]
    case GateLock => SetWorker(s, i, GateTest).(mutex := ByWorker(i))
    case GateTest =>
      if !s.ready then SetWorker(s, i, GateWait).(mutex := Free)
      else if s.shuttingDown then SetWorker(s, i, GateQuit)
      else SetWorker(s, i, GateCount)
    case GateCount => SetWorker(s, i, GateSignal).(released := s.released + 1)
    case GateSignal => Broadcast(SetWorker(s, i, GateUnlock))
    case GateUnlock => SetWorker(s, i, AtStart).(mutex := Free)
    case GateQuit => SetWorker(s, i, Exited).(mutex := Free)
  }

  /** The render loop, `worker_main` lines 36-48. */
  ghost function LoopStep(c: Config, s: State, i: nat): (t: State)
    requires Shaped(c, s) && WorkerEnabled(s, i) && !InGate(s.workers[i])
    ensures t.main == s.main
  {
    match s.workers[i]
    case AtStart => SetWorker(s, i, InStart(s.start.phase)).(start := Arrive(s.start, c.n + 1))
    case InStart(_) => SetWorker(s, i, TestExit)
    case TestExit => SetWorker(s, i, if s.shuttingDown then Exited else Load)
    case Load =>
      var call := CallFor(c, s.posted, i);
      SetWorker(s, i, Running(call, call.first)).(log := s.log[i := s.log[i] + [call]])
    case Running(call, next) =>
      if next < call.end then
        SetWorker(s, i, Running(call, next + 1)).(
          image := Store(s.image, next, call.job(call.slot, call.generation, next)))
      else SetWorker(s, i, AtStop)
    case AtStop => SetWorker(s, i, InStop(s.stop.phase)).(stop := Arrive(s.stop, c.n + 1))
    case InStop(_) => SetWorker(s, i, AtStart)
  }

  ghost predicate HasExited(s: State, i: nat) {
    i < |s.workers| && s.workers[i].Exited?
  }

  ghost predicate MainEnabled(c: Config, s: State) {
    match s.main
    case Creating(_) => true
    case Failing(made, FailLock) => s.mutex.Free?
    case Failing(made, FailJoin(next)) => next < made ==> HasExited(s, next)
    case Failing(made, pc) => !pc.FailDone?
    case Opening(pc) => if pc.ReadyLock? || pc.ReadyRelock? then s.mutex.Free? else !pc.ReadyWait?
    case Idle => false
    case Dispatching(MainInStart(t)) => t < s.start.phase
    case Dispatching(MainInStop(t)) => t < s.stop.phase
    case Dispatching(_) => true
    case Closing(CloseInStart(t)) => t < s.start.phase
    case Closing(CloseJoin(next)) => next < c.n ==> HasExited(s, next)
    case Closing(pc) => !pc.CloseDone?
  }

  ghost function CreateStep(c: Config, s: State): State
    requires s.main.Creating? && |s.workers| == c.n
  {
    if s.main.index < c.n then SetWorker(s, s.main.index, GateLock).(main := Creating(s.main.index + 1))
    else s.(main := Opening(ReadyLock))
  }

  ghost function FailStep(s: State): State
    requires s.main.Failing? && !s.main.fail.FailDone?
  {
    var made := s.main.made;
    match s.main.fail
    case FailLock => s.(main := Failing(made, FailSet), mutex := ByMain)
    case FailSet => Broadcast(s.(main := Failing(made, FailUnlock), shuttingDown := true, ready := true))
    case FailUnlock => s.(main := Failing(made, FailJoin(0)), mutex := Free)
    case FailJoin(next) => s.(main := Failing(made, if next < made then FailJoin(next + 1) else FailDestroy))
    case FailDestroy => s.(main := Failing(made, FailDone), destroyed := true)
  }

  ghost function OpenStep(c: Config, s: State): (t: State)
    requires s.main.Opening? && !s.main.open.ReadyWait?
    ensures t.main.Opening? || t.main.Idle?
  {
    match s.main.open
    case ReadyLock => s.(main := Opening(ReadySet), mutex := ByMain)
    case ReadySet => Broadcast(s.(main := Opening(ReadyTest), ready := true))
    case ReadyTest =>
      if s.released < c.n then s.(main := Opening(ReadyWait), mutex := Free) else s.(main := Opening(ReadyUnlock))
    case ReadyRelock => s.(main := Opening(ReadyTest), mutex := ByMain)
    case ReadyUnlock => s.(main := Idle, mutex := Free)
  }

  ghost function DispatchStep(c: Config, s: State): (t: State)
    requires s.main.Dispatching?
    ensures t.main.Dispatching? || t.main.Idle?
  {
    match s.main.dispatch
    case PutJob(r) => s.(main := Dispatching(PutSlots(r)), posted := s.posted.(job := r.job))
    case PutSlots(r) => s.(main := Dispatching(PutGeneration(r)), posted := s.posted.(slots := r.slots))
    case PutGeneration(r) => s.(main := Dispatching(MainAtStart), posted := s.posted.(generation := r.generation))
    case MainAtStart => s.(main := Dispatching(MainInStart(s.start.phase)), start := Arrive(s.start, c.n + 1))
    case MainInStart(_) => s.(main := Dispatching(MainAtStop))
    case MainAtStop => s.(main := Dispatching(MainInStop(s.stop.phase)), stop := Arrive(s.stop, c.n + 1))
    case MainInStop(_) => s.(main := Idle)
  }

  ghost function CloseStep(c: Config, s: State): (t: State)
    requires s.main.Closing? && !s.main.close.CloseDone?
    ensures t.main.Closing?
  {
    match s.main.close
    case CloseSet => s.(main := Closing(CloseAtStart), shuttingDown := true)
    case CloseAtStart => s.(main := Closing(CloseInStart(s.start.phase)), start := Arrive(s.start, c.n + 1))
    case CloseInStart(_) => s.(main := Closing(CloseJoin(0)))
    case CloseJoin(next) => s.(main := Closing(if next < c.n then CloseJoin(next + 1) else CloseDestroy))
    case CloseDestroy => s.(main := Closing(CloseDone), destroyed := true)
  }

  ghost predicate Enabled(c: Config, s: State, a: Action) {
    match a
    case MainAct => MainEnabled(c, s)
    case WorkerAct(i) => WorkerEnabled(s, i)
    case CreateFails => s.main.Creating? && s.main.index < c.n
    case WakeMain => s.main == Opening(ReadyWait)
    case WakeWorker(i) => i < |s.workers| && s.workers[i].GateWait?
    case Dispatch(r) => s.main.Idle? && |r.slots| == c.n
    case Shutdown => s.main.Idle?
  }

  ghost function Apply(c: Config, s: State, a: Action): State
    requires Shaped(c, s) && Enabled(c, s, a)
  {
    match a
    case MainAct => (
      match s.main
      case Creating(_) => CreateStep(c, s)
      case Failing(_, _) => FailStep(s)
      case Opening(_) => OpenStep(c, s)
      case Dispatching(_) => DispatchStep(c, s)
      case Closing(_) => CloseStep(c, s)
    )
    case WorkerAct(i) => if InGate(s.workers[i]) then GateStep(s, i) else LoopStep(c, s, i)
    case CreateFails => s.(main := Failing(s.main.index, FailLock))
    case WakeMain => s.(main := Opening(ReadyRelock))
    case WakeWorker(i) => SetWorker(s, i, GateLock)
    case Dispatch(r) => s.(main := Dispatching(PutJob(r)), history := s.history + [r])
    case Shutdown => s.(main := Closing(CloseSet))
  }

  ghost predicate Next(c: Config, s: State, a: Action, t: State) {
    Shaped(c, s) && Enabled(c, s, a) && t == Apply(c, s, a)
  }

  /** A run: any finite interleaving from the initial state. */
  ghost predicate IsRun(c: Config, states: seq<State>, actions: seq<Action>) {
    && |states| == |actions| + 1
    && states[0] == Init(c)
    && (forall k | 0 < k < |states| :: StepAt(c, states, actions, k))
  }

  ghost predicate StepAt(c: Config, states: seq<State>, actions: seq<Action>, k: nat)
    requires 0 < k < |states| == |actions| + 1
  {
    Next(c, states[k - 1], actions[k - 1], states[k])
  }

  // ------------------------------------------------------------- counting

  datatype Kind = WaitingStart(phase: nat) | WaitingStop(phase: nat) | Counted | Unsignalled

  predicate IsKind(k: Kind, w: Worker) {
    match k
    case WaitingStart(p) => w == InStart(p)
    case WaitingStop(p) => w == InStop(p)
    case Counted => w.GateSignal? || w.GateUnlock? || w.AtStart? || w.InStart?
    case Unsignalled => w.NotCreated? || w.GateLock? || w.GateTest? || w.GateWait? || w.GateCount? || w.GateSignal?
  }

  function Tally(workers: seq<Worker>, k: Kind): nat {
    if workers == [] then 0
    else Tally(workers[..|workers| - 1], k) + if IsKind(k, workers[|workers| - 1]) then 1 else 0
  }

  lemma {:induction false} TallySet(workers: seq<Worker>, k: Kind, i: nat, w: Worker)
    requires i < |workers|
    ensures Tally(workers[i := w], k) + (if IsKind(k, workers[i]) then 1 else 0)
         == Tally(workers, k) + (if IsKind(k, w) then 1 else 0)
  {
    var last := |workers| - 1;
    if i == last {
      assert workers[i := w][..last] == workers[..last];
    } else {
      assert workers[i := w][..last] == workers[..last][i := w];
      TallySet(workers[..last], k, i, w);
    }
  }

  lemma {:induction false} TallySame(a: seq<Worker>, b: seq<Worker>, k: Kind)
    requires |a| == |b| && forall i | 0 <= i < |a| :: IsKind(k, a[i]) == IsKind(k, b[i])
    ensures Tally(a, k) == Tally(b, k)
  {
    if a != [] {
      TallySame(a[..|a| - 1], b[..|b| - 1], k);
    }
  }

  /** The count is the whole pool exactly when every worker is of the kind. */
  lemma {:induction false} TallyFull(workers: seq<Worker>, k: Kind)
    ensures Tally(workers, k) <= |workers|
    ensures Tally(workers, k) == |workers| <==> forall i | 0 <= i < |workers| :: IsKind(k, workers[i])
    ensures Tally(workers, k) == 0 <==> forall i | 0 <= i < |workers| :: !IsKind(k, workers[i])
  {
    if workers != [] {
      var last := |workers| - 1;
      TallyFull(workers[..last], k);
      assert forall i | 0 <= i < last :: workers[..last][i] == workers[i];
    }
  }

  // ------------------------------------------------------------- invariant

  predicate WorkerHolds(w: Worker) {
    w.GateTest? || w.GateCount? || w.GateSignal? || w.GateUnlock? || w.GateQuit?
  }

  predicate MainHolds(m: Main) {
    match m
    case Failing(_, pc) => pc.FailSet? || pc.FailUnlock?
    case Opening(pc) => pc.ReadySet? || pc.ReadyTest? || pc.ReadyUnlock?
    case _ => false
  }

  ghost predicate MutexInv(s: State) {
    && (forall i | 0 <= i < |s.workers| :: WorkerHolds(s.workers[i]) <==> s.mutex == ByWorker(i))
    && (MainHolds(s.main) <==> s.mutex == ByMain)
    && (s.mutex.ByWorker? ==> s.mutex.index < |s.workers|)
  }

  predicate Startup(m: Main) {
    m.Creating? || m.Failing? || m.Opening?
  }

  /** Has `startup_ready` been set? */
  predicate Ready(m: Main) {
    match m
    case Creating(_) => false
    case Failing(_, pc) => !pc.FailLock? && !pc.FailSet?
    case Opening(pc) => !pc.ReadyLock? && !pc.ReadySet?
    case _ => true
  }

  /** Has `shutting_down` been set? */
  predicate Stopping(m: Main) {
    (m.Failing? && Ready(m)) || (m.Closing? && !m.close.CloseSet?)
  }

  predicate Knocking(w: Worker) {
    w.GateLock? || w.GateTest? || w.GateWait?
  }

  /** Where worker `i` may be during init. */
  predicate StartupPlace(m: Main, i: nat, w: Worker)
    requires Startup(m)
  {
    match m
    case Creating(index) => if i < index then Knocking(w) else w.NotCreated?
    case Failing(made, pc) =>
      if made <= i then w.NotCreated?
      else if !Ready(m) then Knocking(w)
      else if pc.FailUnlock? || (pc.FailJoin? && pc.next <= i) then w.GateLock? || w.GateTest? || w.GateQuit? || w.Exited?
      else w.Exited?
    case Opening(pc) =>
      if !Ready(m) then Knocking(w)
      else if pc.ReadyUnlock? then w.AtStart? || w == InStart(0)
      else !w.NotCreated? && !w.GateWait? && !w.GateQuit? && (InGate(w) || w.AtStart? || w == InStart(0))
  }

  /** Init: nobody has passed a barrier, and the gate releases exactly the counted workers. */
  ghost predicate StartupInv(c: Config, s: State)
    requires Shaped(c, s)
  {
    && Startup(s.main)
    && s.ready == Ready(s.main) && s.shuttingDown == Stopping(s.main)
    && (s.destroyed <==> s.main.Failing? && s.main.fail.FailDone?)
    && (s.main.Creating? ==> s.main.index <= c.n)
    && (s.main.Failing? ==> s.main.made <= c.n && (s.main.fail.FailJoin? ==> s.main.fail.next <= s.main.made))
    && (forall i | 0 <= i < c.n :: StartupPlace(s.main, i, s.workers[i]))
    && s.released == Tally(s.workers, Counted)
    && (s.main == Opening(ReadyWait) && s.released >= c.n ==>
          s.mutex.ByWorker? && s.mutex.index < c.n && s.workers[s.mutex.index].GateSignal?)
    && s.start == Barrier(Tally(s.workers, WaitingStart(0)), 0)
    && s.stop == Barrier(0, 0)
    && s.history == [] && (forall i | 0 <= i < c.n :: s.log[i] == [])
  }

  /** How the two barrier phases and the number of dispatches stand, by the main thread's position. */
  ghost predicate PhaseInv(s: State) {
    var S := s.start.phase;
    var T := s.stop.phase;
    var H := |s.history|;
    match s.main
    case Dispatching(MainInStart(t)) => H == T + 1 && ((S == T && t == S) || (S == T + 1 && t + 1 == S))
    case Dispatching(MainAtStop) => S == T + 1 && H == S
    case Dispatching(MainInStop(t)) => (S == T + 1 && H == S && t == T) || (S == T && H == T && t + 1 == T)
    case Dispatching(_) => S == T && H == T + 1
    case Closing(CloseInStart(t)) => H == T && ((S == T && t == S) || (S == T + 1 && t + 1 == S))
    case Closing(CloseSet) => S == T && H == T
    case Closing(CloseAtStart) => S == T && H == T
    case Closing(_) => S == T + 1 && H == T
    case _ => S == T && H == T
  }

  /** A dispatch whose start barrier has opened and whose stop barrier has not. */
  predicate RoundOpen(s: State) {
    s.start.phase == s.stop.phase + 1 && s.main.Dispatching?
  }

  /** Where a worker may be once init has returned. */
  predicate LivePlace(s: State, w: Worker) {
    var S := s.start.phase;
    var T := s.stop.phase;
    match w
    case AtStart => S == T
    case InStart(t) => (S == T && t == S) || (S == T + 1 && t + 1 == S)
    case TestExit => S == T + 1
    case Load => RoundOpen(s)
    case Running(_, _) => RoundOpen(s)
    case AtStop => RoundOpen(s)
    case InStop(t) => (RoundOpen(s) && t == T) || (S == T && t + 1 == T)
    case Exited => S == T + 1 && s.main.Closing?
    case _ => false
  }

  /** How many workers shutdown has already joined. */
  function Joined(c: Config, m: Main): nat {
    match m
    case Closing(CloseJoin(next)) => next
    case Closing(CloseDestroy) => c.n
    case Closing(CloseDone) => c.n
    case _ => 0
  }

  /** After init: the barriers alternate, and their counts are the threads waiting at them. */
  ghost predicate LiveInv(c: Config, s: State)
    requires Shaped(c, s)
  {
    && !Startup(s.main)
    && s.ready && s.shuttingDown == Stopping(s.main)
    && (s.destroyed <==> s.main == Closing(CloseDone))
    && PhaseInv(s)
    && (forall i | 0 <= i < c.n :: LivePlace(s, s.workers[i]))
    && s.start.count == Tally(s.workers, WaitingStart(s.start.phase)) + MainWaitsStart(s) <= c.n
    && s.stop.count == Tally(s.workers, WaitingStop(s.stop.phase)) + MainWaitsStop(s) <= c.n
    && Joined(c, s.main) <= c.n && (forall i | 0 <= i < Joined(c, s.main) :: s.workers[i].Exited?)
  }

  function MainWaitsStart(s: State): nat {
    if s.main == Dispatching(MainInStart(s.start.phase)) || s.main == Closing(CloseInStart(s.start.phase)) then 1 else 0
  }

  function MainWaitsStop(s: State): nat {
    if s.main == Dispatching(MainInStop(s.stop.phase)) then 1 else 0
  }

  /** How many calls worker `w` has logged. */
  function Logged(s: State, w: Worker): int {
    if (w.InStart? && w.ticket < s.start.phase) || w.TestExit? || w.Load? || w.Exited? then s.start.phase - 1
    else s.start.phase
  }

  ghost predicate HistoryShaped(c: Config, s: State) {
    forall d | 0 <= d < |s.history| :: |s.history[d].slots| == c.n
  }

  /** The shared request fields hold the request being dispatched, as far as it has been written. */
  ghost predicate PostedInv(s: State) {
    s.main.Dispatching? ==>
      var H := |s.history|;
      H > 0 &&
      var r := s.history[H - 1];
      match s.main.dispatch
      case PutJob(q) => q == r
      case PutSlots(q) => q == r && s.posted.job == r.job
      case PutGeneration(q) => q == r && s.posted.job == r.job && s.posted.slots == r.slots
      case _ => s.posted == r
  }

  /** Rows `from..to` of the image hold what `call` paints. */
  ghost predicate PaintedRows(image: seq<Row>, call: Call, from: nat, to: nat) {
    to <= |image| && forall y | from <= y < to :: image[y] == call.job(call.slot, call.generation, y)
  }

  /**
   Worker `i` has logged exactly the calls the first dispatches asked of it, and
   what it has painted in the latest one is on the image.
   */
  ghost predicate WorkerData(c: Config, s: State, i: nat)
    requires Shaped(c, s) && HistoryShaped(c, s) && i < c.n
  {
    var w := s.workers[i];
    var H := |s.history|;
    && |s.log[i]| == Logged(s, w) <= H
    && (forall d | 0 <= d < |s.log[i]| :: s.log[i][d] == CallFor(c, s.history[d], i))
    && (w.Running? ==>
          && H > 0 && w.call == CallFor(c, s.history[H - 1], i)
          && w.call.first <= w.next <= w.call.end <= c.rows && PaintedRows(s.image, w.call, w.call.first, w.next))
    && (!w.Running? && H > 0 && |s.log[i]| == H ==>
          var call := CallFor(c, s.history[H - 1], i);
          PaintedRows(s.image, call, call.first, call.end))
  }

  ghost predicate DataInv(c: Config, s: State)
    requires Shaped(c, s)
  {
    HistoryShaped(c, s) && PostedInv(s) && forall i | 0 <= i < c.n :: WorkerData(c, s, i)
  }

  ghost predicate Inv(c: Config, s: State) {
    && Shaped(c, s) && MutexInv(s)
    && (if Startup(s.main) then StartupInv(c, s) else LiveInv(c, s) && DataInv(c, s))
  }

  // ------------------------------------------------- preservation: startup

  lemma BandBounds(c: Config, i: nat)
    requires c.n > 0 && i < c.n
    ensures BandStart(c, 0) == 0 && BandStart(c, c.n) == c.rows
    ensures BandStart(c, i) <= BandStart(c, i + 1) <= c.rows
  {
    DivIs(c.n * c.rows, c.n, c.rows);
    DivIs(0, c.n, 0);
    MulLe(i, i + 1, c.rows);
    MulLe(i + 1, c.n, c.rows);
    DivMonotone(i * c.rows, (i + 1) * c.rows, c.n);
    DivMonotone((i + 1) * c.rows, c.n * c.rows, c.n);
  }

  lemma InvInit(c: Config)
    requires c.Valid()
    ensures Inv(c, Init(c))
  {
    var s := Init(c);
    TallyFull(s.workers, Counted);
    TallyFull(s.workers, WaitingStart(0));
  }

  lemma WokenKeeps(workers: seq<Worker>)
    ensures forall i | 0 <= i < |workers| :: Woken(workers)[i] == workers[i] || (Woken(workers)[i].GateLock? && workers[i].GateWait?)
    ensures Tally(Woken(workers), Counted) == Tally(workers, Counted)
    ensures Tally(Woken(workers), WaitingStart(0)) == Tally(workers, WaitingStart(0))
  {
    TallySame(Woken(workers), workers, Counted);
    TallySame(Woken(workers), workers, WaitingStart(0));
  }

  lemma StartupCreate(c: Config, s: State, t: State)
    requires Shaped(c, s) && MutexInv(s) && StartupInv(c, s) && s.main.Creating? && t == CreateStep(c, s)
    ensures Shaped(c, t) && MutexInv(t) && StartupInv(c, t)
  {
    if s.main.index < c.n {
      TallySet(s.workers, Counted, s.main.index, GateLock);
      TallySet(s.workers, WaitingStart(0), s.main.index, GateLock);
    }
  }

  lemma StartupFailSet(c: Config, s: State, t: State)
    requires Shaped(c, s) && MutexInv(s) && StartupInv(c, s) && s.main.Failing? && s.main.fail.FailSet? && t == FailStep(s)
    ensures Shaped(c, t) && MutexInv(t) && StartupInv(c, t)
  {
    WokenKeeps(s.workers);
  }

  lemma StartupFail(c: Config, s: State, t: State)
    requires Shaped(c, s) && MutexInv(s) && StartupInv(c, s)
    requires s.main.Failing? && !s.main.fail.FailSet? && MainEnabled(c, s) && t == FailStep(s)
    ensures Shaped(c, t) && MutexInv(t) && StartupInv(c, t)
  {
  }

  lemma StartupOpen(c: Config, s: State, t: State)
    requires Shaped(c, s) && MutexInv(s) && StartupInv(c, s) && s.main.Opening? && MainEnabled(c, s) && t == OpenStep(c, s)
    requires !s.main.open.ReadyUnlock?
    ensures Shaped(c, t) && MutexInv(t) && StartupInv(c, t)
  {
    WokenKeeps(s.workers);
    TallyFull(s.workers, Counted);
  }

  lemma StartupSignal(c: Config, s: State, i: nat, t: State)
    requires Shaped(c, s) && MutexInv(s) && StartupInv(c, s)
    requires WorkerEnabled(s, i) && s.workers[i].GateSignal? && t == GateStep(s, i)
    ensures Shaped(c, t) && MutexInv(t) && StartupInv(c, t)
  {
    TallySet(s.workers, Counted, i, GateUnlock);
    TallySet(s.workers, WaitingStart(0), i, GateUnlock);
    WokenKeeps(s.workers[i := GateUnlock]);
  }

  lemma StartupLock(c: Config, s: State, i: nat, t: State)
    requires Shaped(c, s) && MutexInv(s) && StartupInv(c, s)
    requires WorkerEnabled(s, i) && s.workers[i].GateLock? && t == GateStep(s, i)
    ensures Shaped(c, t) && MutexInv(t) && StartupInv(c, t)
  {
    TallySet(s.workers, Counted, i, GateTest);
    TallySet(s.workers, WaitingStart(0), i, GateTest);
  }

  lemma StartupTest(c: Config, s: State, i: nat, t: State)
    requires Shaped(c, s) && MutexInv(s) && StartupInv(c, s)
    requires WorkerEnabled(s, i) && s.workers[i].GateTest? && t == GateStep(s, i)
    ensures Shaped(c, t) && MutexInv(t) && StartupInv(c, t)
  {
    TallySet(s.workers, Counted, i, t.workers[i]);
    TallySet(s.workers, WaitingStart(0), i, t.workers[i]);
  }

  lemma StartupPass(c: Config, s: State, i: nat, t: State)
    requires Shaped(c, s) && MutexInv(s) && StartupInv(c, s)
    requires WorkerEnabled(s, i) && (s.workers[i].GateCount? || s.workers[i].GateUnlock? || s.workers[i].GateQuit?) && t == GateStep(s, i)
    ensures Shaped(c, t) && MutexInv(t) && StartupInv(c, t)
  {
    TallySet(s.workers, Counted, i, t.workers[i]);
    TallySet(s.workers, WaitingStart(0), i, t.workers[i]);
  }

  /** Workers reach the start barrier before init returns; without the main thread it cannot fill. */
  lemma StartupArrive(c: Config, s: State, i: nat, t: State)
    requires Shaped(c, s) && MutexInv(s) && StartupInv(c, s)
    requires WorkerEnabled(s, i) && !InGate(s.workers[i]) && t == LoopStep(c, s, i)
    ensures Shaped(c, t) && MutexInv(t) && StartupInv(c, t)
  {
    assert s.workers[i].AtStart?;
    TallySet(s.workers, Counted, i, InStart(0));
    TallySet(s.workers, WaitingStart(0), i, InStart(0));
    TallyFull(s.workers, WaitingStart(0));
  }

  lemma StartupCreateFails(c: Config, s: State, t: State)
    requires Shaped(c, s) && MutexInv(s) && StartupInv(c, s) && s.main.Creating? && s.main.index < c.n
    requires t == s.(main := Failing(s.main.index, FailLock))
    ensures Shaped(c, t) && MutexInv(t) && StartupInv(c, t)
  {
  }

  lemma StartupWakeMain(c: Config, s: State, t: State)
    requires Shaped(c, s) && MutexInv(s) && StartupInv(c, s) && s.main == Opening(ReadyWait)
    requires t == s.(main := Opening(ReadyRelock))
    ensures Shaped(c, t) && MutexInv(t) && StartupInv(c, t)
  {
  }

  lemma StartupWakeWorker(c: Config, s: State, i: nat, t: State)
    requires Shaped(c, s) && MutexInv(s) && StartupInv(c, s) && i < c.n && s.workers[i].GateWait?
    requires t == SetWorker(s, i, GateLock)
    ensures Shaped(c, t) && MutexInv(t) && StartupInv(c, t)
  {
    TallySet(s.workers, Counted, i, GateLock);
    TallySet(s.workers, WaitingStart(0), i, GateLock);
  }

  /** Init returns: every worker is past the gate. */
  lemma StartupEnds(c: Config, s: State, t: State)
    requires Inv(c, s) && s.main == Opening(ReadyUnlock) && t == OpenStep(c, s)
    ensures Inv(c, t)
  {
    StartupEndsLive(c, s, t);
    forall i | 0 <= i < c.n
      ensures HistoryShaped(c, t) && WorkerData(c, t, i)
    {
      assert StartupPlace(s.main, i, s.workers[i]);
    }
  }

  lemma StartupEndsLive(c: Config, s: State, t: State)
    requires Shaped(c, s) && StartupInv(c, s) && s.main == Opening(ReadyUnlock) && t == OpenStep(c, s)
    ensures Shaped(c, t) && LiveInv(c, t)
  {
    TallyFull(s.workers, WaitingStart(0));
    TallyFull(s.workers, WaitingStop(0));
  }

  // ------------------------------------------------- preservation: rounds

  /** Steps that leave history, logs, image and the running calls alone keep the data invariant. */
  lemma DataKeep(c: Config, s: State, t: State)
    requires Shaped(c, s) && DataInv(c, s) && Shaped(c, t)
    requires t.history == s.history && t.log == s.log && t.image == s.image
    requires PostedInv(t)
    requires forall i | 0 <= i < c.n ::
               && Logged(s, s.workers[i]) == Logged(t, t.workers[i])
               && (s.workers[i].Running? || t.workers[i].Running? ==> s.workers[i] == t.workers[i])
    ensures DataInv(c, t)
  {
    forall i | 0 <= i < c.n
      ensures WorkerData(c, t, i)
    {
      assert WorkerData(c, s, i);
    }
  }

  /** When the main thread fills a barrier, every worker is waiting at it. */
  lemma LiveDispatchStart(c: Config, s: State, t: State)
    requires Shaped(c, s) && LiveInv(c, s) && s.main == Dispatching(MainAtStart) && t == DispatchStep(c, s)
    ensures Shaped(c, t) && LiveInv(c, t)
  {
    TallyFull(s.workers, WaitingStart(s.start.phase));
    TallyFull(t.workers, WaitingStart(t.start.phase));
  }

  lemma LiveDispatchStop(c: Config, s: State, t: State)
    requires Shaped(c, s) && LiveInv(c, s) && s.main == Dispatching(MainAtStop) && t == DispatchStep(c, s)
    ensures Shaped(c, t) && LiveInv(c, t)
  {
    TallyFull(s.workers, WaitingStart(s.start.phase));
    TallyFull(s.workers, WaitingStop(s.stop.phase));
    TallyFull(t.workers, WaitingStop(t.stop.phase));
  }

  lemma LiveDispatch(c: Config, s: State, t: State)
    requires Shaped(c, s) && LiveInv(c, s) && DataInv(c, s)
    requires s.main.Dispatching? && !s.main.dispatch.MainAtStart? && !s.main.dispatch.MainAtStop?
    requires MainEnabled(c, s) && t == DispatchStep(c, s)
    ensures Shaped(c, t) && LiveInv(c, t)
  {
  }

  lemma LiveCloseArrive(c: Config, s: State, t: State)
    requires Shaped(c, s) && LiveInv(c, s) && s.main == Closing(CloseAtStart) && t == CloseStep(c, s)
    ensures Shaped(c, t) && LiveInv(c, t)
  {
    TallyFull(s.workers, WaitingStart(s.start.phase));
    TallyFull(t.workers, WaitingStart(t.start.phase));
  }

  lemma LiveClose(c: Config, s: State, t: State)
    requires Shaped(c, s) && LiveInv(c, s)
    requires s.main.Closing? && !s.main.close.CloseAtStart? && MainEnabled(c, s) && t == CloseStep(c, s)
    ensures Shaped(c, t) && LiveInv(c, t)
  {
  }

  lemma DataDispatch(c: Config, s: State, t: State)
    requires Shaped(c, s) && LiveInv(c, s) && DataInv(c, s)
    requires s.main.Dispatching? && MainEnabled(c, s) && t == DispatchStep(c, s)
    requires Shaped(c, t) && LiveInv(c, t)
    ensures DataInv(c, t)
  {
    TallyFull(s.workers, WaitingStart(s.start.phase));
    DataKeep(c, s, t);
  }

  lemma DataClose(c: Config, s: State, t: State)
    requires Shaped(c, s) && LiveInv(c, s) && DataInv(c, s)
    requires s.main.Closing? && MainEnabled(c, s) && t == CloseStep(c, s)
    requires Shaped(c, t) && LiveInv(c, t)
    ensures DataInv(c, t)
  {
    TallyFull(s.workers, WaitingStart(s.start.phase));
    DataKeep(c, s, t);
  }

  /** A dispatch or shutdown begins: no counts or positions change. */
  lemma LiveCall(c: Config, s: State, a: Action, t: State)
    requires Inv(c, s) && Enabled(c, s, a) && t == Apply(c, s, a)
    requires a.Dispatch? || a.Shutdown?
    ensures Inv(c, t)
  {
    forall i | 0 <= i < c.n
      ensures HistoryShaped(c, t) && WorkerData(c, t, i)
    {
      assert WorkerData(c, s, i);
    }
  }

  /** A worker reaches a barrier that does not fill. */
  lemma LiveWait(c: Config, s: State, i: nat, w: Worker, t: State)
    requires Shaped(c, s) && LiveInv(c, s) && i < c.n
    requires t == SetWorker(s, i, w).(start := t.start, stop := t.stop)
    requires || (s.workers[i].AtStart? && w == InStart(s.start.phase) && s.start.count < c.n
                 && t.start == Arrive(s.start, c.n + 1) && t.stop == s.stop)
             || (s.workers[i].AtStop? && w == InStop(s.stop.phase) && s.stop.count < c.n
                 && t.stop == Arrive(s.stop, c.n + 1) && t.start == s.start)
    ensures Shaped(c, t) && LiveInv(c, t)
  {
    assert LivePlace(s, s.workers[i]);
    TallySet(s.workers, WaitingStart(s.start.phase), i, w);
    TallySet(s.workers, WaitingStop(s.stop.phase), i, w);
  }

  /** The last arrival finds every other worker, and the main thread, waiting. */
  lemma AllWaiting(c: Config, s: State, k: Kind, i: nat, w: Worker)
    requires |s.workers| == c.n && i < c.n && IsKind(k, w) && !IsKind(k, s.workers[i]) && Tally(s.workers, k) + 1 >= c.n
    ensures Tally(s.workers, k) + 1 == c.n
    ensures var workers := s.workers[i := w]; forall j | 0 <= j < c.n :: IsKind(k, workers[j])
  {
    TallySet(s.workers, k, i, w);
    TallyFull(s.workers[i := w], k);
  }

  lemma LiveOpened(c: Config, s: State, t: State, w: Worker)
    requires Shaped(c, s) && LiveInv(c, s) && Shaped(c, t)
    requires t == s.(workers := t.workers, start := t.start, stop := t.stop)
    requires forall j | 0 <= j < c.n :: t.workers[j] == w
    requires || (MainWaitsStart(s) == 1 && w == InStart(s.start.phase) && t.start == Barrier(0, s.start.phase + 1)
                 && t.stop == s.stop && s.stop.count == 0)
             || (MainWaitsStop(s) == 1 && w == InStop(s.stop.phase) && t.stop == Barrier(0, s.stop.phase + 1)
                 && t.start == s.start && s.start.count == 0)
    ensures LiveInv(c, t)
  {
    TallyFull(t.workers, WaitingStart(t.start.phase));
    TallyFull(t.workers, WaitingStop(t.stop.phase));
  }

  lemma LiveFillStart(c: Config, s: State, i: nat, t: State)
    requires Shaped(c, s) && LiveInv(c, s)
    requires i < c.n && s.workers[i].AtStart? && s.start.count == c.n && t == LoopStep(c, s, i)
    ensures Shaped(c, t) && LiveInv(c, t)
  {
    AllWaiting(c, s, WaitingStart(s.start.phase), i, InStart(s.start.phase));
    TallyFull(s.workers, WaitingStop(s.stop.phase));
    assert forall j | 0 <= j < c.n && j != i :: s.workers[j] == t.workers[j];
    LiveOpened(c, s, t, InStart(s.start.phase));
  }

  lemma LiveFillStop(c: Config, s: State, i: nat, t: State)
    requires Shaped(c, s) && LiveInv(c, s)
    requires i < c.n && s.workers[i].AtStop? && s.stop.count == c.n && t == LoopStep(c, s, i)
    ensures Shaped(c, t) && LiveInv(c, t)
  {
    AllWaiting(c, s, WaitingStop(s.stop.phase), i, InStop(s.stop.phase));
    TallyFull(s.workers, WaitingStart(s.start.phase));
    assert forall j | 0 <= j < c.n && j != i :: s.workers[j] == t.workers[j];
    LiveOpened(c, s, t, InStop(s.stop.phase));
  }

  lemma LiveArrive(c: Config, s: State, i: nat, t: State)
    requires Shaped(c, s) && LiveInv(c, s)
    requires i < c.n && (s.workers[i].AtStart? || s.workers[i].AtStop?) && t == LoopStep(c, s, i)
    ensures Shaped(c, t) && LiveInv(c, t)
  {
    if s.workers[i].AtStart? && s.start.count == c.n {
      LiveFillStart(c, s, i, t);
    } else if s.workers[i].AtStop? && s.stop.count == c.n {
      LiveFillStop(c, s, i, t);
    } else {
      LiveWait(c, s, i, t.workers[i], t);
    }
  }

  /** A worker's step away from the barriers keeps the round invariant. */
  lemma LiveMove(c: Config, s: State, i: nat, w: Worker, t: State)
    requires Shaped(c, s) && LiveInv(c, s) && Shaped(c, t) && i < c.n && t.workers == s.workers[i := w]
    requires t == s.(workers := t.workers, log := t.log, image := t.image)
    requires LivePlace(s, w) && !s.workers[i].Exited?
    requires forall k | k == WaitingStart(s.start.phase) || k == WaitingStop(s.stop.phase) :: IsKind(k, s.workers[i]) == IsKind(k, w)
    ensures LiveInv(c, t)
  {
    TallySet(s.workers, WaitingStart(s.start.phase), i, w);
    TallySet(s.workers, WaitingStop(s.stop.phase), i, w);
  }

  lemma LiveLeave(c: Config, s: State, i: nat, t: State)
    requires Shaped(c, s) && LiveInv(c, s)
    requires WorkerEnabled(s, i) && (s.workers[i].InStart? || s.workers[i].InStop?) && t == LoopStep(c, s, i)
    ensures Shaped(c, t) && LiveInv(c, t)
  {
    assert LivePlace(s, s.workers[i]);
    LiveMove(c, s, i, t.workers[i], t);
  }

  lemma LiveWork(c: Config, s: State, i: nat, t: State)
    requires Shaped(c, s) && LiveInv(c, s)
    requires i < c.n && (s.workers[i].TestExit? || s.workers[i].Load? || s.workers[i].Running?) && t == LoopStep(c, s, i)
    ensures Shaped(c, t) && LiveInv(c, t)
  {
    assert LivePlace(s, s.workers[i]);
    LiveMove(c, s, i, t.workers[i], t);
  }

  lemma DataArrive(c: Config, s: State, i: nat, t: State)
    requires Shaped(c, s) && LiveInv(c, s) && DataInv(c, s) && Shaped(c, t) && LiveInv(c, t)
    requires i < c.n && (s.workers[i].AtStart? || s.workers[i].AtStop?) && t == LoopStep(c, s, i)
    ensures DataInv(c, t)
  {
    DataKeep(c, s, t);
  }

  lemma DataMove(c: Config, s: State, i: nat, t: State)
    requires Shaped(c, s) && LiveInv(c, s) && DataInv(c, s) && Shaped(c, t)
    requires WorkerEnabled(s, i) && (s.workers[i].InStart? || s.workers[i].InStop? || s.workers[i].TestExit?)
    requires t == LoopStep(c, s, i)
    ensures DataInv(c, t)
  {
    assert LivePlace(s, s.workers[i]);
    DataKeep(c, s, t);
  }

  lemma DataLoad(c: Config, s: State, i: nat, t: State)
    requires Shaped(c, s) && LiveInv(c, s) && DataInv(c, s) && Shaped(c, t)
    requires i < c.n && s.workers[i].Load? && t == LoopStep(c, s, i)
    ensures DataInv(c, t)
  {
    assert LivePlace(s, s.workers[i]);
    BandBounds(c, i);
    forall j | 0 <= j < c.n
      ensures WorkerData(c, t, j)
    {
      assert WorkerData(c, s, j);
    }
  }

  /** Distinct workers paint distinct rows. */
  lemma BandsDisjoint(c: Config, i: nat, j: nat)
    requires c.n > 0 && i < j
    ensures BandStart(c, i + 1) <= BandStart(c, j)
  {
    MulLe(i + 1, j, c.rows);
    DivMonotone((i + 1) * c.rows, j * c.rows, c.n);
  }

  /** Painting a row disturbs no other worker's rows. */
  lemma PaintKeeps(c: Config, s: State, i: nat, j: nat, t: State)
    requires Shaped(c, s) && LiveInv(c, s) && DataInv(c, s) && Shaped(c, t)
    requires i < c.n && j < c.n && i != j && s.workers[i].Running? && t == LoopStep(c, s, i)
    ensures HistoryShaped(c, t) && WorkerData(c, t, j)
  {
    assert WorkerData(c, s, i) && WorkerData(c, s, j);
    if j < i {
      BandsDisjoint(c, j, i);
    } else {
      BandsDisjoint(c, i, j);
    }
  }

  lemma DataPaint(c: Config, s: State, i: nat, t: State)
    requires Shaped(c, s) && LiveInv(c, s) && DataInv(c, s) && Shaped(c, t)
    requires i < c.n && s.workers[i].Running? && t == LoopStep(c, s, i)
    ensures DataInv(c, t)
  {
    assert LivePlace(s, s.workers[i]);
    assert WorkerData(c, s, i);
    forall j | 0 <= j < c.n
      ensures WorkerData(c, t, j)
    {
      if j != i {
        PaintKeeps(c, s, i, j, t);
      }
    }
  }

  lemma LiveMutex(c: Config, s: State, t: State)
    requires Shaped(c, s) && LiveInv(c, s) && MutexInv(s) && Shaped(c, t) && LiveInv(c, t) && t.mutex == s.mutex
    ensures MutexInv(t)
  {
    assert forall i | 0 <= i < c.n :: LivePlace(t, t.workers[i]) && LivePlace(s, s.workers[i]);
  }

  lemma InvWorker(c: Config, s: State, i: nat, t: State)
    requires Inv(c, s) && !Startup(s.main) && WorkerEnabled(s, i) && !InGate(s.workers[i]) && t == LoopStep(c, s, i)
    ensures Inv(c, t)
  {
    match s.workers[i]
    case AtStart => LiveArrive(c, s, i, t); DataArrive(c, s, i, t);
    case AtStop => LiveArrive(c, s, i, t); DataArrive(c, s, i, t);
    case InStart(_) => LiveLeave(c, s, i, t); DataMove(c, s, i, t);
    case InStop(_) => LiveLeave(c, s, i, t); DataMove(c, s, i, t);
    case TestExit => LiveWork(c, s, i, t); DataMove(c, s, i, t);
    case Load => LiveWork(c, s, i, t); DataLoad(c, s, i, t);
    case Running(_, _) => LiveWork(c, s, i, t); DataPaint(c, s, i, t);
    LiveMutex(c, s, t);
  }

  lemma InvMain(c: Config, s: State, t: State)
    requires Inv(c, s) && MainEnabled(c, s) && t == Apply(c, s, MainAct)
    ensures Inv(c, t)
  {
    match s.main
    case Creating(_) => StartupCreate(c, s, t);
    case Failing(_, pc) =>
      if pc.FailSet? {
        StartupFailSet(c, s, t);
      } else {
        StartupFail(c, s, t);
      }
    case Opening(pc) =>
      if pc.ReadyUnlock? {
        StartupEnds(c, s, t);
      } else {
        StartupOpen(c, s, t);
      }
    case Dispatching(pc) =>
      if pc.MainAtStart? {
        LiveDispatchStart(c, s, t);
      } else if pc.MainAtStop? {
        LiveDispatchStop(c, s, t);
      } else {
        LiveDispatch(c, s, t);
      }
      DataDispatch(c, s, t);
    case Closing(pc) =>
      if pc.CloseAtStart? {
        LiveCloseArrive(c, s, t);
      } else {
        LiveClose(c, s, t);
      }
      DataClose(c, s, t);
    case Idle =>
  }

  lemma InvNext(c: Config, s: State, a: Action, t: State)
    requires Inv(c, s) && Next(c, s, a, t)
    ensures Inv(c, t)
  {
    match a
    case MainAct => InvMain(c, s, t);
    case WorkerAct(i) =>
      if !InGate(s.workers[i]) {
        if Startup(s.main) { StartupArrive(c, s, i, t); } else { InvWorker(c, s, i, t); }
      } else if s.workers[i].GateSignal? {
        StartupSignal(c, s, i, t);
      } else if s.workers[i].GateLock? {
        StartupLock(c, s, i, t);
      } else if s.workers[i].GateTest? {
        StartupTest(c, s, i, t);
      } else {
        StartupPass(c, s, i, t);
      }
    case CreateFails => StartupCreateFails(c, s, t);
    case WakeMain => StartupWakeMain(c, s, t);
    case WakeWorker(i) => StartupWakeWorker(c, s, i, t);
    case Dispatch(_) => LiveCall(c, s, a, t);
    case Shutdown => LiveCall(c, s, a, t);
  }

  /** The invariant holds at every state of every run. */
  lemma {:induction false} InvRun(c: Config, states: seq<State>, actions: seq<Action>, k: nat)
    requires c.Valid() && IsRun(c, states, actions) && k < |states|
    ensures Inv(c, states[k])
  {
    if k == 0 {
      InvInit(c);
    } else {
      InvRun(c, states, actions, k - 1);
      assert StepAt(c, states, actions, k);
      InvNext(c, states[k - 1], actions[k - 1], states[k]);
    }
  }

  // ------------------------------------------------------------- theorems

  predicate InBand(c: Config, w: nat, y: nat)
    requires c.n > 0
  {
    BandStart(c, w) <= y < BandStart(c, w + 1)
  }

  /** The worker whose band holds row `y`, searching down from `w`. */
  function BandOwner(c: Config, y: nat, w: nat): (r: nat)
    requires c.n > 0 && y < BandStart(c, w)
    ensures r < w && InBand(c, r, y)
  {
    if w == 0 || BandStart(c, w - 1) <= y then
      assert BandStart(c, 0) == 0 by { DivIs(0, c.n, 0); }
      w - 1
    else BandOwner(c, y, w - 1)
  }

  /** The bands tile the rows: each row is in exactly one worker's band. */
  lemma BandsTile(c: Config, y: nat)
    requires c.n > 0 && y < c.rows
    ensures exists w | 0 <= w < c.n :: InBand(c, w, y)
    ensures forall v, w | 0 <= v < c.n && 0 <= w < c.n && InBand(c, v, y) && InBand(c, w, y) :: v == w
  {
    BandBounds(c, 0);
    assert InBand(c, BandOwner(c, y, c.n), y);
    forall v, w | 0 <= v < c.n && 0 <= w < c.n && InBand(c, v, y) && InBand(c, w, y)
      ensures v == w
    {
      OneBand(c, v, w, y);
    }
  }

  lemma OneBand(c: Config, v: nat, w: nat, y: nat)
    requires c.n > 0 && InBand(c, v, y) && InBand(c, w, y)
    ensures v == w
  {
    if v < w {
      BandsDisjoint(c, v, w);
    } else if w < v {
      BandsDisjoint(c, w, v);
    }
  }

  /** Inline mode, `worker_count == 0`: one call over all rows on the calling thread. */
  ghost function Inline(rows: nat, r: Request): seq<Row>
    requires |r.slots| > 0
  {
    seq(rows, (y: nat) => r.job(r.slots[0], r.generation, y))
  }

  ghost function Pooled(c: Config, r: Request): seq<Row>
    requires c.n > 0 && |r.slots| == c.n
  {
    BandBounds(c, 0);
    seq<Row>(c.rows, (y: nat) requires y < c.rows => r.job(r.slots[BandOwner(c, y, c.n)], r.generation, y))
  }

  /** The job paints the same row whichever slot it is handed, as when all slots share one canvas. */
  ghost predicate SlotBlind(r: Request) {
    forall i, j, y: nat | 0 <= i < |r.slots| && 0 <= j < |r.slots| ::
      r.job(r.slots[i], r.generation, y) == r.job(r.slots[j], r.generation, y)
  }

  /**
   When no call is in progress, each worker has made one call per dispatch, in
   order, with that dispatch's job, slot, band and generation, and the image is
   the last dispatch's.
   */
  lemma DispatchComplete(c: Config, states: seq<State>, actions: seq<Action>, k: nat)
    requires c.Valid() && IsRun(c, states, actions) && k < |states| && states[k].main.Idle?
    ensures HistoryShaped(c, states[k]) && |states[k].log| == c.n
    ensures forall w | 0 <= w < c.n ::
              |states[k].log[w]| == |states[k].history| &&
              forall d | 0 <= d < |states[k].history| :: states[k].log[w][d] == CallFor(c, states[k].history[d], w)
    ensures states[k].history != [] ==>
              var last := states[k].history[|states[k].history| - 1];
              && states[k].image == Pooled(c, last)
              && (SlotBlind(last) ==> states[k].image == Inline(c.rows, last))
  {
    InvRun(c, states, actions, k);
    var s := states[k];
    forall w | 0 <= w < c.n
      ensures |s.log[w]| == |s.history| && WorkerData(c, s, w)
    {
      assert LivePlace(s, s.workers[w]) && WorkerData(c, s, w);
    }
    if s.history != [] {
      var last := s.history[|s.history| - 1];
      BandBounds(c, 0);
      forall y | 0 <= y < c.rows
        ensures s.image[y] == Pooled(c, last)[y]
        ensures SlotBlind(last) ==> s.image[y] == Inline(c.rows, last)[y]
      {
        assert WorkerData(c, s, BandOwner(c, y, c.n));
      }
      assert s.image == Pooled(c, last);
    }
  }

  /** A row `at` is the start of part `w` when `rows` rows are cut into `n` parts: `w * rows / n` rounded down. */
  predicate CutAt(rows: nat, n: nat, w: nat, at: nat) {
    n * at <= w * rows < n * at + n
  }

  /**
   Every call a worker has logged, from the dispatches and the sizes alone: the dispatch's job,
   the worker's own slot, the dispatch's generation, and the rows from the worker's cut to the next.
   */
  lemma LoggedCalls(c: Config, states: seq<State>, actions: seq<Action>, k: nat, w: nat, d: nat)
    requires c.Valid() && IsRun(c, states, actions) && k < |states| && states[k].main.Idle?
    requires w < c.n && d < |states[k].history|
    ensures |states[k].log| == c.n && |states[k].log[w]| == |states[k].history|
    ensures var r, call := states[k].history[d], states[k].log[w][d];
            && |r.slots| == c.n
            && call.job == r.job && call.slot == r.slots[w] && call.generation == r.generation
            && CutAt(c.rows, c.n, w, call.first) && CutAt(c.rows, c.n, w + 1, call.end)
  {
    DispatchComplete(c, states, actions, k);
    BandCut(c, w);
    BandCut(c, w + 1);
  }

  lemma BandCut(c: Config, w: nat)
    requires c.n > 0
    ensures CutAt(c.rows, c.n, w, BandStart(c, w))
  {
    DivBounds(w * c.rows, c.n);
  }

  /** Between two cuts lie rows / n rows or one more: no band is empty unless there are fewer rows than workers. */
  lemma CutsEven(rows: nat, n: nat, w: nat, first: nat, end: nat)
    requires n > 0 && CutAt(rows, n, w, first) && CutAt(rows, n, w + 1, end)
    ensures rows / n <= end - first <= rows / n + 1
    ensures n <= rows ==> first < end
  {
    DivBounds(rows, n);
    CutSize(rows, n, w * rows, first, end, rows / n);
    if n <= rows {
      DivMonotone(n, rows, n);
      DivIs(n, n, 1);
    }
  }

  lemma CutSize(rows: int, n: nat, from: int, first: int, end: int, q: int)
    requires n > 0 && n * first <= from < n * first + n && n * end <= from + rows < n * end + n && n * q <= rows < n * q + n
    ensures q <= end - first <= q + 1
  {
    var size := end - first;
    assert n * size == n * end - n * first;
    if size < q {
      MulLe(size + 1, q, n);
    } else if size > q + 1 {
      MulLe(q + 2, size, n);
    }
  }

  /** The first cut is at the first row and the last behind the last. */
  lemma CutEnds(rows: nat, n: nat, at: nat)
    requires n > 0
    ensures CutAt(rows, n, 0, at) ==> at == 0
    ensures CutAt(rows, n, n, at) ==> at == rows
  {
    if at > 0 {
      MulLe(1, at, n);
    }
    if at < rows {
      MulLe(at + 1, rows, n);
    } else if at > rows {
      MulLe(rows + 1, at, n);
    }
  }

  /** May worker `w` still read the request fields or the shutdown flag for the current phase? */
  predicate MayRead(s: State, w: Worker) {
    (w.InStart? && w.ticket < s.start.phase) || w.TestExit? || w.Load?
  }

  predicate WritesShared(m: Main) {
    match m
    case Dispatching(pc) => pc.PutJob? || pc.PutSlots? || pc.PutGeneration?
    case Closing(pc) => pc.CloseSet?
    case _ => false
  }

  /** The calling thread is between entering the start barrier and being released by the stop barrier. */
  predicate InsideBarriers(s: State) {
    s.main.Dispatching? &&
    match s.main.dispatch
    case MainInStart(_) => true
    case MainAtStop => true
    case MainInStop(t) => t == s.stop.phase
    case _ => false
  }

  /** No job runs outside a dispatch's barriers, and nothing shared is written while a worker may read it. */
  lemma JobsInsideBarriers(c: Config, states: seq<State>, actions: seq<Action>, k: nat, w: nat)
    requires c.Valid() && IsRun(c, states, actions) && k < |states| && w < c.n
    ensures |states[k].workers| == c.n
    ensures states[k].workers[w].Running? ==> InsideBarriers(states[k]) && states[k].workers[w].call.end <= c.rows
    ensures WritesShared(states[k].main) ==> !MayRead(states[k], states[k].workers[w]) && !states[k].workers[w].Running?
  {
    InvRun(c, states, actions, k);
    var s := states[k];
    if Startup(s.main) {
      assert StartupPlace(s.main, w, s.workers[w]);
    } else {
      assert LivePlace(s, s.workers[w]) && WorkerData(c, s, w);
    }
  }

  /** The barriers are destroyed only when every created worker has exited, so no thread can touch them again. */
  lemma DestroyedAfterJoin(c: Config, states: seq<State>, actions: seq<Action>, k: nat, w: nat)
    requires c.Valid() && IsRun(c, states, actions) && k < |states| && w < c.n
    ensures |states[k].workers| == c.n
    ensures states[k].destroyed || states[k].main == Closing(CloseDestroy) ||
            (states[k].main.Failing? && states[k].main.fail.FailDestroy?)
            ==> (states[k].workers[w].Exited? || states[k].workers[w].NotCreated?) && !WorkerEnabled(states[k], w)
  {
    InvRun(c, states, actions, k);
    var s := states[k];
    if Startup(s.main) {
      assert StartupPlace(s.main, w, s.workers[w]);
    }
  }

  /** If creating any thread fails, no worker ever enters a barrier or runs a job. */
  lemma FailedInitIsClosed(c: Config, states: seq<State>, actions: seq<Action>, k: nat, earlier: nat, w: nat)
    requires c.Valid() && IsRun(c, states, actions) && k < |states| && states[k].main.Failing?
    requires earlier <= k && w < c.n
    ensures |states[earlier].workers| == |states[earlier].log| == c.n
    ensures states[earlier].log[w] == []
    ensures var worker := states[earlier].workers[w];
            worker.NotCreated? || InGate(worker) || worker.GateWait? || worker.Exited?
  {
    InvRun(c, states, actions, earlier);
    FailingComesFrom(c, states, actions, k, earlier);
    assert StartupPlace(states[earlier].main, w, states[earlier].workers[w]);
  }

  lemma FailingStep(c: Config, s: State, a: Action, t: State)
    requires Next(c, s, a, t) && !s.main.Failing? && !s.main.Creating?
    ensures !t.main.Failing? && !t.main.Creating?
  {
    match a
    case MainAct =>
      match s.main {
        case Opening(_) => assert t == OpenStep(c, s);
        case Dispatching(_) => assert t == DispatchStep(c, s);
        case Closing(_) => assert t == CloseStep(c, s);
      }
    case WorkerAct(i) =>
      if InGate(s.workers[i]) {
        assert t == GateStep(s, i);
      } else {
        assert t == LoopStep(c, s, i);
      }
    case _ =>
  }

  lemma {:induction false} FailingComesFrom(c: Config, states: seq<State>, actions: seq<Action>, k: nat, earlier: nat)
    requires c.Valid() && IsRun(c, states, actions) && k < |states| && (states[k].main.Failing? || states[k].main.Creating?)
    requires earlier <= k
    ensures states[earlier].main.Failing? || states[earlier].main.Creating?
  {
    if earlier < k {
      assert StepAt(c, states, actions, k);
      if !states[k - 1].main.Failing? && !states[k - 1].main.Creating? {
        FailingStep(c, states[k - 1], actions[k - 1], states[k]);
      }
      FailingComesFrom(c, states, actions, k - 1, earlier);
    }
  }

  /** No call can get stuck: until it returns, some thread can move without a spurious wakeup. */
  lemma NoDeadlock(c: Config, states: seq<State>, actions: seq<Action>, k: nat)
    requires c.Valid() && IsRun(c, states, actions) && k < |states|
    requires InCall(states[k].main)
    ensures MainEnabled(c, states[k]) || exists i :: WorkerEnabled(states[k], i)
  {
    InvRun(c, states, actions, k);
    var s := states[k];
    if Startup(s.main) {
      StartupProgress(c, s);
    } else {
      RoundProgress(c, s);
    }
  }

  /** Is an init, dispatch or shutdown call in progress? */
  predicate InCall(m: Main) {
    m != Idle && m != Closing(CloseDone) && !(m.Failing? && m.fail.FailDone?)
  }

  lemma StartupProgress(c: Config, s: State)
    requires Inv(c, s) && Startup(s.main) && InCall(s.main)
    ensures MainEnabled(c, s) || exists i :: WorkerEnabled(s, i)
  {
    if s.mutex.ByWorker? {
      assert WorkerHolds(s.workers[s.mutex.index]);
      assert WorkerEnabled(s, s.mutex.index);
    } else if s.main == Opening(ReadyWait) {
      TallyFull(s.workers, Counted);
      var i :| 0 <= i < c.n && !IsKind(Counted, s.workers[i]);
      assert StartupPlace(s.main, i, s.workers[i]);
      assert WorkerEnabled(s, i);
    } else if s.main.Failing? && s.main.fail.FailJoin? && !MainEnabled(c, s) {
      var i := s.main.fail.next;
      assert StartupPlace(s.main, i, s.workers[i]);
      assert WorkerEnabled(s, i);
    }
  }

  lemma RoundProgress(c: Config, s: State)
    requires Inv(c, s) && !Startup(s.main) && InCall(s.main)
    ensures MainEnabled(c, s) || exists i :: WorkerEnabled(s, i)
  {
    if !MainEnabled(c, s) {
      TallyFull(s.workers, WaitingStart(s.start.phase));
      TallyFull(s.workers, WaitingStop(s.stop.phase));
      var i :| 0 <= i < c.n &&
        if MainWaitsStart(s) == 1 then !IsKind(WaitingStart(s.start.phase), s.workers[i])
        else if MainWaitsStop(s) == 1 then !IsKind(WaitingStop(s.stop.phase), s.workers[i])
        else !s.workers[i].Exited?;
      assert LivePlace(s, s.workers[i]);
      assert WorkerEnabled(s, i);
    }
  }

  // ---------------------------------------------------------- termination

  function FailRank(n: nat, pc: FailPc): nat {
    match pc
    case FailLock => n + 6
    case FailSet => n + 5
    case FailUnlock => n + 4
    case FailJoin(next) => 2 + if next < n then n - next else 0
    case FailDestroy => 1
    case FailDone => 0
  }

  function OpenRank(unsignalled: nat, pc: OpenPc): nat {
    match pc
    case ReadyLock => 4 * unsignalled + 6
    case ReadySet => 4 * unsignalled + 5
    case ReadyRelock => 4 * unsignalled + 4
    case ReadyTest => 4 * unsignalled + 3
    case ReadyWait => 4 * unsignalled + 2
    case ReadyUnlock => 1
  }

  function DispatchRank(start: nat, stop: nat, pc: DispatchPc): nat {
    match pc
    case PutJob(_) => 9
    case PutSlots(_) => 8
    case PutGeneration(_) => 7
    case MainAtStart => 6
    case MainInStart(t) => if t < start then 4 else 5
    case MainAtStop => 3
    case MainInStop(t) => if t < stop then 1 else 2
  }

  function CloseRank(n: nat, start: nat, pc: ClosePc): nat {
    match pc
    case CloseSet => n + 7
    case CloseAtStart => n + 6
    case CloseInStart(t) => if t < start then n + 4 else n + 5
    case CloseJoin(next) => 2 + if next < n then n - next else 0
    case CloseDestroy => 1
    case CloseDone => 0
  }

  /** What is left of the main thread's call, counting a wait twice: before and after its release. */
  function MainRank(c: Config, s: State): nat {
    match s.main
    case Creating(index) => 4 * c.n + 7 + if index < c.n then c.n - index else 0
    case Failing(_, pc) => FailRank(c.n, pc)
    case Opening(pc) => OpenRank(Tally(s.workers, Unsignalled), pc)
    case Idle => 0
    case Dispatching(pc) => DispatchRank(s.start.phase, s.stop.phase, pc)
    case Closing(pc) => CloseRank(c.n, s.start.phase, pc)
  }

  /** How many steps worker `w` can take before it next depends on the main thread. */
  function Weight(start: nat, rows: nat, w: Worker): nat {
    match w
    case NotCreated => 0
    case GateLock => 20
    case GateTest => 19
    case GateWait => 18
    case GateCount => 17
    case GateSignal => 16
    case GateUnlock => 15
    case GateQuit => 14
    case AtStart => 2
    case InStart(t) => if t < start then rows + 8 else 1
    case TestExit => rows + 7
    case Load => rows + 6
    case Running(call, next) => 5 + if next < call.end then call.end - next else 0
    case AtStop => 4
    case InStop(_) => 3
    case Exited => 0
  }

  function Weights(start: nat, rows: nat, workers: seq<Worker>): nat {
    if workers == [] then 0
    else Weights(start, rows, workers[..|workers| - 1]) + Weight(start, rows, workers[|workers| - 1])
  }

  lemma {:induction false} WeightsSet(start: nat, rows: nat, workers: seq<Worker>, i: nat, w: Worker)
    requires i < |workers|
    ensures Weights(start, rows, workers[i := w]) + Weight(start, rows, workers[i])
         == Weights(start, rows, workers) + Weight(start, rows, w)
  {
    var last := |workers| - 1;
    if i == last {
      assert workers[i := w][..last] == workers[..last];
    } else {
      assert workers[i := w][..last] == workers[..last][i := w];
      WeightsSet(start, rows, workers[..last], i, w);
    }
  }

  lemma {:induction false} WeightsBound(start: nat, rows: nat, workers: seq<Worker>, most: nat)
    requires forall i | 0 <= i < |workers| :: Weight(start, rows, workers[i]) <= most
    ensures Weights(start, rows, workers) <= |workers| * most
  {
    if workers != [] {
      var last := |workers| - 1;
      WeightsBound(start, rows, workers[..last], most);
      assert |workers| * most == last * most + most;
    }
  }

  function TotalWeight(c: Config, s: State): nat {
    Weights(s.start.phase, c.rows, s.workers)
  }

  /** An upper bound on the steps all workers can take between two steps of the main thread. */
  function Budget(c: Config): nat {
    c.n * (c.rows + 20)
  }

  /** An upper bound on the steps left in the current call. */
  function StepsLeft(c: Config, s: State): nat {
    MainRank(c, s) * (Budget(c) + 1) + TotalWeight(c, s)
  }

  predicate Internal(a: Action) {
    a.MainAct? || a.WorkerAct? || a.CreateFails?
  }

  lemma WeightBounded(c: Config, s: State)
    requires Inv(c, s)
    ensures TotalWeight(c, s) <= Budget(c)
  {
    forall i | 0 <= i < c.n
      ensures Weight(s.start.phase, c.rows, s.workers[i]) <= c.rows + 20
    {
      if Startup(s.main) {
        assert StartupPlace(s.main, i, s.workers[i]);
      } else {
        assert WorkerData(c, s, i);
      }
    }
    WeightsBound(s.start.phase, c.rows, s.workers, c.rows + 20);
  }

  lemma RankCreate(c: Config, s: State, t: State)
    requires Shaped(c, s) && s.main.Creating? && t == CreateStep(c, s)
    ensures MainRank(c, t) < MainRank(c, s)
  {
    TallyFull(t.workers, Unsignalled);
  }

  lemma RankFail(c: Config, s: State, t: State)
    requires Shaped(c, s) && MainEnabled(c, s) && s.main.Failing? && t == FailStep(s)
    ensures MainRank(c, t) < MainRank(c, s)
  {
  }

  lemma RankOpen(c: Config, s: State, t: State)
    requires Shaped(c, s) && MainEnabled(c, s) && s.main.Opening? && t == OpenStep(c, s)
    ensures MainRank(c, t) < MainRank(c, s)
  {
    TallySame(Woken(s.workers), s.workers, Unsignalled);
  }

  lemma RankMainLive(c: Config, s: State, t: State)
    requires Shaped(c, s) && MainEnabled(c, s) && !Startup(s.main) && t == Apply(c, s, MainAct)
    ensures MainRank(c, t) < MainRank(c, s)
  {
  }

  /** A step either brings the main thread nearer its return, or leaves it there and uses up a worker's weight. */
  ghost predicate Nearer(c: Config, s: State, t: State) {
    MainRank(c, t) < MainRank(c, s) || (MainRank(c, t) == MainRank(c, s) && TotalWeight(c, t) < TotalWeight(c, s))
  }

  lemma RankSignal(c: Config, s: State, i: nat, t: State)
    requires Shaped(c, s) && StartupInv(c, s)
    requires WorkerEnabled(s, i) && s.workers[i].GateSignal? && t == GateStep(s, i)
    ensures Nearer(c, s, t)
  {
    assert StartupPlace(s.main, i, s.workers[i]);
    var w := GateUnlock;
    TallySet(s.workers, Unsignalled, i, w);
    TallySame(Woken(s.workers[i := w]), s.workers[i := w], Unsignalled);
  }

  /** The main thread stays where it is and worker `i` moves to a lighter place. */
  lemma RankMove(c: Config, s: State, i: nat, w: Worker, t: State)
    requires i < |s.workers| && t.workers == s.workers[i := w] && t.main == s.main && t.start == s.start && t.stop == s.stop
    requires Weight(s.start.phase, c.rows, w) < Weight(s.start.phase, c.rows, s.workers[i])
    requires s.main.Opening? ==> IsKind(Unsignalled, w) == IsKind(Unsignalled, s.workers[i])
    ensures Nearer(c, s, t)
  {
    TallySet(s.workers, Unsignalled, i, w);
    WeightsSet(s.start.phase, c.rows, s.workers, i, w);
  }

  lemma RankGate(c: Config, s: State, i: nat, t: State)
    requires Shaped(c, s) && StartupInv(c, s)
    requires WorkerEnabled(s, i) && InGate(s.workers[i]) && !s.workers[i].GateSignal? && t == GateStep(s, i)
    ensures Nearer(c, s, t)
  {
    assert StartupPlace(s.main, i, s.workers[i]);
    RankMove(c, s, i, t.workers[i], t);
  }

  lemma RankStartupArrive(c: Config, s: State, i: nat, t: State)
    requires Shaped(c, s) && StartupInv(c, s)
    requires WorkerEnabled(s, i) && s.workers[i].AtStart? && t == LoopStep(c, s, i)
    ensures Nearer(c, s, t)
  {
    TallySet(s.workers, Unsignalled, i, t.workers[i]);
    WeightsSet(s.start.phase, c.rows, s.workers, i, t.workers[i]);
    TallyFull(s.workers, WaitingStart(0));
  }

  lemma RankArriveStart(c: Config, s: State, i: nat, t: State)
    requires Shaped(c, s) && LiveInv(c, s) && i < c.n && s.workers[i].AtStart? && t == LoopStep(c, s, i)
    ensures Nearer(c, s, t)
  {
    if s.start.count == c.n {
      AllWaiting(c, s, WaitingStart(s.start.phase), i, InStart(s.start.phase));
    } else {
      RankMove(c, s, i, t.workers[i], t.(start := s.start));
    }
  }

  lemma RankArriveStop(c: Config, s: State, i: nat, t: State)
    requires Shaped(c, s) && LiveInv(c, s) && i < c.n && s.workers[i].AtStop? && t == LoopStep(c, s, i)
    ensures Nearer(c, s, t)
  {
    if s.stop.count == c.n {
      AllWaiting(c, s, WaitingStop(s.stop.phase), i, InStop(s.stop.phase));
    } else {
      RankMove(c, s, i, t.workers[i], t.(stop := s.stop));
    }
  }

  lemma RankLoad(c: Config, s: State, i: nat, t: State)
    requires Shaped(c, s) && !Startup(s.main) && i < c.n && s.workers[i].Load? && t == LoopStep(c, s, i)
    ensures Nearer(c, s, t)
  {
    BandBounds(c, i);
    WeightsSet(s.start.phase, c.rows, s.workers, i, t.workers[i]);
  }

  lemma RankWork(c: Config, s: State, i: nat, t: State)
    requires Shaped(c, s) && !Startup(s.main)
    requires WorkerEnabled(s, i) && !InGate(s.workers[i])
    requires !s.workers[i].AtStart? && !s.workers[i].AtStop? && !s.workers[i].Load?
    requires t == LoopStep(c, s, i)
    ensures Nearer(c, s, t)
  {
    RankMove(c, s, i, t.workers[i], t);
  }

  lemma Lexicographic(rank: nat, rank': nat, weight: nat, weight': nat, bound: nat)
    requires weight' <= bound
    requires rank' < rank || (rank' == rank && weight' < weight)
    ensures rank' * (bound + 1) + weight' < rank * (bound + 1) + weight
  {
    if rank' < rank {
      MulLe(rank' + 1, rank, bound + 1);
    }
  }

  lemma InternalNearer(c: Config, s: State, a: Action, t: State)
    requires Inv(c, s) && Next(c, s, a, t) && Internal(a)
    ensures Nearer(c, s, t)
  {
    match a
    case MainAct =>
      match s.main {
        case Creating(_) => RankCreate(c, s, t);
        case Failing(_, _) => RankFail(c, s, t);
        case Opening(_) => RankOpen(c, s, t);
        case _ => RankMainLive(c, s, t);
      }
    case CreateFails =>
    case WorkerAct(i) =>
      if Startup(s.main) {
        assert StartupPlace(s.main, i, s.workers[i]);
        if s.workers[i].GateSignal? {
          RankSignal(c, s, i, t);
        } else if InGate(s.workers[i]) {
          RankGate(c, s, i, t);
        } else {
          RankStartupArrive(c, s, i, t);
        }
      } else {
        assert LivePlace(s, s.workers[i]);
        if s.workers[i].AtStart? {
          RankArriveStart(c, s, i, t);
        } else if s.workers[i].AtStop? {
          RankArriveStop(c, s, i, t);
        } else if s.workers[i].Load? {
          RankLoad(c, s, i, t);
        } else {
          RankWork(c, s, i, t);
        }
      }
  }

  /** Every step of a call, by any thread, brings it nearer to its end. */
  lemma StepsDecrease(c: Config, s: State, a: Action, t: State)
    requires Inv(c, s) && Next(c, s, a, t) && Internal(a)
    ensures StepsLeft(c, t) < StepsLeft(c, s)
  {
    InternalNearer(c, s, a, t);
    InvNext(c, s, a, t);
    WeightBounded(c, t);
    Lexicographic(MainRank(c, s), MainRank(c, t), TotalWeight(c, s), TotalWeight(c, t), Budget(c));
  }

  /**
   Every call returns under every schedule: between two events from outside (a new
   call, a spurious wakeup) a run takes at most `StepsLeft` steps, and by NoDeadlock
   it can only stop where no call is in progress.
   */
  lemma {:induction false} CallsReturn(c: Config, states: seq<State>, actions: seq<Action>, from: nat, to: nat)
    requires c.Valid() && IsRun(c, states, actions) && from <= to < |states|
    requires forall k | from <= k < to :: Internal(actions[k])
    ensures to - from + StepsLeft(c, states[to]) <= StepsLeft(c, states[from])
  {
    if from < to {
      CallsReturn(c, states, actions, from, to - 1);
      InvRun(c, states, actions, to - 1);
      assert StepAt(c, states, actions, to);
      StepsDecrease(c, states[to - 1], actions[to - 1], states[to]);
    }
  }
}
