/** The per-branch queues of async_parallel_filter.c as a transition system. Each worker drains its
    own queue; the main thread adds an entry for every branch, and in sync mode it then waits for every
    branch to signal completion. An exit entry makes a worker flush its branch and end, and flush joins
    all workers. As for the other scheduler, every pthread operation is one step. */
module AsyncFilter {
  import opened Runs
  import opened Graph
  import opened Wrappers

  // The filter and whether sync_mode is on.
  datatype Setup = Setup(sys: System, sync: bool)

  datatype MainPc =
    | Ready                            // in the command loop, between two operations
    | Reporting                        // inside write_done
    | AddLock(i: nat) | AddPut(i: nat) | AddSignal(i: nat) | AddUnlock(i: nat)   // ADD_TO_QUEUE
    | AwaitComplete(i: nat) | ParkedComplete(i: nat) | WokenComplete(i: nat)     // sync mode only
    | Join(i: nat)                     // pthread_join

  datatype WorkerPc =
    | WaitLock                         // WAIT_FOR_QUEUE: about to lock
    | WaitCond                         // about to call the condition wait
    | Parked                           // waiting, queue mutex released
    | Woken                            // signalled, queue mutex not yet taken back
    | WaitUnlock
    | TakeLock | Take | TakeUnlock(item: Option<Call>)   // REMOVE_FROM_QUEUE
    | Running(call: Call, e: Emission) // inside the downstream execute or flush
    | LockComplete | SignalComplete | UnlockComplete
    | Terminated

  // `queue` holds the entries not yet taken (an exit entry is Flush). `signals` counts the signals
  // sent to the worker so far and `waitedAt` is that count when the worker last began to wait.
  datatype Branch = Branch(pc: WorkerPc, mutex: Owner, complete: Owner, queue: seq<Call>,
                           history: seq<Call>, signals: nat, waitedAt: nat)

  datatype State = State(next: nat, main: MainPc, branches: seq<Branch>, port: Port)

  function Return(s: State): State {
    s.(next := s.next + 1, main := Ready, port := CloseSegment(s.port))
  }

  function SetBranch(s: State, i: nat, b: Branch): State
    requires i < |s.branches|
  {
    s.(branches := s.branches[i := b])
  }

  predicate MainInRange(s: State) {
    match s.main
    case Ready => true
    case Reporting => true
    case _ => s.main.i < |s.branches|
  }

  predicate MainEnabled(cfg: Setup, s: State) {
    && s.next < |cfg.sys.ops|
    && MainInRange(s)
    && match s.main
       case Ready => true
       case Reporting => cfg.sys.ops[s.next].Report?
       case AddLock(i) => s.branches[i].mutex.Free?
       case AddPut(_) => cfg.sys.ops[s.next].Fan?
       case AddUnlock(_) => cfg.sys.ops[s.next].Fan?
       case ParkedComplete(_) => false
       case WokenComplete(i) => s.branches[i].complete.Free?
       case Join(i) => s.branches[i].pc.Terminated?
       case _ => true
  }

  function MainStep(cfg: Setup, s: State): State
    requires MainEnabled(cfg, s)
  {
    var n := |s.branches|;
    var op := cfg.sys.ops[s.next];
    match s.main
    case Ready =>
      if op.Report? then s.(main := Reporting) else if n > 0 then s.(main := AddLock(0)) else Return(s)
    case Reporting => Return(s.(port := Write(s.port, op.message)))
    case AddLock(i) => SetBranch(s, i, s.branches[i].(mutex := ByMain)).(main := AddPut(i))
    case AddPut(i) =>
      SetBranch(s, i, s.branches[i].(queue := s.branches[i].queue + [op.call])).(main := AddSignal(i))
    case AddSignal(i) =>
      var b := s.branches[i].(signals := s.branches[i].signals + 1);
      SetBranch(s, i, if b.pc.Parked? then b.(pc := Woken) else b).(main := AddUnlock(i))
    case AddUnlock(i) =>
      var s' := SetBranch(s, i, s.branches[i].(mutex := Free));
      if i + 1 < n then s'.(main := AddLock(i + 1))
      else if op.call.Flush? then s'.(main := Join(0))
      else if cfg.sync then s'.(main := AwaitComplete(0))
      else Return(s')
    case AwaitComplete(i) => SetBranch(s, i, s.branches[i].(complete := Free)).(main := ParkedComplete(i))
    case WokenComplete(i) =>
      var s' := SetBranch(s, i, s.branches[i].(complete := ByMain));
      if i + 1 < n then s'.(main := AwaitComplete(i + 1)) else Return(s')
    case Join(i) => if i + 1 < n then s.(main := Join(i + 1)) else Return(s)
  }

  predicate WorkerEnabled(s: State, i: nat) {
    && i < |s.branches|
    && var b := s.branches[i];
       match b.pc
       case WaitLock => b.mutex.Free?
       case Parked => false
       case Woken => b.mutex.Free?
       case TakeLock => b.mutex.Free?
       case Running(_, e) => e.Done() || CanEmit(e, s.port)
       case LockComplete => b.complete.Free?
       case Terminated => false
       case _ => true
  }

  function WorkerStep(cfg: Setup, s: State, i: nat): State
    requires WorkerEnabled(s, i)
  {
    var b := s.branches[i];
    match b.pc
    case WaitLock => SetBranch(s, i, b.(pc := WaitCond, mutex := ByWorker))
    case WaitCond => SetBranch(s, i, b.(pc := Parked, mutex := Free, waitedAt := b.signals))
    case Woken => SetBranch(s, i, b.(pc := WaitUnlock, mutex := ByWorker))
    case WaitUnlock => SetBranch(s, i, b.(pc := TakeLock, mutex := Free))
    case TakeLock => SetBranch(s, i, b.(pc := Take, mutex := ByWorker))
    case Take =>
      SetBranch(s, i,
        if b.queue == [] then b.(pc := TakeUnlock(None))
        else b.(pc := TakeUnlock(Some(b.queue[0])), queue := b.queue[1..]))
    case TakeUnlock(None) => SetBranch(s, i, b.(pc := WaitLock, mutex := Free))
    case TakeUnlock(Some(call)) =>
      var e := Emission(cfg.sys.outputs(i, b.history + [call]), Outside);
      SetBranch(s, i, b.(pc := Running(call, e), mutex := Free))
    case Running(call, e) =>
      if e.Done() then
        var pc := if call.Flush? then Terminated else if cfg.sync then LockComplete else TakeLock;
        SetBranch(s, i, b.(pc := pc, history := b.history + [call]))
      else
        var (e', port') := EmitStep(e, s.port, Worker(i), i);
        SetBranch(s, i, b.(pc := Running(call, e'))).(port := port')
    case LockComplete => SetBranch(s, i, b.(pc := SignalComplete, complete := ByWorker))
    case SignalComplete =>
      var s' := SetBranch(s, i, b.(pc := UnlockComplete));
      if s.main == ParkedComplete(i) then s'.(main := WokenComplete(i)) else s'
    case UnlockComplete => SetBranch(s, i, b.(pc := TakeLock, complete := Free))
  }

  predicate Enabled(cfg: Setup, s: State, t: Thread) {
    match t case Main => MainEnabled(cfg, s) case Worker(i) => WorkerEnabled(s, i)
  }

  function Step(cfg: Setup, s: State, t: Thread): State
    requires Enabled(cfg, s, t)
  {
    match t case Main => MainStep(cfg, s) case Worker(i) => WorkerStep(cfg, s, i)
  }

  function Threads(cfg: Setup): Machine<State> {
    Machine((s, t) => Enabled(cfg, s, t), (s, t) => if Enabled(cfg, s, t) then Step(cfg, s, t) else s)
  }

  ghost predicate Finished(cfg: Setup, s: State) {
    s.next == |cfg.sys.ops| && s.main.Ready?
  }

  /** The state when init returns: the workers exist and have not run yet. */
  ghost predicate Init(cfg: Setup, s: State) {
    && s.next == 0 && s.main.Ready?
    && s.port == Port(None, [], [])
    && |s.branches| == cfg.sys.branches
    && forall i :: 0 <= i < cfg.sys.branches ==>
        s.branches[i] == Branch(WaitLock, Free, ByMain, [], [], 0, 0)
  }
}
