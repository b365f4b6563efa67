/** The trigger/complete handshake of parallel_filter.c as a transition system: one worker per
    downstream branch, and the main thread that runs process, flush and write_done. Every pthread
    operation, every access to the shared slot and every access to the port is one step, and the
    steps of different threads interleave freely. Waits have no spurious wakeups. */
module ParallelFilter {
  import opened Graph
  import opened Wrappers
  import opened Runs

  datatype Slot = Slot(frame: int, timebase: Rational)

  datatype MainPc =
    | Ready                            // in the command loop, between two operations
    | Reporting                        // inside write_done
    | SetFrame | SetTimebase           // about to store into the shared slot
    | LockTrigger(i: nat) | SignalTrigger(i: nat) | UnlockTrigger(i: nat)
    | AwaitComplete(i: nat)            // about to call pthread_cond_wait on `complete`
    | ParkedComplete(i: nat)           // waiting there, complete_mutex released
    | WokenComplete(i: nat)            // signalled, complete_mutex not yet taken back
    | Direct(i: nat)                   // calling the branches itself: flush_graph, or pass-through
    | DirectRunning(i: nat, e: Emission)

  datatype WorkerPc =
    | Start                            // created, trigger_mutex not yet taken
    | WaitTrigger                      // about to call pthread_cond_wait on `trigger`
    | ParkedTrigger                    // waiting there, trigger_mutex released
    | WokenTrigger                     // signalled, trigger_mutex not yet taken back
    | ReadFrame | ReadTimebase(frame: int)
    | Running(call: Call, e: Emission) // inside the downstream execute
    | LockComplete | SignalComplete | UnlockComplete

  datatype Branch = Branch(pc: WorkerPc, trigger: Owner, complete: Owner, history: seq<Call>)

  datatype State = State(next: nat, main: MainPc, slot: Slot, branches: seq<Branch>, port: Port)

  // ---------- steps ----------

  function Return(s: State): State {
    s.(next := s.next + 1, main := Ready, port := CloseSegment(s.port))
  }

  function SetBranch(s: State, i: nat, b: Branch): State
    requires i < |s.branches|
  {
    s.(branches := s.branches[i := b])
  }

  predicate MainInRange(s: State) {
    match s.main
    case LockTrigger(i) => i < |s.branches|
    case SignalTrigger(i) => i < |s.branches|
    case UnlockTrigger(i) => i < |s.branches|
    case AwaitComplete(i) => i < |s.branches|
    case ParkedComplete(i) => i < |s.branches|
    case WokenComplete(i) => i < |s.branches|
    case DirectRunning(i, _) => i < |s.branches|
    case _ => true
  }

  predicate MainEnabled(sys: System, s: State) {
    && s.next < |sys.ops|
    && MainInRange(s)
    && match s.main
       case LockTrigger(i) => s.branches[i].trigger.Free?
       case ParkedComplete(_) => false
       case WokenComplete(i) => s.branches[i].complete.Free?
       case DirectRunning(_, e) => e.Done() || CanEmit(e, s.port)
       case Reporting => sys.ops[s.next].Report?
       case SetFrame => sys.ops[s.next].Fan? && sys.ops[s.next].call.Execute?
       case SetTimebase => sys.ops[s.next].Fan? && sys.ops[s.next].call.Execute?
       case Direct(_) => sys.ops[s.next].Fan?
       case _ => true
  }

  function MainStep(sys: System, s: State): State
    requires MainEnabled(sys, s)
  {
    var n := |s.branches|;
    var op := sys.ops[s.next];
    match s.main
    case Ready =>
      if op.Report? then s.(main := Reporting)
      else if op.call.Execute? && n >= 2 then s.(main := SetFrame)
      else s.(main := Direct(0))
    case Reporting => Return(s.(port := Write(s.port, op.message)))
    case SetFrame => s.(slot := s.slot.(frame := op.call.frame), main := SetTimebase)
    case SetTimebase =>
      s.(slot := s.slot.(timebase := op.call.timebase), main := LockTrigger(0))
    case LockTrigger(i) => SetBranch(s, i, s.branches[i].(trigger := ByMain)).(main := SignalTrigger(i))
    case SignalTrigger(i) =>
      var b := s.branches[i];
      SetBranch(s, i, if b.pc.ParkedTrigger? then b.(pc := WokenTrigger) else b).(main := UnlockTrigger(i))
    case UnlockTrigger(i) =>
      SetBranch(s, i, s.branches[i].(trigger := Free))
        .(main := if i + 1 < n then LockTrigger(i + 1) else AwaitComplete(0))
    case AwaitComplete(i) => SetBranch(s, i, s.branches[i].(complete := Free)).(main := ParkedComplete(i))
    case WokenComplete(i) =>
      var s' := SetBranch(s, i, s.branches[i].(complete := ByMain));
      if i + 1 < n then s'.(main := AwaitComplete(i + 1)) else Return(s')
    case Direct(i) =>
      if i < n then
        s.(main := DirectRunning(i, Emission(sys.outputs(i, s.branches[i].history + [op.call]), Outside)))
      else Return(s)
    case DirectRunning(i, e) =>
      if e.Done() then
        SetBranch(s, i, s.branches[i].(history := s.branches[i].history + CallOf(op))).(main := Direct(i + 1))
      else
        var (e', port') := EmitStep(e, s.port, Main, i);
        s.(main := DirectRunning(i, e'), port := port')
  }

  predicate WorkerEnabled(s: State, i: nat) {
    && i < |s.branches|
    && var b := s.branches[i];
       match b.pc
       case Start => b.trigger.Free?
       case ParkedTrigger => false
       case WokenTrigger => b.trigger.Free?
       case LockComplete => b.complete.Free?
       case Running(_, e) => e.Done() || CanEmit(e, s.port)
       case _ => true
  }

  function WorkerStep(sys: System, s: State, i: nat): State
    requires WorkerEnabled(s, i)
  {
    var b := s.branches[i];
    match b.pc
    case Start => SetBranch(s, i, b.(pc := WaitTrigger, trigger := ByWorker))
    case WaitTrigger => SetBranch(s, i, b.(pc := ParkedTrigger, trigger := Free))
    case WokenTrigger => SetBranch(s, i, b.(pc := ReadFrame, trigger := ByWorker))
    case ReadFrame => SetBranch(s, i, b.(pc := ReadTimebase(s.slot.frame)))
    case ReadTimebase(f) =>
      var call := Execute(f, s.slot.timebase);
      SetBranch(s, i, b.(pc := Running(call, Emission(sys.outputs(i, b.history + [call]), Outside))))
    case Running(call, e) =>
      if e.Done() then SetBranch(s, i, b.(pc := LockComplete, history := b.history + [call]))
      else
        var (e', port') := EmitStep(e, s.port, Worker(i), i);
        SetBranch(s, i, b.(pc := Running(call, e'))).(port := port')
    case LockComplete => SetBranch(s, i, b.(pc := SignalComplete, complete := ByWorker))
    case SignalComplete =>
      var s' := SetBranch(s, i, b.(pc := UnlockComplete));
      if s.main == ParkedComplete(i) then s'.(main := WokenComplete(i)) else s'
    case UnlockComplete => SetBranch(s, i, b.(pc := WaitTrigger, complete := Free))
  }

  predicate Enabled(sys: System, s: State, t: Thread) {
    match t case Main => MainEnabled(sys, s) case Worker(i) => WorkerEnabled(s, i)
  }

  function Step(sys: System, s: State, t: Thread): State
    requires Enabled(sys, s, t)
  {
    match t case Main => MainStep(sys, s) case Worker(i) => WorkerStep(sys, s, i)
  }

  function Threads(sys: System): Machine<State> {
    Machine((s, t) => Enabled(sys, s, t), (s, t) => if Enabled(sys, s, t) then Step(sys, s, t) else s)
  }

  ghost predicate Finished(sys: System, s: State) {
    s.next == |sys.ops| && s.main.Ready?
  }

  /** The state after init: every complete_mutex is held by the main thread, and every worker is
      somewhere on its way into its first wait. */
  ghost predicate Init(sys: System, s: State) {
    && s.next == 0 && s.main.Ready?
    && s.port == Port(None, [], [])
    && |s.branches| == sys.branches
    && forall i :: 0 <= i < sys.branches ==>
        s.branches[i].complete.ByMain? && s.branches[i].history == [] && Fresh(s.branches[i])
  }

  /** Nothing has been triggered on the branch yet. */
  ghost predicate Fresh(b: Branch) {
    match b.pc
    case Start => b.trigger.Free?
    case WaitTrigger => b.trigger.ByWorker?
    case ParkedTrigger => b.trigger.Free?
    case _ => false
  }

  /** No worker has yet to take its trigger_mutex for the first time. */
  ghost predicate AllStarted(s: State) {
    forall i :: 0 <= i < |s.branches| ==> !s.branches[i].pc.Start?
  }
}
