/** The inductive invariant of the trigger/complete handshake. It is stated branch by branch, and one
    small lemma says that a step of the main thread, or of a worker, keeps each part of it. */
module ParallelInvariant {
  import opened Graph
  import opened Wrappers
  import opened ParallelFilter
  import opened Runs

  // How far the main thread's current round has come for one branch.
  datatype Phase = Untriggered | Triggered | Awaited | Acknowledged | Completed

  function PhaseOf(main: MainPc, i: nat): Phase {
    match main
    case LockTrigger(j) => if i < j then Triggered else Untriggered
    case SignalTrigger(j) => if i < j then Triggered else Untriggered
    case UnlockTrigger(j) => if i <= j then Triggered else Untriggered
    case AwaitComplete(j) => if i < j then Completed else Triggered
    case ParkedComplete(j) => if i < j then Completed else if i == j then Awaited else Triggered
    case WokenComplete(j) => if i < j then Completed else if i == j then Acknowledged else Triggered
    case _ => Untriggered
  }

  predicate Idle(pc: WorkerPc) { pc.WaitTrigger? || pc.ParkedTrigger? }

  /** The worker has not been woken since it was created or since it last signalled completion. */
  predicate Unwoken(pc: WorkerPc) { pc.Start? || Idle(pc) }

  predicate Reading(pc: WorkerPc) { pc.ReadFrame? || pc.ReadTimebase? || pc.Running? }

  /** Where worker `i` can be, given where the main thread is. A worker that is unwoken although it was
      triggered has missed its trigger. */
  predicate Placed(main: MainPc, pc: WorkerPc, i: nat) {
    match PhaseOf(main, i)
    case Untriggered => Unwoken(pc) && (main == SignalTrigger(i) ==> pc.ParkedTrigger? || pc.Start?)
    case Triggered =>
      && (Unwoken(pc) || pc.WokenTrigger? || Reading(pc) || pc.LockComplete?)
      && (main == UnlockTrigger(i) ==> pc.WokenTrigger? || pc.Start?)
    case Awaited => Unwoken(pc) || pc.WokenTrigger? || Reading(pc) || pc.LockComplete? || pc.SignalComplete?
    case Acknowledged => pc.UnlockComplete? || Idle(pc)
    case Completed => Idle(pc)
  }

  /** Who holds the two mutexes of branch `i`. */
  predicate Locked(main: MainPc, b: Branch, i: nat) {
    && (b.trigger.ByMain? <==> main == SignalTrigger(i) || main == UnlockTrigger(i))
    && (b.trigger.ByWorker? <==> !(b.pc.Start? || b.pc.ParkedTrigger? || b.pc.WokenTrigger?))
    && (b.complete.ByWorker? <==> b.pc.SignalComplete? || b.pc.UnlockComplete?)
    && (b.complete.ByMain? <==> main != ParkedComplete(i) && main != WokenComplete(i))
  }

  /** Whether the current operation's call is already in the history of branch `i`. */
  predicate Counted(main: MainPc, pc: WorkerPc, i: nat) {
    match main
    case Direct(j) => i < j
    case DirectRunning(j, _) => i < j
    case _ =>
      match PhaseOf(main, i)
      case Untriggered => false
      case Completed => true
      case Acknowledged => true
      case _ => pc.LockComplete? || pc.SignalComplete?
  }

  /** What a worker has picked up is what the main thread stored. */
  predicate PickedUp(op: Op, pc: WorkerPc) {
    match pc
    case ReadFrame => true
    case ReadTimebase(f) => op.Fan? && op.call.Execute? && f == op.call.frame
    case Running(call, _) => op == Fan(call)
    case _ => true
  }

  /** The downstream call in progress on branch `i`, if there is one. */
  function InProgress(sys: System, s: State, i: nat): Option<(Call, Emission)>
    requires i < |s.branches|
  {
    if s.branches[i].pc.Running? then Some((s.branches[i].pc.call, s.branches[i].pc.e))
    else if s.main.DirectRunning? && s.main.i == i && s.next < |sys.ops| && sys.ops[s.next].Fan? then
      Some((sys.ops[s.next].call, s.main.e))
    else None
  }

  ghost predicate OpMatches(sys: System, s: State) {
    && (s.main != Ready ==> s.next < |sys.ops|)
    && match s.main
       case Ready => true
       case Reporting => sys.ops[s.next].Report?
       case Direct(i) => sys.ops[s.next].Fan? && i <= |s.branches|
       case DirectRunning(i, _) => sys.ops[s.next].Fan?
       case _ => |s.branches| >= 2 && sys.ops[s.next].Fan? && sys.ops[s.next].call.Execute?
  }

  predicate SlotMatches(sys: System, s: State)
    requires s.main != Ready ==> s.next < |sys.ops|
  {
    match s.main
    case Ready => true
    case Reporting => true
    case SetFrame => true
    case Direct(_) => true
    case DirectRunning(_, _) => true
    case SetTimebase =>
      sys.ops[s.next].Fan? && sys.ops[s.next].call.Execute? && s.slot.frame == sys.ops[s.next].call.frame
    case _ => sys.ops[s.next] == Fan(Execute(s.slot.frame, s.slot.timebase))
  }

  ghost predicate MainOk(sys: System, s: State) {
    && s.next <= |sys.ops|
    && |s.branches| == sys.branches
    && MainInRange(s) && OpMatches(sys, s) && SlotMatches(sys, s)
  }

  ghost predicate BranchOk(sys: System, s: State, i: nat)
    requires i < |s.branches|
  {
    && Placed(s.main, s.branches[i].pc, i)
    && Locked(s.main, s.branches[i], i)
    && (Reading(s.branches[i].pc) ==> s.next < |sys.ops| && PickedUp(sys.ops[s.next], s.branches[i].pc))
  }

  ghost predicate Control(sys: System, s: State) {
    MainOk(sys, s) && forall i :: 0 <= i < |s.branches| ==> BranchOk(sys, s, i)
  }

  ghost predicate HistoryOk(sys: System, s: State, i: nat)
    requires s.next <= |sys.ops| && i < |s.branches|
  {
    s.branches[i].history ==
      CallsUpTo(sys.ops, if Counted(s.main, s.branches[i].pc, i) && s.next < |sys.ops| then s.next + 1 else s.next)
  }

  /** The output mutex is held exactly by the thread that is inside a locked write. */
  ghost predicate OutputHeldByMain(s: State) {
    && (s.port.owner == Some(Main) <==> s.main.DirectRunning? && !s.main.e.stage.Outside?)
    && (s.main.DirectRunning? && s.main.e.stage.Locked? ==> s.main.e.todo != [])
    && (s.port.owner.Some? && s.port.owner.value.Worker? ==> s.port.owner.value.id < |s.branches|)
  }

  ghost predicate OutputHeldBy(s: State, i: nat)
    requires i < |s.branches|
  {
    && (s.port.owner == Some(Worker(i)) <==> s.branches[i].pc.Running? && !s.branches[i].pc.e.stage.Outside?)
    && (s.branches[i].pc.Running? && s.branches[i].pc.e.stage.Locked? ==> s.branches[i].pc.e.todo != [])
  }

  /** What branch `i` has on the port, and still has to put there, is what its calls write. */
  ghost predicate OutputsOk(sys: System, s: State, i: nat)
    requires i < |s.branches|
  {
    match InProgress(sys, s, i)
    case None => Project(s.port.Log(), i) == AllOutputs(sys, i, s.branches[i].history)
    case Some((call, e)) => Project(s.port.Log(), i) + e.todo == AllOutputs(sys, i, s.branches[i].history + [call])
  }

  ghost predicate Segments(sys: System, s: State)
    requires s.next <= |sys.ops|
  {
    && |s.port.closed| == s.next
    && Ordered(sys, s.port.closed)
    && FromBranches(sys, s.port.current)
    && (s.main.Ready? || s.main.Reporting? ==> s.port.current == [])
  }

  ghost predicate Inv(sys: System, s: State) {
    && ReportsAreMarkers(sys.ops)
    && Control(sys, s)
    && (forall i :: 0 <= i < |s.branches| ==> HistoryOk(sys, s, i))
    && OutputHeldByMain(s)
    && (forall i :: 0 <= i < |s.branches| ==> OutputHeldBy(s, i))
    && (forall i :: 0 <= i < |s.branches| ==> OutputsOk(sys, s, i))
    && Segments(sys, s)
  }

  lemma InitInv(sys: System, s: State)
    requires Init(sys, s) && ReportsAreMarkers(sys.ops)
    ensures Inv(sys, s)
  {
  }

  lemma MainStepOk(sys: System, s: State)
    requires Control(sys, s) && MainEnabled(sys, s)
    ensures MainOk(sys, MainStep(sys, s))
  {
  }

  lemma MainStepPlaced(sys: System, s: State, i: nat)
    requires MainOk(sys, s) && i < |s.branches| && BranchOk(sys, s, i) && MainEnabled(sys, s)
    ensures Placed(MainStep(sys, s).main, MainStep(sys, s).branches[i].pc, i)
  {
  }

  lemma MainStepLocked(sys: System, s: State, i: nat)
    requires MainOk(sys, s) && i < |s.branches| && BranchOk(sys, s, i) && MainEnabled(sys, s)
    ensures Locked(MainStep(sys, s).main, MainStep(sys, s).branches[i], i)
  {
  }

  lemma MainStepBranchOk(sys: System, s: State, i: nat)
    requires MainOk(sys, s) && i < |s.branches| && BranchOk(sys, s, i) && MainEnabled(sys, s)
    ensures i < |MainStep(sys, s).branches| && BranchOk(sys, MainStep(sys, s), i)
  {
    MainStepPlaced(sys, s, i);
    MainStepLocked(sys, s, i);
    MainStepReading(sys, s, i);
  }

  /** The main thread never moves on while a worker reads what it stored. */
  lemma MainStepReading(sys: System, s: State, i: nat)
    requires MainOk(sys, s) && i < |s.branches| && BranchOk(sys, s, i) && MainEnabled(sys, s)
    ensures var s' := MainStep(sys, s);
            Reading(s'.branches[i].pc) ==> s'.branches[i].pc == s.branches[i].pc && s'.next == s.next
  {
  }

  lemma WorkerStepOk(sys: System, s: State, w: nat)
    requires Control(sys, s) && WorkerEnabled(s, w)
    ensures MainOk(sys, WorkerStep(sys, s, w))
  {
    assert BranchOk(sys, s, w);
  }

  lemma WorkerStepBranchOk(sys: System, s: State, w: nat, i: nat)
    requires MainOk(sys, s) && WorkerEnabled(s, w) && i < |s.branches|
    requires BranchOk(sys, s, i) && BranchOk(sys, s, w)
    ensures i < |WorkerStep(sys, s, w).branches| && BranchOk(sys, WorkerStep(sys, s, w), i)
  {
    if i == w {
      WorkerStepPlaced(sys, s, w);
      WorkerStepLocked(sys, s, w);
    }
  }

  lemma WorkerStepPlaced(sys: System, s: State, w: nat)
    requires MainOk(sys, s) && WorkerEnabled(s, w) && BranchOk(sys, s, w)
    ensures Placed(WorkerStep(sys, s, w).main, WorkerStep(sys, s, w).branches[w].pc, w)
  {
  }

  lemma WorkerStepLocked(sys: System, s: State, w: nat)
    requires WorkerEnabled(s, w) && Locked(s.main, s.branches[w], w)
    ensures Locked(WorkerStep(sys, s, w).main, WorkerStep(sys, s, w).branches[w], w)
  {
  }

  lemma ControlKept(sys: System, s: State, t: Thread)
    requires Control(sys, s) && Enabled(sys, s, t)
    ensures Control(sys, Step(sys, s, t))
  {
    var s' := Step(sys, s, t);
    match t
    case Main =>
      MainStepOk(sys, s);
      forall i: nat | i < |s'.branches| ensures BranchOk(sys, s', i) {
        MainStepBranchOk(sys, s, i);
      }
    case Worker(w) =>
      WorkerStepOk(sys, s, w);
      forall i: nat | i < |s'.branches| ensures BranchOk(sys, s', i) {
        WorkerStepBranchOk(sys, s, w, i);
      }
  }

  lemma HistoryKeptByMain(sys: System, s: State, i: nat)
    requires MainOk(sys, s) && MainEnabled(sys, s)
    requires i < |s.branches| && BranchOk(sys, s, i) && HistoryOk(sys, s, i)
    ensures HistoryOk(sys, MainStep(sys, s), i)
  {
    MainStepCounts(sys, s, i);
    MainStepReturns(sys, s, i);
    assert CallsUpTo(sys.ops, s.next + 1) == CallsUpTo(sys.ops, s.next) + CallOf(sys.ops[s.next]);
    assert CallsUpTo(sys.ops, s.next) + [] == CallsUpTo(sys.ops, s.next);
  }

  /** The main thread adds to a history only by a call it makes itself. */
  lemma MainStepCounts(sys: System, s: State, i: nat)
    requires MainOk(sys, s) && MainEnabled(sys, s) && i < |s.branches| && BranchOk(sys, s, i)
    ensures var s' := MainStep(sys, s); var b := s.branches[i]; var b' := s'.branches[i];
            s'.next == s.next ==>
              if s.main.DirectRunning? && s.main.e.Done() && i == s.main.i then
                && b'.history == b.history + CallOf(sys.ops[s.next])
                && !Counted(s.main, b.pc, i) && Counted(s'.main, b'.pc, i)
              else b'.history == b.history && Counted(s'.main, b'.pc, i) == Counted(s.main, b.pc, i)
  {
  }

  /** The main thread goes on to its next operation only when every branch has had the current call. */
  lemma MainStepReturns(sys: System, s: State, i: nat)
    requires MainOk(sys, s) && MainEnabled(sys, s) && i < |s.branches| && BranchOk(sys, s, i)
    ensures var s' := MainStep(sys, s); var b := s.branches[i]; var b' := s'.branches[i];
            s'.next == s.next ||
              (s'.next == s.next + 1 && s'.main.Ready? && b'.history == b.history
               && (sys.ops[s.next].Fan? <==> Counted(s.main, b.pc, i)))
  {
  }

  lemma HistoryKeptByWorker(sys: System, s: State, w: nat, i: nat)
    requires MainOk(sys, s) && WorkerEnabled(s, w)
    requires BranchOk(sys, s, w) && i < |s.branches| && HistoryOk(sys, s, i)
    ensures HistoryOk(sys, WorkerStep(sys, s, w), i)
  {
    WorkerStepCounts(sys, s, w, i);
    if s.branches[w].pc.Running? {
      assert CallsUpTo(sys.ops, s.next + 1) == CallsUpTo(sys.ops, s.next) + CallOf(sys.ops[s.next]);
    }
  }

  /** A worker adds to its history exactly when it has executed the current call. */
  lemma WorkerStepCounts(sys: System, s: State, w: nat, i: nat)
    requires MainOk(sys, s) && WorkerEnabled(s, w) && BranchOk(sys, s, w) && i < |s.branches|
    ensures var s' := WorkerStep(sys, s, w); var b := s.branches[i]; var b' := s'.branches[i];
            && s'.next == s.next
            && if i == w && b.pc.Running? && b.pc.e.Done() then
                 b'.history == b.history + [b.pc.call] && !Counted(s.main, b.pc, i) && Counted(s'.main, b'.pc, i)
               else b'.history == b.history && Counted(s'.main, b'.pc, i) == Counted(s.main, b.pc, i)
  {
  }

  lemma OutputMutexKeptByMain(sys: System, s: State, i: nat)
    requires MainEnabled(sys, s) && OutputHeldByMain(s)
    requires i < |s.branches| && OutputHeldBy(s, i)
    ensures OutputHeldBy(MainStep(sys, s), i)
  {
  }

  lemma OutputMutexKeptByWorker(sys: System, s: State, w: nat, i: nat)
    requires WorkerEnabled(s, w) && OutputHeldByMain(s)
    requires OutputHeldBy(s, w) && i < |s.branches| && OutputHeldBy(s, i)
    ensures OutputHeldByMain(WorkerStep(sys, s, w)) && OutputHeldBy(WorkerStep(sys, s, w), i)
  {
  }

  lemma OutputsKeptByMain(sys: System, s: State, i: nat)
    requires ReportsAreMarkers(sys.ops) && MainOk(sys, s) && MainEnabled(sys, s)
    requires i < |s.branches| && BranchOk(sys, s, i) && OutputsOk(sys, s, i)
    ensures OutputsOk(sys, MainStep(sys, s), i)
  {
    match s.main
    case DirectRunning(_, _) => OutputsKeptInDirectCall(sys, s, i);
    case Direct(_) => OutputsKeptByDirectCall(sys, s, i);
    case _ => OutputsKeptInRound(sys, s, i);
  }

  lemma OutputsKeptInDirectCall(sys: System, s: State, i: nat)
    requires MainOk(sys, s) && MainEnabled(sys, s) && s.main.DirectRunning?
    requires i < |s.branches| && BranchOk(sys, s, i) && OutputsOk(sys, s, i)
    ensures OutputsOk(sys, MainStep(sys, s), i)
  {
    var j, e := s.main.i, s.main.e;
    if !e.Done() {
      EmitStepOutputs(e, s.port, Main, j, i);
    } else {
      assert Project(s.port.Log(), j) + [] == Project(s.port.Log(), j);
    }
  }

  lemma OutputsKeptByDirectCall(sys: System, s: State, i: nat)
    requires MainOk(sys, s) && MainEnabled(sys, s) && s.main.Direct?
    requires i < |s.branches| && BranchOk(sys, s, i) && OutputsOk(sys, s, i)
    ensures OutputsOk(sys, MainStep(sys, s), i)
  {
    CloseSegmentLog(s.port);
    AllOutputsSnoc(sys, i, s.branches[i].history, sys.ops[s.next].call);
  }

  lemma OutputsKeptInRound(sys: System, s: State, i: nat)
    requires ReportsAreMarkers(sys.ops) && MainEnabled(sys, s) && !s.main.Direct? && !s.main.DirectRunning?
    requires i < |s.branches| && OutputsOk(sys, s, i)
    ensures OutputsOk(sys, MainStep(sys, s), i)
  {
    RoundStepPort(sys, s, i);
    RoundStepWorker(sys, s, i);
  }

  /** Outside its own calls the main thread only puts completion messages on the port. */
  lemma RoundStepPort(sys: System, s: State, i: nat)
    requires ReportsAreMarkers(sys.ops) && MainEnabled(sys, s) && !s.main.DirectRunning?
    ensures Project(MainStep(sys, s).port.Log(), i) == Project(s.port.Log(), i)
  {
    if s.main.Reporting? {
      var m := sys.ops[s.next].message;
      WriteLog(s.port, m);
      ProjectSnoc(s.port.Log(), m, i);
      CloseSegmentLog(Write(s.port, m));
    } else {
      CloseSegmentLog(s.port);
      assert MainStep(sys, s).port == s.port || MainStep(sys, s).port == CloseSegment(s.port);
    }
  }

  /** And it disturbs no call in progress. */
  lemma RoundStepWorker(sys: System, s: State, i: nat)
    requires MainEnabled(sys, s) && !s.main.Direct? && !s.main.DirectRunning? && i < |s.branches|
    ensures var s' := MainStep(sys, s); var b := s.branches[i]; var b' := s'.branches[i];
            && b'.history == b.history && !s'.main.DirectRunning?
            && (b'.pc == b.pc || (b.pc.ParkedTrigger? && b'.pc.WokenTrigger?))
  {
  }

  lemma OutputsKeptByWorker(sys: System, s: State, w: nat, i: nat)
    requires MainOk(sys, s) && WorkerEnabled(s, w) && BranchOk(sys, s, w)
    requires i < |s.branches| && BranchOk(sys, s, i) && OutputsOk(sys, s, i)
    ensures OutputsOk(sys, WorkerStep(sys, s, w), i)
  {
    match s.branches[w].pc
    case Running(_, e) =>
      if !e.Done() {
        EmitStepOutputs(e, s.port, Worker(w), w, i);
      } else {
        assert Project(s.port.Log(), w) + [] == Project(s.port.Log(), w);
      }
    case ReadTimebase(f) => AllOutputsSnoc(sys, w, s.branches[w].history, Execute(f, s.slot.timebase));
    case _ =>
  }

  /** When a fan-out operation ends, every branch has executed its call. */
  lemma ReturnedMeansExecuted(sys: System, s: State, i: nat)
    requires Inv(sys, s) && MainEnabled(sys, s) && i < |s.branches|
    requires MainStep(sys, s).next != s.next && !s.main.Reporting?
    ensures Project(s.port.Log(), i) == AllOutputs(sys, i, CallsUpTo(sys.ops, s.next + 1))
  {
    assert BranchOk(sys, s, i) && HistoryOk(sys, s, i) && OutputsOk(sys, s, i);
    MainStepReturns(sys, s, i);
  }

  lemma SegmentsKeptByMain(sys: System, s: State)
    requires Inv(sys, s) && MainEnabled(sys, s)
    ensures Segments(sys, MainStep(sys, s))
  {
    var s' := MainStep(sys, s);
    if s.main.DirectRunning? && !s.main.e.Done() {
      EmitStepSegment(sys, s.main.e, s.port, Main, s.main.i);
    } else if s'.next != s.next && !s.main.Reporting? {
      forall i: nat | i < |s.branches|
        ensures Project(s.port.Log(), i) == AllOutputs(sys, i, CallsUpTo(sys.ops, s.next + 1))
      {
        ReturnedMeansExecuted(sys, s, i);
      }
      SegmentComplete(sys, s.port);
    }
  }

  lemma SegmentsKeptByWorker(sys: System, s: State, w: nat)
    requires Inv(sys, s) && WorkerEnabled(s, w)
    ensures Segments(sys, WorkerStep(sys, s, w))
  {
    assert BranchOk(sys, s, w);
    var pc := s.branches[w].pc;
    if pc.Running? && !pc.e.Done() {
      EmitStepSegment(sys, pc.e, s.port, Worker(w), w);
    }
  }

  lemma InvKept(sys: System, s: State, t: Thread)
    requires Inv(sys, s) && Enabled(sys, s, t)
    ensures Inv(sys, Step(sys, s, t))
  {
    var s' := Step(sys, s, t);
    ControlKept(sys, s, t);
    match t
    case Main =>
      SegmentsKeptByMain(sys, s);
      forall i: nat | i < |s'.branches|
        ensures HistoryOk(sys, s', i) && OutputHeldBy(s', i) && OutputsOk(sys, s', i)
      {
        assert BranchOk(sys, s, i);
        HistoryKeptByMain(sys, s, i);
        OutputMutexKeptByMain(sys, s, i);
        OutputsKeptByMain(sys, s, i);
      }
    case Worker(w) =>
      SegmentsKeptByWorker(sys, s, w);
      OutputMutexKeptByWorker(sys, s, w, w);
      forall i: nat | i < |s'.branches|
        ensures HistoryOk(sys, s', i) && OutputHeldBy(s', i) && OutputsOk(sys, s', i)
      {
        assert BranchOk(sys, s, i) && BranchOk(sys, s, w);
        HistoryKeptByWorker(sys, s, w, i);
        OutputMutexKeptByWorker(sys, s, w, i);
        OutputsKeptByWorker(sys, s, w, i);
      }
  }
}
