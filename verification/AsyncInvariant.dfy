/** The inductive invariant of the queued scheduler, branch by branch. */
module AsyncInvariant {
  import opened Runs
  import opened Graph
  import opened Wrappers
  import opened AsyncFilter

  /** Whether the current operation's entry has been put in the queue of branch `i`. */
  predicate Entered(main: MainPc, i: nat) {
    match main
    case Ready => false
    case Reporting => false
    case AddLock(j) => i < j
    case AddPut(j) => i < j
    case AddSignal(j) => i <= j
    case AddUnlock(j) => i <= j
    case _ => true
  }

  /** The entry a worker has taken and not finished with. */
  function InHand(pc: WorkerPc): seq<Call> {
    match pc
    case TakeUnlock(Some(call)) => [call]
    case Running(call, _) => [call]
    case _ => []
  }

  /** Everything put in the queue of branch `i` so far. */
  function EnteredCalls(cfg: Setup, s: State, i: nat): seq<Call>
    requires s.next <= |cfg.sys.ops|
  {
    CallsUpTo(cfg.sys.ops, if Entered(s.main, i) && s.next < |cfg.sys.ops| then s.next + 1 else s.next)
  }

  /** Nothing gets lost or reordered: what was executed, then the entry in hand, then the queue. */
  ghost predicate Delivered(cfg: Setup, s: State, i: nat)
    requires s.next <= |cfg.sys.ops| && i < |s.branches|
  {
    s.branches[i].history + InHand(s.branches[i].pc) + s.branches[i].queue == EnteredCalls(cfg, s, i)
  }

  /** The worker is on its way into a wait, or waits. */
  predicate GoingToWait(pc: WorkerPc) { pc.WaitLock? || pc.WaitCond? || pc.Parked? }

  predicate HoldsQueue(pc: WorkerPc) {
    pc.WaitCond? || pc.WaitUnlock? || pc.Take? || pc.TakeUnlock?
  }

  predicate Adding(main: MainPc, i: nat) {
    main == AddPut(i) || main == AddSignal(i) || main == AddUnlock(i)
  }

  /** Who holds the two mutexes of branch `i`. */
  predicate Locked(main: MainPc, b: Branch, i: nat) {
    && (b.mutex.ByMain? <==> Adding(main, i))
    && (b.mutex.ByWorker? <==> HoldsQueue(b.pc))
    && (b.complete.ByWorker? <==> b.pc.SignalComplete? || b.pc.UnlockComplete?)
    && (b.complete.ByMain? <==> main != ParkedComplete(i) && main != WokenComplete(i))
  }

  predicate Completing(pc: WorkerPc) { pc.LockComplete? || pc.SignalComplete? || pc.UnlockComplete? }

  /** The worker has nothing to do and owes no completion signal. */
  predicate Settled(b: Branch) {
    b.queue == [] && InHand(b.pc) == [] && !Completing(b.pc)
  }

  /** The worker has exactly one entry to deal with, or has executed it and not yet signalled. */
  predicate Busy(b: Branch, call: Call) {
    || (|b.queue| == 1 && InHand(b.pc) == [] && !Completing(b.pc) && !b.pc.Terminated?)
    || (b.queue == [] && InHand(b.pc) != [])
    || (b.queue == [] && (if call.Flush? then b.pc.Terminated? else b.pc.LockComplete?))
  }

  /** In sync mode, how far worker `i` is with the call the main thread is making. */
  predicate InStep(main: MainPc, b: Branch, i: nat, call: Call) {
    match main
    case AwaitComplete(j) => if i < j then Settled(b) else Busy(b, call)
    case ParkedComplete(j) =>
      if i < j then Settled(b)
      else if i == j then Busy(b, call) || (b.queue == [] && b.pc.SignalComplete?)
      else Busy(b, call)
    case WokenComplete(j) =>
      if i < j then Settled(b)
      else if i == j then Settled(b) || (b.queue == [] && b.pc.UnlockComplete?)
      else Busy(b, call)
    case _ => if Entered(main, i) then Busy(b, call) else Settled(b)
  }

  predicate Paced(cfg: Setup, s: State, b: Branch, i: nat) {
    if cfg.sync then
      InStep(s.main, b, i,
        if s.next < |cfg.sys.ops| && cfg.sys.ops[s.next].Fan? then cfg.sys.ops[s.next].call else Flush)
    else !Completing(b.pc)
  }

  predicate EndsWithFlush(calls: seq<Call>) {
    |calls| > 0 && calls[|calls| - 1].Flush?
  }

  ghost predicate BranchOk(cfg: Setup, s: State, i: nat)
    requires s.next <= |cfg.sys.ops| && i < |s.branches|
  {
    var b := s.branches[i];
    && Locked(s.main, b, i)
    && Delivered(cfg, s, i)
    && Paced(cfg, s, b, i)
    && (b.pc.Terminated? <==> EndsWithFlush(b.history))
    && (b.pc == TakeUnlock(None) ==> b.queue == [])
    && (b.pc.Parked? ==> b.waitedAt == b.signals)
    && |EnteredCalls(cfg, s, i)| == b.signals + (if s.main == AddSignal(i) then 1 else 0)
    && (s.main.Join? && i < s.main.i ==> b.pc.Terminated?)
  }

  ghost predicate MainOk(cfg: Setup, s: State) {
    && s.next <= |cfg.sys.ops|
    && |s.branches| == cfg.sys.branches
    && MainInRange(s)
    && (s.main != Ready ==> s.next < |cfg.sys.ops|)
    && match s.main
       case Ready => true
       case Reporting => cfg.sys.ops[s.next].Report?
       case AwaitComplete(_) => cfg.sync && cfg.sys.ops[s.next].Fan? && cfg.sys.ops[s.next].call.Execute?
       case ParkedComplete(_) => cfg.sync && cfg.sys.ops[s.next].Fan? && cfg.sys.ops[s.next].call.Execute?
       case WokenComplete(_) => cfg.sync && cfg.sys.ops[s.next].Fan? && cfg.sys.ops[s.next].call.Execute?
       case Join(_) => cfg.sys.ops[s.next] == Fan(Flush)
       case _ => cfg.sys.ops[s.next].Fan?
  }

  ghost predicate WellFormed(cfg: Setup) {
    ReportsAreMarkers(cfg.sys.ops) && FlushIsLast(cfg.sys.ops)
  }

  /** Only the last call can be a flush. */
  lemma {:induction false} FlushEndsCalls(ops: seq<Op>, k: nat, j: nat)
    requires FlushIsLast(ops) && k <= |ops| && j < |CallsUpTo(ops, k)| && CallsUpTo(ops, k)[j].Flush?
    ensures j == |CallsUpTo(ops, k)| - 1
    ensures exists f :: 0 <= f < k && ops[f] == Fan(Flush)
  {
    if j < |CallsUpTo(ops, k - 1)| {
      FlushEndsCalls(ops, k - 1, j);
    } else {
      assert ops[k - 1] == Fan(Flush);
    }
  }

  /** A worker that has flushed its branch has nothing left. */
  lemma TerminatedIsEmpty(cfg: Setup, s: State, i: nat)
    requires WellFormed(cfg) && s.next <= |cfg.sys.ops| && i < |s.branches| && BranchOk(cfg, s, i)
    requires s.branches[i].pc.Terminated?
    ensures s.branches[i].queue == [] && s.branches[i].history == EnteredCalls(cfg, s, i)
  {
    var k := if Entered(s.main, i) && s.next < |cfg.sys.ops| then s.next + 1 else s.next;
    NothingAfterFlush(cfg.sys.ops, k, s.branches[i].history, InHand(s.branches[i].pc), s.branches[i].queue);
  }

  lemma NothingAfterFlush(ops: seq<Op>, k: nat, history: seq<Call>, inHand: seq<Call>, queue: seq<Call>)
    requires FlushIsLast(ops) && k <= |ops| && history + inHand + queue == CallsUpTo(ops, k) && EndsWithFlush(history)
    ensures queue == [] && history == CallsUpTo(ops, k)
  {
    var calls := CallsUpTo(ops, k);
    var last := |history| - 1;
    assert calls[last] == history[last];
    FlushEndsCalls(ops, k, last);
    assert |calls| == |history| + |inHand| + |queue|;
    assert history + [] + [] == history;
  }

  lemma MainStepOk(cfg: Setup, s: State)
    requires MainOk(cfg, s) && MainEnabled(cfg, s)
    ensures MainOk(cfg, MainStep(cfg, s))
  {
  }

  lemma WorkerStepOk(cfg: Setup, s: State, w: nat)
    requires MainOk(cfg, s) && WorkerEnabled(s, w)
    ensures MainOk(cfg, WorkerStep(cfg, s, w))
  {
  }

  lemma MainStepLocked(cfg: Setup, s: State, i: nat)
    requires MainOk(cfg, s) && MainEnabled(cfg, s) && i < |s.branches| && Locked(s.main, s.branches[i], i)
    ensures Locked(MainStep(cfg, s).main, MainStep(cfg, s).branches[i], i)
  {
  }

  /** The main thread enters the current call for branch `i` with AddPut(i), and it goes on to its next
      operation only when every branch has had the current one entered. */
  lemma MainStepEnters(cfg: Setup, s: State, i: nat)
    requires MainOk(cfg, s) && MainEnabled(cfg, s) && i < |s.branches|
    ensures var s' := MainStep(cfg, s);
            if s'.next == s.next then
              && Entered(s'.main, i) == (Entered(s.main, i) || s.main == AddPut(i))
              && !(Entered(s.main, i) && s.main == AddPut(i))
            else
              && s'.next == s.next + 1 && s'.main.Ready? && s.main != AddPut(i)
              && (Entered(s.main, i) <==> cfg.sys.ops[s.next].Fan?)
  {
  }

  lemma MainStepEntered(cfg: Setup, s: State, i: nat)
    requires MainOk(cfg, s) && MainEnabled(cfg, s) && i < |s.branches|
    ensures EnteredCalls(cfg, MainStep(cfg, s), i) ==
      EnteredCalls(cfg, s, i) + (if s.main == AddPut(i) then [cfg.sys.ops[s.next].call] else [])
  {
    MainStepEnters(cfg, s, i);
    assert CallsUpTo(cfg.sys.ops, s.next + 1) == CallsUpTo(cfg.sys.ops, s.next) + CallOf(cfg.sys.ops[s.next]);
    assert CallsUpTo(cfg.sys.ops, s.next) + [] == CallsUpTo(cfg.sys.ops, s.next);
  }

  lemma MainStepPaced(cfg: Setup, s: State, i: nat)
    requires MainOk(cfg, s) && MainEnabled(cfg, s) && i < |s.branches|
    requires Locked(s.main, s.branches[i], i) && Paced(cfg, s, s.branches[i], i)
    requires s.main.Join? && i < s.main.i ==> s.branches[i].pc.Terminated?
    requires s.branches[i].pc.Terminated? ==> s.main != AddPut(i)
    ensures Paced(cfg, MainStep(cfg, s), MainStep(cfg, s).branches[i], i)
  {
    if Waiting(s.main) {
      WaitingStepPaced(cfg, s, i);
    } else {
      AddingStepPaced(cfg, s, i);
    }
  }

  predicate Waiting(main: MainPc) {
    main.AwaitComplete? || main.ParkedComplete? || main.WokenComplete? || main.Join?
  }

  lemma WaitingStepPaced(cfg: Setup, s: State, i: nat)
    requires MainOk(cfg, s) && MainEnabled(cfg, s) && i < |s.branches| && Waiting(s.main)
    requires Locked(s.main, s.branches[i], i) && Paced(cfg, s, s.branches[i], i)
    requires s.main.Join? && i < s.main.i ==> s.branches[i].pc.Terminated?
    ensures Paced(cfg, MainStep(cfg, s), MainStep(cfg, s).branches[i], i)
  {
  }

  lemma AddingStepPaced(cfg: Setup, s: State, i: nat)
    requires MainOk(cfg, s) && MainEnabled(cfg, s) && i < |s.branches| && !Waiting(s.main)
    requires Locked(s.main, s.branches[i], i) && Paced(cfg, s, s.branches[i], i)
    requires s.branches[i].pc.Terminated? ==> s.main != AddPut(i)
    ensures Paced(cfg, MainStep(cfg, s), MainStep(cfg, s).branches[i], i)
  {
  }

  /** Once a worker has ended, no further call is made on the graph. */
  lemma TerminatedIsLast(cfg: Setup, s: State, i: nat)
    requires WellFormed(cfg) && MainOk(cfg, s) && i < |s.branches| && BranchOk(cfg, s, i)
    requires s.branches[i].pc.Terminated? && !Entered(s.main, i) && s.next < |cfg.sys.ops|
    ensures cfg.sys.ops[s.next].Report?
  {
    TerminatedIsEmpty(cfg, s, i);
    var h := s.branches[i].history;
    FlushEndsCalls(cfg.sys.ops, s.next, |h| - 1);
  }

  lemma MainStepBranchOk(cfg: Setup, s: State, i: nat)
    requires WellFormed(cfg) && MainOk(cfg, s) && MainEnabled(cfg, s) && i < |s.branches| && BranchOk(cfg, s, i)
    ensures MainOk(cfg, MainStep(cfg, s)) && BranchOk(cfg, MainStep(cfg, s), i)
  {
    MainStepOk(cfg, s);
    MainStepLocked(cfg, s, i);
    MainStepEntered(cfg, s, i);
    if s.main == AddPut(i) && s.branches[i].pc.Terminated? {
      TerminatedIsLast(cfg, s, i);
    }
    MainStepPaced(cfg, s, i);
    MainStepQueue(cfg, s, i);
    MainStepWorker(cfg, s, i);
    assert s.branches[i].queue + [] == s.branches[i].queue;
  }

  /** What the main thread does to the queue and the signals of a branch. */
  lemma MainStepQueue(cfg: Setup, s: State, i: nat)
    requires MainEnabled(cfg, s) && i < |s.branches|
    ensures var s' := MainStep(cfg, s); var b := s.branches[i]; var b' := s'.branches[i];
            && b'.queue == (if s.main == AddPut(i) then b.queue + [cfg.sys.ops[s.next].call] else b.queue)
            && b'.signals == b.signals + (if s.main == AddSignal(i) then 1 else 0)
            && b'.waitedAt == b.waitedAt
  {
  }

  /** And to its worker. */
  lemma MainStepWorker(cfg: Setup, s: State, i: nat)
    requires MainEnabled(cfg, s) && i < |s.branches|
    ensures var s' := MainStep(cfg, s); var b := s.branches[i]; var b' := s'.branches[i];
            && b'.history == b.history
            && b'.pc == (if s.main == AddSignal(i) && b.pc.Parked? then Woken else b.pc)
            && (s'.main.Join? && i < s'.main.i ==> s.main.Join? && (i < s.main.i || b.pc.Terminated?))
            && (s'.main == AddSignal(i) <==> s.main == AddPut(i))
  {
  }

  lemma WorkerStepLocked(cfg: Setup, s: State, w: nat, i: nat)
    requires WorkerEnabled(s, w) && i < |s.branches| && Locked(s.main, s.branches[i], i)
    ensures Locked(WorkerStep(cfg, s, w).main, WorkerStep(cfg, s, w).branches[i], i)
  {
  }

  lemma WorkerStepEntered(cfg: Setup, s: State, w: nat, i: nat)
    requires MainOk(cfg, s) && WorkerEnabled(s, w)
    ensures var s' := WorkerStep(cfg, s, w);
            s'.next == s.next && Entered(s'.main, i) == Entered(s.main, i) && s'.main.Join? == s.main.Join?
    ensures var s' := WorkerStep(cfg, s, w);
            || s'.main == s.main
            || (s.main == ParkedComplete(w) && s'.main == WokenComplete(w) && s.branches[w].pc.SignalComplete?)
    ensures i < |s.branches| && i != w ==> WorkerStep(cfg, s, w).branches[i] == s.branches[i]
  {
  }

  /** A worker's step does not disturb another branch. */
  lemma WorkerStepSparesOthers(cfg: Setup, s: State, w: nat, i: nat)
    requires MainOk(cfg, s) && WorkerEnabled(s, w) && i < |s.branches| && BranchOk(cfg, s, i) && i != w
    ensures BranchOk(cfg, WorkerStep(cfg, s, w), i)
  {
    WorkerStepEntered(cfg, s, w, i);
    WorkerStepLocked(cfg, s, w, i);
  }

  lemma WorkerStepDelivers(cfg: Setup, s: State, w: nat)
    requires WorkerEnabled(s, w)
    ensures var b := s.branches[w]; var b' := WorkerStep(cfg, s, w).branches[w];
            b'.history + InHand(b'.pc) + b'.queue == b.history + InHand(b.pc) + b.queue
  {
    var b := s.branches[w];
    match b.pc
    case Take =>
      if b.queue != [] {
        assert b.queue == [b.queue[0]] + b.queue[1..];
      }
    case Running(call, e) =>
    case _ =>
  }

  lemma WorkerStepPaced(cfg: Setup, s: State, w: nat)
    requires MainOk(cfg, s) && WorkerEnabled(s, w)
    requires Paced(cfg, s, s.branches[w], w) && Locked(s.main, s.branches[w], w)
    requires InHand(s.branches[w].pc) != [] && Entered(s.main, w) && s.branches[w].queue == [] ==>
      s.next < |cfg.sys.ops| && cfg.sys.ops[s.next].Fan? && InHand(s.branches[w].pc) == [cfg.sys.ops[s.next].call]
    ensures Paced(cfg, WorkerStep(cfg, s, w), WorkerStep(cfg, s, w).branches[w], w)
  {
    WorkerStepEntered(cfg, s, w, w);
    if cfg.sync {
      var call := if s.next < |cfg.sys.ops| && cfg.sys.ops[s.next].Fan? then cfg.sys.ops[s.next].call else Flush;
      WorkerStepPace(cfg, s, w, call);
      WorkerStepCompletes(cfg, s, w);
    }
  }

  /** How one step of a worker moves it on with the only call it has, in sync mode. */
  lemma WorkerStepPace(cfg: Setup, s: State, w: nat, call: Call)
    requires cfg.sync && WorkerEnabled(s, w)
    requires var b := s.branches[w];
             InHand(b.pc) != [] && b.queue == [] && Busy(b, call) ==> InHand(b.pc) == [call]
    ensures var b := s.branches[w]; var b' := WorkerStep(cfg, s, w).branches[w];
            && (Settled(b) ==> Settled(b'))
            && (Busy(b, call) ==> Busy(b', call) || (b.pc.LockComplete? && b'.queue == [] && b'.pc.SignalComplete?))
            && (b.pc.SignalComplete? ==> b'.pc.UnlockComplete? && b'.queue == b.queue)
            && (b.pc.UnlockComplete? && b.queue == [] ==> Settled(b'))
  {
  }

  /** The completion signal goes through the complete_mutex. */
  lemma WorkerStepCompletes(cfg: Setup, s: State, w: nat)
    requires WorkerEnabled(s, w) && Locked(s.main, s.branches[w], w)
    ensures s.branches[w].pc.LockComplete? || s.branches[w].pc.SignalComplete? || s.branches[w].pc.UnlockComplete? ==>
      s.main == ParkedComplete(w) || s.main == WokenComplete(w)
    ensures s.branches[w].pc.SignalComplete? && s.main == ParkedComplete(w) ==>
      WorkerStep(cfg, s, w).main == WokenComplete(w)
  {
  }

  lemma WorkerStepRest(cfg: Setup, s: State, w: nat)
    requires WorkerEnabled(s, w) && (s.branches[w].pc.Terminated? <==> EndsWithFlush(s.branches[w].history))
    requires s.branches[w].pc == TakeUnlock(None) ==> s.branches[w].queue == []
    ensures var b := s.branches[w]; var b' := WorkerStep(cfg, s, w).branches[w];
            && (b'.pc.Terminated? <==> EndsWithFlush(b'.history))
            && (b'.pc == TakeUnlock(None) ==> b'.queue == [])
            && (b'.pc.Parked? ==> b'.waitedAt == b'.signals)
            && b'.signals == b.signals
  {
  }

  /** In sync mode a worker only has the main thread's current call in hand. */
  lemma InHandIsCurrent(cfg: Setup, s: State, i: nat)
    requires MainOk(cfg, s) && i < |s.branches| && BranchOk(cfg, s, i)
    requires Entered(s.main, i) && InHand(s.branches[i].pc) != [] && s.branches[i].queue == []
    ensures s.next < |cfg.sys.ops| && cfg.sys.ops[s.next].Fan?
    ensures InHand(s.branches[i].pc) == [cfg.sys.ops[s.next].call]
  {
    var b := s.branches[i];
    var all := b.history + InHand(b.pc);
    var before := CallsUpTo(cfg.sys.ops, s.next);
    assert all == all + b.queue == CallsUpTo(cfg.sys.ops, s.next + 1) == before + [cfg.sys.ops[s.next].call];
    assert all[|all| - 1] == InHand(b.pc)[0];
  }

  lemma WorkerStepBranchOk(cfg: Setup, s: State, w: nat, i: nat)
    requires MainOk(cfg, s) && WorkerEnabled(s, w) && i < |s.branches| && BranchOk(cfg, s, i) && BranchOk(cfg, s, w)
    ensures MainOk(cfg, WorkerStep(cfg, s, w)) && BranchOk(cfg, WorkerStep(cfg, s, w), i)
  {
    WorkerStepOk(cfg, s, w);
    if i == w {
      WorkerStepEntered(cfg, s, w, w);
      WorkerStepLocked(cfg, s, w, w);
      WorkerStepDelivers(cfg, s, w);
      if InHand(s.branches[w].pc) != [] && Entered(s.main, w) && s.branches[w].queue == [] {
        InHandIsCurrent(cfg, s, w);
      }
      WorkerStepPaced(cfg, s, w);
      WorkerStepRest(cfg, s, w);
    } else {
      WorkerStepSparesOthers(cfg, s, w, i);
    }
  }

  // ---------- the port ----------

  /** The output mutex is held exactly by the worker that is inside a locked write. */
  ghost predicate OutputOwner(s: State) {
    s.port.owner != Some(Main) && (s.port.owner.Some? ==> s.port.owner.value.id < |s.branches|)
  }

  ghost predicate OutputHeldBy(s: State, i: nat)
    requires i < |s.branches|
  {
    && (s.port.owner == Some(Worker(i)) <==> s.branches[i].pc.Running? && !s.branches[i].pc.e.stage.Outside?)
    && (s.branches[i].pc.Running? && s.branches[i].pc.e.stage.Locked? ==> s.branches[i].pc.e.todo != [])
  }

  /** What branch `i` has on the port, and still has to put there, is what its calls write. */
  ghost predicate OutputsOk(sys: System, s: State, i: nat)
    requires i < |s.branches|
  {
    match s.branches[i].pc
    case Running(call, e) => Project(s.port.Log(), i) + e.todo == AllOutputs(sys, i, s.branches[i].history + [call])
    case _ => Project(s.port.Log(), i) == AllOutputs(sys, i, s.branches[i].history)
  }

  ghost predicate Segments(sys: System, s: State)
    requires s.next <= |sys.ops|
  {
    && |s.port.closed| == s.next
    && Ordered(sys, s.port.closed)
    && FromBranches(sys, s.port.current)
    && (s.main.Ready? || s.main.Reporting? ==> s.port.current == [])
  }

  /** After the flush every worker has ended. */
  ghost predicate Joined(cfg: Setup, s: State)
    requires s.next <= |cfg.sys.ops|
  {
    forall k, i :: 0 <= k < s.next && cfg.sys.ops[k] == Fan(Flush) && 0 <= i < |s.branches| ==>
      s.branches[i].pc.Terminated?
  }

  ghost predicate Inv(cfg: Setup, s: State) {
    && WellFormed(cfg)
    && MainOk(cfg, s)
    && (forall i :: 0 <= i < |s.branches| ==> BranchOk(cfg, s, i))
    && OutputOwner(s)
    && (forall i :: 0 <= i < |s.branches| ==> OutputHeldBy(s, i))
    && (forall i :: 0 <= i < |s.branches| ==> OutputsOk(cfg.sys, s, i))
    && (cfg.sync ==> Segments(cfg.sys, s))
    && Joined(cfg, s)
  }

  lemma InitInv(cfg: Setup, s: State)
    requires Init(cfg, s) && WellFormed(cfg)
    ensures Inv(cfg, s)
  {
  }

  lemma OutputMutexKept(cfg: Setup, s: State, t: Thread, i: nat)
    requires Enabled(cfg, s, t) && OutputOwner(s)
    requires i < |s.branches| && OutputHeldBy(s, i) && (t.Worker? ==> OutputHeldBy(s, t.id))
    ensures OutputHeldBy(Step(cfg, s, t), i)
  {
  }

  lemma OutputOwnerKept(cfg: Setup, s: State, t: Thread)
    requires Enabled(cfg, s, t) && OutputOwner(s)
    ensures OutputOwner(Step(cfg, s, t))
  {
  }

  /** The main thread only puts completion messages on the port, and no worker's call is affected. */
  lemma MainStepPort(cfg: Setup, s: State, i: nat)
    requires WellFormed(cfg) && MainEnabled(cfg, s) && i < |s.branches|
    ensures Project(MainStep(cfg, s).port.Log(), i) == Project(s.port.Log(), i)
  {
    if s.main.Reporting? {
      var m := cfg.sys.ops[s.next].message;
      WriteLog(s.port, m);
      ProjectSnoc(s.port.Log(), m, i);
      CloseSegmentLog(Write(s.port, m));
    } else {
      CloseSegmentLog(s.port);
      assert MainStep(cfg, s).port == s.port || MainStep(cfg, s).port == CloseSegment(s.port);
    }
  }

  lemma MainStepPc(cfg: Setup, s: State, i: nat)
    requires MainEnabled(cfg, s) && i < |s.branches|
    ensures var b := s.branches[i]; var b' := MainStep(cfg, s).branches[i];
            b'.history == b.history && (b'.pc == b.pc || (b.pc.Parked? && b'.pc.Woken?))
  {
  }

  lemma OutputsKeptByMain(cfg: Setup, s: State, i: nat)
    requires WellFormed(cfg) && MainEnabled(cfg, s) && i < |s.branches| && OutputsOk(cfg.sys, s, i)
    ensures OutputsOk(cfg.sys, MainStep(cfg, s), i)
  {
    MainStepPort(cfg, s, i);
    MainStepPc(cfg, s, i);
  }

  lemma OutputsKeptByWorker(cfg: Setup, s: State, w: nat, i: nat)
    requires WorkerEnabled(s, w) && i < |s.branches| && OutputsOk(cfg.sys, s, i)
    ensures OutputsOk(cfg.sys, WorkerStep(cfg, s, w), i)
  {
    match s.branches[w].pc
    case Running(_, e) =>
      if !e.Done() {
        EmitStepOutputs(e, s.port, Worker(w), w, i);
      } else {
        assert Project(s.port.Log(), w) + [] == Project(s.port.Log(), w);
      }
    case TakeUnlock(Some(call)) => AllOutputsSnoc(cfg.sys, w, s.branches[w].history, call);
    case _ =>
  }

  /** When a fan-out operation of sync mode ends, every branch has executed its call. */
  lemma ReturnedMeansExecuted(cfg: Setup, s: State, i: nat)
    requires WellFormed(cfg) && cfg.sync && MainOk(cfg, s) && MainEnabled(cfg, s)
    requires i < |s.branches| && BranchOk(cfg, s, i) && OutputsOk(cfg.sys, s, i)
    requires MainStep(cfg, s).next != s.next && cfg.sys.ops[s.next].Fan?
    ensures Project(s.port.Log(), i) == AllOutputs(cfg.sys, i, CallsUpTo(cfg.sys.ops, s.next + 1))
  {
    ReturnPoint(cfg, s, i);
    var b := s.branches[i];
    if s.main.Join? {
      TerminatedIsEmpty(cfg, s, i);
    } else {
      assert b.history + [] + [] == b.history;
    }
  }

  /** In sync mode a fan-out operation with branches ends after the last completion or the last join. */
  lemma ReturnPoint(cfg: Setup, s: State, i: nat)
    requires cfg.sync && MainOk(cfg, s) && MainEnabled(cfg, s) && i < |s.branches| && BranchOk(cfg, s, i)
    requires MainStep(cfg, s).next != s.next && cfg.sys.ops[s.next].Fan?
    ensures s.main.Join? || s.main.WokenComplete?
    ensures s.main.Join? ==> s.branches[i].pc.Terminated?
    ensures s.main.WokenComplete? ==> Settled(s.branches[i]) && !s.branches[i].pc.Running?
  {
  }

  lemma SegmentsKeptByMain(cfg: Setup, s: State)
    requires Inv(cfg, s) && cfg.sync && MainEnabled(cfg, s)
    ensures MainOk(cfg, MainStep(cfg, s)) && Segments(cfg.sys, MainStep(cfg, s))
  {
    MainStepOk(cfg, s);
    var s' := MainStep(cfg, s);
    if s'.next != s.next && !s.main.Reporting? {
      forall i: nat | i < |s.branches|
        ensures Project(s.port.Log(), i) == AllOutputs(cfg.sys, i, CallsUpTo(cfg.sys.ops, s.next + 1))
      {
        assert BranchOk(cfg, s, i) && OutputsOk(cfg.sys, s, i);
        ReturnedMeansExecuted(cfg, s, i);
      }
      SegmentComplete(cfg.sys, s.port);
    }
  }

  lemma SegmentsKeptByWorker(cfg: Setup, s: State, w: nat)
    requires Inv(cfg, s) && cfg.sync && WorkerEnabled(s, w)
    ensures s.next <= |cfg.sys.ops| && Segments(cfg.sys, WorkerStep(cfg, s, w))
  {
    assert BranchOk(cfg, s, w);
    WorkerStepEntered(cfg, s, w, w);
    var pc := s.branches[w].pc;
    if pc.Running? && !pc.e.Done() {
      EmitStepSegment(cfg.sys, pc.e, s.port, Worker(w), w);
    }
  }

  lemma JoinedKept(cfg: Setup, s: State, t: Thread)
    requires Inv(cfg, s) && Enabled(cfg, s, t)
    ensures Step(cfg, s, t).next <= |cfg.sys.ops| && Joined(cfg, Step(cfg, s, t))
  {
    var s' := Step(cfg, s, t);
    match t
    case Main =>
      if s.next < s'.next && cfg.sys.ops[s.next] == Fan(Flush) {
        forall i: nat | i < |s.branches| ensures s'.branches[i].pc.Terminated? {
          assert BranchOk(cfg, s, i);
        }
      }
    case Worker(w) =>
  }

  lemma InvKept(cfg: Setup, s: State, t: Thread)
    requires Inv(cfg, s) && Enabled(cfg, s, t)
    ensures Inv(cfg, Step(cfg, s, t))
  {
    var s' := Step(cfg, s, t);
    OutputOwnerKept(cfg, s, t);
    JoinedKept(cfg, s, t);
    match t
    case Main =>
      MainStepOk(cfg, s);
      if cfg.sync { SegmentsKeptByMain(cfg, s); }
      forall i: nat | i < |s'.branches|
        ensures BranchOk(cfg, s', i) && OutputHeldBy(s', i) && OutputsOk(cfg.sys, s', i)
      {
        assert BranchOk(cfg, s, i);
        MainStepBranchOk(cfg, s, i);
        OutputMutexKept(cfg, s, t, i);
        OutputsKeptByMain(cfg, s, i);
      }
    case Worker(w) =>
      WorkerStepOk(cfg, s, w);
      if cfg.sync { SegmentsKeptByWorker(cfg, s, w); }
      forall i: nat | i < |s'.branches|
        ensures BranchOk(cfg, s', i) && OutputHeldBy(s', i) && OutputsOk(cfg.sys, s', i)
      {
        assert BranchOk(cfg, s, i) && BranchOk(cfg, s, w);
        WorkerStepBranchOk(cfg, s, w, i);
        OutputMutexKept(cfg, s, t, i);
        OutputsKeptByWorker(cfg, s, w, i);
      }
  }
}
