/** What the queued scheduler guarantees over whole runs, and every way in which it can get stuck. */
module AsyncTheorems {
  import opened Runs
  import opened Graph
  import opened Wrappers
  import opened AsyncFilter
  import opened AsyncInvariant

  ghost function Invariant(cfg: Setup): State -> bool {
    s => Inv(cfg, s)
  }

  lemma InvariantIsInductive(cfg: Setup)
    ensures Inductive(Threads(cfg), Invariant(cfg))
  {
    forall s, t | Inv(cfg, s) && Enabled(cfg, s, t) ensures Inv(cfg, Step(cfg, s, t)) {
      InvKept(cfg, s, t);
    }
  }

  /** Every state that a run reaches satisfies the invariant. */
  lemma RunKeepsInv(cfg: Setup, init: State, schedule: seq<Thread>)
    requires Init(cfg, init) && WellFormed(cfg) && IsRun(Threads(cfg), init, schedule)
    ensures Inv(cfg, After(Threads(cfg), init, schedule))
  {
    InitInv(cfg, init);
    InvariantIsInductive(cfg);
    RunKeeps(Threads(cfg), Invariant(cfg), init, schedule);
  }

  /** In either mode and at every moment, what a branch has executed, then the entry its worker has in
      hand, then its queue, is the sequence of entries made for it. */
  lemma NothingIsLost(cfg: Setup, init: State, schedule: seq<Thread>, i: nat)
    requires Init(cfg, init) && WellFormed(cfg) && IsRun(Threads(cfg), init, schedule) && i < cfg.sys.branches
    ensures var s := After(Threads(cfg), init, schedule);
            && i < |s.branches| && s.next <= |cfg.sys.ops|
            && Delivered(cfg, s, i)
            && |EnteredCalls(cfg, s, i)| == s.branches[i].signals + (if s.main == AddSignal(i) then 1 else 0)
  {
    RunKeepsInv(cfg, init, schedule);
    assert BranchOk(cfg, After(Threads(cfg), init, schedule), i);
  }

  /** In either mode, once flush has returned every branch has executed every frame once and in order,
      then exactly one flush, as the sequential fan-out would have it, and has written all its outputs
      in that order. */
  lemma FlushDeliversEverything(cfg: Setup, init: State, schedule: seq<Thread>, k: nat, i: nat)
    requires Init(cfg, init) && WellFormed(cfg) && IsRun(Threads(cfg), init, schedule) && i < cfg.sys.branches
    ensures var s := After(Threads(cfg), init, schedule);
            && s.next <= |cfg.sys.ops|
            && (k < s.next && cfg.sys.ops[k] == Fan(Flush) ==>
                 && i < |s.branches|
                 && s.branches[i].pc.Terminated? && s.branches[i].queue == []
                 && s.branches[i].history == Sequential(cfg.sys, s.next)[i]
                 && EndsWithFlush(s.branches[i].history)
                 && (forall j :: 0 <= j < |s.branches[i].history| - 1 ==> s.branches[i].history[j].Execute?)
                 && Project(s.port.Log(), i) == AllOutputs(cfg.sys, i, s.branches[i].history))
  {
    RunKeepsInv(cfg, init, schedule);
    var s := After(Threads(cfg), init, schedule);
    if k < s.next && cfg.sys.ops[k] == Fan(Flush) {
      assert BranchOk(cfg, s, i) && OutputsOk(cfg.sys, s, i);
      TerminatedIsEmpty(cfg, s, i);
      SequentialHistory(cfg.sys, s.next);
      forall j | 0 <= j < |s.branches[i].history| - 1 ensures s.branches[i].history[j].Execute? {
        if s.branches[i].history[j].Flush? {
          FlushEndsCalls(cfg.sys.ops, s.next, j);
        }
      }
    }
  }

  /** In sync mode the filter is a barrier: whenever its caller has control back, every branch has
      executed every call made so far, no queue holds anything, and no completion signal is owed or
      being sent. */
  lemma SyncModeIsABarrier(cfg: Setup, init: State, schedule: seq<Thread>, i: nat)
    requires Init(cfg, init) && WellFormed(cfg) && IsRun(Threads(cfg), init, schedule) && i < cfg.sys.branches
    requires cfg.sync
    ensures var s := After(Threads(cfg), init, schedule);
            && i < |s.branches| && s.next <= |cfg.sys.ops|
            && (s.main.Ready? ==>
                 && s.branches[i].history == Sequential(cfg.sys, s.next)[i]
                 && s.branches[i].queue == [] && InHand(s.branches[i].pc) == []
                 && !Completing(s.branches[i].pc) && s.branches[i].complete.ByMain?)
            && (s.main.Join? ==> !Completing(s.branches[i].pc))
  {
    RunKeepsInv(cfg, init, schedule);
    var s := After(Threads(cfg), init, schedule);
    assert BranchOk(cfg, s, i);
    SequentialHistory(cfg.sys, s.next);
    if s.main.Ready? {
      assert s.branches[i].history + [] + [] == s.branches[i].history;
    }
  }

  /** In sync mode the port never carries anything but the complete outputs of one operation after
      those of the one before it, and write_done never meets a worker that is writing. */
  lemma PortIsOrdered(cfg: Setup, init: State, schedule: seq<Thread>)
    requires Init(cfg, init) && WellFormed(cfg) && IsRun(Threads(cfg), init, schedule) && cfg.sync
    ensures var s := After(Threads(cfg), init, schedule);
            && s.next == |s.port.closed| <= |cfg.sys.ops|
            && Ordered(cfg.sys, s.port.closed)
            && (s.main.Ready? ==> s.port.Log() == Flatten(s.port.closed))
            && (s.main.Reporting? ==>
                 s.port.owner.None? && forall i :: 0 <= i < |s.branches| ==> !s.branches[i].pc.Running?)
  {
    RunKeepsInv(cfg, init, schedule);
    var s := After(Threads(cfg), init, schedule);
    assert s.port.owner.Some? ==> s.port.owner == Some(Worker(s.port.owner.value.id));
    if s.main.Reporting? {
      forall i | 0 <= i < |s.branches|
        ensures !s.branches[i].pc.Running? && s.port.owner != Some(Worker(i))
      {
        assert BranchOk(cfg, s, i) && OutputHeldBy(s, i);
      }
    }
  }

  // ---------- looking before waiting ----------

  /** The worker has locked its queue, sees nothing in it and has nothing in hand, and does not wait yet. */
  predicate FoundEmpty(b: Branch) {
    b.mutex.ByWorker? && b.queue == [] && InHand(b.pc) == [] && !GoingToWait(b.pc)
  }

  /** At the end of the run the worker has executed nothing since the last time it found its queue empty,
      or since it was created: whatever its queue holds was put there after it had looked. */
  ghost predicate Overtaken(cfg: Setup, s: State, schedule: seq<Thread>, i: nat) {
    exists k :: 0 <= k <= |schedule| && SinceThen(cfg, s, schedule, i, k)
  }

  ghost predicate SinceThen(cfg: Setup, s: State, schedule: seq<Thread>, i: nat, k: nat)
    requires k <= |schedule|
  {
    var past, now := After(Threads(cfg), s, schedule[..k]), After(Threads(cfg), s, schedule);
    && i < |past.branches| && i < |now.branches|
    && (FoundEmpty(past.branches[i]) || (k == 0 && GoingToWait(s.branches[i].pc)))
    && now.branches[i].history == past.branches[i].history
  }

  /** A worker begins to wait only when it has found its queue empty, and holds its mutex at that moment. */
  lemma WaitsOnlyWhenEmpty(cfg: Setup, s: State, t: Thread, i: nat)
    requires Inv(cfg, s) && Enabled(cfg, s, t) && i < |s.branches|
    ensures i < |Step(cfg, s, t).branches|
    ensures GoingToWait(Step(cfg, s, t).branches[i].pc) ==>
      && (GoingToWait(s.branches[i].pc) || FoundEmpty(s.branches[i]))
      && Step(cfg, s, t).branches[i].history == s.branches[i].history
  {
    assert BranchOk(cfg, s, i);
    match t
    case Main => MainStepPc(cfg, s, i);
    case Worker(w) =>
      if w == i {
        OwnStep(cfg, s, i);
      } else {
        WorkerStepEntered(cfg, s, w, i);
      }
  }

  lemma OwnStep(cfg: Setup, s: State, i: nat)
    requires MainOk(cfg, s) && WorkerEnabled(s, i) && BranchOk(cfg, s, i)
    ensures var b, b' := s.branches[i], WorkerStep(cfg, s, i).branches[i];
            GoingToWait(b'.pc) ==> (GoingToWait(b.pc) || FoundEmpty(b)) && b'.history == b.history
  {
  }

  /** A worker that waits has been overtaken, wherever the run began. */
  lemma {:induction false} WaitingIsOvertaken(cfg: Setup, s: State, schedule: seq<Thread>, i: nat)
    requires Inv(cfg, s) && IsRun(Threads(cfg), s, schedule) && i < |s.branches|
    ensures var now := After(Threads(cfg), s, schedule);
            i < |now.branches| && (GoingToWait(now.branches[i].pc) ==> Overtaken(cfg, s, schedule, i))
    decreases |schedule|
  {
    if |schedule| == 0 {
      assert GoingToWait(s.branches[i].pc) ==> SinceThen(cfg, s, schedule, i, 0);
    } else {
      var t, rest := schedule[0], schedule[1..];
      var s' := Threads(cfg).step(s, t);
      InvKept(cfg, s, t);
      WaitsOnlyWhenEmpty(cfg, s, t, i);
      WaitingIsOvertaken(cfg, s', rest, i);
      if GoingToWait(After(Threads(cfg), s, schedule).branches[i].pc) {
        var k :| 0 <= k <= |rest| && SinceThen(cfg, s', rest, i, k);
        assert schedule[..k + 1][1..] == rest[..k];
        assert rest[..0] == [] && schedule[..0] == [];
        if FoundEmpty(After(Threads(cfg), s', rest[..k]).branches[i]) {
          assert SinceThen(cfg, s, schedule, i, k + 1);
        } else {
          assert SinceThen(cfg, s, schedule, i, 0);
        }
      }
    }
  }

  /** Whatever the other threads do, a worker that is not on its way into a wait will look at its queue. */
  lemma {:induction false} OthersDoNotMakeItWait(cfg: Setup, s: State, schedule: seq<Thread>, i: nat)
    requires Inv(cfg, s) && IsRun(Threads(cfg), s, schedule) && Worker(i) !in schedule
    requires i < |s.branches| && !GoingToWait(s.branches[i].pc)
    ensures var now := After(Threads(cfg), s, schedule);
            i < |now.branches| && !GoingToWait(now.branches[i].pc)
    decreases |schedule|
  {
    if |schedule| > 0 {
      InvKept(cfg, s, schedule[0]);
      AnotherStep(cfg, s, schedule[0], i);
      OthersDoNotMakeItWait(cfg, Threads(cfg).step(s, schedule[0]), schedule[1..], i);
    }
  }

  lemma AnotherStep(cfg: Setup, s: State, t: Thread, i: nat)
    requires Inv(cfg, s) && Enabled(cfg, s, t) && t != Worker(i) && i < |s.branches|
    ensures i < |Step(cfg, s, t).branches|
    ensures GoingToWait(Step(cfg, s, t).branches[i].pc) ==> GoingToWait(s.branches[i].pc)
  {
    match t
    case Main => MainStepPc(cfg, s, i);
    case Worker(w) => WorkerStepEntered(cfg, s, w, i);
  }

  // ---------- stuck states ----------

  /** The main thread waits for branch `i`, whose worker waits for a signal although its queue is not
      empty: every signal for the entries in it was sent before the worker began to wait. */
  ghost predicate WakeupLost(s: State, i: nat) {
    && i < |s.branches|
    && (s.main == ParkedComplete(i) || s.main == Join(i))
    && s.branches[i].pc.Parked? && s.branches[i].queue != []
    && s.branches[i].waitedAt == s.branches[i].signals
  }

  /** The worker cannot move: it waits for a signal, it has ended, or it needs the complete_mutex that
      the main thread holds. */
  predicate AtRest(b: Branch) {
    b.pc.Parked? || b.pc.Terminated? || (b.pc.LockComplete? && b.complete.ByMain?)
  }

  /** In any reachable state that still has something to do, in either mode, nothing can move if and
      only if the branch the main thread waits for has lost its wake-up and the other workers rest.
      No other deadlock exists. */
  lemma StuckExactly(cfg: Setup, init: State, schedule: seq<Thread>)
    requires Init(cfg, init) && WellFormed(cfg) && IsRun(Threads(cfg), init, schedule)
    ensures var s := After(Threads(cfg), init, schedule);
            !Finished(cfg, s) ==>
              (Stuck(Threads(cfg), s) <==>
                (exists i :: WakeupLost(s, i)) && forall j :: 0 <= j < |s.branches| ==> AtRest(s.branches[j]))
  {
    RunKeepsInv(cfg, init, schedule);
    var s := After(Threads(cfg), init, schedule);
    if !Finished(cfg, s) {
      if Stuck(Threads(cfg), s) {
        StuckMeansLost(cfg, s);
      }
      if (exists i :: WakeupLost(s, i)) && forall j :: 0 <= j < |s.branches| ==> AtRest(s.branches[j]) {
        forall t ensures !Enabled(cfg, s, t) {
          match t
          case Main =>
          case Worker(j) => assert j < |s.branches| ==> AtRest(s.branches[j]);
        }
      }
    }
  }

  /** Nobody is inside a locked write in a stuck state. */
  lemma StuckOutputIsFree(cfg: Setup, s: State)
    requires Inv(cfg, s)
    ensures Stuck(Threads(cfg), s) ==> s.port.owner.None?
  {
    if s.port.owner.Some? {
      var w := s.port.owner.value.id;
      assert OutputHeldBy(s, w);
      assert Threads(cfg).enabled(s, Worker(w));
    }
  }

  /** In a stuck state a worker rests, or it waits for a queue the main thread is adding to. */
  lemma StuckWorker(cfg: Setup, s: State, i: nat)
    requires Inv(cfg, s) && i < |s.branches|
    ensures Stuck(Threads(cfg), s) ==> AtRest(s.branches[i]) || Adding(s.main, i)
  {
    assert BranchOk(cfg, s, i) && OutputHeldBy(s, i);
    StuckOutputIsFree(cfg, s);
    if !WorkerEnabled(s, i) {
    } else {
      assert Threads(cfg).enabled(s, Worker(i));
    }
  }

  lemma StuckMain(cfg: Setup, s: State)
    requires Inv(cfg, s) && !Finished(cfg, s)
    ensures Stuck(Threads(cfg), s) ==> s.main.ParkedComplete? || s.main.Join?
  {
    if !s.main.ParkedComplete? && !s.main.Join? {
      if MainEnabled(cfg, s) {
        assert Threads(cfg).enabled(s, Main);
      } else {
        assert BranchOk(cfg, s, s.main.i);
        assert WorkerEnabled(s, s.main.i);
        assert Threads(cfg).enabled(s, Worker(s.main.i));
      }
    }
  }

  lemma StuckMeansLost(cfg: Setup, s: State)
    requires Inv(cfg, s) && !Finished(cfg, s) && Stuck(Threads(cfg), s)
    ensures (s.main.ParkedComplete? || s.main.Join?) && WakeupLost(s, s.main.i)
    ensures forall j :: 0 <= j < |s.branches| ==> AtRest(s.branches[j])
  {
    StuckMain(cfg, s);
    forall j | 0 <= j < |s.branches| ensures AtRest(s.branches[j]) {
      StuckWorker(cfg, s, j);
    }
    var i := s.main.i;
    assert BranchOk(cfg, s, i);
    assert !Threads(cfg).enabled(s, Main);
    assert !Threads(cfg).enabled(s, Worker(i));
    if s.main.Join? {
      DrainedIsTerminated(cfg, s, i);
    }
  }

  /** While the main thread joins, a worker that has nothing left to deal with has ended. */
  lemma DrainedIsTerminated(cfg: Setup, s: State, i: nat)
    requires Inv(cfg, s) && s.main.Join? && i < |s.branches|
    ensures s.branches[i].queue == [] && InHand(s.branches[i].pc) == [] ==> s.branches[i].pc.Terminated?
  {
    assert BranchOk(cfg, s, i);
    var h := s.branches[i].history;
    if s.branches[i].queue == [] && InHand(s.branches[i].pc) == [] {
      assert h + [] + [] == h;
      assert h == CallsUpTo(cfg.sys.ops, s.next) + [Flush];
    }
  }

  // ---------- termination ----------

  function MainRank(n: nat, main: MainPc): nat {
    match main
    case Ready => 7 * n + 4
    case AddLock(i) => 3 * n + 4 * Left(n, i) + 3
    case AddPut(i) => 3 * n + 4 * Left(n, i) + 2
    case AddSignal(i) => 3 * n + 4 * Left(n, i) + 1
    case AddUnlock(i) => 3 * n + 4 * Left(n, i)
    case AwaitComplete(i) => 3 * Left(n, i) + 2
    case ParkedComplete(i) => 3 * Left(n, i) + 1
    case WokenComplete(i) => 3 * Left(n, i)
    case Join(i) => Left(n, i)
    case Reporting => 0
  }

  function QueueCost(sys: System, i: nat, history: seq<Call>, queue: seq<Call>): nat
    decreases |queue|
  {
    if |queue| == 0 then 0
    else 3 * |sys.outputs(i, history + [queue[0]])| + 12 + QueueCost(sys, i, history + [queue[0]], queue[1..])
  }

  function WorkerCost(sys: System, b: Branch, i: nat): nat {
    QueueCost(sys, i, b.history + InHand(b.pc), b.queue) +
    match b.pc
    case Parked => 0
    case WaitCond => 1
    case WaitLock => 2
    case TakeUnlock(None) => 3
    case Take => 4
    case TakeLock => 5
    case WaitUnlock => 6
    case Woken => 7
    case TakeUnlock(Some(call)) => 3 * |sys.outputs(i, b.history + [call])| + 10
    case Running(_, e) => EmissionCost(e) + 9
    case LockComplete => 8
    case SignalComplete => 7
    case UnlockComplete => 6
    case Terminated => 0
  }

  function Costs(sys: System, s: State): seq<nat> {
    seq(|s.branches|, i requires 0 <= i < |s.branches| => WorkerCost(sys, s.branches[i], i))
  }

  function RankOf(cfg: Setup, s: State): Rank {
    Rank(Left(|cfg.sys.ops|, s.next), MainRank(|s.branches|, s.main), 0, Sum(Costs(cfg.sys, s)))
  }

  lemma MainStepLowersRank(cfg: Setup, s: State)
    requires MainEnabled(cfg, s)
    ensures RankOf(cfg, MainStep(cfg, s)).Below(RankOf(cfg, s))
  {
  }

  lemma WorkerStepCost(cfg: Setup, s: State, w: nat)
    requires WorkerEnabled(s, w)
    ensures WorkerCost(cfg.sys, WorkerStep(cfg, s, w).branches[w], w) < WorkerCost(cfg.sys, s.branches[w], w)
  {
    var b := s.branches[w];
    match b.pc
    case Running(call, e) =>
      if !e.Done() {
        EmitStepCost(e, s.port, Worker(w), w);
      } else {
        assert b.history + [call] + [] == b.history + [call];
      }
    case Take => assert b.history + [] == b.history;
    case _ =>
  }

  lemma WorkerStepLowersRank(cfg: Setup, s: State, w: nat)
    requires MainOk(cfg, s) && WorkerEnabled(s, w)
    ensures RankOf(cfg, WorkerStep(cfg, s, w)).Below(RankOf(cfg, s))
  {
    var s' := WorkerStep(cfg, s, w);
    WorkerStepEntered(cfg, s, w, w);
    WorkerStepCost(cfg, s, w);
    forall i: nat | i < |s.branches| && i != w ensures s'.branches[i] == s.branches[i] {
      WorkerStepEntered(cfg, s, w, i);
    }
    assert Costs(cfg.sys, s') == Costs(cfg.sys, s)[w := Costs(cfg.sys, s')[w]];
    SumUpdate(Costs(cfg.sys, s), w, Costs(cfg.sys, s')[w]);
  }

  lemma StepLowersRank(cfg: Setup, s: State, t: Thread)
    requires Inv(cfg, s) && Enabled(cfg, s, t)
    ensures RankOf(cfg, Step(cfg, s, t)).Below(RankOf(cfg, s))
  {
    match t
    case Main => MainStepLowersRank(cfg, s);
    case Worker(w) => WorkerStepLowersRank(cfg, s, w);
  }

  ghost function Ranks(cfg: Setup): State -> Rank {
    s => RankOf(cfg, s)
  }

  lemma InvariantLowersRank(cfg: Setup)
    ensures Lowers(Threads(cfg), Invariant(cfg), Ranks(cfg))
  {
    forall s, t | Inv(cfg, s) && Enabled(cfg, s, t) ensures RankOf(cfg, Step(cfg, s, t)).Below(RankOf(cfg, s)) {
      StepLowersRank(cfg, s, t);
    }
  }

  /** Every schedule that never idles comes to an end, and then either everything is done or the branch
      the main thread waits for has lost its wake-up. */
  lemma EveryScheduleFinishesOrLoses(cfg: Setup, init: State, pick: nat -> Thread) returns (k: nat)
    requires Init(cfg, init) && WellFormed(cfg)
    requires NeverIdles(Threads(cfg), init, pick)
    ensures IsRun(Threads(cfg), init, Choices(pick, 0, k))
    ensures var s := After(Threads(cfg), init, Choices(pick, 0, k));
            Finished(cfg, s) || exists i :: WakeupLost(s, i) && Overtaken(cfg, init, Choices(pick, 0, k), i)
  {
    InitInv(cfg, init);
    InvariantIsInductive(cfg);
    InvariantLowersRank(cfg);
    k := EveryScheduleEnds(Threads(cfg), Invariant(cfg), Ranks(cfg), init, pick);
    var s := After(Threads(cfg), init, Choices(pick, 0, k));
    if !Finished(cfg, s) {
      StuckMeansLost(cfg, s);
      assert WakeupLost(s, s.main.i);
      BranchesStay(cfg, init, Choices(pick, 0, k));
      WaitingIsOvertaken(cfg, init, Choices(pick, 0, k), s.main.i);
    }
  }

  lemma BranchesStay(cfg: Setup, init: State, schedule: seq<Thread>)
    requires Init(cfg, init) && WellFormed(cfg) && IsRun(Threads(cfg), init, schedule)
    ensures |After(Threads(cfg), init, schedule).branches| == |init.branches|
  {
    RunKeepsInv(cfg, init, schedule);
  }
}
