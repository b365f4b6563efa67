/** WAIT_FOR_QUEUE waits without looking at the queue, so a signal sent just before it is lost. This
    module says exactly when that is fatal: a reachable state can still be completed if and only if no
    branch is doomed, and from the state that init leaves behind a doomed state is reachable in every
    system that makes a blocking call at all. */
module LostWakeup {
  import opened Runs
  import opened Graph
  import opened AsyncFilter
  import opened AsyncInvariant
  import opened AsyncTheorems

  /** The main thread's current call will wait for the workers. */
  predicate Blocking(cfg: Setup, s: State) {
    s.next < |cfg.sys.ops| && cfg.sys.ops[s.next].Fan? && (cfg.sync || cfg.sys.ops[s.next].call.Flush?)
  }

  /** The signal for the current entry of branch `i` has been sent, or is bound to be sent, while the
      worker was still on its way into the wait; no other signal will follow in this call. */
  predicate Doomed(cfg: Setup, s: State, i: nat) {
    && i < |s.branches|
    && Blocking(cfg, s)
    && var b := s.branches[i];
       match s.main
       case AddPut(j) =>
         (i == j && b.pc.WaitLock? && b.mutex.ByMain?) || (i < j && GoingToWait(b.pc) && b.queue != [])
       case AddSignal(j) =>
         (i == j && b.pc.WaitLock? && b.mutex.ByMain? && b.queue != []) || (i < j && GoingToWait(b.pc) && b.queue != [])
       case AddLock(j) => i < j && GoingToWait(b.pc) && b.queue != []
       case AddUnlock(j) => i <= j && GoingToWait(b.pc) && b.queue != []
       case AwaitComplete(j) => j <= i && GoingToWait(b.pc) && b.queue != []
       case ParkedComplete(j) => j <= i && GoingToWait(b.pc) && b.queue != []
       case WokenComplete(j) => j < i && GoingToWait(b.pc) && b.queue != []
       case Join(j) => j <= i && GoingToWait(b.pc) && b.queue != []
       case _ => false
  }

  lemma DoomedForever(cfg: Setup, s: State, t: Thread, i: nat)
    requires MainOk(cfg, s) && Doomed(cfg, s, i) && Enabled(cfg, s, t)
    ensures Doomed(cfg, Step(cfg, s, t), i)
  {
  }

  ghost function Done(cfg: Setup): State -> bool {
    s => Finished(cfg, s)
  }

  /** The call that dooms a worker never returns. */
  lemma DoomedNeverReturns(cfg: Setup, s: State, i: nat)
    requires Inv(cfg, s) && Doomed(cfg, s, i)
    ensures forall schedule :: IsRun(Threads(cfg), s, schedule) ==> !After(Threads(cfg), s, schedule).main.Ready?
    ensures !Completable(Threads(cfg), Done(cfg), s)
  {
    var doomed: State -> bool := s => Inv(cfg, s) && Doomed(cfg, s, i);
    forall s, t | doomed(s) && Enabled(cfg, s, t) ensures doomed(Step(cfg, s, t)) {
      InvKept(cfg, s, t);
      DoomedForever(cfg, s, t, i);
    }
    TrapIsNeverLeft(Threads(cfg), doomed, s);
  }

  // ---------- schedules that lose nothing ----------

  /** The main thread does not start adding to a queue whose worker is about to lock it for a wait. */
  predicate Timely(s: State, t: Thread) {
    t.Main? && s.main.AddLock? && s.main.i < |s.branches| ==> !s.branches[s.main.i].pc.WaitLock?
  }

  function TimelyThreads(cfg: Setup): Machine<State> {
    Machine((s, t) => Enabled(cfg, s, t) && Timely(s, t), (s, t) => if Enabled(cfg, s, t) then Step(cfg, s, t) else s)
  }

  ghost predicate Safe(cfg: Setup, s: State) {
    Inv(cfg, s) && forall i :: !Doomed(cfg, s, i)
  }

  lemma MainStepDoomsNobody(cfg: Setup, s: State, i: nat)
    requires MainOk(cfg, s) && MainEnabled(cfg, s)
    requires i < |s.branches| ==> BranchOk(cfg, s, i)
    requires i < |s.branches| && s.branches[i].pc.WaitLock? ==> s.main != AddLock(i) || !Blocking(cfg, s)
    requires !Doomed(cfg, s, i)
    ensures !Doomed(cfg, MainStep(cfg, s), i)
  {
  }

  lemma WorkerStepDoomsNobody(cfg: Setup, s: State, w: nat, i: nat)
    requires MainOk(cfg, s) && WorkerEnabled(s, w)
    requires i < |s.branches| ==> BranchOk(cfg, s, i)
    requires !Doomed(cfg, s, i)
    ensures !Doomed(cfg, WorkerStep(cfg, s, w), i)
  {
    WorkerStepEntered(cfg, s, w, i);
  }

  lemma TimelyStepIsSafe(cfg: Setup, s: State, t: Thread)
    requires Safe(cfg, s) && Enabled(cfg, s, t) && Timely(s, t)
    ensures Safe(cfg, Step(cfg, s, t))
  {
    InvKept(cfg, s, t);
    forall i: nat ensures !Doomed(cfg, Step(cfg, s, t), i) {
      assert i < |s.branches| ==> BranchOk(cfg, s, i);
      match t
      case Main => MainStepDoomsNobody(cfg, s, i);
      case Worker(w) => WorkerStepDoomsNobody(cfg, s, w, i);
    }
  }

  /** The one step that dooms a worker: the main thread locks its queue for a call it will wait for, just
      before the worker would have locked it to wait. */
  lemma DoomsExactly(cfg: Setup, s: State, t: Thread, i: nat)
    requires Safe(cfg, s) && Enabled(cfg, s, t)
    ensures Doomed(cfg, Step(cfg, s, t), i) <==>
      && i < |s.branches| && s.branches[i].pc.WaitLock?
      && t == Main && s.main == AddLock(i) && Blocking(cfg, s)
  {
    assert !Doomed(cfg, s, i);
    assert i < |s.branches| ==> BranchOk(cfg, s, i);
    match t
    case Main =>
      if s.main != AddLock(i) || i >= |s.branches| || !s.branches[i].pc.WaitLock? || !Blocking(cfg, s) {
        MainStepDoomsNobody(cfg, s, i);
      }
    case Worker(w) => WorkerStepDoomsNobody(cfg, s, w, i);
  }

  /** A worker that finds its queue empty gives the queue up before it locks it again to wait. If the main
      thread is ready to add the entry of a blocking call, it can get in between. */
  lemma FoundEmptyCanBeDoomed(cfg: Setup, s: State, i: nat)
    requires Inv(cfg, s) && WorkerEnabled(s, i) && !GoingToWait(s.branches[i].pc)
    requires GoingToWait(WorkerStep(cfg, s, i).branches[i].pc)
    requires s.main == AddLock(i) && Blocking(cfg, s)
    ensures IsRun(Threads(cfg), s, [Worker(i), Main])
    ensures Doomed(cfg, After(Threads(cfg), s, [Worker(i), Main]), i)
  {
    assert BranchOk(cfg, s, i);
    var s' := WorkerStep(cfg, s, i);
    SingleRun(Threads(cfg), s', Main);
    RunCons(Threads(cfg), s, Worker(i), [Main]);
    assert [Worker(i)] + [Main] == [Worker(i), Main];
  }

  /** Timely schedules get stuck only when everything is done. */
  lemma TimelyStuckIsFinished(cfg: Setup, s: State)
    requires Safe(cfg, s)
    ensures Stuck(TimelyThreads(cfg), s) ==> Finished(cfg, s)
  {
    if !Finished(cfg, s) {
      if Stuck(Threads(cfg), s) {
        StuckMeansLost(cfg, s);
        assert BranchOk(cfg, s, s.main.i);
        assert Doomed(cfg, s, s.main.i);
      } else {
        var t :| Threads(cfg).enabled(s, t);
        if Timely(s, t) {
          assert TimelyThreads(cfg).enabled(s, t);
        } else {
          assert TimelyThreads(cfg).enabled(s, Worker(s.main.i));
        }
      }
    }
  }

  lemma SafeIsCompletable(cfg: Setup, s: State)
    requires Safe(cfg, s)
    ensures Completable(Threads(cfg), Done(cfg), s)
  {
    var safe: State -> bool := s => Safe(cfg, s);
    forall s, t | Safe(cfg, s) && Enabled(cfg, s, t) && Timely(s, t)
      ensures Safe(cfg, Step(cfg, s, t)) && RankOf(cfg, Step(cfg, s, t)).Below(RankOf(cfg, s))
    {
      TimelyStepIsSafe(cfg, s, t);
      StepLowersRank(cfg, s, t);
    }
    forall s | Safe(cfg, s) && Stuck(TimelyThreads(cfg), s) ensures Finished(cfg, s) {
      TimelyStuckIsFinished(cfg, s);
    }
    CompletableWithin(TimelyThreads(cfg), Threads(cfg), safe, Ranks(cfg), Done(cfg), s);
  }

  // ---------- exactly when ----------

  /** A doomed worker was about to wait: it had found its queue empty, or had just been created. */
  lemma DoomedIsOvertaken(cfg: Setup, init: State, schedule: seq<Thread>)
    requires Init(cfg, init) && WellFormed(cfg) && IsRun(Threads(cfg), init, schedule)
    ensures var s := After(Threads(cfg), init, schedule);
            forall i :: Doomed(cfg, s, i) ==> Overtaken(cfg, init, schedule, i)
  {
    InitInv(cfg, init);
    BranchesStay(cfg, init, schedule);
    forall i: nat | Doomed(cfg, After(Threads(cfg), init, schedule), i) ensures Overtaken(cfg, init, schedule, i) {
      WaitingIsOvertaken(cfg, init, schedule, i);
    }
  }

  /** A worker that has signalled completion looks at its queue again before it waits, so the main thread
      and the other workers cannot doom it with the next call, however far they get before it moves on. */
  lemma CompletedIsNotOvertaken(cfg: Setup, init: State, schedule: seq<Thread>, i: nat, others: seq<Thread>)
    requires Init(cfg, init) && WellFormed(cfg) && IsRun(Threads(cfg), init, schedule)
    requires var s := After(Threads(cfg), init, schedule);
             i < |s.branches| && s.branches[i].pc.UnlockComplete?
    requires Worker(i) !in others
    requires IsRun(Threads(cfg), After(Threads(cfg), init, schedule), [Worker(i)] + others)
    ensures !Doomed(cfg, After(Threads(cfg), After(Threads(cfg), init, schedule), [Worker(i)] + others), i)
  {
    RunKeepsInv(cfg, init, schedule);
    var s := After(Threads(cfg), init, schedule);
    assert ([Worker(i)] + others)[1..] == others;
    InvKept(cfg, s, Worker(i));
    WaitsOnlyWhenEmpty(cfg, s, Worker(i), i);
    assert BranchOk(cfg, s, i);
    OthersDoNotMakeItWait(cfg, Step(cfg, s, Worker(i)), others, i);
  }

  /** A state that a run has reached can be completed if and only if no branch is doomed; and a doomed
      worker has been overtaken. */
  lemma CompletableIffNotDoomed(cfg: Setup, init: State, schedule: seq<Thread>)
    requires Init(cfg, init) && WellFormed(cfg) && IsRun(Threads(cfg), init, schedule)
    ensures var s := After(Threads(cfg), init, schedule);
            Completable(Threads(cfg), Done(cfg), s) <==> forall i :: !Doomed(cfg, s, i)
    ensures var s := After(Threads(cfg), init, schedule);
            forall i :: Doomed(cfg, s, i) ==> Overtaken(cfg, init, schedule, i)
  {
    RunKeepsInv(cfg, init, schedule);
    DoomedIsOvertaken(cfg, init, schedule);
    var s := After(Threads(cfg), init, schedule);
    if i: nat :| Doomed(cfg, s, i) {
      DoomedNeverReturns(cfg, s, i);
    } else {
      SafeIsCompletable(cfg, s);
    }
  }

  ghost predicate MakesBlockingCall(cfg: Setup) {
    exists k :: 0 <= k < |cfg.sys.ops| && cfg.sys.ops[k].Fan? && (cfg.sync || cfg.sys.ops[k].call.Flush?)
  }

  /** The main thread has run alone and has not made a blocking call yet, or is just about to. */
  ghost predicate Alone(cfg: Setup, s: State, k: nat) {
    && MainOk(cfg, s) && |s.branches| > 0
    && s.next <= k < |cfg.sys.ops| && cfg.sys.ops[k].Fan? && (cfg.sync || cfg.sys.ops[k].call.Flush?)
    && (forall i :: 0 <= i < |s.branches| ==> s.branches[i].pc.WaitLock?)
    && (forall i :: 0 <= i < |s.branches| ==> s.branches[i].mutex == if Adding(s.main, i) then ByMain else Free)
    && match s.main
       case Ready => true
       case Reporting => true
       case AddLock(i) => Blocking(cfg, s) ==> i == 0
       case AddPut(_) => !Blocking(cfg, s)
       case AddSignal(_) => !Blocking(cfg, s)
       case AddUnlock(_) => !Blocking(cfg, s)
       case _ => false
  }

  lemma AloneStep(cfg: Setup, s: State, k: nat)
    requires Alone(cfg, s, k)
    ensures MainEnabled(cfg, s)
    ensures if Blocking(cfg, s) && s.main.AddLock? then Doomed(cfg, MainStep(cfg, s), 0)
            else Alone(cfg, MainStep(cfg, s), k)
  {
  }

  /** The main thread alone gets to a blocking call whose first worker has not begun to wait. */
  lemma {:induction false} ReachDoom(cfg: Setup, s: State, k: nat) returns (schedule: seq<Thread>)
    requires Alone(cfg, s, k)
    ensures IsRun(Threads(cfg), s, schedule)
    ensures Doomed(cfg, After(Threads(cfg), s, schedule), 0)
    decreases RankOf(cfg, s).ops, RankOf(cfg, s).main, RankOf(cfg, s).emission, RankOf(cfg, s).work
  {
    AloneStep(cfg, s, k);
    MainStepLowersRank(cfg, s);
    var rest := [];
    if !(Blocking(cfg, s) && s.main.AddLock?) {
      rest := ReachDoom(cfg, MainStep(cfg, s), k);
    }
    RunCons(Threads(cfg), s, Main, rest);
    schedule := [Main] + rest;
  }

  /** Every run from init can be completed if and only if there is no worker to wait for, or no call
      that waits for one: in sync mode no call at all, otherwise no flush. */
  lemma AlwaysCompletableIff(cfg: Setup, init: State)
    requires Init(cfg, init) && WellFormed(cfg)
    ensures AlwaysCompletable(Threads(cfg), Done(cfg), init) <==> cfg.sys.branches == 0 || !MakesBlockingCall(cfg)
  {
    if cfg.sys.branches == 0 || !MakesBlockingCall(cfg) {
      forall schedule | IsRun(Threads(cfg), init, schedule)
        ensures Completable(Threads(cfg), Done(cfg), After(Threads(cfg), init, schedule))
      {
        RunKeepsInv(cfg, init, schedule);
        CompletableIffNotDoomed(cfg, init, schedule);
      }
    } else {
      var k :| 0 <= k < |cfg.sys.ops| && cfg.sys.ops[k].Fan? && (cfg.sync || cfg.sys.ops[k].call.Flush?);
      var schedule := ReachDoom(cfg, init, k);
      CompletableIffNotDoomed(cfg, init, schedule);
    }
  }
}
