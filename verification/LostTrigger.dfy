/** parallel_filter.c's init does not wait for its workers. This module shows exactly what that costs: a
    reachable state can be completed if and only if no worker is doomed to miss its trigger, and every run
    from init can be completed if and only if every worker took its trigger_mutex in time, or there is
    nothing to trigger. */
module LostTrigger {
  import opened Runs
  import opened Graph
  import opened ParallelFilter
  import opened ParallelInvariant
  import opened ParallelTheorems

  /** Worker `w` was signalled in this round before it waited. */
  ghost predicate Lost(s: State, w: nat) {
    && w < |s.branches|
    && Unwoken(s.branches[w].pc)
    && PhaseOf(s.main, w) in {Triggered, Awaited}
  }

  /** Worker `w` was signalled before it waited, or is about to be. */
  ghost predicate Doomed(s: State, w: nat) {
    Lost(s, w) || (w < |s.branches| && s.main == SignalTrigger(w) && s.branches[w].pc.Start?)
  }

  lemma DoomedForever(sys: System, s: State, t: Thread, w: nat)
    requires Inv(sys, s) && Doomed(s, w) && Enabled(sys, s, t)
    ensures Doomed(Step(sys, s, t), w)
  {
    assert BranchOk(sys, s, w);
  }

  ghost function Done(sys: System): State -> bool {
    s => Finished(sys, s)
  }

  /** The call that dooms a worker never returns. */
  lemma DoomedNeverReturns(sys: System, s: State, w: nat)
    requires Inv(sys, s) && Doomed(s, w)
    ensures forall schedule :: IsRun(Threads(sys), s, schedule) ==> !After(Threads(sys), s, schedule).main.Ready?
    ensures !Completable(Threads(sys), Done(sys), s)
  {
    var doomed: State -> bool := s => Inv(sys, s) && Doomed(s, w);
    forall s, t | doomed(s) && Enabled(sys, s, t) ensures doomed(Step(sys, s, t)) {
      InvKept(sys, s, t);
      DoomedForever(sys, s, t, w);
    }
    TrapIsNeverLeft(Threads(sys), doomed, s);
  }

  // ---------- schedules that lose nothing ----------

  /** The main thread does not start triggering a worker that has not taken its trigger_mutex yet. */
  predicate Timely(s: State, t: Thread) {
    t.Main? && s.main.LockTrigger? && s.main.i < |s.branches| ==> !s.branches[s.main.i].pc.Start?
  }

  function TimelyThreads(sys: System): Machine<State> {
    Machine((s, t) => Enabled(sys, s, t) && Timely(s, t), (s, t) => if Enabled(sys, s, t) then Step(sys, s, t) else s)
  }

  ghost predicate Safe(sys: System, s: State) {
    Inv(sys, s) && forall w :: !Doomed(s, w)
  }

  lemma MainStepDoomsNobody(sys: System, s: State, w: nat)
    requires MainOk(sys, s) && MainEnabled(sys, s)
    requires w < |s.branches| ==> BranchOk(sys, s, w)
    requires w < |s.branches| && s.branches[w].pc.Start? ==> s.main != LockTrigger(w)
    requires !Doomed(s, w)
    ensures !Doomed(MainStep(sys, s), w)
  {
  }

  lemma WorkerStepDoomsNobody(sys: System, s: State, i: nat, w: nat)
    requires MainOk(sys, s) && WorkerEnabled(s, i)
    requires w < |s.branches| ==> BranchOk(sys, s, w)
    requires !Doomed(s, w)
    ensures !Doomed(WorkerStep(sys, s, i), w)
  {
    WorkerStepSpares(sys, s, i);
  }

  lemma TimelyStepIsSafe(sys: System, s: State, t: Thread)
    requires Safe(sys, s) && Enabled(sys, s, t) && Timely(s, t)
    ensures Safe(sys, Step(sys, s, t))
  {
    InvKept(sys, s, t);
    forall w: nat ensures !Doomed(Step(sys, s, t), w) {
      assert w < |s.branches| ==> BranchOk(sys, s, w);
      match t
      case Main => MainStepDoomsNobody(sys, s, w);
      case Worker(i) => WorkerStepDoomsNobody(sys, s, i, w);
    }
  }

  /** The one step that dooms a worker: the main thread takes its trigger_mutex before the worker has taken
      it for the first time. */
  lemma DoomsExactly(sys: System, s: State, t: Thread, w: nat)
    requires Safe(sys, s) && Enabled(sys, s, t)
    ensures Doomed(Step(sys, s, t), w) <==>
      w < |s.branches| && s.branches[w].pc.Start? && t == Main && s.main == LockTrigger(w)
  {
    assert !Doomed(s, w);
    assert w < |s.branches| ==> BranchOk(sys, s, w);
    match t
    case Main =>
      if s.main != LockTrigger(w) || w >= |s.branches| || !s.branches[w].pc.Start? {
        MainStepDoomsNobody(sys, s, w);
      }
    case Worker(i) => WorkerStepDoomsNobody(sys, s, i, w);
  }

  /** Timely schedules get stuck only when everything is done. */
  lemma TimelyStuckIsFinished(sys: System, s: State)
    requires Safe(sys, s)
    ensures Stuck(TimelyThreads(sys), s) ==> Finished(sys, s)
  {
    if !Finished(sys, s) {
      forall i ensures !TriggerLost(s, i) {
        assert TriggerLost(s, i) ==> Doomed(s, i);
      }
      var t := Progress(sys, s);
      if Timely(s, t) {
        assert TimelyThreads(sys).enabled(s, t);
      } else {
        assert BranchOk(sys, s, s.main.i);
        assert TimelyThreads(sys).enabled(s, Worker(s.main.i));
      }
    }
  }

  lemma SafeIsCompletable(sys: System, s: State)
    requires Safe(sys, s)
    ensures Completable(Threads(sys), Done(sys), s)
  {
    var safe: State -> bool := s => Safe(sys, s);
    forall s, t | Safe(sys, s) && Enabled(sys, s, t) && Timely(s, t)
      ensures Safe(sys, Step(sys, s, t)) && RankOf(sys, Step(sys, s, t)).Below(RankOf(sys, s))
    {
      TimelyStepIsSafe(sys, s, t);
      StepLowersRank(sys, s, t);
    }
    forall s | Safe(sys, s) && Stuck(TimelyThreads(sys), s) ensures Finished(sys, s) {
      TimelyStuckIsFinished(sys, s);
    }
    CompletableWithin(TimelyThreads(sys), Threads(sys), safe, Ranks(sys), Done(sys), s);
  }

  /** A state that a run has reached can be completed if and only if no worker is doomed. */
  lemma CompletableIffNotDoomed(sys: System, init: State, schedule: seq<Thread>)
    requires Init(sys, init) && ReportsAreMarkers(sys.ops) && IsRun(Threads(sys), init, schedule)
    ensures var s := After(Threads(sys), init, schedule);
            Completable(Threads(sys), Done(sys), s) <==> forall w :: !Doomed(s, w)
  {
    RunKeepsInv(sys, init, schedule);
    var s := After(Threads(sys), init, schedule);
    if w: nat :| Doomed(s, w) {
      DoomedNeverReturns(sys, s, w);
    } else {
      SafeIsCompletable(sys, s);
    }
  }

  // ---------- when every worker is in time ----------

  /** Every worker has taken its trigger_mutex, and none is doomed. */
  ghost predicate InTime(sys: System, s: State) {
    Safe(sys, s) && AllStarted(s)
  }

  lemma InTimeKept(sys: System, s: State, t: Thread)
    requires InTime(sys, s) && Enabled(sys, s, t)
    ensures InTime(sys, Step(sys, s, t))
  {
    TimelyStepIsSafe(sys, s, t);
  }

  lemma InTimeIsInductive(sys: System)
    ensures Inductive(Threads(sys), s => InTime(sys, s)) && Lowers(Threads(sys), s => InTime(sys, s), Ranks(sys))
  {
    forall s, t | InTime(sys, s) && Enabled(sys, s, t)
      ensures InTime(sys, Step(sys, s, t)) && RankOf(sys, Step(sys, s, t)).Below(RankOf(sys, s))
    {
      InTimeKept(sys, s, t);
      StepLowersRank(sys, s, t);
    }
  }

  lemma StuckInTimeIsFinished(sys: System, s: State)
    requires InTime(sys, s)
    ensures Stuck(Threads(sys), s) ==> Finished(sys, s)
  {
    if !Finished(sys, s) {
      StuckHasLost(sys, s);
      assert forall i :: TriggerLost(s, i) ==> Doomed(s, i);
    }
  }

  /** If every worker has taken its trigger_mutex when init is done, every schedule that never idles
      carries out all operations, whatever order it picks. */
  lemma EveryScheduleFinishes(sys: System, init: State, pick: nat -> Thread) returns (k: nat)
    requires Init(sys, init) && AllStarted(init) && ReportsAreMarkers(sys.ops)
    requires NeverIdles(Threads(sys), init, pick)
    ensures IsRun(Threads(sys), init, Choices(pick, 0, k))
    ensures Finished(sys, After(Threads(sys), init, Choices(pick, 0, k)))
  {
    InitInv(sys, init);
    InTimeIsInductive(sys);
    k := EveryScheduleEnds(Threads(sys), s => InTime(sys, s), Ranks(sys), init, pick);
    StuckInTimeIsFinished(sys, After(Threads(sys), init, Choices(pick, 0, k)));
  }

  // ---------- a schedule that loses a trigger ----------

  ghost predicate FreshFrom(s: State, j: nat) {
    forall i :: j <= i < |s.branches| ==> Fresh(s.branches[i])
  }

  /** The main thread is before the first trigger of a round, and no worker is writing. */
  ghost predicate Quiet(sys: System, s: State, k: nat) {
    && s.next <= k < |sys.ops| && sys.ops[k].Fan? && sys.ops[k].call.Execute?
    && |s.branches| >= 2
    && FreshFrom(s, 0)
    && OpMatches(sys, s) && MainInRange(s)
    && (s.main.Direct? || s.main.DirectRunning? ==> sys.ops[s.next].call.Flush?)
    && match s.main
       case DirectRunning(_, e) =>
         && (e.stage.Locked? ==> e.todo != [])
         && (e.stage.Outside? ==> s.port.owner.None?)
       case Ready => s.port.owner.None?
       case Reporting => s.port.owner.None?
       case Direct(_) => s.port.owner.None?
       case SetFrame => true
       case SetTimebase => true
       case _ => false
  }

  lemma QuietStep(sys: System, s: State, k: nat)
    requires Quiet(sys, s, k)
    ensures MainEnabled(sys, s)
    ensures s.main != SetTimebase ==> Quiet(sys, MainStep(sys, s), k)
    ensures MainStep(sys, s).branches != s.branches ==> s.main.DirectRunning?
    ensures forall i :: 0 <= i < |s.branches| ==> MainStep(sys, s).branches[i].pc == s.branches[i].pc
  {
  }

  /** The main thread alone gets as far as its first trigger. */
  lemma {:induction false} ReachFirstTrigger(sys: System, s: State, k: nat) returns (schedule: seq<Thread>)
    requires Quiet(sys, s, k)
    ensures IsRun(Threads(sys), s, schedule)
    ensures var s' := After(Threads(sys), s, schedule);
            && s'.main == LockTrigger(0) && FreshFrom(s', 0) && |s'.branches| == |s.branches| >= 2
            && s'.next < |sys.ops|
            && forall i :: 0 <= i < |s.branches| ==> s'.branches[i].pc == s.branches[i].pc
    decreases RankOf(sys, s).ops, RankOf(sys, s).main, RankOf(sys, s).emission, RankOf(sys, s).work
  {
    QuietStep(sys, s, k);
    MainStepLowersRank(sys, s);
    var s' := MainStep(sys, s);
    var rest := [];
    if s.main != SetTimebase {
      rest := ReachFirstTrigger(sys, s', k);
    }
    RunCons(Threads(sys), s, Main, rest);
    schedule := [Main] + rest;
  }

  ghost predicate Triggering(sys: System, s: State, j: nat, w: nat) {
    && s.main == LockTrigger(j) && j <= w < |s.branches|
    && s.next < |sys.ops|
    && FreshFrom(s, j) && s.branches[w].pc.Start?
  }

  /** If worker `j` holds its trigger_mutex, it goes on into its wait. */
  lemma FreeTrigger(sys: System, s: State, j: nat, w: nat) returns (schedule: seq<Thread>)
    requires Triggering(sys, s, j, w)
    ensures IsRun(Threads(sys), s, schedule)
    ensures var s' := After(Threads(sys), s, schedule);
            Triggering(sys, s', j, w) && s'.branches[j].trigger.Free?
  {
    schedule := [];
    if s.branches[j].pc.WaitTrigger? {
      SingleRun(Threads(sys), s, Worker(j));
      schedule := [Worker(j)];
    }
  }

  /** From the trigger of branch `j` the main thread gets past that of branch `w`. */
  lemma {:induction false} LoseTrigger(sys: System, s: State, j: nat, w: nat) returns (schedule: seq<Thread>)
    requires Triggering(sys, s, j, w)
    ensures IsRun(Threads(sys), s, schedule)
    ensures Lost(After(Threads(sys), s, schedule), w)
    decreases w - j
  {
    var m := Threads(sys);
    var park := FreeTrigger(sys, s, j, w);
    var s0 := After(m, s, park);
    var s1 := MainStep(sys, s0);
    var s2 := MainStep(sys, s1);
    var s3 := if j == w then s2 else MainStep(sys, s2);
    var rest := [];
    if j < w {
      rest := LoseTrigger(sys, s3, j + 1, w);
      RunCons(m, s2, Main, rest);
      rest := [Main] + rest;
    }
    RunCons(m, s1, Main, rest);
    RunCons(m, s0, Main, [Main] + rest);
    RunConcat(m, s, park, [Main] + ([Main] + rest));
    schedule := park + ([Main] + ([Main] + rest));
  }

  /** Some operation sends a frame through the handshake. */
  ghost predicate TriggersWorkers(sys: System) {
    sys.branches >= 2 && exists k :: 0 <= k < |sys.ops| && sys.ops[k].Fan? && sys.ops[k].call.Execute?
  }

  lemma NothingToTrigger(sys: System, s: State)
    requires Inv(sys, s) && !TriggersWorkers(sys)
    ensures forall w :: !Doomed(s, w)
  {
  }

  /** Every run from init can be completed if and only if every worker has taken its trigger_mutex by then,
      or no frame will go through the handshake. */
  lemma AlwaysCompletableIff(sys: System, init: State)
    requires Init(sys, init) && ReportsAreMarkers(sys.ops)
    ensures AlwaysCompletable(Threads(sys), Done(sys), init) <==> AllStarted(init) || !TriggersWorkers(sys)
  {
    if AllStarted(init) || !TriggersWorkers(sys) {
      forall schedule | IsRun(Threads(sys), init, schedule)
        ensures Completable(Threads(sys), Done(sys), After(Threads(sys), init, schedule))
      {
        NobodyDoomed(sys, init, schedule);
        CompletableIffNotDoomed(sys, init, schedule);
      }
    } else {
      LatecomerIsDoomed(sys, init);
    }
  }

  lemma NobodyDoomed(sys: System, init: State, schedule: seq<Thread>)
    requires Init(sys, init) && ReportsAreMarkers(sys.ops) && IsRun(Threads(sys), init, schedule)
    requires AllStarted(init) || !TriggersWorkers(sys)
    ensures forall w :: !Doomed(After(Threads(sys), init, schedule), w)
  {
    RunKeepsInv(sys, init, schedule);
    if AllStarted(init) {
      InitInv(sys, init);
      InTimeIsInductive(sys);
      RunKeeps(Threads(sys), s => InTime(sys, s), init, schedule);
    } else {
      NothingToTrigger(sys, After(Threads(sys), init, schedule));
    }
  }

  /** A worker that has not taken its trigger_mutex when init is done can be passed over. */
  lemma LatecomerIsDoomed(sys: System, init: State)
    requires Init(sys, init) && ReportsAreMarkers(sys.ops) && TriggersWorkers(sys) && !AllStarted(init)
    ensures !AlwaysCompletable(Threads(sys), Done(sys), init)
  {
    var k :| 0 <= k < |sys.ops| && sys.ops[k].Fan? && sys.ops[k].call.Execute?;
    var w: nat :| w < |init.branches| && init.branches[w].pc.Start?;
    var first := ReachFirstTrigger(sys, init, k);
    var second := LoseTrigger(sys, After(Threads(sys), init, first), 0, w);
    RunConcat(Threads(sys), init, first, second);
    RunKeepsInv(sys, init, first + second);
    DoomedNeverReturns(sys, After(Threads(sys), init, first + second), w);
  }
}
