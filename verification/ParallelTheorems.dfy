/** What the handshake of parallel_filter.c guarantees over whole runs, and exactly when. */
module ParallelTheorems {
  import opened Graph
  import opened ParallelFilter
  import opened Runs
  import opened ParallelInvariant

  ghost function Invariant(sys: System): State -> bool {
    s => Inv(sys, s)
  }

  lemma InvariantIsInductive(sys: System)
    ensures Inductive(Threads(sys), Invariant(sys))
  {
    forall s, t | Inv(sys, s) && Enabled(sys, s, t) ensures Inv(sys, Step(sys, s, t)) {
      InvKept(sys, s, t);
    }
  }

  /** Every state that a run reaches satisfies the invariant. */
  lemma RunKeepsInv(sys: System, init: State, schedule: seq<Thread>)
    requires Init(sys, init) && ReportsAreMarkers(sys.ops) && IsRun(Threads(sys), init, schedule)
    ensures Inv(sys, After(Threads(sys), init, schedule))
  {
    InitInv(sys, init);
    InvariantIsInductive(sys);
    RunKeeps(Threads(sys), Invariant(sys), init, schedule);
  }

  /** However the threads interleave, whenever the filter's caller has control back, every branch has
      received exactly the calls that the sequential fan-out would have made. */
  lemma FanOutRefinesSequential(sys: System, init: State, schedule: seq<Thread>)
    requires Init(sys, init) && ReportsAreMarkers(sys.ops) && IsRun(Threads(sys), init, schedule)
    ensures var s := After(Threads(sys), init, schedule);
            && s.next <= |sys.ops|
            && (s.main.Ready? ==>
                 |s.branches| == sys.branches
                 && forall i :: 0 <= i < sys.branches ==> s.branches[i].history == Sequential(sys, s.next)[i])
  {
    RunKeepsInv(sys, init, schedule);
    var s := After(Threads(sys), init, schedule);
    SequentialHistory(sys, s.next);
    if s.main.Ready? {
      forall i | 0 <= i < sys.branches ensures s.branches[i].history == Sequential(sys, s.next)[i] {
        assert HistoryOk(sys, s, i);
      }
    }
  }

  /** No worker is between its wake-up and the end of its downstream call when the main thread stores
      into the shared slot, so the slot keeps its value while any worker is there. */
  lemma SlotIsRaceFree(sys: System, init: State, schedule: seq<Thread>, t: Thread, i: nat)
    requires Init(sys, init) && ReportsAreMarkers(sys.ops) && IsRun(Threads(sys), init, schedule)
    ensures var s := After(Threads(sys), init, schedule);
            i < |s.branches| && Reading(s.branches[i].pc) ==>
              && !s.main.SetFrame? && !s.main.SetTimebase?
              && (Enabled(sys, s, t) ==> Step(sys, s, t).slot == s.slot)
              && s.next < |sys.ops|
              && sys.ops[s.next] == Fan(Execute(s.slot.frame, s.slot.timebase))
  {
    RunKeepsInv(sys, init, schedule);
    var s := After(Threads(sys), init, schedule);
    if i < |s.branches| {
      assert BranchOk(sys, s, i);
    }
  }

  /** A worker that holds the output mutex has been triggered in the current round. */
  lemma WritersAreInside(sys: System, s: State)
    requires Inv(sys, s)
    ensures s.port.owner.Some? && s.port.owner.value.Worker? ==>
      PhaseOf(s.main, s.port.owner.value.id) in {Triggered, Awaited}
  {
    if s.port.owner.Some? && s.port.owner.value.Worker? {
      var w := s.port.owner.value.id;
      assert OutputHeldBy(s, w) && BranchOk(sys, s, w);
    }
  }

  /** The port never carries anything but the complete outputs of one operation after those of the
      one before it, and write_done, which takes no lock, never meets a thread that is writing. */
  lemma PortIsOrdered(sys: System, init: State, schedule: seq<Thread>)
    requires Init(sys, init) && ReportsAreMarkers(sys.ops) && IsRun(Threads(sys), init, schedule)
    ensures var s := After(Threads(sys), init, schedule);
            && s.next == |s.port.closed| <= |sys.ops|
            && Ordered(sys, s.port.closed)
            && (s.main.Ready? ==> s.port.Log() == Flatten(s.port.closed))
            && (s.main.Reporting? ==>
                 s.port.owner.None? && forall i :: 0 <= i < |s.branches| ==> !s.branches[i].pc.Running?)
  {
    RunKeepsInv(sys, init, schedule);
    var s := After(Threads(sys), init, schedule);
    if s.main.Reporting? {
      WritersAreInside(sys, s);
      forall i | 0 <= i < |s.branches| ensures !s.branches[i].pc.Running? {
        assert BranchOk(sys, s, i);
      }
    }
  }

  // ---------- stuck states ----------

  /** The main thread waits for the completion of branch `i`, whose worker waits for a trigger although it
      was triggered in this round: the signal came before it waited. */
  ghost predicate TriggerLost(s: State, i: nat) {
    i < |s.branches| && s.main == ParkedComplete(i) && s.branches[i].pc.ParkedTrigger?
  }

  /** The worker cannot move: it waits for a trigger, or for the complete_mutex the main thread holds. */
  predicate AtRest(b: Branch) {
    b.pc.ParkedTrigger? || (b.pc.LockComplete? && b.complete.ByMain?)
  }

  /** Unless a trigger has been lost, some thread can move until everything is done. */
  lemma Progress(sys: System, s: State) returns (t: Thread)
    requires Inv(sys, s) && !Finished(sys, s)
    requires forall i :: !TriggerLost(s, i)
    ensures Enabled(sys, s, t)
  {
    t := Main;
    match s.main
    case LockTrigger(i) =>
      assert BranchOk(sys, s, i);
      if !s.branches[i].trigger.Free? { t := Worker(i); }
    case WokenComplete(i) =>
      assert BranchOk(sys, s, i);
      if !s.branches[i].complete.Free? { t := Worker(i); }
    case ParkedComplete(i) =>
      assert BranchOk(sys, s, i) && OutputHeldBy(s, i) && !TriggerLost(s, i);
      t := Worker(i);
      if !WorkerEnabled(s, i) {
        t := s.port.owner.value;
        assert OutputHeldBy(s, t.id);
      }
    case DirectRunning(i, e) => WritersAreInside(sys, s);
    case _ =>
  }

  lemma StuckHasLost(sys: System, s: State)
    requires Inv(sys, s) && !Finished(sys, s)
    ensures Stuck(Threads(sys), s) ==> exists i :: TriggerLost(s, i)
  {
    if forall i :: !TriggerLost(s, i) {
      var t := Progress(sys, s);
      assert Threads(sys).enabled(s, t);
    }
  }

  /** In a stuck state in which the main thread waits for a completion, every worker rests. */
  lemma RestingWorker(sys: System, s: State, j: nat)
    requires Inv(sys, s) && s.main.ParkedComplete? && j < |s.branches|
    ensures Stuck(Threads(sys), s) ==> AtRest(s.branches[j])
  {
    assert BranchOk(sys, s, j) && OutputHeldBy(s, j);
    if s.port.owner.Some? {
      var w := s.port.owner.value.id;
      assert OutputHeldBy(s, w);
      assert Threads(sys).enabled(s, Worker(w));
    } else if WorkerEnabled(s, j) {
      assert Threads(sys).enabled(s, Worker(j));
    }
  }

  lemma StuckMeansLost(sys: System, s: State)
    requires Inv(sys, s) && !Finished(sys, s) && Stuck(Threads(sys), s)
    ensures exists i :: TriggerLost(s, i)
    ensures forall j :: 0 <= j < |s.branches| ==> AtRest(s.branches[j])
  {
    StuckHasLost(sys, s);
    forall j | 0 <= j < |s.branches| ensures AtRest(s.branches[j]) {
      RestingWorker(sys, s, j);
    }
  }

  /** In any reachable state that still has something to do, nothing can move if and only if the branch
      the main thread waits for has lost its trigger and the other workers rest. No other deadlock exists. */
  lemma StuckExactly(sys: System, init: State, schedule: seq<Thread>)
    requires Init(sys, init) && ReportsAreMarkers(sys.ops) && IsRun(Threads(sys), init, schedule)
    ensures var s := After(Threads(sys), init, schedule);
            !Finished(sys, s) ==>
              (Stuck(Threads(sys), s) <==>
                (exists i :: TriggerLost(s, i)) && forall j :: 0 <= j < |s.branches| ==> AtRest(s.branches[j]))
  {
    RunKeepsInv(sys, init, schedule);
    var s := After(Threads(sys), init, schedule);
    if !Finished(sys, s) {
      if Stuck(Threads(sys), s) {
        StuckMeansLost(sys, s);
      }
      if (exists i :: TriggerLost(s, i)) && forall j :: 0 <= j < |s.branches| ==> AtRest(s.branches[j]) {
        forall t ensures !Enabled(sys, s, t) {
          match t
          case Main =>
          case Worker(j) => assert j < |s.branches| ==> AtRest(s.branches[j]);
        }
      }
    }
  }

  // ---------- termination ----------

  function MainRank(n: nat, main: MainPc): nat {
    match main
    case Ready => 6 * n + 5
    case SetFrame => 6 * n + 4
    case SetTimebase => 6 * n + 3
    case LockTrigger(i) => 3 * n + 3 * Left(n, i) + 2
    case SignalTrigger(i) => 3 * n + 3 * Left(n, i) + 1
    case UnlockTrigger(i) => 3 * n + 3 * Left(n, i)
    case AwaitComplete(i) => 3 * Left(n, i) + 2
    case ParkedComplete(i) => 3 * Left(n, i) + 1
    case WokenComplete(i) => 3 * Left(n, i)
    case Direct(i) => 2 * Left(n, i) + 1
    case DirectRunning(i, _) => 2 * Left(n, i)
    case Reporting => 0
  }

  function WorkerCost(sys: System, next: nat, b: Branch, i: nat): nat {
    var outputs := if next < |sys.ops| then |sys.outputs(i, b.history + CallOf(sys.ops[next]))| else 0;
    match b.pc
    case Start => 2
    case WaitTrigger => 1
    case ParkedTrigger => 0
    case WokenTrigger => 3 * outputs + 8
    case ReadFrame => 3 * outputs + 7
    case ReadTimebase(_) => 3 * outputs + 6
    case Running(_, e) => EmissionCost(e) + 5
    case LockComplete => 4
    case SignalComplete => 3
    case UnlockComplete => 2
  }

  function Costs(sys: System, s: State): seq<nat> {
    seq(|s.branches|, i requires 0 <= i < |s.branches| => WorkerCost(sys, s.next, s.branches[i], i))
  }

  function RankOf(sys: System, s: State): Rank {
    Rank(Left(|sys.ops|, s.next), MainRank(|s.branches|, s.main),
         if s.main.DirectRunning? then EmissionCost(s.main.e) else 0, Sum(Costs(sys, s)))
  }

  lemma MainStepLowersRank(sys: System, s: State)
    requires MainEnabled(sys, s)
    ensures RankOf(sys, MainStep(sys, s)).Below(RankOf(sys, s))
  {
    if s.main.DirectRunning? && !s.main.e.Done() {
      EmitStepCost(s.main.e, s.port, Main, s.main.i);
    }
  }

  lemma WorkerStepCost(sys: System, s: State, w: nat)
    requires MainOk(sys, s) && WorkerEnabled(s, w) && BranchOk(sys, s, w)
    ensures WorkerCost(sys, s.next, WorkerStep(sys, s, w).branches[w], w) < WorkerCost(sys, s.next, s.branches[w], w)
  {
    var pc := s.branches[w].pc;
    if pc.Running? && !pc.e.Done() {
      EmitStepCost(pc.e, s.port, Worker(w), w);
    }
  }

  lemma WorkerStepSpares(sys: System, s: State, w: nat)
    requires WorkerEnabled(s, w)
    ensures var s' := WorkerStep(sys, s, w);
            && s'.next == s.next && |s'.branches| == |s.branches|
            && (forall i :: 0 <= i < |s.branches| && i != w ==> s'.branches[i] == s.branches[i])
            && (s'.main == s.main || (s.main == ParkedComplete(w) && s'.main == WokenComplete(w)))
  {
  }

  lemma WorkerStepLowersRank(sys: System, s: State, w: nat)
    requires Control(sys, s) && WorkerEnabled(s, w)
    ensures RankOf(sys, WorkerStep(sys, s, w)).Below(RankOf(sys, s))
  {
    assert BranchOk(sys, s, w);
    WorkerStepSpares(sys, s, w);
    WorkerStepCost(sys, s, w);
    SmallerCosts(sys, s, WorkerStep(sys, s, w), w);
  }

  lemma SmallerCosts(sys: System, s: State, s': State, w: nat)
    requires w < |s.branches| == |s'.branches| && s'.next == s.next
    requires forall i :: 0 <= i < |s.branches| && i != w ==> s'.branches[i] == s.branches[i]
    requires WorkerCost(sys, s.next, s'.branches[w], w) < WorkerCost(sys, s.next, s.branches[w], w)
    requires s'.main == s.main || (s.main == ParkedComplete(w) && s'.main == WokenComplete(w))
    ensures RankOf(sys, s').Below(RankOf(sys, s))
  {
    var c := WorkerCost(sys, s.next, s'.branches[w], w);
    assert Costs(sys, s') == Costs(sys, s)[w := c];
    SumUpdate(Costs(sys, s), w, c);
  }

  lemma StepLowersRank(sys: System, s: State, t: Thread)
    requires Inv(sys, s) && Enabled(sys, s, t)
    ensures RankOf(sys, Step(sys, s, t)).Below(RankOf(sys, s))
  {
    match t
    case Main => MainStepLowersRank(sys, s);
    case Worker(w) => WorkerStepLowersRank(sys, s, w);
  }

  ghost function Ranks(sys: System): State -> Rank {
    s => RankOf(sys, s)
  }

  lemma InvariantLowersRank(sys: System)
    ensures Lowers(Threads(sys), Invariant(sys), Ranks(sys))
  {
    forall s, t | Inv(sys, s) && Enabled(sys, s, t) ensures RankOf(sys, Step(sys, s, t)).Below(RankOf(sys, s)) {
      StepLowersRank(sys, s, t);
    }
  }

  /** Every schedule that never idles comes to an end, and then either everything is done or the branch
      the main thread waits for has lost its trigger. */
  lemma EveryScheduleFinishesOrLoses(sys: System, init: State, pick: nat -> Thread) returns (k: nat)
    requires Init(sys, init) && ReportsAreMarkers(sys.ops)
    requires NeverIdles(Threads(sys), init, pick)
    ensures IsRun(Threads(sys), init, Choices(pick, 0, k))
    ensures var s := After(Threads(sys), init, Choices(pick, 0, k));
            Finished(sys, s) || exists i :: TriggerLost(s, i)
  {
    InitInv(sys, init);
    InvariantIsInductive(sys);
    InvariantLowersRank(sys);
    k := EveryScheduleEnds(Threads(sys), Invariant(sys), Ranks(sys), init, pick);
    var s := After(Threads(sys), init, Choices(pick, 0, k));
    if !Finished(sys, s) {
      StuckMeansLost(sys, s);
    }
  }
}
