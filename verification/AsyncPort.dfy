/** What the queued scheduler leaves on the port when it is not in sync mode: the workers write while the
    main thread goes on, but write_done only speaks when all of them have ended. */
module AsyncPort {
  import opened Runs
  import opened Graph
  import opened AsyncFilter
  import opened AsyncInvariant

  /** Calls, the last one a flush, and then a single completion message. */
  ghost predicate ReportsOnce(ops: seq<Op>) {
    && |ops| >= 2 && ops[|ops| - 1].Report? && ops[|ops| - 2] == Fan(Flush)
    && forall k :: 0 <= k < |ops| - 1 ==> ops[k].Fan?
  }

  /** Up to the completion message the port has outputs only, and nothing comes after it. */
  ghost predicate ReportIsLast(sys: System, s: State)
    requires ReportsOnce(sys.ops)
  {
    var log := s.port.Log();
    if s.next < |sys.ops| then FromBranches(sys, log)
    else |log| > 0 && log[|log| - 1] == sys.ops[|sys.ops| - 1].message && FromBranches(sys, log[..|log| - 1])
  }

  /** Once the flush has returned no worker can move. */
  lemma FlushedIsQuiet(cfg: Setup, s: State, w: nat)
    requires Inv(cfg, s) && ReportsOnce(cfg.sys.ops)
    ensures s.next >= |cfg.sys.ops| - 1 ==> !WorkerEnabled(s, w)
  {
    assert Joined(cfg, s);
    if s.next >= |cfg.sys.ops| - 1 && w < |s.branches| {
      assert cfg.sys.ops[|cfg.sys.ops| - 2] == Fan(Flush);
      assert s.branches[w].pc.Terminated?;
    }
  }

  lemma MainKeepsReportLast(cfg: Setup, s: State)
    requires Inv(cfg, s) && ReportsOnce(cfg.sys.ops) && ReportIsLast(cfg.sys, s) && MainEnabled(cfg, s)
    ensures ReportIsLast(cfg.sys, MainStep(cfg, s))
  {
    if s.main.Reporting? {
      var m := cfg.sys.ops[s.next].message;
      var log := s.port.Log();
      WriteLog(s.port, m);
      CloseSegmentLog(Write(s.port, m));
      assert (log + [m])[..|log + [m]| - 1] == log;
    } else {
      CloseSegmentLog(s.port);
      assert MainStep(cfg, s).port == s.port || MainStep(cfg, s).port == CloseSegment(s.port);
      OnlyReportingEnds(cfg, s);
    }
  }

  lemma OnlyReportingEnds(cfg: Setup, s: State)
    requires MainOk(cfg, s) && ReportsOnce(cfg.sys.ops) && MainEnabled(cfg, s) && !s.main.Reporting?
    ensures MainStep(cfg, s).next < |cfg.sys.ops|
  {
  }

  lemma WorkerKeepsReportLast(cfg: Setup, s: State, w: nat)
    requires Inv(cfg, s) && ReportsOnce(cfg.sys.ops) && ReportIsLast(cfg.sys, s) && WorkerEnabled(s, w)
    ensures ReportIsLast(cfg.sys, WorkerStep(cfg, s, w))
  {
    FlushedIsQuiet(cfg, s, w);
    WorkerStepEntered(cfg, s, w, w);
    var pc := s.branches[w].pc;
    if pc.Running? && !pc.e.Done() {
      if pc.e.stage.Locked? {
        WriteLog(s.port, Output(w, pc.e.todo[0]));
      }
    } else {
      assert WorkerStep(cfg, s, w).port == s.port;
    }
  }

  ghost function Invariant(cfg: Setup): State -> bool
    requires ReportsOnce(cfg.sys.ops)
  {
    s => Inv(cfg, s) && ReportIsLast(cfg.sys, s)
  }

  /** If there is only one completion message, before it the port has outputs only, it meets no
      writing worker, and nothing comes after it. */
  lemma ReportComesLast(cfg: Setup, init: State, schedule: seq<Thread>)
    requires Init(cfg, init) && WellFormed(cfg) && ReportsOnce(cfg.sys.ops) && IsRun(Threads(cfg), init, schedule)
    ensures var s := After(Threads(cfg), init, schedule);
            && ReportIsLast(cfg.sys, s)
            && (s.main.Reporting? ==>
                 s.port.owner.None? && forall i :: 0 <= i < |s.branches| ==> s.branches[i].pc.Terminated?)
  {
    forall s, t | Invariant(cfg)(s) && Enabled(cfg, s, t) ensures Invariant(cfg)(Step(cfg, s, t)) {
      InvKept(cfg, s, t);
      match t
      case Main => MainKeepsReportLast(cfg, s);
      case Worker(w) => WorkerKeepsReportLast(cfg, s, w);
    }
    InitInv(cfg, init);
    RunKeeps(Threads(cfg), Invariant(cfg), init, schedule);
    ReportMeetsNobody(cfg, After(Threads(cfg), init, schedule));
  }

  lemma ReportMeetsNobody(cfg: Setup, s: State)
    requires Inv(cfg, s) && ReportsOnce(cfg.sys.ops)
    ensures s.main.Reporting? ==>
      s.port.owner.None? && forall i :: 0 <= i < |s.branches| ==> s.branches[i].pc.Terminated?
  {
    if s.main.Reporting? {
      assert cfg.sys.ops[|cfg.sys.ops| - 2] == Fan(Flush) && s.next == |cfg.sys.ops| - 1;
      WriterRuns(cfg, s);
    }
  }

  lemma WriterRuns(cfg: Setup, s: State)
    requires Inv(cfg, s)
    ensures s.port.owner.Some? ==>
      s.port.owner.value.Worker? && exists i :: 0 <= i < |s.branches| && s.branches[i].pc.Running?
  {
    if s.port.owner.Some? {
      assert OutputHeldBy(s, s.port.owner.value.id);
    }
  }
}
