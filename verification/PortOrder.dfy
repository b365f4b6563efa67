/** main.c on top of the schedulers: what the reader of the port sees of a whole run of process_frame
    commands and the final flush, message by message. */
module PortOrder {
  import opened Graph
  import opened Runs
  import opened Sequences
  import P = ParallelFilter
  import PT = ParallelTheorems
  import A = AsyncFilter
  import AI = AsyncInvariant
  import AP = AsyncPort
  import AT = AsyncTheorems

  /** What branch `i` writes for `calls` when it has handled the calls `before`. */
  function OutputsAfter(sys: System, i: nat, before: seq<Call>, calls: seq<Call>): seq<int>
    decreases |calls|
  {
    if |calls| == 0 then []
    else sys.outputs(i, before + [calls[0]]) + OutputsAfter(sys, i, before + [calls[0]], calls[1..])
  }

  /** One command's share of the log: the complete outputs of its calls, in order for every branch. */
  ghost predicate Round(sys: System, before: seq<Call>, calls: seq<Call>, part: seq<Message>) {
    && FromBranches(sys, part)
    && forall i :: 0 <= i < sys.branches ==> Project(part, i) == OutputsAfter(sys, i, before, calls)
  }

  /** The outputs of the first command, frame_done, the outputs of the second, frame_done, and so on; at
      the end the outputs of what was drained and flushed, and flush_done. */
  ghost predicate Transcript(sys: System, before: seq<Call>, commands: seq<seq<Call>>, drained: seq<Call>,
                             log: seq<Message>)
    decreases |commands|
  {
    if |commands| == 0 then
      exists part :: Round(sys, before, drained + [Flush], part) && log == part + [FlushDone]
    else
      exists part, rest ::
        && Round(sys, before, commands[0], part)
        && Transcript(sys, before + commands[0], commands[1..], drained, rest)
        && log == part + ([FrameDone] + rest)
  }

  /** Operation `j` and its successors make exactly these calls. */
  ghost predicate Makes(ops: seq<Op>, j: nat, calls: seq<Call>) {
    j + |calls| <= |ops| && forall k :: 0 <= k < |calls| ==> ops[j + k] == Fan(calls[k])
  }

  /** The segments from `j` on, one after the other. */
  function LogFrom(segments: seq<seq<Message>>, j: nat): seq<Message>
    requires j <= |segments|
    decreases |segments| - j
  {
    if j == |segments| then [] else segments[j] + LogFrom(segments, j + 1)
  }

  lemma {:induction false} LogFromContinues(segments: seq<seq<Message>>, j: nat)
    requires j <= |segments|
    ensures Flatten(segments[..j]) + LogFrom(segments, j) == Flatten(segments)
    decreases |segments| - j
  {
    if j == |segments| {
      assert segments[..j] == segments && Flatten(segments) + [] == Flatten(segments);
    } else {
      LogFromContinues(segments, j + 1);
      assert segments[..j + 1][..j] == segments[..j];
      Associate(Flatten(segments[..j]), segments[j], LogFrom(segments, j + 1));
    }
  }

  lemma LogFromStart(segments: seq<seq<Message>>)
    ensures LogFrom(segments, 0) == Flatten(segments)
  {
    LogFromContinues(segments, 0);
    assert segments[..0] == [] && [] + LogFrom(segments, 0) == LogFrom(segments, 0);
  }

  lemma {:induction false} CallsMade(ops: seq<Op>, j: nat, calls: seq<Call>)
    requires j + |calls| <= |ops| && Makes(ops, j, calls)
    ensures CallsUpTo(ops, j + |calls|) == CallsUpTo(ops, j) + calls
    decreases |calls|
  {
    if |calls| == 0 {
      assert CallsUpTo(ops, j) + calls == CallsUpTo(ops, j);
    } else {
      MakesNext(ops, j, calls);
      CallsMade(ops, j + 1, calls[1..]);
      Associate(CallsUpTo(ops, j), [calls[0]], calls[1..]);
      assert [calls[0]] + calls[1..] == calls;
    }
  }

  /** Consecutive calls leave one round on the port. */
  lemma {:induction false} CallsLeaveARound(sys: System, segments: seq<seq<Message>>, j: nat, calls: seq<Call>)
      returns (part: seq<Message>)
    requires |segments| == |sys.ops| && Ordered(sys, segments) && Makes(sys.ops, j, calls)
    ensures Round(sys, CallsUpTo(sys.ops, j), calls, part)
    ensures LogFrom(segments, j) == part + LogFrom(segments, j + |calls|)
    decreases |calls|
  {
    if |calls| == 0 {
      part := [];
      assert part + LogFrom(segments, j) == LogFrom(segments, j);
    } else {
      MakesNext(sys.ops, j, calls);
      var others := CallsLeaveARound(sys, segments, j + 1, calls[1..]);
      part := segments[j] + others;
      JoinRounds(sys, segments, j, calls, others);
      Associate(segments[j], others, LogFrom(segments, j + |calls|));
    }
  }

  lemma MakesNext(ops: seq<Op>, j: nat, calls: seq<Call>)
    requires Makes(ops, j, calls) && |calls| > 0
    ensures ops[j] == Fan(calls[0]) && Makes(ops, j + 1, calls[1..])
    ensures CallsUpTo(ops, j + 1) == CallsUpTo(ops, j) + [calls[0]]
  {
    assert ops[j + 0] == Fan(calls[0]);
    forall k | 0 <= k < |calls[1..]| ensures ops[j + 1 + k] == Fan(calls[1..][k]) {
      assert ops[j + (k + 1)] == Fan(calls[k + 1]);
    }
  }

  lemma JoinRounds(sys: System, segments: seq<seq<Message>>, j: nat, calls: seq<Call>, others: seq<Message>)
    requires j < |segments| == |sys.ops| && Ordered(sys, segments) && |calls| > 0 && sys.ops[j] == Fan(calls[0])
    requires Round(sys, CallsUpTo(sys.ops, j + 1), calls[1..], others)
    ensures Round(sys, CallsUpTo(sys.ops, j), calls, segments[j] + others)
  {
    assert CallsUpTo(sys.ops, j + 1) == CallsUpTo(sys.ops, j) + [calls[0]];
    assert SegmentOk(sys, j, segments[j]);
    forall i: nat | i < sys.branches
      ensures Project(segments[j] + others, i) == OutputsAfter(sys, i, CallsUpTo(sys.ops, j), calls)
    {
      ProjectConcat(segments[j], others, i);
    }
  }

  lemma ReportLeavesAMarker(sys: System, segments: seq<seq<Message>>, j: nat, m: Message)
    requires j < |segments| == |sys.ops| && Ordered(sys, segments) && sys.ops[j] == Report(m)
    ensures LogFrom(segments, j) == [m] + LogFrom(segments, j + 1)
    ensures CallsUpTo(sys.ops, j + 1) == CallsUpTo(sys.ops, j)
  {
    assert SegmentOk(sys, j, segments[j]);
    assert CallsUpTo(sys.ops, j) + [] == CallsUpTo(sys.ops, j);
  }

  /** The segments that the operations leave behind, one after the other, are the transcript. */
  lemma {:induction false} SegmentsAreTranscript(sys: System, segments: seq<seq<Message>>, j: nat,
                                                 commands: seq<seq<Call>>, drained: seq<Call>)
    requires |segments| == |sys.ops| && Ordered(sys, segments)
    requires j <= |sys.ops| && sys.ops[j..] == Script(commands, drained, true)
    ensures Transcript(sys, CallsUpTo(sys.ops, j), commands, drained, LogFrom(segments, j))
    decreases |commands|
  {
    if |commands| == 0 {
      SegmentsEnd(sys, segments, j, commands, drained);
    } else {
      NextBegins(sys.ops, j, commands, drained);
      var part := RoundAndMarker(sys, segments, j, commands[0], FrameDone);
      var end := j + |commands[0]| + 1;
      SegmentsAreTranscript(sys, segments, end, commands[1..], drained);
    }
  }

  lemma SegmentsEnd(sys: System, segments: seq<seq<Message>>, j: nat, commands: seq<seq<Call>>, drained: seq<Call>)
    requires |segments| == |sys.ops| && Ordered(sys, segments) && |commands| == 0
    requires j <= |sys.ops| && sys.ops[j..] == Script(commands, drained, true)
    ensures Transcript(sys, CallsUpTo(sys.ops, j), commands, drained, LogFrom(segments, j))
  {
    LastBegins(sys.ops, j, commands, drained);
    var part := RoundAndMarker(sys, segments, j, drained + [Flush], FlushDone);
    assert [FlushDone] + [] == [FlushDone];
  }

  /** One command with its completion message. */
  lemma RoundAndMarker(sys: System, segments: seq<seq<Message>>, j: nat, calls: seq<Call>, m: Message)
      returns (part: seq<Message>)
    requires |segments| == |sys.ops| && Ordered(sys, segments)
    requires Makes(sys.ops, j, calls) && j + |calls| < |sys.ops| && sys.ops[j + |calls|] == Report(m)
    ensures Round(sys, CallsUpTo(sys.ops, j), calls, part)
    ensures CallsUpTo(sys.ops, j + |calls| + 1) == CallsUpTo(sys.ops, j) + calls
    ensures LogFrom(segments, j) == part + ([m] + LogFrom(segments, j + |calls| + 1))
  {
    part := CallsLeaveARound(sys, segments, j, calls);
    CallsMade(sys.ops, j, calls);
    ReportLeavesAMarker(sys, segments, j + |calls|, m);
  }

  lemma LastBegins(ops: seq<Op>, j: nat, commands: seq<seq<Call>>, drained: seq<Call>)
    requires |commands| == 0 && j <= |ops| && ops[j..] == Script(commands, drained, true)
    ensures Makes(ops, j, drained + [Flush])
    ensures j + |drained| + 2 == |ops| && ops[j + |drained| + 1] == Report(FlushDone)
  {
    assert FanAll(drained + [Flush]) == FanAll(drained) + [Fan(Flush)];
    assert FanAll(drained) + [Fan(Flush), Report(FlushDone)] == FanAll(drained + [Flush]) + ([Report(FlushDone)] + []);
    TakeRound(ops, j, drained + [Flush], FlushDone, []);
  }

  lemma NextBegins(ops: seq<Op>, j: nat, commands: seq<seq<Call>>, drained: seq<Call>)
    requires |commands| > 0 && j <= |ops| && ops[j..] == Script(commands, drained, true)
    ensures Makes(ops, j, commands[0])
    ensures var end := j + |commands[0]|;
            && end < |ops| && ops[end] == Report(FrameDone)
            && ops[end + 1..] == Script(commands[1..], drained, true)
  {
    var rest := Script(commands[1..], drained, true);
    Associate(FanAll(commands[0]), [Report(FrameDone)], rest);
    TakeRound(ops, j, commands[0], FrameDone, rest);
  }

  lemma TakeRound(ops: seq<Op>, j: nat, calls: seq<Call>, m: Message, rest: seq<Op>)
    requires j <= |ops| && ops[j..] == FanAll(calls) + ([Report(m)] + rest)
    ensures Makes(ops, j, calls)
    ensures j + |calls| < |ops| && ops[j + |calls|] == Report(m)
    ensures ops[j + |calls| + 1..] == rest
  {
    var tail := ops[j..];
    forall k | 0 <= k < |calls| ensures ops[j + k] == Fan(calls[k]) {
      assert ops[j + k] == tail[k];
    }
    assert ops[j + |calls|] == tail[|calls|];
    assert ops[j + |calls| + 1..] == tail[|calls| + 1..];
  }

  // ---------- either mode ----------

  /** All calls of the commands, one after the other. */
  function AllCalls(commands: seq<seq<Call>>): seq<Call> {
    if |commands| == 0 then [] else commands[0] + AllCalls(commands[1..])
  }

  /** What the port carries at the end. Outside sync mode no command is acknowledged, so there is one round
      of all calls. */
  ghost predicate Spoken(sys: System, commands: seq<seq<Call>>, drained: seq<Call>, syncMode: bool, log: seq<Message>) {
    if syncMode then Transcript(sys, [], commands, drained, log)
    else Transcript(sys, [], [], AllCalls(commands) + drained, log)
  }

  lemma FanAllConcat(a: seq<Call>, b: seq<Call>)
    ensures FanAll(a + b) == FanAll(a) + FanAll(b)
  {
  }

  /** Without acknowledgements, the commands run into one another. */
  lemma {:induction false} QuietScript(commands: seq<seq<Call>>, drained: seq<Call>)
    ensures Script(commands, drained, false) == Script([], AllCalls(commands) + drained, true)
  {
    if |commands| == 0 {
      assert AllCalls(commands) + drained == drained;
    } else {
      var first, others := commands[0], AllCalls(commands[1..]) + drained;
      QuietScript(commands[1..], drained);
      Associate(first, AllCalls(commands[1..]), drained);
      FanAllConcat(first, others);
      Associate(FanAll(first), FanAll(others), [Fan(Flush), Report(FlushDone)]);
      assert FanAll(first) + [] == FanAll(first);
    }
  }

  lemma OrderedIsSpoken(sys: System, segments: seq<seq<Message>>, commands: seq<seq<Call>>, drained: seq<Call>,
                        syncMode: bool)
    requires |segments| == |sys.ops| && Ordered(sys, segments) && sys.ops == Script(commands, drained, syncMode)
    ensures Spoken(sys, commands, drained, syncMode, Flatten(segments))
  {
    assert sys.ops[0..] == sys.ops;
    LogFromStart(segments);
    if syncMode {
      SegmentsAreTranscript(sys, segments, 0, commands, drained);
    } else {
      QuietScript(commands, drained);
      SegmentsAreTranscript(sys, segments, 0, [], AllCalls(commands) + drained);
    }
  }

  /** A finished run of the trigger/complete filter. */
  lemma ParallelTranscript(sys: System, init: P.State, schedule: seq<Thread>, commands: seq<seq<Call>>,
                           drained: seq<Call>, syncMode: bool)
    requires sys.ops == Script(commands, drained, syncMode)
    requires (forall k :: 0 <= k < |commands| ==> AllFrames(commands[k])) && AllFrames(drained)
    requires P.Init(sys, init) && IsRun(P.Threads(sys), init, schedule)
    ensures var s := After(P.Threads(sys), init, schedule);
            P.Finished(sys, s) ==> Spoken(sys, commands, drained, syncMode, s.port.Log())
  {
    ScriptFlushesLast(commands, drained, syncMode);
    PT.PortIsOrdered(sys, init, schedule);
    var s := After(P.Threads(sys), init, schedule);
    if P.Finished(sys, s) {
      OrderedIsSpoken(sys, s.port.closed, commands, drained, syncMode);
    }
  }

  /** A finished run of the queued filter. */
  lemma AsyncTranscript(cfg: A.Setup, init: A.State, schedule: seq<Thread>, commands: seq<seq<Call>>,
                        drained: seq<Call>)
    requires cfg.sys.ops == Script(commands, drained, cfg.sync)
    requires (forall k :: 0 <= k < |commands| ==> AllFrames(commands[k])) && AllFrames(drained)
    requires A.Init(cfg, init) && IsRun(A.Threads(cfg), init, schedule)
    ensures var s := After(A.Threads(cfg), init, schedule);
            A.Finished(cfg, s) ==> Spoken(cfg.sys, commands, drained, cfg.sync, s.port.Log())
  {
    ScriptFlushesLast(commands, drained, cfg.sync);
    assert AI.WellFormed(cfg);
    var s := After(A.Threads(cfg), init, schedule);
    if A.Finished(cfg, s) {
      if cfg.sync {
        AT.PortIsOrdered(cfg, init, schedule);
        OrderedIsSpoken(cfg.sys, s.port.closed, commands, drained, true);
      } else {
        QuietScript(commands, drained);
        AllCallsAreFrames(commands);
        QuietTranscript(cfg, init, schedule, AllCalls(commands) + drained);
      }
    }
  }

  /** The calls of a script without acknowledgements, and its one completion message. */
  lemma QuietOps(ops: seq<Op>, frames: seq<Call>)
    requires ops == Script([], frames, true) && AllFrames(frames)
    ensures AP.ReportsOnce(ops) && ops[|ops| - 1] == Report(FlushDone)
    ensures CallsUpTo(ops, |ops|) == frames + [Flush]
  {
    var calls := frames + [Flush];
    assert ops[0..] == ops;
    LastBegins(ops, 0, [], frames);
    CallsMade(ops, 0, calls);
    assert [] + calls == calls && calls + [] == calls;
    assert forall k :: 0 <= k < |calls| ==> ops[0 + k] == Fan(calls[k]);
  }

  lemma {:induction false} AllCallsAreFrames(commands: seq<seq<Call>>)
    requires forall k :: 0 <= k < |commands| ==> AllFrames(commands[k])
    ensures AllFrames(AllCalls(commands))
  {
    if |commands| > 0 {
      AllCallsAreFrames(commands[1..]);
    }
  }

  lemma {:induction false} OutputsOfCalls(sys: System, i: nat, before: seq<Call>, calls: seq<Call>)
    ensures AllOutputs(sys, i, before + calls) == AllOutputs(sys, i, before) + OutputsAfter(sys, i, before, calls)
    decreases |calls|
  {
    if |calls| == 0 {
      assert before + calls == before;
    } else {
      var next := before + [calls[0]];
      assert before + calls == next + calls[1..];
      OutputsOfCalls(sys, i, next, calls[1..]);
      AllOutputsSnoc(sys, i, before, calls[0]);
      Associate(AllOutputs(sys, i, before), sys.outputs(i, next), OutputsAfter(sys, i, next, calls[1..]));
    }
  }

  /** The queued filter outside sync mode: every branch's outputs are complete and in order when the only
      completion message, flush_done, is written. */
  lemma QuietTranscript(cfg: A.Setup, init: A.State, schedule: seq<Thread>, frames: seq<Call>)
    requires cfg.sys.ops == Script([], frames, true) && AllFrames(frames) && AI.WellFormed(cfg)
    requires A.Init(cfg, init) && IsRun(A.Threads(cfg), init, schedule)
    ensures var s := After(A.Threads(cfg), init, schedule);
            A.Finished(cfg, s) ==> Transcript(cfg.sys, [], [], frames, s.port.Log())
  {
    QuietOps(cfg.sys.ops, frames);
    AP.ReportComesLast(cfg, init, schedule);
    var s := After(A.Threads(cfg), init, schedule);
    if A.Finished(cfg, s) {
      var log := s.port.Log();
      var part := log[..|log| - 1];
      assert log == part + [FlushDone];
      forall i: nat | i < cfg.sys.branches
        ensures Project(part, i) == OutputsAfter(cfg.sys, i, [], frames + [Flush])
      {
        BranchHasSpoken(cfg, init, schedule, frames + [Flush], i);
        ProjectSnoc(part, FlushDone, i);
        assert Project(part, i) + [] == Project(part, i);
      }
      assert Round(cfg.sys, [], frames + [Flush], part);
    }
  }

  lemma BranchHasSpoken(cfg: A.Setup, init: A.State, schedule: seq<Thread>, calls: seq<Call>, i: nat)
    requires A.Init(cfg, init) && IsRun(A.Threads(cfg), init, schedule) && AI.WellFormed(cfg) && i < cfg.sys.branches
    requires AP.ReportsOnce(cfg.sys.ops) && CallsUpTo(cfg.sys.ops, |cfg.sys.ops|) == calls
    ensures var s := After(A.Threads(cfg), init, schedule);
            A.Finished(cfg, s) ==> Project(s.port.Log(), i) == OutputsAfter(cfg.sys, i, [], calls)
  {
    AT.FlushDeliversEverything(cfg, init, schedule, |cfg.sys.ops| - 2, i);
    SequentialHistory(cfg.sys, |cfg.sys.ops|);
    OutputsOfCalls(cfg.sys, i, [], calls);
    assert [] + calls == calls && AllOutputs(cfg.sys, i, []) + OutputsAfter(cfg.sys, i, [], calls)
      == OutputsAfter(cfg.sys, i, [], calls);
  }
}
