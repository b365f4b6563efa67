/** What every fan-out scheduler shares: the calls a filter receives, the operations the main
    thread performs, the output mutex, and the log of messages written to the port. */
module Graph {
  import opened Runs
  import opened Sequences
  import opened Wrappers

  datatype Rational = Rational(num: int, den: int)

  // A call on a downstream filter. A frame is known by its address only.
  datatype Call = Execute(frame: int, timebase: Rational) | Flush

  // One message on the port. A payload stands for the bytes of one encoded output frame.
  datatype Message = Output(branch: nat, payload: int) | FrameDone | FlushDone

  // An operation of the main thread: call the fan-out filter, or call write_done.
  datatype Op = Fan(call: Call) | Report(message: Message)

  // The fan-out filter under study. `outputs(i, h)` are the payloads that branch `i` writes while
  // it handles the last call of its call history `h`; `ops` is everything the main thread will do.
  datatype System = System(branches: nat, outputs: (nat, seq<Call>) -> seq<int>, ops: seq<Op>)

  /** The main thread's operations for a list of process_frame commands followed by one flush. Each
      command makes any number of calls on the fan-out filter (a decoder may yield none, or several
      when it is drained). */
  function Script(commands: seq<seq<Call>>, drained: seq<Call>, syncMode: bool): seq<Op> {
    if |commands| == 0 then
      FanAll(drained) + [Fan(Flush), Report(FlushDone)]
    else
      FanAll(commands[0]) + (if syncMode then [Report(FrameDone)] else []) + Script(commands[1..], drained, syncMode)
  }

  function FanAll(calls: seq<Call>): seq<Op> {
    seq(|calls|, k requires 0 <= k < |calls| => Fan(calls[k]))
  }

  /** Nothing is sent into the graph after it has been flushed. */
  ghost predicate FlushIsLast(ops: seq<Op>) {
    forall j, k :: 0 <= j < k < |ops| && ops[j] == Fan(Flush) ==> ops[k].Report?
  }

  ghost predicate ReportsAreMarkers(ops: seq<Op>) {
    forall k :: 0 <= k < |ops| && ops[k].Report? ==> !ops[k].message.Output?
  }

  ghost predicate AllFrames(calls: seq<Call>) {
    forall k :: 0 <= k < |calls| ==> calls[k].Execute?
  }

  lemma {:induction false} ScriptFlushesLast(commands: seq<seq<Call>>, drained: seq<Call>, syncMode: bool)
    requires forall k :: 0 <= k < |commands| ==> AllFrames(commands[k])
    requires AllFrames(drained)
    ensures FlushIsLast(Script(commands, drained, syncMode))
    ensures ReportsAreMarkers(Script(commands, drained, syncMode))
  {
    if |commands| > 0 {
      ScriptFlushesLast(commands[1..], drained, syncMode);
    }
  }

  /** The calls made by the first `k` operations. */
  function CallsUpTo(ops: seq<Op>, k: nat): seq<Call>
    requires k <= |ops|
  {
    if k == 0 then [] else CallsUpTo(ops, k - 1) + CallOf(ops[k - 1])
  }

  function CallOf(op: Op): seq<Call> {
    if op.Fan? then [op.call] else []
  }

  // ---------- the sequential fan-out ----------

  function FanOut(histories: seq<seq<Call>>, call: Call): seq<seq<Call>> {
    seq(|histories|, i requires 0 <= i < |histories| => histories[i] + [call])
  }

  /** send_to_graph and flush_graph: one downstream call after the other. */
  method SendToGraph(histories: array<seq<Call>>, call: Call)
    modifies histories
    ensures histories[..] == FanOut(old(histories[..]), call)
  {
    for i := 0 to histories.Length
      invariant forall k :: 0 <= k < i ==> histories[k] == old(histories[k]) + [call]
      invariant forall k :: i <= k < histories.Length ==> histories[k] == old(histories[k])
    {
      histories[i] := histories[i] + [call];
    }
  }

  /** The histories after the first `k` operations when every fan-out is sequential. */
  function Sequential(sys: System, k: nat): (histories: seq<seq<Call>>)
    requires k <= |sys.ops|
    ensures |histories| == sys.branches
  {
    if k == 0 then seq(sys.branches, i => [])
    else
      var before := Sequential(sys, k - 1);
      if sys.ops[k - 1].Fan? then FanOut(before, sys.ops[k - 1].call) else before
  }

  lemma {:induction false} SequentialHistory(sys: System, k: nat)
    requires k <= |sys.ops|
    ensures forall i :: 0 <= i < sys.branches ==> Sequential(sys, k)[i] == CallsUpTo(sys.ops, k)
  {
    if k > 0 {
      SequentialHistory(sys, k - 1);
    }
  }

  // ---------- the port ----------

  /** The output mutex and the port. `closed` and `current` cut the log where the main thread goes
      from one operation to the next; `Log` is what the reader of the port sees. */
  datatype Port = Port(owner: Option<Thread>, closed: seq<seq<Message>>, current: seq<Message>) {
    function Log(): seq<Message> { Flatten(closed) + current }
  }

  function Flatten(segments: seq<seq<Message>>): seq<Message> {
    if |segments| == 0 then [] else Flatten(segments[..|segments| - 1]) + segments[|segments| - 1]
  }

  function Write(port: Port, m: Message): Port {
    port.(current := port.current + [m])
  }

  function CloseSegment(port: Port): Port {
    port.(closed := port.closed + [port.current], current := [])
  }

  lemma WriteLog(port: Port, m: Message)
    ensures Write(port, m).Log() == port.Log() + [m]
  {
    assert Flatten(port.closed) + (port.current + [m]) == (Flatten(port.closed) + port.current) + [m];
  }

  lemma CloseSegmentLog(port: Port)
    ensures CloseSegment(port).Log() == port.Log()
  {
    assert (port.closed + [port.current])[..|port.closed|] == port.closed;
  }

  /** The payloads that branch `i` has put on the log. */
  function Project(log: seq<Message>, i: nat): seq<int> {
    if |log| == 0 then []
    else
      var m := log[|log| - 1];
      Project(log[..|log| - 1], i) + (if m.Output? && m.branch == i then [m.payload] else [])
  }

  lemma ProjectSnoc(log: seq<Message>, m: Message, i: nat)
    ensures Project(log + [m], i) == Project(log, i) + (if m.Output? && m.branch == i then [m.payload] else [])
  {
    assert (log + [m])[..|log|] == log;
  }

  lemma {:induction false} ProjectConcat(a: seq<Message>, b: seq<Message>, i: nat)
    ensures Project(a + b, i) == Project(a, i) + Project(b, i)
  {
    if |b| == 0 {
      assert a + b == a;
    } else {
      var b' := b[..|b| - 1];
      ProjectConcat(a, b', i);
      assert a + b == (a + b') + [b[|b| - 1]];
      ProjectSnoc(a + b', b[|b| - 1], i);
    }
  }

  /** Everything branch `i` writes over a call history, in order. */
  function AllOutputs(sys: System, i: nat, history: seq<Call>): seq<int> {
    if |history| == 0 then []
    else AllOutputs(sys, i, history[..|history| - 1]) + sys.outputs(i, history)
  }

  lemma AllOutputsSnoc(sys: System, i: nat, history: seq<Call>, call: Call)
    ensures AllOutputs(sys, i, history + [call]) == AllOutputs(sys, i, history) + sys.outputs(i, history + [call])
  {
    assert (history + [call])[..|history|] == history;
  }

  // Who holds a mutex that only the main thread and one worker use.
  datatype Owner = Free | ByMain | ByWorker

  // ---------- one downstream call ----------

  // Where a downstream call stands with respect to one message: outside the output mutex, holding
  // it with the message still to write, or holding it with the message written.
  datatype Stage = Outside | Locked | Written

  datatype Emission = Emission(todo: seq<int>, stage: Stage) {
    predicate Done() { todo == [] && stage.Outside? }
  }

  predicate CanEmit(e: Emission, port: Port) {
    match e.stage
    case Outside => e.todo != [] && port.owner.None?
    case Locked => e.todo != []
    case Written => true
  }

  /** One step of write_output_from_frame or write_output_from_packet: lock, write, unlock. */
  function EmitStep(e: Emission, port: Port, t: Thread, branch: nat): (Emission, Port)
    requires CanEmit(e, port)
  {
    match e.stage
    case Outside => (e.(stage := Locked), port.(owner := Some(t)))
    case Locked => (Emission(e.todo[1..], Written), Write(port, Output(branch, e.todo[0])))
    case Written => (e.(stage := Outside), port.(owner := None))
  }

  /** Every message is written under a hold of the output mutex of its own: three steps take it, write the
      next message and give it back. */
  lemma OneMessagePerLock(e: Emission, port: Port, t: Thread, branch: nat)
    requires CanEmit(e, port) && e.stage.Outside?
    ensures var (e1, port1) := EmitStep(e, port, t, branch);
            && port1 == port.(owner := Some(t)) && CanEmit(e1, port1)
            && var (e2, port2) := EmitStep(e1, port1, t, branch);
               && port2.owner == Some(t) && CanEmit(e2, port2)
               && EmitStep(e2, port2, t, branch)
                  == (Emission(e.todo[1..], Outside), Write(port.(owner := None), Output(branch, e.todo[0])))
  {
  }

  function EmissionCost(e: Emission): nat {
    match e.stage
    case Outside => 3 * |e.todo|
    case Locked => if e.todo == [] then 0 else 3 * |e.todo| - 1
    case Written => 3 * |e.todo| + 1
  }

  lemma EmitStepCost(e: Emission, port: Port, t: Thread, branch: nat)
    requires CanEmit(e, port)
    ensures EmissionCost(EmitStep(e, port, t, branch).0) < EmissionCost(e)
  {
  }

  /** A step moves at most one payload from what branch `branch` has to write to the log. */
  lemma EmitStepOutputs(e: Emission, port: Port, t: Thread, branch: nat, i: nat)
    requires CanEmit(e, port)
    ensures var (e', port') := EmitStep(e, port, t, branch);
            if i == branch then Project(port'.Log(), i) + e'.todo == Project(port.Log(), i) + e.todo
            else Project(port'.Log(), i) == Project(port.Log(), i)
  {
    if e.stage.Locked? {
      var m := Output(branch, e.todo[0]);
      WriteLog(port, m);
      ProjectSnoc(port.Log(), m, i);
      Associate(Project(port.Log(), i), [e.todo[0]], e.todo[1..]);
      assert [e.todo[0]] + e.todo[1..] == e.todo;
    }
  }

  lemma EmitStepSegment(sys: System, e: Emission, port: Port, t: Thread, branch: nat)
    requires CanEmit(e, port) && branch < sys.branches && FromBranches(sys, port.current)
    ensures var (_, port') := EmitStep(e, port, t, branch);
            port'.closed == port.closed && FromBranches(sys, port'.current)
  {
  }

  // ---------- the order of messages ----------

  /** What operation `k` of the main thread must leave on the port: the complete outputs of that
      call from every branch and nothing else, or the single completion message. */
  ghost predicate SegmentOk(sys: System, k: nat, segment: seq<Message>)
    requires k < |sys.ops|
  {
    match sys.ops[k]
    case Report(m) => segment == [m]
    case Fan(_) =>
      && FromBranches(sys, segment)
      && forall i :: 0 <= i < sys.branches ==> Project(segment, i) == sys.outputs(i, CallsUpTo(sys.ops, k + 1))
  }

  ghost predicate FromBranches(sys: System, segment: seq<Message>) {
    forall j :: 0 <= j < |segment| ==> segment[j].Output? && segment[j].branch < sys.branches
  }

  ghost predicate Ordered(sys: System, segments: seq<seq<Message>>)
    requires |segments| <= |sys.ops|
  {
    forall k :: 0 <= k < |segments| ==> SegmentOk(sys, k, segments[k])
  }

  /** The branches' own streams follow from the order of the segments. */
  lemma {:induction false} OrderedProjects(sys: System, segments: seq<seq<Message>>, i: nat)
    requires |segments| <= |sys.ops| && Ordered(sys, segments) && i < sys.branches
    requires ReportsAreMarkers(sys.ops)
    ensures Project(Flatten(segments), i) == AllOutputs(sys, i, CallsUpTo(sys.ops, |segments|))
  {
    if |segments| > 0 {
      var k := |segments| - 1;
      OrderedProjects(sys, segments[..k], i);
      ProjectConcat(Flatten(segments[..k]), segments[k], i);
      if sys.ops[k].Fan? {
        AllOutputsSnoc(sys, i, CallsUpTo(sys.ops, k), sys.ops[k].call);
      } else {
        assert segments[k] == [] + [sys.ops[k].message];
        ProjectSnoc([], sys.ops[k].message, i);
        assert CallsUpTo(sys.ops, k) + [] == CallsUpTo(sys.ops, k);
      }
    }
  }

  /** When the branches have finished a call and nothing but their own messages is in the current
      segment, that segment holds exactly what the call writes. */
  lemma SegmentComplete(sys: System, port: Port)
    requires |port.closed| < |sys.ops| && Ordered(sys, port.closed) && ReportsAreMarkers(sys.ops)
    requires sys.ops[|port.closed|].Fan? && FromBranches(sys, port.current)
    requires forall i :: 0 <= i < sys.branches ==>
      Project(port.Log(), i) == AllOutputs(sys, i, CallsUpTo(sys.ops, |port.closed| + 1))
    ensures SegmentOk(sys, |port.closed|, port.current)
  {
    var k := |port.closed|;
    forall i: nat | i < sys.branches
      ensures Project(port.current, i) == sys.outputs(i, CallsUpTo(sys.ops, k + 1))
    {
      var before := CallsUpTo(sys.ops, k);
      OrderedProjects(sys, port.closed, i);
      ProjectConcat(Flatten(port.closed), port.current, i);
      AllOutputsSnoc(sys, i, before, sys.ops[k].call);
      assert CallsUpTo(sys.ops, k + 1) == before + [sys.ops[k].call];
      assert Project(port.Log(), i) == AllOutputs(sys, i, before) + Project(port.current, i);
      PrefixCancels(AllOutputs(sys, i, before), Project(port.current, i), sys.outputs(i, CallsUpTo(sys.ops, k + 1)));
    }
  }
}
