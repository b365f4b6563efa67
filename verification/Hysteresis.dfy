/** The state machine that audio_silence_detect.c and video_black_detect.c share: two cumulative counters
    and a flag. Whichever counter exceeds its threshold first decides the flag and clears both. */
module Hysteresis {
  // `on` is silence or black; `amount` is a number of samples, or one frame.
  datatype Event = Event(on: bool, amount: nat)

  datatype Limits = Limits(on: nat, off: nat)

  datatype Counters = Counters(on: nat, off: nat, flag: bool)

  const START := Counters(0, 0, true)

  function Observe(limits: Limits, c: Counters, e: Event): Counters {
    if e.on then
      if c.on + e.amount > limits.on then Counters(0, 0, true) else c.(on := c.on + e.amount)
    else
      if c.off + e.amount > limits.off then Counters(0, 0, false) else c.(off := c.off + e.amount)
  }

  function Run(limits: Limits, events: seq<Event>): Counters {
    RunFrom(limits, START, events)
  }

  function RunFrom(limits: Limits, c: Counters, events: seq<Event>): Counters {
    if |events| == 0 then c
    else Observe(limits, RunFrom(limits, c, events[..|events| - 1]), events[|events| - 1])
  }

  lemma RunSnoc(limits: Limits, c: Counters, events: seq<Event>, e: Event)
    ensures RunFrom(limits, c, events + [e]) == Observe(limits, RunFrom(limits, c, events), e)
  {
    assert (events + [e])[..|events|] == events;
  }

  // ---------- epochs ----------

  /** How much of one class there is in a stretch of events. */
  function Total(events: seq<Event>, on: bool): nat {
    if |events| == 0 then 0
    else
      var e := events[|events| - 1];
      Total(events[..|events| - 1], on) + (if e.on == on then e.amount else 0)
  }

  lemma TotalSnoc(events: seq<Event>, e: Event, on: bool)
    ensures Total(events + [e], on) == Total(events, on) + (if e.on == on then e.amount else 0)
  {
    assert (events + [e])[..|events|] == events;
  }

  /** Neither class has exceeded its threshold. */
  predicate Undecided(limits: Limits, events: seq<Event>) {
    Total(events, true) <= limits.on && Total(events, false) <= limits.off
  }

  /** A stretch that its last event decides. */
  predicate Epoch(limits: Limits, events: seq<Event>) {
    |events| > 0 && Undecided(limits, events[..|events| - 1]) && !Undecided(limits, events)
  }

  function Flatten(epochs: seq<seq<Event>>): seq<Event> {
    if |epochs| == 0 then [] else epochs[0] + Flatten(epochs[1..])
  }

  lemma {:induction false} FlattenSnoc(epochs: seq<seq<Event>>, last: seq<Event>)
    ensures Flatten(epochs + [last]) == Flatten(epochs) + last
  {
    if |epochs| == 0 {
      assert [last][1..] == [] && last + [] == [] + last;
    } else {
      FlattenSnoc(epochs[1..], last);
      assert (epochs + [last])[1..] == epochs[1..] + [last];
      assert epochs[0] + (Flatten(epochs[1..]) + last) == (epochs[0] + Flatten(epochs[1..])) + last;
    }
  }

  /** The history is these finished epochs, then an unfinished one. */
  ghost predicate Splits(limits: Limits, events: seq<Event>, epochs: seq<seq<Event>>, tail: seq<Event>) {
    && events == Flatten(epochs) + tail
    && AllEpochs(limits, epochs)
    && Undecided(limits, tail)
  }

  ghost predicate AllEpochs(limits: Limits, epochs: seq<seq<Event>>) {
    forall k :: 0 <= k < |epochs| ==> Epoch(limits, epochs[k])
  }

  /** The class that decided the last finished epoch; on, if there is none. */
  predicate LastWinner(epochs: seq<seq<Event>>) {
    |epochs| == 0 || (var e := epochs[|epochs| - 1]; |e| == 0 || e[|e| - 1].on)
  }

  /** Every history splits into epochs; the flag is the winner of the last finished one (initially on),
      and the counters are what has been seen since, which decides nothing yet. */
  lemma {:induction false} FlagIsLastWinner(limits: Limits, events: seq<Event>)
    returns (epochs: seq<seq<Event>>, tail: seq<Event>)
    ensures Splits(limits, events, epochs, tail)
    ensures Run(limits, events) == Counters(Total(tail, true), Total(tail, false), LastWinner(epochs))
    ensures Run(limits, events).on <= limits.on && Run(limits, events).off <= limits.off
  {
    if |events| == 0 {
      epochs, tail := [], [];
    } else {
      epochs, tail := FlagIsLastWinner(limits, events[..|events| - 1]);
      epochs, tail := SplitNext(limits, events, epochs, tail);
    }
  }

  lemma SplitNext(limits: Limits, events: seq<Event>, epochs: seq<seq<Event>>, tail: seq<Event>)
    returns (epochs': seq<seq<Event>>, tail': seq<Event>)
    requires |events| > 0 && Splits(limits, events[..|events| - 1], epochs, tail)
    requires Run(limits, events[..|events| - 1]) == Counters(Total(tail, true), Total(tail, false), LastWinner(epochs))
    ensures Splits(limits, events, epochs', tail')
    ensures Run(limits, events) == Counters(Total(tail', true), Total(tail', false), LastWinner(epochs'))
  {
    var e := events[|events| - 1];
    var longer := tail + [e];
    TotalSnoc(tail, e, true);
    TotalSnoc(tail, e, false);
    assert events == events[..|events| - 1] + [e] == Flatten(epochs) + longer;
    if Undecided(limits, longer) {
      epochs', tail' := epochs, longer;
    } else {
      assert longer[..|longer| - 1] == tail;
      epochs', tail' := epochs + [longer], [];
      EpochEnds(limits, events, epochs, longer);
    }
  }

  lemma EpochEnds(limits: Limits, events: seq<Event>, epochs: seq<seq<Event>>, last: seq<Event>)
    requires events == Flatten(epochs) + last && AllEpochs(limits, epochs) && Epoch(limits, last)
    ensures Splits(limits, events, epochs + [last], [])
  {
    FlattenSnoc(epochs, last);
    assert events + [] == events;
    AllEpochsSnoc(limits, epochs, last);
  }

  lemma AllEpochsSnoc(limits: Limits, epochs: seq<seq<Event>>, last: seq<Event>)
    requires AllEpochs(limits, epochs) && Epoch(limits, last)
    ensures AllEpochs(limits, epochs + [last])
  {
  }

  lemma {:induction false} TotalOfPrefix(events: seq<Event>, k: nat, on: bool)
    requires k <= |events|
    ensures Total(events[..k], on) <= Total(events, on)
  {
    if k == |events| {
      assert events[..k] == events;
    } else {
      TotalOfPrefix(events[..|events| - 1], k, on);
      assert events[..|events| - 1][..k] == events[..k];
    }
  }

  /** An epoch is never a beginning of an undecided stretch. */
  lemma EpochIsShortest(limits: Limits, epoch: seq<Event>, events: seq<Event>)
    requires Epoch(limits, epoch) && Undecided(limits, events)
    ensures !(epoch <= events)
  {
    if epoch <= events {
      assert events[..|epoch|] == epoch;
      TotalOfPrefix(events, |epoch|, true);
      TotalOfPrefix(events, |epoch|, false);
    }
  }

  /** There is only one way to split a history. */
  lemma {:induction false} SplitIsUnique(limits: Limits, events: seq<Event>,
      a: seq<seq<Event>>, tailA: seq<Event>, b: seq<seq<Event>>, tailB: seq<Event>)
    requires Splits(limits, events, a, tailA) && Splits(limits, events, b, tailB)
    ensures a == b && tailA == tailB
    decreases |a|
  {
    if |a| == 0 {
      NoEpochYet(limits, events, tailA, b, tailB);
    } else if |b| == 0 {
      NoEpochYet(limits, events, tailB, a, tailA);
    } else {
      SplitFirst(limits, events, a, tailA);
      SplitFirst(limits, events, b, tailB);
      FirstEpochIsUnique(limits, events, a[0], b[0]);
      SplitIsUnique(limits, events[|a[0]|..], a[1..], tailA, b[1..], tailB);
      assert a == [a[0]] + a[1..] && b == [b[0]] + b[1..];
    }
  }

  lemma SplitFirst(limits: Limits, events: seq<Event>, epochs: seq<seq<Event>>, tail: seq<Event>)
    requires Splits(limits, events, epochs, tail) && |epochs| > 0
    ensures Epoch(limits, epochs[0]) && epochs[0] <= events
    ensures Splits(limits, events[|epochs[0]|..], epochs[1..], tail)
  {
    assert events == epochs[0] + (Flatten(epochs[1..]) + tail);
    forall k | 0 <= k < |epochs[1..]| ensures Epoch(limits, epochs[1..][k]) {
      assert epochs[1..][k] == epochs[k + 1];
    }
  }

  lemma NoEpochYet(limits: Limits, events: seq<Event>, tail: seq<Event>, b: seq<seq<Event>>, tailB: seq<Event>)
    requires Splits(limits, events, [], tail) && Splits(limits, events, b, tailB)
    ensures b == [] && tail == tailB
  {
    assert events == tail;
    if |b| > 0 {
      SplitFirst(limits, events, b, tailB);
      EpochIsShortest(limits, b[0], tail);
    } else {
      assert events == tailB;
    }
  }

  lemma FirstEpochIsUnique(limits: Limits, events: seq<Event>, a: seq<Event>, b: seq<Event>)
    requires Epoch(limits, a) && Epoch(limits, b) && a <= events && b <= events
    ensures a == b
  {
    assert |a| < |b| ==> a <= b[..|b| - 1];
    assert |b| < |a| ==> b <= a[..|a| - 1];
    EpochIsShortest(limits, a, b[..|b| - 1]);
    EpochIsShortest(limits, b, a[..|a| - 1]);
  }

  /** From any state, an unbroken run of one class that totals more than its threshold sets the flag to
      that class. */
  lemma {:induction false} UnbrokenRunDecides(limits: Limits, c: Counters, events: seq<Event>, on: bool)
    requires forall k :: 0 <= k < |events| ==> events[k].on == on
    requires Total(events, on) > if on then limits.on else limits.off
    ensures RunFrom(limits, c, events).flag == on
  {
    UnbrokenRun(limits, c, events, on);
  }

  lemma {:induction false} UnbrokenRun(limits: Limits, c: Counters, events: seq<Event>, on: bool)
    requires forall k :: 0 <= k < |events| ==> events[k].on == on
    ensures var r := RunFrom(limits, c, events);
            r.flag == on || (if on then r.on == c.on + Total(events, on) else r.off == c.off + Total(events, on))
    ensures |events| > 0 ==>
      var r := RunFrom(limits, c, events); r.flag == on || (if on then r.on <= limits.on else r.off <= limits.off)
  {
    if |events| > 0 {
      UnbrokenRun(limits, c, events[..|events| - 1], on);
    }
  }

  /** As long as it totals no more than the threshold, an unbroken run only adds to its counter. */
  lemma {:induction false} UnbrokenRunAdds(limits: Limits, c: Counters, events: seq<Event>, on: bool)
    requires forall k :: 0 <= k < |events| ==> events[k].on == on
    requires if on then c.on + Total(events, on) <= limits.on else c.off + Total(events, on) <= limits.off
    ensures RunFrom(limits, c, events)
         == if on then c.(on := c.on + Total(events, on)) else c.(off := c.off + Total(events, on))
  {
    if |events| > 0 {
      UnbrokenRunAdds(limits, c, events[..|events| - 1], on);
    }
  }

  /** After a decision for one class, an unbroken run of the other changes the flag if and only if it totals
      more than its threshold. */
  lemma UnbrokenRunDecidesIff(limits: Limits, events: seq<Event>, on: bool)
    requires forall k :: 0 <= k < |events| ==> events[k].on == on
    ensures RunFrom(limits, Counters(0, 0, !on), events).flag == on
      <==> Total(events, on) > if on then limits.on else limits.off
  {
    if Total(events, on) > if on then limits.on else limits.off {
      UnbrokenRunDecides(limits, Counters(0, 0, !on), events, on);
    } else {
      UnbrokenRunAdds(limits, Counters(0, 0, !on), events, on);
    }
  }
}
