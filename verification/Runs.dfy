/** Runs of a system of threads that take atomic steps in any order. A machine says which thread can
    move in a state and where it goes; a schedule names the thread that moves at each step. */
module Runs {
  datatype Thread = Main | Worker(id: nat)

  datatype Machine<!S> = Machine(enabled: (S, Thread) -> bool, step: (S, Thread) -> S)

  ghost predicate IsRun<S>(m: Machine<S>, s: S, schedule: seq<Thread>)
    decreases |schedule|
  {
    |schedule| > 0 ==> m.enabled(s, schedule[0]) && IsRun(m, m.step(s, schedule[0]), schedule[1..])
  }

  ghost function After<S>(m: Machine<S>, s: S, schedule: seq<Thread>): S
    decreases |schedule|
  {
    if |schedule| == 0 then s else After(m, m.step(s, schedule[0]), schedule[1..])
  }

  ghost predicate Stuck<S>(m: Machine<S>, s: S) {
    forall t :: !m.enabled(s, t)
  }

  lemma RunCons<S>(m: Machine<S>, s: S, t: Thread, rest: seq<Thread>)
    requires m.enabled(s, t) && IsRun(m, m.step(s, t), rest)
    ensures IsRun(m, s, [t] + rest)
    ensures After(m, s, [t] + rest) == After(m, m.step(s, t), rest)
  {
    assert ([t] + rest)[1..] == rest;
  }

  lemma SingleRun<S>(m: Machine<S>, s: S, t: Thread)
    requires m.enabled(s, t)
    ensures IsRun(m, s, [t]) && After(m, s, [t]) == m.step(s, t)
  {
    assert [t][1..] == [];
  }

  lemma {:induction false} RunConcat<S>(m: Machine<S>, s: S, first: seq<Thread>, second: seq<Thread>)
    requires IsRun(m, s, first) && IsRun(m, After(m, s, first), second)
    ensures IsRun(m, s, first + second)
    ensures After(m, s, first + second) == After(m, After(m, s, first), second)
    decreases |first|
  {
    if |first| == 0 {
      assert first + second == second;
    } else {
      RunConcat(m, m.step(s, first[0]), first[1..], second);
      RunCons(m, s, first[0], first[1..] + second);
      assert first + second == [first[0]] + (first[1..] + second);
    }
  }

  ghost predicate Inductive<S(!new)>(m: Machine<S>, inv: S -> bool) {
    forall s, t :: inv(s) && m.enabled(s, t) ==> inv(m.step(s, t))
  }

  lemma {:induction false} RunKeeps<S(!new)>(m: Machine<S>, inv: S -> bool, s: S, schedule: seq<Thread>)
    requires Inductive(m, inv) && inv(s) && IsRun(m, s, schedule)
    ensures inv(After(m, s, schedule))
    decreases |schedule|
  {
    if |schedule| > 0 {
      RunKeeps(m, inv, m.step(s, schedule[0]), schedule[1..]);
    }
  }

  // ---------- termination ----------

  // How much a system still has to do, compared lexicographically.
  datatype Rank = Rank(ops: nat, main: nat, emission: nat, work: nat) {
    predicate Below(r: Rank) {
      || ops < r.ops
      || (ops == r.ops && main < r.main)
      || (ops == r.ops && main == r.main && emission < r.emission)
      || (ops == r.ops && main == r.main && emission == r.emission && work < r.work)
    }
  }

  function Left(n: nat, i: nat): nat {
    if i <= n then n - i else 0
  }

  function Sum(costs: seq<nat>): nat {
    if |costs| == 0 then 0 else costs[0] + Sum(costs[1..])
  }

  lemma {:induction false} SumUpdate(costs: seq<nat>, i: nat, c: nat)
    requires i < |costs|
    ensures Sum(costs[i := c]) == Sum(costs) - costs[i] + c
  {
    if i == 0 {
      assert costs[0 := c][1..] == costs[1..];
    } else {
      assert costs[i := c][1..] == costs[1..][i - 1 := c];
      SumUpdate(costs[1..], i - 1, c);
    }
  }

  /** Every step taken from a state of the invariant lowers the rank. */
  ghost predicate Lowers<S(!new)>(m: Machine<S>, inv: S -> bool, rank: S -> Rank) {
    forall s, t :: inv(s) && m.enabled(s, t) ==> rank(m.step(s, t)).Below(rank(s))
  }

  /** The first `k` choices of an infinite sequence of choices. */
  ghost function Choices(pick: nat -> Thread, from: nat, k: nat): seq<Thread> {
    seq(k, j requires 0 <= j < k => pick(from + j))
  }

  /** There is no infinite run: any infinite sequence of choices comes to a blocked thread. */
  lemma {:induction false} EveryRunEnds<S(!new)>(
      m: Machine<S>, inv: S -> bool, rank: S -> Rank, s: S, pick: nat -> Thread, from: nat)
    returns (k: nat)
    requires Inductive(m, inv) && Lowers(m, inv, rank) && inv(s)
    ensures IsRun(m, s, Choices(pick, from, k))
    ensures !m.enabled(After(m, s, Choices(pick, from, k)), pick(from + k))
    decreases rank(s).ops, rank(s).main, rank(s).emission, rank(s).work
  {
    var t := pick(from);
    if !m.enabled(s, t) {
      k := 0;
    } else {
      var k' := EveryRunEnds(m, inv, rank, m.step(s, t), pick, from + 1);
      k := k' + 1;
      RunCons(m, s, t, Choices(pick, from + 1, k'));
      assert Choices(pick, from, k) == [t] + Choices(pick, from + 1, k');
    }
  }

  /** The sequence of choices never takes a blocked thread while another one can move. */
  ghost predicate NeverIdles<S(!new)>(m: Machine<S>, s: S, pick: nat -> Thread) {
    forall k: nat :: IsRun(m, s, Choices(pick, 0, k)) ==>
      var s' := After(m, s, Choices(pick, 0, k));
      Stuck(m, s') || m.enabled(s', pick(k))
  }

  /** Such a sequence of choices ends in a state where nothing can move any more. */
  lemma EveryScheduleEnds<S(!new)>(m: Machine<S>, inv: S -> bool, rank: S -> Rank, s: S, pick: nat -> Thread)
    returns (k: nat)
    requires Inductive(m, inv) && Lowers(m, inv, rank) && inv(s) && NeverIdles(m, s, pick)
    ensures IsRun(m, s, Choices(pick, 0, k))
    ensures inv(After(m, s, Choices(pick, 0, k))) && Stuck(m, After(m, s, Choices(pick, 0, k)))
  {
    k := EveryRunEnds(m, inv, rank, s, pick, 0);
    RunKeeps(m, inv, s, Choices(pick, 0, k));
  }

  /** From any state of the invariant some run leads to a state where nothing can move. */
  lemma {:induction false} SomeRunEnds<S(!new)>(m: Machine<S>, inv: S -> bool, rank: S -> Rank, s: S)
    returns (schedule: seq<Thread>)
    requires Inductive(m, inv) && Lowers(m, inv, rank) && inv(s)
    ensures IsRun(m, s, schedule)
    ensures inv(After(m, s, schedule)) && Stuck(m, After(m, s, schedule))
    decreases rank(s).ops, rank(s).main, rank(s).emission, rank(s).work
  {
    if Stuck(m, s) {
      schedule := [];
    } else {
      var t :| m.enabled(s, t);
      var rest := SomeRunEnds(m, inv, rank, m.step(s, t));
      RunCons(m, s, t, rest);
      schedule := [t] + rest;
    }
  }

  // ---------- completing a run ----------

  ghost predicate Completable<S(!new)>(m: Machine<S>, finished: S -> bool, s: S) {
    exists schedule :: IsRun(m, s, schedule) && finished(After(m, s, schedule))
  }

  /** Every run from `s` can be continued until it is finished. */
  ghost predicate AlwaysCompletable<S(!new)>(m: Machine<S>, finished: S -> bool, s: S) {
    forall schedule :: IsRun(m, s, schedule) ==> Completable(m, finished, After(m, s, schedule))
  }

  /** A property that no step loses cannot be got away from. */
  lemma TrapIsNeverLeft<S(!new)>(m: Machine<S>, trap: S -> bool, s: S)
    requires Inductive(m, trap) && trap(s)
    ensures forall schedule :: IsRun(m, s, schedule) ==> trap(After(m, s, schedule))
  {
    forall schedule | IsRun(m, s, schedule) ensures trap(After(m, s, schedule)) {
      RunKeeps(m, trap, s, schedule);
    }
  }

  /** `fewer` takes the steps of `m`, but not all of them. */
  ghost predicate Restricts<S(!new)>(fewer: Machine<S>, m: Machine<S>) {
    forall s, t :: fewer.enabled(s, t) ==> m.enabled(s, t) && fewer.step(s, t) == m.step(s, t)
  }

  lemma {:induction false} RestrictedRunIsRun<S(!new)>(fewer: Machine<S>, m: Machine<S>, s: S, schedule: seq<Thread>)
    requires Restricts(fewer, m) && IsRun(fewer, s, schedule)
    ensures IsRun(m, s, schedule) && After(m, s, schedule) == After(fewer, s, schedule)
    decreases |schedule|
  {
    if |schedule| > 0 {
      RestrictedRunIsRun(fewer, m, fewer.step(s, schedule[0]), schedule[1..]);
    }
  }

  /** A state can be completed if some restricted way of scheduling only gets stuck when it is finished. */
  lemma CompletableWithin<S(!new)>(
      fewer: Machine<S>, m: Machine<S>, inv: S -> bool, rank: S -> Rank, finished: S -> bool, s: S)
    requires Restricts(fewer, m) && Inductive(fewer, inv) && Lowers(fewer, inv, rank) && inv(s)
    requires forall s' :: inv(s') && Stuck(fewer, s') ==> finished(s')
    ensures Completable(m, finished, s)
  {
    var schedule := SomeRunEnds(fewer, inv, rank, s);
    RestrictedRunIsRun(fewer, m, s, schedule);
  }
}
