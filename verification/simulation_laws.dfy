/** When each wait of the simulator controller ends, and how: two-sided laws over the positions of a trace,
    for the waits and for whole runs. */
module SimulationLaws {
  import opened Paths
  import opened SimulationControl
  import M = Measurements

  // ---- polls at every second position ----

  predicate PolledAt(trace: Trace, b: nat, deadline: int, i: nat) {
    Polls(trace, b + 2 * i, deadline)
  }

  /** The clock after poll i. */
  function Heard2(trace: Trace, b: nat, i: nat): Option<int> {
    if b + 2 * i + 2 <= |trace| then ClockAt(trace, b + 2 * i + 2) else None
  }

  predicate MeetsAt(trace: Trace, b: nat, target: int, i: nat) {
    Heard2(trace, b, i).Some? && Heard2(trace, b, i).value >= target
  }

  /** All polls before poll n happened in time and did not end the wait. */
  ghost predicate BelowUntil(trace: Trace, b: nat, deadline: int, target: int, n: nat) {
    forall i :: 0 <= i < n ==> PolledAt(trace, b, deadline, i) && !MeetsAt(trace, b, target, i)
  }

  /** The wait for a target from position k ends at `at` with clock v: every reading of the time up to then lies
      before the deadline, and poll n is the first to find the clock at or above the target. */
  ghost predicate Reaches(trace: Trace, k: nat, timeout: int, target: int, v: int, at: nat) {
    Offers(trace, k, true) &&
    var b, deadline := k + 1, trace[k].now + timeout;
    exists n: nat :: ReachesAt(trace, b, deadline, target, v, at, n)
  }

  ghost predicate ReachesAt(trace: Trace, b: nat, deadline: int, target: int, v: int, at: nat, n: nat) {
    && BelowUntil(trace, b, deadline, target, n) && PolledAt(trace, b, deadline, n)
    && MeetsAt(trace, b, target, n) && at == b + 2 * n + 2 && Heard2(trace, b, n) == Some(v)
  }

  /** Some poll could not happen: the time was not offered or had reached the deadline, or no poll was offered. */
  ghost predicate NeverReaches(trace: Trace, k: nat, timeout: int, target: int) {
    Offers(trace, k, true) ==>
      var b, deadline := k + 1, trace[k].now + timeout;
      exists n: nat :: MissesAt(trace, b, deadline, target, n)
  }

  ghost predicate MissesAt(trace: Trace, b: nat, deadline: int, target: int, n: nat) {
    BelowUntil(trace, b, deadline, target, n) && !PolledAt(trace, b, deadline, n)
  }

  lemma {:induction false} ShiftTwo(trace: Trace, b: nat, deadline: int, target: int, i: nat)
    ensures PolledAt(trace, b + 2, deadline, i) == PolledAt(trace, b, deadline, i + 1)
    ensures Heard2(trace, b + 2, i) == Heard2(trace, b, i + 1)
    ensures MeetsAt(trace, b + 2, target, i) == MeetsAt(trace, b, target, i + 1)
  {
    assert b + 2 + 2 * i == b + 2 * (i + 1);
  }

  lemma {:induction false} BelowShift(trace: Trace, b: nat, deadline: int, target: int, n: nat)
    requires BelowUntil(trace, b + 2, deadline, target, n)
    requires PolledAt(trace, b, deadline, 0) && !MeetsAt(trace, b, target, 0)
    ensures BelowUntil(trace, b, deadline, target, n + 1)
  {
    hide PolledAt, MeetsAt;
    forall i | 0 <= i < n + 1
      ensures PolledAt(trace, b, deadline, i) && !MeetsAt(trace, b, target, i)
    {
      if i > 0 { ShiftTwo(trace, b, deadline, target, i - 1); }
    }
  }

  /** The first poll that does not happen or that ends the wait decides it. */
  lemma {:induction false} AtLeastRuns(trace: Trace, b: nat, deadline: int, target: int) returns (n: nat)
    requires b <= |trace|
    ensures BelowUntil(trace, b, deadline, target, n)
    ensures var r := AtLeastLoop(trace, b, deadline, target);
      if PolledAt(trace, b, deadline, n)
      then MeetsAt(trace, b, target, n) && Heard2(trace, b, n).Some?
           && r == Done(Heard2(trace, b, n).value, b + 2 * n + 2)
      else r.Failed?
    decreases |trace| - b
  {
    hide ClockAt;
    n := 0;
    if Polls(trace, b, deadline) && !MeetsAt(trace, b, target, 0) {
      var m := AtLeastRuns(trace, b + 2, deadline, target);
      ShiftTwo(trace, b, deadline, target, m);
      BelowShift(trace, b, deadline, target, m);
      n := m + 1;
    }
  }

  /** The wait returns v at a position exactly when some poll is the first to find the clock at or above the
      target, finds v, and no reading up to then has reached the deadline; and it fails exactly when the next
      poll cannot happen in time while no earlier one has found it. */
  lemma {:induction false} WaitAtLeastLaw(trace: Trace, k: nat, timeout: int, target: int, v: int, at: nat)
    ensures WaitAtLeast(trace, k, timeout, target) == Done(v, at) <==> Reaches(trace, k, timeout, target, v, at)
    ensures WaitAtLeast(trace, k, timeout, target).Failed? <==> NeverReaches(trace, k, timeout, target)
  {
    hide ClockAt, AtLeastLoop, PolledAt, MeetsAt, Heard2;
    if Offers(trace, k, true) {
      var b, deadline := k + 1, trace[k].now + timeout;
      var n := AtLeastRuns(trace, b, deadline, target);
      forall m: nat | ReachesAt(trace, b, deadline, target, v, at, m) || MissesAt(trace, b, deadline, target, m)
        ensures m == n
      {
        FirstIsUnique(trace, b, deadline, target, m, n);
      }
      if PolledAt(trace, b, deadline, n) {
        var r := AtLeastLoop(trace, b, deadline, target);
        assert ReachesAt(trace, b, deadline, target, r.value, r.at, n);
      } else {
        assert MissesAt(trace, b, deadline, target, n);
      }
    }
  }

  lemma {:induction false} FirstIsUnique(trace: Trace, b: nat, deadline: int, target: int, m: nat, n: nat)
    requires BelowUntil(trace, b, deadline, target, m) && BelowUntil(trace, b, deadline, target, n)
    requires PolledAt(trace, b, deadline, m) ==> MeetsAt(trace, b, target, m)
    requires PolledAt(trace, b, deadline, n) ==> MeetsAt(trace, b, target, n)
    ensures m == n
  {
  }

  // ---- an advance ----

  /** Poll j is the first after which the clock is known. */
  ghost predicate FirstHeardAt(trace: Trace, b: nat, j: nat) {
    Heard2(trace, b, j).Some? && forall l :: 0 <= l < j ==> Heard2(trace, b, l).None?
  }

  /** After poll i the clock is beyond the earlier value: the one known at the start, or else the first heard. */
  ghost predicate AdvancesAt(trace: Trace, b: nat, previous: Option<int>, i: nat) {
    Heard2(trace, b, i).Some? &&
    if previous.Some? then Heard2(trace, b, i).value > previous.value
    else exists j: nat :: j < i && FirstHeardAt(trace, b, j) && Heard2(trace, b, i).value > Heard2(trace, b, j).value
  }

  ghost predicate StillUntil(trace: Trace, b: nat, deadline: int, previous: Option<int>, n: nat) {
    forall i :: 0 <= i < n ==> PolledAt(trace, b, deadline, i) && !AdvancesAt(trace, b, previous, i)
  }

  ghost predicate Passes(trace: Trace, k: nat, timeout: int, previous: Option<int>, v: int, at: nat) {
    Offers(trace, k, true) &&
    var b, deadline := k + 1, trace[k].now + timeout;
    exists n: nat :: PassesAt(trace, b, deadline, previous, v, at, n)
  }

  ghost predicate PassesAt(trace: Trace, b: nat, deadline: int, previous: Option<int>, v: int, at: nat, n: nat) {
    && StillUntil(trace, b, deadline, previous, n) && PolledAt(trace, b, deadline, n)
    && AdvancesAt(trace, b, previous, n) && at == b + 2 * n + 2 && Heard2(trace, b, n) == Some(v)
  }

  ghost predicate NeverPasses(trace: Trace, k: nat, timeout: int, previous: Option<int>) {
    Offers(trace, k, true) ==>
      var b, deadline := k + 1, trace[k].now + timeout;
      exists n: nat :: StaysAt(trace, b, deadline, previous, n)
  }

  ghost predicate StaysAt(trace: Trace, b: nat, deadline: int, previous: Option<int>, n: nat) {
    StillUntil(trace, b, deadline, previous, n) && !PolledAt(trace, b, deadline, n)
  }

  /** What the loop compares with after one poll that has not ended it. */
  function Baseline(previous: Option<int>, heard: Option<int>): Option<int> {
    if previous.Some? then previous else heard
  }

  lemma {:induction false} AdvanceShift(trace: Trace, b: nat, previous: Option<int>, i: nat)
    ensures AdvancesAt(trace, b + 2, Baseline(previous, Heard2(trace, b, 0)), i) <==>
            AdvancesAt(trace, b, previous, i + 1)
  {
    hide Heard2;
    var c, next := b + 2, i + 1;
    HeardShift(trace, b);
    if previous.None? {
      if Heard2(trace, b, 0).Some? {
        assert FirstHeardAt(trace, b, 0);
      } else {
        if AdvancesAt(trace, b, previous, next) {
          var j: nat :| j < next && FirstHeardAt(trace, b, j)
            && Heard2(trace, b, next).value > Heard2(trace, b, j).value;
          assert j > 0;
          LaterFirst(trace, b, j - 1);
        }
        if AdvancesAt(trace, c, None, i) {
          var j: nat :| j < i && FirstHeardAt(trace, c, j) && Heard2(trace, c, i).value > Heard2(trace, c, j).value;
          LaterFirst(trace, b, j);
        }
      }
    }
  }

  lemma {:induction false} HeardShift(trace: Trace, b: nat)
    ensures var c := b + 2; forall j: nat :: Heard2(trace, c, j) == Heard2(trace, b, j + 1)
  {
    var c := b + 2;
    forall j: nat
      ensures Heard2(trace, c, j) == Heard2(trace, b, j + 1)
    {
      ShiftTwo(trace, b, 0, 0, j);
    }
  }

  lemma {:induction false} LaterFirst(trace: Trace, b: nat, j: nat)
    requires Heard2(trace, b, 0).None?
    ensures FirstHeardAt(trace, b + 2, j) <==> FirstHeardAt(trace, b, j + 1)
  {
    hide Heard2;
    var c := b + 2;
    HeardShift(trace, b);
    if FirstHeardAt(trace, b, j + 1) {
      forall l | 0 <= l < j
        ensures Heard2(trace, c, l).None?
      {
        var next := l + 1;
        assert Heard2(trace, b, next).None?;
      }
    }
    if FirstHeardAt(trace, c, j) {
      forall l | 0 <= l < j + 1
        ensures Heard2(trace, b, l).None?
      {
        if l > 0 {
          var before := l - 1;
          assert Heard2(trace, c, before).None?;
        }
      }
    }
  }

  lemma {:induction false} AfterRuns(trace: Trace, b: nat, deadline: int, previous: Option<int>) returns (n: nat)
    requires b <= |trace|
    ensures StillUntil(trace, b, deadline, previous, n)
    ensures var r := AfterLoop(trace, b, deadline, previous);
      if PolledAt(trace, b, deadline, n)
      then AdvancesAt(trace, b, previous, n) && Heard2(trace, b, n).Some?
           && r == Done(Heard2(trace, b, n).value, b + 2 * n + 2)
      else r.Failed?
    decreases |trace| - b
  {
    hide ClockAt, AdvancesAt;
    n := 0;
    NoAdvanceYet(trace, b, previous);
    var heard := Heard2(trace, b, 0);
    if Polls(trace, b, deadline) && !(heard.Some? && previous.Some? && heard.value > previous.value) {
      var m := AfterRuns(trace, b + 2, deadline, Baseline(previous, heard));
      ShiftTwo(trace, b, deadline, 0, m);
      AdvanceShift(trace, b, previous, m);
      forall i | 0 <= i < m + 1
        ensures PolledAt(trace, b, deadline, i) && !AdvancesAt(trace, b, previous, i)
      {
        if i > 0 {
          ShiftTwo(trace, b, deadline, 0, i - 1);
          AdvanceShift(trace, b, previous, i - 1);
        }
      }
      n := m + 1;
    }
  }

  lemma {:induction false} NoAdvanceYet(trace: Trace, b: nat, previous: Option<int>)
    ensures AdvancesAt(trace, b, previous, 0) <==>
            Heard2(trace, b, 0).Some? && previous.Some? && Heard2(trace, b, 0).value > previous.value
  {
  }

  /** The same for the wait for an advance. */
  lemma {:induction false} WaitAfterLaw(trace: Trace, k: nat, timeout: int, previous: Option<int>, v: int, at: nat)
    ensures WaitAfter(trace, k, timeout, previous) == Done(v, at) <==> Passes(trace, k, timeout, previous, v, at)
    ensures WaitAfter(trace, k, timeout, previous).Failed? <==> NeverPasses(trace, k, timeout, previous)
  {
    hide ClockAt, AfterLoop, PolledAt, AdvancesAt, Heard2;
    if Offers(trace, k, true) {
      var b, deadline := k + 1, trace[k].now + timeout;
      var n := AfterRuns(trace, b, deadline, previous);
      forall m: nat | PassesAt(trace, b, deadline, previous, v, at, m) || StaysAt(trace, b, deadline, previous, m)
        ensures m == n
      {
        FirstAdvanceIsUnique(trace, b, deadline, previous, m, n);
      }
      if PolledAt(trace, b, deadline, n) {
        var r := AfterLoop(trace, b, deadline, previous);
        assert PassesAt(trace, b, deadline, previous, r.value, r.at, n);
      } else {
        assert StaysAt(trace, b, deadline, previous, n);
      }
    }
  }

  lemma {:induction false} FirstAdvanceIsUnique(trace: Trace, b: nat, deadline: int, previous: Option<int>,
      m: nat, n: nat)
    requires StillUntil(trace, b, deadline, previous, m) && StillUntil(trace, b, deadline, previous, n)
    requires PolledAt(trace, b, deadline, m) ==> AdvancesAt(trace, b, previous, m)
    requires PolledAt(trace, b, deadline, n) ==> AdvancesAt(trace, b, previous, n)
    ensures m == n
  {
    hide PolledAt, AdvancesAt;
  }

  // ---- a state ----

  /** The state known before reading i: the first answer, or the answer to the call before it. */
  function KnownState(trace: Trace, b: nat, first: int, i: nat): Outcome<int> {
    if i == 0 then Done(first, b) else StateAt(trace, b + 3 * i - 1)
  }

  predicate ReadsAt(trace: Trace, b: nat, deadline: int, i: nat) {
    Offers(trace, b + 3 * i, true) && trace[b + 3 * i].now < deadline
  }

  predicate AsksAt(trace: Trace, b: nat, i: nat) {
    Offers(trace, b + 3 * i + 1, false) && StateAt(trace, b + 3 * i + 2).Done?
  }

  predicate IsState(trace: Trace, b: nat, first: int, requested: int, i: nat) {
    KnownState(trace, b, first, i).Done? && KnownState(trace, b, first, i).value == requested
  }

  ghost predicate OtherUntil(trace: Trace, b: nat, deadline: int, first: int, requested: int, n: nat) {
    forall i :: 0 <= i < n ==>
      ReadsAt(trace, b, deadline, i) && !IsState(trace, b, first, requested, i) && AsksAt(trace, b, i)
  }

  /** The state is confirmed at `at`: every reading up to then lies before the deadline, every call answers, and
      answer n is the first to report the requested state. */
  ghost predicate Confirms(trace: Trace, k: nat, timeout: int, requested: int, at: nat) {
    Offers(trace, k, true) && StateAt(trace, k + 1).Done? &&
    var b, deadline, first := k + 2, trace[k].now + timeout, StateAt(trace, k + 1).value;
    exists n: nat :: ConfirmsAt(trace, b, deadline, first, requested, at, n)
  }

  ghost predicate ConfirmsAt(trace: Trace, b: nat, deadline: int, first: int, requested: int, at: nat, n: nat) {
    && OtherUntil(trace, b, deadline, first, requested, n)
    && ReadsAt(trace, b, deadline, n) && IsState(trace, b, first, requested, n) && at == b + 3 * n + 1
  }

  ghost predicate NeverConfirms(trace: Trace, k: nat, timeout: int, requested: int) {
    Offers(trace, k, true) && StateAt(trace, k + 1).Done? ==>
      var b, deadline, first := k + 2, trace[k].now + timeout, StateAt(trace, k + 1).value;
      exists n: nat :: DeniesAt(trace, b, deadline, first, requested, n)
  }

  ghost predicate DeniesAt(trace: Trace, b: nat, deadline: int, first: int, requested: int, n: nat) {
    && OtherUntil(trace, b, deadline, first, requested, n)
    && (!ReadsAt(trace, b, deadline, n) || (!IsState(trace, b, first, requested, n) && !AsksAt(trace, b, n)))
  }

  lemma {:induction false} ShiftThree(trace: Trace, b: nat, deadline: int, first: int, requested: int, i: nat)
    requires AsksAt(trace, b, 0)
    ensures ReadsAt(trace, b + 3, deadline, i) == ReadsAt(trace, b, deadline, i + 1)
    ensures AsksAt(trace, b + 3, i) == AsksAt(trace, b, i + 1)
    ensures IsState(trace, b + 3, StateAt(trace, b + 2).value, requested, i) ==
            IsState(trace, b, first, requested, i + 1)
  {
    assert b + 3 + 3 * i == b + 3 * (i + 1);
  }

  lemma {:induction false} StateRuns(trace: Trace, b: nat, deadline: int, requested: int, first: int) returns (n: nat)
    requires b <= |trace|
    ensures OtherUntil(trace, b, deadline, first, requested, n)
    ensures var r := StateLoop(trace, b, deadline, requested, first);
      if ReadsAt(trace, b, deadline, n) && IsState(trace, b, first, requested, n)
      then r == Done((), b + 3 * n + 1)
      else r.Failed? && DeniesAt(trace, b, deadline, first, requested, n)
    decreases |trace| - b
  {
    n := 0;
    if ReadsAt(trace, b, deadline, 0) && first != requested && AsksAt(trace, b, 0) {
      var next := StateAt(trace, b + 2).value;
      var m := StateRuns(trace, b + 3, deadline, requested, next);
      ShiftThree(trace, b, deadline, first, requested, m);
      forall i | 0 <= i < m + 1
        ensures ReadsAt(trace, b, deadline, i) && !IsState(trace, b, first, requested, i) && AsksAt(trace, b, i)
      {
        if i > 0 { ShiftThree(trace, b, deadline, first, requested, i - 1); }
      }
      n := m + 1;
    }
  }

  /** The same for the confirmation of a state. */
  lemma {:induction false} WaitStateLaw(trace: Trace, k: nat, timeout: int, requested: int, at: nat)
    ensures WaitState(trace, k, timeout, requested).Done? && WaitState(trace, k, timeout, requested).at == at <==>
            Confirms(trace, k, timeout, requested, at)
    ensures WaitState(trace, k, timeout, requested).Failed? <==> NeverConfirms(trace, k, timeout, requested)
  {
    hide StateLoop, ReadsAt, AsksAt, IsState;
    if Offers(trace, k, true) && StateAt(trace, k + 1).Done? {
      var b, deadline, first := k + 2, trace[k].now + timeout, StateAt(trace, k + 1).value;
      var n := StateRuns(trace, b, deadline, requested, first);
      forall m: nat | ConfirmsAt(trace, b, deadline, first, requested, at, m)
                      || DeniesAt(trace, b, deadline, first, requested, m)
        ensures m == n
      {
      }
      if ReadsAt(trace, b, deadline, n) && IsState(trace, b, first, requested, n) {
        var r := StateLoop(trace, b, deadline, requested, first);
        assert ConfirmsAt(trace, b, deadline, first, requested, r.at, n);
      }
    }
  }

  // ---- quiescence ----

  /** The position after a poll: one reading further when a clock has been heard. */
  function NextPoll(trace: Trace, p: nat): nat {
    if p + 2 <= |trace| && ClockAt(trace, p + 2).Some? then p + 3 else p + 2
  }

  /** The position of poll i. */
  function PollAt(trace: Trace, b: nat, i: nat): nat
    decreases i
  {
    if i == 0 then b else PollAt(trace, NextPoll(trace, b), i - 1)
  }

  /** The clock after poll i. */
  function HeardAt(trace: Trace, b: nat, i: nat): Option<int> {
    var p := PollAt(trace, b, i);
    if p + 2 <= |trace| then ClockAt(trace, p + 2) else None
  }

  /** The clock before poll i, `start` before the first. */
  function HeardBefore(trace: Trace, b: nat, start: Option<int>, i: nat): Option<int> {
    if i == 0 then start else HeardAt(trace, b, i - 1)
  }

  /** Poll i happened in time, and so did the reading that follows a known clock. */
  predicate TimedAt(trace: Trace, b: nat, deadline: int, i: nat) {
    var p := PollAt(trace, b, i);
    Polls(trace, p, deadline) && (HeardAt(trace, b, i).Some? ==> Offers(trace, p + 2, true))
  }

  /** The reading from which a clock that has been the same since before poll j is counted: `since` if it was so
      from the start, or else that of the poll before, which found the clock changed. */
  function CountedFrom(trace: Trace, b: nat, since: int, j: nat): int {
    if j == 0 then since
    else
      var p := PollAt(trace, b, j - 1) + 2;
      if p < |trace| && trace[p].Time? then trace[p].now else 0
  }

  predicate ChangedBefore(trace: Trace, b: nat, start: Option<int>, j: nat) {
    j == 0 || HeardAt(trace, b, j - 1) != HeardBefore(trace, b, start, j - 1)
  }

  ghost predicate SameFrom(trace: Trace, b: nat, start: Option<int>, j: nat, i: nat) {
    forall l :: j <= l <= i ==> HeardAt(trace, b, l) == HeardBefore(trace, b, start, j)
  }

  ghost predicate QuietSince(trace: Trace, b: nat, start: Option<int>, since: int, stable: int, j: nat, i: nat) {
    && j <= i && ChangedBefore(trace, b, start, j) && SameFrom(trace, b, start, j, i)
    && CountedFrom(trace, b, since, i + 1) - CountedFrom(trace, b, since, j) >= stable
  }

  /** After poll i the clock is known and has been the same for the stable time, counted between readings. */
  ghost predicate QuietAt(trace: Trace, b: nat, start: Option<int>, since: int, stable: int, i: nat) {
    HeardAt(trace, b, i).Some? && exists j: nat :: QuietSince(trace, b, start, since, stable, j, i)
  }

  ghost predicate MovingUntil(trace: Trace, b: nat, deadline: int, start: Option<int>, since: int, stable: int,
      n: nat)
  {
    forall i :: 0 <= i < n ==> TimedAt(trace, b, deadline, i) && !QuietAt(trace, b, start, since, stable, i)
  }

  /** The clock is found quiescent at `at` with value v: no reading has reached the deadline, and poll n is the
      first after which it has been the same for the stable time. */
  ghost predicate Settles(trace: Trace, k: nat, timeout: int, stable: int, v: int, at: nat) {
    Offers(trace, k, true) && Offers(trace, k + 1, true) &&
    var b, deadline, start, since := k + 2, trace[k].now + timeout, ClockAt(trace, k + 2), trace[k + 1].now;
    exists n: nat :: SettlesAt(trace, b, deadline, start, since, stable, v, at, n)
  }

  ghost predicate SettlesAt(trace: Trace, b: nat, deadline: int, start: Option<int>, since: int, stable: int,
      v: int, at: nat, n: nat)
  {
    && MovingUntil(trace, b, deadline, start, since, stable, n) && TimedAt(trace, b, deadline, n)
    && QuietAt(trace, b, start, since, stable, n) && at == PollAt(trace, b, n) + 3
    && HeardAt(trace, b, n) == Some(v)
  }

  ghost predicate NeverSettles(trace: Trace, k: nat, timeout: int, stable: int) {
    Offers(trace, k, true) && Offers(trace, k + 1, true) ==>
      var b, deadline, start, since := k + 2, trace[k].now + timeout, ClockAt(trace, k + 2), trace[k + 1].now;
      exists n: nat :: UnsettledAt(trace, b, deadline, start, since, stable, n)
  }

  ghost predicate UnsettledAt(trace: Trace, b: nat, deadline: int, start: Option<int>, since: int, stable: int,
      n: nat)
  {
    MovingUntil(trace, b, deadline, start, since, stable, n) && !TimedAt(trace, b, deadline, n)
  }

  /** What the loop keeps after poll 0: the clock, and the reading it counts from. */
  function CountNext(trace: Trace, b: nat, start: Option<int>, since: int): int {
    if HeardAt(trace, b, 0).Some? && HeardAt(trace, b, 0) != start then CountedFrom(trace, b, since, 1) else since
  }

  lemma {:induction false} ShiftPoll(trace: Trace, b: nat, start: Option<int>, i: nat)
    ensures var next := NextPoll(trace, b);
      && PollAt(trace, next, i) == PollAt(trace, b, i + 1) && HeardAt(trace, next, i) == HeardAt(trace, b, i + 1)
      && HeardBefore(trace, next, HeardAt(trace, b, 0), i) == HeardBefore(trace, b, start, i + 1)
    ensures forall deadline :: TimedAt(trace, NextPoll(trace, b), deadline, i) == TimedAt(trace, b, deadline, i + 1)
  {
    hide ClockAt, NextPoll;
    PollShift(trace, b, i);
    if i > 0 { PollShift(trace, b, i - 1); }
  }

  lemma {:induction false} PollShift(trace: Trace, b: nat, i: nat)
    ensures PollAt(trace, NextPoll(trace, b), i) == PollAt(trace, b, i + 1)
  {
  }

  /** Quiet since some poll, seen from the poll after the first. */
  lemma {:induction false} QuietShift(trace: Trace, b: nat, start: Option<int>, since: int, stable: int, i: nat)
    requires HeardAt(trace, b, 0).None? ==> start.None?
    ensures QuietAt(trace, NextPoll(trace, b), HeardAt(trace, b, 0), CountNext(trace, b, start, since), stable, i) <==>
            QuietAt(trace, b, start, since, stable, i + 1)
  {
    hide ClockAt, NextPoll, PollAt, HeardAt;
    var next, heard, count := NextPoll(trace, b), HeardAt(trace, b, 0), CountNext(trace, b, start, since);
    var later := i + 1;
    ShiftPoll(trace, b, start, i);
    forall j: nat | QuietSince(trace, next, heard, count, stable, j, i) && HeardAt(trace, next, i).Some?
      ensures QuietAt(trace, b, start, since, stable, i + 1)
    {
      QuietBack(trace, b, start, since, stable, j, i);
    }
    forall j: nat | QuietSince(trace, b, start, since, stable, j, later) && HeardAt(trace, b, later).Some?
      ensures QuietAt(trace, next, heard, count, stable, i)
    {
      QuietOn(trace, b, start, since, stable, j, i);
    }
  }

  lemma {:induction false} CountShift(trace: Trace, b: nat, start: Option<int>, since: int, j: nat)
    ensures j > 0 ==> CountedFrom(trace, NextPoll(trace, b), CountNext(trace, b, start, since), j)
                        == CountedFrom(trace, b, since, j + 1)
  {
    hide ClockAt, NextPoll, PollAt, HeardAt;
    if j > 0 { ShiftPoll(trace, b, start, j - 1); }
  }

  lemma {:induction false} ChangeShift(trace: Trace, b: nat, start: Option<int>, j: nat)
    ensures j > 0 ==> (ChangedBefore(trace, NextPoll(trace, b), HeardAt(trace, b, 0), j) <==>
                       ChangedBefore(trace, b, start, j + 1))
  {
    hide ClockAt, NextPoll, PollAt, HeardAt;
    if j > 0 { ShiftPoll(trace, b, start, j - 1); }
  }

  lemma {:induction false} SameShift(trace: Trace, b: nat, start: Option<int>, j: nat, i: nat)
    ensures SameFrom(trace, NextPoll(trace, b), HeardAt(trace, b, 0), j, i) <==> SameFrom(trace, b, start, j + 1, i + 1)
  {
    hide ClockAt, NextPoll, PollAt, HeardAt;
    ShiftPoll(trace, b, start, j);
    var next, heard := NextPoll(trace, b), HeardAt(trace, b, 0);
    forall l: nat
      ensures HeardAt(trace, next, l) == HeardAt(trace, b, l + 1)
    {
      ShiftPoll(trace, b, start, l);
    }
    if SameFrom(trace, next, heard, j, i) {
      forall l | j + 1 <= l <= i + 1
        ensures HeardAt(trace, b, l) == HeardBefore(trace, b, start, j + 1)
      {
        assert HeardAt(trace, next, l - 1) == HeardAt(trace, b, l);
      }
    }
  }

  lemma {:induction false} QuietBack(trace: Trace, b: nat, start: Option<int>, since: int, stable: int, j: nat, i: nat)
    requires HeardAt(trace, b, 0).None? ==> start.None?
    requires QuietSince(trace, NextPoll(trace, b), HeardAt(trace, b, 0), CountNext(trace, b, start, since), stable,
                        j, i)
    requires HeardAt(trace, NextPoll(trace, b), i).Some?
    ensures QuietAt(trace, b, start, since, stable, i + 1)
  {
    hide ClockAt, NextPoll, PollAt, HeardAt;
    ShiftPoll(trace, b, start, i);
    CountShift(trace, b, start, since, i + 1);
    CountShift(trace, b, start, since, j);
    ChangeShift(trace, b, start, j);
    SameShift(trace, b, start, j, i);
    if j > 0 || HeardAt(trace, b, 0) != start {
      assert QuietSince(trace, b, start, since, stable, j + 1, i + 1);
    } else {
      assert SameFrom(trace, b, start, 0, i + 1) by {
        forall l | 0 <= l <= i + 1
          ensures HeardAt(trace, b, l) == start
        {
        }
      }
      assert QuietSince(trace, b, start, since, stable, 0, i + 1);
    }
  }

  lemma {:induction false} QuietOn(trace: Trace, b: nat, start: Option<int>, since: int, stable: int, j: nat, i: nat)
    requires QuietSince(trace, b, start, since, stable, j, i + 1) && HeardAt(trace, b, i + 1).Some?
    requires HeardAt(trace, b, 0).None? ==> start.None?
    ensures QuietAt(trace, NextPoll(trace, b), HeardAt(trace, b, 0), CountNext(trace, b, start, since), stable, i)
  {
    hide ClockAt, NextPoll, PollAt, HeardAt;
    var next, heard, count := NextPoll(trace, b), HeardAt(trace, b, 0), CountNext(trace, b, start, since);
    ShiftPoll(trace, b, start, i);
    CountShift(trace, b, start, since, i + 1);
    if j == 0 {
      SameShift(trace, b, start, 0, i);
      assert HeardAt(trace, b, 0) == start;
      assert QuietSince(trace, next, heard, count, stable, 0, i);
    } else {
      CountShift(trace, b, start, since, j - 1);
      ChangeShift(trace, b, start, j - 1);
      SameShift(trace, b, start, j - 1, i);
      assert QuietSince(trace, next, heard, count, stable, j - 1, i);
    }
  }

  lemma {:induction false} QuietFirst(trace: Trace, b: nat, start: Option<int>, since: int, stable: int)
    ensures QuietAt(trace, b, start, since, stable, 0) <==>
            HeardAt(trace, b, 0).Some? && HeardAt(trace, b, 0) == start
              && CountedFrom(trace, b, since, 1) - since >= stable
  {
    hide ClockAt, PollAt, HeardAt;
    if HeardAt(trace, b, 0).Some? && HeardAt(trace, b, 0) == start
       && CountedFrom(trace, b, since, 1) - since >= stable {
      assert QuietSince(trace, b, start, since, stable, 0, 0);
    }
  }

  lemma {:induction false} QuiescentRuns(trace: Trace, b: nat, deadline: int, stable: int, start: Option<int>,
      since: int)
    returns (n: nat)
    requires b <= |trace| && start == ClockAt(trace, b)
    ensures MovingUntil(trace, b, deadline, start, since, stable, n)
    ensures var r := QuiescentLoop(trace, b, deadline, stable, start, since);
      if TimedAt(trace, b, deadline, n)
      then QuietAt(trace, b, start, since, stable, n) && HeardAt(trace, b, n).Some?
           && r == Done(HeardAt(trace, b, n).value, PollAt(trace, b, n) + 3)
      else r.Failed?
    decreases |trace| - b
  {
    hide ClockAt, QuietAt;
    n := 0;
    QuietFirst(trace, b, start, since, stable);
    var heard := HeardAt(trace, b, 0);
    if TimedAt(trace, b, deadline, 0) && !QuietAt(trace, b, start, since, stable, 0) {
      HeardStays(trace, b, b + 2);
      TimeKeepsToo(trace, b);
      var m := QuiescentRuns(trace, NextPoll(trace, b), deadline, stable, heard, CountNext(trace, b, start, since));
      ShiftPoll(trace, b, start, m);
      QuietShift(trace, b, start, since, stable, m);
      forall i | 0 <= i < m + 1
        ensures TimedAt(trace, b, deadline, i) && !QuietAt(trace, b, start, since, stable, i)
      {
        if i > 0 {
          ShiftPoll(trace, b, start, i - 1);
          QuietShift(trace, b, start, since, stable, i - 1);
        }
      }
      n := m + 1;
    }
  }

  lemma {:induction false} HeardStays(trace: Trace, j: nat, k: nat)
    requires j <= k <= |trace|
    ensures ClockAt(trace, j).Some? ==> ClockAt(trace, k).Some?
  {
    if ClockAt(trace, k).None? { NoneBefore(trace, j, k); }
  }

  lemma {:induction false} TimeKeepsToo(trace: Trace, p: nat)
    requires p + 2 <= |trace|
    ensures p + 2 < |trace| && trace[p + 2].Time? ==> ClockAt(trace, p + 3) == ClockAt(trace, p + 2)
  {
    if p + 2 < |trace| && trace[p + 2].Time? { TimeKeepsClock(trace, p + 2); }
  }

  /** The same for quiescence. */
  lemma {:induction false} WaitQuiescentLaw(trace: Trace, k: nat, timeout: int, stable: int, v: int, at: nat)
    ensures WaitQuiescent(trace, k, timeout, stable) == Done(v, at) <==> Settles(trace, k, timeout, stable, v, at)
    ensures WaitQuiescent(trace, k, timeout, stable).Failed? <==> NeverSettles(trace, k, timeout, stable)
  {
    hide ClockAt, QuiescentLoop, TimedAt, QuietAt, HeardAt, PollAt;
    if Offers(trace, k, true) && Offers(trace, k + 1, true) {
      var b, deadline, start, since := k + 2, trace[k].now + timeout, ClockAt(trace, k + 2), trace[k + 1].now;
      var n := QuiescentRuns(trace, b, deadline, stable, start, since);
      forall m: nat | SettlesAt(trace, b, deadline, start, since, stable, v, at, m)
                      || UnsettledAt(trace, b, deadline, start, since, stable, m)
        ensures m == n
      {
        QuietIsUnique(trace, b, deadline, start, since, stable, m, n);
      }
      if TimedAt(trace, b, deadline, n) {
        var r := QuiescentLoop(trace, b, deadline, stable, start, since);
        assert SettlesAt(trace, b, deadline, start, since, stable, r.value, r.at, n);
      } else {
        assert UnsettledAt(trace, b, deadline, start, since, stable, n);
      }
    }
  }

  lemma {:induction false} QuietIsUnique(trace: Trace, b: nat, deadline: int, start: Option<int>, since: int,
      stable: int, m: nat, n: nat)
    requires MovingUntil(trace, b, deadline, start, since, stable, m)
    requires MovingUntil(trace, b, deadline, start, since, stable, n)
    requires TimedAt(trace, b, deadline, m) ==> QuietAt(trace, b, start, since, stable, m)
    requires TimedAt(trace, b, deadline, n) ==> QuietAt(trace, b, start, since, stable, n)
    ensures m == n
  {
    hide TimedAt, QuietAt;
  }

  // ---- service calls ----

  predicate Answers(trace: Trace, k: nat, reply: Reply) {
    k < |trace| && trace[k].Call? && trace[k].reply == Some(reply)
  }

  /** A state change is accepted, or was not necessary. */
  predicate Accepts(trace: Trace, k: nat) {
    Answers(trace, k, Result(RESULT_OK)) || Answers(trace, k, Result(ALREADY_IN_TARGET_STATE))
  }

  predicate Offering(trace: Trace, k: nat, needed: set<int>) {
    k < |trace| && trace[k].Call? && trace[k].reply.Some? && trace[k].reply.value.Features?
    && needed <= trace[k].reply.value.features
  }

  lemma {:induction false} CallLaws(trace: Trace, k: nat)
    ensures SetStateAt(trace, k).Done? <==> Accepts(trace, k)
    ensures SetStateAt(trace, k).Done? ==> SetStateAt(trace, k).at == k + 1 && k < |trace|
    ensures StepAt(trace, k).Done? <==> Answers(trace, k, Result(RESULT_OK))
    ensures StepAt(trace, k).Done? ==> StepAt(trace, k).at == k + 1 && k < |trace|
    ensures StateAt(trace, k).Done? ==> StateAt(trace, k).at == k + 1 && k < |trace|
  {
  }

  lemma {:induction false} StateLaw(trace: Trace, k: nat, state: int)
    ensures StateAt(trace, k).Done? && StateAt(trace, k).value == state <==> Answers(trace, k, State(RESULT_OK, state))
  {
  }

  lemma {:induction false} FeaturesLaw(trace: Trace, k: nat, needed: set<int>)
    ensures FeaturesAt(trace, k).Done? && needed <= FeaturesAt(trace, k).value <==> Offering(trace, k, needed)
    ensures FeaturesAt(trace, k).Done? ==> FeaturesAt(trace, k).at == k + 1 && k < |trace|
  {
  }

  // ---- a whole conformance run ----

  /** What a simulator must offer: four features, and a fifth to take several steps at once. */
  function Needed(steps: int): set<int> {
    REQUIRED + if steps > 1 then {STEP_MULTIPLE} else {}
  }

  /** Where each part of a run ends. */
  datatype Path = Path(started: nat, playing: nat, held: nat, paused: nat, reached: nat, stepped: nat, resumed: nat,
                       found: int)

  /** The simulator plays, its clock advances, it is paused, and its clock comes to rest. */
  ghost predicate PausedRun(trace: Trace, k: nat, timeout: int, steps: int, c: Clock, p: Path) {
    && Offering(trace, k, Needed(steps)) && Accepts(trace, k + 1)
    && Confirms(trace, k + 2, timeout, PLAYING, p.started)
    && Passes(trace, p.started, timeout, ClockAt(trace, k + 1), c.playing, p.playing)
    && Accepts(trace, p.playing) && Confirms(trace, p.playing + 1, timeout, PAUSED, p.held)
    && Settles(trace, p.held, timeout, STABLE, c.paused, p.paused)
  }

  /** One step reaches the expected clock, where it comes to rest, still paused; and it advances again after. */
  ghost predicate SteppedRun(trace: Trace, timeout: int, expected: int, c: Clock, p: Path, at: nat) {
    && c.stepped == expected && Answers(trace, p.paused, Result(RESULT_OK))
    && Reaches(trace, p.paused + 1, timeout, expected, p.found, p.reached)
    && Settles(trace, p.reached, timeout, STABLE, expected, p.stepped)
    && Answers(trace, p.stepped, State(RESULT_OK, PAUSED)) && Accepts(trace, p.stepped + 1)
    && Passes(trace, p.stepped + 2, timeout, Some(expected), c.resumed, p.resumed)
    && Confirms(trace, p.resumed, timeout, PLAYING, at)
  }

  ghost predicate FinishedRun(trace: Trace, k: nat, timeout: int, steps: int, size: int, c: Clock, at: nat, p: Path) {
    PausedRun(trace, k, timeout, steps, c, p) && SteppedRun(trace, timeout, c.paused + steps * size, c, p, at)
  }

  lemma {:induction false} SteppingFollows(trace: Trace, timeout: int, playing: int, paused: int, expected: int,
      c: Clock, p: Path, at: nat)
    requires SteppedRun(trace, timeout, expected, c, p, at) && c.playing == playing && c.paused == paused
    ensures Stepping(trace, p.paused, timeout, playing, paused, expected) == Done(c, at)
  {
    hide Reaches, Settles, Passes, Confirms, Answers, Accepts, StepAt, StateAt, SetStateAt;
    hide WaitAtLeast, WaitQuiescent, WaitAfter, WaitState;
    CallLaws(trace, p.paused);
    CallLaws(trace, p.stepped);
    StateLaw(trace, p.stepped, PAUSED);
    CallLaws(trace, p.stepped + 1);
    WaitAtLeastLaw(trace, p.paused + 1, timeout, expected, p.found, p.reached);
    WaitQuiescentLaw(trace, p.reached, timeout, STABLE, expected, p.stepped);
    WaitAfterLaw(trace, p.stepped + 2, timeout, Some(expected), c.resumed, p.resumed);
    WaitStateLaw(trace, p.resumed, timeout, PLAYING, at);
  }

  lemma {:induction false} SteppingLeads(trace: Trace, k: nat, timeout: int, playing: int, paused: int, expected: int)
    returns (p: Path)
    requires Stepping(trace, k, timeout, playing, paused, expected).Done?
    ensures var r := Stepping(trace, k, timeout, playing, paused, expected);
      && p.paused == k && r.value.playing == playing && r.value.paused == paused
      && SteppedRun(trace, timeout, expected, r.value, p, r.at)
  {
    hide Reaches, Settles, Passes, Confirms, Answers, Accepts, StepAt, StateAt, SetStateAt;
    hide WaitAtLeast, WaitQuiescent, WaitAfter, WaitState;
    var r := Stepping(trace, k, timeout, playing, paused, expected);
    CallLaws(trace, k);
    var reached := WaitAtLeast(trace, k + 1, timeout, expected);
    WaitAtLeastLaw(trace, k + 1, timeout, expected, reached.value, reached.at);
    var stepped := WaitQuiescent(trace, reached.at, timeout, STABLE);
    WaitQuiescentLaw(trace, reached.at, timeout, STABLE, expected, stepped.at);
    CallLaws(trace, stepped.at);
    StateLaw(trace, stepped.at, PAUSED);
    CallLaws(trace, stepped.at + 1);
    var resumed := WaitAfter(trace, stepped.at + 2, timeout, Some(expected));
    WaitAfterLaw(trace, stepped.at + 2, timeout, Some(expected), resumed.value, resumed.at);
    WaitStateLaw(trace, resumed.at, timeout, PLAYING, r.at);
    p := Path(0, 0, 0, k, reached.at, stepped.at, resumed.at, reached.value);
  }

  lemma {:induction false} VerifiedFollows(trace: Trace, k: nat, timeout: int, steps: int, size: int, c: Clock,
      at: nat, p: Path)
    requires FinishedRun(trace, k, timeout, steps, size, c, at, p)
    ensures Verified(trace, k, timeout, steps, size) == Done(c, at)
  {
    hide Settles, Passes, Confirms, Answers, Accepts, Offering, SetStateAt, FeaturesAt, SteppedRun, Stepping;
    hide WaitQuiescent, WaitAfter, WaitState, ClockAt;
    FeaturesLaw(trace, k, Needed(steps));
    CallLaws(trace, k + 1);
    CallLaws(trace, p.playing);
    WaitStateLaw(trace, k + 2, timeout, PLAYING, p.started);
    WaitAfterLaw(trace, p.started, timeout, ClockAt(trace, k + 1), c.playing, p.playing);
    WaitStateLaw(trace, p.playing + 1, timeout, PAUSED, p.held);
    WaitQuiescentLaw(trace, p.held, timeout, STABLE, c.paused, p.paused);
    SteppingFollows(trace, timeout, c.playing, c.paused, c.paused + steps * size, c, p, at);
  }

  lemma {:induction false} VerifiedLeads(trace: Trace, k: nat, timeout: int, steps: int, size: int) returns (p: Path)
    requires Verified(trace, k, timeout, steps, size).Done?
    ensures var r := Verified(trace, k, timeout, steps, size);
      FinishedRun(trace, k, timeout, steps, size, r.value, r.at, p)
  {
    hide Settles, Passes, Confirms, Answers, Accepts, Offering, SetStateAt, FeaturesAt, Stepping;
    hide WaitQuiescent, WaitAfter, WaitState, ClockAt;
    FeaturesLaw(trace, k, Needed(steps));
    CallLaws(trace, k + 1);
    var started := WaitState(trace, k + 2, timeout, PLAYING);
    WaitStateLaw(trace, k + 2, timeout, PLAYING, started.at);
    var playing := WaitAfter(trace, started.at, timeout, ClockAt(trace, k + 1));
    WaitAfterLaw(trace, started.at, timeout, ClockAt(trace, k + 1), playing.value, playing.at);
    CallLaws(trace, playing.at);
    var held := WaitState(trace, playing.at + 1, timeout, PAUSED);
    WaitStateLaw(trace, playing.at + 1, timeout, PAUSED, held.at);
    var paused := WaitQuiescent(trace, held.at, timeout, STABLE);
    WaitQuiescentLaw(trace, held.at, timeout, STABLE, paused.value, paused.at);
    p := SteppingLeads(trace, paused.at, timeout, playing.value, paused.value, paused.value + steps * size);
    p := p.(started := started.at, playing := playing.at, held := held.at);
  }

  /** A conformance run finishes with these values at this position exactly when the simulator offers what is
      needed and nothing more is asked, accepts every request, and every wait ends as its law says. */
  lemma {:induction false} VerifiedLaw(trace: Trace, k: nat, timeout: int, steps: int, size: int, c: Clock, at: nat)
    ensures Verified(trace, k, timeout, steps, size) == Done(c, at) <==>
            exists p :: FinishedRun(trace, k, timeout, steps, size, c, at, p)
  {
    hide Verified, FinishedRun;
    if Verified(trace, k, timeout, steps, size) == Done(c, at) {
      var p := VerifiedLeads(trace, k, timeout, steps, size);
    }
    forall p | FinishedRun(trace, k, timeout, steps, size, c, at, p)
      ensures Verified(trace, k, timeout, steps, size) == Done(c, at)
    {
      VerifiedFollows(trace, k, timeout, steps, size, c, at, p);
    }
  }

  // ---- periodic stepping ----

  /** One round from a clock to the expected one. */
  ghost predicate RoundRun(trace: Trace, k: nat, timeout: int, expected: int, reached: nat, at: nat) {
    && Answers(trace, k, Result(RESULT_OK)) && Reaches(trace, k + 1, timeout, expected, expected, reached)
    && Confirms(trace, reached, timeout, PAUSED, at) && at <= |trace| && ClockAt(trace, at) == Some(expected)
  }

  lemma {:induction false} AdvancedLaw(trace: Trace, k: nat, timeout: int, previous: int, steps: int, size: int,
      v: int, at: nat)
    ensures var expected := previous + steps * size;
      Advanced(trace, k, timeout, previous, steps, size) == Done(v, at) <==>
        v == expected && exists reached: nat :: RoundRun(trace, k, timeout, expected, reached, at)
  {
    hide Reaches, Confirms, Answers, StepAt, WaitAtLeast, WaitState, ClockAt;
    var expected := previous + steps * size;
    CallLaws(trace, k);
    var found := WaitAtLeast(trace, k + 1, timeout, expected);
    if found.Done? {
      WaitAtLeastLaw(trace, k + 1, timeout, expected, found.value, found.at);
      WaitStateLaw(trace, found.at, timeout, PAUSED, at);
    }
    if Advanced(trace, k, timeout, previous, steps, size) == Done(v, at) {
      assert RoundRun(trace, k, timeout, expected, found.at, at);
    }
    forall reached: nat | RoundRun(trace, k, timeout, expected, reached, at)
      ensures Advanced(trace, k, timeout, previous, steps, size) == Done(expected, at)
    {
      WaitAtLeastLaw(trace, k + 1, timeout, expected, expected, reached);
      WaitStateLaw(trace, reached, timeout, PAUSED, at);
    }
  }

  /** So many rounds, each from the clock the one before has reached. */
  ghost predicate RoundsRun(trace: Trace, k: nat, timeout: int, start: int, advance: int, marks: seq<nat>,
      rounds: nat, at: nat)
  {
    && |marks| == rounds + 1 && marks[0] == k && marks[rounds] == at
    && forall m :: 0 <= m < rounds ==> RoundAt(trace, timeout, start, advance, marks, m)
  }

  ghost predicate RoundAt(trace: Trace, timeout: int, start: int, advance: int, marks: seq<nat>, m: nat)
    requires m + 1 < |marks|
  {
    var expected, at := After(start, advance, m + 1), marks[m + 1];
    exists reached: nat :: RoundRun(trace, marks[m], timeout, expected, reached, at)
  }

  lemma {:induction false} RoundsLead(trace: Trace, k: nat, timeout: int, start: int, steps: int, size: int,
      rounds: nat)
    returns (marks: seq<nat>)
    requires Rounds(trace, k, timeout, start, steps, size, rounds).Done?
    ensures var r := Rounds(trace, k, timeout, start, steps, size, rounds);
      && r.value == After(start, steps * size, rounds)
      && RoundsRun(trace, k, timeout, start, steps * size, marks, rounds, r.at)
    decreases rounds
  {
    hide Advanced, RoundRun;
    if rounds == 0 {
      marks := [k];
    } else {
      var next, advance := Advanced(trace, k, timeout, start, steps, size), steps * size;
      AdvancedLaw(trace, k, timeout, start, steps, size, next.value, next.at);
      var rest := RoundsLead(trace, next.at, timeout, next.value, steps, size, rounds - 1);
      marks := [k] + rest;
      OneMoreAdvance(start, advance, rounds);
      OneMoreAdvance(start, advance, 1);
      forall m | 0 <= m < rounds
        ensures RoundAt(trace, timeout, start, advance, marks, m)
      {
        if m > 0 {
          var before := m - 1;
          assert RoundAt(trace, timeout, start + advance, advance, rest, before);
          RoundShift(trace, timeout, start, advance, k, rest, before);
        } else {
          var expected := start + advance;
          var reached: nat :| RoundRun(trace, k, timeout, expected, reached, next.at);
          assert marks[0] == k && marks[1] == next.at;
        }
      }
    }
  }

  lemma {:induction false} RoundShift(trace: Trace, timeout: int, start: int, advance: int, k: nat, rest: seq<nat>,
      m: nat)
    requires m + 1 < |rest|
    ensures RoundAt(trace, timeout, start, advance, [k] + rest, m + 1) <==>
            RoundAt(trace, timeout, start + advance, advance, rest, m)
  {
    hide RoundRun, After;
    OneMoreAdvance(start, advance, m + 2);
    assert ([k] + rest)[m + 1] == rest[m] && ([k] + rest)[m + 2] == rest[m + 1];
  }

  lemma {:induction false} RoundsFollow(trace: Trace, k: nat, timeout: int, start: int, steps: int, size: int,
      marks: seq<nat>, rounds: nat, at: nat)
    requires RoundsRun(trace, k, timeout, start, steps * size, marks, rounds, at)
    ensures Rounds(trace, k, timeout, start, steps, size, rounds) == Done(After(start, steps * size, rounds), at)
    decreases rounds
  {
    hide Advanced, RoundRun;
    if rounds == 0 {
    } else {
      var advance, rest := steps * size, marks[1..];
      var from := start + advance;
      assert marks == [k] + rest;
      OneMoreAdvance(start, advance, 1);
      OneMoreAdvance(start, advance, rounds);
      assert RoundAt(trace, timeout, start, advance, marks, 0);
      AdvancedLaw(trace, k, timeout, start, steps, size, start + advance, rest[0]);
      forall m | 0 <= m < rounds - 1
        ensures RoundAt(trace, timeout, from, advance, rest, m)
      {
        var later := m + 1;
        assert RoundAt(trace, timeout, start, advance, marks, later);
        RoundShift(trace, timeout, start, advance, k, rest, m);
      }
      RoundsFollow(trace, rest[0], timeout, from, steps, size, rest, rounds - 1, at);
    }
  }

  /** The simulator is paused, its clock comes to rest at `start`, and then the rounds follow. */
  ghost predicate PeriodicRun(trace: Trace, k: nat, timeout: int, advance: int, rounds: nat, at: nat,
      start: int, held: nat, marks: seq<nat>)
  {
    && Accepts(trace, k) && Confirms(trace, k + 1, timeout, PAUSED, held)
    && marks != [] && Settles(trace, held, timeout, STABLE, start, marks[0])
    && RoundsRun(trace, marks[0], timeout, start, advance, marks, rounds, at)
  }

  /** A periodic run of so many rounds ends at this position with this clock exactly when it is such a run. */
  lemma {:induction false} PeriodicLaw(trace: Trace, k: nat, timeout: int, steps: int, size: int, rounds: nat,
      v: int, at: nat)
    ensures Periodic(trace, k, timeout, steps, size, rounds) == Done(v, at) <==>
      exists start: int, held: nat, marks: seq<nat> ::
        PeriodicRun(trace, k, timeout, steps * size, rounds, at, start, held, marks)
          && v == After(start, steps * size, rounds)
  {
    hide Confirms, Settles, Accepts, SetStateAt, WaitState, WaitQuiescent, Rounds, RoundsRun, After;
    CallLaws(trace, k);
    if Periodic(trace, k, timeout, steps, size, rounds) == Done(v, at) {
      var held := WaitState(trace, k + 1, timeout, PAUSED);
      WaitStateLaw(trace, k + 1, timeout, PAUSED, held.at);
      var start := WaitQuiescent(trace, held.at, timeout, STABLE);
      WaitQuiescentLaw(trace, held.at, timeout, STABLE, start.value, start.at);
      var marks := RoundsLead(trace, start.at, timeout, start.value, steps, size, rounds);
      RoundsStart(trace, start.at, timeout, start.value, steps * size, marks, rounds, at);
      assert PeriodicRun(trace, k, timeout, steps * size, rounds, at, start.value, held.at, marks);
    }
    forall start: int, held: nat, marks: seq<nat> |
        PeriodicRun(trace, k, timeout, steps * size, rounds, at, start, held, marks)
      ensures Periodic(trace, k, timeout, steps, size, rounds) == Done(After(start, steps * size, rounds), at)
    {
      WaitStateLaw(trace, k + 1, timeout, PAUSED, held);
      WaitQuiescentLaw(trace, held, timeout, STABLE, start, marks[0]);
      RoundsFollow(trace, marks[0], timeout, start, steps, size, marks, rounds, at);
    }
  }

  lemma {:induction false} RoundsStart(trace: Trace, k: nat, timeout: int, start: int, advance: int, marks: seq<nat>,
      rounds: nat, at: nat)
    requires RoundsRun(trace, k, timeout, start, advance, marks, rounds, at)
    ensures marks != [] && marks[0] == k
  {
  }

  // ---- the consumer ----

  /** The consumer accepts a report exactly when it is a passed one of the right schema whose counts are positive and
      whose clock values follow each other, the step being exact; and then it takes the exact advance from it. */
  lemma {:induction false} CheckedExactly(report: Report, advance: int)
    ensures CheckedClock(report) == Some(advance) <==>
            exists steps: int, size: int, c: Clock ::
              && report.schema == "simulation-conformance.v1" && report.status == "passed"
              && report.steps == M.Int(steps) && report.size == M.Int(size) && steps >= 1 && size >= 1
              && report.clock ==
                   Some(ClockValues(M.Int(c.playing), M.Int(c.paused), M.Int(c.stepped), M.Int(c.resumed)))
              && 0 <= c.playing <= c.paused < c.stepped < c.resumed
              && c.stepped - c.paused == steps * size == advance
  {
    if CheckedClock(report) == Some(advance) {
      var v := report.clock.value;
      var c := Clock(v.playing.n, v.paused.n, v.stepped.n, v.resumed.n);
      assert report.steps == M.Int(report.steps.n) && report.size == M.Int(report.size.n);
      assert report.clock == Some(ClockValues(M.Int(c.playing), M.Int(c.paused), M.Int(c.stepped), M.Int(c.resumed)));
    }
  }
}
