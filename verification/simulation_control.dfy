/** Controlling a simulator through a clock the controller only observes, and the later check of its report.

    A run is a trace of what the controller meets, in order: readings of the monotonic time, polls that
    deliver at most one clock message, and service calls during which any number of clock messages arrive.
    A wait fails when its deadline has passed; a trace that ends early, or does not offer what the
    controller does next, yields no result either. */
module SimulationControl {
  import opened Paths
  import M = Measurements

  datatype Reply = Features(features: set<int>) | Result(code: int) | State(code: int, state: int)

  datatype Step = Time(now: int) | Spin(message: Option<int>) | Call(messages: seq<int>, reply: Option<Reply>)

  type Trace = seq<Step>

  /** A value and the position in the trace after it was obtained. */
  datatype Outcome<+T> = Done(value: T, at: nat) | Failed {
    predicate IsFailure() { Failed? }
    function PropagateFailure<U>(): Outcome<U>
      requires Failed?
    {
      Failed
    }
    function Extract(): Outcome<T>
      requires Done?
    {
      this
    }
  }

  const RESULT_OK := 1
  const ALREADY_IN_TARGET_STATE := 101
  const PLAYING := 1
  const PAUSED := 2
  const STEP_MULTIPLE := 32
  const REQUIRED: set<int> := {24, 25, 26, 31}

  // ---- the observed clock ----

  function Messages(step: Step): seq<int> {
    match step
    case Time(_) => []
    case Spin(message) => if message.Some? then [message.value] else []
    case Call(messages, _) => messages
  }

  /** All clock messages received in the first `n` steps. */
  function Heard(trace: Trace, n: nat): seq<int>
    requires n <= |trace|
  {
    if n == 0 then [] else Heard(trace, n - 1) + Messages(trace[n - 1])
  }

  /** The clock after the first `n` steps: the last message heard. */
  function ClockAt(trace: Trace, n: nat): Option<int>
    requires n <= |trace|
  {
    var heard := Heard(trace, n);
    if heard == [] then None else Some(heard[|heard| - 1])
  }

  predicate NeverBackwards(trace: Trace) {
    var heard := Heard(trace, |trace|);
    forall i, j :: 0 <= i <= j < |heard| ==> 0 <= heard[i] <= heard[j]
  }

  predicate Offers(trace: Trace, k: nat, time: bool) {
    k < |trace| && if time then trace[k].Time? else trace[k].Spin?
  }

  // ---- service calls ----

  function CallAt(trace: Trace, k: nat): Outcome<Reply> {
    if k < |trace| && trace[k].Call? && trace[k].reply.Some? then Done(trace[k].reply.value, k + 1) else Failed
  }

  function FeaturesAt(trace: Trace, k: nat): Outcome<set<int>> {
    var reply :- CallAt(trace, k);
    if reply.value.Features? then Done(reply.value.features, reply.at) else Failed
  }

  function SetStateAt(trace: Trace, k: nat): Outcome<()> {
    var reply :- CallAt(trace, k);
    if reply.value.Result? && (reply.value.code == RESULT_OK || reply.value.code == ALREADY_IN_TARGET_STATE)
    then Done((), reply.at) else Failed
  }

  function StepAt(trace: Trace, k: nat): Outcome<()> {
    var reply :- CallAt(trace, k);
    if reply.value.Result? && reply.value.code == RESULT_OK then Done((), reply.at) else Failed
  }

  function StateAt(trace: Trace, k: nat): Outcome<int> {
    var reply :- CallAt(trace, k);
    if reply.value.State? && reply.value.code == RESULT_OK then Done(reply.value.state, reply.at) else Failed
  }

  // ---- the waits, as functions of the trace ----

  function StateLoop(trace: Trace, k: nat, deadline: int, requested: int, observed: int): (r: Outcome<()>)
    ensures r.Done? ==> k < r.at <= |trace|
    decreases |trace| - k
  {
    if !Offers(trace, k, true) || deadline - trace[k].now <= 0 then Failed
    else if observed == requested then Done((), k + 1)
    else if !Offers(trace, k + 1, false) then Failed
    else
      var state :- StateAt(trace, k + 2);
      StateLoop(trace, k + 3, deadline, requested, state.value)
  }

  function WaitState(trace: Trace, k: nat, timeout: int, requested: int): (r: Outcome<()>)
    ensures r.Done? ==> k < r.at <= |trace|
  {
    if !Offers(trace, k, true) then Failed
    else
      var state :- StateAt(trace, k + 1);
      StateLoop(trace, k + 2, trace[k].now + timeout, requested, state.value)
  }

  predicate Polls(trace: Trace, k: nat, deadline: int) {
    Offers(trace, k, true) && trace[k].now < deadline && Offers(trace, k + 1, false)
  }

  function AfterLoop(trace: Trace, k: nat, deadline: int, previous: Option<int>): Outcome<int>
    decreases |trace| - k
  {
    if !Polls(trace, k, deadline) then Failed
    else
      var clock := ClockAt(trace, k + 2);
      if clock.None? then AfterLoop(trace, k + 2, deadline, previous)
      else if previous.None? then AfterLoop(trace, k + 2, deadline, clock)
      else if clock.value > previous.value then Done(clock.value, k + 2)
      else AfterLoop(trace, k + 2, deadline, previous)
  }

  function WaitAfter(trace: Trace, k: nat, timeout: int, previous: Option<int>): Outcome<int> {
    if !Offers(trace, k, true) then Failed else AfterLoop(trace, k + 1, trace[k].now + timeout, previous)
  }

  function AtLeastLoop(trace: Trace, k: nat, deadline: int, target: int): Outcome<int>
    decreases |trace| - k
  {
    if !Polls(trace, k, deadline) then Failed
    else
      var clock := ClockAt(trace, k + 2);
      if clock.Some? && clock.value >= target then Done(clock.value, k + 2)
        else AtLeastLoop(trace, k + 2, deadline, target)
  }

  function WaitAtLeast(trace: Trace, k: nat, timeout: int, target: int): Outcome<int> {
    if !Offers(trace, k, true) then Failed else AtLeastLoop(trace, k + 1, trace[k].now + timeout, target)
  }

  function QuiescentLoop(trace: Trace, k: nat, deadline: int, stable: int, observed: Option<int>,
      since: int): Outcome<int>
    decreases |trace| - k
  {
    if !Polls(trace, k, deadline) then Failed
    else
      var clock := ClockAt(trace, k + 2);
      if clock.None? then QuiescentLoop(trace, k + 2, deadline, stable, observed, since)
      else if !Offers(trace, k + 2, true) then Failed
      else if clock != observed then QuiescentLoop(trace, k + 3, deadline, stable, clock, trace[k + 2].now)
      else if trace[k + 2].now - since >= stable then Done(clock.value, k + 3)
      else QuiescentLoop(trace, k + 3, deadline, stable, observed, since)
  }

  function WaitQuiescent(trace: Trace, k: nat, timeout: int, stable: int): Outcome<int> {
    if !Offers(trace, k, true) || !Offers(trace, k + 1, true) then Failed
    else QuiescentLoop(trace, k + 2, trace[k].now + timeout, stable, ClockAt(trace, k + 2), trace[k + 1].now)
  }

  datatype Clock = Clock(playing: int, paused: int, stepped: int, resumed: int)

  /** A quarter of a second, in nanoseconds. */
  const STABLE := 250_000_000

  /** One conformance run, from the position of its first step. */
  function Verified(trace: Trace, k: nat, timeout: int, steps: int, size: int): Outcome<Clock> {
    var features :- FeaturesAt(trace, k);
    if !(REQUIRED + (if steps > 1 then {STEP_MULTIPLE} else {}) <= features.value) then Failed
    else
      var initial := ClockAt(trace, features.at);
      var started :- SetStateAt(trace, features.at);
      var confirmed :- WaitState(trace, started.at, timeout, PLAYING);
      var playing :- WaitAfter(trace, confirmed.at, timeout, initial);
      var pausing :- SetStateAt(trace, playing.at);
      var held :- WaitState(trace, pausing.at, timeout, PAUSED);
      var paused :- WaitQuiescent(trace, held.at, timeout, STABLE);
      Stepping(trace, paused.at, timeout, playing.value, paused.value, paused.value + steps * size)
  }

  /** The second half of a run: the exact step, and the resumed clock. */
  function Stepping(trace: Trace, k: nat, timeout: int, playing: int, paused: int, expected: int): Outcome<Clock> {
    var stepping :- StepAt(trace, k);
    var reached :- WaitAtLeast(trace, stepping.at, timeout, expected);
    var stepped :- WaitQuiescent(trace, reached.at, timeout, STABLE);
    if stepped.value != expected then Failed
    else
      var state :- StateAt(trace, stepped.at);
      if state.value != PAUSED then Failed
      else
        var resuming :- SetStateAt(trace, state.at);
        var resumed :- WaitAfter(trace, resuming.at, timeout, Some(stepped.value));
        var confirmed :- WaitState(trace, resumed.at, timeout, PLAYING);
        Done(Clock(playing, paused, stepped.value, resumed.value), confirmed.at)
  }

  /** One step of a periodically advanced, paused simulator. */
  function Advanced(trace: Trace, k: nat, timeout: int, previous: int, steps: int, size: int): Outcome<int> {
    var expected := previous + steps * size;
    var stepping :- StepAt(trace, k);
    var reached :- WaitAtLeast(trace, stepping.at, timeout, expected);
    var held :- WaitState(trace, reached.at, timeout, PAUSED);
    if reached.value != expected || ClockAt(trace, held.at) != Some(expected) then Failed
    else Done(reached.value, held.at)
  }

  /** So many periodic steps, each from the clock the one before has reached. */
  function Rounds(trace: Trace, k: nat, timeout: int, start: int, steps: int, size: int, rounds: nat): Outcome<int>
    decreases rounds
  {
    if rounds == 0 then Done(start, k)
    else
      var next :- Advanced(trace, k, timeout, start, steps, size);
      Rounds(trace, next.at, timeout, next.value, steps, size, rounds - 1)
  }

  /** A periodic run that is asked to go on `rounds` times. */
  function Periodic(trace: Trace, k: nat, timeout: int, steps: int, size: int, rounds: nat): Outcome<int> {
    var pausing :- SetStateAt(trace, k);
    var held :- WaitState(trace, pausing.at, timeout, PAUSED);
    var start :- WaitQuiescent(trace, held.at, timeout, STABLE);
    Rounds(trace, start.at, timeout, start.value, steps, size, rounds)
  }

  // ---- the controller ----

  class SimulationControl {
    const trace: Trace
    const timeout: int
    var cursor: nat
    var clock: Option<int>

    ghost predicate Valid()
      reads this
    {
      cursor <= |trace| && clock == ClockAt(trace, cursor)
    }

    constructor (trace: Trace, timeout: int)
      ensures Valid() && cursor == 0 && this.trace == trace && this.timeout == timeout
    {
      this.trace, this.timeout, cursor, clock := trace, timeout, 0, None;
    }

    method Now() returns (now: Option<int>)
      requires Valid()
      modifies this
      ensures Valid()
      ensures if Offers(trace, old(cursor), true) then now == Some(trace[old(cursor)].now)
          && cursor == old(cursor) + 1 else now.None?
    {
      now := None;
      if cursor < |trace| && trace[cursor].Time? {
        now := Some(trace[cursor].now);
        assert Heard(trace, cursor + 1) == Heard(trace, cursor);
        cursor := cursor + 1;
      }
    }

    /** Handles at most one clock message. */
    method SpinOnce() returns (ok: bool)
      requires Valid()
      modifies this
      ensures Valid() && ok == Offers(trace, old(cursor), false)
      ensures ok ==> cursor == old(cursor) + 1
    {
      ok := cursor < |trace| && trace[cursor].Spin?;
      if ok {
        if trace[cursor].message.Some? { clock := trace[cursor].message; }
        cursor := cursor + 1;
      }
    }

    method CallService() returns (reply: Option<Reply>)
      requires Valid()
      modifies this
      ensures Valid()
      ensures if reply.Some? then CallAt(trace, old(cursor)) == Done(reply.value, cursor)
          else CallAt(trace, old(cursor)).Failed?
    {
      reply := None;
      if cursor < |trace| && trace[cursor].Call? {
        var messages := trace[cursor].messages;
        for i := 0 to |messages|
          invariant cursor == old(cursor)
          invariant clock == if i == 0 then ClockAt(trace, cursor) else Some(messages[i - 1])
        {
          clock := Some(messages[i]);
        }
        reply := trace[cursor].reply;
        cursor := cursor + 1;
      }
    }

    method GetFeatures() returns (features: Option<set<int>>)
      requires Valid()
      modifies this
      ensures Valid()
      ensures if features.Some? then FeaturesAt(trace, old(cursor)) == Done(features.value, cursor)
              else FeaturesAt(trace, old(cursor)).Failed?
    {
      var reply := CallService();
      if reply.None? || !reply.value.Features? { return None; }
      features := Some(reply.value.features);
    }

    method SetState() returns (ok: bool)
      requires Valid()
      modifies this
      ensures Valid()
      ensures if ok then SetStateAt(trace, old(cursor)) == Done((), cursor) else SetStateAt(trace, old(cursor)).Failed?
    {
      var reply := CallService();
      ok := reply.Some? && reply.value.Result? && reply.value.code in {RESULT_OK, ALREADY_IN_TARGET_STATE};
    }

    method StepSimulation() returns (ok: bool)
      requires Valid()
      modifies this
      ensures Valid()
      ensures if ok then StepAt(trace, old(cursor)) == Done((), cursor) else StepAt(trace, old(cursor)).Failed?
    {
      var reply := CallService();
      ok := reply.Some? && reply.value.Result? && reply.value.code == RESULT_OK;
    }

    method GetState() returns (state: Option<int>)
      requires Valid()
      modifies this
      ensures Valid()
      ensures if state.Some? then StateAt(trace, old(cursor)) == Done(state.value, cursor)
          else StateAt(trace, old(cursor)).Failed?
    {
      var reply := CallService();
      if reply.None? || !reply.value.State? || reply.value.code != RESULT_OK { return None; }
      state := Some(reply.value.state);
    }

    method WaitForState(requested: int) returns (ok: bool)
      requires Valid()
      modifies this
      ensures Valid()
      ensures if ok then WaitState(trace, old(cursor), timeout, requested) == Done((), cursor)
              else WaitState(trace, old(cursor), timeout, requested).Failed?
    {
      hide ClockAt;
      ok := false;
      var start := Now();
      if start.None? { return; }
      var deadline := start.value + timeout;
      var observed := GetState();
      if observed.None? { return; }
      while true
        invariant Valid() && observed.Some?
        invariant WaitState(trace, old(cursor), timeout, requested) ==
            StateLoop(trace, cursor, deadline, requested, observed.value)
        decreases |trace| - cursor
      {
        var now := Now();
        if now.None? { return; }
        var remaining := deadline - now.value;
        if remaining <= 0 { return; }
        if observed.value == requested { ok := true; return; }
        var spun := SpinOnce();
        if !spun { return; }
        observed := GetState();
        if observed.None? { return; }
      }
    }

    method WaitForClockAfter(previous: Option<int>) returns (r: Option<int>)
      requires Valid()
      modifies this
      ensures Valid()
      ensures if r.Some? then WaitAfter(trace, old(cursor), timeout, previous) == Done(r.value, cursor)
              else WaitAfter(trace, old(cursor), timeout, previous).Failed?
    {
      hide ClockAt;
      r := None;
      var start := Now();
      if start.None? { return; }
      var deadline, base := start.value + timeout, previous;
      while true
        invariant Valid()
        invariant WaitAfter(trace, old(cursor), timeout, previous) == AfterLoop(trace, cursor, deadline, base)
        decreases |trace| - cursor
      {
        var now := Now();
        if now.None? || now.value >= deadline { return; }
        var spun := SpinOnce();
        if !spun { return; }
        if clock.None? { continue; }
        if base.None? {
          base := clock;
        } else if clock.value > base.value {
          return clock;
        }
      }
    }

    method WaitForQuiescentClock(stable: int) returns (r: Option<int>)
      requires Valid()
      modifies this
      ensures Valid()
      ensures if r.Some? then WaitQuiescent(trace, old(cursor), timeout, stable) == Done(r.value, cursor)
              else WaitQuiescent(trace, old(cursor), timeout, stable).Failed?
    {
      hide ClockAt;
      r := None;
      var start := Now();
      if start.None? { return; }
      var deadline := start.value + timeout;
      var since := Now();
      if since.None? { return; }
      var observed := clock;
      while true
        invariant Valid() && since.Some?
        invariant WaitQuiescent(trace, old(cursor), timeout, stable) ==
                  QuiescentLoop(trace, cursor, deadline, stable, observed, since.value)
        decreases |trace| - cursor
      {
        var now := Now();
        if now.None? || now.value >= deadline { return; }
        var spun := SpinOnce();
        if !spun { return; }
        if clock.None? { continue; }
        var sampled := clock;
        var later := Now();
        if later.None? { return; }
        if sampled != observed {
          observed, since := sampled, later;
        } else if later.value - since.value >= stable {
          return sampled;
        }
      }
    }

    method WaitForClockAtLeast(target: int) returns (r: Option<int>)
      requires Valid()
      modifies this
      ensures Valid()
      ensures if r.Some? then WaitAtLeast(trace, old(cursor), timeout, target) == Done(r.value, cursor)
              else WaitAtLeast(trace, old(cursor), timeout, target).Failed?
    {
      hide ClockAt;
      r := None;
      var start := Now();
      if start.None? { return; }
      var deadline := start.value + timeout;
      while true
        invariant Valid()
        invariant WaitAtLeast(trace, old(cursor), timeout, target) == AtLeastLoop(trace, cursor, deadline, target)
        decreases |trace| - cursor
      {
        var now := Now();
        if now.None? || now.value >= deadline { return; }
        var spun := SpinOnce();
        if !spun { return; }
        if clock.Some? && clock.value >= target { return clock; }
      }
    }

    method StepAndWait(previous: int, steps: int, size: int) returns (r: Option<int>)
      requires Valid()
      modifies this
      ensures Valid()
      ensures if r.Some? then Advanced(trace, old(cursor), timeout, previous, steps, size) == Done(r.value, cursor)
              else Advanced(trace, old(cursor), timeout, previous, steps, size).Failed?
    {
      hide WaitAtLeast, WaitState, StepAt, Heard;
      var expected := previous + steps * size;
      var ok := StepSimulation();
      if !ok { return None; }
      r := WaitForClockAtLeast(expected);
      if r.None? { return; }
      ok := WaitForState(PAUSED);
      if !ok || r.value != expected || clock != Some(expected) { r := None; }
    }

    /** Pauses the simulator and steps it as long as the process is asked to go on. */
    method StepPeriodically(steps: int, size: int, rounds: nat) returns (r: Option<int>)
      requires Valid()
      modifies this
      ensures Valid()
      ensures if r.Some? then Periodic(trace, old(cursor), timeout, steps, size, rounds) == Done(r.value, cursor)
              else Periodic(trace, old(cursor), timeout, steps, size, rounds).Failed?
    {
      hide SetStateAt, WaitState, WaitQuiescent, Advanced, Heard;
      r := None;
      var ok := SetState();
      if !ok { return; }
      ok := WaitForState(PAUSED);
      if !ok { return; }
      r := WaitForQuiescentClock(STABLE);
      if r.None? { return; }
      for i := 0 to rounds
        invariant Valid() && r.Some?
        invariant Periodic(trace, old(cursor), timeout, steps, size, rounds)
                  == Rounds(trace, cursor, timeout, r.value, steps, size, rounds - i)
      {
        r := StepAndWait(r.value, steps, size);
        if r.None? { return; }
      }
    }

    method Verify(steps: int, size: int) returns (r: Option<Clock>)
      requires Valid()
      modifies this
      ensures Valid()
      ensures if r.Some? then Verified(trace, old(cursor), timeout, steps, size) == Done(r.value, cursor)
              else Verified(trace, old(cursor), timeout, steps, size).Failed?
    {
      hide FeaturesAt, SetStateAt, WaitState, WaitAfter, WaitQuiescent, Stepping, Heard;
      r := None;
      var features := GetFeatures();
      if features.None? || !(REQUIRED + (if steps > 1 then {STEP_MULTIPLE} else {}) <= features.value) { return; }
      var initial := clock;
      var ok := SetState();
      if !ok { return; }
      ok := WaitForState(PLAYING);
      if !ok { return; }
      var playing := WaitForClockAfter(initial);
      if playing.None? { return; }
      ok := SetState();
      if !ok { return; }
      ok := WaitForState(PAUSED);
      if !ok { return; }
      var paused := WaitForQuiescentClock(STABLE);
      if paused.None? { return; }
      r := StepExactly(playing.value, paused.value, paused.value + steps * size);
    }

    method StepExactly(playing: int, paused: int, expected: int) returns (r: Option<Clock>)
      requires Valid()
      modifies this
      ensures Valid()
      ensures if r.Some? then Stepping(trace, old(cursor), timeout, playing, paused, expected) == Done(r.value, cursor)
              else Stepping(trace, old(cursor), timeout, playing, paused, expected).Failed?
    {
      hide StepAt, StateAt, SetStateAt, WaitState, WaitAfter, WaitAtLeast, WaitQuiescent, ClockAt;
      r := None;
      var ok := StepSimulation();
      if !ok { return; }
      var reached := WaitForClockAtLeast(expected);
      if reached.None? { return; }
      var stepped := WaitForQuiescentClock(STABLE);
      if stepped.None? || stepped.value != expected { return; }
      var state := GetState();
      if state != Some(PAUSED) { return; }
      ok := SetState();
      if !ok { return; }
      var resumed := WaitForClockAfter(stepped);
      if resumed.None? { return; }
      ok := WaitForState(PLAYING);
      if !ok { return; }
      r := Some(Clock(playing, paused, stepped.value, resumed.value));
    }
  }

  // ---- what a wait has seen ----

  lemma {:induction false} HeardGrows(trace: Trace, j: nat, k: nat)
    requires j <= k <= |trace|
    ensures Heard(trace, j) <= Heard(trace, k)
    decreases k
  {
    if j == k {
    } else {
      HeardGrows(trace, j, k - 1);
    }
  }

  /** If no message ever goes back, neither does the observed clock. */
  lemma {:induction false} ClockNeverBackwards(trace: Trace, j: nat, k: nat)
    requires NeverBackwards(trace) && j <= k <= |trace| && ClockAt(trace, j).Some?
    ensures ClockAt(trace, k).Some? && 0 <= ClockAt(trace, j).value <= ClockAt(trace, k).value
  {
    HeardGrows(trace, j, k);
    HeardGrows(trace, k, |trace|);
    var all := Heard(trace, |trace|);
    var a, b := Heard(trace, j), Heard(trace, k);
    assert all[|a| - 1] == a[|a| - 1] && all[|b| - 1] == b[|b| - 1];
  }

  /** The clock had only this value from just after one reading of the time to a later one, at least
      `stable` apart, and was polled in between. */
  ghost predicate Quiet(trace: Trace, first: nat, last: nat, value: int, stable: int) {
    && first < last < |trace| && trace[first].Time? && trace[last].Time?
    && trace[last].now - trace[first].now >= stable
    && trace[last - 1].Spin?
    && forall j :: first < j <= last + 1 ==> ClockAt(trace, j) == Some(value)
  }

  lemma {:induction false} TimeKeepsClock(trace: Trace, k: nat)
    requires k < |trace| && trace[k].Time?
    ensures ClockAt(trace, k + 1) == ClockAt(trace, k)
  {
    assert Heard(trace, k + 1) == Heard(trace, k);
  }

  /** The loop has watched `observed` since `first`, and ends with a quiet interval. */
  lemma {:induction false} QuiescentLoopIsQuiet(trace: Trace, k: nat, deadline: int, stable: int,
      observed: Option<int>, since: int, first: nat)
    returns (from: nat)
    requires first < k <= |trace| && trace[first].Time? && trace[first].now == since
    requires forall j :: first < j <= k ==> ClockAt(trace, j) == observed
    requires QuiescentLoop(trace, k, deadline, stable, observed, since).Done?
    ensures var r := QuiescentLoop(trace, k, deadline, stable, observed, since);
            k < r.at <= |trace| && first <= from && Quiet(trace, from, r.at - 1, r.value, stable)
    decreases |trace| - k
  {
    hide ClockAt;
    var clock := ClockAt(trace, k + 2);
    TimeKeepsClock(trace, k);
    if clock.None? {
      assert observed.None? by { NoneBefore(trace, k, k + 2); }
      from := QuiescentLoopIsQuiet(trace, k + 2, deadline, stable, observed, since, first);
    } else {
      TimeKeepsClock(trace, k + 2);
      if clock != observed {
        from := QuiescentLoopIsQuiet(trace, k + 3, deadline, stable, clock, trace[k + 2].now, k + 2);
      } else if trace[k + 2].now - since >= stable {
        from := first;
      } else {
        from := QuiescentLoopIsQuiet(trace, k + 3, deadline, stable, observed, since, first);
      }
    }
  }

  lemma {:induction false} NoneBefore(trace: Trace, j: nat, k: nat)
    requires j <= k <= |trace| && ClockAt(trace, k).None?
    ensures ClockAt(trace, j).None?
  {
    HeardGrows(trace, j, k);
  }

  /** A quiescent value was the only value the clock had over an interval of at least `stable`. */
  lemma {:induction false} QuiescentIsQuiet(trace: Trace, k: nat, timeout: int, stable: int) returns (from: nat)
    requires WaitQuiescent(trace, k, timeout, stable).Done?
    ensures var r := WaitQuiescent(trace, k, timeout, stable);
            k < r.at <= |trace| && k < from && Quiet(trace, from, r.at - 1, r.value, stable)
  {
    hide ClockAt;
    from := QuiescentLoopIsQuiet(trace, k + 2, trace[k].now + timeout, stable, ClockAt(trace, k + 2),
      trace[k + 1].now, k + 1);
  }

  /** Advancement is proved against an earlier value, never by the first sample alone. */
  lemma {:induction false} AfterLoopAdvances(trace: Trace, k: nat, deadline: int, previous: Option<int>)
    returns (seen: nat)
    requires k <= |trace| && AfterLoop(trace, k, deadline, previous).Done?
    ensures var r := AfterLoop(trace, k, deadline, previous);
            && k < r.at <= |trace| && ClockAt(trace, r.at) == Some(r.value)
            && (previous.Some? ==> r.value > previous.value)
            && (previous.None? ==>
              k < seen < r.at && ClockAt(trace, seen).Some? && ClockAt(trace, seen).value < r.value)
    decreases |trace| - k
  {
    hide ClockAt;
    var clock := ClockAt(trace, k + 2);
    if clock.None? {
      seen := AfterLoopAdvances(trace, k + 2, deadline, previous);
    } else if previous.None? {
      seen := AfterLoopAdvances(trace, k + 2, deadline, clock);
      seen := k + 2;
    } else if clock.value > previous.value {
      seen := k;
    } else {
      seen := AfterLoopAdvances(trace, k + 2, deadline, previous);
    }
  }

  lemma {:induction false} AfterAdvances(trace: Trace, k: nat, timeout: int, previous: Option<int>) returns (seen: nat)
    requires WaitAfter(trace, k, timeout, previous).Done?
    ensures var r := WaitAfter(trace, k, timeout, previous);
            && k < r.at <= |trace| && ClockAt(trace, r.at) == Some(r.value)
            && (previous.Some? ==> r.value > previous.value)
            && (previous.None? ==>
              k < seen < r.at && ClockAt(trace, seen).Some? && ClockAt(trace, seen).value < r.value)
  {
    hide ClockAt;
    seen := AfterLoopAdvances(trace, k + 1, trace[k].now + timeout, previous);
  }

  lemma {:induction false} AtLeastLoopReaches(trace: Trace, k: nat, deadline: int, target: int)
    requires k <= |trace| && AtLeastLoop(trace, k, deadline, target).Done?
    ensures var r := AtLeastLoop(trace, k, deadline, target);
            k < r.at <= |trace| && ClockAt(trace, r.at) == Some(r.value) && r.value >= target
    decreases |trace| - k
  {
    hide ClockAt;
    var clock := ClockAt(trace, k + 2);
    if !(clock.Some? && clock.value >= target) { AtLeastLoopReaches(trace, k + 2, deadline, target); }
  }

  /** A confirmed state is the one requested, as reported by the last state call, before the deadline. */
  lemma {:induction false} StateLoopConfirms(trace: Trace, k: nat, deadline: int, requested: int, observed: int)
    requires k <= |trace| && StateLoop(trace, k, deadline, requested, observed).Done?
    ensures var at := StateLoop(trace, k, deadline, requested, observed).at;
            && trace[at - 1].Time? && trace[at - 1].now < deadline
            && (at == k + 1 ==> observed == requested)
            && (at != k + 1 ==> k + 2 <= at - 2 && ReportsState(trace, at - 2, requested))
    decreases |trace| - k
  {
    if observed == requested {
    } else {
      StateLoopConfirms(trace, k + 3, deadline, requested, StateAt(trace, k + 2).value);
    }
  }

  predicate ReportsState(trace: Trace, j: nat, state: int) {
    j < |trace| && trace[j].Call? && trace[j].reply == Some(State(RESULT_OK, state))
  }

  lemma {:induction false} WaitStateConfirms(trace: Trace, k: nat, timeout: int, requested: int)
    requires WaitState(trace, k, timeout, requested).Done?
    ensures var at := WaitState(trace, k, timeout, requested).at;
            && k < at - 2 && ReportsState(trace, at - 2, requested)
            && trace[k].Time? && trace[at - 1].Time? && trace[at - 1].now < trace[k].now + timeout
  {
    StateLoopConfirms(trace, k + 2, trace[k].now + timeout, requested, StateAt(trace, k + 1).value);
  }

  // ---- the consumer ----

  datatype Report = Report(schema: string, status: string, steps: M.Value, size: M.Value, clock: Option<ClockValues>)

  datatype ClockValues = ClockValues(playing: M.Value, paused: M.Value, stepped: M.Value, resumed: M.Value)

  function PositiveInteger(v: M.Value, zero: bool): Option<int> {
    if v.Int? && v.n >= (if zero then 0 else 1) then Some(v.n) else None
  }

  /** The clock part of `checked_clock`: the accepted advance, or a refusal. */
  function CheckedClock(report: Report): Option<int> {
    var steps, size := PositiveInteger(report.steps, false), PositiveInteger(report.size, false);
    if report.schema != "simulation-conformance.v1" || report.status != "passed" || steps.None? || size.None?
      || report.clock.None? then None
    else
      var c := report.clock.value;
      var playing, paused := PositiveInteger(c.playing, true), PositiveInteger(c.paused, true);
      var stepped, resumed := PositiveInteger(c.stepped, true), PositiveInteger(c.resumed, true);
      if playing.None? || paused.None? || stepped.None? || resumed.None? then None
      else if !(playing.value <= paused.value < stepped.value < resumed.value)
              || stepped.value - paused.value != steps.value * size.value then None
      else Some(steps.value * size.value)
  }

  /** The report `verify` returns. */
  function ReportOf(c: Clock, steps: int, size: int): Report {
    Report("simulation-conformance.v1", "passed", M.Int(steps), M.Int(size),
           Some(ClockValues(M.Int(c.playing), M.Int(c.paused), M.Int(c.stepped), M.Int(c.resumed))))
  }

  lemma {:induction false} PositiveProduct(a: int, b: int)
    requires a >= 1 && b >= 1
    ensures a * b >= 1
  {
  }

  /** A finished second half: the step is exact, and the clock then moved on. */
  lemma {:induction false} SteppingIsExact(trace: Trace, k: nat, timeout: int, playing: int, paused: int, expected: int)
    returns (from: nat, at: nat)
    requires Stepping(trace, k, timeout, playing, paused, expected).Done?
    ensures var c := Stepping(trace, k, timeout, playing, paused, expected).value;
            && c.playing == playing && c.paused == paused && c.stepped == expected && c.stepped < c.resumed
            && k < from && Quiet(trace, from, at, c.stepped, STABLE)
  {
    hide StateAt, SetStateAt, WaitState, WaitAfter, WaitAtLeast, WaitQuiescent, ClockAt, Quiet;
    var stepping := StepAt(trace, k);
    var reached := WaitAtLeast(trace, stepping.at, timeout, expected);
    ReachedLater(trace, stepping.at, timeout, expected);
    from := QuiescentIsQuiet(trace, reached.at, timeout, STABLE);
    var stepped := WaitQuiescent(trace, reached.at, timeout, STABLE);
    at := stepped.at - 1;
    var state := StateAt(trace, stepped.at);
    var resuming := SetStateAt(trace, state.at);
    var seen := AfterAdvances(trace, resuming.at, timeout, Some(stepped.value));
  }

  lemma {:induction false} ReachedLater(trace: Trace, k: nat, timeout: int, target: int)
    requires WaitAtLeast(trace, k, timeout, target).Done?
    ensures k < WaitAtLeast(trace, k, timeout, target).at <= |trace|
  {
    hide ClockAt;
    AtLeastLoopReaches(trace, k + 1, trace[k].now + timeout, target);
  }

  /** A finished conformance run, value by value: the playing clock was observed, then the paused and the
      stepped clock were quiescent, in this order; the step is exact; the clock moved on afterwards; and when
      no message went back, the paused clock is not before the playing one. */
  lemma {:induction false} VerifiedMeans(trace: Trace, k: nat, timeout: int, steps: int, size: int)
    returns (playingAt: nat, pausedFrom: nat, pausedAt: nat, steppedFrom: nat, steppedAt: nat)
    requires Verified(trace, k, timeout, steps, size).Done?
    ensures var c := Verified(trace, k, timeout, steps, size).value;
            && c.stepped - c.paused == steps * size && c.stepped < c.resumed
            && playingAt < pausedFrom && playingAt <= |trace| && ClockAt(trace, playingAt) == Some(c.playing)
            && Quiet(trace, pausedFrom, pausedAt, c.paused, STABLE)
            && pausedAt < steppedFrom && Quiet(trace, steppedFrom, steppedAt, c.stepped, STABLE)
            && (NeverBackwards(trace) ==> 0 <= c.playing <= c.paused)
  {
    hide SetStateAt, WaitState, WaitAfter, WaitQuiescent, Stepping, ClockAt, Quiet, NeverBackwards;
    var features := FeaturesAt(trace, k);
    var started := SetStateAt(trace, features.at);
    var confirmed := WaitState(trace, started.at, timeout, PLAYING);
    var playing := WaitAfter(trace, confirmed.at, timeout, ClockAt(trace, features.at));
    var seen := AfterAdvances(trace, confirmed.at, timeout, ClockAt(trace, features.at));
    playingAt := playing.at;
    var pausing := SetStateAt(trace, playing.at);
    SetStateLater(trace, playing.at);
    var held := WaitState(trace, pausing.at, timeout, PAUSED);
    var paused := WaitQuiescent(trace, held.at, timeout, STABLE);
    pausedFrom := QuiescentIsQuiet(trace, held.at, timeout, STABLE);
    pausedAt := paused.at - 1;
    steppedFrom, steppedAt := SteppingIsExact(trace, paused.at, timeout, playing.value, paused.value,
      paused.value + steps * size);
    if NeverBackwards(trace) {
      QuietEnd(trace, pausedFrom, pausedAt, paused.value, STABLE);
      ClockNeverBackwards(trace, playing.at, paused.at);
    }
  }

  lemma {:induction false} QuietEnd(trace: Trace, first: nat, last: nat, value: int, stable: int)
    requires Quiet(trace, first, last, value, stable)
    ensures ClockAt(trace, last + 1) == Some(value)
  {
  }

  lemma {:induction false} SetStateLater(trace: Trace, k: nat)
    requires SetStateAt(trace, k).Done?
    ensures SetStateAt(trace, k).at == k + 1
  {
  }

  /** The consumer accepts a returned report exactly when the clock that the quiet paused interval ends with
      is not before the one observed while playing, and neither is negative; so always, when no clock message
      goes back. */
  lemma {:induction false} ReportAccepted(trace: Trace, k: nat, timeout: int, steps: int, size: int)
    returns (playingAt: nat, pausedFrom: nat, pausedAt: nat)
    requires steps >= 1 && size >= 1
    ensures Verified(trace, k, timeout, steps, size).Done? ==>
              var c := Verified(trace, k, timeout, steps, size).value;
              && playingAt < pausedFrom < pausedAt < |trace| && Quiet(trace, pausedFrom, pausedAt, c.paused, STABLE)
              && ClockAt(trace, playingAt) == Some(c.playing) && ClockAt(trace, pausedAt + 1) == Some(c.paused)
              && (CheckedClock(ReportOf(c, steps, size)) == Some(steps * size) <==>
                  0 <= ClockAt(trace, playingAt).value <= ClockAt(trace, pausedAt + 1).value)
              && (NeverBackwards(trace) ==> CheckedClock(ReportOf(c, steps, size)) == Some(steps * size))
  {
    hide Verified, NeverBackwards, ClockAt;
    playingAt, pausedFrom, pausedAt := 0, 0, 0;
    if Verified(trace, k, timeout, steps, size).Done? {
      var steppedFrom, steppedAt;
      playingAt, pausedFrom, pausedAt, steppedFrom, steppedAt := VerifiedMeans(trace, k, timeout, steps, size);
      PositiveProduct(steps, size);
    }
  }

  // ---- periodic stepping ----

  /** A run that steps periodically, from a paused and quiescent clock, leads through the clock at exactly
      every multiple of the requested advance, with the simulator reported paused each time; and if no message
      goes back, the clock never leaves the advance of the round it is in. */
  lemma {:induction false} PeriodicIsExact(trace: Trace, k: nat, timeout: int, steps: int, size: int, rounds: nat)
    returns (first: nat, marks: seq<nat>)
    requires Periodic(trace, k, timeout, steps, size, rounds).Done?
    ensures var r := Periodic(trace, k, timeout, steps, size, rounds);
            && |marks| == rounds + 1 && marks[0] > 0 && marks[rounds] == r.at
            && Quiet(trace, first, marks[0] - 1, r.value - rounds * (steps * size), STABLE)
            && Marked(trace, marks, r.value - rounds * (steps * size), steps * size)
            && (NeverBackwards(trace) ==> Bounded(trace, marks, r.value - rounds * (steps * size), steps * size))
  {
    hide ClockAt, SetStateAt, WaitState, WaitQuiescent, Rounds, Marked, Quiet, NeverBackwards, Bounded;
    var pausing := SetStateAt(trace, k);
    var held := WaitState(trace, pausing.at, timeout, PAUSED);
    var start := WaitQuiescent(trace, held.at, timeout, STABLE);
    first := QuiescentIsQuiet(trace, held.at, timeout, STABLE);
    marks := RoundsAreMarked(trace, start.at, timeout, start.value, steps, size, rounds);
    QuietEnd(trace, first, start.at - 1, start.value, STABLE);
    if NeverBackwards(trace) { MarkedIsBounded(trace, marks, start.value, steps * size); }
  }

  function After(start: int, advance: int, rounds: nat): int {
    start + rounds * advance
  }

  /** After round m the clock is at `start` plus m times `advance`, and the simulator was reported paused. */
  ghost predicate Marked(trace: Trace, marks: seq<nat>, start: int, advance: int) {
    forall m :: 1 <= m < |marks| ==>
      && marks[m - 1] + 2 < marks[m] <= |trace| && ClockAt(trace, marks[m]) == Some(After(start, advance, m))
      && ReportsState(trace, marks[m] - 2, PAUSED)
  }

  /** During round m the clock lies between `start` plus m - 1 and plus m times `advance`. */
  ghost predicate Bounded(trace: Trace, marks: seq<nat>, start: int, advance: int) {
    forall m :: 1 <= m < |marks| ==>
      ClockWithin(trace, marks[m - 1], marks[m], After(start, advance, m - 1), After(start, advance, m))
  }

  ghost predicate ClockWithin(trace: Trace, from: nat, to: nat, low: int, high: int) {
    to <= |trace| && forall j :: from <= j <= to ==> ClockAt(trace, j).Some? && low <= ClockAt(trace, j).value <= high
  }

  lemma {:induction false} MarkedIsBounded(trace: Trace, marks: seq<nat>, start: int, advance: int)
    requires NeverBackwards(trace) && Marked(trace, marks, start, advance)
    requires marks != [] && marks[0] <= |trace| && ClockAt(trace, marks[0]) == Some(start)
    ensures Bounded(trace, marks, start, advance)
  {
    hide ClockAt, NeverBackwards, ReportsState;
    forall m | 1 <= m < |marks|
      ensures ClockWithin(trace, marks[m - 1], marks[m], After(start, advance, m - 1), After(start, advance, m))
    {
      FirstMark(start, advance);
      assert marks[m - 1] <= |trace| && ClockAt(trace, marks[m - 1]) == Some(After(start, advance, m - 1));
      forall j | marks[m - 1] <= j <= marks[m]
        ensures ClockAt(trace, j).Some?
        ensures After(start, advance, m - 1) <= ClockAt(trace, j).value <= After(start, advance, m)
      {
        ClockNeverBackwards(trace, marks[m - 1], j);
        ClockNeverBackwards(trace, j, marks[m]);
      }
    }
  }

  lemma {:induction false} FirstMark(start: int, advance: int)
    ensures After(start, advance, 0) == start
  {
  }

  lemma {:induction false} RoundsAreMarked(trace: Trace, k: nat, timeout: int, start: int, steps: int, size: int,
      rounds: nat)
    returns (marks: seq<nat>)
    requires Rounds(trace, k, timeout, start, steps, size, rounds).Done?
    ensures var r := Rounds(trace, k, timeout, start, steps, size, rounds);
            && |marks| == rounds + 1 && marks[0] == k && marks[rounds] == r.at
            && r.value == start + rounds * (steps * size) && Marked(trace, marks, start, steps * size)
    decreases rounds
  {
    hide ClockAt, Advanced, ReportsState;
    if rounds == 0 {
      marks := [k];
    } else {
      var next, advance := Advanced(trace, k, timeout, start, steps, size), steps * size;
      AdvancedMeans(trace, k, timeout, start, steps, size);
      var rest := RoundsAreMarked(trace, next.at, timeout, next.value, steps, size, rounds - 1);
      marks := [k] + rest;
      MarkedNext(trace, k, rest, start, advance);
      OneMoreAdvance(start, advance, rounds);
    }
  }

  lemma {:induction false} OneMoreAdvance(start: int, advance: int, m: nat)
    requires m > 0
    ensures After(start + advance, advance, m - 1) == After(start, advance, m)
    ensures After(start + advance, advance, 0) == start + advance == After(start, advance, 1)
  {
  }

  /** A round, and then those that are marked. */
  lemma {:induction false} MarkedNext(trace: Trace, k: nat, rest: seq<nat>, start: int, advance: int)
    requires rest != [] && k + 2 < rest[0] <= |trace| && ClockAt(trace, rest[0]) == Some(start + advance)
    requires ReportsState(trace, rest[0] - 2, PAUSED) && Marked(trace, rest, start + advance, advance)
    ensures Marked(trace, [k] + rest, start, advance)
  {
    hide ClockAt, ReportsState, After;
    var marks := [k] + rest;
    forall m | 1 <= m < |marks|
      ensures marks[m - 1] + 2 < marks[m] <= |trace| && ClockAt(trace, marks[m]) == Some(After(start, advance, m))
      ensures ReportsState(trace, marks[m] - 2, PAUSED)
    {
      OneMoreAdvance(start, advance, m);
      assert marks[m] == rest[m - 1];
      if m > 1 { assert marks[m - 1] == rest[m - 2]; }
    }
  }

  lemma {:induction false} AdvancedMeans(trace: Trace, k: nat, timeout: int, previous: int, steps: int, size: int)
    requires Advanced(trace, k, timeout, previous, steps, size).Done?
    ensures var r := Advanced(trace, k, timeout, previous, steps, size);
            && r.value == previous + steps * size && k + 2 < r.at <= |trace|
            && ClockAt(trace, r.at) == Some(r.value) && ReportsState(trace, r.at - 2, PAUSED)
  {
    hide ClockAt, WaitAtLeast, WaitState;
    var stepping := StepAt(trace, k);
    var reached := WaitAtLeast(trace, stepping.at, timeout, previous + steps * size);
    ReachedLater(trace, stepping.at, timeout, previous + steps * size);
    WaitStateConfirms(trace, reached.at, timeout, PAUSED);
  }

  // ---- a clock that goes back ----

  /** A conformant run whose clock falls from 20 to 5 while the simulator pauses. */
  function FallingStep(i: nat): Step {
    match i
    case 0 => Call([], Some(Features(REQUIRED)))
    case 1 => Call([], Some(Result(RESULT_OK)))
    case 2 => Time(0)
    case 3 => Call([], Some(State(RESULT_OK, PLAYING)))
    case 4 => Time(1)
    case 5 => Time(2)
    case 6 => Time(3)
    case 7 => Spin(Some(10))
    case 8 => Time(4)
    case 9 => Spin(Some(20))
    case 10 => Call([], Some(Result(RESULT_OK)))
    case 11 => Time(5)
    case 12 => Call([], Some(State(RESULT_OK, PAUSED)))
    case 13 => Time(6)
    case 14 => Time(7)
    case 15 => Time(8)
    case 16 => Time(9)
    case 17 => Spin(Some(5))
    case 18 => Time(10)
    case 19 => Time(11)
    case 20 => Spin(None)
    case 21 => Time(STABLE + 10)
    case 22 => Call([], Some(Result(RESULT_OK)))
    case 23 => Time(STABLE + 11)
    case 24 => Time(STABLE + 12)
    case 25 => Spin(Some(6))
    case 26 => Time(STABLE + 13)
    case 27 => Time(STABLE + 14)
    case 28 => Time(STABLE + 15)
    case 29 => Spin(None)
    case 30 => Time(2 * STABLE + 14)
    case 31 => Call([], Some(State(RESULT_OK, PAUSED)))
    case 32 => Call([], Some(Result(RESULT_OK)))
    case 33 => Time(2 * STABLE + 15)
    case 34 => Time(2 * STABLE + 16)
    case 35 => Spin(Some(7))
    case 36 => Time(2 * STABLE + 17)
    case 37 => Call([], Some(State(RESULT_OK, PLAYING)))
    case _ => Time(2 * STABLE + 18)
  }

  const FALLING: Trace := seq(39, i requires 0 <= i < 39 => FallingStep(i))

  const SECOND := 1_000_000_000

  lemma {:induction false} ClockStep(trace: Trace, k: nat)
    requires k < |trace|
    ensures ClockAt(trace, k + 1) ==
            var messages := Messages(trace[k]);
            if messages == [] then ClockAt(trace, k) else Some(messages[|messages| - 1])
  {
  }

  lemma {:induction false} ClockStays(trace: Trace, j: nat, k: nat)
    requires j <= k <= |trace| && forall i :: j <= i < k ==> Messages(trace[i]) == []
    ensures ClockAt(trace, k) == ClockAt(trace, j)
    decreases k
  {
    hide ClockAt, Messages;
    if j == k {
    } else {
      ClockStays(trace, j, k - 1);
      ClockStep(trace, k - 1);
    }
  }

  lemma {:induction false} FallingClock()
    ensures ClockAt(FALLING, 1) == None && ClockAt(FALLING, 8) == Some(10) && ClockAt(FALLING, 10) == Some(20)
    ensures ClockAt(FALLING, 16) == Some(20) && ClockAt(FALLING, 18) == Some(5) && ClockAt(FALLING, 21) == Some(5)
  {
    hide ClockAt;
    ClockStep(FALLING, 7);
    ClockStep(FALLING, 9);
    ClockStep(FALLING, 17);
    NothingHeard(FALLING);
    ClockStep(FALLING, 0);
    ClockStays(FALLING, 10, 16);
    ClockStays(FALLING, 18, 21);
  }

  lemma {:induction false} SteppedClock()
    ensures ClockAt(FALLING, 26) == Some(6) && ClockAt(FALLING, 28) == Some(6)
    ensures ClockAt(FALLING, 30) == Some(6) && ClockAt(FALLING, 36) == Some(7)
  {
    hide ClockAt;
    ClockStep(FALLING, 25);
    ClockStep(FALLING, 35);
    ClockStays(FALLING, 26, 28);
    ClockStays(FALLING, 28, 30);
  }

  lemma {:induction false} NothingHeard(trace: Trace)
    ensures ClockAt(trace, 0) == None
  {
  }

  lemma {:induction false} StateConfirmed(trace: Trace, k: nat, timeout: int, requested: int)
    requires k + 2 < |trace| && trace[k].Time? && trace[k + 1] == Call([], Some(State(RESULT_OK, requested)))
    requires trace[k + 2].Time? && trace[k + 2].now < trace[k].now + timeout
    ensures WaitState(trace, k, timeout, requested) == Done((), k + 3)
  {
  }

  lemma {:induction false} FirstPollDecides(trace: Trace, k: nat, timeout: int, bound: int, clock: int)
    requires k + 2 < |trace| && trace[k].Time? && Polls(trace, k + 1, trace[k].now + timeout)
    requires ClockAt(trace, k + 3) == Some(clock)
    ensures clock >= bound ==> WaitAtLeast(trace, k, timeout, bound) == Done(clock, k + 3)
    ensures clock > bound ==> WaitAfter(trace, k, timeout, Some(bound)) == Done(clock, k + 3)
  {
    hide ClockAt;
  }

  lemma {:induction false} SecondPollDecides(trace: Trace, k: nat, timeout: int, first: int, second: int)
    requires k + 4 < |trace| && trace[k].Time?
    requires Polls(trace, k + 1, trace[k].now + timeout) && Polls(trace, k + 3, trace[k].now + timeout)
    requires ClockAt(trace, k + 3) == Some(first) && ClockAt(trace, k + 5) == Some(second) && first < second
    ensures WaitAfter(trace, k, timeout, None) == Done(second, k + 5)
  {
    hide ClockAt;
    assert AfterLoop(trace, k + 3, trace[k].now + timeout, Some(first)) == Done(second, k + 5);
  }

  lemma {:induction false} QuietAtOnce(trace: Trace, k: nat, deadline: int, stable: int, clock: int, since: int)
    requires k + 2 < |trace| && Polls(trace, k, deadline) && trace[k + 2].Time? && trace[k + 2].now - since >= stable
    requires ClockAt(trace, k + 2) == Some(clock)
    ensures QuiescentLoop(trace, k, deadline, stable, Some(clock), since) == Done(clock, k + 3)
  {
    hide ClockAt;
  }

  lemma {:induction false} QuietAfterChange(trace: Trace, k: nat, deadline: int, stable: int, before: int,
      clock: int, since: int)
    requires k + 5 < |trace| && Polls(trace, k, deadline) && trace[k + 2].Time? && before != clock
    requires Polls(trace, k + 3, deadline) && trace[k + 5].Time? && trace[k + 5].now - trace[k + 2].now >= stable
    requires ClockAt(trace, k + 2) == ClockAt(trace, k + 5) == Some(clock)
    ensures QuiescentLoop(trace, k, deadline, stable, Some(before), since) == Done(clock, k + 6)
  {
    hide ClockAt;
    QuietAtOnce(trace, k + 3, deadline, stable, clock, trace[k + 2].now);
  }

  lemma {:induction false} FallingFirstHalf()
    ensures WaitState(FALLING, 2, SECOND, PLAYING) == Done((), 5)
    ensures WaitAfter(FALLING, 5, SECOND, None) == Done(20, 10)
    ensures WaitState(FALLING, 11, SECOND, PAUSED) == Done((), 14)
    ensures WaitQuiescent(FALLING, 14, SECOND, STABLE) == Done(5, 22)
  {
    hide ClockAt, WaitState, WaitAfter, QuiescentLoop;
    FallingClock();
    StateConfirmed(FALLING, 2, SECOND, PLAYING);
    SecondPollDecides(FALLING, 5, SECOND, 10, 20);
    StateConfirmed(FALLING, 11, SECOND, PAUSED);
    QuietAfterChange(FALLING, 16, SECOND + 7, STABLE, 20, 5, 8);
  }

  lemma {:induction false} FallingSecondHalf()
    ensures Stepping(FALLING, 22, SECOND, 20, 5, 6) == Done(Clock(20, 5, 6, 7), 39)
  {
    hide ClockAt, WaitState, WaitAfter, WaitAtLeast, QuiescentLoop;
    SteppedClock();
    FirstPollDecides(FALLING, 23, SECOND, 6, 6);
    QuietAtOnce(FALLING, 28, STABLE + 13 + SECOND, STABLE, 6, STABLE + 14);
    assert WaitQuiescent(FALLING, 26, SECOND, STABLE) == Done(6, 31);
    FirstPollDecides(FALLING, 33, SECOND, 6, 7);
    StateConfirmed(FALLING, 36, SECOND, PLAYING);
  }

  /** The controller itself does not compare the paused with the playing clock: this run passes, and the
      consumer refuses its report. */
  lemma {:induction false} FallingClockIsRefused()
    ensures Verified(FALLING, 0, SECOND, 1, 1) == Done(Clock(20, 5, 6, 7), 39)
    ensures CheckedClock(ReportOf(Clock(20, 5, 6, 7), 1, 1)).None?
  {
    hide ClockAt, WaitState, WaitAfter, WaitQuiescent, Stepping;
    FallingClock();
    FallingFirstHalf();
    FallingSecondHalf();
  }
}
