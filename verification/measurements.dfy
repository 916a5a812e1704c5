/** Sequence accounting of one observed channel: what a `MessageStream` reports per message, and what
    those reports add up to over a whole trace. */
module Measurements {
  import opened Paths

  /** A metadata value as the checks tell them apart; a missing entry is `Other`. */
  datatype Value = Int(n: int) | Bool(b: bool) | Other

  datatype Info = Info(source: Value, received: Value, sequence: Value)

  /** `age` in nanoseconds. */
  datatype Measurement = Measurement(age: Option<int>, received: Option<int>, lost: Option<int>, errors: int)

  const UNSUPPORTED: int := 0xFFFF_FFFF_FFFF_FFFF

  function PositiveInt(v: Value): Option<int> {
    if v.Int? && v.n > 0 then Some(v.n) else None
  }

  /** Source-to-reception latency, when both timestamps give evidence of one. */
  function Latency(info: Info): Option<int> {
    var source, received := PositiveInt(info.source), PositiveInt(info.received);
    if source.None? || received.None? || received.value < source.value then None
    else Some(received.value - source.value)
  }

  function SequenceNumber(v: Value): Option<int> {
    if v.Int? && v.n >= 0 && v.n != UNSUPPORTED then Some(v.n) else None
  }

  datatype Observation = Observation(info: Info, publishers: int)

  /** The sequence number an observation offers for accounting. */
  function Offered(o: Observation): Option<int> {
    if o.publishers == 1 then SequenceNumber(o.info.sequence) else None
  }

  // ---- the reference: what a trace offered, with no running state ----

  function OfferedIn(trace: seq<Observation>): seq<int> {
    if trace == [] then []
    else
      var before, o := OfferedIn(trace[..|trace| - 1]), Offered(trace[|trace| - 1]);
      if o.Some? then before + [o.value] else before
  }

  predicate Exceeds(n: int, earlier: seq<int>) {
    forall i :: 0 <= i < |earlier| ==> earlier[i] < n
  }

  /** The strict running maxima: every number larger than all before it. */
  function Maxima(numbers: seq<int>): seq<int> {
    if numbers == [] then []
    else
      var before, n := numbers[..|numbers| - 1], numbers[|numbers| - 1];
      if Exceeds(n, before) then Maxima(before) + [n] else Maxima(before)
  }

  function Accepted(trace: seq<Observation>): seq<int> {
    Maxima(OfferedIn(trace))
  }

  /** The integers from `lo` up to, but not including, `hi`. */
  function Interval(lo: int, hi: int): set<int>
    decreases hi - lo
  {
    if lo < hi then Interval(lo, hi - 1) + {hi - 1} else {}
  }

  /** The numbers between the first and the last accepted one that were never accepted. */
  function Missing(accepted: seq<int>): set<int> {
    if accepted == [] then {} else Interval(accepted[0], accepted[|accepted| - 1]) - Members(accepted)
  }

  // ---- the stream ----

  class MessageStream {
    var lastSequence: Option<int>
    ghost var trace: seq<Observation>

    /** The one number the stream remembers is the largest that was ever offered. */
    ghost predicate Valid()
      reads this
    {
      && (lastSequence.None? <==> OfferedIn(trace) == [])
      && (lastSequence.Some? ==>
        lastSequence.value in OfferedIn(trace) && Exceeds(lastSequence.value + 1, OfferedIn(trace)))
    }

    constructor ()
      ensures Valid() && trace == []
    {
      lastSequence := None;
      trace := [];
    }

    method Observe(info: Info, publishers: int) returns (m: Measurement)
      requires Valid()
      modifies this
      ensures Valid() && trace == old(trace) + [Observation(info, publishers)]
      ensures m == Reported(old(trace), Observation(info, publishers))
    {
      hide Latency, OfferedIn, Maxima;
      ghost var o := Observation(info, publishers);
      ghost var numbers := OfferedIn(trace);
      OfferedStep(trace, o);
      MaximaEnd(numbers);
      trace := trace + [o];
      var age, sequence := Latency(info), SequenceNumber(info.sequence);
      if publishers != 1 || sequence.None? {
        return Measurement(age, None, None, 1);
      }
      var last := lastSequence;
      if last.Some? && sequence.value <= last.value {
        assert !Exceeds(sequence.value, numbers);
        return Measurement(age, Some(0), Some(0), 1);
      }
      var lost := 0;
      if last.Some? {
        lost := if sequence.value - last.value - 1 > 0 then sequence.value - last.value - 1 else 0;
        IntervalSize(last.value + 1, sequence.value);
      }
      lastSequence := sequence;
      return Measurement(age, Some(1), Some(lost), 0);
    }
  }

  /** What one report must say, in terms of everything seen before it: a number is received exactly when
      it exceeds all offered before, and then loses the numbers skipped since the last accepted one. */
  function Reported(before: seq<Observation>, o: Observation): Measurement {
    var age, n := Latency(o.info), Offered(o);
    if n.None? then Measurement(age, None, None, 1)
    else if !Exceeds(n.value, OfferedIn(before)) then Measurement(age, Some(0), Some(0), 1)
    else
      var accepted := Accepted(before);
      var lost := if accepted == [] then 0 else |Interval(accepted[|accepted| - 1] + 1, n.value)|;
      Measurement(age, Some(1), Some(lost), 0)
  }

  lemma {:induction false} OfferedStep(trace: seq<Observation>, o: Observation)
    ensures OfferedIn(trace + [o]) == OfferedIn(trace) + (if Offered(o).Some? then [Offered(o).value] else [])
  {
    assert (trace + [o])[..|trace|] == trace;
  }

  /** The last running maximum is the largest number. */
  lemma {:induction false} MaximaEnd(numbers: seq<int>)
    ensures Maxima(numbers) == [] <==> numbers == []
    ensures numbers != [] ==> Maxima(numbers)[|Maxima(numbers)| - 1] in numbers
    ensures numbers != [] ==> forall i :: 0 <= i < |numbers| ==> numbers[i] <= Maxima(numbers)[|Maxima(numbers)| - 1]
  {
    if numbers == [] {
    } else {
      MaximaEnd(numbers[..|numbers| - 1]);
    }
  }

  lemma {:induction false} MaximaIncrease(numbers: seq<int>)
    ensures forall i, j :: 0 <= i < j < |Maxima(numbers)| ==> Maxima(numbers)[i] < Maxima(numbers)[j]
  {
    if numbers == [] {
    } else {
      var before := numbers[..|numbers| - 1];
      MaximaIncrease(before);
      MaximaEnd(before);
      MaximaWithin(before);
    }
  }

  lemma {:induction false} MaximaWithin(numbers: seq<int>)
    ensures forall i :: 0 <= i < |Maxima(numbers)| ==> Maxima(numbers)[i] in numbers
  {
    if numbers == [] {
    } else {
      MaximaWithin(numbers[..|numbers| - 1]);
    }
  }

  lemma {:induction false} IntervalSize(lo: int, hi: int)
    requires lo <= hi
    ensures |Interval(lo, hi)| == hi - lo
    ensures forall n :: n in Interval(lo, hi) <==> lo <= n < hi
    decreases hi - lo
  {
    if lo >= hi {
    } else {
      IntervalSize(lo, hi - 1);
    }
  }

  /** The members of a strictly increasing list, counted. */
  lemma {:induction false} DistinctSize(numbers: seq<int>)
    requires forall i, j :: 0 <= i < j < |numbers| ==> numbers[i] < numbers[j]
    ensures |Members(numbers)| == |numbers|
    ensures numbers != [] ==> forall n :: n in Members(numbers) ==> numbers[0] <= n <= numbers[|numbers| - 1]
  {
    if numbers == [] {
    } else {
      DistinctSize(numbers[..|numbers| - 1]);
    }
  }

  // ---- whole traces ----

  datatype Totals = Totals(received: int, lost: int, errors: int)

  function Delta(d: Option<int>): int {
    if d.Some? then d.value else 0
  }

  /** The sums of the reports over a trace. */
  function Summed(trace: seq<Observation>): Totals {
    if trace == [] then Totals(0, 0, 0)
    else
      var before := trace[..|trace| - 1];
      var t, m := Summed(before), Reported(before, trace[|trace| - 1]);
      Totals(t.received + Delta(m.received), t.lost + Delta(m.lost), t.errors + m.errors)
  }

  /** The counting meaning of the three totals: received counts the strict running maxima, received and
      errors together count the observations, and lost counts the numbers between the first and the last
      accepted one that were never accepted. */
  lemma {:induction false} TotalsCount(trace: seq<Observation>)
    ensures Summed(trace).received == |Accepted(trace)|
    ensures Summed(trace).received + Summed(trace).errors == |trace|
    ensures Summed(trace).lost == |Missing(Accepted(trace))|
  {
    hide Missing, Latency, SequenceNumber, Interval;
    if trace == [] {
      assert Missing([]) == {} by { NothingMissing(); }
    } else {
      var before, n := trace[..|trace| - 1], Offered(trace[|trace| - 1]);
      TotalsCount(before);
      var numbers := OfferedIn(before);
      if n.Some? {
        assert (numbers + [n.value])[..|numbers|] == numbers;
        if Exceeds(n.value, numbers) { MissingStep(numbers, n.value); }
      }
    }
  }

  lemma {:induction false} NothingMissing()
    ensures Missing([]) == {}
  {
  }

  /** Accepting the next maximum adds exactly the skipped numbers to the missing ones. */
  lemma {:induction false} MissingStep(numbers: seq<int>, n: int)
    requires Exceeds(n, numbers)
    ensures |Missing(Maxima(numbers) + [n])| ==
            |Missing(Maxima(numbers))| +
            if Maxima(numbers) == [] then 0 else |Interval(Maxima(numbers)[|Maxima(numbers)| - 1] + 1, n)|
  {
    hide Maxima, Interval, Missing, Members;
    var a := Maxima(numbers);
    MaximaEnd(numbers);
    MaximaIncrease(numbers);
    assert forall i, j :: 0 <= i < j < |a + [n]| ==> (a + [n])[i] < (a + [n])[j];
    MissingSize(a + [n]);
    if a == [] {
      NothingMissing();
    } else {
      MissingSize(a);
      IntervalSize(a[|a| - 1] + 1, n);
    }
  }

  /** What a strictly increasing list leaves out between its ends. */
  lemma {:induction false} MissingSize(a: seq<int>)
    requires a != [] && forall i, j :: 0 <= i < j < |a| ==> a[i] < a[j]
    ensures |Missing(a)| == a[|a| - 1] - a[0] - (|a| - 1)
  {
    hide Interval;
    var last := a[|a| - 1];
    var before := Members(a[..|a| - 1]);
    DistinctSize(a[..|a| - 1]);
    DistinctSize(a);
    IntervalSize(a[0], last);
    var all := Interval(a[0], last);
    assert before <= all by {
      forall n | n in before
        ensures n in all
      {
        assert a[..|a| - 1] != [];
      }
    }
    assert Missing(a) == all - before by {
      assert Members(a) == before + {last};
      assert last !in all;
    }
    assert |all - before| == |all| - |before| by {
      assert all == (all - before) + before;
    }
  }

  /** Every number from the first to the last accepted one is either received or lost. */
  lemma {:induction false} ReceivedAndLostFillTheRange(trace: seq<Observation>)
    requires Accepted(trace) != []
    ensures var a := Accepted(trace);
            Summed(trace).lost + Summed(trace).received == a[|a| - 1] - a[0] + 1
  {
    hide Summed, OfferedIn, Maxima, Missing;
    TotalsCount(trace);
    MaximaIncrease(OfferedIn(trace));
    MissingSize(Accepted(trace));
  }

  /** An age is reported exactly when both times are positive integers, the reception not before the source; and a
      number is offered exactly when it is a natural one, not the reserved one, from a single publisher. */
  lemma {:induction false} ReportedFacts(o: Observation, n: int)
    ensures Latency(o.info) == Some(n) <==>
            exists source: int, received: int ::
              && o.info.source == Int(source) && o.info.received == Int(received)
              && 0 < source <= received && n == received - source
    ensures Offered(o) == Some(n) <==>
            o.info.sequence == Int(n) && n >= 0 && n != 18_446_744_073_709_551_615 && o.publishers == 1
  {
    if Latency(o.info) == Some(n) {
      assert o.info.source == Int(o.info.source.n) && o.info.received == Int(o.info.received.n);
    }
  }
}
