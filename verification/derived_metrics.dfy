/** Offline metrics from original callback observations: one cumulative histogram series per kind, and
    cumulative message counters next to the odometry one.  Ages are kept in nanoseconds. */
module DerivedMetrics {
  import opened Paths
  import opened Measurements

  datatype Kind = Odom | Clock

  /** One observation row; `kind` is absent for the rows that are not selected. */
  datatype Row = Row(run: string, kind: Option<Kind>, observed: Value, source: Value, received: Value,
                     sequence: Value, publishers: Value)

  datatype Counters = Counters(received: int, lost: int)

  /** The data points one row contributes; every interval starts at the window start. */
  datatype Point = Point(kind: Kind, start: int, time: int, count: int, sum: int, buckets: seq<int>,
      counters: Option<Counters>)

  datatype Derivation = Derivation(start: int, end: int, points: seq<Point>, received: int, rows: int, lost: int)

  /** Bucket bounds: 0, 0.1, 0.5, 1, 5, 10, 50 and 100 milliseconds. */
  const BOUNDS: seq<int> := [0, 100_000, 500_000, 1_000_000, 5_000_000, 10_000_000, 50_000_000, 100_000_000]

  // ---- admission ----

  function Selected(rows: seq<Row>): seq<Row> {
    if rows == [] then []
    else
      var before, row := Selected(rows[..|rows| - 1]), rows[|rows| - 1];
      if row.kind.Some? then before + [row] else before
  }

  /** The rows of one kind. */
  function Of(rows: seq<Row>, kind: Kind): seq<Row> {
    if rows == [] then []
    else
      var before, row := Of(rows[..|rows| - 1], kind), rows[|rows| - 1];
      if row.kind == Some(kind) then before + [row] else before
  }

  predicate Timed(row: Row) {
    && row.observed.Int? && row.source.Int? && row.received.Int?
    && 0 < row.source.n <= row.received.n
  }

  predicate Numbered(row: Row) {
    row.publishers == Int(1) && row.sequence.Int? && 0 <= row.sequence.n < UNSUPPORTED
  }

  function NumberOf(v: Value): int {
    if v.Int? then v.n else 0
  }

  /** A row fits after the rows of its kind: later than all of them and, for odometry, with a higher
      publication sequence, from a single publisher, than all of them. */
  predicate Follows(earlier: seq<Row>, row: Row) {
    && Timed(row) && row.observed.n > 0
    && (row.kind == Some(Odom) ==> Numbered(row))
    && forall i :: 0 <= i < |earlier| ==> Precedes(earlier[i], row)
  }

  predicate Precedes(a: Row, b: Row) {
    && NumberOf(a.observed) < NumberOf(b.observed)
    && (b.kind == Some(Odom) ==> NumberOf(a.sequence) < NumberOf(b.sequence))
  }

  /** Every selected row fits after those before it. */
  predicate AllFit(sel: seq<Row>) {
    sel == [] ||
    var before, row := sel[..|sel| - 1], sel[|sel| - 1];
    AllFit(before) && row.kind.Some? && Follows(Of(before, row.kind.value), row)
  }

  function Min(a: int, b: int): int {
    if a <= b then a else b
  }

  function Max(a: int, b: int): int {
    if a >= b then a else b
  }

  predicate HasWindow(sel: seq<Row>) {
    var odom, clock := Of(sel, Odom), Of(sel, Clock);
    && odom != [] && clock != []
    && odom[0].observed.Int? && odom[|odom| - 1].observed.Int?
    && clock[0].observed.Int? && clock[|clock| - 1].observed.Int?
  }

  function Start(sel: seq<Row>): int
    requires HasWindow(sel)
  {
    Min(Of(sel, Odom)[0].observed.n, Of(sel, Clock)[0].observed.n)
  }

  function End(sel: seq<Row>): int
    requires HasWindow(sel)
  {
    var odom, clock := Of(sel, Odom), Of(sel, Clock);
    Max(odom[|odom| - 1].observed.n, clock[|clock| - 1].observed.n)
  }

  /** What `derive` accepts. */
  predicate Derivable(rows: seq<Row>, run: string) {
    var sel := Selected(rows);
    && (forall i :: 0 <= i < |rows| ==> rows[i].run == run)
    && HasWindow(sel) && Start(sel) < End(sel) && AllFit(sel)
  }

  // ---- the counting meaning of a point ----

  /** The ages of the rows of one kind observed after the window start. */
  function Ages(sel: seq<Row>, kind: Kind, start: int): seq<int> {
    if sel == [] then []
    else
      var before, row := Ages(sel[..|sel| - 1], kind, start), sel[|sel| - 1];
      if row.kind == Some(kind) && Timed(row) && row.observed.n > start
      then before + [row.received.n - row.source.n]
      else before
  }

  function Total(ages: seq<int>): int {
    if ages == [] then 0 else Total(ages[..|ages| - 1]) + ages[|ages| - 1]
  }

  /** How many ages fall in one bucket: above the bound before it, up to its own. */
  function InBucket(ages: seq<int>, b: nat): nat {
    if ages == [] then 0
    else InBucket(ages[..|ages| - 1], b) + if Bucket(ages[|ages| - 1]) == b then 1 else 0
  }

  function AtMost(ages: seq<int>, bound: int): nat {
    if ages == [] then 0
    else AtMost(ages[..|ages| - 1], bound) + if ages[|ages| - 1] <= bound then 1 else 0
  }

  /** The first bucket whose bound is not exceeded, or the overflow bucket. */
  function Bucket(age: int): (b: nat)
    ensures b <= |BOUNDS|
    ensures forall i :: 0 <= i < b ==> BOUNDS[i] < age
    ensures b < |BOUNDS| ==> age <= BOUNDS[b]
  {
    FirstBound(age, 0)
  }

  function FirstBound(age: int, i: nat): (b: nat)
    requires i <= |BOUNDS|
    ensures i <= b <= |BOUNDS|
    ensures forall k :: i <= k < b ==> BOUNDS[k] < age
    ensures b < |BOUNDS| ==> age <= BOUNDS[b]
    decreases |BOUNDS| - i
  {
    if i == |BOUNDS| || age <= BOUNDS[i] then i else FirstBound(age, i + 1)
  }

  function Buckets(ages: seq<int>): seq<int> {
    seq(|BOUNDS| + 1, b requires 0 <= b < |BOUNDS| + 1 => InBucket(ages, b))
  }

  /** The numbers skipped from each odometry row to the next, all together. */
  function Gaps(odom: seq<Row>): int {
    if |odom| <= 1 then 0
    else
      var last := |odom| - 1;
      Gaps(odom[..last]) + NumberOf(odom[last].sequence) - NumberOf(odom[last - 1].sequence) - 1
  }

  /** The point of the last row, said without any running state. */
  function PointOf(upTo: seq<Row>, start: int): Point
    requires upTo != [] && upTo[|upTo| - 1].kind.Some?
  {
    var row := upTo[|upTo| - 1];
    var ages := Ages(upTo, row.kind.value, start);
    Point(row.kind.value, start, NumberOf(row.observed), |ages|, Total(ages), Buckets(ages),
          if row.kind.value == Clock then None else Some(Counters(|ages|, Gaps(Of(upTo, Odom)))))
  }

  function Points(sel: seq<Row>, start: int): seq<Point>
    requires AllFit(sel)
  {
    if sel == [] then [] else Points(sel[..|sel| - 1], start) + [PointOf(sel, start)]
  }

  // ---- the loop ----

  datatype Series = Series(count: int, sum: int, buckets: seq<int>)

  function SeriesOf(ages: seq<int>): Series {
    Series(|ages|, Total(ages), Buckets(ages))
  }

  /** The first bucket whose bound is not exceeded. */
  method FindBucket(age: int) returns (bucket: nat)
    ensures bucket == Bucket(age)
  {
    bucket := 0;
    while bucket < |BOUNDS| && age > BOUNDS[bucket]
      invariant bucket <= |BOUNDS| && FirstBound(age, 0) == FirstBound(age, bucket)
    {
      bucket := bucket + 1;
    }
  }

  /** One contribution to a series. */
  method Contribute(series: Series, age: int, ghost ages: seq<int>) returns (r: Series)
    requires series == SeriesOf(ages)
    ensures r == SeriesOf(ages + [age])
  {
    hide Bucket, Total, InBucket;
    var bucket := FindBucket(age);
    OneAgeMore(ages, age);
    r := Series(series.count + 1, series.sum + age, series.buckets[bucket := series.buckets[bucket] + 1]);
  }

  lemma {:induction false} OneAgeMore(ages: seq<int>, age: int)
    ensures Total(ages + [age]) == Total(ages) + age
    ensures Buckets(ages + [age]) == Buckets(ages)[Bucket(age) := InBucket(ages, Bucket(age)) + 1]
  {
    hide Bucket;
    assert (ages + [age])[..|ages|] == ages;
  }

  method Select(rows: seq<Row>, run: string) returns (ok: bool, sel: seq<Row>)
    ensures ok <==> forall i :: 0 <= i < |rows| ==> rows[i].run == run
    ensures ok ==> sel == Selected(rows)
  {
    ok, sel := true, [];
    for i := 0 to |rows|
      invariant sel == Selected(rows[..i])
      invariant forall k :: 0 <= k < i ==> rows[k].run == run
    {
      if rows[i].run != run { ok := false; return; }
      assert rows[..i + 1][..i] == rows[..i];
      if rows[i].kind.Some? { sel := sel + [rows[i]]; }
    }
    assert rows[..|rows|] == rows;
  }

  datatype State = State(series: map<Kind, Series>, previousObserved: map<Kind, int>, previousSequence: Option<int>,
                         received: int, lost: int)

  ghost predicate TracksKind(state: State, kind: Kind, rows: seq<Row>, ages: seq<int>) {
    && kind in state.series && state.series[kind] == SeriesOf(ages)
    && (kind in state.previousObserved <==> rows != [])
    && (rows != [] ==> state.previousObserved[kind] == NumberOf(rows[|rows| - 1].observed))
  }

  ghost predicate TracksCounters(state: State, odom: seq<Row>, ages: seq<int>) {
    && (state.previousSequence.None? <==> odom == [])
    && (odom != [] ==> state.previousSequence == Some(NumberOf(odom[|odom| - 1].sequence)))
    && state.received == |ages| && state.lost == Gaps(odom)
  }

  ghost predicate Tracks(state: State, done: seq<Row>, start: int) {
    && TracksKind(state, Odom, Of(done, Odom), Ages(done, Odom, start))
    && TracksKind(state, Clock, Of(done, Clock), Ages(done, Clock, start))
    && TracksCounters(state, Of(done, Odom), Ages(done, Odom, start))
  }

  /** Rows of one kind that all fit increase strictly. */
  lemma {:induction false} KindIncreases(sel: seq<Row>, kind: Kind)
    requires AllFit(sel)
    ensures forall i :: 0 <= i < |Of(sel, kind)| ==>
              var row := Of(sel, kind)[i];
              row.kind == Some(kind) && Timed(row) && row.observed.n > 0 && (kind == Odom ==> Numbered(row))
    ensures forall i, j :: 0 <= i < j < |Of(sel, kind)| ==> Precedes(Of(sel, kind)[i], Of(sel, kind)[j])
  {
    if sel == [] {
    } else {
      KindIncreases(sel[..|sel| - 1], kind);
    }
  }

  /** Comparing with the last row of a kind is comparing with all of them. */
  lemma {:induction false} LastDecides(done: seq<Row>, row: Row)
    requires AllFit(done) && row.kind.Some?
    ensures var earlier := Of(done, row.kind.value);
            Follows(earlier, row) <==>
            (Timed(row) && row.observed.n > 0 && (row.kind == Some(Odom) ==> Numbered(row)) &&
             (earlier != [] ==> Precedes(earlier[|earlier| - 1], row)))
    ensures var earlier := Of(done, row.kind.value);
            earlier != [] ==> NumberOf(earlier[|earlier| - 1].observed) > 0
  {
    hide Of;
    KindIncreases(done, row.kind.value);
    var earlier := Of(done, row.kind.value);
    forall i | 0 <= i < |earlier| && Precedes(earlier[|earlier| - 1], row)
      ensures Precedes(earlier[i], row)
    {
      if i < |earlier| - 1 { assert Precedes(earlier[i], earlier[|earlier| - 1]); }
    }
  }

  lemma {:induction false} OneMore(done: seq<Row>, row: Row, kind: Kind, start: int)
    ensures Of(done + [row], kind) == if row.kind == Some(kind) then Of(done, kind) + [row] else Of(done, kind)
    ensures Ages(done + [row], kind, start) ==
            if row.kind == Some(kind) && Timed(row) && row.observed.n > start
            then Ages(done, kind, start) + [row.received.n - row.source.n] else Ages(done, kind, start)
  {
    assert (done + [row])[..|done|] == done;
  }

  /** The state after a row that fits. */
  ghost predicate Advanced(state: State, next: State, done: seq<Row>, row: Row, start: int)
    requires row.kind.Some? && row.kind.value in state.previousObserved.Keys + state.series.Keys
  {
    var kind, counted := row.kind.value, NumberOf(row.observed) > start;
    && next.series == state.series[kind := SeriesOf(Ages(done + [row], kind, start))]
    && next.previousObserved == state.previousObserved[kind := NumberOf(row.observed)]
    && (kind == Clock ==>
          next.previousSequence == state.previousSequence && next.received == state.received && next.lost == state.lost)
    && (kind == Odom ==>
          && next.previousSequence == Some(NumberOf(row.sequence))
          && next.received == state.received + (if counted then 1 else 0)
          && next.lost == state.lost + match state.previousSequence
                                       case None => 0
                                       case Some(last) => NumberOf(row.sequence) - last - 1)
  }

  lemma {:induction false} AdvancedTracks(state: State, next: State, done: seq<Row>, row: Row, start: int)
    requires Tracks(state, done, start) && row.kind.Some? && Timed(row)
    requires row.kind.value in state.series && Advanced(state, next, done, row, start)
    ensures Tracks(next, done + [row], start)
  {
    hide Of, Ages, SeriesOf, Gaps;
    OneMore(done, row, Odom, start);
    OneMore(done, row, Clock, start);
    GapsStep(Of(done, Odom), row);
  }

  lemma {:induction false} GapsStep(odom: seq<Row>, row: Row)
    ensures Gaps(odom + [row]) ==
            Gaps(odom) + if odom == [] then 0 else NumberOf(row.sequence) - NumberOf(odom[|odom| - 1].sequence) - 1
  {
    assert (odom + [row])[..|odom|] == odom;
  }

  /** The skipped numbers telescope. */
  lemma {:induction false} GapsTelescope(odom: seq<Row>)
    requires odom != []
    ensures Gaps(odom) == NumberOf(odom[|odom| - 1].sequence) - NumberOf(odom[0].sequence) - (|odom| - 1)
  {
    if |odom| == 1 {
    } else {
      GapsTelescope(odom[..|odom| - 1]);
    }
  }

  /** The body of the loop: one row is refused, or yields its data point and the next state. */
  method Next(state: State, row: Row, start: int, earliest: int, ghost done: seq<Row>)
    returns (r: Option<(State, Point)>)
    requires AllFit(done) && Tracks(state, done, start) && row.kind.Some?
    requires Follows(Of(done, row.kind.value), row) ==> earliest <= row.observed.n
    ensures r.Some? <==> AllFit(done + [row])
    ensures r.Some? ==> Tracks(r.value.0, done + [row], start) && r.value.1 == PointOf(done + [row], start)
  {
    hide Of, Ages, AllFit, Follows, Total, Buckets;
    var kind := row.kind.value;
    assert TracksKind(state, kind, Of(done, kind), Ages(done, kind, start)) by { assert kind == Odom || kind == Clock; }
    LastDecides(done, row);
    FitsStep(done, row);
    if !(row.source.Int? && row.received.Int? && 0 < row.source.n <= row.received.n) { return None; }
    if !row.observed.Int? || row.observed.n < earliest
       || row.observed.n <= (if kind in state.previousObserved then state.previousObserved[kind] else 0) {
      return None;
    }
    var previousObserved := state.previousObserved[kind := row.observed.n];
    var counted := row.observed.n > start;
    var series := state.series[kind];
    if counted { series := Contribute(series, row.received.n - row.source.n, Ages(done, kind, start)); }
    assert series == SeriesOf(Ages(done + [row], kind, start)) by { OneMore(done, row, kind, start); }
    var next := state.(series := state.series[kind := series], previousObserved := previousObserved);
    var counters := None;
    if kind == Odom {
      if row.publishers != Int(1) || !row.sequence.Int? || !(0 <= row.sequence.n < UNSUPPORTED) { return None; }
      var lost := state.lost;
      if state.previousSequence.Some? {
        if row.sequence.n <= state.previousSequence.value { return None; }
        lost := lost + row.sequence.n - state.previousSequence.value - 1;
      }
      next := next.(previousSequence := Some(row.sequence.n), received := state.received + (if counted then 1 else 0),
        lost := lost);
      counters := Some(Counters(next.received, next.lost));
    }
    AdvancedTracks(state, next, done, row, start);
    PointFromState(next, done, row, start);
    r := Some((next, Point(kind, start, row.observed.n, series.count, series.sum, series.buckets, counters)));
  }

  lemma {:induction false} PointFromState(next: State, done: seq<Row>, row: Row, start: int)
    requires row.kind.Some? && row.observed.Int? && Tracks(next, done + [row], start)
    ensures var kind := row.kind.value; var series := SeriesOf(Ages(done + [row], kind, start));
            PointOf(done + [row], start) ==
            Point(kind, start, row.observed.n, series.count, series.sum, series.buckets,
                  if kind == Clock then None else Some(Counters(next.received, next.lost)))
  {
    hide Of, Ages, Gaps;
  }

  lemma {:induction false} FitsStep(done: seq<Row>, row: Row)
    requires AllFit(done)
    ensures AllFit(done + [row]) <==> row.kind.Some? && Follows(Of(done, row.kind.value), row)
  {
    assert (done + [row])[..|done|] == done;
  }

  /** The first and the last row of one kind, or nothing. */
  method Ends(sel: seq<Row>, kind: Kind) returns (first: Option<Row>, last: Option<Row>)
    ensures first.Some? <==> Of(sel, kind) != []
    ensures last.Some? <==> Of(sel, kind) != []
    ensures first.Some? ==> first.value == Of(sel, kind)[0] && last.value == Of(sel, kind)[|Of(sel, kind)| - 1]
  {
    first, last := None, None;
    for i := 0 to |sel|
      invariant first.Some? <==> Of(sel[..i], kind) != []
      invariant last.Some? <==> Of(sel[..i], kind) != []
      invariant first.Some? ==> first.value == Of(sel[..i], kind)[0]
      invariant first.Some? ==> last.value == Of(sel[..i], kind)[|Of(sel[..i], kind)| - 1]
    {
      assert sel[..i + 1][..i] == sel[..i];
      if sel[i].kind == Some(kind) {
        if first.None? { first := Some(sel[i]); }
        last := Some(sel[i]);
      }
    }
    assert sel[..|sel|] == sel;
  }

  lemma {:induction false} FitPrefix(sel: seq<Row>, n: nat)
    requires AllFit(sel) && n <= |sel|
    ensures AllFit(sel[..n])
    decreases |sel|
  {
    if n == |sel| {
      assert sel[..n] == sel;
    } else {
      assert sel[..|sel| - 1][..n] == sel[..n];
      FitPrefix(sel[..|sel| - 1], n);
    }
  }

  lemma {:induction false} OfPrefix(sel: seq<Row>, n: nat, kind: Kind)
    requires n <= |sel|
    ensures Of(sel[..n], kind) <= Of(sel, kind)
    decreases |sel|
  {
    if n == |sel| {
      assert sel[..n] == sel;
    } else {
      assert sel[..|sel| - 1][..n] == sel[..n];
      OfPrefix(sel[..|sel| - 1], n, kind);
    }
  }

  /** A row that fits is not before the first row of its kind. */
  lemma {:induction false} NotBeforeFirst(sel: seq<Row>, k: nat)
    requires k < |sel| && sel[k].kind.Some? && Follows(Of(sel[..k], sel[k].kind.value), sel[k])
    ensures Of(sel, sel[k].kind.value) != []
    ensures NumberOf(Of(sel, sel[k].kind.value)[0].observed) <= sel[k].observed.n
  {
    var kind := sel[k].kind.value;
    OfPrefix(sel, k + 1, kind);
    assert sel[..k + 1][..k] == sel[..k];
    var earlier := Of(sel[..k], kind);
    assert Of(sel[..k + 1], kind) == earlier + [sel[k]];
    if earlier != [] { assert Precedes(earlier[0], sel[k]); }
  }

  lemma {:induction false} SelectedKinds(rows: seq<Row>)
    ensures forall i :: 0 <= i < |Selected(rows)| ==> Selected(rows)[i].kind.Some?
  {
    if rows == [] {
    } else {
      SelectedKinds(rows[..|rows| - 1]);
    }
  }

  method Derive(rows: seq<Row>, run: string) returns (r: Option<Derivation>)
    ensures r.Some? <==> Derivable(rows, run)
    ensures r.Some? ==>
              var sel := Selected(rows);
              r.value == Derivation(Start(sel), End(sel), Points(sel, Start(sel)), |Ages(sel, Odom, Start(sel))|,
                                    |Of(sel, Odom)|, Gaps(Of(sel, Odom)))
  {
    hide Of, Ages, AllFit, Selected, PointOf, Tracks, Follows;
    var ok, sel := Select(rows, run);
    if !ok { return None; }
    SelectedKinds(rows);
    var firstOdom, lastOdom := Ends(sel, Odom);
    var firstClock, lastClock := Ends(sel, Clock);
    if firstOdom.None? || firstClock.None? { return None; }
    if !firstOdom.value.observed.Int? || !lastOdom.value.observed.Int?
       || !firstClock.value.observed.Int? || !lastClock.value.observed.Int? { return None; }
    var starts := map[Odom := firstOdom.value.observed.n, Clock := firstClock.value.observed.n];
    var start := Min(starts[Odom], starts[Clock]);
    var end := Max(lastOdom.value.observed.n, lastClock.value.observed.n);
    if end <= start { return None; }
    var empty := Series(0, 0, seq(|BOUNDS| + 1, _ => 0));
    var state := State(map[Odom := empty, Clock := empty], map[], None, 0, 0);
    InitialState(state, start);
    var points: seq<Point> := [];
    for i := 0 to |sel|
      invariant AllFit(sel[..i]) && Tracks(state, sel[..i], start) && points == Points(sel[..i], start)
    {
      assert sel[..i] + [sel[i]] == sel[..i + 1];
      assert sel[..i + 1][..i] == sel[..i];
      if Follows(Of(sel[..i], sel[i].kind.value), sel[i]) { NotBeforeFirst(sel, i); }
      var earliest := if sel[i].kind.value == Odom then starts[Odom] else starts[Clock];
      var next := Next(state, sel[i], start, earliest, sel[..i]);
      if next.None? {
        if AllFit(sel) { FitPrefix(sel, i + 1); }
        return None;
      }
      state := next.value.0;
      points := points + [next.value.1];
    }
    assert sel[..|sel|] == sel;
    var callbacks := CountOdom(sel);
    TrackedCounters(state, sel, start);
    r := Some(Derivation(start, end, points, state.received, callbacks, state.lost));
  }

  lemma {:induction false} InitialState(state: State, start: int)
    requires state.series.Keys == {Odom, Clock} && state.previousObserved == map[] && state.previousSequence == None
    requires forall kind :: kind in state.series ==> state.series[kind] == Series(0, 0, seq(|BOUNDS| + 1, _ => 0))
    requires state.received == 0 && state.lost == 0
    ensures AllFit([]) && Tracks(state, [], start)
  {
    assert Buckets([]) == seq(|BOUNDS| + 1, _ => 0);
  }

  lemma {:induction false} TrackedCounters(state: State, done: seq<Row>, start: int)
    requires Tracks(state, done, start)
    ensures state.received == |Ages(done, Odom, start)| && state.lost == Gaps(Of(done, Odom))
  {
  }

  method CountOdom(sel: seq<Row>) returns (n: nat)
    ensures n == |Of(sel, Odom)|
  {
    n := 0;
    for i := 0 to |sel|
      invariant n == |Of(sel[..i], Odom)|
    {
      assert sel[..i + 1][..i] == sel[..i];
      if sel[i].kind == Some(Odom) { n := n + 1; }
    }
    assert sel[..|sel|] == sel;
  }

  // ---- what the points mean ----

  function SumTo(counts: seq<int>, n: nat): int
    requires n <= |counts|
  {
    if n == 0 then 0 else SumTo(counts, n - 1) + counts[n - 1]
  }

  /** A histogram counts every age once: the first i + 1 buckets together hold the ages up to bound i,
      all buckets together hold all of them. */
  lemma {:induction false} HistogramCounts(ages: seq<int>, n: nat)
    requires n <= |BOUNDS| + 1
    ensures SumTo(Buckets(ages), |BOUNDS| + 1) == |ages|
    ensures 0 < n <= |BOUNDS| ==> SumTo(Buckets(ages), n) == AtMost(ages, BOUNDS[n - 1])
  {
    hide Bucket, FirstBound;
    BelowBucket(ages, |BOUNDS| + 1);
    BelowBucket(ages, n);
    if 0 < n <= |BOUNDS| { BelowIsAtMost(ages, n); }
    AllBelow(ages);
  }

  /** The ages whose bucket is among the first n. */
  function Below(ages: seq<int>, n: nat): nat {
    if ages == [] then 0 else Below(ages[..|ages| - 1], n) + if Bucket(ages[|ages| - 1]) < n then 1 else 0
  }

  lemma {:induction false} BelowBucket(ages: seq<int>, n: nat)
    requires n <= |BOUNDS| + 1
    ensures SumTo(Buckets(ages), n) == Below(ages, n)
  {
    hide Bucket, FirstBound;
    if n == 0 {
      NoneBelowZero(ages);
    } else {
      BelowBucket(ages, n - 1);
      OneBucketMore(ages, n - 1);
    }
  }

  lemma {:induction false} NoneBelowZero(ages: seq<int>)
    ensures Below(ages, 0) == 0
  {
    if ages == [] {
    } else {
      NoneBelowZero(ages[..|ages| - 1]);
    }
  }

  lemma {:induction false} OneBucketMore(ages: seq<int>, b: nat)
    ensures Below(ages, b + 1) == Below(ages, b) + InBucket(ages, b)
  {
    if ages == [] {
    } else {
      OneBucketMore(ages[..|ages| - 1], b);
    }
  }

  lemma {:induction false} AllBelow(ages: seq<int>)
    ensures Below(ages, |BOUNDS| + 1) == |ages|
  {
    if ages == [] {
    } else {
      AllBelow(ages[..|ages| - 1]);
    }
  }

  lemma {:induction false} BelowIsAtMost(ages: seq<int>, n: nat)
    requires 0 < n <= |BOUNDS|
    ensures Below(ages, n) == AtMost(ages, BOUNDS[n - 1])
  {
    hide Bucket, FirstBound;
    if ages == [] {
    } else {
      BelowIsAtMost(ages[..|ages| - 1], n);
      BucketBound(ages[|ages| - 1], n - 1);
    }
  }

  lemma {:induction false} BucketBound(age: int, i: nat)
    requires i < |BOUNDS|
    ensures Bucket(age) <= i <==> age <= BOUNDS[i]
  {
    hide Bucket;
    var b := Bucket(age);
    if b <= i {
      assert BOUNDS[b] <= BOUNDS[i];
    } else {
      assert BOUNDS[i] < age;
    }
  }

  lemma {:induction false} PointsLength(sel: seq<Row>, start: int)
    requires AllFit(sel)
    ensures |Points(sel, start)| == |sel|
  {
    if sel == [] {
    } else {
      PointsLength(sel[..|sel| - 1], start);
    }
  }

  lemma {:induction false} PointIndex(sel: seq<Row>, start: int, k: nat)
    requires AllFit(sel) && k < |sel|
    ensures k < |Points(sel, start)| && sel[k].kind.Some?
    ensures Points(sel, start)[k] == PointOf(sel[..k + 1], start)
    decreases |sel|
  {
    PointsLength(sel, start);
    PointsLength(sel[..|sel| - 1], start);
    if k == |sel| - 1 {
      assert sel[..k + 1] == sel;
    } else {
      assert sel[..|sel| - 1][..k + 1] == sel[..k + 1];
      PointIndex(sel[..|sel| - 1], start, k);
    }
  }

  lemma {:induction false} AgesPrefix(sel: seq<Row>, n: nat, kind: Kind, start: int)
    requires n <= |sel|
    ensures Ages(sel[..n], kind, start) <= Ages(sel, kind, start)
    decreases |sel|
  {
    if n == |sel| {
      assert sel[..n] == sel;
    } else {
      assert sel[..|sel| - 1][..n] == sel[..n];
      AgesPrefix(sel[..|sel| - 1], n, kind, start);
    }
  }

  lemma {:induction false} AgesAreNatural(sel: seq<Row>, kind: Kind, start: int)
    ensures forall i :: 0 <= i < |Ages(sel, kind, start)| ==> Ages(sel, kind, start)[i] >= 0
  {
    if sel == [] {
    } else {
      AgesAreNatural(sel[..|sel| - 1], kind, start);
    }
  }

  /** More ages, larger sums and fuller buckets. */
  lemma {:induction false} LongerIsLarger(a: seq<int>, b: seq<int>)
    requires a <= b && forall i :: 0 <= i < |b| ==> b[i] >= 0
    ensures Total(a) <= Total(b)
    ensures forall i :: 0 <= i <= |BOUNDS| ==> Buckets(a)[i] <= Buckets(b)[i]
    decreases |b|
  {
    hide Bucket;
    if a == b {
    } else {
      LongerIsLarger(a, b[..|b| - 1]);
      forall i | 0 <= i <= |BOUNDS|
        ensures Buckets(a)[i] <= Buckets(b)[i]
      {
        assert InBucket(b[..|b| - 1], i) <= InBucket(b, i);
        assert Buckets(a)[i] <= Buckets(b[..|b| - 1])[i];
      }
    }
  }

  predicate Grows(a: Point, b: Point) {
    && a.time < b.time && a.count <= b.count && a.sum <= b.sum
    && |a.buckets| == |b.buckets| && (forall i :: 0 <= i < |a.buckets| ==> a.buckets[i] <= b.buckets[i])
    && (a.counters.Some? <==> b.counters.Some?)
    && (a.counters.Some? ==>
      a.counters.value.received <= b.counters.value.received && a.counters.value.lost <= b.counters.value.lost)
  }

  /** A cumulative series: later points of the same kind have a later time and are nowhere smaller. */
  lemma {:induction false} SeriesIsCumulative(sel: seq<Row>, start: int, j: nat, k: nat)
    requires AllFit(sel) && j < k < |sel| && sel[j].kind == sel[k].kind
    ensures |Points(sel, start)| == |sel|
    ensures Grows(Points(sel, start)[j], Points(sel, start)[k])
  {
    hide AllFit, Points, Ages, Buckets, Total, Gaps;
    PointsLength(sel, start);
    PointIndex(sel, start, j);
    PointIndex(sel, start, k);
    var kind := sel[k].kind.value;
    assert sel[..k + 1][..j + 1] == sel[..j + 1];
    AgesPrefix(sel[..k + 1], j + 1, kind, start);
    AgesAreNatural(sel[..k + 1], kind, start);
    LongerIsLarger(Ages(sel[..j + 1], kind, start), Ages(sel[..k + 1], kind, start));
    LaterRow(sel, j, k);
    GapsGrow(sel, j, k);
    assert |Buckets(Ages(sel[..j + 1], kind, start))| == |Buckets(Ages(sel[..k + 1], kind, start))| == |BOUNDS| + 1 by {
      BucketCount(Ages(sel[..j + 1], kind, start));
      BucketCount(Ages(sel[..k + 1], kind, start));
    }
  }

  lemma {:induction false} BucketCount(ages: seq<int>)
    ensures |Buckets(ages)| == |BOUNDS| + 1
  {
  }

  /** Where a row stands among the rows of its kind. */
  lemma {:induction false} LastOf(sel: seq<Row>, k: nat)
    requires k < |sel| && sel[k].kind.Some?
    ensures var own := Of(sel[..k + 1], sel[k].kind.value);
            own != [] && own[|own| - 1] == sel[k] && own <= Of(sel, sel[k].kind.value)
  {
    assert sel[..k + 1][..k] == sel[..k];
    OfPrefix(sel, k + 1, sel[k].kind.value);
  }

  lemma {:induction false} LaterRow(sel: seq<Row>, j: nat, k: nat)
    requires AllFit(sel) && j < k < |sel| && sel[j].kind.Some? && sel[j].kind == sel[k].kind
    ensures Precedes(sel[j], sel[k])
  {
    hide Of, AllFit;
    var kind := sel[k].kind.value;
    LastOf(sel, j);
    LastOf(sel, k);
    assert |Of(sel[..j + 1], kind)| < |Of(sel[..k + 1], kind)| by {
      assert sel[..k][..j + 1] == sel[..j + 1];
      OfPrefix(sel[..k], j + 1, kind);
      OneMore(sel[..k], sel[k], kind, 0);
      assert sel[..k] + [sel[k]] == sel[..k + 1];
    }
    KindIncreases(sel, kind);
    var own := Of(sel, kind);
    assert Precedes(own[|Of(sel[..j + 1], kind)| - 1], own[|Of(sel[..k + 1], kind)| - 1]);
  }

  predicate SingleSource(odom: seq<Row>) {
    && (forall i :: 0 <= i < |odom| ==> odom[i].kind == Some(Odom) && Numbered(odom[i]))
    && forall i, j :: 0 <= i < j < |odom| ==> Precedes(odom[i], odom[j])
  }

  /** Each later odometry row is at least one sequence number further. */
  lemma {:induction false} StepsFill(odom: seq<Row>, i: nat, j: nat)
    requires i <= j < |odom| && SingleSource(odom)
    ensures NumberOf(odom[j].sequence) - NumberOf(odom[i].sequence) >= j - i
    decreases j
  {
    if i == j {
    } else {
      StepsFill(odom, i, j - 1);
      assert Precedes(odom[j - 1], odom[j]);
    }
  }

  lemma {:induction false} GapsGrow(sel: seq<Row>, j: nat, k: nat)
    requires AllFit(sel) && j < k < |sel|
    ensures 0 <= Gaps(Of(sel[..j + 1], Odom)) <= Gaps(Of(sel[..k + 1], Odom))
  {
    hide Of, AllFit;
    KindIncreases(sel, Odom);
    var odom := Of(sel, Odom);
    assert SingleSource(odom);
    OfPrefix(sel, j + 1, Odom);
    OfPrefix(sel, k + 1, Odom);
    assert sel[..k + 1][..j + 1] == sel[..j + 1];
    OfPrefix(sel[..k + 1], j + 1, Odom);
    var a, b := Of(sel[..j + 1], Odom), Of(sel[..k + 1], Odom);
    if a != [] { GapsTelescope(a); }
    if b != [] { GapsTelescope(b); }
    if a != [] {
      StepsFill(odom, 0, |a| - 1);
      StepsFill(odom, |a| - 1, |b| - 1);
    } else if b != [] {
      StepsFill(odom, 0, |b| - 1);
    }
  }

  /** Every point lies inside the window. */
  lemma {:induction false} TimesInWindow(sel: seq<Row>, k: nat)
    requires AllFit(sel) && HasWindow(sel) && k < |sel|
    ensures |Points(sel, Start(sel))| == |sel|
    ensures Points(sel, Start(sel))[k].start == Start(sel) <= Points(sel, Start(sel))[k].time <= End(sel)
  {
    hide Of, AllFit, Points, Ages, Buckets, Total, Gaps;
    PointsLength(sel, Start(sel));
    PointIndex(sel, Start(sel), k);
    LastOf(sel, k);
    var kind := sel[k].kind.value;
    KindIncreases(sel, kind);
    var own, at := Of(sel, kind), |Of(sel[..k + 1], kind)| - 1;
    assert own[at] == sel[k];
    if at > 0 { assert Precedes(own[0], own[at]); }
    if at < |own| - 1 { assert Precedes(own[at], own[|own| - 1]); }
  }

  // ---- counters ----

  lemma {:induction false} LateRowsCount(sel: seq<Row>, start: int)
    requires AllFit(sel)
    requires Of(sel, Odom) != [] ==> start <= NumberOf(Of(sel, Odom)[0].observed)
    ensures |Ages(sel, Odom, start)| ==
            |Of(sel, Odom)| - if Of(sel, Odom) != [] && NumberOf(Of(sel, Odom)[0].observed) == start then 1 else 0
  {
    if sel == [] {
    } else {
      var before, row := sel[..|sel| - 1], sel[|sel| - 1];
      var earlier := Of(before, Odom);
      assert earlier != [] ==> Of(sel, Odom)[0] == earlier[0];
      LateRowsCount(before, start);
      if row.kind == Some(Odom) && earlier != [] { assert Precedes(earlier[0], row); }
    }
  }

  /** The totals of a derivation: the skipped sequence numbers complete the range of the observed ones,
      and the first odometry row is counted exactly when it is not the start of the window. */
  lemma {:induction false} CountersBalance(rows: seq<Row>, run: string)
    requires Derivable(rows, run)
    ensures var odom := Of(Selected(rows), Odom);
            Gaps(odom) + (|odom| - 1) == NumberOf(odom[|odom| - 1].sequence) - NumberOf(odom[0].sequence)
    ensures var sel := Selected(rows); var odom := Of(sel, Odom);
            |Ages(sel, Odom, Start(sel))| == if odom[0].observed == Int(Start(sel)) then |odom| - 1 else |odom|
  {
    hide Of, AllFit, Ages;
    GapsTelescope(Of(Selected(rows), Odom));
    LateRowsCount(Selected(rows), Start(Selected(rows)));
  }

  function Metadata(row: Row): Observation {
    Observation(Info(row.source, row.received, row.sequence), 1)
  }

  function TraceOf(odom: seq<Row>): seq<Observation> {
    seq(|odom|, i requires 0 <= i < |odom| => Metadata(odom[i]))
  }

  /** A strictly increasing sequence consists of its running maxima. */
  lemma {:induction false} IncreasingAreMaxima(numbers: seq<int>)
    requires forall i, j :: 0 <= i < j < |numbers| ==> numbers[i] < numbers[j]
    ensures Maxima(numbers) == numbers
  {
    if numbers == [] {
    } else {
      IncreasingAreMaxima(numbers[..|numbers| - 1]);
    }
  }

  lemma {:induction false} StreamOffersAll(odom: seq<Row>)
    requires SingleSource(odom)
    ensures |OfferedIn(TraceOf(odom))| == |odom|
    ensures forall i :: 0 <= i < |odom| ==> OfferedIn(TraceOf(odom))[i] == NumberOf(odom[i].sequence)
  {
    if odom == [] {
    } else {
      var before, row := odom[..|odom| - 1], odom[|odom| - 1];
      StreamOffersAll(before);
      assert TraceOf(odom)[..|odom| - 1] == TraceOf(before);
      assert Offered(Metadata(row)) == Some(row.sequence.n);
    }
  }

  /** A `MessageStream` fed with the same rows offers every number and accepts all of them. */
  lemma {:induction false} StreamAcceptsAll(odom: seq<Row>)
    requires SingleSource(odom)
    ensures Accepted(TraceOf(odom)) == OfferedIn(TraceOf(odom))
    ensures |OfferedIn(TraceOf(odom))| == |odom|
    ensures forall i :: 0 <= i < |odom| ==> OfferedIn(TraceOf(odom))[i] == NumberOf(odom[i].sequence)
  {
    StreamOffersAll(odom);
    var numbers := OfferedIn(TraceOf(odom));
    forall i, j | 0 <= i < j < |numbers|
      ensures numbers[i] < numbers[j]
    {
      assert Precedes(odom[i], odom[j]);
    }
    IncreasingAreMaxima(numbers);
  }

  /** Both accountings agree: the offline lost counter is the sum of the stream's lost deltas, every row is
      received by the stream, and none is a sequence error. */
  lemma {:induction false} OfflineAgreesWithStream(rows: seq<Row>, run: string)
    requires Derivable(rows, run)
    ensures var odom := Of(Selected(rows), Odom);
            Summed(TraceOf(odom)) == Totals(|odom|, Gaps(odom), 0)
  {
    hide Of, AllFit, OfferedIn, Maxima, Summed, Missing;
    var odom := Of(Selected(rows), Odom);
    KindIncreases(Selected(rows), Odom);
    StreamAcceptsAll(odom);
    GapsTelescope(odom);
    TotalsCount(TraceOf(odom));
    ReceivedAndLostFillTheRange(TraceOf(odom));
  }
}
