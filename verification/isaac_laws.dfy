/** What a marker on disk, a failure, or a clean-up means for every continuation of an Isaac episode.  The
    transition system is that of `IsaacEpisode`; the laws speak of its runs only. */
module IsaacLaws {
  import opened IsaacEpisode

  // ---- `cancel` on disk ----

  function OneStep(c: Config, done: nat): seq<Event> {
    if done < c.worker.steps then [Stepped] else []
  }

  /** All a worker at this point may still do once `cancel` is on disk. */
  function Future(c: Config, w: Worker): seq<Event> {
    match w
    case PollAction(name, _) => if name == Start then [SawStart] + OneStep(c, 0) else [SawRelease]
    case Physics(done) => OneStep(c, done)
    case Render(done) => if done == c.worker.frames then [WroteResult] else []
    case WriteResult => [WroteResult]
    case _ => []
  }

  lemma {:induction false} WorkIsBounded(c: Config, w: Work)
    requires Cancel in w.files && WaitsForMarker(w.worker)
    ensures var t := NextWork(c, w);
      w.log <= t.log && t.log + Future(c, t.worker) <= w.log + Future(c, w.worker)
  {
    match w.worker
    case CheckFresh(_) =>
    case Boot =>
    case Publish(_, _) =>
    case PollCancel(_, _) =>
    case PollAction(_, _) =>
    case PollEarlyRelease(_) =>
    case Physics(_) =>
    case Callback(_) =>
    case FinalCheck =>
    case Render(_) =>
    case WriteResult =>
    case Close =>
    case Failing =>
    case _ =>
  }

  lemma {:induction false} StepIsBounded(c: Config, s: State, a: Action)
    requires MoreInv(c, s) && Cancel in s.files
    ensures var t := Apply(c, s, a);
      Cancel in t.files && s.log <= t.log && t.log + Future(c, t.worker) <= s.log + Future(c, s.worker)
  {
    hide LogInv, ResultInv, CleanupInv, LaunchInv, CancelInv, MeasureInv, FilesInv, FactsInv, SeenInv;
    hide NextWork, NextMeasure, NextLaunch, NextCleanup, Post, CanPost;
    FilesStay(c, s, a);
    if a.WorkerStep? { WorkIsBounded(c, Work(s.worker, s.files, s.log)); }
  }

  lemma {:induction false} RunIsBounded(c: Config, s: State, after: seq<Action>)
    requires MoreInv(c, s) && Cancel in s.files
    ensures var t := Exec(c, s, after);
      s.log <= t.log && t.log + Future(c, t.worker) <= s.log + Future(c, s.worker)
    decreases |after|
  {
    hide MoreInv, Future, Apply;
    if after == [] {
    } else {
      StepIsBounded(c, s, after[0]);
      StepKeepsMore(c, s, after[0]);
      RunIsBounded(c, Apply(c, s, after[0]), after[1..]);
    }
  }

  lemma {:induction false} Reached(c: Config, before: seq<Action>)
    ensures MoreInv(c, Exec(c, INIT, before))
  {
    hide MoreInv;
    InitMore(c);
    RunKeepsMore(c, INIT, before);
  }

  /** Once `cancel` is on disk, the worker's history grows by no more than what its program point allows. */
  lemma {:induction false} CancelBoundsHistory(c: Config, before: seq<Action>, after: seq<Action>)
    requires Cancel in Exec(c, INIT, before).files
    ensures var s := Exec(c, INIT, before); var t := Exec(c, s, after);
      s.log <= t.log <= s.log + Future(c, s.worker)
  {
    hide Exec, Future, MoreInv;
    Reached(c, before);
    RunIsBounded(c, Exec(c, INIT, before), after);
  }

  /** In native stepping, at the check that follows it, or with frames still to render. */
  predicate BeforeLastCheck(c: Config, w: Worker) {
    w.Physics? || w.Callback? || w.FinalCheck? || (w.Render? && w.done != c.worker.frames)
  }

  lemma {:induction false} WrittenIsLogged(c: Config, s: State)
    requires Inv(c, s) && (EpisodeResult in s.files || s.worker == Exited(0) || s.phase == Measured)
    ensures WroteResult in s.log
  {
    hide FilesInv, LaunchInv, CancelInv;
    var steps := Steps(c.worker.steps);
    assert EpisodeResult in s.files;
    assert (steps + [WroteResult])[|steps|] == s.log[|steps|];
  }

  lemma {:induction false} NotWrittenYet(c: Config, s: State)
    requires Inv(c, s) && BeforeLastCheck(c, s.worker)
    ensures WroteResult !in s.log && WroteResult !in s.log + Future(c, s.worker)
    ensures |Future(c, s.worker)| <= 1 && (Future(c, s.worker) == [] || Future(c, s.worker) == [Stepped])
  {
    hide FilesInv, LaunchInv, CancelInv, MeasureInv, WorkerInv, ResultInv, CleanupInv;
    StepsHold(if s.worker.Physics? || s.worker.Callback? then s.worker.done else c.worker.steps);
  }

  lemma {:induction false} StepsHold(n: nat)
    ensures WroteResult !in Steps(n) && SawRelease !in Steps(n)
  {
    if n == 0 {
    } else {
      StepsHold(n - 1);
    }
  }

  /** A cancellation on disk stops an episode that has been started: from any point before the last check the
      worker takes at most one more step, and neither side completes the episode. */
  lemma {:induction false} CancelStopsEpisode(c: Config, before: seq<Action>, after: seq<Action>)
    requires var s := Exec(c, INIT, before); Cancel in s.files && BeforeLastCheck(c, s.worker)
    ensures var s := Exec(c, INIT, before); var t := Exec(c, s, after);
      && Incomplete(t)
      && (t.log == s.log || t.log == s.log + [Stepped])
  {
    hide Exec, Future, BeforeLastCheck, ReleaseInv, FactsInv, SeenInv;
    var s := Exec(c, INIT, before);
    var t := Exec(c, s, after);
    CancelBoundsHistory(c, before, after);
    Reached(c, before);
    NotWrittenYet(c, s);
    RunKeepsInv(c, s, after);
    if !Incomplete(t) {
      IncompleteMeans(c, t);
      WrittenIsLogged(c, t);
    }
  }

  lemma {:induction false} IncompleteMeans(c: Config, t: State)
    requires Inv(c, t) && !Incomplete(t)
    ensures EpisodeResult in t.files || t.worker == Exited(0) || t.phase == Measured
  {
    hide LogInv, FilesInv, WorkerInv, MeasureInv, CancelInv, ResultInv;
  }

  /** And past the last check it comes too late. */
  lemma {:induction false} CancelStopsExactly(c: Config, before: seq<Action>)
    requires var s := Exec(c, INIT, before); Cancel in s.files && PastStart(s.worker) && EpisodeResult !in s.files
    ensures var s := Exec(c, INIT, before);
      (exists after :: EpisodeResult in Exec(c, s, after).files) <==> !BeforeLastCheck(c, s.worker)
  {
    hide Exec, BeforeLastCheck, ReleaseInv, FactsInv, SeenInv;
    var s := Exec(c, INIT, before);
    Reached(c, before);
    if BeforeLastCheck(c, s.worker) {
      forall after
        ensures EpisodeResult !in Exec(c, s, after).files
      {
        CancelStopsEpisode(c, before, after);
      }
    } else {
      var after := ResultFollows(c, s);
      assert EpisodeResult in Exec(c, s, after).files;
    }
  }

  lemma {:induction false} ResultFollows(c: Config, s: State) returns (after: seq<Action>)
    requires Inv(c, s) && PastStart(s.worker) && EpisodeResult !in s.files && !BeforeLastCheck(c, s.worker)
    ensures EpisodeResult in Exec(c, s, after).files
  {
    hide LogInv, FilesInv, LaunchInv, MeasureInv, CancelInv, ResultInv, CleanupInv;
    var t := Apply(c, s, WorkerStep);
    if s.worker.WriteResult? {
      after := [WorkerStep];
      ExecFirst(c, s, WorkerStep, []);
      ExecNothing(c, t);
    } else {
      after := [WorkerStep, WorkerStep];
      ExecFirst(c, s, WorkerStep, [WorkerStep]);
      ExecFirst(c, t, WorkerStep, []);
      ExecNothing(c, Apply(c, t, WorkerStep));
    }
  }

  lemma {:induction false} ExecFirst(c: Config, s: State, a: Action, rest: seq<Action>)
    ensures Exec(c, s, [a] + rest) == Exec(c, Apply(c, s, a), rest)
  {
    hide Apply;
    assert ([a] + rest)[1..] == rest;
  }

  lemma {:induction false} ExecNothing(c: Config, s: State)
    ensures Exec(c, s, []) == s
  {
  }

  // ---- markers that were there before the worker ----

  /** The worker has not looked for this marker yet, and it is there. */
  predicate Stale(s: State) {
    s.worker.CheckFresh? &&
    ((s.worker.seen == 0 && Start in s.files) || (s.worker.seen <= 1 && Release in s.files) || Cancel in s.files)
  }

  predicate Unbooted(s: State) {
    Stale(s) || (s.worker.Exited? && s.worker.code != 0)
  }

  lemma {:induction false} StaleStays(c: Config, s: State, a: Action)
    requires MoreInv(c, s) && Unbooted(s) && !BeforeUp(s.launch)
    ensures var t := Apply(c, s, a);
      && Unbooted(t) && !BeforeUp(t.launch) && t.log == s.log
      && forall n :: n in t.files && n !in s.files ==> n == Start || n == Release || n == Cancel
  {
    hide LogInv, ResultInv, CleanupInv, LaunchInv, CancelInv, MeasureInv, WorkerInv, FactsInv, SeenInv;
    hide NextMeasure, NextCleanup, Post, CanPost;
    FilesStay(c, s, a);
    match a
    case LaunchStep => PostKeepsFiles(c, s, Cancel);
    case MeasureStep => PostKeepsFiles(c, s, Start);
    case CancelWrite => PostKeepsFiles(c, s, Cancel);
    case CleanupStep => PostKeepsFiles(c, s, Release);
    case _ =>
  }

  lemma {:induction false} StaleForever(c: Config, s: State, after: seq<Action>)
    requires MoreInv(c, s) && Unbooted(s) && !BeforeUp(s.launch)
    ensures var t := Exec(c, s, after);
      && Unbooted(t) && t.log == s.log
      && forall n :: n in t.files && n !in s.files ==> n == Start || n == Release || n == Cancel
    decreases |after|
  {
    hide MoreInv, Unbooted, Apply, BeforeUp;
    if after == [] {
    } else {
      StaleStays(c, s, after[0]);
      StepKeepsMore(c, s, after[0]);
      StaleForever(c, Apply(c, s, after[0]), after[1..]);
    }
  }

  /** A worker that finds any marker on starting never boots: it publishes nothing and exits with an error. */
  lemma {:induction false} StaleMarkerStops(c: Config, before: seq<Action>, after: seq<Action>)
    requires var s := Exec(c, INIT, before);
      s.worker == CheckFresh(0) && (Start in s.files || Release in s.files || Cancel in s.files)
    ensures var s := Exec(c, INIT, before); var t := Exec(c, s, after);
      && (t.worker.CheckFresh? || (t.worker.Exited? && t.worker.code != 0)) && t.log == []
      && forall n :: n in t.files && n !in s.files ==> n == Start || n == Release || n == Cancel
  {
    hide Exec, FactsInv, SeenInv;
    Reached(c, before);
    StaleForever(c, Exec(c, INIT, before), after);
  }

  // ---- a cancellation before the launch ----

  predicate Unlaunched(s: State) {
    s.cancelRequested && (s.launch.NotLaunched? || s.launch.Admitting? || s.launch.LaunchFailed?)
    && s.worker.NotCreated? && !s.dir
  }

  lemma {:induction false} UnlaunchedStays(c: Config, s: State, a: Action)
    requires Unlaunched(s)
    ensures Unlaunched(Apply(c, s, a))
  {
    hide NextMeasure, NextCleanup, Post, CanPost;
  }

  lemma {:induction false} UnlaunchedForever(c: Config, s: State, after: seq<Action>)
    requires Unlaunched(s)
    ensures Unlaunched(Exec(c, s, after))
    decreases |after|
  {
    hide Unlaunched, Apply;
    if after == [] {
    } else {
      UnlaunchedStays(c, s, after[0]);
      UnlaunchedForever(c, Apply(c, s, after[0]), after[1..]);
    }
  }

  /** A `cancel()` before the launch has checked for it prevents the launch: no directory and no container. */
  lemma {:induction false} CancelBeforeLaunch(c: Config, before: seq<Action>, after: seq<Action>)
    requires var s := Exec(c, INIT, before); s.cancelRequested && (s.launch.NotLaunched? || s.launch.Admitting?)
    ensures var t := Exec(c, Exec(c, INIT, before), after); t.worker.NotCreated? && !t.dir && t.files == map[]
  {
    hide Exec, LogInv, ResultInv, CleanupInv, CancelInv, MeasureInv, WorkerInv, FactsInv, SeenInv;
    var s := Exec(c, INIT, before);
    Reached(c, before);
    UnlaunchedForever(c, s, after);
    RunKeepsInv(c, s, after);
  }

  // ---- what `start` needs ----

  /** The number of the last observation that the worker has published while it waits for `start`. */
  function Shown(files: map<Name, Doc>): nat {
    if PausedState in files && files[PausedState].body.Paused? then files[PausedState].body.observation else 0
  }

  /** The host has seen what it needs before it may write `start`. */
  predicate SeenReady(m: Measure) {
    (m.Poll? && m.fact.ReadyFact?) || m == Live(false) || m == SeenLive(false) || m == PostStart
  }

  predicate Polls(w: Worker) {
    w.Publish? || w.PollCancel? || w.PollAction? || w.PollEarlyRelease?
  }

  ghost predicate ObservedInv(c: Config, worker: Worker, files: map<Name, Doc>) {
    && (PausedState in files ==> files[PausedState].author == c.worker.identity)
    && (Ready in files ==> files[Ready] == WorkerDoc(c, ReadyFacts))
    && (EpisodeResult !in files ==>
        && (worker.CheckFresh? || worker.NotCreated? || worker.Boot? ==> PausedState !in files)
        && (PausedState in files ==> files[PausedState].body == Paused(Start, Shown(files)) && Shown(files) >= 1)
        && (Polls(worker) ==> Shown(files) == worker.observation))
  }

  ghost predicate ObservingInv(c: Config, files: map<Name, Doc>, m: Measure) {
    && (m.Poll? && m.fact.NextPaused? && EpisodeResult !in files ==> 1 <= m.fact.seen <= Shown(files))
    && ((m.Poll? && m.fact.NextPaused?) || SeenReady(m) || Start in files ==> c.worker.identity == c.identity)
    && ((SeenReady(m) || Start in files) && EpisodeResult !in files ==> Shown(files) >= 2)
    && (m == Live(false) || m == SeenLive(false) || m == PostStart || Start in files ==> Ready in files)
  }

  lemma {:induction false} WorkKeepsObserved(c: Config, w: Work)
    requires ObservedInv(c, w.worker, w.files) && WaitsForMarker(w.worker)
    requires PastResult(w.worker) ==> EpisodeResult in w.files
    ensures var t := NextWork(c, w);
      && ObservedInv(c, t.worker, t.files)
      && (EpisodeResult !in t.files ==> EpisodeResult !in w.files && Shown(w.files) <= Shown(t.files))
  {
    match w.worker
    case CheckFresh(_) =>
    case Boot =>
    case Publish(_, _) =>
    case PollCancel(_, _) =>
    case PollAction(_, _) =>
    case PollEarlyRelease(_) =>
    case Physics(_) =>
    case Callback(_) =>
    case FinalCheck =>
    case Render(_) =>
    case WriteResult =>
    case Close =>
    case Failing =>
    case _ =>
  }

  /** A step of the host or of the outside world leaves the worker's facts alone. */
  lemma {:induction false} OthersKeepFacts(c: Config, s: State, a: Action)
    requires MoreInv(c, s) && !a.WorkerStep?
    ensures var t := Apply(c, s, a);
      && (forall n :: n in s.files ==> n in t.files && t.files[n] == s.files[n])
      && (forall n :: n in t.files && n !in s.files ==> n == Start || n == Release || n == Cancel)
      && (t.worker == s.worker || t.worker.Failing? || t.worker.Exited? ||
          (s.worker.NotCreated? && t.worker == CheckFresh(0)))
  {
    hide LogInv, ResultInv, CleanupInv, LaunchInv, CancelInv, MeasureInv, WorkerInv, FactsInv, SeenInv;
    hide NextMeasure, NextCleanup, Post, CanPost;
    PostKeepsFiles(c, s, Cancel);
    PostKeepsFiles(c, s, Start);
    PostKeepsFiles(c, s, Release);
  }

  lemma {:induction false} WorkerStepIsWork(c: Config, s: State)
    requires Inv(c, s)
    ensures var t, w := Apply(c, s, WorkerStep), NextWork(c, Work(s.worker, s.files, s.log));
      t.worker == w.worker && t.files == w.files
    ensures WaitsForMarker(s.worker) && (PastResult(s.worker) ==> EpisodeResult in s.files)
  {
    hide NextWork, LogInv, ResultInv, CleanupInv, LaunchInv, CancelInv, MeasureInv, FilesInv;
  }

  lemma {:induction false} StepKeepsObserved(c: Config, s: State, a: Action)
    requires MoreInv(c, s) && ObservedInv(c, s.worker, s.files)
    ensures var t := Apply(c, s, a);
      && ObservedInv(c, t.worker, t.files)
      && (EpisodeResult !in t.files ==> EpisodeResult !in s.files && Shown(s.files) <= Shown(t.files))
  {
    hide Inv, ReleaseInv, FactsInv, SeenInv, Apply;
    if a.WorkerStep? {
      WorkerStepIsWork(c, s);
      WorkKeepsObserved(c, Work(s.worker, s.files, s.log));
    } else {
      OthersKeepFacts(c, s, a);
    }
  }

  lemma {:induction false} PollObserves(c: Config, worker: Worker, files: map<Name, Doc>, fact: Fact, noError: bool)
    requires ObservedInv(c, worker, files) && ObservingInv(c, files, Poll(fact, noError))
    ensures ObservingInv(c, files, NextPoll(c, files, fact, noError))
  {
  }

  lemma {:induction false} MeasureKeepsObserving(c: Config, s: State)
    requires Inv(c, s) && ObservedInv(c, s.worker, s.files) && ObservingInv(c, s.files, s.measure)
    ensures ObservingInv(c, Apply(c, s, MeasureStep).files, Apply(c, s, MeasureStep).measure)
  {
    hide LogInv, ResultInv, CleanupInv, LaunchInv, CancelInv, MeasureInv, WorkerInv, ObservedInv;
    hide NextPoll, NextWork, NextLaunch, NextCleanup, Post, CanPost;
    PostKeepsFiles(c, s, Start);
    if s.measure.Poll? {
      hide ObservingInv;
      PollObserves(c, s.worker, s.files, s.measure.fact, s.measure.noError);
    }
  }

  lemma {:induction false} StepKeepsObserving(c: Config, s: State, a: Action)
    requires MoreInv(c, s) && ObservedInv(c, s.worker, s.files) && ObservingInv(c, s.files, s.measure)
    ensures ObservingInv(c, Apply(c, s, a).files, Apply(c, s, a).measure)
  {
    if a.MeasureStep? {
      MeasureKeepsObserving(c, s);
    } else {
      StepKeepsObserved(c, s, a);
      FilesStay(c, s, a);
      StartOnlyByMeasure(c, s, a);
    }
  }

  lemma {:induction false} StartOnlyByMeasure(c: Config, s: State, a: Action)
    requires MoreInv(c, s) && !a.MeasureStep?
    ensures Start in Apply(c, s, a).files ==> Start in s.files
    ensures SeenReady(Apply(c, s, a).measure) ==> SeenReady(s.measure)
    ensures Apply(c, s, a).measure.Poll? ==> Apply(c, s, a).measure == s.measure
  {
    hide LogInv, ResultInv, CleanupInv, LaunchInv, CancelInv, MeasureInv, FactsInv, SeenInv;
    hide NextMeasure, NextWork, NextLaunch, NextCleanup;
    if a.WorkerStep? { WorkerKeepsFiles(c, Work(s.worker, s.files, s.log)); }
  }

  lemma {:induction false} RunKeepsObserving(c: Config, s: State, actions: seq<Action>)
    requires MoreInv(c, s) && ObservedInv(c, s.worker, s.files) && ObservingInv(c, s.files, s.measure)
    ensures ObservedInv(c, Exec(c, s, actions).worker, Exec(c, s, actions).files)
    ensures ObservingInv(c, Exec(c, s, actions).files, Exec(c, s, actions).measure)
    decreases |actions|
  {
    hide MoreInv, Apply, ObservedInv, ObservingInv;
    if actions == [] {
    } else {
      StepKeepsObserved(c, s, actions[0]);
      StepKeepsObserving(c, s, actions[0]);
      StepKeepsMore(c, s, actions[0]);
      RunKeepsObserving(c, Apply(c, s, actions[0]), actions[1..]);
    }
  }

  /** `start` is written only for the host's own worker, which has booted and has shown itself paused at least
      twice. */
  lemma {:induction false} StartFollowsObservations(c: Config, actions: seq<Action>)
    ensures var s := Exec(c, INIT, actions);
      Start in s.files ==>
        && c.worker.identity == c.identity && Ready in s.files && s.files[Ready] == WorkerDoc(c, ReadyFacts)
        && (EpisodeResult in s.files || Shown(s.files) >= 2)
  {
    hide Exec, MoreInv;
    InitMore(c);
    RunKeepsObserving(c, INIT, actions);
  }

  // ---- a worker that is gone ----

  /** The host has not confirmed before `start` that the worker runs. */
  predicate BeforeLive(m: Measure) {
    m.NotMeasured? || m.AwaitLaunch? || (m.Poll? && !m.fact.ResultFact?) || m == Live(false) || m.MeasureFailed?
  }

  /** The host has not confirmed after the result that the worker runs. */
  predicate BeforeEnd(m: Measure) {
    m != SeenLive(true) && !m.Returned?
  }

  lemma {:induction false} ExitedStays(c: Config, s: State, a: Action)
    requires MoreInv(c, s) && s.worker.Exited?
    ensures Apply(c, s, a).worker == s.worker
  {
    hide LogInv, ResultInv, CleanupInv, LaunchInv, CancelInv, MeasureInv, FactsInv, SeenInv, FilesInv;
    hide NextLaunch, NextMeasure, NextCleanup, Post, CanPost;
  }

  lemma {:induction false} GoneMeasures(c: Config, s: State)
    requires s.worker.Exited?
    ensures var t := Apply(c, s, MeasureStep);
      && (BeforeLive(s.measure) ==> BeforeLive(t.measure) && t.files == s.files)
      && (BeforeEnd(s.measure) ==> BeforeEnd(t.measure) && (t.phase == Measured ==> s.phase == Measured))
  {
    hide Post, CanPost;
  }

  lemma {:induction false} GoneStays(c: Config, s: State, a: Action)
    requires MoreInv(c, s) && s.worker.Exited?
    ensures var t := Apply(c, s, a);
      && t.worker == s.worker
      && (BeforeLive(s.measure) && Start !in s.files ==> BeforeLive(t.measure) && Start !in t.files)
      && (BeforeEnd(s.measure) ==> BeforeEnd(t.measure) && (t.phase == Measured ==> s.phase == Measured))
  {
    hide MoreInv, Apply, BeforeLive, BeforeEnd;
    ExitedStays(c, s, a);
    if a.MeasureStep? {
      GoneMeasures(c, s);
    } else {
      StartOnlyByMeasure(c, s, a);
      MeasureStays(c, s, a);
    }
  }

  lemma {:induction false} MeasureStays(c: Config, s: State, a: Action)
    requires !a.MeasureStep?
    ensures var t := Apply(c, s, a);
      && (BeforeLive(s.measure) ==> BeforeLive(t.measure))
      && (BeforeEnd(s.measure) ==> BeforeEnd(t.measure)) && (t.phase == Measured ==> s.phase == Measured)
  {
    hide NextWork, NextLaunch, NextMeasure, NextCleanup, Post, CanPost;
  }

  lemma {:induction false} GoneForever(c: Config, s: State, after: seq<Action>)
    requires MoreInv(c, s) && s.worker.Exited?
    ensures var t := Exec(c, s, after);
      && (BeforeLive(s.measure) && Start !in s.files ==> BeforeLive(t.measure) && Start !in t.files)
      && (BeforeEnd(s.measure) ==> BeforeEnd(t.measure) && (t.phase == Measured ==> s.phase == Measured))
    decreases |after|
  {
    hide MoreInv, Apply, BeforeLive, BeforeEnd;
    if after == [] {
    } else {
      GoneStays(c, s, after[0]);
      StepKeepsMore(c, s, after[0]);
      GoneForever(c, Apply(c, s, after[0]), after[1..]);
    }
  }

  /** An exited worker is never started by the host, and an episode whose worker exits before the host has
      confirmed its end is never measured. */
  lemma {:induction false} GoneWorkerStops(c: Config, before: seq<Action>, after: seq<Action>)
    requires Exec(c, INIT, before).worker.Exited?
    ensures var s := Exec(c, INIT, before); var t := Exec(c, s, after);
      && (BeforeLive(s.measure) && Start !in s.files ==> Start !in t.files)
      && (BeforeEnd(s.measure) && s.phase != Measured ==> t.phase != Measured)
  {
    hide Exec, MoreInv, BeforeLive, BeforeEnd;
    Reached(c, before);
    GoneForever(c, Exec(c, INIT, before), after);
  }

  lemma {:induction false} ErrorStays(c: Config, s: State, fact: Fact, a: Action)
    requires MoreInv(c, s) && WorkerError in s.files && (s.measure == Poll(fact, false) || s.measure.MeasureFailed?)
    ensures var t := Apply(c, s, a);
      WorkerError in t.files && (t.measure == Poll(fact, false) || t.measure.MeasureFailed?)
  {
    hide LogInv, ResultInv, CleanupInv, LaunchInv, CancelInv, MeasureInv, FactsInv, SeenInv;
    hide NextWork, NextLaunch, NextCleanup, Post;
    FilesStay(c, s, a);
  }

  lemma {:induction false} ErrorForever(c: Config, s: State, fact: Fact, after: seq<Action>)
    requires MoreInv(c, s) && WorkerError in s.files && (s.measure == Poll(fact, false) || s.measure.MeasureFailed?)
    ensures var t := Exec(c, s, after); t.measure == Poll(fact, false) || t.measure.MeasureFailed?
    decreases |after|
  {
    hide MoreInv, Apply;
    if after == [] {
    } else {
      ErrorStays(c, s, fact, after[0]);
      StepKeepsMore(c, s, after[0]);
      ErrorForever(c, Apply(c, s, after[0]), fact, after[1..]);
    }
  }

  /** With an error fact on disk no poll that looks for it accepts any other fact. */
  lemma {:induction false} ErrorFactStopsPolling(c: Config, before: seq<Action>, after: seq<Action>)
    requires var s := Exec(c, INIT, before); WorkerError in s.files && s.measure.Poll? && !s.measure.noError
    ensures var s := Exec(c, INIT, before); var t := Exec(c, s, after);
      t.measure == s.measure || t.measure.MeasureFailed?
  {
    hide Exec, MoreInv;
    Reached(c, before);
    var s := Exec(c, INIT, before);
    ErrorForever(c, s, s.measure.fact, after);
  }

  // ---- `release` on disk ----

  predicate WaitsForStart(w: Worker) {
    w.PollEarlyRelease? || ((w.Publish? || w.PollCancel? || w.PollAction?) && w.waitingFor == Start)
  }

  predicate Leaving(s: State) {
    Release in s.files && (Start !in s.files ==>
      (WaitsForStart(s.worker) && !s.worker.Publish?) || s.worker.Failing? || s.worker.Exited?)
  }

  lemma {:induction false} LeavingStays(c: Config, s: State, a: Action)
    requires MoreInv(c, s) && Leaving(s)
    ensures Leaving(Apply(c, s, a))
  {
    hide LogInv, ResultInv, CleanupInv, LaunchInv, CancelInv, MeasureInv, FactsInv, SeenInv;
    hide NextMeasure, NextLaunch, NextCleanup, Post;
    FilesStay(c, s, a);
  }

  lemma {:induction false} LeavingForever(c: Config, s: State, after: seq<Action>)
    requires MoreInv(c, s) && Leaving(s)
    ensures Leaving(Exec(c, s, after))
    decreases |after|
  {
    hide MoreInv, Apply, Leaving;
    if after == [] {
    } else {
      LeavingStays(c, s, after[0]);
      StepKeepsMore(c, s, after[0]);
      LeavingForever(c, Apply(c, s, after[0]), after[1..]);
    }
  }

  /** A worker that waits for `start` does not wait another round once `release` is on disk. */
  lemma {:induction false} ReleaseEndsWaiting(c: Config, before: seq<Action>, after: seq<Action>)
    requires var s := Exec(c, INIT, before);
      Release in s.files && Start !in s.files && WaitsForStart(s.worker) && !s.worker.Publish?
    ensures var t := Exec(c, Exec(c, INIT, before), after); Start in t.files || !t.worker.Publish?
  {
    hide Exec, MoreInv;
    Reached(c, before);
    LeavingForever(c, Exec(c, INIT, before), after);
  }

  // ---- clean-up ----

  predicate MissedWorker(k: Cleanup) {
    k == FinalOwning(false, false) || k == Downing(false, false) || k == CleanupReturned(false, false)
  }

  lemma {:induction false} FoundStays(c: Config, s: State, a: Action)
    requires MoreInv(c, s) && !s.worker.NotCreated? && !MissedWorker(s.cleanup)
    ensures var t := Apply(c, s, a); !t.worker.NotCreated? && !MissedWorker(t.cleanup)
  {
    hide LogInv, ResultInv, CleanupInv, LaunchInv, CancelInv, MeasureInv, FilesInv, FactsInv, SeenInv;
    hide NextMeasure, Post, CanPost, NextWork;
    if a.WorkerStep? { WorkStaysCreated(c, Work(s.worker, s.files, s.log)); }
  }

  lemma {:induction false} WorkStaysCreated(c: Config, w: Work)
    requires !w.worker.NotCreated?
    ensures !NextWork(c, w).worker.NotCreated?
  {
  }

  lemma {:induction false} FoundForever(c: Config, s: State, after: seq<Action>)
    requires MoreInv(c, s) && !s.worker.NotCreated? && !MissedWorker(s.cleanup)
    ensures !MissedWorker(Exec(c, s, after).cleanup)
    decreases |after|
  {
    hide MoreInv, Apply, MissedWorker;
    if after == [] {
    } else {
      FoundStays(c, s, after[0]);
      StepKeepsMore(c, s, after[0]);
      FoundForever(c, Apply(c, s, after[0]), after[1..]);
    }
  }

  /** A clean-up that looks for a worker when there is one cannot miss it: if it reports no error, it has seen the
      whole episode. */
  lemma {:induction false} CleanupFindsWorker(c: Config, before: seq<Action>, after: seq<Action>)
    requires var s := Exec(c, INIT, before); !s.worker.NotCreated? && (s.cleanup.NotCleaned? || s.cleanup.Owning?)
    ensures var t := Exec(c, Exec(c, INIT, before), after);
      t.cleanup.CleanupReturned? && !t.cleanup.errors ==>
        t.worker == Exited(0) && t.log == Episode(c.worker.steps) && EpisodeResult in t.files
  {
    hide Exec, LogInv, ResultInv, LaunchInv, CancelInv, MeasureInv, FilesInv, FactsInv, SeenInv;
    var s := Exec(c, INIT, before);
    Reached(c, before);
    FoundForever(c, s, after);
    RunKeepsMore(c, s, after);
    var t := Exec(c, s, after);
    if t.cleanup.CleanupReturned? && !t.cleanup.errors { EndedByRelease(c, t); }
  }

  lemma {:induction false} EndedByRelease(c: Config, t: State)
    requires MoreInv(c, t) && t.cleanup == CleanupReturned(true, false)
    ensures t.worker == Exited(0) && t.log == Episode(c.worker.steps) && EpisodeResult in t.files
  {
  }

  /** And it can see it: an episode that is measured can be shut down without an error. */
  lemma {:induction false} WholeEpisodeCanRun(c: Config) returns (before: seq<Action>, after: seq<Action>)
    requires c.worker == WorkerArgs(c.identity, c.steps, c.worker.frames)
    ensures var s := Exec(c, INIT, before); var t := Exec(c, s, after);
      && s.phase == Measured && s.cleanup.NotCleaned?
      && t.phase == Released && t.cleanup == CleanupReturned(true, false) && t.worker == Exited(0)
      && t.log == Episode(c.worker.steps)
  {
    hide Exec, MoreInv, LogInv;
    var launching := [MeasureCall, LaunchStep, LaunchStep, LaunchStep, LaunchStep, LaunchStep];
    Launching(c);
    var s := LAUNCHED;
    var measuring := LaunchedLeads(c, s);
    ExecConcat(c, INIT, launching, measuring);
    before := launching + measuring;
    after := ShutDown(c, Exec(c, INIT, before));
    Reached(c, before + after);
    ExecConcat(c, INIT, before, after);
    EndedByRelease(c, Exec(c, INIT, before + after));
  }

  lemma {:induction false} ExecConcat(c: Config, s: State, a: seq<Action>, b: seq<Action>)
    ensures Exec(c, s, a + b) == Exec(c, Exec(c, s, a), b)
    decreases |a|
  {
    hide Apply;
    if a == [] {
      assert a + b == b;
    } else {
      assert (a + b)[1..] == a[1..] + b;
      ExecConcat(c, Apply(c, s, a[0]), a[1..], b);
    }
  }

  const LAUNCHED :=
    INIT.(dir := true, phase := PausedPhase, launch := Launched, measure := AwaitLaunch, tracked := true,
          worker := CheckFresh(0))

  lemma {:induction false} Launching(c: Config)
    ensures Exec(c, INIT, [MeasureCall, LaunchStep, LaunchStep, LaunchStep, LaunchStep, LaunchStep]) == LAUNCHED
  {
    hide NextWork, NextPoll, Post;
    ExecFirst(c, INIT, MeasureCall, [LaunchStep, LaunchStep, LaunchStep, LaunchStep, LaunchStep]);
    var s := Apply(c, INIT, MeasureCall);
    ExecFirst(c, s, LaunchStep, [LaunchStep, LaunchStep, LaunchStep, LaunchStep]);
    s := Apply(c, s, LaunchStep);
    ExecFirst(c, s, LaunchStep, [LaunchStep, LaunchStep, LaunchStep]);
    s := Apply(c, s, LaunchStep);
    ExecFirst(c, s, LaunchStep, [LaunchStep, LaunchStep]);
    s := Apply(c, s, LaunchStep);
    ExecFirst(c, s, LaunchStep, [LaunchStep]);
    s := Apply(c, s, LaunchStep);
    ExecFirst(c, s, LaunchStep, []);
    ExecNothing(c, Apply(c, s, LaunchStep));
  }

  function ShutDownRank(k: Cleanup, w: Worker): nat {
    match k
    case NotCleaned => 20
    case Owning => 19
    case PostRelease => 18
    case Waiting =>
      if w.Publish? then 17 else if w.PollCancel? then 16 else if w.PollAction? then 15 else if w.Close? then 14 else 13
    case Inspecting(_) => 3
    case FinalOwning(_, _) => 2
    case Downing(_, _) => 1
    case CleanupReturned(_, _) => 0
  }

  /** A clean-up on its way to an error-free end, and a worker that follows `release`. */
  predicate ShuttingDown(c: Config, s: State) {
    && s.dir && s.tracked && Cancel !in s.files
    && (Release in s.files ==> s.files[Release] == MarkerDoc(c, Release)) && c.worker.identity == c.identity
    && match s.cleanup
       case NotCleaned => s.worker == Publish(Release, 0)
       case Owning => s.worker == Publish(Release, 0)
       case PostRelease => s.worker == Publish(Release, 0)
       case Waiting => Release in s.files && (s.worker == Publish(Release, 0) || s.worker == PollCancel(Release, 1)
                         || s.worker == PollAction(Release, 1) || s.worker == Close || s.worker == Exited(0))
       case Inspecting(errors) => !errors && s.worker == Exited(0)
       case FinalOwning(found, errors) => found && !errors && s.worker == Exited(0)
       case Downing(found, errors) => found && !errors && s.worker == Exited(0)
       case CleanupReturned(found, errors) => found && !errors && s.worker == Exited(0) && s.phase == Released
  }

  function NextShutDown(s: State): Action {
    if s.cleanup.NotCleaned? then CleanupCall
    else if s.cleanup.Waiting? && !s.worker.Exited? then WorkerStep
    else CleanupStep
  }

  lemma {:induction false} WorkerAdvances(c: Config, s: State)
    requires ShuttingDown(c, s) && s.cleanup.Waiting? && !s.worker.Exited?
    ensures var t := Apply(c, s, WorkerStep);
      ShuttingDown(c, t) && ShutDownRank(t.cleanup, t.worker) < ShutDownRank(s.cleanup, s.worker)
  {
    hide NextMeasure, NextLaunch, NextCleanup;
  }

  lemma {:induction false} CleanupAdvances(c: Config, s: State)
    requires ShuttingDown(c, s) && !s.cleanup.CleanupReturned? && !s.cleanup.NotCleaned?
    requires s.cleanup.Waiting? ==> s.worker.Exited?
    ensures var t := Apply(c, s, CleanupStep);
      ShuttingDown(c, t) && ShutDownRank(t.cleanup, t.worker) < ShutDownRank(s.cleanup, s.worker)
  {
    hide NextMeasure, NextLaunch, NextWork;
  }

  lemma {:induction false} ShutDownAdvances(c: Config, s: State)
    requires ShuttingDown(c, s) && !s.cleanup.CleanupReturned?
    ensures var t := Apply(c, s, NextShutDown(s));
      ShuttingDown(c, t) && ShutDownRank(t.cleanup, t.worker) < ShutDownRank(s.cleanup, s.worker)
  {
    hide NextMeasure, NextLaunch, NextWork, NextCleanup;
    if s.cleanup.NotCleaned? {
    } else if s.cleanup.Waiting? && !s.worker.Exited? {
      WorkerAdvances(c, s);
    } else {
      CleanupAdvances(c, s);
    }
  }

  lemma {:induction false} ShutDown(c: Config, s: State) returns (actions: seq<Action>)
    requires ShuttingDown(c, s)
    ensures var t := Exec(c, s, actions);
      t.phase == Released && t.cleanup == CleanupReturned(true, false) && t.worker == Exited(0)
    decreases ShutDownRank(s.cleanup, s.worker)
  {
    hide Apply, ShutDownRank, NextShutDown;
    if s.cleanup.CleanupReturned? {
      actions := [];
    } else {
      ShutDownAdvances(c, s);
      var rest := ShutDown(c, Apply(c, s, NextShutDown(s)));
      actions := [NextShutDown(s)] + rest;
      ExecFirst(c, s, NextShutDown(s), rest);
    }
  }

  // ---- how failures show ----

  /** The rank of a worker on its way to the report of a cancellation. */
  function ReportRank(c: Config, w: Worker): nat {
    if w.Physics? then 3 else if w.Failing? then 1 else 2
  }

  /** A cancelled episode that is left to itself ends with an error fact, and the worker exits with 1. */
  lemma {:induction false} CancellationIsReported(c: Config, s: State) returns (after: seq<Action>)
    requires Cancel in s.files && (BeforeLastCheck(c, s.worker) || s.worker.Failing?)
    ensures var t := Exec(c, s, after);
      WorkerError in t.files && t.files[WorkerError] == WorkerDoc(c, Diagnostic) && t.worker == Exited(1)
    decreases ReportRank(c, s.worker)
  {
    hide NextMeasure, NextLaunch, NextCleanup, Exec;
    var t := Apply(c, s, WorkerStep);
    if s.worker.Failing? {
      after := [WorkerStep];
      assert after == [WorkerStep] + [];
      ExecFirst(c, s, WorkerStep, []);
      ExecNothing(c, t);
    } else {
      var rest := CancellationIsReported(c, t);
      after := [WorkerStep] + rest;
      ExecFirst(c, s, WorkerStep, rest);
    }
  }

  /** The clean-up will report an error. */
  predicate Reporting(k: Cleanup) {
    match k
    case Inspecting(errors) => errors
    case FinalOwning(_, errors) => errors
    case Downing(_, errors) => errors
    case CleanupReturned(_, errors) => errors
    case _ => false
  }

  lemma {:induction false} ReportingStays(c: Config, s: State, a: Action)
    requires Reporting(s.cleanup)
    ensures Reporting(Apply(c, s, a).cleanup)
  {
    hide NextWork, NextMeasure, NextLaunch, Post, CanPost, FailWorker;
  }

  lemma {:induction false} ReportingForever(c: Config, s: State, after: seq<Action>)
    requires Reporting(s.cleanup)
    ensures Reporting(Exec(c, s, after).cleanup)
    decreases |after|
  {
    hide Apply, Reporting;
    if after == [] {
    } else {
      ReportingStays(c, s, after[0]);
      ReportingForever(c, Apply(c, s, after[0]), after[1..]);
    }
  }

  /** Whatever step of a clean-up fails, it does not return without an error. */
  lemma {:induction false} FailedCleanupReports(c: Config, s: State, after: seq<Action>)
    requires !s.cleanup.NotCleaned? && !s.cleanup.CleanupReturned?
    ensures var t := Exec(c, Apply(c, s, CleanupFail), after); t.cleanup.CleanupReturned? ==> t.cleanup.errors
  {
    hide Exec;
    ReportingForever(c, Apply(c, s, CleanupFail), after);
  }

  // ---- another episode's markers ----

  ghost predicate OwnStart(c: Config, worker: Worker, log: seq<Event>) {
    PastStart(worker) || log != [] ==> c.worker.identity == c.identity
  }

  lemma {:induction false} WorkKeepsOwn(c: Config, w: Work)
    requires OwnStart(c, w.worker, w.log) && WaitsForMarker(w.worker)
    requires PastResult(w.worker) ==> w.log != []
    requires Start in w.files ==> w.files[Start] == MarkerDoc(c, Start)
    ensures OwnStart(c, NextWork(c, w).worker, NextWork(c, w).log)
  {
    match w.worker
    case CheckFresh(_) =>
    case Boot =>
    case Publish(_, _) =>
    case PollCancel(_, _) =>
    case PollAction(_, _) =>
    case PollEarlyRelease(_) =>
    case Physics(_) =>
    case Callback(_) =>
    case FinalCheck =>
    case Render(_) =>
    case WriteResult =>
    case Close =>
    case Failing =>
    case _ =>
  }

  lemma {:induction false} StepKeepsOwn(c: Config, s: State, a: Action)
    requires MoreInv(c, s) && OwnStart(c, s.worker, s.log)
    ensures OwnStart(c, Apply(c, s, a).worker, Apply(c, s, a).log)
  {
    hide LaunchInv, CancelInv, MeasureInv, ResultInv, CleanupInv, FactsInv, SeenInv, ReleaseInv;
    hide NextWork, NextMeasure, NextLaunch, NextCleanup, Post, CanPost;
    if a.WorkerStep? {
      ResultIsLogged(c, s);
      WorkKeepsOwn(c, Work(s.worker, s.files, s.log));
    }
  }

  lemma {:induction false} ResultIsLogged(c: Config, s: State)
    requires Inv(c, s)
    ensures PastResult(s.worker) ==> s.log != []
    ensures Start in s.files ==> s.files[Start] == MarkerDoc(c, Start)
    ensures WaitsForMarker(s.worker)
  {
    hide LaunchInv, CancelInv, MeasureInv, CleanupInv;
  }

  lemma {:induction false} RunKeepsOwn(c: Config, s: State, actions: seq<Action>)
    requires MoreInv(c, s) && OwnStart(c, s.worker, s.log)
    ensures OwnStart(c, Exec(c, s, actions).worker, Exec(c, s, actions).log)
    decreases |actions|
  {
    hide MoreInv, Apply, OwnStart;
    if actions == [] {
    } else {
      StepKeepsOwn(c, s, actions[0]);
      StepKeepsMore(c, s, actions[0]);
      RunKeepsOwn(c, Apply(c, s, actions[0]), actions[1..]);
    }
  }

  /** A worker that was started for another episode never follows this one's `start`. */
  lemma {:induction false} ForeignWorkerNeverStarts(c: Config, actions: seq<Action>)
    requires c.worker.identity != c.identity
    ensures var s := Exec(c, INIT, actions);
      s.log == [] && EpisodeResult !in s.files && s.worker != Exited(0) && s.phase != Measured
  {
    hide Exec, LaunchInv, CancelInv, ReleaseInv, FactsInv, SeenInv;
    InitMore(c);
    RunKeepsOwn(c, INIT, actions);
    Reached(c, actions);
    var s := Exec(c, INIT, actions);
    if EpisodeResult in s.files || s.worker == Exited(0) || s.phase == Measured { WrittenIsLogged(c, s); }
  }
}
