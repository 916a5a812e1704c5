/** The finite Isaac episode: a host provider and a native worker that share nothing but one
    directory of create-once marker files (start, release, cancel) and fact files.

    `Apply` is one step of one participant.  A run is any finite sequence of actions; an action
    that is not enabled leaves the state alone.  Failures (aborted signals, deadlines, refused
    engine facts, killed containers) are actions of their own, so they may happen anywhere. */
module IsaacEpisode {

  datatype Name = Start | Release | Cancel | Ready | PausedState | EpisodeResult | WorkerError

  datatype Body =
    | Marker(action: Name)
    | ReadyFacts
    | Paused(waitingFor: Name, observation: nat)
    | Completed(steps: nat)
    | Diagnostic

  /** Whom a file belongs to: the run that owns the episode and its private token. */
  datatype Identity = Identity(owner: string, token: string)

  /** A JSON file of the episode directory. */
  datatype Doc = Doc(author: Identity, body: Body)

  /** What the worker container was started with; the host passes these through Compose. */
  datatype WorkerArgs = WorkerArgs(identity: Identity, steps: nat, frames: nat)

  datatype Config = Config(identity: Identity, steps: nat, worker: WorkerArgs)

  datatype Phase = Unstarted | PausedPhase | Measuring | Measured | Released

  /** Program points of `launch`: before the cancellation check, between that check and mkdir,
      between mkdir and `track`, before `up`, before `ps`, the echo of an early cancel. */
  datatype Launch = NotLaunched | Admitting | Checked | Made | Tracked | Listing | Echo | Launched | LaunchFailed

  datatype Fact = FirstPaused | NextPaused(seen: nat) | ReadyFact(current: Doc) | ResultFact

  /** Program points of `observeEpisode`, with `ready` and `fact` inlined.  A poll first looks for
      the worker's error file and then for the awaited one. */
  datatype Measure =
    | NotMeasured
    | AwaitLaunch
    | Poll(fact: Fact, noError: bool)
    | Live(started: bool)
    | SeenLive(started: bool)
    | PostStart
    | Returned
    | MeasureFailed

  /** Program points of the tracked `cleanup`.  `Downing` lies between the effect of the final `down` and its
      return. */
  datatype Cleanup =
    | NotCleaned
    | Owning
    | PostRelease
    | Waiting
    | Inspecting(errors: bool)
    | FinalOwning(found: bool, errors: bool)
    | Downing(found: bool, errors: bool)
    | CleanupReturned(found: bool, errors: bool)

  /** Program points of the worker.  `waitingFor` is the `action` argument of `wait_paused_phase`. */
  datatype Worker =
    | NotCreated
    | CheckFresh(seen: nat)
    | Boot
    | Publish(waitingFor: Name, observation: nat)
    | PollCancel(waitingFor: Name, observation: nat)
    | PollAction(waitingFor: Name, observation: nat)
    | PollEarlyRelease(observation: nat)
    | Physics(done: nat)
    | Callback(done: nat)
    | FinalCheck
    | Render(done: nat)
    | WriteResult
    | Close
    | Failing
    | Exited(code: int)

  datatype Event = SawStart | Stepped | WroteResult | SawRelease

  /** `log` and `honoured` only record history: what the worker did so far, and whether a `cancel()` issued
      outside phase `released` has returned while `start` was not on disk. */
  datatype State = State(
    dir: bool,
    files: map<Name, Doc>,
    phase: Phase,
    cancelRequested: bool,
    launch: Launch,
    measure: Measure,
    cancelling: nat,
    tracked: bool,
    cleanup: Cleanup,
    worker: Worker,
    log: seq<Event>,
    honoured: bool)

  datatype Action =
    | ReadyCall | LaunchStep | LaunchFail
    | MeasureCall | MeasureStep | MeasureFail
    | CancelCall | CancelWrite
    | CleanupCall | CleanupStep | CleanupFail
    | WorkerStep | WorkerFail | WorkerKill(code: int)

  const INIT := State(false, map[], Unstarted, false, NotLaunched, NotMeasured, 0, false, NotCleaned,
                      NotCreated, [], false)

  function Exec(c: Config, s: State, actions: seq<Action>): State
    decreases |actions|
  {
    if actions == [] then s else Exec(c, Apply(c, s, actions[0]), actions[1..])
  }

  // ---- the shared directory ----

  function MarkerDoc(c: Config, name: Name): Doc {
    Doc(c.identity, Marker(name))
  }

  function WorkerDoc(c: Config, body: Body): Doc {
    Doc(c.worker.identity, body)
  }

  /** The exclusive create of a marker succeeds, or finds its own content already there. */
  predicate CanPost(c: Config, dir: bool, files: map<Name, Doc>, name: Name) {
    dir && (name in files ==> files[name] == MarkerDoc(c, name))
  }

  function Post(c: Config, dir: bool, files: map<Name, Doc>, name: Name): map<Name, Doc> {
    if CanPost(c, dir, files, name) then files[name := MarkerDoc(c, name)] else files
  }

  datatype Look = Absent | Mine | Theirs

  /** The worker's `phase_marker`. */
  function LookMarker(c: Config, files: map<Name, Doc>, name: Name): Look {
    if name !in files then Absent
    else if files[name] == WorkerDoc(c, Marker(name)) then Mine
    else Theirs
  }

  /** The host's `fact`, once the error file was found absent. */
  function LookFact(c: Config, files: map<Name, Doc>, name: Name): Look {
    if name !in files then Absent
    else if files[name].author == c.identity then Mine
    else Theirs
  }

  // ---- the host ----

  function FactName(fact: Fact): Name {
    match fact
    case FirstPaused => PausedState
    case NextPaused(_) => PausedState
    case ReadyFact(_) => Ready
    case ResultFact => EpisodeResult
  }

  predicate Running(w: Worker) {
    !w.NotCreated? && !w.Exited?
  }

  function NextLaunch(c: Config, dir: bool, files: map<Name, Doc>, cancelRequested: bool, launch: Launch): Launch {
    match launch
    case Admitting => if cancelRequested then LaunchFailed else Checked
    case Checked => Made
    case Made => Tracked
    case Tracked => Listing
    case Listing => if cancelRequested then Echo else Launched
    case Echo => if CanPost(c, dir, files, Cancel) then Launched else LaunchFailed
    case _ => launch
  }

  function Accept(c: Config, fact: Fact, doc: Doc): Measure {
    match fact
    case FirstPaused =>
      if doc.body.Paused? then Poll(NextPaused(doc.body.observation), false) else MeasureFailed
    case NextPaused(seen) =>
      if !doc.body.Paused? then MeasureFailed
      else if doc.body.observation == seen then Poll(fact, false)
      else Poll(ReadyFact(doc), false)
    case ReadyFact(current) =>
      if current.body.Paused? && current.body.waitingFor == Start && doc.body.ReadyFacts?
      then Live(false) else MeasureFailed
    case ResultFact =>
      if doc.body == Completed(c.steps) then Live(true) else MeasureFailed
  }

  function NextPoll(c: Config, files: map<Name, Doc>, fact: Fact, noError: bool): Measure {
    if !noError then if WorkerError in files then MeasureFailed else Poll(fact, true)
    else
      match LookFact(c, files, FactName(fact))
      case Absent => Poll(fact, false)
      case Theirs => MeasureFailed
      case Mine => Accept(c, fact, files[FactName(fact)])
  }

  function NextMeasure(c: Config, dir: bool, files: map<Name, Doc>, launch: Launch, worker: Worker,
      m: Measure): Measure {
    match m
    case AwaitLaunch =>
      if launch.Launched? then Poll(FirstPaused, false) else if launch.LaunchFailed? then MeasureFailed else m
    case Poll(fact, noError) => NextPoll(c, files, fact, noError)
    case Live(started) => if Running(worker) then SeenLive(started) else MeasureFailed
    case SeenLive(started) => if started then Returned else PostStart
    case PostStart => if CanPost(c, dir, files, Start) then Poll(ResultFact, false) else MeasureFailed
    case _ => m
  }

  function NextCleanup(c: Config, dir: bool, files: map<Name, Doc>, worker: Worker, k: Cleanup): Cleanup {
    match k
    case Owning => if worker.NotCreated? then FinalOwning(false, false) else PostRelease
    case PostRelease => if CanPost(c, dir, files, Release) then Waiting else FinalOwning(true, true)
    case Waiting => if worker.Exited? then Inspecting(worker.code != 0) else k
    case Inspecting(errors) => FinalOwning(true, errors || worker != Exited(0))
    case FinalOwning(found, errors) => Downing(found, errors)
    case Downing(found, errors) => CleanupReturned(found, errors)
    case _ => k
  }

  /** A failed check or job: before ownership is admitted nothing else runs; afterwards the final
      teardown is still attempted, and a failed teardown is itself an error. */
  function FailedCleanup(k: Cleanup): Cleanup {
    match k
    case Owning => CleanupReturned(false, true)
    case PostRelease => FinalOwning(true, true)
    case Waiting => Inspecting(true)
    case Inspecting(_) => FinalOwning(true, true)
    case FinalOwning(found, _) => CleanupReturned(found, true)
    case Downing(found, _) => CleanupReturned(found, true)
    case _ => k
  }

  // ---- the worker ----

  function FreshName(seen: nat): Name {
    if seen == 0 then Start else if seen == 1 then Release else Cancel
  }

  /** The part of the state a worker step may change. */
  datatype Work = Work(worker: Worker, files: map<Name, Doc>, log: seq<Event>)

  function Goto(w: Work, worker: Worker): Work {
    w.(worker := worker)
  }

  function PassCancel(c: Config, w: Work, next: Worker): Work {
    Goto(w, if LookMarker(c, w.files, Cancel).Absent? then next else Failing)
  }

  function PublishFact(c: Config, w: Work, name: Name, body: Body, next: Worker): Work {
    w.(worker := next, files := w.files[name := WorkerDoc(c, body)])
  }

  function NextWork(c: Config, w: Work): Work {
    match w.worker
    case CheckFresh(seen) =>
      if FreshName(seen) in w.files then Goto(w, Exited(2))
      else Goto(w, if seen < 2 then CheckFresh(seen + 1) else Boot)
    case Boot => PublishFact(c, w, Ready, ReadyFacts, Publish(Start, 0))
    case Publish(name, n) => PublishFact(c, w, PausedState, Paused(name, n + 1), PollCancel(name, n + 1))
    case PollCancel(name, n) => PassCancel(c, w, PollAction(name, n))
    case PollAction(name, n) =>
      (match LookMarker(c, w.files, name)
       case Mine =>
         if name == Start then Goto(w, Physics(0)).(log := w.log + [SawStart])
         else Goto(w, Close).(log := w.log + [SawRelease])
       case Absent => Goto(w, if name == Start then PollEarlyRelease(n) else Publish(name, n))
       case Theirs => Goto(w, Failing))
    case PollEarlyRelease(n) =>
      Goto(w, if LookMarker(c, w.files, Release).Absent? then Publish(Start, n) else Failing)
    case Physics(done) =>
      if done < c.worker.steps then Goto(w, Callback(done + 1)).(log := w.log + [Stepped])
      else Goto(w, FinalCheck)
    case Callback(done) => PassCancel(c, w, Physics(done))
    case FinalCheck => PassCancel(c, w, Render(0))
    case Render(done) =>
      if done == c.worker.frames then Goto(w, WriteResult) else PassCancel(c, w, Render(done + 1))
    case WriteResult =>
      PublishFact(c, w, EpisodeResult, Completed(c.worker.steps), Publish(Release, 0)).(log := w.log + [WroteResult])
    case Close => Goto(w, Exited(0))
    case Failing => PublishFact(c, w, WorkerError, Diagnostic, Exited(1))
    case _ => w
  }

  /** A raised exception; the argument parser and the renderer clean-up exit without an error fact. */
  function FailWorker(w: Worker): Worker {
    if !Running(w) then w
    else if w.CheckFresh? then Exited(2)
    else if w.Close? || w.Failing? then Exited(1)
    else Failing
  }

  predicate MayCallReady(phase: Phase) {
    phase.Unstarted? || phase.PausedPhase?
  }

  function Apply(c: Config, s: State, a: Action): State {
    match a
    case ReadyCall =>
      s.(launch := if MayCallReady(s.phase) && s.launch.NotLaunched? then Admitting else s.launch)
    case LaunchStep =>
      s.(launch := NextLaunch(c, s.dir, s.files, s.cancelRequested, s.launch),
         dir := s.dir || s.launch.Checked?,
         tracked := s.tracked || s.launch.Made?,
         worker := if s.launch.Tracked? then CheckFresh(0) else s.worker,
         phase := if s.launch.Listing? then PausedPhase else s.phase,
         files := if s.launch.Echo? then Post(c, s.dir, s.files, Cancel) else s.files)
    case LaunchFail =>
      s.(launch := if s.launch.NotLaunched? || s.launch.Launched? then s.launch else LaunchFailed)
    case MeasureCall =>
      s.(measure := if !s.measure.NotMeasured? then s.measure
                    else if MayCallReady(s.phase) then AwaitLaunch else MeasureFailed,
         launch := if s.measure.NotMeasured? && MayCallReady(s.phase) && s.launch.NotLaunched?
                   then Admitting else s.launch)
    case MeasureStep =>
      s.(measure := NextMeasure(c, s.dir, s.files, s.launch, s.worker, s.measure),
         phase := if s.measure == SeenLive(true) then Measured
                  else if s.measure == SeenLive(false) then Measuring else s.phase,
         files := if s.measure.PostStart? then Post(c, s.dir, s.files, Start) else s.files)
    case MeasureFail =>
      s.(measure := if s.measure.NotMeasured? || s.measure.Returned? then s.measure else MeasureFailed)
    case CancelCall =>
      s.(cancelRequested := s.cancelRequested || !s.phase.Released?,
         cancelling := if s.phase.Released? then s.cancelling else s.cancelling + 1)
    case CancelWrite =>
      // An absent directory is not an error of `cancel()`; a foreign marker is.
      if s.cancelling == 0 then s else
      s.(cancelling := s.cancelling - 1,
         files := Post(c, s.dir, s.files, Cancel),
         honoured := s.honoured || (Start !in s.files && (!s.dir || CanPost(c, s.dir, s.files, Cancel))))
    case CleanupCall =>
      s.(cleanup := if s.cleanup.NotCleaned? && s.tracked then Owning else s.cleanup)
    case CleanupStep =>
      // The final `down` stops a worker that still runs; the phase follows when it has returned.
      s.(cleanup := NextCleanup(c, s.dir, s.files, s.worker, s.cleanup),
         files := if s.cleanup.PostRelease? then Post(c, s.dir, s.files, Release) else s.files,
         phase := if s.cleanup.Downing? then Released else s.phase,
         worker := if s.cleanup.FinalOwning? && Running(s.worker) then Exited(137) else s.worker)
    case CleanupFail => s.(cleanup := FailedCleanup(s.cleanup))
    case WorkerStep =>
      var w := NextWork(c, Work(s.worker, s.files, s.log));
      s.(worker := w.worker, files := w.files, log := w.log)
    case WorkerFail => s.(worker := FailWorker(s.worker))
    case WorkerKill(code) => s.(worker := if Running(s.worker) && code != 0 then Exited(code) else s.worker)
  }

  // ---- what every run keeps ----

  function Steps(n: nat): seq<Event> {
    if n == 0 then [SawStart] else Steps(n - 1) + [Stepped]
  }

  /** A whole episode of `steps` physics steps, as the worker performs it. */
  function Episode(steps: nat): seq<Event> {
    Steps(steps) + [WroteResult, SawRelease]
  }

  /** Only the host writes markers, only the worker writes facts, and nothing is written before
      the directory exists. */
  ghost predicate FilesInv(c: Config, dir: bool, files: map<Name, Doc>) {
    && (!dir ==> files == map[])
    && (Start in files ==> files[Start] == MarkerDoc(c, Start))
    && (Release in files ==> files[Release] == MarkerDoc(c, Release))
    && (Cancel in files ==> files[Cancel] == MarkerDoc(c, Cancel))
    && (EpisodeResult in files ==> files[EpisodeResult] == WorkerDoc(c, Completed(c.worker.steps)))
  }

  ghost predicate LaunchInv(dir: bool, tracked: bool, launch: Launch) {
    && (launch.NotLaunched? || launch.Admitting? || launch.Checked? ==> !dir)
    && (launch.Made? || launch.Tracked? || launch.Listing? || launch.Echo? || launch.Launched? ==> dir)
    && (tracked ==> dir)
  }

  /** The host has accepted the result fact. */
  predicate Accepted(m: Measure) {
    m == Live(true) || m == SeenLive(true) || m == Returned
  }

  /** `launch` has resolved for `observeEpisode`. */
  predicate PastLaunch(m: Measure) {
    m.Poll? || m.Live? || m.SeenLive? || m.PostStart? || m.Returned?
  }

  ghost predicate MeasureInv(c: Config, files: map<Name, Doc>, launch: Launch, measure: Measure, phase: Phase) {
    && (PastLaunch(measure) || Start in files ==> launch.Launched?)
    && (Accepted(measure) || phase.Measured?
        ==> EpisodeResult in files && files[EpisodeResult] == Doc(c.identity, Completed(c.steps)))
  }

  ghost predicate CancelInv(files: map<Name, Doc>, launch: Launch, requested: bool, pending: nat, honoured: bool) {
    && (pending > 0 ==> requested)
    && (honoured && Cancel !in files ==> requested && !launch.Launched?)
  }

  /** The worker has read `start` and carries on with the episode. */
  predicate PastStart(w: Worker) {
    w.Physics? || w.Callback? || w.FinalCheck? || PastCheck(w)
  }

  /** The worker has also passed the cancellation check that follows native stepping. */
  predicate PastCheck(w: Worker) {
    w.Render? || w.WriteResult? || PastResult(w)
  }

  /** The worker has written its result and carries on. */
  predicate PastResult(w: Worker) {
    w == Exited(0) || w.Close? || ((w.Publish? || w.PollCancel? || w.PollAction?) && w.waitingFor == Release)
  }

  ghost predicate LogInv(steps: nat, worker: Worker, log: seq<Event>) {
    if worker.Failing? || (worker.Exited? && worker.code != 0) then log <= Episode(steps)
    else if worker.Physics? || worker.Callback? then worker.done <= steps && log == Steps(worker.done)
    else if worker.Close? || worker.Exited? then log == Episode(steps)
    else if PastResult(worker) then log == Steps(steps) + [WroteResult]
    else if PastStart(worker) then log == Steps(steps)
    else log == []
  }

  predicate WaitsForMarker(w: Worker) {
    w.Publish? || w.PollCancel? || w.PollAction? ==> w.waitingFor == Start || w.waitingFor == Release
  }

  ghost predicate WorkerInv(dir: bool, files: map<Name, Doc>, worker: Worker, log: seq<Event>, honoured: bool) {
    && WaitsForMarker(worker)
    && (!worker.NotCreated? ==> dir)
    && (PastStart(worker) || EpisodeResult in files || log != [] ==> Start in files)
    && (PastCheck(worker) || EpisodeResult in files ==> !honoured)
    && (PastResult(worker) ==> EpisodeResult in files)
  }

  /** What the host later relies on: the file cannot be there before its author got that far. */
  ghost predicate ResultInv(steps: nat, files: map<Name, Doc>, log: seq<Event>) {
    EpisodeResult in files ==> Steps(steps) + [WroteResult] <= log
  }

  ghost predicate CleanupInv(cleanup: Cleanup, worker: Worker) {
    && (cleanup == CleanupReturned(true, false) ==> worker == Exited(0))
    && (cleanup == FinalOwning(true, false) || cleanup == Downing(true, false) ==> worker == Exited(0))
    && (cleanup == Inspecting(false) ==> worker == Exited(0))
  }

  ghost predicate Inv(c: Config, s: State) {
    && FilesInv(c, s.dir, s.files)
    && LaunchInv(s.dir, s.tracked, s.launch)
    && MeasureInv(c, s.files, s.launch, s.measure, s.phase)
    && CancelInv(s.files, s.launch, s.cancelRequested, s.cancelling, s.honoured)
    && LogInv(c.worker.steps, s.worker, s.log)
    && WorkerInv(s.dir, s.files, s.worker, s.log, s.honoured)
    && ResultInv(c.worker.steps, s.files, s.log)
    && CleanupInv(s.cleanup, s.worker)
  }

  lemma {:induction false} EpisodePrefix(done: nat, steps: nat)
    requires done <= steps
    ensures Steps(done) != []
    ensures Steps(done) <= Steps(steps)
  {
    if done == steps {
    } else {
      EpisodePrefix(done, steps - 1);
    }
  }

  lemma {:induction false} LogIsPrefix(steps: nat, worker: Worker, log: seq<Event>)
    requires LogInv(steps, worker, log)
    ensures log <= Episode(steps)
  {
    EpisodePrefix(if worker.Physics? || worker.Callback? then worker.done else steps, steps);
  }

  /** The host only accepts a complete result of its own episode. */
  lemma {:induction false} PollAccepts(c: Config, files: map<Name, Doc>, fact: Fact, noError: bool)
    ensures var m := NextPoll(c, files, fact, noError);
      Accepted(m) ==> EpisodeResult in files && files[EpisodeResult] == Doc(c.identity, Completed(c.steps))
  {
  }

  /** Posting a marker keeps every invariant about the files, whatever its name. */
  lemma {:induction false} PostKeepsFiles(c: Config, s: State, name: Name)
    requires FilesInv(c, s.dir, s.files) && name != EpisodeResult
    ensures var files := Post(c, s.dir, s.files, name);
      && FilesInv(c, s.dir, files)
      && (forall n :: n in s.files ==> n in files && files[n] == s.files[n])
      && (forall n :: n in files && n !in s.files ==> n == name && s.dir)
      && (CanPost(c, s.dir, s.files, name) <==> s.dir && name in files && files[name] == MarkerDoc(c, name))
  {
  }

  lemma {:induction false} LaunchKeepsInv(c: Config, s: State)
    requires Inv(c, s)
    ensures Inv(c, Apply(c, s, LaunchStep))
  {
    hide Steps, Episode;
    PostKeepsFiles(c, s, Cancel);
  }

  /** One step of `observeEpisode` gets past `launch` only once it has resolved, and accepts a result only
      when the complete one is on disk. */
  lemma {:induction false} MeasureStepIsSound(c: Config, s: State)
    requires MeasureInv(c, s.files, s.launch, s.measure, s.phase)
    ensures var m := NextMeasure(c, s.dir, s.files, s.launch, s.worker, s.measure);
      && (PastLaunch(m) ==> s.launch.Launched?)
      && (Accepted(m) ==> EpisodeResult in s.files && s.files[EpisodeResult] == Doc(c.identity, Completed(c.steps)))
  {
    hide CanPost, NextPoll, Running;
    match s.measure
    case Poll(fact, noError) => PollAccepts(c, s.files, fact, noError);
    case _ =>
  }

  lemma {:induction false} MeasureKeepsHost(c: Config, s: State)
    requires Inv(c, s)
    ensures var t := Apply(c, s, MeasureStep);
      && MeasureInv(c, t.files, t.launch, t.measure, t.phase)
      && CancelInv(t.files, t.launch, t.cancelRequested, t.cancelling, t.honoured)
  {
    hide LogInv, WorkerInv, ResultInv, CleanupInv, LaunchInv, FilesInv, Post, CanPost, NextMeasure;
    PostKeepsFiles(c, s, Start);
    MeasureStepIsSound(c, s);
  }

  lemma {:induction false} MeasureKeepsInv(c: Config, s: State)
    requires Inv(c, s)
    ensures Inv(c, Apply(c, s, MeasureStep))
  {
    hide LogInv, CleanupInv, LaunchInv, FilesInv, MeasureInv, CancelInv;
    hide Post, CanPost, Steps, PastStart, PastCheck, PastResult, NextMeasure;
    PostKeepsFiles(c, s, Start);
    MeasureKeepsHost(c, s);
  }

  lemma {:induction false} CancelCallKeepsInv(c: Config, s: State)
    requires Inv(c, s)
    ensures Inv(c, Apply(c, s, CancelCall))
  {
    hide FilesInv, LaunchInv, MeasureInv, LogInv, WorkerInv, ResultInv, CleanupInv;
  }

  lemma {:induction false} CancelWriteKeepsInv(c: Config, s: State)
    requires Inv(c, s)
    ensures Inv(c, Apply(c, s, CancelWrite))
  {
    hide LogInv, CleanupInv, FilesInv, Post, CanPost, Steps, PastResult, WaitsForMarker, PastLaunch, Accepted;
    PostKeepsFiles(c, s, Cancel);
  }

  lemma {:induction false} CleanupFailKeepsInv(c: Config, s: State)
    requires Inv(c, s)
    ensures Inv(c, Apply(c, s, CleanupFail))
  {
    hide FilesInv, LaunchInv, MeasureInv, CancelInv, LogInv, WorkerInv, ResultInv;
  }

  lemma {:induction false} CleanupKeepsHost(c: Config, s: State)
    requires Inv(c, s)
    ensures var t := Apply(c, s, CleanupStep);
      && FilesInv(c, t.dir, t.files) && LaunchInv(t.dir, t.tracked, t.launch)
      && MeasureInv(c, t.files, t.launch, t.measure, t.phase)
      && CancelInv(t.files, t.launch, t.cancelRequested, t.cancelling, t.honoured)
      && ResultInv(c.worker.steps, t.files, t.log)
  {
    hide Steps, FilesInv, LogInv, WorkerInv, CleanupInv, NextCleanup, Post, CanPost, Accepted, PastLaunch;
    PostKeepsFiles(c, s, Release);
  }

  /** The final teardown stops a worker that still runs; an exited one stays as it was. */
  lemma {:induction false} CleanupKeepsWorker(c: Config, s: State)
    requires Inv(c, s)
    ensures var t := Apply(c, s, CleanupStep);
      && LogInv(c.worker.steps, t.worker, t.log) && CleanupInv(t.cleanup, t.worker)
  {
    hide Steps, Episode, FilesInv, MeasureInv, CancelInv, LaunchInv, ResultInv, WorkerInv, Post, CanPost;
    LogIsPrefix(c.worker.steps, s.worker, s.log);
  }

  lemma {:induction false} CleanupKeepsInv(c: Config, s: State)
    requires Inv(c, s)
    ensures Inv(c, Apply(c, s, CleanupStep))
  {
    hide FilesInv, MeasureInv, CancelInv, LaunchInv, ResultInv, LogInv, CleanupInv, NextCleanup, Post, CanPost;
    PostKeepsFiles(c, s, Release);
    CleanupKeepsHost(c, s);
    CleanupKeepsWorker(c, s);
  }

  lemma {:induction false} WorkerKeepsFiles(c: Config, w: Work)
    requires FilesInv(c, true, w.files) || w.worker.NotCreated?
    ensures var t := NextWork(c, w);
      && (FilesInv(c, true, w.files) ==> FilesInv(c, true, t.files))
      && (forall n :: n in w.files ==> n in t.files)
      && (EpisodeResult in w.files ==> t.files[EpisodeResult] == w.files[EpisodeResult])
      && (Start in t.files <==> Start in w.files)
      && (Cancel in t.files <==> Cancel in w.files)
      && (w.worker.Exited? || w.worker.NotCreated? ==> t == w)
  {
    match w.worker
    case CheckFresh(_) =>
    case Boot =>
    case Publish(_, _) =>
    case PollCancel(_, _) =>
    case PollAction(_, _) =>
    case PollEarlyRelease(_) =>
    case Physics(_) =>
    case Callback(_) =>
    case FinalCheck =>
    case Render(_) =>
    case WriteResult =>
    case Close =>
    case Failing =>
    case _ =>
  }

  lemma {:induction false} WorkerKeepsLog(c: Config, w: Work)
    requires LogInv(c.worker.steps, w.worker, w.log) && ResultInv(c.worker.steps, w.files, w.log)
    requires WaitsForMarker(w.worker)
    ensures var t := NextWork(c, w);
      LogInv(c.worker.steps, t.worker, t.log) && ResultInv(c.worker.steps, t.files, t.log)
  {
    LogIsPrefix(c.worker.steps, w.worker, w.log);
    match w.worker
    case CheckFresh(_) =>
    case Boot =>
    case Publish(_, _) =>
    case PollCancel(_, _) =>
    case PollAction(_, _) =>
    case PollEarlyRelease(_) =>
    case Physics(_) =>
    case Callback(_) =>
    case FinalCheck =>
    case Render(_) =>
    case WriteResult =>
    case Close =>
    case Failing =>
    case _ =>
  }

  /** `start` was read before anything after it, and no cancellation was promised to a worker
      that passed the check which follows native stepping. */
  lemma {:induction false} WorkerKeepsOrder(c: Config, w: Work, honoured: bool)
    requires WorkerInv(true, w.files, w.worker, w.log, honoured)
    requires honoured && Start in w.files ==> Cancel in w.files
    ensures var t := NextWork(c, w); WorkerInv(true, t.files, t.worker, t.log, honoured)
  {
    match w.worker
    case CheckFresh(_) =>
    case Boot =>
    case Publish(_, _) =>
    case PollCancel(_, _) =>
    case PollAction(_, _) =>
    case PollEarlyRelease(_) =>
    case Physics(_) =>
    case Callback(_) =>
    case FinalCheck =>
    case Render(_) =>
    case WriteResult =>
    case Close =>
    case Failing =>
    case _ =>
  }

  lemma {:induction false} WorkerKeepsInv(c: Config, s: State)
    requires Inv(c, s)
    ensures Inv(c, Apply(c, s, WorkerStep))
  {
    hide NextWork, LogInv, ResultInv;
    var w := Work(s.worker, s.files, s.log);
    WorkerKeepsFiles(c, w);
    if !s.worker.NotCreated? {
      WorkerKeepsLog(c, w);
      WorkerKeepsOrder(c, w, s.honoured);
    }
  }

  lemma {:induction false} FailureKeepsInv(c: Config, s: State, code: int)
    requires Inv(c, s)
    ensures Inv(c, Apply(c, s, WorkerFail)) && Inv(c, Apply(c, s, WorkerKill(code)))
  {
    hide Steps, Episode, FilesInv, MeasureInv, CancelInv, LaunchInv, ResultInv;
    LogIsPrefix(c.worker.steps, s.worker, s.log);
  }

  lemma {:induction false} LaunchCallKeepsInv(c: Config, s: State)
    requires Inv(c, s)
    ensures Inv(c, Apply(c, s, ReadyCall)) && Inv(c, Apply(c, s, LaunchFail))
  {
    hide FilesInv, LogInv, WorkerInv, ResultInv, CleanupInv;
  }

  lemma {:induction false} MeasureCallKeepsInv(c: Config, s: State)
    requires Inv(c, s)
    ensures Inv(c, Apply(c, s, MeasureCall))
  {
    hide FilesInv, LogInv, WorkerInv, ResultInv, CleanupInv;
  }

  lemma {:induction false} MeasureFailKeepsInv(c: Config, s: State)
    requires Inv(c, s)
    ensures Inv(c, Apply(c, s, MeasureFail))
  {
    hide FilesInv, LaunchInv, CancelInv, LogInv, WorkerInv, ResultInv, CleanupInv;
  }

  lemma {:induction false} CleanupCallKeepsInv(c: Config, s: State)
    requires Inv(c, s)
    ensures Inv(c, Apply(c, s, CleanupCall))
  {
    hide FilesInv, LogInv, WorkerInv, ResultInv, MeasureInv, CancelInv;
  }

  lemma {:induction false} ApplyKeepsInv(c: Config, s: State, a: Action)
    requires Inv(c, s)
    ensures Inv(c, Apply(c, s, a))
  {
    hide Inv, Apply;
    match a
    case LaunchStep => LaunchKeepsInv(c, s);
    case MeasureStep => MeasureKeepsInv(c, s);
    case CancelCall => CancelCallKeepsInv(c, s);
    case CancelWrite => CancelWriteKeepsInv(c, s);
    case CleanupStep => CleanupKeepsInv(c, s);
    case CleanupFail => CleanupFailKeepsInv(c, s);
    case WorkerStep => WorkerKeepsInv(c, s);
    case WorkerFail => FailureKeepsInv(c, s, 1);
    case WorkerKill(code) => FailureKeepsInv(c, s, code);
    case ReadyCall => LaunchCallKeepsInv(c, s);
    case LaunchFail => LaunchCallKeepsInv(c, s);
    case MeasureCall => MeasureCallKeepsInv(c, s);
    case MeasureFail => MeasureFailKeepsInv(c, s);
    case CleanupCall => CleanupCallKeepsInv(c, s);
  }

  lemma {:induction false} RunKeepsInv(c: Config, s: State, actions: seq<Action>)
    requires Inv(c, s)
    ensures Inv(c, Exec(c, s, actions))
    decreases |actions|
  {
    hide Inv, Apply;
    if actions == [] {
    } else {
      ApplyKeepsInv(c, s, actions[0]);
      RunKeepsInv(c, Apply(c, s, actions[0]), actions[1..]);
    }
  }

  // ---- main results ----

  /** In every run: a host in phase `measured` holds this episode's complete result, and its author
      read `start` first, then took exactly the planned physics steps, then wrote that result. */
  lemma {:induction false} MeasuredHasResult(c: Config, actions: seq<Action>)
    ensures var s := Exec(c, INIT, actions);
      s.phase == Measured ==>
        && Start in s.files && s.files[Start] == MarkerDoc(c, Start)
        && EpisodeResult in s.files && s.files[EpisodeResult] == Doc(c.identity, Completed(c.steps))
        && c.worker.identity == c.identity
        && Steps(c.steps) + [WroteResult] <= s.log
  {
    RunKeepsInv(c, INIT, actions);
    EpisodePrefix(0, c.steps);
  }

  /** In every run the worker's history is a prefix of one whole episode: it never steps before it
      has read `start`, nor more often than asked, nor twice. */
  lemma {:induction false} WorkerFollowsEpisode(c: Config, actions: seq<Action>)
    ensures var s := Exec(c, INIT, actions);
      && s.log <= Episode(c.worker.steps)
      && (s.log != [] ==> s.log[0] == SawStart && Start in s.files)
  {
    RunKeepsInv(c, INIT, actions);
    var s := Exec(c, INIT, actions);
    LogIsPrefix(c.worker.steps, s.worker, s.log);
    EpisodeStarts(c.worker.steps);
  }

  lemma {:induction false} EpisodeStarts(steps: nat)
    ensures Steps(steps) != [] && Steps(steps)[0] == SawStart
  {
    if steps == 0 {
    } else {
      EpisodeStarts(steps - 1);
    }
  }

  /** A clean-up that found a worker and reports no error has seen one whole episode. */
  lemma {:induction false} CleanShutdownIsWholeEpisode(c: Config, actions: seq<Action>)
    ensures var s := Exec(c, INIT, actions);
      s.cleanup == CleanupReturned(true, false) ==>
        && s.worker == Exited(0)
        && s.log == Episode(c.worker.steps)
        && EpisodeResult in s.files && s.files[EpisodeResult] == WorkerDoc(c, Completed(c.worker.steps))
        && !s.honoured
  {
    RunKeepsInv(c, INIT, actions);
  }

  /** Once a `cancel()` issued outside phase `released` has returned before `start` was written,
      it stays in force whatever happens next: `cancel` is there no later than `start`, and the
      episode never completes on either side. */
  lemma {:induction false} CancelIsFinal(c: Config, before: seq<Action>, after: seq<Action>)
    requires Exec(c, INIT, before).honoured
    ensures var s := Exec(c, Exec(c, INIT, before), after);
      && (Start in s.files ==> Cancel in s.files)
      && EpisodeResult !in s.files
      && s.worker != Exited(0)
      && s.phase != Measured
      && s.cleanup != CleanupReturned(true, false)
  {
    hide Apply;
    RunKeepsInv(c, INIT, before);
    RunKeepsInv(c, Exec(c, INIT, before), after);
    HonouredStays(c, Exec(c, INIT, before), after);
  }

  lemma {:induction false} HonouredStays(c: Config, s: State, actions: seq<Action>)
    requires s.honoured
    ensures Exec(c, s, actions).honoured
    decreases |actions|
  {
    hide Apply;
    if actions == [] {
    } else {
      StepKeepsHonoured(c, s, actions[0]);
      HonouredStays(c, Apply(c, s, actions[0]), actions[1..]);
    }
  }

  lemma {:induction false} StepKeepsHonoured(c: Config, s: State, a: Action)
    requires s.honoured
    ensures Apply(c, s, a).honoured
  {
    hide NextWork, NextMeasure, NextLaunch, NextCleanup, FailedCleanup, Post, CanPost, FailWorker, Running;
  }

  ghost predicate Reachable(c: Config, s: State) {
    exists actions :: Exec(c, INIT, actions) == s
  }

  lemma {:induction false} ExecAppend(c: Config, s: State, actions: seq<Action>, a: Action)
    ensures Exec(c, s, actions + [a]) == Apply(c, Exec(c, s, actions), a)
    decreases |actions|
  {
    hide Apply;
    if actions == [] {
      assert (actions + [a])[1..] == [];
    } else {
      assert (actions + [a])[1..] == actions[1..] + [a];
      ExecAppend(c, Apply(c, s, actions[0]), actions[1..], a);
    }
  }

  lemma {:induction false} Next(c: Config, s: State, a: Action) returns (t: State)
    requires Reachable(c, s)
    ensures Reachable(c, t) && t == Apply(c, s, a)
  {
    hide Apply;
    var actions :| Exec(c, INIT, actions) == s;
    ExecAppend(c, INIT, actions, a);
    t := Apply(c, s, a);
    assert Exec(c, INIT, actions + [a]) == t;
  }

  lemma {:induction false} StartReachable(c: Config)
    ensures Reachable(c, INIT)
  {
    assert Exec(c, INIT, []) == INIT;
  }

  // ---- a cancellation in phase `released` ----

  predicate Alive(w: Worker) {
    Running(w) && !w.Failing?
  }

  /** The measurement has got past the launch and has yet to write `start`. */
  predicate BeforeWriting(m: Measure) {
    (m.Poll? && !m.fact.ResultFact?) || m == Live(false) || m == SeenLive(false) || m == PostStart
  }

  /** The episode is still open.  Either the container has yet to be started or listed, no `cancel()` was issued
      before, and the measurement can still begin; or it was listed while the last `down` was in flight, it
      runs, `cancel` is not on disk, and a measurement that has begun waits for it to be ready. */
  predicate LaunchOpen(s: State) {
    || ((s.launch.Tracked? || (s.launch.Listing? && Alive(s.worker)))
        && (s.measure.NotMeasured? || s.measure.AwaitLaunch?) && !s.cancelRequested)
    || (s.launch.Launched? && Alive(s.worker)
        && (s.measure.AwaitLaunch? || BeforeWriting(s.measure)) && Cancel !in s.files)
  }

  /** The worker gets what the host expects of it. */
  predicate Matching(c: Config) {
    c.worker.identity == c.identity && c.worker.steps == c.steps
  }

  predicate CanStillRun(c: Config, s: State) {
    LaunchOpen(s) && Matching(c)
  }

  /** No result was written, and neither side has completed the episode. */
  predicate Incomplete(s: State) {
    && EpisodeResult !in s.files && s.worker != Exited(0)
    && s.phase != Measured && s.cleanup != CleanupReturned(true, false)
  }

  predicate MeasuredUnmarked(s: State) {
    s.phase == Measured && Cancel !in s.files
  }

  predicate MeasuredUncancelled(s: State) {
    MeasuredUnmarked(s) && !s.cancelRequested
  }

  // -- more that every run keeps --

  predicate BeforeUp(l: Launch) {
    l.NotLaunched? || l.Admitting? || l.Checked? || l.Made? || l.Tracked?
  }

  predicate AfterUp(l: Launch) {
    l.Listing? || l.Echo? || l.Launched?
  }

  /** The clean-up has found a worker. */
  predicate FoundWorker(k: Cleanup) {
    k.PostRelease? || k.Waiting? || k.Inspecting?
  }

  /** A worker exists exactly from `up` on, and `released` means that one the clean-up has found is stopped. */
  ghost predicate ReleaseInv(s: State) {
    && (BeforeUp(s.launch) ==> s.worker.NotCreated?)
    && (AfterUp(s.launch) ==> !s.worker.NotCreated?)
    && (FoundWorker(s.cleanup) || Release in s.files ==> !s.worker.NotCreated?)
    && (s.phase.Released? ==> s.cleanup.CleanupReturned? && s.tracked)
    && (s.cleanup.NotCleaned? || s.tracked)
    && (s.tracked ==> s.launch.Tracked? || AfterUp(s.launch) || s.launch.LaunchFailed?)
    && ((s.phase.Released? || s.cleanup.Downing?) && Release in s.files ==> s.worker.Exited?)
    && (Cancel in s.files || s.launch.Echo? ==> s.cancelRequested)
  }

  predicate ShowsPaused(d: Doc) {
    d.body.Paused? && d.body.waitingFor == Start
  }

  /** What the measurement has seen on its way. */
  predicate SeenInv(files: map<Name, Doc>, m: Measure) {
    && (m.Poll? && m.fact.ResultFact? ==> Start in files)
    && (m.Poll? && m.fact.ReadyFact? && Start !in files ==> ShowsPaused(m.fact.current))
  }

  predicate Booted(w: Worker) {
    w.Publish? || w.PollCancel? || w.PollAction? || w.PollEarlyRelease? || PastStart(w)
  }

  ghost predicate FactsInv(c: Config, worker: Worker, files: map<Name, Doc>) {
    && (WorkerError in files ==> worker.Exited?)
    && (PausedState in files && Start !in files ==> ShowsPaused(files[PausedState]))
    && (Booted(worker) ==> Ready in files && files[Ready] == WorkerDoc(c, ReadyFacts))
  }

  lemma {:induction false} WorkKeepsFacts(c: Config, w: Work)
    requires FactsInv(c, w.worker, w.files) && WaitsForMarker(w.worker)
    requires PastResult(w.worker) ==> Start in w.files
    ensures FactsInv(c, NextWork(c, w).worker, NextWork(c, w).files)
    ensures Release in NextWork(c, w).files <==> Release in w.files
    ensures w.worker.NotCreated? <==> NextWork(c, w).worker.NotCreated?
  {
    match w.worker
    case CheckFresh(_) =>
    case Boot =>
    case Publish(_, _) =>
    case PollCancel(_, _) =>
    case PollAction(_, _) =>
    case PollEarlyRelease(_) =>
    case Physics(_) =>
    case Callback(_) =>
    case FinalCheck =>
    case Render(_) =>
    case WriteResult =>
    case Close =>
    case Failing =>
    case _ =>
  }

  ghost predicate MoreInv(c: Config, s: State) {
    Inv(c, s) && ReleaseInv(s) && FactsInv(c, s.worker, s.files) && SeenInv(s.files, s.measure)
  }

  lemma {:induction false} FilesStay(c: Config, s: State, a: Action)
    requires Inv(c, s)
    ensures forall n :: n in s.files ==> n in Apply(c, s, a).files
  {
    hide LogInv, ResultInv, CleanupInv, LaunchInv, CancelInv;
    hide MeasureInv, NextMeasure, NextWork, NextLaunch, NextCleanup;
    if a.WorkerStep? { WorkerKeepsFiles(c, Work(s.worker, s.files, s.log)); }
  }

  lemma {:induction false} PollKeepsSeen(c: Config, files: map<Name, Doc>, fact: Fact, noError: bool)
    requires SeenInv(files, Poll(fact, noError))
    requires PausedState in files && Start !in files ==> ShowsPaused(files[PausedState])
    ensures SeenInv(files, NextPoll(c, files, fact, noError))
  {
  }

  lemma {:induction false} StepKeepsSeen(c: Config, s: State, a: Action)
    requires MoreInv(c, s)
    ensures SeenInv(Apply(c, s, a).files, Apply(c, s, a).measure)
  {
    hide LogInv, ResultInv, CleanupInv, LaunchInv, CancelInv, MeasureInv, WorkerInv, ReleaseInv;
    hide NextPoll, NextWork, NextLaunch, NextCleanup, ShowsPaused, Post;
    FilesStay(c, s, a);
    PostKeepsFiles(c, s, Start);
    if s.measure.Poll? { PollKeepsSeen(c, s.files, s.measure.fact, s.measure.noError); }
  }

  lemma {:induction false} LaunchKeepsMore(c: Config, s: State, a: Action)
    requires MoreInv(c, s) && (a.LaunchStep? || a.LaunchFail? || a.ReadyCall?)
    ensures ReleaseInv(Apply(c, s, a)) && FactsInv(c, Apply(c, s, a).worker, Apply(c, s, a).files)
  {
    hide LogInv, WorkerInv, ResultInv, CleanupInv, MeasureInv, CancelInv, FilesInv, Post, CanPost;
    PostKeepsFiles(c, s, Cancel);
  }

  lemma {:induction false} MeasureKeepsMore(c: Config, s: State, a: Action)
    requires MoreInv(c, s) && (a.MeasureCall? || a.MeasureStep? || a.MeasureFail?)
    ensures ReleaseInv(Apply(c, s, a)) && FactsInv(c, Apply(c, s, a).worker, Apply(c, s, a).files)
  {
    hide LogInv, WorkerInv, ResultInv, CleanupInv, CancelInv, FilesInv;
    hide Post, CanPost, PastStart, NextMeasure, MeasureInv;
    PostKeepsFiles(c, s, Start);
  }

  lemma {:induction false} CancelKeepsMore(c: Config, s: State, a: Action)
    requires MoreInv(c, s) && (a.CancelCall? || a.CancelWrite?)
    ensures ReleaseInv(Apply(c, s, a)) && FactsInv(c, Apply(c, s, a).worker, Apply(c, s, a).files)
  {
    hide LogInv, WorkerInv, ResultInv, CleanupInv, FilesInv, Post, CanPost, PastStart, MeasureInv, LaunchInv;
    PostKeepsFiles(c, s, Cancel);
  }

  lemma {:induction false} CleanupKeepsMore(c: Config, s: State, a: Action)
    requires MoreInv(c, s) && (a.CleanupCall? || a.CleanupStep? || a.CleanupFail?)
    ensures ReleaseInv(Apply(c, s, a)) && FactsInv(c, Apply(c, s, a).worker, Apply(c, s, a).files)
  {
    hide LogInv, WorkerInv, ResultInv, CleanupInv, FilesInv, Post, CanPost, MeasureInv, LaunchInv, CancelInv;
    PostKeepsFiles(c, s, Release);
  }

  lemma {:induction false} WorkerKeepsMore(c: Config, s: State, a: Action)
    requires MoreInv(c, s) && (a.WorkerStep? || a.WorkerFail? || a.WorkerKill?)
    ensures ReleaseInv(Apply(c, s, a)) && FactsInv(c, Apply(c, s, a).worker, Apply(c, s, a).files)
  {
    hide LogInv, ResultInv, CleanupInv, FilesInv, MeasureInv, LaunchInv, CancelInv, NextWork;
    var w := Work(s.worker, s.files, s.log);
    WorkerKeepsFiles(c, w);
    WorkKeepsFacts(c, w);
  }

  lemma {:induction false} StepKeepsMore(c: Config, s: State, a: Action)
    requires MoreInv(c, s)
    ensures MoreInv(c, Apply(c, s, a))
  {
    hide Inv, Apply, ReleaseInv, FactsInv, SeenInv;
    ApplyKeepsInv(c, s, a);
    StepKeepsSeen(c, s, a);
    if a.ReadyCall? || a.LaunchStep? || a.LaunchFail? {
      LaunchKeepsMore(c, s, a);
    } else if a.MeasureCall? || a.MeasureStep? || a.MeasureFail? {
      MeasureKeepsMore(c, s, a);
    } else if a.CancelCall? || a.CancelWrite? {
      CancelKeepsMore(c, s, a);
    } else if a.CleanupCall? || a.CleanupStep? || a.CleanupFail? {
      CleanupKeepsMore(c, s, a);
    } else {
      WorkerKeepsMore(c, s, a);
    }
  }

  lemma {:induction false} RunKeepsMore(c: Config, s: State, actions: seq<Action>)
    requires MoreInv(c, s)
    ensures MoreInv(c, Exec(c, s, actions))
    decreases |actions|
  {
    hide MoreInv, Apply;
    if actions == [] {
    } else {
      StepKeepsMore(c, s, actions[0]);
      RunKeepsMore(c, Apply(c, s, actions[0]), actions[1..]);
    }
  }

  // -- nothing comes of it --

  /** A request that the launch has not passed yet, or a marker: before `start`, either is as good as a
      `cancel()` that has returned. */
  predicate Refused(s: State) {
    Start !in s.files && (Cancel in s.files || (s.cancelRequested && !s.launch.Launched?))
  }

  lemma {:induction false} RefusedIsHonoured(c: Config, s: State)
    requires Inv(c, s) && Refused(s)
    ensures Inv(c, s.(honoured := true))
  {
    hide LogInv, ResultInv, CleanupInv, FilesInv, LaunchInv, MeasureInv;
  }

  lemma {:induction false} LaunchIgnoresHonoured(c: Config, s: State, a: Action)
    requires a.ReadyCall? || a.LaunchStep? || a.LaunchFail?
    ensures Apply(c, s.(honoured := true), a) == Apply(c, s, a).(honoured := true)
  {
    hide NextWork, NextMeasure, NextLaunch, NextCleanup, FailedCleanup, Post, CanPost, FailWorker, Running;
  }

  lemma {:induction false} MeasureIgnoresHonoured(c: Config, s: State, a: Action)
    requires a.MeasureCall? || a.MeasureStep? || a.MeasureFail?
    ensures Apply(c, s.(honoured := true), a) == Apply(c, s, a).(honoured := true)
  {
    hide NextWork, NextMeasure, NextLaunch, NextCleanup, FailedCleanup, Post, CanPost, FailWorker, Running;
  }

  lemma {:induction false} CancelIgnoresHonoured(c: Config, s: State, a: Action)
    requires a.CancelCall? || a.CancelWrite?
    ensures Apply(c, s.(honoured := true), a) == Apply(c, s, a).(honoured := true)
  {
    hide NextWork, NextMeasure, NextLaunch, NextCleanup, FailedCleanup, Post, CanPost, FailWorker, Running;
  }

  lemma {:induction false} CleanupIgnoresHonoured(c: Config, s: State, a: Action)
    requires a.CleanupCall? || a.CleanupStep? || a.CleanupFail?
    ensures Apply(c, s.(honoured := true), a) == Apply(c, s, a).(honoured := true)
  {
    hide NextWork, NextMeasure, NextLaunch, NextCleanup, FailedCleanup, Post, CanPost, FailWorker, Running;
  }

  lemma {:induction false} WorkerIgnoresHonoured(c: Config, s: State, a: Action)
    requires a.WorkerStep? || a.WorkerFail? || a.WorkerKill?
    ensures Apply(c, s.(honoured := true), a) == Apply(c, s, a).(honoured := true)
  {
    hide NextWork, NextMeasure, NextLaunch, NextCleanup, FailedCleanup, Post, CanPost, FailWorker, Running;
  }

  /** No step reads the history bit. */
  lemma {:induction false} StepIgnoresHonoured(c: Config, s: State, a: Action)
    ensures Apply(c, s.(honoured := true), a) == Apply(c, s, a).(honoured := true)
  {
    hide Apply;
    match a
    case ReadyCall => LaunchIgnoresHonoured(c, s, a);
    case LaunchStep => LaunchIgnoresHonoured(c, s, a);
    case LaunchFail => LaunchIgnoresHonoured(c, s, a);
    case MeasureCall => MeasureIgnoresHonoured(c, s, a);
    case MeasureStep => MeasureIgnoresHonoured(c, s, a);
    case MeasureFail => MeasureIgnoresHonoured(c, s, a);
    case CancelCall => CancelIgnoresHonoured(c, s, a);
    case CancelWrite => CancelIgnoresHonoured(c, s, a);
    case CleanupCall => CleanupIgnoresHonoured(c, s, a);
    case CleanupStep => CleanupIgnoresHonoured(c, s, a);
    case CleanupFail => CleanupIgnoresHonoured(c, s, a);
    case WorkerStep => WorkerIgnoresHonoured(c, s, a);
    case WorkerFail => WorkerIgnoresHonoured(c, s, a);
    case WorkerKill(_) => WorkerIgnoresHonoured(c, s, a);
  }

  lemma {:induction false} RunIgnoresHonoured(c: Config, s: State, actions: seq<Action>)
    ensures Exec(c, s.(honoured := true), actions) == Exec(c, s, actions).(honoured := true)
    decreases |actions|
  {
    hide Apply;
    if actions == [] {
    } else {
      StepIgnoresHonoured(c, s, actions[0]);
      RunIgnoresHonoured(c, Apply(c, s, actions[0]), actions[1..]);
    }
  }

  lemma {:induction false} RefusedIsIncomplete(c: Config, s: State, after: seq<Action>)
    requires Inv(c, s) && Refused(s)
    ensures Incomplete(Exec(c, s, after))
  {
    hide Apply, Exec;
    RefusedIsHonoured(c, s);
    RunKeepsInv(c, s.(honoured := true), after);
    HonouredStays(c, s.(honoured := true), after);
    RunIgnoresHonoured(c, s, after);
  }

  predicate Dead(s: State) {
    && (s.worker.Failing? || (s.worker.Exited? && s.worker.code != 0))
    && AfterUp(s.launch) && EpisodeResult !in s.files
  }

  /** Nothing has asked for a measurement, and nothing can. */
  predicate Missed(s: State) {
    s.launch.Launched? && s.measure.NotMeasured? && !MayCallReady(s.phase)
  }

  /** The launch or the measurement has failed before `start`, or the worker before its result. */
  predicate Stuck(s: State) {
    s.launch.LaunchFailed? || ((s.measure.MeasureFailed? || Missed(s)) && Start !in s.files) || Dead(s)
  }

  lemma {:induction false} FailureStays(c: Config, s: State, a: Action)
    ensures s.launch.LaunchFailed? ==> Apply(c, s, a).launch.LaunchFailed?
    ensures s.measure.MeasureFailed? ==> Apply(c, s, a).measure.MeasureFailed?
    ensures Missed(s) ==> Missed(Apply(c, s, a)) || Apply(c, s, a).measure.MeasureFailed?
  {
    hide NextPoll, NextCleanup, NextWork, Post, CanPost, FailedCleanup, FailWorker;
  }

  /** Only the measurement writes `start`. */
  lemma {:induction false} StartNeeds(c: Config, s: State, a: Action)
    requires Inv(c, s) && Start !in s.files && Start in Apply(c, s, a).files
    ensures s.measure.PostStart?
  {
    hide LogInv, ResultInv, CleanupInv, LaunchInv, CancelInv, MeasureInv;
    hide NextMeasure, NextWork, NextLaunch, NextCleanup;
    if a.WorkerStep? { WorkerKeepsFiles(c, Work(s.worker, s.files, s.log)); }
  }

  lemma {:induction false} DeathStays(c: Config, s: State, a: Action)
    requires Inv(c, s) && Dead(s)
    ensures Dead(Apply(c, s, a)) || Apply(c, s, a).launch.LaunchFailed?
  {
    hide LogInv, ResultInv, CleanupInv, LaunchInv, CancelInv, MeasureInv, FilesInv, WorkerInv;
    hide NextMeasure, NextCleanup, Post, CanPost, FailedCleanup;
    match a
    case LaunchStep => PostKeepsFiles(c, s, Cancel);
    case MeasureStep => PostKeepsFiles(c, s, Start);
    case CancelWrite => PostKeepsFiles(c, s, Cancel);
    case CleanupStep => PostKeepsFiles(c, s, Release);
    case _ =>
  }

  lemma {:induction false} StuckStays(c: Config, s: State, a: Action)
    requires Inv(c, s) && Stuck(s)
    ensures Stuck(Apply(c, s, a))
  {
    hide Inv, Apply;
    FailureStays(c, s, a);
    if Dead(s) {
      DeathStays(c, s, a);
    } else if Start !in s.files && Start in Apply(c, s, a).files {
      StartNeeds(c, s, a);
    }
  }

  lemma {:induction false} StuckIsIncomplete(c: Config, s: State)
    requires Inv(c, s) && Stuck(s)
    ensures Incomplete(s)
  {
    hide FilesInv, LaunchInv, CancelInv, LogInv, ResultInv;
  }

  lemma {:induction false} StuckForever(c: Config, s: State, after: seq<Action>)
    requires Inv(c, s) && Stuck(s)
    ensures Incomplete(Exec(c, s, after))
    decreases |after|
  {
    hide Inv, Stuck, Apply, Incomplete;
    if after == [] {
      StuckIsIncomplete(c, s);
    } else {
      StuckStays(c, s, after[0]);
      ApplyKeepsInv(c, s, after[0]);
      StuckForever(c, Apply(c, s, after[0]), after[1..]);
    }
  }

  /** In phase `released`, before `start`, a launch that is not open is refused or stuck. */
  lemma {:induction false} ClosedIsOver(c: Config, s: State)
    requires MoreInv(c, s) && s.phase.Released? && Start !in s.files && !LaunchOpen(s)
    ensures Refused(s) || Stuck(s)
  {
    hide LogInv, ResultInv, CleanupInv, CancelInv, FilesInv, FactsInv;
    assert Accepted(s.measure) ==> EpisodeResult in s.files;
  }

  lemma {:induction false} ClosedIsIncomplete(c: Config, s: State, after: seq<Action>)
    requires MoreInv(c, s) && s.phase.Released? && Start !in s.files && !LaunchOpen(s)
    ensures Incomplete(Exec(c, s, after))
  {
    hide Inv, Exec, Refused, Stuck, Incomplete, LaunchOpen, ReleaseInv, FactsInv;
    ClosedIsOver(c, s);
    if Refused(s) {
      RefusedIsIncomplete(c, s, after);
    } else {
      StuckForever(c, s, after);
    }
  }

  /** A host never takes the result of a worker that got something else to do. */
  lemma {:induction false} MeasuredMatches(c: Config, s: State)
    requires Inv(c, s) && s.phase == Measured
    ensures Matching(c)
  {
  }

  // -- and how it can come to an episode all the same --

  /** The actions that lead from s to an episode that is measured, with a worker that waits for `release`. */
  ghost predicate Leads(c: Config, s: State, actions: seq<Action>) {
    var t := Exec(c, s, actions);
    && t.phase == Measured && Untroubled(c, t) && t.worker == Publish(Release, 0)
    && t.cancelRequested == s.cancelRequested && t.cleanup == s.cleanup && (s.tracked ==> t.tracked)
  }

  lemma {:induction false} LeadsFurther(c: Config, s: State, a: Action, rest: seq<Action>)
    requires Leads(c, Apply(c, s, a), rest) && Apply(c, s, a).cancelRequested == s.cancelRequested
    requires Apply(c, s, a).cleanup == s.cleanup && (s.tracked ==> Apply(c, s, a).tracked)
    ensures Leads(c, s, [a] + rest)
  {
    hide Apply;
    assert ([a] + rest)[1..] == rest;
  }

  /** Nobody has cancelled, released or failed, and host and worker belong together. */
  predicate Untroubled(c: Config, s: State) {
    && s.dir && Cancel !in s.files && Release !in s.files && WorkerError !in s.files
    && Matching(c)
  }

  /** The host waits for a result that is there. */
  lemma {:induction false} ResultLeads(c: Config, s: State) returns (actions: seq<Action>)
    requires Untroubled(c, s) && s.worker == Publish(Release, 0)
    requires s.measure == Poll(ResultFact, false) || s.measure == Poll(ResultFact, true) || s.measure == Live(true)
        || s.measure == SeenLive(true)
    requires EpisodeResult in s.files && s.files[EpisodeResult] == Doc(c.identity, Completed(c.steps))
    ensures Leads(c, s, actions)
    decreases match s.measure case Poll(_, noError) => (if noError then 3 else 4) case Live(_) => 2 case _ => 1
  {
    hide Leads, NextWork, NextLaunch, NextCleanup;
    var t := Apply(c, s, MeasureStep);
    var rest: seq<Action> := [];
    if s.measure == SeenLive(true) {
      LeadsNow(c, t);
    } else {
      rest := ResultLeads(c, t);
    }
    LeadsFurther(c, s, MeasureStep, rest);
    actions := [MeasureStep] + rest;
  }

  lemma {:induction false} LeadsNow(c: Config, s: State)
    requires s.phase == Measured && Untroubled(c, s) && s.worker == Publish(Release, 0)
    ensures Leads(c, s, [])
  {
  }

  /** The rank of a worker on its way from `start` to its result. */
  function Remaining(c: Config, w: Worker): nat
    requires PastStart(w) && !PastResult(w)
    requires w.Physics? || w.Callback? ==> w.done <= c.worker.steps
    requires w.Render? ==> w.done <= c.worker.frames
  {
    var tail := c.worker.frames + 3;
    if w.Physics? then 2 * (c.worker.steps - w.done) + tail + 1
    else if w.Callback? then 2 * (c.worker.steps - w.done) + tail + 2
    else if w.FinalCheck? then tail
    else if w.Render? then c.worker.frames - w.done + 2
    else 1
  }

  /** The worker carries the episode through: every step, every frame, and the result. */
  lemma {:induction false} EpisodeLeads(c: Config, s: State) returns (actions: seq<Action>)
    requires Untroubled(c, s) && s.measure == Poll(ResultFact, false)
    requires PastStart(s.worker) && !PastResult(s.worker)
    requires s.worker.Physics? || s.worker.Callback? ==> s.worker.done <= c.worker.steps
    requires s.worker.Render? ==> s.worker.done <= c.worker.frames
    ensures Leads(c, s, actions)
    decreases Remaining(c, s.worker)
  {
    hide Leads, NextMeasure, NextLaunch, NextCleanup;
    var t := Apply(c, s, WorkerStep);
    var rest: seq<Action>;
    if s.worker.WriteResult? {
      rest := ResultLeads(c, t);
    } else {
      rest := EpisodeLeads(c, t);
    }
    LeadsFurther(c, s, WorkerStep, rest);
    actions := [WorkerStep] + rest;
  }

  /** The worker shows itself paused, in its n-th observation. */
  predicate ShownPaused(c: Config, s: State, n: nat) {
    && s.worker == PollCancel(Start, n)
    && PausedState in s.files && s.files[PausedState] == WorkerDoc(c, Paused(Start, n))
    && Ready in s.files && s.files[Ready] == WorkerDoc(c, ReadyFacts)
  }

  predicate ReadyToStart(c: Config, m: Measure) {
    || (m.Poll? && m.fact.ReadyFact? && m.fact.current.body.Paused? && m.fact.current.body.waitingFor == Start)
    || m == Live(false) || m == SeenLive(false) || m == PostStart
  }

  function ReadyRank(m: Measure): nat {
    match m
    case Poll(_, noError) => if noError then 3 else 4
    case Live(_) => 2
    case SeenLive(_) => 1
    case _ => 0
  }

  /** The host has seen two observations, checks readiness and liveness, and writes `start`. */
  lemma {:induction false} ReadyLeads(c: Config, s: State, n: nat) returns (actions: seq<Action>)
    requires Untroubled(c, s) && ShownPaused(c, s, n) && Start !in s.files && ReadyToStart(c, s.measure)
    ensures Leads(c, s, actions)
    decreases ReadyRank(s.measure)
  {
    hide Leads, NextWork, NextLaunch, NextCleanup;
    var t := Apply(c, s, MeasureStep);
    var rest: seq<Action>;
    if s.measure.PostStart? {
      rest := StartedLeads(c, t, n);
    } else {
      rest := ReadyLeads(c, t, n);
    }
    LeadsFurther(c, s, MeasureStep, rest);
    actions := [MeasureStep] + rest;
  }

  /** The worker finds no cancellation, and reads `start`. */
  lemma {:induction false} StartedLeads(c: Config, s: State, n: nat) returns (actions: seq<Action>)
    requires Untroubled(c, s) && s.worker == PollCancel(Start, n) && s.measure == Poll(ResultFact, false)
    requires Start in s.files && s.files[Start] == MarkerDoc(c, Start)
    ensures Leads(c, s, actions)
  {
    hide Leads, NextMeasure, NextLaunch, NextCleanup;
    var t := Apply(c, s, WorkerStep);
    var u := Apply(c, t, WorkerStep);
    var rest := EpisodeLeads(c, u);
    LeadsFurther(c, t, WorkerStep, rest);
    LeadsFurther(c, s, WorkerStep, [WorkerStep] + rest);
    actions := [WorkerStep] + ([WorkerStep] + rest);
  }

  /** The host has seen observation m, and a later one is on disk. */
  lemma {:induction false} SecondLeads(c: Config, s: State, m: nat, n: nat) returns (actions: seq<Action>)
    requires Untroubled(c, s) && ShownPaused(c, s, n) && Start !in s.files && m != n
    requires s.measure == Poll(NextPaused(m), false) || s.measure == Poll(NextPaused(m), true)
    ensures Leads(c, s, actions)
    decreases if s.measure.noError then 0 else 1
  {
    hide Leads, NextWork, NextLaunch, NextCleanup;
    var t := Apply(c, s, MeasureStep);
    var rest: seq<Action>;
    if s.measure.noError {
      rest := ReadyLeads(c, t, n);
    } else {
      rest := SecondLeads(c, t, m, n);
    }
    LeadsFurther(c, s, MeasureStep, rest);
    actions := [MeasureStep] + rest;
  }

  /** The worker polls, before `start`. */
  predicate Polling(w: Worker, n: nat) {
    w == PollCancel(Start, n) || w == PollAction(Start, n) || w == PollEarlyRelease(n) || w == Publish(Start, n)
  }

  function PollRank(w: Worker): nat {
    if w.PollCancel? then 4 else if w.PollAction? then 3 else if w.PollEarlyRelease? then 2 else 1
  }

  /** The host waits for a second observation, and the worker publishes one more. */
  lemma {:induction false} WaitingLeads(c: Config, s: State, n: nat) returns (actions: seq<Action>)
    requires Untroubled(c, s) && Polling(s.worker, n) && Start !in s.files
    requires s.measure == Poll(NextPaused(n), false) || s.measure == Poll(NextPaused(n), true)
    requires Ready in s.files && s.files[Ready] == WorkerDoc(c, ReadyFacts)
    ensures Leads(c, s, actions)
    decreases PollRank(s.worker)
  {
    hide Leads, NextMeasure, NextLaunch, NextCleanup;
    var t := Apply(c, s, WorkerStep);
    var rest: seq<Action>;
    if s.worker.Publish? {
      rest := SecondLeads(c, t, n, n + 1);
    } else {
      rest := WaitingLeads(c, t, n);
    }
    LeadsFurther(c, s, WorkerStep, rest);
    actions := [WorkerStep] + rest;
  }

  /** The launch has resolved, and the host sees a first observation. */
  lemma {:induction false} FirstLeads(c: Config, s: State, n: nat) returns (actions: seq<Action>)
    requires Untroubled(c, s) && ShownPaused(c, s, n) && Start !in s.files
    requires (s.measure.AwaitLaunch? && s.launch.Launched?) || s.measure == Poll(FirstPaused, false)
        || s.measure == Poll(FirstPaused, true)
    ensures Leads(c, s, actions)
    decreases if s.measure.AwaitLaunch? then 2 else if s.measure.noError then 0 else 1
  {
    hide Leads, NextWork, NextLaunch, NextCleanup;
    var t := Apply(c, s, MeasureStep);
    var rest: seq<Action>;
    if s.measure.Poll? && s.measure.noError {
      rest := WaitingLeads(c, t, n);
    } else {
      rest := FirstLeads(c, t, n);
    }
    LeadsFurther(c, s, MeasureStep, rest);
    actions := [MeasureStep] + rest;
  }

  /** The worker has not read `start` yet. */
  predicate BeforeStart(w: Worker) {
    w.CheckFresh? || w.Boot? || w.PollEarlyRelease?
      || ((w.Publish? || w.PollCancel? || w.PollAction?) && w.waitingFor == Start)
  }

  function BeforeRank(w: Worker): nat {
    if w.CheckFresh? then (if w.seen < 2 then 10 - w.seen else 8) else if w.Boot? then 5 else PollRank(w)
  }

  /** The worker shows itself paused, wherever the host waits for that. */
  lemma {:induction false} ShownLeads(c: Config, s: State, n: nat) returns (actions: seq<Action>)
    requires Untroubled(c, s) && ShownPaused(c, s, n) && Start !in s.files && s.launch.Launched?
    requires (s.measure.AwaitLaunch? || BeforeWriting(s.measure)) && SeenInv(s.files, s.measure)
    ensures Leads(c, s, actions)
  {
    hide Leads;
    if s.measure.AwaitLaunch? || (s.measure.Poll? && s.measure.fact.FirstPaused?) {
      actions := FirstLeads(c, s, n);
    } else if s.measure.Poll? && s.measure.fact == NextPaused(n) {
      actions := WaitingLeads(c, s, n);
    } else if s.measure.Poll? && s.measure.fact.NextPaused? {
      actions := SecondLeads(c, s, s.measure.fact.seen, n);
    } else {
      actions := ReadyLeads(c, s, n);
    }
  }

  /** A worker that runs and has not read `start` shows itself paused. */
  lemma {:induction false} LaunchedLeads(c: Config, s: State) returns (actions: seq<Action>)
    requires Untroubled(c, s) && BeforeStart(s.worker) && Start !in s.files && FactsInv(c, s.worker, s.files)
    requires s.launch.Launched?
    requires (s.measure.AwaitLaunch? || BeforeWriting(s.measure)) && SeenInv(s.files, s.measure)
    ensures Leads(c, s, actions)
    decreases BeforeRank(s.worker)
  {
    hide Leads, NextMeasure, NextLaunch, NextCleanup;
    var t := Apply(c, s, WorkerStep);
    var rest: seq<Action>;
    if s.worker.Publish? {
      rest := ShownLeads(c, t, s.worker.observation + 1);
    } else {
      rest := LaunchedLeads(c, t);
    }
    LeadsFurther(c, s, WorkerStep, rest);
    actions := [WorkerStep] + rest;
  }

  /** The launch goes on, and the host asks for the measurement. */
  lemma {:induction false} LaunchLeads(c: Config, s: State) returns (actions: seq<Action>)
    requires Untroubled(c, s) && CanStillRun(c, s) && Start !in s.files && FactsInv(c, s.worker, s.files)
    requires SeenInv(s.files, s.measure) && (s.launch.Tracked? || BeforeStart(s.worker))
    ensures Leads(c, s, actions)
    decreases if s.launch.Tracked? then 1 else 0
  {
    hide Leads, NextMeasure, NextWork, NextCleanup;
    if s.launch.Launched? {
      actions := LaunchedLeads(c, s);
      return;
    }
    var t := Apply(c, s, LaunchStep);
    var rest: seq<Action>;
    if s.launch.Tracked? {
      rest := LaunchLeads(c, t);
    } else if s.measure.AwaitLaunch? {
      rest := LaunchedLeads(c, t);
    } else {
      var u := Apply(c, t, MeasureCall);
      rest := LaunchedLeads(c, u);
      LeadsFurther(c, t, MeasureCall, rest);
      rest := [MeasureCall] + rest;
    }
    LeadsFurther(c, s, LaunchStep, rest);
    actions := [LaunchStep] + rest;
  }

  lemma {:induction false} CanRunIsUntroubled(c: Config, s: State)
    requires MoreInv(c, s) && s.phase.Released? && Start !in s.files && CanStillRun(c, s)
    ensures Untroubled(c, s) && (s.launch.Tracked? || BeforeStart(s.worker))
  {
    hide LogInv, ResultInv, CleanupInv, CancelInv, FilesInv, MeasureInv;
  }

  lemma {:induction false} InitMore(c: Config)
    ensures MoreInv(c, INIT)
  {
  }

  /** A `cancel()` issued in phase `released` before `start` returns without a trace.  Some continuation
      measures the episode without `cancel` on disk exactly when it is open and the worker matches, and one in
      which no cancellation was ever requested exactly when none was before; and when it is not open, neither
      side completes the episode in any continuation. */
  lemma {:induction false} ReleasedCancelExactly(c: Config, before: seq<Action>)
    requires var s := Exec(c, INIT, before); s.phase.Released? && Start !in s.files
    ensures var s := Exec(c, INIT, before);
      && Apply(c, s, CancelCall) == s
      && ((exists after :: MeasuredUnmarked(Exec(c, Apply(c, s, CancelCall), after))) <==> CanStillRun(c, s))
      && ((exists after :: MeasuredUncancelled(Exec(c, Apply(c, s, CancelCall), after))) <==>
          CanStillRun(c, s) && !s.cancelRequested)
      && (!LaunchOpen(s) ==> forall after :: Incomplete(Exec(c, Apply(c, s, CancelCall), after)))
  {
    hide Inv, ReleaseInv, FactsInv, SeenInv, LaunchOpen, Matching, Exec;
    var s := Exec(c, INIT, before);
    InitMore(c);
    RunKeepsMore(c, INIT, before);
    CancelIsNoOp(c, s);
    if CanStillRun(c, s) {
      var after := CanRunLeads(c, s);
      assert MeasuredUnmarked(Exec(c, s, after));
      assert !s.cancelRequested ==> MeasuredUncancelled(Exec(c, s, after));
    }
    forall after
      ensures MeasuredUnmarked(Exec(c, s, after)) ==> CanStillRun(c, s)
      ensures s.cancelRequested ==> Exec(c, s, after).cancelRequested
      ensures !LaunchOpen(s) ==> Incomplete(Exec(c, s, after))
    {
      RequestStays(c, s, after);
      RunKeepsInv(c, s, after);
      if !LaunchOpen(s) { ClosedIsIncomplete(c, s, after); }
      if Exec(c, s, after).phase == Measured { MeasuredMatches(c, Exec(c, s, after)); }
    }
  }

  lemma {:induction false} RequestStays(c: Config, s: State, actions: seq<Action>)
    ensures s.cancelRequested ==> Exec(c, s, actions).cancelRequested
    decreases |actions|
  {
    hide Apply;
    if actions == [] {
    } else {
      StepKeepsRequest(c, s, actions[0]);
      RequestStays(c, Apply(c, s, actions[0]), actions[1..]);
    }
  }

  lemma {:induction false} StepKeepsRequest(c: Config, s: State, a: Action)
    ensures s.cancelRequested ==> Apply(c, s, a).cancelRequested
  {
    hide NextWork, NextMeasure, NextLaunch, NextCleanup, FailedCleanup, Post, CanPost, FailWorker, Running;
  }

  lemma {:induction false} CancelIsNoOp(c: Config, s: State)
    requires s.phase.Released?
    ensures Apply(c, s, CancelCall) == s
  {
  }

  lemma {:induction false} CanRunLeads(c: Config, s: State) returns (after: seq<Action>)
    requires MoreInv(c, s) && s.phase.Released? && Start !in s.files && CanStillRun(c, s)
    ensures MeasuredUnmarked(Exec(c, s, after)) && Exec(c, s, after).cancelRequested == s.cancelRequested
  {
    hide Inv, ReleaseInv, FactsInv, SeenInv, BeforeStart, Exec;
    CanRunIsUntroubled(c, s);
    after := LaunchLeads(c, s);
  }

  /** A clean-up has found no worker before `up`, and has released. */
  const RELEASED_EARLY :=
    INIT.(dir := true, phase := Released, launch := Tracked, tracked := true, measure := AwaitLaunch,
          cleanup := CleanupReturned(false, false))

  lemma {:induction false} ReleasedEarly(c: Config) returns (before: seq<Action>)
    ensures Exec(c, INIT, before) == RELEASED_EARLY
  {
    hide NextWork, NextPoll, Post, Reachable;
    StartReachable(c);
    var s := INIT;
    s := Next(c, s, MeasureCall); s := Next(c, s, LaunchStep); s := Next(c, s, LaunchStep);
    s := Next(c, s, LaunchStep); s := Next(c, s, CleanupCall); s := Next(c, s, CleanupStep);
    s := Next(c, s, CleanupStep); s := Next(c, s, CleanupStep);
    assert s == RELEASED_EARLY;
    before := ActionsTo(c, s);
  }

  lemma {:induction false} ActionsTo(c: Config, s: State) returns (before: seq<Action>)
    requires Reachable(c, s)
    ensures Exec(c, INIT, before) == s
  {
    before :| Exec(c, INIT, before) == s;
  }

  /** The condition of `CancelIsFinal` is needed, for every episode: a clean-up can release before `up`, a
      `cancel()` then returns before `start` is written and leaves no trace, and the same run still writes
      `start` and reaches `measured`. */
  lemma {:induction false} ReleasedCancelIsLost(c: Config) returns (before: seq<Action>, after: seq<Action>)
    requires c.worker == WorkerArgs(c.identity, c.steps, c.worker.frames)
    ensures var s := Exec(c, INIT, before);
      && s.phase.Released? && Start !in s.files && Apply(c, s, CancelCall) == s
      && MeasuredUncancelled(Exec(c, Apply(c, s, CancelCall), after))
  {
    hide Exec, MoreInv;
    before := ReleasedEarly(c);
    InitMore(c);
    RunKeepsMore(c, INIT, before);
    after := CanRunLeads(c, RELEASED_EARLY);
  }

  /** A worker was started and listed while the last `down`, which had found nothing, was in flight. */
  const RELEASED_LATE := RELEASED_EARLY.(launch := Launched, worker := CheckFresh(0))

  lemma {:induction false} ReleasedLate(c: Config) returns (before: seq<Action>)
    ensures Exec(c, INIT, before) == RELEASED_LATE
  {
    hide NextWork, NextPoll, Post, Reachable;
    StartReachable(c);
    var s := INIT;
    s := Next(c, s, MeasureCall); s := Next(c, s, LaunchStep); s := Next(c, s, LaunchStep);
    s := Next(c, s, LaunchStep); s := Next(c, s, CleanupCall); s := Next(c, s, CleanupStep);
    s := Next(c, s, CleanupStep); s := Next(c, s, LaunchStep); s := Next(c, s, LaunchStep);
    s := Next(c, s, CleanupStep);
    assert s == RELEASED_LATE;
    before := ActionsTo(c, s);
  }

  /** The same with a launch that has resolved: `down` took effect before `up`, and returned after the worker
      had been listed. */
  lemma {:induction false} LateCancelIsLost(c: Config) returns (before: seq<Action>, after: seq<Action>)
    requires c.worker == WorkerArgs(c.identity, c.steps, c.worker.frames)
    ensures var s := Exec(c, INIT, before);
      && s.phase.Released? && s.launch.Launched? && Start !in s.files && Apply(c, s, CancelCall) == s
      && MeasuredUncancelled(Exec(c, Apply(c, s, CancelCall), after))
  {
    hide Exec, MoreInv;
    before := ReleasedLate(c);
    InitMore(c);
    RunKeepsMore(c, INIT, before);
    after := CanRunLeads(c, RELEASED_LATE);
  }
}
