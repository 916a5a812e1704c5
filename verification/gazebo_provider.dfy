/** The Gazebo provider as a transition system: one startup, and any number of cleanup and observation
    calls, interleaved at their awaits.  The log keeps what was asked of the Engine and of compose. */
module GazeboProvider {
  import opened Paths
  import opened EngineOwnership

  /** `Preparing` follows the bound simulation, `Confirming` the exclusive clock owner, which is the last thing
      a startup starts.  A starting command is in flight in `Upping`, `Assisting` and `Clocking`. */
  datatype StartPhase =
    | Idle | Versioning | Connecting | Upping | Listing | Inspecting(id: string)
    | Retaining(id: string, complete: bool) | Preparing | Assisting | Clocking | Confirming | Ready | StartFailed

  datatype CallPhase =
    | Reaching | Inventory | InspectingParent(id: string) | RetainingParent(id: string, complete: bool)
    | Observing(parent: Option<string>) | Judging(complete: bool) | Cleared | Downing | Returned | Refused

  /** A cleanup (`teardown`) or a plain ownership observation.  `at` is the log position of its start and
      `acquired` what it found there. */
  datatype Call = Call(teardown: bool, phase: CallPhase, at: nat, acquired: bool)

  /** `Up` is the issue of a compose command that starts containers, `up` or `run`; `Started` is the start of a
      container by such a command.  `Inspected` is the inspection of startup, `Candidates` and `Examined` are the
      inventory and the inspection of a call; a binding tells whether a call or startup made it. */
  datatype Event =
    | Up | Started | Aborted | Inspected(id: string, complete: bool) | Bound(binder: Option<nat>, id: string)
    | Candidates(call: nat, ids: seq<Option<string>>) | Examined(call: nat, id: string, complete: bool, service: bool)
    | Called(call: nat) | Seen(call: nat, parent: Option<string>, engine: Engine) | Down(call: nat)

  datatype State = State(
    run: string, project: string, acquired: bool, aborted: bool, simulation: Option<string>, ready: bool,
    start: StartPhase, calls: seq<Call>, log: seq<Event>)

  datatype Action =
    | Abort | Begin | Versioned(ok: bool) | Connected(ok: bool) | ContainerStarts | UpDone(ok: bool)
    | Listed(ok: bool, id: string) | InspectDone(ok: bool, complete: bool) | Retained(ok: bool)
    | Continue(ok: bool) | Assist | ClockOwner | Finish
    | NewCall(teardown: bool) | CallReached(call: nat, ok: bool) | CallInventory(call: nat, ids: seq<Option<string>>)
    | CallInspected(call: nat, ok: bool, complete: bool, service: bool) | CallRetained(call: nat, ok: bool)
    | CallObserved(call: nat, engine: Engine) | CallJudged(call: nat, ok: bool)
    | CallDown(call: nat) | CallDowned(call: nat, ok: bool)

  ghost function Initial(run: string, project: string): State {
    State(run, project, false, false, None, false, Idle, [], [])
  }

  ghost function Logged(s: State, events: seq<Event>): State {
    s.(log := s.log + events)
  }

  // ---- startup ----

  ghost function StartFails(s: State): State {
    s.(start := StartFailed)
  }

  /** A compose command is issued only while startup has not been aborted. */
  ghost function IssueUp(s: State, phase: StartPhase): State {
    if s.aborted then StartFails(s) else Logged(s.(start := phase), [Up])
  }

  /** A starting command has been issued and has not returned. */
  predicate InFlight(p: StartPhase) {
    p.Upping? || p.Assisting? || p.Clocking?
  }

  function Landed(p: StartPhase): StartPhase
    requires InFlight(p)
  {
    match p
    case Upping => Listing
    case Assisting => Preparing
    case Clocking => Confirming
  }

  /** An abort asks the command in flight to stop; until it has returned it may start containers all the same. */
  ghost function StartStep(s: State, a: Action): State {
    match a
    case Begin => if !s.start.Idle? then s else if s.aborted then StartFails(s) else s.(start := Versioning)
    case Versioned(ok) =>
      if !s.start.Versioning? then s else if !ok || s.aborted then StartFails(s) else s.(start := Connecting)
    case Connected(ok) =>
      if !s.start.Connecting? then s else if !ok then StartFails(s) else IssueUp(s.(acquired := true), Upping)
    case ContainerStarts => if InFlight(s.start) then Logged(s, [Started]) else s
    case UpDone(ok) =>
      if !InFlight(s.start) then s else if !ok || s.aborted then StartFails(s) else s.(start := Landed(s.start))
    case Listed(ok, id) =>
      if !s.start.Listing? then s
      else if !ok || s.aborted || !Hex64(id) then StartFails(s)
      else s.(start := Inspecting(id))
    case InspectDone(ok, complete) =>
      if !s.start.Inspecting? then s
      else if !ok then StartFails(s)
      else Logged(s.(start := Retaining(s.start.id, complete)), [Inspected(s.start.id, complete)])
    case Retained(ok) =>
      if !s.start.Retaining? then s
      else if !ok || !s.start.complete then StartFails(s)
      else Logged(s.(start := Preparing, simulation := Some(s.start.id)), [Bound(None, s.start.id)])
    case Continue(ok) => if !ok && (s.start.Preparing? || s.start.Confirming?) then StartFails(s) else s
    case Assist => if s.start.Preparing? then IssueUp(s, Assisting) else s
    case ClockOwner => if s.start.Preparing? then IssueUp(s, Clocking) else s
    case Finish =>
      if !s.start.Confirming? then s else if s.aborted then StartFails(s) else s.(start := Ready, ready := true)
    case _ => s
  }

  // ---- cleanup and observation calls ----

  ghost function WithPhase(s: State, i: nat, phase: CallPhase): State
    requires i < |s.calls|
  {
    s.(calls := s.calls[i := s.calls[i].(phase := phase)])
  }

  /** Partial startup is bound before ownership is observed, unless a container is already bound. */
  ghost function CallStep(s: State, a: Action, i: nat): State
    requires i < |s.calls|
  {
    var phase := s.calls[i].phase;
    match a
    case CallReached(_, ok) =>
      if !phase.Reaching? then s
      else if !ok then WithPhase(s, i, Refused)
      else WithPhase(s, i, if s.simulation.Some? then Observing(s.simulation) else Inventory)
    case CallInventory(_, ids) =>
      if !phase.Inventory? then s
      else
        var asked := Logged(s, [Candidates(i, ids)]);
        if |ids| == 0 then WithPhase(asked, i, Observing(s.simulation))
        else if |ids| > 1 || ids[0].None? || !Hex64(ids[0].value) then WithPhase(asked, i, Refused)
        else WithPhase(asked, i, InspectingParent(ids[0].value))
    case CallInspected(_, ok, complete, service) =>
      if !phase.InspectingParent? then s
      else if !ok then WithPhase(s, i, Refused)
      else
        Logged(WithPhase(s, i, RetainingParent(phase.id, complete && service)),
               [Examined(i, phase.id, complete, service)])
    case CallRetained(_, ok) =>
      if !phase.RetainingParent? then s
      else if !ok || !phase.complete then WithPhase(s, i, Refused)
      else
        Logged(WithPhase(s.(simulation := Some(phase.id)), i, Observing(Some(phase.id))), [Bound(Some(i), phase.id)])
    case CallObserved(_, engine) =>
      if !phase.Observing? then s
      else
        var owner := Owner(s.run, s.project, phase.parent);
        var found := ProjectFindings(engine, owner);
        var seen := Logged(s, [Seen(i, phase.parent, engine)]);
        if s.run == "" || s.project == "" || found.None? then WithPhase(seen, i, Refused)
        else WithPhase(seen, i, Judging(found.value == NONE))
    case CallJudged(_, ok) =>
      if !phase.Judging? then s
      else if !ok || !phase.complete then WithPhase(s, i, Refused)
      else WithPhase(s, i, if s.calls[i].teardown then Cleared else Returned)
    case CallDown(_) => if !phase.Cleared? then s else Logged(WithPhase(s, i, Downing), [Down(i)])
    case CallDowned(_, ok) => if !phase.Downing? then s else WithPhase(s, i, if ok then Returned else Refused)
    case _ => s
  }

  function CallOf(a: Action): Option<nat> {
    match a
    case CallReached(i, _) => Some(i)
    case CallInventory(i, _) => Some(i)
    case CallInspected(i, _, _, _) => Some(i)
    case CallRetained(i, _) => Some(i)
    case CallObserved(i, _) => Some(i)
    case CallJudged(i, _) => Some(i)
    case CallDown(i) => Some(i)
    case CallDowned(i, _) => Some(i)
    case _ => None
  }

  /** A cleanup that finds nothing acquired returns at once. */
  ghost function Opened(s: State, teardown: bool): State {
    var phase := if teardown && !s.acquired then Returned else Reaching;
    Logged(s.(calls := s.calls + [Call(teardown, phase, |s.log|, s.acquired)]), [Called(|s.calls|)])
  }

  ghost function Apply(s: State, a: Action): State {
    if a.Abort? then (if s.aborted then s else Logged(s.(aborted := true), [Aborted]))
    else if a.NewCall? then Opened(s, a.teardown)
    else if CallOf(a).Some? then (if CallOf(a).value < |s.calls| then CallStep(s, a, CallOf(a).value) else s)
    else StartStep(s, a)
  }

  ghost function Exec(s: State, actions: seq<Action>): State {
    if actions == [] then s else Apply(Exec(s, actions[..|actions| - 1]), actions[|actions| - 1])
  }

  // ---- what the log must show ----

  ghost predicate InspectedBefore(log: seq<Event>, n: nat, id: string)
    requires n <= |log|
  {
    exists k :: 0 <= k < n && IsInspection(log[k], id)
  }

  predicate IsInspection(e: Event, id: string) {
    (e.Inspected? || e.Examined?) && e.id == id && e.complete
  }

  ghost predicate BoundBefore(log: seq<Event>, n: nat, id: string)
    requires n <= |log|
  {
    exists k :: 0 <= k < n && IsBinding(log[k], id)
  }

  predicate IsBinding(e: Event, id: string) {
    e.Bound? && e.id == id
  }

  /** Call i has seen the whole project owned, with no namespace parent or with one bound before. */
  ghost predicate OwnedBefore(s: State, n: nat, i: nat)
    requires n <= |s.log|
  {
    exists k :: 0 <= k < n && SeenOwned(s, k, i)
  }

  ghost predicate SeenOwned(s: State, k: nat, i: nat)
    requires k < |s.log|
  {
    var e := s.log[k];
    e.Seen? && e.call == i && ProjectOwned(e.engine, Owner(s.run, s.project, e.parent)) &&
    (e.parent.Some? ==> BoundBefore(s.log, k, e.parent.value))
  }

  ghost predicate AbortedBefore(log: seq<Event>, n: nat)
    requires n <= |log|
  {
    exists k :: 0 <= k < n && log[k].Aborted?
  }

  ghost predicate UpBefore(log: seq<Event>, n: nat)
    requires n <= |log|
  {
    exists k :: 0 <= k < n && log[k].Up?
  }

  ghost predicate DownAfter(log: seq<Event>, n: nat, i: nat) {
    exists k :: n <= k < |log| && IsDown(log[k], i)
  }

  predicate IsDown(e: Event, i: nat) {
    e.Down? && e.call == i
  }

  /** Every binding follows a complete inspection of that container, every teardown follows a complete
      observation by the same call, no starting command is issued after an abort, and every container is
      started by a command that was issued before. */
  ghost predicate EventSafe(s: State, k: nat)
    requires k < |s.log|
  {
    var e := s.log[k];
    && (e.Bound? ==> InspectedBefore(s.log, k, e.id))
    && (e.Down? ==> OwnedBefore(s, k, e.call))
    && (e.Up? ==> !AbortedBefore(s.log, k))
    && (e.Started? ==> UpBefore(s.log, k))
  }

  ghost predicate LogSafe(s: State) {
    forall k :: 0 <= k < |s.log| ==> EventSafe(s, k)
  }

  ghost predicate CallSafe(s: State, c: Call, i: nat) {
    && c.at < |s.log| && s.log[c.at] == Called(i)
    && (!c.acquired ==> !UpBefore(s.log, c.at))
    && (c.phase.RetainingParent? && c.phase.complete ==> InspectedBefore(s.log, |s.log|, c.phase.id))
    && (c.phase.Observing? && c.phase.parent.Some? ==> BoundBefore(s.log, |s.log|, c.phase.parent.value))
    && ((c.phase.Judging? && c.phase.complete) || c.phase.Cleared? ==> OwnedBefore(s, |s.log|, i))
    && (c.phase.Downing? || (c.phase.Returned? && c.teardown && c.acquired) ==> DownAfter(s.log, c.at, i))
  }

  ghost predicate CallsSafe(s: State) {
    forall i :: 0 <= i < |s.calls| ==> CallSafe(s, s.calls[i], i)
  }

  /** The simulation is bound, as far as startup is concerned. */
  predicate PastBinding(p: StartPhase) {
    p.Preparing? || p.Assisting? || p.Clocking? || p.Confirming? || p.Ready?
  }

  /** The application's start has been issued, and startup goes on. */
  predicate Underway(p: StartPhase) {
    InFlight(p) || p.Listing? || p.Inspecting? || p.Retaining? || p.Preparing? || p.Confirming?
  }

  ghost predicate FieldsSafe(s: State) {
    && (s.aborted <==> AbortedBefore(s.log, |s.log|))
    && (!s.acquired ==> !UpBefore(s.log, |s.log|))
    && (s.simulation.Some? ==> BoundBefore(s.log, |s.log|, s.simulation.value))
    && (s.start.Retaining? && s.start.complete ==> InspectedBefore(s.log, |s.log|, s.start.id))
    && (PastBinding(s.start) || s.ready ==> s.simulation.Some?)
    && (Underway(s.start) ==> s.acquired)
    && (InFlight(s.start) ==> UpBefore(s.log, |s.log|))
  }

  ghost predicate Inv(s: State) {
    LogSafe(s) && CallsSafe(s) && FieldsSafe(s)
  }

  // ---- the log only grows ----

  ghost predicate Grows(s: State, t: State) {
    t.run == s.run && t.project == s.project && |t.log| <= |s.log| + 1 && s.log <= t.log
  }

  lemma {:induction false} SeenStays(s: State, t: State, k: nat, i: nat)
    requires Grows(s, t) && k < |s.log|
    ensures SeenOwned(s, k, i) <==> SeenOwned(t, k, i)
  {
    hide ProjectOwned;
    var e := s.log[k];
    assert t.log[k] == e;
    if e.Seen? && e.parent.Some? {
      assert BoundBefore(s.log, k, e.parent.value) <==> BoundBefore(t.log, k, e.parent.value);
    }
  }

  lemma {:induction false} OwnedStays(s: State, t: State, n: nat, m: nat, i: nat)
    requires Grows(s, t) && n <= |s.log| && n <= m <= |t.log|
    ensures OwnedBefore(s, n, i) ==> OwnedBefore(t, m, i)
  {
    hide SeenOwned;
    if OwnedBefore(s, n, i) {
      var k :| 0 <= k < n && SeenOwned(s, k, i);
      SeenStays(s, t, k, i);
    }
  }

  /** What is known of a position stays known. */
  lemma {:induction false} EventStays(s: State, t: State, k: nat)
    requires Grows(s, t) && k < |s.log| && EventSafe(s, k)
    ensures EventSafe(t, k)
  {
    hide OwnedBefore;
    assert t.log[k] == s.log[k];
    if s.log[k].Down? { OwnedStays(s, t, k, k, s.log[k].call); }
    assert AbortedBefore(t.log, k) ==> AbortedBefore(s.log, k);
    if UpBefore(s.log, k) { UpStays(s.log, t.log, k, k); }
  }

  lemma {:induction false} UpStays(a: seq<Event>, b: seq<Event>, n: nat, m: nat)
    requires a <= b && n <= |a| && n <= m <= |b| && UpBefore(a, n)
    ensures UpBefore(b, m)
  {
    var k :| 0 <= k < n && a[k].Up?;
    assert b[k].Up?;
  }

  lemma {:induction false} LogStays(s: State, t: State)
    requires Grows(s, t) && LogSafe(s) && (|t.log| > |s.log| ==> EventSafe(t, |s.log|))
    ensures LogSafe(t)
  {
    hide EventSafe;
    forall k | 0 <= k < |t.log|
      ensures EventSafe(t, k)
    {
      if k < |s.log| { EventStays(s, t, k); }
    }
  }

  lemma {:induction false} CallStays(s: State, t: State, c: Call, i: nat)
    requires Grows(s, t) && CallSafe(s, c, i)
    ensures CallSafe(t, c, i)
  {
    hide OwnedBefore;
    OwnedStays(s, t, |s.log|, |t.log|, i);
    assert UpBefore(t.log, c.at) ==> UpBefore(s.log, c.at);
    if DownAfter(s.log, c.at, i) {
      var k :| c.at <= k < |s.log| && IsDown(s.log[k], i);
      assert IsDown(t.log[k], i);
    }
  }

  lemma {:induction false} CallsStay(s: State, t: State)
    requires Grows(s, t) && CallsSafe(s) && t.calls == s.calls
    ensures CallsSafe(t)
  {
    hide CallSafe;
    forall i | 0 <= i < |t.calls|
      ensures CallSafe(t, t.calls[i], i)
    {
      CallStays(s, t, s.calls[i], i);
    }
  }

  lemma {:induction false} OneCallMoves(s: State, t: State, i: nat)
    requires Grows(s, t) && CallsSafe(s) && i < |s.calls| && |t.calls| == |s.calls|
    requires t.calls == s.calls[i := t.calls[i]] && CallSafe(t, t.calls[i], i)
    ensures CallsSafe(t)
  {
    hide CallSafe;
    forall j | 0 <= j < |t.calls|
      ensures CallSafe(t, t.calls[j], j)
    {
      if j != i { CallStays(s, t, s.calls[j], j); }
    }
  }

  lemma {:induction false} InspectedStays(a: seq<Event>, b: seq<Event>, n: nat, m: nat, id: string)
    requires a <= b && n <= |a| && n <= m <= |b| && InspectedBefore(a, n, id)
    ensures InspectedBefore(b, m, id)
  {
    var k :| 0 <= k < n && IsInspection(a[k], id);
    assert IsInspection(b[k], id);
  }

  lemma {:induction false} BoundStays(a: seq<Event>, b: seq<Event>, n: nat, m: nat, id: string)
    requires a <= b && n <= |a| && n <= m <= |b| && BoundBefore(a, n, id)
    ensures BoundBefore(b, m, id)
  {
    var k :| 0 <= k < n && IsBinding(a[k], id);
    assert IsBinding(b[k], id);
  }

  /** Aborts and compose starts in the log, before and after one more event. */
  lemma {:induction false} HistoryStep(s: State, t: State)
    requires Grows(s, t)
    ensures AbortedBefore(t.log, |t.log|) <==>
        AbortedBefore(s.log, |s.log|) || (|t.log| > |s.log| && t.log[|s.log|].Aborted?)
    ensures UpBefore(t.log, |t.log|) <==> UpBefore(s.log, |s.log|) || (|t.log| > |s.log| && t.log[|s.log|].Up?)
  {
    assert forall k :: 0 <= k < |s.log| ==> t.log[k] == s.log[k];
  }

  /** Fields that did not change, after an event that is neither an abort nor a compose start. */
  lemma {:induction false} FieldsStay(s: State, t: State)
    requires Grows(s, t) && FieldsSafe(s) && t.aborted == s.aborted && t.acquired == s.acquired
    requires t.simulation == s.simulation && t.ready == s.ready && t.start == s.start
    requires |t.log| > |s.log| ==> !t.log[|s.log|].Aborted? && !t.log[|s.log|].Up?
    ensures FieldsSafe(t)
  {
    if s.simulation.Some? { BoundStays(s.log, t.log, |s.log|, |t.log|, s.simulation.value); }
    if s.start.Retaining? && s.start.complete { InspectedStays(s.log, t.log, |s.log|, |t.log|, s.start.id); }
    HistoryStep(s, t);
  }

  // ---- every step keeps it ----

  lemma {:induction false} QuietStartKeeps(s: State, t: State)
    requires Inv(s) && Grows(s, t) && t.log == s.log && t.calls == s.calls
    requires t.aborted == s.aborted && t.simulation == s.simulation
    requires (s.acquired ==> t.acquired)
    requires t.start.Retaining? ==> t.start == s.start
    requires PastBinding(t.start) || t.ready ==> s.simulation.Some?
    requires Underway(t.start) ==> t.acquired
    requires InFlight(t.start) ==> UpBefore(s.log, |s.log|)
    ensures Inv(t)
  {
    hide EventSafe, CallSafe;
    LogStays(s, t);
    CallsStay(s, t);
  }

  lemma {:induction false} UpKeeps(s: State, t: State)
    requires Inv(s) && !s.aborted && t == Logged(s.(acquired := true, start := t.start), [Up])
    requires t.start.Upping? || ((t.start.Assisting? || t.start.Clocking?) && s.simulation.Some?)
    ensures Inv(t)
  {
    hide CallSafe, OwnedBefore;
    assert EventSafe(t, |s.log|) by {
      assert !AbortedBefore(s.log, |s.log|);
      assert forall k :: 0 <= k < |s.log| ==> t.log[k] == s.log[k];
    }
    LogStays(s, t);
    CallsStay(s, t);
    if s.simulation.Some? { BoundStays(s.log, t.log, |s.log|, |t.log|, s.simulation.value); }
    HistoryStep(s, t);
  }

  lemma {:induction false} ContainerKeeps(s: State)
    requires Inv(s) && InFlight(s.start)
    ensures Inv(Logged(s, [Started]))
  {
    hide EventSafe, CallSafe;
    var t := Logged(s, [Started]);
    StartIsSafe(s, t);
    LogStays(s, t);
    CallsStay(s, t);
    FieldsStay(s, t);
  }

  lemma {:induction false} StartIsSafe(s: State, t: State)
    requires UpBefore(s.log, |s.log|) && t == Logged(s, [Started])
    ensures EventSafe(t, |s.log|)
  {
    UpStays(s.log, t.log, |s.log|, |s.log|);
  }

  lemma {:induction false} InspectKeeps(s: State, id: string, complete: bool)
    requires Inv(s) && s.start == StartPhase.Inspecting(id)
    ensures Inv(Logged(s.(start := Retaining(id, complete)), [Inspected(id, complete)]))
  {
    hide EventSafe, CallSafe;
    var u := Logged(s, [Inspected(id, complete)]);
    var t := u.(start := Retaining(id, complete));
    InspectionIsSafe(u, |s.log|);
    LogStays(s, u);
    CallsStay(s, u);
    FieldsStay(s, u);
    LogStays(u, t);
    CallsStay(u, t);
    if complete { assert IsInspection(t.log[|s.log|], id); }
  }

  lemma {:induction false} InspectionIsSafe(s: State, k: nat)
    requires k < |s.log| && !s.log[k].Bound? && !s.log[k].Down? && !s.log[k].Up? && !s.log[k].Started?
    ensures EventSafe(s, k)
  {
  }

  lemma {:induction false} BindKeeps(s: State, binder: Option<nat>, id: string)
    requires Inv(s) && InspectedBefore(s.log, |s.log|, id)
    ensures Inv(Logged(s.(simulation := Some(id)), [Bound(binder, id)]))
  {
    hide EventSafe, CallSafe;
    var u := Logged(s, [Bound(binder, id)]);
    var t := u.(simulation := Some(id));
    BindingIsSafe(s, u, binder, id);
    LogStays(s, u);
    CallsStay(s, u);
    FieldsStay(s, u);
    LogStays(u, t);
    CallsStay(u, t);
    assert IsBinding(t.log[|s.log|], id);
  }

  lemma {:induction false} BindingIsSafe(s: State, u: State, binder: Option<nat>, id: string)
    requires InspectedBefore(s.log, |s.log|, id) && u == Logged(s, [Bound(binder, id)])
    ensures EventSafe(u, |s.log|)
  {
    InspectedStays(s.log, u.log, |s.log|, |s.log|, id);
  }

  lemma {:induction false} StartRetainedKeeps(s: State)
    requires Inv(s) && s.start.Retaining? && s.start.complete
    ensures Inv(Logged(s.(start := Preparing, simulation := Some(s.start.id)), [Bound(None, s.start.id)]))
  {
    hide LogSafe, CallsSafe, InspectedBefore, BoundBefore, AbortedBefore, UpBefore;
    var u := Logged(s.(simulation := Some(s.start.id)), [Bound(None, s.start.id)]);
    BindKeeps(s, None, s.start.id);
    QuietStartKeeps(u, u.(start := Preparing));
  }

  lemma {:induction false} StartKeeps(s: State, a: Action)
    requires Inv(s)
    ensures Inv(StartStep(s, a))
  {
    hide LogSafe, CallsSafe, Hex64, InspectedBefore, BoundBefore, AbortedBefore, UpBefore, Logged;
    var t := StartStep(s, a);
    if a.Connected? && s.start.Connecting? && a.ok && !s.aborted {
      IssuedUpKeeps(s, Upping);
    } else if a.Assist? && s.start.Preparing? && !s.aborted {
      IssuedUpKeeps(s, Assisting);
    } else if a.ClockOwner? && s.start.Preparing? && !s.aborted {
      IssuedUpKeeps(s, Clocking);
    } else if a.ContainerStarts? && InFlight(s.start) {
      ContainerKeeps(s);
    } else if a.InspectDone? && s.start.Inspecting? && a.ok {
      InspectKeeps(s, s.start.id, a.complete);
    } else if a.Retained? && s.start.Retaining? && a.ok && s.start.complete {
      StartRetainedKeeps(s);
    } else {
      QuietStartKeeps(s, t);
    }
  }

  lemma {:induction false} IssuedUpKeeps(s: State, phase: StartPhase)
    requires Inv(s) && !s.aborted && (phase.Upping? || ((phase.Assisting? || phase.Clocking?) && s.simulation.Some?))
    ensures Inv(IssueUp(s.(acquired := true), phase))
    ensures s.acquired ==> IssueUp(s.(acquired := true), phase) == IssueUp(s, phase)
  {
    hide Inv;
    UpKeeps(s, Logged(s.(acquired := true, start := phase), [Up]));
  }

  /** A call moves on with nothing in the log. */
  lemma {:induction false} QuietCallKeeps(s: State, i: nat, phase: CallPhase)
    requires Inv(s) && i < |s.calls| && CallSafe(s, s.calls[i].(phase := phase), i)
    ensures Inv(WithPhase(s, i, phase))
  {
    hide EventSafe, CallSafe;
    var t := WithPhase(s, i, phase);
    LogStays(s, t);
    SameLogSameCall(s, t, s.calls[i].(phase := phase), i);
    OneCallMoves(s, t, i);
    FieldsStay(s, t);
  }

  lemma {:induction false} SameLogSameCall(s: State, t: State, c: Call, i: nat)
    requires Grows(s, t) && CallSafe(s, c, i)
    ensures CallSafe(t, c, i)
  {
    CallStays(s, t, c, i);
  }

  /** A call logs an inspection, an observation or a justified teardown, and moves on. */
  lemma {:induction false} LoggingCallKeeps(s: State, t: State, i: nat, e: Event)
    requires Inv(s) && i < |s.calls| && |t.calls| == |s.calls| && t == Logged(WithPhase(s, i, t.calls[i].phase), [e])
    requires !e.Up? && !e.Aborted? && EventSafe(t, |s.log|) && CallSafe(t, t.calls[i], i)
    ensures Inv(t)
  {
    hide EventSafe, CallSafe;
    LogStays(s, t);
    OneCallMoves(s, t, i);
    FieldsStay(s, t);
  }

  lemma {:induction false} AbortKeeps(s: State)
    requires Inv(s) && !s.aborted
    ensures Inv(Logged(s.(aborted := true), [Aborted]))
  {
    hide EventSafe, CallSafe;
    var t := Logged(s.(aborted := true), [Aborted]);
    InspectionIsSafe(t, |s.log|);
    LogStays(s, t);
    CallsStay(s, t);
    HistoryStep(s, t);
    if s.simulation.Some? { BoundStays(s.log, t.log, |s.log|, |t.log|, s.simulation.value); }
    if s.start.Retaining? && s.start.complete { InspectedStays(s.log, t.log, |s.log|, |t.log|, s.start.id); }
  }

  lemma {:induction false} OpenKeeps(s: State, teardown: bool)
    requires Inv(s)
    ensures Inv(Opened(s, teardown))
  {
    hide EventSafe, CallSafe;
    var u := Logged(s, [Called(|s.calls|)]);
    var t := Opened(s, teardown);
    InspectionIsSafe(u, |s.log|);
    LogStays(s, u);
    CallsStay(s, u);
    FieldsStay(s, u);
    LogStays(u, t);
    NewCallIsSafe(s, t, teardown);
    forall i | 0 <= i < |t.calls|
      ensures CallSafe(t, t.calls[i], i)
    {
      if i < |s.calls| { CallStays(u, t, s.calls[i], i); }
    }
  }

  lemma {:induction false} NewCallIsSafe(s: State, t: State, teardown: bool)
    requires FieldsSafe(s) && t == Opened(s, teardown)
    ensures CallSafe(t, t.calls[|s.calls|], |s.calls|)
  {
    assert forall k :: 0 <= k < |s.log| ==> t.log[k] == s.log[k];
  }

  lemma {:induction false} CallInspectedKeeps(s: State, i: nat, id: string, complete: bool, service: bool)
    requires Inv(s) && i < |s.calls| && s.calls[i].phase == CallPhase.InspectingParent(id)
    ensures Inv(Logged(WithPhase(s, i, RetainingParent(id, complete && service)), [Examined(i, id, complete, service)]))
  {
    hide OwnedBefore;
    var t := Logged(WithPhase(s, i, RetainingParent(id, complete && service)), [Examined(i, id, complete, service)]);
    InspectionIsSafe(t, |s.log|);
    assert CallSafe(s, s.calls[i], i);
    CallStays(s, t, s.calls[i], i);
    if complete { assert IsInspection(t.log[|s.log|], id); }
    LoggingCallKeeps(s, t, i, Examined(i, id, complete, service));
  }

  lemma {:induction false} CallBoundKeeps(s: State, i: nat)
    requires Inv(s) && i < |s.calls| && s.calls[i].phase.RetainingParent? && s.calls[i].phase.complete
    ensures var id := s.calls[i].phase.id;
            Inv(Logged(WithPhase(s.(simulation := Some(id)), i, Observing(Some(id))), [Bound(Some(i), id)]))
  {
    hide OwnedBefore, LogSafe, FieldsSafe;
    var id := s.calls[i].phase.id;
    assert CallSafe(s, s.calls[i], i);
    BindKeeps(s, Some(i), id);
    var u := Logged(s.(simulation := Some(id)), [Bound(Some(i), id)]);
    CallStays(s, u, s.calls[i], i);
    assert IsBinding(u.log[|s.log|], id);
    QuietCallKeeps(u, i, Observing(Some(id)));
  }

  lemma {:induction false} ObservationIsSafe(s: State, t: State, i: nat, parent: Option<string>,
      engine: Engine, complete: bool)
    requires Grows(s, t) && i < |s.calls| && CallSafe(s, s.calls[i], i) && s.calls[i].phase == Observing(parent)
    requires |t.log| == |s.log| + 1 && t.log[|s.log|] == Seen(i, parent, engine)
    requires complete ==> ProjectOwned(engine, Owner(s.run, s.project, parent))
    ensures CallSafe(t, s.calls[i].(phase := Judging(complete)), i) && CallSafe(t, s.calls[i].(phase := Refused), i)
  {
    hide ProjectOwned;
    CallStays(s, t, s.calls[i], i);
    if complete {
      if parent.Some? { BoundStays(s.log, t.log, |s.log|, |s.log|, parent.value); }
      assert SeenOwned(t, |s.log|, i);
    }
  }

  lemma {:induction false} CallObservedKeeps(s: State, i: nat, engine: Engine)
    requires Inv(s) && i < |s.calls| && s.calls[i].phase.Observing?
    ensures Inv(CallStep(s, CallObserved(i, engine), i))
  {
    hide ProjectFindings, ProjectOwned, LogSafe, FieldsSafe, CallSafe, EventSafe;
    var parent := s.calls[i].phase.parent;
    var owner := Owner(s.run, s.project, parent);
    var t := CallStep(s, CallObserved(i, engine), i);
    assert CallSafe(s, s.calls[i], i);
    InspectionIsSafe(t, |s.log|);
    var complete := t.calls[i].phase.Judging? && t.calls[i].phase.complete;
    if complete { CompleteIffOwned(engine, owner); }
    ObservationIsSafe(s, t, i, parent, engine, complete);
    LoggingCallKeeps(s, t, i, Seen(i, parent, engine));
  }

  lemma {:induction false} CallDownKeeps(s: State, i: nat)
    requires Inv(s) && i < |s.calls| && s.calls[i].phase.Cleared?
    ensures Inv(Logged(WithPhase(s, i, Downing), [Down(i)]))
  {
    hide SeenOwned, LogSafe, FieldsSafe;
    var t := Logged(WithPhase(s, i, Downing), [Down(i)]);
    assert CallSafe(s, s.calls[i], i);
    CallStays(s, t, s.calls[i], i);
    OwnedStays(s, t, |s.log|, |s.log|, i);
    assert IsDown(t.log[|s.log|], i);
    LoggingCallKeeps(s, t, i, Down(i));
  }

  lemma {:induction false} RefusedKeeps(s: State, i: nat)
    requires Inv(s) && i < |s.calls|
    ensures Inv(WithPhase(s, i, Refused))
  {
    hide LogSafe, FieldsSafe, UpBefore;
    assert CallSafe(s, s.calls[i], i);
    QuietCallKeeps(s, i, Refused);
  }

  lemma {:induction false} ObservingKeeps(s: State, i: nat)
    requires Inv(s) && i < |s.calls|
    ensures Inv(WithPhase(s, i, Observing(s.simulation)))
  {
    hide LogSafe, UpBefore, BoundBefore;
    assert CallSafe(s, s.calls[i], i);
    QuietCallKeeps(s, i, Observing(s.simulation));
  }

  lemma {:induction false} SearchKeeps(s: State, i: nat, phase: CallPhase)
    requires Inv(s) && i < |s.calls| && (phase.Inventory? || phase.InspectingParent?)
    ensures Inv(WithPhase(s, i, phase))
  {
    hide LogSafe, FieldsSafe, UpBefore;
    assert CallSafe(s, s.calls[i], i);
    QuietCallKeeps(s, i, phase);
  }

  lemma {:induction false} JudgedKeeps(s: State, i: nat)
    requires Inv(s) && i < |s.calls| && s.calls[i].phase == Judging(true)
    ensures Inv(WithPhase(s, i, if s.calls[i].teardown then Cleared else Returned))
  {
    hide LogSafe, FieldsSafe, UpBefore, OwnedBefore;
    assert CallSafe(s, s.calls[i], i);
    QuietCallKeeps(s, i, if s.calls[i].teardown then Cleared else Returned);
  }

  lemma {:induction false} DownedKeeps(s: State, i: nat)
    requires Inv(s) && i < |s.calls| && s.calls[i].phase.Downing?
    ensures Inv(WithPhase(s, i, Returned))
  {
    hide LogSafe, FieldsSafe, UpBefore, DownAfter;
    assert CallSafe(s, s.calls[i], i);
    QuietCallKeeps(s, i, Returned);
  }

  /** The inventory is logged, and whatever comes next is safe. */
  lemma {:induction false} InventoryKeeps(s: State, i: nat, ids: seq<Option<string>>)
    requires Inv(s) && i < |s.calls|
    ensures var asked := Logged(s, [Candidates(i, ids)]);
      && Inv(WithPhase(asked, i, Observing(s.simulation))) && Inv(WithPhase(asked, i, Refused))
      && (ids != [] && ids[0].Some? ==> Inv(WithPhase(asked, i, InspectingParent(ids[0].value))))
  {
    hide Inv;
    var asked := Logged(s, [Candidates(i, ids)]);
    AskedKeeps(s, i, ids);
    ObservingKeeps(asked, i);
    RefusedKeeps(asked, i);
    if ids != [] && ids[0].Some? { SearchKeeps(asked, i, InspectingParent(ids[0].value)); }
  }

  lemma {:induction false} AskedKeeps(s: State, i: nat, ids: seq<Option<string>>)
    requires Inv(s)
    ensures Inv(Logged(s, [Candidates(i, ids)]))
  {
    hide EventSafe, CallSafe;
    var t := Logged(s, [Candidates(i, ids)]);
    InspectionIsSafe(t, |s.log|);
    LogStays(s, t);
    CallsStay(s, t);
    FieldsStay(s, t);
  }

  lemma {:induction false} CallKeeps(s: State, a: Action, i: nat)
    requires Inv(s) && i < |s.calls|
    ensures Inv(CallStep(s, a, i))
  {
    hide Inv, ProjectFindings, Hex64, WithPhase, Logged;
    var phase := s.calls[i].phase;
    RefusedKeeps(s, i);
    match a
    case CallReached(_, ok) =>
      if phase.Reaching? {
        ObservingKeeps(s, i);
        SearchKeeps(s, i, Inventory);
      }
    case CallInventory(_, ids) =>
      if phase.Inventory? { InventoryKeeps(s, i, ids); }
    case CallInspected(_, ok, complete, service) =>
      if phase.InspectingParent? { CallInspectedKeeps(s, i, phase.id, complete, service); }
    case CallRetained(_, ok) =>
      if phase.RetainingParent? && phase.complete { CallBoundKeeps(s, i); }
    case CallObserved(_, engine) =>
      if phase.Observing? { ObservedKeepsToo(s, a, i, engine); }
    case CallJudged(_, ok) =>
      if phase == Judging(true) { JudgedKeeps(s, i); }
    case CallDown(_) =>
      if phase.Cleared? { CallDownKeeps(s, i); }
    case CallDowned(_, ok) =>
      if phase.Downing? { DownedKeeps(s, i); }
    case _ =>
  }

  lemma {:induction false} ObservedKeepsToo(s: State, a: Action, i: nat, engine: Engine)
    requires Inv(s) && i < |s.calls| && s.calls[i].phase.Observing? && a.CallObserved? && a.engine == engine
    ensures Inv(CallStep(s, a, i))
  {
    hide Inv, ProjectFindings;
    CallObservedKeeps(s, i, engine);
    assert CallStep(s, a, i) == CallStep(s, CallObserved(i, engine), i);
  }

  lemma {:induction false} ApplyKeeps(s: State, a: Action)
    requires Inv(s)
    ensures Inv(Apply(s, a))
  {
    hide Inv, CallStep, StartStep, Opened;
    if a.Abort? {
      if !s.aborted { AbortKeeps(s); }
    } else if a.NewCall? {
      OpenKeeps(s, a.teardown);
    } else if CallOf(a).Some? {
      if CallOf(a).value < |s.calls| { CallKeeps(s, a, CallOf(a).value); }
    } else {
      StartKeeps(s, a);
    }
  }

  /** Over every run of the provider. */
  lemma {:induction false} RunKeeps(run: string, project: string, actions: seq<Action>)
    ensures Inv(Exec(Initial(run, project), actions))
  {
    hide Apply;
    if actions == [] {
    } else {
      RunKeeps(run, project, actions[..|actions| - 1]);
      ApplyKeeps(Exec(Initial(run, project), actions[..|actions| - 1]), actions[|actions| - 1]);
    }
  }

  // ---- main results ----

  /** In every run: a teardown follows an observation, by the same call, of a project that was owned down to
      the last container, volume, network and namespace parent, where the parent had been bound before. */
  lemma {:induction false} DownFollowsOwnership(run: string, project: string, actions: seq<Action>, k: nat)
    requires k < |Exec(Initial(run, project), actions).log| && Exec(Initial(run, project), actions).log[k].Down?
    ensures var s := Exec(Initial(run, project), actions); OwnedBefore(s, k, s.log[k].call)
  {
    hide Exec, OwnedBefore;
    RunKeeps(run, project, actions);
    assert EventSafe(Exec(Initial(run, project), actions), k);
  }

  /** In every run: a simulation container is bound only after a complete inspection of that container, and
      the provider is ready only with a bound one. */
  lemma {:induction false} BindingFollowsInspection(run: string, project: string, actions: seq<Action>, k: nat)
    ensures var s := Exec(Initial(run, project), actions);
            && (k < |s.log| && s.log[k].Bound? ==> InspectedBefore(s.log, k, s.log[k].id))
            && (s.simulation.Some? ==> BoundBefore(s.log, |s.log|, s.simulation.value))
            && (s.ready ==> s.simulation.Some?)
  {
    hide Exec, InspectedBefore, BoundBefore;
    RunKeeps(run, project, actions);
    var s := Exec(Initial(run, project), actions);
    if k < |s.log| { assert EventSafe(s, k); }
  }

  // ---- when a returned cleanup covers every container start ----

  /** If call i has returned, every start of a container in the log is followed by its teardown. */
  ghost predicate CoveredBy(s: State, i: nat) {
    i < |s.calls| && s.calls[i].phase.Returned? ==>
      forall u :: 0 <= u < |s.log| && s.log[u].Started? ==> DownAfter(s.log, u, i)
  }

  ghost predicate AlwaysCovered(s: State, i: nat) {
    forall actions :: CoveredBy(Exec(s, actions), i)
  }

  /** Startup issues no starting command any more: it has ended, only confirms, or has already seen an
      incomplete inspection that will end it. */
  predicate Settled(p: StartPhase) {
    p.Ready? || p.StartFailed? || p.Confirming? || (p.Retaining? && !p.complete)
  }

  /** No container will be started: no starting command is in flight, and none will be issued. */
  predicate Quiet(s: State) {
    !InFlight(s.start) && (s.aborted || Settled(s.start))
  }

  lemma {:induction false} ExecConcat(s: State, a: seq<Action>, b: seq<Action>)
    ensures Exec(s, a + b) == Exec(Exec(s, a), b)
    decreases |b|
  {
    hide Apply;
    if b == [] {
      assert a + b == a;
    } else {
      assert (a + b)[..|a + b| - 1] == a + b[..|b| - 1];
      ExecConcat(s, a, b[..|b| - 1]);
    }
  }

  lemma {:induction false} ExecOne(s: State, a: Action)
    ensures Exec(s, [a]) == Apply(s, a)
  {
    hide Apply;
    assert Exec(s, [a][..0]) == s;
  }

  /** From s to t no container was started, none will be, and the calls of s are still the same calls. */
  ghost predicate Quieter(s: State, t: State) {
    && s.log <= t.log && (forall k :: |s.log| <= k < |t.log| ==> !t.log[k].Started?)
    && Quiet(t)
    && |s.calls| <= |t.calls| && forall i :: 0 <= i < |s.calls| ==> SameCall(s.calls[i], t.calls[i])
  }

  predicate SameCall(a: Call, b: Call) {
    b.(phase := a.phase) == a
  }

  lemma {:induction false} QuieterStep(s: State, a: Action)
    requires Quiet(s)
    ensures Quieter(s, Apply(s, a))
  {
    hide ProjectFindings, Hex64, CallStep, StartStep, CallOf;
    if CallOf(a).Some? && CallOf(a).value < |s.calls| {
      QuieterCall(s, a, CallOf(a).value);
    } else {
      QuieterStart(s, a);
    }
  }

  /** What a step of call i may change: its own phase, the bound simulation, and one event that is no start. */
  ghost predicate CallFrame(s: State, t: State, i: nat)
    requires i < |s.calls|
  {
    && |t.calls| == |s.calls| && t.calls == s.calls[i := s.calls[i].(phase := t.calls[i].phase)]
    && t == s.(simulation := t.simulation, calls := t.calls, log := t.log)
    && s.log <= t.log && |t.log| <= |s.log| + 1
    && (|t.log| > |s.log| ==> IsCallEvent(t.log[|s.log|]))
  }

  predicate IsCallEvent(e: Event) {
    !e.Up? && !e.Started? && !e.Aborted? && (e.Bound? ==> e.binder.Some?)
  }

  lemma {:induction false} PhaseFrame(s: State, i: nat, phase: CallPhase)
    requires i < |s.calls|
    ensures CallFrame(s, WithPhase(s, i, phase), i)
  {
  }

  lemma {:induction false} EventFrame(s: State, i: nat, simulation: Option<string>, phase: CallPhase, e: Event)
    requires i < |s.calls| && IsCallEvent(e)
    ensures CallFrame(s, Logged(WithPhase(s.(simulation := simulation), i, phase), [e]), i)
    ensures CallFrame(s, WithPhase(Logged(s.(simulation := simulation), [e]), i, phase), i)
  {
  }

  lemma {:induction false} CallStepFrame(s: State, a: Action, i: nat)
    requires i < |s.calls|
    ensures CallFrame(s, CallStep(s, a, i), i)
  {
    hide ProjectFindings, Hex64, CallFrame, WithPhase, Logged;
    var phase := s.calls[i].phase;
    assert s.(simulation := s.simulation) == s;
    PhaseFrame(s, i, phase);
    assert WithPhase(s, i, phase) == s by { SamePhase(s, i); }
    PhaseFrame(s, i, Refused);
    match a
    case CallReached(_, ok) => PhaseFrame(s, i, if s.simulation.Some? then Observing(s.simulation) else Inventory);
    case CallInventory(_, ids) =>
      EventFrame(s, i, s.simulation, Observing(s.simulation), Candidates(i, ids));
      EventFrame(s, i, s.simulation, Refused, Candidates(i, ids));
      if ids != [] && ids[0].Some? {
        EventFrame(s, i, s.simulation, InspectingParent(ids[0].value), Candidates(i, ids));
      }
    case CallInspected(_, ok, complete, service) =>
      if phase.InspectingParent? {
        EventFrame(s, i, s.simulation, RetainingParent(phase.id, complete && service),
                   Examined(i, phase.id, complete, service));
      }
    case CallRetained(_, ok) =>
      if phase.RetainingParent? {
        EventFrame(s, i, Some(phase.id), Observing(Some(phase.id)), Bound(Some(i), phase.id));
      }
    case CallObserved(_, engine) =>
      if phase.Observing? {
        var found := ProjectFindings(engine, Owner(s.run, s.project, phase.parent));
        EventFrame(s, i, s.simulation, Refused, Seen(i, phase.parent, engine));
        EventFrame(s, i, s.simulation, Judging(found.Some? && found.value == NONE), Seen(i, phase.parent, engine));
      }
    case CallJudged(_, ok) =>
      PhaseFrame(s, i, Cleared);
      PhaseFrame(s, i, Returned);
    case CallDown(_) => EventFrame(s, i, s.simulation, Downing, Down(i));
    case CallDowned(_, ok) => PhaseFrame(s, i, Returned);
    case _ =>
  }

  lemma {:induction false} SamePhase(s: State, i: nat)
    requires i < |s.calls|
    ensures WithPhase(s, i, s.calls[i].phase) == s
  {
    assert s.calls[i := s.calls[i].(phase := s.calls[i].phase)] == s.calls;
  }

  lemma {:induction false} QuieterCall(s: State, a: Action, i: nat)
    requires Quiet(s) && i < |s.calls|
    ensures Quieter(s, CallStep(s, a, i))
  {
    hide CallStep;
    CallStepFrame(s, a, i);
  }

  lemma {:induction false} QuieterStart(s: State, a: Action)
    requires Quiet(s)
    ensures Quieter(s, StartStep(s, a))
  {
    hide Hex64;
  }

  lemma {:induction false} QuieterThen(s: State, t: State, u: State)
    requires Quieter(s, t) && Quieter(t, u)
    ensures Quieter(s, u)
  {
    forall i | 0 <= i < |s.calls|
      ensures SameCall(s.calls[i], u.calls[i])
    {
      assert SameCall(s.calls[i], t.calls[i]) && SameCall(t.calls[i], u.calls[i]);
    }
  }

  lemma {:induction false} QuieterRun(s: State, actions: seq<Action>)
    requires Quiet(s)
    ensures Quieter(s, Exec(s, actions))
  {
    hide Apply;
    if actions == [] {
    } else {
      var t := Exec(s, actions[..|actions| - 1]);
      QuieterRun(s, actions[..|actions| - 1]);
      QuieterStep(t, actions[|actions| - 1]);
      QuieterThen(s, t, Apply(t, actions[|actions| - 1]));
    }
  }

  /** A cleanup called when no container will be started covers every start, once it has returned. */
  lemma {:induction false} CleanupCoversStarts(run: string, project: string, before: seq<Action>, after: seq<Action>)
    requires Quiet(Exec(Initial(run, project), before))
    ensures var p := Exec(Initial(run, project), before);
            CoveredBy(Exec(Apply(p, NewCall(true)), after), |p.calls|)
  {
    hide Exec, StartStep, CallStep, LogSafe;
    var p := Exec(Initial(run, project), before);
    var q := Apply(p, NewCall(true));
    var i, s := |p.calls|, Exec(q, after);
    RunKeeps(run, project, before);
    ExecOne(p, NewCall(true));
    ExecConcat(Initial(run, project), before, [NewCall(true)]);
    ExecConcat(Initial(run, project), before + [NewCall(true)], after);
    RunKeeps(run, project, before + [NewCall(true)] + after);
    QuieterRun(q, after);
    assert SameCall(q.calls[i], s.calls[i]) && CallSafe(s, s.calls[i], i);
    forall u | 0 <= u < |s.log| && s.log[u].Started? && s.calls[i].phase.Returned?
      ensures DownAfter(s.log, u, i)
    {
      StartedBefore(p, q, s, u);
      var d :| |p.log| <= d < |s.log| && IsDown(s.log[d], i);
    }
  }

  lemma {:induction false} StartedBefore(p: State, q: State, s: State, u: nat)
    requires LogSafe(p) && FieldsSafe(p) && q == Opened(p, true) && Quieter(q, s)
    requires u < |s.log| && s.log[u].Started?
    ensures u < |p.log| && p.acquired
  {
    assert u < |q.log| && s.log[u] == q.log[u];
    assert q.log[|p.log|] == Called(|p.calls|);
    assert p.log[u].Started? && EventSafe(p, u);
    UpStays(p.log, p.log, u, |p.log|);
  }

  // ---- and when it does not ----

  /** A project without any resource. */
  const EMPTY := Engine(Some([]), Some([]), NullVolumes, map[], map[])

  lemma {:induction false} EmptyIsComplete(owner: Owner)
    ensures ProjectFindings(EMPTY, owner) == Some(NONE)
  {
    assert Resources(EMPTY) == [];
  }

  /** A cleanup can always return. */
  lemma {:induction false} CallReturns(s: State, i: nat) returns (actions: seq<Action>)
    requires s.run != "" && s.project != "" && i < |s.calls| && s.calls[i].teardown
    requires var phase := s.calls[i].phase;
      || phase.Reaching? || phase.Inventory? || phase.Observing? || (phase.Judging? && phase.complete)
      || phase.Cleared? || phase.Downing? || phase.Returned?
    ensures var t := Exec(s, actions);
      && t.start == s.start && t.aborted == s.aborted && |t.calls| == |s.calls|
      && i < |t.calls| && t.calls[i].phase.Returned?
    decreases CallRank(s.calls[i].phase)
  {
    hide ProjectFindings, Exec;
    var phase := s.calls[i].phase;
    if phase.Returned? {
      actions := [];
      ExecNone(s);
    } else {
      var a := NextCallAction(phase, i);
      if phase.Observing? { EmptyIsComplete(Owner(s.run, s.project, phase.parent)); }
      var rest := CallReturns(Apply(s, a), i);
      actions := [a] + rest;
      ExecOne(s, a);
      ExecConcat(s, [a], rest);
    }
  }

  lemma {:induction false} ExecNone(s: State)
    ensures Exec(s, []) == s
  {
  }

  function CallRank(phase: CallPhase): nat {
    match phase
    case Reaching => 6
    case Inventory => 5
    case Observing(_) => 4
    case Judging(_) => 3
    case Cleared => 2
    case Downing => 1
    case _ => 0
  }

  ghost function NextCallAction(phase: CallPhase, i: nat): Action {
    match phase
    case Reaching => CallReached(i, true)
    case Inventory => CallInventory(i, [])
    case Observing(_) => CallObserved(i, EMPTY)
    case Judging(_) => CallJudged(i, true)
    case Cleared => CallDown(i)
    case _ => CallDowned(i, true)
  }

  function Zeros(n: nat): (r: string)
    ensures |r| == n && forall i :: 0 <= i < n ==> r[i] == '0'
  {
    if n == 0 then "" else Zeros(n - 1) + "0"
  }

  function NextStartAction(phase: StartPhase): Action {
    match phase
    case Idle => Begin
    case Versioning => Versioned(true)
    case Connecting => Connected(true)
    case Upping => UpDone(true)
    case Listing => Listed(true, Zeros(64))
    case Inspecting(_) => InspectDone(true, true)
    case Retaining(_, _) => Retained(true)
    case _ => ClockOwner
  }

  function StartRank(phase: StartPhase): nat {
    match phase
    case Idle => 8
    case Versioning => 7
    case Connecting => 6
    case Upping => 5
    case Listing => 4
    case Inspecting(_) => 3
    case Retaining(_, _) => 2
    case Preparing => 1
    case _ => 0
  }

  lemma {:induction false} StartAdvances(s: State)
    requires !Quiet(s) && !s.start.Assisting? && !s.start.Clocking? && (s.start.Upping? ==> !s.aborted)
    ensures var t := Apply(s, NextStartAction(s.start));
      && t.calls == s.calls && t.aborted == s.aborted && !Quiet(t) && StartRank(t.start) < StartRank(s.start)
      && (s.start.Preparing? <==> t.start.Clocking?) && !t.start.Assisting?
  {
    match s.start
    case Idle =>
    case Versioning =>
    case Connecting =>
    case Upping =>
    case Listing =>
    case Inspecting(_) =>
    case Retaining(_, _) =>
    case Preparing =>
    case _ =>
  }

  /** A state that is not quiet can always start one more container: a command in flight does, and a startup
      that is neither aborted nor settled comes to one. */
  lemma {:induction false} StartGoesOn(s: State) returns (actions: seq<Action>)
    requires !Quiet(s)
    ensures var t := Exec(s, actions); t.calls == s.calls && t.log != [] && t.log[|t.log| - 1].Started?
    decreases StartRank(s.start)
  {
    hide Exec, Apply, Quiet, StartRank, NextStartAction;
    if InFlight(s.start) {
      actions := [ContainerStarts];
      ExecOne(s, ContainerStarts);
      ContainerIsLast(s);
    } else {
      var a := NextStartAction(s.start);
      StartAdvances(s);
      ExecOne(s, a);
      var rest := StartGoesOn(Apply(s, a));
      actions := [a] + rest;
      ExecConcat(s, [a], rest);
    }
  }

  lemma {:induction false} ContainerIsLast(s: State)
    requires InFlight(s.start)
    ensures Apply(s, ContainerStarts) == Logged(s, [Started])
  {
  }

  lemma {:induction false} LastStartIsUncovered(s: State, i: nat)
    requires i < |s.calls| && s.calls[i].phase.Returned? && s.log != [] && s.log[|s.log| - 1].Started?
    ensures !CoveredBy(s, i)
  {
    assert !DownAfter(s.log, |s.log| - 1, i);
  }

  /** A returned cleanup covers every container start of every continuation exactly when, at its call, no
      starting command was in flight and startup was aborted or settled. */
  lemma {:induction false} CleanupCoversExactly(run: string, project: string, before: seq<Action>)
    requires run != "" && project != ""
    ensures var p := Exec(Initial(run, project), before);
            AlwaysCovered(Apply(p, NewCall(true)), |p.calls|) <==>
              !InFlight(p.start) && (p.aborted || Settled(p.start))
  {
    hide Exec, CoveredBy, Settled, InFlight;
    var p := Exec(Initial(run, project), before);
    var q := Apply(p, NewCall(true));
    if Quiet(p) {
      forall after
        ensures CoveredBy(Exec(q, after), |p.calls|)
      {
        CleanupCoversStarts(run, project, before, after);
      }
    } else {
      SameOwner(run, project, before);
      var returning := CallReturns(q, |p.calls|);
      var starting := StartGoesOn(Exec(q, returning));
      ExecConcat(q, returning, starting);
      LastStartIsUncovered(Exec(q, returning + starting), |p.calls|);
    }
  }

  lemma {:induction false} SameOwner(run: string, project: string, actions: seq<Action>)
    ensures var s := Exec(Initial(run, project), actions); s.run == run && s.project == project
  {
    hide Apply;
    if actions == [] {
    } else {
      SameOwner(run, project, actions[..|actions| - 1]);
      StepKeepsOwner(Exec(Initial(run, project), actions[..|actions| - 1]), actions[|actions| - 1]);
    }
  }

  lemma {:induction false} StepKeepsOwner(s: State, a: Action)
    ensures Apply(s, a).run == s.run && Apply(s, a).project == s.project
  {
    hide CallStep, StartStep, CallOf;
    if CallOf(a).Some? && CallOf(a).value < |s.calls| { CallStepFrame(s, a, CallOf(a).value); }
    StartKeepsOwner(s, a);
  }

  lemma {:induction false} StartKeepsOwner(s: State, a: Action)
    ensures StartStep(s, a).run == s.run && StartStep(s, a).project == s.project
  {
    hide Hex64;
  }

  /** The shortest such run: a cleanup called while startup still connects finds nothing acquired and returns,
      and startup then starts the application. */
  lemma {:induction false} UncoveredStart(run: string, project: string)
    ensures var actions := [Begin, Versioned(true), NewCall(true), Connected(true), ContainerStarts];
            var s := Exec(Initial(run, project), actions);
            && |s.calls| == 1 && s.calls[0].teardown && s.calls[0].phase.Returned?
            && s.log == [Called(0), Up, Started] && s.acquired && !CoveredBy(s, 0)
  {
    var actions := [Begin, Versioned(true), NewCall(true), Connected(true), ContainerStarts];
    var s0 := Initial(run, project);
    assert actions[..5] == actions && actions[..4][..3] == actions[..3];
    assert actions[..3][..2] == actions[..2] && actions[..2][..1] == actions[..1];
    assert Exec(s0, actions[..0]) == s0;
    assert Exec(s0, actions[..1]) == s0.(start := Versioning);
    assert Exec(s0, actions[..2]) == s0.(start := Connecting);
    assert actions[..3] == actions[..2] + [NewCall(true)];
    var s3 := Opened(s0.(start := Connecting), true);
    assert Exec(s0, actions[..3]) == s3 && s3.log == [Called(0)];
    assert Exec(s0, actions[..4]) == Apply(Exec(s0, actions[..3]), Connected(true));
    assert Exec(s0, actions) == Apply(Exec(s0, actions[..4]), ContainerStarts);
    LastStartIsUncovered(Exec(s0, actions), 0);
  }

  /** A startup that is neither aborted nor settled comes to its last command. */
  lemma {:induction false} LastCommandIssued(s: State) returns (actions: seq<Action>)
    requires !s.aborted && !Settled(s.start) && !s.start.Assisting?
    ensures var t := Exec(s, actions); t.start.Clocking? && !t.aborted && t.calls == s.calls
    decreases StartRank(s.start)
  {
    hide Exec, Apply, StartRank, NextStartAction;
    if s.start.Clocking? {
      actions := [];
      ExecNone(s);
    } else {
      var a := NextStartAction(s.start);
      StartAdvances(s);
      ExecOne(s, a);
      var rest := LastCommandIssued(Apply(s, a));
      actions := [a] + rest;
      ExecConcat(s, [a], rest);
    }
  }

  /** An abort before the call is not enough: startup issues its last command and is aborted, a cleanup observes
      an owned project, tears it down and returns, and the command then still starts its container. */
  lemma {:induction false} UncoveredLastStart(run: string, project: string)
    returns (before: seq<Action>, after: seq<Action>)
    requires run != "" && project != ""
    ensures var p := Exec(Initial(run, project), before);
            var s := Exec(Apply(p, NewCall(true)), after);
            && p.aborted && p.start.Clocking? && p.calls == []
            && |s.calls| == 1 && s.calls[0].phase.Returned? && s.log != [] && s.log[|s.log| - 1].Started?
            && !CoveredBy(s, 0)
  {
    hide Exec, CoveredBy;
    var s0 := Initial(run, project);
    var issuing := LastCommandIssued(s0);
    ExecOne(Exec(s0, issuing), Abort);
    ExecConcat(s0, issuing, [Abort]);
    before := issuing + [Abort];
    SameOwner(run, project, before);
    var q := Apply(Exec(s0, before), NewCall(true));
    var returning := CallReturns(q, 0);
    ExecOne(Exec(q, returning), ContainerStarts);
    ExecConcat(q, returning, [ContainerStarts]);
    after := returning + [ContainerStarts];
    LastStartIsUncovered(Exec(q, after), 0);
  }
}
