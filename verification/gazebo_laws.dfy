/** How calls of the Gazebo provider find the container they bind, and how its startup ends.  The transition
    system is that of `GazeboProvider`; the laws speak of its runs only. */
module GazeboLaws {
  import opened Paths
  import opened EngineOwnership
  import opened GazeboProvider

  // ---- the only candidate ----

  /** An event of call i. */
  predicate Concerns(e: Event, i: nat) {
    match e
    case Candidates(call, _) => call == i
    case Examined(call, _, _, _) => call == i
    case Bound(binder, _) => binder == Some(i)
    case Seen(call, _, _) => call == i
    case Down(call) => call == i
    case _ => false
  }

  /** An inspection, a binding, an observation or a teardown by call i. */
  predicate ActsFor(e: Event, i: nat) {
    Concerns(e, i) && !e.Candidates?
  }

  /** Neither no candidate at all nor one with an exact identifier. */
  predicate Ambiguous(ids: seq<Option<string>>) {
    ids != [] && !(|ids| == 1 && ids[0].Some? && Hex64(ids[0].value))
  }

  ghost predicate Asked(log: seq<Event>, n: nat, i: nat, ids: seq<Option<string>>) {
    exists k :: 0 <= k < n && k < |log| && log[k] == Candidates(i, ids)
  }

  /** Before position n the call's inventory named just this container, and then the call has inspected it
      completely, as the simulation. */
  ghost predicate Singled(log: seq<Event>, n: nat, i: nat, id: string) {
    exists k :: 0 <= k < n && k < |log| && log[k] == Examined(i, id, true, true) && Asked(log, k, i, [Some(id)])
  }

  ghost predicate EventTraced(log: seq<Event>, j: nat, i: nat)
    requires j < |log|
  {
    && (log[j].Bound? && log[j].binder == Some(i) ==> Hex64(log[j].id) && Singled(log, j, i, log[j].id))
    && (log[j].Seen? && log[j].call == i && log[j].parent.None? ==> Asked(log, j, i, []))
  }

  predicate Settles(log: seq<Event>, j: nat, i: nat)
    requires j < |log|
  {
    log[j].Candidates? && log[j].call == i && Ambiguous(log[j].ids)
  }

  ghost predicate Traced(log: seq<Event>, phase: CallPhase, i: nat) {
    && (phase.Reaching? || phase.Inventory? ==> forall j :: 0 <= j < |log| ==> !Concerns(log[j], i))
    && (forall j, k :: 0 <= j < |log| && 0 <= k < |log| && Settles(log, j, i) ==> !ActsFor(log[k], i))
    && (forall j :: 0 <= j < |log| && Settles(log, j, i) ==> phase.Refused?)
    && (phase.InspectingParent? || phase.RetainingParent? ==>
          Hex64(phase.id) && Asked(log, |log|, i, [Some(phase.id)]))
    && (phase.RetainingParent? && phase.complete ==> Singled(log, |log|, i, phase.id))
    && (phase.Observing? && phase.parent.None? ==> Asked(log, |log|, i, []))
    && forall j :: 0 <= j < |log| ==> EventTraced(log, j, i)
  }

  ghost predicate AllTraced(s: State) {
    && (forall i :: 0 <= i < |s.calls| ==> Traced(s.log, s.calls[i].phase, i))
    && forall j: nat, i: nat :: j < |s.log| && Concerns(s.log[j], i) ==> i < |s.calls|
  }

  lemma {:induction false} AskedStays(log: seq<Event>, e: Event, n: nat, m: nat, i: nat, ids: seq<Option<string>>)
    requires n <= |log| && n <= m
    ensures Asked(log, n, i, ids) ==> Asked(log + [e], m, i, ids)
    ensures Asked(log + [e], n, i, ids) ==> Asked(log, n, i, ids)
  {
    var more := log + [e];
    assert forall k :: 0 <= k < |log| ==> more[k] == log[k];
    if Asked(log, n, i, ids) {
      var k :| 0 <= k < n && log[k] == Candidates(i, ids);
      assert more[k] == Candidates(i, ids);
    }
  }

  lemma {:induction false} SingledStays(log: seq<Event>, e: Event, n: nat, m: nat, i: nat, id: string)
    requires n <= |log| && n <= m
    ensures Singled(log, n, i, id) ==> Singled(log + [e], m, i, id)
  {
    if Singled(log, n, i, id) {
      var k :| 0 <= k < n && log[k] == Examined(i, id, true, true) && Asked(log, k, i, [Some(id)]);
      AskedStays(log, e, k, k, i, [Some(id)]);
      assert (log + [e])[k] == Examined(i, id, true, true);
    }
  }

  lemma {:induction false} EventStaysTraced(log: seq<Event>, e: Event, j: nat, i: nat)
    requires j < |log| && EventTraced(log, j, i)
    ensures EventTraced(log + [e], j, i)
  {
    hide Asked, Singled, Hex64;
    assert (log + [e])[j] == log[j];
    if log[j].Bound? { SingledStays(log, e, j, j, i, log[j].id); }
    AskedStays(log, e, j, j, i, []);
  }

  /** One more event, and perhaps another phase. */
  lemma {:induction false} TracedNext(log: seq<Event>, phase: CallPhase, i: nat, e: Event, next: CallPhase)
    requires Traced(log, phase, i)
    requires Concerns(e, i) || next == phase
    requires Concerns(e, i) ==>
      && !phase.Refused? && !next.Reaching? && !next.Inventory?
      && (e.Candidates? ==> phase.Inventory? && (Ambiguous(e.ids) ==> next.Refused?))
    requires var more := log + [e];
      && EventTraced(more, |log|, i)
      && (Concerns(e, i) && (next.InspectingParent? || next.RetainingParent?) ==>
            Hex64(next.id) && Asked(more, |more|, i, [Some(next.id)]))
      && (Concerns(e, i) && next.RetainingParent? && next.complete ==> Singled(more, |more|, i, next.id))
      && (Concerns(e, i) && next.Observing? && next.parent.None? ==> Asked(more, |more|, i, []))
    ensures Traced(log + [e], next, i)
  {
    hide Asked, Singled, Hex64, EventTraced, Ambiguous;
    var more := log + [e];
    assert forall k :: 0 <= k < |log| ==> more[k] == log[k];
    assert forall k :: 0 <= k < |log| ==> (Settles(more, k, i) <==> Settles(log, k, i));
    forall j | 0 <= j < |more|
      ensures EventTraced(more, j, i)
    {
      if j < |log| { EventStaysTraced(log, e, j, i); }
    }
    if phase.InspectingParent? || phase.RetainingParent? {
      AskedStays(log, e, |log|, |more|, i, [Some(phase.id)]);
      SingledStays(log, e, |log|, |more|, i, phase.id);
    }
    AskedStays(log, e, |log|, |more|, i, []);
  }

  lemma {:induction false} OthersTraced(log: seq<Event>, phase: CallPhase, i: nat, e: Event)
    requires Traced(log, phase, i) && !Concerns(e, i)
    ensures Traced(log + [e], phase, i)
  {
    hide Traced, Asked, Singled, Hex64;
    TracedNext(log, phase, i, e, phase);
  }

  /** A step of call i that logs nothing. */
  lemma {:induction false} QuietTraced(s: State, i: nat, next: CallPhase)
    requires AllTraced(s) && i < |s.calls| && Traced(s.log, next, i)
    ensures AllTraced(WithPhase(s, i, next))
  {
    hide Traced, Concerns;
  }

  /** A step of call i that logs one event of its own. */
  lemma {:induction false} LoggingTraced(s: State, t: State, i: nat, e: Event)
    requires AllTraced(s) && i < |s.calls| && t.log == s.log + [e] && |t.calls| == |s.calls|
    requires t.calls == s.calls[i := t.calls[i]] && Traced(t.log, t.calls[i].phase, i)
    requires forall j: nat :: Concerns(e, j) ==> j == i
    ensures AllTraced(t)
  {
    hide Traced, Concerns;
    forall j | 0 <= j < |t.calls|
      ensures Traced(t.log, t.calls[j].phase, j)
    {
      if j != i { OthersTraced(s.log, s.calls[j].phase, j, e); }
    }
  }

  lemma {:induction false} InventoryTraced(s: State, i: nat, ids: seq<Option<string>>)
    requires AllTraced(s) && i < |s.calls| && s.calls[i].phase.Inventory?
    ensures AllTraced(CallStep(s, CallInventory(i, ids), i))
  {
    hide Hex64, Traced;
    var e := Candidates(i, ids);
    var t := CallStep(s, CallInventory(i, ids), i);
    assert Asked(t.log, |t.log|, i, ids) by { assert t.log[|s.log|] == e; }
    assert |ids| == 1 && ids[0].Some? ==> ids == [Some(ids[0].value)];
    assert ids == [] || ids != [];
    TracedNext(s.log, Inventory, i, e, t.calls[i].phase);
    LoggingTraced(s, t, i, e);
  }

  lemma {:induction false} ExaminedTraced(s: State, i: nat, complete: bool, service: bool)
    requires AllTraced(s) && i < |s.calls| && s.calls[i].phase.InspectingParent?
    ensures AllTraced(CallStep(s, CallInspected(i, true, complete, service), i))
  {
    hide Hex64, Traced;
    var phase := s.calls[i].phase;
    var e := Examined(i, phase.id, complete, service);
    var t := CallStep(s, CallInspected(i, true, complete, service), i);
    PhaseTraced(s, i);
    AskedStays(s.log, e, |s.log|, |s.log|, i, [Some(phase.id)]);
    AskedStays(s.log, e, |s.log|, |t.log|, i, [Some(phase.id)]);
    assert t.log[|s.log|] == e;
    TracedNext(s.log, phase, i, e, t.calls[i].phase);
    LoggingTraced(s, t, i, e);
  }

  lemma {:induction false} PhaseTraced(s: State, i: nat)
    requires AllTraced(s) && i < |s.calls|
    ensures var phase := s.calls[i].phase;
      && (phase.InspectingParent? || phase.RetainingParent? ==>
            Hex64(phase.id) && Asked(s.log, |s.log|, i, [Some(phase.id)]))
      && (phase.RetainingParent? && phase.complete ==> Singled(s.log, |s.log|, i, phase.id))
      && (phase.Observing? && phase.parent.None? ==> Asked(s.log, |s.log|, i, []))
  {
    hide Asked, Singled, Hex64, EventTraced, Settles, Concerns, ActsFor;
    assert Traced(s.log, s.calls[i].phase, i);
  }

  lemma {:induction false} BoundTraced(s: State, i: nat)
    requires AllTraced(s) && i < |s.calls| && s.calls[i].phase.RetainingParent? && s.calls[i].phase.complete
    ensures AllTraced(CallStep(s, CallRetained(i, true), i))
  {
    hide Hex64, Traced, Asked, Singled;
    var phase := s.calls[i].phase;
    var e := Bound(Some(i), phase.id);
    var t := CallStep(s, CallRetained(i, true), i);
    PhaseTraced(s, i);
    SingledStays(s.log, e, |s.log|, |s.log|, i, phase.id);
    TracedNext(s.log, phase, i, e, t.calls[i].phase);
    LoggingTraced(s, t, i, e);
  }

  lemma {:induction false} SeenTraced(s: State, i: nat, engine: Engine)
    requires AllTraced(s) && i < |s.calls| && s.calls[i].phase.Observing?
    ensures AllTraced(CallStep(s, CallObserved(i, engine), i))
  {
    hide Hex64, Traced, Asked, Singled, ProjectFindings;
    var phase := s.calls[i].phase;
    var e := Seen(i, phase.parent, engine);
    var t := CallStep(s, CallObserved(i, engine), i);
    PhaseTraced(s, i);
    AskedStays(s.log, e, |s.log|, |s.log|, i, []);
    TracedNext(s.log, phase, i, e, t.calls[i].phase);
    LoggingTraced(s, t, i, e);
  }

  lemma {:induction false} DownTraced(s: State, i: nat)
    requires AllTraced(s) && i < |s.calls| && s.calls[i].phase.Cleared?
    ensures AllTraced(CallStep(s, CallDown(i), i))
  {
    hide Hex64, Traced, Asked, Singled;
    var t := CallStep(s, CallDown(i), i);
    TracedNext(s.log, Cleared, i, Down(i), Downing);
    LoggingTraced(s, t, i, Down(i));
  }

  /** Phases that ask nothing of the log. */
  lemma {:induction false} FreeTraced(s: State, i: nat, next: CallPhase)
    requires AllTraced(s) && i < |s.calls| && (s.calls[i].phase.Refused? ==> next.Refused?)
    requires next.Refused? || next.Judging? || next.Cleared? || next.Returned?
        || (next.Inventory? && s.calls[i].phase.Reaching?) || (next.Observing? && next.parent.Some?)
    ensures AllTraced(WithPhase(s, i, next))
  {
    hide Asked, Singled, Hex64, EventTraced, Settles, Concerns, ActsFor;
    assert Traced(s.log, s.calls[i].phase, i);
    QuietTraced(s, i, next);
  }

  lemma {:induction false} CallStepTraced(s: State, a: Action, i: nat)
    requires AllTraced(s) && i < |s.calls| && CallOf(a) == Some(i)
    ensures AllTraced(CallStep(s, a, i))
  {
    hide AllTraced, ProjectFindings, Hex64, WithPhase, Logged;
    var phase := s.calls[i].phase;
    match a
    case CallReached(_, ok) =>
      if phase.Reaching? {
        FreeTraced(s, i, Refused);
        FreeTraced(s, i, Inventory);
        if s.simulation.Some? { FreeTraced(s, i, Observing(s.simulation)); }
      }
    case CallInventory(_, ids) => if phase.Inventory? { InventoryTraced(s, i, ids); }
    case CallInspected(_, ok, complete, service) =>
      if phase.InspectingParent? {
        FreeTraced(s, i, Refused);
        ExaminedTraced(s, i, complete, service);
      }
    case CallRetained(_, ok) =>
      if phase.RetainingParent? {
        FreeTraced(s, i, Refused);
        if phase.complete { BoundTraced(s, i); }
      }
    case CallObserved(_, engine) => if phase.Observing? { SeenTraced(s, i, engine); }
    case CallJudged(_, ok) =>
      if phase.Judging? {
        FreeTraced(s, i, Refused);
        FreeTraced(s, i, Cleared);
        FreeTraced(s, i, Returned);
      }
    case CallDown(_) => if phase.Cleared? { DownTraced(s, i); }
    case CallDowned(_, ok) =>
      if phase.Downing? {
        FreeTraced(s, i, Refused);
        FreeTraced(s, i, Returned);
      }
  }

  /** An event of startup, an abort, or the call of a new one. */
  lemma {:induction false} OtherTraced(s: State, t: State)
    requires AllTraced(s) && t.calls == s.calls && s.log <= t.log && |t.log| <= |s.log| + 1
    requires |t.log| > |s.log| ==> forall i: nat :: !Concerns(t.log[|s.log|], i)
    ensures AllTraced(t)
  {
    hide Traced, Concerns;
    if |t.log| > |s.log| {
      var e := t.log[|s.log|];
      assert t.log == s.log + [e];
      forall i | 0 <= i < |t.calls|
        ensures Traced(t.log, t.calls[i].phase, i)
      {
        OthersTraced(s.log, s.calls[i].phase, i, e);
      }
    } else {
      assert t.log == s.log;
    }
  }

  lemma {:induction false} OpenedTraced(s: State, teardown: bool)
    requires AllTraced(s)
    ensures AllTraced(Opened(s, teardown))
  {
    hide Asked, Singled, Hex64, ActsFor;
    var i, t := |s.calls|, Opened(s, teardown);
    assert t.log == s.log + [Called(i)];
    forall k | 0 <= k < |t.calls|
      ensures Traced(t.log, t.calls[k].phase, k)
    {
      if k < i {
        assert Traced(s.log, s.calls[k].phase, k);
        OthersTraced(s.log, s.calls[k].phase, k, Called(i));
      } else {
        NothingTraced(t.log, t.calls[i].phase, i);
      }
    }
  }

  lemma {:induction false} NothingTraced(log: seq<Event>, phase: CallPhase, i: nat)
    requires forall j :: 0 <= j < |log| ==> !Concerns(log[j], i)
    requires phase.Reaching? || phase.Returned?
    ensures Traced(log, phase, i)
  {
    forall j | 0 <= j < |log|
      ensures EventTraced(log, j, i) && !Settles(log, j, i) && !ActsFor(log[j], i)
    {
    }
  }

  lemma {:induction false} StartStepLogs(s: State, a: Action)
    ensures var t := StartStep(s, a);
      && t.calls == s.calls && s.log <= t.log && |t.log| <= |s.log| + 1
      && (|t.log| > |s.log| ==> forall i: nat :: !Concerns(t.log[|s.log|], i))
  {
    hide Hex64;
  }

  lemma {:induction false} StepTraced(s: State, a: Action)
    requires AllTraced(s)
    ensures AllTraced(Apply(s, a))
  {
    hide AllTraced, CallStep, StartStep, Opened;
    if a.Abort? {
      if !s.aborted { OtherTraced(s, Logged(s.(aborted := true), [Aborted])); }
    } else if a.NewCall? {
      OpenedTraced(s, a.teardown);
    } else if CallOf(a).Some? {
      if CallOf(a).value < |s.calls| { CallStepTraced(s, a, CallOf(a).value); }
    } else {
      StartStepLogs(s, a);
      OtherTraced(s, StartStep(s, a));
    }
  }

  lemma {:induction false} RunTraced(run: string, project: string, actions: seq<Action>)
    ensures AllTraced(Exec(Initial(run, project), actions))
  {
    hide Apply, Traced;
    if actions == [] {
    } else {
      RunTraced(run, project, actions[..|actions| - 1]);
      StepTraced(Exec(Initial(run, project), actions[..|actions| - 1]), actions[|actions| - 1]);
    }
  }

  /** In every run: a container that a call has bound was the only candidate of that call's own inventory, had an
      exact identifier, and was then inspected completely, as the simulation, by the same call. */
  lemma {:induction false} BoundWasOnlyCandidate(run: string, project: string, actions: seq<Action>, k: nat)
    requires var s := Exec(Initial(run, project), actions);
      k < |s.log| && s.log[k].Bound? && s.log[k].binder.Some?
    ensures var log := Exec(Initial(run, project), actions).log; var i, id := log[k].binder.value, log[k].id;
      && Hex64(id)
      && exists a, b :: 0 <= a < b < k && log[a] == Candidates(i, [Some(id)]) && log[b] == Examined(i, id, true, true)
  {
    hide Exec, Hex64;
    RunTraced(run, project, actions);
    var s := Exec(Initial(run, project), actions);
    var i, id := s.log[k].binder.value, s.log[k].id;
    assert Concerns(s.log[k], i);
    assert Traced(s.log, s.calls[i].phase, i) && EventTraced(s.log, k, i);
    var b :| 0 <= b < k && s.log[b] == Examined(i, id, true, true) && Asked(s.log, b, i, [Some(id)]);
    var a :| 0 <= a < b && s.log[a] == Candidates(i, [Some(id)]);
  }

  /** A call whose inventory names several candidates, or one without an exact identifier, inspects, binds,
      observes and tears down nothing, whatever happens before or after. */
  lemma {:induction false} AmbiguityStops(run: string, project: string, actions: seq<Action>, k: nat, j: nat)
    requires var s := Exec(Initial(run, project), actions);
      k < |s.log| && s.log[k].Candidates? && Ambiguous(s.log[k].ids) && j < |s.log|
    ensures var s := Exec(Initial(run, project), actions);
      && !ActsFor(s.log[j], s.log[k].call)
      && s.log[k].call < |s.calls| && s.calls[s.log[k].call].phase.Refused?
  {
    hide Exec, Hex64, Ambiguous;
    RunTraced(run, project, actions);
    var s := Exec(Initial(run, project), actions);
    var i := s.log[k].call;
    assert Concerns(s.log[k], i);
    assert Traced(s.log, s.calls[i].phase, i) && Settles(s.log, k, i);
  }

  /** A call that observes the project without a namespace parent has found no candidate for one. */
  lemma {:induction false} ParentlessWasEmpty(run: string, project: string, actions: seq<Action>, k: nat)
    requires var s := Exec(Initial(run, project), actions);
      k < |s.log| && s.log[k].Seen? && s.log[k].parent.None?
    ensures var log := Exec(Initial(run, project), actions).log;
      exists a :: 0 <= a < k && log[a] == Candidates(log[k].call, [])
  {
    hide Exec, Hex64;
    RunTraced(run, project, actions);
    var s := Exec(Initial(run, project), actions);
    var i := s.log[k].call;
    assert Concerns(s.log[k], i);
    assert Traced(s.log, s.calls[i].phase, i) && EventTraced(s.log, k, i);
  }

  /** The only candidate can be bound. */
  lemma {:induction false} CandidateCanBeBound(s: State, i: nat, id: string)
    requires i < |s.calls| && s.calls[i].phase.Inventory? && Hex64(id)
    ensures var t := Exec(s, [CallInventory(i, [Some(id)]), CallInspected(i, true, true, true), CallRetained(i, true)]);
      t.simulation == Some(id) && t.calls == s.calls[i := s.calls[i].(phase := Observing(Some(id)))]
  {
    hide Exec, Hex64;
    var a, b, d := CallInventory(i, [Some(id)]), CallInspected(i, true, true, true), CallRetained(i, true);
    ExecOne(s, a);
    ExecOne(Exec(s, [a]), b);
    ExecConcat(s, [a], [b]);
    ExecOne(Exec(s, [a] + [b]), d);
    ExecConcat(s, [a] + [b], [d]);
    assert [a] + [b] + [d] == [a, b, d];
  }

  // ---- how startup ends ----

  /** The answer to what startup waits for is a failure. */
  predicate Fails(p: StartPhase, a: Action) {
    match a
    case Versioned(ok) => p.Versioning? && !ok
    case Connected(ok) => p.Connecting? && !ok
    case UpDone(ok) => InFlight(p) && !ok
    case Listed(ok, id) => p.Listing? && (!ok || !Hex64(id))
    case InspectDone(ok, complete) => p.Inspecting? && !ok
    case Retained(ok) => p.Retaining? && (!ok || !p.complete)
    case Continue(ok) => (p.Preparing? || p.Confirming?) && !ok
    case _ => false
  }

  lemma {:induction false} FailedStays(s: State, a: Action)
    requires s.start.StartFailed?
    ensures var t := Apply(s, a);
      && t.start.StartFailed? && t.ready == s.ready && s.log <= t.log && |t.log| <= |s.log| + 1
      && (|t.log| > |s.log| ==> !t.log[|s.log|].Up? && !t.log[|s.log|].Started?
                                && (t.log[|s.log|].Bound? ==> t.log[|s.log|].binder.Some?))
  {
    hide CallStep, Hex64;
    if CallOf(a).Some? && CallOf(a).value < |s.calls| { CallStepFrame(s, a, CallOf(a).value); }
  }

  lemma {:induction false} FailedForever(s: State, after: seq<Action>)
    requires s.start.StartFailed?
    ensures var t := Exec(s, after);
      && t.start.StartFailed? && t.ready == s.ready && s.log <= t.log
      && forall k :: |s.log| <= k < |t.log| ==>
           !t.log[k].Up? && !t.log[k].Started? && (t.log[k].Bound? ==> t.log[k].binder.Some?)
  {
    hide Apply;
    if after == [] {
    } else {
      FailedForever(s, after[..|after| - 1]);
      FailedStays(Exec(s, after[..|after| - 1]), after[|after| - 1]);
    }
  }

  /** A startup whose version check, connection, command, listing, inspection, retention or readiness check fails
      is over: it issues no starting command, starts no container, binds none and is never ready. */
  lemma {:induction false} FailureEndsStartup(run: string, project: string, before: seq<Action>, a: Action,
      after: seq<Action>)
    requires Fails(Exec(Initial(run, project), before).start, a)
    ensures var s := Exec(Initial(run, project), before); var t := Exec(Apply(s, a), after);
      && !t.ready && s.log <= t.log
      && forall k :: |s.log| <= k < |t.log| ==>
           !t.log[k].Up? && !t.log[k].Started? && (t.log[k].Bound? ==> t.log[k].binder.Some?)
  {
    hide Exec, Hex64;
    var s := Exec(Initial(run, project), before);
    UnreadyBefore(run, project, before);
    FailedForever(Apply(s, a), after);
  }

  /** Only a startup that has ended well is ready. */
  lemma {:induction false} UnreadyBefore(run: string, project: string, actions: seq<Action>)
    ensures var s := Exec(Initial(run, project), actions); s.ready <==> s.start.Ready?
  {
    hide Apply;
    if actions == [] {
    } else {
      UnreadyBefore(run, project, actions[..|actions| - 1]);
      ReadyStep(Exec(Initial(run, project), actions[..|actions| - 1]), actions[|actions| - 1]);
    }
  }

  lemma {:induction false} ReadyStep(s: State, a: Action)
    requires s.ready <==> s.start.Ready?
    ensures Apply(s, a).ready <==> Apply(s, a).start.Ready?
  {
    hide CallStep, Hex64;
    if CallOf(a).Some? && CallOf(a).value < |s.calls| { CallStepFrame(s, a, CallOf(a).value); }
  }

  /** And it can end well. */
  lemma {:induction false} StartupCanFinish(run: string, project: string) returns (actions: seq<Action>)
    ensures var s := Exec(Initial(run, project), actions); s.ready && s.start.Ready? && s.simulation.Some?
  {
    hide Exec;
    var s0 := Initial(run, project);
    var issuing := LastCommandIssued(s0);
    var s := Exec(s0, issuing);
    ExecOne(s, UpDone(true));
    ExecConcat(s0, issuing, [UpDone(true)]);
    ExecOne(Exec(s0, issuing + [UpDone(true)]), Finish);
    ExecConcat(s0, issuing + [UpDone(true)], [Finish]);
    actions := issuing + [UpDone(true)] + [Finish];
    RunKeeps(run, project, actions);
  }

  // ---- observations and clean-ups ----

  ghost predicate Harmless(s: State) {
    && (forall i :: 0 <= i < |s.calls| && !s.calls[i].teardown ==>
          !s.calls[i].phase.Cleared? && !s.calls[i].phase.Downing?)
    && forall k :: 0 <= k < |s.log| && s.log[k].Down? ==>
         s.log[k].call < |s.calls| && s.calls[s.log[k].call].teardown
  }

  lemma {:induction false} StepHarmless(s: State, a: Action)
    requires Harmless(s)
    ensures Harmless(Apply(s, a))
  {
    hide ProjectFindings, Hex64, StartStep, CallStep;
    if CallOf(a).Some? && CallOf(a).value < |s.calls| {
      CallHarmless(s, a, CallOf(a).value);
    } else if !a.Abort? && !a.NewCall? && CallOf(a).None? {
      StartLogsNoDown(s, a);
    }
  }

  lemma {:induction false} StartLogsNoDown(s: State, a: Action)
    ensures var t := StartStep(s, a);
      && t.calls == s.calls && s.log <= t.log && |t.log| <= |s.log| + 1
      && (|t.log| > |s.log| ==> !t.log[|s.log|].Down?)
  {
    hide Hex64;
  }

  /** A teardown is cleared only for a clean-up, and only a cleared one is issued. */
  predicate Clears(s: State, t: State, i: nat)
    requires i < |s.calls|
  {
    var phase := s.calls[i].phase;
    && |t.calls| == |s.calls|
    && (t.calls[i].phase.Cleared? ==> phase.Cleared? || s.calls[i].teardown)
    && (t.calls[i].phase.Downing? ==> phase.Downing? || phase.Cleared?)
    && (|t.log| > |s.log| && t.log[|s.log|].Down? ==> t.log[|s.log|].call == i && phase.Cleared?)
  }

  lemma {:induction false} PhaseClears(s: State, i: nat, next: CallPhase)
    requires i < |s.calls|
    ensures !next.Cleared? && !next.Downing? ==> Clears(s, WithPhase(s, i, next), i)
    ensures next.Cleared? && s.calls[i].teardown ==> Clears(s, WithPhase(s, i, next), i)
    ensures Clears(s, s, i)
  {
  }

  lemma {:induction false} EventClears(s: State, i: nat, simulation: Option<string>, next: CallPhase, e: Event)
    requires i < |s.calls| && !next.Cleared? && (next.Downing? || e.Down? ==> e == Down(i) && s.calls[i].phase.Cleared?)
    ensures Clears(s, Logged(WithPhase(s.(simulation := simulation), i, next), [e]), i)
    ensures Clears(s, WithPhase(Logged(s.(simulation := simulation), [e]), i, next), i)
  {
  }

  lemma {:induction false} CallClears(s: State, a: Action, i: nat)
    requires i < |s.calls|
    ensures Clears(s, CallStep(s, a, i), i)
  {
    hide ProjectFindings, Hex64, Clears, WithPhase, Logged;
    var phase := s.calls[i].phase;
    assert s.(simulation := s.simulation) == s;
    PhaseClears(s, i, Refused);
    match a
    case CallReached(_, ok) => PhaseClears(s, i, if s.simulation.Some? then Observing(s.simulation) else Inventory);
    case CallInventory(_, ids) =>
      EventClears(s, i, s.simulation, Observing(s.simulation), Candidates(i, ids));
      EventClears(s, i, s.simulation, Refused, Candidates(i, ids));
      if ids != [] && ids[0].Some? {
        EventClears(s, i, s.simulation, InspectingParent(ids[0].value), Candidates(i, ids));
      }
    case CallInspected(_, ok, complete, service) =>
      if phase.InspectingParent? {
        EventClears(s, i, s.simulation, RetainingParent(phase.id, complete && service),
                    Examined(i, phase.id, complete, service));
      }
    case CallRetained(_, ok) =>
      if phase.RetainingParent? {
        EventClears(s, i, Some(phase.id), Observing(Some(phase.id)), Bound(Some(i), phase.id));
      }
    case CallObserved(_, engine) =>
      if phase.Observing? {
        var found := ProjectFindings(engine, Owner(s.run, s.project, phase.parent));
        EventClears(s, i, s.simulation, Refused, Seen(i, phase.parent, engine));
        EventClears(s, i, s.simulation, Judging(found.Some? && found.value == NONE), Seen(i, phase.parent, engine));
      }
    case CallJudged(_, ok) =>
      PhaseClears(s, i, Cleared);
      PhaseClears(s, i, Returned);
    case CallDown(_) => if phase.Cleared? { EventClears(s, i, s.simulation, Downing, Down(i)); }
    case CallDowned(_, ok) => PhaseClears(s, i, Returned);
    case _ =>
  }

  lemma {:induction false} CallHarmless(s: State, a: Action, i: nat)
    requires Harmless(s) && i < |s.calls|
    ensures Harmless(CallStep(s, a, i))
  {
    hide CallStep;
    CallStepFrame(s, a, i);
    CallClears(s, a, i);
  }

  lemma {:induction false} RunHarmless(run: string, project: string, actions: seq<Action>)
    ensures Harmless(Exec(Initial(run, project), actions))
  {
    hide Apply, Harmless;
    if actions == [] {
      NothingHarmful(run, project);
    } else {
      RunHarmless(run, project, actions[..|actions| - 1]);
      StepHarmless(Exec(Initial(run, project), actions[..|actions| - 1]), actions[|actions| - 1]);
    }
  }

  lemma {:induction false} NothingHarmful(run: string, project: string)
    ensures Harmless(Initial(run, project))
  {
  }

  /** Only a clean-up tears anything down; a plain observation of the ownership never does. */
  lemma {:induction false} OnlyCleanupsTearDown(run: string, project: string, actions: seq<Action>, k: nat)
    requires var s := Exec(Initial(run, project), actions); k < |s.log| && s.log[k].Down?
    ensures var s := Exec(Initial(run, project), actions);
      s.log[k].call < |s.calls| && s.calls[s.log[k].call].teardown
  {
    hide Exec;
    RunHarmless(run, project, actions);
  }

  // ---- aborts, and answers that refuse ----

  lemma {:induction false} AbortedStays(s: State, a: Action)
    requires s.aborted && !s.start.Ready?
    ensures Apply(s, a).aborted && !Apply(s, a).start.Ready?
  {
    hide CallStep, Hex64;
    if CallOf(a).Some? && CallOf(a).value < |s.calls| { CallStepFrame(s, a, CallOf(a).value); }
  }

  lemma {:induction false} AbortedForever(s: State, after: seq<Action>)
    requires s.aborted && !s.start.Ready?
    ensures Exec(s, after).aborted && !Exec(s, after).start.Ready?
  {
    hide Apply;
    if after == [] {
    } else {
      AbortedForever(s, after[..|after| - 1]);
      AbortedStays(Exec(s, after[..|after| - 1]), after[|after| - 1]);
    }
  }

  /** A startup that is aborted before it is ready never becomes ready. */
  lemma {:induction false} AbortPreventsReadiness(run: string, project: string, before: seq<Action>,
      after: seq<Action>)
    requires var s := Exec(Initial(run, project), before); s.aborted && !s.ready
    ensures !Exec(Exec(Initial(run, project), before), after).ready
  {
    hide Exec;
    var s := Exec(Initial(run, project), before);
    UnreadyBefore(run, project, before);
    AbortedForever(s, after);
    ExecConcat(Initial(run, project), before, after);
    UnreadyBefore(run, project, before + after);
  }

  /** The answer to what call i waits for is a failure. */
  predicate FailsCall(phase: CallPhase, a: Action) {
    match a
    case CallReached(_, ok) => phase.Reaching? && !ok
    case CallInventory(_, ids) => phase.Inventory? && Ambiguous(ids)
    case CallInspected(_, ok, _, _) => phase.InspectingParent? && !ok
    case CallRetained(_, ok) => phase.RetainingParent? && (!ok || !phase.complete)
    case CallJudged(_, ok) => phase.Judging? && (!ok || !phase.complete)
    case CallDowned(_, ok) => phase.Downing? && !ok
    case _ => false
  }

  predicate RefusedCall(s: State, i: nat) {
    i < |s.calls| && s.calls[i].phase.Refused?
  }

  lemma {:induction false} RefusedStays(s: State, a: Action, i: nat)
    requires RefusedCall(s, i)
    ensures var t := Apply(s, a);
      && RefusedCall(t, i) && s.log <= t.log && |t.log| <= |s.log| + 1
      && (|t.log| > |s.log| ==> !Concerns(t.log[|s.log|], i))
  {
    hide CallStep, StartStep, Hex64, Concerns;
    if CallOf(a).Some? && CallOf(a).value < |s.calls| && !a.Abort? && !a.NewCall? {
      CallStepFrame(s, a, CallOf(a).value);
      CallLogsItself(s, a, CallOf(a).value, i);
    } else if !a.Abort? && !a.NewCall? {
      StartStepLogs(s, a);
    } else {
      NotOfCalls(i, |s.calls|);
    }
  }

  lemma {:induction false} NotOfCalls(i: nat, n: nat)
    ensures !Concerns(Aborted, i) && !Concerns(Called(n), i)
  {
  }

  lemma {:induction false} CallLogsItself(s: State, a: Action, j: nat, i: nat)
    requires j < |s.calls| && RefusedCall(s, i)
    ensures var t := CallStep(s, a, j);
      && (j == i ==> t == s)
      && (|t.log| > |s.log| ==> !Concerns(t.log[|s.log|], i))
  {
    hide ProjectFindings, Hex64;
    match a
    case CallReached(_, _) =>
    case CallInventory(_, _) =>
    case CallInspected(_, _, _, _) =>
    case CallRetained(_, _) =>
    case CallObserved(_, _) =>
    case CallJudged(_, _) =>
    case CallDown(_) =>
    case CallDowned(_, _) =>
    case _ =>
  }

  lemma {:induction false} RefusedForever(s: State, after: seq<Action>, i: nat)
    requires RefusedCall(s, i)
    ensures var t := Exec(s, after);
      RefusedCall(t, i) && s.log <= t.log && forall k :: |s.log| <= k < |t.log| ==> !Concerns(t.log[k], i)
  {
    hide Apply, RefusedCall, Concerns;
    if after == [] {
    } else {
      RefusedForever(s, after[..|after| - 1], i);
      RefusedStays(Exec(s, after[..|after| - 1]), after[|after| - 1], i);
    }
  }

  /** A call whose connection, inventory, inspection, retention, observation or teardown fails is over: it does
      nothing more and never returns well. */
  lemma {:induction false} FailureEndsCall(s: State, a: Action, i: nat, after: seq<Action>)
    requires CallOf(a) == Some(i) && i < |s.calls| && FailsCall(s.calls[i].phase, a)
    ensures var u := Apply(s, a); var t := Exec(u, after);
      && i < |t.calls| && t.calls[i].phase.Refused? && u.log <= t.log
      && forall k :: |u.log| <= k < |t.log| ==> !Concerns(t.log[k], i)
  {
    hide Exec, Concerns, Hex64;
    RefusedForever(Apply(s, a), after, i);
  }
}
