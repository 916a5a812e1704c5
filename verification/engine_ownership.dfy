/** Which resources of a compose project are proved to belong to a run before anything is torn down. */
module EngineOwnership {
  import opened Paths

  /** A label map; entries whose value is not text are left out, and an absent map is `None`. */
  type Labels = Option<map<string, string>>

  datatype Owner = Owner(run: string, project: string, parent: Option<string>)

  datatype ListRow = ListRow(id: Option<string>, labels: Labels)

  /** One inspected container; fields of an unexpected type are absent. */
  datatype Detail = Detail(id: Option<string>, labels: Labels, mode: Option<string>)

  datatype Volumes = NullVolumes | OtherVolumes | VolumeList(labels: seq<Labels>)

  /** What the Engine answers: the three project listings, and every later inspection (of the container in
      one row, and of the namespace parent it names).  An inspection that fails has no answer. */
  datatype Engine = Engine(
    containers: Option<seq<ListRow>>, networks: Option<seq<Labels>>, volumes: Volumes,
    details: map<(nat, string), Detail>, parents: map<(nat, string), Detail>)

  function Inspect(engine: Engine, index: nat, id: string): Option<Detail> {
    if (index, id) in engine.details then Some(engine.details[(index, id)]) else None
  }

  function InspectParent(engine: Engine, index: nat, id: string): Option<Detail> {
    if (index, id) in engine.parents then Some(engine.parents[(index, id)]) else None
  }

  datatype Findings = Findings(missing: seq<string>, mismatches: seq<string>)

  const NONE := Findings([], [])
  const RUN_KEY := "org.robotics.runtime.run-id"
  const PROJECT_KEY := "com.docker.compose.project"

  function Joined(a: Findings, b: Findings): Findings {
    Findings(a.missing + b.missing, a.mismatches + b.mismatches)
  }

  function Missing(path: string): Findings {
    Findings([path], [])
  }

  function Mismatch(path: string): Findings {
    Findings([], [path])
  }

  // ---- ownership, declared ----

  predicate Hex64(id: string) {
    |id| == 64 && forall i :: 0 <= i < 64 ==> '0' <= id[i] <= '9' || 'a' <= id[i] <= 'f'
  }

  predicate HasLabel(labels: Labels, key: string, expected: string) {
    labels.Some? && key in labels.value && labels.value[key] != "" && labels.value[key] == expected
  }

  predicate Owned(labels: Labels, owner: Owner) {
    HasLabel(labels, RUN_KEY, owner.run) && HasLabel(labels, PROJECT_KEY, owner.project)
  }

  predicate SharesNamespace(mode: string) {
    "container:" <= mode
  }

  /** A namespace parent: the container named, owned, with a namespace of its own. */
  predicate DirectParent(parent: Option<Detail>, id: string, owner: Owner) {
    && parent.Some? && parent.value.id == Some(id) && Owned(parent.value.labels, owner)
    && parent.value.mode.Some? && parent.value.mode.value != "" && !SharesNamespace(parent.value.mode.value)
  }

  /** An owned container, in the listing and inspected, whose shared namespace is the expected one. */
  predicate OwnedContainer(engine: Engine, index: nat, row: ListRow, owner: Owner) {
    && row.id.Some? && Hex64(row.id.value) && Owned(row.labels, owner)
    && var detail := Inspect(engine, index, row.id.value);
    && detail.Some? && detail.value.id == row.id && Owned(detail.value.labels, owner)
    && detail.value.mode.Some? && detail.value.mode.value != ""
    && (SharesNamespace(detail.value.mode.value) ==>
          var parent := detail.value.mode.value[10..];
          && owner.parent == Some(parent) && Hex64(parent)
          && DirectParent(InspectParent(engine, index, parent), parent, owner))
  }

  predicate AllOwned(rows: seq<Labels>, owner: Owner) {
    forall i :: 0 <= i < |rows| ==> Owned(rows[i], owner)
  }

  predicate OwnedContainers(engine: Engine, rows: seq<ListRow>, owner: Owner) {
    forall i :: 0 <= i < |rows| ==> OwnedContainer(engine, i, rows[i], owner)
  }

  /** Everything that carries the project label belongs to the run. */
  predicate ProjectOwned(engine: Engine, owner: Owner) {
    && engine.containers.Some? && engine.networks.Some? && !engine.volumes.OtherVolumes?
    && AllOwned(engine.networks.value, owner)
    && (engine.volumes.VolumeList? ==> AllOwned(engine.volumes.labels, owner))
    && OwnedContainers(engine, engine.containers.value, owner)
  }

  // ---- what the observation reports ----

  function LabelFindings(labels: Labels, key: string, expected: string, path: string): Findings {
    if labels.None? || key !in labels.value || labels.value[key] == "" then Missing(path + "." + key)
    else if labels.value[key] != expected then Mismatch(path + "." + key)
    else NONE
  }

  function MatchFindings(labels: Labels, owner: Owner, path: string): Findings {
    Joined(LabelFindings(labels, RUN_KEY, owner.run, path), LabelFindings(labels, PROJECT_KEY, owner.project, path))
  }

  function ResourceFindings(rows: seq<Labels>, owner: Owner): Findings {
    if rows == [] then NONE
    else
      var last := |rows| - 1;
      Joined(ResourceFindings(rows[..last], owner),
        MatchFindings(rows[last], owner, "project.resource." + Decimal(last)))
  }

  function ParentFindings(parent: Detail, id: string, owner: Owner, path: string): Findings {
    Joined(
      if parent.id != Some(id) then Mismatch(path + ".namespace.parent-id") else NONE,
      Joined(MatchFindings(parent.labels, owner, path + ".namespace.parent-owner"),
             if parent.mode.None? || parent.mode.value == "" || SharesNamespace(parent.mode.value)
             then Missing(path + ".namespace.direct-parent") else NONE))
  }

  /** The namespace of one owned container; nothing when its parent cannot be inspected. */
  function ModeFindings(engine: Engine, index: nat, mode: Option<string>, owner: Owner,
      path: string): Option<Findings> {
    if mode.None? || mode.value == "" then Some(Missing(path + ".NetworkMode"))
    else if !SharesNamespace(mode.value) then Some(NONE)
    else
      var id := mode.value[10..];
      if owner.parent.None? || owner.parent.value == "" then Some(Missing(path + ".namespace.expected-id"))
      else if id != owner.parent.value then Some(Mismatch(path + ".namespace.expected-id"))
      else if !Hex64(id) then Some(Missing(path + ".namespace.exact-id"))
      else
        var parent := InspectParent(engine, index, id);
        if parent.None? then None else Some(ParentFindings(parent.value, id, owner, path))
  }

  /** One listed container; nothing when an inspection fails. */
  function ContainerFindings(engine: Engine, index: nat, row: ListRow, owner: Owner): Option<Findings> {
    if row.id.None? || !Hex64(row.id.value) then Some(Missing("project.container." + Decimal(index) + ".Id"))
    else
      var path := "project.container." + row.id.value;
      var listed := MatchFindings(row.labels, owner, path + ".list-owner");
      if listed != NONE then Some(listed)
      else
        var detail := Inspect(engine, index, row.id.value);
        if detail.None? then None
        else
          var same := if detail.value.id != row.id then Mismatch(path + ".Id") else NONE;
          var owned := MatchFindings(detail.value.labels, owner, path + ".owner");
          if owned != NONE then Some(Joined(same, owned))
          else
            var mode := ModeFindings(engine, index, detail.value.mode, owner, path);
            if mode.None? then None else Some(Joined(same, mode.value))
  }

  function ContainersFindings(engine: Engine, rows: seq<ListRow>, owner: Owner): Option<Findings> {
    if rows == [] then Some(NONE)
    else
      var last := |rows| - 1;
      var before := ContainersFindings(engine, rows[..last], owner);
      if before.None? then None
      else
        var next := ContainerFindings(engine, last, rows[last], owner);
        if next.None? then None else Some(Joined(before.value, next.value))
  }

  function ListingFindings(engine: Engine): Findings {
    Joined(if engine.containers.None? then Missing("project.containers") else NONE,
           Joined(if engine.networks.None? then Missing("project.networks") else NONE,
                  if engine.volumes.OtherVolumes? then Missing("project.volumes") else NONE))
  }

  function Resources(engine: Engine): seq<Labels> {
    (if engine.networks.Some? then engine.networks.value else []) +
    (if engine.volumes.VolumeList? then engine.volumes.labels else [])
  }

  function Rows(engine: Engine): seq<ListRow> {
    if engine.containers.Some? then engine.containers.value else []
  }

  /** The whole observation, or nothing when an inspection failed. */
  function ProjectFindings(engine: Engine, owner: Owner): Option<Findings> {
    var containers := ContainersFindings(engine, Rows(engine), owner);
    if containers.None? then None
    else Some(Joined(Joined(ListingFindings(engine), ResourceFindings(Resources(engine), owner)), containers.value))
  }

  // ---- the observation itself ----

  method Matches(labels: Labels, owner: Owner, path: string, found: Findings) returns (valid: bool, more: Findings)
    ensures more == Joined(found, MatchFindings(labels, owner, path))
    ensures valid <==> MatchFindings(labels, owner, path) == NONE
  {
    valid, more := true, found;
    var keys := [RUN_KEY, PROJECT_KEY];
    var expected := [owner.run, owner.project];
    for i := 0 to 2
      invariant i == 0 ==> more == found && valid
      invariant i == 1 ==> more == Joined(found, LabelFindings(labels, keys[0], expected[0], path))
      invariant i == 1 ==> (valid <==> LabelFindings(labels, keys[0], expected[0], path) == NONE)
      invariant i == 2 ==> more == Joined(Joined(found, LabelFindings(labels, keys[0], expected[0], path)),
                                          LabelFindings(labels, keys[1], expected[1], path))
      invariant i == 2 ==> (valid <==> LabelFindings(labels, keys[0], expected[0], path) == NONE
                                       && LabelFindings(labels, keys[1], expected[1], path) == NONE)
    {
      var finding := LabelFindings(labels, keys[i], expected[i], path);
      if finding != NONE { valid := false; }
      more := Joined(more, finding);
    }
  }

  method ObserveContainer(engine: Engine, index: nat, row: ListRow, owner: Owner, found: Findings)
    returns (r: Option<Findings>)
    ensures r.Some? <==> ContainerFindings(engine, index, row, owner).Some?
    ensures r.Some? ==> r.value == Joined(found, ContainerFindings(engine, index, row, owner).value)
  {
    hide Decimal, MatchFindings, Hex64, ParentFindings;
    var more := found;
    if row.id.None? || !Hex64(row.id.value) {
      return Some(Joined(more, Missing("project.container." + Decimal(index) + ".Id")));
    }
    var path := "project.container." + row.id.value;
    var valid: bool;
    valid, more := Matches(row.labels, owner, path + ".list-owner", more);
    if !valid { return Some(more); }
    var detail := Inspect(engine, index, row.id.value);
    if detail.None? { return None; }
    if detail.value.id != row.id { more := Joined(more, Mismatch(path + ".Id")); }
    ghost var before := more;
    valid, more := Matches(detail.value.labels, owner, path + ".owner", more);
    if !valid { return Some(more); }
    var mode := ModeFindings(engine, index, detail.value.mode, owner, path);
    if mode.None? { return None; }
    r := Some(Joined(more, mode.value));
  }

  datatype Observation = Thrown | Observed(complete: bool, findings: Findings)

  method ObserveResources(resources: seq<Labels>, owner: Owner, found: Findings) returns (r: Findings)
    ensures r == Joined(found, ResourceFindings(resources, owner))
  {
    hide MatchFindings, Decimal, Joined;
    r := found;
    JoinedWithNone(found);
    for i := 0 to |resources|
      invariant r == Joined(found, ResourceFindings(resources[..i], owner))
    {
      assert resources[..i + 1][..i] == resources[..i];
      JoinedAssociates(found, ResourceFindings(resources[..i], owner),
        MatchFindings(resources[i], owner, "project.resource." + Decimal(i)));
      var valid: bool;
      valid, r := Matches(resources[i], owner, "project.resource." + Decimal(i), r);
    }
    assert resources[..|resources|] == resources;
  }

  method ObserveContainers(engine: Engine, rows: seq<ListRow>, owner: Owner, found: Findings)
    returns (r: Option<Findings>)
    ensures r.Some? <==> ContainersFindings(engine, rows, owner).Some?
    ensures r.Some? ==> r.value == Joined(found, ContainersFindings(engine, rows, owner).value)
  {
    hide ContainerFindings, Joined;
    r := Some(found);
    JoinedWithNone(found);
    for i := 0 to |rows|
      invariant r.Some? && ContainersFindings(engine, rows[..i], owner).Some?
      invariant r.value == Joined(found, ContainersFindings(engine, rows[..i], owner).value)
    {
      assert rows[..i + 1][..i] == rows[..i];
      r := ObserveContainer(engine, i, rows[i], owner, r.value);
      if r.None? {
        InspectionStops(engine, rows, owner, i + 1);
        return;
      }
      JoinedAssociates(found, ContainersFindings(engine, rows[..i], owner).value,
        ContainerFindings(engine, i, rows[i], owner).value);
    }
    assert rows[..|rows|] == rows;
  }

  lemma {:induction false} JoinedWithNone(a: Findings)
    ensures Joined(a, NONE) == a
  {
  }

  /** `projectOwnership`; a failed inspection or an abort is thrown. */
  method ProjectOwnership(engine: Engine, owner: Owner, aborted: bool) returns (r: Observation)
    ensures r.Thrown? <==> owner.run == "" || owner.project == "" || aborted || ProjectFindings(engine, owner).None?
    ensures r.Observed? ==> r.findings == ProjectFindings(engine, owner).value
    ensures r.Observed? ==> (r.complete <==> ProjectOwned(engine, owner))
  {
    hide ContainersFindings, ResourceFindings, ListingFindings, Resources, Rows, Joined, ProjectOwned;
    if owner.run == "" || owner.project == "" { return Thrown; }
    var listed := ObserveResources(Resources(engine), owner, ListingFindings(engine));
    var found := ObserveContainers(engine, Rows(engine), owner, listed);
    if found.None? || aborted { return Thrown; }
    CompleteIffOwned(engine, owner);
    r := Observed(|found.value.missing| == 0 && |found.value.mismatches| == 0, found.value);
  }

  lemma {:induction false} JoinedAssociates(a: Findings, b: Findings, c: Findings)
    ensures Joined(Joined(a, b), c) == Joined(a, Joined(b, c))
  {
  }

  lemma {:induction false} InspectionStops(engine: Engine, rows: seq<ListRow>, owner: Owner, n: nat)
    requires n <= |rows| && ContainersFindings(engine, rows[..n], owner).None?
    ensures ContainersFindings(engine, rows, owner).None?
    decreases |rows|
  {
    hide ContainerFindings;
    if n == |rows| {
      assert rows[..n] == rows;
    } else {
      assert rows[..|rows| - 1][..n] == rows[..n];
      InspectionStops(engine, rows[..|rows| - 1], owner, n);
    }
  }

  // ---- complete means owned ----

  lemma {:induction false} MatchedIffOwned(labels: Labels, owner: Owner, path: string)
    requires owner.run != "" && owner.project != ""
    ensures MatchFindings(labels, owner, path) == NONE <==> Owned(labels, owner)
  {
  }

  lemma {:induction false} JoinedNone(a: Findings, b: Findings)
    ensures Joined(a, b) == NONE <==> a == NONE && b == NONE
  {
  }

  lemma {:induction false} ResourcesIffOwned(rows: seq<Labels>, owner: Owner)
    requires owner.run != "" && owner.project != ""
    ensures ResourceFindings(rows, owner) == NONE <==> AllOwned(rows, owner)
  {
    hide MatchFindings, Owned, Joined, Decimal;
    if rows == [] {
    } else {
      var last := |rows| - 1;
      var path := "project.resource." + Decimal(last);
      ResourcesIffOwned(rows[..last], owner);
      MatchedIffOwned(rows[last], owner, path);
      JoinedNone(ResourceFindings(rows[..last], owner), MatchFindings(rows[last], owner, path));
      assert AllOwned(rows, owner) <==> AllOwned(rows[..last], owner) && Owned(rows[last], owner) by {
        forall i | 0 <= i < last
          ensures rows[i] == rows[..last][i]
        {
        }
      }
    }
  }

  lemma {:induction false} ParentIffDirect(parent: Detail, id: string, owner: Owner, path: string)
    requires owner.run != "" && owner.project != ""
    ensures ParentFindings(parent, id, owner, path) == NONE <==> DirectParent(Some(parent), id, owner)
  {
    hide MatchFindings, Owned;
    MatchedIffOwned(parent.labels, owner, path + ".namespace.parent-owner");
  }

  lemma {:induction false} ContainerIffOwned(engine: Engine, index: nat, row: ListRow, owner: Owner)
    requires owner.run != "" && owner.project != "" && ContainerFindings(engine, index, row, owner).Some?
    ensures ContainerFindings(engine, index, row, owner).value == NONE <==> OwnedContainer(engine, index, row, owner)
  {
    hide MatchFindings, Owned, ParentFindings, DirectParent, Hex64, Decimal, Joined;
    if row.id.Some? && Hex64(row.id.value) {
      var path := "project.container." + row.id.value;
      MatchedIffOwned(row.labels, owner, path + ".list-owner");
      var detail := Inspect(engine, index, row.id.value);
      if detail.Some? {
        MatchedIffOwned(detail.value.labels, owner, path + ".owner");
        var same := if detail.value.id != row.id then Mismatch(path + ".Id") else NONE;
        JoinedNone(same, MatchFindings(detail.value.labels, owner, path + ".owner"));
        var mode := ModeFindings(engine, index, detail.value.mode, owner, path);
        if mode.Some? { JoinedNone(same, mode.value); }
        ModeIffExpected(engine, index, detail.value.mode, owner, path);
      }
    }
  }

  lemma {:induction false} ModeIffExpected(engine: Engine, index: nat, mode: Option<string>, owner: Owner, path: string)
    requires owner.run != "" && owner.project != ""
    ensures ModeFindings(engine, index, mode, owner, path).Some? ==>
              (ModeFindings(engine, index, mode, owner, path).value == NONE <==>
               mode.Some? && mode.value != "" &&
               (SharesNamespace(mode.value) ==>
                  var parent := mode.value[10..];
                  owner.parent == Some(parent) && Hex64(parent)
                    && DirectParent(InspectParent(engine, index, parent), parent, owner)))
  {
    hide ParentFindings, DirectParent;
    if mode.Some? && SharesNamespace(mode.value) {
      var id := mode.value[10..];
      var parent := InspectParent(engine, index, id);
      if parent.Some? { ParentIffDirect(parent.value, id, owner, path); }
    }
  }

  lemma {:induction false} ContainersIffOwned(engine: Engine, rows: seq<ListRow>, owner: Owner)
    requires owner.run != "" && owner.project != "" && ContainersFindings(engine, rows, owner).Some?
    ensures ContainersFindings(engine, rows, owner).value == NONE <==> OwnedContainers(engine, rows, owner)
  {
    hide ContainerFindings, OwnedContainer, Joined;
    if rows == [] {
    } else {
      var last := |rows| - 1;
      ContainersIffOwned(engine, rows[..last], owner);
      ContainerIffOwned(engine, last, rows[last], owner);
      JoinedNone(ContainersFindings(engine, rows[..last], owner).value,
        ContainerFindings(engine, last, rows[last], owner).value);
      assert OwnedContainers(engine, rows, owner) <==>
             OwnedContainers(engine, rows[..last], owner) && OwnedContainer(engine, last, rows[last], owner) by {
        forall i | 0 <= i < last
          ensures rows[i] == rows[..last][i]
        {
        }
      }
    }
  }

  lemma {:induction false} ListedOwned(a: seq<Labels>, b: seq<Labels>, owner: Owner)
    ensures AllOwned(a + b, owner) <==> AllOwned(a, owner) && AllOwned(b, owner)
  {
    hide Owned;
    forall i | 0 <= i < |b|
      ensures (a + b)[|a| + i] == b[i]
    {
    }
    if AllOwned(a + b, owner) {
      forall i | 0 <= i < |a|
        ensures Owned(a[i], owner)
      {
        assert (a + b)[i] == a[i];
      }
      forall i | 0 <= i < |b|
        ensures Owned(b[i], owner)
      {
        assert (a + b)[|a| + i] == b[i];
      }
    }
  }

  /** The observation is without findings exactly when every listed container, network and volume is owned
      and every shared namespace names the expected, owned, direct parent. */
  lemma {:induction false} CompleteIffOwned(engine: Engine, owner: Owner)
    requires owner.run != "" && owner.project != "" && ProjectFindings(engine, owner).Some?
    ensures ProjectFindings(engine, owner).value == NONE <==> ProjectOwned(engine, owner)
  {
    hide ContainersFindings, ResourceFindings, OwnedContainers, AllOwned, Joined;
    var listing, resources := ListingFindings(engine), ResourceFindings(Resources(engine), owner);
    var containers := ContainersFindings(engine, Rows(engine), owner).value;
    JoinedNone(Joined(listing, resources), containers);
    JoinedNone(listing, resources);
    ListingComplete(engine);
    ResourcesIffOwned(Resources(engine), owner);
    ListedOwned(if engine.networks.Some? then engine.networks.value else [],
                if engine.volumes.VolumeList? then engine.volumes.labels else [], owner);
    NothingToOwn(owner);
    ContainersIffOwned(engine, Rows(engine), owner);
  }

  lemma {:induction false} NothingToOwn(owner: Owner)
    ensures AllOwned([], owner)
  {
  }

  lemma {:induction false} ListingComplete(engine: Engine)
    ensures ListingFindings(engine) == NONE <==>
        engine.containers.Some? && engine.networks.Some? && !engine.volumes.OtherVolumes?
  {
  }

  // ---- the API version ----

  /** `selectApi` on the minor versions of the Engine's range and of the operation policy. */
  function SelectApi(high: Option<nat>, low: Option<nat>, policyMax: Option<nat>, policyMin: Option<nat>): Option<nat> {
    if high.None? || low.None? || policyMax.None? || policyMin.None? then None
    else
      var selected := if high.value < policyMax.value then high.value else policyMax.value;
      if selected < low.value || selected < policyMin.value then None else Some(selected)
  }

  predicate InBothRanges(v: nat, high: nat, low: nat, policyMax: nat, policyMin: nat) {
    low <= v <= high && policyMin <= v <= policyMax
  }

  /** The selected version is the highest one in both ranges; none is selected exactly when they share none. */
  lemma {:induction false} SelectsHighestShared(high: nat, low: nat, policyMax: nat, policyMin: nat)
    ensures var r := SelectApi(Some(high), Some(low), Some(policyMax), Some(policyMin));
            && (r.Some? <==> exists v: nat :: InBothRanges(v, high, low, policyMax, policyMin))
            && (r.Some? ==> InBothRanges(r.value, high, low, policyMax, policyMin)
                            && forall v: nat :: InBothRanges(v, high, low, policyMax, policyMin) ==> v <= r.value)
  {
    var r := SelectApi(Some(high), Some(low), Some(policyMax), Some(policyMin));
    if r.Some? { assert InBothRanges(r.value, high, low, policyMax, policyMin); }
  }
}
