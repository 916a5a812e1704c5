/** Which findings an ownership observation reports, and when it throws: one condition for each finding. */
module EngineLaws {
  import opened Paths
  import opened EngineOwnership

  /** A finding is reported as missing or as a mismatch. */
  predicate Has(f: Findings, missing: bool, text: string) {
    if missing then text in f.missing else text in f.mismatches
  }

  // ---- labels ----

  predicate Absent(labels: Labels, key: string) {
    labels.None? || key !in labels.value || labels.value[key] == ""
  }

  /** An absent or empty label is missing, any other value than the expected one a mismatch. */
  predicate LabelFault(labels: Labels, key: string, expected: string, missing: bool) {
    if missing then Absent(labels, key) else !Absent(labels, key) && labels.value[key] != expected
  }

  predicate OwnerFault(labels: Labels, owner: Owner, path: string, missing: bool, text: string) {
    || (text == path + ".org.robotics.runtime.run-id" && LabelFault(labels, RUN_KEY, owner.run, missing))
    || (text == path + ".com.docker.compose.project" && LabelFault(labels, PROJECT_KEY, owner.project, missing))
  }

  lemma {:induction false} MatchLaw(labels: Labels, owner: Owner, path: string, missing: bool, text: string)
    ensures Has(MatchFindings(labels, owner, path), missing, text) <==> OwnerFault(labels, owner, path, missing, text)
  {
    assert path + "." + RUN_KEY == path + ".org.robotics.runtime.run-id";
    assert path + "." + PROJECT_KEY == path + ".com.docker.compose.project";
  }

  // ---- containers ----

  /** The container can be looked at: it has an exact identifier and belongs to the owner in the listing. */
  predicate Listed(row: ListRow, owner: Owner) {
    row.id.Some? && Hex64(row.id.value) && Owned(row.labels, owner)
  }

  predicate Inspected(engine: Engine, index: nat, row: ListRow, owner: Owner) {
    Listed(row, owner) && Inspect(engine, index, row.id.value).Some?
  }

  /** An owned container that shares a namespace with this one. */
  predicate Shares(engine: Engine, index: nat, row: ListRow, owner: Owner, parent: string) {
    && Inspected(engine, index, row, owner)
    && var detail := Inspect(engine, index, row.id.value).value;
    && Owned(detail.labels, owner) && detail.mode == Some("container:" + parent)
  }

  /** The shared container is the expected one, by its exact identifier. */
  predicate Expected(owner: Owner, parent: string) {
    owner.parent == Some(parent) && Hex64(parent)
  }

  predicate ParentFault(engine: Engine, index: nat, owner: Owner, path: string, parent: string, missing: bool,
      text: string)
  {
    var detail := InspectParent(engine, index, parent);
    detail.Some? &&
    (|| (!missing && text == path + ".namespace.parent-id" && detail.value.id != Some(parent))
     || OwnerFault(detail.value.labels, owner, path + ".namespace.parent-owner", missing, text)
     || (missing && text == path + ".namespace.direct-parent"
         && (detail.value.mode.None? || detail.value.mode.value == "" || SharesNamespace(detail.value.mode.value))))
  }

  predicate ShareFault(engine: Engine, index: nat, owner: Owner, path: string, parent: string, missing: bool,
      text: string)
  {
    || (missing && text == path + ".namespace.expected-id" && (owner.parent.None? || owner.parent.value == ""))
    || (!missing && text == path + ".namespace.expected-id"
        && owner.parent.Some? && owner.parent.value != "" && owner.parent.value != parent)
    || (missing && text == path + ".namespace.exact-id"
        && parent != "" && owner.parent == Some(parent) && !Hex64(parent))
    || (Expected(owner, parent) && ParentFault(engine, index, owner, path, parent, missing, text))
  }

  /** What is reported of one container. */
  ghost predicate ContainerFault(engine: Engine, index: nat, row: ListRow, owner: Owner, missing: bool, text: string) {
    if row.id.None? || !Hex64(row.id.value) then missing && text == "project.container." + Decimal(index) + ".Id"
    else
      var path := "project.container." + row.id.value;
      || OwnerFault(row.labels, owner, path + ".list-owner", missing, text)
      || (Inspected(engine, index, row, owner) &&
          var detail := Inspect(engine, index, row.id.value).value;
          || (!missing && text == path + ".Id" && detail.id != row.id)
          || OwnerFault(detail.labels, owner, path + ".owner", missing, text)
          || (missing && text == path + ".NetworkMode" && Owned(detail.labels, owner)
              && (detail.mode.None? || detail.mode.value == ""))
          || exists parent: string ::
               Shares(engine, index, row, owner, parent)
                 && ShareFault(engine, index, owner, path, parent, missing, text))
  }

  /** An inspection that is needed fails. */
  ghost predicate Unanswered(engine: Engine, index: nat, row: ListRow, owner: Owner) {
    || (Listed(row, owner) && Inspect(engine, index, row.id.value).None?)
    || exists parent: string ::
         Shares(engine, index, row, owner, parent) && Expected(owner, parent)
           && InspectParent(engine, index, parent).None?
  }

  /** A label that is owned has no fault, and one that is not has one. */
  lemma {:induction false} OwnedHasNoFault(labels: Labels, owner: Owner, path: string)
    requires owner.run != "" && owner.project != ""
    ensures Owned(labels, owner) <==> MatchFindings(labels, owner, path) == NONE
    ensures Owned(labels, owner) ==> forall missing, text :: !OwnerFault(labels, owner, path, missing, text)
  {
    MatchedIffOwned(labels, owner, path);
    forall missing: bool, text: string
      ensures Has(MatchFindings(labels, owner, path), missing, text) <==> OwnerFault(labels, owner, path, missing, text)
    {
      MatchLaw(labels, owner, path, missing, text);
    }
  }

  lemma {:induction false} ModePrefix(mode: string, parent: string)
    ensures mode == "container:" + parent <==> SharesNamespace(mode) && mode[10..] == parent
  {
    if SharesNamespace(mode) { assert mode == "container:" + mode[10..]; }
    if mode == "container:" + parent { assert mode[10..] == parent && mode[..10] == "container:"; }
  }

  lemma {:induction false} ParentLaw(engine: Engine, index: nat, owner: Owner, path: string, parent: string,
      missing: bool, text: string)
    requires InspectParent(engine, index, parent).Some?
    ensures Has(ParentFindings(InspectParent(engine, index, parent).value, parent, owner, path), missing, text) <==>
            ParentFault(engine, index, owner, path, parent, missing, text)
  {
    hide MatchFindings, OwnerFault;
    var detail := InspectParent(engine, index, parent).value;
    MatchLaw(detail.labels, owner, path + ".namespace.parent-owner", missing, text);
  }

  lemma {:induction false} ModeLaw(engine: Engine, index: nat, mode: Option<string>, owner: Owner, path: string,
      missing: bool, text: string)
    ensures ModeFindings(engine, index, mode, owner, path).None? <==>
            mode.Some? && SharesNamespace(mode.value) && mode.value[10..] != "" && Expected(owner, mode.value[10..])
              && InspectParent(engine, index, mode.value[10..]).None?
    ensures ModeFindings(engine, index, mode, owner, path).Some? ==>
      (Has(ModeFindings(engine, index, mode, owner, path).value, missing, text) <==>
       || (missing && text == path + ".NetworkMode" && (mode.None? || mode.value == ""))
       || (mode.Some? && SharesNamespace(mode.value)
           && ShareFault(engine, index, owner, path, mode.value[10..], missing, text)))
  {
    hide ParentFindings, ParentFault;
    if mode.Some? && SharesNamespace(mode.value) {
      var parent := mode.value[10..];
      if InspectParent(engine, index, parent).Some? {
        ParentLaw(engine, index, owner, path, parent, missing, text);
      } else {
        NoParentFault(engine, index, owner, path, parent, missing, text);
      }
    }
  }

  lemma {:induction false} NoParentFault(engine: Engine, index: nat, owner: Owner, path: string, parent: string,
      missing: bool, text: string)
    requires InspectParent(engine, index, parent).None?
    ensures !ParentFault(engine, index, owner, path, parent, missing, text)
  {
  }

  /** One container: when an inspection fails, and each finding otherwise. */
  lemma {:induction false} ContainerLaw(engine: Engine, index: nat, row: ListRow, owner: Owner, missing: bool,
      text: string)
    requires owner.run != "" && owner.project != ""
    ensures ContainerFindings(engine, index, row, owner).None? <==> Unanswered(engine, index, row, owner)
    ensures ContainerFindings(engine, index, row, owner).Some? ==>
      (Has(ContainerFindings(engine, index, row, owner).value, missing, text) <==>
       ContainerFault(engine, index, row, owner, missing, text))
  {
    hide MatchFindings, OwnerFault, ModeFindings, ShareFault, Hex64, Decimal, Owned, Expected;
    if row.id.Some? && Hex64(row.id.value) {
      var path := "project.container." + row.id.value;
      OwnedHasNoFault(row.labels, owner, path + ".list-owner");
      MatchLaw(row.labels, owner, path + ".list-owner", missing, text);
      var detail := Inspect(engine, index, row.id.value);
      if detail.Some? {
        var mode := detail.value.mode;
        OwnedHasNoFault(detail.value.labels, owner, path + ".owner");
        MatchLaw(detail.value.labels, owner, path + ".owner", missing, text);
        ModeLaw(engine, index, mode, owner, path, missing, text);
        forall parent: string
          ensures mode == Some("container:" + parent) <==>
                  mode.Some? && SharesNamespace(mode.value) && mode.value[10..] == parent
        {
          if mode.Some? { ModePrefix(mode.value, parent); }
        }
        if mode.Some? && SharesNamespace(mode.value) && Owned(row.labels, owner) {
          SharesOne(engine, index, row, owner, mode.value);
        }
        ExpectedIsExact(owner);
      }
    }
  }

  lemma {:induction false} ExpectedIsExact(owner: Owner)
    ensures !Expected(owner, "")
  {
  }

  lemma {:induction false} SharesOne(engine: Engine, index: nat, row: ListRow, owner: Owner, mode: string)
    requires Inspected(engine, index, row, owner) && SharesNamespace(mode)
    requires Inspect(engine, index, row.id.value).value.mode == Some(mode)
    ensures Shares(engine, index, row, owner, mode[10..]) <==>
            Owned(Inspect(engine, index, row.id.value).value.labels, owner)
  {
    hide Hex64, Owned;
    ModePrefix(mode, mode[10..]);
  }

  // ---- the whole project ----

  ghost predicate AnyContainer(engine: Engine, rows: seq<ListRow>, owner: Owner, missing: bool, text: string) {
    exists i :: 0 <= i < |rows| && ContainerFault(engine, i, rows[i], owner, missing, text)
  }

  ghost predicate AnyUnanswered(engine: Engine, rows: seq<ListRow>, owner: Owner) {
    exists i :: 0 <= i < |rows| && Unanswered(engine, i, rows[i], owner)
  }

  lemma {:induction false} ContainersLaw(engine: Engine, rows: seq<ListRow>, owner: Owner, missing: bool, text: string)
    requires owner.run != "" && owner.project != ""
    ensures ContainersFindings(engine, rows, owner).None? <==> AnyUnanswered(engine, rows, owner)
    ensures ContainersFindings(engine, rows, owner).Some? ==>
      (Has(ContainersFindings(engine, rows, owner).value, missing, text) <==>
       AnyContainer(engine, rows, owner, missing, text))
  {
    hide ContainerFindings, ContainerFault, Unanswered;
    if rows == [] {
    } else {
      var last := |rows| - 1;
      ContainersLaw(engine, rows[..last], owner, missing, text);
      ContainerLaw(engine, last, rows[last], owner, missing, text);
      assert forall i :: 0 <= i < last ==> rows[..last][i] == rows[i];
    }
  }

  ghost predicate AnyResource(rows: seq<Labels>, owner: Owner, missing: bool, text: string) {
    exists i :: 0 <= i < |rows| && OwnerFault(rows[i], owner, "project.resource." + Decimal(i), missing, text)
  }

  lemma {:induction false} ResourcesLaw(rows: seq<Labels>, owner: Owner, missing: bool, text: string)
    ensures Has(ResourceFindings(rows, owner), missing, text) <==> AnyResource(rows, owner, missing, text)
  {
    hide MatchFindings, OwnerFault, Decimal;
    if rows == [] {
    } else {
      var last := |rows| - 1;
      ResourcesLaw(rows[..last], owner, missing, text);
      MatchLaw(rows[last], owner, "project.resource." + Decimal(last), missing, text);
      assert forall i :: 0 <= i < last ==> rows[..last][i] == rows[i];
    }
  }

  predicate ListingFault(engine: Engine, missing: bool, text: string) {
    missing &&
    (|| (text == "project.containers" && engine.containers.None?)
     || (text == "project.networks" && engine.networks.None?)
     || (text == "project.volumes" && engine.volumes.OtherVolumes?))
  }

  /** An observation throws exactly when an inspection that it needs fails: that of a container the listing shows as
      owned, or that of the expected parent of an owned one.  Otherwise it reports, as missing or as a mismatch,
      exactly the listings that are absent, the labels at fault, and the faults of the containers. */
  lemma {:induction false} FindingsLaw(engine: Engine, owner: Owner, missing: bool, text: string)
    requires owner.run != "" && owner.project != ""
    ensures ProjectFindings(engine, owner).None? <==> AnyUnanswered(engine, Rows(engine), owner)
    ensures ProjectFindings(engine, owner).Some? ==>
      (Has(ProjectFindings(engine, owner).value, missing, text) <==>
       || ListingFault(engine, missing, text)
       || AnyResource(Resources(engine), owner, missing, text)
       || AnyContainer(engine, Rows(engine), owner, missing, text))
  {
    hide ContainersFindings, ResourceFindings, AnyContainer, AnyUnanswered, AnyResource, Resources, Rows;
    ContainersLaw(engine, Rows(engine), owner, missing, text);
    ResourcesLaw(Resources(engine), owner, missing, text);
  }
}
