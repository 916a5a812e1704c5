/** The legacy inventory: which payloads a completed assessment retains, under which arguments it was
    validated, and what an issued retry may still change.

    The sources are link-free and unchanged while they are collected: `files` maps every regular file
    under the source root to its bytes.  Directory scans enter as `Listing`. */
module LegacyInventory {
  import opened Paths
  import Export = RetainedExport

  type Files = map<Parts, Bytes>

  datatype Binding = Binding(flag: string, subject: string, source: string)

  /** `bags`, `summaries` and `playback` are the scanned directories, below the source root. */
  datatype Plan = Plan(
    runId: string, sourceRoot: Parts, destination: Parts, maximum: int,
    bags: Parts, summaries: Parts, playback: Parts,
    bindings: seq<Binding>, dataSource: string, playbackSha: Digest,
    playbackBindings: seq<Binding>, productBindings: seq<Binding>)

  /** The sorted results of the four scans. */
  datatype Listing = Listing(metadata: seq<Parts>, summaries: seq<Parts>, recordings: seq<Parts>, playback: seq<Parts>)

  predicate Below(directory: Parts, p: Parts) {
    directory <= p && |directory| < |p|
  }

  /** The scans find the matching files below their directories, and no others. */
  ghost predicate Scanned(plan: Plan, files: Files, l: Listing) {
    && (forall p :: p in l.metadata <==> p in files && Below(plan.bags, p) && p[|p| - 1] == "metadata.yaml")
    && (forall p :: p in l.recordings <==> p in files && Below(plan.bags, p) && EndsWith(p[|p| - 1], ".mcap"))
    && (forall p :: p in l.summaries <==>
                      p in files && Below(plan.summaries, p) && |p| == |plan.summaries| + 1
                      && EndsWith(p[|p| - 1], ".recording-summary.json"))
    && forall p :: p in l.playback <==> p in files && Below(plan.playback, p)
  }

  datatype Request = Request(flag: string, subject: string, source: string, deduplicate: bool)

  /** One accepted payload, in its role. */
  datatype Added = Added(flag: string, subject: string, rel: Parts, sha: Digest, size: nat)

  const FLAGS: set<string> := {"--scenario", "--runtime-manifest", "--acceptance-run", "--result",
                               "--evidence-index", "--recording-summary", "--artifact", "--evidence"}

  const CORE_FLAGS: set<string> := {"--scenario", "--runtime-manifest", "--acceptance-run", "--result",
      "--evidence-index"}

  const MANDATORY: set<string> := {
    "metrics:metrics.otlp.jsonl", "junit:junit.xml", "other_evidence:fastdds-profile.xml",
    "other_evidence:host-topology.json", "other_evidence:runtime-resources.json",
    "other_evidence:capture/qos-overrides.yaml", "other_evidence:capture/mcap-writer.yaml",
    "qualification_profile:providers/profile.json", "provider_conformance:providers/conformance.json",
    "other_evidence:providers/configuration.json", "other_evidence:providers/observation.json",
    "other_evidence:logs/foundation.log", "other_evidence:logs/observer.log"}

  /** `subject.split(":", 1)[0]`, or nothing when there is no colon. */
  function Kind(subject: string): string {
    if ':' !in subject then ""
    else if subject[0] == ':' then ""
    else [subject[0]] + Kind(subject[1..])
  }

  predicate MayStandIn(kind: string, earlier: string) {
    (earlier == "recording" || earlier == "metrics" || earlier == "junit" || earlier == "other_evidence") &&
    (kind == "recording" ==> earlier == "recording")
  }

  /** An earlier role already retains the same bytes for this kind. */
  predicate StoodIn(added: seq<Added>, kind: string, sha: Digest, size: nat) {
    exists i :: 0 <= i < |added| && added[i].sha == sha && added[i].size == size
      && MayStandIn(kind, Kind(added[i].subject))
  }

  /** `add`: refused, skipped as a duplicate, or appended. */
  function AddOne(files: Files, added: seq<Added>, r: Request): Option<seq<Added>> {
    var rel := Relative(r.source);
    if r.flag !in FLAGS || rel.None? || rel.value !in files then None
    else
      var sha, size := Sha256(files[rel.value]), |files[rel.value]|;
      if r.deduplicate && StoodIn(added, Kind(r.subject), sha, size) then Some(added)
      else Some(added + [Added(r.flag, r.subject, rel.value, sha, size)])
  }

  function AddEach(files: Files, added: seq<Added>, requests: seq<Request>): Option<seq<Added>> {
    if requests == [] then Some(added)
    else
      var before := AddEach(files, added, requests[..|requests| - 1]);
      if before.None? then None else AddOne(files, before.value, requests[|requests| - 1])
  }

  // ---- what is asked for ----

  function FromBindings(bindings: seq<Binding>, deduplicate: bool): seq<Request> {
    seq(|bindings|, i requires 0 <= i < |bindings| =>
      Request(bindings[i].flag, bindings[i].subject, bindings[i].source, deduplicate))
  }

  function FromMetadata(plan: Plan, l: Listing): seq<Request> {
    seq(|l.metadata|, i requires 0 <= i < |l.metadata| =>
      var below := if plan.bags <= l.metadata[i] then l.metadata[i][|plan.bags|..] else l.metadata[i];
      Request("--artifact", "other_evidence:capture/bags/" + Render(below), Render(l.metadata[i]), false))
  }

  /** Summaries and recordings, paired position by position. */
  function FromPairs(l: Listing, n: nat): seq<Request>
    requires n <= |l.summaries| == |l.recordings|
  {
    if n == 0 then []
    else FromPairs(l, n - 1) + [
      Request("--recording-summary", "primary-" + Decimal(n - 1), Render(l.summaries[n - 1]), false),
      Request("--evidence", "recording:primary-" + Decimal(n - 1) + ".mcap", Render(l.recordings[n - 1]), false)]
  }

  predicate IsMcap(p: Parts) {
    p != [] && Suffix(p[|p| - 1]) == ".mcap"
  }

  function PlaybackRequest(p: Parts): Request {
    Request("--artifact", (if IsMcap(p) then "recording:" else "other_evidence:") + Render(p), Render(p), true)
  }

  function FromPlayback(l: Listing): seq<Request> {
    seq(|l.playback|, i requires 0 <= i < |l.playback| => PlaybackRequest(l.playback[i]))
  }

  function Subjects(bindings: seq<Binding>): set<string> {
    set i | 0 <= i < |bindings| :: bindings[i].subject
  }

  function Flags(bindings: seq<Binding>): set<string> {
    set i | 0 <= i < |bindings| :: bindings[i].flag
  }

  predicate IsPlayback(plan: Plan) {
    plan.dataSource == "recording_playback"
  }

  /** The checks of `collect` that do not concern a single payload. */
  predicate PlanComplete(plan: Plan, files: Files, l: Listing) {
    && MANDATORY <= Subjects(plan.bindings)
    && (plan.dataSource == "simulator" ==> "other_evidence:providers/world.sdf" in Subjects(plan.bindings))
    && (IsPlayback(plan) ==> "dataset_manifest:dataset-manifest.json" in Subjects(plan.bindings))
    && CORE_FLAGS <= Flags(plan.bindings)
    && 0 < |l.summaries| == |l.recordings|
    && (IsPlayback(plan) || plan.dataSource == "simulator")
    && (IsPlayback(plan) ==> forall i :: 0 <= i < |l.recordings| && l.recordings[i] in files ==>
                                           Sha256(files[l.recordings[i]]) != plan.playbackSha)
  }

  /** What `collect` asks for, in its scan order: bindings, bag metadata, summary and recording pairs,
      playback sources, playback bindings, product bindings. */
  function Groups(plan: Plan, l: Listing): seq<seq<Request>>
    requires |l.summaries| == |l.recordings|
  {
    [FromBindings(plan.bindings, false), FromMetadata(plan, l), FromPairs(l, |l.summaries|)] +
    (if IsPlayback(plan) then [FromPlayback(l), FromBindings(plan.playbackBindings, true)] else []) +
    [FromBindings(plan.productBindings, false)]
  }

  function Flat(groups: seq<seq<Request>>): seq<Request> {
    if groups == [] then [] else Flat(groups[..|groups| - 1]) + groups[|groups| - 1]
  }

  function Requests(plan: Plan, l: Listing): seq<Request>
    requires |l.summaries| == |l.recordings|
  {
    Flat(Groups(plan, l))
  }

  /** The accepted payloads of a plan, if it is accepted. */
  function Collected(plan: Plan, files: Files, l: Listing): Option<seq<Added>> {
    if PlanComplete(plan, files, l) then AddEach(files, [], Requests(plan, l)) else None
  }

  // ---- what comes out ----

  function OutputText(rel: Parts): string {
    "payloads/" + Render(rel)
  }

  function EntryOf(counter: nat, a: Added): Export.Item {
    Export.Item("payload-" + Decimal(counter), Render(a.rel), OutputText(a.rel), Some(a.size), Some(a.sha))
  }

  function Entries(added: seq<Added>): seq<Export.Item> {
    if added == [] then [] else Entries(added[..|added| - 1]) + [EntryOf(|added|, added[|added| - 1])]
  }

  predicate Listed(entries: seq<Export.Item>, path: string) {
    exists i :: 0 <= i < |entries| && entries[i].relativePath == path
  }

  /** The first entry of every output path. */
  function Unique(entries: seq<Export.Item>): seq<Export.Item> {
    if entries == [] then []
    else
      var kept, last := Unique(entries[..|entries| - 1]), entries[|entries| - 1];
      if Listed(kept, last.relativePath) then kept else kept + [last]
  }

  function Absolute(parts: Parts): string {
    "/" + if parts == [] then "" else Join(parts)
  }

  function Tag(subject: string, target: string): string {
    if subject == "" then target else subject + "=" + target
  }

  /** Arguments that name the sources themselves. */
  function SourceArguments(root: Parts, added: seq<Added>): seq<string> {
    if added == [] then []
    else
      var a := added[|added| - 1];
      SourceArguments(root, added[..|added| - 1]) + [a.flag, Tag(a.subject, Absolute(root + a.rel))]
  }

  /** Arguments that name the copies below the destination. */
  function RetainedArguments(destination: Parts, added: seq<Added>): seq<string> {
    if added == [] then []
    else
      var a := added[|added| - 1];
      RetainedArguments(destination, added[..|added| - 1]) +
      [a.flag, Tag(a.subject, Absolute(destination + ["payloads"] + a.rel))]
  }

  // ---- the collecting loop ----

  /** The lists `collect` grows while it scans. */
  class Collector {
    const root: Parts
    const destination: Parts
    const files: Files
    var entries: seq<Export.Item>
    var arguments: seq<string>
    var retained: seq<string>
    var identities: seq<(string, Digest, nat)>
    var counter: nat
    ghost var added: seq<Added>

    ghost predicate Valid()
      reads this
    {
      && counter == |added| && entries == Entries(added)
      && arguments == SourceArguments(root, added) && retained == RetainedArguments(destination, added)
      && |identities| == |added|
      && forall i :: 0 <= i < |added| ==> identities[i] == (Kind(added[i].subject), added[i].sha, added[i].size)
    }

    constructor (root: Parts, destination: Parts, files: Files)
      ensures Valid() && added == [] && this.root == root && this.destination == destination && this.files == files
    {
      this.root, this.destination, this.files := root, destination, files;
      entries, arguments, retained, identities, counter := [], [], [], [], 0;
      added := [];
    }

    method Add(r: Request) returns (ok: bool)
      requires Valid()
      modifies this
      ensures Valid()
      ensures ok <==> AddOne(files, old(added), r).Some?
      ensures added == if ok then AddOne(files, old(added), r).value else old(added)
    {
      hide Relative, Kind, MayStandIn, Join, EntryOf;
      ok := false;
      var rel := Relative(r.source);
      if r.flag !in FLAGS || rel.None? || rel.value !in files { return; }
      var sha, size, kind := Sha256(files[rel.value]), |files[rel.value]|, Kind(r.subject);
      ok := true;
      if r.deduplicate {
        for i := 0 to |identities|
          invariant forall k :: 0 <= k < i ==>
                                  !(identities[k].1 == sha && identities[k].2 == size
                                    && MayStandIn(kind, identities[k].0))
        {
          if identities[i].1 == sha && identities[i].2 == size && MayStandIn(kind, identities[i].0) { return; }
        }
      }
      var a := Added(r.flag, r.subject, rel.value, sha, size);
      assert (added + [a])[..|added|] == added;
      added := added + [a];
      counter := counter + 1;
      entries := entries + [EntryOf(counter, a)];
      arguments := arguments + [r.flag, Tag(r.subject, Absolute(root + rel.value))];
      retained := retained + [r.flag, Tag(r.subject, Absolute(destination + ["payloads"] + rel.value))];
      identities := identities + [(kind, sha, size)];
    }

    method AddAll(requests: seq<Request>) returns (ok: bool)
      requires Valid()
      modifies this
      ensures Valid()
      ensures ok <==> AddEach(files, old(added), requests).Some?
      ensures ok ==> added == AddEach(files, old(added), requests).value
    {
      ok := true;
      for i := 0 to |requests|
        invariant Valid() && AddEach(files, old(added), requests[..i]) == Some(added)
      {
        assert requests[..i + 1][..i] == requests[..i];
        ok := Add(requests[i]);
        if !ok {
          AddEachStops(files, old(added), requests[..i + 1], requests);
          return;
        }
      }
      assert requests[..|requests|] == requests;
    }
  }

  lemma {:induction false} AddEachStops(files: Files, added: seq<Added>, a: seq<Request>, requests: seq<Request>)
    requires a <= requests && AddEach(files, added, a).None?
    ensures AddEach(files, added, requests).None?
    decreases |requests|
  {
    if |a| == |requests| {
      assert a == requests;
    } else {
      AddEachStops(files, added, a, requests[..|requests| - 1]);
    }
  }

  lemma {:induction false} AddEachConcat(files: Files, added: seq<Added>, a: seq<Request>, b: seq<Request>)
    requires AddEach(files, added, a).Some?
    ensures AddEach(files, added, a + b) == AddEach(files, AddEach(files, added, a).value, b)
    decreases |b|
  {
    if b == [] {
      assert a + b == a;
    } else {
      assert (a + b)[..|a + b| - 1] == a + b[..|b| - 1];
      AddEachConcat(files, added, a, b[..|b| - 1]);
    }
  }

  datatype Inventory = Inventory(runId: string, sourceRoot: Parts, destination: Parts, maximum: int,
      entries: seq<Export.Item>)

  function InventoryOf(plan: Plan, added: seq<Added>): Inventory {
    Inventory(plan.runId, plan.sourceRoot, plan.destination, plan.maximum, Unique(Entries(added)))
  }

  datatype Collection = Collection(inventory: Inventory, arguments: seq<string>, retained: seq<string>)

  function CollectionOf(plan: Plan, added: seq<Added>): Collection {
    Collection(InventoryOf(plan, added), SourceArguments(plan.sourceRoot, added),
      RetainedArguments(plan.destination, added))
  }

  method Collect(plan: Plan, files: Files, l: Listing) returns (r: Option<Collection>)
    ensures r.Some? <==> Collected(plan, files, l).Some?
    ensures r.Some? ==> r.value == CollectionOf(plan, Collected(plan, files, l).value)
  {
    hide AddEach, Groups, Entries, Unique, SourceArguments, RetainedArguments, Subjects, Flags;
    r := None;
    var c := new Collector(plan.sourceRoot, plan.destination, files);
    if !PlanComplete(plan, files, l) { return; }
    var groups := Groups(plan, l);
    EmptyAddEach(files);
    for i := 0 to |groups|
      invariant c.Valid() && c.root == plan.sourceRoot && c.destination == plan.destination && c.files == files
      invariant fresh(c) && AddEach(files, [], Flat(groups[..i])) == Some(c.added)
    {
      assert groups[..i + 1][..i] == groups[..i];
      AddEachConcat(files, [], Flat(groups[..i]), groups[i]);
      var ok := c.AddAll(groups[i]);
      if !ok {
        FlatPrefix(groups, i + 1);
        AddEachStops(files, [], Flat(groups[..i + 1]), Flat(groups));
        return;
      }
    }
    assert groups[..|groups|] == groups;
    r := Some(Collection(Inventory(plan.runId, plan.sourceRoot, plan.destination, plan.maximum, Unique(c.entries)),
                         c.arguments, c.retained));
  }

  lemma {:induction false} EmptyAddEach(files: Files)
    ensures AddEach(files, [], Flat([])) == Some([])
  {
  }

  lemma {:induction false} FlatPrefix(groups: seq<seq<Request>>, n: nat)
    requires n <= |groups|
    ensures Flat(groups[..n]) <= Flat(groups)
    decreases |groups|
  {
    if n == |groups| {
      assert groups[..n] == groups;
    } else {
      assert groups[..|groups| - 1][..n] == groups[..n];
      FlatPrefix(groups[..|groups| - 1], n);
    }
  }

  // ---- deduplication loses nothing ----

  /** The recorded facts are those of the files. */
  ghost predicate Faithful(files: Files, added: seq<Added>) {
    forall i :: 0 <= i < |added| ==>
      && added[i].rel in files && PortableParts(added[i].rel)
      && added[i].sha == Sha256(files[added[i].rel]) && added[i].size == |files[added[i].rel]|
  }

  /** Some accepted payload holds these bytes, as a recording if `recording` is asked for. */
  ghost predicate Represented(added: seq<Added>, bytes: Bytes, recording: bool) {
    exists i :: 0 <= i < |added| && added[i].sha == Sha256(bytes)
      && (recording ==> Kind(added[i].subject) == "recording")
  }

  lemma {:induction false} AddEachKeeps(files: Files, added: seq<Added>, requests: seq<Request>)
    requires AddEach(files, added, requests).Some? && Faithful(files, added)
    ensures added <= AddEach(files, added, requests).value && Faithful(files, AddEach(files, added, requests).value)
    decreases |requests|
  {
    hide Relative, StoodIn;
    if requests == [] {
    } else {
      AddEachKeeps(files, added, requests[..|requests| - 1]);
      RelativeIsPortable(requests[|requests| - 1].source);
    }
  }

  /** A skipped request is represented by an earlier payload of the same bytes, a skipped recording by
      an earlier recording. */
  lemma {:induction false} AddEachRepresents(files: Files, added: seq<Added>, requests: seq<Request>, i: nat)
    requires AddEach(files, added, requests).Some? && i < |requests|
    requires Relative(requests[i].source).Some?
    ensures Relative(requests[i].source).value in files
    ensures Represented(AddEach(files, added, requests).value, files[Relative(requests[i].source).value],
                        Kind(requests[i].subject) == "recording")
    decreases |requests|
  {
    hide Relative, Kind;
    var last := |requests| - 1;
    var before := AddEach(files, added, requests[..last]).value;
    var after := AddEach(files, added, requests).value;
    var bytes := if i < last then [] else files[Relative(requests[i].source).value];
    if i < last {
      AddEachRepresents(files, added, requests[..last], i);
      assert before <= after;
    } else if after == before {
      assert StoodIn(before, Kind(requests[i].subject), Sha256(bytes), |bytes|);
    } else {
      assert after[|before|].sha == Sha256(bytes);
    }
  }

  lemma {:induction false} KindOfPrefix(kind: string, rest: string)
    requires ':' !in kind
    ensures Kind(kind + ":" + rest) == kind
  {
    var subject := kind + ":" + rest;
    assert ':' in subject by { assert subject[|kind|] == ':'; }
    if kind == "" {
    } else {
      assert subject[1..] == kind[1..] + ":" + rest;
      KindOfPrefix(kind[1..], rest);
    }
  }

  lemma {:induction false} EntriesAt(added: seq<Added>, i: nat)
    requires i < |added|
    ensures |Entries(added)| == |added| && Entries(added)[i] == EntryOf(i + 1, added[i])
    decreases |added|
  {
    if i < |added| - 1 {
      EntriesAt(added[..|added| - 1], i);
    } else if i > 0 {
      EntriesAt(added[..|added| - 1], 0);
    }
  }

  /** Every kept entry is one of the entries, no two share an output path, and every output path is kept. */
  lemma {:induction false} UniqueKeepsPaths(entries: seq<Export.Item>)
    ensures forall i :: 0 <= i < |Unique(entries)| ==> Unique(entries)[i] in entries
    ensures forall i :: 0 <= i < |entries| ==> Listed(Unique(entries), entries[i].relativePath)
    ensures forall i, j :: 0 <= i < j < |Unique(entries)| ==>
        Unique(entries)[i].relativePath != Unique(entries)[j].relativePath
  {
    if entries == [] {
    } else {
      var last := entries[|entries| - 1];
      var kept := Unique(entries[..|entries| - 1]);
      UniqueKeepsPaths(entries[..|entries| - 1]);
      forall i | 0 <= i < |entries|
        ensures Listed(Unique(entries), entries[i].relativePath)
      {
        if i < |entries| - 1 {
          assert Listed(kept, entries[..|entries| - 1][i].relativePath);
          assert kept <= Unique(entries);
        } else if !Listed(kept, last.relativePath) {
          assert Unique(entries)[|kept|] == last;
        }
      }
    }
  }

  lemma {:induction false} OutputTextParses(rel: Parts)
    requires rel != [] && PortableParts(rel)
    ensures Relative(OutputText(rel)) == Some(["payloads"] + rel)
  {
    var output := ["payloads"] + rel;
    assert output[1..] == rel;
    assert "payloads" + "/" == "payloads/";
    RelativeUndoesRender(output);
  }

  lemma {:induction false} EntryIsAdded(added: seq<Added>, e: Export.Item)
    requires e in Unique(Entries(added))
    ensures exists i: nat :: i < |added| && e == EntryOf(i + 1, added[i])
  {
    UniqueKeepsPaths(Entries(added));
    var k :| 0 <= k < |Entries(added)| && Entries(added)[k] == e;
    EntriesLength(added);
    EntriesAt(added, k);
    assert e == EntryOf(k + 1, added[k]);
  }

  lemma {:induction false} EntriesLength(added: seq<Added>)
    ensures |Entries(added)| == |added|
  {
    if added == [] {
    } else {
      EntriesLength(added[..|added| - 1]);
    }
  }

  /** Whatever role made the entry, the inventory holds one with this payload's bytes and path. */
  lemma {:induction false} AddedHasEntry(files: Files, added: seq<Added>, i: nat)
    requires Faithful(files, added) && [] !in files && i < |added|
    ensures exists e :: e in Unique(Entries(added)) && e.relativePath == OutputText(added[i].rel)
                        && e.sha == Some(added[i].sha) && e.size == Some(added[i].size)
  {
    var entries := Entries(added);
    EntriesAt(added, i);
    UniqueKeepsPaths(entries);
    assert Listed(Unique(entries), entries[i].relativePath);
    var k :| 0 <= k < |Unique(entries)| && Unique(entries)[k].relativePath == OutputText(added[i].rel);
    var e := Unique(entries)[k];
    EntryIsAdded(added, e);
    var j: nat :| j < |added| && e == EntryOf(j + 1, added[j]);
    OutputTextParses(added[i].rel);
    OutputTextParses(added[j].rel);
    assert (["payloads"] + added[j].rel)[1..] == (["payloads"] + added[i].rel)[1..];
    assert e in Unique(entries);
  }

  lemma {:induction false} PlaybackListed(plan: Plan, files: Files, l: Listing, p: Parts) returns (k: nat)
    requires Scanned(plan, files, l) && p in files && Below(plan.playback, p)
    ensures k < |l.playback| && l.playback[k] == p
  {
    assert p in l.playback;
    k :| 0 <= k < |l.playback| && l.playback[k] == p;
  }

  /** Playback: every file below the source directory is in the inventory by content, and a `.mcap` is
      there in the role of a recording. */
  lemma {:induction false} PlaybackFilesRetained(plan: Plan, files: Files, l: Listing, p: Parts)
    requires Collected(plan, files, l).Some? && IsPlayback(plan) && [] !in files && Scanned(plan, files, l)
    requires p in files && Below(plan.playback, p) && FileNames(p)
    ensures var added := Collected(plan, files, l).value;
      exists i :: 0 <= i < |added| && added[i].sha == Sha256(files[p])
                  && (IsMcap(p) ==> Kind(added[i].subject) == "recording")
                  && (exists e :: e in Unique(Entries(added)) && e.relativePath == OutputText(added[i].rel)
                                  && e.sha == Some(Sha256(files[p])) && e.size == Some(|files[p]|))
  {
    hide AddEach, Requests, Relative, Kind, Unique, Entries, EntryOf, OutputText, Render, PlanComplete, Groups, Scanned;
    var added := Collected(plan, files, l).value;
    var k := PlaybackListed(plan, files, l, p);
    PlanCompletePairs(plan, files, l);
    AddEachKeeps(files, [], Requests(plan, l));
    var at := PlaybackRequestAt(plan, l, k);
    if Relative(Render(p)).None? { AddEachNeedsPaths(files, [], Requests(plan, l), at); }
    RelativeUndoesRender(p);
    AddEachRepresents(files, [], Requests(plan, l), at);
    KindOfPrefix("recording", Render(p));
    assert "recording" + ":" == "recording:";
    var i :| 0 <= i < |added| && added[i].sha == Sha256(files[p])
        && (IsMcap(p) ==> Kind(added[i].subject) == "recording");
    AddedHasEntry(files, added, i);
  }

  lemma {:induction false} PlanCompletePairs(plan: Plan, files: Files, l: Listing)
    requires Collected(plan, files, l).Some?
    ensures |l.summaries| == |l.recordings|
    ensures Collected(plan, files, l) == AddEach(files, [], Requests(plan, l))
  {
  }

  lemma {:induction false} AddEachNeedsPaths(files: Files, added: seq<Added>, requests: seq<Request>, i: nat)
    requires i < |requests| && AddEach(files, added, requests).Some?
    ensures Relative(requests[i].source).Some?
    decreases |requests|
  {
    if i == |requests| - 1 {
    } else {
      AddEachNeedsPaths(files, added, requests[..|requests| - 1], i);
    }
  }

  /** Where the request for the k-th playback file is. */
  lemma {:induction false} PlaybackRequestAt(plan: Plan, l: Listing, k: nat) returns (i: nat)
    requires IsPlayback(plan) && |l.summaries| == |l.recordings| && k < |l.playback|
    ensures i < |Requests(plan, l)| && Requests(plan, l)[i] == PlaybackRequest(l.playback[k])
  {
    var groups := Groups(plan, l);
    assert groups[..4][..3] == groups[..3] && groups[..4][3] == FromPlayback(l);
    FlatPrefix(groups, 4);
    i := |Flat(groups[..3])| + k;
    assert Flat(groups[..4])[i] == FromPlayback(l)[k];
  }

  // ---- the inventory passes the export's admission ----

  /** While the items are admitted, the source tree is the collected one and nothing fails. */
  ghost predicate StableSources(env: Export.Env, files: Files, n: nat) {
    forall t: nat, rel: Parts :: t < n && rel in files ==>
      !Export.Fault(env, t) && Export.Look(env, t, rel).Regular?
        && Export.InodeAt(env, t, Export.Look(env, t, rel).ino).bytes == files[rel]
  }

  function EntryTotal(entries: seq<Export.Item>, n: nat): nat
    requires n <= |entries|
  {
    if n == 0 then 0
    else EntryTotal(entries, n - 1) + (if entries[n - 1].size.Some? then entries[n - 1].size.value else 0)
  }

  ghost predicate DistinctNames(entries: seq<Export.Item>) {
    forall i, j :: 0 <= i < j < |entries| ==> entries[i].name != entries[j].name
  }

  /** Distinct counters give distinct names. */
  lemma {:induction false} EntriesNames(added: seq<Added>)
    ensures DistinctNames(Entries(added))
  {
    EntriesLength(added);
    forall i, j | 0 <= i < j < |added|
      ensures Entries(added)[i].name != Entries(added)[j].name
    {
      EntriesAt(added, i);
      EntriesAt(added, j);
      NamesDiffer(i + 1, j + 1);
    }
  }

  /** Dropping later entries of a path keeps names distinct. */
  lemma {:induction false} UniqueNames(entries: seq<Export.Item>)
    requires DistinctNames(entries)
    ensures DistinctNames(Unique(entries))
  {
    if entries == [] {
    } else {
      var before := entries[..|entries| - 1];
      UniqueNames(before);
      UniqueKeepsPaths(before);
    }
  }

  lemma {:induction false} NamesDiffer(m: nat, n: nat)
    requires m != n
    ensures "payload-" + Decimal(m) != "payload-" + Decimal(n)
  {
    if "payload-" + Decimal(m) == "payload-" + Decimal(n) {
      assert ("payload-" + Decimal(m))[8..] == ("payload-" + Decimal(n))[8..];
      DecimalInjective(m, n);
    }
  }

  /** One collected entry passes every check of the export that concerns it alone. */
  lemma {:induction false} EntryPasses(env: Export.Env, files: Files, a: Added, counter: nat, t: nat, n: nat)
    requires StableSources(env, files, n) && t < n
    requires a.rel in files && a.rel != [] && PortableParts(a.rel)
    requires a.sha == Sha256(files[a.rel]) && a.size == |files[a.rel]|
    ensures Export.ItemOk(env, EntryOf(counter, a), t)
    ensures Export.SizeAt(env, EntryOf(counter, a), t) == a.size
    ensures Export.OutputOf(EntryOf(counter, a)) == ["payloads"] + a.rel
  {
    hide Relative, Join, Split;
    OutputTextParses(a.rel);
    RelativeUndoesRender(a.rel);
    var output := ["payloads"] + a.rel;
    SplitJoin(output);
    assert Render(output)[0] == 'p';
  }

  /** A collected inventory within the byte bound is admitted as a whole. */
  lemma {:induction false} InventoryIsAdmissible(env: Export.Env, files: Files, added: seq<Added>, maximum: int)
    requires Faithful(files, added) && [] !in files
    requires StableSources(env, files, |Unique(Entries(added))|)
    requires EntryTotal(Unique(Entries(added)), |Unique(Entries(added))|) <= maximum
    ensures Export.Admissible(env, Unique(Entries(added)), maximum, |Unique(Entries(added))|)
    ensures Export.TotalAt(env, Unique(Entries(added)), |Unique(Entries(added))|)
              == EntryTotal(Unique(Entries(added)), |Unique(Entries(added))|)
  {
    hide Relative, StableSources, Unique, Entries, EntryOf, Export.ItemOk, Export.SizeAt, Export.OutputOf;
    var u := Unique(Entries(added));
    EntriesNames(added);
    UniqueNames(Entries(added));
    UniqueKeepsPaths(Entries(added));
    forall i | 0 <= i < |u|
      ensures EntryAdmitted(env, u[i], i)
    {
      UniqueEntryAdmitted(env, files, added, i);
    }
    forall i, j | 0 <= i < j < |u|
      ensures Export.OutputOf(u[i]) != Export.OutputOf(u[j])
    {
      assert EntryAdmitted(env, u[i], i) && EntryAdmitted(env, u[j], j);
    }
    AdmissibleByParts(env, u, maximum, |u|);
  }

  /** Judged at instant `t`, the entry is fine, has its recorded size, and its output path is the one it prints. */
  ghost predicate EntryAdmitted(env: Export.Env, e: Export.Item, t: nat) {
    && Export.ItemOk(env, e, t)
    && e.size == Some(Export.SizeAt(env, e, t))
    && Export.OutputOf(e) != [] && e.relativePath == Render(Export.OutputOf(e))
  }

  lemma {:induction false} UniqueEntryAdmitted(env: Export.Env, files: Files, added: seq<Added>, i: nat)
    requires Faithful(files, added) && [] !in files
    requires i < |Unique(Entries(added))| && StableSources(env, files, |Unique(Entries(added))|)
    ensures EntryAdmitted(env, Unique(Entries(added))[i], i)
  {
    hide Relative, StableSources, Unique, Entries;
    var u := Unique(Entries(added));
    EntryIsAdded(added, u[i]);
    var k: nat :| k < |added| && u[i] == EntryOf(k + 1, added[k]);
    EntryPasses(env, files, added[k], k + 1, i, |u|);
    assert (["payloads"] + added[k].rel)[1..] == added[k].rel;
    assert "payloads" + "/" == "payloads/";
  }

  lemma {:induction false} AdmissibleByParts(env: Export.Env, items: seq<Export.Item>, maximum: int, n: nat)
    requires n <= |items| && EntryTotal(items, |items|) <= maximum && DistinctNames(items)
    requires forall i :: 0 <= i < |items| ==> EntryAdmitted(env, items[i], i)
    requires forall i, j :: 0 <= i < j < |items| ==> Export.OutputOf(items[i]) != Export.OutputOf(items[j])
    ensures Export.Admissible(env, items, maximum, n) && Export.TotalAt(env, items, n) == EntryTotal(items, n)
  {
    hide Export.ItemOk, Export.SizeAt, Export.OutputOf;
    if n == 0 {
    } else {
      AdmissibleByParts(env, items, maximum, n - 1);
      EntryTotalGrows(items, n, |items|);
      NamesBefore(items, n - 1);
      OutputsBefore(items, n - 1);
      assert EntryAdmitted(env, items[n - 1], n - 1);
    }
  }

  lemma {:induction false} EntryTotalGrows(entries: seq<Export.Item>, m: nat, n: nat)
    requires m <= n <= |entries|
    ensures EntryTotal(entries, m) <= EntryTotal(entries, n)
    decreases n
  {
    if m == n {
    } else {
      EntryTotalGrows(entries, m, n - 1);
    }
  }

  lemma {:induction false} NamesBefore(entries: seq<Export.Item>, n: nat)
    requires n <= |entries|
    ensures forall name :: name in Export.Names(entries, n) ==> exists i :: 0 <= i < n && entries[i].name == name
  {
    if n == 0 {
    } else {
      NamesBefore(entries, n - 1);
    }
  }

  lemma {:induction false} OutputsBefore(entries: seq<Export.Item>, n: nat)
    requires n <= |entries|
    ensures forall o :: o in Export.Outputs(entries, n) ==> exists i :: 0 <= i < n && Export.OutputOf(entries[i]) == o
  {
    if n == 0 {
    } else {
      OutputsBefore(entries, n - 1);
    }
  }

  /** `_check_payloads` over a retained root. */
  ghost predicate PayloadsMatch(entries: seq<Export.Item>, tree: map<Parts, Export.Entry>, root: Parts) {
    forall i :: 0 <= i < |entries| ==>
      && Relative(entries[i].relativePath).Some?
      && var p := root + Relative(entries[i].relativePath).value;
         && p in tree && tree[p].Payload?
         && entries[i].sha == Some(Sha256(tree[p].bytes)) && entries[i].size == Some(|tree[p].bytes|)
  }

  /** What a completed export leaves satisfies the check against the sealed inventory. */
  lemma {:induction false} ExportedPayloadsMatch(env: Export.Env, added: seq<Added>, tree: map<Parts, Export.Entry>,
      root: Parts, admitted: seq<Export.Admitted>, rows: seq<Export.Row>)
    requires var entries := Unique(Entries(added));
      && |entries| == |admitted| == |rows|
      && (forall i :: 0 <= i < |entries| ==> Export.AdmittedFrom(env, entries[i], admitted[i]))
      && Export.RetainedPrefix(tree, root, admitted, rows)
    ensures PayloadsMatch(Unique(Entries(added)), tree, root)
  {
    hide Relative, Unique, Entries;
    var entries := Unique(Entries(added));
    forall i | 0 <= i < |entries|
      ensures Relative(entries[i].relativePath).Some?
      ensures var p := root + Relative(entries[i].relativePath).value;
        && p in tree && tree[p].Payload?
        && entries[i].sha == Some(Sha256(tree[p].bytes)) && entries[i].size == Some(|tree[p].bytes|)
    {
      EntryIsAdded(added, entries[i]);
      assert Export.AdmittedFrom(env, entries[i], admitted[i]) && Export.Retained(tree, root, admitted[i], rows[i]);
    }
  }

  // ---- from the scan to the retained root ----

  /** The inventory as the export reads it. */
  function ExportPlan(plan: Plan, added: seq<Added>): Export.Plan {
    Export.Plan(1, plan.sourceRoot, plan.destination, Unique(Entries(added)), plan.maximum)
  }

  lemma {:induction false} CollectedIsNonempty(plan: Plan, files: Files, l: Listing)
    requires Collected(plan, files, l).Some? && [] !in files
    ensures Faithful(files, Collected(plan, files, l).value)
    ensures Unique(Entries(Collected(plan, files, l).value)) != []
  {
    hide Requests, Relative, Unique, Entries, AddEach, PlanComplete;
    PlanCompletePairs(plan, files, l);
    var requests, added := Requests(plan, l), Collected(plan, files, l).value;
    PlanHasBindings(plan, files, l);
    AddEachKeeps(files, [], requests);
    var at := BindingRequestAt(plan, l, 0);
    AddEachPlain(files, [], requests, at);
    AddedHasEntry(files, added, 0);
  }

  lemma {:induction false} PlanHasBindings(plan: Plan, files: Files, l: Listing)
    requires PlanComplete(plan, files, l)
    ensures plan.bindings != []
  {
    assert "junit:junit.xml" in Subjects(plan.bindings);
  }

  /** A collected plan over stable sources is admitted by the export exactly when it is within its byte bound,
      has at most 4096 entries and the bound itself is one the export takes. */
  lemma {:induction false} CollectedIsAdmitted(plan: Plan, files: Files, l: Listing, env: Export.Env)
    requires Collected(plan, files, l).Some? && [] !in files
    requires StableSources(env, files, |ExportPlan(plan, Collected(plan, files, l).value).items|)
    ensures var x := ExportPlan(plan, Collected(plan, files, l).value);
      && (Export.Admissible(env, x.items, x.maximum, |x.items|) <==> EntryTotal(x.items, |x.items|) <= plan.maximum)
      && (Export.PlanShapeOk(x) <==> |x.items| <= 4096 && 0 < plan.maximum <= Export.MAX_BYTES)
  {
    hide Collected, StableSources, Unique, Entries, Faithful, EntryTotal, Export.TotalAt, Export.ItemOk;
    CollectedIsNonempty(plan, files, l);
    var added := Collected(plan, files, l).value;
    var total := EntryTotal(Unique(Entries(added)), |Unique(Entries(added))|);
    InventoryIsAdmissible(env, files, added, total);
    if total <= plan.maximum { InventoryIsAdmissible(env, files, added, plan.maximum); }
  }

  /** A calm world whose sources are these files. */
  ghost predicate CalmSources(env: Export.Env, files: Files) {
    Export.Calm(env) && forall rel: Parts :: rel in files ==> HoldsFile(env, rel, files[rel])
  }

  ghost predicate HoldsFile(env: Export.Env, rel: Parts, bytes: Bytes) {
    var node := Export.Look(env, 0, rel);
    node.Regular? && Export.InodeAt(env, 0, node.ino).bytes == bytes
  }

  /** No file lies below another. */
  ghost predicate FilesApart(files: Files) {
    forall p, q :: p in files && q in files && p <= q ==> p == q
  }

  lemma {:induction false} CalmIsStable(env: Export.Env, files: Files, n: nat)
    requires CalmSources(env, files)
    ensures StableSources(env, files, n)
  {
    forall t: nat, rel: Parts | t < n && rel in files
      ensures !Export.Fault(env, t) && Export.Look(env, t, rel).Regular?
      ensures Export.InodeAt(env, t, Export.Look(env, t, rel).ino).bytes == files[rel]
    {
      assert HoldsFile(env, rel, files[rel]);
      assert Export.Look(env, t, rel) == Export.Look(env, 0, rel);
      var ino := Export.Look(env, 0, rel).ino;
      assert Export.InodeAt(env, t, ino) == Export.InodeAt(env, 0, ino);
    }
  }

  /** An entry of the inventory, with the payload it stands for. */
  lemma {:induction false} EntryPlace(env: Export.Env, files: Files, added: seq<Added>, e: Export.Item)
      returns (rel: Parts)
    requires Faithful(files, added) && [] !in files && e in Unique(Entries(added)) && CalmSources(env, files)
    ensures rel in files && Export.OutputOf(e) == ["payloads"] + rel && e.relativePath == OutputText(rel)
    ensures Export.Declared(env, e)
  {
    hide Relative, Unique, Entries, Export.Calm;
    EntryIsAdded(added, e);
    var k: nat :| k < |added| && e == EntryOf(k + 1, added[k]);
    rel := added[k].rel;
    OutputTextParses(rel);
    RelativeUndoesRender(rel);
    assert HoldsFile(env, rel, files[rel]);
  }

  /** The outputs of an inventory can all be laid out beside the manifest. */
  lemma {:induction false} InventoryFits(env: Export.Env, files: Files, added: seq<Added>, n: nat)
    requires Faithful(files, added) && [] !in files && CalmSources(env, files) && FilesApart(files)
    requires n <= |Unique(Entries(added))|
    ensures Export.Apart(Unique(Entries(added)), n) && Export.AllDeclared(env, Unique(Entries(added)), n)
    ensures Export.NoneUnder(Unique(Entries(added)), Export.MANIFEST)
  {
    hide Unique, Entries, Faithful, CalmSources, Export.OutputOf, Export.Declared, OutputText;
    var u := Unique(Entries(added));
    UniqueKeepsPaths(Entries(added));
    forall i | 0 <= i < |u|
      ensures !Export.Under(Export.OutputOf(u[i]), Export.MANIFEST)
    {
      var rel := EntryPlace(env, files, added, u[i]);
      assert "payloads"[0] != Export.MANIFEST[0];
    }
    if n == 0 {
    } else {
      InventoryFits(env, files, added, n - 1);
      var last := EntryPlace(env, files, added, u[n - 1]);
      forall j | 0 <= j < n - 1
        ensures var a, b := Export.OutputOf(u[j]), Export.OutputOf(u[n - 1]); !(a <= b) && !(b <= a)
      {
        var rel := EntryPlace(env, files, added, u[j]);
        assert u[j].relativePath != u[n - 1].relativePath;
        BelowPayloads(rel, last);
        BelowPayloads(last, rel);
      }
    }
  }

  lemma {:induction false} BelowPayloads(a: Parts, b: Parts)
    ensures ["payloads"] + a <= ["payloads"] + b ==> a <= b
  {
    var x, y := ["payloads"] + a, ["payloads"] + b;
    assert x[1..] == a && y[1..] == b;
    assert x <= y ==> x[1..] <= y[1..];
  }

  /** The collected inventory goes to the export.  Whatever completes passes the payload check against the
      inventory; and in a calm world exactly the inventories within the export's bounds complete. */
  method RetainCollected(store: Export.Store, plan: Plan, files: Files, l: Listing, env: Export.Env)
    returns (r: Option<Export.Outcome>)
    requires store.Valid() && [] !in files
    modifies store
    ensures r.Some? <==> Collected(plan, files, l).Some?
    ensures r.Some? && r.value.Complete? ==>
      PayloadsMatch(Unique(Entries(Collected(plan, files, l).value)), store.tree, plan.destination)
    ensures r.Some? && CalmSources(env, files) && FilesApart(files) ==>
      var x := ExportPlan(plan, Collected(plan, files, l).value);
      (r.value.Complete? <==>
       && Export.NewDestination(x, old(store.tree)) && |x.items| <= 4096 && 0 < plan.maximum <= Export.MAX_BYTES
       && EntryTotal(x.items, |x.items|) <= plan.maximum)
  {
    hide Unique, Entries, EntryTotal, PayloadsMatch, CalmSources, FilesApart, Export.Calm, Export.Admissible;
    hide Export.Apart, Export.NoneUnder, Export.AllDeclared, Export.RetainedPrefix, Export.SnapshotPrefix;
    hide Export.AdmittedFrom, Export.SumSizes, Export.MarkerBlocked, Export.NewDestination, Export.WellFormed;
    var c := Collect(plan, files, l);
    if c.None? { return None; }
    ghost var added := Collected(plan, files, l).value;
    var i := c.value.inventory;
    var x := Export.Plan(1, i.sourceRoot, i.destination, i.entries, i.maximum);
    assert x == ExportPlan(plan, added);
    CollectedIsNonempty(plan, files, l);
    if CalmSources(env, files) && FilesApart(files) {
      CalmIsStable(env, files, |x.items|);
      InventoryFits(env, files, added, |x.items|);
      CalmFaults(env, files);
      CollectedIsAdmitted(plan, files, l, env);
    }
    ghost var admitted: seq<Export.Admitted>, until: seq<nat>, handler: nat;
    var outcome: Export.Outcome;
    outcome, admitted, until, handler := Export.Export(store, x, env);
    r := Some(outcome);
    if outcome.Complete? { ExportedPayloadsMatch(env, added, store.tree, plan.destination, admitted, outcome.rows); }
  }

  lemma {:induction false} CalmFaults(env: Export.Env, files: Files)
    requires CalmSources(env, files)
    ensures Export.Calm(env) && forall t: nat :: !Export.Fault(env, t)
  {
  }

  // ---- the sealed assessment and its retries ----

  datatype Verdict = Passed | NotPassed(status: string)

  /** What an acceptance result document says; reading it is not part of this model. */
  datatype ResultDocument = ResultDocument(runId: string, domain: string, verdict: Verdict)

  datatype Completed = Completed(
    runId: string, domain: string, verdict: Verdict, exitCode: int, result: Digest, resultPath: string,
    inventory: Inventory, arguments: seq<string>, sourceArguments: seq<string>)

  /** A completed assessment exits 0 exactly when it passed, and 1 otherwise. */
  predicate ExitMatches(exitCode: int, verdict: Verdict) {
    exitCode == if verdict.Passed? then 0 else 1
  }

  /** The one row that a flag must have. */
  predicate OneBinding(bindings: seq<Binding>, flag: string, i: nat) {
    i < |bindings| && forall k :: 0 <= k < |bindings| ==> (bindings[k].flag == flag <==> k == i)
  }

  /** The inputs of one invocation: `decode` reads a result document, `result`, `scenario` and `run`
      are the positions of the singular bindings, `validated` is the verdict of the public tools. */
  datatype Invocation = Invocation(plan: Plan, files: Files, listing: Listing, decode: Bytes -> Option<ResultDocument>,
                                   result: nat, scenario: nat, run: nat, validated: bool)

  /** `verify_result`. */
  function Verify(v: Invocation, exitCode: int): Option<Completed> {
    var added := Collected(v.plan, v.files, v.listing);
    if added.None? then None
    else if EntryTotal(Unique(Entries(added.value)), |Unique(Entries(added.value))|) > v.plan.maximum then None
    else if !OneBinding(v.plan.bindings, "--result", v.result) || !OneBinding(v.plan.bindings, "--scenario", v.scenario)
            || !OneBinding(v.plan.bindings, "--acceptance-run", v.run) then None
    else
      var row := v.plan.bindings[v.result];
      var path := Relative(row.source);
      if path.None? || path.value !in v.files then None
      else
        var doc := v.decode(v.files[path.value]);
        if doc.None? || doc.value.runId != v.plan.runId || doc.value.domain != row.subject
           || !ExitMatches(exitCode, doc.value.verdict) || !v.validated then None
        else
          var c := CollectionOf(v.plan, added.value);
          Some(Completed(v.plan.runId, row.subject, doc.value.verdict, exitCode, Sha256(v.files[path.value]),
                         OutputText(path.value), c.inventory, c.retained, c.arguments))
  }

  /** The retry branch of `main`: `sameTarget` when the sealed file itself is the output. */
  function Retry(sealed: Completed, v: Invocation, sameTarget: bool): Option<Completed> {
    var added := Collected(v.plan, v.files, v.listing);
    if added.None? then None
    else
      var c := CollectionOf(v.plan, added.value);
      if c.arguments != sealed.sourceArguments || c.inventory.runId != sealed.inventory.runId
         || c.inventory.sourceRoot != sealed.inventory.sourceRoot || c.inventory.maximum != sealed.inventory.maximum
         || c.inventory.entries != sealed.inventory.entries then None
      else if sameTarget then
        if c.retained != sealed.arguments || c.inventory != sealed.inventory then None else Some(sealed)
      else Some(sealed.(inventory := c.inventory, arguments := c.retained))
  }

  datatype Attempt = Attempt(v: Invocation, sameTarget: bool)

  /** Any number of issued retries, each from the previous sealed file. */
  function Chain(sealed: Completed, attempts: seq<Attempt>): Option<Completed> {
    if attempts == [] then Some(sealed)
    else
      var before := Chain(sealed, attempts[..|attempts| - 1]);
      if before.None? then None
      else Retry(before.value, attempts[|attempts| - 1].v, attempts[|attempts| - 1].sameTarget)
  }

  /** Two argument lists that differ only in the root: even positions hold the same flag; odd positions
      hold the same subject, for the same payload under the source root and under the destination. */
  ghost predicate Aligned(source: seq<string>, retained: seq<string>, root: Parts, destination: Parts) {
    && |source| == |retained| && |source| % 2 == 0
    && forall i :: 0 <= i < |source| ==> AlignedAt(source, retained, root, destination, i)
  }

  ghost predicate AlignedAt(source: seq<string>, retained: seq<string>, root: Parts, destination: Parts, i: nat)
    requires i < |source| == |retained|
  {
    if i % 2 == 0 then source[i] == retained[i] && source[i] in FLAGS
    else exists subject: string, rel: Parts ::
      source[i] == Tag(subject, Absolute(root + rel)) &&
      retained[i] == Tag(subject, Absolute(destination + ["payloads"] + rel))
  }

  lemma {:induction false} AlignedStep(source: seq<string>, retained: seq<string>, root: Parts, destination: Parts,
      flag: string, subject: string, rel: Parts)
    requires Aligned(source, retained, root, destination) && flag in FLAGS
    ensures Aligned(source + [flag, Tag(subject, Absolute(root + rel))],
                    retained + [flag, Tag(subject, Absolute(destination + ["payloads"] + rel))], root, destination)
  {
    hide Tag, Absolute;
    var s := source + [flag, Tag(subject, Absolute(root + rel))];
    var r := retained + [flag, Tag(subject, Absolute(destination + ["payloads"] + rel))];
    forall i | 0 <= i < |s|
      ensures AlignedAt(s, r, root, destination, i)
    {
      if i < |source| {
        assert s[i] == source[i] && r[i] == retained[i];
        assert AlignedAt(source, retained, root, destination, i);
      } else if i == |source| + 1 {
        assert s[i] == Tag(subject, Absolute(root + rel));
      }
    }
  }

  lemma {:induction false} CollectedAligns(plan: Plan, added: seq<Added>)
    requires forall i :: 0 <= i < |added| ==> added[i].flag in FLAGS
    ensures Aligned(SourceArguments(plan.sourceRoot, added), RetainedArguments(plan.destination, added),
                    plan.sourceRoot, plan.destination)
  {
    hide Aligned, Tag, Absolute;
    if added == [] {
      NothingAligned(plan.sourceRoot, plan.destination);
    } else {
      var before, a := added[..|added| - 1], added[|added| - 1];
      CollectedAligns(plan, before);
      AlignedStep(SourceArguments(plan.sourceRoot, before), RetainedArguments(plan.destination, before),
                  plan.sourceRoot, plan.destination, a.flag, a.subject, a.rel);
    }
  }

  lemma {:induction false} NothingAligned(root: Parts, destination: Parts)
    ensures Aligned([], [], root, destination)
  {
  }

  lemma {:induction false} AddEachFlags(files: Files, requests: seq<Request>)
    requires AddEach(files, [], requests).Some?
    ensures forall i :: 0 <= i < |AddEach(files, [], requests).value| ==>
        AddEach(files, [], requests).value[i].flag in FLAGS
    decreases |requests|
  {
    if requests == [] {
    } else {
      AddEachFlags(files, requests[..|requests| - 1]);
    }
  }

  ghost predicate SealedAligned(c: Completed) {
    Aligned(c.sourceArguments, c.arguments, c.inventory.sourceRoot, c.inventory.destination)
  }

  /** Everything but the destination. */
  ghost predicate SameSeal(a: Completed, b: Completed) {
    && b == a.(inventory := b.inventory, arguments := b.arguments)
    && b.inventory == a.inventory.(destination := b.inventory.destination)
  }

  /** What `verify_result` seals: arguments aligned with the validated ones, a verdict that agrees with
      the exit code, and a result that is one of the retained payloads. */
  lemma {:induction false} VerifySeals(v: Invocation, exitCode: int)
    requires [] !in v.files
    ensures Verify(v, exitCode).Some? ==>
      var c := Verify(v, exitCode).value;
      && SealedAligned(c)
      && c.runId == c.inventory.runId
      && ExitMatches(c.exitCode, c.verdict)
      && exists e :: e in c.inventory.entries && e.relativePath == c.resultPath && e.sha == Some(c.result)
  {
    hide Requests, PlanComplete, Relative;
    if Verify(v, exitCode).None? { return; }
    var added := Collected(v.plan, v.files, v.listing).value;
    PlanCompletePairs(v.plan, v.files, v.listing);
    var requests := Requests(v.plan, v.listing);
    AddEachFlags(v.files, requests);
    CollectedAligns(v.plan, added);
    AddEachKeeps(v.files, [], requests);
    var at := BindingRequestAt(v.plan, v.listing, v.result);
    AddEachPlain(v.files, [], requests, at);
    var i :| 0 <= i < |added| && added[i].rel == Relative(requests[at].source).value;
    AddedHasEntry(v.files, added, i);
  }

  /** A request that may not be skipped is in the list. */
  lemma {:induction false} AddEachPlain(files: Files, added: seq<Added>, requests: seq<Request>, i: nat)
    requires AddEach(files, added, requests).Some? && i < |requests| && !requests[i].deduplicate
    ensures Relative(requests[i].source).Some?
    ensures exists k :: 0 <= k < |AddEach(files, added, requests).value|
                        && AddEach(files, added, requests).value[k].rel == Relative(requests[i].source).value
    decreases |requests|
  {
    hide Relative;
    var last := |requests| - 1;
    var before, after := AddEach(files, added, requests[..last]).value, AddEach(files, added, requests).value;
    if i < last {
      AddEachPlain(files, added, requests[..last], i);
      var k :| 0 <= k < |before| && before[k].rel == Relative(requests[i].source).value;
      assert after[k] == before[k];
    } else {
      assert after[|before|].rel == Relative(requests[i].source).value;
    }
  }

  lemma {:induction false} BindingRequestAt(plan: Plan, l: Listing, k: nat) returns (i: nat)
    requires |l.summaries| == |l.recordings| && k < |plan.bindings|
    ensures i < |Requests(plan, l)|
    ensures Requests(plan, l)[i] ==
        Request(plan.bindings[k].flag, plan.bindings[k].subject, plan.bindings[k].source, false)
  {
    var groups := Groups(plan, l);
    assert groups[..1] == [FromBindings(plan.bindings, false)];
    assert groups[..1][..0] == [];
    FlatPrefix(groups, 1);
    i := k;
    assert Flat(groups[..1])[i] == FromBindings(plan.bindings, false)[k];
  }

  /** One issued retry changes the destination and re-aligns the arguments with it; nothing else. */
  lemma {:induction false} RetryKeepsSeal(sealed: Completed, v: Invocation, sameTarget: bool)
    requires SealedAligned(sealed) && Retry(sealed, v, sameTarget).Some?
    ensures SameSeal(sealed, Retry(sealed, v, sameTarget).value)
    ensures SealedAligned(Retry(sealed, v, sameTarget).value)
    ensures Retry(sealed, v, sameTarget).value.inventory.destination == v.plan.destination
  {
    hide Requests, Aligned, SourceArguments, RetainedArguments, Unique;
    var added := Collected(v.plan, v.files, v.listing).value;
    AddEachFlags(v.files, Requests(v.plan, v.listing));
    CollectedAligns(v.plan, added);
  }

  /** Over any chain of retries of an assessment whose arguments are aligned, as a verified one's are. */
  lemma {:induction false} ChainKeepsSeal(sealed: Completed, attempts: seq<Attempt>)
    requires SealedAligned(sealed)
    ensures Chain(sealed, attempts).Some? ==>
              SameSeal(sealed, Chain(sealed, attempts).value) && SealedAligned(Chain(sealed, attempts).value)
    decreases |attempts|
  {
    hide Retry, SealedAligned;
    if attempts != [] && Chain(sealed, attempts).Some? {
      var last := attempts[|attempts| - 1];
      ChainKeepsSeal(sealed, attempts[..|attempts| - 1]);
      RetryKeepsSeal(Chain(sealed, attempts[..|attempts| - 1]).value, last.v, last.sameTarget);
    }
  }
}
