/** What a collected inventory says, role by role, in terms of the plan, the scanned listing and the files. */
module LegacyLaws {
  import opened Paths
  import opened LegacyInventory
  import Export = RetainedExport

  // ---- a list of payloads that are not deduplicated ----

  predicate Usable(files: Files, r: Request) {
    r.flag in FLAGS && Relative(r.source).Some? && Relative(r.source).value in files
  }

  function AddedFor(files: Files, r: Request): Added
    requires Usable(files, r)
  {
    var rel := Relative(r.source).value;
    Added(r.flag, r.subject, rel, Sha256(files[rel]), |files[rel]|)
  }

  /** A request is refused exactly when its flag is unknown or its file is not there, deduplicated or not. */
  lemma {:induction false} AddEachAccepts(files: Files, added: seq<Added>, requests: seq<Request>)
    ensures AddEach(files, added, requests).Some? <==> forall i :: 0 <= i < |requests| ==> Usable(files, requests[i])
    decreases |requests|
  {
    hide Relative, StoodIn;
    if requests == [] {
    } else {
      AddEachAccepts(files, added, requests[..|requests| - 1]);
      assert forall i :: 0 <= i < |requests| - 1 ==> requests[..|requests| - 1][i] == requests[i];
    }
  }

  /** Requests that are not deduplicated are all appended, in order. */
  lemma {:induction false} AddEachAppends(files: Files, added: seq<Added>, requests: seq<Request>)
    requires AddEach(files, added, requests).Some?
    requires forall i :: 0 <= i < |requests| ==> !requests[i].deduplicate
    ensures forall i :: 0 <= i < |requests| ==> Usable(files, requests[i])
    ensures var after := AddEach(files, added, requests).value;
      && |after| == |added| + |requests| && after[..|added|] == added
      && forall i :: 0 <= i < |requests| ==> after[|added| + i] == AddedFor(files, requests[i])
    decreases |requests|
  {
    hide Relative, StoodIn, Usable, AddedFor;
    AddEachAccepts(files, added, requests);
    if requests == [] {
    } else {
      var last := |requests| - 1;
      AddEachAppends(files, added, requests[..last]);
      OneIsAppended(files, AddEach(files, added, requests[..last]).value, requests[last]);
      assert forall i :: 0 <= i < last ==> requests[..last][i] == requests[i];
    }
  }

  lemma {:induction false} OneIsAppended(files: Files, added: seq<Added>, r: Request)
    requires !r.deduplicate && Usable(files, r)
    ensures AddOne(files, added, r) == Some(added + [AddedFor(files, r)])
  {
  }

  /** Deduplicated requests only add, and only what no earlier payload can stand in for. */
  lemma {:induction false} AddEachDeduplicates(files: Files, added: seq<Added>, requests: seq<Request>)
    requires AddEach(files, added, requests).Some?
    requires forall i :: 0 <= i < |requests| ==> requests[i].deduplicate
    ensures var after := AddEach(files, added, requests).value;
      && added <= after
      && forall n :: |added| <= n < |after| ==> New(after, n)
    decreases |requests|
  {
    hide Relative, Kind;
    if requests == [] {
    } else {
      var last := |requests| - 1;
      var before := AddEach(files, added, requests[..last]).value;
      AddEachDeduplicates(files, added, requests[..last]);
      var after := AddEach(files, added, requests).value;
      forall n | |added| <= n < |after|
        ensures New(after, n)
      {
        if n < |before| {
          assert New(before, n);
        } else {
          assert after[..n] == before;
        }
      }
    }
  }

  /** No payload before n holds the same bytes in a role that may stand in for it. */
  predicate New(added: seq<Added>, n: nat)
    requires n < |added|
  {
    forall i :: 0 <= i < n ==>
      !(added[i].sha == added[n].sha && added[i].size == added[n].size
        && MayStandIn(Kind(added[n].subject), Kind(added[i].subject)))
  }

  // ---- the three parts of a scan ----

  function Before(plan: Plan, l: Listing): seq<Request>
    requires |l.summaries| == |l.recordings|
  {
    FromBindings(plan.bindings, false) + FromMetadata(plan, l) + FromPairs(l, |l.summaries|)
  }

  function Playback(plan: Plan, l: Listing): seq<Request> {
    if IsPlayback(plan) then FromPlayback(l) + FromBindings(plan.playbackBindings, true) else []
  }

  lemma {:induction false} RequestsSplit(plan: Plan, l: Listing)
    requires |l.summaries| == |l.recordings|
    ensures Requests(plan, l) == Before(plan, l) + Playback(plan, l) + FromBindings(plan.productBindings, false)
  {
    hide FromBindings, FromMetadata, FromPairs, FromPlayback;
    var groups := Groups(plan, l);
    var a, b, c := FromBindings(plan.bindings, false), FromMetadata(plan, l), FromPairs(l, |l.summaries|);
    var z := FromBindings(plan.productBindings, false);
    FlatThree(a, b, c);
    if IsPlayback(plan) {
      var d, e := FromPlayback(l), FromBindings(plan.playbackBindings, true);
      assert groups == [a, b, c] + [d] + [e] + [z];
      FlatOneMore([a, b, c], d);
      FlatOneMore([a, b, c] + [d], e);
      FlatOneMore([a, b, c] + [d] + [e], z);
    } else {
      assert groups == [a, b, c] + [z];
      FlatOneMore([a, b, c], z);
    }
  }

  lemma {:induction false} FlatOneMore(groups: seq<seq<Request>>, more: seq<Request>)
    ensures Flat(groups + [more]) == Flat(groups) + more
  {
    assert (groups + [more])[..|groups|] == groups;
  }

  lemma {:induction false} FlatThree(a: seq<Request>, b: seq<Request>, c: seq<Request>)
    ensures Flat([a, b, c]) == a + b + c
  {
    FlatOneMore([], a);
    FlatOneMore([a], b);
    FlatOneMore([a] + [b], c);
    assert [] + [a] == [a] && [a] + [b] == [a, b] && [a, b] + [c] == [a, b, c];
  }

  lemma {:induction false} PairsAt(l: Listing, n: nat, k: nat)
    requires k < n <= |l.summaries| == |l.recordings|
    ensures |FromPairs(l, n)| == 2 * n
    ensures FromPairs(l, n)[2 * k] ==
            Request("--recording-summary", "primary-" + Decimal(k), Render(l.summaries[k]), false)
    ensures FromPairs(l, n)[2 * k + 1] ==
            Request("--evidence", "recording:primary-" + Decimal(k) + ".mcap", Render(l.recordings[k]), false)
  {
    hide Decimal, Render;
    PairsCount(l, n - 1);
    if k < n - 1 { PairsAt(l, n - 1, k); }
  }

  lemma {:induction false} PairsCount(l: Listing, n: nat)
    requires n <= |l.summaries| == |l.recordings|
    ensures |FromPairs(l, n)| == 2 * n && forall i :: 0 <= i < 2 * n ==> !FromPairs(l, n)[i].deduplicate
  {
    if n == 0 {
    } else {
      PairsCount(l, n - 1);
    }
  }

  lemma {:induction false} BeforeIsPlain(plan: Plan, l: Listing)
    requires |l.summaries| == |l.recordings|
    ensures |Before(plan, l)| == |plan.bindings| + |l.metadata| + 2 * |l.summaries|
    ensures forall i :: 0 <= i < |Before(plan, l)| ==> !Before(plan, l)[i].deduplicate
  {
    PairsCount(l, |l.summaries|);
  }

  // ---- the accepted payloads ----

  /** How many payloads come before the playback ones. */
  function Leading(plan: Plan, l: Listing): nat {
    |plan.bindings| + |l.metadata| + 2 * |l.summaries|
  }

  /** The payloads of an accepted plan: the requests before playback, the playback ones that are new, and the
      products. */
  lemma {:induction false} CollectedParts(plan: Plan, files: Files, l: Listing)
    requires Collected(plan, files, l).Some?
    ensures |l.summaries| == |l.recordings|
    ensures var added, a, q := Collected(plan, files, l).value, Before(plan, l), plan.productBindings;
      && |a| == Leading(plan, l) && Leading(plan, l) + |q| <= |added|
      && (!IsPlayback(plan) ==> |added| == Leading(plan, l) + |q|)
      && (forall i :: 0 <= i < |a| ==> Usable(files, a[i]) && added[i] == AddedFor(files, a[i]))
      && (forall i :: 0 <= i < |q| ==>
            var r := Request(q[i].flag, q[i].subject, q[i].source, false);
            Usable(files, r) && added[|added| - |q| + i] == AddedFor(files, r))
      && (forall n :: Leading(plan, l) <= n < |added| - |q| ==> New(added, n))
  {
    hide AddEach, Groups, Usable, AddedFor, FromMetadata, FromPairs, FromPlayback, New, PlanComplete, Requests;
    PlanCompletePairs(plan, files, l);
    var a, b, z := Before(plan, l), Playback(plan, l), FromBindings(plan.productBindings, false);
    RequestsSplit(plan, l);
    BeforeIsPlain(plan, l);
    SplitAccepts(files, a, b, z);
    var first := AddEach(files, [], a).value;
    var second := AddEach(files, first, b).value;
    var added := Collected(plan, files, l).value;
    AddEachAppends(files, [], a);
    PlaybackIsDeduplicated(plan, l);
    AddEachDeduplicates(files, first, b);
    AddEachAppends(files, second, z);
    forall n | Leading(plan, l) <= n < |added| - |z|
      ensures New(added, n)
    {
      assert New(second, n);
      assert added[..|second|] == second;
      StillNew(second, added, n);
    }
    if !IsPlayback(plan) { NothingAdded(files, first); }
    var q := plan.productBindings;
    forall i | 0 <= i < |q|
      ensures var r := Request(q[i].flag, q[i].subject, q[i].source, false);
              Usable(files, r) && added[|added| - |q| + i] == AddedFor(files, r)
    {
      assert z[i] == Request(q[i].flag, q[i].subject, q[i].source, false);
      assert added[|second| + i] == AddedFor(files, z[i]);
    }
    assert forall i :: 0 <= i < |a| ==> added[i] == first[i];
  }

  lemma {:induction false} NothingAdded(files: Files, added: seq<Added>)
    ensures AddEach(files, added, []) == Some(added)
  {
  }

  lemma {:induction false} StillNew(a: seq<Added>, b: seq<Added>, n: nat)
    requires a <= b && n < |a| && New(a, n)
    ensures New(b, n)
  {
    hide Kind, MayStandIn;
  }

  lemma {:induction false} PlaybackIsDeduplicated(plan: Plan, l: Listing)
    ensures forall i :: 0 <= i < |Playback(plan, l)| ==> Playback(plan, l)[i].deduplicate
  {
  }

  lemma {:induction false} SplitAccepts(files: Files, a: seq<Request>, b: seq<Request>, z: seq<Request>)
    requires AddEach(files, [], a + b + z).Some?
    ensures AddEach(files, [], a).Some?
    ensures AddEach(files, AddEach(files, [], a).value, b).Some?
    ensures AddEach(files, AddEach(files, AddEach(files, [], a).value, b).value, z) == AddEach(files, [], a + b + z)
  {
    hide AddEach;
    var all := a + b + z;
    AddEachAccepts(files, [], all);
    AddEachAccepts(files, [], a + b);
    AddEachAccepts(files, [], a);
    assert forall i :: 0 <= i < |a + b| ==> (a + b)[i] == all[i];
    assert forall i :: 0 <= i < |a| ==> a[i] == all[i];
    AddEachConcat(files, [], a, b);
    AddEachConcat(files, [], a + b, z);
  }

  // ---- what the arguments and the inventory say ----

  /** Argument pair n is this flag with this subject, for this file under the root. */
  predicate Names(arguments: seq<string>, root: Parts, n: nat, flag: string, subject: string, rel: Parts) {
    2 * n + 1 < |arguments| && arguments[2 * n] == flag && arguments[2 * n + 1] == Tag(subject, Absolute(root + rel))
  }

  /** The inventory retains this file, with its digest and size, below `payloads`. */
  ghost predicate Retains(entries: seq<Export.Item>, files: Files, rel: Parts) {
    rel in files &&
    exists e :: e in entries && e.source == Render(rel) && e.relativePath == "payloads/" + Render(rel)
                && e.sha == Some(Sha256(files[rel])) && e.size == Some(|files[rel]|)
  }

  /** Payload n of the collection has this role, in both argument lists and in the inventory. */
  ghost predicate HasRole(plan: Plan, files: Files, c: Collection, n: nat, flag: string, subject: string, rel: Parts) {
    && Names(c.arguments, plan.sourceRoot, n, flag, subject, rel)
    && Names(c.retained, plan.destination + ["payloads"], n, flag, subject, rel)
    && Retains(c.inventory.entries, files, rel)
  }

  lemma {:induction false} ArgumentsAt(root: Parts, destination: Parts, added: seq<Added>, n: nat)
    requires n < |added|
    ensures |SourceArguments(root, added)| == 2 * |added| == |RetainedArguments(destination, added)|
    ensures Names(SourceArguments(root, added), root, n, added[n].flag, added[n].subject, added[n].rel)
    ensures Names(RetainedArguments(destination, added), destination + ["payloads"], n, added[n].flag,
                  added[n].subject, added[n].rel)
    decreases |added|
  {
    hide Tag, Absolute;
    var before := added[..|added| - 1];
    ArgumentCount(root, destination, before);
    if n < |added| - 1 { ArgumentsAt(root, destination, before, n); }
  }

  lemma {:induction false} ArgumentCount(root: Parts, destination: Parts, added: seq<Added>)
    ensures |SourceArguments(root, added)| == 2 * |added| == |RetainedArguments(destination, added)|
  {
    hide Tag, Absolute;
    if added == [] {
    } else {
      ArgumentCount(root, destination, added[..|added| - 1]);
    }
  }

  lemma {:induction false} EntryRetains(files: Files, added: seq<Added>, n: nat)
    requires Faithful(files, added) && [] !in files && n < |added|
    ensures Retains(Unique(Entries(added)), files, added[n].rel)
  {
    hide Unique, Entries, Render, Relative;
    var rel := added[n].rel;
    AddedHasEntry(files, added, n);
    var e :| e in Unique(Entries(added)) && e.relativePath == OutputText(rel)
             && e.sha == Some(added[n].sha) && e.size == Some(added[n].size);
    EntryIsAdded(added, e);
    var j: nat :| j < |added| && e == EntryOf(j + 1, added[j]);
    OutputTextParses(rel);
    OutputTextParses(added[j].rel);
    assert (["payloads"] + added[j].rel)[1..] == (["payloads"] + rel)[1..];
  }

  lemma {:induction false} RoleAt(plan: Plan, files: Files, l: Listing, n: nat)
    requires Collected(plan, files, l).Some? && [] !in files && n < |Collected(plan, files, l).value|
    ensures var added := Collected(plan, files, l).value;
      HasRole(plan, files, CollectionOf(plan, added), n, added[n].flag, added[n].subject, added[n].rel)
  {
    hide Requests, AddEach, PlanComplete, Names, Retains, SourceArguments, RetainedArguments, Unique, Entries;
    var added := Collected(plan, files, l).value;
    PlanCompletePairs(plan, files, l);
    AddEachKeeps(files, [], Requests(plan, l));
    EntryRetains(files, added, n);
    ArgumentsAt(plan.sourceRoot, plan.destination, added, n);
  }

  /** The names of scanned files. */
  predicate Named(paths: seq<Parts>) {
    forall i :: 0 <= i < |paths| ==> paths[i] != [] && FileNames(paths[i])
  }

  ghost predicate BindingRole(plan: Plan, files: Files, c: Collection, n: nat, b: Binding) {
    Relative(b.source).Some? && HasRole(plan, files, c, n, b.flag, b.subject, Relative(b.source).value)
  }

  lemma {:induction false} NamedRelative(files: Files, r: Request, p: Parts)
    requires Usable(files, r) && r.source == Render(p) && p != [] && FileNames(p)
    ensures Relative(r.source) == Some(p)
  {
    RelativeUndoesRender(p);
  }

  /** Every binding of an accepted plan, and every binding of a product, has its file in its role, the bindings
      first and the products last. */
  lemma {:induction false} BindingsHaveRoles(plan: Plan, files: Files, l: Listing)
    requires Collected(plan, files, l).Some? && [] !in files
    ensures var c := CollectionOf(plan, Collected(plan, files, l).value);
      && |c.arguments| == |c.retained| && |c.arguments| % 2 == 0
      && (forall k :: 0 <= k < |plan.bindings| ==> BindingRole(plan, files, c, k, plan.bindings[k]))
      && (forall k :: 0 <= k < |plan.productBindings| && |plan.productBindings| <= |c.arguments| / 2 ==>
            BindingRole(plan, files, c, |c.arguments| / 2 - |plan.productBindings| + k, plan.productBindings[k]))
      && |plan.bindings| + |plan.productBindings| <= |c.arguments| / 2
  {
    hide Collected, HasRole, Relative, FromMetadata, FromPairs, New, SourceArguments, RetainedArguments, Unique;
    hide Entries;
    CollectedParts(plan, files, l);
    var added, a, q := Collected(plan, files, l).value, Before(plan, l), plan.productBindings;
    ArgumentCount(plan.sourceRoot, plan.destination, added);
    var c := CollectionOf(plan, added);
    forall k | 0 <= k < |plan.bindings|
      ensures BindingRole(plan, files, c, k, plan.bindings[k])
    {
      var b := plan.bindings[k];
      assert a[k] == Request(b.flag, b.subject, b.source, false);
      RoleAt(plan, files, l, k);
    }
    forall k | 0 <= k < |q|
      ensures BindingRole(plan, files, c, |added| - |q| + k, q[k])
    {
      RoleAt(plan, files, l, |added| - |q| + k);
    }
  }

  /** Every bag metadata file is evidence of the capture, under its path below the bags directory. */
  lemma {:induction false} MetadataHasRole(plan: Plan, files: Files, l: Listing, k: nat)
    requires Collected(plan, files, l).Some? && [] !in files && k < |l.metadata| && Named(l.metadata)
    requires Below(plan.bags, l.metadata[k])
    ensures var c := CollectionOf(plan, Collected(plan, files, l).value);
      HasRole(plan, files, c, |plan.bindings| + k, "--artifact",
              "other_evidence:capture/bags/" + Render(l.metadata[k][|plan.bags|..]), l.metadata[k])
  {
    hide Collected, HasRole, Relative, Render, FromBindings, FromPairs, New;
    CollectedParts(plan, files, l);
    var added, a, n := Collected(plan, files, l).value, Before(plan, l), |plan.bindings| + k;
    BindingCount(plan.bindings, false);
    assert a[n] == FromMetadata(plan, l)[k];
    NamedRelative(files, a[n], l.metadata[k]);
    RoleAt(plan, files, l, n);
  }

  lemma {:induction false} BindingCount(bindings: seq<Binding>, deduplicate: bool)
    ensures |FromBindings(bindings, deduplicate)| == |bindings|
  {
  }

  /** Position by position, a scanned summary is the recording summary of its segment, and the recording scanned
      at the same position is the evidence of that segment. */
  lemma {:induction false} PairsHaveRoles(plan: Plan, files: Files, l: Listing, k: nat)
    requires Collected(plan, files, l).Some? && [] !in files && k < |l.summaries|
    requires Named(l.summaries) && Named(l.recordings)
    ensures |l.summaries| == |l.recordings|
    ensures var c := CollectionOf(plan, Collected(plan, files, l).value);
      var n := |plan.bindings| + |l.metadata| + 2 * k;
      && HasRole(plan, files, c, n, "--recording-summary", "primary-" + Decimal(k), l.summaries[k])
      && HasRole(plan, files, c, n + 1, "--evidence", "recording:primary-" + Decimal(k) + ".mcap", l.recordings[k])
  {
    hide Collected, HasRole, Relative, Render, Decimal, FromBindings, FromMetadata, FromPairs, New;
    CollectedParts(plan, files, l);
    var added, a, n := Collected(plan, files, l).value, Before(plan, l), |plan.bindings| + |l.metadata| + 2 * k;
    BindingCount(plan.bindings, false);
    MetadataCount(plan, l);
    PairsAt(l, |l.summaries|, k);
    assert a[n] == FromPairs(l, |l.summaries|)[2 * k];
    assert a[n + 1] == FromPairs(l, |l.summaries|)[2 * k + 1];
    NamedRelative(files, a[n], l.summaries[k]);
    NamedRelative(files, a[n + 1], l.recordings[k]);
    RoleAt(plan, files, l, n);
    RoleAt(plan, files, l, n + 1);
  }

  lemma {:induction false} MetadataCount(plan: Plan, l: Listing)
    ensures |FromMetadata(plan, l)| == |l.metadata|
  {
  }

  /** The files an accepted plan needs. */
  ghost predicate FileThere(files: Files, source: string) {
    Relative(source).Some? && Relative(source).value in files
  }

  ghost predicate BindingsUsable(files: Files, bindings: seq<Binding>) {
    forall k :: 0 <= k < |bindings| ==> bindings[k].flag in FLAGS && FileThere(files, bindings[k].source)
  }

  ghost predicate ScanUsable(files: Files, paths: seq<Parts>) {
    forall k :: 0 <= k < |paths| ==> FileThere(files, Render(paths[k]))
  }

  /** Every file that is asked for is there, under a flag that is known. */
  ghost predicate AllUsable(plan: Plan, files: Files, l: Listing) {
    && BindingsUsable(files, plan.bindings) && BindingsUsable(files, plan.productBindings)
    && ScanUsable(files, l.metadata) && ScanUsable(files, l.summaries) && ScanUsable(files, l.recordings)
    && (IsPlayback(plan) ==> ScanUsable(files, l.playback) && BindingsUsable(files, plan.playbackBindings))
  }

  ghost predicate RequestsUsable(files: Files, requests: seq<Request>) {
    forall i :: 0 <= i < |requests| ==> Usable(files, requests[i])
  }

  lemma {:induction false} UsableConcat(files: Files, a: seq<Request>, b: seq<Request>)
    ensures RequestsUsable(files, a + b) <==> RequestsUsable(files, a) && RequestsUsable(files, b)
  {
    hide Usable;
    if RequestsUsable(files, a + b) {
      assert forall i :: 0 <= i < |a| ==> (a + b)[i] == a[i];
      forall i | 0 <= i < |b|
        ensures Usable(files, b[i])
      {
        assert (a + b)[|a| + i] == b[i];
      }
    }
  }

  lemma {:induction false} BindingsAre(files: Files, bindings: seq<Binding>, deduplicate: bool)
    ensures RequestsUsable(files, FromBindings(bindings, deduplicate)) <==> BindingsUsable(files, bindings)
  {
    hide Relative;
    var requests := FromBindings(bindings, deduplicate);
    forall k | 0 <= k < |bindings|
      ensures Usable(files, requests[k]) <==> bindings[k].flag in FLAGS && FileThere(files, bindings[k].source)
    {
    }
  }

  lemma {:induction false} MetadataAre(plan: Plan, files: Files, l: Listing)
    ensures RequestsUsable(files, FromMetadata(plan, l)) <==> ScanUsable(files, l.metadata)
  {
    hide Relative, Render;
    var requests := FromMetadata(plan, l);
    forall k | 0 <= k < |l.metadata|
      ensures Usable(files, requests[k]) <==> FileThere(files, Render(l.metadata[k]))
    {
    }
  }

  lemma {:induction false} PlaybackAre(files: Files, l: Listing)
    ensures RequestsUsable(files, FromPlayback(l)) <==> ScanUsable(files, l.playback)
  {
    hide Relative, Render, IsMcap;
    var requests := FromPlayback(l);
    forall k | 0 <= k < |l.playback|
      ensures Usable(files, requests[k]) <==> FileThere(files, Render(l.playback[k]))
    {
    }
  }

  lemma {:induction false} PairsAre(files: Files, l: Listing)
    requires |l.summaries| == |l.recordings|
    ensures RequestsUsable(files, FromPairs(l, |l.summaries|)) <==>
            ScanUsable(files, l.summaries) && ScanUsable(files, l.recordings)
  {
    hide Relative, Render, Decimal, FromPairs;
    var requests := FromPairs(l, |l.summaries|);
    PairsCount(l, |l.summaries|);
    forall k | 0 <= k < |l.summaries|
      ensures Usable(files, requests[2 * k]) <==> FileThere(files, Render(l.summaries[k]))
      ensures Usable(files, requests[2 * k + 1]) <==> FileThere(files, Render(l.recordings[k]))
    {
      PairsAt(l, |l.summaries|, k);
    }
    if ScanUsable(files, l.summaries) && ScanUsable(files, l.recordings) {
      forall i | 0 <= i < |requests|
        ensures Usable(files, requests[i])
      {
        var k := i / 2;
        PairsAt(l, |l.summaries|, k);
        assert FileThere(files, Render(l.summaries[k])) && FileThere(files, Render(l.recordings[k]));
      }
    }
  }

  /** A plan is accepted exactly when it is complete and every file that it asks for is there. */
  lemma {:induction false} AcceptedIffUsable(plan: Plan, files: Files, l: Listing)
    ensures Collected(plan, files, l).Some? <==> PlanComplete(plan, files, l) && AllUsable(plan, files, l)
  {
    hide AddEach, Requests, Groups, FromBindings, FromMetadata, FromPairs, FromPlayback, RequestsUsable;
    hide BindingsUsable, ScanUsable;
    if PlanComplete(plan, files, l) {
      var a, b, p := FromBindings(plan.bindings, false), FromMetadata(plan, l), FromPairs(l, |l.summaries|);
      var z := FromBindings(plan.productBindings, false);
      RequestsSplit(plan, l);
      UsableMeans(files, Requests(plan, l));
      UsableConcat(files, Before(plan, l) + Playback(plan, l), z);
      UsableConcat(files, Before(plan, l), Playback(plan, l));
      UsableConcat(files, a + b, p);
      UsableConcat(files, a, b);
      BindingsAre(files, plan.bindings, false);
      BindingsAre(files, plan.productBindings, false);
      MetadataAre(plan, files, l);
      PairsAre(files, l);
      if IsPlayback(plan) {
        UsableConcat(files, FromPlayback(l), FromBindings(plan.playbackBindings, true));
        PlaybackAre(files, l);
        BindingsAre(files, plan.playbackBindings, true);
      } else {
        NothingUsable(files);
      }
    }
  }

  lemma {:induction false} NothingUsable(files: Files)
    ensures RequestsUsable(files, [])
  {
  }

  lemma {:induction false} UsableMeans(files: Files, requests: seq<Request>)
    ensures AddEach(files, [], requests).Some? <==> RequestsUsable(files, requests)
  {
    AddEachAccepts(files, [], requests);
  }

  /** Every mandatory subject and every core flag of an accepted plan is among the arguments, for a file of the
      inventory. */
  lemma {:induction false} MandatoryIsNamed(plan: Plan, files: Files, l: Listing, subject: string, flag: string)
    returns (n: nat, m: nat)
    requires Collected(plan, files, l).Some? && [] !in files && flag in CORE_FLAGS
    requires || subject in MANDATORY
             || (plan.dataSource == "simulator" && subject == "other_evidence:providers/world.sdf")
             || (plan.dataSource == "recording_playback" && subject == "dataset_manifest:dataset-manifest.json")
    ensures var c := CollectionOf(plan, Collected(plan, files, l).value);
      && n < |plan.bindings| && m < |plan.bindings|
      && plan.bindings[n].subject == subject && BindingRole(plan, files, c, n, plan.bindings[n])
      && plan.bindings[m].flag == flag && BindingRole(plan, files, c, m, plan.bindings[m])
  {
    hide Requests, AddEach, BindingRole, Entries, Unique, SourceArguments, RetainedArguments;
    BindingsHaveRoles(plan, files, l);
    n :| 0 <= n < |plan.bindings| && plan.bindings[n].subject == subject;
    m :| 0 <= m < |plan.bindings| && plan.bindings[m].flag == flag;
  }

  /** A playback payload is retained under a role of its own only if no earlier one can stand in for it: one
      with the same bytes that is a recording, or, unless a recording is asked for, metrics, test results or
      other evidence. */
  lemma {:induction false} PlaybackIsNew(plan: Plan, files: Files, l: Listing, n: nat, i: nat)
    requires Collected(plan, files, l).Some?
    requires var added := Collected(plan, files, l).value;
      i < n < |added| - |plan.productBindings| && n >= |plan.bindings| + |l.metadata| + 2 * |l.summaries|
    ensures var added := Collected(plan, files, l).value;
      added[i].sha == added[n].sha && added[i].size == added[n].size ==>
        var kind, earlier := Kind(added[n].subject), Kind(added[i].subject);
        earlier != "recording"
          && (kind == "recording" || (earlier != "metrics" && earlier != "junit" && earlier != "other_evidence"))
  {
    hide Collected, Kind, Usable, AddedFor, Before;
    CollectedParts(plan, files, l);
    assert New(Collected(plan, files, l).value, n);
  }

  /** Every playback binding keeps an entry of its bytes. */
  lemma {:induction false} PlaybackBindingsRetained(plan: Plan, files: Files, l: Listing, k: nat) returns (i: nat)
    requires Collected(plan, files, l).Some? && IsPlayback(plan) && [] !in files && k < |plan.playbackBindings|
    ensures var b := plan.playbackBindings[k];
      && FileThere(files, b.source)
      && i < |Collected(plan, files, l).value|
      && SameRole(files, Collected(plan, files, l).value, i, files[Relative(b.source).value],
                  Kind(b.subject) == "recording")
  {
    hide AddEach, Requests, Relative, Kind, PlanComplete, Groups, FromBindings, FromPlayback, BindingsUsable;
    hide ScanUsable, SameRole, Unique, Entries;
    var b, added := plan.playbackBindings[k], Collected(plan, files, l).value;
    AcceptedIffUsable(plan, files, l);
    UsableBinding(files, plan.playbackBindings, k);
    PlanCompletePairs(plan, files, l);
    RequestsSplit(plan, l);
    var at := PlaybackBindingAt(plan, l, k);
    AddEachRepresents(files, [], Requests(plan, l), at);
    AddEachKeeps(files, [], Requests(plan, l));
    i :| i < |added| && added[i].sha == Sha256(files[Relative(b.source).value])
      && (Kind(b.subject) == "recording" ==> Kind(added[i].subject) == "recording");
    EntryRetains(files, added, i);
    RoleFound(files, added, i, files[Relative(b.source).value], Kind(b.subject) == "recording");
  }

  /** Payload i holds these bytes and is in the inventory, as a recording if that is asked for. */
  ghost predicate SameRole(files: Files, added: seq<Added>, i: nat, bytes: Bytes, recording: bool)
    requires i < |added|
  {
    && added[i].rel in files && files[added[i].rel] == bytes && (recording ==> Kind(added[i].subject) == "recording")
    && Retains(Unique(Entries(added)), files, added[i].rel)
  }

  lemma {:induction false} RoleFound(files: Files, added: seq<Added>, i: nat, bytes: Bytes, recording: bool)
    requires Faithful(files, added) && i < |added| && added[i].sha == Sha256(bytes)
    requires Retains(Unique(Entries(added)), files, added[i].rel)
    requires recording ==> Kind(added[i].subject) == "recording"
    ensures SameRole(files, added, i, bytes, recording)
  {
  }

  lemma {:induction false} UsableBinding(files: Files, bindings: seq<Binding>, k: nat)
    requires BindingsUsable(files, bindings) && k < |bindings|
    ensures FileThere(files, bindings[k].source)
  {
  }

  lemma {:induction false} PlaybackBindingAt(plan: Plan, l: Listing, k: nat) returns (at: nat)
    requires IsPlayback(plan) && |l.summaries| == |l.recordings| && k < |plan.playbackBindings|
    ensures at < |Requests(plan, l)|
    ensures var b := plan.playbackBindings[k]; Requests(plan, l)[at] == Request(b.flag, b.subject, b.source, true)
  {
    hide Requests, Before;
    RequestsSplit(plan, l);
    BindingCount(plan.playbackBindings, true);
    at := |Before(plan, l)| + |l.playback| + k;
    assert Playback(plan, l)[|l.playback| + k] == FromBindings(plan.playbackBindings, true)[k];
  }

  // ---- sealing, and sealing again ----

  /** The only binding of this flag. */
  ghost predicate Only(bindings: seq<Binding>, flag: string, i: nat) {
    i < |bindings| && bindings[i].flag == flag && forall k :: 0 <= k < |bindings| && bindings[k].flag == flag ==> k == i
  }

  /** The result document of an invocation is one of its plan's run and domain, with this verdict. */
  ghost predicate Decides(v: Invocation, verdict: Verdict) {
    && Only(v.plan.bindings, "--result", v.result)
    && FileThere(v.files, v.plan.bindings[v.result].source)
    && v.decode(v.files[Relative(v.plan.bindings[v.result].source).value])
         == Some(ResultDocument(v.plan.runId, v.plan.bindings[v.result].subject, verdict))
  }

  predicate InBound(i: Inventory) {
    EntryTotal(i.entries, |i.entries|) <= i.maximum
  }

  ghost predicate Admitted(v: Invocation) {
    && Collected(v.plan, v.files, v.listing).Some?
    && InBound(CollectionOf(v.plan, Collected(v.plan, v.files, v.listing).value).inventory)
    && Only(v.plan.bindings, "--scenario", v.scenario) && Only(v.plan.bindings, "--acceptance-run", v.run)
    && v.validated
  }

  /** A completed assessment is sealed exactly when its plan is collected within its byte bound, the three singular
      bindings are there once, the result document belongs to the run and its domain, its verdict agrees with the
      exit code, and the public tools have validated it. */
  lemma {:induction false} VerifyExactly(v: Invocation, exitCode: int)
    ensures Verify(v, exitCode).Some? <==>
      Admitted(v)
        && ((exitCode == 0 && Decides(v, Passed)) || (exitCode == 1 && exists s: string :: Decides(v, NotPassed(s))))
  {
    hide Collected, EntryTotal, Unique, Entries, Relative, Render;
    OneIsOnly(v.plan.bindings, "--result", v.result);
    OneIsOnly(v.plan.bindings, "--scenario", v.scenario);
    OneIsOnly(v.plan.bindings, "--acceptance-run", v.run);
    hide OneBinding, Only;
    if Verify(v, exitCode).Some? {
      VerifySays(v, exitCode);
      var verdict := Verify(v, exitCode).value.verdict;
      if verdict.NotPassed? { assert Decides(v, NotPassed(verdict.status)); }
    }
  }

  /** And then the seal says just that: the digest and the place of the result, the inventory, and both lists. */
  lemma {:induction false} VerifySays(v: Invocation, exitCode: int)
    requires Verify(v, exitCode).Some?
    ensures var c := Verify(v, exitCode).value;
      var sealed := CollectionOf(v.plan, Collected(v.plan, v.files, v.listing).value);
      && Decides(v, c.verdict) && c.exitCode == exitCode == (if c.verdict.Passed? then 0 else 1)
      && c.runId == v.plan.runId && c.domain == v.plan.bindings[v.result].subject
      && c.inventory == sealed.inventory && c.arguments == sealed.retained && c.sourceArguments == sealed.arguments
      && var path := Relative(v.plan.bindings[v.result].source).value;
         c.result == Sha256(v.files[path]) && c.resultPath == "payloads/" + Render(path)
  {
    hide Collected, EntryTotal, Unique, Entries, Relative, Render, CollectionOf;
    OneIsOnly(v.plan.bindings, "--result", v.result);
    hide OneBinding, Only;
  }

  lemma {:induction false} OneIsOnly(bindings: seq<Binding>, flag: string, i: nat)
    ensures OneBinding(bindings, flag, i) <==> Only(bindings, flag, i)
    ensures Only(bindings, flag, i) ==> i < |bindings|
  {
  }

  /** A retry is issued exactly when collecting again gives the sealed inventory but for its destination, and the
      validated arguments; and onto the sealed file itself, only when nothing differs at all. */
  lemma {:induction false} RetryExactly(sealed: Completed, v: Invocation, sameTarget: bool)
    ensures Retry(sealed, v, sameTarget).Some? <==>
      && Collected(v.plan, v.files, v.listing).Some?
      && var c := CollectionOf(v.plan, Collected(v.plan, v.files, v.listing).value);
         && c.arguments == sealed.sourceArguments
         && c.inventory.(destination := sealed.inventory.destination) == sealed.inventory
         && (sameTarget ==> c.retained == sealed.arguments && c.inventory == sealed.inventory)
    ensures Retry(sealed, v, sameTarget).Some? ==>
      var c := CollectionOf(v.plan, Collected(v.plan, v.files, v.listing).value);
      Retry(sealed, v, sameTarget).value == sealed.(inventory := c.inventory, arguments := c.retained)
  {
    hide Collected, CollectionOf;
  }

  /** The destination plays no part in what is collected. */
  lemma {:induction false} DestinationIsFree(plan: Plan, files: Files, l: Listing, destination: Parts)
    ensures Collected(plan.(destination := destination), files, l) == Collected(plan, files, l)
  {
    hide AddEach, FromBindings, FromPairs, FromPlayback, Flat;
    var other := plan.(destination := destination);
    assert PlanComplete(other, files, l) == PlanComplete(plan, files, l);
    if |l.summaries| == |l.recordings| {
      assert FromMetadata(other, l) == FromMetadata(plan, l);
      assert Groups(other, l) == Groups(plan, l);
    }
  }

  /** So a sealed assessment can always be retried with another destination, and then only the destination and
      the arguments that name it are new. */
  lemma {:induction false} SealedCanBeRetried(v: Invocation, exitCode: int, destination: Parts)
    requires Verify(v, exitCode).Some?
    ensures var sealed := Verify(v, exitCode).value;
      && Retry(sealed, v, true) == Some(sealed)
      && var again := Retry(sealed, v.(plan := v.plan.(destination := destination)), false);
         && again.Some? && again.value.inventory == sealed.inventory.(destination := destination)
         && again.value.sourceArguments == sealed.sourceArguments
         && again.value.arguments == RetainedArguments(destination, Collected(v.plan, v.files, v.listing).value)
  {
    hide Collected, Relative, EntryTotal, OneBinding;
    DestinationIsFree(v.plan, v.files, v.listing, destination);
  }

  // ---- one entry for each path ----

  /** No entry before this one has its output path. */
  predicate First(entries: seq<Export.Item>, k: nat) {
    k < |entries| && forall j :: 0 <= j < k ==> entries[j].relativePath != entries[k].relativePath
  }

  /** Deduplication keeps exactly the first entry of every output path, in the order of the entries. */
  lemma {:induction false} UniqueKeepsFirst(entries: seq<Export.Item>) returns (at: seq<nat>)
    ensures |at| == |Unique(entries)|
    ensures forall i :: 0 <= i < |at| ==> First(entries, at[i]) && Unique(entries)[i] == entries[at[i]]
    ensures forall i, j :: 0 <= i < j < |at| ==> at[i] < at[j]
    ensures forall k: nat :: First(entries, k) ==> k in at
  {
    if entries == [] {
      at := [];
    } else {
      var last := |entries| - 1;
      var before := entries[..last];
      at := UniqueKeepsFirst(before);
      UniqueKeepsPaths(before);
      FirstBefore(entries);
      if !Listed(Unique(before), entries[last].relativePath) {
        at := at + [last];
      }
    }
  }

  lemma {:induction false} FirstBefore(entries: seq<Export.Item>)
    requires entries != []
    ensures forall k: nat :: k < |entries| - 1 ==> (First(entries, k) <==> First(entries[..|entries| - 1], k))
    ensures First(entries, |entries| - 1) <==>
            !Listed(Unique(entries[..|entries| - 1]), entries[|entries| - 1].relativePath)
  {
    var last := |entries| - 1;
    var before := entries[..last];
    assert forall k: nat :: k < last ==> before[k] == entries[k];
    ListedIsKept(before, entries[last].relativePath);
  }

  lemma {:induction false} ListedIsKept(entries: seq<Export.Item>, path: string)
    ensures Listed(Unique(entries), path) <==> Listed(entries, path)
  {
    UniqueKeepsPaths(entries);
  }

  // ---- the roles of playback payloads ----

  /** Payload n was asked for by one of these requests. */
  ghost predicate AskedBy(files: Files, requests: seq<Request>, a: Added) {
    exists i :: 0 <= i < |requests| && Usable(files, requests[i]) && a == AddedFor(files, requests[i])
  }

  lemma {:induction false} AddedIsAsked(files: Files, added: seq<Added>, requests: seq<Request>)
    requires AddEach(files, added, requests).Some?
    ensures var after := AddEach(files, added, requests).value;
      && added <= after && forall n :: |added| <= n < |after| ==> AskedBy(files, requests, after[n])
    decreases |requests|
  {
    hide Relative, StoodIn;
    AddEachAccepts(files, added, requests);
    if requests == [] {
    } else {
      var last := |requests| - 1;
      var before, after := AddEach(files, added, requests[..last]).value, AddEach(files, added, requests).value;
      AddedIsAsked(files, added, requests[..last]);
      forall n | |added| <= n < |after|
        ensures AskedBy(files, requests, after[n])
      {
        if n < |before| {
          assert AskedBy(files, requests[..last], before[n]);
          var i :| 0 <= i < last && Usable(files, requests[..last][i])
                   && before[n] == AddedFor(files, requests[..last][i]);
          assert requests[i] == requests[..last][i];
        } else {
          assert after[n] == AddedFor(files, requests[last]);
        }
      }
    }
  }

  /** A payload that playback adds is a scanned playback file, as a recording if it is an `.mcap` and as other
      evidence if not, under its own path; or it is a playback binding. */
  lemma {:induction false} PlaybackHasRole(plan: Plan, files: Files, l: Listing, n: nat)
    requires Collected(plan, files, l).Some?
    requires var added := Collected(plan, files, l).value;
      |plan.bindings| + |l.metadata| + 2 * |l.summaries| <= n < |added| - |plan.productBindings|
    ensures var a := Collected(plan, files, l).value[n];
      || (exists k :: 0 <= k < |l.playback| && ScannedAs(a, l.playback[k]))
      || (exists k :: 0 <= k < |plan.playbackBindings| && BoundAs(a, plan.playbackBindings[k]))
  {
    hide AddEach, Groups, FromMetadata, FromPairs, New, PlanComplete, Requests, Relative, Render, IsMcap;
    PlanCompletePairs(plan, files, l);
    CollectedParts(plan, files, l);
    var a, b, z := Before(plan, l), Playback(plan, l), FromBindings(plan.productBindings, false);
    RequestsSplit(plan, l);
    BeforeIsPlain(plan, l);
    SplitAccepts(files, a, b, z);
    var first := AddEach(files, [], a).value;
    var second := AddEach(files, first, b).value;
    AddEachAppends(files, [], a);
    AddedIsAsked(files, first, b);
    AddEachAppends(files, second, z);
    var added := Collected(plan, files, l).value;
    assert added[n] == second[n];
    var i :| 0 <= i < |b| && Usable(files, b[i]) && second[n] == AddedFor(files, b[i]);
    if i < |l.playback| {
      assert b[i] == PlaybackRequest(l.playback[i]);
      assert ScannedAs(added[n], l.playback[i]);
    } else {
      var k := i - |l.playback|;
      assert b[i] == FromBindings(plan.playbackBindings, true)[k];
      assert BoundAs(added[n], plan.playbackBindings[k]);
    }
  }

  predicate ScannedAs(a: Added, p: Parts) {
    && a.flag == "--artifact" && Relative(Render(p)) == Some(a.rel)
    && a.subject == (if IsMcap(p) then "recording:" else "other_evidence:") + Render(p)
  }

  predicate BoundAs(a: Added, b: Binding) {
    a.flag == b.flag && a.subject == b.subject && Relative(b.source) == Some(a.rel)
  }

  // ---- a complete plan ----

  ghost predicate HasSubject(plan: Plan, subject: string) {
    exists k :: 0 <= k < |plan.bindings| && plan.bindings[k].subject == subject
  }

  ghost predicate HasFlag(plan: Plan, flag: string) {
    exists k :: 0 <= k < |plan.bindings| && plan.bindings[k].flag == flag
  }

  /** A plan is complete exactly when it binds every mandatory subject and core flag, with the world of a simulator
      or the dataset manifest of a playback, of which it must be one; when the scans found as many recordings as
      summaries, and at least one; and when no recording of a playback is the source recording itself. */
  lemma {:induction false} CompleteExactly(plan: Plan, files: Files, l: Listing)
    ensures PlanComplete(plan, files, l) <==>
      && (forall m :: m in MANDATORY ==> HasSubject(plan, m)) && (forall f :: f in CORE_FLAGS ==> HasFlag(plan, f))
      && (|| (plan.dataSource == "simulator" && HasSubject(plan, "other_evidence:providers/world.sdf"))
          || (plan.dataSource == "recording_playback" && HasSubject(plan, "dataset_manifest:dataset-manifest.json")
              && forall p :: p in l.recordings && p in files ==> files[p] != plan.playbackSha.preimage))
      && |l.summaries| == |l.recordings| > 0
  {
    hide Subjects, Flags, HasSubject, HasFlag;
    SubjectsLaw(plan, MANDATORY);
    SubjectsLaw(plan, {"other_evidence:providers/world.sdf"});
    SubjectsLaw(plan, {"dataset_manifest:dataset-manifest.json"});
    FlagsLaw(plan, CORE_FLAGS);
    SourcesDiffer();
    NewRecordings(plan, files, l);
  }

  lemma {:induction false} SubjectsLaw(plan: Plan, wanted: set<string>)
    ensures wanted <= Subjects(plan.bindings) <==> forall m :: m in wanted ==> HasSubject(plan, m)
    ensures forall m :: m in wanted ==> (m in Subjects(plan.bindings) <==> HasSubject(plan, m))
  {
    var subjects := Subjects(plan.bindings);
    assert forall m :: m in subjects <==> HasSubject(plan, m);
  }

  lemma {:induction false} FlagsLaw(plan: Plan, wanted: set<string>)
    ensures wanted <= Flags(plan.bindings) <==> forall f :: f in wanted ==> HasFlag(plan, f)
  {
    var flags := Flags(plan.bindings);
    assert forall f :: f in flags <==> HasFlag(plan, f);
  }

  lemma {:induction false} NewRecordings(plan: Plan, files: Files, l: Listing)
    ensures (forall p :: p in l.recordings && p in files ==> files[p] != plan.playbackSha.preimage) <==>
            (forall i :: 0 <= i < |l.recordings| && l.recordings[i] in files ==>
               Sha256(files[l.recordings[i]]) != plan.playbackSha)
  {
    forall p | p in l.recordings && p in files
      ensures files[p] != plan.playbackSha.preimage <==> Sha256(files[p]) != plan.playbackSha
    {
    }
  }

  lemma {:induction false} SourcesDiffer()
    ensures "simulator" != "recording_playback"
  {
    assert "simulator"[0] != "recording_playback"[0];
  }
}
