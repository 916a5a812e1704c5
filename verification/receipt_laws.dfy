/** When a receipt is bound to a registration, what the registration then records, and how binding and inventory
    fit together: in terms of the files only. */
module ReceiptLaws {
  import opened Paths
  import opened ReceiptInputs

  // ---- binding ----

  /** A path below the root that can be recorded. */
  predicate Recordable(path: Located) {
    path.Some? && path.value != [] && ':' !in Render(path.value) && '\\' !in Render(path.value)
  }

  predicate Present(path: Located, files: Files) {
    Recordable(path) && path.value in files
  }

  /** The dependencies as they are given: each by the digest of its bytes and its name. */
  function GivenPairs(files: Files, paths: seq<Located>): seq<Pair>
    requires forall i :: 0 <= i < |paths| ==> Present(paths[i], files)
  {
    seq(|paths|, i requires 0 <= i < |paths| && Present(paths[i], files) =>
      Pair(Sha256(files[paths[i].value]), Render(paths[i].value)))
  }

  /** The receipt names the verification by its digest, and requires exactly the dependencies, of which no two hold
      the same bytes. */
  ghost predicate ChainCloses(reader: Reader, files: Files, receipt: Parts, verification: Parts,
      dependencies: seq<Located>)
    requires receipt in files && verification in files
    requires forall i :: 0 <= i < |dependencies| ==> Present(dependencies[i], files)
  {
    var document, pairs := reader.receipt(files[receipt]), GivenPairs(files, dependencies);
    && document.Some? && reader.verification(files[verification])
    && document.value.verification == Sha256(files[verification])
    && (forall i, j :: 0 <= i < j < |dependencies| ==>
          files[dependencies[i].value] != files[dependencies[j].value])
    && var required := reader.required(files[receipt], files[verification], pairs);
       required.Some? && forall d :: d in required.value <==> d in Digests(pairs)
  }

  ghost predicate NotInventory(path: Located)
    requires path.Some?
  {
    Render(path.value) != "receipt-inventory.json"
  }

  /** What binding demands. */
  ghost predicate Bindable(reader: Reader, files: Files, registration: Registration, a: Arguments) {
    && Present(a.registration, files) && Present(a.receipt, files) && Present(a.verification, files)
    && (forall i :: 0 <= i < |a.dependencies| ==> Present(a.dependencies[i], files) && NotInventory(a.dependencies[i]))
    && Recordable(a.destination) && NotInventory(a.destination)
    && NotInventory(a.receipt) && NotInventory(a.verification)
    && ChainCloses(reader, files, a.receipt.value, a.verification.value, a.dependencies)
    && registration.confirmed && reader.receipt(files[a.receipt.value]).value.run == registration.run
  }

  lemma {:induction false} FilesLaw(paths: seq<Located>, files: Files)
    ensures RelativeFiles(paths, files).Some? <==> forall i :: 0 <= i < |paths| ==> Present(paths[i], files)
    ensures RelativeFiles(paths, files).Some? ==>
      var names := RelativeFiles(paths, files).value;
      |names| == |paths| && forall i :: 0 <= i < |paths| ==> names[i] == Render(paths[i].value)
  {
    hide Render;
    if paths == [] {
    } else {
      var last := |paths| - 1;
      FilesLaw(paths[..last], files);
      assert forall i :: 0 <= i < last ==> paths[..last][i] == paths[i];
    }
  }

  lemma {:induction false} PairsLaw(files: Files, paths: seq<Located>, names: seq<string>)
    requires |names| == |paths|
    requires forall i :: 0 <= i < |paths| ==>
      Present(paths[i], files) && Resolved(paths[i]) && names[i] == Render(paths[i].value)
    ensures PairsFor(files, names) == GivenPairs(files, paths)
  {
    hide Render, FileOf;
    forall i | 0 <= i < |paths|
      ensures PairFor(files, names[i]) == Pair(Sha256(files[paths[i].value]), Render(paths[i].value))
    {
      NameOfFile(paths[i].value);
    }
  }

  /** As many digests as items means that no two are the same. */
  lemma {:induction false} CountLaw(pairs: seq<Pair>)
    ensures |Members(Digests(pairs))| == |pairs| <==>
            forall i, j :: 0 <= i < j < |pairs| ==> pairs[i].sha != pairs[j].sha
    ensures forall d :: d in Members(Digests(pairs)) <==> d in Digests(pairs)
  {
    var all := Digests(pairs);
    SizeFindsRepeats(all);
    MembersAreItems(all);
    if forall i, j :: 0 <= i < j < |pairs| ==> pairs[i].sha != pairs[j].sha {
      DifferDistinct(all);
    }
    if Distinct(all) {
      forall i, j | 0 <= i < j < |pairs|
        ensures pairs[i].sha != pairs[j].sha
      {
        DistinctDiffer(all, i, j);
      }
    }
  }

  lemma {:induction false} DifferDistinct(items: seq<Digest>)
    requires forall i, j :: 0 <= i < j < |items| ==> items[i] != items[j]
    ensures Distinct(items)
  {
    if items == [] {
    } else {
      DifferDistinct(items[..|items| - 1]);
    }
  }

  lemma {:induction false} ChainLaw(reader: Reader, files: Files, receipt: Located, verification: Located,
      dependencies: seq<Located>, names: seq<string>)
    requires Present(receipt, files) && Resolved(receipt) && Present(verification, files) && Resolved(verification)
    requires |names| == |dependencies|
    requires forall i :: 0 <= i < |dependencies| ==>
      Present(dependencies[i], files) && Resolved(dependencies[i]) && names[i] == Render(dependencies[i].value)
    ensures var r, v := Render(receipt.value), Render(verification.value);
      && (ChainOf(reader, files, r, v, names).Some? <==>
          && NotInventory(receipt) && NotInventory(verification)
          && (forall i :: 0 <= i < |names| ==> names[i] != INVENTORY)
          && ChainCloses(reader, files, receipt.value, verification.value, dependencies))
      && (ChainOf(reader, files, r, v, names).Some? ==>
          var chain := ChainOf(reader, files, r, v, names).value;
          && chain.run == reader.receipt(files[receipt.value]).value.run
          && chain.receipt == Pair(Sha256(files[receipt.value]), r)
          && chain.verification == Pair(Sha256(files[verification.value]), v)
          && chain.dependencies == GivenPairs(files, dependencies))
  {
    hide Render, FileOf, Members, Digests, Resolved, BytesAt, PairFor;
    BytesLaw(receipt, files);
    BytesLaw(verification, files);
    PairsLaw(files, dependencies, names);
    CountLaw(GivenPairs(files, dependencies));
    GivenDiffer(files, dependencies);
    NotAmong([Render(receipt.value), Render(verification.value)], names);
    var pairs := GivenPairs(files, dependencies);
    var required := reader.required(files[receipt.value], files[verification.value], pairs);
    if required.Some? && forall d :: d in required.value <==> d in Digests(pairs) {
      assert required.value == Members(Digests(pairs));
    }
  }

  lemma {:induction false} GivenDiffer(files: Files, paths: seq<Located>)
    requires forall i :: 0 <= i < |paths| ==> Present(paths[i], files)
    ensures var pairs := GivenPairs(files, paths);
      (forall i, j :: 0 <= i < j < |pairs| ==> pairs[i].sha != pairs[j].sha) <==>
      (forall i, j :: 0 <= i < j < |paths| ==> files[paths[i].value] != files[paths[j].value])
  {
    hide Render;
    var pairs := GivenPairs(files, paths);
    assert forall i :: 0 <= i < |paths| ==> pairs[i].sha == Sha256(files[paths[i].value]);
    if forall i, j :: 0 <= i < j < |pairs| ==> pairs[i].sha != pairs[j].sha {
      forall i, j | 0 <= i < j < |paths|
        ensures files[paths[i].value] != files[paths[j].value]
      {
        assert pairs[i].sha != pairs[j].sha;
      }
    }
  }

  lemma {:induction false} NotAmong(first: seq<string>, names: seq<string>)
    ensures INVENTORY !in first + names <==>
            INVENTORY !in first && forall i :: 0 <= i < |names| ==> names[i] != INVENTORY
  {
  }

  lemma {:induction false} BytesLaw(path: Located, files: Files)
    requires Present(path, files) && Resolved(path)
    ensures BytesAt(files, Render(path.value)) == files[path.value]
    ensures PairFor(files, Render(path.value)) == Pair(Sha256(files[path.value]), Render(path.value))
  {
    hide Render, FileOf;
    NameOfFile(path.value);
  }

  /** Binding succeeds exactly for a confirmed registration of the receipt's run whose files are there and close; and
      it then records the digest of the receipt's bytes, the destination, and the names of the other files. */
  lemma {:induction false} BindExactly(reader: Reader, files: Files, registration: Registration, a: Arguments)
    requires AllResolved(a)
    ensures Bind(reader, files, registration, a).Some? <==> Bindable(reader, files, registration, a)
    ensures Bind(reader, files, registration, a).Some? ==>
      var bound := Bind(reader, files, registration, a).value;
      && bound.sha == Some(Sha256(files[a.receipt.value]))
      && bound.confirmed && bound.run == registration.run && bound.inputs.Some?
      && bound.inputs.value.receipts == [Render(a.destination.value)]
      && bound.inputs.value.verifications == [Render(a.verification.value)]
      && |bound.inputs.value.dependencies| == |a.dependencies|
      && forall i :: 0 <= i < |a.dependencies| ==>
           bound.inputs.value.dependencies[i] == Render(a.dependencies[i].value)
  {
    hide Render, FileOf, ChainOf, ChainCloses;
    FilesLaw(a.dependencies, files);
    if Present(a.receipt, files) && Present(a.verification, files) && RelativeFiles(a.dependencies, files).Some? {
      var names := RelativeFiles(a.dependencies, files).value;
      ChainLaw(reader, files, a.receipt, a.verification, a.dependencies, names);
    }
  }

  /** A registration that is not confirmed, or of another run than the receipt, is never bound. */
  lemma {:induction false} BindRefuses(reader: Reader, files: Files, registration: Registration, a: Arguments)
    requires AllResolved(a) && Present(a.receipt, files)
    requires !registration.confirmed || reader.receipt(files[a.receipt.value]).None?
        || reader.receipt(files[a.receipt.value]).value.run != registration.run
    ensures Bind(reader, files, registration, a).None?
  {
    hide Render, FileOf, Present;
    BindExactly(reader, files, registration, a);
  }

  // ---- bound, written, and inventoried ----

  /** There is only one ascending list of given items. */
  lemma {:induction false} AscendingIsUnique(a: seq<string>, b: seq<string>)
    requires Ascending(a) && Ascending(b) && forall x :: x in a <==> x in b
    ensures a == b
  {
    HasItem(a);
    HasItem(b);
    if a == [] || b == [] {
    } else {
      LeastIsFirst(a, b);
      LeastIsFirst(b, a);
      BeforeIsTotal(a[0], b[0]);
      TailsAgree(a, b);
      AscendingIsUnique(a[1..], b[1..]);
      assert a == [a[0]] + a[1..] && b == [b[0]] + b[1..];
    }
  }

  lemma {:induction false} HasItem(a: seq<string>)
    ensures a != [] ==> exists x :: x in a
  {
    if a != [] { assert a[0] in a; }
  }

  lemma {:induction false} LeastIsFirst(a: seq<string>, b: seq<string>)
    requires a != [] && Ascending(a) && b != [] && b[0] in a
    ensures a[0] == b[0] || Before(a[0], b[0])
  {
  }

  lemma {:induction false} TailsAgree(a: seq<string>, b: seq<string>)
    requires a != [] && b != [] && a[0] == b[0] && Ascending(a) && Ascending(b) && forall x :: x in a <==> x in b
    ensures Ascending(a[1..]) && Ascending(b[1..]) && forall x :: x in a[1..] <==> x in b[1..]
  {
    forall x
      ensures x in a[1..] <==> x in b[1..]
    {
      TailHolds(a, x);
      TailHolds(b, x);
    }
  }

  lemma {:induction false} TailHolds(a: seq<string>, x: string)
    requires a != [] && Ascending(a)
    ensures x in a[1..] <==> x in a && x != a[0]
  {
    BeforeIsTotal(a[0], a[0]);
    if x in a && x != a[0] {
      var k :| 0 <= k < |a| && a[k] == x;
      assert a[1..][k - 1] == x;
    }
  }

  /** A list with one path for each digest of these names, which all have different digests, is their sorted list. */
  lemma {:induction false} AllAreListed(files: Files, list: seq<string>, digests: set<Digest>, names: seq<string>)
    requires OnePathEach(files, list, digests, names)
    requires forall i :: 0 <= i < |names| ==> PairFor(files, names[i]).sha in digests
    requires forall i, j :: 0 <= i < j < |names| ==> PairFor(files, names[i]).sha != PairFor(files, names[j]).sha
    ensures list == Sorted(names)
  {
    hide PairFor, Before, Sorted;
    forall x
      ensures x in list <==> x in names
    {
      if x in list {
        var i :| 0 <= i < |list| && list[i] == x;
        assert FirstWith(files, names, list[i]);
      }
      if x in names {
        var k :| 0 <= k < |names| && names[k] == x;
        assert NamesDigest(files, list, PairFor(files, x).sha);
        var i :| 0 <= i < |list| && PairFor(files, list[i]).sha == PairFor(files, x).sha;
        assert FirstWith(files, names, list[i]);
        var m :| 0 <= m < |names| && names[m] == list[i];
        if m < k { assert PairFor(files, names[m]).sha != PairFor(files, names[k]).sha; }
        if k < m { assert PairFor(files, names[k]).sha != PairFor(files, names[m]).sha; }
      }
    }
    NamesDistinct(files, names);
    SortedKeeps(names);
    AscendingIsUnique(list, Sorted(names));
  }

  lemma {:induction false} NamesDistinct(files: Files, names: seq<string>)
    requires forall i, j :: 0 <= i < j < |names| ==> PairFor(files, names[i]).sha != PairFor(files, names[j]).sha
    ensures Distinct(names)
  {
    hide PairFor;
    if names == [] {
    } else {
      var last := |names| - 1;
      NamesDistinct(files, names[..last]);
      forall i | 0 <= i < last
        ensures names[i] != names[last]
      {
        assert PairFor(files, names[i]).sha != PairFor(files, names[last]).sha;
      }
    }
  }

  /** The registration, bound and with its receipt written, is the only one of an index that expects its receipt. */
  lemma {:induction false} BoundIsCovered(reader: Reader, files: Files, registration: Registration, a: Arguments,
      run: string)
    requires AllResolved(a) && Bind(reader, files, registration, a).Some? && registration.run == Some(run)
    requires a.receipt.Some? && a.receipt.value in files && a.destination.Some? && |a.dependencies| + 2 <= LIMIT
    requires ChainFiles(reader, files, a.receipt, a.verification, a.dependencies).Some?
    requires Harmless(files, ChainFiles(reader, files, a.receipt, a.verification, a.dependencies).value,
                      a.destination.value)
    ensures var after, bound := Placed(files, a), Bind(reader, files, registration, a).value;
      var expected := {Sha256(files[a.receipt.value])};
      && Covered(reader, after, expected, run, [bound]) && ClosureOf(reader, after, expected, run, [bound]).Some?
      && AllNames([bound]) == bound.inputs.value
      && var closure := ClosureOf(reader, after, expected, run, [bound]).value;
         var chain := ChainFiles(reader, files, a.receipt, a.verification, a.dependencies).value;
         && closure.verifications == {chain.verification.sha}
         && closure.dependencies == Members(Digests(chain.dependencies))
         && |chain.dependencies| == |a.dependencies| == |Members(Digests(chain.dependencies))|
         && chain.verification.sha == PairFor(after, chain.verification.path).sha
         && forall i :: 0 <= i < |chain.dependencies| ==>
              bound.inputs.value.dependencies[i] == chain.dependencies[i].path
                && PairFor(after, chain.dependencies[i].path) == chain.dependencies[i]
  {
    hide Render, FileOf, ChainOf, ChainFiles, RegisteredPaths, Members, Harmless, BytesAt, Resolved;
    var after, bound := Placed(files, a), Bind(reader, files, registration, a).value;
    var chain := ChainFiles(reader, files, a.receipt, a.verification, a.dependencies).value;
    HarmlessReload(reader, files, registration, a);
    BoundSays(reader, files, registration, a);
    var reloaded := Reload(reader, after, bound).value;
    ReloadPairs(reader, after, bound);
    ChainIsClosed(reader, after, bound);
    OneRegistration(reader, after, bound, {Sha256(files[a.receipt.value])}, run);
    SizeFindsRepeats(Digests(chain.dependencies));
  }

  lemma {:induction false} BoundSays(reader: Reader, files: Files, registration: Registration, a: Arguments)
    requires AllResolved(a) && Bind(reader, files, registration, a).Some?
    requires a.receipt.Some? && a.receipt.value in files
    ensures ChainFiles(reader, files, a.receipt, a.verification, a.dependencies).Some?
    ensures var bound := Bind(reader, files, registration, a).value;
      var chain := ChainFiles(reader, files, a.receipt, a.verification, a.dependencies).value;
      && bound.confirmed && bound.run == registration.run == chain.run
      && bound.sha == Some(Sha256(files[a.receipt.value])) && chain.receipt.sha == Sha256(files[a.receipt.value])
      && bound.inputs.Some? && |bound.inputs.value.dependencies| == |a.dependencies|
      && a.verification.Some? && chain.verification.path == Render(a.verification.value)
  {
    hide Render, FileOf, ChainOf, ChainCloses, Present, Recordable;
    BindExactly(reader, files, registration, a);
    FilesLaw(a.dependencies, files);
    ChainLaw(reader, files, a.receipt, a.verification, a.dependencies, RelativeFiles(a.dependencies, files).value);
  }

  lemma {:induction false} ReloadPairs(reader: Reader, files: Files, registration: Registration)
    requires Reload(reader, files, registration).Some?
    ensures var chain, i := Reload(reader, files, registration).value, registration.inputs.value;
      && i.receipts == [chain.receipt.path] && i.verifications == [chain.verification.path]
      && chain.verification == PairFor(files, chain.verification.path)
      && |i.dependencies| == |chain.dependencies|
      && forall k :: 0 <= k < |i.dependencies| ==>
           i.dependencies[k] == chain.dependencies[k].path
             && PairFor(files, chain.dependencies[k].path) == chain.dependencies[k]
  {
    hide Render, FileOf, ChainOf, BytesAt, AllRegistered;
    var i := registration.inputs.value;
    ChainPairs(reader, files, i.receipts[0], i.verifications[0], i.dependencies);
  }

  lemma {:induction false} OneRegistration(reader: Reader, files: Files, bound: Registration, expected: set<Digest>,
      run: string)
    requires Reload(reader, files, bound).Some? && bound.confirmed && bound.run == Some(run)
    requires var chain := Reload(reader, files, bound).value;
      chain.run == Some(run) && bound.sha == Some(chain.receipt.sha) && expected == {chain.receipt.sha}
    requires Needs(reader, files, bound).receipts == expected
    ensures ClosureOf(reader, files, expected, run, [bound]) == Some(Needs(reader, files, bound))
    ensures AllNames([bound]) == bound.inputs.value
  {
    hide Reload, Needs;
    assert [bound][..0] == [];
    assert AllNames([bound][..0]) == Inputs([], [], []);
    HasInputs(reader, files, bound);
    var n := Needs(reader, files, bound);
    assert {} + n.receipts == n.receipts && {} + n.verifications == n.verifications;
    assert {} + n.dependencies == n.dependencies;
  }

  lemma {:induction false} HasInputs(reader: Reader, files: Files, bound: Registration)
    requires Reload(reader, files, bound).Some?
    ensures bound.inputs.Some?
  {
    hide RegisteredPaths, ChainOf;
  }

  /** Bind, write the receipt, and take the inventory: an index of the registration's run that expects exactly this
      receipt is accepted, and lists the destination, the verification, and the dependencies in order. */
  method BindThenInventory(reader: Reader, files: Files, registration: Registration, a: Arguments, run: string)
    returns (r: Option<Lists>)
    requires AllResolved(a) && Bindable(reader, files, registration, a) && registration.run == Some(run)
    requires Writable(files, a.destination.value) && |a.dependencies| + 2 <= LIMIT
    requires a.destination.value == a.verification.value ==>
      files[a.verification.value] == files[a.receipt.value]
    requires forall i :: 0 <= i < |a.dependencies| && a.dependencies[i].value == a.destination.value ==>
      files[a.dependencies[i].value] == files[a.receipt.value]
    ensures r.Some?
    ensures r.value.receipts == [Render(a.destination.value)] && r.value.verifications == [Render(a.verification.value)]
    ensures r.value.dependencies == Sorted(seq(|a.dependencies|, i requires 0 <= i < |a.dependencies| =>
      Render(a.dependencies[i].value)))
  {
    hide Render, FileOf, ChainOf, ChainFiles, Members, Harmless, BytesAt, Resolved, OnePathEach, Sorted, Covered, Bind;
    hide ClosureOf, PairFor, ChainCloses, Writable;
    BindExactly(reader, files, registration, a);
    BoundSays(reader, files, registration, a);
    BoundIsHarmless(reader, files, registration, a);
    BoundIsCovered(reader, files, registration, a, run);
    var bound, after := Bind(reader, files, registration, a).value, Placed(files, a);
    var expected := {Sha256(files[a.receipt.value])};
    r := Inventory(reader, after, expected, run, [bound]);
    ghost var chain := ChainFiles(reader, files, a.receipt, a.verification, a.dependencies).value;
    BoundLists(reader, files, registration, a, r.value, chain,
               ClosureOf(reader, after, expected, run, [bound]).value);
    assert bound.inputs.value.dependencies ==
           seq(|a.dependencies|, i requires 0 <= i < |a.dependencies| => Render(a.dependencies[i].value));
  }

  lemma {:induction false} BoundIsHarmless(reader: Reader, files: Files, registration: Registration, a: Arguments)
    requires AllResolved(a) && Bindable(reader, files, registration, a)
    requires ChainFiles(reader, files, a.receipt, a.verification, a.dependencies).Some?
    requires a.destination.value == a.verification.value ==> files[a.verification.value] == files[a.receipt.value]
    requires forall i :: 0 <= i < |a.dependencies| && a.dependencies[i].value == a.destination.value ==>
      files[a.dependencies[i].value] == files[a.receipt.value]
    ensures Harmless(files, ChainFiles(reader, files, a.receipt, a.verification, a.dependencies).value,
                     a.destination.value)
  {
    hide Render, FileOf, ChainOf, ChainCloses;
    FilesLaw(a.dependencies, files);
    ChainLaw(reader, files, a.receipt, a.verification, a.dependencies, RelativeFiles(a.dependencies, files).value);
    NameOfFile(a.verification.value);
    forall i | 0 <= i < |a.dependencies|
      ensures FileOf(Render(a.dependencies[i].value)) == a.dependencies[i].value
    {
      NameOfFile(a.dependencies[i].value);
    }
  }

  lemma {:induction false} BoundLists(reader: Reader, files: Files, registration: Registration, a: Arguments,
      lists: Lists, chain: Chain, closure: Closure)
    requires AllResolved(a) && Bind(reader, files, registration, a).Some?
    requires a.receipt.Some? && a.receipt.value in files && a.destination.Some? && a.verification.Some?
    requires a.destination.value != [] && a.receipt.value != []
    requires var after, bound := Placed(files, a), Bind(reader, files, registration, a).value;
      && bound.inputs.Some?
      && bound.inputs.value.receipts == [Render(a.destination.value)]
      && bound.inputs.value.verifications == [Render(a.verification.value)]
      && chain.verification.path == Render(a.verification.value)
      && OnePathEach(after, lists.receipts, {Sha256(files[a.receipt.value])}, bound.inputs.value.receipts)
      && OnePathEach(after, lists.verifications, closure.verifications, bound.inputs.value.verifications)
      && OnePathEach(after, lists.dependencies, closure.dependencies, bound.inputs.value.dependencies)
      && closure.verifications == {chain.verification.sha}
      && closure.dependencies == Members(Digests(chain.dependencies))
      && chain.verification.sha == PairFor(after, chain.verification.path).sha
      && |chain.dependencies| == |bound.inputs.value.dependencies|
      && |Members(Digests(chain.dependencies))| == |chain.dependencies|
      && forall i :: 0 <= i < |chain.dependencies| ==>
           bound.inputs.value.dependencies[i] == chain.dependencies[i].path
             && PairFor(after, chain.dependencies[i].path) == chain.dependencies[i]
    ensures var i := Bind(reader, files, registration, a).value.inputs.value;
      && lists.receipts == [Render(a.destination.value)] && lists.verifications == [Render(a.verification.value)]
      && lists.dependencies == Sorted(i.dependencies)
  {
    hide Render, FileOf, Members, OnePathEach, Sorted, Bind, PairFor;
    var after, i := Placed(files, a), Bind(reader, files, registration, a).value.inputs.value;
    ReceiptPairs(files, a);
    CountLaw(chain.dependencies);
    MembersAreItems(Digests(chain.dependencies));
    AllAreListed(after, lists.receipts, {Sha256(files[a.receipt.value])}, i.receipts);
    AllAreListed(after, lists.verifications, closure.verifications, i.verifications);
    forall k | 0 <= k < |i.dependencies|
      ensures PairFor(after, i.dependencies[k]).sha in closure.dependencies
    {
      assert Digests(chain.dependencies)[k] == chain.dependencies[k].sha;
    }
    AllAreListed(after, lists.dependencies, closure.dependencies, i.dependencies);
    SortedOne(i.receipts[0]);
    SortedOne(i.verifications[0]);
  }

  lemma {:induction false} SortedOne(x: string)
    ensures Sorted([x]) == [x]
  {
    assert [x][..0] == [];
  }

  // ---- what the inventory accepts ----

  lemma {:induction false} KeptIsNamed(name: string)
    requires ".." !in FileOf(name)
    ensures FileNames(FileOf(name))
  {
    SplitHasNoSlash(name);
    KeptSound(Split(name));
  }

  /** A recorded name is used exactly when it is what some file below the root is called. */
  lemma {:induction false} RegisteredExactly(name: string, files: Files)
    ensures Registered(name, files) <==>
            exists path: Parts :: FileNames(path) && Present(Some(path), files) && name == Render(path)
  {
    hide Render, FileOf, FileNames;
    if Registered(name, files) {
      KeptIsNamed(name);
      assert Present(Some(FileOf(name)), files) && name == Render(FileOf(name));
    }
    forall path: Parts | FileNames(path) && Present(Some(path), files) && name == Render(path)
      ensures Registered(name, files)
    {
      NameOfFile(path);
      NoDots(path);
    }
  }

  lemma {:induction false} NoDots(path: Parts)
    requires FileNames(path)
    ensures ".." !in path
  {
    assert forall i :: 0 <= i < |path| ==> FileName(path[i]);
  }

  /** The files that a registration records. */
  ghost predicate Records(inputs: Inputs, receipt: Parts, verification: Parts, dependencies: seq<Located>) {
    && FileNames(receipt) && FileNames(verification)
    && inputs.receipts == [Render(receipt)] && inputs.verifications == [Render(verification)]
    && |inputs.dependencies| == |dependencies|
    && forall i :: 0 <= i < |dependencies| ==>
         dependencies[i].Some? && FileNames(dependencies[i].value)
           && inputs.dependencies[i] == Render(dependencies[i].value)
  }

  /** A confirmed registration belongs to the index: its files are there and close, its receipt has the digest it
      records, which the index expects, and both are of the index's run. */
  ghost predicate Belongs(reader: Reader, files: Files, expected: set<Digest>, run: string, registration: Registration,
      receipt: Parts, verification: Parts, dependencies: seq<Located>)
  {
    && registration.inputs.Some? && Records(registration.inputs.value, receipt, verification, dependencies)
    && Present(Some(receipt), files) && Present(Some(verification), files) && |dependencies| <= 4096
    && (forall i :: 0 <= i < |dependencies| ==> Present(dependencies[i], files) && NotInventory(dependencies[i]))
    && NotInventory(Some(receipt)) && NotInventory(Some(verification))
    && ChainCloses(reader, files, receipt, verification, dependencies)
    && registration.sha == Some(Sha256(files[receipt])) && Sha256(files[receipt]) in expected
    && reader.receipt(files[receipt]).value.run == Some(run) == registration.run
  }

  lemma {:induction false} AcceptedFollows(reader: Reader, files: Files, expected: set<Digest>, run: string,
      registration: Registration, receipt: Parts, verification: Parts, dependencies: seq<Located>)
    requires Belongs(reader, files, expected, run, registration, receipt, verification, dependencies)
    ensures Accepted(reader, files, expected, run, registration).Some?
    ensures var chain := Accepted(reader, files, expected, run, registration).value;
      && chain.receipt == Pair(Sha256(files[receipt]), Render(receipt))
      && chain.verification == Pair(Sha256(files[verification]), Render(verification))
      && chain.dependencies == GivenPairs(files, dependencies)
  {
    hide Render, FileOf, ChainOf, ChainCloses, Registered, FileNames;
    var inputs := registration.inputs.value;
    ChainLaw(reader, files, Some(receipt), Some(verification), dependencies, inputs.dependencies);
    RegisteredExactly(inputs.receipts[0], files);
    RegisteredExactly(inputs.verifications[0], files);
    forall i | 0 <= i < |dependencies|
      ensures Registered(inputs.dependencies[i], files)
    {
      RegisteredExactly(inputs.dependencies[i], files);
    }
  }

  function Locate(names: seq<string>): seq<Located> {
    seq(|names|, i requires 0 <= i < |names| => Some(FileOf(names[i])))
  }

  lemma {:induction false} RegisteredMeans(name: string, files: Files)
    requires Registered(name, files)
    ensures FileNames(FileOf(name)) && Present(Some(FileOf(name)), files) && name == Render(FileOf(name))
  {
    hide Render, FileOf, FileNames;
    KeptIsNamed(name);
  }

  lemma {:induction false} AcceptedBelongs(reader: Reader, files: Files, expected: set<Digest>, run: string,
      registration: Registration)
    returns (receipt: Parts, verification: Parts, dependencies: seq<Located>)
    requires Accepted(reader, files, expected, run, registration).Some?
    ensures Belongs(reader, files, expected, run, registration, receipt, verification, dependencies)
  {
    hide Render, FileOf, ChainOf, ChainCloses, Registered, FileNames;
    var inputs := registration.inputs.value;
    RegisteredMeans(inputs.receipts[0], files);
    RegisteredMeans(inputs.verifications[0], files);
    receipt, verification := FileOf(inputs.receipts[0]), FileOf(inputs.verifications[0]);
    dependencies := Locate(inputs.dependencies);
    forall i | 0 <= i < |dependencies|
      ensures dependencies[i].Some? && FileNames(dependencies[i].value) && Present(dependencies[i], files)
      ensures inputs.dependencies[i] == Render(dependencies[i].value)
    {
      RegisteredMeans(inputs.dependencies[i], files);
    }
    assert inputs.receipts == [inputs.receipts[0]] && inputs.verifications == [inputs.verifications[0]];
    ChainLaw(reader, files, Some(receipt), Some(verification), dependencies, inputs.dependencies);
  }

  /** A confirmed registration is accepted exactly when it belongs to the index. */
  lemma {:induction false} AcceptedExactly(reader: Reader, files: Files, expected: set<Digest>, run: string,
      registration: Registration)
    ensures Accepted(reader, files, expected, run, registration).Some? <==>
            exists receipt: Parts, verification: Parts, dependencies: seq<Located> ::
              Belongs(reader, files, expected, run, registration, receipt, verification, dependencies)
  {
    hide Accepted, Belongs;
    if Accepted(reader, files, expected, run, registration).Some? {
      var r, v, d := AcceptedBelongs(reader, files, expected, run, registration);
    }
    forall receipt: Parts, verification: Parts, dependencies: seq<Located> |
        Belongs(reader, files, expected, run, registration, receipt, verification, dependencies)
      ensures Accepted(reader, files, expected, run, registration).Some?
    {
      AcceptedFollows(reader, files, expected, run, registration, receipt, verification, dependencies);
    }
  }

  ghost predicate AllAccepted(reader: Reader, files: Files, expected: set<Digest>, run: string,
      registrations: seq<Registration>)
  {
    forall i :: 0 <= i < |registrations| && registrations[i].confirmed ==>
      Accepted(reader, files, expected, run, registrations[i]).Some?
  }

  /** Some confirmed registration needs this digest, in this group. */
  ghost predicate NeedsSome(reader: Reader, files: Files, registrations: seq<Registration>, n: nat, d: Digest,
      group: int)
  {
    exists i :: 0 <= i < n && i < |registrations| && registrations[i].confirmed
      && Reload(reader, files, registrations[i]).Some? && InGroup(Needs(reader, files, registrations[i]), group, d)
  }

  predicate InGroup(c: Closure, group: int, d: Digest) {
    if group == 0 then d in c.receipts else if group == 1 then d in c.verifications else d in c.dependencies
  }

  /** The closure of an index is what its confirmed registrations need, all of which must be accepted. */
  lemma {:induction false} ClosureExactly(reader: Reader, files: Files, expected: set<Digest>, run: string,
      registrations: seq<Registration>, d: Digest, group: int)
    ensures var closure := ClosureOf(reader, files, expected, run, registrations);
      && (closure.Some? <==> AllAccepted(reader, files, expected, run, registrations))
      && (closure.Some? ==>
            (InGroup(closure.value, group, d) <==>
             NeedsSome(reader, files, registrations, |registrations|, d, group)))
  {
    hide Reload, Needs;
    if registrations == [] {
    } else {
      var last := |registrations| - 1;
      ClosureExactly(reader, files, expected, run, registrations[..last], d, group);
      assert forall i :: 0 <= i < last ==> registrations[..last][i] == registrations[i];
    }
  }

  /** An index is covered exactly when all its confirmed registrations are accepted, their receipts are the ones it
      expects, and the digests they need are no more than 4096. */
  lemma {:induction false} CoveredExactly(reader: Reader, files: Files, expected: set<Digest>, run: string,
      registrations: seq<Registration>)
    ensures var closure := ClosureOf(reader, files, expected, run, registrations);
      Covered(reader, files, expected, run, registrations) <==>
      && AllAccepted(reader, files, expected, run, registrations) && closure.Some?
      && (forall d :: d in expected <==> NeedsSome(reader, files, registrations, |registrations|, d, 0))
      && |closure.value.receipts| + |closure.value.verifications| + |closure.value.dependencies| <= 4096
  {
    hide ClosureOf, AllAccepted, NeedsSome;
    var closure := ClosureOf(reader, files, expected, run, registrations);
    forall d
      ensures closure.Some? ==> (d in closure.value.receipts <==>
                NeedsSome(reader, files, registrations, |registrations|, d, 0))
      ensures closure.Some? <==> AllAccepted(reader, files, expected, run, registrations)
    {
      ClosureExactly(reader, files, expected, run, registrations, d, 0);
    }
    ClosureExactly(reader, files, expected, run, registrations, Sha256([]), 0);
    if closure.Some? && forall d :: d in expected <==> NeedsSome(reader, files, registrations, |registrations|, d, 0) {
      assert closure.value.receipts == expected;
    }
  }
}
