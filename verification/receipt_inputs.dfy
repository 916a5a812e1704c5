/** Receipt inputs: binding a receipt, its verification and its provenance dependencies to a registration,
    and the inventory of every file the retained receipts of a finalized index need.

    Files live below one evidence root; a path argument is the components it resolves to below that root,
    or nothing when it resolves to a place outside. */
module ReceiptInputs {
  import opened Paths

  type Files = map<Parts, Bytes>
  type Located = Option<Parts>

  /** One item of an ordered dictionary from digests to paths. */
  datatype Pair = Pair(sha: Digest, path: string)

  datatype Receipt = Receipt(verification: Digest, run: Option<string>)

  /** The document readers, and the provenance closure a receipt requires: all decided elsewhere. */
  datatype Reader = Reader(
    receipt: Bytes -> Option<Receipt>, verification: Bytes -> bool,
    required: (Bytes, Bytes, seq<Pair>) -> Option<set<Digest>>)

  datatype Chain = Chain(run: Option<string>, receipt: Pair, verification: Pair, dependencies: seq<Pair>)

  datatype Inputs = Inputs(receipts: seq<string>, verifications: seq<string>, dependencies: seq<string>)

  datatype Registration = Registration(confirmed: bool, run: Option<string>, sha: Option<Digest>,
      inputs: Option<Inputs>)

  const INVENTORY := "receipt-inventory.json"
  const LIMIT: nat := 4096

  /** `relative_file`. */
  function RelativeFile(path: Located, files: Files, existing: bool): Option<string> {
    if path.None? || path.value == [] || ':' in Render(path.value) || '\\' in Render(path.value) then None
    else if existing && path.value !in files then None
    else Some(Render(path.value))
  }

  function RelativeFiles(paths: seq<Located>, files: Files): Option<seq<string>> {
    if paths == [] then Some([])
    else
      var before, last := RelativeFiles(paths[..|paths| - 1], files), RelativeFile(paths[|paths| - 1], files, true);
      if before.None? || last.None? then None else Some(before.value + [last.value])
  }

  /** The file a recorded name stands for. */
  function FileOf(name: string): Parts {
    Kept(Split(name))
  }

  function BytesAt(files: Files, name: string): Bytes {
    if FileOf(name) in files then files[FileOf(name)] else []
  }

  function PairFor(files: Files, name: string): Pair {
    Pair(Sha256(BytesAt(files, name)), name)
  }

  function PairsFor(files: Files, names: seq<string>): seq<Pair> {
    seq(|names|, i requires 0 <= i < |names| => PairFor(files, names[i]))
  }

  function Digests(pairs: seq<Pair>): seq<Digest> {
    seq(|pairs|, i requires 0 <= i < |pairs| => pairs[i].sha)
  }

  function PathsOf(pairs: seq<Pair>): seq<string> {
    seq(|pairs|, i requires 0 <= i < |pairs| => pairs[i].path)
  }

  /** `chain_files` once the names are known. */
  function ChainOf(reader: Reader, files: Files, receipt: string, verification: string,
      dependencies: seq<string>): Option<Chain> {
    if INVENTORY in [receipt, verification] + dependencies then None
    else
      var receiptBytes, verificationBytes := BytesAt(files, receipt), BytesAt(files, verification);
      var document := reader.receipt(receiptBytes);
      if document.None? || !reader.verification(verificationBytes)
        || document.value.verification != Sha256(verificationBytes) then None
      else
        var pairs := PairsFor(files, dependencies);
        if |Members(Digests(pairs))| != |dependencies| then None
        else
          var required := reader.required(receiptBytes, verificationBytes, pairs);
          if required != Some(Members(Digests(pairs))) then None
          else Some(Chain(document.value.run, PairFor(files, receipt), PairFor(files, verification), pairs))
  }

  function ChainFiles(reader: Reader, files: Files, receipt: Located, verification: Located,
      dependencies: seq<Located>): Option<Chain> {
    var receiptName, verificationName := RelativeFile(receipt, files, true), RelativeFile(verification, files, true);
    var names := RelativeFiles(dependencies, files);
    if receiptName.None? || verificationName.None? || names.None? then None
    else ChainOf(reader, files, receiptName.value, verificationName.value, names.value)
  }

  // ---- bind ----

  datatype Arguments = Arguments(registration: Located, receipt: Located, verification: Located,
      dependencies: seq<Located>, destination: Located)

  function Bind(reader: Reader, files: Files, registration: Registration, arguments: Arguments): Option<Registration> {
    var registrationName := RelativeFile(arguments.registration, files, true);
    var destination := RelativeFile(arguments.destination, files, false);
    var chain := ChainFiles(reader, files, arguments.receipt, arguments.verification, arguments.dependencies);
    if registrationName.None? || destination.None? || destination.value == INVENTORY || chain.None?
       || !registration.confirmed || chain.value.run != registration.run then None
    else
      Some(registration.(sha := Some(chain.value.receipt.sha),
                         inputs := Some(Inputs([destination.value], [chain.value.verification.path],
                           PathsOf(chain.value.dependencies)))))
  }

  // ---- registered paths ----

  /** A recorded name is used only in its canonical form, for an existing file. */
  predicate Registered(name: string, files: Files) {
    name != "" && name[0] != '/' && ".." !in FileOf(name) && RelativeFile(Some(FileOf(name)), files, true) == Some(name)
  }

  predicate AllRegistered(names: seq<string>, files: Files) {
    |names| <= LIMIT && forall i :: 0 <= i < |names| ==> Registered(names[i], files)
  }

  predicate RegisteredPaths(inputs: Inputs, files: Files) {
    && AllRegistered(inputs.receipts, files) && AllRegistered(inputs.verifications, files)
      && AllRegistered(inputs.dependencies, files)
    && |inputs.receipts| == 1 && |inputs.verifications| == 1
  }

  /** The chain a registration leads to. */
  function Reload(reader: Reader, files: Files, registration: Registration): Option<Chain> {
    if registration.inputs.None? || !RegisteredPaths(registration.inputs.value, files) then None
    else
      var inputs := registration.inputs.value;
      ChainOf(reader, files, inputs.receipts[0], inputs.verifications[0], inputs.dependencies)
  }

  // ---- bind, then reload ----

  predicate Resolved(path: Located) {
    path.Some? ==> FileNames(path.value)
  }

  /** Path arguments resolve to components that are file names. */
  predicate AllResolved(a: Arguments) {
    && Resolved(a.receipt) && Resolved(a.verification) && Resolved(a.destination)
    && forall i :: 0 <= i < |a.dependencies| ==> Resolved(a.dependencies[i])
  }

  lemma {:induction false} NameOfFile(path: Parts)
    requires path != [] && FileNames(path)
    ensures FileOf(Render(path)) == path
    ensures Render(path) != "" && Render(path)[0] != '/'
  {
    SplitJoin(path);
    KeptAll(path);
    assert FileName(path[0]);
  }

  lemma {:induction false} NamesOfFiles(paths: seq<Located>, files: Files)
    requires RelativeFiles(paths, files).Some? && forall i :: 0 <= i < |paths| ==> Resolved(paths[i])
    ensures var names := RelativeFiles(paths, files).value;
            |names| == |paths| && forall i :: 0 <= i < |names| ==> Registered(names[i], files)
  {
    if paths == [] {
    } else {
      var last := |paths| - 1;
      NamesOfFiles(paths[..last], files);
      RegisteredName(paths[last], files);
    }
  }

  lemma {:induction false} RegisteredName(path: Located, files: Files)
    requires RelativeFile(path, files, true).Some? && Resolved(path)
    ensures Registered(RelativeFile(path, files, true).value, files)
    ensures FileOf(RelativeFile(path, files, true).value) == path.value
  {
    NameOfFile(path.value);
    assert forall i :: 0 <= i < |path.value| ==> FileName(path.value[i]);
  }

  /** Writing the receipt to its destination replaces no other bytes of the chain. */
  predicate Harmless(files: Files, chain: Chain, destination: Parts) {
    && (destination == FileOf(chain.verification.path) ==> chain.verification.sha == chain.receipt.sha)
    && forall i :: 0 <= i < |chain.dependencies| ==>
                     (destination == FileOf(chain.dependencies[i].path) ==>
                       chain.dependencies[i].sha == chain.receipt.sha)
  }

  /** No file stands in the way of a destination, and it is no directory. */
  predicate Writable(files: Files, destination: Parts) {
    forall p :: p in files && p != destination ==> !(p <= destination) && !(destination <= p)
  }

  /** Files after the receipt has been written to its destination. */
  function Placed(files: Files, a: Arguments): Files
    requires a.destination.Some? && a.receipt.Some? && a.receipt.value in files
  {
    files[a.destination.value := files[a.receipt.value]]
  }

  lemma {:induction false} PairAfter(files: Files, a: Arguments, path: Parts)
    requires a.destination.Some? && a.receipt.Some? && a.receipt.value in files
    requires path in files && path != [] && FileNames(path)
    ensures PairFor(Placed(files, a), Render(path)) ==
            Pair(Sha256(if path == a.destination.value then files[a.receipt.value] else files[path]), Render(path))
  {
    NameOfFile(path);
  }

  lemma {:induction false} FilesNamed(paths: seq<Located>, files: Files, i: nat)
    requires RelativeFiles(paths, files).Some? && i < |paths|
    ensures |RelativeFiles(paths, files).value| == |paths|
    ensures paths[i].Some? && paths[i].value in files && paths[i].value != []
    ensures RelativeFiles(paths, files).value[i] == Render(paths[i].value)
  {
    FileCount(paths, files);
    if i < |paths| - 1 {
      FilesNamed(paths[..|paths| - 1], files, i);
    } else {
      FileCount(paths[..i], files);
    }
  }

  lemma {:induction false} FileCount(paths: seq<Located>, files: Files)
    requires RelativeFiles(paths, files).Some?
    ensures |RelativeFiles(paths, files).value| == |paths|
  {
    if paths == [] {
    } else {
      FileCount(paths[..|paths| - 1], files);
    }
  }

  /** Names stay registered when a file is written. */
  lemma {:induction false} StaysRegistered(name: string, files: Files, path: Parts, bytes: Bytes)
    requires Registered(name, files)
    ensures Registered(name, files[path := bytes])
  {
  }

  /** The names `bind` records. */
  lemma {:induction false} BoundNames(reader: Reader, files: Files, registration: Registration, a: Arguments)
    requires Bind(reader, files, registration, a).Some?
    ensures a.receipt.Some? && a.receipt.value in files && a.receipt.value != [] && a.destination.Some?
        && a.destination.value != []
    ensures a.verification.Some? && a.verification.value in files && a.verification.value != []
    ensures RelativeFiles(a.dependencies, files).Some?
        && RelativeFile(a.verification, files, true) == Some(Render(a.verification.value))
    ensures ChainFiles(reader, files, a.receipt, a.verification, a.dependencies).Some?
    ensures ChainFiles(reader, files, a.receipt, a.verification, a.dependencies) ==
            ChainOf(reader, files, Render(a.receipt.value), Render(a.verification.value),
              RelativeFiles(a.dependencies, files).value)
    ensures Bind(reader, files, registration, a).value.inputs ==
            Some(Inputs([Render(a.destination.value)], [Render(a.verification.value)],
              RelativeFiles(a.dependencies, files).value))
    ensures INVENTORY != Render(a.destination.value)
  {
    hide Render, FileOf;
    var names := RelativeFiles(a.dependencies, files).value;
    assert PathsOf(PairsFor(files, names)) == names;
  }

  lemma {:induction false} BoundRegistered(reader: Reader, files: Files, registration: Registration, a: Arguments)
    requires AllResolved(a) && Bind(reader, files, registration, a).Some?
    ensures a.receipt.Some? && a.receipt.value in files && a.destination.Some?
    ensures Bind(reader, files, registration, a).value.inputs.Some?
    ensures RegisteredPaths(Bind(reader, files, registration, a).value.inputs.value, Placed(files, a)) <==>
        |a.dependencies| <= LIMIT
  {
    hide Render, FileOf, ChainOf, Registered, ChainFiles, Resolved;
    BoundNames(reader, files, registration, a);
    var after := Placed(files, a);
    assert RelativeFile(a.destination, after, true) == RelativeFile(a.destination, files, false);
    RegisteredName(a.destination, after);
    RegisteredName(a.verification, files);
    StaysRegistered(Render(a.verification.value), files, a.destination.value, files[a.receipt.value]);
    var names := RelativeFiles(a.dependencies, files).value;
    NamesOfFiles(a.dependencies, files);
    forall i | 0 <= i < |names|
      ensures Registered(names[i], after)
    {
      StaysRegistered(names[i], files, a.destination.value, files[a.receipt.value]);
    }
  }

  /** The chain's pairs are those of the named files. */
  lemma {:induction false} ChainPairs(reader: Reader, files: Files, receipt: string, verification: string,
      dependencies: seq<string>)
    requires ChainOf(reader, files, receipt, verification, dependencies).Some?
    ensures var chain := ChainOf(reader, files, receipt, verification, dependencies).value;
            && chain.receipt == PairFor(files, receipt) && chain.verification == PairFor(files, verification)
            && chain.dependencies == PairsFor(files, dependencies)
  {
    hide PairFor;
  }

  /** The chain depends only on the bytes of its files. */
  lemma {:induction false} SameBytesSameChain(reader: Reader, before: Files, after: Files, receipt: string,
      moved: string,
                                              verification: string, dependencies: seq<string>)
    requires ChainOf(reader, before, receipt, verification, dependencies).Some? && moved != INVENTORY
    requires PairFor(after, moved).sha == PairFor(before, receipt).sha
    requires PairFor(after, verification) == PairFor(before, verification)
    requires PairsFor(after, dependencies) == PairsFor(before, dependencies)
    ensures var chain := ChainOf(reader, before, receipt, verification, dependencies).value;
            ChainOf(reader, after, moved, verification, dependencies) ==
              Some(chain.(receipt := Pair(chain.receipt.sha, moved)))
  {
    hide PairsFor, BytesAt, Digests, Members;
    assert BytesAt(after, moved) == PairFor(after, moved).sha.preimage;
    assert BytesAt(after, verification) == PairFor(after, verification).sha.preimage;
    assert moved !in [moved, verification] + dependencies || moved != INVENTORY;
    assert forall name :: name in [moved, verification] + dependencies ==>
        name == moved || name in [receipt, verification] + dependencies;
  }

  lemma {:induction false} DependencyAfter(files: Files, a: Arguments, i: nat)
    requires a.destination.Some? && a.receipt.Some? && a.receipt.value in files
    requires RelativeFiles(a.dependencies, files).Some? && i < |a.dependencies| && Resolved(a.dependencies[i])
    ensures var names := RelativeFiles(a.dependencies, files).value;
            && |names| == |a.dependencies|
            && PairFor(Placed(files, a), names[i]) ==
               (if FileOf(names[i]) == a.destination.value then Pair(Sha256(files[a.receipt.value]), names[i])
                 else PairFor(files, names[i]))
  {
    hide Render, FileOf, RelativeFiles;
    FilesNamed(a.dependencies, files, i);
    NameOfFile(a.dependencies[i].value);
    PairAfter(files, a, a.dependencies[i].value);
  }

  lemma {:induction false} VerificationAfter(files: Files, a: Arguments)
    requires a.destination.Some? && a.receipt.Some? && a.receipt.value in files
    requires a.verification.Some? && a.verification.value in files
    requires a.verification.value != [] && Resolved(a.verification)
    ensures var name := Render(a.verification.value);
            PairFor(Placed(files, a), name) ==
            if FileOf(name) == a.destination.value then Pair(Sha256(files[a.receipt.value]), name)
              else PairFor(files, name)
  {
    hide Render, FileOf;
    NameOfFile(a.verification.value);
    PairAfter(files, a, a.verification.value);
  }

  lemma {:induction false} ReceiptPairs(files: Files, a: Arguments)
    requires a.receipt.Some? && a.receipt.value in files && a.receipt.value != [] && Resolved(a.receipt)
    requires a.destination.Some? && a.destination.value != [] && Resolved(a.destination)
    ensures PairFor(files, Render(a.receipt.value)).sha == Sha256(files[a.receipt.value])
    ensures PairFor(Placed(files, a), Render(a.destination.value)).sha == Sha256(files[a.receipt.value])
  {
    hide Render, FileOf;
    NameOfFile(a.receipt.value);
    NameOfFile(a.destination.value);
  }

  lemma {:induction false} HarmlessReload(reader: Reader, files: Files, registration: Registration, a: Arguments)
    requires AllResolved(a) && Bind(reader, files, registration, a).Some? && |a.dependencies| <= LIMIT
    requires ChainFiles(reader, files, a.receipt, a.verification, a.dependencies).Some? && a.destination.Some?
    requires Harmless(files, ChainFiles(reader, files, a.receipt, a.verification, a.dependencies).value,
        a.destination.value)
    ensures a.receipt.Some? && a.receipt.value in files && a.destination.Some?
    ensures var chain := ChainFiles(reader, files, a.receipt, a.verification, a.dependencies).value;
            Reload(reader, Placed(files, a), Bind(reader, files, registration, a).value)
              == Some(chain.(receipt := Pair(chain.receipt.sha, Render(a.destination.value))))
  {
    hide Render, FileOf, ChainOf, RegisteredPaths, ChainFiles, Bind, PairFor, RelativeFiles, Resolved, BytesAt;
    BoundNames(reader, files, registration, a);
    BoundRegistered(reader, files, registration, a);
    var names := RelativeFiles(a.dependencies, files).value;
    var after := Placed(files, a);
    ChainPairs(reader, files, Render(a.receipt.value), Render(a.verification.value), names);
    ReceiptPairs(files, a);
    VerificationAfter(files, a);
    PairShape(files, Render(a.verification.value));
    FileCount(a.dependencies, files);
    forall i | 0 <= i < |names|
      ensures PairFor(after, names[i]) == PairFor(files, names[i])
    {
      DependencyAfter(files, a, i);
      PairShape(files, names[i]);
      assert PairsFor(files, names)[i] == PairFor(files, names[i]);
    }
    SameBytesSameChain(reader, files, after, Render(a.receipt.value), Render(a.destination.value),
      Render(a.verification.value), names);
  }

  lemma {:induction false} PairShape(files: Files, name: string)
    ensures PairFor(files, name).path == name
  {
  }

  lemma {:induction false} HarmfulReload(reader: Reader, files: Files, registration: Registration, a: Arguments)
    requires AllResolved(a) && Bind(reader, files, registration, a).Some?
    requires ChainFiles(reader, files, a.receipt, a.verification, a.dependencies).Some? && a.destination.Some?
    requires !Harmless(files, ChainFiles(reader, files, a.receipt, a.verification, a.dependencies).value,
        a.destination.value)
    ensures a.receipt.Some? && a.receipt.value in files && a.destination.Some?
    ensures var chain := ChainFiles(reader, files, a.receipt, a.verification, a.dependencies).value;
            Reload(reader, Placed(files, a), Bind(reader, files, registration, a).value)
              != Some(chain.(receipt := Pair(chain.receipt.sha, Render(a.destination.value))))
  {
    hide Render, FileOf, ChainOf, RegisteredPaths, ChainFiles, Bind, PairFor, RelativeFiles, Resolved, BytesAt;
    BoundNames(reader, files, registration, a);
    var names := RelativeFiles(a.dependencies, files).value;
    var after, bound := Placed(files, a), Bind(reader, files, registration, a).value;
    var chain := ChainFiles(reader, files, a.receipt, a.verification, a.dependencies).value;
    ChainPairs(reader, files, Render(a.receipt.value), Render(a.verification.value), names);
    PairShape(files, Render(a.verification.value));
    ReceiptPairs(files, a);
    VerificationAfter(files, a);
    FileCount(a.dependencies, files);
    if Reload(reader, after, bound).Some? {
      ChainPairs(reader, after, Render(a.destination.value), Render(a.verification.value), names);
      var reloaded := Reload(reader, after, bound).value;
      if !(a.destination.value == FileOf(chain.verification.path) && chain.verification.sha != chain.receipt.sha) {
        var i :| 0 <= i < |chain.dependencies| && a.destination.value == FileOf(chain.dependencies[i].path)
                 && chain.dependencies[i].sha != chain.receipt.sha;
        assert chain.dependencies[i] == PairFor(files, names[i]);
        PairShape(files, names[i]);
        DependencyAfter(files, a, i);
        assert reloaded.dependencies[i] == PairFor(after, names[i]);
      }
    }
  }

  /** Once the receipt is at its destination, the registration leads to the same verification and
      dependencies, and to the receipt under its new path, exactly when there are at most 4096
      dependencies and the receipt replaced none of the other files of its own chain. */
  lemma {:induction false} BindReloads(reader: Reader, files: Files, registration: Registration, a: Arguments)
    requires AllResolved(a) && Bind(reader, files, registration, a).Some?
    requires a.destination.Some? && Writable(files, a.destination.value)
    ensures a.receipt.Some? && a.receipt.value in files
    ensures ChainFiles(reader, files, a.receipt, a.verification, a.dependencies).Some?
    ensures var chain := ChainFiles(reader, files, a.receipt, a.verification, a.dependencies).value;
            Reload(reader, Placed(files, a), Bind(reader, files, registration, a).value)
              == Some(chain.(receipt := Pair(chain.receipt.sha, Render(a.destination.value))))
            <==> |a.dependencies| <= LIMIT && Harmless(files, chain, a.destination.value)
  {
    hide Render, FileOf, ChainOf, Registered, Resolved, Harmless;
    var chain := ChainFiles(reader, files, a.receipt, a.verification, a.dependencies).value;
    BoundNames(reader, files, registration, a);
    BoundRegistered(reader, files, registration, a);
    if |a.dependencies| <= LIMIT {
      if Harmless(files, chain, a.destination.value) {
        HarmlessReload(reader, files, registration, a);
      } else {
        HarmfulReload(reader, files, registration, a);
      }
    }
  }

  const ANY_READER: Reader :=
    Reader(bytes => Some(Receipt(Sha256([2]), None)), bytes => true, (r, v, pairs) => Some(Members(Digests(pairs))))

  /** Binding accepts a destination that is one of the dependencies; what it records then no longer loads
      to the same chain once the receipt is written there. */
  lemma {:induction false} BoundOverDependency()
    ensures var files: Files := map[["r"] := [1], ["v"] := [2], ["d"] := [3], ["g"] := [4]];
            var a := Arguments(Some(["g"]), Some(["r"]), Some(["v"]), [Some(["d"])], Some(["d"]));
            var bound := Bind(ANY_READER, files, Registration(true, None, None, None), a);
            && bound.Some? && AllResolved(a) && Writable(files, ["d"])
            && ChainFiles(ANY_READER, files, a.receipt, a.verification, a.dependencies).Some?
            && !Harmless(files, ChainFiles(ANY_READER, files, a.receipt, a.verification, a.dependencies).value, ["d"])
  {
    var files: Files := map[["r"] := [1], ["v"] := [2], ["d"] := [3], ["g"] := [4]];
    var a := Arguments(Some(["g"]), Some(["r"]), Some(["v"]), [Some(["d"])], Some(["d"]));
    hide FileOf, Render, Members;
    OneLetter('r', files);
    OneLetter('v', files);
    OneLetter('d', files);
    OneLetter('g', files);
    assert RelativeFiles(a.dependencies[..0], files) == Some([]);
    assert RelativeFile(a.dependencies[0], files, true) == Some("d");
    assert RelativeFiles(a.dependencies, files).value == [] + ["d"];
    var pairs := PairsFor(files, ["d"]);
    assert Digests(pairs) == [Sha256([3])];
    OneMember(Sha256([3]));
    assert |INVENTORY| > 1;
    assert INVENTORY !in ["r", "v"] + ["d"];
    var chain := ChainOf(ANY_READER, files, "r", "v", ["d"]);
    assert chain == Some(Chain(None, PairFor(files, "r"), PairFor(files, "v"), pairs));
  }

  lemma {:induction false} OneMember(sha: Digest)
    ensures Members([sha]) == {sha}
  {
    assert Members([sha][..0]) == {};
  }

  lemma {:induction false} OneLetter(c: char, files: Files)
    requires c != '/' && c != '.' && c != ':' && c != '\\'
    ensures FileOf([c]) == [[c]] && Render([[c]]) == [c]
    ensures [[c]] in files ==> BytesAt(files, [c]) == files[[[c]]]
    ensures ':' !in [c] && '\\' !in [c]
  {
    NameOfFile([[c]]);
  }

  // ---- the inventory ----

  /** `a < b` as Python compares strings. */
  predicate Before(a: string, b: string) {
    b != "" && (a == "" || a[0] < b[0] || (a[0] == b[0] && Before(a[1..], b[1..])))
  }

  lemma {:induction false} BeforeIsTotal(a: string, b: string)
    ensures a == b || Before(a, b) || Before(b, a)
    ensures !(Before(a, b) && Before(b, a))
  {
    if a != "" && b != "" {
      BeforeIsTotal(a[1..], b[1..]);
      if a[1..] == b[1..] && a[0] == b[0] { assert a == [a[0]] + a[1..] == b; }
    }
  }

  lemma {:induction false} BeforeIsTransitive(a: string, b: string, c: string)
    requires Before(a, b) && Before(b, c)
    ensures Before(a, c)
  {
    if a != "" && a[0] == b[0] == c[0] { BeforeIsTransitive(a[1..], b[1..], c[1..]); }
  }

  function Insert(x: string, sorted: seq<string>): seq<string> {
    if sorted == [] then [x]
    else if Before(sorted[0], x) then [sorted[0]] + Insert(x, sorted[1..])
    else [x] + sorted
  }

  function Sorted(items: seq<string>): seq<string> {
    if items == [] then [] else Insert(items[|items| - 1], Sorted(items[..|items| - 1]))
  }

  predicate Ascending(items: seq<string>) {
    forall i, j :: 0 <= i < j < |items| ==> Before(items[i], items[j])
  }

  lemma {:induction false} InsertKeeps(x: string, sorted: seq<string>)
    ensures |Insert(x, sorted)| == |sorted| + 1
    ensures forall y :: y in Insert(x, sorted) <==> y == x || y in sorted
    ensures Ascending(sorted) && x !in sorted ==> Ascending(Insert(x, sorted))
  {
    if sorted == [] {
    } else {
      InsertKeeps(x, sorted[1..]);
      var tail := Insert(x, sorted[1..]);
      if Ascending(sorted) && x !in sorted {
        if Before(sorted[0], x) {
          forall j | 0 <= j < |tail|
            ensures Before(sorted[0], tail[j])
          {
            if tail[j] != x { assert tail[j] in sorted[1..]; }
          }
        } else {
          BeforeIsTotal(x, sorted[0]);
          forall j | 0 <= j < |sorted|
            ensures Before(x, sorted[j])
          {
            if j > 0 { BeforeIsTransitive(x, sorted[0], sorted[j]); }
          }
        }
      }
    }
  }

  /** Sorting keeps the items, and orders a list without repetitions strictly. */
  lemma {:induction false} SortedKeeps(items: seq<string>)
    ensures |Sorted(items)| == |items|
    ensures forall y :: y in Sorted(items) <==> y in items
    ensures Distinct(items) ==> Ascending(Sorted(items))
  {
    if items == [] {
    } else {
      var before, x := items[..|items| - 1], items[|items| - 1];
      SortedKeeps(before);
      InsertKeeps(x, Sorted(before));
      assert items == before + [x];
    }
  }

  datatype Lists = Lists(receipts: seq<string>, verifications: seq<string>, dependencies: seq<string>)

  /** The digests a set of registrations needs, by group. */
  datatype Closure = Closure(receipts: set<Digest>, verifications: set<Digest>, dependencies: set<Digest>)

  /** The chain of one confirmed registration, if it belongs to the finalized index. */
  function Accepted(reader: Reader, files: Files, expected: set<Digest>, run: string,
      registration: Registration): Option<Chain> {
    var chain := Reload(reader, files, registration);
    if chain.None? || Some(chain.value.receipt.sha) != registration.sha || chain.value.receipt.sha !in expected
       || chain.value.run != Some(run) || registration.run != Some(run) then None
    else chain
  }

  /** What one registered receipt needs: itself, the verification it names, and the provenance it requires. */
  function Needs(reader: Reader, files: Files, registration: Registration): Closure
    requires Reload(reader, files, registration).Some?
  {
    var inputs := registration.inputs.value;
    var receipt, verification := BytesAt(files, inputs.receipts[0]), BytesAt(files, inputs.verifications[0]);
    var required := reader.required(receipt, verification, PairsFor(files, inputs.dependencies));
    Closure({Sha256(receipt)}, {reader.receipt(receipt).value.verification}, required.value)
  }

  /** Receipts, verifications and required dependencies of all confirmed registrations. */
  function ClosureOf(reader: Reader, files: Files, expected: set<Digest>, run: string,
      registrations: seq<Registration>): Option<Closure> {
    if registrations == [] then Some(Closure({}, {}, {}))
    else
      var before := ClosureOf(reader, files, expected, run, registrations[..|registrations| - 1]);
      var last := registrations[|registrations| - 1];
      if before.None? || !last.confirmed then before
      else if Accepted(reader, files, expected, run, last).None? then None
      else
        var needs := Needs(reader, files, last);
        Some(Closure(before.value.receipts + needs.receipts, before.value.verifications + needs.verifications,
                     before.value.dependencies + needs.dependencies))
  }

  /** Every confirmed registration is accepted, the index has no other receipt, and the files fit. */
  predicate Covered(reader: Reader, files: Files, expected: set<Digest>, run: string,
      registrations: seq<Registration>) {
    var closure := ClosureOf(reader, files, expected, run, registrations);
    && closure.Some? && closure.value.receipts == expected
    && |closure.value.receipts| + |closure.value.verifications| + |closure.value.dependencies| <= LIMIT
  }

  /** This path is the first of the names with its digest. */
  ghost predicate FirstWith(files: Files, names: seq<string>, path: string) {
    exists k :: 0 <= k < |names| && names[k] == path && NotBefore(files, names, k)
  }

  ghost predicate NotBefore(files: Files, names: seq<string>, k: nat)
    requires k < |names|
  {
    forall j :: 0 <= j < k ==> PairFor(files, names[j]).sha != PairFor(files, names[k]).sha
  }

  /** All names that the confirmed registrations record, in their order. */
  function AllNames(registrations: seq<Registration>): Inputs {
    if registrations == [] then Inputs([], [], [])
    else
      var before, last := AllNames(registrations[..|registrations| - 1]), registrations[|registrations| - 1];
      if !last.confirmed || last.inputs.None? then before
      else
        var i := last.inputs.value;
        Inputs(before.receipts + i.receipts, before.verifications + i.verifications,
               before.dependencies + i.dependencies)
  }

  /** The list names exactly one file for every digest of the set, the first registered one, in ascending order. */
  ghost predicate OnePathEach(files: Files, list: seq<string>, digests: set<Digest>, names: seq<string>) {
    && Ascending(list) && |list| == |digests|
    && (forall i :: 0 <= i < |list| ==> FirstWith(files, names, list[i]))
    && (forall i :: 0 <= i < |list| ==> FileOf(list[i]) in files && PairFor(files, list[i]).sha in digests)
    && (forall i, j :: 0 <= i < j < |list| ==> PairFor(files, list[i]).sha != PairFor(files, list[j]).sha)
    && forall d :: d in digests ==> NamesDigest(files, list, d)
  }

  ghost predicate NamesDigest(files: Files, list: seq<string>, d: Digest) {
    exists i :: 0 <= i < |list| && PairFor(files, list[i]).sha == d
  }

  /** `setdefault`. */
  function Keep(pairs: seq<Pair>, p: Pair): seq<Pair> {
    if p.sha in Digests(pairs) then pairs else pairs + [p]
  }

  predicate Genuine(files: Files, p: Pair) {
    FileOf(p.path) in files && p == PairFor(files, p.path)
  }

  /** A collected group: one genuine pair for each digest of these names, the first of them. */
  ghost predicate Held(files: Files, pairs: seq<Pair>, digests: set<Digest>, names: seq<string>) {
    && Distinct(Digests(pairs)) && Members(Digests(pairs)) == digests
    && (forall i :: 0 <= i < |pairs| ==> Genuine(files, pairs[i]) && FirstWith(files, names, pairs[i].path))
    && forall j :: 0 <= j < |names| ==> PairFor(files, names[j]).sha in digests
  }

  lemma {:induction false} FirstStays(files: Files, names: seq<string>, path: string, more: string)
    requires FirstWith(files, names, path)
    ensures FirstWith(files, names + [more], path)
  {
    var k :| 0 <= k < |names| && names[k] == path && NotBefore(files, names, k);
    assert NotBefore(files, names + [more], k);
  }

  lemma {:induction false} FirstNow(files: Files, names: seq<string>, path: string)
    requires forall j :: 0 <= j < |names| ==> PairFor(files, names[j]).sha != PairFor(files, path).sha
    ensures FirstWith(files, names + [path], path)
  {
    assert NotBefore(files, names + [path], |names|);
  }

  lemma {:induction false} KeepHolds(files: Files, pairs: seq<Pair>, digests: set<Digest>, names: seq<string>, p: Pair)
    requires Held(files, pairs, digests, names) && Genuine(files, p)
    ensures Held(files, Keep(pairs, p), digests + {p.sha}, names + [p.path])
  {
    hide FirstWith, PairFor, Members, Distinct;
    var all := Digests(pairs);
    MembersAreItems(all);
    assert p == PairFor(files, p.path);
    forall i | 0 <= i < |pairs|
      ensures FirstWith(files, names + [p.path], pairs[i].path)
    {
      FirstStays(files, names, pairs[i].path, p.path);
    }
    if p.sha in all {
      assert digests + {p.sha} == digests;
    } else {
      FirstNow(files, names, p.path);
      assert Digests(pairs + [p]) == all + [p.sha];
      MoreDistinct(all, p.sha);
    }
  }

  lemma {:induction false} MoreDistinct(items: seq<Digest>, item: Digest)
    requires Distinct(items) && item !in items
    ensures Distinct(items + [item]) && Members(items + [item]) == Members(items) + {item}
  {
    assert (items + [item])[..|items|] == items;
  }

  method KeepAll(files: Files, pairs: seq<Pair>, more: seq<Pair>, ghost digests: set<Digest>, ghost names: seq<string>)
    returns (r: seq<Pair>)
    requires Held(files, pairs, digests, names) && forall i :: 0 <= i < |more| ==> Genuine(files, more[i])
    ensures Held(files, r, digests + Members(Digests(more)), names + PathsOf(more))
  {
    hide Held, Genuine, Keep;
    r := pairs;
    assert digests + Members(Digests(more[..0])) == digests && names + PathsOf(more[..0]) == names;
    for i := 0 to |more|
      invariant Held(files, r, digests + Members(Digests(more[..i])), names + PathsOf(more[..i]))
    {
      assert Digests(more[..i + 1]) == Digests(more[..i]) + [more[i].sha];
      assert Digests(more[..i + 1])[..i] == Digests(more[..i]);
      KeepHolds(files, r, digests + Members(Digests(more[..i])), names + PathsOf(more[..i]), more[i]);
      r := Keep(r, more[i]);
      assert digests + Members(Digests(more[..i])) + {more[i].sha} == digests + Members(Digests(more[..i + 1]));
      assert names + PathsOf(more[..i]) + [more[i].path] == names + PathsOf(more[..i + 1]);
    }
    assert more[..|more|] == more;
  }

  lemma {:induction false} ChainIsGenuine(reader: Reader, files: Files, registration: Registration)
    requires Reload(reader, files, registration).Some?
    ensures var chain := Reload(reader, files, registration).value;
            && Genuine(files, chain.receipt) && Genuine(files, chain.verification)
            && forall i :: 0 <= i < |chain.dependencies| ==> Genuine(files, chain.dependencies[i])
  {
    hide FileOf, Render, ChainOf, BytesAt;
    var inputs := registration.inputs.value;
    var chain := Reload(reader, files, registration).value;
    ChainPairs(reader, files, inputs.receipts[0], inputs.verifications[0], inputs.dependencies);
    RegisteredFile(inputs.receipts[0], files);
    RegisteredFile(inputs.verifications[0], files);
    forall i | 0 <= i < |chain.dependencies|
      ensures Genuine(files, chain.dependencies[i])
    {
      RegisteredFile(inputs.dependencies[i], files);
    }
  }

  /** A loaded chain holds what its receipt needs, and nothing else. */
  lemma {:induction false} ChainIsClosed(reader: Reader, files: Files, registration: Registration)
    requires Reload(reader, files, registration).Some?
    ensures var chain := Reload(reader, files, registration).value;
            Needs(reader, files, registration)
              == Closure({chain.receipt.sha}, {chain.verification.sha}, Members(Digests(chain.dependencies)))
    ensures Distinct(Digests(Reload(reader, files, registration).value.dependencies))
  {
    hide BytesAt, Members, Distinct, Registered;
    var inputs := registration.inputs.value;
    ChainPairs(reader, files, inputs.receipts[0], inputs.verifications[0], inputs.dependencies);
    SizeFindsRepeats(Digests(PairsFor(files, inputs.dependencies)));
  }

  lemma {:induction false} RegisteredFile(name: string, files: Files)
    requires Registered(name, files)
    ensures FileOf(name) in files && PairFor(files, name).path == name
  {
  }

  lemma {:induction false} HeldSize(files: Files, pairs: seq<Pair>, digests: set<Digest>, names: seq<string>)
    requires Held(files, pairs, digests, names)
    ensures |pairs| == |digests|
  {
    SizeFindsRepeats(Digests(pairs));
  }

  lemma {:induction false} PathsDistinct(files: Files, pairs: seq<Pair>)
    requires Distinct(Digests(pairs)) && forall i :: 0 <= i < |pairs| ==> Genuine(files, pairs[i])
    ensures Distinct(PathsOf(pairs))
  {
    hide FileOf, BytesAt;
    if pairs == [] {
    } else {
      var last := |pairs| - 1;
      assert Digests(pairs)[..last] == Digests(pairs[..last]) && PathsOf(pairs)[..last] == PathsOf(pairs[..last]);
      PathsDistinct(files, pairs[..last]);
      forall i | 0 <= i < last
        ensures PathsOf(pairs)[i] != PathsOf(pairs)[last]
      {
        assert Digests(pairs)[i] in Digests(pairs)[..last];
      }
    }
  }

  /** The sorted paths of a collected group. */
  lemma {:induction false} SortedPaths(files: Files, pairs: seq<Pair>, digests: set<Digest>, names: seq<string>)
    requires Held(files, pairs, digests, names)
    ensures OnePathEach(files, Sorted(PathsOf(pairs)), digests, names)
  {
    hide FileOf, BytesAt, Sorted, Members, Distinct, PairFor, FirstWith;
    var paths := PathsOf(pairs);
    var list := Sorted(paths);
    PathsDistinct(files, pairs);
    SortedKeeps(paths);
    HeldSize(files, pairs, digests, names);
    MembersAreItems(Digests(pairs));
    forall i | 0 <= i < |list|
      ensures FileOf(list[i]) in files && PairFor(files, list[i]).sha in digests && FirstWith(files, names, list[i])
    {
      var a := PairAt(files, pairs, list[i]);
      assert Digests(pairs)[a] == pairs[a].sha;
    }
    forall i, j | 0 <= i < j < |list|
      ensures PairFor(files, list[i]).sha != PairFor(files, list[j]).sha
    {
      var a := PairAt(files, pairs, list[i]);
      var b := PairAt(files, pairs, list[j]);
      BeforeIsTotal(list[i], list[j]);
      assert Before(list[i], list[j]);
      DistinctDiffer(Digests(pairs), if a < b then a else b, if a < b then b else a);
    }
    forall d | d in digests
      ensures NamesDigest(files, list, d)
    {
      var a :| 0 <= a < |pairs| && Digests(pairs)[a] == d;
      assert Genuine(files, pairs[a]) && paths[a] in list;
      var i :| 0 <= i < |list| && list[i] == paths[a];
    }
  }

  lemma {:induction false} PairAt(files: Files, pairs: seq<Pair>, path: string) returns (a: nat)
    requires path in Sorted(PathsOf(pairs)) && forall i :: 0 <= i < |pairs| ==> Genuine(files, pairs[i])
    ensures a < |pairs| && pairs[a].path == path && pairs[a] == PairFor(files, path) && FileOf(path) in files
  {
    hide FileOf, BytesAt, Sorted, PairFor;
    SortedKeeps(PathsOf(pairs));
    a :| 0 <= a < |pairs| && PathsOf(pairs)[a] == path;
    assert Genuine(files, pairs[a]);
  }

  lemma {:induction false} ClosureStops(reader: Reader, files: Files, expected: set<Digest>, run: string,
      registrations: seq<Registration>, n: nat)
    requires n <= |registrations| && ClosureOf(reader, files, expected, run, registrations[..n]).None?
    ensures ClosureOf(reader, files, expected, run, registrations).None?
    decreases |registrations|
  {
    hide Accepted, Needs;
    if n == |registrations| {
      assert registrations[..n] == registrations;
    } else {
      var last := |registrations| - 1;
      assert registrations[..last][..n] == registrations[..n];
      ClosureStops(reader, files, expected, run, registrations[..last], n);
    }
  }

  /** The names of one more registration. */
  lemma {:induction false} NextNames(reader: Reader, files: Files, registrations: seq<Registration>)
    requires registrations != []
    requires var last := registrations[|registrations| - 1];
      last.confirmed ==> Reload(reader, files, last).Some?
    ensures var last, before := registrations[|registrations| - 1], AllNames(registrations[..|registrations| - 1]);
      AllNames(registrations) ==
        if !last.confirmed then before
        else
          var chain := Reload(reader, files, last).value;
          Inputs(before.receipts + [chain.receipt.path], before.verifications + [chain.verification.path],
                 before.dependencies + PathsOf(chain.dependencies))
  {
    hide FileOf, Render, ChainOf, BytesAt, AllRegistered;
    var last := registrations[|registrations| - 1];
    if last.confirmed {
      var i := last.inputs.value;
      ChainPairs(reader, files, i.receipts[0], i.verifications[0], i.dependencies);
      assert i.receipts == [i.receipts[0]] && i.verifications == [i.verifications[0]];
      assert PathsOf(PairsFor(files, i.dependencies)) == i.dependencies;
    }
  }

  /** Exactly one path per digest in the closure of the index's retained receipts: the first one registered. */
  method Inventory(reader: Reader, files: Files, expected: set<Digest>, run: string, registrations: seq<Registration>)
    returns (r: Option<Lists>)
    ensures r.Some? <==> Covered(reader, files, expected, run, registrations)
    ensures r.Some? ==>
              var closure := ClosureOf(reader, files, expected, run, registrations).value;
              var names := AllNames(registrations);
              && OnePathEach(files, r.value.receipts, expected, names.receipts)
              && OnePathEach(files, r.value.verifications, closure.verifications, names.verifications)
              && OnePathEach(files, r.value.dependencies, closure.dependencies, names.dependencies)
  {
    hide Reload, Held, Genuine, Keep, Sorted, OnePathEach, Digests, PathsOf, Needs, Distinct, AllNames;
    var receipts, verifications, dependencies: seq<Pair> := [], [], [];
    NothingHeld(files);
    ghost var closure, names := Closure({}, {}, {}), Inputs([], [], []);
    NoNames();
    for i := 0 to |registrations|
      invariant ClosureOf(reader, files, expected, run, registrations[..i]) == Some(closure)
      invariant AllNames(registrations[..i]) == names
      invariant Held(files, receipts, closure.receipts, names.receipts)
      invariant Held(files, verifications, closure.verifications, names.verifications)
      invariant Held(files, dependencies, closure.dependencies, names.dependencies)
    {
      assert registrations[..i + 1][..i] == registrations[..i];
      if registrations[i].confirmed {
        var chain := Accepted(reader, files, expected, run, registrations[i]);
        if chain.None? {
          ClosureStops(reader, files, expected, run, registrations, i + 1);
          return None;
        }
        ChainIsGenuine(reader, files, registrations[i]);
        ChainIsClosed(reader, files, registrations[i]);
        KeepHolds(files, receipts, closure.receipts, names.receipts, chain.value.receipt);
        KeepHolds(files, verifications, closure.verifications, names.verifications, chain.value.verification);
        receipts := Keep(receipts, chain.value.receipt);
        verifications := Keep(verifications, chain.value.verification);
        dependencies := KeepAll(files, dependencies, chain.value.dependencies, closure.dependencies,
                                names.dependencies);
        closure := ClosureOf(reader, files, expected, run, registrations[..i + 1]).value;
      }
      NextNames(reader, files, registrations[..i + 1]);
      names := AllNames(registrations[..i + 1]);
    }
    assert registrations[..|registrations|] == registrations;
    HeldSize(files, receipts, closure.receipts, names.receipts);
    HeldSize(files, verifications, closure.verifications, names.verifications);
    HeldSize(files, dependencies, closure.dependencies, names.dependencies);
    HeldDigests(files, receipts, closure.receipts, names.receipts);
    if Members(Digests(receipts)) != expected || |receipts| + |verifications| + |dependencies| > LIMIT { return None; }
    SortedPaths(files, receipts, closure.receipts, names.receipts);
    SortedPaths(files, verifications, closure.verifications, names.verifications);
    SortedPaths(files, dependencies, closure.dependencies, names.dependencies);
    r := Some(Lists(Sorted(PathsOf(receipts)), Sorted(PathsOf(verifications)), Sorted(PathsOf(dependencies))));
  }

  lemma {:induction false} NothingHeld(files: Files)
    ensures Held(files, [], {}, [])
  {
  }

  lemma {:induction false} NoNames()
    ensures AllNames([]) == Inputs([], [], [])
  {
  }

  lemma {:induction false} HeldDigests(files: Files, pairs: seq<Pair>, digests: set<Digest>, names: seq<string>)
    requires Held(files, pairs, digests, names)
    ensures Members(Digests(pairs)) == digests
  {
  }
}
