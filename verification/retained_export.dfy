/** The retained export: admit a finite inventory, copy every payload in chunks while other writers
    may touch the sources, read each copy back, and leave either a manifest or an incomplete marker.

    Every I/O operation happens at its own instant.  `Env` fixes, for every instant, what the source
    tree looks like, whether the operation fails there, and what a flushed write really left on the
    destination; nothing about it is known except what a contract says.  The copy of an item starts at an
    instant that depends only on the admitted inventory (`Slot`); instants before it may pass unused. */
module RetainedExport {
  import opened Paths

  const CHUNK: nat := 1024 * 1024
  const MAX_BYTES: nat := 1024 * 1024 * 1024 * 1024
  const MANIFEST := "export-manifest.json"
  const INCOMPLETE := "export-incomplete.json"

  // ---- the world outside ----

  datatype Node = Missing | Directory | Regular(ino: nat)

  /** `stamp` stands for the modification and change times of a file. */
  datatype Inode = Inode(bytes: Bytes, stamp: nat)

  datatype Env = Env(
    look: (nat, Parts) -> Node,
    inode: (nat, nat) -> Inode,
    fault: nat -> bool,
    stored: (nat, Bytes) -> Bytes)

  function InodeAt(env: Env, t: nat, ino: nat): Inode {
    env.inode(t, ino)
  }

  function Look(env: Env, t: nat, path: Parts): Node {
    env.look(t, path)
  }

  predicate Fault(env: Env, t: nat) {
    env.fault(t)
  }

  function Stored(env: Env, t: nat, bytes: Bytes): Bytes {
    env.stored(t, bytes)
  }

  /** From one instant to another nothing fails, nobody touches the sources, and what is written is stored. */
  ghost predicate CalmDuring(env: Env, from: nat, until: nat) {
    && (forall t: nat :: from <= t <= until ==> !Fault(env, t))
    && (forall t: nat, path: Parts :: from <= t <= until ==> Look(env, t, path) == Look(env, from, path))
    && (forall t: nat, ino: nat :: from <= t <= until ==> InodeAt(env, t, ino) == InodeAt(env, from, ino))
    && (forall t: nat, bytes: Bytes :: from <= t <= until ==> Stored(env, t, bytes) == bytes)
  }

  ghost predicate CalmFrom(env: Env, from: nat) {
    && (forall t: nat :: from <= t ==> !Fault(env, t))
    && (forall t: nat, path: Parts :: from <= t ==> Look(env, t, path) == Look(env, from, path))
    && (forall t: nat, ino: nat :: from <= t ==> InodeAt(env, t, ino) == InodeAt(env, from, ino))
    && (forall t: nat, bytes: Bytes :: from <= t ==> Stored(env, t, bytes) == bytes)
  }

  ghost predicate Calm(env: Env) {
    CalmFrom(env, 0)
  }

  lemma {:induction false} CalmLater(env: Env, from: nat, later: nat)
    requires CalmFrom(env, from) && from <= later
    ensures CalmFrom(env, later)
  {
    assert forall path: Parts :: Look(env, later, path) == Look(env, from, path);
    assert forall ino: nat :: InodeAt(env, later, ino) == InodeAt(env, from, ino);
  }

  lemma {:induction false} CalmSooner(env: Env, from: nat, until: nat, sooner: nat)
    requires CalmDuring(env, from, until) && sooner <= until
    ensures CalmDuring(env, from, sooner)
  {
  }

  /** The worker's `identity`. */
  datatype Identity = Identity(ino: nat, size: nat, stamp: nat)

  function IdentityAt(env: Env, t: nat, ino: nat): Identity {
    Identity(ino, |InodeAt(env, t, ino).bytes|, InodeAt(env, t, ino).stamp)
  }

  ghost predicate StampIsNew(env: Env, t: nat, ino: nat) {
    forall s: nat :: s < t ==> InodeAt(env, s, ino).stamp != InodeAt(env, t, ino).stamp
  }

  ghost predicate KeptOrRewritten(env: Env, t: nat, ino: nat) {
    InodeAt(env, t + 1, ino) == InodeAt(env, t, ino) || StampIsNew(env, t + 1, ino)
  }

  /** Every write to a file gives it a stamp it never had before. */
  ghost predicate FreshWrites(env: Env) {
    forall t: nat, ino: nat :: KeptOrRewritten(env, t, ino)
  }

  ghost predicate Unchanged(env: Env, ino: nat, a: nat, b: nat) {
    forall t: nat :: a <= t <= b ==> InodeAt(env, t, ino) == InodeAt(env, a, ino)
  }

  /** Two equal stamps pin the content down at every instant between them. */
  lemma {:induction false} SameStampUnchanged(env: Env, ino: nat, a: nat, b: nat)
    requires FreshWrites(env) && a <= b
    requires InodeAt(env, a, ino).stamp == InodeAt(env, b, ino).stamp
    ensures Unchanged(env, ino, a, b)
    decreases b
  {
    if a == b {
    } else {
      assert KeptOrRewritten(env, b - 1, ino);
      SameStampUnchanged(env, ino, a, b - 1);
    }
  }

  // ---- the plan ----

  datatype Item = Item(name: string, source: string, relativePath: string, size: Option<nat>, sha: Option<Digest>)

  /** `destination` is the absolute path of the directory to create, `sourceRoot` that of the sources. */
  datatype Plan = Plan(version: int, sourceRoot: Parts, destination: Parts, items: seq<Item>, maximum: int)

  datatype Admitted = Admitted(item: Item, source: Parts, output: Parts, before: Identity, at: nat)

  datatype Row = Row(name: string, relativePath: string, sha: Digest, size: nat)

  datatype Entry = Dir | Payload(bytes: Bytes) | Manifest(rows: seq<Row>, total: nat) | Marker(rows: seq<Row>)

  /** The file system that holds the destination, as absolute paths. */
  class Store {
    var tree: map<Parts, Entry>

    ghost predicate Valid()
      reads this
    {
      WellFormed(tree)
    }

    constructor ()
      ensures Valid() && tree == map[[] := Dir]
    {
      tree := map[[] := Dir];
    }
  }

  /** Everything lies in directories. */
  ghost predicate WellFormed(tree: map<Parts, Entry>) {
    forall p: Parts, k: nat :: p in tree && k < |p| ==> p[..k] in tree && tree[p[..k]] == Dir
  }

  /** Refused: before the destination was created.  `marked` tells whether the incomplete marker of
      a failed attempt could be written. */
  datatype Outcome = Refused | Complete(rows: seq<Row>, total: nat) | Failed(rows: seq<Row>, marked: bool)

  // ---- admission ----

  predicate ReservedName(output: Parts) {
    Render(output) == MANIFEST || Render(output) == INCOMPLETE
  }

  predicate PlanShapeOk(plan: Plan) {
    plan.version == 1 && 0 < |plan.items| <= 4096 && 0 < plan.maximum <= MAX_BYTES
  }

  function OutputOf(item: Item): Parts {
    var output := Relative(item.relativePath);
    if output.Some? then output.value else []
  }

  function SourceOf(item: Item): Parts {
    var source := Relative(item.source);
    if source.Some? then source.value else []
  }

  function SizeAt(env: Env, item: Item, t: nat): nat {
    var node := Look(env, t, SourceOf(item));
    if node.Regular? then |InodeAt(env, t, node.ino).bytes| else 0
  }

  /** One inventory item on its own, judged at instant `t`. */
  predicate ItemOk(env: Env, item: Item, t: nat) {
    && item.name != ""
    && Relative(item.relativePath).Some? && !ReservedName(OutputOf(item))
    && Relative(item.source).Some?
    && !Fault(env, t)
    && Look(env, t, SourceOf(item)).Regular?
    && (item.size.Some? ==> item.size.value == SizeAt(env, item, t))
  }

  /** Names of the first `n` items. */
  function Names(items: seq<Item>, n: nat): set<string>
    requires n <= |items|
  {
    if n == 0 then {} else Names(items, n - 1) + {items[n - 1].name}
  }

  /** Output paths of the first `n` items. */
  function Outputs(items: seq<Item>, n: nat): set<Parts>
    requires n <= |items|
  {
    if n == 0 then {} else Outputs(items, n - 1) + {OutputOf(items[n - 1])}
  }

  /** Item k is judged at instant k. */
  function TotalAt(env: Env, items: seq<Item>, n: nat): nat
    requires n <= |items|
  {
    if n == 0 then 0 else TotalAt(env, items, n - 1) + SizeAt(env, items[n - 1], n - 1)
  }

  /** The first `n` items are fine on their own, differ in name and in output path, and fit. */
  predicate Admissible(env: Env, items: seq<Item>, maximum: int, n: nat)
    requires n <= |items|
  {
    n == 0 ||
    (&& Admissible(env, items, maximum, n - 1)
     && ItemOk(env, items[n - 1], n - 1)
     && items[n - 1].name !in Names(items, n - 1)
     && OutputOf(items[n - 1]) !in Outputs(items, n - 1)
     && TotalAt(env, items, n) <= maximum)
  }

  lemma {:induction false} AdmissibleEarlier(env: Env, items: seq<Item>, maximum: int, m: nat, n: nat)
    requires m <= n <= |items| && Admissible(env, items, maximum, n)
    ensures Admissible(env, items, maximum, m)
    decreases n
  {
    hide ItemOk, Names, Outputs, TotalAt, OutputOf;
    if m == n {
    } else {
      AdmissibleEarlier(env, items, maximum, m, n - 1);
    }
  }

  ghost predicate AdmittedFrom(env: Env, item: Item, a: Admitted) {
    && a.item == item
    && Relative(item.source) == Some(a.source)
    && Relative(item.relativePath) == Some(a.output) && !ReservedName(a.output)
    && Look(env, a.at, a.source) == Regular(a.before.ino)
    && IdentityAt(env, a.at, a.before.ino) == a.before
    && (item.size.Some? ==> item.size.value == a.before.size)
  }

  function SumSizes(admitted: seq<Admitted>): nat {
    if admitted == [] then 0 else SumSizes(admitted[..|admitted| - 1]) + admitted[|admitted| - 1].before.size
  }

  /** One turn of the admission loop: the admitted entry, or a refusal. */
  function AdmitItem(env: Env, item: Item, t: nat): (a: Option<Admitted>)
    ensures a.Some? <==> ItemOk(env, item, t)
    ensures a.Some? ==>
        AdmittedFrom(env, item, a.value) && a.value.at == t && a.value.before.size == SizeAt(env, item, t)
  {
    var output, source := Relative(item.relativePath), Relative(item.source);
    if item.name == "" || output.None? || ReservedName(output.value) || source.None? || Fault(env, t) then None
    else
      var node := Look(env, t, source.value);
      if !node.Regular? then None
      else
        var before := IdentityAt(env, t, node.ino);
        if item.size.Some? && item.size.value != before.size then None
        else Some(Admitted(item, source.value, output.value, before, t))
  }

  lemma {:induction false} NothingAdmitted(env: Env, items: seq<Item>, maximum: int)
    ensures Admissible(env, items, maximum, 0) && Names(items, 0) == {} && Outputs(items, 0) == {}
    ensures TotalAt(env, items, 0) == SumSizes([]) == 0
  {
  }

  lemma {:induction false} AdmissibleStep(env: Env, items: seq<Item>, maximum: int, i: nat)
    requires i < |items| && Admissible(env, items, maximum, i)
    ensures Names(items, i + 1) == Names(items, i) + {items[i].name}
    ensures Outputs(items, i + 1) == Outputs(items, i) + {OutputOf(items[i])}
    ensures TotalAt(env, items, i + 1) == TotalAt(env, items, i) + SizeAt(env, items[i], i)
    ensures Admissible(env, items, maximum, i + 1) <==>
            && ItemOk(env, items[i], i) && items[i].name !in Names(items, i) && OutputOf(items[i]) !in Outputs(items, i)
            && TotalAt(env, items, i + 1) <= maximum
  {
    hide ItemOk, OutputOf, SizeAt;
  }

  lemma {:induction false} SumOneMore(admitted: seq<Admitted>, a: Admitted)
    ensures SumSizes(admitted + [a]) == SumSizes(admitted) + a.before.size
  {
    assert (admitted + [a])[..|admitted|] == admitted;
  }

  /** The whole inventory is judged before anything is created. */
  method Admit(plan: Plan, env: Env) returns (ok: bool, admitted: seq<Admitted>, total: nat)
    ensures ok <==> PlanShapeOk(plan) && Admissible(env, plan.items, plan.maximum, |plan.items|)
    ensures ok ==> |admitted| == |plan.items| && total == SumSizes(admitted) <= plan.maximum
    ensures ok ==> forall i :: 0 <= i < |admitted| ==>
        AdmittedFrom(env, plan.items[i], admitted[i]) && admitted[i].at == i
  {
    hide ItemOk, AdmittedFrom, Relative, OutputOf, SizeAt, ReservedName, Names, Outputs, Admissible, TotalAt, SumSizes;
    ok, admitted, total := false, [], 0;
    if !PlanShapeOk(plan) { return; }
    var items := plan.items;
    var names: set<string>, paths: set<Parts> := {}, {};
    NothingAdmitted(env, items, plan.maximum);
    for i := 0 to |items|
      invariant |admitted| == i && Admissible(env, items, plan.maximum, i)
      invariant total == SumSizes(admitted) == TotalAt(env, items, i)
      invariant names == Names(items, i) && paths == Outputs(items, i) && (i > 0 ==> total <= plan.maximum)
      invariant forall k :: 0 <= k < i ==> AdmittedFrom(env, items[k], admitted[k]) && admitted[k].at == k
    {
      var a := AdmitItem(env, items[i], i);
      var output := OutputOf(items[i]);
      AdmissibleStep(env, items, plan.maximum, i);
      if a.None? || items[i].name in names || output in paths || total + a.value.before.size > plan.maximum {
        if Admissible(env, items, plan.maximum, |items|) {
          AdmissibleEarlier(env, items, plan.maximum, i + 1, |items|);
        }
        return;
      }
      names, paths, total := names + {items[i].name}, paths + {output}, total + a.value.before.size;
      assert (admitted + [a.value])[..i] == admitted;
      SumOneMore(admitted, a.value);
      admitted := admitted + [a.value];
    }
    ok := true;
  }

  // ---- copying ----

  /** What one `read(CHUNK)` returns from a reader that has delivered `offset` bytes. */
  function Chunk(bytes: Bytes, offset: nat): Bytes {
    if offset >= |bytes| then []
    else if offset + CHUNK < |bytes| then bytes[offset..offset + CHUNK]
    else bytes[offset..]
  }

  /** While the world is calm every instant is like the first. */
  lemma {:induction false} CalmNow(env: Env, from: nat, until: nat, ino: nat, start: nat, now: nat)
    requires CalmDuring(env, from, until) && from <= start <= now <= until
    ensures !Fault(env, now) && Unchanged(env, ino, start, now)
    ensures InodeAt(env, now, ino) == InodeAt(env, start, ino) == InodeAt(env, from, ino)
  {
    assert InodeAt(env, start, ino) == InodeAt(env, from, ino);
  }

  /** The chunk loop.  What it delivers is the file itself whenever nobody wrote to it meanwhile. */
  method ReadChunks(env: Env, ino: nat, size: nat, start: nat, ghost from: nat)
    returns (ok: bool, copied: Bytes, now: nat)
    requires from <= start
    ensures start <= now <= start + size + 1
    ensures ok && Unchanged(env, ino, start, now) ==> copied == InodeAt(env, start, ino).bytes
    ensures ok && Unchanged(env, ino, start, now) ==> |copied| <= size
    ensures CalmDuring(env, from, start + size + 1) && |InodeAt(env, start, ino).bytes| <= size ==> ok
  {
    hide CalmDuring;
    ok, copied, now := false, [], start;
    while true
      invariant start <= now <= start + |copied| && |copied| <= size
      invariant Unchanged(env, ino, start, now) ==> copied <= InodeAt(env, start, ino).bytes
      decreases size - |copied|
    {
      now := now + 1;
      if CalmDuring(env, from, start + size + 1) { CalmNow(env, from, start + size + 1, ino, start, now); }
      if Fault(env, now) { return; }
      var block := Chunk(InodeAt(env, now, ino).bytes, |copied|);
      if block == [] { break; }
      if |copied| + |block| > size { return; }
      copied := copied + block;
    }
    ok := true;
  }

  /** Directories between the destination and an output file. */
  function Parents(final: Parts, output: Parts): set<Parts> {
    set k | 0 < k < |output| :: final + output[..k]
  }

  function WithParents(tree: map<Parts, Entry>, final: Parts, output: Parts): map<Parts, Entry> {
    map p | p in tree.Keys + Parents(final, output) :: if p in tree then tree[p] else Dir
  }

  /** The output lies in a directory of this name. */
  predicate Under(output: Parts, name: string) {
    |output| >= 2 && output[0] == name
  }

  /** Something that is no directory stands in the way. */
  predicate Obstructed(tree: map<Parts, Entry>, final: Parts, output: Parts) {
    exists p :: p in Parents(final, output) && p in tree && tree[p] != Dir
  }

  /** The output is a path of its own: it neither contains nor lies in an earlier one. */
  predicate Placeable(output: Parts, earlier: seq<Parts>) {
    output != [] && forall j :: 0 <= j < |earlier| ==> !(earlier[j] <= output) && !(output <= earlier[j])
  }

  /** Below the destination there are the files of these outputs, and the directories they need. */
  ghost predicate LaidBelow(tree: map<Parts, Entry>, final: Parts, outputs: seq<Parts>) {
    && (forall j :: 0 <= j < |outputs| ==> final + outputs[j] in tree && tree[final + outputs[j]] != Dir)
    && forall rest: Parts :: rest != [] && final + rest in tree ==> Needed(rest, outputs, tree[final + rest] == Dir)
  }

  ghost predicate Needed(rest: Parts, outputs: seq<Parts>, directory: bool) {
    exists j :: 0 <= j < |outputs| && rest <= outputs[j] && (!directory ==> rest == outputs[j])
  }

  /** Nothing that was there is touched and everything new lies inside the destination. */
  ghost predicate Extends(before: map<Parts, Entry>, after: map<Parts, Entry>, final: Parts) {
    && (forall p :: p in before ==> p in after && after[p] == before[p])
    && (forall p :: p in after && p !in before ==> final < p)
  }

  /** From admission to `until` the source path named one file and that file held `bytes`. */
  ghost predicate Snapshot(env: Env, a: Admitted, bytes: Bytes, until: nat) {
    && a.at <= until
    && Look(env, a.at, a.source) == Regular(a.before.ino)
    && Look(env, until, a.source) == Regular(a.before.ino)
    && forall t: nat :: a.at <= t <= until ==> InodeAt(env, t, a.before.ino).bytes == bytes
  }

  /** The row describes the retained file, which has the digest the inventory declared. */
  ghost predicate Retained(tree: map<Parts, Entry>, final: Parts, a: Admitted, row: Row) {
    && final + a.output in tree && tree[final + a.output] == Payload(row.sha.preimage)
    && row == Row(a.item.name, Render(a.output), row.sha, |row.sha.preimage|)
    && row.size == a.before.size
    && (a.item.sha.Some? ==> a.item.sha.value == row.sha)
  }

  /** At this instant the source is the admitted one, with the declared digest if there is one. */
  predicate Intact(env: Env, a: Admitted, from: nat) {
    && Look(env, from, a.source) == Regular(a.before.ino) && IdentityAt(env, from, a.before.ino) == a.before
    && (a.item.sha.Some? ==> a.item.sha.value == Sha256(InodeAt(env, from, a.before.ino).bytes))
  }

  lemma {:induction false} CalmTransfer(env: Env, a: Admitted, from: nat, until: nat)
    requires CalmDuring(env, from, until)
    ensures forall t: nat :: from <= t <= until ==> !Fault(env, t)
    ensures forall t: nat, ino: nat :: from <= t <= until ==> InodeAt(env, t, ino) == InodeAt(env, from, ino)
    ensures forall t: nat :: from <= t <= until ==> Look(env, t, a.source) == Look(env, from, a.source)
    ensures forall t: nat, bytes: Bytes :: from <= t <= until ==> Stored(env, t, bytes) == bytes
  {
  }

  /** From the first `fstat` of the opened source to the digest: what an unfailing transfer has read
      is one snapshot of the source, the one that was admitted. */
  method Transfer(env: Env, a: Admitted, reader: nat, start: nat, ghost from: nat)
    returns (ok: bool, copied: Bytes, now: nat, ghost until: nat)
    requires a.at <= start && from <= start
    requires IdentityAt(env, a.at, a.before.ino) == a.before && Look(env, a.at, a.source) == Regular(a.before.ino)
    ensures start <= until <= now <= start + a.before.size + 5
    ensures ok ==> |copied| == a.before.size && (a.item.sha.Some? ==> a.item.sha.value == Sha256(copied))
    ensures ok && FreshWrites(env) ==> Snapshot(env, a, copied, until)
    ensures CalmDuring(env, from, start + a.before.size + 5) ==>
      && (ok <==> reader == a.before.ino && Intact(env, a, from))
      && (ok ==> copied == InodeAt(env, from, a.before.ino).bytes)
  {
    hide CalmDuring, FreshWrites;
    ghost var end := start + a.before.size + 5;
    if CalmDuring(env, from, end) {
      CalmTransfer(env, a, from, end);
      CalmSooner(env, from, end, start + 1 + a.before.size + 1);
    }
    ok, copied, now, until := false, [], start + 1, start;
    if Fault(env, now) || IdentityAt(env, now, reader) != a.before { return; }
    var first := now;
    ok, copied, now := ReadChunks(env, reader, a.before.size, first, from);
    if CalmDuring(env, from, end) { CalmNow(env, from, end, reader, first, now); }
    if !ok { return; }
    ok, now := false, now + 2;
    if Fault(env, now - 1) || Fault(env, now) || IdentityAt(env, now, reader) != a.before { return; }
    now := now + 1;
    var node := Look(env, now, a.source);
    if Fault(env, now) || !node.Regular? || IdentityAt(env, now, node.ino) != a.before { return; }
    until := now;
    if FreshWrites(env) { SameStampUnchanged(env, a.before.ino, a.at, until); }
    ok := |copied| == a.before.size && (a.item.sha.Some? ==> a.item.sha.value == Sha256(copied));
  }

  lemma {:induction false} MarkerName(final: Parts, output: Parts)
    ensures final + [INCOMPLETE] in Parents(final, output) <==> Under(output, INCOMPLETE)
    ensures final + output == final + [INCOMPLETE] ==> output == [INCOMPLETE]
    ensures forall p :: p in Parents(final, output) ==> final < p
  {
    if final + [INCOMPLETE] in Parents(final, output) {
      var k :| 0 < k < |output| && final + [INCOMPLETE] == final + output[..k];
      assert (final + [INCOMPLETE])[|final|..] == (final + output[..k])[|final|..];
      assert output[..k][0] == INCOMPLETE;
    }
    if Under(output, INCOMPLETE) {
      assert output[..1] == [INCOMPLETE];
    }
    if final + output == final + [INCOMPLETE] {
      assert (final + output)[|final|..] == (final + [INCOMPLETE])[|final|..];
    }
  }

  function ParentOf(p: Parts): Parts
    requires p != []
  {
    p[..|p| - 1]
  }

  /** Creating a file in an existing directory. */
  lemma {:induction false} FileWellFormed(tree: map<Parts, Entry>, p: Parts, entry: Entry)
    requires WellFormed(tree) && p != [] && p !in tree
    requires ParentOf(p) in tree && tree[ParentOf(p)] == Dir
    ensures WellFormed(tree[p := entry])
  {
    var after := tree[p := entry];
    forall q: Parts, k: nat | q in after && k < |q|
      ensures q[..k] in after && after[q[..k]] == Dir
    {
      if q == p {
        if k < |p| - 1 { assert ParentOf(p)[..k] == p[..k]; }
      } else {
        assert q[..k] in tree;
      }
    }
  }

  /** Creating the missing directories of an output path. */
  lemma {:induction false} ParentsWellFormed(tree: map<Parts, Entry>, final: Parts, output: Parts)
    requires WellFormed(tree) && final in tree && tree[final] == Dir
    requires forall p :: p in Parents(final, output) && p in tree ==> tree[p] == Dir
    ensures WellFormed(WithParents(tree, final, output))
    ensures output != [] ==> var q := final + ParentOf(output);
              q in WithParents(tree, final, output) && WithParents(tree, final, output)[q] == Dir
  {
    var after := WithParents(tree, final, output);
    forall p: Parts, k: nat | p in after && k < |p|
      ensures p[..k] in after && after[p[..k]] == Dir
    {
      if p !in tree {
        var n :| 0 < n < |output| && p == final + output[..n];
        if k <= |final| {
          assert p[..k] == final[..k];
          if k == |final| { assert final[..k] == final; }
        } else {
          assert p[..k] == final + output[..k - |final|];
        }
      }
    }
    if output != [] {
      if |output| == 1 { assert final + ParentOf(output) == final; }
      else { assert ParentOf(output) == output[..|output| - 1]; }
    }
  }

  /** Which outputs find a free place among those already laid out. */
  lemma {:induction false} FreePlace(tree: map<Parts, Entry>, final: Parts, output: Parts, earlier: seq<Parts>)
    requires WellFormed(tree) && final in tree && tree[final] == Dir && LaidBelow(tree, final, earlier)
    ensures Placeable(output, earlier) <==>
            !Obstructed(tree, final, output) && final + output !in WithParents(tree, final, output)
  {
    hide LaidBelow;
    NotAParent(final, output);
    if Placeable(output, earlier) {
      PlaceIsFree(tree, final, output, earlier);
    } else {
      PlaceIsTaken(tree, final, output, earlier);
    }
  }

  lemma {:induction false} NotAParent(final: Parts, output: Parts)
    ensures final + output !in Parents(final, output)
  {
    assert forall k :: 0 < k < |output| ==> |final + output[..k]| < |final + output|;
  }

  lemma {:induction false} NotNeeded(output: Parts, k: nat, earlier: seq<Parts>, directory: bool)
    requires Placeable(output, earlier) && k <= |output|
    ensures k == |output| || !directory ==> !Needed(output[..k], earlier, directory)
  {
    assert output[..k] <= output;
    assert output[..|output|] == output;
  }

  lemma {:induction false} PlaceIsFree(tree: map<Parts, Entry>, final: Parts, output: Parts, earlier: seq<Parts>)
    requires LaidBelow(tree, final, earlier) && Placeable(output, earlier)
    ensures !Obstructed(tree, final, output) && final + output !in tree
  {
    hide Placeable, Needed;
    NotNeeded(output, |output|, earlier, true);
    NotNeeded(output, |output|, earlier, false);
    assert output[..|output|] == output != [] by { PlaceableIsNonempty(output, earlier); }
    forall k | 0 < k < |output| && final + output[..k] in tree
      ensures tree[final + output[..k]] == Dir
    {
      NotNeeded(output, k, earlier, false);
      assert output[..k] != [];
    }
  }

  lemma {:induction false} PlaceableIsNonempty(output: Parts, earlier: seq<Parts>)
    requires Placeable(output, earlier)
    ensures output != []
  {
  }

  lemma {:induction false} PlaceIsTaken(tree: map<Parts, Entry>, final: Parts, output: Parts, earlier: seq<Parts>)
    requires WellFormed(tree) && final in tree && tree[final] == Dir && LaidBelow(tree, final, earlier)
    requires !Placeable(output, earlier)
    ensures Obstructed(tree, final, output) || final + output in tree
  {
    assert final + [] == final;
    if output != [] {
      var j :| 0 <= j < |earlier| && (earlier[j] <= output || output <= earlier[j]);
      var e := earlier[j];
      if e <= output && |e| < |output| {
        assert output[..|e|] == e;
        assert final + e in Parents(final, output);
      } else if e == output {
      } else {
        assert (final + e)[..|final + output|] == final + output;
      }
    }
  }

  lemma {:induction false} ObstructedMeans(tree: map<Parts, Entry>, final: Parts, output: Parts)
    ensures !Obstructed(tree, final, output) ==> forall p :: p in Parents(final, output) && p in tree ==> tree[p] == Dir
  {
  }

  /** One more output, laid out. */
  lemma {:induction false} LaidNext(tree: map<Parts, Entry>, final: Parts, output: Parts, earlier: seq<Parts>,
      bytes: Bytes)
    requires LaidBelow(tree, final, earlier) && Placeable(output, earlier)
    ensures LaidBelow(WithParents(tree, final, output)[final + output := Payload(bytes)], final, earlier + [output])
  {
    var after := WithParents(tree, final, output)[final + output := Payload(bytes)];
    var all := earlier + [output];
    forall j | 0 <= j < |all|
      ensures final + all[j] in after && after[final + all[j]] != Dir
    {
      if j < |earlier| { assert final + earlier[j] in tree; }
    }
    forall rest: Parts | rest != [] && final + rest in after
      ensures Needed(rest, all, after[final + rest] == Dir)
    {
      if final + rest == final + output {
        SameRest(final, rest, output);
        assert all[|earlier|] == output;
      } else if final + rest in tree {
        assert Needed(rest, earlier, tree[final + rest] == Dir);
        var j :| 0 <= j < |earlier| && rest <= earlier[j] && (tree[final + rest] != Dir ==> rest == earlier[j]);
        assert all[j] == earlier[j];
      } else {
        var k :| 0 < k < |output| && final + rest == final + output[..k];
        SameRest(final, rest, output[..k]);
        assert all[|earlier|] == output;
      }
    }
  }

  lemma {:induction false} SameRest(final: Parts, a: Parts, b: Parts)
    requires final + a == final + b
    ensures a == b
  {
    assert (final + a)[|final|..] == a;
    assert (final + b)[|final|..] == b;
  }

  /** What making the directories of an output adds. */
  lemma {:induction false} DirectoriesAdded(tree: map<Parts, Entry>, final: Parts, output: Parts)
    ensures var after := WithParents(tree, final, output);
      && Extends(tree, after, final)
      && (final + [INCOMPLETE] in after <==> final + [INCOMPLETE] in tree || Under(output, INCOMPLETE))
      && (final + [INCOMPLETE] in after && final + [INCOMPLETE] !in tree ==> after[final + [INCOMPLETE]] == Dir)
  {
    MarkerName(final, output);
  }

  lemma {:induction false} ExtendsItself(tree: map<Parts, Entry>, final: Parts)
    ensures Extends(tree, tree, final)
  {
  }

  lemma {:induction false} ExtendsByFile(before: map<Parts, Entry>, tree: map<Parts, Entry>, final: Parts,
      output: Parts, entry: Entry)
    requires Extends(before, tree, final) && output != [] && final + output !in tree
    ensures Extends(before, tree[final + output := entry], final)
  {
  }

  /** The retained file is, byte for byte, what the source holds at this instant. */
  ghost predicate Verbatim(env: Env, from: nat, tree: map<Parts, Entry>, final: Parts, a: Admitted) {
    final + a.output in tree && tree[final + a.output] == Payload(InodeAt(env, from, a.before.ino).bytes)
  }

  /** No copy takes more instants than its payload has bytes, and these. */
  const OVERHEAD: nat := 10

  /** The instant at which the copy of item n starts. */
  function Slot(env: Env, items: seq<Item>, n: nat): nat
    requires n <= |items|
  {
    |items| + 2 + n * OVERHEAD + TotalAt(env, items, n)
  }

  method CopyOne(store: Store, final: Parts, a: Admitted, env: Env, start: nat, ghost from: nat,
      ghost earlier: seq<Parts>)
    returns (row: Option<Row>, now: nat, ghost until: nat)
    requires store.Valid() && final in store.tree && store.tree[final] == Dir
    requires a.at <= start && from <= start && a.output != [INCOMPLETE] && LaidBelow(store.tree, final, earlier)
    requires IdentityAt(env, a.at, a.before.ino) == a.before && Look(env, a.at, a.source) == Regular(a.before.ino)
    modifies store
    ensures store.Valid() && Extends(old(store.tree), store.tree, final)
    ensures start + 3 <= now <= start + a.before.size + OVERHEAD
    ensures row.Some? ==> !Fault(env, start + 2)
    ensures row.Some? ==> Retained(store.tree, final, a, row.value)
    ensures row.Some? && FreshWrites(env) ==> Snapshot(env, a, row.value.sha.preimage, until)
    ensures final + [INCOMPLETE] in store.tree && final + [INCOMPLETE] !in old(store.tree)
            ==> Under(a.output, INCOMPLETE) && store.tree[final + [INCOMPLETE]] == Dir
    ensures row.Some? && Under(a.output, INCOMPLETE) ==> final + [INCOMPLETE] in store.tree
    // A copy is made only where there is a free place; in a calm world nothing else is needed but the admitted
    // source with the right digest.  The directories are made first, unless that fails.
    ensures row.Some? ==> Placeable(a.output, earlier) && LaidBelow(store.tree, final, earlier + [a.output])
    ensures CalmDuring(env, from, start + a.before.size + OVERHEAD) ==>
      && (row.Some? <==> Placeable(a.output, earlier) && Intact(env, a, from))
      && (row.Some? ==> Verbatim(env, from, store.tree, final, a))
    ensures !Fault(env, start + 1) && Under(a.output, INCOMPLETE) && !Obstructed(old(store.tree), final, a.output)
            ==> final + [INCOMPLETE] in store.tree
  {
    hide FreshWrites, Snapshot, WellFormed, CalmDuring, LaidBelow, Placeable;
    hide Obstructed, WithParents, Parents, Under;
    hide Extends, IdentityAt, Render;
    row, now, until := None, start + 3, start;
    var target := final + a.output;
    MarkerName(final, a.output);
    ExtendsItself(store.tree, final);
    DirectoriesAdded(store.tree, final, a.output);
    ObstructedMeans(store.tree, final, a.output);
    FreePlace(store.tree, final, a.output, earlier);
    ghost var end := start + a.before.size + OVERHEAD;
    if CalmDuring(env, from, end) {
      CalmTransfer(env, a, from, end);
      CalmSooner(env, from, end, start + 3 + a.before.size + 5);
    }
    if Fault(env, start + 1) || Obstructed(store.tree, final, a.output) { return; }
    ParentsWellFormed(store.tree, final, a.output);
    ghost var before := store.tree;
    store.tree := WithParents(store.tree, final, a.output);
    var source := Look(env, start + 2, a.source);
    if Fault(env, start + 2) || !source.Regular? || Fault(env, now) || target in store.tree { return; }
    assert a.output == [] ==> target == final;
    assert a.output != [] ==> ParentOf(target) == final + ParentOf(a.output);
    var ok: bool, copied: Bytes;
    ok, copied, now, until := Transfer(env, a, source.ino, now, from);
    var retained := Stored(env, now, copied);
    FileWellFormed(store.tree, target, Payload(retained));
    LaidNext(before, final, a.output, earlier, retained);
    ExtendsByFile(before, store.tree, final, a.output, Payload(retained));
    store.tree := store.tree[target := Payload(retained)];
    now := now + 2;
    if !ok || Fault(env, now - 1) || Sha256(retained) != Sha256(copied) || |retained| != |copied|
      || Fault(env, now) { return; }
    row := Some(Row(a.item.name, Render(a.output), Sha256(copied), |copied|));
  }

  // ---- the export ----

  /** Every row retains its admitted item, in inventory order. */
  ghost predicate RetainedPrefix(tree: map<Parts, Entry>, final: Parts, admitted: seq<Admitted>, rows: seq<Row>) {
    |rows| <= |admitted| && forall i :: 0 <= i < |rows| ==> Retained(tree, final, admitted[i], rows[i])
  }

  /** Every row's bytes are one snapshot of its admitted source. */
  ghost predicate SnapshotPrefix(env: Env, admitted: seq<Admitted>, rows: seq<Row>, until: seq<nat>) {
    |until| == |rows| <= |admitted| &&
    forall i :: 0 <= i < |rows| ==> Snapshot(env, admitted[i], rows[i].sha.preimage, until[i])
  }

  /** Some output of the first `n` items occupies the marker's name with a directory. */
  ghost predicate MarkerBlocked(items: seq<Item>, n: nat) {
    exists i :: 0 <= i < n && i < |items| && Under(OutputOf(items[i]), INCOMPLETE)
  }

  /** Everything before some output below the marker's name can be laid out, and so can its directories. */
  ghost predicate Blockable(items: seq<Item>) {
    exists i :: 0 <= i < |items| && Under(OutputOf(items[i]), INCOMPLETE) && Apart(items, i)
  }

  lemma {:induction false} RetainedStays(before: map<Parts, Entry>, after: map<Parts, Entry>, final: Parts,
      admitted: seq<Admitted>, rows: seq<Row>)
    requires RetainedPrefix(before, final, admitted, rows) && Extends(before, after, final)
    ensures RetainedPrefix(after, final, admitted, rows)
  {
  }

  lemma {:induction false} NothingBelow(tree: map<Parts, Entry>, final: Parts)
    requires WellFormed(tree) && final !in tree
    ensures forall rest: Parts :: final + rest !in tree
  {
    forall rest: Parts
      ensures final + rest !in tree
    {
      assert (final + rest)[..|final|] == final;
      assert rest == [] ==> final + rest == final;
    }
  }

  lemma {:induction false} AdmittedCanBeCopied(env: Env, item: Item, a: Admitted)
    requires AdmittedFrom(env, item, a)
    ensures a.output != [INCOMPLETE]
    ensures IdentityAt(env, a.at, a.before.ino) == a.before && Look(env, a.at, a.source) == Regular(a.before.ino)
  {
  }

  /** The handler of a failed attempt. */
  method Abandon(store: Store, final: Parts, rows: seq<Row>, env: Env, now: nat) returns (marked: bool)
    requires store.Valid() && final in store.tree && store.tree[final] == Dir
    requires final + [INCOMPLETE] in store.tree ==> store.tree[final + [INCOMPLETE]] == Dir
    modifies store
    ensures store.Valid()
    ensures marked <==> !Fault(env, now) && final + [INCOMPLETE] !in old(store.tree)
    ensures store.tree == if marked then old(store.tree)[final + [INCOMPLETE] := Marker(rows)] else old(store.tree)
  {
    marked := !Fault(env, now) && final + [INCOMPLETE] !in store.tree;
    assert ParentOf(final + [INCOMPLETE]) == final;
    if marked { FileWellFormed(store.tree, final + [INCOMPLETE], Marker(rows)); }
    if marked { store.tree := store.tree[final + [INCOMPLETE] := Marker(rows)]; }
  }

  /** A destination that does not exist, in a directory that does, apart from the sources. */
  predicate NewDestination(plan: Plan, tree: map<Parts, Entry>) {
    var final := plan.destination;
    && final != [] && ParentOf(final) in tree && tree[ParentOf(final)] == Dir && final !in tree
    && !(plan.sourceRoot <= final) && !(final <= plan.sourceRoot)
  }

  /** What is needed before anything is created.  The destination is judged and created in the two
      instants after the inventory. */
  predicate Acquirable(plan: Plan, env: Env, tree: map<Parts, Entry>) {
    && PlanShapeOk(plan) && Admissible(env, plan.items, plan.maximum, |plan.items|)
    && NewDestination(plan, tree)
    && !Fault(env, |plan.items| + 1) && !Fault(env, |plan.items| + 2)
  }

  /** Admission and the creation of a destination that did not exist. */
  method Acquire(store: Store, plan: Plan, env: Env) returns (ok: bool, admitted: seq<Admitted>, total: nat)
    requires store.Valid()
    modifies store
    ensures store.Valid()
    ensures ok <==> Acquirable(plan, env, old(store.tree))
    ensures !ok ==> store.tree == old(store.tree)
    ensures ok ==>
      && PlanShapeOk(plan) && Admissible(env, plan.items, plan.maximum, |plan.items|)
      && |admitted| == |plan.items| && total == SumSizes(admitted) <= plan.maximum
      && (forall i :: 0 <= i < |admitted| ==> AdmittedFrom(env, plan.items[i], admitted[i]) && admitted[i].at == i)
      && plan.destination !in old(store.tree) && store.tree == old(store.tree)[plan.destination := Dir]
      && (forall rest: Parts :: plan.destination + rest !in old(store.tree))
      && !(plan.sourceRoot <= plan.destination) && !(plan.destination <= plan.sourceRoot)
  {
    hide AdmittedFrom, Admissible, WellFormed, SumSizes;
    ok, admitted, total := Admit(plan, env);
    if !ok { return; }
    ok := false;
    var final, now := plan.destination, |plan.items| + 2;
    if final == [] || ParentOf(final) !in store.tree || store.tree[ParentOf(final)] != Dir { return; }
    if Fault(env, now - 1) || plan.sourceRoot <= final || final <= plan.sourceRoot { return; }
    if Fault(env, now) || final in store.tree { return; }
    NothingBelow(store.tree, final);
    FileWellFormed(store.tree, final, Dir);
    store.tree := store.tree[final := Dir];
    ok := true;
  }

  function OutputList(items: seq<Item>, n: nat): seq<Parts>
    requires n <= |items|
  {
    seq(n, i requires 0 <= i < n => OutputOf(items[i]))
  }

  /** The first `n` outputs can all be laid out. */
  predicate Apart(items: seq<Item>, n: nat)
    requires n <= |items|
  {
    n == 0 || (Apart(items, n - 1) && Placeable(OutputOf(items[n - 1]), OutputList(items, n - 1)))
  }

  /** The item declares no digest, or that of its source before the export. */
  predicate Declared(env: Env, item: Item) {
    var node := Look(env, 0, SourceOf(item));
    item.sha.Some? && node.Regular? ==> item.sha.value == Sha256(InodeAt(env, 0, node.ino).bytes)
  }

  predicate AllDeclared(env: Env, items: seq<Item>, n: nat)
    requires n <= |items|
  {
    forall i :: 0 <= i < n ==> Declared(env, items[i])
  }

  predicate NoneUnder(items: seq<Item>, name: string) {
    forall i :: 0 <= i < |items| ==> !Under(OutputOf(items[i]), name)
  }

  lemma {:induction false} ApartEarlier(items: seq<Item>, m: nat, n: nat)
    requires m <= n <= |items| && Apart(items, n)
    ensures Apart(items, m)
    ensures m < n ==> Placeable(OutputOf(items[m]), OutputList(items, m))
    decreases n
  {
    if m == n {
    } else {
      ApartEarlier(items, m, n - 1);
    }
  }

  /** From admission, item k at instant k, to `from` the source stayed as it was, and its digest is right. */
  predicate Kept(env: Env, items: seq<Item>, k: nat, from: nat)
    requires k < |items|
  {
    var node := Look(env, k, SourceOf(items[k]));
    && node.Regular? && Look(env, from, SourceOf(items[k])) == node
    && IdentityAt(env, from, node.ino) == IdentityAt(env, k, node.ino)
    && (items[k].sha.Some? ==> items[k].sha.value == Sha256(InodeAt(env, from, node.ino).bytes))
  }

  predicate AllKept(env: Env, items: seq<Item>, n: nat, from: nat)
    requires n <= |items|
  {
    forall k :: 0 <= k < n ==> Kept(env, items, k, from)
  }

  lemma {:induction false} KeptIsIntact(env: Env, items: seq<Item>, k: nat, a: Admitted, from: nat)
    requires k < |items| && AdmittedFrom(env, items[k], a) && a.at == k
    ensures Intact(env, a, from) <==> Kept(env, items, k, from)
    ensures a.output == OutputOf(items[k]) && a.output != [MANIFEST] && a.output != [INCOMPLETE]
  {
    hide Relative;
  }

  /** Where nobody ever touches the sources only the digest is in question. */
  lemma {:induction false} CalmIsKept(env: Env, items: seq<Item>, k: nat, from: nat)
    requires Calm(env) && k < |items| && ItemOk(env, items[k], k)
    ensures Kept(env, items, k, from) <==> Declared(env, items[k])
  {
    hide Relative, ReservedName, Render;
    assert Look(env, k, SourceOf(items[k])) == Look(env, 0, SourceOf(items[k])) == Look(env, from, SourceOf(items[k]));
    var ino := Look(env, 0, SourceOf(items[k])).ino;
    assert InodeAt(env, k, ino) == InodeAt(env, 0, ino) == InodeAt(env, from, ino);
  }

  lemma {:induction false} AllCalmAreKept(env: Env, items: seq<Item>, maximum: int, from: nat)
    requires Calm(env) && Admissible(env, items, maximum, |items|)
    ensures forall k :: 0 <= k < |items| ==> (Kept(env, items, k, from) <==> Declared(env, items[k]))
    ensures AllKept(env, items, |items|, from) <==> AllDeclared(env, items, |items|)
    ensures CalmFrom(env, from)
  {
    hide Calm, ItemOk, Kept, Declared, CalmFrom, Admissible;
    forall k | 0 <= k < |items|
      ensures Kept(env, items, k, from) <==> Declared(env, items[k])
    {
      AdmittedAlone(env, items, maximum, k);
      CalmIsKept(env, items, k, from);
    }
    CalmIsCalmFrom(env, from);
  }

  lemma {:induction false} AdmittedAlone(env: Env, items: seq<Item>, maximum: int, k: nat)
    requires k < |items| && Admissible(env, items, maximum, |items|)
    ensures ItemOk(env, items[k], k)
  {
    hide ItemOk, Names, Outputs, TotalAt, OutputOf;
    AdmissibleEarlier(env, items, maximum, k + 1, |items|);
  }

  lemma {:induction false} CalmIsCalmFrom(env: Env, from: nat)
    requires Calm(env)
    ensures CalmFrom(env, from)
  {
    CalmLater(env, 0, from);
  }

  lemma {:induction false} AdmittedOutput(env: Env, item: Item, a: Admitted)
    requires AdmittedFrom(env, item, a)
    ensures a.output == OutputOf(item) && a.output != [MANIFEST]
  {
    hide Relative;
  }

  lemma {:induction false} NothingLaid(tree: map<Parts, Entry>, final: Parts)
    requires forall rest: Parts :: final + rest !in tree
    ensures LaidBelow(tree[final := Dir], final, [])
  {
    forall rest: Parts | rest != []
      ensures final + rest !in tree[final := Dir]
    {
      assert |final + rest| > |final|;
    }
  }

  /** The manifest's name is free exactly when no output lies below it. */
  lemma {:induction false} ManifestFree(tree: map<Parts, Entry>, final: Parts, outputs: seq<Parts>)
    requires WellFormed(tree) && LaidBelow(tree, final, outputs)
    requires forall i :: 0 <= i < |outputs| ==> outputs[i] != [MANIFEST]
    ensures final + [MANIFEST] !in tree <==> forall i :: 0 <= i < |outputs| ==> !Under(outputs[i], MANIFEST)
  {
    if final + [MANIFEST] in tree {
      assert Needed([MANIFEST], outputs, tree[final + [MANIFEST]] == Dir);
    }
    forall i | 0 <= i < |outputs| && Under(outputs[i], MANIFEST)
      ensures final + [MANIFEST] in tree
    {
      assert (final + outputs[i])[..|final| + 1] == final + [MANIFEST];
    }
  }

  /** The first output below the marker's name finds no file in its way. */
  lemma {:induction false} FirstIsFree(tree: map<Parts, Entry>, final: Parts, output: Parts, earlier: seq<Parts>)
    requires LaidBelow(tree, final, earlier) && Under(output, INCOMPLETE)
    requires forall j :: 0 <= j < |earlier| ==> earlier[j] != [INCOMPLETE] && !Under(earlier[j], INCOMPLETE)
    ensures !Obstructed(tree, final, output)
  {
    forall k | 0 < k < |output| && final + output[..k] in tree
      ensures tree[final + output[..k]] == Dir
    {
      assert output[..k] != [] && output[..k][0] == INCOMPLETE;
      assert Needed(output[..k], earlier, tree[final + output[..k]] == Dir);
    }
  }

  lemma {:induction false} AdmittedSize(env: Env, item: Item, a: Admitted)
    requires AdmittedFrom(env, item, a)
    ensures SizeAt(env, item, a.at) == a.before.size
  {
    hide Relative;
  }

  /** What the copies so far say of the next one. */
  lemma {:induction false} NextCopy(env: Env, items: seq<Item>, admitted: seq<Admitted>, i: nat, from: nat,
      tree: map<Parts, Entry>, final: Parts)
    requires i < |items| == |admitted| && LaidBelow(tree, final, OutputList(items, i))
    requires forall k :: 0 <= k < |items| ==> AdmittedFrom(env, items[k], admitted[k]) && admitted[k].at == k
    ensures admitted[i].output == OutputOf(items[i]) && admitted[i].output != [INCOMPLETE]
    ensures IdentityAt(env, i, admitted[i].before.ino) == admitted[i].before
    ensures Look(env, i, admitted[i].source) == Regular(admitted[i].before.ino)
    ensures Intact(env, admitted[i], from) <==> Kept(env, items, i, from)
    ensures OutputList(items, i + 1) == OutputList(items, i) + [OutputOf(items[i])]
    ensures Slot(env, items, i + 1) == Slot(env, items, i) + admitted[i].before.size + OVERHEAD
    ensures Under(OutputOf(items[i]), INCOMPLETE) && !MarkerBlocked(items, i)
            ==> !Obstructed(tree, final, OutputOf(items[i]))
  {
    hide AdmittedFrom, Obstructed, LaidBelow, Kept, Intact, OutputOf, Under, SizeAt;
    KeptIsIntact(env, items, i, admitted[i], from);
    AdmittedSize(env, items[i], admitted[i]);
    AdmittedCanBeCopied(env, items[i], admitted[i]);
    forall k | 0 <= k < i
      ensures OutputList(items, i)[k] == OutputOf(items[k]) != [INCOMPLETE]
    {
      KeptIsIntact(env, items, k, admitted[k], from);
    }
    if Under(OutputOf(items[i]), INCOMPLETE) && !MarkerBlocked(items, i) {
      FirstIsFree(tree, final, OutputOf(items[i]), OutputList(items, i));
    }
  }

  /** No opening of the first `n` sources failed. */
  predicate Opened(env: Env, items: seq<Item>, n: nat)
    requires n <= |items|
  {
    forall k :: 0 <= k < n ==> !Fault(env, Slot(env, items, k) + 2)
  }

  /** Item k finds a free place, its source as admitted, and its digest right. */
  predicate Fits(env: Env, items: seq<Item>, k: nat)
    requires k < |items|
  {
    Placeable(OutputOf(items[k]), OutputList(items, k)) && Kept(env, items, k, |items|)
  }

  lemma {:induction false} FirstSlot(env: Env, items: seq<Item>)
    ensures Slot(env, items, 0) == |items| + 2
  {
  }

  lemma {:induction false} CalmSpan(env: Env, from: nat, until: nat)
    requires CalmFrom(env, from)
    ensures CalmDuring(env, from, until)
  {
  }

  ghost predicate VerbatimPrefix(env: Env, from: nat, tree: map<Parts, Entry>, final: Parts,
      admitted: seq<Admitted>, n: nat)
  {
    n <= |admitted| && forall k :: 0 <= k < n ==> Verbatim(env, from, tree, final, admitted[k])
  }

  lemma {:induction false} VerbatimStays(env: Env, from: nat, before: map<Parts, Entry>, after: map<Parts, Entry>,
      final: Parts, admitted: seq<Admitted>, n: nat)
    requires VerbatimPrefix(env, from, before, final, admitted, n) && Extends(before, after, final)
    ensures VerbatimPrefix(env, from, after, final, admitted, n)
  {
  }

  /** Copy the admitted items in order, each in its slot, until one fails. */
  method CopyAll(store: Store, final: Parts, admitted: seq<Admitted>, plan: Plan, env: Env)
    returns (rows: seq<Row>, now: nat, ghost until: seq<nat>)
    requires store.Valid() && final in store.tree && store.tree[final] == Dir && final + [INCOMPLETE] !in store.tree
    requires LaidBelow(store.tree, final, [])
    requires |admitted| == |plan.items|
    requires forall i :: 0 <= i < |admitted| ==> AdmittedFrom(env, plan.items[i], admitted[i]) && admitted[i].at == i
    modifies store
    ensures store.Valid() && Extends(old(store.tree), store.tree, final)
    ensures RetainedPrefix(store.tree, final, admitted, rows)
    ensures FreshWrites(env) ==> SnapshotPrefix(env, admitted, rows, until)
    ensures final + [INCOMPLETE] in store.tree ==> store.tree[final + [INCOMPLETE]] == Dir
    ensures final + [INCOMPLETE] in store.tree ==> MarkerBlocked(plan.items, |rows| + 1)
    ensures MarkerBlocked(plan.items, |rows|) ==> final + [INCOMPLETE] in store.tree
    ensures |rows| <= |admitted| && Apart(plan.items, |rows|)
    ensures |rows| == |admitted| ==> LaidBelow(store.tree, final, OutputList(plan.items, |rows|))
    ensures now >= Slot(env, plan.items, |rows|) && Opened(env, plan.items, |rows|)
    // The copy that failed.
    ensures |rows| < |admitted| ==>
      && now >= Slot(env, plan.items, |rows|) + 3
      && (MarkerBlocked(plan.items, |rows| + 1) ==>
            Fault(env, Slot(env, plan.items, |rows|) + 1) || final + [INCOMPLETE] in store.tree)
      && (CalmDuring(env, |plan.items|, Slot(env, plan.items, |rows| + 1)) ==> !Fits(env, plan.items, |rows|))
    // In a world that is calm once the inventory is admitted.
    ensures CalmFrom(env, |plan.items|) ==>
      && AllKept(env, plan.items, |rows|, |plan.items|)
      && VerbatimPrefix(env, |plan.items|, store.tree, final, admitted, |rows|)
  {
    hide AdmittedFrom, Snapshot, FreshWrites, WellFormed, Under, Retained, Slot;
    hide CalmFrom, CalmDuring, LaidBelow, Placeable, Kept, Intact, OutputOf, Obstructed, Verbatim;
    rows, until := [], [];
    now := |plan.items| + 2;
    var slot := now;
    ghost var from := |plan.items|;
    FirstSlot(env, plan.items);
    assert OutputList(plan.items, 0) == [];
    for i := 0 to |admitted|
      invariant Apart(plan.items, i) && LaidBelow(store.tree, final, OutputList(plan.items, i))
      invariant CalmFrom(env, from) ==> AllKept(env, plan.items, i, from)
      invariant CalmFrom(env, from) ==> VerbatimPrefix(env, from, store.tree, final, admitted, i)
      invariant store.Valid() && Extends(old(store.tree), store.tree, final)
      invariant |rows| == i && slot == now == Slot(env, plan.items, i) >= |admitted| && Opened(env, plan.items, i)
      invariant RetainedPrefix(store.tree, final, admitted, rows)
      invariant FreshWrites(env) ==> SnapshotPrefix(env, admitted, rows, until)
      invariant final + [INCOMPLETE] in store.tree ==> store.tree[final + [INCOMPLETE]] == Dir
      invariant final + [INCOMPLETE] in store.tree <==> MarkerBlocked(plan.items, i)
    {
      var row: Option<Row>;
      ghost var confirmed: nat, tree := 0, store.tree;
      NextCopy(env, plan.items, admitted, i, from, tree, final);
      row, now, confirmed := CopyOne(store, final, admitted[i], env, slot, from, OutputList(plan.items, i));
      RetainedStays(tree, store.tree, final, admitted, rows);
      if CalmFrom(env, from) {
        CalmSpan(env, from, Slot(env, plan.items, i + 1));
        VerbatimStays(env, from, tree, store.tree, final, admitted, i);
      }
      if row.None? { return; }
      rows, until := rows + [row.value], until + [confirmed];
      slot := slot + admitted[i].before.size + OVERHEAD;
      now := slot;
    }
  }

  /** The manifest is created, and the directory synced. */
  method WriteManifest(store: Store, final: Parts, rows: seq<Row>, total: nat, env: Env, now: nat, ghost from: nat)
    returns (ok: bool)
    requires store.Valid() && final in store.tree && store.tree[final] == Dir && from <= now
    modifies store
    ensures store.Valid() && Extends(old(store.tree), store.tree, final)
    ensures ok ==> final + [MANIFEST] !in old(store.tree)
    ensures ok ==> final + [MANIFEST] in store.tree && store.tree[final + [MANIFEST]] == Manifest(rows, total)
    ensures CalmDuring(env, from, now + 1) ==> (ok <==> final + [MANIFEST] !in old(store.tree))
    ensures forall p :: p in store.tree && p !in old(store.tree) ==> p == final + [MANIFEST]
  {
    hide CalmDuring, WellFormed;
    if CalmDuring(env, from, now + 1) {
      CalmNow(env, from, now + 1, 0, now, now);
      CalmNow(env, from, now + 1, 0, now, now + 1);
    }
    ok := !Fault(env, now) && final + [MANIFEST] !in store.tree;
    if ok {
      assert ParentOf(final + [MANIFEST]) == final;
      FileWellFormed(store.tree, final + [MANIFEST], Manifest(rows, total));
      store.tree := store.tree[final + [MANIFEST] := Manifest(rows, total)];
      ok := !Fault(env, now + 1);
    }
  }

  lemma {:induction false} MarkerIsNotManifest(final: Parts)
    ensures final + [INCOMPLETE] != final + [MANIFEST]
  {
    assert MANIFEST[7] != INCOMPLETE[7];
    assert (final + [INCOMPLETE])[|final|] != (final + [MANIFEST])[|final|];
  }

  /** What the copied rows say about the inventory. */
  lemma {:induction false} CopiedMeans(env: Env, items: seq<Item>, admitted: seq<Admitted>, rows: seq<Row>,
      tree: map<Parts, Entry>, final: Parts)
    requires |rows| <= |items| == |admitted| && WellFormed(tree)
    requires forall i :: 0 <= i < |items| ==> AdmittedFrom(env, items[i], admitted[i])
    requires |rows| == |items| ==> LaidBelow(tree, final, OutputList(items, |items|))
    ensures |rows| == |items| ==> (final + [MANIFEST] !in tree <==> NoneUnder(items, MANIFEST))
    ensures |rows| == |items| || Fits(env, items, |rows|)
      || !(Apart(items, |items|) && AllKept(env, items, |items|, |items|))
  {
    hide WellFormed, LaidBelow, Placeable, Kept, OutputOf, AdmittedFrom, Under;
    if |rows| == |items| {
      forall i | 0 <= i < |items|
        ensures OutputList(items, |items|)[i] != [MANIFEST]
      {
        AdmittedOutput(env, items[i], admitted[i]);
      }
      ManifestFree(tree, final, OutputList(items, |items|));
      assert forall i :: 0 <= i < |items| ==> OutputList(items, |items|)[i] == OutputOf(items[i]);
    } else if Apart(items, |items|) {
      ApartEarlier(items, |rows|, |items|);
    }
  }

  /** A blocked marker needs an output below its name, with everything before it laid out. */
  lemma {:induction false} BlockedIsBlockable(items: seq<Item>, n: nat)
    requires n <= |items| && Apart(items, n)
    ensures MarkerBlocked(items, n + 1) ==> Blockable(items) && !NoneUnder(items, INCOMPLETE)
  {
    hide Apart, OutputOf, Under;
    if MarkerBlocked(items, n + 1) {
      var i :| 0 <= i < n + 1 && i < |items| && Under(OutputOf(items[i]), INCOMPLETE);
      ApartEarlier(items, i, n);
    }
  }

  lemma {:induction false} SlotIsLater(env: Env, items: seq<Item>, n: nat)
    requires n <= |items|
    ensures Slot(env, items, n) >= |items| + 2
  {
  }

  /** What the handler of a calm world meets. */
  lemma {:induction false} CalmEnd(env: Env, items: seq<Item>, n: nat, now: nat)
    requires CalmFrom(env, |items|) && n <= |items| <= now
    ensures CalmDuring(env, |items|, now + 1) && !Fault(env, now + 2)
    ensures n == |items| ==> (MarkerBlocked(items, n + 1) <==> MarkerBlocked(items, n))
    ensures n < |items| ==>
              CalmDuring(env, |items|, Slot(env, items, n + 1)) && !Fault(env, Slot(env, items, n) + 1)
  {
    hide Slot;
    SlotIsLater(env, items, n);
  }

  /** Everything after the destination has been created. */
  method Attempt(store: Store, plan: Plan, work: seq<Admitted>, total: nat, env: Env)
    returns (r: Outcome, ghost until: seq<nat>, ghost handler: nat)
    requires store.Valid() && |work| == |plan.items|
    requires var final := plan.destination;
      && final in store.tree && store.tree[final] == Dir && final + [INCOMPLETE] !in store.tree
      && LaidBelow(store.tree, final, [])
    requires forall i :: 0 <= i < |work| ==> AdmittedFrom(env, plan.items[i], work[i]) && work[i].at == i
    modifies store
    ensures store.Valid() && Extends(old(store.tree), store.tree, plan.destination) && !r.Refused?
    ensures |r.rows| <= |work| && RetainedPrefix(store.tree, plan.destination, work, r.rows)
    ensures FreshWrites(env) ==> SnapshotPrefix(env, work, r.rows, until)
    ensures Apart(plan.items, |r.rows|)
    ensures CalmFrom(env, |plan.items|) ==>
      && VerbatimPrefix(env, |plan.items|, store.tree, plan.destination, work, |r.rows|)
      && (r.Complete? <==>
          Apart(plan.items, |plan.items|) && NoneUnder(plan.items, MANIFEST)
            && AllKept(env, plan.items, |plan.items|, |plan.items|))
    ensures r.Complete? ==>
      && r.total == total && |r.rows| == |work| && NoneUnder(plan.items, MANIFEST)
      && plan.destination + [MANIFEST] in store.tree
      && store.tree[plan.destination + [MANIFEST]] == Manifest(r.rows, r.total)
      && (plan.destination + [INCOMPLETE] in store.tree ==> store.tree[plan.destination + [INCOMPLETE]] == Dir)
    ensures r.Failed? && r.marked ==>
      && plan.destination + [INCOMPLETE] in store.tree
      && store.tree[plan.destination + [INCOMPLETE]] == Marker(r.rows)
      && !MarkerBlocked(plan.items, |r.rows|)
    ensures r.Failed? && !r.marked ==>
      || Fault(env, handler)
      || (MarkerBlocked(plan.items, |r.rows| + 1) && Blockable(plan.items) && !NoneUnder(plan.items, INCOMPLETE))
    ensures r.Failed? && r.marked ==> !Fault(env, handler)
    ensures Opened(env, plan.items, |r.rows|)
    ensures r.Failed? && |r.rows| < |plan.items| ==>
      && handler > Slot(env, plan.items, |r.rows|) + 2
      && (!Fault(env, Slot(env, plan.items, |r.rows|) + 1) && MarkerBlocked(plan.items, |r.rows| + 1) ==> !r.marked)
      && (CalmDuring(env, |plan.items|, Slot(env, plan.items, |r.rows| + 1)) ==> !Fits(env, plan.items, |r.rows|))
    ensures CalmFrom(env, |plan.items|) && r.Failed? ==>
      && !Fault(env, handler) && (r.marked <==> !MarkerBlocked(plan.items, |r.rows| + 1))
      && AllKept(env, plan.items, |r.rows|, |plan.items|)
      && (|r.rows| < |plan.items| ==> !Fits(env, plan.items, |r.rows|))
  {
    hide AdmittedFrom, SnapshotPrefix, FreshWrites, Kept, AllKept, VerbatimPrefix, Fits, Slot, Opened;
    hide WellFormed, MarkerBlocked, RetainedPrefix, CalmFrom, CalmDuring, Blockable;
    hide LaidBelow, Placeable, OutputOf, Apart, NoneUnder;
    handler := 0;
    var final := plan.destination;
    MarkerIsNotManifest(final);
    var rows: seq<Row>, now: nat;
    rows, now, until := CopyAll(store, final, work, plan, env);
    SlotIsLater(env, plan.items, |rows|);
    ghost var copied, from := store.tree, |plan.items|;
    now := now + 1;
    CopiedMeans(env, plan.items, work, rows, copied, final);
    BlockedIsBlockable(plan.items, |rows|);
    if CalmFrom(env, from) { CalmEnd(env, plan.items, |rows|, now); }
    if |rows| == |work| {
      var written := WriteManifest(store, final, rows, total, env, now, from);
      RetainedStays(copied, store.tree, final, work, rows);
      if CalmFrom(env, from) { VerbatimStays(env, from, copied, store.tree, final, work, |rows|); }
      if written {
        r := Complete(rows, total);
        return;
      }
    }
    now := now + 1;
    handler := now + 1;
    ghost var attempted := store.tree;
    var marked := Abandon(store, final, rows, env, now + 1);
    RetainedStays(attempted, store.tree, final, work, rows);
    if CalmFrom(env, from) { VerbatimStays(env, from, attempted, store.tree, final, work, |rows|); }
    r := Failed(rows, marked);
  }

  /** `admitted`, `until` and `handler` only name what the guarantees are about: the admission, the
      instant each snapshot was confirmed, and the instant the failure handler wrote its marker. */
  method Export(store: Store, plan: Plan, env: Env)
    returns (r: Outcome, ghost admitted: seq<Admitted>, ghost until: seq<nat>, ghost handler: nat)
    requires store.Valid()
    modifies store
    ensures store.Valid()
    // Refused before the destination exists: nothing at all has changed.
    ensures r.Refused? <==> !Acquirable(plan, env, old(store.tree))
    ensures r.Refused? ==> store.tree == old(store.tree)
    // Only an inventory whose outputs can all be laid out, beside the manifest, is ever completed.  In a world
    // that is calm once the inventory is admitted it is completed, with the bytes of its sources, if none of them
    // was touched before and their digests are right; otherwise the first item that does not fit fails.
    ensures r.Complete? ==> Apart(plan.items, |plan.items|) && NoneUnder(plan.items, MANIFEST)
    ensures CalmFrom(env, |plan.items|) && !r.Refused? ==>
      && VerbatimPrefix(env, |plan.items|, store.tree, plan.destination, admitted, |r.rows|)
      && (r.Complete? <==>
          Apart(plan.items, |plan.items|) && NoneUnder(plan.items, MANIFEST)
            && AllKept(env, plan.items, |plan.items|, |plan.items|))
    ensures Calm(env) && !r.Refused? ==>
      (r.Complete? <==>
       Apart(plan.items, |plan.items|) && NoneUnder(plan.items, MANIFEST) && AllDeclared(env, plan.items, |plan.items|))
    ensures r.Failed? ==> |r.rows| <= |plan.items| && Apart(plan.items, |r.rows|)
    ensures CalmFrom(env, |plan.items|) && r.Failed? ==>
      AllKept(env, plan.items, |r.rows|, |plan.items|)
        && (|r.rows| < |plan.items| ==> !Fits(env, plan.items, |r.rows|))
    ensures Calm(env) && r.Failed? && |r.rows| < |plan.items| ==>
      !Placeable(OutputOf(plan.items[|r.rows|]), OutputList(plan.items, |r.rows|))
        || !Declared(env, plan.items[|r.rows|])
    // In any world: the sources of all copied items could be opened; an item that fails in a world calm up to the
    // end of its slot does not fit; and a failure is unmarked if an output tried so far lies below the marker's
    // name, unless making its directories has failed.
    ensures r.Failed? ==> Opened(env, plan.items, |r.rows|)
    ensures r.Failed? && |r.rows| < |plan.items| ==>
      && handler > Slot(env, plan.items, |r.rows|) + 2
      && (!Fault(env, Slot(env, plan.items, |r.rows|) + 1) && MarkerBlocked(plan.items, |r.rows| + 1) ==> !r.marked)
      && (CalmDuring(env, |plan.items|, Slot(env, plan.items, |r.rows| + 1)) ==> !Fits(env, plan.items, |r.rows|))
    ensures r.Complete? ==> Opened(env, plan.items, |plan.items|)
    // Otherwise the whole inventory was admitted, the destination is new, and no earlier file is touched.
    ensures !r.Refused? ==>
      && PlanShapeOk(plan) && Admissible(env, plan.items, plan.maximum, |plan.items|)
      && |admitted| == |plan.items|
      && (forall i :: 0 <= i < |admitted| ==> AdmittedFrom(env, plan.items[i], admitted[i]))
      && plan.destination !in old(store.tree)
      && !(plan.sourceRoot <= plan.destination) && !(plan.destination <= plan.sourceRoot)
      && (forall p :: p in old(store.tree) ==> p in store.tree && store.tree[p] == old(store.tree)[p])
      && (forall p :: p in store.tree && p !in old(store.tree) ==> plan.destination <= p)
    // A normal return: everything is retained, and there is a manifest and no marker.
    ensures r.Complete? ==>
      && |r.rows| == |admitted| && RetainedPrefix(store.tree, plan.destination, admitted, r.rows)
      && r.total == SumSizes(admitted) <= plan.maximum
      && plan.destination + [MANIFEST] in store.tree
      && store.tree[plan.destination + [MANIFEST]] == Manifest(r.rows, r.total)
      && (plan.destination + [INCOMPLETE] in store.tree ==> store.tree[plan.destination + [INCOMPLETE]] == Dir)
    ensures r.Complete? && FreshWrites(env) ==> SnapshotPrefix(env, admitted, r.rows, until)
    // A failure: the rows are the verified prefix, and the marker lists exactly them unless its own
    // write failed or a directory of the inventory bears its name.
    ensures r.Failed? ==> RetainedPrefix(store.tree, plan.destination, admitted, r.rows)
    ensures r.Failed? && FreshWrites(env) ==> SnapshotPrefix(env, admitted, r.rows, until)
    ensures r.Failed? && r.marked ==>
      && plan.destination + [INCOMPLETE] in store.tree
      && store.tree[plan.destination + [INCOMPLETE]] == Marker(r.rows)
      && !MarkerBlocked(plan.items, |r.rows|)
    ensures r.Failed? && !r.marked ==> Fault(env, handler) || MarkerBlocked(plan.items, |r.rows| + 1)
    ensures r.Failed? && !r.marked ==> Fault(env, handler) || Blockable(plan.items)
    ensures CalmFrom(env, |plan.items|) && r.Failed? ==>
      !Fault(env, handler) && (r.marked <==> !MarkerBlocked(plan.items, |r.rows| + 1))
    ensures r.Failed? && NoneUnder(plan.items, INCOMPLETE) ==> (r.marked <==> !Fault(env, handler))
  {
    hide AdmittedFrom, SnapshotPrefix, FreshWrites, Admissible;
    hide WellFormed, MarkerBlocked, RetainedPrefix, SumSizes, IsControl, CalmFrom, Kept, AllKept, VerbatimPrefix;
    hide CalmDuring, Slot, Opened;
    hide Calm, LaidBelow, Placeable, Declared, OutputOf, Apart, NoneUnder, Acquirable, AllDeclared, Blockable;
    until, handler := [], 0;
    var ok: bool, total: nat, work: seq<Admitted>;
    ok, work, total := Acquire(store, plan, env);
    admitted := work;
    r := Refused;
    if !ok { return; }
    NothingLaid(old(store.tree), plan.destination);
    r, until, handler := Attempt(store, plan, work, total, env);
    if Calm(env) { AllCalmAreKept(env, plan.items, plan.maximum, |plan.items|); }
  }

  // ---- names that admission does not reserve ----

  /** An inventory of one source, retained in directories that bear the names of manifest and marker. */
  const AWKWARD: Plan :=
    Plan(1, ["s"], ["d"],
         [Item("one", "a", Render([INCOMPLETE, "x"]), None, None),
           Item("two", "a", Render([MANIFEST, "x"]), None, None)],
         MAX_BYTES)

  /** A world in which nothing fails or changes, with one source file. */
  const CALM: Env :=
    Env((t, path) => if path == ["a"] then Regular(0) else Missing,
        (t, ino) => Inode([1], 0),
        t => false,
        (t, bytes) => bytes)

  lemma {:induction false} PortableBelow(name: string)
    requires name == MANIFEST || name == INCOMPLETE
    ensures FileNames([name, "x"]) && PortableParts([name, "x"])
  {
    assert forall i :: 0 <= i < |name| ==> '-' <= name[i] <= 'z' && name[i] != '/';
  }

  lemma {:induction false} BelowReserved(name: string)
    requires name == MANIFEST || name == INCOMPLETE
    ensures Relative(Render([name, "x"])) == Some([name, "x"]) && !ReservedName([name, "x"])
  {
    hide Relative, FileNames, PortableParts, HasControl;
    var output := [name, "x"];
    PortableBelow(name);
    RelativeUndoesRender(output);
    assert Join(output[1..]) == "x";
    assert |Render(output)| == |name| + 2;
    assert MANIFEST[7] == 'm' && INCOMPLETE[7] == 'i';
    assert Render(output)[..|name|] == name;
  }

  lemma {:induction false} CalmWorld()
    ensures Calm(CALM)
    ensures forall t: nat :: Look(CALM, t, ["a"]) == Regular(0) && InodeAt(CALM, t, 0) == Inode([1], 0)
    ensures forall t: nat :: !Fault(CALM, t)
  {
  }

  /** Admission reserves the two names only as whole output paths: below either of them an output is
      admitted, and its directory then takes that name. */
  lemma {:induction false} MarkerCanBeBlocked(env: Env, t: nat, ino: nat, name: string, tree: map<Parts, Entry>,
      final: Parts)
    requires name == MANIFEST || name == INCOMPLETE
    requires !Fault(env, t) && Look(env, t, ["a"]) == Regular(ino)
    ensures var item := Item("a", "a", Render([name, "x"]), None, None);
      && ItemOk(env, item, t) && Under(OutputOf(item), name)
      && final + [name] in WithParents(tree, final, OutputOf(item))
  {
    hide Relative, Join, ReservedName;
    BelowReserved(name);
    SourceIsRelative();
    assert [name, "x"][..1] == [name];
  }

  lemma {:induction false} AwkwardItem(item: Item, name: string, t: nat)
    requires name == MANIFEST || name == INCOMPLETE
    requires item.name != "" && item == Item(item.name, "a", Render([name, "x"]), None, None)
    ensures ItemOk(CALM, item, t) && OutputOf(item) == [name, "x"] && SizeAt(CALM, item, t) == 1
  {
    hide Relative, ReservedName, Render, Calm;
    CalmWorld();
    BelowReserved(name);
    SourceIsRelative();
  }

  lemma {:induction false} AwkwardIsAdmitted()
    ensures Acquirable(AWKWARD, CALM, map[[] := Dir])
    ensures OutputOf(AWKWARD.items[0]) == [INCOMPLETE, "x"] && OutputOf(AWKWARD.items[1]) == [MANIFEST, "x"]
  {
    hide Relative, ReservedName, Render, ItemOk, OutputOf, SizeAt, Calm;
    var items := AWKWARD.items;
    CalmWorld();
    AwkwardItem(items[0], INCOMPLETE, 0);
    AwkwardItem(items[1], MANIFEST, 1);
    assert "one"[0] != "two"[0];
    assert MANIFEST[7] != INCOMPLETE[7];
    assert Names(items, 1) == {"one"} && Outputs(items, 1) == {[INCOMPLETE, "x"]};
    assert TotalAt(CALM, items, 1) == 1;
    assert TotalAt(CALM, items, 2) == TotalAt(CALM, items, 1) + SizeAt(CALM, items[1], 1);
    assert Admissible(CALM, items, MAX_BYTES, 1);
    assert [MANIFEST, "x"][0] != [INCOMPLETE, "x"][0];
    assert Admissible(CALM, items, MAX_BYTES, 2);
    assert ParentOf(["d"]) == [] && "s"[0] != "d"[0] && ["s"][0] != ["d"][0];
  }

  lemma {:induction false} SourceIsRelative()
    ensures Relative("a") == Some(["a"])
  {
    RelativeUndoesRender(["a"]);
  }

  /** A failed export that stays unmarked although nothing went wrong but its own layout: both payloads are
      retained, the manifest's name is taken by a directory, and so is the marker's. */
  method UnmarkedFailure() returns (store: Store, r: Outcome)
    ensures fresh(store) && r.Failed? && !r.marked && |r.rows| == 2
    ensures ["d", INCOMPLETE] in store.tree && store.tree[["d", INCOMPLETE]] == Dir
    ensures ["d", MANIFEST] in store.tree && store.tree[["d", MANIFEST]] == Dir
  {
    hide Calm, Acquirable, Admissible, OutputOf, Render, Apart, AllDeclared, NoneUnder, Placeable, Declared;
    hide MarkerBlocked, RetainedPrefix, SnapshotPrefix, AdmittedFrom, FreshWrites, WellFormed, SumSizes;
    store := new Store();
    CalmWorld();
    AwkwardIsAdmitted();
    AwkwardFits();
    ghost var admitted: seq<Admitted>, until: seq<nat>, handler: nat;
    r, admitted, until, handler := Export(store, AWKWARD, CALM);
    assert |r.rows| == 2;
    AwkwardOutcome(store.tree, admitted, r.rows);
    MarkerIsBlocked();
  }

  lemma {:induction false} MarkerIsBlocked()
    ensures MarkerBlocked(AWKWARD.items, 2)
  {
    hide OutputOf, Render, Calm, ReservedName;
    AwkwardIsAdmitted();
    assert Under(OutputOf(AWKWARD.items[0]), INCOMPLETE);
  }

  lemma {:induction false} AwkwardOutcome(tree: map<Parts, Entry>, admitted: seq<Admitted>, rows: seq<Row>)
    requires WellFormed(tree) && |admitted| == |rows| == 2 && RetainedPrefix(tree, ["d"], admitted, rows)
    requires AdmittedFrom(CALM, AWKWARD.items[0], admitted[0]) && AdmittedFrom(CALM, AWKWARD.items[1], admitted[1])
    ensures ["d", INCOMPLETE] in tree && tree[["d", INCOMPLETE]] == Dir
    ensures ["d", MANIFEST] in tree && tree[["d", MANIFEST]] == Dir
  {
    hide OutputOf, Render, Calm, ReservedName, AdmittedFrom;
    AwkwardIsAdmitted();
    AdmittedOutput(CALM, AWKWARD.items[0], admitted[0]);
    AdmittedOutput(CALM, AWKWARD.items[1], admitted[1]);
    assert Retained(tree, ["d"], admitted[0], rows[0]) && Retained(tree, ["d"], admitted[1], rows[1]);
    assert (["d"] + [INCOMPLETE, "x"])[..2] == ["d", INCOMPLETE];
    assert (["d"] + [MANIFEST, "x"])[..2] == ["d", MANIFEST];
  }

  lemma {:induction false} AwkwardFits()
    ensures Placeable(OutputOf(AWKWARD.items[0]), OutputList(AWKWARD.items, 0)) && Declared(CALM, AWKWARD.items[0])
    ensures Placeable(OutputOf(AWKWARD.items[1]), OutputList(AWKWARD.items, 1)) && Declared(CALM, AWKWARD.items[1])
    ensures !NoneUnder(AWKWARD.items, MANIFEST)
  {
    hide OutputOf, Calm, Acquirable, Render;
    assert Under([MANIFEST, "x"], MANIFEST);
    AwkwardIsAdmitted();
    assert MANIFEST[7] != INCOMPLETE[7];
    assert OutputList(AWKWARD.items, 1) == [[INCOMPLETE, "x"]];
  }

  // ---- when a failure can stay unmarked ----

  /** The same world, except that at this one instant the operation fails. */
  function Faulty(env: Env, at: nat): Env {
    env.(fault := (t: nat) => t == at || env.fault(t))
  }

  lemma {:induction false} FaultyMeans(env: Env, at: nat)
    ensures var world := Faulty(env, at);
      && (forall t: nat :: Fault(world, t) <==> t == at || Fault(env, t))
      && (forall t: nat, n: nat :: InodeAt(world, t, n) == InodeAt(env, t, n))
      && (forall t: nat, path: Parts :: Look(world, t, path) == Look(env, t, path))
      && (forall t: nat, bytes: Bytes :: Stored(world, t, bytes) == Stored(env, t, bytes))
  {
  }

  /** Before that instant it is as calm as it was, and it writes as the world it comes from. */
  lemma {:induction false} FaultyIsCalm(env: Env, at: nat, from: nat, until: nat)
    requires CalmFrom(env, from) && until < at
    ensures CalmDuring(Faulty(env, at), from, until)
    ensures FreshWrites(env) ==> FreshWrites(Faulty(env, at))
  {
    hide Faulty;
    FaultyMeans(env, at);
    if FreshWrites(env) {
      forall t: nat, ino: nat
        ensures KeptOrRewritten(Faulty(env, at), t, ino)
      {
        assert KeptOrRewritten(env, t, ino);
      }
    }
  }

  lemma {:induction false} FaultyIsAdmitted(env: Env, at: nat, items: seq<Item>, maximum: int, n: nat)
    requires n <= |items| <= at
    ensures TotalAt(Faulty(env, at), items, n) == TotalAt(env, items, n)
    ensures Admissible(Faulty(env, at), items, maximum, n) <==> Admissible(env, items, maximum, n)
  {
    hide Faulty, Relative, ReservedName, Names, Outputs, OutputOf, SourceOf;
    FaultyMeans(env, at);
    if n == 0 {
    } else {
      FaultyIsAdmitted(env, at, items, maximum, n - 1);
    }
  }

  lemma {:induction false} FaultyIsKept(env: Env, at: nat, items: seq<Item>, k: nat, from: nat)
    requires k < |items|
    ensures Kept(Faulty(env, at), items, k, from) <==> Kept(env, items, k, from)
  {
    hide Faulty, SourceOf;
    FaultyMeans(env, at);
  }

  lemma {:induction false} SlotsGrow(env: Env, items: seq<Item>, m: nat, n: nat)
    requires m <= n <= |items|
    ensures Slot(env, items, m) <= Slot(env, items, n) && |items| + 2 <= Slot(env, items, m)
    decreases n
  {
    hide SizeAt;
    if m == n {
    } else {
      SlotsGrow(env, items, m, n - 1);
    }
  }

  lemma {:induction false} FaultySlots(env: Env, at: nat, items: seq<Item>, n: nat)
    requires n <= |items| <= at
    ensures Slot(Faulty(env, at), items, n) == Slot(env, items, n)
  {
    hide Faulty, TotalAt;
    FaultyIsAdmitted(env, at, items, 0, n);
  }

  /** If the source of item i cannot be opened, and nothing else fails up to then, just the items before it are
      copied. */
  lemma {:induction false} FaultStops(env: Env, items: seq<Item>, i: nat, copied: nat)
    requires i < |items| && CalmFrom(env, |items|) && Apart(items, i) && AllKept(env, items, i, |items|)
    requires var world := Faulty(env, Slot(env, items, i) + 2);
      && copied <= |items| && Opened(world, items, copied)
      && (copied < |items| && CalmDuring(world, |items|, Slot(world, items, copied + 1)) ==>
            !Fits(world, items, copied))
    ensures copied == i
  {
    hide Faulty, Slot, CalmFrom, CalmDuring, Apart, Placeable, Kept, OutputOf;
    var at := Slot(env, items, i) + 2;
    FaultyMeans(env, at);
    SlotsGrow(env, items, 0, i);
    FaultySlots(env, at, items, i);
    if copied < i {
      SlotsGrow(env, items, copied + 1, i);
      FaultySlots(env, at, items, copied + 1);
      FaultyIsCalm(env, at, |items|, Slot(env, items, copied + 1));
      ApartEarlier(items, copied, i);
      FaultyIsKept(env, at, items, copied, |items|);
    }
  }

  /** An acquirable export with an output below the marker's name can fail unmarked although no write of the
      handler fails: it is enough that everything before that output can be laid out and is intact, and that the
      source of that output cannot be opened once the directories have been made. */
  method FailUnmarked(store: Store, plan: Plan, env: Env, i: nat)
    returns (r: Outcome, world: Env, ghost handler: nat)
    requires store.Valid() && Acquirable(plan, env, store.tree) && CalmFrom(env, |plan.items|)
    requires i < |plan.items| && Under(OutputOf(plan.items[i]), INCOMPLETE)
    requires Apart(plan.items, i) && AllKept(env, plan.items, i, |plan.items|)
    modifies store
    ensures world == Faulty(env, Slot(env, plan.items, i) + 2)
    ensures Acquirable(plan, world, old(store.tree)) && (FreshWrites(env) ==> FreshWrites(world))
    ensures r.Failed? && !r.marked && !Fault(world, handler) && |r.rows| == i
  {
    hide Relative, ReservedName, OutputOf, SourceOf, Faulty, CalmFrom, CalmDuring, Apart, Placeable, Kept, Admissible;
    hide Under, RetainedPrefix, SnapshotPrefix, FreshWrites, WellFormed, SumSizes, VerbatimPrefix, AdmittedFrom;
    hide Slot, Opened, Fits, AllKept, AllDeclared, Declared, Blockable, NewDestination, NoneUnder, Calm;
    var at := Slot(env, plan.items, i) + 2;
    world := Faulty(env, at);
    FaultyMeans(env, at);
    SlotsGrow(env, plan.items, 0, i);
    FaultyIsAdmitted(env, at, plan.items, plan.maximum, |plan.items|);
    FaultyIsCalm(env, at, |plan.items|, at - 1);
    CalmNow(world, |plan.items|, at - 1, 0, at - 1, at - 1);
    FaultySlots(env, at, plan.items, i);
    ghost var admitted: seq<Admitted>, until: seq<nat>;
    r, admitted, until, handler := Export(store, plan, world);
    FaultStops(env, plan.items, i, |r.rows|);
    assert MarkerBlocked(plan.items, i + 1);
    CalmSpan(env, |plan.items|, handler);
    CalmNow(env, |plan.items|, handler, 0, handler, handler);
  }
}
