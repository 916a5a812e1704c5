/** Laying out qualification subjects in a portable directory: where every input is stored, which layouts
    are refused, and what the directory holds when packaging returns or fails. */
module QualificationPackage {
  import opened Paths

  datatype Entry = Entry(schema: bool, tag: string, source: Parts, target: string, sha: Digest)

  /** A stored file: copied bytes or written text. */
  datatype Stored = Copied(bytes: Bytes) | Text(text: string)

  /** The outside world, read by read: `look` is what a source holds at a given read (nothing when it is
      not a regular file), `fault` whether a write fails, `statement` what the two runs of the
      qualification command produce. */
  datatype Env = Env(look: (nat, Parts) -> Option<Bytes>, fault: nat -> bool, statement: nat -> Option<Bytes>)

  /** What a read finds: the root directory is no regular file. */
  function Regular(env: Env, read: nat, path: Parts): Option<Bytes> {
    if path == [] then None else env.look(read, path)
  }

  // ---- names ----

  function Lower(c: char): char {
    if 'A' <= c <= 'Z' then (c as int + 32) as char else c
  }

  function LowerText(s: string): string {
    seq(|s|, i requires 0 <= i < |s| => Lower(s[i]))
  }

  datatype Mode = Yaml | Json | Auto

  function SuffixMode(suffix: string): Mode {
    var lower := LowerText(suffix);
    if lower == ".yaml" || lower == ".yml" then Yaml else if lower == ".json" then Json else Auto
  }

  /** `Path.name`: the last component, or nothing. */
  function Name(path: Parts): string {
    if path == [] then "" else path[|path| - 1]
  }

  function ParserMode(path: Parts): Mode {
    SuffixMode(Suffix(Name(path)))
  }

  /** The components of `Path(text)`. */
  function PathOf(text: string): Parts {
    Kept(Split(text))
  }

  const HEX: string := "0123456789abcdef"

  /** A directory name for a digest: any injective naming would do. */
  function HexOf(bytes: Bytes): string {
    if bytes == [] then "#"
    else HexOf(bytes[..|bytes| - 1]) + [HEX[bytes[|bytes| - 1] as int / 16], HEX[bytes[|bytes| - 1] as int % 16]]
  }

  /** `value.split(separator, 1)`. */
  function SplitOnce(value: string, separator: char): Option<(string, string)> {
    if value == "" then None
    else if value[0] == separator then Some(("", value[1..]))
    else
      var rest := SplitOnce(value[1..], separator);
      if rest.None? then None else Some(([value[0]] + rest.value.0, rest.value.1))
  }

  predicate HasLowControl(text: string) {
    exists i :: 0 <= i < |text| && text[i] as int < 32
  }

  /** `safe_path` in a link-free tree. */
  function SafePath(value: string, root: Parts): Option<Parts> {
    var parts := if value != "" && value[0] == '/' then PathOf(value) else root + PathOf(value);
    if HasLowControl(value) || ".." in parts || !(root <= parts) then None else Some(parts)
  }

  // ---- the layout ----

  function SchemaTarget(sha: Digest, source: Parts): string {
    "extension-schemas/" + HexOf(sha.preimage) + "/" + Name(source)
  }

  /** The logical subject names the stored file; a suffix is added only to keep the parser mode. */
  function ArtifactTarget(subject: string, source: Parts): string {
    "subjects/" + subject +
    (if ParserMode(source) == ParserMode(PathOf(subject)) then ""
     else if Suffix(Name(source)) != "" then Suffix(Name(source)) else ".data")
  }

  function EntryFor(env: Env, root: Parts, schemaCount: int, specification: string, index: nat): Option<Entry> {
    var split := SplitOnce(specification, '=');
    if split.None? then None
    else
      var (tag, value) := split.value;
      if (tag != "" && tag[0] == '-') || HasLowControl(tag) then None
      else
        var source := SafePath(value, root);
        if source.None? then None
        else
          var bytes := Regular(env, index, source.value);
          if bytes.None? then None
          else
            var sha := Sha256(bytes.value);
            if index < schemaCount then Some(Entry(true, tag, source.value, SchemaTarget(sha, source.value), sha))
            else
              var subject := SplitOnce(tag, ':');
              if subject.None? then None
              else Some(Entry(false, tag, source.value, ArtifactTarget(subject.value.1, source.value), sha))
  }

  function EntriesFor(env: Env, root: Parts, schemaCount: int, specifications: seq<string>): Option<seq<Entry>> {
    if specifications == [] then Some([])
    else
      var last := |specifications| - 1;
      var before := EntriesFor(env, root, schemaCount, specifications[..last]);
      if before.None? then None
      else
        var entry := EntryFor(env, root, schemaCount, specifications[last], last);
        if entry.None? then None else Some(before.value + [entry.value])
  }

  function Targets(entries: seq<Entry>): set<string> {
    if entries == [] then {} else Targets(entries[..|entries| - 1]) + {entries[|entries| - 1].target}
  }

  function ArtifactTargets(entries: seq<Entry>): seq<string> {
    if entries == [] then []
    else
      var before, e := ArtifactTargets(entries[..|entries| - 1]), entries[|entries| - 1];
      if e.schema then before else before + [e.target]
  }

  /** No artifact is stored where another one already is. */
  predicate ArtifactsApart(entries: seq<Entry>) {
    Distinct(ArtifactTargets(entries))
  }

  /** Some leading part of the path is itself a target. */
  predicate Blocked(target: string, targets: set<string>) {
    exists n :: 0 < n < |PathOf(target)| && Render(PathOf(target)[..n]) in targets
  }

  predicate Apart(entries: seq<Entry>) {
    ArtifactsApart(entries) && forall i :: 0 <= i < |entries| ==> !Blocked(entries[i].target, Targets(entries))
  }

  /** The accepted layout of a request. */
  function Layout(env: Env, root: Parts, schemaCount: int, specifications: seq<string>): Option<seq<Entry>> {
    var entries := EntriesFor(env, root, schemaCount, specifications);
    if entries.None? || !Apart(entries.value) then None else entries
  }

  const ARGUMENTS: Parts := ["qualification-arguments.txt"]

  /** The arguments that name the stored files. */
  function Portable(entries: seq<Entry>): string {
    if entries == [] then ""
    else
      var e := entries[|entries| - 1];
      Portable(entries[..|entries| - 1]) +
      (if e.schema then "--extension-schema" else "--artifact") + "\n" + e.tag + "=" + e.target + "\n"
  }

  function TargetPaths(entries: seq<Entry>): set<Parts> {
    if entries == [] then {} else TargetPaths(entries[..|entries| - 1]) + {PathOf(entries[|entries| - 1].target)}
  }

  // ---- packaging ----

  predicate ProperPrefix(a: Parts, b: Parts) {
    |a| < |b| && a <= b
  }

  /** The directory cannot hold this path: something else is, or must be, a directory on the way. */
  predicate Obstructed(files: map<Parts, Stored>, path: Parts) {
    path == [] || exists p :: p in files && (ProperPrefix(p, path) || ProperPrefix(path, p))
  }

  predicate Matches(files: map<Parts, Stored>, entry: Entry) {
    var path := PathOf(entry.target);
    path in files && files[path].Copied? && Sha256(files[path].bytes) == entry.sha
  }

  /** The entry can be stored beside these files, or already is. */
  predicate Fits(files: map<Parts, Stored>, entry: Entry) {
    !Obstructed(files, PathOf(entry.target)) && (PathOf(entry.target) in files ==> Matches(files, entry))
  }

  /** The state of the destination directory. */
  class Destination {
    var made: bool
    var files: map<Parts, Stored>

    /** `read` is the number of the first read the copies make. */
    method CopyOne(env: Env, entry: Entry, read: nat, step: nat) returns (ok: bool)
      modifies this`files
      ensures ok ==> Matches(files, entry)
      ensures files.Keys == old(files).Keys || files.Keys == old(files).Keys + {PathOf(entry.target)}
      ensures ok ==> files.Keys == old(files).Keys + {PathOf(entry.target)}
      ensures forall p :: p in old(files) ==> p in files && files[p] == old(files)[p]
      ensures Faithful(env, entry, read, step) && Fits(old(files), entry) ==> ok
    {
      hide PathOf;
      var path := PathOf(entry.target);
      ok := false;
      if Obstructed(files, path) || env.fault(step) { return; }
      if path !in files {
        var bytes := Regular(env, read, entry.source);
        if bytes.None? { return; }
        files := files[path := Copied(bytes.value)];
      }
      var again := Regular(env, read + 1, entry.source);
      if again.None? || Sha256(again.value) != entry.sha { return; }
      ok := files[path].Copied? && Sha256(files[path].bytes) == entry.sha;
    }

    method CopyAll(env: Env, entries: seq<Entry>) returns (ok: bool)
      requires files == map[]
      modifies this`files
      ensures ok ==> files.Keys == TargetPaths(entries) && AllMatch(files, entries)
      ensures AllFaithful(env, entries) && StoredApart(entries) ==> ok
    {
      hide PathOf, Fits, Faithful, Matches, StoredApart;
      ok := true;
      var n := |entries|;
      for i := 0 to n
        invariant files.Keys == TargetPaths(entries[..i]) && AllMatch(files, entries[..i])
      {
        assert entries[..i + 1][..i] == entries[..i];
        ghost var held := files;
        if StoredApart(entries) { NextFits(entries, files, i); }
        ok := CopyOne(env, entries[i], n + 2 * i, i + 1);
        if !ok { return; }
        MatchesStay(held, files, entries[..i]);
      }
      assert entries[..n] == entries;
    }

    /** On success the directory holds exactly the stored files and the arguments; on any failure it is
        what it was before: a directory that already existed is untouched, one made here is gone. */
    method Package(env: Env, root: Parts, schemaCount: int, specifications: seq<string>, parentExists: bool)
      returns (ok: bool)
      requires FileNames(root) && (!made ==> files == map[])
      modifies this
      ensures !ok ==> made == old(made) && files == old(files)
      ensures ok ==> !old(made) && made && parentExists && Layout(env, root, schemaCount, specifications).Some?
      ensures ok ==> env.statement(0).Some? && env.statement(0) == env.statement(1)
      ensures ok ==> Holds(files, Layout(env, root, schemaCount, specifications).value)
      ensures (Undisturbed(env, root, schemaCount, specifications) && NormalSubjects(schemaCount, specifications)
               && parentExists && !old(made)) ==> ok
    {
      hide EntriesFor, PathOf, Apart, Fits, Faithful, NormalSubjects, Matches, Portable;
      ok := false;
      if made || !parentExists { return; }
      var plan := Plan(env, root, schemaCount, specifications);
      if plan.None? || env.statement(0).None? || env.fault(0) { return; }
      var entries := plan.value;
      made, files := true, map[];
      var copied := CopyAll(env, entries);
      if NormalSubjects(schemaCount, specifications) { LayoutIsApart(env, root, schemaCount, specifications); }
      if !copied || env.statement(1).None? || env.statement(0) != env.statement(1) || env.fault(|entries| + 1) {
        made, files := false, map[];
        return;
      }
      ArgumentsApart(env, root, schemaCount, specifications);
      ghost var held := files;
      files := files[ARGUMENTS := Text(Portable(entries))];
      MatchesStay(held, files, entries);
      ok := true;
    }
  }

  predicate AllMatch(files: map<Parts, Stored>, entries: seq<Entry>) {
    forall i :: 0 <= i < |entries| ==> Matches(files, entries[i])
  }

  /** Every entry has a place of its own, or shares a file with an entry of the same digest. */
  predicate StoredApart(entries: seq<Entry>) {
    forall i, j :: 0 <= i < |entries| && 0 <= j < |entries| ==> PairApart(entries[i], entries[j])
  }

  predicate PairApart(a: Entry, b: Entry) {
    var p, q := PathOf(a.target), PathOf(b.target);
    p != [] && !ProperPrefix(p, q) && (p == q ==> a.sha == b.sha)
  }

  predicate AllFaithful(env: Env, entries: seq<Entry>) {
    forall i :: 0 <= i < |entries| ==> Faithful(env, entries[i], |entries| + 2 * i, i + 1)
  }

  predicate Holds(files: map<Parts, Stored>, entries: seq<Entry>) {
    && files.Keys == TargetPaths(entries) + {ARGUMENTS}
    && AllMatch(files, entries)
    && files[ARGUMENTS] == Text(Portable(entries))
  }

  lemma {:induction false} ArtifactListed(entries: seq<Entry>, i: nat)
    requires i < |entries| && !entries[i].schema
    ensures entries[i].target in ArtifactTargets(entries)
    decreases |entries|
  {
    if i == |entries| - 1 {
    } else {
      ArtifactListed(entries[..|entries| - 1], i);
    }
  }

  lemma {:induction false} ArtifactsDiffer(entries: seq<Entry>, i: nat, j: nat)
    requires Distinct(ArtifactTargets(entries)) && i < j < |entries| && !entries[i].schema && !entries[j].schema
    ensures entries[i].target != entries[j].target
    decreases |entries|
  {
    var before := entries[..|entries| - 1];
    var texts := ArtifactTargets(before);
    if j == |entries| - 1 {
      assert (texts + [entries[j].target])[..|texts|] == texts;
      ArtifactListed(before, i);
    } else {
      if !entries[|entries| - 1].schema { assert (texts + [entries[|entries| - 1].target])[..|texts|] == texts; }
      ArtifactsDiffer(before, i, j);
    }
  }

  method Plan(env: Env, root: Parts, schemaCount: int, specifications: seq<string>) returns (r: Option<seq<Entry>>)
    ensures r == Layout(env, root, schemaCount, specifications)
  {
    hide EntryFor, Blocked;
    var entries: seq<Entry> := [];
    var artifacts: seq<string> := [];
    for i := 0 to |specifications|
      invariant EntriesFor(env, root, schemaCount, specifications[..i]) == Some(entries)
      invariant |entries| == i && artifacts == ArtifactTargets(entries)
    {
      assert specifications[..i + 1][..i] == specifications[..i];
      var entry := EntryFor(env, root, schemaCount, specifications[i], i);
      if entry.None? {
        PlanStops(env, root, schemaCount, specifications, i + 1);
        return None;
      }
      assert (entries + [entry.value])[..i] == entries;
      entries := entries + [entry.value];
      if !entry.value.schema { artifacts := artifacts + [entry.value.target]; }
    }
    assert specifications[..|specifications|] == specifications;
    SizeFindsRepeats(artifacts);
    if |artifacts| != |Members(artifacts)| { return None; }
    var targets := Targets(entries);
    for i := 0 to |entries|
      invariant forall j :: 0 <= j < i ==> !Blocked(entries[j].target, targets)
    {
      if Blocked(entries[i].target, targets) { return None; }
    }
    r := Some(entries);
  }

  lemma {:induction false} PlanStops(env: Env, root: Parts, schemaCount: int, specifications: seq<string>, n: nat)
    requires n <= |specifications| && EntriesFor(env, root, schemaCount, specifications[..n]).None?
    ensures EntriesFor(env, root, schemaCount, specifications).None?
    decreases |specifications|
  {
    hide EntryFor;
    if n == |specifications| {
      assert specifications[..n] == specifications;
    } else {
      var last := |specifications| - 1;
      assert specifications[..last][..n] == specifications[..n];
      PlanStops(env, root, schemaCount, specifications[..last], n);
    }
  }

  /** Nothing goes wrong with this copy: no write fails and the source still holds the bytes admitted. */
  predicate Faithful(env: Env, entry: Entry, read: nat, step: nat) {
    && !env.fault(step)
    && Regular(env, read, entry.source) == Some(entry.sha.preimage)
    && Regular(env, read + 1, entry.source) == Some(entry.sha.preimage)
  }

  // ---- normalized subjects ----

  /** A relative path text with no empty, `.` or `..` component. */
  predicate Normal(text: string) {
    FileNames(Split(text))
  }

  predicate NormalSubjects(schemaCount: int, specifications: seq<string>) {
    forall i :: 0 <= i < |specifications| && i >= schemaCount ==> NormalSubject(specifications[i])
  }

  predicate NormalSubject(specification: string) {
    var split := SplitOnce(specification, '=');
    split.Some? ==>
      var subject := SplitOnce(split.value.0, ':');
      subject.Some? ==> Normal(subject.value.1)
  }

  /** One step of `Split`, in front of components already split. */
  function Step(c: char, rest: seq<string>): seq<string>
    requires rest != []
  {
    if c == '/' then [""] + rest else [[c] + rest[0]] + rest[1..]
  }

  lemma {:induction false} JoinSplit(text: string)
    ensures Join(Split(text)) == text
  {
    hide Join;
    if text == "" {
      JoinAfterStep(' ', [""]);
    } else {
      JoinSplit(text[1..]);
      JoinAfterStep(text[0], Split(text[1..]));
      assert Split(text) == Step(text[0], Split(text[1..]));
    }
  }

  lemma {:induction false} JoinAfterStep(c: char, rest: seq<string>)
    requires rest != []
    ensures Join(Step(c, rest)) == [c] + Join(rest)
    ensures |rest| == 1 ==> Join(rest) == rest[0]
  {
    if c == '/' {
      assert ([""] + rest)[1..] == rest;
      assert "" + "/" + Join(rest) == "/" + Join(rest);
    } else if |rest| > 1 {
      assert Step(c, rest)[1..] == rest[1..];
      assert [c] + rest[0] + "/" + Join(rest[1..]) == [c] + (rest[0] + "/" + Join(rest[1..]));
    }
  }

  /** A normal path text is what its components print as. */
  lemma {:induction false} NormalPath(text: string)
    requires Normal(text)
    ensures PathOf(text) == Split(text) && PathOf(text) != [] && Render(PathOf(text)) == text
  {
    hide Split;
    KeptAll(Split(text));
    JoinSplit(text);
  }

  function AppendLast(parts: seq<string>, tail: string): seq<string>
    requires parts != []
  {
    parts[..|parts| - 1] + [parts[|parts| - 1] + tail]
  }

  lemma {:induction false} AppendAfterStep(c: char, rest: seq<string>, tail: string)
    requires rest != []
    ensures Step(c, AppendLast(rest, tail)) == AppendLast(Step(c, rest), tail)
  {
    if c != '/' && |rest| == 1 { assert [c] + (rest[0] + tail) == [c] + rest[0] + tail; }
  }

  lemma {:induction false} SplitAppend(text: string, tail: string)
    requires forall i :: 0 <= i < |tail| ==> tail[i] != '/'
    ensures Split(text + tail) == AppendLast(Split(text), tail)
  {
    if text == "" {
      SplitPart(tail, "");
      assert text + tail == tail;
    } else {
      SplitAppend(text[1..], tail);
      assert (text + tail)[1..] == text[1..] + tail;
      assert (text + tail)[0] == text[0];
      assert Split(text + tail) == Step(text[0], Split(text[1..] + tail));
      assert Split(text) == Step(text[0], Split(text[1..]));
      AppendAfterStep(text[0], Split(text[1..]), tail);
    }
  }

  lemma {:induction false} SuffixShape(name: string)
    ensures var s := Suffix(name);
            s == "" || (|s| >= 2 && s[0] == '.' && forall i :: 0 < i < |s| ==> s[i] != '.')
    ensures forall c :: c in Suffix(name) ==> c in name
  {
  }

  lemma {:induction false} SuffixOfAppended(name: string, s: string)
    requires name != "" && |s| >= 2 && s[0] == '.' && forall i :: 0 < i < |s| ==> s[i] != '.'
    ensures Suffix(name + s) == s
  {
    hide LastDot;
    var whole := name + s;
    assert whole[|name|] == '.';
    assert forall i :: |name| < i < |whole| ==> whole[i] != '.';
    assert LastDot(whole) == |name|;
  }

  lemma {:induction false} HexIsName(bytes: Bytes)
    ensures HexOf(bytes) != "" && HexOf(bytes)[0] == '#'
    ensures forall i :: 0 <= i < |HexOf(bytes)| ==> HexOf(bytes)[i] != '/'
  {
    if bytes == [] {
    } else {
      HexIsName(bytes[..|bytes| - 1]);
    }
  }

  lemma {:induction false} HexInjective(a: Bytes, b: Bytes)
    requires HexOf(a) == HexOf(b)
    ensures a == b
  {
    HexLength(a);
    HexLength(b);
    if a == [] {
    } else {
      var x, y, n := a[|a| - 1] as int, b[|b| - 1] as int, |HexOf(a)|;
      assert HexOf(a)[..n - 2] == HexOf(a[..|a| - 1]) && HexOf(b)[..n - 2] == HexOf(b[..|b| - 1]);
      assert HexOf(a)[n - 2] == HEX[x / 16] && HexOf(b)[n - 2] == HEX[y / 16];
      assert HexOf(a)[n - 1] == HEX[x % 16] && HexOf(b)[n - 1] == HEX[y % 16];
      HexDigits(x / 16, y / 16);
      HexDigits(x % 16, y % 16);
      HexInjective(a[..|a| - 1], b[..|b| - 1]);
    }
  }

  lemma {:induction false} HexDigits(i: nat, j: nat)
    requires i < 16 && j < 16 && HEX[i] == HEX[j]
    ensures i == j
  {
  }

  lemma {:induction false} HexLength(bytes: Bytes)
    ensures |HexOf(bytes)| == 1 + 2 * |bytes|
  {
    if bytes == [] {
    } else {
      HexLength(bytes[..|bytes| - 1]);
    }
  }

  /** Sources below a normalized root have file names. */
  lemma {:induction false} SourceHasName(value: string, root: Parts)
    requires FileNames(root) && SafePath(value, root).Some? && SafePath(value, root).value != []
    ensures FileName(Name(SafePath(value, root).value))
  {
    SplitHasNoSlash(value);
    KeptSound(Split(value));
    var parts := SafePath(value, root).value;
    var last := parts[|parts| - 1];
    if last !in root {
      assert last in PathOf(value);
      var k :| 0 <= k < |PathOf(value)| && PathOf(value)[k] == last;
      assert last in Split(value);
      var j :| 0 <= j < |Split(value)| && Split(value)[j] == last;
    }
  }

  /** Where a schema is stored: below a directory that names its digest. */
  lemma {:induction false} SchemaPlace(sha: Digest, source: Parts)
    requires source != [] && FileName(Name(source))
    ensures Normal(SchemaTarget(sha, source))
    ensures PathOf(SchemaTarget(sha, source)) == ["extension-schemas", HexOf(sha.preimage), Name(source)]
  {
    hide Split, HexOf;
    HexIsName(sha.preimage);
    var hex, name := HexOf(sha.preimage), Name(source);
    SplitPart("extension-schemas", hex + "/" + name);
    SplitPart(hex, name);
    SplitPart(name, "");
    assert SchemaTarget(sha, source) == "extension-schemas" + "/" + (hex + "/" + name);
    NormalPath(SchemaTarget(sha, source));
  }

  lemma {:induction false} AppendedName(text: string, tail: string)
    requires Normal(text) && |tail| >= 2 && forall i :: 0 <= i < |tail| ==> tail[i] != '/'
    ensures Normal(text + tail)
    ensures PathOf(text) != [] && Name(PathOf(text + tail)) == Name(PathOf(text)) + tail
  {
    hide Split;
    NormalPath(text);
    SplitAppend(text, tail);
    var parts := Split(text);
    var last := parts[|parts| - 1];
    assert FileName(last + tail) by {
      assert FileName(last);
      assert |last + tail| > 2;
    }
    NormalPath(text + tail);
  }

  lemma {:induction false} UnderSubjects(rest: string)
    requires Normal(rest)
    ensures Normal("subjects/" + rest) && PathOf("subjects/" + rest) == ["subjects"] + PathOf(rest)
  {
    hide Split;
    NormalPath(rest);
    SplitPart("subjects", rest);
    assert "subjects/" + rest == "subjects" + "/" + rest;
    NormalPath("subjects/" + rest);
  }

  /** Where an artifact is stored: under its subject, in the parser mode of its source. */
  lemma {:induction false} ArtifactPlace(subject: string, source: Parts)
    requires source != [] && FileName(Name(source)) && Normal(subject)
    ensures Normal(ArtifactTarget(subject, source))
    ensures PathOf(ArtifactTarget(subject, source)) != [] && PathOf(ArtifactTarget(subject, source))[0] == "subjects"
    ensures ParserMode(PathOf(ArtifactTarget(subject, source))) == ParserMode(source)
  {
    hide Split, PathOf, SuffixMode, Suffix, Normal;
    NormalPath(subject);
    if ParserMode(source) == ParserMode(PathOf(subject)) {
      UnderSubjects(subject);
      assert ArtifactTarget(subject, source) == "subjects/" + subject;
    } else {
      SuffixShape(Name(source));
      var tail := if Suffix(Name(source)) != "" then Suffix(Name(source)) else ".data";
      forall i | 0 <= i < |tail|
        ensures tail[i] != '/'
      {
        if Suffix(Name(source)) != "" { assert tail[i] in Name(source); }
      }
      AppendedName(subject, tail);
      UnderSubjects(subject + tail);
      assert ArtifactTarget(subject, source) == "subjects/" + (subject + tail);
      SubjectName(subject);
      SuffixOfAppended(Name(PathOf(subject)), tail);
      DataIsAuto();
    }
  }

  lemma {:induction false} SubjectName(subject: string)
    requires Normal(subject)
    ensures Name(PathOf(subject)) != ""
  {
    hide Split;
    NormalPath(subject);
  }

  lemma {:induction false} DataIsAuto()
    ensures SuffixMode(".data") == SuffixMode("") == Auto
  {
    assert LowerText(".data")[1] == 'd';
  }

  // ---- accepted layouts ----

  lemma {:induction false} EntryAt(env: Env, root: Parts, schemaCount: int, specifications: seq<string>, i: nat)
    requires EntriesFor(env, root, schemaCount, specifications).Some?
    ensures |EntriesFor(env, root, schemaCount, specifications).value| == |specifications|
    ensures i < |specifications| ==>
              EntryFor(env, root, schemaCount, specifications[i], i) ==
                Some(EntriesFor(env, root, schemaCount, specifications).value[i])
    decreases |specifications|
  {
    hide EntryFor;
    if specifications == [] {
    } else {
      EntryAt(env, root, schemaCount, specifications[..|specifications| - 1], i);
    }
  }

  /** The place of one entry of a request with normalized subjects. */
  ghost predicate Placed(entry: Entry) {
    && Normal(entry.target) && PathOf(entry.target) != []
    && (entry.schema ==> |PathOf(entry.target)| == 3 && PathOf(entry.target)[0] == "extension-schemas"
                         && PathOf(entry.target)[1] == HexOf(entry.sha.preimage))
    && (!entry.schema ==> PathOf(entry.target)[0] == "subjects"
                          && ParserMode(PathOf(entry.target)) == ParserMode(entry.source))
  }

  lemma {:induction false} EntryIsPlaced(env: Env, root: Parts, schemaCount: int, specification: string, index: nat)
    requires FileNames(root) && EntryFor(env, root, schemaCount, specification, index).Some?
    requires index >= schemaCount ==> NormalSubject(specification)
    ensures Placed(EntryFor(env, root, schemaCount, specification, index).value)
  {
    hide Split, PathOf, SplitOnce, SchemaTarget, ArtifactTarget, HasLowControl, SafePath, ParserMode, Normal, FileName;
    var entry := EntryFor(env, root, schemaCount, specification, index).value;
    var (tag, value) := SplitOnce(specification, '=').value;
    SourceHasName(value, root);
    if entry.schema {
      SchemaPlace(entry.sha, entry.source);
    } else {
      ArtifactPlace(SplitOnce(tag, ':').value.1, entry.source);
    }
  }

  lemma {:induction false} TargetsListed(entries: seq<Entry>, i: nat)
    requires i < |entries|
    ensures entries[i].target in Targets(entries)
    decreases |entries|
  {
    if i == |entries| - 1 {
    } else {
      TargetsListed(entries[..|entries| - 1], i);
    }
  }

  lemma {:induction false} NotInside(a: Parts, target: string, targets: set<string>)
    requires a != [] && Render(a) in targets && !Blocked(target, targets)
    ensures !ProperPrefix(a, PathOf(target))
  {
    hide PathOf, Render;
    var b := PathOf(target);
    if |a| < |b| {
      var head := b[..|a|];
      assert a <= b ==> head == a;
      assert Render(head) !in targets;
    }
  }

  /** Of an accepted layout with normalized subjects: every artifact keeps the parser mode of its source,
      no stored file lies inside another, and two entries that share a file are schemas with one digest. */
  lemma {:induction false} LayoutIsSound(env: Env, root: Parts, schemaCount: int, specifications: seq<string>,
      i: nat, j: nat)
    requires FileNames(root) && Layout(env, root, schemaCount, specifications).Some?
    requires NormalSubjects(schemaCount, specifications)
    ensures |Layout(env, root, schemaCount, specifications).value| == |specifications|
    ensures i < |specifications| && j < |specifications| ==>
              var entries := Layout(env, root, schemaCount, specifications).value;
              && Placed(entries[i])
              && !ProperPrefix(PathOf(entries[i].target), PathOf(entries[j].target))
              && (i != j && PathOf(entries[i].target) == PathOf(entries[j].target) ==>
                    entries[i].schema && entries[j].schema && entries[i].sha == entries[j].sha)
  {
    hide EntriesFor, EntryFor, PathOf, Normal, Targets, Distinct, Render, ParserMode, NormalSubject;
    EntryAt(env, root, schemaCount, specifications, i);
    EntryAt(env, root, schemaCount, specifications, j);
    if i < |specifications| && j < |specifications| {
      var entries := Layout(env, root, schemaCount, specifications).value;
      EntryIsPlaced(env, root, schemaCount, specifications[i], i);
      EntryIsPlaced(env, root, schemaCount, specifications[j], j);
      var a, b := PathOf(entries[i].target), PathOf(entries[j].target);
      NormalPath(entries[i].target);
      NormalPath(entries[j].target);
      TargetsListed(entries, i);
      NotInside(a, entries[j].target, Targets(entries));
      if i != j && a == b {
        if entries[i].schema {
          HexInjective(entries[i].sha.preimage, entries[j].sha.preimage);
        } else {
          ArtifactsDiffer(entries, if i < j then i else j, if i < j then j else i);
        }
      }
    }
  }

  // ---- nothing else goes wrong ----

  /** The inputs are frozen, no write fails, and the two statements are equal. */
  predicate Undisturbed(env: Env, root: Parts, schemaCount: int, specifications: seq<string>) {
    var layout := Layout(env, root, schemaCount, specifications);
    && layout.Some?
    && env.statement(0).Some? && env.statement(0) == env.statement(1)
    && !env.fault(0) && !env.fault(|layout.value| + 1)
    && AllFaithful(env, layout.value)
  }

  lemma {:induction false} TargetPathsListed(entries: seq<Entry>, p: Parts)
    requires p in TargetPaths(entries)
    ensures exists i :: 0 <= i < |entries| && PathOf(entries[i].target) == p
  {
    hide PathOf;
    var last := |entries| - 1;
    if p == PathOf(entries[last].target) {
    } else {
      TargetPathsListed(entries[..last], p);
      var i :| 0 <= i < last && PathOf(entries[..last][i].target) == p;
      assert entries[i] == entries[..last][i];
    }
  }

  /** The next entry always finds its place. */
  lemma {:induction false} NextFits(entries: seq<Entry>, files: map<Parts, Stored>, k: nat)
    requires k < |entries| && StoredApart(entries)
    requires files.Keys == TargetPaths(entries[..k]) && AllMatch(files, entries[..k])
    ensures Fits(files, entries[k])
  {
    hide PathOf, TargetPaths;
    var path := PathOf(entries[k].target);
    assert PairApart(entries[k], entries[k]);
    forall p | p in files
      ensures !ProperPrefix(p, path) && !ProperPrefix(path, p)
      ensures p == path ==> Matches(files, entries[k])
    {
      TargetPathsListed(entries[..k], p);
      var i :| 0 <= i < k && PathOf(entries[..k][i].target) == p;
      assert PairApart(entries[i], entries[k]) && PairApart(entries[k], entries[i]);
      assert Matches(files, entries[..k][i]);
    }
  }

  lemma {:induction false} LayoutIsApart(env: Env, root: Parts, schemaCount: int, specifications: seq<string>)
    requires FileNames(root) && Layout(env, root, schemaCount, specifications).Some?
    requires NormalSubjects(schemaCount, specifications)
    ensures StoredApart(Layout(env, root, schemaCount, specifications).value)
  {
    hide PathOf, Layout, NormalSubjects, Normal;
    var entries := Layout(env, root, schemaCount, specifications).value;
    LayoutIsSound(env, root, schemaCount, specifications, 0, 0);
    forall i, j | 0 <= i < |entries| && 0 <= j < |entries|
      ensures PairApart(entries[i], entries[j])
    {
      LayoutIsSound(env, root, schemaCount, specifications, i, j);
    }
  }

  /** What is stored stays as it is while files are added. */
  lemma {:induction false} MatchesStay(before: map<Parts, Stored>, after: map<Parts, Stored>, entries: seq<Entry>)
    requires AllMatch(before, entries)
    requires forall p :: p in before ==> p in after && after[p] == before[p]
    ensures AllMatch(after, entries)
  {
    hide PathOf;
  }

  /** No target is the arguments file. */
  lemma {:induction false} ArgumentsApart(env: Env, root: Parts, schemaCount: int, specifications: seq<string>)
    requires Layout(env, root, schemaCount, specifications).Some?
    ensures ARGUMENTS !in TargetPaths(Layout(env, root, schemaCount, specifications).value)
  {
    hide PathOf, EntriesFor, EntryFor, Apart;
    var entries := Layout(env, root, schemaCount, specifications).value;
    if ARGUMENTS in TargetPaths(entries) {
      TargetPathsListed(entries, ARGUMENTS);
      var i :| 0 <= i < |entries| && PathOf(entries[i].target) == ARGUMENTS;
      EntryAt(env, root, schemaCount, specifications, i);
      TargetFolder(env, root, schemaCount, specifications[i], i);
    }
  }

  lemma {:induction false} TargetFolder(env: Env, root: Parts, schemaCount: int, specification: string, index: nat)
    requires EntryFor(env, root, schemaCount, specification, index).Some?
    ensures var path := PathOf(EntryFor(env, root, schemaCount, specification, index).value.target);
            path != [] && (path[0] == "extension-schemas" || path[0] == "subjects")
  {
    hide Split, HexOf, ParserMode, SafePath, SplitOnce, HasLowControl;
    var target := EntryFor(env, root, schemaCount, specification, index).value.target;
    if EntryFor(env, root, schemaCount, specification, index).value.schema {
      assert target == "extension-schemas" + "/" + target[18..];
      SplitPart("extension-schemas", target[18..]);
    } else {
      assert target == "subjects" + "/" + target[9..];
      SplitPart("subjects", target[9..]);
    }
  }
}
