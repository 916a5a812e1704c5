/** Which specification becomes which entry of a package, when a layout is refused, and what the written arguments
    say. */
module QualificationLaws {
  import opened Paths
  import opened QualificationPackage

  // ---- one specification ----

  lemma {:induction false} SplitOnceLaw(before: string, after: string, separator: char)
    requires separator !in before
    ensures SplitOnce(before + [separator] + after, separator) == Some((before, after))
  {
    var value := before + [separator] + after;
    if before == "" {
      assert value == [separator] + after;
    } else {
      assert value[1..] == before[1..] + [separator] + after;
      SplitOnceLaw(before[1..], after, separator);
      assert value[0] == before[0] && before == [before[0]] + before[1..];
    }
  }

  lemma {:induction false} NotSplit(value: string, separator: char)
    requires separator !in value
    ensures SplitOnce(value, separator) == None
  {
    if value == "" {
    } else {
      NotSplit(value[1..], separator);
    }
  }

  /** A text with the separator, cut at its first occurrence. */
  lemma {:induction false} FirstSplit(value: string, separator: char) returns (before: string, after: string)
    requires separator in value
    ensures separator !in before && value == before + [separator] + after
  {
    if value[0] == separator {
      before, after := "", value[1..];
    } else {
      before, after := FirstSplit(value[1..], separator);
      before := [value[0]] + before;
    }
  }

  predicate SafeLabel(tag: string) {
    !("-" <= tag) && forall i :: 0 <= i < |tag| ==> ' ' <= tag[i]
  }

  /** Where a path text leads: from the root directory when it is absolute, else from the given one. */
  function Place(value: string, root: Parts): Parts {
    if "/" <= value then PathOf(value) else root + PathOf(value)
  }

  /** The source is a regular file below the root, by a path without control characters. */
  predicate Reads(env: Env, root: Parts, value: string, index: nat, bytes: Bytes) {
    var source := Place(value, root);
    && root <= source && source != [] && ".." !in source && (forall i :: 0 <= i < |value| ==> ' ' <= value[i])
    && env.look(index, source) == Some(bytes)
  }

  predicate EntryIs(e: Entry, schema: bool, tag: string, source: Parts, bytes: Bytes) {
    e.schema == schema && e.tag == tag && e.source == source && e.sha == Sha256(bytes)
  }

  /** Where an artifact is stored: under its subject, with a suffix only if the subject's own would not keep the
      parser mode of the source. */
  predicate StoredFor(e: Entry, subject: string) {
    if ParserMode(e.source) == ParserMode(PathOf(subject)) then e.target == "subjects/" + subject
    else
      || (Suffix(Name(e.source)) != "" && e.target == "subjects/" + subject + Suffix(Name(e.source)))
      || (Suffix(Name(e.source)) == "" && e.target == "subjects/" + subject + ".data")
  }

  /** A specification is accepted exactly when its label is safe, its value names a regular file below the root,
      and, unless it is one of the leading schemas, its label names a subject after its first colon. */
  lemma {:induction false} EntryExactly(env: Env, root: Parts, schemaCount: int, tag: string, value: string,
      index: nat)
    requires '=' !in tag
    ensures var r := EntryFor(env, root, schemaCount, tag + "=" + value, index);
      && (r.Some? <==> SafeLabel(tag) && (index < schemaCount || ':' in tag)
                       && exists bytes :: Reads(env, root, value, index, bytes))
      && (r.Some? ==> forall bytes :: Reads(env, root, value, index, bytes) ==>
            EntryIs(r.value, index < schemaCount, tag, Place(value, root), bytes))
  {
    hide Suffix, ParserMode, PathOf, SchemaTarget, ArtifactTarget;
    SplitOnceLaw(tag, value, '=');
    LowControl(tag);
    LowControl(value);
    if ':' in tag {
      var role, subject := FirstSplit(tag, ':');
      SplitOnceLaw(role, subject, ':');
    } else {
      NotSplit(tag, ':');
    }
    var look := if Place(value, root) == [] then None else env.look(index, Place(value, root));
    if look.Some? && SafePath(value, root).Some? {
      assert Reads(env, root, value, index, look.value);
    }
  }

  lemma {:induction false} LowControl(text: string)
    ensures HasLowControl(text) <==> !(forall i :: 0 <= i < |text| ==> ' ' <= text[i])
  {
  }

  /** An accepted artifact is stored for its subject, an accepted schema under its digest. */
  lemma {:induction false} EntryStored(env: Env, root: Parts, schemaCount: int, role: string, subject: string,
      value: string, index: nat)
    requires '=' !in role + ":" + subject && ':' !in role
    requires EntryFor(env, root, schemaCount, role + ":" + subject + "=" + value, index).Some?
    ensures var e := EntryFor(env, root, schemaCount, role + ":" + subject + "=" + value, index).value;
      if index < schemaCount then e.target == SchemaTarget(e.sha, e.source) else StoredFor(e, subject)
  {
    hide Suffix, ParserMode, PathOf, SafePath;
    SplitOnceLaw(role + ":" + subject, value, '=');
    SplitOnceLaw(role, subject, ':');
  }

  lemma {:induction false} UnlabelledIsRefused(env: Env, root: Parts, schemaCount: int, specification: string,
      index: nat)
    requires '=' !in specification
    ensures EntryFor(env, root, schemaCount, specification, index).None?
  {
    NotSplit(specification, '=');
  }

  // ---- the layout ----

  lemma {:induction false} EntriesLaw(env: Env, root: Parts, schemaCount: int, specifications: seq<string>)
    ensures EntriesFor(env, root, schemaCount, specifications).Some? <==>
            forall i :: 0 <= i < |specifications| ==>
              EntryFor(env, root, schemaCount, specifications[i], i).Some?
    ensures EntriesFor(env, root, schemaCount, specifications).Some? ==>
      var entries := EntriesFor(env, root, schemaCount, specifications).value;
      && |entries| == |specifications|
      && forall i :: 0 <= i < |specifications| ==>
           EntryFor(env, root, schemaCount, specifications[i], i) == Some(entries[i])
  {
    hide EntryFor;
    if specifications == [] {
    } else {
      var last := |specifications| - 1;
      EntriesLaw(env, root, schemaCount, specifications[..last]);
      assert forall i :: 0 <= i < last ==> specifications[..last][i] == specifications[i];
    }
  }

  /** Two artifacts are stored under one name. */
  ghost predicate Collide(entries: seq<Entry>, i: nat, j: nat) {
    i < j < |entries| && !entries[i].schema && !entries[j].schema && entries[i].target == entries[j].target
  }

  /** One entry would have to be a directory for another. */
  ghost predicate Inside(entries: seq<Entry>, i: nat, j: nat) {
    && i < |entries| && j < |entries|
    && exists n :: 0 < n < |PathOf(entries[i].target)| && Render(PathOf(entries[i].target)[..n]) == entries[j].target
  }

  lemma {:induction false} TargetsLaw(entries: seq<Entry>, target: string)
    ensures target in Targets(entries) <==> exists j :: 0 <= j < |entries| && entries[j].target == target
  {
    if entries == [] {
    } else {
      TargetsLaw(entries[..|entries| - 1], target);
    }
  }

  lemma {:induction false} StoredArtifacts(entries: seq<Entry>, t: string)
    ensures t in ArtifactTargets(entries) <==>
            exists i :: 0 <= i < |entries| && !entries[i].schema && entries[i].target == t
  {
    if entries == [] {
    } else {
      var last := |entries| - 1;
      StoredArtifacts(entries[..last], t);
      assert forall i :: 0 <= i < last ==> entries[..last][i] == entries[i];
    }
  }

  ghost predicate NoneCollide(entries: seq<Entry>) {
    forall i: nat, j: nat :: !Collide(entries, i, j)
  }

  lemma {:induction false} ArtifactsLaw(entries: seq<Entry>)
    ensures ArtifactsApart(entries) <==> NoneCollide(entries)
  {
    hide NoneCollide;
    if entries == [] {
      NothingCollides();
    } else {
      var last := |entries| - 1;
      var before, e := entries[..last], entries[last];
      ArtifactsLaw(before);
      var texts := ArtifactTargets(before);
      if !e.schema { assert (texts + [e.target])[..|texts|] == texts; }
      CollideNext(entries);
    }
  }

  lemma {:induction false} NothingCollides()
    ensures NoneCollide([])
  {
  }

  /** The last entry collides exactly when its target is one of the artifacts before it. */
  lemma {:induction false} CollideNext(entries: seq<Entry>)
    requires entries != []
    ensures var last := |entries| - 1;
      NoneCollide(entries) <==>
      && NoneCollide(entries[..last])
      && (entries[last].schema || entries[last].target !in ArtifactTargets(entries[..last]))
  {
    hide ArtifactTargets;
    var last := |entries| - 1;
    var before, e := entries[..last], entries[last];
    StoredArtifacts(before, e.target);
    forall i: nat, j: nat | Collide(before, i, j)
      ensures Collide(entries, i, j)
    {
    }
    forall i: nat, j: nat | Collide(entries, i, j)
      ensures j == last || Collide(before, i, j)
    {
    }
    if !e.schema && e.target in ArtifactTargets(before) {
      var i :| 0 <= i < last && !before[i].schema && before[i].target == e.target;
      assert Collide(entries, i, last);
    }
  }

  /** A layout is refused exactly when a specification is, when two artifacts collide, or when an entry lies inside
      another. */
  lemma {:induction false} LayoutExactly(env: Env, root: Parts, schemaCount: int, specifications: seq<string>)
    ensures var all := EntriesFor(env, root, schemaCount, specifications);
      Layout(env, root, schemaCount, specifications).Some? <==>
      && (forall i :: 0 <= i < |specifications| ==> EntryFor(env, root, schemaCount, specifications[i], i).Some?)
      && all.Some?
      && NoneCollide(all.value)
      && (forall i: nat, j: nat :: !Inside(all.value, i, j))
    ensures Layout(env, root, schemaCount, specifications).Some? ==>
      var entries := Layout(env, root, schemaCount, specifications).value;
      && |entries| == |specifications|
      && forall i :: 0 <= i < |specifications| ==>
           EntryFor(env, root, schemaCount, specifications[i], i) == Some(entries[i])
  {
    hide EntryFor, PathOf, EntriesFor, ArtifactsApart, NoneCollide;
    EntriesLaw(env, root, schemaCount, specifications);
    var all := EntriesFor(env, root, schemaCount, specifications);
    if all.Some? {
      ArtifactsLaw(all.value);
      BlockedLaw(all.value);
    }
  }

  lemma {:induction false} BlockedLaw(entries: seq<Entry>)
    ensures (forall i :: 0 <= i < |entries| ==> !Blocked(entries[i].target, Targets(entries))) <==>
            (forall i: nat, j: nat :: !Inside(entries, i, j))
  {
    hide PathOf, Targets;
    forall target
      ensures target in Targets(entries) <==> exists j :: 0 <= j < |entries| && entries[j].target == target
    {
      TargetsLaw(entries, target);
    }
    forall i | 0 <= i < |entries| && Blocked(entries[i].target, Targets(entries))
      ensures exists j: nat :: Inside(entries, i, j)
    {
      var n :| 0 < n < |PathOf(entries[i].target)| && Render(PathOf(entries[i].target)[..n]) in Targets(entries);
      var j :| 0 <= j < |entries| && entries[j].target == Render(PathOf(entries[i].target)[..n]);
      assert Inside(entries, i, j);
    }
    forall i: nat, j: nat | Inside(entries, i, j)
      ensures Blocked(entries[i].target, Targets(entries))
    {
      var n :| 0 < n < |PathOf(entries[i].target)| && Render(PathOf(entries[i].target)[..n]) == entries[j].target;
    }
  }

  // ---- the arguments ----

  function Unlines(lines: seq<string>): string {
    if lines == [] then "" else Unlines(lines[..|lines| - 1]) + lines[|lines| - 1] + "\n"
  }

  /** The written arguments are two lines for each entry, in order: its option, and its label with its target. */
  lemma {:induction false} PortableLines(entries: seq<Entry>) returns (lines: seq<string>)
    ensures Portable(entries) == Unlines(lines) && |lines| == 2 * |entries|
    ensures forall i :: 0 <= i < |entries| ==>
      && lines[2 * i] == (if entries[i].schema then "--extension-schema" else "--artifact")
      && lines[2 * i + 1] == entries[i].tag + "=" + entries[i].target
  {
    hide Portable, Unlines;
    if entries == [] {
      NoLines();
      lines := [];
    } else {
      var last := |entries| - 1;
      var before := PortableLines(entries[..last]);
      var e := entries[last];
      var option, value := if e.schema then "--extension-schema" else "--artifact", e.tag + "=" + e.target;
      lines := before + [option] + [value];
      OneLineMore(before, option);
      OneLineMore(before + [option], value);
      PortableStep(entries, option, value);
      forall i | 0 <= i < |entries|
        ensures lines[2 * i] == (if entries[i].schema then "--extension-schema" else "--artifact")
        ensures lines[2 * i + 1] == entries[i].tag + "=" + entries[i].target
      {
        if i < last { assert entries[..last][i] == entries[i] && lines[2 * i] == before[2 * i]; }
      }
    }
  }

  lemma {:induction false} NoLines()
    ensures Portable([]) == "" == Unlines([])
  {
  }

  lemma {:induction false} OneLineMore(lines: seq<string>, line: string)
    ensures Unlines(lines + [line]) == Unlines(lines) + line + "\n"
  {
    assert (lines + [line])[..|lines|] == lines;
  }

  lemma {:induction false} PortableStep(entries: seq<Entry>, option: string, value: string)
    requires entries != []
    requires var e := entries[|entries| - 1];
      && option == (if e.schema then "--extension-schema" else "--artifact") && value == e.tag + "=" + e.target
    ensures Portable(entries) == (Portable(entries[..|entries| - 1]) + option + "\n") + value + "\n"
  {
    var e, before := entries[|entries| - 1], Portable(entries[..|entries| - 1]);
    Regroup(before, option, e.tag, e.target);
  }

  lemma {:induction false} Regroup(a: string, b: string, d: string, e: string)
    ensures a + b + "\n" + d + "=" + e + "\n" == (a + b + "\n") + (d + "=" + e) + "\n"
  {
    assert ((a + b + "\n") + d + "=") + e == (a + b + "\n") + (d + "=" + e);
  }
}
