/** Selecting a finalized recording for playback: which bag members, files, summaries, signed digests and
    index segments make one complete bag, and the scan that each selected recording must pass. */
module PlaybackSelection {
  import opened Paths

  datatype SummaryFile = SummaryFile(path: string, bytes: Bytes)

  datatype Document = Document(source: Digest, start: int, end: int)

  datatype Metadata = Metadata(storage: string, names: seq<string>, run: string, retention: string)

  datatype Segment = Segment(index: int, sha: Digest, size: int, summarySha: Digest, summarySize: int,
      retention: string)

  datatype Artifact = Recording(segment: Segment) | OtherArtifact

  datatype Index = Index(artifacts: seq<Artifact>, run: string, finalized: bool)

  datatype Signed = Signed(subject: string, kind: string)

  /** A capture: every entry below `bags`, its regular files, the metadata files found there, the sorted
      summary files, and the signed statement.  The document readers are functions of the bytes. */
  datatype Capture = Capture(
    entries: set<Parts>, files: map<Parts, Bytes>, metadata: seq<Parts>, information: Bytes -> Metadata,
    summaries: seq<SummaryFile>, document: Bytes -> Document, identity: Bytes -> bool,
    indexBytes: Bytes, index: Bytes -> Index,
    subjects: map<string, Digest>, artifacts: seq<Signed>, run: string, maximumDuration: int)

  datatype Member = Member(recording: Parts, summary: string)

  // ---- names ----

  predicate McapEntry(path: Parts) {
    path != [] && EndsWith(path[|path| - 1], ".mcap")
  }

  /** `member_path`, up to the existence of the file. */
  predicate MemberName(name: string) {
    && FileNames(Split(name)) && Render(Kept(Split(name))) == name
    && '\\' !in name && (forall i :: 0 <= i < |name| ==> name[i] as int >= 32) && EndsWith(name, ".mcap")
  }

  function MemberAt(c: Capture, name: string): Parts
    requires OneMetadata(c)
  {
    var path := c.metadata[0];
    path[..|path| - 1] + Kept(Split(name))
  }

  predicate OneMetadata(c: Capture) {
    |c.metadata| == 1 && c.metadata[0] != [] && c.metadata[0] in c.files
  }

  function Information(c: Capture): Metadata
    requires OneMetadata(c)
  {
    c.information(c.files[c.metadata[0]])
  }

  function Recordings(c: Capture): seq<Parts>
    requires OneMetadata(c)
  {
    seq(|Information(c).names|, i requires 0 <= i < |Information(c).names| => MemberAt(c, Information(c).names[i]))
  }

  predicate MembersExist(c: Capture) {
    && OneMetadata(c)
    && forall i :: 0 <= i < |Information(c).names| ==>
                     MemberName(Information(c).names[i]) && Recordings(c)[i] in c.files
  }

  function BytesOf(c: Capture, i: nat): Bytes
    requires MembersExist(c) && i < |Recordings(c)|
  {
    c.files[Recordings(c)[i]]
  }

  function Digests(c: Capture): seq<Digest>
    requires MembersExist(c)
  {
    seq(|Recordings(c)|, i requires 0 <= i < |Recordings(c)| => Sha256(BytesOf(c, i)))
  }

  // ---- summaries ----

  /** `summary_sources`: summaries by the digest they describe, refused when two describe the same. */
  function SummarySources(c: Capture, summaries: seq<SummaryFile>): Option<map<Digest, SummaryFile>> {
    if summaries == [] then Some(map[])
    else
      var before, last := SummarySources(c, summaries[..|summaries| - 1]), summaries[|summaries| - 1];
      var source := c.document(last.bytes).source;
      if before.None? || source in before.value then None else Some(before.value[source := last])
  }

  method ReadSummaries(c: Capture) returns (r: Option<map<Digest, SummaryFile>>)
    ensures r == SummarySources(c, c.summaries)
  {
    var sources: map<Digest, SummaryFile> := map[];
    for i := 0 to |c.summaries|
      invariant SummarySources(c, c.summaries[..i]) == Some(sources)
    {
      assert c.summaries[..i + 1][..i] == c.summaries[..i];
      var source := c.document(c.summaries[i].bytes).source;
      if source in sources {
        DuplicateRefuses(c, c.summaries, i + 1);
        return None;
      }
      sources := sources[source := c.summaries[i]];
    }
    assert c.summaries[..|c.summaries|] == c.summaries;
    r := Some(sources);
  }

  lemma {:induction false} DuplicateRefuses(c: Capture, summaries: seq<SummaryFile>, n: nat)
    requires n <= |summaries| && SummarySources(c, summaries[..n]).None?
    ensures SummarySources(c, summaries).None?
    decreases |summaries|
  {
    if n == |summaries| {
      assert summaries[..n] == summaries;
    } else {
      assert summaries[..|summaries| - 1][..n] == summaries[..n];
      DuplicateRefuses(c, summaries[..|summaries| - 1], n);
    }
  }

  function SummaryDigests(c: Capture): seq<Digest> {
    seq(|c.summaries|, i requires 0 <= i < |c.summaries| => Sha256(c.summaries[i].bytes))
  }

  function SourceDigests(c: Capture, summaries: seq<SummaryFile>): seq<Digest> {
    seq(|summaries|, i requires 0 <= i < |summaries| => c.document(summaries[i].bytes).source)
  }

  // ---- the signed statement and the index ----

  /** `signed_digests`; nothing when a signed artifact names no subject. */
  function SignedDigests(c: Capture, artifacts: seq<Signed>, kind: string): Option<seq<Digest>> {
    if artifacts == [] then Some([])
    else
      var before, last := SignedDigests(c, artifacts[..|artifacts| - 1], kind), artifacts[|artifacts| - 1];
      if before.None? || last.kind != kind then before
      else if last.subject !in c.subjects then None
      else Some(before.value + [c.subjects[last.subject]])
  }

  function Recorded(artifacts: seq<Artifact>): seq<Segment> {
    if artifacts == [] then []
    else
      var before, last := Recorded(artifacts[..|artifacts| - 1]), artifacts[|artifacts| - 1];
      if last.Recording? then before + [last.segment] else before
  }

  function Insert(s: Segment, sorted: seq<Segment>): seq<Segment> {
    if sorted == [] then [s]
    else if s.index <= sorted[0].index then [s] + sorted
    else [sorted[0]] + Insert(s, sorted[1..])
  }

  /** A stable sort by `segment_index`. */
  function Sorted(segments: seq<Segment>): seq<Segment> {
    if segments == [] then [] else Insert(segments[0], Sorted(segments[1..]))
  }

  function SegmentFor(c: Capture, sources: map<Digest, SummaryFile>, i: nat): Segment
    requires MembersExist(c) && i < |Digests(c)| && Digests(c)[i] in sources
  {
    var summary := sources[Digests(c)[i]].bytes;
    Segment(i, Digests(c)[i], |BytesOf(c, i)|, Sha256(summary), |summary|, Information(c).retention)
  }

  predicate AllDescribed(c: Capture, sources: map<Digest, SummaryFile>)
    requires MembersExist(c)
  {
    forall i :: 0 <= i < |Digests(c)| ==> Digests(c)[i] in sources
  }

  function ExpectedSegments(c: Capture, sources: map<Digest, SummaryFile>): seq<Segment>
    requires MembersExist(c) && AllDescribed(c, sources)
  {
    seq(|Digests(c)|, i requires 0 <= i < |Digests(c)| => SegmentFor(c, sources, i))
  }

  predicate Short(c: Capture, sources: map<Digest, SummaryFile>, i: nat)
    requires MembersExist(c) && AllDescribed(c, sources) && i < |Digests(c)|
  {
    var document := c.document(sources[Digests(c)[i]].bytes);
    document.end - document.start <= c.maximumDuration
  }

  predicate ShortEnough(c: Capture, sources: map<Digest, SummaryFile>)
    requires MembersExist(c) && AllDescribed(c, sources)
  {
    forall i :: 0 <= i < |Digests(c)| ==> Short(c, sources, i)
  }

  /** `checked_member_index`. */
  predicate CheckedIndex(c: Capture, sources: map<Digest, SummaryFile>)
    requires MembersExist(c) && AllDescribed(c, sources)
  {
    var index := c.index(c.indexBytes);
    && ShortEnough(c, sources)
    && Sorted(Recorded(index.artifacts)) == ExpectedSegments(c, sources)
    && index.run == Information(c).run && index.finalized
  }

  predicate SubjectIs(c: Capture, subject: string, bytes: Bytes) {
    subject in c.subjects && c.subjects[subject] == Sha256(bytes)
  }

  predicate IdentitiesMatch(c: Capture)
    requires MembersExist(c)
  {
    forall i :: 0 <= i < |Recordings(c)| ==> c.identity(BytesOf(c, i))
  }

  /** What both the statement and the index say besides the members. */
  predicate Bound(c: Capture)
    requires MembersExist(c)
  {
    && SubjectIs(c, "capture/bags/" + Render(c.metadata[0]), c.files[c.metadata[0]])
    && Information(c).run == c.run
    && SubjectIs(c, "evidence-indexes/primary.json", c.indexBytes)
    && IdentitiesMatch(c)
  }

  lemma {:induction false} KeysDescribe(c: Capture, sources: map<Digest, SummaryFile>)
    requires MembersExist(c) && Members(Digests(c)) == sources.Keys
    ensures AllDescribed(c, sources)
  {
    MembersAreItems(Digests(c));
    forall i | 0 <= i < |Digests(c)|
      ensures Digests(c)[i] in sources
    {
      assert Digests(c)[i] in Members(Digests(c));
    }
  }

  /** `finalized_recording`: the selected members in metadata order. */
  function Finalized(c: Capture): Option<seq<Member>> {
    if !OneMetadata(c) then None
    else
      var names := Information(c).names;
      if Information(c).storage != "mcap" || names == [] || |Members(names)| != |names| || !MembersExist(c) then None
      else if Members(Recordings(c)) != (set p | p in c.entries && McapEntry(p)) then None
      else
        var sources, digests := SummarySources(c, c.summaries), Digests(c);
        if sources.None? || |Members(digests)| != |Recordings(c)| || Members(digests) != sources.value.Keys then None
        else
          var recordings, summaries := SignedDigests(c, c.artifacts, "recording"),
              SignedDigests(c, c.artifacts, "recording_summary");
          if recordings.None? || Members(recordings.value) != Members(digests) then None
          else if summaries.None? || Members(summaries.value) != Members(SummaryDigests(c)) then None
          else if !Bound(c) then None
          else
            KeysDescribe(c, sources.value);
            if !CheckedIndex(c, sources.value) then None
            else Some(seq(|names|,
              i requires 0 <= i < |names| => Member(Recordings(c)[i], sources.value[digests[i]].path)))
  }

  // ---- a complete bag, declared ----

  ghost predicate SameItems(a: seq<Digest>, b: seq<Digest>) {
    forall x :: x in a <==> x in b
  }

  /** The MCAP entries on disk are the members, and nothing else. */
  ghost predicate OnDisk(c: Capture)
    requires OneMetadata(c)
  {
    forall p: Parts :: (p in c.entries && McapEntry(p)) <==> p in Recordings(c)
  }

  /** Every member is described by one summary, and every summary describes one member. */
  ghost predicate Summarized(c: Capture)
    requires MembersExist(c)
  {
    && Distinct(Digests(c)) && Distinct(SourceDigests(c, c.summaries))
    && SameItems(Digests(c), SourceDigests(c, c.summaries))
  }

  predicate Signs(c: Capture, a: Signed, kind: string, d: Digest) {
    a.kind == kind && a.subject in c.subjects && c.subjects[a.subject] == d
  }

  ghost predicate IsSigned(c: Capture, kind: string, d: Digest) {
    exists j :: 0 <= j < |c.artifacts| && Signs(c, c.artifacts[j], kind, d)
  }

  /** The signed artifacts of a kind are exactly these. */
  ghost predicate SignedAre(c: Capture, kind: string, digests: seq<Digest>) {
    && (forall j :: 0 <= j < |c.artifacts| && c.artifacts[j].kind == kind ==> c.artifacts[j].subject in c.subjects)
    && forall d :: d in digests <==> IsSigned(c, kind, d)
  }

  /** Index segment `i` is the member at metadata position `i`, with the facts of summary `k`. */
  ghost predicate SegmentOf(c: Capture, i: nat, k: nat)
    requires MembersExist(c) && i < |Digests(c)|
  {
    && k < |c.summaries|
    && var summary := c.summaries[k].bytes; var document := c.document(summary);
    && document.source == Digests(c)[i] && document.end - document.start <= c.maximumDuration
    && Segment(i, Digests(c)[i], |BytesOf(c, i)|, Sha256(summary), |summary|, Information(c).retention)
      in Recorded(c.index(c.indexBytes).artifacts)
  }

  ghost predicate Indexed(c: Capture, i: nat)
    requires MembersExist(c) && i < |Digests(c)|
  {
    exists k: nat :: SegmentOf(c, i, k)
  }

  ghost predicate AllIndexed(c: Capture)
    requires MembersExist(c)
  {
    var index := c.index(c.indexBytes);
    && |Recorded(index.artifacts)| == |Digests(c)| && index.run == Information(c).run && index.finalized
    && forall i :: 0 <= i < |Digests(c)| ==> Indexed(c, i)
  }

  /** The metadata file and the index are the signed ones, the metadata is of the run, and every member has its
      identity. */
  ghost predicate Attested(c: Capture)
    requires MembersExist(c)
  {
    var metadata, index := "capture/bags/" + Render(c.metadata[0]), "evidence-indexes/primary.json";
    && metadata in c.subjects && c.subjects[metadata] == Sha256(c.files[c.metadata[0]])
    && index in c.subjects && c.subjects[index] == Sha256(c.indexBytes)
    && Information(c).run == c.run
    && forall p :: p in Recordings(c) ==> c.identity(c.files[p])
  }

  ghost predicate Complete(c: Capture) {
    && OneMetadata(c) && Information(c).storage == "mcap"
    && Information(c).names != [] && Distinct(Information(c).names)
    && MembersExist(c) && OnDisk(c) && Summarized(c)
    && SignedAre(c, "recording", Digests(c)) && SignedAre(c, "recording_summary", SummaryDigests(c))
    && Attested(c) && AllIndexed(c)
  }

  // ---- sorting by position ----

  predicate Ordered(segments: seq<Segment>) {
    forall i, j :: 0 <= i < j < |segments| ==> segments[i].index <= segments[j].index
  }

  lemma {:induction false} InsertKeeps(s: Segment, sorted: seq<Segment>)
    requires Ordered(sorted)
    ensures Ordered(Insert(s, sorted)) && |Insert(s, sorted)| == |sorted| + 1
    ensures forall x :: x in Insert(s, sorted) <==> x == s || x in sorted
  {
    if sorted != [] && s.index > sorted[0].index {
      InsertKeeps(s, sorted[1..]);
      var tail := Insert(s, sorted[1..]);
      forall j | 0 <= j < |tail|
        ensures sorted[0].index <= tail[j].index
      {
        if tail[j] != s { assert tail[j] in sorted[1..]; }
      }
    }
  }

  lemma {:induction false} SortedKeeps(segments: seq<Segment>)
    ensures Ordered(Sorted(segments)) && |Sorted(segments)| == |segments|
    ensures forall x :: x in Sorted(segments) <==> x in segments
  {
    if segments == [] {
    } else {
      SortedKeeps(segments[1..]);
      InsertKeeps(segments[0], Sorted(segments[1..]));
      assert segments == [segments[0]] + segments[1..];
    }
  }

  predicate Positioned(expected: seq<Segment>) {
    forall i :: 0 <= i < |expected| ==> expected[i].index == i
  }

  /** An ordered list that holds all positioned segments is at least as long as theirs. */
  lemma {:induction false} LongEnough(s: seq<Segment>, expected: seq<Segment>)
    requires Ordered(s) && Positioned(expected) && forall i :: 0 <= i < |expected| ==> expected[i] in s
    ensures |s| >= |expected|
    ensures expected != [] ==> forall k :: 0 <= k < |s| && s[k] == expected[|expected| - 1] ==> k >= |expected| - 1
    decreases |expected|
  {
    if expected == [] {
    } else {
      var n := |expected| - 1;
      forall k | 0 <= k < |s| && s[k] == expected[n]
        ensures k >= n
      {
        forall i | 0 <= i < n
          ensures expected[..n][i] in s[..k]
        {
          var j :| 0 <= j < |s| && s[j] == expected[i];
          assert s[j].index < s[k].index;
        }
        LongEnough(s[..k], expected[..n]);
      }
      var k :| 0 <= k < |s| && s[k] == expected[n];
    }
  }

  /** The last expected segment is the last one of an ordered list of the same length. */
  lemma {:induction false} LastInPlace(s: seq<Segment>, expected: seq<Segment>)
    requires Ordered(s) && Positioned(expected) && |s| == |expected| > 0
    requires forall i :: 0 <= i < |expected| ==> expected[i] in s
    ensures s[|s| - 1] == expected[|s| - 1]
    ensures forall i :: 0 <= i < |s| - 1 ==> expected[i] in s[..|s| - 1]
  {
    hide Ordered;
    var n := |expected| - 1;
    LongEnough(s, expected);
    var k :| 0 <= k < |s| && s[k] == expected[n];
    assert k == n;
    forall i | 0 <= i < n
      ensures expected[i] in s[..n]
    {
      var j :| 0 <= j < |s| && s[j] == expected[i];
      assert expected[i].index != expected[n].index;
    }
  }

  lemma {:induction false} OrderedIsPositioned(s: seq<Segment>, expected: seq<Segment>)
    requires Ordered(s) && Positioned(expected) && |s| == |expected|
    requires forall i :: 0 <= i < |expected| ==> expected[i] in s
    ensures s == expected
    decreases |expected|
  {
    hide Ordered, Positioned;
    if expected == [] {
    } else {
      var n := |expected| - 1;
      LastInPlace(s, expected);
      ShorterOrdered(s, expected, n);
      OrderedIsPositioned(s[..n], expected[..n]);
      assert s == s[..n] + [s[n]] && expected == expected[..n] + [expected[n]];
    }
  }

  lemma {:induction false} ShorterOrdered(s: seq<Segment>, expected: seq<Segment>, n: nat)
    requires n <= |s| && n <= |expected| && Ordered(s) && Positioned(expected)
    ensures Ordered(s[..n]) && Positioned(expected[..n])
  {
  }

  /** Sorting by segment index gives the expected list exactly when the lists have the same length and
      every expected segment is recorded: nothing missing, surplus, duplicated or reordered. */
  lemma {:induction false} SortedIsExpected(segments: seq<Segment>, expected: seq<Segment>)
    requires Positioned(expected)
    ensures Sorted(segments) == expected <==>
            |segments| == |expected| && forall i :: 0 <= i < |expected| ==> expected[i] in segments
  {
    SortedKeeps(segments);
    if Sorted(segments) == expected {
      forall i | 0 <= i < |expected|
        ensures expected[i] in segments
      {
        assert expected[i] in Sorted(segments);
      }
    }
    if |segments| == |expected| && forall i :: 0 <= i < |expected| ==> expected[i] in segments {
      forall i | 0 <= i < |expected|
        ensures expected[i] in Sorted(segments)
      {
        assert expected[i] in segments;
      }
      OrderedIsPositioned(Sorted(segments), expected);
    }
  }

  // ---- summaries and signatures ----

  lemma {:induction false} SourcesByDigest(c: Capture, summaries: seq<SummaryFile>)
    ensures SummarySources(c, summaries).Some? <==> Distinct(SourceDigests(c, summaries))
    ensures SummarySources(c, summaries).Some? ==>
              var sources := SummarySources(c, summaries).value;
              && sources.Keys == Members(SourceDigests(c, summaries))
              && forall k :: 0 <= k < |summaries| ==>
                               SourceDigests(c, summaries)[k] in sources
                                 && sources[SourceDigests(c, summaries)[k]] == summaries[k]
  {
    if summaries == [] {
    } else {
      var last := |summaries| - 1;
      SourcesByDigest(c, summaries[..last]);
      assert SourceDigests(c, summaries)[..last] == SourceDigests(c, summaries[..last]);
      MembersAreItems(SourceDigests(c, summaries[..last]));
      var before := SourceDigests(c, summaries[..last]);
      if SummarySources(c, summaries).Some? {
        var sources := SummarySources(c, summaries).value;
        forall k | 0 <= k < |summaries|
          ensures SourceDigests(c, summaries)[k] in sources && sources[SourceDigests(c, summaries)[k]] == summaries[k]
        {
          if k < last { assert before[k] in before; }
        }
      }
    }
  }

  lemma {:induction false} SignedByKind(c: Capture, artifacts: seq<Signed>, kind: string)
    ensures SignedDigests(c, artifacts, kind).Some? <==>
            forall j :: 0 <= j < |artifacts| && artifacts[j].kind == kind ==> artifacts[j].subject in c.subjects
    ensures SignedDigests(c, artifacts, kind).Some? ==>
              forall d :: d in SignedDigests(c, artifacts, kind).value <==>
                exists j :: 0 <= j < |artifacts| && Signs(c, artifacts[j], kind, d)
  {
    if artifacts == [] {
    } else {
      var last := |artifacts| - 1;
      var before := artifacts[..last];
      SignedByKind(c, before, kind);
      if SignedDigests(c, artifacts, kind).Some? {
        var digests := SignedDigests(c, artifacts, kind).value;
        forall d
          ensures d in digests <==> exists j :: 0 <= j < |artifacts| && Signs(c, artifacts[j], kind, d)
        {
          SignedOneMore(c, artifacts, kind, d);
        }
      }
    }
  }

  lemma {:induction false} SignedOneMore(c: Capture, artifacts: seq<Signed>, kind: string, d: Digest)
    requires artifacts != []
    ensures var last := |artifacts| - 1;
            (exists j :: 0 <= j < |artifacts| && Signs(c, artifacts[j], kind, d)) <==>
            (exists j :: 0 <= j < last && Signs(c, artifacts[..last][j], kind, d)) || Signs(c, artifacts[last], kind, d)
  {
    var last := |artifacts| - 1;
    assert forall j :: 0 <= j < last ==> artifacts[..last][j] == artifacts[j];
  }

  lemma {:induction false} DiskStep(c: Capture)
    requires OneMetadata(c)
    ensures Members(Recordings(c)) == (set p | p in c.entries && McapEntry(p)) <==> OnDisk(c)
  {
    hide McapEntry, Recordings;
    MembersAreItems(Recordings(c));
    var disk := set p | p in c.entries && McapEntry(p);
    if Members(Recordings(c)) == disk {
      forall p: Parts
        ensures (p in c.entries && McapEntry(p)) <==> p in Recordings(c)
      {
        assert p in disk <==> p in Members(Recordings(c));
      }
    }
  }

  lemma {:induction false} SameMembers(a: seq<Digest>, b: seq<Digest>)
    ensures Members(a) == Members(b) <==> SameItems(a, b)
  {
    MembersAreItems(a);
    MembersAreItems(b);
    if Members(a) == Members(b) {
      forall x
        ensures x in a <==> x in b
      {
        assert x in Members(a) <==> x in Members(b);
      }
    }
  }

  lemma {:induction false} SummaryStep(c: Capture)
    requires MembersExist(c)
    ensures (SummarySources(c, c.summaries).Some? && |Members(Digests(c))| == |Recordings(c)|
             && Members(Digests(c)) == SummarySources(c, c.summaries).value.Keys) <==> Summarized(c)
  {
    hide Recordings, MembersExist, Members, Distinct, SameItems;
    SizeFindsRepeats(Digests(c));
    SourcesByDigest(c, c.summaries);
    SameMembers(Digests(c), SourceDigests(c, c.summaries));
  }

  lemma {:induction false} SignedStep(c: Capture, kind: string, digests: seq<Digest>)
    ensures (SignedDigests(c, c.artifacts, kind).Some?
        && Members(SignedDigests(c, c.artifacts, kind).value) == Members(digests))
            <==> SignedAre(c, kind, digests)
  {
    hide Members, SignedDigests;
    SignedByKind(c, c.artifacts, kind);
    if SignedDigests(c, c.artifacts, kind).Some? {
      var signed := SignedDigests(c, c.artifacts, kind).value;
      SameMembers(signed, digests);
      assert forall d :: d in signed <==> IsSigned(c, kind, d);
    }
  }

  /** Which summary a member has. */
  lemma {:induction false} SummaryOf(c: Capture, sources: map<Digest, SummaryFile>, i: nat) returns (k: nat)
    requires MembersExist(c) && Summarized(c) && SummarySources(c, c.summaries) == Some(sources) && i < |Digests(c)|
    ensures k < |c.summaries| && c.document(c.summaries[k].bytes).source == Digests(c)[i]
    ensures Digests(c)[i] in sources && sources[Digests(c)[i]] == c.summaries[k]
    ensures forall j :: 0 <= j < |c.summaries| && c.document(c.summaries[j].bytes).source == Digests(c)[i] ==>
        c.summaries[j] == c.summaries[k]
  {
    hide MembersExist, Distinct, Digests, Members;
    SourcesByDigest(c, c.summaries);
    var all := SourceDigests(c, c.summaries);
    assert Digests(c)[i] in Digests(c);
    k :| 0 <= k < |all| && all[k] == Digests(c)[i];
    forall j | 0 <= j < |c.summaries| && c.document(c.summaries[j].bytes).source == Digests(c)[i]
      ensures c.summaries[j] == c.summaries[k]
    {
      assert all[j] == Digests(c)[i];
    }
  }

  /** Position i is indexed exactly when its expected segment is recorded and its summary is short enough. */
  lemma {:induction false} PositionIndexed(c: Capture, sources: map<Digest, SummaryFile>, i: nat)
    requires MembersExist(c) && Summarized(c)
    requires SummarySources(c, c.summaries) == Some(sources) && AllDescribed(c, sources)
    requires i < |Digests(c)|
    ensures Indexed(c, i) <==>
        Short(c, sources, i) && SegmentFor(c, sources, i) in Recorded(c.index(c.indexBytes).artifacts)
  {
    hide MembersExist, Summarized, Digests, Recorded, AllDescribed, BytesOf;
    var k := SummaryOf(c, sources, i);
    if Indexed(c, i) {
      var j: nat :| SegmentOf(c, i, j);
      assert c.summaries[j] == c.summaries[k];
    } else {
      assert !SegmentOf(c, i, k);
    }
  }

  lemma {:induction false} IndexStep(c: Capture, sources: map<Digest, SummaryFile>)
    requires MembersExist(c) && Summarized(c)
    requires SummarySources(c, c.summaries) == Some(sources) && AllDescribed(c, sources)
    ensures CheckedIndex(c, sources) <==> AllIndexed(c)
  {
    hide MembersExist, Summarized, Digests, Recorded, Indexed, SegmentFor, Sorted, Information;
    var recorded, expected := Recorded(c.index(c.indexBytes).artifacts), ExpectedSegments(c, sources);
    ExpectedPositions(c, sources);
    SortedIsExpected(recorded, expected);
    assert |expected| == |Digests(c)|;
    forall i | 0 <= i < |Digests(c)|
      ensures Indexed(c, i) <==> Short(c, sources, i) && expected[i] in recorded
    {
      PositionIndexed(c, sources, i);
      assert expected[i] == SegmentFor(c, sources, i);
    }
    if AllIndexed(c) {
      forall i | 0 <= i < |expected|
        ensures Short(c, sources, i) && expected[i] in recorded
      {
        assert Indexed(c, i);
      }
    }
  }

  lemma {:induction false} ExpectedPositions(c: Capture, sources: map<Digest, SummaryFile>)
    requires MembersExist(c) && AllDescribed(c, sources)
    ensures Positioned(ExpectedSegments(c, sources))
  {
    hide MembersExist, Digests, AllDescribed, BytesOf;
  }

  lemma {:induction false} BoundIsAttested(c: Capture)
    requires MembersExist(c)
    ensures Bound(c) <==> Attested(c)
  {
    hide Information, Render;
    if Bound(c) {
      forall p | p in Recordings(c)
        ensures c.identity(c.files[p])
      {
        var i :| 0 <= i < |Recordings(c)| && Recordings(c)[i] == p;
        assert BytesOf(c, i) == c.files[p];
      }
    }
    if Attested(c) {
      forall i | 0 <= i < |Recordings(c)|
        ensures c.identity(BytesOf(c, i))
      {
        assert Recordings(c)[i] in Recordings(c);
      }
    }
  }

  /** Selection succeeds on a complete bag, and on nothing else: metadata members, MCAP entries on disk,
      summaries, signed recording and summary digests, and index segments correspond one to one, and every
      segment's index is the position of its member. */
  lemma {:induction false} FinalizedIffComplete(c: Capture)
    ensures Finalized(c).Some? <==> Complete(c)
  {
    hide Recordings, Members, Distinct, Digests, SummarySources, SignedDigests;
    hide SignedAre, Summarized, OnDisk, Bound, Attested, CheckedIndex, AllIndexed, McapEntry;
    if OneMetadata(c) {
      SizeFindsRepeats(Information(c).names);
      DiskStep(c);
      if MembersExist(c) {
        SummaryStep(c);
        BoundIsAttested(c);
        SignedStep(c, "recording", Digests(c));
        SignedStep(c, "recording_summary", SummaryDigests(c));
        if Summarized(c) {
          var sources := SummarySources(c, c.summaries).value;
          KeysDescribe(c, sources);
          IndexStep(c, sources);
        }
      }
    }
  }

  /** The selected members are the metadata members in their order, each with the summary of its segment. */
  lemma {:induction false} SelectedInOrder(c: Capture, i: nat)
    requires Finalized(c).Some? && i < |Finalized(c).value|
    ensures Complete(c) && |Finalized(c).value| == |Recordings(c)| == |Digests(c)|
    ensures Finalized(c).value[i].recording == Recordings(c)[i]
    ensures exists k: nat :: SegmentOf(c, i, k) && Finalized(c).value[i].summary == c.summaries[k].path
  {
    hide Members, Distinct, SummarySources, SignedDigests, SignedAre;
    hide Summarized, OnDisk, Bound, CheckedIndex, McapEntry, MemberName;
    FinalizedIffComplete(c);
    var sources := SummarySources(c, c.summaries).value;
    SelectedSegment(c, sources, i);
  }

  lemma {:induction false} SelectedSegment(c: Capture, sources: map<Digest, SummaryFile>, i: nat)
    requires MembersExist(c) && Summarized(c) && SummarySources(c, c.summaries) == Some(sources)
    requires AllIndexed(c) && i < |Digests(c)|
    ensures Digests(c)[i] in sources
    ensures exists k: nat :: SegmentOf(c, i, k) && sources[Digests(c)[i]].path == c.summaries[k].path
  {
    hide MembersExist, Summarized, Digests, Recorded;
    var k := SummaryOf(c, sources, i);
    assert Indexed(c, i);
    var j: nat :| SegmentOf(c, i, j);
    assert c.summaries[j] == c.summaries[k];
  }

  // ---- the scan of one recording ----

  /** One message in file order: a clock value, a sample of the recorded topic, or something else. */
  datatype Message = ClockMessage(value: int) | Sample(timestamp: int) | OtherMessage

  datatype Scan = Scan(first: int, last: int, samples: nat, clocks: nat, total: nat)

  function ClockValues(messages: seq<Message>): seq<int> {
    if messages == [] then []
    else
      var before, last := ClockValues(messages[..|messages| - 1]), messages[|messages| - 1];
      if last.ClockMessage? then before + [last.value] else before
  }

  function Timestamps(messages: seq<Message>): seq<int> {
    if messages == [] then []
    else
      var before, last := Timestamps(messages[..|messages| - 1]), messages[|messages| - 1];
      if last.Sample? then before + [last.timestamp] else before
  }

  predicate NeverBack(values: seq<int>) {
    forall i, j :: 0 <= i < j < |values| ==> values[i] <= values[j]
  }

  predicate Advances(values: seq<int>) {
    |values| >= 2 && values[0] < values[|values| - 1]
  }

  /** No clock or recording time goes back, and both advance. */
  predicate Scannable(messages: seq<Message>) {
    && NeverBack(ClockValues(messages)) && NeverBack(Timestamps(messages))
    && Advances(ClockValues(messages)) && Advances(Timestamps(messages))
  }

  /** The first and the latest of the values met so far. */
  ghost predicate Tracks(first: Option<int>, last: Option<int>, values: seq<int>) {
    && (values == [] ==> first == None && last == None)
    && (values != [] ==> first == Some(values[0]) && last == Some(values[|values| - 1]))
    && NeverBack(values)
  }

  lemma {:induction false} TracksNext(first: Option<int>, last: Option<int>, values: seq<int>, next: int)
    requires Tracks(first, last, values)
    ensures NeverBack(values + [next]) <==> last.None? || last.value <= next
    ensures last.None? || last.value <= next ==>
              Tracks(if first.None? then Some(next) else first, Some(next), values + [next])
  {
    var all := values + [next];
    if last.Some? && last.value > next {
      assert all[|values| - 1] > all[|values|];
    }
  }

  lemma {:induction false} BackStaysBack(messages: seq<Message>, n: nat)
    requires n <= |messages|
    ensures ClockValues(messages[..n]) <= ClockValues(messages) && Timestamps(messages[..n]) <= Timestamps(messages)
    decreases |messages|
  {
    if n == |messages| {
      assert messages[..n] == messages;
    } else {
      assert messages[..|messages| - 1][..n] == messages[..n];
      BackStaysBack(messages[..|messages| - 1], n);
    }
  }

  lemma {:induction false} PrefixNeverBack(a: seq<int>, b: seq<int>)
    requires a <= b && NeverBack(b)
    ensures NeverBack(a)
  {
  }

  method ScanRecording(messages: seq<Message>) returns (r: Option<Scan>)
    ensures r.Some? <==> Scannable(messages)
    ensures r.Some? ==>
              var times := Timestamps(messages);
              r.value == Scan(times[0], times[|times| - 1], |times|, |ClockValues(messages)|, |messages|)
  {
    hide NeverBack, Tracks;
    var first, last, firstClock, previousClock: Option<int> := None, None, None, None;
    var count, clocks, total := 0, 0, 0;
    NothingTracked();
    for i := 0 to |messages|
      invariant Tracks(firstClock, previousClock, ClockValues(messages[..i]))
          && Tracks(first, last, Timestamps(messages[..i]))
      invariant clocks == |ClockValues(messages[..i])| && count == |Timestamps(messages[..i])| && total == i
    {
      assert messages[..i + 1][..i] == messages[..i];
      total := total + 1;
      match messages[i]
      case ClockMessage(value) =>
        TracksNext(firstClock, previousClock, ClockValues(messages[..i]), value);
        if previousClock.Some? && value < previousClock.value {
          ScanFails(messages, i + 1);
          return None;
        }
        firstClock := if firstClock.None? then Some(value) else firstClock;
        previousClock := Some(value);
        clocks := clocks + 1;
      case Sample(timestamp) =>
        TracksNext(first, last, Timestamps(messages[..i]), timestamp);
        if last.Some? && timestamp < last.value {
          ScanFails(messages, i + 1);
          return None;
        }
        first := if first.None? then Some(timestamp) else first;
        last := Some(timestamp);
        count := count + 1;
      case OtherMessage =>
    }
    assert messages[..|messages|] == messages;
    TrackedEnds(first, last, Timestamps(messages));
    TrackedEnds(firstClock, previousClock, ClockValues(messages));
    if first.None? || last.None? || last.value <= first.value || count < 2 || clocks < 2
       || firstClock.None? || previousClock.None? || previousClock.value <= firstClock.value { return None; }
    r := Some(Scan(first.value, last.value, count, clocks, total));
  }

  lemma {:induction false} NothingTracked()
    ensures Tracks(None, None, [])
  {
  }

  lemma {:induction false} TrackedEnds(first: Option<int>, last: Option<int>, values: seq<int>)
    requires Tracks(first, last, values)
    ensures NeverBack(values) && (first.None? <==> values == []) && (last.None? <==> values == [])
    ensures values != [] ==> first == Some(values[0]) && last == Some(values[|values| - 1])
  {
  }

  lemma {:induction false} ScanFails(messages: seq<Message>, n: nat)
    requires n <= |messages| && (!NeverBack(ClockValues(messages[..n])) || !NeverBack(Timestamps(messages[..n])))
    ensures !Scannable(messages)
  {
    hide NeverBack;
    BackStaysBack(messages, n);
    if NeverBack(ClockValues(messages)) { PrefixNeverBack(ClockValues(messages[..n]), ClockValues(messages)); }
    if NeverBack(Timestamps(messages)) { PrefixNeverBack(Timestamps(messages[..n]), Timestamps(messages)); }
  }
}
