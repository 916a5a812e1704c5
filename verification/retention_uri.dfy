/** The canonical S3 URI of a retained artifact, on byte strings: percent-encoding (sections 2.1 and 2.3 of
    RFC 3986), the URI splitter's leniencies, and the one URI accepted for each bucket and key. */
module RetentionUri {
  import opened Paths

  const SLASH: Byte := 47
  const COLON: Byte := 58
  const QUESTION: Byte := 63
  const HASH: Byte := 35
  const PERCENT: Byte := 37

  /** The bytes of `s3` and of `s3://`. */
  const S3: Bytes := [115, 51]
  const PREFIX: Bytes := [115, 51, 58, 47, 47]

  predicate IsLower(b: Byte) { 97 <= b <= 122 }
  predicate IsUpper(b: Byte) { 65 <= b <= 90 }
  predicate IsDigit(b: Byte) { 48 <= b <= 57 }

  // ---- percent-encoding ----

  /** The bytes `quote(key, safe='/')` leaves alone: unreserved characters and the slash. */
  predicate Safe(b: Byte) {
    IsLower(b) || IsUpper(b) || IsDigit(b) || b == 45 || b == 46 || b == 95 || b == 126 || b == SLASH
  }

  function HexDigit(n: int): Byte
    requires 0 <= n < 16
  {
    if n < 10 then (48 + n) as Byte else (55 + n) as Byte
  }

  function Quote(key: Bytes): Bytes {
    if key == [] then []
    else
      var b := key[0];
      (if Safe(b) then [b] else [PERCENT, HexDigit(b as int / 16), HexDigit(b as int % 16)]) + Quote(key[1..])
  }

  /** Either case of a hexadecimal digit. */
  function HexValue(b: Byte): Option<int> {
    if IsDigit(b) then Some(b as int - 48)
    else if 65 <= b <= 70 then Some(b as int - 55)
    else if 97 <= b <= 102 then Some(b as int - 87)
    else None
  }

  predicate Escape(text: Bytes) {
    |text| >= 3 && text[0] == PERCENT && HexValue(text[1]).Some? && HexValue(text[2]).Some?
  }

  /** A percent sign that starts no escape stands for itself. */
  function Unquote(text: Bytes): Bytes {
    if text == [] then []
    else if Escape(text) then
      HexBounds(text[1]);
      HexBounds(text[2]);
      [(16 * HexValue(text[1]).value + HexValue(text[2]).value) as Byte] + Unquote(text[3..])
    else [text[0]] + Unquote(text[1..])
  }

  lemma {:induction false} HexBounds(b: Byte)
    ensures HexValue(b).Some? ==> 0 <= HexValue(b).value < 16
  {
  }

  predicate Continuation(text: Bytes, from: nat, count: nat) {
    from + count <= |text| && forall i :: from <= i < from + count ==> 128 <= text[i] < 192
  }

  /** Well-formed UTF-8 (section 4 of RFC 3629), as strict decoding demands it. */
  predicate ValidUtf8(text: Bytes) {
    text == [] ||
    var b := text[0];
    if b < 128 then ValidUtf8(text[1..])
    else if 194 <= b < 224 then Continuation(text, 1, 1) && ValidUtf8(text[2..])
    else if 224 <= b < 240 then
      Continuation(text, 1, 2) && (b == 224 ==> text[1] >= 160) && (b == 237 ==> text[1] < 160) && ValidUtf8(text[3..])
    else if 240 <= b < 245 then
      Continuation(text, 1, 3) && (b == 240 ==> text[1] >= 144) && (b == 244 ==> text[1] < 144) && ValidUtf8(text[4..])
    else false
  }

  // ---- the splitter ----

  datatype Location = Location(scheme: Bytes, netloc: Bytes, path: Bytes, query: Bytes, fragment: Bytes)

  /** Leading control characters and spaces are dropped. */
  function Stripped(uri: Bytes): Bytes {
    if uri != [] && uri[0] <= 32 then Stripped(uri[1..]) else uri
  }

  /** Tabs and line ends are dropped wherever they stand. */
  function Joined(uri: Bytes): Bytes {
    if uri == [] then []
    else (if uri[0] == 9 || uri[0] == 10 || uri[0] == 13 then [] else [uri[0]]) + Joined(uri[1..])
  }

  /** The number of bytes before the first delimiter. */
  function Until(text: Bytes, stops: set<Byte>): (n: nat)
    ensures n <= |text|
    ensures n < |text| ==> text[n] in stops
    ensures forall i :: 0 <= i < n ==> text[i] !in stops
  {
    if text == [] || text[0] in stops then 0 else 1 + Until(text[1..], stops)
  }

  predicate SchemeBytes(text: Bytes) {
    text != [] && (IsLower(text[0]) || IsUpper(text[0]))
    && forall i :: 0 <= i < |text| ==>
         IsLower(text[i]) || IsUpper(text[i]) || IsDigit(text[i]) || text[i] == 43 || text[i] == 45 || text[i] == 46
  }

  function Lowered(text: Bytes): Bytes {
    seq(|text|, i requires 0 <= i < |text| => if IsUpper(text[i]) then text[i] + 32 else text[i])
  }

  /** The scheme, if there is one, and the rest. */
  function SplitScheme(text: Bytes): (Bytes, Bytes) {
    var n := Until(text, {COLON});
    if n < |text| && SchemeBytes(text[..n]) then (Lowered(text[..n]), text[n + 1..]) else ([], text)
  }

  function SplitNetloc(text: Bytes): (Bytes, Bytes) {
    if |text| >= 2 && text[0] == SLASH && text[1] == SLASH then
      var n := Until(text[2..], {SLASH, QUESTION, HASH});
      (text[2..][..n], text[2..][n..])
    else ([], text)
  }

  /** What follows the first delimiter, and what stands before it. */
  function SplitAt(text: Bytes, stop: Byte): (Bytes, Bytes) {
    var n := Until(text, {stop});
    if n < |text| then (text[..n], text[n + 1..]) else (text, [])
  }

  function UrlSplit(uri: Bytes): Location {
    var (scheme, rest) := SplitScheme(Joined(Stripped(uri)));
    var (netloc, tail) := SplitNetloc(rest);
    var (unfragmented, fragment) := SplitAt(tail, HASH);
    var (path, query) := SplitAt(unfragmented, QUESTION);
    Location(scheme, netloc, path, query, fragment)
  }

  // ---- acceptance ----

  predicate BucketEnd(b: Byte) {
    IsLower(b) || IsDigit(b)
  }

  /** `[a-z0-9][a-z0-9.-]{1,61}[a-z0-9]`. */
  predicate ValidBucket(bucket: Bytes) {
    && 3 <= |bucket| <= 63 && BucketEnd(bucket[0]) && BucketEnd(bucket[|bucket| - 1])
    && forall i :: 0 <= i < |bucket| ==> BucketEnd(bucket[i]) || bucket[i] == 45 || bucket[i] == 46
  }

  function Canonical(bucket: Bytes, key: Bytes): Bytes {
    PREFIX + bucket + [SLASH] + Quote(key)
  }

  datatype Object = Object(bucket: Bytes, key: Bytes)

  /** The URI part of `registration_descriptor`. */
  function Accepted(uri: Bytes): Option<Object> {
    var location := UrlSplit(uri);
    if location.scheme != S3 || !ValidBucket(location.netloc) || location.query != []
      || location.fragment != [] then None
    else
      var path := if location.path != [] && location.path[0] == SLASH then location.path[1..] else location.path;
      var key := Unquote(path);
      if !ValidUtf8(key) || key == [] || uri != Canonical(location.netloc, key) then None
      else Some(Object(location.netloc, key))
  }

  // ---- decoding undoes encoding ----

  lemma {:induction false} HexRoundTrip(b: Byte)
    ensures HexValue(HexDigit(b as int / 16)) == Some(b as int / 16)
        && HexValue(HexDigit(b as int % 16)) == Some(b as int % 16)
  {
  }

  lemma {:induction false} UnquoteUndoesQuote(key: Bytes)
    ensures Unquote(Quote(key)) == key
  {
    if key == [] {
    } else {
      var b, rest := key[0], Quote(key[1..]);
      UnquoteUndoesQuote(key[1..]);
      if Safe(b) {
        assert ([b] + rest)[1..] == rest;
      } else {
        HexRoundTrip(b);
        var escape := [PERCENT, HexDigit(b as int / 16), HexDigit(b as int % 16)];
        assert (escape + rest)[3..] == rest;
        assert Quote(key) == escape + rest;
      }
    }
  }

  lemma {:induction false} QuoteInjective(a: Bytes, b: Bytes)
    requires Quote(a) == Quote(b)
    ensures a == b
  {
    UnquoteUndoesQuote(a);
    UnquoteUndoesQuote(b);
  }

  /** An encoded key consists of safe bytes and escapes with upper-case digits. */
  lemma {:induction false} QuotedBytes(key: Bytes)
    ensures forall i :: 0 <= i < |Quote(key)| ==> Safe(Quote(key)[i]) || Quote(key)[i] == PERCENT
  {
    if key == [] {
    } else {
      QuotedBytes(key[1..]);
    }
  }

  // ---- one URI for each object ----

  /** Bytes the splitter neither drops nor takes for a delimiter. */
  predicate Plain(text: Bytes) {
    forall i :: 0 <= i < |text| ==> text[i] > 32 && text[i] != QUESTION && text[i] != HASH
  }

  lemma {:induction false} JoinedPlain(text: Bytes)
    requires Plain(text)
    ensures Joined(text) == text
  {
    if text == [] {
    } else {
      JoinedPlain(text[1..]);
    }
  }

  lemma {:induction false} UntilIs(text: Bytes, stops: set<Byte>, n: nat)
    requires n <= |text| && (n < |text| ==> text[n] in stops) && forall i :: 0 <= i < n ==> text[i] !in stops
    ensures Until(text, stops) == n
  {
    var m := Until(text, stops);
    assert m == n;
  }

  lemma {:induction false} CanonicalPlain(bucket: Bytes, key: Bytes)
    requires ValidBucket(bucket)
    ensures Plain(Canonical(bucket, key))
  {
    QuotedBytes(key);
  }

  /** The canonical URI splits into its bucket and its encoded key. */
  lemma {:induction false} CanonicalSplits(bucket: Bytes, key: Bytes)
    requires ValidBucket(bucket)
    ensures UrlSplit(Canonical(bucket, key)) == Location(S3, bucket, [SLASH] + Quote(key), [], [])
  {
    hide Quote, ValidBucket, Plain, Joined;
    var uri, tail := Canonical(bucket, key), [SLASH] + Quote(key);
    CanonicalPlain(bucket, key);
    CanonicalHead(bucket, key);
    JoinedPlain(uri);
    assert SplitScheme(uri) == (S3, [SLASH, SLASH] + bucket + tail) by { CanonicalScheme(bucket, tail); }
    assert SplitNetloc([SLASH, SLASH] + bucket + tail) == (bucket, tail) by { CanonicalNetloc(bucket, tail); }
    TailPlain(key);
    UntilIs(tail, {HASH}, |tail|);
    UntilIs(tail, {QUESTION}, |tail|);
  }

  lemma {:induction false} CanonicalHead(bucket: Bytes, key: Bytes)
    ensures Stripped(Canonical(bucket, key)) == Canonical(bucket, key)
    ensures Canonical(bucket, key) == [115, 51, COLON] + ([SLASH, SLASH] + bucket + ([SLASH] + Quote(key)))
  {
    hide Quote;
    assert Canonical(bucket, key)[0] == 115;
  }

  lemma {:induction false} TailPlain(key: Bytes)
    ensures forall i :: 0 <= i < |[SLASH] + Quote(key)| ==>
        ([SLASH] + Quote(key))[i] != HASH && ([SLASH] + Quote(key))[i] != QUESTION
  {
    QuotedBytes(key);
  }

  lemma {:induction false} CanonicalScheme(bucket: Bytes, tail: Bytes)
    ensures SplitScheme([115, 51, COLON] + ([SLASH, SLASH] + bucket + tail)) == (S3, [SLASH, SLASH] + bucket + tail)
  {
    var rest := [SLASH, SLASH] + bucket + tail;
    var text := [115, 51, COLON] + rest;
    UntilIs(text, {COLON}, 2);
    assert text[..2] == S3 && text[3..] == rest;
    assert Lowered(S3) == S3;
  }

  lemma {:induction false} CanonicalNetloc(bucket: Bytes, tail: Bytes)
    requires ValidBucket(bucket) && tail != [] && tail[0] == SLASH
    ensures SplitNetloc([SLASH, SLASH] + bucket + tail) == (bucket, tail)
  {
    var text := [SLASH, SLASH] + bucket + tail;
    assert text[2..] == bucket + tail;
    UntilIs(bucket + tail, {SLASH, QUESTION, HASH}, |bucket|);
    assert (bucket + tail)[..|bucket|] == bucket && (bucket + tail)[|bucket|..] == tail;
  }

  /** A URI is accepted for a bucket and a key exactly when it is their canonical URI, the bucket is valid,
      and the key is nonempty and decodes. */
  lemma {:induction false} AcceptedIffCanonical(uri: Bytes, bucket: Bytes, key: Bytes)
    ensures Accepted(uri) == Some(Object(bucket, key)) <==>
            uri == Canonical(bucket, key) && ValidBucket(bucket) && key != [] && ValidUtf8(key)
  {
    hide UrlSplit, Quote, Unquote, ValidUtf8, ValidBucket;
    if uri == Canonical(bucket, key) && ValidBucket(bucket) {
      CanonicalSplits(bucket, key);
      assert ([SLASH] + Quote(key))[1..] == Quote(key);
      UnquoteUndoesQuote(key);
    }
  }

  /** Different objects have different canonical URIs: with `AcceptedIffCanonical`, the accepted URIs and
      the objects they name correspond one to one. */
  lemma {:induction false} CanonicalInjective(b1: Bytes, k1: Bytes, b2: Bytes, k2: Bytes)
    requires ValidBucket(b1) && ValidBucket(b2) && Canonical(b1, k1) == Canonical(b2, k2)
    ensures b1 == b2 && k1 == k2
  {
    hide UrlSplit, Canonical, Quote, ValidBucket;
    CanonicalSplits(b1, k1);
    CanonicalSplits(b2, k2);
    assert ([SLASH] + Quote(k1))[1..] == Quote(k1);
    assert ([SLASH] + Quote(k2))[1..] == Quote(k2);
    QuoteInjective(k1, k2);
  }
}
