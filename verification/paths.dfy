/** Relative POSIX paths as the Python workers read and print them, and the injective stand-in for
    SHA-256 used throughout: two byte strings have the same digest exactly when they are equal. */
module Paths {

  datatype Option<+T> = None | Some(value: T)

  newtype Byte = x: int | 0 <= x < 256
  type Bytes = seq<Byte>

  datatype Digest = Sha256(preimage: Bytes)

  /** The components of a path; the empty list is the directory the path is relative to. */
  type Parts = seq<string>

  /** Python's `value.split("/")`. */
  function Split(value: string): (r: seq<string>)
    ensures |r| > 0
  {
    if value == "" then [""]
    else
      var rest := Split(value[1..]);
      if value[0] == '/' then [""] + rest else [[value[0]] + rest[0]] + rest[1..]
  }

  /** The components `PurePosixPath` keeps. */
  function Kept(parts: seq<string>): Parts {
    if parts == [] then []
    else if parts[0] == "" || parts[0] == "." then Kept(parts[1..])
    else [parts[0]] + Kept(parts[1..])
  }

  predicate IsControl(c: char) {
    c as int < 32 || c as int == 127
  }

  /** `relative` of the export worker: the admitted components, or a refusal. */
  function Relative(value: string): Option<Parts> {
    var parts := Kept(Split(value));
    if value == "" || value == "." || value == ".." || value[0] == '/' || ".." in parts then None
    else if HasControl(value) then None
    else Some(parts)
  }

  /** `str(path)`. */
  function Render(parts: Parts): string {
    if parts == [] then "." else Join(parts)
  }

  function Join(parts: Parts): string
    requires parts != []
  {
    if |parts| == 1 then parts[0] else parts[0] + "/" + Join(parts[1..])
  }

  /** A name a directory entry can have. */
  predicate FileName(part: string) {
    part != "" && part != "." && part != ".." && forall i :: 0 <= i < |part| ==> part[i] != '/'
  }

  predicate FileNames(parts: Parts) {
    forall i :: 0 <= i < |parts| ==> FileName(parts[i])
  }

  predicate HasControl(text: string) {
    exists i :: 0 <= i < |text| && IsControl(text[i])
  }

  /** Components that survive printing and reading. */
  predicate PortableParts(parts: Parts) {
    FileNames(parts) && forall i :: 0 <= i < |parts| ==> !HasControl(parts[i])
  }

  lemma {:induction false} SplitHasNoSlash(value: string)
    ensures forall i, k :: 0 <= i < |Split(value)| && 0 <= k < |Split(value)[i]| ==>
              Split(value)[i][k] != '/' && Split(value)[i][k] in value
  {
    if value == "" {
    } else {
      SplitHasNoSlash(value[1..]);
      var rest := Split(value[1..]);
      forall i, k | 0 <= i < |Split(value)| && 0 <= k < |Split(value)[i]|
        ensures Split(value)[i][k] != '/' && Split(value)[i][k] in value
      {
        if value[0] != '/' && i == 0 && k > 0 {
          assert Split(value)[i][k] == rest[0][k - 1];
        }
      }
    }
  }

  lemma {:induction false} KeptSound(parts: seq<string>)
    ensures forall i :: 0 <= i < |Kept(parts)| ==>
        Kept(parts)[i] in parts && Kept(parts)[i] != "" && Kept(parts)[i] != "."
  {
    if parts == [] {
    } else {
      KeptSound(parts[1..]);
    }
  }

  lemma {:induction false} KeptAll(parts: seq<string>)
    requires forall i :: 0 <= i < |parts| ==> parts[i] != "" && parts[i] != "."
    ensures Kept(parts) == parts
  {
    if parts == [] {
    } else {
      KeptAll(parts[1..]);
    }
  }

  /** What is admitted is portable. */
  lemma {:induction false} RelativeIsPortable(value: string)
    requires Relative(value).Some?
    ensures PortableParts(Relative(value).value)
  {
    SplitHasNoSlash(value);
    KeptSound(Split(value));
    var parts := Relative(value).value;
    forall i | 0 <= i < |parts|
      ensures FileName(parts[i]) && !HasControl(parts[i])
    {
      var j :| 0 <= j < |Split(value)| && Split(value)[j] == parts[i];
    }
  }

  lemma {:induction false} SplitPart(part: string, rest: string)
    requires forall i :: 0 <= i < |part| ==> part[i] != '/'
    ensures Split(part) == [part]
    ensures Split(part + "/" + rest) == [part] + Split(rest)
  {
    if part == "" {
      assert part + "/" + rest == "/" + rest;
    } else {
      SplitPart(part[1..], rest);
      assert [part[0]] + part[1..] == part;
      assert (part + "/" + rest)[1..] == part[1..] + "/" + rest;
    }
  }

  lemma {:induction false} SplitJoin(parts: Parts)
    requires parts != [] && FileNames(parts)
    ensures Split(Join(parts)) == parts
    ensures Join(parts) != "" && Join(parts)[0] == parts[0][0]
  {
    hide Split;
    SplitPart(parts[0], if |parts| == 1 then "" else Join(parts[1..]));
    if |parts| == 1 {
    } else {
      SplitJoin(parts[1..]);
      assert parts == [parts[0]] + parts[1..];
    }
  }

  lemma {:induction false} JoinControl(parts: Parts)
    requires parts != [] && PortableParts(parts)
    ensures !HasControl(Join(parts))
  {
    if |parts| == 1 {
    } else {
      JoinControl(parts[1..]);
    }
  }

  /** Printing a path and reading it again gives the same path, or a refusal when a name in it
      holds a control character. */
  lemma {:induction false} RelativeUndoesRender(parts: Parts)
    requires parts != [] && FileNames(parts)
    ensures Relative(Render(parts)).Some? ==> Relative(Render(parts)).value == parts
    ensures PortableParts(parts) ==> Relative(Render(parts)) == Some(parts)
  {
    SplitJoin(parts);
    KeptAll(parts);
    if PortableParts(parts) { JoinControl(parts); }
  }

  // ---- file name suffixes ----

  predicate EndsWith(name: string, suffix: string) {
    |suffix| <= |name| && name[|name| - |suffix|..] == suffix
  }

  function LastDot(name: string): int
    ensures -1 <= LastDot(name) < |name|
    ensures LastDot(name) >= 0 ==> name[LastDot(name)] == '.'
    ensures forall i :: LastDot(name) < i < |name| ==> name[i] != '.'
  {
    if name == "" then -1
    else if name[|name| - 1] == '.' then |name| - 1
    else LastDot(name[..|name| - 1])
  }

  /** `PurePath.suffix` of a final component: a leading or a trailing dot starts no suffix. */
  function Suffix(name: string): string {
    var i := LastDot(name);
    if 0 < i < |name| - 1 then name[i..] else ""
  }

  // ---- decimal numbers ----

  function Decimal(n: nat): string {
    var digit := [('0' as int + n % 10) as char];
    if n < 10 then digit else Decimal(n / 10) + digit
  }

  lemma {:induction false} DecimalInjective(m: nat, n: nat)
    requires Decimal(m) == Decimal(n)
    ensures m == n
  {
    var a, b := Decimal(m), Decimal(n);
    assert a[|a| - 1] == b[|b| - 1];
    assert a[..|a| - 1] == b[..|b| - 1];
    assert m % 10 == n % 10;
    DecimalNonempty(m / 10);
    DecimalNonempty(n / 10);
    if m >= 10 && n >= 10 {
      assert a[..|a| - 1] == Decimal(m / 10) && b[..|b| - 1] == Decimal(n / 10);
      DecimalInjective(m / 10, n / 10);
    }
  }

  lemma {:induction false} DecimalNonempty(n: nat)
    ensures Decimal(n) != []
  {
  }

  // ---- repetitions in a list ----

  predicate Distinct<T(==)>(items: seq<T>) {
    items == [] || (Distinct(items[..|items| - 1]) && items[|items| - 1] !in items[..|items| - 1])
  }

  function Members<T(==)>(items: seq<T>): set<T> {
    if items == [] then {} else Members(items[..|items| - 1]) + {items[|items| - 1]}
  }

  lemma {:induction false} MembersAreItems<T>(items: seq<T>)
    ensures forall x :: x in Members(items) <==> x in items
  {
    if items == [] {
    } else {
      MembersAreItems(items[..|items| - 1]);
      assert items == items[..|items| - 1] + [items[|items| - 1]];
    }
  }

  /** Comparing a list's length with the size of its set finds repetitions. */
  lemma {:induction false} SizeFindsRepeats<T>(items: seq<T>)
    ensures |Members(items)| <= |items|
    ensures |Members(items)| == |items| <==> Distinct(items)
  {
    if items == [] {
    } else {
      SizeFindsRepeats(items[..|items| - 1]);
      MembersAreItems(items[..|items| - 1]);
    }
  }

  lemma {:induction false} DistinctDiffer<T>(items: seq<T>, i: nat, j: nat)
    requires Distinct(items) && i < j < |items|
    ensures items[i] != items[j]
    decreases |items|
  {
    if j == |items| - 1 {
      assert items[i] in items[..j];
    } else {
      DistinctDiffer(items[..|items| - 1], i, j);
    }
  }

  /** A path text is admitted exactly when it is relative, more than a dot, without control characters, and no
      component leads upwards; empty components and dots are dropped. */
  lemma {:induction false} RelativeExactly(value: string)
    ensures Relative(value).Some? <==>
            && value != "" && value != "." && !("/" <= value) && !HasControl(value)
            && forall i :: 0 <= i < |Split(value)| ==> Split(value)[i] != ".."
    ensures Relative(value).Some? ==>
      forall part :: part in Relative(value).value <==> part in Split(value) && part != "" && part != "."
  {
    hide HasControl;
    forall part
      ensures part in Kept(Split(value)) <==> part in Split(value) && part != "" && part != "."
    {
      KeptHolds(Split(value), part);
    }
    KeptHolds(Split(value), "..");
    assert ".." in Split(value) <==> exists i :: 0 <= i < |Split(value)| && Split(value)[i] == "..";
    assert value != "" ==> ("/" <= value <==> value[0] == '/');
    if value == ".." {
      SplitPart(value, "");
      assert Split(value)[0] == "..";
    }
  }

  lemma {:induction false} KeptHolds(parts: seq<string>, part: string)
    ensures part in Kept(parts) <==> part in parts && part != "" && part != "."
  {
    if parts == [] {
    } else {
      KeptHolds(parts[1..], part);
    }
  }
}
