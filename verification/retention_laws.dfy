/** Which bytes of a key stand for themselves in its URI, and what stands for the others. */
module RetentionLaws {
  import opened Paths
  import opened RetentionUri

  /** The unreserved characters of section 2.3 of RFC 3986, and the slash. */
  predicate Plain(b: Byte) {
    || ('A' as int <= b as int <= 'Z' as int) || ('a' as int <= b as int <= 'z' as int)
    || ('0' as int <= b as int <= '9' as int)
    || b as int in {'-' as int, '.' as int, '_' as int, '~' as int, '/' as int}
  }

  predicate UpperHex(b: Byte) {
    ('0' as int <= b as int <= '9' as int) || ('A' as int <= b as int <= 'F' as int)
  }

  /** A byte stands for itself exactly when it is plain; any other is a percent sign with two upper-case digits. */
  lemma {:induction false} QuoteByte(b: Byte)
    ensures Plain(b) ==> Quote([b]) == [b]
    ensures !Plain(b) ==>
      && |Quote([b])| == 3 && Quote([b])[0] == '%' as int as Byte
      && UpperHex(Quote([b])[1]) && UpperHex(Quote([b])[2])
      && HexValue(Quote([b])[1]) == Some(b as int / 16) && HexValue(Quote([b])[2]) == Some(b as int % 16)
  {
    assert [b][1..] == [];
    assert Quote([]) == [];
  }

  /** A key is quoted byte by byte. */
  lemma {:induction false} QuoteConcat(a: Bytes, b: Bytes)
    ensures Quote(a + b) == Quote(a) + Quote(b)
  {
    hide Safe, HexDigit;
    if a == [] {
      assert a + b == b;
    } else {
      assert (a + b)[1..] == a[1..] + b;
      QuoteConcat(a[1..], b);
    }
  }

  /** So a key is its own quotation exactly when all its bytes are plain. */
  lemma {:induction false} PlainIsUnquoted(key: Bytes)
    ensures Quote(key) == key <==> forall i :: 0 <= i < |key| ==> Plain(key[i])
    ensures |Quote(key)| >= |key|
  {
    hide Safe, HexDigit, Plain;
    if key == [] {
    } else {
      var b, rest := key[0], key[1..];
      PlainIsUnquoted(rest);
      QuoteByte(b);
      QuoteConcat([b], rest);
      assert key == [b] + rest;
      if Plain(b) {
        assert Quote(key)[1..] == Quote(rest);
      } else {
        assert |Quote(key)| == 3 + |Quote(rest)| > |key|;
      }
      if Quote(key) == key {
        forall i | 0 <= i < |key|
          ensures Plain(key[i])
        {
          if i > 0 { assert rest[i - 1] == key[i]; }
        }
      }
      if forall i :: 0 <= i < |key| ==> Plain(key[i]) {
        assert forall i :: 0 <= i < |rest| ==> rest[i] == key[i + 1];
      }
    }
  }

  // ---- text ----

  /** A Unicode scalar value (section 3 of RFC 3629). */
  predicate Scalar(code: int) {
    0 <= code < 0x110000 && !(0xD800 <= code < 0xE000)
  }

  /** The UTF-8 encoding of a scalar value: one to four bytes. */
  function Encode(code: int): Bytes
    requires Scalar(code)
  {
    if code < 0x80 then [code as Byte]
    else if code < 0x800 then [(0xC0 + code / 64) as Byte, (0x80 + code % 64) as Byte]
    else if code < 0x10000 then
      [(0xE0 + code / 4096) as Byte, (0x80 + code / 64 % 64) as Byte, (0x80 + code % 64) as Byte]
    else
      [(0xF0 + code / 262144) as Byte, (0x80 + code / 4096 % 64) as Byte, (0x80 + code / 64 % 64) as Byte,
       (0x80 + code % 64) as Byte]
  }

  predicate Scalars(codes: seq<int>) {
    forall i :: 0 <= i < |codes| ==> Scalar(codes[i])
  }

  function EncodeAll(codes: seq<int>): Bytes
    requires Scalars(codes)
  {
    if codes == [] then [] else Encode(codes[0]) + EncodeAll(codes[1..])
  }

  lemma {:induction false} EncodedIsValid(code: int, rest: Bytes)
    requires Scalar(code) && ValidUtf8(rest)
    ensures ValidUtf8(Encode(code) + rest)
  {
    var text := Encode(code) + rest;
    if code < 0x80 {
      assert text[1..] == rest;
    } else if code < 0x800 {
      assert text[2..] == rest;
    } else if code < 0x10000 {
      assert text[3..] == rest;
    } else {
      assert text[4..] == rest;
    }
  }

  lemma {:induction false} AllEncodedIsValid(codes: seq<int>)
    requires Scalars(codes)
    ensures ValidUtf8(EncodeAll(codes))
  {
    hide Encode;
    if codes == [] {
    } else {
      AllEncodedIsValid(codes[1..]);
      EncodedIsValid(codes[0], EncodeAll(codes[1..]));
    }
  }

  /** Digits to the base 64, put together and taken apart again. */
  lemma {:induction false} TwoDigits(a: int, b: int)
    requires 0 <= a && 0 <= b < 64
    ensures var code := a * 64 + b; code / 64 == a && code % 64 == b
  {
  }

  lemma {:induction false} ThreeDigits(a: int, b: int, c: int)
    requires 0 <= a && 0 <= b < 64 && 0 <= c < 64
    ensures var code := a * 4096 + b * 64 + c; code / 4096 == a && code / 64 % 64 == b && code % 64 == c
  {
    var code := a * 4096 + b * 64 + c;
    TwoDigits(a * 64 + b, c);
    TwoDigits(a, b);
    assert code == (a * 64 + b) * 64 + c && code / 4096 == code / 64 / 64;
  }

  lemma {:induction false} FourDigits(a: int, b: int, c: int, d: int)
    requires 0 <= a && 0 <= b < 64 && 0 <= c < 64 && 0 <= d < 64
    ensures var code := a * 262144 + b * 4096 + c * 64 + d;
      code / 262144 == a && code / 4096 % 64 == b && code / 64 % 64 == c && code % 64 == d
  {
    var code := a * 262144 + b * 4096 + c * 64 + d;
    TwoDigits(a * 4096 + b * 64 + c, d);
    ThreeDigits(a, b, c);
    assert code == (a * 4096 + b * 64 + c) * 64 + d;
    assert code / 262144 == code / 64 / 4096 && code / 4096 == code / 64 / 64;
  }

  lemma {:induction false} DecodeTwo(text: Bytes) returns (code: int)
    requires ValidUtf8(text) && text != [] && 0x80 <= text[0] as int < 0xE0
    ensures |text| >= 2 && Scalar(code) && Encode(code) == text[..2] && ValidUtf8(text[2..])
  {
    var a, b := text[0] as int - 0xC0, text[1] as int - 0x80;
    code := a * 64 + b;
    TwoDigits(a, b);
    assert text[..2] == [text[0], text[1]];
  }

  lemma {:induction false} DecodeThree(text: Bytes) returns (code: int)
    requires ValidUtf8(text) && text != [] && 0xE0 <= text[0] as int < 0xF0
    ensures |text| >= 3 && Scalar(code) && Encode(code) == text[..3] && ValidUtf8(text[3..])
  {
    var a, b, c := text[0] as int - 0xE0, text[1] as int - 0x80, text[2] as int - 0x80;
    code := a * 4096 + b * 64 + c;
    ThreeDigits(a, b, c);
    assert text[..3] == [text[0], text[1], text[2]];
  }

  lemma {:induction false} DecodeFour(text: Bytes) returns (code: int)
    requires ValidUtf8(text) && text != [] && 0xF0 <= text[0] as int
    ensures |text| >= 4 && Scalar(code) && Encode(code) == text[..4] && ValidUtf8(text[4..])
  {
    var a, b := text[0] as int - 0xF0, text[1] as int - 0x80;
    var c, d := text[2] as int - 0x80, text[3] as int - 0x80;
    code := a * 262144 + b * 4096 + c * 64 + d;
    FourDigits(a, b, c, d);
    assert text[..4] == [text[0], text[1], text[2], text[3]];
  }

  /** The scalar value at the beginning of a well-formed text, and its length. */
  lemma {:induction false} DecodeFirst(text: Bytes) returns (code: int, n: nat)
    requires ValidUtf8(text) && text != []
    ensures 0 < n <= |text| && Scalar(code) && Encode(code) == text[..n] && ValidUtf8(text[n..])
  {
    var a := text[0] as int;
    if a < 0x80 {
      code, n := a, 1;
    } else if a < 0xE0 {
      code := DecodeTwo(text);
      n := 2;
    } else if a < 0xF0 {
      code := DecodeThree(text);
      n := 3;
    } else {
      code := DecodeFour(text);
      n := 4;
    }
  }

  /** A byte string is well-formed exactly when it is the encoding of a sequence of scalar values. */
  lemma {:induction false} Utf8Exactly(text: Bytes)
    ensures ValidUtf8(text) <==> exists codes :: Scalars(codes) && EncodeAll(codes) == text
  {
    hide ValidUtf8, EncodeAll, Scalars;
    if ValidUtf8(text) {
      var codes := DecodeAll(text);
    }
    forall codes | Scalars(codes) && EncodeAll(codes) == text
      ensures ValidUtf8(text)
    {
      AllEncodedIsValid(codes);
    }
  }

  lemma {:induction false} DecodeAll(text: Bytes) returns (codes: seq<int>)
    requires ValidUtf8(text)
    ensures Scalars(codes) && EncodeAll(codes) == text
    decreases |text|
  {
    hide Encode, ValidUtf8;
    if text == [] {
      codes := [];
    } else {
      var code, n := DecodeFirst(text);
      var rest := DecodeAll(text[n..]);
      codes := [code] + rest;
      assert codes[1..] == rest && text == text[..n] + text[n..];
    }
  }

  /** A bucket name: letters and digits at both ends, and in between one to 61 of those, dots and hyphens. */
  lemma {:induction false} BucketExactly(bucket: Bytes)
    ensures ValidBucket(bucket) <==>
            exists first: Byte, middle: Bytes, last: Byte ::
              && bucket == [first] + middle + [last] && 1 <= |middle| <= 61
              && LowerOrDigit(first) && LowerOrDigit(last)
              && forall i :: 0 <= i < |middle| ==>
                   LowerOrDigit(middle[i]) || middle[i] as int in {'.' as int, '-' as int}
  {
    if ValidBucket(bucket) {
      var middle := bucket[1..|bucket| - 1];
      assert bucket == [bucket[0]] + middle + [bucket[|bucket| - 1]];
      assert forall i :: 0 <= i < |middle| ==> middle[i] == bucket[i + 1];
    }
    forall first: Byte, middle: Bytes, last: Byte |
        && bucket == [first] + middle + [last] && 1 <= |middle| <= 61 && LowerOrDigit(first) && LowerOrDigit(last)
        && forall i :: 0 <= i < |middle| ==> LowerOrDigit(middle[i]) || middle[i] as int in {'.' as int, '-' as int}
      ensures ValidBucket(bucket)
    {
      forall i | 0 <= i < |bucket|
        ensures BucketEnd(bucket[i]) || bucket[i] == 45 || bucket[i] == 46
      {
        if 0 < i < |bucket| - 1 { assert bucket[i] == middle[i - 1]; }
      }
    }
  }

  predicate LowerOrDigit(b: Byte) {
    ('a' as int <= b as int <= 'z' as int) || ('0' as int <= b as int <= '9' as int)
  }
}
