/** Bytes and the text-to-bytes conversions the scripts use when they build
    their tables: `str.encode('utf-8', 'replace')`, `str(int)` and, for the
    ASCII target name, `str.upper()`.
 */
module Encoding {
  import opened Text

  newtype byte = x: int | 0 <= x < 256

  type Bytes = seq<byte>

  /** The UTF-8 encoding of one Unicode scalar value. Dafny's `char` has no
      surrogates, so the `'replace'` error handler never applies. */
  function EncodeChar(c: char): (r: Bytes)
    ensures 1 <= |r| <= 4
    ensures (c as int < 0x80) <==> |r| == 1
    ensures |r| == 1 ==> r[0] as int == c as int
  {
    var v := c as int;
    if v < 0x80 then
      [v as byte]
    else if v < 0x800 then
      [(0xC0 + v / 0x40) as byte, (0x80 + v % 0x40) as byte]
    else if v < 0x1_0000 then
      [(0xE0 + v / 0x1000) as byte, (0x80 + v / 0x40 % 0x40) as byte,
       (0x80 + v % 0x40) as byte]
    else
      [(0xF0 + v / 0x4_0000) as byte, (0x80 + v / 0x1000 % 0x40) as byte,
       (0x80 + v / 0x40 % 0x40) as byte, (0x80 + v % 0x40) as byte]
  }

  predicate IsAscii(s: string) {
    forall i :: 0 <= i < |s| ==> s[i] as int < 0x80
  }

  /** `s.encode('utf-8', 'replace')`. ASCII text encodes one byte per
      character with the byte equal to the character's code. */
  function EncodeUtf8(s: string): (r: Bytes)
    ensures |s| <= |r| <= 4 * |s|
    ensures IsAscii(s) ==> |r| == |s| && forall i :: 0 <= i < |s| ==> r[i] as int == s[i] as int
  {
    if |s| == 0 then []
    else
      var head := EncodeChar(s[0]);
      var tail := EncodeUtf8(s[1..]);
      assert IsAscii(s) ==> IsAscii(s[1..]) by {
        if IsAscii(s) {
          forall i | 0 <= i < |s[1..]| ensures s[1..][i] as int < 0x80 {
            assert s[1..][i] == s[i + 1];
          }
        }
      }
      head + tail
  }

  // -----------------------------------------------------------------------
  // Decoding, the inverse of `EncodeUtf8`

  /** The length of the sequence a lead byte announces, 0 for a byte that
      cannot start one. */
  function SequenceLength(lead: byte): nat {
    if lead < 0x80 then 1
    else if 0xC0 <= lead < 0xE0 then 2
    else if 0xE0 <= lead < 0xF0 then 3
    else if 0xF0 <= lead < 0xF8 then 4
    else 0
  }

  predicate IsContinuation(b: byte) {
    0x80 <= b < 0xC0
  }

  predicate IsScalar(v: int) {
    (0 <= v < 0xD800) || (0xE000 <= v < 0x11_0000)
  }

  /** The scalar value of one whole sequence, if it is well formed. */
  function DecodeSequence(b: Bytes): Option<char>
    requires 1 <= |b| <= 4 && SequenceLength(b[0]) == |b|
  {
    if exists i :: 1 <= i < |b| && !IsContinuation(b[i]) then None
    else
      var v :=
        if |b| == 1 then b[0] as int
        else if |b| == 2 then (b[0] as int - 0xC0) * 0x40 + (b[1] as int - 0x80)
        else if |b| == 3 then
          (b[0] as int - 0xE0) * 0x1000 + (b[1] as int - 0x80) * 0x40 + (b[2] as int - 0x80)
        else
          (b[0] as int - 0xF0) * 0x4_0000 + (b[1] as int - 0x80) * 0x1000
          + (b[2] as int - 0x80) * 0x40 + (b[3] as int - 0x80);
      if IsScalar(v) && MinimumScalar(|b|) <= v then Some(v as char) else None
  }

  /** The smallest value a sequence of `n` bytes may carry; a smaller one
      is an overlong form, which a strict decoder rejects. */
  function MinimumScalar(n: nat): nat {
    if n <= 1 then 0
    else if n == 2 then 0x80
    else if n == 3 then 0x800
    else 0x1_0000
  }

  /** `bytes.decode('utf-8')` with the strict error handler: the text, or
      `None` for a malformed byte string (a stray continuation byte, a
      truncated or overlong sequence, a surrogate, a value past U+10FFFF). */
  function DecodeUtf8(b: Bytes): Option<string>
    decreases |b|
  {
    if |b| == 0 then Some("")
    else
      var n := SequenceLength(b[0]);
      if n == 0 || n > |b| then None
      else
        match DecodeSequence(b[..n])
        case None => None
        case Some(c) =>
          match DecodeUtf8(b[n..])
          case None => None
          case Some(rest) => Some([c] + rest)
  }

  lemma DecodeEncodeTwo(c: char)
    requires 0x80 <= c as int < 0x800
    ensures SequenceLength(EncodeChar(c)[0]) == |EncodeChar(c)| == 2
    ensures DecodeSequence(EncodeChar(c)) == Some(c)
  {
  }

  lemma DecodeEncodeThree(c: char)
    requires 0x800 <= c as int < 0x1_0000
    ensures SequenceLength(EncodeChar(c)[0]) == |EncodeChar(c)| == 3
    ensures DecodeSequence(EncodeChar(c)) == Some(c)
  {
  }

  lemma DecodeEncodeFour(c: char)
    requires 0x1_0000 <= c as int
    ensures SequenceLength(EncodeChar(c)[0]) == |EncodeChar(c)| == 4
    ensures DecodeSequence(EncodeChar(c)) == Some(c)
  {
    var v := c as int;
    var e := EncodeChar(c);
    assert (v / 0x40) / 0x40 == v / 0x1000;
    assert (v / 0x1000) / 0x40 == v / 0x4_0000;
    assert e[0] as int - 0xF0 == v / 0x4_0000;
    assert e[1] as int - 0x80 == v / 0x1000 % 0x40;
    assert e[2] as int - 0x80 == v / 0x40 % 0x40;
    assert e[3] as int - 0x80 == v % 0x40;
  }

  /** The lead byte of a character's encoding announces its length, and the
      whole sequence decodes back to the character. */
  lemma DecodeEncodeChar(c: char)
    ensures SequenceLength(EncodeChar(c)[0]) == |EncodeChar(c)|
    ensures DecodeSequence(EncodeChar(c)) == Some(c)
  {
    if c as int < 0x80 {
    } else if c as int < 0x800 {
      DecodeEncodeTwo(c);
    } else if c as int < 0x1_0000 {
      DecodeEncodeThree(c);
    } else {
      DecodeEncodeFour(c);
    }
  }

  /** Decoding undoes `EncodeUtf8`: the bytes the scripts send carry
      exactly the text they were built from. */
  lemma {:induction false} DecodeEncode(s: string)
    ensures DecodeUtf8(EncodeUtf8(s)) == Some(s)
  {
    if |s| > 0 {
      var head := EncodeChar(s[0]);
      var b := EncodeUtf8(s);
      assert b == head + EncodeUtf8(s[1..]);
      DecodeEncodeChar(s[0]);
      assert b[..|head|] == head;
      assert b[|head|..] == EncodeUtf8(s[1..]);
      DecodeEncode(s[1..]);
      assert [s[0]] + s[1..] == s;
    }
  }

  /** The quotient and remainder of `hi * 0x40 + lo` by 0x40, for a
      six-bit `lo`. */
  lemma DivModSix(hi: int, lo: int)
    requires 0 <= lo < 0x40
    ensures (hi * 0x40 + lo) / 0x40 == hi && (hi * 0x40 + lo) % 0x40 == lo
  {
  }

  lemma EncodeDecodeTwo(b: Bytes)
    requires |b| == 2 && SequenceLength(b[0]) == 2 && DecodeSequence(b).Some?
    ensures EncodeChar(DecodeSequence(b).value) == b
  {
    var v := DecodeSequence(b).value as int;
    assert v == (b[0] as int - 0xC0) * 0x40 + (b[1] as int - 0x80);
    DivModSix(b[0] as int - 0xC0, b[1] as int - 0x80);
  }

  lemma EncodeDecodeThree(b: Bytes)
    requires |b| == 3 && SequenceLength(b[0]) == 3 && DecodeSequence(b).Some?
    ensures EncodeChar(DecodeSequence(b).value) == b
  {
    var v := DecodeSequence(b).value as int;
    var q := (b[0] as int - 0xE0) * 0x40 + (b[1] as int - 0x80);
    assert v == q * 0x40 + (b[2] as int - 0x80);
    DivModSix(q, b[2] as int - 0x80);
    DivModSix(b[0] as int - 0xE0, b[1] as int - 0x80);
    assert v / 0x1000 == v / 0x40 / 0x40;
  }

  lemma EncodeDecodeFour(b: Bytes)
    requires |b| == 4 && SequenceLength(b[0]) == 4 && DecodeSequence(b).Some?
    ensures EncodeChar(DecodeSequence(b).value) == b
  {
    var v := DecodeSequence(b).value as int;
    var q1 := (b[0] as int - 0xF0) * 0x40 + (b[1] as int - 0x80);
    var q2 := q1 * 0x40 + (b[2] as int - 0x80);
    assert v == q2 * 0x40 + (b[3] as int - 0x80);
    DivModSix(q2, b[3] as int - 0x80);
    DivModSix(q1, b[2] as int - 0x80);
    DivModSix(b[0] as int - 0xF0, b[1] as int - 0x80);
    assert v / 0x1000 == v / 0x40 / 0x40;
    assert v / 0x4_0000 == v / 0x1000 / 0x40;
  }

  /** A well-formed sequence is the encoding of the character it decodes
      to: there is exactly one way to write each character. */
  lemma EncodeDecodeChar(b: Bytes)
    requires 1 <= |b| <= 4 && SequenceLength(b[0]) == |b|
    requires DecodeSequence(b).Some?
    ensures EncodeChar(DecodeSequence(b).value) == b
  {
    if |b| == 2 {
      EncodeDecodeTwo(b);
    } else if |b| == 3 {
      EncodeDecodeThree(b);
    } else if |b| == 4 {
      EncodeDecodeFour(b);
    }
  }

  /** The encoding of a text is the encoding of its first character
      followed by the encoding of the rest. */
  lemma EncodeCons(c: char, rest: string)
    ensures EncodeUtf8([c] + rest) == EncodeChar(c) + EncodeUtf8(rest)
  {
    var s := [c] + rest;
    assert s[0] == c && s[1..] == rest;
  }

  /** A decoded non-empty byte string starts with a well-formed sequence of
      the announced length, and its rest decodes too. */
  lemma DecodeCons(b: Bytes)
    requires |b| > 0 && DecodeUtf8(b).Some?
    ensures 1 <= SequenceLength(b[0]) <= |b|
    ensures DecodeSequence(b[..SequenceLength(b[0])]).Some?
    ensures DecodeUtf8(b[SequenceLength(b[0])..]).Some?
    ensures DecodeUtf8(b).value
            == [DecodeSequence(b[..SequenceLength(b[0])]).value] + DecodeUtf8(b[SequenceLength(b[0])..]).value
  {
  }

  lemma SplitJoin(b: Bytes, n: nat)
    requires n <= |b|
    ensures b[..n] + b[n..] == b
  {
  }

  /** Encoding undoes decoding: any byte string the strict decoder accepts
      is the UTF-8 encoding of the text it yields, so together with
      `DecodeEncode` the encoding of every text is fixed byte for byte. */
  lemma {:induction false} EncodeDecode(b: Bytes)
    requires DecodeUtf8(b).Some?
    decreases |b|
    ensures EncodeUtf8(DecodeUtf8(b).value) == b
  {
    if |b| > 0 {
      DecodeCons(b);
      var n := SequenceLength(b[0]);
      var c := DecodeSequence(b[..n]).value;
      var rest := DecodeUtf8(b[n..]).value;
      EncodeDecodeChar(b[..n]);
      EncodeDecode(b[n..]);
      EncodeCons(c, rest);
      SplitJoin(b, n);
    }
  }

  /** The overlong two-byte form of NUL is rejected. */
  lemma OverlongRejected()
    ensures DecodeUtf8([0xC0, 0x80]) == None
  {
  }

  function DigitChar(d: nat): (c: char)
    requires d < 10
  {
    ['0', '1', '2', '3', '4', '5', '6', '7', '8', '9'][d]
  }

  function DigitValue(c: char): nat {
    if '0' <= c <= '9' then (c as int - '0' as int) else 0
  }

  predicate IsDigit(c: char) {
    '0' <= c <= '9'
  }

  /** `str(n)` for a natural number: its decimal digits, most significant
      first, without leading zeros. */
  function Decimal(n: nat): (r: string)
    ensures |r| >= 1
    ensures forall i :: 0 <= i < |r| ==> IsDigit(r[i])
    ensures |r| > 1 ==> r[0] != '0'
  {
    if n < 10 then [DigitChar(n)]
    else Decimal(n / 10) + [DigitChar(n % 10)]
  }

  /** The value of a string of decimal digits. */
  function ParseDecimal(s: string): nat {
    if |s| == 0 then 0
    else 10 * ParseDecimal(s[..|s| - 1]) + DigitValue(s[|s| - 1])
  }

  /** Reading back the decimal text of a number yields the number. */
  lemma {:induction false} DecimalRoundTrip(n: nat)
    ensures ParseDecimal(Decimal(n)) == n
  {
    if n < 10 {
      assert Decimal(n) == [DigitChar(n)];
    } else {
      var prefix := Decimal(n / 10);
      var d := Decimal(n);
      assert d == prefix + [DigitChar(n % 10)];
      assert d[..|d| - 1] == prefix;
      DecimalRoundTrip(n / 10);
    }
  }

  function UpperChar(c: char): char {
    if 'a' <= c <= 'z' then (c as int - 32) as char else c
  }

  /** ASCII case folding to lower case. */
  function LowerChar(c: char): char {
    if 'A' <= c <= 'Z' then (c as int + 32) as char else c
  }

  /** `str.upper()` restricted to ASCII letters: no lower-case letter is
      left, every other character stays in place, and each character still
      folds to the same lower-case letter. */
  function AsciiUpper(s: string): (r: string)
    ensures |r| == |s|
    ensures forall i :: 0 <= i < |r| ==> !('a' <= r[i] <= 'z')
    ensures forall i :: 0 <= i < |s| && !('a' <= s[i] <= 'z') ==> r[i] == s[i]
    ensures forall i :: 0 <= i < |s| ==> LowerChar(r[i]) == LowerChar(s[i])
  {
    seq(|s|, i requires 0 <= i < |s| => UpperChar(s[i]))
  }

  /** Upper-casing twice is upper-casing once. */
  lemma AsciiUpperIdempotent(s: string)
    ensures AsciiUpper(AsciiUpper(s)) == AsciiUpper(s)
  {
  }
}
