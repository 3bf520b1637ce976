/**
 Hexadecimal texts of byte strings and of 64-bit numbers.
 */
module HexCodec {
  import opened Numerals
  import opened Options

  type Byte = b: int | 0 <= b < 256

  // ---------- byte strings ----------

  function Encode(bytes: seq<Byte>): (s: string)
    ensures |s| == 2 * |bytes|
  {
    if bytes == [] then "" else [DigitChar(bytes[0] / 16), DigitChar(bytes[0] % 16)] + Encode(bytes[1..])
  }

  // The bytes before the first error, and whether there was none.
  datatype Decoded = Decoded(bytes: seq<Byte>, ok: bool)

  predicate Nibble(c: char) {
    DigitValue(c) < 16
  }

  function ByteOf(hi: char, lo: char): Byte
    requires Nibble(hi) && Nibble(lo)
  {
    DigitValue(hi) * 16 + DigitValue(lo)
  }

  function Decode(s: string): Decoded {
    if |s| < 2 then Decoded([], s == "")
    else if !Nibble(s[0]) || !Nibble(s[1]) then Decoded([], false)
    else
      var rest := Decode(s[2..]);
      Decoded([ByteOf(s[0], s[1])] + rest.bytes, rest.ok)
  }

  lemma EncodeByte(b: Byte)
    ensures var hi, lo := DigitChar(b / 16), DigitChar(b % 16);
            Nibble(hi) && Nibble(lo) && ByteOf(hi, lo) == b
  {
    DigitRoundTrip(b / 16);
    DigitRoundTrip(b % 16);
  }

  lemma EncodeCons(b: Byte, rest: seq<Byte>)
    ensures Encode([b] + rest) == [DigitChar(b / 16), DigitChar(b % 16)] + Encode(rest)
  {
    assert ([b] + rest)[1..] == rest;
  }

  lemma DecodePair(hi: char, lo: char, rest: string)
    requires Nibble(hi) && Nibble(lo)
    ensures Decode([hi, lo] + rest)
            == Decoded([ByteOf(hi, lo)] + Decode(rest).bytes, Decode(rest).ok)
  {
    assert ([hi, lo] + rest)[2..] == rest;
  }

  /** Decoding the encoding of any bytes gives them back. */
  lemma {:induction false} DecodeEncode(bytes: seq<Byte>)
    ensures Decode(Encode(bytes)) == Decoded(bytes, true)
    decreases |bytes|
  {
    if bytes != [] {
      var b, rest := bytes[0], bytes[1..];
      assert bytes == [b] + rest;
      EncodeByte(b);
      EncodeCons(b, rest);
      DecodePair(DigitChar(b / 16), DigitChar(b % 16), Encode(rest));
      DecodeEncode(rest);
    }
  }

  // The text u gives these bytes, whatever t follows it.
  ghost predicate DecodesBefore(u: string, bytes: seq<Byte>, t: string) {
    Decode(u + t) == Decoded(bytes + Decode(t).bytes, Decode(t).ok)
  }

  lemma {:induction false} DecodeAppend(bytes: seq<Byte>, t: string)
    ensures DecodesBefore(Encode(bytes), bytes, t)
    decreases |bytes|
  {
    if bytes == [] {
      assert Encode(bytes) + t == t && bytes + Decode(t).bytes == Decode(t).bytes;
    } else {
      var b, rest := bytes[0], bytes[1..];
      DecodeAppend(rest, t);
      DecodeOneMore(b, Encode(rest), rest, t);
      assert bytes == [b] + rest;
    }
  }

  lemma DecodeOneMore(b: Byte, u: string, rest: seq<Byte>, t: string)
    requires DecodesBefore(u, rest, t)
    ensures DecodesBefore([DigitChar(b / 16), DigitChar(b % 16)] + u, [b] + rest, t)
  {
    DecodeAfterByte(b, u, t);
    Associate([b], rest, Decode(t).bytes);
  }

  lemma Associate(a: seq<Byte>, b: seq<Byte>, c: seq<Byte>)
    ensures a + (b + c) == (a + b) + c
  {
  }

  lemma DecodeAfterByte(b: Byte, u: string, t: string)
    ensures Decode([DigitChar(b / 16), DigitChar(b % 16)] + u + t)
         == Decoded([b] + Decode(u + t).bytes, Decode(u + t).ok)
  {
    var hi, lo := DigitChar(b / 16), DigitChar(b % 16);
    assert [hi, lo] + u + t == [hi, lo] + (u + t);
    EncodeByte(b);
    DecodePair(hi, lo, u + t);
  }

  lemma {:induction false} EncodeAt(bytes: seq<Byte>, i: nat)
    requires i < 2 * |bytes|
    ensures Encode(bytes)[i] == DigitChar(if i % 2 == 0 then bytes[i / 2] / 16 else bytes[i / 2] % 16)
    decreases |bytes|
  {
    if i >= 2 {
      EncodeAt(bytes[1..], i - 2);
      assert Encode(bytes)[i] == Encode(bytes[1..])[i - 2];
    }
  }

  /** Decoding takes pairs of hex digits from the left, as many as there are, and succeeds exactly if
      nothing is left. */
  lemma {:induction false} DecodeMeaning(s: string)
    ensures
      var n := |Decode(s).bytes|;
      && 2 * n <= |s| && (forall i :: 0 <= i < 2 * n ==> Nibble(s[i]))
      && (2 * n + 2 <= |s| ==> !Nibble(s[2 * n]) || !Nibble(s[2 * n + 1]))
      && (Decode(s).ok <==> 2 * n == |s|)
    decreases |s|
  {
    if |s| >= 2 && Nibble(s[0]) && Nibble(s[1]) {
      var rest := s[2..];
      DecodeMeaning(rest);
      var n := |Decode(s).bytes|;
      assert n == |Decode(rest).bytes| + 1;
      forall i | 0 <= i < 2 * n ensures Nibble(s[i]) {
        if i >= 2 { assert s[i] == rest[i - 2]; }
      }
    }
  }

  function Lower(s: string): (r: string)
    ensures |r| == |s|
    ensures forall i :: 0 <= i < |s| ==> r[i] == LowerChar(s[i])
  {
    if s == "" then "" else [LowerChar(s[0])] + Lower(s[1..])
  }

  function LowerChar(c: char): char {
    if 'A' <= c <= 'Z' then (c as int - 'A' as int + 'a' as int) as char else c
  }

  lemma NibbleChar(c: char)
    requires Nibble(c)
    ensures DigitChar(DigitValue(c)) == LowerChar(c)
  {
    var d := DigitValue(c);
    DigitRoundTrip(d);
    assert '0' <= c <= '9' || 'a' <= c <= 'f' || 'A' <= c <= 'F';
    assert LowerChar(c) == DigitChar(d) by {
      assert DigitValue(LowerChar(c)) == d == DigitValue(DigitChar(d));
    }
  }

  /** Encoding what was decoded gives the part that was read, in lower case. */
  lemma {:induction false} EncodeDecode(s: string)
    ensures 2 * |Decode(s).bytes| <= |s|
    ensures Encode(Decode(s).bytes) == Lower(s[..2 * |Decode(s).bytes|])
    decreases |s|
  {
    if |s| >= 2 && Nibble(s[0]) && Nibble(s[1]) {
      EncodeDecode(s[2..]);
      EncodeDecodePair(s[0], s[1], s[2..]);
      assert s == [s[0], s[1]] + s[2..];
    }
  }

  lemma EncodeDecodePair(hi: char, lo: char, rest: string)
    requires Nibble(hi) && Nibble(lo) && 2 * |Decode(rest).bytes| <= |rest|
    requires Encode(Decode(rest).bytes) == Lower(rest[..2 * |Decode(rest).bytes|])
    ensures
      var s := [hi, lo] + rest;
      && 2 * |Decode(s).bytes| <= |s|
      && Encode(Decode(s).bytes) == Lower(s[..2 * |Decode(s).bytes|])
  {
    var s, bytes := [hi, lo] + rest, Decode(rest).bytes;
    DecodePair(hi, lo, rest);
    ByteOfParts(hi, lo);
    EncodeCons(ByteOf(hi, lo), bytes);
    LowerPair(hi, lo, rest[..2 * |bytes|]);
    assert s[..2 * |bytes| + 2] == [hi, lo] + rest[..2 * |bytes|];
  }

  lemma ByteOfParts(hi: char, lo: char)
    requires Nibble(hi) && Nibble(lo)
    ensures DigitChar(ByteOf(hi, lo) / 16) == LowerChar(hi) && DigitChar(ByteOf(hi, lo) % 16) == LowerChar(lo)
  {
    Halves(hi, lo);
    NibbleChar(hi);
    NibbleChar(lo);
  }

  lemma Halves(hi: char, lo: char)
    requires Nibble(hi) && Nibble(lo)
    ensures ByteOf(hi, lo) / 16 == DigitValue(hi) && ByteOf(hi, lo) % 16 == DigitValue(lo)
  {
    var h, l := DigitValue(hi), DigitValue(lo);
    assert (h * 16 + l) / 16 == h && (h * 16 + l) % 16 == l;
  }

  lemma LowerPair(hi: char, lo: char, rest: string)
    ensures Lower([hi, lo] + rest) == [LowerChar(hi), LowerChar(lo)] + Lower(rest)
  {
    var s := [hi, lo] + rest;
    assert s[1..] == [lo] + rest && s[1..][1..] == rest;
    assert Lower(s[1..]) == [LowerChar(lo)] + Lower(rest);
  }

  // Two texts that differ in nothing but the case of their digits.
  ghost predicate SameDigits(s: string, t: string) {
    |s| == |t| && forall i :: 0 <= i < |s| ==> DigitValue(s[i]) == DigitValue(t[i])
  }

  lemma {:induction false} CaseDoesNotMatter(s: string, t: string)
    requires SameDigits(s, t)
    ensures Decode(s) == Decode(t)
    decreases |s|
  {
    if |s| >= 2 {
      assert forall i :: 0 <= i < |s| - 2 ==> s[2..][i] == s[i + 2] && t[2..][i] == t[i + 2];
      CaseDoesNotMatter(s[2..], t[2..]);
    }
  }

  // ---------- with the prefix ----------

  function TrimPrefix(s: string): string {
    if HasPrefix(s) then s[2..] else s
  }

  predicate HasPrefix(s: string) {
    |s| >= 2 && s[0] == '0' && s[1] == 'x'
  }

  lemma TrimAdded(s: string)
    ensures HasPrefix("0x" + s) && TrimPrefix("0x" + s) == s && ("0x" + s)[2..] == s
  {
  }

  function EncodeToHex(bytes: seq<Byte>): string {
    "0x" + Encode(bytes)
  }

  function DecodeHex(s: string): Decoded {
    Decode(TrimPrefix(s))
  }

  /** Prefixed byte strings survive; a text without its prefix decodes to the same. */
  lemma HexRoundTrip(bytes: seq<Byte>)
    ensures DecodeHex(EncodeToHex(bytes)) == Decoded(bytes, true)
    ensures DecodeHex(Encode(bytes)) == Decoded(bytes, true)
  {
    TrimAdded(Encode(bytes));
    DecodeEncode(bytes);
    if bytes != [] {
      DigitRoundTrip(bytes[0] % 16);
      assert Encode(bytes)[1] == DigitChar(bytes[0] % 16);
    }
  }

  // ---------- 64-bit numbers ----------

  function EncodeUint64(n: nat): string {
    "0x" + Format(n, 16)
  }

  function DecodeUint64(s: string): Parsed {
    Parse(TrimPrefix(s), 16)
  }

  /** A number in decimal, or in hex if it is prefixed; a missing one is zero. */
  method ParseUint64orHex(val: Option<string>) returns (r: Parsed)
    ensures r == Uint64orHex(val)
  {
    if val.None? { return Number(0); }
    var str, base := val.value, 10;
    if HasPrefix(str) { str, base := str[2..], 16; }
    r := ParseUint(str, base);
  }

  function Uint64orHex(val: Option<string>): Parsed {
    match val
    case None => Number(0)
    case Some(s) => if HasPrefix(s) then Parse(s[2..], 16) else Parse(s, 10)
  }

  /** Parsing the hex print of any 64-bit value returns it, with either parser; a decimal print is
      read back as well, and is never mistaken for a prefixed one. */
  lemma Uint64RoundTrip(n: nat)
    requires n <= MAX_UINT64
    ensures DecodeUint64(EncodeUint64(n)) == Number(n)
    ensures Uint64orHex(Some(EncodeUint64(n))) == Number(n)
    ensures Uint64orHex(Some(Format(n, 10))) == Number(n)
  {
    TrimAdded(Format(n, 16));
    ParseFormat(n, 16);
    ParseFormat(n, 10);
    FormatDigits(n, 10);
    assert HasPrefix(Format(n, 10)) ==> LowerDigit(Format(n, 10)[1], 10);
  }

  /** Whatever text is accepted denotes the number it is read as, in the base its prefix says. */
  lemma Uint64Meaning(s: string)
    ensures
      var digits, base := if HasPrefix(s) then s[2..] else s, if HasPrefix(s) then 16 else 10;
      && (Uint64orHex(Some(s)).Number? <==> digits != [] && AllDigits(digits, base) && Value(digits, base) <= MAX_UINT64)
      && (Uint64orHex(Some(s)).Number? ==> Uint64orHex(Some(s)).value == Value(digits, base))
  {
    ParseMeaning(if HasPrefix(s) then s[2..] else s, if HasPrefix(s) then 16 else 10);
  }
}
