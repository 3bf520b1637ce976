/**
 Hashes and addresses: fixed-size byte strings, their hex texts, and the checksummed form of an
 address, in which the case of the letters carries bits of a hash of the text (EIP-55).
 */
module EthTypes {
  import opened HexCodec
  import opened Numerals
  import opened Options

  const HASH_LENGTH: nat := 32
  const ADDRESS_LENGTH: nat := 20

  type Digest = d: seq<Byte> | |d| == 32 witness seq(32, _ => 0)

  // ---------- fixed size ----------

  function Zeros(n: nat): (z: seq<Byte>)
    ensures |z| == n && forall i :: 0 <= i < n ==> z[i] == 0
  {
    seq(n, _ => 0)
  }

  // Padded with zeros or cut on the left.
  function Fit(b: seq<Byte>, size: nat): (r: seq<Byte>)
    ensures |r| == size
  {
    if |b| > size then b[|b| - size..] else Zeros(size - |b|) + b
  }

  method BytesToFixed(b: seq<Byte>, size: nat) returns (h: array<Byte>)
    ensures fresh(h) && h[..] == Fit(b, size)
  {
    h := new Byte[size](_ => 0);
    var min := if |b| < size then |b| else size;
    for i := 0 to min
      invariant forall k :: 0 <= k < size - min ==> h[k] == 0
      invariant forall k :: size - min <= k < size - min + i ==> h[k] == b[|b| - size + k]
    {
      h[size - min + i] := b[|b| - min + i];
    }
  }

  method PadLeftOrTrim(b: seq<Byte>, size: nat) returns (r: seq<Byte>)
    ensures r == Fit(b, size)
  {
    var l := |b|;
    if l == size { return b; }
    if l > size { return b[l - size..]; }
    var tmp := new Byte[size](_ => 0);
    for i := 0 to l
      invariant forall k :: 0 <= k < size - l ==> tmp[k] == 0
      invariant forall k :: size - l <= k < size - l + i ==> tmp[k] == b[k - (size - l)]
    {
      tmp[size - l + i] := b[i];
    }
    r := tmp[..];
  }

  function Power(n: nat): (p: nat)
    ensures p >= 1
  {
    if n == 0 then 1 else 256 * Power(n - 1)
  }

  function BigEndian(b: seq<Byte>): nat {
    if b == [] then 0 else b[0] * Power(|b| - 1) + BigEndian(b[1..])
  }

  lemma {:induction false} BigEndianBound(b: seq<Byte>)
    ensures BigEndian(b) < Power(|b|)
  {
    if b != [] {
      BigEndianBound(b[1..]);
      Scaled(b[0], Power(|b| - 1));
    }
  }

  lemma Scaled(x: Byte, p: nat)
    ensures x * p <= 255 * p
  {
  }

  lemma {:induction false} BigEndianZeros(n: nat, b: seq<Byte>)
    ensures BigEndian(Zeros(n) + b) == BigEndian(b)
  {
    if n == 0 {
      assert Zeros(0) + b == b;
    } else {
      assert (Zeros(n) + b)[1..] == Zeros(n - 1) + b;
      BigEndianZeros(n - 1, b);
    }
  }

  // The first k bytes are worth a multiple of the power of the rest.
  lemma {:induction false} BigEndianCut(b: seq<Byte>, k: nat) returns (q: nat)
    requires k <= |b|
    ensures BigEndian(b) == q * Power(|b| - k) + BigEndian(b[k..])
    decreases k
  {
    if k == 0 {
      q := 0;
      assert b[0..] == b;
    } else {
      var r := BigEndianCut(b[1..], k - 1);
      assert b[1..][k - 1..] == b[k..];
      q := CutStep(b[0], k - 1, |b| - k, r);
    }
  }

  lemma CutStep(x: Byte, k: nat, n: nat, r: nat) returns (q: nat)
    ensures q * Power(n) == x * Power(k + n) + r * Power(n)
  {
    PowerAdd(k, n);
    q := x * Power(k) + r;
    Distribute(x, Power(k), Power(n), r);
  }

  lemma {:induction false} PowerAdd(m: nat, n: nat)
    ensures Power(m + n) == Power(m) * Power(n)
  {
    if m > 0 {
      PowerAdd(m - 1, n);
      Associate(256, Power(m - 1), Power(n));
    }
  }

  lemma Associate(x: nat, y: nat, z: nat)
    ensures x * (y * z) == x * y * z
  {
  }

  lemma Distribute(x: nat, p: nat, m: nat, r: nat)
    ensures (x * p + r) * m == x * (p * m) + r * m
  {
    Associate(x, p, m);
  }

  lemma Remainder(x: nat, q: nat, m: nat, r: nat)
    requires x == q * m + r && r < m
    ensures x % m == r
  {
    var d := x / m;
    assert x == d * m + x % m;
    if d < q {
      assert (q - d) * m == q * m - d * m;
      assert (q - d) * m >= m by { Larger(q - d, m); }
    } else if d > q {
      assert (d - q) * m == d * m - q * m;
      assert (d - q) * m >= m by { Larger(d - q, m); }
    }
  }

  lemma Larger(k: nat, m: nat)
    requires k >= 1
    ensures k * m >= m
  {
  }

  /** As a big-endian number, a fitted byte string is the original modulo 256^size. */
  lemma FitValue(b: seq<Byte>, size: nat)
    ensures BigEndian(Fit(b, size)) == BigEndian(b) % Power(size)
  {
    BigEndianBound(Fit(b, size));
    if |b| > size {
      var q := BigEndianCut(b, |b| - size);
      Remainder(BigEndian(b), q, Power(size), BigEndian(Fit(b, size)));
    } else {
      BigEndianZeros(size - |b|, b);
      Remainder(BigEndian(b), 0, Power(size), BigEndian(b));
    }
  }

  // ---------- texts ----------

  // Without the prefix, and padded to an even length.
  function Body(s: string): string {
    var t := TrimPrefix(s);
    if |t| % 2 == 1 then "0" + t else t
  }

  // What is read before the first error; the error itself is dropped.
  function StringToBytes(s: string): seq<Byte> {
    Decode(Body(s)).bytes
  }

  lemma Regroup(n: nat, h: nat, l: nat, p: nat)
    ensures ((n * 16 + h) * 16 + l) * p == n * (256 * p) + (h * 16 + l) * p
  {
    var b := h * 16 + l;
    assert (n * 16 + h) * 16 + l == n * 256 + b;
    Distribute(n, 256, p, b);
  }

  lemma BigEndianCons(b: Byte, rest: seq<Byte>)
    ensures BigEndian([b] + rest) == b * Power(|rest|) + BigEndian(rest)
  {
    assert ([b] + rest)[1..] == rest;
  }

  // The bytes of pairs of digits, as a number, continue the number n in front of them.
  lemma {:induction false} DecodeValue(s: string, n: nat)
    requires |s| % 2 == 0 && AllDigits(s, 16)
    ensures Decode(s).ok && 2 * |Decode(s).bytes| == |s|
    ensures ValueFrom(s, 16, n) == n * Power(|s| / 2) + BigEndian(Decode(s).bytes)
    decreases |s|
  {
    if s != "" {
      var h, l, rest := DigitValue(s[0]), DigitValue(s[1]), s[2..];
      var m := (n * 16 + h) * 16 + l;
      assert s[1..][1..] == rest && s[1..][0] == s[1];
      DecodeValue(rest, m);
      var k := |rest| / 2;
      BigEndianCons(ByteOf(s[0], s[1]), Decode(rest).bytes);
      assert |s| / 2 == k + 1 && Power(k + 1) == 256 * Power(k);
      Regroup(n, h, l, Power(k));
    }
  }

  lemma PaddedDigits(t: string)
    requires AllDigits(t, 16)
    ensures
      var body := if |t| % 2 == 1 then "0" + t else t;
      AllDigits(body, 16) && |body| == (|t| + 1) / 2 * 2 && ValueFrom(body, 16, 0) == Value(t, 16)
  {
    if |t| % 2 == 1 {
      var body := "0" + t;
      assert body[1..] == t;
      forall i | 0 <= i < |body| ensures DigitValue(body[i]) < 16 {
        if i > 0 { assert body[i] == t[i - 1]; }
      }
    }
  }

  /** A text of hex digits, as many as there are, is read as the number it denotes; of an odd number of
      digits the first one makes a byte of its own. */
  lemma DigitsAreRead(s: string)
    requires AllDigits(TrimPrefix(s), 16)
    ensures |StringToBytes(s)| == (|TrimPrefix(s)| + 1) / 2
    ensures BigEndian(StringToBytes(s)) == Value(TrimPrefix(s), 16)
  {
    PaddedDigits(TrimPrefix(s));
    DecodeValue(Body(s), 0);
  }

  /** So a hash read from digits is their number, modulo 2^256 if there are more than 64. */
  lemma HashOfDigits(s: string)
    requires AllDigits(TrimPrefix(s), 16)
    ensures BigEndian(Fit(StringToBytes(s), HASH_LENGTH)) == Value(TrimPrefix(s), 16) % Power(32)
  {
    DigitsAreRead(s);
    FitValue(StringToBytes(s), HASH_LENGTH);
  }

  // The digits of an address: forty, or thirty-nine if their number is odd.
  function AddressDigits(t: string): nat {
    if |t| % 2 == 1 then 39 else 40
  }

  // The text starts with the digits of an address and does not go on with another two.
  ghost predicate StartsWithAddress(t: string) {
    var n := AddressDigits(t);
    && n <= |t| && AllDigits(t[..n], 16)
    && (n + 2 <= |t| ==> !Nibble(t[n]) || !Nibble(t[n + 1]))
  }

  lemma {:induction false} DecodeCut(s: string, k: nat)
    requires 2 * k <= |s| && AllDigits(s[..2 * k], 16)
    ensures Decode(s).bytes == Decode(s[..2 * k]).bytes + Decode(s[2 * k..]).bytes
    decreases k
  {
    if k == 0 {
      assert s[0..] == s;
    } else {
      var rest, u := s[2..], s[..2 * k];
      assert u[0] == s[0] && u[1] == s[1];
      assert rest[..2 * k - 2] == u[2..] && rest[2 * k - 2..] == s[2 * k..];
      DecodeCut(rest, k - 1);
    }
  }

  // The same of an even text: it starts with the digits of twenty bytes and not with those of more.
  ghost predicate TwentyBytes(body: string) {
    && 40 <= |body| && AllDigits(body[..40], 16)
    && (42 <= |body| ==> !Nibble(body[40]) || !Nibble(body[41]))
  }

  lemma BodyStarts(t: string)
    ensures
      var body, n := if |t| % 2 == 1 then "0" + t else t, AddressDigits(t);
      && (StartsWithAddress(t) <==> TwentyBytes(body))
      && (StartsWithAddress(t) ==> ValueFrom(body[..40], 16, 0) == Value(t[..n], 16))
  {
    if |t| % 2 == 1 && |t| >= 39 {
      var body, head := "0" + t, "0" + t[..39];
      assert body[..40] == head && head[1..] == t[..39];
      assert AllDigits(t[..39], 16) <==> AllDigits(head, 16) by {
        forall i | 0 <= i < 39 ensures head[i + 1] == t[..39][i] {}
      }
      if 41 <= |t| { assert body[40] == t[39] && body[41] == t[40]; }
    }
  }

  lemma TwentyBytesIff(body: string)
    ensures |Decode(body).bytes| == ADDRESS_LENGTH <==> TwentyBytes(body)
    ensures TwentyBytes(body) ==> BigEndian(Decode(body).bytes) == ValueFrom(body[..40], 16, 0)
  {
    DecodeMeaning(body);
    if TwentyBytes(body) {
      DecodeCut(body, 20);
      DecodeMeaning(body[40..]);
      DecodeValue(body[..40], 0);
      assert Decode(body[40..]).bytes == [];
      assert Decode(body).bytes == Decode(body[..40]).bytes;
    }
  }

  /** A text is taken for an address exactly if, after its prefix, it starts with forty hex digits (one
      may be missing in front) and does not go on with another two -- what follows may be anything
      else. The address is the number that these digits denote. */
  lemma AcceptedIff(s: string)
    ensures |StringToBytes(s)| == ADDRESS_LENGTH <==> StartsWithAddress(TrimPrefix(s))
    ensures StartsWithAddress(TrimPrefix(s)) ==>
      BigEndian(StringToBytes(s)) == Value(TrimPrefix(s)[..AddressDigits(TrimPrefix(s))], 16)
  {
    BodyStarts(TrimPrefix(s));
    TwentyBytesIff(Body(s));
  }

  lemma EvenBody(s: string)
    requires |s| % 2 == 0
    ensures StringToBytes("0x" + s) == Decode(s).bytes && DecodeHex("0x" + s) == Decode(s)
  {
    TrimAdded(s);
  }

  /** For instance, any address followed by `zz` is taken for that address. */
  lemma GarbageIsTaken(a: seq<Byte>, tail: string)
    requires |a| == ADDRESS_LENGTH && tail == "zz"
    ensures StringToBytes("0x" + (Encode(a) + tail)) == a && !DecodeHex("0x" + (Encode(a) + tail)).ok
  {
    TailIsIgnored(a, tail);
  }

  lemma TailIsIgnored(a: seq<Byte>, tail: string)
    requires |tail| == 2 && !Nibble(tail[0])
    ensures StringToBytes("0x" + (Encode(a) + tail)) == a && !DecodeHex("0x" + (Encode(a) + tail)).ok
  {
    AfterAddress(a, tail);
    TextOf(Encode(a) + tail, Decoded(a, false), |a| + 1);
  }

  lemma TextOf(s: string, d: Decoded, n: nat)
    requires |s| == 2 * n && Decode(s) == d
    ensures StringToBytes("0x" + s) == d.bytes && DecodeHex("0x" + s) == d
  {
    EvenBody(s);
  }

  lemma AfterAddress(a: seq<Byte>, tail: string)
    requires |tail| == 2 && !Nibble(tail[0])
    ensures Decode(Encode(a) + tail) == Decoded(a, false)
  {
    DecodeAppend(a, tail);
    assert Decode(tail) == Decoded([], false);
    assert a + [] == a;
  }

  /** If it is taken, the address has these digits, in lower case and with the missing one a zero. */
  lemma AcceptedMeans(s: string)
    requires StartsWithAddress(TrimPrefix(s))
    ensures
      var t := TrimPrefix(s);
      Encode(StringToBytes(s)) == if |t| % 2 == 1 then "0" + Lower(t[..39]) else Lower(t[..40])
  {
    var t, body := TrimPrefix(s), Body(s);
    AcceptedIff(s);
    EncodeDecode(body);
    if |t| % 2 == 1 {
      assert body[..40] == ['0'] + t[..39];
      assert Lower(['0'] + t[..39]) == ['0'] + Lower((['0'] + t[..39])[1..]);
      assert (['0'] + t[..39])[1..] == t[..39];
    }
  }

  /** The text of a hash, and of any bytes, is read back. */
  lemma HashTextRoundTrip(h: Digest)
    ensures StringToBytes(EncodeToHex(h)) == h
    ensures Fit(StringToBytes(EncodeToHex(h)), HASH_LENGTH) == h
  {
    TrimAdded(Encode(h));
    DecodeEncode(h);
    assert Zeros(0) + h == h;
  }

  // ---------- the checksummed form ----------

  // The i-th group of four bits.
  function NibbleAt(b: seq<Byte>, i: nat): nat
    requires i < 2 * |b|
  {
    if i % 2 == 0 then b[i / 2] / 16 else b[i / 2] % 16
  }

  predicate Letter(c: char) {
    'a' <= c <= 'z' || 'A' <= c <= 'Z'
  }

  predicate UpperCase(c: char) {
    'A' <= c <= 'Z'
  }

  function UpperChar(c: char): char {
    if 'a' <= c <= 'z' then (c as int - 'a' as int + 'A' as int) as char else c
  }

  // EIP-55: the digits of the address, with a letter in upper case exactly if the corresponding
  // four bits of the hash of the lower-case text are at least 8.
  ghost predicate IsChecksum(a: seq<Byte>, keccak: string -> Digest, s: string)
    requires |a| == ADDRESS_LENGTH
  {
    var lower := Encode(a);
    && |s| == 2 + |lower| && HasPrefix(s)
    && forall i :: 0 <= i < |lower| ==>
         && LowerChar(s[2..][i]) == lower[i]
         && (UpperCase(s[2..][i]) <==> Letter(lower[i]) && NibbleAt(keccak(lower), i) >= 8)
  }

  lemma DigestDigit(digest: Digest, i: nat)
    requires i < 64
    ensures '0' <= Encode(digest)[i] <= '7' <==> NibbleAt(digest, i) < 8
  {
    EncodeAt(digest, i);
    DigitRoundTrip(NibbleAt(digest, i));
  }

  lemma AddressDigit(a: seq<Byte>, i: nat)
    requires i < 2 * |a|
    ensures '0' <= Encode(a)[i] <= '9' || 'a' <= Encode(a)[i] <= 'f'
  {
    EncodeAt(a, i);
    DigitRoundTrip(NibbleAt(a, i));
  }

  method ChecksumEncode(a: seq<Byte>, keccak: string -> Digest) returns (s: string)
    requires |a| == ADDRESS_LENGTH
    ensures IsChecksum(a, keccak, s)
  {
    var lower := Encode(a);
    var digest := keccak(lower);
    var hashed := Encode(digest);
    var result := new char[|lower|];
    for i := 0 to |lower|
      invariant forall k :: 0 <= k < i ==>
                  && LowerChar(result[k]) == lower[k]
                  && (UpperCase(result[k]) <==> Letter(lower[k]) && NibbleAt(digest, k) >= 8)
    {
      var ch := lower[i];
      DigestDigit(digest, i);
      AddressDigit(a, i);
      if '0' <= ch <= '9' || '0' <= hashed[i] <= '7' {
        result[i] := ch;
      } else {
        result[i] := UpperChar(ch);
      }
    }
    s := "0x" + result[..];
    assert s[2..] == result[..];
  }

  /** The checksummed text is determined by the address and the hash. */
  lemma ChecksumUnique(a: seq<Byte>, keccak: string -> Digest, s: string, t: string)
    requires |a| == ADDRESS_LENGTH && IsChecksum(a, keccak, s) && IsChecksum(a, keccak, t)
    ensures s == t
  {
    var x, y := s[2..], t[2..];
    forall i | 0 <= i < 40 ensures x[i] == y[i] {
      assert LowerChar(x[i]) == Encode(a)[i] == LowerChar(y[i]);
    }
    assert s == s[..2] + x && t == t[..2] + y && s[..2] == t[..2];
  }

  /** Whatever the hash function, reading the checksummed text gives the address back. */
  lemma AddressTextRoundTrip(a: seq<Byte>, keccak: string -> Digest, s: string)
    requires |a| == ADDRESS_LENGTH && IsChecksum(a, keccak, s)
    ensures StringToBytes(s) == a && DecodeHex(s) == Decoded(a, true)
  {
    ChecksumDigits(a, keccak, s);
    DigitsDecode(s[2..], a);
    assert s == "0x" + s[2..];
    EvenBody(s[2..]);
  }

  lemma DigitsDecode(body: string, a: seq<Byte>)
    requires SameDigits(body, Encode(a))
    ensures Decode(body) == Decoded(a, true)
  {
    CaseDoesNotMatter(body, Encode(a));
    DecodeEncode(a);
  }

  lemma ChecksumDigits(a: seq<Byte>, keccak: string -> Digest, s: string)
    requires |a| == ADDRESS_LENGTH && IsChecksum(a, keccak, s)
    ensures SameDigits(s[2..], Encode(a))
  {
    var body := s[2..];
    forall i | 0 <= i < |body| ensures DigitValue(body[i]) == DigitValue(Encode(a)[i]) {
      LowerKeepsValue(body[i]);
    }
  }

  lemma LowerKeepsValue(c: char)
    ensures DigitValue(LowerChar(c)) == DigitValue(c)
  {
  }

  // ---------- the receivers ----------

  // Bytes copied over the front of a fixed-size value; a shorter source leaves the rest as it was.
  function Overlay(before: seq<Byte>, b: seq<Byte>): (r: seq<Byte>)
    ensures |r| == |before|
  {
    if |b| >= |before| then b[..|before|] else b + before[|b|..]
  }

  class Address {
    var bytes: seq<Byte>

    constructor ()
      ensures bytes == Zeros(ADDRESS_LENGTH)
    {
      bytes := Zeros(ADDRESS_LENGTH);
    }

    method UnmarshalText(input: string) returns (ok: bool)
      requires |bytes| == ADDRESS_LENGTH
      modifies this
      ensures |bytes| == ADDRESS_LENGTH
      ensures ok <==> StartsWithAddress(TrimPrefix(input))
      ensures if ok then BigEndian(bytes) == Value(TrimPrefix(input)[..AddressDigits(TrimPrefix(input))], 16) else bytes == old(bytes)
      ensures ok ==> bytes == StringToBytes(input)
    {
      AcceptedIff(input);
      var buf := StringToBytes(input);
      if |buf| != ADDRESS_LENGTH { return false; }
      var fixed := BytesToFixed(buf, ADDRESS_LENGTH);
      assert Zeros(0) + buf == buf;
      bytes := fixed[..];
      ok := true;
    }

    /** Reads a database value that may be absent or of another type. */
    method Scan(src: Option<string>) returns (ok: bool)
      requires |bytes| == ADDRESS_LENGTH
      modifies this
      ensures ok <==> src.Some? && DecodeHex(src.value).ok
      ensures bytes == if ok then Overlay(old(bytes), DecodeHex(src.value).bytes) else old(bytes)
    {
      if src.None? || !DecodeHex(src.value).ok { return false; }
      var aa := DecodeHex(src.value).bytes;
      bytes := if |aa| >= |bytes| then aa[..|bytes|] else aa + bytes[|aa|..];
      ok := true;
    }

    method MarshalText(keccak: string -> Digest) returns (s: string)
      requires |bytes| == ADDRESS_LENGTH
      ensures IsChecksum(bytes, keccak, s)
    {
      s := ChecksumEncode(bytes, keccak);
    }
  }

  /** What a receiver held before cannot be seen after a scan exactly when the scanned value is at
      least as long. */
  lemma ScanForgetsIff(b: seq<Byte>, size: nat)
    ensures (forall x: seq<Byte>, y: seq<Byte> :: |x| == size && |y| == size ==> Overlay(x, b) == Overlay(y, b))
            <==> |b| >= size
  {
    if |b| < size {
      var x, y := Zeros(size), seq<Byte>(size, _ => 1);
      assert Overlay(x, b)[|b|] == 0 && Overlay(y, b)[|b|] == 1;
    }
  }

  /** A stored value of one byte leaves the other nineteen bytes of the previous address in place. */
  lemma ShortScan(before: seq<Byte>)
    requires |before| == ADDRESS_LENGTH
    ensures DecodeHex("0x01") == Decoded([1], true)
    ensures Overlay(before, DecodeHex("0x01").bytes) == [1] + before[1..]
  {
    DecodeEncode([1]);
    assert Encode([1]) == "01" by { assert [1 as Byte][1..] == []; }
    assert "0x01" == "0x" + "01" && "0x01"[2..] == "01";
  }

  /** Scanning the stored form of an address restores it over any previous value. */
  lemma ScanRoundTrip(a: seq<Byte>, before: seq<Byte>, keccak: string -> Digest, s: string)
    requires |a| == |before| == ADDRESS_LENGTH && IsChecksum(a, keccak, s)
    ensures DecodeHex(s).ok && Overlay(before, DecodeHex(s).bytes) == a
  {
    AddressTextRoundTrip(a, keccak, s);
  }
}
