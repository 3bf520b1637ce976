/**
 Numbers in JSON: printed as quoted hex, read from quoted decimal or hex text or from a number, which
 the JSON library delivers as a double.
 */
module JsonNumber {
  import opened Float64
  import opened HexCodec
  import opened Numerals
  import opened Options

  type Uint64 = n: nat | n <= MAX_UINT64
  type Int64 = n: int | InInt64(n)

  predicate InInt64(n: int) {
    -(TWO_63 as int) <= n < TWO_63
  }

  // A decoded JSON value, as far as it matters here.
  datatype Json = Text(s: string) | Num(f: Double) | Other | Malformed

  // The integer before its conversion to 64 bits.
  function Whole(f: Double): int {
    if f.neg then 0 - FloatRound(f) else FloatRound(f)
  }

  // Go leaves the conversion of a float outside the 64-bit range to the platform: `outside`.
  function RoundFloat(f: Double, outside: int -> Int64): Int64 {
    if InInt64(Whole(f)) then Whole(f) else outside(Whole(f))
  }

  function ConvertUnmarshalledInt(j: Json, outside: int -> Int64): Option<Int64> {
    match j
    case Num(f) => Some(RoundFloat(f, outside))
    case Text(s) =>
      (match Uint64orHex(Some(s))
       case Number(v) => Some(ToInt(v))
       case _ => None)
    case _ => None
  }

  // The value that is read, if any.
  function Read(j: Json, outside: int -> Int64): Option<nat> {
    match ConvertUnmarshalledInt(j, outside)
    case None => None
    case Some(v) => if v < 0 then None else Some(v)
  }

  class JSONNumber {
    var value: Uint64

    constructor (value: Uint64)
      ensures this.value == value
    {
      this.value := value;
    }

    /** What is printed is quoted; the quoted text denotes the value, and a reader gets the value
        back, or an error if it is 2^63 or more. */
    method MarshalJSON() returns (data: string)
      ensures |data| >= 2 && data[0] == data[|data| - 1] == '"'
      ensures Uint64orHex(Some(data[1..|data| - 1])) == Number(value)
      ensures ReadsBack(data[1..|data| - 1], value)
    {
      data := "\"" + EncodeUint64(value) + "\"";
      assert data[1..|data| - 1] == EncodeUint64(value);
      Uint64RoundTrip(value);
      forall outside: int -> Int64
        ensures Read(Text(EncodeUint64(value)), outside) == if value < TWO_63 then Some(value) else None
      {
        ReadNumber(EncodeUint64(value), value, outside);
      }
    }

    /** The JSON library is the parameter `json`. */
    method UnmarshalJSON(data: string, json: string -> Json, outside: int -> Int64) returns (ok: bool)
      modifies this
      ensures ok <==> Acceptable(json(data), outside)
      ensures value == if ok then Meant(json(data), outside) else old(value)
      ensures ok ==> value < TWO_63
    {
      ReadIff(json(data), outside);
      var raw := json(data);
      if raw.Malformed? { return false; }
      var val := ConvertUnmarshalledInt(raw, outside);
      if val.None? || val.value < 0 { return false; }
      value := val.value;
      ok := true;
    }
  }

  // What is acceptable: text that denotes a number below 2^63, a number in the 64-bit range without a
  // minus sign or above -(1/2 - 2^-54), a number outside the range that the platform converts to a
  // non-negative one. Any other value -- true, false, null, a list, an object -- is not, nor is no value.
  ghost predicate Acceptable(j: Json, outside: int -> Int64) {
    match j
    case Text(s) => DenotedDigits(s) != [] && AllDigits(DenotedDigits(s), DenotedBase(s)) && Denoted(s) < TWO_63
    case Num(f) => if InInt64(Whole(f)) then !f.neg || UnderHalf(f) else outside(Whole(f)) >= 0
    case Other => false
    case Malformed => false
  }

  // The number that acceptable text denotes, or the magnitude of the number rounded.
  function Meant(j: Json, outside: int -> Int64): int {
    match j
    case Text(s) => Denoted(s)
    case Num(f) => if InInt64(Whole(f)) then FloatRound(f) else outside(Whole(f))
    case _ => 0
  }

  function DenotedDigits(s: string): string {
    if HasPrefix(s) then s[2..] else s
  }

  function DenotedBase(s: string): nat {
    if HasPrefix(s) then 16 else 10
  }

  function Denoted(s: string): nat {
    Value(DenotedDigits(s), DenotedBase(s))
  }

  /** A value is read exactly if it is acceptable, and then as the number it means. */
  lemma ReadIff(j: Json, outside: int -> Int64)
    ensures Read(j, outside).Some? <==> Acceptable(j, outside)
    ensures Acceptable(j, outside) ==> Read(j, outside) == Some(Meant(j, outside))
  {
    match j
    case Text(s) => TextIsReadIff(s, outside);
    case Num(f) => NumberIsReadIff(f, outside);
    case _ =>
  }

  // A reader of the text gets the number, or an error if it is too large.
  ghost predicate ReadsBack(s: string, n: nat) {
    forall outside: int -> Int64 :: Read(Text(s), outside) == if n < TWO_63 then Some(n) else None
  }

  lemma ReadNumber(s: string, n: nat, outside: int -> Int64)
    requires n <= MAX_UINT64 && Uint64orHex(Some(s)) == Number(n)
    ensures Read(Text(s), outside) == if n < TWO_63 then Some(n) else None
  {
  }

  /** Text is accepted exactly if it denotes a number below 2^63, and then read as that number. */
  lemma TextIsReadIff(s: string, outside: int -> Int64)
    ensures
      var digits, base := if HasPrefix(s) then s[2..] else s, if HasPrefix(s) then 16 else 10;
      var r := Read(Text(s), outside);
      && (r.Some? <==> digits != [] && AllDigits(digits, base) && Value(digits, base) < TWO_63)
      && (r.Some? ==> r.value == Value(digits, base))
  {
    Uint64Meaning(s);
  }

  /** Reading what was printed returns the value if it is below 2^63 and fails otherwise: never is a
      different number read. The JSON library is only asked to take a quoted text for that text. */
  lemma JsonRoundTrip(n: Uint64, json: string -> Json, outside: int -> Int64)
    requires json("\"" + EncodeUint64(n) + "\"") == Text(EncodeUint64(n))
    ensures Read(json("\"" + EncodeUint64(n) + "\""), outside) == if n < TWO_63 then Some(n) else None
  {
    Uint64RoundTrip(n);
    ReadNumber(EncodeUint64(n), n, outside);
  }

  /** A number that rounds into the 64-bit range is accepted exactly if it has no minus sign or its
      magnitude is below 1/2 - 2^-54, and then read as its rounded magnitude; any other is accepted
      exactly if the platform makes it non-negative. */
  lemma NumberIsReadIff(f: Double, outside: int -> Int64)
    ensures
      var r := Read(Num(f), outside);
      && (r.Some? <==> if InInt64(Whole(f)) then !f.neg || UnderHalf(f) else outside(Whole(f)) >= 0)
      && (r.Some? && InInt64(Whole(f)) ==> r.value == FloatRound(f))
  {
    RoundsToZeroIff(f);
  }

  /** A non-negative integer in range is read as itself, unless it is odd, at least 2^52 and below
      2^53. */
  lemma IntegerIsReadIff(f: Double, outside: int -> Int64)
    requires IsInteger(f) && !f.neg && InInt64(Whole(f))
    ensures Read(Num(f), outside) == Some(IntegerPart(f))
       <==> !(P52 <= IntegerPart(f) < P53 && IntegerPart(f) % 2 == 1)
  {
    IntegerIsKeptIff(f);
  }

  /** For instance, 2^52 + 1 is read as 2^52 + 2. */
  lemma NextIntegerIsRead(f: Double, outside: int -> Int64)
    requires f == Float(false, P52 + 1, 0)
    ensures IntegerPart(f) == P52 + 1 && Read(Num(f), outside) == Some(P52 + 2)
  {
    LargeCase(f);
  }

  /** The floats next to 1/2 and -1/2 towards zero: the one is read as 1, the other is rejected,
      although both are nearer to 0; and -1/4 is read as 0. */
  lemma HalvesAreRead(f: Double, g: Double, h: Double, outside: int -> Int64)
    requires f == Float(false, P53 - 1, -54) && g == Float(true, P53 - 1, -54) && h == Float(true, P52, -54)
    ensures Nearest(f) == Nearest(g) == Nearest(h) == 0
    ensures Read(Num(f), outside) == Some(1) && Read(Num(g), outside) == None && Read(Num(h), outside) == Some(0)
  {
    JustBelowHalfCase(f);
    JustBelowHalfCase(g);
    JustBelowHalfCase(h);
  }
}
