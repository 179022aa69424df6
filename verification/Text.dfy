/** The decimal text form in which metrics and properties keep their values.

    `std::to_string` writes it; `std::istringstream >> T`, `std::stoi` and the
    boolean reader take it apart again.  Widths are explicit: a value outside
    the target width saturates (stream extraction) or is rejected (`stoi`). */
module Text {

  const TWO_31: int := 0x8000_0000
  const TWO_32: int := 0x1_0000_0000
  const TWO_63: int := 0x8000_0000_0000_0000
  const TWO_64: int := 0x1_0000_0000_0000_0000

  type u32 = n: int | 0 <= n < TWO_32
  type u64 = n: int | 0 <= n < TWO_64

  predicate IsDigit(c: char) {
    '0' <= c <= '9'
  }

  predicate IsSpace(c: char) {
    c == ' ' || '\t' <= c <= '\r'
  }

  function DigitChar(d: nat): char
    requires d < 10
  {
    ('0' as int + d) as char
  }

  function DigitValue(c: char): nat
    requires IsDigit(c)
  {
    c as int - '0' as int
  }

  // ---------------------------------------------------------------- printing

  function PrintNat(n: nat): string {
    if n < 10 then [DigitChar(n)] else PrintNat(n / 10) + [DigitChar(n % 10)]
  }

  /** `std::to_string` for every integer width. */
  function Print(n: int): string {
    if n < 0 then "-" + PrintNat(-n) else PrintNat(n)
  }

  // ---------------------------------------------------------------- scanning

  function SkipSpace(text: string): string {
    if text != "" && IsSpace(text[0]) then SkipSpace(text[1..]) else text
  }

  function DigitCount(text: string): (k: nat)
    ensures k <= |text|
    ensures forall i :: 0 <= i < k ==> IsDigit(text[i])
    ensures k < |text| ==> !IsDigit(text[k])
  {
    if text != "" && IsDigit(text[0]) then 1 + DigitCount(text[1..]) else 0
  }

  function NatOf(digits: string): nat
    requires forall c :: c in digits ==> IsDigit(c)
  {
    if digits == "" then 0
    else 10 * NatOf(digits[..|digits| - 1]) + DigitValue(digits[|digits| - 1])
  }

  datatype Number = NoNumber | Number(negative: bool, magnitude: nat) {
    function Value(): int {
      if NoNumber? then 0 else (var m: int := magnitude; if negative then -m else m)
    }
  }

  /** White space, an optional sign, then as many digits as there are. */
  function Scan(text: string): Number {
    var t := SkipSpace(text);
    var signed := t != "" && (t[0] == '-' || t[0] == '+');
    var d := if signed then t[1..] else t;
    var k := DigitCount(d);
    if k == 0 then NoNumber else Number(signed && t[0] == '-', NatOf(d[..k]))
  }

  function Clamp(low: int, high: int, n: int): int {
    if n < low then low else if n > high then high else n
  }

  /** Stream extraction into a signed type with range -limit..limit-1. */
  function ReadSigned(limit: int, text: string): int {
    Clamp(-limit, limit - 1, Scan(text).Value())
  }

  /** Stream extraction into an unsigned type with range 0..size-1: the
      magnitude is checked against the range, then negated modulo `size`. */
  function ReadUnsigned(size: int, text: string): int {
    match Scan(text)
    case NoNumber => 0
    case Number(neg, m) =>
      if m >= size then size - 1 else if neg && m > 0 then size - m else m
  }

  function CastInt8(v: int): int {
    (v + 128) % 256 - 128
  }

  /** `static_cast<int8_t>(std::stoi(text))`, zero when `stoi` throws. */
  function ReadInt8(text: string): int {
    var v := Scan(text).Value();
    if -TWO_31 <= v < TWO_31 then CastInt8(v) else 0
  }

  /** The boolean reader looks at the first character only. */
  predicate ReadBool(text: string) {
    text != "" && text[0] in {'Y', 'y', 'T', 't', '1'}
  }

  function PrintBool(b: bool): string {
    if b then "1" else "0"
  }

  // ------------------------------------------------- two's-complement casts

  function ToU32(n: int): u32
    requires -TWO_31 <= n < TWO_31
  {
    if n < 0 then n + TWO_32 else n
  }

  function FromU32(n: u32): int {
    if n >= TWO_31 then n - TWO_32 else n
  }

  function ToU64(n: int): u64
    requires -TWO_63 <= n < TWO_63
  {
    if n < 0 then n + TWO_64 else n
  }

  function FromU64(n: u64): int {
    if n >= TWO_63 then n - TWO_64 else n
  }

  // ------------------------------------------------------------- properties

  lemma {:induction false} PrintNatScans(n: nat)
    ensures PrintNat(n) != ""
    ensures forall c :: c in PrintNat(n) ==> IsDigit(c)
    ensures NatOf(PrintNat(n)) == n
  {
    if n >= 10 {
      PrintNatScans(n / 10);
      var s := PrintNat(n);
      assert s[..|s| - 1] == PrintNat(n / 10);
    } else {
      assert PrintNat(n)[..0] == "";
    }
  }

  lemma {:induction false} DigitCountAll(s: string)
    requires forall c :: c in s ==> IsDigit(c)
    ensures DigitCount(s) == |s|
  {
    if s != "" {
      DigitCountAll(s[1..]);
    }
  }

  /** Reading back what `std::to_string` wrote, for every integer. */
  lemma ScanPrint(n: int)
    ensures Scan(Print(n)) == Number(n < 0, if n < 0 then -n else n)
  {
    var m := if n < 0 then -n else n;
    var s := PrintNat(m);
    PrintNatScans(m);
    DigitCountAll(s);
    assert IsDigit(s[0]);
    assert s[..|s|] == s;
    if n < 0 {
      assert Print(n)[1..] == s;
    }
  }
}
