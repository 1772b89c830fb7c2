/** Rust's fixed-width integers: the narrowing cast, and decimal printing and parsing. */
module Integers {
  import opened Sequences
  import opened Text

  const I64_MIN: int := -0x8000_0000_0000_0000
  const I64_MAX: int := 0x7FFF_FFFF_FFFF_FFFF
  const U32_MAX: int := 0xFFFF_FFFF
  const TWO_31: int := 0x8000_0000
  const TWO_32: int := 0x1_0000_0000

  const TWO_63: int := 0x8000_0000_0000_0000
  const TWO_64: int := 0x1_0000_0000_0000_0000

  /** The cast `as i64` of a 64-bit unsigned number. */
  function AsI64(n: nat): int {
    if n < TWO_63 then n else n - TWO_64
  }

  /** The cast gives the signed 64-bit number that differs by a multiple of 2^64. */
  lemma AsI64KeepsBits(n: nat)
    requires n < TWO_64
    ensures 0 - TWO_63 <= AsI64(n) < TWO_63 && (AsI64(n) == n || AsI64(n) == n - 0x1_0000_0000_0000_0000)
  {
  }

  /** The cast `as i32`: the signed 32-bit number with the same low 32 bits. */
  function AsI32(n: int): (r: int)
    ensures 0 - TWO_31 <= r < TWO_31
    ensures r == n <==> 0 - TWO_31 <= n < TWO_31
    decreases if n >= TWO_31 then n else if n < 0 - TWO_31 then 0 - n else 0
  {
    if n >= TWO_31 then AsI32(n - TWO_32)
    else if n < 0 - TWO_31 then AsI32(n + TWO_32)
    else n
  }

  lemma {:induction false} AsI32KeepsLowBits(n: int)
    ensures exists k :: AsI32(n) == n + k * TWO_32
    decreases if n >= TWO_31 then n else if n < 0 - TWO_31 then 0 - n else 0
  {
    if n >= TWO_31 {
      AsI32KeepsLowBits(n - TWO_32);
      var k :| AsI32(n - TWO_32) == n - TWO_32 + k * TWO_32;
      assert AsI32(n) == n + (k - 1) * TWO_32;
    } else if n < 0 - TWO_31 {
      AsI32KeepsLowBits(n + TWO_32);
      var k :| AsI32(n + TWO_32) == n + TWO_32 + k * TWO_32;
      assert AsI32(n) == n + (k + 1) * TWO_32;
    } else {
      assert AsI32(n) == n + 0 * TWO_32;
    }
  }

  predicate IsDigit(c: char) {
    '0' <= c <= '9'
  }

  predicate AllDigits(s: string) {
    forall c :: c in s ==> IsDigit(c)
  }

  function DigitsOf(n: nat): (s: string)
    ensures s != "" && AllDigits(s)
  {
    var digit := ['0' + (n % 10) as char];
    if n < 10 then digit else DigitsOf(n / 10) + digit
  }

  function ValueOf(s: string): nat
    requires AllDigits(s)
  {
    if s == "" then 0
    else
      assert Last(s) in s;
      10 * ValueOf(Init(s)) + Last(s) as nat - '0' as nat
  }

  lemma {:induction false} ValueOfDigits(n: nat)
    ensures ValueOf(DigitsOf(n)) == n
  {
    var digit := ['0' + (n % 10) as char];
    if n < 10 {
      assert Init(digit) == "";
    } else {
      assert Init(DigitsOf(n / 10) + digit) == DigitsOf(n / 10);
      ValueOfDigits(n / 10);
    }
  }

  function Print(n: int): string {
    if n < 0 then "-" + DigitsOf(-n) else DigitsOf(n)
  }

  function InRange(n: int, low: int, high: int): Option<int> {
    if low <= n <= high then Some(n) else None
  }

  /** At least one digit after an optional sign; a minus sign only for signed types; no overflow. */
  function Parse(s: string, low: int, high: int): Option<int> {
    if s != "" && s[0] == '+' && |s| > 1 && AllDigits(s[1..]) then InRange(ValueOf(s[1..]), low, high)
    else if s != "" && s[0] == '-' && low < 0 && |s| > 1 && AllDigits(s[1..]) then
      InRange(0 - ValueOf(s[1..]), low, high)
    else if s != "" && AllDigits(s) then InRange(ValueOf(s), low, high)
    else None
  }

  function ParseI64(s: string): Option<int> {
    Parse(s, I64_MIN, I64_MAX)
  }

  function ParseU32(s: string): Option<int> {
    Parse(s, 0, U32_MAX)
  }

  lemma ParseDigits(digits: string, low: int, high: int)
    requires digits != "" && AllDigits(digits)
    ensures Parse(digits, low, high) == InRange(ValueOf(digits), low, high)
  {
    assert digits[0] in digits;
  }

  lemma ParseSigned(s: string, digits: string, low: int, high: int)
    requires digits != "" && AllDigits(digits) && (s == "+" + digits || s == "-" + digits)
    ensures s == "+" + digits ==> Parse(s, low, high) == InRange(ValueOf(digits), low, high)
    ensures s == "-" + digits ==>
      Parse(s, low, high) == if low < 0 then InRange(0 - ValueOf(digits), low, high) else None
  {
    assert s[1..] == digits && s[0] in s;
  }

  /** Texts that parse: digits, on their own or after a sign, a minus sign for signed types only; within the range. */
  lemma ParseMeaning(digits: string, low: int, high: int)
    requires digits != "" && AllDigits(digits)
    ensures Parse(digits, low, high) == InRange(ValueOf(digits), low, high)
    ensures Parse("+" + digits, low, high) == InRange(ValueOf(digits), low, high)
    ensures Parse("-" + digits, low, high) == if low < 0 then InRange(0 - ValueOf(digits), low, high) else None
  {
    ParseDigits(digits, low, high);
    ParseSigned("+" + digits, digits, low, high);
    ParseSigned("-" + digits, digits, low, high);
  }

  lemma NothingElseParses(s: string, low: int, high: int) returns (digits: string)
    requires Parse(s, low, high).Some?
    ensures digits != "" && AllDigits(digits) && (s == digits || s == "+" + digits || s == "-" + digits)
  {
    assert s[0] in s && s == [s[0]] + s[1..];
    digits := if s[0] == '+' || s[0] == '-' then s[1..] else s;
  }

  /** Parsing undoes printing, within the range of the type. */
  lemma ParsePrint(n: int, low: int, high: int)
    requires low < 0 || n >= 0
    ensures Parse(Print(n), low, high) == InRange(n, low, high)
  {
    if n < 0 {
      ValueOfDigits(-n);
      assert Print(n)[1..] == DigitsOf(-n);
    } else {
      ValueOfDigits(n);
      assert DigitsOf(n)[0] in DigitsOf(n);
    }
  }

  /** Whatever parses contains no white space, so trimming does not change it. */
  lemma ParsedHasNoSpace(s: string, low: int, high: int)
    requires Parse(s, low, high).Some?
    ensures Trim(s) == s && forall c :: c in s ==> !IsWhitespace(c)
  {
    assert s == [s[0]] + s[1..];
    TrimOfNoSpace(s);
  }

  lemma PrintHasNoSeparator(n: int)
    ensures Trim(Print(n)) == Print(n) && ',' !in Print(n)
  {
    TrimOfNoSpace(Print(n));
  }
}
