/** Whole numbers as decimal text, as the standard library prints and parses them. */
module Decimal {
  import opened Text

  const U32_MAX := 0xFFFF_FFFF
  const I64_MAX := 0x7FFF_FFFF_FFFF_FFFF

  predicate IsDigit(c: char) {
    '0' <= c <= '9'
  }

  predicate AllDigits(s: string) {
    forall i :: 0 <= i < |s| ==> IsDigit(s[i])
  }

  function Value(s: string): nat
    requires AllDigits(s)
  {
    if s == "" then 0 else Value(s[..|s| - 1]) * 10 + (s[|s| - 1] - '0') as nat
  }

  function Digits(n: nat): string {
    if n < 10 then ['0' + n as char] else Digits(n / 10) + ['0' + (n % 10) as char]
  }

  /** The value of a non-empty run of digits. */
  function ParseDigits(s: string): Option<nat> {
    if s != "" && AllDigits(s) then Some(Value(s)) else None
  }

  function ParseU32(s: string): Option<nat> {
    match ParseDigits(if s != "" && s[0] == '+' then s[1..] else s)
    case Some(n) => if n <= U32_MAX then Some(n) else None
    case None => None
  }

  function ParseI64(s: string): Option<int> {
    if s != "" && s[0] == '-' then
      match ParseDigits(s[1..])
      case Some(n) => if n <= I64_MAX + 1 then Some(0 - n as int) else None
      case None => None
    else
      match ParseDigits(if s != "" && s[0] == '+' then s[1..] else s)
      case Some(n) => if n <= I64_MAX then Some(n) else None
      case None => None
  }

  lemma {:induction false} ParseOfDigits(n: nat)
    ensures ParseDigits(Digits(n)) == Some(n)
  {
    var s, last := Digits(n), ('0' + (n % 10) as char);
    if n >= 10 {
      ParseOfDigits(n / 10);
      assert s[..|s| - 1] == Digits(n / 10);
    } else {
      assert s[..0] == "" && Value("") == 0;
    }
    assert s[|s| - 1] == last && IsDigit(last) && (last - '0') as nat == n % 10;
  }

  /** A number in range, printed, reads back as itself. */
  lemma PrintedReadsBack(n: nat)
    requires n <= I64_MAX
    ensures Digits(n) != "" && ParseI64(Digits(n)) == Some(n)
  {
    ParseOfDigits(n);
    assert IsDigit(Digits(n)[0]);
  }

  predicate IsSigned(sign: string, digits: string) {
    (sign == "" || sign == "+" || sign == "-") && digits != "" && AllDigits(digits)
  }

  /** A text reads as a signed 64-bit number exactly if it is a sign or none, then digits, and its value is in range. */
  lemma ParseI64Iff(s: string, value: int)
    ensures ParseI64(s) == Some(value) <==>
            && -0x8000_0000_0000_0000 <= value < 0x8000_0000_0000_0000
            && exists sign: string, digits: string ::
                 IsSigned(sign, digits) && sign + digits == s && value == if sign == "-" then -(Value(digits) as int) else Value(digits)
  {
    hide Value;
    if ParseI64(s) == Some(value) {
      var sign := if s[0] == '+' || s[0] == '-' then s[..1] else "";
      assert IsSigned(sign, s[|sign|..]) && sign + s[|sign|..] == s;
    }
    forall sign: string, digits: string | IsSigned(sign, digits) && sign + digits == s
      ensures ParseI64(s) ==
              var v := if sign == "-" then -(Value(digits) as int) else Value(digits);
              if -0x8000_0000_0000_0000 <= v < 0x8000_0000_0000_0000 then Some(v) else None
    {
      SignedReads(sign, digits);
    }
  }

  lemma SignedReads(sign: string, digits: string)
    requires IsSigned(sign, digits)
    ensures ParseI64(sign + digits) ==
            var v := if sign == "-" then -(Value(digits) as int) else Value(digits);
            if -0x8000_0000_0000_0000 <= v < 0x8000_0000_0000_0000 then Some(v) else None
  {
    hide Value;
    var s := sign + digits;
    assert s[|sign|..] == digits && IsDigit(digits[0]);
    if sign == "" { assert s == digits; } else { assert s[0] == sign[0]; }
  }
}
