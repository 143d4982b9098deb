/** Percent-encoding of byte strings, and UTF-8 validity. */
module PercentCoding {
  predicate IsBytes(s: string) {
    forall i :: 0 <= i < |s| ==> s[i] < '\U{100}'
  }

  predicate Within(c: char, low: char, high: char) {
    low <= c <= high
  }

  /** The length of the well-formed UTF-8 sequence at the start of the text, or zero. */
  function SequenceLength(s: string): nat
    ensures SequenceLength(s) <= |s|
  {
    if s == "" then 0
    else if s[0] < '\U{80}' then 1
    else if |s| < 2 then 0
    else if Within(s[0], '\U{C2}', '\U{DF}') then if IsTrailing(s[1]) then 2 else 0
    else if |s| < 3 || !IsTrailing(s[2]) then 0
    else if Within(s[0], '\U{E0}', '\U{EF}') then
      var low := if s[0] == '\U{E0}' then '\U{A0}' else '\U{80}';
      var high := if s[0] == '\U{ED}' then '\U{9F}' else '\U{BF}';
      if Within(s[1], low, high) then 3 else 0
    else if |s| < 4 || !IsTrailing(s[3]) then 0
    else if Within(s[0], '\U{F0}', '\U{F4}') then
      var low := if s[0] == '\U{F0}' then '\U{90}' else '\U{80}';
      var high := if s[0] == '\U{F4}' then '\U{8F}' else '\U{BF}';
      if Within(s[1], low, high) then 4 else 0
    else 0
  }

  predicate IsTrailing(c: char) {
    Within(c, '\U{80}', '\U{BF}')
  }

  predicate Utf8(s: string)
    decreases |s|
  {
    s == "" || (SequenceLength(s) > 0 && Utf8(s[SequenceLength(s)..]))
  }

  // ---- What valid UTF-8 is: the encodings of Unicode scalar values (RFC 3629, section 3) ----

  predicate IsScalar(u: nat) {
    u < 0xD800 || 0xE000 <= u <= 0x10FFFF
  }

  function Trailing(n: nat): char
    requires n < 64
  {
    (0x80 + n) as char
  }

  function ScalarBytes(u: nat): (r: string)
    requires IsScalar(u)
    ensures 1 <= |r| <= 4
  {
    if u < 0x80 then [u as char]
    else if u < 0x800 then [(0xC0 + u / 64) as char, Trailing(u % 64)]
    else if u < 0x1_0000 then [(0xE0 + u / 4096) as char, Trailing(u / 64 % 64), Trailing(u % 64)]
    else [(0xF0 + u / 262144) as char, Trailing(u / 4096 % 64), Trailing(u / 64 % 64), Trailing(u % 64)]
  }

  function BytesOf(us: seq<nat>): string
    requires forall u <- us :: IsScalar(u)
  {
    if us == [] then "" else ScalarBytes(us[0]) + BytesOf(us[1..])
  }

  lemma SixBits(q: nat, r: nat)
    requires r < 64
    ensures (q * 64 + r) / 64 == q && (q * 64 + r) % 64 == r
  {
  }

  lemma TwoBytes(u: nat, rest: string)
    requires 0x80 <= u < 0x800
    ensures SequenceLength(ScalarBytes(u) + rest) == 2
  {
    var s := ScalarBytes(u) + rest;
    assert 2 <= u / 64 <= 31;
    assert s[0] == (0xC0 + u / 64) as char && s[1] == Trailing(u % 64);
    hide ScalarBytes;
  }

  lemma ThreeBytes(u: nat, rest: string)
    requires 0x800 <= u < 0x1_0000 && IsScalar(u)
    ensures SequenceLength(ScalarBytes(u) + rest) == 3
  {
    var s := ScalarBytes(u) + rest;
    var high, middle := u / 4096, u / 64 % 64;
    assert u / 64 == high * 64 + middle && high <= 15;
    assert high == 0 ==> middle >= 32;
    assert high == 13 ==> middle < 32;
    assert s[0] == (0xE0 + high) as char && s[1] == Trailing(middle) && s[2] == Trailing(u % 64);
    hide ScalarBytes;
  }

  lemma FourBytes(u: nat, rest: string)
    requires 0x1_0000 <= u <= 0x10FFFF
    ensures SequenceLength(ScalarBytes(u) + rest) == 4
  {
    var s := ScalarBytes(u) + rest;
    var high, middle := u / 262144, u / 4096 % 64;
    assert u / 4096 == high * 64 + middle && high <= 4;
    assert high == 0 ==> middle >= 16;
    assert high == 4 ==> middle < 16;
    assert s[0] == (0xF0 + high) as char && s[1] == Trailing(middle) && s[2] == Trailing(u / 64 % 64) && s[3] == Trailing(u % 64);
    hide ScalarBytes;
  }

  lemma ScalarIsSequence(u: nat, rest: string)
    requires IsScalar(u)
    ensures SequenceLength(ScalarBytes(u) + rest) == |ScalarBytes(u)|
  {
    hide SequenceLength;
    if u < 0x80 { OneByte(u, rest); }
    else if u < 0x800 { TwoBytes(u, rest); }
    else if u < 0x1_0000 { ThreeBytes(u, rest); }
    else { FourBytes(u, rest); }
  }

  lemma OneByte(u: nat, rest: string)
    requires u < 0x80
    ensures SequenceLength(ScalarBytes(u) + rest) == 1
  {
  }

  /** The number that a sequence of two to four bytes spells. */
  lemma SpelledTwo(s: string) returns (u: nat)
    requires SequenceLength(s) == 2
    ensures IsScalar(u) && ScalarBytes(u) == s[..2]
  {
    var a, b := s[0] as nat - 0xC0, s[1] as nat - 0x80;
    u := a * 64 + b;
    SixBits(a, b);
  }

  lemma SpelledThree(s: string) returns (u: nat)
    requires SequenceLength(s) == 3
    ensures IsScalar(u) && ScalarBytes(u) == s[..3]
  {
    var a, b, c := s[0] as nat - 0xE0, s[1] as nat - 0x80, s[2] as nat - 0x80;
    assert a < 16 && b < 64 && c < 64 && (a == 0 ==> b >= 32) && (a == 13 ==> b < 32);
    hide SequenceLength;
    u := (a * 64 + b) * 64 + c;
    SixBits(a * 64 + b, c);
    SixBits(a, b);
    assert u / 4096 == a;
    assert 0x800 <= u < 0x1_0000 && IsScalar(u);
    assert ScalarBytes(u) == [(0xE0 + a) as char, Trailing(b), Trailing(c)];
  }

  lemma SpelledFour(s: string) returns (u: nat)
    requires SequenceLength(s) == 4
    ensures IsScalar(u) && ScalarBytes(u) == s[..4]
  {
    var a, b, c, d := s[0] as nat - 0xF0, s[1] as nat - 0x80, s[2] as nat - 0x80, s[3] as nat - 0x80;
    assert a < 5 && b < 64 && c < 64 && d < 64 && (a == 0 ==> b >= 16) && (a == 4 ==> b < 16);
    hide SequenceLength;
    u := ((a * 64 + b) * 64 + c) * 64 + d;
    SixBits((a * 64 + b) * 64 + c, d);
    SixBits(a * 64 + b, c);
    SixBits(a, b);
    assert u / 4096 == a * 64 + b && u / 262144 == a;
    assert 0x1_0000 <= u <= 0x10FFFF;
    assert ScalarBytes(u) == [(0xF0 + a) as char, Trailing(b), Trailing(c), Trailing(d)];
  }

  lemma SequenceIsScalar(s: string) returns (u: nat)
    requires SequenceLength(s) > 0
    ensures IsScalar(u) && ScalarBytes(u) == s[..SequenceLength(s)]
  {
    LengthIsSmall(s);
    if SequenceLength(s) == 2 { u := SpelledTwo(s); }
    else if SequenceLength(s) == 3 { u := SpelledThree(s); }
    else if SequenceLength(s) == 4 { u := SpelledFour(s); }
    else { u := s[0] as nat; }
    hide SequenceLength;
  }

  lemma LengthIsSmall(s: string)
    ensures SequenceLength(s) <= 4 && (SequenceLength(s) == 1 ==> s[0] < '\U{80}')
  {
  }

  lemma {:induction false} Utf8Spells(s: string) returns (us: seq<nat>)
    requires Utf8(s)
    ensures (forall u <- us :: IsScalar(u)) && s == BytesOf(us)
    decreases |s|
  {
    hide SequenceLength, ScalarBytes, IsScalar;
    if s == "" {
      us := [];
    } else {
      var u := SequenceIsScalar(s);
      var rest := Utf8Spells(s[SequenceLength(s)..]);
      us := [u] + rest;
      assert us[1..] == rest && s == s[..SequenceLength(s)] + s[SequenceLength(s)..];
    }
  }

  lemma {:induction false} SpelledIsUtf8(us: seq<nat>)
    requires forall u <- us :: IsScalar(u)
    ensures Utf8(BytesOf(us))
    decreases |us|
  {
    hide SequenceLength, ScalarBytes, IsScalar;
    if us != [] {
      var first, rest := ScalarBytes(us[0]), BytesOf(us[1..]);
      ScalarIsSequence(us[0], rest);
      SpelledIsUtf8(us[1..]);
      assert (first + rest)[|first|..] == rest;
    }
  }

  /** A byte string is valid UTF-8 exactly if it is the encoding of some Unicode scalar values one after the other. */
  lemma Utf8Iff(s: string)
    ensures Utf8(s) <==> exists us: seq<nat> :: (forall u <- us :: IsScalar(u)) && BytesOf(us) == s
  {
    if Utf8(s) { var us := Utf8Spells(s); }
    forall us: seq<nat> | (forall u <- us :: IsScalar(u)) && BytesOf(us) == s ensures Utf8(s) { SpelledIsUtf8(us); }
  }

  // ---- Decoding ----

  predicate IsHex(c: char) {
    '0' <= c <= '9' || 'a' <= c <= 'f' || 'A' <= c <= 'F'
  }

  function HexValue(c: char): nat
    requires IsHex(c)
    ensures HexValue(c) < 16
  {
    if c <= '9' then (c - '0') as nat else if c <= 'F' then (c - 'A') as nat + 10 else (c - 'a') as nat + 10
  }

  /** The hexadecimal digits, large or small. */
  lemma HexIff(c: char, n: nat)
    requires n < 16
    ensures IsHex(c) && HexValue(c) == n <==> c == "0123456789abcdef"[n] || c == "0123456789ABCDEF"[n]
  {
  }

  predicate EscapeAt(s: string, k: nat) {
    k + 3 <= |s| && s[k] == '%' && IsHex(s[k + 1]) && IsHex(s[k + 2])
  }

  /** Escapes become the bytes they stand for; anything else, a stray percent sign too, stays. */
  function Decode(s: string): string {
    if s == "" then ""
    else if EscapeAt(s, 0) then [(HexValue(s[1]) * 16 + HexValue(s[2])) as char] + Decode(s[3..])
    else [s[0]] + Decode(s[1..])
  }

  predicate HasEscape(s: string) {
    exists k :: 0 <= k < |s| && EscapeAt(s, k)
  }

  /** Decoding changes a text exactly when it holds an escape, and then shortens it. */
  lemma {:induction false} DecodeFixedIff(s: string)
    ensures |Decode(s)| <= |s|
    ensures Decode(s) == s <==> !HasEscape(s)
    ensures HasEscape(s) ==> |Decode(s)| < |s|
  {
    if s != "" {
      if EscapeAt(s, 0) {
        DecodeFixedIff(s[3..]);
      } else {
        DecodeFixedIff(s[1..]);
        EscapesOfTail(s);
      }
    }
  }

  lemma EscapesOfTail(s: string)
    requires s != "" && !EscapeAt(s, 0)
    ensures HasEscape(s) <==> HasEscape(s[1..])
  {
    forall k: nat | k < |s[1..]| ensures EscapeAt(s[1..], k) <==> EscapeAt(s, k + 1) { }
    if HasEscape(s) {
      var k :| 0 <= k < |s| && EscapeAt(s, k);
      assert EscapeAt(s[1..], k - 1);
    }
    if HasEscape(s[1..]) {
      var k :| 0 <= k < |s[1..]| && EscapeAt(s[1..], k);
      assert EscapeAt(s, k + 1);
    }
  }

  // ---- Encoding ----

  predicate IsUnreserved(c: char) {
    || 'a' <= c <= 'z' || 'A' <= c <= 'Z' || '0' <= c <= '9'
    || c == '-' || c == '_' || c == '.' || c == '~'
  }

  function HexDigit(n: nat): char
    requires n < 16
  {
    if n < 10 then '0' + n as char else 'A' + (n - 10) as char
  }

  function EncodeByte(c: char): string {
    if IsUnreserved(c) then [c] else ['%', HexDigit(c as nat / 16 % 16), HexDigit(c as nat % 16)]
  }

  function Encode(s: string): string {
    if s == "" then "" else EncodeByte(s[0]) + Encode(s[1..])
  }

  /** The letters, the digits and the four marks of RFC 3986, section 2.3, stay; every other byte becomes a percent
      sign and two capital hexadecimal digits. */
  lemma EncodeByteIs(c: char)
    requires c < '\U{100}'
    ensures var n := c as nat;
            EncodeByte(c) ==
            if 0x41 <= n <= 0x5A || 0x61 <= n <= 0x7A || 0x30 <= n <= 0x39 || n in {0x2D, 0x2E, 0x5F, 0x7E} then [c]
            else ['%', "0123456789ABCDEF"[n / 16], "0123456789ABCDEF"[n % 16]]
  {
    HexDigitIs(c as nat / 16);
    HexDigitIs(c as nat % 16);
    hide HexDigit;
  }

  lemma HexDigitIs(n: nat)
    requires n < 16
    ensures HexDigit(n) == "0123456789ABCDEF"[n]
  {
  }

  lemma EncodedByte(c: char)
    requires c < '\U{100}' && !IsUnreserved(c)
    ensures EscapeAt(EncodeByte(c), 0)
    ensures |EncodeByte(c)| == 3
    ensures (HexValue(EncodeByte(c)[1]) * 16 + HexValue(EncodeByte(c)[2])) as char == c
  {
    var n := c as nat;
    HexRoundTrip(n / 16);
    HexRoundTrip(n % 16);
    hide HexDigit, HexValue, IsHex, IsUnreserved;
    assert n / 16 % 16 == n / 16;
    assert n / 16 * 16 + n % 16 == n;
  }

  lemma HexRoundTrip(n: nat)
    requires n < 16
    ensures IsHex(HexDigit(n)) && HexValue(HexDigit(n)) == n
  {
  }

  lemma DecodesByte(c: char, more: string)
    requires c < '\U{100}'
    ensures Decode(EncodeByte(c) + more) == [c] + Decode(more)
  {
    var code := EncodeByte(c);
    var whole := code + more;
    if IsUnreserved(c) {
      assert whole[0] == c && whole[1..] == more && !EscapeAt(whole, 0);
    } else {
      EncodedByte(c);
      hide EncodeByte, HexValue, IsHex;
      assert whole[3..] == more && whole[0] == code[0] && whole[1] == code[1] && whole[2] == code[2];
      assert EscapeAt(whole, 0);
    }
  }

  /** Decoding goes through an encoded text byte by byte, whatever follows it. */
  lemma {:induction false} DecodeOfEncoded(s: string, rest: string)
    requires IsBytes(s)
    ensures Decode(Encode(s) + rest) == s + Decode(rest)
  {
    hide Decode, EncodeByte;
    if s == "" {
      assert Encode(s) + rest == rest;
    } else {
      var more := Encode(s[1..]) + rest;
      assert Encode(s) + rest == EncodeByte(s[0]) + more;
      DecodeOfEncoded(s[1..], rest);
      DecodesByte(s[0], more);
      assert s == [s[0]] + s[1..];
    }
  }

  /** Every byte string survives encoding and decoding. */
  lemma {:induction false} EncodeRoundTrip(s: string)
    requires IsBytes(s)
    ensures Decode(Encode(s)) == s
  {
    DecodeOfEncoded(s, "");
    assert Encode(s) + "" == Encode(s);
  }

  /** An encoded text holds only unreserved characters and percent signs. */
  lemma {:induction false} EncodedAlphabet(s: string)
    ensures forall c :: c in Encode(s) ==> IsUnreserved(c) || c == '%'
  {
    if s != "" { EncodedAlphabet(s[1..]); }
  }

  lemma {:induction false} AsciiIsUtf8(s: string)
    requires forall i :: 0 <= i < |s| ==> s[i] < '\U{80}'
    ensures Utf8(s) && IsBytes(s)
  {
    if s != "" { AsciiIsUtf8(s[1..]); }
  }
}
