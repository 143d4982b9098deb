/** Durations written as counts with units. */
module Durations {
  import opened Text
  import opened Decimal

  function UnitSeconds(c: char): Option<nat> {
    match c
    case 's' => Some(1)
    case 'm' => Some(60)
    case 'h' => Some(3600)
    case 'd' => Some(86400)
    case 'w' => Some(604800)
    case _ => None
  }

  /** Seconds, minutes, hours, days and weeks are the only units. */
  lemma UnitIff(c: char, seconds: nat)
    ensures UnitSeconds(c) == Some(seconds) <==>
            || (c == 's' && seconds == 1) || (c == 'm' && seconds == 60) || (c == 'h' && seconds == 60 * 60)
            || (c == 'd' && seconds == 24 * 60 * 60) || (c == 'w' && seconds == 7 * 24 * 60 * 60)
  {
  }

  /** A run of digits and the unit behind it. */
  datatype Term = Term(count: string, unit: char)

  predicate IsTerm(t: Term) {
    t.count != "" && AllDigits(t.count) && UnitSeconds(t.unit).Some?
  }

  predicate AreTerms(terms: seq<Term>) {
    forall i :: 0 <= i < |terms| ==> IsTerm(terms[i])
  }

  function PrintTerms(terms: seq<Term>): string {
    if terms == [] then "" else terms[0].count + ([terms[0].unit] + PrintTerms(terms[1..]))
  }

  function Seconds(t: Term): nat
    requires IsTerm(t)
  {
    Value(t.count) * UnitSeconds(t.unit).value
  }

  function TotalSeconds(terms: seq<Term>): nat
    requires AreTerms(terms)
  {
    if terms == [] then 0 else Seconds(terms[0]) + TotalSeconds(terms[1..])
  }

  /** The rest of a parse: `digits` read but not used yet, `total` summed up so far. */
  function ParseTerms(text: string, digits: string, total: nat, sawUnit: bool): Option<nat>
    decreases |text|
  {
    if text == "" then
      if digits != "" || !sawUnit || total == 0 then None else Some(total)
    else if IsDigit(text[0]) then ParseTerms(text[1..], digits + [text[0]], total, sawUnit)
    else
      match Product(digits, text[0])
      case Some(seconds) =>
        if total + seconds <= I64_MAX then ParseTerms(text[1..], "", total + seconds, true) else None
      case None => None
  }

  /** A count times its unit, if both can be read and the product fits 64 bits. */
  function Product(digits: string, unit: char): Option<nat> {
    match (ParseDigits(digits), UnitSeconds(unit))
    case (Some(value), Some(seconds)) =>
      if value <= I64_MAX && value * seconds <= I64_MAX then Some(value * seconds) else None
    case _ => None
  }

  method ParseDurationSeconds(input: string) returns (seconds: Option<nat>)
    ensures seconds == ParseTerms(Trim(input), "", 0, false)
  {
    hide Product, IsDigit, Trim;
    var total: nat, digits, sawUnit := 0, "", false;
    var text := Trim(input);
    assert text[0..] == text;
    for i := 0 to |text|
      invariant ParseTerms(text, "", 0, false) == ParseTerms(text[i..], digits, total, sawUnit)
    {
      assert text[i..][0] == text[i] && text[i..][1..] == text[i + 1..];
      if IsDigit(text[i]) {
        digits := digits + [text[i]];
      } else {
        var product := Product(digits, text[i]);
        if product.None? || total + product.value > I64_MAX {
          return None;
        }
        digits, total, sawUnit := "", total + product.value, true;
      }
    }
    if digits != "" || !sawUnit || total == 0 {
      return None;
    }
    return Some(total);
  }

  lemma {:induction false} ReadsDigits(digits: string, rest: string, before: string, total: nat, sawUnit: bool)
    requires AllDigits(digits)
    ensures ParseTerms(digits + rest, before, total, sawUnit) == ParseTerms(rest, before + digits, total, sawUnit)
    decreases |digits|
  {
    if digits == "" {
      assert digits + rest == rest && before + digits == before;
    } else {
      assert (digits + rest)[1..] == digits[1..] + rest;
      assert (before + [digits[0]]) + digits[1..] == before + digits;
      ReadsDigits(digits[1..], rest, before + [digits[0]], total, sawUnit);
    }
  }

  lemma ProductOfTerm(t: Term)
    requires IsTerm(t)
    ensures Product(t.count, t.unit) == if Seconds(t) <= I64_MAX then Some(Seconds(t)) else None
  {
    assert Value(t.count) <= Seconds(t);
  }

  lemma UnitIsNoDigit(c: char)
    requires UnitSeconds(c).Some?
    ensures !IsDigit(c)
  {
  }

  function Summed(total: nat, some: bool): Option<nat> {
    if some && 0 < total <= I64_MAX then Some(total) else None
  }

  /** One term's unit, its digits having been read. */
  lemma ReadsTerm(t: Term, rest: string, total: nat, sawUnit: bool)
    requires IsTerm(t)
    ensures ParseTerms([t.unit] + rest, t.count, total, sawUnit) ==
            if total + Seconds(t) <= I64_MAX then ParseTerms(rest, "", total + Seconds(t), true) else None
  {
    hide Product, Seconds, IsDigit;
    ProductOfTerm(t);
    UnitIsNoDigit(t.unit);
    assert ([t.unit] + rest)[1..] == rest;
  }

  /** Written terms are read as their sum. */
  lemma {:induction false} ReadsTerms(terms: seq<Term>, total: nat, sawUnit: bool)
    requires AreTerms(terms) && total <= I64_MAX
    ensures ParseTerms(PrintTerms(terms), "", total, sawUnit) == Summed(total + TotalSeconds(terms), sawUnit || terms != [])
    decreases |terms|
  {
    hide Product, UnitSeconds, Seconds, ParseTerms, PrintTerms, AllDigits, TotalSeconds;
    if terms == [] {
      ReadsNothing(terms, total, sawUnit);
    } else {
      var t, rest := terms[0], PrintTerms(terms[1..]);
      UnfoldTerms(terms);
      ReadsDigits(t.count, [t.unit] + rest, "", total, sawUnit);
      assert "" + t.count == t.count;
      ReadsTerm(t, rest, total, sawUnit);
      if total + Seconds(t) <= I64_MAX { ReadsTerms(terms[1..], total + Seconds(t), true); }
    }
  }

  lemma ReadsNothing(terms: seq<Term>, total: nat, sawUnit: bool)
    requires terms == [] && total <= I64_MAX
    ensures ParseTerms(PrintTerms(terms), "", total, sawUnit) == Summed(total, sawUnit) && TotalSeconds(terms) == 0
  {
  }

  lemma UnfoldTerms(terms: seq<Term>)
    requires terms != [] && AreTerms(terms)
    ensures AreTerms(terms[1..])
    ensures PrintTerms(terms) == terms[0].count + ([terms[0].unit] + PrintTerms(terms[1..]))
    ensures TotalSeconds(terms) == Seconds(terms[0]) + TotalSeconds(terms[1..])
  {
  }

  /** Whatever can be read is written terms. */
  lemma {:induction false} ReadText(text: string, digits: string, total: nat, sawUnit: bool) returns (terms: seq<Term>)
    requires AllDigits(digits) && ParseTerms(text, digits, total, sawUnit).Some?
    ensures AreTerms(terms) && PrintTerms(terms) == digits + text
    ensures ParseTerms(text, digits, total, sawUnit) == Some(total + TotalSeconds(terms))
    decreases |text|
  {
    hide Product, Seconds, UnitSeconds, PrintTerms, TotalSeconds, ParseTerms, AllDigits, IsDigit;
    if text == "" {
      terms := [];
      EmptyText(digits, total, sawUnit);
    } else {
      var rest := text[1..];
      assert text == [text[0]] + rest;
      UnfoldText(text, digits, total, sawUnit);
      if IsDigit(text[0]) {
        OneMoreDigit(digits, text[0]);
        terms := ReadText(rest, digits + [text[0]], total, sawUnit);
        assert digits + [text[0]] + rest == digits + text;
      } else {
        var t := Term(digits, text[0]);
        ProductIsTerm(t);
        NoDigits();
        var more := ReadText(rest, "", total + Seconds(t), true);
        terms := [t] + more;
        assert terms[1..] == more && "" + rest == rest;
        UnfoldTerms(terms);
      }
    }
  }

  lemma EmptyText(digits: string, total: nat, sawUnit: bool)
    requires ParseTerms("", digits, total, sawUnit).Some?
    ensures digits == "" && ParseTerms("", digits, total, sawUnit) == Some(total)
    ensures PrintTerms([]) == "" && TotalSeconds([]) == 0
  {
  }

  lemma UnfoldText(text: string, digits: string, total: nat, sawUnit: bool)
    requires text != "" && ParseTerms(text, digits, total, sawUnit).Some?
    ensures ParseTerms(text, digits, total, sawUnit) ==
            if IsDigit(text[0]) then ParseTerms(text[1..], digits + [text[0]], total, sawUnit)
            else
              var product := Product(digits, text[0]);
              if product.Some? then ParseTerms(text[1..], "", total + product.value, true) else None
  {
    hide Product;
  }

  lemma OneMoreDigit(digits: string, c: char)
    requires AllDigits(digits) && IsDigit(c)
    ensures AllDigits(digits + [c])
  {
  }

  lemma NoDigits()
    ensures AllDigits("")
  {
  }

  lemma ProductIsTerm(t: Term)
    requires Product(t.count, t.unit).Some?
    ensures IsTerm(t) && Product(t.count, t.unit) == Some(Seconds(t))
  {
  }

  /** A text is a duration exactly when, trimmed, it is counts with units behind them whose sum in seconds is
      positive and fits a signed 64-bit number; the duration is that sum. */
  lemma DurationIff(input: string, seconds: nat)
    ensures ParseTerms(Trim(input), "", 0, false) == Some(seconds) <==>
            exists terms: seq<Term> ::
              AreTerms(terms) && PrintTerms(terms) == Trim(input) && TotalSeconds(terms) == seconds && 0 < seconds <= I64_MAX
  {
    hide Trim, ParseTerms, PrintTerms, TotalSeconds;
    if ParseTerms(Trim(input), "", 0, false) == Some(seconds) {
      var terms := ReadText(Trim(input), "", 0, false);
      assert "" + Trim(input) == Trim(input);
      ReadsTerms(terms, 0, false);
    }
    if exists terms: seq<Term> ::
         AreTerms(terms) && PrintTerms(terms) == Trim(input) && TotalSeconds(terms) == seconds && 0 < seconds <= I64_MAX {
      var terms: seq<Term> :|
        AreTerms(terms) && PrintTerms(terms) == Trim(input) && TotalSeconds(terms) == seconds && 0 < seconds <= I64_MAX;
      ReadsTerms(terms, 0, false);
      if terms == [] { ReadsNothing(terms, 0, false); }
    }
  }
}
