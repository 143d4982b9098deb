/** Cron expressions: what they match, and the search for the next run. Times are UTC. */
module Cron {
  import opened Text
  import opened Decimal

  /** Times are counted in nanoseconds from the start of 1 January 1970. */
  const MINUTE: int := 60_000_000_000
  const DAY: int := 24 * 60 * MINUTE

  /** How many minutes the search looks at: 366 days. */
  const HORIZON: nat := 366 * 24 * 60

  datatype Date = Date(month: nat, day: nat)

  /** The date of each day, days counted from 1 January 1970. */
  type Calendar = int -> Date

  // ---- One part of a field ----

  /** The numbers a part stands for: from `start` to `end` in steps of `step`. */
  datatype Stepped = Stepped(start: nat, end: nat, step: nat)

  function SplitOnce(s: string, c: char): Option<(string, string)> {
    match Find(s, [c])
    case None => None
    case Some(k) => assert OccursAt(s, [c], k); Some((s[..k], s[k + 1..]))
  }

  function ParseRange(text: string, min: nat, max: nat): Option<(nat, nat)> {
    if text == "*" then Some((min, max))
    else
      match SplitOnce(text, '-')
      case Some((first, last)) =>
        (match (ParseU32(first), ParseU32(last))
         case (Some(a), Some(b)) => Some((a, b))
         case _ => None)
      case None =>
        match ParseU32(text)
        case Some(exact) => Some((exact, exact))
        case None => None
  }

  /** The parse is `None` for the parts that match nothing: a malformed number or a step of zero. */
  function ParsePart(part: string, min: nat, max: nat): (r: Option<Stepped>)
    ensures r.Some? ==> r.value.step > 0
  {
    var (rangeText, step) :=
      match SplitOnce(part, '/')
      case Some((range, stepText)) => (range, ParseU32(stepText))
      case None => (part, Some(1));
    if step.None? || step.value == 0 then None
    else
      match ParseRange(rangeText, min, max)
      case Some((start, end)) => Some(Stepped(start, end, step.value))
      case None => None
  }

  /** Sunday is 0, but a part that starts at 7 sees it as 7. */
  function Seen(value: nat, max: nat, start: nat): nat {
    if max == 7 && value == 0 && start == 7 then 7 else value
  }

  predicate PartMatches(part: string, value: nat, min: nat, max: nat) {
    var parsed := ParsePart(part, min, max);
    parsed.Some? &&
    var r := parsed.value;
    var v := Seen(value, max, r.start);
    v >= r.start && v <= r.end && (v - r.start) % r.step == 0
  }

  function Nth(r: Stepped, k: nat): nat {
    r.start + k * r.step
  }

  /** One of the numbers start, start + step, start + 2 step, ... up to the end. */
  ghost predicate Includes(r: Stepped, v: nat) {
    v <= r.end && exists k: nat :: Nth(r, k) == v
  }

  lemma SteppedIff(r: Stepped, v: nat)
    requires r.step > 0
    ensures Includes(r, v) <==> r.start <= v <= r.end && (v - r.start) % r.step == 0
  {
    if r.start <= v {
      var k := (v - r.start) / r.step;
      if (v - r.start) % r.step == 0 { assert Nth(r, k) == v; }
    }
    forall k: nat | Nth(r, k) == v ensures r.start <= v && (v - r.start) % r.step == 0 {
      MultipleOf(k, r.step);
    }
  }

  lemma MultipleOf(k: nat, step: nat)
    requires step > 0
    ensures (k * step) % step == 0 && 0 <= k * step
  {
    var a := k * step;
    var q, rem := a / step, a % step;
    assert a == q * step + rem;
    assert (k - q) * step == rem;
    Multiples(k - q, step);
  }

  lemma Multiples(m: int, step: nat)
    ensures m >= 1 ==> m * step >= step
    ensures m <= -1 ==> m * step <= -1 * step
  {
  }

  // ---- Fields and expressions ----

  predicate FieldMatches(field: string, value: nat, min: nat, max: nat) {
    exists i | 0 <= i < |Split(field, ",")| :: PartMatches(Split(field, ",")[i], value, min, max)
  }

  function WordLength(s: string): (n: nat)
    ensures n <= |s|
    ensures forall i :: 0 <= i < n ==> !IsWhitespace(s[i])
    ensures n < |s| ==> IsWhitespace(s[n])
  {
    if s == "" || IsWhitespace(s[0]) then 0 else 1 + WordLength(s[1..])
  }

  /** `str::split_whitespace`. */
  function Words(s: string): seq<string>
    decreases |s|
  {
    if s == "" then []
    else if IsWhitespace(s[0]) then Words(s[1..])
    else
      var n := WordLength(s);
      [s[..n]] + Words(s[n..])
  }

  /** The five values the fields are matched against, in the order of the fields. */
  function FieldValue(calendar: Calendar, minute: int, field: nat): nat {
    match field
    case 0 => minute % 60
    case 1 => (minute / 60) % 24
    case 2 => calendar(minute / 1440).day
    case 3 => calendar(minute / 1440).month
    case _ => (minute / 1440 + 4) % 7
  }

  /** The values of a minute given by day and time of day; days come in weeks, and the first was a Thursday. */
  lemma ClockReads(calendar: Calendar, day: int, hour: nat, minute: nat)
    requires hour < 24 && minute < 60
    ensures var m := (day * 24 + hour) * 60 + minute;
            && FieldValue(calendar, m, 0) == minute && FieldValue(calendar, m, 1) == hour
            && calendar(day) == Date(FieldValue(calendar, m, 3), FieldValue(calendar, m, 2))
            && FieldValue(calendar, m, 4) == FieldValue(calendar, m + 7 * 1440, 4) < 7
            && (FieldValue(calendar, m, 4) == 4 <==> day % 7 == 0)
  {
    var m := (day * 24 + hour) * 60 + minute;
    assert m / 60 == day * 24 + hour && m / 1440 == day;
    assert (m + 7 * 1440) / 1440 == day + 7;
  }

  function FieldMin(field: nat): nat {
    if field == 2 || field == 3 then 1 else 0
  }

  function FieldMax(field: nat): nat {
    match field
    case 0 => 59
    case 1 => 23
    case 2 => 31
    case 3 => 12
    case _ => 7
  }

  predicate CronMatches(expression: string, calendar: Calendar, minute: int) {
    var fields := Words(expression);
    && |fields| == 5
    && FieldMatches(fields[0], FieldValue(calendar, minute, 0), 0, 59)
    && FieldMatches(fields[1], FieldValue(calendar, minute, 1), 0, 23)
    && FieldMatches(fields[2], FieldValue(calendar, minute, 2), 1, 31)
    && FieldMatches(fields[3], FieldValue(calendar, minute, 3), 1, 12)
    && FieldMatches(fields[4], FieldValue(calendar, minute, 4), 0, 7)
  }

  // ---- What the text of a part stands for ----

  /** Digits, possibly behind a plus sign. */
  predicate IsNumeral(s: string) {
    var digits := if s != "" && s[0] == '+' then s[1..] else s;
    digits != "" && AllDigits(digits)
  }

  function NumeralValue(s: string): nat
    requires IsNumeral(s)
  {
    Value(if s[0] == '+' then s[1..] else s)
  }

  datatype Range = Every | Exactly(number: string) | FromTo(first: string, last: string)

  /** A part as it is written: a range and, behind a slash, a step. */
  datatype Part = Part(range: Range, step: Option<string>)

  predicate IsPart(p: Part) {
    && (p.range.Exactly? ==> IsNumeral(p.range.number))
    && (p.range.FromTo? ==> IsNumeral(p.range.first) && IsNumeral(p.range.last))
    && (p.step.Some? ==> IsNumeral(p.step.value))
  }

  function PrintRange(r: Range): string {
    match r
    case Every => "*"
    case Exactly(number) => number
    case FromTo(first, last) => first + "-" + last
  }

  function PrintPart(p: Part): string {
    if p.step.None? then PrintRange(p.range) else PrintRange(p.range) + "/" + p.step.value
  }

  /** Numbers beyond 32 bits and a step of zero make a part match nothing. */
  predicate Usable(p: Part)
    requires IsPart(p)
  {
    && (p.range.Exactly? ==> NumeralValue(p.range.number) <= U32_MAX)
    && (p.range.FromTo? ==> NumeralValue(p.range.first) <= U32_MAX && NumeralValue(p.range.last) <= U32_MAX)
    && (p.step.Some? ==> 0 < NumeralValue(p.step.value) <= U32_MAX)
  }

  function Bounds(r: Range, min: nat, max: nat): (nat, nat)
    requires IsPart(Part(r, None))
  {
    match r
    case Every => (min, max)
    case Exactly(number) => (NumeralValue(number), NumeralValue(number))
    case FromTo(first, last) => (NumeralValue(first), NumeralValue(last))
  }

  function Denoted(p: Part, min: nat, max: nat): Stepped
    requires IsPart(p)
  {
    var (start, end) := Bounds(p.range, min, max);
    Stepped(start, end, if p.step.Some? then NumeralValue(p.step.value) else 1)
  }

  lemma NumeralIs(s: string)
    ensures ParseU32(s) == if IsNumeral(s) && NumeralValue(s) <= U32_MAX then Some(NumeralValue(s)) else None
  {
  }

  /** Nothing of the grammar's punctuation, and no white space. */
  predicate IsWord(s: string) {
    s != "" && forall c :: c in s ==> c != '/' && c != ',' && c != '-' && c != '*' && !IsWhitespace(c)
  }

  lemma NumeralIsWord(s: string)
    requires IsNumeral(s)
    ensures IsWord(s)
  {
    forall c | c in s ensures c == '+' || IsDigit(c) {
      var i :| 0 <= i < |s| && s[i] == c;
      if s[0] == '+' && i > 0 { assert s[1..][i - 1] == c; }
    }
  }

  /** Splitting once at the only place the separator can first occur. */
  lemma SplitOnceAt(head: string, c: char, tail: string)
    requires c !in head
    ensures SplitOnce(head + [c] + tail, c) == Some((head, tail))
  {
    var s := head + [c] + tail;
    forall k: nat | k <= |head| ensures OccursAt(s, [c], k) <==> k == |head| { OccursChar(s, c, k); }
    FindIs(s, [c], |head|);
    assert s[..|head|] == head && s[|head| + 1..] == tail;
  }

  lemma NoSplit(s: string, c: char)
    requires c !in s
    ensures SplitOnce(s, c) == None
  {
    FindChar(s, c);
  }

  lemma SplitOnceIs(s: string, c: char)
    ensures match SplitOnce(s, c)
            case Some((head, tail)) => c !in head && s == head + [c] + tail
            case None => c !in s
  {
    FindChar(s, c);
    var k := Find(s, [c]);
    if k.Some? {
      CutPiece(s, [c], k.value);
      FindChar(s[..k.value], c);
    }
  }

  /** A written range parses to its bounds. */
  lemma WrittenRange(r: Range, min: nat, max: nat)
    requires IsPart(Part(r, None))
    ensures ParseRange(PrintRange(r), min, max) == if Usable(Part(r, None)) then Some(Bounds(r, min, max)) else None
    ensures '/' !in PrintRange(r)
  {
    hide IsNumeral, ParseU32, SplitOnce;
    match r
    case Every =>
    case Exactly(number) =>
      NumeralIsWord(number);
      NumeralIs(number);
      NoSplit(number, '-');
      assert number[0] in number;
    case FromTo(first, last) =>
      NumeralIsWord(first);
      NumeralIsWord(last);
      NumeralIs(first);
      NumeralIs(last);
      SplitOnceAt(first, '-', last);
      assert first[0] in first && (first + "-" + last)[0] == first[0];
  }

  /** What parses as a range is a written range with those bounds. */
  lemma ParsedRange(text: string, min: nat, max: nat) returns (r: Range)
    requires ParseRange(text, min, max).Some?
    ensures IsPart(Part(r, None)) && Usable(Part(r, None)) && PrintRange(r) == text
    ensures ParseRange(text, min, max) == Some(Bounds(r, min, max))
  {
    hide IsNumeral, ParseU32, SplitOnce, NumeralValue;
    SplitOnceIs(text, '-');
    if text == "*" {
      r := Every;
    } else {
      match SplitOnce(text, '-')
      case Some((first, last)) =>
        NumeralIs(first);
        NumeralIs(last);
        r := FromTo(first, last);
      case None =>
        NumeralIs(text);
        r := Exactly(text);
    }
  }

  lemma WrittenPart(p: Part, min: nat, max: nat)
    requires IsPart(p)
    ensures ParsePart(PrintPart(p), min, max) == if Usable(p) then Some(Denoted(p, min, max)) else None
  {
    hide IsNumeral, ParseU32, SplitOnce, ParseRange, PrintRange, Bounds, NumeralValue;
    WrittenRange(p.range, min, max);
    if p.step.None? {
      NoSplit(PrintRange(p.range), '/');
    } else {
      NumeralIs(p.step.value);
      SplitOnceAt(PrintRange(p.range), '/', p.step.value);
    }
  }

  lemma ParsedPart(text: string, min: nat, max: nat) returns (p: Part)
    requires ParsePart(text, min, max).Some?
    ensures IsPart(p) && Usable(p) && PrintPart(p) == text && ParsePart(text, min, max) == Some(Denoted(p, min, max))
  {
    hide IsNumeral, ParseU32, SplitOnce, ParseRange, PrintRange, Bounds, NumeralValue;
    SplitOnceIs(text, '/');
    match SplitOnce(text, '/')
    case Some((head, tail)) =>
      NumeralIs(tail);
      var r := ParsedRange(head, min, max);
      p := Part(r, Some(tail));
    case None =>
      var r := ParsedRange(text, min, max);
      p := Part(r, None);
  }

  /** A text denotes a stepped range exactly when it is a usable part so written: a star, a number or two
      joined by a dash, and perhaps a step; leading zeros and plus signs do not matter. */
  lemma PartDenotesIff(text: string, min: nat, max: nat, r: Stepped)
    ensures ParsePart(text, min, max) == Some(r) <==>
            exists p: Part :: IsPart(p) && Usable(p) && PrintPart(p) == text && Denoted(p, min, max) == r
  {
    hide ParsePart, PrintPart, Denoted, Usable, IsPart;
    if ParsePart(text, min, max) == Some(r) {
      var p := ParsedPart(text, min, max);
    }
    if exists p: Part :: IsPart(p) && Usable(p) && PrintPart(p) == text && Denoted(p, min, max) == r {
      var p: Part :| IsPart(p) && Usable(p) && PrintPart(p) == text && Denoted(p, min, max) == r;
      WrittenPart(p, min, max);
    }
  }

  // ---- What fields and expressions mean ----

  /** The text is a usable part whose range includes the value. */
  ghost predicate PartMeans(text: string, value: nat, min: nat, max: nat) {
    exists p: Part ::
      IsPart(p) && Usable(p) && PrintPart(p) == text &&
      var r := Denoted(p, min, max);
      Includes(r, if value == 0 && max == 7 && r.start == 7 then 7 else value)
  }

  ghost predicate FieldMeans(field: string, value: nat, min: nat, max: nat) {
    exists i :: 0 <= i < |Split(field, ",")| && PartMeans(Split(field, ",")[i], value, min, max)
  }

  lemma PartMatchesIff(text: string, value: nat, min: nat, max: nat)
    ensures PartMatches(text, value, min, max) <==> PartMeans(text, value, min, max)
  {
    hide ParsePart, PrintPart, Denoted, Usable, IsPart, Includes;
    if PartMatches(text, value, min, max) {
      var p := ParsedPart(text, min, max);
      SteppedIff(Denoted(p, min, max), Seen(value, max, Denoted(p, min, max).start));
    }
    if PartMeans(text, value, min, max) {
      var p: Part :| IsPart(p) && Usable(p) && PrintPart(p) == text &&
        Includes(Denoted(p, min, max), Seen(value, max, Denoted(p, min, max).start));
      WrittenPart(p, min, max);
      SteppedIff(Denoted(p, min, max), Seen(value, max, Denoted(p, min, max).start));
    }
  }

  /** On Sundays a day-of-week part that starts at 7 matches if its range has 7, and any other if its range
      has 0; so a range that leads up to 7 from an earlier day leaves Sunday out. */
  lemma SundayIff(text: string)
    ensures PartMatches(text, 0, 0, 7) <==>
            var r := ParsePart(text, 0, 7); r.Some? && Includes(r.value, if r.value.start == 7 then 7 else 0)
    ensures ParsePart(text, 0, 7).Some? && 1 <= ParsePart(text, 0, 7).value.start <= 6 ==> !PartMatches(text, 0, 0, 7)
  {
    hide ParsePart;
    var r := ParsePart(text, 0, 7);
    if r.Some? { SteppedIff(r.value, if r.value.start == 7 then 7 else 0); }
  }

  /** A field matches exactly the union of its stepped ranges, whatever its text. */
  lemma FieldMatchesIff(field: string, value: nat, min: nat, max: nat)
    ensures FieldMatches(field, value, min, max) <==> FieldMeans(field, value, min, max)
  {
    hide PartMatches, PartMeans, Split;
    var parts := Split(field, ",");
    forall i | 0 <= i < |parts| ensures PartMatches(parts[i], value, min, max) <==> PartMeans(parts[i], value, min, max) {
      PartMatchesIff(parts[i], value, min, max);
    }
  }

  /** An expression matches exactly the minutes all its five fields mean, and none if it has not five. */
  lemma CronMatchesIff(expression: string, calendar: Calendar, minute: int)
    ensures CronMatches(expression, calendar, minute) <==>
            && |Words(expression)| == 5
            && forall i :: 0 <= i < 5 ==>
                 FieldMeans(Words(expression)[i], FieldValue(calendar, minute, i), FieldMin(i), FieldMax(i))
  {
    hide FieldMatches, FieldMeans, Words, FieldValue;
    var fields := Words(expression);
    if |fields| == 5 {
      forall i: nat | i < 5
        ensures FieldMatches(fields[i], FieldValue(calendar, minute, i), FieldMin(i), FieldMax(i)) <==>
                FieldMeans(fields[i], FieldValue(calendar, minute, i), FieldMin(i), FieldMax(i))
      {
        FieldMatchesIff(fields[i], FieldValue(calendar, minute, i), FieldMin(i), FieldMax(i));
      }
      EachField(fields, calendar, minute);
    }
  }

  lemma EachField(fields: seq<string>, calendar: Calendar, minute: int)
    requires |fields| == 5
    ensures (forall i :: 0 <= i < 5 ==> FieldMeans(fields[i], FieldValue(calendar, minute, i), FieldMin(i), FieldMax(i))) <==>
            FieldMeans(fields[0], FieldValue(calendar, minute, 0), FieldMin(0), FieldMax(0)) &&
            FieldMeans(fields[1], FieldValue(calendar, minute, 1), FieldMin(1), FieldMax(1)) &&
            FieldMeans(fields[2], FieldValue(calendar, minute, 2), FieldMin(2), FieldMax(2)) &&
            FieldMeans(fields[3], FieldValue(calendar, minute, 3), FieldMin(3), FieldMax(3)) &&
            FieldMeans(fields[4], FieldValue(calendar, minute, 4), FieldMin(4), FieldMax(4))
  {
    hide FieldMeans, FieldValue, FieldMin, FieldMax;
  }

  // ---- The words of a text ----

  predicate IsGap(s: string) {
    forall c :: c in s ==> IsWhitespace(c)
  }

  /** Words with gaps around them, and some white space between any two. */
  predicate Separates(gaps: seq<string>, words: seq<string>) {
    && |gaps| == |words| + 1
    && (forall i :: 0 <= i < |gaps| ==> IsGap(gaps[i]) && (0 < i < |words| ==> gaps[i] != ""))
    && (forall i :: 0 <= i < |words| ==> words[i] != "" && forall c :: c in words[i] ==> !IsWhitespace(c))
  }

  function Spaced(gaps: seq<string>, words: seq<string>): string
    requires |gaps| == |words| + 1
    decreases |words|
  {
    if words == [] then gaps[0] else gaps[0] + (words[0] + Spaced(gaps[1..], words[1..]))
  }

  lemma {:induction false} WordLengthIs(w: string, rest: string)
    requires forall c :: c in w ==> !IsWhitespace(c)
    requires rest == "" || IsWhitespace(rest[0])
    ensures WordLength(w + rest) == |w|
  {
    if w == "" {
      assert w + rest == rest;
    } else {
      assert w[0] in w && (w + rest)[1..] == w[1..] + rest;
      WordLengthIs(w[1..], rest);
    }
  }

  lemma {:induction false} GapIsSkipped(gap: string, rest: string)
    requires IsGap(gap)
    ensures Words(gap + rest) == Words(rest)
  {
    if gap == "" {
      assert gap + rest == rest;
    } else {
      assert gap[0] in gap && (gap + rest)[1..] == gap[1..] + rest;
      GapIsSkipped(gap[1..], rest);
    }
  }

  /** Splitting at white space finds the words, however wide the gaps. */
  lemma {:induction false} WordsOfSpaced(gaps: seq<string>, words: seq<string>)
    requires Separates(gaps, words)
    ensures Words(Spaced(gaps, words)) == words
    ensures words != [] && gaps[0] == "" ==> Spaced(gaps, words) != "" && !IsWhitespace(Spaced(gaps, words)[0])
    decreases |words|
  {
    if words == [] {
      GapIsSkipped(gaps[0], "");
      assert gaps[0] + "" == gaps[0];
    } else {
      hide Words;
      var w, rest := words[0], Spaced(gaps[1..], words[1..]);
      assert Separates(gaps[1..], words[1..]);
      WordsOfSpaced(gaps[1..], words[1..]);
      GapLeads(gaps[1..], words[1..]);
      assert Spaced(gaps, words) == gaps[0] + (w + rest);
      hide Spaced;
      assert w[0] in w && (w + rest)[0] == w[0];
      WordLengthIs(w, rest);
      GapIsSkipped(gaps[0], w + rest);
      FirstWord(w, rest);
    }
  }

  lemma GapLeads(gaps: seq<string>, words: seq<string>)
    requires |gaps| == |words| + 1 && IsGap(gaps[0]) && (words != [] ==> gaps[0] != "")
    ensures Spaced(gaps, words) == "" || IsWhitespace(Spaced(gaps, words)[0])
  {
    if gaps[0] != "" { assert gaps[0][0] in gaps[0]; }
  }

  lemma FirstWord(w: string, rest: string)
    requires w != "" && !IsWhitespace(w[0]) && WordLength(w + rest) == |w|
    ensures Words(w + rest) == [w] + Words(rest)
  {
    assert (w + rest)[..|w|] == w && (w + rest)[|w|..] == rest && (w + rest)[0] == w[0];
  }

  // ---- The next run ----

  /** The first matching minute among `n` from `minute` on. */
  function FirstMatch(expression: string, calendar: Calendar, minute: int, n: nat): Option<int>
    decreases n
  {
    if n == 0 then None
    else if CronMatches(expression, calendar, minute) then Some(minute)
    else FirstMatch(expression, calendar, minute + 1, n - 1)
  }

  function NextRun(expression: string, calendar: Calendar, after: int): int {
    match FirstMatch(expression, calendar, after / MINUTE + 1, HORIZON)
    case Some(minute) => minute * MINUTE
    case None => after + DAY
  }

  method NextCronRun(expression: string, calendar: Calendar, after: int) returns (next: int)
    ensures next == NextRun(expression, calendar, after)
  {
    hide CronMatches;
    var candidate := after - after % MINUTE + MINUTE;
    ghost var first := after / MINUTE + 1;
    for i := 0 to HORIZON
      invariant candidate == (first + i) * MINUTE
      invariant FirstMatch(expression, calendar, first, HORIZON) ==
                FirstMatch(expression, calendar, first + i, HORIZON - i)
    {
      if CronMatches(expression, calendar, candidate / MINUTE) {
        return candidate;
      }
      candidate := candidate + MINUTE;
    }
    return after + DAY;
  }

  lemma {:induction false} FirstMatchIsLeast(expression: string, calendar: Calendar, minute: int, n: nat)
    ensures var first := FirstMatch(expression, calendar, minute, n);
            && (first.Some? ==> minute <= first.value < minute + n && CronMatches(expression, calendar, first.value))
            && forall m :: minute <= m < (if first.Some? then first.value else minute + n) ==> !CronMatches(expression, calendar, m)
    decreases n
  {
    hide CronMatches;
    if n > 0 { FirstMatchIsLeast(expression, calendar, minute + 1, n - 1); }
  }

  /** A time at which the expression is due: a whole minute it matches. */
  predicate IsDue(expression: string, calendar: Calendar, time: int) {
    time % MINUTE == 0 && CronMatches(expression, calendar, time / MINUTE)
  }

  /** Within reach of the search: the 366 days from the whole minute before a time. */
  predicate InHorizon(after: int, time: int) {
    after < time <= after - after % 60_000_000_000 + 366 * 86_400_000_000_000
  }

  lemma MinuteAfter(after: int, time: int)
    requires time % MINUTE == 0
    ensures after < time <==> after / MINUTE + 1 <= time / MINUTE
    ensures (time / MINUTE) * MINUTE == time
  {
  }

  /** The next run is strictly later, and nothing due lies in between. It is due itself if anything
      within the horizon is; if nothing is, it is a day later and not due. */
  lemma NextRunIsNext(expression: string, calendar: Calendar, after: int)
    ensures var next := NextRun(expression, calendar, after);
            && after < next
            && (forall t :: after < t < next ==> !IsDue(expression, calendar, t))
            && (IsDue(expression, calendar, next) <==> exists t :: InHorizon(after, t) && IsDue(expression, calendar, t))
            && (!IsDue(expression, calendar, next) ==> next == after + 86_400_000_000_000)
  {
    hide CronMatches, FirstMatch;
    var first, start := FirstMatch(expression, calendar, after / MINUTE + 1, HORIZON), after / MINUTE + 1;
    var next := NextRun(expression, calendar, after);
    FirstMatchIsLeast(expression, calendar, start, HORIZON);
    forall t | after < t && IsDue(expression, calendar, t) && (first.Some? ==> t < next) && (first.None? ==> InHorizon(after, t))
      ensures false
    {
      MinuteAfter(after, t);
    }
    if first.Some? {
      MinuteAfter(after, next);
      assert InHorizon(after, next);
    }
  }
}
