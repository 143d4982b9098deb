/** The text format of the memory files: entries joined by a delimiter, and what reading
    a file back makes of them. */
module MemoryEntries {
  import opened Text

  const DELIMITER := "\n\U{A7}\n"
  const CRLF := "\r\n"
  const LF := "\n"

  function SanitizeEntry(content: string): string {
    Replace(Trim(content), CRLF, LF)
  }

  function SerializeEntries(entries: seq<string>): string {
    Join(entries, DELIMITER)
  }

  /** Sanitized pieces, without the empty ones. */
  function KeepEntries(pieces: seq<string>): (r: seq<string>)
    ensures |r| <= |pieces|
    ensures forall e <- r :: e != ""
  {
    if pieces == [] then []
    else
      var e := SanitizeEntry(pieces[0]);
      (if e == "" then [] else [e]) + KeepEntries(pieces[1..])
  }

  /** The entries of a file; a missing file has none. */
  function ReadEntries(file: Option<string>): (r: seq<string>)
    ensures forall e <- r :: e != ""
  {
    match file
    case None => []
    case Some(raw) => KeepEntries(Split(raw, DELIMITER))
  }

  // ---- Sanitizing never lengthens, and is the identity when it does not shorten ----

  lemma {:induction false} ReplaceShortens(s: string)
    ensures |Replace(s, CRLF, LF)| <= |s|
    ensures |Replace(s, CRLF, LF)| == |s| ==> Replace(s, CRLF, LF) == s
    decreases |s|
  {
    match Find(s, CRLF)
    case None =>
    case Some(k) => ReplaceShortens(s[k + 2..]);
  }

  lemma SanitizeShortens(e: string)
    ensures |SanitizeEntry(e)| <= |e|
    ensures |SanitizeEntry(e)| == |e| ==> SanitizeEntry(e) == e
  {
    ReplaceShortens(Trim(e));
    TrimFixed(e);
  }

  lemma CrLfAt(s: string, j: nat)
    ensures OccursAt(s, CRLF, j) <==> j + 1 < |s| && s[j] == '\r' && s[j + 1] == '\n'
  {
    if j + 2 <= |s| { assert s[j..j + 2] == [s[j], s[j + 1]]; }
  }

  lemma SanitizeFirst(s: string, k: nat)
    requires s != [] && !IsWhitespace(s[0]) && !IsWhitespace(s[|s| - 1])
    requires k + 2 <= |s| < k + 4
    requires s[k] == '\r' && s[k + 1] == '\n' && forall j: nat :: j < k ==> s[j] != '\r' || s[j + 1] != '\n'
    ensures SanitizeEntry(s) == s[..k] + LF + s[k + 2..]
  {
    TrimFixed(s);
    assert SanitizeEntry(s) == Replace(s, CRLF, LF);
    forall j: nat | j <= k ensures OccursAt(s, CRLF, j) <==> j == k { CrLfAt(s, j); }
    FindIs(s, CRLF, k);
    var tail := s[k + 2..];
    assert Replace(tail, CRLF, LF) == tail by { assert Find(tail, CRLF).None?; }
    assert s[k + |CRLF|..] == tail;
  }

  /** Sanitizing twice can change more than sanitizing once. */
  lemma SanitizeIsNotIdempotent()
    ensures var once := SanitizeEntry("a\r\r\nb"); once == "a\r\nb" && SanitizeEntry(once) == "a\nb"
  {
    hide SanitizeEntry;
    var s, once := "a\r\r\nb", "a\r\nb";
    SanitizeFirst(s, 2);
    SanitizeFirst(once, 1);
    assert s[..2] + LF + s[4..] == once;
    assert once[..1] + LF + once[3..] == "a\nb";
  }

  // ---- When sanitizing again changes nothing more ----

  const CRCRLF := "\r\r\n"

  lemma ContainsUnfolds(s: string, pat: string)
    requires s != "" && pat != ""
    ensures Contains(s, pat) <==> pat <= s || Contains(s[1..], pat)
  {
  }

  lemma FindUnfolds(s: string, pat: string)
    requires s != "" && pat != "" && !(pat <= s)
    ensures Find(s, pat) == match Find(s[1..], pat) case None => None case Some(k) => Some(k + 1)
  {
  }

  lemma ReplaceUnfolds(s: string)
    requires s != ""
    ensures Replace(s, CRLF, LF) ==
            if CRLF <= s then LF + Replace(s[2..], CRLF, LF) else [s[0]] + Replace(s[1..], CRLF, LF)
  {
    hide *;
    if CRLF <= s {
      FindIsFirst(s);
      ReplaceAt(s, 0);
      assert s[..0] + LF == LF;
    } else {
      var rest := s[1..];
      FindUnfolds(s, CRLF);
      match Find(rest, CRLF)
      case None =>
        ReplaceNone(s);
        ReplaceNone(rest);
        assert s == [s[0]] + rest;
      case Some(k) =>
        ReplaceAt(s, k + 1);
        ReplaceAt(rest, k);
        ShiftedPieces(s, k);
        Regrouped(s[0], rest[..k], LF, Replace(rest[k + 2..], CRLF, LF));
    }
  }

  lemma Regrouped(c: char, a: string, b: string, d: string)
    ensures ([c] + a) + b + d == [c] + (a + b + d)
  {
  }

  lemma ReplaceNone(s: string)
    requires Find(s, CRLF).None?
    ensures Replace(s, CRLF, LF) == s
  {
  }

  lemma FindIsFirst(s: string)
    ensures CRLF <= s ==> Find(s, CRLF) == Some(0)
  {
  }

  lemma ReplaceAt(s: string, k: nat)
    requires Find(s, CRLF) == Some(k)
    ensures k + 2 <= |s| && Replace(s, CRLF, LF) == s[..k] + LF + Replace(s[k + 2..], CRLF, LF)
  {
    CutPiece(s, CRLF, k);
  }

  lemma ShiftedPieces(s: string, k: nat)
    requires k + 3 <= |s|
    ensures s[..k + 1] == [s[0]] + s[1..][..k] && s[k + 1 + 2..] == s[1..][k + 2..]
  {
  }

  /** Replacing leaves a line break of two characters exactly behind a stray carriage return. */
  lemma {:induction false} LeavesCrLfIff(s: string)
    ensures Contains(Replace(s, CRLF, LF), CRLF) <==> Contains(s, CRCRLF)
    ensures Replace(s, CRLF, LF) != "" && Replace(s, CRLF, LF)[0] == '\n' <==> s != "" && (s[0] == '\n' || CRLF <= s)
    decreases |s|
  {
    hide Replace, Contains;
    if s == "" {
      NothingContained();
    } else {
      var r := Replace(s, CRLF, LF);
      ReplaceUnfolds(s);
      ContainsUnfolds(r, CRLF);
      if CRLF <= s {
        LeavesCrLfIff(s[2..]);
        BehindBreak(s);
        assert r[1..] == Replace(s[2..], CRLF, LF);
      } else {
        LeavesCrLfIff(s[1..]);
        ContainsUnfolds(s, CRCRLF);
        assert r[1..] == Replace(s[1..], CRLF, LF) && r[0] == s[0];
        BreakBehind(s, r);
      }
    }
  }

  lemma NothingContained()
    ensures Replace("", CRLF, LF) == "" && !Contains("", CRLF) && !Contains("", CRCRLF)
  {
  }

  lemma BehindBreak(s: string)
    requires CRLF <= s
    ensures Contains(s, CRCRLF) <==> Contains(s[2..], CRCRLF)
  {
    hide Contains;
    ContainsUnfolds(s, CRCRLF);
    ContainsUnfolds(s[1..], CRCRLF);
    assert s[1..][1..] == s[2..] && s[1] == '\n' && s[1..][0] == '\n';
  }

  lemma BreakBehind(s: string, r: string)
    requires s != "" && !(CRLF <= s) && r != "" && r[0] == s[0]
    requires r[1..] != "" && r[1..][0] == '\n' <==> s[1..] != "" && (s[1..][0] == '\n' || CRLF <= s[1..])
    ensures CRLF <= r <==> CRCRLF <= s
  {
    assert CRLF <= r <==> |r| > 1 && r[0] == '\r' && r[1] == '\n';
    assert CRCRLF <= s <==> |s| > 2 && s[0] == '\r' && s[1] == '\r' && s[2] == '\n';
  }

  lemma {:induction false} ReplaceKeepsEnds(s: string)
    requires s != "" && s[|s| - 1] != '\n'
    ensures var r := Replace(s, CRLF, LF);
            r != "" && r[|r| - 1] == s[|s| - 1] && (s[0] != '\r' ==> r[0] == s[0])
    decreases |s|
  {
    hide Replace;
    ReplaceUnfolds(s);
    var rest := if CRLF <= s then s[2..] else s[1..];
    if rest != "" { ReplaceKeepsEnds(rest); } else { NothingContained(); }
  }

  /** Sanitizing a content that has been sanitized changes it once more exactly when the trimmed content holds a
      line break of two characters behind another carriage return. */
  lemma SanitizeTwiceIff(content: string)
    ensures SanitizeEntry(SanitizeEntry(content)) == SanitizeEntry(content) <==> !Contains(Trim(content), CRCRLF)
  {
    var t := Trim(content);
    var e := Replace(t, CRLF, LF);
    hide Trim, Replace;
    if t == "" {
      NothingContained();
    } else {
      ReplaceKeepsEnds(t);
    }
    TrimFixed(e);
    assert SanitizeEntry(e) == Replace(e, CRLF, LF);
    ReplaceFixedIff(e);
    LeavesCrLfIff(t);
  }

  lemma ReplaceFixedIff(s: string)
    ensures Replace(s, CRLF, LF) == s <==> !Contains(s, CRLF)
  {
    match Find(s, CRLF)
    case None =>
    case Some(k) => ReplaceShortens(s[k + 2..]);
  }

  // ---- Reading back what was written ----

  predicate EndsWith(s: string, tail: string) {
    |tail| <= |s| && s[|s| - |tail|..] == tail
  }

  /** Non-empty entries that sanitizing leaves alone. */
  predicate Clean(entries: seq<string>) {
    forall i :: 0 <= i < |entries| ==> entries[i] != "" && SanitizeEntry(entries[i]) == entries[i]
  }

  /** The entry lists that survive a write and a read. */
  predicate Survives(entries: seq<string>) {
    && Clean(entries)
    && (forall i :: 0 <= i < |entries| ==> !Contains(entries[i], DELIMITER))
    && (forall i :: 0 <= i < |entries| - 1 ==> !EndsWith(entries[i], "\n\U{A7}"))
  }

  lemma TotalOfCons(e: string, rest: seq<string>)
    ensures TotalLength([e] + rest) == |e| + TotalLength(rest)
  {
    assert ([e] + rest)[1..] == rest;
  }

  lemma {:induction false} KeepShortens(pieces: seq<string>)
    ensures TotalLength(KeepEntries(pieces)) <= TotalLength(pieces)
    ensures |KeepEntries(pieces)| == |pieces| && TotalLength(KeepEntries(pieces)) == TotalLength(pieces) ==>
              KeepEntries(pieces) == pieces && Clean(pieces)
  {
    hide SanitizeEntry;
    if pieces != [] {
      var e, rest := SanitizeEntry(pieces[0]), KeepEntries(pieces[1..]);
      KeepShortens(pieces[1..]);
      SanitizeShortens(pieces[0]);
      TotalOfCons(e, rest);
      if e == "" {
        assert KeepEntries(pieces) == rest;
      } else if |rest| == |pieces[1..]| && TotalLength([e] + rest) == TotalLength(pieces) {
        assert pieces == [e] + rest;
        forall i | 0 <= i < |pieces| ensures pieces[i] != "" && SanitizeEntry(pieces[i]) == pieces[i] {
          if i > 0 { assert pieces[i] == pieces[1..][i - 1]; }
        }
      }
    }
  }

  lemma {:induction false} KeepClean(pieces: seq<string>)
    requires Clean(pieces)
    ensures KeepEntries(pieces) == pieces
  {
    hide SanitizeEntry;
    if pieces != [] { KeepClean(pieces[1..]); }
  }

  /** The one way a piece can complete a delimiter early: by ending in its first two characters. */
  lemma EarlyDelimiter(p: string)
    requires !Contains(p, DELIMITER)
    ensures Find(p + DELIMITER, DELIMITER) == Some(|p|) <==> !EndsWith(p, "\n\U{A7}")
  {
    var s := p + DELIMITER;
    assert OccursAt(s, DELIMITER, |p|);
    forall j: nat | j < |p| ensures OccursAt(s, DELIMITER, j) <==> j + 2 == |p| && EndsWith(p, "\n\U{A7}") {
      DelimiterBefore(p, j);
    }
    if EndsWith(p, "\n\U{A7}") {
      assert OccursAt(s, DELIMITER, |p| - 2);
    } else {
      FindIs(s, DELIMITER, |p|);
    }
  }

  lemma DelimiterBefore(p: string, j: nat)
    requires !Contains(p, DELIMITER) && j < |p|
    ensures OccursAt(p + DELIMITER, DELIMITER, j) <==> j + 2 == |p| && EndsWith(p, "\n\U{A7}")
  {
    var s := p + DELIMITER;
    if j + 3 <= |p| {
      OccursInPrefix(s, p, DELIMITER, j);
    } else if j + 1 == |p| {
      assert s[j..j + 3][1] == '\n' != DELIMITER[1];
    } else {
      assert s[j..j + 3] == p[j..] + "\n";
      assert DELIMITER == "\n\U{A7}" + "\n";
      if OccursAt(s, DELIMITER, j) { assert p[j..] == s[j..j + 3][..2] == "\n\U{A7}"; }
    }
  }

  lemma SurvivesIsSafe(entries: seq<string>)
    ensures Survives(entries) <==> SplitSafe(entries, DELIMITER) && Clean(entries)
  {
    forall i | 0 <= i < |entries| && !Contains(entries[i], DELIMITER)
      ensures Find(entries[i] + DELIMITER, DELIMITER) == Some(|entries[i]|) <==> !EndsWith(entries[i], "\n\U{A7}")
    {
      EarlyDelimiter(entries[i]);
    }
  }

  /** Reading back serialized entries returns them unchanged exactly when each is non-empty, fixed
      by sanitizing and free of the delimiter, and none but the last ends in a newline and a
      section sign. */
  lemma ReadBackIff(entries: seq<string>)
    ensures ReadEntries(Some(SerializeEntries(entries))) == entries <==> Survives(entries)
  {
    SurvivesIsSafe(entries);
    if entries == [] {
      assert Find("", DELIMITER).None?;
      assert Split("", DELIMITER) == [""];
      TrimFixed("");
      assert Find("", CRLF).None?;
    } else {
      SplitJoinIff(entries, DELIMITER);
      hide SplitSafe, Survives;
      if Survives(entries) { KeepClean(entries); }
      if ReadEntries(Some(SerializeEntries(entries))) == entries { ReadBackIsSplit(entries); }
    }
  }

  /** Nothing shrinks in a faithful round trip, so the pieces are the entries themselves. */
  lemma ReadBackIsSplit(entries: seq<string>)
    requires entries != [] && ReadEntries(Some(SerializeEntries(entries))) == entries
    ensures Split(SerializeEntries(entries), DELIMITER) == entries
    ensures Clean(entries)
  {
    var pieces := Split(SerializeEntries(entries), DELIMITER);
    JoinOfSplit(SerializeEntries(entries), DELIMITER);
    JoinLength(pieces, DELIMITER);
    JoinLength(entries, DELIMITER);
    KeepShortens(pieces);
    assert TotalLength(pieces) + 3 * (|pieces| - 1) == TotalLength(entries) + 3 * (|entries| - 1);
  }

  // ---- Removing duplicates ----

  predicate Distinct(entries: seq<string>) {
    forall i, j :: 0 <= i < j < |entries| ==> entries[i] != entries[j]
  }

  /** First occurrences, in order. */
  function Deduped(entries: seq<string>): (r: seq<string>)
    ensures Distinct(r) && |r| <= |entries|
    ensures forall e :: e in r <==> e in entries
  {
    if entries == [] then []
    else
      var last := |entries| - 1;
      var r := Deduped(entries[..last]);
      assert entries == entries[..last] + [entries[last]];
      if entries[last] in r then r else r + [entries[last]]
  }

  method Dedupe(entries: seq<string>) returns (deduped: seq<string>)
    ensures deduped == Deduped(entries)
  {
    var seen: set<string> := {};
    deduped := [];
    for i := 0 to |entries|
      invariant deduped == Deduped(entries[..i])
      invariant forall e :: e in seen <==> e in deduped
    {
      assert entries[..i + 1][..i] == entries[..i];
      if entries[i] !in seen {
        seen := seen + {entries[i]};
        deduped := deduped + [entries[i]];
      }
    }
    assert entries[..|entries|] == entries;
  }

  /** Only lists that already were distinct are kept whole. */
  lemma {:induction false} DedupeFixed(entries: seq<string>)
    ensures Deduped(entries) == entries <==> Distinct(entries)
  {
    if entries == [] {
      EmptyDeduped();
    } else {
      hide Deduped;
      var last := |entries| - 1;
      var front, e := entries[..last], entries[last];
      assert entries == front + [e];
      DedupeFixed(front);
      DedupedSnoc(front, e);
      DistinctSnoc(front, e);
      hide Distinct;
      if Deduped(entries) == entries {
        assert |Deduped(front)| <= |front|;
        assert Deduped(entries)[..last] == Deduped(front);
      }
    }
  }

  lemma DistinctSnoc(front: seq<string>, e: string)
    ensures Distinct(front + [e]) <==> Distinct(front) && e !in front
  {
    var all := front + [e];
    forall i | 0 <= i < |front| ensures all[i] == front[i] { }
    assert all[|front|] == e;
    if e in front {
      var i :| 0 <= i < |front| && front[i] == e;
      assert all[i] == all[|front|];
    }
  }

  lemma {:induction false} TotalOfSnoc(entries: seq<string>, e: string)
    ensures TotalLength(entries + [e]) == TotalLength(entries) + |e|
  {
    if entries == [] {
      assert [] + [e] == [e] && [e][1..] == [];
    } else {
      assert (entries + [e])[1..] == entries[1..] + [e];
      TotalOfSnoc(entries[1..], e);
    }
  }

  lemma DedupedSnoc(front: seq<string>, e: string)
    ensures Deduped(front + [e]) == Deduped(front) + (if e in Deduped(front) then [] else [e])
  {
    assert (front + [e])[..|front|] == front;
    assert Deduped(front) + [] == Deduped(front);
  }

  lemma {:induction false} DedupeShortens(entries: seq<string>)
    ensures TotalLength(Deduped(entries)) <= TotalLength(entries)
    ensures |Deduped(entries)| == |entries| ==> Deduped(entries) == entries
  {
    hide Deduped;
    hide TotalLength;
    if entries == [] {
      EmptyDeduped();
    } else {
      var last := |entries| - 1;
      var front, e := entries[..last], entries[last];
      assert entries == front + [e];
      DedupeShortens(front);
      DedupedSnoc(front, e);
      TotalOfSnoc(front, e);
      if e in Deduped(front) {
        assert Deduped(front) + [] == Deduped(front);
      } else {
        TotalOfSnoc(Deduped(front), e);
      }
    }
  }

  lemma EmptyDeduped()
    ensures Deduped([]) == [] && TotalLength([]) == 0
  {
  }

  /** A store that loads a file it wrote itself starts from the same entries exactly when they
      survive the text format and hold no duplicates. */
  lemma ReloadIff(entries: seq<string>)
    ensures Deduped(ReadEntries(Some(SerializeEntries(entries)))) == entries <==> Survives(entries) && Distinct(entries)
  {
    var read := ReadEntries(Some(SerializeEntries(entries)));
    ReadBackIff(entries);
    DedupeFixed(entries);
    if Deduped(read) == entries && entries != [] {
      var pieces := Split(SerializeEntries(entries), DELIMITER);
      JoinOfSplit(SerializeEntries(entries), DELIMITER);
      JoinLength(pieces, DELIMITER);
      JoinLength(entries, DELIMITER);
      KeepShortens(pieces);
      DedupeShortens(read);
    }
  }

  // ---- What an edit may leave in a list that reloads ----

  /** The list is what a load makes of the file it is written to. */
  predicate Reloads(entries: seq<string>) {
    Deduped(ReadEntries(Some(SerializeEntries(entries)))) == entries
  }

  const OPEN := "\n\U{A7}"

  /** Fit to stand in a list: sanitized once and for all, and without a delimiter. */
  predicate FitsOne(content: string) {
    !Contains(Trim(content), CRCRLF) && !Contains(SanitizeEntry(content), DELIMITER)
  }

  /** An entry that survives where it stands. */
  predicate Stands(e: string, last: bool) {
    e != "" && SanitizeEntry(e) == e && !Contains(e, DELIMITER) && (!last ==> !EndsWith(e, OPEN))
  }

  predicate AllStand(entries: seq<string>) {
    forall i :: 0 <= i < |entries| ==> Stands(entries[i], i == |entries| - 1)
  }

  lemma ReloadsIfStanding(entries: seq<string>)
    ensures Reloads(entries) <==> AllStand(entries) && Distinct(entries)
  {
    ReloadIff(entries);
    hide SanitizeEntry, Contains, EndsWith, Distinct, Reloads;
    if Survives(entries) {
      forall i | 0 <= i < |entries| ensures Stands(entries[i], i == |entries| - 1) { }
    }
    if AllStand(entries) {
      forall i | 0 <= i < |entries|
        ensures entries[i] != "" && SanitizeEntry(entries[i]) == entries[i] && !Contains(entries[i], DELIMITER)
        ensures i < |entries| - 1 ==> !EndsWith(entries[i], OPEN)
      {
        assert Stands(entries[i], i == |entries| - 1);
      }
    }
    assert Reloads(entries) <==> Survives(entries) && Distinct(entries) by { ReloadsIs(entries); }
  }

  lemma ReloadsIs(entries: seq<string>)
    ensures Reloads(entries) <==> Survives(entries) && Distinct(entries)
  {
    ReloadIff(entries);
  }

  lemma StandsOne(content: string, last: bool)
    ensures var e := SanitizeEntry(content);
            Stands(e, last) <==> e != "" && FitsOne(content) && (!last ==> !EndsWith(e, OPEN))
  {
    hide SanitizeEntry, Contains, EndsWith;
    SanitizeTwiceIff(content);
  }

  lemma StandsLast(e: string)
    ensures Stands(e, false) <==> Stands(e, true) && !EndsWith(e, OPEN)
  {
  }

  /** An addition keeps a list that reloads reloading exactly when the content is fit and the entry so far last
      does not end like the start of a delimiter. */
  lemma AddedReloadsIff(entries: seq<string>, content: string)
    requires Reloads(entries) && SanitizeEntry(content) != "" && SanitizeEntry(content) !in entries
    ensures Reloads(entries + [SanitizeEntry(content)]) <==>
            FitsOne(content) && (entries != [] ==> !EndsWith(entries[|entries| - 1], OPEN))
  {
    hide Reloads, Stands, SanitizeEntry, FitsOne, EndsWith, Distinct;
    var e, n := SanitizeEntry(content), |entries|;
    var all := entries + [e];
    ReloadsIfStanding(entries);
    ReloadsIfStanding(all);
    StandsOne(content, true);
    DistinctSnoc(entries, e);
    if n > 0 { StandsLast(entries[n - 1]); }
    forall i | 0 <= i < n - 1 ensures all[i] == entries[i] { }
    assert all[n] == e && (n > 0 ==> all[n - 1] == entries[n - 1]);
    if AllStand(all) { assert Stands(all[n], true) && (n > 0 ==> Stands(all[n - 1], false)); }
    if AllStand(entries) && Stands(e, true) && (n > 0 ==> Stands(entries[n - 1], false)) {
      forall i | 0 <= i <= n ensures Stands(all[i], i == n) {
        if i < n { assert Stands(entries[i], i == n - 1); }
      }
    }
  }

  predicate OneOfAKind(entries: seq<string>, i: nat, e: string)
    requires i < |entries|
  {
    forall j :: 0 <= j < |entries| && j != i ==> entries[j] != e
  }

  lemma DistinctUpdate(entries: seq<string>, i: nat, e: string)
    requires i < |entries| && Distinct(entries)
    ensures Distinct(entries[i := e]) <==> OneOfAKind(entries, i, e)
  {
    var all := entries[i := e];
    if Distinct(all) {
      forall j | 0 <= j < |entries| && j != i ensures entries[j] != e {
        assert all[j] == entries[j] && all[i] == e;
      }
    }
  }

  /** A replacement keeps a list that reloads reloading exactly when the content is fit and not empty, does not
      end like the start of a delimiter unless it comes last, and equals no other entry. */
  lemma ReplacedReloadsIff(entries: seq<string>, i: nat, content: string)
    requires Reloads(entries) && i < |entries|
    ensures var e := SanitizeEntry(content);
            Reloads(entries[i := e]) <==>
            FitsOne(content) && e != "" && (i < |entries| - 1 ==> !EndsWith(e, OPEN)) && OneOfAKind(entries, i, e)
  {
    hide Reloads, Stands, SanitizeEntry, FitsOne, EndsWith, Distinct, OneOfAKind;
    var e, n := SanitizeEntry(content), |entries|;
    var all := entries[i := e];
    ReloadsIfStanding(entries);
    ReloadsIfStanding(all);
    StandsOne(content, i == n - 1);
    DistinctUpdate(entries, i, e);
    if AllStand(all) { assert Stands(all[i], i == n - 1); }
    if AllStand(entries) && Stands(e, i == n - 1) {
      forall j | 0 <= j < n ensures Stands(all[j], j == n - 1) {
        assert Stands(entries[j], j == n - 1);
      }
    }
  }

  /** A removal always does. */
  lemma RemovedReloads(entries: seq<string>, i: nat)
    requires Reloads(entries) && i < |entries|
    ensures Reloads(entries[..i] + entries[i + 1..])
  {
    hide Reloads, Stands;
    var left := entries[..i] + entries[i + 1..];
    ReloadsIfStanding(entries);
    ReloadsIfStanding(left);
    forall j | 0 <= j < |left| ensures Stands(left[j], j == |left| - 1) {
      var k := if j < i then j else j + 1;
      assert left[j] == entries[k] && Stands(entries[k], k == |entries| - 1);
      StandsLast(left[j]);
    }
    DistinctWithout(entries, i);
  }

  lemma DistinctWithout(entries: seq<string>, i: nat)
    requires Distinct(entries) && i < |entries|
    ensures Distinct(entries[..i] + entries[i + 1..])
  {
    var left := entries[..i] + entries[i + 1..];
    forall j | 0 <= j < |left| ensures left[j] == entries[if j < i then j else j + 1] { }
  }

  // ---- Finding an entry by a fragment ----

  /** The position of the only entry that contains the fragment. */
  function UniqueMatch(entries: seq<string>, oldText: string): (r: Option<nat>)
    ensures r.Some? ==> r.value < |entries|
    ensures r.Some? <==> exists i :: IsOnlyMatch(entries, oldText, i)
    ensures r.Some? ==> IsOnlyMatch(entries, oldText, r.value)
  {
    match FirstMatch(entries, oldText, 0)
    case None =>
      assert forall i :: IsOnlyMatch(entries, oldText, i) ==> Contains(entries[i], oldText);
      None
    case Some(first) =>
      var second := FirstMatch(entries, oldText, first + 1);
      if second.Some? then
        assert first != second.value && Contains(entries[first], oldText) && Contains(entries[second.value], oldText);
        None
      else
        assert IsOnlyMatch(entries, oldText, first);
        Some(first)
  }

  predicate IsOnlyMatch(entries: seq<string>, oldText: string, i: int) {
    0 <= i < |entries| && forall j :: 0 <= j < |entries| ==> (Contains(entries[j], oldText) <==> j == i)
  }

  function FirstMatch(entries: seq<string>, oldText: string, from: nat): (r: Option<nat>)
    requires from <= |entries|
    ensures r.Some? ==> from <= r.value < |entries| && Contains(entries[r.value], oldText) &&
                        forall j :: from <= j < r.value ==> !Contains(entries[j], oldText)
    ensures r.None? ==> forall j :: from <= j < |entries| ==> !Contains(entries[j], oldText)
    decreases |entries| - from
  {
    if from == |entries| then None
    else if Contains(entries[from], oldText) then Some(from)
    else FirstMatch(entries, oldText, from + 1)
  }

  /** Taking an entry out never lengthens the file. */
  lemma {:induction false} RemovalShortens(entries: seq<string>, i: nat)
    requires i < |entries|
    ensures |SerializeEntries(entries[..i] + entries[i + 1..])| <= |SerializeEntries(entries)|
  {
    var rest := entries[..i] + entries[i + 1..];
    if rest != [] {
      JoinLength(rest, DELIMITER);
      JoinLength(entries, DELIMITER);
      TotalOfRemoval(entries, i);
    }
  }

  lemma {:induction false} TotalOfRemoval(entries: seq<string>, i: nat)
    requires i < |entries|
    ensures TotalLength(entries[..i] + entries[i + 1..]) + |entries[i]| == TotalLength(entries)
  {
    var rest := entries[..i] + entries[i + 1..];
    if i == 0 {
      assert rest == entries[1..];
    } else {
      TotalOfRemoval(entries[1..], i - 1);
      assert rest[1..] == entries[1..][..i - 1] + entries[1..][i..];
    }
  }
}
