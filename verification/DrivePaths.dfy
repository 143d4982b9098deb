/** Logical Drive paths. Paths are byte strings: the UTF-8 form of the source's strings. */
module DrivePaths {
  import opened Text

  const DRIVE := "/drive"

  datatype Result<+T> = Ok(value: T) | Err(message: string)

  // ---- Trimming ----

  /** The UTF-8 forms of the Unicode White_Space characters. */
  predicate IsSpace(s: string) {
    || (|s| == 1 && (s[0] == ' ' || '\t' <= s[0] <= '\r'))
    || (|s| == 2 && s in {"\U{C2}\U{85}", "\U{C2}\U{A0}"})
    || (|s| == 3 && s[..2] == "\U{E2}\U{80}" &&
        ('\U{80}' <= s[2] <= '\U{8A}' || s[2] in {'\U{A8}', '\U{A9}', '\U{AF}'}))
    || s in {"\U{E1}\U{9A}\U{80}", "\U{E2}\U{81}\U{9F}", "\U{E3}\U{80}\U{80}"}
  }

  predicate StartsWithSpace(s: string, k: nat) {
    k <= |s| && IsSpace(s[..k])
  }

  predicate EndsWithSpace(s: string, k: nat) {
    k <= |s| && IsSpace(s[|s| - k..])
  }

  function TrimSpaceStart(s: string): (r: string)
    ensures s != "" && '!' <= s[0] <= '~' ==> r == s
    decreases |s|
  {
    if StartsWithSpace(s, 1) then TrimSpaceStart(s[1..])
    else if StartsWithSpace(s, 2) then TrimSpaceStart(s[2..])
    else if StartsWithSpace(s, 3) then TrimSpaceStart(s[3..])
    else s
  }

  predicate SpaceEnds(s: string) {
    EndsWithSpace(s, 1) || EndsWithSpace(s, 2) || EndsWithSpace(s, 3)
  }

  function TrimSpaceEnd(s: string): (r: string)
    ensures |r| <= |s|
    decreases |s|
  {
    if EndsWithSpace(s, 1) then TrimSpaceEnd(s[..|s| - 1])
    else if EndsWithSpace(s, 2) then TrimSpaceEnd(s[..|s| - 2])
    else if EndsWithSpace(s, 3) then TrimSpaceEnd(s[..|s| - 3])
    else s
  }

  lemma {:induction false} TrimmedEnd(s: string)
    ensures TrimSpaceEnd(s) == s <==> !SpaceEnds(s)
    ensures TrimSpaceEnd(s) <= s
    ensures s != "" && '!' <= s[0] <= '~' ==> TrimSpaceEnd(s) != ""
    decreases |s|
  {
    hide IsSpace;
    if SpaceEnds(s) {
      var k := if EndsWithSpace(s, 1) then 1 else if EndsWithSpace(s, 2) then 2 else 3;
      var rest := s[..|s| - k];
      TrimmedEnd(rest);
      assert rest != "" ==> rest[0] == s[0];
      if rest == "" {
        assert s[|s| - k..] == s;
        SpaceIsNotBlack(s);
      }
    }
  }

  lemma SpaceIsNotBlack(s: string)
    requires IsSpace(s)
    ensures s != "" && !('!' <= s[0] <= '~')
  {
  }

  function TrimSpace(s: string): string {
    TrimSpaceEnd(TrimSpaceStart(s))
  }

  /** A text made of white space characters. */
  predicate AllSpaces(s: string)
    decreases |s|
  {
    || s == "" || (StartsWithSpace(s, 1) && AllSpaces(s[1..]))
    || (StartsWithSpace(s, 2) && AllSpaces(s[2..])) || (StartsWithSpace(s, 3) && AllSpaces(s[3..]))
  }

  lemma OneSpace(s: string, k: nat, rest: string)
    requires 1 <= k <= 3 && |s| == k && IsSpace(s) && AllSpaces(rest)
    ensures AllSpaces(s + rest)
  {
    hide IsSpace;
    assert (s + rest)[..k] == s && (s + rest)[k..] == rest;
  }

  lemma {:induction false} SpacesJoin(a: string, b: string)
    requires AllSpaces(a) && AllSpaces(b)
    ensures AllSpaces(a + b)
    decreases |a|
  {
    hide IsSpace;
    if a == "" {
      assert a + b == b;
    } else {
      var k := if StartsWithSpace(a, 1) && AllSpaces(a[1..]) then 1
               else if StartsWithSpace(a, 2) && AllSpaces(a[2..]) then 2 else 3;
      SpacesJoin(a[k..], b);
      OneSpace(a[..k], k, a[k..] + b);
      assert a[..k] + (a[k..] + b) == a + b;
    }
  }

  lemma {:induction false} TrimmedStart(s: string) returns (gap: string)
    ensures s == gap + TrimSpaceStart(s) && AllSpaces(gap)
    ensures forall k :: 1 <= k <= 3 ==> !StartsWithSpace(TrimSpaceStart(s), k)
    decreases |s|
  {
    hide IsSpace;
    if StartsWithSpace(s, 1) || StartsWithSpace(s, 2) || StartsWithSpace(s, 3) {
      var k := if StartsWithSpace(s, 1) then 1 else if StartsWithSpace(s, 2) then 2 else 3;
      var more := TrimmedStart(s[k..]);
      gap := s[..k] + more;
      OneSpace(s[..k], k, more);
    } else {
      gap := "";
    }
  }

  lemma LastSpace(s: string) returns (k: nat)
    requires SpaceEnds(s)
    ensures 1 <= k <= 3 && k <= |s| && IsSpace(s[|s| - k..]) && TrimSpaceEnd(s) == TrimSpaceEnd(s[..|s| - k])
  {
    hide IsSpace;
    k := if EndsWithSpace(s, 1) then 1 else if EndsWithSpace(s, 2) then 2 else 3;
  }

  lemma NothingIsSpaces()
    ensures AllSpaces("")
  {
  }

  lemma {:induction false} TrimmedFromEnd(s: string) returns (gap: string)
    ensures s == TrimSpaceEnd(s) + gap && AllSpaces(gap)
    ensures !SpaceEnds(TrimSpaceEnd(s))
    decreases |s|
  {
    hide IsSpace, AllSpaces, SpaceEnds, TrimSpaceEnd;
    NothingIsSpaces();
    if SpaceEnds(s) {
      var k := LastSpace(s);
      var last := s[|s| - k..];
      var more := TrimmedFromEnd(s[..|s| - k]);
      OneSpace(last, k, "");
      assert last + "" == last;
      SpacesJoin(more, last);
      gap := more + last;
      assert s == s[..|s| - k] + last;
    } else {
      gap := "";
      TrimmedEnd(s);
      assert s + "" == s;
    }
  }

  lemma SpaceInFront(s: string, rest: string, k: nat)
    requires StartsWithSpace(s, k)
    ensures StartsWithSpace(s + rest, k)
  {
    hide IsSpace;
    assert (s + rest)[..k] == s[..k];
  }

  /** What is left of a text lies between white space, and neither begins nor ends with any. */
  lemma TrimSpaceIs(s: string) returns (before: string, after: string)
    ensures s == before + TrimSpace(s) + after && AllSpaces(before) && AllSpaces(after)
    ensures !SpaceEnds(TrimSpace(s)) && forall k :: 1 <= k <= 3 ==> !StartsWithSpace(TrimSpace(s), k)
  {
    hide IsSpace, AllSpaces, TrimSpaceStart, TrimSpaceEnd, StartsWithSpace, SpaceEnds;
    before := TrimmedStart(s);
    after := TrimmedFromEnd(TrimSpaceStart(s));
    forall k | 1 <= k <= 3 ensures !StartsWithSpace(TrimSpace(s), k) {
      if StartsWithSpace(TrimSpace(s), k) { SpaceInFront(TrimSpace(s), after, k); }
    }
  }

  /** `trim_start_matches`: drops the pattern as often as it leads the text. */
  function TrimMatches(s: string, pat: string): string
    requires pat != ""
    decreases |s|
  {
    if pat <= s then TrimMatches(s[|pat|..], pat) else s
  }

  // ---- Paths and their segments ----

  function NonEmpty(parts: seq<string>): seq<string>
    decreases |parts|
  {
    if parts == [] then []
    else (if parts[0] == "" then [] else [parts[0]]) + NonEmpty(parts[1..])
  }

  predicate IsSegment(s: string) {
    s != "" && s != "." && s != ".." && '/' !in s
  }

  predicate AreSegments(parts: seq<string>) {
    forall i :: 0 <= i < |parts| ==> IsSegment(parts[i])
  }

  function LogicalParts(path: string): seq<string> {
    NonEmpty(Split(TrimMatches(path, DRIVE), "/"))
  }

  function FromParts(parts: seq<string>): string {
    if parts == [] then DRIVE else DRIVE + "/" + Join(parts, "/")
  }

  function Normalize(value: string): Result<string> {
    var trimmed := TrimSpace(value);
    if trimmed == "" then Ok(DRIVE)
    else if trimmed != DRIVE && !(DRIVE + "/" <= trimmed) then Err("Drive paths must start with /drive")
    else
      var raw := Split(TrimMatches(trimmed, DRIVE), "/");
      if "." in raw || ".." in raw then Err("Invalid Drive path segment") else Ok(FromParts(NonEmpty(raw)))
  }

  predicate IsSameOrChild(path: string, root: string) {
    path == root || root + "/" <= path
  }

  // ---- A path is its segments, each behind a slash ----

  function Tail(parts: seq<string>): string
    decreases |parts|
  {
    if parts == [] then "" else "/" + parts[0] + Tail(parts[1..])
  }

  lemma {:induction false} JoinIsTail(first: string, rest: seq<string>)
    ensures Join([first] + rest, "/") == first + Tail(rest)
    decreases |rest|
  {
    var all := [first] + rest;
    assert all[1..] == rest;
    if rest != [] {
      assert rest == [rest[0]] + rest[1..];
      JoinIsTail(rest[0], rest[1..]);
    }
  }

  lemma FromPartsIsTail(parts: seq<string>)
    ensures FromParts(parts) == DRIVE + Tail(parts)
  {
    hide Join;
    if parts != [] {
      var rest := parts[1..];
      JoinIsTail(parts[0], rest);
      assert parts == [parts[0]] + rest;
      assert Tail(parts) == "/" + (parts[0] + Tail(rest));
    }
  }

  lemma {:induction false} NonEmptyOfSegments(parts: seq<string>)
    requires AreSegments(parts)
    ensures NonEmpty(parts) == parts
  {
    if parts != [] { NonEmptyOfSegments(parts[1..]); }
  }

  lemma {:induction false} NonEmptyKeeps(parts: seq<string>)
    requires forall i :: 0 <= i < |parts| ==> parts[i] == "" || IsSegment(parts[i])
    ensures AreSegments(NonEmpty(parts))
  {
    if parts != [] { NonEmptyKeeps(parts[1..]); }
  }

  /** Splitting text at its slashes, the text being a piece followed by a tail. */
  lemma SplitTail(first: string, rest: seq<string>)
    requires '/' !in first && AreSegments(rest)
    ensures Split(first + Tail(rest), "/") == [first] + rest
    ensures NonEmpty(Split(first + Tail(rest), "/")) == (if first == "" then [] else [first]) + rest
  {
    JoinIsTail(first, rest);
    SplitJoinChar([first] + rest, '/');
    NonEmptyOfSegments(rest);
    assert ([first] + rest)[1..] == rest;
  }

  /** Every path a normalization gives is the path of a list of proper segments. */
  lemma NormalizedHasSegments(value: string)
    requires Normalize(value).Ok?
    ensures exists parts :: AreSegments(parts) && Normalize(value).value == FromParts(parts)
  {
    var trimmed := TrimSpace(value);
    if trimmed == "" {
      assert AreSegments([]) && FromParts([]) == DRIVE;
    } else {
      var raw := Split(TrimMatches(trimmed, DRIVE), "/");
      SplitCharPieces(TrimMatches(trimmed, DRIVE), '/');
      assert forall i :: 0 <= i < |raw| ==> raw[i] in raw;
      NonEmptyKeeps(raw);
    }
  }

  /** Refused are the paths outside the Drive, and those with a segment that is a single or a double dot; no path at
      all means the Drive itself. */
  lemma NormalizeIff(value: string)
    ensures var text := TrimSpace(value);
            && (text == "" ==> Normalize(value) == Ok("/drive"))
            && (text != "" ==>
                  var pieces := Split(TrimMatches(text, "/drive"), "/");
                  Normalize(value).Ok? <==> (text == "/drive" || "/drive/" <= text) && "." !in pieces && ".." !in pieces)
  {
    hide TrimSpace, TrimMatches, Split, FromParts, NonEmpty;
    assert DRIVE + "/" == "/drive/";
  }

  // ---- What stripping the prefix repeatedly does to segments ----

  predicate StartsWithDrive(s: string) {
    "drive" <= s
  }

  /** No first segment that begins like the Drive prefix. */
  predicate Clean(parts: seq<string>) {
    parts == [] || !StartsWithDrive(parts[0])
  }

  function Stripped(parts: seq<string>): seq<string>
    decreases |parts|
  {
    if Clean(parts) then parts
    else if parts[0] == "drive" then Stripped(parts[1..])
    else [parts[0][5..]] + parts[1..]
  }

  lemma PrefixOfTail(parts: seq<string>)
    requires AreSegments(parts)
    ensures DRIVE <= Tail(parts) <==> !Clean(parts)
  {
    if parts != [] {
      var p, t := parts[0], Tail(parts);
      assert t == "/" + p + Tail(parts[1..]);
      if |p| >= 5 {
        assert t[1..6] == p[..5];
        assert DRIVE <= t <==> t[..6] == "/" + "drive";
      } else {
        assert |t| > |p| + 1 ==> t[|p| + 1] == '/' by { if parts[1..] != [] { assert Tail(parts[1..])[0] == '/'; } }
        assert forall i :: 0 < i < 6 ==> DRIVE[i] != '/';
      }
    }
  }

  lemma {:induction false} PartsOfTail(parts: seq<string>)
    requires AreSegments(parts)
    ensures NonEmpty(Split(TrimMatches(Tail(parts), DRIVE), "/")) == Stripped(parts)
    decreases |parts|
  {
    PrefixOfTail(parts);
    var t := Tail(parts);
    if Clean(parts) {
      assert t == "" + t;
      SplitTail("", parts);
    } else {
      var p, rest := parts[0], parts[1..];
      assert t[6..] == p[5..] + Tail(rest);
      if p == "drive" {
        assert t[6..] == Tail(rest);
        PartsOfTail(rest);
      } else {
        assert t[6] == p[5] && p[5] != '/';
        assert TrimMatches(t[6..], DRIVE) == t[6..];
        SplitTail(p[5..], rest);
      }
    }
  }

  /** Taking a path apart drops leading `drive` segments, and the letters `drive` at the start of the first
      other one. */
  lemma PartsOfPath(parts: seq<string>)
    requires AreSegments(parts)
    ensures LogicalParts(FromParts(parts)) == Stripped(parts)
  {
    FromPartsIsTail(parts);
    TrimOnce(Tail(parts));
    PartsOfTail(parts);
  }

  lemma {:induction false} StrippedIsShorter(parts: seq<string>)
    requires AreSegments(parts) && !Clean(parts)
    ensures |Tail(Stripped(parts))| < |Tail(parts)|
    decreases |parts|
  {
    if parts[0] == "drive" {
      if !Clean(parts[1..]) { StrippedIsShorter(parts[1..]); }
    } else {
      assert ([parts[0][5..]] + parts[1..])[1..] == parts[1..];
    }
  }

  /** Taking a path apart and putting it together again gives it back exactly when its first segment does
      not begin with `drive`. */
  lemma PartsRoundTripIff(parts: seq<string>)
    requires AreSegments(parts)
    ensures FromParts(LogicalParts(FromParts(parts))) == FromParts(parts) <==> Clean(parts)
  {
    PartsOfPath(parts);
    FromPartsIsTail(parts);
    FromPartsIsTail(Stripped(parts));
    if !Clean(parts) { StrippedIsShorter(parts); }
  }

  lemma {:induction false} NonEmptyTail(raw: seq<string>)
    requires raw != []
    ensures |Tail(NonEmpty(raw))| <= |Join(raw, "/")| + (if raw[0] == "" then 0 else 1)
  {
    if |raw| > 1 {
      NonEmptyTail(raw[1..]);
      assert |Join(raw, "/")| == |raw[0]| + 1 + |Join(raw[1..], "/")|;
    } else {
      assert raw[1..] == [];
    }
    if raw[0] != "" {
      assert NonEmpty(raw)[1..] == NonEmpty(raw[1..]);
    } else {
      assert NonEmpty(raw) == NonEmpty(raw[1..]);
    }
  }

  lemma {:induction false} TrimmedLength(s: string)
    requires s == "" || s[0] == '/'
    ensures var t := TrimMatches(s, DRIVE); |t| <= |s| && (t != "" && t[0] != '/' ==> |t| < |s|)
    decreases |s|
  {
    if DRIVE <= s && |s| > 6 && s[6] == '/' { TrimmedLength(s[6..]); }
    if DRIVE <= s && |s| > 6 && s[6] != '/' { assert TrimMatches(s[6..], DRIVE) == s[6..]; }
  }

  /** A path that ends in white space is not its own normal form, which is shorter. */
  lemma SpacesAreLost(path: string)
    requires path != "" && path[0] == '/' && SpaceEnds(path) && Normalize(path).Ok?
    ensures |Normalize(path).value| < |path|
  {
    var trimmed := TrimSpace(path);
    TrimmedEnd(path);
    assert trimmed == TrimSpaceEnd(path) && |trimmed| < |path| && trimmed[0] == '/';
    hide TrimSpace, TrimSpaceEnd, SpaceEnds;
    if DRIVE <= trimmed && (trimmed == DRIVE || trimmed[6] == '/') {
      var t := TrimMatches(trimmed, DRIVE);
      assert t == TrimMatches(trimmed[6..], DRIVE);
      TrimmedLength(trimmed[6..]);
      var raw := Split(t, "/");
      JoinOfSplit(t, "/");
      FirstPiece(t);
      NonEmptyTail(raw);
      FromPartsIsTail(NonEmpty(raw));
    }
  }

  lemma FirstPiece(t: string)
    ensures t == "" || t[0] == '/' ==> Split(t, "/")[0] == ""
  {
    if t != "" && t[0] == '/' {
      OccursChar(t, '/', 0);
      FindIs(t, "/", 0);
    }
  }

  /** Normalizing a normalized path once more leaves it as it is exactly when its first segment does not
      begin with `drive` and the path does not end in white space. */
  lemma NormalizeAgainIff(parts: seq<string>)
    requires AreSegments(parts)
    ensures Normalize(FromParts(parts)) == Ok(FromParts(parts)) <==> Clean(parts) && !SpaceEnds(FromParts(parts))
  {
    var path := FromParts(parts);
    FromPartsIsTail(parts);
    assert path[0] == '/';
    if SpaceEnds(path) {
      if Normalize(path).Ok? { SpacesAreLost(path); }
    } else {
      TrimmedEnd(path);
      assert TrimSpace(path) == path;
      hide TrimSpace;
      PartsRoundTripIff(parts);
      NormalizeUntrimmed(parts);
    }
  }

  lemma NormalizeUntrimmed(parts: seq<string>)
    requires AreSegments(parts) && TrimSpace(FromParts(parts)) == FromParts(parts)
    ensures Normalize(FromParts(parts)).Ok? ==> Normalize(FromParts(parts)) == Ok(FromParts(LogicalParts(FromParts(parts))))
    ensures Clean(parts) ==> Normalize(FromParts(parts)).Ok?
  {
    hide TrimSpace, Split, NonEmpty;
    var path := FromParts(parts);
    FromPartsIsTail(parts);
    hide FromParts;
    assert path != "" && (path == DRIVE || DRIVE + "/" <= path);
    if Clean(parts) { CleanPieces(parts); }
  }

  lemma CleanPieces(parts: seq<string>)
    requires AreSegments(parts) && Clean(parts)
    ensures Split(TrimMatches(FromParts(parts), DRIVE), "/") == [""] + parts
    ensures "." !in [""] + parts && ".." !in [""] + parts
  {
    hide FromParts, Split, Tail, Clean, NonEmpty;
    FromPartsIsTail(parts);
    PrefixOfTail(parts);
    TrimOnce(Tail(parts));
    SplitTail("", parts);
    assert "" + Tail(parts) == Tail(parts);
    hide TrimMatches;
    forall s | s in parts ensures s != "." && s != ".." {
      var i :| 0 <= i < |parts| && parts[i] == s;
      assert IsSegment(parts[i]);
    }
  }

  lemma TrimOnce(t: string)
    ensures TrimMatches(DRIVE + t, DRIVE) == TrimMatches(t, DRIVE)
    ensures !(DRIVE <= t) ==> TrimMatches(t, DRIVE) == t
  {
    assert (DRIVE + t)[|DRIVE|..] == t;
  }

  /** Every path of proper segments, whatever its first one, is some text's normal form: of the path with its
      first slash doubled, unless white space at the end is lost. */
  lemma DoubledSlash(parts: seq<string>)
    requires AreSegments(parts) && parts != [] && !SpaceEnds(DRIVE + ("/" + Tail(parts)))
    ensures Normalize(DRIVE + ("/" + Tail(parts))) == Ok(FromParts(parts))
  {
    var t := "/" + Tail(parts);
    var text := DRIVE + t;
    assert text[0] == '/' && Tail(parts)[0] == '/' && t[1] == '/';
    TrimmedEnd(text);
    assert TrimSpace(text) == text;
    TrimOnce(t);
    assert !(DRIVE <= t) by { assert DRIVE[1] == 'd'; }
    assert DRIVE + "/" <= text by { assert text == (DRIVE + "/") + Tail(parts); }
    hide TrimSpace, TrimMatches, FromParts, SpaceEnds;
    DoubledPieces(parts);
    assert text != "" && Normalize(text) == Ok(FromParts(parts));
  }

  lemma DoubledPieces(parts: seq<string>)
    requires AreSegments(parts)
    ensures var raw := Split("/" + Tail(parts), "/");
            "." !in raw && ".." !in raw && NonEmpty(raw) == parts
  {
    hide Join, Split;
    var rest := [""] + parts;
    var all := [""] + rest;
    JoinIsTail("", rest);
    assert rest[1..] == parts;
    assert Tail(rest) == "/" + "" + Tail(parts);
    hide Tail;
    assert Join(all, "/") == "/" + Tail(parts);
    SplitJoinChar(all, '/');
    NonEmptyOfSegments(parts);
    assert all[1..] == rest;
    forall s | s in parts ensures s != "." && s != ".." {
      var i :| 0 <= i < |parts| && parts[i] == s;
      assert IsSegment(parts[i]);
    }
  }

  lemma SpaceHasNoSlash(s: string)
    requires IsSpace(s)
    ensures s != "" && s[|s| - 1] != '/'
  {
  }

  lemma SlashEndsNoSpace(s: string)
    requires s != "" && s[|s| - 1] == '/'
    ensures !SpaceEnds(s)
  {
    hide IsSpace;
    forall k: nat | 1 <= k <= 3 ensures !EndsWithSpace(s, k) {
      if EndsWithSpace(s, k) {
        var end := s[|s| - k..];
        assert end[|end| - 1] == s[|s| - 1];
        SpaceHasNoSlash(end);
      }
    }
  }

  lemma SlashedPieces(parts: seq<string>)
    requires AreSegments(parts)
    ensures var raw := Split(Tail(parts) + "/", "/");
            "." !in raw && ".." !in raw && NonEmpty(raw) == parts
  {
    hide Join, Split;
    var all := [""] + (parts + [""]);
    JoinIsTail("", parts + [""]);
    TailOfLast(parts);
    assert "" + (Tail(parts) + "/") == Tail(parts) + "/";
    hide Tail;
    SplitJoinChar(all, '/');
    NonEmptyOfLast(parts);
    assert all[1..] == parts + [""];
    forall s | s in parts ensures s != "." && s != ".." {
      var i :| 0 <= i < |parts| && parts[i] == s;
      assert IsSegment(parts[i]);
    }
  }

  lemma {:induction false} TailOfLast(parts: seq<string>)
    ensures Tail(parts + [""]) == Tail(parts) + "/"
    decreases |parts|
  {
    if parts == [] {
      assert [""][1..] == [] && [] + [""] == [""];
    } else {
      assert (parts + [""])[1..] == parts[1..] + [""];
      TailOfLast(parts[1..]);
    }
  }

  lemma {:induction false} NonEmptyOfLast(parts: seq<string>)
    requires AreSegments(parts)
    ensures NonEmpty(parts + [""]) == parts
    decreases |parts|
  {
    if parts == [] {
      assert [] + [""] == [""] && [""][1..] == [];
    } else {
      assert (parts + [""])[1..] == parts[1..] + [""];
      NonEmptyOfLast(parts[1..]);
    }
  }

  lemma SlashedIsNoDrive(parts: seq<string>)
    requires AreSegments(parts) && Clean(parts)
    ensures !(DRIVE <= Tail(parts) + "/")
  {
    PrefixOfTail(parts);
    var t := Tail(parts);
    hide Tail;
    assert (t + "/")[|t|] == '/';
    assert |t| >= 6 ==> (t + "/")[..6] == t[..6];
    assert forall i :: 0 < i < 6 ==> DRIVE[i] != '/';
  }

  /** A path with a slash behind it has the path as its normal form, also if that ends in white space. */
  lemma TrailingSlash(parts: seq<string>)
    requires AreSegments(parts) && Clean(parts)
    ensures Normalize(FromParts(parts) + "/") == Ok(FromParts(parts))
  {
    hide FromParts, Split, NonEmpty, TrimMatches, Tail, SpaceEnds, TrimSpaceEnd;
    var t := Tail(parts) + "/";
    var text := FromParts(parts) + "/";
    FromPartsIsTail(parts);
    assert text == DRIVE + t && text[0] == '/' && text[|text| - 1] == '/';
    SlashEndsNoSpace(text);
    TrimmedEnd(text);
    assert TrimSpace(text) == text;
    SlashedIsNoDrive(parts);
    TrimOnce(t);
    SlashedPieces(parts);
    SlashedStart(parts);
  }

  lemma SlashedStart(parts: seq<string>)
    ensures DRIVE + "/" <= DRIVE + (Tail(parts) + "/")
  {
    if parts != [] { assert (Tail(parts) + "/")[0] == '/'; }
    assert (DRIVE + (Tail(parts) + "/"))[..7] == DRIVE + "/";
  }

  /** So a normal form can end in white space, which normalizing it again would lose. */
  lemma SpaceEndHappens()
    ensures Normalize("/drive/a /") == Ok("/drive/a ") && SpaceEnds("/drive/a ")
  {
    var parts := ["a "];
    hide Normalize, FromParts, Tail;
    FromPartsIsTail(parts);
    assert Tail(parts) == "/a " by { TailOfOne("a "); }
    assert FromParts(parts) == "/drive/a ";
    TrailingSlash(parts);
    assert "/drive/a " + "/" == "/drive/a /";
    EndsInBlank();
  }

  lemma TailOfOne(name: string)
    ensures Tail([name]) == "/" + name
  {
    assert [name][1..] == [];
  }

  lemma EndsInBlank()
    ensures SpaceEnds("/drive/a ")
  {
    var s := "/drive/a ";
    assert s[|s| - 1..] == " ";
  }
}
