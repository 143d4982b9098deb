/** The string operations of the source language that the other modules share:
    trimming, leftmost search, splitting, joining and replacing. Their contracts
    describe results by position, so that callers never unfold the recursion. */
module Text {
  datatype Option<+T> = None | Some(value: T)

  /** The Unicode White_Space property, which `char::is_whitespace` and `str::trim` use. */
  predicate IsWhitespace(c: char) {
    || '\t' <= c <= '\r'
    || c in {' ', '\U{85}', '\U{A0}', '\U{1680}', '\U{2028}', '\U{2029}', '\U{202F}', '\U{205F}', '\U{3000}'}
    || '\U{2000}' <= c <= '\U{200A}'
  }

  function TrimStart(s: string): (r: string)
    ensures r == [] || !IsWhitespace(r[0])
    ensures exists k :: 0 <= k <= |s| && r == s[k..] && forall i :: 0 <= i < k ==> IsWhitespace(s[i])
  {
    if s != [] && IsWhitespace(s[0]) then
      var r := TrimStart(s[1..]);
      assert forall k :: 0 <= k <= |s[1..]| ==> s[1..][k..] == s[k + 1..];
      r
    else
      assert s == s[0..];
      s
  }

  function TrimEnd(s: string): (r: string)
    ensures r <= s
    ensures r == [] || !IsWhitespace(r[|r| - 1])
    ensures s != [] && !IsWhitespace(s[|s| - 1]) ==> r == s
    ensures forall i :: |r| <= i < |s| ==> IsWhitespace(s[i])
  {
    if s != [] && IsWhitespace(s[|s| - 1]) then TrimEnd(s[..|s| - 1]) else s
  }

  function Trim(s: string): (r: string)
    ensures |r| <= |s|
    ensures r == [] || (!IsWhitespace(r[0]) && !IsWhitespace(r[|r| - 1]))
  {
    TrimEnd(TrimStart(s))
  }

  /** A string is its own trimmed form exactly when neither end is white space. */
  lemma TrimFixed(s: string)
    ensures Trim(s) == s <==> s == [] || (!IsWhitespace(s[0]) && !IsWhitespace(s[|s| - 1]))
    ensures |Trim(s)| == |s| ==> Trim(s) == s
  {
  }

  lemma TrimStartIs(s: string) returns (i: nat)
    ensures i <= |s| && TrimStart(s) == s[i..] && forall k :: 0 <= k < i ==> IsWhitespace(s[k])
  {
    hide TrimStart, IsWhitespace;
    i :| i <= |s| && TrimStart(s) == s[i..] && forall k :: 0 <= k < i ==> IsWhitespace(s[k]);
  }

  lemma TrimEndIs(s: string) returns (j: nat)
    ensures j <= |s| && TrimEnd(s) == s[..j] && forall k :: j <= k < |s| ==> IsWhitespace(s[k])
  {
    hide TrimEnd, IsWhitespace;
    j := |TrimEnd(s)|;
  }

  /** What is left of a string lies between white space, and neither begins nor ends with any. */
  lemma TrimIs(s: string) returns (i: nat, j: nat)
    ensures i <= j <= |s| && Trim(s) == s[i..j]
    ensures forall k :: 0 <= k < |s| && !(i <= k < j) ==> IsWhitespace(s[k])
    ensures i < j ==> !IsWhitespace(s[i]) && !IsWhitespace(s[j - 1])
  {
    hide *;
    TrimUnfolds(s);
    i := TrimStartIs(s);
    var n := TrimEndIs(s[i..]);
    j := i + n;
    Nested(s, i, n);
    forall k | j <= k < |s| ensures IsWhitespace(s[k]) { assert s[i..][k - i] == s[k]; }
  }

  lemma TrimUnfolds(s: string)
    ensures Trim(s) == TrimEnd(TrimStart(s))
  {
    hide TrimStart, TrimEnd;
  }

  lemma Nested(s: string, i: nat, n: nat)
    requires i + n <= |s|
    ensures s[i..][..n] == s[i..i + n]
    ensures n > 0 ==> s[i..i + n][0] == s[i] && s[i..i + n][n - 1] == s[i + n - 1]
  {
  }

  // ---- Leftmost search ----

  predicate OccursAt(s: string, pat: string, k: nat) {
    k + |pat| <= |s| && s[k..k + |pat|] == pat
  }

  lemma OccursInTail(s: string, pat: string, k: nat)
    requires 0 < k && s != []
    ensures OccursAt(s, pat, k) <==> OccursAt(s[1..], pat, k - 1)
  {
    if k + |pat| <= |s| { assert s[1..][k - 1..k - 1 + |pat|] == s[k..k + |pat|]; }
  }

  lemma OccursInPrefix(s: string, prefix: string, pat: string, k: nat)
    requires prefix <= s && k + |pat| <= |prefix|
    ensures OccursAt(prefix, pat, k) <==> OccursAt(s, pat, k)
  {
    assert prefix[k..k + |pat|] == s[k..k + |pat|];
  }

  /** `str::find`: the position of the leftmost occurrence. */
  function Find(s: string, pat: string): (r: Option<nat>)
    ensures r.Some? ==> OccursAt(s, pat, r.value) && forall k: nat :: k < r.value ==> !OccursAt(s, pat, k)
    ensures r.None? ==> forall k: nat :: !OccursAt(s, pat, k)
  {
    if |s| < |pat| then None
    else if pat <= s then
      assert OccursAt(s, pat, 0);
      Some(0)
    else
      var rest := Find(s[1..], pat);
      assert forall k: nat :: k > 0 ==> (OccursAt(s, pat, k) <==> OccursAt(s[1..], pat, k - 1)) by {
        forall k: nat | k > 0 ensures OccursAt(s, pat, k) <==> OccursAt(s[1..], pat, k - 1) {
          OccursInTail(s, pat, k);
        }
      }
      if rest.Some? then Some(rest.value + 1) else None
  }

  predicate Contains(s: string, pat: string) {
    Find(s, pat).Some?
  }

  lemma FindIs(s: string, pat: string, k: nat)
    requires OccursAt(s, pat, k)
    requires forall j: nat :: j < k ==> !OccursAt(s, pat, j)
    ensures Find(s, pat) == Some(k)
  {
  }

  // ---- Joining and splitting ----

  function Join(parts: seq<string>, sep: string): string {
    if parts == [] then ""
    else if |parts| == 1 then parts[0]
    else parts[0] + sep + Join(parts[1..], sep)
  }

  lemma UnfoldJoin(parts: seq<string>, sep: string)
    requires parts != []
    ensures Join(parts, sep) == if |parts| == 1 then parts[0] else parts[0] + sep + Join(parts[1..], sep)
  {
  }

  /** `str::split` with a non-empty separator: cut at leftmost, non-overlapping occurrences. */
  function Split(s: string, sep: string): (r: seq<string>)
    requires sep != []
    ensures r != []
    decreases |s|
  {
    match Find(s, sep)
    case None => [s]
    case Some(k) => [s[..k]] + Split(s[k + |sep|..], sep)
  }

  /** No piece holds the separator, and no piece but the last forms an earlier separator
      together with the one that follows it. */
  predicate SplitSafe(parts: seq<string>, sep: string) {
    && (forall i :: 0 <= i < |parts| ==> !Contains(parts[i], sep))
    && (forall i :: 0 <= i < |parts| - 1 ==> Find(parts[i] + sep, sep) == Some(|parts[i]|))
  }

  /** The text before the leftmost separator is separator-free, also with the separator put back. */
  lemma CutPiece(s: string, sep: string, k: nat)
    requires sep != [] && Find(s, sep) == Some(k)
    ensures !Contains(s[..k], sep) && Find(s[..k] + sep, sep) == Some(k)
    ensures s == s[..k] + sep + s[k + |sep|..]
  {
    var head, ext := s[..k], s[..k + |sep|];
    TakeThrough(s, sep, k);
    forall j: nat ensures !OccursAt(head, sep, j) {
      if j + |sep| <= k { OccursInPrefix(s, head, sep, j); }
    }
    forall j: nat | j < k ensures !OccursAt(ext, sep, j) { OccursInPrefix(s, ext, sep, j); }
    FindIs(ext, sep, k);
  }

  lemma TakeThrough(s: string, sep: string, k: nat)
    requires OccursAt(s, sep, k)
    ensures s[..k + |sep|] == s[..k] + sep && OccursAt(s[..k + |sep|], sep, k)
    ensures s == s[..k] + sep + s[k + |sep|..]
  {
    var ext := s[..k + |sep|];
    assert ext == s[..k] + s[k..k + |sep|];
    assert ext[k..k + |sep|] == s[k..k + |sep|];
    assert s == ext + s[k + |sep|..];
  }

  lemma SplitSafeCons(head: string, rest: seq<string>, sep: string)
    requires !Contains(head, sep) && Find(head + sep, sep) == Some(|head|) && SplitSafe(rest, sep)
    ensures SplitSafe([head] + rest, sep)
  {
    var all := [head] + rest;
    forall i | 0 <= i < |all| ensures !Contains(all[i], sep) { if i > 0 { assert all[i] == rest[i - 1]; } }
    forall i | 0 <= i < |all| - 1 ensures Find(all[i] + sep, sep) == Some(|all[i]|) {
      if i > 0 { assert all[i] == rest[i - 1]; }
    }
  }

  lemma {:induction false} JoinOfSplit(s: string, sep: string)
    requires sep != []
    ensures Join(Split(s, sep), sep) == s
    ensures SplitSafe(Split(s, sep), sep)
    decreases |s|
  {
    match Find(s, sep)
    case None =>
    case Some(k) =>
      var rest := s[k + |sep|..];
      JoinOfSplit(rest, sep);
      CutPiece(s, sep, k);
      SplitSafeCons(s[..k], Split(rest, sep), sep);
      assert ([s[..k]] + Split(rest, sep))[1..] == Split(rest, sep);
  }

  lemma {:induction false} SplitOfJoin(parts: seq<string>, sep: string)
    requires sep != [] && parts != []
    requires SplitSafe(parts, sep)
    ensures Split(Join(parts, sep), sep) == parts
  {
    if |parts| > 1 {
      var head, tail := parts[0], Join(parts[1..], sep);
      var s := Join(parts, sep);
      assert s == head + sep + tail;
      assert Find(head + sep, sep) == Some(|head|);
      assert OccursAt(s, sep, |head|);
      forall j: nat | j < |head| ensures !OccursAt(s, sep, j) { OccursInPrefix(s, head + sep, sep, j); }
      FindIs(s, sep, |head|);
      assert s[..|head|] == head && s[|head| + |sep|..] == tail;
      forall i | 0 <= i < |parts[1..]| - 1 ensures Find(parts[1..][i] + sep, sep) == Some(|parts[1..][i]|) {
        assert parts[1..][i] == parts[i + 1];
      }
      SplitOfJoin(parts[1..], sep);
    } else {
      assert !Contains(parts[0], sep);
    }
  }

  /** Splitting undoes joining for exactly the separator-safe lists. */
  lemma SplitJoinIff(parts: seq<string>, sep: string)
    requires sep != [] && parts != []
    ensures Split(Join(parts, sep), sep) == parts <==> SplitSafe(parts, sep)
  {
    if SplitSafe(parts, sep) {
      SplitOfJoin(parts, sep);
    } else {
      JoinOfSplit(Join(parts, sep), sep);
    }
  }

  /** The total length of a list of strings. */
  function TotalLength(parts: seq<string>): nat {
    if parts == [] then 0 else |parts[0]| + TotalLength(parts[1..])
  }

  lemma {:induction false} JoinLength(parts: seq<string>, sep: string)
    requires parts != []
    ensures |Join(parts, sep)| == TotalLength(parts) + |sep| * (|parts| - 1)
  {
    if |parts| > 1 {
      JoinLength(parts[1..], sep);
      assert |Join(parts, sep)| == |parts[0]| + |sep| + |Join(parts[1..], sep)|;
      assert |sep| + |sep| * (|parts| - 2) == |sep| * (|parts| - 1);
    } else {
      assert parts[1..] == [];
    }
  }

  // ---- Single-character separators ----

  lemma OccursChar(s: string, c: char, k: nat)
    ensures OccursAt(s, [c], k) <==> k < |s| && s[k] == c
  {
    if k < |s| { assert s[k..k + 1] == [s[k]]; }
  }

  lemma FindChar(s: string, c: char)
    ensures Find(s, [c]).None? <==> c !in s
    ensures c !in s ==> Find(s + [c], [c]) == Some(|s|)
  {
    if c !in s {
      forall k: nat ensures !OccursAt(s, [c], k) { OccursChar(s, c, k); }
      forall k: nat | k <= |s| ensures OccursAt(s + [c], [c], k) <==> k == |s| { OccursChar(s + [c], c, k); }
      FindIs(s + [c], [c], |s|);
    } else {
      var k :| 0 <= k < |s| && s[k] == c;
      OccursChar(s, c, k);
    }
  }

  lemma SplitJoinChar(parts: seq<string>, c: char)
    requires parts != []
    requires forall i :: 0 <= i < |parts| ==> c !in parts[i]
    ensures Split(Join(parts, [c]), [c]) == parts
  {
    forall i | 0 <= i < |parts| ensures !Contains(parts[i], [c]) && Find(parts[i] + [c], [c]) == Some(|parts[i]|) {
      FindChar(parts[i], c);
    }
    SplitOfJoin(parts, [c]);
  }

  lemma SplitCharPieces(s: string, c: char)
    ensures forall i :: 0 <= i < |Split(s, [c])| ==> c !in Split(s, [c])[i]
  {
    JoinOfSplit(s, [c]);
    forall i | 0 <= i < |Split(s, [c])| ensures c !in Split(s, [c])[i] { FindChar(Split(s, [c])[i], c); }
  }

  // ---- Replacing ----

  /** `str::replace` of a non-empty pattern. */
  function Replace(s: string, from: string, to: string): string
    requires from != []
    decreases |s|
  {
    match Find(s, from)
    case None => s
    case Some(k) => s[..k] + to + Replace(s[k + |from|..], from, to)
  }
}
