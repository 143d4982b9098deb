/** Rewriting an attribute's URLs throughout a page shown by the web viewer. */
module HtmlRewriting {
  import opened Text
  import opened DrivePaths
  import opened PercentCoding
  import opened WebViewer

  /** What a scan from the left comes to: no attribute, one whose value has no closing quote, or the text up
      to and with the opening quote, the value, and the rest from the closing quote on. */
  datatype Scan = Absent | Open | Found(head: string, value: string, rest: string)

  /** The page after a pass, and whether it broke off at a value without a closing quote. */
  datatype Pass = Pass(text: string, unterminated: bool)

  function Marker(attr: string, quote: char): string {
    attr + "=" + [quote]
  }

  function ScanFor(html: string, attr: string, quote: char): (r: Scan)
    ensures r.Found? ==> html == r.head + r.value + r.rest && r.head != "" && quote !in r.value
    ensures r.Found? ==> r.rest != "" && r.rest[0] == quote
  {
    var marker := Marker(attr, quote);
    match Find(html, marker)
    case None => Absent
    case Some(k) => LongEnough(html, marker, k); Cut(html, k + |marker|, quote)
  }

  /** What a scan makes of the text once it has found the marker. */
  function Cut(html: string, to: nat, quote: char): (r: Scan)
    requires to <= |html|
    ensures !r.Absent?
    ensures r.Found? ==> html == r.head + r.value + r.rest && r.head == html[..to] && quote !in r.value
    ensures r.Found? ==> r.rest != "" && r.rest[0] == quote
  {
    var after := html[to..];
    match Find(after, [quote])
    case None => Open
    case Some(end) =>
      AtQuote(after, quote, end);
      ThreePieces(html, to, end);
      Found(html[..to], after[..end], after[end..])
  }

  lemma LongEnough(s: string, pat: string, k: nat)
    requires OccursAt(s, pat, k)
    ensures k + |pat| <= |s|
  {
  }

  lemma AtQuote(after: string, quote: char, end: nat)
    requires Find(after, [quote]) == Some(end)
    ensures end < |after| && after[end] == quote && quote !in after[..end]
  {
    OccursChar(after, quote, end);
    CutPiece(after, [quote], end);
    FindChar(after[..end], quote);
  }

  lemma ThreePieces(s: string, i: nat, j: nat)
    requires i + j <= |s|
    ensures s == s[..i] + s[i..][..j] + s[i..][j..]
  {
  }

  /** One pass over the page, for one kind of quote. */
  function RewritePass(html: string, attr: string, quote: char, root: string, base: string): Pass
    decreases |html|
  {
    match ScanFor(html, attr, quote)
    case Absent => Pass(html, false)
    case Open => Pass(html, true)
    case Found(head, value, rest) =>
      var more := RewritePass(rest, attr, quote, root, base);
      Pass(head + RewriteUrl(attr, value, root, base) + more.text, more.unterminated)
  }

  function RewriteAttribute(html: string, attr: string, root: string, base: string): string {
    var first := RewritePass(html, attr, '"', root, base);
    if first.unterminated then first.text else RewritePass(first.text, attr, '\'', root, base).text
  }

  method RewriteHtmlAttribute(html: string, attr: string, root: string, base: string) returns (page: string)
    ensures page == RewriteAttribute(html, attr, root, base)
  {
    hide RewritePass;
    var unterminated;
    page, unterminated := RewriteOnePass(html, attr, '"', root, base);
    if !unterminated {
      page, unterminated := RewriteOnePass(page, attr, '\'', root, base);
    }
  }

  method RewriteOnePass(html: string, attr: string, quote: char, root: string, base: string)
      returns (output: string, unterminated: bool)
    ensures Pass(output, unterminated) == RewritePass(html, attr, quote, root, base)
  {
    hide RewriteUrl, ScanFor;
    var rest, open := html, true;
    output, unterminated := "", false;
    ghost var whole := RewritePass(html, attr, quote, root, base);
    assert output + whole.text == whole.text;
    while open
      invariant open ==> whole == Behind(output, RewritePass(rest, attr, quote, root, base))
      invariant !open ==> whole == Pass(output, unterminated)
      decreases open, |rest|
    {
      match ScanFor(rest, attr, quote) {
        case Absent =>
          output, unterminated, open := output + rest, false, false;
        case Open =>
          output, unterminated, open := output + rest, true, false;
        case Found(head, value, after) =>
          ghost var more := RewritePass(after, attr, quote, root, base);
          var url := RewriteUrl(attr, value, root, base);
          Appended(output, head, url, more.text);
          output := output + head + url;
          rest := after;
      }
    }
  }

  function Behind(text: string, more: Pass): Pass {
    Pass(text + more.text, more.unterminated)
  }

  lemma Appended(a: string, b: string, c: string, d: string)
    ensures a + (b + c + d) == (a + b + c) + d
  {
  }

  // ---- What a pass leaves behind ----

  /** The values a scan of the page finds between the quotes. */
  function Values(html: string, attr: string, quote: char): seq<string>
    decreases |html|
  {
    match ScanFor(html, attr, quote)
    case Found(_, value, rest) => [value] + Values(rest, attr, quote)
    case _ => []
  }

  /** The text around those values. */
  function Outside(html: string, attr: string, quote: char): seq<string>
    decreases |html|
  {
    match ScanFor(html, attr, quote)
    case Found(head, _, rest) => [head] + Outside(rest, attr, quote)
    case _ => [html]
  }

  function RewriteAll(values: seq<string>, attr: string, root: string, base: string): seq<string> {
    seq(|values|, i requires 0 <= i < |values| => RewriteUrl(attr, values[i], root, base))
  }

  lemma UrlHasNoQuote(logical: string, root: string, quote: char)
    requires quote == '"' || quote == '\''
    ensures quote !in AssetUrl(logical, root)
  {
    hide Relative, Encode, Join;
    EncodedPathAlphabet(Split(Relative(logical, root), "/"));
    EncodedAlphabet(root);
    assert quote !in EncodePath(Relative(logical, root));
    hide EncodePath;
    assert quote !in ASSETS && quote !in "?root=";
  }

  /** A rewritten URL brings no quote of its own. */
  lemma NoQuote(attr: string, value: string, root: string, base: string, quote: char)
    requires quote == '"' || quote == '\''
    requires quote !in value
    ensures quote !in RewriteUrl(attr, value, root, base)
  {
    hide Resolve, ShouldLeave, IsExternalWeb, AssetUrl;
    if Resolve(root, base, value).Ok? { UrlHasNoQuote(Resolve(root, base, value).value, root, quote); }
  }

  /** A scan finds whatever stands in place of the value and of the rest. */
  lemma ScanAgain(html: string, attr: string, quote: char, value: string, rest: string)
    requires ScanFor(html, attr, quote).Found? && quote !in value && rest != "" && rest[0] == quote
    ensures var head := ScanFor(html, attr, quote).head;
            ScanFor(head + value + rest, attr, quote) == Found(head, value, rest)
  {
    var marker, head := Marker(attr, quote), ScanFor(html, attr, quote).head;
    var k := Find(html, marker).value;
    CutPiece(html, marker, k);
    TakeThrough(html, marker, k);
    var page := head + (value + rest);
    assert head + value + rest == page;
    assert head == html[..k] + marker;
    FoundInFront(head, marker, k, value + rest);
    assert page[k + |marker|..] == value + rest && page[..k + |marker|] == head;
    FoundAtQuote(value, quote, rest);
  }

  lemma FoundInFront(head: string, marker: string, k: nat, more: string)
    requires Find(head, marker) == Some(k)
    ensures Find(head + more, marker) == Some(k)
  {
    var page := head + more;
    assert head <= page;
    OccursInPrefix(page, head, marker, k);
    forall j: nat | j < k ensures !OccursAt(page, marker, j) { OccursInPrefix(page, head, marker, j); }
    FindIs(page, marker, k);
  }

  lemma FoundAtQuote(value: string, quote: char, rest: string)
    requires quote !in value && rest != "" && rest[0] == quote
    ensures Find(value + rest, [quote]) == Some(|value|)
    ensures (value + rest)[..|value|] == value && (value + rest)[|value|..] == rest
  {
    var after := value + rest;
    forall j: nat | j <= |value| ensures OccursAt(after, [quote], j) <==> j == |value| { OccursChar(after, quote, j); }
    FindIs(after, [quote], |value|);
  }

  /** A pass leaves a leading quote where it is. */
  lemma PassKeepsFirst(rest: string, attr: string, quote: char, root: string, base: string)
    requires rest != "" && rest[0] == quote && quote !in attr
    ensures var text := RewritePass(rest, attr, quote, root, base).text; text != "" && text[0] == quote
  {
    hide RewriteUrl;
    var scan := ScanFor(rest, attr, quote);
    if scan.Found? { assert (scan.head + scan.value + scan.rest)[0] == scan.head[0]; }
  }

  /** Scanning the rewritten page finds exactly the rewritten values, one for each value of the page and in
      the same order, with the same text around them: no value is left out, nothing else is changed, and no
      URL breaks out of its quotes. */
  lemma {:induction false} PassRewritesValues(html: string, attr: string, quote: char, root: string, base: string)
    requires quote == '"' || quote == '\''
    requires quote !in attr
    ensures Values(RewritePass(html, attr, quote, root, base).text, attr, quote) ==
            RewriteAll(Values(html, attr, quote), attr, root, base)
    ensures Outside(RewritePass(html, attr, quote, root, base).text, attr, quote) == Outside(html, attr, quote)
    decreases |html|
  {
    hide RewriteUrl, ScanFor;
    match ScanFor(html, attr, quote)
    case Found(head, value, rest) =>
      var url, more := RewriteUrl(attr, value, root, base), RewritePass(rest, attr, quote, root, base).text;
      PassRewritesValues(rest, attr, quote, root, base);
      PassKeepsFirst(rest, attr, quote, root, base);
      NoQuote(attr, value, root, base, quote);
      ScanAgain(html, attr, quote, url, more);
      assert RewriteAll([value] + Values(rest, attr, quote), attr, root, base) ==
             [url] + RewriteAll(Values(rest, attr, quote), attr, root, base);
    case _ =>
  }

  // ---- One pass after another ----

  /** A reference that is not left alone becomes a URL with neither kind of quote in it. */
  lemma RewrittenHasNoQuotes(attr: string, value: string, root: string, base: string)
    requires !ShouldLeave(value) && !(AsciiLower(attr) == "href" && IsExternalWeb(value))
    ensures '"' !in RewriteUrl(attr, value, root, base) && '\'' !in RewriteUrl(attr, value, root, base)
  {
    hide Resolve, ShouldLeave, IsExternalWeb, AssetUrl;
    if Resolve(root, base, value).Ok? {
      UrlHasNoQuote(Resolve(root, base, value).value, root, '"');
      UrlHasNoQuote(Resolve(root, base, value).value, root, '\'');
    }
  }

  lemma CharAt(page: string, marker: string, k: nat, i: nat)
    requires OccursAt(page, marker, k) && i < |marker|
    ensures page[k + i] == marker[i]
  {
    assert page[k..k + |marker|][i] == page[k + i];
  }

  lemma PageAt(r: string, url: string, b: string, i: nat)
    requires |r| <= i < |r| + |url| + |b|
    ensures i < |r| + |url| ==> (r + url + b)[i] in url
    ensures i == |r| + |url| ==> (r + url + b)[i] == b[0]
  {
    if i < |r| + |url| { assert (r + url + b)[i] == url[i - |r|]; }
  }

  lemma ShiftedBy(gap: string, b: string, marker: string, k: nat)
    requires |gap| <= k
    ensures OccursAt(gap + b, marker, k) <==> OccursAt(b, marker, k - |gap|)
  {
    if k + |marker| <= |gap + b| {
      assert (gap + b)[k..k + |marker|] == b[k - |gap|..k - |gap| + |marker|];
    }
  }

  /** No marker begins before the rest, if there is none in the text before the URL. */
  lemma NoMarkerAcross(r: string, url: string, b: string, attr: string, quote: char, k: nat)
    requires Find(r, Marker(attr, quote)).None? && quote !in url && b != "" && b[0] !in Marker(attr, quote)
    ensures OccursAt(r + url + b, Marker(attr, quote), k) ==> |r| + |url| < k
  {
    hide Marker, OccursAt;
    var page, marker, n := r + url + b, Marker(attr, quote), |r| + |url|;
    EndsInQuote(attr, quote);
    var last: nat := |marker| - 1;
    var end: nat := k + last;
    PageAt(r, url, b, n);
    if OccursAt(page, marker, k) && end < |r| {
      LongEnough(page, marker, k);
      assert r <= page;
      OccursInPrefix(page, r, marker, k);
    }
    if OccursAt(page, marker, k) && |r| <= end < n {
      PageAt(r, url, b, end);
      CharAt(page, marker, k, last);
    }
    if OccursAt(page, marker, k) && k <= n <= end {
      var i: nat := n - k;
      CharAt(page, marker, k, i);
    }
  }

  lemma EndsInQuote(attr: string, quote: char)
    ensures Marker(attr, quote) != "" && Marker(attr, quote)[|Marker(attr, quote)| - 1] == quote
  {
  }

  lemma FindSkips(r: string, url: string, b: string, attr: string, quote: char)
    requires Find(r, Marker(attr, quote)).None? && quote !in url && b != "" && b[0] !in Marker(attr, quote)
    ensures var k := Find(b, Marker(attr, quote));
            Find(r + url + b, Marker(attr, quote)) == if k.None? then None else Some(|r + url| + k.value)
  {
    hide *;
    var gap, marker := r + url, Marker(attr, quote);
    forall j: nat | OccursAt(gap + b, marker, j) ensures |gap| <= j {
      NoMarkerAcross(r, url, b, attr, quote, j);
    }
    forall j: nat | |gap| <= j ensures OccursAt(gap + b, marker, j) <==> OccursAt(b, marker, j - |gap|) {
      ShiftedBy(gap, b, marker, j);
    }
    FindShifts(gap + b, b, marker, |gap|);
  }

  lemma FindShifts(page: string, b: string, marker: string, n: nat)
    requires forall j: nat :: OccursAt(page, marker, j) ==> n <= j
    requires forall j: nat :: n <= j ==> (OccursAt(page, marker, j) <==> OccursAt(b, marker, j - n))
    ensures Find(page, marker) == if Find(b, marker).None? then None else Some(n + Find(b, marker).value)
  {
    hide *;
    var k := Find(b, marker);
    if k.Some? {
      assert OccursAt(page, marker, n + k.value);
      FindIs(page, marker, n + k.value);
    }
  }

  lemma ScanSkips(r: string, url: string, b: string, attr: string, quote: char)
    requires ScanFor(r, attr, quote).Absent? && quote !in url && b != "" && b[0] !in Marker(attr, quote)
    ensures var scan := ScanFor(b, attr, quote);
            ScanFor(r + url + b, attr, quote) ==
            match scan
            case Found(head, value, rest) => Found(r + url + head, value, rest)
            case _ => scan
  {
    hide ScanFor, Find, Marker, OccursAt, Cut;
    var page, marker := r + url + b, Marker(attr, quote);
    ScanAbsent(r, attr, quote);
    FindSkips(r, url, b, attr, quote);
    var k := Find(b, marker);
    if k.Some? {
      ScanAt(b, attr, quote, k.value);
      ScanAt(page, attr, quote, |r + url| + k.value);
      CutShifts(r + url, b, k.value + |marker|, quote);
    } else {
      ScanAbsent(b, attr, quote);
      ScanAbsent(page, attr, quote);
    }
  }

  lemma ScanAt(html: string, attr: string, quote: char, k: nat)
    requires Find(html, Marker(attr, quote)) == Some(k)
    ensures k + |Marker(attr, quote)| <= |html| && ScanFor(html, attr, quote) == Cut(html, k + |Marker(attr, quote)|, quote)
  {
    hide Find, Marker, OccursAt, Cut;
    LongEnough(html, Marker(attr, quote), k);
  }

  lemma ScanAbsent(html: string, attr: string, quote: char)
    ensures ScanFor(html, attr, quote).Absent? <==> Find(html, Marker(attr, quote)).None?
  {
    hide Find, Marker;
  }

  predicate FirstAt(html: string, text: string, k: nat) {
    OccursAt(html, text, k) && forall j: nat :: j < k ==> !OccursAt(html, text, j)
  }

  lemma MarkerIs(attr: string, quote: char)
    ensures Marker(attr, quote) == attr + "=" + [quote] && |Marker(attr, quote)| == |attr| + 2
  {
  }

  lemma ScanFinds(html: string, attr: string, quote: char)
    requires ScanFor(html, attr, quote).Found?
    ensures var head := ScanFor(html, attr, quote).head;
            |head| >= |Marker(attr, quote)| && FirstAt(html, Marker(attr, quote), |head| - |Marker(attr, quote)|)
  {
    hide Find, Marker, OccursAt, ScanFor;
    ScanAbsent(html, attr, quote);
    ScanAt(html, attr, quote, Find(html, Marker(attr, quote)).value);
  }

  lemma ScanFound(attr: string, quote: char, head: string, value: string, rest: string)
    requires quote !in value && rest != "" && rest[0] == quote
    requires |head| >= |Marker(attr, quote)|
    requires FirstAt(head + value + rest, Marker(attr, quote), |head| - |Marker(attr, quote)|)
    ensures ScanFor(head + value + rest, attr, quote) == Found(head, value, rest)
  {
    hide Find, Marker, OccursAt, ScanFor, Cut;
    var html := head + value + rest;
    FindIs(html, Marker(attr, quote), |head| - |Marker(attr, quote)|);
    ScanAt(html, attr, quote, |head| - |Marker(attr, quote)|);
    CutFound(head, value, rest, quote);
  }

  lemma CutFound(head: string, value: string, rest: string, quote: char)
    requires quote !in value && rest != "" && rest[0] == quote
    ensures Cut(head + value + rest, |head|, quote) == Found(head, value, rest)
  {
    hide Find;
    var html := head + value + rest;
    assert html[|head|..] == value + rest && html[..|head|] == head;
    FoundAtQuote(value, quote, rest);
    assert (value + rest)[..|value|] == value && (value + rest)[|value|..] == rest;
  }

  /** A scan finds what stands between the first `attr=` with the quote behind it and the next such quote. */
  lemma ScanIff(html: string, attr: string, quote: char, head: string, value: string, rest: string)
    ensures ScanFor(html, attr, quote) == Found(head, value, rest) <==>
            && html == head + value + rest && quote !in value && rest != "" && rest[0] == quote
            && |head| >= |attr| + 2 && FirstAt(html, attr + "=" + [quote], |head| - |attr| - 2)
  {
    MarkerIs(attr, quote);
    hide Marker, ScanFor, FirstAt;
    if ScanFor(html, attr, quote) == Found(head, value, rest) {
      ScanFinds(html, attr, quote);
    } else if html == head + value + rest && quote !in value && rest != "" && rest[0] == quote && |head| >= |attr| + 2 {
      if FirstAt(html, attr + "=" + [quote], |head| - |attr| - 2) { ScanFound(attr, quote, head, value, rest); }
    }
  }

  lemma CutShifts(gap: string, b: string, to: nat, quote: char)
    requires to <= |b|
    ensures Cut(gap + b, |gap| + to, quote) ==
            match Cut(b, to, quote)
            case Found(head, value, rest) => Found(gap + head, value, rest)
            case scan => scan
  {
    hide Find;
    SlicesAfter(gap, b, to);
  }

  lemma SlicesAfter(gap: string, b: string, to: nat)
    requires to <= |b|
    ensures (gap + b)[|gap| + to..] == b[to..] && (gap + b)[..|gap| + to] == gap + b[..to]
  {
  }

  /** The text ends inside a value: its last marker found has no closing quote. */
  predicate EndsOpen(text: string, attr: string, quote: char)
    decreases |text|
  {
    var scan := ScanFor(text, attr, quote);
    scan.Open? || (scan.Found? && EndsOpen(scan.rest, attr, quote))
  }

  lemma {:induction false} UnterminatedIff(text: string, attr: string, quote: char, root: string, base: string)
    ensures RewritePass(text, attr, quote, root, base).unterminated <==> EndsOpen(text, attr, quote)
    decreases |text|
  {
    hide RewriteUrl, ScanFor;
    match ScanFor(text, attr, quote)
    case Found(_, _, rest) => UnterminatedIff(rest, attr, quote, root, base);
    case _ =>
  }

  /** The pass for single quotes leaves a URL written by the pass for double quotes as it is, with its closing
      quote, where no single-quoted value is open. */
  lemma {:induction false} UrlIsUntouched(before: string, url: string, after: string, attr: string, root: string, base: string)
    requires '\'' !in url && after != "" && after[0] == '"' && '"' !in attr
    requires !EndsOpen(before, attr, '\'')
    ensures RewritePass(before + url + after, attr, '\'', root, base).text ==
            RewritePass(before, attr, '\'', root, base).text + url + RewritePass(after, attr, '\'', root, base).text
    decreases |before|
  {
    hide RewriteUrl, ScanFor;
    var scan := ScanFor(before, attr, '\'');
    match scan
    case Absent =>
      ScanSkips(before, url, after, attr, '\'');
      AfterGap(before + url, after, attr, '\'', root, base);
    case Found(head, value, rest) =>
      assert before + url + after == head + value + (rest + url + after);
      ScanAgain(before, attr, '\'', value, rest + url + after);
      UrlIsUntouched(rest, url, after, attr, root, base);
      var written, more := RewriteUrl(attr, value, root, base), RewritePass(rest, attr, '\'', root, base).text;
      Regrouped(head + written, more, url, RewritePass(after, attr, '\'', root, base).text);
  }

  /** Where a value is open and no single quote follows, the pass leaves it as it is as well. */
  lemma {:induction false} UrlIsUntouchedAtEnd(before: string, url: string, after: string, attr: string, root: string, base: string)
    requires '\'' !in url && '\'' !in after && EndsOpen(before, attr, '\'')
    ensures RewritePass(before + url + after, attr, '\'', root, base).text ==
            RewritePass(before, attr, '\'', root, base).text + url + after
    decreases |before|
  {
    hide RewriteUrl, ScanFor;
    match ScanFor(before, attr, '\'')
    case Open => OpenStays(before, url, after, attr, '\'');
    case Found(head, value, rest) =>
      assert before + url + after == head + value + (rest + url + after);
      ScanAgain(before, attr, '\'', value, rest + url + after);
      UrlIsUntouchedAtEnd(rest, url, after, attr, root, base);
      var written, more := RewriteUrl(attr, value, root, base), RewritePass(rest, attr, '\'', root, base).text;
      Regrouped(head + written, more, url, after);
  }

  /** Where a value is open and a single quote follows, the URL lies inside the value that the pass rewrites:
      of the text before it the pass keeps what stands before that value. */
  lemma {:induction false} UrlIsSwallowed(before: string, url: string, after: string, attr: string, root: string, base: string)
      returns (kept: string, open: string, end: nat)
    requires '\'' !in url && '\'' in after && EndsOpen(before, attr, '\'')
    ensures end < |after| && after[end] == '\'' && '\'' !in open + url + after[..end]
    ensures RewritePass(before, attr, '\'', root, base).text == kept + open
    ensures RewritePass(before + url + after, attr, '\'', root, base).text ==
            kept + RewriteUrl(attr, open + url + after[..end], root, base) + RewritePass(after[end..], attr, '\'', root, base).text
    decreases |before|
  {
    hide RewriteUrl, ScanFor, RewritePass, OpenParts, Find;
    UnfoldPass(before, attr, '\'', root, base);
    UnfoldPass(before + url + after, attr, '\'', root, base);
    var scan := ScanFor(before, attr, '\'');
    if scan.Open? {
      end := OpenCloses(before, url, after, attr, '\'');
      kept, open := OpenParts(before, attr, '\'').0, OpenParts(before, attr, '\'').1;
    } else {
      var written := RewriteUrl(attr, scan.value, root, base);
      SplitFound(scan.head, scan.value, scan.rest, url, after);
      ScanAgain(before, attr, '\'', scan.value, scan.rest + url + after);
      var more;
      more, open, end := UrlIsSwallowed(scan.rest, url, after, attr, root, base);
      kept := scan.head + written + more;
      Swallowed(scan.head + written, more, open, RewriteUrl(attr, open + url + after[..end], root, base),
                RewritePass(after[end..], attr, '\'', root, base).text);
    }
  }

  lemma SplitFound(head: string, value: string, rest: string, url: string, after: string)
    ensures (head + value + rest) + url + after == head + value + (rest + url + after)
  {
  }

  lemma Swallowed(a: string, b: string, c: string, d: string, e: string)
    ensures a + (b + c) == (a + b) + c && a + (b + d + e) == (a + b) + d + e
  {
  }

  lemma UnfoldPass(html: string, attr: string, quote: char, root: string, base: string)
    ensures var scan := ScanFor(html, attr, quote);
            RewritePass(html, attr, quote, root, base).text ==
            if scan.Found? then
              scan.head + RewriteUrl(attr, scan.value, root, base) + RewritePass(scan.rest, attr, quote, root, base).text
            else html
  {
    hide RewriteUrl, ScanFor;
  }

  /** A text that ends in its first value: up to and with the opening quote, and from there on. */
  function OpenParts(text: string, attr: string, quote: char): (r: (string, string))
    requires ScanFor(text, attr, quote).Open?
    ensures text == r.0 + r.1 && quote !in r.1
  {
    var marker := Marker(attr, quote);
    var k := Find(text, marker).value;
    TakeThrough(text, marker, k);
    FindChar(text[k + |marker|..], quote);
    (text[..k + |marker|], text[k + |marker|..])
  }

  lemma OpenStays(before: string, url: string, after: string, attr: string, quote: char)
    requires ScanFor(before, attr, quote).Open? && quote !in url && quote !in after
    ensures ScanFor(before + url + after, attr, quote).Open?
  {
    hide *;
    var open := OpenParts(before, attr, quote).1;
    var k := OpenHead(before, url, after, attr, quote);
    var page := before + url + after;
    ScanAt(page, attr, quote, k);
    CutAt(page, k + |Marker(attr, quote)|, quote);
    FindChar(after, quote);
    NotInJoin(quote, open, url);
    TailNone(open + url, after, quote);
  }

  lemma OpenCloses(before: string, url: string, after: string, attr: string, quote: char) returns (end: nat)
    requires ScanFor(before, attr, quote).Open? && quote !in url && quote in after
    ensures end < |after| && after[end] == quote
    ensures var (head, open) := OpenParts(before, attr, quote);
            quote !in open + url + after[..end] &&
            ScanFor(before + url + after, attr, quote) == Found(head, open + url + after[..end], after[end..])
  {
    hide *;
    var open := OpenParts(before, attr, quote).1;
    var k := OpenHead(before, url, after, attr, quote);
    var page := before + url + after;
    FindChar(after, quote);
    end := Find(after, [quote]).value;
    NotInJoin(quote, open, url);
    TailSome(open + url, after, quote, end);
    SlicesAfter(open + url, after, end);
    ScanAt(page, attr, quote, k);
    CutAt(page, k + |Marker(attr, quote)|, quote);
  }

  lemma OpenHead(before: string, url: string, after: string, attr: string, quote: char) returns (k: nat)
    requires ScanFor(before, attr, quote).Open?
    ensures var (head, open) := OpenParts(before, attr, quote);
            var page, to := before + url + after, k + |Marker(attr, quote)|;
            Find(page, Marker(attr, quote)) == Some(k) && to <= |page| && page[..to] == head && page[to..] == open + url + after
  {
    hide Find, Marker, Cut;
    var marker := Marker(attr, quote);
    k := Find(before, marker).value;
    FoundInFront(before, marker, k, url + after);
    assert before + (url + after) == before + url + after;
    LongEnough(before, marker, k);
    SlicesBefore(before, url, after, k + |marker|);
  }

  lemma SlicesBefore(before: string, url: string, after: string, to: nat)
    requires to <= |before|
    ensures (before + url + after)[..to] == before[..to] && (before + url + after)[to..] == before[to..] + url + after
  {
  }

  lemma NotInJoin(c: char, a: string, b: string)
    requires c !in a && c !in b
    ensures c !in a + b
  {
  }

  lemma TailNone(open: string, after: string, quote: char)
    requires quote !in open && Find(after, [quote]).None?
    ensures Find(open + after, [quote]).None?
  {
    hide *;
    FindChar(after, quote);
    NotInJoin(quote, open, after);
    FindChar(open + after, quote);
  }

  lemma TailSome(open: string, after: string, quote: char, end: nat)
    requires quote !in open && Find(after, [quote]) == Some(end)
    ensures end < |after| && after[end] == quote && quote !in open + after[..end]
    ensures Find(open + after, [quote]) == Some(|open| + end)
  {
    hide *;
    AtQuote(after, quote, end);
    NotInJoin(quote, open, after[..end]);
    SlicesAfter(open, after, end);
    EndAtQuote(open + after[..end], quote, after[end..], open + after);
  }

  lemma EndAtQuote(value: string, quote: char, rest: string, whole: string)
    requires quote !in value && rest != "" && rest[0] == quote && |value| <= |whole|
    requires whole[..|value|] == value && whole[|value|..] == rest
    ensures Find(whole, [quote]) == Some(|value|)
  {
    FoundAtQuote(value, quote, rest);
    hide Find;
    assert value + rest == whole;
  }

  lemma CutAt(html: string, to: nat, quote: char)
    requires to <= |html|
    ensures var tail := html[to..];
            var end := Find(tail, [quote]);
            Cut(html, to, quote) ==
            if end.None? then Open
            else assert OccursAt(tail, [quote], end.value); Found(html[..to], tail[..end.value], tail[end.value..])
  {
    hide Find;
  }

  lemma Regrouped(a: string, b: string, c: string, d: string)
    ensures a + (b + c + d) == (a + b) + c + d
  {
  }

  lemma AfterGap(gap: string, after: string, attr: string, quote: char, root: string, base: string)
    requires ScanFor(gap + after, attr, quote) ==
             match ScanFor(after, attr, quote)
             case Found(head, value, rest) => Found(gap + head, value, rest)
             case scan => scan
    ensures RewritePass(gap + after, attr, quote, root, base).text == gap + RewritePass(after, attr, quote, root, base).text
  {
    hide RewriteUrl, ScanFor;
    match ScanFor(after, attr, quote)
    case Found(head, value, rest) =>
      Appended(gap, head, RewriteUrl(attr, value, root, base), RewritePass(rest, attr, quote, root, base).text);
    case _ =>
  }

  // ---- A page after both passes ----

  /** Scanning for one kind of quote finds the same values on both sides of a text without it, if none is open
      there: those before it and those after it. */
  lemma {:induction false} ValuesAcross(before: string, text: string, after: string, attr: string, quote: char)
    requires quote !in text && after != "" && after[0] !in Marker(attr, quote) && !EndsOpen(before, attr, quote)
    ensures Values(before + text + after, attr, quote) == Values(before, attr, quote) + Values(after, attr, quote)
    decreases |before|
  {
    hide ScanFor, Marker;
    var scan := ScanFor(before, attr, quote);
    if scan.Found? {
      assert before + text + after == scan.head + scan.value + (scan.rest + text + after);
      ScanAgain(before, attr, quote, scan.value, scan.rest + text + after);
      ValuesAcross(scan.rest, text, after, attr, quote);
      hide EndsOpen;
      var all := scan.rest + text + after;
      assert Values(before + text + after, attr, quote) == [scan.value] + Values(all, attr, quote);
    } else {
      ScanSkips(before, text, after, attr, quote);
    }
  }

  /** The kinds of quotes do not meet: no value between the one holds the other, and none between the other is open
      where one between the one stands. */
  predicate Apart(html: string, attr: string, quote: char, other: char)
    decreases |html|
  {
    var scan := ScanFor(html, attr, quote);
    scan.Found? ==>
      other !in scan.value && !EndsOpen(scan.head, attr, other) && Apart(scan.rest, attr, quote, other)
  }

  /** A pass for one kind of quote leaves the values between the other kind alone, if the kinds do not meet. */
  lemma {:induction false} PassKeepsOthers(html: string, attr: string, quote: char, other: char, root: string, base: string)
    requires {quote, other} == {'"', '\''} && quote !in attr && other !in attr
    requires Apart(html, attr, quote, other)
    ensures Values(RewritePass(html, attr, quote, root, base).text, attr, other) == Values(html, attr, other)
    decreases |html|
  {
    hide RewriteUrl, ScanFor, Values, EndsOpen;
    var scan := ScanFor(html, attr, quote);
    UnfoldPass(html, attr, quote, root, base);
    if scan.Found? {
      var url, more := RewriteUrl(attr, scan.value, root, base), RewritePass(scan.rest, attr, quote, root, base).text;
      NoQuote(attr, scan.value, root, base, other);
      PassKeepsFirst(scan.rest, attr, quote, root, base);
      NotInMarker(attr, quote, other);
      hide RewritePass;
      ValuesAcross(scan.head, scan.value, scan.rest, attr, other);
      ValuesAcross(scan.head, url, more, attr, other);
      PassKeepsOthers(scan.rest, attr, quote, other, root, base);
    }
  }

  lemma NotInMarker(attr: string, quote: char, other: char)
    requires quote !in attr && quote != other && quote != '='
    ensures quote !in Marker(attr, other)
  {
  }

  /** After both passes every double-quoted value of the page and every single-quoted one is the rewritten one, one
      for each and in order, if the kinds do not meet on the page or after the first pass. A double-quoted value
      without a closing quote ends the work before the single-quoted ones, which then stay. */
  lemma BothKindsRewritten(html: string, attr: string, root: string, base: string)
    requires '"' !in attr && '\'' !in attr
    ensures var first, page := RewritePass(html, attr, '"', root, base).text, RewriteAttribute(html, attr, root, base);
            if EndsOpen(html, attr, '"') then
              && Values(page, attr, '"') == RewriteAll(Values(html, attr, '"'), attr, root, base)
              && (Apart(html, attr, '"', '\'') ==> Values(page, attr, '\'') == Values(html, attr, '\''))
            else
              && Values(page, attr, '\'') == RewriteAll(Values(first, attr, '\''), attr, root, base)
              && (Apart(html, attr, '"', '\'') ==>
                    Values(page, attr, '\'') == RewriteAll(Values(html, attr, '\''), attr, root, base))
              && (Apart(first, attr, '\'', '"') ==>
                    Values(page, attr, '"') == RewriteAll(Values(html, attr, '"'), attr, root, base))
  {
    hide RewritePass, Values, Apart, EndsOpen, RewriteAll;
    var first := RewritePass(html, attr, '"', root, base).text;
    UnterminatedIff(html, attr, '"', root, base);
    PassRewritesValues(html, attr, '"', root, base);
    PassRewritesValues(first, attr, '\'', root, base);
    if Apart(html, attr, '"', '\'') { PassKeepsOthers(html, attr, '"', '\'', root, base); }
    if Apart(first, attr, '\'', '"') { PassKeepsOthers(first, attr, '\'', '"', root, base); }
  }

  // ---- A page on which a URL is lost ----

  /** Whatever the root, a value that begins like a web address is refused outside of links. */
  lemma WebAddressIsBlank(rest: string, root: string, base: string)
    ensures var value := "http://" + rest + "\"";
            RewriteUrl("src", value, root, base) == "about:blank"
  {
    var value := "http://" + rest + "\"";
    hide Normalize, Decode, Utf8, BeforeQuery, ResolveNormalized;
    NotLeft(value);
    assert "http://" <= value by { assert value[..7] == "http://"; }
    RefusedAsExternal(root, base, value);
    assert AsciiLower("src")[0] == 's';
  }

  lemma RefusedAsExternal(root: string, base: string, value: string)
    requires IsExternal(value)
    ensures Resolve(root, base, value).Err?
  {
    hide Normalize, Decode, Utf8, BeforeQuery, Walked;
  }

  lemma NotLeft(value: string)
    requires value != "" && value[0] == 'h'
    ensures !ShouldLeave(value)
  {
    var start := TrimSpaceStart(value);
    assert start == value;
    TrimmedEnd(value);
    var trimmed := TrimSpace(value);
    assert trimmed == TrimSpaceEnd(value) && trimmed != "" && trimmed[0] == 'h';
    hide TrimSpace;
    assert AsciiLower(trimmed)[0] == 'h';
  }

  /** A scan of a text whose first such quote stands behind the attribute. */
  lemma ScanSimple(lead: string, attr: string, quote: char, value: string, rest: string)
    requires quote !in lead && quote !in attr && quote != '=' && quote !in value && rest != "" && rest[0] == quote
    ensures ScanFor(lead + Marker(attr, quote) + value + rest, attr, quote) == Found(lead + Marker(attr, quote), value, rest)
  {
    var marker := Marker(attr, quote);
    var head := lead + marker;
    NotBefore(lead, attr, quote);
    FindIs(head, marker, |lead|);
    assert ScanFor(head + [quote], attr, quote).Found? by {
      FoundInFront(head, marker, |lead|, [quote]);
      assert (head + [quote])[|head|..] == [quote];
      FoundAtQuote("", quote, [quote]);
      assert "" + [quote] == [quote];
    }
    assert ScanFor(head + [quote], attr, quote).head == head by {
      FoundInFront(head, marker, |lead|, [quote]);
      assert (head + [quote])[..|head|] == head;
    }
    ScanAgain(head + [quote], attr, quote, value, rest);
  }

  lemma NotBefore(lead: string, attr: string, quote: char)
    requires quote !in lead && quote !in attr && quote != '='
    ensures OccursAt(lead + Marker(attr, quote), Marker(attr, quote), |lead|)
    ensures forall j: nat :: j < |lead| ==> !OccursAt(lead + Marker(attr, quote), Marker(attr, quote), j)
  {
    var marker, text := Marker(attr, quote), lead + Marker(attr, quote);
    var last: nat := |marker| - 1;
    assert marker[last] == quote;
    assert text[|lead|..|lead| + |marker|] == marker;
    forall j: nat | j < |lead| ensures !OccursAt(text, marker, j) {
      var k: nat := j + last;
      assert text[k] == if k < |lead| then lead[k] else marker[k - |lead|];
      assert k >= |lead| ==> marker[k - |lead|] in attr + "=";
      if OccursAt(text, marker, j) { CharAt(text, marker, j, last); }
    }
  }

  lemma ShortIsAbsent(text: string, attr: string, quote: char)
    requires |text| <= |attr|
    ensures ScanFor(text, attr, quote).Absent?
  {
  }

  /** A pass over a text with one value. */
  lemma OneValue(lead: string, attr: string, quote: char, value: string, rest: string, root: string, base: string)
    requires quote !in lead && quote !in attr && quote != '=' && quote !in value && rest != "" && rest[0] == quote
    requires |rest| <= |attr|
    ensures RewritePass(lead + Marker(attr, quote) + value + rest, attr, quote, root, base) ==
            Pass(lead + Marker(attr, quote) + RewriteUrl(attr, value, root, base) + rest, false)
  {
    hide RewriteUrl, Marker;
    ScanSimple(lead, attr, quote, value, rest);
    ShortIsAbsent(rest, attr, quote);
    hide ScanFor;
    assert RewritePass(rest, attr, quote, root, base) == Pass(rest, false);
  }

  /** A double-quoted URL inside a single-quoted value: the first pass writes it and the second replaces the whole
      value, in which it is lost, whatever the root. */
  lemma UrlIsLostHappens(root: string, base: string)
    ensures RewriteAttribute("src='http://src=\"a\"'", "src", root, base) == "src='about:blank'"
  {
    hide RewriteUrl, Marker, RewritePass;
    var lead, url := "src='http://", RewriteUrl("src", "a", root, base);
    var value := "http://" + (Marker("src", '"') + url) + "\"";
    NoQuote("src", "a", root, base, '\'');
    LostPieces(lead, url);
    OneValue(lead, "src", '"', "a", "\"'", root, base);
    OneValue("", "src", '\'', value, "'", root, base);
    WebAddressIsBlank(Marker("src", '"') + url, root, base);
    assert "" + Marker("src", '\'') == Marker("src", '\'');
    LostPage();
  }

  lemma LostPage()
    ensures "src='http://" + Marker("src", '"') + "a" + "\"'" == "src='http://src=\"a\"'"
    ensures Marker("src", '\'') + "about:blank" + "'" == "src='about:blank'"
  {
  }

  lemma LostPieces(lead: string, url: string)
    requires lead == "src='http://" && '\'' !in url
    ensures var value := "http://" + (Marker("src", '"') + url) + "\"";
            && '\'' !in value
            && "" + Marker("src", '\'') + value + "'" == (lead + Marker("src", '"')) + url + "\"'"
  {
    assert lead == Marker("src", '\'') + "http://";
  }
}
