/** The artifacts of a session, listed page by page behind a cursor while activity goes on. */
module ArtifactPages {
  import opened Text

  /** Where a row stands in the order of the listing. */
  datatype Position = Position(activity: int, id: nat)

  datatype Link = Link(activity: int, title: string)

  /** The rows, one for each pair of a session and an artifact. */
  type Table = map<(nat, nat), Link>

  datatype Summary = Summary(id: nat, title: string, activity: int)

  /** A cursor as a client sends it: text that decodes to no cursor, or an encoded one. */
  datatype Cursor =
    | Garbled(text: string)
    | Encoded(version: nat, session: nat, last: Position)

  datatype Query = Query(limit: int, cursor: Option<Cursor>)

  datatype Response = Page(artifacts: seq<Summary>, next: Option<Cursor>) | BadRequest(message: string)

  // ---- The order and the query ----

  predicate Less(p: Position, q: Position) {
    p.activity < q.activity || (p.activity == q.activity && p.id < q.id)
  }

  predicate Below(p: Position, bound: Option<Position>) {
    bound.None? || Less(p, bound.value)
  }

  function At(t: Table, key: (nat, nat)): Position
    requires key in t
  {
    Position(t[key].activity, key.1)
  }

  function Candidates(t: Table, session: nat, bound: Option<Position>): set<Position> {
    set key | key in t && key.0 == session && Below(At(t, key), bound) :: At(t, key)
  }

  predicate IsGreatest(p: Position, rows: set<Position>) {
    p in rows && forall q :: q in rows ==> q == p || Less(q, p)
  }

  lemma {:induction false} GreatestExists(rows: set<Position>)
    requires rows != {}
    ensures exists p :: IsGreatest(p, rows)
  {
    var p :| p in rows;
    var others := rows - {p};
    assert rows == others + {p};
    if others == {} {
      assert IsGreatest(p, rows);
    } else {
      GreatestExists(others);
      var q :| IsGreatest(q, others);
      var top := if Less(p, q) then q else p;
      assert forall r :: r in rows ==> r == p || r in others;
      assert IsGreatest(top, rows);
    }
  }

  function Greatest(rows: set<Position>): (p: Position)
    requires rows != {}
    ensures IsGreatest(p, rows)
  {
    GreatestExists(rows);
    var p :| IsGreatest(p, rows);
    p
  }

  /** The answer to the query: the first `n` rows in descending order. */
  function TopRows(rows: set<Position>, n: nat): seq<Position> {
    if n == 0 || rows == {} then [] else [Greatest(rows)] + TopRows(rows - {Greatest(rows)}, n - 1)
  }

  predicate Descending(rows: seq<Position>) {
    forall i, j :: 0 <= i < j < |rows| ==> Less(rows[j], rows[i])
  }

  /** What makes a sequence the answer: it holds the first `n` rows, in descending order. */
  ghost predicate IsAnswer(rows: set<Position>, n: nat, answer: seq<Position>) {
    && Descending(answer)
    && (forall i :: 0 <= i < |answer| ==> answer[i] in rows)
    && |answer| <= n
    && (forall p :: p in rows && p !in answer ==> |answer| == n && forall q :: q in answer ==> Less(p, q))
  }

  lemma TopBeforeRest(rows: set<Position>, top: Position, n: nat, rest: seq<Position>)
    requires IsGreatest(top, rows) && IsAnswer(rows - {top}, n, rest)
    ensures IsAnswer(rows, n + 1, [top] + rest)
  {
    hide Less;
    var answer := [top] + rest;
    forall p | p in rest ensures p in answer {
      var i :| 0 <= i < |rest| && rest[i] == p;
      assert answer[i + 1] == p;
    }
    forall i | 0 <= i < |rest| ensures rest[i] in rows && Less(rest[i], top) {
      assert rest[i] in rows - {top};
    }
    forall p | p in rows && p !in answer ensures |answer| == n + 1 && forall q :: q in answer ==> Less(p, q) {
      assert p != top by { assert answer[0] == top; }
      assert p in rows - {top};
    }
  }

  lemma {:induction false} TopRowsIsAnswer(rows: set<Position>, n: nat)
    ensures IsAnswer(rows, n, TopRows(rows, n))
    decreases n
  {
    if n > 0 && rows != {} {
      var top := Greatest(rows);
      TopRowsIsAnswer(rows - {top}, n - 1);
      TopBeforeRest(rows, top, n - 1, TopRows(rows - {top}, n - 1));
    }
  }

  // ---- One request ----

  function SummaryOf(t: Table, session: nat, p: Position): Summary
    requires (session, p.id) in t
  {
    Summary(p.id, t[(session, p.id)].title, p.activity)
  }

  predicate Listed(t: Table, session: nat, rows: seq<Position>) {
    forall i :: 0 <= i < |rows| ==> (session, rows[i].id) in t && At(t, (session, rows[i].id)) == rows[i]
  }

  lemma AnswerIsListed(t: Table, session: nat, bound: Option<Position>, n: nat)
    ensures Listed(t, session, TopRows(Candidates(t, session, bound), n))
  {
    TopRowsIsAnswer(Candidates(t, session, bound), n);
  }

  function Summaries(t: Table, session: nat, rows: seq<Position>): seq<Summary>
    requires Listed(t, session, rows)
  {
    seq(|rows|, i requires 0 <= i < |rows| => SummaryOf(t, session, rows[i]))
  }

  /** The rows one page shows and the position its cursor stands at, if there are more. */
  function PageRows(t: Table, session: nat, bound: Option<Position>, limit: nat): (seq<Position>, Option<Position>)
    requires limit > 0
  {
    var rows := TopRows(Candidates(t, session, bound), limit + 1);
    if |rows| > limit then (rows[..limit], Some(rows[limit - 1])) else (rows, None)
  }

  /** Why a query is refused, if it is. */
  function Refusal(session: nat, query: Query): Option<string> {
    if !(1 <= query.limit <= 100) then Some("artifact limit must be between 1 and 100")
    else
      match query.cursor
      case None => None
      case Some(Garbled(_)) => Some("invalid artifact cursor")
      case Some(Encoded(version, owner, _)) =>
        if owner != session || version != 1 then Some("artifact cursor does not match the session") else None
  }

  function Bound(query: Query): Option<Position> {
    if query.cursor.Some? && query.cursor.value.Encoded? then Some(query.cursor.value.last) else None
  }

  function List(t: Table, session: nat, query: Query): Response {
    if Refusal(session, query).Some? then BadRequest(Refusal(session, query).value)
    else
      var (rows, last) := PageRows(t, session, Bound(query), query.limit);
      AnswerIsListed(t, session, Bound(query), query.limit + 1);
      Page(Summaries(t, session, rows), if last.Some? then Some(Encoded(1, session, last.value)) else None)
  }

  method Summarise(t: Table, session: nat, rows: seq<Position>) returns (artifacts: seq<Summary>)
    requires Listed(t, session, rows)
    ensures artifacts == Summaries(t, session, rows)
  {
    artifacts := [];
    for i := 0 to |rows|
      invariant artifacts == Summaries(t, session, rows[..i])
    {
      artifacts := artifacts + [SummaryOf(t, session, rows[i])];
      assert rows[..i + 1] == rows[..i] + [rows[i]];
    }
    assert rows[..|rows|] == rows;
  }

  method ListSessionArtifacts(t: Table, session: nat, query: Query) returns (response: Response)
    ensures response == List(t, session, query)
  {
    if !(1 <= query.limit <= 100) {
      return BadRequest("artifact limit must be between 1 and 100");
    }
    if query.cursor.Some? {
      match query.cursor.value {
        case Garbled(_) => return BadRequest("invalid artifact cursor");
        case Encoded(version, owner, _) =>
          if owner != session || version != 1 {
            return BadRequest("artifact cursor does not match the session");
          }
      }
    }
    hide TopRows, Candidates;
    var rows := TopRows(Candidates(t, session, Bound(query)), query.limit + 1);
    AnswerIsListed(t, session, Bound(query), query.limit + 1);
    TopRowsIsAnswer(Candidates(t, session, Bound(query)), query.limit + 1);
    hide Descending, Summaries;
    var hasMore := |rows| > query.limit;
    if hasMore {
      assert |rows| == query.limit + 1;
      rows := rows[..|rows| - 1];
    }
    var next := None;
    if hasMore {
      next := Some(Encoded(1, session, rows[|rows| - 1]));
    }
    var artifacts := Summarise(t, session, rows);
    response := Page(artifacts, next);
  }

  /** A cursor given out is accepted when it is sent back for the same session, and resumes right below
      the page's last row. */
  lemma CursorIsAccepted(t: Table, t': Table, session: nat, query: Query, limit: nat)
    requires 1 <= limit <= 100
    requires List(t, session, query).Page? && List(t, session, query).next.Some?
    ensures var page := List(t, session, query);
            var query' := Query(limit, page.next);
            && Refusal(session, query') == None && List(t', session, query').Page?
            && page.artifacts != [] && var last := page.artifacts[|page.artifacts| - 1];
            Bound(query') == Some(Position(last.activity, last.id))
  {
    PageFacts(t, session, Bound(query), query.limit);
  }

  /** A query is refused exactly for a limit outside 1 to 100, or a cursor that is garbled, of another version or
      of another session. */
  lemma RefusedIff(t: Table, session: nat, query: Query)
    ensures List(t, session, query).BadRequest? <==>
            || query.limit < 1 || query.limit > 100
            || (query.cursor.Some? &&
                (query.cursor.value.Garbled? || query.cursor.value.version != 1 || query.cursor.value.session != session))
  {
    hide PageRows;
  }

  /** A row of the session that the query's cursor has not passed yet. */
  predicate IsAhead(t: Table, session: nat, query: Query, key: (nat, nat)) {
    && key in t && key.0 == session
    && (query.cursor.Some? && query.cursor.value.Encoded? ==>
          var last := query.cursor.value.last;
          t[key].activity < last.activity || (t[key].activity == last.activity && key.1 < last.id))
  }

  predicate IsOn(artifacts: seq<Summary>, t: Table, key: (nat, nat))
    requires key in t
  {
    exists i :: 0 <= i < |artifacts| && artifacts[i] == Summary(key.1, t[key].title, t[key].activity)
  }

  lemma AheadIff(t: Table, session: nat, query: Query, key: (nat, nat))
    ensures IsAhead(t, session, query, key) <==> key in t && key.0 == session && Below(At(t, key), Bound(query))
  {
  }

  /** A page with a cursor leaves a row out. */
  lemma LeftOut(t: Table, session: nat, bound: Option<Position>, limit: nat) returns (key: (nat, nat))
    requires limit > 0 && PageRows(t, session, bound, limit).1.Some?
    ensures key in t && key.0 == session && Below(At(t, key), bound) && At(t, key) !in PageRows(t, session, bound, limit).0
  {
    hide TopRows, Less, Below;
    var all := Candidates(t, session, bound);
    var answer := TopRows(all, limit + 1);
    TopRowsIsAnswer(all, limit + 1);
    assert answer[limit] in all;
    key :| key in t && key.0 == session && Below(At(t, key), bound) && At(t, key) == answer[limit];
    hide Candidates;
    forall i | 0 <= i < limit ensures answer[..limit][i] != answer[limit] { IsNotLess(answer[limit], answer[i]); }
  }

  lemma IsNotLess(p: Position, q: Position)
    requires Less(p, q)
    ensures p != q
  {
  }

  lemma ShownAre(t: Table, session: nat, query: Query)
    requires List(t, session, query).Page?
    ensures query.limit > 0
    ensures var (rows, last) := PageRows(t, session, Bound(query), query.limit);
            var page := List(t, session, query);
            && |page.artifacts| == |rows| && (page.next.Some? <==> last.Some?) && Listed(t, session, rows)
            && forall i :: 0 <= i < |rows| ==>
                 page.artifacts[i] == Summary(rows[i].id, t[(session, rows[i].id)].title, rows[i].activity)
  {
    PageFacts(t, session, Bound(query), query.limit);
    hide PageRows;
  }

  /** A page shows rows ahead of its cursor only, as many as the limit allows, and gives a cursor out exactly if
      it leaves any of them out. */
  lemma PageIsFull(t: Table, session: nat, query: Query)
    requires List(t, session, query).Page?
    ensures var page := List(t, session, query);
            && |page.artifacts| <= query.limit && (page.next.Some? ==> |page.artifacts| == query.limit)
            && (forall i :: 0 <= i < |page.artifacts| ==>
                  var key := (session, page.artifacts[i].id);
                  IsAhead(t, session, query, key) && t[key] == Link(page.artifacts[i].activity, page.artifacts[i].title))
            && (page.next.Some? <==> exists key :: IsAhead(t, session, query, key) && !IsOn(page.artifacts, t, key))
  {
    hide PageRows, List, Descending, Below, Less, IsAhead;
    ShownAre(t, session, query);
    var bound, page := Bound(query), List(t, session, query);
    var (rows, last) := PageRows(t, session, bound, query.limit);
    PageFacts(t, session, bound, query.limit);
    forall i | 0 <= i < |rows| ensures IsAhead(t, session, query, (session, rows[i].id)) {
      AheadIff(t, session, query, (session, rows[i].id));
    }
    if last.Some? {
      var key := LeftOut(t, session, bound, query.limit);
      AheadIff(t, session, query, key);
    }
    forall key | IsAhead(t, session, query, key) ensures key in t { AheadIff(t, session, query, key); }
    forall key | key in t && IsAhead(t, session, query, key) && !IsOn(page.artifacts, t, key) ensures last.Some? {
      AheadIff(t, session, query, key);
    }
  }

  /** What a page holds: the greatest rows below the bound; the ones it leaves are below its cursor, and
      without a cursor it leaves none. */
  lemma PageFacts(t: Table, session: nat, bound: Option<Position>, limit: nat)
    requires limit > 0
    ensures var (rows, last) := PageRows(t, session, bound, limit);
            && Descending(rows) && Listed(t, session, rows) && |rows| <= limit
            && (forall i :: 0 <= i < |rows| ==> Below(rows[i], bound))
            && (last.Some? ==> |rows| == limit && last.value == rows[|rows| - 1])
            && forall key :: key in t && key.0 == session && Below(At(t, key), bound) && At(t, key) !in rows ==>
                 last.Some? && Less(At(t, key), last.value)
  {
    hide Candidates, TopRows, IsAnswer, Descending, Listed, Less, Below;
    var all := Candidates(t, session, bound);
    var answer := TopRows(all, limit + 1);
    TopRowsIsAnswer(all, limit + 1);
    AnswerIsListed(t, session, bound, limit + 1);
    AnswerCut(all, limit, answer);
    var (rows, last) := PageRows(t, session, bound, limit);
    ListedCut(t, session, answer, |rows|);
    forall i | 0 <= i < |rows| ensures Below(rows[i], bound) {
      CandidateIsBelow(t, session, bound, rows[i]);
    }
    forall key | key in t && key.0 == session && Below(At(t, key), bound) && At(t, key) !in rows
      ensures last.Some? && Less(At(t, key), last.value)
    {
      RowIsCandidate(t, session, bound, key);
    }
  }

  lemma ListedCut(t: Table, session: nat, rows: seq<Position>, n: nat)
    requires Listed(t, session, rows) && n <= |rows|
    ensures Listed(t, session, rows[..n])
  {
  }

  /** An answer to a query for one row more than the page shows, cut to the page: what it leaves is below
      the page's last row, and there is something left only if the extra row came back. */
  lemma AnswerCut(all: set<Position>, limit: nat, answer: seq<Position>)
    requires limit > 0 && IsAnswer(all, limit + 1, answer)
    ensures var rows := if |answer| > limit then answer[..limit] else answer;
            && Descending(rows) && |rows| <= limit && (forall i :: 0 <= i < |rows| ==> rows[i] in all)
            && forall p :: p in all && p !in rows ==> |answer| > limit && Less(p, rows[limit - 1])
  {
    hide Less;
    var rows := if |answer| > limit then answer[..limit] else answer;
    assert forall k :: 0 <= k < |rows| ==> rows[k] == answer[k] && answer[k] in rows;
    forall p | p in all && p !in rows ensures |answer| > limit && Less(p, rows[limit - 1]) {
      if p in answer {
        var i :| 0 <= i < |answer| && answer[i] == p;
      } else {
        assert |answer| == limit + 1;
        assert answer[limit - 1] in answer;
      }
    }
  }

  lemma CandidateIsBelow(t: Table, session: nat, bound: Option<Position>, p: Position)
    requires p in Candidates(t, session, bound)
    ensures Below(p, bound)
  {
  }

  lemma RowIsCandidate(t: Table, session: nat, bound: Option<Position>, key: (nat, nat))
    requires key in t && key.0 == session && Below(At(t, key), bound)
    ensures At(t, key) in Candidates(t, session, bound)
  {
  }

  // ---- Following the cursors ----

  predicate LimitsFit(tables: seq<Table>, limits: seq<nat>) {
    |limits| == |tables| && forall i :: 0 <= i < |limits| ==> 1 <= limits[i] <= 100
  }

  datatype Fetched = Fetched(artifacts: seq<Summary>, complete: bool)

  /** What a client gets that asks for one page after another with the cursor of the page before, each
      page from the table as it is then, until a page has no cursor or it gives up. */
  function Fetch(tables: seq<Table>, limits: seq<nat>, session: nat, cursor: Option<Cursor>): Fetched
    requires LimitsFit(tables, limits)
    decreases |tables|
  {
    if tables == [] then Fetched([], false)
    else
      match List(tables[0], session, Query(limits[0], cursor))
      case BadRequest(_) => Fetched([], false)
      case Page(artifacts, None) => Fetched(artifacts, true)
      case Page(artifacts, next) =>
        var rest := Fetch(tables[1..], limits[1..], session, next);
        Fetched(artifacts + rest.artifacts, rest.complete)
  }

  function PositionOf(a: Summary): Position {
    Position(a.activity, a.id)
  }

  function Resuming(session: nat, bound: Option<Position>): Option<Cursor> {
    if bound.None? then None else Some(Encoded(1, session, bound.value))
  }

  /** One page and what the client gets after it. */
  lemma FetchStep(tables: seq<Table>, limits: seq<nat>, session: nat, bound: Option<Position>)
    requires LimitsFit(tables, limits) && tables != []
    ensures LimitsFit(tables[1..], limits[1..])
    ensures var (rows, last) := PageRows(tables[0], session, bound, limits[0]);
            Listed(tables[0], session, rows) &&
            Fetch(tables, limits, session, Resuming(session, bound)) ==
            if last.None? then Fetched(Summaries(tables[0], session, rows), true)
            else
              var rest := Fetch(tables[1..], limits[1..], session, Resuming(session, last));
              Fetched(Summaries(tables[0], session, rows) + rest.artifacts, rest.complete)
  {
    PageOf(tables[0], session, bound, limits[0]);
    hide PageRows, List, Summaries;
    var (rows, last) := PageRows(tables[0], session, bound, limits[0]);
    assert tables[1..] == [] ==> |limits[1..]| == 0;
    assert List(tables[0], session, Query(limits[0], Resuming(session, bound))) ==
           Page(Summaries(tables[0], session, rows), Resuming(session, last));
  }

  lemma PageOf(t: Table, session: nat, bound: Option<Position>, limit: nat)
    requires 1 <= limit <= 100
    ensures var (rows, last) := PageRows(t, session, bound, limit);
            Listed(t, session, rows) &&
            List(t, session, Query(limit, Resuming(session, bound))) ==
            Page(Summaries(t, session, rows), Resuming(session, last))
  {
    var query := Query(limit, Resuming(session, bound));
    assert Bound(query) == bound && Refusal(session, query) == None;
    PageFacts(t, session, bound, limit);
    hide PageRows, TopRows, Candidates;
    AnswerIsListed(t, session, bound, limit + 1);
  }

  /** Every artifact delivered was a row of the table its page was read from. */
  lemma {:induction false} FetchedWereRows(tables: seq<Table>, limits: seq<nat>, session: nat, bound: Option<Position>)
    requires LimitsFit(tables, limits)
    ensures forall a :: a in Fetch(tables, limits, session, Resuming(session, bound)).artifacts ==> WasRow(tables, session, a)
    decreases |tables|
  {
    if tables != [] {
      var (rows, last) := PageRows(tables[0], session, bound, limits[0]);
      FetchStep(tables, limits, session, bound);
      hide Fetch, PageRows;
      forall a | a in Summaries(tables[0], session, rows) ensures WasRow(tables, session, a) {
        assert RowOf(tables[0], session, a);
      }
      if last.Some? {
        FetchedWereRows(tables[1..], limits[1..], session, last);
        var rest := Fetch(tables[1..], limits[1..], session, Resuming(session, last)).artifacts;
        forall a | a in rest ensures WasRow(tables, session, a) {
          LaterRow(tables, session, a);
        }
      }
    }
  }

  /** Over all its pages the list descends strictly, from below where the client began. */
  lemma {:induction false} FetchDescends(tables: seq<Table>, limits: seq<nat>, session: nat, bound: Option<Position>)
    requires LimitsFit(tables, limits)
    ensures DescendsBelow(Fetch(tables, limits, session, Resuming(session, bound)).artifacts, bound)
    decreases |tables|
  {
    if tables != [] {
      var (rows, last) := PageRows(tables[0], session, bound, limits[0]);
      PageFacts(tables[0], session, bound, limits[0]);
      FetchStep(tables, limits, session, bound);
      PageDescends(tables[0], session, rows, bound);
      hide Fetch, PageRows, DescendsBelow, Listed, Below, Descending;
      if last.Some? {
        FetchDescends(tables[1..], limits[1..], session, last);
        var rest := Fetch(tables[1..], limits[1..], session, Resuming(session, last)).artifacts;
        DescentsJoin(Summaries(tables[0], session, rows), rest, bound);
      }
    }
  }

  lemma PageDescends(t: Table, session: nat, rows: seq<Position>, bound: Option<Position>)
    requires Listed(t, session, rows) && Descending(rows) && forall i :: 0 <= i < |rows| ==> Below(rows[i], bound)
    ensures DescendsBelow(Summaries(t, session, rows), bound)
    ensures rows != [] ==> PositionOf(Summaries(t, session, rows)[|rows| - 1]) == rows[|rows| - 1]
  {
    hide Less;
    var page := Summaries(t, session, rows);
    assert forall i :: 0 <= i < |page| ==> PositionOf(page[i]) == rows[i];
  }

  predicate DescendsBelow(got: seq<Summary>, bound: Option<Position>) {
    && (forall i :: 0 <= i < |got| ==> Below(PositionOf(got[i]), bound))
    && forall i, j :: 0 <= i < j < |got| ==> Less(PositionOf(got[j]), PositionOf(got[i]))
  }

  lemma DescentsJoin(page: seq<Summary>, rest: seq<Summary>, bound: Option<Position>)
    requires page != [] && DescendsBelow(page, bound)
    requires DescendsBelow(rest, Some(PositionOf(page[|page| - 1])))
    ensures DescendsBelow(page + rest, bound)
  {
    var last := PositionOf(page[|page| - 1]);
    assert Below(last, bound);
    forall j | 0 <= j < |rest| ensures Less(PositionOf(rest[j]), last) {
      assert Below(PositionOf(rest[j]), Some(last));
    }
    forall i | 0 <= i < |page| - 1 ensures Less(last, PositionOf(page[i])) { }
  }

  lemma LaterRow(tables: seq<Table>, session: nat, a: Summary)
    requires tables != [] && WasRow(tables[1..], session, a)
    ensures WasRow(tables, session, a)
  {
    var k :| 0 <= k < |tables[1..]| && RowOf(tables[1..][k], session, a);
    assert tables[k + 1] == tables[1..][k];
  }

  predicate RowOf(t: Table, session: nat, a: Summary) {
    (session, a.id) in t && t[(session, a.id)] == Link(a.activity, a.title)
  }

  ghost predicate WasRow(tables: seq<Table>, session: nat, a: Summary) {
    exists k :: 0 <= k < |tables| && RowOf(tables[k], session, a)
  }

  /** Touching a row only moves it to newer activity. */
  predicate ActivityGrows(tables: seq<Table>) {
    forall j, k, key :: 0 <= j <= k < |tables| && key in tables[j] && key in tables[k] ==>
      tables[j][key].activity <= tables[k][key].activity
  }

  /** No artifact is delivered twice, whatever is added, removed or touched between the pages. */
  lemma {:induction false} NeverTwice(tables: seq<Table>, limits: seq<nat>, session: nat, bound: Option<Position>)
    requires LimitsFit(tables, limits) && ActivityGrows(tables)
    ensures var got := Fetch(tables, limits, session, Resuming(session, bound)).artifacts;
            forall i, j :: 0 <= i < j < |got| ==> got[i].id != got[j].id
    decreases |tables|
  {
    if tables != [] {
      var (rows, last) := PageRows(tables[0], session, bound, limits[0]);
      PageFacts(tables[0], session, bound, limits[0]);
      FetchStep(tables, limits, session, bound);
      hide Fetch, PageRows;
      var page := Summaries(tables[0], session, rows);
      PageIds(tables[0], session, rows);
      hide Descending, Listed, ActivityGrows, DescendsBelow;
      if last.Some? {
        assert ActivityGrows(tables[1..]) by { LaterGrow(tables); }
        NeverTwice(tables[1..], limits[1..], session, last);
        FetchDescends(tables[1..], limits[1..], session, last);
        FetchedWereRows(tables[1..], limits[1..], session, last);
        var rest := Fetch(tables[1..], limits[1..], session, Resuming(session, last)).artifacts;
        forall i, j | 0 <= i < |page| && 0 <= j < |rest| ensures page[i].id != rest[j].id {
          BelowLast(rest, last.value, j);
          NotAgain(tables, session, rows, last.value, i, rest[j]);
        }
      }
    }
  }

  lemma LaterGrow(tables: seq<Table>)
    requires tables != [] && ActivityGrows(tables)
    ensures ActivityGrows(tables[1..])
  {
  }

  lemma BelowLast(rest: seq<Summary>, last: Position, j: nat)
    requires DescendsBelow(rest, Some(last)) && j < |rest|
    ensures Less(PositionOf(rest[j]), last)
  {
    assert Below(PositionOf(rest[j]), Some(last));
  }

  lemma PageIds(t: Table, session: nat, rows: seq<Position>)
    requires Descending(rows) && Listed(t, session, rows)
    ensures forall i, j :: 0 <= i < j < |rows| ==> rows[i].id != rows[j].id
  {
  }

  /** What a later table has below a page's last row is none of the page's rows. */
  lemma NotAgain(tables: seq<Table>, session: nat, rows: seq<Position>, last: Position, i: nat, later: Summary)
    requires tables != [] && ActivityGrows(tables)
    requires Descending(rows) && Listed(tables[0], session, rows) && i < |rows| && last == rows[|rows| - 1]
    requires WasRow(tables[1..], session, later) && Less(PositionOf(later), last)
    ensures rows[i].id != later.id
  {
    var k :| 0 <= k < |tables[1..]| && RowOf(tables[1..][k], session, later);
    assert tables[1..][k] == tables[k + 1];
    assert i < |rows| - 1 ==> Less(last, rows[i]);
  }

  /** A row that stays where it is. */
  predicate Untouched(tables: seq<Table>, key: (nat, nat), p: Position) {
    forall k :: 0 <= k < |tables| ==> key in tables[k] && At(tables[k], key) == p
  }

  predicate Delivered(got: seq<Summary>, p: Position) {
    exists i :: 0 <= i < |got| && PositionOf(got[i]) == p
  }

  /** A client that reaches the end has been given every row that was not touched meanwhile. */
  lemma {:induction false} UntouchedIsDelivered(tables: seq<Table>, limits: seq<nat>, session: nat,
                                                bound: Option<Position>, id: nat, p: Position)
    requires LimitsFit(tables, limits) && Untouched(tables, (session, id), p) && Below(p, bound)
    requires Fetch(tables, limits, session, Resuming(session, bound)).complete
    ensures Delivered(Fetch(tables, limits, session, Resuming(session, bound)).artifacts, p)
    decreases |tables|
  {
    var (rows, last) := PageRows(tables[0], session, bound, limits[0]);
    PageFacts(tables[0], session, bound, limits[0]);
    FetchStep(tables, limits, session, bound);
    var got := Fetch(tables, limits, session, Resuming(session, bound)).artifacts;
    hide Fetch, PageRows;
    assert At(tables[0], (session, id)) == p;
    assert p in rows || (last.Some? && Less(p, last.value));
    hide Descending, Listed, Less;
    if p in rows {
      var i :| 0 <= i < |rows| && rows[i] == p;
      assert PositionOf(got[i]) == p;
    } else {
      UntouchedIsDelivered(tables[1..], limits[1..], session, last, id, p);
      var rest := Fetch(tables[1..], limits[1..], session, Resuming(session, last)).artifacts;
      var i :| 0 <= i < |rest| && PositionOf(rest[i]) == p;
      assert got[|rows| + i] == rest[i];
    }
  }

  /** In a session nobody touches, the pages together are the whole listing, in order. */
  lemma UnchangedIsWhole(tables: seq<Table>, limits: seq<nat>, session: nat, t: Table)
    requires LimitsFit(tables, limits) && forall k :: 0 <= k < |tables| ==> tables[k] == t
    requires Fetch(tables, limits, session, None).complete
    ensures var got := Fetch(tables, limits, session, None).artifacts;
            && (forall i :: 0 <= i < |got| ==> RowOf(t, session, got[i]))
            && (forall key :: key in t && key.0 == session ==> Delivered(got, At(t, key)))
            && forall i, j :: 0 <= i < j < |got| ==> Less(PositionOf(got[j]), PositionOf(got[i]))
  {
    hide Fetch;
    assert Resuming(session, None) == None;
    FetchDescends(tables, limits, session, None);
    FetchedWereRows(tables, limits, session, None);
    var got := Fetch(tables, limits, session, None).artifacts;
    forall i | 0 <= i < |got| ensures RowOf(t, session, got[i]) {
      assert got[i] in got;
    }
    forall key | key in t && key.0 == session
      ensures Delivered(Fetch(tables, limits, session, None).artifacts, At(t, key))
    {
      UntouchedIsDelivered(tables, limits, session, None, key.1, At(t, key));
    }
  }
}
