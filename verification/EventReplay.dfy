/** Replay of a run's event log to a client that may disconnect and reconnect. */
module EventReplay {
  import opened Text
  import Decimal

  const PAGE := 1000

  /** An event as stored; only those visible to the user are replayed. */
  datatype Row = Row(sequence: int, visible: bool, eventType: string, payload: string)

  /** A run's status and event log at one moment. */
  datatype Moment = Moment(status: string, log: seq<Row>)

  /** A listing reads the status, the rows and the latest sequence one after the other, or fails. */
  datatype Read = Failed(message: string) | Read(statusAt: nat, rowsAt: nat, latestAt: nat)

  datatype Snapshot = Snapshot(status: string, events: seq<Row>, latest: int)

  datatype Frame = Frame(id: Option<string>, event: string, data: string)

  /** How a connection ends on the server's side: cut off while waiting, a failed read, or the end of the run. */
  datatype End = Cut | Broken(message: string) | Finished

  datatype Connection = Connection(frames: seq<Frame>, end: End)

  // ---- The event log ----

  function Max(a: int, b: int): int {
    if a < b then b else a
  }

  /** The user's events after `low` and up to `high`, in log order. */
  function Between(log: seq<Row>, low: int, high: int): seq<Row> {
    if log == [] then []
    else
      var r := log[|log| - 1];
      Between(log[..|log| - 1], low, high) + (if r.visible && low < r.sequence <= high then [r] else [])
  }

  function VisibleAfter(log: seq<Row>, low: int): seq<Row> {
    if log == [] then []
    else
      var r := log[|log| - 1];
      VisibleAfter(log[..|log| - 1], low) + (if r.visible && low < r.sequence then [r] else [])
  }

  function Latest(log: seq<Row>): int {
    if log == [] then 0
    else
      var r := log[|log| - 1];
      if r.visible then Max(Latest(log[..|log| - 1]), r.sequence) else Latest(log[..|log| - 1])
  }

  function Page(log: seq<Row>, cursor: int): seq<Row> {
    var rows := VisibleAfter(log, Max(cursor, 0));
    if |rows| <= PAGE then rows else rows[..PAGE]
  }

  function ListRunEvents(history: seq<Moment>, read: Read, cursor: int): Snapshot
    requires read.Read? && read.statusAt < |history| && read.rowsAt < |history| && read.latestAt < |history|
  {
    Snapshot(history[read.statusAt].status, Page(history[read.rowsAt].log, cursor), Latest(history[read.latestAt].log))
  }

  predicate IsTerminal(status: string) {
    status == "completed" || status == "failed" || status == "cancelled"
  }

  /** The run has come to one of its three ends. */
  predicate HasEnded(status: string) {
    status in {"completed", "failed", "cancelled"}
  }

  lemma TerminalIff(status: string)
    ensures IsTerminal(status) <==> HasEnded(status)
  {
  }

  /** Sequence numbers are positive and increase along the log. */
  predicate Increasing(log: seq<Row>) {
    && (forall i :: 0 <= i < |log| ==> 0 < log[i].sequence <= Decimal.I64_MAX)
    && (forall i, j :: 0 <= i < j < |log| ==> log[i].sequence < log[j].sequence)
  }

  /** The log only ever grows at its end. */
  predicate IsHistory(history: seq<Moment>) {
    && (forall i :: 0 <= i < |history| ==> Increasing(history[i].log))
    && (forall i, j :: 0 <= i <= j < |history| ==> history[i].log <= history[j].log)
  }

  /** Nothing is appended once the status is terminal. */
  predicate Sealed(history: seq<Moment>) {
    forall i, j :: 0 <= i <= j < |history| && HasEnded(history[i].status) ==> history[j] == history[i]
  }

  /** The moments of one connection's reads are in order, from `from` to `to`. */
  predicate InOrder(script: seq<Read>, from: nat, to: nat) {
    script == [] ||
    match script[0]
    case Failed(_) => InOrder(script[1..], from, to)
    case Read(status, rows, latest) => from <= status <= rows <= latest <= to && InOrder(script[1..], latest, to)
  }

  // ---- One connection ----

  function StartCursor(after: int, header: Option<string>): int {
    var parsed := if header.Some? then Decimal.ParseI64(header.value) else None;
    Max(Max(after, if parsed.Some? then parsed.value else 0), 0)
  }

  /** A connection starts behind whatever is latest: the query, the client's last identifier, the beginning. */
  lemma StartCursorIs(after: int, header: Option<string>)
    ensures var start, named := StartCursor(after, header),
                                if header.Some? && Decimal.ParseI64(header.value).Some?
                                then Decimal.ParseI64(header.value).value else 0;
            start >= after && start >= named && start >= 0 && (start == after || start == named || start == 0)
  {
  }

  /** A page holds the user's next events, a thousand at the most. */
  lemma PageIs(log: seq<Row>, cursor: int)
    requires 0 <= cursor
    ensures Page(log, cursor) <= VisibleAfter(log, cursor)
    ensures |Page(log, cursor)| == if |VisibleAfter(log, cursor)| < 1000 then |VisibleAfter(log, cursor)| else 1000
  {
  }

  function EventFrame(r: Row): Frame {
    Frame(Some(Decimal.Digits(if r.sequence >= 0 then r.sequence else 0)), r.eventType, r.payload)
  }

  function ErrorFrame(message: string): Frame {
    Frame(None, "error", "run event replay failed: " + message)
  }

  function Frames(rows: seq<Row>): seq<Frame> {
    seq(|rows|, i requires 0 <= i < |rows| => EventFrame(rows[i]))
  }

  function Advanced(cursor: int, rows: seq<Row>): int {
    if rows == [] then cursor else rows[|rows| - 1].sequence
  }

  /** What a connection sends from a cursor on, the reads turning out as in the script. */
  function Replay(history: seq<Moment>, script: seq<Read>, from: nat, cursor: int): Connection
    requires history != [] && InOrder(script, from, |history| - 1)
    decreases |script|
  {
    if script == [] then Connection([], Cut)
    else
      match script[0]
      case Failed(message) => Connection([ErrorFrame(message)], Broken(message))
      case Read(_, _, latest) =>
        var snapshot := ListRunEvents(history, script[0], cursor);
        var cursor' := Advanced(cursor, snapshot.events);
        if IsTerminal(snapshot.status) && snapshot.latest <= cursor' then Connection(Frames(snapshot.events), Finished)
        else
          Before(Frames(snapshot.events), Replay(history, script[1..], latest, cursor'))
  }

  /** Sends a page's events one by one, the cursor following the last one sent. */
  method SendEvents(events: seq<Row>, cursor: int) returns (frames: seq<Frame>, cursor': int)
    ensures frames == Frames(events) && cursor' == Advanced(cursor, events)
  {
    frames, cursor' := [], cursor;
    for k := 0 to |events|
      invariant frames == Frames(events[..k]) && cursor' == Advanced(cursor, events[..k])
    {
      cursor' := events[k].sequence;
      frames := frames + [EventFrame(events[k])];
      assert events[..k + 1] == events[..k] + [events[k]];
    }
    assert events[..|events|] == events;
  }

  /** The server's side of one connection. */
  method StreamEvents(history: seq<Moment>, script: seq<Read>, after: int, header: Option<string>)
      returns (frames: seq<Frame>, end: End)
    requires history != [] && InOrder(script, 0, |history| - 1)
    ensures Connection(frames, end) == Replay(history, script, 0, StartCursor(after, header))
  {
    hide StartCursor, IsTerminal, Frames, Advanced;
    var cursor := StartCursor(after, header);
    frames, end := [], Cut;
    ghost var whole := Replay(history, script, 0, cursor);
    ghost var from: nat := 0;
    assert script[0..] == script;
    for i := 0 to |script|
      invariant InOrder(script[i..], from, |history| - 1)
      invariant whole == Before(frames, Replay(history, script[i..], from, cursor))
    {
      assert script[i..][0] == script[i] && script[i..][1..] == script[i + 1..];
      match script[i] {
        case Failed(message) =>
          frames, end := frames + [ErrorFrame(message)], Broken(message);
          return;
        case Read(_, _, latest) =>
          var snapshot := ListRunEvents(history, script[i], cursor);
          var sent;
          sent, cursor := SendEvents(snapshot.events, cursor);
          frames := frames + sent;
          if IsTerminal(snapshot.status) && cursor >= snapshot.latest {
            end := Finished;
            return;
          }
          from := latest;
      }
    }
  }

  function Before(frames: seq<Frame>, rest: Connection): Connection {
    Connection(frames + rest.frames, rest.end)
  }

  // ---- Stretches of the log ----

  predicate AllUpTo(log: seq<Row>, bound: int) {
    forall i :: 0 <= i < |log| ==> log[i].sequence <= bound
  }

  function Init(log: seq<Row>): seq<Row>
    requires log != []
  {
    log[..|log| - 1]
  }

  function Kept(r: Row, low: int, high: int): seq<Row> {
    if r.visible && low < r.sequence <= high then [r] else []
  }

  lemma InitIncreases(log: seq<Row>)
    requires log != [] && Increasing(log)
    ensures Increasing(Init(log)) && AllUpTo(Init(log), log[|log| - 1].sequence - 1)
  {
  }

  lemma UnfoldBetween(log: seq<Row>, low: int, high: int)
    requires log != []
    ensures Between(log, low, high) == Between(Init(log), low, high) + Kept(log[|log| - 1], low, high)
  {
  }

  lemma {:induction false} BetweenHas(log: seq<Row>, low: int, high: int)
    requires Increasing(log)
    ensures forall r :: r in Between(log, low, high) <==> r in log && r.visible && low < r.sequence <= high
    ensures forall i, j :: 0 <= i < j < |Between(log, low, high)| ==>
              Between(log, low, high)[i].sequence < Between(log, low, high)[j].sequence
  {
    if log != [] {
      InitIncreases(log);
      BetweenHas(Init(log), low, high);
      assert log == Init(log) + [log[|log| - 1]];
    }
  }

  lemma {:induction false} VisibleAfterIsBetween(log: seq<Row>, low: int, high: int)
    requires AllUpTo(log, high)
    ensures VisibleAfter(log, low) == Between(log, low, high)
  {
    if log != [] { VisibleAfterIsBetween(log[..|log| - 1], low, high); }
  }

  lemma {:induction false} BetweenEmpty(log: seq<Row>, low: int, high: int)
    requires AllUpTo(log, low) || high <= low
    ensures Between(log, low, high) == []
  {
    if log != [] { BetweenEmpty(log[..|log| - 1], low, high); }
  }

  /** What is appended after `high` does not matter. */
  lemma {:induction false} BetweenOfPrefix(part: seq<Row>, log: seq<Row>, low: int, high: int)
    requires part <= log && forall i :: |part| <= i < |log| ==> high < log[i].sequence
    ensures Between(part, low, high) == Between(log, low, high)
  {
    if |part| < |log| {
      BetweenOfPrefix(part, log[..|log| - 1], low, high);
    } else {
      assert part == log;
    }
  }

  lemma {:induction false} BetweenSplits(log: seq<Row>, a: int, b: int, c: int)
    requires Increasing(log) && a <= b <= c
    ensures Between(log, a, b) + Between(log, b, c) == Between(log, a, c)
  {
    if log != [] {
      InitIncreases(log);
      BetweenSplits(Init(log), a, b, c);
      if log[|log| - 1].sequence <= b { BetweenEmpty(Init(log), b, c); }
      hide Increasing, Between, AllUpTo, Init;
      UnfoldBetween(log, a, b);
      UnfoldBetween(log, b, c);
      UnfoldBetween(log, a, c);
      var init := Init(log);
      assert log[|log| - 1].sequence > b ==> Kept(log[|log| - 1], a, b) == [];
    }
  }

  /** Cut after its k-th event, a stretch is the stretch up to that event. */
  lemma {:induction false} BetweenCut(log: seq<Row>, low: int, high: int, k: nat)
    requires Increasing(log) && k <= |Between(log, low, high)|
    ensures Between(log, low, high)[..k] == Between(log, low, Advanced(low, Between(log, low, high)[..k]))
  {
    var rows := Between(log, low, high);
    if k == 0 {
      BetweenEmpty(log, low, low);
    } else if log != [] {
      InitIncreases(log);
      UnfoldBetween(log, low, high);
      if k <= |Between(Init(log), low, high)| {
        BetweenCut(Init(log), low, high, k);
        AdvancedIsWithin(Init(log), low, high, k);
        hide Between, Increasing, Init, AllUpTo;
        assert rows[..k] == Between(Init(log), low, high)[..k];
        UnfoldBetween(log, low, Advanced(low, rows[..k]));
      } else {
        WholeStretch(log, low, high);
      }
    }
  }

  /** A stretch that reaches the log's last event ends there. */
  lemma WholeStretch(log: seq<Row>, low: int, high: int)
    requires log != [] && Increasing(log) && Kept(log[|log| - 1], low, high) != []
    ensures var rows := Between(log, low, high);
            rows != [] && rows == Between(log, low, rows[|rows| - 1].sequence)
  {
    var top := log[|log| - 1].sequence;
    InitIncreases(log);
    VisibleAfterIsBetween(Init(log), low, top);
    VisibleAfterIsBetween(Init(log), low, high);
    hide Between, Increasing, Init, AllUpTo;
    UnfoldBetween(log, low, high);
    UnfoldBetween(log, low, top);
  }

  lemma AdvancedIsWithin(log: seq<Row>, low: int, high: int, k: nat)
    requires Increasing(log) && k <= |Between(log, low, high)|
    ensures var to := Advanced(low, Between(log, low, high)[..k]);
            low <= to && (k > 0 ==> low < to <= high && exists i :: 0 <= i < |log| && log[i].sequence == to)
  {
    BetweenHas(log, low, high);
    if k > 0 {
      assert Between(log, low, high)[k - 1] in Between(log, low, high);
    }
  }

  /** A page read at any moment is the stretch of every later log up to the page's last event. */
  lemma PageIsBetween(part: seq<Row>, log: seq<Row>, cursor: int)
    requires Increasing(log) && part <= log && 0 <= cursor
    ensures var to := Advanced(cursor, Page(part, cursor)); cursor <= to && Page(part, cursor) == Between(log, cursor, to)
  {
    var high := Decimal.I64_MAX;
    VisibleAfterIsBetween(part, cursor, high);
    var rows := VisibleAfter(part, cursor);
    var k := if |rows| <= PAGE then |rows| else PAGE;
    assert Page(part, cursor) == rows[..k];
    BetweenCut(part, cursor, high, k);
    AdvancedIsWithin(part, cursor, high, k);
    var to := Advanced(cursor, rows[..k]);
    if k > 0 {
      BetweenOfPrefix(part, log, cursor, to);
    } else {
      BetweenEmpty(log, cursor, cursor);
    }
  }

  // ---- What one connection sends ----

  /** The server's cursor at the end of a connection. */
  function EndCursor(history: seq<Moment>, script: seq<Read>, from: nat, cursor: int): int
    requires history != [] && InOrder(script, from, |history| - 1)
    decreases |script|
  {
    if script == [] || script[0].Failed? then cursor
    else
      var snapshot := ListRunEvents(history, script[0], cursor);
      var cursor' := Advanced(cursor, snapshot.events);
      if IsTerminal(snapshot.status) && snapshot.latest <= cursor' then cursor'
      else EndCursor(history, script[1..], script[0].latestAt, cursor')
  }

  function Closing(end: End): seq<Frame> {
    if end.Broken? then [ErrorFrame(end.message)] else []
  }

  function FinalLog(history: seq<Moment>): seq<Row>
    requires history != []
  {
    history[|history| - 1].log
  }

  lemma FramesConcat(a: seq<Row>, b: seq<Row>)
    ensures Frames(a + b) == Frames(a) + Frames(b)
  {
  }

  lemma {:induction false} CursorAdvances(history: seq<Moment>, script: seq<Read>, from: nat, cursor: int)
    requires IsHistory(history) && history != [] && InOrder(script, from, |history| - 1) && 0 <= cursor
    ensures cursor <= EndCursor(history, script, from, cursor)
    decreases |script|
  {
    hide Increasing, Page, Between, Advanced;
    if script != [] && script[0].Read? {
      var part := history[script[0].rowsAt].log;
      PageIsBetween(part, FinalLog(history), cursor);
      CursorAdvances(history, script[1..], script[0].latestAt, Advanced(cursor, Page(part, cursor)));
    }
  }

  /** A connection sends exactly the events between its first and its last cursor, in order, followed by
      an error if a read failed: none is left out, repeated or sent early, however the log grows. */
  lemma {:induction false} ConnectionDelivers(history: seq<Moment>, script: seq<Read>, from: nat, cursor: int)
    requires IsHistory(history) && history != [] && InOrder(script, from, |history| - 1) && 0 <= cursor
    ensures var sent := Replay(history, script, from, cursor);
            sent.frames ==
            Frames(Between(FinalLog(history), cursor, EndCursor(history, script, from, cursor))) + Closing(sent.end)
    decreases |script|
  {
    hide Increasing, Page, Between, Advanced, IsTerminal, Frames;
    var log := FinalLog(history);
    BetweenIsEmpty(log, cursor);
    if script != [] && script[0].Read? {
      var part := history[script[0].rowsAt].log;
      PageIsBetween(part, log, cursor);
      var cursor' := Advanced(cursor, Page(part, cursor));
      ConnectionDelivers(history, script[1..], script[0].latestAt, cursor');
      CursorAdvances(history, script[1..], script[0].latestAt, cursor');
      var end := EndCursor(history, script[1..], script[0].latestAt, cursor');
      BetweenSplits(log, cursor, cursor', end);
      FramesConcat(Between(log, cursor, cursor'), Between(log, cursor', end));
    }
  }

  lemma BetweenIsEmpty(log: seq<Row>, cursor: int)
    ensures Between(log, cursor, cursor) == [] && Frames(Between(log, cursor, cursor)) == []
  {
    BetweenEmpty(log, cursor, cursor);
  }

  lemma {:induction false} LatestIsLast(log: seq<Row>)
    ensures forall i :: 0 <= i < |log| && log[i].visible ==> log[i].sequence <= Latest(log)
  {
    if log != [] { LatestIsLast(log[..|log| - 1]); }
  }

  /** The stream ends by itself only on a terminal status, and then its cursor is past every event
      that was in the log when the latest sequence was read. */
  lemma {:induction false} NormalEnd(history: seq<Moment>, script: seq<Read>, from: nat, cursor: int)
    requires IsHistory(history) && history != [] && InOrder(script, from, |history| - 1)
    requires Replay(history, script, from, cursor).end.Finished?
    ensures exists i, j :: 0 <= i <= j < |history| && HasEnded(history[i].status) &&
              Latest(history[j].log) <= EndCursor(history, script, from, cursor)
    decreases |script|
  {
    hide IsHistory, IsTerminal, HasEnded, Page, Advanced, Latest;
    var snapshot := ListRunEvents(history, script[0], cursor);
    var cursor' := Advanced(cursor, snapshot.events);
    TerminalIff(snapshot.status);
    if !(IsTerminal(snapshot.status) && snapshot.latest <= cursor') {
      NormalEnd(history, script[1..], script[0].latestAt, cursor');
    }
  }

  /** A normal end means that every event of the finished run has been sent. */
  lemma NormalEndIsComplete(history: seq<Moment>, script: seq<Read>, cursor: int)
    requires IsHistory(history) && history != [] && InOrder(script, 0, |history| - 1) && 0 <= cursor
    requires Sealed(history) && Replay(history, script, 0, cursor).end.Finished?
    ensures HasEnded(history[|history| - 1].status)
    ensures Replay(history, script, 0, cursor).frames == Frames(VisibleAfter(FinalLog(history), cursor))
  {
    NormalEnd(history, script, 0, cursor);
    ConnectionDelivers(history, script, 0, cursor);
    var end := EndCursor(history, script, 0, cursor);
    hide HasEnded;
    var i, j :| 0 <= i <= j < |history| && HasEnded(history[i].status) && Latest(history[j].log) <= end;
    assert history[j] == history[i] && history[|history| - 1] == history[i];
    LatestIsLast(FinalLog(history));
    AllDelivered(FinalLog(history), cursor, end);
  }

  lemma {:induction false} AllDelivered(log: seq<Row>, low: int, high: int)
    requires forall i :: 0 <= i < |log| && log[i].visible ==> log[i].sequence <= high
    ensures Between(log, low, high) == VisibleAfter(log, low)
  {
    if log != [] { AllDelivered(log[..|log| - 1], low, high); }
  }

  // ---- Across reconnects ----

  /** One connection as the client sees it: it takes this many frames before it is cut off. */
  datatype Attempt = Attempt(script: seq<Read>, taken: nat)

  predicate AttemptsFit(history: seq<Moment>, attempts: seq<Attempt>) {
    history != [] && forall i :: 0 <= i < |attempts| ==> InOrder(attempts[i].script, 0, |history| - 1)
  }

  /** A client sends Last-Event-ID unless the last identifier it has seen is empty. */
  function Header(lastId: string): Option<string> {
    if lastId == "" then None else Some(lastId)
  }

  function LastId(frames: seq<Frame>, lastId: string): string {
    if frames == [] then lastId
    else
      var f := frames[|frames| - 1];
      if f.id.Some? then f.id.value else LastId(frames[..|frames| - 1], lastId)
  }

  /** The frames that carry an event of the log. */
  function Events(frames: seq<Frame>): seq<Frame> {
    if frames == [] then []
    else
      var f := frames[|frames| - 1];
      Events(frames[..|frames| - 1]) + (if f.id.Some? then [f] else [])
  }

  function Received(history: seq<Moment>, a: Attempt, cursor: int): seq<Frame>
    requires history != [] && InOrder(a.script, 0, |history| - 1)
  {
    var frames := Replay(history, a.script, 0, cursor).frames;
    if a.taken < |frames| then frames[..a.taken] else frames
  }

  /** Everything the client receives over its connections, each resuming after the last identifier. */
  function Follow(history: seq<Moment>, after: int, lastId: string, attempts: seq<Attempt>): seq<Frame>
    requires AttemptsFit(history, attempts)
    decreases |attempts|
  {
    if attempts == [] then []
    else
      var got := Received(history, attempts[0], StartCursor(after, Header(lastId)));
      got + Follow(history, after, LastId(got, lastId), attempts[1..])
  }

  lemma {:induction false} EventsOfFrames(rows: seq<Row>, lastId: string)
    ensures Events(Frames(rows)) == Frames(rows)
    ensures LastId(Frames(rows), lastId) ==
            if rows == [] then lastId else EventFrame(rows[|rows| - 1]).id.value
  {
    if rows != [] {
      var last := |rows| - 1;
      assert Frames(rows)[..last] == Frames(rows[..last]);
      EventsOfFrames(rows[..last], lastId);
    }
  }

  lemma {:induction false} EventsConcat(a: seq<Frame>, b: seq<Frame>, lastId: string)
    ensures Events(a + b) == Events(a) + Events(b)
    ensures LastId(a + b, lastId) == LastId(b, LastId(a, lastId))
  {
    if b == [] {
      assert a + b == a;
    } else {
      var last := |b| - 1;
      assert (a + b)[..|a + b| - 1] == a + b[..last];
      EventsConcat(a, b[..last], lastId);
    }
  }

  lemma LogInRange(log: seq<Row>)
    requires Increasing(log)
    ensures forall i :: 0 <= i < |log| ==> 0 < log[i].sequence <= Decimal.I64_MAX
  {
  }

  /** The identifier of the last event received brings the cursor back to that event. */
  lemma ResumesAfterLast(after: int, lastId: string, log: seq<Row>, high: int, k: nat)
    requires Increasing(log) && k <= |Between(log, StartCursor(after, Header(lastId)), high)|
    ensures var low := StartCursor(after, Header(lastId));
            var rows := Between(log, low, high)[..k];
            StartCursor(after, Header(LastId(Frames(rows), lastId))) == Advanced(low, rows)
  {
    hide Between, LastId, Frames, Increasing, Decimal.ParseI64, Decimal.Digits;
    var low := StartCursor(after, Header(lastId));
    var rows := Between(log, low, high)[..k];
    EventsOfFrames(rows, lastId);
    AdvancedIsWithin(log, low, high, k);
    LogInRange(log);
    if rows != [] {
      Decimal.PrintedReadsBack(rows[|rows| - 1].sequence);
    }
  }

  /** One connection hands the client exactly the events between the cursor it resumed from and the one
      it will resume from next. */
  lemma ReceivedIsBetween(history: seq<Moment>, after: int, lastId: string, a: Attempt)
    requires IsHistory(history) && history != [] && InOrder(a.script, 0, |history| - 1)
    ensures var low := StartCursor(after, Header(lastId));
            var got := Received(history, a, low);
            var high := StartCursor(after, Header(LastId(got, lastId)));
            low <= high && Events(got) == Frames(Between(FinalLog(history), low, high))
  {
    var low, log := StartCursor(after, Header(lastId)), FinalLog(history);
    var sent := Replay(history, a.script, 0, low);
    ConnectionDelivers(history, a.script, 0, low);
    hide Replay, Between, Increasing, StartCursor, EndCursor;
    var end := EndCursor(history, a.script, 0, low);
    var rows := Between(log, low, end);
    var got := Received(history, a, low);
    var k := if |got| <= |rows| then |got| else |rows|;
    CutOff(rows, Closing(sent.end), got, k, lastId);
    assert Increasing(log);
    ResumesAfterLast(after, lastId, log, end, k);
    BetweenCut(log, low, end, k);
    AdvancedIsWithin(log, low, end, k);
  }

  lemma CutOff(rows: seq<Row>, closing: seq<Frame>, got: seq<Frame>, k: nat, lastId: string)
    requires |closing| <= 1 && (closing != [] ==> closing[0].id.None?)
    requires got <= Frames(rows) + closing && k == if |got| <= |rows| then |got| else |rows|
    ensures Events(got) == Frames(rows[..k]) && LastId(got, lastId) == LastId(Frames(rows[..k]), lastId)
  {
    hide Events, LastId, Frames;
    EventsOfFrames(rows[..k], lastId);
    FramesCut(rows, k);
    if |got| <= |rows| {
      assert got == Frames(rows)[..k];
    } else {
      assert rows[..k] == rows && got == Frames(rows) + closing;
      EventsConcat(Frames(rows), closing, lastId);
      NoEvent(closing[0], LastId(Frames(rows), lastId));
      assert closing == [closing[0]];
    }
  }

  lemma FramesCut(rows: seq<Row>, k: nat)
    requires k <= |rows|
    ensures |Frames(rows)| == |rows| && Frames(rows)[..k] == Frames(rows[..k])
  {
    hide EventFrame;
  }

  lemma NoEvent(f: Frame, lastId: string)
    requires f.id.None?
    ensures Events([f]) == [] && LastId([f], lastId) == lastId
  {
    assert [f][..0] == [];
  }

  /** However often the client reconnects and wherever each connection is cut off, it receives exactly
      the events between where it began and where it would resume. */
  lemma {:induction false} FollowDelivers(history: seq<Moment>, after: int, lastId: string, attempts: seq<Attempt>)
    requires IsHistory(history) && AttemptsFit(history, attempts)
    ensures var low := StartCursor(after, Header(lastId));
            var got := Follow(history, after, lastId, attempts);
            var high := StartCursor(after, Header(LastId(got, lastId)));
            low <= high && Events(got) == Frames(Between(FinalLog(history), low, high))
    decreases |attempts|
  {
    hide Increasing, Between, StartCursor, Received, InOrder, Frames, LastId, Events;
    var low, log := StartCursor(after, Header(lastId)), FinalLog(history);
    if attempts == [] {
      NothingReceived(log, low, lastId);
    } else {
      var got := Received(history, attempts[0], low);
      ReceivedIsBetween(history, after, lastId, attempts[0]);
      var middle := StartCursor(after, Header(LastId(got, lastId)));
      FollowDelivers(history, after, LastId(got, lastId), attempts[1..]);
      var rest := Follow(history, after, LastId(got, lastId), attempts[1..]);
      EventsConcat(got, rest, lastId);
      var high := StartCursor(after, Header(LastId(rest, LastId(got, lastId))));
      BetweenSplits(log, low, middle, high);
      FramesConcat(Between(log, low, middle), Between(log, middle, high));
    }
  }

  lemma NothingReceived(log: seq<Row>, low: int, lastId: string)
    ensures Events([]) == Frames(Between(log, low, low)) && LastId([], lastId) == lastId
  {
    BetweenIsEmpty(log, low);
  }

  function SequenceOf(f: Frame): int {
    var parsed := if f.id.Some? then Decimal.ParseI64(f.id.value) else None;
    if parsed.Some? then parsed.value else 0
  }

  /** So over all its connections the client sees every event of the log in that range exactly once, by
      increasing sequence number. */
  lemma EveryEventOnce(history: seq<Moment>, after: int, lastId: string, attempts: seq<Attempt>)
    requires IsHistory(history) && AttemptsFit(history, attempts)
    ensures var low := StartCursor(after, Header(lastId));
            var got := Follow(history, after, lastId, attempts);
            var high := StartCursor(after, Header(LastId(got, lastId)));
            && (forall i, j :: 0 <= i < j < |Events(got)| ==> SequenceOf(Events(got)[i]) < SequenceOf(Events(got)[j]))
            && (forall r :: r in FinalLog(history) && r.visible ==>
                  r.sequence > 0 &&
                  (Frame(Some(Decimal.Digits(r.sequence)), r.eventType, r.payload) in Events(got) <==>
                   low < r.sequence <= high))
  {
    var low := StartCursor(after, Header(lastId));
    var got := Follow(history, after, lastId, attempts);
    var high := StartCursor(after, Header(LastId(got, lastId)));
    FollowDelivers(history, after, lastId, attempts);
    FramesOnce(FinalLog(history), low, high);
  }

  lemma FramesOnce(log: seq<Row>, low: int, high: int)
    requires Increasing(log)
    ensures var frames := Frames(Between(log, low, high));
            && (forall i, j :: 0 <= i < j < |frames| ==> SequenceOf(frames[i]) < SequenceOf(frames[j]))
            && (forall r :: r in log && r.visible ==>
                  r.sequence > 0 && EventFrame(r) == Frame(Some(Decimal.Digits(r.sequence)), r.eventType, r.payload) &&
                  (EventFrame(r) in frames <==> low < r.sequence <= high))
  {
    var rows := Between(log, low, high);
    BetweenHas(log, low, high);
    forall r | r in log ensures SequenceOf(EventFrame(r)) == r.sequence {
      Decimal.PrintedReadsBack(r.sequence);
    }
    forall i | 0 <= i < |rows| ensures SequenceOf(Frames(rows)[i]) == rows[i].sequence {
      assert rows[i] in rows;
    }
    forall r | r in log && r.visible ensures EventFrame(r) in Frames(rows) <==> low < r.sequence <= high {
      if r in rows {
        var i :| 0 <= i < |rows| && rows[i] == r;
        assert Frames(rows)[i] == EventFrame(r);
      }
      if EventFrame(r) in Frames(rows) {
        var i :| 0 <= i < |rows| && Frames(rows)[i] == EventFrame(r);
        assert rows[i] in rows && rows[i].sequence == r.sequence;
      }
    }
  }

  // ---- The end of a run ----

  lemma {:induction false} LatestWithin(log: seq<Row>, low: int)
    requires VisibleAfter(log, low) == [] && 0 <= low
    ensures Latest(log) <= low
  {
    if log != [] { LatestWithin(log[..|log| - 1], low); }
  }

  lemma PageLeaves(log: seq<Row>, cursor: int)
    requires Increasing(log) && 0 <= cursor
    ensures var to := Advanced(cursor, Page(log, cursor));
            cursor <= to && |Page(log, cursor)| + |VisibleAfter(log, to)| == |VisibleAfter(log, cursor)|
  {
    var to := Advanced(cursor, Page(log, cursor));
    var top := Max(to, Decimal.I64_MAX);
    PageIsBetween(log, log, cursor);
    VisibleAfterIsBetween(log, cursor, top);
    VisibleAfterIsBetween(log, to, top);
    BetweenSplits(log, cursor, to, top);
  }

  /** Once the run is over, a connection left alone ends by itself after at most one read for every
      thousand events still to be sent. */
  lemma {:induction false} ReplayFinishes(history: seq<Moment>, script: seq<Read>, from: nat, cursor: int)
    requires IsHistory(history) && history != [] && InOrder(script, from, |history| - 1) && 0 <= cursor
    requires Sealed(history) && from < |history| && HasEnded(history[from].status)
    requires script != [] && forall i :: 0 <= i < |script| ==> script[i].Read?
    requires |VisibleAfter(history[from].log, cursor)| <= 1000 * |script|
    ensures Replay(history, script, from, cursor).end.Finished?
    decreases |script|
  {
    var log := history[from].log;
    var read := script[0];
    assert history[read.statusAt] == history[read.rowsAt] == history[read.latestAt] == history[from];
    PageLeaves(log, cursor);
    var to := Advanced(cursor, Page(log, cursor));
    TerminalIff(history[from].status);
    hide IsHistory, Increasing, VisibleAfter, Advanced, IsTerminal, HasEnded;
    if VisibleAfter(log, to) == [] {
      LatestWithin(log, to);
    } else {
      assert |Page(log, cursor)| == PAGE;
      ReplayFinishes(history, script[1..], read.latestAt, to);
    }
  }

  lemma {:induction false} FollowAppend(history: seq<Moment>, after: int, lastId: string, attempts: seq<Attempt>, more: seq<Attempt>)
    requires AttemptsFit(history, attempts) && AttemptsFit(history, more)
    ensures AttemptsFit(history, attempts + more)
    ensures var got := Follow(history, after, lastId, attempts);
            Follow(history, after, lastId, attempts + more) == got + Follow(history, after, LastId(got, lastId), more)
    decreases |attempts|
  {
    hide InOrder, Received, StartCursor;
    if attempts == [] {
      assert attempts + more == more;
    } else {
      var got := Received(history, attempts[0], StartCursor(after, Header(lastId)));
      assert (attempts + more)[1..] == attempts[1..] + more;
      FollowAppend(history, after, LastId(got, lastId), attempts[1..], more);
      EventsConcat(got, Follow(history, after, LastId(got, lastId), attempts[1..]), lastId);
    }
  }

  lemma {:induction false} BetweenAtMost(log: seq<Row>, low: int, high: int)
    ensures |Between(log, low, high)| <= |VisibleAfter(log, low)|
  {
    if log != [] { BetweenAtMost(log[..|log| - 1], low, high); }
  }

  /** Once some connection has been followed to its normal end, the client has every event of the finished
      run after the cursor it began with, and whatever it reconnects to afterwards brings no more. */
  lemma EndIsCompleteForGood(history: seq<Moment>, after: int, lastId: string,
                             attempts: seq<Attempt>, last: Attempt, more: seq<Attempt>)
    requires IsHistory(history) && Sealed(history)
    requires AttemptsFit(history, attempts) && AttemptsFit(history, [last]) && AttemptsFit(history, more)
    requires var low := StartCursor(after, Header(LastId(Follow(history, after, lastId, attempts), lastId)));
             InOrder(last.script, 0, |history| - 1) && Replay(history, last.script, 0, low).end.Finished? &&
             |Replay(history, last.script, 0, low).frames| <= last.taken
    ensures AttemptsFit(history, attempts + [last] + more)
    ensures Events(Follow(history, after, lastId, attempts + [last] + more)) ==
            Frames(VisibleAfter(FinalLog(history), StartCursor(after, Header(lastId))))
  {
    var log, start := FinalLog(history), StartCursor(after, Header(lastId));
    var early := Follow(history, after, lastId, attempts);
    var id := LastId(early, lastId);
    var low := StartCursor(after, Header(id));
    assert [last][1..] == [];
    FollowAppend(history, after, lastId, attempts, [last]);
    FollowAppend(history, after, lastId, attempts + [last], more);
    FollowDelivers(history, after, lastId, attempts);
    NormalEndIsComplete(history, last.script, low);
    var until := Follow(history, after, lastId, attempts + [last]);
    var final := Replay(history, last.script, 0, low).frames;
    FollowOne(history, after, id, last);
    var rest := Follow(history, after, LastId(until, lastId), more);
    FollowDelivers(history, after, lastId, attempts + [last] + more);
    hide Follow, Replay, InOrder, Between, VisibleAfter, StartCursor, IsHistory, Sealed, LastId, AttemptsFit;
    assert until == early + final;
    EventsConcat(early, final, lastId);
    EventsOfFrames(VisibleAfter(log, low), lastId);
    EventsConcat(until, rest, lastId);
    var high := StartCursor(after, Header(LastId(until + rest, lastId)));
    assert Increasing(log) by { assert IsHistory(history); IncreasingFinal(history); }
    StretchIsWhole(log, start, low, high, Events(rest));
  }

  lemma IncreasingFinal(history: seq<Moment>)
    requires IsHistory(history) && history != []
    ensures Increasing(FinalLog(history))
  {
  }

  lemma FollowOne(history: seq<Moment>, after: int, lastId: string, a: Attempt)
    requires AttemptsFit(history, [a]) && InOrder(a.script, 0, |history| - 1)
    requires |Replay(history, a.script, 0, StartCursor(after, Header(lastId))).frames| <= a.taken
    ensures Follow(history, after, lastId, [a]) == Replay(history, a.script, 0, StartCursor(after, Header(lastId))).frames
  {
    hide InOrder, StartCursor;
    assert [a][1..] == [];
  }

  lemma StretchIsWhole(log: seq<Row>, start: int, low: int, high: int, rest: seq<Frame>)
    requires Increasing(log) && start <= low
    requires Frames(Between(log, start, low)) + Frames(VisibleAfter(log, low)) + rest == Frames(Between(log, start, high))
    ensures Frames(Between(log, start, high)) == Frames(VisibleAfter(log, start))
  {
    var top := Max(low, Decimal.I64_MAX);
    VisibleAfterIsBetween(log, low, top);
    VisibleAfterIsBetween(log, start, top);
    BetweenSplits(log, start, low, top);
    BetweenAtMost(log, start, high);
    hide Between, VisibleAfter, Increasing;
    FramesConcat(Between(log, start, low), VisibleAfter(log, low));
    var whole := Frames(VisibleAfter(log, start));
    assert whole + rest == Frames(Between(log, start, high));
    assert |whole| + |rest| <= |whole|;
    assert rest == [];
  }
}
