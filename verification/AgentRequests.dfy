/** Which of a turn's provider requests are repeated, and what becomes of the last one. */
module AgentRequests {
  import opened Text
  import opened TurnState
  import opened AgentLoop

  // ---- Streams ----

  /** The first so many items are deltas, and no more. */
  predicate Breaks(items: seq<Item>, n: nat) {
    && n <= |items| && (forall i :: 0 <= i < n ==> items[i].Delta?)
    && (n < |items| ==> !items[n].Delta?)
  }

  function DeltasOf(items: seq<Item>, n: nat): seq<StreamDelta>
    requires Breaks(items, n)
  {
    seq(n, i requires 0 <= i < n => items[i].delta)
  }

  /** A stream yields its leading deltas, and the first item that is none tells how it stops. */
  lemma {:induction false} ConsumedAre(items: seq<Item>, n: nat)
    requires Breaks(items, n)
    ensures Consume(items).deltas == DeltasOf(items, n)
    ensures n == |items| ==> Consume(items).stop == Completed
    ensures n < |items| ==> Consume(items).stop == if items[n].Broke? then BrokeOff(items[n].error) else Cut
  {
    if n > 0 {
      ConsumedAre(items[1..], n - 1);
      assert DeltasOf(items, n) == [items[0].delta] + DeltasOf(items[1..], n - 1);
    }
  }

  lemma {:induction false} ShownConcat(a: seq<StreamDelta>, b: seq<StreamDelta>)
    ensures DisplayAll(a + b) == DisplayAll(a) + DisplayAll(b)
  {
    hide DisplayAll;
    if b == [] {
      assert a + b == a;
      NothingShown();
    } else {
      var front, d := b[..|b| - 1], b[|b| - 1];
      ShownConcat(a, front);
      DisplaySnoc(a + front, d);
      DisplaySnoc(front, d);
      assert a + b == (a + front) + [d] && b == front + [d];
    }
  }

  lemma NothingShown()
    ensures DisplayAll([]) == []
  {
  }

  /** Of the deltas the run shows the texts and the reasonings, one event each, in order. */
  lemma ShownAre(a: seq<StreamDelta>, b: seq<StreamDelta>, d: StreamDelta)
    ensures DisplayAll(a + b) == DisplayAll(a) + DisplayAll(b)
    ensures DisplayAll([d]) ==
            if d.Text? then [TextDelta(d.text)] else if d.Reasoning? then [ReasoningDelta(d.text)] else []
  {
    ShownConcat(a, b);
    DisplaySnoc([], d);
    assert [] + [d] == [d];
  }

  // ---- Single requests ----

  predicate IsTransient(e: ProviderError) {
    e.RateLimited? || e.Network? || e.StreamEnded? || (e.HttpStatus? && e.status in {408, 425, 500, 502, 503, 504})
  }

  /** The first waits double from one second; the sixth and any that the provider asks for are at most 30. */
  function Delay(e: ProviderError, retryIndex: nat): nat {
    if e.RateLimited? && e.retryAfter.Some? then
      if e.retryAfter.value <= 30 then e.retryAfter.value else 30
    else if retryIndex < 5 then Doubled(retryIndex)
    else 30
  }

  function Doubled(k: nat): nat {
    if k == 0 then 1 else 2 * Doubled(k - 1)
  }

  lemma DoubledAre()
    ensures Doubled(0) == 1 && Doubled(1) == 2 && Doubled(2) == 4 && Doubled(3) == 8 && Doubled(4) == 16
  {
    assert Doubled(2) == 4;
    assert Doubled(4) == 16;
  }

  /** Exactly the transient errors are retried, at most six times in all. */
  lemma RetryIff(e: ProviderError, retryIndex: nat)
    ensures FastRetry(e, retryIndex).Some? <==> IsTransient(e) && retryIndex < 6
    ensures FastRetry(e, retryIndex).Some? ==> FastRetry(e, retryIndex).value == Delay(e, retryIndex)
    ensures IsRetryable(e) <==> IsTransient(e)
  {
    DoubledAre();
  }

  /** The error of a request that failed before its first delta. */
  function Stumble(attempt: Attempt): Option<ProviderError> {
    match attempt
    case CancelledInRequest => None
    case Refused(e, _) => Some(e)
    case Opened(items, _) => if items != [] && items[0].Broke? then Some(items[0].error) else None
  }

  /** The request is made once more: it stumbled over a transient error, a retry is left, and no cancellation
      comes while the run waits for it. */
  predicate Repeats(attempt: Attempt, retryIndex: nat) {
    && Stumble(attempt).Some? && IsTransient(Stumble(attempt).value) && retryIndex < 6
    && !attempt.cancelledInWait
  }

  lemma RepeatsIff(attempt: Attempt, retryIndex: nat)
    ensures TryOnce(attempt, retryIndex).RetryAfter? <==> Repeats(attempt, retryIndex)
    ensures Repeats(attempt, retryIndex) ==> TryOnce(attempt, retryIndex).delay == Delay(Stumble(attempt).value, retryIndex)
  {
    hide FastRetry, IsTransient, Delay, IsRetryable, DisplayAll;
    if Stumble(attempt).Some? { RetryIff(Stumble(attempt).value, retryIndex); }
    if attempt.Opened? { BreaksSomewhere(attempt.items); }
  }

  lemma BreaksSomewhere(items: seq<Item>)
    ensures Consume(items).deltas == [] && Consume(items).stop.BrokeOff? <==> items != [] && items[0].Broke?
    ensures Consume(items).deltas == [] && Consume(items).stop.BrokeOff? ==> Consume(items).stop.error == items[0].error
  {
  }

  /** A last request that stumbled: a cancelled wait cuts the turn off; a transient error leaves the provider
      unavailable; any other fails the turn. Nothing has been shown. */
  lemma StumbledEnd(attempt: Attempt, retryIndex: nat)
    requires !Repeats(attempt, retryIndex) && Stumble(attempt).Some?
    ensures var e, r := Stumble(attempt).value, TryOnce(attempt, retryIndex);
            var waits := IsTransient(e) && retryIndex < 6;
            r == Settled(Requested([], if waits then CutOff(attempt.Opened?)
                                       else if IsTransient(e) then Unavailable
                                       else Failed(if attempt.Opened? then StreamBroken else ProviderFailed),
                                   1, if waits then Delay(e, retryIndex) else 0))
  {
    hide FastRetry, IsTransient, Delay, IsRetryable;
    RetryIff(Stumble(attempt).value, retryIndex);
    if attempt.Opened? { BreaksSomewhere(attempt.items); }
  }

  /** A request cancelled before it was answered cuts the turn off before it counts; one that streams shows its
      leading deltas and finishes the turn with them, unless an error or a cancellation comes behind them. */
  lemma AnsweredEnd(attempt: Attempt, retryIndex: nat, n: nat)
    requires Stumble(attempt).None?
    requires attempt.Opened? ==> Breaks(attempt.items, n)
    ensures attempt.CancelledInRequest? ==> TryOnce(attempt, retryIndex) == Settled(Requested([], CutOff(false), 1, 0))
    ensures attempt.Opened? ==>
              var deltas := DeltasOf(attempt.items, n);
              TryOnce(attempt, retryIndex) ==
              Settled(Requested(DisplayAll(deltas),
                                if n == |attempt.items| then Finished(deltas)
                                else if attempt.items[n].Broke? then Failed(StreamBroken) else CutOff(true), 1, 0))
  {
    hide FastRetry, DeltasOf, IsRetryable, DisplayAll;
    if attempt.Opened? {
      ConsumedAre(attempt.items, n);
      BreaksSomewhere(attempt.items);
      NoDeltas(attempt.items, n);
    }
    hide Consume;
  }

  lemma NoDeltas(items: seq<Item>, n: nat)
    requires Breaks(items, n)
    ensures DeltasOf(items, n) == [] <==> n == 0
  {
    assert |DeltasOf(items, n)| == n;
  }

  // ---- The requests of a turn ----

  /** The seconds waited before request `n`. */
  function Delays(attempts: nat -> Attempt, n: nat): nat
    requires forall i :: 0 <= i < n ==> Repeats(attempts(i), i)
  {
    if n == 0 then 0
    else
      assert Repeats(attempts(n - 1), n - 1);
      Delays(attempts, n - 1) + Delay(Stumble(attempts(n - 1)).value, n - 1)
  }

  /** The first request that is not repeated. */
  lemma {:induction false} LastRequest(attempts: nat -> Attempt, from: nat) returns (n: nat)
    requires from <= 6 && forall i :: 0 <= i < from ==> Repeats(attempts(i), i)
    ensures n <= 6 && !Repeats(attempts(n), n) && forall i :: 0 <= i < n ==> Repeats(attempts(i), i)
    decreases 6 - from
  {
    if Repeats(attempts(from), from) { n := LastRequest(attempts, from + 1); } else { n := from; }
  }

  predicate IsLast(attempts: nat -> Attempt, n: nat) {
    n <= 6 && !Repeats(attempts(n), n) && forall i :: 0 <= i < n ==> Repeats(attempts(i), i)
  }

  lemma {:induction false} RequestsFrom(attempts: nat -> Attempt, n: nat, k: nat)
    requires IsLast(attempts, n) && k <= n
    ensures var r, last := Requests(attempts, k), TryOnce(attempts(n), n);
            && last.Settled? && r.end == last.result.end && r.events == last.result.events
            && r.requests == n - k + last.result.requests
            && Delays(attempts, k) + r.waited == Delays(attempts, n) + last.result.waited
    decreases n - k
  {
    hide TryOnce, Repeats, Delay, Stumble;
    RepeatsIff(attempts(k), k);
    if k < n { RequestsFrom(attempts, n, k + 1); }
  }

  /** The requests of a turn come to what the first one comes to that is not repeated; the ones before it only
      add to the count and to the time waited. */
  lemma RequestsAre(attempts: nat -> Attempt) returns (n: nat)
    ensures IsLast(attempts, n)
    ensures var r, last := Requests(attempts, 0), TryOnce(attempts(n), n);
            && last.Settled? && r.end == last.result.end && r.events == last.result.events
            && r.requests == n + last.result.requests && r.waited == Delays(attempts, n) + last.result.waited
  {
    n := LastRequest(attempts, 0);
    RequestsFrom(attempts, n, 0);
    hide TryOnce, Requests;
  }

  lemma LastIsOne(attempts: nat -> Attempt, m: nat, n: nat)
    requires IsLast(attempts, m) && IsLast(attempts, n)
    ensures m == n
  {
    hide Repeats;
  }

  predicate Streams(attempt: Attempt, deltas: seq<StreamDelta>) {
    attempt.Opened? && Breaks(attempt.items, |attempt.items|) && DeltasOf(attempt.items, |attempt.items|) == deltas
  }

  /** A turn is finished with some deltas exactly if its first request that is not repeated streams just these
      to the end of its stream. */
  lemma FinishedIff(attempts: nat -> Attempt, n: nat, deltas: seq<StreamDelta>)
    requires IsLast(attempts, n)
    ensures Requests(attempts, 0).end == Finished(deltas) <==> Streams(attempts(n), deltas)
  {
    var m := RequestsAre(attempts);
    LastIsOne(attempts, m, n);
    EndIsFinished(attempts(n), n, deltas);
    hide Requests, TryOnce, Streams, IsLast;
  }

  lemma {:induction false} BreaksAt(items: seq<Item>) returns (n: nat)
    ensures Breaks(items, n)
  {
    if items == [] || !items[0].Delta? {
      n := 0;
    } else {
      n := BreaksAt(items[1..]);
      n := n + 1;
    }
  }

  lemma EndIsFinished(attempt: Attempt, retryIndex: nat, deltas: seq<StreamDelta>)
    requires !Repeats(attempt, retryIndex)
    ensures TryOnce(attempt, retryIndex).Settled? &&
            (TryOnce(attempt, retryIndex).result.end == Finished(deltas) <==> Streams(attempt, deltas))
  {
    hide TryOnce, Repeats, IsTransient, Delay, DisplayAll, DeltasOf;
    if Stumble(attempt).Some? {
      StumbledEnd(attempt, retryIndex);
    } else if attempt.Opened? {
      var n := BreaksAt(attempt.items);
      AnsweredEnd(attempt, retryIndex, n);
    } else {
      AnsweredEnd(attempt, retryIndex, 0);
    }
  }
}
