/** Rotation through a pool of provider credentials, with cooldowns. */
module CredentialPool {
  import opened Text

  const U64_MAX := 0xFFFF_FFFF_FFFF_FFFF

  datatype Status = Ok | Exhausted(resetAt: int) | Dead

  datatype Credential = Credential(name: string, status: Status, requestCount: nat)

  datatype Strategy = LeastUsed | RoundRobin

  // ---- What the pool's operations mean ----

  function Refreshed(c: Credential, now: int): Credential {
    if c.status.Exhausted? && c.status.resetAt <= now then c.(status := Ok) else c
  }

  function RefreshAll(entries: seq<Credential>, now: int): seq<Credential> {
    seq(|entries|, i requires 0 <= i < |entries| => Refreshed(entries[i], now))
  }

  /** Usable at a time: in order, or with a cooldown that is over by then. */
  predicate UsableAt(c: Credential, now: int) {
    Refreshed(c, now).status.Ok?
  }

  /** A credential is usable unless it is dead or its cooldown still lasts. */
  lemma UsableIff(c: Credential, now: int)
    ensures UsableAt(c, now) <==> c.status.Ok? || (c.status.Exhausted? && now >= c.status.resetAt)
    ensures Refreshed(c, now) == c.(status := if UsableAt(c, now) then Ok else c.status)
  {
  }

  predicate CursorInRange(n: nat, cursor: nat) {
    n == 0 || cursor < n
  }

  /** The offset of `i` from the cursor, going round. */
  function Distance(n: nat, cursor: nat, i: nat): nat
    requires cursor < n && i < n
  {
    if cursor <= i then i - cursor else i + n - cursor
  }

  /** The place after `i`, going round. */
  function NextCursor(n: nat, i: nat): nat
    requires i < n
  {
    if i + 1 == n then 0 else i + 1
  }

  /** Round robin picks the first usable entry from the cursor on. */
  predicate IsRoundRobinPick(entries: seq<Credential>, cursor: nat, i: nat)
    requires CursorInRange(|entries|, cursor)
  {
    && i < |entries| && entries[i].status.Ok?
    && forall j :: 0 <= j < |entries| && entries[j].status.Ok? ==>
         Distance(|entries|, cursor, i) <= Distance(|entries|, cursor, j)
  }

  /** Least-used picks the first of the usable entries with the smallest count. */
  predicate IsLeastUsedPick(entries: seq<Credential>, i: nat) {
    && i < |entries| && entries[i].status.Ok?
    && forall j :: 0 <= j < |entries| && entries[j].status.Ok? ==>
         entries[i].requestCount < entries[j].requestCount ||
         (entries[i].requestCount == entries[j].requestCount && i <= j)
  }

  predicate IsPick(strategy: Strategy, entries: seq<Credential>, cursor: nat, i: nat)
    requires CursorInRange(|entries|, cursor)
  {
    if strategy.LeastUsed? then IsLeastUsedPick(entries, i) else IsRoundRobinPick(entries, cursor, i)
  }

  function Charged(c: Credential): Credential {
    c.(requestCount := if c.requestCount < U64_MAX then c.requestCount + 1 else c.requestCount)
  }

  /** One more request is counted, up to the top of the unsigned 64-bit range. */
  lemma ChargedIs(c: Credential)
    requires c.requestCount <= 0xFFFF_FFFF_FFFF_FFFF
    ensures Charged(c) == c.(requestCount := Charged(c).requestCount)
    ensures Charged(c).requestCount <= 0xFFFF_FFFF_FFFF_FFFF
    ensures Charged(c).requestCount == c.requestCount + 1 || Charged(c).requestCount == c.requestCount == 0xFFFF_FFFF_FFFF_FFFF
  {
  }

  predicate NoneUsable(entries: seq<Credential>, now: int) {
    forall i :: 0 <= i < |entries| ==> !UsableAt(entries[i], now)
  }

  /** One acquisition: the entry picked, if any, and the state it leaves. */
  ghost predicate Acquires(strategy: Strategy, before: seq<Credential>, cursor: nat, now: int,
                           after: seq<Credential>, cursor': nat, picked: Option<nat>)
    requires CursorInRange(|before|, cursor)
  {
    var ready := RefreshAll(before, now);
    match picked
    case None => NoneUsable(before, now) && after == ready && cursor' == cursor
    case Some(i) =>
      IsPick(strategy, ready, cursor, i) && after == ready[i := Charged(ready[i])] && cursor' == NextCursor(|before|, i)
  }

  class CredentialPool {
    var entries: seq<Credential>
    const strategy: Strategy
    var cursor: nat

    ghost predicate Valid()
      reads this
    {
      CursorInRange(|entries|, cursor)
    }

    constructor (entries: seq<Credential>, strategy: Strategy)
      ensures Valid() && this.entries == entries && this.strategy == strategy && cursor == 0
    {
      this.entries, this.strategy, cursor := entries, strategy, 0;
    }

    method RefreshCooldowns(now: int)
      modifies this`entries
      ensures entries == RefreshAll(old(entries), now)
    {
      for i := 0 to |entries|
        invariant |entries| == |old(entries)|
        invariant forall j :: 0 <= j < i ==> entries[j] == Refreshed(old(entries)[j], now)
        invariant forall j :: i <= j < |entries| ==> entries[j] == old(entries)[j]
      {
        if entries[i].status.Exhausted? && entries[i].status.resetAt <= now {
          entries := entries[i := entries[i].(status := Ok)];
        }
      }
    }

    method LeastUsedIndex() returns (index: Option<nat>)
      ensures index.Some? ==> IsLeastUsedPick(entries, index.value)
      ensures index.None? ==> forall i :: 0 <= i < |entries| ==> !entries[i].status.Ok?
    {
      index := None;
      for i := 0 to |entries|
        invariant index.Some? ==>
                    index.value < i && entries[index.value].status.Ok? &&
                    forall j :: 0 <= j < i && entries[j].status.Ok? ==>
                      entries[index.value].requestCount < entries[j].requestCount ||
                      (entries[index.value].requestCount == entries[j].requestCount && index.value <= j)
        invariant index.None? ==> forall j :: 0 <= j < i ==> !entries[j].status.Ok?
      {
        if entries[i].status.Ok? &&
           (index.None? || entries[i].requestCount < entries[index.value].requestCount) {
          index := Some(i);
        }
      }
    }

    method RoundRobinIndex() returns (index: Option<nat>)
      requires Valid()
      ensures index.Some? ==> IsRoundRobinPick(entries, cursor, index.value)
      ensures index.None? ==> forall i :: 0 <= i < |entries| ==> !entries[i].status.Ok?
    {
      var len := |entries|;
      for offset := 0 to len
        invariant forall j :: 0 <= j < len && Distance(len, cursor, j) < offset ==> !entries[j].status.Ok?
      {
        var idx := (cursor + offset) % len;
        WrapsTo(len, cursor, offset);
        if entries[idx].status.Ok? {
          return Some(idx);
        }
        forall j | 0 <= j < len && Distance(len, cursor, j) == offset ensures j == idx { }
      }
      return None;
    }

    method Acquire(now: int) returns (acquired: Option<Credential>, ghost picked: Option<nat>)
      requires Valid()
      modifies this
      ensures Valid() && |entries| == |old(entries)|
      ensures Acquires(strategy, old(entries), old(cursor), now, entries, cursor, picked)
      ensures acquired == if picked.None? then None else Some(entries[picked.value])
      ensures acquired.None? <==> NoneUsable(old(entries), now)
    {
      RefreshCooldowns(now);
      var index;
      if strategy.LeastUsed? {
        index := LeastUsedIndex();
      } else {
        index := RoundRobinIndex();
      }
      picked := index;
      if index.None? {
        forall i | 0 <= i < |entries| ensures !UsableAt(old(entries)[i], now) {
          assert entries[i] == Refreshed(old(entries)[i], now);
        }
        return None, None;
      }
      var i := index.value;
      entries := entries[i := Charged(entries[i])];
      NextIsRemainder(|entries|, i);
      cursor := (i + 1) % (if |entries| > 1 then |entries| else 1);
      assert entries[i] == Charged(Refreshed(old(entries)[i], now));
      assert UsableAt(old(entries)[i], now);
      return Some(entries[i]), picked;
    }

    /** Puts the first credential with the label on cooldown. */
    method MarkExhausted(name: string, cooldownSecs: nat, now: int)
      requires Valid() && cooldownSecs <= U64_MAX
      modifies this`entries
      ensures Valid() && |entries| == |old(entries)|
      ensures forall i :: 0 <= i < |entries| ==>
                entries[i] ==
                if IsFirst(old(entries), name, i)
                then old(entries)[i].(status := Exhausted(now + AsI64(cooldownSecs))) else old(entries)[i]
    {
      for i := 0 to |entries|
        invariant entries == old(entries)
        invariant forall j :: 0 <= j < i ==> entries[j].name != name
      {
        if entries[i].name == name {
          entries := entries[i := entries[i].(status := Exhausted(now + AsI64(cooldownSecs)))];
          return;
        }
      }
    }
  }

  /** The source's cast of an unsigned to a signed 64-bit number of seconds. */
  function AsI64(seconds: nat): int
    requires seconds <= U64_MAX
  {
    if seconds < 0x8000_0000_0000_0000 then seconds else seconds - 0x1_0000_0000_0000_0000
  }

  /** The cast keeps the number modulo the width, and lands in the signed range. */
  lemma CastIs(seconds: nat)
    requires seconds <= U64_MAX
    ensures -0x8000_0000_0000_0000 <= AsI64(seconds) < 0x8000_0000_0000_0000
    ensures AsI64(seconds) == seconds || AsI64(seconds) == seconds - 0x1_0000_0000_0000_0000
  {
  }

  predicate IsFirst(entries: seq<Credential>, name: string, i: nat)
    requires i < |entries|
  {
    entries[i].name == name && forall j :: 0 <= j < i ==> entries[j].name != name
  }

  lemma WrapsTo(n: nat, cursor: nat, offset: nat)
    requires cursor < n && offset < n
    ensures (cursor + offset) % n < n && Distance(n, cursor, (cursor + offset) % n) == offset
  {
    if cursor + offset < n {
      assert (cursor + offset) % n == cursor + offset;
    } else {
      assert (cursor + offset) % n == cursor + offset - n by {
        assert cursor + offset == n + (cursor + offset - n);
      }
    }
  }

  lemma NextIsRemainder(n: nat, i: nat)
    requires i < n
    ensures (i + 1) % n == NextCursor(n, i)
  {
    if i + 1 < n { assert (i + 1) % n == i + 1; } else { assert n % n == 0; }
  }

  // ---- When an acquisition fails ----

  /** An acquisition comes back empty exactly when no credential is usable once the cooldowns that
      are over have been cleared; then it changes nothing else. */
  lemma FailsIffNoneUsable(strategy: Strategy, before: seq<Credential>, cursor: nat, now: int,
                           after: seq<Credential>, cursor': nat, picked: Option<nat>)
    requires CursorInRange(|before|, cursor)
    requires Acquires(strategy, before, cursor, now, after, cursor', picked)
    ensures picked.None? <==> NoneUsable(before, now)
    ensures picked.Some? ==> picked.value < |before| && UsableAt(before[picked.value], now)
  {
    if picked.Some? { assert RefreshAll(before, now)[picked.value] == Refreshed(before[picked.value], now); }
  }

  // ---- Round-robin fairness ----

  /** A state just before an acquisition, and the acquisition's time and pick. */
  datatype Moment = Moment(entries: seq<Credential>, cursor: nat, now: int, picked: Option<nat>)

  /** Consecutive acquisitions; between them anything may happen to the entries, except that their
      number stays. */
  ghost predicate IsRound(strategy: Strategy, n: nat, round: seq<Moment>) {
    && (forall k :: 0 <= k < |round| ==> |round[k].entries| == n && CursorInRange(n, round[k].cursor))
    && (forall k :: 0 <= k < |round| ==> LeavesCursor(strategy, round[k], FoundNext(round, k)))
  }

  /** The cursor the acquisition after the one at `k` finds, if there is one. */
  function FoundNext(round: seq<Moment>, k: nat): Option<nat>
    requires k < |round|
  {
    if k + 1 < |round| then Some(round[k + 1].cursor) else None
  }

  /** The acquisition takes place, leaving the given cursor if there is one. */
  ghost predicate LeavesCursor(strategy: Strategy, m: Moment, cursor: Option<nat>)
    requires CursorInRange(|m.entries|, m.cursor)
  {
    exists after, next ::
      Acquires(strategy, m.entries, m.cursor, m.now, after, next, m.picked) && (cursor.Some? ==> next == cursor.value)
  }

  lemma {:induction false} RestIsRound(strategy: Strategy, n: nat, round: seq<Moment>)
    requires round != [] && IsRound(strategy, n, round)
    ensures IsRound(strategy, n, round[1..])
  {
    hide LeavesCursor;
    var rest := round[1..];
    forall k | 0 <= k < |rest| ensures LeavesCursor(strategy, rest[k], FoundNext(rest, k)) {
      assert rest[k] == round[k + 1] && FoundNext(rest, k) == FoundNext(round, k + 1);
    }
  }

  /** Until the credential at `i` is picked, every pick brings the cursor at least one place nearer. */
  lemma PickApproaches(before: seq<Credential>, cursor: nat, now: int, after: seq<Credential>, next: nat, picked: Option<nat>, i: nat)
    requires i < |before| && cursor < |before| && UsableAt(before[i], now)
    requires Acquires(RoundRobin, before, cursor, now, after, next, picked)
    ensures picked.Some?
    ensures picked.value != i ==> next < |before| && Distance(|before|, next, i) < Distance(|before|, cursor, i)
  {
    var ready := RefreshAll(before, now);
    assert ready[i] == Refreshed(before[i], now);
    if picked.Some? && picked.value != i {
      assert Distance(|before|, cursor, picked.value) <= Distance(|before|, cursor, i);
    }
  }

  lemma MomentApproaches(m: Moment, next: Option<nat>, i: nat)
    requires i < |m.entries| && m.cursor < |m.entries| && UsableAt(m.entries[i], m.now)
    requires LeavesCursor(RoundRobin, m, next)
    ensures m.picked.Some?
    ensures m.picked.value != i ==> Distance(|m.entries|, m.cursor, i) > 0
    ensures m.picked.value != i && next.Some? ==>
              next.value < |m.entries| && Distance(|m.entries|, next.value, i) < Distance(|m.entries|, m.cursor, i)
  {
    hide Acquires, UsableAt, Distance;
    var after, cursor :| Acquires(RoundRobin, m.entries, m.cursor, m.now, after, cursor, m.picked) &&
      (next.Some? ==> cursor == next.value);
    PickApproaches(m.entries, m.cursor, m.now, after, cursor, m.picked, i);
  }

  lemma {:induction false} PickedInTime(n: nat, round: seq<Moment>, i: nat)
    requires i < n && IsRound(RoundRobin, n, round) && round != []
    requires forall k :: 0 <= k < |round| ==> UsableAt(round[k].entries[i], round[k].now)
    requires Distance(n, round[0].cursor, i) < |round|
    ensures exists k :: 0 <= k < |round| && round[k].picked == Some(i)
    decreases |round|
  {
    var m := round[0];
    MomentApproaches(m, FoundNext(round, 0), i);
    if m.picked != Some(i) {
      hide IsRound, UsableAt;
      var rest := round[1..];
      assert forall k :: 0 <= k < |rest| ==> rest[k] == round[k + 1];
      RestIsRound(RoundRobin, n, round);
      PickedInTime(n, rest, i);
      var k :| 0 <= k < |rest| && rest[k].picked == Some(i);
      assert round[k + 1].picked == Some(i);
    }
  }

  /** Round robin hands out any credential that is usable at each of `n` consecutive acquisitions,
      `n` being the pool size, whatever happens to the others meanwhile. */
  lemma RoundRobinIsFair(n: nat, round: seq<Moment>, i: nat)
    requires i < n && |round| == n && IsRound(RoundRobin, n, round)
    requires forall k :: 0 <= k < n ==> UsableAt(round[k].entries[i], round[k].now)
    ensures exists k :: 0 <= k < n && round[k].picked == Some(i)
  {
    PickedInTime(n, round, i);
  }

  // ---- Least-used balance ----

  predicate AllUsable(entries: seq<Credential>, now: int) {
    forall i :: 0 <= i < |entries| ==> UsableAt(entries[i], now)
  }

  predicate Balanced(entries: seq<Credential>) {
    forall i, j :: 0 <= i < |entries| && 0 <= j < |entries| ==> entries[i].requestCount <= entries[j].requestCount + 1
  }

  function TotalRequests(entries: seq<Credential>): nat {
    if entries == [] then 0 else TotalRequests(entries[..|entries| - 1]) + entries[|entries| - 1].requestCount
  }

  lemma {:induction false} TotalAfterUpdate(entries: seq<Credential>, i: nat, c: Credential)
    requires i < |entries|
    ensures TotalRequests(entries[i := c]) + entries[i].requestCount == TotalRequests(entries) + c.requestCount
  {
    var last := |entries| - 1;
    if i == last {
      assert entries[i := c][..last] == entries[..last];
    } else {
      assert entries[i := c][..last] == entries[..last][i := c];
      TotalAfterUpdate(entries[..last], i, c);
    }
  }

  lemma {:induction false} TotalOfRefreshed(entries: seq<Credential>, now: int)
    ensures TotalRequests(RefreshAll(entries, now)) == TotalRequests(entries)
  {
    if entries != [] {
      var last := |entries| - 1;
      assert RefreshAll(entries, now)[..last] == RefreshAll(entries[..last], now);
      TotalOfRefreshed(entries[..last], now);
    }
  }

  /** An acquisition by least use keeps the counts within one of each other, and charges exactly one
      request, short of the top of the counter's range. */
  lemma LeastUsedStaysBalanced(before: seq<Credential>, cursor: nat, now: int, after: seq<Credential>, next: nat, picked: Option<nat>)
    requires before != [] && CursorInRange(|before|, cursor)
    requires AllUsable(before, now) && Balanced(before)
    requires Acquires(LeastUsed, before, cursor, now, after, next, picked)
    ensures |after| == |before| && Balanced(after)
    ensures (forall i :: 0 <= i < |before| ==> before[i].requestCount < U64_MAX) ==>
              TotalRequests(after) == TotalRequests(before) + 1
  {
    var ready := RefreshAll(before, now);
    assert ready[0] == Refreshed(before[0], now);
    assert UsableAt(before[0], now);
    assert picked.Some?;
    var i := picked.value;
    forall j | 0 <= j < |ready| ensures ready[j].status.Ok? && ready[j].requestCount == before[j].requestCount {
      assert UsableAt(before[j], now);
    }
    TotalOfRefreshed(before, now);
    TotalAfterUpdate(ready, i, Charged(ready[i]));
  }

  /** A run of acquisitions in which every credential stays usable. */
  ghost predicate IsSteadyRun(states: seq<seq<Credential>>, cursors: seq<nat>, times: seq<int>) {
    && |states| == |cursors| == |times| + 1
    && (forall k :: 0 <= k < |states| ==> states[k] != [] && CursorInRange(|states[k]|, cursors[k]))
    && (forall k :: 0 <= k < |times| ==> AllUsable(states[k], times[k]))
    && (forall k :: 0 <= k < |times| ==>
          AcquiresSome(LeastUsed, states[k], cursors[k], times[k], states[k + 1], cursors[k + 1]))
  }

  ghost predicate AcquiresSome(strategy: Strategy, before: seq<Credential>, cursor: nat, now: int, after: seq<Credential>, next: nat)
    requires CursorInRange(|before|, cursor)
  {
    exists picked :: Acquires(strategy, before, cursor, now, after, next, picked)
  }

  /** However many requests are made, counts that start equal stay within one of each other. */
  lemma {:induction false} LeastUsedIsBalanced(states: seq<seq<Credential>>, cursors: seq<nat>, times: seq<int>, k: nat)
    requires IsSteadyRun(states, cursors, times) && k < |states|
    requires forall i, j :: 0 <= i < j < |states[0]| ==> states[0][i].requestCount == states[0][j].requestCount
    ensures Balanced(states[k])
  {
    if k > 0 {
      hide Acquires, AllUsable;
      LeastUsedIsBalanced(states, cursors, times, k - 1);
      hide Balanced;
      assert AcquiresSome(LeastUsed, states[k - 1], cursors[k - 1], times[k - 1], states[k - 1 + 1], cursors[k - 1 + 1]);
      var picked :| Acquires(LeastUsed, states[k - 1], cursors[k - 1], times[k - 1], states[k], cursors[k], picked);
      LeastUsedStaysBalanced(states[k - 1], cursors[k - 1], times[k - 1], states[k], cursors[k], picked);
    }
  }

  // ---- Cooldowns ----

  /** A credential on cooldown is not handed out before the cooldown is over. */
  lemma CooldownIsKept(strategy: Strategy, before: seq<Credential>, cursor: nat, now: int,
                       after: seq<Credential>, next: nat, picked: Option<nat>, i: nat)
    requires CursorInRange(|before|, cursor) && i < |before|
    requires before[i].status.Exhausted? && now < before[i].status.resetAt
    requires Acquires(strategy, before, cursor, now, after, next, picked)
    ensures picked != Some(i) && after[i] == before[i]
  {
    var ready := RefreshAll(before, now);
    assert ready[i] == before[i];
  }
}
