/** Scheduled jobs over time: when each occurrence falls due, and what becomes of the due times that pass
    while the scheduler is late. */
module CronJobs {
  import opened Text
  import opened Cron
  import opened CronClock

  /** What a job does about due times that have passed. */
  datatype Policy = Skip | Latest | All

  const GRACE: int := 120 * 1_000_000_000

  /** One occurrence: when it was scheduled for, when the scheduler came to it, and whether something else than
      lateness kept it from running (an open decision, a missing agent, an occurrence already recorded). */
  datatype Occurrence = Occurrence(scheduledFor: int, now: int, blocked: bool)

  predicate Runs(policy: Policy, o: Occurrence) {
    !o.blocked && !(policy.Skip? && o.now - o.scheduledFor > GRACE)
  }

  /** An occurrence runs unless something else keeps it from running or its job skips what is late, and the
      scheduler came to it more than two minutes late. */
  lemma RunsIff(policy: Policy, o: Occurrence)
    ensures Runs(policy, o) <==> !o.blocked && (policy == Skip ==> o.now <= o.scheduledFor + 2 * 60 * 1_000_000_000)
  {
  }

  /** When the occurrence after this one is scheduled for. */
  function Advanced(expression: string, calendar: Calendar, policy: Policy, o: Occurrence): int {
    NextRun(expression, calendar, if policy.All? then o.scheduledFor else o.now)
  }

  /** A job with a cron schedule. */
  class CronJob {
    const expression: string
    const calendar: Calendar
    const policy: Policy
    var nextRunAt: int
    var occurrences: seq<Occurrence>

    ghost predicate Valid()
      reads this
    {
      && IsHistory(expression, calendar, policy, occurrences)
      && (occurrences != [] ==> nextRunAt == Advanced(expression, calendar, policy, occurrences[|occurrences| - 1]))
    }

    constructor (expression: string, calendar: Calendar, policy: Policy, now: int)
      ensures Valid() && occurrences == [] && nextRunAt == NextRun(expression, calendar, now)
    {
      this.expression, this.calendar, this.policy := expression, calendar, policy;
      occurrences := [];
      new;
      nextRunAt := NextCronRun(expression, calendar, now);
    }

    /** Comes to the job if it is due: records its occurrence, run or not, and schedules the next one. */
    method EnqueueDueOccurrence(now: int, blocked: bool) returns (enqueued: bool, ran: bool)
      requires Valid()
      modifies this`nextRunAt, this`occurrences
      ensures Valid() && enqueued == (old(nextRunAt) <= now)
      ensures !enqueued ==> !ran && nextRunAt == old(nextRunAt) && occurrences == old(occurrences)
      ensures enqueued ==>
                var o := Occurrence(old(nextRunAt), now, blocked);
                ran == Runs(policy, o) && occurrences == old(occurrences) + [o] &&
                nextRunAt == Advanced(expression, calendar, policy, o)
    {
      if nextRunAt > now {
        return false, false;
      }
      var scheduledFor := nextRunAt;
      var overdue := now - scheduledFor > GRACE;
      ran := !(overdue && policy.Skip?) && !blocked;
      ghost var before := occurrences;
      occurrences := occurrences + [Occurrence(scheduledFor, now, blocked)];
      nextRunAt := NextCronRun(expression, calendar, if policy.All? then scheduledFor else now);
      HistoryGrows(expression, calendar, policy, before, occurrences[|before|]);
      return true, ran;
    }
  }

  /** Occurrences come when they are due or later, each scheduled by the one before it. */
  predicate IsHistory(expression: string, calendar: Calendar, policy: Policy, os: seq<Occurrence>) {
    && (forall i :: 0 <= i < |os| ==> os[i].scheduledFor <= os[i].now)
    && forall i :: 0 < i < |os| ==> Follows(expression, calendar, policy, os, i)
  }

  predicate Follows(expression: string, calendar: Calendar, policy: Policy, os: seq<Occurrence>, i: nat)
    requires 0 < i < |os|
  {
    os[i].scheduledFor == Advanced(expression, calendar, policy, os[i - 1])
  }

  lemma HistoryGrows(expression: string, calendar: Calendar, policy: Policy, os: seq<Occurrence>, o: Occurrence)
    requires IsHistory(expression, calendar, policy, os) && o.scheduledFor <= o.now
    requires os != [] ==> o.scheduledFor == Advanced(expression, calendar, policy, os[|os| - 1])
    ensures IsHistory(expression, calendar, policy, os + [o])
  {
    hide Advanced;
    var all := os + [o];
    forall i | 0 < i < |all| ensures Follows(expression, calendar, policy, all, i) {
      if i < |os| { assert Follows(expression, calendar, policy, os, i); }
    }
  }

  // ---- Occurrences over time ----

  lemma NextIsLater(expression: string, calendar: Calendar, policy: Policy, os: seq<Occurrence>, i: nat)
    requires IsHistory(expression, calendar, policy, os) && 0 < i < |os|
    ensures os[i - 1].scheduledFor < os[i].scheduledFor
    ensures !policy.All? ==> os[i - 1].now < os[i].scheduledFor
  {
    hide NextRun;
    assert Follows(expression, calendar, policy, os, i);
    NextRunIsNext(expression, calendar, if policy.All? then os[i - 1].scheduledFor else os[i - 1].now);
  }

  /** Occurrences are scheduled for strictly later and later times. */
  lemma {:induction false} OccurrencesIncrease(expression: string, calendar: Calendar, policy: Policy, os: seq<Occurrence>, i: nat, j: nat)
    requires IsHistory(expression, calendar, policy, os) && i < j < |os|
    ensures os[i].scheduledFor < os[j].scheduledFor
    ensures !policy.All? ==> os[i].now < os[j].scheduledFor
    decreases j
  {
    hide IsHistory;
    NextIsLater(expression, calendar, policy, os, j);
    if i < j - 1 { OccurrencesIncrease(expression, calendar, policy, os, i, j - 1); }
  }

  predicate Occurs(os: seq<Occurrence>, t: int) {
    exists i :: 0 <= i < |os| && os[i].scheduledFor == t
  }

  /** The time passed between an occurrence falling due and the scheduler coming to it. */
  predicate PassedWhileLate(os: seq<Occurrence>, t: int) {
    exists i :: 0 <= i < |os| && os[i].scheduledFor < t <= os[i].now
  }

  /** The last occurrence scheduled before a time. */
  lemma {:induction false} LastBefore(os: seq<Occurrence>, t: int, n: nat) returns (k: nat)
    requires n < |os| && os[0].scheduledFor < t <= os[n].scheduledFor
    ensures k < n && os[k].scheduledFor < t <= os[k + 1].scheduledFor
  {
    k := n - 1;
    if t <= os[n - 1].scheduledFor { k := LastBefore(os, t, n - 1); }
  }

  lemma DueIsOccurrenceOrPassed(expression: string, calendar: Calendar, policy: Policy, os: seq<Occurrence>, k: nat, t: int)
    requires IsHistory(expression, calendar, policy, os) && k + 1 < |os|
    requires IsDue(expression, calendar, t) && os[k].scheduledFor < t < os[k + 1].scheduledFor
    ensures !policy.All? && t <= os[k].now
  {
    hide NextRun, IsDue;
    assert Follows(expression, calendar, policy, os, k + 1);
    NextRunIsNext(expression, calendar, if policy.All? then os[k].scheduledFor else os[k].now);
  }

  /** With the policy to catch up on everything, every due time after the first occurrence has an occurrence of
      its own, however late the scheduler is. */
  lemma CatchesUpOnAll(expression: string, calendar: Calendar, os: seq<Occurrence>, n: nat, t: int)
    requires IsHistory(expression, calendar, All, os) && n < |os|
    requires IsDue(expression, calendar, t) && os[0].scheduledFor < t <= os[n].scheduledFor
    ensures Occurs(os, t)
  {
    hide IsHistory, IsDue;
    var k := LastBefore(os, t, n);
    if t < os[k + 1].scheduledFor { DueIsOccurrenceOrPassed(expression, calendar, All, os, k, t); }
  }

  /** With the other policies a due time has no occurrence exactly when it passed while the scheduler was late
      for the occurrence before it. */
  lemma MissedIff(expression: string, calendar: Calendar, policy: Policy, os: seq<Occurrence>, n: nat, t: int)
    requires IsHistory(expression, calendar, policy, os) && !policy.All? && n < |os|
    requires IsDue(expression, calendar, t) && os[0].scheduledFor < t <= os[n].scheduledFor
    ensures !Occurs(os, t) <==> PassedWhileLate(os, t)
  {
    hide IsHistory, IsDue;
    var k := LastBefore(os, t, n);
    if t < os[k + 1].scheduledFor {
      DueIsOccurrenceOrPassed(expression, calendar, policy, os, k, t);
    }
    if Occurs(os, t) && PassedWhileLate(os, t) {
      var i :| 0 <= i < |os| && os[i].scheduledFor == t;
      var j :| 0 <= j < |os| && os[j].scheduledFor < t <= os[j].now;
      if i < j { OccurrencesIncrease(expression, calendar, policy, os, i, j); }
      if j < i { OccurrencesIncrease(expression, calendar, policy, os, j, i); }
      assert false;
    }
  }

  /** Nothing but due times occurs after the first, unless nothing has been due within 366 days. */
  lemma OccursWhenDue(expression: string, calendar: Calendar, policy: Policy, os: seq<Occurrence>, i: nat)
    requires IsHistory(expression, calendar, policy, os) && 0 < i < |os|
    ensures var base := if policy.All? then os[i - 1].scheduledFor else os[i - 1].now;
            IsDue(expression, calendar, os[i].scheduledFor) <==>
            exists t :: InHorizon(base, t) && IsDue(expression, calendar, t)
  {
    hide NextRun, IsDue, InHorizon;
    assert Follows(expression, calendar, policy, os, i);
    NextRunIsNext(expression, calendar, if policy.All? then os[i - 1].scheduledFor else os[i - 1].now);
  }

  // ---- A due time that is missed ----

  /** So many stars, each behind a blank. */
  function Stars(n: nat): string {
    if n == 0 then "" else " *" + Stars(n - 1)
  }

  const EVERY_MINUTE := Stars(5)

  lemma StarMeansAll(value: nat, min: nat, max: nat)
    requires min <= value <= max
    ensures FieldMeans("*", value, min, max)
  {
    var p := Part(Every, None);
    assert PrintPart(p) == "*" && IsPart(p) && Usable(p);
    var r := Denoted(p, min, max);
    assert r == Stepped(min, max, 1);
    var v := Seen(value, max, min);
    assert Nth(r, v - min) == v;
    assert PartMeans("*", value, min, max);
    OnePart("*");
    assert Split("*", ",")[0] == "*";
  }

  lemma StarFirst(rest: string)
    requires rest == "" || rest[0] == ' '
    ensures Words(" *" + rest) == ["*"] + Words(rest)
  {
    var text := "*" + rest;
    WordLengthIs("*", rest);
    hide Words;
    assert text[0] == '*';
    FirstWord("*", rest);
    GapIsSkipped(" ", text);
    assert " " + text == " *" + rest;
  }

  lemma {:induction false} StarWords(n: nat)
    ensures |Words(Stars(n))| == n && forall i :: 0 <= i < n ==> Words(Stars(n))[i] == "*"
  {
    if n > 0 {
      hide Words;
      StarWords(n - 1);
      StarFirst(Stars(n - 1));
    }
  }

  lemma EveryMinuteIsDue(calendar: Calendar, years: int -> int, minute: int)
    requires IsGregorian(calendar, years)
    ensures IsDue(EVERY_MINUTE, calendar, minute * MINUTE)
  {
    hide Words, FieldMeans, FieldValue, Stars, IsGregorian;
    StarWords(5);
    forall i | 0 <= i < 5
      ensures FieldMeans(Words(EVERY_MINUTE)[i], FieldValue(calendar, minute, i), FieldMin(i), FieldMax(i))
    {
      InRange(calendar, years, minute, i);
      StarMeansAll(FieldValue(calendar, minute, i), FieldMin(i), FieldMax(i));
    }
    CronMatchesIff(EVERY_MINUTE, calendar, minute);
    assert (minute * MINUTE) / MINUTE == minute;
  }

  lemma NextMinute(calendar: Calendar, years: int -> int)
    requires IsGregorian(calendar, years)
    ensures NextRun(EVERY_MINUTE, calendar, 2 * MINUTE) == 3 * MINUTE
  {
    hide NextRun, CronMatches, IsGregorian;
    var next := NextRun(EVERY_MINUTE, calendar, 2 * MINUTE);
    EveryMinuteIsDue(calendar, years, 3);
    NextRunIsNext(EVERY_MINUTE, calendar, 2 * MINUTE);
    assert InHorizon(2 * MINUTE, 3 * MINUTE);
    assert IsDue(EVERY_MINUTE, calendar, next);
    assert 2 * MINUTE < next <= 3 * MINUTE;
  }

  /** A job for every minute whose scheduler comes two minutes late: the minute in between is never run. */
  lemma LateTickMisses(calendar: Calendar, years: int -> int)
    requires IsGregorian(calendar, years)
    ensures var os := [Occurrence(0, 2 * MINUTE, false), Occurrence(3 * MINUTE, 3 * MINUTE, false)];
            IsHistory(EVERY_MINUTE, calendar, Latest, os) && IsDue(EVERY_MINUTE, calendar, MINUTE) && !Occurs(os, MINUTE)
  {
    hide NextRun, IsDue, IsGregorian;
    var os := [Occurrence(0, 2 * MINUTE, false), Occurrence(3 * MINUTE, 3 * MINUTE, false)];
    EveryMinuteIsDue(calendar, years, 1);
    NextMinute(calendar, years);
    assert 1 * MINUTE == MINUTE;
    assert Follows(EVERY_MINUTE, calendar, Latest, os, 1);
  }
}
