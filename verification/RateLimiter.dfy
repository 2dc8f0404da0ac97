/** The per-user rate limiter. Its clean-up of old entries must not be visible in any decision: the reference
    is a limiter that never forgets. */
module RateLimiters {

  type Times = map<string, int>

  /** A limiter that remembers every user for ever. */
  function Decides(last: Times, interval: int, user: string, now: int): bool {
    interval <= 0 || user !in last || now - last[user] >= interval
  }

  function Remembered(last: Times, interval: int, user: string, now: int): Times {
    if interval > 0 && Decides(last, interval, user, now) then last[user := now] else last
  }

  const CLEAN_STEP := 1000

  /** What the clean-up keeps: entries no older than two intervals. */
  function Recent(last: Times, threshold: int): Times {
    map u | u in last && last[u] >= threshold :: last[u]
  }

  class RateLimiter {
    const interval: int
    var lastTime: Times
    var lastCleanCount: int

    constructor (interval: int)
      ensures this.interval == interval && lastTime == map[] && lastCleanCount == 0
    {
      this.interval, lastTime, lastCleanCount := interval, map[], 0;
    }

    /** Decides as the limiter that never forgets would on the same entries, records an allowed send, and
        sometimes drops entries older than two intervals. */
    method Allow(user: string, now: int) returns (ok: bool)
      requires lastCleanCount >= 0
      modifies this
      ensures ok == Decides(old(lastTime), interval, user, now)
      ensures (lastTime, lastCleanCount) == Kept(old(lastTime), old(lastCleanCount), interval, user, now)
      ensures ok && interval > 0 ==> |lastTime| <= lastCleanCount + CLEAN_STEP
      ensures lastCleanCount >= 0
    {
      if interval <= 0 {
        return true;
      }
      if user in lastTime && now - lastTime[user] < interval {
        return false;
      }
      lastTime := lastTime[user := now];
      var size := |lastTime|;
      if size > CLEAN_STEP && size - lastCleanCount > CLEAN_STEP {
        Clean(now - interval * 2);
        lastCleanCount := |lastTime|;
      }
      return true;
    }

    /** Visits the users in any order and deletes those whose time is before the threshold. */
    method Clean(threshold: int)
      modifies this`lastTime
      ensures lastTime == Recent(old(lastTime), threshold)
    {
      var users := lastTime.Keys;
      while users != {}
        invariant users <= lastTime.Keys <= old(lastTime.Keys)
        invariant forall u :: u in lastTime ==> lastTime[u] == old(lastTime[u])
        invariant forall u :: u in lastTime && u !in users ==> lastTime[u] >= threshold
        invariant forall u :: u in old(lastTime) && old(lastTime[u]) >= threshold ==> u in lastTime
        decreases |users|
      {
        var u :| u in users;
        users := users - {u};
        if lastTime[u] < threshold {
          lastTime := lastTime - {u};
        }
      }
      assert lastTime == Recent(old(lastTime), threshold);
    }
  }

  /** The entries and the clean-up mark after one call. */
  function Kept(last: Times, cleaned: int, interval: int, user: string, now: int): (Times, int) {
    var after := Remembered(last, interval, user, now);
    if interval > 0 && Decides(last, interval, user, now) && |after| > CLEAN_STEP && |after| - cleaned > CLEAN_STEP
    then (Recent(after, now - interval * 2), |Recent(after, now - interval * 2)|)
    else (after, cleaned)
  }

  // ----- Runs -----

  datatype Call = Call(user: string, now: int)

  datatype Limiter = Limiter(last: Times, cleaned: int)

  const FRESH := Limiter(map[], 0)

  function Run(interval: int, calls: seq<Call>): Limiter {
    if calls == [] then FRESH else
    var before, c := Run(interval, calls[..|calls| - 1]), calls[|calls| - 1];
    var (last, cleaned) := Kept(before.last, before.cleaned, interval, c.user, c.now);
    Limiter(last, cleaned)
  }

  function RunForever(interval: int, calls: seq<Call>): Times {
    if calls == [] then map[] else
    var c := calls[|calls| - 1];
    Remembered(RunForever(interval, calls[..|calls| - 1]), interval, c.user, c.now)
  }

  predicate ClockRuns(calls: seq<Call>) {
    forall i, j :: 0 <= i <= j < |calls| ==> calls[i].now <= calls[j].now
  }

  /** The cleaned entries agree with the complete ones as far as any decision from `now` on can tell. */
  ghost predicate Agree(last: Times, all: Times, interval: int, now: int) {
    && (forall u :: u in last ==> u in all && last[u] == all[u])
    && (forall u :: u in all && u !in last ==> now - all[u] >= interval)
  }

  lemma StepAgrees(last: Times, all: Times, cleaned: int, interval: int, before: int, c: Call)
    requires interval > 0 && before <= c.now && Agree(last, all, interval, before)
    ensures Decides(last, interval, c.user, c.now) == Decides(all, interval, c.user, c.now)
    ensures Agree(Kept(last, cleaned, interval, c.user, c.now).0, Remembered(all, interval, c.user, c.now),
                  interval, c.now)
  {
  }

  lemma {:induction false} RunsAgree(interval: int, calls: seq<Call>, now: int)
    requires interval > 0 && ClockRuns(calls) && (calls == [] || calls[|calls| - 1].now <= now)
    ensures Agree(Run(interval, calls).last, RunForever(interval, calls), interval, now)
  {
    if calls != [] {
      var before, c := calls[..|calls| - 1], calls[|calls| - 1];
      RunsAgree(interval, before, c.now);
      StepAgrees(Run(interval, before).last, RunForever(interval, before), Run(interval, before).cleaned,
                 interval, c.now, c);
    }
  }

  /** Under a clock that never goes back, the limiter decides every call as if it never forgot anyone. */
  lemma CleanUpIsInvisible(interval: int, calls: seq<Call>, c: Call)
    requires ClockRuns(calls + [c])
    ensures Decides(Run(interval, calls).last, interval, c.user, c.now)
         == Decides(RunForever(interval, calls), interval, c.user, c.now)
  {
    if interval > 0 {
      assert forall i :: 0 <= i < |calls| ==> calls[i] == (calls + [c])[i];
      assert (calls + [c])[|calls|] == c;
      RunsAgree(interval, calls, c.now);
    }
  }

  /** The times at which a user's sends were allowed. */
  function AllowedTimes(interval: int, calls: seq<Call>, user: string): seq<int> {
    if calls == [] then [] else
    var before, c := calls[..|calls| - 1], calls[|calls| - 1];
    AllowedTimes(interval, before, user)
    + if c.user == user && Decides(Run(interval, before).last, interval, user, c.now) then [c.now] else []
  }

  /** Each allowed send comes at least one interval after the one before, and the complete entries hold the
      user's last. */
  ghost predicate Tracks(all: Times, times: seq<int>, interval: int, user: string) {
    && (user in all <==> times != [])
    && (times != [] ==> all[user] == times[|times| - 1])
    && Apart(times, interval)
  }

  predicate Apart(times: seq<int>, interval: int) {
    forall i :: 0 < i < |times| ==> times[i] - times[i - 1] >= interval
  }

  lemma OneMoreAllowed(all: Times, times: seq<int>, interval: int, user: string, c: Call)
    requires interval > 0 && Tracks(all, times, interval, user)
    ensures Tracks(Remembered(all, interval, c.user, c.now),
                   times + if c.user == user && Decides(all, interval, user, c.now) then [c.now] else [],
                   interval, user)
  {
    var times' := times + [c.now];
    if c.user == user && Decides(all, interval, user, c.now) {
      assert forall i :: 0 <= i < |times| ==> times'[i] == times[i];
    } else {
      assert times + [] == times;
    }
  }

  lemma {:induction false} AllowedAreApart(interval: int, calls: seq<Call>, user: string)
    requires interval > 0 && ClockRuns(calls)
    ensures Tracks(RunForever(interval, calls), AllowedTimes(interval, calls, user), interval, user)
  {
    if calls != [] {
      var before, c := calls[..|calls| - 1], calls[|calls| - 1];
      AllowedAreApart(interval, before, user);
      assert before + [c] == calls;
      CleanUpIsInvisible(interval, before, c);
      OneMoreAllowed(RunForever(interval, before), AllowedTimes(interval, before, user), interval, user, c);
    }
  }

  lemma {:induction false} Spaced(times: seq<int>, interval: int, i: nat, j: nat)
    requires Apart(times, interval)
    requires i <= j < |times|
    ensures times[j] - times[i] >= (j - i) * interval
  {
    if i < j {
      Spaced(times, interval, i, j - 1);
      assert (j - i) * interval == (j - 1 - i) * interval + interval;
    }
  }

  /** The limit itself: any k allowed sends of one user span at least k - 1 intervals. */
  lemma AllowedSendsSpan(interval: int, calls: seq<Call>, user: string, i: nat, k: nat)
    requires interval > 0 && ClockRuns(calls)
    requires k > 0 && i + k <= |AllowedTimes(interval, calls, user)|
    ensures var times := AllowedTimes(interval, calls, user); times[i + k - 1] - times[i] >= (k - 1) * interval
  {
    AllowedAreApart(interval, calls, user);
    Spaced(AllowedTimes(interval, calls, user), interval, i, i + k - 1);
  }

  /** Each of these times lies at least one interval back. */
  predicate LongAgo(times: seq<int>, interval: int, now: int) {
    forall t :: t in times ==> now - t >= interval
  }

  /** The last allowed send stands for all of them. */
  lemma LastDecides(all: Times, times: seq<int>, interval: int, user: string, now: int)
    requires interval > 0 && Tracks(all, times, interval, user)
    ensures Decides(all, interval, user, now) <==> LongAgo(times, interval, now)
  {
    if times != [] {
      var last := times[|times| - 1];
      forall i | 0 <= i < |times| ensures times[i] <= last {
        Spaced(times, interval, i, |times| - 1);
        assert (|times| - 1 - i) * interval >= 0;
      }
      assert last in times;
    }
  }

  /** The rule itself, over every run: a call is allowed exactly when there is no limit or each of the user's
      earlier allowed sends lies at least one interval back. */
  lemma AllowedExactly(interval: int, calls: seq<Call>, c: Call)
    requires ClockRuns(calls + [c])
    ensures Decides(Run(interval, calls).last, interval, c.user, c.now)
       <==> interval <= 0 || LongAgo(AllowedTimes(interval, calls, c.user), interval, c.now)
  {
    if interval > 0 {
      CleanUpIsInvisible(interval, calls, c);
      assert forall i :: 0 <= i < |calls| ==> calls[i] == (calls + [c])[i];
      AllowedAreApart(interval, calls, c.user);
      LastDecides(RunForever(interval, calls), AllowedTimes(interval, calls, c.user), interval, c.user, c.now);
    }
  }

  lemma {:induction false} OnlySendersHaveTimes(interval: int, calls: seq<Call>, user: string)
    requires forall c :: c in calls ==> c.user != user
    ensures AllowedTimes(interval, calls, user) == []
  {
    if calls != [] {
      OnlySendersHaveTimes(interval, calls[..|calls| - 1], user);
      assert calls[|calls| - 1] in calls;
    }
  }

  /** Nobody's first send is refused. */
  lemma FirstSendIsAllowed(interval: int, calls: seq<Call>, c: Call)
    requires ClockRuns(calls + [c]) && forall before :: before in calls ==> before.user != c.user
    ensures Decides(Run(interval, calls).last, interval, c.user, c.now)
  {
    OnlySendersHaveTimes(interval, calls, c.user);
    AllowedExactly(interval, calls, c);
  }

  /** How many entries the limiter holds: never more than a thousand above what the last clean-up left. */
  lemma {:induction false} SizeIsBounded(interval: int, calls: seq<Call>)
    ensures var l := Run(interval, calls); l.cleaned >= 0 && |l.last| <= l.cleaned + CLEAN_STEP
  {
    if calls != [] {
      SizeIsBounded(interval, calls[..|calls| - 1]);
    }
  }
}
