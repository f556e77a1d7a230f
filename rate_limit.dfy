/**
 * The rolling-window rate limiter of the contact endpoint (route.ts, `isRateLimited`),
 * as a function from the table of recorded timestamps, the client key and the
 * current time to the decision and the new table. The class `ContactRoute.ContactRoute`
 * holds the table and updates it in place as this function prescribes.
 */
module RateLimit {

  /** RATE_LIMIT_MAX_REQUESTS. */
  const MaxRequests: nat := 5
  /** RATE_LIMIT_WINDOW_MS: one hour in milliseconds. */
  const WindowMs: int := 60 * 60 * 1000

  /** `rateLimitStore`: client key to the timestamps (ms) of its recorded requests. */
  type Store = map<string, seq<int>>

  /** The table invariant the limiter keeps: no key holds more than `MaxRequests` timestamps. */
  ghost predicate Bounded(store: Store) {
    forall ip :: ip in store ==> |store[ip]| <= MaxRequests
  }

  /** The recorded history of `ip`; an absent key reads as an empty history. */
  function History(store: Store, ip: string): seq<int> {
    if ip in store then store[ip] else []
  }

  /** `timestamps.filter(t => t > windowStart)`. */
  function KeepAfter(timestamps: seq<int>, windowStart: int): (kept: seq<int>)
    ensures |kept| <= |timestamps|
    ensures forall i :: 0 <= i < |kept| ==> kept[i] > windowStart
    ensures forall t :: t in kept <==> t in timestamps && t > windowStart
  {
    if timestamps == [] then []
    else
      var rest := KeepAfter(timestamps[1..], windowStart);
      assert timestamps == [timestamps[0]] + timestamps[1..];
      if timestamps[0] > windowStart then [timestamps[0]] + rest else rest
  }

  /**
   * The filter keeps every timestamp strictly after the window start as often
   * as it occurs and drops every other one, so repeated timestamps are counted
   * one by one.
   */
  lemma {:induction false} KeepAfterCountsEach(timestamps: seq<int>, windowStart: int)
    ensures forall t :: multiset(KeepAfter(timestamps, windowStart))[t]
                        == if t > windowStart then multiset(timestamps)[t] else 0
  {
    if timestamps != [] {
      KeepAfterCountsEach(timestamps[1..], windowStart);
      assert timestamps == [timestamps[0]] + timestamps[1..];
    }
  }

  /** Filtering works piece by piece, so the kept timestamps stay in their order. */
  lemma {:induction false} KeepAfterDistributes(a: seq<int>, b: seq<int>, windowStart: int)
    ensures KeepAfter(a + b, windowStart) == KeepAfter(a, windowStart) + KeepAfter(b, windowStart)
  {
    if a == [] {
      assert a + b == b;
    } else {
      assert (a + b)[0] == a[0];
      assert (a + b)[1..] == a[1..] + b;
      KeepAfterDistributes(a[1..], b, windowStart);
    }
  }

  /** Filtering keeps a list whose timestamps are all inside the window unchanged. */
  lemma {:induction false} KeepAfterKeepsRecent(timestamps: seq<int>, windowStart: int)
    requires forall i :: 0 <= i < |timestamps| ==> timestamps[i] > windowStart
    ensures KeepAfter(timestamps, windowStart) == timestamps
  {
    if timestamps != [] {
      KeepAfterKeepsRecent(timestamps[1..], windowStart);
      assert timestamps == [timestamps[0]] + timestamps[1..];
    }
  }

  /** Filtering a list with a timestamp at or before the window start makes it shorter. */
  lemma {:induction false} KeepAfterDropsStale(timestamps: seq<int>, windowStart: int, k: nat)
    requires k < |timestamps| && timestamps[k] <= windowStart
    ensures |KeepAfter(timestamps, windowStart)| < |timestamps|
  {
    if k > 0 {
      KeepAfterDropsStale(timestamps[1..], windowStart, k - 1);
    }
  }

  datatype Decision = Decision(limited: bool, store: Store)

  /**
   * One call of `isRateLimited(ip)` at time `now`: prune the key's history to the
   * timestamps strictly after `now - WindowMs`; with `MaxRequests` or more left,
   * answer "limited" without recording `now` (a stored entry still keeps its pruned
   * list, since the filter result is written back into the shared entry object);
   * otherwise append `now`, store the entry and answer "allowed".
   */
  function RateLimitCheck(store: Store, ip: string, now: int): (d: Decision)
    ensures d.limited <==> |KeepAfter(History(store, ip), now - WindowMs)| >= MaxRequests
    ensures ip in store ==> ip in d.store
  {
    var kept := KeepAfter(History(store, ip), now - WindowMs);
    if |kept| >= MaxRequests then
      Decision(true, if ip in store then store[ip := kept] else store)
    else
      Decision(false, store[ip := kept + [now]])
  }

  /**
   * After a check every timestamp stored for the key lies strictly after
   * `now - WindowMs`: one exactly at the window start is dropped.
   */
  lemma StoredTimestampsInsideWindow(store: Store, ip: string, now: int)
    ensures var d := RateLimitCheck(store, ip, now);
            ip in d.store ==> forall i :: 0 <= i < |d.store[ip]| ==> d.store[ip][i] > now - WindowMs
  {
  }

  /**
   * A refused request is not recorded; a stored entry is still replaced by its
   * pruned list, and an absent key stays absent.
   */
  lemma RefusalRecordsNothing(store: Store, ip: string, now: int)
    requires RateLimitCheck(store, ip, now).limited
    ensures ip in store
    ensures RateLimitCheck(store, ip, now).store == store[ip := KeepAfter(store[ip], now - WindowMs)]
    ensures |RateLimitCheck(store, ip, now).store[ip]| <= |store[ip]|
  {
  }

  /** An accepted request appends `now` after the pruned history. */
  lemma AcceptanceAppendsNow(store: Store, ip: string, now: int)
    requires !RateLimitCheck(store, ip, now).limited
    ensures var d := RateLimitCheck(store, ip, now);
            ip in d.store && d.store[ip] == KeepAfter(History(store, ip), now - WindowMs) + [now]
            && |d.store[ip]| <= MaxRequests
  {
  }

  /** A key with no entry is an empty history: always accepted, recorded as `[now]`. */
  lemma AbsentKeyAccepted(store: Store, ip: string, now: int)
    requires ip !in store
    ensures RateLimitCheck(store, ip, now) == Decision(false, store[ip := [now]])
  {
    assert KeepAfter([], now - WindowMs) + [now] == [now];
  }

  /** The entries of all other keys are left as they were. */
  lemma OtherKeysUntouched(store: Store, ip: string, now: int)
    ensures var d := RateLimitCheck(store, ip, now);
            && (forall other :: other != ip ==> (other in d.store <==> other in store))
            && (forall other :: other != ip && other in store ==> d.store[other] == store[other])
  {
  }

  /** The table invariant "at most five timestamps per key" is preserved. */
  lemma CheckPreservesBound(store: Store, ip: string, now: int)
    requires Bounded(store)
    ensures Bounded(RateLimitCheck(store, ip, now).store)
  {
  }

  datatype Trace = Trace(results: seq<bool>, store: Store)

  /** The answers and the final table after checks from one client at `times`, in order. */
  function Replay(store: Store, ip: string, times: seq<int>): Trace {
    if times == [] then Trace([], store)
    else
      var before := Replay(store, ip, times[..|times| - 1]);
      var d := RateLimitCheck(before.store, ip, times[|times| - 1]);
      Trace(before.results + [d.limited], d.store)
  }

  /** `n` answers "allowed" in a row. */
  function Accepted(n: nat): seq<bool> {
    if n == 0 then [] else Accepted(n - 1) + [false]
  }

  /** A client whose recorded timestamps are all inside the window is judged by their number alone. */
  lemma CheckRecentHistory(store: Store, ip: string, now: int)
    requires forall i :: 0 <= i < |History(store, ip)| ==> History(store, ip)[i] > now - WindowMs
    ensures RateLimitCheck(store, ip, now).limited <==> |History(store, ip)| >= MaxRequests
    ensures History(RateLimitCheck(store, ip, now).store, ip)
            == if |History(store, ip)| >= MaxRequests then History(store, ip) else History(store, ip) + [now]
  {
    KeepAfterKeepsRecent(History(store, ip), now - WindowMs);
  }

  /** Every time lies in the hour that begins at `start`. */
  ghost predicate WithinHourFrom(times: seq<int>, start: int) {
    forall i :: 0 <= i < |times| ==> start <= times[i] < start + WindowMs
  }

  /** Replaying one more request extends the answers by that request's answer. */
  lemma ReplayExtend(store: Store, ip: string, times: seq<int>, t: int)
    ensures var before := Replay(store, ip, times);
            var d := RateLimitCheck(before.store, ip, t);
            Replay(store, ip, times + [t]) == Trace(before.results + [d.limited], d.store)
  {
    assert (times + [t])[..|times|] == times;
  }

  /**
   * A new client's first (up to) five requests inside one hour are all accepted,
   * and afterwards its history is exactly their times.
   */
  lemma {:induction false} FirstRequestsAccepted(store: Store, ip: string, times: seq<int>, start: int)
    requires ip !in store && |times| <= MaxRequests && WithinHourFrom(times, start)
    ensures Replay(store, ip, times).results == Accepted(|times|)
    ensures History(Replay(store, ip, times).store, ip) == times
  {
    if times != [] {
      var n := |times| - 1;
      var prefix := times[..n];
      assert times == prefix + [times[n]];
      FirstRequestsAccepted(store, ip, prefix, start);
      CheckRecentHistory(Replay(store, ip, prefix).store, ip, times[n]);
      ReplayExtend(store, ip, prefix, times[n]);
    }
  }

  /**
   * Five requests from a new client inside one hour are accepted and a sixth
   * inside the same hour is refused; the client's history is then the five
   * accepted times.
   */
  lemma SixthRequestRefused(store: Store, ip: string, times: seq<int>)
    requires ip !in store && |times| == 6 && WithinHourFrom(times, times[0])
    ensures Replay(store, ip, times).results == Accepted(5) + [true]
    ensures History(Replay(store, ip, times).store, ip) == times[..5]
  {
    var five := times[..5];
    assert times == five + [times[5]];
    FirstRequestsAccepted(store, ip, five, times[0]);
    CheckRecentHistory(Replay(store, ip, five).store, ip, times[5]);
    ReplayExtend(store, ip, five, times[5]);
  }

  /**
   * The rolling window: after five accepted requests and a refused sixth inside
   * one hour, a seventh made once an hour has passed since the first is accepted
   * again.
   */
  lemma RollingWindow(store: Store, ip: string, times: seq<int>)
    requires ip !in store && |times| == 7
    requires WithinHourFrom(times[..6], times[0]) && times[6] >= times[0] + WindowMs
    ensures Replay(store, ip, times).results == Accepted(5) + [true, false]
  {
    var six := times[..6];
    assert times == six + [times[6]];
    SixthRequestRefused(store, ip, six);
    KeepAfterDropsStale(six[..5], times[6] - WindowMs, 0);
    ReplayExtend(store, ip, six, times[6]);
  }
}
