/**
 * The per-key rate limiter of the tracking service, as functions from
 * the cache before an operation to the cache after it. The service
 * class holds the cache and changes it in place; these functions are
 * what its methods are proved against.
 */
module RateLimit {
  import opened Wrappers
  import opened JsStrings

  /** `windowMs`: one minute. */
  const WindowMs := 60000
  /** `maxRequests` within one window. */
  const MaxRequests := 100
  /** `blockDurationMs`: five minutes. */
  const BlockDurationMs := 300000

  /** `RateLimitStatus`; `blockUntil` is `None` when the property is absent. */
  datatype RateLimitStatus = RateLimitStatus(key: string, count: int, resetTime: int, blocked: bool, blockUntil: Option<int>)

  type Cache = map<string, RateLimitStatus>

  /** `${clientIP}:${sessionId}`. */
  function RateKey(clientIp: string, sessionId: string): string {
    clientIp + ":" + sessionId
  }

  /** `status.blockUntil` is truthy: present and not zero. */
  predicate HasBlockUntil(st: RateLimitStatus) {
    st.blockUntil.Some? && st.blockUntil.value != 0
  }

  /** `status.blocked && status.blockUntil && now < status.blockUntil`. */
  predicate ActivelyBlocked(st: RateLimitStatus, now: int) {
    st.blocked && HasBlockUntil(st) && now < st.blockUntil.value
  }

  /** `Math.ceil(remainingMs / 60000)` for a positive remainder. */
  function RemainingMinutes(remainingMs: int): (m: nat)
    requires remainingMs > 0
    ensures (m - 1) * 60000 < remainingMs <= m * 60000
  {
    (remainingMs + 59999) / 60000
  }

  const BlockedNowMessage := "1分钟内请求次数过多，已被暂时阻止"

  function WaitMessage(minutes: nat): string {
    "还需等待 " + NatToString(minutes) + " 分钟"
  }

  /** `{ allowed, message }` and the cache `checkRateLimit` leaves behind. */
  datatype CheckOutcome = CheckOutcome(allowed: bool, message: string, cache: Cache)

  /** `checkRateLimit` for `key` at time `now`. */
  function Check(cache: Cache, key: string, now: int): CheckOutcome {
    if key in cache && ActivelyBlocked(cache[key], now) then
      CheckOutcome(false, WaitMessage(RemainingMinutes(cache[key].blockUntil.value - now)), cache)
    else if key in cache && !cache[key].blocked then
      var st := cache[key];
      if now < st.resetTime then
        if st.count >= MaxRequests then
          CheckOutcome(false, BlockedNowMessage,
            cache[key := st.(blocked := true, blockUntil := Some(now + BlockDurationMs))])
        else CheckOutcome(true, "", cache)
      else CheckOutcome(true, "", cache[key := RateLimitStatus(key, 0, now + WindowMs, false, None)])
    else CheckOutcome(true, "", cache)
  }

  /** `updateRateLimit` for `key` at time `now`. */
  function Update(cache: Cache, key: string, now: int): Cache {
    var st := if key in cache then cache[key] else RateLimitStatus(key, 0, now + WindowMs, false, None);
    var st' :=
      if !st.blocked || !HasBlockUntil(st) || now >= st.blockUntil.value
      then st.(count := st.count + 1, blocked := false, blockUntil := None)
      else st;
    cache[key := st']
  }

  /** The sweep condition of `cleanupRateLimit`. */
  predicate Expired(st: RateLimitStatus, now: int) {
    now > st.resetTime && (!HasBlockUntil(st) || now > st.blockUntil.value)
  }

  /** `cleanupRateLimit` at time `now`. */
  function Cleanup(cache: Cache, now: int): Cache {
    map k | k in cache && !Expired(cache[k], now) :: cache[k]
  }

  // ------------------------------------------------ single operations

  /** `check` never adds or removes a key, and never touches another key's entry. */
  lemma CheckKeepsKeys(cache: Cache, key: string, now: int)
    ensures Check(cache, key, now).cache.Keys == cache.Keys
    ensures forall k | k in cache && k != key :: Check(cache, key, now).cache[k] == cache[k]
  {
  }

  /**
   * During a block, `check` rejects, tells the client how many whole
   * minutes remain (at most five for a block it set itself), and changes
   * nothing.
   */
  lemma CheckDuringBlock(cache: Cache, key: string, now: int)
    requires key in cache && ActivelyBlocked(cache[key], now)
    ensures var o := Check(cache, key, now);
      !o.allowed && o.cache == cache
      && exists m: nat :: o.message == WaitMessage(m)
           && (m - 1) * 60000 < cache[key].blockUntil.value - now <= m * 60000
    ensures cache[key].blockUntil.value <= now + BlockDurationMs ==>
      exists m: nat | 1 <= m <= 5 :: Check(cache, key, now).message == WaitMessage(m)
  {
    var remaining := cache[key].blockUntil.value - now;
    var m := RemainingMinutes(remaining);
    assert Check(cache, key, now).message == WaitMessage(m);
    if remaining <= BlockDurationMs {
      assert (m - 1) * 60000 < 5 * 60000;
      assert m >= 1;
    }
  }

  /**
   * The request after `maxRequests` counted ones in the same window is
   * rejected and starts a five-minute block; count and window are kept.
   * (Clock times are milliseconds since the epoch, so `now >= 0`.)
   */
  lemma CheckStartsBlock(cache: Cache, key: string, now: int)
    requires now >= 0
    requires key in cache && !cache[key].blocked && now < cache[key].resetTime && cache[key].count >= MaxRequests
    ensures var o := Check(cache, key, now);
      !o.allowed && o.message == BlockedNowMessage
      && o.cache == cache[key := cache[key].(blocked := true, blockUntil := Some(now + BlockDurationMs))]
      && ActivelyBlocked(o.cache[key], now) && o.cache[key].count == cache[key].count
  {
  }

  /** Once an unblocked entry's window is over, `check` starts a fresh window with count 0, and allows. */
  lemma CheckStartsNewWindow(cache: Cache, key: string, now: int)
    requires key in cache && !cache[key].blocked && now >= cache[key].resetTime
    ensures var o := Check(cache, key, now);
      o.allowed && o.cache == cache[key := RateLimitStatus(key, 0, now + WindowMs, false, None)]
  {
  }

  /**
   * `check` allows without any change for an unknown key, for an entry
   * whose block has lapsed, and for an entry under its limit; it rejects
   * only actively blocked entries and entries at their limit.
   */
  lemma CheckAllowsUnchanged(cache: Cache, key: string, now: int)
    requires key !in cache
      || (cache[key].blocked && !ActivelyBlocked(cache[key], now))
      || (!cache[key].blocked && now < cache[key].resetTime && cache[key].count < MaxRequests)
    ensures var o := Check(cache, key, now); o.allowed && o.message == "" && o.cache == cache
  {
  }

  /** `check` rejects exactly actively blocked entries and unblocked entries at their limit inside their window. */
  lemma CheckRejectsIff(cache: Cache, key: string, now: int)
    ensures !Check(cache, key, now).allowed <==>
      key in cache && (ActivelyBlocked(cache[key], now)
        || (!cache[key].blocked && now < cache[key].resetTime && cache[key].count >= MaxRequests))
  {
  }

  /** `update` of an unknown key opens a window with count 1. */
  lemma UpdateCreates(cache: Cache, key: string, now: int)
    requires key !in cache
    ensures Update(cache, key, now) == cache[key := RateLimitStatus(key, 1, now + WindowMs, false, None)]
  {
  }

  /** `update` of an entry not actively blocked adds exactly one and clears the block; the window is kept. */
  lemma UpdateCounts(cache: Cache, key: string, now: int)
    requires key in cache && !ActivelyBlocked(cache[key], now)
    ensures var st := cache[key];
      Update(cache, key, now) == cache[key := RateLimitStatus(st.key, st.count + 1, st.resetTime, false, None)]
  {
  }

  /** `update` leaves an actively blocked entry as it is, and never touches another key. */
  lemma UpdateDuringBlock(cache: Cache, key: string, now: int)
    requires key in cache && ActivelyBlocked(cache[key], now)
    ensures Update(cache, key, now) == cache
  {
  }

  /** `cleanup` removes exactly the expired entries and leaves every other entry as it was. */
  lemma CleanupRemovesExactlyExpired(cache: Cache, now: int)
    ensures forall k :: k in Cleanup(cache, now) <==> k in cache && !Expired(cache[k], now)
    ensures forall k | k in Cleanup(cache, now) :: Cleanup(cache, now)[k] == cache[k]
  {
  }

  /** An entry inside its window, or inside a block, survives the sweep. */
  lemma CleanupKeepsLive(cache: Cache, key: string, now: int)
    requires key in cache
    requires now <= cache[key].resetTime || (HasBlockUntil(cache[key]) && now <= cache[key].blockUntil.value)
    ensures key in Cleanup(cache, now) && Cleanup(cache, now)[key] == cache[key]
  {
  }

  // --------------------------------------------- sequences of requests

  /**
   * One accepted request as the service handles it: the check, and the
   * count update when the check allows (validation and insert
   * succeeding).
   */
  function Accept(cache: Cache, key: string, now: int): Cache {
    var o := Check(cache, key, now);
    if o.allowed then Update(o.cache, key, now) else o.cache
  }

  /** Requests for `key` at the given times, in order. */
  function AcceptAll(cache: Cache, key: string, times: seq<int>): Cache
    decreases |times|
  {
    if times == [] then cache
    else Accept(AcceptAll(cache, key, times[..|times| - 1]), key, times[|times| - 1])
  }

  /**
   * Starting with no entry for `key`, `n <= 100` requests within a minute
   * of the first are all allowed, and leave count `n` in a window that
   * ends a minute after the first request.
   */
  lemma {:induction false} WindowFills(cache: Cache, key: string, times: seq<int>)
    requires key !in cache && 0 < |times| <= MaxRequests
    requires forall i | 0 <= i < |times| :: times[i] < times[0] + WindowMs
    ensures AcceptAll(cache, key, times)[key] == RateLimitStatus(key, |times|, times[0] + WindowMs, false, None)
  {
    var n := |times|;
    var prefix := times[..n - 1];
    if n == 1 {
      assert prefix == [];
      assert AcceptAll(cache, key, prefix) == cache;
      FirstRequestOpensWindow(cache, key, times[0]);
    } else {
      assert prefix[0] == times[0];
      WindowFills(cache, key, prefix);
      RequestInsideWindow(AcceptAll(cache, key, prefix), key, times[n - 1], n - 1, times[0] + WindowMs);
    }
  }

  /** In that same situation every one of the requests is allowed. */
  lemma WindowAllows(cache: Cache, key: string, times: seq<int>)
    requires key !in cache && 0 < |times| <= MaxRequests
    requires forall i | 0 <= i < |times| :: times[i] < times[0] + WindowMs
    ensures forall i | 0 <= i < |times| :: Check(AcceptAll(cache, key, times[..i]), key, times[i]).allowed
  {
    forall i | 0 <= i < |times|
      ensures Check(AcceptAll(cache, key, times[..i]), key, times[i]).allowed
    {
      var done := times[..i];
      if i == 0 {
        assert AcceptAll(cache, key, done) == cache;
        FirstRequestOpensWindow(cache, key, times[0]);
      } else {
        assert done[0] == times[0];
        WindowFills(cache, key, done);
        RequestInsideWindow(AcceptAll(cache, key, done), key, times[i], i, times[0] + WindowMs);
      }
    }
  }

  /** The first request for a key is allowed and opens its window with count 1. */
  lemma FirstRequestOpensWindow(cache: Cache, key: string, now: int)
    requires key !in cache
    ensures Check(cache, key, now).allowed
    ensures Accept(cache, key, now)[key] == RateLimitStatus(key, 1, now + WindowMs, false, None)
  {
  }

  /** A request inside an unblocked window below the limit is allowed and counted, and the window is kept. */
  lemma RequestInsideWindow(cache: Cache, key: string, now: int, n: nat, resetTime: int)
    requires key in cache && cache[key] == RateLimitStatus(key, n, resetTime, false, None)
    requires n < MaxRequests && now < resetTime
    ensures Check(cache, key, now).allowed
    ensures Accept(cache, key, now)[key] == RateLimitStatus(key, n + 1, resetTime, false, None)
  {
  }

  /**
   * After 100 counted requests in one window, the next request in that
   * window is rejected and blocks the key for five minutes.
   */
  lemma HundredAndFirstBlocked(cache: Cache, key: string, times: seq<int>, now: int)
    requires now >= 0
    requires key !in cache && |times| == MaxRequests
    requires forall i | 0 <= i < |times| :: times[i] < times[0] + WindowMs
    requires now < times[0] + WindowMs
    ensures var o := Check(AcceptAll(cache, key, times), key, now);
      !o.allowed && o.message == BlockedNowMessage
      && o.cache[key].blockUntil == Some(now + BlockDurationMs) && ActivelyBlocked(o.cache[key], now)
  {
    WindowFills(cache, key, times);
  }

  /**
   * When a block lapses, the next request is allowed and counted on top
   * of the old count, in the old (long past) window; only the request
   * after it starts a fresh window.
   */
  lemma BlockLapseKeepsCount(cache: Cache, key: string, now: int)
    requires key in cache && cache[key].blocked && HasBlockUntil(cache[key]) && now >= cache[key].blockUntil.value
    ensures var st := cache[key];
      Check(cache, key, now).allowed
      && Accept(cache, key, now)[key] == RateLimitStatus(st.key, st.count + 1, st.resetTime, false, None)
  {
    assert !ActivelyBlocked(cache[key], now);
    assert Check(cache, key, now) == CheckOutcome(true, "", cache);
  }
}
