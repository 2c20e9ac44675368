/**
 * `TrackingService` (src/services/tracking.service.ts): rate limiting,
 * validation, cleaning and insertion of one tracking event. The rate
 * limit cache is a field the methods update in place; the table is the
 * in-memory `EventStore`. `now` and `today` replace `Date.now()` and the
 * database's clock; whether the insert succeeds is a parameter.
 */
module Tracking {
  import opened Wrappers
  import opened JsStrings
  import opened Response
  import opened Checks
  import opened TrackingTypes
  import opened EventTable
  import opened RateLimit

  // ------------------------------------------------------- validation

  const SessionIdMax := 64
  const PagePathMax := 255
  const PageTitleMax := 255
  const UserIdMax := 64

  /** `validateTrackingData`: the first failing check decides the message. */
  function ValidateTrackingData(data: TrackingRequest): (r: Verdict)
    ensures r.ok <==>
      Trim(data.sessionId) != "" && Trim(data.pagePath) != "" && Trim(data.eventType) != ""
      && data.timestamp.Some? && data.timestamp.value > 0
      && |data.sessionId| <= SessionIdMax && |data.pagePath| <= PagePathMax
      && |data.pageTitle| <= PageTitleMax && |data.userId| <= UserIdMax
    ensures r.ok ==> r == Pass
  {
    if Trim(data.sessionId) == "" then Verdict(false, "sessionId 不能为空")
    else if Trim(data.pagePath) == "" then Verdict(false, "pagePath 不能为空")
    else if Trim(data.eventType) == "" then Verdict(false, "eventType 不能为空")
    else if data.timestamp.None? || data.timestamp.value <= 0 then Verdict(false, "timestamp 必须是有效的时间戳")
    else if |data.sessionId| > SessionIdMax then Verdict(false, "sessionId 长度不能超过64个字符")
    else if |data.pagePath| > PagePathMax then Verdict(false, "pagePath 长度不能超过255个字符")
    else if |data.pageTitle| > PageTitleMax then Verdict(false, "pageTitle 长度不能超过255个字符")
    else if |data.userId| > UserIdMax then Verdict(false, "userId 长度不能超过64个字符")
    else Pass
  }

  /** Lengths are measured before trimming: a short value padded past its limit is refused. */
  lemma PaddedSessionIdRefused(data: TrackingRequest)
    requires |data.sessionId| > 64 && |Trim(data.sessionId)| <= 64
    ensures !ValidateTrackingData(data).ok
  {
  }

  /** A missing or non-positive timestamp is reported once the three required texts are present. */
  lemma MissingTimestampMessage(data: TrackingRequest)
    requires Trim(data.sessionId) != "" && Trim(data.pagePath) != "" && Trim(data.eventType) != ""
    requires data.timestamp.None? || data.timestamp.value <= 0
    ensures ValidateTrackingData(data) == Verdict(false, "timestamp 必须是有效的时间戳")
  {
  }

  // --------------------------------------------------------- cleaning

  function DeviceColumns(d: Option<DeviceInfo>): (string, int, int) {
    match d
    case None => ("", 0, 0)
    case Some(i) => (i.deviceType, i.deviceMemory, i.hardwareConcurrency)
  }

  /** The client-description columns: each value as sent, NULL when its object is absent. */
  function TrackingClientColumns(data: TrackingRequest): ClientColumns {
    var (deviceType, deviceMemory, hardwareConcurrency) := DeviceColumns(data.deviceInfo);
    var b := data.browserInfo.GetOr(BrowserInfo("", "", ""));
    var o := data.osInfo.GetOr(OsInfo("", ""));
    var s := data.screenInfo.GetOr(ScreenInfo(0, 0, 0, 0));
    ClientColumns(deviceType, deviceMemory, hardwareConcurrency, b.name, b.version, b.language,
      o.name, o.version, s.width, s.height, s.colorDepth, s.pixelRatio)
  }

  /** `JSON.stringify(eventData)`, or NULL when there is no event data. */
  function EventDataColumn(e: EventData): string {
    match e
    case NoEventData => ""
    case EventValue(json, _) => json
  }

  /**
   * `cleanTrackingData` followed by the insert parameters: the row to
   * insert (its `id` is assigned by the table). Texts are trimmed, and
   * an optional text that trims to nothing becomes NULL.
   */
  function CleanTrackingData(data: TrackingRequest, clientIp: string, today: int): EventRow {
    EventRow(0, Trim(data.userId), Trim(data.sessionId), Trim(data.eventType), Trim(data.pagePath),
      Trim(data.pageTitle), Trim(data.referrer), Trim(data.userAgent), clientIp,
      TrackingClientColumns(data), data.timestamp.GetOr(0), EventDataColumn(data.eventData),
      StatusValid, today)
  }

  /** The shape every stored row of a validated request has. */
  predicate WellFormedRow(row: EventRow) {
    row.sessionId != "" && row.pagePath != "" && row.eventType != ""
    && Trim(row.sessionId) == row.sessionId && Trim(row.pagePath) == row.pagePath && Trim(row.eventType) == row.eventType
    && |row.sessionId| <= SessionIdMax && |row.pagePath| <= PagePathMax
    && |row.pageTitle| <= PageTitleMax && |row.userId| <= UserIdMax
    && row.status == StatusValid
  }

  /**
   * A request that passes validation is stored as a well-formed row
   * with the server-derived address and the client's positive timestamp.
   */
  lemma ValidatedRowWellFormed(data: TrackingRequest, clientIp: string, today: int)
    requires ValidateTrackingData(data).ok
    ensures var row := CleanTrackingData(data, clientIp, today);
      WellFormedRow(row) && row.clientIp == clientIp && row.eventTimestamp == data.timestamp.value > 0
  {
    TrimmedWithin(data.sessionId, SessionIdMax);
    TrimmedWithin(data.pagePath, PagePathMax);
    TrimmedWithin(data.eventType, |data.eventType|);
    TrimmedWithin(data.pageTitle, PageTitleMax);
    TrimmedWithin(data.userId, UserIdMax);
  }

  /** A trimmed text is trimmed for good and no longer than its source. */
  lemma TrimmedWithin(s: string, max: nat)
    requires |s| <= max
    ensures Trim(Trim(s)) == Trim(s) && |Trim(s)| <= max
  {
    TrimIdempotent(s);
  }

  // ----------------------------------------------------------- logEvent

  const RateLimitedPrefix := "请求过于频繁，请稍后再试。"
  const TrackingSuccessMessage := "埋点数据记录成功"
  const TrackingFailureMessage := "记录埋点数据失败"

  /** The response, cache and inserted row (if any) of one `logEvent` call. */
  datatype LogOutcome = LogOutcome(response: ApiResponse<TrackingResponse>, cache: Cache, inserted: Option<EventRow>)

  /**
   * `logEvent`: rate check, validation, cleaning, insert, count update,
   * in that order. `nextId` is the identifier the insert would receive.
   */
  function LogEventSpec(cache: Cache, nextId: nat, data: TrackingRequest, clientIp: string, now: int, today: int,
                        insertOk: bool, insertError: string): LogOutcome
  {
    var key := RateKey(clientIp, data.sessionId);
    var checked := Check(cache, key, now);
    if !checked.allowed then
      LogOutcome(ValidationError(RateLimitedPrefix + checked.message), checked.cache, None)
    else
      var validation := ValidateTrackingData(data);
      if !validation.ok then LogOutcome(ValidationError(validation.message), checked.cache, None)
      else if !insertOk then LogOutcome(ServerError(MessageOr(insertError, TrackingFailureMessage)), checked.cache, None)
      else
        var row := CleanTrackingData(data, clientIp, today).(id := nextId);
        LogOutcome(Success(TrackingResponse(true, TrackingSuccessMessage, NatToString(nextId)), TrackingSuccessMessage),
          Update(checked.cache, key, now), Some(row))
  }

  /**
   * The rate check comes first: a limited client is answered with the
   * rate-limit message whatever its data, and nothing is stored.
   */
  lemma RateCheckComesFirst(cache: Cache, nextId: nat, data: TrackingRequest, clientIp: string, now: int, today: int,
                            insertOk: bool, insertError: string)
    requires !Check(cache, RateKey(clientIp, data.sessionId), now).allowed
    ensures var o := LogEventSpec(cache, nextId, data, clientIp, now, today, insertOk, insertError);
      o.response.errorCode == CodeValidationError
      && o.response.message == RateLimitedPrefix + Check(cache, RateKey(clientIp, data.sessionId), now).message
      && o.inserted.None?
  {
  }

  /**
   * A request that is not stored is not counted: the cache is exactly
   * what the rate check left, and the count is never incremented.
   */
  lemma UnstoredRequestNotCounted(cache: Cache, nextId: nat, data: TrackingRequest, clientIp: string, now: int,
                                  today: int, insertOk: bool, insertError: string)
    ensures var o := LogEventSpec(cache, nextId, data, clientIp, now, today, insertOk, insertError);
      !o.response.IsSuccess() ==> o.inserted.None? && o.cache == Check(cache, RateKey(clientIp, data.sessionId), now).cache
  {
  }

  /** A request succeeds exactly when the rate check allows it, it is valid and the insert works. */
  lemma SuccessIff(cache: Cache, nextId: nat, data: TrackingRequest, clientIp: string, now: int,
                   today: int, insertOk: bool, insertError: string)
    ensures LogEventSpec(cache, nextId, data, clientIp, now, today, insertOk, insertError).response.IsSuccess() <==>
      Check(cache, RateKey(clientIp, data.sessionId), now).allowed && ValidateTrackingData(data).ok && insertOk
  {
  }

  /**
   * A successful request stores one well-formed row under `nextId`,
   * answers that identifier as text, and is counted exactly once.
   */
  lemma StoredRequestCounted(cache: Cache, nextId: nat, data: TrackingRequest, clientIp: string, now: int,
                             today: int, insertOk: bool, insertError: string)
    requires LogEventSpec(cache, nextId, data, clientIp, now, today, insertOk, insertError).response.IsSuccess()
    ensures var o := LogEventSpec(cache, nextId, data, clientIp, now, today, insertOk, insertError);
      o.inserted.Some? && o.inserted.value.id == nextId && WellFormedRow(o.inserted.value)
      && o.response.data == Some(TrackingResponse(true, TrackingSuccessMessage, NatToString(nextId)))
      && o.cache == Accept(cache, RateKey(clientIp, data.sessionId), now)
  {
    SuccessIff(cache, nextId, data, clientIp, now, today, insertOk, insertError);
    var key := RateKey(clientIp, data.sessionId);
    var checked := Check(cache, key, now);
    var row := CleanTrackingData(data, clientIp, today);
    assert LogEventSpec(cache, nextId, data, clientIp, now, today, insertOk, insertError)
      == LogOutcome(Success(TrackingResponse(true, TrackingSuccessMessage, NatToString(nextId)), TrackingSuccessMessage),
           Update(checked.cache, key, now), Some(row.(id := nextId)));
    ValidatedRowWellFormed(data, clientIp, today);
    assert WellFormedRow(row.(id := nextId)) by {
      assert WellFormedRow(row);
    }
  }

  // ------------------------------------------------------------ service

  class TrackingService {
    /** `rateLimitCache`. */
    var rateLimitCache: Cache
    /** `dataSource`: the table events are inserted into. */
    const db: EventStore

    /** `new TrackingService(dataSource)`: an empty cache (the sweep timer is not modelled). */
    constructor(db: EventStore)
      ensures this.db == db && rateLimitCache == map[]
    {
      this.db := db;
      rateLimitCache := map[];
    }

    /** `checkRateLimit(clientIP, sessionId)`. */
    method CheckRateLimit(clientIp: string, sessionId: string, now: int) returns (allowed: bool, message: string)
      modifies this
      ensures CheckOutcome(allowed, message, rateLimitCache) == Check(old(rateLimitCache), RateKey(clientIp, sessionId), now)
    {
      var key := RateKey(clientIp, sessionId);
      if key in rateLimitCache && ActivelyBlocked(rateLimitCache[key], now) {
        var remainingMs := rateLimitCache[key].blockUntil.value - now;
        return false, WaitMessage(RemainingMinutes(remainingMs));
      }
      if key in rateLimitCache && !rateLimitCache[key].blocked {
        var status := rateLimitCache[key];
        if now < status.resetTime {
          if status.count >= MaxRequests {
            var blockUntil := now + BlockDurationMs;
            rateLimitCache := rateLimitCache[key := status.(blocked := true, blockUntil := Some(blockUntil))];
            return false, BlockedNowMessage;
          }
        } else {
          rateLimitCache := rateLimitCache[key := RateLimitStatus(key, 0, now + WindowMs, false, None)];
        }
      }
      return true, "";
    }

    /** `updateRateLimit(clientIP, sessionId)`. */
    method UpdateRateLimit(clientIp: string, sessionId: string, now: int)
      modifies this
      ensures rateLimitCache == Update(old(rateLimitCache), RateKey(clientIp, sessionId), now)
    {
      var key := RateKey(clientIp, sessionId);
      var status := if key in rateLimitCache then rateLimitCache[key] else RateLimitStatus(key, 0, now + WindowMs, false, None);
      if !status.blocked || !HasBlockUntil(status) || now >= status.blockUntil.value {
        status := status.(count := status.count + 1);
        status := status.(blocked := false);
        status := status.(blockUntil := None);
      }
      rateLimitCache := rateLimitCache[key := status];
    }

    /** `cleanupRateLimit()`: collect the expired keys, then delete them. */
    method CleanupRateLimit(now: int)
      modifies this
      ensures rateLimitCache == Cleanup(old(rateLimitCache), now)
    {
      var toDelete: set<string> := {};
      var pending := rateLimitCache.Keys;
      while pending != {}
        invariant pending <= rateLimitCache.Keys
        invariant rateLimitCache == old(rateLimitCache)
        invariant forall k :: k in toDelete <==> k in rateLimitCache && k !in pending && Expired(rateLimitCache[k], now)
        decreases pending
      {
        var key :| key in pending;
        if Expired(rateLimitCache[key], now) {
          toDelete := toDelete + {key};
        }
        pending := pending - {key};
      }
      var remaining := toDelete;
      while remaining != {}
        invariant remaining <= toDelete
        invariant rateLimitCache == map k | k in old(rateLimitCache) && (k !in toDelete || k in remaining) :: old(rateLimitCache)[k]
        decreases remaining
      {
        var key :| key in remaining;
        rateLimitCache := rateLimitCache - {key};
        remaining := remaining - {key};
      }
    }

    /** `logEvent(trackingData, clientIP)`. */
    method LogEvent(data: TrackingRequest, clientIp: string, now: int, today: int, insertOk: bool, insertError: string)
      returns (r: ApiResponse<TrackingResponse>)
      requires db.Valid()
      modifies this, db
      ensures db.Valid()
      ensures var o := LogEventSpec(old(rateLimitCache), old(db.nextId), data, clientIp, now, today, insertOk, insertError);
        r == o.response && rateLimitCache == o.cache
        && (o.inserted.None? ==> db.rows == old(db.rows) && db.nextId == old(db.nextId))
        && (o.inserted.Some? ==> db.rows == old(db.rows) + [o.inserted.value] && db.nextId == old(db.nextId) + 1)
    {
      var allowed, message := CheckRateLimit(clientIp, data.sessionId, now);
      if !allowed {
        return ValidationError(RateLimitedPrefix + message);
      }
      var validation := ValidateTrackingData(data);
      if !validation.ok {
        return ValidationError(validation.message);
      }
      var row := CleanTrackingData(data, clientIp, today);
      if !insertOk {
        return ServerError(MessageOr(insertError, TrackingFailureMessage));
      }
      var trackingId := db.Insert(row);
      UpdateRateLimit(clientIp, data.sessionId, now);
      var response := TrackingResponse(true, TrackingSuccessMessage, NatToString(trackingId));
      return Success(response, TrackingSuccessMessage);
    }
  }
}
