/**
 * `TrackingController` (src/controllers/tracking.controller.ts): derives
 * the client address, rebuilds the request around it, screens it, and
 * hands it to the tracking service.
 */
module TrackingController {
  import opened Wrappers
  import opened JsStrings
  import opened Response
  import opened Checks
  import opened ClientIp
  import opened InjectionPatterns
  import opened TrackingTypes
  import opened EventTable
  import opened RateLimit
  import opened Tracking

  /**
   * The request the service receives: the body without its own
   * `clientIp`, the derived address in its place, and the User-Agent
   * header in preference to the body's `userAgent`.
   */
  function BuildTrackingData(body: TrackingRequest, ctx: RequestContext, clientIp: string): (r: TrackingRequest)
    ensures r.clientIp == clientIp
    ensures r.userAgent == (if ctx.userAgent != "" then ctx.userAgent else body.userAgent)
    ensures r.(clientIp := body.clientIp, userAgent := body.userAgent) == body
  {
    body.(clientIp := clientIp, userAgent := if ctx.userAgent != "" then ctx.userAgent else body.userAgent)
  }

  /** Whatever `clientIp` a client sends, the service sees the same request. */
  lemma BodyClientIpDiscarded(body: TrackingRequest, spoofed: string, ctx: RequestContext, clientIp: string)
    ensures BuildTrackingData(body.(clientIp := spoofed), ctx, clientIp) == BuildTrackingData(body, ctx, clientIp)
  {
  }

  // ------------------------------------------------- security check

  const EventDataRiskMessage := "事件数据中检测到安全风险"
  const EventDataTooLargeMessage := "事件数据过大，超过10KB限制"
  const FutureTimestampMessage := "时间戳不能是未来时间"
  const AncientTimestampMessage := "时间戳过于久远"

  /** The allowed clock skew into the future. */
  const ClockSkewMs := 60000
  /** `365 * 24 * 60 * 60 * 1000`. */
  const OneYearMs := 31536000000
  /** The largest serialized `eventData`, in characters. */
  const MaxEventDataLength := 10240

  /** `textFields`: the fields both injection screens look at (not `eventType`). */
  function ScreenedFields(data: TrackingRequest): seq<string> {
    [data.pagePath, data.pageTitle, data.referrer, data.sessionId, data.userId]
  }

  /** The `eventData` screen applies only to object values. */
  predicate EventDataRisky(e: EventData) {
    e.EventValue? && e.isObject && (SqlPattern(e.json) || XssPattern(e.json))
  }

  predicate EventDataTooLarge(e: EventData) {
    e.EventValue? && e.isObject && |e.json| > MaxEventDataLength
  }

  /** `lengthChecks`, in order. */
  function TrackingLengthRules(data: TrackingRequest): seq<Rule> {
    [LengthRule(data.pagePath, "pagePath", 255), LengthRule(data.pageTitle, "pageTitle", 255),
     LengthRule(data.referrer, "referrer", 500), LengthRule(data.sessionId, "sessionId", 64),
     LengthRule(data.userId, "userId", 64)]
  }

  predicate WithinLengths(data: TrackingRequest) {
    |data.pagePath| <= 255 && |data.pageTitle| <= 255 && |data.referrer| <= 500
    && |data.sessionId| <= 64 && |data.userId| <= 64
  }

  /** The length rules all pass exactly when every field is within its limit. */
  lemma LengthRulesPass(data: TrackingRequest)
    ensures FirstFailure(TrackingLengthRules(data)).ok <==> WithinLengths(data)
  {
    var rules := TrackingLengthRules(data);
    assert rules[0].passes <==> |data.pagePath| <= 255;
    assert rules[1].passes <==> |data.pageTitle| <= 255;
    assert rules[2].passes <==> |data.referrer| <= 500;
    assert rules[3].passes <==> |data.sessionId| <= 64;
    assert rules[4].passes <==> |data.userId| <= 64;
  }

  /** `data.timestamp > now + 60000`; an absent timestamp compares false. */
  predicate FromTheFuture(ts: Option<int>, now: int) {
    ts.Some? && ts.value > now + ClockSkewMs
  }

  /** `data.timestamp < now - oneYearMs`. */
  predicate TooOld(ts: Option<int>, now: int) {
    ts.Some? && ts.value < now - OneYearMs
  }

  /** `performSecurityCheck(data)` at clock time `now`. */
  function PerformSecurityCheck(data: TrackingRequest, now: int): (r: Verdict)
    ensures r.ok <==>
      !AnySql(ScreenedFields(data)) && !AnyXss(ScreenedFields(data))
      && !EventDataRisky(data.eventData) && !EventDataTooLarge(data.eventData)
      && WithinLengths(data) && !FromTheFuture(data.timestamp, now) && !TooOld(data.timestamp, now)
    ensures r.ok ==> r == Pass
  {
    var fields := ScreenedFields(data);
    LengthRulesPass(data);
    var lengths := FirstFailure(TrackingLengthRules(data));
    if AnySql(fields) then Verdict(false, SqlMessage)
    else if AnyXss(fields) then Verdict(false, XssMessage)
    else if EventDataRisky(data.eventData) then Verdict(false, EventDataRiskMessage)
    else if EventDataTooLarge(data.eventData) then Verdict(false, EventDataTooLargeMessage)
    else if !lengths.ok then lengths
    else if FromTheFuture(data.timestamp, now) then Verdict(false, FutureTimestampMessage)
    else if TooOld(data.timestamp, now) then Verdict(false, AncientTimestampMessage)
    else Pass
  }

  /**
   * Among the length checks the first overlong field in source order is
   * reported, whatever the fields after it hold: an overlong title with a
   * path in bounds is reported as the title.
   */
  lemma FirstOverlongFieldReported(data: TrackingRequest, now: int, k: nat)
    requires !AnySql(ScreenedFields(data)) && !AnyXss(ScreenedFields(data))
    requires !EventDataRisky(data.eventData) && !EventDataTooLarge(data.eventData)
    requires k < |TrackingLengthRules(data)| && !TrackingLengthRules(data)[k].passes
    requires forall j | 0 <= j < k :: TrackingLengthRules(data)[j].passes
    ensures PerformSecurityCheck(data, now) == Verdict(false, TrackingLengthRules(data)[k].message)
  {
    FirstFailureAt(TrackingLengthRules(data), k);
  }

  /** A page title over 255 characters, with the path in bounds, is reported as the title. */
  lemma OverlongTitleReported(data: TrackingRequest, now: int)
    requires !AnySql(ScreenedFields(data)) && !AnyXss(ScreenedFields(data))
    requires !EventDataRisky(data.eventData) && !EventDataTooLarge(data.eventData)
    requires |data.pagePath| <= 255 && |data.pageTitle| > 255
    ensures PerformSecurityCheck(data, now) == Verdict(false, TooLongMessage("pageTitle", 255))
  {
    FirstOverlongFieldReported(data, now, 1);
  }

  /** The SQL screen runs first: a field that trips both screens is reported as SQL injection. */
  lemma SqlReportedBeforeXss(data: TrackingRequest, now: int, k: nat)
    requires k < |ScreenedFields(data)| && SqlPattern(ScreenedFields(data)[k])
    ensures PerformSecurityCheck(data, now) == Verdict(false, SqlMessage)
  {
  }

  /** With no SQL match, a field that trips an XSS pattern is reported as XSS. */
  lemma XssReportedAfterSql(data: TrackingRequest, now: int, k: nat)
    requires k < |ScreenedFields(data)| && XssPattern(ScreenedFields(data)[k])
    requires !AnySql(ScreenedFields(data))
    ensures PerformSecurityCheck(data, now) == Verdict(false, XssMessage)
  {
  }

  /** A page title `<script>alert(1)</script>` is refused as XSS when no screened field trips the SQL screen. */
  lemma ScriptAlertTitleRefused(data: TrackingRequest, now: int)
    requires data.pageTitle == ScriptAlert
    requires !SqlPattern(data.pagePath) && !SqlPattern(data.referrer)
    requires !SqlPattern(data.sessionId) && !SqlPattern(data.userId)
    ensures PerformSecurityCheck(data, now) == Verdict(false, XssMessage)
  {
    ScriptAlertIsXssOnly();
    XssReportedAfterSql(data, now, 1);
  }

  /** `eventType` is not among the screened fields: its content never changes the verdict. */
  lemma EventTypeNotScreened(data: TrackingRequest, eventType: string, now: int)
    ensures PerformSecurityCheck(data.(eventType := eventType), now) == PerformSecurityCheck(data, now)
  {
    assert ScreenedFields(data.(eventType := eventType)) == ScreenedFields(data);
    assert TrackingLengthRules(data.(eventType := eventType)) == TrackingLengthRules(data);
  }

  /** Event data that is not an object (a string, say) is neither screened nor size-checked. */
  lemma ScalarEventDataNotScreened(data: TrackingRequest, json: string, now: int)
    ensures PerformSecurityCheck(data.(eventData := EventValue(json, false)), now)
         == PerformSecurityCheck(data.(eventData := NoEventData), now)
  {
    var a := data.(eventData := EventValue(json, false));
    var b := data.(eventData := NoEventData);
    assert ScreenedFields(a) == ScreenedFields(b);
    assert TrackingLengthRules(a) == TrackingLengthRules(b);
  }

  /**
   * JSON text escapes quotes, backslashes and control characters with a
   * backslash, which the SQL pattern refuses: object event data holding
   * any such string is rejected once the fields are clean.
   */
  lemma EscapedEventDataRejected(data: TrackingRequest, now: int, i: nat)
    requires data.eventData.EventValue? && data.eventData.isObject
    requires i < |data.eventData.json| && data.eventData.json[i] == '\\'
    requires !AnySql(ScreenedFields(data)) && !AnyXss(ScreenedFields(data))
    ensures PerformSecurityCheck(data, now) == Verdict(false, EventDataRiskMessage)
  {
    assert SqlMatchAt(data.eventData.json, i);
  }

  /** Clean object event data of exactly 10240 characters passes the size check; one more is refused. */
  lemma EventDataSizeBoundary(data: TrackingRequest, now: int)
    requires data.eventData.EventValue? && data.eventData.isObject && !EventDataRisky(data.eventData)
    requires !AnySql(ScreenedFields(data)) && !AnyXss(ScreenedFields(data))
    ensures |data.eventData.json| == MaxEventDataLength ==> PerformSecurityCheck(data, now).message != EventDataTooLargeMessage
    ensures |data.eventData.json| == MaxEventDataLength + 1 ==> PerformSecurityCheck(data, now) == Verdict(false, EventDataTooLargeMessage)
  {
    var lengths := FirstFailure(TrackingLengthRules(data));
    if !lengths.ok {
      assert lengths.message != EventDataTooLargeMessage;
    }
  }

  /**
   * The timestamp window, for an otherwise acceptable request: up to a
   * minute ahead of the server clock and up to 365 days behind it is
   * accepted, anything further either way is refused.
   */
  lemma TimestampWindow(data: TrackingRequest, now: int, ts: int)
    requires !AnySql(ScreenedFields(data)) && !AnyXss(ScreenedFields(data))
    requires !EventDataRisky(data.eventData) && !EventDataTooLarge(data.eventData) && WithinLengths(data)
    ensures now - OneYearMs <= ts <= now + ClockSkewMs ==> PerformSecurityCheck(data.(timestamp := Some(ts)), now).ok
    ensures ts > now + ClockSkewMs ==> PerformSecurityCheck(data.(timestamp := Some(ts)), now) == Verdict(false, FutureTimestampMessage)
    ensures ts < now - OneYearMs ==> PerformSecurityCheck(data.(timestamp := Some(ts)), now) == Verdict(false, AncientTimestampMessage)
    ensures PerformSecurityCheck(data.(timestamp := None), now).ok
  {
    var d := data.(timestamp := Some(ts));
    assert ScreenedFields(d) == ScreenedFields(data);
    assert TrackingLengthRules(d) == TrackingLengthRules(data);
    assert ScreenedFields(data.(timestamp := None)) == ScreenedFields(data);
  }

  /**
   * A JSON `null` timestamp compares as 0, so once the clock is more than a
   * year past the epoch the screen refuses it as too old.
   */
  lemma NullTimestampRefused(data: TrackingRequest, now: int)
    requires !AnySql(ScreenedFields(data)) && !AnyXss(ScreenedFields(data))
    requires !EventDataRisky(data.eventData) && !EventDataTooLarge(data.eventData) && WithinLengths(data)
    requires now > OneYearMs
    ensures PerformSecurityCheck(data.(timestamp := Some(NullTimestamp)), now) == Verdict(false, AncientTimestampMessage)
  {
    TimestampWindow(data, now, NullTimestamp);
  }

  // --------------------------------------------------------- logEvent

  const BodyNotObjectMessage := "请求体必须是有效的JSON对象"
  const NoDatabaseMessage := "数据库连接不可用"
  const SecurityFailedPrefix := "安全检查失败: "

  /**
   * The controller's `logEvent`, given the service's cache and the next
   * identifier of the table. `body` is `None` when the body is missing
   * or not an object; `dbAvailable` is `!!ctx.db`.
   */
  function HandleSpec(ctx: RequestContext, body: Option<TrackingRequest>, dbAvailable: bool, cache: Cache, nextId: nat,
                      now: int, today: int, insertOk: bool, insertError: string): LogOutcome
  {
    if !dbAvailable then LogOutcome(ServerError(NoDatabaseMessage), cache, None)
    else if body.None? then LogOutcome(ValidationError(BodyNotObjectMessage), cache, None)
    else
      var clientIp := GetClientIp(ctx);
      var data := BuildTrackingData(body.value, ctx, clientIp);
      var security := PerformSecurityCheck(data, now);
      if !security.ok then LogOutcome(ValidationError(SecurityFailedPrefix + security.message), cache, None)
      else LogEventSpec(cache, nextId, data, clientIp, now, today, insertOk, insertError)
  }

  /**
   * `logEvent` with one service shared by all requests, so the rate
   * limit cache outlives the request (the intended behaviour).
   */
  method LogEvent(ctx: RequestContext, body: Option<TrackingRequest>, dbAvailable: bool, service: TrackingService,
                  now: int, today: int, insertOk: bool, insertError: string)
    returns (r: ApiResponse<TrackingResponse>)
    requires service.db.Valid()
    modifies service, service.db
    ensures service.db.Valid()
    ensures var o := HandleSpec(ctx, body, dbAvailable, old(service.rateLimitCache), old(service.db.nextId),
                                now, today, insertOk, insertError);
      r == o.response && service.rateLimitCache == o.cache
      && (o.inserted.None? ==> service.db.rows == old(service.db.rows) && service.db.nextId == old(service.db.nextId))
      && (o.inserted.Some? ==>
            service.db.rows == old(service.db.rows) + [o.inserted.value] && service.db.nextId == old(service.db.nextId) + 1)
  {
    if !dbAvailable {
      return ServerError(NoDatabaseMessage);
    }
    var clientIp := GetClientIp(ctx);
    if body.None? {
      return ValidationError(BodyNotObjectMessage);
    }
    var data := BuildTrackingData(body.value, ctx, clientIp);
    var security := PerformSecurityCheck(data, now);
    if !security.ok {
      return ValidationError(SecurityFailedPrefix + security.message);
    }
    r := service.LogEvent(data, clientIp, now, today, insertOk, insertError);
  }

  /**
   * `logEvent` as written: a new `TrackingService` for every request,
   * so every rate check starts from an empty cache.
   */
  method LogEventPerRequestService(ctx: RequestContext, body: Option<TrackingRequest>, dbAvailable: bool, db: EventStore,
                                   now: int, today: int, insertOk: bool, insertError: string)
    returns (r: ApiResponse<TrackingResponse>)
    requires db.Valid()
    modifies db
    ensures db.Valid()
    ensures var o := HandleSpec(ctx, body, dbAvailable, map[], old(db.nextId), now, today, insertOk, insertError);
      r == o.response
      && (o.inserted.None? ==> db.rows == old(db.rows) && db.nextId == old(db.nextId))
      && (o.inserted.Some? ==> db.rows == old(db.rows) + [o.inserted.value] && db.nextId == old(db.nextId) + 1)
  {
    if !dbAvailable {
      return ServerError(NoDatabaseMessage);
    }
    var clientIp := GetClientIp(ctx);
    if body.None? {
      return ValidationError(BodyNotObjectMessage);
    }
    var data := BuildTrackingData(body.value, ctx, clientIp);
    var security := PerformSecurityCheck(data, now);
    if !security.ok {
      return ValidationError(SecurityFailedPrefix + security.message);
    }
    var service := new TrackingService(db);
    r := service.LogEvent(data, clientIp, now, today, insertOk, insertError);
  }

  /** A request the controller accepts: the database is there, the body is an object and it is safe and valid. */
  predicate Admissible(ctx: RequestContext, body: Option<TrackingRequest>, dbAvailable: bool, now: int) {
    dbAvailable && body.Some?
    && PerformSecurityCheck(BuildTrackingData(body.value, ctx, GetClientIp(ctx)), now).ok
    && ValidateTrackingData(BuildTrackingData(body.value, ctx, GetClientIp(ctx))).ok
  }

  /**
   * As written, the rate limiter never rejects: an admissible request
   * whose insert works is stored however many requests the same client
   * made in the last minute.
   */
  lemma PerRequestServiceAcceptsFlood(ctx: RequestContext, body: Option<TrackingRequest>, nextId: nat, now: int, today: int)
    requires Admissible(ctx, body, true, now)
    ensures HandleSpec(ctx, body, true, map[], nextId, now, today, true, "").response.IsSuccess()
  {
    var clientIp := GetClientIp(ctx);
    var data := BuildTrackingData(body.value, ctx, clientIp);
    SuccessIff(map[], nextId, data, clientIp, now, today, true, "");
  }

  /**
   * With a shared service, after 100 stored requests from one client
   * and session within a minute, the next admissible request in that
   * minute is refused by the rate limiter and nothing is stored.
   */
  lemma SharedServiceBlocksFlood(ctx: RequestContext, body: Option<TrackingRequest>, times: seq<int>, nextId: nat,
                                 now: int, today: int)
    requires Admissible(ctx, body, true, now) && now >= 0
    requires |times| == MaxRequests && forall i | 0 <= i < |times| :: times[i] < times[0] + WindowMs
    requires now < times[0] + WindowMs
    ensures var key := RateKey(GetClientIp(ctx), body.value.sessionId);
      var o := HandleSpec(ctx, body, true, AcceptAll(map[], key, times), nextId, now, today, true, "");
      o.response == ValidationError(RateLimitedPrefix + BlockedNowMessage) && o.inserted.None?
  {
    var clientIp := GetClientIp(ctx);
    var data := BuildTrackingData(body.value, ctx, clientIp);
    assert data.sessionId == body.value.sessionId;
    var key := RateKey(clientIp, data.sessionId);
    HundredAndFirstBlocked(map[], key, times, now);
  }
}
