/**
 * `SimpleLogController` (src/controllers/simpleLog.controller.ts): the
 * public page-visit endpoint. It derives the client address, applies a
 * reduced screen, and hands the body to a fresh `SimpleLogService` (which
 * keeps no state, so a fresh one per request behaves like a shared one).
 */
module SimpleLogController {
  import opened Wrappers
  import opened JsStrings
  import opened Response
  import opened Checks
  import opened ClientIp
  import opened InjectionPatterns
  import opened EventTable
  import opened SimpleLog

  /** `textFields`: unlike the tracking screen, `eventType` is screened and `referrer` does not exist. */
  function SimpleScreenedFields(data: SimpleLogRequest): seq<string> {
    [data.pagePath, data.pageTitle, data.sessionId, data.userId, data.eventType]
  }

  /** `lengthChecks`, in order. */
  function SimpleLengthRules(data: SimpleLogRequest): seq<Rule> {
    [LengthRule(data.pagePath, "pagePath", 255), LengthRule(data.pageTitle, "pageTitle", 255),
     LengthRule(data.sessionId, "sessionId", 64), LengthRule(data.userId, "userId", 64),
     LengthRule(data.eventType, "eventType", 20)]
  }

  predicate SimpleWithinLengths(data: SimpleLogRequest) {
    |data.pagePath| <= 255 && |data.pageTitle| <= 255 && |data.sessionId| <= 64
    && |data.userId| <= 64 && |data.eventType| <= 20
  }

  /** The length rules all pass exactly when every field is within its limit. */
  lemma SimpleLengthRulesPass(data: SimpleLogRequest)
    ensures FirstFailure(SimpleLengthRules(data)).ok <==> SimpleWithinLengths(data)
  {
    var rules := SimpleLengthRules(data);
    assert rules[0].passes <==> |data.pagePath| <= 255;
    assert rules[1].passes <==> |data.pageTitle| <= 255;
    assert rules[2].passes <==> |data.sessionId| <= 64;
    assert rules[3].passes <==> |data.userId| <= 64;
    assert rules[4].passes <==> |data.eventType| <= 20;
  }

  /** `performBasicSecurityCheck`: SQL screen, XSS screen, lengths. */
  function PerformBasicSecurityCheck(data: SimpleLogRequest): (r: Verdict)
    ensures r.ok <==>
      !AnySql(SimpleScreenedFields(data)) && !AnyXss(SimpleScreenedFields(data)) && SimpleWithinLengths(data)
    ensures r.ok ==> r == Pass
  {
    var fields := SimpleScreenedFields(data);
    SimpleLengthRulesPass(data);
    if AnySql(fields) then Verdict(false, SqlMessage)
    else if AnyXss(fields) then Verdict(false, XssMessage)
    else FirstFailure(SimpleLengthRules(data))
  }

  /** With no SQL match, a field that trips an XSS pattern is reported as XSS. */
  lemma BasicXssReportedAfterSql(data: SimpleLogRequest, k: nat)
    requires k < |SimpleScreenedFields(data)| && XssPattern(SimpleScreenedFields(data)[k])
    requires !AnySql(SimpleScreenedFields(data))
    ensures PerformBasicSecurityCheck(data) == Verdict(false, XssMessage)
  {
  }

  /** The event type is screened here: an SQL keyword or quote in it is refused as injection. */
  lemma EventTypeScreened(data: SimpleLogRequest)
    requires SqlPattern(data.eventType)
    ensures PerformBasicSecurityCheck(data) == Verdict(false, SqlMessage)
  {
    assert SimpleScreenedFields(data)[4] == data.eventType;
  }

  /**
   * The screen's length limits are the service's: a request that passes
   * the screen can fail validation only on a required field, so the
   * service's own length messages are never answered through this
   * endpoint.
   */
  lemma ScreenCoversServiceLengths(data: SimpleLogRequest)
    requires PerformBasicSecurityCheck(data).ok
    ensures !ValidateSimpleLogData(data).ok ==>
      ValidateSimpleLogData(data).message in {SessionIdEmptyMessage, PagePathEmptyMessage, EventTypeEmptyMessage}
  {
  }

  const BodyNotObjectMessage := "请求体必须是有效的JSON对象"
  const NoDatabaseMessage := "数据库连接不可用"
  const SecurityFailedPrefix := "安全检查失败: "

  /**
   * The controller's `logSimpleEvent` against the table `rows` whose
   * next identifier is `nextId`. `body` is `None` when the body is
   * missing or not an object; `dbAvailable` is `!!ctx.db`.
   */
  function HandleSimpleSpec(ctx: RequestContext, body: Option<SimpleLogRequest>, dbAvailable: bool,
                            rows: seq<EventRow>, nextId: nat, now: int, today: int,
                            queryFails: bool, insertOk: bool, insertError: string): SimpleOutcome
  {
    if !dbAvailable then SimpleOutcome(ServerError(NoDatabaseMessage), None)
    else if body.None? then SimpleOutcome(ValidationError(BodyNotObjectMessage), None)
    else
      var security := PerformBasicSecurityCheck(body.value);
      if !security.ok then SimpleOutcome(ValidationError(SecurityFailedPrefix + security.message), None)
      else LogSimpleSpec(rows, nextId, body.value, GetClientIp(ctx), now, today, queryFails, insertOk, insertError)
  }

  /** A visit the screen refuses is answered with the screen's message and stores nothing. */
  lemma ScreenedVisitNotStored(ctx: RequestContext, data: SimpleLogRequest, rows: seq<EventRow>, nextId: nat,
                               now: int, today: int, queryFails: bool, insertOk: bool, insertError: string)
    requires !PerformBasicSecurityCheck(data).ok
    ensures var o := HandleSimpleSpec(ctx, Some(data), true, rows, nextId, now, today, queryFails, insertOk, insertError);
      o.inserted.None? && o.response.errorCode == CodeValidationError
      && o.response.message == SecurityFailedPrefix + PerformBasicSecurityCheck(data).message
  {
  }

  /** A stored visit is recorded under the address derived from the request's headers and socket. */
  lemma StoredUnderDerivedAddress(ctx: RequestContext, body: Option<SimpleLogRequest>, rows: seq<EventRow>, nextId: nat,
                                  now: int, today: int, queryFails: bool, insertOk: bool, insertError: string)
    ensures var o := HandleSimpleSpec(ctx, body, true, rows, nextId, now, today, queryFails, insertOk, insertError);
      o.inserted.Some? ==> o.inserted.value.clientIp == GetClientIp(ctx) && o.inserted.value.id == nextId
  {
    if body.Some? && PerformBasicSecurityCheck(body.value).ok {
      StoredIff(rows, nextId, body.value, GetClientIp(ctx), now, today, queryFails, insertOk, insertError);
      StoredRowShape(rows, nextId, body.value, GetClientIp(ctx), now, today, queryFails, insertOk, insertError);
    }
  }

  /** `logSimpleEvent`. */
  method LogSimpleEvent(ctx: RequestContext, body: Option<SimpleLogRequest>, dbAvailable: bool, db: EventStore,
                        now: int, today: int, queryFails: bool, insertOk: bool, insertError: string)
    returns (r: ApiResponse<SimpleLogResponse>)
    requires db.Valid()
    modifies db
    ensures db.Valid()
    ensures var o := HandleSimpleSpec(ctx, body, dbAvailable, old(db.rows), old(db.nextId), now, today,
                                      queryFails, insertOk, insertError);
      r == o.response
      && (o.inserted.None? ==> db.rows == old(db.rows) && db.nextId == old(db.nextId))
      && (o.inserted.Some? ==> db.rows == old(db.rows) + [o.inserted.value] && db.nextId == old(db.nextId) + 1)
  {
    if !dbAvailable {
      return ServerError(NoDatabaseMessage);
    }
    var clientIp := GetClientIp(ctx);
    if body.None? {
      return ValidationError(BodyNotObjectMessage);
    }
    var security := PerformBasicSecurityCheck(body.value);
    if !security.ok {
      return ValidationError(SecurityFailedPrefix + security.message);
    }
    var service := new SimpleLogService(db);
    r := service.LogSimpleEvent(body.value, clientIp, now, today, queryFails, insertOk, insertError);
  }
}
