/**
 * `SimpleLogService` (src/services/simpleLog.service.ts): the portal's
 * page-visit log. It validates a small request, looks for a visit
 * already recorded today, and otherwise appends a row with the core
 * fields to the same event table the tracking service uses.
 */
module SimpleLog {
  import opened Wrappers
  import opened JsStrings
  import opened Response
  import opened Checks
  import opened TrackingTypes
  import opened EventTable

  /**
   * `SimpleLogRequest`, as the controller passes the body on. The
   * declared type has no `browserInfo` or `osInfo`, but the cleaning
   * step reads them, so a client that sends them has them stored.
   */
  datatype SimpleLogRequest = SimpleLogRequest(
    userId: string,
    sessionId: string,
    eventType: string,
    pagePath: string,
    pageTitle: string,
    browserInfo: Option<BrowserInfo>,
    osInfo: Option<OsInfo>)

  /** `SimpleLogResponse`. */
  datatype SimpleLogResponse = SimpleLogResponse(success: bool, message: string, logId: string)

  const SimpleSessionIdMax := 64
  const SimplePagePathMax := 255
  const SimplePageTitleMax := 255
  const SimpleUserIdMax := 64
  const SimpleEventTypeMax := 20

  // ------------------------------------------------------- validation

  /** The messages of the three required-field checks. */
  const SessionIdEmptyMessage := "sessionId 不能为空"
  const PagePathEmptyMessage := "pagePath 不能为空"
  const EventTypeEmptyMessage := "eventType 不能为空"

  /** `validateSimpleLogData`: required fields first, then lengths, returning at the first failure. */
  function ValidateSimpleLogData(data: SimpleLogRequest): (r: Verdict)
    ensures r.ok <==>
      Trim(data.sessionId) != "" && Trim(data.pagePath) != "" && Trim(data.eventType) != ""
      && |data.sessionId| <= SimpleSessionIdMax && |data.pagePath| <= SimplePagePathMax
      && |data.pageTitle| <= SimplePageTitleMax && |data.userId| <= SimpleUserIdMax
      && |data.eventType| <= SimpleEventTypeMax
    ensures r.ok ==> r == Pass
  {
    if Trim(data.sessionId) == "" then Verdict(false, SessionIdEmptyMessage)
    else if Trim(data.pagePath) == "" then Verdict(false, PagePathEmptyMessage)
    else if Trim(data.eventType) == "" then Verdict(false, EventTypeEmptyMessage)
    else if |data.sessionId| > SimpleSessionIdMax then Verdict(false, "sessionId 长度不能超过64个字符")
    else if |data.pagePath| > SimplePagePathMax then Verdict(false, "pagePath 长度不能超过255个字符")
    else if |data.pageTitle| > SimplePageTitleMax then Verdict(false, "pageTitle 长度不能超过255个字符")
    else if |data.userId| > SimpleUserIdMax then Verdict(false, "userId 长度不能超过64个字符")
    else if |data.eventType| > SimpleEventTypeMax then Verdict(false, "eventType 长度不能超过20个字符")
    else Pass
  }

  /** The required-field checks come first: a blank session is reported as such, however long the other fields are. */
  lemma BlankSessionReportedFirst(data: SimpleLogRequest)
    requires Trim(data.sessionId) == ""
    ensures ValidateSimpleLogData(data) == Verdict(false, SessionIdEmptyMessage)
  {
  }

  // --------------------------------------------------------- cleaning

  /**
   * `cleanSimpleLogData` followed by the insert parameters: trimmed
   * texts (NULL when they trim to nothing), the server address, the
   * server clock as event time, status 1. Referrer, User-Agent, device,
   * screen and event data are not stored.
   */
  function CleanSimpleLogData(data: SimpleLogRequest, clientIp: string, now: int, today: int): EventRow {
    var b := data.browserInfo.GetOr(BrowserInfo("", "", ""));
    var o := data.osInfo.GetOr(OsInfo("", ""));
    var client := NoClientColumns.(browserName := Trim(b.name), browserVersion := Trim(b.version),
      browserLanguage := Trim(b.language), osName := Trim(o.name), osVersion := Trim(o.version));
    EventRow(0, Trim(data.userId), Trim(data.sessionId), Trim(data.eventType), Trim(data.pagePath),
      Trim(data.pageTitle), "", "", clientIp, client, now, "", StatusValid, today)
  }

  /** The shape every row this service stores has. */
  predicate SimpleRow(row: EventRow, clientIp: string, now: int, today: int) {
    row.sessionId != "" && row.pagePath != "" && row.eventType != ""
    && Trim(row.sessionId) == row.sessionId && Trim(row.pagePath) == row.pagePath
    && Trim(row.eventType) == row.eventType && Trim(row.userId) == row.userId
    && |row.sessionId| <= SimpleSessionIdMax && |row.pagePath| <= SimplePagePathMax
    && |row.pageTitle| <= SimplePageTitleMax && |row.userId| <= SimpleUserIdMax
    && |row.eventType| <= SimpleEventTypeMax
    && row.referrer == "" && row.userAgent == "" && row.eventData == ""
    && row.client.deviceType == "" && row.client.screenWidth == 0
    && row.clientIp == clientIp && row.eventTimestamp == now && row.createdDay == today
    && row.status == StatusValid
  }

  /** A validated request is stored in that shape. */
  lemma ValidatedSimpleRow(data: SimpleLogRequest, clientIp: string, now: int, today: int)
    requires ValidateSimpleLogData(data).ok
    ensures SimpleRow(CleanSimpleLogData(data, clientIp, now, today), clientIp, now, today)
  {
    var row := CleanSimpleLogData(data, clientIp, now, today);
    assert row.sessionId == Trim(data.sessionId) && row.pagePath == Trim(data.pagePath);
    assert row.eventType == Trim(data.eventType) && row.userId == Trim(data.userId);
    assert row.pageTitle == Trim(data.pageTitle);
    TrimIdempotent(data.sessionId);
    TrimIdempotent(data.pagePath);
    TrimIdempotent(data.eventType);
    TrimIdempotent(data.userId);
  }

  // ------------------------------------------------------------ dedup

  /**
   * What `checkDuplicateToday` looks for: rows of the signed-in user
   * (by trimmed `userId`), or, for an anonymous visitor, rows of the
   * same address and the session identifier exactly as sent.
   */
  datatype DedupKey = ByUser(userId: string) | ByClient(clientIp: string, sessionId: string)

  function DedupKeyOf(userId: string, sessionId: string, clientIp: string): (k: DedupKey)
    ensures k.ByUser? <==> Trim(userId) != ""
    ensures k.ByUser? ==> k.userId == Trim(userId)
    ensures k.ByClient? ==> k.clientIp == clientIp && k.sessionId == sessionId
  {
    if Trim(userId) != "" then ByUser(Trim(userId)) else ByClient(clientIp, sessionId)
  }

  /** The `WHERE` clause: the key's columns, created today, status 1. */
  predicate DedupMatch(row: EventRow, key: DedupKey, today: int) {
    row.createdDay == today && row.status == StatusValid
    && match key
       case ByUser(u) => row.userId == u
       case ByClient(ip, s) => row.clientIp == ip && row.sessionId == s
  }

  /** `SELECT id … LIMIT 1`: the identifier of the first matching row, in insertion order. */
  function FindDuplicate(rows: seq<EventRow>, key: DedupKey, today: int): (r: Option<nat>)
    ensures r.None? <==> forall i | 0 <= i < |rows| :: !DedupMatch(rows[i], key, today)
    ensures r.Some? ==> exists i | 0 <= i < |rows| ::
      rows[i].id == r.value && DedupMatch(rows[i], key, today)
      && forall j | 0 <= j < i :: !DedupMatch(rows[j], key, today)
  {
    if rows == [] then None
    else if DedupMatch(rows[0], key, today) then Some(rows[0].id)
    else
      var r := FindDuplicate(rows[1..], key, today);
      assert forall i | 1 <= i < |rows| :: rows[i] == rows[1..][i - 1];
      r
  }

  /** Appending a row never changes a duplicate that was already there. */
  lemma {:induction false} FindDuplicateAppend(rows: seq<EventRow>, row: EventRow, key: DedupKey, today: int)
    ensures FindDuplicate(rows + [row], key, today) ==
      if FindDuplicate(rows, key, today).Some? then FindDuplicate(rows, key, today)
      else if DedupMatch(row, key, today) then Some(row.id) else None
  {
    if rows != [] {
      assert (rows + [row])[0] == rows[0];
      assert (rows + [row])[1..] == rows[1..] + [row];
      FindDuplicateAppend(rows[1..], row, key, today);
    } else {
      assert rows + [row] == [row];
    }
  }

  // ---------------------------------------------------- logSimpleEvent

  const DuplicateMessage := "访问记录成功（今日已记录）"
  const SimpleSuccessMessage := "简化埋点数据记录成功"
  const SimpleFailureMessage := "记录简化埋点数据失败"

  /** The response and the inserted row (if any) of one `logSimpleEvent` call. */
  datatype SimpleOutcome = SimpleOutcome(response: ApiResponse<SimpleLogResponse>, inserted: Option<EventRow>)

  /**
   * `logSimpleEvent` against the table `rows` whose next identifier is
   * `nextId`. `queryFails` is a failing duplicate query, which the
   * service treats as "no duplicate"; `insertOk`/`insertError` are the
   * outcome of the insert.
   */
  function LogSimpleSpec(rows: seq<EventRow>, nextId: nat, data: SimpleLogRequest, clientIp: string, now: int,
                         today: int, queryFails: bool, insertOk: bool, insertError: string): SimpleOutcome
  {
    var validation := ValidateSimpleLogData(data);
    if !validation.ok then SimpleOutcome(ValidationError(validation.message), None)
    else
      var dup := if queryFails then None else FindDuplicate(rows, DedupKeyOf(data.userId, data.sessionId, clientIp), today);
      if dup.Some? then
        SimpleOutcome(Success(SimpleLogResponse(true, DuplicateMessage, NatToString(dup.value)), DuplicateMessage), None)
      else if !insertOk then SimpleOutcome(ServerError(MessageOr(insertError, SimpleFailureMessage)), None)
      else
        SimpleOutcome(Success(SimpleLogResponse(true, SimpleSuccessMessage, NatToString(nextId)), SimpleSuccessMessage),
          Some(CleanSimpleLogData(data, clientIp, now, today).(id := nextId)))
  }

  /** An invalid request is answered with the validation message and stores nothing. */
  lemma InvalidVisitNotStored(rows: seq<EventRow>, nextId: nat, data: SimpleLogRequest, clientIp: string, now: int,
                              today: int, queryFails: bool, insertOk: bool, insertError: string)
    requires !ValidateSimpleLogData(data).ok
    ensures var o := LogSimpleSpec(rows, nextId, data, clientIp, now, today, queryFails, insertOk, insertError);
      o.response.errorCode == CodeValidationError && o.response.message == ValidateSimpleLogData(data).message
      && o.inserted.None?
  {
  }

  /** A call stores a row exactly when the request is valid, no duplicate is found and the insert works; the row gets the next identifier and the call succeeds. */
  lemma StoredIff(rows: seq<EventRow>, nextId: nat, data: SimpleLogRequest, clientIp: string, now: int,
                  today: int, queryFails: bool, insertOk: bool, insertError: string)
    ensures var o := LogSimpleSpec(rows, nextId, data, clientIp, now, today, queryFails, insertOk, insertError);
      (o.inserted.Some? <==>
        ValidateSimpleLogData(data).ok && insertOk
        && (queryFails || forall i | 0 <= i < |rows| ::
              !DedupMatch(rows[i], DedupKeyOf(data.userId, data.sessionId, clientIp), today)))
      && (o.inserted.Some? ==> o.inserted.value.id == nextId && o.response.IsSuccess())
  {
    var key := DedupKeyOf(data.userId, data.sessionId, clientIp);
    StoredWhenNoDuplicate(rows, nextId, data, clientIp, now, today, queryFails, insertOk, insertError);
    var found := FindDuplicate(rows, key, today);
    assert found.None? <==> forall i | 0 <= i < |rows| :: !DedupMatch(rows[i], key, today);
  }

  /** A call stores a row exactly when the request is valid, the duplicate query fails or finds nothing, and the insert works. */
  lemma StoredWhenNoDuplicate(rows: seq<EventRow>, nextId: nat, data: SimpleLogRequest, clientIp: string, now: int,
                              today: int, queryFails: bool, insertOk: bool, insertError: string)
    ensures var o := LogSimpleSpec(rows, nextId, data, clientIp, now, today, queryFails, insertOk, insertError);
      (o.inserted.Some? <==>
        ValidateSimpleLogData(data).ok && insertOk
        && (queryFails || FindDuplicate(rows, DedupKeyOf(data.userId, data.sessionId, clientIp), today).None?))
      && (o.inserted.Some? ==> o.inserted.value.id == nextId && o.response.IsSuccess())
  {
  }

  /** A stored row has the service's shape: trimmed, within the column limits, under the caller's address, time and day. */
  lemma StoredRowShape(rows: seq<EventRow>, nextId: nat, data: SimpleLogRequest, clientIp: string, now: int,
                       today: int, queryFails: bool, insertOk: bool, insertError: string)
    ensures var o := LogSimpleSpec(rows, nextId, data, clientIp, now, today, queryFails, insertOk, insertError);
      o.inserted.Some? ==> SimpleRow(o.inserted.value, clientIp, now, today)
  {
    var o := LogSimpleSpec(rows, nextId, data, clientIp, now, today, queryFails, insertOk, insertError);
    InsertedIsCleaned(rows, nextId, data, clientIp, now, today, queryFails, insertOk, insertError);
    if o.inserted.Some? {
      ValidatedSimpleRow(data, clientIp, now, today);
      SimpleRowAnyId(CleanSimpleLogData(data, clientIp, now, today), nextId, clientIp, now, today);
    }
  }

  /** A stored row is the cleaned request under the next identifier. */
  lemma InsertedIsCleaned(rows: seq<EventRow>, nextId: nat, data: SimpleLogRequest, clientIp: string, now: int,
                          today: int, queryFails: bool, insertOk: bool, insertError: string)
    ensures var o := LogSimpleSpec(rows, nextId, data, clientIp, now, today, queryFails, insertOk, insertError);
      o.inserted.Some? ==>
        ValidateSimpleLogData(data).ok && o.inserted.value == CleanSimpleLogData(data, clientIp, now, today).(id := nextId)
  {
  }

  /** The row shape does not depend on the identifier. */
  lemma SimpleRowAnyId(row: EventRow, id: nat, clientIp: string, now: int, today: int)
    requires SimpleRow(row, clientIp, now, today)
    ensures SimpleRow(row.(id := id), clientIp, now, today)
  {
  }

  /** A valid visit whose duplicate query finds row `id` is answered as already recorded and stores nothing. */
  lemma DuplicateAnswered(rows: seq<EventRow>, nextId: nat, data: SimpleLogRequest, clientIp: string, now: int,
                          today: int, insertOk: bool, insertError: string, id: nat)
    requires ValidateSimpleLogData(data).ok
    requires FindDuplicate(rows, DedupKeyOf(data.userId, data.sessionId, clientIp), today) == Some(id)
    ensures LogSimpleSpec(rows, nextId, data, clientIp, now, today, false, insertOk, insertError)
      == SimpleOutcome(Success(SimpleLogResponse(true, DuplicateMessage, NatToString(id)), DuplicateMessage), None)
  {
  }

  /** The identifier text of an "already recorded" answer names the first matching row of the day. */
  lemma DuplicateAnswerNamesRow(rows: seq<EventRow>, nextId: nat, data: SimpleLogRequest, clientIp: string, now: int,
                                today: int, insertOk: bool, insertError: string, id: nat)
    ensures var o := LogSimpleSpec(rows, nextId, data, clientIp, now, today, false, insertOk, insertError);
      o.response.IsSuccess() && o.response.data.Some? && o.response.data.value.message == DuplicateMessage
      && o.response.data.value.logId == NatToString(id)
      ==> FindDuplicate(rows, DedupKeyOf(data.userId, data.sessionId, clientIp), today) == Some(id)
  {
    var dup := FindDuplicate(rows, DedupKeyOf(data.userId, data.sessionId, clientIp), today);
    if ValidateSimpleLogData(data).ok && dup.Some? && NatToString(dup.value) == NatToString(id) {
      NatToStringInjective(dup.value, id);
    }
  }

  /** When a call stores a row, its duplicate query found nothing and the row is the cleaned request. */
  lemma InsertedRow(rows: seq<EventRow>, nextId: nat, data: SimpleLogRequest, clientIp: string, now: int,
                    today: int, insertError: string)
    requires LogSimpleSpec(rows, nextId, data, clientIp, now, today, false, true, insertError).inserted.Some?
    ensures ValidateSimpleLogData(data).ok
    ensures FindDuplicate(rows, DedupKeyOf(data.userId, data.sessionId, clientIp), today).None?
    ensures LogSimpleSpec(rows, nextId, data, clientIp, now, today, false, true, insertError).inserted.value
      == CleanSimpleLogData(data, clientIp, now, today).(id := nextId)
  {
  }

  /**
   * A signed-in user is logged once a day: after a visit was stored,
   * another valid visit of the same (trimmed) user on the same day,
   * from any address and session, is answered as already recorded with
   * the stored row's identifier, and stores nothing.
   */
  lemma SecondVisitOfUserNotStored(rows: seq<EventRow>, nextId: nat, data: SimpleLogRequest, clientIp: string,
                                   now: int, today: int, insertError: string,
                                   data2: SimpleLogRequest, clientIp2: string, now2: int, insertOk2: bool)
    requires LogSimpleSpec(rows, nextId, data, clientIp, now, today, false, true, insertError).inserted.Some?
    requires ValidateSimpleLogData(data2).ok && Trim(data2.userId) == Trim(data.userId) != ""
    ensures var row := LogSimpleSpec(rows, nextId, data, clientIp, now, today, false, true, insertError).inserted.value;
      var o := LogSimpleSpec(rows + [row], nextId + 1, data2, clientIp2, now2, today, false, insertOk2, insertError);
      o.inserted.None?
      && o.response == Success(SimpleLogResponse(true, DuplicateMessage, NatToString(nextId)), DuplicateMessage)
  {
    var key := DedupKeyOf(data.userId, data.sessionId, clientIp);
    InsertedRow(rows, nextId, data, clientIp, now, today, insertError);
    var row := CleanSimpleLogData(data, clientIp, now, today).(id := nextId);
    assert DedupMatch(row, key, today);
    FindDuplicateAppend(rows, row, key, today);
    assert DedupKeyOf(data2.userId, data2.sessionId, clientIp2) == key;
    DuplicateAnswered(rows + [row], nextId + 1, data2, clientIp2, now2, today, insertOk2, insertError, nextId);
  }

  /**
   * An anonymous visitor is logged once a day per address and session,
   * provided the session identifier has no surrounding white space.
   */
  lemma SecondAnonymousVisitNotStored(rows: seq<EventRow>, nextId: nat, data: SimpleLogRequest, clientIp: string,
                                      now: int, today: int, insertError: string,
                                      data2: SimpleLogRequest, now2: int, insertOk2: bool)
    requires Trim(data.userId) == "" && Trim(data2.userId) == ""
    requires data2.sessionId == data.sessionId && Trim(data.sessionId) == data.sessionId
    requires ValidateSimpleLogData(data2).ok
    requires LogSimpleSpec(rows, nextId, data, clientIp, now, today, false, true, insertError).inserted.Some?
    ensures var row := LogSimpleSpec(rows, nextId, data, clientIp, now, today, false, true, insertError).inserted.value;
      var o := LogSimpleSpec(rows + [row], nextId + 1, data2, clientIp, now2, today, false, insertOk2, insertError);
      o.inserted.None?
      && o.response == Success(SimpleLogResponse(true, DuplicateMessage, NatToString(nextId)), DuplicateMessage)
  {
    var key := DedupKeyOf(data.userId, data.sessionId, clientIp);
    InsertedRow(rows, nextId, data, clientIp, now, today, insertError);
    var row := CleanSimpleLogData(data, clientIp, now, today).(id := nextId);
    AnonymousRowMatches(data, clientIp, now, today, nextId);
    FindDuplicateAppend(rows, row, key, today);
    assert DedupKeyOf(data2.userId, data2.sessionId, clientIp) == key;
    DuplicateAnswered(rows + [row], nextId + 1, data2, clientIp, now2, today, insertOk2, insertError, nextId);
  }

  /** The stored row of an anonymous visit with a trimmed session matches that visit's own key. */
  lemma AnonymousRowMatches(data: SimpleLogRequest, clientIp: string, now: int, today: int, id: nat)
    requires Trim(data.userId) == "" && Trim(data.sessionId) == data.sessionId
    ensures DedupKeyOf(data.userId, data.sessionId, clientIp) == ByClient(clientIp, data.sessionId)
    ensures DedupMatch(CleanSimpleLogData(data, clientIp, now, today).(id := id),
                       ByClient(clientIp, data.sessionId), today)
  {
  }

  /**
   * The anonymous duplicate query compares the session identifier as
   * sent, while every stored session identifier is trimmed: a session
   * identifier with surrounding white space never finds its earlier
   * visits, so each such visit is stored again. The comparison here is
   * exact; a PAD SPACE collation would still match padding at the end only.
   */
  lemma PaddedAnonymousSessionNeverDeduplicated(rows: seq<EventRow>, data: SimpleLogRequest, clientIp: string, today: int)
    requires forall i | 0 <= i < |rows| :: Trim(rows[i].sessionId) == rows[i].sessionId
    requires Trim(data.userId) == "" && Trim(data.sessionId) != data.sessionId
    ensures FindDuplicate(rows, DedupKeyOf(data.userId, data.sessionId, clientIp), today).None?
  {
    forall i | 0 <= i < |rows|
      ensures !DedupMatch(rows[i], DedupKeyOf(data.userId, data.sessionId, clientIp), today)
    {
      assert rows[i].sessionId != data.sessionId;
    }
  }

  /** No two valid rows of the same signed-in user on the same day. */
  predicate OncePerUserPerDay(rows: seq<EventRow>) {
    forall i, j | 0 <= i < j < |rows| ::
      rows[i].status == StatusValid && rows[j].status == StatusValid && rows[i].userId != ""
      ==> rows[i].userId != rows[j].userId || rows[i].createdDay != rows[j].createdDay
  }

  /**
   * While the duplicate query works, `logSimpleEvent` keeps each
   * signed-in user to one valid row per day.
   */
  lemma LogSimpleKeepsOncePerUserPerDay(rows: seq<EventRow>, nextId: nat, data: SimpleLogRequest, clientIp: string,
                                        now: int, today: int, insertOk: bool, insertError: string)
    requires OncePerUserPerDay(rows)
    ensures var o := LogSimpleSpec(rows, nextId, data, clientIp, now, today, false, insertOk, insertError);
      OncePerUserPerDay(if o.inserted.Some? then rows + [o.inserted.value] else rows)
  {
    var o := LogSimpleSpec(rows, nextId, data, clientIp, now, today, false, insertOk, insertError);
    if o.inserted.Some? {
      var row := o.inserted.value;
      var all := rows + [row];
      var key := DedupKeyOf(data.userId, data.sessionId, clientIp);
      assert FindDuplicate(rows, key, today).None?;
      assert row.userId == Trim(data.userId) && row.createdDay == today;
      forall i, j | 0 <= i < j < |all| && all[i].status == StatusValid && all[j].status == StatusValid && all[i].userId != ""
        ensures all[i].userId != all[j].userId || all[i].createdDay != all[j].createdDay
      {
        assert all[i] == rows[i];
        assert j < |rows| ==> all[j] == rows[j];
        assert j == |rows| ==> all[j] == row;
        assert row.userId != "" ==> key == ByUser(row.userId);
        assert !DedupMatch(rows[i], key, today);
      }
    }
  }

  // ------------------------------------------------------------ class

  /** `SimpleLogService`, bound to the event table. It keeps no state of its own. */
  class SimpleLogService {
    const db: EventStore

    constructor(db: EventStore)
      ensures this.db == db
    {
      this.db := db;
    }

    /** `checkDuplicateToday`: the first matching row today, or none when the query fails. */
    method CheckDuplicateToday(userId: string, sessionId: string, clientIp: string, today: int, queryFails: bool)
      returns (dup: Option<nat>)
      ensures queryFails ==> dup.None?
      ensures !queryFails ==> dup == FindDuplicate(db.rows, DedupKeyOf(userId, sessionId, clientIp), today)
    {
      if queryFails {
        return None;
      }
      dup := FindDuplicate(db.rows, DedupKeyOf(userId, sessionId, clientIp), today);
    }

    /** `logSimpleEvent`. */
    method LogSimpleEvent(data: SimpleLogRequest, clientIp: string, now: int, today: int,
                          queryFails: bool, insertOk: bool, insertError: string)
      returns (r: ApiResponse<SimpleLogResponse>)
      requires db.Valid()
      modifies db
      ensures db.Valid()
      ensures var o := LogSimpleSpec(old(db.rows), old(db.nextId), data, clientIp, now, today, queryFails, insertOk, insertError);
        r == o.response
        && (o.inserted.None? ==> db.rows == old(db.rows) && db.nextId == old(db.nextId))
        && (o.inserted.Some? ==> db.rows == old(db.rows) + [o.inserted.value] && db.nextId == old(db.nextId) + 1)
    {
      var validation := ValidateSimpleLogData(data);
      if !validation.ok {
        return ValidationError(validation.message);
      }
      var dup := CheckDuplicateToday(data.userId, data.sessionId, clientIp, today, queryFails);
      if dup.Some? {
        var response := SimpleLogResponse(true, DuplicateMessage, NatToString(dup.value));
        return Success(response, DuplicateMessage);
      }
      if !insertOk {
        return ServerError(MessageOr(insertError, SimpleFailureMessage));
      }
      var row := CleanSimpleLogData(data, clientIp, now, today);
      var id := db.Insert(row);
      r := Success(SimpleLogResponse(true, SimpleSuccessMessage, NatToString(id)), SimpleSuccessMessage);
    }
  }
}
