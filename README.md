# edu-portal-server: visitor event ingestion and lab-profile publishing

This project models in Dafny the core of the edu-portal-server back end, a Koa service behind a university lab's portal site. Its main parts:

- **Event ingestion.** The tracking controller derives the visitor's address from the proxy headers. It discards any client-supplied address and screens the text fields for SQL and XSS patterns. It also checks the serialized event data, the field lengths and the timestamp window. The tracking service then runs a per-key rate limiter keyed by `clientIP:sessionId`, validates the request, cleans it into an `event_tracking` row and inserts it. The count is raised only after a successful insert. The rate limiter allows 100 requests per one-minute window and blocks a key for five minutes.
- **Simplified ingestion.** The simple-log controller and service are a second, smaller path into the same table. Through this path a signed-in user gets at most one visit row per day, and an anonymous visitor one per address and session. Rows written by the tracking path are not deduplicated. A repeat visit is answered with the stored row's id and stores nothing. A failed duplicate lookup counts as "not a duplicate".
- **The IP echo endpoint.** It returns the derived address, the User-Agent and the four forwarding headers.
- **Lab profiles.** Profiles have three publish states: `'0'` unpublished, `'1'` published and `'2'` offline. A published profile cannot be edited. Publishing demotes every other published profile of the same type. Only a published profile can be taken offline. Batch delete counts successes and failures. The model also covers the list's paging arithmetic.
- **Other helpers.** These are the grouping of recruitment postings by type, the parsing of a user's `tags` column (a JSON array, or a comma-separated list), and the response envelope every operation answers with.

The database, the clock and `JSON.parse`/`JSON.stringify` are parameters:

- The event table is an `EventStore`, a class holding a `seq` of rows and the next insert id.
- `now` (milliseconds) and `today` (the day `CURDATE()` names) are passed in.
- An insert or query failure is a boolean input, with the driver's error message.

Every part is stated twice:

- **Specification functions.** `Check`/`Update`/`Cleanup`, `LogEventSpec`, `LogSimpleSpec`, `CreateOrUpdateSpec`, `PublishSpec`, `DeleteAll` and `Grouped` say what one call does.
- **Classes and methods.** `TrackingService`, `EventStore`, `SimpleLogService` and `LabProfileService` change their fields in place, as the services do. Their `ensures` tie the new state to those functions, and the lemmas prove the promised properties about the functions.

The three identical copies of `getClientIP` (`src/controllers/tracking.controller.ts:20-48`, `src/controllers/simpleLog.controller.ts:20-48`, `src/controllers/ip.controller.ts:12-53`) are one function, `ClientIp.GetClientIp`, which all three controllers call. The three identical copies of the tag parsing in `src/services/user.service.ts` (lines 51-59, 115-122 and 198-206) are likewise one function, `UserTags.ParseTags`.

Two behaviours of the code that a reader might not expect:

- **A lapsed block keeps its old count.** The limiter lets a request through once a block has lapsed, but `checkRateLimit` does not reset the entry. `updateRateLimit` then counts on from the old total, so the first request after a lapse makes the count 101. The window restarts only at the next check (`RateLimit.BlockLapseKeepsCount`).
- **Padded anonymous sessions are never deduplicated.** For an anonymous visitor, the duplicate lookup compares the stored, trimmed session id with the untrimmed one from the request. Under the model's exact comparison, a session id with surrounding spaces never matches its own earlier row, so such a visitor is stored on every visit (`SimpleLog.PaddedAnonymousSessionNeverDeduplicated`). With MySQL's default PAD SPACE collation, a session id padded only at the end would still match, so in practice this holds for a leading blank.

## Model

| member | source | states |
|---|---|---|
| Response.SuccessDistinguishedFromErrors | src/utils/response.utils.ts:35-93 | `success` answers status 200, error code 0 and the given data, so it reads as a success. Every `errors.*` helper answers a different, non-zero code, so a success is never confused with an error. |
| Response.ErrorHelpersShape | src/utils/response.utils.ts:51-93 | Every `errors.*` helper goes through `error` and answers status 200 and null data with its own non-zero code, so it never reads as a success. It keeps the caller's message. |
| Response.ErrorHelperCodesDistinct | src/utils/response.utils.ts:15-27 | The ten helper codes are pairwise distinct. |
| Response.CodesAndDefaults | src/utils/response.utils.ts:79-92 | validationError is 422, serverError 500 and notFound 404, each with its default message when none is given. |
| Response.MessageOr | src/services/tracking.service.ts:102 | `error.message \|\| fallback` is the fallback exactly when the message is empty or is the fallback itself. Otherwise it is the message. |
| Checks.FirstFailure | src/controllers/tracking.controller.ts:107-177 | An early-return check chain passes iff every rule passes. When it fails, the message is that of a failing rule. |
| Checks.FirstFailureAt | src/controllers/tracking.controller.ts:158-163 | The first failing check of an early-return loop decides the message, whatever the later checks say. |
| ClientIp.FirstForwarded | src/controllers/tracking.controller.ts:22-28 | The first X-Forwarded-For entry holds no comma, is trimmed at both ends, and is no longer than the header. |
| ClientIp.StripMapped | src/controllers/tracking.controller.ts:40-42 | An address without `::ffff:` is unchanged. With it, exactly the seven characters of its first occurrence are removed. |
| ClientIp.FirstAvailableSpec | src/controllers/tracking.controller.ts:20-46 | The answer is the value of the first source whose test is non-empty, or the fallback when there is none. |
| ClientIp.ClientIpIsFirstAvailableSource | src/controllers/tracking.controller.ts:20-46 | getClientIP equals this precedence list. It is the first non-blank X-Forwarded-For entry, then X-Real-IP, X-Client-IP, CF-Connecting-IP, the socket address with `::ffff:` removed, then `ctx.ip`, and finally `'unknown'`. |
| ClientIp.ForwardedForWins | src/controllers/tracking.controller.ts:22-28 | A non-blank first X-Forwarded-For entry decides the address, whatever else the request carries. |
| ClientIp.ForwardedForFirstEntry | src/controllers/simpleLog.controller.ts:22-28 | For `first,rest` with a non-blank `first`, the address is `first` trimmed, and later entries are ignored. |
| ClientIp.BlankFirstForwardedFallsThrough | src/controllers/tracking.controller.ts:22-28 | A blank first entry (`", 1.2.3.4"`) behaves as if the header were absent: derivation falls through to X-Real-IP. |
| ClientIp.MappedSocketAddressStripped | src/controllers/ip.controller.ts:42-49 | With no proxy header, a socket address `::ffff:<v4>` yields `<v4>`. |
| ClientIp.StripMappedPrefix | src/controllers/ip.controller.ts:44-46 | Removing `::ffff:` from `::ffff:` + v gives v. |
| ClientIp.EmptyAddressIff | src/controllers/ip.controller.ts:12-53 | The derived address is empty iff no header supplies one and the socket address is exactly `::ffff:`. |
| InjectionPatterns.QuoteTripsSql | src/controllers/tracking.controller.ts:95-97 | A single quote anywhere in a field trips the SQL pattern. |
| InjectionPatterns.KeywordTripsSql | src/controllers/tracking.controller.ts:96 | A keyword (or, and, union, select, insert, delete, update, drop) between non-word characters trips the pattern, in any letter case. |
| InjectionPatterns.EmbeddedKeywordIsNotWholeWord | src/controllers/tracking.controller.ts:96 | A keyword inside a longer word does not match `\b…\b` there. |
| InjectionPatterns.HandlerAttributeTripsXss | src/controllers/tracking.controller.ts:122 | `on<word chars>=` anywhere trips the XSS screen. |
| InjectionPatterns.ElementTripsPattern | src/controllers/tracking.controller.ts:119-120 | An opening tag, in any letter case, followed later by its closing tag matches the element pattern. |
| InjectionPatterns.TagElementTripsXss | src/controllers/tracking.controller.ts:119-120 | A `<script …>…</script>` or `<iframe …>…</iframe>` element, in any letter case, trips the XSS screen. |
| InjectionPatterns.JavascriptSchemeTripsXss | src/controllers/tracking.controller.ts:121 | `javascript:` anywhere, in any letter case, trips the XSS screen. |
| InjectionPatterns.ScriptAlertIsXssOnly | src/controllers/tracking.controller.ts:94-123 | `<script>alert(1)</script>` trips the XSS screen and not the SQL one. |
| InjectionPatterns.NumericTextIsClean | src/controllers/tracking.controller.ts:95-123 | Text of digits and dots, such as an address or a timestamp, passes both screens. |
| TrackingController.BuildTrackingData | src/controllers/tracking.controller.ts:60-65 | The stored clientIp is the derived one. The User-Agent header wins over the body's userAgent. Every other field is the body's. |
| TrackingController.BodyClientIpDiscarded | src/controllers/tracking.controller.ts:60-63 | A body `clientIp` has no effect on the request built. |
| TrackingController.PerformSecurityCheck | src/controllers/tracking.controller.ts:93-178 | Passes iff five conditions hold: no screened field matches the SQL or XSS patterns; object event data is free of both; that data is at most 10240 characters; every length is within 255/255/500/64/64; and the timestamp lies in [now − one year, now + 60000]. |
| TrackingController.LengthRulesPass | src/controllers/tracking.controller.ts:151-163 | The length checks pass iff pagePath ≤ 255, pageTitle ≤ 255, referrer ≤ 500, sessionId ≤ 64 and userId ≤ 64. |
| TrackingController.FirstOverlongFieldReported | src/controllers/tracking.controller.ts:151-163 | With the pattern and event-data screens passed, the first overlong field in the order pagePath, pageTitle, referrer, sessionId, userId is the one reported. |
| TrackingController.OverlongTitleReported | src/controllers/tracking.controller.ts:151-163 | A title over 255 characters with the path in bounds is reported as `pageTitle 长度超过限制 (255)`. |
| TrackingController.SqlReportedBeforeXss | src/controllers/tracking.controller.ts:107-133 | When a screened field matches the SQL pattern, the message is the SQL one even if an XSS pattern also matches. |
| TrackingController.XssReportedAfterSql | src/controllers/tracking.controller.ts:107-133 | When no screened field matches the SQL pattern and one matches an XSS pattern, the check refuses with the XSS message. |
| TrackingController.ScriptAlertTitleRefused | src/controllers/tracking.controller.ts:107-133 | A page title of `<script>alert(1)</script>`, with the other screened fields free of SQL, is refused with the XSS message. |
| TrackingController.EventTypeNotScreened | src/controllers/tracking.controller.ts:99-105 | Changing eventType never changes the verdict, because it is not in the screened list. |
| TrackingController.ScalarEventDataNotScreened | src/controllers/tracking.controller.ts:136 | Event data that is not an object is neither screened nor size-checked. |
| TrackingController.EscapedEventDataRejected | src/controllers/tracking.controller.ts:136-142 | Once the fields pass, serialized event data holding a backslash is rejected as an event-data risk. |
| TrackingController.EventDataSizeBoundary | src/controllers/tracking.controller.ts:144-147 | Serialized event data of exactly 10240 characters is not rejected for size, and 10241 is. |
| TrackingController.TimestampWindow | src/controllers/tracking.controller.ts:165-175 | now + 60000 and now − one year are accepted. Anything later is "future" and anything earlier is "too old". A missing (`undefined`) timestamp passes this screen. |
| TrackingController.NullTimestampRefused | src/controllers/tracking.controller.ts:166-175 | A JSON `null` timestamp compares as 0, so an otherwise acceptable request carrying one is refused as "too old" once the clock is past one year after the epoch. |
| TrackingController.LogEvent | src/controllers/tracking.controller.ts:11-86 | The handler, with one rate-limit cache shared by all requests. Its response, cache and table are those of the handler specification: missing database, body guard, security check, then the service. |
| TrackingController.LogEventPerRequestService | src/controllers/tracking.controller.ts:76-77 | The handler as written: a fresh service, and so an empty rate-limit cache, on every request. |
| TrackingController.PerRequestServiceAcceptsFlood | src/controllers/tracking.controller.ts:76 | With a fresh service, any admissible request succeeds, however many came before it. |
| TrackingController.SharedServiceBlocksFlood | src/services/tracking.service.ts:129-142 | With a shared service, 100 admissible requests inside one window leave the key at its limit, and the 101st inside that window is refused with the rate-limit message. |
| RateLimit.RemainingMinutes | src/services/tracking.service.ts:120-121 | `Math.ceil(remainingMs / 60000)`: the least whole number of minutes covering the remaining time. |
| RateLimit.CheckKeepsKeys | src/services/tracking.service.ts:112-156 | A check never creates or removes an entry, and never touches another key. |
| RateLimit.CheckDuringBlock | src/services/tracking.service.ts:119-126 | During an active block, a check rejects with the remaining whole minutes (at most 5) and leaves the cache unchanged. |
| RateLimit.CheckStartsBlock | src/services/tracking.service.ts:130-143 | An unblocked entry at 100 inside its window is rejected and becomes blocked until now + 300000. Count and window are kept. |
| RateLimit.CheckStartsNewWindow | src/services/tracking.service.ts:144-152 | An unblocked entry past its window restarts with count 0 and window now + 60000, and is allowed. |
| RateLimit.CheckAllowsUnchanged | src/services/tracking.service.ts:116-155 | An absent key, or a blocked entry whose block has lapsed, is allowed with an empty message and no change. |
| RateLimit.CheckRejectsIff | src/services/tracking.service.ts:119-143 | A check rejects iff the entry is actively blocked, or unblocked with count ≥ 100 inside its window. |
| RateLimit.UpdateCreates | src/services/tracking.service.ts:167-172 | An update of an absent key creates count 1 with window now + 60000. |
| RateLimit.UpdateCounts | src/services/tracking.service.ts:175-181 | An update of an entry not actively blocked adds exactly one, clears `blocked`, removes `blockUntil` and keeps the window. |
| RateLimit.UpdateDuringBlock | src/services/tracking.service.ts:174-181 | An update during an active block changes nothing. |
| RateLimit.CleanupRemovesExactlyExpired | src/services/tracking.service.ts:187-198 | The sweep removes exactly the entries past their window and past any block. Every other entry is left as it was. |
| RateLimit.CleanupKeepsLive | src/services/tracking.service.ts:193 | An entry inside its window or its block survives the sweep unchanged. |
| RateLimit.WindowFills | src/services/tracking.service.ts:129-181 | Up to 100 accepted requests inside one window, starting from no entry, leave the count equal to their number, unblocked, in a window ending a minute after the first. |
| RateLimit.WindowAllows | src/services/tracking.service.ts:129-181 | Each of those requests is allowed. |
| RateLimit.RequestInsideWindow | src/services/tracking.service.ts:129-181 | A request inside an unblocked window below the limit is allowed and counted, and the window is kept. |
| RateLimit.FirstRequestOpensWindow | src/services/tracking.service.ts:129-181 | The first request for a key is allowed and opens a one-minute window with count 1. |
| RateLimit.HundredAndFirstBlocked | src/services/tracking.service.ts:131-142 | After 100 accepted requests inside a window, the next check in that window rejects and starts a five-minute block. |
| RateLimit.BlockLapseKeepsCount | src/services/tracking.service.ts:119-179 | After a block lapses, a check allows without resetting. The accepted request counts on from the old total in the old window and clears the block. |
| Tracking.ValidateTrackingData | src/services/tracking.service.ts:206-242 | Valid iff sessionId, pagePath and eventType are non-blank, the timestamp is present and positive, and the untrimmed lengths are within 64/255/255/64. |
| Tracking.PaddedSessionIdRefused | src/services/tracking.service.ts:225-227 | Lengths are measured before trimming, so a short sessionId padded beyond 64 is refused. |
| Tracking.MissingTimestampMessage | src/services/tracking.service.ts:220-222 | With the three required texts present, a missing, `null` (read as 0) or non-positive timestamp is reported with its own message. |
| Tracking.ValidatedRowWellFormed | src/services/tracking.service.ts:48-85 | The row stored for a valid request has non-empty, trimmed required fields within their limits. It also has the derived address, the client's positive timestamp and status 1. |
| Tracking.RateCheckComesFirst | src/services/tracking.service.ts:36-39 | A rate-limited request is refused with a 422 carrying `请求过于频繁，请稍后再试。` and the limiter's message, whatever its data. Nothing is stored. |
| Tracking.UnstoredRequestNotCounted | src/services/tracking.service.ts:36-91 | A request that stores no row never raises its key's count. |
| Tracking.SuccessIff | src/services/tracking.service.ts:33-104 | A call succeeds iff the rate check allows it, the request is valid and the insert works. |
| Tracking.StoredRequestCounted | src/services/tracking.service.ts:87-99 | A successful call stores one well-formed row under the next id and answers that id as text. Its cache is the check followed by one counted request. |
| Tracking.TrackingService.CheckRateLimit | src/services/tracking.service.ts:112-156 | The verdict and the new cache are those of `Check` on the old cache. |
| Tracking.TrackingService.UpdateRateLimit | src/services/tracking.service.ts:163-182 | The new cache is `Update` of the old one. |
| Tracking.TrackingService.CleanupRateLimit | src/services/tracking.service.ts:187-199 | Collecting the expired keys and then deleting them leaves `Cleanup` of the old cache. |
| Tracking.TrackingService.LogEvent | src/services/tracking.service.ts:33-104 | Response, cache and table are those of the logEvent specification: rate check, validation, insert, then count. |
| EventTable.EventStore.Insert | src/services/tracking.service.ts:87-88 | Exactly one row is appended, under the next id, and that id is fresh. |
| SimpleLog.ValidateSimpleLogData | src/services/simpleLog.service.ts:91-127 | Valid iff sessionId, pagePath and eventType are non-blank and the untrimmed lengths are within 64/255/255/64/20. |
| SimpleLog.BlankSessionReportedFirst | src/services/simpleLog.service.ts:93-95 | A blank sessionId is reported first, whatever else is wrong. |
| SimpleLog.ValidatedSimpleRow | src/services/simpleLog.service.ts:135-149 | The row of a valid visit has non-empty, trimmed required fields and a trimmed userId, all within their limits. It has no referrer, User-Agent, event data or device columns. It also has the server's time as event time, today's day, status 1 and the derived address. |
| SimpleLog.DedupKeyOf | src/services/simpleLog.service.ts:164-185 | The lookup is by trimmed userId iff that is non-blank, and otherwise by address and session. |
| SimpleLog.FindDuplicate | src/services/simpleLog.service.ts:187-196 | No id is found iff no valid row of today matches the key. A found id is that of the first matching row. |
| SimpleLog.FindDuplicateAppend | src/services/simpleLog.service.ts:187-194 | Appending a row keeps an earlier match, and otherwise finds the new row exactly when it matches. |
| SimpleLog.InvalidVisitNotStored | src/services/simpleLog.service.ts:25-28 | An invalid visit gets a 422 with the validation message, and the table is unchanged. |
| SimpleLog.StoredIff | src/services/simpleLog.service.ts:22-84 | A row is stored iff the visit is valid, no duplicate is found (a failed lookup counts as none), and the insert works. The stored row gets the next identifier and the answer is a success. |
| SimpleLog.StoredRowShape | src/services/simpleLog.service.ts:43-69 | A stored row is the trimmed request within the column limits, with empty referrer, agent and device fields, under the caller's address, time and day, with status 1. |
| SimpleLog.DuplicateAnswered | src/services/simpleLog.service.ts:31-40 | A duplicate is answered as a success carrying the existing row's id, and nothing is stored. |
| SimpleLog.DuplicateAnswerNamesRow | src/services/simpleLog.service.ts:29-40 | A success answered with the "already recorded today" message and a log id means the lookup found, among today's valid rows, one matching the request's dedup key, with exactly that id. |
| SimpleLog.SecondVisitOfUserNotStored | src/services/simpleLog.service.ts:31-40 | After a user's visit is stored, a second visit the same day stores nothing and answers the same id. |
| SimpleLog.SecondAnonymousVisitNotStored | src/services/simpleLog.service.ts:174-185 | The same holds for an anonymous visitor at the same address with a trimmed session. |
| SimpleLog.PaddedAnonymousSessionNeverDeduplicated | src/services/simpleLog.service.ts:138 | Under exact comparison, a session id with surrounding blanks never matches a stored (trimmed) session, so the lookup finds nothing. A PAD SPACE collation would still match padding that is only at the end. |
| SimpleLog.LogSimpleKeepsOncePerUserPerDay | src/services/simpleLog.service.ts:22-84 | When lookups work, `logSimpleEvent` preserves the invariant that no two valid rows of one signed-in user share a day. Only this path keeps it: tracking inserts are not deduplicated. |
| SimpleLog.SimpleLogService.CheckDuplicateToday | src/services/simpleLog.service.ts:158-202 | A failed query answers "no duplicate". Otherwise the answer is the first matching row of today. |
| SimpleLog.SimpleLogService.LogSimpleEvent | src/services/simpleLog.service.ts:22-84 | Response and table are those of the logSimpleEvent specification. |
| SimpleLogController.SimpleLengthRulesPass | src/controllers/simpleLog.controller.ts:128-140 | The length checks pass iff pagePath ≤ 255, pageTitle ≤ 255, sessionId ≤ 64, userId ≤ 64 and eventType ≤ 20. |
| SimpleLogController.PerformBasicSecurityCheck | src/controllers/simpleLog.controller.ts:85-143 | Passes iff no screened field matches either pattern and all lengths hold. There is no timestamp or event-data check. |
| SimpleLogController.BasicXssReportedAfterSql | src/controllers/simpleLog.controller.ts:99-125 | When no screened field matches the SQL pattern and one matches an XSS pattern, the basic check refuses with the XSS message. |
| SimpleLogController.EventTypeScreened | src/controllers/simpleLog.controller.ts:91-107 | On this path an eventType matching the SQL pattern is refused. |
| SimpleLogController.ScreenCoversServiceLengths | src/controllers/simpleLog.controller.ts:128-140 | A visit that passes the screen can fail service validation only with one of the three blank-field messages, never with a length message. |
| SimpleLogController.ScreenedVisitNotStored | src/controllers/simpleLog.controller.ts:59-65 | A visit refused by the screen gets `安全检查失败: ` and the reason, and the table is unchanged. |
| SimpleLogController.StoredUnderDerivedAddress | src/controllers/simpleLog.controller.ts:50-69 | Any row stored holds the address derived from the headers. |
| SimpleLogController.LogSimpleEvent | src/controllers/simpleLog.controller.ts:11-78 | Response and table are those of the handler specification: missing database, body guard, screen, then the service. |
| IpController.GetClientIpEndpoint | src/controllers/ip.controller.ts:55-84 | On success: the derived address, the User-Agent when the header is present and `'unknown'` otherwise, the time, and the four headers. On failure: status 200, code 500, null data, and the error's message or the default. |
| IpController.EchoesForwardingHeaders | src/controllers/ip.controller.ts:61-71 | Each of the four forwarding headers (X-Forwarded-For, X-Real-IP, X-Client-IP, CF-Connecting-IP) is echoed as its own value when present, and as null exactly when absent. With only X-Real-IP, that header is the address. |
| LabProfiles.EditGuards | src/services/labProfile.service.ts:234-243 | Editing a missing id answers notFound, and editing a published profile answers a 422. The table is unchanged in both cases. |
| LabProfiles.EditChangesOnlyContent | src/services/labProfile.service.ts:245-256 | Editing an unpublished profile succeeds. It changes only the type, title, both contents and the updating user. The publish state, publisher, creator and every other profile are unchanged. |
| LabProfiles.CreateIsUnpublished | src/services/labProfile.service.ts:258-272 | A new profile is unpublished under a fresh id, created and updated by the caller. Nothing else changes. |
| LabProfiles.CreateOrUpdateKeepsOnePublished | src/services/labProfile.service.ts:228-277 | Create and edit preserve "at most one published profile per type". |
| LabProfiles.DemoteSiblings | src/services/labProfile.service.ts:303-312 | The bulk update keeps the ids. Afterwards no profile of the type other than the given one is published. Each one that was published becomes offline with the updating user recorded and nothing else changed; every other profile is untouched. |
| LabProfiles.PublishMakesSole | src/services/labProfile.service.ts:296-320 | After publishing, the target is published by the caller and is the only published profile of its type. Profiles of other types are unchanged. |
| LabProfiles.PublishKeepsOnePublished | src/services/labProfile.service.ts:286-342 | Publish and unpublish preserve "at most one published profile per type". |
| LabProfiles.UnpublishOnlyFromPublished | src/services/labProfile.service.ts:321-334 | Unpublish is refused unless the profile is published, and then moves it to offline. Any other action is refused with no change. |
| LabProfiles.DeleteAllSpec | src/services/labProfile.service.ts:351-379 | successCount + failCount = the number of ids. Exactly the listed, existing, non-published profiles are removed, and the remaining ones are unchanged. |
| LabProfiles.RepeatedIdFails | src/services/labProfile.service.ts:361-364 | An id already processed counts as one more failure the second time. |
| LabProfiles.DeleteKeepsOnePublished | src/services/labProfile.service.ts:349-384 | Batch delete preserves "at most one published profile per type". |
| LabProfiles.PagingOf | src/services/labProfile.service.ts:23-25 | pageNo defaults to 1 and pageSize to 20, and skip = (pageNo − 1) · pageSize. |
| LabProfiles.CeilDiv | src/services/labProfile.service.ts:125 | `Math.ceil(total / pageSize)` is the least whole number whose product with pageSize covers total. |
| LabProfiles.PagesCoverRecords | src/services/labProfile.service.ts:125 | There are no pages iff there are no records. Otherwise the last page starts before the last record and reaches it. |
| LabProfiles.LabProfileService.CreateOrUpdate | src/services/labProfile.service.ts:228-277 | Response and table are those of the createOrUpdate specification. The next id advances only on create. |
| LabProfiles.LabProfileService.PublishOrUnpublish | src/services/labProfile.service.ts:286-342 | Response and table are those of the publish specification. |
| LabProfiles.LabProfileService.DeleteLabProfiles | src/services/labProfile.service.ts:349-384 | The loop's counters and remaining profiles are those of the batch-delete specification, answered in a success response. |
| Recruit.TypeListed | src/services/recruit.service.ts:64-71 | A type has a group iff some row has it, iff it has a first row, iff it has at least one item. |
| Recruit.Grouped | src/services/recruit.service.ts:64-77 | There is one group per type, in order of first appearance, each built from its type's rows. |
| Recruit.EveryRowGrouped | src/services/recruit.service.ts:49-74 | Summed over the groups, the rows of each type number exactly the rows. |
| Recruit.GroupedTotal | src/services/recruit.service.ts:49-77 | The total item count over all groups equals the row count. |
| Recruit.GroupsByType | src/services/recruit.service.ts:50-73 | Group keys are distinct. Each group holds exactly its type's items, in query order, and is non-empty. Every item is built from one of the rows and has the group's type. Every row has a group. |
| Recruit.GroupOfStep | src/services/recruit.service.ts:64-71 | A new type opens a group named from that row (typeName falls back to the type when empty). A later row of a known type only appends its item. Other groups are unchanged. |
| Recruit.WalkRows | src/services/recruit.service.ts:47-74 | The forEach fills the dictionary so that each type seen maps to its group, and no other key is present. |
| Recruit.GroupByType | src/services/recruit.service.ts:47-77 | The groups in key order are the grouping specification. |
| Recruit.GetRecruitmentByType | src/services/recruit.service.ts:77-79 | Answers the grouping with `获取招聘信息成功`. |
| UserTags.ParseTags | src/services/user.service.ts:51-59 | Empty tags give no tags. A successful parse gives the parsed array. A failed parse gives the comma fallback. |
| UserTags.SplitTagsClean | src/services/user.service.ts:57 | Every fallback tag is non-empty, trimmed and comma-free. |
| UserTags.SplitTagsKeepsPiece | src/services/user.service.ts:57 | Every non-blank piece between commas appears, trimmed, among the tags. |
| UserTags.SplitTagsKeepsOrder | src/services/user.service.ts:115-122 | The pieces keep their order: the first piece (if not blank) comes first, then the tags of the rest. |
| UserTags.CommaListRoundTrip | src/services/user.service.ts:198-206 | A list of clean tags stored comma-separated reads back as the same list when `JSON.parse` rejects the joined text. |
| UserTags.NonEmptyFrom | src/services/user.service.ts:57 | Every kept piece is one of the input pieces and is not empty. |
| UserTags.NonEmptyKeeps | src/services/user.service.ts:57 | Every non-empty input piece is kept. |
| UserTags.NonEmptyAppend | src/services/user.service.ts:57 | Dropping empty pieces distributes over concatenation, so the order is kept. |
| JsStrings.JoinSplit | src/services/user.service.ts:57 | Joining the pieces of a split with the separator gives back the string. |
| JsStrings.SplitAfterPiece | src/services/user.service.ts:57 | Splitting a separator-free piece followed by the separator and more text gives that piece, then the split of the rest. |
| JsStrings.SplitJoin | src/services/user.service.ts:57 | Splitting a join of separator-free pieces gives back the pieces. |
| JsStrings.TrimIdempotent | src/services/user.service.ts:57 | Trimming twice is trimming once. |
| JsStrings.TrimEmptyIff | src/services/tracking.service.ts:208 | `s.trim().length === 0` iff every character of s is whitespace. |

## Left out

- Database round-trips are not modelled: SQL text, TypeORM repositories and MySQL. The event table is a sequence of rows with an id counter, and the profile table is a map from id to profile. An insert or query failure is a boolean input together with the driver's error message.
- MySQL's case-insensitive, trailing-space-insensitive string comparison is not modelled. Comparison is exact. This affects the duplicate lookup (`src/services/simpleLog.service.ts:164-183`) and the demotion query's `profile_type = :profileType` (`src/services/labProfile.service.ts:310`). Under such a collation, publishing type `ab` would also demote a published `AB` or `ab `, which `LabProfiles.DemoteSiblings` does not capture.
- `LIMIT 1` without `ORDER BY` is modelled as "the first matching row in insertion order". The database may return any matching row.
- `DATE(created_times) = CURDATE()` is modelled as a `today` parameter, stored in each row as its day.
- Time is a parameter. `Date.now()` is `now`, and each request reads it once: the source reads the clock separately in `checkRateLimit`, `updateRateLimit` and the security check. `new Date().toISOString()` is a string parameter, and `publish_times` is the `now` passed in.
- The `setInterval` timer that runs `cleanupRateLimit` every minute is not modelled. The sweep is an ordinary method.
- `JSON.stringify(eventData)` is an abstract string carried with the event data. `JSON.parse(user.tags)` is an abstract input that either yields a string array or fails.
- UserTags.ParseTags: a JSON value that parses but is not an array of strings (a number, an object) is not modelled. The model takes the parse result to be a string array.
- UserTags.CommaListRoundTrip: holds only when `JSON.parse` rejects the joined text, which is the only case that reaches the comma fallback. A clean list whose join is valid JSON reads back as something else. For example, `["42"]` is stored as `42` and parses as the number 42. Likewise `["true"]` parses as `true`.
- Concurrency is not modelled, including the check-then-insert race in the duplicate lookup. Each request is one atomic step.
- A missing `sessionId` in the rate-limit key (JavaScript's `"ip:undefined"`) is not modelled. Absent optional strings are the empty string, which every check in the source treats like `undefined`.
- Database exceptions are modelled only for the event table: the insert and the duplicate lookup. A failing `findOne`, `save` or `delete` in the lab-profile service, and the failing query in `src/services/recruit.service.ts:80-83`, have no model path. In particular the inner catch of batch delete (`src/services/labProfile.service.ts:374-376`) is not modelled: a delete that fails for an existing unpublished profile would count a failure and keep the row. Missing or published ids are the `continue` branches at lines 361-369, and those are modelled. Other exceptions are not modelled either, such as a throwing header getter and the outer catch branches of `createOrUpdateLabProfile`, `publishOrUnpublishLabProfile` and `deleteLabProfiles`.
- The detail query after a profile edit, publish or create is modelled as answering the stored profile. Its join and date formatting are not modelled.
- `getLabProfileList`: the WHERE clause, the LIKE filters, the ordering and the row mapping are not modelled. Only the paging defaults, skip and page count are. A pageNo or pageSize that is `NaN` is not modelled.
- Recruit.GroupByType: `Object.values` puts integer-like keys first in numeric order. The model keeps insertion order. This assumes `dict_id` keys that are not integer-like; the schema only says `varchar(36)`, set by the application. `formatDate` of the row times is not modelled.
- The read-only listing and detail services (research, instrument, notice, dynamic, tool, dict, user list and detail beyond the tag parsing) and `getTrackingStats` are not part of this model. They only assemble SQL and map rows.
- Koa middlewares, routes, app set-up, the database pool and the ORM entities are not part of this model.
- The `<script>…</script>` and `<iframe>…</iframe>` expressions are modelled as an opening tag with a word boundary followed, anywhere later, by its closing tag. Case folding is ASCII only, as in a non-Unicode JavaScript regular expression.
- Lengths are counted in Unicode scalar values (Dafny characters), not in JavaScript's UTF-16 code units. Every length limit is affected: a `pageTitle` of 200 emoji is 400 code units and is refused by `src/controllers/tracking.controller.ts:159-163`, but the model counts 200 and accepts it.
- Body fields that are not strings are not modelled. Every optional field is a string, so the `typeof … === 'string'` guards at `src/controllers/tracking.controller.ts:108` and `:126` always hold, and the `TypeError` that a numeric `sessionId` raises in `src/services/tracking.service.ts:208` cannot occur.
- LabProfiles.Edited: an absent `content` or `contentEn` keeps the stored column, because TypeORM's `save` skips `undefined`. An explicit `null` that would clear the column is not modelled, since the optional fields have no separate null value.

## Findings

| source | as written | input that shows it | evidently intended | confidence | as-written member | corrected member |
|---|---|---|---|---|---|---|
| src/controllers/tracking.controller.ts:76 | Every request builds `new TrackingService(ctx.db)`, so the rate-limit cache starts empty each time and the limiter never rejects | 101 valid requests within one minute from the same address and session: all 101 are stored | One service, and so one cache, shared by all requests, so the 101st inside a window is refused | not executed | TrackingController.LogEventPerRequestService (PerRequestServiceAcceptsFlood) | TrackingController.LogEvent (SharedServiceBlocksFlood) |
