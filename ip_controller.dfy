/**
 * `IpController` (src/controllers/ip.controller.ts): tells a client the
 * address the server sees for it, the User-Agent, the time, and the
 * forwarding headers it arrived with.
 */
module IpController {
  import opened Wrappers
  import opened Response
  import opened ClientIp

  /** The `headers` member: each forwarding header, or `null` when absent or empty. */
  datatype ForwardingHeaders = ForwardingHeaders(
    xForwardedFor: Option<string>, xRealIp: Option<string>, xClientIp: Option<string>, cfConnectingIp: Option<string>)

  /** The `result` record. `timestamp` is the server clock as an ISO 8601 string. */
  datatype IpInfo = IpInfo(ip: string, userAgent: string, timestamp: string, headers: ForwardingHeaders)

  const IpSuccessMessage := "获取客户端IP地址成功"
  const IpFailureMessage := "获取客户端IP地址失败"

  /** `value || null`. */
  function HeaderOrNull(value: string): (r: Option<string>)
    ensures r.None? <==> value == ""
    ensures r.Some? ==> r.value == value
  {
    if value == "" then None else Some(value)
  }

  /**
   * `getClientIp`. `isoNow` is `new Date().toISOString()`; `failure` is
   * the message of an exception raised while answering, if any.
   */
  function GetClientIpEndpoint(ctx: RequestContext, isoNow: string, failure: Option<string>): (r: ApiResponse<IpInfo>)
    ensures failure.None? ==>
      r.IsSuccess() && r.message == IpSuccessMessage && r.data.Some?
      && r.data.value.ip == GetClientIp(ctx) && r.data.value.timestamp == isoNow
      && (r.data.value.userAgent == "unknown" <==> ctx.userAgent == "" || ctx.userAgent == "unknown")
      && (ctx.userAgent != "" ==> r.data.value.userAgent == ctx.userAgent)
    ensures failure.Some? ==>
      r.status == 200 && r.errorCode == CodeServerError && r.data.None?
      && r.message == MessageOr(failure.value, IpFailureMessage)
  {
    if failure.Some? then
      ApiResponse(200, CodeServerError, MessageOr(failure.value, IpFailureMessage), None)
    else
      var headers := ForwardingHeaders(HeaderOrNull(ctx.xForwardedFor), HeaderOrNull(ctx.xRealIp),
        HeaderOrNull(ctx.xClientIp), HeaderOrNull(ctx.cfConnectingIp));
      var userAgent := if ctx.userAgent != "" then ctx.userAgent else "unknown";
      Success(IpInfo(GetClientIp(ctx), userAgent, isoNow, headers), IpSuccessMessage)
  }

  /**
   * The reported headers are exactly the forwarding headers the request
   * carried, each `null` when absent; and a blank first
   * `X-Forwarded-For` entry gives way to `X-Real-IP`.
   */
  lemma EchoesForwardingHeaders(ctx: RequestContext, isoNow: string)
    ensures var h := GetClientIpEndpoint(ctx, isoNow, None).data.value.headers;
      (h.xForwardedFor.Some? <==> ctx.xForwardedFor != "") && (h.xRealIp.Some? <==> ctx.xRealIp != "")
      && (h.xClientIp.Some? <==> ctx.xClientIp != "") && (h.cfConnectingIp.Some? <==> ctx.cfConnectingIp != "")
      && (h.xForwardedFor.Some? ==> h.xForwardedFor.value == ctx.xForwardedFor)
      && (h.xRealIp.Some? ==> h.xRealIp.value == ctx.xRealIp)
      && (h.xClientIp.Some? ==> h.xClientIp.value == ctx.xClientIp)
      && (h.cfConnectingIp.Some? ==> h.cfConnectingIp.value == ctx.cfConnectingIp)
    ensures ctx.xRealIp != "" && FirstForwarded(ctx.xForwardedFor) == "" ==>
      GetClientIpEndpoint(ctx, isoNow, None).data.value.ip == ctx.xRealIp
  {
  }
}
