/**
 * The request and response records of the tracking endpoint
 * (src/types/tracking.types.ts). Optional string members use `""` for
 * absence, since every consumer treats `undefined` and `""` alike;
 * optional numeric members of the client descriptions use `0`, which
 * `x || null` stores as NULL just like an absent value.
 */
module TrackingTypes {
  import opened Wrappers

  datatype DeviceInfo = DeviceInfo(deviceType: string, deviceMemory: int, hardwareConcurrency: int)

  datatype BrowserInfo = BrowserInfo(name: string, version: string, language: string)

  datatype OsInfo = OsInfo(name: string, version: string)

  datatype ScreenInfo = ScreenInfo(width: int, height: int, colorDepth: int, pixelRatio: int)

  /**
   * `eventData`: nothing (absent, `null` or another falsy value), or a
   * value together with its `JSON.stringify` text and whether it is an
   * object (`typeof … === 'object'`, arrays included).
   */
  datatype EventData = NoEventData | EventValue(json: string, isObject: bool)

  /**
   * `TrackingRequest`. A missing `timestamp` (`undefined`) is `None`; a JSON
   * `null` is `Some(NullTimestamp)`, because every comparison and `!` the
   * source applies to it coerces `null` to 0.
   */
  datatype TrackingRequest = TrackingRequest(
    userId: string,
    sessionId: string,
    pagePath: string,
    pageTitle: string,
    userAgent: string,
    clientIp: string,
    deviceInfo: Option<DeviceInfo>,
    browserInfo: Option<BrowserInfo>,
    osInfo: Option<OsInfo>,
    screenInfo: Option<ScreenInfo>,
    timestamp: Option<int>,
    referrer: string,
    eventType: string,
    eventData: EventData)

  /** How a JSON `null` timestamp reads once JavaScript coerces it to a number. */
  const NullTimestamp := 0

  /** `TrackingResponse`. */
  datatype TrackingResponse = TrackingResponse(success: bool, message: string, trackingId: string)
}
