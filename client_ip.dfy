/**
 * Client address derivation (`getClientIP`), which the tracking, simple-log
 * and IP controllers each define with the same header precedence.
 *
 * Koa's `ctx.get(name)` answers `""` for an absent header, so every header
 * is a plain string with `""` for absence; `remoteAddress` and `ctx.ip`
 * use `""` for `undefined` in the same way.
 */
module ClientIp {
  import opened Wrappers
  import opened JsStrings

  /** The parts of a Koa request context the derivation reads. */
  datatype RequestContext = RequestContext(
    xForwardedFor: string,
    xRealIp: string,
    xClientIp: string,
    cfConnectingIp: string,
    userAgent: string,
    remoteAddress: string,
    ip: string)

  const MappedPrefix := "::ffff:"
  const Unknown := "unknown"

  /** The first comma-separated entry of `X-Forwarded-For`, trimmed. */
  function FirstForwarded(xff: string): (r: string)
    ensures ',' !in r
    ensures r == [] || (!IsWhitespace(r[0]) && !IsWhitespace(r[|r| - 1]))
    ensures |r| <= |xff|
  {
    var first := Split(xff, ',')[0];
    assert |Trim(first)| <= |first|;
    assert forall c | c in Trim(first) :: c in first;
    Trim(first)
  }

  /** The socket address with the first IPv4-mapped IPv6 prefix removed. */
  function StripMapped(remoteAddress: string): (r: string)
    ensures !Includes(remoteAddress, MappedPrefix) ==> r == remoteAddress
    ensures Includes(remoteAddress, MappedPrefix) ==> |r| == |remoteAddress| - |MappedPrefix|
  {
    if Includes(remoteAddress, MappedPrefix) then ReplaceFirst(remoteAddress, MappedPrefix, "") else remoteAddress
  }

  /** `getClientIP(ctx)`. */
  function GetClientIp(ctx: RequestContext): string
  {
    if ctx.xForwardedFor != "" && FirstForwarded(ctx.xForwardedFor) != "" then FirstForwarded(ctx.xForwardedFor)
    else if ctx.xRealIp != "" then ctx.xRealIp
    else if ctx.xClientIp != "" then ctx.xClientIp
    else if ctx.cfConnectingIp != "" then ctx.cfConnectingIp
    else if ctx.remoteAddress != "" then StripMapped(ctx.remoteAddress)
    else if ctx.ip != "" then ctx.ip
    else Unknown
  }

  // ------------------------------------------------ reference definition

  /** A source of the address: it is used when `test` is non-empty, and then answers `value`. */
  datatype Source = Source(test: string, value: string)

  /** The value of the first source whose test is non-empty, or `fallback`. */
  function FirstAvailable(sources: seq<Source>, fallback: string): string
  {
    if sources == [] then fallback
    else if sources[0].test != "" then sources[0].value
    else FirstAvailable(sources[1..], fallback)
  }

  /** The first available source decides; with none available the fallback is the answer. */
  lemma {:induction false} FirstAvailableSpec(sources: seq<Source>, fallback: string)
    ensures (forall k | 0 <= k < |sources| :: sources[k].test == "") ==> FirstAvailable(sources, fallback) == fallback
    ensures forall k | 0 <= k < |sources| && sources[k].test != "" ::
      (forall j | 0 <= j < k :: sources[j].test == "") ==> FirstAvailable(sources, fallback) == sources[k].value
  {
    if sources != [] && sources[0].test == "" {
      FirstAvailableSpec(sources[1..], fallback);
      forall k | 0 <= k < |sources| && sources[k].test != "" && (forall j | 0 <= j < k :: sources[j].test == "")
        ensures FirstAvailable(sources, fallback) == sources[k].value
      {
        assert sources[1..][k - 1] == sources[k];
        assert forall j | 0 <= j < k - 1 :: sources[1..][j] == sources[j + 1];
      }
      assert (forall k | 0 <= k < |sources| :: sources[k].test == "") ==>
        forall k | 0 <= k < |sources[1..]| :: sources[1..][k].test == "";
    }
  }

  /** The sources in the order the derivation consults them. */
  function Sources(ctx: RequestContext): seq<Source> {
    [Source(FirstForwarded(ctx.xForwardedFor), FirstForwarded(ctx.xForwardedFor)),
     Source(ctx.xRealIp, ctx.xRealIp),
     Source(ctx.xClientIp, ctx.xClientIp),
     Source(ctx.cfConnectingIp, ctx.cfConnectingIp),
     Source(ctx.remoteAddress, StripMapped(ctx.remoteAddress)),
     Source(ctx.ip, ctx.ip)]
  }

  /**
   * The derivation picks the first available source in the order
   * X-Forwarded-For (first entry), X-Real-IP, X-Client-IP,
   * CF-Connecting-IP, socket address, `ctx.ip`, and answers `'unknown'`
   * when none is available.
   */
  lemma ClientIpIsFirstAvailableSource(ctx: RequestContext)
    ensures GetClientIp(ctx) == FirstAvailable(Sources(ctx), Unknown)
  {
    if ctx.xForwardedFor == "" {
      assert Split(ctx.xForwardedFor, ',')[0] == "";
      assert FirstForwarded(ctx.xForwardedFor) == "";
    }
    var s := Sources(ctx);
    assert s[1..] == Sources(ctx)[1..];
    FirstAvailableSkip(s, 1);
    FirstAvailableSkip(s, 2);
    FirstAvailableSkip(s, 3);
    FirstAvailableSkip(s, 4);
    FirstAvailableSkip(s, 5);
    FirstAvailableSkip(s, 6);
  }

  /** When the first `n` sources are unavailable, the answer comes from the rest. */
  lemma {:induction false} FirstAvailableSkip(s: seq<Source>, n: nat)
    requires n <= |s|
    ensures (forall j | 0 <= j < n :: s[j].test == "") ==> FirstAvailable(s, Unknown) == FirstAvailable(s[n..], Unknown)
  {
    if n > 0 && forall j | 0 <= j < n :: s[j].test == "" {
      FirstAvailableSkip(s[1..], n - 1);
      assert s[1..][n - 1..] == s[n..];
      assert forall j | 0 <= j < n - 1 :: s[1..][j] == s[j + 1];
    }
  }

  /**
   * Whatever else the request carries, a non-blank first
   * X-Forwarded-For entry decides the address: the header is taken on
   * trust from the client.
   */
  lemma ForwardedForWins(ctx: RequestContext)
    requires FirstForwarded(ctx.xForwardedFor) != ""
    ensures GetClientIp(ctx) == FirstForwarded(ctx.xForwardedFor)
    ensures ',' !in GetClientIp(ctx)
  {
    assert ctx.xForwardedFor != "";
  }

  /** With `X-Forwarded-For: <first>,<rest>`, a non-blank `first` is the address, trimmed; later entries are ignored. */
  lemma ForwardedForFirstEntry(ctx: RequestContext, first: string, rest: string)
    requires ctx.xForwardedFor == first + "," + rest && ',' !in first && Trim(first) != ""
    ensures GetClientIp(ctx) == Trim(first)
  {
    SplitFirstPiece(ctx.xForwardedFor, ',', |first|);
    assert ctx.xForwardedFor[..|first|] == first;
  }

  /**
   * A blank first entry (`", 1.2.3.4"`) counts as no header at all, even
   * though a later entry holds an address: derivation falls through to
   * X-Real-IP and the rest.
   */
  lemma BlankFirstForwardedFallsThrough(ctx: RequestContext, first: string, rest: string)
    requires ctx.xForwardedFor == first + "," + rest
    requires forall i | 0 <= i < |first| :: IsWhitespace(first[i])
    ensures GetClientIp(ctx) == GetClientIp(ctx.(xForwardedFor := ""))
  {
    BlankFirstEntry(ctx.xForwardedFor, first, rest);
  }

  /** The first entry of `<first>,<rest>` is `first`, so a blank `first` leaves no forwarded address. */
  lemma BlankFirstEntry(xff: string, first: string, rest: string)
    requires xff == first + "," + rest
    requires forall i | 0 <= i < |first| :: IsWhitespace(first[i])
    ensures FirstForwarded(xff) == ""
  {
    TrimEmptyIff(first);
    assert xff[..|first|] == first;
    SplitFirstPiece(xff, ',', |first|);
  }

  /** An IPv4-mapped socket address `::ffff:<v4>` yields `<v4>` when no header supplies an address. */
  lemma MappedSocketAddressStripped(ctx: RequestContext, v4: string)
    requires FirstForwarded(ctx.xForwardedFor) == "" && ctx.xRealIp == "" && ctx.xClientIp == "" && ctx.cfConnectingIp == ""
    requires ctx.remoteAddress == MappedPrefix + v4
    ensures GetClientIp(ctx) == v4
  {
    StripMappedPrefix(v4);
  }

  /** The "::ffff:" prefix is removed, leaving whatever follows it. */
  lemma StripMappedPrefix(v4: string)
    ensures StripMapped(MappedPrefix + v4) == v4
  {
    var ra := MappedPrefix + v4;
    assert MatchesAt(ra, 0, MappedPrefix);
    assert IndexOfFrom(ra, MappedPrefix, 0) == Some(0);
    assert ra[..0] + "" + ra[|MappedPrefix|..] == v4;
  }

  /**
   * The derived address is empty only when the socket address is exactly
   * `::ffff:` and no header supplies an address: removing the prefix then
   * leaves nothing.
   */
  lemma EmptyAddressIff(ctx: RequestContext)
    ensures GetClientIp(ctx) == "" <==>
      (FirstForwarded(ctx.xForwardedFor) == "" && ctx.xRealIp == "" && ctx.xClientIp == "" && ctx.cfConnectingIp == ""
       && ctx.remoteAddress == MappedPrefix)
  {
    if ctx.xForwardedFor == "" {
      assert Split(ctx.xForwardedFor, ',')[0] == "";
    }
    var ra := ctx.remoteAddress;
    if ra == MappedPrefix {
      assert MatchesAt(ra, 0, MappedPrefix);
    }
    if ra != "" && StripMapped(ra) == "" {
      assert Includes(ra, MappedPrefix);
      var i := IndexOf(ra, MappedPrefix).value;
      assert |ra| == |MappedPrefix| && i == 0;
      assert ra == ra[0..|MappedPrefix|];
    }
  }
}
