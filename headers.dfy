/**
 * The middleware returned by `headers(security)` (src/index.js:74-131): the
 * security level is chosen once, when the middleware is built, and every
 * response then gets that level's header table.
 */
module SecurityHeaders {
  import opened Wrappers

  /** The four header tables. */
  datatype Level = High | Medium | Low | NoHeaders

  /** Response headers, by name. */
  type Headers = map<string, string>

  /** ASCII lower-casing of one character. */
  function LowerChar(c: char): char
  {
    if 'A' <= c <= 'Z' then (c as int + 32) as char else c
  }

  /** `toLowerCase`, for ASCII letters: the same text with every upper-case letter lowered. */
  function ToLowerAscii(s: string): (r: string)
    ensures |r| == |s|
    ensures forall i :: 0 <= i < |s| ==> !('A' <= r[i] <= 'Z')
    ensures forall i :: 0 <= i < |s| ==> r[i] == s[i] || ('A' <= s[i] <= 'Z' && r[i] as int == s[i] as int + 32)
  {
    seq(|s|, i requires 0 <= i < |s| => LowerChar(s[i]))
  }

  /** The names the level option accepts, after lower-casing. */
  const LevelNames: set<string> := {"high", "medium", "low", "none", "h", "m", "l", "n"}

  /** The construction-time error for a name outside `LevelNames`. */
  function LevelError(name: string): (message: string)
    ensures |message| > 25 + |name| && message[25..25 + |name|] == name
  {
    "Invalid security level: '" + name + "', expected 'high', 'medium', or 'low'."
  }

  /**
   * Building the middleware: the level defaults to "high", is lower-cased,
   * and is accepted exactly when it names a table or one of its one-letter
   * aliases; any other name is an error.
   */
  function ParseLevel(security: Option<string>): (r: Result<Level, string>)
    ensures var name := ToLowerAscii(if security.Some? then security.value else "high");
      && (r.Success? <==> name in LevelNames)
      && (r.Failure? ==> r.error == LevelError(name))
  {
    var name := ToLowerAscii(if security.Some? then security.value else "high");
    if name == "high" || name == "h" then Success(High)
    else if name == "medium" || name == "m" then Success(Medium)
    else if name == "low" || name == "l" then Success(Low)
    else if name == "none" || name == "n" then Success(NoHeaders)
    else Failure(LevelError(name))
  }

  // Header names that the tables set or the middleware removes.
  const StrictTransportSecurity := "Strict-Transport-Security"
  const ContentSecurityPolicy := "Content-Security-Policy"
  const XFrameOptions := "X-Frame-Options"
  const XXssProtection := "X-Xss-Protection"
  const XContentTypeOptions := "X-Content-Type-Options"
  const ReferrerPolicy := "Referrer-Policy"
  const PermissionsPolicy := "Permissions-Policy"
  const EmbedderPolicy := "Cross-Origin-Embedder-Policy"
  const EmbedderPolicyReportOnly := "Cross-Origin-Embedder-Policy-Report-Only"
  const OpenerPolicy := "Cross-Origin-Opener-Policy"
  const OpenerPolicyReportOnly := "Cross-Origin-Opener-Policy-Report-Only"
  const ResourcePolicy := "Cross-Origin-Resource-Policy"
  const XPoweredBy := "X-Powered-By"

  // Header values of the tables.
  const TwoYearsPreload := "max-age=63072000; includeSubDomains; preload"
  const HighCsp := "default-src 'self'; base-uri 'self'; form-action 'self'; img-src 'self'; object-src 'none'; frame-ancestors 'self'; require-trusted-types-for 'script'"
  const MediumCsp := "default-src 'self'; base-uri 'self'; form-action 'self'; img-src 'self'; frame-ancestors 'self'; require-trusted-types-for 'script'"
  const LowCsp := "default-src 'https:'"
  const Permissions := "geolocation=(), midi=(), sync-xhr=(), accelerometer=(), gyroscope=(), magnetometer=(), camera=(), fullscreen=(self)"

  /** The header table of each level (src/index.js:76-114). */
  function Table(level: Level): (table: Headers)
    ensures XPoweredBy !in table
    ensures StrictTransportSecurity in table <==> level != NoHeaders
    ensures level != NoHeaders ==> table[StrictTransportSecurity] == TwoYearsPreload
    ensures level == NoHeaders ==> table == map[]
  {
    match level
    case High => map[
      StrictTransportSecurity := TwoYearsPreload,
      ContentSecurityPolicy := HighCsp,
      XFrameOptions := "DENY",
      XContentTypeOptions := "nosniff",
      ReferrerPolicy := "strict-origin-when-cross-origin",
      PermissionsPolicy := Permissions,
      EmbedderPolicy := "require-corp",
      EmbedderPolicyReportOnly := "require-corp",
      OpenerPolicy := "same-origin",
      OpenerPolicyReportOnly := "same-origin",
      ResourcePolicy := "same-site"]
    case Medium => map[
      StrictTransportSecurity := TwoYearsPreload,
      ContentSecurityPolicy := MediumCsp,
      XFrameOptions := "SAMEORIGIN",
      XXssProtection := "1; mode=block",
      XContentTypeOptions := "nosniff",
      ReferrerPolicy := "no-referrer-when-downgrade",
      PermissionsPolicy := Permissions,
      EmbedderPolicy := "require-corp",
      EmbedderPolicyReportOnly := "require-corp",
      OpenerPolicy := "same-origin-allow-popups",
      OpenerPolicyReportOnly := "same-origin-allow-popups",
      ResourcePolicy := "same-site"]
    case Low => map[
      StrictTransportSecurity := TwoYearsPreload,
      ContentSecurityPolicy := LowCsp,
      ReferrerPolicy := "no-referrer-when-downgrade"]
    case NoHeaders => map[]
  }

  /** The two headers removed from every response before the table is applied. */
  const Removed: set<string> := {StrictTransportSecurity, XPoweredBy}

  /**
   * Per request: the response's headers lose the two removed ones and then
   * take every entry of the table, which wins over what was there.
   */
  function ApplyHeaders(table: Headers, response: Headers): (r: Headers)
    ensures r.Keys == (response.Keys - Removed) + table.Keys
    ensures forall name :: name in table ==> r[name] == table[name]
    ensures forall name :: name in response && name !in Removed && name !in table ==> r[name] == response[name]
  {
    (response - Removed) + table
  }

  /** Lower-casing twice is lower-casing once. */
  lemma ToLowerIdempotent(s: string)
    ensures ToLowerAscii(ToLowerAscii(s)) == ToLowerAscii(s)
  {
  }

  /** The level name is case-insensitive: a name and its lower-cased form build the same middleware. */
  lemma LevelIsCaseInsensitive(name: string)
    ensures ParseLevel(Some(name)) == ParseLevel(Some(ToLowerAscii(name)))
  {
    ToLowerIdempotent(name);
  }

  /** With no level given the middleware uses "high", which "h" abbreviates. */
  lemma HighAliases()
    ensures ParseLevel(None) == ParseLevel(Some("high")) == ParseLevel(Some("h")) == Success(High)
  {
  }

  /** "m" abbreviates "medium". */
  lemma MediumAliases()
    ensures ParseLevel(Some("medium")) == ParseLevel(Some("m")) == Success(Medium)
  {
  }

  /** "l" abbreviates "low". */
  lemma LowAliases()
    ensures ParseLevel(Some("low")) == ParseLevel(Some("l")) == Success(Low)
  {
  }

  /** "none" and "n" both select the empty table. */
  lemma NoneAliases()
    ensures ParseLevel(Some("none")) == ParseLevel(Some("n")) == Success(NoHeaders)
    ensures Table(NoHeaders) == map[]
  {
  }

  /** An unknown level is refused when the middleware is built. */
  lemma BogusLevelRejected()
    ensures ParseLevel(Some("bogus")) == Failure(LevelError("bogus"))
  {
    assert ToLowerAscii("bogus") == "bogus";
  }

  /** At level "medium" responses carry `X-Frame-Options: SAMEORIGIN`, not `DENY`. */
  lemma MediumFrameOptions(response: Headers)
    ensures ApplyHeaders(Table(Medium), response)[XFrameOptions] == "SAMEORIGIN"
  {
  }

  /**
   * `X-Powered-By` never survives, and `Strict-Transport-Security` is present
   * afterwards exactly when the level's table sets it again, that is at
   * every level but "none".
   */
  lemma RemovedHeaders(level: Level, response: Headers)
    ensures XPoweredBy !in ApplyHeaders(Table(level), response)
    ensures StrictTransportSecurity in ApplyHeaders(Table(level), response) <==> level != NoHeaders
  {
  }
}
