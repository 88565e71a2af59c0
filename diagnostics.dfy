/**
 * The two diagnostic routes, `GET /health` and `GET /debug-auth`: JSON
 * reports of booleans and lengths derived from the configured secret and
 * the presented token, never the values themselves.
 */
module Diagnostics {
  import opened JsValues
  import opened JsStrings
  import opened Auth

  const ServiceName: string := "horasecreta-ai"

  /** The body of `GET /health`; `ts` is the clock reading passed in. */
  datatype HealthReport = HealthReport(
    ok: bool,
    service: string,
    ts: int,
    hasServiceToken: bool,
    serviceTokenLen: nat,
    hasOpenAIKey: bool)

  /** `GET /health` at time `now`. */
  function Health(env: Env, now: int): (r: HealthReport)
    ensures r.ok && r.service == ServiceName && r.ts == now
    ensures r.serviceTokenLen == |ServiceToken(env)|
    ensures r.hasServiceToken <==> r.serviceTokenLen > 0
    ensures r.hasOpenAIKey <==> Truthy(env.openAiApiKey) && !AllSpace(env.openAiApiKey.value)
  {
    var expected := ServiceToken(env);
    TrimEmptyIff(OrElse(env.openAiApiKey, ""));
    HealthReport(
      ok := true,
      service := ServiceName,
      ts := now,
      hasServiceToken := expected != "",
      serviceTokenLen := if expected != "" then |expected| else 0,
      hasOpenAIKey := Trim(OrElse(env.openAiApiKey, "")) != "")
  }

  /**
   * `/health` reports no service token exactly when every request to a
   * protected route is answered 500 by the auth gate.
   */
  lemma HealthPredictsMisconfiguration(env: Env, now: int)
    ensures !Health(env, now).hasServiceToken <==>
      forall h: Headers :: RequireAuth(env, h) == Deny(Misconfigured)
  {
    if forall h: Headers :: RequireAuth(env, h) == Deny(Misconfigured) {
      assert RequireAuth(env, Headers(None, None)) == Deny(Misconfigured);
    }
  }

  /** The body of `GET /debug-auth`. */
  datatype DebugAuthReport = DebugAuthReport(
    ok: bool,
    hasAuthHeader: bool,
    hasXServiceToken: bool,
    gotLen: nat,
    expectedLen: nat,
    tokenMatch: bool)  // JSON key "match"

  /** `GET /debug-auth`: what the gate would see for these headers. */
  function DebugAuth(env: Env, h: Headers): (r: DebugAuthReport)
    ensures r.ok
    ensures r.hasAuthHeader == Truthy(h.authorization)
    ensures r.hasXServiceToken == Truthy(h.xServiceToken)
    ensures r.gotLen == |ExtractToken(h)| && r.expectedLen == |ServiceToken(env)|
    ensures r.tokenMatch <==> RequireAuth(env, h).Pass?
    ensures r.tokenMatch ==> r.gotLen == r.expectedLen > 0
  {
    var expected := ServiceToken(env);
    var got := ExtractToken(h);
    assert RequireAuth(env, h).Pass? <==> expected != "" && got == expected;
    DebugAuthReport(
      ok := true,
      hasAuthHeader := Truthy(h.authorization),
      hasXServiceToken := Truthy(h.xServiceToken),
      gotLen := if got != "" then |got| else 0,
      expectedLen := if expected != "" then |expected| else 0,
      tokenMatch := got != "" && expected != "" && got == expected)
  }

  /** `/debug-auth` and `/health` agree on the length of the secret. */
  lemma DiagnosticsAgree(env: Env, h: Headers, now: int)
    ensures DebugAuth(env, h).expectedLen == Health(env, now).serviceTokenLen
  {
  }
}
