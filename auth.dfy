/**
 * Shared-secret authentication of the service: where the configured secret
 * comes from, where the caller's token is read from, and the gate that lets
 * a request through to its route or answers it with an error.
 */
module Auth {
  import opened JsValues
  import opened JsStrings

  /** The process environment variables the service reads. */
  datatype Env = Env(
    serviceToken: Option<string>,   // SERVICE_TOKEN
    hsAiToken: Option<string>,      // HS_AI_TOKEN
    apiToken: Option<string>,       // API_TOKEN
    openAiApiKey: Option<string>)   // OPENAI_API_KEY

  /** The request headers the service reads (Node lower-cases their names). */
  datatype Headers = Headers(
    authorization: Option<string>,  // authorization
    xServiceToken: Option<string>)  // x-service-token

  /** An error response: `res.status(status).json({ ok: false, error })`. */
  datatype ErrorReply = ErrorReply(status: int, error: string)

  /** What the auth middleware does: call `next()`, or respond itself. */
  datatype GateDecision = Pass | Deny(reply: ErrorReply)

  const MisconfiguredError: string := "SERVICE_TOKEN não configurado no servidor."
  const UnauthorizedError: string := "Não autorizado."
  const Misconfigured: ErrorReply := ErrorReply(500, MisconfiguredError)
  const Unauthorized: ErrorReply := ErrorReply(401, UnauthorizedError)

  /** The variables that may hold the secret, in the order they are consulted. */
  function TokenVariables(env: Env): seq<Option<string>>
  {
    [env.serviceToken, env.hsAiToken, env.apiToken]
  }

  /**
   * `getServiceToken`: the first set, non-empty variable among SERVICE_TOKEN,
   * HS_AI_TOKEN and API_TOKEN, trimmed; "" when none is set.
   */
  function ServiceToken(env: Env): (r: string)
    ensures Trimmed(r)
  {
    var t := OrElse(env.serviceToken, OrElse(env.hsAiToken, OrElse(env.apiToken, "")));
    Trim(t)
  }

  /**
   * The variable that supplies the secret is the first one that is set and
   * non-empty; the ones after it are not consulted.
   */
  lemma ServiceTokenPrecedence(env: Env, i: nat)
    requires i < |TokenVariables(env)| && Truthy(TokenVariables(env)[i])
    requires forall j :: 0 <= j < i ==> !Truthy(TokenVariables(env)[j])
    ensures ServiceToken(env) == Trim(TokenVariables(env)[i].value)
  {
    var vs := TokenVariables(env);
    if i == 1 {
      assert !Truthy(vs[0]);
    } else if i == 2 {
      assert !Truthy(vs[0]) && !Truthy(vs[1]);
    }
  }

  /** With none of the three variables set, no secret is configured. */
  lemma NoVariableNoSecret(env: Env)
    requires forall i :: 0 <= i < |TokenVariables(env)| ==> !Truthy(TokenVariables(env)[i])
    ensures ServiceToken(env) == ""
  {
    var vs := TokenVariables(env);
    assert !Truthy(vs[0]) && !Truthy(vs[1]) && !Truthy(vs[2]);
  }

  /**
   * A whitespace-only SERVICE_TOKEN still wins the fallback: the secret is
   * then empty and the later variables are not consulted.
   */
  lemma BlankVariableShadowsLater(env: Env)
    requires Truthy(env.serviceToken) && AllSpace(env.serviceToken.value)
    ensures ServiceToken(env) == ""
  {
    TrimEmptyIff(env.serviceToken.value);
  }

  /** The Authorization header as the server sees it: trimmed, "" when missing. */
  function AuthorizationValue(h: Headers): (r: string)
    ensures Trimmed(r)
    ensures !Truthy(h.authorization) ==> r == ""
    ensures Truthy(h.authorization) ==> r == Trim(h.authorization.value)
  {
    Trim(OrElse(h.authorization, ""))
  }

  const BearerPrefix: string := "bearer "

  /**
   * `auth.toLowerCase().startsWith("bearer ")`: a bearer header is at least
   * seven characters long and its seventh is a space.
   */
  predicate HasBearerScheme(auth: string): (b: bool)
    ensures b ==> |auth| >= 7 && auth[6] == ' '
  {
    StartsWith(Lower(auth), BearerPrefix)
  }

  /**
   * The scheme test is case-insensitive on the six letters, wants a space
   * (not a tab) as the seventh character, and does not look further.
   */
  lemma BearerSchemeIff(auth: string)
    ensures HasBearerScheme(auth) <==> BearerSpelling(auth)
  {
    if HasBearerScheme(auth) {
      BearerSchemeSpelled(auth);
    }
    if BearerSpelling(auth) {
      SpelledBearerScheme(auth);
    }
  }

  /** "bearer " in any mix of upper- and lower-case letters. */
  predicate BearerSpelling(auth: string)
  {
    && |auth| >= 7
    && auth[6] == ' '
    && forall i :: 0 <= i < 6 ==> auth[i] == "bearer"[i] || auth[i] == "BEARER"[i]
  }

  lemma BearerSchemeSpelled(auth: string)
    requires HasBearerScheme(auth)
    ensures BearerSpelling(auth)
  {
    var low := Lower(auth);
    forall i | 0 <= i < 7
      ensures LowerChar(auth[i]) == BearerPrefix[i]
    {
      assert low[..7][i] == low[i];
    }
  }

  lemma SpelledBearerScheme(auth: string)
    requires BearerSpelling(auth)
    ensures HasBearerScheme(auth)
  {
    var low := Lower(auth);
    forall i | 0 <= i < 7 ensures low[i] == BearerPrefix[i] {
      if i < 6 {
        assert auth[i] == "bearer"[i] || auth[i] == "BEARER"[i];
      }
    }
    assert low[..7] == BearerPrefix;
  }

  /**
   * `extractToken`: the trimmed rest of a `Bearer` Authorization header;
   * otherwise the trimmed X-Service-Token header, "" when that is missing or
   * blank.
   */
  function ExtractToken(h: Headers): (r: string)
    ensures Trimmed(r)
    ensures HasBearerScheme(AuthorizationValue(h)) ==> r == Trim(AuthorizationValue(h)[7..])
    ensures !HasBearerScheme(AuthorizationValue(h)) ==> r == Trim(OrElse(h.xServiceToken, ""))
  {
    var auth := AuthorizationValue(h);
    if HasBearerScheme(auth) then
      Trim(auth[7..])
    else
      var x := Trim(OrElse(h.xServiceToken, ""));
      if x != "" then x else ""
  }

  /**
   * A bearer token is never empty: the trimmed header ends in a non-space,
   * which must come after the space that closes the scheme.
   */
  lemma BearerTokenNonEmpty(h: Headers)
    requires HasBearerScheme(AuthorizationValue(h))
    ensures ExtractToken(h) != ""
  {
    BearerRestNonEmpty(AuthorizationValue(h));
  }

  lemma BearerRestNonEmpty(auth: string)
    requires Trimmed(auth) && HasBearerScheme(auth)
    ensures |auth| > 7 && Trim(auth[7..]) != ""
  {
    BearerSchemeSpelled(auth);
    var rest := auth[7..];
    assert rest[|rest| - 1] == auth[|auth| - 1];
    TrimKeepsLastNonSpace(rest);
  }

  /** With a bearer Authorization header, X-Service-Token is not looked at. */
  lemma BearerIgnoresServiceTokenHeader(auth: Option<string>, x1: Option<string>, x2: Option<string>)
    requires HasBearerScheme(AuthorizationValue(Headers(auth, x1)))
    ensures ExtractToken(Headers(auth, x1)) == ExtractToken(Headers(auth, x2))
  {
  }

  /** With neither header set the extracted token is empty. */
  lemma NoHeadersNoToken(h: Headers)
    requires !Truthy(h.authorization) && !Truthy(h.xServiceToken)
    ensures ExtractToken(h) == ""
  {
    assert AuthorizationValue(h) == "";
  }

  /**
   * `requireAuth` as a decision: 500 when no secret is configured (before any
   * header is read), 401 for a missing or different token, pass otherwise.
   */
  function RequireAuth(env: Env, h: Headers): (d: GateDecision)
    ensures ServiceToken(env) == "" ==> d == Deny(Misconfigured)
    ensures d.Pass? <==> ServiceToken(env) != "" && ExtractToken(h) == ServiceToken(env)
    ensures ServiceToken(env) != "" && !d.Pass? ==> d == Deny(Unauthorized)
  {
    var expected := ServiceToken(env);
    if expected == "" then Deny(Misconfigured)
    else
      var got := ExtractToken(h);
      if got == "" then Deny(Unauthorized)
      else if got != expected then Deny(Unauthorized)
      else Pass
  }

  /** Without a configured secret the headers make no difference. */
  lemma MisconfiguredIgnoresHeaders(env: Env, h1: Headers, h2: Headers)
    requires ServiceToken(env) == ""
    ensures RequireAuth(env, h1) == RequireAuth(env, h2) == Deny(Misconfigured)
  {
  }

  /**
   * A bearer header that carries the wrong token is refused even when
   * X-Service-Token holds the right one.
   */
  lemma WrongBearerNotRescued(env: Env, h: Headers)
    requires ServiceToken(env) != ""
    requires HasBearerScheme(AuthorizationValue(h))
    requires Trim(AuthorizationValue(h)[7..]) != ServiceToken(env)
    requires h.xServiceToken == Some(ServiceToken(env))
    ensures RequireAuth(env, h) == Deny(Unauthorized)
  {
  }

  /** A request that carries no token is never let through. */
  lemma NoTokenNoPass(env: Env, h: Headers)
    requires !Truthy(h.authorization) && !Truthy(h.xServiceToken)
    ensures !RequireAuth(env, h).Pass?
  {
    NoHeadersNoToken(h);
  }
}
