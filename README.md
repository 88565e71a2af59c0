# horasecreta-ai service: request gate and handlers

This project models the decision logic of the `horasecreta-ai` HTTP service
(`server.js`). It covers how the service resolves its shared secret from the
environment, how it reads the caller's token from the `Authorization` and
`X-Service-Token` headers, how the `requireAuth` middleware lets a request
through or answers it with 500 or 401, what the `/health` and `/debug-auth`
diagnostic routes report, and how `POST /advisor` validates its body and builds
its placeholder answer.

Everything is pure. Environment variables, header values and body fields are
`Option<string>` parameters, where `None` stands for `undefined`. The
middleware's `next()` and the handlers' `res.status(..).json(..)` calls become
returned values: `GateDecision` (`Pass` or `Deny(ErrorReply)`), `AdvisorReply`
(`Rejected(ErrorReply)` or `Answered(text)`), and the `HealthReport` and
`DebugAuthReport` records.

Modules:

- `JsValues` (js_values.dfy): the `Option` type, and JavaScript's `x || fallback`
  on strings that may be missing.
- `JsStrings` (js_strings.dfy): `trim`, `toLowerCase` and `startsWith`. The
  lemmas pin `trim` down completely. `TrimIsSlice` shows that trimming removes
  only whitespace from both ends. `TrimOfPadded` shows that this property
  determines the result.
- `Auth` (auth.dfy): `getServiceToken`, `extractToken` and `requireAuth`.
- `Diagnostics` (diagnostics.dfy): `GET /health` and `GET /debug-auth`.
- `Advisor` (advisor.dfy): the `POST /advisor` handler and the route, which is
  the gate followed by the handler.

The model follows `server.js` as written. That code has no message-length
bounds, does not lower-case or whitelist the mode, and has no prompt builder,
inference call, model fallback chain, timeouts or 502/504 answers: `/advisor`
returns a fixed placeholder text. `/health` reports the secret's length as
well as its presence, and a `/debug-auth` route reports header presence,
token lengths and whether the token matches.

## Model

| member | source | states |
|---|---|---|
| `JsValues.OrElse` | server.js:21 | JavaScript `String(v OR fallback)` is the value when it is set and non-empty, and the fallback otherwise |
| `JsStrings.IsSpace` | server.js:16 | the whitespace `trim` removes includes space, tab, line feed and carriage return, and never a printable ASCII character |
| `JsStrings.StartsWith` | server.js:22 | `startsWith` holds exactly when the string is at least as long as the prefix and agrees with it at every index of the prefix |
| `JsStrings.Trim` | server.js:16 | the result of `trim` has no leading or trailing whitespace and is no longer than its input |
| `JsStrings.TrimIsSlice` | server.js:16 | the trimmed string is a contiguous slice of the input, and every character outside that slice is whitespace |
| `JsStrings.TrimOfPadded` | server.js:16 | conversely, a string with no outer whitespace, padded with whitespace on either side, trims back to itself, so `trim` is fully determined |
| `JsStrings.TrimEmptyIff` | server.js:16 | `trim` gives "" exactly when the input is all whitespace |
| `JsStrings.TrimKeepsLastNonSpace` | server.js:23 | a string that ends in a non-space never trims to "" |
| `JsStrings.TrimIdempotent` | server.js:23 | trimming an already trimmed value changes nothing |
| `JsStrings.Lower` | server.js:22 | `toLowerCase` keeps the length and lowers each character in place, so indices into the lowered string line up with the original |
| `JsStrings.LowerChar` | server.js:22 | ASCII capitals map to the matching small letters, and every other character is unchanged |
| `Auth.ServiceToken` | server.js:9-17 | the configured secret never has leading or trailing whitespace |
| `Auth.ServiceTokenPrecedence` | server.js:11-16 | the secret is the trimmed value of the first variable among SERVICE_TOKEN, HS_AI_TOKEN and API_TOKEN that is set and non-empty, whatever the later ones hold |
| `Auth.NoVariableNoSecret` | server.js:11-16 | with none of the three variables set (or all empty), the secret is "" |
| `Auth.BlankVariableShadowsLater` | server.js:11-16 | a whitespace-only SERVICE_TOKEN still wins the fallback and yields "", so HS_AI_TOKEN and API_TOKEN are never consulted |
| `Auth.AuthorizationValue` | server.js:21 | the Authorization header as read: the trimmed header when it is set and non-empty, and "" when it is missing or empty |
| `Auth.HasBearerScheme` | server.js:22 | a header that passes the case-insensitive "bearer " test is at least seven characters long with a space as its seventh |
| `Auth.BearerSchemeIff` | server.js:21-22 | the header is treated as bearer exactly when its first six characters spell "bearer" in any letter case and its seventh is a space |
| `Auth.ExtractToken` | server.js:19-30 | the token never has outer whitespace. A bearer header gives the trimmed rest after the first 7 characters. Otherwise the token is the trimmed X-Service-Token, or "" |
| `Auth.BearerTokenNonEmpty` | server.js:21-24 | a token taken from a bearer header is never empty |
| `Auth.BearerIgnoresServiceTokenHeader` | server.js:22-24 | with a bearer Authorization header, X-Service-Token does not affect the token |
| `Auth.NoHeadersNoToken` | server.js:21-29 | with neither header set (or both empty), the token is "" |
| `Auth.RequireAuth` | server.js:32-50 | 500 with the misconfiguration message when the secret is "", whatever the headers. A configured secret gives a pass exactly when the extracted token equals it, and 401 "Não autorizado." otherwise |
| `Auth.MisconfiguredIgnoresHeaders` | server.js:33-36 | without a secret, every pair of header sets gets the same 500 answer |
| `Auth.WrongBearerNotRescued` | server.js:22-24 | a bearer header with the wrong token is refused even when X-Service-Token holds the right one |
| `Auth.NoTokenNoPass` | server.js:38-41 | a request with neither header is never let through |
| `Diagnostics.Health` | server.js:52-62 | `ok`, the service name and the given timestamp. `serviceTokenLen` is the length of the secret. `hasServiceToken` holds exactly when that length is positive. `hasOpenAIKey` holds exactly when OPENAI_API_KEY is set and not all whitespace |
| `Diagnostics.HealthPredictsMisconfiguration` | server.js:52-62 | `/health` reports no service token exactly when the gate answers 500 for every possible header set |
| `Diagnostics.DebugAuth` | server.js:65-77 | the header flags are the truthiness of the raw headers, and `gotLen` and `expectedLen` are the lengths of the extracted token and the secret. `match` holds exactly when the gate would pass, and then the two lengths are equal and positive |
| `Diagnostics.DiagnosticsAgree` | server.js:58-59 | `/debug-auth` and `/health` report the same secret length |
| `Advisor.Message` | server.js:82 | the message as read: the trimmed message when it is set and non-empty, and "" when it is missing or empty |
| `Advisor.Mode` | server.js:83 | the mode has no outer whitespace. It is "biblico" when the body's mode is missing or empty, and the trimmed supplied mode otherwise |
| `Advisor.BlankModeIsEmpty` | server.js:83 | a whitespace-only mode is not defaulted: it trims to "" |
| `Advisor.PlaceholderText` | server.js:93-100 | the answer starts with "1) **Entendimento da crise**\n", and its length is the fixed text's length plus the mode's |
| `Advisor.PlaceholderTextRoundTrip` | server.js:96-97 | the mode embedded in the answer text can be read back unchanged |
| `Advisor.PlaceholderTextInjective` | server.js:96-97 | different modes give different answer texts |
| `Advisor.Handle` | server.js:82-100 | 400 "Mensagem vazia." exactly when the trimmed message is empty. Any other message gets an answer that starts with the first section heading and carries the trimmed mode |
| `Advisor.BlankMessageRejected` | server.js:82-87 | a missing, empty or whitespace-only message is refused with 400 |
| `Advisor.AnswerIgnoresMessage` | server.js:89-100 | two non-blank messages with the same mode get the same answer, because the message text is not used |
| `Advisor.Route` | server.js:80 | the gate runs first. A denied request gets the gate's answer, and a passed one gets the handler's |
| `Advisor.RouteOutcomes` | server.js:32-100 | every error status is 400, 401 or 500. 500 means no secret is configured. 401 means a wrong or missing token. 400 means an authorised blank message. An answer comes exactly for an authorised non-blank message |
| `Advisor.DeniedIgnoresBody` | server.js:32-50 | the answer to a request the gate turns away does not depend on its body |

## Left out

- Express setup, CORS, JSON body parsing, `app.listen` and port selection (server.js:1-7, 106-107) are framework and I/O plumbing.
- Reading `process.env` and writing responses are replaced by function parameters and returned values. The 200 status of a successful JSON answer is implicit in `Answered` and in the report records.
- `Date.now()` in `/health` is a clock read. It is passed in as the parameter `now`.
- The `catch` in `/advisor` that answers 500 "Erro interno no serviço." (server.js:101-103) is left out. It can only be reached through a failing JavaScript coercion, such as a body field whose `toString` throws, and coercion is not modelled.
- JavaScript coercion of non-string body fields (`String(x || "")` on numbers, objects or arrays) is left out. Body fields are strings or missing.
- `JsStrings.LowerChar`: lower-cases ASCII letters only. JavaScript's `toLowerCase` also folds other Unicode letters, some into two characters. For the seven characters the scheme test compares, only ASCII capitals can map onto "bearer ", so the test behaves the same.
- `Diagnostics.Health`, `Diagnostics.DebugAuth`: lengths count characters. JavaScript's `.length` counts UTF-16 code units, which differ only for characters outside the Basic Multilingual Plane.
- The commented-out inference call (server.js:89-91) has no code, so there is nothing to model. `server.js` has no prompt building, model fallback chain, timeouts or message-length limits either.
