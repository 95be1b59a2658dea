# Refresh-token lifecycle of auth-token-api

This is a Dafny model of the token logic in `server.js`, a single-user Express
authentication service. The model covers four parts:

- **Token issuer** (`generateTokens`): the claim shape of an access/refresh pair.
- **Access gate** (`authenticateToken`): takes the second space-separated field of
  the `Authorization` header. It admits the request only for a token that verifies
  and whose `type` claim is `"access"`. It then binds the token's `userId`.
- **Refresh-token registry**: the process-wide set of refresh tokens that are
  issued and not yet used, revoked or found invalid.
- **Login, refresh and logout handlers**: the decisions they make and how they
  change the registry.

The JWT library and the password-hash library are not modelled. Verification,
with the process secret at the time of the call, is a total function
`string -> Verified` whose outcome is `Invalid` or `Valid(userId, tokenType)`.
`generateTokens` is a function `UserId -> TokenPair` that the caller supplies.
The password comparison is a boolean.

Modules:

- `Wrappers`: `Option`, for absent request fields and headers.
- `Tokens`: claims, token pairs, the verification outcome, and the claim shape
  written by `generateTokens`.
- `Gate`: JavaScript's `split(' ')` and its inverse, bearer-token extraction, and
  `Authenticate`.
- `Handlers`: each handler as one step from a registry value to an outcome and a
  new registry value. The properties are stated over these steps.
- `Registry`: the class `TokenRegistry`. It holds the registry as a mutable
  `set<string>` field. It has one method per handler, and each method is proved to
  take the step `Handlers` specifies. `Session` runs a scripted session against a
  fresh registry.

server.js treats every verification error alike: it deletes the token and
answers 403 (server.js:127-129). A single `VerificationFailed` outcome
therefore covers both a bad signature and an expired token.

## Model

| member | source | states |
|---|---|---|
| `Tokens.GenerateClaims` | server.js:31-45 | Both tokens carry the given `userId` and the same issue time `now`. The access token is typed "access" and expires 60 minutes (3600 s) after `now`. The refresh token is typed "refresh" and expires 7 days (604800 s) after `now`, so the access token expires first. |
| `Tokens.IssuedTokensDiffer` | server.js:31-45 | The two tokens of a signed pair are different strings, because they verify to different types. |
| `Gate.SplitOnSpace` | server.js:50 | `split(' ')` always yields at least one field, and no field contains a space. A string without spaces splits to itself alone; a string with a space splits into at least two fields. |
| `Gate.SplitThenJoin` | server.js:50 | Joining the fields of a split with single spaces gives back the original string. |
| `Gate.JoinThenSplit` | server.js:50 | Splitting the space-join of space-free fields gives back exactly those fields. |
| `Gate.BearerToken` | server.js:49-54 | An extracted token is non-empty and has no space. An absent header, or one without a space, yields no token. |
| `Gate.SecondFieldOfShape` | server.js:50-52 | For a header `scheme + " " + token + rest`, where `rest` is empty or starts with a space, the extracted token is `token`, or nothing when `token` is empty. |
| `Gate.BearerTokenCharacterized` | server.js:49-54 | Both directions: `t` is extracted from a header exactly when `t` is non-empty and the header has the form scheme word, one space, `t`, then nothing or more space-separated fields. |
| `Gate.Authenticate` | server.js:48-67 | The outcome is 401 exactly when no token is extracted, the token fails verification, or its type is not "access". It is 401 no-token exactly when no token is extracted, so a missing header or one without a second field is rejected. A request is admitted exactly when the extracted token verifies to `Valid(userId, "access")`, and then `userId` is bound. The gate reads nothing but its arguments, so it never touches the registry. |
| `Gate.SchemeWordIgnored` | server.js:50 | The leading scheme word is never checked: any space-free word in its place gives the same outcome. |
| `Gate.IssuedAccessTokenAdmitted` | server.js:56-66 | A freshly signed access token sent as `<scheme> <token>` is admitted and binds the user id it was issued for. |
| `Gate.RefreshTokenRejectedByGate` | server.js:61-63 | A freshly signed refresh token presented to the gate verifies but is rejected as the wrong type. |
| `Handlers.Login` | server.js:80-91 | Login succeeds exactly when the username is "nugyman" and the password matches. On success it returns the fixture profile and the pair issued for user id 1, and the registry gains exactly that refresh token. On failure it answers 401 and the registry is unchanged. |
| `Handlers.Refresh` | server.js:116-141 | It answers 401 exactly when no token is sent. Each 403 has an exact condition: `UnknownToken` when the token is not registered; `VerificationFailed` when it is registered and fails verification; `WrongTokenType` when it is registered and verifies with a type other than "refresh". It rotates exactly when the token is registered, verifies, and has type "refresh". On rotation the registry becomes registry − {old} ∪ {new refresh token}, and the new pair is issued for the verified `userId`. A failed verification removes exactly the presented token. Every other rejection leaves the registry unchanged. No rejection ever adds a token. |
| `Handlers.Logout` | server.js:193-197 | Logout always answers 200. A truthy token is no longer registered afterwards. Nothing is added, and no token other than the one sent is removed. |
| `Handlers.LogoutIdempotent` | server.js:193-195 | Logging out twice with the same body has the same effect as logging out once. |
| `Handlers.LogoutOfAbsentTokenIsNoop` | server.js:193-195 | Logging out with no token (absent or empty), or with an unregistered token, leaves the registry unchanged. |
| `Handlers.RefreshIsSingleUse` | server.js:121-141 | After a successful rotation whose new refresh token differs from the old one, replaying the old token is refused with 403 at the registry check. The registry is unchanged, whatever verification would say. |
| `Handlers.IdenticalReissueCanBeReplayed` | server.js:137-141 | If the re-issued refresh token equals the presented one, the registry is unchanged and the same token rotates again. This is why single use needs the hypothesis above. |
| `Handlers.LoginRecordsRefreshToken` | server.js:90-91 | After a successful login, presenting its refresh token to `/auth/refresh` rotates it to the pair issued for user id 1. |
| `Handlers.AccessTokenRefusedByRefresh` | server.js:121-134 | An access token presented to `/auth/refresh` never rotates. It is refused with 403 (401 if empty), and the registry is unchanged. |
| `Registry.TokenRegistry.constructor` | server.js:28 | The registry starts empty. |
| `Registry.TokenRegistry.Login` | server.js:75-104 | The method's outcome and new set are exactly the `Handlers.Login` step from the old set. |
| `Registry.TokenRegistry.Refresh` | server.js:112-144 | The method's outcome and new set are exactly the `Handlers.Refresh` step from the old set. |
| `Registry.TokenRegistry.Logout` | server.js:189-197 | The method's outcome and new set are exactly the `Handlers.Logout` step from the old set. |
| `Registry.Session` | server.js:75-202 | From a fresh registry: login 200, login with a wrong password 401, refresh 200, replay of the first refresh token 403, logout 200. Only the rotated refresh token remains registered. |

## Left out

- JWT signing, verification and expiry arithmetic are library calls, not modelled. They are an opaque verification function and a caller-supplied issuer. That verifying a fresh token returns its claims is a hypothesis (`Tokens.Signs`), not a theorem.
- Password hashing and comparison are library calls, not modelled. The comparison is a boolean input.
- Express setup, CORS, JSON parsing, `app.listen` and console logging are I/O plumbing.
- The profile, `/health` and `/` responses (server.js:152-226) are static data with no logic.
- The `try/catch` 500 answers guard only exceptions from libraries or the runtime, such as a non-string password reaching the hash comparison.
- Request fields are modelled as absent or a string. Non-string JSON values, such as numbers or objects, are not modelled. Such a value is never a member of the registry.
- `expiresInMins` is parsed but never used, so there is nothing to model.
- Concurrency between requests and callback scheduling are not modelled. Each handler is one atomic step.
- Response bodies beyond the outcome are not modelled. The refresh outcome keeps the new pair, and the login outcome keeps the profile and the pair.
