/**
 * What the `/auth/login`, `/auth/refresh` and `/auth/logout` handlers decide,
 * stated over the value of the refresh-token registry (the process-wide set
 * of refresh tokens not yet used or revoked). Each handler is one atomic step
 * from a registry to an outcome and a new registry.
 */
module Handlers {

  import opened Wrappers
  import opened Tokens

  /** The single hard-coded user (the password hash is left to the hashing library). */
  datatype User = User(
    id: UserId, username: string, email: string,
    firstName: string, lastName: string, gender: string, image: string)

  const FIXTURE_USER: User := User(
    1, "nugyman", "nugmanesenalin@gmail.com", "Nugyman", "Esenalin", "male",
    "https://ui-avatars.com/api/?name=Nugyman+Esenalin&size=128")

  /** A string request field as JavaScript tests it: absent (undefined) and "" are falsy. */
  predicate Truthy(field: Option<string>)
  {
    field.Some? && field.value != ""
  }

  /** One handler step: the response it chose and the registry afterwards. */
  datatype Step<O> = Step(outcome: O, registry: set<string>)

  datatype LoginOutcome = InvalidCredentials | LoggedIn(profile: User, tokens: TokenPair)
  {
    function Status(): int { if LoggedIn? then 200 else 401 }
  }

  datatype RefreshOutcome =
    | MissingToken        // 401: no refresh token in the body
    | UnknownToken        // 403: not in the registry (never issued, used, or revoked)
    | VerificationFailed  // 403: bad signature or expired; the entry is dropped
    | WrongTokenType      // 403: verifies, but its `type` claim is not "refresh"
    | Rotated(tokens: TokenPair)
  {
    function Status(): int
    {
      match this
      case MissingToken => 401
      case Rotated(_) => 200
      case _ => 403
    }
  }

  /** Logout has one answer: 200. */
  datatype LogoutOutcome = LoggedOut
  {
    function Status(): int { 200 }
  }

  /** A verification outcome that `/auth/refresh` accepts. */
  predicate UsableForRefresh(v: Verified)
  {
    v.Valid? && v.tokenType == REFRESH_TYPE
  }

  /**
   * `/auth/login`. `passwordMatches` is what the password-hash comparison
   * answers; it is consulted only when the username is the fixture's.
   * `issue` stands for `generateTokens` at the time of the call.
   */
  function Login(registry: set<string>, username: Option<string>, passwordMatches: bool,
                 issue: UserId -> TokenPair): (s: Step<LoginOutcome>)
    ensures s.outcome.LoggedIn? <==> username == Some(FIXTURE_USER.username) && passwordMatches
    ensures s.outcome.LoggedIn? ==>
              && s.outcome.profile == FIXTURE_USER
              && s.outcome.tokens == issue(FIXTURE_USER.id)
              && s.registry == registry + {s.outcome.tokens.refreshToken}
    ensures !s.outcome.LoggedIn? ==> s.outcome.Status() == 401 && s.registry == registry
  {
    if username != Some(FIXTURE_USER.username) then Step(InvalidCredentials, registry)
    else if !passwordMatches then Step(InvalidCredentials, registry)
    else
      var pair := issue(FIXTURE_USER.id);
      Step(LoggedIn(FIXTURE_USER, pair), registry + {pair.refreshToken})
  }

  /**
   * `/auth/refresh`. `verify` stands for verifying with the secret at the time
   * of the call, `issue` for `generateTokens`.
   */
  function Refresh(registry: set<string>, body: Option<string>, verify: string -> Verified,
                   issue: UserId -> TokenPair): (s: Step<RefreshOutcome>)
    // 401 exactly when no token was sent
    ensures s.outcome.Status() == 401 <==> !Truthy(body)
    // a token is usable iff it is registered, verifies, and is a refresh token
    ensures s.outcome.Rotated? <==>
              Truthy(body) && body.value in registry && UsableForRefresh(verify(body.value))
    // rotation retires the presented token and records the new refresh token for the same user
    ensures s.outcome.Rotated? ==>
              && s.outcome.tokens == issue(verify(body.value).userId)
              && s.registry == (registry - {body.value}) + {s.outcome.tokens.refreshToken}
    // a token that is not registered is refused at the registry check
    ensures s.outcome.UnknownToken? <==> Truthy(body) && body.value !in registry
    // a registered token that fails verification is refused
    ensures s.outcome.VerificationFailed? <==>
              Truthy(body) && body.value in registry && verify(body.value).Invalid?
    // a registered token that verifies with another type is refused
    ensures s.outcome.WrongTokenType? <==>
              Truthy(body) && body.value in registry && verify(body.value).Valid? &&
              verify(body.value).tokenType != REFRESH_TYPE
    // a failed verification drops the presented entry and nothing else
    ensures s.outcome.VerificationFailed? ==> s.registry == registry - {body.value}
    // every other rejection leaves the registry as it was
    ensures !s.outcome.Rotated? && !s.outcome.VerificationFailed? ==> s.registry == registry
    // a rejection never adds a token
    ensures !s.outcome.Rotated? ==> s.registry <= registry
  {
    if !Truthy(body) then Step(MissingToken, registry)
    else
      var token := body.value;
      if token !in registry then Step(UnknownToken, registry)
      else
        match verify(token)
        case Invalid => Step(VerificationFailed, registry - {token})
        case Valid(userId, tokenType) =>
          if tokenType != REFRESH_TYPE then Step(WrongTokenType, registry)
          else
            var pair := issue(userId);
            Step(Rotated(pair), (registry - {token}) + {pair.refreshToken})
  }

  /** `/auth/logout`: best-effort revocation, always answered 200. */
  function Logout(registry: set<string>, body: Option<string>): (s: Step<LogoutOutcome>)
    ensures s.outcome.Status() == 200
    ensures Truthy(body) ==> body.value !in s.registry
    ensures s.registry <= registry
    ensures forall t :: t in registry && t !in s.registry ==> Truthy(body) && t == body.value
  {
    if Truthy(body) then Step(LoggedOut, registry - {body.value}) else Step(LoggedOut, registry)
  }

  /** Logging out twice with the same body has the effect of logging out once. */
  lemma LogoutIdempotent(registry: set<string>, body: Option<string>)
    ensures Logout(Logout(registry, body).registry, body) == Logout(registry, body)
  {
  }

  /** Logging out a token that is not registered changes nothing. */
  lemma LogoutOfAbsentTokenIsNoop(registry: set<string>, body: Option<string>)
    requires !Truthy(body) || body.value !in registry
    ensures Logout(registry, body).registry == registry
  {
  }

  /**
   * Single use: once a refresh token has been rotated, presenting it again is
   * refused at the registry check, whatever verification would now say. This
   * needs the new refresh token to differ from the old one: two tokens issued
   * for the same user within the same second carry the same claims and can be
   * the same string.
   */
  lemma RefreshIsSingleUse(registry: set<string>, token: string,
                           verify: string -> Verified, issue: UserId -> TokenPair,
                           verify': string -> Verified, issue': UserId -> TokenPair)
    requires Refresh(registry, Some(token), verify, issue).outcome.Rotated?
    requires Refresh(registry, Some(token), verify, issue).outcome.tokens.refreshToken != token
    ensures var after := Refresh(registry, Some(token), verify, issue).registry;
            Refresh(after, Some(token), verify', issue') == Step(UnknownToken, after)
  {
  }

  /**
   * Without that hypothesis single use fails: when the re-issued refresh token
   * equals the presented one, it stays registered and a replay succeeds again.
   */
  lemma IdenticalReissueCanBeReplayed(registry: set<string>, token: string,
                                      verify: string -> Verified, issue: UserId -> TokenPair)
    requires Refresh(registry, Some(token), verify, issue).outcome.Rotated?
    requires Refresh(registry, Some(token), verify, issue).outcome.tokens.refreshToken == token
    ensures var after := Refresh(registry, Some(token), verify, issue).registry;
            after == registry && Refresh(after, Some(token), verify, issue).outcome.Rotated?
  {
  }

  /** A successful login records its refresh token: presenting it to `/auth/refresh` rotates it. */
  lemma LoginRecordsRefreshToken(registry: set<string>, now: int, verify: string -> Verified,
                                 issue: UserId -> TokenPair, issue': UserId -> TokenPair)
    requires Signs(issue(FIXTURE_USER.id), GenerateClaims(FIXTURE_USER.id, now), verify)
    requires issue(FIXTURE_USER.id).refreshToken != ""
    ensures var login := Login(registry, Some(FIXTURE_USER.username), true, issue);
            Refresh(login.registry, Some(login.outcome.tokens.refreshToken), verify, issue').outcome
              == Rotated(issue'(FIXTURE_USER.id))
  {
  }

  /**
   * An access token presented to `/auth/refresh` never rotates: it is refused
   * with 403 (or 401 if empty), and the registry is left as it was.
   */
  lemma AccessTokenRefusedByRefresh(registry: set<string>, token: string, userId: UserId,
                                    verify: string -> Verified, issue: UserId -> TokenPair)
    requires verify(token) == Valid(userId, ACCESS_TYPE)
    ensures var s := Refresh(registry, Some(token), verify, issue);
            && s.registry == registry
            && s.outcome.Status() == (if token == "" then 401 else 403)
  {
  }
}
