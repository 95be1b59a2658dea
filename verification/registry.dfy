/**
 * The refresh-token registry as server.js keeps it: one mutable set of
 * refresh-token strings (server.js:28), changed in place by the login,
 * refresh and logout handlers. Each method does what its handler does and is
 * proved to take the step `Handlers` specifies.
 */
module Registry {

  import opened Wrappers
  import opened Tokens
  import Handlers

  class TokenRegistry {
    /** The refresh tokens issued and not yet used, revoked or found invalid. */
    var tokens: set<string>

    /** The registry is empty when the process starts. */
    constructor ()
      ensures tokens == {}
    {
      tokens := {};
    }

    /** `/auth/login`: on valid credentials issue a pair and record its refresh token. */
    method Login(username: Option<string>, passwordMatches: bool, issue: UserId -> TokenPair)
      returns (r: Handlers.LoginOutcome)
      modifies this
      ensures Handlers.Step(r, tokens) == Handlers.Login(old(tokens), username, passwordMatches, issue)
    {
      if username != Some(Handlers.FIXTURE_USER.username) {
        return Handlers.InvalidCredentials;
      }
      if !passwordMatches {
        return Handlers.InvalidCredentials;
      }
      var pair := issue(Handlers.FIXTURE_USER.id);
      tokens := tokens + {pair.refreshToken};
      r := Handlers.LoggedIn(Handlers.FIXTURE_USER, pair);
    }

    /** `/auth/refresh`: check membership, verify, then retire the old token and record the new one. */
    method Refresh(body: Option<string>, verify: string -> Verified, issue: UserId -> TokenPair)
      returns (r: Handlers.RefreshOutcome)
      modifies this
      ensures Handlers.Step(r, tokens) == Handlers.Refresh(old(tokens), body, verify, issue)
    {
      if !Handlers.Truthy(body) {
        return Handlers.MissingToken;
      }
      var token := body.value;
      if token !in tokens {
        return Handlers.UnknownToken;
      }
      match verify(token)
      case Invalid =>
        tokens := tokens - {token};
        r := Handlers.VerificationFailed;
      case Valid(userId, tokenType) =>
        if tokenType != REFRESH_TYPE {
          return Handlers.WrongTokenType;
        }
        tokens := tokens - {token};
        var pair := issue(userId);
        tokens := tokens + {pair.refreshToken};
        r := Handlers.Rotated(pair);
    }

    /** `/auth/logout`: remove the token if one was sent; always succeed. */
    method Logout(body: Option<string>) returns (r: Handlers.LogoutOutcome)
      modifies this
      ensures Handlers.Step(r, tokens) == Handlers.Logout(old(tokens), body)
    {
      if Handlers.Truthy(body) {
        tokens := tokens - {body.value};
      }
      r := Handlers.LoggedOut;
    }
  }

  /**
   * A session against a freshly started server: log in, log in with a wrong
   * password, refresh with the issued refresh token, replay that same token,
   * then log out with it. `issueAtLogin` and `issueAtRefresh` are
   * `generateTokens` at the two moments it is called; they must produce
   * different refresh tokens for the replay to be refused.
   */
  method Session(verify: string -> Verified, loginTime: int,
                 issueAtLogin: UserId -> TokenPair, issueAtRefresh: UserId -> TokenPair)
    returns (statuses: seq<int>, remaining: set<string>)
    requires Signs(issueAtLogin(Handlers.FIXTURE_USER.id), GenerateClaims(Handlers.FIXTURE_USER.id, loginTime), verify)
    requires issueAtLogin(Handlers.FIXTURE_USER.id).refreshToken != ""
    requires issueAtRefresh(Handlers.FIXTURE_USER.id).refreshToken != issueAtLogin(Handlers.FIXTURE_USER.id).refreshToken
    ensures statuses == [200, 401, 200, 403, 200]
    ensures remaining == {issueAtRefresh(Handlers.FIXTURE_USER.id).refreshToken}
  {
    var registry := new TokenRegistry();
    var username := Some(Handlers.FIXTURE_USER.username);
    var login := registry.Login(username, true, issueAtLogin);
    var wrongPassword := registry.Login(username, false, issueAtLogin);
    var first := login.tokens.refreshToken;
    var refreshed := registry.Refresh(Some(first), verify, issueAtRefresh);
    var replayed := registry.Refresh(Some(first), verify, issueAtRefresh);
    var logout := registry.Logout(Some(first));
    statuses := [login.Status(), wrongPassword.Status(), refreshed.Status(), replayed.Status(), logout.Status()];
    remaining := registry.tokens;
  }
}
