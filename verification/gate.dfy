/**
 * The access-token gate `authenticateToken` (server.js:48-67): take the second
 * space-separated field of the `Authorization` header, verify it, and admit
 * the request only for a valid token whose `type` claim is "access".
 */
module Gate {

  import opened Wrappers
  import opened Tokens

  /** JavaScript's `s.split(' ')`: the fields between single spaces, empty fields included. */
  function SplitOnSpace(s: string): (fields: seq<string>)
    ensures ' ' !in s ==> fields == [s]
    ensures ' ' in s ==> |fields| >= 2
    ensures forall i :: 0 <= i < |fields| ==> ' ' !in fields[i]
  {
    if s == [] then [""]
    else
      var rest := SplitOnSpace(s[1..]);
      assert s == [s[0]] + s[1..];
      if s[0] == ' ' then [""] + rest
      else [[s[0]] + rest[0]] + rest[1..]
  }

  /** `fields.join(' ')`, the inverse of `SplitOnSpace`. */
  function JoinWithSpace(fields: seq<string>): string
    requires |fields| >= 1
  {
    if |fields| == 1 then fields[0] else fields[0] + " " + JoinWithSpace(fields[1..])
  }

  lemma {:induction false} JoinPrefixFirst(w: string, fields: seq<string>)
    requires |fields| >= 1
    ensures JoinWithSpace([w + fields[0]] + fields[1..]) == w + JoinWithSpace(fields)
  {
    var joined := [w + fields[0]] + fields[1..];
    assert joined[1..] == fields[1..];
  }

  /** Joining the fields of a split gives back the string. */
  lemma {:induction false} SplitThenJoin(s: string)
    ensures JoinWithSpace(SplitOnSpace(s)) == s
  {
    if s != [] {
      var rest := SplitOnSpace(s[1..]);
      SplitThenJoin(s[1..]);
      if s[0] == ' ' {
        assert ([""] + rest)[1..] == rest;
      } else {
        JoinPrefixFirst([s[0]], rest);
      }
      assert s == [s[0]] + s[1..];
    }
  }

  /** A word without spaces becomes a prefix of the first field. */
  lemma {:induction false} SplitAfterWord(w: string, u: string)
    requires ' ' !in w
    ensures SplitOnSpace(w + u) == [w + SplitOnSpace(u)[0]] + SplitOnSpace(u)[1..]
  {
    if w == [] {
      var fields := SplitOnSpace(u);
      assert w + u == u && w + fields[0] == fields[0];
      assert fields == [fields[0]] + fields[1..];
    } else {
      var v := w + u;
      assert v[0] == w[0] && v[1..] == w[1..] + u;
      var inner := SplitOnSpace(v[1..]);
      assert SplitOnSpace(v) == [[w[0]] + inner[0]] + inner[1..];
      SplitAfterWord(w[1..], u);
      assert [w[0]] + (w[1..] + SplitOnSpace(u)[0]) == w + SplitOnSpace(u)[0];
    }
  }

  lemma SplitAfterSpace(u: string)
    ensures SplitOnSpace(" " + u) == [""] + SplitOnSpace(u)
  {
    assert (" " + u)[1..] == u;
  }

  /** Splitting the join of space-free fields gives back the fields. */
  lemma {:induction false} JoinThenSplit(fields: seq<string>)
    requires |fields| >= 1
    requires forall i :: 0 <= i < |fields| ==> ' ' !in fields[i]
    ensures SplitOnSpace(JoinWithSpace(fields)) == fields
  {
    if |fields| == 1 {
      SplitAfterWord(fields[0], "");
      assert fields[0] + "" == fields[0];
    } else {
      var tail := JoinWithSpace(fields[1..]);
      JoinThenSplit(fields[1..]);
      SplitAfterSpace(tail);
      SplitAfterWord(fields[0], " " + tail);
      assert fields[0] + " " + tail == fields[0] + (" " + tail);
      assert fields[0] + "" == fields[0];
      assert fields == [fields[0]] + fields[1..];
    }
  }

  /**
   * `authHeader && authHeader.split(' ')[1]`, kept only when truthy: an absent
   * or empty header, a header with no second field, and an empty second field
   * all give no token.
   */
  function BearerToken(header: Option<string>): (token: Option<string>)
    ensures token.Some? ==> token.value != "" && ' ' !in token.value
    ensures header.None? || ' ' !in header.value ==> token.None?
  {
    if header.None? || header.value == "" then None
    else
      var fields := SplitOnSpace(header.value);
      if |fields| < 2 || fields[1] == "" then None else Some(fields[1])
  }

  /** `header` is a scheme word, one space, `token`, then nothing or more space-separated fields. */
  ghost predicate BearerShape(header: string, scheme: string, token: string, rest: string)
  {
    && ' ' !in scheme
    && ' ' !in token
    && (rest == [] || rest[0] == ' ')
    && header == scheme + " " + token + rest
  }

  /** A space-free word followed by nothing or by a space is exactly the first field. */
  lemma FirstFieldOfWord(token: string, rest: string)
    requires ' ' !in token
    requires rest == [] || rest[0] == ' '
    ensures SplitOnSpace(token + rest)[0] == token
  {
    var restFields := SplitOnSpace(rest);
    assert restFields[0] == "" by {
      if rest != [] {
        assert rest == " " + rest[1..];
        SplitAfterSpace(rest[1..]);
      }
    }
    SplitAfterWord(token, rest);
    assert token + restFields[0] == token;
  }

  /** The second field of a header of bearer shape is its token, whatever the scheme word. */
  lemma SecondFieldOfShape(header: string, scheme: string, token: string, rest: string)
    requires BearerShape(header, scheme, token, rest)
    ensures BearerToken(Some(header)) == if token == "" then None else Some(token)
  {
    SecondField(header, scheme, token, rest);
  }

  lemma SecondField(header: string, scheme: string, token: string, rest: string)
    requires BearerShape(header, scheme, token, rest)
    ensures |SplitOnSpace(header)| >= 2 && SplitOnSpace(header)[1] == token
  {
    var tail := token + rest;
    assert header == scheme + (" " + tail);
    var tailFields := SplitOnSpace(tail);
    FirstFieldOfWord(token, rest);
    var spaced := SplitOnSpace(" " + tail);
    SplitAfterSpace(tail);
    assert spaced[1..] == tailFields;
    SplitAfterWord(scheme, " " + tail);
    assert SplitOnSpace(header) == [scheme + spaced[0]] + tailFields;
  }

  /** Both directions: the gate extracts `token` exactly when the header has bearer shape around it. */
  lemma BearerTokenCharacterized(header: string, token: string)
    ensures BearerToken(Some(header)) == Some(token) <==>
              token != "" && exists scheme, rest :: BearerShape(header, scheme, token, rest)
  {
    if BearerToken(Some(header)) == Some(token) {
      var fields := SplitOnSpace(header);
      SplitThenJoin(header);
      var rest := if |fields| == 2 then "" else " " + JoinWithSpace(fields[2..]);
      assert fields[1..][1..] == fields[2..];
      assert JoinWithSpace(fields[1..]) == token + rest;
      assert header == fields[0] + " " + token + rest;
      assert BearerShape(header, fields[0], token, rest);
    }
    if token != "" && exists scheme, rest :: BearerShape(header, scheme, token, rest) {
      var scheme, rest :| BearerShape(header, scheme, token, rest);
      SecondFieldOfShape(header, scheme, token, rest);
    }
  }

  /** Why the gate turned a request away, or the `userId` it binds to the request. */
  datatype GateOutcome = NoToken | InvalidToken | WrongTokenType | Admitted(userId: UserId)
  {
    /** Every rejection is answered 401; an admitted request goes on to the handler. */
    predicate IsUnauthorized() { !Admitted? }
  }

  /**
   * `authenticateToken`. It reads nothing but its arguments, so it neither
   * consults nor changes the refresh-token registry.
   */
  function Authenticate(header: Option<string>, verify: string -> Verified): (r: GateOutcome)
    // 401 exactly when there is no token, it does not verify, or its type is not "access"
    ensures r.IsUnauthorized() <==>
              || BearerToken(header).None?
              || verify(BearerToken(header).value).Invalid?
              || verify(BearerToken(header).value).tokenType != ACCESS_TYPE
    ensures r.NoToken? <==> BearerToken(header).None?
    ensures header.None? || ' ' !in header.value ==> r == NoToken
    ensures r.Admitted? ==>
              BearerToken(header).Some? && verify(BearerToken(header).value) == Valid(r.userId, ACCESS_TYPE)
    ensures (BearerToken(header).Some? && verify(BearerToken(header).value).Valid? &&
             verify(BearerToken(header).value).tokenType == ACCESS_TYPE) ==> r.Admitted?
  {
    match BearerToken(header)
    case None => NoToken
    case Some(token) =>
      match verify(token)
      case Invalid => InvalidToken
      case Valid(userId, tokenType) =>
        if tokenType != ACCESS_TYPE then WrongTokenType else Admitted(userId)
  }

  /** The leading scheme word is never checked: any space-free word in its place gives the same outcome. */
  lemma SchemeWordIgnored(scheme1: string, scheme2: string, token: string, rest: string, verify: string -> Verified)
    requires ' ' !in scheme1 && ' ' !in scheme2 && ' ' !in token
    requires rest == [] || rest[0] == ' '
    ensures Authenticate(Some(scheme1 + " " + token + rest), verify)
         == Authenticate(Some(scheme2 + " " + token + rest), verify)
  {
    SecondFieldOfShape(scheme1 + " " + token + rest, scheme1, token, rest);
    SecondFieldOfShape(scheme2 + " " + token + rest, scheme2, token, rest);
  }

  /** A freshly issued access token sent as `<scheme> <token>` is admitted and binds its `userId`. */
  lemma IssuedAccessTokenAdmitted(pair: TokenPair, userId: UserId, now: int, verify: string -> Verified, scheme: string)
    requires Signs(pair, GenerateClaims(userId, now), verify)
    requires ' ' !in scheme && ' ' !in pair.accessToken && pair.accessToken != ""
    ensures Authenticate(Some(scheme + " " + pair.accessToken), verify) == Admitted(userId)
  {
    var header := scheme + " " + pair.accessToken;
    assert header == scheme + " " + pair.accessToken + "";
    SecondFieldOfShape(header, scheme, pair.accessToken, "");
  }

  /** A refresh token presented to the gate is turned away as the wrong type, even though it verifies. */
  lemma RefreshTokenRejectedByGate(pair: TokenPair, userId: UserId, now: int, verify: string -> Verified, scheme: string)
    requires Signs(pair, GenerateClaims(userId, now), verify)
    requires ' ' !in scheme && ' ' !in pair.refreshToken && pair.refreshToken != ""
    ensures Authenticate(Some(scheme + " " + pair.refreshToken), verify) == WrongTokenType
  {
    var header := scheme + " " + pair.refreshToken;
    assert header == scheme + " " + pair.refreshToken + "";
    SecondFieldOfShape(header, scheme, pair.refreshToken, "");
  }
}
