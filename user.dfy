/**
  * `sdpremote/user.py`: the login taken from an HTTP Basic `Authorization`
  * header (loosely after section 2 of RFC 7617), and the check of the
  * `{user}` path segment against it.
  */
module User {
  import opened Outcomes
  import opened Text

  /** `b64decode(value).decode()`: the decoded text, or `None` when the
      payload is not valid base64 (section 4 of RFC 4648). */
  type Base64Decoder = string -> Option<string>

  /** `_user_header`: every rejection is a 401. */
  function UserHeader(authorization: Option<string>, decode: Base64Decoder): (r: Result<string>)
    ensures r.Err? ==> r.error == Unauthorized
    ensures r.Ok? ==> r.value != "" && ':' !in r.value
  {
    if authorization.None? || authorization.value == "" then Err(Unauthorized)
    else
      var parts := Words(authorization.value);
      if |parts| != 2 || parts[0] != "Basic" then Err(Unauthorized)
      else
        var decoded := decode(parts[1]);
        if decoded.None? then Err(Unauthorized)
        else
          var fields := Split(decoded.value, ':');
          if |fields| != 2 || fields[0] == "" then Err(Unauthorized)
          else Ok(fields[0])
  }

  /** `user`: a `{user}` path segment other than the login is a 403;
      otherwise the login is the acting user. */
  function UserCheck(pathUser: Option<string>, login: string): (r: Result<string>)
    ensures r.Err? <==> pathUser.Some? && pathUser.value != login
    ensures r.Err? ==> r.error == Forbidden
    ensures r.Ok? ==> r.value == login
  {
    if pathUser.Some? && pathUser.value != login then Err(Forbidden) else Ok(login)
  }

  /** The dependency chain of a route: the header is read first, so a bad
      header answers 401 before the path is compared. */
  function AuthenticatedUser(pathUser: Option<string>, authorization: Option<string>, decode: Base64Decoder)
    : (r: Result<string>)
    ensures UserHeader(authorization, decode).Err? ==> r == Err(Unauthorized)
    ensures UserHeader(authorization, decode).Ok? ==> r == UserCheck(pathUser, UserHeader(authorization, decode).value)
  {
    var login := UserHeader(authorization, decode);
    if login.Err? then Err(login.error) else UserCheck(pathUser, login.value)
  }

  /** The header `Basic <token>` whose token decodes to `user:password`. */
  function BasicHeader(token: string): string
  {
    "Basic " + token
  }

  lemma BasicHeaderWords(token: string)
    requires token != "" && NoSpace(token)
    ensures Words(BasicHeader(token)) == ["Basic", token]
  {
    WordsOfJoin(["Basic", token]);
    assert Join(["Basic", token], " ") == BasicHeader(token);
  }

  /** Credentials without a colon in either part are accepted and give
      back the user name; the password may be empty. */
  lemma BasicRoundTrip(token: string, user: string, password: string, decode: Base64Decoder)
    requires token != "" && NoSpace(token) && decode(token) == Some(user + ":" + password)
    requires user != "" && ':' !in user && ':' !in password
    ensures UserHeader(Some(BasicHeader(token)), decode) == Ok(user)
  {
    BasicHeaderWords(token);
    SplitAfterSeparator(user, password, ':');
    SplitNoSeparator(password, ':');
  }

  /** A password that contains `:` is rejected, since the decoded text no
      longer splits into exactly two fields. */
  lemma ColonInPasswordRejected(token: string, user: string, password: string, decode: Base64Decoder)
    requires token != "" && NoSpace(token) && decode(token) == Some(user + ":" + password)
    requires ':' in password
    ensures UserHeader(Some(BasicHeader(token)), decode) == Err(Unauthorized)
  {
    BasicHeaderWords(token);
    CountAppend(user + ":", password, ':');
    CountAppend(user, ":", ':');
    CountZero(password, ':');
    assert Count(":", ':') == 1;
  }

  /** A token that is not valid base64, such as `Basic blabla`, is rejected. */
  lemma UndecodableRejected(token: string, decode: Base64Decoder)
    requires token != "" && NoSpace(token) && decode(token).None?
    ensures UserHeader(Some(BasicHeader(token)), decode) == Err(Unauthorized)
  {
    BasicHeaderWords(token);
  }

  /** An empty user name is rejected. */
  lemma EmptyUserRejected(token: string, password: string, decode: Base64Decoder)
    requires token != "" && NoSpace(token) && decode(token) == Some(":" + password)
    ensures UserHeader(Some(BasicHeader(token)), decode) == Err(Unauthorized)
  {
    BasicHeaderWords(token);
    assert ":" + password == "" + [':'] + password;
    SplitAfterSeparator("", password, ':');
  }

  /** Any scheme other than the exact word `Basic` is rejected, `basic`
      and `Digest` included. */
  lemma OtherSchemeRejected(scheme: string, token: string, decode: Base64Decoder)
    requires scheme != "" && NoSpace(scheme) && token != "" && NoSpace(token) && scheme != "Basic"
    ensures UserHeader(Some(scheme + " " + token), decode) == Err(Unauthorized)
  {
    WordsOfJoin([scheme, token]);
    assert Join([scheme, token], " ") == scheme + " " + token;
  }

  /** A header that is not exactly two words is rejected, whatever they are. */
  lemma ThreeWordsRejected(a: string, b: string, c: string, decode: Base64Decoder)
    requires a != "" && NoSpace(a) && b != "" && NoSpace(b) && c != "" && NoSpace(c)
    ensures UserHeader(Some(a + " " + b + " " + c), decode) == Err(Unauthorized)
  {
    WordsOfJoin([a, b, c]);
    assert [a, b, c][1..] == [b, c];
    assert [b, c][1..] == [c];
    assert Join([b, c], " ") == b + " " + c;
    assert Join([a, b, c], " ") == a + " " + (b + " " + c);
    assert a + " " + (b + " " + c) == a + " " + b + " " + c;
  }

  /** The login matched against its own path segment, or with no path
      segment, is accepted; any other segment is a 403. */
  lemma PathUserCases(token: string, user: string, password: string, other: string, decode: Base64Decoder)
    requires token != "" && NoSpace(token) && decode(token) == Some(user + ":" + password)
    requires user != "" && ':' !in user && ':' !in password && other != user
    ensures AuthenticatedUser(None, Some(BasicHeader(token)), decode) == Ok(user)
    ensures AuthenticatedUser(Some(user), Some(BasicHeader(token)), decode) == Ok(user)
    ensures AuthenticatedUser(Some(other), Some(BasicHeader(token)), decode) == Err(Forbidden)
  {
    BasicRoundTrip(token, user, password, decode);
  }
}
