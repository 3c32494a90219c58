/** internal/middleware/auth_middleware.go: the bearer-token gate.
    utils.ValidateToken is an oracle from (token, secret) to claims or an error. */
module AuthMiddleware {
  import opened Results
  import opened Strings
  import opened Http

  const AuthorizationHeader := "Authorization"
  const ErrHeaderMissing := "Authorization header missing"
  const ErrBadFormat := "Invalid authorization format. Use Bearer <token>"
  const ErrBadToken := "Invalid or expired token"

  /** The identity fields of a verified token (JWTClaims in internal/utils/jwt.go). */
  datatype Claims = Claims(userId: string, organizationId: string, role: string)

  type Validator = (string, string) -> Result<Claims>

  /** What the middleware decides: answer 401 and abort, or go on with the claims. */
  datatype AuthOutcome = Reject(response: Response) | Accept(claims: Claims)

  /** The token of a header that passes the format check (lines 20-27):
      strings.Split on single spaces must give exactly two parts, the first
      exactly "Bearer". */
  function BearerToken(header: string): (t: Option<string>)
    ensures t.Some? ==> header == "Bearer " + t.value && ' ' !in t.value
  {
    var parts := Split(header, ' ');
    if |parts| != 2 || parts[0] != "Bearer" then None
    else
      JoinSplit(header, ' ');
      SplitSeparatorFree(header, ' ');
      assert Join(parts, ' ') == parts[0] + [' '] + parts[1];
      Some(parts[1])
  }

  /** The format check accepts exactly the headers "Bearer " followed by a
      token without spaces, and hands on that token. */
  lemma BearerTokenExact(header: string, token: string)
    ensures BearerToken(header) == Some(token) <==> header == "Bearer " + token && ' ' !in token
  {
    if header == "Bearer " + token && ' ' !in token {
      var parts := ["Bearer", token];
      assert SeparatorFree(parts, ' ');
      SplitJoin(parts, ' ');
      assert Join(parts, ' ') == "Bearer" + [' '] + token;
      assert "Bearer" + [' '] + token == "Bearer " + token;
    }
  }

  /** Two spaces after "Bearer" give three parts, so the header is rejected;
      a bare "Bearer " passes with an empty token; the scheme is case-sensitive. */
  lemma FormatEdgeCases(token: string)
    ensures BearerToken("Bearer  " + token) == None
    ensures BearerToken("Bearer ") == Some("")
    ensures BearerToken("bearer " + token) == None
  {
    forall t | true
      ensures BearerToken("Bearer  " + token) != Some(t)
    {
      BearerTokenExact("Bearer  " + token, t);
      if "Bearer  " + token == "Bearer " + t {
        assert ("Bearer  " + token)[7] == ("Bearer " + t)[7];
        assert t[0] in t;
      }
    }
    BearerTokenExact("Bearer ", "");
    assert "Bearer " + "" == "Bearer ";
    forall t | true
      ensures BearerToken("bearer " + token) != Some(t)
    {
      BearerTokenExact("bearer " + token, t);
      assert ("bearer " + token)[0] != ("Bearer " + t)[0];
    }
  }

  /** The decision chain of lines 13-39. */
  function Authenticate(header: string, secret: string, validate: Validator): (r: AuthOutcome)
    ensures r.Reject? ==> r.response.status == StatusUnauthorized
    ensures header == "" ==> r == Reject(Response(StatusUnauthorized, ErrorBody(ErrHeaderMissing)))
    ensures header != "" && BearerToken(header).None? ==>
      r == Reject(Response(StatusUnauthorized, ErrorBody(ErrBadFormat)))
    ensures r.Accept? ==> exists token :: BearerToken(header) == Some(token) && validate(token, secret) == Ok(r.claims)
    ensures forall token :: BearerToken(header) == Some(token) && validate(token, secret).Err? ==>
      r == Reject(Response(StatusUnauthorized, ErrorBody(ErrBadToken)))
  {
    if header == "" then Reject(Response(StatusUnauthorized, ErrorBody(ErrHeaderMissing)))
    else match BearerToken(header)
      case None => Reject(Response(StatusUnauthorized, ErrorBody(ErrBadFormat)))
      case Some(token) =>
        match validate(token, secret)
        case Err(_) => Reject(Response(StatusUnauthorized, ErrorBody(ErrBadToken)))
        case Ok(claims) => Accept(claims)
  }

  /** The validator is consulted only with the header's token and the secret:
      validators that agree there give the same outcome, and when the header
      is missing or malformed the validator plays no part at all. */
  lemma ValidatorSeesOnlyToken(header: string, secret: string, v1: Validator, v2: Validator)
    requires forall token :: BearerToken(header) == Some(token) ==> v1(token, secret) == v2(token, secret)
    ensures Authenticate(header, secret, v1) == Authenticate(header, secret, v2)
  {
  }

  /** A request with "Bearer <token>" and a token the validator accepts is
      let through with exactly the validator's claims. */
  lemma ValidTokenAccepted(token: string, secret: string, validate: Validator, claims: Claims)
    requires ' ' !in token && validate(token, secret) == Ok(claims)
    ensures Authenticate("Bearer " + token, secret, validate) == Accept(claims)
  {
    BearerTokenExact("Bearer " + token, token);
  }

  /** AuthMiddleware's handler on a gin context: a rejection writes the 401
      and aborts; an acceptance binds userID, orgID and role and continues. */
  method Handle(c: Context, secret: string, validate: Validator)
    requires c.Pending()
    modifies c
    ensures c.aborted != c.proceeded
    ensures c.aborted ==> c.response.Some? && c.response.value.status == StatusUnauthorized
    ensures match Authenticate(GetHeader(c.request, AuthorizationHeader), secret, validate)
      case Reject(resp) =>
        c.aborted && c.response == Some(resp) && c.keys == old(c.keys)
      case Accept(claims) =>
        && c.proceeded && c.response == None
        && c.keys == old(c.keys)["userID" := claims.userId]["orgID" := claims.organizationId]["role" := claims.role]
  {
    var outcome := Authenticate(GetHeader(c.request, AuthorizationHeader), secret, validate);
    match outcome
    case Reject(resp) =>
      c.response := Some(resp);
      c.aborted := true;
    case Accept(claims) =>
      c.keys := c.keys["userID" := claims.userId];
      c.keys := c.keys["orgID" := claims.organizationId];
      c.keys := c.keys["role" := claims.role];
      c.proceeded := true;
  }
}
