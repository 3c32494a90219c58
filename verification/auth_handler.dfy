/** internal/handler/auth_handler.go: Login. utils.GenerateToken is an
    oracle from (user, org, role, secret) to a token or an error. */
module AuthHandler {
  import opened Results
  import opened Http

  const ErrGenerate := "Gagal generate token"
  const LoginMessage := "Login berhasil! Gunakan token ini di Header 'Authorization: Bearer <token>'"

  /** loginRequest (lines 19-23): all three members are required. */
  datatype LoginRequest = LoginRequest(userId: string, orgId: string, role: string)

  type TokenGenerator = (string, string, string, string) -> Result<string>

  /** The struct fields left empty, in declaration order. */
  function MissingFields(fields: map<string, string>): (missing: seq<string>)
    ensures |missing| <= 3
    ensures missing == [] <==>
      Member(fields, "user_id") != "" && Member(fields, "org_id") != "" && Member(fields, "role") != ""
  {
    (if Member(fields, "user_id") == "" then ["UserID"] else [])
    + (if Member(fields, "org_id") == "" then ["OrgID"] else [])
    + (if Member(fields, "role") == "" then ["Role"] else [])
  }

  /** c.ShouldBindJSON into loginRequest (line 27). */
  function BindLogin(body: JsonBody): (r: Result<LoginRequest>)
    ensures r.Ok? <==>
      body.Object? && Member(body.fields, "user_id") != "" && Member(body.fields, "org_id") != ""
      && Member(body.fields, "role") != ""
    ensures r.Ok? ==> r.value == LoginRequest(body.fields["user_id"], body.fields["org_id"], body.fields["role"])
    ensures body.Undecodable? ==> r == Err(body.err)
  {
    match body
    case Undecodable(e) => Err(e)
    case Object(fields) =>
      var missing := MissingFields(fields);
      if missing != [] then Err(RequiredMessages("loginRequest", missing))
      else Ok(LoginRequest(fields["user_id"], fields["org_id"], fields["role"]))
  }

  /** Login (lines 25-42): 400 on a bad body, 500 when no token can be made,
      200 with the token otherwise. `secret` is the signing key the handler
      reads from its configuration. */
  function Login(req: Request, secret: string, generate: TokenGenerator): (r: Response)
    ensures r.status in {StatusBadRequest, StatusInternalServerError, StatusOK}
    ensures r.status == StatusBadRequest <==> BindLogin(req.body).Err?
    ensures r.status == StatusBadRequest ==> r.body == ErrorBody(BindLogin(req.body).error)
    ensures BindLogin(req.body).Ok? ==>
      var login := BindLogin(req.body).value;
      match generate(login.userId, login.orgId, login.role, secret)
      case Err(_) => r == Response(StatusInternalServerError, ErrorBody(ErrGenerate))
      case Ok(token) => r == Response(StatusOK, TokenBody(token, LoginMessage))
  {
    match BindLogin(req.body)
    case Err(e) => Response(StatusBadRequest, ErrorBody(e))
    case Ok(login) =>
      match generate(login.userId, login.orgId, login.role, secret)
      case Err(_) => Response(StatusInternalServerError, ErrorBody(ErrGenerate))
      case Ok(token) => Response(StatusOK, TokenBody(token, LoginMessage))
  }

  /** No token is generated for a rejected body, and the generator is asked
      only about the body's own user, org and role with the secret. */
  lemma LoginConsultsOnlyRequest(req: Request, secret: string, g1: TokenGenerator, g2: TokenGenerator)
    requires BindLogin(req.body).Ok? ==>
      var l := BindLogin(req.body).value;
      g1(l.userId, l.orgId, l.role, secret) == g2(l.userId, l.orgId, l.role, secret)
    ensures Login(req, secret, g1) == Login(req, secret, g2)
  {
  }
}
