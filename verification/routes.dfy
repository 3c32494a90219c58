/** The `/api` route group of cmd/api/main.go: AuthMiddleware, then
    CasbinMiddleware, then the note handler; the first stage that answers
    ends the request. */
module Routes {
  import opened Results
  import opened Entity
  import opened Http
  import AuthMiddleware
  import CasbinMiddleware
  import NoteHandler
  import Repository

  /** GET /api/notes through both middlewares. */
  function ServeListNotes(req: Request, secret: string, validate: AuthMiddleware.Validator,
                          enforce: CasbinMiddleware.Enforcer, getNotes: NoteHandler.GetNotesFn): (r: Response)
    ensures AuthMiddleware.Authenticate(GetHeader(req, AuthMiddleware.AuthorizationHeader), secret, validate).Reject? ==>
      r.status == StatusUnauthorized
    ensures r.status == StatusOK ==>
      && AuthMiddleware.Authenticate(GetHeader(req, AuthMiddleware.AuthorizationHeader), secret, validate).Accept?
      && CasbinMiddleware.Gate(req, enforce) == CasbinMiddleware.Next
  {
    match AuthMiddleware.Authenticate(GetHeader(req, AuthMiddleware.AuthorizationHeader), secret, validate)
    case Reject(resp) => resp
    case Accept(_) =>
      match CasbinMiddleware.Gate(req, enforce)
      case Abort(resp) => resp
      case Next => NoteHandler.GetAll(req, getNotes)
  }

  /** As wired, the organization whose notes are listed is the one named in
      the X-Organization-ID header, not the one in the verified token: a
      caller holding a valid token for any organization, whose header query
      the enforcer allows, receives the listing of the header's organization. */
  lemma HeaderOrgScopesListing(req: Request, secret: string, validate: AuthMiddleware.Validator,
                               enforce: CasbinMiddleware.Enforcer, rows: seq<Note>,
                               token: string, claims: AuthMiddleware.Claims)
    requires GetHeader(req, AuthMiddleware.AuthorizationHeader) == "Bearer " + token && ' ' !in token
    requires validate(token, secret) == Ok(claims)
    requires GetHeader(req, CasbinMiddleware.UserHeader) != "" && GetHeader(req, CasbinMiddleware.OrgHeader) != ""
    requires enforce(GetHeader(req, CasbinMiddleware.UserHeader), GetHeader(req, CasbinMiddleware.OrgHeader),
                     req.path, req.verb) == CasbinMiddleware.Verdict(true, None)
    ensures ServeListNotes(req, secret, validate, enforce, (org: string) => Ok(Repository.NotesOf(rows, org)))
      == Response(StatusOK, NotesBody(Repository.NotesOf(rows, GetHeader(req, NoteHandler.OrgHeader))))
  {
    AuthMiddleware.ValidTokenAccepted(token, secret, validate, claims);
  }
}
