/** internal/middleware/casbin_middleware.go: the policy gate. The Casbin
    enforcer is an oracle from (subject, tenant, path, method) to Go's
    `(allowed bool, err error)` pair. */
module CasbinMiddleware {
  import opened Results
  import opened Http

  const UserHeader := "X-User-ID"
  const OrgHeader := "X-Organization-ID"
  const ErrHeaderMissing := "User/Org Header missing"
  const ErrAuthorization := "Authorization error"
  const ErrForbidden := "Anda tidak memiliki akses (Forbidden)"

  datatype Verdict = Verdict(allowed: bool, err: Option<string>)

  type Enforcer = (string, string, string, string) -> Verdict

  /** The gate lets the request through, or answers and aborts. */
  datatype GateOutcome = Next | Abort(response: Response)

  /** The 403 detail naming the tenant and the refused method (line 38). */
  function DenyDetail(org: string, verb: string): string
  {
    "Role anda di " + org + " tidak mengizinkan " + verb
  }

  /** The query the gate puts to the enforcer (lines 13-16, 24): subject and
      tenant from the client's headers, then path and method. None when a
      header is missing and the enforcer is not consulted (lines 18-22). */
  function Query(req: Request): (q: Option<(string, string, string, string)>)
    ensures q.Some? <==> GetHeader(req, UserHeader) != "" && GetHeader(req, OrgHeader) != ""
    ensures q.Some? ==> q.value.0 == GetHeader(req, UserHeader) && q.value.1 == GetHeader(req, OrgHeader)
    ensures q.Some? ==> q.value.2 == req.path && q.value.3 == req.verb
  {
    var user := GetHeader(req, UserHeader);
    var org := GetHeader(req, OrgHeader);
    if user == "" || org == "" then None else Some((user, org, req.path, req.verb))
  }

  /** CasbinMiddleware's decision (lines 12-42). */
  function Gate(req: Request, enforce: Enforcer): (r: GateOutcome)
    ensures Query(req).None? ==> r == Abort(Response(StatusUnauthorized, ErrorBody(ErrHeaderMissing)))
    ensures Query(req).Some? ==>
      var q := Query(req).value;
      var v := enforce(q.0, q.1, q.2, q.3);
      // an enforcer error is a 500, whatever `allowed` says
      && (v.err.Some? ==> r == Abort(Response(StatusInternalServerError, ErrorBody(ErrAuthorization))))
      && (v.err.None? && v.allowed ==> r == Next)
      && (v.err.None? && !v.allowed ==>
            r == Abort(Response(StatusForbidden, ForbiddenBody(ErrForbidden, DenyDetail(q.1, q.3)))))
    ensures r.Abort? ==> r.response.status in {StatusUnauthorized, StatusForbidden, StatusInternalServerError}
  {
    match Query(req)
    case None => Abort(Response(StatusUnauthorized, ErrorBody(ErrHeaderMissing)))
    case Some(q) =>
      var v := enforce(q.0, q.1, q.2, q.3);
      if v.err.Some? then Abort(Response(StatusInternalServerError, ErrorBody(ErrAuthorization)))
      else if v.allowed then Next
      else Abort(Response(StatusForbidden, ForbiddenBody(ErrForbidden, DenyDetail(q.1, q.3))))
  }

  /** The request goes on exactly when both identity headers are present and
      the enforcer allows their query without error. */
  lemma GateLetsThrough(req: Request, enforce: Enforcer)
    ensures Gate(req, enforce) == Next <==>
      && GetHeader(req, UserHeader) != "" && GetHeader(req, OrgHeader) != ""
      && enforce(GetHeader(req, UserHeader), GetHeader(req, OrgHeader), req.path, req.verb) == Verdict(true, None)
  {
  }

  /** The enforcer is consulted at one point only, the header query: two
      enforcers that agree there decide alike, and without both headers the
      enforcer plays no part. */
  lemma GateConsultsOnlyQuery(req: Request, e1: Enforcer, e2: Enforcer)
    requires Query(req).Some? ==>
      var q := Query(req).value;
      e1(q.0, q.1, q.2, q.3) == e2(q.0, q.1, q.2, q.3)
    ensures Gate(req, e1) == Gate(req, e2)
  {
  }
}
