/** The slice of the gin framework the core touches: requests, JSON bodies,
    responses and the per-request context. */
module Http {
  import opened Results
  import opened Entity
  import opened Strings

  const StatusOK := 200
  const StatusCreated := 201
  const StatusBadRequest := 400
  const StatusUnauthorized := 401
  const StatusForbidden := 403
  const StatusNotFound := 404
  const StatusInternalServerError := 500

  /** A request body as encoding/json sees it for a struct of string fields:
      either it cannot be decoded (the decoder's error text), or it is an
      object whose string members are listed. */
  datatype JsonBody = Undecodable(err: string) | Object(fields: map<string, string>)

  /** An incoming request. Header names are canonical; `params` holds the
      route parameters (`:id`). */
  datatype Request = Request(
    verb: string,
    path: string,
    headers: map<string, string>,
    params: map<string, string>,
    body: JsonBody)

  /** c.GetHeader(name): the header's value, or "" when it is absent. */
  function GetHeader(req: Request, name: string): string
  {
    if name in req.headers then req.headers[name] else ""
  }

  /** c.Param(name): the route parameter, or "" when it is absent. */
  function Param(req: Request, name: string): string
  {
    if name in req.params then req.params[name] else ""
  }

  /** A decoded member of a JSON object, "" when it is absent (Go's zero value). */
  function Member(fields: map<string, string>, key: string): string
  {
    if key in fields then fields[key] else ""
  }

  /** The validator's text for one `binding:"required"` field left at its zero value. */
  function RequiredMessage(structName: string, field: string): string
  {
    "Key: '" + structName + "." + field + "' Error:Field validation for '" + field + "' failed on the 'required' tag"
  }

  /** The validator's text for several failed fields: one line per field. */
  function RequiredMessages(structName: string, fields: seq<string>): string
    requires |fields| >= 1
  {
    Join(seq(|fields|, i requires 0 <= i < |fields| => RequiredMessage(structName, fields[i])), '\n')
  }

  /** The JSON object written by c.JSON(status, gin.H{...}). */
  datatype Body =
    | ErrorBody(error: string)
    | ForbiddenBody(error: string, detail: string)
    | NoteBody(note: Note)
    | NotesBody(notes: seq<Note>)
    | TokenBody(token: string, message: string)

  datatype Response = Response(status: int, body: Body)

  /** gin's per-request context: the key map written by c.Set, the response
      written by c.JSON, and whether the chain was aborted or continued. */
  class Context {
    const request: Request
    var keys: map<string, string>
    var response: Option<Response>
    var aborted: bool
    var proceeded: bool

    constructor (request: Request)
      ensures this.request == request
      ensures keys == map[] && response == None && !aborted && !proceeded
    {
      this.request := request;
      keys := map[];
      response := None;
      aborted := false;
      proceeded := false;
    }

    /** A context no middleware has answered, aborted or passed on yet. */
    predicate Pending()
      reads this
    {
      response.None? && !aborted && !proceeded
    }
  }
}
