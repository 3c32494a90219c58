/** internal/handler/note_handler.go: each handler's early-return chain ending
    in one response. The service calls, and strconv.Atoi, are oracles. */
module NoteHandler {
  import opened Results
  import opened Entity
  import opened Http
  import Service
  import Repository

  const OrgHeader := "X-Organization-ID"
  const UserHeader := "X-User-ID"
  const ErrIdentityHeaders := "Header X-Organization-ID dan X-User-ID wajib diisi"
  const ErrOrgHeader := "Header X-Organization-ID wajib diisi"
  const ErrBadId := "ID harus angka"
  const ErrNotFound := "Data tidak ditemukan (atau Anda tidak punya akses)"

  /** createNoteRequest (lines 19-22). */
  datatype CreateNoteRequest = CreateNoteRequest(title: string, content: string)

  /** The arguments Create hands to CreateNote. */
  datatype CreateArgs = CreateArgs(title: string, content: string, orgId: string, userId: string)

  type CreateNoteFn = CreateArgs -> Result<Note>
  type GetNotesFn = string -> Result<seq<Note>>
  type GetNoteFn = (int, string) -> Result<Option<Note>>
  type Atoi = string -> Option<int>

  /** c.ShouldBindJSON into createNoteRequest (line 26): the title is
      required, so it must be present and non-empty; content defaults to "". */
  function BindCreateNote(body: JsonBody): (r: Result<CreateNoteRequest>)
    ensures r.Ok? <==> body.Object? && Member(body.fields, "title") != ""
    ensures r.Ok? ==> r.value.title == body.fields["title"] && r.value.content == Member(body.fields, "content")
    ensures body.Undecodable? ==> r == Err(body.err)
  {
    match body
    case Undecodable(e) => Err(e)
    case Object(fields) =>
      if Member(fields, "title") == "" then Err(RequiredMessage("createNoteRequest", "Title"))
      else Ok(CreateNoteRequest(fields["title"], Member(fields, "content")))
  }

  /** The call Create makes to the service, or None when it answers first
      (lines 26-37): the body is bound before the headers are read. */
  function CreateCall(req: Request): (call: Option<CreateArgs>)
    ensures call.Some? <==>
      BindCreateNote(req.body).Ok? && GetHeader(req, OrgHeader) != "" && GetHeader(req, UserHeader) != ""
    ensures call.Some? ==>
      && call.value.title == BindCreateNote(req.body).value.title
      && call.value.content == BindCreateNote(req.body).value.content
      && call.value.orgId == GetHeader(req, OrgHeader)
      && call.value.userId == GetHeader(req, UserHeader)
  {
    match BindCreateNote(req.body)
    case Err(_) => None
    case Ok(body) =>
      var orgId := GetHeader(req, OrgHeader);
      var userId := GetHeader(req, UserHeader);
      if orgId == "" || userId == "" then None
      else Some(CreateArgs(body.title, body.content, orgId, userId))
  }

  /** Create (lines 24-46). */
  function Create(req: Request, createNote: CreateNoteFn): (r: Response)
    ensures r.status in {StatusBadRequest, StatusUnauthorized, StatusInternalServerError, StatusCreated}
    ensures r.status == StatusBadRequest <==> BindCreateNote(req.body).Err?
    ensures r.status == StatusBadRequest ==> r.body == ErrorBody(BindCreateNote(req.body).error)
    ensures r.status == StatusUnauthorized ==> r.body == ErrorBody(ErrIdentityHeaders)
    ensures CreateCall(req).None? <==> r.status in {StatusBadRequest, StatusUnauthorized}
    ensures CreateCall(req).Some? ==>
      match createNote(CreateCall(req).value)
      case Err(e) => r == Response(StatusInternalServerError, ErrorBody(e))
      case Ok(note) => r == Response(StatusCreated, NoteBody(note))
  {
    match BindCreateNote(req.body)
    case Err(e) => Response(StatusBadRequest, ErrorBody(e))
    case Ok(_) =>
      match CreateCall(req)
      case None => Response(StatusUnauthorized, ErrorBody(ErrIdentityHeaders))
      case Some(args) =>
        match createNote(args)
        case Err(e) => Response(StatusInternalServerError, ErrorBody(e))
        case Ok(note) => Response(StatusCreated, NoteBody(note))
  }

  /** The service is consulted only with the bound title and content and the
      header identity; a request answered 400 or 401 never reaches it. */
  lemma CreateConsultsOnlyCall(req: Request, s1: CreateNoteFn, s2: CreateNoteFn)
    requires CreateCall(req).Some? ==> s1(CreateCall(req).value) == s2(CreateCall(req).value)
    ensures Create(req, s1) == Create(req, s2)
  {
  }

  /** Whatever reaches the service passes its validation: the handler's own
      checks already demand a title and both identity headers, so the
      service's validation errors are unreachable through Create. */
  lemma CreateCallIsValid(req: Request)
    requires CreateCall(req).Some?
    ensures
      var a := CreateCall(req).value;
      Service.ValidationError(a.title, a.orgId, a.userId).None?
  {
  }

  /** GetAll (lines 48-62). */
  function GetAll(req: Request, getNotes: GetNotesFn): (r: Response)
    ensures r.status in {StatusUnauthorized, StatusInternalServerError, StatusOK}
    ensures GetHeader(req, OrgHeader) == "" <==> r == Response(StatusUnauthorized, ErrorBody(ErrOrgHeader))
    ensures GetHeader(req, OrgHeader) != "" ==>
      match getNotes(GetHeader(req, OrgHeader))
      case Err(e) => r == Response(StatusInternalServerError, ErrorBody(e))
      case Ok(notes) => r == Response(StatusOK, NotesBody(notes))
  {
    var orgId := GetHeader(req, OrgHeader);
    if orgId == "" then Response(StatusUnauthorized, ErrorBody(ErrOrgHeader))
    else
      match getNotes(orgId)
      case Err(e) => Response(StatusInternalServerError, ErrorBody(e))
      case Ok(notes) => Response(StatusOK, NotesBody(notes))
  }

  /** Listing through the store: a 200 carries exactly the rows of the
      organization named in the X-Organization-ID header. */
  lemma GetAllListsHeaderOrg(req: Request, rows: seq<Note>)
    ensures
      var r := GetAll(req, (org: string) => Ok(Repository.NotesOf(rows, org)));
      r.status == StatusOK ==>
        && r.body.NotesBody?
        && (forall n :: n in r.body.notes ==> n in rows && n.organizationId == GetHeader(req, OrgHeader))
        && (forall n :: n in rows && n.organizationId == GetHeader(req, OrgHeader) ==> n in r.body.notes)
  {
    forall n | n in rows && n.organizationId == GetHeader(req, OrgHeader)
      ensures n in Repository.NotesOf(rows, GetHeader(req, OrgHeader))
    {
      Repository.NotesOfComplete(rows, GetHeader(req, OrgHeader), n);
    }
  }

  /** A row stream that breaks part-way through the listing is still a 200:
      the client gets fewer notes than its organization has, and no error. */
  lemma GetAllSendsBrokenListing(req: Request, rows: seq<Note>, k: nat)
    requires GetHeader(req, OrgHeader) != ""
    requires k < |Repository.NotesOf(rows, GetHeader(req, OrgHeader))|
    ensures
      var r := GetAll(req, (org: string) => Ok(Repository.Listed(Repository.NotesOf(rows, org), Some(k))));
      && r.status == StatusOK
      && r.body.NotesBody?
      && |r.body.notes| == k < |Repository.NotesOf(rows, GetHeader(req, OrgHeader))|
      && r.body.notes < Repository.NotesOf(rows, GetHeader(req, OrgHeader))
  {
  }

  /** GetByID (lines 64-90): the id is parsed before the header is read, and
      a missing note is a 404, never a 403. */
  function GetByID(req: Request, atoi: Atoi, getNote: GetNoteFn): (r: Response)
    ensures r.status in {StatusBadRequest, StatusUnauthorized, StatusInternalServerError, StatusNotFound, StatusOK}
    ensures atoi(Param(req, "id")).None? <==> r == Response(StatusBadRequest, ErrorBody(ErrBadId))
    ensures atoi(Param(req, "id")).Some? && GetHeader(req, OrgHeader) == "" ==>
      r == Response(StatusUnauthorized, ErrorBody(ErrOrgHeader))
    ensures atoi(Param(req, "id")).Some? && GetHeader(req, OrgHeader) != "" ==>
      match getNote(atoi(Param(req, "id")).value, GetHeader(req, OrgHeader))
      case Err(e) => r == Response(StatusInternalServerError, ErrorBody(e))
      case Ok(None) => r == Response(StatusNotFound, ErrorBody(ErrNotFound))
      case Ok(Some(note)) => r == Response(StatusOK, NoteBody(note))
  {
    match atoi(Param(req, "id"))
    case None => Response(StatusBadRequest, ErrorBody(ErrBadId))
    case Some(id) =>
      var orgId := GetHeader(req, OrgHeader);
      if orgId == "" then Response(StatusUnauthorized, ErrorBody(ErrOrgHeader))
      else
        match getNote(id, orgId)
        case Err(e) => Response(StatusInternalServerError, ErrorBody(e))
        case Ok(None) => Response(StatusNotFound, ErrorBody(ErrNotFound))
        case Ok(Some(note)) => Response(StatusOK, NoteBody(note))
  }

  /** Reading through the store: asking for another organization's note gets
      the same 404 as asking for an id that does not exist, and a note of the
      header's organization is returned as stored. */
  lemma GetByIDHidesForeignNotes(req: Request, atoi: Atoi, rows: seq<Note>, n: Note)
    requires Repository.IdsIncreasing(rows) && n in rows
    requires atoi(Param(req, "id")) == Some(n.id) && GetHeader(req, OrgHeader) != ""
    ensures
      var r := GetByID(req, atoi, (id: int, org: string) => Ok(Repository.Find(rows, id, org)));
      && (n.organizationId != GetHeader(req, OrgHeader) ==> r == Response(StatusNotFound, ErrorBody(ErrNotFound)))
      && (n.organizationId == GetHeader(req, OrgHeader) ==> r == Response(StatusOK, NoteBody(n)))
  {
    Repository.FindById(rows, n, GetHeader(req, OrgHeader));
  }
}
