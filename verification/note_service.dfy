/** internal/service/note_service.go: the note-creation rule and the audit
    hand-off. The detached goroutine that publishes the audit event runs
    here in sequence: the event is appended to `outbox`, and to `published`
    only when the broker accepts it (`publishOk`). */
module Service {
  import opened Results
  import opened Entity
  import opened Repository

  const ErrEmptyTitle := "judul catatan tidak boleh kosong"
  const ErrBadIdentity := "identitas user/organisasi tidak valid"
  const ActionCreateNote := "CREATE_NOTE"
  const DetailsPrefix := "Note created with title: "

  /** The validation CreateNote performs before touching the store
      (lines 29-34): the title first, then the organization and user. */
  function ValidationError(title: string, orgId: string, userId: string): (e: Option<string>)
    ensures e.None? <==> title != "" && orgId != "" && userId != ""
    ensures title == "" ==> e == Some(ErrEmptyTitle)
    ensures title != "" && e.Some? ==> e == Some(ErrBadIdentity)
  {
    if title == "" then Some(ErrEmptyTitle)
    else if orgId == "" || userId == "" then Some(ErrBadIdentity)
    else None
  }

  /** The audit event the goroutine builds for a stored note (lines 49-56). */
  function CreateNoteEvent(noteId: int, title: string, orgId: string, userId: string, now: int): (a: AuditLog)
    ensures a.action == ActionCreateNote && a.noteId == noteId && a.timestamp == now
    ensures a.organizationId == orgId && a.userId == userId
    ensures |a.details| == |DetailsPrefix| + |title|
    ensures a.details[..|DetailsPrefix|] == DetailsPrefix && a.details[|DetailsPrefix|..] == title
  {
    AuditLog(ActionCreateNote, noteId, orgId, userId, DetailsPrefix + title, now)
  }

  class NoteService {
    const repo: NoteRepository
    /** Every audit event handed to a publishing goroutine, in order. */
    var outbox: seq<AuditLog>
    /** The events the broker accepted onto `audit_queue`, in order. */
    var published: seq<AuditLog>

    ghost predicate Valid()
      reads this, repo
    {
      repo.Valid()
    }

    constructor (repo: NoteRepository)
      requires repo.Valid()
      ensures this.repo == repo && Valid()
      ensures outbox == [] && published == []
    {
      this.repo := repo;
      outbox := [];
      published := [];
    }

    /** CreateNote (lines 28-66). `dbErr` and `createdAt` are what the store's
        INSERT meets; `auditTime` is time.Now() in the goroutine; `publishOk`
        says whether PublishLog returned nil. */
    method CreateNote(title: string, content: string, orgId: string, userId: string,
                      dbErr: Option<string>, createdAt: int, auditTime: int, publishOk: bool)
      returns (r: Result<Note>)
      requires Valid()
      modifies this, repo
      ensures Valid()
      // a rejected request reaches neither the store nor the audit trail
      ensures ValidationError(title, orgId, userId).Some? ==>
        && r == Err(ValidationError(title, orgId, userId).value)
        && repo.rows == old(repo.rows) && repo.nextId == old(repo.nextId)
        && outbox == old(outbox) && published == old(published)
      // a store failure is returned as the store gave it, and nothing is audited
      ensures ValidationError(title, orgId, userId).None? && dbErr.Some? ==>
        && r == Err(InsertFailed + dbErr.value)
        && repo.rows == old(repo.rows) && repo.nextId == old(repo.nextId)
        && outbox == old(outbox) && published == old(published)
      // success: the stored note carries the arguments, exactly one event is
      // emitted, and the result is the same whether or not the publish succeeds
      ensures ValidationError(title, orgId, userId).None? && dbErr.None? ==>
        && r.Ok?
        && r.value == Note(old(repo.nextId), title, content, orgId, userId, createdAt)
        && (forall n :: n in old(repo.rows) ==> n.id != r.value.id)
        && repo.rows == old(repo.rows) + [r.value]
        && repo.nextId == old(repo.nextId) + 1
        && outbox == old(outbox) + [CreateNoteEvent(r.value.id, title, orgId, userId, auditTime)]
        && published == old(published) + (if publishOk then [CreateNoteEvent(r.value.id, title, orgId, userId, auditTime)] else [])
    {
      var invalid := ValidationError(title, orgId, userId);
      if invalid.Some? {
        return Err(invalid.value);
      }
      var draft := Note(0, title, content, orgId, userId, 0);
      var saved, err := repo.Create(draft, dbErr, createdAt);
      if err.Some? {
        return Err(err.value);
      }
      var event := CreateNoteEvent(saved.id, title, orgId, userId, auditTime);
      outbox := outbox + [event];
      if publishOk {
        published := published + [event];
      }
      r := Ok(saved);
    }

    /** GetNotes (lines 68-70): the store's listing for the organization,
        cut short without an error when the row stream breaks. */
    method GetNotes(orgId: string, dbErr: Option<string>, cut: Option<nat>) returns (r: Result<seq<Note>>)
      ensures dbErr.Some? ==> r == Err(dbErr.value)
      ensures dbErr.None? ==> r == Ok(Listed(NotesOf(repo.rows, orgId), cut))
      ensures r.Ok? ==> forall n :: n in r.value ==> n in repo.rows && n.organizationId == orgId
    {
      var notes, err := repo.GetAll(orgId, dbErr, cut);
      if err.Some? {
        return Err(err.value);
      }
      r := Ok(notes);
    }

    /** GetNoteByID (lines 72-74): the store's lookup for the id within the organization. */
    method GetNoteByID(id: int, orgId: string, dbErr: Option<string>) returns (r: Result<Option<Note>>)
      requires Valid()
      ensures dbErr.Some? ==> r == Err(dbErr.value)
      ensures dbErr.None? ==> r == Ok(Find(repo.rows, id, orgId))
      ensures r.Ok? && r.value.Some? ==> r.value.value.id == id && r.value.value.organizationId == orgId
    {
      var note, err := repo.GetByID(id, orgId, dbErr);
      if err.Some? {
        return Err(err.value);
      }
      r := Ok(note);
    }
  }
}
