/** The records of internal/entity. Go's time.Time values are abstract instants. */
module Entity {

  /** One row of the `notes` table (internal/entity/note.go). */
  datatype Note = Note(
    id: int,
    title: string,
    content: string,
    organizationId: string,
    userId: string,
    createdAt: int)

  /** One audit document (internal/entity/audit_log.go). */
  datatype AuditLog = AuditLog(
    action: string,
    noteId: int,
    organizationId: string,
    userId: string,
    details: string,
    timestamp: int)
}
