# Multi-tenant notes API — a Dafny model

This project models the deciding and scoping logic of a small multi-tenant
notes service written in Go (gin, Postgres, RabbitMQ, MongoDB, JWT, Casbin):

- the **note store** (`Repository`): an in-memory `notes` table whose
  `id SERIAL PRIMARY KEY` column is a counter that only grows. Insert hands
  out a fresh id. Listing and lookup filter by `organization_id`, so one
  tenant never sees another's rows;
- the **note service** (`Service`): validation (title first, then
  organization and user), the store write, and the hand-off of one
  `CREATE_NOTE` audit event to a publishing goroutine, modelled as an
  append to an outbox plus a publish-success flag;
- the **request gate**: bearer-header parsing with the token validator as an
  oracle (`AuthMiddleware`), the Casbin decision table with the enforcer as
  an oracle (`CasbinMiddleware`), and the status-code chains of the note and
  login handlers (`NoteHandler`, `AuthHandler`);
- the **audit consumer loop** (`Consumer`): undecodable messages are
  skipped, decoded ones go to a sink write that may fail, and no error
  stops the loop;
- **configuration assembly** (`Config`): the Postgres connection string and
  the MongoDB defaults as a function of the environment.

`Routes` composes the `/api` middleware chain to state one end-to-end fact.
The handlers and the policy gate take identity from the client's
`X-Organization-ID` / `X-User-ID` headers. They do not use the `userID` /
`orgID` keys the auth middleware binds. The model keeps this as written, and
`Routes.HeaderOrgScopesListing` proves its consequence: the header, not the
token, chooses the organization whose notes are listed.

Shared pieces: `Results` (Option, Result), `Entity` (the `Note` and
`AuditLog` records, with timestamps as abstract integers), `Strings` (Go's
`strings.Split` on one character, and `Join`), and `Http` (requests, JSON
bodies, responses and gin's per-request context).

Library calls are parameters:
- driver errors are optional error texts;
- the token validator and generator, the Casbin enforcer, `strconv.Atoi`
  and `json.Unmarshal` are functions passed in;
- publish and sink-write success are flags.

## Model

| member | source | states |
|---|---|---|
| `Strings.JoinSplit` | internal/middleware/auth_middleware.go:20 | joining the pieces of `strings.Split` on a separator gives back the header exactly |
| `Strings.SplitJoin` | internal/middleware/auth_middleware.go:20 | splitting a join of separator-free pieces gives back exactly those pieces |
| `Strings.SplitSeparatorFree` | internal/middleware/auth_middleware.go:20 | no piece of a split contains the separator |
| `Repository.NotesOf` | internal/repository/note_repository.go:41-59 | the listing holds only rows of the requested organization, and is no longer than the table |
| `Repository.NotesOfComplete` | internal/repository/note_repository.go:42-57 | every row of the organization appears in its listing |
| `Repository.ListingsDisjoint` | internal/repository/note_repository.go:41-59 | two different organizations' listings share no row (tenant isolation) |
| `Repository.NotesOfAppend` | internal/repository/note_repository.go:25-59 | an inserted row appears at the end of its own organization's listing and leaves every other organization's listing unchanged |
| `Repository.Find` | internal/repository/note_repository.go:61-79 | a found note is a table row with that id and that organization; when nothing is found, no such row exists |
| `Repository.FindById` | internal/repository/note_repository.go:61-78 | with unique ids, a row is found under its own organization, and under any other organization the lookup gives the same nothing as a missing id |
| `Repository.NoteRepository.constructor` | internal/database/postgres.go:27-34 | a fresh table is empty and its id sequence starts at 1 |
| `Repository.NoteRepository.Create` | internal/repository/note_repository.go:25-38 | success appends the caller's note with its title, content, org and user unchanged, a fresh id not in the table and the default timestamp; failure wraps the driver error and leaves the table and counter unchanged |
| `Repository.Listed` | internal/repository/note_repository.go:50-58 | what the row loop has collected when the stream stops: a leading part of the listing, the whole listing iff the stream does not break before its end, and exactly k rows when it breaks after k |
| `Repository.NotesOfPrefix` | internal/repository/note_repository.go:50-58 | reading a leading part of the table lists a leading part of the organization's listing |
| `Repository.NoteRepository.GetAll` | internal/repository/note_repository.go:41-59 | with an unbroken row stream, returns exactly the rows whose organization is `org`; a stream that breaks after k rows returns the first k of them with no error, because `rows.Err()` is never checked; a query or scan error gives no notes and that error |
| `Repository.NoteRepository.GetByID` | internal/repository/note_repository.go:61-79 | returns a note iff a row has that id and that organization, and it is the only such row; otherwise nil with no error; a driver error gives nil and the error |
| `Service.ValidationError` | internal/service/note_service.go:29-34 | a request is valid iff title, org and user are all non-empty; an empty title is reported first, and otherwise the identity error |
| `Service.CreateNoteEvent` | internal/service/note_service.go:49-56 | the audit event has action `CREATE_NOTE`, the note id, the caller's org and user, the given time and details `"Note created with title: "` followed by the title |
| `Service.NoteService.constructor` | internal/service/note_service.go:24-26 | a new service has an empty outbox and nothing published |
| `Service.NoteService.CreateNote` | internal/service/note_service.go:28-66 | an invalid request or a store error is returned with no write and no audit event; on success the stored note carries exactly the arguments and a fresh id, exactly one event is handed off, it is published only if the publish succeeds, and the result is the same either way |
| `Service.NoteService.GetNotes` | internal/service/note_service.go:68-70 | returns exactly what the store's GetAll returns for the organization, including a listing cut short by a broken stream, or the store's error |
| `Service.NoteService.GetNoteByID` | internal/service/note_service.go:72-74 | returns exactly the store's lookup for the id within the organization, or the store's error |
| `AuthMiddleware.BearerToken` | internal/middleware/auth_middleware.go:20-27 | an accepted header is `"Bearer "` followed by the returned token, which has no space |
| `AuthMiddleware.BearerTokenExact` | internal/middleware/auth_middleware.go:20-25 | the format check hands on `token` iff the header is `"Bearer " + token` and the token has no space (both directions) |
| `AuthMiddleware.FormatEdgeCases` | internal/middleware/auth_middleware.go:20-28 | `"Bearer  t"` (two spaces) and `"bearer t"` are rejected; `"Bearer "` passes with an empty token |
| `AuthMiddleware.Authenticate` | internal/middleware/auth_middleware.go:13-39 | every rejection is a 401; empty header and bad format are rejected with their own messages; a validator error is rejected; acceptance carries exactly the claims the validator gave for the header's token |
| `AuthMiddleware.ValidatorSeesOnlyToken` | internal/middleware/auth_middleware.go:27-28 | the outcome depends on the validator only through its answer for the header's token and the secret; with a missing or malformed header it does not depend on it at all |
| `AuthMiddleware.ValidTokenAccepted` | internal/middleware/auth_middleware.go:27-39 | `"Bearer " + token` with a token the validator accepts is let through with exactly those claims |
| `AuthMiddleware.Handle` | internal/middleware/auth_middleware.go:12-40 | exactly one of abort or continue happens; an abort writes the 401 and leaves the keys alone; a continue sets `userID`, `orgID` and `role` to the claims and writes no response |
| `CasbinMiddleware.Query` | internal/middleware/casbin_middleware.go:13-24 | the enforcer is asked (user header, org header, path, method) in that order, and is not asked when either header is empty |
| `CasbinMiddleware.Gate` | internal/middleware/casbin_middleware.go:12-42 | a missing header is 401; an enforcer error is 500 even when it also says allowed; allow continues with no response; deny is 403 with the detail naming the org and the method |
| `CasbinMiddleware.GateLetsThrough` | internal/middleware/casbin_middleware.go:18-34 | the request continues iff both headers are present and the enforcer allows their query without error |
| `CasbinMiddleware.GateConsultsOnlyQuery` | internal/middleware/casbin_middleware.go:18-24 | two enforcers that agree on the header query decide alike; without both headers the enforcer plays no part |
| `NoteHandler.BindCreateNote` | internal/handler/note_handler.go:19-29 | binding succeeds iff the body decodes and has a non-empty title; content defaults to empty; a decode error is passed through |
| `NoteHandler.CreateCall` | internal/handler/note_handler.go:26-39 | the service is called iff the body binds and both identity headers are non-empty, with the bound title and content and exactly the header values |
| `NoteHandler.Create` | internal/handler/note_handler.go:24-46 | 400 iff binding fails (checked before headers); 401 for a missing header; otherwise 500 with the service's error or 201 with the service's note |
| `NoteHandler.CreateConsultsOnlyCall` | internal/handler/note_handler.go:31-39 | the response depends on the service only through its answer for the call above; a 400 or 401 never reaches it |
| `NoteHandler.CreateCallIsValid` | internal/handler/note_handler.go:19-37 | whatever reaches the service passes the service's own validation |
| `NoteHandler.GetAll` | internal/handler/note_handler.go:48-62 | 401 iff the org header is empty; otherwise 500 with the service's error or 200 with its list |
| `NoteHandler.GetAllListsHeaderOrg` | internal/handler/note_handler.go:49-61 | through the store, with an unbroken row stream, a 200 lists exactly the rows of the header's organization |
| `NoteHandler.GetAllSendsBrokenListing` | internal/handler/note_handler.go:49-61 | when the row stream breaks after k rows, short of the organization's listing, the client still gets a 200 carrying only those k notes |
| `NoteHandler.GetByID` | internal/handler/note_handler.go:64-90 | 400 iff the id does not parse (checked before the header); 401 for an empty org header; 500 on a service error; 404 for a nil note; 200 with a found note; never 403 |
| `NoteHandler.GetByIDHidesForeignNotes` | internal/handler/note_handler.go:78-89 | through the store, another organization's note gives the same 404 as a missing id, and an own note gives 200 with that note |
| `AuthHandler.MissingFields` | internal/handler/auth_handler.go:19-23 | no field is reported missing iff `user_id`, `org_id` and `role` are all non-empty |
| `AuthHandler.BindLogin` | internal/handler/auth_handler.go:19-30 | binding succeeds iff the body decodes and all three fields are non-empty, and then carries them unchanged |
| `AuthHandler.Login` | internal/handler/auth_handler.go:25-42 | 400 iff binding fails; otherwise the generator is asked with the request's user, org, role and the secret, and its error is 500 and its token is 200 with that token |
| `AuthHandler.LoginConsultsOnlyRequest` | internal/handler/auth_handler.go:32 | the response depends on the generator only through its answer for the bound request and the secret; a 400 never asks it |
| `Consumer.Attempted` | internal/queue/consumer.go:39-47 | at most one sink write per delivery |
| `Consumer.Persisted` | internal/queue/consumer.go:39-53 | the sink keeps no more logs than were handed to it |
| `Consumer.PersistedWereAttempted` | internal/queue/consumer.go:47-52 | every kept log was handed to the sink |
| `Consumer.WrittenMessageKept` | internal/queue/consumer.go:39-53 | a decodable message whose own write succeeds is kept, whatever failed before it: no error stops the loop |
| `Consumer.AllWritesSucceed` | internal/queue/consumer.go:47-52 | when every write succeeds, the sink keeps exactly what was handed to it |
| `Consumer.AttemptedInOrder` | internal/queue/consumer.go:39-47 | when every message decodes, each is handed to the sink exactly once, in delivery order |
| `Consumer.SkippedMessage` | internal/queue/consumer.go:42-45 | an undecodable message causes no sink write and nothing is kept for it |
| `Consumer.ConsumeQueue` | internal/queue/consumer.go:22-25 | the consumer subscribes to `audit_queue` iff the declare succeeded; a declare error is ignored and leaves the empty name |
| `Consumer.AuditConsumer.constructor` | internal/queue/consumer.go:17-19 | a new consumer has written and acknowledged nothing |
| `Consumer.AuditConsumer.Drain` | internal/queue/consumer.go:37-54 | every delivery is acknowledged; the writes are the decoded messages in order; the sink is extended by exactly those whose write succeeded, in order |
| `Consumer.AuditConsumer.StartListening` | internal/queue/consumer.go:21-55 | a consume-registration error is fatal and consumes nothing; otherwise the worker drains every delivery as above |
| `Config.LoadDotenv` | internal/config/config.go:18-21 | `.env` variables are added but never override the process environment; a missing file changes nothing |
| `Config.DBUrl` | internal/config/config.go:23-32 | the connection string is never empty: it starts with `host=` |
| `Config.DBUrlFields` | internal/config/config.go:23-32 | the connection string is host, user, password, dbname, port and sslmode as `key=value` fields joined by single spaces, plus `channel_binding` iff set; with space-free values, splitting on spaces recovers exactly those fields |
| `Config.LoadConfig` | internal/config/config.go:17-54 | the connection string is non-empty, so the fatal branch is unreachable; Mongo URI and database name take their defaults when unset and the given value otherwise; the port is copied as is, possibly empty |
| `Routes.ServeListNotes` | cmd/api/main.go:67-75 | a rejected token is a 401; a 200 means the token was accepted and the policy gate let the request through |
| `Routes.HeaderOrgScopesListing` | cmd/api/main.go:67-75 | with any valid token and an allowed header query, the listing returned is the one for the `X-Organization-ID` header, whatever organization the token names |

## Left out

- Connections and process wiring: dialing, pinging and migrating Postgres, and connecting to RabbitMQ and MongoDB. Of the schema, only `id SERIAL PRIMARY KEY` is kept, as the store's counter.
- Column constraints: `VARCHAR(255)`/`VARCHAR(50)`, `NOT NULL`, and the 32-bit range of `id`. They reach the model only as the driver-error input. For example, an over-long title or an id parameter beyond the `integer` range gives a store error.
- Repository.NoteRepository.Create: a failed insert leaves the counter where it was. A real sequence may skip values after a failure; ids stay fresh either way.
- Repository.NoteRepository.GetAll: rows are listed in insertion order. The query has no `ORDER BY`, so Postgres may return them in any order.
- An empty listing: Go's nil slice, sent as `"data": null`, is the empty sequence here.
- Token signing and verification (HS256 via `golang-jwt`) are opaque oracles; no sign/verify round trip is proved.
- The two separate `time.Now()` calls behind issuance and expiry are not modelled.
- Casbin's rule semantics (`model.conf`, `policy.csv`) are not part of this model; the enforcer is an uninterpreted function.
- Concurrency: the publishing goroutine and the consumer goroutine run in sequence. Publishes from concurrent requests can interleave differently in reality.
- Publish and sink write each become one success flag:
  - `PublishLog` stands for the queue declare, the JSON encoding and the publish under a 5-second timeout;
  - the MongoDB insert into `activity_logs` also has a 5-second timeout.
- A sink write that times out after MongoDB stored the document counts as not stored.
- JSON and header details:
  - `encoding/json` matches member names case-insensitively; here they match exactly;
  - a member of the wrong JSON type counts as an undecodable body;
  - the request's header map is keyed by exactly the names the code asks for (`Authorization`, `X-Organization-ID`, `X-User-ID`); net/http's case-insensitive matching of header names is not modelled;
  - header values are taken as gin returns them, after the transport has trimmed surrounding spaces and tabs. So a wire header `Authorization: Bearer ` arrives as `"Bearer"` and is rejected as malformed, and the `"Bearer "` case of `AuthMiddleware.FormatEdgeCases` is reachable only when the value is passed in that form.
- The missing-field message follows the text format of the go-playground validator. That library is not part of this model.
- `strconv.Atoi` and `json.Unmarshal` are parse oracles.
- The parsing of the `.env` file is not modelled; its variables are given as a map.
- Logging is not modelled; `log.Fatal`/`log.Fatalf` become a `Fatal` outcome.
- `config.Config` has no `JWTSecret` field, yet `internal/handler/auth_handler.go:32` and `cmd/api/main.go:69` read one. The signing secret is therefore a parameter of `Login` and `Authenticate`.
- `cmd/api/main.go:51` passes the audit repository where the service expects the audit producer. The model gives the service its publisher directly.
- The audit consumer is never started in `cmd/api/main.go`. It is modelled on its own.
- `internal/repository/note_repository.go:51-58` never calls `rows.Err()`. A row stream that fails part-way therefore ends the loop like a finished result, and the notes read so far are returned with a nil error. `Repository.NoteRepository.GetAll` models this with its `cut` input.
- NoteHandler.GetAllListsHeaderOrg: stated over an unbroken row stream of the in-memory store. The same holds for `Routes.HeaderOrgScopesListing`. With a broken stream, the 200 carries only a leading part of the listing (`NoteHandler.GetAllSendsBrokenListing`).
- The request body of `POST /login` and the route wiring beyond the `/api` listing chain are not composed end to end.
