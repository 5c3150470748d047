# Ticket tracker backend: status workflow, entity, table and use cases

This project models the backend core of a small ticket tracker and proves
properties of the model:

- **The status workflow.** Four statuses, OPEN, IN_PROGRESS, RESOLVED and
  CLOSED, and a fixed table of allowed transitions (`StatusPolicy`).
- **The ticket entity** (`TicketEntity`). It is an immutable record that is
  validated each time one is built:
  - id, title and description must not be blank after `trim`;
  - the title is at most 200 and the description at most 2000 UTF-16 units.

  It is created in OPEN and changed only by an allowed status transition,
  which yields a new record.
- **The ticket table** (`TicketTable.Table`). This is the repository over
  the key-value store, modelled as a class:
  - `items` maps each id to the stored record;
  - `order` is the order in which a scan returns the records.

  Its operations are the conditional put, the lookup by id, the status
  query, the scan and the status update. Every record read back goes
  through the entity constructor again.
- **The three use cases.**
  - Create (`CreateTicket`) checks the request, then builds and stores a
    ticket.
  - GetTickets (`GetTickets`) lists all tickets or those in one status.
  - UpdateStatus (`UpdateTicketStatus`) looks the ticket up, checks the
    transition and writes.
- **Errors and handlers** (`Errors`). The error kinds stay as distinct as
  the code keeps them. The HTTP status the handlers give each one is
  modelled too.

Strings are `seq<char>`. JavaScript's `trim` is modelled on ECMAScript's
whitespace and line-terminator set, and `length` counts UTF-16 code units
(`Text`).

A status or priority read back from the table is an unchecked cast of
the stored string. So `Status` and `Priority` each have an `Unrecognised…`
variant, and subset types keep one value per string.

Time is an integer instant `now` passed in by the caller. The id of a new
ticket is a parameter `freshId`.

`Scenarios` follows one ticket through the use-case contracts:

1. Created with default priority.
2. A blank title is refused.
3. It is moved OPEN → IN_PROGRESS → RESOLVED → CLOSED.
4. Reopening it fails, and so does an unknown id.

## Model

| member | source | states |
|---|---|---|
| StatusPolicy.FromName | backend/src/infrastructure/persistence/DynamoTicketRepository.ts:123 | the status a stored string is cast to has that string as its name, and it is unrecognised exactly when the string names no enum member |
| StatusPolicy.FromNameOfName | backend/src/infrastructure/persistence/DynamoTicketRepository.ts:110-123 | storing a status as its string and casting it back gives the same status |
| StatusPolicy.IsValidTransition | backend/src/domain/value-objects/TicketStatus.ts:16-28 | an allowed transition is between two enum members and changes the status; nothing leaves CLOSED and nothing returns to OPEN; a current status outside the enum gives `false` (the corrected lookup) |
| StatusPolicy.IsValidTransitionAsWritten | backend/src/domain/value-objects/TicketStatus.ts:27 | as written, the lookup throws exactly when the current status names an `Object.prototype` member; when it answers `true` the current status is an enum member other than CLOSED |
| StatusPolicy.TransitionsAreExactly | backend/src/domain/value-objects/TicketStatus.ts:20-27 | a transition is allowed iff it is OPEN→IN_PROGRESS, OPEN→CLOSED, IN_PROGRESS→RESOLVED, IN_PROGRESS→CLOSED or RESOLVED→CLOSED |
| StatusPolicy.ClosedIsTerminal | backend/src/domain/value-objects/TicketStatus.ts:24 | no transition out of CLOSED is allowed, CLOSED→CLOSED included |
| StatusPolicy.NoSelfTransition | backend/src/domain/value-objects/TicketStatus.ts:21-24 | no status may transition to itself |
| StatusPolicy.EveryActiveStatusMayClose | backend/src/domain/value-objects/TicketStatus.ts:21-23 | OPEN, IN_PROGRESS and RESOLVED may each go directly to CLOSED |
| StatusPolicy.UnrecognisedGivesFalse | backend/src/domain/value-objects/TicketStatus.ts:27 | a current status outside the enum gives `false` for every requested status (the corrected lookup) |
| StatusPolicy.TransitionRaisesRank | backend/src/domain/value-objects/TicketStatus.ts:20-25 | every allowed edge goes from an enum member to a strictly later one in OPEN < IN_PROGRESS < RESOLVED < CLOSED |
| StatusPolicy.WalkRaisesRank | backend/src/domain/value-objects/TicketStatus.ts:20-25 | along any sequence of allowed transitions the rank rises by at least one per step |
| StatusPolicy.WalkNeverRevisits | backend/src/domain/value-objects/TicketStatus.ts:20-25 | the graph is acyclic: no sequence of allowed transitions returns to a status it left |
| StatusPolicy.WalkHasAtMostFourStatuses | backend/src/domain/value-objects/TicketStatus.ts:20-25 | a ticket's history of allowed transitions has at most four statuses |
| StatusPolicy.FullWorkflow | backend/src/domain/value-objects/TicketStatus.ts:21-24 | OPEN→IN_PROGRESS→RESOLVED→CLOSED is a valid history, and it cannot be followed by OPEN |
| StatusPolicy.AsWrittenThrowsOnInheritedName | backend/src/domain/value-objects/TicketStatus.ts:27 | as written, a current status of "toString" makes the lookup throw, while the intended answer is `false` |
| StatusPolicy.AsWrittenAgreesOtherwise | backend/src/domain/value-objects/TicketStatus.ts:20-27 | for every current status that is not an `Object.prototype` member name, the lookup as written answers what the corrected one answers |
| Priority.FromName | backend/src/infrastructure/persistence/DynamoTicketRepository.ts:124 | the priority a stored string is cast to has that string as its name, and it is unrecognised exactly when the string names no enum member |
| Priority.FromNameOfName | backend/src/infrastructure/persistence/DynamoTicketRepository.ts:111-124 | storing a priority and casting it back gives the same priority |
| Text.Trim | backend/src/domain/entities/Ticket.ts:27 | `trim` gives the empty string exactly when every character is whitespace or a line terminator; otherwise it starts and ends with a kept character; the result is always the contiguous slice of the input left after cutting off a blank prefix and a blank suffix |
| Text.Utf16Length | backend/src/domain/entities/Ticket.ts:33 | `length` counts between one and two units per character |
| Text.Utf16LengthOfBmpText | backend/src/domain/entities/Ticket.ts:33-41 | `length` equals the number of characters exactly when none lies above the Basic Multilingual Plane |
| TicketEntity.Violation | backend/src/domain/entities/Ticket.ts:26-42 | `validate` reports no violation exactly when id, title and description are non-blank after `trim` and the title and description are within 200 and 2000 units |
| TicketEntity.New | backend/src/domain/entities/Ticket.ts:10-42 | construction succeeds iff id, title and description are non-blank and the title and description are within their limits; on success the record holds exactly the given fields; on failure the error is a plain `Error` |
| TicketEntity.ViolationOrder | backend/src/domain/entities/Ticket.ts:26-42 | a blank id is reported first ("Ticket ID is required"), then a blank title, then an overlong title, each with its own message |
| TicketEntity.LengthLimitsAreInclusive | backend/src/domain/entities/Ticket.ts:33-41 | a title of exactly 200 units and a description of exactly 2000 units are accepted; 201 or 2001 units are refused |
| TicketEntity.Create | backend/src/domain/entities/Ticket.ts:78-96 | `create` succeeds iff the fields are valid, and then gives status OPEN, `createdAt == updatedAt == now`, and id, title, description, priority and createdBy as given |
| TicketEntity.CanTransitionTo | backend/src/domain/entities/Ticket.ts:48-50 | a ticket may move only to a status other than its own, and a CLOSED ticket may move nowhere (the corrected lookup) |
| TicketEntity.UpdateStatus | backend/src/domain/entities/Ticket.ts:56-73 | a disallowed transition fails with a plain `Error` naming the current and the requested status; on a valid ticket it succeeds iff the transition is allowed, and then returns the same ticket with only `status` and `updatedAt` changed, still valid |
| TicketEntity.AllowedStep | backend/src/domain/entities/Ticket.ts:63-72 | an allowed transition of a valid ticket never fails re-validation and changes only `status` and `updatedAt` |
| TicketEntity.ClosedTicketRefusesEverything | backend/src/domain/entities/Ticket.ts:56-61 | a CLOSED ticket refuses every requested status with the transition message |
| TicketEntity.OpenCannotJumpToResolved | backend/src/domain/entities/Ticket.ts:57-61 | OPEN→RESOLVED fails with "Invalid status transition from OPEN to RESOLVED" |
| Errors.UpdateHandlerStatus | backend/src/infrastructure/http/handlers/updateTicketStatusHandler.ts:62-70 | the update handler answers 404 for `NotFoundError` and 500 for every other error the core throws; its 400 branch is never reached |
| Errors.CreateHandlerStatus | backend/src/infrastructure/http/handlers/createTicketHandler.ts:52-56 | the create handler answers 500 for every error the core throws, blank fields included |
| TicketTable.ToItem | backend/src/infrastructure/persistence/DynamoTicketRepository.ts:105-116 | the stored record keeps id, title, description, both timestamps and createdBy, and holds the status and priority as their string names |
| TicketTable.ToEntity | backend/src/infrastructure/persistence/DynamoTicketRepository.ts:118-128 | a stored record loads iff its id, title and description pass validation; otherwise the read fails with a plain `Error`; a loaded ticket converts back to the same record and its status is the cast of the stored string |
| TicketTable.LoadAfterStore | backend/src/infrastructure/persistence/DynamoTicketRepository.ts:105-128 | converting a valid ticket to a stored record and loading it back gives the same ticket, every field preserved |
| TicketTable.Collect | backend/src/infrastructure/persistence/DynamoTicketRepository.ts:66 | a successful `.map` over fallible loads has one value per element, each the value of its load |
| TicketTable.CollectFailsAtFirstFailure | backend/src/infrastructure/persistence/DynamoTicketRepository.ts:76 | the mapping fails iff some load fails, and then with the error of the first failing load |
| TicketTable.CollectEach | backend/src/infrastructure/persistence/DynamoTicketRepository.ts:76 | the loop over the loads stops at the first failure and returns exactly what the mapping specifies |
| TicketTable.Load | backend/src/infrastructure/persistence/DynamoTicketRepository.ts:66 | a successful read of some keys gives one ticket per key, in order, each the load of that key's record |
| TicketTable.WithStatus | backend/src/infrastructure/persistence/DynamoTicketRepository.ts:51-64 | the status query visits exactly the listed keys whose stored status is that status's name, no more keys than listed, without repeats |
| TicketTable.QueryGivesOnlyThatStatus | backend/src/infrastructure/persistence/DynamoTicketRepository.ts:51-66 | every ticket a successful status query returns has that status and is the load of a stored record |
| TicketTable.QueryMissesNoRecord | backend/src/infrastructure/persistence/DynamoTicketRepository.ts:51-66 | every stored record with that status appears in a successful status query's result |
| TicketTable.LoadKeepsRecord | backend/src/infrastructure/persistence/DynamoTicketRepository.ts:69-76 | a successful read of some keys holds a ticket for each record they name |
| TicketTable.ScanGivesEveryRecord | backend/src/infrastructure/persistence/DynamoTicketRepository.ts:69-76 | a successful scan returns exactly as many tickets as stored records, and one for every record |
| TicketTable.ListingLength | backend/src/infrastructure/persistence/DynamoTicketRepository.ts:69-76 | a listing of the keys without repeats is as long as the table |
| TicketTable.Table.constructor | backend/src/infrastructure/persistence/DynamoTicketRepository.ts:17-20 | a table over given records and scan order is well formed and holds exactly them |
| TicketTable.Table.Create | backend/src/infrastructure/persistence/DynamoTicketRepository.ts:22-34 | an existing id fails the put condition and leaves the table unchanged; a fresh id adds exactly that one record and returns the given ticket |
| TicketTable.Table.FindById | backend/src/infrastructure/persistence/DynamoTicketRepository.ts:36-49 | an absent id gives `null`; a present one gives the load of its record, or that load's error |
| TicketTable.Table.FindAll | backend/src/infrastructure/persistence/DynamoTicketRepository.ts:69-77 | the result is the load of every record in scan order |
| TicketTable.Table.FindByStatus | backend/src/infrastructure/persistence/DynamoTicketRepository.ts:51-67 | the result is the load of exactly the records with that status, in scan order |
| TicketTable.Table.UpdateStatus | backend/src/infrastructure/persistence/DynamoTicketRepository.ts:79-103 | only that record's `status` and `updatedAt` change, no other record and not the order; the result is the load of the updated record |
| Responses.ResponseOf | backend/src/application/use-cases/CreateTicketUseCase.ts:45-56 | the create response copies id, title, description, status, priority and createdBy and gives both timestamps as ISO text of the ticket's instants |
| Responses.Normalise | backend/src/application/use-cases/GetTicketsUseCase.ts:25-30 | a `Date` timestamp becomes its ISO text; a string timestamp passes through unchanged |
| Responses.Present | backend/src/application/use-cases/GetTicketsUseCase.ts:24-41 | `toDTO` copies id, title, description, status, priority and createdBy unchanged and normalises both timestamps |
| Responses.PresentAgreesWithResponseOf | backend/src/application/use-cases/CreateTicketUseCase.ts:45-56 | on a ticket entity the listing's `toDTO` and the create use case's `toDTO` give the same response, with ISO timestamps |
| Responses.PresentIsInjectiveOnTickets | backend/src/application/use-cases/GetTicketsUseCase.ts:32-40 | two tickets with the same response are the same ticket: `toDTO` loses no field |
| CreateTicket.CheckRequest | backend/src/application/use-cases/CreateTicketUseCase.ts:36-43 | the request passes iff title and description are present and not blank; a missing or blank title fails first with "Title is required"; failures are plain `Error`s |
| CreateTicket.PriorityOrDefault | backend/src/application/use-cases/CreateTicketUseCase.ts:25 | a missing (or empty) priority becomes MEDIUM, and any other supplied priority is kept |
| CreateTicket.TicketFor | backend/src/application/use-cases/CreateTicketUseCase.ts:16-27 | request-check failures come first; otherwise the ticket is built iff the entity accepts the fields, with the fresh id, untrimmed title and description, status OPEN, the defaulted priority and both timestamps `now` |
| CreateTicket.OverlongTitleIsRefusedByTheEntity | backend/src/application/use-cases/CreateTicketUseCase.ts:18-27 | a 201-character title passes the request check but is refused by the entity with the title-length message |
| CreateTicket.Execute | backend/src/application/use-cases/CreateTicketUseCase.ts:16-34 | a refused request or entity leaves the table unchanged and returns that error; a taken id leaves it unchanged; otherwise exactly one record is added under the fresh id and the response is the saved ticket's |
| GetTickets.PresentAll | backend/src/application/use-cases/GetTicketsUseCase.ts:21 | one response per ticket, in the same order, each its `toDTO` |
| GetTickets.Execute | backend/src/application/use-cases/GetTicketsUseCase.ts:12-22 | reads only: it returns the read's error, or one response per ticket read; with a filter every response has that status; without one there is a response per stored record |
| UpdateTicketStatus.Admit | backend/src/application/use-cases/UpdateTicketStatusUseCase.ts:16-27 | an unknown id gives `NotFoundError` ("Ticket with id … not found") and only then; the update is admitted iff the record loads and the transition is allowed; a record that fails to load gives its validation error; a refused transition names both statuses |
| UpdateTicketStatus.UpdatedRecordLoads | backend/src/application/use-cases/UpdateTicketStatusUseCase.ts:30 | the record written by the update loads as the existing ticket with the new status and `updatedAt` |
| UpdateTicketStatus.Execute | backend/src/application/use-cases/UpdateTicketStatusUseCase.ts:14-34 | not found, a stored record that fails validation, or a refused transition returns that error and writes nothing; otherwise only that record's status and `updatedAt` change, no record is added, and the response is built from the record the store returns |
| UpdateTicketStatus.ClosedRecordRefusesEveryUpdate | backend/src/application/use-cases/UpdateTicketStatusUseCase.ts:23-27 | for a stored CLOSED ticket every requested status is refused with the transition message |
| Scenarios.DefaultRequest | backend/src/application/use-cases/CreateTicketUseCase.ts:21-27 | a valid request without priority stands for an OPEN, MEDIUM ticket with both timestamps `now` |
| Scenarios.CreateWithDefaults | backend/src/application/use-cases/CreateTicketUseCase.ts:16-34 | creating in an empty table stores exactly that OPEN, MEDIUM ticket and answers with its response |
| Scenarios.RefuseBlankTitle | backend/src/application/use-cases/CreateTicketUseCase.ts:36-39 | a request with an empty title fails with "Title is required" and the table is unchanged |
| Scenarios.Step | backend/src/application/use-cases/UpdateTicketStatusUseCase.ts:23-33 | an allowed transition of a stored valid ticket succeeds, stores the ticket with the new status and time, and answers with it |
| Scenarios.WalkToClosed | backend/src/application/use-cases/UpdateTicketStatusUseCase.ts:23-30 | OPEN→IN_PROGRESS→RESOLVED→CLOSED succeeds step by step, each response carrying the new status |
| Scenarios.RefusalsAfterClosing | backend/src/application/use-cases/UpdateTicketStatusUseCase.ts:16-27 | after CLOSED, a request for OPEN fails with the transition message, an unknown id fails with `NotFoundError`, and nothing is written |

## Left out

- HTTP framing is not modelled: the Lambda handlers, body parsing (base64, JSON), the status checks of the update and listing handlers, CORS and the response helpers. Only the handlers' mapping of errors to status codes is modelled (`Errors`).
- The store client is not modelled: the command objects, the index name, pagination (the scan and the status query are each taken to return every matching record in one page), network failures and throttling. The table is an in-memory map.
- Scan and query order are fixed as insertion order. The store promises no particular order.
- UUID generation is a `freshId` parameter. The store's conditional put is modelled on a taken id, so `CreateTicket.Execute` needs no freshness precondition.
- The clock is a `now` parameter. `toISOString` is `Iso(instant)`, whose ISO 8601 text is not spelled out, and a stored date string is taken to parse back to the same instant. So the table cannot hold a malformed timestamp.
- Concurrency is not modelled, including the window between the lookup and the write of an update (last writer wins).
- The frontend is not modelled.
- TicketTable.Table.UpdateStatus: requires the id to be present. The store's upsert on a missing key and the "Failed to update ticket" branch (no returned attributes) are not modelled, because the only caller looks the id up first.
- An `undefined` `createdBy` is `None`. How the store client marshals it is not modelled.
- Priorities outside the enum are kept as the request gives them (`UnrecognisedPriority`), except the empty string, which becomes MEDIUM like a missing priority. Nothing checks a priority, the handlers included, so any other priority string is stored and sent back.
- TicketEntity.UpdateStatus: checks the transition with the corrected lookup. When the current status names an `Object.prototype` member (say "toString"), it refuses with a plain `Error` naming both statuses, while the code throws a TypeError (see Findings). Both end as a 500 at the handler.
- TicketEntity.CanTransitionTo: uses the corrected lookup. When the ticket's status names an `Object.prototype` member (say "toString"), it returns `false`, while the code throws a TypeError (see Findings).
- UpdateTicketStatus.Admit: uses the corrected lookup too. A stored status such as "toString" gives the plain-`Error` refusal instead of the code's TypeError.
- UpdateTicketStatus.Execute: inherits the corrected lookup from `Admit`, with the same difference for `Object.prototype` status names.
- Strings that hold a lone UTF-16 surrogate (JSON can carry `"\ud800"`) are not representable, because a Dafny `char` is a Unicode scalar value. In JavaScript such a character counts as one unit of `length` and is not trimmed.
- The entity does not enforce `updatedAt >= createdAt`, so neither does the model.
- The title message says "less than 200 characters", but a title of exactly 200 units is accepted. The model keeps the code's check and its message.
- Blank fields and refused transitions are plain `Error`s, so the handlers answer 500 for them, not 400. The model follows the code here.
- `ValidationError` is never constructed by the core, so it has no variant.

## Findings

| source | as written | input that shows it | evidently intended | confidence | as-written member | corrected member |
|---|---|---|---|---|---|---|
| backend/src/domain/value-objects/TicketStatus.ts:27 | `validTransitions[currentStatus]?.includes(newStatus) ?? false` on a plain object literal: a current status naming an `Object.prototype` member finds an inherited function, which has no `includes`, so the call throws a TypeError | a stored record with status "toString" (or "constructor", "valueOf", …), then any status update on it | an unrecognised current status gives `false` | not executed | StatusPolicy.AsWrittenThrowsOnInheritedName | StatusPolicy.UnrecognisedGivesFalse |
