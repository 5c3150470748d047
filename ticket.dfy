/** The ticket entity: an immutable record that is validated every time
    one is built, created in OPEN and changed only by a status transition
    that yields a new record. */
module TicketEntity {
  import opened Wrappers
  import opened Errors
  import opened Text
  import opened StatusPolicy
  import Priority

  const MaxTitleLength: nat := 200
  const MaxDescriptionLength: nat := 2000

  /** Timestamps are milliseconds since the epoch; `createdBy` is optional. */
  datatype Ticket = Ticket(
    id: string,
    title: string,
    description: string,
    status: TicketStatus,
    priority: Priority.TicketPriority,
    createdAt: int,
    updatedAt: int,
    createdBy: Option<string>)

  /** `validate`: the checks in the order the constructor runs them, giving
      the message of the first one that fails. Lengths are those of the
      untrimmed strings. */
  function Violation(id: string, title: string, description: string): (r: Option<string>)
    ensures r.None? <==> ValidFields(id, title, description)
  {
    if TrimsToEmpty(id) then Some("Ticket ID is required")
    else if TrimsToEmpty(title) then Some("Ticket title is required")
    else if Utf16Length(title) > MaxTitleLength then Some("Ticket title must be less than 200 characters")
    else if TrimsToEmpty(description) then Some("Ticket description is required")
    else if Utf16Length(description) > MaxDescriptionLength then Some("Ticket description must be less than 2000 characters")
    else None
  }

  /** The rule those checks enforce: id, title and description each hold a
      character `trim` keeps; the title is at most 200 and the description
      at most 2000 UTF-16 units long, both limits included. */
  predicate ValidFields(id: string, title: string, description: string)
  {
    !IsBlank(id) && !IsBlank(title) && !IsBlank(description)
    && Utf16Length(title) <= MaxTitleLength
    && Utf16Length(description) <= MaxDescriptionLength
  }

  predicate Valid(t: Ticket)
  {
    ValidFields(t.id, t.title, t.description)
  }

  /** `new Ticket(...)`: the record with exactly the given fields when they
      pass validation, otherwise a plain `Error`. */
  function New(id: string, title: string, description: string, status: TicketStatus,
               priority: Priority.TicketPriority, createdAt: int, updatedAt: int,
               createdBy: Option<string>): (r: Result<Ticket, Error>)
    ensures r.Ok? <==> ValidFields(id, title, description)
    ensures r.Ok? ==> r.value == Ticket(id, title, description, status, priority, createdAt, updatedAt, createdBy)
    ensures r.Err? ==> r.error.PlainError?
  {
    match Violation(id, title, description)
    case Some(message) => Err(PlainError(message))
    case None => Ok(Ticket(id, title, description, status, priority, createdAt, updatedAt, createdBy))
  }

  /** A blank field is reported before a length, and the id before the
      title before the description. */
  lemma ViolationOrder(id: string, title: string, description: string)
    ensures IsBlank(id) ==> Violation(id, title, description) == Some("Ticket ID is required")
    ensures !IsBlank(id) && IsBlank(title) ==> Violation(id, title, description) == Some("Ticket title is required")
    ensures !IsBlank(id) && !IsBlank(title) && Utf16Length(title) > MaxTitleLength
      ==> Violation(id, title, description) == Some("Ticket title must be less than 200 characters")
  {
  }

  /** The limits are inclusive: a title of exactly 200 units and a
      description of exactly 2000 units are accepted, one unit more is not. */
  lemma LengthLimitsAreInclusive(id: string, title: string, description: string)
    requires !IsBlank(id) && !IsBlank(title) && !IsBlank(description)
    ensures Utf16Length(title) == 200 && Utf16Length(description) <= 2000 ==> ValidFields(id, title, description)
    ensures Utf16Length(description) == 2000 && Utf16Length(title) <= 200 ==> ValidFields(id, title, description)
    ensures Utf16Length(title) == 201 || Utf16Length(description) == 2001 ==> !ValidFields(id, title, description)
  {
  }

  /** `Ticket.create`: status OPEN, both timestamps `now`, the other fields
      as given. */
  function Create(id: string, title: string, description: string,
                  priority: Priority.TicketPriority, createdBy: Option<string>, now: int): (r: Result<Ticket, Error>)
    ensures r.Ok? <==> ValidFields(id, title, description)
    ensures r.Ok? ==> r.value.status == Open && r.value.createdAt == now && r.value.updatedAt == now
    ensures r.Ok? ==> r.value.id == id && r.value.title == title && r.value.description == description
                      && r.value.priority == priority && r.value.createdBy == createdBy
  {
    New(id, title, description, Open, priority, now, now, createdBy)
  }

  /** `canTransitionTo`. */
  function CanTransitionTo(t: Ticket, next: TicketStatus): (r: bool)
    ensures r ==> t.status != Closed && next != t.status
  {
    IsValidTransition(t.status, next)
  }

  /** The message of a refused transition, naming both statuses. */
  function TransitionMessage(current: TicketStatus, next: TicketStatus): string
  {
    "Invalid status transition from " + Name(current) + " to " + Name(next)
  }

  /** `updateStatus`: a refused transition throws a plain `Error` naming
      both statuses; an allowed one yields a copy with the new status and
      `updatedAt = now`, which on a valid ticket always passes the
      re-validation of the constructor. */
  function UpdateStatus(t: Ticket, next: TicketStatus, now: int): (r: Result<Ticket, Error>)
    ensures !IsValidTransition(t.status, next) ==> r == Err(PlainError(TransitionMessage(t.status, next)))
    ensures Valid(t) ==> (r.Ok? <==> IsValidTransition(t.status, next))
    ensures r.Ok? ==> r.value == t.(status := next, updatedAt := now) && Valid(r.value)
  {
    if !CanTransitionTo(t, next) then Err(PlainError(TransitionMessage(t.status, next)))
    else New(t.id, t.title, t.description, next, t.priority, t.createdAt, now, t.createdBy)
  }

  /** An allowed transition of a valid ticket succeeds and changes only
      the status and `updatedAt`. */
  lemma AllowedStep(t: Ticket, next: TicketStatus, now: int)
    requires Valid(t) && IsValidTransition(t.status, next)
    ensures UpdateStatus(t, next, now) == Ok(t.(status := next, updatedAt := now))
    ensures Valid(t.(status := next, updatedAt := now))
  {
  }

  /** A ticket that reached CLOSED refuses every further status. */
  lemma ClosedTicketRefusesEverything(t: Ticket, next: TicketStatus, now: int)
    requires t.status == Closed
    ensures UpdateStatus(t, next, now) == Err(PlainError(TransitionMessage(Closed, next)))
  {
    ClosedIsTerminal(next);
  }

  /** A fresh ticket cannot jump from OPEN to RESOLVED. */
  lemma OpenCannotJumpToResolved(t: Ticket, now: int)
    requires t.status == Open
    ensures UpdateStatus(t, Resolved, now) == Err(PlainError("Invalid status transition from OPEN to RESOLVED"))
  {
    assert TransitionMessage(Open, Resolved) == "Invalid status transition from OPEN to RESOLVED";
  }
}
