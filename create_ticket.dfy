/** Creating a ticket: check the request, build the entity with a fresh id
    in OPEN, store it with a conditional put, answer with its response. */
module CreateTicket {
  import opened Wrappers
  import opened Errors
  import opened Text
  import opened StatusPolicy
  import Priority
  import opened TicketEntity
  import opened TicketTable
  import opened Responses

  /** `!s || s.trim().length === 0` on a field that may be missing. */
  predicate MissingOrBlank(field: Option<string>)
  {
    field.None? || TrimsToEmpty(field.value)
  }

  /** `validateDTO`: a missing or blank title is refused first, then a
      missing or blank description; both with a plain `Error`. Lengths are
      not checked here. */
  function CheckRequest(req: CreateTicketRequest): (r: Option<Error>)
    ensures r.None? <==> req.title.Some? && !IsBlank(req.title.value)
                         && req.description.Some? && !IsBlank(req.description.value)
    ensures r.Some? ==> r.value.PlainError?
    ensures MissingOrBlank(req.title) ==> r == Some(PlainError("Title is required"))
  {
    if MissingOrBlank(req.title) then Some(PlainError("Title is required"))
    else if MissingOrBlank(req.description) then Some(PlainError("Description is required"))
    else None
  }

  /** `dto.priority || DEFAULT_PRIORITY`: a missing priority gives MEDIUM,
      and so does the empty string, which is falsy; any other value is
      kept, including one outside the enum. */
  function PriorityOrDefault(p: Option<Priority.TicketPriority>): (r: Priority.TicketPriority)
    ensures p.None? ==> r == Priority.DefaultPriority
    ensures p.Some? && Priority.Name(p.value) != "" ==> r == p.value
    ensures p.Some? && Priority.Name(p.value) == "" ==> r == Priority.DefaultPriority
  {
    match p
    case Some(q) => if Priority.Name(q) == "" then Priority.DefaultPriority else q
    case None => Priority.DefaultPriority
  }

  /** The ticket `execute` builds before touching the table: the request
      check, then `Ticket.create` with the fresh id. The title and
      description are kept untrimmed, the status is OPEN whatever the
      client sent, and both timestamps are `now`. */
  function TicketFor(req: CreateTicketRequest, id: string, now: int): (r: Result<Ticket, Error>)
    ensures CheckRequest(req).Some? ==> r == Err(CheckRequest(req).value)
    ensures r.Ok? <==> CheckRequest(req).None? && ValidFields(id, req.title.value, req.description.value)
    ensures r.Ok? ==> r.value == Ticket(id, req.title.value, req.description.value, Open,
                                        PriorityOrDefault(req.priority), now, now, req.createdBy)
    ensures r.Err? ==> r.error.PlainError?
  {
    match CheckRequest(req)
    case Some(e) => Err(e)
    case None =>
      TicketEntity.Create(id, req.title.value, req.description.value,
                          PriorityOrDefault(req.priority), req.createdBy, now)
  }

  /** A title of 201 characters passes the request check and is refused
      by the entity. */
  lemma OverlongTitleIsRefusedByTheEntity(id: string, now: int)
    requires !IsBlank(id)
    ensures var req := CreateTicketRequest(Some(seq(201, _ => 'a')), Some("d"), None, None);
            CheckRequest(req).None? && TicketFor(req, id, now)
              == Err(PlainError("Ticket title must be less than 200 characters"))
  {
    var title := seq(201, _ => 'a');
    assert !IsTrimmable(title[0]);
    assert !IsTrimmable("d"[0]);
    Utf16LengthOfBmpText(title);
    assert !TrimsToEmpty(id);
  }

  /** `execute`. Nothing is written unless the request and the entity are
      valid; then the table gains exactly the new record under the fresh id,
      unless that id is taken, in which case the put's condition fails and
      the table is unchanged. The response is the saved ticket's. */
  method Execute(table: Table, req: CreateTicketRequest, freshId: string, now: int)
    returns (r: Result<TicketResponse, Error>)
    requires table.Valid()
    modifies table
    ensures table.Valid()
    ensures TicketFor(req, freshId, now).Err? ==>
              r == Err(TicketFor(req, freshId, now).error)
              && table.items == old(table.items) && table.order == old(table.order)
    ensures TicketFor(req, freshId, now).Ok? && freshId in old(table.items) ==>
              r == Err(ConditionalCheckFailed)
              && table.items == old(table.items) && table.order == old(table.order)
    ensures TicketFor(req, freshId, now).Ok? && freshId !in old(table.items) ==>
              var t := TicketFor(req, freshId, now).value;
              r == Ok(ResponseOf(t))
              && table.items == old(table.items)[freshId := ToItem(t)]
              && table.order == old(table.order) + [freshId]
  {
    var problem := CheckRequest(req);
    if problem.Some? {
      return Err(problem.value);
    }
    var ticket := TicketEntity.Create(freshId, req.title.value, req.description.value,
                                      PriorityOrDefault(req.priority), req.createdBy, now);
    if ticket.Err? {
      return Err(ticket.error);
    }
    var saved := table.Create(ticket.value);
    match saved {
      case Err(e) => r := Err(e);
      case Ok(t) => r := Ok(ResponseOf(t));
    }
  }
}
