/** The life of one ticket through the use cases: what a client can
    conclude from the contracts alone. */
module Scenarios {
  import opened Wrappers
  import opened Errors
  import opened StatusPolicy
  import Priority
  import opened TicketEntity
  import opened TicketTable
  import opened Responses
  import CreateTicket
  import UpdateTicketStatus

  /** The ticket a request without a priority stands for. */
  lemma DefaultRequest(id: string, title: string, description: string, now: int)
    requires ValidFields(id, title, description)
    ensures CreateTicket.TicketFor(CreateTicketRequest(Some(title), Some(description), None, None), id, now)
            == Ok(Ticket(id, title, description, Open, Priority.Medium, now, now, None))
  {
  }

  /** A request without a priority creates an OPEN ticket of priority
      MEDIUM, stored under the fresh id. */
  method CreateWithDefaults(id: string, title: string, description: string, now: int)
    returns (table: Table, created: Result<TicketResponse, Error>)
    requires ValidFields(id, title, description)
    ensures fresh(table) && table.Valid() && table.order == [id]
    ensures table.items == map[id := ToItem(Ticket(id, title, description, Open, Priority.Medium, now, now, None))]
    ensures created == Ok(ResponseOf(Ticket(id, title, description, Open, Priority.Medium, now, now, None)))
  {
    table := new Table(map[], []);
    var request := CreateTicketRequest(Some(title), Some(description), None, None);
    DefaultRequest(id, title, description, now);
    created := CreateTicket.Execute(table, request, id, now);
  }

  /** A request with a blank title is refused and stores nothing. */
  method RefuseBlankTitle(table: Table, id: string, description: Option<string>, now: int)
    returns (blank: Result<TicketResponse, Error>)
    requires table.Valid()
    modifies table
    ensures blank == Err(PlainError("Title is required"))
    ensures table.items == old(table.items) && table.order == old(table.order)
  {
    var request := CreateTicketRequest(Some(""), description, None, None);
    assert Text.TrimsToEmpty("");
    assert CreateTicket.CheckRequest(request) == Some(PlainError("Title is required"));
    blank := CreateTicket.Execute(table, request, id, now);
  }

  /** Moves the stored ticket `t` to `next` at `now`, when the policy allows it. */
  method Step(table: Table, t: Ticket, next: TicketStatus, now: int) returns (r: Result<TicketResponse, Error>)
    requires table.Valid() && Valid(t) && t.id in table.items && table.items[t.id] == ToItem(t)
    requires IsValidTransition(t.status, next)
    modifies table
    ensures table.Valid() && table.order == old(table.order)
    ensures table.items == old(table.items)[t.id := ToItem(t.(status := next, updatedAt := now))]
    ensures r == Ok(Present(AsRecord(t.(status := next, updatedAt := now))))
  {
    LoadAfterStore(t);
    r := UpdateTicketStatus.Execute(table, t.id, next, now);
  }

  /** Three writes to one key leave only the last. */
  lemma Overwritten<K, V>(m: map<K, V>, k: K, a: V, b: V, c: V)
    ensures m[k := a][k := b][k := c] == m[k := c]
  {
    assert m[k := a][k := b][k := c].Keys == m[k := c].Keys;
  }

  /** From OPEN a ticket moves to IN_PROGRESS, RESOLVED and CLOSED, one
      step at a time, each response carrying the new status and time. */
  method WalkToClosed(table: Table, t: Ticket, now: int) returns (steps: seq<Result<TicketResponse, Error>>)
    requires table.Valid() && Valid(t) && t.status == Open
    requires t.id in table.items && table.items[t.id] == ToItem(t)
    modifies table
    ensures table.Valid() && table.order == old(table.order)
    ensures table.items == old(table.items)[t.id := ToItem(t.(status := Closed, updatedAt := now + 2))]
    ensures |steps| == 3 && steps[0].Ok? && steps[1].Ok? && steps[2].Ok?
    ensures steps[0].value.status == InProgress && steps[1].value.status == Resolved
    ensures steps[2].value.status == Closed && steps[2].value.updatedAt == Iso(now + 2)
  {
    ghost var before := table.items;
    var t1, t2, t3 := t.(status := InProgress, updatedAt := now), t.(status := Resolved, updatedAt := now + 1),
                      t.(status := Closed, updatedAt := now + 2);
    var a := Step(table, t, InProgress, now);
    var b := Step(table, t1, Resolved, now + 1);
    var c := Step(table, t2, Closed, now + 2);
    Overwritten(before, t.id, ToItem(t1), ToItem(t2), ToItem(t3));
    steps := [a, b, c];
  }

  /** Once CLOSED, asking for OPEN fails and writes nothing; an unknown id
      fails with `NotFoundError`. */
  method RefusalsAfterClosing(table: Table, t: Ticket, unknownId: string, now: int)
    returns (reopen: Result<TicketResponse, Error>, unknown: Result<TicketResponse, Error>)
    requires table.Valid() && Valid(t) && t.status == Closed
    requires t.id in table.items && table.items[t.id] == ToItem(t) && unknownId !in table.items
    modifies table
    ensures table.items == old(table.items)
    ensures reopen == Err(PlainError(TransitionMessage(Closed, Open)))
    ensures unknown == Err(NotFoundError("Ticket with id " + unknownId + " not found"))
  {
    LoadAfterStore(t);
    UpdateTicketStatus.ClosedRecordRefusesEveryUpdate(table.items, t.id, Open);
    reopen := UpdateTicketStatus.Execute(table, t.id, Open, now);
    unknown := UpdateTicketStatus.Execute(table, unknownId, Resolved, now);
  }
}
