/** Moving a ticket to another status: look it up, ask the policy, then
    let the table update the record and answer with what it stored. */
module UpdateTicketStatus {
  import opened Wrappers
  import opened Errors
  import opened StatusPolicy
  import opened TicketEntity
  import opened TicketTable
  import opened Responses

  /** The message of the `NotFoundError`. */
  function NotFoundMessage(id: string): string
  {
    "Ticket with id " + id + " not found"
  }

  /** The outcome the checks before the write decide: the stored ticket
      when the update may go ahead, otherwise the error that stops it
      (not found, a record that fails validation, or a refused
      transition naming both statuses). */
  function Admit(items: map<string, Item>, id: string, next: TicketStatus): (r: Result<Ticket, Error>)
    ensures id !in items ==> r == Err(NotFoundError(NotFoundMessage(id)))
    ensures r.Err? && r.error.NotFoundError? ==> id !in items
    ensures r.Ok? <==> id in items && ToEntity(items[id]).Ok?
                       && IsValidTransition(ToEntity(items[id]).value.status, next)
    ensures r.Ok? ==> r.value == ToEntity(items[id]).value
    ensures id in items && ToEntity(items[id]).Err? ==> r == Err(ToEntity(items[id]).error)
    ensures id in items && ToEntity(items[id]).Ok? && !r.Ok? ==>
              var current := ToEntity(items[id]).value.status;
              r == Err(PlainError(TransitionMessage(current, next)))
  {
    if id !in items then Err(NotFoundError(NotFoundMessage(id)))
    else
      match ToEntity(items[id])
      case Err(e) => Err(e)
      case Ok(existing) =>
        if !CanTransitionTo(existing, next) then Err(PlainError(TransitionMessage(existing.status, next)))
        else Ok(existing)
  }

  /** The record the table holds after an admitted update loads as the
      existing ticket with the new status and `updatedAt`. */
  lemma UpdatedRecordLoads(item: Item, next: TicketStatus, now: int)
    requires ToEntity(item).Ok?
    ensures ToEntity(item.(status := Name(next), updatedAt := now))
            == Ok(ToEntity(item).value.(status := next, updatedAt := now))
  {
    FromNameOfName(next);
  }

  /** `execute`. An unknown id fails with `NotFoundError`, a refused
      transition with a plain `Error` naming both statuses, and neither
      writes anything. Otherwise exactly that record changes, only in its
      status and `updatedAt`; no record is added; and the response is built
      from the record the table returns after the write. */
  method Execute(table: Table, id: string, next: TicketStatus, now: int)
    returns (r: Result<TicketResponse, Error>)
    requires table.Valid()
    modifies table
    ensures table.Valid() && table.order == old(table.order)
    ensures Admit(old(table.items), id, next).Err? ==>
              r == Err(Admit(old(table.items), id, next).error) && table.items == old(table.items)
    ensures Admit(old(table.items), id, next).Ok? ==>
              table.items == old(table.items)[id := old(table.items)[id].(status := Name(next), updatedAt := now)]
              && r == Ok(Present(AsRecord(Admit(old(table.items), id, next).value.(status := next, updatedAt := now))))
    ensures r.Ok? ==> id in table.items && ToEntity(table.items[id]).Ok?
                      && r.value == Present(AsRecord(ToEntity(table.items[id]).value))
  {
    var found := table.FindById(id);
    if found.Err? {
      return Err(found.error);
    }
    if found.value.None? {
      return Err(NotFoundError(NotFoundMessage(id)));
    }
    var existing := found.value.value;
    if !CanTransitionTo(existing, next) {
      return Err(PlainError(TransitionMessage(existing.status, next)));
    }
    UpdatedRecordLoads(table.items[id], next, now);
    var updated := table.UpdateStatus(id, next, now);
    r := Ok(Present(AsRecord(updated.value)));
  }

  /** A ticket in CLOSED refuses every requested status, and the refusal
      leaves the table as it was. */
  lemma ClosedRecordRefusesEveryUpdate(items: map<string, Item>, id: string, next: TicketStatus)
    requires id in items && ToEntity(items[id]).Ok? && items[id].status == "CLOSED"
    ensures Admit(items, id, next) == Err(PlainError(TransitionMessage(Closed, next)))
  {
    assert ToEntity(items[id]).value.status == Closed;
    ClosedIsTerminal(next);
  }
}
