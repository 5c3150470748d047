/** Listing tickets, all of them or those in one status. */
module GetTickets {
  import opened Wrappers
  import opened Errors
  import opened StatusPolicy
  import opened TicketEntity
  import opened TicketTable
  import opened Responses

  /** `if (status)`: a filter is applied when one is given and its string
      is not empty (the empty string is falsy). */
  predicate Filters(filter: Option<TicketStatus>)
  {
    filter.Some? && Name(filter.value) != ""
  }

  /** The keys the read visits: a query on the status index when the
      filter applies, the whole scan otherwise. */
  function Visited(items: map<string, Item>, order: seq<string>, filter: Option<TicketStatus>): (keys: seq<string>)
    requires forall k :: k in order ==> k in items
    ensures forall k :: k in keys ==> k in items
  {
    if Filters(filter) then WithStatus(items, order, filter.value) else order
  }

  /** `tickets.map(this.toDTO)`. */
  function PresentAll(ts: seq<Ticket>): (ds: seq<TicketResponse>)
    ensures |ds| == |ts|
    ensures forall i :: 0 <= i < |ts| ==> ds[i] == Present(AsRecord(ts[i]))
  {
    seq(|ts|, i requires 0 <= i < |ts| => Present(AsRecord(ts[i])))
  }

  /** `execute`: reads only. A record that fails validation fails the
      whole listing; otherwise one response per ticket the read returned,
      in the same order. With a filter, every response has that status;
      without one, there is a response for every stored record. */
  method Execute(table: Table, filter: Option<TicketStatus>) returns (r: Result<seq<TicketResponse>, Error>)
    requires table.Valid()
    ensures Load(table.items, Visited(table.items, table.order, filter)).Err? ==>
              r == Err(Load(table.items, Visited(table.items, table.order, filter)).error)
    ensures Load(table.items, Visited(table.items, table.order, filter)).Ok? ==>
              r == Ok(PresentAll(Load(table.items, Visited(table.items, table.order, filter)).value))
    ensures r.Ok? && Filters(filter) ==> forall d :: d in r.value ==> d.status == filter.value
    ensures r.Ok? && !Filters(filter) ==> |r.value| == |table.items|
  {
    var tickets: Result<seq<Ticket>, Error>;
    if Filters(filter) {
      tickets := table.FindByStatus(filter.value);
      if tickets.Ok? {
        QueryGivesOnlyThatStatus(table.items, table.order, filter.value);
      }
    } else {
      tickets := table.FindAll();
      if tickets.Ok? {
        ScanGivesEveryRecord(table.items, table.order);
      }
    }
    match tickets {
      case Err(e) => r := Err(e);
      case Ok(ts) => r := Ok(PresentAll(ts));
    }
  }
}
