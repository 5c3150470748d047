/** The request and response shapes of the use cases, and the two
    `toDTO` conversions from a ticket to a response. */
module Responses {
  import opened Wrappers
  import opened StatusPolicy
  import Priority
  import opened TicketEntity

  /** The create request as parsed from the body. The request type declares
      title and description, but the handler does not check that a client
      sent them; `CreateTicket.CheckRequest` does. */
  datatype CreateTicketRequest = CreateTicketRequest(
    title: Option<string>,
    description: Option<string>,
    priority: Option<Priority.TicketPriority>,
    createdBy: Option<string>)

  /** A timestamp in a response, a string on the wire. `Iso(instant)` is
      what `toISOString` gives for that instant (its ISO 8601 text is not
      spelled out); `Verbatim(text)` is a string passed through as it was. */
  datatype TimeText = Iso(instant: int) | Verbatim(text: string)

  /** `TicketResponseDTO`. */
  datatype TicketResponse = TicketResponse(
    id: string,
    title: string,
    description: string,
    status: TicketStatus,
    priority: Priority.TicketPriority,
    createdAt: TimeText,
    updatedAt: TimeText,
    createdBy: Option<string>)

  /** The create use case's `toDTO`: every field copied, both timestamps
      serialised. */
  function ResponseOf(t: Ticket): (d: TicketResponse)
    ensures d.id == t.id && d.title == t.title && d.description == t.description
    ensures d.status == t.status && d.priority == t.priority && d.createdBy == t.createdBy
    ensures d.createdAt == Iso(t.createdAt) && d.updatedAt == Iso(t.updatedAt)
  {
    TicketResponse(t.id, t.title, t.description, t.status, t.priority,
                   Iso(t.createdAt), Iso(t.updatedAt), t.createdBy)
  }

  /** A timestamp as the listing's `toDTO` receives it: the parameter is
      untyped, so a field may be a `Date` or an already serialised string. */
  datatype TimeValue = DateValue(instant: int) | TextValue(text: string)

  /** The untyped record the listing's and the update's `toDTO` read. */
  datatype TicketRecord = TicketRecord(
    id: string,
    title: string,
    description: string,
    status: TicketStatus,
    priority: Priority.TicketPriority,
    createdAt: TimeValue,
    updatedAt: TimeValue,
    createdBy: Option<string>)

  /** A ticket entity as handed to that `toDTO`: its timestamps are `Date`s. */
  function AsRecord(t: Ticket): TicketRecord
  {
    TicketRecord(t.id, t.title, t.description, t.status, t.priority,
                 DateValue(t.createdAt), DateValue(t.updatedAt), t.createdBy)
  }

  /** `v instanceof Date ? v.toISOString() : v`. */
  function Normalise(v: TimeValue): (r: TimeText)
    ensures v.DateValue? ==> r == Iso(v.instant)
    ensures v.TextValue? ==> r == Verbatim(v.text)
  {
    match v
    case DateValue(instant) => Iso(instant)
    case TextValue(text) => Verbatim(text)
  }

  /** The `toDTO` of the listing and update use cases (the two are the
      same code): identity fields copied, timestamps normalised. */
  function Present(v: TicketRecord): (d: TicketResponse)
    ensures d.id == v.id && d.title == v.title && d.description == v.description
    ensures d.status == v.status && d.priority == v.priority && d.createdBy == v.createdBy
    ensures d.createdAt == Normalise(v.createdAt) && d.updatedAt == Normalise(v.updatedAt)
  {
    TicketResponse(v.id, v.title, v.description, v.status, v.priority,
                   Normalise(v.createdAt), Normalise(v.updatedAt), v.createdBy)
  }

  /** On a ticket entity the two `toDTO`s agree: the listing's tolerance of
      string timestamps changes nothing for what the repository returns. */
  lemma PresentAgreesWithResponseOf(t: Ticket)
    ensures Present(AsRecord(t)) == ResponseOf(t)
    ensures Present(AsRecord(t)).createdAt == Iso(t.createdAt)
  {
  }

  /** The listing's `toDTO` is a field copy that loses nothing: from the
      response and the knowledge that the timestamps were dates, the ticket
      is recovered. */
  lemma PresentIsInjectiveOnTickets(t1: Ticket, t2: Ticket)
    requires Present(AsRecord(t1)) == Present(AsRecord(t2))
    ensures t1 == t2
  {
  }
}
