/** Ticket priority: a label with no effect on the workflow. */
module Priority {

  /** As with statuses, a priority is a string at run time: the create
      request's `priority` is not checked against the enum. */
  datatype Priority = Low | Medium | High | Urgent | UnrecognisedPriority(raw: string)

  predicate IsPriorityName(n: string)
  {
    n == "LOW" || n == "MEDIUM" || n == "HIGH" || n == "URGENT"
  }

  /** One value per string. */
  type TicketPriority = p: Priority | p.UnrecognisedPriority? ==> !IsPriorityName(p.raw) witness Medium

  /** `DEFAULT_PRIORITY`. */
  const DefaultPriority: TicketPriority := Medium

  function Name(p: TicketPriority): string
  {
    match p
    case Low => "LOW"
    case Medium => "MEDIUM"
    case High => "HIGH"
    case Urgent => "URGENT"
    case UnrecognisedPriority(raw) => raw
  }

  /** `n as TicketPriority`. */
  function FromName(n: string): (p: TicketPriority)
    ensures Name(p) == n
    ensures p.UnrecognisedPriority? <==> !IsPriorityName(n)
  {
    if n == "LOW" then Low
    else if n == "MEDIUM" then Medium
    else if n == "HIGH" then High
    else if n == "URGENT" then Urgent
    else UnrecognisedPriority(n)
  }

  lemma FromNameOfName(p: TicketPriority)
    ensures FromName(Name(p)) == p
  {
  }
}
