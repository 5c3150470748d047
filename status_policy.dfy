/** The ticket status workflow: the four statuses and the fixed table of
    the transitions allowed between them. */
module StatusPolicy {
  import opened Wrappers

  /** A status as it exists at run time. The enum has four members, but a
      status read back from the table is an unchecked cast of a stored
      string, so any other string can appear as well. */
  datatype Status = Open | InProgress | Resolved | Closed | Unrecognised(raw: string)

  /** The string values of the four enum members. */
  predicate IsStatusName(n: string)
  {
    n == "OPEN" || n == "IN_PROGRESS" || n == "RESOLVED" || n == "CLOSED"
  }

  /** One value per string: a string naming an enum member is that member,
      never `Unrecognised`. */
  type TicketStatus = s: Status | s.Unrecognised? ==> !IsStatusName(s.raw) witness Open

  /** The string a status is at run time (what is stored and sent). */
  function Name(s: TicketStatus): string
  {
    match s
    case Open => "OPEN"
    case InProgress => "IN_PROGRESS"
    case Resolved => "RESOLVED"
    case Closed => "CLOSED"
    case Unrecognised(raw) => raw
  }

  /** `n as TicketStatus`: the status a stored string is taken to be. */
  function FromName(n: string): (s: TicketStatus)
    ensures Name(s) == n
    ensures s.Unrecognised? <==> !IsStatusName(n)
  {
    if n == "OPEN" then Open
    else if n == "IN_PROGRESS" then InProgress
    else if n == "RESOLVED" then Resolved
    else if n == "CLOSED" then Closed
    else Unrecognised(n)
  }

  /** Storing a status and reading it back gives the same status, so
      `Name` is injective. */
  lemma FromNameOfName(s: TicketStatus)
    ensures FromName(Name(s)) == s
  {
  }

  /** The table `validTransitions`: the list of statuses each enum member
      may move to; `None` for a string that is not one of its own keys. */
  function AllowedNext(s: TicketStatus): Option<seq<TicketStatus>>
  {
    match s
    case Open => Some([InProgress, Closed])
    case InProgress => Some([Resolved, Closed])
    case Resolved => Some([Closed])
    case Closed => Some([])
    case Unrecognised(_) => None
  }

  /** `isValidStatusTransition`: `next` is in the list of `current`, and a
      current status with no list gives `false`. */
  function IsValidTransition(current: TicketStatus, next: TicketStatus): (r: bool)
    ensures r ==> !current.Unrecognised? && !next.Unrecognised? && current != next
    ensures r ==> current != Closed && next != Open
  {
    match AllowedNext(current)
    case Some(allowed) => next in allowed
    case None => false
  }

  /** The allowed transitions are exactly these five pairs. */
  lemma TransitionsAreExactly(current: TicketStatus, next: TicketStatus)
    ensures IsValidTransition(current, next) <==>
      (current == Open && (next == InProgress || next == Closed)) ||
      (current == InProgress && (next == Resolved || next == Closed)) ||
      (current == Resolved && next == Closed)
  {
  }

  /** CLOSED is terminal: nothing, CLOSED itself included, follows it. */
  lemma ClosedIsTerminal(next: TicketStatus)
    ensures !IsValidTransition(Closed, next)
  {
  }

  /** No status is a transition to itself. */
  lemma NoSelfTransition(s: TicketStatus)
    ensures !IsValidTransition(s, s)
  {
  }

  /** Each of OPEN, IN_PROGRESS and RESOLVED may go straight to CLOSED. */
  lemma EveryActiveStatusMayClose(s: TicketStatus)
    requires s != Closed && !s.Unrecognised?
    ensures IsValidTransition(s, Closed)
  {
  }

  /** A current status outside the enum gives `false`, whatever is asked. */
  lemma UnrecognisedGivesFalse(raw: string, next: TicketStatus)
    requires !IsStatusName(raw)
    ensures !IsValidTransition(Unrecognised(raw), next)
  {
  }

  /** Position in the workflow OPEN < IN_PROGRESS < RESOLVED < CLOSED. */
  function Rank(s: TicketStatus): int
  {
    match s
    case Open => 0
    case InProgress => 1
    case Resolved => 2
    case Closed => 3
    case Unrecognised(_) => -1
  }

  /** Every allowed transition moves strictly later in the workflow, and
      only between enum members. */
  lemma TransitionRaisesRank(current: TicketStatus, next: TicketStatus)
    requires IsValidTransition(current, next)
    ensures 0 <= Rank(current) < Rank(next) <= 3
  {
  }

  /** A sequence of statuses each of which may follow the one before: the
      history of one ticket. */
  predicate IsWalk(w: seq<TicketStatus>)
  {
    forall i :: 0 <= i < |w| - 1 ==> IsValidTransition(w[i], w[i + 1])
  }

  /** Each step of a walk raises the rank by at least one. */
  lemma {:induction false} WalkRaisesRank(w: seq<TicketStatus>)
    requires IsWalk(w) && |w| >= 2
    ensures 0 <= Rank(w[0]) && Rank(w[0]) + |w| - 1 <= Rank(w[|w| - 1]) <= 3
  {
    TransitionRaisesRank(w[0], w[1]);
    if |w| > 2 {
      assert IsWalk(w[1..]);
      WalkRaisesRank(w[1..]);
    }
  }

  /** The graph is acyclic: a ticket never comes back to a status it left. */
  lemma WalkNeverRevisits(w: seq<TicketStatus>, i: nat, j: nat)
    requires IsWalk(w) && i < j < |w|
    ensures w[i] != w[j]
  {
    var part := w[i..j + 1];
    assert IsWalk(part);
    WalkRaisesRank(part);
  }

  /** No ticket passes through more than the four statuses of the workflow. */
  lemma WalkHasAtMostFourStatuses(w: seq<TicketStatus>)
    requires IsWalk(w)
    ensures |w| <= 4
  {
    if |w| >= 2 {
      WalkRaisesRank(w);
    }
  }

  /** The full workflow OPEN, IN_PROGRESS, RESOLVED, CLOSED is a walk, and
      no transition leads back to OPEN once it is over. */
  lemma FullWorkflow()
    ensures IsWalk([Open, InProgress, Resolved, Closed])
    ensures !IsWalk([Open, InProgress, Resolved, Closed, Open])
  {
    var w := [Open, InProgress, Resolved, Closed, Open];
    assert !IsValidTransition(w[3], w[4]);
  }

  // ---------------------------------------------------------------------
  // The lookup as written. `validTransitions` is a plain object literal, so
  // `validTransitions[current]` also finds the members every object
  // inherits from `Object.prototype`. For those names the value is a
  // function (or the prototype object itself), which has no `includes`
  // method; `?.` only guards against `undefined` and `null`, so the call
  // throws a TypeError instead of reaching `?? false`.

  /** Names a plain object literal answers for through its prototype. */
  predicate IsObjectPrototypeKey(n: string)
  {
    n in {"constructor", "__proto__", "__defineGetter__", "__defineSetter__",
          "__lookupGetter__", "__lookupSetter__", "hasOwnProperty",
          "isPrototypeOf", "propertyIsEnumerable", "toLocaleString",
          "toString", "valueOf"}
  }

  /** What `validTransitions[current]` evaluates to. */
  datatype Property = Undefined | Allowed(list: seq<TicketStatus>) | Inherited

  function PropertyAsWritten(current: TicketStatus): Property
  {
    match AllowedNext(current)
    case Some(list) => Allowed(list)
    case None => if IsObjectPrototypeKey(Name(current)) then Inherited else Undefined
  }

  /** `isValidStatusTransition` as written: `None` stands for the TypeError. */
  function IsValidTransitionAsWritten(current: TicketStatus, next: TicketStatus): (r: Option<bool>)
    ensures r.None? <==> current.Unrecognised? && IsObjectPrototypeKey(current.raw)
    ensures r.Some? && r.value ==> !current.Unrecognised? && current != Closed
  {
    match PropertyAsWritten(current)
    case Undefined => Some(false)
    case Allowed(list) => Some(next in list)
    case Inherited => None
  }

  /** A stored status of "toString" makes the lookup throw rather than
      answer `false`. */
  lemma AsWrittenThrowsOnInheritedName()
    ensures IsValidTransitionAsWritten(Unrecognised("toString"), Open) == None
    ensures !IsValidTransition(Unrecognised("toString"), Open)
  {
  }

  /** On every other current status the code as written answers what
      `IsValidTransition` answers. */
  lemma AsWrittenAgreesOtherwise(current: TicketStatus, next: TicketStatus)
    requires !(current.Unrecognised? && IsObjectPrototypeKey(current.raw))
    ensures IsValidTransitionAsWritten(current, next) == Some(IsValidTransition(current, next))
  {
  }
}
