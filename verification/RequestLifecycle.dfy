/** The statuses of a rescue request and the transitions staff may ask for. */
module RequestLifecycle {
  import opened Wrappers

  datatype Status = SUBMITTED | TRIAGED | ASSIGNED | IN_PROGRESS | RESOLVED | CANCELLED

  predicate IsTerminal(s: Status) {
    s == RESOLVED || s == CANCELLED
  }

  function AllowedTransitions(s: Status): set<Status> {
    match s
    case SUBMITTED => {TRIAGED, ASSIGNED, CANCELLED}
    case TRIAGED => {ASSIGNED, CANCELLED}
    case ASSIGNED => {IN_PROGRESS, CANCELLED}
    case IN_PROGRESS => {RESOLVED, CANCELLED}
    case RESOLVED => {}
    case CANCELLED => {}
  }

  /** How far along its life a request is. */
  function Rank(s: Status): nat {
    match s
    case SUBMITTED => 0
    case TRIAGED => 1
    case ASSIGNED => 2
    case IN_PROGRESS => 3
    case RESOLVED => 4
    case CANCELLED => 4
  }

  /** Statuses in which some unit must be responsible for the request. */
  predicate NeedsUnit(s: Status) {
    s == ASSIGNED || s == IN_PROGRESS || s == RESOLVED
  }

  predicate Truthy(text: Option<string>) {
    text.Some? && text.value != ""
  }

  datatype Error = NotFound | Conflict | Validation | Backend

  /** None when the transition may go ahead. */
  function ValidateTransition(current: Status, target: Status): Option<Error> {
    if IsTerminal(current) then Some(Conflict)
    else if target !in AllowedTransitions(current) then Some(Conflict)
    else None
  }

  function ValidateRequirements(target: Status, unit: Option<string>, reason: Option<string>): Option<Error> {
    if target == ASSIGNED && !Truthy(unit) then Some(Validation)
    else if target == CANCELLED && !Truthy(reason) then Some(Validation)
    else None
  }

  /** The way of a request: one step on, straight from submission to assignment, or
      cancelled from anywhere. */
  predicate MayFollow(current: Status, target: Status) {
    target == CANCELLED || Rank(target) == Rank(current) + 1 || (current == SUBMITTED && target == ASSIGNED)
  }

  /** What staff may ask for, without the table. */
  lemma TransitionAllowedIff(current: Status, target: Status)
    ensures ValidateTransition(current, target).None? <==> !IsTerminal(current) && MayFollow(current, target)
    ensures ValidateTransition(current, target).Some? ==> ValidateTransition(current, target) == Some(Conflict)
  {
  }

  /** A request is over exactly in the two statuses of the last rank. */
  lemma TerminalIsLast(s: Status)
    ensures IsTerminal(s) <==> Rank(s) == 4
    ensures IsTerminal(s) <==> forall t :: ValidateTransition(s, t).Some?
  {
    assert !IsTerminal(s) ==> ValidateTransition(s, CANCELLED).None?;
  }
}
