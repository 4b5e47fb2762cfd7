/** Actors, task states, and the pure decisions on claiming, releasing and changing a task. */
module TaskRules {
  import opened Basics

  datatype ActorKind = Human | Agent | System
  type Id = s: string | s != "" witness "x"
  datatype Actor = Actor(kind: ActorKind, id: Id)

  /** What a claim reports as the holder when it finds none. */
  const UNKNOWN := Actor(System, "unknown")

  datatype Status = Todo | InProgress | InReview | Done | Closed

  function ParseStatus(s: string): Option<Status> {
    if s == "todo" then Some(Todo)
    else if s == "in_progress" then Some(InProgress)
    else if s == "in_review" then Some(InReview)
    else if s == "done" then Some(Done)
    else if s == "closed" then Some(Closed)
    else None
  }

  /** The name under which a status is stored and asked for. */
  function StatusName(x: Status): string {
    match x
    case Todo => "todo"
    case InProgress => "in_progress"
    case InReview => "in_review"
    case Done => "done"
    case Closed => "closed"
  }

  /** Exactly the five names are statuses, and each names its own. */
  lemma StatusRoundTrip(name: string, x: Status)
    ensures ParseStatus(name) == Some(x) <==> name == StatusName(x)
  {
  }

  datatype Task = Task(assignee: Option<Actor>, status: Status, system: bool)

  datatype ClaimResult = Claimed(assignee: Actor, status: Status) | AlreadyMine | Conflict(heldBy: Actor) | NotClaimable

  /** Taking a task starts it; a later status stays. */
  function Started(s: Status): Status {
    if s == Todo then InProgress else s
  }

  function DecideClaim(task: Task, claimant: Actor): ClaimResult {
    if task.system then NotClaimable
    else if task.assignee == None then Claimed(claimant, Started(task.status))
    else if task.assignee.value == claimant then AlreadyMine
    else Conflict(task.assignee.value)
  }

  datatype TaskDecision = Ok(status: Status) | Forbidden | Invalid | NotClaimed

  function DecideStatusUpdate(assignee: Option<Actor>, actor: Actor, next: string): TaskDecision {
    if ParseStatus(next) == None then Invalid
    else if actor.kind == Human then Ok(ParseStatus(next).value)
    else if assignee == Some(actor) then Ok(ParseStatus(next).value)
    else Forbidden
  }

  function DecideUnclaim(assignee: Option<Actor>, status: Status, actor: Actor): TaskDecision {
    if assignee == None then NotClaimed
    else if assignee.value != actor then Forbidden
    else Ok(if status == InProgress then Todo else status)
  }

  /** A released task that is claimed again has the status it would have had if it had been claimed as it was. */
  lemma ReclaimRestoresStatus(owner: Actor, status: Status, next: Actor)
    ensures var d := DecideUnclaim(Some(owner), status, owner);
            d.Ok? && DecideClaim(Task(None, d.status, false), next) == DecideClaim(Task(None, status, false), next)
  {
  }

  /** Who may reassign: anyone an unowned task, a human any task, the assignee its own. */
  predicate MayAssign(assignee: Option<Actor>, actor: Actor) {
    assignee == None || actor.kind == Human || assignee.value == actor
  }
}
