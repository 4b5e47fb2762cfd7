/**
 * The task operations of the server as sequences of database statements that interleave freely.
 * A row update is one atomic step; what an operation read earlier may be stale by then.
 */
module TaskProtocol {
  import opened Basics
  import opened TaskRules

  /**
   * An operation in flight: which statement it runs next and what it remembers. `at` is the number of
   * writes that had happened when it read the status from which it computed the next one.
   */
  datatype Op =
    | ClaimStart(task: string, who: Actor)
    | ClaimSelected(task: string, who: Actor, next: Status, at: nat)
    | ClaimMissed(task: string, who: Actor)
    | ClaimOver(task: string, who: Actor, result: ClaimResult)
    | UnclaimStart(task: string, who: Actor)
    | UnclaimReady(task: string, who: Actor, next: Status, at: nat)
    | StatusStart(task: string, who: Actor, wanted: string)
    | StatusReady(task: string, who: Actor, expected: Option<Actor>, next: Status)
    | AssignStart(task: string, who: Actor, to: Actor)
    | AssignReady(task: string, who: Actor, to: Actor)
    | AssignSelected(task: string, who: Actor, to: Actor, next: Status, at: nat)
    | Over(task: string, who: Actor, ok: bool)
  {
    predicate Starting() { ClaimStart? || UnclaimStart? || StatusStart? || AssignStart? }
    predicate Finished() { ClaimOver? || Over? }
  }

  /** A successful write: the assignee that the row had at that instant, and the status that it left. */
  datatype Event =
    | TaskClaimed(op: nat, task: string, who: Actor, before: Option<Actor>, status: Status, at: nat)
    | TaskReleased(op: nat, task: string, who: Actor, before: Option<Actor>, status: Status, at: nat)
    | TaskAssigned(op: nat, task: string, who: Actor, before: Option<Actor>, status: Status, at: nat, to: Actor)
    | StatusSet(op: nat, task: string, who: Actor, before: Option<Actor>, status: Status, expected: Option<Actor>)

  datatype State = State(tasks: map<string, Task>, ops: map<nat, Op>, hist: seq<Event>)

  const INIT := State(map[], map[], [])

  datatype Step = Create(task: string, system: bool) | Begin(id: nat, op: Op) | Advance(id: nat)

  ghost predicate Enabled(s: State, step: Step) {
    match step
    case Create(t, _) => t !in s.tasks
    case Begin(id, op) => id !in s.ops && op.Starting()
    case Advance(id) => id in s.ops && !s.ops[id].Finished()
  }

  function Goto(s: State, id: nat, op: Op): State {
    s.(ops := s.ops[id := op])
  }

  function Write(s: State, id: nat, op: Op, row: Task, e: Event): State {
    State(s.tasks[op.task := row], s.ops[id := op], s.hist + [e])
  }

  /** `tasks.claim`: select, conditional update where nobody is assigned, select again on a miss. */
  function AdvanceClaim(s: State, id: nat, op: Op): State
    requires op.ClaimStart? || op.ClaimSelected? || op.ClaimMissed?
  {
    var t, w := op.task, op.who;
    match op
    case ClaimStart(_, _) =>
      if t !in s.tasks || s.tasks[t].system then Goto(s, id, ClaimOver(t, w, NotClaimable))
      else if s.tasks[t].assignee == Some(w) then Goto(s, id, ClaimOver(t, w, AlreadyMine))
      else Goto(s, id, ClaimSelected(t, w, Started(s.tasks[t].status), |s.hist|))
    case ClaimSelected(_, _, next, at) =>
      if t in s.tasks && s.tasks[t].assignee == None then
        Write(s, id, ClaimOver(t, w, Claimed(w, next)), s.tasks[t].(assignee := Some(w), status := next),
              TaskClaimed(id, t, w, s.tasks[t].assignee, next, at))
      else Goto(s, id, ClaimMissed(t, w))
    case ClaimMissed(_, _) =>
      var held := if t in s.tasks && s.tasks[t].assignee.Some? then s.tasks[t].assignee.value else UNKNOWN;
      Goto(s, id, ClaimOver(t, w, if held == w then AlreadyMine else Conflict(held)))
  }

  /** `unclaim`: read and decide, then update where the actor is still the assignee. */
  function AdvanceUnclaim(s: State, id: nat, op: Op): State
    requires op.UnclaimStart? || op.UnclaimReady?
  {
    var t, w := op.task, op.who;
    if t !in s.tasks then Goto(s, id, Over(t, w, false))
    else
      var row := s.tasks[t];
      match op
      case UnclaimStart(_, _) =>
        var d := DecideUnclaim(row.assignee, row.status, w);
        Goto(s, id, if d.Ok? then UnclaimReady(t, w, d.status, |s.hist|) else Over(t, w, false))
      case UnclaimReady(_, _, next, at) =>
        if row.assignee == Some(w) then
          Write(s, id, Over(t, w, true), row.(assignee := None, status := next),
                TaskReleased(id, t, w, row.assignee, next, at))
        else Goto(s, id, Over(t, w, false))
  }

  /** `updateStatus`: read and decide, then update where the assignee is still the one that was read. */
  function AdvanceStatus(s: State, id: nat, op: Op): State
    requires op.StatusStart? || op.StatusReady?
  {
    var t, w := op.task, op.who;
    if t !in s.tasks then Goto(s, id, Over(t, w, false))
    else
      var row := s.tasks[t];
      match op
      case StatusStart(_, _, wanted) =>
        var d := DecideStatusUpdate(row.assignee, w, wanted);
        Goto(s, id, if d.Ok? then StatusReady(t, w, row.assignee, d.status) else Over(t, w, false))
      case StatusReady(_, _, expected, next) =>
        if row.assignee == expected then
          Write(s, id, Over(t, w, true), row.(status := next), StatusSet(id, t, w, row.assignee, next, expected))
        else Goto(s, id, Over(t, w, false))
  }

  /** `assign`: read and check permission, select and check the status, then update unconditionally. */
  function AdvanceAssign(s: State, id: nat, op: Op): State
    requires op.AssignStart? || op.AssignReady? || op.AssignSelected?
  {
    var t, w := op.task, op.who;
    if t !in s.tasks then Goto(s, id, Over(t, w, false))
    else
      var row := s.tasks[t];
      match op
      case AssignStart(_, _, to) =>
        Goto(s, id, if !row.system && MayAssign(row.assignee, w) then AssignReady(t, w, to) else Over(t, w, false))
      case AssignReady(_, _, to) =>
        Goto(s, id, if row.system || row.status == Done then Over(t, w, false)
                    else AssignSelected(t, w, to, Started(row.status), |s.hist|))
      case AssignSelected(_, _, to, next, at) =>
        Write(s, id, Over(t, w, true), row.(assignee := Some(to), status := next),
              TaskAssigned(id, t, w, row.assignee, next, at, to))
  }

  function AdvanceOp(s: State, id: nat, op: Op): State {
    if op.ClaimStart? || op.ClaimSelected? || op.ClaimMissed? then AdvanceClaim(s, id, op)
    else if op.UnclaimStart? || op.UnclaimReady? then AdvanceUnclaim(s, id, op)
    else if op.StatusStart? || op.StatusReady? then AdvanceStatus(s, id, op)
    else if op.AssignStart? || op.AssignReady? || op.AssignSelected? then AdvanceAssign(s, id, op)
    else s
  }

  ghost function Next(s: State, step: Step): State
    requires Enabled(s, step)
  {
    match step
    case Create(t, system) => s.(tasks := s.tasks[t := Task(None, Todo, system)])
    case Begin(id, op) => Goto(s, id, op)
    case Advance(id) => AdvanceOp(s, id, s.ops[id])
  }

  ghost predicate Runs(s: State, steps: seq<Step>)
    decreases |steps|
  {
    steps == [] || (Enabled(s, steps[0]) && Runs(Next(s, steps[0]), steps[1..]))
  }

  ghost function Exec(s: State, steps: seq<Step>): State
    requires Runs(s, steps)
    decreases |steps|
  {
    if steps == [] then s else Exec(Next(s, steps[0]), steps[1..])
  }

  // ---- the assignee is what the history says ----

  function After(e: Event): Option<Actor> {
    match e
    case TaskClaimed(_, _, who, _, _, _) => Some(who)
    case TaskReleased(_, _, _, _, _, _) => None
    case TaskAssigned(_, _, _, _, _, _, to) => Some(to)
    case StatusSet(_, _, _, before, _, _) => before
  }

  function Owner(hist: seq<Event>, t: string): Option<Actor> {
    if hist == [] then None
    else if hist[|hist| - 1].task == t then After(hist[|hist| - 1])
    else Owner(hist[..|hist| - 1], t)
  }

  /** What each successful write found in the row. */
  ghost predicate Lawful(e: Event) {
    match e
    case TaskClaimed(_, _, _, before, _, _) => before == None
    case TaskReleased(_, _, who, before, _, _) => before == Some(who)
    case TaskAssigned(_, _, _, _, _, _, _) => true
    case StatusSet(_, _, who, before, _, expected) => before == expected && (who.kind != Human ==> before == Some(who))
  }

  ghost predicate Chain(hist: seq<Event>) {
    hist == [] ||
    (var e, init := hist[|hist| - 1], hist[..|hist| - 1];
     Chain(init) && Lawful(e) && e.before == Owner(init, e.task))
  }

  ghost predicate OpInv(s: State, op: Op) {
    && (op.ClaimSelected? || op.ClaimMissed? ==> op.task in s.tasks && !s.tasks[op.task].system)
    && (op.StatusReady? && op.who.kind != Human ==> op.expected == Some(op.who))
  }

  ghost predicate Inv(s: State) {
    && Chain(s.hist)
    && (forall t :: t in s.tasks ==> s.tasks[t].assignee == Owner(s.hist, t))
    && (forall t :: t !in s.tasks ==> Owner(s.hist, t) == None)
    && (forall id :: id in s.ops ==> OpInv(s, s.ops[id]))
  }

  lemma GotoKeepsInv(s: State, id: nat, op: Op)
    requires Inv(s) && OpInv(s, op)
    ensures Inv(Goto(s, id, op))
  {
    var s' := Goto(s, id, op);
    forall i | i in s'.ops ensures OpInv(s', s'.ops[i]) {
      if i != id {
        assert OpInv(s, s.ops[i]);
      }
    }
  }

  lemma UnclaimKeepsInv(s: State, id: nat, op: Op)
    requires Inv(s) && id in s.ops && s.ops[id] == op && (op.UnclaimStart? || op.UnclaimReady?)
    ensures Inv(AdvanceUnclaim(s, id, op))
  {
    var s', t, w := AdvanceUnclaim(s, id, op), op.task, op.who;
    if op.UnclaimReady? && t in s.tasks && s.tasks[t].assignee == Some(w) {
    } else {
      GotoKeepsInv(s, id, s'.ops[id]);
    }
  }

  lemma StatusKeepsInv(s: State, id: nat, op: Op)
    requires Inv(s) && id in s.ops && s.ops[id] == op && (op.StatusStart? || op.StatusReady?)
    ensures Inv(AdvanceStatus(s, id, op))
  {
    var s', t, w := AdvanceStatus(s, id, op), op.task, op.who;
    assert OpInv(s, op);
    if op.StatusReady? && t in s.tasks && s.tasks[t].assignee == op.expected {
    } else {
      GotoKeepsInv(s, id, s'.ops[id]);
    }
  }

  lemma AssignKeepsInv(s: State, id: nat, op: Op)
    requires Inv(s) && id in s.ops && s.ops[id] == op
    requires op.AssignStart? || op.AssignReady? || op.AssignSelected?
    ensures Inv(AdvanceAssign(s, id, op))
  {
    var s', t, w := AdvanceAssign(s, id, op), op.task, op.who;
    if op.AssignSelected? && t in s.tasks {
    } else {
      GotoKeepsInv(s, id, s'.ops[id]);
    }
  }

  lemma CreateKeepsInv(s: State, t: string, system: bool)
    requires Inv(s) && t !in s.tasks
    ensures Inv(s.(tasks := s.tasks[t := Task(None, Todo, system)]))
  {
    var s' := s.(tasks := s.tasks[t := Task(None, Todo, system)]);
    forall i | i in s'.ops ensures OpInv(s', s'.ops[i]) {
      assert OpInv(s, s.ops[i]);
    }
  }

  lemma StepKeepsInv(s: State, step: Step)
    requires Inv(s) && Enabled(s, step)
    ensures Inv(Next(s, step))
  {
    match step
    case Create(t, system) => CreateKeepsInv(s, t, system);
    case Begin(id, op) => GotoKeepsInv(s, id, op);
    case Advance(id) =>
      var op := s.ops[id];
      if op.ClaimStart? || op.ClaimSelected? || op.ClaimMissed? {
      } else if op.UnclaimStart? || op.UnclaimReady? {
        UnclaimKeepsInv(s, id, op);
      } else if op.StatusStart? || op.StatusReady? {
        StatusKeepsInv(s, id, op);
      } else {
        AssignKeepsInv(s, id, op);
      }
  }

  lemma {:induction false} RunKeepsInv(s: State, steps: seq<Step>)
    requires Inv(s) && Runs(s, steps)
    ensures Inv(Exec(s, steps))
    decreases |steps|
  {
    if steps != [] {
      StepKeepsInv(s, steps[0]);
      RunKeepsInv(Next(s, steps[0]), steps[1..]);
    }
  }

  lemma Reached(steps: seq<Step>)
    requires Runs(INIT, steps)
    ensures Inv(Exec(INIT, steps))
  {
    RunKeepsInv(INIT, steps);
  }

  // ---- check-then-write safety ----

  lemma {:induction false} ChainAt(hist: seq<Event>, i: nat)
    requires Chain(hist) && i < |hist|
    ensures Lawful(hist[i]) && hist[i].before == Owner(hist[..i], hist[i].task)
  {
    var n := |hist| - 1;
    if i < n {
      ChainAt(hist[..n], i);
      assert hist[..n][..i] == hist[..i];
    }
  }

  /**
   * In every run, at the instant of each successful write: a claim found nobody assigned, a release
   * found its own actor, a status change found the assignee it had read and, unless a human made it,
   * that assignee was the actor itself. The row's assignee is always the outcome of these writes.
   */
  lemma WritesFindWhatTheyChecked(steps: seq<Step>, i: nat)
    requires Runs(INIT, steps) && i < |Exec(INIT, steps).hist|
    ensures var hist := Exec(INIT, steps).hist;
            && hist[i].before == Owner(hist[..i], hist[i].task)
            && (hist[i].TaskClaimed? ==> hist[i].before == None)
            && (hist[i].TaskReleased? ==> hist[i].before == Some(hist[i].who))
            && (hist[i].StatusSet? ==> hist[i].before == hist[i].expected)
            && (hist[i].StatusSet? && hist[i].who.kind != Human ==> hist[i].before == Some(hist[i].who))
  {
    Reached(steps);
    ChainAt(Exec(INIT, steps).hist, i);
  }

  lemma AssigneeIsOwner(steps: seq<Step>, t: string)
    requires Runs(INIT, steps)
    ensures var s := Exec(INIT, steps);
            Owner(s.hist, t) == if t in s.tasks then s.tasks[t].assignee else None
  {
    Reached(steps);
  }

  // ---- every reported success is one write ----

  ghost predicate Reports(op: Op, e: Event) {
    if e.TaskClaimed? then op.ClaimOver? && op.task == e.task && op.who == e.who && op.result == Claimed(e.who, e.status)
    else op == Over(e.task, e.who, true)
  }

  predicate Succeeded(op: Op) {
    (op.ClaimOver? && op.result.Claimed?) || (op.Over? && op.ok)
  }

  ghost predicate Link(s: State) {
    && (forall i :: 0 <= i < |s.hist| ==> s.hist[i].op in s.ops && Reports(s.ops[s.hist[i].op], s.hist[i]))
    && (forall i, j :: 0 <= i < j < |s.hist| ==> s.hist[i].op != s.hist[j].op)
    && (forall id :: id in s.ops && Succeeded(s.ops[id]) ==> exists i :: 0 <= i < |s.hist| && s.hist[i].op == id)
  }

  lemma GotoKeepsLink(s: State, id: nat, op: Op)
    requires Link(s) && !Succeeded(op) && (id in s.ops ==> !s.ops[id].Finished())
    ensures Link(Goto(s, id, op))
  {
    var s' := Goto(s, id, op);
    forall k | k in s'.ops && Succeeded(s'.ops[k])
      ensures exists i :: 0 <= i < |s'.hist| && s'.hist[i].op == k
    {
      assert k in s.ops && Succeeded(s.ops[k]);
    }
  }

  lemma WriteKeepsLink(s: State, id: nat, op: Op, row: Task, e: Event)
    requires Link(s) && id in s.ops && !s.ops[id].Finished() && e.op == id && Reports(op, e)
    ensures Link(Write(s, id, op, row, e))
  {
    var s' := Write(s, id, op, row, e);
    forall k | k in s'.ops && Succeeded(s'.ops[k])
      ensures exists i :: 0 <= i < |s'.hist| && s'.hist[i].op == k
    {
      if k == id {
        assert s'.hist[|s.hist|].op == id;
      } else {
        var i :| 0 <= i < |s.hist| && s.hist[i].op == k;
        assert s'.hist[i].op == k;
      }
    }
  }

  /** An operation's step only moves on without success, or writes and reports what it wrote. */
  lemma AdvanceForm(s: State, id: nat)
    requires id in s.ops && !s.ops[id].Finished()
    ensures var op := s.ops[id]; var s' := AdvanceOp(s, id, op);
            && id in s'.ops
            && if s'.hist == s.hist then s' == Goto(s, id, s'.ops[id]) && !Succeeded(s'.ops[id])
               else && |s'.hist| == |s.hist| + 1 && op.task in s'.tasks
                    && s' == Write(s, id, s'.ops[id], s'.tasks[op.task], s'.hist[|s.hist|])
                    && s'.hist[|s.hist|].op == id && Reports(s'.ops[id], s'.hist[|s.hist|])
  {
  }

  lemma AdvanceKeepsLink(s: State, id: nat)
    requires Link(s) && id in s.ops && !s.ops[id].Finished()
    ensures Link(AdvanceOp(s, id, s.ops[id]))
  {
    var op := s.ops[id];
    var s' := AdvanceOp(s, id, op);
    AdvanceForm(s, id);
    if s'.hist == s.hist {
      GotoKeepsLink(s, id, s'.ops[id]);
    } else {
      WriteKeepsLink(s, id, s'.ops[id], s'.tasks[op.task], s'.hist[|s.hist|]);
    }
  }

  lemma {:induction false} RunKeepsLink(s: State, steps: seq<Step>)
    requires Link(s) && Runs(s, steps)
    ensures Link(Exec(s, steps))
    decreases |steps|
  {
    if steps != [] {
      match steps[0] {
        case Create(_, _) =>
        case Begin(id, op) => GotoKeepsLink(s, id, op);
        case Advance(id) => AdvanceKeepsLink(s, id);
      }
      RunKeepsLink(Next(s, steps[0]), steps[1..]);
    }
  }

  /** Operations that reported success and writes in the history correspond one to one. */
  lemma SuccessesAreWrites(steps: seq<Step>)
    requires Runs(INIT, steps)
    ensures Link(Exec(INIT, steps))
  {
    RunKeepsLink(INIT, steps);
  }

  // ---- conservation of ownership ----

  function Claims(hist: seq<Event>, t: string): nat {
    if hist == [] then 0
    else Claims(hist[..|hist| - 1], t) + (if hist[|hist| - 1].task == t && hist[|hist| - 1].TaskClaimed? then 1 else 0)
  }

  function Releases(hist: seq<Event>, t: string): nat {
    if hist == [] then 0
    else Releases(hist[..|hist| - 1], t) + (if hist[|hist| - 1].task == t && hist[|hist| - 1].TaskReleased? then 1 else 0)
  }

  /** Assignments of a task that nobody held. */
  function Grants(hist: seq<Event>, t: string): nat {
    if hist == [] then 0
    else
      var e := hist[|hist| - 1];
      Grants(hist[..|hist| - 1], t) + (if e.task == t && e.TaskAssigned? && e.before == None then 1 else 0)
  }

  lemma {:induction false} OwnershipBalance(hist: seq<Event>, t: string)
    requires Chain(hist)
    ensures Claims(hist, t) + Grants(hist, t) == Releases(hist, t) + (if Owner(hist, t).Some? then 1 else 0)
  {
    if hist != [] {
      OwnershipBalance(hist[..|hist| - 1], t);
    }
  }

  /** Claims and first assignments of a task exceed its releases by one while it is held, by none otherwise. */
  lemma OwnershipIsConserved(steps: seq<Step>, t: string)
    requires Runs(INIT, steps)
    ensures var hist := Exec(INIT, steps).hist;
            && Claims(hist, t) + Grants(hist, t) == Releases(hist, t) + (if Owner(hist, t).Some? then 1 else 0)
            && Claims(hist, t) <= 1 + Releases(hist, t)
  {
    Reached(steps);
    OwnershipBalance(Exec(INIT, steps).hist, t);
  }

  /** A claimant stays the assignee until it releases the task itself or somebody assigns it. */
  lemma {:induction false} Tenure(hist: seq<Event>, i: nat)
    requires Chain(hist) && i < |hist| && hist[i].TaskClaimed?
    requires forall k :: i < k < |hist| && hist[k].task == hist[i].task ==>
               !hist[k].TaskAssigned? && !(hist[k].TaskReleased? && hist[k].who == hist[i].who)
    ensures Owner(hist, hist[i].task) == Some(hist[i].who)
  {
    var n := |hist| - 1;
    if i < n {
      Tenure(hist[..n], i);
      assert hist[..n][i] == hist[i];
    }
  }

  lemma ClaimantKeepsTask(steps: seq<Step>, i: nat)
    requires Runs(INIT, steps)
    requires var hist := Exec(INIT, steps).hist;
             && i < |hist| && hist[i].TaskClaimed?
             && forall k :: i < k < |hist| && hist[k].task == hist[i].task ==>
                  !hist[k].TaskAssigned? && !(hist[k].TaskReleased? && hist[k].who == hist[i].who)
    ensures var s := Exec(INIT, steps); var e := s.hist[i];
            e.task in s.tasks && s.tasks[e.task].assignee == Some(e.who)
  {
    Reached(steps);
    Tenure(Exec(INIT, steps).hist, i);
  }

  // ---- the database claim against the pure decision ----

  /** The same verdict about the assignee; only the status of a claim may differ. */
  predicate SameVerdict(r: ClaimResult, d: ClaimResult) {
    r == d || (r.Claimed? && d.Claimed? && r.assignee == d.assignee)
  }

  ghost predicate ClaimStepEnds(s: State, id: nat) {
    && id in s.ops && (s.ops[id].ClaimStart? || s.ops[id].ClaimSelected? || s.ops[id].ClaimMissed?)
    && AdvanceClaim(s, id, s.ops[id]).ops[id].ClaimOver?
  }

  /**
   * Whatever interleaves, the claim's last statement gives the verdict that `DecideClaim` gives on the
   * row at that instant, and changes the assignee exactly when that verdict is a claim, unless the second
   * select finds the task released again: then, and only then, it reports a conflict with nobody.
   */
  lemma ClaimRefinesDecision(steps: seq<Step>, id: nat)
    requires Runs(INIT, steps) && ClaimStepEnds(Exec(INIT, steps), id)
    requires Exec(INIT, steps).ops[id].task in Exec(INIT, steps).tasks
    ensures var s := Exec(INIT, steps); var op := s.ops[id]; var s' := AdvanceClaim(s, id, op);
            var row, r := s.tasks[op.task], s'.ops[id].result;
            && (SameVerdict(r, DecideClaim(row, op.who)) <==> !(op.ClaimMissed? && row.assignee == None))
            && s'.tasks[op.task].assignee == (if r.Claimed? then Some(op.who) else row.assignee)
  {
    Reached(steps);
    assert OpInv(Exec(INIT, steps), Exec(INIT, steps).ops[id]);
  }

  // ---- the status a claim writes ----

  /** The status of a task after these writes; a new task is to do. */
  function StatusOf(hist: seq<Event>, t: string): Status {
    if hist == [] then Todo
    else if hist[|hist| - 1].task == t then hist[|hist| - 1].status
    else StatusOf(hist[..|hist| - 1], t)
  }

  lemma {:induction false} StatusUnwritten(hist: seq<Event>, from: nat, t: string)
    requires from <= |hist| && forall k :: from <= k < |hist| ==> hist[k].task != t
    ensures StatusOf(hist[..from], t) == StatusOf(hist, t)
  {
    if from < |hist| {
      StatusUnwritten(hist[..|hist| - 1], from, t);
      assert hist[..|hist| - 1][..from] == hist[..from];
    } else {
      assert hist[..from] == hist;
    }
  }

  /** The status that a release, or else a claim or an assignment, computes from the one it read. */
  function Computed(release: bool, read: Status): Status {
    if release then (if read == InProgress then Todo else read) else Started(read)
  }

  /** A status computed from the row as it was after `at` writes. */
  predicate FromRead(hist: seq<Event>, t: string, release: bool, status: Status, at: nat) {
    at <= |hist| && status == Computed(release, StatusOf(hist[..at], t))
  }

  /** An assignment does not start from a done task. */
  predicate NotFromDone(hist: seq<Event>, t: string, at: nat)
    requires at <= |hist|
  {
    StatusOf(hist[..at], t) != Done
  }

  lemma FromReadAfter(hist: seq<Event>, e: Event, at: nat)
    requires at <= |hist|
    ensures (hist + [e])[..at] == hist[..at]
  {
  }

  ghost predicate SelectInv(s: State, op: Op) {
    && (op.ClaimSelected? || op.AssignSelected? ==> FromRead(s.hist, op.task, false, op.next, op.at))
    && (op.AssignSelected? ==> NotFromDone(s.hist, op.task, op.at))
    && (op.UnclaimReady? ==> FromRead(s.hist, op.task, true, op.next, op.at))
  }

  ghost predicate EventFromRead(hist: seq<Event>, e: Event) {
    && (!e.StatusSet? ==> FromRead(hist, e.task, e.TaskReleased?, e.status, e.at))
    && (e.TaskAssigned? ==> NotFromDone(hist, e.task, e.at))
  }

  ghost predicate EventsFromReads(hist: seq<Event>) {
    forall i :: 0 <= i < |hist| ==> EventFromRead(hist[..i], hist[i])
  }

  ghost predicate StatusInv(s: State) {
    && (forall t :: StatusOf(s.hist, t) == if t in s.tasks then s.tasks[t].status else Todo)
    && (forall id :: id in s.ops ==> SelectInv(s, s.ops[id]))
    && EventsFromReads(s.hist)
  }

  lemma GotoKeepsStatus(s: State, id: nat, op: Op)
    requires StatusInv(s) && SelectInv(s, op)
    ensures StatusInv(Goto(s, id, op))
  {
    forall k | k in Goto(s, id, op).ops ensures SelectInv(Goto(s, id, op), Goto(s, id, op).ops[k]) {
      assert k != id ==> SelectInv(s, s.ops[k]);
    }
  }

  lemma EventsFromReadsAfter(hist: seq<Event>, e: Event)
    requires EventsFromReads(hist) && EventFromRead(hist, e)
    ensures EventsFromReads(hist + [e])
  {
    var more := hist + [e];
    forall i | 0 <= i < |more| ensures EventFromRead(more[..i], more[i]) {
      assert more[..i] == hist[..i];
      assert hist[..|hist|] == hist;
    }
  }

  lemma WriteKeepsStatus(s: State, id: nat, op: Op, row: Task, e: Event)
    requires StatusInv(s) && op.Finished() && op.task in s.tasks && e.task == op.task && row.status == e.status
    requires EventFromRead(s.hist, e)
    ensures StatusInv(Write(s, id, op, row, e))
  {
    var s' := Write(s, id, op, row, e);
    EventsFromReadsAfter(s.hist, e);
    assert forall t :: StatusOf(s'.hist, t) == if t in s'.tasks then s'.tasks[t].status else Todo;
    forall k | k in s'.ops ensures SelectInv(s', s'.ops[k]) {
      if k != id {
        assert SelectInv(s, s.ops[k]);
        if s.ops[k].ClaimSelected? || s.ops[k].AssignSelected? || s.ops[k].UnclaimReady? {
          FromReadAfter(s.hist, e, s.ops[k].at);
        }
      }
    }
  }

  lemma AdvanceKeepsStatus(s: State, id: nat)
    requires StatusInv(s) && id in s.ops && !s.ops[id].Finished()
    ensures StatusInv(AdvanceOp(s, id, s.ops[id]))
  {
    var op := s.ops[id];
    var s' := AdvanceOp(s, id, op);
    assert SelectInv(s, op);
    AdvanceForm(s, id);
    if s'.hist == s.hist {
      assert s.hist[..|s.hist|] == s.hist;
      GotoKeepsStatus(s, id, s'.ops[id]);
    } else {
      WriteKeepsStatus(s, id, s'.ops[id], s'.tasks[op.task], s'.hist[|s.hist|]);
    }
  }

  lemma {:induction false} RunKeepsStatus(s: State, steps: seq<Step>)
    requires StatusInv(s) && Runs(s, steps)
    ensures StatusInv(Exec(s, steps))
    decreases |steps|
  {
    if steps != [] {
      match steps[0] {
        case Create(t, system) =>
          forall id | id in s.ops ensures SelectInv(Next(s, steps[0]), s.ops[id]) {
            assert SelectInv(s, s.ops[id]);
          }
        case Begin(id, op) => GotoKeepsStatus(s, id, op);
        case Advance(id) => AdvanceKeepsStatus(s, id);
      }
      RunKeepsStatus(Next(s, steps[0]), steps[1..]);
    }
  }

  /** The stored status is the one that the last write left. */
  lemma StatusIsHistory(steps: seq<Step>, t: string)
    requires Runs(INIT, steps)
    ensures var s := Exec(INIT, steps); StatusOf(s.hist, t) == if t in s.tasks then s.tasks[t].status else Todo
  {
    RunKeepsStatus(INIT, steps);
  }

  /**
   * In every run a claim writes, and reports, the status computed from the row as it was selected. It is the
   * decision's on the row at the write exactly when the two statuses start alike, for which it is enough
   * that nobody wrote the task in between.
   */
  lemma ClaimStatusMayBeStale(steps: seq<Step>, i: nat)
    requires Runs(INIT, steps) && i < |Exec(INIT, steps).hist| && Exec(INIT, steps).hist[i].TaskClaimed?
    ensures var s := Exec(INIT, steps); var e := s.hist[i];
            && e.at <= i && e.op in s.ops && s.ops[e.op] == ClaimOver(e.task, e.who, Claimed(e.who, e.status))
            && var selected, written := StatusOf(s.hist[..e.at], e.task), StatusOf(s.hist[..i], e.task);
            && e.status == (if selected == Todo then InProgress else selected)
            && (DecideClaim(Task(Owner(s.hist[..i], e.task), written, false), e.who) == Claimed(e.who, e.status)
                <==> Started(selected) == Started(written))
            && ((forall k :: e.at <= k < i ==> s.hist[k].task != e.task) ==> selected == written)
  {
    var hist, e := Exec(INIT, steps).hist, Exec(INIT, steps).hist[i];
    Reached(steps);
    RunKeepsStatus(INIT, steps);
    SuccessesAreWrites(steps);
    ChainAt(hist, i);
    assert EventFromRead(hist[..i], e);
    StaleOrNot(hist, i);
  }

  lemma StaleOrNot(hist: seq<Event>, i: nat)
    requires i < |hist| && hist[i].TaskClaimed? && EventFromRead(hist[..i], hist[i]) && Owner(hist[..i], hist[i].task) == None
    ensures var e := hist[i];
            && e.at <= i
            && var selected, written := StatusOf(hist[..e.at], e.task), StatusOf(hist[..i], e.task);
            && e.status == (if selected == Todo then InProgress else selected)
            && (DecideClaim(Task(Owner(hist[..i], e.task), written, false), e.who) == Claimed(e.who, e.status)
                <==> Started(selected) == Started(written))
            && ((forall k :: e.at <= k < i ==> hist[k].task != e.task) ==> selected == written)
  {
    var e := hist[i];
    assert hist[..i][..e.at] == hist[..e.at];
    if forall k :: e.at <= k < i ==> hist[k].task != e.task {
      StatusUnwritten(hist[..i], e.at, e.task);
    }
  }

  /**
   * In every run a release takes an in-progress task back to do and keeps any other status, and an assignment
   * starts a task to do, keeps any other status and never begins from a done task: as the row was when read.
   */
  lemma StatusesComeFromReads(steps: seq<Step>, i: nat)
    requires Runs(INIT, steps) && i < |Exec(INIT, steps).hist| && !Exec(INIT, steps).hist[i].StatusSet?
    ensures var hist := Exec(INIT, steps).hist; var e := hist[i];
            && e.at <= i
            && var read := StatusOf(hist[..e.at], e.task);
            && (e.TaskReleased? ==> e.status == if read == InProgress then Todo else read)
            && (e.TaskAssigned? ==> read != Done && e.status == if read == Todo then InProgress else read)
  {
    var s := Exec(INIT, steps);
    RunKeepsStatus(INIT, steps);
    assert EventFromRead(s.hist[..i], s.hist[i]);
    assert s.hist[..i][..s.hist[i].at] == s.hist[..s.hist[i].at];
  }

  // ---- a race of claims ----

  /** Nobody released or assigned task `t` so far. */
  ghost predicate OnlyClaims(hist: seq<Event>, t: string) {
    forall i :: 0 <= i < |hist| && hist[i].task == t ==> !hist[i].TaskReleased? && !hist[i].TaskAssigned?
  }

  ghost predicate RaceInv(s: State, t: string) {
    OnlyClaims(s.hist, t) ==>
      forall id :: id in s.ops && s.ops[id].task == t ==> RaceOp(Owner(s.hist, t), s.ops[id])
  }

  ghost predicate RaceOp(owner: Option<Actor>, op: Op) {
    && (op.ClaimMissed? ==> owner.Some?)
    && (op.ClaimOver? ==>
          match op.result
          case Claimed(_, _) => owner == Some(op.who)
          case AlreadyMine => owner == Some(op.who)
          case Conflict(h) => owner == Some(h) && h != op.who
          case NotClaimable => true)
  }

  lemma OnlyClaimsBefore(hist: seq<Event>, e: Event, t: string)
    requires OnlyClaims(hist + [e], t)
    ensures OnlyClaims(hist, t)
    ensures e.task == t ==> !e.TaskReleased? && !e.TaskAssigned?
  {
    assert (hist + [e])[|hist|] == e;
    forall i | 0 <= i < |hist| && hist[i].task == t
      ensures !hist[i].TaskReleased? && !hist[i].TaskAssigned?
    {
      assert (hist + [e])[i] == hist[i];
    }
  }

  lemma AdvanceKeepsRace(s: State, id: nat, t: string)
    requires Inv(s) && RaceInv(s, t) && id in s.ops && !s.ops[id].Finished()
    ensures RaceInv(AdvanceOp(s, id, s.ops[id]), t)
  {
    var op := s.ops[id];
    var s' := AdvanceOp(s, id, op);
    if OnlyClaims(s'.hist, t) {
      if s'.hist != s.hist {
        var e :| s'.hist == s.hist + [e] && e.task == op.task && Lawful(e) && e.before == Owner(s.hist, e.task);
        OnlyClaimsBefore(s.hist, e, t);
      }
      forall k | k in s'.ops && s'.ops[k].task == t
        ensures RaceOp(Owner(s'.hist, t), s'.ops[k])
      {
        assert k != id ==> RaceOp(Owner(s.hist, t), s.ops[k]);
      }
    }
  }

  lemma {:induction false} RunKeepsRace(s: State, steps: seq<Step>, t: string)
    requires Inv(s) && RaceInv(s, t) && Runs(s, steps)
    ensures RaceInv(Exec(s, steps), t)
    decreases |steps|
  {
    if steps != [] {
      StepKeepsInv(s, steps[0]);
      if steps[0].Advance? {
        AdvanceKeepsRace(s, steps[0].id, t);
      }
      RunKeepsRace(Next(s, steps[0]), steps[1..], t);
    }
  }

  /**
   * Concurrent claims of a task that nobody releases or assigns: at most one operation is told it claimed
   * the task, and every other one is told the truth about who holds it.
   */
  lemma RaceHasOneWinner(steps: seq<Step>, t: string, id: nat, other: nat)
    requires Runs(INIT, steps) && OnlyClaims(Exec(INIT, steps).hist, t)
    requires var s := Exec(INIT, steps);
             && id in s.ops && s.ops[id].ClaimOver? && s.ops[id].task == t && s.ops[id].result.Claimed?
             && other in s.ops && s.ops[other].ClaimOver? && s.ops[other].task == t && other != id
    ensures var s := Exec(INIT, steps); var r := s.ops[other].result; var winner := s.ops[id].who;
            && t in s.tasks && s.tasks[t].assignee == Some(winner)
            && !r.Claimed?
            && (r.AlreadyMine? ==> s.ops[other].who == winner)
            && (r.Conflict? ==> r.heldBy == winner && s.ops[other].who != winner)
  {
    Reached(steps);
    RunKeepsRace(INIT, steps, t);
    SuccessesAreWrites(steps);
    var s := Exec(INIT, steps);
    assert RaceOp(Owner(s.hist, t), s.ops[id]) && RaceOp(Owner(s.hist, t), s.ops[other]);
    if s.ops[other].result.Claimed? {
      assert Succeeded(s.ops[id]) && Succeeded(s.ops[other]);
      var i :| 0 <= i < |s.hist| && s.hist[i].op == id;
      var j :| 0 <= j < |s.hist| && s.hist[j].op == other;
      OneClaim(s.hist, i, j);
    }
  }

  lemma OneClaim(hist: seq<Event>, i: nat, j: nat)
    requires Chain(hist) && i < |hist| && j < |hist| && hist[i].task == hist[j].task
    requires OnlyClaims(hist, hist[i].task) && hist[i].TaskClaimed? && hist[j].TaskClaimed?
    ensures i == j
  {
    var k, m := Min(i, j), Max(i, j);
    if k < m {
      ChainPrefix(hist, m);
      assert forall l :: 0 <= l < m ==> hist[..m][l] == hist[l];
      Tenure(hist[..m], k);
      ChainAt(hist, m);
    }
  }

  lemma {:induction false} ChainPrefix(hist: seq<Event>, n: nat)
    requires Chain(hist) && n <= |hist|
    ensures Chain(hist[..n])
  {
    if n < |hist| {
      ChainPrefix(hist[..|hist| - 1], n);
      assert hist[..|hist| - 1][..n] == hist[..n];
    } else {
      assert hist[..n] == hist;
    }
  }

  // ---- two runs that show the limits ----

  lemma {:induction false} Push(s: State, steps: seq<Step>, step: Step)
    requires Runs(s, steps) && Enabled(Exec(s, steps), step)
    ensures Runs(s, steps + [step]) && Exec(s, steps + [step]) == Next(Exec(s, steps), step)
    decreases |steps|
  {
    var more := steps + [step];
    if steps == [] {
      assert more == [step] && more[1..] == [];
    } else {
      Push(Next(s, steps[0]), steps[1..], step);
      assert more[0] == steps[0] && more[1..] == steps[1..] + [step];
    }
  }

  /** Extends a run whose end state is known. */
  lemma Extend(steps: seq<Step>, now: State, step: Step) returns (more: seq<Step>)
    requires Runs(INIT, steps) && Exec(INIT, steps) == now && Enabled(now, step)
    ensures Runs(INIT, more) && Exec(INIT, more) == Next(now, step)
  {
    Push(INIT, steps, step);
    more := steps + [step];
  }

  /** One claim has selected the free task. */
  const ONE_SELECTED := State(
    map["t" := Task(None, Todo, false)], map[1 := ClaimSelected("t", Actor(Agent, "a"), InProgress, 0)], [])

  /** Two claims have both selected the free task, and the first has taken it. */
  const ONE_AHEAD := State(
    map["t" := Task(Some(Actor(Agent, "a")), InProgress, false)],
    map[1 := ClaimOver("t", Actor(Agent, "a"), Claimed(Actor(Agent, "a"), InProgress)),
        2 := ClaimSelected("t", Actor(Agent, "b"), InProgress, 0)],
    [TaskClaimed(1, "t", Actor(Agent, "a"), None, InProgress, 0)])

  lemma OneAhead() returns (steps: seq<Step>)
    ensures Runs(INIT, steps) && Exec(INIT, steps) == ONE_AHEAD
  {
    var a, b := Actor(Agent, "a"), Actor(Agent, "b");
    steps := OneSelected();
    steps := Extend(steps, ONE_SELECTED, Begin(2, ClaimStart("t", b)));
    var s4 := Goto(ONE_SELECTED, 2, ClaimStart("t", b));
    steps := Extend(steps, s4, Advance(2));
    var s5 := Goto(s4, 2, ClaimSelected("t", b, InProgress, 0));
    steps := Extend(steps, s5, Advance(1));
  }

  /** A claim that missed the row, and whose rival then let go, reports a conflict although nobody holds the task. */
  lemma ConflictWithNobody() returns (steps: seq<Step>)
    ensures Runs(INIT, steps)
    ensures var s := Exec(INIT, steps);
            && 2 in s.ops && s.ops[2] == ClaimOver("t", Actor(Agent, "b"), Conflict(Actor(System, "unknown")))
            && "t" in s.tasks && s.tasks["t"].assignee == None
  {
    var a, b := Actor(Agent, "a"), Actor(Agent, "b");
    steps := OneAhead();
    steps := Extend(steps, ONE_AHEAD, Advance(2));
    var s6 := Goto(ONE_AHEAD, 2, ClaimMissed("t", b));
    steps := Extend(steps, s6, Begin(3, UnclaimStart("t", a)));
    var s7 := Goto(s6, 3, UnclaimStart("t", a));
    steps := Extend(steps, s7, Advance(3));
    var s8 := Goto(s7, 3, UnclaimReady("t", a, Todo, 1));
    steps := Extend(steps, s8, Advance(3));
    var s9 := AdvanceUnclaim(s8, 3, UnclaimReady("t", a, Todo, 1));
    steps := Extend(steps, s9, Advance(2));
  }

  /** Then a human's status update has read the task. */
  const HUMAN_READY := State(
    map["t" := Task(None, Todo, false)],
    map[1 := ClaimSelected("t", Actor(Agent, "a"), InProgress, 0), 2 := StatusReady("t", Actor(Human, "h"), None, Done)],
    [])

  /** A claim has selected the free task, and a human has set its status since. */
  const STATUS_MOVED := State(
    map["t" := Task(None, Done, false)],
    map[1 := ClaimSelected("t", Actor(Agent, "a"), InProgress, 0), 2 := Over("t", Actor(Human, "h"), true)],
    [StatusSet(2, "t", Actor(Human, "h"), None, Done, None)])

  lemma StatusMoved() returns (steps: seq<Step>)
    ensures Runs(INIT, steps) && Exec(INIT, steps) == STATUS_MOVED
  {
    steps := HumanReady();
    steps := Extend(steps, HUMAN_READY, Advance(2));
  }

  lemma HumanReady() returns (steps: seq<Step>)
    ensures Runs(INIT, steps) && Exec(INIT, steps) == HUMAN_READY
  {
    var h := Actor(Human, "h");
    steps := OneSelected();
    steps := Extend(steps, ONE_SELECTED, Begin(2, StatusStart("t", h, "done")));
    steps := Extend(steps, Goto(ONE_SELECTED, 2, StatusStart("t", h, "done")), Advance(2));
  }

  lemma OneSelected() returns (steps: seq<Step>)
    ensures Runs(INIT, steps) && Exec(INIT, steps) == ONE_SELECTED
  {
    var a := Actor(Agent, "a");
    steps := Extend([], INIT, Create("t", false));
    var s1 := State(map["t" := Task(None, Todo, false)], map[], []);
    steps := Extend(steps, s1, Begin(1, ClaimStart("t", a)));
    var s2 := Goto(s1, 1, ClaimStart("t", a));
    steps := Extend(steps, s2, Advance(1));
  }

  /** A status that a human set between the two statements of a claim is overwritten with a stale one. */
  lemma ClaimOverwritesStatus() returns (steps: seq<Step>)
    ensures Runs(INIT, steps) && Runs(INIT, steps + [Advance(1)])
    ensures var before := Exec(INIT, steps); "t" in before.tasks && before.tasks["t"].status == Done
    ensures var s := Exec(INIT, steps + [Advance(1)]);
            "t" in s.tasks && s.tasks["t"] == Task(Some(Actor(Agent, "a")), InProgress, false)
  {
    steps := StatusMoved();
    Push(INIT, steps, Advance(1));
  }
}
