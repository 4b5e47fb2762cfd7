/** What a task operation was asked to do, and what comes of it: in any interleaving, and when it runs alone. */
module TaskLaws {
  import opened Basics
  import opened TaskRules
  import opened TaskProtocol

  // ---- every write carries out the request it began with ----

  /** The requests with which the operations of a run began. */
  function Requests(asked: map<nat, Op>, steps: seq<Step>): map<nat, Op>
    decreases |steps|
  {
    if steps == [] then asked
    else Requests(if steps[0].Begin? then asked[steps[0].id := steps[0].op] else asked, steps[1..])
  }

  /** An operation in flight still means what it was asked. */
  predicate Means(op: Op, asked: Op) {
    && asked.Starting() && op.task == asked.task && op.who == asked.who
    && (op.Starting() ==> op == asked)
    && (op.ClaimSelected? || op.ClaimMissed? || op.ClaimOver? ==> asked.ClaimStart?)
    && (op.UnclaimReady? ==> asked.UnclaimStart?)
    && (op.StatusReady? ==> asked.StatusStart? && asked.wanted == StatusName(op.next))
    && (op.AssignReady? || op.AssignSelected? ==> asked.AssignStart? && asked.to == op.to)
  }

  /** The request that an event carries out. */
  function Request(e: Event): Op {
    match e
    case TaskClaimed(_, t, who, _, _, _) => ClaimStart(t, who)
    case TaskReleased(_, t, who, _, _, _) => UnclaimStart(t, who)
    case TaskAssigned(_, t, who, _, _, _, to) => AssignStart(t, who, to)
    case StatusSet(_, t, who, _, status, _) => StatusStart(t, who, StatusName(status))
  }

  ghost predicate Traced(s: State, asked: map<nat, Op>) {
    && (forall id :: id in s.ops <==> id in asked)
    && (forall id :: id in s.ops ==> Means(s.ops[id], asked[id]))
    && (forall i :: 0 <= i < |s.hist| ==> s.hist[i].op in asked && asked[s.hist[i].op] == Request(s.hist[i]))
  }

  lemma AdvanceMeans(s: State, id: nat, asked: Op)
    requires id in s.ops && !s.ops[id].Finished() && Means(s.ops[id], asked)
    ensures var s' := AdvanceOp(s, id, s.ops[id]);
            && id in s'.ops && Means(s'.ops[id], asked)
            && (s'.hist != s.hist ==> s'.hist[|s.hist|..] == [s'.hist[|s.hist|]] && Request(s'.hist[|s.hist|]) == asked)
  {
    AdvanceForm(s, id);
  }

  lemma AdvanceTraced(s: State, id: nat, asked: map<nat, Op>)
    requires Traced(s, asked) && id in s.ops && !s.ops[id].Finished()
    ensures Traced(AdvanceOp(s, id, s.ops[id]), asked)
  {
    AdvanceForm(s, id);
    AdvanceMeans(s, id, asked[id]);
  }

  lemma {:induction false} RunTraced(s: State, steps: seq<Step>, asked: map<nat, Op>)
    requires Traced(s, asked) && Runs(s, steps)
    ensures Traced(Exec(s, steps), Requests(asked, steps))
    decreases |steps|
  {
    if steps != [] {
      if steps[0].Advance? {
        AdvanceTraced(s, steps[0].id, asked);
      }
      RunTraced(Next(s, steps[0]), steps[1..], if steps[0].Begin? then asked[steps[0].id := steps[0].op] else asked);
    }
  }

  lemma {:induction false} RequestsWereMade(asked: map<nat, Op>, steps: seq<Step>, id: nat)
    requires id in Requests(asked, steps)
    ensures (id in asked && Requests(asked, steps)[id] == asked[id]) || Begin(id, Requests(asked, steps)[id]) in steps
    decreases |steps|
  {
    if steps != [] {
      RequestsWereMade(if steps[0].Begin? then asked[steps[0].id := steps[0].op] else asked, steps[1..], id);
    }
  }

  /**
   * In every run, every write of a task was asked for: a claim or release by its actor, an assignment to the
   * assignee it left, a status change to the status it left, by name.
   */
  lemma WritesWereAskedFor(steps: seq<Step>, i: nat)
    requires Runs(INIT, steps) && i < |Exec(INIT, steps).hist|
    ensures var e := Exec(INIT, steps).hist[i];
            && (e.TaskClaimed? ==> Begin(e.op, ClaimStart(e.task, e.who)) in steps)
            && (e.TaskReleased? ==> Begin(e.op, UnclaimStart(e.task, e.who)) in steps)
            && (e.TaskAssigned? ==> Begin(e.op, AssignStart(e.task, e.who, e.to)) in steps)
            && (e.StatusSet? ==> Begin(e.op, StatusStart(e.task, e.who, StatusName(e.status))) in steps)
  {
    RunTraced(INIT, steps, map[]);
    RequestsWereMade(map[], steps, Exec(INIT, steps).hist[i].op);
  }

  // ---- operations that run alone ----

  /** At most `n` steps of one operation, until it is over. */
  function Complete(s: State, id: nat, n: nat): State
    decreases n
  {
    if n == 0 || id !in s.ops || s.ops[id].Finished() then s
    else Complete(AdvanceOp(s, id, s.ops[id]), id, n - 1)
  }

  function CompleteSteps(s: State, id: nat, n: nat): seq<Step>
    decreases n
  {
    if n == 0 || id !in s.ops || s.ops[id].Finished() then []
    else [Advance(id)] + CompleteSteps(AdvanceOp(s, id, s.ops[id]), id, n - 1)
  }

  lemma {:induction false} CompleteIsRun(s: State, id: nat, n: nat)
    ensures Runs(s, CompleteSteps(s, id, n)) && Exec(s, CompleteSteps(s, id, n)) == Complete(s, id, n)
    decreases n
  {
    var steps := CompleteSteps(s, id, n);
    if steps != [] {
      var t := AdvanceOp(s, id, s.ops[id]);
      CompleteIsRun(t, id, n - 1);
      assert steps[0] == Advance(id) && steps[1..] == CompleteSteps(t, id, n - 1);
    }
  }

  /** A claim alone: the free task goes to the claimant and starts; otherwise nothing changes, and the reason is told. */
  lemma ClaimAlone(s: State, id: nat, t: string, who: Actor)
    ensures var u := Complete(Goto(s, id, ClaimStart(t, who)), id, 3);
            && id in u.ops && u.ops[id].ClaimOver?
            && (u.ops[id].result == NotClaimable <==> t !in s.tasks || s.tasks[t].system)
            && (t in s.tasks && !s.tasks[t].system ==>
                  var row, r := s.tasks[t], u.ops[id].result;
                  if row.assignee == None then
                    var next := if row.status == Todo then InProgress else row.status;
                    r == Claimed(who, next) && u.tasks == s.tasks[t := Task(Some(who), next, false)]
                  else
                    r == (if row.assignee.value == who then AlreadyMine else Conflict(row.assignee.value)) && u.tasks == s.tasks)
            && (u.ops[id].result == NotClaimable ==> u.tasks == s.tasks)
  {
  }

  /** A release alone succeeds exactly for the assignee; it frees the task and takes it back from in progress to do. */
  lemma UnclaimAlone(s: State, id: nat, t: string, who: Actor)
    ensures var u := Complete(Goto(s, id, UnclaimStart(t, who)), id, 3);
            var ok := t in s.tasks && s.tasks[t].assignee == Some(who);
            && id in u.ops && u.ops[id] == Over(t, who, ok)
            && u.tasks == if ok then
                            s.tasks[t := Task(None, if s.tasks[t].status == InProgress then Todo else s.tasks[t].status, s.tasks[t].system)]
                          else s.tasks
  {
  }

  /** A status update alone succeeds exactly for one of the five names, from a human or the assignee, and stores that status. */
  lemma UpdateStatusAlone(s: State, id: nat, t: string, who: Actor, wanted: string)
    ensures var u := Complete(Goto(s, id, StatusStart(t, who, wanted)), id, 3);
            var ok := t in s.tasks && (exists x :: StatusName(x) == wanted) && (who.kind == Human || s.tasks[t].assignee == Some(who));
            && id in u.ops && u.ops[id] == Over(t, who, ok)
            && (!ok ==> u.tasks == s.tasks)
            && (forall x :: ok && StatusName(x) == wanted ==> u.tasks == s.tasks[t := s.tasks[t].(status := x)])
  {
    forall x ensures ParseStatus(wanted) == Some(x) <==> wanted == StatusName(x) {
      StatusRoundTrip(wanted, x);
    }
  }

  /** An assignment alone succeeds exactly for a claimable unfinished task that is unowned, or when a human or its assignee asks. */
  lemma AssignAlone(s: State, id: nat, t: string, who: Actor, to: Actor)
    ensures var u := Complete(Goto(s, id, AssignStart(t, who, to)), id, 3);
            var ok := t in s.tasks && !s.tasks[t].system && s.tasks[t].status != Done
                      && (s.tasks[t].assignee == None || who.kind == Human || s.tasks[t].assignee == Some(who));
            && id in u.ops && u.ops[id] == Over(t, who, ok)
            && u.tasks == if ok then s.tasks[t := Task(Some(to), if s.tasks[t].status == Todo then InProgress else s.tasks[t].status, false)]
                          else s.tasks
  {
  }

  /**
   * In any interleaving a status update gets past its read exactly for one of the five names, from a human or
   * the assignee it reads; a release exactly for the assignee; an assignment exactly when the task is claimable
   * and unowned, or a human or the assignee asks.
   */
  lemma WhoGetsPastTheRead(s: State, id: nat)
    requires id in s.ops && s.ops[id].task in s.tasks
    ensures var op := s.ops[id]; var row := s.tasks[op.task];
            && (op.StatusStart? ==> (AdvanceOp(s, id, op).ops[id].StatusReady?
                  <==> (exists x :: StatusName(x) == op.wanted) && (op.who.kind == Human || row.assignee == Some(op.who))))
            && (op.UnclaimStart? ==> (AdvanceOp(s, id, op).ops[id].UnclaimReady? <==> row.assignee == Some(op.who)))
            && (op.AssignStart? ==> (AdvanceOp(s, id, op).ops[id].AssignReady?
                  <==> !row.system && (row.assignee == None || op.who.kind == Human || row.assignee == Some(op.who))))
  {
    if s.ops[id].StatusStart? {
      forall x ensures ParseStatus(s.ops[id].wanted) == Some(x) <==> s.ops[id].wanted == StatusName(x) {
        StatusRoundTrip(s.ops[id].wanted, x);
      }
    }
  }
}
