/**
 * The daemon's slot scheduler: a counting semaphore per agent with a FIFO wait queue,
 * and one set of running keys that drops a repeated wake of the same task.
 */
module Slots {
  import opened Basics

  datatype Job = Job(handle: string, task: string)

  /** The de-duplication key; the handle and the task are joined by a colon. */
  function Key(j: Job): string {
    j.handle + ":" + j.task
  }

  /**
   * One agent. `slots` and `queue` are the daemon's own entries; `granted` are the waiters a
   * release has woken that have not counted themselves yet, `held` the jobs that own a slot,
   * `accepted` and `started` the history.
   */
  datatype Agent = Agent(
    slots: int, queue: seq<Job>,
    granted: seq<Job>, held: seq<Job>, accepted: seq<Job>, started: seq<Job>)
  {
    /** Everything that has been accepted and has not finished. */
    function Live(): multiset<Job> {
      multiset(held) + multiset(granted) + multiset(queue)
    }
  }

  const IDLE := Agent(0, [], [], [], [], [])

  datatype State = State(running: set<string>, agents: map<string, Agent>) {
    function At(h: string): Agent {
      Get(agents, h, IDLE)
    }
  }

  const INIT := State({}, map[])

  // ---- the three steps ----

  function Enter(max: nat, a: Agent, j: Job): Agent {
    if a.slots < max then
      a.(slots := a.slots + 1, held := a.held + [j], accepted := a.accepted + [j], started := a.started + [j])
    else
      a.(queue := a.queue + [j], accepted := a.accepted + [j])
  }

  function Count(a: Agent): Agent
    requires a.granted != []
  {
    a.(slots := a.slots + 1, granted := a.granted[1..],
       held := a.held + [a.granted[0]], started := a.started + [a.granted[0]])
  }

  function Release(a: Agent, i: nat): Agent
    requires i < |a.held|
  {
    var b := a.(slots := Max(0, a.slots - 1), held := DropAt(a.held, i));
    if a.queue == [] then b
    else b.(queue := a.queue[1..], granted := a.granted + [a.queue[0]])
  }

  /** `agent:start`: skip a running key, else take a slot or join the queue. */
  function Wake(max: nat, s: State, j: Job): State {
    if Key(j) in s.running then s
    else State(s.running + {Key(j)}, s.agents[j.handle := Enter(max, s.At(j.handle), j)])
  }

  /** The continuation of a woken waiter: only now is its slot counted. */
  function Resume(s: State, h: string): State
    requires s.At(h).granted != []
  {
    s.(agents := s.agents[h := Count(s.At(h))])
  }

  /** The end of a run: forget the key, give the slot back, wake one waiter. */
  function Finish(s: State, h: string, i: nat): State
    requires i < |s.At(h).held|
  {
    State(s.running - {Key(s.At(h).held[i])}, s.agents[h := Release(s.At(h), i)])
  }

  datatype Step = WakeStep(job: Job) | ResumeStep(handle: string) | FinishStep(handle: string, index: nat)

  ghost predicate Possible(s: State, step: Step) {
    match step
    case WakeStep(_) => true
    case ResumeStep(h) => s.At(h).granted != []
    case FinishStep(h, i) => i < |s.At(h).held|
  }

  /** The microtask queue is empty: every woken waiter has counted itself. */
  ghost predicate Drained(s: State) {
    forall h :: s.At(h).granted == []
  }

  /** A wake message is handled only after the microtasks of the previous event have drained. */
  ghost predicate Enabled(s: State, step: Step) {
    Possible(s, step) && (step.WakeStep? ==> Drained(s))
  }

  ghost function Next(max: nat, s: State, step: Step): State
    requires Possible(s, step)
  {
    match step
    case WakeStep(j) => Wake(max, s, j)
    case ResumeStep(h) => Resume(s, h)
    case FinishStep(h, i) => Finish(s, h, i)
  }

  ghost predicate Runs(max: nat, s: State, steps: seq<Step>)
    decreases |steps|
  {
    steps == [] || (Enabled(s, steps[0]) && Runs(max, Next(max, s, steps[0]), steps[1..]))
  }

  ghost function Exec(max: nat, s: State, steps: seq<Step>): State
    requires Runs(max, s, steps)
    decreases |steps|
  {
    if steps == [] then s else Exec(max, Next(max, s, steps[0]), steps[1..])
  }

  // ---- the invariant of one agent ----

  /** The slots are counted, bounded, and all in use while a job waits. */
  ghost predicate Bounded(max: nat, a: Agent) {
    && a.slots == |a.held|
    && a.slots + |a.granted| <= max
    && (a.queue != [] ==> a.slots + |a.granted| == max)
  }

  /** Counts, order, and: every live job belongs to this agent and is live once. */
  ghost predicate AgentInv(max: nat, h: string, a: Agent) {
    && Bounded(max, a)
    && a.accepted == a.started + a.granted + a.queue
    && Own(h, a.Live())
  }

  ghost predicate Own(h: string, live: multiset<Job>) {
    forall j :: j in live ==> j.handle == h && live[j] == 1
  }

  lemma EnterKeeps(max: nat, a: Agent, j: Job)
    requires AgentInv(max, j.handle, a) && a.granted == [] && j !in a.Live()
    ensures AgentInv(max, j.handle, Enter(max, a, j)) && Enter(max, a, j).Live() == a.Live() + multiset{j}
  {
    EnterLive(max, a, j);
    EnterOrder(max, a, j);
    OwnMore(j.handle, a.Live(), j);
  }

  lemma EnterLive(max: nat, a: Agent, j: Job)
    ensures Enter(max, a, j).Live() == a.Live() + multiset{j}
  {
  }

  lemma EnterOrder(max: nat, a: Agent, j: Job)
    requires a.granted == [] && Bounded(max, a) && a.accepted == a.started + a.granted + a.queue
    ensures var b := Enter(max, a, j); Bounded(max, b) && b.accepted == b.started + b.granted + b.queue
  {
  }

  lemma OwnMore(h: string, live: multiset<Job>, j: Job)
    requires Own(h, live) && j !in live && j.handle == h
    ensures Own(h, live + multiset{j})
  {
  }

  lemma CountKeeps(max: nat, h: string, a: Agent)
    requires AgentInv(max, h, a) && a.granted != []
    ensures AgentInv(max, h, Count(a)) && Count(a).Live() == a.Live()
  {
    assert a.granted == [a.granted[0]] + a.granted[1..];
    assert a.started + a.granted == Count(a).started + Count(a).granted;
    assert Count(a).Live() == a.Live();
  }

  lemma ReleaseLive(a: Agent, i: nat)
    requires i < |a.held|
    ensures a.Live() == Release(a, i).Live() + multiset{a.held[i]}
  {
    DropAtMultiset(a.held, i);
    if a.queue != [] {
      assert a.queue == [a.queue[0]] + a.queue[1..];
    }
  }

  lemma ReleaseKeeps(max: nat, h: string, a: Agent, i: nat)
    requires AgentInv(max, h, a) && i < |a.held|
    ensures AgentInv(max, h, Release(a, i)) && a.Live() == Release(a, i).Live() + multiset{a.held[i]}
  {
    var b := Release(a, i);
    ReleaseLive(a, i);
    OwnLess(h, b.Live(), a.held[i]);
    Assoc(a.started, a.granted, a.queue);
    Assoc(b.started, b.granted, b.queue);
  }

  lemma OwnLess(h: string, live: multiset<Job>, j: Job)
    requires Own(h, live + multiset{j})
    ensures Own(h, live)
  {
    forall k | k in live ensures k.handle == h && live[k] == 1 {
      assert k in live + multiset{j};
    }
  }

  // ---- the running keys ----

  ghost predicate IsLive(s: State, j: Job) {
    j in s.At(j.handle).Live()
  }

  /** The running keys are exactly the keys of the live jobs, one live job to a key. */
  ghost predicate KeyInv(s: State) {
    && (forall j :: IsLive(s, j) ==> Key(j) in s.running)
    && (forall j, k :: IsLive(s, j) && IsLive(s, k) && Key(j) == Key(k) ==> j == k)
    && (forall k :: k in s.running ==> exists j :: IsLive(s, j) && Key(j) == k)
  }

  ghost predicate Inv(max: nat, s: State) {
    KeyInv(s) && forall h :: AgentInv(max, h, s.At(h))
  }

  lemma LiveAdded(s: State, t: State, j: Job)
    requires t.At(j.handle).Live() == s.At(j.handle).Live() + multiset{j}
    requires forall h :: h != j.handle ==> t.At(h) == s.At(h)
    ensures forall k :: IsLive(t, k) <==> IsLive(s, k) || k == j
  {
  }

  lemma AddKey(s: State, t: State, j: Job)
    requires KeyInv(s) && Key(j) !in s.running
    requires t.running == s.running + {Key(j)}
    requires forall k :: IsLive(t, k) <==> IsLive(s, k) || k == j
    ensures KeyInv(t)
  {
    forall k | k in t.running
      ensures exists i :: IsLive(t, i) && Key(i) == k
    {
      if k == Key(j) {
        assert IsLive(t, j);
      } else {
        var i :| IsLive(s, i) && Key(i) == k;
        assert IsLive(t, i);
      }
    }
  }

  lemma LiveRemoved(s: State, t: State, j: Job)
    requires s.At(j.handle).Live() == t.At(j.handle).Live() + multiset{j}
    requires s.At(j.handle).Live()[j] == 1
    requires forall h :: h != j.handle ==> t.At(h) == s.At(h)
    ensures IsLive(s, j)
    ensures forall k :: IsLive(t, k) <==> IsLive(s, k) && k != j
  {
  }

  lemma RemoveKey(s: State, t: State, j: Job)
    requires KeyInv(s) && IsLive(s, j)
    requires t.running == s.running - {Key(j)}
    requires forall k :: IsLive(t, k) <==> IsLive(s, k) && k != j
    ensures KeyInv(t)
  {
    forall k | k in t.running
      ensures exists i :: IsLive(t, i) && Key(i) == k
    {
      var i :| IsLive(s, i) && Key(i) == k;
      assert IsLive(t, i);
    }
  }

  lemma LiveKept(s: State, t: State, h: string)
    requires t.At(h).Live() == s.At(h).Live()
    requires forall g :: g != h ==> t.At(g) == s.At(g)
    ensures forall k :: IsLive(t, k) <==> IsLive(s, k)
  {
  }

  lemma SameKeys(s: State, t: State)
    requires KeyInv(s) && t.running == s.running
    requires forall k :: IsLive(t, k) <==> IsLive(s, k)
    ensures KeyInv(t)
  {
    forall k | k in t.running
      ensures exists i :: IsLive(t, i) && Key(i) == k
    {
      var i :| IsLive(s, i) && Key(i) == k;
      assert IsLive(t, i);
    }
  }

  lemma OneAgent(max: nat, s: State, t: State, h: string)
    requires forall g :: AgentInv(max, g, s.At(g))
    requires AgentInv(max, h, t.At(h))
    requires forall g :: g != h ==> t.At(g) == s.At(g)
    ensures forall g :: AgentInv(max, g, t.At(g))
  {
    forall g ensures AgentInv(max, g, t.At(g)) {
      if g != h {
        assert AgentInv(max, g, s.At(g));
      }
    }
  }

  ghost predicate Accepted(max: nat, s: State, t: State, j: Job) {
    && Key(j) !in s.running && t.running == s.running + {Key(j)}
    && t.At(j.handle) == Enter(max, s.At(j.handle), j)
    && forall h :: h != j.handle ==> t.At(h) == s.At(h)
  }

  lemma FreshJob(max: nat, s: State, j: Job)
    requires Inv(max, s) && Key(j) !in s.running
    ensures AgentInv(max, j.handle, s.At(j.handle)) && j !in s.At(j.handle).Live()
  {
    assert !IsLive(s, j);
  }

  lemma AcceptedKeys(max: nat, s: State, t: State, j: Job)
    requires KeyInv(s) && Accepted(max, s, t, j)
    requires t.At(j.handle).Live() == s.At(j.handle).Live() + multiset{j}
    ensures KeyInv(t)
  {
    LiveAdded(s, t, j);
    AddKey(s, t, j);
  }

  lemma AcceptedInv(max: nat, s: State, t: State, j: Job)
    requires Inv(max, s) && s.At(j.handle).granted == [] && Accepted(max, s, t, j)
    ensures Inv(max, t)
  {
    FreshJob(max, s, j);
    EnterKeeps(max, s.At(j.handle), j);
    AcceptedKeys(max, s, t, j);
    OneAgent(max, s, t, j.handle);
  }

  lemma AcceptKeepsInv(max: nat, s: State, j: Job)
    requires Inv(max, s) && s.At(j.handle).granted == [] && Key(j) !in s.running
    ensures Inv(max, Wake(max, s, j))
  {
    AcceptedInv(max, s, Wake(max, s, j), j);
  }

  lemma ResumeKeepsInv(max: nat, s: State, h: string)
    requires Inv(max, s) && s.At(h).granted != []
    ensures Inv(max, Resume(s, h))
  {
    assert AgentInv(max, h, s.At(h));
    var t := Resume(s, h);
    CountKeeps(max, h, s.At(h));
    LiveKept(s, t, h);
    SameKeys(s, t);
    OneAgent(max, s, t, h);
  }

  lemma FinishKeepsInv(max: nat, s: State, h: string, i: nat)
    requires Inv(max, s) && i < |s.At(h).held|
    ensures Inv(max, Finish(s, h, i))
  {
    var t, j := Finish(s, h, i), s.At(h).held[i];
    assert AgentInv(max, h, s.At(h));
    ReleaseKeeps(max, h, s.At(h), i);
    assert j in s.At(h).Live();
    LiveRemoved(s, t, j);
    RemoveKey(s, t, j);
    OneAgent(max, s, t, h);
  }

  lemma StepKeepsInv(max: nat, s: State, step: Step)
    requires Inv(max, s) && Enabled(s, step)
    ensures Inv(max, Next(max, s, step))
  {
    match step
    case WakeStep(j) => if Key(j) !in s.running { AcceptKeepsInv(max, s, j); }
    case ResumeStep(h) => ResumeKeepsInv(max, s, h);
    case FinishStep(h, i) => FinishKeepsInv(max, s, h, i);
  }

  lemma {:induction false} RunKeepsInv(max: nat, s: State, steps: seq<Step>)
    requires Inv(max, s) && Runs(max, s, steps)
    ensures Inv(max, Exec(max, s, steps))
    decreases |steps|
  {
    if steps != [] {
      StepKeepsInv(max, s, steps[0]);
      RunKeepsInv(max, Next(max, s, steps[0]), steps[1..]);
    }
  }

  // ---- what every run keeps ----

  lemma InitInv(max: nat)
    ensures Inv(max, INIT)
  {
    assert forall h :: INIT.At(h) == IDLE;
  }

  lemma InvAt(max: nat, s: State, h: string)
    requires Inv(max, s)
    ensures AgentInv(max, h, s.At(h))
    ensures forall j :: j in s.At(h).Live() ==> j.handle == h && Key(j) in s.running
  {
    assert AgentInv(max, h, s.At(h));
    forall j | j in s.At(h).Live()
      ensures j.handle == h && Key(j) in s.running
    {
      assert IsLive(s, j);
    }
  }

  /** Capacity, no lost wakeup and first come first served, over every run. */
  lemma SchedulerSafety(max: nat, steps: seq<Step>, h: string)
    requires Runs(max, INIT, steps)
    ensures var a := Exec(max, INIT, steps).At(h);
            && a.slots == |a.held|
            && |a.held| + |a.granted| <= max
            && (a.queue != [] ==> |a.held| + |a.granted| == max)
            && a.accepted == a.started + a.granted + a.queue
  {
    InitInv(max);
    RunKeepsInv(max, INIT, steps);
    InvAt(max, Exec(max, INIT, steps), h);
  }

  /** The wakes of an agent that a run does not drop, in order. */
  ghost function Undropped(max: nat, s: State, steps: seq<Step>, h: string): seq<Job>
    requires Runs(max, s, steps)
    decreases |steps|
  {
    if steps == [] then []
    else
      var step := steps[0];
      (if step.WakeStep? && step.job.handle == h && Key(step.job) !in s.running then [step.job] else [])
      + Undropped(max, Next(max, s, step), steps[1..], h)
  }

  lemma {:induction false} AcceptedIsUndropped(max: nat, s: State, steps: seq<Step>, h: string)
    requires Runs(max, s, steps)
    ensures Exec(max, s, steps).At(h).accepted == s.At(h).accepted + Undropped(max, s, steps, h)
    decreases |steps|
  {
    if steps != [] {
      var t := Next(max, s, steps[0]);
      AcceptedIsUndropped(max, t, steps[1..], h);
    }
  }

  /** First come, first served: what an agent started is a prefix of its undropped wakes, and the rest still waits in order. */
  lemma StartsInOrder(max: nat, steps: seq<Step>, h: string)
    requires Runs(max, INIT, steps)
    ensures var a := Exec(max, INIT, steps).At(h); a.started + a.granted + a.queue == Undropped(max, INIT, steps, h)
  {
    SchedulerSafety(max, steps, h);
    AcceptedIsUndropped(max, INIT, steps, h);
  }

  /** Over every run the running keys are the keys of the live jobs, and no key or job is live twice. */
  lemma RunningIsExact(max: nat, steps: seq<Step>)
    requires Runs(max, INIT, steps)
    ensures var s := Exec(max, INIT, steps);
            && (forall k :: k in s.running <==> exists j :: IsLive(s, j) && Key(j) == k)
            && (forall j, k :: IsLive(s, j) && IsLive(s, k) && Key(j) == Key(k) ==> j == k)
            && (forall h :: Own(h, s.At(h).Live()))
  {
    InitInv(max);
    RunKeepsInv(max, INIT, steps);
    var s := Exec(max, INIT, steps);
    forall h ensures Own(h, s.At(h).Live()) {
      assert AgentInv(max, h, s.At(h));
    }
  }

  /** A finishing job always owns a counted slot, so neither the clamp nor the default of 1 acts. */
  lemma ClampNeverActs(max: nat, steps: seq<Step>, h: string, i: nat)
    requires Runs(max, INIT, steps)
    requires i < |Exec(max, INIT, steps).At(h).held|
    ensures var s := Exec(max, INIT, steps);
            s.At(h).slots >= 1 && Finish(s, h, i).At(h).slots == s.At(h).slots - 1
  {
    SchedulerSafety(max, steps, h);
  }

  /** A fresh key's wake keeps first come, first served exactly when no woken waiter is still uncounted. */
  lemma DrainIsExactlyNeeded(max: nat, s: State, j: Job)
    requires Inv(max, s) && Key(j) !in s.running
    ensures var a := Wake(max, s, j).At(j.handle);
            a.accepted == a.started + a.granted + a.queue <==> s.At(j.handle).granted == []
    ensures AgentInv(max, j.handle, Wake(max, s, j).At(j.handle)) <==> s.At(j.handle).granted == []
  {
    var a := s.At(j.handle);
    var b := Enter(max, a, j);
    FreshJob(max, s, j);
    assert Wake(max, s, j).At(j.handle) == b;
    if a.granted == [] {
      EnterKeeps(max, a, j);
    } else {
      assert a.slots < max;
      var n := |a.started|;
      assert b.started[n] == j && b.accepted[n] == a.granted[0];
      assert a.granted[0] in a.Live();
      assert (b.started + b.granted + b.queue)[n] == j;
    }
  }

  // ---- capacity without the drain assumption ----

  /** Steps that may follow one another whether or not the microtasks have drained. */
  ghost predicate Goes(max: nat, s: State, steps: seq<Step>)
    decreases |steps|
  {
    steps == [] || (Possible(s, steps[0]) && Goes(max, Next(max, s, steps[0]), steps[1..]))
  }

  /** No woken waiter of the agent is uncounted, or a slot is left over even when all of them are counted. */
  predicate Room(max: nat, a: Agent) {
    a.granted == [] || |a.held| + |a.granted| < max
  }

  ghost predicate AllBounded(max: nat, s: State) {
    forall h :: Bounded(max, s.At(h))
  }

  /** A step that is no accepted wake, or an accepted wake that finds room. */
  ghost predicate FindsRoom(max: nat, s: State, step: Step) {
    step.WakeStep? && Key(step.job) !in s.running ==> Room(max, s.At(step.job.handle))
  }

  ghost predicate AlwaysBounded(max: nat, s: State, steps: seq<Step>)
    requires Goes(max, s, steps)
    decreases |steps|
  {
    AllBounded(max, s) && (steps == [] || AlwaysBounded(max, Next(max, s, steps[0]), steps[1..]))
  }

  ghost predicate AlwaysRoom(max: nat, s: State, steps: seq<Step>)
    requires Goes(max, s, steps)
    decreases |steps|
  {
    steps == [] || (FindsRoom(max, s, steps[0]) && AlwaysRoom(max, Next(max, s, steps[0]), steps[1..]))
  }

  lemma StepBounded(max: nat, s: State, step: Step, h: string)
    requires AllBounded(max, s) && Possible(s, step)
    ensures FindsRoom(max, s, step) ==> Bounded(max, Next(max, s, step).At(h))
    ensures !FindsRoom(max, s, step) ==> !Bounded(max, Next(max, s, step).At(step.job.handle))
  {
    assert Bounded(max, s.At(h));
    if step.WakeStep? {
      assert Bounded(max, s.At(step.job.handle));
    }
  }

  lemma StepKeepsBounds(max: nat, s: State, step: Step)
    requires AllBounded(max, s) && Possible(s, step)
    ensures AllBounded(max, Next(max, s, step)) <==> FindsRoom(max, s, step)
  {
    forall h ensures FindsRoom(max, s, step) ==> Bounded(max, Next(max, s, step).At(h)) {
      StepBounded(max, s, step, h);
    }
    StepBounded(max, s, step, "");
  }

  lemma {:induction false} BoundedExactly(max: nat, s: State, steps: seq<Step>)
    requires AllBounded(max, s) && Goes(max, s, steps)
    ensures AlwaysBounded(max, s, steps) <==> AlwaysRoom(max, s, steps)
    decreases |steps|
  {
    if steps != [] {
      StepKeepsBounds(max, s, steps[0]);
      var t := Next(max, s, steps[0]);
      if FindsRoom(max, s, steps[0]) {
        BoundedExactly(max, t, steps[1..]);
      } else {
        assert !AlwaysBounded(max, t, steps[1..]);
      }
    }
  }

  /**
   * The exact condition of the slot bound: over any history, drained or not, capacity and no lost wakeup
   * hold for all agents at every moment if and only if every accepted wake finds room.
   */
  lemma CapacityIsExact(max: nat, steps: seq<Step>)
    requires Goes(max, INIT, steps)
    ensures AlwaysBounded(max, INIT, steps) <==> AlwaysRoom(max, INIT, steps)
  {
    assert forall h :: INIT.At(h) == IDLE;
    BoundedExactly(max, INIT, steps);
  }

  /** With room for one job: a wake that arrives before the woken waiter has run ends with two holders. */
  lemma UndrainedOvershoot()
    ensures var a, b, c := Job("x", "1"), Job("x", "2"), Job("x", "3");
            var s := Finish(Wake(1, Wake(1, INIT, a), b), "x", 0);
            && Possible(s, WakeStep(c)) && !Enabled(s, WakeStep(c))
            && Resume(Wake(1, s, c), "x").At("x").held == [c, b]
            && Resume(Wake(1, s, c), "x").At("x").slots == 2
  {
    var a, b, c := Job("x", "1"), Job("x", "2"), Job("x", "3");
    assert Key(a)[2] == '1' && Key(b)[2] == '2' && Key(c)[2] == '3';
    var s1 := Wake(1, INIT, a);
    var s2 := Wake(1, s1, b);
    assert s2.At("x") == Agent(1, [b], [], [a], [a, b], [a]);
    var s := Finish(s2, "x", 0);
    assert s.At("x") == Agent(0, [], [b], [], [a, b], [a]);
    assert s.running == {Key(b)};
  }

  // ---- nothing starves ----

  function Work(a: Agent): nat {
    3 * |a.queue| + 2 * |a.granted| + |a.held|
  }

  ghost function Touches(steps: seq<Step>, h: string): nat {
    if steps == [] then 0
    else (if !steps[0].WakeStep? && steps[0].handle == h then 1 else 0) + Touches(steps[1..], h)
  }

  /** Without new wakes an agent takes at most `Work` more steps, and it accepts nothing more. */
  lemma {:induction false} QuietRunIsBounded(max: nat, s: State, steps: seq<Step>, h: string)
    requires Runs(max, s, steps)
    requires forall i :: 0 <= i < |steps| ==> !steps[i].WakeStep?
    ensures Touches(steps, h) + Work(Exec(max, s, steps).At(h)) <= Work(s.At(h))
    ensures Exec(max, s, steps).At(h).accepted == s.At(h).accepted
    decreases |steps|
  {
    if steps != [] {
      var t := Next(max, s, steps[0]);
      assert !steps[0].WakeStep?;
      assert steps[0].handle != h ==> t.At(h) == s.At(h);
      QuietRunIsBounded(max, t, steps[1..], h);
    }
  }

  /** When an agent has no step left, every wake it ever accepted has been started, in order. */
  lemma NothingStarves(max: nat, steps: seq<Step>, h: string)
    requires max >= 1 && Runs(max, INIT, steps)
    requires var a := Exec(max, INIT, steps).At(h); a.held == [] && a.granted == []
    ensures var a := Exec(max, INIT, steps).At(h); a.started == a.accepted
  {
    SchedulerSafety(max, steps, h);
  }

  // ---- what the de-duplication drops ----

  lemma SuffixesAgree(x: string, y: string, t: string, u: string)
    requires x + t == y + u && |x| <= |y|
    ensures x <= y && t == y[|x|..] + u
  {
    assert y == (y + u)[..|y|];
    assert x == (x + t)[..|x|];
    assert t == (x + t)[|x|..] && (y + u)[|x|..] == y[|x|..] + u;
  }

  /** Two handles can be confused exactly when one of them, with a colon, starts the other. */
  predicate Confusable(h: string, g: string) {
    h + ":" <= g || g + ":" <= h
  }

  lemma ConfusedKeys(h: string, g: string) returns (t: string, u: string)
    requires h + ":" <= g
    ensures Key(Job(h, t)) == Key(Job(g, u))
  {
    var rest := g[|h| + 1..];
    assert g == h + ":" + rest;
    t, u := rest + ":", "";
  }

  lemma SharedKey(j: Job, k: Job)
    requires Key(j) == Key(k) && |j.handle| <= |k.handle|
    ensures j == k || j.handle + ":" <= k.handle
  {
    Assoc(j.handle, ":", j.task);
    Assoc(k.handle, ":", k.task);
    SuffixesAgree(j.handle, k.handle, ":" + j.task, ":" + k.task);
    if |j.handle| == |k.handle| {
      assert j.handle == k.handle && (":" + j.task)[1..] == j.task && (":" + k.task)[1..] == k.task;
    } else {
      assert k.handle[|j.handle|] == (":" + j.task)[0] == ':';
    }
  }

  lemma KeyInjective(j: Job, k: Job)
    requires ':' !in j.handle && ':' !in k.handle
    requires Key(j) == Key(k)
    ensures j == k
  {
    assert forall h: string :: (h + ":")[|h|] == ':';
    if |j.handle| <= |k.handle| {
      SharedKey(j, k);
    } else {
      SharedKey(k, j);
    }
  }

  /** The exact law of the joined keys: some tasks of two different agents share a key iff the handles are confusable. */
  lemma KeysCollideExactly(h: string, g: string)
    requires h != g
    ensures (exists t, u :: Key(Job(h, t)) == Key(Job(g, u))) <==> Confusable(h, g)
  {
    if t, u :| Key(Job(h, t)) == Key(Job(g, u)) {
      if |h| <= |g| {
        SharedKey(Job(h, t), Job(g, u));
      } else {
        SharedKey(Job(g, u), Job(h, t));
      }
    }
    if h + ":" <= g {
      var t, u := ConfusedKeys(h, g);
    } else if g + ":" <= h {
      var u, t := ConfusedKeys(g, h);
    }
  }

  /** Whatever the handles: a key shared by two jobs needs a colon in one of the task ids. */
  lemma SharedKeyNeedsColon(j: Job, k: Job)
    requires Key(j) == Key(k) && j != k
    ensures ':' in j.task || ':' in k.task
  {
    if |j.handle| <= |k.handle| {
      ColonInTask(j, k);
    } else {
      ColonInTask(k, j);
    }
  }

  lemma ColonInTask(j: Job, k: Job)
    requires Key(j) == Key(k) && j != k && |j.handle| <= |k.handle|
    ensures ':' in j.task
  {
    SharedKey(j, k);
    var n := |k.handle|;
    assert Key(k)[n] == ':' && Key(j)[n] == j.task[n - |j.handle| - 1];
  }

  /** The jobs that decide whether `j` is dropped rightly: a live job of another agent shares no key with it. */
  lemma DropsExactlyLiveTasks(max: nat, s: State, j: Job)
    requires Inv(max, s)
    requires || (':' !in j.task && forall k :: IsLive(s, k) ==> ':' !in k.task)
             || (forall k :: IsLive(s, k) && k.handle != j.handle ==> !Confusable(k.handle, j.handle))
    ensures Wake(max, s, j) == s <==> IsLive(s, j)
  {
    if Key(j) in s.running {
      var k :| IsLive(s, k) && Key(k) == Key(j);
      if k != j {
        SharedKeyNeedsColon(k, j);
        if |j.handle| <= |k.handle| {
          SharedKey(j, k);
        } else {
          SharedKey(k, j);
        }
        assert false;
      }
    } else {
      assert Key(j) in Wake(max, s, j).running;
    }
  }

  ghost predicate ColonFree(s: State, task: string) {
    ':' !in task && forall k :: IsLive(s, k) ==> ':' !in k.task
  }

  lemma WokenIsLive(max: nat, s: State, j: Job)
    requires Key(j) !in s.running
    ensures forall k :: IsLive(Wake(max, s, j), k) <==> IsLive(s, k) || k == j
  {
    EnterLive(max, s.At(j.handle), j);
    LiveAdded(s, Wake(max, s, j), j);
  }

  /** Different threads of a channel are never dropped for each other: a wake for another task joins the live one. */
  lemma TasksDoNotBlockEachOther(max: nat, s: State, h: string, task: string, other: string)
    requires Inv(max, s) && ColonFree(s, other) && IsLive(s, Job(h, task)) && !IsLive(s, Job(h, other))
    ensures var t := Wake(max, s, Job(h, other)); IsLive(t, Job(h, task)) && IsLive(t, Job(h, other))
  {
    DropsExactlyLiveTasks(max, s, Job(h, other));
    WokenIsLive(max, s, Job(h, other));
  }

  /** For these agents the scheduler drops, in every state it can be in, exactly the wakes of live tasks. */
  ghost predicate DropsRightly(max: nat, handles: set<string>) {
    forall s: State, j: Job :: Inv(max, s) && j.handle in handles && (forall k :: IsLive(s, k) ==> k.handle in handles)
      ==> (Wake(max, s, j) == s <==> IsLive(s, j))
  }

  lemma OneLiveJob(max: nat, k: Job)
    ensures Inv(max, Wake(max, INIT, k)) && Wake(max, INIT, k).running == {Key(k)}
    ensures forall j :: IsLive(Wake(max, INIT, k), j) <==> j == k
  {
    InitInv(max);
    AcceptKeepsInv(max, INIT, k);
    EnterKeeps(max, INIT.At(k.handle), k);
    LiveAdded(INIT, Wake(max, INIT, k), k);
  }

  lemma ConfusableDropsWrongly(max: nat, handles: set<string>, h: string, g: string)
    requires h in handles && g in handles && h + ":" <= g
    ensures !DropsRightly(max, handles)
  {
    var t, u := ConfusedKeys(h, g);
    var j, k := Job(h, t), Job(g, u);
    OneLiveJob(max, k);
    var s := Wake(max, INIT, k);
    assert Wake(max, s, j) == s && !IsLive(s, j);
  }

  /** Arbitrary task ids are told apart for a set of agents iff no two of their handles are confusable. */
  lemma DeduplicationIsExact(max: nat, handles: set<string>)
    ensures DropsRightly(max, handles)
            <==> forall h, g :: h in handles && g in handles && h != g ==> !Confusable(h, g)
  {
    if h, g :| h in handles && g in handles && h != g && Confusable(h, g) {
      if h + ":" <= g {
        ConfusableDropsWrongly(max, handles, h, g);
      } else {
        ConfusableDropsWrongly(max, handles, g, h);
      }
    } else {
      forall s: State, j: Job | Inv(max, s) && j.handle in handles && (forall k :: IsLive(s, k) ==> k.handle in handles)
        ensures Wake(max, s, j) == s <==> IsLive(s, j)
      {
        DropsExactlyLiveTasks(max, s, j);
      }
    }
  }

  /** A task id with a colon: one agent's wake swallows another's. */
  lemma ColonCollision(max: nat)
    ensures var a, b := Job("a", "b:c"), Job("a:b", "c");
            a.handle != b.handle && Wake(max, Wake(max, INIT, a), b) == Wake(max, INIT, a)
  {
    assert Key(Job("a", "b:c")) == "a:b:c" == Key(Job("a:b", "c"));
  }

  /**
   * A start for one task of an agent: skipped exactly when its key is running (with colon-free ids: when that
   * very task is live), otherwise the task is live afterwards.
   */
  ghost predicate StartedAs(max: nat, before: State, after: State, handle: string, task: string, skipped: bool) {
    && skipped == (handle + ":" + task in before.running)
    && (ColonFree(before, task) ==> (skipped <==> IsLive(before, Job(handle, task))))
    && after == Wake(max, before, Job(handle, task))
    && (if skipped then after == before else IsLive(after, Job(handle, task)))
  }

  lemma StartIsRight(max: nat, s: State, j: Job)
    requires Inv(max, s)
    ensures StartedAs(max, s, Wake(max, s, j), j.handle, j.task, Key(j) in s.running)
  {
    if ColonFree(s, j.task) {
      DropsExactlyLiveTasks(max, s, j);
    }
    if Key(j) !in s.running {
      WokenIsLive(max, s, j);
    }
  }

  // ---- the closures of `serve` over their three mutable collections ----

  ghost predicate Tied(slots: map<string, int>, queue: map<string, seq<Job>>, s: State, h: string) {
    Get(slots, h, 0) == s.At(h).slots && Get(queue, h, []) == s.At(h).queue
  }

  ghost predicate Mirrors(slots: map<string, int>, queue: map<string, seq<Job>>, s: State) {
    forall h :: Tied(slots, queue, s, h)
  }

  lemma MirrorsAfter(slots: map<string, int>, queue: map<string, seq<Job>>, s: State,
                     slots': map<string, int>, queue': map<string, seq<Job>>, t: State, h: string)
    requires Mirrors(slots, queue, s) && Tied(slots', queue', t, h)
    requires slots' == slots || (h in slots' && slots' == slots[h := slots'[h]])
    requires queue' == queue || (h in queue' && queue' == queue[h := queue'[h]])
    requires h in t.agents && t.agents == s.agents[h := t.agents[h]]
    ensures Mirrors(slots', queue', t)
  {
    forall g ensures Tied(slots', queue', t, g) {
      assert Tied(slots, queue, s, g);
    }
  }

  /** `acquireSlot` up to its await: either a slot is counted or the job is pushed on the queue. */
  ghost predicate Acquired(max: nat, slots: map<string, int>, queue: map<string, seq<Job>>, j: Job,
                           slots': map<string, int>, queue': map<string, seq<Job>>)
  {
    var n, h := Get(slots, j.handle, 0), j.handle;
    if n < max then slots' == slots[h := n + 1] && queue' == queue
    else slots' == slots && queue' == queue[h := Get(queue, h, []) + [j]]
  }

  lemma AcceptMirrors(max: nat, slots: map<string, int>, queue: map<string, seq<Job>>, s: State, j: Job,
                      slots': map<string, int>, queue': map<string, seq<Job>>)
    requires Mirrors(slots, queue, s) && Key(j) !in s.running
    requires Acquired(max, slots, queue, j, slots', queue')
    ensures Mirrors(slots', queue', Wake(max, s, j))
  {
    assert Tied(slots, queue, s, j.handle);
    assert Tied(slots', queue', Wake(max, s, j), j.handle);
    MirrorsAfter(slots, queue, s, slots', queue', Wake(max, s, j), j.handle);
  }

  class SlotScheduler {
    const maxParallel: nat
    var running: set<string>
    var agentSlots: map<string, int>
    var waitQueue: map<string, seq<Job>>
    ghost var model: State

    ghost predicate Valid()
      reads this
    {
      Inv(maxParallel, model) && running == model.running && Mirrors(agentSlots, waitQueue, model)
    }

    constructor (maxParallel: nat)
      ensures Valid() && model == INIT && this.maxParallel == maxParallel
    {
      this.maxParallel := maxParallel;
      running, agentSlots, waitQueue := {}, map[], map[];
      model := INIT;
      InitInv(maxParallel);
    }

    /** The part of `acquireSlot` before its await; `false` means the caller now waits in the queue. */
    method AcquireSlot(j: Job) returns (taken: bool)
      modifies this`agentSlots, this`waitQueue
      ensures taken == (Get(old(agentSlots), j.handle, 0) < maxParallel)
      ensures Acquired(maxParallel, old(agentSlots), old(waitQueue), j, agentSlots, waitQueue)
    {
      var n := Get(agentSlots, j.handle, 0);
      if n < maxParallel {
        agentSlots := agentSlots[j.handle := n + 1];
        return true;
      }
      var q := Get(waitQueue, j.handle, []);
      q := q + [j];
      waitQueue := waitQueue[j.handle := q];
      return false;
    }

    /** Gives a slot back and shifts one waiter off the queue. */
    method ReleaseSlot(handle: string) returns (woken: Option<Job>)
      modifies this`agentSlots, this`waitQueue
      ensures agentSlots == old(agentSlots)[handle := Max(0, Get(old(agentSlots), handle, 1) - 1)]
      ensures var q := Get(old(waitQueue), handle, []);
              if q == [] then woken == None && waitQueue == old(waitQueue)
              else woken == Some(q[0]) && waitQueue == old(waitQueue)[handle := q[1..]]
    {
      agentSlots := agentSlots[handle := Max(0, Get(agentSlots, handle, 1) - 1)];
      var q := Get(waitQueue, handle, []);
      if q != [] {
        woken := Some(q[0]);
        waitQueue := waitQueue[handle := q[1..]];
      } else {
        woken := None;
      }
    }

    method OnAgentStart(handle: string, channelId: string, threadId: Option<string>) returns (skipped: bool)
      requires Valid() && Drained(model)
      modifies this
      ensures Valid()
      ensures match threadId
              case Some(thread) => StartedAs(maxParallel, old(model), model, handle, thread, skipped)
              case None => StartedAs(maxParallel, old(model), model, handle, channelId, skipped)
    {
      var taskKey := if threadId.Some? then threadId.value else channelId;
      var j := Job(handle, taskKey);
      StartIsRight(maxParallel, model, j);
      if Key(j) in running {
        return true;
      }
      AcceptKeepsInv(maxParallel, model, j);
      Accept(j);
      model := Wake(maxParallel, model, j);
      return false;
    }

    /** Enters the key and takes a slot or a place in the queue. */
    method Accept(j: Job)
      requires Mirrors(agentSlots, waitQueue, model) && Key(j) !in model.running
      modifies this`running, this`agentSlots, this`waitQueue
      ensures running == old(running) + {Key(j)}
      ensures Mirrors(agentSlots, waitQueue, Wake(maxParallel, model, j))
    {
      ghost var slots, queue := agentSlots, waitQueue;
      running := running + {Key(j)};
      var taken := AcquireSlot(j);
      AcceptMirrors(maxParallel, slots, queue, model, j, agentSlots, waitQueue);
    }

    /** The continuation of `acquireSlot` after its await. */
    method ResumeWaiter(handle: string)
      requires Valid() && model.At(handle).granted != []
      modifies this
      ensures Valid() && model == Resume(old(model), handle)
    {
      ghost var slots, s := agentSlots, model;
      ResumeKeepsInv(maxParallel, s, handle);
      assert Tied(slots, waitQueue, s, handle);
      agentSlots := agentSlots[handle := Get(agentSlots, handle, 0) + 1];
      model := Resume(s, handle);
      MirrorsAfter(slots, waitQueue, s, agentSlots, waitQueue, model, handle);
    }

    /** The `finally` block of a run. */
    method FinishRun(j: Job, ghost i: nat)
      requires Valid() && i < |model.At(j.handle).held| && model.At(j.handle).held[i] == j
      modifies this
      ensures Valid() && model == Finish(old(model), j.handle, i)
      ensures running == old(running) - {j.handle + ":" + j.task}
      ensures var q := Get(old(waitQueue), j.handle, []); Get(waitQueue, j.handle, []) == if q == [] then [] else q[1..]
    {
      ghost var slots, queue, s := agentSlots, waitQueue, model;
      FinishKeepsInv(maxParallel, s, j.handle, i);
      assert AgentInv(maxParallel, j.handle, s.At(j.handle));
      assert Tied(slots, queue, s, j.handle);
      running := running - {Key(j)};
      var woken := ReleaseSlot(j.handle);
      model := Finish(s, j.handle, i);
      MirrorsAfter(slots, queue, s, agentSlots, waitQueue, model, j.handle);
    }
  }
}
