/**
 * Reminders: the owner's operations and the worker's ticks. A tick scans once, then fires each due
 * reminder in two database calls, while the owners keep changing rows in between.
 */
module Reminders {
  import opened Basics
  import opened BoundedScan

  datatype Kind = Once | Recurring
  datatype Status = Scheduled | Snoozed | Done | Cancelled

  datatype Reminder = Reminder(owner: string, kind: Kind, cron: Option<string>, timezone: string, next: Option<int>, status: Status) {
    predicate Armed() { status == Scheduled || status == Snoozed }
    predicate DueAt(now: int) { Armed() && next.Some? && next.value <= now }
  }

  /** The next time of a cron expression in a time zone after a moment. */
  type Cron = (string, string, int) -> int

  ghost predicate StrictlyLater(cron: Cron) {
    forall c, z, t :: cron(c, z, t) > t
  }

  /** What firing leaves behind: the next time of a recurring reminder, else done. */
  function Rearmed(cron: Cron, row: Reminder, now: int): (Option<int>, Status) {
    if row.kind == Recurring && row.cron.Some? && row.cron.value != "" then (Some(cron(row.cron.value, row.timezone, now)), Scheduled)
    else (None, Done)
  }

  // ---- the state machine ----

  /** A row as the scan returned it. */
  datatype Entry = Entry(id: string, row: Reminder)

  /** `fired` means that the head's event is written and its row not yet; `cancelled` are the ids cancelled, and not snoozed again, since the scan. */
  datatype Tick = Idle | Firing(now: int, queue: seq<Entry>, fired: bool, cancelled: set<string>)

  datatype Event =
    | SnoozedEvent(id: string)
    | CancelledEvent(id: string)
    | FiredEvent(id: string, now: int, due: int, status: Status, late: bool)

  datatype State = State(rows: map<string, Reminder>, hist: seq<Event>, tick: Tick)

  const INIT := State(map[], [], Idle)

  datatype Step =
    | Schedule(id: string, owner: string, kind: Kind, cron: Option<string>, timezone: string, next: int)
    | Snooze(id: string, owner: string, until: int)
    | Update(id: string, owner: string, newCron: Option<string>, newNext: Option<int>)
    | Cancel(id: string, owner: string)
    | Scan(now: int, found: seq<string>)
    | Fire
    | Mark

  ghost predicate Enabled(s: State, step: Step) {
    match step
    case Schedule(id, _, _, _, _, _) => id !in s.rows
    case Scan(now, found) => s.tick.Idle? && NoDup(found) && forall id :: id in found ==> id in s.rows && s.rows[id].DueAt(now)
    case Fire => s.tick.Firing? && s.tick.queue != [] && !s.tick.fired
    case Mark => s.tick.Firing? && s.tick.queue != [] && s.tick.fired && s.tick.queue[0].id in s.rows
    case _ => true
  }

  /** An owner-scoped update: a missing row or a foreign owner changes nothing. */
  predicate Owns(s: State, id: string, owner: string) {
    id in s.rows && s.rows[id].owner == owner
  }

  function Entries(rows: map<string, Reminder>, found: seq<string>): (q: seq<Entry>)
    requires forall id :: id in found ==> id in rows
    ensures |q| == |found| && forall i :: 0 <= i < |q| ==> q[i] == Entry(found[i], rows[found[i]])
  {
    seq(|found|, i requires 0 <= i < |found| => Entry(found[i], rows[found[i]]))
  }

  ghost function Next(cron: Cron, s: State, step: Step): State
    requires Enabled(s, step)
  {
    match step
    case Schedule(id, owner, kind, c, z, next) =>
      s.(rows := s.rows[id := Reminder(owner, kind, c, z, Some(next), Scheduled)])
    case Snooze(id, owner, until) =>
      if Owns(s, id, owner) then
        State(s.rows[id := s.rows[id].(next := Some(until), status := Snoozed)], s.hist + [SnoozedEvent(id)],
              if s.tick.Firing? then s.tick.(cancelled := s.tick.cancelled - {id}) else s.tick)
      else s
    case Update(id, owner, c, n) =>
      if Owns(s, id, owner) then
        s.(rows := s.rows[id := s.rows[id].(cron := if c.Some? then c else s.rows[id].cron,
                                            next := if n.Some? then n else s.rows[id].next)])
      else s
    case Cancel(id, owner) =>
      if Owns(s, id, owner) then
        State(s.rows[id := s.rows[id].(status := Cancelled)], s.hist + [CancelledEvent(id)],
              if s.tick.Firing? then s.tick.(cancelled := s.tick.cancelled + {id}) else s.tick)
      else s
    case Scan(now, found) =>
      if found == [] then s else s.(tick := Firing(now, Entries(s.rows, found), false, {}))
    case Fire =>
      var e := s.tick.queue[0];
      s.(hist := s.hist + [FiredEvent(e.id, s.tick.now, if e.row.next.Some? then e.row.next.value else 0,
                                      if e.id in s.rows then s.rows[e.id].status else Done, e.id in s.tick.cancelled)],
         tick := s.tick.(fired := true))
    case Mark =>
      var e := s.tick.queue[0];
      var (n, st) := Rearmed(cron, e.row, s.tick.now);
      s.(rows := s.rows[e.id := s.rows[e.id].(next := n, status := st)],
         tick := if |s.tick.queue| == 1 then Idle else s.tick.(queue := s.tick.queue[1..], fired := false))
  }

  ghost predicate Runs(cron: Cron, s: State, steps: seq<Step>)
    decreases |steps|
  {
    steps == [] || (Enabled(s, steps[0]) && Runs(cron, Next(cron, s, steps[0]), steps[1..]))
  }

  ghost function Exec(cron: Cron, s: State, steps: seq<Step>): State
    requires Runs(cron, s, steps)
    decreases |steps|
  {
    if steps == [] then s else Exec(cron, Next(cron, s, steps[0]), steps[1..])
  }

  // ---- armed rows have a time, and what is fired was due ----

  ghost predicate RowInv(s: State) {
    forall id :: id in s.rows ==> s.rows[id].Armed() ==> s.rows[id].next.Some?
  }

  /** Entry `i` of the running tick: scanned while due; while it waits, armed unless it was cancelled since. */
  ghost predicate EntryInv(s: State, i: nat)
    requires s.tick.Firing? && i < |s.tick.queue|
  {
    var e := s.tick.queue[i];
    && e.id in s.rows && e.row.kind == s.rows[e.id].kind && e.row.DueAt(s.tick.now)
    && (i > 0 || !s.tick.fired ==>
          if e.id in s.tick.cancelled then s.rows[e.id].status == Cancelled else s.rows[e.id].Armed())
  }

  ghost predicate QueueInv(s: State) {
    s.tick.Firing? ==>
      && s.tick.queue != []
      && (forall i, j :: 0 <= i < j < |s.tick.queue| ==> s.tick.queue[i].id != s.tick.queue[j].id)
      && (forall i :: 0 <= i < |s.tick.queue| ==> EntryInv(s, i))
  }

  ghost predicate LawfulFire(e: Event) {
    e.FiredEvent? ==> e.due <= e.now && e.status != Done && (e.status == Cancelled <==> e.late)
  }

  ghost predicate HistInv(s: State) {
    forall i :: 0 <= i < |s.hist| ==> LawfulFire(s.hist[i])
  }

  ghost predicate Inv(s: State) {
    RowInv(s) && QueueInv(s) && HistInv(s)
  }

  lemma EntryKept(cron: Cron, s: State, step: Step, i: nat)
    requires Inv(s) && Enabled(s, step) && !step.Scan? && !step.Mark?
    requires s.tick.Firing? && i < |s.tick.queue|
    ensures var t := Next(cron, s, step);
            t.tick.Firing? && t.tick.queue == s.tick.queue && EntryInv(t, i)
  {
    assert EntryInv(s, i);
  }

  lemma EntryAfterMark(cron: Cron, s: State, i: nat)
    requires Inv(s) && Enabled(s, Mark) && i + 1 < |s.tick.queue|
    ensures var t := Next(cron, s, Mark);
            t.tick.Firing? && t.tick.queue == s.tick.queue[1..] && EntryInv(t, i)
  {
    assert EntryInv(s, i + 1);
    assert s.tick.queue[0].id != s.tick.queue[i + 1].id;
  }

  lemma QueueKept(cron: Cron, s: State, step: Step)
    requires Inv(s) && Enabled(s, step)
    ensures QueueInv(Next(cron, s, step))
  {
    var t := Next(cron, s, step);
    if t.tick.Firing? && !step.Scan? {
      forall i | 0 <= i < |t.tick.queue| ensures EntryInv(t, i) {
        if step.Mark? {
          EntryAfterMark(cron, s, i);
        } else {
          EntryKept(cron, s, step, i);
        }
      }
    }
  }

  lemma HistKept(cron: Cron, s: State, step: Step)
    requires Inv(s) && Enabled(s, step)
    ensures HistInv(Next(cron, s, step))
  {
    if step.Fire? {
      assert EntryInv(s, 0);
    }
  }

  lemma {:induction false} RunKeepsInv(cron: Cron, s: State, steps: seq<Step>)
    requires Inv(s) && Runs(cron, s, steps)
    ensures Inv(Exec(cron, s, steps))
    decreases |steps|
  {
    if steps != [] {
      QueueKept(cron, s, steps[0]);
      HistKept(cron, s, steps[0]);
      RunKeepsInv(cron, Next(cron, s, steps[0]), steps[1..]);
    }
  }

  /**
   * Over every run, with owners acting between any two calls of a tick: an armed reminder has a time;
   * whatever fires was due at the scan; a done reminder never fires, and a cancelled one fires exactly
   * when it was cancelled, and not snoozed again, after the scan that found it.
   */
  lemma FiresAreLawful(cron: Cron, steps: seq<Step>, i: nat)
    requires Runs(cron, INIT, steps)
    ensures var s := Exec(cron, INIT, steps);
            && (forall id :: id in s.rows && s.rows[id].Armed() ==> s.rows[id].next.Some?)
            && (i < |s.hist| && s.hist[i].FiredEvent? ==>
                  s.hist[i].due <= s.hist[i].now && s.hist[i].status != Done && (s.hist[i].status == Cancelled <==> s.hist[i].late))
  {
    RunKeepsInv(cron, INIT, steps);
    assert i < |Exec(cron, INIT, steps).hist| ==> LawfulFire(Exec(cron, INIT, steps).hist[i]);
  }

  // ---- how often a once reminder fires ----

  function Fires(hist: seq<Event>, id: string): nat {
    if hist == [] then 0
    else Fires(hist[..|hist| - 1], id) + (if hist[|hist| - 1].FiredEvent? && hist[|hist| - 1].id == id then 1 else 0)
  }

  function Snoozes(hist: seq<Event>, id: string): nat {
    if hist == [] then 0
    else Snoozes(hist[..|hist| - 1], id) + (if hist[|hist| - 1].SnoozedEvent? && hist[|hist| - 1].id == id then 1 else 0)
  }

  lemma CountsAfter(hist: seq<Event>, e: Event, id: string)
    ensures Fires(hist + [e], id) == Fires(hist, id) + (if e.FiredEvent? && e.id == id then 1 else 0)
    ensures Snoozes(hist + [e], id) == Snoozes(hist, id) + (if e.SnoozedEvent? && e.id == id then 1 else 0)
  {
    assert (hist + [e])[..|hist|] == hist;
  }

  /** The fired event is written and the row is about to be. */
  predicate Marking(s: State, id: string) {
    s.tick.Firing? && s.tick.fired && s.tick.queue != [] && s.tick.queue[0].id == id
  }

  /** The running tick will still fire this reminder. */
  predicate Waiting(s: State, id: string) {
    s.tick.Firing? && exists i :: 0 <= i < |s.tick.queue| && (i > 0 || !s.tick.fired) && s.tick.queue[i].id == id
  }

  /** Firings that the present state already owes to a reminder. */
  function Owed(s: State, id: string): nat {
    if id !in s.rows || Marking(s, id) then 0
    else if s.rows[id].Armed() || Waiting(s, id) then 1 else 0
  }

  ghost predicate CountLaw(s: State, id: string) {
    if id !in s.rows then Fires(s.hist, id) == 0 == Snoozes(s.hist, id)
    else s.rows[id].kind == Once ==> Fires(s.hist, id) + Owed(s, id) <= 1 + Snoozes(s.hist, id)
  }

  lemma NotQueued(s: State, id: string)
    requires QueueInv(s) && id !in s.rows
    ensures !Marking(s, id) && !Waiting(s, id)
  {
    if s.tick.Firing? {
      forall i | 0 <= i < |s.tick.queue| ensures s.tick.queue[i].id != id {
        assert EntryInv(s, i);
      }
    }
  }

  lemma CancelKeepsCount(cron: Cron, s: State, step: Step, id: string)
    requires Inv(s) && Enabled(s, step) && step.Cancel? && CountLaw(s, id)
    ensures CountLaw(Next(cron, s, step), id)
  {
    CountsAfter(s.hist, CancelledEvent(step.id), id);
  }

  lemma ScanKeepsCount(cron: Cron, s: State, step: Step, id: string)
    requires Inv(s) && Enabled(s, step) && step.Scan? && CountLaw(s, id)
    ensures CountLaw(Next(cron, s, step), id)
  {
    var t := Next(cron, s, step);
    if Waiting(t, id) {
      assert id in step.found;
    }
  }

  lemma FireKeepsCount(cron: Cron, s: State, id: string)
    requires Inv(s) && Enabled(s, Fire) && CountLaw(s, id)
    ensures CountLaw(Next(cron, s, Fire), id)
  {
    var t := Next(cron, s, Fire);
    assert EntryInv(s, 0);
    CountsAfter(s.hist, t.hist[|s.hist|], id);
    if s.tick.queue[0].id == id {
      assert Waiting(s, id) && Marking(t, id);
    } else if Waiting(t, id) {
      assert Waiting(s, id);
    }
  }

  lemma MarkKeepsCount(cron: Cron, s: State, id: string)
    requires Inv(s) && Enabled(s, Mark) && CountLaw(s, id)
    ensures CountLaw(Next(cron, s, Mark), id)
  {
    var t := Next(cron, s, Mark);
    assert EntryInv(s, 0);
    if Waiting(t, id) {
      var i :| 0 <= i < |t.tick.queue| && t.tick.queue[i].id == id;
      assert s.tick.queue[i + 1].id == id;
      assert Waiting(s, id);
    }
  }

  lemma {:induction false} RunKeepsCount(cron: Cron, s: State, steps: seq<Step>, id: string)
    requires Inv(s) && Runs(cron, s, steps) && CountLaw(s, id)
    ensures CountLaw(Exec(cron, s, steps), id)
    decreases |steps|
  {
    if steps != [] {
      var step := steps[0];
      if step.Fire? {
        FireKeepsCount(cron, s, id);
      } else if step.Mark? {
        MarkKeepsCount(cron, s, id);
      } else if step.Scan? {
        ScanKeepsCount(cron, s, step, id);
      } else if step.Cancel? {
        CancelKeepsCount(cron, s, step, id);
      }
      QueueKept(cron, s, step);
      HistKept(cron, s, step);
      RunKeepsCount(cron, Next(cron, s, step), steps[1..], id);
    }
  }

  /** Between ticks a once reminder has fired, and may still fire, at most once more than it was snoozed. */
  lemma OnceFiresOncePerSnooze(cron: Cron, steps: seq<Step>, id: string)
    requires Runs(cron, INIT, steps)
    requires var s := Exec(cron, INIT, steps); s.tick.Idle? && id in s.rows && s.rows[id].kind == Once
    ensures var s := Exec(cron, INIT, steps);
            Fires(s.hist, id) + (if s.rows[id].Armed() then 1 else 0) <= 1 + Snoozes(s.hist, id)
  {
    RunKeepsCount(cron, INIT, steps, id);
  }

  lemma Prepend(cron: Cron, s: State, step: Step, rest: seq<Step>)
    requires Enabled(s, step) && Runs(cron, Next(cron, s, step), rest)
    ensures Runs(cron, s, [step] + rest) && Exec(cron, s, [step] + rest) == Exec(cron, Next(cron, s, step), rest)
  {
    assert ([step] + rest)[1..] == rest;
  }

  // ---- what survives a running tick ----

  /** The running tick has still to fire or to write this reminder. */
  predicate Pending(s: State, id: string) {
    Waiting(s, id) || Marking(s, id)
  }

  /** A step that is no scan and no owner's step on this reminder. */
  predicate Elsewhere(step: Step, id: string) {
    match step
    case Schedule(x, _, _, _, _, _) => x != id
    case Snooze(x, _, _) => x != id
    case Update(x, _, _, _) => x != id
    case Cancel(x, _) => x != id
    case Scan(_, _) => false
    case _ => true
  }

  lemma PendingAfterMark(cron: Cron, s: State, id: string)
    requires Inv(s) && Enabled(s, Mark) && id in s.rows
    ensures var t := Next(cron, s, Mark);
            && id in t.rows
            && (if Marking(s, id) then !Pending(t, id) && (t.rows[id].status == Scheduled || t.rows[id].status == Done)
                else Pending(t, id) == Pending(s, id) && t.rows[id] == s.rows[id])
  {
    var t, q := Next(cron, s, Mark), s.tick.queue;
    assert t.tick.Firing? ==> t.tick.queue == q[1..] && forall i :: 0 <= i < |q| - 1 ==> q[1..][i] == q[i + 1];
    if Waiting(s, id) {
      var i :| 0 < i < |q| && q[i].id == id;
      assert t.tick.Firing? && t.tick.queue[i - 1].id == id;
    }
  }

  /** By the end of the tick a pending reminder's row has been overwritten, and any other one is as it was. */
  lemma {:induction false} RestOfTick(cron: Cron, s: State, rest: seq<Step>, id: string)
    requires Inv(s) && Runs(cron, s, rest) && id in s.rows
    requires (forall i :: 0 <= i < |rest| ==> Elsewhere(rest[i], id)) && Exec(cron, s, rest).tick.Idle?
    ensures var u := Exec(cron, s, rest);
            && id in u.rows
            && (if Pending(s, id) then u.rows[id].status == Scheduled || u.rows[id].status == Done else u.rows[id] == s.rows[id])
    decreases |rest|
  {
    if rest != [] {
      var t := Next(cron, s, rest[0]);
      if rest[0].Mark? {
        PendingAfterMark(cron, s, id);
      }
      QueueKept(cron, s, rest[0]);
      HistKept(cron, s, rest[0]);
      RestOfTick(cron, t, rest[1..], id);
    }
  }

  /**
   * An owner's cancel or snooze, at any moment of any run, outlives the running tick if and only if the tick
   * has neither to fire nor to write that reminder any more; otherwise it is overwritten by done or scheduled.
   */
  lemma OwnerActSurvives(cron: Cron, steps: seq<Step>, act: Step, rest: seq<Step>)
    requires Runs(cron, INIT, steps) && (act.Cancel? || act.Snooze?) && Owns(Exec(cron, INIT, steps), act.id, act.owner)
    requires var t := Next(cron, Exec(cron, INIT, steps), act); Runs(cron, t, rest) && Exec(cron, t, rest).tick.Idle?
    requires forall i :: 0 <= i < |rest| ==> Elsewhere(rest[i], act.id)
    ensures var s := Exec(cron, INIT, steps); var t := Next(cron, s, act); var u := Exec(cron, t, rest);
            && act.id in u.rows
            && (u.rows[act.id] == t.rows[act.id] <==> !Pending(s, act.id))
            && (Pending(s, act.id) ==> u.rows[act.id].status == Scheduled || u.rows[act.id].status == Done)
  {
    var s := Exec(cron, INIT, steps);
    var t := Next(cron, s, act);
    RunKeepsInv(cron, INIT, steps);
    QueueKept(cron, s, act);
    HistKept(cron, s, act);
    RestOfTick(cron, t, rest, act.id);
  }

  /** One reminder, due at 5 and found by the scan at 10. */
  function Found(kind: Kind): State {
    var row := Reminder("o", kind, Some("c"), "UTC", Some(5), Scheduled);
    State(map["r" := row], [], Firing(10, [Entry("r", row)], false, {}))
  }

  lemma FromFound(cron: Cron, kind: Kind, rest: seq<Step>) returns (steps: seq<Step>)
    requires Runs(cron, Found(kind), rest)
    ensures Runs(cron, INIT, steps) && Exec(cron, INIT, steps) == Exec(cron, Found(kind), rest)
  {
    var s1, s2 := Schedule("r", "o", kind, Some("c"), "UTC", 5), Scan(10, ["r"]);
    var a := Next(cron, INIT, s1);
    assert Next(cron, a, s2).tick.queue == Found(kind).tick.queue;
    assert Next(cron, a, s2) == Found(kind);
    Prepend(cron, a, s2, rest);
    Prepend(cron, INIT, s1, [s2] + rest);
    steps := [s1] + ([s2] + rest);
  }

  /**
   * A cancellation between the scan and the firing comes too late: the reminder fires although it is
   * cancelled, and as a recurring one it is scheduled again.
   */
  lemma LateCancelStillFires(cron: Cron) returns (steps: seq<Step>)
    ensures Runs(cron, INIT, steps)
    ensures var s := Exec(cron, INIT, steps);
            && s.hist == [CancelledEvent("r"), FiredEvent("r", 10, 5, Cancelled, true)]
            && "r" in s.rows && s.rows["r"].status == Scheduled && s.tick.Idle?
  {
    var s := Found(Recurring);
    var b := Next(cron, s, Cancel("r", "o"));
    var c := Next(cron, b, Fire);
    Prepend(cron, c, Mark, []);
    Prepend(cron, b, Fire, [Mark] + []);
    Prepend(cron, s, Cancel("r", "o"), [Fire] + ([Mark] + []));
    steps := FromFound(cron, Recurring, [Cancel("r", "o")] + ([Fire] + ([Mark] + [])));
  }

  /** A cancellation between the two writes of a firing is lost, although the reminder fired while it was armed. */
  lemma CancelBetweenWritesIsLost(cron: Cron) returns (steps: seq<Step>)
    ensures Runs(cron, INIT, steps)
    ensures var s := Exec(cron, INIT, steps);
            && s.hist == [FiredEvent("r", 10, 5, Scheduled, false), CancelledEvent("r")]
            && s.tick.Idle? && "r" in s.rows && s.rows["r"].status == Scheduled
  {
    var s := Found(Recurring);
    var b := Next(cron, s, Fire);
    var c := Next(cron, b, Cancel("r", "o"));
    Prepend(cron, c, Mark, []);
    Prepend(cron, b, Cancel("r", "o"), [Mark] + []);
    Prepend(cron, s, Fire, [Cancel("r", "o")] + ([Mark] + []));
    steps := FromFound(cron, Recurring, [Fire] + ([Cancel("r", "o")] + ([Mark] + [])));
  }

  /** A snooze during the tick that fires the reminder is lost: it fires at once, and never again. */
  lemma SnoozeDuringTickIsLost(cron: Cron) returns (steps: seq<Step>)
    ensures Runs(cron, INIT, steps)
    ensures var s := Exec(cron, INIT, steps);
            && s.hist == [SnoozedEvent("r"), FiredEvent("r", 10, 5, Snoozed, false)]
            && s.tick.Idle? && "r" in s.rows && s.rows["r"].status == Done && s.rows["r"].next == None
  {
    var s := Found(Once);
    var b := Next(cron, s, Snooze("r", "o", 100));
    var c := Next(cron, b, Fire);
    Prepend(cron, c, Mark, []);
    Prepend(cron, b, Fire, [Mark] + []);
    Prepend(cron, s, Snooze("r", "o", 100), [Fire] + ([Mark] + []));
    steps := FromFound(cron, Once, [Snooze("r", "o", 100)] + ([Fire] + ([Mark] + [])));
  }

  // ---- draining ----

  /** The row after a firing that nothing interrupted. */
  function FiredRow(cron: Cron, row: Reminder, now: int): Reminder {
    var (n, st) := Rearmed(cron, row, now);
    row.(next := n, status := st)
  }

  function DueIds(rows: map<string, Reminder>, now: int): set<string> {
    set id | id in rows && rows[id].DueAt(now)
  }

  /** A tick that runs to its end without interruption. */
  function Ticked(cron: Cron, rows: map<string, Reminder>, now: int, found: seq<string>): map<string, Reminder>
    requires forall id :: id in found ==> id in rows
  {
    map id | id in rows :: if id in found then FiredRow(cron, rows[id], now) else rows[id]
  }

  /** What the bounded scan returns: distinct due ids, as many as the batch allows. */
  ghost predicate ScanResult(rows: map<string, Reminder>, now: int, batch: nat, found: seq<string>) {
    Answers(DueIds(rows, now), batch, found)
  }

  /** The due reminders of one workspace; `home` tells where a reminder lives. */
  function DueIn(rows: map<string, Reminder>, home: string -> string, workspace: string, now: int): set<string> {
    set id | id in rows && rows[id].DueAt(now) && home(id) == workspace
  }

  function DueByWorkspace(rows: map<string, Reminder>, home: string -> string, workspaces: seq<string>, now: int): seq<set<string>> {
    seq(|workspaces|, k requires 0 <= k < |workspaces| => DueIn(rows, home, workspaces[k], now))
  }

  lemma WorkspacesPartition(rows: map<string, Reminder>, home: string -> string, workspaces: seq<string>, now: int)
    requires NoDup(workspaces) && forall id :: id in rows ==> home(id) in workspaces
    ensures Disjoint(DueByWorkspace(rows, home, workspaces, now))
    ensures Union(DueByWorkspace(rows, home, workspaces, now)) == DueIds(rows, now)
  {
    var parts := DueByWorkspace(rows, home, workspaces, now);
    forall id ensures id in Union(parts) <==> id in DueIds(rows, now) {
      InUnion(parts, id);
      if id in DueIds(rows, now) {
        var k :| 0 <= k < |workspaces| && workspaces[k] == home(id);
        assert id in parts[k];
      }
    }
  }

  /** The database's scan, one limited query per workspace, returns what the tick expects of a scan. */
  method DueFromDatabase(ghost rows: map<string, Reminder>, ghost home: string -> string, workspaces: seq<string>,
                         answers: seq<seq<string>>, ghost now: int, batch: nat) returns (found: seq<string>)
    requires NoDup(workspaces) && (forall id :: id in rows ==> home(id) in workspaces) && |answers| == |workspaces|
    requires forall k :: 0 <= k < |answers| ==> Answers(DueIn(rows, home, workspaces[k], now), batch, answers[k])
    ensures ScanResult(rows, now, batch, found)
  {
    WorkspacesPartition(rows, home, workspaces, now);
    found := BoundedScan.Scan(answers, DueByWorkspace(rows, home, workspaces, now), batch);
    ScanAnswers(DueByWorkspace(rows, home, workspaces, now), batch, found);
  }

  lemma TickRemovesFound(cron: Cron, rows: map<string, Reminder>, now: int, batch: nat, found: seq<string>)
    requires StrictlyLater(cron) && ScanResult(rows, now, batch, found)
    ensures DueIds(Ticked(cron, rows, now, found), now) == DueIds(rows, now) - (set id | id in found)
    ensures |DueIds(Ticked(cron, rows, now, found), now)| == Max(0, |DueIds(rows, now)| - batch)
  {
    var done := set id | id in found;
    DistinctSetSize(found);
    assert done <= DueIds(rows, now);
  }

  /** Consecutive ticks at one moment, each handling what its scan found. */
  ghost predicate TicksAt(cron: Cron, rows: map<string, Reminder>, now: int, batch: nat, ticks: seq<seq<string>>)
    decreases |ticks|
  {
    ticks == [] ||
    (ScanResult(rows, now, batch, ticks[0]) && TicksAt(cron, Ticked(cron, rows, now, ticks[0]), now, batch, ticks[1..]))
  }

  ghost function AfterTicks(cron: Cron, rows: map<string, Reminder>, now: int, batch: nat, ticks: seq<seq<string>>): map<string, Reminder>
    requires TicksAt(cron, rows, now, batch, ticks)
    decreases |ticks|
  {
    if ticks == [] then rows else AfterTicks(cron, Ticked(cron, rows, now, ticks[0]), now, batch, ticks[1..])
  }

  /** Given a cron that moves on, k ticks at a fixed moment leave exactly max(0, due - k * batch) reminders due. */
  lemma {:induction false} TicksDrain(cron: Cron, rows: map<string, Reminder>, now: int, batch: nat, ticks: seq<seq<string>>)
    requires StrictlyLater(cron) && TicksAt(cron, rows, now, batch, ticks)
    ensures |DueIds(AfterTicks(cron, rows, now, batch, ticks), now)| == Max(0, |DueIds(rows, now)| - |ticks| * batch)
    decreases |ticks|
  {
    if ticks != [] {
      TickRemovesFound(cron, rows, now, batch, ticks[0]);
      TicksDrain(cron, Ticked(cron, rows, now, ticks[0]), now, batch, ticks[1..]);
      OneMore(|DueIds(rows, now)|, |ticks[1..]|, batch);
    }
  }

  lemma OneMore(d: nat, k: nat, b: nat)
    ensures Max(0, Max(0, d - b) - k * b) == Max(0, d - (k + 1) * b)
  {
    assert (k + 1) * b == k * b + b;
    assert k * b >= 0;
  }

  /** So the due reminders are gone after ceil(due / batch) ticks, and not one tick earlier. */
  lemma DrainedAfterCeiling(cron: Cron, rows: map<string, Reminder>, now: int, batch: nat, ticks: seq<seq<string>>)
    requires StrictlyLater(cron) && batch > 0 && TicksAt(cron, rows, now, batch, ticks)
    ensures DueIds(AfterTicks(cron, rows, now, batch, ticks), now) == {}
            <==> |ticks| >= (|DueIds(rows, now)| + batch - 1) / batch
  {
    TicksDrain(cron, rows, now, batch, ticks);
    CeilingBound(|DueIds(rows, now)|, batch, |ticks|);
    var left := DueIds(AfterTicks(cron, rows, now, batch, ticks), now);
    assert left == {} <==> |left| == 0;
  }

  lemma CeilingBound(d: nat, b: nat, k: nat)
    requires b > 0
    ensures k * b >= d <==> k >= (d + b - 1) / b
  {
    var q, r := (d + b - 1) / b, (d + b - 1) % b;
    assert d + b - 1 == q * b + r;
    if k >= q {
      assert k * b >= q * b by {
        assert (k - q) * b >= 0;
        assert (k - q) * b == k * b - q * b;
      }
    } else {
      assert (k + 1) * b <= q * b by {
        assert (q - k - 1) * b >= 0;
        assert (q - k - 1) * b == q * b - (k + 1) * b;
      }
      assert (k + 1) * b == k * b + b;
    }
  }

  // ---- an uninterrupted tick of the machine is the tick above ----

  function FireSteps(n: nat): seq<Step> {
    if n == 0 then [] else [Fire] + ([Mark] + FireSteps(n - 1))
  }

  /** The rows with those of a queue fired. */
  function FiredRows(cron: Cron, rows: map<string, Reminder>, now: int, queue: seq<Entry>): map<string, Reminder>
    requires forall e :: e in queue ==> e.id in rows
  {
    if queue == [] then rows
    else
      var id := queue[0].id;
      FiredRows(cron, rows[id := FiredRow(cron, rows[id], now)], now, queue[1..])
  }

  /** The queue was read from these rows, and no id stands in it twice. */
  ghost predicate Fresh(rows: map<string, Reminder>, queue: seq<Entry>) {
    && (forall e :: e in queue ==> e.id in rows && rows[e.id] == e.row)
    && (forall i, j :: 0 <= i < j < |queue| ==> queue[i].id != queue[j].id)
  }

  lemma FreshTail(cron: Cron, rows: map<string, Reminder>, now: int, queue: seq<Entry>)
    requires Fresh(rows, queue) && queue != []
    ensures Fresh(rows[queue[0].id := FiredRow(cron, rows[queue[0].id], now)], queue[1..])
  {
  }

  lemma {:induction false} QueueRunsOut(cron: Cron, s: State)
    requires s.tick.Firing? && !s.tick.fired && s.tick.queue != [] && Fresh(s.rows, s.tick.queue)
    ensures Runs(cron, s, FireSteps(|s.tick.queue|))
    ensures var t := Exec(cron, s, FireSteps(|s.tick.queue|));
            t.tick.Idle? && t.rows == FiredRows(cron, s.rows, s.tick.now, s.tick.queue)
    decreases |s.tick.queue|
  {
    var q, n := s.tick.queue, |s.tick.queue|;
    assert q[0] in q;
    var a := Next(cron, s, Fire);
    var b := Next(cron, a, Mark);
    FreshTail(cron, s.rows, s.tick.now, q);
    assert b.rows == s.rows[q[0].id := FiredRow(cron, s.rows[q[0].id], s.tick.now)];
    if n > 1 {
      QueueRunsOut(cron, b);
    } else {
      assert q[1..] == [];
    }
    Prepend(cron, a, Mark, FireSteps(n - 1));
    Prepend(cron, s, Fire, [Mark] + FireSteps(n - 1));
  }

  lemma {:induction false} FiredRowsAt(cron: Cron, rows: map<string, Reminder>, now: int, queue: seq<Entry>, id: string)
    requires Fresh(rows, queue)
    ensures FiredRows(cron, rows, now, queue).Keys == rows.Keys
    ensures id in rows ==>
      (FiredRows(cron, rows, now, queue)[id] == if exists e :: e in queue && e.id == id then FiredRow(cron, rows[id], now) else rows[id])
    decreases |queue|
  {
    if queue != [] {
      var h := queue[0].id;
      FreshTail(cron, rows, now, queue);
      FiredRowsAt(cron, rows[h := FiredRow(cron, rows[h], now)], now, queue[1..], id);
      assert forall e :: e in queue <==> e == queue[0] || e in queue[1..];
    }
  }

  /** Scan, then fire and mark each entry in turn: the database ends up as `Ticked` says, and the tick is over. */
  lemma UninterruptedTick(cron: Cron, s: State, now: int, found: seq<string>)
    requires Enabled(s, Scan(now, found)) && found != []
    ensures var steps := [Scan(now, found)] + FireSteps(|found|);
            Runs(cron, s, steps) && Exec(cron, s, steps).tick.Idle? && Exec(cron, s, steps).rows == Ticked(cron, s.rows, now, found)
  {
    var t := Next(cron, s, Scan(now, found));
    var q := t.tick.queue;
    QueueRunsOut(cron, t);
    Prepend(cron, s, Scan(now, found), FireSteps(|found|));
    forall id ensures FiredRows(cron, s.rows, now, q).Keys == s.rows.Keys
      ensures id in s.rows ==> FiredRows(cron, s.rows, now, q)[id] == Ticked(cron, s.rows, now, found)[id]
    {
      FiredRowsAt(cron, s.rows, now, q, id);
      if id in found {
        var i :| 0 <= i < |found| && found[i] == id;
        assert q[i] in q;
      }
    }
  }

  // ---- what should fire does ----

  /** The fired events of an uninterrupted tick: one for each entry. */
  lemma {:induction false} QueueFires(cron: Cron, s: State, id: string)
    requires s.tick.Firing? && !s.tick.fired && s.tick.queue != [] && Fresh(s.rows, s.tick.queue)
    requires Runs(cron, s, FireSteps(|s.tick.queue|))
    ensures Fires(Exec(cron, s, FireSteps(|s.tick.queue|)).hist, id)
            == Fires(s.hist, id) + (if exists e :: e in s.tick.queue && e.id == id then 1 else 0)
    decreases |s.tick.queue|
  {
    var q, n := s.tick.queue, |s.tick.queue|;
    assert q[0] in q;
    var a := Next(cron, s, Fire);
    var b := Next(cron, a, Mark);
    FreshTail(cron, s.rows, s.tick.now, q);
    CountsAfter(s.hist, a.hist[|s.hist|], id);
    assert forall e :: e in q <==> e == q[0] || e in q[1..];
    if n > 1 {
      QueueRunsOut(cron, b);
      QueueFires(cron, b, id);
    } else {
      assert q[1..] == [];
    }
    if n > 1 {
      Prepend(cron, a, Mark, FireSteps(n - 1));
      Prepend(cron, s, Fire, [Mark] + FireSteps(n - 1));
    } else {
      Prepend(cron, a, Mark, []);
      Prepend(cron, s, Fire, [Mark] + []);
      assert FireSteps(1) == [Fire] + ([Mark] + []);
    }
  }

  /** No owner's step on this reminder, and no scan that comes late enough to find it. */
  predicate Before(step: Step, id: string, due: int) {
    Elsewhere(step, id) || (step.Scan? && step.now < due)
  }

  /** An armed reminder waits unchanged for the first scan that comes late enough. */
  lemma {:induction false} ArmedWaits(cron: Cron, s: State, rest: seq<Step>, id: string, due: int)
    requires Inv(s) && Runs(cron, s, rest) && id in s.rows && s.rows[id].next == Some(due) && !Pending(s, id)
    requires forall i :: 0 <= i < |rest| ==> Before(rest[i], id, due)
    ensures var u := Exec(cron, s, rest); Inv(u) && id in u.rows && u.rows[id] == s.rows[id] && !Pending(u, id)
    decreases |rest|
  {
    if rest != [] {
      var step, t := rest[0], Next(cron, s, rest[0]);
      if step.Scan? {
        assert id !in step.found;
      } else if step.Mark? {
        PendingAfterMark(cron, s, id);
      }
      QueueKept(cron, s, step);
      HistKept(cron, s, step);
      ArmedWaits(cron, t, rest[1..], id, due);
    }
  }

  /** Every reminder that is scheduled or snoozed with a time up to `now`, each once. */
  ghost predicate Complete(rows: map<string, Reminder>, now: int, found: seq<string>) {
    && NoDup(found)
    && forall id :: id in found <==>
         && id in rows && (rows[id].status == Scheduled || rows[id].status == Snoozed)
         && rows[id].next.Some? && rows[id].next.value <= now
  }

  lemma CompleteTickFires(cron: Cron, s: State, now: int, found: seq<string>, id: string)
    requires s.tick.Idle? && Complete(s.rows, now, found) && id in found
    ensures var steps := [Scan(now, found)] + FireSteps(|found|);
            && Runs(cron, s, steps) && Exec(cron, s, steps).tick.Idle?
            && Fires(Exec(cron, s, steps).hist, id) == Fires(s.hist, id) + 1
            && var row, after := s.rows[id], Exec(cron, s, steps).rows;
            && id in after
            && (if row.kind == Recurring && row.cron.Some? && row.cron.value != "" then
                  after[id].status == Scheduled && after[id].next == Some(cron(row.cron.value, row.timezone, now))
                else after[id].status == Done && after[id].next == None)
  {
    assert Enabled(s, Scan(now, found));
    UninterruptedTick(cron, s, now, found);
    var t := Next(cron, s, Scan(now, found));
    QueueRunsOut(cron, t);
    Prepend(cron, s, Scan(now, found), FireSteps(|found|));
    QueueFires(cron, t, id);
    var i :| 0 <= i < |found| && found[i] == id;
    assert t.tick.queue[i] in t.tick.queue;
  }

  lemma ArmedFires(cron: Cron, s: State, rest: seq<Step>, id: string, due: int, now: int, found: seq<string>)
    requires Inv(s) && id in s.rows && (s.rows[id].status == Scheduled || s.rows[id].status == Snoozed)
    requires s.rows[id].next == Some(due) && !Pending(s, id)
    requires Runs(cron, s, rest) && Exec(cron, s, rest).tick.Idle? && Complete(Exec(cron, s, rest).rows, now, found)
    requires (forall i :: 0 <= i < |rest| ==> Before(rest[i], id, due)) && due <= now
    ensures FiresNext(cron, Exec(cron, s, rest), now, found, id)
    ensures id in Exec(cron, s, rest).rows && Exec(cron, s, rest).rows[id] == s.rows[id]
  {
    ArmedWaits(cron, s, rest, id, due);
    CompleteTickFires(cron, Exec(cron, s, rest), now, found, id);
  }

  /** The scan finds the reminder, and the tick, run to its end, fires it exactly once. */
  ghost predicate FiresNext(cron: Cron, s: State, now: int, found: seq<string>, id: string) {
    var tick := [Scan(now, found)] + FireSteps(|found|);
    && id in found && Runs(cron, s, tick) && Exec(cron, s, tick).tick.Idle?
    && Fires(Exec(cron, s, tick).hist, id) == Fires(s.hist, id) + 1
  }

  /**
   * What should fire does: whenever, in any run, a reminder is scheduled or snoozed for a time and not already
   * pending, then, after any steps without an owner's act on it and with earlier scans only, it stands unchanged;
   * and a scan at that time or later that returns all it should finds it, and the tick fires it exactly once.
   */
  lemma ArmedFiresWhenDue(cron: Cron, steps: seq<Step>, rest: seq<Step>, id: string, due: int, now: int, found: seq<string>)
    requires Runs(cron, INIT, steps)
    requires var s := Exec(cron, INIT, steps);
             && id in s.rows && (s.rows[id].status == Scheduled || s.rows[id].status == Snoozed)
             && s.rows[id].next == Some(due) && !Pending(s, id)
             && Runs(cron, s, rest) && Exec(cron, s, rest).tick.Idle? && Complete(Exec(cron, s, rest).rows, now, found)
    requires (forall i :: 0 <= i < |rest| ==> Before(rest[i], id, due)) && due <= now
    ensures FiresNext(cron, Exec(cron, Exec(cron, INIT, steps), rest), now, found, id)
  {
    RunKeepsInv(cron, INIT, steps);
    ArmedFires(cron, Exec(cron, INIT, steps), rest, id, due, now, found);
  }

  /** A snooze arms the reminder for just that time, whatever its status was, so it fires then; unless a tick was at it. */
  lemma SnoozedFiresWhenDue(cron: Cron, steps: seq<Step>, act: Step, rest: seq<Step>, now: int, found: seq<string>)
    requires Runs(cron, INIT, steps) && act.Snooze?
    requires Owns(Exec(cron, INIT, steps), act.id, act.owner) && !Pending(Exec(cron, INIT, steps), act.id)
    requires var t := Next(cron, Exec(cron, INIT, steps), act);
             Runs(cron, t, rest) && Exec(cron, t, rest).tick.Idle? && Complete(Exec(cron, t, rest).rows, now, found)
    requires (forall i :: 0 <= i < |rest| ==> Before(rest[i], act.id, act.until)) && act.until <= now
    ensures var u := Exec(cron, Next(cron, Exec(cron, INIT, steps), act), rest);
            && act.id in u.rows && u.rows[act.id].status == Snoozed && u.rows[act.id].next == Some(act.until)
            && FiresNext(cron, u, now, found, act.id)
  {
    var s := Exec(cron, INIT, steps);
    RunKeepsInv(cron, INIT, steps);
    ActKeepsInv(cron, s, act);
    ArmedFires(cron, Next(cron, s, act), rest, act.id, act.until, now, found);
  }

  lemma ActKeepsInv(cron: Cron, s: State, step: Step)
    requires Inv(s) && Enabled(s, step)
    ensures Inv(Next(cron, s, step))
  {
    QueueKept(cron, s, step);
    HistKept(cron, s, step);
  }

  /** A new reminder fires when it is due. */
  lemma ScheduledFiresWhenDue(cron: Cron, steps: seq<Step>, act: Step, rest: seq<Step>, now: int, found: seq<string>)
    requires Runs(cron, INIT, steps) && act.Schedule? && act.id !in Exec(cron, INIT, steps).rows
    requires var t := Next(cron, Exec(cron, INIT, steps), act);
             Runs(cron, t, rest) && Exec(cron, t, rest).tick.Idle? && Complete(Exec(cron, t, rest).rows, now, found)
    requires (forall i :: 0 <= i < |rest| ==> Before(rest[i], act.id, act.next)) && act.next <= now
    ensures var u := Exec(cron, Next(cron, Exec(cron, INIT, steps), act), rest);
            && act.id in u.rows && u.rows[act.id] == Reminder(act.owner, act.kind, act.cron, act.timezone, Some(act.next), Scheduled)
            && FiresNext(cron, u, now, found, act.id)
  {
    var s := Exec(cron, INIT, steps);
    RunKeepsInv(cron, INIT, steps);
    ActKeepsInv(cron, s, act);
    NotQueued(s, act.id);
    ArmedFires(cron, Next(cron, s, act), rest, act.id, act.next, now, found);
  }

  /** A firing records the time for which the scan found the reminder armed, and how its row stands by now. */
  lemma FireRecordsTheScan(cron: Cron, steps: seq<Step>)
    requires Runs(cron, INIT, steps) && Enabled(Exec(cron, INIT, steps), Fire)
    ensures var s := Exec(cron, INIT, steps); var e := s.tick.queue[0];
            && e.id in s.rows && e.row.next.Some? && e.row.next.value <= s.tick.now
            && (e.row.status == Scheduled || e.row.status == Snoozed)
            && Next(cron, s, Fire).hist
               == s.hist + [FiredEvent(e.id, s.tick.now, e.row.next.value, s.rows[e.id].status, s.rows[e.id].status == Cancelled)]
  {
    var s := Exec(cron, INIT, steps);
    RunKeepsInv(cron, INIT, steps);
    assert EntryInv(s, 0);
  }

  /** What the owner's acts do to a row, and that nobody else's do anything. */
  lemma OnlyTheOwnerActs(cron: Cron, s: State, step: Step)
    requires step.Snooze? || step.Update? || step.Cancel?
    ensures var t := Next(cron, s, step);
            if step.id !in s.rows || s.rows[step.id].owner != step.owner then t == s
            else
              var row, after := s.rows[step.id], t.rows;
              && step.id in after && after == s.rows[step.id := after[step.id]]
              && after[step.id].owner == row.owner && after[step.id].kind == row.kind && after[step.id].timezone == row.timezone
              && (step.Snooze? ==> after[step.id].status == Snoozed && after[step.id].next == Some(step.until) && after[step.id].cron == row.cron)
              && (step.Cancel? ==> after[step.id].status == Cancelled && after[step.id].next == row.next && after[step.id].cron == row.cron)
              && (step.Update? ==> && after[step.id].status == row.status
                                   && after[step.id].cron == (if step.newCron == None then row.cron else step.newCron)
                                   && after[step.id].next == (if step.newNext == None then row.next else step.newNext))
  {
  }

  // ---- the in-memory repository and the worker ----

  function ReminderId(n: nat): string {
    "rem_" + Decimal(n)
  }

  lemma ReminderIdInjective(a: nat, b: nat)
    requires ReminderId(a) == ReminderId(b)
    ensures a == b
  {
    assert ReminderId(a)[4..] == Decimal(a) && ReminderId(b)[4..] == Decimal(b);
    DecimalInjective(a, b);
  }

  lemma DueAtMostAll(rows: map<string, Reminder>, now: int)
    ensures |DueIds(rows, now)| <= |rows|
    ensures forall found :: Answers(DueIds(rows, now), |rows|, found) ==> Complete(rows, now, found)
  {
    SubsetSize(DueIds(rows, now), rows.Keys);
    forall found | Answers(DueIds(rows, now), |rows|, found) ensures Complete(rows, now, found) {
      AnswerIsCompleteExactly(DueIds(rows, now), |rows|, found);
    }
  }

  datatype Outcome = Updated(row: Reminder) | NotFound | Forbidden

  datatype Patch = Patch(cron: Option<string>, next: Option<int>, status: Option<Status>)

  function FiredAt(found: seq<string>, now: int): seq<(string, int)> {
    if found == [] then [] else FiredAt(found[..|found| - 1], now) + [(found[|found| - 1], now)]
  }

  lemma TickedNext(cron: Cron, rows: map<string, Reminder>, now: int, due: seq<string>, i: nat)
    requires i < |due| && NoDup(due) && forall id :: id in due ==> id in rows
    ensures var t := Ticked(cron, rows, now, due[..i]);
            && due[i] in t && t[due[i]] == rows[due[i]]
            && Ticked(cron, rows, now, due[..i + 1]) == t[due[i] := FiredRow(cron, rows[due[i]], now)]
    ensures FiredAt(due[..i + 1], now) == FiredAt(due[..i], now) + [(due[i], now)]
  {
    assert due[..i + 1] == due[..i] + [due[i]];
    assert due[i] !in due[..i];
  }

  class ReminderStore {
    var rows: map<string, Reminder>
    var order: seq<string>
    var fired: seq<(string, int)>
    var counter: nat

    ghost predicate Valid()
      reads this
    {
      && NoDup(order) && (forall id :: id in order <==> id in rows)
      && (forall id :: id in rows ==> exists k: nat :: k <= counter && ReminderId(k) == id)
    }

    constructor ()
      ensures Valid() && rows == map[] && fired == []
    {
      rows, order, fired, counter := map[], [], [], 0;
    }

    method Create(owner: string, kind: Kind, cron: Option<string>, timezone: string, next: int) returns (id: string)
      requires Valid()
      modifies this
      ensures Valid() && id !in old(rows) && fired == old(fired)
      ensures rows == old(rows)[id := Reminder(owner, kind, cron, timezone, Some(next), Scheduled)]
    {
      counter := counter + 1;
      id := ReminderId(counter);
      if id in rows {
        var k: nat :| k <= counter - 1 && ReminderId(k) == id;
        ReminderIdInjective(k, counter);
      }
      rows := rows[id := Reminder(owner, kind, cron, timezone, Some(next), Scheduled)];
      order := order + [id];
      assert ReminderId(counter) == id;
    }

    /** Only the owner may change a row; absent fields of the patch stay. */
    method UpdateRow(id: string, owner: string, patch: Patch) returns (r: Outcome)
      requires Valid()
      modifies this`rows
      ensures Valid()
      ensures r.NotFound? <==> id !in old(rows)
      ensures r.Forbidden? <==> id in old(rows) && old(rows)[id].owner != owner
      ensures rows == if r.Updated? then old(rows)[id := r.row] else old(rows)
      ensures r.Updated? ==>
        && r.row.owner == owner && r.row.kind == old(rows)[id].kind && r.row.timezone == old(rows)[id].timezone
        && r.row.cron == (if patch.cron.Some? then patch.cron else old(rows)[id].cron)
        && r.row.next == (if patch.next.Some? then patch.next else old(rows)[id].next)
        && r.row.status == (if patch.status.Some? then patch.status.value else old(rows)[id].status)
    {
      if id !in rows {
        return NotFound;
      }
      var cur := rows[id];
      if cur.owner != owner {
        return Forbidden;
      }
      if patch.cron.Some? { cur := cur.(cron := patch.cron); }
      if patch.next.Some? { cur := cur.(next := patch.next); }
      if patch.status.Some? { cur := cur.(status := patch.status.value); }
      rows := rows[id := cur];
      return Updated(cur);
    }

    /** Due rows in creation order, cut to the limit. */
    method DueAcrossWorkspaces(now: int, limit: nat) returns (found: seq<string>)
      requires Valid()
      ensures ScanResult(rows, now, limit, found)
      ensures limit >= |rows| ==> Complete(rows, now, found)
    {
      DueAtMostAll(rows, now);
      var all := rows;
      var due := Filter(order, id => id in all && all[id].DueAt(now));
      FilterNoDup(order, id => id in all && all[id].DueAt(now));
      DistinctSetSize(due);
      assert (set id | id in due) == DueIds(rows, now);
      found := due[..Min(limit, |due|)];
    }

    method MarkFired(id: string, next: Option<int>, status: Status)
      requires Valid()
      modifies this`rows
      ensures Valid()
      ensures rows == if id in old(rows) then old(rows)[id := old(rows)[id].(next := next, status := status)] else old(rows)
    {
      if id in rows {
        rows := rows[id := rows[id].(next := next, status := status)];
      }
    }

    /** Records the firing, then re-arms or finishes the row. */
    method FireOne(cron: Cron, id: string, now: int)
      requires Valid() && id in rows
      modifies this`rows, this`fired, this`counter
      ensures Valid() && rows == old(rows)[id := FiredRow(cron, old(rows)[id], now)] && fired == old(fired) + [(id, now)]
    {
      counter := counter + 1;
      fired := fired + [(id, now)];
      assert Valid();
      var (next, status) := Rearmed(cron, rows[id], now);
      MarkFired(id, next, status);
    }

    /** One uninterrupted tick of the worker: each due reminder of the batch is fired once and re-armed. */
    method RunTick(cron: Cron, now: int, batch: nat) returns (n: nat, ghost found: seq<string>)
      requires Valid()
      modifies this`rows, this`fired, this`counter
      ensures Valid() && n == |found| && ScanResult(old(rows), now, batch, found)
      ensures batch >= |old(rows)| ==> Complete(old(rows), now, found)
      ensures rows.Keys == old(rows).Keys && forall id :: id in rows ==>
        var row := old(rows)[id];
        if id !in found then rows[id] == row
        else if row.kind == Recurring && row.cron.Some? && row.cron.value != "" then
          rows[id] == row.(next := Some(cron(row.cron.value, row.timezone, now)), status := Scheduled)
        else rows[id] == row.(next := None, status := Done)
      ensures rows == Ticked(cron, old(rows), now, found)
      ensures fired == old(fired) + FiredAt(found, now)
    {
      var due := DueAcrossWorkspaces(now, batch);
      found := due;
      ghost var before := rows;
      var i := 0;
      while i < |due|
        invariant 0 <= i <= |due| && Valid()
        invariant forall id :: id in due ==> id in before
        invariant rows == Ticked(cron, before, now, due[..i])
        invariant fired == old(fired) + FiredAt(due[..i], now)
      {
        var id := due[i];
        TickedNext(cron, before, now, due, i);
        Assoc(old(fired), FiredAt(due[..i], now), [(id, now)]);
        FireOne(cron, id, now);
        i := i + 1;
      }
      assert due[..|due|] == due;
      n := |due|;
    }
  }
}
