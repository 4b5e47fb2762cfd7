/** The orphan sweeper: every stale unowned task is triaged once, and escalated to a human at most once. */
module Sweeper {
  import opened Basics
  import opened BoundedScan

  datatype Escalation = Escalation(firstMs: int, humanFlagged: bool)

  datatype Action = Triaged(task: string, at: int, ok: bool) | Flagged(task: string, at: int)

  /** What one task of a tick leads to; `ok` is whether the triage could be dispatched. */
  function Act(escalated: map<string, Escalation>, task: string, ok: bool, nowMs: int, humanMs: int): (map<string, Escalation>, seq<Action>) {
    if task !in escalated then
      (escalated[task := Escalation(nowMs, !ok)],
       if ok then [Triaged(task, nowMs, ok)] else [Triaged(task, nowMs, ok), Flagged(task, nowMs)])
    else if !escalated[task].humanFlagged && nowMs - escalated[task].firstMs >= humanMs then
      (escalated[task := escalated[task].(humanFlagged := true)], [Flagged(task, nowMs)])
    else (escalated, [])
  }

  // ---- what the record in memory says about all actions so far ----

  function Triages(acts: seq<Action>, task: string): nat {
    if acts == [] then 0
    else Triages(acts[..|acts| - 1], task) + (if acts[|acts| - 1].Triaged? && acts[|acts| - 1].task == task then 1 else 0)
  }

  function Flags(acts: seq<Action>, task: string): nat {
    if acts == [] then 0
    else Flags(acts[..|acts| - 1], task) + (if acts[|acts| - 1].Flagged? && acts[|acts| - 1].task == task then 1 else 0)
  }

  /** The record counts the actions of a task exactly. */
  ghost predicate Counted(escalated: map<string, Escalation>, acts: seq<Action>, task: string) {
    && Triages(acts, task) == (if task in escalated then 1 else 0)
    && Flags(acts, task) == (if task in escalated && escalated[task].humanFlagged then 1 else 0)
  }

  /** A flag follows the first sighting of its task at once when triage failed, else after the waiting time. */
  ghost predicate Justified(escalated: map<string, Escalation>, acts: seq<Action>, humanMs: int) {
    && (forall i :: 0 <= i < |acts| && acts[i].Triaged? ==>
          acts[i].task in escalated && escalated[acts[i].task].firstMs == acts[i].at)
    && (forall i :: 0 <= i < |acts| && acts[i].Flagged? ==>
          exists j :: 0 <= j < i && acts[j].Triaged? && acts[j].task == acts[i].task
                      && if acts[j].ok then acts[i].at - acts[j].at >= humanMs else acts[i].at == acts[j].at)
    && (forall task :: task in escalated ==>
          exists j :: 0 <= j < |acts| && acts[j].Triaged? && acts[j].task == task && (acts[j].ok || escalated[task].humanFlagged))
  }

  ghost predicate Inv(escalated: map<string, Escalation>, acts: seq<Action>, humanMs: int) {
    Justified(escalated, acts, humanMs) && forall task :: Counted(escalated, acts, task)
  }

  lemma CountsAfter(acts: seq<Action>, a: Action, task: string)
    ensures Triages(acts + [a], task) == Triages(acts, task) + (if a.Triaged? && a.task == task then 1 else 0)
    ensures Flags(acts + [a], task) == Flags(acts, task) + (if a.Flagged? && a.task == task then 1 else 0)
  {
    assert (acts + [a])[..|acts|] == acts;
  }

  lemma ActKeepsCounts(escalated: map<string, Escalation>, acts: seq<Action>, task: string, ok: bool, nowMs: int, humanMs: int, t: string)
    requires Counted(escalated, acts, t)
    ensures var (e, more) := Act(escalated, task, ok, nowMs, humanMs); Counted(e, acts + more, t)
  {
    var (e, more) := Act(escalated, task, ok, nowMs, humanMs);
    if |more| == 0 {
      assert acts + more == acts;
    } else if |more| == 1 {
      CountsAfter(acts, more[0], t);
      assert acts + more == acts + [more[0]];
    } else {
      CountsAfter(acts, more[0], t);
      CountsAfter(acts + [more[0]], more[1], t);
      assert acts + more == acts + [more[0]] + [more[1]];
    }
  }

  lemma ActKeepsJustified(escalated: map<string, Escalation>, acts: seq<Action>, task: string, ok: bool, nowMs: int, humanMs: int)
    requires Justified(escalated, acts, humanMs)
    requires forall i :: 0 <= i < |acts| && acts[i].Triaged? ==> acts[i].task in escalated
    ensures var (e, more) := Act(escalated, task, ok, nowMs, humanMs); Justified(e, acts + more, humanMs)
  {
    var (e, more) := Act(escalated, task, ok, nowMs, humanMs);
    var n, after := |acts|, acts + more;
    forall i | 0 <= i < |after| && after[i].Flagged?
      ensures exists j :: 0 <= j < i && after[j].Triaged? && after[j].task == after[i].task
                          && if after[j].ok then after[i].at - after[j].at >= humanMs else after[i].at == after[j].at
    {
      if i < n {
        var j :| 0 <= j < i && acts[j].Triaged? && acts[j].task == acts[i].task
                 && if acts[j].ok then acts[i].at - acts[j].at >= humanMs else acts[i].at == acts[j].at;
        assert after[j] == acts[j];
      } else if task !in escalated {
        assert after[n] == Triaged(task, nowMs, ok);
      } else {
        var j :| 0 <= j < n && acts[j].Triaged? && acts[j].task == task && (acts[j].ok || escalated[task].humanFlagged);
        assert after[j] == acts[j];
      }
    }
    forall t | t in e
      ensures exists j :: 0 <= j < |after| && after[j].Triaged? && after[j].task == t && (after[j].ok || e[t].humanFlagged)
    {
      if t == task && task !in escalated {
        assert after[n] == Triaged(task, nowMs, ok);
      } else {
        var j :| 0 <= j < n && acts[j].Triaged? && acts[j].task == t && (acts[j].ok || escalated[t].humanFlagged);
        assert after[j] == acts[j];
      }
    }
  }

  /** What one tick meets: the scanned orphans, for each whether its triage is dispatched, and the time. */
  datatype RawRound = Round(orphans: seq<string>, triageOk: seq<bool>, nowMs: int)
  type Round = r: RawRound | |r.triageOk| == |r.orphans| witness Round([], [], 0)

  /** The record after a tick, the actions it took, and the number it reports. */
  datatype Sweeping = Sweeping(escalated: map<string, Escalation>, acts: seq<Action>, acted: nat)

  function Sweep(escalated: map<string, Escalation>, orphans: seq<string>, triageOk: seq<bool>, nowMs: int, humanMs: int): Sweeping
    requires |triageOk| == |orphans|
  {
    if orphans == [] then Sweeping(escalated, [], 0)
    else
      var n := |orphans| - 1;
      var r := Sweep(escalated, orphans[..n], triageOk[..n], nowMs, humanMs);
      var (e, more) := Act(r.escalated, orphans[n], triageOk[n], nowMs, humanMs);
      Sweeping(e, r.acts + more, r.acted + (if more == [] then 0 else 1))
  }

  lemma SweepNext(escalated: map<string, Escalation>, orphans: seq<string>, triageOk: seq<bool>, nowMs: int, humanMs: int, i: nat)
    requires |triageOk| == |orphans| && i < |orphans|
    ensures var r := Sweep(escalated, orphans[..i], triageOk[..i], nowMs, humanMs);
            var (e, more) := Act(r.escalated, orphans[i], triageOk[i], nowMs, humanMs);
            Sweep(escalated, orphans[..i + 1], triageOk[..i + 1], nowMs, humanMs)
              == Sweeping(e, r.acts + more, r.acted + (if more == [] then 0 else 1))
  {
    assert orphans[..i + 1][..i] == orphans[..i] && triageOk[..i + 1][..i] == triageOk[..i];
  }

  lemma ActKeepsInv(escalated: map<string, Escalation>, acts: seq<Action>, task: string, ok: bool, nowMs: int, humanMs: int)
    requires Inv(escalated, acts, humanMs)
    ensures var (e, more) := Act(escalated, task, ok, nowMs, humanMs); Inv(e, acts + more, humanMs)
  {
    var (e, more) := Act(escalated, task, ok, nowMs, humanMs);
    ActKeepsJustified(escalated, acts, task, ok, nowMs, humanMs);
    forall t ensures Counted(e, acts + more, t) {
      ActKeepsCounts(escalated, acts, task, ok, nowMs, humanMs, t);
    }
  }

  // ---- what one tick does for one task ----

  function About(t: string): Action -> bool {
    (a: Action) => a.task == t
  }

  /** What a tick does for a task that it finds at position `p` with this record before. */
  function Due(escalated: map<string, Escalation>, t: string, ok: bool, nowMs: int, humanMs: int): seq<Action> {
    if t !in escalated then [Triaged(t, nowMs, ok)] + (if ok then [] else [Flagged(t, nowMs)])
    else if escalated[t].humanFlagged || nowMs - escalated[t].firstMs < humanMs then []
    else [Flagged(t, nowMs)]
  }

  lemma ActAbout(escalated: map<string, Escalation>, task: string, ok: bool, nowMs: int, humanMs: int, t: string)
    ensures Filter(Act(escalated, task, ok, nowMs, humanMs).1, About(t)) == if t == task then Due(escalated, t, ok, nowMs, humanMs) else []
  {
    var more := Act(escalated, task, ok, nowMs, humanMs).1;
    if t == task {
      FilterAll(more, About(t));
    } else {
      FilterNone(more, About(t));
    }
  }

  lemma ActRecord(escalated: map<string, Escalation>, task: string, ok: bool, nowMs: int, humanMs: int, t: string)
    ensures var e := Act(escalated, task, ok, nowMs, humanMs).0;
            if t == task then t in e && e[t] == Record(escalated, t, ok, nowMs, humanMs)
            else (t in e <==> t in escalated) && (t in e ==> e[t] == escalated[t])
  {
  }

  /** What a tick that finds a task leaves on record for it. */
  function Record(escalated: map<string, Escalation>, t: string, ok: bool, nowMs: int, humanMs: int): Escalation {
    if t !in escalated then Escalation(nowMs, !ok)
    else Escalation(escalated[t].firstMs, escalated[t].humanFlagged || nowMs - escalated[t].firstMs >= humanMs)
  }

  function Init(round: Round): Round
    requires round.orphans != []
  {
    Round(round.orphans[..|round.orphans| - 1], round.triageOk[..|round.orphans| - 1], round.nowMs)
  }

  function Tick(escalated: map<string, Escalation>, round: Round, humanMs: int): Sweeping {
    Sweep(escalated, round.orphans, round.triageOk, round.nowMs, humanMs)
  }

  lemma LastVisit(escalated: map<string, Escalation>, round: Round, humanMs: int, t: string)
    requires round.orphans != []
    ensures var n := |round.orphans| - 1; var before := Tick(escalated, Init(round), humanMs);
            var r := Tick(escalated, round, humanMs);
            && Filter(r.acts, About(t))
               == Filter(before.acts, About(t))
                  + (if t == round.orphans[n] then Due(before.escalated, t, round.triageOk[n], round.nowMs, humanMs) else [])
            && (if t == round.orphans[n] then
                  t in r.escalated && r.escalated[t] == Record(before.escalated, t, round.triageOk[n], round.nowMs, humanMs)
                else (t in r.escalated <==> t in before.escalated) && (t in r.escalated ==> r.escalated[t] == before.escalated[t]))
  {
    var n := |round.orphans| - 1;
    var before := Tick(escalated, Init(round), humanMs);
    ActAbout(before.escalated, round.orphans[n], round.triageOk[n], round.nowMs, humanMs, t);
    ActRecord(before.escalated, round.orphans[n], round.triageOk[n], round.nowMs, humanMs, t);
    FilterConcat(before.acts, Act(before.escalated, round.orphans[n], round.triageOk[n], round.nowMs, humanMs).1, About(t));
  }

  /**
   * A tick whose scan finds task `t` once, at position `p`: on first sight it is triaged, with the outcome told, and
   * flagged at once if that failed; later it is flagged when overdue and not yet flagged; nothing else is done for it.
   */
  lemma {:induction false} TickForTask(escalated: map<string, Escalation>, round: Round, humanMs: int, t: string, p: nat)
    requires NoDup(round.orphans) && p < |round.orphans| && round.orphans[p] == t
    ensures var r := Tick(escalated, round, humanMs);
            && Filter(r.acts, About(t)) == Due(escalated, t, round.triageOk[p], round.nowMs, humanMs)
            && t in r.escalated && r.escalated[t] == Record(escalated, t, round.triageOk[p], round.nowMs, humanMs)
    decreases |round.orphans|
  {
    LastVisit(escalated, round, humanMs, t);
    if p < |round.orphans| - 1 {
      TickForTask(escalated, Init(round), humanMs, t, p);
    } else {
      TickForOthers(escalated, Init(round), humanMs, t);
    }
  }

  lemma {:induction false} TickForOthers(escalated: map<string, Escalation>, round: Round, humanMs: int, t: string)
    requires t !in round.orphans
    ensures var r := Tick(escalated, round, humanMs);
            && Filter(r.acts, About(t)) == [] && (t in r.escalated <==> t in escalated)
            && (t in escalated ==> r.escalated[t] == escalated[t])
    decreases |round.orphans|
  {
    if round.orphans != [] {
      LastVisit(escalated, round, humanMs, t);
      TickForOthers(escalated, Init(round), humanMs, t);
    }
  }

  function TasksOf(acts: seq<Action>): set<string> {
    set a | a in acts :: a.task
  }

  lemma TasksSnoc(acts: seq<Action>, more: seq<Action>, t: string)
    requires (forall a :: a in more ==> a.task == t) && t !in TasksOf(acts)
    ensures |TasksOf(acts + more)| == |TasksOf(acts)| + (if more == [] then 0 else 1)
    ensures TasksOf(acts + more) <= TasksOf(acts) + {t}
  {
    if more == [] {
      assert acts + more == acts;
    } else {
      assert more[0] in acts + more;
      assert TasksOf(acts + more) == TasksOf(acts) + {t};
    }
  }

  lemma ActIsAbout(escalated: map<string, Escalation>, task: string, ok: bool, nowMs: int, humanMs: int)
    ensures forall a :: a in Act(escalated, task, ok, nowMs, humanMs).1 ==> a.task == task
  {
  }

  /** A tick acts only on tasks that it found, and reports the number of tasks for which it did something. */
  lemma {:induction false} ActedCountsTasks(escalated: map<string, Escalation>, round: Round, humanMs: int)
    requires NoDup(round.orphans)
    ensures Tick(escalated, round, humanMs).acted == |TasksOf(Tick(escalated, round, humanMs).acts)|
    ensures forall t :: t in TasksOf(Tick(escalated, round, humanMs).acts) ==> t in round.orphans
    decreases |round.orphans|
  {
    if round.orphans == [] {
      assert TasksOf([]) == {};
    } else {
      ActedCountsTasks(escalated, Init(round), humanMs);
      OneMoreVisit(escalated, round, humanMs);
    }
  }

  lemma OneMoreVisit(escalated: map<string, Escalation>, round: Round, humanMs: int)
    requires round.orphans != [] && NoDup(round.orphans)
    requires forall t :: t in TasksOf(Tick(escalated, Init(round), humanMs).acts) ==> t in Init(round).orphans
    ensures var before, after := Tick(escalated, Init(round), humanMs), Tick(escalated, round, humanMs);
            && after.acted - before.acted == |TasksOf(after.acts)| - |TasksOf(before.acts)|
            && forall t :: t in TasksOf(after.acts) ==> t in round.orphans
  {
    var n, before := |round.orphans| - 1, Tick(escalated, Init(round), humanMs);
    var t, ok := round.orphans[n], round.triageOk[n];
    ActIsAbout(before.escalated, t, ok, round.nowMs, humanMs);
    assert t !in Init(round).orphans;
    TasksSnoc(before.acts, Act(before.escalated, t, ok, round.nowMs, humanMs).1, t);
  }

  lemma {:induction false} SweepKeepsInv(escalated: map<string, Escalation>, acts: seq<Action>, round: Round, humanMs: int)
    requires Inv(escalated, acts, humanMs)
    ensures var r := Sweep(escalated, round.orphans, round.triageOk, round.nowMs, humanMs); Inv(r.escalated, acts + r.acts, humanMs)
    decreases |round.orphans|
  {
    if round.orphans == [] {
      assert acts + [] == acts;
    } else {
      var n := |round.orphans| - 1;
      var r := Sweep(escalated, round.orphans[..n], round.triageOk[..n], round.nowMs, humanMs);
      SweepKeepsInv(escalated, acts, Round(round.orphans[..n], round.triageOk[..n], round.nowMs), humanMs);
      ActKeepsInv(r.escalated, acts + r.acts, round.orphans[n], round.triageOk[n], round.nowMs, humanMs);
      Assoc(acts, r.acts, Act(r.escalated, round.orphans[n], round.triageOk[n], round.nowMs, humanMs).1);
    }
  }

  /** All ticks so far: the record, and every action taken. */
  function Swept(rounds: seq<Round>, humanMs: int): Sweeping {
    if rounds == [] then Sweeping(map[], [], 0)
    else
      var before, round := Swept(rounds[..|rounds| - 1], humanMs), rounds[|rounds| - 1];
      var r := Sweep(before.escalated, round.orphans, round.triageOk, round.nowMs, humanMs);
      Sweeping(r.escalated, before.acts + r.acts, r.acted)
  }

  lemma {:induction false} SweptKeepsInv(rounds: seq<Round>, humanMs: int)
    ensures Inv(Swept(rounds, humanMs).escalated, Swept(rounds, humanMs).acts, humanMs)
  {
    if rounds != [] {
      var before := Swept(rounds[..|rounds| - 1], humanMs);
      SweptKeepsInv(rounds[..|rounds| - 1], humanMs);
      SweepKeepsInv(before.escalated, before.acts, rounds[|rounds| - 1], humanMs);
    }
  }

  /**
   * Over every sequence of ticks: a task is triaged at most once and flagged at most once; it is flagged only
   * after its triage, at the same moment if that failed, else at least `humanMs` later.
   */
  lemma EscalationIsBounded(rounds: seq<Round>, humanMs: int, task: string, i: nat)
    ensures var acts := Swept(rounds, humanMs).acts;
            && Triages(acts, task) <= 1 && Flags(acts, task) <= Triages(acts, task)
            && (i < |acts| && acts[i].Flagged? ==>
                  exists j :: 0 <= j < i && acts[j].Triaged? && acts[j].task == acts[i].task
                              && (if acts[j].ok then acts[i].at - acts[j].at >= humanMs else acts[i].at == acts[j].at))
  {
    SweptKeepsInv(rounds, humanMs);
    assert Counted(Swept(rounds, humanMs).escalated, Swept(rounds, humanMs).acts, task);
  }

  lemma {:induction false} SweepSees(escalated: map<string, Escalation>, orphans: seq<string>, triageOk: seq<bool>, nowMs: int, humanMs: int, t: string)
    requires |triageOk| == |orphans|
    ensures var r := Sweep(escalated, orphans, triageOk, nowMs, humanMs).escalated;
            && (t in r <==> t in escalated || t in orphans)
            && (t in r && t !in escalated ==> r[t].firstMs == nowMs)
            && (t in escalated ==> r[t].firstMs == escalated[t].firstMs && (escalated[t].humanFlagged ==> r[t].humanFlagged))
            && (t in escalated && t in orphans && nowMs - escalated[t].firstMs >= humanMs ==> r[t].humanFlagged)
  {
    if orphans != [] {
      var n := |orphans| - 1;
      SweepSees(escalated, orphans[..n], triageOk[..n], nowMs, humanMs, t);
      assert orphans == orphans[..n] + [orphans[n]];
    }
  }

  /** A task is on record if and only if some tick's scan has found it. */
  lemma {:induction false} RecordedExactly(rounds: seq<Round>, humanMs: int, t: string)
    ensures t in Swept(rounds, humanMs).escalated <==> exists k :: 0 <= k < |rounds| && t in rounds[k].orphans
  {
    if rounds != [] {
      var n := |rounds| - 1;
      RecordedExactly(rounds[..n], humanMs, t);
      SweepSees(Swept(rounds[..n], humanMs).escalated, rounds[n].orphans, rounds[n].triageOk, rounds[n].nowMs, humanMs, t);
      assert forall k :: 0 <= k < n ==> rounds[..n][k] == rounds[k];
    }
  }

  predicate FirstSeen(rounds: seq<Round>, t: string, i: nat) {
    i < |rounds| && t in rounds[i].orphans && forall k :: 0 <= k < i ==> t !in rounds[k].orphans
  }

  lemma {:induction false} FirstSighting(rounds: seq<Round>, humanMs: int, t: string, i: nat)
    requires FirstSeen(rounds, t, i)
    ensures var e := Swept(rounds, humanMs).escalated; t in e && e[t].firstMs == rounds[i].nowMs
  {
    var n := |rounds| - 1;
    var before := Swept(rounds[..n], humanMs).escalated;
    SweepSees(before, rounds[n].orphans, rounds[n].triageOk, rounds[n].nowMs, humanMs, t);
    if i < n {
      FirstSighting(rounds[..n], humanMs, t, i);
    } else {
      RecordedExactly(rounds[..n], humanMs, t);
    }
  }

  lemma {:induction false} FlaggedOnceOverdue(rounds: seq<Round>, humanMs: int, t: string, i: nat, n: nat)
    requires FirstSeen(rounds, t, i) && i < n < |rounds| && t in rounds[n].orphans
    requires rounds[n].nowMs - rounds[i].nowMs >= humanMs
    ensures var e := Swept(rounds, humanMs).escalated; t in e && e[t].humanFlagged
  {
    var m := |rounds| - 1;
    var before := Swept(rounds[..m], humanMs).escalated;
    SweepSees(before, rounds[m].orphans, rounds[m].triageOk, rounds[m].nowMs, humanMs, t);
    if n < m {
      FlaggedOnceOverdue(rounds[..m], humanMs, t, i, n);
    } else {
      FirstSighting(rounds[..m], humanMs, t, i);
    }
  }

  /**
   * No found orphan is forgotten: whatever ticks lie between, a task that some tick finds at least the waiting
   * time after the tick that found it first has been flagged to a human, exactly once.
   */
  lemma OrphansReachAHuman(rounds: seq<Round>, humanMs: int, t: string, i: nat, n: nat)
    requires FirstSeen(rounds, t, i) && i < n < |rounds| && t in rounds[n].orphans
    requires rounds[n].nowMs - rounds[i].nowMs >= humanMs
    ensures var r := Swept(rounds, humanMs); t in r.escalated && r.escalated[t].humanFlagged && Flags(r.acts, t) == 1
  {
    FlaggedOnceOverdue(rounds, humanMs, t, i, n);
    SweptKeepsInv(rounds, humanMs);
    assert Counted(Swept(rounds, humanMs).escalated, Swept(rounds, humanMs).acts, t);
  }

  /**
   * When a task is flagged, over every sequence of ticks whose scans find each task once: exactly when its triage
   * failed at the first sighting, or some later tick found it at least the waiting time after that.
   */
  lemma {:induction false} FlaggedExactly(rounds: seq<Round>, humanMs: int, t: string, i: nat, p: nat)
    requires FirstSeen(rounds, t, i) && p < |rounds[i].orphans| && rounds[i].orphans[p] == t
    requires forall k :: 0 <= k < |rounds| ==> NoDup(rounds[k].orphans)
    ensures var e := Swept(rounds, humanMs).escalated;
            && t in e
            && (e[t].humanFlagged
                <==> !rounds[i].triageOk[p]
                     || exists n :: i < n < |rounds| && t in rounds[n].orphans && rounds[n].nowMs - rounds[i].nowMs >= humanMs)
  {
    var m := |rounds| - 1;
    var before := Swept(rounds[..m], humanMs).escalated;
    if i == m {
      RecordedExactly(rounds[..m], humanMs, t);
      TickForTask(before, rounds[m], humanMs, t, p);
    } else {
      FlaggedExactly(rounds[..m], humanMs, t, i, p);
      FirstSighting(rounds[..m], humanMs, t, i);
      assert forall k :: 0 <= k < m ==> rounds[..m][k] == rounds[k];
      if t in rounds[m].orphans {
        var q :| 0 <= q < |rounds[m].orphans| && rounds[m].orphans[q] == t;
        TickForTask(before, rounds[m], humanMs, t, q);
      } else {
        TickForOthers(before, rounds[m], humanMs, t);
      }
    }
  }

  /** Every round's scan answered the limited query for the same stale orphans. */
  ghost predicate Scans(rounds: seq<Round>, stale: set<string>, batch: nat) {
    forall k :: 0 <= k < |rounds| ==> Answers(stale, batch, rounds[k].orphans)
  }

  /**
   * The scan neither orders its rows nor leaves out flagged ones: while the stale orphans fit into a batch every
   * tick finds them all, otherwise any of them can stay hidden from any number of ticks.
   */
  lemma HiddenForeverExactly(stale: set<string>, batch: nat, hidden: string, n: nat, humanMs: int)
    requires hidden in stale && n > 0
    ensures (exists rounds: seq<Round> :: |rounds| == n && Scans(rounds, stale, batch) && hidden !in Swept(rounds, humanMs).escalated)
            <==> batch < |stale|
  {
    if batch < |stale| {
      var out := AnswerWithout(stale, batch, hidden);
      var round: Round := Round(out, seq(|out|, _ => true), 0);
      var rounds := seq(n, _ => round);
      RecordedExactly(rounds, humanMs, hidden);
      assert |rounds| == n && Scans(rounds, stale, batch) && hidden !in Swept(rounds, humanMs).escalated;
    } else {
      forall rounds: seq<Round> | |rounds| == n && Scans(rounds, stale, batch)
        ensures hidden in Swept(rounds, humanMs).escalated
      {
        AnswerIsCompleteExactly(stale, batch, rounds[0].orphans);
        RecordedExactly(rounds, humanMs, hidden);
      }
    }
  }

  class OrphanSweeper {
    const humanMs: int
    var escalated: map<string, Escalation>
    var acts: seq<Action>

    ghost predicate Valid()
      reads this
    {
      Inv(escalated, acts, humanMs)
    }

    constructor (humanMs: int)
      ensures Valid() && escalated == map[] && acts == [] && this.humanMs == humanMs
    {
      this.humanMs := humanMs;
      escalated, acts := map[], [];
    }

    /** The body of the tick's loop: one orphan, `ok` if its triage is dispatched. */
    method Visit(task: string, ok: bool, nowMs: int) returns (did: bool)
      requires Valid()
      modifies this`escalated, this`acts
      ensures Valid()
      ensures var (e, more) := Act(old(escalated), task, ok, nowMs, humanMs);
              escalated == e && acts == old(acts) + more && did == (more != [])
    {
      ActKeepsInv(escalated, acts, task, ok, nowMs, humanMs);
      ghost var was := acts;
      if task !in escalated {
        acts := acts + [Triaged(task, nowMs, ok)];
        if !ok {
          acts := acts + [Flagged(task, nowMs)];
          assert acts == was + [Triaged(task, nowMs, ok), Flagged(task, nowMs)];
        }
        escalated := escalated[task := Escalation(nowMs, !ok)];
        return true;
      } else if !escalated[task].humanFlagged && nowMs - escalated[task].firstMs >= humanMs {
        acts := acts + [Flagged(task, nowMs)];
        escalated := escalated[task := escalated[task].(humanFlagged := true)];
        return true;
      }
      return false;
    }

    /** One tick over the scanned orphans; `triageOk` answers for each whether its triage is dispatched. */
    method RunTick(orphans: seq<string>, triageOk: seq<bool>, nowMs: int) returns (acted: nat)
      requires Valid() && |triageOk| == |orphans|
      modifies this`escalated, this`acts
      ensures Valid()
      ensures var r := Sweep(old(escalated), orphans, triageOk, nowMs, humanMs);
              escalated == r.escalated && acts == old(acts) + r.acts && acted == r.acted
    {
      acted := 0;
      ghost var before := escalated;
      var i := 0;
      while i < |orphans|
        invariant 0 <= i <= |orphans| && Valid()
        invariant var r := Sweep(before, orphans[..i], triageOk[..i], nowMs, humanMs);
                  escalated == r.escalated && acts == old(acts) + r.acts && acted == r.acted
      {
        SweepNext(before, orphans, triageOk, nowMs, humanMs, i);
        Assoc(old(acts), Sweep(before, orphans[..i], triageOk[..i], nowMs, humanMs).acts,
              Act(escalated, orphans[i], triageOk[i], nowMs, humanMs).1);
        var did := Visit(orphans[i], triageOk[i], nowMs);
        if did {
          acted := acted + 1;
        }
        i := i + 1;
      }
      assert orphans[..|orphans|] == orphans && triageOk[..|orphans|] == triageOk;
    }
  }
}
