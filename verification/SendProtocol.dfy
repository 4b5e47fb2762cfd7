/**
 * Sends and claims of agents as sequences of database calls that interleave with every other append
 * and cursor move. An append is one atomic step (see `Allocation.StepRefinesAppend`).
 */
module SendProtocol {
  import opened Basics
  import opened Log
  import opened Freshness
  import opened TaskRules
  import Store

  /**
   * An operation of an agent on a channel. `latest` is the number it read when the log had `at` rows,
   * `seen` the cursor it read; a sent message is row `index` of the log.
   */
  datatype Op =
    | SendStart(agent: string, channel: Counter, force: bool)
    | SendLatest(agent: string, channel: Counter, force: bool, latest: nat, at: nat)
    | SendReady(agent: string, channel: Counter, force: bool, latest: nat, at: nat, seen: nat)
    | SendAppended(agent: string, channel: Counter, force: bool, latest: nat, at: nat, seen: nat, index: nat)
    | SendOver(agent: string, channel: Counter, force: bool, latest: nat, at: nat, seen: nat, index: nat)
    | SendHeld(agent: string, channel: Counter, latest: nat, at: nat, seen: nat, decision: Decision)
    | ClaimStart(agent: string, channel: Counter)
    | ClaimSeen(agent: string, channel: Counter, seen: nat)
    | ClaimPassed(agent: string, channel: Counter, seen: nat, latest: nat, at: nat)
    | ClaimHeld(agent: string, channel: Counter, seen: nat, latest: nat, at: nat, decision: Decision)
  {
    predicate Starting() { SendStart? || ClaimStart? }
    predicate Finished() { SendOver? || SendHeld? || ClaimPassed? || ClaimHeld? }
    predicate Sent() { SendAppended? || SendOver? }
  }

  datatype State = State(log: seq<Row>, seen: map<(string, Counter), nat>, drafts: nat, ops: map<nat, Op>) {
    function Seen(agent: string, c: Counter): nat { Get(seen, (agent, c), 0) }
  }

  const INIT := State([], map[], 0, map[])

  datatype Step = Begin(id: nat, op: Op) | Advance(id: nat) | Post(c: Counter) | Read(agent: string, c: Counter, upTo: nat)

  ghost predicate Enabled(s: State, step: Step) {
    match step
    case Begin(id, op) => id !in s.ops && op.Starting()
    case Advance(id) => id in s.ops && !s.ops[id].Finished()
    case Post(_) => true
    case Read(_, _, _) => true
  }

  function See(s: State, agent: string, c: Counter, n: nat): State {
    s.(seen := s.seen[(agent, c) := Max(s.Seen(agent, c), n)])
  }

  function AdvanceOp(s: State, id: nat, op: Op): State {
    var c := op.channel;
    match op
    case SendStart(a, _, force) => s.(ops := s.ops[id := SendLatest(a, c, force, MaxNumber(s.log, c), |s.log|)])
    case SendLatest(a, _, force, latest, at) => s.(ops := s.ops[id := SendReady(a, c, force, latest, at, s.Seen(a, c))])
    case SendReady(a, _, force, latest, at, seen) =>
      var d := DecideFreshness(seen, latest, force);
      if d.Hold? then s.(drafts := s.drafts + 1, ops := s.ops[id := SendHeld(a, c, latest, at, seen, d)])
      else s.(log := Append(s.log, c, id), ops := s.ops[id := SendAppended(a, c, force, latest, at, seen, |s.log|)])
    case SendAppended(a, _, force, latest, at, seen, index) =>
      var t := if index < |s.log| then See(s, a, c, s.log[index].number) else s;
      t.(ops := s.ops[id := SendOver(a, c, force, latest, at, seen, index)])
    case ClaimStart(a, _) => s.(ops := s.ops[id := ClaimSeen(a, c, s.Seen(a, c))])
    case ClaimSeen(a, _, seen) =>
      var latest := MaxNumber(s.log, c);
      var d := DecideFreshness(seen, latest, false);
      s.(ops := s.ops[id := if d.Hold? then ClaimHeld(a, c, seen, latest, |s.log|, d) else ClaimPassed(a, c, seen, latest, |s.log|)])
    case _ => s
  }

  ghost function Next(s: State, step: Step): State
    requires Enabled(s, step)
  {
    match step
    case Begin(id, op) => s.(ops := s.ops[id := op])
    case Advance(id) => AdvanceOp(s, id, s.ops[id])
    case Post(c) => s.(log := Append(s.log, c, 0))
    case Read(a, c, upTo) => See(s, a, c, upTo)
  }

  ghost predicate Runs(s: State, steps: seq<Step>)
    decreases |steps|
  {
    steps == [] || (Enabled(s, steps[0]) && Runs(Next(s, steps[0]), steps[1..]))
  }

  ghost function Exec(s: State, steps: seq<Step>): State
    requires Runs(s, steps)
    decreases |steps|
  {
    if steps == [] then s else Exec(Next(s, steps[0]), steps[1..])
  }

  function Advances(id: nat, n: nat): seq<Step> {
    if n == 0 then [] else [Advance(id)] + Advances(id, n - 1)
  }

  lemma Prepend(s: State, step: Step, rest: seq<Step>)
    requires Enabled(s, step) && Runs(Next(s, step), rest)
    ensures Runs(s, [step] + rest) && Exec(s, [step] + rest) == Exec(Next(s, step), rest)
  {
    assert ([step] + rest)[1..] == rest;
  }

  // ---- the invariant ----

  /** `latest` is what the log said when it had `at` rows. */
  ghost predicate ReadAt(log: seq<Row>, c: Counter, latest: nat, at: nat) {
    at <= |log| && latest == MaxNumber(log[..at], c)
  }

  ghost predicate OpInv(s: State, id: nat, op: Op) {
    var c := op.channel;
    match op
    case SendLatest(_, _, _, latest, at) => ReadAt(s.log, c, latest, at)
    case SendReady(a, _, _, latest, at, seen) => ReadAt(s.log, c, latest, at) && seen <= s.Seen(a, c)
    case SendAppended(_, _, _, _, _, _, _) => SentInv(s, id, op)
    case SendOver(a, _, _, _, _, _, index) => SentInv(s, id, op) && s.log[index].number <= s.Seen(a, c)
    case SendHeld(_, _, latest, at, seen, d) => ReadAt(s.log, c, latest, at) && d == DecideFreshness(seen, latest, false) && d.Hold?
    case ClaimSeen(a, _, seen) => seen <= s.Seen(a, c)
    case ClaimPassed(a, _, seen, latest, at) => ReadAt(s.log, c, latest, at) && latest <= seen <= s.Seen(a, c)
    case ClaimHeld(a, _, seen, latest, at, d) =>
      ReadAt(s.log, c, latest, at) && seen <= s.Seen(a, c) && d == DecideFreshness(seen, latest, false) && d.Hold?
    case _ => true
  }

  ghost predicate SentInv(s: State, id: nat, op: Op)
    requires op.Sent()
  {
    && ReadAt(s.log, op.channel, op.latest, op.at) && op.at <= op.index < |s.log|
    && s.log[op.index] == Row(op.channel, MaxNumber(s.log[..op.index], op.channel) + 1, id)
    && (!op.force ==> op.latest <= op.seen) && op.seen <= s.Seen(op.agent, op.channel)
  }

  ghost predicate Inv(s: State) {
    Built(s.log) && forall id :: id in s.ops ==> OpInv(s, id, s.ops[id])
  }

  /** Later states only extend the log and raise the cursors. */
  ghost predicate Grows(s: State, t: State) {
    && (t.log == s.log || exists c, id :: t.log == Append(s.log, c, id))
    && (forall a, c :: s.Seen(a, c) <= t.Seen(a, c))
  }

  lemma OpInvGrows(s: State, t: State, id: nat, op: Op)
    requires OpInv(s, id, op) && Grows(s, t)
    ensures OpInv(t, id, op)
  {
    forall n: nat | n <= |s.log| ensures t.log[..n] == s.log[..n] {}
  }

  lemma AppendGrows(s: State, t: State, c: Counter, id: nat)
    requires Built(s.log) && t.log == Append(s.log, c, id) && t.seen == s.seen
    ensures Grows(s, t) && Built(t.log)
  {
    ReplayAfter(s.log, c, id);
  }

  lemma SeeGrows(s: State, t: State, agent: string, c: Counter, n: nat)
    requires t.log == s.log && t.seen == s.seen[(agent, c) := Max(s.Seen(agent, c), n)]
    ensures Grows(s, t) && t.Seen(agent, c) >= n
  {
  }

  lemma AdvanceGrows(s: State, id: nat, op: Op)
    requires Built(s.log)
    ensures Grows(s, AdvanceOp(s, id, op)) && Built(AdvanceOp(s, id, op).log)
  {
    var t := AdvanceOp(s, id, op);
    if op.SendReady? {
      if t.log != s.log {
        AppendGrows(s, t, op.channel, id);
      }
    } else if op.SendAppended? && op.index < |s.log| {
      SeeGrows(s, t, op.agent, op.channel, s.log[op.index].number);
    }
  }

  lemma StepGrows(s: State, step: Step)
    requires Built(s.log) && Enabled(s, step)
    ensures Grows(s, Next(s, step)) && Built(Next(s, step).log)
  {
    match step
    case Post(c) => AppendGrows(s, Next(s, step), c, 0);
    case Read(a, c, n) => SeeGrows(s, Next(s, step), a, c, n);
    case Advance(id) => AdvanceGrows(s, id, s.ops[id]);
    case Begin(_, _) =>
  }

  lemma ReadNow(log: seq<Row>, c: Counter)
    ensures ReadAt(log, c, MaxNumber(log, c), |log|)
  {
    assert log[..|log|] == log;
  }

  lemma SendGoesOut(s: State, id: nat, op: Op)
    requires Built(s.log) && OpInv(s, id, op) && op.SendReady? && !DecideFreshness(op.seen, op.latest, op.force).Hold?
    ensures var t := AdvanceOp(s, id, op); OpInv(t, id, t.ops[id])
  {
    var t := AdvanceOp(s, id, op);
    AppendGrows(s, t, op.channel, id);
    assert t.log[..op.at] == s.log[..op.at];
    assert t.log[..|s.log|] == s.log;
  }

  lemma AdvanceOpInv(s: State, id: nat)
    requires Inv(s) && id in s.ops && !s.ops[id].Finished()
    ensures var t := AdvanceOp(s, id, s.ops[id]);
            id in t.ops && OpInv(t, id, t.ops[id]) && t.ops == s.ops[id := t.ops[id]]
  {
    var op := s.ops[id];
    assert OpInv(s, id, op);
    ReadNow(s.log, op.channel);
    if op.SendReady? {
      if !DecideFreshness(op.seen, op.latest, op.force).Hold? {
        SendGoesOut(s, id, op);
      }
    }
  }

  lemma StepKeepsInv(s: State, step: Step)
    requires Inv(s) && Enabled(s, step)
    ensures Inv(Next(s, step))
  {
    var t := Next(s, step);
    StepGrows(s, step);
    if step.Advance? {
      AdvanceOpInv(s, step.id);
    }
    forall id | id in t.ops ensures OpInv(t, id, t.ops[id]) {
      if id in s.ops && t.ops[id] == s.ops[id] {
        OpInvGrows(s, t, id, s.ops[id]);
      }
    }
  }

  lemma {:induction false} RunKeepsInv(s: State, steps: seq<Step>)
    requires Inv(s) && Runs(s, steps)
    ensures Inv(Exec(s, steps))
    decreases |steps|
  {
    if steps != [] {
      StepKeepsInv(s, steps[0]);
      RunKeepsInv(Next(s, steps[0]), steps[1..]);
    }
  }

  // ---- counting rows ----

  /** How many rows of a counter lie in a stretch of the log. */
  function Posted(log: seq<Row>, c: Counter, from: nat, to: nat): nat
    requires from <= to <= |log|
  {
    |Numbers(log[from..to], c)|
  }

  lemma {:induction false} NumbersConcat(a: seq<Row>, b: seq<Row>, c: Counter)
    ensures Numbers(a + b, c) == Numbers(a, c) + Numbers(b, c)
  {
    if b == [] {
      assert a + b == a;
    } else {
      var n := |b| - 1;
      NumbersConcat(a, b[..n], c);
      assert (a + b)[..|a| + n] == a + b[..n];
    }
  }

  lemma PostedIsGrowth(log: seq<Row>, c: Counter, from: nat, to: nat)
    requires Built(log) && from <= to <= |log|
    ensures Posted(log, c, from, to) == MaxNumber(log[..to], c) - MaxNumber(log[..from], c)
  {
    BuiltPrefix(log, from);
    BuiltPrefix(log, to);
    ReplayCounts(log[..from], c);
    ReplayCounts(log[..to], c);
    assert log[..to] == log[..from] + log[from..to];
    NumbersConcat(log[..from], log[from..to], c);
  }

  /** How many rows of a counter have a number strictly between two bounds. */
  function Between(rows: seq<Row>, c: Counter, low: nat, high: nat): nat {
    if rows == [] then 0
    else
      var r := rows[|rows| - 1];
      Between(rows[..|rows| - 1], c, low, high) + (if r.counter == c && low < r.number < high then 1 else 0)
  }

  lemma {:induction false} BetweenCounts(rows: seq<Row>, c: Counter, low: nat, high: nat)
    requires Built(rows)
    ensures Between(rows, c, low, high) == Max(0, Min(MaxNumber(rows, c), high - 1) - low)
  {
    if rows != [] {
      var n := |rows| - 1;
      BuiltPrefix(rows, n);
      assert Replay(rows)[n] == rows[n];
      assert Replay(rows[..n]) == rows[..n];
      BetweenCounts(rows[..n], c, low, high);
    }
  }

  // ---- bounded staleness ----

  lemma RowsAboveAreLater(log: seq<Row>, c: Counter, latest: nat, at: nat, i: nat)
    requires Built(log) && ReadAt(log, c, latest, at) && i < |log| && log[i].counter == c && latest < log[i].number
    ensures at <= i
  {
    if i < at {
      MaxBounds(log[..at], i);
    }
  }

  lemma LowerIsEarlier(log: seq<Row>, i: nat, j: nat)
    requires Built(log) && i < |log| && j < |log|
    requires log[i].counter == log[j].counter && log[i].number < log[j].number
    ensures i < j
  {
    if j < i {
      NumberAboveEarlier(log, i, j);
    }
  }

  lemma MissedAreRecent(log: seq<Row>, c: Counter, latest: nat, at: nat, seen: nat, index: nat)
    requires Built(log) && ReadAt(log, c, latest, at) && latest <= seen && index < |log| && log[index].counter == c
    ensures forall i :: 0 <= i < |log| && log[i].counter == c && seen < log[i].number < log[index].number ==> at <= i < index
  {
    forall i | 0 <= i < |log| && log[i].counter == c && seen < log[i].number < log[index].number
      ensures at <= i < index
    {
      RowsAboveAreLater(log, c, latest, at, i);
      LowerIsEarlier(log, i, index);
    }
  }

  lemma MissedAreCounted(log: seq<Row>, c: Counter, latest: nat, at: nat, seen: nat, index: nat)
    requires Built(log) && ReadAt(log, c, latest, at) && latest <= seen && at <= index < |log|
    requires log[index].counter == c && log[index].number == MaxNumber(log[..index], c) + 1
    ensures var q := log[index].number;
            && Between(log, c, seen, q) == Max(0, q - 1 - seen) <= q - 1 - latest
            && q - 1 - latest == Posted(log, c, at, index)
  {
    PostedIsGrowth(log, c, at, index);
    BetweenCounts(log, c, seen, log[index].number);
    MaxBounds(log, index);
  }

  /**
   * Whatever interleaves: when an unforced send went out with number q, every message of the channel that
   * the agent had not seen below q was appended after the send read the latest number; there are at most as
   * many as were appended in between, and none when nothing was.
   */
  lemma StalenessIsBounded(steps: seq<Step>, id: nat)
    requires Runs(INIT, steps)
    requires id in Exec(INIT, steps).ops && Exec(INIT, steps).ops[id].SendOver? && !Exec(INIT, steps).ops[id].force
    ensures var s := Exec(INIT, steps); var op := s.ops[id]; var c := op.channel;
            && op.at <= op.index < |s.log| && s.log[op.index].counter == c && s.log[op.index].txn == id
            && op.latest == MaxNumber(s.log[..op.at], c) <= op.seen
            && var q := s.log[op.index].number;
            && (forall i :: 0 <= i < |s.log| && s.log[i].counter == c && op.seen < s.log[i].number < q ==> op.at <= i < op.index)
            && Between(s.log, c, op.seen, q) == Max(0, q - 1 - op.seen) <= q - 1 - op.latest
            && q - 1 - op.latest == Posted(s.log, c, op.at, op.index)
  {
    RunKeepsInv(INIT, steps);
    MissedBySend(Exec(INIT, steps), id);
  }

  lemma MissedBySend(s: State, id: nat)
    requires Inv(s) && id in s.ops && s.ops[id].SendOver? && !s.ops[id].force
    ensures var op := s.ops[id]; var c := op.channel;
            && op.at <= op.index < |s.log| && s.log[op.index].counter == c && s.log[op.index].txn == id
            && op.latest == MaxNumber(s.log[..op.at], c) <= op.seen
            && var q := s.log[op.index].number;
            && (forall i :: 0 <= i < |s.log| && s.log[i].counter == c && op.seen < s.log[i].number < q ==> op.at <= i < op.index)
            && Between(s.log, c, op.seen, q) == Max(0, q - 1 - op.seen) <= q - 1 - op.latest
            && q - 1 - op.latest == Posted(s.log, c, op.at, op.index)
  {
    var op := s.ops[id];
    assert OpInv(s, id, op);
    MissedAreRecent(s.log, op.channel, op.latest, op.at, op.seen, op.index);
    MissedAreCounted(s.log, op.channel, op.latest, op.at, op.seen, op.index);
  }

  /** A claim that passed its preflight: every message above the agent's cursor came after the latest number was read. */
  lemma PassedClaimIsFresh(steps: seq<Step>, id: nat, i: nat)
    requires Runs(INIT, steps)
    requires id in Exec(INIT, steps).ops && Exec(INIT, steps).ops[id].ClaimPassed?
    requires var s := Exec(INIT, steps); var op := s.ops[id];
             i < |s.log| && s.log[i].counter == op.channel && op.seen < s.log[i].number
    ensures var s := Exec(INIT, steps); var op := s.ops[id];
            op.at <= i && op.latest == MaxNumber(s.log[..op.at], op.channel) <= op.seen
  {
    RunKeepsInv(INIT, steps);
    var s := Exec(INIT, steps);
    assert OpInv(s, id, s.ops[id]);
    RowsAboveAreLater(s.log, s.ops[id].channel, s.ops[id].latest, s.ops[id].at, i);
  }

  /** A held send names exactly the rows that were unseen when it read, and all of them exist. */
  lemma HeldWindowIsReal(steps: seq<Step>, id: nat)
    requires Runs(INIT, steps)
    requires id in Exec(INIT, steps).ops && Exec(INIT, steps).ops[id].SendHeld?
    ensures var s := Exec(INIT, steps); var op := s.ops[id];
            && op.at <= |s.log| && op.latest == MaxNumber(s.log[..op.at], op.channel)
            && op.decision == Hold(Between(s.log[..op.at], op.channel, op.seen, op.latest + 1), op.seen + 1, op.latest)
            && op.decision.unseenCount > 0
  {
    RunKeepsInv(INIT, steps);
    var s := Exec(INIT, steps);
    var op := s.ops[id];
    assert OpInv(s, id, op);
    BuiltPrefix(s.log, op.at);
    BetweenCounts(s.log[..op.at], op.channel, op.seen, op.latest + 1);
  }

  /**
   * In every run, of the operations that read cursor `seen` and latest number `latest`: an unforced send or a
   * claim is held if and only if something was unseen, and is told the unseen numbers; a forced send is sent.
   */
  lemma HeldExactlyWhenBehind(steps: seq<Step>, id: nat)
    requires Runs(INIT, steps) && id in Exec(INIT, steps).ops && Exec(INIT, steps).ops[id].Finished()
    ensures var s := Exec(INIT, steps); var op := s.ops[id];
            && op.at <= |s.log| && op.latest == MaxNumber(s.log[..op.at], op.channel)
            && (op.SendHeld? || op.ClaimHeld? <==> op.latest > op.seen && !(op.SendOver? && op.force))
            && (op.SendHeld? || op.ClaimHeld? ==>
                  op.decision == Hold(op.latest - op.seen, op.seen + 1, op.latest))
  {
    RunKeepsInv(INIT, steps);
    assert OpInv(Exec(INIT, steps), id, Exec(INIT, steps).ops[id]);
  }

  /** A claim's preflight with nothing in between: it reads the agent's cursor and the channel's latest number as they are. */
  lemma UninterruptedClaim(s: State, agent: string, c: Counter, id: nat)
    requires id !in s.ops
    ensures var steps := [Begin(id, ClaimStart(agent, c))] + Advances(id, 2);
            && Runs(s, steps)
            && var u := Exec(s, steps);
            && u.log == s.log && u.seen == s.seen && u.drafts == s.drafts && id in u.ops
            && (u.ops[id].ClaimHeld? || u.ops[id].ClaimPassed?)
            && u.ops[id].seen == s.Seen(agent, c) && u.ops[id].latest == MaxNumber(s.log, c)
            && (u.ops[id].ClaimHeld? <==> MaxNumber(s.log, c) > s.Seen(agent, c))
  {
    var begin := Begin(id, ClaimStart(agent, c));
    var a := Next(s, begin);
    var b := Next(a, Advance(id));
    assert Advances(id, 1) == [Advance(id)] + [];
    Prepend(b, Advance(id), []);
    Prepend(a, Advance(id), Advances(id, 1));
    Prepend(s, begin, Advances(id, 2));
  }

  // ---- reading past the end ----

  predicate HasSeen(op: Op) {
    op.SendReady? || op.SendAppended? || op.SendOver? || op.SendHeld? || op.ClaimSeen? || op.ClaimPassed?
  }

  /** The agent's cursor is at `n` or above, and so is the one that the operation read. */
  ghost predicate ReadsAbove(s: State, agent: string, c: Counter, n: nat, id: nat) {
    && s.Seen(agent, c) >= n
    && (id in s.ops && s.ops[id].agent == agent && s.ops[id].channel == c && HasSeen(s.ops[id]) ==> s.ops[id].seen >= n)
  }

  lemma StepReadsAbove(s: State, step: Step, agent: string, c: Counter, n: nat, id: nat)
    requires ReadsAbove(s, agent, c, n, id) && Enabled(s, step) && Grows(s, Next(s, step))
    ensures ReadsAbove(Next(s, step), agent, c, n, id)
  {
  }

  lemma {:induction false} RunReadsAbove(s: State, rest: seq<Step>, agent: string, c: Counter, n: nat, id: nat)
    requires Inv(s) && ReadsAbove(s, agent, c, n, id) && Runs(s, rest)
    ensures ReadsAbove(Exec(s, rest), agent, c, n, id)
    decreases |rest|
  {
    if rest != [] {
      StepGrows(s, rest[0]);
      StepKeepsInv(s, rest[0]);
      StepReadsAbove(s, rest[0], agent, c, n, id);
      RunReadsAbove(Next(s, rest[0]), rest[1..], agent, c, n, id);
    }
  }

  /**
   * After an agent has marked a channel read up to any number, even past the end, an unforced send that it
   * begins later works with a cursor at least that high, and is held if and only if the latest number it reads
   * exceeds its cursor: whatever is posted up to the marked number goes unnoticed.
   */
  lemma HeldAfterReadingAhead(before: seq<Step>, agent: string, c: Counter, upTo: nat, rest: seq<Step>, id: nat)
    requires Runs(INIT, before) && id !in Exec(INIT, before).ops
    requires Runs(Next(Exec(INIT, before), Read(agent, c, upTo)), rest)
    requires var u := Exec(Next(Exec(INIT, before), Read(agent, c, upTo)), rest);
             && id in u.ops && u.ops[id].agent == agent && u.ops[id].channel == c
             && (u.ops[id].SendHeld? || (u.ops[id].SendOver? && !u.ops[id].force))
    ensures var u := Exec(Next(Exec(INIT, before), Read(agent, c, upTo)), rest); var op := u.ops[id];
            && op.at <= |u.log| && op.latest == MaxNumber(u.log[..op.at], c)
            && op.seen >= upTo && (op.SendHeld? <==> op.latest > op.seen) && (op.latest <= upTo ==> op.SendOver?)
  {
    var s := Exec(INIT, before);
    var t := Next(s, Read(agent, c, upTo));
    RunKeepsInv(INIT, before);
    StepKeepsInv(s, Read(agent, c, upTo));
    RunReadsAbove(t, rest, agent, c, upTo, id);
    RunKeepsInv(t, rest);
    assert OpInv(Exec(t, rest), id, Exec(t, rest).ops[id]);
  }

  lemma {:induction false} RunsConcat(s: State, x: seq<Step>, y: seq<Step>)
    requires Runs(s, x) && Runs(Exec(s, x), y)
    ensures Runs(s, x + y) && Exec(s, x + y) == Exec(Exec(s, x), y)
    decreases |x|
  {
    if x == [] {
      assert x + y == y;
    } else {
      RunsConcat(Next(s, x[0]), x[1..], y);
      assert (x + y)[0] == x[0] && (x + y)[1..] == x[1..] + y;
    }
  }

  function Posts(c: Counter, n: nat): seq<Step> {
    if n == 0 then [] else Posts(c, n - 1) + [Post(c)]
  }

  lemma {:induction false} PostsRun(s: State, c: Counter, n: nat)
    ensures Runs(s, Posts(c, n))
    ensures var t := Exec(s, Posts(c, n));
            t.seen == s.seen && t.ops == s.ops && MaxNumber(t.log, c) == MaxNumber(s.log, c) + n
  {
    if n > 0 {
      PostsRun(s, c, n - 1);
      var t := Exec(s, Posts(c, n - 1));
      Prepend(t, Post(c), []);
      RunsConcat(s, Posts(c, n - 1), [Post(c)] + []);
      assert Posts(c, n) == Posts(c, n - 1) + ([Post(c)] + []);
      MaxAfter(t.log, Row(c, MaxNumber(t.log, c) + 1, 0), c);
    }
  }

  lemma SendRun(s: State, agent: string, c: Counter, id: nat)
    requires id !in s.ops && MaxNumber(s.log, c) <= s.Seen(agent, c)
    ensures var steps := [Begin(id, SendStart(agent, c, false))] + Advances(id, 4);
            && Runs(s, steps)
            && var u := Exec(s, steps);
            && id in u.ops && u.ops[id] == SendOver(agent, c, false, MaxNumber(s.log, c), |s.log|, s.Seen(agent, c), |s.log|)
            && u.log == Append(s.log, c, id)
  {
    var begin := Begin(id, SendStart(agent, c, false));
    var a := Next(s, begin);
    var b := Next(a, Advance(id));
    var d := Next(b, Advance(id));
    var e := Next(d, Advance(id));
    assert Advances(id, 1) == [Advance(id)] + [];
    Prepend(e, Advance(id), []);
    Prepend(d, Advance(id), Advances(id, 1));
    Prepend(b, Advance(id), Advances(id, 2));
    Prepend(a, Advance(id), Advances(id, 3));
    Prepend(s, begin, Advances(id, 4));
  }

  /** For any n: an agent marks an empty channel read up to n, n messages are posted, and its unforced send goes out unaware of them. */
  lemma ReadingAheadMissesAll(agent: string, c: Counter, n: nat) returns (steps: seq<Step>)
    ensures Runs(INIT, steps)
    ensures var s := Exec(INIT, steps);
            && 1 in s.ops && s.ops[1].SendOver? && !s.ops[1].force && s.ops[1].index < |s.log|
            && s.log[s.ops[1].index].number == n + 1 && s.ops[1].latest == n == Between(s.log[..s.ops[1].index], c, 0, n + 1)
  {
    var t := Next(INIT, Read(agent, c, n));
    PostsRun(t, c, n);
    var u := Exec(t, Posts(c, n));
    var send := [Begin(1, SendStart(agent, c, false))] + Advances(1, 4);
    SendRun(u, agent, c, 1);
    RunsConcat(t, Posts(c, n), send);
    Prepend(INIT, Read(agent, c, n), Posts(c, n) + send);
    steps := [Read(agent, c, n)] + (Posts(c, n) + send);
    Prepend(INIT, Read(agent, c, n), Posts(c, n));
    RunKeepsInv(INIT, [Read(agent, c, n)] + Posts(c, n));
    BetweenCounts(u.log, c, 0, n + 1);
    assert Append(u.log, c, 1)[..|u.log|] == u.log;
  }

  // ---- an uninterrupted send is the send of the store ----

  /** The machine and a snapshot of the store agree about a workspace. */
  ghost predicate Matches(s: State, t: Store.Snapshot, ws: string) {
    && (forall c :: MaxNumber(s.log, Channel(ws, c)) == Store.LatestSeq(t.messages, ws, c))
    && (forall a, c :: s.Seen(a, Channel(ws, c)) == t.Seen(ws, a, c))
    && s.drafts == |t.drafts|
  }

  lemma AppendMatches(s: State, s': State, t: Store.Snapshot, ws: string, m: Store.NewMessage, id: nat)
    requires Matches(s, t, ws) && s'.log == Append(s.log, Channel(ws, m.channel), id) && s'.seen == s.seen && s'.drafts == s.drafts
    ensures Matches(s', Store.AppendTo(t, ws, m).0, ws)
    ensures s'.log[|s.log|].number == Store.AppendTo(t, ws, m).1.seqNo
  {
    var key := Channel(ws, m.channel);
    forall c ensures MaxNumber(s'.log, Channel(ws, c)) == Store.LatestSeq(Store.AppendTo(t, ws, m).0.messages, ws, c) {
      MaxAfter(s.log, Row(key, MaxNumber(s.log, key) + 1, id), Channel(ws, c));
      Store.LatestAfterAppend(t, ws, m, c);
    }
    forall a, c ensures s'.Seen(a, Channel(ws, c)) == Store.AppendTo(t, ws, m).0.Seen(ws, a, c) {
      assert s.Seen(a, Channel(ws, c)) == t.Seen(ws, a, c);
    }
  }

  lemma SeeMatches(s: State, s': State, t: Store.Snapshot, ws: string, agent: string, channel: string, n: nat)
    requires Matches(s, t, ws)
    requires s'.log == s.log && s'.drafts == s.drafts && s'.seen == See(s, agent, Channel(ws, channel), n).seen
    ensures Matches(s', Store.SeeUpTo(t, ws, agent, channel, n), ws)
  {
    var t' := Store.SeeUpTo(t, ws, agent, channel, n);
    forall a, c ensures s'.Seen(a, Channel(ws, c)) == t'.Seen(ws, a, c) {
      assert s.Seen(a, Channel(ws, c)) == t.Seen(ws, a, c);
    }
  }

  lemma AppendStep(s: State, t: Store.Snapshot, ws: string, m: Store.NewMessage, id: nat)
    requires Matches(s, t, ws) && id in s.ops && s.ops[id].SendReady? && s.ops[id].channel == Channel(ws, m.channel)
    requires !DecideFreshness(s.ops[id].seen, s.ops[id].latest, s.ops[id].force).Hold?
    ensures var a := AdvanceOp(s, id, s.ops[id]); var (t', row) := Store.AppendTo(t, ws, m);
            && Matches(a, t', ws) && id in a.ops && a.ops[id].SendAppended?
            && a.ops[id].agent == s.ops[id].agent && a.ops[id].channel == s.ops[id].channel
            && a.ops[id].index < |a.log| && a.log[a.ops[id].index].number == row.seqNo
  {
    AppendMatches(s, AdvanceOp(s, id, s.ops[id]), t, ws, m, id);
  }

  lemma SeeStep(s: State, t: Store.Snapshot, ws: string, channel: string, id: nat)
    requires Matches(s, t, ws) && id in s.ops && s.ops[id].SendAppended? && s.ops[id].channel == Channel(ws, channel)
    requires s.ops[id].index < |s.log|
    ensures var op := s.ops[id]; var b := AdvanceOp(s, id, op);
            && Matches(b, Store.SeeUpTo(t, ws, op.agent, channel, s.log[op.index].number), ws)
            && id in b.ops && b.ops[id].SendOver? && b.ops[id].index == op.index && b.log == s.log
  {
    var op := s.ops[id];
    SeeMatches(s, AdvanceOp(s, id, op), t, ws, op.agent, channel, s.log[op.index].number);
  }

  lemma GoesOut(s: State, t: Store.Snapshot, ws: string, m: Store.NewMessage, id: nat)
    requires Matches(s, t, ws) && id in s.ops && s.ops[id].SendReady? && s.ops[id].channel == Channel(ws, m.channel)
    requires !DecideFreshness(s.ops[id].seen, s.ops[id].latest, s.ops[id].force).Hold?
    ensures Runs(s, Advances(id, 2))
    ensures var u := Exec(s, Advances(id, 2)); var (t', row) := Store.AppendTo(t, ws, m);
            && Matches(u, Store.SeeUpTo(t', ws, s.ops[id].agent, m.channel, row.seqNo), ws)
            && id in u.ops && u.ops[id].SendOver? && u.ops[id].index < |u.log| && u.log[u.ops[id].index].number == row.seqNo
  {
    var a := AdvanceOp(s, id, s.ops[id]);
    AppendStep(s, t, ws, m, id);
    SeeStep(a, Store.AppendTo(t, ws, m).0, ws, m.channel, id);
    assert Advances(id, 1) == [Advance(id)] + [] && Advances(id, 2) == [Advance(id)] + Advances(id, 1);
    Prepend(a, Advance(id), []);
    Prepend(s, Advance(id), Advances(id, 1));
  }

  /** The send has read what the store's send would read. */
  ghost predicate HasRead(s: State, t: Store.Snapshot, ws: string, agent: Actor, m: Store.NewMessage, force: bool, id: nat) {
    && Matches(s, t, ws) && id in s.ops && s.ops[id].SendReady? && s.ops[id].channel == Channel(ws, m.channel)
    && s.ops[id].agent == agent.id && s.ops[id].force == force
    && s.ops[id].latest == Store.LatestSeq(t.messages, ws, m.channel) && s.ops[id].seen == t.Seen(ws, agent.id, m.channel)
  }

  /** The operation ended as the store's send says. */
  ghost predicate Ended(s: State, t: Store.Snapshot, ws: string, r: Store.SendResult, id: nat) {
    && Matches(s, t, ws) && id in s.ops
    && match r
       case Held(_, n, from, to) => s.ops[id].SendHeld? && s.ops[id].decision == Hold(n, from, to)
       case Sent(row) => s.ops[id].SendOver? && s.ops[id].index < |s.log| && s.log[s.ops[id].index].number == row.seqNo
       case _ => false
  }

  lemma EndsAsTheStore(s: State, t: Store.Snapshot, ws: string, agent: Actor, m: Store.NewMessage, force: bool, id: nat)
    requires HasRead(s, t, ws, agent, m, force, id) && m.channel != "" && m.content != []
    ensures var (t', r) := Store.Send(t, ws, agent, m, force, false); var n := if r.Held? then 1 else 2;
            Runs(s, Advances(id, n)) && Ended(Exec(s, Advances(id, n)), t', ws, r, id)
  {
    if DecideFreshness(s.ops[id].seen, s.ops[id].latest, force).Hold? {
      var u, t' := Next(s, Advance(id)), Store.Send(t, ws, agent, m, force, false).0;
      assert Advances(id, 1) == [Advance(id)] + [];
      Prepend(s, Advance(id), []);
      forall a, c ensures u.Seen(a, Channel(ws, c)) == t'.Seen(ws, a, c) {
        assert s.Seen(a, Channel(ws, c)) == t.Seen(ws, a, c);
      }
    } else {
      GoesOut(s, t, ws, m.(sender := agent), id);
    }
  }

  lemma ReadsAsTheStore(s: State, t: Store.Snapshot, ws: string, agent: Actor, m: Store.NewMessage, force: bool, id: nat) returns (c: State)
    requires Matches(s, t, ws) && id !in s.ops
    ensures HasRead(c, t, ws, agent, m, force, id)
    ensures forall k: nat | Runs(c, Advances(id, k)) ::
              var steps := [Begin(id, SendStart(agent.id, Channel(ws, m.channel), force))] + Advances(id, k + 2);
              Runs(s, steps) && Exec(s, steps) == Exec(c, Advances(id, k))
  {
    var begin := Begin(id, SendStart(agent.id, Channel(ws, m.channel), force));
    var a := Next(s, begin);
    var b := Next(a, Advance(id));
    c := Next(b, Advance(id));
    forall k: nat | Runs(c, Advances(id, k))
      ensures Runs(s, [begin] + Advances(id, k + 2)) && Exec(s, [begin] + Advances(id, k + 2)) == Exec(c, Advances(id, k))
    {
      Prepend(b, Advance(id), Advances(id, k));
      Prepend(a, Advance(id), Advances(id, k + 1));
      Prepend(s, begin, Advances(id, k + 2));
    }
  }

  /** With nothing in between, the statements of a send do what the store's send does in one step. */
  lemma UninterruptedSend(s: State, t: Store.Snapshot, ws: string, agent: Actor, m: Store.NewMessage, force: bool, id: nat)
    requires Matches(s, t, ws) && id !in s.ops && m.channel != "" && m.content != []
    ensures var (t', r) := Store.Send(t, ws, agent, m, force, false);
            var steps := [Begin(id, SendStart(agent.id, Channel(ws, m.channel), force))] + Advances(id, if r.Held? then 3 else 4);
            Runs(s, steps) && Ended(Exec(s, steps), t', ws, r, id)
  {
    var c := ReadsAsTheStore(s, t, ws, agent, m, force, id);
    EndsAsTheStore(c, t, ws, agent, m, force, id);
    assert Runs(c, Advances(id, if Store.Send(t, ws, agent, m, force, false).1.Held? then 1 else 2));
  }
}
