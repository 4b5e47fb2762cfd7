/**
 * How message seqs and task numbers are allocated: every transaction takes a transaction-scoped
 * advisory lock on a hashed key, reads the largest committed number, inserts one more, and commits.
 * The hash is arbitrary, so unrelated counters may share a lock.
 */
module Allocation {
  import opened Basics
  import opened Log

  function LockKey(c: Counter): string {
    match c
    case Channel(_, id) => id
    case Tasks(ws) => "task:" + ws
  }

  datatype Txn =
    | Waiting(counter: Counter)
    | Locked(counter: Counter)
    | HasRead(counter: Counter, max: nat)
    | Inserted(counter: Counter, number: nat)
    | Committed(counter: Counter, number: nat)
    | Aborted(counter: Counter)
  {
    predicate Holding() { Locked? || HasRead? || Inserted? }
    predicate Over() { Committed? || Aborted? }
  }

  /** `rows` in commit order; `lock` maps a hash value to the transaction holding it. */
  datatype State = State(rows: seq<Row>, txns: map<nat, Txn>, lock: map<int, nat>)

  const INIT := State([], map[], map[])

  type Hash = string -> int

  // ---- steps ----

  datatype Step = Begin(t: nat, counter: Counter) | Lock(t: nat) | Read(t: nat) | Insert(t: nat) | Commit(t: nat) | Abort(t: nat)

  ghost predicate Enabled(hash: Hash, s: State, step: Step) {
    if step.Begin? then step.t !in s.txns
    else
      step.t in s.txns &&
      var x := s.txns[step.t];
      match step
      case Lock(_) => x.Waiting? && hash(LockKey(x.counter)) !in s.lock
      case Read(_) => x.Locked?
      case Insert(_) => x.HasRead?
      case Commit(_) => x.Inserted?
      case Abort(_) => !x.Over()
  }

  ghost function Next(hash: Hash, s: State, step: Step): State
    requires Enabled(hash, s, step)
  {
    var t := step.t;
    if step.Begin? then s.(txns := s.txns[t := Waiting(step.counter)])
    else
      var c := s.txns[t].counter;
      var key := hash(LockKey(c));
      match step
      case Lock(_) => s.(txns := s.txns[t := Locked(c)], lock := s.lock[key := t])
      case Read(_) => s.(txns := s.txns[t := HasRead(c, MaxNumber(s.rows, c))])
      case Insert(_) => s.(txns := s.txns[t := Inserted(c, s.txns[t].max + 1)])
      case Commit(_) => State(s.rows + [Row(c, s.txns[t].number, t)],
                              s.txns[t := Committed(c, s.txns[t].number)], s.lock - {key})
      case Abort(_) => s.(txns := s.txns[t := Aborted(c)], lock := if s.txns[t].Holding() then s.lock - {key} else s.lock)
  }

  ghost predicate Runs(hash: Hash, s: State, steps: seq<Step>)
    decreases |steps|
  {
    steps == [] || (Enabled(hash, s, steps[0]) && Runs(hash, Next(hash, s, steps[0]), steps[1..]))
  }

  ghost function Exec(hash: Hash, s: State, steps: seq<Step>): State
    requires Runs(hash, s, steps)
    decreases |steps|
  {
    if steps == [] then s else Exec(hash, Next(hash, s, steps[0]), steps[1..])
  }

  // ---- the invariant ----

  ghost predicate TxnInv(hash: Hash, s: State, t: nat)
    requires t in s.txns
  {
    var x := s.txns[t];
    && (x.Holding() ==> hash(LockKey(x.counter)) in s.lock && s.lock[hash(LockKey(x.counter))] == t)
    && (x.HasRead? ==> x.max == MaxNumber(s.rows, x.counter))
    && (x.Inserted? ==> x.number == MaxNumber(s.rows, x.counter) + 1)
    && (x.Committed? ==> Row(x.counter, x.number, t) in s.rows)
  }

  ghost predicate LockInv(hash: Hash, s: State) {
    forall k :: k in s.lock ==>
      s.lock[k] in s.txns && s.txns[s.lock[k]].Holding() && hash(LockKey(s.txns[s.lock[k]].counter)) == k
  }

  ghost predicate RowInv(s: State) {
    forall i :: 0 <= i < |s.rows| ==>
      s.rows[i].txn in s.txns && s.txns[s.rows[i].txn] == Committed(s.rows[i].counter, s.rows[i].number)
  }

  ghost predicate Inv(hash: Hash, s: State) {
    && (forall t :: t in s.txns ==> TxnInv(hash, s, t))
    && LockInv(hash, s)
    && RowInv(s)
    && Built(s.rows)
  }

  lemma QuietStepKeepsTxn(hash: Hash, s: State, step: Step, t: nat)
    requires Inv(hash, s) && Enabled(hash, s, step) && !step.Commit?
    requires t in Next(hash, s, step).txns
    ensures TxnInv(hash, Next(hash, s, step), t)
  {
    assert t in s.txns ==> TxnInv(hash, s, t);
    assert step.t in s.txns ==> TxnInv(hash, s, step.t);
  }

  lemma QuietStepKeepsLocks(hash: Hash, s: State, step: Step)
    requires Inv(hash, s) && Enabled(hash, s, step) && !step.Commit?
    ensures LockInv(hash, Next(hash, s, step))
  {
    assert step.t in s.txns ==> TxnInv(hash, s, step.t);
  }

  lemma QuietStepKeepsInv(hash: Hash, s: State, step: Step)
    requires Inv(hash, s) && Enabled(hash, s, step) && !step.Commit?
    ensures Inv(hash, Next(hash, s, step))
  {
    var s' := Next(hash, s, step);
    forall t | t in s'.txns
      ensures TxnInv(hash, s', t)
    {
      QuietStepKeepsTxn(hash, s, step, t);
    }
    QuietStepKeepsLocks(hash, s, step);
    assert RowInv(s);
  }

  lemma CommitKeepsTxns(hash: Hash, s: State, step: Step, t: nat)
    requires Inv(hash, s) && Enabled(hash, s, step) && step.Commit? && t in s.txns
    ensures TxnInv(hash, Next(hash, s, step), t)
  {
    var x, y := s.txns[t], s.txns[step.t];
    assert TxnInv(hash, s, t) && TxnInv(hash, s, step.t);
    MaxAfter(s.rows, Row(y.counter, y.number, step.t), x.counter);
  }

  lemma CommitKeepsLocks(hash: Hash, s: State, step: Step)
    requires Inv(hash, s) && Enabled(hash, s, step) && step.Commit?
    ensures LockInv(hash, Next(hash, s, step))
  {
    assert TxnInv(hash, s, step.t);
  }

  lemma CommitKeepsInv(hash: Hash, s: State, step: Step)
    requires Inv(hash, s) && Enabled(hash, s, step) && step.Commit?
    ensures Inv(hash, Next(hash, s, step))
    ensures Next(hash, s, step).rows == Append(s.rows, s.txns[step.t].counter, step.t)
  {
    assert TxnInv(hash, s, step.t);
    forall t | t in s.txns ensures TxnInv(hash, Next(hash, s, step), t) {
      CommitKeepsTxns(hash, s, step, t);
    }
    CommitKeepsLocks(hash, s, step);
    ReplayAfter(s.rows, s.txns[step.t].counter, step.t);
  }

  lemma {:induction false} RunKeepsInv(hash: Hash, s: State, steps: seq<Step>)
    requires Inv(hash, s) && Runs(hash, s, steps)
    ensures Inv(hash, Exec(hash, s, steps))
    decreases |steps|
  {
    if steps != [] {
      if steps[0].Commit? {
        CommitKeepsInv(hash, s, steps[0]);
      } else {
        QuietStepKeepsInv(hash, s, steps[0]);
      }
      RunKeepsInv(hash, Next(hash, s, steps[0]), steps[1..]);
    }
  }

  // ---- results ----

  /** Every run refines the atomic append: it leaves the log alone or appends exactly as the store would. */
  lemma StepRefinesAppend(hash: Hash, steps: seq<Step>, step: Step)
    requires Runs(hash, INIT, steps) && Enabled(hash, Exec(hash, INIT, steps), step)
    ensures var s := Exec(hash, INIT, steps); var s' := Next(hash, s, step);
            if step.Commit? then
              && s'.rows == Append(s.rows, s.txns[step.t].counter, step.t)
              && s'.txns[step.t] == Committed(s.txns[step.t].counter, MaxNumber(s.rows, s.txns[step.t].counter) + 1)
            else s'.rows == s.rows
  {
    var s := Exec(hash, INIT, steps);
    RunKeepsInv(hash, INIT, steps);
    if step.Commit? {
      assert TxnInv(hash, s, step.t);
      CommitKeepsInv(hash, s, step);
    }
  }

  /** Whatever the interleaving and the hash, a counter's committed numbers are 1..N in commit order. */
  lemma NumbersAreContiguous(hash: Hash, steps: seq<Step>, c: Counter)
    requires Runs(hash, INIT, steps)
    ensures var ns := Numbers(Exec(hash, INIT, steps).rows, c);
            forall i :: 0 <= i < |ns| ==> ns[i] == i + 1
  {
    RunKeepsInv(hash, INIT, steps);
    ReplayCounts(Exec(hash, INIT, steps).rows, c);
  }

  /** In every run the number of a committed row is its rank among the committed rows of its channel or workspace. */
  lemma NumbersAreRanks(hash: Hash, steps: seq<Step>, i: nat)
    requires Runs(hash, INIT, steps) && i < |Exec(hash, INIT, steps).rows|
    ensures var rows := Exec(hash, INIT, steps).rows;
            rows[i].number == 1 + |set j | 0 <= j < i && rows[j].counter == rows[i].counter|
  {
    RunKeepsInv(hash, INIT, steps);
    NumberIsRank(Exec(hash, INIT, steps).rows, i);
  }

  /** Two transactions that committed on one counter returned different numbers, each backed by its own row. */
  lemma ReturnedNumbersAreUnique(hash: Hash, steps: seq<Step>, t: nat, u: nat)
    requires Runs(hash, INIT, steps) && t != u
    requires var x := Exec(hash, INIT, steps).txns;
             t in x && u in x && x[t].Committed? && x[u].Committed? && x[t].counter == x[u].counter
    ensures var x := Exec(hash, INIT, steps).txns; x[t].number != x[u].number
  {
    var s := Exec(hash, INIT, steps);
    RunKeepsInv(hash, INIT, steps);
    assert TxnInv(hash, s, t) && TxnInv(hash, s, u);
    var i :| 0 <= i < |s.rows| && s.rows[i] == Row(s.txns[t].counter, s.txns[t].number, t);
    var j :| 0 <= j < |s.rows| && s.rows[j] == Row(s.txns[u].counter, s.txns[u].number, u);
    if s.txns[t].number == s.txns[u].number {
      SameNumberSameRow(s.rows, i, j);
    }
  }

  /** No deadlock: while a transaction is open, one of the open transactions can move on by itself. */
  lemma SomeoneCanMove(hash: Hash, steps: seq<Step>, t: nat)
    requires Runs(hash, INIT, steps)
    requires var s := Exec(hash, INIT, steps); t in s.txns && !s.txns[t].Over()
    ensures exists step: Step :: !step.Begin? && !step.Abort? && Enabled(hash, Exec(hash, INIT, steps), step)
  {
    var s := Exec(hash, INIT, steps);
    RunKeepsInv(hash, INIT, steps);
    var x := s.txns[t];
    if x.Waiting? && hash(LockKey(x.counter)) in s.lock {
      var k := hash(LockKey(x.counter));
      assert LockInv(hash, s) && k in s.lock;
      var u := s.lock[k];
      assert u in s.txns && s.txns[u].Holding();
      HolderMoves(hash, s, u);
    } else if x.Waiting? {
      assert Enabled(hash, s, Lock(t));
    } else {
      HolderMoves(hash, s, t);
    }
  }

  lemma HolderMoves(hash: Hash, s: State, t: nat)
    requires t in s.txns && s.txns[t].Holding()
    ensures exists step: Step :: !step.Begin? && !step.Abort? && Enabled(hash, s, step)
  {
    var step := match s.txns[t]
      case Locked(_) => Read(t)
      case HasRead(_, _) => Insert(t)
      case _ => Commit(t);
    assert Enabled(hash, s, step);
  }

  /** The text whose hash a channel's or a workspace's transactions lock. */
  predicate Locks(c: Counter, key: string) {
    (c.Channel? && key == c.id) || (c.Tasks? && key == "task:" + c.workspace)
  }

  /**
   * In every run a transaction waits exactly while one whose locked text hashes alike is under way; with a hash
   * without collisions, that is one on the same channel or workspace (or a channel named like a workspace's key).
   */
  lemma WaitsExactlyForItsLock(hash: Hash, steps: seq<Step>, t: nat, key: string)
    requires Runs(hash, INIT, steps)
    requires var s := Exec(hash, INIT, steps); t in s.txns && s.txns[t].Waiting? && Locks(s.txns[t].counter, key)
    ensures var s := Exec(hash, INIT, steps);
            !Enabled(hash, s, Lock(t))
            <==> exists u, k :: u in s.txns && s.txns[u].Holding() && Locks(s.txns[u].counter, k) && hash(k) == hash(key)
  {
    var s := Exec(hash, INIT, steps);
    RunKeepsInv(hash, INIT, steps);
    assert LockKey(s.txns[t].counter) == key;
    if hash(key) in s.lock {
      var held := hash(key);
      assert LockInv(hash, s) && held in s.lock;
      var u := s.lock[held];
      assert Locks(s.txns[u].counter, LockKey(s.txns[u].counter));
    }
    forall u, k | u in s.txns && s.txns[u].Holding() && Locks(s.txns[u].counter, k) && hash(k) == hash(key)
      ensures hash(key) in s.lock
    {
      assert TxnInv(hash, s, u);
    }
  }
}
