/** The log of numbered rows, the atomic append, and what a log of atomic appends looks like. */
module Log {
  import opened Basics

  /** A channel numbers its messages, a workspace its tasks. */
  datatype Counter = Channel(workspace: string, id: string) | Tasks(workspace: string)

  /** A committed row, with the transaction that inserted it. */
  datatype Row = Row(counter: Counter, number: nat, txn: nat)

  /** `coalesce(max(number), 0)` over the committed rows of a counter. */
  function MaxNumber(rows: seq<Row>, c: Counter): nat {
    if rows == [] then 0
    else
      var m, r := MaxNumber(rows[..|rows| - 1], c), rows[|rows| - 1];
      if r.counter == c then Max(m, r.number) else m
  }

  /** What the in-memory store does in one step. */
  function Append(rows: seq<Row>, c: Counter, txn: nat): seq<Row> {
    rows + [Row(c, MaxNumber(rows, c) + 1, txn)]
  }

  /** The log that atomic appends build for the same counters in the same order. */
  function Replay(rows: seq<Row>): seq<Row> {
    if rows == [] then []
    else
      var r := rows[|rows| - 1];
      Append(Replay(rows[..|rows| - 1]), r.counter, r.txn)
  }

  /** `rows` is what atomic appends alone would have produced. */
  ghost predicate Built(rows: seq<Row>) {
    rows == Replay(rows)
  }

  lemma BuiltPrefix(rows: seq<Row>, n: nat)
    requires Built(rows) && n <= |rows|
    ensures Built(rows[..n])
  {
    if n < |rows| {
      var m := |rows| - 1;
      assert Replay(rows)[..m] == Replay(rows[..m]);
      BuiltPrefix(rows[..m], n);
      assert rows[..m][..n] == rows[..n];
    } else {
      assert rows[..n] == rows;
    }
  }

  lemma MaxAfter(rows: seq<Row>, r: Row, c: Counter)
    ensures MaxNumber(rows + [r], c) == if r.counter == c then Max(MaxNumber(rows, c), r.number) else MaxNumber(rows, c)
  {
    assert (rows + [r])[..|rows|] == rows;
  }

  lemma ReplayAfter(rows: seq<Row>, c: Counter, txn: nat)
    requires Built(rows)
    ensures Built(Append(rows, c, txn))
  {
    var r := Append(rows, c, txn);
    assert r[..|r| - 1] == rows;
  }

  /** The numbers of one counter, in commit order. */
  function Numbers(rows: seq<Row>, c: Counter): seq<nat> {
    if rows == [] then []
    else
      var ns, r := Numbers(rows[..|rows| - 1], c), rows[|rows| - 1];
      if r.counter == c then ns + [r.number] else ns
  }

  lemma {:induction false} ReplayCounts(rows: seq<Row>, c: Counter)
    requires Built(rows)
    ensures MaxNumber(rows, c) == |Numbers(rows, c)|
    ensures forall i :: 0 <= i < |Numbers(rows, c)| ==> Numbers(rows, c)[i] == i + 1
  {
    if rows != [] {
      var n := |rows| - 1;
      assert Replay(rows)[..n] == Replay(rows[..n]);
      ReplayCounts(rows[..n], c);
    }
  }

  lemma {:induction false} SameNumberSameRow(rows: seq<Row>, i: nat, j: nat)
    requires Built(rows) && i < |rows| && j < |rows|
    requires rows[i].counter == rows[j].counter && rows[i].number == rows[j].number
    ensures i == j
  {
    if i < j {
      NumberAboveEarlier(rows, j, i);
    } else if j < i {
      NumberAboveEarlier(rows, i, j);
    }
  }

  lemma {:induction false} NumberAboveEarlier(rows: seq<Row>, j: nat, i: nat)
    requires Built(rows) && i < j < |rows| && rows[i].counter == rows[j].counter
    ensures rows[i].number < rows[j].number
  {
    var n := |rows| - 1;
    assert Replay(rows)[..n] == Replay(rows[..n]);
    if j < n {
      NumberAboveEarlier(rows[..n], j, i);
    } else {
      MaxBounds(rows[..n], i);
    }
  }

  lemma {:induction false} MaxBounds(rows: seq<Row>, i: nat)
    requires i < |rows|
    ensures rows[i].number <= MaxNumber(rows, rows[i].counter)
  {
    var n := |rows| - 1;
    if i < n {
      MaxBounds(rows[..n], i);
    }
  }

  /** The positions of a counter's rows. */
  function Places(rows: seq<Row>, c: Counter): set<nat> {
    set j: nat | j < |rows| && rows[j].counter == c
  }

  lemma {:induction false} NumbersCount(rows: seq<Row>, c: Counter)
    ensures |Numbers(rows, c)| == |Places(rows, c)|
  {
    if rows != [] {
      var n := |rows| - 1;
      NumbersCount(rows[..n], c);
      PlacesNext(rows, c);
    }
  }

  lemma PlacesNext(rows: seq<Row>, c: Counter)
    requires rows != []
    ensures var n := |rows| - 1; Places(rows, c) == if rows[n].counter == c then Places(rows[..n], c) + {n} else Places(rows[..n], c)
  {
  }

  /** A row's number is its rank among the rows of its counter. */
  lemma NumberIsRank(rows: seq<Row>, i: nat)
    requires Built(rows) && i < |rows|
    ensures rows[i].number == 1 + |set j | 0 <= j < i && rows[j].counter == rows[i].counter|
  {
    var c := rows[i].counter;
    BuiltPrefix(rows, i + 1);
    BuiltPrefix(rows, i);
    assert Replay(rows[..i + 1])[i] == rows[i] && rows[..i + 1][..i] == rows[..i];
    ReplayCounts(rows[..i], c);
    NumbersCount(rows[..i], c);
    assert Places(rows[..i], c) == (set j | 0 <= j < i && rows[j].counter == c);
  }
}
