/**
 * The bounded scan over all workspaces that the reminder worker and the orphan sweeper share: query
 * each workspace in turn with the same limit, stop when enough rows are there, cut the result.
 */
module BoundedScan {
  import opened Basics

  /** What the database promises for a limited query: distinct matching rows, as many as the limit allows. */
  ghost predicate Answers<T(!new)>(matching: set<T>, limit: nat, answer: seq<T>) {
    && NoDup(answer) && (forall x :: x in answer ==> x in matching)
    && |answer| == Min(limit, |matching|)
  }

  /** What a scan over all workspaces returns. */
  ghost predicate Scanned<T(!new)>(matching: seq<set<T>>, limit: nat, out: seq<T>) {
    && |out| == Min(limit, Total(matching))
    && NoDup(out) && forall x :: x in out ==> x in Union(matching)
  }

  ghost function Total<T>(matching: seq<set<T>>): nat {
    if matching == [] then 0 else Total(matching[..|matching| - 1]) + |matching[|matching| - 1]|
  }

  ghost function Union<T>(matching: seq<set<T>>): set<T> {
    if matching == [] then {} else Union(matching[..|matching| - 1]) + matching[|matching| - 1]
  }

  /** Rows belong to one workspace each. */
  ghost predicate Disjoint<T>(matching: seq<set<T>>) {
    forall i, j :: 0 <= i < j < |matching| ==> matching[i] !! matching[j]
  }

  lemma {:induction false} InUnion<T>(matching: seq<set<T>>, x: T)
    ensures x in Union(matching) <==> exists k :: 0 <= k < |matching| && x in matching[k]
  {
    if matching != [] {
      var n := |matching| - 1;
      InUnion(matching[..n], x);
      assert x in Union(matching[..n]) ==> exists k :: 0 <= k < n && x in matching[k] by {
        if x in Union(matching[..n]) {
          var k :| 0 <= k < n && x in matching[..n][k];
          assert x in matching[k];
        }
      }
      assert forall k :: 0 <= k < n && x in matching[k] ==> x in matching[..n][k];
    }
  }

  lemma {:induction false} TotalIsUnionSize<T>(matching: seq<set<T>>)
    requires Disjoint(matching)
    ensures Total(matching) == |Union(matching)|
  {
    if matching != [] {
      var n := |matching| - 1;
      TotalIsUnionSize(matching[..n]);
      assert Union(matching[..n]) !! matching[n] by {
        forall x | x in Union(matching[..n]) ensures x !in matching[n] {
          InUnion(matching[..n], x);
          var k :| 0 <= k < n && x in matching[..n][k];
          assert matching[k] !! matching[n];
        }
      }
    }
  }

  lemma TotalSplit<T>(matching: seq<set<T>>, i: nat)
    requires i < |matching|
    ensures Total(matching[..i + 1]) == Total(matching[..i]) + |matching[i]|
  {
    assert matching[..i + 1][..i] == matching[..i];
  }

  lemma {:induction false} TotalGrows<T>(matching: seq<set<T>>, i: nat)
    requires i <= |matching|
    ensures Total(matching[..i]) <= Total(matching)
  {
    if i < |matching| {
      var n := |matching| - 1;
      TotalGrows(matching[..n], i);
      assert matching[..n][..i] == matching[..i];
    } else {
      assert matching[..i] == matching;
    }
  }

  lemma AppendDistinct<T>(out: seq<T>, answer: seq<T>, before: seq<set<T>>, m: set<T>)
    requires NoDup(out) && NoDup(answer) && (forall x :: x in answer ==> x in m)
    requires forall x :: x in out ==> exists k :: 0 <= k < |before| && x in before[k]
    requires forall k :: 0 <= k < |before| ==> before[k] !! m
    ensures NoDup(out + answer)
  {
    forall i, j | 0 <= i < j < |out + answer|
      ensures (out + answer)[i] != (out + answer)[j]
    {
      if i < |out| <= j {
        assert out[i] in out && answer[j - |out|] in answer;
      }
    }
  }

  /**
   * Exactly min(limit, total) distinct rows, each matching in some workspace, whatever rows the database
   * picks for each limited query.
   */
  method Scan<T(!new)>(answers: seq<seq<T>>, ghost matching: seq<set<T>>, limit: nat) returns (out: seq<T>)
    requires |answers| == |matching| && Disjoint(matching)
    requires forall k :: 0 <= k < |answers| ==> Answers(matching[k], limit, answers[k])
    ensures Scanned(matching, limit, out)
  {
    out := [];
    var i := 0;
    while i < |answers|
      invariant 0 <= i <= |answers|
      invariant NoDup(out)
      invariant forall x :: x in out ==> exists k :: 0 <= k < i && x in matching[k]
      invariant Min(limit, |out|) == Min(limit, Total(matching[..i]))
    {
      if |out| >= limit {
        break;
      }
      assert Answers(matching[i], limit, answers[i]);
      AppendDistinct(out, answers[i], matching[..i], matching[i]);
      TotalSplit(matching, i);
      out := out + answers[i];
      i := i + 1;
    }
    TotalGrows(matching, i);
    assert i == |answers| ==> matching[..i] == matching;
    forall x | x in out ensures x in Union(matching) {
      InUnion(matching, x);
    }
    out := out[..Min(limit, |out|)];
  }

  /** Taken together the limited queries answer as one limited query over all workspaces. */
  lemma ScanAnswers<T(!new)>(matching: seq<set<T>>, limit: nat, out: seq<T>)
    requires Disjoint(matching) && Scanned(matching, limit, out)
    ensures Answers(Union(matching), limit, out)
  {
    TotalIsUnionSize(matching);
  }

  lemma AnswerIsCompleteExactly<T(!new)>(matching: set<T>, limit: nat, out: seq<T>)
    requires Answers(matching, limit, out)
    ensures (forall x :: x in matching ==> x in out) <==> |matching| <= limit
  {
    var got := set x | x in out;
    DistinctSetSize(out);
    SubsetSize(got, matching);
    if |matching| <= limit {
      SameSizeSubset(got, matching);
    } else {
      assert got != matching;
      var x :| x in matching && x !in got;
    }
  }

  lemma {:induction false} SameSizeSubset<T>(a: set<T>, b: set<T>)
    requires a <= b && |a| == |b|
    ensures a == b
  {
    if x :| x in b && x !in a {
      SubsetSize(a, b - {x});
    }
  }

  /** A scan finds every matching row if and only if they fit into one batch. */
  lemma ScanIsCompleteExactly<T(!new)>(matching: seq<set<T>>, limit: nat, out: seq<T>)
    requires Disjoint(matching) && Scanned(matching, limit, out)
    ensures (forall k, x :: 0 <= k < |matching| && x in matching[k] ==> x in out) <==> Total(matching) <= limit
  {
    ScanAnswers(matching, limit, out);
    AnswerIsCompleteExactly(Union(matching), limit, out);
    TotalIsUnionSize(matching);
    forall x ensures x in Union(matching) <==> exists k :: 0 <= k < |matching| && x in matching[k] {
      InUnion(matching, x);
    }
  }

  /** A scan that leaves out a chosen row, when there are more rows than fit. */
  lemma {:induction false} AnswerWithout<T(!new)>(matching: set<T>, limit: nat, x: T) returns (out: seq<T>)
    requires x in matching && limit < |matching|
    ensures Answers(matching, limit, out) && x !in out
  {
    if limit == 0 {
      out := [];
    } else {
      out := AnswerWithout(matching, limit - 1, x);
      var got := set y | y in out;
      DistinctSetSize(out);
      if matching <= got + {x} {
        SubsetSize(matching, got + {x});
        assert false;
      }
      var y :| y in matching && y !in got + {x};
      out := out + [y];
    }
  }
}
