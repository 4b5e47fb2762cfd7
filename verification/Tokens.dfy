/**
 * Search tokens. A lower-cased text is cut into maximal runs of CJK units and of ASCII letters and
 * digits; a CJK run contributes its overlapping pairs (or its single unit), a word run itself.
 */
module Tokens {
  import opened Basics
  import opened Text

  datatype Class = Cjk | Word | Sep

  function ClassOf(u: CodeUnit): Class {
    if 0x3400 <= u <= 0x9FFF || 0xF900 <= u <= 0xFAFF || 0x3040 <= u <= 0x30FF then Cjk
    else if 'a' as int <= u <= 'z' as int || '0' as int <= u <= '9' as int then Word
    else Sep
  }

  predicate AllOf(t: Text, c: Class) {
    forall i :: 0 <= i < |t| ==> ClassOf(t[i]) == c
  }

  /** The length of the maximal run of one class at the start of `t`. */
  function RunLength(t: Text): (n: nat)
    requires t != []
    ensures 1 <= n <= |t| && AllOf(t[..n], ClassOf(t[0]))
    ensures n < |t| ==> ClassOf(t[n]) != ClassOf(t[0])
  {
    if |t| == 1 || ClassOf(t[1]) != ClassOf(t[0]) then 1 else 1 + RunLength(t[1..])
  }

  function Grams(run: Text): seq<Text> {
    if |run| <= 1 then [run] else seq(|run| - 1, i requires 0 <= i < |run| - 1 => run[i..i + 2])
  }

  function RunTokens(run: Text): seq<Text>
    requires run != []
  {
    match ClassOf(run[0])
    case Sep => []
    case Word => [run]
    case Cjk => Grams(run)
  }

  function Tokens(t: Text): seq<Text>
    decreases |t|
  {
    if t == [] then [] else RunTokens(t[..RunLength(t)]) + Tokens(t[RunLength(t)..])
  }

  lemma RunLengthUnique(t: Text, n: nat)
    requires 1 <= n <= |t| && AllOf(t[..n], ClassOf(t[0]))
    requires n < |t| ==> ClassOf(t[n]) != ClassOf(t[0])
    ensures RunLength(t) == n
  {
    var m := RunLength(t);
    assert forall i :: 0 <= i < n ==> t[..n][i] == t[i];
    assert forall i :: 0 <= i < m ==> t[..m][i] == t[i];
  }

  /** Tokens can be taken one maximal run at a time. */
  lemma RunFirst(run: Text, rest: Text)
    requires run != [] && AllOf(run, ClassOf(run[0]))
    requires rest == [] || ClassOf(rest[0]) != ClassOf(run[0])
    ensures Tokens(run + rest) == RunTokens(run) + Tokens(rest)
  {
    var t := run + rest;
    assert t[..|run|] == run && t[|run|..] == rest;
    RunLengthUnique(t, |run|);
  }

  lemma LoneRun(run: Text)
    requires run != [] && AllOf(run, ClassOf(run[0]))
    ensures Tokens(run) == RunTokens(run)
  {
    RunFirst(run, []);
    assert run + [] == run;
  }

  /** A word run is one token, a separator run none, a CJK run its pairs in order, or its only unit. */
  lemma TokensOfRun(run: Text)
    requires run != [] && AllOf(run, ClassOf(run[0]))
    ensures ClassOf(run[0]) == Sep ==> Tokens(run) == []
    ensures ClassOf(run[0]) == Word || (ClassOf(run[0]) == Cjk && |run| == 1) ==> Tokens(run) == [run]
    ensures ClassOf(run[0]) == Cjk && |run| >= 2 ==>
              |Tokens(run)| == |run| - 1 && forall k :: 0 <= k < |run| - 1 ==> Tokens(run)[k] == run[k..k + 2]
  {
    LoneRun(run);
  }

  /** The alphabet: CJK ideographs with the compatibility block and kana, lower-case ASCII letters and digits. */
  lemma TokenAlphabet(u: CodeUnit)
    ensures ClassOf(u) == Cjk <==> 0x3040 <= u <= 0x30FF || 0x3400 <= u <= 0x9FFF || 0xF900 <= u <= 0xFAFF
    ensures ClassOf(u) == Word <==> 0x30 <= u <= 0x39 || 0x61 <= u <= 0x7A
  {
  }

  /** The scanning loop of `cjkTokens`, on text that is already lower-cased. */
  method CjkTokens(lower: Text) returns (out: seq<Text>)
    ensures out == Tokens(lower)
  {
    out := [];
    var i := 0;
    while i < |lower|
      invariant 0 <= i <= |lower|
      invariant out + Tokens(lower[i..]) == Tokens(lower)
    {
      var j := RunEnd(lower, i);
      CutRun(lower, i, j);
      var more := PushTokens(out, lower[i..j]);
      Assoc(out, RunTokens(lower[i..j]), Tokens(lower[j..]));
      out, i := more, j;
    }
  }

  lemma CutRun(t: Text, i: nat, j: nat)
    requires i < j <= |t| && AllOf(t[i..j], ClassOf(t[i]))
    requires j < |t| ==> ClassOf(t[j]) != ClassOf(t[i])
    ensures Tokens(t[i..]) == RunTokens(t[i..j]) + Tokens(t[j..])
  {
    assert t[i..] == t[i..j] + t[j..];
    RunFirst(t[i..j], t[j..]);
  }

  /** One match of the regular expression: the end of the maximal run that starts at `i`. */
  method RunEnd(lower: Text, i: nat) returns (j: nat)
    requires i < |lower|
    ensures i < j <= |lower| && AllOf(lower[i..j], ClassOf(lower[i]))
    ensures j < |lower| ==> ClassOf(lower[j]) != ClassOf(lower[i])
  {
    j := i + 1;
    while j < |lower| && ClassOf(lower[j]) == ClassOf(lower[i])
      invariant i < j <= |lower|
      invariant forall k :: i <= k < j ==> ClassOf(lower[k]) == ClassOf(lower[i])
    {
      j := j + 1;
    }
  }

  method PushTokens(before: seq<Text>, tok: Text) returns (out: seq<Text>)
    requires tok != []
    ensures out == before + RunTokens(tok)
  {
    out := before;
    if ClassOf(tok[0]) == Word {
      out := out + [tok];
    } else if ClassOf(tok[0]) == Cjk {
      out := PushGrams(out, tok);
    }
  }

  method PushGrams(before: seq<Text>, tok: Text) returns (out: seq<Text>)
    requires tok != []
    ensures out == before + Grams(tok)
  {
    out := before;
    if |tok| == 1 {
      out := out + [tok];
    } else {
      for i := 0 to |tok| - 1
        invariant out == before + Grams(tok)[..i]
      {
        out := out + [tok[i..i + 2]];
      }
    }
  }

  // ---- which substrings are tokens ----

  /** `t[i..j]` is a maximal word, a pair of CJK units, or a CJK unit without a CJK neighbour. */
  predicate IsWindow(t: Text, i: nat, j: nat) {
    && i < j <= |t|
    && (|| (&& AllOf(t[i..j], Word)
            && (i > 0 ==> ClassOf(t[i - 1]) != Word)
            && (j < |t| ==> ClassOf(t[j]) != Word))
        || (j == i + 2 && AllOf(t[i..j], Cjk))
        || (&& j == i + 1 && ClassOf(t[i]) == Cjk
            && (i > 0 ==> ClassOf(t[i - 1]) != Cjk)
            && (j < |t| ==> ClassOf(t[j]) != Cjk)))
  }

  lemma WindowIsUniform(t: Text, i: nat, j: nat)
    requires IsWindow(t, i, j)
    ensures forall k :: i <= k < j ==> ClassOf(t[k]) == ClassOf(t[i])
    ensures ClassOf(t[i]) != Sep
  {
    assert forall k :: i <= k < j ==> t[k] == t[i..j][k - i];
    assert t[i..j][0] == t[i];
  }

  /** A window that starts in the first run stays in it and is one of the run's tokens. */
  lemma FirstRunWindow(t: Text, i: nat, j: nat)
    requires IsWindow(t, i, j) && i < RunLength(t)
    ensures j <= RunLength(t) && t[i..j] in RunTokens(t[..RunLength(t)])
  {
    var n := RunLength(t);
    var run := t[..n];
    WindowIsUniform(t, i, j);
    assert forall k :: 0 <= k < n ==> ClassOf(t[k]) == ClassOf(run[k]) == ClassOf(t[0]);
    assert ClassOf(t[i]) == ClassOf(t[0]) && (n < |t| ==> ClassOf(t[n]) != ClassOf(t[i]));
    assert j <= n;
    if ClassOf(t[0]) == Word {
      assert i == 0 && j == n;
      assert t[i..j] == run;
    } else if j == i + 2 {
      assert Grams(run)[i] == run[i..i + 2] == t[i..j];
    } else {
      assert i == 0 && n == 1;
      assert t[i..j] == run;
    }
  }

  lemma RunTokenWindow(t: Text, k: nat) returns (i: nat, j: nat)
    requires t != [] && k < |RunTokens(t[..RunLength(t)])|
    ensures IsWindow(t, i, j) && t[i..j] == RunTokens(t[..RunLength(t)])[k]
  {
    var n := RunLength(t);
    var run := t[..n];
    assert forall k :: 0 <= k < n ==> ClassOf(t[k]) == ClassOf(run[k]) == ClassOf(t[0]);
    if ClassOf(t[0]) == Word || n == 1 {
      i, j := 0, n;
      assert t[0..n] == run;
    } else {
      i, j := k, k + 2;
      assert Grams(run)[k] == run[k..k + 2] == t[k..k + 2];
    }
  }

  lemma ShiftWindow(t: Text, n: nat, i: nat, j: nat)
    requires t != [] && n == RunLength(t) && n <= i
    ensures IsWindow(t, i, j) <==> j >= n && IsWindow(t[n..], i - n, j - n)
  {
    if i < j <= |t| {
      assert t[n..][i - n..j - n] == t[i..j];
      assert ClassOf(t[..n][n - 1]) == ClassOf(t[0]);
      assert ClassOf(t[n - 1]) != ClassOf(t[n]);
      assert i == n ==> t[i..j][0] == t[n];
    }
  }

  lemma WindowText(t: Text, n: nat, i: nat, j: nat)
    requires n <= |t| && i <= j <= |t| - n
    ensures t[n..][i..j] == t[i + n..j + n]
  {
  }

  ghost predicate HasWindow(t: Text, x: Text) {
    exists i: nat, j: nat :: IsWindow(t, i, j) && t[i..j] == x
  }

  lemma TokensSplit(t: Text, x: Text)
    requires t != []
    ensures x in Tokens(t) <==> x in RunTokens(t[..RunLength(t)]) || x in Tokens(t[RunLength(t)..])
  {
  }

  lemma RunHasWindow(t: Text, x: Text)
    requires t != [] && x in RunTokens(t[..RunLength(t)])
    ensures HasWindow(t, x)
  {
    var k :| 0 <= k < |RunTokens(t[..RunLength(t)])| && RunTokens(t[..RunLength(t)])[k] == x;
    var i, j := RunTokenWindow(t, k);
  }

  lemma TailHasWindow(t: Text, x: Text)
    requires t != [] && HasWindow(t[RunLength(t)..], x)
    ensures HasWindow(t, x)
  {
    var n := RunLength(t);
    var i: nat, j: nat :| IsWindow(t[n..], i, j) && t[n..][i..j] == x;
    ShiftWindow(t, n, i + n, j + n);
    WindowText(t, n, i, j);
  }

  lemma {:induction false} TokenHasWindow(t: Text, x: Text)
    requires x in Tokens(t)
    ensures HasWindow(t, x)
    decreases |t|
  {
    TokensSplit(t, x);
    if x in RunTokens(t[..RunLength(t)]) {
      RunHasWindow(t, x);
    } else {
      TokenHasWindow(t[RunLength(t)..], x);
      TailHasWindow(t, x);
    }
  }

  lemma FirstWindowIsToken(t: Text, i: nat, j: nat)
    requires IsWindow(t, i, j) && i < RunLength(t)
    ensures t[i..j] in Tokens(t)
  {
    FirstRunWindow(t, i, j);
    TokensSplit(t, t[i..j]);
  }

  lemma {:induction false} WindowIsToken(t: Text, i: nat, j: nat, x: Text)
    requires IsWindow(t, i, j) && t[i..j] == x
    ensures x in Tokens(t)
    decreases |t|
  {
    var n := RunLength(t);
    if i < n {
      FirstWindowIsToken(t, i, j);
    } else {
      ShiftWindow(t, n, i, j);
      WindowText(t, n, i - n, j - n);
      WindowIsToken(t[n..], i - n, j - n, x);
      TokensSplit(t, x);
    }
  }

  /** The independent description of tokens: `x` is a token exactly when it is the text of a window. */
  lemma TokenIffWindow(t: Text, x: Text)
    ensures x in Tokens(t) <==> exists i: nat, j: nat :: IsWindow(t, i, j) && t[i..j] == x
  {
    if x in Tokens(t) {
      TokenHasWindow(t, x);
    }
    forall i: nat, j: nat | IsWindow(t, i, j) && t[i..j] == x
      ensures x in Tokens(t)
    {
      WindowIsToken(t, i, j, x);
    }
  }

  // ---- concatenation ----

  /** Nothing is joined between `a` and `b`: an end, a change of class, or a separator. */
  predicate Boundary(a: Text, b: Text) {
    a == [] || b == [] || ClassOf(a[|a| - 1]) != ClassOf(b[0]) || ClassOf(b[0]) == Sep
  }

  lemma SeparatorsFirst(a: Text, b: Text)
    requires a != [] && AllOf(a, Sep)
    ensures Tokens(a + b) == Tokens(b)
  {
    if b == [] || ClassOf(b[0]) != Sep {
      RunFirst(a, b);
    } else {
      var s, rest := b[..RunLength(b)], b[RunLength(b)..];
      assert b == s + rest && a + b == (a + s) + rest;
      RunFirst(s, rest);
      RunFirst(a + s, rest);
    }
  }

  lemma ConcatStep(r: Text, rest: Text, b: Text)
    requires r != [] && AllOf(r, ClassOf(r[0])) && rest != [] && ClassOf(rest[0]) != ClassOf(r[0])
    requires Tokens(rest + b) == Tokens(rest) + Tokens(b)
    ensures Tokens(r + rest + b) == Tokens(r + rest) + Tokens(b)
  {
    Assoc(r, rest, b);
    RunFirst(r, rest);
    RunFirst(r, rest + b);
    Assoc(RunTokens(r), Tokens(rest), Tokens(b));
  }

  lemma ConcatLastRun(r: Text, b: Text)
    requires r != [] && AllOf(r, ClassOf(r[0])) && b != []
    requires ClassOf(r[0]) == Sep || ClassOf(b[0]) != ClassOf(r[0])
    ensures Tokens(r + b) == Tokens(r) + Tokens(b)
  {
    LoneRun(r);
    if ClassOf(r[0]) == Sep {
      SeparatorsFirst(r, b);
    } else {
      RunFirst(r, b);
    }
  }

  lemma {:induction false} TokensConcat(a: Text, b: Text)
    requires Boundary(a, b)
    ensures Tokens(a + b) == Tokens(a) + Tokens(b)
    decreases |a|
  {
    if a == [] {
      assert a + b == b;
    } else if b == [] {
      assert a + b == a;
    } else {
      var r, rest := a[..RunLength(a)], a[RunLength(a)..];
      assert a == r + rest;
      if rest != [] {
        TokensConcat(rest, b);
        ConcatStep(r, rest, b);
      } else {
        assert r == a && ClassOf(r[|r| - 1]) == ClassOf(r[0]);
        ConcatLastRun(r, b);
      }
    }
  }

  /** The start of the last maximal run. */
  function LastRun(t: Text): (k: nat)
    requires t != []
    ensures k < |t| && AllOf(t[k..], ClassOf(t[|t| - 1]))
    ensures k > 0 ==> ClassOf(t[k - 1]) != ClassOf(t[k])
  {
    var n := |t| - 1;
    if n == 0 || ClassOf(t[n - 1]) != ClassOf(t[n]) then n
    else
      assert t[..n][n - 1] == t[n - 1];
      var k := LastRun(t[..n]);
      assert t[..n][k] == t[k] && (k > 0 ==> t[..n][k - 1] == t[k - 1]);
      assert forall i :: 0 <= i < n - k ==> t[k..][i] == t[..n][k..][i];
      assert t[k..][n - k] == t[n];
      k
  }

  lemma JoinedRunsDiffer(r: Text, s: Text, c: Class)
    requires r != [] && s != [] && AllOf(r, c) && AllOf(s, c) && c != Sep
    ensures AllOf(r + s, c) && RunTokens(r + s) != RunTokens(r) + RunTokens(s)
  {
    assert ClassOf((r + s)[0]) == ClassOf(r[0]) == ClassOf(s[0]) == c;
    if c == Cjk {
      var g, h := Grams(r + s), Grams(r) + Grams(s);
      if |r| == 1 {
        assert |g[0]| == 2 && |h[0]| == 1;
      } else if |s| == 1 {
        assert |g| == |h| && |g[|g| - 1]| == 2 && |h[|h| - 1]| == 1;
      } else {
        assert |g| != |h|;
      }
    }
  }

  lemma MiddleRun(a: Text, r: Text, b: Text, c: Class)
    requires r != [] && AllOf(r, c)
    requires a == [] || ClassOf(a[|a| - 1]) != c
    requires b == [] || ClassOf(b[0]) != c
    ensures Tokens(a + r + b) == Tokens(a) + RunTokens(r) + Tokens(b)
  {
    RunFirst(r, b);
    assert (r + b)[0] == r[0];
    TokensConcat(a, r + b);
    Assoc(a, r, b);
    Assoc(Tokens(a), RunTokens(r), Tokens(b));
  }

  lemma LastRunTokens(a: Text, r: Text, c: Class)
    requires r != [] && AllOf(r, c)
    requires a == [] || ClassOf(a[|a| - 1]) != c
    ensures Tokens(a + r) == Tokens(a) + RunTokens(r)
  {
    TokensConcat(a, r);
    LoneRun(r);
  }

  lemma JoinDiffers(a': Text, r: Text, s: Text, b': Text, c: Class)
    requires r != [] && s != [] && AllOf(r, c) && AllOf(s, c) && c != Sep
    requires a' == [] || ClassOf(a'[|a'| - 1]) != c
    requires b' == [] || ClassOf(b'[0]) != c
    ensures Tokens(a' + (r + s) + b') != Tokens(a' + r) + Tokens(s + b')
  {
    JoinedRunsDiffer(r, s, c);
    MiddleRun(a', r + s, b', c);
    LastRunTokens(a', r, c);
    RunFirst(s, b');
    MiddleDiffers(Tokens(a'), RunTokens(r + s), RunTokens(r), RunTokens(s), Tokens(b'));
  }

  lemma Glue<T>(a: seq<T>, k: nat, b: seq<T>, n: nat)
    requires k <= |a| && n <= |b|
    ensures a[..k] + a[k..] == a && b[..n] + b[n..] == b
    ensures a[..k] + (a[k..] + b[..n]) + b[n..] == a + b
  {
  }

  /** Tokenising distributes over concatenation exactly at boundaries. */
  lemma ConcatLawIsExact(a: Text, b: Text)
    ensures Tokens(a + b) == Tokens(a) + Tokens(b) <==> Boundary(a, b)
  {
    if Boundary(a, b) {
      TokensConcat(a, b);
    } else {
      JoinDiffers(a[..LastRun(a)], a[LastRun(a)..], b[..RunLength(b)], b[RunLength(b)..], ClassOf(b[0]));
      Glue(a, LastRun(a), b, RunLength(b));
    }
  }

  // ---- matching ----

  function TokenSet(t: Text): (r: set<Text>)
    ensures forall x :: x in r <==> x in Tokens(t)
  {
    set x | x in Tokens(t)
  }

  /** Every token of the query is a token of the document; a query without tokens matches nothing. */
  predicate TokensMatch(doc: set<Text>, query: Text) {
    Tokens(query) != [] && forall x :: x in Tokens(query) ==> x in doc
  }

  lemma HasTokensExactly(t: Text)
    ensures Tokens(t) != [] <==> exists i :: 0 <= i < |t| && ClassOf(t[i]) != Sep
  {
    if i :| 0 <= i < |t| && ClassOf(t[i]) != Sep {
      HasTokens(t, i);
    }
    if Tokens(t) != [] {
      TokenHasWindow(t, Tokens(t)[0]);
      var i: nat, j: nat :| IsWindow(t, i, j) && t[i..j] == Tokens(t)[0];
      WindowIsUniform(t, i, j);
    }
  }

  lemma WindowTextIsToken(t: Text, x: Text)
    requires HasWindow(t, x)
    ensures x in Tokens(t)
  {
    TokenIffWindow(t, x);
  }

  lemma WindowsExactly(doc: Text, query: Text)
    ensures (forall x :: x in Tokens(query) ==> x in Tokens(doc))
            <==> forall i: nat, j: nat :: IsWindow(query, i, j) ==> HasWindow(doc, query[i..j])
  {
    if forall x :: x in Tokens(query) ==> x in Tokens(doc) {
      forall i: nat, j: nat | IsWindow(query, i, j) ensures HasWindow(doc, query[i..j]) {
        WindowIsToken(query, i, j, query[i..j]);
        TokenHasWindow(doc, query[i..j]);
      }
    }
    if forall i: nat, j: nat :: IsWindow(query, i, j) ==> HasWindow(doc, query[i..j]) {
      forall x | x in Tokens(query) ensures x in Tokens(doc) {
        TokenHasWindow(query, x);
        var i: nat, j: nat :| IsWindow(query, i, j) && query[i..j] == x;
        WindowTextIsToken(doc, query[i..j]);
      }
    }
  }

  /** Matching in terms of the two texts: every window of the query stands somewhere as a window of the document. */
  lemma MatchIffWindows(doc: Text, query: Text)
    ensures TokensMatch(TokenSet(doc), query)
            <==> && (exists i :: 0 <= i < |query| && ClassOf(query[i]) != Sep)
                 && (forall i: nat, j: nat :: IsWindow(query, i, j) ==> HasWindow(doc, query[i..j]))
  {
    HasTokensExactly(query);
    WindowsExactly(doc, query);
  }

  /** Query words separated by single spaces. */
  function Spaced(words: seq<Text>): Text {
    if words == [] then []
    else if |words| == 1 then words[0]
    else words[0] + [SPACE] + Spaced(words[1..])
  }

  lemma {:induction false} SpacedTokens(words: seq<Text>, x: Text)
    ensures x in Tokens(Spaced(words)) <==> exists w :: w in words && x in Tokens(w)
  {
    if |words| == 1 {
      assert words[0] in words;
    } else if |words| > 1 {
      var rest := Spaced(words[1..]);
      SpacedTokens(words[1..], x);
      SpaceIsSilent(words[0], rest);
      assert x in Tokens(Spaced(words)) <==> x in Tokens(words[0]) || x in Tokens(rest);
      assert forall w :: w in words <==> w == words[0] || w in words[1..];
    }
  }

  lemma SpaceIsSilent(a: Text, b: Text)
    ensures Tokens(a + [SPACE] + b) == Tokens(a) + Tokens(b)
  {
    Assoc(a, [SPACE], b);
    SeparatorsFirst([SPACE], b);
    TokensConcat(a, [SPACE] + b);
  }

  /** Matching depends only on which words the query contains, not on their order or repetition. */
  lemma WordOrderIsIrrelevant(doc: set<Text>, words: seq<Text>, others: seq<Text>)
    requires forall w :: w in words <==> w in others
    ensures TokensMatch(doc, Spaced(words)) <==> TokensMatch(doc, Spaced(others))
  {
    forall x ensures x in Tokens(Spaced(words)) <==> x in Tokens(Spaced(others)) {
      SpacedTokens(words, x);
      SpacedTokens(others, x);
    }
    SameTokensSameMatch(doc, Spaced(words), Spaced(others));
  }

  lemma SameTokensSameMatch(doc: set<Text>, p: Text, q: Text)
    requires forall x :: x in Tokens(p) <==> x in Tokens(q)
    ensures TokensMatch(doc, p) <==> TokensMatch(doc, q)
  {
    assert Tokens(p) != [] ==> Tokens(p)[0] in Tokens(q);
    assert Tokens(q) != [] ==> Tokens(q)[0] in Tokens(p);
  }

  /** An all-CJK query of two or more units that occurs anywhere in a document matches it. */
  lemma PhraseIsFound(x: Text, q: Text, y: Text)
    requires |q| >= 2 && AllOf(q, Cjk)
    ensures TokensMatch(TokenSet(x + q + y), q)
  {
    LoneRun(q);
    forall k | 0 <= k < |Grams(q)|
      ensures Grams(q)[k] in Tokens(x + q + y)
    {
      PairIsToken(x, q, y, k);
    }
  }

  lemma PairIsToken(x: Text, q: Text, y: Text, k: nat)
    requires k + 1 < |q| && AllOf(q, Cjk)
    ensures q[k..k + 2] in Tokens(x + q + y)
  {
    var d, i := x + q + y, |x| + k;
    assert d[i] == q[k] && d[i + 1] == q[k + 1];
    assert d[i..i + 2] == q[k..k + 2];
    WindowIsToken(d, i, i + 2, q[k..k + 2]);
  }

  /** Any query that occurs between boundaries matches, provided it has a token at all. */
  lemma BoundedQueryIsFound(x: Text, q: Text, y: Text)
    requires Boundary(x, q + y) && Boundary(q, y) && Tokens(q) != []
    ensures TokensMatch(TokenSet(x + q + y), q)
  {
    Assoc(x, q, y);
    TokensConcat(x, q + y);
    TokensConcat(q, y);
  }

  /** Unit `i` of the document is `c` and has no CJK neighbour. */
  predicate Isolated(doc: Text, i: nat, c: CodeUnit) {
    && i < |doc| && doc[i] == c
    && (i > 0 ==> ClassOf(doc[i - 1]) != Cjk)
    && (i + 1 < |doc| ==> ClassOf(doc[i + 1]) != Cjk)
  }

  lemma IsolatedIsToken(doc: Text, i: nat, c: CodeUnit)
    requires ClassOf(c) == Cjk && Isolated(doc, i, c)
    ensures [c] in Tokens(doc)
  {
    assert doc[i..i + 1] == [c];
    WindowIsToken(doc, i, i + 1, [c]);
  }

  lemma TokenIsIsolated(doc: Text, c: CodeUnit) returns (i: nat)
    requires ClassOf(c) == Cjk && [c] in Tokens(doc)
    ensures Isolated(doc, i, c)
  {
    TokenHasWindow(doc, [c]);
    var k: nat, j: nat :| IsWindow(doc, k, j) && doc[k..j] == [c];
    i := k;
    assert doc[k..j][0] == c == doc[k];
  }

  /** A single CJK unit is found exactly where it stands without CJK neighbours. */
  lemma SingleCjkQuery(doc: Text, c: CodeUnit)
    requires ClassOf(c) == Cjk
    ensures TokensMatch(TokenSet(doc), [c]) <==> exists i: nat :: Isolated(doc, i, c)
  {
    LoneRun([c]);
    assert Tokens([c]) == [[c]];
    if [c] in Tokens(doc) {
      var i := TokenIsIsolated(doc, c);
    }
    forall i: nat | Isolated(doc, i, c) ensures [c] in Tokens(doc) {
      IsolatedIsToken(doc, i, c);
    }
  }

  /** So the length bound on phrases is needed: one CJK unit is not found inside a longer CJK run. */
  lemma SingleCjkInsideRunIsMissed()
    ensures !TokensMatch(TokenSet([0x4EA7, 0x54C1]), [0x4EA7])
  {
    SingleCjkQuery([0x4EA7, 0x54C1], 0x4EA7);
  }

  /** A document matches itself exactly when it contains anything but separators. */
  lemma SelfMatch(doc: Text)
    ensures TokensMatch(TokenSet(doc), doc) <==> exists i :: 0 <= i < |doc| && ClassOf(doc[i]) != Sep
  {
    HasTokensExactly(doc);
  }

  lemma {:induction false} HasTokens(t: Text, i: nat)
    requires i < |t| && ClassOf(t[i]) != Sep
    ensures Tokens(t) != []
    decreases |t|
  {
    var n := RunLength(t);
    if i < n {
      assert ClassOf(t[..n][i]) == ClassOf(t[0]);
    } else {
      HasTokens(t[n..], i - n);
    }
  }

  // ---- a CJK run is recoverable from its tokens ----

  function Rebuild(grams: seq<Text>): Text
    requires forall g :: g in grams ==> |g| == 2
  {
    if grams == [] then []
    else if |grams| == 1 then grams[0]
    else grams[0][..1] + Rebuild(grams[1..])
  }

  lemma {:induction false} RunIsRebuilt(run: Text)
    requires |run| >= 2 && AllOf(run, Cjk)
    ensures |Tokens(run)| == |run| - 1 && (forall g :: g in Tokens(run) ==> |g| == 2)
    ensures Rebuild(Tokens(run)) == run
  {
    LoneRun(run);
    RebuildGrams(run);
  }

  lemma {:induction false} RebuildGrams(run: Text)
    requires |run| >= 2
    ensures forall g :: g in Grams(run) ==> |g| == 2
    ensures Rebuild(Grams(run)) == run
  {
    assert run == run[..1] + run[1..];
    if |run| == 2 {
      assert run[0..2] == run;
    } else {
      RebuildGrams(run[1..]);
      GramsStep(run);
    }
  }

  lemma GramsStep(run: Text)
    requires |run| >= 3
    ensures Grams(run) == [run[..2]] + Grams(run[1..])
  {
    forall k | 0 < k < |run| - 1
      ensures Grams(run)[k] == Grams(run[1..])[k - 1]
    {
      WindowText(run, 1, k - 1, k + 1);
    }
  }

  // ---- the stored index ----

  /** A message row: its lower-cased content and the tokens stored with it. */
  datatype Doc = Doc(id: string, content: Text, stored: seq<Text>)

  /** `[...new Set(cjkTokens(text))]` */
  function UniqueTokens(t: Text): seq<Text> {
    Dedup(Tokens(t))
  }

  /** The database keeps the de-duplicated tokens of the content in the row. */
  ghost predicate Indexed(docs: seq<Doc>) {
    forall d :: d in docs ==> d.stored == UniqueTokens(d.content)
  }

  /** The array-containment filter of the database. */
  function IndexSearch(docs: seq<Doc>, query: Text): seq<Doc> {
    Filter(docs, (d: Doc) => forall x :: x in UniqueTokens(query) ==> x in d.stored)
  }

  /** The filter of the in-memory store. */
  function DirectSearch(docs: seq<Doc>, query: Text): seq<Doc> {
    Filter(docs, (d: Doc) => TokensMatch(TokenSet(d.content), query))
  }

  /** For a query with at least one token both stores select the same messages, in the same order. */
  lemma IndexAgreesWithDirect(docs: seq<Doc>, query: Text)
    requires Indexed(docs) && Tokens(query) != []
    ensures IndexSearch(docs, query) == DirectSearch(docs, query)
  {
    FilterAgree(docs, (d: Doc) => forall x :: x in UniqueTokens(query) ==> x in d.stored,
                (d: Doc) => TokensMatch(TokenSet(d.content), query));
  }
}
