/** Handles and slugs derived from display names, and the loops that make them unique. */
module FreshNames {
  import opened Basics

  predicate Alnum(c: char) {
    'a' <= c <= 'z' || '0' <= c <= '9'
  }

  /** The characters of a slug: lower-case ASCII letters and digits. */
  lemma SlugAlphabet(c: char)
    ensures Alnum(c) <==> 0x61 <= c as int <= 0x7A || 0x30 <= c as int <= 0x39
  {
  }

  // ---- slugs ----

  /** Every maximal run of other characters becomes one dash. */
  function Collapse(s: string): string {
    if s == "" then ""
    else
      var n := |s| - 1;
      if Alnum(s[n]) then Collapse(s[..n]) + [s[n]]
      else if n > 0 && !Alnum(s[n - 1]) then Collapse(s[..n])
      else Collapse(s[..n]) + "-"
  }

  function TrimLeft(s: string): string {
    if s != "" && s[0] == '-' then TrimLeft(s[1..]) else s
  }

  function TrimRight(s: string): string {
    if s != "" && s[|s| - 1] == '-' then TrimRight(s[..|s| - 1]) else s
  }

  /** The handle for a lower-cased display name. */
  function SlugifyHandle(lower: string): string {
    var t := TrimRight(TrimLeft(Collapse(lower)));
    var s := t[..Min(31, |t|)];
    if |s| >= 2 then s else "agent"
  }

  /** Letters, digits and single dashes. */
  predicate Clean(s: string) {
    && (forall i :: 0 <= i < |s| ==> Alnum(s[i]) || s[i] == '-')
    && (forall i :: 0 < i < |s| ==> s[i - 1] != '-' || s[i] != '-')
  }

  lemma {:induction false} CollapseIsClean(s: string)
    ensures Clean(Collapse(s))
    ensures s != "" ==> Collapse(s) != "" && (Collapse(s)[|Collapse(s)| - 1] == '-' <==> !Alnum(s[|s| - 1]))
  {
    if s != "" {
      CollapseIsClean(s[..|s| - 1]);
    }
  }

  lemma {:induction false} TrimKeepsClean(s: string)
    requires Clean(s)
    ensures Clean(TrimLeft(s)) && Clean(TrimRight(s))
    ensures TrimLeft(s) != "" ==> TrimLeft(s)[0] != '-'
    ensures TrimRight(s) != "" ==> TrimRight(s)[|TrimRight(s)| - 1] != '-'
    ensures TrimRight(s) <= s
    decreases |s|
  {
    if s != "" {
      TrimKeepsClean(s[1..]);
      TrimKeepsClean(s[..|s| - 1]);
    }
  }

  /** The shape of a handle: 2 to 31 clean characters without a leading dash; a trailing one only after the cut at 31. */
  lemma HandleShape(lower: string)
    ensures var h := SlugifyHandle(lower);
            && 2 <= |h| <= 31 && Clean(h) && h[0] != '-' && (h[|h| - 1] == '-' ==> |h| == 31)
  {
    CollapseIsClean(lower);
    TrimmedShape(Collapse(lower));
    var t := TrimRight(TrimLeft(Collapse(lower)));
    CleanPrefix(t, Min(31, |t|));
    assert Clean("agent");
  }

  lemma TrimmedShape(s: string)
    requires Clean(s)
    ensures var t := TrimRight(TrimLeft(s));
            Clean(t) && (t != "" ==> t[0] != '-' && t[|t| - 1] != '-')
  {
    var l := TrimLeft(s);
    TrimKeepsClean(s);
    TrimKeepsClean(l);
    assert TrimRight(l) != "" ==> TrimRight(l)[0] == l[0];
  }

  lemma CleanPrefix(s: string, n: nat)
    requires Clean(s) && n <= |s|
    ensures Clean(s[..n])
  {
    assert forall i :: 0 <= i < n ==> s[..n][i] == s[i];
  }

  // ---- what of the name is kept ----

  /** The words of a name: its maximal runs of letters and digits. */
  function Words(s: string): (ws: seq<string>)
    ensures s != "" && Alnum(s[|s| - 1]) ==> ws != []
    ensures s != "" && Alnum(s[0]) ==> ws != []
  {
    if s == "" then []
    else
      var n, ws := |s| - 1, Words(s[..|s| - 1]);
      if !Alnum(s[n]) then ws
      else if n > 0 && Alnum(s[n - 1]) then ws[..|ws| - 1] + [ws[|ws| - 1] + [s[n]]]
      else ws + [[s[n]]]
  }

  predicate IsWord(w: string) {
    w != "" && forall k :: 0 <= k < |w| ==> Alnum(w[k])
  }

  lemma {:induction false} WordsAreWords(s: string)
    ensures forall i :: 0 <= i < |Words(s)| ==> IsWord(Words(s)[i])
  {
    if s != "" {
      WordsAreWords(s[..|s| - 1]);
    }
  }

  function Joined(ws: seq<string>): string {
    if ws == [] then "" else Joined(ws[..|ws| - 1]) + ws[|ws| - 1]
  }

  lemma {:induction false} WordsKeepLetters(s: string)
    ensures Joined(Words(s)) == Filter(s, Alnum)
  {
    if s != "" {
      WordsKeepLetters(s[..|s| - 1]);
    }
  }

  /** The words with a dash between any two. */
  function Dashed(ws: seq<string>): string {
    if ws == [] then ""
    else if |ws| == 1 then ws[0]
    else Dashed(ws[..|ws| - 1]) + "-" + ws[|ws| - 1]
  }

  function Dash(b: bool): string {
    if b then "-" else ""
  }

  /** A collapsed name: its dashed words, with a dash at either end where the name does not begin or end with a word. */
  predicate CollapsesTo(s: string, ws: seq<string>) {
    if s == "" then ws == [] && Collapse(s) == ""
    else Collapse(s) == if ws == [] then "-" else Dash(!Alnum(s[0])) + Dashed(ws) + Dash(!Alnum(s[|s| - 1]))
  }

  lemma LetterContinues(s: string, c: char, ws: seq<string>, w: string)
    requires CollapsesTo(s, ws + [w]) && Alnum(c) && s != "" && Alnum(s[|s| - 1])
    ensures CollapsesTo(s + [c], ws + [w + [c]])
  {
    assert (s + [c])[..|s|] == s;
  }

  lemma GapCollapses(s: string, c: char, ws: seq<string>)
    requires CollapsesTo(s, ws) && !Alnum(c) && (ws == [] ==> s == "" || (!Alnum(s[0]) && !Alnum(s[|s| - 1])))
    ensures CollapsesTo(s + [c], ws)
  {
    assert (s + [c])[..|s|] == s;
  }

  lemma WordsNext(s: string, c: char)
    ensures Words(s + [c]) == if !Alnum(c) then Words(s)
                              else if s != "" && Alnum(s[|s| - 1])
                              then Words(s)[..|Words(s)| - 1] + [Words(s)[|Words(s)| - 1] + [c]]
                              else Words(s) + [[c]]
  {
    assert (s + [c])[..|s|] == s;
  }

  lemma {:induction false} CollapsedWords(s: string)
    ensures CollapsesTo(s, Words(s))
  {
    if s != "" {
      CollapsedWords(s[..|s| - 1]);
      CollapsedNext(s[..|s| - 1], s[|s| - 1]);
      assert s == s[..|s| - 1] + [s[|s| - 1]];
    }
  }

  lemma CollapsedNext(s: string, c: char)
    requires CollapsesTo(s, Words(s))
    ensures CollapsesTo(s + [c], Words(s + [c]))
  {
    var ws := Words(s);
    WordsNext(s, c);
    if !Alnum(c) {
      GapCollapses(s, c, ws);
    } else if s != "" && Alnum(s[|s| - 1]) {
      assert ws == ws[..|ws| - 1] + [ws[|ws| - 1]];
      LetterContinues(s, c, ws[..|ws| - 1], ws[|ws| - 1]);
    }
  }

  lemma {:induction false} DashedEnds(ws: seq<string>)
    requires ws != [] && forall i :: 0 <= i < |ws| ==> IsWord(ws[i])
    ensures var d := Dashed(ws); d != "" && Alnum(d[0]) && Alnum(d[|d| - 1])
  {
    if |ws| > 1 {
      DashedEnds(ws[..|ws| - 1]);
    }
  }

  lemma TrimmedLeft(b: bool, x: string)
    requires x != "" && x[0] != '-'
    ensures TrimLeft(Dash(b) + x) == x
  {
    assert b ==> (Dash(b) + x)[0] == '-' && (Dash(b) + x)[1..] == x;
    assert !b ==> Dash(b) + x == x;
  }

  lemma TrimmedRight(x: string, b: bool)
    requires x != "" && x[|x| - 1] != '-'
    ensures TrimRight(x + Dash(b)) == x
  {
    assert b ==> (x + Dash(b))[|x|] == '-' && (x + Dash(b))[..|x|] == x;
    assert !b ==> x + Dash(b) == x;
  }

  lemma Trimmed(before: bool, d: string, after: bool)
    requires d != "" && Alnum(d[0]) && Alnum(d[|d| - 1])
    ensures TrimRight(TrimLeft(Dash(before) + d + Dash(after))) == d
  {
    Assoc(Dash(before), d, Dash(after));
    TrimmedLeft(before, d + Dash(after));
    TrimmedRight(d, after);
  }

  /** A derived handle is the words of the name joined by dashes, cut at 31; "agent" if that leaves less than two characters. */
  lemma HandleIsDashedWords(lower: string)
    ensures var d := Dashed(Words(lower));
            SlugifyHandle(lower) == if |d| < 2 then "agent" else if |d| <= 31 then d else d[..31]
  {
    CollapsedWords(lower);
    if Words(lower) == [] {
      assert "-"[1..] == "";
      assert TrimLeft(Dash(lower != "")) == "";
    } else {
      WordsAreWords(lower);
      DashedEnds(Words(lower));
      Trimmed(!Alnum(lower[0]), Dashed(Words(lower)), !Alnum(lower[|lower| - 1]));
    }
  }

  lemma {:induction false} CollapseFixesClean(s: string)
    requires Clean(s)
    ensures Collapse(s) == s
  {
    if s != "" {
      var n := |s| - 1;
      CollapseFixesClean(s[..n]);
      assert n > 0 && !Alnum(s[n - 1]) ==> s[n - 1] == '-';
      assert s == s[..n] + [s[n]];
    }
  }

  /** Slugifying a handle again changes nothing, except that it drops a dash which the cut left at the end. */
  lemma SlugifyIsIdempotent(lower: string)
    ensures var h := SlugifyHandle(lower); SlugifyHandle(h) == h <==> h[|h| - 1] != '-'
  {
    var h := SlugifyHandle(lower);
    HandleShape(lower);
    CollapseFixesClean(h);
    assert TrimLeft(h) == h;
    TrimKeepsClean(h);
    if h[|h| - 1] != '-' {
      assert TrimRight(h) == h;
    } else {
      HandleShape(h);
      assert TrimRight(h) == TrimRight(h[..|h| - 1]);
      TrimKeepsClean(h[..|h| - 1]);
    }
  }

  // ---- numbered names ----

  function Numbered(base: string, n: nat): string {
    base + "-" + Decimal(n)
  }

  lemma NumberedInjective(base: string, m: nat, n: nat)
    requires Numbered(base, m) == Numbered(base, n)
    ensures m == n
  {
    assert Numbered(base, m)[|base| + 1..] == Decimal(m);
    assert Numbered(base, n)[|base| + 1..] == Decimal(n);
    DecimalInjective(m, n);
  }

  function Candidates(base: string, low: nat, high: nat): set<string> {
    set i | low <= i < high :: Numbered(base, i)
  }

  lemma {:induction false} CandidatesSize(base: string, low: nat, high: nat)
    requires low <= high
    ensures |Candidates(base, low, high)| == high - low
    decreases high
  {
    if low < high {
      CandidatesSize(base, low, high - 1);
      NextCandidate(base, low, high - 1);
    } else {
      assert Candidates(base, low, high) == {};
    }
  }

  function Stem(base: string): string {
    base[..Min(29, |base|)]
  }

  /** The bounded loop of `uniqueHandle`: the base, or the first free candidate `-2` to `-999`. */
  method UniqueHandle(base: string, taken: set<string>) returns (r: Option<string>)
    ensures r.Some? ==> r.value !in taken
    ensures r == Some(base) <==> base !in taken
    ensures r.Some? && r.value != base ==>
              exists i :: 2 <= i < 1000 && r.value == Numbered(Stem(base), i) && Candidates(Stem(base), 2, i) <= taken
                          && r.value == base[..if |base| < 29 then |base| else 29] + "-" + Decimal(i)
    ensures r.None? <==> base in taken && Candidates(Stem(base), 2, 1000) <= taken
  {
    if base !in taken {
      return Some(base);
    }
    var i := 2;
    while i < 1000
      invariant 2 <= i <= 1000
      invariant Candidates(Stem(base), 2, i) <= taken
    {
      var cand := Numbered(Stem(base), i);
      if cand !in taken {
        assert cand in Candidates(Stem(base), 2, 1000);
        return Some(cand);
      }
      assert Candidates(Stem(base), 2, i + 1) <= Candidates(Stem(base), 2, i) + {cand};
      i := i + 1;
    }
    return None;
  }

  /** Deriving a handle can fail only when 998 handles are taken, and 999 unless the base was cut. */
  lemma FailureNeedsManyHandles(base: string, taken: set<string>)
    requires base in taken && Candidates(Stem(base), 2, 1000) <= taken
    ensures |taken| >= 998
    ensures |base| <= 29 ==> |taken| >= 999
  {
    var c := Candidates(Stem(base), 2, 1000);
    CandidatesSize(Stem(base), 2, 1000);
    SubsetSize(c, taken);
    if |base| <= 29 {
      assert Stem(base) == base;
      assert base !in c;
      SubsetSize(c + {base}, taken);
    }
  }

  /**
   * The unbounded slug loop: it stops within |taken| + 1 tries, because every name it tried before was
   * taken and no name is tried twice.
   */
  method FreshSlug(start: string, base: string, first: nat, taken: set<string>) returns (slug: string, tries: nat)
    requires NeverNumbered(start, base)
    ensures slug !in taken && tries <= |taken| + 1
    ensures slug == start <==> start !in taken
    ensures tries == 1 <==> slug == start
    ensures slug != start ==> tries >= 2 && slug == Numbered(base, first + tries - 2)
                              && Candidates(base, first, first + tries - 2) <= taken
  {
    slug, tries := start, 1;
    var n := first;
    ghost var tried := {};
    while slug in taken
      invariant n == first + tries - 1 && tries == |tried| + 1
      invariant Trying(start, base, first, n, slug, tried, taken)
      invariant tries <= |taken| + 1
      decreases |taken| - |tried|
    {
      TryNext(start, base, first, n, slug, tried, taken);
      tried := tried + {slug};
      slug := Numbered(base, n);
      n := n + 1;
      tries := tries + 1;
    }
    assert slug != start ==> n > first;
  }

  ghost predicate NeverNumbered(start: string, base: string) {
    forall n: nat :: Numbered(base, n) != start
  }

  /** The names `tried` are taken, and `slug` is the one to try next. */
  ghost predicate Trying(start: string, base: string, first: nat, n: nat, slug: string, tried: set<string>, taken: set<string>) {
    && tried <= taken && n >= first
    && if n == first then slug == start && tried == {}
       else slug == Numbered(base, n - 1) && start in taken && slug != start && tried == {start} + Candidates(base, first, n - 1)
  }

  lemma TryNext(start: string, base: string, first: nat, n: nat, slug: string, tried: set<string>, taken: set<string>)
    requires NeverNumbered(start, base) && slug in taken
    requires Trying(start, base, first, n, slug, tried, taken)
    ensures Trying(start, base, first, n + 1, Numbered(base, n), tried + {slug}, taken)
    ensures |tried + {slug}| == |tried| + 1 <= |taken|
  {
    SubsetSize(tried + {slug}, taken);
    if n == first {
      assert Candidates(base, first, n) == {};
    } else {
      NextCandidate(base, first, n - 1);
      assert slug !in tried;
    }
  }

  lemma NextCandidate(base: string, low: nat, n: nat)
    requires low <= n
    ensures Numbered(base, n) !in Candidates(base, low, n)
    ensures Candidates(base, low, n + 1) == Candidates(base, low, n) + {Numbered(base, n)}
  {
    if Numbered(base, n) in Candidates(base, low, n) {
      var i :| low <= i < n && Numbered(base, i) == Numbered(base, n);
      NumberedInjective(base, i, n);
    }
  }

  /** The database channel: `base`, `base-2`, ...; an empty base is replaced by a time stamp. */
  method DatabaseSlug(base: string, stamp: string, taken: set<string>) returns (slug: string, tries: nat)
    ensures slug !in taken && tries <= |taken| + 1
    ensures var b := if base == "" then "ch-" + stamp else base;
            && tries >= 1 && slug == (if tries == 1 then b else b + "-" + Decimal(tries))
            && (tries > 1 ==> b in taken && forall k :: 2 <= k < tries ==> b + "-" + Decimal(k) in taken)
  {
    var b := if base != "" then base else "ch-" + stamp;
    slug, tries := FreshSlug(b, b, 2, taken);
    forall k | 2 <= k < tries ensures b + "-" + Decimal(k) in taken {
      assert Numbered(b, k) in Candidates(b, 2, tries);
    }
  }

  /** The in-memory channel numbers with its running counter, and keeps an empty base empty. */
  method MemorySlug(base: string, counter: nat, taken: set<string>) returns (slug: string, tries: nat)
    ensures slug !in taken && tries <= |taken| + 1
    ensures tries >= 1
    ensures tries == 1 ==> slug == if base == "" then "ch-" + Decimal(counter + 1) else base
    ensures tries > 1 ==> slug == base + "-" + Decimal(counter + tries - (if base == "" then 0 else 1))
    ensures tries > 1 ==> (if base == "" then "ch-" + Decimal(counter + 1) else base) in taken
    ensures forall k: nat :: counter + (if base == "" then 2 else 1) <= k < counter + tries - (if base == "" then 0 else 1)
              ==> base + "-" + Decimal(k) in taken
  {
    var start := if base != "" then base else Numbered("ch", counter + 1);
    var first := if base != "" then counter + 1 else counter + 2;
    if base != "" {
    } else {
      assert start == "ch-" + Decimal(counter + 1);
      assert start[0] == 'c' && forall n: nat :: Numbered("", n)[0] == '-';
    }
    slug, tries := FreshSlug(start, base, first, taken);
    forall k: nat | first <= k < first + tries - 2 ensures base + "-" + Decimal(k) in taken {
      assert Numbered(base, k) in Candidates(base, first, first + tries - 2);
    }
  }
}
