/** Values and small sequence facts shared by the other modules. */
module Basics {

  datatype Option<+T> = None | Some(value: T)

  /** `m.get(k) ?? d` */
  function Get<K, V>(m: map<K, V>, k: K, d: V): V {
    if k in m then m[k] else d
  }

  function Min(a: int, b: int): int {
    if a <= b then a else b
  }

  function Max(a: int, b: int): int {
    if a >= b then a else b
  }

  // ---- sequences ----

  ghost predicate NoDup<T>(xs: seq<T>) {
    forall i, j :: 0 <= i < j < |xs| ==> xs[i] != xs[j]
  }

  function DropAt<T>(xs: seq<T>, i: nat): seq<T>
    requires i < |xs|
  {
    xs[..i] + xs[i + 1..]
  }

  lemma DropAtMultiset<T>(xs: seq<T>, i: nat)
    requires i < |xs|
    ensures multiset(xs) == multiset(DropAt(xs, i)) + multiset{xs[i]}
  {
    assert xs == xs[..i] + [xs[i]] + xs[i + 1..];
  }

  lemma Assoc<T>(x: seq<T>, y: seq<T>, z: seq<T>)
    ensures x + (y + z) == x + y + z
  {
  }

  lemma MiddleDiffers<T>(p: seq<T>, z: seq<T>, x: seq<T>, y: seq<T>, q: seq<T>)
    requires z != x + y
    ensures p + z + q != (p + x) + (y + q)
  {
    var l, r, n := p + z + q, (p + x) + (y + q), |p| + |z|;
    assert l[|p|..n] == z;
    if |z| == |x + y| {
      assert r[|p|..n] == x + y;
    }
  }

  /** The elements of `xs` that satisfy `p`, in order. */
  function Filter<T(!new)>(xs: seq<T>, p: T -> bool): (r: seq<T>)
    ensures forall x :: x in r <==> x in xs && p(x)
  {
    if xs == [] then []
    else
      var r := Filter(xs[..|xs| - 1], p);
      if p(xs[|xs| - 1]) then r + [xs[|xs| - 1]] else r
  }

  lemma {:induction false} FilterNoDup<T(!new)>(xs: seq<T>, p: T -> bool)
    requires NoDup(xs)
    ensures NoDup(Filter(xs, p))
  {
    if xs != [] {
      FilterNoDup(xs[..|xs| - 1], p);
    }
  }

  lemma {:induction false} FilterAgree<T(!new)>(xs: seq<T>, p: T -> bool, q: T -> bool)
    requires forall x :: x in xs ==> p(x) == q(x)
    ensures Filter(xs, p) == Filter(xs, q)
  {
    if xs != [] {
      FilterAgree(xs[..|xs| - 1], p, q);
    }
  }

  lemma {:induction false} FilterAll<T(!new)>(xs: seq<T>, p: T -> bool)
    requires forall x :: x in xs ==> p(x)
    ensures Filter(xs, p) == xs
  {
    if xs != [] {
      FilterAll(xs[..|xs| - 1], p);
      assert p(xs[|xs| - 1]);
    }
  }

  lemma {:induction false} FilterNone<T(!new)>(xs: seq<T>, p: T -> bool)
    requires forall x :: x in xs ==> !p(x)
    ensures Filter(xs, p) == []
  {
    if xs != [] {
      FilterNone(xs[..|xs| - 1], p);
      assert !p(xs[|xs| - 1]);
    }
  }

  lemma {:induction false} FilterConcat<T(!new)>(xs: seq<T>, ys: seq<T>, p: T -> bool)
    ensures Filter(xs + ys, p) == Filter(xs, p) + Filter(ys, p)
  {
    if ys == [] {
      assert xs + ys == xs;
    } else {
      var init, y := ys[..|ys| - 1], ys[|ys| - 1];
      assert xs + ys == (xs + init) + [y];
      FilterConcat(xs, init, p);
    }
  }

  lemma {:induction false} FilterTwice<T(!new)>(xs: seq<T>, p: T -> bool, q: T -> bool)
    ensures Filter(Filter(xs, p), q) == Filter(xs, x => p(x) && q(x))
  {
    if xs != [] {
      var init, x := xs[..|xs| - 1], xs[|xs| - 1];
      FilterTwice(init, p, q);
    }
  }

  lemma FilterThrice<T(!new)>(xs: seq<T>, p: T -> bool, q: T -> bool, r: T -> bool, s: T -> bool)
    requires forall x :: x in xs ==> s(x) == (p(x) && q(x) && r(x))
    ensures Filter(Filter(Filter(xs, p), q), r) == Filter(xs, s)
  {
    FilterTwice(xs, p, q);
    var pq := x => p(x) && q(x);
    FilterTwice(xs, pq, r);
    var pqr := x => pq(x) && r(x);
    FilterAgree(xs, pqr, s);
  }

  /** First occurrences only, in order: what a `Set` keeps of a list. */
  function Dedup<T(==, !new)>(xs: seq<T>): (r: seq<T>)
    ensures NoDup(r)
    ensures forall x :: x in r <==> x in xs
  {
    if xs == [] then []
    else
      var r := Dedup(xs[..|xs| - 1]);
      if xs[|xs| - 1] in r then r else r + [xs[|xs| - 1]]
  }

  lemma DedupSnoc<T(!new)>(xs: seq<T>, x: T)
    ensures Dedup(xs + [x]) == if x in xs then Dedup(xs) else Dedup(xs) + [x]
  {
    assert (xs + [x])[..|xs|] == xs;
  }

  lemma {:induction false} DedupOfDistinct<T(!new)>(xs: seq<T>)
    requires NoDup(xs)
    ensures Dedup(xs) == xs
  {
    if xs != [] {
      DedupOfDistinct(xs[..|xs| - 1]);
    }
  }

  function NotIn<T(==)>(xs: seq<T>): T -> bool {
    x => x !in xs
  }

  lemma SnocOf<T>(xs: seq<T>, ys: seq<T>)
    requires ys != []
    ensures ys[..|ys| - 1] + [ys[|ys| - 1]] == ys && xs + ys[..|ys| - 1] + [ys[|ys| - 1]] == xs + ys
  {
  }

  lemma {:induction false} DedupConcat<T(!new)>(xs: seq<T>, ys: seq<T>)
    ensures Dedup(xs + ys) == Dedup(xs) + Filter(Dedup(ys), NotIn(xs))
  {
    if ys == [] {
      assert xs + ys == xs;
    } else {
      DedupConcat(xs, ys[..|ys| - 1]);
      DedupConcatSnoc(xs, ys[..|ys| - 1], ys[|ys| - 1]);
      SnocOf(xs, ys);
    }
  }

  lemma DedupConcatSnoc<T(!new)>(xs: seq<T>, ys: seq<T>, y: T)
    requires Dedup(xs + ys) == Dedup(xs) + Filter(Dedup(ys), NotIn(xs))
    ensures Dedup(xs + ys + [y]) == Dedup(xs) + Filter(Dedup(ys + [y]), NotIn(xs))
  {
    DedupSnoc(xs + ys, y);
    DedupSnoc(ys, y);
    Assoc(Dedup(xs), Filter(Dedup(ys), NotIn(xs)), [y]);
  }

  lemma {:induction false} DedupFilter<T(!new)>(xs: seq<T>, p: T -> bool)
    ensures Dedup(Filter(xs, p)) == Filter(Dedup(xs), p)
  {
    if xs != [] {
      var init, x := xs[..|xs| - 1], xs[|xs| - 1];
      assert xs == init + [x];
      DedupFilter(init, p);
      DedupSnoc(init, x);
      DedupSnoc(Filter(init, p), x);
    }
  }

  lemma {:induction false} DistinctSetSize<T>(xs: seq<T>)
    requires NoDup(xs)
    ensures |set x | x in xs| == |xs|
  {
    if xs == [] {
      assert (set x | x in xs) == {};
    } else {
      var ys := xs[..|xs| - 1];
      DistinctSetSize(ys);
      assert (set x | x in xs) == (set x | x in ys) + {xs[|xs| - 1]};
    }
  }

  lemma {:induction false} SubsetSize<T>(a: set<T>, b: set<T>)
    requires a <= b
    ensures |a| <= |b|
  {
    if a != {} {
      var x :| x in a;
      SubsetSize(a - {x}, b - {x});
    }
  }

  // ---- decimal numerals ----

  function Digit(d: nat): char
    requires d < 10
  {
    "0123456789"[d]
  }

  /** `String(n)` */
  function Decimal(n: nat): (s: string)
    ensures s != []
  {
    if n < 10 then [Digit(n)] else Decimal(n / 10) + [Digit(n % 10)]
  }

  /** What a string of digits stands for. */
  function Value(s: string): int {
    if s == "" then 0 else 10 * Value(s[..|s| - 1]) + (s[|s| - 1] as int - '0' as int)
  }

  predicate IsDigits(s: string) {
    forall i :: 0 <= i < |s| ==> '0' <= s[i] <= '9'
  }

  /** A numeral is made of digits, stands for its number, and has no leading zero. */
  lemma {:induction false} DecimalIsNumeral(n: nat)
    ensures IsDigits(Decimal(n)) && Value(Decimal(n)) == n && (n > 0 ==> Decimal(n)[0] != '0')
  {
    DigitIsNumeral(n % 10);
    if n < 10 {
      assert Decimal(n) == [Digit(n)];
    } else {
      DecimalIsNumeral(n / 10);
    }
  }

  lemma DigitIsNumeral(d: nat)
    requires d < 10
    ensures '0' <= Digit(d) <= '9' && Digit(d) as int - '0' as int == d == Value([Digit(d)])
  {
    assert "" + [Digit(d)] == [Digit(d)];
  }

  lemma DecimalInjective(a: nat, b: nat)
    requires Decimal(a) == Decimal(b)
    ensures a == b
  {
    DecimalIsNumeral(a);
    DecimalIsNumeral(b);
  }

  lemma {:induction false} LeadingZeros(k: nat, s: string)
    ensures Value(seq(k, i => '0') + s) == Value(s)
  {
    if s != "" {
      LeadingZeros(k, s[..|s| - 1]);
      assert (seq(k, i => '0') + s)[..k + |s| - 1] == seq(k, i => '0') + s[..|s| - 1];
    } else if k > 0 {
      LeadingZeros(k - 1, "");
      assert (seq(k, i => '0') + "")[..k - 1] == seq(k - 1, i => '0') + "";
    }
  }
}
