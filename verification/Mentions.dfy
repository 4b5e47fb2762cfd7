/** `@handle` mentions: the server's parser, and the browser's completion menu that inserts them. */
module Mentions {
  import opened Basics
  import opened Text

  /** `[A-Za-z0-9_-]` and the units from U+4E00 to U+9FA5. */
  predicate HandleUnit(u: CodeUnit) {
    || 'A' as int <= u <= 'Z' as int || 'a' as int <= u <= 'z' as int || '0' as int <= u <= '9' as int
    || u == '_' as int || u == '-' as int || 0x4E00 <= u <= 0x9FA5
  }

  /** `\s` */
  predicate IsSpace(u: CodeUnit) {
    || 0x09 <= u <= 0x0D || u == 0x20 || u == 0xA0 || u == 0x1680 || 0x2000 <= u <= 0x200A
    || u == 0x2028 || u == 0x2029 || u == 0x202F || u == 0x205F || u == 0x3000 || u == 0xFEFF
  }

  predicate IsHandle(t: Text) {
    forall i :: 0 <= i < |t| ==> HandleUnit(t[i])
  }

  /** The alphabet of handles: ASCII letters, digits, underscore, dash, and the common CJK ideographs. */
  lemma HandleAlphabet(u: CodeUnit)
    ensures HandleUnit(u) <==> || 0x30 <= u <= 0x39 || 0x41 <= u <= 0x5A || 0x61 <= u <= 0x7A || u == 0x5F || u == 0x2D
                               || 0x4E00 <= u <= 0x9FA5
  {
  }

  /** White space, the class `\s`: tab to carriage return, space, and the spaces and separators beyond ASCII. */
  lemma SpaceAlphabet(u: CodeUnit)
    ensures u < 0x80 ==> (IsSpace(u) <==> u in {9, 10, 11, 12, 13, 32})
    ensures u >= 0x80 ==> (IsSpace(u) <==> 0x2000 <= u <= 0x200A || u in {0xA0, 0x1680, 0x2028, 0x2029, 0x202F, 0x205F, 0x3000, 0xFEFF})
    ensures IsSpace(u) ==> !HandleUnit(u) && u != AT
  {
  }

  // ---- the server's parser ----

  /** The length of the longest handle at the start of `t`, possibly 0. */
  function HandleLength(t: Text): (n: nat)
    ensures n <= |t| && IsHandle(t[..n])
    ensures n < |t| ==> !HandleUnit(t[n])
  {
    if t == [] || !HandleUnit(t[0]) then 0 else 1 + HandleLength(t[1..])
  }

  /** Every match of the mention pattern, without its `@`, in order and with repetitions. */
  function Mentions(t: Text): seq<Text>
    decreases |t|
  {
    if t == [] then []
    else
      var n := HandleLength(t[1..]);
      if t[0] == AT && n > 0 then [t[1..1 + n]] + Mentions(t[1 + n..]) else Mentions(t[1..])
  }

  function ParsedMentions(content: Text): seq<Text> {
    Dedup(Mentions(content))
  }

  lemma HandleLengthUnique(t: Text, n: nat)
    requires n <= |t| && IsHandle(t[..n]) && (n < |t| ==> !HandleUnit(t[n]))
    ensures HandleLength(t) == n
  {
    var m := HandleLength(t);
    assert forall i :: 0 <= i < n ==> t[..n][i] == t[i];
    assert forall i :: 0 <= i < m ==> t[..m][i] == t[i];
  }

  /** The matching loop of `parseMentions`: `out` collects, and the set `seen` filters, the handles. */
  method ParseMentions(content: Text) returns (out: seq<Text>)
    ensures out == ParsedMentions(content)
  {
    out := [];
    var seen: set<Text> := {};
    ghost var matched: seq<Text> := [];
    var i := 0;
    while i < |content|
      invariant 0 <= i <= |content|
      invariant matched + Mentions(content[i..]) == Mentions(content)
      invariant out == Dedup(matched)
      invariant forall h :: h in seen <==> h in out
    {
      var j := HandleEnd(content, i + 1);
      MentionsStep(content, i, j);
      if content[i] == AT && j > i + 1 {
        var handle := content[i + 1..j];
        Assoc(matched, [handle], Mentions(content[j..]));
        DedupSnoc(matched, handle);
        matched := matched + [handle];
        if handle !in seen {
          seen := seen + {handle};
          out := out + [handle];
        }
        i := j;
      } else {
        i := i + 1;
      }
    }
    assert matched + [] == matched;
  }

  method HandleEnd(t: Text, i: nat) returns (j: nat)
    requires i <= |t|
    ensures i <= j <= |t| && j == i + HandleLength(t[i..])
  {
    j := i;
    while j < |t| && HandleUnit(t[j])
      invariant i <= j <= |t|
      invariant forall k :: i <= k < j ==> HandleUnit(t[k])
    {
      j := j + 1;
    }
    HandleLengthUnique(t[i..], j - i);
  }

  lemma MentionsStep(t: Text, i: nat, j: nat)
    requires i < |t| && j == i + 1 + HandleLength(t[i + 1..])
    ensures Mentions(t[i..]) == if t[i] == AT && j > i + 1 then [t[i + 1..j]] + Mentions(t[j..]) else Mentions(t[i + 1..])
  {
    var u := t[i..];
    assert u[1..] == t[i + 1..];
    assert u[1..j - i] == t[i + 1..j] && u[j - i..] == t[j..];
  }

  // ---- which handles are mentioned ----

  /** An `@` at `i` with all the handle units that follow it, up to `j`. */
  predicate IsSpan(t: Text, i: nat, j: nat) {
    && i + 1 < j <= |t| && t[i] == AT && IsHandle(t[i + 1..j]) && (j < |t| ==> !HandleUnit(t[j]))
  }

  ghost predicate HasSpan(t: Text, h: Text) {
    exists i: nat, j: nat :: IsSpan(t, i, j) && t[i + 1..j] == h
  }

  lemma ShiftSpan(t: Text, n: nat, i: nat, j: nat)
    requires n <= i < |t| && n <= j <= |t|
    ensures IsSpan(t, i, j) <==> IsSpan(t[n..], i - n, j - n)
    ensures i + 1 <= j ==> t[i + 1..j] == t[n..][i - n + 1..j - n]
  {
    if i + 1 <= j {
      assert t[i + 1..j] == t[n..][i - n + 1..j - n];
    }
  }

  lemma FirstSpan(t: Text, j: nat)
    requires t != []
    ensures IsSpan(t, 0, j) <==> t[0] == AT && HandleLength(t[1..]) > 0 && j == 1 + HandleLength(t[1..])
  {
    var n := HandleLength(t[1..]);
    assert t[1..][..n] == t[1..1 + n];
    if IsSpan(t, 0, j) {
      assert t[1..][..j - 1] == t[1..j];
      HandleLengthUnique(t[1..], j - 1);
    }
  }

  lemma TailHasSpan(t: Text, n: nat, h: Text)
    requires n <= |t| && HasSpan(t[n..], h)
    ensures HasSpan(t, h)
  {
    var i: nat, j: nat :| IsSpan(t[n..], i, j) && t[n..][i + 1..j] == h;
    ShiftSpan(t, n, i + n, j + n);
  }

  lemma {:induction false} MentionHasSpan(t: Text, h: Text)
    requires h in Mentions(t)
    ensures HasSpan(t, h)
    decreases |t|
  {
    var n := HandleLength(t[1..]);
    var cut := if t[0] == AT && n > 0 then 1 + n else 1;
    if h in Mentions(t[cut..]) {
      MentionHasSpan(t[cut..], h);
      TailHasSpan(t, cut, h);
    } else {
      FirstSpan(t, 1 + n);
      assert t[0 + 1..1 + n] == h;
    }
  }

  lemma {:induction false} SpanIsMention(t: Text, i: nat, j: nat)
    requires IsSpan(t, i, j)
    ensures t[i + 1..j] in Mentions(t)
    decreases |t|
  {
    var n := HandleLength(t[1..]);
    FirstSpan(t, j);
    if i > 0 {
      var cut := if t[0] == AT && n > 0 then 1 + n else 1;
      assert forall k :: 0 < k < cut ==> t[k] == t[1..][..n][k - 1];
      assert cut <= i;
      ShiftSpan(t, cut, i, j);
      SpanIsMention(t[cut..], i - cut, j - cut);
    }
  }

  /** The independent description of mentions: `h` is mentioned exactly when an `@` stands right before it and it cannot be longer. */
  lemma MentionIffSpan(t: Text, h: Text)
    ensures h in Mentions(t) <==> exists i: nat, j: nat :: IsSpan(t, i, j) && t[i + 1..j] == h
  {
    if h in Mentions(t) {
      MentionHasSpan(t, h);
    }
    forall i: nat, j: nat | IsSpan(t, i, j) && t[i + 1..j] == h ensures h in Mentions(t) {
      SpanIsMention(t, i, j);
    }
  }

  // ---- concatenation ----

  /** `t` ends in an `@` followed by handle units only: a following handle unit would still belong to it. */
  predicate OpenEnd(t: Text) {
    t != [] && (t[|t| - 1] == AT || (HandleUnit(t[|t| - 1]) && OpenEnd(t[..|t| - 1])))
  }

  lemma MentionFirst(h: Text, rest: Text)
    requires h != [] && IsHandle(h) && (rest == [] || !HandleUnit(rest[0]))
    ensures Mentions([AT] + h + rest) == [h] + Mentions(rest)
  {
    var t := [AT] + h + rest;
    assert t[1..] == h + rest && (h + rest)[..|h|] == h;
    HandleLengthUnique(h + rest, |h|);
    assert t[1..1 + |h|] == h && t[1 + |h|..] == rest;
  }

  lemma {:induction false} OpenEndTail(x: Text, rest: Text)
    requires rest != [] && OpenEnd(rest)
    ensures OpenEnd(x + rest)
    decreases |rest|
  {
    var t := x + rest;
    if rest[|rest| - 1] != AT {
      assert t[..|t| - 1] == x + rest[..|rest| - 1];
      OpenEndTail(x, rest[..|rest| - 1]);
    }
  }

  lemma {:induction false} HandleOpen(h: Text)
    requires IsHandle(h)
    ensures OpenEnd([AT] + h)
  {
    if h != [] {
      HandleOpen(h[..|h| - 1]);
      assert ([AT] + h)[..|h|] == [AT] + h[..|h| - 1];
    }
  }

  /** Mentions of a concatenation, unless an unfinished mention at the end of `a` runs on into `b`. */
  lemma {:induction false} MentionsConcat(a: Text, b: Text)
    requires b == [] || !HandleUnit(b[0]) || !OpenEnd(a)
    ensures Mentions(a + b) == Mentions(a) + Mentions(b)
    decreases |a|
  {
    if a == [] {
      assert a + b == b;
    } else {
      var n := HandleLength(a[1..]);
      assert a == [a[0]] + a[1..];
      if a[0] == AT && n > 0 {
        ConcatAfterMention(a, b, n);
      } else {
        ConcatAfterSkip(a, b);
      }
    }
  }

  lemma {:induction false} ConcatAfterSkip(a: Text, b: Text)
    requires a != [] && (a[0] != AT || HandleLength(a[1..]) == 0)
    requires b == [] || !HandleUnit(b[0]) || !OpenEnd(a)
    ensures Mentions(a + b) == Mentions(a) + Mentions(b)
    decreases |a|, 0
  {
    var rest := a[1..];
    assert a == [a[0]] + rest && a + b == [a[0]] + (rest + b);
    if rest != [] && OpenEnd(rest) {
      OpenEndTail([a[0]], rest);
    }
    MentionsConcat(rest, b);
  }

  lemma {:induction false} ConcatAfterMention(a: Text, b: Text, n: nat)
    requires a != [] && a[0] == AT && n == HandleLength(a[1..]) && n > 0
    requires b == [] || !HandleUnit(b[0]) || !OpenEnd(a)
    ensures Mentions(a + b) == Mentions(a) + Mentions(b)
    decreases |a|, 0
  {
    var h, rest := a[1..][..n], a[1..][n..];
    assert a == [AT] + h + rest;
    assert a + b == [AT] + h + (rest + b);
    if rest == [] {
      assert a == [AT] + h && rest + b == b;
      HandleOpen(h);
    } else if OpenEnd(rest) {
      OpenEndTail([AT] + h, rest);
    }
    MentionsConcat(rest, b);
    MentionFirst(h, rest);
    MentionFirst(h, rest + b);
    Assoc([h], Mentions(rest), Mentions(b));
  }

  lemma {:induction false} SkipHandle(h: Text, rest: Text)
    requires IsHandle(h)
    ensures Mentions(h + rest) == Mentions(rest)
  {
    if h == [] {
      assert h + rest == rest;
    } else {
      SkipHandle(h[1..], rest);
      assert h + rest == [h[0]] + (h[1..] + rest);
    }
  }

  lemma {:induction false} OpenEndSplit(t: Text) returns (p: Text, h: Text)
    requires OpenEnd(t)
    ensures t == p + [AT] + h && IsHandle(h)
  {
    var n := |t| - 1;
    if t[n] == AT {
      p, h := t[..n], [];
    } else {
      p, h := OpenEndSplit(t[..n]);
      h := h + [t[n]];
    }
  }

  lemma MentionInMiddle(p: Text, h: Text, rest: Text)
    requires h != [] && IsHandle(h) && (rest == [] || !HandleUnit(rest[0]))
    ensures Mentions(p + ([AT] + h + rest)) == Mentions(p) + ([h] + Mentions(rest))
  {
    MentionsConcat(p, [AT] + h + rest);
    MentionFirst(h, rest);
  }

  lemma OpenEndMentions(p: Text, h: Text)
    requires IsHandle(h)
    ensures Mentions(p + [AT] + h) == Mentions(p) + (if h == [] then [] else [h])
  {
    Assoc(p, [AT], h);
    MentionsConcat(p, [AT] + h);
    if h == [] {
      assert [AT] + h == [AT] + [];
    } else {
      MentionFirst(h, []);
      assert [AT] + h + [] == [AT] + h;
    }
  }

  lemma RunOnDiffers(p: Text, h: Text, k: Text, rest: Text)
    requires IsHandle(h) && IsHandle(k) && k != [] && (rest == [] || !HandleUnit(rest[0]))
    ensures Mentions(p + ([AT] + (h + k) + rest)) != Mentions(p + [AT] + h) + Mentions(k + rest)
  {
    MentionInMiddle(p, h + k, rest);
    OpenEndMentions(p, h);
    SkipHandle(k, rest);
    var x: seq<Text> := if h == [] then [] else [h];
    assert h == [] || [h][0] != [h + k][0];
    MiddleDiffers(Mentions(p), [h + k], x, [], Mentions(rest));
    Assoc(Mentions(p), [h + k], Mentions(rest));
    assert [] + Mentions(rest) == Mentions(rest);
  }

  lemma Reglue(p: Text, h: Text, k: Text, rest: Text)
    ensures p + ([AT] + (h + k) + rest) == (p + [AT] + h) + (k + rest)
  {
  }

  lemma CutMentionDiffers(p: Text, h: Text, k: Text, rest: Text)
    requires IsHandle(h) && IsHandle(k) && k != [] && (rest == [] || !HandleUnit(rest[0]))
    ensures Mentions((p + [AT] + h) + (k + rest)) != Mentions(p + [AT] + h) + Mentions(k + rest)
  {
    RunOnDiffers(p, h, k, rest);
    Reglue(p, h, k, rest);
  }

  lemma SplitHandle(b: Text) returns (k: Text, rest: Text)
    requires b != [] && HandleUnit(b[0])
    ensures b == k + rest && IsHandle(k) && k != [] && (rest == [] || !HandleUnit(rest[0]))
  {
    var n := HandleLength(b);
    k, rest := b[..n], b[n..];
  }

  /** Mentions distribute over concatenation exactly when no mention is cut in two. */
  lemma ConcatLawIsExact(a: Text, b: Text)
    ensures Mentions(a + b) == Mentions(a) + Mentions(b) <==> b == [] || !HandleUnit(b[0]) || !OpenEnd(a)
  {
    if b == [] || !HandleUnit(b[0]) || !OpenEnd(a) {
      MentionsConcat(a, b);
    } else {
      var p, h := OpenEndSplit(a);
      var k, rest := SplitHandle(b);
      CutMentionDiffers(p, h, k, rest);
    }
  }

  /** The agents that a text mentions: known handles only, case-sensitive, in order of first mention. */
  function MentionedAgents(content: Text, handles: seq<Text>): seq<Text> {
    Filter(ParsedMentions(content), h => h in handles)
  }

  // ---- the browser's completion menu ----

  /** The `@` at `i` opens the token in which the cursor stands. */
  predicate Qualifies(text: Text, cursor: int, i: int) {
    && 0 <= i < cursor <= |text| && text[i] == AT
    && (i == 0 || IsSpace(text[i - 1]))
    && forall k :: i < k < cursor ==> HandleUnit(text[k])
  }

  lemma QualifiesUnique(text: Text, cursor: int, i: int, j: int)
    requires Qualifies(text, cursor, i) && Qualifies(text, cursor, j)
    ensures i == j
  {
    assert !HandleUnit(AT);
  }

  /** Looks backwards from the cursor for the one qualifying `@`. */
  method FindMentionQuery(text: Text, cursor: int) returns (r: Option<(nat, Text)>)
    ensures r.Some? ==> Qualifies(text, cursor, r.value.0) && r.value.1 == text[r.value.0 + 1..cursor]
    ensures r.None? <==> forall i :: !Qualifies(text, cursor, i)
  {
    var i := cursor - 1;
    while i >= 0
      invariant i < cursor && (cursor > |text| ==> i == cursor - 1)
      invariant cursor <= |text| ==> forall k :: i < k < cursor && 0 <= k ==> HandleUnit(text[k])
    {
      if i >= |text| {
        return None;
      }
      var ch := text[i];
      if ch == AT {
        if i == 0 || IsSpace(text[i - 1]) {
          assert Qualifies(text, cursor, i);
          return Some((i, text[i + 1..cursor]));
        }
        return None;
      }
      if IsSpace(ch) || !HandleUnit(ch) {
        return None;
      }
      i := i - 1;
    }
    return None;
  }

  /** An index as `String.prototype.slice` reads it: negative from the end, clamped to the text. */
  function Clamp(n: int, length: nat): (r: nat)
    ensures r <= length
  {
    if n < 0 then Max(0, length + n) else Min(n, length)
  }

  function Before(text: Text, start: int): Text {
    text[..Clamp(start, |text|)]
  }

  function After(text: Text, cursor: int): Text {
    text[Clamp(cursor, |text|)..]
  }

  function ApplyMention(text: Text, start: int, cursor: int, handle: Text): (Text, nat) {
    var insert := [AT] + handle + [SPACE];
    (Before(text, start) + insert + After(text, cursor), |Before(text, start)| + |insert|)
  }

  /** The `@`, the handle and a space replace the text between the positions; the cursor stands right after the space. */
  lemma AppliedMention(text: Text, start: nat, cursor: nat, handle: Text)
    requires start <= cursor <= |text|
    ensures var (t, c) := ApplyMention(text, start, cursor, handle);
            && c == start + |handle| + 2 <= |t| && |t| == |text| - (cursor - start) + |handle| + 2
            && t[..start] == text[..start] && t[start] == 0x40 && t[start + 1..c - 1] == handle && t[c - 1] == 0x20
            && t[c..] == text[cursor..]
  {
  }

  /** Positions outside the text count from its end when negative, and end at its end when too large. */
  lemma ClampedPositions(text: Text, n: int)
    ensures -|text| <= n < 0 ==> Before(text, n) == Before(text, |text| + n) && After(text, n) == After(text, |text| + n)
    ensures n < -|text| ==> Before(text, n) == [] && After(text, n) == text
    ensures n > |text| ==> Before(text, n) == text && After(text, n) == []
  {
  }

  /** What the menu found is what gets replaced: the `@` and the query, and nothing else. */
  lemma FoundSpanIsReplaced(text: Text, cursor: int, start: int)
    requires Qualifies(text, cursor, start)
    ensures text == Before(text, start) + [AT] + text[start + 1..cursor] + After(text, cursor)
  {
  }

  lemma SpacedMention(p: Text, h: Text, rest: Text)
    requires h != [] && IsHandle(h)
    ensures Mentions(p + ([AT] + h + [SPACE]) + rest) == Mentions(p) + [h] + Mentions(rest)
  {
    MentionInMiddle(p, h, [SPACE] + rest);
    assert p + ([AT] + h + [SPACE]) + rest == p + ([AT] + h + ([SPACE] + rest));
    Assoc(Mentions(p), [h], Mentions(rest));
  }

  /**
   * The server reads back exactly the inserted handle between the mentions of what precedes and
   * what follows it, and the menu is closed at the new cursor.
   */
  lemma InsertedMentionIsParsed(text: Text, start: int, cursor: int, handle: Text)
    requires handle != [] && IsHandle(handle)
    ensures var (t, c) := ApplyMention(text, start, cursor, handle);
            && ParsedMentions(t) == Dedup(Mentions(Before(text, start)) + [handle] + Mentions(After(text, cursor)))
            && (forall i :: !Qualifies(t, c, i))
  {
    var b, a := Before(text, start), After(text, cursor);
    SpacedMention(b, handle, a);
    var (t, c) := ApplyMention(text, start, cursor, handle);
    assert t[c - 1] == SPACE;
  }
}
