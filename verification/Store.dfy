/** The in-memory store: the atomic specification of the repositories, and the services run on it alone. */
module Store {
  import opened Basics
  import opened Text
  import opened TaskRules
  import opened Log
  import opened Mentions
  import opened Freshness

  datatype Message = Message(
    id: string, workspace: string, channel: string, seqNo: nat, sender: Actor, content: Text, thread: Option<string>)

  datatype NewMessage = NewMessage(channel: string, sender: Actor, content: Text, thread: Option<string>)

  datatype MentionRow = MentionRow(workspace: string, messageId: string, channel: string, handle: Text)

  datatype Draft = Draft(id: string, workspace: string, channel: string, author: Actor, content: Text, heldAtSeq: nat)

  /** Everything that sending and reading touch; `seen` by agent id, `read` by member. */
  datatype Snapshot = Snapshot(
    messages: seq<Message>, mentions: seq<MentionRow>, drafts: seq<Draft>,
    seen: map<(string, string, string), nat>, read: map<(string, Actor, string), nat>, counter: nat)
  {
    function Seen(ws: string, agent: string, channel: string): nat { Get(seen, (ws, agent, channel), 0) }
    function Read(ws: string, member: Actor, channel: string): nat { Get(read, (ws, member, channel), 0) }
  }

  /** `prefix_00000007` */
  function MakeId(prefix: string, n: nat): string {
    var d := Decimal(n);
    prefix + "_" + (if |d| < 8 then seq(8 - |d|, i => '0') else "") + d
  }

  lemma MakeIdInjective(prefix: string, m: nat, n: nat)
    requires MakeId(prefix, m) == MakeId(prefix, n)
    ensures m == n
  {
    IdValue(prefix, m);
    IdValue(prefix, n);
  }

  lemma IdValue(prefix: string, n: nat)
    ensures |MakeId(prefix, n)| > |prefix| && Value(MakeId(prefix, n)[|prefix| + 1..]) == n
  {
    var d := Decimal(n);
    var zeros := if |d| < 8 then seq(8 - |d|, i => '0') else "";
    DecimalIsNumeral(n);
    assert MakeId(prefix, n)[|prefix| + 1..] == zeros + d;
    if |d| < 8 {
      LeadingZeros(8 - |d|, d);
    } else {
      assert zeros + d == d;
    }
  }

  /** An id that the counter has already given out. */
  ghost predicate Given(prefix: string, id: string, counter: nat) {
    exists k: nat :: 1 <= k <= counter && id == MakeId(prefix, k)
  }

  lemma NextIdIsNew(prefix: string, counter: nat)
    ensures !Given(prefix, MakeId(prefix, counter + 1), counter) && Given(prefix, MakeId(prefix, counter + 1), counter + 1)
  {
    forall k: nat | 1 <= k <= counter ensures MakeId(prefix, k) != MakeId(prefix, counter + 1) {
      if MakeId(prefix, k) == MakeId(prefix, counter + 1) {
        MakeIdInjective(prefix, k, counter + 1);
      }
    }
  }

  /** Every stored id was given out, and none twice. */
  ghost predicate IdsUnique(s: Snapshot) {
    && (forall i :: 0 <= i < |s.messages| ==> Given("msg", s.messages[i].id, s.counter))
    && (forall i, j :: 0 <= i < j < |s.messages| ==> s.messages[i].id != s.messages[j].id)
    && (forall i :: 0 <= i < |s.drafts| ==> Given("draft", s.drafts[i].id, s.counter))
    && (forall i, j :: 0 <= i < j < |s.drafts| ==> s.drafts[i].id != s.drafts[j].id)
  }

  // ---- messages of a channel ----

  predicate InChannel(m: Message, ws: string, channel: string) {
    m.workspace == ws && m.channel == channel
  }

  function LatestSeq(ms: seq<Message>, ws: string, channel: string): nat {
    if ms == [] then 0
    else
      var best, m := LatestSeq(ms[..|ms| - 1], ws, channel), ms[|ms| - 1];
      if InChannel(m, ws, channel) then Max(best, m.seqNo) else best
  }

  /** The messages as rows of the numbered log. */
  function Rows(ms: seq<Message>): (r: seq<Row>)
    ensures |r| == |ms|
  {
    if ms == [] then []
    else
      var m := ms[|ms| - 1];
      Rows(ms[..|ms| - 1]) + [Row(Channel(m.workspace, m.channel), m.seqNo, 0)]
  }

  /** Stable insertion from the right. */
  function InsertBySeq(ms: seq<Message>, m: Message): seq<Message> {
    if ms == [] || ms[|ms| - 1].seqNo <= m.seqNo then ms + [m]
    else InsertBySeq(ms[..|ms| - 1], m) + [ms[|ms| - 1]]
  }

  function SortBySeq(ms: seq<Message>): seq<Message> {
    if ms == [] then [] else InsertBySeq(SortBySeq(ms[..|ms| - 1]), ms[|ms| - 1])
  }

  function ChannelAfter(ms: seq<Message>, ws: string, channel: string, after: nat): seq<Message> {
    Filter(ms, (m: Message) => InChannel(m, ws, channel) && m.seqNo > after)
  }

  /** A limit of zero counts as no limit. */
  function ListMessages(ms: seq<Message>, ws: string, channel: string, after: Option<nat>, limit: Option<nat>): seq<Message> {
    var rows := SortBySeq(ChannelAfter(ms, ws, channel, if after.Some? then after.value else 0));
    if limit.Some? && 0 < limit.value <= |rows| then rows[..limit.value] else rows
  }

  // ---- operations on a snapshot ----

  function MentionRows(ws: string, id: string, channel: string, handles: seq<Text>): seq<MentionRow> {
    if handles == [] then []
    else MentionRows(ws, id, channel, handles[..|handles| - 1]) + [MentionRow(ws, id, channel, handles[|handles| - 1])]
  }

  function AppendTo(s: Snapshot, ws: string, m: NewMessage): (Snapshot, Message) {
    var row := Message(MakeId("msg", s.counter + 1), ws, m.channel, LatestSeq(s.messages, ws, m.channel) + 1,
                       m.sender, m.content, m.thread);
    (s.(messages := s.messages + [row],
        mentions := s.mentions + MentionRows(ws, row.id, m.channel, ParsedMentions(m.content)),
        counter := s.counter + 1), row)
  }

  function SeeUpTo(s: Snapshot, ws: string, agent: string, channel: string, seqNo: nat): Snapshot {
    s.(seen := s.seen[(ws, agent, channel) := Max(s.Seen(ws, agent, channel), seqNo)])
  }

  /** Moves the read cursor, and for an agent the seen cursor too; the target is not clamped to the log. */
  function MarkRead(s: Snapshot, ws: string, member: Actor, channel: string, upTo: nat): Snapshot {
    var t := s.(read := s.read[(ws, member, channel) := Max(s.Read(ws, member, channel), upTo)]);
    if member.kind == Agent then SeeUpTo(t, ws, member.id, channel, upTo) else t
  }

  datatype SendResult = Invalid | Archived | Held(draftId: string, unseenCount: nat, fromSeq: nat, toSeq: nat) | Sent(message: Message)

  function Send(s: Snapshot, ws: string, agent: Actor, m: NewMessage, force: bool, archived: bool): (Snapshot, SendResult) {
    if m.channel == "" || m.content == [] then (s, SendResult.Invalid)
    else if archived then (s, Archived)
    else
      var latest := LatestSeq(s.messages, ws, m.channel);
      match DecideFreshness(s.Seen(ws, agent.id, m.channel), latest, force)
      case Hold(n, from, to) =>
        var d := Draft(MakeId("draft", s.counter + 1), ws, m.channel, agent, m.content, latest);
        (s.(drafts := s.drafts + [d], counter := s.counter + 1), Held(d.id, n, from, to))
      case _ =>
        var (t, row) := AppendTo(s, ws, m.(sender := agent));
        (SeeUpTo(t, ws, agent.id, m.channel, row.seqNo), Sent(row))
  }

  // ---- the store against the numbered log ----

  lemma {:induction false} LatestIsMax(ms: seq<Message>, ws: string, channel: string)
    ensures LatestSeq(ms, ws, channel) == MaxNumber(Rows(ms), Channel(ws, channel))
  {
    if ms != [] {
      LatestIsMax(ms[..|ms| - 1], ws, channel);
      assert Rows(ms)[..|ms| - 1] == Rows(ms[..|ms| - 1]);
    }
  }

  /** Appending a message is the atomic append of the log, so the log stays one that such appends build. */
  lemma AppendIsLogAppend(s: Snapshot, ws: string, m: NewMessage)
    ensures Rows(AppendTo(s, ws, m).0.messages) == Log.Append(Rows(s.messages), Channel(ws, m.channel), 0)
    ensures Built(Rows(s.messages)) ==> Built(Rows(AppendTo(s, ws, m).0.messages))
  {
    var (t, row) := AppendTo(s, ws, m);
    assert t.messages[..|s.messages|] == s.messages;
    LatestIsMax(s.messages, ws, m.channel);
    if Built(Rows(s.messages)) {
      ReplayAfter(Rows(s.messages), Channel(ws, m.channel), 0);
    }
  }

  lemma {:induction false} MentionRowAt(ws: string, id: string, channel: string, handles: seq<Text>, i: nat)
    ensures |MentionRows(ws, id, channel, handles)| == |handles|
    ensures i < |handles| ==> MentionRows(ws, id, channel, handles)[i] == MentionRow(ws, id, channel, handles[i])
  {
    if handles != [] {
      MentionRowAt(ws, id, channel, handles[..|handles| - 1], i);
    }
  }

  /**
   * What an append stores: the message as it was given, with the next number of its channel and a new id, after
   * all others; one row for each distinct mention, in order; and nothing else.
   */
  lemma AppendStores(s: Snapshot, ws: string, m: NewMessage, i: nat)
    ensures var (t, row) := AppendTo(s, ws, m);
            && t.messages == s.messages + [row] && row.workspace == ws && row.channel == m.channel
            && row.sender == m.sender && row.content == m.content && row.thread == m.thread
            && row.seqNo == LatestSeq(s.messages, ws, m.channel) + 1
            && t.drafts == s.drafts && t.seen == s.seen && t.read == s.read && t.counter == s.counter + 1
            && |t.mentions| == |s.mentions| + |ParsedMentions(m.content)| && t.mentions[..|s.mentions|] == s.mentions
            && (i < |ParsedMentions(m.content)| ==>
                  t.mentions[|s.mentions| + i] == MentionRow(ws, row.id, m.channel, ParsedMentions(m.content)[i]))
  {
    MentionRowAt(ws, MakeId("msg", s.counter + 1), m.channel, ParsedMentions(m.content), i);
  }

  lemma AppendKeepsIds(s: Snapshot, ws: string, m: NewMessage)
    requires IdsUnique(s)
    ensures IdsUnique(AppendTo(s, ws, m).0)
    ensures forall x :: x in s.messages ==> x.id != AppendTo(s, ws, m).1.id
  {
    NextIdIsNew("msg", s.counter);
  }

  // ---- the listing after a cursor ----

  lemma {:induction false} BuiltInit(ms: seq<Message>)
    requires ms != [] && Built(Rows(ms))
    ensures var m := ms[|ms| - 1];
            Built(Rows(ms[..|ms| - 1])) && m.seqNo == LatestSeq(ms[..|ms| - 1], m.workspace, m.channel) + 1
  {
    var n, m := |ms| - 1, ms[|ms| - 1];
    assert Rows(ms)[..n] == Rows(ms[..n]);
    BuiltPrefix(Rows(ms), n);
    LatestIsMax(ms[..n], m.workspace, m.channel);
    assert Replay(Rows(ms))[n] == Rows(ms)[n];
  }

  lemma {:induction false} FilteredWindow(ms: seq<Message>, ws: string, channel: string, after: nat)
    requires Built(Rows(ms))
    ensures var l := ChannelAfter(ms, ws, channel, after);
            && |l| == Max(0, LatestSeq(ms, ws, channel) - after)
            && forall i :: 0 <= i < |l| ==> l[i].seqNo == after + 1 + i
  {
    if ms != [] {
      BuiltInit(ms);
      FilteredWindow(ms[..|ms| - 1], ws, channel, after);
    }
  }

  lemma {:induction false} SortAscending(ms: seq<Message>)
    requires forall i, j :: 0 <= i < j < |ms| ==> ms[i].seqNo < ms[j].seqNo
    ensures SortBySeq(ms) == ms
  {
    if ms != [] {
      SortAscending(ms[..|ms| - 1]);
    }
  }

  /** On a log built by appends the listing after any cursor is exactly the numbers `after + 1 .. latest`. */
  lemma ListingIsWindow(ms: seq<Message>, ws: string, channel: string, after: nat)
    requires Built(Rows(ms))
    ensures var l := ListMessages(ms, ws, channel, Some(after), None);
            && |l| == UnreadCount(after, LatestSeq(ms, ws, channel))
            && (forall i :: 0 <= i < |l| ==> l[i].seqNo == after + 1 + i)
            && (forall m :: m in l <==> m in ms && InChannel(m, ws, channel) && m.seqNo > after)
  {
    FilteredWindow(ms, ws, channel, after);
    ListingIsFiltered(ms, ws, channel, after);
  }

  lemma ListingIsFiltered(ms: seq<Message>, ws: string, channel: string, after: nat)
    requires Built(Rows(ms))
    ensures ListMessages(ms, ws, channel, Some(after), None) == ChannelAfter(ms, ws, channel, after)
  {
    FilteredWindow(ms, ws, channel, after);
    SortAscending(ChannelAfter(ms, ws, channel, after));
  }

  predicate Ascending(ms: seq<Message>) {
    forall i, j :: 0 <= i < j < |ms| ==> ms[i].seqNo <= ms[j].seqNo
  }

  lemma AscendingSnoc(ms: seq<Message>, m: Message)
    requires Ascending(ms) && forall x :: x in multiset(ms) ==> x.seqNo <= m.seqNo
    ensures Ascending(ms + [m])
  {
    assert forall i :: 0 <= i < |ms| ==> ms[i] in multiset(ms);
  }

  lemma LastIsLargest(ms: seq<Message>, x: Message)
    requires Ascending(ms) && x in multiset(ms)
    ensures ms != [] && x.seqNo <= ms[|ms| - 1].seqNo
  {
    var i :| 0 <= i < |ms| && ms[i] == x;
  }

  lemma {:induction false} InsertSorts(ms: seq<Message>, m: Message)
    requires Ascending(ms)
    ensures multiset(InsertBySeq(ms, m)) == multiset(ms) + multiset{m} && Ascending(InsertBySeq(ms, m))
  {
    if ms == [] || ms[|ms| - 1].seqNo <= m.seqNo {
      forall x | x in multiset(ms) ensures x.seqNo <= m.seqNo {
        LastIsLargest(ms, x);
      }
      AscendingSnoc(ms, m);
    } else {
      var init, last := ms[..|ms| - 1], ms[|ms| - 1];
      assert ms == init + [last];
      InsertSorts(init, m);
      forall x | x in multiset(InsertBySeq(init, m)) ensures x.seqNo <= last.seqNo {
        if x != m {
          assert x in multiset(ms);
          LastIsLargest(ms, x);
        }
      }
      AscendingSnoc(InsertBySeq(init, m), last);
    }
  }

  /** The sort orders any messages by number and loses none. */
  lemma {:induction false} SortSorts(ms: seq<Message>)
    ensures multiset(SortBySeq(ms)) == multiset(ms) && Ascending(SortBySeq(ms))
  {
    if ms != [] {
      var init, last := ms[..|ms| - 1], ms[|ms| - 1];
      assert ms == init + [last];
      SortSorts(init);
      InsertSorts(SortBySeq(init), last);
    }
  }

  lemma SortedMembers(ms: seq<Message>)
    ensures Ascending(SortBySeq(ms)) && |SortBySeq(ms)| == |ms|
    ensures forall m :: m in SortBySeq(ms) <==> m in ms
  {
    SortSorts(ms);
    assert |multiset(ms)| == |multiset(SortBySeq(ms))|;
    assert forall m :: m in ms <==> m in multiset(ms);
    assert forall m :: m in SortBySeq(ms) <==> m in multiset(SortBySeq(ms));
  }

  /** For any messages and any limit: the first ones, by number, of the channel after the cursor; zero is no limit. */
  lemma ListingIsLimited(ms: seq<Message>, ws: string, channel: string, after: nat, limit: Option<nat>)
    ensures var all := ListMessages(ms, ws, channel, Some(after), None);
            var l := ListMessages(ms, ws, channel, Some(after), limit);
            && (forall m :: m in all <==> m in ms && m.workspace == ws && m.channel == channel && m.seqNo > after)
            && Ascending(all)
            && l <= all && |l| == (if limit.Some? && limit.value > 0 then Min(limit.value, |all|) else |all|)
            && ListMessages(ms, ws, channel, None, limit) == ListMessages(ms, ws, channel, Some(0), limit)
  {
    SortedMembers(ChannelAfter(ms, ws, channel, after));
  }

  /** The decision agrees with the listing: it passes on an empty one and otherwise names its size and both ends. */
  lemma HoldIsTheListing(ms: seq<Message>, ws: string, channel: string, cursor: nat)
    requires Built(Rows(ms))
    ensures var l := ListMessages(ms, ws, channel, Some(cursor), None);
            DecideFreshness(cursor, LatestSeq(ms, ws, channel), false)
              == if l == [] then Pass else Hold(|l|, l[0].seqNo, l[|l| - 1].seqNo)
  {
    ListingIsWindow(ms, ws, channel, cursor);
  }

  // ---- holding, reading and sending again ----

  /** A held send keeps the text in exactly one draft, writes no message, and moves no cursor. */
  lemma HeldSendOnlyDrafts(s: Snapshot, ws: string, agent: Actor, m: NewMessage, force: bool, archived: bool)
    requires Built(Rows(s.messages)) && Send(s, ws, agent, m, force, archived).1.Held?
    ensures var (t, r) := Send(s, ws, agent, m, force, archived);
            var l := ListMessages(s.messages, ws, m.channel, Some(s.Seen(ws, agent.id, m.channel)), None);
            && !force && t.messages == s.messages && t.mentions == s.mentions && t.seen == s.seen && t.read == s.read
            && |t.drafts| == |s.drafts| + 1 && t.drafts[..|s.drafts|] == s.drafts
            && t.drafts[|s.drafts|] == Draft(r.draftId, ws, m.channel, agent, m.content, r.toSeq)
            && r.unseenCount == |l| > 0 && r.fromSeq == l[0].seqNo && r.toSeq == l[|l| - 1].seqNo
  {
    HoldIsTheListing(s.messages, ws, m.channel, s.Seen(ws, agent.id, m.channel));
  }

  /**
   * What becomes of a send: refused without a channel or text, or in an archived channel; held exactly when it is
   * not forced and the listing after the agent's cursor is not empty; otherwise sent, as the agent's message.
   */
  lemma SendOutcome(s: Snapshot, ws: string, agent: Actor, m: NewMessage, force: bool, archived: bool)
    requires Built(Rows(s.messages))
    ensures var (t, r) := Send(s, ws, agent, m, force, archived);
            var unseen := ListMessages(s.messages, ws, m.channel, Some(s.Seen(ws, agent.id, m.channel)), None);
            && (r == SendResult.Invalid <==> m.channel == "" || m.content == [])
            && (r == Archived <==> m.channel != "" && m.content != [] && archived)
            && (r.Held? <==> m.channel != "" && m.content != [] && !archived && !force && unseen != [])
            && (r == SendResult.Invalid || r == Archived ==> t == s)
            && (r.Sent? ==>
                  && t.messages == s.messages + [r.message] && t.drafts == s.drafts && t.read == s.read
                  && r.message.sender == agent && r.message.content == m.content && r.message.thread == m.thread
                  && r.message.workspace == ws && r.message.channel == m.channel
                  && r.message.seqNo == LatestSeq(s.messages, ws, m.channel) + 1
                  && t.Seen(ws, agent.id, m.channel) == Max(s.Seen(ws, agent.id, m.channel), r.message.seqNo)
                  && t.seen - {(ws, agent.id, m.channel)} == s.seen - {(ws, agent.id, m.channel)})
  {
    HoldIsTheListing(s.messages, ws, m.channel, s.Seen(ws, agent.id, m.channel));
    AppendStores(s, ws, m.(sender := agent), 0);
  }

  lemma SendKeepsIds(s: Snapshot, ws: string, agent: Actor, m: NewMessage, force: bool, archived: bool)
    requires IdsUnique(s)
    ensures IdsUnique(Send(s, ws, agent, m, force, archived).0)
  {
    AppendKeepsIds(s, ws, m.(sender := agent));
    NextIdIsNew("draft", s.counter);
  }

  /** After a member, human or agent, has marked a channel read up to its latest number, nothing is unread. */
  lemma ReadToTheEnd(s: Snapshot, ws: string, member: Actor, channel: string)
    requires Built(Rows(s.messages))
    ensures var latest := LatestSeq(s.messages, ws, channel);
            var t := MarkRead(s, ws, member, channel, latest);
            && t.messages == s.messages && t.drafts == s.drafts && t.mentions == s.mentions && t.counter == s.counter
            && ListMessages(t.messages, ws, channel, Some(t.Read(ws, member, channel)), None) == []
            && (member.kind == Agent ==> ListMessages(t.messages, ws, channel, Some(t.Seen(ws, member.id, channel)), None) == [])
  {
    var t := MarkRead(s, ws, member, channel, LatestSeq(s.messages, ws, channel));
    ListingIsWindow(t.messages, ws, channel, t.Read(ws, member, channel));
    ListingIsWindow(t.messages, ws, channel, t.Seen(ws, member.id, channel));
  }

  /** Reading up to the end of the reported window releases the hold: the next attempt is sent with the next number. */
  lemma ResendAfterReading(s: Snapshot, ws: string, agent: Actor, m: NewMessage, archived: bool)
    requires agent.kind == Agent && Send(s, ws, agent, m, false, archived).1.Held?
    ensures var (t, r) := Send(s, ws, agent, m, false, archived);
            var again := Send(MarkRead(t, ws, agent, m.channel, r.toSeq), ws, agent, m, false, archived).1;
            again.Sent? && again.message.seqNo == r.toSeq + 1 && again.message.content == m.content
  {
    var (t, r) := Send(s, ws, agent, m, false, archived);
    var u := MarkRead(t, ws, agent, m.channel, r.toSeq);
    assert u.Seen(ws, agent.id, m.channel) >= r.toSeq && u.messages == s.messages;
  }

  lemma LatestAfterAppend(s: Snapshot, ws: string, m: NewMessage, channel: string)
    ensures LatestSeq(AppendTo(s, ws, m).0.messages, ws, channel)
              == LatestSeq(s.messages, ws, channel) + (if channel == m.channel then 1 else 0)
  {
    var (t, row) := AppendTo(s, ws, m);
    assert t.messages[..|s.messages|] == s.messages;
  }

  /** Once a message is sent its author is not held by it: with no other append a further send is sent. */
  lemma OwnMessageNeverHolds(s: Snapshot, ws: string, agent: Actor, m: NewMessage, force: bool, next: NewMessage)
    requires Send(s, ws, agent, m, force, false).1.Sent?
    requires next.channel == m.channel && next.content != []
    ensures var (t, r) := Send(s, ws, agent, m, force, false);
            var r' := Send(t, ws, agent, next, false, false).1;
            r'.Sent? && r'.message.seqNo == r.message.seqNo + 1
  {
    LatestAfterAppend(s, ws, m.(sender := agent), m.channel);
  }

  /** Creating a task posts its message and moves the creator's cursor, so its own claim preflight passes. */
  lemma CreatorPassesPreflight(s: Snapshot, ws: string, agent: Actor, m: NewMessage)
    ensures var (t, row) := AppendTo(s, ws, m);
            var u := SeeUpTo(t, ws, agent.id, m.channel, row.seqNo);
            DecideFreshness(u.Seen(ws, agent.id, m.channel), LatestSeq(u.messages, ws, m.channel), false) == Pass
  {
    LatestAfterAppend(s, ws, m, m.channel);
  }

  /** Reading past the end is not clamped: afterwards that many new messages go unnoticed by the preflight. */
  lemma ReadingAheadSilencesTheHold(s: Snapshot, ws: string, agent: Actor, channel: string, upTo: nat, latest: nat)
    requires agent.kind == Agent
    ensures DecideFreshness(MarkRead(s, ws, agent, channel, upTo).Seen(ws, agent.id, channel), latest, false) == Pass
            <==> latest <= upTo || latest <= s.Seen(ws, agent.id, channel)
  {
    var t := s.(read := s.read[(ws, agent, channel) := Max(s.Read(ws, agent, channel), upTo)]);
    assert MarkRead(s, ws, agent, channel, upTo) == SeeUpTo(t, ws, agent.id, channel, upTo);
  }

  /** What a reconnecting client asks for is complete: the listing has every number from its cursor to the end. */
  lemma ReconnectFindsNoGap(ms: seq<Message>, ws: string, channel: string, from: nat, x: nat)
    requires Built(Rows(ms)) && from < x <= LatestSeq(ms, ws, channel)
    ensures exists m :: m in ListMessages(ms, ws, channel, Some(from), None) && m.seqNo == x
  {
    ListingIsWindow(ms, ws, channel, from);
    var l := ListMessages(ms, ws, channel, Some(from), None);
    assert l[x - from - 1] in l;
  }

  // ---- tasks ----

  datatype StoredTask = StoredTask(id: string, workspace: string, channel: string, number: nat, title: Text, state: Task)

  datatype Outcome = TaskOk(task: Task) | TaskConflict | TaskMissing

  class MemoryStore {
    var messages: seq<Message>
    var mentions: seq<MentionRow>
    var drafts: seq<Draft>
    var seen: map<(string, string, string), nat>
    var read: map<(string, Actor, string), nat>
    var tasks: map<(string, string), StoredTask>
    var counter: nat

    function View(): Snapshot
      reads this
    {
      Snapshot(messages, mentions, drafts, seen, read, counter)
    }

    constructor ()
      ensures View() == Snapshot([], [], [], map[], map[], 0) && tasks == map[] && Built(Rows(messages))
    {
      messages, mentions, drafts, seen, read, tasks, counter := [], [], [], map[], map[], map[], 0;
    }

    /** One atomic append; the mentions of the content are recorded one by one. */
    method AppendMessage(ws: string, m: NewMessage) returns (row: Message)
      modifies this
      ensures (View(), row) == AppendTo(old(View()), ws, m) && tasks == old(tasks)
      ensures old(Built(Rows(messages))) ==> Built(Rows(messages))
    {
      AppendIsLogAppend(View(), ws, m);
      counter := counter + 1;
      row := Message(MakeId("msg", counter), ws, m.channel, LatestSeq(messages, ws, m.channel) + 1,
                     m.sender, m.content, m.thread);
      messages := messages + [row];
      var handles := ParseMentions(m.content);
      ghost var before := mentions;
      for i := 0 to |handles|
        invariant mentions == before + MentionRows(ws, row.id, m.channel, handles[..i])
        invariant messages == old(messages) + [row] && drafts == old(drafts) && seen == old(seen) && read == old(read)
        invariant counter == old(counter) + 1 && tasks == old(tasks)
      {
        assert handles[..i + 1][..i] == handles[..i];
        mentions := mentions + [MentionRow(ws, row.id, m.channel, handles[i])];
      }
      assert handles[..|handles|] == handles;
    }

    method CreateDraft(ws: string, channel: string, author: Actor, content: Text, heldAtSeq: nat) returns (d: Draft)
      modifies this`drafts, this`counter
      ensures counter == old(counter) + 1 && drafts == old(drafts) + [d]
      ensures d == Draft(MakeId("draft", counter), ws, channel, author, content, heldAtSeq)
      ensures old(IdsUnique(View())) ==> forall x :: x in old(drafts) ==> x.id != d.id
    {
      NextIdIsNew("draft", counter);
      counter := counter + 1;
      d := Draft(MakeId("draft", counter), ws, channel, author, content, heldAtSeq);
      drafts := drafts + [d];
    }

    method AdvanceSeen(ws: string, agent: string, channel: string, seqNo: nat) returns (next: nat)
      modifies this`seen
      ensures View() == SeeUpTo(old(View()), ws, agent, channel, seqNo)
      ensures seen == old(seen)[(ws, agent, channel) := next] && next == Max(Get(old(seen), (ws, agent, channel), 0), seqNo)
      ensures next == View().Seen(ws, agent, channel) >= seqNo && next >= old(View()).Seen(ws, agent, channel)
    {
      next := Max(Get(seen, (ws, agent, channel), 0), seqNo);
      seen := seen[(ws, agent, channel) := next];
    }

    method AdvanceRead(ws: string, member: Actor, channel: string, seqNo: nat) returns (next: nat)
      modifies this`read
      ensures next == Max(old(View()).Read(ws, member, channel), seqNo)
      ensures read == old(read)[(ws, member, channel) := next]
    {
      next := Max(Get(read, (ws, member, channel), 0), seqNo);
      read := read[(ws, member, channel) := next];
    }

    /** The service's `markRead`: a cursor that is not a natural number is refused. */
    method MarkReadUpTo(ws: string, member: Actor, channel: string, upTo: int) returns (newRead: Option<nat>)
      modifies this`read, this`seen
      ensures newRead == None <==> upTo < 0
      ensures upTo < 0 ==> read == old(read) && seen == old(seen)
      ensures upTo >= 0 ==>
        var was := Get(old(read), (ws, member, channel), 0);
        newRead == Some(if was >= upTo then was else upTo) && read == old(read)[(ws, member, channel) := newRead.value]
      ensures upTo >= 0 && member.kind != Agent ==> seen == old(seen)
      ensures upTo >= 0 && member.kind == Agent ==>
        var was := Get(old(seen), (ws, member.id, channel), 0);
        seen == old(seen)[(ws, member.id, channel) := if was >= upTo then was else upTo]
      ensures View() == if upTo < 0 then old(View()) else MarkRead(old(View()), ws, member, channel, upTo)
      ensures newRead.Some? ==> newRead.value == View().Read(ws, member, channel)
    {
      if upTo < 0 {
        return None;
      }
      var r := AdvanceRead(ws, member, channel, upTo);
      if member.kind == Agent {
        var _ := AdvanceSeen(ws, member.id, channel, upTo);
      }
      return Some(r);
    }

    method Unread(ws: string, member: Actor, channel: string) returns (n: nat)
      requires Built(Rows(messages))
      ensures n == |ListMessages(messages, ws, channel, Some(View().Read(ws, member, channel)), None)|
    {
      ListingIsWindow(messages, ws, channel, Get(read, (ws, member, channel), 0));
      n := UnreadCount(Get(read, (ws, member, channel), 0), LatestSeq(messages, ws, channel));
    }

    /** The service's `sendAsAgent` when nothing else runs between its statements. */
    method SendAsAgent(ws: string, agent: Actor, m: NewMessage, force: bool, archived: bool) returns (r: SendResult)
      modifies this
      ensures (View(), r) == Send(old(View()), ws, agent, m, force, archived) && tasks == old(tasks)
      ensures old(Built(Rows(messages))) ==> Built(Rows(messages))
    {
      if m.channel == "" || m.content == [] {
        return SendResult.Invalid;
      }
      if archived {
        return Archived;
      }
      var latest := LatestSeq(messages, ws, m.channel);
      var modelSeen := Get(seen, (ws, agent.id, m.channel), 0);
      var decision := DecideFreshness(modelSeen, latest, force);
      if decision.Hold? {
        var d := CreateDraft(ws, m.channel, agent, m.content, latest);
        return Held(d.id, decision.unseenCount, decision.fromSeq, decision.toSeq);
      }
      var row := AppendMessage(ws, m.(sender := agent));
      var _ := AdvanceSeen(ws, agent.id, m.channel, row.seqNo);
      return Sent(row);
    }

    /** Every task is stored under an id that the counter has given out. */
    ghost predicate TaskIdsGiven()
      reads this
    {
      forall k :: k in tasks ==> Given("task", k.1, counter)
    }

    /** One more than the largest number of the workspace; a new task is unowned and to do. */
    method CreateTask(ws: string, channel: string, title: Text, system: bool) returns (task: StoredTask)
      modifies this`tasks, this`counter
      ensures counter == old(counter) + 1 && tasks == old(tasks)[(ws, task.id) := task]
      ensures task.workspace == ws && task.channel == channel && task.title == title
      ensures old(TaskIdsGiven()) ==> (ws, task.id) !in old(tasks) && TaskIdsGiven()
      ensures task.id == MakeId("task", counter) && task.state == Task(None, Todo, system)
      ensures forall k :: k in old(tasks) && old(tasks)[k].workspace == ws ==> old(tasks)[k].number < task.number
      ensures task.number == 1 || exists k :: k in old(tasks) && old(tasks)[k].workspace == ws && old(tasks)[k].number == task.number - 1
    {
      var best: nat := 0;
      var rest := tasks.Keys;
      while rest != {}
        invariant rest <= tasks.Keys
        invariant forall k :: k in tasks.Keys - rest && tasks[k].workspace == ws ==> tasks[k].number <= best
        invariant best == 0 || exists k :: k in tasks && tasks[k].workspace == ws && tasks[k].number == best
        decreases rest
      {
        var k :| k in rest;
        if tasks[k].workspace == ws && tasks[k].number > best {
          best := tasks[k].number;
        }
        rest := rest - {k};
      }
      NextIdIsNew("task", counter);
      counter := counter + 1;
      task := StoredTask(MakeId("task", counter), ws, channel, best + 1, title, Task(None, Todo, system));
      tasks := tasks[(ws, task.id) := task];
    }

    /** A claim in one step: the decision, carried out. */
    method ClaimTask(ws: string, id: string, claimant: Actor) returns (r: ClaimResult)
      modifies this`tasks
      ensures (ws, id) !in old(tasks) ==> r == NotClaimable && tasks == old(tasks)
      ensures (ws, id) in old(tasks) ==>
        var t := old(tasks)[(ws, id)];
        && r == DecideClaim(t.state, claimant)
        && (r == NotClaimable <==> t.state.system)
        && (r.Claimed? <==> !t.state.system && t.state.assignee == None)
        && (r == AlreadyMine <==> !t.state.system && t.state.assignee == Some(claimant))
        && (r.Conflict? ==> t.state.assignee == Some(r.heldBy))
        && (r.Claimed? ==> r.assignee == claimant && r.status == if t.state.status == Todo then InProgress else t.state.status)
        && tasks == if r.Claimed? then old(tasks)[(ws, id) := t.(state := Task(Some(claimant), r.status, false))] else old(tasks)
    {
      if (ws, id) !in tasks {
        return NotClaimable;
      }
      var t := tasks[(ws, id)];
      r := DecideClaim(t.state, claimant);
      if r.Claimed? {
        tasks := tasks[(ws, id) := t.(state := t.state.(assignee := Some(r.assignee), status := r.status))];
      }
    }

    method UnclaimTask(ws: string, id: string, actor: Actor, next: Status) returns (r: Outcome)
      modifies this`tasks
      ensures r.TaskOk? <==> (ws, id) in old(tasks) && old(tasks)[(ws, id)].state.assignee == Some(actor)
      ensures r.TaskMissing? <==> (ws, id) !in old(tasks)
      ensures tasks == if r.TaskOk? then old(tasks)[(ws, id) := old(tasks)[(ws, id)].(state := r.task)] else old(tasks)
      ensures r.TaskOk? ==> r.task == Task(None, next, old(tasks)[(ws, id)].state.system)
    {
      if (ws, id) !in tasks {
        return TaskMissing;
      }
      var t := tasks[(ws, id)];
      if t.state.assignee != Some(actor) {
        return TaskConflict;
      }
      var updated := t.state.(assignee := None, status := next);
      tasks := tasks[(ws, id) := t.(state := updated)];
      return TaskOk(updated);
    }

    method UpdateTaskStatus(ws: string, id: string, expected: Option<Actor>, next: Status) returns (r: Outcome)
      modifies this`tasks
      ensures r.TaskOk? <==> (ws, id) in old(tasks) && old(tasks)[(ws, id)].state.assignee == expected
      ensures r.TaskMissing? <==> (ws, id) !in old(tasks)
      ensures tasks == if r.TaskOk? then old(tasks)[(ws, id) := old(tasks)[(ws, id)].(state := r.task)] else old(tasks)
      ensures r.TaskOk? ==> r.task == Task(expected, next, old(tasks)[(ws, id)].state.system)
    {
      if (ws, id) !in tasks {
        return TaskMissing;
      }
      var t := tasks[(ws, id)];
      if t.state.assignee != expected {
        return TaskConflict;
      }
      var updated := t.state.(status := next);
      tasks := tasks[(ws, id) := t.(state := updated)];
      return TaskOk(updated);
    }

    method AssignTask(ws: string, id: string, to: Actor) returns (r: Outcome)
      modifies this`tasks
      ensures r.TaskMissing? <==> (ws, id) !in old(tasks)
      ensures r.TaskConflict? <==> (ws, id) in old(tasks) && (old(tasks)[(ws, id)].state.system || old(tasks)[(ws, id)].state.status == Done)
      ensures tasks == if r.TaskOk? then old(tasks)[(ws, id) := old(tasks)[(ws, id)].(state := r.task)] else old(tasks)
      ensures r.TaskOk? ==> r.task == Task(Some(to), if old(tasks)[(ws, id)].state.status == Todo then InProgress else old(tasks)[(ws, id)].state.status, false)
    {
      if (ws, id) !in tasks {
        return TaskMissing;
      }
      var t := tasks[(ws, id)];
      if t.state.system || t.state.status == Done {
        return TaskConflict;
      }
      var updated := t.state.(assignee := Some(to), status := Started(t.state.status));
      tasks := tasks[(ws, id) := t.(state := updated)];
      return TaskOk(updated);
    }
  }
}
