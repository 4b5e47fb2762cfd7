/** The control-plane hub: connections per workspace, routing, round robin, and pending requests. */
module Hub {
  import opened Basics
  import opened Text

  datatype Conn = Conn(id: string, machine: string)

  datatype Reason = Mention | Reminder | Triage | Broadcast

  datatype WakeInfo = WakeInfo(seqNo: Option<nat>, sender: Text, content: Text, threadId: Option<Text>)

  datatype Control =
    | AgentStart(handle: Text, channel: Text, reason: Reason, wake: Option<WakeInfo>)
    | FsRequest(kind: string, reqId: string, target: string, path: string)

  /** A control message that went out on a connection. */
  datatype Delivery = Delivery(conn: Conn, msg: Control)

  function OnMachine(conns: seq<Conn>, machine: string): seq<Conn> {
    Filter(conns, (c: Conn) => c.machine == machine)
  }

  /** The first of these connections that belongs to the machine. */
  ghost predicate FirstOn(conns: seq<Conn>, machine: string, conn: Conn) {
    exists k :: 0 <= k < |conns| && conns[k] == conn && conn.machine == machine && forall j :: 0 <= j < k ==> conns[j].machine != machine
  }

  lemma FirstStays(conns: seq<Conn>, c: Conn, machine: string, conn: Conn)
    requires FirstOn(conns, machine, conn)
    ensures FirstOn(conns + [c], machine, conn)
  {
    var k :| 0 <= k < |conns| && conns[k] == conn && forall j :: 0 <= j < k ==> conns[j].machine != machine;
    assert (conns + [c])[k] == conn;
  }

  lemma FirstNew(conns: seq<Conn>, c: Conn)
    requires forall x :: x in conns ==> x.machine != c.machine
    ensures FirstOn(conns + [c], c.machine, c)
  {
    var all := conns + [c];
    assert forall j :: 0 <= j < |conns| ==> all[j] in conns;
    assert all[|conns|] == c;
  }

  lemma {:induction false} HeadIsFirst(conns: seq<Conn>, machine: string)
    requires OnMachine(conns, machine) != []
    ensures FirstOn(conns, machine, OnMachine(conns, machine)[0])
  {
    var init, c := conns[..|conns| - 1], conns[|conns| - 1];
    assert conns == init + [c];
    if OnMachine(init, machine) != [] {
      HeadIsFirst(init, machine);
      FirstStays(init, c, machine, OnMachine(init, machine)[0]);
    } else {
      assert forall x :: x in init && x.machine == machine ==> x in OnMachine(init, machine);
      FirstNew(init, c);
    }
  }

  // ---- round robin ----

  /** The cursor after a dispatch among `n` connections; it may start beyond them. */
  function NextCursor(cursor: nat, n: nat): nat
    requires n > 0
  {
    cursor % n + 1
  }

  function Cursor(start: nat, n: nat, calls: nat): nat
    requires n > 0
  {
    if calls == 0 then start else NextCursor(Cursor(start, n, calls - 1), n)
  }

  /** The connections picked by consecutive dispatches. */
  function Picks(start: nat, n: nat, calls: nat): seq<nat>
    requires n > 0
  {
    if calls == 0 then [] else Picks(start, n, calls - 1) + [Cursor(start, n, calls - 1) % n]
  }

  function Hits(picks: seq<nat>, k: nat): nat {
    if picks == [] then 0
    else Hits(picks[..|picks| - 1], k) + (if picks[|picks| - 1] == k then 1 else 0)
  }

  lemma DivModUnique(x: int, n: int, q: int, r: int)
    requires n > 0 && x == q * n + r && 0 <= r < n
    ensures x / n == q && x % n == r
  {
    var d := x / n - q;
    assert d * n == r - x % n by {
      assert x == (x / n) * n + x % n;
      assert (x / n - q) * n == (x / n) * n - q * n;
    }
    assert d >= 1 ==> d * n >= n;
    assert d <= -1 ==> d * n <= -n;
  }

  lemma NextDivMod(m: nat, n: nat)
    requires n > 0
    ensures m % n + 1 < n ==> (m + 1) / n == m / n && (m + 1) % n == m % n + 1
    ensures m % n + 1 == n ==> (m + 1) / n == m / n + 1 && (m + 1) % n == 0
  {
    var q, r := m / n, m % n;
    assert m == q * n + r;
    if r + 1 < n {
      DivModUnique(m + 1, n, q, r + 1);
    } else {
      assert (q + 1) * n == q * n + n;
      DivModUnique(m + 1, n, q + 1, 0);
    }
  }

  /** How far after the first picked connection number `k` comes. */
  function Distance(start: nat, n: nat, k: nat): nat
    requires n > 0 && k < n
  {
    if start % n <= k then k - start % n else k + n - start % n
  }

  lemma {:induction false} PickPosition(start: nat, n: nat, calls: nat)
    requires n > 0
    ensures var p := start % n + calls % n;
            Cursor(start, n, calls) % n == if p < n then p else p - n
  {
    if calls == 0 {
      DivModUnique(0, n, 0, 0);
    } else {
      PickPosition(start, n, calls - 1);
      NextDivMod(calls - 1, n);
      var c := Cursor(start, n, calls - 1) % n;
      if c + 1 < n {
        DivModUnique(c + 1, n, 0, c + 1);
      } else {
        DivModUnique(c + 1, n, 1, 0);
      }
    }
  }

  /**
   * Fairness: from any starting cursor, `calls` dispatches among `n` connections reach connection `k`
   * calls / n times, once more exactly when it is among the first calls % n in turn.
   */
  lemma {:induction false} RoundRobinIsFair(start: nat, n: nat, calls: nat, k: nat)
    requires k < n
    ensures Hits(Picks(start, n, calls), k) == calls / n + (if Distance(start, n, k) < calls % n then 1 else 0)
  {
    if calls == 0 {
      DivModUnique(0, n, 0, 0);
    } else {
      RoundRobinIsFair(start, n, calls - 1, k);
      PickPosition(start, n, calls - 1);
      NextDivMod(calls - 1, n);
      var ps := Picks(start, n, calls);
      assert ps[..calls - 1] == Picks(start, n, calls - 1) by {
        PicksLength(start, n, calls - 1);
      }
      assert ps[|ps| - 1] == Cursor(start, n, calls - 1) % n;
    }
  }

  lemma {:induction false} PicksLength(start: nat, n: nat, calls: nat)
    requires n > 0
    ensures |Picks(start, n, calls)| == calls
  {
    if calls > 0 {
      PicksLength(start, n, calls - 1);
    }
  }

  // ---- request bookkeeping ----

  datatype Fate = Resolved | TimedOut | Offline

  datatype Settlement = Settlement(id: string, fate: Fate)

  /** `armed` are the ids whose timeout has not fired and has not been cleared. */
  datatype Book = Book(issued: nat, pending: set<string>, armed: set<string>, settled: seq<Settlement>)

  const EMPTY_BOOK := Book(0, {}, {}, [])

  function ReqId(n: nat): string {
    "req-" + Decimal(n)
  }

  function Issue(b: Book, online: bool): Book {
    var id := ReqId(b.issued + 1);
    if online then b.(issued := b.issued + 1, pending := b.pending + {id}, armed := b.armed + {id})
    else b.(issued := b.issued + 1, settled := b.settled + [Settlement(id, Offline)])
  }

  /** A response from a daemon; one for an id that is not pending is ignored. */
  function Respond(b: Book, id: string): Book {
    if id !in b.pending then b
    else b.(pending := b.pending - {id}, armed := b.armed - {id}, settled := b.settled + [Settlement(id, Resolved)])
  }

  /** The timeout callback of an armed timer; it deletes and rejects without looking. */
  function Expire(b: Book, id: string): Book {
    b.(pending := b.pending - {id}, armed := b.armed - {id}, settled := b.settled + [Settlement(id, TimedOut)])
  }

  datatype BookStep = IssueStep(online: bool) | RespondStep(id: string) | ExpireStep(id: string)

  function NextBook(b: Book, step: BookStep): Book {
    match step
    case IssueStep(online) => Issue(b, online)
    case RespondStep(id) => Respond(b, id)
    case ExpireStep(id) => if id in b.armed then Expire(b, id) else b
  }

  function RunBook(steps: seq<BookStep>): Book {
    if steps == [] then EMPTY_BOOK else NextBook(RunBook(steps[..|steps| - 1]), steps[|steps| - 1])
  }

  ghost predicate WasIssued(b: Book, id: string) {
    exists k: nat :: 1 <= k <= b.issued && ReqId(k) == id
  }

  ghost predicate BookInv(b: Book) {
    && b.armed == b.pending
    && b.issued == |b.pending| + |b.settled|
    && (forall id :: id in b.pending ==> WasIssued(b, id))
    && (forall i :: 0 <= i < |b.settled| ==> WasIssued(b, b.settled[i].id) && b.settled[i].id !in b.pending)
    && (forall i, j :: 0 <= i < j < |b.settled| ==> b.settled[i].id != b.settled[j].id)
  }

  lemma ReqIdInjective(a: nat, b: nat)
    requires ReqId(a) == ReqId(b)
    ensures a == b
  {
    assert ReqId(a)[4..] == Decimal(a) && ReqId(b)[4..] == Decimal(b);
    DecimalInjective(a, b);
  }

  lemma FreshId(b: Book)
    ensures !WasIssued(b, ReqId(b.issued + 1))
  {
    forall k: nat | 1 <= k <= b.issued ensures ReqId(k) != ReqId(b.issued + 1) {
      if ReqId(k) == ReqId(b.issued + 1) {
        ReqIdInjective(k, b.issued + 1);
      }
    }
  }

  lemma IssueKeeps(b: Book, online: bool)
    requires BookInv(b)
    ensures BookInv(Issue(b, online))
  {
    var c, id := Issue(b, online), ReqId(b.issued + 1);
    FreshId(b);
    assert id !in b.pending;
    if !online {
      assert c.settled[..|b.settled|] == b.settled && c.settled[|b.settled|].id == id;
      assert forall i :: 0 <= i < |b.settled| ==> c.settled[i] == b.settled[i];
    }
  }

  lemma SettleKeeps(b: Book, id: string, fate: Fate)
    requires BookInv(b) && id in b.pending
    ensures BookInv(b.(pending := b.pending - {id}, armed := b.armed - {id}, settled := b.settled + [Settlement(id, fate)]))
  {
    var c := b.(pending := b.pending - {id}, armed := b.armed - {id}, settled := b.settled + [Settlement(id, fate)]);
    forall x | WasIssued(b, x) ensures WasIssued(c, x) {}
  }

  lemma {:induction false} RunKeepsBook(steps: seq<BookStep>)
    ensures BookInv(RunBook(steps))
  {
    if steps != [] {
      var b, step := RunBook(steps[..|steps| - 1]), steps[|steps| - 1];
      RunKeepsBook(steps[..|steps| - 1]);
      match step
      case IssueStep(online) => IssueKeeps(b, online);
      case RespondStep(id) => if id in b.pending { SettleKeeps(b, id, Resolved); }
      case ExpireStep(id) => if id in b.armed { SettleKeeps(b, id, TimedOut); }
    }
  }

  function WithFate(settled: seq<Settlement>, fate: Fate): nat {
    if settled == [] then 0
    else WithFate(settled[..|settled| - 1], fate) + (if settled[|settled| - 1].fate == fate then 1 else 0)
  }

  lemma {:induction false} FatesAddUp(settled: seq<Settlement>)
    ensures |settled| == WithFate(settled, Resolved) + WithFate(settled, TimedOut) + WithFate(settled, Offline)
  {
    if settled != [] {
      FatesAddUp(settled[..|settled| - 1]);
    }
  }

  /**
   * Over every run: nothing issued is lost, no id is settled twice or settled while pending, an armed
   * timer always finds its request, and a new id was never used before.
   */
  lemma RequestsAreConserved(steps: seq<BookStep>)
    ensures var b := RunBook(steps);
            && b.issued == |b.pending| + WithFate(b.settled, Resolved) + WithFate(b.settled, TimedOut) + WithFate(b.settled, Offline)
            && (forall i, j :: 0 <= i < j < |b.settled| ==> b.settled[i].id != b.settled[j].id)
            && (forall i :: 0 <= i < |b.settled| ==> b.settled[i].id !in b.pending)
            && b.armed == b.pending
            && ReqId(b.issued + 1) !in b.pending
            && (forall i :: 0 <= i < |b.settled| ==> b.settled[i].id != ReqId(b.issued + 1))
  {
    RunKeepsBook(steps);
    FatesAddUp(RunBook(steps).settled);
    FreshId(RunBook(steps));
  }

  /** A response or timeout for a settled id, or for one never issued, changes nothing. */
  lemma LateAnswersAreIgnored(steps: seq<BookStep>, id: string)
    requires (exists i :: 0 <= i < |RunBook(steps).settled| && RunBook(steps).settled[i].id == id) || !WasIssued(RunBook(steps), id)
    ensures NextBook(RunBook(steps), RespondStep(id)) == RunBook(steps)
    ensures NextBook(RunBook(steps), ExpireStep(id)) == RunBook(steps)
  {
    RunKeepsBook(steps);
  }

  // ---- what becomes of one request ----

  function Issues(steps: seq<BookStep>): nat {
    if steps == [] then 0 else Issues(steps[..|steps| - 1]) + (if steps[|steps| - 1].IssueStep? then 1 else 0)
  }

  lemma {:induction false} IssuedCounts(steps: seq<BookStep>)
    ensures RunBook(steps).issued == Issues(steps)
  {
    if steps != [] {
      IssuedCounts(steps[..|steps| - 1]);
    }
  }

  /** A step that could settle the request with this id. */
  predicate Concerns(step: BookStep, id: string) {
    step == RespondStep(id) || step == ExpireStep(id)
  }

  ghost predicate SettledAs(b: Book, id: string, fate: Fate) {
    Settlement(id, fate) in b.settled && id !in b.pending
  }

  lemma SettledStays(b: Book, step: BookStep, id: string, fate: Fate)
    requires BookInv(b) && SettledAs(b, id, fate)
    ensures SettledAs(NextBook(b, step), id, fate)
  {
    FreshId(b);
    var i :| 0 <= i < |b.settled| && b.settled[i] == Settlement(id, fate);
    assert WasIssued(b, b.settled[i].id);
    assert NextBook(b, step).settled[i] == b.settled[i];
  }

  lemma RequestIssued(b: Book, online: bool)
    requires BookInv(b)
    ensures var c, id := Issue(b, online), ReqId(b.issued + 1);
            if online then id in c.pending else SettledAs(c, id, Offline)
  {
    FreshId(b);
    var c, id := Issue(b, online), ReqId(b.issued + 1);
    if !online {
      assert c.settled[|b.settled|] == Settlement(id, Offline);
    }
  }

  /** Where a request stands: offline, still pending, or settled by what answered it. */
  ghost predicate Stands(b: Book, id: string, online: bool, answer: Option<Fate>) {
    if !online then SettledAs(b, id, Offline)
    else match answer
         case None => id in b.pending
         case Some(fate) => SettledAs(b, id, fate)
  }

  lemma StandsOn(b: Book, step: BookStep, id: string, online: bool, answer: Option<Fate>)
    requires BookInv(b) && Stands(b, id, online, answer) && (online && answer == None ==> !Concerns(step, id))
    ensures Stands(NextBook(b, step), id, online, answer)
  {
    if online && answer == None {
    } else {
      SettledStays(b, step, id, if online then answer.value else Offline);
    }
  }

  function FateOf(step: BookStep): Fate {
    if step.ExpireStep? then TimedOut else Resolved
  }

  /**
   * The fate of the request that step `i` issues, in every run: offline at once when its machine is not connected;
   * otherwise pending until step `j`, the first response or timeout for it, which settles it for good as what it is.
   */
  lemma {:induction false} FirstAnswerDecides(steps: seq<BookStep>, i: nat, j: nat, id: string)
    requires i < j <= |steps| && steps[i].IssueStep? && id == "req-" + Decimal(Issues(steps[..i]) + 1)
    requires (forall k :: i < k < j ==> !Concerns(steps[k], id)) && (j < |steps| ==> Concerns(steps[j], id))
    ensures Stands(RunBook(steps), id, steps[i].online, if j == |steps| then None else Some(FateOf(steps[j])))
  {
    var n, online := |steps| - 1, steps[i].online;
    if i == n {
      JustIssued(steps, id);
    } else {
      assert steps[..n][..i] == steps[..i];
      FirstAnswerDecides(steps[..n], i, Min(j, n), id);
      if online && j == n {
        JustAnswered(steps, id);
      } else {
        LaterStep(steps, id, online, if j >= n then None else Some(FateOf(steps[j])));
      }
    }
  }

  lemma JustIssued(steps: seq<BookStep>, id: string)
    requires steps != [] && steps[|steps| - 1].IssueStep? && id == "req-" + Decimal(Issues(steps[..|steps| - 1]) + 1)
    ensures Stands(RunBook(steps), id, steps[|steps| - 1].online, None)
  {
    var before := steps[..|steps| - 1];
    RunKeepsBook(before);
    IssuedCounts(before);
    RequestIssued(RunBook(before), steps[|steps| - 1].online);
  }

  lemma JustAnswered(steps: seq<BookStep>, id: string)
    requires steps != [] && Concerns(steps[|steps| - 1], id) && id in RunBook(steps[..|steps| - 1]).pending
    ensures SettledAs(RunBook(steps), id, FateOf(steps[|steps| - 1]))
  {
    RunKeepsBook(steps[..|steps| - 1]);
  }

  lemma LaterStep(steps: seq<BookStep>, id: string, online: bool, answer: Option<Fate>)
    requires steps != [] && Stands(RunBook(steps[..|steps| - 1]), id, online, answer)
    requires online && answer == None ==> !Concerns(steps[|steps| - 1], id)
    ensures Stands(RunBook(steps), id, online, answer)
  {
    RunKeepsBook(steps[..|steps| - 1]);
    StandsOn(RunBook(steps[..|steps| - 1]), steps[|steps| - 1], id, online, answer);
  }

  // ---- the hub object ----

  class DaemonHub {
    var byWorkspace: map<string, seq<Conn>>
    var rr: map<string, nat>
    var pending: set<string>
    var reqSeq: nat
    ghost var book: Book
    /** What went out on the connections, in order. */
    var sent: seq<Delivery>

    ghost predicate Valid()
      reads this
    {
      && (forall ws :: ws in byWorkspace ==> byWorkspace[ws] != [])
      && BookInv(book) && book.issued == reqSeq && book.pending == pending
    }

    function Conns(ws: string): seq<Conn>
      reads this
    {
      Get(byWorkspace, ws, [])
    }

    constructor ()
      ensures Valid() && byWorkspace == map[] && book == EMPTY_BOOK && sent == []
    {
      byWorkspace, rr, pending, reqSeq := map[], map[], {}, 0;
      book, sent := EMPTY_BOOK, [];
    }

    method Register(ws: string, connId: string, machine: string)
      requires Valid()
      modifies this`byWorkspace
      ensures Valid()
      ensures byWorkspace == old(byWorkspace)[ws := old(Conns(ws)) + [Conn(connId, machine)]]
    {
      byWorkspace := byWorkspace[ws := Conns(ws) + [Conn(connId, machine)]];
    }

    /** The function that `register` returns: drops the connection, and the workspace with its last one. */
    method Unregister(ws: string, connId: string)
      requires Valid()
      modifies this`byWorkspace
      ensures Valid()
      ensures Conns(ws) == Filter(old(Conns(ws)), (c: Conn) => c.id != connId)
      ensures forall w :: w != ws ==> Conns(w) == old(Conns(w))
    {
      var next := Filter(Conns(ws), (c: Conn) => c.id != connId);
      if next != [] {
        byWorkspace := byWorkspace[ws := next];
      } else {
        byWorkspace := byWorkspace - {ws};
      }
    }

    method DispatchToMachine(ws: string, machine: string, msg: Control) returns (delivered: bool)
      requires Valid()
      modifies this`sent
      ensures Valid()
      ensures delivered <==> exists c :: c in Conns(ws) && c.machine == machine
      ensures sent == if delivered then old(sent) + [Delivery(OnMachine(Conns(ws), machine)[0], msg)] else old(sent)
      ensures delivered ==> FirstOn(Conns(ws), machine, OnMachine(Conns(ws), machine)[0])
    {
      var conns := OnMachine(Conns(ws), machine);
      if |conns| == 0 {
        return false;
      }
      assert conns[0] in conns;
      HeadIsFirst(Conns(ws), machine);
      sent := sent + [Delivery(conns[0], msg)];
      return true;
    }

    method DispatchAny(ws: string, msg: Control) returns (delivered: bool)
      requires Valid()
      modifies this`sent, this`rr
      ensures Valid()
      ensures delivered <==> Conns(ws) != []
      ensures !delivered ==> sent == old(sent) && rr == old(rr)
      ensures delivered ==>
        var n, r := |Conns(ws)|, Get(old(rr), ws, 0);
        && sent == old(sent) + [Delivery(Conns(ws)[r % n], msg)]
        && rr == old(rr)[ws := r % n + 1] && r % n + 1 == NextCursor(r, n)
    {
      var list := Conns(ws);
      if |list| == 0 {
        return false;
      }
      var i := Get(rr, ws, 0) % |list|;
      rr := rr[ws := i + 1];
      sent := sent + [Delivery(list[i], msg)];
      return true;
    }

    /** Numbers the request even when the machine turns out to be offline. */
    method Request(ws: string, machine: string, kind: string, target: string, path: string) returns (reqId: string, online: bool)
      requires Valid()
      modifies this`reqSeq, this`pending, this`book, this`sent
      ensures Valid()
      ensures reqId == ReqId(reqSeq) && reqSeq == old(reqSeq) + 1
      ensures online <==> exists c :: c in Conns(ws) && c.machine == machine
      ensures book == Issue(old(book), online)
      ensures sent == if online then old(sent) + [Delivery(OnMachine(Conns(ws), machine)[0], FsRequest(kind, reqId, target, path))] else old(sent)
      ensures online ==> FirstOn(Conns(ws), machine, OnMachine(Conns(ws), machine)[0])
      ensures pending == (if online then old(pending) + {reqId} else old(pending)) && reqId !in old(pending)
      ensures reqId == "req-" + Decimal(old(reqSeq) + 1)
    {
      FreshId(book);
      reqSeq := reqSeq + 1;
      reqId := ReqId(reqSeq);
      var conns := OnMachine(Conns(ws), machine);
      online := |conns| != 0;
      IssueKeeps(book, online);
      book := Issue(book, online);
      if online {
        assert conns[0] in conns;
        HeadIsFirst(Conns(ws), machine);
        pending := pending + {reqId};
        sent := sent + [Delivery(conns[0], FsRequest(kind, reqId, target, path))];
      }
    }

    method ResolveRequest(reqId: string) returns (found: bool)
      requires Valid()
      modifies this`pending, this`book
      ensures Valid() && found == (reqId in old(pending)) && book == Respond(old(book), reqId)
      ensures pending == old(pending) - {reqId}
      ensures book.settled == if found then old(book.settled) + [Settlement(reqId, Resolved)] else old(book.settled)
    {
      if reqId !in pending {
        return false;
      }
      SettleKeeps(book, reqId, Resolved);
      book := Respond(book, reqId);
      pending := pending - {reqId};
      return true;
    }

    /** The timer callback of a request. */
    method TimeOut(reqId: string)
      requires Valid() && reqId in book.armed
      modifies this`pending, this`book
      ensures Valid() && book == Expire(old(book), reqId) && reqId in old(pending)
      ensures pending == old(pending) - {reqId} && book.settled == old(book.settled) + [Settlement(reqId, TimedOut)]
    {
      SettleKeeps(book, reqId, TimedOut);
      book := Expire(book, reqId);
      pending := pending - {reqId};
    }
  }
}
