/** Which agents a new message wakes, for what reason, and on which connection. */
module Wake {
  import opened Basics
  import opened Text
  import opened TaskRules
  import Mentions
  import opened Hub

  datatype WakeMessage = WakeMessage(
    channel: Text, content: Text, senderKind: ActorKind, senderId: Text,
    seqNo: Option<nat>, messageId: Option<Text>, threadParent: Option<Text>)

  datatype WakeAgent = WakeAgent(handle: Text, machine: Option<string>)

  /** Present and not empty. */
  predicate Truthy<T>(o: Option<seq<T>>) {
    o.Some? && o.value != []
  }

  predicate IsSelf(msg: WakeMessage, h: Text) {
    msg.senderKind == Agent && msg.senderId == h
  }

  function Handles(agents: seq<WakeAgent>): (r: seq<Text>)
    ensures forall h :: h in r <==> exists a :: a in agents && a.handle == h
  {
    if agents == [] then []
    else
      var n := |agents| - 1;
      assert forall a :: a in agents <==> a in agents[..n] || a == agents[n];
      Handles(agents[..n]) + [agents[n].handle]
  }

  function Mentioned(agents: seq<WakeAgent>, msg: WakeMessage): seq<Text> {
    Filter(Mentions.MentionedAgents(msg.content, Handles(agents)), h => !IsSelf(msg, h))
  }

  /** A human's message goes to the channel's agents as well, when their list is available. */
  function BroadcastTo(channelAgents: Option<seq<Text>>, msg: WakeMessage): seq<Text> {
    if msg.senderKind == Human && channelAgents.Some? then Filter(channelAgents.value, h => !IsSelf(msg, h)) else []
  }

  function Targets(agents: seq<WakeAgent>, channelAgents: Option<seq<Text>>, muted: Option<set<Text>>, msg: WakeMessage): seq<Text> {
    var all := Dedup(Mentioned(agents, msg) + BroadcastTo(channelAgents, msg));
    if Truthy(msg.threadParent) && muted.Some? then Filter(all, h => h !in muted.value) else all
  }

  function ReasonFor(agents: seq<WakeAgent>, msg: WakeMessage, h: Text): Reason {
    if h in Mentioned(agents, msg) then Mention else Broadcast
  }

  /** The machine of a handle; of several agents with one handle the last counts. */
  function MachineOf(agents: seq<WakeAgent>, h: Text): Option<string> {
    if agents == [] then None
    else if agents[|agents| - 1].handle == h then agents[|agents| - 1].machine
    else MachineOf(agents[..|agents| - 1], h)
  }

  /** The thread of the message, or the message itself as the root of one. */
  function ThreadAnchor(msg: WakeMessage): Option<Text> {
    var anchor := if msg.threadParent.Some? then msg.threadParent else msg.messageId;
    if Truthy(anchor) then anchor else None
  }

  function StartMessage(agents: seq<WakeAgent>, msg: WakeMessage, h: Text): Control {
    AgentStart(h, msg.channel, ReasonFor(agents, msg, h),
               Some(WakeInfo(msg.seqNo, msg.senderId, msg.content, ThreadAnchor(msg))))
  }

  /** Some connection can take the wake: one on the agent's machine, or any when it has none. */
  predicate Deliverable(conns: seq<Conn>, machine: Option<string>) {
    if Truthy(machine) then exists c :: c in conns && c.machine == machine.value else conns != []
  }

  /**
   * The fan-out is exact: each target once; the known agents that the text mentions and, for a human's
   * message, the channel's agents; never the author; never an agent that muted the thread.
   */
  lemma TargetsAreExact(agents: seq<WakeAgent>, channelAgents: Option<seq<Text>>, muted: Option<set<Text>>, msg: WakeMessage, h: Text)
    ensures NoDup(Targets(agents, channelAgents, muted, msg))
    ensures h in Targets(agents, channelAgents, muted, msg) <==>
            && ((h in Mentions.Mentions(msg.content) && exists a :: a in agents && a.handle == h)
                || (msg.senderKind == Human && channelAgents.Some? && h in channelAgents.value))
            && !(msg.senderKind == Agent && msg.senderId == h)
            && !(Truthy(msg.threadParent) && muted.Some? && h in muted.value)
    ensures h in Targets(agents, channelAgents, muted, msg) ==>
            (ReasonFor(agents, msg, h) == Mention <==> h in Mentions.Mentions(msg.content) && exists a :: a in agents && a.handle == h)
  {
    var all := Dedup(Mentioned(agents, msg) + BroadcastTo(channelAgents, msg));
    if muted.Some? {
      FilterNoDup(all, h => h !in muted.value);
    }
  }

  /** The author is spared, and so is an agent that muted the thread of the message. */
  predicate Wakeable(muted: Option<set<Text>>, msg: WakeMessage, h: Text) {
    && !(msg.senderKind == Agent && msg.senderId == h)
    && !(msg.threadParent.Some? && msg.threadParent.value != [] && muted.Some? && h in muted.value)
  }

  ghost predicate Names(agents: seq<WakeAgent>, msg: WakeMessage, h: Text) {
    h in Mentions.ParsedMentions(msg.content) && exists a :: a in agents && a.handle == h
  }

  function Spared(muted: Option<set<Text>>, msg: WakeMessage): Text -> bool {
    h => !(Truthy(msg.threadParent) && muted.Some? && h in muted.value)
  }

  function Other(msg: WakeMessage): Text -> bool {
    h => !IsSelf(msg, h)
  }

  function KnownTo(agents: seq<WakeAgent>): Text -> bool {
    h => h in Handles(agents)
  }

  lemma MentionedTargets(agents: seq<WakeAgent>, muted: Option<set<Text>>, msg: WakeMessage, p: Text -> bool)
    requires forall h :: h in Mentions.ParsedMentions(msg.content) ==> (p(h) <==> Names(agents, msg, h) && Wakeable(muted, msg, h))
    ensures Filter(Mentioned(agents, msg), Spared(muted, msg)) == Filter(Mentions.ParsedMentions(msg.content), p)
    ensures NoDup(Mentioned(agents, msg))
    ensures forall h :: h in Mentioned(agents, msg) <==> Names(agents, msg, h) && !IsSelf(msg, h)
  {
    var names := Mentions.ParsedMentions(msg.content);
    FilterAgree(names, h => h in Handles(agents), KnownTo(agents));
    FilterAgree(Filter(names, KnownTo(agents)), h => !IsSelf(msg, h), Other(msg));
    FilterThrice(names, KnownTo(agents), Other(msg), Spared(muted, msg), p);
    FilterNoDup(names, KnownTo(agents));
    FilterNoDup(Filter(names, KnownTo(agents)), Other(msg));
  }

  lemma BroadcastTargets(agents: seq<WakeAgent>, listed: seq<Text>, muted: Option<set<Text>>, msg: WakeMessage, p: Text -> bool)
    requires msg.senderKind == Human
    requires forall h :: h in listed ==> (p(h) <==> !Names(agents, msg, h) && Wakeable(muted, msg, h))
    requires forall h :: h in Mentioned(agents, msg) <==> Names(agents, msg, h) && !IsSelf(msg, h)
    ensures Filter(Filter(Dedup(BroadcastTo(Some(listed), msg)), NotIn(Mentioned(agents, msg))), Spared(muted, msg))
            == Filter(Dedup(listed), p)
  {
    FilterAgree(listed, h => !IsSelf(msg, h), Other(msg));
    DedupFilter(listed, Other(msg));
    FilterThrice(Dedup(listed), Other(msg), NotIn(Mentioned(agents, msg)), Spared(muted, msg), p);
  }

  lemma SparedTargets(agents: seq<WakeAgent>, channelAgents: Option<seq<Text>>, muted: Option<set<Text>>, msg: WakeMessage)
    ensures Targets(agents, channelAgents, muted, msg)
            == Filter(Dedup(Mentioned(agents, msg) + BroadcastTo(channelAgents, msg)), Spared(muted, msg))
  {
    var all := Dedup(Mentioned(agents, msg) + BroadcastTo(channelAgents, msg));
    if Truthy(msg.threadParent) && muted.Some? {
      FilterAgree(all, h => h !in muted.value, Spared(muted, msg));
    } else {
      FilterAll(all, Spared(muted, msg));
    }
  }

  /**
   * The targets, in order: the known agents that the text mentions, as first mentioned, then for a human's message
   * the channel's other agents, as first listed; all without the author and those who muted the thread. `p` and
   * `q` decide who these are.
   */
  lemma TargetsInOrder(agents: seq<WakeAgent>, channelAgents: Option<seq<Text>>, muted: Option<set<Text>>, msg: WakeMessage,
                       p: Text -> bool, q: Text -> bool)
    requires forall h :: p(h) <==> Names(agents, msg, h) && Wakeable(muted, msg, h)
    requires forall h :: q(h) <==> !Names(agents, msg, h) && Wakeable(muted, msg, h)
    ensures Targets(agents, channelAgents, muted, msg)
            == Filter(Mentions.ParsedMentions(msg.content), p)
               + (if msg.senderKind == Human && channelAgents.Some? then Filter(Dedup(channelAgents.value), q) else [])
  {
    var m, b := Mentioned(agents, msg), BroadcastTo(channelAgents, msg);
    SparedTargets(agents, channelAgents, muted, msg);
    MentionedTargets(agents, muted, msg, p);
    DedupOfDistinct(m);
    DedupConcat(m, b);
    FilterConcat(m, Filter(Dedup(b), NotIn(m)), Spared(muted, msg));
    if msg.senderKind == Human && channelAgents.Some? {
      BroadcastTargets(agents, channelAgents.value, muted, msg, q);
    }
  }

  /** A message of an agent wakes nobody it does not mention. */
  lemma AgentsDoNotBroadcast(agents: seq<WakeAgent>, channelAgents: Option<seq<Text>>, muted: Option<set<Text>>, msg: WakeMessage, h: Text)
    requires msg.senderKind != Human && h in Targets(agents, channelAgents, muted, msg)
    ensures h in Mentions.Mentions(msg.content) && ReasonFor(agents, msg, h) == Mention
  {
    TargetsAreExact(agents, channelAgents, muted, msg, h);
  }

  /** One wake: to the agent's machine when it has one, else round robin. */
  method SendWake(hub: DaemonHub, ws: string, machine: Option<string>, msg: Control) returns (sent: bool, ghost conn: Option<Conn>)
    requires hub.Valid()
    modifies hub`sent, hub`rr
    ensures hub.Valid() && sent == Deliverable(hub.Conns(ws), machine)
    ensures if sent then conn.Some? && hub.sent == old(hub.sent) + [Delivery(conn.value, msg)] else hub.sent == old(hub.sent)
    ensures sent ==> conn.value in hub.Conns(ws) && (Truthy(machine) ==> conn.value.machine == machine.value)
    ensures sent ==> conn.value == if Truthy(machine) then OnMachine(hub.Conns(ws), machine.value)[0]
                                   else hub.Conns(ws)[Get(old(hub.rr), ws, 0) % |hub.Conns(ws)|]
  {
    conn := None;
    if machine.Some? && machine.value != [] {
      sent := hub.DispatchToMachine(ws, machine.value, msg);
      if sent {
        conn := Some(OnMachine(hub.Conns(ws), machine.value)[0]);
        assert conn.value in OnMachine(hub.Conns(ws), machine.value);
      }
    } else {
      ghost var r := Get(hub.rr, ws, 0);
      sent := hub.DispatchAny(ws, msg);
      if sent {
        conn := Some(hub.Conns(ws)[r % |hub.Conns(ws)|]);
      }
    }
  }

  /** The wakes of one message: exactly one delivery for each woken agent, in order, on a connection that may carry it. */
  ghost predicate Delivered(agents: seq<WakeAgent>, conns: seq<Conn>, msg: WakeMessage, woken: seq<Text>, deliveries: seq<Delivery>) {
    && |deliveries| == |woken|
    && forall i :: 0 <= i < |woken| ==>
         && deliveries[i].msg == StartMessage(agents, msg, woken[i])
         && deliveries[i].conn in conns
         && (Truthy(MachineOf(agents, woken[i])) ==> deliveries[i].conn.machine == MachineOf(agents, woken[i]).value)
  }

  /** Agent `k` is the last with this handle and has a machine. */
  predicate LivesOn(agents: seq<WakeAgent>, k: nat, h: Text, machine: string) {
    && k < |agents| && agents[k].handle == h && agents[k].machine == Some(machine) && machine != []
    && forall j :: k < j < |agents| ==> agents[j].handle != h
  }

  lemma {:induction false} MachineOfLast(agents: seq<WakeAgent>, h: Text)
    ensures Truthy(MachineOf(agents, h)) ==> exists k: nat :: LivesOn(agents, k, h, MachineOf(agents, h).value)
    ensures forall k: nat, m :: LivesOn(agents, k, h, m) ==> MachineOf(agents, h) == Some(m)
  {
    if agents != [] {
      var n := |agents| - 1;
      MachineOfLast(agents[..n], h);
      forall k: nat, m | LivesOn(agents, k, h, m) ensures MachineOf(agents, h) == Some(m) {
        assert k < n ==> LivesOn(agents[..n], k, h, m);
      }
      if agents[n].handle == h {
        assert Truthy(agents[n].machine) ==> LivesOn(agents, n, h, agents[n].machine.value);
      } else if Truthy(MachineOf(agents[..n], h)) {
        var k: nat :| LivesOn(agents[..n], k, h, MachineOf(agents[..n], h).value);
        assert LivesOn(agents, k, h, MachineOf(agents, h).value);
      }
    }
  }

  /** What a wake tells the daemon: for whom, where, why, and in which thread, if any, to answer. */
  ghost predicate Announces(control: Control, agents: seq<WakeAgent>, msg: WakeMessage, h: Text) {
    && control.AgentStart? && control.handle == h && control.channel == msg.channel && control.wake.Some?
    && control.reason == (if Names(agents, msg, h) then Mention else Broadcast)
    && control.wake.value.seqNo == msg.seqNo && control.wake.value.sender == msg.senderId && control.wake.value.content == msg.content
    && (msg.threadParent.Some? && msg.threadParent.value != [] ==> control.wake.value.threadId == msg.threadParent)
    && (msg.threadParent == Some([]) ==> control.wake.value.threadId == None)
    && (msg.threadParent == None ==>
          control.wake.value.threadId == if msg.messageId == Some([]) then None else msg.messageId)
  }

  lemma StartAnnounces(agents: seq<WakeAgent>, channelAgents: Option<seq<Text>>, muted: Option<set<Text>>, msg: WakeMessage, h: Text)
    requires h in Targets(agents, channelAgents, muted, msg)
    ensures Announces(StartMessage(agents, msg, h), agents, msg, h)
  {
    TargetsAreExact(agents, channelAgents, muted, msg, h);
  }

  /** The agent's machine is connected, or it has none and anything is connected. */
  ghost predicate Reachable(agents: seq<WakeAgent>, conns: seq<Conn>, h: Text) {
    && (forall k: nat, m :: LivesOn(agents, k, h, m) ==> exists c :: c in conns && c.machine == m)
    && ((forall k: nat, m :: !LivesOn(agents, k, h, m)) ==> conns != [])
  }

  lemma ReachableIsDeliverable(agents: seq<WakeAgent>, conns: seq<Conn>, h: Text)
    ensures Deliverable(conns, MachineOf(agents, h)) <==> Reachable(agents, conns, h)
  {
    MachineOfLast(agents, h);
    if Truthy(MachineOf(agents, h)) {
      var k: nat :| LivesOn(agents, k, h, MachineOf(agents, h).value);
    }
  }

  /** Each woken agent's start went out on a connection of its own machine. */
  ghost predicate Routed(agents: seq<WakeAgent>, conns: seq<Conn>, msg: WakeMessage, woken: seq<Text>, deliveries: seq<Delivery>) {
    && |deliveries| == |woken|
    && (forall i :: 0 <= i < |woken| ==> deliveries[i].conn in conns && Announces(deliveries[i].msg, agents, msg, woken[i]))
    && (forall i, k: nat, m :: 0 <= i < |woken| && LivesOn(agents, k, woken[i], m) ==> deliveries[i].conn.machine == m)
  }

  lemma DeliveredIsRouted(agents: seq<WakeAgent>, channelAgents: Option<seq<Text>>, muted: Option<set<Text>>, conns: seq<Conn>,
                          msg: WakeMessage, woken: seq<Text>, deliveries: seq<Delivery>)
    requires woken == Filter(Targets(agents, channelAgents, muted, msg), h => Deliverable(conns, MachineOf(agents, h)))
    requires Delivered(agents, conns, msg, woken, deliveries)
    ensures Routed(agents, conns, msg, woken, deliveries)
    ensures forall h :: h in woken <==> h in Targets(agents, channelAgents, muted, msg) && Reachable(agents, conns, h)
  {
    forall i | 0 <= i < |woken| ensures Announces(deliveries[i].msg, agents, msg, woken[i]) {
      assert woken[i] in woken;
      StartAnnounces(agents, channelAgents, muted, msg, woken[i]);
    }
    forall i, k: nat, m | 0 <= i < |woken| && LivesOn(agents, k, woken[i], m) ensures deliveries[i].conn.machine == m {
      MachineOfLast(agents, woken[i]);
    }
    forall h ensures Deliverable(conns, MachineOf(agents, h)) <==> Reachable(agents, conns, h) {
      ReachableIsDeliverable(agents, conns, h);
    }
  }

  lemma DeliveredAfter(agents: seq<WakeAgent>, conns: seq<Conn>, msg: WakeMessage, woken: seq<Text>, deliveries: seq<Delivery>,
                       h: Text, c: Conn)
    requires Delivered(agents, conns, msg, woken, deliveries) && c in conns
    requires Truthy(MachineOf(agents, h)) ==> c.machine == MachineOf(agents, h).value
    ensures Delivered(agents, conns, msg, woken + [h], deliveries + [Delivery(c, StartMessage(agents, msg, h))])
  {
  }

  /** The dispatch loop of `onMessage`. */
  method OnMessage(hub: DaemonHub, ws: string, agents: seq<WakeAgent>, channelAgents: Option<seq<Text>>,
                   muted: Option<set<Text>>, msg: WakeMessage) returns (woken: seq<Text>, ghost deliveries: seq<Delivery>)
    requires hub.Valid()
    modifies hub`sent, hub`rr
    ensures hub.Valid()
    ensures var conns := old(hub.Conns(ws));
            && woken == Filter(Targets(agents, channelAgents, muted, msg), h => Deliverable(conns, MachineOf(agents, h)))
            && Delivered(agents, conns, msg, woken, deliveries)
    ensures Routed(agents, old(hub.Conns(ws)), msg, woken, deliveries)
    ensures forall h :: h in woken <==> h in Targets(agents, channelAgents, muted, msg) && Reachable(agents, old(hub.Conns(ws)), h)
    ensures hub.sent == old(hub.sent) + deliveries
  {
    var conns := hub.Conns(ws);
    var targets := Targets(agents, channelAgents, muted, msg);
    woken, deliveries := [], [];
    var i := 0;
    while i < |targets|
      invariant 0 <= i <= |targets|
      invariant hub.Valid() && hub.Conns(ws) == conns
      invariant woken == Filter(targets[..i], h => Deliverable(conns, MachineOf(agents, h)))
      invariant Delivered(agents, conns, msg, woken, deliveries)
      invariant hub.sent == old(hub.sent) + deliveries
    {
      var h := targets[i];
      var sent, conn := SendWake(hub, ws, MachineOf(agents, h), StartMessage(agents, msg, h));
      assert targets[..i + 1][..i] == targets[..i];
      if sent {
        ghost var c := conn.value;
        DeliveredAfter(agents, conns, msg, woken, deliveries, h, c);
        Assoc(old(hub.sent), deliveries, [Delivery(c, StartMessage(agents, msg, h))]);
        deliveries := deliveries + [Delivery(c, StartMessage(agents, msg, h))];
        woken := woken + [h];
      }
      i := i + 1;
    }
    assert targets[..|targets|] == targets;
    DeliveredIsRouted(agents, channelAgents, muted, conns, msg, woken, deliveries);
  }
}
