/**
 * Delivery of E2E texts on the direct path: the sender's offline queue (node/node.go), the receiver's REPLICA
 * branch (node/node_p2p.go) and acknowledgements (node/node_service.go), over a network that loses, duplicates
 * and reorders.
 *
 * An event is one section under a mutex or one packet handed to a handler. A packet put on the network stays
 * there: handing it over twice is duplication, late is reordering, never is loss. Stores are the maps of
 * MessageStore.MapStep, which the real store refines; acknowledgement buffers are the slots of AckBatching.
 */
module Delivery {
  import opened Common
  import opened MessageStore
  import Acks = AckBatching

  type Peer = string

  datatype Text = Text(id: string, from: Peer, to: Peer, body: string, expiresAt: Time)

  datatype Packet = Data(text: Text) | Ack(refs: seq<string>, from: Peer, to: Peer)

  datatype Node = Node(
    memory: map<string, Message>,
    outbox: set<Text>,              // replicateMessage is running: stored, maybe sent, not yet enqueued
    pending: seq<Text>,             // pendingMessages
    snapshots: set<Text>,           // what some flushPending has copied and may still send
    toAck: multiset<(string, Peer)>,// handlers that have called memory.Add but not yet queueDelivered
    acks: Acks.Slots)

  const EMPTY_NODE := Node(map[], {}, [], {}, multiset{}, map[])

  datatype State = State(
    nodes: map<Peer, Node>,
    net: set<Packet>,
    composed: map<string, Text>,
    others: set<string>,            // ids of messages of any other kind
    received: set<(Peer, string)>,  // texts their recipient's store has accepted
    lapsed: set<(Peer, string)>)    // texts that have expired on the way to their recipient

  const INITIAL := State(map[], {}, map[], {}, {}, {})

  datatype Event =
    | Compose(text: Text, now: int)
    | Transmit(text: Text)
    | Enqueue(text: Text)
    | FlushStarts(at: Peer)
    | DataArrives(text: Text, now: int)
    | AckQueued(at: Peer, id: string, sender: Peer)
    | AckStep(at: Peer, peer: Peer, e: Acks.Event)
    | AckArrives(refs: seq<string>, from: Peer, to: Peer, ref: string)
    | StoreStep(at: Peer, op: Op)

  function NodeOf(s: State, p: Peer): Node {
    if p in s.nodes then s.nodes[p] else EMPTY_NODE
  }

  /** The message a text becomes in a store; E2E decryption gives back the text that was encrypted. */
  function MessageOf(t: Text, isOwn: bool): Message {
    Message(t.id, t.body, "", t.from, t.to, 0.5, Zero, t.expiresAt, "", 0, 0, isOwn, "text", "", 0, 0, false, false)
  }

  predicate Knows(s: State, t: Text) {
    t.id in s.composed && s.composed[t.id] == t
  }

  /** Ids come from a hash of text and time: a composed id is new, and no other message ever takes it. */
  predicate Enabled(s: State, e: Event) {
    match e
    case Compose(t, now) =>
      // The author's own store refuses an expired message, and then it is not sent.
      WellFormed(t) && t.id !in s.composed && t.id !in s.others && !Expired(MessageOf(t, true), now)
    case Transmit(t) => t in NodeOf(s, t.from).outbox || t in NodeOf(s, t.from).snapshots
    case Enqueue(t) => t in NodeOf(s, t.from).outbox
    case FlushStarts(at) => true
    case DataArrives(t, now) => Data(t) in s.net
    case AckQueued(at, id, sender) => (id, sender) in NodeOf(s, at).toAck
    case AckStep(at, peer, a) => !a.Queue?
    case AckArrives(refs, from, to, ref) => Ack(refs, from, to) in s.net && ref in refs
    case StoreStep(at, op) =>
      && (op.Add? ==> op.m.id !in s.composed)
      // Only chunks have their data cleared.
      && (op.ClearChunkData? ==> op.id !in s.composed)
  }

  function RemoveRef(pending: seq<Text>, ref: string): (r: seq<Text>)
    ensures forall t :: t in r <==> t in pending && t.id != ref
  {
    if pending == [] then []
    else
      var front := RemoveRef(pending[..|pending| - 1], ref);
      if pending[|pending| - 1].id != ref then front + [pending[|pending| - 1]] else front
  }

  /** What is left keeps its order: of two stretches of the queue, what is left of each. */
  lemma {:induction false} RemoveRefInOrder(a: seq<Text>, b: seq<Text>, ref: string)
    ensures RemoveRef(a + b, ref) == RemoveRef(a, ref) + RemoveRef(b, ref)
    ensures |b| == 1 ==> RemoveRef(b, ref) == if b[0].id == ref then [] else b
  {
    if b == [] {
      assert a + b == a;
    } else {
      assert (a + b)[..|a + b| - 1] == a + b[..|b| - 1];
      RemoveRefInOrder(a, b[..|b| - 1], ref);
    }
  }

  /** The batch an acknowledgement step hands to the network; a send that fails may still have got through. */
  function Outgoing(slot: Acks.Slot, a: Acks.Event): Option<seq<string>> {
    match a
    case SendSucceeds(i) => if i < |slot.inFlight| then Some(slot.inFlight[i]) else None
    case SendFails(i) => if i < |slot.inFlight| then Some(slot.inFlight[i]) else None
    case _ => None
  }

  /** The node an event happens at. */
  function At(e: Event): Peer {
    match e
    case Compose(t, now) => t.from
    case Transmit(t) => t.from
    case Enqueue(t) => t.from
    case FlushStarts(at) => at
    case DataArrives(t, now) => t.to
    case AckQueued(at, id, sender) => at
    case AckStep(at, peer, a) => at
    case AckArrives(refs, from, to, ref) => to
    case StoreStep(at, op) => at
  }

  function NodeAfter(n: Node, e: Event): Node {
    match e
    case Compose(t, now) =>
      n.(memory := MapStep(n.memory, Op.Add(MessageOf(t, true), now)), outbox := n.outbox + {t})
    case Transmit(t) => n
    case Enqueue(t) => n.(outbox := n.outbox - {t}, pending := n.pending + [t])
    case FlushStarts(at) => n.(snapshots := n.snapshots + set t | t in n.pending)
    // The acknowledgement is due whether or not the message was new.
    case DataArrives(t, now) =>
      n.(memory := MapStep(n.memory, Op.Add(MessageOf(t, false), now)), toAck := n.toAck + multiset{(t.id, t.from)})
    case AckQueued(at, id, sender) =>
      n.(toAck := n.toAck - multiset{(id, sender)}, acks := Acks.NodeNext(n.acks, sender, Acks.Queue(id)))
    case AckStep(at, peer, a) => n.(acks := Acks.NodeNext(n.acks, peer, a))
    case AckArrives(refs, from, to, ref) => n.(pending := RemoveRef(n.pending, ref))
    case StoreStep(at, op) => n.(memory := MapStep(n.memory, op))
  }

  /** What the event puts on the network. */
  function Sent(n: Node, e: Event): set<Packet> {
    match e
    case Transmit(t) => {Data(t)}
    case AckStep(at, peer, a) =>
      (match Outgoing(Acks.SlotOf(n.acks, peer), a)
       case Some(refs) => {Ack(refs, at, peer)}
       case None => {})
    case _ => {}
  }

  /** The recipient's store takes the text: on arrival, or on composing for a text to oneself. */
  predicate Accepts(n: Node, e: Event) {
    || (e.DataArrives? && e.text.id !in n.memory && !Expired(MessageOf(e.text, false), e.now))
    || (e.Compose? && e.text.to == e.text.from)
  }

  function Next(s: State, e: Event): State {
    if !Enabled(s, e) then s
    else
      var n := NodeOf(s, At(e));
      State(
        s.nodes[At(e) := NodeAfter(n, e)],
        s.net + Sent(n, e),
        if e.Compose? then s.composed[e.text.id := e.text] else s.composed,
        if e.StoreStep? && e.op.Add? then s.others + {e.op.m.id} else s.others,
        if Accepts(n, e) then s.received + {(e.text.to, e.text.id)} else s.received,
        if e.DataArrives? && Expired(MessageOf(e.text, false), e.now) then s.lapsed + {(e.text.to, e.text.id)}
        else s.lapsed)
  }

  function Run(s: State, events: seq<Event>): State
    decreases |events|
  {
    if events == [] then s else Next(Run(s, events[..|events| - 1]), events[|events| - 1])
  }

  // ---------- the invariant ----------

  predicate HasPending(s: State, t: Text) {
    t in NodeOf(s, t.from).outbox || t in NodeOf(s, t.from).pending
  }

  predicate Received(s: State, t: Text) {
    (t.to, t.id) in s.received
  }

  /** The recipient has stored the text, or it had expired when it arrived. */
  predicate Handled(s: State, t: Text) {
    (t.to, t.id) in s.received || (t.to, t.id) in s.lapsed
  }

  /** at may acknowledge id to peer: it is the recipient of that text from peer, and has handled it. */
  predicate MayAck(s: State, at: Peer, id: string, peer: Peer) {
    && id in s.composed && s.composed[id].id == id && s.composed[id].to == at && s.composed[id].from == peer
    && Handled(s, s.composed[id])
  }

  predicate WellFormed(t: Text) {
    t.id != "" && t.from != ""
  }

  /** No text is lost: until its recipient has stored it, its sender still has it queued. */
  ghost predicate NoLoss(s: State) {
    forall id :: id in s.composed ==> s.composed[id].id == id && WellFormed(s.composed[id])
                                      && (HasPending(s, s.composed[id]) || Handled(s, s.composed[id]))
                                      && (s.composed[id].to == s.composed[id].from ==> Received(s, s.composed[id]))
  }

  ghost predicate QueuesOk(s: State, p: Peer, n: Node) {
    forall t :: t in n.outbox || t in n.pending || t in n.snapshots ==> Knows(s, t) && t.from == p
  }

  ghost predicate ToAckOk(s: State, p: Peer, n: Node) {
    forall id, peer :: (id, peer) in n.toAck ==> MayAck(s, p, id, peer)
  }

  ghost predicate SlotOk(s: State, p: Peer, peer: Peer, slot: Acks.Slot) {
    Acks.Safe(slot) && forall id :: id in slot.queued ==> MayAck(s, p, id, peer)
  }

  ghost predicate SlotsOk(s: State, p: Peer, n: Node) {
    forall peer :: SlotOk(s, p, peer, Acks.SlotOf(n.acks, peer))
  }

  /** A text in a store is its author's own copy, or the recipient's, with the author and body it was composed with. */
  predicate CopyOk(s: State, p: Peer, t: Text, m: Message) {
    && m.id == t.id && m.text == t.body && m.sender == t.from && m.recipient == t.to
    && (p == t.from || (p == t.to && Received(s, t)))
  }

  ghost predicate StoreOk(s: State, p: Peer, v: map<string, Message>) {
    forall id :: id in v ==> if id in s.composed then CopyOk(s, p, s.composed[id], v[id]) else id in s.others
  }

  ghost predicate NodeOk(s: State, p: Peer, n: Node) {
    QueuesOk(s, p, n) && ToAckOk(s, p, n) && SlotsOk(s, p, n) && StoreOk(s, p, n.memory)
  }

  ghost predicate NodesOk(s: State) {
    forall p :: NodeOk(s, p, NodeOf(s, p))
  }

  ghost predicate AckOk(s: State, refs: seq<string>, from: Peer, to: Peer) {
    forall ref :: ref in refs ==> MayAck(s, from, ref, to)
  }

  ghost predicate NetOk(s: State) {
    && (forall t :: Data(t) in s.net ==> Knows(s, t))
    && (forall refs, from, to :: Ack(refs, from, to) in s.net ==> AckOk(s, refs, from, to))
  }

  ghost predicate Inv(s: State) {
    NoLoss(s) && NodesOk(s) && NetOk(s)
  }

  lemma InitialInv()
    ensures Inv(INITIAL)
  {
    Acks.EmptySlotSafe();
  }

  // ---------- one step ----------

  /** What a step may add to the record, and never take away. */
  ghost predicate Grows(s: State, s': State) {
    && (forall id :: id in s.composed ==> id in s'.composed && s'.composed[id] == s.composed[id])
    && (forall id :: id in s'.composed ==> id in s.composed || id !in s.others)
    && s.received <= s'.received && s.lapsed <= s'.lapsed && s.others <= s'.others
  }

  lemma NodeOkGrows(s: State, s': State, p: Peer, n: Node)
    requires Grows(s, s') && NodeOk(s, p, n)
    ensures NodeOk(s', p, n)
  {
    forall peer ensures SlotOk(s', p, peer, Acks.SlotOf(n.acks, peer)) {
      assert SlotOk(s, p, peer, Acks.SlotOf(n.acks, peer));
    }
  }

  lemma NetOkGrows(s: State, s': State)
    requires Grows(s, s') && NetOk(s)
    requires forall pkt :: pkt in s'.net && pkt !in s.net ==>
               if pkt.Data? then Knows(s', pkt.text) else AckOk(s', pkt.refs, pkt.from, pkt.to)
    ensures NetOk(s')
  {
    forall refs, from, to | Ack(refs, from, to) in s'.net ensures AckOk(s', refs, from, to) {
      if Ack(refs, from, to) in s.net {
        assert AckOk(s, refs, from, to);
      }
    }
  }

  lemma OnlyOneNode(s: State, s': State, at: Peer)
    requires Grows(s, s') && NodesOk(s)
    requires forall p :: p != at ==> NodeOf(s', p) == NodeOf(s, p)
    requires NodeOk(s', at, NodeOf(s', at))
    ensures NodesOk(s')
  {
    hide NodeOk, Grows, NodeOf;
    forall p ensures NodeOk(s', p, NodeOf(s', p)) {
      if p != at {
        NodeOkGrows(s, s', p, NodeOf(s, p));
      }
    }
  }

  /** A step keeps the invariant if it changes one node, keeps it in order, and loses no pending text. */
  lemma StepKeepsInv(s: State, s': State, at: Peer)
    requires Inv(s) && Grows(s, s')
    requires forall p :: p != at ==> NodeOf(s', p) == NodeOf(s, p)
    requires NodeOk(s', at, NodeOf(s', at))
    requires forall pkt :: pkt in s'.net && pkt !in s.net ==>
               if pkt.Data? then Knows(s', pkt.text) else AckOk(s', pkt.refs, pkt.from, pkt.to)
    requires NoLoss(s')
    ensures Inv(s')
  {
    hide NodeOk, Grows, NodeOf, AckOk, Knows, NoLoss;
    OnlyOneNode(s, s', at);
    NetOkGrows(s, s');
  }

  lemma PendingKept(s: State, s': State)
    requires NoLoss(s) && Grows(s, s')
    requires forall t :: HasPending(s, t) ==> HasPending(s', t) || Handled(s', t)
    requires forall id :: id in s'.composed && id !in s.composed ==>
               s'.composed[id].id == id && WellFormed(s'.composed[id]) && HasPending(s', s'.composed[id])
               && (s'.composed[id].to == s'.composed[id].from ==> Received(s', s'.composed[id]))
    ensures NoLoss(s')
  {
    hide HasPending;
  }

  /** What Next does, in terms the proofs below can use without unfolding it. */
  lemma Effect(s: State, e: Event)
    requires Enabled(s, e) && Inv(s)
    ensures var s', n := Next(s, e), NodeOf(s, At(e));
            && Grows(s, s')
            && (forall p :: p != At(e) ==> NodeOf(s', p) == NodeOf(s, p))
            && NodeOf(s', At(e)) == NodeAfter(n, e)
            && NodeOk(s', At(e), n)
            && s'.net == s.net + Sent(n, e)
            && (!e.Compose? ==> s'.composed == s.composed)
  {
    hide NodeAfter, Sent, NodeOk;
    NodeOkGrows(s, Next(s, e), At(e), NodeOf(s, At(e)));
  }

  /** An event that adds no text loses none if its node keeps every pending text, or it has been received. */
  lemma KeptAtNode(s: State, s': State, at: Peer)
    requires NoLoss(s) && Grows(s, s') && s'.composed == s.composed
    requires forall p :: p != at ==> NodeOf(s', p) == NodeOf(s, p)
    requires forall t :: HasPending(s, t) && t.from == at ==> HasPending(s', t) || Handled(s', t)
    ensures NoLoss(s')
  {
    PendingKept(s, s');
  }

  lemma ComposeKeepsNode(s: State, n: Node, t: Text, now: int)
    requires NodeOk(s, t.from, n) && Knows(s, t) && t.id !in n.memory
    ensures NodeOk(s, t.from, NodeAfter(n, Compose(t, now)))
  {
    hide SlotOk;
    var n' := NodeAfter(n, Compose(t, now));
    assert QueuesOk(s, t.from, n') && StoreOk(s, t.from, n'.memory);
  }

  lemma ComposeKeepsInv(s: State, t: Text, now: int)
    requires Inv(s) && Enabled(s, Compose(t, now))
    ensures Inv(Next(s, Compose(t, now)))
  {
    var e := Compose(t, now);
    var s', n, n' := Next(s, e), NodeOf(s, t.from), NodeAfter(NodeOf(s, t.from), e);
    Effect(s, e);
    assert t.id !in n.memory by {
      assert StoreOk(s, t.from, n.memory);
    }
    assert s'.composed == s.composed[t.id := t];
    hide Next, SlotsOk, NodeOf, NetOk;
    ComposeKeepsNode(s', n, t, now);
    assert HasPending(s', t) && (t.to == t.from ==> Received(s', t));
    assert forall u :: HasPending(s, u) ==> HasPending(s', u);
    PendingKept(s, s');
    StepKeepsInv(s, s', t.from);
  }

  lemma TransmitKeepsInv(s: State, t: Text)
    requires Inv(s) && Enabled(s, Transmit(t))
    ensures Inv(Next(s, Transmit(t)))
  {
    var s' := Next(s, Transmit(t));
    assert Knows(s, t) by {
      assert QueuesOk(s, t.from, NodeOf(s, t.from));
    }
    Effect(s, Transmit(t));
    hide Next, NodeOf, NodeOk;
    KeptAtNode(s, s', t.from);
    StepKeepsInv(s, s', t.from);
  }

  lemma EnqueueKeepsInv(s: State, t: Text)
    requires Inv(s) && Enabled(s, Enqueue(t))
    ensures Inv(Next(s, Enqueue(t)))
  {
    var s', n, n' := Next(s, Enqueue(t)), NodeOf(s, t.from), NodeAfter(NodeOf(s, t.from), Enqueue(t));
    Effect(s, Enqueue(t));
    hide Next, NodeOf, SlotsOk, StoreOk;
    assert forall u :: u in n'.pending <==> u in n.pending || u == t;
    assert QueuesOk(s', t.from, n');
    KeptAtNode(s, s', t.from);
    StepKeepsInv(s, s', t.from);
  }

  lemma FlushStartsKeepsInv(s: State, at: Peer)
    requires Inv(s)
    ensures Inv(Next(s, FlushStarts(at)))
  {
    var s', n' := Next(s, FlushStarts(at)), NodeAfter(NodeOf(s, at), FlushStarts(at));
    Effect(s, FlushStarts(at));
    hide Next, NodeOf, SlotsOk, StoreOk;
    assert QueuesOk(s', at, n');
    KeptAtNode(s, s', at);
    StepKeepsInv(s, s', at);
  }

  lemma DataArrivesKeepsInv(s: State, t: Text, now: int)
    requires Inv(s) && Enabled(s, DataArrives(t, now))
    ensures Inv(Next(s, DataArrives(t, now)))
    ensures Handled(Next(s, DataArrives(t, now)), t)
  {
    var e := DataArrives(t, now);
    var s', n, n' := Next(s, e), NodeOf(s, t.to), NodeAfter(NodeOf(s, t.to), e);
    assert Knows(s, t);
    Effect(s, e);
    ArrivalIsHandled(s, t, now);
    hide Next, SlotsOk, NodeOf, QueuesOk, NoLoss, NetOk, Grows;
    ArrivalKeepsStore(s', n, t, now);
    assert QueuesOk(s', t.to, n') && SlotsOk(s', t.to, n') by {
      QueuesOnly(s', t.to, n, n');
    }
    KeptAtNode(s, s', t.to);
    StepKeepsInv(s, s', t.to);
  }

  lemma QueuesOnly(s: State, p: Peer, n: Node, n': Node)
    requires QueuesOk(s, p, n) && SlotsOk(s, p, n)
    requires n'.outbox == n.outbox && n'.pending == n.pending && n'.snapshots == n.snapshots && n'.acks == n.acks
    ensures QueuesOk(s, p, n') && SlotsOk(s, p, n')
  {
  }

  lemma ArrivalIsHandled(s: State, t: Text, now: int)
    requires Inv(s) && Enabled(s, DataArrives(t, now))
    ensures var s', n := Next(s, DataArrives(t, now)), NodeOf(s, t.to);
            && Handled(s', t) && MayAck(s', t.to, t.id, t.from) && Knows(s', t)
            && (t.id in n.memory || !Expired(MessageOf(t, false), now) ==> Received(s', t))
  {
    var n := NodeOf(s, t.to);
    assert Knows(s, t);
    if t.id in n.memory {
      assert StoreOk(s, t.to, n.memory);
      assert CopyOk(s, t.to, t, n.memory[t.id]);
    }
  }

  /** The arriving text, once handled, keeps the store and the list of due acknowledgements in order. */
  lemma ArrivalKeepsStore(s: State, n: Node, t: Text, now: int)
    requires ToAckOk(s, t.to, n) && StoreOk(s, t.to, n.memory)
    requires Knows(s, t) && MayAck(s, t.to, t.id, t.from)
    requires t.id in n.memory || !Expired(MessageOf(t, false), now) ==> Received(s, t)
    ensures var n' := NodeAfter(n, DataArrives(t, now)); ToAckOk(s, t.to, n') && StoreOk(s, t.to, n'.memory)
  {
  }

  lemma OneSlotOk(s: State, p: Peer, n: Node, peer: Peer, slot: Acks.Slot)
    requires SlotsOk(s, p, n) && SlotOk(s, p, peer, slot)
    ensures SlotsOk(s, p, n.(acks := n.acks[peer := slot]))
  {
    var acks := n.acks[peer := slot];
    forall q ensures SlotOk(s, p, q, Acks.SlotOf(acks, q)) {
      assert SlotOk(s, p, q, Acks.SlotOf(n.acks, q));
    }
  }

  lemma AckQueuedKeepsInv(s: State, at: Peer, id: string, sender: Peer)
    requires Inv(s) && Enabled(s, AckQueued(at, id, sender))
    ensures Inv(Next(s, AckQueued(at, id, sender)))
  {
    var e := AckQueued(at, id, sender);
    var s', n := Next(s, e), NodeOf(s, at);
    Effect(s, e);
    assert MayAck(s', at, id, sender);
    hide Next, NodeOf, Grows, NoLoss, NetOk, NodeOk;
    AckQueuedKeepsNode(s', n, at, id, sender);
    KeptAtNode(s, s', at);
    StepKeepsInv(s, s', at);
  }

  lemma AckQueuedKeepsNode(s: State, n: Node, at: Peer, id: string, sender: Peer)
    requires NodeOk(s, at, n) && MayAck(s, at, id, sender)
    ensures NodeOk(s, at, NodeAfter(n, AckQueued(at, id, sender)))
  {
    var n' := NodeAfter(n, AckQueued(at, id, sender));
    var slot := Acks.SlotOf(n.acks, sender);
    assert SlotOk(s, at, sender, slot);
    hide SlotOk, StoreOk, QueuesOk, Acks.Next;
    QueueSlotOk(s, at, sender, slot, id);
    if sender != "" {
      OneSlotOk(s, at, n, sender, Acks.Next(slot, Acks.Queue(id)));
    }
    assert SlotsOk(s, at, n');
    assert forall t :: t in n'.toAck ==> t in n.toAck;
  }

  lemma QueueSlotOk(s: State, at: Peer, peer: Peer, slot: Acks.Slot, id: string)
    requires SlotOk(s, at, peer, slot) && MayAck(s, at, id, peer)
    ensures SlotOk(s, at, peer, Acks.Next(slot, Acks.Queue(id)))
  {
    Acks.NextKeepsSafe(slot, Acks.Queue(id));
    hide Acks.Safe;
    assert Acks.Next(slot, Acks.Queue(id)).queued <= slot.queued + {id};
  }

  lemma OutgoingQueued(slot: Acks.Slot, a: Acks.Event)
    requires Acks.Safe(slot) && !a.Queue?
    ensures Outgoing(slot, a).Some? ==> forall r :: r in Outgoing(slot, a).value ==> r in slot.queued
    ensures Acks.Next(slot, a).queued == slot.queued
  {
    match a
    case SendSucceeds(i) => if i < |slot.inFlight| { Acks.InFlightWithout(slot.inFlight, i); }
    case SendFails(i) => if i < |slot.inFlight| { Acks.InFlightWithout(slot.inFlight, i); }
    case _ =>
  }

  lemma AckStepKeepsInv(s: State, at: Peer, peer: Peer, a: Acks.Event)
    requires Inv(s) && Enabled(s, AckStep(at, peer, a))
    ensures Inv(Next(s, AckStep(at, peer, a)))
  {
    var e := AckStep(at, peer, a);
    var s', n, n' := Next(s, e), NodeOf(s, at), NodeAfter(NodeOf(s, at), e);
    Effect(s, e);
    var slot := Acks.SlotOf(n.acks, peer);
    assert SlotOk(s', at, peer, slot);
    hide Next, NodeOf, StoreOk, QueuesOk, Acks.Next, Acks.Safe, Outgoing, MayAck;
    Acks.NextKeepsSafe(slot, a);
    OutgoingQueued(slot, a);
    OneSlotOk(s', at, n, peer, Acks.Next(slot, a));
    KeptAtNode(s, s', at);
    StepKeepsInv(s, s', at);
  }

  lemma AckArrivesKeepsInv(s: State, refs: seq<string>, from: Peer, to: Peer, ref: string)
    requires Inv(s) && Enabled(s, AckArrives(refs, from, to, ref))
    ensures Inv(Next(s, AckArrives(refs, from, to, ref)))
  {
    var e := AckArrives(refs, from, to, ref);
    var s', n, n' := Next(s, e), NodeOf(s, to), NodeAfter(NodeOf(s, to), e);
    Effect(s, e);
    assert AckOk(s, refs, from, to);
    assert MayAck(s, from, ref, to);
    assert QueuesOk(s, to, n);
    hide Next, NodeOf, SlotsOk, StoreOk, RemoveRef;
    assert QueuesOk(s', to, n');
    assert forall t: Text :: t.id == ref && Knows(s, t) ==> Handled(s', t);
    KeptAtNode(s, s', to);
    StepKeepsInv(s, s', to);
  }

  /** No store operation other than Add makes an id present or changes who wrote what. */
  lemma MapStepKeepsTexts(v: map<string, Message>, op: Op, id: string)
    requires id in MapStep(v, op)
    requires (op.Add? ==> op.m.id != id) && (op.ClearChunkData? ==> op.id != id)
    ensures id in v
    ensures var m, m' := v[id], MapStep(v, op)[id];
            m'.id == m.id && m'.text == m.text && m'.sender == m.sender && m'.recipient == m.recipient
  {
  }

  lemma StoreStepKeepsInv(s: State, at: Peer, op: Op)
    requires Inv(s) && Enabled(s, StoreStep(at, op))
    ensures Inv(Next(s, StoreStep(at, op)))
  {
    hide MapStep;
    var e := StoreStep(at, op);
    var s', n, n' := Next(s, e), NodeOf(s, at), NodeAfter(NodeOf(s, at), e);
    Effect(s, e);
    assert s'.others == if op.Add? then s.others + {op.m.id} else s.others;
    hide Next, NodeOf, SlotsOk;
    forall id | id in n'.memory
      ensures if id in s'.composed then CopyOk(s', at, s'.composed[id], n'.memory[id]) else id in s'.others
    {
      if id in s.composed {
        MapStepKeepsTexts(n.memory, op, id);
      } else if !(op.Add? && op.m.id == id) {
        MapStepKeepsIds(n.memory, op, id);
      }
    }
    assert StoreOk(s', at, n'.memory);
    KeptAtNode(s, s', at);
    StepKeepsInv(s, s', at);
  }

  lemma MapStepKeepsIds(v: map<string, Message>, op: Op, id: string)
    requires id in MapStep(v, op) && (op.Add? ==> op.m.id != id)
    ensures id in v
  {
  }

  lemma NextKeepsInv(s: State, e: Event)
    requires Inv(s)
    ensures Inv(Next(s, e))
  {
    DisabledStays(s, e);
    hide Inv, Next, Enabled;
    if Enabled(s, e) {
      match e
      case Compose(t, now) => ComposeKeepsInv(s, t, now);
      case Transmit(t) => TransmitKeepsInv(s, t);
      case Enqueue(t) => EnqueueKeepsInv(s, t);
      case FlushStarts(at) => FlushStartsKeepsInv(s, at);
      case DataArrives(t, now) => DataArrivesKeepsInv(s, t, now);
      case AckQueued(at, id, sender) => AckQueuedKeepsInv(s, at, id, sender);
      case AckStep(at, peer, a) => AckStepKeepsInv(s, at, peer, a);
      case AckArrives(refs, from, to, ref) => AckArrivesKeepsInv(s, refs, from, to, ref);
      case StoreStep(at, op) => StoreStepKeepsInv(s, at, op);
    }
  }

  lemma DisabledStays(s: State, e: Event)
    ensures !Enabled(s, e) ==> Next(s, e) == s
  {
  }

  lemma {:induction false} RunKeepsInv(s: State, events: seq<Event>)
    requires Inv(s)
    ensures Inv(Run(s, events))
    decreases |events|
  {
    if events != [] {
      RunKeepsInv(s, events[..|events| - 1]);
      NextKeepsInv(Run(s, events[..|events| - 1]), events[|events| - 1]);
    }
  }

  /** What has lapsed had an expiry. */
  ghost predicate LapsedOk(s: State) {
    forall p, id :: (p, id) in s.lapsed ==> id in s.composed && s.composed[id].expiresAt.At?
  }

  lemma NextKeepsLapsed(s: State, e: Event)
    requires Inv(s) && LapsedOk(s)
    ensures LapsedOk(Next(s, e))
  {
    DisabledStays(s, e);
    if Enabled(s, e) {
      Effect(s, e);
      assert e.DataArrives? ==> Knows(s, e.text);
      hide NodeAfter, Sent, NodeOk, NodeOf, NoLoss, NodesOk;
    }
  }

  lemma {:induction false} RunKeepsLapsed(events: seq<Event>)
    ensures Inv(Run(INITIAL, events)) && LapsedOk(Run(INITIAL, events))
    decreases |events|
  {
    InitialInv();
    if events != [] {
      RunKeepsLapsed(events[..|events| - 1]);
      hide Inv, LapsedOk, Next;
      NextKeepsInv(Run(INITIAL, events[..|events| - 1]), events[|events| - 1]);
      NextKeepsLapsed(Run(INITIAL, events[..|events| - 1]), events[|events| - 1]);
    }
  }

  /**
   * Over every run: a composed text is still queued at its sender, or has been stored by its recipient, or had an
   * expiry and arrived too late; and a copy in the recipient's store has the author and body it was composed with.
   */
  lemma QueuedOrStored(events: seq<Event>, id: string)
    requires id in Run(INITIAL, events).composed
    ensures var s := Run(INITIAL, events);
            var t := s.composed[id];
            && (HasPending(s, t) || Received(s, t) || (t.expiresAt.At? && (t.to, t.id) in s.lapsed))
            && (id in NodeOf(s, t.to).memory ==>
                  NodeOf(s, t.to).memory[id].text == t.body && NodeOf(s, t.to).memory[id].sender == t.from)
  {
    RunKeepsLapsed(events);
    hide Run;
    var s := Run(INITIAL, events);
    assert NodeOk(s, s.composed[id].to, NodeOf(s, s.composed[id].to));
  }

  // ---------- stored at most once ----------

  predicate Present(s: State, p: Peer, id: string) {
    id in NodeOf(s, p).memory
  }

  /** The event is a successful Add of the text by the recipient's handler. */
  predicate StoresText(s: State, e: Event, p: Peer, id: string) {
    && e.DataArrives? && Enabled(s, e) && e.text.to == p && e.text.id == id && !Present(s, p, id)
    && !Expired(MessageOf(e.text, false), e.now)
  }

  function Stores(s: State, events: seq<Event>, p: Peer, id: string): nat
    decreases |events|
  {
    if events == [] then 0
    else
      var front, e := events[..|events| - 1], events[|events| - 1];
      Stores(s, front, p, id) + if StoresText(Run(s, front), e, p, id) then 1 else 0
  }

  /** How often the message left the store: removals, purges, expiry. */
  function Drops(s: State, events: seq<Event>, p: Peer, id: string): nat
    decreases |events|
  {
    if events == [] then 0
    else
      var front, e := events[..|events| - 1], events[|events| - 1];
      Drops(s, front, p, id)
      + if Present(Run(s, front), p, id) && !Present(Next(Run(s, front), e), p, id) then 1 else 0
  }

  lemma PresenceChanges(s: State, e: Event, p: Peer, id: string)
    requires Inv(s) && id in s.composed && p == s.composed[id].to
    ensures Present(Next(s, e), p, id) && !Present(s, p, id) <==> StoresText(s, e, p, id)
  {
    DisabledStays(s, e);
    if Enabled(s, e) {
      Effect(s, e);
      hide Next, NodeOf, NodeOk, Sent, MapStep;
      if At(e) == p {
        var v := NodeOf(s, p).memory;
        match e
        case Compose(t, now) => AddToMap(v, MessageOf(t, true), now);
        case DataArrives(t, now) => AddToMap(v, MessageOf(t, false), now);
        case StoreStep(at, op) =>
          if id in MapStep(v, op) {
            MapStepKeepsIds(v, op, id);
          }
        case _ =>
      }
    }
  }

  lemma AddToMap(v: map<string, Message>, m: Message, now: int)
    ensures MapStep(v, Op.Add(m, now)).Keys == if Expired(m, now) then v.Keys else v.Keys + {m.id}
  {
  }

  lemma ComposedStays(s: State, e: Event, id: string)
    requires id in s.composed
    ensures id in Next(s, e).composed && Next(s, e).composed[id] == s.composed[id]
  {
    hide Acks.NodeNext, RemoveRef, MapStep;
  }

  /**
   * From a state where a text exists, the recipient's stores and drops of it balance over any run: without a
   * drop it is stored at most once, and never again while it is there.
   */
  lemma {:induction false} StoresBalanceDrops(s: State, events: seq<Event>, id: string)
    requires Inv(s) && id in s.composed
    ensures var p := s.composed[id].to;
            && id in Run(s, events).composed && Run(s, events).composed[id] == s.composed[id]
            && Stores(s, events, p, id) + (if Present(s, p, id) then 1 else 0)
               == Drops(s, events, p, id) + (if Present(Run(s, events), p, id) then 1 else 0)
    decreases |events|
  {
    if events != [] {
      var front, e := events[..|events| - 1], events[|events| - 1];
      StoresBalanceDrops(s, front, id);
      RunKeepsInv(s, front);
      PresenceChanges(Run(s, front), e, s.composed[id].to, id);
      ComposedStays(Run(s, front), e, id);
    }
  }

  // ---------- no state is stuck ----------

  lemma {:induction false} RunAppend(s: State, a: seq<Event>, b: seq<Event>)
    ensures Run(s, a + b) == Run(Run(s, a), b)
    decreases |b|
  {
    if b == [] {
      assert a + b == a;
    } else {
      RunAppend(s, a, b[..|b| - 1]);
      assert (a + b)[..|a + b| - 1] == a + b[..|b| - 1];
    }
  }

  lemma RunOne(s: State, e: Event)
    ensures Run(s, [e]) == Next(s, e)
  {
    assert [e][..0] == [];
  }

  /** Runs e after the events so far. */
  lemma Then(s: State, done: seq<Event>, e: Event) returns (events: seq<Event>)
    requires Inv(Run(s, done))
    ensures events == done + [e] && Run(s, events) == Next(Run(s, done), e)
    ensures Inv(Run(s, events))
  {
    events := done + [e];
    RunAppend(s, done, [e]);
    RunOne(Run(s, done), e);
    NextKeepsInv(Run(s, done), e);
  }

  /** The acknowledgement slot evolves inside the system as it does on its own. */
  lemma {:induction false} SlotRuns(s: State, done: seq<Event>, at: Peer, peer: Peer, steps: seq<Acks.Event>)
    returns (events: seq<Event>)
    requires Inv(Run(s, done)) && forall a :: a in steps ==> !a.Queue?
    ensures Inv(Run(s, events))
    ensures Acks.SlotOf(NodeOf(Run(s, events), at).acks, peer)
            == Acks.Run(Acks.SlotOf(NodeOf(Run(s, done), at).acks, peer), steps)
    ensures Run(s, events).composed == Run(s, done).composed && Run(s, done).received <= Run(s, events).received
    decreases |steps|
  {
    if steps == [] {
      events := done;
    } else {
      var front, a := steps[..|steps| - 1], steps[|steps| - 1];
      assert a in steps;
      var before := SlotRuns(s, done, at, peer, front);
      events := Then(s, before, AckStep(at, peer, a));
      hide Run, Inv, Acks.Next;
      Effect(Run(s, before), AckStep(at, peer, a));
    }
  }

  lemma FlushCopies(s: State, t: Text)
    requires Inv(s) && Knows(s, t) && t in NodeOf(s, t.from).pending
    ensures t in NodeOf(Next(s, FlushStarts(t.from)), t.from).snapshots && Knows(Next(s, FlushStarts(t.from)), t)
  {
    Effect(s, FlushStarts(t.from));
    hide Next, NodeOk, NodeOf;
  }

  lemma CopySends(s: State, t: Text)
    requires Inv(s) && Knows(s, t) && t in NodeOf(s, t.from).snapshots
    ensures Data(t) in Next(s, Transmit(t)).net && Knows(Next(s, Transmit(t)), t)
  {
    Effect(s, Transmit(t));
    hide Next, NodeOk, NodeOf;
  }

  /** A time at which the text has not expired. */
  function InTime(t: Text): int {
    if t.expiresAt.At? then t.expiresAt.ns else 0
  }

  lemma ArrivalStores(s: State, t: Text)
    requires Inv(s) && Data(t) in s.net
    ensures var s' := Next(s, DataArrives(t, InTime(t)));
            Received(s', t) && Knows(s', t) && (t.id, t.from) in NodeOf(s', t.to).toAck
  {
    var e := DataArrives(t, InTime(t));
    assert Knows(s, t) && !Expired(MessageOf(t, false), InTime(t));
    ArrivalIsHandled(s, t, InTime(t));
    Effect(s, e);
    hide Next, NodeOk, NodeOf, MapStep;
  }

  lemma AckGetsQueued(s: State, t: Text)
    requires Inv(s) && Knows(s, t) && Received(s, t) && (t.id, t.from) in NodeOf(s, t.to).toAck
    ensures var s' := Next(s, AckQueued(t.to, t.id, t.from));
            Received(s', t) && Knows(s', t) && t.id in Acks.SlotOf(NodeOf(s', t.to).acks, t.from).pending
  {
    assert WellFormed(t);
    Effect(s, AckQueued(t.to, t.id, t.from));
    var slot := Acks.SlotOf(NodeOf(s, t.to).acks, t.from);
    assert t.id in Acks.Next(slot, Acks.Queue(t.id)).pending by {
      assert t.id !in slot.pending ==> (slot.pending + [t.id])[|slot.pending|] == t.id;
    }
    hide Next, NodeOk, NodeOf, Acks.Next;
  }

  lemma BatchGetsSent(s: State, t: Text, k: nat)
    requires Inv(s) && Received(s, t) && k < |Acks.SlotOf(NodeOf(s, t.to).acks, t.from).inFlight|
    ensures var s' := Next(s, AckStep(t.to, t.from, Acks.SendSucceeds(k)));
            Received(s', t) && Ack(Acks.SlotOf(NodeOf(s, t.to).acks, t.from).inFlight[k], t.to, t.from) in s'.net
  {
    Effect(s, AckStep(t.to, t.from, Acks.SendSucceeds(k)));
    hide Next, NodeOk, NodeOf, Acks.Next;
  }

  lemma AckClears(s: State, t: Text, refs: seq<string>)
    requires Inv(s) && Received(s, t) && Ack(refs, t.to, t.from) in s.net && t.id in refs
    ensures var s' := Next(s, AckArrives(refs, t.to, t.from, t.id));
            Received(s', t) && forall u :: u in NodeOf(s', t.from).pending ==> u.id != t.id
  {
    Effect(s, AckArrives(refs, t.to, t.from, t.id));
    hide Next, NodeOk, NodeOf, RemoveRef;
  }

  lemma SlotSafe(s: State, p: Peer, peer: Peer)
    requires Inv(s)
    ensures Acks.Safe(Acks.SlotOf(NodeOf(s, p).acks, peer))
  {
    hide Acks.Safe;
    assert NodeOk(s, p, NodeOf(s, p));
    assert SlotOk(s, p, peer, Acks.SlotOf(NodeOf(s, p).acks, peer));
  }

  /** The first half: the queue is flushed, the text arrives, and its acknowledgement is queued. */
  lemma ReachesAckQueue(s: State, t: Text) returns (events: seq<Event>)
    requires Inv(s) && Knows(s, t) && t in NodeOf(s, t.from).pending
    ensures Inv(Run(s, events)) && Received(Run(s, events), t)
    ensures t.id in Acks.SlotOf(NodeOf(Run(s, events), t.to).acks, t.from).pending
  {
    assert Run(s, []) == s;
    hide *;
    FlushCopies(s, t);
    events := Then(s, [], FlushStarts(t.from));
    CopySends(Run(s, events), t);
    events := Then(s, events, Transmit(t));
    ArrivalStores(Run(s, events), t);
    events := Then(s, events, DataArrives(t, InTime(t)));
    AckGetsQueued(Run(s, events), t);
    events := Then(s, events, AckQueued(t.to, t.id, t.from));
  }

  /**
   * From any reachable state, for any text still pending there is a run that has it stored by its recipient, in time,
   * and taken out of its sender's queue: no loss, duplication or interleaving so far can have blocked it.
   */
  lemma CanComplete(s: State, t: Text) returns (events: seq<Event>)
    requires Inv(s) && Knows(s, t) && t in NodeOf(s, t.from).pending
    ensures Received(Run(s, events), t)
    ensures forall u :: u in NodeOf(Run(s, events), t.from).pending ==> u.id != t.id
  {
    events := ReachesAckQueue(s, t);
    var s1 := Run(s, events);
    var slot := Acks.SlotOf(NodeOf(s1, t.to).acks, t.from);
    SlotSafe(s1, t.to, t.from);
    assert slot.pending != [];
    hide Inv, Run, Acks.Next, Acks.Run, Acks.Safe, NodeOf, Next;
    var wake := Acks.WakeupDelivers(slot);
    events := SlotRuns(s, events, t.to, t.from, wake);
    assert Received(Run(s, events), t);
    var k := |slot.inFlight|;
    BatchGetsSent(Run(s, events), t, k);
    events := Then(s, events, AckStep(t.to, t.from, Acks.SendSucceeds(k)));
    AckClears(Run(s, events), t, slot.pending);
    events := Then(s, events, AckArrives(slot.pending, t.to, t.from, t.id));
  }

  // ---------- the queue ----------

  /** The sender's queue of texts not yet acknowledged. */
  class PendingQueue {
    var pendingMessages: seq<Text>

    method EnqueuePending(t: Text)
      modifies this
      ensures pendingMessages == old(pendingMessages) + [t]
    {
      pendingMessages := pendingMessages + [t];
    }

    /** Keeps everything but the texts with that id, in order; the empty ref removes nothing. */
    method RemovePendingByRef(ref: string) returns (removed: bool)
      modifies this
      ensures pendingMessages == if ref == "" then old(pendingMessages) else RemoveRef(old(pendingMessages), ref)
      ensures removed <==> |pendingMessages| != |old(pendingMessages)|
    {
      if ref == "" {
        return false;
      }
      var remaining: seq<Text> := [];
      for i := 0 to |pendingMessages|
        invariant pendingMessages == old(pendingMessages)
        invariant remaining == RemoveRef(pendingMessages[..i], ref)
      {
        assert pendingMessages[..i + 1][..i] == pendingMessages[..i];
        if pendingMessages[i].id != ref {
          remaining := remaining + [pendingMessages[i]];
        }
      }
      assert pendingMessages[..|pendingMessages|] == pendingMessages;
      removed := |remaining| != |pendingMessages|;
      pendingMessages := remaining;
    }
  }
}
