/**
 * The contact handshake between honest nodes (node/node_contacts.go): requests, acceptances and their arrivals. Every
 * section that holds a store's lock is one step, so calls overlap freely at a node and between nodes; packets may be
 * lost, repeated and delayed.
 */
module Handshake {
  import opened Common

  import C = Contacts
  import R = Requests

  type Peer = string

  datatype Packet =
    | Request(from: Peer, to: Peer, id: string)
    | Accept(from: Peer, to: Peer, ref: string)

  /** What a call still has to do. */
  datatype Task =
    | AcceptAdd(req: R.Request)
    | AcceptConfirm(req: R.Request)
    | AcceptSend(req: R.Request)
    | AcceptRemove(req: R.Request)
    | ArrivedConfirm(peer: Peer)

  /** accepted and removed record the peers whose request this node accepted, and whose contact it removed. */
  datatype Node = Node(
    contacts: map<Peer, C.Contact>, requests: seq<R.Request>, tasks: multiset<Task>, accepted: set<Peer>,
    removed: set<Peer>)

  datatype State = State(nodes: map<Peer, Node>, net: set<Packet>)

  datatype Event =
    | AddByUser(at: Peer, c: C.Contact, now: string)
    | Edit(at: Peer, op: C.Op)
    | RemoveContact(at: Peer, p: Peer)
    | Reject(at: Peer, id: string)
    | SendRequest(at: Peer, to: Peer, id: string)
    | RequestArrives(at: Peer, from: Peer, id: string, receivedAt: string)
    | AcceptStarts(at: Peer, req: R.Request)
    // ok: the section's save or send succeeded.
    | Continue(at: Peer, task: Task, ok: bool, now: string)
    | AcceptArrives(at: Peer, from: Peer, ref: string, ok: bool, c: C.Contact, now: string)

  function NodeOf(s: State, p: Peer): Node {
    if p in s.nodes then s.nodes[p] else Node(map[], [], multiset{}, {}, {})
  }

  predicate Confirmed(s: State, a: Peer, b: Peer) {
    IsConfirmed(NodeOf(s, a).contacts, b)
  }

  predicate IsConfirmed(v: map<Peer, C.Contact>, p: Peer) {
    p in v && v[p].confirmed
  }

  /** A contact for a peer as AddContact builds it: not confirmed. */
  predicate IsFreshContact(c: C.Contact, p: Peer) {
    c.peerID == p && !c.confirmed
  }

  function ContactOf(req: R.Request): C.Contact {
    C.Contact(req.peerID, req.keys, req.keys, "", false, false, "", req.name, "", false)
  }

  /** AddContact: never oneself. */
  function AfterAdd(v: map<Peer, C.Contact>, self: Peer, c: C.Contact, now: string): map<Peer, C.Contact> {
    if c.peerID == self then v else C.MapStep(v, C.Add(c, now))
  }

  predicate Enabled(s: State, e: Event) {
    match e
    case AddByUser(at, c, now) => !c.confirmed
    case Edit(at, op) => op.Rename? || op.UpdateReadEnabled?
    case RemoveContact(at, p) => true
    case Reject(at, id) => true
    case SendRequest(at, to, id) => true
    case RequestArrives(at, from, id, receivedAt) => Request(from, at, id) in s.net
    case AcceptStarts(at, req) => req in NodeOf(s, at).requests
    case Continue(at, task, ok, now) => task in NodeOf(s, at).tasks
    case AcceptArrives(at, from, ref, ok, c, now) => Accept(from, at, ref) in s.net && IsFreshContact(c, from)
  }

  /** One section of a call, without its task. */
  function Section(n: Node, self: Peer, task: Task, ok: bool, now: string): Node {
    match task
    case AcceptAdd(req) =>
      n.(contacts := AfterAdd(n.contacts, self, ContactOf(req), now),
         tasks := if req.peerID != self && req.peerID != "" && ok then n.tasks + multiset{AcceptConfirm(req)}
                  else n.tasks)
    case AcceptConfirm(req) =>
      n.(contacts := C.MapStep(n.contacts, C.SetConfirmed(req.peerID)), accepted := n.accepted + {req.peerID},
         tasks := n.tasks + multiset{AcceptSend(req)})
    case AcceptSend(req) => n.(tasks := n.tasks + multiset{AcceptRemove(req)})
    case AcceptRemove(req) => n.(requests := R.Without(n.requests, req.id))
    case ArrivedConfirm(peer) => n.(contacts := C.MapStep(n.contacts, C.SetConfirmed(peer)))
  }

  function NodeAfter(n: Node, e: Event): Node {
    match e
    case AddByUser(at, c, now) => n.(contacts := AfterAdd(n.contacts, at, c, now))
    case Edit(at, op) => n.(contacts := C.MapStep(n.contacts, op))
    case RemoveContact(at, p) => n.(contacts := C.MapStep(n.contacts, C.Remove(p)), removed := n.removed + {p})
    case Reject(at, id) => n.(requests := R.Without(n.requests, id))
    case SendRequest(at, to, id) => n
    case RequestArrives(at, from, id, receivedAt) =>
      n.(requests := R.Added(n.requests, R.Request(id, from, "", "", receivedAt, R.Pending)))
    case AcceptStarts(at, req) => n.(tasks := n.tasks + multiset{AcceptAdd(req)})
    case Continue(at, task, ok, now) => Section(n.(tasks := n.tasks - multiset{task}), at, task, ok, now)
    case AcceptArrives(at, from, ref, ok, c, now) =>
      n.(contacts := AfterAdd(n.contacts, at, c, now),
         tasks := if from != at && from != "" && ok then n.tasks + multiset{ArrivedConfirm(from)} else n.tasks)
  }

  function Sent(e: Event): set<Packet> {
    match e
    case SendRequest(at, to, id) => {Request(at, to, id)}
    case Continue(at, AcceptSend(req), ok, now) => if ok then {Accept(at, req.peerID, req.id)} else {}
    case _ => {}
  }

  function Next(s: State, e: Event): State {
    if !Enabled(s, e) then s
    else State(s.nodes[e.at := NodeAfter(NodeOf(s, e.at), e)], s.net + Sent(e))
  }

  function Run(s: State, events: seq<Event>): State
    decreases |events|
  {
    if events == [] then s else Next(Run(s, events[..|events| - 1]), events[|events| - 1])
  }

  const INITIAL := State(map[], {})

  // ---------- the invariant ----------

  /** p once sent a request to q. */
  ghost predicate Asked(s: State, p: Peer, q: Peer) {
    exists id :: Request(p, q, id) in s.net
  }

  /** a has b confirmed, unless it has removed it. */
  predicate ConfirmedUnlessRemoved(s: State, a: Peer, b: Peer) {
    Confirmed(s, a, b) || b in NodeOf(s, a).removed
  }

  predicate KnownUnlessRemoved(s: State, a: Peer, b: Peer) {
    b in NodeOf(s, a).contacts || b in NodeOf(s, a).removed
  }

  /** a accepted a request b had sent, and has b confirmed, unless it has removed it. */
  ghost predicate HasAccepted(s: State, a: Peer, b: Peer) {
    ConfirmedUnlessRemoved(s, a, b) && b in NodeOf(s, a).accepted && Asked(s, b, a)
  }

  /** The handshake behind a confirmation: one of the two accepted the other's request, and has the other confirmed. */
  ghost predicate Backed(s: State, a: Peer, b: Peer) {
    HasAccepted(s, a, b) || HasAccepted(s, b, a)
  }

  ghost predicate TaskOk(s: State, at: Peer, task: Task) {
    match task
    case AcceptAdd(req) => Asked(s, req.peerID, at)
    case AcceptConfirm(req) => Asked(s, req.peerID, at) && KnownUnlessRemoved(s, at, req.peerID)
    case AcceptSend(req) => HasAccepted(s, at, req.peerID)
    case AcceptRemove(req) => true
    case ArrivedConfirm(peer) => HasAccepted(s, peer, at)
  }

  ghost predicate ContactsOk(s: State) {
    forall a, b :: Confirmed(s, a, b) ==> Backed(s, a, b)
  }

  ghost predicate RequestsOk(s: State) {
    forall a, r :: r in NodeOf(s, a).requests ==> Asked(s, r.peerID, a)
  }

  ghost predicate TasksOk(s: State) {
    forall a, task :: task in NodeOf(s, a).tasks ==> TaskOk(s, a, task)
  }

  ghost predicate NetOk(s: State) {
    forall from, to, ref :: Accept(from, to, ref) in s.net ==> HasAccepted(s, from, to)
  }

  ghost predicate Inv(s: State) {
    ContactsOk(s) && RequestsOk(s) && TasksOk(s) && NetOk(s)
  }

  // ---------- one step ----------

  /** Nothing is taken back but by removal: contacts, confirmations, acceptances and packets stay. */
  ghost predicate Grows(s: State, s': State) {
    && (forall a, b :: KnownUnlessRemoved(s, a, b) ==> KnownUnlessRemoved(s', a, b))
    && (forall a, b :: ConfirmedUnlessRemoved(s, a, b) ==> ConfirmedUnlessRemoved(s', a, b))
    && (forall a :: NodeOf(s, a).accepted <= NodeOf(s', a).accepted)
    && s.net <= s'.net
  }

  lemma GrowsKeeps(s: State, s': State)
    requires Grows(s, s')
    ensures forall a, b :: Asked(s, a, b) ==> Asked(s', a, b)
    ensures forall a, b :: HasAccepted(s, a, b) ==> HasAccepted(s', a, b)
    ensures forall a, task :: TaskOk(s, a, task) ==> TaskOk(s', a, task)
  {
    forall a, b | Asked(s, a, b) ensures Asked(s', a, b) {
      var id :| Request(a, b, id) in s.net;
      assert Request(a, b, id) in s'.net;
    }
    hide ConfirmedUnlessRemoved, KnownUnlessRemoved, NodeOf, Asked;
  }

  /** v' has every contact and every confirmation of v, and confirms at most by more. */
  ghost predicate Extends(v: map<Peer, C.Contact>, v': map<Peer, C.Contact>, more: set<Peer>) {
    && (forall b :: b in v ==> b in v')
    && (forall b :: IsConfirmed(v, b) ==> IsConfirmed(v', b))
    && (forall b :: IsConfirmed(v', b) ==> IsConfirmed(v, b) || b in more)
  }

  lemma AddExtends(v: map<Peer, C.Contact>, self: Peer, c: C.Contact, now: string)
    requires !c.confirmed
    ensures Extends(v, AfterAdd(v, self, c, now), {})
    ensures c.peerID != self && c.peerID != "" ==> c.peerID in AfterAdd(v, self, c, now)
  {
  }

  lemma SetExtends(v: map<Peer, C.Contact>, p: Peer)
    ensures Extends(v, C.MapStep(v, C.SetConfirmed(p)), {p})
    ensures p in v ==> IsConfirmed(C.MapStep(v, C.SetConfirmed(p)), p)
  {
  }

  lemma EditExtends(v: map<Peer, C.Contact>, op: C.Op)
    requires op.Rename? || op.UpdateReadEnabled?
    ensures Extends(v, C.MapStep(v, op), {})
  {
  }

  /** Whom the event may newly confirm. */
  function Confirms(e: Event): set<Peer> {
    match e
    case Continue(at, AcceptConfirm(req), ok, now) => {req.peerID}
    case Continue(at, ArrivedConfirm(peer), ok, now) => {peer}
    case _ => {}
  }

  lemma NodeExtends(s: State, e: Event)
    requires Enabled(s, e) && !e.RemoveContact?
    ensures var n, n' := NodeOf(s, e.at), NodeAfter(NodeOf(s, e.at), e);
            Extends(n.contacts, n'.contacts, Confirms(e)) && n.accepted <= n'.accepted && n.removed == n'.removed
  {
    var v := NodeOf(s, e.at).contacts;
    assert Extends(v, v, {});
    hide Extends, NodeOf, AfterAdd;
    match e
    case AddByUser(at, c, now) => AddExtends(v, at, c, now);
    case Edit(at, op) => EditExtends(v, op);
    case AcceptArrives(at, from, ref, ok, c, now) => AddExtends(v, at, c, now);
    case Continue(at, task, ok, now) =>
      match task {
        case AcceptAdd(req) => AddExtends(v, at, ContactOf(req), now);
        case AcceptConfirm(req) => SetExtends(v, req.peerID);
        case ArrivedConfirm(peer) => SetExtends(v, peer);
        case _ =>
      }
    case _ =>
  }

  /** What becomes of a contact and its confirmation at the node of the event. */
  lemma NodeKeeps(s: State, e: Event, b: Peer)
    requires Enabled(s, e)
    ensures var n, n' := NodeOf(s, e.at), NodeAfter(NodeOf(s, e.at), e);
            && n.accepted <= n'.accepted && n.removed <= n'.removed
            && (b in n.contacts ==> b in n'.contacts || b in n'.removed)
            && (IsConfirmed(n.contacts, b) ==> IsConfirmed(n'.contacts, b) || e == RemoveContact(e.at, b))
            && (IsConfirmed(n'.contacts, b) ==> IsConfirmed(n.contacts, b) || b in Confirms(e))
            && (e == RemoveContact(e.at, b) ==> b in n'.removed)
  {
    if !e.RemoveContact? {
      NodeExtends(s, e);
      hide NodeAfter, NodeOf;
    }
  }

  lemma NextIs(s: State, e: Event)
    requires Enabled(s, e)
    ensures forall a :: NodeOf(Next(s, e), a) == if a == e.at then NodeAfter(NodeOf(s, a), e) else NodeOf(s, a)
    ensures Next(s, e).net == s.net + Sent(e)
  {
    hide NodeAfter, Sent;
  }

  lemma NextKeepsAt(s: State, e: Event, b: Peer)
    requires Enabled(s, e)
    ensures var s' := Next(s, e);
            && (KnownUnlessRemoved(s, e.at, b) ==> KnownUnlessRemoved(s', e.at, b))
            && (ConfirmedUnlessRemoved(s, e.at, b) ==> ConfirmedUnlessRemoved(s', e.at, b))
            && NodeOf(s, e.at).accepted <= NodeOf(s', e.at).accepted
  {
    NextIs(s, e);
    NodeKeeps(s, e, b);
    hide NodeAfter, NodeOf, Next, Sent, Enabled, IsConfirmed, Confirms;
  }

  lemma NextGrows(s: State, e: Event)
    ensures Grows(s, Next(s, e))
    ensures Enabled(s, e) ==>
      forall a :: NodeOf(Next(s, e), a) == if a == e.at then NodeAfter(NodeOf(s, a), e) else NodeOf(s, a)
  {
    if Enabled(s, e) {
      var s' := Next(s, e);
      NextIs(s, e);
      forall a, b
        ensures KnownUnlessRemoved(s, a, b) ==> KnownUnlessRemoved(s', a, b)
        ensures ConfirmedUnlessRemoved(s, a, b) ==> ConfirmedUnlessRemoved(s', a, b)
        ensures NodeOf(s, a).accepted <= NodeOf(s', a).accepted
      {
        if a == e.at {
          hide *;
          NextKeepsAt(s, e, b);
        } else {
          hide NodeAfter, NodeOf, Next, Sent, Enabled, IsConfirmed;
        }
      }
      hide NodeAfter, NodeOf, Next, Sent, Enabled, KnownUnlessRemoved, ConfirmedUnlessRemoved;
    } else {
      hide NodeAfter, Sent, Enabled, KnownUnlessRemoved, ConfirmedUnlessRemoved;
    }
  }

  // ---------- each part of the invariant ----------

  lemma ContactsStayOk(s: State, e: Event)
    requires Inv(s) && Enabled(s, e)
    ensures ContactsOk(Next(s, e))
  {
    var s' := Next(s, e);
    NextGrows(s, e);
    GrowsKeeps(s, s');
    forall b | b in Confirms(e) && Confirmed(s', e.at, b) ensures Backed(s', e.at, b) {
      ConfirmedIsBacked(s, e);
    }
    forall b | b !in Confirms(e) && Confirmed(s', e.at, b) ensures Confirmed(s, e.at, b) {
      NodeKeeps(s, e, b);
      hide NodeAfter, NodeOf, Next, Enabled, Confirms;
    }
    hide NodeAfter, Next, HasAccepted, Confirms, Enabled, TasksOk, RequestsOk, NetOk;
    forall a, b | Confirmed(s', a, b) ensures Backed(s', a, b) {
      assert a == e.at || Confirmed(s, a, b);
    }
  }

  /** The two steps that confirm a peer: on accepting its request, and on its acceptance of ours. */
  lemma ConfirmedIsBacked(s: State, e: Event)
    requires Inv(s) && Enabled(s, e) && e.Continue?
    ensures e.task.AcceptConfirm? ==> HasAccepted(Next(s, e), e.at, e.task.req.peerID)
    ensures e.task.ArrivedConfirm? ==> HasAccepted(Next(s, e), e.task.peer, e.at)
  {
    assert TaskOk(s, e.at, e.task);
    NextGrows(s, e);
    GrowsKeeps(s, Next(s, e));
    if e.task.AcceptConfirm? {
      SetExtends(NodeOf(s, e.at).contacts, e.task.req.peerID);
    }
    hide Inv, Asked;
  }

  lemma RequestsStayOk(s: State, e: Event)
    requires Inv(s) && Enabled(s, e)
    ensures RequestsOk(Next(s, e))
  {
    var s' := Next(s, e);
    NextGrows(s, e);
    GrowsKeeps(s, s');
    forall r | r in NodeOf(s', e.at).requests && r !in NodeOf(s, e.at).requests ensures Asked(s', r.peerID, e.at) {
      if e.RequestArrives? {
        assert Request(e.from, e.at, e.id) in s'.net;
      }
    }
    hide NodeAfter, Next, Asked;
  }

  lemma NetStaysOk(s: State, e: Event)
    requires Inv(s) && Enabled(s, e)
    ensures NetOk(Next(s, e))
  {
    var s' := Next(s, e);
    NextGrows(s, e);
    GrowsKeeps(s, s');
    if e.Continue? {
      assert TaskOk(s, e.at, e.task);
    }
    hide NodeAfter, HasAccepted;
  }

  /** What a step leaves to be done. */
  function Spawned(e: Event): Option<Task> {
    match e
    case AcceptStarts(at, req) => Some(AcceptAdd(req))
    case Continue(at, AcceptAdd(req), ok, now) =>
      if req.peerID != at && req.peerID != "" && ok then Some(AcceptConfirm(req)) else None
    case Continue(at, AcceptConfirm(req), ok, now) => Some(AcceptSend(req))
    case Continue(at, AcceptSend(req), ok, now) => Some(AcceptRemove(req))
    case AcceptArrives(at, from, ref, ok, c, now) =>
      if from != at && from != "" && ok then Some(ArrivedConfirm(from)) else None
    case _ => None
  }

  lemma SpawnedIsOk(s: State, e: Event)
    requires Inv(s) && Enabled(s, e) && Spawned(e).Some?
    ensures TaskOk(Next(s, e), e.at, Spawned(e).value)
  {
    var s' := Next(s, e);
    NextGrows(s, e);
    GrowsKeeps(s, s');
    var v := NodeOf(s, e.at).contacts;
    match e
    case AcceptStarts(at, req) =>
    case Continue(at, task, ok, now) =>
      assert TaskOk(s, at, task);
      ConfirmedIsBacked(s, e);
      if task.AcceptAdd? {
        AddExtends(v, at, ContactOf(task.req), now);
      }
    case AcceptArrives(at, from, ref, ok, c, now) =>
      AddExtends(v, at, c, now);
  }

  function SpawnedTasks(e: Event): multiset<Task> {
    match Spawned(e)
    case Some(task) => multiset{task}
    case None => multiset{}
  }

  lemma SectionTasks(n: Node, self: Peer, task: Task, ok: bool, now: string)
    ensures Section(n, self, task, ok, now).tasks == n.tasks + SpawnedTasks(Continue(self, task, ok, now))
  {
    hide C.MapStep, R.Without, AfterAdd;
  }

  lemma NewTasks(n: Node, e: Event)
    ensures forall task :: task in NodeAfter(n, e).tasks ==> task in n.tasks || Spawned(e) == Some(task)
  {
    if e.Continue? {
      var n0 := n.(tasks := n.tasks - multiset{e.task});
      SectionTasks(n0, e.at, e.task, e.ok, e.now);
      assert NodeAfter(n, e).tasks == n0.tasks + SpawnedTasks(e) <= n.tasks + SpawnedTasks(e);
    } else {
      hide C.MapStep, R.Added, R.Without, AfterAdd;
      assert NodeAfter(n, e).tasks == n.tasks + SpawnedTasks(e);
    }
    hide NodeAfter, Spawned, Section;
  }

  lemma TasksStayOk(s: State, e: Event)
    requires Inv(s) && Enabled(s, e)
    ensures TasksOk(Next(s, e))
  {
    var s' := Next(s, e);
    NextGrows(s, e);
    GrowsKeeps(s, s');
    var n, n' := NodeOf(s, e.at), NodeOf(s', e.at);
    NewTasks(n, e);
    hide NodeAfter, Next, TaskOk, NodeOf, Spawned;
    if Spawned(e).Some? {
      SpawnedIsOk(s, e);
    }
  }

  lemma NextKeepsInv(s: State, e: Event)
    requires Inv(s)
    ensures Inv(Next(s, e))
  {
    if Enabled(s, e) {
      hide *;
      ContactsStayOk(s, e);
      RequestsStayOk(s, e);
      TasksStayOk(s, e);
      NetStaysOk(s, e);
      assert Inv(Next(s, e)) by { InvOf(Next(s, e)); }
    }
  }

  lemma InvOf(s: State)
    requires ContactsOk(s) && RequestsOk(s) && TasksOk(s) && NetOk(s)
    ensures Inv(s)
  {
  }

  lemma {:induction false} RunKeepsInv(events: seq<Event>)
    ensures Inv(Run(INITIAL, events))
    decreases |events|
  {
    if events != [] {
      RunKeepsInv(events[..|events| - 1]);
      hide Inv, Next;
      NextKeepsInv(Run(INITIAL, events[..|events| - 1]), events[|events| - 1]);
    }
  }

  /**
   * After any run, whenever a has b confirmed, one of them accepted a request the other had really sent; and if it was
   * not a, then b already has a confirmed, unless it has since removed a.
   */
  lemma ConfirmationIsMutualOrPending(events: seq<Event>, a: Peer, b: Peer)
    requires Confirmed(Run(INITIAL, events), a, b)
    ensures var s := Run(INITIAL, events);
            || (b in NodeOf(s, a).accepted && Asked(s, b, a))
            || (ConfirmedUnlessRemoved(s, b, a) && a in NodeOf(s, b).accepted && Asked(s, a, b))
  {
    RunKeepsInv(events);
    assert Backed(Run(INITIAL, events), a, b);
    hide Run;
  }

  /** Nothing takes a confirmation back but the removal of the contact, by its own node. */
  lemma {:induction false} ConfirmedUntilRemoved(s: State, events: seq<Event>, a: Peer, b: Peer)
    requires Confirmed(s, a, b)
    ensures Confirmed(Run(s, events), a, b) || RemoveContact(a, b) in events
    decreases |events|
  {
    if events != [] {
      var front, e := events[..|events| - 1], events[|events| - 1];
      ConfirmedUntilRemoved(s, front, a, b);
      if Confirmed(Run(s, front), a, b) && Enabled(Run(s, front), e) {
        NextIs(Run(s, front), e);
        if a == e.at {
          NodeKeeps(Run(s, front), e, b);
        }
      }
      assert events == front + [e];
      hide NodeAfter, Sent, Enabled, Confirms, NodeOf, IsConfirmed;
    }
  }

  /** Rejecting takes the request away, and removing the contact takes that contact away; nothing else changes. */
  lemma RejectAndRemove(s: State, a: Peer, id: string, p: Peer)
    ensures var n, n' := NodeOf(s, a), NodeOf(Next(s, Reject(a, id)), a);
            n'.contacts == n.contacts && forall q :: q in n'.requests <==> q in n.requests && q.id != id
    ensures var n, n' := NodeOf(s, a), NodeOf(Next(s, RemoveContact(a, p)), a);
            n'.requests == n.requests && n'.contacts == n.contacts - {p}
  {
  }

  // ---------- a handshake that runs through ----------

  /** Between s and s' only the node a has moved, to n, and only these packets have been sent. */
  predicate Moved(s: State, s': State, a: Peer, n: Node, sent: set<Packet>) {
    s'.net == s.net + sent && s'.nodes == s.nodes[a := n]
  }

  /** The pending task is run: its section, and what it sends. */
  lemma ContinueOne(s: State, s': State, a: Peer, n: Node, sent: set<Packet>, task: Task, now: string)
    requires Moved(s, s', a, Plus(n, task), sent)
    ensures var e := Continue(a, task, true, now);
            Moved(s, Next(s', e), a, Section(n, a, task, true, now), sent + Sent(e))
  {
    assert n.tasks + multiset{task} - multiset{task} == n.tasks;
    hide Section;
  }

  function AcceptEvents(a: Peer, req: R.Request, now: string): seq<Event> {
    [AcceptStarts(a, req), Continue(a, AcceptAdd(req), true, now), Continue(a, AcceptConfirm(req), true, now),
     Continue(a, AcceptSend(req), true, now), Continue(a, AcceptRemove(req), true, now)]
  }

  lemma RunOfFive(s: State, es: seq<Event>)
    requires |es| == 5
    ensures Run(s, es) == Next(Next(Next(Next(Next(s, es[0]), es[1]), es[2]), es[3]), es[4])
  {
    hide Next;
    assert es[..5] == es && forall i :: 0 < i <= 5 ==> es[..i][..i - 1] == es[..i - 1];
    assert Run(s, es[..1]) == Next(s, es[0]);
    assert Run(s, es[..2]) == Next(Run(s, es[..1]), es[1]);
    assert Run(s, es[..3]) == Next(Run(s, es[..2]), es[2]);
    assert Run(s, es[..4]) == Next(Run(s, es[..3]), es[3]);
  }

  /** The contacts after an acceptance: the peer is there, confirmed, and no other contact is touched. */
  predicate NowConfirmed(v: map<Peer, C.Contact>, v': map<Peer, C.Contact>, p: Peer) {
    v'.Keys == v.Keys + {p} && v'[p].confirmed && forall q :: q in v && q != p ==> v'[q] == v[q]
  }

  lemma AddThenConfirm(v: map<Peer, C.Contact>, self: Peer, c: C.Contact, now: string)
    requires c.peerID != self && c.peerID != ""
    ensures NowConfirmed(v, C.MapStep(AfterAdd(v, self, c, now), C.SetConfirmed(c.peerID)), c.peerID)
  {
  }

  /** Accepting: the peer becomes a confirmed contact, it is told so, and its request is gone. */
  lemma AcceptPass(s: State, a: Peer, req: R.Request, now: string)
    requires req in NodeOf(s, a).requests && req.peerID != a && req.peerID != ""
    ensures var s' := Run(s, AcceptEvents(a, req, now));
            && NowConfirmed(NodeOf(s, a).contacts, NodeOf(s', a).contacts, req.peerID)
            && NodeOf(s', a).requests == R.Without(NodeOf(s, a).requests, req.id)
            && NodeOf(s', a).tasks == NodeOf(s, a).tasks
            && s'.net == s.net + {Accept(a, req.peerID, req.id)}
            && forall q :: q != a ==> NodeOf(s', q) == NodeOf(s, q)
  {
    var n := NodeOf(s, a);
    var n' := Accepting(n, a, req, now).(requests := R.Without(n.requests, req.id));
    AcceptMoves(s, a, req, now);
    AddThenConfirm(n.contacts, a, ContactOf(req), now);
    assert n'.contacts == C.MapStep(AfterAdd(n.contacts, a, ContactOf(req), now), C.SetConfirmed(req.peerID));
    hide Run, AcceptEvents, AfterAdd, C.MapStep, R.Without, NowConfirmed, Moved;
    MovedIs(s, Run(s, AcceptEvents(a, req, now)), a, n', {Accept(a, req.peerID, req.id)});
  }

  /** The node once the peer has been added, and once it has been confirmed. */
  function Adding(n: Node, a: Peer, req: R.Request, now: string): Node {
    n.(contacts := AfterAdd(n.contacts, a, ContactOf(req), now))
  }

  function Accepting(n: Node, a: Peer, req: R.Request, now: string): Node {
    var added := Adding(n, a, req, now);
    added.(contacts := C.MapStep(added.contacts, C.SetConfirmed(req.peerID)), accepted := n.accepted + {req.peerID})
  }

  /** n with a task more. */
  function Plus(n: Node, task: Task): Node {
    n.(tasks := n.tasks + multiset{task})
  }

  lemma AcceptMoves(s: State, a: Peer, req: R.Request, now: string)
    requires req in NodeOf(s, a).requests && req.peerID != a && req.peerID != ""
    ensures var n := NodeOf(s, a);
            Moved(s, Run(s, AcceptEvents(a, req, now)), a,
                  Accepting(n, a, req, now).(requests := R.Without(n.requests, req.id)),
                  {Accept(a, req.peerID, req.id)})
  {
    hide Next, Section, Adding, Accepting, Plus, R.Without, Moved, Sent, NodeOf, Run;
    var n, es := NodeOf(s, a), AcceptEvents(a, req, now);
    var n2, n3 := Adding(n, a, req, now), Accepting(n, a, req, now);
    AcceptSections(n, a, req, now);
    RunOfFive(s, es);
    var s1 := Next(s, es[0]);
    var told := {Accept(a, req.peerID, req.id)};
    AcceptBegins(s, a, req);
    SentByAccepting(a, req, now);
    var none: set<Packet> := {};
    NoneAdded(told);
    ContinueOne(s, s1, a, n, none, AcceptAdd(req), now);
    var s2 := Next(s1, es[1]);
    ContinueOne(s, s2, a, n2, none, AcceptConfirm(req), now);
    var s3 := Next(s2, es[2]);
    ContinueOne(s, s3, a, n3, none, AcceptSend(req), now);
    var s4 := Next(s3, es[3]);
    ContinueOne(s, s4, a, n3, told, AcceptRemove(req), now);
  }

  lemma NoneAdded(told: set<Packet>)
    ensures var none: set<Packet> := {}; none + none == none && none + told == told && told + none == told
  {
  }

  lemma AcceptBegins(s: State, a: Peer, req: R.Request)
    requires req in NodeOf(s, a).requests
    ensures var n := NodeOf(s, a);
            Moved(s, Next(s, AcceptStarts(a, req)), a, Plus(n, AcceptAdd(req)), {})
  {
  }

  lemma SentByAccepting(a: Peer, req: R.Request, now: string)
    ensures Sent(Continue(a, AcceptAdd(req), true, now)) == {} == Sent(Continue(a, AcceptConfirm(req), true, now))
    ensures Sent(Continue(a, AcceptSend(req), true, now)) == {Accept(a, req.peerID, req.id)}
    ensures Sent(Continue(a, AcceptRemove(req), true, now)) == {}
  {
  }

  lemma AcceptSections(n: Node, a: Peer, req: R.Request, now: string)
    requires req.peerID != a && req.peerID != ""
    ensures var n2, n3 := Adding(n, a, req, now), Accepting(n, a, req, now);
            && Section(n, a, AcceptAdd(req), true, now) == Plus(n2, AcceptConfirm(req))
            && Section(n2, a, AcceptConfirm(req), true, now) == Plus(n3, AcceptSend(req))
            && Section(n3, a, AcceptSend(req), true, now) == Plus(n3, AcceptRemove(req))
            && Section(n3, a, AcceptRemove(req), true, now) == n3.(requests := R.Without(n.requests, req.id))
  {
    hide AfterAdd, C.MapStep, R.Without;
  }

  lemma MovedIs(s: State, s': State, a: Peer, n: Node, sent: set<Packet>)
    requires Moved(s, s', a, n, sent)
    ensures NodeOf(s', a) == n && s'.net == s.net + sent && forall q :: q != a ==> NodeOf(s', q) == NodeOf(s, q)
  {
  }

  /** The acceptance arrives: its sender becomes a confirmed contact. */
  lemma ArrivalPass(s: State, b: Peer, a: Peer, ref: string, c: C.Contact, now: string)
    requires Accept(a, b, ref) in s.net && IsFreshContact(c, a) && a != b && a != ""
    ensures var s' := Next(Next(s, AcceptArrives(b, a, ref, true, c, now)), Continue(b, ArrivedConfirm(a), true, now));
            && NowConfirmed(NodeOf(s, b).contacts, NodeOf(s', b).contacts, a)
            && NodeOf(s', b).tasks == NodeOf(s, b).tasks && NodeOf(s', b).requests == NodeOf(s, b).requests
            && s'.net == s.net && forall q :: q != b ==> NodeOf(s', q) == NodeOf(s, q)
  {
    hide AfterAdd, C.MapStep, NowConfirmed;
    var n := NodeOf(s, b);
    var n1 := n.(contacts := AfterAdd(n.contacts, b, c, now));
    var n2 := n1.(contacts := C.MapStep(n1.contacts, C.SetConfirmed(a)));
    var s1 := Next(s, AcceptArrives(b, a, ref, true, c, now));
    ArrivalBegins(s, b, a, ref, c, now);
    AddThenConfirm(n.contacts, b, c, now);
    assert Section(n1, b, ArrivedConfirm(a), true, now) == n2;
    var none: set<Packet> := {};
    NoneAdded(none);
    assert Sent(Continue(b, ArrivedConfirm(a), true, now)) == {};
    hide Next, Section, Moved, Plus, Sent;
    ContinueOne(s, s1, b, n1, none, ArrivedConfirm(a), now);
    MovedIs(s, Next(s1, Continue(b, ArrivedConfirm(a), true, now)), b, n2, none);
  }

  lemma ArrivalBegins(s: State, b: Peer, a: Peer, ref: string, c: C.Contact, now: string)
    requires Accept(a, b, ref) in s.net && IsFreshContact(c, a) && a != b && a != ""
    ensures var n := NodeOf(s, b);
            Moved(s, Next(s, AcceptArrives(b, a, ref, true, c, now)), b,
                  Plus(n.(contacts := AfterAdd(n.contacts, b, c, now)), ArrivedConfirm(a)), {})
  {
    hide AfterAdd;
  }

  lemma RequestIsThere(rs: seq<R.Request>, r: R.Request)
    requires r.id != "" && r.peerID != ""
    ensures r in R.Added(rs, r)
  {
    var after := R.Added(rs, r);
    if R.FindID(rs, r.id) >= 0 {
      assert after[R.FindID(rs, r.id)] == r;
    } else if r.status == R.Pending && R.FindPending(rs, r.peerID) >= 0 {
      assert after[R.FindPending(rs, r.peerID)] == r;
    } else {
      assert after[|rs|] == r;
    }
  }

  /** From any state, whatever the two know of each other, a request, its acceptance and its arrival confirm both. */
  lemma HandshakeCompletes(s: State, a: Peer, b: Peer, id: string, c: C.Contact, now: string)
    requires a != b && a != "" && b != "" && id != "" && IsFreshContact(c, a)
    ensures var req := R.Request(id, b, "", "", now, R.Pending);
            var s1 := Next(Next(s, SendRequest(b, a, id)), RequestArrives(a, b, id, now));
            var s2 := Run(s1, AcceptEvents(a, req, now));
            var s3 := Next(Next(s2, AcceptArrives(b, a, id, true, c, now)), Continue(b, ArrivedConfirm(a), true, now));
            && Confirmed(s3, a, b) && Confirmed(s3, b, a)
            && (forall q :: q in NodeOf(s3, a).requests ==> q.id != id)
  {
    var req := R.Request(id, b, "", "", now, R.Pending);
    var s0 := Next(s, SendRequest(b, a, id));
    var s1 := Next(s0, RequestArrives(a, b, id, now));
    RequestIsThere(NodeOf(s0, a).requests, req);
    assert NodeOf(s1, a).requests == R.Added(NodeOf(s0, a).requests, req);
    AcceptPass(s1, a, req, now);
    var s2 := Run(s1, AcceptEvents(a, req, now));
    hide Next, Run, R.Added;
    ArrivalPass(s2, b, a, id, c, now);
  }
}
