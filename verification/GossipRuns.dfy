/**
 * Runs of gossiping nodes: training, broadcasts, arrivals in all three formats and forwards, over a network that
 * loses, repeats and delays, so any packet ever sent may still arrive.
 */
module GossipRuns {
  import opened Gossip

  type Peer = int

  datatype NodeState = NodeState(layers: seq<Layer>, lastSynced: seq<Layer>, dirty: bool)

  datatype Packet =
    | Wave(ttl: int, delta: seq<Delta>)
    | Legacy(delta: seq<Delta>)
    | Full(layers: seq<Layer>)

  datatype State = State(nodes: map<Peer, NodeState>, net: set<Packet>)

  datatype Event =
    | Train(p: Peer, input: Layer, output: Layer, target: Layer, rate: real)
    | Broadcast(p: Peer, throttled: bool)
    // Nodes of earlier versions send some layers without a TTL, or all of them.
    | SendLegacy(p: Peer, which: seq<nat>)
    | SendFull(p: Peer)
    | Arrive(p: Peer, packet: Packet, forwards: bool)

  function NodeOf(s: State, p: Peer): NodeState {
    if p in s.nodes then s.nodes[p] else NodeState([], [], false)
  }

  function Picked(layers: seq<Layer>, which: seq<nat>): (r: seq<Delta>)
    ensures forall d :: d in r ==> d.index < |layers| && d.data == layers[d.index]
  {
    if which == [] then []
    else
      var front := Picked(layers, which[..|which| - 1]);
      var i := which[|which| - 1];
      if i < |layers| then front + [Delta(i, layers[i])] else front
  }

  function Accepted(layers: seq<Layer>, packet: Packet): seq<Layer> {
    match packet
    case Wave(ttl, delta) => Received(layers, delta)
    case Legacy(delta) => Received(layers, delta)
    case Full(peer) => ReceivedFull(layers, peer)
  }

  function NodeAfter(n: NodeState, e: Event): NodeState {
    match e
    case Train(p, input, output, target, rate) =>
      n.(layers := Trained(n.layers, input, output, target, rate), dirty := true)
    case Broadcast(p, throttled) =>
      if throttled || !n.dirty then n
      else n.(dirty := false,
              lastSynced := if DeltaUpTo(n.layers, n.lastSynced, |n.layers|) == [] then n.lastSynced else n.layers)
    case SendLegacy(p, which) => n
    case SendFull(p) => n
    case Arrive(p, packet, forwards) =>
      if packet.Wave? && packet.delta == [] then n
      else n.(layers := Accepted(n.layers, packet), dirty := true)
  }

  function Sent(n: NodeState, e: Event): set<Packet> {
    match e
    case Train(p, input, output, target, rate) => {}
    case Broadcast(p, throttled) =>
      if throttled || !n.dirty || DeltaUpTo(n.layers, n.lastSynced, |n.layers|) == [] then {}
      else {Wave(DEFAULT_TTL, DeltaUpTo(n.layers, n.lastSynced, |n.layers|))}
    case SendLegacy(p, which) => {Legacy(Picked(n.layers, which))}
    case SendFull(p) => {Full(n.layers)}
    case Arrive(p, packet, forwards) =>
      if packet.Wave? && packet.delta != [] && packet.ttl - 1 > 0 && forwards
      then {Wave(packet.ttl - 1, PassedOn(n.layers, packet.delta))} else {}
  }

  function Next(s: State, e: Event): State {
    if e.Arrive? && e.packet !in s.net then s
    else State(s.nodes[e.p := NodeAfter(NodeOf(s, e.p), e)], s.net + Sent(NodeOf(s, e.p), e))
  }

  function Run(s: State, events: seq<Event>): State
    decreases |events|
  {
    if events == [] then s else Next(Run(s, events[..|events| - 1]), events[|events| - 1])
  }

  // ---------- bounds ----------

  predicate DeltaInRange(delta: seq<Delta>, lo: real, hi: real) {
    forall i :: 0 <= i < |delta| ==> InRange(delta[i].data, lo, hi)
  }

  predicate PacketInRange(packet: Packet, lo: real, hi: real) {
    match packet
    case Wave(ttl, delta) => DeltaInRange(delta, lo, hi)
    case Legacy(delta) => DeltaInRange(delta, lo, hi)
    case Full(layers) => AllInRange(layers, lo, hi)
  }

  /** Every weight of every node and every number in flight lies between lo and hi. */
  ghost predicate Within(s: State, lo: real, hi: real) {
    && (forall p :: p in s.nodes ==> AllInRange(s.nodes[p].layers, lo, hi))
    && (forall packet :: packet in s.net ==> PacketInRange(packet, lo, hi))
  }

  /** No entry's index is so far behind the layers that zero layers would fill the gap. */
  predicate GapFree(layers: seq<Layer>, delta: seq<Delta>) {
    delta == [] ||
    (GapFree(layers, delta[..|delta| - 1]) && delta[|delta| - 1].index <= |Received(layers, delta[..|delta| - 1])|)
  }

  /** The event only averages, or installs whole layers: it does not train and leaves no gap. */
  predicate OnlyAverages(s: State, e: Event) {
    match e
    case Train(_, _, _, _, _) => false
    case Arrive(p, Wave(_, delta), _) => GapFree(NodeOf(s, p).layers, delta)
    case Arrive(p, Legacy(delta), _) => GapFree(NodeOf(s, p).layers, delta)
    case _ => true
  }

  lemma AveragedInRange(layer: Layer, data: Layer, lo: real, hi: real)
    requires InRange(layer, lo, hi) && InRange(data, lo, hi)
    ensures InRange(Averaged(layer, data), lo, hi)
  {
    var r := Averaged(layer, data);
    if |data| == |layer| {
      forall i | 0 <= i < |r| ensures lo <= r[i] <= hi {
        assert r[i] == Mean(layer[i], data[i]);
        assert lo <= layer[i] <= hi && lo <= data[i] <= hi;
      }
    }
  }

  lemma ReceivedOneInRange(layers: seq<Layer>, d: Delta, lo: real, hi: real)
    requires AllInRange(layers, lo, hi) && InRange(d.data, lo, hi)
    requires lo <= 0.0 <= hi || d.index <= |layers|
    ensures AllInRange(ReceivedOne(layers, d), lo, hi)
  {
    if d.index < |layers| {
      AveragedInRange(layers[d.index], d.data, lo, hi);
    }
  }

  lemma {:induction false} ReceivedInRange(layers: seq<Layer>, delta: seq<Delta>, lo: real, hi: real)
    requires AllInRange(layers, lo, hi) && DeltaInRange(delta, lo, hi)
    requires lo <= 0.0 <= hi || GapFree(layers, delta)
    ensures AllInRange(Received(layers, delta), lo, hi)
    decreases |delta|
  {
    if delta != [] {
      var n := |delta| - 1;
      ReceivedInRange(layers, delta[..n], lo, hi);
      hide AllInRange, InRange, ReceivedOne;
      ReceivedOneInRange(Received(layers, delta[..n]), delta[n], lo, hi);
    }
  }

  lemma ReceivedFullInRange(layers: seq<Layer>, peer: seq<Layer>, lo: real, hi: real)
    requires AllInRange(layers, lo, hi) && AllInRange(peer, lo, hi)
    ensures AllInRange(ReceivedFull(layers, peer), lo, hi)
  {
    forall i | 0 <= i < |layers| && i < |peer| ensures InRange(Averaged(layers[i], peer[i]), lo, hi) {
      AveragedInRange(layers[i], peer[i], lo, hi);
    }
    hide InRange, Averaged;
  }

  lemma TrainedInRange(layers: seq<Layer>, input: Layer, output: Layer, target: Layer, rate: real, lo: real, hi: real)
    requires AllInRange(layers, lo, hi) && lo <= -1.0 && 1.0 <= hi
    ensures AllInRange(Trained(layers, input, output, target, rate), lo, hi)
  {
    hide Descended;
  }

  lemma NodeInRange(s: State, e: Event, lo: real, hi: real)
    requires Within(s, lo, hi) && (e.Arrive? ==> e.packet in s.net)
    requires (lo <= -1.0 && 1.0 <= hi) || OnlyAverages(s, e)
    ensures AllInRange(NodeAfter(NodeOf(s, e.p), e).layers, lo, hi)
  {
    var layers := NodeOf(s, e.p).layers;
    assert AllInRange(layers, lo, hi) && (e.Arrive? ==> PacketInRange(e.packet, lo, hi));
    hide AllInRange, Within, DeltaUpTo;
    match e
    case Train(p, input, output, target, rate) => TrainedInRange(layers, input, output, target, rate, lo, hi);
    case Arrive(p, packet, forwards) =>
      match packet {
        case Wave(ttl, delta) => ReceivedInRange(layers, delta, lo, hi);
        case Legacy(delta) => ReceivedInRange(layers, delta, lo, hi);
        case Full(peer) => ReceivedFullInRange(layers, peer, lo, hi);
      }
    case _ =>
  }

  lemma SentInRange(s: State, e: Event, lo: real, hi: real)
    requires Within(s, lo, hi) && (e.Arrive? ==> e.packet in s.net)
    requires AllInRange(NodeAfter(NodeOf(s, e.p), e).layers, lo, hi)
    ensures forall packet :: packet in Sent(NodeOf(s, e.p), e) ==> PacketInRange(packet, lo, hi)
  {
    var layers := NodeOf(s, e.p).layers;
    assert AllInRange(layers, lo, hi);
    hide InRange;
  }

  lemma NextKeepsWithin(s: State, e: Event, lo: real, hi: real)
    requires Within(s, lo, hi)
    requires (lo <= -1.0 && 1.0 <= hi) || OnlyAverages(s, e)
    ensures Within(Next(s, e), lo, hi)
  {
    if !(e.Arrive? && e.packet !in s.net) {
      NodeInRange(s, e, lo, hi);
      SentInRange(s, e, lo, hi);
      hide AllInRange, PacketInRange, NodeAfter, Sent;
    }
  }

  /** From weights in [-1,1], every run keeps every weight and every number in flight in [-1,1]. */
  lemma {:induction false} RunStaysBounded(s: State, events: seq<Event>)
    requires Within(s, -1.0, 1.0)
    ensures Within(Run(s, events), -1.0, 1.0)
    decreases |events|
  {
    if events != [] {
      RunStaysBounded(s, events[..|events| - 1]);
      hide Within, Next;
      NextKeepsWithin(Run(s, events[..|events| - 1]), events[|events| - 1], -1.0, 1.0);
    }
  }

  /** Every event of the run only averages. */
  predicate AveragingRun(s: State, events: seq<Event>)
    decreases |events|
  {
    events == [] ||
    (AveragingRun(s, events[..|events| - 1]) && OnlyAverages(Run(s, events[..|events| - 1]), events[|events| - 1]))
  }

  /** Without training, no run leaves the interval it started in, whatever the interval. */
  lemma {:induction false} AveragingNeverSpreads(s: State, events: seq<Event>, lo: real, hi: real)
    requires Within(s, lo, hi) && AveragingRun(s, events)
    ensures Within(Run(s, events), lo, hi)
    decreases |events|
  {
    if events != [] {
      AveragingNeverSpreads(s, events[..|events| - 1], lo, hi);
      hide Within, Next, OnlyAverages;
      NextKeepsWithin(Run(s, events[..|events| - 1]), events[|events| - 1], lo, hi);
    }
  }

  /** A gap does spread: the zero layers it leaves lie outside an interval that has no zero. */
  lemma GapAddsZeros(layers: seq<Layer>, d: Delta, lo: real, hi: real)
    requires d.index > |layers| && !(lo <= 0.0 <= hi)
    ensures !AllInRange(ReceivedOne(layers, d), lo, hi)
  {
    assert ReceivedOne(layers, d)[|layers|] == ZeroLayer();
    assert ZeroLayer()[0] == 0.0;
    assert !InRange(ZeroLayer(), lo, hi);
  }

  // ---------- what is sent ----------

  /** Layer i is as it was last sent, or nearly: no weight has moved by more than 0.005. */
  predicate Settled(layers: seq<Layer>, last: seq<Layer>, i: nat) {
    i < |layers| && i < |last| && |layers[i]| == |last[i]|
    && forall j :: 0 <= j < |layers[i]| ==> Distance(layers[i][j], last[i][j]) <= 0.005
  }

  /**
   * A broadcast of a node that has been touched sends every layer that is not settled, and records what it has sent; a
   * throttled one changes nothing, and neither does another before the node is touched again.
   */
  lemma BroadcastSends(s: State, p: Peer, i: nat)
    requires NodeOf(s, p).dirty && i < |NodeOf(s, p).layers|
    ensures var n, s' := NodeOf(s, p), Next(s, Broadcast(p, false));
            var n' := NodeOf(s', p);
            && n'.layers == n.layers && !n'.dirty
            && (Settled(n.layers, n.lastSynced, i)
                || (n'.lastSynced == n.layers
                    && exists delta :: Wave(3, delta) in s'.net && Delta(i, n.layers[i]) in delta))
            && NodeOf(Next(s', Broadcast(p, false)), p) == n' && Next(s', Broadcast(p, false)).net == s'.net
            && NodeOf(Next(s, Broadcast(p, true)), p) == n && Next(s, Broadcast(p, true)).net == s.net
  {
    var n := NodeOf(s, p);
    var delta := DeltaUpTo(n.layers, n.lastSynced, |n.layers|);
    DeltaIs(n.layers, n.lastSynced, |n.layers|);
    hide DeltaUpTo, Distance;
    if !Settled(n.layers, n.lastSynced, i) {
      assert Delta(i, n.layers[i]) in delta;
      assert Wave(3, delta) in Next(s, Broadcast(p, false)).net;
    }
  }

  /** A wave is passed on with one hop less while hops are left; the older formats are not passed on. */
  lemma ArrivalForwards(s: State, p: Peer, packet: Packet)
    requires packet in s.net
    ensures var s' := Next(s, Arrive(p, packet, true));
            && (forall q :: q in s'.net && q !in s.net ==> packet.Wave? && q.Wave? && q.ttl == packet.ttl - 1)
            && (packet.Wave? && packet.ttl > 1 && packet.delta != [] ==>
                  exists delta :: Wave(packet.ttl - 1, delta) in s'.net && |delta| == |packet.delta|)
            && (packet.Wave? && packet.ttl <= 1 ==> s'.net == s.net)
            && (!(packet.Wave? && packet.delta == []) ==> NodeOf(s', p).dirty)
  {
    var s' := Next(s, Arrive(p, packet, true));
    hide Received, ReceivedFull;
    if packet.Wave? && packet.ttl > 1 && packet.delta != [] {
      assert Wave(packet.ttl - 1, PassedOn(NodeOf(s, p).layers, packet.delta)) in s'.net;
    }
  }

  // ---------- convergence ----------

  /** A delta all of whose layers the node knows, each named once. */
  predicate KnownOnce(layers: seq<Layer>, delta: seq<Delta>) {
    && (forall k :: 0 <= k < |delta| ==> delta[k].index < |layers|)
    && (forall k, l :: 0 <= k < l < |delta| ==> delta[k].index != delta[l].index)
  }

  lemma {:induction false} ReceivedKnown(layers: seq<Layer>, delta: seq<Delta>)
    requires KnownOnce(layers, delta)
    ensures var r := Received(layers, delta);
            && |r| == |layers|
            && (forall k :: 0 <= k < |delta| ==> r[delta[k].index] == Averaged(layers[delta[k].index], delta[k].data))
            && (forall i :: 0 <= i < |layers| && (forall k :: 0 <= k < |delta| ==> delta[k].index != i) ==>
                  r[i] == layers[i])
  {
    if delta != [] {
      ReceivedKnown(layers, delta[..|delta| - 1]);
      hide Averaged;
    }
  }

  /** Every layer of a received delta meets the node's own halfway, and the other layers stay. */
  lemma DeltaMeetsHalfway(s: State, p: Peer, packet: Packet, forwards: bool)
    requires packet in s.net && !packet.Full? && KnownOnce(NodeOf(s, p).layers, packet.delta)
    ensures var before, after := NodeOf(s, p).layers, NodeOf(Next(s, Arrive(p, packet, forwards)), p).layers;
            && |after| == |before|
            && (forall k :: 0 <= k < |packet.delta| ==>
                  var d := packet.delta[k];
                  if |d.data| == |before[d.index]| then Halfway(after[d.index], before[d.index], d.data)
                  else after[d.index] == before[d.index])
            && (forall i :: 0 <= i < |before| && (forall d :: d in packet.delta ==> d.index != i) ==>
                  after[i] == before[i])
  {
    var before := NodeOf(s, p).layers;
    ReceivedKnown(before, packet.delta);
    assert forall k :: 0 <= k < |packet.delta| ==> packet.delta[k] in packet.delta;
    forall k | 0 <= k < |packet.delta|
      ensures var d := packet.delta[k];
              if |d.data| == |before[d.index]| then Halfway(Averaged(before[d.index], d.data), before[d.index], d.data)
              else Averaged(before[d.index], d.data) == before[d.index]
    {
      AveragedIsHalfway(before[packet.delta[k].index], packet.delta[k].data);
    }
    hide Averaged, Received, Halfway;
  }

  /** So do all layers of a peer that sends everything; those the node does not have it takes over. */
  lemma FullMeetsHalfway(s: State, p: Peer, peer: seq<Layer>, forwards: bool, i: nat)
    requires Full(peer) in s.net && i < |peer|
    ensures var before, after := NodeOf(s, p).layers, NodeOf(Next(s, Arrive(p, Full(peer), forwards)), p).layers;
            i < |after| && if i >= |before| then after[i] == peer[i]
                           else if |peer[i]| == |before[i]| then Halfway(after[i], before[i], peer[i])
                           else after[i] == before[i]
  {
    var before := NodeOf(s, p).layers;
    if i < |before| {
      AveragedIsHalfway(before[i], peer[i]);
    }
    hide Averaged, Halfway;
  }

  function Pow2(n: nat): (r: real)
    ensures r >= 1.0
  {
    if n == 0 then 1.0 else 2.0 * Pow2(n - 1)
  }

  /** The events at p. */
  function MeetingsAt(events: seq<Event>, p: Peer): nat {
    if events == [] then 0
    else MeetingsAt(events[..|events| - 1], p) + if events[|events| - 1].p == p then 1 else 0
  }

  /** The node's weights have come within 1/2^n of the distance they started at. */
  predicate Closer(after: Layer, before: Layer, peer: Layer, n: nat) {
    |after| == |before| == |peer|
    && forall j :: 0 <= j < |peer| ==> Pow2(n) * (after[j] - peer[j]) == before[j] - peer[j]
  }

  lemma HalfwayIsCloser(next: Layer, after: Layer, before: Layer, peer: Layer, n: nat)
    requires Closer(after, before, peer, n) && Halfway(next, after, peer)
    ensures Closer(next, before, peer, n + 1)
  {
    forall j | 0 <= j < |peer| ensures Pow2(n + 1) * (next[j] - peer[j]) == before[j] - peer[j] {
      var d := next[j] - peer[j];
      assert after[j] - peer[j] == 2.0 * d;
      assert Pow2(n + 1) * d == Pow2(n) * (2.0 * d);
    }
  }

  /**
   * A node that hears of nothing but one peer's layers, n times, has 1/2^n of its distance to them left, in every
   * weight, whatever the other nodes do meanwhile.
   */
  lemma {:induction false} RepeatedMeetingsConverge(s: State, events: seq<Event>, p: Peer, peer: seq<Layer>, i: nat)
    requires Full(peer) in s.net && i < |peer| && i < |NodeOf(s, p).layers| && |NodeOf(s, p).layers[i]| == |peer[i]|
    requires forall e :: e in events && e.p == p ==> e.Arrive? && e.packet == Full(peer)
    ensures var s' := Run(s, events);
            && Full(peer) in s'.net && i < |NodeOf(s', p).layers|
            && Closer(NodeOf(s', p).layers[i], NodeOf(s, p).layers[i], peer[i], MeetingsAt(events, p))
    decreases |events|
  {
    if events != [] {
      var front, e := events[..|events| - 1], events[|events| - 1];
      RepeatedMeetingsConverge(s, front, p, peer, i);
      var s1 := Run(s, front);
      if e.p == p {
        FullMeetsHalfway(s1, p, peer, e.forwards, i);
        HalfwayIsCloser(NodeOf(Next(s1, e), p).layers[i], NodeOf(s1, p).layers[i], NodeOf(s, p).layers[i], peer[i],
                        MeetingsAt(front, p));
      }
      hide Closer, NodeAfter, Sent, Halfway;
    }
  }

  /** Two nodes that each receive all layers of the other agree on every common layer of one length. */
  lemma ExchangeAgrees(s: State, p: Peer, q: Peer, i: nat)
    requires p != q && Full(NodeOf(s, p).layers) in s.net && Full(NodeOf(s, q).layers) in s.net
    requires i < |NodeOf(s, p).layers| && i < |NodeOf(s, q).layers|
    requires |NodeOf(s, p).layers[i]| == |NodeOf(s, q).layers[i]|
    ensures var s1 := Next(s, Arrive(p, Full(NodeOf(s, q).layers), false));
            var s2 := Next(s1, Arrive(q, Full(NodeOf(s, p).layers), false));
            && i < |NodeOf(s2, p).layers| && i < |NodeOf(s2, q).layers|
            && NodeOf(s2, p).layers[i] == NodeOf(s2, q).layers[i]
  {
    var a, b := NodeOf(s, p).layers, NodeOf(s, q).layers;
    var s1 := Next(s, Arrive(p, Full(b), false));
    FullMeetsHalfway(s, p, b, false, i);
    assert NodeOf(s1, q) == NodeOf(s, q);
    FullMeetsHalfway(s1, q, a, false, i);
    var s2 := Next(s1, Arrive(q, Full(a), false));
    assert NodeOf(s2, p) == NodeOf(s1, p);
    hide Next, NodeAfter, Sent;
    var x, y := NodeOf(s2, p).layers[i], NodeOf(s2, q).layers[i];
    forall j | 0 <= j < |a[i]| ensures x[j] == y[j] {
      assert x[j] - a[i][j] == b[i][j] - x[j] && y[j] - b[i][j] == a[i][j] - y[j];
    }
  }
}
