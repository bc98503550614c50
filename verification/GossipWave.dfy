/**
 * How far one broadcast spreads (node/layers.go): each copy is delivered at most once, and while its TTL lasts the
 * node that receives it sends a few copies on, never back to the peer it came from.
 */
module GossipWave {
  import Gossip

  type Peer = int

  const DEFAULT_TTL := Gossip.DEFAULT_TTL

  // ---------- fanout and selection ----------

  /** The integer part of the square root. */
  function Isqrt(n: nat): (r: nat)
    ensures r * r <= n < (r + 1) * (r + 1)
  {
    IsqrtFrom(n, 0)
  }

  function IsqrtFrom(n: nat, r: nat): (s: nat)
    requires r * r <= n
    ensures s * s <= n < (s + 1) * (s + 1)
    decreases n - r * r
  {
    if (r + 1) * (r + 1) <= n then IsqrtFrom(n, r + 1) else r
  }

  /** How many of n peers are chosen. */
  function Fanout(n: nat): (f: nat)
    ensures f <= n
    ensures n <= 2 ==> f == n
    ensures n >= 2 ==> f >= 2
    ensures f <= 2 || f * f <= n
    ensures n < (f + 1) * (f + 1)
  {
    var f := if Isqrt(n) < 2 then 2 else Isqrt(n);
    if f > n then n else f
  }

  lemma IsqrtMonotone(m: nat, n: nat)
    requires m <= n
    ensures Isqrt(m) <= Isqrt(n)
  {
    var a, b := Isqrt(m), Isqrt(n);
    if a > b {
      Squares(b + 1, a);
    }
  }

  lemma Squares(a: nat, b: nat)
    requires a <= b
    ensures a * a <= b * b
  {
  }

  lemma FanoutMonotone(m: nat, n: nat)
    requires m <= n
    ensures Fanout(m) <= Fanout(n)
  {
    IsqrtMonotone(m, n);
    hide Isqrt;
  }

  predicate Distinct(s: seq<Peer>) {
    forall i, j :: 0 <= i < j < |s| ==> s[i] != s[j]
  }

  /** A selection of at most k of the peers, without repetition; all of them if there are no more than k. */
  predicate IsSelection(chosen: seq<Peer>, peers: seq<Peer>, k: nat) {
    && Distinct(chosen)
    && |chosen| == (if k >= |peers| then |peers| else k)
    && forall i :: 0 <= i < |chosen| ==> chosen[i] in peers
  }

  /** perm is the random permutation drawn. */
  method SelectRandomPeers(peers: seq<Peer>, k: nat, perm: seq<nat>) returns (chosen: seq<Peer>)
    requires Distinct(peers)
    requires |perm| == |peers| && Distinct(perm) && forall i :: 0 <= i < |perm| ==> perm[i] < |peers|
    ensures IsSelection(chosen, peers, k)
  {
    if k >= |peers| {
      return peers;
    }
    chosen := [];
    for i := 0 to k
      invariant |chosen| == i && forall j :: 0 <= j < i ==> chosen[j] == peers[perm[j]]
    {
      chosen := chosen + [peers[perm[i]]];
    }
  }

  function Candidates(peers: seq<Peer>, sender: Peer): (r: seq<Peer>)
    ensures |r| <= |peers|
    ensures forall p :: p in r <==> p in peers && p != sender
    ensures Distinct(peers) ==> Distinct(r)
  {
    if peers == [] then []
    else
      var n := |peers| - 1;
      var front, p := Candidates(peers[..n], sender), peers[n];
      assert Distinct(peers) ==> Distinct(peers[..n]) && p !in peers[..n];
      assert forall i :: 0 <= i < |front| ==> front[i] in front && front[i] in peers[..n];
      if p != sender then front + [p] else front
  }

  // ---------- the wave ----------

  /** A copy in flight. */
  datatype Copy = Copy(from: Peer, to: Peer, ttl: nat)

  /**
   * Copies in flight arrive in any order or not at all: an event names the one it takes. peers are those the node that
   * receives it is connected to at that moment.
   */
  datatype Event =
    | Deliver(k: nat, peers: seq<Peer>, chosen: seq<Peer>)
    | Lose(k: nat)

  function CopiesTo(from: Peer, chosen: seq<Peer>, ttl: nat): (r: seq<Copy>)
    ensures |r| == |chosen|
    ensures forall i :: 0 <= i < |r| ==> r[i] == Copy(from, chosen[i], ttl)
  {
    seq(|chosen|, i requires 0 <= i < |chosen| => Copy(from, chosen[i], ttl))
  }

  /** The peers a received copy is sent on to: none when its TTL has run out or there is no other node to send to. */
  predicate MayChoose(peers: seq<Peer>, c: Copy, chosen: seq<Peer>) {
    if c.ttl > 1 && |peers| > 1
    then IsSelection(chosen, Candidates(peers, c.from), Fanout(|peers|))
    else chosen == []
  }

  predicate Enabled(flight: seq<Copy>, e: Event) {
    e.k < |flight| && (e.Deliver? ==> MayChoose(e.peers, flight[e.k], e.chosen))
  }

  function Forwards(c: Copy, e: Event): seq<Copy> {
    if e.Deliver? && c.ttl > 1 then CopiesTo(c.to, e.chosen, c.ttl - 1) else []
  }

  function Next(flight: seq<Copy>, e: Event): seq<Copy>
    requires e.k < |flight|
  {
    flight[..e.k] + flight[e.k + 1..] + Forwards(flight[e.k], e)
  }

  /** What the broadcast puts into flight. */
  predicate IsBroadcast(peers: seq<Peer>, origin: Peer, flight: seq<Copy>, chosen: seq<Peer>) {
    IsSelection(chosen, peers, Fanout(|peers|)) && flight == CopiesTo(origin, chosen, DEFAULT_TTL)
  }

  predicate ValidRun(flight: seq<Copy>, events: seq<Event>)
    decreases |events|
  {
    events == [] || (Enabled(flight, events[0]) && ValidRun(Next(flight, events[0]), events[1..]))
  }

  function Deliveries(events: seq<Event>): nat {
    if events == [] then 0 else (if events[0].Deliver? then 1 else 0) + Deliveries(events[1..])
  }

  // ---------- no echo ----------

  /** A copy is never sent on to the peer it came from. */
  lemma NoForwardToSender(flight: seq<Copy>, e: Event)
    requires Enabled(flight, e)
    ensures forall c :: c in Forwards(flight[e.k], e) ==> c.from == flight[e.k].to && c.to != flight[e.k].from
  {
    var c := flight[e.k];
    forall i | 0 <= i < |Forwards(c, e)| ensures Forwards(c, e)[i].to != c.from {
      assert e.chosen[i] in Candidates(e.peers, c.from);
    }
  }

  lemma {:induction false} CandidatesCount(peers: seq<Peer>, sender: Peer)
    requires Distinct(peers)
    ensures |Candidates(peers, sender)| == |peers| - if sender in peers then 1 else 0
  {
    if peers != [] {
      var n := |peers| - 1;
      assert Distinct(peers[..n]) && peers[n] !in peers[..n];
      assert peers == peers[..n] + [peers[n]];
      CandidatesCount(peers[..n], sender);
    }
  }

  /**
   * A copy that may travel on does: with one hop less, to as many different peers as the fanout asks for, or to all but
   * the one it came from; one on its last hop, or at a node with a single peer, is not sent on.
   */
  lemma SentOnToFanout(flight: seq<Copy>, e: Event)
    requires Enabled(flight, e) && e.Deliver? && Distinct(e.peers)
    ensures var c, sent := flight[e.k], Forwards(flight[e.k], e);
            var others := |e.peers| - if c.from in e.peers then 1 else 0;
            if c.ttl <= 1 || |e.peers| <= 1 then sent == []
            else && |sent| == (if Fanout(|e.peers|) >= others then others else Fanout(|e.peers|))
                 && (forall i :: 0 <= i < |sent| ==> sent[i].ttl == c.ttl - 1 && sent[i].to in e.peers)
                 && (forall i, j :: 0 <= i < j < |sent| ==> sent[i].to != sent[j].to)
  {
    CandidatesCount(e.peers, flight[e.k].from);
    hide Fanout;
  }

  // ---------- the measure ----------

  /** The most deliveries one copy can lead to, itself included, when no node sends on more than f copies. */
  function Worth(ttl: nat, f: nat): (w: nat)
    ensures w >= 1
  {
    if ttl <= 1 then 1 else 1 + f * Worth(ttl - 1, f)
  }

  function Measure(flight: seq<Copy>, f: nat): nat {
    if flight == [] then 0 else Worth(flight[0].ttl, f) + Measure(flight[1..], f)
  }

  lemma {:induction false} MeasureConcat(a: seq<Copy>, b: seq<Copy>, f: nat)
    ensures Measure(a + b, f) == Measure(a, f) + Measure(b, f)
  {
    if a == [] {
      assert a + b == b;
    } else {
      MeasureConcat(a[1..], b, f);
      assert (a + b)[1..] == a[1..] + b;
    }
  }

  lemma {:induction false} MeasureUniform(copies: seq<Copy>, ttl: nat, f: nat)
    requires forall i :: 0 <= i < |copies| ==> copies[i].ttl == ttl
    ensures Measure(copies, f) == |copies| * Worth(ttl, f)
  {
    if copies != [] {
      MeasureUniform(copies[1..], ttl, f);
      assert (|copies| - 1) * Worth(ttl, f) + Worth(ttl, f) == |copies| * Worth(ttl, f);
    }
  }

  /** No node that receives a copy has more than n peers at that moment. */
  predicate AtMostPeers(events: seq<Event>, n: nat) {
    forall i :: 0 <= i < |events| && events[i].Deliver? ==> |events[i].peers| <= n
  }

  lemma ChosenBounded(peers: seq<Peer>, c: Copy, chosen: seq<Peer>, n: nat)
    requires |peers| <= n && MayChoose(peers, c, chosen)
    ensures |chosen| <= Fanout(n)
  {
    FanoutMonotone(|peers|, n);
    hide Fanout;
  }

  /** A delivery uses up at least one of the deliveries the copies in flight are worth; a loss adds none. */
  lemma NextLowersMeasure(flight: seq<Copy>, e: Event, n: nat)
    requires Enabled(flight, e) && (e.Deliver? ==> |e.peers| <= n)
    ensures Measure(Next(flight, e), Fanout(n)) + (if e.Deliver? then 1 else 0) <= Measure(flight, Fanout(n))
  {
    var f, c := Fanout(n), flight[e.k];
    var sent := Forwards(c, e);
    assert Measure(sent, f) + 1 <= Worth(c.ttl, f) by {
      if e.Deliver? && c.ttl > 1 {
        ChosenBounded(e.peers, c, e.chosen, n);
        MeasureUniform(sent, c.ttl - 1, f);
        AtMost(|sent|, f, Worth(c.ttl - 1, f));
      }
    }
    hide Forwards, Fanout, Enabled;
    assert flight == flight[..e.k] + ([c] + flight[e.k + 1..]);
    MeasureConcat(flight[..e.k], [c] + flight[e.k + 1..], f);
    MeasureConcat([c], flight[e.k + 1..], f);
    MeasureConcat(flight[..e.k] + flight[e.k + 1..], sent, f);
    MeasureConcat(flight[..e.k], flight[e.k + 1..], f);
    assert Measure([c], f) == Worth(c.ttl, f) + Measure([], f);
  }

  lemma AtMost(a: nat, b: nat, w: nat)
    requires a <= b
    ensures a * w <= b * w
  {
  }

  lemma {:induction false} DeliveriesBounded(flight: seq<Copy>, events: seq<Event>, n: nat)
    requires AtMostPeers(events, n) && ValidRun(flight, events)
    ensures Deliveries(events) <= Measure(flight, Fanout(n))
    decreases |events|
  {
    if events != [] {
      NextLowersMeasure(flight, events[0], n);
      DeliveriesBounded(Next(flight, events[0]), events[1..], n);
    }
  }

  /**
   * One broadcast among nodes that never have more than n peers, however connections come and go: with F the fanout of
   * n peers, no run delivers more than F + F^2 + F^3 copies, whatever is lost, whoever is chosen and in whatever order
   * copies arrive.
   */
  lemma WaveEnds(peers: seq<Peer>, origin: Peer, chosen: seq<Peer>, flight: seq<Copy>, events: seq<Event>, n: nat)
    requires |peers| <= n && IsBroadcast(peers, origin, flight, chosen)
    requires AtMostPeers(events, n) && ValidRun(flight, events)
    ensures var f := Fanout(n); Deliveries(events) <= f + f * f + f * f * f
  {
    var f := Fanout(n);
    FanoutMonotone(|peers|, n);
    hide Fanout, Worth, Deliveries, ValidRun;
    DeliveriesBounded(flight, events, n);
    MeasureUniform(flight, 3, f);
    AtMost(|flight|, f, Worth(3, f));
    WorthOfWave(f);
  }

  lemma WorthOfWave(f: nat)
    ensures f * Worth(3, f) == f + f * f + f * f * f
  {
    assert Worth(1, f) == 1;
    assert Worth(2, f) == 1 + f;
    assert f * (1 + f * (1 + f)) == f + f * f + f * f * f;
  }
}
