/**
 * Onion packets (node/sphinx.go): a loop wraps a payload in one layer per relay; each relay peels its layer and
 * the recipient takes the payload out. The ephemeral public key is repeated in every layer.
 *
 * Cryptography is a parameter with the laws it is used for; any number of relays is allowed, the node uses two.
 */
module Sphinx {
  import opened Common

  type Bytes = seq<byte>

  const NEXT_LEN_SIZE := 1
  const PEER_ID_SIZE := 64
  const MAC_SIZE := 32
  const FLAGS_SIZE := 1
  const ROUTING_SIZE := 152
  const HOP_LAYER_SIZE := NEXT_LEN_SIZE + PEER_ID_SIZE + MAC_SIZE + FLAGS_SIZE + ROUTING_SIZE
  const PAYLOAD_LEN_SIZE := 4
  const PAYLOAD_SIZE := 65536
  const NONCE_SIZE := 12
  const TAG_SIZE := 16
  const KEY_SIZE := 32

  datatype Crypto = Crypto(
    seal: (Bytes, Bytes, Bytes) -> Bytes,           // key, nonce, plaintext
    open: (Bytes, Bytes, Bytes) -> Option<Bytes>,   // key, nonce, ciphertext
    mac: (Bytes, Bytes) -> Bytes,                   // key, message
    publicOf: Bytes -> Bytes,
    shared: (Bytes, Bytes) -> Bytes,                // public key, private key
    peerString: Bytes -> Bytes,                     // a peer id as text
    peerDecode: Bytes -> Option<Bytes>)

  /**
   * Authenticated encryption opens what it sealed and adds a 16-byte tag (section 7 of NIST SP 800-38D), a MAC
   * has 32 bytes (section 2 of RFC 2104 with SHA-256), both ends of a key agreement get one key (section 6.1 of
   * RFC 7748), and a peer id's text decodes to it.
   */
  ghost predicate Laws(c: Crypto) {
    && (forall k, n, p :: c.open(k, n, c.seal(k, n, p)) == Some(p) && |c.seal(k, n, p)| == |p| + TAG_SIZE)
    && (forall k, m :: |c.mac(k, m)| == MAC_SIZE)
    && (forall a :: |c.publicOf(a)| == KEY_SIZE)
    && (forall a, b :: c.shared(c.publicOf(a), b) == c.shared(c.publicOf(b), a))
    && (forall id :: c.peerDecode(c.peerString(id)) == Some(id) && |c.peerString(id)| > 0)
  }

  function Zeros(n: nat): (z: Bytes)
    ensures |z| == n && forall i :: 0 <= i < n ==> z[i] == 0
  {
    seq(n, i => 0)
  }

  /** The laws are consistent: a transparent cipher, a constant MAC and a constant key satisfy them. */
  lemma LawsAreConsistent() returns (c: Crypto)
    ensures Laws(c)
  {
    c := Crypto(
      (k, n, p) => p + Zeros(TAG_SIZE),
      (k, n, ct) => if |ct| < TAG_SIZE then None else Some(ct[..|ct| - TAG_SIZE]),
      (k, m) => Zeros(MAC_SIZE),
      a => Zeros(KEY_SIZE),
      (a, b) => Zeros(KEY_SIZE),
      id => [0] + id,
      s => if s == [] then None else Some(s[1..]));
    assert forall p: Bytes :: (p + Zeros(TAG_SIZE))[..|p|] == p;
    assert forall id: Bytes :: ([0] + id)[1..] == id;
  }

  // ---------- the layers ----------

  /** The random bytes of one layer. */
  datatype Fill = Fill(padding: Bytes, nonce: Bytes)

  predicate GoodFill(f: Fill) {
    |f.padding| == ROUTING_SIZE - KEY_SIZE && |f.nonce| == NONCE_SIZE
  }

  /** A route: peers[i] is relay i, the last one the recipient; keys[i] is shared with peers[i]. */
  datatype Route = Route(peers: seq<Bytes>, ephemeral: Bytes, keys: seq<Bytes>)

  predicate RouteOk(r: Route) {
    |r.peers| > 0 && |r.keys| == |r.peers| && |r.ephemeral| == KEY_SIZE
  }

  /** All the randomness of one packet. */
  datatype Draw = Draw(fills: seq<Fill>, payloadPadding: Bytes)

  predicate GoodDraw(d: Draw, r: Route, payload: Bytes) {
    && |d.fills| == |r.peers|
    && (forall i :: 0 <= i < |d.fills| ==> GoodFill(d.fills[i]))
    && |d.payloadPadding| + PAYLOAD_LEN_SIZE + |payload| == PAYLOAD_SIZE
  }

  function FlagsByte(mixing: bool, dummy: bool): byte {
    (if mixing then 1 else 0) + (if dummy then 2 else 0)
  }

  predicate MixingBit(flags: byte) { flags as int % 2 == 1 }
  predicate DummyBit(flags: byte) { flags as int / 2 % 2 == 1 }

  function PeerIdField(text: Bytes): (f: Bytes)
    requires |text| <= PEER_ID_SIZE
    ensures |f| == NEXT_LEN_SIZE + PEER_ID_SIZE
  {
    [|text|] + text + Zeros(PEER_ID_SIZE - |text|)
  }

  /** What the MAC covers: everything in the packet but itself. */
  function Authenticated(head: Bytes, flags: byte, routing: Bytes, nonce: Bytes, ct: Bytes): Bytes {
    head + [flags] + routing + nonce + ct
  }

  function RelayLayer(c: Crypto, key: Bytes, ephemeral: Bytes, f: Fill, next: Bytes, flags: byte, inner: Bytes): Bytes
    requires |next| <= PEER_ID_SIZE
  {
    var head, routing, ct := PeerIdField(next), ephemeral + f.padding, c.seal(key, f.nonce, inner);
    head + c.mac(key, Authenticated(head, flags, routing, f.nonce, ct)) + [flags] + routing + f.nonce + ct
  }

  function FinalLayer(c: Crypto, key: Bytes, ephemeral: Bytes, f: Fill, payload: Bytes, padding: Bytes): Bytes {
    ephemeral + f.padding + f.nonce + c.seal(key, f.nonce, PutUint32(|payload|) + payload + padding)
  }

  predicate PeerIdsFit(c: Crypto, r: Route) {
    forall i :: 1 <= i < |r.peers| ==> |c.peerString(r.peers[i])| <= PEER_ID_SIZE
  }

  /** The packet as peers[i] receives it. */
  function Onion(c: Crypto, r: Route, d: Draw, payload: Bytes, flags: byte, i: nat): Bytes
    requires RouteOk(r) && GoodDraw(d, r, payload) && PeerIdsFit(c, r) && i < |r.peers|
    decreases |r.peers| - i
  {
    if i == |r.peers| - 1 then FinalLayer(c, r.keys[i], r.ephemeral, d.fills[i], payload, d.payloadPadding)
    else RelayLayer(c, r.keys[i], r.ephemeral, d.fills[i], c.peerString(r.peers[i + 1]), flags,
                    Onion(c, r, d, payload, flags, i + 1))
  }

  // ---------- building ----------

  datatype BuildError = WrongKeyCount | PayloadTooLarge | PeerIdTooLong

  /**
   * buildSphinxPacket, with the number of hops as a parameter: it succeeds exactly when there is a key per hop,
   * the payload fits, and every next hop's id fits, and then it has built the onion.
   */
  method Build(c: Crypto, r: Route, hops: nat, d: Draw, payload: Bytes, mixing: bool, dummy: bool)
    returns (result: Result<Bytes, BuildError>)
    requires |r.peers| == hops > 0 && |r.ephemeral| == KEY_SIZE
    requires |payload| <= PAYLOAD_SIZE - PAYLOAD_LEN_SIZE ==> GoodDraw(d, r, payload)
    ensures result.Ok? <==>
              |r.keys| == hops && |payload| <= PAYLOAD_SIZE - PAYLOAD_LEN_SIZE && PeerIdsFit(c, r)
    ensures result.Ok? ==> result.value == Onion(c, r, d, payload, FlagsByte(mixing, dummy), 0)
    ensures result.Err? ==> result.error == if |r.keys| != hops then WrongKeyCount
                                            else if |payload| > PAYLOAD_SIZE - PAYLOAD_LEN_SIZE then PayloadTooLarge
                                            else PeerIdTooLong
  {
    if |r.keys| != hops {
      return Err(WrongKeyCount);
    }
    if |payload| > PAYLOAD_SIZE - PAYLOAD_LEN_SIZE {
      return Err(PayloadTooLarge);
    }
    var last := hops - 1;
    var padded := PutUint32(|payload|) + payload + d.payloadPadding;
    var current := r.ephemeral + d.fills[last].padding + d.fills[last].nonce
                   + c.seal(r.keys[last], d.fills[last].nonce, padded);
    var flags: byte := 0;
    if mixing {
      flags := flags + 1;
    }
    if dummy {
      flags := flags + 2;
    }
    var i := last;
    while i > 0
      invariant 0 <= i <= last
      invariant forall j :: i < j <= last ==> |c.peerString(r.peers[j])| <= PEER_ID_SIZE
      invariant PeerIdsFit(c, r) ==> current == Onion(c, r, d, payload, flags, i)
    {
      var next := c.peerString(r.peers[i]);
      if |next| > PEER_ID_SIZE {
        return Err(PeerIdTooLong);
      }
      i := i - 1;
      var routing := r.ephemeral + d.fills[i].padding;
      var ct := c.seal(r.keys[i], d.fills[i].nonce, current);
      var head := PeerIdField(next);
      var mac := c.mac(r.keys[i], Authenticated(head, flags, routing, d.fills[i].nonce, ct));
      current := head + mac + [flags] + routing + d.fills[i].nonce + ct;
    }
    return Ok(current);
  }

  // ---------- peeling ----------

  datatype PeelError = TooShort | BadNextLength | BadPeerId | MacMismatch | DecryptFailed | BadPayloadLength

  datatype Peeled = Peeled(next: Bytes, mixing: bool, dummy: bool, rest: Bytes)

  const MAC_OFF := NEXT_LEN_SIZE + PEER_ID_SIZE
  const FLAGS_OFF := MAC_OFF + MAC_SIZE
  const ROUTING_OFF := FLAGS_OFF + FLAGS_SIZE

  /** The bytes a relay checks the MAC over, and the key it checks with. */
  function CheckedBytes(packet: Bytes): Bytes
    requires |packet| >= HOP_LAYER_SIZE + NONCE_SIZE
  {
    Authenticated(packet[..MAC_OFF], packet[FLAGS_OFF], packet[ROUTING_OFF..HOP_LAYER_SIZE],
                  packet[HOP_LAYER_SIZE..HOP_LAYER_SIZE + NONCE_SIZE], packet[HOP_LAYER_SIZE + NONCE_SIZE..])
  }

  function RelayKey(c: Crypto, priv: Bytes, packet: Bytes): Bytes
    requires |packet| >= HOP_LAYER_SIZE
  {
    c.shared(packet[ROUTING_OFF..ROUTING_OFF + KEY_SIZE], priv)
  }

  /** processSphinxPacket: the MAC is checked before anything is decrypted. */
  function Process(c: Crypto, priv: Bytes, packet: Bytes): Result<Peeled, PeelError> {
    if |packet| < HOP_LAYER_SIZE + NONCE_SIZE then Err(TooShort)
    else
      var nextLen := packet[0] as int;
      if nextLen <= 0 || nextLen > PEER_ID_SIZE then Err(BadNextLength)
      else
        var next := c.peerDecode(packet[NEXT_LEN_SIZE..NEXT_LEN_SIZE + nextLen]);
        if next.None? then Err(BadPeerId)
        else
          var flags, key := packet[FLAGS_OFF], RelayKey(c, priv, packet);
          if c.mac(key, CheckedBytes(packet)) != packet[MAC_OFF..FLAGS_OFF] then Err(MacMismatch)
          else
            match c.open(key, packet[HOP_LAYER_SIZE..HOP_LAYER_SIZE + NONCE_SIZE],
                         packet[HOP_LAYER_SIZE + NONCE_SIZE..])
            case None => Err(DecryptFailed)
            case Some(plain) => Ok(Peeled(next.value, MixingBit(flags), DummyBit(flags), plain))
  }

  /** extractSphinxPayload: the recipient's side. */
  function Extract(c: Crypto, priv: Bytes, packet: Bytes): Result<Bytes, PeelError> {
    if |packet| < ROUTING_SIZE + NONCE_SIZE then Err(TooShort)
    else
      match c.open(c.shared(packet[..KEY_SIZE], priv), packet[ROUTING_SIZE..ROUTING_SIZE + NONCE_SIZE],
                   packet[ROUTING_SIZE + NONCE_SIZE..])
      case None => Err(DecryptFailed)
      case Some(plain) =>
        if |plain| < PAYLOAD_LEN_SIZE then Err(TooShort)
        else
          var length := Uint32(plain[..4]);
          if PAYLOAD_LEN_SIZE + length > |plain| then Err(BadPayloadLength)
          else Ok(plain[PAYLOAD_LEN_SIZE..PAYLOAD_LEN_SIZE + length])
  }

  // ---------- peeling inverts building ----------

  /** The fields of a relay layer are where the relay looks for them. */
  lemma LayerFields(head: Bytes, tag: Bytes, flags: byte, routing: Bytes, nonce: Bytes, ct: Bytes)
    requires |head| == MAC_OFF && |tag| == MAC_SIZE && |routing| == ROUTING_SIZE && |nonce| == NONCE_SIZE
    ensures var packet := head + tag + [flags] + routing + nonce + ct;
            && |packet| == HOP_LAYER_SIZE + NONCE_SIZE + |ct|
            && packet[..MAC_OFF] == head && packet[MAC_OFF..FLAGS_OFF] == tag && packet[FLAGS_OFF] == flags
            && packet[ROUTING_OFF..HOP_LAYER_SIZE] == routing
            && packet[HOP_LAYER_SIZE..HOP_LAYER_SIZE + NONCE_SIZE] == nonce
            && packet[HOP_LAYER_SIZE + NONCE_SIZE..] == ct
            && CheckedBytes(packet) == Authenticated(head, flags, routing, nonce, ct)
  {
    var packet := head + tag + [flags] + routing + nonce + ct;
    assert packet[..MAC_OFF] == head;
    assert packet[MAC_OFF..FLAGS_OFF] == tag;
    assert packet[ROUTING_OFF..HOP_LAYER_SIZE] == routing;
    assert packet[HOP_LAYER_SIZE..HOP_LAYER_SIZE + NONCE_SIZE] == nonce;
    assert packet[HOP_LAYER_SIZE + NONCE_SIZE..] == ct;
  }

  lemma PeelsRelayLayer(c: Crypto, priv: Bytes, ephemeral: Bytes, f: Fill, id: Bytes, mixing: bool, dummy: bool,
                        inner: Bytes)
    requires Laws(c) && GoodFill(f) && |ephemeral| == KEY_SIZE && |c.peerString(id)| <= PEER_ID_SIZE
    ensures var packet := RelayLayer(c, c.shared(ephemeral, priv), ephemeral, f, c.peerString(id),
                                     FlagsByte(mixing, dummy), inner);
            && |packet| == |inner| + 278
            && Process(c, priv, packet) == Ok(Peeled(id, mixing, dummy, inner))
  {
    var key, next, flags := c.shared(ephemeral, priv), c.peerString(id), FlagsByte(mixing, dummy);
    var head, routing, ct := PeerIdField(next), ephemeral + f.padding, c.seal(key, f.nonce, inner);
    var tag := c.mac(key, Authenticated(head, flags, routing, f.nonce, ct));
    var packet := head + tag + [flags] + routing + f.nonce + ct;
    LayerFields(head, tag, flags, routing, f.nonce, ct);
    assert packet == RelayLayer(c, key, ephemeral, f, next, flags, inner);
    assert packet[0] == head[0] == |next|;
    assert packet[NEXT_LEN_SIZE..NEXT_LEN_SIZE + |next|] == head[NEXT_LEN_SIZE..NEXT_LEN_SIZE + |next|] == next;
    assert packet[ROUTING_OFF..ROUTING_OFF + KEY_SIZE] == routing[..KEY_SIZE] == ephemeral;
  }

  lemma ExtractsFinalLayer(c: Crypto, priv: Bytes, ephemeral: Bytes, f: Fill, payload: Bytes, padding: Bytes)
    requires Laws(c) && GoodFill(f) && |ephemeral| == KEY_SIZE
    requires |padding| + PAYLOAD_LEN_SIZE + |payload| == PAYLOAD_SIZE
    ensures var packet := FinalLayer(c, c.shared(ephemeral, priv), ephemeral, f, payload, padding);
            |packet| == 65716 && Extract(c, priv, packet) == Ok(payload)
  {
    var key, plain := c.shared(ephemeral, priv), PutUint32(|payload|) + payload + padding;
    var ct := c.seal(key, f.nonce, plain);
    var packet := ephemeral + f.padding + f.nonce + ct;
    assert packet[..KEY_SIZE] == ephemeral;
    assert packet[ROUTING_SIZE..ROUTING_SIZE + NONCE_SIZE] == f.nonce;
    assert packet[ROUTING_SIZE + NONCE_SIZE..] == ct;
    assert plain[..4] == PutUint32(|payload|);
    assert plain[PAYLOAD_LEN_SIZE..PAYLOAD_LEN_SIZE + |payload|] == payload;
    Uint32OfPut(|payload|);
  }

  /** The route buildSphinxRoute makes for peers with these private keys. */
  function RouteTo(c: Crypto, peers: seq<Bytes>, privs: seq<Bytes>, ephemeralPriv: Bytes): Route
    requires |privs| == |peers|
  {
    Route(peers, c.publicOf(ephemeralPriv),
          seq(|peers|, i requires 0 <= i < |peers| => c.shared(c.publicOf(privs[i]), ephemeralPriv)))
  }

  /** Each peer's own key agreement gives the key its layer was made with. */
  ghost predicate KeysAgree(c: Crypto, r: Route, privs: seq<Bytes>) {
    && RouteOk(r) && |privs| == |r.peers|
    && forall i :: 0 <= i < |privs| ==> r.keys[i] == c.shared(r.ephemeral, privs[i])
  }

  lemma RouteKeysAgree(c: Crypto, peers: seq<Bytes>, privs: seq<Bytes>, ephemeralPriv: Bytes)
    requires Laws(c) && |privs| == |peers| > 0
    ensures KeysAgree(c, RouteTo(c, peers, privs, ephemeralPriv), privs)
  {
  }

  /** Every relay recovers its next hop, both flags and exactly the next packet. */
  lemma RelayPeels(c: Crypto, r: Route, privs: seq<Bytes>, d: Draw, payload: Bytes, mixing: bool, dummy: bool, i: nat)
    requires Laws(c) && KeysAgree(c, r, privs) && GoodDraw(d, r, payload) && PeerIdsFit(c, r) && i + 1 < |r.peers|
    ensures var flags := FlagsByte(mixing, dummy);
            Process(c, privs[i], Onion(c, r, d, payload, flags, i))
            == Ok(Peeled(r.peers[i + 1], mixing, dummy, Onion(c, r, d, payload, flags, i + 1)))
  {
    PeelsRelayLayer(c, privs[i], r.ephemeral, d.fills[i], r.peers[i + 1], mixing, dummy,
                    Onion(c, r, d, payload, FlagsByte(mixing, dummy), i + 1));
  }

  /** A packet's length says only how many relays are left. */
  lemma {:induction false} OnionSize(c: Crypto, r: Route, d: Draw, payload: Bytes, flags: byte, i: nat)
    requires Laws(c) && RouteOk(r) && GoodDraw(d, r, payload) && PeerIdsFit(c, r) && i < |r.peers|
    ensures |Onion(c, r, d, payload, flags, i)| == 65716 + 278 * (|r.peers| - 1 - i)
    decreases |r.peers| - i
  {
    if i + 1 < |r.peers| {
      OnionSize(c, r, d, payload, flags, i + 1);
    }
  }

  // ---------- the whole journey ----------

  datatype Hop = Hop(next: Bytes, mixing: bool, dummy: bool)

  datatype Journey = Journey(hops: seq<Hop>, payload: Bytes)

  /** The packet visits the holders of privs in turn: relays peel and pass on what is left, the last one extracts. */
  function Travel(c: Crypto, privs: seq<Bytes>, packet: Bytes): Result<Journey, PeelError>
    requires |privs| > 0
    decreases |privs|
  {
    if |privs| == 1 then
      match Extract(c, privs[0], packet)
      case Ok(payload) => Ok(Journey([], payload))
      case Err(e) => Err(e)
    else
      match Process(c, privs[0], packet)
      case Ok(p) =>
        (match Travel(c, privs[1..], p.rest)
         case Ok(j) => Ok(Journey([Hop(p.next, p.mixing, p.dummy)] + j.hops, j.payload))
         case Err(e) => Err(e))
      case Err(e) => Err(e)
  }

  function Itinerary(peers: seq<Bytes>, mixing: bool, dummy: bool): seq<Hop>
    requires |peers| > 0
  {
    seq(|peers| - 1, i requires 0 <= i < |peers| - 1 => Hop(peers[i + 1], mixing, dummy))
  }

  lemma {:induction false} TravelFrom(c: Crypto, r: Route, privs: seq<Bytes>, d: Draw, payload: Bytes, mixing: bool,
                                      dummy: bool, i: nat)
    requires Laws(c) && KeysAgree(c, r, privs) && GoodDraw(d, r, payload) && PeerIdsFit(c, r) && i < |r.peers|
    ensures Travel(c, privs[i..], Onion(c, r, d, payload, FlagsByte(mixing, dummy), i))
            == Ok(Journey(Itinerary(r.peers[i..], mixing, dummy), payload))
    decreases |r.peers| - i
  {
    hide Process, Extract, FinalLayer, RelayLayer, Laws;
    if i == |r.peers| - 1 {
      ExtractsFinalLayer(c, privs[i], r.ephemeral, d.fills[i], payload, d.payloadPadding);
      assert Itinerary(r.peers[i..], mixing, dummy) == [];
    } else {
      RelayPeels(c, r, privs, d, payload, mixing, dummy, i);
      TravelFrom(c, r, privs, d, payload, mixing, dummy, i + 1);
      assert privs[i..][1..] == privs[i + 1..];
      assert Itinerary(r.peers[i..], mixing, dummy)
             == [Hop(r.peers[i + 1], mixing, dummy)] + Itinerary(r.peers[i + 1..], mixing, dummy);
    }
  }

  /**
   * Peeling inverts building, for any route, payload and flags: whatever Build returns travels the route it was
   * built for, hop by hop, and delivers the payload it was given.
   */
  method BuildThenTravel(c: Crypto, peers: seq<Bytes>, privs: seq<Bytes>, ephemeralPriv: Bytes, d: Draw,
                         payload: Bytes, mixing: bool, dummy: bool)
    returns (packet: Result<Bytes, BuildError>)
    requires Laws(c) && |privs| == |peers| > 0
    requires |payload| <= PAYLOAD_SIZE - PAYLOAD_LEN_SIZE ==>
               GoodDraw(d, RouteTo(c, peers, privs, ephemeralPriv), payload)
    ensures packet.Ok? <==> |payload| <= 65532 && PeerIdsFit(c, RouteTo(c, peers, privs, ephemeralPriv))
    ensures packet.Ok? ==>
              && Travel(c, privs, packet.value) == Ok(Journey(Itinerary(peers, mixing, dummy), payload))
              && |packet.value| == 65716 + 278 * (|peers| - 1)
    // Two relays, as the node uses.
    ensures packet.Ok? && |peers| == 3 ==> |packet.value| == 66272
  {
    var r := RouteTo(c, peers, privs, ephemeralPriv);
    packet := Build(c, r, |peers|, d, payload, mixing, dummy);
    if packet.Ok? {
      RouteKeysAgree(c, peers, privs, ephemeralPriv);
      TravelFrom(c, r, privs, d, payload, mixing, dummy, 0);
      assert privs[0..] == privs && peers[0..] == peers;
      OnionSize(c, r, d, payload, FlagsByte(mixing, dummy), 0);
    }
  }

  // ---------- the bytes on the wire ----------

  /** Where a relay's packet has its fields: length and id of the next hop, flags, routing, nonce, ciphertext. */
  lemma RelayWire(c: Crypto, r: Route, d: Draw, payload: Bytes, mixing: bool, dummy: bool, i: nat)
    requires Laws(c) && RouteOk(r) && GoodDraw(d, r, payload) && PeerIdsFit(c, r) && i + 1 < |r.peers|
    ensures var flags := FlagsByte(mixing, dummy);
            var packet, id := Onion(c, r, d, payload, flags, i), c.peerString(r.peers[i + 1]);
            && |packet| >= 262 && packet[0] as int == |id| && packet[1..1 + |id|] == id
            && packet[1 + |id|..65] == Zeros(64 - |id|)
            && packet[97] as int == (if mixing then 1 else 0) + (if dummy then 2 else 0)
            && packet[98..130] == r.ephemeral && packet[130..250] == d.fills[i].padding
            && packet[250..262] == d.fills[i].nonce
            && packet[262..] == c.seal(r.keys[i], d.fills[i].nonce, Onion(c, r, d, payload, flags, i + 1))
  {
    var f, flags, next := d.fills[i], FlagsByte(mixing, dummy), c.peerString(r.peers[i + 1]);
    var inner := Onion(c, r, d, payload, flags, i + 1);
    var head, routing, ct := PeerIdField(next), r.ephemeral + f.padding, c.seal(r.keys[i], f.nonce, inner);
    var tag := c.mac(r.keys[i], Authenticated(head, flags, routing, f.nonce, ct));
    var packet := head + tag + [flags] + routing + f.nonce + ct;
    assert packet == Onion(c, r, d, payload, flags, i);
    hide Onion, Authenticated;
    LayerFields(head, tag, flags, routing, f.nonce, ct);
    SliceOfFront(packet, 65, 1, 1 + |next|);
    SliceOfFront(packet, 65, 1 + |next|, 65);
    SliceOfRest(packet, 98, 0, 32);
    SliceOfRest(packet, 98, 32, 152);
    assert packet[98..][..152] == packet[98..250] == routing;
    assert packet[98..130] == routing[..32] && packet[130..250] == routing[32..];
  }

  lemma SliceOfFront(s: Bytes, n: nat, i: nat, j: nat)
    requires i <= j <= n <= |s|
    ensures s[..n][i..j] == s[i..j]
  {
  }

  /** And the recipient's: the key, the nonce, and the sealed length, payload and padding. */
  lemma FinalWire(c: Crypto, r: Route, d: Draw, payload: Bytes, flags: byte)
    requires Laws(c) && RouteOk(r) && GoodDraw(d, r, payload) && PeerIdsFit(c, r)
    ensures var n := |r.peers| - 1;
            var packet := Onion(c, r, d, payload, flags, n);
            && |packet| == 65716 && packet[..32] == r.ephemeral && packet[32..152] == d.fills[n].padding
            && packet[152..164] == d.fills[n].nonce
            && packet[164..] == c.seal(r.keys[n], d.fills[n].nonce, PutUint32(|payload|) + payload + d.payloadPadding)
  {
    var n := |r.peers| - 1;
    var f, packet := d.fills[n], Onion(c, r, d, payload, flags, n);
    var ct := c.seal(r.keys[n], f.nonce, PutUint32(|payload|) + payload + d.payloadPadding);
    assert packet == r.ephemeral + f.padding + f.nonce + ct;
    hide Onion;
    assert packet[..32] == r.ephemeral;
    assert packet[32..152] == f.padding;
    assert packet[152..164] == f.nonce;
    assert packet[164..] == ct;
  }

  /** What a relay accepts, and of a packet it rejects, the first thing that is wrong. */
  lemma ProcessOutcome(c: Crypto, priv: Bytes, packet: Bytes)
    ensures var r := Process(c, priv, packet);
            if |packet| < 262 then r == Err(TooShort)
            else if packet[0] as int == 0 || packet[0] as int > 64 then r == Err(BadNextLength)
            else if c.peerDecode(packet[1..1 + packet[0] as int]).None? then r == Err(BadPeerId)
            else
              var key := c.shared(packet[98..130], priv);
              if packet[65..97] != c.mac(key, packet[..65] + packet[97..]) then r == Err(MacMismatch)
              else
                var plain := c.open(key, packet[250..262], packet[262..]);
                if plain.None? then r == Err(DecryptFailed)
                else && r.Ok? && r.value.rest == plain.value
                     && c.peerDecode(packet[1..1 + packet[0] as int]) == Some(r.value.next)
                     && (r.value.mixing <==> packet[97] as int % 2 == 1)
                     && (r.value.dummy <==> packet[97] as int % 4 >= 2)
  {
    if |packet| >= 262 {
      CheckedBytesSplit(packet);
      hide CheckedBytes;
    }
  }

  /** What the recipient takes out stands in the decrypted bytes behind its length; all else is an error. */
  lemma ExtractOutcome(c: Crypto, priv: Bytes, packet: Bytes)
    ensures var r := Extract(c, priv, packet);
            if |packet| < 164 then r == Err(TooShort)
            else
              var plain := c.open(c.shared(packet[..32], priv), packet[152..164], packet[164..]);
              if plain.None? then r == Err(DecryptFailed)
              else if |plain.value| < 4 then r == Err(TooShort)
              else if r.Ok? then
                && 4 + |r.value| <= |plain.value| && plain.value[..4] == PutUint32(|r.value|)
                && plain.value[4..4 + |r.value|] == r.value
              else && r == Err(BadPayloadLength)
                   && forall n: nat | 4 + n <= |plain.value| && n < TWO_32 :: plain.value[..4] != PutUint32(n)
  {
    if |packet| >= 164 {
      var plain := c.open(c.shared(packet[..32], priv), packet[152..164], packet[164..]);
      if plain.Some? && |plain.value| >= 4 {
        LengthRead(plain.value[..4]);
        hide PutUint32, Uint32;
      }
    }
  }

  /** The four bytes are the encoding of one length only. */
  lemma LengthRead(bytes: Bytes)
    requires |bytes| == 4
    ensures PutUint32(Uint32(bytes)) == bytes
    ensures forall n: nat :: n < TWO_32 && bytes == PutUint32(n) ==> n == Uint32(bytes)
  {
    PutOfUint32(bytes);
    hide PutUint32, Uint32;
    forall n: nat | n < TWO_32 && bytes == PutUint32(n) ensures n == Uint32(bytes) {
      Uint32OfPut(n);
    }
  }

  // ---------- tampering ----------

  /**
   * A relay that accepts two different packets has checked its MAC over different bytes: any change to an
   * accepted packet, in the next hop, its padding, the flags, the routing, the nonce, the ciphertext or the MAC
   * itself, is rejected unless the changed packet carries a valid MAC for bytes that were never authenticated.
   */
  lemma TamperNeedsForgery(c: Crypto, priv: Bytes, accepted: Bytes, changed: Bytes)
    requires Process(c, priv, accepted).Ok? && accepted != changed && Process(c, priv, changed).Ok?
    ensures CheckedBytes(changed) != CheckedBytes(accepted)
    ensures c.mac(RelayKey(c, priv, changed), CheckedBytes(changed)) == changed[MAC_OFF..FLAGS_OFF]
  {
    if CheckedBytes(changed) == CheckedBytes(accepted) {
      CheckedBytesDetermine(c, priv, accepted, changed);
    }
  }

  lemma CheckedBytesDetermine(c: Crypto, priv: Bytes, a: Bytes, b: Bytes)
    requires Process(c, priv, a).Ok? && Process(c, priv, b).Ok? && CheckedBytes(a) == CheckedBytes(b)
    ensures a == b
  {
    SameOutsideMac(a, b);
    SliceOfRest(a, FLAGS_OFF, 1, 1 + KEY_SIZE);
    SliceOfRest(b, FLAGS_OFF, 1, 1 + KEY_SIZE);
    assert RelayKey(c, priv, a) == RelayKey(c, priv, b);
    assert a[MAC_OFF..FLAGS_OFF] == c.mac(RelayKey(c, priv, a), CheckedBytes(a)) == b[MAC_OFF..FLAGS_OFF];
    hide Process, CheckedBytes, RelayKey;
    InThree(a, MAC_OFF, FLAGS_OFF);
    InThree(b, MAC_OFF, FLAGS_OFF);
  }

  lemma SameOutsideMac(a: Bytes, b: Bytes)
    requires |a| >= HOP_LAYER_SIZE + NONCE_SIZE && |b| >= HOP_LAYER_SIZE + NONCE_SIZE
    requires CheckedBytes(a) == CheckedBytes(b)
    ensures a[..MAC_OFF] == b[..MAC_OFF] && a[FLAGS_OFF..] == b[FLAGS_OFF..]
  {
    CheckedBytesSplit(a);
    CheckedBytesSplit(b);
    hide CheckedBytes;
    SplitAgain(a[..MAC_OFF], a[FLAGS_OFF..]);
    SplitAgain(b[..MAC_OFF], b[FLAGS_OFF..]);
  }

  lemma SplitAgain(front: Bytes, rest: Bytes)
    ensures (front + rest)[..|front|] == front && (front + rest)[|front|..] == rest
  {
  }

  lemma SliceOfRest(s: Bytes, i: nat, j: nat, k: nat)
    requires j <= k && i + k <= |s|
    ensures s[i..][j..k] == s[i + j..i + k]
  {
  }

  lemma InThree(s: Bytes, i: nat, j: nat)
    requires i <= j <= |s|
    ensures s == s[..i] + s[i..j] + s[j..]
  {
  }

  lemma CheckedBytesSplit(packet: Bytes)
    requires |packet| >= HOP_LAYER_SIZE + NONCE_SIZE
    ensures CheckedBytes(packet) == packet[..MAC_OFF] + packet[FLAGS_OFF..]
  {
    var n := HOP_LAYER_SIZE + NONCE_SIZE;
    assert packet[FLAGS_OFF..] == [packet[FLAGS_OFF]] + packet[ROUTING_OFF..HOP_LAYER_SIZE]
                                  + packet[HOP_LAYER_SIZE..n] + packet[n..];
  }
}
