/**
 * The message store (node/memory.go): a slice of messages and three indexes over it.
 *
 * The functions say what each operation does to the slice; MapStep says what it does to a
 * plain map from id to message; the class is the slice with its indexes.
 */
module MessageStore {
  import opened Common

  /** An instant in nanoseconds, or Go's zero time. */
  datatype Time = Zero | At(ns: int)

  const NS_PER_HOUR: int := 3_600_000_000_000
  const MIN_INT64: int := -0x8000_0000_0000_0000

  type Status = s: int | 0 <= s <= 4

  const STATUS_DELIVERED: Status := 2
  const STATUS_HIDDEN: Status := 3
  const STATUS_READ: Status := 4

  datatype Message = Message(
    id: string,
    text: string,
    plainText: string,
    sender: string,
    recipient: string,
    weight: real,
    created: Time,
    expiresAt: Time,
    ttlMode: string,
    ttlPeriodSeconds: int,
    status: Status,
    isOwn: bool,
    mediaType: string,
    mediaID: string,
    chunkIndex: int,
    chunkTotal: int,
    readLocally: bool,
    archived: bool)

  predicate IsChunkedMediaType(mediaType: string) {
    mediaType == "file" || mediaType == "voice" || mediaType == "photo"
  }

  /** The messages the chunk index covers. */
  predicate IsChunk(m: Message) {
    IsChunkedMediaType(m.mediaType) && m.chunkTotal > 0 && m.mediaID != ""
  }

  /** m is chunk number index of the file mediaID. */
  predicate HasKey(m: Message, mediaID: string, index: int) {
    IsChunk(m) && m.mediaID == mediaID && m.chunkIndex == index
  }

  predicate SameChunkKey(a: Message, b: Message) {
    IsChunk(a) && HasKey(b, a.mediaID, a.chunkIndex)
  }

  // ---------- what the clock decides ----------

  predicate Expired(m: Message, now: int) {
    m.expiresAt.At? && now > m.expiresAt.ns
  }

  /** time.Since, which saturates; since the zero time it is the longest duration. */
  function Since(t: Time, now: int): int {
    match t
    case Zero => MAX_INT64
    case At(ns) =>
      if now - ns > MAX_INT64 then MAX_INT64
      else if now - ns < MIN_INT64 then MIN_INT64
      else now - ns
  }

  /** The weight after ageing: one hundredth is lost every hour. */
  function AgedWeight(m: Message, now: int): real {
    m.weight - Since(m.created, now) as real / NS_PER_HOUR as real * 0.01
  }

  predicate Overdue(m: Message, now: int) {
    || Expired(m, now)
    || (m.ttlMode != "" && m.ttlPeriodSeconds > 0 && m.created.At? && now > m.created.ns + 48 * NS_PER_HOUR)
  }

  // ---------- the slice ----------

  /** The first position of an id, or -1. */
  function IndexOf(ms: seq<Message>, id: string): (pos: int)
    ensures -1 <= pos < |ms|
    ensures pos >= 0 ==> ms[pos].id == id
    ensures pos < 0 ==> forall j :: 0 <= j < |ms| ==> ms[j].id != id
  {
    if ms == [] then -1
    else if ms[0].id == id then 0
    else
      var pos := IndexOf(ms[1..], id);
      assert forall j :: 0 < j < |ms| ==> ms[j] == ms[1..][j - 1];
      if pos < 0 then -1 else pos + 1
  }

  predicate HasId(ms: seq<Message>, id: string) {
    IndexOf(ms, id) >= 0
  }

  ghost predicate Distinct(ms: seq<Message>) {
    forall i, j :: 0 <= i < j < |ms| ==> ms[i].id != ms[j].id
  }

  function Normalised(m: Message, now: int): Message {
    m.(weight := if m.weight == 0.0 then 0.5 else m.weight,
       created := if m.created.Zero? then At(now) else m.created)
  }

  predicate CanAdd(ms: seq<Message>, m: Message, now: int) {
    !HasId(ms, m.id) && !Expired(m, now)
  }

  function Added(ms: seq<Message>, m: Message, now: int): seq<Message> {
    if CanAdd(ms, m, now) then ms + [Normalised(m, now)] else ms
  }

  /** Removal moves the last message into the gap. */
  function SwapRemoved(ms: seq<Message>, pos: nat): (r: seq<Message>)
    requires pos < |ms|
    ensures |r| == |ms| - 1
  {
    var last := |ms| - 1;
    if pos == last then ms[..last] else ms[..last][pos := ms[last]]
  }

  function Removed(ms: seq<Message>, id: string): seq<Message> {
    if HasId(ms, id) then SwapRemoved(ms, IndexOf(ms, id)) else ms
  }

  /** The status rule: never down, and Hidden is final. */
  function Raised(current: Status, update: Status): Status {
    if current == STATUS_HIDDEN || current >= update then current else update
  }

  function WithStatus(m: Message, s: Status): Message { m.(status := Raised(m.status, s)) }
  function WithExpiry(m: Message, t: Time): Message { m.(expiresAt := t) }
  function WithoutData(m: Message): Message { m.(text := "", plainText := "") }

  function MarkedRead(m: Message, refs: set<string>): Message { m.(readLocally := m.readLocally || m.id in refs) }

  /** Archiving takes the aged weight as it is, below zero or not. */
  function Archived(m: Message, threshold: real, now: int): Message {
    m.(archived := m.archived || AgedWeight(m, now) < threshold)
  }

  /** Only an archived message is restored, with a fresh weight and age. */
  function Restored(m: Message, now: int): Message {
    if m.archived then m.(archived := false, weight := 0.5, created := At(now)) else m
  }

  function Reweighted(m: Message, delta: real): Message {
    var w := m.weight + delta;
    m.(weight := if w > 1.0 then 1.0 else if w < 0.0 then 0.0 else w)
  }

  function Mapped(ms: seq<Message>, f: Message -> Message): (r: seq<Message>)
    ensures |r| == |ms| && forall i :: 0 <= i < |ms| ==> r[i] == f(ms[i])
  {
    seq(|ms|, i requires 0 <= i < |ms| => f(ms[i]))
  }

  /** How many messages the change touches. */
  function Touched(ms: seq<Message>, f: Message -> Message): nat {
    if ms == [] then 0
    else Touched(ms[..|ms| - 1], f) + if f(ms[|ms| - 1]) != ms[|ms| - 1] then 1 else 0
  }

  lemma TouchedNone(ms: seq<Message>, f: Message -> Message)
    requires ms == []
    ensures Touched(ms, f) == 0
  {
  }

  lemma TouchedStep(ms: seq<Message>, i: nat, f: Message -> Message)
    requires i < |ms|
    ensures Touched(ms[..i + 1], f) == Touched(ms[..i], f) + if f(ms[i]) != ms[i] then 1 else 0
  {
    assert ms[..i + 1][..i] == ms[..i];
  }

  /** The slice with the message called id, if any, replaced by what f makes of it. */
  function Updated(ms: seq<Message>, id: string, f: Message -> Message): seq<Message> {
    if HasId(ms, id) then
      var pos := IndexOf(ms, id);
      ms[pos := f(ms[pos])]
    else ms
  }

  function Kept(ms: seq<Message>, keep: Message -> bool): (r: seq<Message>)
    ensures |r| <= |ms|
  {
    if ms == [] then []
    else
      var front := Kept(ms[..|ms| - 1], keep);
      if keep(ms[|ms| - 1]) then front + [ms[|ms| - 1]] else front
  }

  lemma {:induction false} KeptMembers(ms: seq<Message>, keep: Message -> bool)
    ensures forall m :: m in Kept(ms, keep) <==> m in ms && keep(m)
  {
    if ms != [] {
      KeptMembers(ms[..|ms| - 1], keep);
      assert ms == ms[..|ms| - 1] + [ms[|ms| - 1]];
    }
  }

  // ---------- the slice as a map ----------

  /** What the store is for: each id and its message, whatever the order of the slice. */
  function View(ms: seq<Message>): map<string, Message> {
    if ms == [] then map[] else View(ms[..|ms| - 1])[ms[|ms| - 1].id := ms[|ms| - 1]]
  }

  lemma {:induction false} ViewFacts(ms: seq<Message>)
    ensures forall id :: id in View(ms) <==> HasId(ms, id)
    ensures Distinct(ms) ==> forall id :: id in View(ms) && HasId(ms, id) ==> View(ms)[id] == ms[IndexOf(ms, id)]
  {
    if ms != [] {
      ViewFacts(ms[..|ms| - 1]);
      var front, m := ms[..|ms| - 1], ms[|ms| - 1];
      forall id
        ensures id in View(ms) <==> HasId(ms, id)
        ensures Distinct(ms) && id in View(ms) && HasId(ms, id) ==> View(ms)[id] == ms[IndexOf(ms, id)]
      {
        var i, j := IndexOf(front, id), IndexOf(ms, id);
        assert i >= 0 ==> ms[i] == front[i];
        assert 0 <= j < |front| ==> front[j] == ms[j];
      }
    }
  }

  /** Any map with exactly the stored ids, each with its message, is the view. */
  lemma ViewIs(ms: seq<Message>, v: map<string, Message>)
    requires Distinct(ms)
    requires forall i :: 0 <= i < |ms| ==> ms[i].id in v && v[ms[i].id] == ms[i]
    requires forall id :: id in v ==> HasId(ms, id)
    ensures View(ms) == v
  {
    ViewFacts(ms);
  }

  lemma ViewSnoc(ms: seq<Message>, m: Message)
    requires Distinct(ms) && !HasId(ms, m.id)
    ensures Distinct(ms + [m])
    ensures View(ms + [m]) == View(ms)[m.id := m]
  {
    assert (ms + [m])[..|ms|] == ms;
    forall i, j | 0 <= i < j < |ms + [m]| ensures (ms + [m])[i].id != (ms + [m])[j].id {
      assert (ms + [m])[i] == ms[i];
    }
  }

  lemma SwapRemovedAt(ms: seq<Message>, pos: nat)
    requires pos < |ms|
    ensures forall i :: 0 <= i < |ms| - 1 ==> SwapRemoved(ms, pos)[i] == ms[if i == pos then |ms| - 1 else i]
  {
  }

  lemma SwapRemovedIds(ms: seq<Message>, pos: nat)
    requires Distinct(ms) && pos < |ms|
    ensures Distinct(SwapRemoved(ms, pos))
    ensures forall id :: HasId(SwapRemoved(ms, pos), id) <==> HasId(ms, id) && id != ms[pos].id
  {
    hide SwapRemoved;
    var r, last := SwapRemoved(ms, pos), |ms| - 1;
    SwapRemovedAt(ms, pos);
    forall id ensures HasId(r, id) <==> HasId(ms, id) && id != ms[pos].id {
      var i := IndexOf(ms, id);
      assert i >= 0 && i != pos ==> r[if i == last then pos else i].id == id;
    }
  }

  lemma SwapRemovedView(ms: seq<Message>, pos: nat)
    requires Distinct(ms) && pos < |ms|
    ensures Distinct(SwapRemoved(ms, pos))
    ensures View(SwapRemoved(ms, pos)) == View(ms) - {ms[pos].id}
  {
    hide SwapRemoved, View;
    var r, v := SwapRemoved(ms, pos), View(ms) - {ms[pos].id};
    SwapRemovedIds(ms, pos);
    SwapRemovedAt(ms, pos);
    ViewFacts(ms);
    forall i | 0 <= i < |r| ensures r[i].id in v && v[r[i].id] == r[i] {
      var was := if i == pos then |ms| - 1 else i;
      assert IndexOf(ms, ms[was].id) == was;
    }
    ViewIs(r, v);
  }

  lemma ReplacedIds(ms: seq<Message>, pos: nat, m: Message)
    requires Distinct(ms) && pos < |ms| && m.id == ms[pos].id
    ensures Distinct(ms[pos := m])
    ensures forall id :: HasId(ms, id) ==> HasId(ms[pos := m], id)
  {
    var r := ms[pos := m];
    forall id | HasId(ms, id) ensures HasId(r, id) {
      assert r[IndexOf(ms, id)].id == id;
    }
  }

  lemma ReplacedView(ms: seq<Message>, pos: nat, m: Message)
    requires Distinct(ms) && pos < |ms| && m.id == ms[pos].id
    ensures Distinct(ms[pos := m])
    ensures View(ms[pos := m]) == View(ms)[m.id := m]
  {
    var r, v := ms[pos := m], View(ms)[m.id := m];
    ReplacedIds(ms, pos, m);
    ViewFacts(ms);
    hide View, HasId;
    forall i | 0 <= i < |r| ensures r[i].id in v && v[r[i].id] == r[i] {
      ViewAt(ms, i);
      assert i != pos ==> ms[i].id != ms[pos].id;
    }
    hide Distinct;
    ViewIs(r, v);
  }

  lemma ViewAt(ms: seq<Message>, i: nat)
    requires Distinct(ms) && i < |ms|
    ensures ms[i].id in View(ms) && View(ms)[ms[i].id] == ms[i]
  {
    ViewFacts(ms);
    assert IndexOf(ms, ms[i].id) == i;
  }

  lemma UpdatedView(ms: seq<Message>, id: string, f: Message -> Message)
    requires Distinct(ms)
    requires HasId(ms, id) ==> f(ms[IndexOf(ms, id)]).id == id
    ensures Distinct(Updated(ms, id, f))
    ensures View(Updated(ms, id, f)) == if id in View(ms) then View(ms)[id := f(View(ms)[id])] else View(ms)
  {
    ViewFacts(ms);
    if HasId(ms, id) {
      var pos := IndexOf(ms, id);
      ReplacedView(ms, pos, f(ms[pos]));
    }
  }

  function MappedMap(v: map<string, Message>, f: Message -> Message): map<string, Message> {
    map id | id in v :: f(v[id])
  }

  lemma MappedView(ms: seq<Message>, f: Message -> Message)
    requires Distinct(ms) && forall m :: f(m).id == m.id
    ensures Distinct(Mapped(ms, f))
    ensures View(Mapped(ms, f)) == MappedMap(View(ms), f)
  {
    var r, v := Mapped(ms, f), MappedMap(View(ms), f);
    ViewFacts(ms);
    hide View, Mapped;
    assert Distinct(r);
    forall i | 0 <= i < |r| ensures r[i].id in v && v[r[i].id] == r[i] {
      assert ms[i].id in View(ms);
    }
    forall id | id in v ensures HasId(r, id) {
      assert r[IndexOf(ms, id)].id == id;
    }
    hide MappedMap, HasId;
    ViewIs(r, v);
  }

  function KeptMap(v: map<string, Message>, keep: Message -> bool): map<string, Message> {
    map id | id in v && keep(v[id]) :: v[id]
  }

  lemma KeptMapPut(v: map<string, Message>, m: Message, keep: Message -> bool)
    requires m.id !in v
    ensures KeptMap(v[m.id := m], keep) == if keep(m) then KeptMap(v, keep)[m.id := m] else KeptMap(v, keep)
  {
  }

  lemma {:induction false} KeptDistinct(ms: seq<Message>, keep: Message -> bool)
    requires Distinct(ms)
    ensures Distinct(Kept(ms, keep))
  {
    if ms != [] {
      var front := ms[..|ms| - 1];
      KeptDistinct(front, keep);
      KeptMembers(front, keep);
      forall m | m in Kept(front, keep) ensures m.id != ms[|ms| - 1].id {
        assert m in front;
      }
    }
  }

  lemma {:induction false} KeptView(ms: seq<Message>, keep: Message -> bool)
    requires Distinct(ms)
    ensures View(Kept(ms, keep)) == KeptMap(View(ms), keep)
  {
    if ms != [] {
      var front, m := ms[..|ms| - 1], ms[|ms| - 1];
      KeptView(front, keep);
      ViewFacts(front);
      KeptMapPut(View(front), m, keep);
      assert (Kept(front, keep) + [m])[..|Kept(front, keep)|] == Kept(front, keep);
    }
  }

  lemma KeptStep(ms: seq<Message>, i: nat, keep: Message -> bool)
    requires i < |ms|
    ensures Kept(ms[..i + 1], keep) == if keep(ms[i]) then Kept(ms[..i], keep) + [ms[i]] else Kept(ms[..i], keep)
  {
    assert ms[..i + 1][..i] == ms[..i];
  }

  lemma KeptIds(ms: seq<Message>, keep: Message -> bool)
    requires Distinct(ms)
    ensures Distinct(Kept(ms, keep))
    ensures forall id :: HasId(Kept(ms, keep), id) <==> HasId(ms, id) && keep(ms[IndexOf(ms, id)])
  {
    KeptDistinct(ms, keep);
    KeptView(ms, keep);
    ViewFacts(ms);
    ViewFacts(Kept(ms, keep));
    assert forall id :: HasId(Kept(ms, keep), id) <==> id in KeptMap(View(ms), keep);
  }

  // ---------- operations and runs ----------

  datatype Op =
    | Add(m: Message, now: int)
    | Remove(id: string)
    | SetStatus(id: string, s: Status)
    | SetExpiresAt(id: string, t: Time)
    | ClearChunkData(id: string)
    | MarkReadLocally(refs: set<string>)
    | ArchiveOld(threshold: real, now: int)
    | RestoreFromArchive(id: string, now: int)
    | UpdateWeight(id: string, delta: real)
    | PurgeDead(threshold: real, now: int)
    | DeleteExpired(now: int)

  function Step(ms: seq<Message>, op: Op): seq<Message> {
    match op
    case Add(m, now) => Added(ms, m, now)
    case Remove(id) => Removed(ms, id)
    case SetStatus(id, s) => Updated(ms, id, m => WithStatus(m, s))
    case SetExpiresAt(id, t) => Updated(ms, id, m => WithExpiry(m, t))
    case ClearChunkData(id) => Updated(ms, id, WithoutData)
    case MarkReadLocally(refs) => Mapped(ms, m => MarkedRead(m, refs))
    case ArchiveOld(threshold, now) => Mapped(ms, m => Archived(m, threshold, now))
    case RestoreFromArchive(id, now) => Updated(ms, id, m => Restored(m, now))
    case UpdateWeight(id, delta) => Updated(ms, id, m => Reweighted(m, delta))
    case PurgeDead(threshold, now) => Kept(ms, m => AgedWeight(m, now) >= threshold)
    case DeleteExpired(now) => Kept(ms, m => !Overdue(m, now))
  }

  /** The same operations on a plain map: no positions, no order, no indexes. */
  function MapStep(v: map<string, Message>, op: Op): map<string, Message> {
    match op
    case Add(m, now) => if m.id in v || Expired(m, now) then v else v[m.id := Normalised(m, now)]
    case Remove(id) => v - {id}
    case SetStatus(id, s) => if id in v then v[id := WithStatus(v[id], s)] else v
    case SetExpiresAt(id, t) => if id in v then v[id := WithExpiry(v[id], t)] else v
    case ClearChunkData(id) => if id in v then v[id := WithoutData(v[id])] else v
    case MarkReadLocally(refs) => MappedMap(v, m => MarkedRead(m, refs))
    case ArchiveOld(threshold, now) => MappedMap(v, m => Archived(m, threshold, now))
    case RestoreFromArchive(id, now) => if id in v then v[id := Restored(v[id], now)] else v
    case UpdateWeight(id, delta) => if id in v then v[id := Reweighted(v[id], delta)] else v
    case PurgeDead(threshold, now) => KeptMap(v, m => AgedWeight(m, now) >= threshold)
    case DeleteExpired(now) => KeptMap(v, m => !Overdue(m, now))
  }

  function Run(ms: seq<Message>, ops: seq<Op>): seq<Message> {
    if ops == [] then ms else Step(Run(ms, ops[..|ops| - 1]), ops[|ops| - 1])
  }

  function MapRun(v: map<string, Message>, ops: seq<Op>): map<string, Message> {
    if ops == [] then v else MapStep(MapRun(v, ops[..|ops| - 1]), ops[|ops| - 1])
  }

  lemma StepRefines(ms: seq<Message>, op: Op)
    requires Distinct(ms)
    ensures Distinct(Step(ms, op)) && View(Step(ms, op)) == MapStep(View(ms), op)
  {
    ViewFacts(ms);
    hide View, Distinct;
    match op
    case Add(m, now) =>
      if CanAdd(ms, m, now) {
        ViewSnoc(ms, Normalised(m, now));
      }
    case Remove(id) =>
      if HasId(ms, id) {
        SwapRemovedView(ms, IndexOf(ms, id));
      }
    case SetStatus(id, s) => UpdatedView(ms, id, m => WithStatus(m, s));
    case SetExpiresAt(id, t) => UpdatedView(ms, id, m => WithExpiry(m, t));
    case ClearChunkData(id) => UpdatedView(ms, id, WithoutData);
    case MarkReadLocally(refs) => MappedView(ms, m => MarkedRead(m, refs));
    case ArchiveOld(threshold, now) => MappedView(ms, m => Archived(m, threshold, now));
    case RestoreFromArchive(id, now) => UpdatedView(ms, id, m => Restored(m, now));
    case UpdateWeight(id, delta) => UpdatedView(ms, id, m => Reweighted(m, delta));
    case PurgeDead(threshold, now) =>
      KeptDistinct(ms, m => AgedWeight(m, now) >= threshold);
      KeptView(ms, m => AgedWeight(m, now) >= threshold);
    case DeleteExpired(now) =>
      KeptDistinct(ms, m => !Overdue(m, now));
      KeptView(ms, m => !Overdue(m, now));
  }

  /** After any run of operations the ids are distinct and the slice is, as a map, what the plain map would be. */
  lemma {:induction false} RunRefinesMap(ms: seq<Message>, ops: seq<Op>)
    requires Distinct(ms)
    ensures Distinct(Run(ms, ops)) && View(Run(ms, ops)) == MapRun(View(ms), ops)
  {
    if ops != [] {
      RunRefinesMap(ms, ops[..|ops| - 1]);
      StepRefines(Run(ms, ops[..|ops| - 1]), ops[|ops| - 1]);
    }
  }

  // ---------- what the clock drops ----------

  /** Past its own expiry, or, with a TTL mode and a positive period, 48 hours after it was created. */
  lemma DropsOverdue(ms: seq<Message>, now: int, i: nat)
    requires Distinct(ms) && i < |ms|
    ensures var m, after := ms[i], Step(ms, Op.DeleteExpired(now));
            && (HasId(after, m.id) <==>
                  && (m.expiresAt.At? ==> now <= m.expiresAt.ns)
                  && (m.ttlMode == "" || m.ttlPeriodSeconds <= 0 || m.created.Zero?
                      || now - m.created.ns <= 172_800_000_000_000))
            && (HasId(after, m.id) ==> after[IndexOf(after, m.id)] == m)
  {
    var keep := (m: Message) => !Overdue(m, now);
    assert IndexOf(ms, ms[i].id) == i;
    KeptIds(ms, keep);
    KeptMembers(ms, keep);
    hide Kept, IndexOf;
    if HasId(Kept(ms, keep), ms[i].id) {
      assert Kept(ms, keep)[IndexOf(Kept(ms, keep), ms[i].id)] in ms;
    }
  }

  /** A message loses a hundredth an hour: it is purged once it has aged a hundred hours for each unit of its margin. */
  lemma PurgesAged(ms: seq<Message>, threshold: real, now: int, i: nat)
    requires Distinct(ms) && i < |ms| && ms[i].created.At? && 0 <= now - ms[i].created.ns <= MAX_INT64
    ensures var m, after := ms[i], Step(ms, Op.PurgeDead(threshold, now));
            HasId(after, m.id) <==>
              (now - m.created.ns) as real <= (m.weight - threshold) * 360_000_000_000_000.0
  {
    var keep := (m: Message) => AgedWeight(m, now) >= threshold;
    assert IndexOf(ms, ms[i].id) == i;
    KeptIds(ms, keep);
    hide Kept, IndexOf;
  }

  /** The operation gives the message no expiry, and is neither its removal nor a purge. */
  predicate Spares(op: Op, id: string) {
    && !op.PurgeDead? && (op.Remove? ==> op.id != id)
    && (op.SetExpiresAt? && op.id == id ==> op.t.Zero?)
  }

  /** A message without expiry and without a running TTL is never dropped by the clock, whatever else happens. */
  lemma {:induction false} LastingStays(v: map<string, Message>, ops: seq<Op>, id: string)
    requires id in v && v[id].expiresAt.Zero? && (v[id].ttlMode == "" || v[id].ttlPeriodSeconds <= 0)
    requires forall op :: op in ops ==> Spares(op, id)
    ensures var v' := MapRun(v, ops);
            && id in v' && v'[id].expiresAt.Zero?
            && v'[id].ttlMode == v[id].ttlMode && v'[id].ttlPeriodSeconds == v[id].ttlPeriodSeconds
  {
    if ops != [] {
      LastingStays(v, ops[..|ops| - 1], id);
      LastingStep(MapRun(v, ops[..|ops| - 1]), ops[|ops| - 1], id);
      hide MapStep;
    }
  }

  lemma LastingStep(v: map<string, Message>, op: Op, id: string)
    requires id in v && v[id].expiresAt.Zero? && (v[id].ttlMode == "" || v[id].ttlPeriodSeconds <= 0)
    requires Spares(op, id)
    ensures var v' := MapStep(v, op);
            && id in v' && v'[id].expiresAt.Zero?
            && v'[id].ttlMode == v[id].ttlMode && v'[id].ttlPeriodSeconds == v[id].ttlPeriodSeconds
  {
  }

  // ---------- the indexes ----------

  type ChunkIndex = map<string, map<int, int>>

  /** byID holds exactly the stored ids, each with its position. */
  ghost predicate IdsIndexed(ms: seq<Message>, byID: map<string, int>) {
    && (forall i :: 0 <= i < |ms| ==> ms[i].id in byID && byID[ms[i].id] == i)
    && (forall id :: id in byID ==> 0 <= byID[id] < |ms| && ms[byID[id]].id == id)
  }

  lemma IndexedDistinct(ms: seq<Message>, byID: map<string, int>)
    requires IdsIndexed(ms, byID)
    ensures Distinct(ms)
    ensures forall id :: id in byID <==> HasId(ms, id)
    ensures forall id :: id in byID ==> byID[id] == IndexOf(ms, id)
  {
  }

  /** What the chunk index holds for a key. */
  function Entry(chunks: ChunkIndex, k: string, c: int): Option<int> {
    if k in chunks && c in chunks[k] then Some(chunks[k][c]) else None
  }

  /** Every entry of the chunk index points at a stored chunk with that key. */
  ghost predicate EntriesSound(ms: seq<Message>, chunks: ChunkIndex) {
    forall k, c :: Entry(chunks, k, c).Some? ==>
      0 <= Entry(chunks, k, c).value < |ms| && HasKey(ms[Entry(chunks, k, c).value], k, c)
  }

  ghost predicate NoEmptyFile(chunks: ChunkIndex) {
    forall k :: k in chunks ==> |chunks[k]| > 0
  }

  ghost predicate ChunksSound(ms: seq<Message>, chunks: ChunkIndex) {
    EntriesSound(ms, chunks) && NoEmptyFile(chunks)
  }

  /** Every stored chunk is found under its key. */
  ghost predicate ChunksComplete(ms: seq<Message>, chunks: ChunkIndex) {
    forall i :: 0 <= i < |ms| && IsChunk(ms[i]) ==> Entry(chunks, ms[i].mediaID, ms[i].chunkIndex).Some?
  }

  ghost predicate UniqueChunkKeys(ms: seq<Message>) {
    forall i, j :: 0 <= i < |ms| && 0 <= j < |ms| && SameChunkKey(ms[i], ms[j]) ==> i == j
  }

  /** Another stored message has the chunk key of the message at pos. */
  ghost predicate SharesKeyAt(ms: seq<Message>, pos: nat)
    requires pos < |ms|
  {
    exists j :: 0 <= j < |ms| && j != pos && SameChunkKey(ms[pos], ms[j])
  }

  /** Another stored message has the chunk key of the message called id. */
  ghost predicate SharesChunkKey(ms: seq<Message>, id: string) {
    HasId(ms, id) && SharesKeyAt(ms, IndexOf(ms, id))
  }

  function Lookup(ms: seq<Message>, chunks: ChunkIndex, mediaID: string, index: int): Option<Message> {
    match Entry(chunks, mediaID, index)
    case Some(pos) => if 0 <= pos < |ms| then Some(ms[pos]) else None
    case None => None
  }

  /** What a lookup would find with no index at all. */
  function Scan(ms: seq<Message>, mediaID: string, index: int): Option<Message> {
    if ms == [] then None
    else if HasKey(ms[0], mediaID, index) then Some(ms[0])
    else Scan(ms[1..], mediaID, index)
  }

  lemma {:induction false} ScanFinds(ms: seq<Message>, k: string, c: int, i: nat)
    requires i < |ms| && HasKey(ms[i], k, c)
    requires forall j :: 0 <= j < |ms| && HasKey(ms[j], k, c) ==> j == i
    ensures Scan(ms, k, c) == Some(ms[i])
  {
    if i > 0 {
      assert forall j :: 0 <= j < |ms[1..]| ==> ms[1..][j] == ms[j + 1];
      ScanFinds(ms[1..], k, c, i - 1);
    }
  }

  lemma {:induction false} ScanMisses(ms: seq<Message>, k: string, c: int)
    requires forall j :: 0 <= j < |ms| ==> !HasKey(ms[j], k, c)
    ensures Scan(ms, k, c) == None
  {
    if ms != [] {
      assert forall j :: 0 <= j < |ms[1..]| ==> ms[1..][j] == ms[j + 1];
      ScanMisses(ms[1..], k, c);
    }
  }

  /** With unique chunk keys a sound and complete index answers every query as a scan of the slice does. */
  lemma LookupIsScan(ms: seq<Message>, chunks: ChunkIndex, k: string, c: int)
    requires EntriesSound(ms, chunks) && ChunksComplete(ms, chunks) && UniqueChunkKeys(ms)
    ensures Lookup(ms, chunks, k, c) == Scan(ms, k, c)
  {
    match Entry(chunks, k, c)
    case Some(pos) =>
      assert forall j :: 0 <= j < |ms| && HasKey(ms[j], k, c) ==> SameChunkKey(ms[pos], ms[j]);
      ScanFinds(ms, k, c, pos);
    case None =>
      ScanMisses(ms, k, c);
  }

  // ---------- index maintenance as functions ----------

  function ChunkPut(chunks: ChunkIndex, m: Message, pos: int): ChunkIndex {
    if IsChunk(m) then
      var inner := if m.mediaID in chunks then chunks[m.mediaID] else map[];
      chunks[m.mediaID := inner[m.chunkIndex := pos]]
    else chunks
  }

  /** After a move the entry is rewritten only if the file still has an inner map. */
  function ChunkMove(chunks: ChunkIndex, m: Message, pos: int): ChunkIndex {
    if IsChunk(m) && m.mediaID in chunks then chunks[m.mediaID := chunks[m.mediaID][m.chunkIndex := pos]] else chunks
  }

  function ChunkDrop(chunks: ChunkIndex, m: Message): ChunkIndex {
    if IsChunk(m) && m.mediaID in chunks then
      var inner := chunks[m.mediaID] - {m.chunkIndex};
      if |inner| == 0 then chunks - {m.mediaID} else chunks[m.mediaID := inner]
    else chunks
  }

  lemma EntryOfPut(chunks: ChunkIndex, m: Message, pos: int, k: string, c: int)
    ensures Entry(ChunkPut(chunks, m, pos), k, c) == if HasKey(m, k, c) then Some(pos) else Entry(chunks, k, c)
  {
  }

  lemma EntryOfMove(chunks: ChunkIndex, m: Message, pos: int, k: string, c: int)
    ensures Entry(ChunkMove(chunks, m, pos), k, c) ==
            if HasKey(m, k, c) && k in chunks then Some(pos) else Entry(chunks, k, c)
  {
  }

  lemma EntryOfDrop(chunks: ChunkIndex, m: Message, k: string, c: int)
    ensures Entry(ChunkDrop(chunks, m), k, c) == if HasKey(m, k, c) then None else Entry(chunks, k, c)
  {
    if IsChunk(m) && m.mediaID == k && k in chunks && c in chunks[k] && c != m.chunkIndex {
      assert c in chunks[k] - {m.chunkIndex};
    }
  }

  lemma AppendKeepsIds(ms: seq<Message>, byID: map<string, int>, m: Message)
    requires IdsIndexed(ms, byID) && !HasId(ms, m.id)
    ensures IdsIndexed(ms + [m], byID[m.id := |ms|])
  {
  }

  lemma AppendKeepsChunks(ms: seq<Message>, chunks: ChunkIndex, m: Message)
    requires ChunksSound(ms, chunks)
    ensures ChunksSound(ms + [m], ChunkPut(chunks, m, |ms|))
    ensures ChunksComplete(ms, chunks) ==> ChunksComplete(ms + [m], ChunkPut(chunks, m, |ms|))
  {
    var r, next := ms + [m], ChunkPut(chunks, m, |ms|);
    forall k, c | Entry(next, k, c).Some?
      ensures 0 <= Entry(next, k, c).value < |r| && HasKey(r[Entry(next, k, c).value], k, c)
    {
      EntryOfPut(chunks, m, |ms|, k, c);
    }
    if ChunksComplete(ms, chunks) {
      forall i | 0 <= i < |r| && IsChunk(r[i]) ensures Entry(next, r[i].mediaID, r[i].chunkIndex).Some? {
        EntryOfPut(chunks, m, |ms|, r[i].mediaID, r[i].chunkIndex);
        assert i < |ms| ==> r[i] == ms[i];
      }
    }
  }

  function ChunksAfterRemove(ms: seq<Message>, chunks: ChunkIndex, pos: nat): ChunkIndex
    requires pos < |ms|
  {
    var last := |ms| - 1;
    ChunkDrop(if pos == last then chunks else ChunkMove(chunks, ms[last], pos), ms[pos])
  }

  function IdsAfterRemove(ms: seq<Message>, byID: map<string, int>, pos: nat): map<string, int>
    requires pos < |ms|
  {
    var last := |ms| - 1;
    (if pos == last then byID else byID[ms[last].id := pos]) - {ms[pos].id}
  }

  lemma RemoveKeepsIds(ms: seq<Message>, byID: map<string, int>, pos: nat)
    requires IdsIndexed(ms, byID) && pos < |ms|
    ensures IdsIndexed(SwapRemoved(ms, pos), IdsAfterRemove(ms, byID, pos))
  {
    var r := SwapRemoved(ms, pos);
    assert forall i :: 0 <= i < |r| ==> r[i] == if i == pos then ms[|ms| - 1] else ms[i];
  }

  lemma EntryAfterRemove(ms: seq<Message>, chunks: ChunkIndex, pos: nat, k: string, c: int)
    requires pos < |ms|
    ensures Entry(ChunksAfterRemove(ms, chunks, pos), k, c) ==
            if HasKey(ms[pos], k, c) then None
            else if pos != |ms| - 1 && HasKey(ms[|ms| - 1], k, c) && k in chunks then Some(pos)
            else Entry(chunks, k, c)
  {
    hide ChunkMove, ChunkDrop, Entry, HasKey;
    var last := |ms| - 1;
    EntryOfMove(chunks, ms[last], pos, k, c);
    EntryOfDrop(if pos == last then chunks else ChunkMove(chunks, ms[last], pos), ms[pos], k, c);
  }

  lemma RemoveKeepsChunksSound(ms: seq<Message>, chunks: ChunkIndex, pos: nat)
    requires ChunksSound(ms, chunks) && pos < |ms|
    ensures ChunksSound(SwapRemoved(ms, pos), ChunksAfterRemove(ms, chunks, pos))
  {
    EntriesAfterRemoveSound(ms, chunks, pos);
    NoEmptyFileAfterRemove(ms, chunks, pos);
  }

  lemma NoEmptyFileAfterRemove(ms: seq<Message>, chunks: ChunkIndex, pos: nat)
    requires NoEmptyFile(chunks) && pos < |ms|
    ensures NoEmptyFile(ChunksAfterRemove(ms, chunks, pos))
  {
    var last := |ms| - 1;
    var moved := if pos == last then chunks else ChunkMove(chunks, ms[last], pos);
    assert NoEmptyFile(moved);
  }

  lemma EntriesAfterRemoveSound(ms: seq<Message>, chunks: ChunkIndex, pos: nat)
    requires EntriesSound(ms, chunks) && pos < |ms|
    ensures EntriesSound(SwapRemoved(ms, pos), ChunksAfterRemove(ms, chunks, pos))
  {
    hide ChunksAfterRemove, HasKey;
    var r, next := SwapRemoved(ms, pos), ChunksAfterRemove(ms, chunks, pos);
    assert forall i :: 0 <= i < |r| ==> r[i] == if i == pos then ms[|ms| - 1] else ms[i];
    forall k, c | Entry(next, k, c).Some?
      ensures 0 <= Entry(next, k, c).value < |r| && HasKey(r[Entry(next, k, c).value], k, c)
    {
      EntryAfterRemove(ms, chunks, pos, k, c);
    }
  }

  /** Removal keeps the chunk index complete exactly when no other message has the removed chunk's key. */
  lemma RemoveKeepsChunksComplete(ms: seq<Message>, chunks: ChunkIndex, pos: nat)
    requires ChunksComplete(ms, chunks) && pos < |ms|
    ensures ChunksComplete(SwapRemoved(ms, pos), ChunksAfterRemove(ms, chunks, pos)) <==> !SharesKeyAt(ms, pos)
  {
    var r, last, next := SwapRemoved(ms, pos), |ms| - 1, ChunksAfterRemove(ms, chunks, pos);
    assert forall i :: 0 <= i < |r| ==> r[i] == ms[if i == pos then last else i];
    if SharesKeyAt(ms, pos) {
      var j :| 0 <= j < |ms| && j != pos && SameChunkKey(ms[pos], ms[j]);
      assert r[if j == last then pos else j] == ms[j];
      EntryAfterRemove(ms, chunks, pos, ms[j].mediaID, ms[j].chunkIndex);
    } else {
      forall i | 0 <= i < |r| && IsChunk(r[i]) ensures Entry(next, r[i].mediaID, r[i].chunkIndex).Some? {
        var was := if i == pos then last else i;
        assert r[i] == ms[was] && !SameChunkKey(ms[pos], ms[was]);
        EntryAfterRemove(ms, chunks, pos, r[i].mediaID, r[i].chunkIndex);
      }
    }
  }

  /** The index can lose a stored chunk: two messages with one key, and the later one removed. */
  lemma SharedKeyLosesChunk(m: Message)
    requires IsChunk(m)
    ensures var first, second := m.(id := "a"), m.(id := "b");
            var chunks := ChunkPut(ChunkPut(map[], first, 0), second, 1);
            && ChunksComplete([first, second], chunks)
            && Scan(SwapRemoved([first, second], 1), m.mediaID, m.chunkIndex) == Some(first)
            && Lookup(SwapRemoved([first, second], 1), ChunksAfterRemove([first, second], chunks, 1),
                      m.mediaID, m.chunkIndex) == None
  {
    var first, second := m.(id := "a"), m.(id := "b");
    var chunks := ChunkPut(ChunkPut(map[], first, 0), second, 1);
    assert SwapRemoved([first, second], 1) == [first];
    EntryAfterRemove([first, second], chunks, 1, m.mediaID, m.chunkIndex);
  }

  /** The ids seen when the first i messages have been looked at: those kept, and those still to be looked at. */
  ghost predicate StillSeen(ms: seq<Message>, seen: set<string>, i: nat, keep: Message -> bool) {
    forall id :: id in seen <==> HasId(ms, id) && (IndexOf(ms, id) < i ==> keep(ms[IndexOf(ms, id)]))
  }

  lemma SeenStep(ms: seq<Message>, seen: set<string>, i: nat, keep: Message -> bool)
    requires Distinct(ms) && i < |ms| && StillSeen(ms, seen, i, keep)
    ensures StillSeen(ms, if keep(ms[i]) then seen else seen - {ms[i].id}, i + 1, keep)
  {
    assert IndexOf(ms, ms[i].id) == i;
  }

  lemma SeenAtEnd(ms: seq<Message>, seen: set<string>, keep: Message -> bool)
    requires StillSeen(ms, seen, |ms|, keep)
    ensures forall id :: id in seen <==> HasId(ms, id) && keep(ms[IndexOf(ms, id)])
  {
  }

  /** A change of messages that no index can notice. */
  ghost predicate KeepsKeys(f: Message -> Message) {
    forall m :: f(m).id == m.id && f(m).mediaType == m.mediaType && f(m).mediaID == m.mediaID
                && f(m).chunkIndex == m.chunkIndex && f(m).chunkTotal == m.chunkTotal
  }

  lemma MappedKeepsIndexes(ms: seq<Message>, f: Message -> Message, byID: map<string, int>, chunks: ChunkIndex)
    requires KeepsKeys(f) && IdsIndexed(ms, byID) && ChunksSound(ms, chunks)
    ensures IdsIndexed(Mapped(ms, f), byID) && ChunksSound(Mapped(ms, f), chunks)
    ensures ChunksComplete(ms, chunks) ==> ChunksComplete(Mapped(ms, f), chunks)
  {
  }

  /** No Remove in the run takes a message whose chunk key another stored message shares. */
  ghost predicate NoSharedRemoval(ms: seq<Message>, ops: seq<Op>) {
    forall i :: 0 <= i < |ops| && ops[i].Remove? ==> !SharesChunkKey(Run(ms, ops[..i]), ops[i].id)
  }

  // ---------- the store ----------

  class Memory {
    var messages: seq<Message>
    var seen: set<string>
    var byID: map<string, int>
    var fileChunks: ChunkIndex

    /** The ids and the chunks are indexed as the slice has them; seen holds exactly the stored ids. */
    ghost predicate Valid()
      reads this
    {
      IdsIndexed(messages, byID) && seen == byID.Keys && ChunksSound(messages, fileChunks)
    }

    ghost predicate Complete()
      reads this
    {
      ChunksComplete(messages, fileChunks)
    }

    constructor ()
      ensures Valid() && Complete() && messages == []
    {
      messages, seen, byID, fileChunks := [], {}, map[], map[];
    }

    method Add(msg: Message, now: int) returns (added: bool)
      requires Valid()
      modifies this
      ensures Valid()
      ensures added == CanAdd(old(messages), msg, now)
      ensures messages == Added(old(messages), msg, now)
      ensures old(Complete()) ==> Complete()
    {
      IndexedDistinct(messages, byID);
      added := false;
      if msg.id !in seen && !(msg.expiresAt.At? && now > msg.expiresAt.ns) {
        var m := msg;
        if m.weight == 0.0 {
          m := m.(weight := 0.5);
        }
        if m.created.Zero? {
          m := m.(created := At(now));
        }
        Append(m);
        added := true;
      }
    }

    method Append(m: Message)
      requires Valid() && !HasId(messages, m.id)
      modifies this
      ensures Valid()
      ensures messages == old(messages) + [m]
      ensures old(Complete()) ==> Complete()
    {
      AppendKeepsIds(messages, byID, m);
      AppendKeepsChunks(messages, fileChunks, m);
      seen := seen + {m.id};
      var pos := |messages|;
      byID := byID[m.id := pos];
      fileChunks := ChunkPut(fileChunks, m, pos);
      messages := messages + [m];
    }

    method Remove(id: string) returns (removed: bool)
      requires Valid()
      modifies this
      ensures Valid()
      ensures removed == HasId(old(messages), id)
      ensures messages == Removed(old(messages), id)
      ensures old(Complete()) ==> (Complete() <==> !SharesChunkKey(old(messages), id))
    {
      IndexedDistinct(messages, byID);
      removed := id in byID;
      if removed {
        RemoveAt(byID[id]);
      }
    }

    method RemoveAt(pos: nat)
      requires Valid() && pos < |messages|
      modifies this
      ensures Valid()
      ensures messages == SwapRemoved(old(messages), pos)
      ensures old(Complete()) ==> (Complete() <==> !SharesKeyAt(old(messages), pos))
    {
      assert messages[|messages| - 1].id in byID;
      hide IdsIndexed, ChunksSound, ChunksComplete, SharesKeyAt, SwapRemoved, IdsAfterRemove, ChunksAfterRemove;
      RemoveKeepsIds(messages, byID, pos);
      RemoveKeepsChunksSound(messages, fileChunks, pos);
      if Complete() {
        RemoveKeepsChunksComplete(messages, fileChunks, pos);
      }
      TakeOut(pos);
    }

    /** The statements of a removal, index by index. */
    method TakeOut(pos: nat)
      requires pos < |messages|
      modifies this
      ensures messages == SwapRemoved(old(messages), pos)
      ensures byID == IdsAfterRemove(old(messages), old(byID), pos)
      ensures fileChunks == ChunksAfterRemove(old(messages), old(fileChunks), pos)
      ensures seen == old(seen) - {old(messages)[pos].id}
    {
      hide ChunkMove, ChunkDrop;
      var gone := messages[pos];
      var last := |messages| - 1;
      if pos != last {
        messages := messages[pos := messages[last]];
        var moved := messages[pos];
        byID := byID[moved.id := pos];
        fileChunks := ChunkMove(fileChunks, moved, pos);
      }
      messages := messages[..last];
      byID := byID - {gone.id};
      fileChunks := ChunkDrop(fileChunks, gone);
      seen := seen - {gone.id};
    }

    /** The in-place updates: one message changes, no id and no chunk key does. */
    method Update(id: string, f: Message -> Message) returns (found: bool)
      requires Valid() && KeepsKeys(f)
      modifies this`messages
      ensures Valid()
      ensures found == HasId(old(messages), id)
      ensures messages == Updated(old(messages), id, f)
      ensures old(Complete()) ==> Complete()
    {
      IndexedDistinct(messages, byID);
      found := id in byID;
      if found {
        messages := messages[byID[id] := f(messages[byID[id]])];
      }
    }

    method SetExpiresAt(id: string, t: Time) returns (found: bool)
      requires Valid()
      modifies this`messages
      ensures Valid()
      ensures found == HasId(old(messages), id)
      ensures messages == Step(old(messages), Op.SetExpiresAt(id, t))
      ensures old(Complete()) ==> Complete()
    {
      found := Update(id, m => WithExpiry(m, t));
    }

    method ClearChunkData(id: string) returns (found: bool)
      requires Valid()
      modifies this`messages
      ensures Valid()
      ensures found == HasId(old(messages), id)
      ensures messages == Step(old(messages), Op.ClearChunkData(id))
      ensures old(Complete()) ==> Complete()
    {
      found := Update(id, WithoutData);
    }

    method SetStatus(id: string, s: Status) returns (changed: bool)
      requires Valid()
      modifies this`messages
      ensures Valid()
      ensures messages == Step(old(messages), Op.SetStatus(id, s))
      ensures changed <==> messages != old(messages)
      ensures old(Complete()) ==> Complete()
    {
      IndexedDistinct(messages, byID);
      if id !in byID {
        return false;
      }
      var pos := byID[id];
      var cur := messages[pos].status;
      if cur == STATUS_HIDDEN || cur >= s {
        return false;
      }
      messages := messages[pos := messages[pos].(status := s)];
      assert messages[pos].status != old(messages)[pos].status;
      return true;
    }

    /** Marks the stored messages among refs as read here; changed counts those that were not. */
    method MarkReadLocally(refs: set<string>) returns (changed: nat)
      requires Valid()
      modifies this`messages
      ensures Valid()
      ensures messages == Step(old(messages), Op.MarkReadLocally(refs))
      ensures changed == Touched(old(messages), m => MarkedRead(m, refs))
      ensures old(Complete()) ==> Complete()
    {
      changed := Map((m: Message) => MarkedRead(m, refs));
    }

    method ArchiveOld(threshold: real, now: int) returns (count: nat)
      requires Valid()
      modifies this`messages
      ensures Valid()
      ensures messages == Step(old(messages), Op.ArchiveOld(threshold, now))
      ensures count == Touched(old(messages), m => Archived(m, threshold, now))
      ensures old(Complete()) ==> Complete()
    {
      count := Map((m: Message) => Archived(m, threshold, now));
    }

    /** The loop of MarkReadLocally and ArchiveOld: every message is changed in place, and the changes are counted. */
    method Map(f: Message -> Message) returns (changed: nat)
      requires Valid() && KeepsKeys(f)
      modifies this`messages
      ensures Valid()
      ensures messages == Mapped(old(messages), f) && changed == Touched(old(messages), f)
      ensures old(Complete()) ==> Complete()
    {
      changed := 0;
      ghost var ms := messages;
      MappedKeepsIndexes(ms, f, byID, fileChunks);
      hide IdsIndexed, ChunksSound, ChunksComplete, KeepsKeys, Touched;
      assert Touched(ms[..0], f) == 0 by {
        TouchedNone(ms[..0], f);
      }
      for i := 0 to |messages|
        invariant |messages| == |ms|
        invariant forall k :: 0 <= k < |ms| ==> messages[k] == if k < i then f(ms[k]) else ms[k]
        invariant changed == Touched(ms[..i], f)
      {
        TouchedStep(ms, i, f);
        if f(messages[i]) != messages[i] {
          messages := messages[i := f(messages[i])];
          changed := changed + 1;
        }
      }
      assert ms[..|ms|] == ms;
      assert messages == Mapped(ms, f);
    }

    method RestoreFromArchive(id: string, now: int) returns (changed: bool)
      requires Valid()
      modifies this`messages
      ensures Valid()
      ensures messages == Step(old(messages), Op.RestoreFromArchive(id, now))
      ensures changed <==> HasId(old(messages), id) && old(messages)[IndexOf(old(messages), id)].archived
      ensures old(Complete()) ==> Complete()
    {
      IndexedDistinct(messages, byID);
      if id !in byID || !messages[byID[id]].archived {
        return false;
      }
      changed := Update(id, m => Restored(m, now));
    }

    method UpdateWeight(id: string, delta: real) returns (found: bool)
      requires Valid()
      modifies this`messages
      ensures Valid()
      ensures found == HasId(old(messages), id)
      ensures messages == Step(old(messages), Op.UpdateWeight(id, delta))
      ensures old(Complete()) ==> Complete()
    {
      found := Update(id, m => Reweighted(m, delta));
    }

    /** O(1) lookup by file and chunk index. */
    method GetFileChunk(mediaID: string, chunkIndex: int) returns (r: Option<Message>)
      requires Valid()
      ensures r == Lookup(messages, fileChunks, mediaID, chunkIndex)
      ensures r.Some? ==> r.value in messages && r.value.mediaID == mediaID && r.value.chunkIndex == chunkIndex
      ensures Complete() && UniqueChunkKeys(messages) ==> r == Scan(messages, mediaID, chunkIndex)
    {
      if mediaID !in fileChunks || chunkIndex !in fileChunks[mediaID] {
        r := None;
      } else {
        var pos := fileChunks[mediaID][chunkIndex];
        assert Entry(fileChunks, mediaID, chunkIndex).Some?;
        r := if pos < 0 || pos >= |messages| then None else Some(messages[pos]);
      }
      if Complete() && UniqueChunkKeys(messages) {
        LookupIsScan(messages, fileChunks, mediaID, chunkIndex);
      }
    }

    method ClearFileChunk(mediaID: string, chunkIndex: int) returns (found: bool)
      requires Valid()
      modifies this`messages
      ensures Valid() && (old(Complete()) ==> Complete())
      ensures found == Lookup(old(messages), fileChunks, mediaID, chunkIndex).Some?
      ensures !found ==> messages == old(messages)
      ensures found ==>
                messages == Step(old(messages),
                                 Op.ClearChunkData(Lookup(old(messages), fileChunks, mediaID, chunkIndex).value.id))
    {
      if mediaID !in fileChunks || chunkIndex !in fileChunks[mediaID] {
        return false;
      }
      var pos := fileChunks[mediaID][chunkIndex];
      assert Entry(fileChunks, mediaID, chunkIndex).Some?;
      IndexedDistinct(messages, byID);
      ClearAt(pos);
      return true;
    }

    method ClearAt(pos: nat)
      requires Valid() && pos < |messages|
      modifies this`messages
      ensures Valid() && (old(Complete()) ==> Complete())
      ensures messages == old(messages)[pos := WithoutData(old(messages)[pos])]
    {
      messages := messages[pos := messages[pos].(text := "", plainText := "")];
    }

    /** Builds both indexes from the slice; afterwards the chunk index is complete whatever it was before. */
    method RebuildIndexes()
      requires Distinct(messages)
      modifies this`byID, this`fileChunks
      ensures IdsIndexed(messages, byID) && ChunksSound(messages, fileChunks) && Complete()
    {
      byID, fileChunks := map[], map[];
      for pos := 0 to |messages|
        invariant IdsIndexed(messages[..pos], byID)
        invariant ChunksSound(messages[..pos], fileChunks) && ChunksComplete(messages[..pos], fileChunks)
      {
        var msg := messages[pos];
        AppendKeepsIds(messages[..pos], byID, msg);
        AppendKeepsChunks(messages[..pos], fileChunks, msg);
        assert messages[..pos + 1] == messages[..pos] + [msg];
        byID := byID[msg.id := pos];
        fileChunks := ChunkPut(fileChunks, msg, pos);
      }
      assert messages[..|messages|] == messages;
    }

    /** The loop of PurgeDead and DeleteExpired: the messages to keep are collected, the other ids forgotten. */
    method Collect(keep: Message -> bool) returns (alive: seq<Message>, removed: nat)
      requires Distinct(messages) && forall id :: id in seen <==> HasId(messages, id)
      modifies this`seen
      ensures alive == Kept(messages, keep) && removed == |messages| - |alive|
      ensures removed == 0 ==> alive == messages && seen == old(seen)
      ensures forall id :: id in seen <==> HasId(alive, id)
    {
      KeptIds(messages, keep);
      assert Kept(messages[..0], keep) == [] && StillSeen(messages, seen, 0, keep);
      hide Kept, StillSeen, HasId;
      alive := [];
      removed := 0;
      for i := 0 to |messages|
        invariant alive == Kept(messages[..i], keep)
        invariant removed == i - |alive|
        invariant removed == 0 ==> alive == messages[..i] && seen == old(seen)
        invariant StillSeen(messages, seen, i, keep)
      {
        var msg := messages[i];
        KeptStep(messages, i, keep);
        SeenStep(messages, seen, i, keep);
        if keep(msg) {
          alive := alive + [msg];
        } else {
          seen := seen - {msg.id};
          removed := removed + 1;
        }
      }
      assert messages[..|messages|] == messages;
      SeenAtEnd(messages, seen, keep);
    }

    method Sweep(keep: Message -> bool) returns (removed: nat)
      requires Valid()
      modifies this
      ensures Valid()
      ensures messages == Kept(old(messages), keep)
      ensures removed == |old(messages)| - |messages|
      ensures removed > 0 || old(Complete()) ==> Complete()
    {
      IndexedDistinct(messages, byID);
      KeptDistinct(messages, keep);
      var alive;
      alive, removed := Collect(keep);
      messages := alive;
      if removed > 0 {
        RebuildIndexes();
        IndexedDistinct(messages, byID);
      }
    }

    method PurgeDead(threshold: real, now: int) returns (removed: nat)
      requires Valid()
      modifies this
      ensures Valid()
      ensures messages == Step(old(messages), Op.PurgeDead(threshold, now))
      ensures removed == |old(messages)| - |messages|
      ensures removed > 0 || old(Complete()) ==> Complete()
    {
      removed := Sweep(m => AgedWeight(m, now) >= threshold);
    }

    method DeleteExpired(now: int) returns (removed: nat)
      requires Valid()
      modifies this
      ensures Valid()
      ensures messages == Step(old(messages), Op.DeleteExpired(now))
      ensures forall m :: m in messages <==>
                && m in old(messages)
                && (m.expiresAt.At? ==> now <= m.expiresAt.ns)
                && (m.ttlMode == "" || m.ttlPeriodSeconds <= 0 || m.created.Zero?
                    || now - m.created.ns <= 172_800_000_000_000)
      ensures removed == |old(messages)| - |messages|
      ensures removed > 0 || old(Complete()) ==> Complete()
    {
      KeptMembers(messages, m => !Overdue(m, now));
      removed := Sweep(m => !Overdue(m, now));
    }

    method Apply(op: Op)
      requires Valid()
      modifies this
      ensures Valid() && messages == Step(old(messages), op)
      ensures old(Complete()) && (op.Remove? ==> !SharesChunkKey(old(messages), op.id)) ==> Complete()
    {
      match op
      case Add(m, now) => var _ := Add(m, now);
      case Remove(id) => var _ := Remove(id);
      case SetStatus(id, s) => var _ := SetStatus(id, s);
      case SetExpiresAt(id, t) => var _ := SetExpiresAt(id, t);
      case ClearChunkData(id) => var _ := ClearChunkData(id);
      case MarkReadLocally(refs) => var _ := MarkReadLocally(refs);
      case ArchiveOld(threshold, now) => var _ := ArchiveOld(threshold, now);
      case RestoreFromArchive(id, now) => var _ := RestoreFromArchive(id, now);
      case UpdateWeight(id, delta) => var _ := UpdateWeight(id, delta);
      case PurgeDead(threshold, now) => var _ := PurgeDead(threshold, now);
      case DeleteExpired(now) => var _ := DeleteExpired(now);
    }

    /**
     * Any sequence of operations: the store is the map the operations describe, its indexes agree with its
     * slice, and the chunk index stays complete as long as no removal hits a shared chunk key.
     */
    method ApplyAll(ops: seq<Op>)
      requires Valid()
      modifies this
      ensures Valid() && messages == Run(old(messages), ops)
      ensures View(messages) == MapRun(View(old(messages)), ops)
      ensures old(Complete()) && NoSharedRemoval(old(messages), ops) ==> Complete()
    {
      ghost var start := messages;
      for i := 0 to |ops|
        invariant Valid() && messages == Run(start, ops[..i])
        invariant old(Complete()) && NoSharedRemoval(start, ops) ==> Complete()
      {
        Apply(ops[i]);
        assert ops[..i + 1][..i] == ops[..i];
      }
      assert ops[..|ops|] == ops;
      RunRefinesMap(start, ops);
    }
  }
}
