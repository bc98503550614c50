/**
 * Runs of a file transfer (node/media.go, node/node_files.go, node/node_service.go): one sender, one receiver and a
 * network that loses, repeats and reorders; resends from the copy on disk, resumption, acknowledgements and the sweep
 * of a file whose count is full. The sections of one acknowledgement are one step here; Retry takes them apart.
 */
module ChunkRuns {
  import opened Common
  import opened MessageStore
  import opened Chunking
  import opened ChunkCounts

  /** The entry a failed restore writes back for an id that has none: it names no file. */
  const ZERO_INFO := RetryInfo("", "", "", 0, 0, "", 0, "", Zero)

  /**
   * The sender's retry entries and counts. dropped, swept, acked and counted record what has happened to an id: it has
   * been given up, or swept with its file; its acknowledgement has been processed, and counted. The code keeps none.
   */
  datatype Ledger = Ledger(
    unacked: map<string, RetryInfo>,
    counts: Counts,
    dropped: set<string>,
    swept: set<string>,
    acked: set<string>,
    counted: set<string>)

  /**
   * files: what the sender offers, by media id; onDisk: those whose copy can still be read; sent: every chunk message
   * composed, by id; foreign: media ids other senders use; others: ids of messages from elsewhere; queue: messages
   * waiting for a worker; arrived: ids the receiver is to acknowledge.
   *
   * stored and expired record whether an id has been in the receiver's store, or has expired on arrival. The code keeps
   * neither.
   */
  datatype State = State(
    me: string,
    foreign: set<string>,
    files: map<string, File>,
    onDisk: set<string>,
    sent: map<string, Message>,
    others: set<string>,
    own: seq<Message>,
    queue: multiset<Message>,
    book: Ledger,
    net: set<Message>,
    store: seq<Message>,
    arrived: set<string>,
    stored: set<string>,
    expired: set<string>)

  datatype Event =
    | Offer(mediaID: string, file: File)
    | RemoveCopy(mediaID: string)
    | Send(mediaID: string, index: nat, id: string, now: int)
    | Work(m: Message)
    // The worker finds the sender's abort flag set.
    | Skip(m: Message)
    | Retry(id: string)
    | RestoreFails(id: string, drops: bool)
    | GiveUp(id: string)
    | Ack(id: string)
    | Decline(mediaID: string)
    | SetCount(mediaID: string, count: Option<nat>)
    | Resume(mediaID: string, delivered: nat)
    | Deliver(m: Message, now: int)
    | OwnStep(op: Op)
    | StoreStep(op: Op)

  /** A message from elsewhere is no chunk of the sender's files and has an id of its own. */
  predicate FromElsewhere(s: State, op: Op) {
    op.Add? ==> op.m.id !in s.sent && (IsChunk(op.m) ==> op.m.mediaID in s.foreign)
  }

  predicate Enabled(s: State, e: Event) {
    match e
    case Offer(k, f) =>
      k != "" && k !in s.files && k !in s.foreign && IsChunkedMediaType(f.mediaType) && f.recipient != ""
    case Send(k, i, id, now) => k in s.files && i < ChunkTotal(|s.files[k].content|) && id !in s.sent && id !in s.others
    case Work(m) => m in s.queue
    case Skip(m) => m in s.queue
    case Retry(id) => id in s.book.unacked && s.book.unacked[id].mediaID in s.onDisk
    case RestoreFails(id, drops) => drops ==> id in s.book.unacked
    case GiveUp(id) => id in s.book.unacked
    case Ack(id) => id in s.arrived
    case Decline(k) => k != ""
    case Resume(k, delivered) => k in s.onDisk
    case Deliver(m, now) => m in s.net
    case OwnStep(op) => FromElsewhere(s, op)
    case StoreStep(op) => FromElsewhere(s, op)
    case _ => true
  }

  /** The unacked entries after resumeFile has gone through the store. */
  function Resumed(own: seq<Message>, mediaID: string, unacked: map<string, RetryInfo>): map<string, RetryInfo> {
    if own == [] then unacked
    else
      var c, before := own[|own| - 1], Resumed(own[..|own| - 1], mediaID, unacked);
      if c.mediaID == mediaID && IsChunk(c) && c.status < STATUS_DELIVERED then before[c.id := InfoOf(c)] else before
  }

  function OthersAfter(s: State, op: Op): set<string> {
    if op.Add? then s.others + {op.m.id} else s.others
  }

  function EntriesOf(unacked: map<string, RetryInfo>, mediaID: string): set<string> {
    set id | id in unacked && unacked[id].mediaID == mediaID
  }

  /** The chunk an own message counts for, if it is stored and is one. */
  function OwnChunk(s: State, id: string): Option<Chunk> {
    if HasId(s.own, id) then
      var m := s.own[IndexOf(s.own, id)];
      if IsChunk(m) && m.chunkIndex >= 0 then Some(Chunk(m.mediaID, m.chunkIndex, m.chunkTotal)) else None
    else None
  }

  function Lost(b: Ledger, ids: set<string>): Ledger {
    b.(unacked := b.unacked - ids, dropped := b.dropped + ids)
  }

  function SweptFile(b: Ledger, mediaID: string): Ledger {
    var gone := EntriesOf(b.unacked, mediaID);
    b.(unacked := b.unacked - gone, swept := b.swept + gone)
  }

  /** An acknowledgement: the entry goes, its chunk, if the sender has one, is counted; a full count sweeps the file. */
  function Acked(b: Ledger, id: string, chunk: Option<Chunk>): Ledger {
    var b' := b.(unacked := b.unacked - {id}, acked := b.acked + {id});
    match chunk
    case None => b'
    case Some(c) =>
      var counting := b'.(counts := Counted(b.counts, c), counted := b.counted + {id});
      if Completes(b.counts, c) then SweptFile(counting, c.file) else counting
  }

  function LedgerAfter(s: State, e: Event): Ledger {
    var b := s.book;
    match e
    case Work(m) => b.(unacked := b.unacked[m.id := InfoOf(m)])
    case Skip(m) => b.(dropped := b.dropped + {m.id})
    case RestoreFails(id, drops) =>
      if drops then Lost(b, {id}) else if id in b.unacked then b else b.(unacked := b.unacked[id := ZERO_INFO])
    case GiveUp(id) => Lost(b, {id})
    case Ack(id) => Acked(b, id, OwnChunk(s, id))
    case Decline(k) => Lost(b, EntriesOf(b.unacked, k)).(counts := b.counts - {k})
    case SetCount(k, count) => b.(counts := if count.Some? then b.counts[k := count.value] else b.counts - {k})
    case Resume(k, delivered) => b.(unacked := Resumed(s.own, k, b.unacked), counts := b.counts[k := delivered])
    case _ => b
  }

  /** The restored message of a retry, if its copy can be read. */
  function RestoredFor(s: State, id: string): Option<Message>
    requires id in s.book.unacked
  {
    var info := s.book.unacked[id];
    if info.mediaID in s.files then Chunking.Restored(s.me, info, s.files[info.mediaID].content) else None
  }

  function Next(s: State, e: Event): State {
    if !Enabled(s, e) then s else Moved(s, e).(book := LedgerAfter(s, e))
  }

  /** Everything but the ledger. */
  function Moved(s: State, e: Event): State
    requires Enabled(s, e)
  {
    match e
    case Offer(k, f) => s.(files := s.files[k := f], onDisk := s.onDisk + {k})
    case RemoveCopy(k) => s.(onDisk := s.onDisk - {k})
    case Decline(k) => s.(onDisk := s.onDisk - {k})
    case Send(k, i, id, now) =>
      var m := ChunkMessage(s.me, s.files[k], k, i, id);
      s.(sent := s.sent[id := m], queue := s.queue + multiset{m}, own := Added(s.own, WithoutData(m), now))
    case Work(m) => s.(queue := s.queue - multiset{m}, net := s.net + {m})
    case Skip(m) => s.(queue := s.queue - multiset{m})
    case Retry(id) =>
      (match RestoredFor(s, id)
       case Some(m) => s.(queue := s.queue + multiset{m})
       case None => s)
    // The acknowledgement is due whether or not the message is stored.
    case Deliver(m, now) =>
      s.(store := Added(s.store, m, now), arrived := s.arrived + {m.id},
         stored := if Expired(m, now) then s.stored else s.stored + {m.id},
         expired := if Expired(m, now) then s.expired + {m.id} else s.expired)
    case OwnStep(op) => s.(own := Step(s.own, op), others := OthersAfter(s, op))
    case StoreStep(op) => s.(store := Step(s.store, op), others := OthersAfter(s, op))
    case _ => s
  }

  function Run(s: State, events: seq<Event>): State
    decreases |events|
  {
    if events == [] then s else Next(Run(s, events[..|events| - 1]), events[|events| - 1])
  }

  /** Nothing sent yet, nothing stored. */
  predicate Initial(s: State) {
    && s.files == map[] && s.onDisk == {} && s.sent == map[] && s.own == [] && s.queue == multiset{}
    && s.book == Ledger(map[], map[], {}, {}, {}, {})
    && s.net == {} && s.store == [] && s.arrived == {} && s.stored == {} && s.expired == {}
  }

  // ---------- the invariant ----------

  /** m is the chunk composed under its id, with the file's data there or none. */
  predicate GoodChunk(s: State, m: Message) {
    && m.id in s.sent
    && m.mediaID in s.files
    && InfoOf(m).(expiresAt := Zero) == InfoOf(s.sent[m.id]).(expiresAt := Zero)
    && 0 <= m.chunkIndex < ChunkTotal(|s.files[m.mediaID].content|) == m.chunkTotal
    && IsChunk(m)
    && m.recipient != ""
    && (m.text == Slice(s.files[m.mediaID].content, m.chunkIndex) || m.text == "")
  }

  predicate GoodStored(s: State, m: Message) {
    if m.id in s.sent then GoodChunk(s, m)
    else m.id in s.others && (IsChunk(m) ==> m.mediaID in s.foreign)
  }

  ghost predicate GoodStore(s: State, ms: seq<Message>) {
    forall i :: 0 <= i < |ms| ==> GoodStored(s, ms[i])
  }

  ghost predicate FilesOk(s: State) {
    forall k :: k in s.files ==>
      k !in s.foreign && k != "" && IsChunkedMediaType(s.files[k].mediaType) && s.files[k].recipient != ""
  }

  ghost predicate SentOk(s: State) {
    && s.onDisk <= s.files.Keys
    && (forall id :: id in s.sent ==> s.sent[id].id == id && id !in s.others && GoodChunk(s, s.sent[id]))
  }

  ghost predicate TransitOk(s: State) {
    && (forall m :: m in s.net ==> GoodChunk(s, m) && m.text != "")
    && (forall m :: m in s.queue ==> GoodChunk(s, m) && m.text != "")
  }

  /** The entry describes the chunk message composed under its id; only its expiry may have been changed. */
  predicate Describes(info: RetryInfo, m: Message) {
    info.(expiresAt := Zero) == InfoOf(m).(expiresAt := Zero)
  }

  ghost predicate InfosOk(sent: map<string, Message>, unacked: map<string, RetryInfo>) {
    forall id :: id in unacked && unacked[id] != ZERO_INFO ==> id in sent && Describes(unacked[id], sent[id])
  }

  ghost predicate Inv(s: State) {
    && FilesOk(s) && SentOk(s) && TransitOk(s) && InfosOk(s.sent, s.book.unacked)
    && GoodStore(s, s.own) && GoodStore(s, s.store)
  }

  /** What a step may add to the record, and never take away. */
  ghost predicate Grows(s: State, s': State) {
    && s'.foreign == s.foreign && s.others <= s'.others
    && (forall k :: k in s.files ==> k in s'.files && s'.files[k] == s.files[k])
    && (forall id :: id in s.sent ==> id in s'.sent && s'.sent[id] == s.sent[id])
    && (forall id :: id in s'.sent && id !in s.sent ==> id !in s.others)
  }

  lemma GoodStoreGrows(s: State, s': State, ms: seq<Message>)
    requires Grows(s, s') && GoodStore(s, ms)
    ensures GoodStore(s', ms)
  {
    forall i | 0 <= i < |ms| ensures GoodStored(s', ms[i]) {
      assert GoodStored(s, ms[i]);
    }
  }

  lemma GoodChunkGrows(s: State, s': State)
    requires Grows(s, s')
    ensures forall m :: GoodChunk(s, m) ==> GoodChunk(s', m)
  {
    hide Slice, ChunkTotal;
  }

  lemma UpdatedKeepsGood(s: State, ms: seq<Message>, id: string, f: Message -> Message)
    requires GoodStore(s, ms)
    requires forall m :: GoodStored(s, m) ==> GoodStored(s, f(m))
    ensures GoodStore(s, Updated(ms, id, f))
  {
    hide GoodStored;
  }

  lemma MappedKeepsGood(s: State, ms: seq<Message>, f: Message -> Message)
    requires GoodStore(s, ms)
    requires forall m :: GoodStored(s, m) ==> GoodStored(s, f(m))
    ensures GoodStore(s, Mapped(ms, f))
  {
    hide GoodStored;
  }

  lemma KeptKeepsGood(s: State, ms: seq<Message>, keep: Message -> bool)
    requires GoodStore(s, ms)
    ensures GoodStore(s, Kept(ms, keep))
  {
    hide GoodStored;
    KeptMembers(ms, keep);
    var kept := Kept(ms, keep);
    forall i | 0 <= i < |kept| ensures GoodStored(s, kept[i]) {
      assert kept[i] in ms;
    }
  }

  lemma AddedKeepsGood(s: State, ms: seq<Message>, m: Message, now: int)
    requires GoodStore(s, ms) && GoodStored(s, m)
    ensures GoodStore(s, Added(ms, m, now))
  {
    assert GoodStored(s, Normalised(m, now));
    hide GoodStored;
  }

  lemma RemovedKeepsGood(s: State, ms: seq<Message>, id: string)
    requires GoodStore(s, ms)
    ensures GoodStore(s, Removed(ms, id))
  {
    hide GoodStored;
  }

  /** Whatever else happens to a store, its chunks stay the chunks that were sent, or lose their data. */
  lemma StepKeepsGood(s: State, s': State, ms: seq<Message>, op: Op)
    requires GoodStore(s, ms) && Grows(s, s') && s'.sent == s.sent
    requires FromElsewhere(s, op) && s'.others == OthersAfter(s, op)
    ensures GoodStore(s', Step(ms, op))
  {
    GoodStoreGrows(s, s', ms);
    match op
    case Add(m, now) => AddedKeepsGood(s', ms, m, now);
    case Remove(id) => RemovedKeepsGood(s', ms, id);
    case SetStatus(id, st) => UpdatedKeepsGood(s', ms, id, m => WithStatus(m, st));
    case SetExpiresAt(id, t) => UpdatedKeepsGood(s', ms, id, m => WithExpiry(m, t));
    case ClearChunkData(id) => UpdatedKeepsGood(s', ms, id, WithoutData);
    case MarkReadLocally(refs) => MappedKeepsGood(s', ms, m => MarkedRead(m, refs));
    case ArchiveOld(threshold, now) => MappedKeepsGood(s', ms, m => Archived(m, threshold, now));
    case RestoreFromArchive(id, now) => UpdatedKeepsGood(s', ms, id, m => MessageStore.Restored(m, now));
    case UpdateWeight(id, delta) => UpdatedKeepsGood(s', ms, id, m => Reweighted(m, delta));
    case PurgeDead(threshold, now) => KeptKeepsGood(s', ms, m => AgedWeight(m, now) >= threshold);
    case DeleteExpired(now) => KeptKeepsGood(s', ms, m => !Overdue(m, now));
  }

  lemma {:induction false} ResumedGood(s: State, own: seq<Message>, mediaID: string, unacked: map<string, RetryInfo>)
    requires GoodStore(s, own) && mediaID !in s.foreign && InfosOk(s.sent, unacked)
    ensures InfosOk(s.sent, Resumed(own, mediaID, unacked))
  {
    if own != [] {
      assert GoodStored(s, own[|own| - 1]);
      ResumedGood(s, own[..|own| - 1], mediaID, unacked);
    }
  }

  /** When nothing is composed or taken over from elsewhere, the record is as good as it was. */
  lemma RecordStays(s: State, s': State)
    requires Inv(s) && Grows(s, s') && s'.sent == s.sent && (forall id :: id in s.sent ==> id !in s'.others)
    requires FilesOk(s') && s'.onDisk <= s'.files.Keys
    ensures SentOk(s') && (s'.net == s.net && s'.queue <= s.queue ==> TransitOk(s'))
    ensures GoodStore(s', s.own) && GoodStore(s', s.store)
    ensures forall m :: GoodChunk(s, m) ==> GoodChunk(s', m)
  {
    GoodChunkGrows(s, s');
    GoodStoreGrows(s, s', s.own);
    GoodStoreGrows(s, s', s.store);
    hide GoodStore, GoodChunk;
  }

  lemma OfferKeepsInv(s: State, k: string, f: File)
    requires Inv(s) && Enabled(s, Offer(k, f))
    ensures Inv(Next(s, Offer(k, f)))
  {
    RecordStays(s, Next(s, Offer(k, f)));
    hide GoodStore, SentOk, TransitOk;
  }

  lemma SendComposes(s: State, k: string, i: nat, id: string, now: int)
    requires Inv(s) && Enabled(s, Send(k, i, id, now))
    ensures var s', m := Next(s, Send(k, i, id, now)), ChunkMessage(s.me, s.files[k], k, i, id);
            GoodChunk(s', m) && m.text != "" && GoodStored(s', WithoutData(m)) && Grows(s, s')
  {
    ChunkIsNonEmpty(s.files[k].content, i);
    hide Slice, ChunkTotal, Added;
  }

  lemma SendKeepsInv(s: State, k: string, i: nat, id: string, now: int)
    requires Inv(s) && Enabled(s, Send(k, i, id, now))
    ensures Inv(Next(s, Send(k, i, id, now)))
  {
    var s', m := Next(s, Send(k, i, id, now)), ChunkMessage(s.me, s.files[k], k, i, id);
    assert m.id == id;
    SendComposes(s, k, i, id, now);
    hide GoodStore, GoodChunk, GoodStored, Grows, Added, ChunkMessage;
    GoodChunkGrows(s, s');
    GoodStoreGrows(s, s', s.own);
    GoodStoreGrows(s, s', s.store);
    AddedKeepsGood(s', s.own, WithoutData(m), now);
    SendKeepsRecord(s, s', m);
  }

  lemma SendKeepsRecord(s: State, s': State, m: Message)
    requires SentOk(s) && TransitOk(s) && InfosOk(s.sent, s.book.unacked)
    requires m.id !in s.sent && m.id !in s.others && GoodChunk(s', m) && m.text != ""
    requires forall c :: GoodChunk(s, c) ==> GoodChunk(s', c)
    requires s'.sent == s.sent[m.id := m] && s'.others == s.others && s'.files == s.files && s'.onDisk == s.onDisk
    requires s'.net == s.net && s'.queue == s.queue + multiset{m} && s'.book == s.book
    ensures SentOk(s') && TransitOk(s') && InfosOk(s'.sent, s'.book.unacked)
  {
    hide GoodChunk, Describes;
  }

  /** A tracked chunk whose copy is on disk can be restored. */
  lemma RetryRestores(s: State, id: string)
    requires Inv(s) && Enabled(s, Retry(id))
    ensures RestoredFor(s, id).Some?
    ensures var m := RestoredFor(s, id).value;
            GoodChunk(s, m) && m.text != "" && InfoOf(m) == s.book.unacked[id] && m.id == id
  {
    var info := s.book.unacked[id];
    assert info != ZERO_INFO;
    assert GoodChunk(s, s.sent[id]);
    ChunkIsNonEmpty(s.files[info.mediaID].content, info.chunkIndex);
  }

  lemma RetryMoves(s: State, id: string)
    requires Enabled(s, Retry(id)) && RestoredFor(s, id).Some?
    ensures Next(s, Retry(id)) == s.(queue := s.queue + multiset{RestoredFor(s, id).value})
  {
    hide RestoredFor;
  }

  lemma RetryKeepsInv(s: State, id: string)
    requires Inv(s) && Enabled(s, Retry(id))
    ensures Inv(Next(s, Retry(id)))
  {
    var s' := Next(s, Retry(id));
    RetryRestores(s, id);
    RetryMoves(s, id);
    hide Next, Enabled, GoodStore, GoodChunk, RestoredFor, InfoOf;
    RecordStays(s, s');
  }

  lemma DeliverKeepsInv(s: State, m: Message, now: int)
    requires Inv(s) && m in s.net
    ensures Inv(Next(s, Deliver(m, now)))
  {
    var s' := Next(s, Deliver(m, now));
    assert GoodStored(s, m);
    hide GoodStore, GoodStored, GoodChunk, Added;
    RecordStays(s, s');
    AddedKeepsGood(s, s.store, m, now);
    GoodStoreGrows(s, s', s'.store);
    hide SentOk, TransitOk, InfosOk, Grows;
  }

  lemma StoresKeepInv(s: State, e: Event)
    requires Inv(s) && Enabled(s, e) && (e.OwnStep? || e.StoreStep?)
    ensures Inv(Next(s, e))
  {
    var s' := Next(s, e);
    hide GoodStore, GoodStored, GoodChunk, Step, Added;
    RecordStays(s, s');
    if e.OwnStep? {
      StepKeepsGood(s, s', s.own, e.op);
    } else {
      StepKeepsGood(s, s', s.store, e.op);
    }
    hide SentOk, TransitOk, InfosOk, Grows;
  }

  /** The events that change no message and no store. */
  predicate ChangesEntries(e: Event) {
    || e.RemoveCopy? || e.Work? || e.Skip? || e.RestoreFails? || e.GiveUp? || e.Ack? || e.Decline? || e.SetCount?
    || e.Resume?
  }

  lemma AckKeepsInfos(sent: map<string, Message>, b: Ledger, id: string, chunk: Option<Chunk>)
    requires InfosOk(sent, b.unacked)
    ensures InfosOk(sent, Acked(b, id, chunk).unacked)
  {
    hide Describes, Counted, Completes;
  }

  lemma LedgerKeepsInfos(s: State, e: Event)
    requires Inv(s) && Enabled(s, e)
    ensures InfosOk(s.sent, LedgerAfter(s, e).unacked)
  {
    match e
    case Work(m) =>
      assert GoodChunk(s, m);
      assert m.id in s.sent && Describes(InfoOf(m), s.sent[m.id]);
      hide GoodChunk, GoodStore, SentOk, TransitOk, FilesOk, Describes;
    case Ack(id) => AckKeepsInfos(s.sent, s.book, id, OwnChunk(s, id)); hide Acked, Describes, OwnChunk;
    case Resume(k, delivered) =>
      ResumedGood(s, s.own, k, s.book.unacked);
      hide Resumed, Describes, GoodStore;
    case _ => RestKeepInfos(s, e);
  }

  lemma RestKeepInfos(s: State, e: Event)
    requires InfosOk(s.sent, s.book.unacked) && !e.Work? && !e.Ack? && !e.Resume?
    ensures InfosOk(s.sent, LedgerAfter(s, e).unacked)
  {
    hide Describes, EntriesOf;
  }

  lemma EntriesMove(s: State, e: Event)
    requires Enabled(s, e) && ChangesEntries(e)
    ensures var s' := Next(s, e);
            && s'.foreign == s.foreign && s'.others == s.others && s'.files == s.files && s'.sent == s.sent
            && s'.own == s.own && s'.store == s.store && s'.onDisk <= s.onDisk && s'.queue <= s.queue
            && s'.net == (if e.Work? then s.net + {e.m} else s.net) && s'.book == LedgerAfter(s, e)
            && (e.Work? ==> e.m in s.queue)
  {
    hide LedgerAfter;
  }

  lemma InvMoves(s: State, s': State)
    requires Inv(s) && InfosOk(s'.sent, s'.book.unacked)
    requires s'.foreign == s.foreign && s'.others == s.others && s'.files == s.files && s'.sent == s.sent
    requires s'.own == s.own && s'.store == s.store && s'.onDisk <= s.onDisk && s'.queue <= s.queue
    requires forall m :: m in s'.net ==> m in s.net || m in s.queue
    ensures Inv(s')
  {
    assert Grows(s, s') && FilesOk(s');
    hide InfosOk, GoodStored, GoodChunk;
    RecordStays(s, s');
    hide Grows, GoodStore, SentOk, FilesOk;
    TransitMoves(s, s');
  }

  lemma TransitMoves(s: State, s': State)
    requires TransitOk(s) && forall m :: GoodChunk(s, m) ==> GoodChunk(s', m)
    requires s'.queue <= s.queue && forall m :: m in s'.net ==> m in s.net || m in s.queue
    ensures TransitOk(s')
  {
    hide GoodChunk;
  }

  lemma EntriesKeepInv(s: State, e: Event)
    requires Inv(s) && Enabled(s, e) && ChangesEntries(e)
    ensures Inv(Next(s, e))
  {
    LedgerKeepsInfos(s, e);
    EntriesMove(s, e);
    hide *;
    InvMoves(s, Next(s, e));
  }

  lemma NextKeepsInv(s: State, e: Event)
    requires Inv(s)
    ensures Inv(Next(s, e))
  {
    hide Inv;
    if Enabled(s, e) {
      hide Next, Enabled;
      match e
      case Offer(k, f) => OfferKeepsInv(s, k, f);
      case Send(k, i, id, now) => SendKeepsInv(s, k, i, id, now);
      case Retry(id) => RetryKeepsInv(s, id);
      case Deliver(m, now) => EnabledDeliver(s, m, now); DeliverKeepsInv(s, m, now);
      case OwnStep(_) => StoresKeepInv(s, e);
      case StoreStep(_) => StoresKeepInv(s, e);
      case _ => EntriesKeepInv(s, e);
    }
  }

  lemma EnabledDeliver(s: State, m: Message, now: int)
    ensures Enabled(s, Deliver(m, now)) ==> m in s.net
  {
  }

  lemma {:induction false} RunKeepsInv(s: State, events: seq<Event>)
    requires Initial(s)
    ensures Inv(Run(s, events))
    decreases |events|
  {
    if events != [] {
      RunKeepsInv(s, events[..|events| - 1]);
      hide Inv, Next;
      NextKeepsInv(Run(s, events[..|events| - 1]), events[|events| - 1]);
    }
  }

  // ---------- what the receiver finds ----------

  /**
   * After any run, whenever the receiver finds every chunk of a file, with its data, through its chunk index, the
   * data joined in order is the file: no loss, repetition, reordering, resend, resumption or unrelated removal
   * can make it anything else.
   */
  lemma FoundChunksAreTheFile(s: State, events: seq<Event>, k: string, chunks: ChunkIndex, parts: seq<string>)
    requires Initial(s)
    requires var s' := Run(s, events);
             && k in s'.files
             && ChunksSound(s'.store, chunks)
             && |parts| == ChunkTotal(|s'.files[k].content|)
             && forall i :: 0 <= i < |parts| ==>
                  var found := Lookup(s'.store, chunks, k, i);
                  found.Some? && found.value.text == parts[i] != ""
    ensures Joined(parts) == Run(s, events).files[k].content
  {
    var s' := Run(s, events);
    RunKeepsInv(s, events);
    hide Run, Next, Slice, ChunkTotal, Joined;
    forall i | 0 <= i < |parts| ensures parts[i] == Slice(s'.files[k].content, i) {
      FoundIsSlice(s', k, chunks, i);
    }
    SlicesJoin(s'.files[k].content, parts);
  }

  lemma FoundIsSlice(s: State, k: string, chunks: ChunkIndex, i: nat)
    requires Inv(s) && k in s.files && ChunksSound(s.store, chunks)
    requires Lookup(s.store, chunks, k, i).Some?
    ensures var m := Lookup(s.store, chunks, k, i).value; m.text == "" || m.text == Slice(s.files[k].content, i)
  {
    hide Slice, ChunkTotal;
    var pos := Entry(chunks, k, i).value;
    assert GoodStored(s, s.store[pos]);
  }

  /** The store holds a message with the entry's id and chunk key. */
  predicate HoldsChunk(ms: seq<Message>, info: RetryInfo) {
    HasId(ms, info.msgID) && HasKey(ms[IndexOf(ms, info.msgID)], info.mediaID, info.chunkIndex)
  }

  /** The retry, the worker and one arrival of the restored message. */
  function Redelivered(s: State, id: string, now: int): State
    requires id in s.book.unacked
  {
    match RestoredFor(s, id)
    case Some(m) => Next(Next(Next(s, Retry(id)), Work(m)), Deliver(m, now))
    case None => s
  }

  /**
   * A chunk whose entry names a file that is still on disk can be delivered whatever happened before: after one
   * retry, the worker and one arrival, the receiver's store holds a message with its id and chunk key, unless it
   * expires first. An entry that names no file, as a failed restore may leave behind, or whose copy is gone, cannot.
   */
  lemma RetryDelivers(s: State, events: seq<Event>, id: string, now: int)
    requires Initial(s) && Enabled(Run(s, events), Retry(id))
    ensures var s' := Run(s, events);
            && RestoredFor(s', id).Some?
            && (!Expired(RestoredFor(s', id).value, now) ==>
                  HoldsChunk(Redelivered(s', id, now).store, s'.book.unacked[id]))
  {
    RunKeepsInv(s, events);
    hide Run, Expired, Redelivered, HoldsChunk, RestoredFor, Inv, Next, Enabled;
    RetryRestores(Run(s, events), id);
    if !Expired(RestoredFor(Run(s, events), id).value, now) {
      RedeliveryHolds(Run(s, events), id, now);
    }
  }

  lemma RedeliveryHolds(s: State, id: string, now: int)
    requires Inv(s) && Enabled(s, Retry(id)) && RestoredFor(s, id).Some? && !Expired(RestoredFor(s, id).value, now)
    ensures HoldsChunk(Redelivered(s, id, now).store, s.book.unacked[id])
  {
    var m := RestoredFor(s, id).value;
    var s1 := Next(s, Retry(id));
    var s2 := Next(s1, Work(m));
    RetryRestores(s, id);
    RetryKeepsInv(s, id);
    assert m in s1.queue && m in s2.net && Enabled(s1, Work(m));
    hide Inv, Next, RestoredFor, HoldsChunk, InfoOf, GoodChunk, Expired, Enabled;
    EntriesKeepInv(s1, Work(m));
    ArrivalHolds(s2, m, now);
  }

  lemma DeliverMoves(s: State, m: Message, now: int)
    requires m in s.net
    ensures var s' := Next(s, Deliver(m, now)); s'.store == Added(s.store, m, now) && s'.sent == s.sent
  {
    hide Added;
  }

  lemma ArrivalHolds(s: State, m: Message, now: int)
    requires Inv(s) && m in s.net && !Expired(m, now)
    ensures HoldsChunk(Next(s, Deliver(m, now)).store, InfoOf(m))
  {
    var s' := Next(s, Deliver(m, now));
    DeliverKeepsInv(s, m, now);
    AddedHasId(s.store, m, now);
    DeliverMoves(s, m, now);
    hide Next;
    assert GoodChunk(s, m) && GoodStore(s', s'.store);
    hide Added, Inv, HasId, HoldsChunk, InfoOf, GoodStore, GoodChunk, Expired;
    StoredIsHeld(s, s', m);
  }

  lemma StoredIsHeld(s: State, s': State, m: Message)
    requires GoodChunk(s, m) && GoodStore(s', s'.store) && s'.sent == s.sent && HasId(s'.store, m.id)
    ensures HoldsChunk(s'.store, InfoOf(m))
  {
    assert GoodStored(s', s'.store[IndexOf(s'.store, m.id)]);
    hide Slice, ChunkTotal, GoodStore;
  }

  lemma AddedHasId(ms: seq<Message>, m: Message, now: int)
    requires !Expired(m, now)
    ensures HasId(Added(ms, m, now), m.id)
  {
    if !HasId(ms, m.id) {
      assert Added(ms, m, now)[|ms|].id == m.id;
    }
  }

  // ---------- nothing is lost ----------

  predicate Waits(s: State, id: string) {
    exists m | m in s.queue :: m.id == id
  }

  predicate Tracked(b: Ledger, id: string) {
    id in b.unacked && b.unacked[id] != ZERO_INFO
  }

  /** The chunk message is on its way, retried, arrived, given up, or swept with its file. */
  predicate Accounted(s: State, id: string) {
    || Waits(s, id) || Tracked(s.book, id)
    || id in s.stored || id in s.expired || id in s.book.dropped || id in s.book.swept
  }

  ghost predicate NoLoss(s: State) {
    && (forall id :: id in s.sent ==> Accounted(s, id))
    && s.arrived <= s.stored + s.expired && s.book.acked <= s.arrived <= s.sent.Keys
  }

  lemma {:induction false} ResumedKeeps(own: seq<Message>, mediaID: string, unacked: map<string, RetryInfo>, id: string)
    requires id in unacked
    ensures var r := Resumed(own, mediaID, unacked); id in r && (r[id] == unacked[id] || r[id].mediaID == mediaID)
  {
    if own != [] {
      ResumedKeeps(own[..|own| - 1], mediaID, unacked, id);
    }
  }

  /** A resumption writes an entry for every stored chunk of the file that is not yet delivered. */
  lemma {:induction false} ResumedRestores(own: seq<Message>, mediaID: string, unacked: map<string, RetryInfo>, i: nat)
    requires i < |own| && Distinct(own)
    requires own[i].mediaID == mediaID && IsChunk(own[i]) && own[i].status < 2
    ensures var r := Resumed(own, mediaID, unacked); own[i].id in r && r[own[i].id] == InfoOf(own[i])
  {
    var n := |own| - 1;
    if i < n {
      ResumedRestores(own[..n], mediaID, unacked, i);
    }
  }

  /** And touches no other entry. */
  lemma {:induction false} ResumedOnly(own: seq<Message>, mediaID: string, unacked: map<string, RetryInfo>, id: string)
    requires forall i :: 0 <= i < |own| && own[i].id == id ==>
               own[i].mediaID != mediaID || !IsChunk(own[i]) || own[i].status >= 2
    ensures var r := Resumed(own, mediaID, unacked);
            (id in r <==> id in unacked) && (id in r ==> r[id] == unacked[id])
  {
    if own != [] {
      ResumedOnly(own[..|own| - 1], mediaID, unacked, id);
    }
  }

  lemma LedgerGrows(s: State, e: Event)
    ensures var b, b' := s.book, LedgerAfter(s, e);
            && b.dropped <= b'.dropped && b.swept <= b'.swept
            && b'.acked == (if e.Ack? then b.acked + {e.id} else b.acked)
            && (e.Skip? ==> e.m.id in b'.dropped)
  {
    hide OwnChunk, Counted, Completes, EntriesOf, Resumed;
  }

  lemma WorkTracks(s: State, m: Message)
    requires Inv(s) && m in s.queue
    ensures Tracked(LedgerAfter(s, Work(m)), m.id)
  {
    assert GoodChunk(s, m);
    hide GoodStore, ChunkTotal, Slice;
  }

  /** A tracked chunk leaves the ledger only as acknowledged, dropped or swept. */
  lemma TrackedUntilGone(s: State, e: Event, id: string)
    requires Tracked(s.book, id) && !e.Resume? && !e.Work?
    ensures var b' := LedgerAfter(s, e);
            Tracked(b', id) || id in b'.dropped || id in b'.swept || e == Ack(id)
  {
    hide OwnChunk, Counted, Completes;
  }

  lemma ResumeTracks(s: State, e: Event, id: string)
    requires Tracked(s.book, id) && e.Resume? && e.mediaID != ""
    ensures Tracked(LedgerAfter(s, e), id)
  {
    ResumedKeeps(s.own, e.mediaID, s.book.unacked, id);
  }

  lemma ResumedFileIsNamed(s: State, e: Event)
    requires Inv(s) && Enabled(s, e) && e.Resume?
    ensures e.mediaID != ""
  {
    hide GoodStore, TransitOk;
  }

  lemma WorkKeepsTrack(s: State, m: Message, id: string)
    requires Inv(s) && m in s.queue
    ensures Tracked(s.book, id) || m.id == id ==> Tracked(LedgerAfter(s, Work(m)), id)
  {
    WorkTracks(s, m);
    hide Inv;
  }

  /** What an event does to the entry of a chunk; and what is recorded stays recorded. */
  lemma LedgerKeepsTrack(s: State, e: Event, id: string)
    requires Inv(s) && Enabled(s, e)
    ensures var b, b' := s.book, LedgerAfter(s, e);
            && b.dropped <= b'.dropped && b.swept <= b'.swept
            && b'.acked == (if e.Ack? then b.acked + {e.id} else b.acked)
            && (Tracked(b, id) ==> Tracked(b', id) || id in b'.dropped || id in b'.swept || e == Ack(id))
            && (e.Work? && e.m.id == id ==> Tracked(b', id))
            && (e.Skip? && e.m.id == id ==> id in b'.dropped)
  {
    LedgerGrows(s, e);
    assert e.Work? ==> e.m in s.queue;
    hide Inv, LedgerAfter, Tracked, Enabled;
    if e.Work? {
      WorkKeepsTrack(s, e.m, id);
    } else if Tracked(s.book, id) {
      if e.Resume? {
        ResumedFileIsNamed(s, e);
        ResumeTracks(s, e, id);
      } else {
        TrackedUntilGone(s, e, id);
      }
    }
  }

  /** A message waiting for a worker waits on until one takes it. */
  lemma WaitsUntilTaken(s: State, e: Event, id: string)
    requires Enabled(s, e) && Waits(s, id)
    ensures Waits(Moved(s, e), id) || ((e.Work? || e.Skip?) && e.m.id == id)
  {
    var m :| m in s.queue && m.id == id;
    assert m in Moved(s, e).queue || ((e.Work? || e.Skip?) && e.m == m);
    hide Added, Step, ChunkMessage, RestoredFor;
  }

  lemma SentWaits(s: State, e: Event, id: string)
    requires Enabled(s, e) && id in Moved(s, e).sent && id !in s.sent
    ensures Waits(Moved(s, e), id)
  {
    var s' := Moved(s, e);
    assert e.Send? && e.id == id;
    assert s'.sent[id] in s'.queue && s'.sent[id].id == id;
    hide Added;
  }

  /** What the rest of the state does to the messages waiting and to those arrived. */
  lemma MovedKeepsTrack(s: State, e: Event, id: string)
    requires Enabled(s, e)
    ensures var s' := Moved(s, e);
            && (Waits(s, id) ==> Waits(s', id) || ((e.Work? || e.Skip?) && e.m.id == id))
            && s.stored <= s'.stored && s.expired <= s'.expired
            && s'.arrived == (if e.Deliver? then s.arrived + {e.m.id} else s.arrived)
            && (e.Deliver? ==> e.m.id in s'.stored + s'.expired && e.m in s.net)
            && s.sent.Keys <= s'.sent.Keys
            && (id in s'.sent && id !in s.sent ==> Waits(s', id))
  {
    if Waits(s, id) {
      WaitsUntilTaken(s, e, id);
    }
    if id in Moved(s, e).sent && id !in s.sent {
      SentWaits(s, e, id);
    }
    hide Added, Step, ChunkMessage, RestoredFor, Waits;
  }

  lemma AccountedStays(s: State, e: Event, id: string)
    requires Inv(s) && NoLoss(s) && Enabled(s, e) && id in Next(s, e).sent
    ensures Accounted(Next(s, e), id)
  {
    var s', moved := Next(s, e), Moved(s, e);
    assert s' == moved.(book := LedgerAfter(s, e));
    assert Waits(moved, id) == Waits(s', id);
    LedgerKeepsTrack(s, e, id);
    MovedKeepsTrack(s, e, id);
    AckIsArrived(s, e);
    assert id in s.sent ==> Accounted(s, id);
    hide Inv, Next, Moved, LedgerAfter, Enabled, Tracked, Waits;
  }

  lemma BoundsStay(s: State, e: Event)
    requires Inv(s) && NoLoss(s) && Enabled(s, e)
    ensures var s' := Next(s, e);
            s'.arrived <= s'.stored + s'.expired && s'.book.acked <= s'.arrived <= s'.sent.Keys
  {
    LedgerKeepsTrack(s, e, "");
    MovedKeepsTrack(s, e, "");
    AckIsArrived(s, e);
    assert Next(s, e) == Moved(s, e).(book := LedgerAfter(s, e));
    hide Inv, Next, Moved, LedgerAfter, Enabled, Accounted, Tracked, Waits;
  }

  lemma NextKeepsNoLoss(s: State, e: Event)
    requires Inv(s) && NoLoss(s)
    ensures NoLoss(Next(s, e))
  {
    hide Inv, Accounted;
    if Enabled(s, e) {
      BoundsStay(s, e);
      forall id | id in Next(s, e).sent ensures Accounted(Next(s, e), id) {
        AccountedStays(s, e, id);
      }
      hide Next, Enabled;
    }
  }

  lemma AckIsArrived(s: State, e: Event)
    requires Inv(s) && Enabled(s, e)
    ensures e.Ack? ==> e.id in s.arrived
    ensures e.Deliver? ==> e.m.id in s.sent
  {
    assert e.Deliver? ==> GoodChunk(s, e.m);
  }

  lemma {:induction false} RunKeepsNoLoss(s: State, events: seq<Event>)
    requires Initial(s)
    ensures NoLoss(Run(s, events))
    decreases |events|
  {
    if events != [] {
      RunKeepsNoLoss(s, events[..|events| - 1]);
      RunKeepsInv(s, events[..|events| - 1]);
      hide Inv, Next, NoLoss;
      NextKeepsNoLoss(Run(s, events[..|events| - 1]), events[|events| - 1]);
    }
  }

  // ---------- when every acknowledgement is processed once ----------

  function ChunkOf(m: Message): Chunk {
    Chunk(m.mediaID, if m.chunkIndex < 0 then 0 else m.chunkIndex, if m.chunkTotal < 0 then 0 else m.chunkTotal)
  }

  function PlanOf(sent: map<string, Message>): Plan {
    map id | id in sent :: ChunkOf(sent[id])
  }

  /** The count stands for no more than the ids whose acknowledgement has been counted. */
  predicate CountsNoMore(s: State, mediaID: string, count: nat) {
    count <= |IdsOf(PlanOf(s.sent), s.book.counted, mediaID)|
  }

  /** The event sends no chunk under a second id, processes no acknowledgement again, and sets no count too high. */
  predicate OnceEach(s: State, e: Event) {
    match e
    case Send(k, i, _, _) => forall id | id in s.sent :: !(s.sent[id].mediaID == k && s.sent[id].chunkIndex == i)
    case Ack(id) => id !in s.book.acked
    case SetCount(k, count) => count.Some? ==> CountsNoMore(s, k, count.value)
    case Resume(k, delivered) => CountsNoMore(s, k, delivered)
    case _ => true
  }

  predicate OnceEachRun(s: State, events: seq<Event>)
    decreases |events|
  {
    events == [] ||
    (OnceEachRun(s, events[..|events| - 1]) && OnceEach(Run(s, events[..|events| - 1]), events[|events| - 1]))
  }

  /** Counts are backed by acknowledgements, and what has been swept had been acknowledged. */
  ghost predicate CountsOk(plan: Plan, b: Ledger) {
    && b.counted <= b.acked && b.swept <= b.acked && b.acked <= plan.Keys
    && forall k :: CountOf(b.counts, k) <= |IdsOf(plan, b.counted, k)|
  }

  ghost predicate Backed(s: State) {
    OneIdPerChunk(PlanOf(s.sent)) && CountsOk(PlanOf(s.sent), s.book)
  }

  lemma PlanIsProper(s: State)
    requires Inv(s)
    ensures Proper(PlanOf(s.sent))
  {
    var plan := PlanOf(s.sent);
    forall id | id in plan
      ensures plan[id].file in s.files && plan[id].file != "" && plan[id].index < plan[id].total
      ensures plan[id].total == ChunkTotal(|s.files[plan[id].file].content|)
    {
      assert GoodChunk(s, s.sent[id]);
      hide ChunkTotal, Slice;
    }
    hide ChunkTotal, Inv;
  }

  lemma OwnChunkIsPlanned(s: State, id: string)
    requires Inv(s) && id in s.sent
    ensures OwnChunk(s, id).Some? ==> OwnChunk(s, id).value == PlanOf(s.sent)[id]
  {
    if HasId(s.own, id) {
      assert GoodStored(s, s.own[IndexOf(s.own, id)]);
      assert GoodChunk(s, s.sent[id]);
      hide ChunkTotal, Slice;
    }
  }

  /** An acknowledgement processed for the first time sweeps only what has been acknowledged. */
  lemma AckKeepsCounts(plan: Plan, sent: map<string, Message>, b: Ledger, id: string, chunk: Option<Chunk>)
    requires Proper(plan) && OneIdPerChunk(plan) && plan == PlanOf(sent) && InfosOk(sent, b.unacked)
    requires CountsOk(plan, b) && id in plan && id !in b.acked && (chunk.Some? ==> chunk.value == plan[id])
    ensures CountsOk(plan, Acked(b, id, chunk))
  {
    if chunk.Some? {
      var c, b' := plan[id], Acked(b, id, chunk);
      forall k ensures CountOf(b'.counts, k) <= |IdsOf(plan, b.counted + {id}, k)| {
        CountOnce(plan, b.counts, b.counted, id, k);
      }
      if Completes(b.counts, c) {
        assert CountOf(b'.counts, c.file) >= c.total;
        forall other | other in b.unacked && b.unacked[other].mediaID == c.file
          ensures other in b.counted + {id}
        {
          EntryIsPlanned(plan, sent, b.unacked, other, id);
          FullCountIsAll(plan, b.counted + {id}, other);
        }
      }
    }
  }

  /** An entry of the file of id is the entry of one of the file's chunks. */
  lemma EntryIsPlanned(plan: Plan, sent: map<string, Message>, unacked: map<string, RetryInfo>, other: string,
                       id: string)
    requires Proper(plan) && plan == PlanOf(sent) && InfosOk(sent, unacked)
    requires id in plan && other in unacked && unacked[other].mediaID == plan[id].file
    ensures other in plan && plan[other].file == plan[id].file && plan[other].total == plan[id].total
  {
    assert unacked[other] != ZERO_INFO;
    assert other in sent && Describes(unacked[other], sent[other]);
  }

  lemma NextKeepsBacked(s: State, e: Event)
    requires Inv(s) && NoLoss(s) && Backed(s) && OnceEach(s, e)
    ensures Backed(Next(s, e))
  {
    if Enabled(s, e) {
      match e
      case Ack(id) =>
        PlanIsProper(s);
        OwnChunkIsPlanned(s, id);
        AckKeepsCounts(PlanOf(s.sent), s.sent, s.book, id, OwnChunk(s, id));
        hide OwnChunk, Acked, CountsOk, OneIdPerChunk, Inv, NoLoss;
      case Send(k, i, id, now) =>
        SendKeepsBacked(s, k, i, id, now);
      case _ =>
        OthersKeepBacked(s, e);
    }
  }

  lemma PlanGrows(plan: Plan, b: Ledger, id: string, c: Chunk)
    requires OneIdPerChunk(plan) && CountsOk(plan, b) && id !in plan
    requires forall a :: a in plan ==> !(plan[a].file == c.file && plan[a].index == c.index)
    ensures OneIdPerChunk(plan[id := c]) && CountsOk(plan[id := c], b)
  {
    forall k ensures IdsOf(plan[id := c], b.counted, k) == IdsOf(plan, b.counted, k) {
    }
  }

  lemma KeyIsNew(s: State, k: string, i: nat, id: string, now: int)
    requires Inv(s) && OnceEach(s, Send(k, i, id, now))
    ensures var plan := PlanOf(s.sent);
            forall a :: a in plan ==> !(plan[a].file == k && plan[a].index == i)
  {
    forall a | a in s.sent ensures s.sent[a].chunkIndex >= 0 {
      assert GoodChunk(s, s.sent[a]);
    }
    hide Inv;
  }

  lemma PlanAfterSend(s: State, k: string, i: nat, id: string, now: int)
    requires Enabled(s, Send(k, i, id, now))
    ensures var s' := Next(s, Send(k, i, id, now));
            PlanOf(s'.sent) == PlanOf(s.sent)[id := Chunk(k, i, ChunkTotal(|s.files[k].content|))]
            && s'.book == s.book && id !in PlanOf(s.sent)
  {
    hide ChunkTotal, Slice, Added;
  }

  lemma SendKeepsBacked(s: State, k: string, i: nat, id: string, now: int)
    requires Inv(s) && Backed(s) && Enabled(s, Send(k, i, id, now)) && OnceEach(s, Send(k, i, id, now))
    ensures Backed(Next(s, Send(k, i, id, now)))
  {
    KeyIsNew(s, k, i, id, now);
    PlanAfterSend(s, k, i, id, now);
    hide Inv, Next, Enabled, OnceEach, ChunkTotal, OneIdPerChunk, CountsOk, PlanOf;
    PlanGrows(PlanOf(s.sent), s.book, id, Chunk(k, i, ChunkTotal(|s.files[k].content|)));
  }

  /** How a count may be set: forgotten, or to no more than the ids of the file counted. */
  predicate CountSet(plan: Plan, b: Ledger, counts: Counts, k: string) {
    || counts == b.counts - {k}
    || (k in counts && counts == b.counts[k := counts[k]] && counts[k] <= |IdsOf(plan, b.counted, k)|)
  }

  lemma OthersMove(s: State, e: Event)
    requires Enabled(s, e) && !e.Send?
    ensures Next(s, e).book == LedgerAfter(s, e) && Next(s, e).sent == s.sent
  {
    hide LedgerAfter, Added, Step, RestoredFor;
  }

  lemma OthersCount(s: State, e: Event)
    requires Enabled(s, e) && OnceEach(s, e) && !e.Ack? && !e.Send?
    ensures var b, b' := s.book, Next(s, e).book;
            && Next(s, e).sent == s.sent
            && b'.counted == b.counted && b'.acked == b.acked && b'.swept == b.swept
            && (b'.counts == b.counts || exists k :: CountSet(PlanOf(s.sent), b, b'.counts, k))
  {
    OthersMove(s, e);
    hide Next, Enabled, Moved, EntriesOf, Resumed, OwnChunk, IdsOf, PlanOf;
    assert Next(s, e).book == LedgerAfter(s, e);
    if e.SetCount? || e.Decline? || e.Resume? {
      assert CountSet(PlanOf(s.sent), s.book, LedgerAfter(s, e).counts, e.mediaID);
    }
  }

  lemma FewerCountsOk(plan: Plan, b: Ledger, b': Ledger)
    requires CountsOk(plan, b) && b'.counted == b.counted && b'.acked == b.acked && b'.swept == b.swept
    requires b'.counts == b.counts || exists k :: CountSet(plan, b, b'.counts, k)
    ensures CountsOk(plan, b')
  {
    hide IdsOf;
  }

  lemma OthersKeepBacked(s: State, e: Event)
    requires Backed(s) && Enabled(s, e) && OnceEach(s, e) && !e.Ack? && !e.Send?
    ensures Backed(Next(s, e))
  {
    OthersCount(s, e);
    hide OneIdPerChunk, CountsOk, PlanOf, Next, Enabled, OnceEach;
    FewerCountsOk(PlanOf(s.sent), s.book, Next(s, e).book);
  }

  lemma {:induction false} RunKeepsBacked(s: State, events: seq<Event>)
    requires Initial(s) && OnceEachRun(s, events)
    ensures Backed(Run(s, events))
    decreases |events|
  {
    if events != [] {
      var front := events[..|events| - 1];
      RunKeepsBacked(s, front);
      RunKeepsInv(s, front);
      RunKeepsNoLoss(s, front);
      hide Inv, Next, NoLoss, Backed, OnceEach;
      NextKeepsBacked(Run(s, front), events[|events| - 1]);
    }
  }

  /**
   * No chunk sent is lost: over every run it is still waiting, has an entry the passes will retry, has been stored by
   * the receiver or has expired on the way, or has been given up; or it was swept with its file. And where each chunk
   * is sent under one id, each acknowledgement processed once and no count set too high, a sweep loses none either.
   */
  lemma NothingLostBySweeps(s: State, events: seq<Event>, id: string)
    requires Initial(s) && id in Run(s, events).sent
    ensures var s' := Run(s, events);
            && Accounted(s', id)
            && (OnceEachRun(s, events) ==>
                  Waits(s', id) || Tracked(s'.book, id) || id in s'.stored || id in s'.expired || id in s'.book.dropped)
  {
    RunKeepsNoLoss(s, events);
    if OnceEachRun(s, events) {
      RunKeepsBacked(s, events);
    }
    hide Run, OnceEachRun, Initial, Waits, Tracked, OneIdPerChunk;
  }
}
