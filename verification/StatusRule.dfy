/** Delivery and read statuses (node/memory.go SetStatus, node/node_service.go TypeRead). */
module StatusRule {
  import opened Common
  import opened MessageStore

  predicate Terminal(s: Status) {
    s == STATUS_HIDDEN || s == STATUS_READ
  }

  /** A run of status updates, applied one by one. */
  function Fold(s: Status, updates: seq<Status>): Status {
    if updates == [] then s else Raised(Fold(s, updates[..|updates| - 1]), updates[|updates| - 1])
  }

  function FirstTerminal(updates: seq<Status>): Option<Status> {
    if updates == [] then None
    else if Terminal(updates[0]) then Some(updates[0])
    else FirstTerminal(updates[1..])
  }

  function Max(s: Status, updates: seq<Status>): Status
    decreases |updates|
  {
    if updates == [] then s else Max(if s < updates[0] then updates[0] else s, updates[1..])
  }

  lemma {:induction false} FoldFromFront(s: Status, updates: seq<Status>)
    requires updates != []
    ensures Fold(s, updates) == Fold(Raised(s, updates[0]), updates[1..])
  {
    var n := |updates| - 1;
    if n > 0 {
      FoldFromFront(s, updates[..n]);
      assert updates[..n][1..] == updates[1..][..n - 1];
    }
  }

  /** The final status is the first Hidden or Read there is, and the largest update if there is none. */
  lemma {:induction false} FinalStatus(s: Status, updates: seq<Status>)
    ensures Fold(s, updates) ==
            if Terminal(s) then s
            else match FirstTerminal(updates)
              case Some(t) => t
              case None => Max(s, updates)
    decreases |updates|
  {
    if updates != [] {
      FoldFromFront(s, updates);
      FinalStatus(Raised(s, updates[0]), updates[1..]);
    }
  }

  lemma {:induction false} NeverDecreases(s: Status, earlier: seq<Status>, later: seq<Status>)
    ensures s <= Fold(s, earlier) <= Fold(s, earlier + later)
  {
    if later != [] {
      var n := |later| - 1;
      NeverDecreases(s, earlier, later[..n]);
      assert (earlier + later)[..|earlier + later| - 1] == earlier + later[..n];
    } else if earlier != [] {
      NeverDecreases(s, earlier[..|earlier| - 1], []);
      assert earlier[..|earlier| - 1] + [] == earlier[..|earlier| - 1];
      assert earlier + [] == earlier;
    } else {
      assert earlier + later == [];
    }
  }

  /** The statuses a run of store operations sends to one message. */
  function UpdatesFor(id: string, ops: seq<Op>): seq<Status> {
    if ops == [] then []
    else
      var op := ops[|ops| - 1];
      UpdatesFor(id, ops[..|ops| - 1]) + if op.SetStatus? && op.id == id then [op.s] else []
  }

  lemma StatusStep(v: map<string, Message>, op: Op, id: string)
    requires id in v && id in MapStep(v, op)
    ensures MapStep(v, op)[id].status ==
            if op.SetStatus? && op.id == id then Raised(v[id].status, op.s) else v[id].status
  {
  }

  /** The message is there before the run and after each of its operations. */
  predicate Stays(v: map<string, Message>, ops: seq<Op>, id: string) {
    forall i :: 0 <= i <= |ops| ==> id in MapRun(v, ops[..i])
  }

  lemma StaysBefore(v: map<string, Message>, ops: seq<Op>, id: string)
    requires Stays(v, ops, id)
    ensures id in v && id in MapRun(v, ops)
    ensures ops != [] ==> Stays(v, ops[..|ops| - 1], id)
  {
    assert ops[..|ops|] == ops && ops[..0] == [];
    assert id in MapRun(v, ops[..0]);
    if ops != [] {
      var front := ops[..|ops| - 1];
      forall i | 0 <= i <= |front| ensures id in MapRun(v, front[..i]) {
        assert front[..i] == ops[..i];
      }
    }
    hide MapStep;
  }

  /**
   * In the store: as long as a message stays, its status is the fold of the updates addressed to it; no other
   * operation of the run touches it.
   */
  lemma {:induction false} RunStatus(v: map<string, Message>, ops: seq<Op>, id: string)
    requires Stays(v, ops, id)
    ensures id in MapRun(v, ops) && id in v
    ensures MapRun(v, ops)[id].status == Fold(v[id].status, UpdatesFor(id, ops))
  {
    StaysBefore(v, ops, id);
    if ops != [] {
      var front, last := ops[..|ops| - 1], ops[|ops| - 1];
      RunStatus(v, front, id);
      StatusStep(MapRun(v, front), last, id);
      hide MapStep;
      var us := UpdatesFor(id, front);
      if last.SetStatus? && last.id == id {
        assert (us + [last.s])[..|us|] == us;
      } else {
        assert us + [] == us;
      }
    }
  }

  // ---------- READ receipts ----------

  /** The messages a READ for ref raises: a chunk stands for its whole file, an unknown ref for a media id. */
  predicate ReadSelects(ms: seq<Message>, ref: string, m: Message) {
    if ref != "" && HasId(ms, ref) then
      var named := ms[IndexOf(ms, ref)];
      if IsChunkedMediaType(named.mediaType) && named.chunkTotal > 0 then m.mediaID == named.mediaID else m.id == ref
    else m.mediaID == ref
  }

  function InFile(mediaID: string): Message -> bool {
    (m: Message) => m.mediaID == mediaID
  }

  function Selection(ms: seq<Message>, ref: string): Message -> bool {
    (m: Message) => ReadSelects(ms, ref, m)
  }

  /** The slice with the messages sel picks raised by s. */
  function RaisedWhere(ms: seq<Message>, sel: Message -> bool, s: Status): (r: seq<Message>)
    ensures |r| == |ms|
    ensures forall i :: 0 <= i < |ms| ==> r[i] == if sel(ms[i]) then WithStatus(ms[i], s) else ms[i]
  {
    if ms == [] then []
    else
      var m := ms[|ms| - 1];
      RaisedWhere(ms[..|ms| - 1], sel, s) + [if sel(m) then WithStatus(m, s) else m]
  }

  function ReadApplied(ms: seq<Message>, ref: string, s: Status): seq<Message> {
    RaisedWhere(ms, Selection(ms, ref), s)
  }

  lemma RaiseOne(ms: seq<Message>, i: nat, s: Status)
    requires Distinct(ms) && i < |ms|
    ensures Step(ms, Op.SetStatus(ms[i].id, s)) == ms[i := WithStatus(ms[i], s)]
  {
    assert IndexOf(ms, ms[i].id) == i;
  }

  method RaiseAt(mem: Memory, i: nat, s: Status)
    requires mem.Valid() && i < |mem.messages|
    modifies mem`messages
    ensures mem.Valid()
    ensures mem.messages == old(mem.messages)[i := WithStatus(old(mem.messages)[i], s)]
  {
    IndexedDistinct(mem.messages, mem.byID);
    RaiseOne(mem.messages, i, s);
    hide Step;
    var _ := mem.SetStatus(mem.messages[i].id, s);
  }

  method SetStatusOfMedia(mem: Memory, mediaID: string, s: Status) returns (found: bool)
    requires mem.Valid()
    modifies mem`messages
    ensures mem.Valid()
    ensures mem.messages == RaisedWhere(old(mem.messages), InFile(mediaID), s)
    ensures !found ==> mem.messages == old(mem.messages)
  {
    var all := mem.messages;
    ghost var sel := InFile(mediaID);
    hide Step, RaisedWhere;
    found := false;
    for i := 0 to |all|
      invariant mem.Valid()
      invariant mem.messages == RaisedWhere(all[..i], sel, s) + all[i..]
      invariant !found ==> mem.messages == all
    {
      RaisedStep(all, i, sel, s);
      if all[i].mediaID == mediaID {
        assert mem.messages[i] == all[i];
        RaiseAt(mem, i, s);
        found := true;
      }
    }
    assert all[..|all|] == all && all[|all|..] == [];
  }

  lemma RaisedStep(all: seq<Message>, i: nat, sel: Message -> bool, s: Status)
    requires i < |all|
    ensures var before, m := RaisedWhere(all[..i], sel, s) + all[i..], all[i];
            RaisedWhere(all[..i + 1], sel, s) + all[i + 1..] == if sel(m) then before[i := WithStatus(m, s)] else before
  {
    assert all[..i + 1][..i] == all[..i];
    assert all[i..] == [all[i]] + all[i + 1..];
  }

  /** A READ that names one stored message, by id and not as a chunk, raises that message alone. */
  lemma ReadOfOne(ms: seq<Message>, ref: string, s: Status)
    requires Distinct(ms) && HasId(ms, ref)
    requires forall m :: m in ms ==> ReadSelects(ms, ref, m) == (m.id == ref)
    ensures ReadApplied(ms, ref, s) == Step(ms, Op.SetStatus(ref, s))
  {
    RaiseOne(ms, IndexOf(ms, ref), s);
    var r := ReadApplied(ms, ref, s);
    assert forall i :: 0 <= i < |ms| ==> r[i] == if ms[i].id == ref then WithStatus(ms[i], s) else ms[i];
  }

  lemma SameSelection(ms: seq<Message>, a: Message -> bool, b: Message -> bool, s: Status)
    requires forall m :: m in ms ==> a(m) == b(m)
    ensures RaisedWhere(ms, a, s) == RaisedWhere(ms, b, s)
  {
  }

  /** A message that is to expire a while after it is read gets its expiry from the READ that names it. */
  predicate StartsExpiry(ms: seq<Message>, ref: string) {
    ref != "" && HasId(ms, ref) &&
    var m := ms[IndexOf(ms, ref)];
    m.ttlMode == "after_read" && m.expiresAt.Zero? && m.ttlPeriodSeconds > 0
  }

  /** The period in nanoseconds, a 64-bit product. */
  function Period(seconds: int): int {
    Wrap64(seconds * 1_000_000_000)
  }

  function ExpiryApplied(ms: seq<Message>, ref: string, now: int): seq<Message> {
    if StartsExpiry(ms, ref)
    then Step(ms, Op.SetExpiresAt(ref, At(now + Period(ms[IndexOf(ms, ref)].ttlPeriodSeconds))))
    else ms
  }

  /** The file a ref names: that of the chunk with this id, or, if no message has the id, the file itself. */
  predicate NamesFile(ms: seq<Message>, ref: string, mediaID: string) {
    if ref != "" && HasId(ms, ref) then
      var named := ms[IndexOf(ms, ref)];
      IsChunkedMediaType(named.mediaType) && named.chunkTotal > 0 && mediaID == named.mediaID
    else mediaID == ref
  }

  /** The ref names the message itself or its file. */
  predicate Reaches(ms: seq<Message>, ref: string, m: Message) {
    (ref != "" && m.id == ref) || NamesFile(ms, ref, m.mediaID)
  }

  lemma ReadReaches(ms: seq<Message>, ref: string, i: nat)
    requires Distinct(ms) && i < |ms|
    ensures ReadSelects(ms, ref, ms[i]) <==> Reaches(ms, ref, ms[i])
  {
    assert HasId(ms, ms[i].id) && IndexOf(ms, ms[i].id) == i;
  }

  /** What a READ does to each message, by whether its ref reaches it. */
  lemma ReadOutcome(ms: seq<Message>, ref: string, s: Status, now: int)
    requires Distinct(ms) && Terminal(s)
    ensures var after := ExpiryApplied(ReadApplied(ms, ref, s), ref, now);
            && |after| == |ms|
            && (forall i :: 0 <= i < |ms| && Reaches(ms, ref, ms[i]) ==>
                  && Terminal(after[i].status)
                  && after[i] == ms[i].(status := Raised(ms[i].status, s), expiresAt := after[i].expiresAt))
            && (forall i :: 0 <= i < |ms| && !Reaches(ms, ref, ms[i]) ==> after[i] == ms[i])
            && (forall i :: 0 <= i < |ms| ==>
                  if ref != "" && ms[i].id == ref then ReadExpiry(ms[i], after[i], now)
                  else after[i].expiresAt == ms[i].expiresAt)
  {
    var raised := ReadApplied(ms, ref, s);
    var after := ExpiryApplied(raised, ref, now);
    RaisedOutcome(ms, ref, s);
    hide ReadApplied;
    ExpiryOfOne(raised, ref, now);
    assert forall i :: 0 <= i < |ms| && ref != "" && ms[i].id == ref ==> Reaches(ms, ref, ms[i]);
    hide Reaches, ExpiryApplied, ReadExpiry, StartsExpiry;
    forall i | 0 <= i < |ms|
      ensures if ref != "" && ms[i].id == ref then ReadExpiry(ms[i], after[i], now)
              else after[i].expiresAt == ms[i].expiresAt
    {
      ExpiryStarts(raised, ref, now, i);
      SameExpiry(ms[i], raised[i], after[i], now);
    }
  }

  lemma RaisedOutcome(ms: seq<Message>, ref: string, s: Status)
    requires Distinct(ms)
    ensures var raised := ReadApplied(ms, ref, s);
            && |raised| == |ms| && Distinct(raised)
            && forall i :: 0 <= i < |ms| ==>
                 raised[i] == if Reaches(ms, ref, ms[i]) then WithStatus(ms[i], s) else ms[i]
  {
    forall i | 0 <= i < |ms|
      ensures ReadApplied(ms, ref, s)[i] == if Reaches(ms, ref, ms[i]) then WithStatus(ms[i], s) else ms[i]
    {
      ReadReaches(ms, ref, i);
    }
    hide ReadApplied, Reaches;
  }

  lemma SameExpiry(m: Message, raised: Message, after: Message, now: int)
    requires raised == m.(status := raised.status)
    ensures ReadExpiry(m, after, now) <==> ReadExpiry(raised, after, now)
  {
  }

  /** The expiry a message has after a READ at now that names it: one that is to run from reading starts, once. */
  predicate ReadExpiry(before: Message, after: Message, now: int) {
    if before.ttlMode == "after_read" && before.expiresAt.Zero? && before.ttlPeriodSeconds > 0
    then before.ttlPeriodSeconds <= 9_000_000_000 ==>
      after.expiresAt == At(now + before.ttlPeriodSeconds * 1_000_000_000)
    else after.expiresAt == before.expiresAt
  }

  lemma ExpiryStarts(ms: seq<Message>, ref: string, now: int, i: nat)
    requires Distinct(ms) && i < |ms|
    ensures var after := ExpiryApplied(ms, ref, now);
            && |after| == |ms|
            && if ref != "" && ms[i].id == ref then ReadExpiry(ms[i], after[i], now) else after[i] == ms[i]
  {
    assert IndexOf(ms, ms[i].id) == i;
  }

  /** The expiry is that of the message with the ref's id, and of no other. */
  lemma ExpiryOfOne(ms: seq<Message>, ref: string, now: int)
    ensures var after := ExpiryApplied(ms, ref, now);
            && |after| == |ms|
            && (forall i :: 0 <= i < |ms| ==>
                  after[i] == if ref != "" && ms[i].id == ref then ms[i].(expiresAt := after[i].expiresAt) else ms[i])
  {
  }

  /** One ref of a READ receipt: the statuses it raises, then the expiry it may start. */
  method HandleRead(mem: Memory, ref: string, myReadEnabled: bool, now: int)
    requires mem.Valid()
    modifies mem`messages
    ensures mem.Valid()
    ensures var s := if myReadEnabled then STATUS_READ else STATUS_HIDDEN;
            mem.messages == ExpiryApplied(ReadApplied(old(mem.messages), ref, s), ref, now)
    ensures var ms, after := old(mem.messages), mem.messages;
            && |after| == |ms|
            && (forall i :: 0 <= i < |ms| && Reaches(ms, ref, ms[i]) ==>
                  Terminal(after[i].status) && ms[i].status <= after[i].status)
            && (forall i :: 0 <= i < |ms| && !Reaches(ms, ref, ms[i]) ==> after[i] == ms[i])
            && (forall i :: 0 <= i < |ms| ==>
                  if ref != "" && ms[i].id == ref then ReadExpiry(ms[i], after[i], now)
                  else after[i].expiresAt == ms[i].expiresAt)
  {
    var s := if myReadEnabled then STATUS_READ else STATUS_HIDDEN;
    IndexedDistinct(mem.messages, mem.byID);
    ReadOutcome(mem.messages, ref, s, now);
    hide ReadApplied, ExpiryApplied, Reaches;
    RaiseStatuses(mem, ref, s);
    StartExpiry(mem, ref, now);
  }

  method StartExpiry(mem: Memory, ref: string, now: int)
    requires mem.Valid()
    modifies mem`messages
    ensures mem.Valid()
    ensures mem.messages == ExpiryApplied(old(mem.messages), ref, now)
  {
    IndexedDistinct(mem.messages, mem.byID);
    hide Step;
    if ref != "" && ref in mem.byID {
      var msg := mem.messages[mem.byID[ref]];
      if msg.ttlMode == "after_read" && msg.expiresAt.Zero? && msg.ttlPeriodSeconds > 0 {
        var _ := mem.SetExpiresAt(ref, At(now + Period(msg.ttlPeriodSeconds)));
      }
    }
  }

  method RaiseStatuses(mem: Memory, ref: string, s: Status)
    requires mem.Valid()
    modifies mem`messages
    ensures mem.Valid()
    ensures mem.messages == ReadApplied(old(mem.messages), ref, s)
  {
    hide Step, RaisedWhere;
    IndexedDistinct(mem.messages, mem.byID);
    ghost var ms := mem.messages;
    ghost var sel := Selection(ms, ref);
    if ref != "" && ref in mem.byID {
      var msg := mem.messages[mem.byID[ref]];
      if IsChunkedMediaType(msg.mediaType) && msg.chunkTotal > 0 {
        var _ := SetStatusOfMedia(mem, msg.mediaID, s);
        SameSelection(ms, sel, InFile(msg.mediaID), s);
      } else {
        ReadOfOne(ms, ref, s);
        var _ := mem.SetStatus(ref, s);
      }
    } else {
      var found := SetStatusOfMedia(mem, ref, s);
      SameSelection(ms, sel, InFile(ref), s);
      if !found && ref != "" {
        AbsentStep(ms, ref, s);
        var _ := mem.SetStatus(ref, s);
      }
    }
  }

  lemma AbsentStep(ms: seq<Message>, id: string, s: Status)
    requires !HasId(ms, id)
    ensures Step(ms, Op.SetStatus(id, s)) == ms
  {
  }

  /** After a READ for a chunk, or for a file's media id, every stored chunk of the file is Hidden or Read. */
  lemma ReadCoversFile(ms: seq<Message>, ref: string, mediaID: string, s: Status, i: nat)
    requires Terminal(s) && i < |ms| && ms[i].mediaID == mediaID
    requires || (ref == mediaID && !HasId(ms, ref))
             || (ref != "" && HasId(ms, ref)
                 && HasKey(ms[IndexOf(ms, ref)], mediaID, ms[IndexOf(ms, ref)].chunkIndex))
    ensures Terminal(ReadApplied(ms, ref, s)[i].status)
    ensures ReadApplied(ms, ref, s)[i] == ms[i].(status := ReadApplied(ms, ref, s)[i].status)
  {
  }

  /** Other handlers may run between the updates: a message that stays ends Hidden or Read all the same. */
  lemma {:induction false} TerminalSticks(s: Status, updates: seq<Status>, k: nat)
    requires k < |updates| && Terminal(updates[k])
    ensures Terminal(Fold(s, updates))
  {
    if k < |updates| - 1 {
      TerminalSticks(s, updates[..|updates| - 1], k);
    }
  }

  /**
   * A READ takes the lock once per message. Whatever else runs in between, a message that stays in the store until
   * its update has run, and after, is Hidden or Read at the end.
   */
  lemma ReadAmongOthers(v: map<string, Message>, ops: seq<Op>, id: string, s: Status)
    requires Terminal(s) && Op.SetStatus(id, s) in ops
    requires Stays(v, ops, id)
    ensures id in MapRun(v, ops) && Terminal(MapRun(v, ops)[id].status)
  {
    RunStatus(v, ops, id);
    var k := UpdateIsFolded(ops, id, s);
    TerminalSticks(v[id].status, UpdatesFor(id, ops), k);
  }

  lemma {:induction false} UpdateIsFolded(ops: seq<Op>, id: string, s: Status) returns (k: nat)
    requires Op.SetStatus(id, s) in ops
    ensures k < |UpdatesFor(id, ops)| && UpdatesFor(id, ops)[k] == s
  {
    var last, front := ops[|ops| - 1], ops[..|ops| - 1];
    if last == Op.SetStatus(id, s) {
      k := |UpdatesFor(id, front)|;
    } else {
      assert ops == front + [last];
      k := UpdateIsFolded(front, id, s);
    }
  }

  /** The updates a READ sends, from a snapshot of the store: one for each message it selects. */
  function UpdatesUpTo(ms: seq<Message>, sel: Message -> bool, s: Status, n: nat): seq<Op>
    requires n <= |ms|
  {
    if n == 0 then []
    else UpdatesUpTo(ms, sel, s, n - 1) + if sel(ms[n - 1]) then [Op.SetStatus(ms[n - 1].id, s)] else []
  }

  function ReadUpdates(ms: seq<Message>, ref: string, s: Status): seq<Op> {
    UpdatesUpTo(ms, Selection(ms, ref), s, |ms|)
  }

  lemma {:induction false} UpdatesAre(ms: seq<Message>, sel: Message -> bool, s: Status, n: nat, op: Op)
    requires n <= |ms|
    ensures op in UpdatesUpTo(ms, sel, s, n) <==>
              exists i :: 0 <= i < n && sel(ms[i]) && op == Op.SetStatus(ms[i].id, s)
  {
    if n > 0 {
      UpdatesAre(ms, sel, s, n - 1, op);
    }
  }

  lemma RunSnoc(ms: seq<Message>, ops: seq<Op>, op: Op)
    ensures MessageStore.Run(ms, ops + [op]) == Step(MessageStore.Run(ms, ops), op)
  {
    assert (ops + [op])[..|ops|] == ops;
  }

  lemma PartlyRaised(ms: seq<Message>, sel: Message -> bool, s: Status, n: nat)
    requires Distinct(ms) && n <= |ms|
    ensures var r := RaisedWhere(ms[..n], sel, s) + ms[n..];
            |r| == |ms| && Distinct(r) && forall i :: n <= i < |ms| ==> r[i] == ms[i]
  {
    var r := RaisedWhere(ms[..n], sel, s) + ms[n..];
    assert forall i :: 0 <= i < |ms| ==> r[i].id == ms[i].id;
  }

  /** One after the other, with nothing in between, they do what the READ does. */
  lemma {:induction false} UpdatesRun(ms: seq<Message>, sel: Message -> bool, s: Status, n: nat)
    requires Distinct(ms) && n <= |ms|
    ensures MessageStore.Run(ms, UpdatesUpTo(ms, sel, s, n)) == RaisedWhere(ms[..n], sel, s) + ms[n..]
  {
    if n == 0 {
      assert RaisedWhere(ms[..0], sel, s) + ms[0..] == ms;
    } else {
      var front, before := UpdatesUpTo(ms, sel, s, n - 1), RaisedWhere(ms[..n - 1], sel, s) + ms[n - 1..];
      UpdatesRun(ms, sel, s, n - 1);
      RaisedStep(ms, n - 1, sel, s);
      PartlyRaised(ms, sel, s, n - 1);
      hide Step, MessageStore.Run, RaisedWhere, Distinct;
      if sel(ms[n - 1]) {
        RunSnoc(ms, front, Op.SetStatus(ms[n - 1].id, s));
        RaiseOne(before, n - 1, s);
      } else {
        assert front + [] == front;
      }
    }
  }

  lemma ReadUpdatesRun(ms: seq<Message>, ref: string, s: Status)
    requires Distinct(ms)
    ensures MessageStore.Run(ms, ReadUpdates(ms, ref, s)) == ReadApplied(ms, ref, s)
  {
    UpdatesRun(ms, Selection(ms, ref), s, |ms|);
    assert ms[..|ms|] == ms && ms[|ms|..] == [];
  }

  /**
   * Whatever store operations run among the updates of a READ: a message its ref reaches that stays in the store is
   * Hidden or Read at the end; and no update is for a message it does not reach.
   */
  lemma ReadRunReaches(v: map<string, Message>, ms: seq<Message>, ops: seq<Op>, ref: string, s: Status, i: nat)
    requires Terminal(s) && Distinct(ms) && i < |ms|
    requires forall op :: op in ReadUpdates(ms, ref, s) ==> op in ops
    requires Stays(v, ops, ms[i].id)
    ensures ms[i].id in MapRun(v, ops)
    ensures if Reaches(ms, ref, ms[i]) then Terminal(MapRun(v, ops)[ms[i].id].status)
            else forall op :: op in ReadUpdates(ms, ref, s) ==> op != Op.SetStatus(ms[i].id, s)
  {
    var sel := Selection(ms, ref);
    ReadReaches(ms, ref, i);
    UpdatesAre(ms, sel, s, |ms|, Op.SetStatus(ms[i].id, s));
    StaysBefore(v, ops, ms[i].id);
    hide Stays, MapRun;
    if Reaches(ms, ref, ms[i]) {
      ReadAmongOthers(v, ops, ms[i].id, s);
    }
  }

  // ---------- what a READ names ----------

  /** m is the message with that id, or belongs to the file the ref stands for. */
  predicate Named(ms: seq<Message>, ref: string, m: Message) {
    || m.id == ref
    || (m.mediaID != "" && m.mediaID == if HasId(ms, ref) then ms[IndexOf(ms, ref)].mediaID else ref)
  }

  /** The ref is not empty, and if it is a chunk's id, the chunk has a media id. */
  predicate ProperRef(ms: seq<Message>, ref: string) {
    && ref != ""
    && (HasId(ms, ref) ==>
          var named := ms[IndexOf(ms, ref)];
          IsChunkedMediaType(named.mediaType) && named.chunkTotal > 0 ==> named.mediaID != "")
  }

  /** A READ reaches nothing but the message or the file it names exactly when its ref is proper. */
  lemma ReadIsPrecise(ms: seq<Message>, ref: string)
    ensures (forall m :: ReadSelects(ms, ref, m) ==> Named(ms, ref, m)) <==> ProperRef(ms, ref)
  {
    if !ProperRef(ms, ref) {
      var other := Message(ref + "x", "", "", "", "", 0.0, Zero, Zero, "", 0, 0, false, "", "", 0, 0, false, false);
      assert |other.id| != |ref|;
      assert ReadSelects(ms, ref, other) && !Named(ms, ref, other);
    }
  }

  /** The empty ref, which a list of refs may hold, raises every stored message without a media id: all texts. */
  lemma EmptyRefRaisesTexts(ms: seq<Message>, s: Status, i: nat)
    requires i < |ms| && ms[i].mediaID == ""
    ensures ReadApplied(ms, "", s)[i] == WithStatus(ms[i], s)
  {
  }
}
