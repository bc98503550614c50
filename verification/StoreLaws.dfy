/** What becomes of one stored message (node/memory.go): the fields each operation sets, and what a whole run leaves. */
module StoreLaws {
  import opened Common
  import opened MessageStore

  /** An add stores a message that is not yet there and not past its expiry, with a weight and a time if it has none. */
  lemma AddStores(v: map<string, Message>, m: Message, now: int)
    ensures var v' := MapStep(v, Op.Add(m, now));
            if m.id in v || (m.expiresAt.At? && now > m.expiresAt.ns) then v' == v
            else && v'.Keys == v.Keys + {m.id} && (forall id :: id in v && id != m.id ==> v'[id] == v[id])
                 && v'[m.id] == m.(weight := v'[m.id].weight, created := v'[m.id].created)
                 && (if m.weight == 0.0 then v'[m.id].weight == 0.5 else v'[m.id].weight == m.weight)
                 && (if m.created.Zero? then v'[m.id].created == At(now) else v'[m.id].created == m.created)
  {
  }

  /** The message named by the operation. */
  function Target(op: Op): Option<string> {
    match op
    case SetStatus(id, _) => Some(id)
    case SetExpiresAt(id, _) => Some(id)
    case ClearChunkData(id) => Some(id)
    case RestoreFromArchive(id, _) => Some(id)
    case UpdateWeight(id, _) => Some(id)
    case _ => None
  }

  /** What is in a message for good: no operation changes it. */
  predicate SameLetter(a: Message, b: Message) {
    && a.id == b.id && a.sender == b.sender && a.recipient == b.recipient && a.isOwn == b.isOwn
    && a.mediaType == b.mediaType && a.mediaID == b.mediaID && a.chunkIndex == b.chunkIndex
    && a.chunkTotal == b.chunkTotal && a.ttlMode == b.ttlMode && a.ttlPeriodSeconds == b.ttlPeriodSeconds
  }

  /** Field by field, what one operation makes of a message that stays. */
  lemma FieldsAfter(v: map<string, Message>, op: Op, id: string)
    requires id in v && id in MapStep(v, op) && v[id].id == id
    ensures var m, m', mine := v[id], MapStep(v, op)[id], Target(op) == Some(id);
            && SameLetter(m, m')
            && (if mine && op.ClearChunkData? then m'.text == "" && m'.plainText == ""
                else m'.text == m.text && m'.plainText == m.plainText)
            && m'.status == (if mine && op.SetStatus? && m.status != 3 && m.status < op.s then op.s else m.status)
            && m'.expiresAt == (if mine && op.SetExpiresAt? then op.t else m.expiresAt)
            && m'.readLocally == (m.readLocally || (op.MarkReadLocally? && id in op.refs))
  {
    hide AgedWeight, Overdue, Expired, Normalised;
  }

  /** Archiving, restoring and reweighting touch nothing but the archive mark, the weight and the age. */
  lemma WeightAfter(v: map<string, Message>, op: Op, id: string)
    requires id in v && id in MapStep(v, op) && v[id].id == id
    ensures var m, m', mine := v[id], MapStep(v, op)[id], Target(op) == Some(id);
            var restored := mine && op.RestoreFromArchive? && m.archived;
            && m'.archived == (!restored && (m.archived || (op.ArchiveOld? && AgedWeight(m, op.now) < op.threshold)))
            && m'.created == (if restored then At(op.now) else m.created)
            && (if restored then m'.weight == 0.5
                else if mine && op.UpdateWeight? then
                  && (0.0 <= m.weight + op.delta <= 1.0 ==> m'.weight == m.weight + op.delta)
                  && (m.weight + op.delta > 1.0 ==> m'.weight == 1.0)
                  && (m.weight + op.delta < 0.0 ==> m'.weight == 0.0)
                else m'.weight == m.weight)
  {
  }

  /** A weight falls by a hundredth with every hour of age, and starts as it was given. */
  lemma AgesByTheHour(m: Message, hours: nat)
    requires m.created.At? && hours <= 2_000_000
    ensures AgedWeight(m, m.created.ns + hours * 3_600_000_000_000) == m.weight - hours as real / 100.0
  {
    var n := hours * 3_600_000_000_000;
    assert Since(m.created, m.created.ns + n) == n;
    assert n as real == hours as real * 3_600_000_000_000.0;
  }

  // ---------- over runs ----------

  /** The message is there before the run and after each of its operations. */
  predicate Stays(v: map<string, Message>, ops: seq<Op>, id: string)
    decreases |ops|
  {
    id in MapRun(v, ops) && (ops == [] || Stays(v, ops[..|ops| - 1], id))
  }

  /** The last expiry set for the message, if any. */
  function LastExpiry(ops: seq<Op>, id: string): Option<Time> {
    if ops == [] then None
    else if ops[|ops| - 1].SetExpiresAt? && ops[|ops| - 1].id == id then Some(ops[|ops| - 1].t)
    else LastExpiry(ops[..|ops| - 1], id)
  }

  predicate Marked(ops: seq<Op>, id: string) {
    exists op | op in ops :: op.MarkReadLocally? && id in op.refs
  }

  /**
   * What a run leaves of m: what it is never changes; its text is there unless it has been cleared; its expiry is the
   * last one set; and it is marked read here exactly if it was, or some marking named it.
   */
  predicate Leaves(m: Message, m': Message, ops: seq<Op>, id: string) {
    && SameLetter(m, m')
    && (if Op.ClearChunkData(id) in ops then m'.text == "" else m'.text == m.text)
    && m'.expiresAt == (if LastExpiry(ops, id).Some? then LastExpiry(ops, id).value else m.expiresAt)
    && (m'.readLocally <==> m.readLocally || Marked(ops, id))
  }

  lemma LeavesStep(m: Message, v: map<string, Message>, front: seq<Op>, op: Op, id: string)
    requires id in v && v[id].id == id && id in MapStep(v, op) && Leaves(m, v[id], front, id)
    ensures Leaves(m, MapStep(v, op)[id], front + [op], id)
  {
    FieldsAfter(v, op, id);
    assert (front + [op])[..|front|] == front;
    assert Op.ClearChunkData(id) in front + [op] <==> Op.ClearChunkData(id) in front || op == Op.ClearChunkData(id);
    assert Marked(front + [op], id) <==> Marked(front, id) || (op.MarkReadLocally? && id in op.refs);
    hide MapStep, Marked;
  }

  /** For as long as the message stays. */
  lemma {:induction false} RunFields(v: map<string, Message>, ops: seq<Op>, id: string)
    requires Stays(v, ops, id) && (id in v ==> v[id].id == id)
    ensures id in v && id in MapRun(v, ops)
    ensures Leaves(v[id], MapRun(v, ops)[id], ops, id)
    decreases |ops|
  {
    if ops != [] {
      var front, op := ops[..|ops| - 1], ops[|ops| - 1];
      assert Stays(v, front, id) && id in MapStep(MapRun(v, front), op) && ops == front + [op];
      RunFields(v, front, id);
      assert MapRun(v, front)[id].id == id;
      hide MapStep, Stays, Leaves;
      LeavesStep(v[id], MapRun(v, front), front, op, id);
    }
  }
}
