/**
 * Batching texts per recipient (node/node_batch.go). addToBatch lets go of its lock when a buffer overflows, so a call
 * is one section or two, and other calls may run in between; sizes count characters.
 */
module TextBatching {
  import opened Common

  const MAX_TEXTS: nat := 10
  const MAX_SIZE: nat := 60 * 1024
  const NS_PER_SECOND: int := 1_000_000_000

  datatype Text = Text(id: string, text: string)

  /** firstAt is None for the zero time, which every flush finds old enough. */
  datatype Buffer = Buffer(texts: seq<Text>, firstAt: Option<int>)

  type Buffers = map<string, Buffer>

  datatype Batch = Batch(peer: string, texts: seq<Text>)

  function Estimate(texts: seq<Text>): nat {
    if texts == [] then 20 else Estimate(texts[..|texts| - 1]) + SizeOf(texts[|texts| - 1])
  }

  function SizeOf(t: Text): nat {
    |t.id| + |t.text| + 30
  }

  method EstimateBatchJSONSize(texts: seq<Text>) returns (size: nat)
    ensures size == Estimate(texts)
  {
    size := 20;
    for i := 0 to |texts|
      invariant size == Estimate(texts[..i])
    {
      assert texts[..i + 1][..i] == texts[..i];
      size := size + |texts[i].id| + |texts[i].text| + 30;
    }
    assert texts[..|texts|] == texts;
  }

  /** The JSON of one text, and of a batch, when nothing in it needs escaping. */
  function Item(t: Text): string {
    "{\"id\":\"" + t.id + "\",\"text\":\"" + t.text + "\"}"
  }

  function Items(texts: seq<Text>): string {
    if texts == [] then ""
    else if |texts| == 1 then Item(texts[0])
    else Items(texts[..|texts| - 1]) + "," + Item(texts[|texts| - 1])
  }

  function Json(texts: seq<Text>): string {
    "{\"texts\":[" + Items(texts) + "]}"
  }

  /** The estimate is above the length of the JSON by nine, and ten more for each text. */
  lemma {:induction false} EstimateOfJson(texts: seq<Text>)
    requires texts != []
    ensures Estimate(texts) == |Json(texts)| + 9 + 10 * |texts|
  {
    assert texts[..|texts| - 1] + [texts[|texts| - 1]] == texts;
    if |texts| > 1 {
      EstimateOfJson(texts[..|texts| - 1]);
    } else {
      assert Estimate(texts[..0]) == 20;
    }
  }

  function BufferOf(b: Buffers, peer: string): Buffer {
    if peer in b then b[peer] else Buffer([], None)
  }

  predicate Overflows(texts: seq<Text>, t: Text) {
    texts != [] && Estimate(texts) + SizeOf(t) > MAX_SIZE
  }

  /** buffer: what is left of it; taken: the texts sent off; restart: the text is to start the next buffer. */
  datatype Section = Section(buffer: Buffer, taken: seq<Text>, restart: bool)

  /**
   * The first section. A text that would overflow the buffer takes it out, and is itself put aside for the second; the
   * tenth text takes out the ten.
   */
  function FirstSection(buf: Buffer, t: Text, now: int): Section {
    if Overflows(buf.texts, t) then Section(buf.(texts := []), buf.texts, true)
    else
      var firstAt := if buf.firstAt.None? then Some(now) else buf.firstAt;
      if |buf.texts| + 1 >= MAX_TEXTS then Section(Buffer([], firstAt), buf.texts + [t], false)
      else Section(Buffer(buf.texts + [t], firstAt), [], false)
  }

  /** The second section puts a new buffer in the place of whatever is there. */
  function Restarted(t: Text): Buffer {
    Buffer([t], None)
  }

  predicate Ripe(buf: Buffer, now: int) {
    buf.texts != [] && (buf.firstAt.None? || now - buf.firstAt.value >= NS_PER_SECOND)
  }

  /** The batches of a flush: each ripe buffer's texts, once, in some order of the peers. */
  predicate IsFlush(b: Buffers, items: seq<Batch>, now: int) {
    && (forall i :: 0 <= i < |items| ==>
          items[i].peer in b && Ripe(b[items[i].peer], now) && items[i].texts == b[items[i].peer].texts)
    && (forall i, j :: 0 <= i < j < |items| ==> items[i].peer != items[j].peer)
    && (forall p :: p in b && Ripe(b[p], now) ==> Batch(p, b[p].texts) in items)
  }

  function Flushed(b: Buffers, now: int): Buffers {
    map p | p in b :: if Ripe(b[p], now) then Buffer([], None) else b[p]
  }

  class Batcher {
    var buffers: Buffers

    constructor ()
      ensures buffers == map[]
    {
      buffers := map[];
    }

    /**
     * Returns the texts that are sent off, if any, and whether the second section is still to run. Without a peer or an
     * id the text is dropped.
     */
    method AddToBatch(peer: string, id: string, text: string, now: int) returns (taken: seq<Text>, restart: bool)
      modifies this
      ensures peer == "" || id == "" ==> taken == [] && !restart && buffers == old(buffers)
      ensures peer != "" && id != "" ==>
        var r := FirstSection(BufferOf(old(buffers), peer), Text(id, text), now);
        taken == r.taken && restart == r.restart && buffers == old(buffers)[peer := r.buffer]
    {
      if peer == "" || id == "" {
        return [], false;
      }
      var buf := if peer in buffers then buffers[peer] else Buffer([], None);
      if |buf.texts| > 0 {
        var size := EstimateBatchJSONSize(buf.texts);
        if size + |id| + |text| + 30 > MAX_SIZE {
          buffers := buffers[peer := buf.(texts := [])];
          return buf.texts, true;
        }
      }
      if buf.firstAt.None? {
        buf := buf.(firstAt := Some(now));
      }
      buf := buf.(texts := buf.texts + [Text(id, text)]);
      taken, restart := [], false;
      if |buf.texts| >= 10 {
        taken := buf.texts;
        buf := buf.(texts := []);
      }
      buffers := buffers[peer := buf];
    }

    method Restart(peer: string, id: string, text: string)
      modifies this
      ensures buffers == old(buffers)[peer := Restarted(Text(id, text))]
    {
      buffers := buffers[peer := Buffer([Text(id, text)], None)];
    }

    /** Takes every ripe buffer, walking the map in any order. */
    method FlushAllBatches(now: int) returns (items: seq<Batch>)
      modifies this
      ensures IsFlush(old(buffers), items, now)
      ensures buffers == Flushed(old(buffers), now)
      // A buffer is left alone exactly while its first text is younger than a second; any other is taken and reset.
      ensures buffers.Keys == old(buffers).Keys
      ensures forall p :: p in buffers ==>
                var was := old(buffers)[p];
                if was.texts == [] || (was.firstAt.Some? && now - was.firstAt.value < 1_000_000_000)
                then buffers[p] == was && forall b :: b in items ==> b.peer != p
                else buffers[p] == Buffer([], None) && Batch(p, was.texts) in items
    {
      var todo := buffers.Keys;
      items := [];
      while todo != {}
        invariant todo <= old(buffers).Keys
        invariant Walked(old(buffers), buffers, items, todo, now)
        decreases |todo|
      {
        var p :| p in todo;
        var buf := buffers[p];
        WalkOne(old(buffers), buffers, items, todo, now, p);
        if Ripe(buf, now) {
          items := items + [Batch(p, buf.texts)];
          buffers := buffers[p := Buffer([], None)];
        }
        todo := todo - {p};
      }
      assert buffers == Flushed(old(buffers), now);
    }
  }

  /** A flush that has still to look at the peers in todo. */
  ghost predicate Walked(b: Buffers, b': Buffers, items: seq<Batch>, todo: set<string>, now: int) {
    && b'.Keys == b.Keys
    && (forall p :: p in b' ==> b'[p] == if p !in todo && Ripe(b[p], now) then Buffer([], None) else b[p])
    && (forall i :: 0 <= i < |items| ==>
          items[i].peer in b && items[i].peer !in todo && Ripe(b[items[i].peer], now)
          && items[i].texts == b[items[i].peer].texts)
    && (forall i, j :: 0 <= i < j < |items| ==> items[i].peer != items[j].peer)
    && (forall p :: p in b && p !in todo && Ripe(b[p], now) ==> Batch(p, b[p].texts) in items)
  }

  lemma WalkOne(b: Buffers, b': Buffers, items: seq<Batch>, todo: set<string>, now: int, p: string)
    requires Walked(b, b', items, todo, now) && p in todo && p in b
    ensures b'[p] == b[p]
    ensures if Ripe(b[p], now)
            then Walked(b, b'[p := Buffer([], None)], items + [Batch(p, b[p].texts)], todo - {p}, now)
            else Walked(b, b', items, todo - {p}, now)
  {
    hide Ripe;
    if Ripe(b[p], now) {
      var more := items + [Batch(p, b[p].texts)];
      assert more[|items|] == Batch(p, b[p].texts);
      assert forall i :: 0 <= i < |items| ==> more[i] == items[i];
    }
  }

  // ---------- runs ----------

  /** A call, made at a time, that has yet to run its second section. */
  datatype Task = Task(peer: string, t: Text, at: int)

  datatype Event =
    | Add(peer: string, id: string, text: string, now: int)
    | Restart(task: Task)
    | Flush(items: seq<Batch>, now: int)

  /** A text added to a buffer, the time of its call, and whether a second section put it there. */
  datatype Stamped = Stamped(text: Text, at: int, restarts: bool)

  /**
   * added: the texts put into buffers, in order, with their peers; sent: the batches taken, in order; lost: the texts a
   * second section has overwritten. The code keeps none of them, nor the clock.
   */
  datatype State = State(
    buffers: Buffers,
    tasks: multiset<Task>,
    clock: int,
    added: seq<(string, Stamped)>,
    sent: seq<Batch>,
    lost: seq<(string, Text)>)

  /** A node that starts at a time. */
  function Empty(now: int): State {
    State(map[], multiset{}, now, [], [], [])
  }

  function Lost(lost: seq<(string, Text)>, peer: string, texts: seq<Text>): seq<(string, Text)> {
    if texts == [] then lost else Lost(lost, peer, texts[..|texts| - 1]) + [(peer, texts[|texts| - 1])]
  }

  /** Time does not go back; a call without a peer or an id does nothing. */
  predicate Enabled(s: State, e: Event) {
    match e
    case Add(peer, id, text, now) => peer != "" && id != "" && now >= s.clock
    case Restart(task) => task in s.tasks
    case Flush(items, now) => IsFlush(s.buffers, items, now) && now >= s.clock
  }

  function Next(s: State, e: Event): State {
    if !Enabled(s, e) then s
    else match e
      case Add(peer, id, text, now) =>
        var t := Text(id, text);
        var r := FirstSection(BufferOf(s.buffers, peer), t, now);
        State(s.buffers[peer := r.buffer],
              if r.restart then s.tasks + multiset{Task(peer, t, now)} else s.tasks,
              now,
              if r.restart then s.added else s.added + [(peer, Stamped(t, now, false))],
              if r.taken == [] then s.sent else s.sent + [Batch(peer, r.taken)],
              s.lost)
      case Restart(task) =>
        State(s.buffers[task.peer := Restarted(task.t)],
              s.tasks - multiset{task},
              s.clock,
              s.added + [(task.peer, Stamped(task.t, task.at, true))],
              s.sent,
              Lost(s.lost, task.peer, BufferOf(s.buffers, task.peer).texts))
      case Flush(items, now) => s.(buffers := Flushed(s.buffers, now), clock := now, sent := s.sent + items)
  }

  function Run(s: State, events: seq<Event>): State
    decreases |events|
  {
    if events == [] then s else Next(Run(s, events[..|events| - 1]), events[|events| - 1])
  }

  function For<T>(items: seq<(string, T)>, peer: string): seq<T> {
    if items == [] then []
    else
      var front := For(items[..|items| - 1], peer);
      if items[|items| - 1].0 == peer then front + [items[|items| - 1].1] else front
  }

  function TextsOf(stamped: seq<Stamped>): (r: seq<Text>)
    ensures |r| == |stamped|
    ensures forall i :: 0 <= i < |r| ==> r[i] == stamped[i].text
  {
    seq(|stamped|, i requires 0 <= i < |stamped| => stamped[i].text)
  }

  /** The texts added for the peer. */
  function AddedFor(s: State, p: string): seq<Text> {
    TextsOf(For(s.added, p))
  }

  function SentTo(sent: seq<Batch>, peer: string): seq<Text> {
    if sent == [] then []
    else
      var front := SentTo(sent[..|sent| - 1], peer);
      if sent[|sent| - 1].peer == peer then front + sent[|sent| - 1].texts else front
  }

  /** One to ten texts, and a single one or no more than the size limit. */
  predicate GoodBatch(texts: seq<Text>) {
    1 <= |texts| <= MAX_TEXTS && (|texts| == 1 || Estimate(texts) <= MAX_SIZE)
  }

  /** A buffer always has room for one more text. */
  predicate GoodBuffer(texts: seq<Text>) {
    |texts| < MAX_TEXTS && (|texts| > 1 ==> Estimate(texts) <= MAX_SIZE)
  }

  /** The peer's batches followed by its buffer are the texts added for it, in order. */
  predicate InOrder(s: State, p: string) {
    SentTo(s.sent, p) + BufferOf(s.buffers, p).texts == AddedFor(s, p)
  }

  /** Sent, buffered and lost texts are those added, each as often; and if none is lost they are in order. */
  predicate Accounts(sent: seq<Text>, buffered: seq<Text>, lost: seq<Text>, added: seq<Text>) {
    && multiset(sent) + multiset(buffered) + multiset(lost) == multiset(added)
    && (lost == [] ==> sent + buffered == added)
  }

  predicate Balanced(s: State, p: string) {
    Accounts(SentTo(s.sent, p), BufferOf(s.buffers, p).texts, For(s.lost, p), AddedFor(s, p))
  }

  ghost predicate AllGood(buffers: Buffers, sent: seq<Batch>) {
    && (forall p :: GoodBuffer(BufferOf(buffers, p).texts))
    && (forall i :: 0 <= i < |sent| ==> GoodBatch(sent[i].texts))
  }

  ghost predicate Sound(s: State) {
    && (forall p :: Balanced(s, p))
    && AllGood(s.buffers, s.sent)
  }

  lemma EstimateSnoc(texts: seq<Text>, t: Text)
    ensures Estimate(texts + [t]) == Estimate(texts) + SizeOf(t)
  {
    assert (texts + [t])[..|texts|] == texts;
  }

  /** Texts are sent off only ten at a time, or because another would take the estimate beyond 60 KiB. */
  lemma TakenIsFull(buf: Buffer, t: Text, now: int)
    requires GoodBuffer(buf.texts)
    ensures var r := FirstSection(buf, t, now);
            var fits := buf.texts == [] || Estimate(buf.texts + [t]) <= 61_440;
            if fits && |buf.texts| < 9 then r.taken == [] && r.buffer.texts == buf.texts + [t] && !r.restart
            else if fits then r.taken == buf.texts + [t] && |r.taken| == 10 && r.buffer.texts == [] && !r.restart
            else r.taken == buf.texts && r.buffer.texts == [] && r.restart
  {
    EstimateSnoc(buf.texts, t);
    hide Estimate, SizeOf;
  }

  lemma FirstSectionKeeps(buf: Buffer, t: Text, now: int)
    requires GoodBuffer(buf.texts)
    ensures var r := FirstSection(buf, t, now);
            && r.taken + r.buffer.texts == (if r.restart then buf.texts else buf.texts + [t])
            && GoodBuffer(r.buffer.texts)
            && (r.taken != [] ==> GoodBatch(r.taken))
  {
    EstimateSnoc(buf.texts, t);
    hide Estimate, SizeOf;
  }

  lemma {:induction false} SentToConcat(sent: seq<Batch>, items: seq<Batch>, peer: string)
    ensures SentTo(sent + items, peer) == SentTo(sent, peer) + SentTo(items, peer)
  {
    if items == [] {
      assert sent + items == sent;
    } else {
      var n := |items| - 1;
      assert (sent + items)[..|sent| + n] == sent + items[..n];
      SentToConcat(sent, items[..n], peer);
      assert SentTo(sent, peer) + (SentTo(items[..n], peer) + items[n].texts)
          == SentTo(sent, peer) + SentTo(items[..n], peer) + items[n].texts;
    }
  }

  /** Among batches for different peers, a peer's texts are those of its one batch, or none. */
  lemma SentOnce(items: seq<Batch>, peer: string, texts: seq<Text>)
    requires forall i, j :: 0 <= i < j < |items| ==> items[i].peer != items[j].peer
    requires forall i :: 0 <= i < |items| && items[i].peer == peer ==> items[i].texts == texts
    ensures SentTo(items, peer) == if Batch(peer, texts) in items then texts else []
  {
    if items != [] {
      var n := |items| - 1;
      SentOnce(items[..n], peer, texts);
      assert items == items[..n] + [items[n]];
      if items[n].peer == peer {
        assert Batch(peer, texts) !in items[..n];
      }
    }
  }

  lemma ForSnoc<T>(items: seq<(string, T)>, peer: string, t: T, p: string)
    ensures For(items + [(peer, t)], p) == if p == peer then For(items, p) + [t] else For(items, p)
  {
    assert (items + [(peer, t)])[..|items|] == items;
  }

  lemma AddedSnoc(added: seq<(string, Stamped)>, peer: string, t: Stamped, p: string)
    ensures TextsOf(For(added + [(peer, t)], p)) ==
            if p == peer then TextsOf(For(added, p)) + [t.text] else TextsOf(For(added, p))
  {
    ForSnoc(added, peer, t, p);
  }

  lemma SnocAgain(front: seq<Text>, texts: seq<Text>, n: nat)
    requires n + 1 == |texts|
    ensures front + texts[..n] + [texts[n]] == front + texts
  {
  }

  lemma {:induction false} ForLost(lost: seq<(string, Text)>, peer: string, texts: seq<Text>, p: string)
    ensures For(Lost(lost, peer, texts), p) == if p == peer then For(lost, p) + texts else For(lost, p)
  {
    if texts != [] {
      var n := |texts| - 1;
      ForLost(lost, peer, texts[..n], p);
      ForSnoc(Lost(lost, peer, texts[..n]), peer, texts[n], p);
      assert Lost(lost, peer, texts) == Lost(lost, peer, texts[..n]) + [(peer, texts[n])];
      SnocAgain(For(lost, p), texts, n);
      hide For, Lost;
    }
  }

  lemma {:induction false} LostGrows(lost: seq<(string, Text)>, peer: string, texts: seq<Text>)
    ensures |Lost(lost, peer, texts)| == |lost| + |texts|
  {
    if texts != [] {
      LostGrows(lost, peer, texts[..|texts| - 1]);
    }
  }

  lemma SentSnoc(sent: seq<Batch>, peer: string, taken: seq<Text>, p: string)
    ensures SentTo(if taken == [] then sent else sent + [Batch(peer, taken)], p)
            == if p == peer then SentTo(sent, p) + taken else SentTo(sent, p)
  {
    assert (sent + [Batch(peer, taken)])[..|sent|] == sent;
  }

  lemma Regroup(a: multiset<Text>, b: multiset<Text>, c: multiset<Text>, d: multiset<Text>, taken: multiset<Text>,
                left: multiset<Text>, more: multiset<Text>)
    requires a + b + c == d && taken + left == b + more
    ensures a + taken + left + c == d + more
  {
    forall x ensures (a + taken + left + c)[x] == (d + more)[x] {
      assert (a + b + c)[x] == d[x] && (taken + left)[x] == (b + more)[x];
    }
  }

  lemma Cancels(a: multiset<Text>, b: multiset<Text>, c: multiset<Text>, early: multiset<Text>)
    requires a + b + c == early + b
    ensures early == a + c
  {
    forall x ensures early[x] == (a + c)[x] {
      assert (a + b + c)[x] == (early + b)[x];
    }
  }

  /** What is taken out of a buffer and left in it continues what was sent before. */
  lemma TakenAccounts(sent: seq<Text>, buffered: seq<Text>, lost: seq<Text>, added: seq<Text>, more: seq<Text>,
                      taken: seq<Text>, left: seq<Text>)
    requires Accounts(sent, buffered, lost, added) && taken + left == buffered + more
    ensures Accounts(sent + taken, left, lost, added + more)
  {
    assert multiset(taken) + multiset(left) == multiset(buffered) + multiset(more) by {
      assert multiset(taken + left) == multiset(buffered + more);
    }
    assert multiset(sent + taken) == multiset(sent) + multiset(taken);
    assert multiset(added + more) == multiset(added) + multiset(more);
    Regroup(multiset(sent), multiset(buffered), multiset(lost), multiset(added), multiset(taken), multiset(left),
            multiset(more));
    assert sent + taken + left == sent + (taken + left);
    assert sent + buffered + more == sent + (buffered + more);
  }

  lemma OverwrittenAccounts(sent: seq<Text>, buffered: seq<Text>, lost: seq<Text>, added: seq<Text>, t: Text)
    requires Accounts(sent, buffered, lost, added)
    ensures Accounts(sent, [t], lost + buffered, added + [t])
  {
    if lost + buffered == [] {
      assert lost == [] && buffered == [];
      assert sent + [] == sent;
    }
  }

  lemma AccountsInOrder(sent: seq<Text>, buffered: seq<Text>, lost: seq<Text>, added: seq<Text>)
    requires Accounts(sent, buffered, lost, added)
    ensures sent + buffered == added <==> lost == []
  {
    assert |multiset(sent)| + |multiset(buffered)| + |multiset(lost)| == |multiset(added)|;
  }

  lemma AddEffect(s: State, e: Event, p: string)
    requires e.Add? && Enabled(s, e)
    ensures var t, s' := Text(e.id, e.text), Next(s, e);
            var r := FirstSection(BufferOf(s.buffers, e.peer), t, e.now);
            && BufferOf(s'.buffers, p) == (if p == e.peer then r.buffer else BufferOf(s.buffers, p))
            && SentTo(s'.sent, p) == (if p == e.peer then SentTo(s.sent, p) + r.taken else SentTo(s.sent, p))
            && AddedFor(s', p)
               == (if p == e.peer then AddedFor(s, p) + (if r.restart then [] else [t]) else AddedFor(s, p))
            && s'.lost == s.lost
  {
    var t := Text(e.id, e.text);
    var r := FirstSection(BufferOf(s.buffers, e.peer), t, e.now);
    AddedSnoc(s.added, e.peer, Stamped(t, e.now, false), p);
    SentSnoc(s.sent, e.peer, r.taken, p);
    hide FirstSection, For, SentTo, TextsOf;
  }

  lemma AddKeepsBalance(s: State, e: Event, p: string)
    requires e.Add? && Enabled(s, e) && GoodBuffer(BufferOf(s.buffers, e.peer).texts) && Balanced(s, p)
    ensures Balanced(Next(s, e), p)
  {
    hide Accounts, For, SentTo, GoodBatch, Overflows;
    var t := Text(e.id, e.text);
    var buf := BufferOf(s.buffers, e.peer);
    var r := FirstSection(buf, t, e.now);
    var more := if r.restart then [] else [t];
    FirstSectionKeeps(buf, t, e.now);
    AddEffect(s, e, p);
    assert r.taken + r.buffer.texts == buf.texts + more;
    if p == e.peer {
      TakenAccounts(SentTo(s.sent, p), buf.texts, For(s.lost, p), AddedFor(s, p), more, r.taken, r.buffer.texts);
    }
    hide Next, Enabled, FirstSection, BufferOf, For, SentTo, AddedFor, GoodBuffer, GoodBatch, Accounts;
  }

  lemma RestartEffect(s: State, e: Event, p: string)
    requires e.Restart? && Enabled(s, e)
    ensures var s' := Next(s, e);
            && s'.sent == s.sent
            && BufferOf(s'.buffers, p) == (if p == e.task.peer then Restarted(e.task.t) else BufferOf(s.buffers, p))
            && AddedFor(s', p) == (if p == e.task.peer then AddedFor(s, p) + [e.task.t] else AddedFor(s, p))
            && For(s'.lost, p)
               == (if p == e.task.peer then For(s.lost, p) + BufferOf(s.buffers, p).texts else For(s.lost, p))
  {
    AddedSnoc(s.added, e.task.peer, Stamped(e.task.t, e.task.at, true), p);
    ForLost(s.lost, e.task.peer, BufferOf(s.buffers, e.task.peer).texts, p);
    hide For, SentTo, Lost, TextsOf;
  }

  lemma RestartKeepsBalance(s: State, e: Event, p: string)
    requires e.Restart? && Enabled(s, e) && Balanced(s, p)
    ensures Balanced(Next(s, e), p)
  {
    RestartEffect(s, e, p);
    if p == e.task.peer {
      OverwrittenAccounts(SentTo(s.sent, p), BufferOf(s.buffers, p).texts, For(s.lost, p), AddedFor(s, p), e.task.t);
    }
    hide Next, Enabled, For, SentTo, AddedFor, BufferOf, Accounts;
  }

  lemma FlushEffect(s: State, e: Event, p: string)
    requires e.Flush? && Enabled(s, e)
    ensures var s', buf := Next(s, e), BufferOf(s.buffers, p);
            && s'.added == s.added && s'.lost == s.lost
            && BufferOf(s'.buffers, p) == (if Ripe(buf, e.now) then Buffer([], None) else buf)
            && SentTo(s'.sent, p) == (if Ripe(buf, e.now) then SentTo(s.sent, p) + buf.texts else SentTo(s.sent, p))
  {
    SentToConcat(s.sent, e.items, p);
    SentOnce(e.items, p, BufferOf(s.buffers, p).texts);
    hide For, SentTo, Ripe;
  }

  lemma FlushKeepsBalance(s: State, e: Event, p: string)
    requires e.Flush? && Enabled(s, e) && Balanced(s, p)
    ensures Balanced(Next(s, e), p)
  {
    FlushEffect(s, e, p);
    var buf := BufferOf(s.buffers, p);
    assert AddedFor(Next(s, e), p) == AddedFor(s, p) == AddedFor(s, p) + [];
    assert buf.texts + [] == buf.texts;
    if Ripe(buf, e.now) {
      TakenAccounts(SentTo(s.sent, p), buf.texts, For(s.lost, p), AddedFor(s, p), [], buf.texts, []);
    }
    hide Next, Enabled, For, SentTo, AddedFor, BufferOf, Ripe, Accounts;
  }

  lemma PutKeepsGood(buffers: Buffers, sent: seq<Batch>, peer: string, buf: Buffer, taken: seq<Text>)
    requires AllGood(buffers, sent) && GoodBuffer(buf.texts) && (taken != [] ==> GoodBatch(taken))
    ensures AllGood(buffers[peer := buf], if taken == [] then sent else sent + [Batch(peer, taken)])
  {
    var next := buffers[peer := buf];
    forall p ensures GoodBuffer(BufferOf(next, p).texts) {
      assert BufferOf(next, p) == if p == peer then buf else BufferOf(buffers, p);
    }
    hide GoodBuffer, GoodBatch;
  }

  lemma FlushKeepsGood(buffers: Buffers, sent: seq<Batch>, items: seq<Batch>, now: int)
    requires AllGood(buffers, sent) && IsFlush(buffers, items, now)
    ensures AllGood(Flushed(buffers, now), sent + items)
  {
    forall i | 0 <= i < |items| ensures GoodBatch(items[i].texts) {
      assert GoodBuffer(BufferOf(buffers, items[i].peer).texts);
    }
    forall p ensures GoodBuffer(BufferOf(Flushed(buffers, now), p).texts) {
      assert GoodBuffer(BufferOf(buffers, p).texts);
    }
    hide GoodBuffer, GoodBatch, Flushed, IsFlush;
  }

  lemma NextKeepsGood(s: State, e: Event)
    requires AllGood(s.buffers, s.sent)
    ensures var s' := Next(s, e);
            AllGood(s'.buffers, s'.sent)
  {
    match e
    case Add(peer, id, text, now) =>
      var t := Text(id, text);
      var r := FirstSection(BufferOf(s.buffers, peer), t, now);
      FirstSectionKeeps(BufferOf(s.buffers, peer), t, now);
      PutKeepsGood(s.buffers, s.sent, peer, r.buffer, r.taken);
      hide FirstSection, AllGood, GoodBuffer, GoodBatch;
    case Restart(task) =>
      PutKeepsGood(s.buffers, s.sent, task.peer, Restarted(task.t), []);
      hide AllGood, Lost;
    case Flush(items, now) =>
      if IsFlush(s.buffers, items, now) {
        FlushKeepsGood(s.buffers, s.sent, items, now);
        hide AllGood, IsFlush, Flushed;
      }
  }

  lemma NextKeepsSound(s: State, e: Event)
    requires Sound(s)
    ensures Sound(Next(s, e))
  {
    NextKeepsGood(s, e);
    assert GoodBuffer(BufferOf(s.buffers, if e.Add? then e.peer else "").texts);
    if !Enabled(s, e) {
      assert Next(s, e) == s;
    } else {
      hide Next, Enabled, Balanced, AllGood, GoodBuffer;
      forall p ensures Balanced(Next(s, e), p) {
        match e
        case Add(_, _, _, _) => AddKeepsBalance(s, e, p);
        case Restart(_) => RestartKeepsBalance(s, e, p);
        case Flush(_, _) => FlushKeepsBalance(s, e, p);
      }
    }
  }

  lemma {:induction false} RunKeepsSound(start: int, events: seq<Event>)
    ensures Sound(Run(Empty(start), events))
    decreases |events|
  {
    if events != [] {
      RunKeepsSound(start, events[..|events| - 1]);
      hide Sound, Next;
      NextKeepsSound(Run(Empty(start), events[..|events| - 1]), events[|events| - 1]);
    }
  }

  // ---------- how long a text waits ----------

  /** The peer's buffer, with its stamps: the last texts added for it. */
  function Waiting(s: State, p: string): seq<Stamped> {
    LastOf(For(s.added, p), |BufferOf(s.buffers, p).texts|)
  }

  function LastOf(all: seq<Stamped>, n: nat): (r: seq<Stamped>)
    ensures n <= |all| ==> |r| == n
  {
    if n <= |all| then all[|all| - n..] else all
  }

  lemma LastOfSplit(all: seq<Stamped>, n: nat)
    ensures LastOf(all, 0) == []
    ensures |LastOf(all, n)| == n ==> n <= |all| && all[|all| - n..] == LastOf(all, n)
  {
  }

  lemma LastOfSnoc(all: seq<Stamped>, n: nat, t: Stamped)
    requires |LastOf(all, n)| == n
    ensures n <= |all| && LastOf(all + [t], n + 1) == LastOf(all, n) + [t] && LastOf(all + [t], 0) == []
    ensures LastOf(all, 0) == [] && LastOf(all + [t], 1) == [t]
  {
  }

  /**
   * The first time of a buffer is no later than the calls of its texts, but for a text that restarted the buffer: it
   * leaves the time unset, so that the next text sets it.
   */
  predicate TimedBuffer(w: seq<Stamped>, buf: Buffer, clock: int) {
    && TextsOf(w) == buf.texts
    && (forall k :: 0 < k < |w| ==> !w[k].restarts)
    && match buf.firstAt
       case None => w == [] || (|w| == 1 && w[0].restarts)
       case Some(first) =>
         && first <= clock
         && (forall k :: 0 <= k < |w| && !w[k].restarts ==> first <= w[k].at)
         && (w != [] && w[0].restarts ==> |w| > 1 && first == w[1].at)
  }

  predicate Timed(s: State, p: string) {
    TimedBuffer(Waiting(s, p), BufferOf(s.buffers, p), s.clock)
  }

  lemma FirstSectionTimed(w: seq<Stamped>, buf: Buffer, clock: int, t: Stamped, now: int)
    requires TimedBuffer(w, buf, clock) && clock <= now == t.at && !t.restarts
    ensures var r := FirstSection(buf, t.text, now);
            TimedBuffer(if r.buffer.texts == [] then [] else w + [t], r.buffer, now)
  {
    assert TextsOf(w + [t]) == TextsOf(w) + [t.text];
    hide Overflows;
  }

  lemma LaterTimed(w: seq<Stamped>, buf: Buffer, clock: int, now: int)
    requires TimedBuffer(w, buf, clock) && clock <= now
    ensures TimedBuffer(w, buf, now)
  {
  }

  lemma AddWaits(s: State, e: Event, p: string)
    requires e.Add? && Enabled(s, e) && Timed(s, p)
    ensures var t, s' := Stamped(Text(e.id, e.text), e.now, false), Next(s, e);
            var r := FirstSection(BufferOf(s.buffers, e.peer), t.text, e.now);
            Waiting(s', p) == if p != e.peer then Waiting(s, p)
                              else if r.buffer.texts == [] then [] else Waiting(s, p) + [t]
  {
    var t := Stamped(Text(e.id, e.text), e.now, false);
    var s', n := Next(s, e), |BufferOf(s.buffers, p).texts|;
    var r := FirstSection(BufferOf(s.buffers, e.peer), t.text, e.now);
    AddEffect(s, e, p);
    ForSnoc(s.added, e.peer, t, p);
    assert s'.added == if r.restart then s.added else s.added + [(e.peer, t)];
    LastOfSnoc(For(s.added, p), n, t);
    SectionSizes(BufferOf(s.buffers, e.peer), t.text, e.now);
    hide For, LastOf, Next, Enabled, FirstSection, BufferOf, SentTo, AddedFor, TimedBuffer;
  }

  lemma SectionSizes(buf: Buffer, t: Text, now: int)
    ensures var r := FirstSection(buf, t, now);
            r.buffer.texts == [] || (!r.restart && |r.buffer.texts| == |buf.texts| + 1)
  {
    hide Overflows;
  }

  lemma AddKeepsTimed(s: State, e: Event, p: string)
    requires e.Add? && Enabled(s, e) && Timed(s, p)
    ensures Timed(Next(s, e), p)
  {
    var t := Stamped(Text(e.id, e.text), e.now, false);
    AddWaits(s, e, p);
    AddEffect(s, e, p);
    assert Next(s, e).clock == e.now >= s.clock;
    if p == e.peer {
      FirstSectionTimed(Waiting(s, p), BufferOf(s.buffers, p), s.clock, t, e.now);
    } else {
      LaterTimed(Waiting(s, p), BufferOf(s.buffers, p), s.clock, e.now);
    }
    hide Next, Enabled, Waiting, TimedBuffer, FirstSection, BufferOf, SentTo, AddedFor;
  }

  lemma RestartKeepsTimed(s: State, e: Event, p: string)
    requires e.Restart? && Enabled(s, e) && Timed(s, p)
    ensures Timed(Next(s, e), p)
  {
    RestartWaits(s, e, p);
    RestartEffect(s, e, p);
    assert Next(s, e).clock == s.clock;
    var stamp := Stamped(e.task.t, e.task.at, true);
    assert TimedBuffer([stamp], Restarted(e.task.t), s.clock);
    hide Next, Enabled, Waiting, TimedBuffer, BufferOf, AddedFor, For;
  }

  lemma RestartWaits(s: State, e: Event, p: string)
    requires e.Restart? && Enabled(s, e) && Timed(s, p)
    ensures Waiting(Next(s, e), p) ==
            if p == e.task.peer then [Stamped(e.task.t, e.task.at, true)] else Waiting(s, p)
  {
    var stamp := Stamped(e.task.t, e.task.at, true);
    ForSnoc(s.added, e.task.peer, stamp, p);
    RestartEffect(s, e, p);
    assert Next(s, e).added == s.added + [(e.task.peer, stamp)];
    LastOfSnoc(For(s.added, p), |BufferOf(s.buffers, p).texts|, stamp);
    hide For, LastOf, Next, Enabled, BufferOf, AddedFor, TimedBuffer;
  }

  lemma FlushKeepsTimed(s: State, e: Event, p: string)
    requires e.Flush? && Enabled(s, e) && Timed(s, p)
    ensures Timed(Next(s, e), p)
    ensures Waiting(Next(s, e), p) == if Ripe(BufferOf(s.buffers, p), e.now) then [] else Waiting(s, p)
  {
    var s', buf := Next(s, e), BufferOf(s.buffers, p);
    FlushEffect(s, e, p);
    FlushClock(s, e);
    LastOfSplit(For(s.added, p), 0);
    hide Next, Enabled, For, LastOf, BufferOf, Ripe, TimedBuffer;
    assert s'.added == s.added;
    if Ripe(buf, e.now) {
      assert Waiting(s', p) == LastOf(For(s.added, p), 0);
      NothingTimed(s'.clock);
    } else {
      LaterTimed(Waiting(s, p), buf, s.clock, e.now);
    }
  }

  lemma FlushClock(s: State, e: Event)
    requires e.Flush? && Enabled(s, e)
    ensures Next(s, e).clock == e.now >= s.clock
  {
  }

  lemma NothingTimed(clock: int)
    ensures TimedBuffer([], Buffer([], None), clock)
  {
  }

  lemma NextKeepsTimed(s: State, e: Event, p: string)
    requires Timed(s, p)
    ensures Timed(Next(s, e), p)
  {
    if Enabled(s, e) {
      hide Next, Enabled, Timed;
      match e
      case Add(_, _, _, _) => AddKeepsTimed(s, e, p);
      case Restart(_) => RestartKeepsTimed(s, e, p);
      case Flush(_, _) => FlushKeepsTimed(s, e, p);
    }
  }

  lemma {:induction false} RunKeepsTimed(start: int, events: seq<Event>, p: string)
    ensures Timed(Run(Empty(start), events), p)
    decreases |events|
  {
    if events != [] {
      RunKeepsTimed(start, events[..|events| - 1], p);
      hide Timed, Next;
      NextKeepsTimed(Run(Empty(start), events[..|events| - 1]), events[|events| - 1], p);
    }
  }

  /** A text restarted the peer's buffer a second ago or more, and since then others have come. */
  predicate HeldUp(s: State, p: string, now: int) {
    var w := Waiting(s, p);
    |w| > 1 && w[0].restarts && w[0].at <= now - 1_000_000_000 && w[1].at > now - 1_000_000_000
  }

  /**
   * A flush leaves no text of the peer behind that was added a second ago or more, exactly unless that text restarted
   * the buffer and another came less than a second ago; and then it is the only one. What is not left behind has been
   * sent or overwritten.
   */
  lemma FlushedInTime(start: int, events: seq<Event>, items: seq<Batch>, now: int, p: string)
    requires Enabled(Run(Empty(start), events), Flush(items, now))
    ensures var s := Next(Run(Empty(start), events), Flush(items, now));
            var all, w := For(s.added, p), Waiting(s, p);
            && ((forall k :: 0 <= k < |w| ==> w[k].at > now - 1_000_000_000)
                <==> !HeldUp(Run(Empty(start), events), p, now))
            && (forall k :: 0 < k < |w| ==> w[k].at > now - 1_000_000_000)
            && multiset(TextsOf(all[..|all| - |w|])) == multiset(SentTo(s.sent, p)) + multiset(For(s.lost, p))
  {
    var s0 := Run(Empty(start), events);
    RunKeepsTimed(start, events, p);
    RunBalances(start, events, p);
    hide *;
    FlushKeepsTimed(s0, Flush(items, now), p);
    FlushKeepsBalance(s0, Flush(items, now), p);
    FlushLeaves(s0, Next(s0, Flush(items, now)), now, p);
    NotWaiting(Next(s0, Flush(items, now)), p);
  }

  lemma RunBalances(start: int, events: seq<Event>, p: string)
    ensures Balanced(Run(Empty(start), events), p)
  {
    RunKeepsSound(start, events);
    hide Run;
  }

  lemma FlushLeaves(s0: State, s: State, now: int, p: string)
    requires Timed(s0, p) && Timed(s, p)
    requires Waiting(s, p) == if Ripe(BufferOf(s0.buffers, p), now) then [] else Waiting(s0, p)
    ensures var w := Waiting(s, p);
            && ((forall k :: 0 <= k < |w| ==> w[k].at > now - 1_000_000_000) <==> !HeldUp(s0, p, now))
            && (forall k :: 0 < k < |w| ==> w[k].at > now - 1_000_000_000)
  {
    hide For, Waiting;
  }

  lemma NotWaiting(s: State, p: string)
    requires Timed(s, p) && Balanced(s, p)
    ensures var all, w := For(s.added, p), Waiting(s, p);
            |w| <= |all| &&
            multiset(TextsOf(all[..|all| - |w|])) == multiset(SentTo(s.sent, p)) + multiset(For(s.lost, p))
  {
    hide *;
    WaitingIsLast(s, p);
    var all, w := For(s.added, p), Waiting(s, p);
    RestAccounts(SentTo(s.sent, p), For(s.lost, p), all, |all| - |w|);
  }

  lemma WaitingIsLast(s: State, p: string)
    requires Timed(s, p) && Balanced(s, p)
    ensures var all, w := For(s.added, p), Waiting(s, p);
            |w| <= |all| && all[|all| - |w|..] == w
            && Accounts(SentTo(s.sent, p), TextsOf(w), For(s.lost, p), TextsOf(all))
  {
    var n := |BufferOf(s.buffers, p).texts|;
    assert |Waiting(s, p)| == |TextsOf(Waiting(s, p))| == n;
    LastOfSplit(For(s.added, p), n);
    hide For, SentTo, LastOf, BufferOf, Accounts;
  }

  lemma RestAccounts(sent: seq<Text>, lost: seq<Text>, all: seq<Stamped>, n: nat)
    requires n <= |all| && Accounts(sent, TextsOf(all[n..]), lost, TextsOf(all))
    ensures multiset(TextsOf(all[..n])) == multiset(sent) + multiset(lost)
  {
    var early, late := TextsOf(all[..n]), TextsOf(all[n..]);
    assert TextsOf(all) == early + late;
    assert multiset(early + late) == multiset(early) + multiset(late);
    Cancels(multiset(sent), multiset(late), multiset(lost), multiset(early));
  }

  /** It can be held up: a text restarts the buffer, another comes within a second, and the next flush leaves both. */
  lemma RestartedTextIsHeldUp(s: State, task: Task, id: string, text: string, at: int, items: seq<Batch>, now: int)
    requires Enabled(s, Restart(task)) && task.peer != "" && id != "" && s.clock <= at <= now < at + 1_000_000_000
    requires !Overflows([task.t], Text(id, text))
    ensures var s2 := Next(Next(s, Restart(task)), Add(task.peer, id, text, at));
            Enabled(s2, Flush(items, now)) ==>
              BufferOf(Next(s2, Flush(items, now)).buffers, task.peer).texts == [task.t, Text(id, text)]
  {
    var s1 := Next(s, Restart(task));
    assert BufferOf(s1.buffers, task.peer) == Restarted(task.t) && s1.clock == s.clock;
    hide Overflows;
    var s2 := Next(s1, Add(task.peer, id, text, at));
    assert BufferOf(s2.buffers, task.peer) == Buffer([task.t, Text(id, text)], Some(at));
    hide IsFlush, FirstSection, Lost;
  }

  // ---------- what is lost ----------

  /** Every second section of the run finds the buffer of its peer empty. */
  predicate NoneOverwritten(s: State, events: seq<Event>)
    decreases |events|
  {
    events == [] ||
    (var before, e := Run(s, events[..|events| - 1]), events[|events| - 1];
     NoneOverwritten(s, events[..|events| - 1])
     && (e.Restart? && Enabled(before, e) ==> BufferOf(before.buffers, e.task.peer).texts == []))
  }

  lemma {:induction false} LostIff(start: int, events: seq<Event>)
    ensures Run(Empty(start), events).lost == [] <==> NoneOverwritten(Empty(start), events)
    decreases |events|
  {
    if events != [] {
      var before, e := Run(Empty(start), events[..|events| - 1]), events[|events| - 1];
      LostIff(start, events[..|events| - 1]);
      if e.Restart? {
        LostGrows(before.lost, e.task.peer, BufferOf(before.buffers, e.task.peer).texts);
      }
      hide FirstSection, Lost;
    }
  }

  /** Some peer's lost texts are listed for it. */
  lemma {:induction false} LostForSome(lost: seq<(string, Text)>)
    ensures lost == [] <==> forall p :: For(lost, p) == []
  {
    if lost != [] {
      var last := lost[|lost| - 1];
      assert For(lost, last.0) != [];
    }
  }

  lemma BalancedInOrder(s: State, p: string)
    requires Balanced(s, p)
    ensures InOrder(s, p) <==> For(s.lost, p) == []
  {
    AccountsInOrder(SentTo(s.sent, p), BufferOf(s.buffers, p).texts, For(s.lost, p), AddedFor(s, p));
    hide For, SentTo, Accounts;
  }

  /**
   * Over any run, with calls overlapping in any way, every batch has one to ten texts, a single one or within the size
   * limit; and each peer's batches followed by its buffer are the texts added for it, in order, for all peers exactly
   * when every second section finds its buffer empty.
   */
  lemma NothingLostOrOversized(start: int, events: seq<Event>)
    ensures var s := Run(Empty(start), events);
            && (forall i :: 0 <= i < |s.sent| ==> GoodBatch(s.sent[i].texts))
            && ((forall p :: InOrder(s, p)) <==> NoneOverwritten(Empty(start), events))
  {
    var s := Run(Empty(start), events);
    RunKeepsSound(start, events);
    LostIff(start, events);
    LostForSome(s.lost);
    hide Run, NoneOverwritten, GoodBatch, GoodBuffer, InOrder, Balanced;
    forall p ensures InOrder(s, p) <==> For(s.lost, p) == [] {
      BalancedInOrder(s, p);
    }
  }

  /** No text is added for a peer while a call for it has its second section to run. */
  predicate NoOverlap(s: State, events: seq<Event>)
    decreases |events|
  {
    events == [] ||
    (var before, e := Run(s, events[..|events| - 1]), events[|events| - 1];
     NoOverlap(s, events[..|events| - 1]) && (e.Add? ==> !Restarting(before, e.peer)))
  }

  predicate Restarting(s: State, peer: string) {
    exists task | task in s.tasks :: task.peer == peer
  }

  /** While a call has its second section to run, its buffer is empty, and it is the only such call for its peer. */
  ghost predicate Pending(s: State) {
    forall task :: task in s.tasks ==>
      && BufferOf(s.buffers, task.peer).texts == []
      && s.tasks[task] == 1
      && forall other :: other in s.tasks && other.peer == task.peer ==> other == task
  }

  lemma AddKeepsPending(s: State, e: Event)
    requires Pending(s) && e.Add? && !Restarting(s, e.peer)
    ensures Pending(Next(s, e))
  {
    hide Estimate, Overflows;
  }

  lemma RestartKeepsPending(s: State, e: Event)
    requires Pending(s) && e.Restart?
    ensures Pending(Next(s, e))
  {
    hide Lost;
  }

  lemma FlushKeepsPending(s: State, e: Event)
    requires Pending(s) && e.Flush?
    ensures Pending(Next(s, e))
  {
    hide IsFlush;
  }

  lemma NextKeepsPending(s: State, e: Event)
    requires Pending(s) && (e.Add? ==> !Restarting(s, e.peer))
    ensures Pending(Next(s, e))
  {
    hide Pending, Restarting, Next;
    match e
    case Add(_, _, _, _) => AddKeepsPending(s, e);
    case Restart(_) => RestartKeepsPending(s, e);
    case Flush(_, _) => FlushKeepsPending(s, e);
  }

  lemma {:induction false} NoOverlapLosesNothing(start: int, events: seq<Event>)
    requires NoOverlap(Empty(start), events)
    ensures NoneOverwritten(Empty(start), events) && Pending(Run(Empty(start), events))
    decreases |events|
  {
    if events != [] {
      NoOverlapLosesNothing(start, events[..|events| - 1]);
      hide Next;
      NextKeepsPending(Run(Empty(start), events[..|events| - 1]), events[|events| - 1]);
    }
  }

  /** An overlap that loses a text: another is added between the two sections of a call. */
  lemma OverlapLosesText(s: State, peer: string, t: Text, u: Text, now: int)
    requires peer != "" && t.id != "" && u.id != "" && s.clock <= now && Overflows(BufferOf(s.buffers, peer).texts, t)
    ensures var s2 := Next(Next(s, Add(peer, t.id, t.text, now)), Add(peer, u.id, u.text, now));
            var s' := Next(s2, Restart(Task(peer, t, now)));
            s'.lost == s.lost + [(peer, u)] && BufferOf(s'.buffers, peer).texts == [t]
  {
    var s1 := Next(s, Add(peer, t.id, t.text, now));
    AddOverflowing(s, peer, t, now);
    AddToEmpty(s1, peer, u, now);
    hide FirstSection, Overflows, IsFlush;
    assert [u][..0] == [] && Lost(s.lost, peer, []) == s.lost;
    assert Lost(s.lost, peer, [u]) == s.lost + [(peer, u)];
  }

  lemma AddOverflowing(s: State, peer: string, t: Text, now: int)
    requires peer != "" && t.id != "" && s.clock <= now && Overflows(BufferOf(s.buffers, peer).texts, t)
    ensures var s' := Next(s, Add(peer, t.id, t.text, now));
            && BufferOf(s'.buffers, peer).texts == [] && Task(peer, t, now) in s'.tasks
            && s'.lost == s.lost && s'.clock == now
  {
    hide Estimate, IsFlush;
  }

  lemma AddToEmpty(s: State, peer: string, u: Text, now: int)
    requires peer != "" && u.id != "" && s.clock <= now && BufferOf(s.buffers, peer).texts == []
    ensures var s' := Next(s, Add(peer, u.id, u.text, now));
            BufferOf(s'.buffers, peer).texts == [u] && s'.tasks == s.tasks && s'.lost == s.lost
  {
    hide Estimate, IsFlush;
  }
}
