/**
 * Aborting a file at the receiver (node/node_offers.go, node/node_files.go, node/node_p2p.go, node/aborted.go): the
 * handler of an abort and the handlers of chunks, on either end-to-end path, run side by side. Each section that
 * holds a lock is one step.
 */
module AbortBarrier {
  import opened Common
  import MS = MessageStore

  const ABORTED_TTL: int := 24 * MS.NS_PER_HOUR

  /** m is a chunk of the file k. */
  predicate IsChunkOf(m: MS.Message, k: string) {
    MS.IsChunk(m) && m.mediaID == k
  }

  /** What a handler still has to do. */
  datatype Task =
    // a chunk or other message past the abort check
    | Store(m: MS.Message)
    | Count(m: MS.Message)
    | Acknowledge(m: MS.Message)
    // the abort: ids of the snapshot still to be removed, then the counters, then the mark
    | Delete(k: string, ids: seq<string>)
    | DropCounts(k: string)
    | Mark(k: string)

  datatype State = State(
    memory: map<string, MS.Message>,
    aborted: map<string, int>,
    accepted: map<string, nat>,
    acked: seq<MS.Message>,
    tasks: multiset<Task>)

  datatype Event =
    | MessageArrives(m: MS.Message)
    | AbortArrives(k: string)
    | Continue(task: Task, now: int)
    // the receiver's confirmation that the file is complete, and the periodic cleanup
    | Unmark(k: string)
    | CleanUp(now: int)
    | StoreStep(op: MS.Op)

  predicate Enabled(s: State, e: Event) {
    match e
    case Continue(task, now) => task in s.tasks
    case StoreStep(op) => op.Add? ==> !MS.IsChunk(op.m)
    case _ => true
  }

  function Snapshot(memory: map<string, MS.Message>, k: string): set<string> {
    set id | id in memory && memory[id].mediaID == k
  }

  /** Some order of the ids. */
  ghost function Ordered(ids: set<string>): (r: seq<string>)
    ensures forall id :: id in r <==> id in ids
  {
    if ids == {} then []
    else
      var id :| id in ids;
      [id] + Ordered(ids - {id})
  }

  function Live(aborted: map<string, int>, now: int): map<string, int> {
    map k | k in aborted && now - aborted[k] <= ABORTED_TTL :: aborted[k]
  }

  /** One section of a handler. */
  function Section(s: State, task: Task, now: int): State {
    match task
    case Store(m) =>
      s.(memory := MS.MapStep(s.memory, MS.Op.Add(m, now)),
         tasks := s.tasks + multiset{
           if m.id !in s.memory && !MS.Expired(m, now) && MS.IsChunk(m) then Count(m) else Acknowledge(m)})
    case Count(m) =>
      s.(accepted := s.accepted[m.mediaID := 1 + if m.mediaID in s.accepted then s.accepted[m.mediaID] else 0],
         tasks := s.tasks + multiset{Acknowledge(m)})
    case Acknowledge(m) => s.(acked := s.acked + [m])
    case Delete(k, ids) =>
      if ids == [] then s.(tasks := s.tasks + multiset{DropCounts(k)})
      else s.(memory := s.memory - {ids[0]}, tasks := s.tasks + multiset{Delete(k, ids[1..])})
    case DropCounts(k) => s.(accepted := s.accepted - {k}, tasks := s.tasks + multiset{Mark(k)})
    case Mark(k) => s.(aborted := s.aborted[k := now])
  }

  ghost function Next(s: State, e: Event): State {
    if !Enabled(s, e) then s
    else match e
      // The check: a chunk of an aborted file goes no further.
      case MessageArrives(m) =>
        if MS.IsChunk(m) && m.mediaID in s.aborted then s else s.(tasks := s.tasks + multiset{Store(m)})
      case AbortArrives(k) =>
        if k == "" then s else s.(tasks := s.tasks + multiset{Delete(k, Ordered(Snapshot(s.memory, k)))})
      case Continue(task, now) => Section(s.(tasks := s.tasks - multiset{task}), task, now)
      case Unmark(k) => s.(aborted := s.aborted - {k})
      case CleanUp(now) => s.(aborted := Live(s.aborted, now))
      case StoreStep(op) => s.(memory := MS.MapStep(s.memory, op))
  }

  ghost function Run(s: State, events: seq<Event>): State
    decreases |events|
  {
    if events == [] then s else Next(Run(s, events[..|events| - 1]), events[|events| - 1])
  }

  // ---------- the barrier ----------

  /** A handler of a chunk of k is past the check. */
  predicate HandlesChunkOf(task: Task, k: string) {
    match task
    case Store(m) => IsChunkOf(m, k)
    case Count(m) => m.mediaID == k
    case Acknowledge(m) => IsChunkOf(m, k)
    case _ => false
  }

  ghost predicate NoHandler(s: State, k: string) {
    forall task :: task in s.tasks ==> !HandlesChunkOf(task, k)
  }

  ghost predicate NoneStored(s: State, k: string) {
    forall id :: id in s.memory ==> !IsChunkOf(s.memory[id], k)
  }

  /** The acknowledgements queued for chunks of k. */
  function AckedOf(acked: seq<MS.Message>, k: string): seq<MS.Message> {
    if acked == [] then []
    else
      var before, last := AckedOf(acked[..|acked| - 1], k), acked[|acked| - 1];
      if IsChunkOf(last, k) then before + [last] else before
  }

  function CountOf(s: State, k: string): nat {
    if k in s.accepted then s.accepted[k] else 0
  }

  /** Nothing of k is stored, and since s nothing of k has been counted or acknowledged. */
  ghost predicate Shut(s: State, s': State, k: string) {
    NoneStored(s', k) && CountOf(s', k) <= CountOf(s, k) && AckedOf(s'.acked, k) == AckedOf(s.acked, k)
  }

  /** k stays marked after every step of the run. */
  ghost predicate StaysMarked(s: State, events: seq<Event>, k: string)
    decreases |events|
  {
    k in Run(s, events).aborted && (events == [] || StaysMarked(s, events[..|events| - 1], k))
  }

  /** However the run goes on, k stays shut for as long as it stays marked. */
  ghost predicate Barrier(s: State, k: string) {
    forall events :: StaysMarked(s, events, k) ==> Shut(s, Run(s, events), k)
  }

  lemma StoreKeepsNone(v: map<string, MS.Message>, op: MS.Op, k: string)
    requires forall id :: id in v ==> !IsChunkOf(v[id], k)
    requires op.Add? ==> !IsChunkOf(op.m, k)
    ensures var v' := MS.MapStep(v, op); forall id :: id in v' ==> !IsChunkOf(v'[id], k)
  {
  }

  lemma SectionKeepsNoHandler(s: State, task: Task, now: int, k: string)
    requires NoHandler(s, k) && !HandlesChunkOf(task, k)
    ensures NoHandler(Section(s, task, now), k)
  {
    hide MS.MapStep;
  }

  lemma SectionKeepsShut(s: State, task: Task, now: int, k: string)
    requires NoHandler(s, k) && NoneStored(s, k) && !HandlesChunkOf(task, k)
    ensures NoHandler(Section(s, task, now), k) && Shut(s, Section(s, task, now), k)
  {
    SectionKeepsNoHandler(s, task, now, k);
    hide NoHandler;
    if task.Store? {
      StoreKeepsNone(s.memory, MS.Op.Add(task.m, now), k);
    }
    AckKeepsAcked(s.acked, task, k);
    hide MS.MapStep, AckedOf;
  }

  lemma AckKeepsAcked(acked: seq<MS.Message>, task: Task, k: string)
    requires task.Acknowledge? ==> !IsChunkOf(task.m, k)
    ensures task.Acknowledge? ==> AckedOf(acked + [task.m], k) == AckedOf(acked, k)
  {
    if task.Acknowledge? {
      assert (acked + [task.m])[..|acked|] == acked;
    }
  }

  lemma ContinueKeepsShut(s: State, task: Task, now: int, k: string)
    requires NoHandler(s, k) && NoneStored(s, k) && task in s.tasks
    ensures var s' := Next(s, Continue(task, now)); NoHandler(s', k) && Shut(s, s', k)
  {
    var s0 := s.(tasks := s.tasks - multiset{task});
    assert NoHandler(s0, k) && NoneStored(s0, k) && !HandlesChunkOf(task, k);
    hide NoHandler, NoneStored, Section;
    SectionKeepsShut(s0, task, now, k);
    hide AckedOf;
  }

  lemma OthersKeepShut(s: State, e: Event, k: string)
    requires NoHandler(s, k) && NoneStored(s, k) && k in s.aborted && Enabled(s, e) && !e.Continue?
    ensures NoHandler(Next(s, e), k) && Shut(s, Next(s, e), k)
  {
    if e.StoreStep? {
      StoreKeepsNone(s.memory, e.op, k);
    }
    hide AckedOf, MS.MapStep, Section;
  }

  lemma NothingIsShut(s: State, k: string)
    requires NoneStored(s, k)
    ensures Shut(s, s, k)
  {
  }

  lemma NextKeepsShut(s: State, e: Event, k: string)
    requires NoHandler(s, k) && NoneStored(s, k) && k in s.aborted
    ensures NoHandler(Next(s, e), k) && Shut(s, Next(s, e), k)
  {
    if !Enabled(s, e) {
      NothingIsShut(s, k);
    } else if e.Continue? {
      ContinueKeepsShut(s, e.task, e.now, k);
    } else {
      OthersKeepShut(s, e, k);
    }
    hide NoHandler, NoneStored, Shut, Section;
  }

  /** Once a file is marked, with no handler past the check and nothing stored, it stays shut while it is marked. */
  lemma {:induction false} QuietRunsStayShut(s: State, events: seq<Event>, k: string)
    requires NoHandler(s, k) && NoneStored(s, k) && StaysMarked(s, events, k)
    ensures NoHandler(Run(s, events), k) && Shut(s, Run(s, events), k)
    decreases |events|
  {
    if events != [] {
      var front := events[..|events| - 1];
      QuietRunsStayShut(s, front, k);
      assert k in Run(s, front).aborted;
      hide Next, NoHandler, NoneStored;
      NextKeepsShut(Run(s, front), events[|events| - 1], k);
    }
  }

  lemma OneStepBreaks(s: State, e: Event, k: string)
    requires k in s.aborted && k in Next(s, e).aborted && !Shut(s, Next(s, e), k)
    ensures !Barrier(s, k)
  {
    hide Next, Shut;
    assert [e][..0] == [];
    assert Run(s, [e]) == Next(s, e);
    assert StaysMarked(s, [], k) && StaysMarked(s, [e], k);
  }

  lemma TwoStepsBreak(s: State, e: Event, f: Event, k: string)
    requires k in s.aborted && k in Next(s, e).aborted && k in Next(Next(s, e), f).aborted
    requires !Shut(s, Next(Next(s, e), f), k)
    ensures !Barrier(s, k)
  {
    hide Next, Shut;
    assert [e][..0] == [] && [e, f][..1] == [e];
    assert Run(s, [e]) == Next(s, e) && Run(s, [e, f]) == Next(Next(s, e), f);
    assert StaysMarked(s, [], k) && StaysMarked(s, [e], k) && StaysMarked(s, [e, f], k);
  }

  /** A handler past the check gets its chunk stored, counted or acknowledged, whatever has been marked since. */
  lemma HandlerGetsThrough(s: State, task: Task, k: string)
    requires task in s.tasks && HandlesChunkOf(task, k) && k in s.aborted
    ensures !Barrier(s, k)
  {
    var e := Continue(task, 0);
    match task
    case Store(m) =>
      if m.id !in s.memory && !MS.Expired(m, 0) {
        assert IsChunkOf(Next(s, e).memory[m.id], k);
        OneStepBreaks(s, e, k);
      } else {
        assert Next(Next(s, e), Continue(Acknowledge(m), 0)).acked == s.acked + [m];
        TwoStepsBreak(s, e, Continue(Acknowledge(m), 0), k);
      }
    case Count(m) =>
      OneStepBreaks(s, e, k);
    case Acknowledge(m) =>
      OneStepBreaks(s, e, k);
  }

  /**
   * The barrier holds exactly when, at the moment the file is marked, no handler of one of its chunks is past the
   * check and none of its chunks is stored.
   */
  lemma BarrierIffQuiet(s: State, k: string)
    requires k in s.aborted
    ensures Barrier(s, k) <==> NoHandler(s, k) && NoneStored(s, k)
  {
    if NoHandler(s, k) && NoneStored(s, k) {
      forall events | StaysMarked(s, events, k) ensures Shut(s, Run(s, events), k) {
        QuietRunsStayShut(s, events, k);
      }
    } else if !NoHandler(s, k) {
      var task :| task in s.tasks && HandlesChunkOf(task, k);
      HandlerGetsThrough(s, task, k);
    } else {
      assert StaysMarked(s, [], k) && !Shut(s, Run(s, []), k);
    }
  }

  // ---------- handling an abort ----------

  predicate Concerns(task: Task, k: string) {
    match task
    case Delete(j, ids) => j == k
    case DropCounts(j) => j == k
    case Mark(j) => j == k
    case _ => HandlesChunkOf(task, k)
  }

  ghost predicate TaskCovers(memory: map<string, MS.Message>, task: Task, k: string) {
    match task
    case Delete(j, ids) => j == k ==> forall id :: id in memory && IsChunkOf(memory[id], k) ==> id in ids
    case DropCounts(j) => j == k ==> forall id :: id in memory ==> !IsChunkOf(memory[id], k)
    case Mark(j) => j == k ==> forall id :: id in memory ==> !IsChunkOf(memory[id], k)
    case _ => !HandlesChunkOf(task, k)
  }

  /** Every abort under way still has all stored chunks of k on its list, and a marked k has none. */
  ghost predicate Covered(s: State, k: string) {
    && (forall task :: task in s.tasks ==> TaskCovers(s.memory, task, k))
    && (k in s.aborted ==> NoneStored(s, k))
  }

  /** memory' holds no chunk of k that memory does not hold. */
  ghost predicate NoMore(memory: map<string, MS.Message>, memory': map<string, MS.Message>, k: string) {
    forall id :: id in memory' && IsChunkOf(memory'[id], k) ==> id in memory && IsChunkOf(memory[id], k)
  }

  lemma StoreAddsNone(v: map<string, MS.Message>, op: MS.Op, k: string)
    requires op.Add? ==> !IsChunkOf(op.m, k)
    ensures NoMore(v, MS.MapStep(v, op), k)
  {
  }

  lemma CoversLess(memory: map<string, MS.Message>, memory': map<string, MS.Message>, task: Task, k: string)
    requires NoMore(memory, memory', k) && TaskCovers(memory, task, k)
    ensures TaskCovers(memory', task, k)
  {
  }

  lemma SectionAddsNone(s: State, task: Task, now: int, k: string)
    requires TaskCovers(s.memory, task, k)
    ensures NoMore(s.memory, Section(s, task, now).memory, k)
  {
    if task.Store? {
      StoreAddsNone(s.memory, MS.Op.Add(task.m, now), k);
      hide MS.MapStep;
    }
  }

  /** What the step leaves to be done, if anything. */
  function Left(s: State, task: Task, now: int): Option<Task> {
    match task
    case Store(m) =>
      Some(if m.id !in s.memory && !MS.Expired(m, now) && MS.IsChunk(m) then Count(m) else Acknowledge(m))
    case Count(m) => Some(Acknowledge(m))
    case Acknowledge(m) => None
    case Delete(k, ids) => Some(if ids == [] then DropCounts(k) else Delete(k, ids[1..]))
    case DropCounts(k) => Some(Mark(k))
    case Mark(k) => None
  }

  lemma LeftCovers(s: State, task: Task, now: int, k: string)
    requires TaskCovers(s.memory, task, k) && Left(s, task, now).Some?
    ensures TaskCovers(Section(s, task, now).memory, Left(s, task, now).value, k)
  {
    hide MS.MapStep;
  }

  lemma SectionLeaves(s: State, task: Task, now: int)
    ensures forall t :: t in Section(s, task, now).tasks ==> t in s.tasks || Left(s, task, now) == Some(t)
    ensures forall j :: j in Section(s, task, now).aborted ==> j in s.aborted || task == Mark(j)
  {
    hide MS.MapStep;
  }

  /** What the step leaves to be done covers what its task covered. */
  lemma SectionTasksCover(s: State, task: Task, now: int, k: string)
    requires TaskCovers(s.memory, task, k)
    ensures var s' := Section(s, task, now);
            forall t :: t in s'.tasks && t !in s.tasks ==> TaskCovers(s'.memory, t, k)
    ensures task.Mark? && task.k == k ==> NoneStored(s, k)
    ensures forall j :: j in Section(s, task, now).aborted ==> j in s.aborted || task == Mark(j)
  {
    SectionLeaves(s, task, now);
    hide Section, Left;
    if Left(s, task, now).Some? {
      LeftCovers(s, task, now, k);
    }
  }

  lemma SectionKeepsCovered(s: State, task: Task, now: int, k: string)
    requires Covered(s, k) && TaskCovers(s.memory, task, k)
    ensures Covered(Section(s, task, now), k)
  {
    var s' := Section(s, task, now);
    SectionAddsNone(s, task, now, k);
    SectionTasksCover(s, task, now, k);
    hide Section, TaskCovers;
    forall t | t in s.tasks ensures TaskCovers(s'.memory, t, k) {
      CoversLess(s.memory, s'.memory, t, k);
    }
  }

  lemma StoreKeepsCovered(s: State, op: MS.Op, k: string)
    requires Covered(s, k) && (op.Add? ==> !IsChunkOf(op.m, k))
    ensures Covered(s.(memory := MS.MapStep(s.memory, op)), k)
  {
    var memory' := MS.MapStep(s.memory, op);
    StoreAddsNone(s.memory, op, k);
    hide TaskCovers, MS.MapStep;
    forall t | t in s.tasks ensures TaskCovers(memory', t, k) {
      CoversLess(s.memory, memory', t, k);
    }
  }

  lemma NextKeepsCovered(s: State, e: Event, k: string)
    requires Covered(s, k)
    requires e.MessageArrives? && IsChunkOf(e.m, k) ==> k in s.aborted
    ensures Covered(Next(s, e), k)
  {
    hide MS.MapStep, Section;
    if Enabled(s, e) {
      match e
      case StoreStep(op) => StoreKeepsCovered(s, op, k);
      case Continue(task, now) => SectionKeepsCovered(s.(tasks := s.tasks - multiset{task}), task, now, k);
      case _ =>
    }
  }

  /** No chunk of k passes the check during the run: each one that arrives finds k marked. */
  ghost predicate NoOverlap(s: State, events: seq<Event>, k: string)
    decreases |events|
  {
    events == [] ||
    (var e, before := events[|events| - 1], events[..|events| - 1];
     NoOverlap(s, before, k) && (e.MessageArrives? && IsChunkOf(e.m, k) ==> k in Run(s, before).aborted))
  }

  lemma {:induction false} RunKeepsCovered(s: State, events: seq<Event>, k: string)
    requires Covered(s, k) && NoOverlap(s, events, k)
    ensures Covered(Run(s, events), k)
    decreases |events|
  {
    if events != [] {
      RunKeepsCovered(s, events[..|events| - 1], k);
      hide Covered, Next;
      NextKeepsCovered(Run(s, events[..|events| - 1]), events[|events| - 1], k);
    }
  }

  /**
   * Aborts that no handler of the file's chunks overlaps do their work: whatever was stored, and whatever else the
   * node does meanwhile, once the file is marked the barrier stands.
   */
  lemma AbortRaisesBarrier(s: State, events: seq<Event>, k: string)
    requires k !in s.aborted && forall task :: task in s.tasks ==> !Concerns(task, k)
    requires NoOverlap(s, events, k) && k in Run(s, events).aborted
    ensures Barrier(Run(s, events), k)
  {
    RunKeepsCovered(s, events, k);
    var s' := Run(s, events);
    hide Run;
    forall task | task in s'.tasks ensures !HandlesChunkOf(task, k) {
      assert TaskCovers(s'.memory, task, k);
    }
    BarrierIffQuiet(s', k);
  }

  const IDLE := State(map[], map[], map[], [], multiset{})

  function Leak(m: MS.Message, k: string): seq<Event> {
    [MessageArrives(m), AbortArrives(k), Continue(Delete(k, []), 0), Continue(DropCounts(k), 0), Continue(Mark(k), 0),
     Continue(Store(m), 0)]
  }

  /** An overlap that leaks: the chunk passes the check, the abort is handled, and then the chunk is stored. */
  lemma OverlapLeaksChunk(m: MS.Message, k: string)
    requires IsChunkOf(m, k) && !MS.Expired(m, 0)
    ensures var s := Run(IDLE, Leak(m, k));
            k in s.aborted && m.id in s.memory && IsChunkOf(s.memory[m.id], k)
  {
    RunOfSix(IDLE, Leak(m, k));
    AbortBegins(m, k);
    AbortFinishes(m, k);
    hide Run, Next, Waiting, Section;
    LastStepStores(IDLE.(tasks := multiset{Store(m)}, aborted := map[k := 0]), m);
  }

  /** A chunk passes the check, and an abort finds nothing to delete. */
  lemma AbortBegins(m: MS.Message, k: string)
    requires k != ""
    ensures Next(Next(IDLE, MessageArrives(m)), AbortArrives(k)) == Waiting(m, Delete(k, []))
  {
    hide Section;
    var s1 := Next(IDLE, MessageArrives(m));
    assert s1.tasks == multiset{Store(m)};
    assert Snapshot(s1.memory, k) == {};
    assert Ordered({}) == [];
  }

  /** The node while a chunk waits to be stored and an abort is under way. */
  function Waiting(m: MS.Message, task: Task): State {
    IDLE.(tasks := multiset{Store(m), task})
  }

  /** The rest of an abort with nothing to delete, while a chunk waits to be stored. */
  lemma AbortFinishes(m: MS.Message, k: string)
    ensures Next(Next(Next(Waiting(m, Delete(k, [])), Continue(Delete(k, []), 0)), Continue(DropCounts(k), 0)),
                 Continue(Mark(k), 0))
            == IDLE.(tasks := multiset{Store(m)}, aborted := map[k := 0])
  {
    Continues(m, Delete(k, []));
    Continues(m, DropCounts(k));
    Continues(m, Mark(k));
    hide Next;
    var idle := IDLE.(tasks := multiset{Store(m)});
    assert Section(idle, Delete(k, []), 0) == Waiting(m, DropCounts(k));
    assert idle.accepted - {k} == map[];
    assert Section(idle, DropCounts(k), 0) == Waiting(m, Mark(k));
    assert idle.aborted[k := 0] == map[k := 0];
  }

  lemma Continues(m: MS.Message, task: Task)
    ensures Next(Waiting(m, task), Continue(task, 0)) == Section(IDLE.(tasks := multiset{Store(m)}), task, 0)
  {
    hide Section;
    assert Waiting(m, task).tasks - multiset{task} == multiset{Store(m)};
  }

  lemma LastStepStores(s: State, m: MS.Message)
    requires Store(m) in s.tasks && m.id !in s.memory && !MS.Expired(m, 0)
    ensures var s' := Next(s, Continue(Store(m), 0));
            s'.aborted == s.aborted && m.id in s'.memory && IsChunkOf(s'.memory[m.id], m.mediaID) == MS.IsChunk(m)
  {
  }

  lemma RunOfSix(s: State, es: seq<Event>)
    requires |es| == 6
    ensures Run(s, es) == Next(Next(Next(Next(Next(Next(s, es[0]), es[1]), es[2]), es[3]), es[4]), es[5])
  {
    hide Next;
    assert es[..6] == es && forall i :: 0 < i <= 6 ==> es[..i][..i - 1] == es[..i - 1];
    assert Run(s, es[..1]) == Next(s, es[0]);
    assert Run(s, es[..2]) == Next(Run(s, es[..1]), es[1]);
    assert Run(s, es[..3]) == Next(Run(s, es[..2]), es[2]);
    assert Run(s, es[..4]) == Next(Run(s, es[..3]), es[3]);
    assert Run(s, es[..5]) == Next(Run(s, es[..4]), es[4]);
  }

  // ---------- how long a mark lasts ----------

  /** A cleanup takes away exactly the marks set more than a day before. */
  lemma CleanUpTakes(s: State, now: int, k: string)
    requires k in s.aborted
    ensures var s' := Next(s, CleanUp(now));
            && (k in s'.aborted <==> now - s.aborted[k] <= 86_400_000_000_000)
            && (k in s'.aborted ==> s'.aborted[k] == s.aborted[k])
            && s' == s.(aborted := s'.aborted)
  {
  }

  /** The event leaves a mark of k set at t or later alone for a day. */
  predicate WithinDay(e: Event, k: string, t: int) {
    match e
    case Unmark(k') => k' != k
    case CleanUp(now) => now <= t + 86_400_000_000_000
    case Continue(task, now) => task == Mark(k) ==> now >= t
    case _ => true
  }

  /** So a file marked at t stays marked for a day, whatever else happens, unless the receiver confirms it complete. */
  lemma {:induction false} MarkLastsADay(s: State, events: seq<Event>, k: string, t: int)
    requires k in s.aborted && s.aborted[k] >= t && forall e :: e in events ==> WithinDay(e, k, t)
    ensures k in Run(s, events).aborted && Run(s, events).aborted[k] >= t
    decreases |events|
  {
    if events != [] {
      MarkLastsADay(s, events[..|events| - 1], k, t);
      MarkStays(Run(s, events[..|events| - 1]), events[|events| - 1], k, t);
      hide Next;
    }
  }

  lemma MarkStays(s: State, e: Event, k: string, t: int)
    requires k in s.aborted && s.aborted[k] >= t && WithinDay(e, k, t)
    ensures k in Next(s, e).aborted && Next(s, e).aborted[k] >= t
  {
    hide MS.MapStep;
  }

  // ---------- handlers that run through ----------

  lemma {:induction false} RunConcat(s: State, a: seq<Event>, b: seq<Event>)
    ensures Run(s, a + b) == Run(Run(s, a), b)
    decreases |b|
  {
    if b == [] {
      assert a + b == a;
    } else {
      assert (a + b)[..|a + b| - 1] == a + b[..|b| - 1];
      RunConcat(s, a, b[..|b| - 1]);
    }
  }

  lemma RunOne(s: State, e: Event)
    ensures Run(s, [e]) == Next(s, e)
  {
    assert [e][..0] == [];
  }

  lemma ContinueOne(s: State, task: Task, now: int)
    ensures Run(s.(tasks := s.tasks + multiset{task}), [Continue(task, now)]) == Section(s, task, now)
  {
    var s0 := s.(tasks := s.tasks + multiset{task});
    RunOne(s0, Continue(task, now));
    assert s0.tasks - multiset{task} == s.tasks;
    hide Section;
  }

  lemma LastSections(s: State, k: string, now: int) returns (events: seq<Event>)
    ensures Run(s.(tasks := s.tasks + multiset{Delete(k, [])}), events) ==
            s.(accepted := s.accepted - {k}, aborted := s.aborted[k := now])
  {
    var s0, s1 := s.(tasks := s.tasks + multiset{Delete(k, [])}), s.(accepted := s.accepted - {k});
    ContinueOne(s, Delete(k, []), now);
    ContinueOne(s, DropCounts(k), now);
    ContinueOne(s1, Mark(k), now);
    hide Run;
    RunConcat(s0, [Continue(Delete(k, []), now)], [Continue(DropCounts(k), now)]);
    events := [Continue(Delete(k, []), now)] + [Continue(DropCounts(k), now)];
    RunConcat(s0, events, [Continue(Mark(k), now)]);
    events := events + [Continue(Mark(k), now)];
  }

  lemma {:induction false} DeletePass(s: State, k: string, ids: seq<string>, now: int) returns (events: seq<Event>)
    ensures Run(s.(tasks := s.tasks + multiset{Delete(k, ids)}), events) ==
            s.(memory := s.memory - (set id | id in ids), accepted := s.accepted - {k}, aborted := s.aborted[k := now])
    decreases |ids|
  {
    if ids == [] {
      events := LastSections(s, k, now);
      assert s.memory - {} == s.memory;
      hide Run;
    } else {
      var s1 := s.(memory := s.memory - {ids[0]});
      assert Section(s, Delete(k, ids), now) == s1.(tasks := s.tasks + multiset{Delete(k, ids[1..])});
      hide Run, Section;
      ContinueOne(s, Delete(k, ids), now);
      var rest := DeletePass(s1, k, ids[1..], now);
      RunConcat(s.(tasks := s.tasks + multiset{Delete(k, ids)}), [Continue(Delete(k, ids), now)], rest);
      events := [Continue(Delete(k, ids), now)] + rest;
      RestOf(s.memory, ids);
    }
  }

  lemma RestOf(memory: map<string, MS.Message>, ids: seq<string>)
    requires ids != []
    ensures memory - {ids[0]} - (set id | id in ids[1..]) == memory - (set id | id in ids)
  {
    assert (set id | id in ids) == {ids[0]} + set id | id in ids[1..];
  }

  /** An abort that runs through takes every message of the file, its count and nothing else, and marks the file. */
  lemma AbortPass(s: State, k: string, now: int) returns (events: seq<Event>)
    ensures Run(s, [AbortArrives(k)] + events) ==
            if k == "" then s
            else s.(memory := map id | id in s.memory && s.memory[id].mediaID != k :: s.memory[id],
                    accepted := s.accepted - {k}, aborted := s.aborted[k := now])
  {
    RunOne(s, AbortArrives(k));
    events := [];
    assert [AbortArrives(k)] + [] == [AbortArrives(k)];
    if k != "" {
      var ids := Ordered(Snapshot(s.memory, k));
      events := DeletePass(s, k, ids, now);
      RunConcat(s, [AbortArrives(k)], events);
      hide Run, Ordered, Section;
      assert s.memory - (set id | id in ids) == map id | id in s.memory && s.memory[id].mediaID != k :: s.memory[id];
    }
  }

  /** A handler that runs through: a chunk of a marked file changes nothing, any other message is handled to the end. */
  lemma ChunkPass(s: State, m: MS.Message, now: int) returns (events: seq<Event>)
    ensures var added := m.id !in s.memory && !(m.expiresAt.At? && now > m.expiresAt.ns);
            Run(s, [MessageArrives(m)] + events) ==
            if MS.IsChunk(m) && m.mediaID in s.aborted then s
            else s.(memory := if added then s.memory[m.id := MS.Normalised(m, now)] else s.memory,
                    accepted := if added && MS.IsChunk(m)
                                then s.accepted[m.mediaID := CountOf(s, m.mediaID) + 1] else s.accepted,
                    acked := s.acked + [m])
  {
    RunOne(s, MessageArrives(m));
    events := [];
    assert [MessageArrives(m)] + [] == [MessageArrives(m)];
    if !(MS.IsChunk(m) && m.mediaID in s.aborted) {
      events := HandledToTheEnd(s, m, now);
      RunConcat(s, [MessageArrives(m)], events);
    }
    hide Run, Section;
  }

  lemma HandledToTheEnd(s: State, m: MS.Message, now: int) returns (events: seq<Event>)
    ensures var added := m.id !in s.memory && !MS.Expired(m, now);
            Run(s.(tasks := s.tasks + multiset{Store(m)}), events) ==
            s.(memory := if added then s.memory[m.id := MS.Normalised(m, now)] else s.memory,
               accepted := if added && MS.IsChunk(m)
                           then s.accepted[m.mediaID := CountOf(s, m.mediaID) + 1] else s.accepted,
               acked := s.acked + [m])
  {
    var s0 := s.(tasks := s.tasks + multiset{Store(m)});
    var s1 := s.(memory := MS.MapStep(s.memory, MS.Op.Add(m, now)));
    ContinueOne(s, Store(m), now);
    if m.id !in s.memory && !MS.Expired(m, now) && MS.IsChunk(m) {
      events := CountedToTheEnd(s1, m, now);
    } else {
      ContinueOne(s1, Acknowledge(m), now);
      events := [Continue(Acknowledge(m), now)];
    }
    hide Run;
    RunConcat(s0, [Continue(Store(m), now)], events);
    events := [Continue(Store(m), now)] + events;
  }

  lemma CountedToTheEnd(s: State, m: MS.Message, now: int) returns (events: seq<Event>)
    ensures Run(s.(tasks := s.tasks + multiset{Count(m)}), events) ==
            s.(accepted := s.accepted[m.mediaID := CountOf(s, m.mediaID) + 1], acked := s.acked + [m])
  {
    var s1 := s.(accepted := s.accepted[m.mediaID := CountOf(s, m.mediaID) + 1]);
    assert Section(s, Count(m), now) == s1.(tasks := s.tasks + multiset{Acknowledge(m)});
    assert Section(s1, Acknowledge(m), now) == s1.(acked := s.acked + [m]);
    hide Run, Section;
    ContinueOne(s, Count(m), now);
    ContinueOne(s1, Acknowledge(m), now);
    RunConcat(s.(tasks := s.tasks + multiset{Count(m)}), [Continue(Count(m), now)], [Continue(Acknowledge(m), now)]);
    events := [Continue(Count(m), now)] + [Continue(Acknowledge(m), now)];
  }

  /** The receiver's confirmation lifts one mark only, and then chunks of the file are let in again. */
  lemma UnmarkReopens(s: State, k: string, m: MS.Message)
    requires IsChunkOf(m, k)
    ensures var s' := Next(s, Unmark(k));
            && k !in s'.aborted && (forall j :: j != k ==> (j in s'.aborted <==> j in s.aborted))
            && Store(m) in Next(s', MessageArrives(m)).tasks
  {
  }

  // ---------- the store of aborted files ----------

  class AbortedStore {
    var aborted: map<string, int>

    method Add(mediaID: string, now: int, saves: bool) returns (ok: bool)
      modifies this
      ensures aborted == if mediaID == "" then old(aborted) else old(aborted)[mediaID := now]
      ensures ok <==> mediaID != "" && saves
    {
      if mediaID == "" {
        return false;
      }
      aborted := aborted[mediaID := now];
      return saves;
    }

    method Remove(mediaID: string, saves: bool) returns (ok: bool)
      modifies this
      ensures aborted == old(aborted) - (if mediaID == "" then {} else {mediaID})
      ensures ok <==> mediaID != "" && (saves || mediaID !in old(aborted))
    {
      if mediaID == "" {
        return false;
      }
      if mediaID !in aborted {
        return true;
      }
      aborted := aborted - {mediaID};
      return saves;
    }

    /** Drops exactly the marks older than a day; the order in which the map is walked does not matter. */
    method CleanupExpired(now: int) returns (removed: nat)
      modifies this
      ensures aborted == Live(old(aborted), now)
      ensures forall k :: k in aborted <==> k in old(aborted) && now - old(aborted)[k] <= 86_400_000_000_000
      ensures removed == |old(aborted)| - |aborted|
    {
      var todo := aborted.Keys;
      removed := 0;
      while todo != {}
        invariant todo <= aborted.Keys
        invariant forall k :: k in aborted ==> k in old(aborted) && aborted[k] == old(aborted)[k]
        invariant forall k :: k in old(aborted) && (k in todo || now - old(aborted)[k] <= ABORTED_TTL) ==> k in aborted
        invariant forall k :: k in aborted && k !in todo ==> now - aborted[k] <= ABORTED_TTL
        invariant removed == |old(aborted)| - |aborted|
        decreases |todo|
      {
        var k :| k in todo;
        todo := todo - {k};
        if now - aborted[k] > ABORTED_TTL {
          RemovedSize(aborted, k);
          aborted := aborted - {k};
          removed := removed + 1;
        }
      }
    }
  }

  lemma RemovedSize(m: map<string, int>, k: string)
    requires k in m
    ensures |m - {k}| == |m| - 1
  {
    assert (m - {k}).Keys == m.Keys - {k};
    assert |m.Keys| == |m| && |(m - {k}).Keys| == |m - {k}|;
  }
}
