/**
 * Batching of delivery acknowledgements (node/node_service.go queueDelivered, flushDelivered).
 *
 * A slot is what the node keeps for one peer: the refs to acknowledge, the peer's entry in the timer map,
 * and what the Go runtime still owes: armed timers, timer callbacks that have started, flushes that have
 * been called but not yet taken the lock, armed 5-second retries, and batches being sent. Each event is one
 * section under pendingDeliveredMu, or one act of the runtime; any interleaving is a sequence of events.
 */
module AckBatching {
  import opened Common

  const FLUSH_COUNT := 10

  datatype Slot = Slot(
    pending: seq<string>,
    timer: Option<nat>,
    armed: set<nat>,
    fired: set<nat>,
    flushes: nat,
    retries: nat,
    inFlight: seq<seq<string>>,
    sent: set<string>,
    queued: set<string>,
    nextTimer: nat)

  const EMPTY_SLOT := Slot([], None, {}, {}, 0, 0, [], {}, {}, 0)

  datatype Event =
    | Queue(ref: string)      // queueDelivered
    | TimerFires(id: nat)     // the runtime starts a 2-second timer's callback
    | CallbackRuns(id: nat)   // the callback's own section, after which it calls flushDelivered
    | FlushCalled             // a flush asked for directly, as SendFileComplete does
    | FlushTakes              // flushDelivered's first section
    | SendSucceeds(i: nat)
    | SendFails(i: nat)       // flushDelivered's second section and its 5-second timer
    | RetryFires

  // ---------- the sections as functions of the buffer ----------

  datatype Action = Nothing | Arm | Flush

  function QueueAction(pending: seq<string>, hasTimer: bool, ref: string): Action {
    if ref in pending then Nothing
    else if |pending| + 1 >= FLUSH_COUNT then Flush
    else if hasTimer then Nothing
    else Arm
  }

  function QueuedPending(pending: seq<string>, ref: string): seq<string> {
    if ref in pending then pending else pending + [ref]
  }

  /** A failed batch goes back behind what has been queued since, without duplicates. */
  function Merged(pending: seq<string>, refs: seq<string>): seq<string>
    decreases |refs|
  {
    if refs == [] then pending else QueuedPending(Merged(pending, refs[..|refs| - 1]), refs[|refs| - 1])
  }

  /** Stopping a timer keeps its callback from starting; one that has started runs on. */
  function Stopped(s: Slot): Slot {
    s.(timer := None, armed := if s.timer.Some? then s.armed - {s.timer.value} else s.armed)
  }

  function Next(s: Slot, e: Event): Slot {
    match e
    case Queue(ref) =>
      if ref == "" then s
      else
        var s' := s.(pending := QueuedPending(s.pending, ref), queued := s.queued + {ref});
        (match QueueAction(s.pending, s.timer.Some?, ref)
         case Nothing => s'
         case Flush => Stopped(s').(flushes := s.flushes + 1)
         case Arm => s'.(timer := Some(s.nextTimer), armed := s.armed + {s.nextTimer}, nextTimer := s.nextTimer + 1))
    case TimerFires(id) =>
      if id in s.armed then s.(armed := s.armed - {id}, fired := s.fired + {id}) else s
    case CallbackRuns(id) =>
      if id in s.fired then s.(fired := s.fired - {id}, timer := None, flushes := s.flushes + 1) else s
    case FlushCalled => s.(flushes := s.flushes + 1)
    case FlushTakes =>
      if s.flushes == 0 then s
      else if s.pending == [] then Stopped(s).(flushes := s.flushes - 1)
      else Stopped(s).(flushes := s.flushes - 1, inFlight := s.inFlight + [s.pending], pending := [])
    case SendSucceeds(i) =>
      if i < |s.inFlight| then
        s.(inFlight := s.inFlight[..i] + s.inFlight[i + 1..], sent := s.sent + Elements(s.inFlight[i]))
      else s
    case SendFails(i) =>
      if i < |s.inFlight| then
        s.(inFlight := s.inFlight[..i] + s.inFlight[i + 1..],
           pending := Merged(s.pending, s.inFlight[i]),
           retries := s.retries + 1)
      else s
    case RetryFires =>
      if s.retries > 0 then s.(retries := s.retries - 1, flushes := s.flushes + 1) else s
  }

  function Run(s: Slot, events: seq<Event>): Slot
    decreases |events|
  {
    if events == [] then s else Next(Run(s, events[..|events| - 1]), events[|events| - 1])
  }

  function Elements(refs: seq<string>): set<string> {
    set r | r in refs
  }

  predicate NoDuplicates(refs: seq<string>) {
    forall i, j :: 0 <= i < j < |refs| ==> refs[i] != refs[j]
  }

  function InFlightRefs(batches: seq<seq<string>>): set<string>
    decreases |batches|
  {
    if batches == [] then {} else InFlightRefs(batches[..|batches| - 1]) + Elements(batches[|batches| - 1])
  }

  // ---------- the promises ----------

  /** Something outstanding will flush this slot. */
  predicate WakeupDue(s: Slot) {
    s.armed != {} || s.fired != {} || s.flushes > 0 || s.retries > 0
  }

  ghost predicate Safe(s: Slot) {
    && (s.pending != [] ==> WakeupDue(s))
    && s.queued == Elements(s.pending) + InFlightRefs(s.inFlight) + s.sent
    && NoDuplicates(s.pending)
    && (forall b :: b in s.inFlight ==> NoDuplicates(b))
    // A timer in the map has not finished its callback: this is what lets queueDelivered rely on it.
    && (s.timer.Some? ==> s.timer.value in s.armed + s.fired)
    && s.armed !! s.fired
    && (forall id :: id in s.armed ==> id < s.nextTimer)
    && (forall id :: id in s.fired ==> id < s.nextTimer)
  }

  lemma ElementsSnoc(refs: seq<string>, r: string)
    ensures Elements(refs + [r]) == Elements(refs) + {r}
  {
  }

  lemma {:induction false} MergedElements(pending: seq<string>, refs: seq<string>)
    requires NoDuplicates(pending)
    ensures Elements(Merged(pending, refs)) == Elements(pending) + Elements(refs)
    ensures NoDuplicates(Merged(pending, refs))
    ensures pending <= Merged(pending, refs)
    decreases |refs|
  {
    if refs != [] {
      var front, r := refs[..|refs| - 1], refs[|refs| - 1];
      MergedElements(pending, front);
      assert refs == front + [r];
      ElementsSnoc(front, r);
      ElementsSnoc(Merged(pending, front), r);
    }
  }

  lemma {:induction false} InFlightSnoc(batches: seq<seq<string>>, b: seq<string>)
    ensures InFlightRefs(batches + [b]) == InFlightRefs(batches) + Elements(b)
  {
    assert (batches + [b])[..|batches|] == batches;
  }

  lemma {:induction false} InFlightWithout(batches: seq<seq<string>>, i: nat)
    requires i < |batches|
    ensures InFlightRefs(batches) == InFlightRefs(batches[..i] + batches[i + 1..]) + Elements(batches[i])
    decreases |batches|
  {
    var n := |batches| - 1;
    var rest := batches[..i] + batches[i + 1..];
    if i == n {
      assert rest == batches[..n];
    } else {
      InFlightWithout(batches[..n], i);
      assert rest[..n - 1] == batches[..n][..i] + batches[..n][i + 1..];
      assert rest[n - 1] == batches[n];
    }
  }

  lemma QueueKeepsSafe(s: Slot, ref: string)
    requires Safe(s)
    ensures Safe(Next(s, Queue(ref)))
  {
    ElementsSnoc(s.pending, ref);
    var s' := Next(s, Queue(ref));
    assert ref != "" ==> Elements(s'.pending) == Elements(s.pending) + {ref};
  }

  lemma FlushTakesKeepsSafe(s: Slot)
    requires Safe(s)
    ensures Safe(Next(s, FlushTakes))
  {
    InFlightSnoc(s.inFlight, s.pending);
    assert Elements([]) == {};
  }

  /** Taking one batch out of flight leaves the others, each without duplicates. */
  lemma OthersInFlight(s: Slot, i: nat)
    requires Safe(s) && i < |s.inFlight|
    ensures var rest := s.inFlight[..i] + s.inFlight[i + 1..];
            && s.queued == Elements(s.pending) + (InFlightRefs(rest) + Elements(s.inFlight[i])) + s.sent
            && (forall b :: b in rest ==> NoDuplicates(b))
  {
    InFlightWithout(s.inFlight, i);
    var rest := s.inFlight[..i] + s.inFlight[i + 1..];
    forall b | b in rest ensures NoDuplicates(b) {
      assert b in s.inFlight;
    }
    hide NoDuplicates, Elements, InFlightRefs;
  }

  lemma SuccessKeepsSafe(s: Slot, i: nat)
    requires Safe(s) && i < |s.inFlight|
    ensures Safe(Next(s, SendSucceeds(i)))
  {
    OthersInFlight(s, i);
    hide NoDuplicates, Elements, InFlightRefs;
  }

  lemma FailureKeepsSafe(s: Slot, i: nat)
    requires Safe(s) && i < |s.inFlight|
    ensures Safe(Next(s, SendFails(i)))
  {
    OthersInFlight(s, i);
    MergedElements(s.pending, s.inFlight[i]);
    hide NoDuplicates, Elements, InFlightRefs, Merged;
  }

  lemma NextKeepsSafe(s: Slot, e: Event)
    requires Safe(s)
    ensures Safe(Next(s, e))
  {
    match e
    case Queue(ref) => QueueKeepsSafe(s, ref);
    case FlushTakes => FlushTakesKeepsSafe(s);
    case SendSucceeds(i) => if i < |s.inFlight| { SuccessKeepsSafe(s, i); }
    case SendFails(i) => if i < |s.inFlight| { FailureKeepsSafe(s, i); }
    case TimerFires(id) =>
    case CallbackRuns(id) =>
    case FlushCalled =>
    case RetryFires =>
  }

  /**
   * In every interleaving: a non-empty list always has a flush coming, every ref ever queued is pending, in
   * flight or sent, and no list holds a ref twice.
   */
  lemma {:induction false} RunKeepsSafe(s: Slot, events: seq<Event>)
    requires Safe(s)
    ensures Safe(Run(s, events))
    decreases |events|
  {
    if events != [] {
      RunKeepsSafe(s, events[..|events| - 1]);
      NextKeepsSafe(Run(s, events[..|events| - 1]), events[|events| - 1]);
    }
  }

  lemma EmptySlotSafe()
    ensures Safe(EMPTY_SLOT)
  {
    assert Elements([]) == {};
  }

  lemma RunOfThree(s: Slot, e1: Event, e2: Event, e3: Event)
    ensures Run(s, [e1]) == Next(s, e1)
    ensures Run(s, [e1, e2]) == Next(Next(s, e1), e2)
    ensures Run(s, [e1, e2, e3]) == Next(Next(Next(s, e1), e2), e3)
  {
    assert [e1][..0] == [] && [e1, e2][..1] == [e1] && [e1, e2, e3][..2] == [e1, e2];
  }

  /**
   * The wakeup works: from any safe slot with something pending, at most three acts of the runtime, none of
   * them a new ref, put the whole list in flight.
   */
  lemma WakeupDelivers(s: Slot) returns (events: seq<Event>)
    requires Safe(s) && s.pending != []
    ensures |events| <= 3 && forall e :: e in events ==> !e.Queue?
    ensures Run(s, events).pending == [] && Run(s, events).inFlight == s.inFlight + [s.pending]
  {
    if s.flushes > 0 {
      events := [FlushTakes];
      RunOfThree(s, FlushTakes, FlushTakes, FlushTakes);
    } else if s.retries > 0 {
      events := [RetryFires, FlushTakes];
      RunOfThree(s, RetryFires, FlushTakes, FlushTakes);
    } else if s.fired != {} {
      var id :| id in s.fired;
      events := [CallbackRuns(id), FlushTakes];
      RunOfThree(s, CallbackRuns(id), FlushTakes, FlushTakes);
    } else {
      var id :| id in s.armed;
      events := [TimerFires(id), CallbackRuns(id), FlushTakes];
      RunOfThree(s, TimerFires(id), CallbackRuns(id), FlushTakes);
    }
  }

  // ---------- how long refs wait ----------

  /** Ten refs or more never wait for the 2-second timer: a flush is due, or a failed batch is about to be retried. */
  predicate Prompt(s: Slot) {
    |s.pending| >= 10 ==> s.flushes > 0 || s.retries > 0
  }

  lemma NextKeepsPrompt(s: Slot, e: Event)
    requires Prompt(s)
    ensures Prompt(Next(s, e))
  {
    hide Merged;
  }

  lemma {:induction false} RunKeepsPrompt(events: seq<Event>)
    ensures Prompt(Run(EMPTY_SLOT, events))
    decreases |events|
  {
    if events != [] {
      RunKeepsPrompt(events[..|events| - 1]);
      NextKeepsPrompt(Run(EMPTY_SLOT, events[..|events| - 1]), events[|events| - 1]);
    }
  }

  function Queues(refs: seq<string>): (events: seq<Event>)
    ensures |events| == |refs| && forall i :: 0 <= i < |refs| ==> events[i] == Queue(refs[i])
  {
    seq(|refs|, i requires 0 <= i < |refs| => Queue(refs[i]))
  }

  /** Nothing is pending, and nothing outstanding. */
  predicate AtRest(s: Slot) {
    s.pending == [] && s.timer.None? && s.armed == {} && s.fired == {} && s.flushes == 0 && s.retries == 0
    && s.inFlight == []
  }

  /** The slot, at rest before, with refs queued: up to nine wait for one timer, ten have called one flush. */
  function Queued(s: Slot, refs: seq<string>): Slot {
    s.(pending := refs, queued := s.queued + Elements(refs), nextTimer := s.nextTimer + 1,
       timer := if |refs| < 10 then Some(s.nextTimer) else None,
       armed := if |refs| < 10 then {s.nextTimer} else {},
       flushes := if |refs| < 10 then 0 else 1)
  }

  lemma QueueFirst(s: Slot, ref: string)
    requires AtRest(s) && ref != ""
    ensures Next(s, Queue(ref)) == Queued(s, [ref])
  {
    assert Elements([ref]) == {ref};
  }

  lemma QueueNext(s: Slot, front: seq<string>, ref: string)
    requires AtRest(s) && 0 < |front| < 10 && ref != "" && ref !in front
    ensures Next(Queued(s, front), Queue(ref)) == Queued(s, front + [ref])
  {
    ElementsSnoc(front, ref);
    assert s.queued + Elements(front) + {ref} == s.queued + Elements(front + [ref]);
    hide Elements;
  }

  lemma {:induction false} NineWaitTenFlush(s: Slot, refs: seq<string>)
    requires AtRest(s) && 0 < |refs| <= 10 && NoDuplicates(refs) && "" !in refs
    ensures Run(s, Queues(refs)) == Queued(s, refs)
    decreases |refs|
  {
    var n := |refs| - 1;
    var front := refs[..n];
    assert Queues(refs)[..n] == Queues(front);
    assert refs == front + [refs[n]] && refs[n] !in front && NoDuplicates(front);
    hide Next, Queued, NoDuplicates;
    if n > 0 {
      NineWaitTenFlush(s, front);
      QueueNext(s, front, refs[n]);
    } else {
      assert Run(s, Queues(front)) == s;
      QueueFirst(s, refs[0]);
    }
  }

  /** A flush that finds nothing pending is used up, and leaves no trace. */
  lemma IdleFlush(s: Slot)
    requires AtRest(s)
    ensures Next(Next(s, FlushCalled), FlushTakes) == s
  {
  }

  /** Queueing a ref again while it is pending changes nothing. */
  lemma QueuedTwice(s: Slot, ref: string)
    requires ref in s.pending && ref in s.queued
    ensures Next(s, Queue(ref)) == s
  {
    assert s.queued + {ref} == s.queued;
  }

  /** One refs list through its timer, a send that fails once or not at all, and the retry: then all is at rest. */
  function Cycle(id: nat, fails: bool): seq<Event> {
    [TimerFires(id), CallbackRuns(id), FlushTakes]
    + (if fails then [SendFails(0), RetryFires, FlushTakes, SendSucceeds(0)] else [SendSucceeds(0)])
  }

  lemma CycleRests(s: Slot, refs: seq<string>, id: nat, fails: bool)
    requires AtRest(s) && refs != [] && NoDuplicates(refs)
    ensures Run(s.(pending := refs, timer := Some(id), armed := {id}), Cycle(id, fails)) ==
            s.(sent := s.sent + Elements(refs))
  {
    var s0 := s.(pending := refs, timer := Some(id), armed := {id});
    var es := Cycle(id, fails);
    var s1 := s.(pending := refs, timer := Some(id), fired := {id});
    var s2 := s.(pending := refs, flushes := 1);
    var s3 := s.(inFlight := [refs]);
    assert {id} - {id} == {};
    assert Next(s0, TimerFires(id)) == s1 && Next(s1, CallbackRuns(id)) == s2 && Next(s2, FlushTakes) == s3;
    assert [refs][..0] + [refs][1..] == [];
    assert Next(s3, SendSucceeds(0)) == s.(sent := s.sent + Elements(refs));
    hide Next;
    RunOfThree(s0, TimerFires(id), CallbackRuns(id), FlushTakes);
    if fails {
      FailedRests(s, refs);
      RunConcat(s0, [TimerFires(id), CallbackRuns(id), FlushTakes],
                [SendFails(0), RetryFires, FlushTakes, SendSucceeds(0)]);
    } else {
      RunConcat(s0, [TimerFires(id), CallbackRuns(id), FlushTakes], [SendSucceeds(0)]);
      RunOfThree(s3, SendSucceeds(0), SendSucceeds(0), SendSucceeds(0));
    }
  }

  lemma FailedRests(s: Slot, refs: seq<string>)
    requires AtRest(s) && refs != [] && NoDuplicates(refs)
    ensures Run(s.(inFlight := [refs]), [SendFails(0), RetryFires, FlushTakes, SendSucceeds(0)]) ==
            s.(sent := s.sent + Elements(refs))
  {
    var s0, s3 := s.(inFlight := [refs]), s.(inFlight := [refs]);
    MergedIntoNone(refs);
    assert [refs][..0] + [refs][1..] == [];
    var s1, s2 := s.(pending := refs, retries := 1), s.(pending := refs, flushes := 1);
    assert Next(s0, SendFails(0)) == s1 && Next(s1, RetryFires) == s2 && Next(s2, FlushTakes) == s3;
    assert Next(s3, SendSucceeds(0)) == s.(sent := s.sent + Elements(refs));
    hide Next;
    RunOfThree(s0, SendFails(0), RetryFires, FlushTakes);
    RunConcat(s0, [SendFails(0), RetryFires, FlushTakes], [SendSucceeds(0)]);
    RunOfThree(s3, SendSucceeds(0), SendSucceeds(0), SendSucceeds(0));
    assert [SendFails(0), RetryFires, FlushTakes] + [SendSucceeds(0)]
        == [SendFails(0), RetryFires, FlushTakes, SendSucceeds(0)];
  }

  lemma {:induction false} MergedIntoNone(refs: seq<string>)
    requires NoDuplicates(refs)
    ensures Merged([], refs) == refs
    decreases |refs|
  {
    if refs != [] {
      MergedIntoNone(refs[..|refs| - 1]);
      assert refs == refs[..|refs| - 1] + [refs[|refs| - 1]];
    }
  }

  lemma {:induction false} RunConcat(s: Slot, a: seq<Event>, b: seq<Event>)
    ensures Run(s, a + b) == Run(Run(s, a), b)
    decreases |b|
  {
    if b == [] {
      assert a + b == a;
    } else {
      assert (a + b)[..|a + b| - 1] == a + b[..|b| - 1];
      RunConcat(s, a, b[..|b| - 1]);
    }
  }

  // ---------- all peers ----------

  type Slots = map<string, Slot>

  function SlotOf(m: Slots, peer: string): Slot {
    if peer in m then m[peer] else EMPTY_SLOT
  }

  /** queueDelivered ignores an empty peer; every section touches one peer's entries only. */
  function NodeNext(m: Slots, peer: string, e: Event): Slots {
    if peer == "" && e.Queue? then m else m[peer := Next(SlotOf(m, peer), e)]
  }

  function NodeRun(m: Slots, events: seq<(string, Event)>): Slots
    decreases |events|
  {
    if events == [] then m
    else NodeNext(NodeRun(m, events[..|events| - 1]), events[|events| - 1].0, events[|events| - 1].1)
  }

  /** The events of one peer. */
  function EventsOf(events: seq<(string, Event)>, peer: string): seq<Event> {
    if events == [] then []
    else
      var front, last := EventsOf(events[..|events| - 1], peer), events[|events| - 1];
      if last.0 == peer then front + [last.1] else front
  }

  /** Peers do not touch each other: a peer's slot is what its own events alone have made of it. */
  lemma {:induction false} SlotsAreIndependent(events: seq<(string, Event)>, peer: string)
    requires peer != ""
    ensures SlotOf(NodeRun(map[], events), peer) == Run(EMPTY_SLOT, EventsOf(events, peer))
    decreases |events|
  {
    if events != [] {
      var front, last := events[..|events| - 1], events[|events| - 1];
      SlotsAreIndependent(front, peer);
      hide Next;
      var own := EventsOf(front, peer);
      assert (own + [last.1])[..|own|] == own;
    }
  }

  lemma {:induction false} NodeRunKeepsSafe(events: seq<(string, Event)>, peer: string)
    ensures Safe(SlotOf(NodeRun(map[], events), peer))
    decreases |events|
  {
    EmptySlotSafe();
    if events != [] {
      var front, last := events[..|events| - 1], events[|events| - 1];
      NodeRunKeepsSafe(front, peer);
      NextKeepsSafe(SlotOf(NodeRun(map[], front), peer), last.1);
    }
  }

  // ---------- the buffer ----------

  /** The fields under pendingDeliveredMu. Arming and stopping timers is what the results ask the caller to do. */
  class DeliveredBuffer {
    var pendingDelivered: map<string, seq<string>>
    var timers: map<string, nat>

    constructor ()
      ensures pendingDelivered == map[] && timers == map[]
    {
      pendingDelivered, timers := map[], map[];
    }

    function Pending(peer: string): seq<string>
      reads this
    {
      if peer in pendingDelivered then pendingDelivered[peer] else []
    }

    function TimerOf(peer: string): Option<nat>
      reads this
    {
      if peer in timers then Some(timers[peer]) else None
    }

    /** queueDelivered's section: afterwards the peer's fields are those of the slot after Queue. */
    method Queue(peer: string, ref: string, freshTimer: nat) returns (action: Action)
      modifies this
      ensures peer == "" || ref == "" ==>
                action == Nothing && pendingDelivered == old(pendingDelivered) && timers == old(timers)
      ensures peer != "" && ref != "" ==>
                && action == QueueAction(old(Pending(peer)), peer in old(timers), ref)
                && Pending(peer) == QueuedPending(old(Pending(peer)), ref)
                && TimerOf(peer) == (match action
                                     case Nothing => old(TimerOf(peer))
                                     case Arm => Some(freshTimer)
                                     case Flush => None)
      ensures forall p :: p != peer ==> Pending(p) == old(Pending(p)) && TimerOf(p) == old(TimerOf(p))
    {
      if peer == "" || ref == "" {
        return Nothing;
      }
      var refs := Pending(peer);
      for i := 0 to |refs|
        invariant ref !in refs[..i]
      {
        if refs[i] == ref {
          return Nothing;
        }
      }
      assert refs[..|refs|] == refs;
      pendingDelivered := pendingDelivered[peer := refs + [ref]];
      if |pendingDelivered[peer]| >= FLUSH_COUNT {
        timers := timers - {peer};
        return Flush;
      }
      if peer !in timers {
        timers := timers[peer := freshTimer];
        return Arm;
      }
      return Nothing;
    }

    /** flushDelivered's first section: the timer to stop and the batch to send, empty when there is none. */
    method Take(peer: string) returns (stop: Option<nat>, refs: seq<string>)
      modifies this
      ensures stop == old(TimerOf(peer)) && refs == old(Pending(peer))
      ensures Pending(peer) == [] && TimerOf(peer) == None
      ensures forall p :: p != peer ==> Pending(p) == old(Pending(p)) && TimerOf(p) == old(TimerOf(p))
    {
      stop := TimerOf(peer);
      timers := timers - {peer};
      refs := Pending(peer);
      if |refs| > 0 {
        pendingDelivered := pendingDelivered - {peer};
      }
    }

    /** flushDelivered's second section, after a send that failed. */
    method PutBack(peer: string, refs: seq<string>)
      modifies this`pendingDelivered
      ensures Pending(peer) == Merged(old(Pending(peer)), refs)
      ensures forall p :: p != peer ==> Pending(p) == old(Pending(p))
    {
      var existing := Elements(Pending(peer));
      for i := 0 to |refs|
        invariant Pending(peer) == Merged(old(Pending(peer)), refs[..i])
        invariant existing == Elements(Pending(peer))
        invariant forall p :: p != peer ==> Pending(p) == old(Pending(p))
      {
        assert refs[..i + 1][..i] == refs[..i];
        if refs[i] !in existing {
          pendingDelivered := pendingDelivered[peer := Pending(peer) + [refs[i]]];
          existing := existing + {refs[i]};
        }
      }
      assert refs[..|refs|] == refs;
    }
  }
}
