/**
 * Resending unacknowledged chunks (node/node_files.go): the sending worker, the retry pass and acknowledgements all
 * change one map; each section that holds its lock is one step. Times are seconds.
 */
module Retry {
  import opened Common
  import opened ChunkCounts

  const BACKOFF: seq<int> := [30, 60, 120, 300, 600, 600, 600, 600, 600, 600]
  const MAX_ATTEMPTS: nat := 10
  const MAX_FAILED_RESTORES: nat := 3

  /** What restoreChunkMessage needs is in file; the empty file is a zero entry, which cannot be restored. */
  datatype Info = Info(file: string, attempts: nat, lastSent: int)

  type Unacked = map<string, Info>

  // ---------- the sections ----------

  /** The worker sends a chunk: a new entry starts with no attempts, a known one keeps them. */
  function Sent(u: Unacked, id: string, file: string, now: int): Unacked {
    u[id := Info(file, if id in u then u[id].attempts else 0, now)]
  }

  predicate GivenUp(info: Info) {
    info.attempts >= MAX_ATTEMPTS
  }

  predicate Due(info: Info, now: int) {
    !GivenUp(info) && now - info.lastSent >= BACKOFF[info.attempts]
  }

  /** The first section of a pass: entries out of attempts are dropped. */
  function Swept(u: Unacked): Unacked {
    map id | id in u && !GivenUp(u[id]) :: u[id]
  }

  /** The chunk was put on the queue again. */
  function Requeued(u: Unacked, id: string, now: int): Unacked {
    if id in u then u[id := u[id].(attempts := u[id].attempts + 1, lastSent := now)] else u
  }

  /** The chunk could not be read again; an entry gone meanwhile is written back as a zero entry. */
  function RestoreFailed(u: Unacked, id: string, now: int): Unacked {
    var info := if id in u then u[id] else Info("", 0, 0);
    if info.attempts + 1 >= MAX_FAILED_RESTORES then u - {id}
    else u[id := info.(attempts := info.attempts + 1, lastSent := now)]
  }

  /** The entries of a file are dropped: its count has reached the total, or it was declined. */
  function WithoutFile(u: Unacked, file: string): Unacked {
    map id | id in u && u[id].file != file :: u[id]
  }

  predicate Distinct(ids: seq<string>) {
    forall i, j :: 0 <= i < j < |ids| ==> ids[i] != ids[j]
  }

  /** The ids of the entries that are due, each once, in some order. */
  predicate IsDueList(u: Unacked, due: seq<string>, now: int) {
    && Distinct(due)
    && (forall id :: id in due ==> id in u && Due(u[id], now))
    && (forall id :: id in u && Due(u[id], now) ==> id in due)
  }

  /** An entry is collected exactly when the wait its attempts ask for is over, and never after ten attempts. */
  lemma DueAfterWait(u: Unacked, due: seq<string>, now: int, id: string)
    requires IsDueList(u, due, now) && id in u
    ensures id in due <==>
              && u[id].attempts < 10
              && now - u[id].lastSent >= [30, 60, 120, 300, 600, 600, 600, 600, 600, 600][u[id].attempts]
    ensures id in Swept(u) <==> u[id].attempts < 10
  {
  }

  class RetryMap {
    var unacked: Unacked

    method ChunkSent(id: string, file: string, now: int)
      modifies this
      ensures unacked == Sent(old(unacked), id, file, now)
    {
      var attempts := if id in unacked then unacked[id].attempts else 0;
      unacked := unacked[id := Info(file, attempts, now)];
    }

    /** Walks the map in any order: drops what is out of attempts and collects what is due. */
    method Collect(now: int) returns (due: seq<string>)
      modifies this
      ensures unacked == Swept(old(unacked))
      ensures IsDueList(old(unacked), due, now)
      ensures forall id :: id in old(unacked) ==>
                var info := old(unacked)[id];
                && (id in unacked <==> info.attempts < 10)
                && (id in due <==>
                      && info.attempts < 10
                      && now - info.lastSent >= [30, 60, 120, 300, 600, 600, 600, 600, 600, 600][info.attempts])
    {
      hide Due;
      var todo := unacked.Keys;
      due := [];
      while todo != {}
        invariant todo <= old(unacked).Keys
        invariant forall id :: id in unacked <==> id in old(unacked) && (id in todo || !GivenUp(old(unacked)[id]))
        invariant forall id :: id in unacked ==> unacked[id] == old(unacked)[id]
        invariant forall id :: id in due <==> id in old(unacked) && id !in todo && Due(old(unacked)[id], now)
        invariant Distinct(due)
        decreases |todo|
      {
        var id :| id in todo;
        todo := todo - {id};
        var info := unacked[id];
        DueIsNotGivenUp(info, now);
        if GivenUp(info) {
          unacked := unacked - {id};
        } else if Due(info, now) {
          due := due + [id];
        }
      }
      assert unacked == Swept(old(unacked));
      forall id | id in old(unacked)
        ensures var info := old(unacked)[id];
                && (id in unacked <==> info.attempts < 10)
                && (id in due <==>
                      && info.attempts < 10
                      && now - info.lastSent >= [30, 60, 120, 300, 600, 600, 600, 600, 600, 600][info.attempts])
      {
        DueAfterWait(old(unacked), due, now, id);
      }
    }

    method AfterRequeue(id: string, now: int)
      modifies this
      ensures unacked == Requeued(old(unacked), id, now)
    {
      if id in unacked {
        unacked := unacked[id := unacked[id].(attempts := unacked[id].attempts + 1, lastSent := now)];
      }
    }

    method AfterFailedRestore(id: string, now: int)
      modifies this
      ensures unacked == RestoreFailed(old(unacked), id, now)
    {
      var info := if id in unacked then unacked[id] else Info("", 0, 0);
      info := info.(attempts := info.attempts + 1);
      if info.attempts >= MAX_FAILED_RESTORES {
        unacked := unacked - {id};
      } else {
        unacked := unacked[id := info.(lastSent := now)];
      }
    }

    /** The sweep of a file whose count is full, or that was declined; it walks the map in any order. */
    method DropFile(file: string)
      modifies this
      ensures unacked == WithoutFile(old(unacked), file)
    {
      var todo := unacked.Keys;
      while todo != {}
        invariant todo <= old(unacked).Keys
        invariant forall id :: id in unacked <==> id in old(unacked) && (id in todo || old(unacked)[id].file != file)
        invariant forall id :: id in unacked ==> unacked[id] == old(unacked)[id]
        decreases |todo|
      {
        var id :| id in todo;
        todo := todo - {id};
        if unacked[id].file == file {
          unacked := unacked - {id};
        }
      }
    }
  }

  lemma DueIsNotGivenUp(info: Info, now: int)
    ensures Due(info, now) ==> !GivenUp(info)
  {
  }

  // ---------- runs ----------

  /** What the handler of an acknowledgement, or of a declined file, still has to do. */
  datatype Task =
    | CountAck(id: string)
    | SweepFile(file: string)

  /**
   * plan: the chunk each id stands for; held: the chunk messages in the sender's store; todo: the ids the running
   * pass has still to handle. acked, counted and declined record what has happened; the code does not keep them.
   */
  datatype State = State(
    plan: Plan,
    unacked: Unacked,
    counts: Counts,
    held: set<string>,
    tasks: multiset<Task>,
    todo: seq<string>,
    clock: int,
    acked: set<string>,
    counted: set<string>,
    declined: set<string>)

  datatype Event =
    | Send(id: string, now: int)
    // resumeFile, or a batch of texts, writes a new entry over any old one.
    | Insert(id: string, now: int)
    | Ack(id: string, now: int)
    | Count(id: string, now: int)
    | Sweep(file: string, now: int)
    | Decline(file: string, now: int)
    // A completed or resumed file sets the count; a deleted one forgets it.
    | SetCount(file: string, count: Option<nat>, now: int)
    | Hold(id: string, now: int)
    | Drop(id: string, now: int)
    | PassStarts(due: seq<string>, now: int)
    | Requeue(now: int)
    | RestoreFails(now: int)
    | Defer(now: int)

  function FileOf(plan: Plan, id: string): string {
    if id in plan then plan[id].file else ""
  }

  predicate Enabled(s: State, e: Event) {
    && e.now >= s.clock
    && match e
       case Count(id, _) => CountAck(id) in s.tasks
       case Sweep(file, _) => SweepFile(file) in s.tasks
       case Decline(file, _) => file != ""
       case Hold(id, _) => id in s.plan
       // One loop runs the passes, one after the other.
       case PassStarts(due, now) => s.todo == [] && IsDueList(s.unacked, due, now)
       case Requeue(_) => s.todo != []
       case RestoreFails(_) => s.todo != []
       case Defer(_) => s.todo != []
       case _ => true
  }

  function Next(s: State, e: Event): State {
    if !Enabled(s, e) then s else Step(s, e).(clock := e.now)
  }

  /** Each case is one section under a lock. */
  function Step(s: State, e: Event): State
    requires Enabled(s, e)
  {
    match e
    case Send(id, now) => s.(unacked := Sent(s.unacked, id, FileOf(s.plan, id), now))
    case Insert(id, now) => s.(unacked := s.unacked[id := Info(FileOf(s.plan, id), 0, now)])
    case Ack(id, now) =>
      s.(unacked := s.unacked - {id}, tasks := s.tasks + multiset{CountAck(id)}, acked := s.acked + {id})
    case Count(id, now) =>
      var s' := s.(tasks := s.tasks - multiset{CountAck(id)});
      if id !in s.held || id !in s.plan then s'
      else
        var c := s.plan[id];
        s'.(counts := Counted(s.counts, c), counted := s.counted + {id},
            tasks := if Completes(s.counts, c) then s'.tasks + multiset{SweepFile(c.file)} else s'.tasks)
    case Sweep(file, now) =>
      s.(unacked := WithoutFile(s.unacked, file), tasks := s.tasks - multiset{SweepFile(file)})
    case Decline(file, now) =>
      s.(counts := s.counts - {file}, tasks := s.tasks + multiset{SweepFile(file)}, declined := s.declined + {file})
    case SetCount(file, count, now) =>
      s.(counts := if count.Some? then s.counts[file := count.value] else s.counts - {file})
    case Hold(id, now) => s.(held := s.held + {id})
    case Drop(id, now) => s.(held := s.held - {id})
    case PassStarts(due, now) => s.(unacked := Swept(s.unacked), todo := due)
    case Requeue(now) => s.(unacked := Requeued(s.unacked, s.todo[0], now), todo := s.todo[1..])
    case RestoreFails(now) => s.(unacked := RestoreFailed(s.unacked, s.todo[0], now), todo := s.todo[1..])
    case Defer(now) => s.(todo := s.todo[1..])
  }

  function Run(s: State, events: seq<Event>): State
    decreases |events|
  {
    if events == [] then s else Next(Run(s, events[..|events| - 1]), events[|events| - 1])
  }

  /** The event puts the chunk id back on the queue. */
  predicate Requeues(s: State, e: Event, id: string) {
    Enabled(s, e) && e.Requeue? && s.todo[0] == id
  }

  function RequeueCount(s: State, events: seq<Event>, id: string): nat
    decreases |events|
  {
    if events == [] then 0
    else
      var front := events[..|events| - 1];
      RequeueCount(s, front, id) + if Requeues(Run(s, front), events[|events| - 1], id) then 1 else 0
  }

  /** The event writes a new entry: a new lifetime. */
  predicate Restarts(e: Event, id: string) {
    e.Insert? && e.id == id
  }

  /** The entry is there after every step, and the same one: one lifetime. */
  predicate Lives(s: State, events: seq<Event>, id: string)
    decreases |events|
  {
    && id in Run(s, events).unacked
    && (events == [] || (Lives(s, events[..|events| - 1], id) && !Restarts(events[|events| - 1], id)))
  }

  function WaitBefore(attempts: nat): int
    requires attempts <= MAX_ATTEMPTS
  {
    if attempts == 0 then 0 else WaitBefore(attempts - 1) + BACKOFF[attempts - 1]
  }

  lemma TotalWait()
    ensures WaitBefore(MAX_ATTEMPTS) == 4110
  {
    assert WaitBefore(5) == 1110;
    assert WaitBefore(8) == 2910;
  }

  // ---------- one lifetime ----------

  /**
   * What holds of an entry throughout its lifetime, begun at first: enough time has passed for its attempts, and if
   * the running pass has still to handle it, enough for one attempt more. slack is what may be missing.
   */
  predicate Paced(s: State, id: string, first: int, slack: int) {
    && id in s.unacked
    && s.unacked[id].attempts <= MAX_ATTEMPTS
    && first + WaitBefore(s.unacked[id].attempts) - slack <= s.unacked[id].lastSent <= s.clock
    && Distinct(s.todo)
    && (id in s.todo ==>
          s.unacked[id].attempts < MAX_ATTEMPTS && first + WaitBefore(s.unacked[id].attempts + 1) - slack <= s.clock)
  }

  lemma NextKeepsPaced(s: State, e: Event, id: string, first: int, slack: int)
    requires Paced(s, id, first, slack) && id in Next(s, e).unacked && !Restarts(e, id)
    ensures Paced(Next(s, e), id, first, slack)
    ensures Next(s, e).unacked[id].attempts >= s.unacked[id].attempts + (if Requeues(s, e, id) then 1 else 0)
  {
    EntryAfter(s, e, id);
    ListAfter(s, e, id);
    hide Next, Requeues, Enabled;
  }

  /** What an event does to an entry that stays: it is sent again, or the pass counts an attempt. */
  lemma EntryAfter(s: State, e: Event, id: string)
    requires id in s.unacked && id in Next(s, e).unacked && !Restarts(e, id)
    ensures var was, now, s' := s.unacked[id], Next(s, e).unacked[id], Next(s, e);
            && s.clock <= s'.clock
            && (if now.attempts == was.attempts then now.lastSent == was.lastSent || now.lastSent == s'.clock
                else now.attempts == was.attempts + 1 && now.lastSent == s'.clock
                     && id in s.todo && s.todo[0] == id && s'.todo == s.todo[1..])
            && (Requeues(s, e, id) ==> now.attempts == was.attempts + 1)
  {
  }

  /** An id is on the list because it was, or because a pass has found its entry due. */
  lemma ListAfter(s: State, e: Event, id: string)
    requires id in s.unacked && id in Next(s, e).unacked && Distinct(s.todo)
    ensures var s' := Next(s, e);
            && Distinct(s'.todo)
            && (id in s'.todo ==>
                  || (id in s.todo && (s'.todo == s.todo || (s'.todo == s.todo[1..] && s.todo[0] != id)))
                  || (Due(s.unacked[id], s'.clock) && s'.unacked[id] == s.unacked[id]))
  {
    hide Due;
  }

  /** The entry as the worker, or a resumption, has just written it. */
  predicate Begins(s: State, id: string, first: int) {
    id in s.unacked && s.unacked[id].attempts == 0 && s.unacked[id].lastSent == first == s.clock && Distinct(s.todo)
  }

  /** A first send and a resumption each begin a lifetime, whatever was there before. */
  lemma BeginsHere(s: State, id: string, now: int)
    requires Distinct(s.todo) && s.clock <= now
    ensures Begins(Next(s, Insert(id, now)), id, now)
    ensures id !in s.unacked ==> Begins(Next(s, Send(id, now)), id, now)
  {
  }

  /** When a pass under way still has an older entry of that id on its list, the first wait is skipped. */
  function Slack(s: State, id: string): int {
    if id in s.todo then 30 else 0
  }

  lemma {:induction false} LifetimePaced(s: State, events: seq<Event>, id: string, first: int)
    requires Begins(s, id, first) && Lives(s, events, id)
    ensures Paced(Run(s, events), id, first, Slack(s, id))
    ensures RequeueCount(s, events, id) <= Run(s, events).unacked[id].attempts
    decreases |events|
  {
    if events != [] {
      LifetimePaced(s, events[..|events| - 1], id, first);
      hide Next, Paced, Requeues;
      NextKeepsPaced(Run(s, events[..|events| - 1]), events[|events| - 1], id, first, Slack(s, id));
    } else {
      assert WaitBefore(1) == 30;
    }
  }

  /** It can be: the stale list puts the new entry back on the queue at once. */
  lemma StaleListSkipsWait(s: State, id: string, first: int)
    requires Begins(s, id, first) && s.todo != [] && s.todo[0] == id
    ensures var s' := Next(s, Requeue(first)); s'.unacked[id].attempts == 1 && s'.unacked[id].lastSent == first
  {
  }

  /** In one lifetime a chunk is put back on the queue at most ten times. */
  lemma AtMostTenRequeues(s: State, events: seq<Event>, id: string, first: int)
    requires Begins(s, id, first) && Lives(s, events, id)
    ensures RequeueCount(s, events, id) <= Run(s, events).unacked[id].attempts <= MAX_ATTEMPTS
  {
    LifetimePaced(s, events, id, first);
  }

  /** Attempts never go down within a lifetime. */
  lemma {:induction false} AttemptsNeverFall(s: State, events: seq<Event>, k: nat, id: string, first: int)
    requires Begins(s, id, first) && Lives(s, events, id) && k <= |events|
    ensures Lives(s, events[..k], id)
    ensures Run(s, events[..k]).unacked[id].attempts <= Run(s, events).unacked[id].attempts
    decreases |events|
  {
    if k == |events| {
      assert events[..k] == events;
    } else {
      var front := events[..|events| - 1];
      assert front[..k] == events[..k];
      AttemptsNeverFall(s, front, k, id, first);
      LifetimePaced(s, front, id, first);
      hide Next, Paced, Requeues;
      NextKeepsPaced(Run(s, front), events[|events| - 1], id, first, Slack(s, id));
    }
  }

  /** Whatever has just been done about a chunk, it is not due again before the wait its attempts ask for is over. */
  lemma WaitsAnew(s: State, e: Event, id: string, later: int)
    requires Enabled(s, e) && id in Next(s, e).unacked && e.now <= later
    requires || ((e.Send? || e.Insert?) && e.id == id)
             || ((e.Requeue? || e.RestoreFails?) && s.todo[0] == id)
    requires (e.Requeue? || e.RestoreFails?) ==> id in s.unacked
    ensures var info := Next(s, e).unacked[id];
            && info.attempts == (if e.Insert? || id !in s.unacked then 0
                                 else s.unacked[id].attempts + if e.Send? then 0 else 1)
            && (info.attempts < 10 ==>
                  (Due(info, later) <==>
                     later - e.now >= [30, 60, 120, 300, 600, 600, 600, 600, 600, 600][info.attempts]))
  {
  }

  // ---------- how a lifetime ends ----------

  /** The pass gives the entry up. */
  predicate GivesUpAfter(e: Event, time: int) {
    e.PassStarts? && e.now >= time
  }

  /** A restore fails on an entry that has already been attempted twice, in whatever way. */
  predicate FailsLate(s: State, e: Event, id: string) {
    e.RestoreFails? && s.todo != [] && s.todo[0] == id && id in s.unacked
    && s.unacked[id].attempts + 1 >= MAX_FAILED_RESTORES
  }

  /** The entry's file is swept. */
  predicate SweepsFileOf(s: State, e: Event, id: string) {
    e.Sweep? && id in s.unacked && e.file == s.unacked[id].file
  }

  /**
   * A lifetime ends in one of four ways: its own acknowledgement; a failed restore after two attempts of any kind; a
   * sweep of its file; or giving up, and then no sooner than 4110 seconds after the first send, or 4080 if the entry
   * began on a stale list.
   */
  lemma EndOfLifetime(s: State, events: seq<Event>, e: Event, id: string, first: int)
    requires Begins(s, id, first) && Lives(s, events, id)
    requires id !in Next(Run(s, events), e).unacked
    ensures || e == Ack(id, e.now)
            || FailsLate(Run(s, events), e, id)
            || SweepsFileOf(Run(s, events), e, id)
            || GivesUpAfter(e, first + 4110 - Slack(s, id))
  {
    LifetimePaced(s, events, id, first);
    hide *;
    EntryThere(Run(s, events), id, first, Slack(s, id));
    EntryGone(Run(s, events), e, id);
  }

  /** An entry out of attempts has waited for all of them. */
  lemma EntryThere(s: State, id: string, first: int, slack: int)
    requires Paced(s, id, first, slack)
    ensures id in s.unacked && (GivenUp(s.unacked[id]) ==> s.clock >= first + 4110 - slack)
  {
    TotalWait();
    hide WaitBefore;
  }

  lemma EntryGone(s: State, e: Event, id: string)
    requires id in s.unacked && id !in Next(s, e).unacked
    ensures e == Ack(id, e.now) || FailsLate(s, e, id) || SweepsFileOf(s, e, id)
            || (GivenUp(s.unacked[id]) && GivesUpAfter(e, s.clock))
    ensures forall time :: GivesUpAfter(e, s.clock) && s.clock >= time ==> GivesUpAfter(e, time)
  {
  }

  /** Attempts count re-queues and failed restores alike: a failed restore drops the entry exactly from the third on. */
  lemma FailedRestoreDrops(s: State, id: string, now: int)
    requires id in s.unacked && s.todo != [] && s.todo[0] == id && s.clock <= now
    ensures id !in Next(s, RestoreFails(now)).unacked <==> s.unacked[id].attempts >= 2
  {
  }

  /** A pass over a single entry that is due, which is queued again. */
  function RequeuePass(s: State, id: string, now: int): State {
    Next(Next(s, PassStarts([id], now)), Requeue(now))
  }

  lemma PassStartsIs(s: State, id: string, info: Info, now: int)
    requires s.unacked == map[id := info] && s.todo == [] && s.clock <= now && Due(info, now)
    ensures Next(s, PassStarts([id], now)) == s.(todo := [id], clock := now)
  {
    assert Swept(s.unacked) == s.unacked;
  }

  lemma RequeuePassIs(s: State, id: string, info: Info, now: int)
    requires s.unacked == map[id := info] && s.todo == [] && s.clock <= now && Due(info, now)
    ensures RequeuePass(s, id, now) ==
            s.(unacked := map[id := info.(attempts := info.attempts + 1, lastSent := now)], clock := now)
  {
    PassStartsIs(s, id, info, now);
  }

  lemma ThirdAttemptFails(s: State, id: string, info: Info, now: int)
    requires s.unacked == map[id := info] && s.todo == [] && s.clock <= now && Due(info, now) && info.attempts == 2
    ensures id !in Next(Next(s, PassStarts([id], now)), RestoreFails(now)).unacked
  {
    PassStartsIs(s, id, info, now);
    hide Due;
    FailedRestoreDrops(s.(todo := [id], clock := now), id, now);
  }

  /** So after two good re-queues the first restore to fail drops the entry, 210 seconds after the first send. */
  lemma FirstFailedRestoreDrops(s: State, id: string, file: string)
    requires s.unacked == map[id := Info(file, 0, 0)] && s.todo == [] && s.clock == 0
    ensures var s' := RequeuePass(RequeuePass(s, id, 30), id, 90);
            id in s'.unacked && id !in Next(Next(s', PassStarts([id], 210)), RestoreFails(210)).unacked
  {
    assert Due(Info(file, 0, 0), 30) && Due(Info(file, 1, 30), 90) && Due(Info(file, 2, 90), 210);
    hide Next, RequeuePass, Due;
    RequeuePassIs(s, id, Info(file, 0, 0), 30);
    var s1 := RequeuePass(s, id, 30);
    RequeuePassIs(s1, id, Info(file, 1, 30), 90);
    var s2 := RequeuePass(s1, id, 90);
    ThirdAttemptFails(s2, id, Info(file, 2, 90), 210);
  }

  // ---------- sweeps ----------

  /** The three sections of an acknowledgement, with nothing in between. */
  function Processed(s: State, id: string, now: int): State {
    var s2 := Next(Next(s, Ack(id, now)), Count(id, now));
    if id in s.held && id in s.plan && Completes(s.counts, s.plan[id])
    then Next(s2, Sweep(s.plan[id].file, now))
    else s2
  }

  /** The acknowledgement of other ends the file: it is one of its chunks, and the count reaches the total. */
  predicate EndsFile(s: State, other: string, file: string) {
    && other in s.held && other in s.plan && s.plan[other].file == file
    && CountOf(s.counts, file) + 1 >= s.plan[other].total
  }

  /**
   * Another chunk's acknowledgement ends the lifetime of an unacknowledged entry exactly when it is of the same file
   * and takes the count to the number of chunks.
   */
  lemma OtherAckDrops(s: State, id: string, other: string, now: int)
    requires id in s.unacked && other != id && s.clock <= now
    ensures id !in Processed(s, other, now).unacked <==> EndsFile(s, other, s.unacked[id].file)
  {
    var s1 := Next(s, Ack(other, now));
    assert CountAck(other) in s1.tasks;
    var s2 := Next(s1, Count(other, now));
    assert s2.unacked == s.unacked - {other};
    if other in s.held && other in s.plan && Completes(s.counts, s.plan[other]) {
      assert SweepFile(s.plan[other].file) in s2.tasks;
    }
  }

  /** A file of two chunks: b has been sent and never acknowledged, and the acknowledgement of a is processed twice. */
  function TwoChunks(): State {
    var plan: Plan := map["a" := Chunk("f", 0, 2), "b" := Chunk("f", 1, 2)];
    State(plan, map["a" := Info("f", 0, 0), "b" := Info("f", 0, 0)], map[], {"a", "b"}, multiset{}, [], 0, {}, {}, {})
  }

  lemma RepeatedAckDropsOther()
    ensures var s := Processed(Processed(TwoChunks(), "a", 1), "a", 2);
            "b" !in s.unacked && s.acked == {"a"}
  {
    hide Next, Processed;
    var s := TwoChunks();
    OtherAckDrops(s, "b", "a", 1);
    OneAckCounts(s, "a", 1);
    var s' := Processed(s, "a", 1);
    OtherAckDrops(s', "b", "a", 2);
    OneAckCounts(s', "a", 2);
  }

  /** A resumed file counts the chunks its READs have raised, and then a first acknowledgement can do the same. */
  lemma ResumedCountDropsOther()
    ensures var s := Processed(Next(TwoChunks(), SetCount("f", Some(1), 1)), "a", 2);
            "b" !in s.unacked && s.acked == {"a"}
  {
    var s := Next(TwoChunks(), SetCount("f", Some(1), 1));
    hide Next, Processed;
    OtherAckDrops(s, "b", "a", 2);
    OneAckCounts(s, "a", 2);
  }

  /** The first two sections of the acknowledgement of a stored chunk. */
  lemma AfterCount(s: State, id: string, now: int)
    requires id in s.held && id in s.plan && s.clock <= now
    ensures var sweep := if Completes(s.counts, s.plan[id]) then multiset{SweepFile(s.plan[id].file)} else multiset{};
            Next(Next(s, Ack(id, now)), Count(id, now)) ==
            s.(unacked := s.unacked - {id}, tasks := s.tasks + sweep, acked := s.acked + {id},
               counted := s.counted + {id}, counts := Counted(s.counts, s.plan[id]), clock := now)
  {
    var s1 := Next(s, Ack(id, now));
    assert s1 == s.(unacked := s.unacked - {id}, tasks := s.tasks + multiset{CountAck(id)}, acked := s.acked + {id},
                    clock := now);
    assert s1.tasks - multiset{CountAck(id)} == s.tasks;
    hide Counted, Completes;
  }

  lemma OneAckCounts(s: State, id: string, now: int)
    requires id in s.held && id in s.plan && s.clock <= now
    ensures var s' := Processed(s, id, now);
            && s'.plan == s.plan && s'.held == s.held && s'.clock == now && s'.acked == s.acked + {id}
            && s'.counts == Counted(s.counts, s.plan[id])
            && forall other :: other != id && other in s'.unacked ==>
                 other in s.unacked && s'.unacked[other] == s.unacked[other]
  {
    AfterCount(s, id, now);
    var s2 := Next(Next(s, Ack(id, now)), Count(id, now));
    if Completes(s.counts, s.plan[id]) {
      var file := s.plan[id].file;
      assert SweepFile(file) in s2.tasks;
      assert Next(s2, Sweep(file, now)) ==
             s2.(unacked := WithoutFile(s2.unacked, file), tasks := s2.tasks - multiset{SweepFile(file)});
      hide Next, Counted, Completes;
    } else {
      hide Next, Counted, Completes, WithoutFile;
    }
  }

  // ---------- when every acknowledgement is processed once ----------

  /**
   * The event is no second acknowledgement of an id, and sets no count above the number of the file's ids whose
   * acknowledgement has been counted.
   */
  predicate OnceEach(s: State, e: Event) {
    && (e.Ack? ==> e.id !in s.acked)
    && (e.SetCount? && e.count.Some? ==> e.count.value <= |IdsOf(s.plan, s.counted, e.file)|)
  }

  predicate OnceEachRun(s: State, events: seq<Event>)
    decreases |events|
  {
    events == [] ||
    (OnceEachRun(s, events[..|events| - 1]) && OnceEach(Run(s, events[..|events| - 1]), events[|events| - 1]))
  }

  /** An entry names the file of its id's chunk, or none. */
  ghost predicate FilesOk(s: State) {
    forall id :: id in s.unacked ==> s.unacked[id].file == "" || (id in s.plan && s.unacked[id].file == s.plan[id].file)
  }

  ghost predicate TasksOk(s: State) {
    && (forall id :: CountAck(id) in s.tasks ==> id in s.acked && id !in s.counted && s.tasks[CountAck(id)] == 1)
    && (forall file :: SweepFile(file) in s.tasks ==> file != "" && (file in s.declined || AllAcked(s, file)))
  }

  ghost predicate AllAcked(s: State, file: string) {
    forall id :: id in s.plan && s.plan[id].file == file ==> id in s.acked
  }

  /** Every file's count is backed by acknowledgements of as many of its ids. */
  ghost predicate CountsOk(s: State) {
    s.counted <= s.acked && forall file :: CountOf(s.counts, file) <= |IdsOf(s.plan, s.counted, file)|
  }

  ghost predicate Backed(s: State) {
    Proper(s.plan) && OneIdPerChunk(s.plan) && FilesOk(s) && TasksOk(s) && CountsOk(s)
  }

  /** Before anything has been acknowledged or declined. */
  lemma FreshIsBacked(s: State)
    requires Proper(s.plan) && OneIdPerChunk(s.plan) && FilesOk(s)
    requires s.tasks == multiset{} && s.counted == {} && s.counts == map[]
    ensures Backed(s)
  {
  }

  lemma FilesStayOk(s: State, e: Event)
    requires FilesOk(s)
    ensures FilesOk(Next(s, e))
  {
  }

  lemma CountKeepsBacked(s: State, id: string, now: int)
    requires Backed(s) && Enabled(s, Count(id, now))
    ensures TasksOk(Next(s, Count(id, now))) && CountsOk(Next(s, Count(id, now)))
  {
    var s' := Next(s, Count(id, now));
    if id in s.held && id in s.plan {
      var c := s.plan[id];
      forall file ensures CountOf(s'.counts, file) <= |IdsOf(s.plan, s'.counted, file)| {
        CountOnce(s.plan, s.counts, s.counted, id, file);
      }
      if Completes(s.counts, c) {
        CompleteIsAllAcked(s', c.file, c.total);
      }
    }
  }

  /** A count that has reached the total stands for every id of the file. */
  lemma CompleteIsAllAcked(s: State, file: string, total: nat)
    requires Proper(s.plan) && OneIdPerChunk(s.plan) && s.counted <= s.acked
    requires |IdsOf(s.plan, s.counted, file)| >= total
    requires forall id :: id in s.plan && s.plan[id].file == file ==> s.plan[id].total == total
    ensures AllAcked(s, file)
  {
    forall id | id in s.plan && s.plan[id].file == file ensures id in s.acked {
      FullCountIsAll(s.plan, s.counted, id);
    }
  }

  lemma NextKeepsBacked(s: State, e: Event)
    requires Backed(s) && OnceEach(s, e)
    ensures Backed(Next(s, e))
  {
    FilesStayOk(s, e);
    if Enabled(s, e) && e.Count? {
      CountKeepsBacked(s, e.id, e.now);
      hide FilesOk, Proper, OneIdPerChunk, TasksOk, CountsOk;
    } else {
      OthersKeepBacked(s, e);
      hide FilesOk, Proper, OneIdPerChunk, TasksOk, CountsOk;
    }
  }

  lemma OthersKeepBacked(s: State, e: Event)
    requires TasksOk(s) && CountsOk(s) && OnceEach(s, e) && !(Enabled(s, e) && e.Count?)
    ensures TasksOk(Next(s, e)) && CountsOk(Next(s, e)) && Next(s, e).plan == s.plan
  {
    OthersMove(s, e);
    hide Next, Enabled;
    assert CountsOk(Next(s, e)) by {
      hide AllAcked, IdsOf;
    }
    assert TasksOk(Next(s, e)) by {
      hide IdsOf, CountsOk;
    }
  }

  /** What an event other than a count does to what is pending, the counts and the record. */
  lemma OthersMove(s: State, e: Event)
    requires OnceEach(s, e) && !(Enabled(s, e) && e.Count?)
    ensures var s' := Next(s, e);
            && s'.plan == s.plan && s'.counted == s.counted && s.acked <= s'.acked && s.declined <= s'.declined
            && (forall file :: CountOf(s'.counts, file) <= CountOf(s.counts, file)
                               || CountOf(s'.counts, file) <= |IdsOf(s.plan, s.counted, file)|)
    ensures var s' := Next(s, e);
            && (forall id :: CountAck(id) in s'.tasks ==>
                  || (CountAck(id) in s.tasks && s'.tasks[CountAck(id)] == s.tasks[CountAck(id)])
                  || (id in s'.acked && id !in s.acked && s'.tasks[CountAck(id)] == s.tasks[CountAck(id)] + 1))
            && (forall file :: SweepFile(file) in s'.tasks ==>
                  SweepFile(file) in s.tasks || (file != "" && file in s'.declined))
  {
    OthersMoveCounts(s, e);
    OthersMoveTasks(s, e);
    hide *;
  }

  lemma OthersMoveCounts(s: State, e: Event)
    requires OnceEach(s, e) && !(Enabled(s, e) && e.Count?)
    ensures var s' := Next(s, e);
            && s'.plan == s.plan && s'.counted == s.counted && s.acked <= s'.acked && s.declined <= s'.declined
            && (forall file :: CountOf(s'.counts, file) <= CountOf(s.counts, file)
                               || CountOf(s'.counts, file) <= |IdsOf(s.plan, s.counted, file)|)
  {
    hide Sent, Swept, Requeued, RestoreFailed, WithoutFile, IdsOf, IsDueList;
  }

  lemma OthersMoveTasks(s: State, e: Event)
    requires OnceEach(s, e) && !(Enabled(s, e) && e.Count?)
    ensures var s' := Next(s, e);
            && (forall id :: CountAck(id) in s'.tasks ==>
                  || (CountAck(id) in s.tasks && s'.tasks[CountAck(id)] == s.tasks[CountAck(id)])
                  || (id in s'.acked && id !in s.acked && s'.tasks[CountAck(id)] == s.tasks[CountAck(id)] + 1))
            && (forall file :: SweepFile(file) in s'.tasks ==>
                  SweepFile(file) in s.tasks || (file != "" && file in s'.declined))
  {
    hide Sent, Swept, Requeued, RestoreFailed, WithoutFile, IdsOf, IsDueList, CountOf;
  }

  lemma {:induction false} RunKeepsBacked(s: State, events: seq<Event>)
    requires Backed(s) && OnceEachRun(s, events)
    ensures Backed(Run(s, events))
    decreases |events|
  {
    if events != [] {
      RunKeepsBacked(s, events[..|events| - 1]);
      hide Backed, Next, OnceEach;
      NextKeepsBacked(Run(s, events[..|events| - 1]), events[|events| - 1]);
    }
  }

  /**
   * When each chunk is sent under one id, each acknowledgement is processed once and no count is set too high, no sweep
   * but that of a declined file touches an unacknowledged entry.
   */
  lemma SweepSparesUnacked(s: State, events: seq<Event>, e: Event, id: string)
    requires Backed(s) && OnceEachRun(s, events)
    requires Enabled(Run(s, events), e) && SweepsFileOf(Run(s, events), e, id)
    ensures id in Run(s, events).acked || e.file in Run(s, events).declined
  {
    RunKeepsBacked(s, events);
    hide Run, Next;
  }

  /**
   * So then an unacknowledged chunk of a file not declined is dropped by a failed restore after two attempts, or given
   * up, no sooner than 4110 seconds after its first send.
   */
  lemma EndWhenAckedOnce(s: State, events: seq<Event>, e: Event, id: string, first: int)
    requires Backed(s) && OnceEachRun(s, events) && Begins(s, id, first) && id !in s.todo && Lives(s, events, id)
    requires id !in Next(Run(s, events), e).unacked && id !in Run(s, events).acked && e != Ack(id, e.now)
    requires FileOf(s.plan, id) !in Run(s, events).declined && id in s.plan
    ensures FailsLate(Run(s, events), e, id) || GivesUpAfter(e, first + 4110)
  {
    EndOfLifetime(s, events, e, id, first);
    RunKeepsBacked(s, events);
    PlanStays(s, events);
    if SweepsFileOf(Run(s, events), e, id) {
      SweepSparesUnacked(s, events, e, id);
    }
  }

  lemma {:induction false} PlanStays(s: State, events: seq<Event>)
    ensures Run(s, events).plan == s.plan
    decreases |events|
  {
    if events != [] {
      PlanStays(s, events[..|events| - 1]);
    }
  }

  // ---------- emptying ----------

  /** The event brings in no new entry, defers nothing, and starts a pass only when every entry is due or given up. */
  predicate Drains(s: State, e: Event) {
    Enabled(s, e) ==>
      match e
      case Send(id, _) => id in s.unacked
      case Insert(_, _) => false
      case PassStarts(due, now) => forall id | id in s.unacked :: GivenUp(s.unacked[id]) || Due(s.unacked[id], now)
      case RestoreFails(_) => s.todo[0] in s.unacked
      case Defer(_) => false
      case _ => true
  }

  predicate DrainingRun(s: State, events: seq<Event>)
    decreases |events|
  {
    events == [] ||
    (DrainingRun(s, events[..|events| - 1]) && Drains(Run(s, events[..|events| - 1]), events[|events| - 1]))
  }

  function Passes(s: State, events: seq<Event>): nat
    decreases |events|
  {
    if events == [] then 0
    else
      var front, e := events[..|events| - 1], events[|events| - 1];
      Passes(s, front) + if e.PassStarts? && Enabled(Run(s, front), e) then 1 else 0
  }

  /** After p passes every entry left has used p attempts, or is about to use the p-th; after eleven none is left. */
  predicate UsedUp(s: State, p: nat) {
    && Distinct(s.todo)
    && (forall id :: id in s.unacked ==> s.unacked[id].attempts + (if id in s.todo then 1 else 0) >= p)
    && (p > MAX_ATTEMPTS ==> s.unacked == map[])
  }

  lemma NextUsesUp(s: State, e: Event, p: nat)
    requires UsedUp(s, p) && Drains(s, e)
    ensures UsedUp(Next(s, e), if e.PassStarts? && Enabled(s, e) then p + 1 else p)
  {
    if e.PassStarts? && Enabled(s, e) {
      PassUsesUp(s, e.due, e.now, p);
    } else {
      SectionUsesUp(s, e, p);
    }
    hide Next, Drains, UsedUp, Enabled;
  }

  lemma PassUsesUp(s: State, due: seq<string>, now: int, p: nat)
    requires UsedUp(s, p) && Drains(s, PassStarts(due, now)) && Enabled(s, PassStarts(due, now))
    ensures UsedUp(Next(s, PassStarts(due, now)), p + 1)
  {
  }

  lemma SectionUsesUp(s: State, e: Event, p: nat)
    requires UsedUp(s, p) && Drains(s, e) && !(e.PassStarts? && Enabled(s, e))
    ensures UsedUp(Next(s, e), p)
  {
  }

  lemma {:induction false} RunUsesUp(s: State, events: seq<Event>)
    requires s.todo == [] && DrainingRun(s, events)
    ensures UsedUp(Run(s, events), Passes(s, events))
    decreases |events|
  {
    if events != [] {
      RunUsesUp(s, events[..|events| - 1]);
      hide Next, UsedUp, Drains;
      NextUsesUp(Run(s, events[..|events| - 1]), events[|events| - 1], Passes(s, events[..|events| - 1]));
    }
  }

  /** With no new insertions, eleven passes that find everything due empty the map, whatever else interleaves. */
  lemma ElevenPassesEmpty(s: State, events: seq<Event>)
    requires s.todo == [] && DrainingRun(s, events) && Passes(s, events) >= 11
    ensures Run(s, events).unacked == map[]
  {
    RunUsesUp(s, events);
  }

  /** An acknowledgement between a pass and its failed restore brings the entry back, as one that names no file. */
  lemma AckedEntryReturns(s: State, id: string, now: int)
    requires id in s.unacked && s.todo == [id] && s.clock <= now
    ensures var s' := Next(Next(s, Ack(id, now)), RestoreFails(now));
            id in s'.unacked && s'.unacked[id] == Info("", 1, now)
  {
  }
}
