/**
 * Counting a file's acknowledgements (node/node_service.go handleDeliveredRef): the count goes up with every
 * acknowledgement of one of the file's chunks, a repeated one included, and never above the number of chunks.
 */
module ChunkCounts {
  import opened Common

  datatype Chunk = Chunk(file: string, index: nat, total: nat)

  /** The chunk each message id stands for. */
  type Plan = map<string, Chunk>

  type Counts = map<string, nat>

  function CountOf(counts: Counts, file: string): nat {
    if file in counts then counts[file] else 0
  }

  function Counted(counts: Counts, c: Chunk): Counts {
    if CountOf(counts, c.file) < c.total then counts[c.file := CountOf(counts, c.file) + 1] else counts
  }

  /** After counting the chunk the count has reached the total. */
  predicate Completes(counts: Counts, c: Chunk) {
    CountOf(counts, c.file) + 1 >= c.total
  }

  /** The field under deliveredCountMu. */
  class DeliveredCounts {
    var counts: Counts

    constructor ()
      ensures counts == map[]
    {
      counts := map[];
    }

    /** The counting section of an acknowledgement; it says whether the file's entries are to be swept. */
    method Count(c: Chunk) returns (sweeps: bool)
      modifies this
      ensures counts == Counted(old(counts), c)
      ensures sweeps <==> Completes(old(counts), c)
      ensures var was, is' := CountOf(old(counts), c.file), CountOf(counts, c.file);
              is' == (if was < c.total then was + 1 else was) && (sweeps <==> is' >= c.total)
    {
      var cur := if c.file in counts then counts[c.file] else 0;
      if cur < c.total {
        counts := counts[c.file := cur + 1];
        cur := cur + 1;
      }
      sweeps := cur >= c.total;
    }
  }

  /** After n acknowledgements, repeated ones included, the count is n, or the number of chunks if that is less. */
  function CountedTimes(counts: Counts, c: Chunk, n: nat): Counts {
    if n == 0 then counts else Counted(CountedTimes(counts, c, n - 1), c)
  }

  lemma {:induction false} CountIsCapped(c: Chunk, n: nat)
    ensures CountOf(CountedTimes(map[], c, n), c.file) == if n < c.total then n else c.total
  {
    if n > 0 {
      CountIsCapped(c, n - 1);
    }
  }

  /** A file has a name and one number of chunks, and a chunk's index is below it. */
  ghost predicate Proper(plan: Plan) {
    && (forall id :: id in plan ==> plan[id].file != "" && plan[id].index < plan[id].total)
    && (forall a, b :: a in plan && b in plan && plan[a].file == plan[b].file ==> plan[a].total == plan[b].total)
  }

  /** No chunk is sent under two ids. */
  ghost predicate OneIdPerChunk(plan: Plan) {
    forall a, b :: a in plan && b in plan && plan[a].file == plan[b].file && plan[a].index == plan[b].index ==> a == b
  }

  function IdsOf(plan: Plan, ids: set<string>, file: string): set<string> {
    set id | id in ids && id in plan && plan[id].file == file
  }

  /** The count stays within the ids counted, when each is counted once. */
  lemma CountOnce(plan: Plan, counts: Counts, counted: set<string>, id: string, file: string)
    requires id in plan && id !in counted
    requires CountOf(counts, file) <= |IdsOf(plan, counted, file)|
    ensures CountOf(Counted(counts, plan[id]), file) <= |IdsOf(plan, counted + {id}, file)|
  {
    var before, after := IdsOf(plan, counted, file), IdsOf(plan, counted + {id}, file);
    if plan[id].file == file {
      assert after == before + {id};
    } else {
      assert after == before;
    }
  }

  function Indices(plan: Plan, ids: set<string>): set<nat>
    requires forall id :: id in ids ==> id in plan
  {
    set id | id in ids :: plan[id].index
  }

  lemma {:induction false} IndicesSize(plan: Plan, ids: set<string>, file: string)
    requires OneIdPerChunk(plan) && forall id :: id in ids ==> id in plan && plan[id].file == file
    ensures |Indices(plan, ids)| == |ids|
  {
    if ids != {} {
      var id :| id in ids;
      var rest := ids - {id};
      IndicesSize(plan, rest, file);
      assert Indices(plan, ids) == Indices(plan, rest) + {plan[id].index};
    }
  }

  function Below(n: nat): (s: set<nat>)
    ensures |s| == n && forall i: nat :: i in s <==> i < n
  {
    if n == 0 then {} else Below(n - 1) + {n - 1}
  }

  /** With one id per chunk, as many ids as the file has chunks are all its ids. */
  lemma FullCountIsAll(plan: Plan, ids: set<string>, id: string)
    requires Proper(plan) && OneIdPerChunk(plan) && id in plan
    requires |IdsOf(plan, ids, plan[id].file)| >= plan[id].total
    ensures id in ids
  {
    var mine := IdsOf(plan, ids, plan[id].file);
    IndicesSize(plan, mine, plan[id].file);
    if id !in ids {
      var others := Below(plan[id].total) - {plan[id].index};
      assert |others| == plan[id].total - 1;
      SubsetSize(Indices(plan, mine), others);
    }
  }
}
