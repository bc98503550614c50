/**
 * Files in chunks (node/media.go, node/node_files.go): cutting a file up, sending it, and restoring a chunk from the
 * copy on disk. Encryption is the identity here; bytes are characters.
 */
module Chunking {
  import opened Common
  import opened MessageStore

  const CHUNK_SIZE: nat := 47 * 1024

  function ChunkTotal(size: nat): nat {
    (size + CHUNK_SIZE - 1) / CHUNK_SIZE
  }

  /** What ReadAt puts into a buffer of CHUNK_SIZE bytes: fewer at the end of the file, none behind it. */
  function ReadAt(file: string, off: nat): (chunk: string)
    ensures |chunk| <= CHUNK_SIZE
  {
    if off >= |file| then ""
    else if off + CHUNK_SIZE <= |file| then file[off..off + CHUNK_SIZE]
    else file[off..]
  }

  function Slice(file: string, i: nat): (chunk: string)
    ensures |chunk| <= CHUNK_SIZE
  {
    ReadAt(file, i * CHUNK_SIZE)
  }

  // ---------- the chunks are a partition ----------

  function Joined(parts: seq<string>): string {
    if parts == [] then "" else Joined(parts[..|parts| - 1]) + parts[|parts| - 1]
  }

  /** The indices below ChunkTotal are exactly those that read something. */
  lemma ChunkIsNonEmpty(file: string, i: nat)
    ensures i < ChunkTotal(|file|) <==> Slice(file, i) != ""
    ensures i + 1 < ChunkTotal(|file|) ==> |Slice(file, i)| == 48_128
    ensures |Slice(file, i)| <= 48_128
  {
  }

  /** The first n chunks' worth of the file, or all of it. */
  function Prefix(file: string, n: nat): string {
    if n * CHUNK_SIZE <= |file| then file[..n * CHUNK_SIZE] else file
  }

  lemma PrefixGrows(file: string, n: nat)
    ensures Prefix(file, n) + Slice(file, n) == Prefix(file, n + 1)
  {
    var at := n * CHUNK_SIZE;
    if at < |file| {
      assert file[..at] + file[at..] == file;
    }
  }

  lemma {:induction false} JoinedPrefix(file: string, parts: seq<string>)
    requires forall i :: 0 <= i < |parts| ==> parts[i] == Slice(file, i)
    ensures Joined(parts) == Prefix(file, |parts|)
  {
    if parts == [] {
      assert Prefix(file, 0) == file[..0] == "";
    } else {
      var n := |parts| - 1;
      assert Joined(parts) == Joined(parts[..n]) + parts[n];
      hide Joined;
      JoinedPrefix(file, parts[..n]);
      PrefixGrows(file, n);
    }
  }

  lemma TotalCovers(size: nat)
    ensures ChunkTotal(size) * CHUNK_SIZE >= size
  {
  }

  /** Any parts that are the slices below ChunkTotal, joined in order, are the file. */
  lemma SlicesJoin(file: string, parts: seq<string>)
    requires |parts| == ChunkTotal(|file|)
    requires forall i :: 0 <= i < |parts| ==> parts[i] == Slice(file, i)
    ensures Joined(parts) == file
  {
    JoinedPrefix(file, parts);
    TotalCovers(|file|);
    hide ChunkTotal, Joined, Slice;
    assert file[..|file|] == file;
  }

  // ---------- sending ----------

  datatype RetryInfo = RetryInfo(
    msgID: string, mediaID: string, mediaType: string, chunkIndex: int, chunkTotal: int, recipient: string,
    ttlSeconds: int, ttlMode: string, expiresAt: Time)

  /** A file on its way: what the sender holds on disk and in the offer. */
  datatype File = File(
    content: string, mediaType: string, recipient: string, ttlSeconds: int, ttlMode: string, expiresAt: Time)

  function ChunkMessage(me: string, f: File, mediaID: string, i: nat, id: string): Message {
    Message(id, Slice(f.content, i), "", me, f.recipient, 0.5, Zero, f.expiresAt, f.ttlMode, f.ttlSeconds,
            0, true, f.mediaType, mediaID, i, ChunkTotal(|f.content|), false, false)
  }

  function InfoOf(m: Message): RetryInfo {
    RetryInfo(m.id, m.mediaID, m.mediaType, m.chunkIndex, m.chunkTotal, m.recipient, m.ttlPeriodSeconds, m.ttlMode,
              m.expiresAt)
  }

  /** The message restoreChunkMessage rebuilds; it fails when nothing can be read at the chunk's offset. */
  function Restored(me: string, info: RetryInfo, content: string): Option<Message> {
    if info.mediaID == "" || info.recipient == "" || info.chunkIndex < 0 then None
    else if Slice(content, info.chunkIndex) == "" then None
    else
      var data := Slice(content, info.chunkIndex);
      Some(Message(info.msgID, data, data, me, info.recipient, 0.5, Zero, info.expiresAt, info.ttlMode, info.ttlSeconds,
                   0, true, info.mediaType, info.mediaID, info.chunkIndex, info.chunkTotal, false, false))
  }

  /** What the loop has queued after n iterations; an iteration whose read or encryption fails queues nothing. */
  function Queued(me: string, f: File, mediaID: string, ids: seq<string>, failed: set<nat>, n: nat): (q: seq<Message>)
    requires n <= |ids|
    ensures |q| <= n
  {
    if n == 0 then []
    else
      var before := Queued(me, f, mediaID, ids, failed, n - 1);
      if n - 1 in failed || Slice(f.content, n - 1) == "" then before
      else before + [ChunkMessage(me, f, mediaID, n - 1, ids[n - 1])]
  }

  /** The queue holds the messages of just the chunks that neither failed nor read nothing, in the order of the file. */
  lemma {:induction false} QueuedAre(me: string, f: File, mediaID: string, ids: seq<string>, failed: set<nat>, n: nat)
    requires n <= |ids|
    ensures var q := Queued(me, f, mediaID, ids, failed, n);
            && (forall i: nat :: i < n && i !in failed && Slice(f.content, i) != "" ==>
                  ChunkMessage(me, f, mediaID, i, ids[i]) in q)
            && (forall k :: 0 <= k < |q| ==>
                  && 0 <= q[k].chunkIndex < n && q[k].chunkIndex !in failed && Slice(f.content, q[k].chunkIndex) != ""
                  && q[k] == ChunkMessage(me, f, mediaID, q[k].chunkIndex, ids[q[k].chunkIndex]))
            && (forall k, l :: 0 <= k < l < |q| ==> q[k].chunkIndex < q[l].chunkIndex)
  {
    if n > 0 {
      QueuedAre(me, f, mediaID, ids, failed, n - 1);
      var before, m := Queued(me, f, mediaID, ids, failed, n - 1), ChunkMessage(me, f, mediaID, n - 1, ids[n - 1]);
      assert m.chunkIndex == n - 1 && m in before + [m];
      hide Slice, ChunkMessage;
    }
  }

  /** What the sender keeps of its outgoing files: copies and their descriptions on disk, and the abort flags. */
  class SentFiles {
    var copies: set<string>
    var metas: set<string>
    var aborted: set<string>

    /** A stopping sender removes the file's copy and description, and clears its own flag. */
    method Stop(mediaID: string)
      modifies this
      ensures copies == old(copies) - {mediaID} && metas == old(metas) - {mediaID}
      ensures aborted == old(aborted) - {mediaID}
    {
      copies, metas, aborted := copies - {mediaID}, metas - {mediaID}, aborted - {mediaID};
    }
  }

  /**
   * The sending loop. It reads each chunk at its offset, queues it and stores a copy without data, until the chunks
   * run out or the abort flag is seen; then it stops, and clears up.
   */
  method SendFileChunks(me: string, f: File, mediaID: string, ids: seq<string>, failed: set<nat>, abortSeenAt: nat,
                        mem: Memory, disk: SentFiles, now: int)
    returns (queue: seq<Message>, sent: nat)
    requires |ids| == ChunkTotal(|f.content|) && mem.Valid()
    modifies mem, disk
    ensures sent == if abortSeenAt < ChunkTotal(|f.content|) then abortSeenAt else ChunkTotal(|f.content|)
    ensures var gone := if sent < ChunkTotal(|f.content|) then {mediaID} else {};
            disk.copies == old(disk.copies) - gone && disk.metas == old(disk.metas) - gone
            && disk.aborted == old(disk.aborted) - gone
    ensures queue == Queued(me, f, mediaID, ids, failed, sent)
    ensures mem.Valid()
    ensures mem.messages == Stored(old(mem.messages), queue, now)
  {
    var total := (|f.content| + CHUNK_SIZE - 1) / CHUNK_SIZE;
    assert total == ChunkTotal(|f.content|);
    hide ChunkTotal, Queued, Stored;
    var limit := if abortSeenAt < total then abortSeenAt else total;
    queue := QueueChunks(me, f, mediaID, ids, failed, limit, mem, now);
    sent := limit;
    if sent < total {
      disk.Stop(mediaID);
    }
  }

  /** The iterations of the sending loop. */
  method QueueChunks(me: string, f: File, mediaID: string, ids: seq<string>, failed: set<nat>, limit: nat, mem: Memory,
                     now: int)
    returns (queue: seq<Message>)
    requires limit <= |ids| && mem.Valid()
    modifies mem
    ensures queue == Queued(me, f, mediaID, ids, failed, limit)
    ensures mem.Valid()
    ensures mem.messages == Stored(old(mem.messages), queue, now)
  {
    hide ReadAt, Slice, ChunkMessage;
    queue := [];
    for i := 0 to limit
      invariant mem.Valid()
      invariant queue == Queued(me, f, mediaID, ids, failed, i)
      invariant mem.messages == Stored(old(mem.messages), queue, now)
    {
      var one := SendChunk(me, f, mediaID, i, ids[i], i in failed, mem, now);
      assert one != [] ==> (queue + one)[..|queue|] == queue;
      queue := queue + one;
    }
  }

  /** One iteration: the chunk's message, if the chunk could be read and encrypted, and a copy without data stored. */
  method SendChunk(me: string, f: File, mediaID: string, i: nat, id: string, fails: bool, mem: Memory, now: int)
    returns (queued: seq<Message>)
    requires mem.Valid()
    modifies mem
    ensures queued == if fails || Slice(f.content, i) == "" then [] else [ChunkMessage(me, f, mediaID, i, id)]
    ensures mem.Valid()
    ensures mem.messages ==
            if queued == [] then old(mem.messages) else Added(old(mem.messages), WithoutData(queued[0]), now)
  {
    var chunk := ReadAt(f.content, i * CHUNK_SIZE);
    if fails || chunk == "" {
      return [];
    }
    var msg := ChunkMessage(me, f, mediaID, i, id);
    var ok := mem.Add(msg.(text := "", plainText := ""), now);
    return [msg];
  }

  /** The sender's store after the copies of the queued messages have been added. */
  function Stored(ms: seq<Message>, queue: seq<Message>, now: int): seq<Message> {
    if queue == [] then ms
    else Added(Stored(ms, queue[..|queue| - 1], now), WithoutData(queue[|queue| - 1]), now)
  }

  /** With no failure and no abort, the data queued is, in order, the file. */
  lemma {:induction false} QueuedIsFile(me: string, f: File, mediaID: string, ids: seq<string>, n: nat)
    requires n <= |ids| == ChunkTotal(|f.content|)
    ensures var q := Queued(me, f, mediaID, ids, {}, n);
            && |q| == n
            && (forall i :: 0 <= i < n ==> q[i] == ChunkMessage(me, f, mediaID, i, ids[i]))
            && (n == |ids| ==> Joined(Texts(q)) == f.content)
  {
    if n > 0 {
      QueuedIsFile(me, f, mediaID, ids, n - 1);
      ChunkIsNonEmpty(f.content, n - 1);
    }
    if n == |ids| {
      SlicesJoin(f.content, Texts(Queued(me, f, mediaID, ids, {}, n)));
    }
  }

  function Texts(ms: seq<Message>): (r: seq<string>)
    ensures |r| == |ms|
    ensures forall i :: 0 <= i < |ms| ==> r[i] == ms[i].text
  {
    seq(|ms|, i requires 0 <= i < |ms| => ms[i].text)
  }
}
