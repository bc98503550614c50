# Isotope node core: a Dafny model and its proofs

The `node/` package is a store-and-forward messenger: two peers exchange end-to-end encrypted texts and files over a
network that loses, repeats and reorders; messages live in an indexed in-memory store; acknowledgements are batched;
files travel in chunks with retries; contacts are made by a handshake; weights of a small network are gossiped; text
can hide in WAV samples; packets can travel in onions. This project models that core and proves what it promises.

`dafny verify dfyconfig.toml` checks everything.

## How it is modelled

* An object whose methods update its fields is a class (`Memory`, `DeliveredBuffer`, `PendingQueue`, `ContactsStore`,
  `DeletedStore`, `ContactBook`, `RequestsStore`, `AbortedStore`, `RetryMap`, `DeliveredCounts`, `SentFiles`,
  `Batcher`, `Gossip.Node`); a loop is a loop. Each method is proved equal to a function of its inputs and the old
  fields, and what the code promises is proved of that function.
* A protocol that runs concurrently is a step relation. One step is one section that holds a lock, or one act of the
  runtime or the network; a run is any sequence of steps, so every interleaving, loss (a step that never comes),
  repetition and delay is covered. Where a handler takes several sections, what it still has to do is part of the
  state.
* File writes succeed or fail as a parameter says; the state in memory changes all the same, as in the code. Clocks,
  random choices, generated ids and the outcome of a send are parameters of the steps. Fresh ids are assumed where the
  code generates them from the clock.
* Reals stand for `float64` and rounding is idealised. 32-bit and 64-bit truncation and wrap-around are written out
  where they decide the outcome (steganographic lengths, ports, `time.Since`).

| file | what it models |
|---|---|
| `Memory.dfy` | the message store and its three indexes |
| `StoreLaws.dfy` | what operations and runs make of one stored message |
| `Deletion.dfy` | deletion by snapshot while the live slice is reordered |
| `StatusRule.dfy` | statuses and READ receipts |
| `AckBatching.dfy` | batching of delivery acknowledgements with timers and retries |
| `Delivery.dfy` | texts between nodes: pending queue, dedup, acknowledgement |
| `Sphinx.dfy` | onion packets, for any number of relays |
| `Stego.dfy` | embedding data in the low bits of WAV samples |
| `Numerics.dfy` | Newton's square root, cosine similarity, vectors, initial weight |
| `Chunking.dfy` | cutting files into chunks and sending them |
| `ChunkRuns.dfy` | runs of a file transfer: resends, resumption, acknowledgements, sweeps, reassembly |
| `ChunkCounts.dfy` | counting a file's acknowledgements |
| `Gossip.dfy`, `GossipRuns.dfy`, `GossipWave.dfy` | layers of weights, runs of gossiping nodes, the spread of one broadcast |
| `Contacts.dfy`, `ContactBook.dfy`, `Requests.dfy` | contact, deleted and request stores; adding and removing contacts |
| `Handshake.dfy` | contact requests and acceptances between nodes |
| `AbortBarrier.dfy` | aborting a file while its chunks arrive |
| `Retry.dfy` | the map of unacknowledged chunks, section by section |
| `TextBatching.dfy` | texts batched per recipient |
| `Transport.dfy` | TCP and WebSocket alternatives of an address |
| `Common.dfy` | options, results, bytes, 32-bit lengths, 64-bit wrap-around |

## Where the code does less than it seems to promise

Each of these is a lemma that says exactly when the promise holds.

* `Memory.Remove` drops the chunk key of the removed message even when another stored message has the same key; the
  chunk index stays complete exactly when none has (`RemoveKeepsChunksComplete`).
* `extractLSB` compares 32-bit truncations, so it inverts `embedLSB` exactly when the length and the bound survive
  them (`ExtractInvertsEmbed`); below 32 GiB they always do.
* The abort barrier stands exactly when no handler of the file's chunks is past its check and none of the chunks is
  stored at the moment the file is marked (`BarrierIffQuiet`); a handler that overlaps the abort can leak its chunk
  (`OverlapLeaksChunk`).
* A READ whose ref is empty, which the `refs` of a receipt may hold, raises every stored message without a media id,
  that is, all texts (`EmptyRefRaisesTexts`); a READ is confined to the message or file it names exactly when its ref
  is not empty and a chunk it names has a media id (`ReadIsPrecise`).
* One pending request per peer is kept exactly unless an add overwrites, by id, a request that is not its peer's
  pending one (`AddKeepsOnePending`), or a status update makes a second one pending (`SetKeepsOnePending`).
* No peer is ever both a contact and deleted as long as an add and a removal of that peer do not overlap
  (`NeverInBothLists`); one add and one removal side by side leave it in both lists exactly when they overlap
  (`OverlapBreaksDisjoint`).
* Every acknowledgement of a chunk adds one to its file's count, repeated ones included, and a full count deletes all
  the file's entries. So another chunk's acknowledgement ends the retrying of a chunk nobody has acknowledged exactly
  when it is of the same file and takes the count to the number of chunks (`OtherAckDrops`); of two chunks, the second
  is given up seconds after its first send when the acknowledgement of the first is processed twice
  (`RepeatedAckDropsOther`), or once after a resumption has counted it from its status (`ResumedCountDropsOther`).
  When each chunk is sent under one id, each acknowledgement is processed once and no count is set above what has been
  counted, this cannot happen (`SweepSparesUnacked`, `NothingLostBySweeps`).
* The log speaks of failed restores, but the limit of three counts re-queues as well: a failed restore drops an entry
  exactly when it has been attempted twice before, in whatever way (`FailedRestoreDrops`), so the first restore to
  fail can drop it 210 seconds after the first send (`FirstFailedRestoreDrops`).
* An entry that runs out of attempts is given up no sooner than 4110 seconds after its first send, except that one
  created anew while a pass still has an older entry of that id on its list skips the first 30 (`StaleListSkipsWait`).
  But an acknowledgement, a failed restore, a sweep of its file or a declined file may end it sooner
  (`EndOfLifetime`).
* An entry acknowledged between a retry pass and its failed restore comes back as an entry that names no file
  (`AckedEntryReturns`).
* A text is lost when another call adds one for the same peer between the two sections of an overflowing `addToBatch`
  (`OverlapLosesText`): each peer's batches and buffer are what was added, in order, exactly when every second section
  finds the buffer empty (`NothingLostOrOversized`), as it does when no call overlaps an overflowing one for its peer
  (`NoOverlapLosesNothing`).
* A flush leaves no text behind that was added a second ago or more, except one that restarted its buffer and was
  joined by another less than a second ago: `addToBatch` leaves the time of a restarted buffer unset, so the next text
  sets it anew (`FlushedInTime` says exactly when, `RestartedTextIsHeldUp` how).
* The WebSocket alternative of an address leads back to it exactly when its port has no leading zeros and is not the
  greatest 64-bit integer (`AlternativeUndone`).
* The comment on `ContactsStore.Add` says the user's name for a contact is kept; the code keeps it only when the new
  name is empty, and so does the model. The comment on `retryBackoff` says about an hour; the sum is 4110 seconds.

## Model

| member | source | states |
|---|---|---|
| `MessageStore.RunRefinesMap` | node/memory.go:131-572 | after any run of store operations the ids are distinct and the slice, read as a map, is what the same run makes of a plain map |
| `MessageStore.StepRefines` | node/memory.go:131-572 | each operation does to the slice, with its swap-removal, its filters and its updates in place, what it does to a map |
| `MessageStore.LookupIsScan` | node/memory.go:280-295 | with unique chunk keys a sound, complete index answers every query as a linear scan does |
| `MessageStore.RemoveKeepsChunksSound` | node/memory.go:299-334 | after a removal every index entry still points at a stored chunk with its key |
| `MessageStore.RemoveKeepsChunksComplete` | node/memory.go:299-334 | the index stays complete if and only if no other message shares the removed one's chunk key |
| `MessageStore.SharedKeyLosesChunk` | node/memory.go:324-331 | a store in which the index loses a chunk that is still there |
| `MessageStore.KeptView` | node/memory.go:520-572 | filtering the slice filters the map |
| `MessageStore.DropsOverdue` | node/memory.go:546-572 | a sweep drops a message exactly if it is past its own expiry, or has a TTL mode, a positive period and was created more than 48 hours ago; the others stay as they are |
| `MessageStore.LastingStays` | node/memory.go:546-572 | a message without expiry and without a TTL mode or period is dropped by no run without its removal or a purge |
| `MessageStore.PurgesAged` | node/memory.go:520-541 | a purge drops a message exactly once it has aged a hundred hours for each unit its weight is above the threshold |
| `StoreLaws.AddStores` | node/memory.go:131-175 | exactly when an add stores, and the message it stores, field by field |
| `StoreLaws.FieldsAfter` | node/memory.go:179-262 | which fields an operation changes in which message, and to what; identity, sender, file and TTL never |
| `StoreLaws.WeightAfter` | node/memory.go:417-468 | weight, age and archive mark after archiving, restoring and reweighting, and that nothing else changes them |
| `StoreLaws.AgesByTheHour` | node/memory.go:520-541 | the aged weight is the weight less a hundredth for each hour |
| `StoreLaws.RunFields` | node/memory.go:131-572 | over any run a message that stays keeps what it is; its text unless cleared; the last expiry set; its read mark exactly if some marking named it |
| `MessageStore.Memory.Add` | node/memory.go:131-175 | stored exactly when not seen and not expired, with defaults filled in; indexes stay valid |
| `MessageStore.Memory.Remove` | node/memory.go:299-334 | the swap-removal, validity of all indexes, and exactly when completeness survives |
| `MessageStore.Memory.SetStatus` | node/memory.go:193-211 | the status rule applied to that message alone, and exactly when it reports a change |
| `MessageStore.Memory.MarkReadLocally` | node/memory.go:215-237 | marks the named messages and no others, and counts those that were not marked |
| `MessageStore.Memory.ArchiveOld` | node/memory.go:417-433 | archives exactly the messages whose aged weight is below the threshold, and counts those that were not archived |
| `MessageStore.Memory.RestoreFromArchive` | node/memory.go:436-450 | brings back that message alone, with a new weight and time, and exactly when it reports a change |
| `MessageStore.Memory.UpdateWeight` | node/memory.go:453-468 | the clamped weight of that message alone |
| `MessageStore.Memory.GetFileChunk` | node/memory.go:280-295 | the stored message the index names; with unique keys, what a scan finds |
| `MessageStore.Memory.ClearFileChunk` | node/memory.go:259-276 | clears the data of the chunk found and nothing else |
| `MessageStore.Memory.RebuildIndexes` | node/memory.go:377-391 | from any slice with distinct ids the position and chunk indexes are rebuilt to agree with it, the chunk index complete |
| `MessageStore.Memory.PurgeDead` | node/memory.go:520-541 | keeps exactly the messages whose aged weight reaches the threshold, in order |
| `MessageStore.Memory.DeleteExpired` | node/memory.go:546-572 | keeps exactly the messages neither past their expiry nor, with a TTL mode and period, older than 48 hours, in order |
| `MessageStore.Memory.ApplyAll` | node/memory.go:131-572 | a run of operations on the object is the run on the slice; it stays complete while no removal shares a key |
| `Deletion.RemoveMatching` | node/node_contacts.go:442-448 | looping over a snapshot while the slice is reordered removes exactly the matching messages |
| `Deletion.DeleteFile` | node/node_files.go:331-343 | removes exactly the file's messages and counts them; the empty media id removes none |
| `StatusRule.FinalStatus` | node/memory.go:193-211 | any sequence of updates ends in the first Hidden or Read if there is one, else in the maximum |
| `StatusRule.NeverDecreases` | node/memory.go:193-211 | no update lowers a status |
| `StatusRule.RunStatus` | node/memory.go:193-211 | over a run of store operations a message's status is the fold of the updates addressed to it |
| `StatusRule.HandleRead` | node/node_service.go:47-102 | leaves exactly what its ref reaches (the message it names, the file of the chunk or media id it names) Hidden or Read, none lower than before; starts the after-read expiry of the message it names; changes nothing else |
| `StatusRule.ReadOutcome` | node/node_service.go:47-102 | the same of every message of the slice, field by field |
| `StatusRule.ReadUpdatesRun` | node/node_service.go:53-81 | the single updates of a READ, one after the other, do what the READ does |
| `StatusRule.ReadRunReaches` | node/node_service.go:53-81 | whatever store operations run among them, each message the ref reaches that stays ends Hidden or Read, and no update is for another |
| `StatusRule.ReadCoversFile` | node/node_service.go:57-81 | a READ for a chunk or a media id leaves every stored chunk of the file Hidden or Read |
| `StatusRule.ReadAmongOthers` | node/node_service.go:47-81 | whatever runs between the updates of a READ, a message it updates and that stays ends Hidden or Read |
| `StatusRule.ReadIsPrecise` | node/node_service.go:47-81 | a READ reaches only the message or file it names if and only if its ref is not empty and a named chunk has a media id |
| `StatusRule.EmptyRefRaisesTexts` | node/node_service.go:47-81 | the empty ref raises every message without a media id |
| `AckBatching.NextKeepsSafe` | node/node_service.go:280-357 | every section and timer act keeps: a wakeup is due while refs are pending; each ref is pending, in flight or sent; no duplicates |
| `AckBatching.RunKeepsSafe` | node/node_service.go:280-357 | the same over every interleaving for a peer |
| `AckBatching.NodeRunKeepsSafe` | node/node_service.go:280-357 | the same for all peers of a node at once |
| `AckBatching.SlotsAreIndependent` | node/node_service.go:280-356 | after any run a peer's slot is what its own events alone make of it |
| `AckBatching.WakeupDelivers` | node/node_service.go:323-357 | from any safe slot with refs pending, the outstanding wakeup leads to a send of all of them |
| `AckBatching.RunKeepsPrompt` | node/node_service.go:280-356 | over every interleaving ten or more pending refs never wait for the timer: a flush or a retry is due |
| `AckBatching.NineWaitTenFlush` | node/node_service.go:280-320 | up to nine refs queued at rest arm one timer and call no flush; the tenth stops it and calls one |
| `AckBatching.QueuedTwice` | node/node_service.go:280-296 | queueing a ref that is pending changes nothing |
| `AckBatching.IdleFlush` | node/node_service.go:323-333 | a flush that finds nothing pending is used up and leaves no trace |
| `AckBatching.CycleRests` | node/node_service.go:300-356 | a list through its timer, its flush and at most one failed send leaves the slot at rest, with all of it sent |
| `AckBatching.DeliveredBuffer.Queue` | node/node_service.go:280-320 | what is queued and whether to arm a timer, flush or do nothing; other peers untouched |
| `AckBatching.DeliveredBuffer.Take` | node/node_service.go:323-337 | the batch taken and the timer to stop; other peers untouched |
| `AckBatching.DeliveredBuffer.PutBack` | node/node_service.go:338-356 | a failed batch goes back behind newer refs without duplicates |
| `Delivery.RunKeepsInv` | node/node.go:1102-1179 | the system invariant holds over every run of composing, sending, flushing, arriving, acknowledging and storing, with texts that may expire |
| `Delivery.QueuedOrStored` | node/node_p2p.go:297-340 | a composed text is still queued at its sender, has been stored by its recipient, with its author and body, or had an expiry and arrived after it |
| `Delivery.StoresBalanceDrops` | node/memory.go:131-175 | stores and drops of a text at its recipient balance: at most once while it stays in memory |
| `Delivery.PendingQueue.RemovePendingByRef` | node/node.go:1160-1179 | exactly the texts with that id leave the queue, in order; the empty ref removes none |
| `Delivery.RemoveRefInOrder` | node/node.go:1160-1179 | what is left of the queue keeps its order |
| `Delivery.PendingQueue.EnqueuePending` | node/node.go:1102-1113 | the text is appended |
| `Delivery.CanComplete` | node/node_service.go:360-368 | from every reachable state a pending text can still be delivered, if it arrives before it expires, and cleared from the queue |
| `Sphinx.Build` | node/sphinx.go:154-253 | succeeds exactly when keys, payload and ids fit, with the right error otherwise, and builds the onion layer by layer |
| `Sphinx.RelayPeels` | node/sphinx.go:258-318 | each relay recovers exactly its next hop, both flags and the next packet |
| `Sphinx.ExtractsFinalLayer` | node/sphinx.go:323-353 | the recipient recovers the payload from the last layer, whose size is 65716 |
| `Sphinx.OnionSize` | node/sphinx.go:154-253 | the length depends only on the relays left: 65716 plus 278 for each |
| `Sphinx.TravelFrom` | node/sphinx.go:258-353 | from any hop on, peeling gives the rest of the itinerary and the payload |
| `Sphinx.BuildThenTravel` | node/sphinx.go:96-353 | building succeeds exactly for payloads up to 65532 bytes with fitting ids, and peeling inverts it |
| `Sphinx.TamperNeedsForgery` | node/sphinx.go:290-305 | a changed packet is accepted only with a valid MAC over bytes that differ from the accepted ones |
| `Sphinx.RelayWire` | node/sphinx.go:154-253 | the offsets of a relay's packet: id and its length, flags, routing, nonce, ciphertext |
| `Sphinx.FinalWire` | node/sphinx.go:154-253 | the offsets of the recipient's packet, and what is sealed in it |
| `Common.BigEndian` | node/sphinx.go:154-253 | lengths are written with the most significant byte first |
| `Sphinx.ProcessOutcome` | node/sphinx.go:258-318 | which packets a relay accepts, what it then takes from them, and for each other the first thing that is wrong |
| `Sphinx.ExtractOutcome` | node/sphinx.go:323-353 | what is extracted stands in the decrypted bytes behind its length; every other case is its error |
| `Sphinx.LawsAreConsistent` | node/sphinx.go:154-353 | the laws assumed of the cryptography have a model |
| `Stego.OrderIsOrder` | node/stego.go:50-56 | the shuffle yields each index once |
| `Stego.EmbedLSB` | node/stego.go:26-72 | succeeds exactly when header and bits fit, and then the result carries the framed data |
| `Stego.ExtractLSB` | node/stego.go:75-123 | computes the extraction, and what it returns is carried by the file with its length |
| `Stego.ExtractInvertsEmbed` | node/stego.go:75-123 | extraction returns the data if and only if its length survives the 32-bit truncations |
| `Stego.ExtractInvertsEmbedBelow32GiB` | node/stego.go:26-123 | for audio below 32 GiB extraction always returns what was embedded |
| `Stego.ExtractedIsThere` | node/stego.go:75-123 | whatever is extracted fits and is already carried by the file, so embedding it again changes nothing |
| `Stego.ExtractionByLength` | node/stego.go:75-123 | the outcome for any file by its size and the length its first 32 bits spell: each error, or that many bytes |
| `Stego.SomeLengthIsSpelled` | node/stego.go:92-104 | every file with room for a length spells one |
| `Stego.EveryOrderIsReached` | node/stego.go:50-56 | some choices of the generator lead to any given order |
| `Stego.EmbeddingIsSlight` | node/stego.go:58-69 | header and length stay, only lowest bits change, in at most one byte per bit |
| `Stego.ReEmbeddingChangesNothing` | node/stego.go:26-72 | embedding the same data again changes nothing |
| `Stego.EmbeddingKeepsWAV` | node/stego.go:136-141 | the result is a WAV file exactly when the input is |
| `Stego.WAVIsRiffWave` | node/stego.go:136-141 | a WAV file is one of at least twelve bytes with RIFF and WAVE in their places |
| `Numerics.NewtonError` | node/utils.go:446-455 | after k steps the square exceeds x by at most (x-1)^2 / 4^k and is never below x |
| `Numerics.SqrtAccuracy` | node/utils.go:446-455 | the same for the twenty steps of the code |
| `Numerics.Sqrt` | node/utils.go:446-455 | the loop computes the twentieth iterate, and zero for non-positive input |
| `Numerics.CauchySchwarz` | node/utils.go:457-471 | the inequality for vectors of any length |
| `Numerics.CosineBounded` | node/utils.go:457-471 | the approximate cosine lies in [-1,1], and is non-negative for non-negative vectors |
| `Numerics.CosineSimilarity` | node/utils.go:457-471 | the loop computes that cosine |
| `Numerics.CosineAccuracy` | node/utils.go:457-471 | the cosine has the sign of the dot product and its square over the squared norms, but for the error of the roots; zero for zero vectors and different lengths |
| `Numerics.HashEntryIs` | node/utils.go:24-33 | each entry by the rune that begins there, or zero |
| `Numerics.RunesAdd` | node/utils.go:35-66 | the shares of runes add up, each three tenths of its code |
| `Numerics.PairsAdd` | node/utils.go:35-66 | each further byte pair adds seven tenths of one byte of its hash over 255 |
| `Numerics.WeightIsMonotone` | node/node_p2p.go:1137-1156 | the weight grows with the similarity to the ethics and pre hashes and falls with that to the anti hash |
| `Numerics.WeightCorners` | node/node_p2p.go:1137-1156 | its values at no and full similarity |
| `Numerics.HashToVector` | node/utils.go:24-33 | entry i is the code of the rune at byte i over 255, else zero |
| `Numerics.TextToVector` | node/utils.go:35-66 | the sums over runes and hashed byte pairs, divided by the largest |
| `Numerics.TextVectorIsUnit` | node/utils.go:51-65 | every entry lies in [0,1], and one is 1 unless all are zero |
| `Numerics.WeightOfInRange` | node/node_p2p.go:1137-1156 | for every text and hashes the initial weight lies in [0.1, 0.8] |
| `Numerics.InitialWeight` | node/node_p2p.go:1137-1156 | computes that weight from the three similarities |
| `Chunking.ChunkIsNonEmpty` | node/media.go:422-432 | the indices below ChunkTotal are exactly those that read something, and all but the last read a full chunk |
| `Chunking.SlicesJoin` | node/media.go:391-432 | the chunks in order are the file |
| `Chunking.SendFileChunks` | node/media.go:405-490 | what the loop queues and stores, up to the abort, with failing chunks left out; and what an abort clears up |
| `Chunking.QueuedIsFile` | node/media.go:405-490 | with no failure the data queued is, in order, the file |
| `Chunking.QueuedAre` | node/media.go:405-490 | with failures the queue holds just the messages of the other chunks, in the order of the file |
| `ChunkRuns.RunKeepsInv` | node/media.go:566-643 | over every run of offers, sends, retries, failed restores, resumes, acknowledgements, sweeps, arrivals and store operations each chunk is the slice of its file |
| `ChunkRuns.FoundChunksAreTheFile` | node/memory.go:280-295 | once the receiver finds every chunk with its data, their concatenation is the file |
| `ChunkRuns.RetryDelivers` | node/node_files.go:247-276 | after any run a chunk whose entry names a file still on disk can be restored, and one arrival before its expiry puts it in the store |
| `ChunkRuns.ResumedRestores` | node/media.go:617-641 | a resumption writes an entry for every stored chunk of the file not yet delivered |
| `ChunkRuns.ResumedOnly` | node/media.go:617-641 | and touches no other |
| `ChunkRuns.NothingLostBySweeps` | node/node_service.go:411-433 | a chunk sent is still waiting, retried, stored, expired, given up or swept with its file; and no sweep loses one if each chunk has one id, each acknowledgement is processed once and no count is set too high |
| `ChunkCounts.FullCountIsAll` | node/node_service.go:411-433 | with one id per chunk, as many ids as the file has chunks are all its ids |
| `ChunkCounts.CountIsCapped` | node/node_service.go:411-424 | after n acknowledgements of a file's chunks the count is n, or the number of chunks if that is less |
| `ChunkCounts.DeliveredCounts.Count` | node/node_service.go:411-424 | the count goes up by one, never above the total, and the file is to be swept exactly when it has reached it |
| `Gossip.Forward` | node/layers.go:21-45 | the loops compute the pass through the layers of matching length |
| `Gossip.ForwardRange` | node/layers.go:21-45 | the output is in [-1,1] if some layer matches, else it is the input |
| `Gossip.ForwardIsProduct` | node/layers.go:21-45 | in [-1,1] each output is its input times the weights it meets |
| `Gossip.TrainingLowersError` | node/layers.go:48-73 | for one layer and a small enough rate a training step takes no output further from its target |
| `Gossip.DeltaIs` | node/layers.go:97-149 | a layer is sent exactly if it is new, has another length, or some weight has moved by more than 0.005 |
| `Gossip.Node.Train` | node/layers.go:48-73 | each weight of the last layer moves by its error times the rate, clamped, in place; and nothing else |
| `Gossip.Node.ReceiveDelta` | node/layers.go:205-222 | averages known layers and installs new ones; what is passed on shows what later entries averaged in |
| `Gossip.NewLayerIsInstalled` | node/layers.go:213-218 | a layer the node lacks is taken as it is, behind zero layers, and those it has stay |
| `Gossip.PassedOnAsItCame` | node/layers.go:205-245 | a delta that names no layer twice is passed on as it came |
| `Gossip.TwoEntriesShare` | node/layers.go:205-245 | of two entries for one new layer the first is passed on as the second has made it |
| `Gossip.Node.ReceiveFull` | node/layers.go:296-314 | every common layer of one length meets the peer's halfway; the others are kept or taken over |
| `Gossip.Node.TakeDelta` | node/layers.go:97-149 | exactly the changed layers, and the record of what was last sent |
| `GossipRuns.RunStaysBounded` | node/layers.go:48-316 | from weights in [-1,1] every run keeps every weight and every number in flight in [-1,1] |
| `GossipRuns.AveragingNeverSpreads` | node/layers.go:205-314 | without training or gaps no run leaves the interval it started in |
| `GossipRuns.GapAddsZeros` | node/layers.go:214-218 | a gap does leave an interval that has no zero |
| `GossipRuns.DeltaMeetsHalfway` | node/layers.go:205-222 | after a delta of known layers each new weight is as far from the old one as from the received one, and the other layers stay |
| `GossipRuns.FullMeetsHalfway` | node/layers.go:296-314 | the same for all layers of a peer |
| `GossipRuns.BroadcastSends` | node/layers.go:97-205 | a broadcast sends and records every layer that has moved; a throttled one, or one of an untouched node, changes nothing |
| `GossipRuns.ArrivalForwards` | node/layers.go:224-265 | a wave is passed on with one hop less while hops are left, the older formats are not; whatever arrives marks the node touched |
| `GossipRuns.RepeatedMeetingsConverge` | node/layers.go:296-314 | a node that hears n times of one peer's layers has 1/2^n of its distance to them left, whatever the other nodes do |
| `GossipRuns.ExchangeAgrees` | node/layers.go:296-314 | two nodes that each receive the other's layers agree on every common one |
| `GossipWave.SelectRandomPeers` | node/layers.go:319-329 | distinct peers of the list, as many as asked for or all |
| `GossipWave.NoForwardToSender` | node/layers.go:227-245 | no copy is sent on to the peer it came from |
| `GossipWave.SentOnToFanout` | node/layers.go:224-265 | a copy that may travel on does, with one hop less, to as many different peers as the fanout asks for or there are |
| `GossipWave.NextLowersMeasure` | node/layers.go:224-265 | each delivery uses up one of the deliveries the copies in flight are worth |
| `GossipWave.WaveEnds` | node/layers.go:159-265 | one broadcast causes at most F + F^2 + F^3 deliveries, F being the fanout of the most peers any node has, however connections come and go |
| `Contacts.RunRepresents` | node/contacts.go:150-297 | after any run there is one contact per peer, and the list is what the run makes of a map |
| `Contacts.ConfirmedStays` | node/contacts.go:150-297 | a confirmation is undone by nothing but removal |
| `Contacts.NameStays` | node/contacts.go:166-189 | a name is changed by nothing but removal, renaming or an add that brings a name |
| `Contacts.ConsentStays` | node/contacts.go:150-297 | consent to read receipts is taken back by nothing but removal or the change of it |
| `Contacts.KeysAreLatest` | node/contacts.go:150-243 | a peer is a contact exactly if added since its last removal, with the keys, signature and verification of the last add |
| `Contacts.ContactsStore.Add` | node/contacts.go:150-194 | the merged or appended contact, and exactly when it reports success |
| `Contacts.ContactsStore.SetConfirmed` | node/contacts.go:282-297 | the contact confirmed, the others unchanged, and exactly when it reports success |
| `Contacts.ContactsStore.Remove` | node/contacts.go:227-243 | the list without the peer, and exactly when it reports success |
| `Contacts.DeletedStore.Add` | node/deleted.go:132-145 | the peer is marked; idempotent |
| `Contacts.DeletedStore.RemoveFromDeleted` | node/deleted.go:149-162 | the mark is gone; idempotent |
| `ContactBook.ContactBook.AddContact` | node/node_contacts.go:371-410 | never oneself; the peer leaves the deleted list and is added or updated, verified as its signature says |
| `ContactBook.ContactBook.RemoveContact` | node/node_contacts.go:429-453 | both stores updated and exactly the peer's messages purged |
| `ContactBook.VerifiedIsSigned` | node/node_contacts.go:371-410 | over every run a contact that counts as verified was added with its keys and a signature found valid for them |
| `ContactBook.SignedIsVerified` | node/node_contacts.go:371-410 | an add with both keys and a valid signature does verify the contact |
| `ContactBook.NeverOneself` | node/node_contacts.go:371-380 | no run of calls makes a node its own contact |
| `ContactBook.RunKeepsDisjoint` | node/node_contacts.go:371-453 | over runs of whole calls no peer is both a contact and deleted |
| `ContactBook.NeverInBothLists` | node/node_contacts.go:371-453 | with any number of calls interleaved section by section no peer is ever in both lists, as long as an add and a removal of that peer do not overlap |
| `ContactBook.OverlapCanBreak` | node/node_contacts.go:371-453 | from any state with both under way, finishing them puts the peer in both lists |
| `ContactBook.OverlapBreaksDisjoint` | node/node_contacts.go:371-440 | for an add and a removal of one peer side by side the lists stay disjoint exactly when the calls do not overlap |
| `Requests.RequestsStore.Add` | node/requests.go:139-181 | the two-level replacement, and exactly when it reports success |
| `Requests.RequestsStore.Remove` | node/requests.go:259-275 | the list without the id, and exactly when it reports success |
| `Requests.RequestsStore.SetStatus` | node/requests.go:244-256 | the status of that request alone, and exactly when it reports success |
| `Requests.AddKeepsIDs` | node/requests.go:139-181 | request ids stay unique and the request is there afterwards |
| `Requests.AddKeepsOnePending` | node/requests.go:152-178 | one pending request per peer is kept if and only if no other request is overwritten by id |
| `Requests.ReusedIDBreaksOnePending` | node/requests.go:157-163 | a store and an add that break it |
| `Requests.SetKeepsOnePending` | node/requests.go:244-256 | a status update keeps one pending request per peer if and only if it does not make a second one pending |
| `Requests.RunKeepsAll` | node/requests.go:139-275 | both properties over every run of adds, removals and status updates without such an add or update |
| `Handshake.RunKeepsInv` | node/node_contacts.go:17-105 | over every run, with rejections and removals, each confirmation, acceptance in flight and unfinished call is backed by a request and its acceptance |
| `Handshake.ConfirmationIsMutualOrPending` | node/node_contacts.go:555-581 | if a has b confirmed, a accepted a request b sent, or b accepted one a sent and has a confirmed unless it has removed a since |
| `Handshake.ConfirmedUntilRemoved` | node/contacts.go:282-297 | over every run no step takes a confirmation back but the removal of the contact by its own node |
| `Handshake.HandshakeCompletes` | node/node_contacts.go:17-105 | from any state a request, its acceptance and its arrival leave both sides confirmed and the request gone |
| `Handshake.RejectAndRemove` | node/node_contacts.go:583-602 | a rejection takes the request and a removal the contact, and nothing else |
| `AbortBarrier.BarrierIffQuiet` | node/node_p2p.go:305-340 | the barrier holds exactly when no chunk handler is past its check and no chunk is stored |
| `AbortBarrier.AbortRaisesBarrier` | node/node_offers.go:467-501 | an abort that no chunk handler overlaps raises the barrier, whatever else happens meanwhile |
| `AbortBarrier.QuietRunsStayShut` | node/node_p2p.go:539-568 | while the file stays marked nothing of it is stored, counted or acknowledged |
| `AbortBarrier.OverlapLeaksChunk` | node/node_p2p.go:305-313 | a run in which an overlapping handler stores a chunk of a marked file |
| `AbortBarrier.AbortPass` | node/node_offers.go:467-501 | an abort that runs through takes all messages of the file and its count, marks it, and changes nothing else |
| `AbortBarrier.ChunkPass` | node/node_p2p.go:305-340 | a chunk of a marked file changes nothing; any other message that runs through is stored, counted and acknowledged |
| `AbortBarrier.UnmarkReopens` | node/aborted.go:133-146 | lifting a mark lifts that one only, and chunks of the file are let in again |
| `AbortBarrier.CleanUpTakes` | node/aborted.go:169-186 | a cleanup takes exactly the marks set more than a day before |
| `AbortBarrier.MarkLastsADay` | node/aborted.go:169-186 | over every run a mark stays for a day unless the receiver confirms the file complete |
| `AbortBarrier.AbortedStore.CleanupExpired` | node/aborted.go:169-186 | drops exactly the marks older than a day and counts them |
| `AbortBarrier.AbortedStore.Add` | node/aborted.go:119-129 | the mark with its time |
| `AbortBarrier.AbortedStore.Remove` | node/aborted.go:133-146 | the mark is gone; idempotent |
| `Retry.RetryMap.ChunkSent` | node/node_files.go:42-60 | a new entry has no attempts, a known one keeps them |
| `Retry.RetryMap.Collect` | node/node_files.go:197-210 | drops what is out of attempts and collects exactly what is due, each once |
| `Retry.RetryMap.AfterFailedRestore` | node/node_files.go:214-227 | one attempt more, and removal at the third attempt of any kind |
| `Retry.RetryMap.AfterRequeue` | node/node_files.go:230-238 | one attempt more for an entry that is still there |
| `Retry.RetryMap.DropFile` | node/node_service.go:424-433 | drops exactly the file's entries |
| `Retry.DueAfterWait` | node/node_files.go:163-210 | an entry is collected exactly when the wait its attempts ask for (30, 60, 120, 300, then 600 seconds) is over, and dropped exactly from ten attempts on |
| `Retry.WaitsAnew` | node/node_files.go:42-243 | after a send, resumption, re-queue or failed restore the chunk is not due before the wait for its attempts, counted from then |
| `Retry.AtMostTenRequeues` | node/node_files.go:189-243 | in one lifetime a chunk is queued again at most ten times |
| `Retry.AttemptsNeverFall` | node/node_files.go:189-243 | attempts never go down within a lifetime, which a first send or a resumption begins |
| `Retry.BeginsHere` | node/node_files.go:42-60 | a first send, and a resumption whatever was there, begin a lifetime |
| `Retry.EndOfLifetime` | node/node_files.go:163-243 | a lifetime ends by its own acknowledgement, by a failed restore after two attempts of any kind, by a sweep of its file (a full count or a declined file), or by giving up no sooner than 4110 seconds after the first send (4080 for an entry created while a pass has an older one on its list) |
| `Retry.FailedRestoreDrops` | node/node_files.go:214-219 | a failed restore removes the entry if and only if it has been attempted at least twice, in whatever way |
| `Retry.FirstFailedRestoreDrops` | node/node_files.go:214-219 | after two re-queues the first failed restore drops the entry, 210 seconds after the first send |
| `Retry.OtherAckDrops` | node/node_service.go:411-433 | processing another chunk's acknowledgement drops an entry if and only if it is of the same file and takes the count to the total |
| `Retry.RepeatedAckDropsOther` | node/node_service.go:411-433 | a file of two chunks in which the acknowledgement of one, processed twice, drops the other |
| `Retry.ResumedCountDropsOther` | node/media.go:599-608 | the same after a resumption, with each acknowledgement processed once |
| `Retry.FreshIsBacked` | node/node_service.go:411-433 | before any acknowledgement every count is backed, so the next two apply |
| `Retry.SweepSparesUnacked` | node/node_service.go:411-433 | with one id per chunk, each acknowledgement processed once and no count set too high, only the sweep of a declined file touches an unacknowledged entry |
| `Retry.EndWhenAckedOnce` | node/node_service.go:411-433 | then an unacknowledged chunk of a file not declined is dropped by a failed restore after two attempts, or given up after 4110 seconds |
| `Retry.StaleListSkipsWait` | node/node_files.go:228-238 | how such an entry skips the first wait |
| `Retry.ElevenPassesEmpty` | node/node_files.go:189-243 | with no new entries eleven passes that find everything due empty the map |
| `Retry.AckedEntryReturns` | node/node_files.go:214-227 | an entry acknowledged before its failed restore comes back without a file |
| `TextBatching.EstimateBatchJSONSize` | node/node_batch.go:41-47 | the loop computes the estimate |
| `TextBatching.EstimateOfJson` | node/node_batch.go:41-47 | the estimate is the length of the JSON plus nine plus ten for each text, when nothing needs escaping |
| `TextBatching.Batcher.AddToBatch` | node/node_batch.go:50-83 | the first section: which texts are sent off, what is left, and when the second is to run, in each branch |
| `TextBatching.Batcher.Restart` | node/node_batch.go:65-67 | the second section replaces the buffer by one with the text alone |
| `TextBatching.TakenIsFull` | node/node_batch.go:50-83 | texts are sent off only ten at a time or because the next would take the estimate beyond 61440 |
| `TextBatching.Batcher.FlushAllBatches` | node/node_batch.go:135-157 | takes and resets exactly the buffers with texts whose first time is unset or a second old, each once, and leaves the others |
| `TextBatching.FlushedInTime` | node/node_batch.go:50-157 | over every run a flush leaves behind no text added a second ago or more, exactly unless it restarted its buffer and another came within the second; all others have been sent or overwritten |
| `TextBatching.RestartedTextIsHeldUp` | node/node_batch.go:61-69 | how such a text is left behind |
| `TextBatching.NothingLostOrOversized` | node/node_batch.go:41-157 | over every interleaving each batch has 1 to 10 texts, a single one or within 61440; and per peer the batches followed by the buffer are the texts added, in order, if and only if every second section finds the buffer empty |
| `TextBatching.NoOverlapLosesNothing` | node/node_batch.go:50-83 | it does when no text is added for a peer between the two sections of a call for that peer |
| `TextBatching.OverlapLosesText` | node/node_batch.go:61-69 | a text added between them is overwritten |
| `Transport.ExpandTransportAlternatives` | node/node_p2p.go:1283-1315 | the scan and the two branches |
| `Transport.AlternativeUndone` | node/node_p2p.go:1283-1315 | the alternative leads back exactly for canonical ports below the greatest integer |

## Left out

- libp2p hosts, streams, DHT, relays, reconnection and pings: the network is the set of packets ever sent, any of
  which may arrive any number of times or never.
- The ciphers, MAC, key agreement and signatures themselves: their laws are assumed (section 7 of NIST SP 800-38D,
  section 2 of RFC 2104, section 6.1 of RFC 7748). End-to-end encryption is the identity on a message's text.
- JSON, base64, gzip, files on disk, save throttling, crashes and restarts. A sent file is its contents; the copies
  and descriptions that a stopping sender removes are sets of names.
- HTTP and WebSocket handlers, the mobile bindings and the user interfaces.
- The RESTORE path, which bypasses the abort check.
- How a node tells a relay's packet from a recipient's: rejection of a final layer as a relay layer is only
  probabilistic.
- The vector-to-text bigram table, channels, adaptation, settings and logging: only easy claims.
- The offers store, the threshold above which an offer is shown, temporary contacts, dummy traffic, mixing delays and
  obfuscation: only easy claims.
- StatusRule.HandleRead: is one call with nothing in between, although each update takes the lock anew; what holds
  when others run in between is `ReadAmongOthers`. The handler's later pushes to the user interface are not modelled.
- ChunkRuns.NothingLostBySweeps: takes the three sections of one acknowledgement as one step; `Retry` takes them
  apart.
- TextBatching.EstimateBatchJSONSize: counts characters, where the code counts bytes.
- Negative layer indices in a delta, on which the code fails, are not modelled.
- Chunks of files the node itself sends are outside the abort barrier, which is the receiver's; a stopping sender
  clears its own flag.
