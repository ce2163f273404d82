# Verified model of the recorder's corpus

hft-recorder captures market data into a *binary market corpus*: a directory of segment files, tables
and a manifest that one writer fills and two readers follow. This project models the writer, the
durable *cuts* it publishes, the live cursor that follows those cuts, and the reader of the sealed
corpus, and proves that they agree over every run. Six smaller parts of the recorder are modelled
beside them: the source health automaton, the launch planner, the shard splitter and supervisor, the
service wire protocol, the JSON printer and parser of instrument metadata, and the replay order book
with its frame sampler.

`dafny verify dfyconfig.toml` checks everything. The modules, bottom up:

- Records, Storage, Index, Formats, Numbers: rows, blocks, index entries, gaps, manifests and cuts. The
  compressor, the checksum and the byte layout of structs are parameters (`Codec`, `Layout`) with laws:
  encoding is lossless, checksums extend incrementally, a struct survives its fixed number of bytes, and
  no block is bounded wider than a full depth block.
- SourceState, DepthTransaction, Merge, Publication: the automata, the two merge orders and the bounded
  block cache. SourceObject holds the automaton that is updated in place. SourceHealth and DepthGrammar
  say without the automata what they accept and remember.
- Writer gives every writer operation as a function on states. WriterLedger, WriterStore, WriterAppend and
  WriterRuns build the invariant of every run. WriterTheorems and WriterAnswers state the results: the
  ledger, the streams and the final drain, and which rows a run takes, what its tables hold and what its
  operations answer, told from its steps alone. WriterObject is the class with the writer's fields and
  loops, whose methods compute exactly those functions.
- CutFile, Continuity: the file format of cuts, and what one run's cuts have in common.
- ActiveCursor, LiveReading, LiveRuns: the live cursor against a running writer. CursorSafety is the
  cursor against any offers and any bytes. CursorObject is the class. Durability takes publication apart
  into single steps.
- SegmentFiles, SealedSegments, SealedReader, SealedAcceptance, SealedRuns, Generations: the sealed
  reader, when it opens what was sealed, and what a request then gets. SealedObject holds its loops, its
  `open` and its cursor class.
- Presets, Launch; ShardSplit, ShardSupervisor; WireFormat, ServiceProtocol, ServiceObject; Json,
  JsonValues, InstrumentMetadata, MetadataFields, JsonObject; BookLevels, BookBest, BookObject,
  BookFrames: the smaller parts.

A *run* is any sequence of registering sources, appending rows, recording gaps, reporting progress,
setting the reference payload, publishing, beginning the final drain and finalizing, each with any
argument, from any configuration `start` accepts. An I/O failure, an encoding over its reservation and
a full index table end it.

## Findings

Where a promised property fails, the code is modelled as it is, the failing input is a lemma, and the
exact condition is proved.

- **A sealed corpus can be unreadable because of its catalog.** The reader refuses an index entry older
  than its source's catalogued generation. A configured source that is absent but carries a generation
  may be announced below it (`Generations.EarlyAnnouncement`), and every run that seals such a row is
  refused (`SealedRuns.EarlyRunRefused`). The check passes if and only if no row predates its catalog
  entry (`SealedAcceptance.SealedCorpusAccepted`); configurations whose absent sources carry no generation
  never fail it (`Generations.AnchoredRunsCovered`).
- **A source that spans shards can make a sealed corpus unreadable.** The writer advances a source in
  append order, the reader in merge order. A trade followed by an older directory change in another shard
  is admitted (`SealedRuns.SpanningJudged`) and every run that seals the pair is refused
  (`SealedRuns.SpanningRunRefused`). A run opens if and only if each source's rows replay in merge order
  (`SealedRuns.SealedRunReadsBack`); appending each source in merge order suffices
  (`SealedRuns.InOrderOpens`), and one shard per source is a case of it (`SealedRuns.OneShardInOrder`).
- **A cut committed while the steady clock reads 0 is not decodable.** This is the only exception: every
  other published cut decodes to itself (`Continuity.PublishedCutsDecode`).
- **Durability rests on not publishing again after a failed publication.** A failure after the rename
  leaves a visible cut that nobody secured; the writer stays active, and a second attempt at the same
  generation lets a reader adopt the first file (`Durability.RetryBreaksDurability`). Adopted cuts are
  always durable if and only if the caller does not try again (`Durability.DurableExactly`).
- **Best ask and a price of 0.** The best ask uses 0 for "none yet", so with a live ask at price 0, a
  live ask above it and none below, the answer depends on hash-map order (`BookBest.AskOrderMatters`). In
  every other case it is the lowest live ask (`BookBest.AskFoldBest`).
- **A refused finalization is harmless to the live cursor.** Later cuts count as finalized and may end
  inside a depth transaction, but progress never passes the first row of an open transaction, so the
  cursor waits and never fails (`LiveRuns.LivePrefix`, `LiveRuns.EndIsComplete`).

## Model

| member | source | states |
|---|---|---|
| `WriterTheorems.LedgerOverRuns` | src/Runtime/src/Corpus/BinaryMarketCorpusWriter.cpp:208-216 | in every reachable writer state the projection is exactly the sum of fixed metadata, source, index, segment-frame, stored-block, pending-row, cut and reference reservations, covers every byte on disk, and stays within writeLimitBytes <= maximumBytes |
| `WriterTheorems.FinalDrainSuffices` | src/Runtime/src/Corpus/BinaryMarketCorpusWriter.cpp:661-665 | once a live writer has begun its final drain, a row its checks admit is accepted, short of the 32-bit segment counter, as long as fewer than shardCount*ringCapacity+pendingRecordCapacity rows and sources came since and no reference payload was set, whatever they rotated, opened or added |
| `WriterTheorems.StreamsOverRuns` | src/Runtime/src/Corpus/BinaryMarketCorpusWriter.cpp:531-612 | for each shard, in every reachable state, the decoded blocks followed by the pending buffer are the accepted rows in order; every block holds one channel and at most a block of rows; a refused append changes no stream even when it forced flushes |
| `WriterAnswers.AdmittedExactly` | src/Runtime/src/Corpus/BinaryMarketCorpusWriter.cpp:505-535 | in every reachable state the checks admit a row if and only if it is valid with a zero tail, of a known shard, not before a frozen anchor, the accepted rows of its shard with it are sorted and replay as transactions, and the accepted rows of its source with it replay the lifecycle, or it announces the next source properly |
| `WriterAnswers.TakenExactly` | src/Runtime/src/Corpus/BinaryMarketCorpusWriter.cpp:505-660 | an append step takes an admissible row unless the segment counter is used up or there is no room for it with everything pending written out, and a row that is not admissible changes nothing |
| `WriterAnswers.GapsOverRuns` | src/Runtime/src/Corpus/BinaryMarketCorpusWriter.cpp:667-699 | the gap table of every reachable state holds, for each source and channel, the last gap reported and answered Ok, once, and no other gap |
| `WriterAnswers.GapAnswered` | src/Runtime/src/Corpus/BinaryMarketCorpusWriter.cpp:667-699 | a gap is answered Ok if and only if the writer is live, the gap is well formed, not older than its source's catalog entry, and reports no less than the last report of its source and channel; the table is never full |
| `WriterAnswers.CutsCarryTables` | src/Runtime/src/Corpus/BinaryMarketCorpusWriter.cpp:790-832 | a published cut holds exactly the last gap of every source and channel and the last progress reported up to the step that published it |
| `WriterAnswers.LastWordOverRuns` | src/Runtime/src/Corpus/BinaryMarketCorpusWriter.cpp:757-789 | progress and reference payload of every reachable state are the last ones answered Ok |
| `WriterAnswers.StartExact` | src/Runtime/src/Corpus/BinaryMarketCorpusWriter.cpp:378-443 | a writer starts if and only if its configuration is valid and the quota covers fixed tables, both copies of the first cut, all rows of a final drain and one row |
| `WriterAnswers.RegisterAnswered` | src/Runtime/src/Corpus/BinaryMarketCorpusWriter.cpp:472-503 | registration is answered Ok if and only if the writer is live, every entry is valid and agrees with the catalog, the new ones go on its numbering within the maximum, and there is room for them |
| `WriterAnswers.CatalogOverRuns` | src/Runtime/src/Corpus/BinaryMarketCorpusWriter.cpp:472-527 | the catalog of every reachable state is the configured sources followed by those registered or announced since, inactive, in order |
| `WriterAnswers.CutsCarryCatalog` | src/Runtime/src/Corpus/BinaryMarketCorpusWriter.cpp:790-832 | a published cut lists exactly the catalog of the step that published it |
| `WriterAnswers.ProgressAnswered` | src/Runtime/src/Corpus/BinaryMarketCorpusWriter.cpp:757-770 | progress is answered Ok if and only if the writer is live, the progress is its own, nothing goes back, and each shard's share names a row accepted before the transaction the shard is in |
| `WriterAnswers.FinalizeAnswered` | src/Runtime/src/Corpus/BinaryMarketCorpusWriter.cpp:701-756 | finalization is answered Ok if and only if the writer is live, the time is positive, every shard's accepted rows end between transactions, a generation is left and the binder agrees; the manifest then counts the accepted rows, spans their receive times exactly and gives start and end of the capture |
| `WriterRuns.StepKeeps` | src/Runtime/src/Corpus/BinaryMarketCorpusWriter.cpp:505-832 | every step a writer survives keeps the whole invariant, and the history grows by exactly the row the step accepted |
| `WriterRuns.RunInv` | src/Runtime/src/Corpus/BinaryMarketCorpusWriter.cpp:378-470 | the invariant holds at every moment of every run from start |
| `WriterRuns.PublishOutcome` | src/Runtime/src/Corpus/BinaryMarketCorpusWriter.cpp:790-832 | a publication is refused only for an inactive writer, an exhausted generation counter or the word of its binder: the byte reservation always covers the cut |
| `WriterLedger.IndexBoundUnreachable` | src/Runtime/src/Corpus/BinaryMarketCorpusWriter.cpp:338-365 | the table bound in ensureIndex that comes from the quota never refuses an entry whose bytes were reserved; only the 32-bit entry count can |
| `WriterLedger.GapsBounded` | src/Runtime/src/Corpus/BinaryMarketCorpusWriter.cpp:667-699 | a source has at most one gap cell for each stored channel, so the gap table never outgrows its reservation |
| `WriterLedger.ProjectionCoversDisk` | src/Runtime/src/Corpus/BinaryMarketCorpusWriter.cpp:208-216 | the projection covers cut, tables, manifest, segment frames and stored blocks together |
| `WriterLedger.FlushLedger` | src/Runtime/src/Corpus/BinaryMarketCorpusWriter.cpp:257-301 | a flush turns the reserved bytes of the pending rows into stored bytes and gives back exactly the difference |
| `WriterAppend.AppendRefinesStreams` | src/Runtime/src/Corpus/BinaryMarketCorpusWriter.cpp:505-660 | an append adds its row to the stream of its own shard, or no stream changes |
| `WriterAppend.CommitKeepsStore` | src/Runtime/src/Corpus/BinaryMarketCorpusWriter.cpp:589-654 | rotating, opening, indexing and buffering a row keep the stored log, the index and every other stream |
| `WriterAppend.FlushKeepsStore` | src/Runtime/src/Corpus/BinaryMarketCorpusWriter.cpp:257-301 | a flush moves pending rows into one block that decodes to them, and leaves every stream as it was |
| `WriterAppend.SealKeepsStore` | src/Runtime/src/Corpus/BinaryMarketCorpusWriter.cpp:303-336 | sealing a segment keeps the store and every stream |
| `WriterObject.CorpusWriter.Open` | src/Runtime/src/Corpus/BinaryMarketCorpusWriter.cpp:378-470 | starts a writer exactly when the configuration is valid and the quota holds the initial reservations and one row; its state is the specified initial state |
| `WriterObject.CorpusWriter.RegisterSources` | src/Runtime/src/Corpus/BinaryMarketCorpusWriter.cpp:472-503 | adds the new announced sources, inactive, or refuses all of them and leaves the state alone; which it takes is WriterAnswers.RegisterAnswered |
| `WriterObject.CorpusWriter.FlushBlock` | src/Runtime/src/Corpus/BinaryMarketCorpusWriter.cpp:257-301 | compresses the pending rows of a shard into one block, or stops the writer when the encoding exceeds its reservation |
| `WriterObject.CorpusWriter.SealSegment` | src/Runtime/src/Corpus/BinaryMarketCorpusWriter.cpp:303-336 | flushes, closes and numbers the segment of a shard |
| `WriterObject.CorpusWriter.TouchIndex` | src/Runtime/src/Corpus/BinaryMarketCorpusWriter.cpp:338-365 | finds or adds the index entry of a row and brings it up to date |
| `WriterObject.CorpusWriter.Judge` | src/Runtime/src/Corpus/BinaryMarketCorpusWriter.cpp:505-535 | computes the specified verdict on a row before anything changes; which rows it admits is WriterAnswers.AdmittedExactly |
| `WriterObject.CorpusWriter.FlushAndRetry` | src/Runtime/src/Corpus/BinaryMarketCorpusWriter.cpp:583-587 | flushes every pending block once before a row is given up for the quota |
| `WriterObject.CorpusWriter.Append` | src/Runtime/src/Corpus/BinaryMarketCorpusWriter.cpp:505-660 | one row, with the status and the state of the specification in every branch; which rows it takes is WriterAnswers.TakenExactly |
| `WriterObject.CorpusWriter.AppendGap` | src/Runtime/src/Corpus/BinaryMarketCorpusWriter.cpp:667-699 | merges, adds or refuses a gap as specified; what the table then holds is WriterAnswers.GapsOverRuns |
| `WriterObject.CorpusWriter.UpdateProgress` | src/Runtime/src/Corpus/BinaryMarketCorpusWriter.cpp:757-770 | takes or refuses progress as specified; which progress it takes is WriterAnswers.ProgressAnswered |
| `WriterObject.CorpusWriter.SetReferencePayload` | src/Runtime/src/Corpus/BinaryMarketCorpusWriter.cpp:771-789 | reserves the growth of the payload twice, or refuses it |
| `WriterObject.CorpusWriter.BeginFinalDrain` | src/Runtime/src/Corpus/BinaryMarketCorpusWriter.cpp:661-665 | raises the write limit to the quota |
| `WriterObject.CorpusWriter.PublishCut` | src/Runtime/src/Corpus/BinaryMarketCorpusWriter.cpp:790-832 | flushes, binds, writes and commits a cut of the present state |
| `WriterObject.CorpusWriter.Finalize` | src/Runtime/src/Corpus/BinaryMarketCorpusWriter.cpp:701-756 | seals every segment, closes the manifest, publishes the last cut and ends the run; when it does is WriterAnswers.FinalizeAnswered |
| `Publication.CorpusPublication.RetainBlock` | src/Runtime/src/Corpus/CorpusCutStorage.hpp:14-22 | evicts from the front until the block fits, then appends it; a block over capacity is not retained |
| `Publication.CorpusPublication.LoadBlock` | src/Runtime/src/Corpus/CorpusCutStorage.hpp:23-30 | finds the first entry of the block's segment and offset and copies it if the sizes agree |
| `Publication.LoadIsFaithful` | src/Runtime/src/Corpus/CorpusCutStorage.hpp:23-30 | a hit is exactly the payload of the asked block, never of another one, in every state the writer can leave the cache in |
| `Publication.PlaceIsUnique` | src/Runtime/src/Corpus/CorpusCutStorage.hpp:23-30 | segment number and offset name at most one block of a run |
| `Continuity.PublishedCutsDecode` | src/Runtime/src/Corpus/CorpusCut.cpp:108-166 | every cut published in any run writes a file that decodes to the same cut if and only if the clock it was committed at is not 0; sizes add up, gap cells are unique and block counts sum to the record count |
| `CutFile.CutRoundTrip` | src/Runtime/src/Corpus/CorpusCut.cpp:388-410 | a well-formed cut is decoded from its own bytes exactly when it passes the decoder's checks, and then to itself |
| `CutFile.SectionsAddUp` | src/Runtime/src/Corpus/CorpusCut.cpp:51-75 | the section sizes of a cut header are accepted if and only if they and the header add up to the file size without wrapping |
| `CutFile.Decode` | src/Runtime/src/Corpus/CorpusCut.cpp:108-166 | the decoder's passes over sources, gaps and blocks accept exactly the cuts whose tables hold |
| `CutFile.CheckGaps` | src/Runtime/src/Corpus/CorpusCut.cpp:131-144 | one pass with a bitmap accepts exactly valid gaps with pairwise different cells |
| `CutFile.CheckBlocks` | src/Runtime/src/Corpus/CorpusCut.cpp:145-164 | one pass accepts exactly valid blocks whose counts sum to the record count without overflow |
| `Continuity.CutsContinue` | src/Runtime/src/Corpus/CorpusCut.cpp:558-576 | any two cuts of a run, the later behind the earlier, pass the cursor's continuity checks: generation, block prefix, progress, and a replay anchor that is frozen once executable |
| `Continuity.CutNumbers` | src/Runtime/src/Corpus/BinaryMarketCorpusWriter.cpp:827-829 | the cuts of a run are numbered 1, 2, 3, ... |
| `LiveRuns.LivePrefix` | src/Runtime/src/Corpus/CorpusCut.cpp:591-689 | if no row is appended below the watermark already reported, then at any point of any interleaving of writer steps, refreshes and reads the cursor has not failed, and what it has emitted is a prefix of the merge of every cut published from then on, whether bytes came from cache, feed or archive |
| `LiveRuns.EmissionIsAtomic` | src/Runtime/src/Corpus/CorpusCut.cpp:680-687 | no emitted row belongs to a depth transaction that is still open in the committed stream of its cut |
| `LiveRuns.EndIsComplete` | src/Runtime/src/Corpus/CorpusCut.cpp:675-689 | when the cursor reports the end, it has emitted the whole merge of a finalized cut, and every committed stream ends between transactions |
| `LiveRuns.EmissionIsDue` | src/Runtime/src/Corpus/CorpusCut.cpp:669-689 | each call returns exactly what is due: the next row of the merge of the cut in hand if its time is below the watermark and its sequence within its shard's progress, the end if nothing is left of a finalized cut, and otherwise the call to wait |
| `LiveRuns.LookAdopts` | src/Runtime/src/Corpus/CorpusCut.cpp:511-590 | a look at a published cut no older than the one in hand takes it up if and only if the cut fits the budget three times over beside the fixed buffers and is acknowledged, archived or approved; otherwise nothing changes |
| `CursorSafety.EmittedSound` | src/Runtime/src/Corpus/CorpusCut.cpp:591-689 | whatever cuts are offered and whatever bytes are read, the rows returned of any shard are valid, of that shard, not before the requested time, strictly in order and within the transaction rules |
| `CursorSafety.NextSound` | src/Runtime/src/Corpus/CorpusCut.cpp:680-687 | whatever bytes are read, a row is returned only by a cursor that has not failed and only if the progress of its cut has passed the row |
| `CursorSafety.AdoptedChain` | src/Runtime/src/Corpus/CorpusCut.cpp:558-576 | whatever is offered, each adopted cut keeps generation, producer, watermark, shards and every block of all cuts held before |
| `LiveRuns.SurroundsWell` | src/Runtime/src/Corpus/CorpusCut.cpp:615-641 | cache, feed and archive all answer with the block the cut refers to, although later blocks may still be in the writer's buffers |
| `LiveReading.FillOk` | src/Runtime/src/Corpus/CorpusCut.cpp:596-668 | bringing a shard to its next row cannot fail on a sound world, and loses and invents nothing |
| `LiveReading.BehindEndsIdle` | src/Runtime/src/Corpus/CorpusCut.cpp:680-687 | rows that stay behind a cut's progress end between transactions |
| `Merge.ConsumedStable` | src/Runtime/src/Corpus/CorpusCut.cpp:669-689 | rows emitted behind the watermark stay the beginning of the merge when streams grow at or after it |
| `Merge.MergedKeepsShards` | src/Runtime/src/Corpus/CorpusCut.cpp:669-689 | the merge keeps every shard's rows in order, loses none and adds none |
| `Merge.MergedOrdered` | src/Runtime/src/Corpus/CorpusCut.cpp:223-228 | the merge is strictly increasing in the three-key order |
| `Merge.OrdersAgree` | src/Runtime/src/Corpus/BinaryMarketCorpusReader.cpp:277-287 | on the rows of a corpus the seven-key and the three-key order are one order |
| `CursorObject.CorpusActiveCursor.Refresh` | src/Runtime/src/Corpus/CorpusCut.cpp:511-590 | adopts, keeps or fails exactly as specified for budget, authorities and continuity; what a look takes up is LiveRuns.LookAdopts |
| `CursorObject.CorpusActiveCursor.Next` | src/Runtime/src/Corpus/CorpusCut.cpp:591-689 | fills every shard and picks as specified; what a call must return is LiveRuns.EmissionIsDue |
| `CursorObject.CorpusActiveCursor.FillShard` | src/Runtime/src/Corpus/CorpusCut.cpp:596-668 | the loop over a shard's blocks, with its checks and its three places to read from |
| `Durability.AdoptedIsDurable` | src/Runtime/src/Corpus/CorpusCut.cpp:542-557 | in any interleaving of the single steps of a writer that stops after a failed publication and a reader that collects authorities, an adopted cut is durable and acknowledged |
| `Durability.RetryBreaksDurability` | src/Runtime/src/Corpus/CorpusCut.cpp:388-410 | a writer that tried a failed generation again with other contents could have a reader adopt a cut that never became durable |
| `Durability.DurableExactly` | src/Runtime/src/Corpus/CorpusCut.cpp:388-410 | adopted cuts are durable in every interleaving if and only if the writer does not publish again after a failed publication |
| `LiveRuns.RefreshedIsDurable` | src/Runtime/src/Corpus/CorpusCut.cpp:542-557 | a refresh that changes the cursor was offered an acknowledged cut of the run, already durable, and no older than the one adopted last |
| `LiveRuns.LooksAreDurable` | src/Runtime/src/Corpus/CorpusCut.cpp:511-590 | whatever steps writer and reader have taken, a refresh leaves the cursor alone or is a look of the live model at a durable cut |
| `SealedAcceptance.SealedCorpusAccepted` | src/Runtime/src/Corpus/BinaryMarketCorpusReader.cpp:369-621 | every run sealed with a reason other than Error passes the manifest, table and segment checks of the reader, its index equals the recomputed one, totals and physical bytes pass; the catalog check passes if and only if no row is older than its catalogued source |
| `SealedAcceptance.ManifestMatchesCut` | src/Runtime/src/Corpus/CorpusCut.cpp:94-107 | the manifest a run seals is the manifest of its last, finalized cut |
| `SealedRuns.SealedRunReadsBack` | src/Runtime/src/Corpus/BinaryMarketCorpusReader.cpp:369-741 | a sealed run opens for a request if and only if the request is answerable, no row predates its catalog entry, each source replays in merge order and the required channels are present; draining then returns exactly the selected rows of the merge |
| `SealedRuns.RequestAnswered` | src/Runtime/src/Corpus/BinaryMarketCorpusReader.cpp:369-741 | a sealed run opens for a request if and only if the request is well formed, inside the capture and clear about its sources, no last gap report touches it, its rows are fit, no row predates its catalog entry, each source replays in merge order and each required channel shows usable data; draining then gives exactly the accepted rows of the asked sources, channels and interval, each as often as accepted, in merge order |
| `SealedRuns.ChoiceExact` | src/Runtime/src/Corpus/BinaryMarketCorpusReader.cpp:397-426 | ids are chosen if and only if they exist and are listed once, a name if and only if exactly one source has it; exactly the asked sources are then chosen, and otherwise the status says which way it failed |
| `SealedRuns.LosesExact` | src/Runtime/src/Corpus/BinaryMarketCorpusReader.cpp:508-545 | a gap stops a request if and only if it is of the lifecycle channel, or of an asked source and channel with an unknown time range or one that shares a moment with the interval |
| `SealedRuns.SealedLosses` | src/Runtime/src/Corpus/BinaryMarketCorpusReader.cpp:508-545 | the gap file of a sealed run holds exactly the last gap of every source and channel answered Ok, and no stored gap touches a request exactly when no last report does |
| `SealedRuns.SealedIndexSummarises` | src/Runtime/src/Corpus/BinaryMarketCorpusWriter.cpp:338-365 | every entry of a sealed index is the summary of the rows of its source, generation and channel in its segment: their number, gap rows, first and last event, exact span of receive times, and what is marked among them |
| `Index.RecomputeIndexes` | src/Runtime/src/Corpus/BinaryMarketCorpusReader.cpp:572-600 | the derived index has, for each source, generation and channel among the rows, one entry that is the summary of exactly these rows |
| `SealedRuns.InOrderOpens` | src/Runtime/src/Corpus/BinaryMarketCorpusReader.cpp:625-703 | if each source's rows are appended in merge order, an answerable request is never refused for the lifecycle |
| `SealedRuns.OneShardInOrder` | src/Runtime/src/Corpus/BinaryMarketCorpusReader.cpp:625-703 | a producer that keeps each source to one shard appends in merge order |
| `SealedRuns.SpanningJudged` | src/Runtime/src/Corpus/BinaryMarketCorpusWriter.cpp:510-535 | the writer's checks admit a trade and, after it, an older directory change of the same source in another shard |
| `SealedRuns.SpanningRunRefused` | src/Runtime/src/Corpus/BinaryMarketCorpusReader.cpp:625-703 | every run that seals those two rows is refused by the sealed reader for every request |
| `SealedRuns.EarlyRunRefused` | src/Runtime/src/Corpus/BinaryMarketCorpusReader.cpp:478-481 | every run that seals an announcement older than its catalogued generation is refused for every request |
| `Generations.AnchoredRunsCovered` | src/Runtime/src/Corpus/BinaryMarketCorpusWriter.cpp:378-470 | with a configuration whose absent sources carry no generation, the catalog check can never fail |
| `Generations.EarlyAnnouncement` | src/Runtime/src/Corpus/BinaryMarketCorpusWriter.cpp:510-527 | a configured, absent source with a generation may be announced by the writer below it |
| `SealedReader.SealedCursorCorrect` | src/Runtime/src/Corpus/BinaryMarketCorpusReader.cpp:711-741 | after open succeeds, draining next never fails, ends, and returns exactly the selected rows of the merge in order |
| `SealedReader.MergesAgree` | src/Runtime/src/Corpus/BinaryMarketCorpusReader.cpp:625-632 | the sealed and the live reader merge a corpus to the same sequence |
| `SealedRuns.PreflightExact` | src/Runtime/src/Corpus/BinaryMarketCorpusReader.cpp:625-703 | the dry run passes if and only if every shard and every source replays in merge order and no selected row is unusable |
| `SealedSegments.SegmentReadsBack` | src/Runtime/src/Corpus/BinaryMarketCorpusReader.cpp:206-275 | decoding a sealed file gives back exactly the rows written to it |
| `SealedSegments.JoinedIsShard` | src/Runtime/src/Corpus/BinaryMarketCorpusReader.cpp:312-334 | the segments of a shard, one behind the other, are the shard's stream |
| `SealedAcceptance.FinalizeSeals` | src/Runtime/src/Corpus/BinaryMarketCorpusWriter.cpp:701-756 | a successful finalization leaves every segment closed, every transaction ended and a complete manifest |
| `SealedAcceptance.IndexAccepted` | src/Runtime/src/Corpus/BinaryMarketCorpusReader.cpp:563-621 | the sealed index passes the reader's index checks if and only if every row is covered by its catalog entry |
| `SealedAcceptance.IndexTotals` | src/Runtime/src/Corpus/BinaryMarketCorpusReader.cpp:563-621 | the index accounts for every record of the corpus once |
| `SegmentFiles.DecodeSegment` | src/Runtime/src/Corpus/BinaryMarketCorpusReader.cpp:206-275 | the loop over a segment's blocks accepts and returns what the specification does |
| `SealedObject.RecomputeIndex` | src/Runtime/src/Corpus/BinaryMarketCorpusReader.cpp:572-600 | the index entries derived row by row are the specified ones |
| `SealedObject.CheckIndex` | src/Runtime/src/Corpus/BinaryMarketCorpusReader.cpp:441-507 | one pass with a shard map and an identity set decides exactly whether the index table holds |
| `SealedObject.ScanSegments` | src/Runtime/src/Corpus/BinaryMarketCorpusReader.cpp:563-621 | the preflight over all segments, with byte and record totals |
| `SealedObject.ListSegments` | src/Runtime/src/Corpus/BinaryMarketCorpusReader.cpp:563-621 | the segments of every shard in ascending order |
| `SealedObject.Open` | src/Runtime/src/Corpus/BinaryMarketCorpusReader.cpp:369-709 | opens a cursor at the start of the merge exactly when the specification opens, with the same status otherwise; what a request gets is SealedRuns.RequestAnswered |
| `SealedObject.ChooseSources` | src/Runtime/src/Corpus/BinaryMarketCorpusReader.cpp:397-426 | the passes over the request's ids and over the catalog choose what the specification chooses |
| `SealedObject.BinaryMarketCorpusCursor.Survey` | src/Runtime/src/Corpus/BinaryMarketCorpusReader.cpp:625-703 | the dry run of the whole merge, row by row |
| `SealedObject.BinaryMarketCorpusCursor.Next` | src/Runtime/src/Corpus/BinaryMarketCorpusReader.cpp:711-741 | releases the next selected row, skipping the others |
| `SealedObject.ListedRows` | src/Runtime/src/Corpus/BinaryMarketCorpusReader.cpp:312-334 | decoding a shard's listed segments one at a time yields exactly its scanned stream |
| `SourceState.HealthOverRuns` | src/Runtime/src/Corpus/BinaryMarketSourceState.hpp:50-135 | over every accepted run the overlay masks stay disjoint, Depth-only and inside the unhealthy mask; generation and directory revision never go back |
| `SourceState.HealthFromStart` | src/Runtime/src/Corpus/BinaryMarketSourceState.hpp:18-21 | so they do from registration on |
| `SourceState.AdministrationEndsInRecovery` | src/Runtime/src/Corpus/BinaryMarketSourceState.hpp:50-135 | without a subscription boundary, Depth leaves administrative degradation only through a NativeRecovered marker and a later fresh compatible Depth row, with no degradation between them |
| `SourceState.WriterReaderSimulation` | src/Runtime/src/Corpus/BinaryMarketSourceState.hpp:50-77 | with and without the rebase flag the same sequences are accepted; metadata, generation, availability and administrative mask agree, and the reader's other masks stay inside the writer's |
| `SourceObject.BinaryMarketSourceState.Advance` | src/Runtime/src/Corpus/BinaryMarketSourceState.hpp:50-135 | the in-place step: accepted exactly when specified, state as specified, unchanged on refusal; what it remembers is SourceHealth.HealthIsLastWord and SourceHealth.DepthHealthExact |
| `SourceHealth.HealthIsLastWord` | src/Runtime/src/Corpus/BinaryMarketSourceState.hpp:50-135 | a channel other than Depth is unhealthy after accepted rows if and only if the last row that speaks about its health degrades it, or none speaks and it was unhealthy before |
| `SourceHealth.DepthIsLastWord` | src/Runtime/src/Corpus/BinaryMarketSourceState.hpp:50-135 | the same for the administrative and the recovery-pending state of Depth, each with its own rows that speak |
| `SourceHealth.DepthHealthExact` | src/Runtime/src/Corpus/BinaryMarketSourceState.hpp:50-135 | after accepted rows Depth is healthy if and only if a boundary, or a fresh row outside administration, healed it and nothing has disturbed it since, or it was healthy and nothing ever disturbed it |
| `SourceHealth.RecoveryHeals` | src/Runtime/src/Corpus/BinaryMarketSourceState.hpp:50-135 | a recovery marker and a later fresh row, with neither a degradation nor a health row nor another marker behind the first, end healthy |
| `SourceHealth.MembershipOverRuns` | src/Runtime/src/Corpus/BinaryMarketSourceState.hpp:78-135 | after accepted rows membership, metadata and directory revision are those of the last boundary, and the generation is that of the last row |
| `SourceHealth.AcceptedExactly` | src/Runtime/src/Corpus/BinaryMarketSourceState.hpp:50-135 | a row is accepted behind accepted rows if and only if it belongs there: market data of the present generation on an available channel at its promised compatibility, a marker of the present source, or a boundary that goes on generation, revision and membership |
| `DepthTransaction.TimeCutIsIdle` | src/Contracts/include/hftrec/CorpusContract/BinaryMarketDepthTransaction.hpp:26-97 | a receive-time cut never falls inside a transaction |
| `DepthTransaction.AdvanceKeepsIdentity` | src/Contracts/include/hftrec/CorpusContract/BinaryMarketDepthTransaction.hpp:26-97 | an open transaction keeps the first row's sequence and time |
| `DepthGrammar.ReplayExact` | src/Contracts/include/hftrec/CorpusContract/BinaryMarketDepthTransaction.hpp:26-97 | the automaton is between transactions behind exactly the sequences of rows of other channels and whole transactions, and accepts exactly these and the beginnings of one more; a transaction is told row by row: chunks of a part in order, parts in order, then coverage, one frame, clock and owner, the end marked on its last row only |
| `Launch.BuildPlan` | src/Process/src/Tui/RecorderTuiLaunch.cpp:170-199 | every job of the preset appears once after filtering, runnable ones first and greedily scheduled, skipped ones in list order |
| `Launch.ScheduleRunnable` | src/Process/src/Tui/RecorderTuiLaunch.cpp:86-116 | the scheduling loop yields a greedy schedule of exactly its jobs |
| `Launch.StartsInOrder` | src/Process/src/Tui/RecorderTuiLaunch.cpp:86-116 | in a greedy schedule starts never go back |
| `Launch.ExchangeCooldown` | src/Process/src/Tui/RecorderTuiLaunch.cpp:72-84 | two jobs of one exchange start at least the cooldown apart and in preset order |
| `Launch.WaveBound` | src/Process/src/Tui/RecorderTuiLaunch.cpp:72-84 | at most m*wave jobs start before m*stagger, for every m |
| `Launch.NoEarlierStart` | src/Process/src/Tui/RecorderTuiLaunch.cpp:72-116 | each start is one the wave and every cooldown allow, and at no earlier time could that job or any job still waiting have started |
| `Launch.FilteredChannels` | src/Process/src/Tui/RecorderTuiLaunch.cpp:54-70 | a filtered job keeps exactly the selected channels that are available and is skipped exactly when none is left |
| `Launch.FilterJobChannels` | src/Process/src/Tui/RecorderTuiLaunch.cpp:54-70 | the channel loop computes the filtered job |
| `ShardSplit.SplitPreset` | src/Process/src/Tui/RecorderTuiShard.cpp:22-64 | the split conserves the jobs, keeps each symbol or venue group in one shard, balances groups within one and leaves no shard empty |
| `ShardSplit.ClampMaxActive` | src/Process/src/Tui/RecorderTuiShard.cpp:66-69 | the limit lies between one and the number of shards |
| `ShardSplit.ChooseQueued` | src/Process/src/Tui/RecorderTuiShard.cpp:88-107 | the chosen launches are the queued shards with the smallest indices, as many as there is room |
| `ShardSupervisor.SupervisorSafe` | src/Process/src/ShardRunCli.cpp:544-592 | after any events from fresh shards at most maxActiveShards are active and no two live, non-stopping shards share an exclusive session key |
| `ShardSupervisor.LaunchesFitMemory` | src/Process/src/ShardRunCli.cpp:544-592 | with a memory limit, every round that launches leaves the estimate within it |
| `ShardSupervisor.AdmitIsGreedy` | src/Process/src/ShardRunCli.cpp:544-592 | a round leaves a shard queued only when its slots are used up, one more reserve is over the memory limit, or the shard shares a session with a live one |
| `ShardSupervisor.StartIsGreedy` | src/Process/src/ShardRunCli.cpp:544-592 | after a start a shard is still queued only if the start tried as many shards as it had slots for, one more does not fit the memory limit beside the active ones, or it shares a session with a live one |
| `ShardSupervisor.Supervisor.StartQueued` | src/Process/src/ShardRunCli.cpp:544-592 | a round of admissions, as specified and safe |
| `ShardSupervisor.Supervisor.Reap` | src/Process/src/ShardRunCli.cpp:457-470 | a gone child no longer counts as active, one that still runs is left alone, as specified and safe |
| `ShardSupervisor.Supervisor.Refresh` | src/Process/src/ShardRunCli.cpp:411-433 | an active child is charged the memory read, as specified and safe |
| `ShardSupervisor.Supervisor.Stop` | src/Process/src/ShardRunCli.cpp:519-538 | afterwards the shard is not queued, and not live if it has a process, as specified and safe |
| `ShardSupervisor.Supervisor.StopAll` | src/Process/src/ShardRunCli.cpp:540-542 | afterwards nothing is queued and whatever runs is stopping, as specified and safe |
| `ShardSupervisor.Supervisor.MarkKillSent` | src/Process/src/ShardRunCli.cpp:435-449 | a killed child that was not reaped no longer counts as active, as specified and safe |
| `ShardSupervisor.SessionConflict` | src/Process/src/ShardRunCli.cpp:236-250 | a conflict is found exactly when a live, non-stopping shard shares a key |
| `ServiceProtocol.ConfigRoundTrip` | src/Service/src/RecorderServiceProtocol.hpp:65-89 | bytes decode to a configuration with nothing left over if and only if they are the encoding of that valid configuration |
| `ServiceProtocol.ReportRoundTrip` | src/Service/src/RecorderServiceProtocol.hpp:90-102 | the same for a status |
| `ServiceProtocol.ReplyRoundTrip` | src/Service/src/RecorderServiceServer.cpp:262-266 | a framed reply decodes to the status, error and body the server put in |
| `ServiceProtocol.ReplyIsFramed` | src/Service/src/RecorderServiceProtocol.hpp:132-144 | a reply that is not rejected is the frame of exactly what it is taken to say |
| `ServiceProtocol.FrameParses` | src/Service/src/RecorderServiceProtocol.hpp:119-125 | a frame parses to its operation and payload |
| `ServiceProtocol.ParsedIsFrame` | src/Service/src/RecorderServiceProtocol.hpp:126-131 | only frames parse |
| `WireFormat.NumberRoundTrip` | src/Service/src/RecorderServiceProtocol.hpp:30-35 | bytes and numbers of one width determine each other |
| `ServiceObject.EncodeConfig` | src/Service/src/RecorderServiceProtocol.hpp:65-77 | the encoder appends exactly the fields of a valid configuration and is invalid otherwise |
| `ServiceObject.EncodeStatus` | src/Service/src/RecorderServiceProtocol.hpp:90-95 | the same for a status |
| `ServiceObject.DecodeConfig` | src/Service/src/RecorderServiceProtocol.hpp:78-89 | the decoder reads what the specification reads, and its position never passes the end |
| `ServiceObject.DecodeStatus` | src/Service/src/RecorderServiceProtocol.hpp:96-102 | the same for a status |
| `MetadataFields.MetadataRoundTrip` | src/Runtime/src/Corpus/InstrumentMetadata.cpp:163-309 | parsing the printed document of any metadata record, whatever its strings and 64-bit numbers, returns exactly that record |
| `InstrumentMetadata.RoundTrip` | src/Runtime/src/Corpus/InstrumentMetadata.cpp:163-309 | the same for any schema of fields |
| `InstrumentMetadata.DocumentParses` | src/Runtime/src/Corpus/InstrumentMetadata.cpp:209-309 | a document of members in any order and spacing parses if and only if every required field is among them, each field taking its last value |
| `InstrumentMetadata.UnknownIgnored` | src/Runtime/src/Corpus/InstrumentMetadata.cpp:209-309 | unknown members put anywhere into a document change nothing |
| `Json.StringReads` | src/Runtime/src/Common/MiniJsonParser.hpp:54-105 | reading undoes quoting, for every string |
| `Json.IntReads` | src/Runtime/src/Common/MiniJsonParser.hpp:113-151 | reading undoes printing, for every 64-bit integer |
| `Json.AccumulateExact` | src/Runtime/src/Common/MiniJsonParser.hpp:125-151 | digits are read if and only if their value fits 64 bits |
| `JsonValues.ValueSkipped` | src/Runtime/src/Common/MiniJsonParser.hpp:191-299 | any value, however nested and spaced, is skipped exactly |
| `JsonObject.AppendEscaped` | src/Runtime/src/Common/JsonString.hpp:8-30 | the escaping loop |
| `JsonObject.MiniJsonParser.ParseString` | src/Runtime/src/Common/MiniJsonParser.hpp:54-105 | one string: accepted exactly when specified, position and result as specified |
| `JsonObject.MiniJsonParser.ParseInt64` | src/Runtime/src/Common/MiniJsonParser.hpp:113-151 | one integer: accepted exactly when specified, position and result as specified |
| `JsonObject.MiniJsonParser.SkipAny` | src/Runtime/src/Common/MiniJsonParser.hpp:191-213 | any value, bounded by the text that is left: accepted exactly when specified, position and result as specified |
| `JsonObject.ParseMetadata` | src/Runtime/src/Corpus/InstrumentMetadata.cpp:209-309 | the loop over keys with its seen mask accepts a document exactly when the specification does, with the same fields |
| `BookFrames.SampleFrames` | src/Lab/src/BookFrameSampler.cpp:66-110 | one frame per event in the order of time, kind and position; each shows the best and top levels of the last-write-wins book of exactly the depth rows at or before its event, and its own ticker; a malformed ticker line yields its status and no frame |
| `BookFrames.SampledBook` | src/Lab/src/BookFrameSampler.cpp:99-107 | the book held after an event is the last-write-wins book of the depth rows at or before it |
| `BookFrames.StableSortStrict` | src/Lab/src/BookFrameSampler.cpp:94-97 | the stable sort leaves the events strictly ordered by time, kind and position |
| `BookFrames.MakeFrame` | src/Lab/src/BookFrameSampler.cpp:38-62 | a frame pictures the book as it is and changes only its cached views |
| `BookLevels.RowsQuantity` | src/Runtime/src/Replay/BookState.cpp:80-86 | after any depth rows a price has the quantity written last, or none |
| `BookLevels.ViewUnique` | src/Runtime/src/Replay/BookState.cpp:152-172 | a side has one sorted view |
| `BookObject.BookState.ApplyDelta` | src/Runtime/src/Replay/BookState.cpp:80-86 | both sides are the fold of the row's levels |
| `BookObject.BookState.ApplySnapshot` | src/Runtime/src/Replay/BookState.cpp:67-78 | the book is replaced by the snapshot's levels of positive quantity |
| `BookObject.BookState.Bids` | src/Runtime/src/Replay/BookState.cpp:152-161 | the view returned is the sorted map, and a clean one always was |
| `BookObject.BookState.Asks` | src/Runtime/src/Replay/BookState.cpp:163-172 | the same, lowest first |
| `BookObject.FilteredLevels` | src/Runtime/src/Replay/BookState.cpp:15-39 | the first levels of the sorted, filtered side |
| `BookObject.BookState.BestBidPrice` | src/Runtime/src/Replay/BookState.cpp:110-116 | the price of the highest live bid above price 0, or 0 |
| `BookObject.BookState.BestBidQty` | src/Runtime/src/Replay/BookState.cpp:127-137 | its quantity, or 0 |
| `BookObject.BookState.BestAskPrice` | src/Runtime/src/Replay/BookState.cpp:118-125 | the price of the lowest live ask, or 0, unless price 0 is the lowest of several |
| `BookObject.BookState.BestAskQty` | src/Runtime/src/Replay/BookState.cpp:139-150 | its quantity, likewise |
| `BookBest.BidFoldBest` | src/Runtime/src/Replay/BookState.cpp:110-137 | whatever the order of iteration, the walk ends at the highest live bid above price 0 |
| `BookBest.AskFoldBest` | src/Runtime/src/Replay/BookState.cpp:118-150 | unless price 0 is the lowest of several live asks, the walk ends at the lowest live ask whatever the order of iteration |
| `BookBest.AskOrderMatters` | src/Runtime/src/Replay/BookState.cpp:118-125 | in that one case two orders of iteration give different answers |
| `BookBest.BestBidOnTop` | src/Runtime/src/Replay/BookState.cpp:110-116 | the best bid is the first level of the view if and only if that level is live and above price 0 |

## Left out

- Compressor, CRC32C and struct layout: parameters with laws; that an encoding can exceed its reservation is modelled, how it is computed is not.
- Segment header and footer bytes: values with the checks the reader makes; magic numbers and checksums of these frames are part of the value, not of a byte layout.
- I/O failures, thrown allocation errors, an unencodable block and an index table of 2^32 - 1 entries: they end the run.
- File ownership, permissions, symbolic links, directory listing and the rename race of the archive: operating-system facts.
- The record and source validators: the clauses callers rely on, with the part limits and remaining field clauses as one boolean each.
- `validTableHeader` and the table file frames: read as values; `validSealedManifest` is modelled.
- Selection by exchange, market and symbol text: comparing the texts is a predicate on sources.
- Output masks of a selection other than the channels present, and the sources and revisions at its begin.
- The active cursor's summary reads and its status texts; metadata readers such as `readCorpusSummary`.
- The live cursor's refresh is offered published cuts; that a reader can be offered no other cut it would adopt is `LiveRuns.LooksAreDurable`.
- The size of a segment against `segmentTargetBytes`: when a segment rotates is modelled, no bound is stated, because a row taken after a quota flush joins its segment without a new look at the target.
- Launch times and memory sums: unbounded integers; the source's 64-bit values are far from their bounds there.
- Shard processes: fork results, exits and readings are events; the session keys of a shard and the symbol folder name are given.
- Shard status files, display counters and the reap deadline loop.
- Service sockets, peer checks and the server's handlers; `decodeReply` and the frame are modelled.
- `parseBool`, `parseUInt64` and the inference helpers of instrument metadata: they would only add easier members.
- Instrument metadata is a sequence of fields in print order with the printed keys; the C++ struct is not modelled field by field.
- Ticker lines of the frame sampler: a line is what parsing it gives.
- std::sort, std::partial_sort and std::stable_sort: insertion sorts with the library's contract; hash-map iteration is any order.
- BookObject.BookState.BestAskPrice: says nothing in the case of `BookBest.ZeroAsk`, because there the answer is not determined.
- BookObject.BookState.BestAskQty: likewise.
- The graphical interface, terminal interface, exchange clients, laboratory statistics and importers.
