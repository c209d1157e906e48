# Verified models of the repository's protocols

This project models, in Dafny, the parts of the SDK, the browser and the restore example that are state machines or whole
algorithms, and proves what they promise. Everything concurrent in the source runs on one asyncio loop, so a protocol is
modelled as a machine whose steps run from one `await` to the next; any runnable task may take the next step, and tasks may
be cancelled where they wait. The theorems are about every run.

| files | what they model |
|---|---|
| `Sorting`, `Graphs`, `StronglyConnected`, `ImportCycles` | Tarjan's components as `check_sdk_layers.py` finds them, and the import-cycle report built on them |
| `SinkModel`, `SinkInvariant`, `SinkSteps`, `SinkHistory`, `SinkTheorems`, `BufferedExportSink`, `ExportDriver`, `DrivenExport` | the buffered, in-order export sink: slot pool, flusher, commit and abort, and the export driver, alone and composed with it |
| `VmdkReader`, `LittleEndian`, `VmdkFormat`, `VmdkContents`, `StreamVmdk` | the one-pass streamOptimized VMDK writer, against a reader that knows the layout by its own literal bytes, from "Virtual Disk Format 5.0", section "Stream-Optimized Compressed Sparse Extents" |
| `LruStore`, `CacheModel`, `CacheInvariant`, `CacheSteps`, `CacheTheorems`, `CacheHistory`, `SettleAll`, `SettleErrors`, `SettleExact`, `AsyncKeyedCache`, `AsyncOnce` | the single-flight LRU cache, its `settle_all`, and the once-opened resource on top |
| `ExportPaths`, `ExportPlan`, `PathText`, `ExportOrder`, `TreePlanner`, `ExportRun` | folder-export planning, what its paths are worth as text, its preflight, and the overwrite guard of the run |
| `Reconcile` | keyed reconciliation of a tree level |
| `LoadGate`, `SessionStores`, `Discoveries`, `FirstError`, `MvuStore` | the load gate, store lifetimes in a session and the discoveries over them, the gather that fails as a serial loop would, the dispatch loop |

Where the source updates an object in place there is a class with its fields, and each method states its whole effect as
a function of the old fields; the step machines use the same functions, so what is proved of every run is proved of
sequences of those methods. Those of the sink and of the gate that stand for a step also require and ensure the machine's
invariant. What a machine records of its past is in turn shown to be what the calls and hooks of the run did, so the
theorems can be read off the calls.

Five things the source's documentation or tests lead a reader to expect do not hold of the code. Each is stated here as a
run or an input that shows it, next to the exact condition under which the code does meet it:

- a flusher cancelled from outside a flush leaves a parked `begin_segment` waiting (`CancelledFlusherStrands`, against
  `WaitingMeansWork`);
- `settle_all` neither returns every in-flight fetch's value nor every settled value. The value of a fetch that begins
  during its wait and is invalidated can be lost (`LostWhileWaiting`), and a settled value can be shadowed in the result by
  an earlier one of its key that was taken during the wait and then overwritten (`ShadowedWhileWaiting`). The exact
  conditions are `FetchReturnedExactly` for a fetch, `StoreReturnedExactly` for the settled values and
  `ResultIsStoreExactly` for the result as a whole; what was in flight at the call is always returned
  (`InFlightAtEntryReturned`);
- a folder export that holds `a.part` before its sibling `a` reports both and keeps only `a`, because the second item's
  staging file is the first item (`PartFileClash`, against `ExportedStayExactlyWithoutClash` and `PlanKeepsAllExactly`);
- an export replaces more than the destinations recorded as pre-existing: a file that no item is named as, but that has the
  name of an item's staging file, passes the preflight unnoticed and is gone after the run (`StrangerLost`, against
  `FileKeptExactly`, `StrangersSparedExactly` and `PlanSparesStrangersExactly`);
- a discovery whose cleanup raises stays counted, so `close_repo` never closes its store (`FailedCleanupStrands` and
  `BrokenScanStrands`, against `ReleasedIsClosed`, `CleanupRaisesExactly` and `ClosedUnlessCleanupRaised`).

## Model

| member | source | states |
|---|---|---|
| `StronglyConnected.Tarjan.Visit` | scripts/check_sdk_layers.py:164-182 | `visit`: from the invariant of the depth-first search it finishes `node`: everything newly indexed is above it on the stack or in a listed component, the stack is what it was with the unfinished part on top, and `low[node]` is a witnessed lowest reachable stack index |
| `StronglyConnected.Tarjan.PopGroup` | scripts/check_sdk_layers.py:174-182 | The inner loop pops exactly the stack from `node` up, and returns those nodes |
| `StronglyConnected.Tarjan.CloseGroup` | scripts/check_sdk_layers.py:174-182 | A root closes its component: what it pops is one whole strongly connected component, listed sorted if it has two or more members |
| `StronglyConnected.StronglyConnectedGroups` | scripts/check_sdk_layers.py:155-188 | For every graph the search ends, and the report is exactly the strongly connected components with two or more members, each once, sorted inside and among each other |
| `StronglyConnected.ReportIsUnique` | scripts/check_sdk_layers.py:155-188 | There is one such report for a graph: the specification fixes the output, order included |
| `StronglyConnected.ReportIsSorted` | scripts/check_sdk_layers.py:155-188 | In a report the names of a group, and the groups by their first names, are in the order of their characters, a prefix first |
| `StronglyConnected.RootComponent` | scripts/check_sdk_layers.py:174-182 | Where `low[node]` equals `index[node]`, what lies above `node` on the stack is its strongly connected component |
| `ImportCycles.BuildGraph` | scripts/check_sdk_layers.py:195-207 | The graph has an edge exactly for the imports that are neither type-only nor of the module itself; each edge keeps the site of its last function-local import, else of its first import |
| `ImportCycles.GroupEdges` | scripts/check_sdk_layers.py:208-219 | A report lists each edge inside its group once, with its site, in the group's order and for one module sorted by target |
| `ImportCycles.FindImportCycles` | scripts/check_sdk_layers.py:191-220 | One report for each component of the import graph, its edges listed as `GroupEdges` says, order included; no report exactly if no module is on a cycle |
| `ImportCycles.CyclesAreListed` | scripts/check_sdk_layers.py:205-219 | In a graph without self-edges a module is on a cycle exactly if some reported group has it |
| `ImportCycles.NoGroupMeansNoCycle` | scripts/check_sdk_layers.py:205-219 | The report is empty exactly when the graph has no cycle |
| `SinkSteps.StepKeeps` | packages/synology-apm-repo-sdk/src/synology_apm_repo/sdk/dedup/buffered_export_sink.py:297-416 | Every step of the exporting caller, the flusher, the finalizer, the abort task and callers of `abort` keeps the invariant of slots, order, contents, phases and wake-ups |
| `SinkSteps.RunKeeps` | packages/synology-apm-repo-sdk/src/synology_apm_repo/sdk/dedup/buffered_export_sink.py:275-416 | Hence it holds in every state of every run after `open` |
| `SinkTheorems.HooksExclude` | packages/synology-apm-repo-sdk/src/synology_apm_repo/sdk/dedup/buffered_export_sink.py:321-380 | `discard_destination` runs at most once, never while a flush or a finalize runs and never once a finalize succeeded; finalize runs at most once and never after a discard; all completed `abort` calls report the same outcome |
| `SinkTheorems.AbortReports` | packages/synology-apm-repo-sdk/src/synology_apm_repo/sdk/dedup/buffered_export_sink.py:336-380 | What a reporting `abort` has seen to: a committed export is kept, a destination never created leaves nothing, any other was discarded; and whether anything was written |
| `SinkHistory.OutcomeIsTheHooks` | packages/synology-apm-repo-sdk/src/synology_apm_repo/sdk/dedup/buffered_export_sink.py:372-380 | Once the discard hook returned or raised, the outcome is its own answer, or that the destination may be there |
| `SinkHistory.AnswersAreTheOutcome` | packages/synology-apm-repo-sdk/src/synology_apm_repo/sdk/dedup/buffered_export_sink.py:336-345 | The reported outcomes are exactly what the answered callers of `abort` were told, each the one outcome |
| `SinkTheorems.AbortsEnd` | packages/synology-apm-repo-sdk/src/synology_apm_repo/sdk/dedup/buffered_export_sink.py:351-380 | An abort once called goes on to its outcome: until then its task can move or waits for a finalizer or flusher that can, each of its moves brings it nearer, and no other step takes it back |
| `SinkTheorems.AbortIsFinal` | packages/synology-apm-repo-sdk/src/synology_apm_repo/sdk/dedup/buffered_export_sink.py:351-380 | Once an abort is under way no flush and no finalize starts, nothing is sealed or written, and its outcome does not change |
| `SinkTheorems.BuffersAreBounded` | packages/synology-apm-repo-sdk/src/synology_apm_repo/sdk/dedup/buffered_export_sink.py:276-315 | The segments being filled, queued and flushed are never more than the slots created, which are at least 1, at most max_buffered, no more than the segments need, and no fewer unless max_buffered says so |
| `SinkTheorems.NoLostWakeUp` | packages/synology-apm-repo-sdk/src/synology_apm_repo/sdk/dedup/buffered_export_sink.py:309-315 | A parked `begin_segment` with a failure, an abort or a free slot to go on for has been notified |
| `SinkTheorems.WaitingMeansWork` | packages/synology-apm-repo-sdk/src/synology_apm_repo/sdk/dedup/buffered_export_sink.py:309-416 | A `begin_segment` parked unwoken with no failure and no abort has a segment queued or being flushed exactly if the flusher was not killed, which only a cancellation from outside a flush does |
| `SinkTheorems.WokenWithinThreeMoves` | packages/synology-apm-repo-sdk/src/synology_apm_repo/sdk/dedup/buffered_export_sink.py:389-416 | In any stretch of a run with three moves of the flusher a waiting caller stops waiting, whatever else happens in between; if it is a move of the flusher that ends the wait, the caller was woken and its condition holds |
| `SinkTheorems.FlusherEnds` | packages/synology-apm-repo-sdk/src/synology_apm_repo/sdk/dedup/buffered_export_sink.py:389-416 | While a `commit` or an abort waits for the flusher to end, it has ended or can move, and every move leaves it less to do |
| `SinkTheorems.CancelledFlusherStrands` | packages/synology-apm-repo-sdk/src/synology_apm_repo/sdk/dedup/buffered_export_sink.py:389-416 | The exception is real: a reachable state in which a cancelled flusher leaves a parked `begin_segment` with nothing but a cancellation or an abort to free it |
| `SinkTheorems.FlushedInOrder` | packages/synology-apm-repo-sdk/src/synology_apm_repo/sdk/dedup/buffered_export_sink.py:297-403 | `flush_segment` is called for segments 0, 1, 2, ... in order, each once, with the bytes its writer left |
| `SinkTheorems.FinalizedAfterAll` | packages/synology-apm-repo-sdk/src/synology_apm_repo/sdk/dedup/buffered_export_sink.py:321-349 | The destination is finalized only after every begun segment was completed and its flush returned |
| `SinkHistory.SealedIsWritten` | packages/synology-apm-repo-sdk/src/synology_apm_repo/sdk/dedup/buffered_export_sink.py:132-168 | Over every run, byte p of a sealed segment, and of what `flush_segment` is given, is that of the last `write_at` to reach it while the sink was open, nothing had failed and the segment was not complete, and zero if there was none |
| `SinkHistory.FlagsTell` | packages/synology-apm-repo-sdk/src/synology_apm_repo/sdk/dedup/buffered_export_sink.py:132-154 | Something counts as written exactly if such a write was let through, and a failure is recorded exactly if a flush or a clearing raised |
| `SinkHistory.HooksAndCallsTell` | packages/synology-apm-repo-sdk/src/synology_apm_repo/sdk/dedup/buffered_export_sink.py:336-349 | The export counts as finalized exactly if `finalize_destination` returned, as failed if it raised, and there is an abort task exactly once `abort` was called |
| `SinkHistory.CommitIsRefused` | packages/synology-apm-repo-sdk/src/synology_apm_repo/sdk/dedup/buffered_export_sink.py:320-330 | `commit` is refused at once, queueing nothing, exactly if the sink is not open, a segment is not complete or a flush has failed |
| `SinkTheorems.CommittedIsContent` | packages/synology-apm-repo-sdk/src/synology_apm_repo/sdk/api/export.py:85-135 | If a caller that writes nothing but the content's bytes, and leaves unwritten only what is zero in it, commits after the last segment and the destination is finalized, the flushed segments are 0 to the last, none missing or repeated, and their bytes joined are the whole content; what was written is read off the calls alone |
| `DrivenExport.DriverIsFaithful` | packages/synology-apm-repo-sdk/src/synology_apm_repo/sdk/api/export.py:85-135 | The driver's loop over the ranges, composed with every interleaving of the sink's other parties, is such a caller: it commits only after the last segment |
| `DrivenExport.BeginsAreAccepted` | packages/synology-apm-repo-sdk/src/synology_apm_repo/sdk/api/export.py:99-132 | Each `begin_segment` of that loop passes the sink's checks while the sink is open: only a failed flush or an abort refuses it |
| `DrivenExport.LeavesForAReason` | packages/synology-apm-repo-sdk/src/synology_apm_repo/sdk/api/export.py:85-135 | The loop ends early and `commit` raises only if a flush, a clearing or the finalizing failed, something was cancelled, or an abort took the state: of itself the sink refuses the driver nothing |
| `DrivenExport.ExportedIsContent` | packages/synology-apm-repo-sdk/src/synology_apm_repo/sdk/api/export.py:85-135 | End to end, with nothing assumed but that the content writes its own bytes: if the destination is finalized, it was given exactly the driver's ranges of the content, in order, each once, and joined they are the content |
| `SinkTheorems.ReturnedMeansFinalized` | packages/synology-apm-repo-sdk/src/synology_apm_repo/sdk/dedup/buffered_export_sink.py:321-334 | A `commit` that returned finalized the destination, and nothing discarded it |
| `ExportDriver.SegmentRanges` | packages/synology-apm-repo-sdk/src/synology_apm_repo/sdk/api/export.py:99-102 | The driver's ranges cover the export: each begins where the one before ends, the last ends at the size, each is the length the sink expects |
| `ExportDriver.DriverIsAccepted` | packages/synology-apm-repo-sdk/src/synology_apm_repo/sdk/api/export.py:99-132 | `begin_segment` accepts every range of the driver |
| `ExportDriver.Blocks` | packages/synology-apm-repo-sdk/src/synology_apm_repo/sdk/dedup/buffered_export_sink.py:54-60 | The blocks of a segment joined are its bytes, all of the given size but the last |
| `SinkSteps.WriteTraffic` | packages/synology-apm-repo-sdk/src/synology_apm_repo/sdk/dedup/buffered_export_sink.py:132-154 | A write, accepted or refused, keeps slots apart, queued segments in order with their sealed bytes, and free slots zero |
| `SinkSteps.ClearedTraffic` | packages/synology-apm-repo-sdk/src/synology_apm_repo/sdk/dedup/segment_buffers.py:112-121 | Clearing and returning a slot keeps the same: every free slot of a clean export is zero |
| `BufferedExportSinks.BufferedExportSink.Opened` | packages/synology-apm-repo-sdk/src/synology_apm_repo/sdk/dedup/buffered_export_sink.py:275-294 | `open` builds an initial state, in which the invariant holds |
| `BufferedExportSinks.BufferedExportSink.BeginSegment` | packages/synology-apm-repo-sdk/src/synology_apm_repo/sdk/dedup/buffered_export_sink.py:296-318 | Checks index, start and length, takes a free slot or parks; keeps the invariant, as does every method a caller or a task starts |
| `BufferedExportSinks.BufferedExportSink.TakeSlot` | packages/synology-apm-repo-sdk/src/synology_apm_repo/sdk/dedup/buffered_export_sink.py:309-318 | Takes the slot and creates the segment's writer |
| `BufferedExportSinks.BufferedExportSink.Woken` | packages/synology-apm-repo-sdk/src/synology_apm_repo/sdk/dedup/buffered_export_sink.py:309-318 | A notified `begin_segment` raises, parks again or goes on |
| `BufferedExportSinks.BufferedExportSink.WriteAt` | packages/synology-apm-repo-sdk/src/synology_apm_repo/sdk/dedup/buffered_export_sink.py:132-154 | A write lands in the segment's slot at its offset, or is refused |
| `BufferedExportSinks.BufferedExportSink.CompleteSegment` | packages/synology-apm-repo-sdk/src/synology_apm_repo/sdk/dedup/buffered_export_sink.py:164-168 | Queues the segment |
| `BufferedExportSinks.BufferedExportSink.CommitCalled` | packages/synology-apm-repo-sdk/src/synology_apm_repo/sdk/dedup/buffered_export_sink.py:320-330 | `commit` up to its wait for the flusher |
| `BufferedExportSinks.BufferedExportSink.CommitAfterFlusher` | packages/synology-apm-repo-sdk/src/synology_apm_repo/sdk/dedup/buffered_export_sink.py:326-334 | `commit` takes the state and starts the finalizer, or raises the failure; keeps the invariant |
| `BufferedExportSinks.BufferedExportSink.CommitAfterFinalizer` | packages/synology-apm-repo-sdk/src/synology_apm_repo/sdk/dedup/buffered_export_sink.py:331-334 | `commit` goes on to close the pool exactly if the finalizer succeeded; keeps the invariant |
| `BufferedExportSinks.BufferedExportSink.CallCancelled` | packages/synology-apm-repo-sdk/src/synology_apm_repo/sdk/dedup/buffered_export_sink.py:309-334 | A call cancelled where it waits leaves flusher and finalizer as they were; keeps the invariant |
| `BufferedExportSinks.BufferedExportSink.FlushNext` | packages/synology-apm-repo-sdk/src/synology_apm_repo/sdk/dedup/buffered_export_sink.py:389-403 | The flush loop takes the next segment and calls `flush_segment` with its bytes; keeps the invariant |
| `BufferedExportSinks.BufferedExportSink.FlushRaises` | packages/synology-apm-repo-sdk/src/synology_apm_repo/sdk/dedup/buffered_export_sink.py:389-403 | A flush that raises records the failure and wakes the caller; keeps the invariant |
| `BufferedExportSinks.BufferedExportSink.SlotCleared` | packages/synology-apm-repo-sdk/src/synology_apm_repo/sdk/dedup/buffered_export_sink.py:384-416 | The slot is free again and the caller woken; keeps the invariant |
| `BufferedExportSinks.BufferedExportSink.Abort` | packages/synology-apm-repo-sdk/src/synology_apm_repo/sdk/dedup/buffered_export_sink.py:336-345 | Starts the one abort task, or joins it; keeps the invariant |
| `BufferedExportSinks.BufferedExportSink.AbortTakesOver` | packages/synology-apm-repo-sdk/src/synology_apm_repo/sdk/dedup/buffered_export_sink.py:351-372 | The abort task takes the state |
| `BufferedExportSinks.BufferedExportSink.AbortAfterFinalizer` | packages/synology-apm-repo-sdk/src/synology_apm_repo/sdk/dedup/buffered_export_sink.py:351-363 | Once the finalizer is over the abort task takes the state; keeps the invariant |
| `BufferedExportSinks.BufferedExportSink.AbortReturns` | packages/synology-apm-repo-sdk/src/synology_apm_repo/sdk/dedup/buffered_export_sink.py:336-345 | A joined `abort` reports the task's outcome; keeps the invariant |
| `BufferedExportSinks.BufferedExportSink.Discarded` | packages/synology-apm-repo-sdk/src/synology_apm_repo/sdk/dedup/buffered_export_sink.py:372-380 | The outcome after the discard hook; keeps the invariant |
| `LittleEndian.RoundTrip` | examples/hypervisor-restore/stream_vmdk.py:37 | `struct` little-endian integers decode to what was encoded, within the field's width |
| `LittleEndian.LongReads` | examples/hypervisor-restore/stream_vmdk.py:37 | An eight-byte field packed with `<Q` stands in the file lowest byte first |
| `VmdkFormat.EntryAt` | examples/hypervisor-restore/stream_vmdk.py:162-172 | Entry `i` of a table written by `tobytes` reads back, lowest byte first |
| `VmdkFormat.FooterFields` | examples/hypervisor-restore/stream_vmdk.py:61-78 | A packed header is, byte for byte, what the format lays down: "KDMV", version 3, flags 01 00 03 00, 128 sectors a grain, 512 entries a table, 128 sectors of overhead, 0A 20 0D 0A, deflate and zeros; and capacity, directory offset and the descriptor's place read back, lowest byte first |
| `VmdkFormat.MarkerReads` | examples/hypervisor-restore/stream_vmdk.py:95-96 | A metadata marker reads back with its number of sectors, no data size and its type byte |
| `VmdkFormat.DescriptorReads` | examples/hypervisor-restore/stream_vmdk.py:61-78 | A file that begins with the overhead sectors gives the capacity back, and the descriptor where its header says, and sends the reader to the footer for the directory |
| `VmdkFormat.RecordReads` | examples/hypervisor-restore/stream_vmdk.py:99-102 | A grain record at a sector reads back as its grain under its own address |
| `VmdkContents.GrainAppended` | examples/hypervisor-restore/stream_vmdk.py:150-160 | Appending a record and entering its sector keeps every earlier grain readable and makes the new one so |
| `VmdkContents.HoldsExtends` | examples/hypervisor-restore/stream_vmdk.py:126-128 | Whatever is emitted later, grains already written stay readable |
| `VmdkContents.TableInDirectory` | examples/hypervisor-restore/stream_vmdk.py:162-168 | Every table index fits the directory of a disk its grains fit |
| `VmdkContents.GrainReads` | examples/hypervisor-restore/stream_vmdk.py:162-176 | Directory, then the table behind its marker, then the grain's own marker leads to each grain, and to zeros where there is no entry |
| `VmdkContents.FileReads` | examples/hypervisor-restore/stream_vmdk.py:162-176 | A file with such a directory behind its marker, and its footer second-last between two markers, reads as the content zero-padded to the capacity, by a reader that refuses any other fixed field or marker |
| `StreamVmdk.CutGrainsJoin` | examples/hypervisor-restore/stream_vmdk.py:139-148 | A block cut into grains, joined, is the block zero-padded to whole grains |
| `StreamVmdk.StreamOptimizedVmdkSink.Emit` | examples/hypervisor-restore/stream_vmdk.py:126-128 | The sector counter follows the output |
| `StreamVmdk.StreamOptimizedVmdkSink.CreateDestination` | examples/hypervisor-restore/stream_vmdk.py:130-137 | The overhead sectors are exactly the header, the descriptor and zeros; refused exactly if the descriptor does not fit, or if the size does not fit the header |
| `StreamVmdk.StreamOptimizedVmdkSink.WriteGrains` | examples/hypervisor-restore/stream_vmdk.py:150-160 | After it every grain so far can be found through the tables; it fails only where the file has reached 2^32 sectors or an address 2^64 |
| `StreamVmdk.StreamOptimizedVmdkSink.FlushSegment` | examples/hypervisor-restore/stream_vmdk.py:139-148 | The content grows by the segment; it is refused as misaligned exactly if it is not empty and does not start on a grain |
| `StreamVmdk.StreamOptimizedVmdkSink.WriteTables` | examples/hypervisor-restore/stream_vmdk.py:162-168 | Each table stands behind its marker where the directory says, 5 sectors a table |
| `StreamVmdk.StreamOptimizedVmdkSink.WriteFooter` | examples/hypervisor-restore/stream_vmdk.py:169-176 | Directory, footer and end-of-stream marker as laid out |
| `StreamVmdk.StreamOptimizedVmdkSink.FinalizeDestination` | examples/hypervisor-restore/stream_vmdk.py:162-176 | A reader that knows the format from its own numbers, starts at the footer, and refuses any other byte in a fixed field or marker then recovers the content, zero-padded to the capacity; it fails exactly if a grain table would lie beyond 2^32 sectors |
| `StreamVmdk.StreamDisk` | examples/hypervisor-restore/stream_vmdk.py:110-176 | Round trip of a whole export through that reader: the file reads back as the disk, and its descriptor as given, unless the descriptor or the size does not fit or the file reached 2^32 sectors |
| `LruStore.TruncateTouch` | packages/synology-apm-repo-sdk/src/synology_apm_repo/sdk/asynccache.py:115-124 | Evicting at once and evicting later agree: truncation commutes with touching |
| `LruStore.TruncateTouchAll` | packages/synology-apm-repo-sdk/src/synology_apm_repo/sdk/asynccache.py:107-124 | So do any number of touches |
| `LruStore.TouchesAreInRecencyOrder` | packages/synology-apm-repo-sdk/src/synology_apm_repo/sdk/asynccache.py:52 | A store without a bound lists each touched key once, with its latest value, in the order of last touches |
| `CacheSteps.StepKeeps` | packages/synology-apm-repo-sdk/src/synology_apm_repo/sdk/asynccache.py:89-245 | Every step of callers, owners, joiners, settlers, puts and invalidations keeps the invariant of flights, staleness, log and store |
| `CacheTheorems.SingleFlight` | packages/synology-apm-repo-sdk/src/synology_apm_repo/sdk/asynccache.py:139-171 | At most one caller fetches a key at a time |
| `CacheTheorems.StaleKeys` | packages/synology-apm-repo-sdk/src/synology_apm_repo/sdk/asynccache.py:54-57 | `_stale` holds exactly the in-flight keys that an `invalidate` reached since their fetch began |
| `CacheTheorems.NoStaleWriteBack` | packages/synology-apm-repo-sdk/src/synology_apm_repo/sdk/asynccache.py:185-190 | A fetched value is stored exactly if no `invalidate` reached its key since its fetch began, and is withheld otherwise |
| `CacheTheorems.HitsAreFresh` | packages/synology-apm-repo-sdk/src/synology_apm_repo/sdk/asynccache.py:139-147 | What the cache serves for a key was put, or comes from a fetch begun, after the key's last `invalidate` |
| `CacheTheorems.JoinersHaveAnOwner` | packages/synology-apm-repo-sdk/src/synology_apm_repo/sdk/asynccache.py:144-158 | A joiner's fetch is of its key and is over, or its owner is still running it |
| `CacheTheorems.JoinerIsAnswered` | packages/synology-apm-repo-sdk/src/synology_apm_repo/sdk/asynccache.py:144-158 | A joiner gets its owner's value or error; after a cancelled owner it is served, joins a later fetch or fetches anew |
| `CacheTheorems.MostRecentlyTouched` | packages/synology-apm-repo-sdk/src/synology_apm_repo/sdk/asynccache.py:89-124 | With a fixed bound and no `invalidate`, over every run the store is the `maxsize` most recently touched keys in recency order |
| `CacheHistory.RecentSince` | packages/synology-apm-repo-sdk/src/synology_apm_repo/sdk/asynccache.py:89-124 | Between invalidations and new bounds a bounded cache goes on so from whatever it held |
| `CacheHistory.InvalidationDrops` | packages/synology-apm-repo-sdk/src/synology_apm_repo/sdk/asynccache.py:192-201 | `invalidate` drops its key and nothing else, or everything; a new bound alone changes nothing |
| `CacheHistory.HoldsLastWrites` | packages/synology-apm-repo-sdk/src/synology_apm_repo/sdk/asynccache.py:89-201 | A cache without a bound holds for each key exactly what was last written for it and not invalidated since |
| `CacheHistory.LogIsTheCalls` | packages/synology-apm-repo-sdk/src/synology_apm_repo/sdk/asynccache.py:102-201 | What counts as written, begun, stored, withheld and invalidated in all of this is what the calls, in their order, put, fetched and invalidated |
| `CacheHistory.OutcomesAreTheOwners` | packages/synology-apm-repo-sdk/src/synology_apm_repo/sdk/asynccache.py:169-190 | A fetch is over with a value, an error or abandoned exactly as its owner ended it |
| `CacheHistory.ResolveIsAnswered` | packages/synology-apm-repo-sdk/src/synology_apm_repo/sdk/asynccache.py:139-168 | A `resolve` returns the settled value, else joins the fetch under way for its key, else begins one, else raises |
| `CacheHistory.OwnerIsAnswered` | packages/synology-apm-repo-sdk/src/synology_apm_repo/sdk/asynccache.py:169-190 | Who fetches gets what its fetch gave, value or error, invalidated meanwhile or not |
| `CacheHistory.CountersCount` | packages/synology-apm-repo-sdk/src/synology_apm_repo/sdk/asynccache.py:74-124 | hits, misses and evictions count exactly the keys served, those asked for in vain, and those the bound pushed out |
| `CacheTheorems.PutManyIsPuts` | packages/synology-apm-repo-sdk/src/synology_apm_repo/sdk/asynccache.py:102-124 | `put_many` leaves what folding `put` leaves, with no more evictions, exactly unless it is given nothing and the bound was lowered below the size |
| `SettleAll.SettledMeansIdle` | packages/synology-apm-repo-sdk/src/synology_apm_repo/sdk/asynccache.py:216-245 | `settle_all` returns only when no fetch is in flight |
| `SettleAll.InFlightAtEntryReturned` | packages/synology-apm-repo-sdk/src/synology_apm_repo/sdk/asynccache.py:226-245 | Each fetch in flight at its call that returned a value is in the result under its key, by that or a later value of the key, even if an `invalidate` kept it out of the store |
| `SettleErrors.ErrorsExactly` | packages/synology-apm-repo-sdk/src/synology_apm_repo/sdk/asynccache.py:226-245 | The errors returned are exactly those of the fetches it waited for and that failed, each once, in the order it waited; a fetch that had failed when reached was not waited for |
| `SettleAll.SettledIsTheStore` | packages/synology-apm-repo-sdk/src/synology_apm_repo/sdk/asynccache.py:216-245 | One condition for the result to equal the store at the return: no bound, nothing stale at the call, no put or `invalidate` during it |
| `SettleAll.LostWhileWaiting` | packages/synology-apm-repo-sdk/src/synology_apm_repo/sdk/asynccache.py:221-230 | A fetch begun and invalidated during the wait can end neither in the result nor in the store, though the documentation promises every in-flight value |
| `SettleAll.ShadowedWhileWaiting` | packages/synology-apm-repo-sdk/src/synology_apm_repo/sdk/asynccache.py:221-245 | Nor need a settled value be in the result: with nothing stale, put, invalidated or resized, a key taken, evicted and fetched again is in the store with its new value and in the result with its old one |
| `SettleAll.StaleIsReturned` | packages/synology-apm-repo-sdk/src/synology_apm_repo/sdk/asynccache.py:221-245 | And the result can be more than the store: a fetch stale at the call is returned though it never reaches the store, as documented |
| `SettleExact.StoreReturnedExactly` | packages/synology-apm-repo-sdk/src/synology_apm_repo/sdk/asynccache.py:221-245 | For every ending settler of every run: every settled value is in the result, so that an `invalidate` drops only values returned, exactly if for no settled key the last fetch taken was overtaken by a later write of another value (later than its return, or than the `invalidate` it was withheld for) |
| `SettleExact.ResultIsStoreExactly` | packages/synology-apm-repo-sdk/src/synology_apm_repo/sdk/asynccache.py:216-245 | The result equals the store exactly if moreover every key held at the call or taken is still in the store |
| `SettleExact.FetchReturnedExactly` | packages/synology-apm-repo-sdk/src/synology_apm_repo/sdk/asynccache.py:221-245 | A fetch that returned has its value or a later one of its key in the result if it or a later fetch of the key was in flight when a round looked and returned, or the key is settled and no fetch of it was taken; for one begun during the wait, of a key whose values all differ, exactly then |
| `AsyncOnces.OpenedIsClosedOrHeld` | packages/synology-apm-repo-sdk/src/synology_apm_repo/sdk/_util/once.py:21-40 | At every moment each opened value was closed once or is the one held |
| `AsyncOnces.ProducedIsOpened` | packages/synology-apm-repo-sdk/src/synology_apm_repo/sdk/_util/once.py:21-40 | Told by the opens alone: of the values they returned, each was closed once or is the one held |
| `AsyncOnces.CloseClosesEverything` | packages/synology-apm-repo-sdk/src/synology_apm_repo/sdk/_util/once.py:33-40 | Once `close` is through `settle_all`, every value ever opened was closed exactly once, one whose open was in flight included |
| `AsyncKeyedCaches.AsyncKeyedCache.Lookup` | packages/synology-apm-repo-sdk/src/synology_apm_repo/sdk/asynccache.py:89-100 | Serves and touches a settled entry, or counts a miss |
| `AsyncKeyedCaches.AsyncKeyedCache.Put` | packages/synology-apm-repo-sdk/src/synology_apm_repo/sdk/asynccache.py:102-105 | One entry written and touched, then the bound applied |
| `AsyncKeyedCaches.AsyncKeyedCache.PutMany` | packages/synology-apm-repo-sdk/src/synology_apm_repo/sdk/asynccache.py:107-113 | Touches every item in order, then evicts once |
| `AsyncKeyedCaches.AsyncKeyedCache.EvictOldest` | packages/synology-apm-repo-sdk/src/synology_apm_repo/sdk/asynccache.py:120-124 | Keeps the last `maxsize` entries and counts the others |
| `AsyncKeyedCaches.AsyncKeyedCache.TakeTurn` | packages/synology-apm-repo-sdk/src/synology_apm_repo/sdk/asynccache.py:138-171 | One turn of `resolve`: hit, join, fetch or refusal, and what each does to the fields |
| `AsyncKeyedCaches.AsyncKeyedCache.FetchReturned` | packages/synology-apm-repo-sdk/src/synology_apm_repo/sdk/asynccache.py:185-190 | Stores the value unless the key is stale, and ends the flight |
| `AsyncKeyedCaches.AsyncKeyedCache.FetchFailed` | packages/synology-apm-repo-sdk/src/synology_apm_repo/sdk/asynccache.py:173-183 | Ends the flight and forgets its staleness |
| `AsyncKeyedCaches.AsyncKeyedCache.Invalidate` | packages/synology-apm-repo-sdk/src/synology_apm_repo/sdk/asynccache.py:192-201 | Drops the key, or every key, and marks in-flight ones stale |
| `AsyncKeyedCaches.AsyncKeyedCache.SettleReady` | packages/synology-apm-repo-sdk/src/synology_apm_repo/sdk/asynccache.py:234-244 | The inner loop gathers what is over and stops at the first pending future |
| `AsyncKeyedCaches.AsyncKeyedCache.StillInFlight` | packages/synology-apm-repo-sdk/src/synology_apm_repo/sdk/asynccache.py:233 | Exactly the futures in flight and not yet awaited |
| `ExportPaths.SafeExportJoin` | packages/synology-apm-repo-sdk/src/synology_apm_repo/sdk/api/export_paths.py:36-74 | The root extended by exactly the segments, or refused, exactly if some segment is unsafe; what that is worth is `PathText.AcceptedIsContained` |
| `PathText.AcceptedIsContained` | packages/synology-apm-repo-sdk/src/synology_apm_repo/sdk/api/export_paths.py:36-74 | A path is accepted exactly if its text below the root, cut at every / and \, is its segments, and each is a name: not empty, ., .. or with NUL, and on Windows none of < > : " ? *, the pipe or a control character, no trailing dot or space, no device |
| `ExportPaths.SafeFileName` | packages/synology-apm-repo-sdk/src/synology_apm_repo/sdk/api/export_paths.py:83-101 | The result is always safe, on either platform, and a safe name is unchanged |
| `PathText.MadeSafe` | packages/synology-apm-repo-sdk/src/synology_apm_repo/sdk/api/export_paths.py:83-101 | What each character of a name becomes, where it stands: itself, or _ for /, \, NUL and what Windows refuses; on Windows the longest part without trailing dots and spaces, with _ before a device name; _ for nothing, . and .. |
| `ExportPaths.FileNameIdempotent` | packages/synology-apm-repo-sdk/src/synology_apm_repo/sdk/api/export_paths.py:83-101 | Making a name safe twice changes nothing more |
| `ExportPaths.NumberedIsSafe` | packages/synology-apm-repo-sdk/src/synology_apm_repo/sdk/api/export_tree.py:147-150 | The numbered variants of a safe name are safe on either platform |
| `ExportPaths.NumberedInjective` | packages/synology-apm-repo-sdk/src/synology_apm_repo/sdk/api/export_tree.py:147-150 | Different numbers give names that differ even case-folded |
| `PathText.NumberedIs` | packages/synology-apm-repo-sdk/src/synology_apm_repo/sdk/api/export_tree.py:147-150 | `a.eml` becomes `a (2).eml`, and a name without an extension behind a stem gets its number at the end |
| `PathText.DecimalIs` | packages/synology-apm-repo-sdk/src/synology_apm_repo/sdk/api/export_tree.py:147-150 | The number's digits stand for it, with no leading zero |
| `ExportPlan.TriedBound` | packages/synology-apm-repo-sdk/src/synology_apm_repo/sdk/api/export_tree.py:102-108 | However many candidates were tried, the claimed names outnumber them: the search for a free name ends |
| `ExportPlan.FirstFree` | packages/synology-apm-repo-sdk/src/synology_apm_repo/sdk/api/export_tree.py:102-108 | The least number whose folded path nothing has claimed |
| `ExportPlan.PlanIsDisjoint` | packages/synology-apm-repo-sdk/src/synology_apm_repo/sdk/api/export_tree.py:110-144 | Planned paths are safe, pairwise different and none above another; claimed files and folders are disjoint |
| `PathText.PlannedIsContained` | packages/synology-apm-repo-sdk/src/synology_apm_repo/sdk/api/export_tree.py:110-144 | Every planned path so stays below the output directory and reaches what its names say |
| `ExportOrder.DepthFirstFirstServed` | packages/synology-apm-repo-sdk/src/synology_apm_repo/sdk/api/export_tree.py:86-144 | Items and skips are listed depth-first in provider order, and a path belongs to what comes first: a leaf is skipped as taken only for an item or folder before it, a folder, as folders merge, only for an item before it |
| `ExportOrder.NumberedForAReason` | packages/synology-apm-repo-sdk/src/synology_apm_repo/sdk/api/export_tree.py:102-108 | A synthesized name gets the first of its numbers that nothing before it has, compared case-folded |
| `ExportPlan.SynthesizedIsPlanned` | packages/synology-apm-repo-sdk/src/synology_apm_repo/sdk/api/export_tree.py:116-144 | A leaf with a synthesized name that is no placeholder is always planned |
| `ExportPlan.EveryNodeHandledOnce` | packages/synology-apm-repo-sdk/src/synology_apm_repo/sdk/api/export_tree.py:110-144 | The nodes reached are exactly the children, but filesystem views, of entered folders; each is planned, skipped for the reason its kind and name call for, or entered, once, and each item and skip is listed exactly below its folders' names, under its own name unchanged or, if that is synthesized, made safe and perhaps numbered |
| `ExportPlan.TakenIsTaken` | packages/synology-apm-repo-sdk/src/synology_apm_repo/sdk/api/export_tree.py:128-135 | What was skipped as taken is a claimed folder, or a planned item's path or below one |
| `TreePlanner.Planner.FirstFreePath` | packages/synology-apm-repo-sdk/src/synology_apm_repo/sdk/api/export_tree.py:102-108 | The loop finds that number; refused exactly if the name below its folders is unsafe |
| `TreePlanner.Planner.PathTaken` | packages/synology-apm-repo-sdk/src/synology_apm_repo/sdk/api/export_tree.py:128-132 | Whether a claimed file, a claimed folder or a claimed file above takes the path |
| `TreePlanner.Planner.VisitChild` | packages/synology-apm-repo-sdk/src/synology_apm_repo/sdk/api/export_tree.py:111-144 | One round of the walk's loop |
| `TreePlanner.Planner.WalkChildren` | packages/synology-apm-repo-sdk/src/synology_apm_repo/sdk/api/export_tree.py:110-144 | The recursive walk |
| `TreePlanner.PlanTreeExport` | packages/synology-apm-repo-sdk/src/synology_apm_repo/sdk/api/export_tree.py:86-144 | The plan is that of the specified walk |
| `ExportRun.FindBlocker` | packages/synology-apm-repo-sdk/src/synology_apm_repo/sdk/api/export_tree.py:204-214 | The nearest existing parent if it is a file, and none otherwise, whatever folders were seen before |
| `ExportRun.Preflight` | packages/synology-apm-repo-sdk/src/synology_apm_repo/sdk/api/export_tree.py:233-260 | The first item whose path is a directory or lies below a file is the problem, with that path and what blocks it, even with `force`; otherwise the pre-existing destinations are exactly recorded, and without `force` the first of them and their number are the problem, if there are any; without a problem nothing is in an item's way and every destination that exists is recorded |
| `ExportRun.ObstructionIsReal` | packages/synology-apm-repo-sdk/src/synology_apm_repo/sdk/api/export_tree.py:204-260 | A reported folder is at the path; a reported file is the nearest thing that exists above it, with no folder at the path |
| `ExportRun.ExistingAre` | packages/synology-apm-repo-sdk/src/synology_apm_repo/sdk/api/export_tree.py:233-260 | The destinations reported and recorded as existing are exactly the planned paths where a file is |
| `ExportRun.RunTreeExport` | packages/synology-apm-repo-sdk/src/synology_apm_repo/sdk/api/export_tree.py:301-369 | The run over the items in order |
| `ExportRun.EveryItemMeetsItsFate` | packages/synology-apm-repo-sdk/src/synology_apm_repo/sdk/api/export_tree.py:336-369 | Up to the first failure each item is exported, skipped as taken exactly if a folder, a file not recorded or written by the run is at its path, or the first thing above it is a file, or skipped for no content, once and in the plan's order; the run stops exactly at a folder where a part file goes |
| `ExportRun.NothingElseAppears` | packages/synology-apm-repo-sdk/src/synology_apm_repo/sdk/dedup/local_file_sink.py:162-176 | The disk gains nothing but the exported items at their paths and the folders above them: no part file is left behind |
| `ExportRun.FoldersAreMade` | packages/synology-apm-repo-sdk/src/synology_apm_repo/sdk/dedup/local_file_sink.py:186-187 | The folder of every exported item is there |
| `ExportRun.ExportedStayExactlyWithoutClash` | packages/synology-apm-repo-sdk/src/synology_apm_repo/sdk/api/export_tree.py:336-369 | Every exported item is in place at the end, each in a file of its own, exactly if no exported item's `.part` file goes where an item exported before it is |
| `ExportRun.PlanKeepsAllExactly` | packages/synology-apm-repo-sdk/src/synology_apm_repo/sdk/api/export_tree.py:336-369 | What a caller can tell before the run: whatever the disk and the items with content, a plan loses nothing exactly if no item is named as the part file of a later one |
| `ExportRun.PartFileClash` | packages/synology-apm-repo-sdk/src/synology_apm_repo/sdk/dedup/local_file_sink.py:162-176 | A plan with one can: `a.part` and then `a` are both reported, and `a.part` is gone |
| `ExportRun.FileKeptExactly` | packages/synology-apm-repo-sdk/src/synology_apm_repo/sdk/api/export_tree.py:336-369 | A file of before the run is as it was exactly if no exported item has its path or stages its `.part` file there |
| `ExportRun.StrangersSparedExactly` | packages/synology-apm-repo-sdk/src/synology_apm_repo/sdk/api/export_tree.py:336-369 | A run changes no file but the recorded pre-existing destinations exactly if no exported item's `.part` file is such another file |
| `ExportRun.PlanSparesStrangersExactly` | packages/synology-apm-repo-sdk/src/synology_apm_repo/sdk/api/export_tree.py:219-260 | What a caller can tell after the preflight: whatever turns out to have content, a plan it let through changes no file but the recorded destinations exactly if no item's `.part` path is such another file |
| `ExportRun.StrangerLost` | packages/synology-apm-repo-sdk/src/synology_apm_repo/sdk/dedup/local_file_sink.py:162-176 | It can be one: beside an unrelated `a.part`, the plan of the one item `a` passes the preflight without `force`, is reported as exported, and `a.part` is gone |
| `Reconcile.ReconcileChildren` | packages/synology-apm-repo-browser/src/synology_apm_repo/browser/view/reconcile.py:100-157 | The level ends with exactly the wanted keys, bound labels and payloads, recursively where described, foreign children left alone; a new node shows its spec's label, a survivor its spec's if the bound one differed and else what it showed; unless rebuilt every survivor keeps its identity, and its children where the spec describes none; new identities are new and all stay distinct; without foreign children and unless rebuilt, the order is the specs' exactly if the survivors were in that order; rebuilt exactly if more than half would go and none is foreign, and then in the specs' order; `added`, `removed` and `relabelled` are exact |
| `Reconcile.RebuiltExactly` | packages/synology-apm-repo-browser/src/synology_apm_repo/browser/view/reconcile.py:120-132 | A level is rebuilt exactly if every child is bound and more than half of them have keys that are not wanted |
| `Reconcile.LackingAre` | packages/synology-apm-repo-browser/src/synology_apm_repo/browser/view/reconcile.py:120-150 | The keys reported as removed or added are exactly those of the one list that the other lacks, once each and in order |
| `Reconcile.RelabelledAre` | packages/synology-apm-repo-browser/src/synology_apm_repo/browser/view/reconcile.py:138-150 | The keys reported as relabelled are exactly those of the survivors whose bound label differed |
| `Reconcile.AddSpec` | packages/synology-apm-repo-browser/src/synology_apm_repo/browser/view/reconcile.py:64-82 | The new node, with an identity not used before and its spec's shown label, is inserted at the index and agrees with its spec, its described subtree included |
| `Reconcile.UpdateSurvivor` | packages/synology-apm-repo-browser/src/synology_apm_repo/browser/view/reconcile.py:142-149 | A survivor keeps its identity, ends as its spec describes and shows its label as `UpdateNode` leaves it; it is relabelled exactly if the bound label differed |
| `Reconcile.LabelsShown` | packages/synology-apm-repo-browser/src/synology_apm_repo/browser/view/reconcile.py:85-157 | If every bound node showed its bound label before, every bound node of the level and below shows its spec's label after |
| `Reconcile.UpdateNode` | packages/synology-apm-repo-browser/src/synology_apm_repo/browser/view/reconcile.py:85-97 | The node keeps its identity and children; the label is set exactly if the bound one differs |
| `Reconcile.InsertionOrder` | packages/synology-apm-repo-browser/src/synology_apm_repo/browser/view/reconcile.py:135-149 | There is room at the insertion index, and inserting there keeps the order |
| `Reconcile.NextCursorKey` | packages/synology-apm-repo-browser/src/synology_apm_repo/browser/view/reconcile.py:160-176 | The cursor's own key, else the nearest survivor after it, else the nearest before it, else none |
| `LoadGates.StepKeeps` | packages/synology-apm-repo-browser/src/synology_apm_repo/browser/runtime/load_gate.py:31-75 | Entering, resuming, being cancelled and leaving keep the counters equal to the tasks and every unresolved waiter unready |
| `LoadGates.ExclusiveIsAlone` | packages/synology-apm-repo-browser/src/synology_apm_repo/browser/runtime/load_gate.py:60-75 | An exclusive holder is the only holder; `_exclusive_pending` counts who waits for or holds it |
| `LoadGates.CountersCount` | packages/synology-apm-repo-browser/src/synology_apm_repo/browser/runtime/load_gate.py:25-75 | In every state `_exclusive_pending` counts the tasks that wait for the gate exclusively or hold it so, `_shared` those that share it, and `_exclusive_running` says whether one holds it alone |
| `LoadGates.PendingKeepsLoadsOut` | packages/synology-apm-repo-browser/src/synology_apm_repo/browser/runtime/load_gate.py:48-57 | No load starts while an invalidation waits or holds |
| `LoadGates.NoLostWakeUp` | packages/synology-apm-repo-browser/src/synology_apm_repo/browser/runtime/load_gate.py:31-46 | A task whose future is unresolved could not go on, and a free gate with waiters has one that can |
| `LoadGates.AskingTakes` | packages/synology-apm-repo-browser/src/synology_apm_repo/browser/runtime/load_gate.py:31-75 | A task that enters or resumes holds the gate at once exactly if it may: a load if no other task waits for or holds it exclusively, an invalidation if no other task holds it |
| `LoadGates.TasksAreTheCallers` | packages/synology-apm-repo-browser/src/synology_apm_repo/browser/runtime/load_gate.py:31-75 | The tasks so counted are exactly those that entered and have not left or been cancelled |
| `LoadGates.LoadGate.WaitOrHold` | packages/synology-apm-repo-browser/src/synology_apm_repo/browser/runtime/load_gate.py:37-57 | One turn of the wait |
| `LoadGates.LoadGate.EnterGate` | packages/synology-apm-repo-browser/src/synology_apm_repo/browser/runtime/load_gate.py:48-70 | Entering, shared or exclusive; returns whether the task holds the gate |
| `LoadGates.LoadGate.CancelWait` | packages/synology-apm-repo-browser/src/synology_apm_repo/browser/runtime/load_gate.py:41-70 | A cancelled wait takes its waiter back, and an exclusive one wakes the others |
| `LoadGates.LoadGate.LeaveGate` | packages/synology-apm-repo-browser/src/synology_apm_repo/browser/runtime/load_gate.py:51-75 | Leaving gives the gate back and wakes the waiters |
| `SessionStores.StepKeeps` | packages/synology-apm-repo-sdk/src/synology_apm_repo/sdk/api/session.py:127-246 | Every step of discoveries, `close_repo` and closings keeps the invariant of counts, uses and closes |
| `SessionStores.NeverClosedInUse` | packages/synology-apm-repo-sdk/src/synology_apm_repo/sdk/api/session.py:207-246 | Once a store's close begins no tracked repository and no running discovery uses what backs it, and it is closed once |
| `SessionStores.ReleasedIsClosed` | packages/synology-apm-repo-sdk/src/synology_apm_repo/sdk/api/session.py:160-246 | With its repositories released and its discoveries over, a backing's stores are closed exactly if no discovery's cleanup raised |
| `SessionStores.LastReleaseCloses` | packages/synology-apm-repo-sdk/src/synology_apm_repo/sdk/api/session.py:127-246 | The same told by the calls alone: once a repository over a backing was released and nothing begun or yielded over it is left, a close over it has begun exactly if no cleanup raised |
| `SessionStores.PastIsTheCalls` | packages/synology-apm-repo-sdk/src/synology_apm_repo/sdk/api/session.py:127-246 | What counts as released, failed and cancelled is what the calls made so |
| `SessionStores.UsesAreTheCalls` | packages/synology-apm-repo-sdk/src/synology_apm_repo/sdk/api/session.py:127-246 | What counts as in use is exactly the discoveries begun and not ended and the repositories yielded and not released |
| `SessionStores.EveryStoreClosedOnce` | packages/synology-apm-repo-sdk/src/synology_apm_repo/sdk/api/session.py:232-246 | Then, uncancelled, every store ever tracked over it was closed exactly once |
| `SessionStores.FailedCleanupStrands` | packages/synology-apm-repo-sdk/src/synology_apm_repo/sdk/api/session.py:160-171 | A cleanup that raises leaves the discovery counted, and the store open after its last user is gone |
| `Discoveries.YieldedInOrderFound` | packages/synology-apm-repo-sdk/src/synology_apm_repo/sdk/api/session.py:121-162 | Repositories are yielded in the order found, whatever order the opens finish in and however the discovery ends |
| `Discoveries.EndedYieldsAll` | packages/synology-apm-repo-sdk/src/synology_apm_repo/sdk/api/session.py:121-162 | A discovery that ran to its end took every layout its scan gave, to the last, and yielded exactly those whose opens said they are repositories, in that order |
| `Discoveries.FailureEndsDiscovery` | packages/synology-apm-repo-sdk/src/synology_apm_repo/sdk/api/session.py:121-162 | A failed open, a broken scan or leaving the generator ends it: nothing is yielded after |
| `Discoveries.CleanupRaisesExactly` | packages/synology-apm-repo-sdk/src/synology_apm_repo/sdk/api/session.py:163-164 | Over every run of a discovery: its cleanup raises exactly if the scan ended in an error, an open still pending failed, or closing the scan raised; a scan's error the loop has raised is raised by the cleanup again |
| `Discoveries.DrainAndClose` | packages/synology-apm-repo-sdk/src/synology_apm_repo/sdk/api/session.py:285-301 | The awaits of `_drain_and_close` in order raise exactly then |
| `Discoveries.ClosedUnlessCleanupRaised` | packages/synology-apm-repo-sdk/src/synology_apm_repo/sdk/api/session.py:106-246 | Over every run of any number of discoveries in one session: with its repositories released and its discoveries over, a backing's stores are closed exactly if none of those discoveries ended with a broken scan, a failed open still pending, or a scan that raised when closed |
| `Discoveries.BrokenScanStrands` | packages/synology-apm-repo-sdk/src/synology_apm_repo/sdk/api/session.py:130-171 | A discovery that yields a repository and whose scan then breaks leaves the store open after that repository is closed |
| `SessionStores.SessionObject.ReleaseRepository` | packages/synology-apm-repo-sdk/src/synology_apm_repo/sdk/api/session.py:207-230 | `close_repo` defers to a running discovery or returns the stores of the closing it starts |
| `SessionStores.SessionObject.EndOfDiscovery` | packages/synology-apm-repo-sdk/src/synology_apm_repo/sdk/api/session.py:160-171 | The last discovery closes what was deferred to it, and returns the stores of the closing it starts |
| `SessionStores.SessionObject.StoresToClose` | packages/synology-apm-repo-sdk/src/synology_apm_repo/sdk/api/session.py:232-238 | Nothing while a tracked repository reads through the backing, else every tracked wrap of it |
| `FirstError.FailsAsSerially` | packages/synology-apm-repo-sdk/src/synology_apm_repo/sdk/concurrency.py:174-198 | Under every schedule the call raises exactly what a serial loop raises, and all items before that one ran to completion |
| `FirstError.SkippedAfterFailure` | packages/synology-apm-repo-sdk/src/synology_apm_repo/sdk/concurrency.py:186-194 | An item that has not started when an earlier one has failed never starts |
| `FirstError.TurnRuns` | packages/synology-apm-repo-sdk/src/synology_apm_repo/sdk/concurrency.py:186-194 | An item that gets its turn runs exactly if no earlier one has failed |
| `FirstError.BoundHolds` | packages/synology-apm-repo-sdk/src/synology_apm_repo/sdk/concurrency.py:161-171 | At most `max_concurrent` workers run at once |
| `FirstError.NeverStuck` | packages/synology-apm-repo-sdk/src/synology_apm_repo/sdk/concurrency.py:161-171 | Until all tasks are over some step is possible |
| `FirstError.StepsAreFew` | packages/synology-apm-repo-sdk/src/synology_apm_repo/sdk/concurrency.py:161-198 | Each step lessens a count, so every schedule ends |
| `MvuStore.IdleIsSettled` | packages/synology-apm-repo-browser/src/synology_apm_repo/browser/runtime/store.py:62-113 | When the outermost dispatch has returned, the model is the fold of `update` over exactly the messages dispatched before a `close`, wherever from, in that order; each command was performed once in emission order; and each subscription made and not ended last saw, as rendered or at its start, its slice of that model |
| `MvuStore.AcceptedIsDispatched` | packages/synology-apm-repo-browser/src/synology_apm_repo/browser/runtime/store.py:62-69 | The messages taken are those dispatched, until the store is closed |
| `MvuStore.SubscriptionsAreTheCallers` | packages/synology-apm-repo-browser/src/synology_apm_repo/browser/runtime/store.py:98-124 | The subscriptions notified are those made and neither ended nor cleared since |
| `MvuStore.ShownBeforePerformed` | packages/synology-apm-repo-browser/src/synology_apm_repo/browser/runtime/store.py:71-96 | A command is performed only once every subscription has seen the model of its batch |
| `MvuStore.StepProcesses` | packages/synology-apm-repo-browser/src/synology_apm_repo/browser/runtime/store.py:71-90 | Every step keeps model and commands equal to the fold over the messages taken |
| `MvuStore.StepUpdates` | packages/synology-apm-repo-browser/src/synology_apm_repo/browser/runtime/store.py:92-117 | Every step keeps the subscriptions the notification has passed up to date |
| `MvuStore.DrainQueue` | packages/synology-apm-repo-browser/src/synology_apm_repo/browser/runtime/store.py:79-83 | The queue loop computes that fold |

## Left out

- Storage back ends, catalogs, HTTP, subprocesses, worker processes and their shared descriptors: foreign input and output. `worker_target` writes count as writes of their segment.
- zlib: a pair of functions of which one undoes the other on a grain. The text of the VMDK descriptor is a parameter. Failing writes of the VMDK output end the export and are not modelled.
- `create_destination` racing an abort, a second `commit`, calls after `commit`, an abort task that is itself cancelled, and errors of the pool's own close.
- `quiesce` and the counters' snapshot `CacheStats`: they add nothing to `settle_all` and to the fields.
- Overlapping `AsyncOnce.close` calls, and a joiner's late answer after `invalidate`, which is as documented.
- `Sort` stands for Python's `sorted`: an insertion sort with the same result.
- Scanning Python files for imports; the import statements are the model's input.
- The case rules of Unicode: upper-casing and case folding are functions of a character, and what two paths compare equal by is assumed to imply equal folding.
- How `pathlib` parses a component with separators, drives or dots: such a component is refused before it is joined.
- `run_tree_export` against other writers of the disk, links, and failures in the middle of an item; one item either is written whole or ends the run.
- `update_node` and `reconcile_children` work on tree nodes as values with an identity; aliasing of nodes and the widget's own drawing are not modelled. `on_diff`, `on_node`, `find_node` and `reconcile_and_restore_cursor` are left out.
- `FirstError` has no class: the tasks of a `TaskGroup` are the items, and cancellation from outside is left out, as in the property.
- `MvuStore` lets renders and commands do anything between its steps; exceptions out of them, and the depth of the recursion of `_drain`, are not modelled.
- `Session.close`, discoveries started over a backing whose close has begun, and a malformed key, whose store stays tracked until `Session.close`.
- `LoadGate` holders that ask for the gate again.
- CLI and screen text, progress meters, previews, name formatting and the other display code.
