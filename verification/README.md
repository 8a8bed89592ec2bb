# LevelDB and nanopb in Dafny

The app vendors two complete algorithmic systems, and this project models both.

**LevelDB** is a log-structured merge tree.  A write gets a sequence number, is logged, and goes into a skip
list.  Full memtables become sorted tables, background compactions merge tables down the levels, and a manifest
records which tables make up the current version.  Everything refines one simple object: a set of entries (user
key, sequence number, put or delete, value), of which a reader at a snapshot sees, for each user key, the newest
one at or below its sequence number (`InternalKeys.Visible`).  The theorems say that the fast forms show exactly
that object: over all runs of the state machine, across crashes, through the cursors, and down to the bytes.

**nanopb** encodes and decodes protocol buffers from descriptors.  The theorem at its centre: what the
encoder writes, in a counting pass and a writing pass, the decoder turns back into the message it came from.

## How the modules fit together

- *The simple object and the tree*: `InternalKeys`, `Files`, `PointLookup`, `InputSelection`, `VersionBuilder`,
  `CompactionWork`, `TreeSteps`.  `LsmMachine` puts them into a state machine (writes, memtable switches, flushes
  also inside a running compaction, trivial moves, compactions, snapshots) whose main theorems are `LevelsStaySorted`,
  `ReadsAreExact` and `ScansAreExact`.  `LastWrites` says what a history leaves under a key without speaking of
  sequence numbers, and `SnapshotReads` says it of every snapshot and the moment it was taken.  `QuietRuns`,
  `BoundaryFiles`, `BoundaryMerges`, `InstallsInRuns`, `StraddlingRun` and `UncoveredRun` settle the one hypothesis
  that reads need.  `ReadSamples` charges files for sampled reads, `CompactionRounds` shows that size compactions
  take turns, `Progress` that flushes and compactions can always be finished, and `Snapshots` is the linked list.
- *Durability*: `Durability` adds logs, tables, manifest, garbage collection, crashes and interrupted recoveries
  around an `LsmMachine` state; `DurableTrees`, `DurabilityInvariant`, `DurabilitySteps` and `CrashRecovery` prove
  recovery exact and collection safe; `GarbageCollection` shows that a sweep leaves nothing else, `Reopening` that a
  database can always be opened, and `SurvivingWrites` tells it by last writes.  There the manifest is one record
  that says what it means.
- *The manifest*: `VersionEdits` (an edit as bytes), `ManifestReplay` (one level, one builder against the chain of
  live versions), `Journals` (the edits of a whole run), `ManifestRecords` (the builder and `Recover` over bytes),
  `ManifestRecovery` (the two builders agree), and `ManifestMachine`: the durable database again, with the manifest
  as the list of encoded edits that were appended.  Each of its runs is a run of `Durability`.
- *Writing*: `GroupCommit` (the writer queue) over `WriteBatches` (bytes).  `LogReplay` replays a log as bytes,
  `WriteAheadLogs` says what cuts of the bytes mean for crashes, `ReplayedTables` ties the replayed tables to
  `Durability`, where a log is a list of groups, and `ReplayedReads` says what they read as.
- *Memtables*: `SkipListNodes`, `SkipLists` (one thread), `SkipListReaders` (readers beside the inserting
  thread), `MemTables` (lookups, and `DbGet` over memtables and tables).
- *Cursors*: `Cursors` (the simple cursor), `MergingIterators`, `DbIterators` (over a merging iterator),
  `TwoLevelIterators`, and `DbScans`: the stack over the sources of a reachable state.
- *Byte formats*: `Arithmetic`, `Coding`; the log (`LogFormat`, `LogWriting`, `LogSplits`, `LogRecovery`,
  `LogReading`; `LogRoundTrip` on logs that were only cut, `LogDamage` and `LogIntegrity` on any bytes at all); blocks
  (`BlockFormat`, `BlockBuilding`, `BlockReading`, `BlockRoundTrip`); tables (`Bytewise`, `InternalKeyBytes`,
  `BloomFilters`, `FilterBlocks`, `TableFormat`, `TableBuilding`, `TableLookup`); `CutFormats` (batches and edits cut
  short).
- *Cache*: `HandleTables` (the hash table), `PlainCaches` (the simple cache), `LruCaches`, and `CacheLaws`: what the
  simple cache means, told by the calls alone.
- *nanopb*: `PbMessages` (descriptors and messages), `PbEncoding` and `PbDecoding` (what the two sides mean),
  `PbRoundTrip`, `PbRequired`, `PbMerging` (decoding into a message that is there already), `PbEvolution` (sender and
  receiver with different schemas), `PbArrays` (packed and unpacked items), `PbCuts` (messages cut short),
  `PbSafety` (any input at all), and the imperative `PbEncoder`, `PbStreams`, `PbDecoder`.

Code that changes things step by step is a class or a method with loops, proved against functions on values; state
machines stand where steps of several threads interleave or a crash may come between two steps.

## Hypotheses

- **Boundary files.**  A compaction may leave the older versions of a user key in a neighbouring file of its level.
  Theorems about what reads return (`ReadsAreExact`, `SnapshotReads`, `RecoveredReads`, `ReadsAreLastWrites`) assume
  that picked inputs leave no such file behind (`BoundaryClosed`).  Everything else holds of all runs: the shape of the
  tree, file numbers, the prefix that recovery gives back, collection, and the replay of the manifest.  Reads do need
  the hypothesis: `StraddlingRun` is a complete run without it in which a move makes a read return an overwritten
  value, `UncoveredRun` one in which an install brings a deleted value back.  Both leave values and file sizes open;
  they begin with a CompactRange, which merges even a lone table, and a large value or key that cuts its output.
  When the hypothesis matters is exact: `BoundaryFiles.MoveIsSafeIff` for moves, `InstallsInRuns.InstallsAreSafeIff`
  for compactions, both in terms of the boundary files left behind.  Closed inputs meet both conditions
  (`BoundaryMerges.ClosedIsSafe`).  The hypothesis is not needed when no snapshot is held at the start of any
  compaction: `QuietRuns.QuietReadsAreExact`.
- **Connected inputs.**  A flush may happen inside a running compaction.  That is safe because the inputs
  `PickCompaction` chooses leave no gap (proved).  `CompactRange` may leave gaps, so the state machine starts
  only connected compactions.
- **Crash model.**  Appends that returned are kept in order.  A crash may cut off only the part of the newest log
  that was not synced, and the manifest record whose append had not returned.
- **User keys** are reals in the modules that only compare them.  `Bytewise.RankIsOrder` embeds byte
  strings in that order and `InternalKeyBytes.KeyLessIsBefore` carries it over to internal keys.  Where files are
  named in a manifest, their end keys are the ranks of byte strings.
- **Sizes.**  Lengths fit the 32-bit and sequence numbers the 56-bit fields they are written to; the contracts
  say so where it matters.
- **Required fields (nanopb).**  The decoder's check works for fewer than 64 required fields that are not exactly
  32; `PbRequired.RequiredCheckIff` proves that condition exact, and `PbDecoder` asks for it.
- **Strings (nanopb)** end in a NUL: `PbRoundTrip.TextBackIff` proves that a string filling its buffer is written
  but never read back.

## Where the code does less than its comments or users might expect

- A trivial move or compaction can hide a newer value behind an older one, or bring a deleted one back
  (`StraddlingKeyReadsStale`, `DeletedValueComesBack`; exactly when, see above).
- A field without a has_ flag whose value is a submessage is left out when it only looks empty: flags are not
  considered, and of an array only the first item is.  `PbRoundTrip.ArrayIsLost` loses the array [0, 5];
  `PbRoundTrip.ImplicitBackIff` gives the exact condition.
- nanopb does not compare the wire type in a key with the kind of its field, only whether an array is packed
  (`PbMerging.WireTypeIsIgnored`), and takes a message that was cut before or inside a key for one that ends there
  (`PbCuts.CutKey`).
- One builder over a manifest that re-adds a file number may bring the old file back
  (`ManifestReplay.ReaddedComesTwice`); `ManifestReplay.OneMoreEditIff` says exactly when it does, and
  `Journals.RunJournal` that no run of the database ever re-adds one.
- Reading a log from an offset inside a block can report corruption in a log that has none.  It happens if and only
  if some record straddles the offset: one of its fragments starts in the part of the offset's block before it, and
  the next, which starts at or after it, is whole.  What is reported is that later fragment, not what was skipped, and
  the records returned are right either way: `LogRoundTrip.ReadAll`, with `ReadInsideABlock` for an example.  Nothing
  straddles an offset that starts a block (`NothingStraddles`).

## Model

| member | source | states |
|---|---|---|
| `InternalKeys.LookupKeyIsBoundary` | _BreakPoint/Pods/leveldb-library/db/dbformat.cc:121-139 | The lookup key of a user key and snapshot precedes exactly the entries of that user key at or below the snapshot, and all later user keys. |
| `InternalKeys.NewestOfLayers` | _BreakPoint/Pods/leveldb-library/db/db_impl.cc:1122-1141 | When an upper layer is newer for a user key, searching layers top down finds the newest entry of their union. |
| `InternalKeys.DroppingIsInvisible` | _BreakPoint/Pods/leveldb-library/db/db_impl.cc:952-966 | Leaving out entries that are hidden below the smallest snapshot, or are deletions with nothing under them, changes no read at or above it. |
| `Files.FindFile` | _BreakPoint/Pods/leveldb-library/db/version_set.cc:86-105 | Binary search returns the one index that splits the files by whether they end before the key. |
| `Files.SomeFileOverlapsRange` | _BreakPoint/Pods/leveldb-library/db/version_set.cc:121-155 | True exactly when some file meets the range of user keys, on sorted levels by binary search and on level 0 by a full scan. |
| `Files.GetOverlappingInputs` | _BreakPoint/Pods/leveldb-library/db/version_set.cc:531-572 | On level 0 the restarting search terminates with the least set of files closed under overlap with the range; below, with exactly the overlapping files. |
| `PointLookup.OverlappingNewestFirst` | _BreakPoint/Pods/leveldb-library/db/version_set.cc:350-361 | Exactly the level-0 files that cover the user key, larger file numbers first. |
| `PointLookup.FilesToSearch` | _BreakPoint/Pods/leveldb-library/db/version_set.cc:342-380 | The chosen files of a level decide a lookup: every other file holds no candidate. |
| `PointLookup.SearchLevel` | _BreakPoint/Pods/leveldb-library/db/version_set.cc:382-424 | A hit is the newest entry of the whole level at or below the snapshot; a miss means the level has none; the file opened first is carried on to the level where a second one is opened. |
| `PointLookup.Get` | _BreakPoint/Pods/leveldb-library/db/version_set.cc:332-429 | The value of the first level that has a candidate.  A file is charged exactly when it was opened first, missed, and a second one was opened; so none on the bottom level is. |
| `ReadSamples.FirstOfTwo` | _BreakPoint/Pods/leveldb-library/db/version_set.cc:287-324 | Names a file exactly when a search would open two or more; it is the one opened first, and not on the bottom level. |
| `ReadSamples.RecordReadSample` | _BreakPoint/Pods/leveldb-library/db/version_set.cc:444-480 | A sampled read charges that file, which becomes due once and is never on the bottom level; a key that does not parse charges none. |
| `PointLookup.FirstHitIsNewest` | _BreakPoint/Pods/leveldb-library/db/version_set.cc:332-429 | If each level is newer than those below it, the first hit is the newest entry of the tree. |
| `PointLookup.LookupIsExactIff` | _BreakPoint/Pods/leveldb-library/db/version_set.cc:332-340 | Point lookup is exact for all keys and snapshots if and only if, for each user key, a smaller level holds only newer entries. |
| `VersionBuilder.SaveLevelMultiset` | _BreakPoint/Pods/leveldb-library/db/version_set.cc:711-772 | A saved level holds, with multiplicity, the base and added files whose numbers are not deleted. |
| `VersionBuilder.SaveLevelInOrder` | _BreakPoint/Pods/leveldb-library/db/version_set.cc:720-741 | Merging base and added files keeps the order by smallest key. |
| `VersionBuilder.SaveLevelSorted` | _BreakPoint/Pods/leveldb-library/db/version_set.cc:743-771 | A level stays sorted with disjoint ranges when what is added lies apart from what stays. |
| `InputSelection.GetRange` | _BreakPoint/Pods/leveldb-library/db/version_set.cc:1224-1243 | The least and greatest keys of the files, each attained. |
| `InputSelection.VersionSet.SetupOtherInputs` | _BreakPoint/Pods/leveldb-library/db/version_set.cc:1345-1404 | The lower inputs are exactly the files the upper inputs touch; the upper inputs grow exactly when that adds files, leaves the lower ones and stays within the size limit; grandparents are the files two levels down that the inputs span; the compaction pointer moves to the end of the last upper input and no other pointer changes. |
| `InputSelection.VersionSet.GrowInputs` | _BreakPoint/Pods/leveldb-library/db/version_set.cc:1356-1385 | The growth step is taken exactly when it adds upper files, touches no further lower one and stays within 25 file sizes, and keeps inputs connected. |
| `InputSelection.VersionSet.PickCompaction` | _BreakPoint/Pods/leveldb-library/db/version_set.cc:1291-1343 | Picks exactly when a trigger is set.  The size trigger goes first: its level, and the first file whose largest key is past the pointer, or the first of all if none is.  Otherwise the charged file on its level.  The inputs are built around that file, all it overlaps on level 0, and leave no gap; the pointer moves to their end. |
| `InputSelection.VersionSet.CompactRange` | _BreakPoint/Pods/leveldb-library/db/version_set.cc:1413-1444 | Inputs for a requested range exist exactly when some file of the level meets it.  They are all of these on level 0; below, the first of them up to one file size; then set up as any others.  They may have gaps. |
| `InputSelection.VersionSet.UpdateStats` | _BreakPoint/Pods/leveldb-library/db/version_set.cc:431-442 | A charged file becomes due once, and is never on the bottom level. |
| `InputSelection.VersionSet.PickLevelForMemTableOutput` | _BreakPoint/Pods/leveldb-library/db/version_set.cc:502-528 | The deepest level, at most 2, that can be reached from level 0 while nothing on the way overlaps the flushed table and what it overlaps one level further stays below the limit; 0 if level 0 overlaps it. |
| `InputSelection.VersionSet.FileAfterPointer` | _BreakPoint/Pods/leveldb-library/db/version_set.cc:1302-1317 | The first file of the level whose largest key is past the compaction pointer, or the first file if there is none. |
| `InputSelection.PickSweeps` | _BreakPoint/Pods/leveldb-library/db/version_set.cc:1302-1317 | A size compaction takes every file from the one it starts at up to where it leaves the pointer. |
| `CompactionRounds.EveryFileHasItsTurn` | _BreakPoint/Pods/leveldb-library/db/version_set.cc:1397-1402 | On an unchanged version, between two size picks that start at the same file, every file of the level is taken. |
| `CompactionRounds.KeepPicking` | _BreakPoint/Pods/leveldb-library/db/version_set.cc:1291-1317 | Picking any number of times is such a sequence of picks, so no file waits for ever. |
| `InputSelection.VersionSet.MaxBytesForLevel` | _BreakPoint/Pods/leveldb-library/db/version_set.cc:40-51 | Ten megabytes, ten times as much on each level below level 1. |
| `InputSelection.VersionSet.Finalize` | _BreakPoint/Pods/leveldb-library/db/version_set.cc:1064-1101 | The size trigger is set if and only if some level is over its limit, to the first of those with the highest score. |
| `InputSelection.TouchedIsConnected` | _BreakPoint/Pods/leveldb-library/db/version_set.cc:1345-1350 | Upper inputs without gaps, and the lower files they touch, have no gaps either. |
| `InputSelection.GrowthIsGood` | _BreakPoint/Pods/leveldb-library/db/version_set.cc:1361-1384 | If the grown upper inputs touch as many lower files as before, they touch the same ones. |
| `CompactionWork.Compaction.CoveredOnLevel` | _BreakPoint/Pods/leveldb-library/db/version_set.cc:1484-1503 | A cursor that only moves forward answers, for user keys asked in order, whether any file of the level covers the key. |
| `CompactionWork.Compaction.IsBaseLevelForKey` | _BreakPoint/Pods/leveldb-library/db/version_set.cc:1484-1503 | The advancing cursors say exactly what a full scan of all levels at least two deeper would. |
| `CompactionWork.ShouldDrop` | _BreakPoint/Pods/leveldb-library/db/db_impl.cc:938-971 | The loop variables implement rules (A) and (B) on every entry. |
| `CompactionWork.DoCompactionWork` | _BreakPoint/Pods/leveldb-library/db/db_impl.cc:900-1008 | The outputs are sorted, disjoint, freshly numbered, and their concatenation is exactly the kept entries, however they are cut. |
| `CompactionWork.DroppedIsDroppable` | _BreakPoint/Pods/leveldb-library/db/db_impl.cc:952-966 | Every dropped entry is hidden by a newer input at or below the smallest snapshot, or is a deletion under which nothing survives. |
| `CompactionWork.CompactionPreservesReads` | _BreakPoint/Pods/leveldb-library/db/db_impl.cc:887-1008 | Replacing compaction inputs by what is kept changes no read of any user key at any snapshot at or above the smallest one. |
| `TreeSteps.ReplaceKeepsTree` | _BreakPoint/Pods/leveldb-library/db/db_impl.cc:866-885 | Installing outputs keeps levels sorted and disjoint, smaller levels newer, level-0 numbers newer and file numbers unique. |
| `TreeSteps.ReplaceKeepsShape` | _BreakPoint/Pods/leveldb-library/db/db_impl.cc:866-885 | Without any hypothesis on boundary files: sorted disjoint levels and unique numbers stay. |
| `TreeSteps.AddKeepsTree` | _BreakPoint/Pods/leveldb-library/db/db_impl.cc:488-532 | So does adding a flushed table at the level chosen for it. |
| `TreeSteps.AddKeepsShape` | _BreakPoint/Pods/leveldb-library/db/db_impl.cc:488-532 | A flushed table keeps sorted disjoint levels and unique numbers. |
| `TreeSteps.AddKeepsFit` | _BreakPoint/Pods/leveldb-library/db/db_impl.cc:917-927 | A flush inside a running compaction leaves the compaction inputs as good as they were. |
| `TreeSteps.PickedFits` | _BreakPoint/Pods/leveldb-library/db/version_set.cc:1345-1396 | Picked inputs that leave no boundary file behind can be merged one level down without disturbing the tree. |
| `TreeSteps.StaysNewerIff` | _BreakPoint/Pods/leveldb-library/db/version_set.cc:1345-1396 | On a sorted level, what stays is newer than what is taken if and only if no boundary file is left behind. |
| `TreeSteps.ReplaceEntries` | _BreakPoint/Pods/leveldb-library/db/version_set.cc:665-772 | After an install the tree holds the entries that were not inputs and those of the outputs, nothing else. |
| `LsmMachine.WriteKeepsInv` | _BreakPoint/Pods/leveldb-library/db/db_impl.cc:1213-1242 | A group of writes keeps the invariant of the machine. |
| `LsmMachine.FlushKeepsInv` | _BreakPoint/Pods/leveldb-library/db/db_impl.cc:534-565 | A flush, also inside a running compaction, keeps it. |
| `LsmMachine.InstallKeepsInv` | _BreakPoint/Pods/leveldb-library/db/db_impl.cc:866-885 | Installing a compaction that began in an earlier state keeps it, at every snapshot live then or taken since. |
| `LsmMachine.MoveKeepsInv` | _BreakPoint/Pods/leveldb-library/db/db_impl.cc:716-736 | A trivial move keeps it. |
| `LsmMachine.ReleaseKeepsInv` | _BreakPoint/Pods/leveldb-library/db/snapshot.h:38-58 | Releasing any snapshot keeps it: the oldest live snapshot only rises. |
| `Snapshots.SnapshotList.New` | _BreakPoint/Pods/leveldb-library/db/snapshot.h:42-51 | The ring is one snapshot longer, at its newest end, with the number given. |
| `Snapshots.SnapshotList.Delete` | _BreakPoint/Pods/leveldb-library/db/snapshot.h:53-58 | The snapshot leaves the ring, wherever it is, and the others stay in order. |
| `Snapshots.SnapshotList.Oldest` | _BreakPoint/Pods/leveldb-library/db/snapshot.h:38-40 | The node behind the head is the oldest snapshot. |
| `LsmMachine.StepKeepsShape` | _BreakPoint/Pods/leveldb-library/db/db_impl.cc:686-769 | Every step, whatever inputs were picked, keeps the shape of the tree, unique file numbers, memtables in order, and the inputs of the running compaction in place, connected, with what stays beside them. |
| `LsmMachine.LevelsStaySorted` | _BreakPoint/Pods/leveldb-library/db/version_set.cc:743-757 | In every state of every run, under every interleaving, levels from 1 on are sorted with disjoint ranges and no file number is used twice; there is no hypothesis on inputs. |
| `LsmMachine.StepKeepsInv` | _BreakPoint/Pods/leveldb-library/db/db_impl.cc:686-769 | Every step of a boundary-closed run keeps, besides the shape, what reads need: smaller levels newer, and snapshots that the running compaction respects. |
| `LsmMachine.ReadsAreExact` | _BreakPoint/Pods/leveldb-library/db/db_impl.cc:1109-1154 | In every state of every boundary-closed run, a read at the last sequence or at a live snapshot returns what the history of writes says. |
| `LsmMachine.ScansAreExact` | _BreakPoint/Pods/leveldb-library/db/db_impl.cc:1156-1166 | In every state of every boundary-closed run, the map an iterator walks is exactly what the history of writes makes visible at its snapshot. |
| `LastWrites.LastWriteIsVisible` | _BreakPoint/Pods/leveldb-library/db/db_impl.cc:1109-1154 | When sequence numbers rise along a history, what is visible at its end under a key is its last write there, or nothing if that is a deletion. |
| `SnapshotReads.HistoryIsTheWrites` | _BreakPoint/Pods/leveldb-library/db/db_impl.cc:1194-1265 | In every run the history is what the steps wrote, in order, each write once, numbered from one. |
| `SnapshotReads.NumbersAreTheirs` | _BreakPoint/Pods/leveldb-library/db/db_impl.cc:1175-1178 | In every run, the number of each snapshot held is the last sequence at the step that took it. |
| `SnapshotReads.ReleaseIsExact` | _BreakPoint/Pods/leveldb-library/db/db_impl.cc:1180-1183 | A release takes out the snapshot released, and all others stay held. |
| `SnapshotReads.HeldUntilReleased` | _BreakPoint/Pods/leveldb-library/db/snapshot.h:42-58 | A snapshot is held exactly from the step that takes it until a step that releases it. |
| `SnapshotReads.LatestReads` | _BreakPoint/Pods/leveldb-library/db/db_impl.cc:1109-1154 | In every state of every boundary-closed run, a read at the latest sequence returns the last write of all the steps before. |
| `SnapshotReads.SnapshotReads` | _BreakPoint/Pods/leveldb-library/db/db_impl.cc:1109-1178 | A read at a held snapshot returns the last write before the step that took it, whatever was written, flushed, compacted or released since. |
| `SnapshotReads.SnapshotScans` | _BreakPoint/Pods/leveldb-library/db/db_impl.cc:1156-1178 | So does an iterator at a held snapshot: it walks exactly the keys with a last write before then that is not a deletion. |
| `Progress.PickedIsPossible` | _BreakPoint/Pods/leveldb-library/db/db_impl.cc:711-740 | Whatever PickCompaction may return can be compacted, or moved if it is one file with nothing below. |
| `Progress.FlushIsPossible` | _BreakPoint/Pods/leveldb-library/db/db_impl.cc:534-565 | In every run, an immutable memtable can be written out, and what is stored stays the same. |
| `Progress.FinishIsPossible` | _BreakPoint/Pods/leveldb-library/db/db_impl.cc:866-885 | In every run, a running compaction can be finished. |
| `QuietRuns.KeptIsOnePerKey` | _BreakPoint/Pods/leveldb-library/db/db_impl.cc:952-954 | Without snapshots a compaction keeps at most one entry of each user key. |
| `QuietRuns.QuietReadsAreExact` | _BreakPoint/Pods/leveldb-library/db/db_impl.cc:895-899 | If no snapshot is held when compactions start, files below level 0 never share a user key and every read is exact, with no hypothesis on inputs. |
| `BoundaryFiles.MoveIsSafeIff` | _BreakPoint/Pods/leveldb-library/db/db_impl.cc:716-736 | After a trivial move below level 0, lookups are exact if and only if the move left no boundary file behind. |
| `BoundaryMerges.InstallNewerIff` | _BreakPoint/Pods/leveldb-library/db/db_impl.cc:866-885 | After an install, also in a tree that grew by flushes since the compaction began, smaller levels hold only newer versions if and only if nothing sinks below a boundary file of the upper inputs, that is, the compaction drops every key such a file continues. |
| `BoundaryMerges.InstallIsSafeIff` | _BreakPoint/Pods/leveldb-library/db/db_impl.cc:866-885 | After such an install, lookups find the newest stored version if and only if nothing sinks; and what is stored reads as before, at the snapshot bound and above, if and only if no dropped deletion uncovers a put in a boundary file of either level. |
| `InstallsInRuns.AddKeepsStanding` | _BreakPoint/Pods/leveldb-library/db/db_impl.cc:917-927 | A flush inside a running compaction leaves its inputs standing: nothing that meets them stays beside them on the lower level, and what stays on level 0 is newer. |
| `InstallsInRuns.AddKeepsBelow` | _BreakPoint/Pods/leveldb-library/db/db_impl.cc:917-927 | It puts no file under a key of the inputs, so the version that the compaction consults for deeper files still decides rightly. |
| `InstallsInRuns.InstallsAreSafeIff` | _BreakPoint/Pods/leveldb-library/db/db_impl.cc:866-885 | Both conditions are exact at every install of every run whose tree was in order before it. |
| `StraddlingRun.StraddlingKeyReadsStale` | _BreakPoint/Pods/leveldb-library/db/version_set.cc:1345-1396 | For any values written and any file sizes, a complete run: a manual compaction cuts its output between two versions of a key, a move leaves a boundary file behind, and the next read returns the overwritten value. |
| `UncoveredRun.DeletedValueComesBack` | _BreakPoint/Pods/leveldb-library/db/db_impl.cc:952-966 | For any values written and any file sizes, a complete run in which a compaction drops a deletion, an older put stays in a boundary file of its lower level, and the deleted value can be read again. |
| `DurableTrees.TreeFlush` | _BreakPoint/Pods/leveldb-library/db/db_impl.cc:534-565 | A flush takes the durable tree from covering one prefix of the logged groups to covering a longer one. |
| `DurableTrees.TreeIsBare` | _BreakPoint/Pods/leveldb-library/db/version_set.cc:820-841 | What a manifest record describes is a database with empty memtables whose history is the groups its tables cover. |
| `DurabilitySteps.LogKeeps` | _BreakPoint/Pods/leveldb-library/db/db_impl.cc:1223-1224 | Logging a group keeps logs and manifest complete: together they hold every logged group once. |
| `DurabilitySteps.SwitchKeeps` | _BreakPoint/Pods/leveldb-library/db/db_impl.cc:1355-1376 | Switching logs keeps it, also while a compaction is being written to the manifest. |
| `DurabilitySteps.AppendKeeps` | _BreakPoint/Pods/leveldb-library/db/version_set.cc:820-880 | What the record LogAndApply appends means, whether or not it reaches the disk, is a recoverable database (ManifestMachine.AppendKeeps: the same for the bytes appended). |
| `DurabilitySteps.InstallKeeps` | _BreakPoint/Pods/leveldb-library/db/version_set.cc:887-891 | Installing the new version keeps it, with writes and log switches since the record was made. |
| `DurabilitySteps.FailKeeps` | _BreakPoint/Pods/leveldb-library/db/version_set.cc:891-902 | A failed LogAndApply leaves the old version current, and recovery right in either case. |
| `DurabilitySteps.DeleteLogKeeps` | _BreakPoint/Pods/leveldb-library/db/db_impl.cc:235-238 | Deleting a log below the manifest log number loses no group. |
| `DurabilitySteps.DeleteTableKeeps` | _BreakPoint/Pods/leveldb-library/db/db_impl.cc:244-251 | Deleting a table that is neither live nor pending loses no file anyone needs. |
| `DurabilitySteps.CrashKeeps` | _BreakPoint/Pods/leveldb-library/db/db_impl.cc:274-363 | A crash at any point leaves tables and logs that hold exactly a prefix of the groups. |
| `CrashRecovery.LoadKeeps` | _BreakPoint/Pods/leveldb-library/db/db_impl.cc:365-490 | Replayed groups cut into level-0 tables at any points, oldest first, give a tree in order with every group in it. |
| `CrashRecovery.RecoveryIsExact` | _BreakPoint/Pods/leveldb-library/db/db_impl.cc:274-363 | In every run: from a crash at any step, through any interrupted recoveries, reopening gives the state after a prefix of the logged groups with all older logs and all synced groups, and a last sequence at least every recovered one. |
| `CrashRecovery.RecoveredReads` | _BreakPoint/Pods/leveldb-library/db/db_impl.cc:274-363 | In every boundary-closed run, any read after such a recovery says exactly that prefix. |
| `CrashRecovery.ReadsSurvive` | _BreakPoint/Pods/leveldb-library/db/db_impl.cc:1109-1154 | In every open state of every boundary-closed run with any number of crashes, reads return what the surviving applied groups say. |
| `CrashRecovery.CollectionIsSafe` | _BreakPoint/Pods/leveldb-library/db/db_impl.cc:218-272 | In every open state of every run, all tables of live versions, of the manifest and of running compaction inputs, all pending outputs, and all logs still needed are on disk. |
| `CrashRecovery.RecoverFindsEveryFile` | _BreakPoint/Pods/leveldb-library/db/db_impl.cc:330-340 | In every run, recovery never finds a table missing, and neither new tables nor the new manifest overwrite one in use. |
| `Reopening.ReopenIsPossible` | _BreakPoint/Pods/leveldb-library/db/db_impl.cc:274-363 | In every run, a database that is down can be opened, whatever crashes and interrupted recoveries have left. |
| `GarbageCollection.DeleteObsoleteFiles` | _BreakPoint/Pods/leveldb-library/db/db_impl.cc:218-272 | One sweep over the names in the directory deletes, by legal steps, exactly the logs below the log number, the tables neither live nor pending and the manifests older than the current one; nothing after an error. |
| `GarbageCollection.CollectionIsExact` | _BreakPoint/Pods/leveldb-library/db/db_impl.cc:218-272 | After a sweep in any reachable state the directory holds exactly what is needed: the live and pending tables, the logs from the log number on, and the manifest in use. |
| `SurvivingWrites.GroupsChange` | _BreakPoint/Pods/leveldb-library/db/db_impl.cc:274-363 | Logging adds a group, a crash leaves a prefix with all older logs and all synced groups, and no other step changes the history. |
| `SurvivingWrites.SyncedSurvives` | _BreakPoint/Pods/leveldb-library/db/db_impl.cc:1223-1231 | All groups logged before a sync are in every later state, through any number of crashes and recoveries. |
| `SurvivingWrites.ReadsAreLastWrites` | _BreakPoint/Pods/leveldb-library/db/db_impl.cc:1109-1154 | In every open state of every boundary-closed run, with any crashes before it, a read at the latest sequence returns the last write among the groups that survived and are applied. |
| `ManifestReplay.ReplayIsLive` | _BreakPoint/Pods/leveldb-library/db/version_set.cc:947-1006 | One builder over all edits ends with the very list of files the chain of live versions had, if no edit re-adds a number the level held. |
| `ManifestReplay.OneMoreEditIff` | _BreakPoint/Pods/leveldb-library/db/version_set.cc:665-708 | Without the proviso: as long as the two agree, one more edit keeps them in agreement if and only if each number it adds is new to the builder, or the builder gets the same single file by adding it; a condition on the builder before the edit. |
| `ManifestReplay.LiveIsListed` | _BreakPoint/Pods/leveldb-library/db/version_set.cc:711-772 | A level made by edits that never re-add is in order and holds every number once. |
| `ManifestReplay.SaveTwice` | _BreakPoint/Pods/leveldb-library/db/version_set.cc:665-772 | Saving twice is saving once, file by file. |
| `ManifestReplay.ReaddedComesTwice` | _BreakPoint/Pods/leveldb-library/db/version_set.cc:665-708 | Without the proviso it fails: a number deleted and added again as another file comes back twice. |
| `Journals.StepKeepsJournal` | _BreakPoint/Pods/leveldb-library/db/version_set.cc:820-880 | Every step of the tree machine, whatever inputs were picked, appends an edit whose numbers no level it adds to ever held: new files have fresh numbers and moves only go down. |
| `Journals.RunJournal` | _BreakPoint/Pods/leveldb-library/db/version_set.cc:820-880 | So in every run, on every level, a snapshot and the edits since never re-add a number, and the chain of live versions is what the run went through. |
| `Journals.ReplayIsCurrent` | _BreakPoint/Pods/leveldb-library/db/version_set.cc:947-1006 | One builder over the snapshot and all multi-level edits gives, on every level, the files of the current version, for every run. |
| `ManifestRecords.Builder.InsertInto` | _BreakPoint/Pods/leveldb-library/db/version_set.cc:604-635 | Adding a file keeps the set in order by smallest key, then number; a file equal in both is not added again. |
| `ManifestRecords.Builder.Apply` | _BreakPoint/Pods/leveldb-library/db/version_set.cc:665-708 | Deletions first, then additions, which take their number out of the deleted ones; other levels stay. |
| `ManifestRecords.Builder.SaveTo` | _BreakPoint/Pods/leveldb-library/db/version_set.cc:711-772 | Every level is the merge of base and added files without the deleted numbers. |
| `ManifestRecords.Recover` | _BreakPoint/Pods/leveldb-library/db/version_set.cc:905-1006 | Records decoded and applied one after the other; stops at the first bad record, and fails without log number, next file number or last sequence. |
| `ManifestRecords.RecoversIff` | _BreakPoint/Pods/leveldb-library/db/version_set.cc:945-998 | Recovery succeeds if and only if every record can be read and some records set the log number, the next file number and the last sequence; the last to set each decides. |
| `ManifestRecovery.InsertEachAgrees` | _BreakPoint/Pods/leveldb-library/db/version_set.cc:604-635 | The added set over metadata with byte keys is the metadata of the added set over files. |
| `ManifestRecovery.SavedAgrees` | _BreakPoint/Pods/leveldb-library/db/version_set.cc:711-772 | What the builder over bytes saves is the metadata of what the builder over files saves. |
| `ManifestRecovery.EncodedReads` | _BreakPoint/Pods/leveldb-library/db/version_set.cc:951-963 | A record that encodes an edit is read back as that edit, if its comparator is the own one or absent. |
| `ManifestRecovery.JournalRecovers` | _BreakPoint/Pods/leveldb-library/db/version_set.cc:905-1006 | The records of a journal that never re-adds a number recover the metadata of the version it arrived at, and the counters of the last edits that set them. |
| `ManifestRecovery.ManifestIsCurrent` | _BreakPoint/Pods/leveldb-library/db/version_set.cc:820-1006 | For every run of the tree machine: the encoded snapshot of any state, followed by the encoded edits since, decodes and replays to exactly the current version, on every level. |
| `ManifestMachine.StepKeepsOk` | _BreakPoint/Pods/leveldb-library/db/version_set.cc:820-903 | Every step of the durable machine over bytes (append, install, failure, crash, new manifest with its snapshot) keeps the records in step with what they mean. |
| `ManifestMachine.LoadApplies` | _BreakPoint/Pods/leveldb-library/db/db_impl.cc:365-490 | The one edit that recovery logs for all its new tables makes of the recovered version what adding them one by one does. |
| `ManifestMachine.VersionFromMeta` | _BreakPoint/Pods/leveldb-library/db/version_set.cc:665-772 | Metadata and the tables on disk determine the version. |
| `ManifestMachine.RunRefines` | _BreakPoint/Pods/leveldb-library/db/version_set.cc:820-1006 | Every run over bytes is a run of the machine whose manifest is what it means, so recovery and collection are proved of it. |
| `ManifestMachine.ReplayIsExact` | _BreakPoint/Pods/leveldb-library/db/version_set.cc:905-1006 | In every run, whenever the database is down, decoding and replaying the bytes of the manifest gives exactly the files and counters of the last record that reached the disk. |
| `ManifestMachine.ManifestIsAhead` | _BreakPoint/Pods/leveldb-library/db/version_set.cc:1102-1130 | While it is open, the synced records, from the snapshot on, replay to the current version. |
| `ManifestMachine.RecoveryFromBytes` | _BreakPoint/Pods/leveldb-library/db/db_impl.cc:274-363 | In every run over bytes, a crash, any interrupted recoveries and an open give back a prefix of the logged groups, and no file needed is missing. |
| `LogReplay.RecoverLogFile` | _BreakPoint/Pods/leveldb-library/db/db_impl.cc:365-487 | On a log of batches cut at any byte, with paranoid checks or without, replay succeeds and fills tables with exactly the groups whose records are complete: in order, none in part, a table written exactly when the memtable is full or the log ends; the highest sequence number is theirs.  On any bytes the tables hold what records with matching checksums hold, and with paranoid checks a success means that nothing was passed over. |
| `WriteAheadLogs.WriteCutReplay` | _BreakPoint/Pods/leveldb-library/db/db_impl.cc:365-487 | Write groups, cut the file at any byte, replay: a prefix of the groups, all of them if nothing was cut. |
| `WriteAheadLogs.CutKeepsSynced` | _BreakPoint/Pods/leveldb-library/db/db_impl.cc:1223-1232 | A cut behind the bytes of the synced groups keeps at least those groups. |
| `WriteAheadLogs.EveryPrefixIsACut` | _BreakPoint/Pods/leveldb-library/db/db_impl.cc:1223-1232 | Any number of groups is what some cut leaves, so the crashes of the state machine are the cuts of the file. |
| `WriteAheadLogs.RecoverLogs` | _BreakPoint/Pods/leveldb-library/db/db_impl.cc:343-360 | Several logs in numeric order, the newest cut at any byte: every group of the older ones comes back, of the newest those whose records are complete, as one list of tables. |
| `WriteAheadLogs.ReplayQueue` | _BreakPoint/Pods/leveldb-library/db/db_impl.cc:1194-1265 | In every interleaving of writers, and wherever the log is cut, replay inserts a prefix of what was queued, each operation at its sequence number. |
| `ReplayedTables.TableIsPart` | _BreakPoint/Pods/leveldb-library/db/db_impl.cc:390-430 | A table written out during replay holds exactly the entries of the groups between its two cuts. |
| `ReplayedTables.ReplayFits` | _BreakPoint/Pods/leveldb-library/db/db_impl.cc:390-430 | What replaying bytes writes out is what the durable state machine lets a reopened database load. |
| `ReplayedReads.NumberedReads` | _BreakPoint/Pods/leveldb-library/db/write_batch.cc:112-134 | Operations inserted under consecutive numbers read as the last operation on each key: the value of a put, nothing after a deletion. |
| `ReplayedReads.ReadersSeeFinished` | _BreakPoint/Pods/leveldb-library/db/db_impl.cc:1213-1245 | In every interleaving, a reader at the last sequence sees the last operation of the finished writers on each key, whatever the group under way has put into the memtable. |
| `ReplayedReads.ReadAfterCut` | _BreakPoint/Pods/leveldb-library/db/db_impl.cc:365-487 | Write groups, lose the end of the file at any byte, replay: a reader at the highest number seen reads, over all tables together, the last operation on each key among the groups that came back; and that number is the one of the last operation. |
| `ReplayedReads.ReadAfterRecovery` | _BreakPoint/Pods/leveldb-library/db/db_impl.cc:343-360 | The same for several logs of which the newest may be cut. |
| `ReplayedReads.ReadAfterQueue` | _BreakPoint/Pods/leveldb-library/db/db_impl.cc:1194-1265 | The same for the log of any interleaving of writers: what is read is a prefix of what was queued. |
| `VersionEdits.EncodeTo` | _BreakPoint/Pods/leveldb-library/db/version_edit.cc:41-86 | Writes the items of the edit in order. |
| `VersionEdits.DecodeFrom` | _BreakPoint/Pods/leveldb-library/db/version_edit.cc:109-210 | Reads items until the input ends; leftover or malformed input is corruption. |
| `VersionEdits.ItemBack` | _BreakPoint/Pods/leveldb-library/db/version_edit.cc:125-200 | Each item decodes to itself, whatever follows it. |
| `VersionEdits.EditRoundTrip` | _BreakPoint/Pods/leveldb-library/db/version_edit.cc:41-210 | Decoding an encoded edit gives it back. |
| `CutFormats.CutEdit` | _BreakPoint/Pods/leveldb-library/db/version_edit.cc:109-210 | An edit cut short is accepted only if the cut lies between two items, and then it is the edit of the items before. |
| `CutFormats.UnknownItemIsRefused` | _BreakPoint/Pods/leveldb-library/db/version_edit.cc:195-200 | An item with a tag the code does not know makes the whole edit corrupt. |
| `GroupCommit.BuildBatchGroup` | _BreakPoint/Pods/leveldb-library/db/db_impl.cc:1269-1314 | The group is a prefix of the queue in which nobody wants a sync unless the leader does, as long as syncs, null batches and the size limit allow, and its batch is the concatenation of the members in order. |
| `GroupCommit.LogIsTheQueue` | _BreakPoint/Pods/leveldb-library/db/db_impl.cc:1194-1265 | In every interleaving, the log decodes to the batches of the queue in order, each once, with contiguous sequence numbers. |
| `GroupCommit.NoPartOfAGroup` | _BreakPoint/Pods/leveldb-library/db/db_impl.cc:1213-1245 | A reader at the last sequence sees all of every finished group and nothing of the one under way. |
| `GroupCommit.ReturnedIsDone` | _BreakPoint/Pods/leveldb-library/db/db_impl.cc:1248-1265 | A writer that returned has all its operations logged and inserted, below the last sequence, at its place in the order. |
| `GroupCommit.SyncIsHonoured` | _BreakPoint/Pods/leveldb-library/db/db_impl.cc:1289-1293 | A writer that asked for a sync was served by a leader that did too. |
| `GroupCommit.ServedInOrder` | _BreakPoint/Pods/leveldb-library/db/db_impl.cc:1194-1265 | In every interleaving, the finished writers and the queue are those who asked, in the order in which they asked. |
| `GroupCommit.AllAreServed` | _BreakPoint/Pods/leveldb-library/db/db_impl.cc:1194-1265 | From every reachable state, all who wait can be served in order if nobody else joins: no writer is stuck. |
| `WriteBatches.Iterate` | _BreakPoint/Pods/leveldb-library/db/write_batch.cc:42-80 | The operations handed out before the first corruption, and success only at the end with the right count. |
| `WriteBatches.BatchRoundTrip` | _BreakPoint/Pods/leveldb-library/db/write_batch.cc:42-80 | A batch decodes to its operations, in order, and its sequence number. |
| `CutFormats.CutBatchIsRefused` | _BreakPoint/Pods/leveldb-library/db/write_batch.cc:42-80 | A batch cut short anywhere is never accepted, and hands out only a prefix of its operations. |
| `CutFormats.WrongBatchIsRefused` | _BreakPoint/Pods/leveldb-library/db/write_batch.cc:42-80 | A batch with another count than its own, or with something of an unknown kind behind its operations, is refused after all of them. |
| `WriteBatches.WriteBatch.Put` | _BreakPoint/Pods/leveldb-library/db/write_batch.cc:98-103 | Adds one put and leaves the rest. |
| `WriteBatches.WriteBatch.Delete` | _BreakPoint/Pods/leveldb-library/db/write_batch.cc:105-109 | Adds one deletion and leaves the rest. |
| `WriteBatches.WriteBatch.Append` | _BreakPoint/Pods/leveldb-library/db/write_batch.cc:141-145 | Adds all operations of the other batch. |
| `WriteBatches.WriteBatch.SetSequence` | _BreakPoint/Pods/leveldb-library/db/write_batch.cc:94-96 | Changes the sequence number and nothing else. |
| `SkipListNodes.PointAhead` | _BreakPoint/Pods/leveldb-library/db/skiplist.h:366-368 | Setting the new node's own link changes nothing a reader can see. |
| `SkipListNodes.Publish` | _BreakPoint/Pods/leveldb-library/db/skiplist.h:366-369 | Setting the predecessor's link inserts the node on one level at its sorted place and nowhere else. |
| `SkipLists.SkipList.FindGreaterOrEqual` | _BreakPoint/Pods/leveldb-library/db/skiplist.h:262-281 | The first node at or after the key, and the last node before it on every level. |
| `SkipLists.SkipList.FindLessThan` | _BreakPoint/Pods/leveldb-library/db/skiplist.h:285-302 | The last node before the key, or the head. |
| `SkipLists.SkipList.FindLast` | _BreakPoint/Pods/leveldb-library/db/skiplist.h:305-322 | The last node, or the head. |
| `SkipLists.SkipList.Insert` | _BreakPoint/Pods/leveldb-library/db/skiplist.h:337-370 | Whatever its height, the new entry is inserted at its sorted place and the others stay. |
| `SkipLists.SkipList.Contains` | _BreakPoint/Pods/leveldb-library/db/skiplist.h:373-380 | True exactly for keys in the list. |
| `SkipListReaders.LevelsAreSublists` | _BreakPoint/Pods/leveldb-library/db/skiplist.h:337-370 | At every intermediate step every level is sorted and a sublist of the level below. |
| `SkipListReaders.ReadKeeps` | _BreakPoint/Pods/leveldb-library/db/skiplist.h:262-281 | One load of a link, at any time, keeps a search before its target on its level. |
| `SkipListReaders.ReadsAreSafe` | _BreakPoint/Pods/leveldb-library/db/skiplist.h:262-281 | A search interleaved with insertions, from any height, returns a node at or after its key, with no key that was present at its start in between. |
| `MemTables.Add` | _BreakPoint/Pods/leveldb-library/db/memtable.cc:82-106 | Adds the entry and keeps the others. |
| `MemTables.Get` | _BreakPoint/Pods/leveldb-library/db/memtable.cc:108-143 | Finds the newest entry of the user key at or below the snapshot, or says there is none. |
| `MemTables.DbGet` | _BreakPoint/Pods/leveldb-library/db/db_impl.cc:1109-1154 | On any reachable state, memtable, immutable memtable and tables together return the newest write at or below the snapshot. |
| `Cursors.SeekIsUnique` | _BreakPoint/Pods/leveldb-library/include/leveldb/iterator.h:43-46 | There is one position a seek may land on. |
| `DbIterators.MapIsVisible` | _BreakPoint/Pods/leveldb-library/db/db_iter.cc:30-40 | The map of an iterator holds exactly the visible values, one for each user key. |
| `DbIterators.MapIsSorted` | _BreakPoint/Pods/leveldb-library/db/db_iter.cc:30-40 | Its keys strictly increase. |
| `DbIterators.DbIter.FindNextUserEntry` | _BreakPoint/Pods/leveldb-library/db/db_iter.cc:173-203 | Skips to the next entry that shows, passing none that does, and terminates. |
| `DbIterators.DbIter.FindPrevUserEntry` | _BreakPoint/Pods/leveldb-library/db/db_iter.cc:232-272 | Backs up to the previous entry that shows, passing none that does, and terminates. |
| `DbIterators.DbIter.Seek` | _BreakPoint/Pods/leveldb-library/db/db_iter.cc:274-286 | Lands on the first visible key at or after the target. |
| `DbIterators.DbIter.SeekToFirst` | _BreakPoint/Pods/leveldb-library/db/db_iter.cc:288-297 | Lands on the first visible key. |
| `DbIterators.DbIter.SeekToLast` | _BreakPoint/Pods/leveldb-library/db/db_iter.cc:299-304 | Lands on the last visible key. |
| `DbIterators.DbIter.Next` | _BreakPoint/Pods/leveldb-library/db/db_iter.cc:146-171 | Moves to the next visible key, also after going backward. |
| `DbIterators.DbIter.Prev` | _BreakPoint/Pods/leveldb-library/db/db_iter.cc:205-230 | Moves to the previous visible key, also after going forward. |
| `DbIterators.Drive` | _BreakPoint/Pods/leveldb-library/db/db_iter.cc:146-304 | Any sequence of calls, on an iterator over any merging iterator, sees the same keys and values as the simple cursor over the visible map. |
| `DbIterators.WalkShows` | _BreakPoint/Pods/leveldb-library/db/db_iter.cc:146-304 | What the simple cursor shows, told by keys alone: the least key above the one shown before, the greatest below it, the least at or after a target, the first, the last, or nothing if there is none. |
| `DbScans.SourcesAreLists` | _BreakPoint/Pods/leveldb-library/db/db_impl.cc:1067-1096 | In every state of the invariant, memtable, immutable memtable, level-0 files and concatenated levels are sorted lists without common keys that hold exactly what is stored. |
| `DbScans.LevelIsSorted` | _BreakPoint/Pods/leveldb-library/db/version_set.cc:227-232 | The files of a level, walked one after the other, are sorted as a whole. |
| `DbScans.Scan` | _BreakPoint/Pods/leveldb-library/db/db_impl.cc:1156-1166 | In every state of every boundary-closed run, an iterator over a merging iterator over these sources shows to any sequence of calls what a plain cursor over the visible history shows: each Next the least visible key above the one shown before, each Prev the greatest below, each Seek the least at or after its target. |
| `MergingIterators.UnionExists` | _BreakPoint/Pods/leveldb-library/table/merger.cc:35-41 | Sorted children with distinct keys have one sorted union. |
| `MergingIterators.MergingIterator.FindSmallest` | _BreakPoint/Pods/leveldb-library/table/merger.cc:155-168 | The current child stands on the next entry of the union. |
| `MergingIterators.MergingIterator.FindLargest` | _BreakPoint/Pods/leveldb-library/table/merger.cc:170-183 | The current child stands on the previous entry of the union. |
| `MergingIterators.MergingIterator.SeekToFirst` | _BreakPoint/Pods/leveldb-library/table/merger.cc:35-41 | Lands on the first entry of the union. |
| `MergingIterators.MergingIterator.SeekToLast` | _BreakPoint/Pods/leveldb-library/table/merger.cc:43-49 | Lands on the last entry of the union. |
| `MergingIterators.MergingIterator.Seek` | _BreakPoint/Pods/leveldb-library/table/merger.cc:51-57 | Lands on the first entry of the union at or after the target. |
| `MergingIterators.MergingIterator.Next` | _BreakPoint/Pods/leveldb-library/table/merger.cc:59-83 | One step forward in the union, turning around first if needed. |
| `MergingIterators.MergingIterator.Prev` | _BreakPoint/Pods/leveldb-library/table/merger.cc:85-112 | One step back in the union, turning around first if needed. |
| `TwoLevelIterators.ConcatSorted` | _BreakPoint/Pods/leveldb-library/table/two_level_iterator.cc:91-123 | Blocks separated by their index keys are sorted as a whole. |
| `TwoLevelIterators.TwoLevelIterator.SkipEmptyDataBlocksForward` | _BreakPoint/Pods/leveldb-library/table/two_level_iterator.cc:125-136 | Passes empty blocks without losing the place in the whole, and terminates. |
| `TwoLevelIterators.TwoLevelIterator.SkipEmptyDataBlocksBackward` | _BreakPoint/Pods/leveldb-library/table/two_level_iterator.cc:138-149 | The same backward. |
| `TwoLevelIterators.TwoLevelIterator.Seek` | _BreakPoint/Pods/leveldb-library/table/two_level_iterator.cc:91-96 | Lands on the first entry of all blocks at or after the target. |
| `TwoLevelIterators.TwoLevelIterator.SeekToFirst` | _BreakPoint/Pods/leveldb-library/table/two_level_iterator.cc:98-103 | Lands on the first entry of all blocks. |
| `TwoLevelIterators.TwoLevelIterator.SeekToLast` | _BreakPoint/Pods/leveldb-library/table/two_level_iterator.cc:105-110 | Lands on the last entry of all blocks. |
| `TwoLevelIterators.TwoLevelIterator.Next` | _BreakPoint/Pods/leveldb-library/table/two_level_iterator.cc:112-116 | One step forward in the concatenation. |
| `TwoLevelIterators.TwoLevelIterator.Prev` | _BreakPoint/Pods/leveldb-library/table/two_level_iterator.cc:118-122 | One step back in the concatenation. |
| `Coding.FixedRoundTrip` | _BreakPoint/Pods/leveldb-library/util/coding.cc:9-35 | A fixed-width integer decodes to itself. |
| `Coding.FixedDigit` | _BreakPoint/Pods/leveldb-library/util/coding.cc:9-35 | A fixed-width integer is little-endian. |
| `Coding.VarintDigit` | _BreakPoint/Pods/leveldb-library/util/coding.cc:37-90 | A varint holds seven bits to the byte, lowest first, and all bytes but the last are marked. |
| `Coding.VarintIsShortest` | _BreakPoint/Pods/leveldb-library/util/coding.cc:37-90 | A varint is as short as it can be. |
| `Coding.VarintRoundTrip` | _BreakPoint/Pods/leveldb-library/util/coding.cc:37-96 | A varint decodes to its value, whatever follows it, within the decoder's byte limit. |
| `Coding.EncodeVarint32` | _BreakPoint/Pods/leveldb-library/util/coding.cc:37-66 | The five cases write the base-128 form. |
| `Coding.EncodeVarint64` | _BreakPoint/Pods/leveldb-library/util/coding.cc:74-90 | The loop writes the base-128 form. |
| `Coding.GetVarint` | _BreakPoint/Pods/leveldb-library/util/coding.cc:111-170 | The decoding loop returns the value cut to its word and the bytes taken, or fails after its byte limit. |
| `Coding.GetLengthPrefixed` | _BreakPoint/Pods/leveldb-library/util/coding.cc:182-192 | The string and what follows it, or failure if it does not fit. |
| `Coding.PrefixedRoundTrip` | _BreakPoint/Pods/leveldb-library/util/coding.cc:98-101 | A length-prefixed string decodes to itself. |
| `LogFormat.UnmaskMask` | _BreakPoint/Pods/leveldb-library/util/crc32c.h:31-42 | Unmasking undoes masking. |
| `LogDamage.CrcFieldIff` | _BreakPoint/Pods/leveldb-library/util/crc32c.h:31-42 | Four bytes unmask to a word if and only if they are that word masked and encoded. |
| `LogWriting.Writer.AddRecord` | _BreakPoint/Pods/leveldb-library/db/log_writer.cc:36-82 | The log afterwards is the image of one more record; what was there stays. |
| `LogWriting.Writer.EmitPhysicalRecord` | _BreakPoint/Pods/leveldb-library/db/log_writer.cc:84-109 | Appends one physical record. |
| `LogSplits.RecordIsSplit` | _BreakPoint/Pods/leveldb-library/db/log_writer.cc:44-80 | From any block offset a record is written as one full fragment, or first, middles and last, whose payloads join to the record. |
| `LogReading.Reader.SkipToInitialBlock` | _BreakPoint/Pods/leveldb-library/db/log_reader.cc:36-58 | Reading starts in the block of the initial offset, or the next one from within a trailer. |
| `LogReading.Reader.ReadPhysicalRecord` | _BreakPoint/Pods/leveldb-library/db/log_reader.cc:199-284 | On a cut log the next fragment, or the end, with nothing reported.  On any file: whatever is handed out stands in the file with a matching checksum, everything passed over in silence is blank or empty, and the end comes only when nothing whole is left. |
| `LogReading.Reader.ReadRecord` | _BreakPoint/Pods/leveldb-library/db/log_reader.cc:60-182 | On a cut log the next complete record from the initial offset on, and the end after the last one.  On any file: a record is the join of physical records that stand one after the other with matching checksums; if nothing was reported nothing was left out before it, or before the end. |
| `LogReading.Reader.ParseHeader` | _BreakPoint/Pods/leveldb-library/db/log_reader.cc:225-284 | Hands out a payload only if its masked checksum stands before it and matches.  A complete header with another checksum is a bad record: the buffer is dropped and one report made. |
| `LogDamage.FrontIs` | _BreakPoint/Pods/leveldb-library/db/log_reader.cc:225-266 | What a header says decides whether a good physical record stands at the front of a buffer, and which. |
| `LogIntegrity.DamageIsSeen` | _BreakPoint/Pods/leveldb-library/db/log_reader.cc:253-266 | Where the checksum in a header does not match, no record stands. |
| `LogIntegrity.ReadAnyLog` | _BreakPoint/Pods/leveldb-library/db/log_reader.cc:60-284 | Reading any file, of which nothing is known: records come in order, each joined from physical records in the file with matching checksums; if nothing is reported from offset 0, only an unfinished record at the end is left out. |
| `LogRoundTrip.ReadAll` | _BreakPoint/Pods/leveldb-library/db/log_reader.cc:60-182 | Reading a log cut anywhere from any offset gives exactly the complete records whose first fragment starts at or after it, and reports corruption if and only if a record straddles the offset. |
| `LogRoundTrip.ReportsIff` | _BreakPoint/Pods/leveldb-library/db/log_reader.cc:60-182 | A record straddles the offset if and only if reading starts before the offset and the first fragment at or after it is whole and continues a record. |
| `LogRoundTrip.ReadInsideABlock` | _BreakPoint/Pods/leveldb-library/db/log_reader.cc:112-146 | An undamaged log of one record in two fragments, read from offset 1, reports corruption. |
| `LogRoundTrip.WriteCutRead` | _BreakPoint/Pods/leveldb-library/db/log_reader.cc:60-182 | Write, cut at any byte, read: a prefix of the records, all of them if nothing was cut, and no corruption. |
| `BlockBuilding.BlockBuilder.Add` | _BreakPoint/Pods/leveldb-library/table/block_builder.cc:73-107 | The block holds one more pair at the end. |
| `BlockBuilding.BlockBuilder.Finish` | _BreakPoint/Pods/leveldb-library/table/block_builder.cc:63-71 | The finished bytes are the image of the added pairs. |
| `BlockReading.DecodeEntry` | _BreakPoint/Pods/leveldb-library/table/block.cc:53-74 | The fast path and the varint path decode the same lengths. |
| `BlockReading.HeadDecodes` | _BreakPoint/Pods/leveldb-library/table/block.cc:53-74 | The lengths of an entry decode to what was encoded. |
| `BlockReading.TrailerOfImage` | _BreakPoint/Pods/leveldb-library/table/block.cc:18-38 | The restart array is found where the builder put it. |
| `BlockReading.BlockIter.ParseNextKey` | _BreakPoint/Pods/leveldb-library/table/block.cc:226-253 | From an entry's predecessor, the full key is rebuilt from the shared prefix; the restart index follows.  On any block: the iterator is at what stands there, or at the end, and that is corruption exactly if the data does not end there. |
| `BlockReading.BlockIter.FindRestart` | _BreakPoint/Pods/leveldb-library/table/block.cc:165-193 | Binary search ends at a restart point before the target, or the first; it gives up only if some restart point has no whole key. |
| `BlockReading.BlockIter.Seek` | _BreakPoint/Pods/leveldb-library/table/block.cc:165-203 | Lands on the first key at or after the target.  On any block it never lands before the target. |
| `BlockReading.BlockIter.SeekToFirst` | _BreakPoint/Pods/leveldb-library/table/block.cc:205-208 | Lands on the first pair. |
| `BlockReading.BlockIter.SeekToLast` | _BreakPoint/Pods/leveldb-library/table/block.cc:210-215 | Lands on the last pair.  On any block, where it lands the data ends. |
| `BlockReading.BlockIter.Next` | _BreakPoint/Pods/leveldb-library/table/block.cc:139-142 | Moves to the next pair. |
| `BlockReading.BlockIter.Prev` | _BreakPoint/Pods/leveldb-library/table/block.cc:144-163 | Moves to the previous pair, or past the front.  On any block it never lands at or behind where it was. |
| `BlockRoundTrip.BuildAndScan` | _BreakPoint/Pods/leveldb-library/table/block_builder.cc:63-107 | For any restart interval, iterating the finished block yields exactly the added pairs, with no corruption. |
| `BlockRoundTrip.ScanBlock` | _BreakPoint/Pods/leveldb-library/table/block.cc:205-253 | Whatever a block holds, an iterator shows the pairs that stand in it one after the other, and reports corruption exactly if they break off before its end. |
| `Bytewise.FindShortestSeparator` | _BreakPoint/Pods/leveldb-library/util/comparator.cc:29-51 | The result lies from the start up to before the limit, is no longer than the start, and is shortened exactly when a byte can be bumped. |
| `Bytewise.FindShortSuccessor` | _BreakPoint/Pods/leveldb-library/util/comparator.cc:53-65 | The result is at or after the key, cut after its first byte below 0xff. |
| `Bytewise.RankIsOrder` | _BreakPoint/Pods/leveldb-library/util/comparator.cc:25-27 | Byte strings compare as their ranks among the reals do. |
| `InternalKeyBytes.ParseEncode` | _BreakPoint/Pods/leveldb-library/db/dbformat.h:176-187 | A packed internal key parses to its parts. |
| `InternalKeyBytes.ParsesIff` | _BreakPoint/Pods/leveldb-library/db/dbformat.h:176-187 | Bytes are an internal key exactly if they are long enough and have a known type, and what is parsed encodes to the same bytes. |
| `InternalKeyBytes.KeyLessIsBefore` | _BreakPoint/Pods/leveldb-library/db/dbformat.cc:50-66 | The order of internal key bytes is the order of their parts. |
| `InternalKeyBytes.FindShortestKeySeparator` | _BreakPoint/Pods/leveldb-library/db/dbformat.cc:68-85 | The separator lies from the first key up to before the second, and is a well-formed key. |
| `InternalKeyBytes.FindShortKeySuccessor` | _BreakPoint/Pods/leveldb-library/db/dbformat.cc:87-99 | The successor is at or after the key. |
| `BloomFilters.CreateFilter` | _BreakPoint/Pods/leveldb-library/util/bloom.cc:35-61 | Every probe bit of every key is set. |
| `BloomFilters.KeyMayMatch` | _BreakPoint/Pods/leveldb-library/util/bloom.cc:63-87 | Probes all bits of the key; reserved or short filters match or fail as documented. |
| `BloomFilters.CreatedMatchesIff` | _BreakPoint/Pods/leveldb-library/util/bloom.cc:35-87 | A created filter denies a key exactly if one of its probes is a bit that no key of the filter hits. |
| `BloomFilters.DoubleHashing` | _BreakPoint/Pods/leveldb-library/util/bloom.cc:50-59 | The probes step through the hash values at equal distances, although the code only adds and wraps. |
| `FilterBlocks.FilterBlockBuilder.StartBlock` | _BreakPoint/Pods/leveldb-library/table/filter_block.cc:22-28 | Filters are generated up to the 2 KB slot of the block. |
| `FilterBlocks.FilterBlockBuilder.GenerateFilter` | _BreakPoint/Pods/leveldb-library/table/filter_block.cc:52-76 | One more filter, covering exactly the pending keys. |
| `FilterBlocks.FilterBlockBuilder.Finish` | _BreakPoint/Pods/leveldb-library/table/filter_block.cc:36-50 | The contents end in the offset table that locates every filter. |
| `FilterBlocks.FilterMayMatch` | _BreakPoint/Pods/leveldb-library/table/filter_block.cc:95-109 | Looks up the filter of the block offset; errors count as possible matches, empty filters match nothing. |
| `FilterBlocks.NoFalseNegatives` | _BreakPoint/Pods/leveldb-library/table/filter_block.cc:22-109 | A key added for a block offset may match there, once the block is written and opened again. |
| `FilterBlocks.OnlyFiltersDeny` | _BreakPoint/Pods/leveldb-library/table/filter_block.cc:95-109 | A lookup is denied only by an empty filter, or by a filter in the block that denies the key. |
| `TableFormat.HandleRoundTrip` | _BreakPoint/Pods/leveldb-library/table/format.cc:15-30 | A block handle decodes to itself. |
| `TableFormat.ReadsRaw` | _BreakPoint/Pods/leveldb-library/table/format.cc:65-144 | A written block reads back. |
| `TableFormat.ReadsExactly` | _BreakPoint/Pods/leveldb-library/table/format.cc:65-144 | With checksums verified, a block is read if and only if the bytes at its handle are the contents with their own trailer. |
| `TableBuilding.TableBuilder.Add` | _BreakPoint/Pods/leveldb-library/table/table_builder.cc:92-121 | One more entry; the index entry of the block before gets a separator between the blocks. |
| `TableBuilding.TableBuilder.Flush` | _BreakPoint/Pods/leveldb-library/table/table_builder.cc:123-137 | The open block is written; the entries of the table stay the same. |
| `TableBuilding.TableBuilder.WriteRawBlock` | _BreakPoint/Pods/leveldb-library/table/table_builder.cc:175-193 | Contents and trailer are appended, and the handle names their place. |
| `TableBuilding.TableBuilder.Finish` | _BreakPoint/Pods/leveldb-library/table/table_builder.cc:199-254 | All blocks stored where the index says, index keys separating them, and the filter written. |
| `TableBuilding.BuiltTableIsFinished` | _BreakPoint/Pods/leveldb-library/table/table_builder.cc:199-254 | A built table meets all that lookups need, for exactly the entries added. |
| `TableLookup.FilteredOut` | _BreakPoint/Pods/leveldb-library/table/table.cc:230-241 | When the filter stops a lookup, no entry of the table has the user key where the lookup would find it. |
| `TableLookup.BlockDecides` | _BreakPoint/Pods/leveldb-library/table/table.cc:242-251 | The block behind the index seek decides the lookup for the whole table. |
| `TableLookup.InternalGet` | _BreakPoint/Pods/leveldb-library/table/table.cc:226-255 | Reading one block, stopped by the filter or not, finds the first entry at or after the key whenever that entry has its user key. |
| `HandleTables.HandleTable.Lookup` | _BreakPoint/Pods/leveldb-library/util/cache.cc:76-78 | Finds the handle with the key and hash, if there is one. |
| `HandleTables.HandleTable.Insert` | _BreakPoint/Pods/leveldb-library/util/cache.cc:80-94 | The table holds the handle in place of the one with the same key, also across growth. |
| `HandleTables.HandleTable.Remove` | _BreakPoint/Pods/leveldb-library/util/cache.cc:96-104 | Takes out the handle with the key and leaves the others. |
| `HandleTables.HandleTable.Resize` | _BreakPoint/Pods/leveldb-library/util/cache.cc:125-149 | Every handle moves to its new chain; none is lost or doubled. |
| `LruCaches.LruCache.Lookup` | _BreakPoint/Pods/leveldb-library/util/cache.cc:255-262 | A hit takes a reference and leaves the LRU list; a miss changes nothing; the state becomes what the plain cache says. |
| `LruCaches.LruCache.Release` | _BreakPoint/Pods/leveldb-library/util/cache.cc:264-267 | The last reference runs the deleter if the handle is out of the cache, and makes it the newest idle one if not. |
| `LruCaches.LruCache.Insert` | _BreakPoint/Pods/leveldb-library/util/cache.cc:269-303 | A handle is cached afterwards if and only if it was, or is the new one in a cache with room for any, and was neither displaced nor evicted; evictions are the oldest idle handles, no more than needed; client counts of all others stay; each deleter that runs is named. |
| `LruCaches.LruCache.Publish` | _BreakPoint/Pods/leveldb-library/util/cache.cc:289-294 | The new handle takes the place of the one with its key in the map; nothing else leaves the cache, and only a displaced handle that nobody holds is deleted. |
| `LruCaches.LruCache.Shrink` | _BreakPoint/Pods/leveldb-library/util/cache.cc:296-302 | Evicts oldest first until usage fits or nothing is idle, never more. |
| `LruCaches.Drive` | _BreakPoint/Pods/leveldb-library/util/cache.cc:192-339 | Any sequence of calls gives the answers, and leaves the map, clients, LRU order, deletions and usage, of a plain cache on values; every deleter runs at most once, and exactly once for handles without references. |
| `LruCaches.LruCache.Erase` | _BreakPoint/Pods/leveldb-library/util/cache.cc:318-321 | The handle leaves the cache; its deleter runs at once only if nobody holds it. |
| `LruCaches.LruCache.Prune` | _BreakPoint/Pods/leveldb-library/util/cache.cc:323-333 | All idle handles are deleted, in order; those in use stay. |
| `LruCaches.LruCache.Unref` | _BreakPoint/Pods/leveldb-library/util/cache.cc:229-240 | The deleter runs exactly when the last reference goes. |
| `LruCaches.LruCache.FinishErase` | _BreakPoint/Pods/leveldb-library/util/cache.cc:307-316 | Usage drops by the charge and the handle leaves both lists. |
| `LruCaches.UnrefLists` | _BreakPoint/Pods/leveldb-library/util/cache.cc:229-240 | The two lists partition the cached handles by reference count, and usage is the sum of charges, after every unreference. |
| `CacheLaws.CountsAreOwed` | _BreakPoint/Pods/leveldb-library/util/cache.cc:229-267 | After any legal calls, the client references of a handle are those it was given out minus those returned. |
| `CacheLaws.DeletedWhenReturned` | _BreakPoint/Pods/leveldb-library/util/cache.cc:229-240 | A deleter has run, once, if and only if its handle has left the cache and every reference was returned. |
| `CacheLaws.LookupsFindLatest` | _BreakPoint/Pods/leveldb-library/util/cache.cc:255-262 | A lookup finds the latest insertion under its key or nothing, and never misses one that a client still holds. |
| `CacheLaws.IdleInOrder` | _BreakPoint/Pods/leveldb-library/util/cache.cc:229-240 | The idle handles are in the order in which they were last released. |
| `CacheLaws.EvictsLongestIdle` | _BreakPoint/Pods/leveldb-library/util/cache.cc:296-302 | An insertion evicts only idle handles, each released before all that stay, and no more than the capacity asks for. |
| `PbEncoder.OutputStream.WriteVarint` | _BreakPoint/Pods/nanopb/pb_encode.c:494-514 | Writes the base-128 form if there is room. |
| `PbEncoder.OutputStream.WriteZigZag` | _BreakPoint/Pods/nanopb/pb_encode.c:516-525 | Shifting and inverting give the zigzag code. |
| `PbEncoder.OutputStream.EncodeArray` | _BreakPoint/Pods/nanopb/pb_encode.c:116-201 | Arrays are packed where the type allows, with the exact length in front; overflow is an error. |
| `PbEncoder.OutputStream.PackedSize` | _BreakPoint/Pods/nanopb/pb_encode.c:138-162 | The product or the counting pass gives the exact length of the packed items. |
| `PbEncoder.OutputStream.EncodeField` | _BreakPoint/Pods/nanopb/pb_encode.c:271-349 | Writes the field as its rule says: required, optional, implicit, repeated or union member. |
| `PbEncoder.OutputStream.EncodeFields` | _BreakPoint/Pods/nanopb/pb_encode.c:451-473 | Succeeds exactly when the message encodes and fits, and then writes, or counts, exactly its encoding. |
| `PbEncoder.OutputStream.EncodeSubmessage` | _BreakPoint/Pods/nanopb/pb_encode.c:600-648 | The writing pass writes exactly what the sizing pass counted: the size never changes in between. |
| `PbEncoder.SmallIsAddressable` | _BreakPoint/Pods/nanopb/pb_encode.c:600-648 | Sizes computed on the way fit whenever the whole encoding does. |
| `PbRoundTrip.NumberBack` | _BreakPoint/Pods/nanopb/pb_decode.c:1165-1260 | Every numeric kind decodes to the value encoded, whatever follows. |
| `PbRoundTrip.ShortNegativeBack` | _BreakPoint/Pods/nanopb/pb_decode.c:1172-1192 | Negative numbers of at most 32 bits are read back also from encoders that do not extend their sign to 64 bits. |
| `PbRoundTrip.BlobBack` | _BreakPoint/Pods/nanopb/pb_decode.c:1262-1379 | Bytes, strings and fixed-length bytes decode to what was encoded. |
| `PbRoundTrip.TextBackIff` | _BreakPoint/Pods/nanopb/pb_decode.c:1299-1332 | A string comes back if and only if it leaves room for its terminator. |
| `PbRoundTrip.PackedBack` | _BreakPoint/Pods/nanopb/pb_decode.c:369-400 | A packed array decodes to its items, added to those there already; if they do not all fit, it is refused. |
| `PbRoundTrip.PackedListBack` | _BreakPoint/Pods/nanopb/pb_decode.c:368-400 | Within a message, a packed list adds to what its field holds, or is refused if that is too many. |
| `PbArrays.ChunksBack` | _BreakPoint/Pods/nanopb/pb_decode.c:368-414 | An array sent in any mixture of packed lists and single items decodes to all of them in order, and is refused if they are too many. |
| `PbArrays.FormsAgree` | _BreakPoint/Pods/nanopb/pb_decode.c:368-414 | So packed and unpacked forms of the same items decode alike. |
| `PbRoundTrip.MemberBack` | _BreakPoint/Pods/nanopb/pb_decode.c:416-427 | Decoding a union member chooses it, resets a submessage first, and leaves no other member chosen. |
| `PbRoundTrip.MessageRoundTrip` | _BreakPoint/Pods/nanopb/pb_decode.c:852-967 | Every well-formed message of any nesting decodes from its encoding to itself, absent fields at their defaults. |
| `PbMerging.MergesInto` | _BreakPoint/Pods/nanopb/pb_decode.c:852-953 | Decoding into a message that is there already merges what is received into it, at any nesting: numbers and strings are replaced, arrays appended to, submessages merged in turn, and a received union member replaces the chosen one.  It is refused exactly if some array has no room. |
| `PbMerging.TwoMessagesMerge` | _BreakPoint/Pods/nanopb/pb_decode.h:70-80 | Two encoded messages, one after the other, decode to the second merged into the first. |
| `PbMerging.ZeroEndsMessage` | _BreakPoint/Pods/nanopb/pb_decode.c:251-275 | A zero byte after an encoded message ends it, whatever follows. |
| `PbCuts.CutValue` | _BreakPoint/Pods/nanopb/pb_decode.c:1165-1379 | A value of any kind that was cut short is refused. |
| `PbCuts.CutKey` | _BreakPoint/Pods/nanopb/pb_decode.c:251-275 | A message cut right before or inside a key ends there. |
| `PbCuts.CutMessage` | _BreakPoint/Pods/nanopb/pb_decode.c:852-953 | A message cut anywhere is refused, or gives nothing that was not sent: every field as it was or at its default, every array its first items. |
| `PbMerging.WireTypeIsIgnored` | _BreakPoint/Pods/nanopb/pb_decode.c:356-366 | Of a field with one value, the wire type in its key makes no difference. |
| `PbEvolution.ValueSkipped` | _BreakPoint/Pods/nanopb/pb_decode.c:231-287 | The encoding of a value of any kind is skipped by its wire type alone: all of its bytes and no more. |
| `PbEvolution.FieldSkipped` | _BreakPoint/Pods/nanopb/pb_decode.c:860-895 | A field that the receiver does not have leaves its message as it is, whatever the field holds. |
| `PbEvolution.OtherSchemaReads` | _BreakPoint/Pods/nanopb/pb_decode.c:852-953 | Sender and receiver may have different schemas that agree on the tags they share.  The message is refused exactly if a required field of the receiver is not one of the sender; else every shared field arrives and the others are at their defaults. |
| `PbEvolution.OlderSchemaReads` | _BreakPoint/Pods/nanopb/pb_decode.c:852-953 | A receiver with some of the fields of the sender reads the message restricted to these. |
| `PbSafety.DecodedFits` | _BreakPoint/Pods/nanopb/pb_decode.c:852-953 | Whatever the input, what is stored fits: numbers in range, strings with room for their terminator, arrays within capacity, one member of a union. |
| `PbRoundTrip.ImplicitBackIff` | _BreakPoint/Pods/nanopb/pb_encode.c:205-267 | A submessage without a has_ flag comes back if and only if it does not look like a default or is one. |
| `PbRoundTrip.ArrayIsLost` | _BreakPoint/Pods/nanopb/pb_encode.c:205-267 | The check looks only at the first item: a submessage holding [0, 5] writes nothing and comes back empty. |
| `PbRequired.RequiredCheckIff` | _BreakPoint/Pods/nanopb/pb_decode.c:921-951 | The presence check is right on every platform if and only if there are fewer than 64 required fields and their number is not 32. |
| `PbRequired.GoodCountChecks` | _BreakPoint/Pods/nanopb/pb_decode.c:921-951 | For such numbers it accepts exactly when all required fields were seen. |
| `PbRequired.BadCountRefuses` | _BreakPoint/Pods/nanopb/pb_decode.c:937-949 | For any other number some platform refuses a complete message. |
| `PbStreams.InputStream.DecodeVarint` | _BreakPoint/Pods/nanopb/pb_decode.c:173-229 | Reads a varint of limited length, losing bits past its word; on failure all it may take is taken. |
| `PbStreams.InputStream.SkipField` | _BreakPoint/Pods/nanopb/pb_decode.c:277-287 | Skips exactly the bytes of an unknown field. |
| `PbStreams.InputStream.MakeSubstream` | _BreakPoint/Pods/nanopb/pb_decode.c:322-335 | The substream is exactly the length-delimited part. |
| `PbStreams.InputStream.CloseSubstream` | _BreakPoint/Pods/nanopb/pb_decode.c:337-350 | Unread bytes are skipped and the parent continues after them. |
| `PbStreams.FieldIter.Next` | _BreakPoint/Pods/nanopb/pb_common.c:20-76 | Steps or wraps around, counting required fields. |
| `PbStreams.FieldIter.Find` | _BreakPoint/Pods/nanopb/pb_common.c:78-95 | Once around from anywhere finds the field with the tag, or knows there is none. |
| `PbDecoder.CheckAllSeen` | _BreakPoint/Pods/nanopb/pb_decode.c:921-951 | The walk to the end counts the required fields, and the check accepts exactly if all were seen. |
| `PbDecoder.DecodeTag` | _BreakPoint/Pods/nanopb/pb_decode.c:251-275 | Tells the end of the message, a bad key, and a key apart, including zero-terminated and cut messages. |
| `PbDecoder.DecodeField` | _BreakPoint/Pods/nanopb/pb_decode.c:356-429 | Stores the value as the rule of its field says. |
| `PbDecoder.DecodeArray` | _BreakPoint/Pods/nanopb/pb_decode.c:368-414 | Packed and unpacked items extend the array up to its capacity; more is an error. |
| `PbDecoder.DecodeSubmessage` | _BreakPoint/Pods/nanopb/pb_decode.c:1334-1356 | A submessage adds to the one that is there, and ends where its length says. |
| `PbDecoder.DecodeFields` | _BreakPoint/Pods/nanopb/pb_decode.c:852-953 | Accepts exactly the inputs the decoding function accepts, with the same message. |
| `PbDecoder.Decode` | _BreakPoint/Pods/nanopb/pb_decode.c:955-967 | The same, starting from defaults. |
| `PbDecoder.EncodeThenDecode` | _BreakPoint/Pods/nanopb/pb_decode.c:955-967 | Encoding into a buffer succeeds exactly if there is room, and decoding it then gives the message back. |

## Left out

- DestroyDB, repair.cc, table_cache.cc, builder.cc, c.cc, the env and port files: wrappers, operating system calls, or (repair) code that gives up the recency order on purpose.
- CRC32C, hash mixing and Snappy: a checksum and a hash are arbitrary functions, blocks are stored uncompressed, and no claim is made that a checksum finds every corruption.
- How many seeks a file may cost, where outputs are cut, random heights and the sampling period of reads: arbitrary choices, on which nothing proved depends.  The size limits by which inputs are chosen are modelled.
- I/O errors: only a failed LogAndApply is modelled.  After it no further edit is appended; a compaction already under way, which the code would still install, is not part of the model.
- reuse_logs: recovery always writes new tables, a new log and a new manifest, as with the option off.
- PrevLogNumber: always zero, as in databases of this version.
- MakeRoomForWrite: how long a writer waits or is delayed; that it switches logs only without an immutable memtable is the guard of a step.
- GarbageCollection.DeleteObsoleteFiles: temporary files, which no step of the model leaves, and the eviction from the table cache.
- Manual compactions inside the state machine: only connected inputs are started (see Hypotheses).
- MergingIterators: children with equal keys, which internal keys of one database never have.
- MergingIterators.MergingIterator: NewMergingIterator hands back an only child as it is; here it is wrapped like any other number of children.
- The memory model: acquire loads and release stores are atomic steps; mutexes and condition variables are guards of steps.
- Log framing of the manifest: a manifest is the list of its records here; LogRoundTrip proves the framing.  Compaction pointers in edits are arbitrary.
- LogReplay.RecoverLogFile: when a memtable is full is an arbitrary function of what it holds, and errors of writing a table are not modelled.
- DbScans.Scan: the sources are those of the state in which the iterator is made.  What is written to the memtable later lies above its snapshot; the version it walks is pinned.
- Table footer, metaindex block and block cache: a reader is handed the index block and filter that Finish wrote.
- BlockReading.DecodeEntry: the sum of two lengths in the bounds check is unbounded here and wraps in the code, which blocks below 4 GB never notice.
- DbIterators.DbIter.Seek: entries whose internal keys do not parse, which the code skips, do not occur in the model.
- MemTables.Add: the length-prefixed arena encoding of an entry; Coding proves the encoding itself.
- SkipLists.SkipList: the arena is a sequence of nodes named by index, so memory reuse is not modelled.  Its Iterator class is the same searches under other names.
- LruCaches.LruCache: circular lists are sequences and hash chains are sequences of handle numbers; handle numbers are never reused, unlike addresses.  The sixteen shards are independent copies.
- GroupCommit.BuildBatchGroup: a writer with a null batch inside a group is told it is done without a memtable switch, as in the code.
- PbDecoder.DecodeFields: the message is a value that is returned, not a struct updated in place; on failure the partly filled struct is not described.
- PbRoundTrip.ImplicitBackIff: memory behind the count of an array, and the bytes a union's other members would see, are not part of a message here.
- nanopb callbacks, extensions, pointer fields with malloc, custom streams, and delimited messages at top level.
- The Swift application and the Objective-C headers: user interface and declarations.
