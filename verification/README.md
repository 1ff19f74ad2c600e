# A verified model of the vendored LevelDB store and of nanopb

The application embeds two C/C++ libraries: LevelDB, an ordered key-value store built as a
log-structured merge tree, and nanopb, a Protocol Buffers codec for static message structs.  This
project models both and proves what they are for.

**The store.**  One specification stands behind everything: a store is a multi-version map in which each
write leaves an entry (user key, sequence number, value or deletion), and a read of a key at a snapshot is
decided by the newest entry of the key that the snapshot sees (`Keys.Read`).

- `Keys`, `Versions`: entries, internal keys, files, levels and the invariants of a version.
- `Lookup`: point reads through memtables, level 0 and the deeper levels.
- `Pick`, `Select`: where a flush goes and which files a compaction takes.
- `Compact`: the drop loop.  `Install`, `Preserve`, `Flush`: what installing its outputs, and a flush that
  lands while it runs, do to the version and to reads.
- `Lsm`: the store as a state machine, with its runs.  `Db`: `DBImpl` and `VersionSet` as classes whose
  methods are steps of that machine.  `Builder`: version edits, one at a time and folded.
- `Straddle`, `StraddleRun`: the property that the code does not have (see Findings).
- `Recovery`, `Durable`, `Manifest`: the disk, crashes between any two steps, reopening, deletion of obsolete
  files, and the manifest as a sequence of edits.  `DiskBytes`, `DiskImage`: the manifest and the logs as bytes that
  are cut off anywhere, and opening the store from them.
- `GroupCommit`: the writer queue.  `WritePath`: the queue, the store and its disk as one machine.
- `Cursor`, `Merger`, `TwoLevel`, `DbIter`: the iterators, each a cursor over one sorted sequence.  `StoreIterator`:
  the iterator of the whole store.
- `SkipList`, `SkipListReaders`: the memtable's list, alone and with readers that take no lock.
- `HandleTable`, `LruCache`: one shard of the cache.
- `Bytes`, `Coding`, `LogFormat`, `LogReader`, `EditCoding`, `WriteBatch`: byte formats of the log, of version
  edits and of batches.
- `Block`, `BlockIter`, `Comparators`, `Bloom`, `FilterBlock`, `TableIndex`, `TableFormat`, `Table`,
  `TableBuilder`, `TableReader`, `TableRoundTrip`: table files, from the bytes of a block to a point read.

**nanopb.**  `PbMessage` is the data model (descriptors, slots, what may be written), `PbWire` the wire
primitives, `PbEncode` the two-pass encoder on streams, `PbDecode` what decoding means, `PbDecoder` the
decoder on streams, `PbRoundTrip` the laws that connect them, and `PbEvolution` the ways in which a sender's
descriptor may have grown beyond the receiver's.

Objects whose methods update fields are classes here, loops are loops, and each such method is proved against
a function of its inputs or of the old state.  Protocols that several threads or a crash can interrupt are
state machines, and their theorems are about every state of every run.

## Findings

- **A compaction can bring a deleted key back.**  `SetupOtherInputs` closes the lower inputs under boundary
  files and not the upper ones (`version_set.cc:1407-1411`).  A user key may straddle two adjacent files of the
  output level; if only the first is an input, a dropped deletion uncovers the older value in the second.
  `Straddle.DeletedKeyComesBack` is such a compaction, `StraddleRun.IsolationCanFail` a run that starts from an
  empty store and gets there, and `Preserve.CompactionPreservesReadsIff` says exactly which compactions are
  affected.  `Lsm.RunReadsIff`, `Lsm.SnapshotIsolationIff` and `Durable.RunSoundIff` carry the condition to
  whole runs, crashes included.  `Preserve.ClosedPreservesReads` shows that closing the upper inputs too would
  be enough.
- **The encoder writes strings that the decoder refuses.**  `pb_enc_string` accepts a string that fills its
  buffer without a terminator (`pb_encode.c:875-899`); `pb_dec_string` wants room for one
  (`pb_decode.c:1481-1517`).  `PbRoundTrip.UnterminatedFails` is the family of such messages,
  `PbRoundTrip.RoundTripIff` the exact condition for a message to come back.
- **A block entry can end outside its block and still be accepted.**  `DecodeEntry` adds the two lengths as 32-bit
  numbers before it compares them with what is left (`block.cc:70`), so a sum of 4 GB or more wraps.
  `BlockIters.WrappedIsAccepted` is such an entry and `BlockIters.OverrunBlock` a block of fifteen bytes whose
  iterator reads outside.  `BlockIters.InsideIffNoWrap` says exactly when an accepted entry lies inside, and the
  iterator is proved to stay inside on every block without an entry that wraps, whatever else its bytes are.
- **A version edit that is decoded into twice keeps old compaction pointers**, because `Clear` does not reset
  them (`version_edit.cc:26-39`).  `EditCoding.EditRoundTrip` states what comes back, and that it is the edit if and
  only if there were none; `EditCoding.LeftoverPointer` is an edit that is not empty after decoding an empty one.
- **Collecting garbage between a flush and its installation would delete the new table**, since the table has
  left the pending outputs by then (`Durable.CollectingTooEarly`).  The single background thread rules it out.

## Model

| member | source | states |
|---|---|---|
| Preserve.CompactionPreservesReadsIff | tribalWorldWideProof/Pods/leveldb-library/db/db_impl.cc:878-1036 | A compaction that fits the version preserves every read at or above a bound if and only if no deletion it dropped exposes an older value at the head of an output-level file left behind |
| Preserve.ReadChangesIff | tribalWorldWideProof/Pods/leveldb-library/db/db_impl.cc:924-962 | The same key by key: the read of a key at a bound changes if and only if a dropped deletion of that key is exposed |
| Preserve.ClosedPreservesReads | tribalWorldWideProof/Pods/leveldb-library/db/version_set.cc:1378-1411 | If the upper inputs are closed under boundary files as the lower ones are, every read at or above the snapshot bound is preserved |
| Straddle.DeletedKeyComesBack | tribalWorldWideProof/Pods/leveldb-library/db/version_set.cc:1407-1411 | A well-formed compaction after which a key that read as deleted at the snapshot bound reads as an old value |
| StraddleRun.IsolationCanFail | tribalWorldWideProof/Pods/leveldb-library/db/version_set.cc:1403-1462 | A run from the empty store ends with such a compaction, so neither reads nor snapshots hold in every run |
| Lsm.RunInv | tribalWorldWideProof/Pods/leveldb-library/db/db_impl.cc:491-876 | In every state of every run of writes, switches, flushes, compactions with flushes landing inside them, trivial moves and snapshots: levels above 0 are sorted and disjoint, shallower data is newer, file numbers are unique, and a running compaction still fits the version |
| Lsm.StepInv | tribalWorldWideProof/Pods/leveldb-library/db/db_impl.cc:688-767 | Each step keeps that invariant |
| Lsm.RunReadsIff | tribalWorldWideProof/Pods/leveldb-library/db/db_impl.cc:1100-1145 | In every run, all states answer every permitted read as the full write history does if and only if no installation of the run exposes anything |
| Lsm.MaintenanceReadIff | tribalWorldWideProof/Pods/leveldb-library/db/db_impl.cc:535-876 | A step other than a write leaves the read of a key as it is, at every sequence number a reader may still ask for, if and only if it does not expose that key, which only an installation can |
| Lsm.SnapshotIsolationIff | tribalWorldWideProof/Pods/leveldb-library/db/db_impl.cc:1100-1174 | In every run, a snapshot reads until its release what had been written when it was taken, if and only if no installation exposes anything |
| Lsm.ClosedIsUnexposed | tribalWorldWideProof/Pods/leveldb-library/db/version_set.cc:1378-1411 | In a state of the machine, an installation whose upper inputs are closed under boundary files exposes nothing to any reader |
| Install.SelectionFits | tribalWorldWideProof/Pods/leveldb-library/db/version_set.cc:1403-1462 | A fresh selection of inputs fits the version it was made from |
| Install.InstallKeepsOk | tribalWorldWideProof/Pods/leveldb-library/db/db_impl.cc:860-876 | Replacing the inputs of a fitting compaction by its outputs keeps the structure of the version |
| Flush.FlushKeepsOk | tribalWorldWideProof/Pods/leveldb-library/db/db_impl.cc:491-533 | A flush to the chosen level keeps the structure and adds exactly its entries |
| Flush.FlushKeepsFits | tribalWorldWideProof/Pods/leveldb-library/db/db_impl.cc:905-918 | A flush that lands while a compaction runs leaves the compaction fitting |
| Lookup.Get | tribalWorldWideProof/Pods/leveldb-library/db/db_impl.cc:1100-1145 | A point read through memtable, immutable memtable and version returns the newest entry the snapshot sees in their union |
| Lookup.VersionGet | tribalWorldWideProof/Pods/leveldb-library/db/version_set.cc:326-421 | Level by level search, newest file first on level 0, one file above it, answers from all entries of the version |
| Lookup.FindFile | tribalWorldWideProof/Pods/leveldb-library/db/version_set.cc:88-106 | Binary search finds the first file whose largest key is at or after the target |
| Lookup.ProbeDecides | tribalWorldWideProof/Pods/leveldb-library/db/memtable.cc:100-134 | One seek into a sorted run finds the newest visible entry of the user key or shows that there is none |
| Pick.SomeFileOverlapsRange | tribalWorldWideProof/Pods/leveldb-library/db/version_set.cc:122-157 | True if and only if some file meets the range, by scan on level 0 and by binary search elsewhere |
| Pick.PickLevelForMemTableOutput | tribalWorldWideProof/Pods/leveldb-library/db/version_set.cc:491-516 | Level 0 if the range meets it; otherwise pushed down, at most to level 2, exactly while the next level is clear of the range and the level after it overlaps few enough bytes |
| Pick.GetOverlappingInputs | tribalWorldWideProof/Pods/leveldb-library/db/version_set.cc:519-559 | The inputs are the files meeting the range; on level 0 the range is the least one closed under overlap |
| Select.AddBoundaryInputs | tribalWorldWideProof/Pods/leveldb-library/db/version_set.cc:1378-1401 | The inputs grow by a chain of boundary files with increasing largest keys, until no boundary file is left; no file is added twice |
| Select.FindSmallestBoundaryFile | tribalWorldWideProof/Pods/leveldb-library/db/version_set.cc:1344-1362 | The boundary file with the smallest start, or none exists |
| Select.SetupOtherInputs | tribalWorldWideProof/Pods/leveldb-library/db/version_set.cc:1403-1462 | Boundary-closed lower inputs, exactly the upper files meeting them, and a key range covered by the inputs; the expansion leaves the upper inputs as they were |
| Db.VersionSet.PickCompaction | tribalWorldWideProof/Pods/leveldb-library/db/version_set.cc:1270-1322 | Nothing without a trigger; otherwise a selection around the file after the compaction pointer or the file that was seeked too often, and the pointer moves to the end of the lower inputs |
| Db.VersionSet.LogAndApply | tribalWorldWideProof/Pods/leveldb-library/db/version_set.cc:801-884 | The current version becomes the old one with the edit applied |
| Compact.Compaction.IsBaseLevelForKey | tribalWorldWideProof/Pods/leveldb-library/db/version_set.cc:1533-1552 | Asked for non-decreasing keys, the cursors never miss a file: true if and only if no deeper file covers the key |
| Compact.Compaction.ShouldStopBefore | tribalWorldWideProof/Pods/leveldb-library/db/version_set.cc:1554-1576 | Stops exactly when the grandparent bytes passed since the last output exceed the limit, and then starts counting anew |
| Compact.JudgeEntry | tribalWorldWideProof/Pods/leveldb-library/db/db_impl.cc:924-973 | Before an entry is written: the grandparent rule may end the current output, and the entry is dropped exactly when a drop rule applies to it |
| Compact.KeptIff | tribalWorldWideProof/Pods/leveldb-library/db/db_impl.cc:924-962 | An input entry is kept if and only if no drop rule applies to it |
| Compact.OutputsDisjoint | tribalWorldWideProof/Pods/leveldb-library/db/db_impl.cc:917-925 | Outputs cut anywhere are files with disjoint ranges that together hold the entries |
| Db.Store.Get | tribalWorldWideProof/Pods/leveldb-library/db/db_impl.cc:1100-1145 | The value last written to the key as of the snapshot, in every sound state of the object |
| Db.Store.Write | tribalWorldWideProof/Pods/leveldb-library/db/db_impl.cc:1185-1256 | Is the write step of the state machine: the batch gets the next sequence numbers |
| Db.Store.SwitchMemTable | tribalWorldWideProof/Pods/leveldb-library/db/db_impl.cc:1345-1366 | Is the step that makes the memtable immutable |
| Db.Store.CompactMemTable | tribalWorldWideProof/Pods/leveldb-library/db/db_impl.cc:535-566 | Is the flush step, to the level that the choice of level allows |
| Db.Store.StartCompaction | tribalWorldWideProof/Pods/leveldb-library/db/db_impl.cc:688-743 | Is a trivial move if and only if there is one lower file, it meets nothing above and few enough bytes of grandparents; otherwise it starts a merge of the picked inputs |
| Db.Store.DoCompactionWork | tribalWorldWideProof/Pods/leveldb-library/db/db_impl.cc:878-1017 | With writes, memtable switches, snapshots and flushes before any entry: the whole is a run of the state machine in which the compaction stays the same, and the outputs hold exactly what the drop rules keep, in order, under reserved numbers of their own |
| Db.Store.InstallCompactionResults | tribalWorldWideProof/Pods/leveldb-library/db/db_impl.cc:860-876 | Is the installation step, after any number of flushes |
| Db.Store.GetSnapshot | tribalWorldWideProof/Pods/leveldb-library/db/snapshot.h:55-71 | A snapshot of the last sequence number joins the list at its newest end |
| Db.Store.NewIterator | tribalWorldWideProof/Pods/leveldb-library/db/db_impl.cc:1147-1157 | The iterator shows exactly the keys whose point read at the snapshot finds a value, with those values, in order |
| Builders.Builder.SaveTo | tribalWorldWideProof/Pods/leveldb-library/db/version_set.cc:695-754 | Each level is sorted and holds exactly the base files and added files that no edit deleted |
| Builders.Replay | tribalWorldWideProof/Pods/leveldb-library/db/version_set.cc:886-1011 | One builder folded over all edits reaches the version that applying them one at a time reaches |
| Builders.ReplayMembers | tribalWorldWideProof/Pods/leveldb-library/db/version_set.cc:650-693 | File by file: membership after the edits one at a time is membership in the folded result |
| Durable.RunKeeps | tribalWorldWideProof/Pods/leveldb-library/db/db_impl.cc:223-566 | In every state of every run with crashes anywhere between logging, committing, switching, writing tables, appending to the manifest, installing, pinning and collecting: the logs back the memory, the disk can be reopened, and every table in use, being built, pinned or recorded is there |
| Durable.RunSoundIff | tribalWorldWideProof/Pods/leveldb-library/db/db_impl.cc:280-489 | All states of a run with crashes are sound if and only if each installation it completed, before a crash or through one, was permitted |
| Durable.CrashLosesNothing | tribalWorldWideProof/Pods/leveldb-library/db/db_impl.cc:371-489 | After a crash every read is answered from all acknowledged writes and the group in flight, if and only if the crash was permitted; the recovered last sequence number is at least every recovered one |
| Durable.CrashContents | tribalWorldWideProof/Pods/leveldb-library/db/db_impl.cc:280-369 | The reopened store holds exactly what the settled store held plus the group in flight |
| Durable.OpeningsLeave | tribalWorldWideProof/Pods/leveldb-library/db/db_impl.cc:280-489 | Openings that are cut short before the manifest is written leave nothing but tables and empty logs under numbers the manifest does not know |
| Durable.InterruptedReopens | tribalWorldWideProof/Pods/leveldb-library/db/db_impl.cc:280-489 | A crash, any number of openings that are cut short, and one that is not make together one crash with its reopening, and the disk could be opened all along |
| Durable.Open | tribalWorldWideProof/Pods/leveldb-library/db/db_impl.cc:1474-1515 | From the disk alone: replays the logs the manifest does not cover in order, puts their entries into level-0 tables, and opens a fresh log above all numbers |
| Durable.CollectKeeps | tribalWorldWideProof/Pods/leveldb-library/db/db_impl.cc:223-278 | Deleting obsolete files keeps the whole invariant: no table of a live version, no output under way and no log backing a memtable goes |
| Durable.CollectingTooEarly | tribalWorldWideProof/Pods/leveldb-library/db/db_impl.cc:511-566 | Collecting while a flushed table awaits its installation would delete that table |
| Recovery.RecoverLogFile | tribalWorldWideProof/Pods/leveldb-library/db/db_impl.cc:371-489 | Replaying one log yields tables with exactly its entries and the largest sequence number seen |
| Recovery.LogsToReplay | tribalWorldWideProof/Pods/leveldb-library/db/db_impl.cc:311-348 | Exactly the logs numbered at or above the manifest's log number, in increasing order |
| Manifest.RunReplays | tribalWorldWideProof/Pods/leveldb-library/db/version_set.cc:801-884 | In every run, crashes and manifest snapshots included, the manifest's edits lead one by one from the empty version to the version on disk, and no file number returns to a level |
| Manifest.OpenFromEdits | tribalWorldWideProof/Pods/leveldb-library/db/version_set.cc:886-1011 | Opening from the edits, the logs and the counters alone reaches the same result as opening from the version |
| DiskBytes.RecordRoundTrip | tribalWorldWideProof/Pods/leveldb-library/db/write_batch.cc:42-131 | A group of writes, logged as the contents of its batch, is read back with its sequence number |
| DiskBytes.LogGroup | tribalWorldWideProof/Pods/leveldb-library/db/db_impl.cc:1208-1222 | The group becomes a batch whose contents are the next record of the log |
| DiskBytes.CutAnywhere | tribalWorldWideProof/Pods/leveldb-library/db/log_writer.cc:34-80 | A file whose last record was being written holds the records before it, and that one only if its last byte is there |
| DiskBytes.LogBack | tribalWorldWideProof/Pods/leveldb-library/db/db_impl.cc:409-446 | A log that is cut off anywhere gives the groups that are there in full |
| DiskBytes.LogEdit | tribalWorldWideProof/Pods/leveldb-library/db/version_set.cc:844-853 | An installation's edit is encoded and becomes the next record of the manifest |
| DiskBytes.RecoverManifest | tribalWorldWideProof/Pods/leveldb-library/db/version_set.cc:918-991 | On any bytes: an error if a corruption is reported, a record cannot be decoded, names another comparator, or a counter is missing; otherwise the edits and the last counters |
| DiskBytes.ManifestFileBack | tribalWorldWideProof/Pods/leveldb-library/db/version_set.cc:918-991 | A manifest that is cut off anywhere gives the edits that are there in full and the last counters recorded |
| DiskImages.RunMarks | tribalWorldWideProof/Pods/leveldb-library/db/version_set.cc:801-884 | In every run, crashes included, the last counters in the manifest are those of the disk |
| DiskImages.ReadDisk | tribalWorldWideProof/Pods/leveldb-library/db/version_set.cc:886-1011 | In every state of every run, reading the manifest's and the logs' bytes, each cut off anywhere behind its last whole record, gives back the disk: version, counters and logs |
| DiskImages.OpenFromBytes | tribalWorldWideProof/Pods/leveldb-library/db/db_impl.cc:280-489 | Opening the store from those bytes has the result that opening it from the disk has |
| DiskImages.GroupCut | tribalWorldWideProof/Pods/leveldb-library/db/db_impl.cc:1208-1222 | Whichever byte of a group was the last to be written, the bytes on disk are those of the state before the group, or of the state after it if all are there |
| DiskImages.RecordCut | tribalWorldWideProof/Pods/leveldb-library/db/version_set.cc:844-853 | The same for a manifest record |
| GroupCommit.RunKeeps | tribalWorldWideProof/Pods/leveldb-library/db/db_impl.cc:1185-1256 | In every interleaving each queued batch is logged and inserted once, in queue order, under consecutive sequence numbers; writers get their group's status, and a successful synchronous write is on disk |
| GroupCommit.NoPartialBatch | tribalWorldWideProof/Pods/leveldb-library/db/db_impl.cc:1208-1240 | At every moment the last sequence number lies outside every batch, so a snapshot sees all of a batch or nothing |
| GroupCommit.BuildBatchGroup | tribalWorldWideProof/Pods/leveldb-library/db/db_impl.cc:1260-1306 | The longest group the rules allow: no synchronous write behind an asynchronous leader, no batch that makes it too big |
| WritePath.WRunKeeps | tribalWorldWideProof/Pods/leveldb-library/db/db_impl.cc:1185-1256 | In every run of writers, worker, readers and crashes the store has written what it held when the process started and then exactly the batches whose writers were told so, in queue order under consecutive sequence numbers |
| WritePath.ReadsAreAcknowledged | tribalWorldWideProof/Pods/leveldb-library/db/db_impl.cc:1185-1256 | In all states of a run every read is decided by those acknowledged writes, if and only if no installation of the run exposes anything |
| WritePath.SnapshotSeesWhole | tribalWorldWideProof/Pods/leveldb-library/db/db_impl.cc:1208-1240 | A snapshot that a reader holds sees all of a batch or nothing of it |
| WritePath.CrashKeepsAcknowledged | tribalWorldWideProof/Pods/leveldb-library/db/db_impl.cc:1208-1240 | A crash keeps every acknowledged write; the one group it may add was logged and not yet acknowledged |
| WritePath.StoreCanAnswer | tribalWorldWideProof/Pods/leveldb-library/db/db_impl.cc:1185-1256 | Whatever the queue does next, the store can do its part, unless the sequence numbers are used up |
| DbIter.ViewIsRead | tribalWorldWideProof/Pods/leveldb-library/db/db_iter.cc:32-36 | The view an iterator shows holds a pair if and only if a point read at its sequence number returns it |
| DbIter.ViewSorted | tribalWorldWideProof/Pods/leveldb-library/db/db_iter.cc:32-36 | The view has each user key once, in increasing order |
| StoreIterators.AddIterators | tribalWorldWideProof/Pods/leveldb-library/db/version_set.cc:230-246 | Every file of level 0 by itself and every deeper level as a whole: sorted runs without common keys that hold all entries of the version |
| StoreIterators.NewInternalIterator | tribalWorldWideProof/Pods/leveldb-library/db/db_impl.cc:1062-1087 | The merge of the memtables and the version shows all their entries in order |
| StoreIterators.NewIterator | tribalWorldWideProof/Pods/leveldb-library/db/db_impl.cc:1147-1157 | However it is moved, it shows exactly what point reads at its sequence number return |
| DbIter.DBIter.Next | tribalWorldWideProof/Pods/leveldb-library/db/db_iter.cc:141-166 | From either direction: one position on in the view |
| DbIter.DBIter.Prev | tribalWorldWideProof/Pods/leveldb-library/db/db_iter.cc:200-225 | From either direction: one position back in the view, or off its front |
| DbIter.DBIter.Seek | tribalWorldWideProof/Pods/leveldb-library/db/db_iter.cc:269-281 | The first pair of the view at or after the target |
| DbIter.DBIter.FindNextUserEntry | tribalWorldWideProof/Pods/leveldb-library/db/db_iter.cc:168-198 | Skips hidden and deleted entries and nothing else |
| DbIter.DBIter.FindPrevUserEntry | tribalWorldWideProof/Pods/leveldb-library/db/db_iter.cc:227-267 | Stops at the newest visible entry of the previous live key |
| Merger.MergingIterator.Seek | tribalWorldWideProof/Pods/leveldb-library/table/merger.cc:47-53 | The first entry at or after the target in the sorted merge of all children |
| Merger.MergingIterator.Next | tribalWorldWideProof/Pods/leveldb-library/table/merger.cc:55-79 | One position on in the merge, from either direction |
| Merger.MergingIterator.Prev | tribalWorldWideProof/Pods/leveldb-library/table/merger.cc:81-108 | One position back in the merge, from either direction |
| Merger.MergingIterator.FindSmallest | tribalWorldWideProof/Pods/leveldb-library/table/merger.cc:148-161 | With the children cut at a position of the merge, the child that holds that entry |
| TwoLevel.TwoLevelIterator.Seek | tribalWorldWideProof/Pods/leveldb-library/table/two_level_iterator.cc:81-87 | The first entry at or after the target in the concatenation of the blocks, empty blocks skipped |
| TwoLevel.TwoLevelIterator.Next | tribalWorldWideProof/Pods/leveldb-library/table/two_level_iterator.cc:103-126 | One position on in the concatenation |
| TwoLevel.TwoLevelIterator.Prev | tribalWorldWideProof/Pods/leveldb-library/table/two_level_iterator.cc:109-139 | One position back in the concatenation |
| TwoLevel.LevelIndex | tribalWorldWideProof/Pods/leveldb-library/db/version_set.cc:160-228 | A disjoint level with its largest keys is a proper index, so the iterator over a level is one over all its entries |
| SkipLists.SkipList.Insert | tribalWorldWideProof/Pods/leveldb-library/db/skiplist.h:337-368 | The key enters every level below its height and no other level changes |
| SkipLists.SkipList.FindGreaterOrEqual | tribalWorldWideProof/Pods/leveldb-library/db/skiplist.h:261-281 | The exact successor of the target, and its predecessor on every level |
| SkipLists.SkipList.FindLessThan | tribalWorldWideProof/Pods/leveldb-library/db/skiplist.h:284-302 | The exact predecessor of the target |
| SkipLists.PublishKeeps | tribalWorldWideProof/Pods/leveldb-library/db/skiplist.h:360-367 | Linking a prepared node on one level keeps every level sorted and a sublist of the level below |
| SkipListReaders.SearchIsExact | tribalWorldWideProof/Pods/leveldb-library/db/skiplist.h:262-281 | In every interleaving of an inserter's stores with a reader's loads, a search returns the exact neighbours of its target at the moment of its last load |
| SkipListReaders.NeverMissed | tribalWorldWideProof/Pods/leveldb-library/db/skiplist.h:337-368 | A key present when the search began is found, whatever is inserted meanwhile |
| HandleTables.HandleTable.Insert | tribalWorldWideProof/Pods/leveldb-library/util/cache.cc:78-92 | The table is a finite map: the name now maps to the handle, and the one it replaced is returned, resize included |
| HandleTables.HandleTable.Remove | tribalWorldWideProof/Pods/leveldb-library/util/cache.cc:94-103 | The name leaves the map and its handle is returned |
| HandleTables.HandleTable.FindPointer | tribalWorldWideProof/Pods/leveldb-library/util/cache.cc:114-120 | The position of the name in its chain if and only if the map has it |
| LruCaches.LRUCache.Insert | tribalWorldWideProof/Pods/leveldb-library/util/cache.cc:266-303 | Replaces the entry of that name, then evicts the shortest prefix of the unused list, oldest first, after which the usage fits or nothing unused is left; all other entries stay |
| LruCaches.LRUCache.Lookup | tribalWorldWideProof/Pods/leveldb-library/util/cache.cc:252-259 | Returns the entry of the name with one more reference |
| LruCaches.LRUCache.Release | tribalWorldWideProof/Pods/leveldb-library/util/cache.cc:261-264 | Drops one reference; the last one frees the entry, once |
| LruCaches.LRUCache.Erase | tribalWorldWideProof/Pods/leveldb-library/util/cache.cc:318-321 | The name leaves the table; the entry is freed if and only if no client holds it, and everything else stays |
| LruCaches.LRUCache.Prune | tribalWorldWideProof/Pods/leveldb-library/util/cache.cc:323-333 | Frees exactly the entries no client holds |
| LruCaches.UnrefKeeps | tribalWorldWideProof/Pods/leveldb-library/util/cache.cc:225-237 | Losing a reference keeps each entry on the one list its references call for, the usage the sum of charges, and each freed entry freed once |
| LogReader.ReadAll | tribalWorldWideProof/Pods/leveldb-library/db/log_reader.cc:56-271 | Reads any file to its end, with the records and the number of reports that the format defines |
| LogReader.LogReadsBack | tribalWorldWideProof/Pods/leveldb-library/db/log_reader.cc:56-271 | A log cut after any number of bytes reads back as exactly the records wholly in it, in order, and nothing is reported as corrupt |
| LogReader.WholeOfAll | tribalWorldWideProof/Pods/leveldb-library/db/log_reader.cc:56-174 | With nothing cut off these are all the records |
| LogReader.WriteAll | tribalWorldWideProof/Pods/leveldb-library/db/log_writer.cc:23-80 | Writing in several sessions, each reopening at the end of the file, makes the log of all records |
| LogFormat.Writer.AddRecord | tribalWorldWideProof/Pods/leveldb-library/db/log_writer.cc:34-80 | Terminates, an empty first fragment included, and appends the record's fragments |
| LogReader.Reader.ReadRecord | tribalWorldWideProof/Pods/leveldb-library/db/log_reader.cc:56-174 | On any bytes whatever: the record, the position and the reports that the format defines |
| Bytes.UnmaskMask | tribalWorldWideProof/Pods/leveldb-library/util/crc32c.h:29-38 | Unmasking undoes masking for every checksum |
| Coding.VarintRoundTrip | tribalWorldWideProof/Pods/leveldb-library/util/coding.cc:81-157 | Decoding a varint gives the number and its length back, whatever follows |
| Coding.Varint64Size | tribalWorldWideProof/Pods/leveldb-library/util/coding.cc:81-110 | A 64-bit varint takes at most ten bytes |
| Coding.GetVarint | tribalWorldWideProof/Pods/leveldb-library/util/coding.cc:112-157 | The shifting loop reads what the format defines, truncated to the word |
| Coding.PrefixedRoundTrip | tribalWorldWideProof/Pods/leveldb-library/util/coding.cc:98-190 | A length-prefixed slice reads back, whatever follows |
| EditCoding.EditRoundTrip | tribalWorldWideProof/Pods/leveldb-library/db/version_edit.cc:26-205 | Decoding an encoded edit into a used one gives it with the old compaction pointers in front, and so gives it back if and only if there were none |
| EditCoding.LeftoverPointer | tribalWorldWideProof/Pods/leveldb-library/db/version_edit.cc:26-39 | An empty edit decoded into one with a pointer is not empty |
| EditCoding.EncodeTo | tribalWorldWideProof/Pods/leveldb-library/db/version_edit.cc:41-85 | The bytes are those of the edit's fields in order |
| EditCoding.DecodeFrom | tribalWorldWideProof/Pods/leveldb-library/db/version_edit.cc:107-205 | Decodes any bytes, errors included, as the field grammar says |
| WriteBatches.BatchRoundTrip | tribalWorldWideProof/Pods/leveldb-library/db/write_batch.cc:42-80 | Iterating over a batch yields exactly the operations put into it |
| WriteBatches.WriteBatch.Append | tribalWorldWideProof/Pods/leveldb-library/db/write_batch.cc:144-148 | The operations of the other batch follow, and the counts add up |
| Blocks.BlockBuilder.Add | tribalWorldWideProof/Pods/leveldb-library/table/block_builder.cc:72-106 | The block now lists one more pair, prefix-compressed unless a restart is due |
| Blocks.BlockBuilder.Finish | tribalWorldWideProof/Pods/leveldb-library/table/block_builder.cc:62-70 | The bytes encode the list of pairs added |
| BlockIters.EntryRead | tribalWorldWideProof/Pods/leveldb-library/table/block.cc:54-74 | Each entry of a block decodes to its shared length, tail and value |
| BlockIters.InsideIffNoWrap | tribalWorldWideProof/Pods/leveldb-library/table/block.cc:54-74 | An accepted header promises nothing outside the bytes if and only if its two lengths do not wrap as a 32-bit sum |
| BlockIters.WrappedIsAccepted | tribalWorldWideProof/Pods/leveldb-library/table/block.cc:70 | Seven bytes whose lengths sum to 4 GB are accepted, whatever follows |
| BlockIters.OverrunBlock | tribalWorldWideProof/Pods/leveldb-library/table/block.cc:223-251 | On a block of fifteen bytes the iterator takes an entry that ends outside |
| BlockIters.NewIterator | tribalWorldWideProof/Pods/leveldb-library/table/block.cc:254-264 | On any bytes: an error exactly when the restart array does not fit, an empty iterator exactly when it has no entry; otherwise an iterator, over its list if the bytes are a block |
| BlockIters.Iter.Next | tribalWorldWideProof/Pods/leveldb-library/table/block.cc:137-140 | On a block, one position on in its list; on any bytes it stays inside them unless an entry in them wraps |
| BlockIters.Iter.Prev | tribalWorldWideProof/Pods/leveldb-library/table/block.cc:142-161 | On a block, the exact predecessor or off the front; on any bytes as above |
| BlockIters.Iter.Seek | tribalWorldWideProof/Pods/leveldb-library/table/block.cc:163-201 | On a block in order, the first pair at or after the target; on any bytes as above |
| BlockIters.Iter.SeekToLast | tribalWorldWideProof/Pods/leveldb-library/table/block.cc:208-213 | On a block, the last pair; on any bytes as above |
| Comparators.FindShortestSeparator | tribalWorldWideProof/Pods/leveldb-library/util/comparator.cc:29-50 | Unchanged, or strictly between the two keys, and never longer |
| Comparators.InternalSeparator | tribalWorldWideProof/Pods/leveldb-library/db/dbformat.cc:69-86 | A key at or after the first and before the second, in the order of internal keys |
| Comparators.InternalSuccessor | tribalWorldWideProof/Pods/leveldb-library/db/dbformat.cc:88-101 | A key at or after the given one, with a later user key unless unchanged |
| Comparators.InternalTotal | tribalWorldWideProof/Pods/leveldb-library/db/dbformat.cc:51-67 | Two internal keys are equal or exactly one of them comes first, so distinct keys never tie |
| Blooms.BloomPolicy.CreateFilter | tribalWorldWideProof/Pods/leveldb-library/util/bloom.cc:28-54 | The filter has the bits of its keys and no others, and enough of them |
| Blooms.BloomPolicy.KeyMayMatch | tribalWorldWideProof/Pods/leveldb-library/util/bloom.cc:56-80 | True if and only if all probes of the key hit, or the filter uses a reserved encoding |
| Blooms.NeverRejects | tribalWorldWideProof/Pods/leveldb-library/util/bloom.cc:28-80 | A filter never rejects a key it was made from |
| FilterBlocks.FilterBlockReader.KeyMayMatch | tribalWorldWideProof/Pods/leveldb-library/table/filter_block.cc:90-104 | On a filter block: what the filter of the offset's region says.  On any bytes: a key is refused only by a filter that lies inside the block and does not have its bits, or by an empty one |
| FilterBlocks.FilterBlockBuilder.Finish | tribalWorldWideProof/Pods/leveldb-library/table/filter_block.cc:35-49 | The block holds one filter per region and the offsets that lead to them |
| TableIndexes.PastTheIndex | tribalWorldWideProof/Pods/leveldb-library/table/table.cc:216-244 | Past the last index key there is no entry at or after the probe |
| TableIndexes.InTheBlock | tribalWorldWideProof/Pods/leveldb-library/table/table_builder.cc:94-139 | The first entry at or after the probe in the block the index names is the first one of the table |
| TableIndexes.PastTheBlock | tribalWorldWideProof/Pods/leveldb-library/table/table_builder.cc:94-139 | If that block has none, the next entry belongs to another user key |
| TableFormat.DecodeFooter | tribalWorldWideProof/Pods/leveldb-library/table/format.cc:42-62 | An encoded footer decodes to its two handles |
| TableFormat.ReadBlock | tribalWorldWideProof/Pods/leveldb-library/table/format.cc:64-139 | The contents at a handle come back if they are there with their checksum |
| TableBuilders.TableBuilder.Add | tribalWorldWideProof/Pods/leveldb-library/table/table_builder.cc:94-123 | The table lists one more pair |
| TableBuilders.TableBuilder.Flush | tribalWorldWideProof/Pods/leveldb-library/table/table_builder.cc:125-139 | Writing out the data block changes no pair |
| TableBuilders.TableBuilder.Finish | tribalWorldWideProof/Pods/leveldb-library/table/table_builder.cc:198-253 | The file is a table of exactly the pairs added |
| TableReaders.Table.Open | tribalWorldWideProof/Pods/leveldb-library/table/table.cc:38-134 | A table opens from its bytes, with its filter if a policy is set |
| TableReaders.Table.InternalGet | tribalWorldWideProof/Pods/leveldb-library/table/table.cc:216-244 | The first entry at or after the key is found whenever it has the key's user key, and nothing else is ever found |
| TableRoundTrip.BuildThenGet | tribalWorldWideProof/Pods/leveldb-library/table/table_builder.cc:94-253 | Building a table from any increasing pairs and looking any key up in its bytes: the same, about the pairs themselves |
| PbWire.Varint32RoundTrip | tribalWorldWideProof/Pods/nanopb/pb_decode.c:187-253 | Every 32-bit number comes back through the decoder's 32-bit path, whatever follows |
| PbWire.SignedRoundTrip | tribalWorldWideProof/Pods/nanopb/pb_decode.c:1339-1374 | A signed number of 1, 2, 4 or 8 bytes comes back through its 64-bit form |
| PbWire.ZigzagRoundTrip | tribalWorldWideProof/Pods/nanopb/pb_encode.c:630-639 | The zigzag form comes back |
| PbWire.ZigzagIsSmall | tribalWorldWideProof/Pods/nanopb/pb_encode.c:630-639 | Small magnitudes of either sign have small zigzag forms |
| PbEncode.EncodeMessage | tribalWorldWideProof/Pods/nanopb/pb_encode.c:528-550 | Succeeds if and only if the contents may be written and fit the stream, and then writes exactly the message's bytes, or counts them when sizing |
| PbEncode.EncodeSubmessage | tribalWorldWideProof/Pods/nanopb/pb_encode.c:717-765 | The second pass writes what the first one counted at every depth: the error "submsg size changed" never occurs |
| PbEncode.EncodeArray | tribalWorldWideProof/Pods/nanopb/pb_encode.c:147-236 | Packed or item by item, with the size computed for the packed form |
| PbEncode.EncodedSize | tribalWorldWideProof/Pods/nanopb/pb_encode.c:567-577 | The size is that of the bytes pb_encode writes |
| PbRoundTrip.MessageRoundTrip | tribalWorldWideProof/Pods/nanopb/pb_decode.c:928-1090 | Decoding the encoding of a storable message gives the message back |
| PbRoundTrip.RoundTripIff | tribalWorldWideProof/Pods/nanopb/pb_encode.c:875-899 | A message comes back if and only if its byte strings and arrays fit and every string leaves room for its terminator |
| PbRoundTrip.UnterminatedFails | tribalWorldWideProof/Pods/nanopb/pb_decode.c:1481-1517 | A string that fills its buffer is written and does not come back |
| PbRoundTrip.MessageReceived | tribalWorldWideProof/Pods/nanopb/pb_decode.c:406-483 | Whatever decoding accepts, from any bytes, fits its struct, terminators included |
| PbRoundTrip.ForeignField | tribalWorldWideProof/Pods/nanopb/pb_decode.c:971-991 | A field of any kind that the receiver does not know is skipped without effect, wherever it stands |
| PbEvolution.AppendedEvolves | tribalWorldWideProof/Pods/nanopb/pb_decode.c:928-1076 | Fields added behind the old ones are one way for a descriptor to grow |
| PbEvolution.ZeroIsKnown | tribalWorldWideProof/Pods/nanopb/pb_encode.c:238-343 | A value that the sender leaves out as zero is zero to the receiver |
| PbRoundTrip.ForwardCompatible | tribalWorldWideProof/Pods/nanopb/pb_decode.c:928-1076 | From a sender whose descriptor has grown anywhere, in submessages too, a receiver gets exactly the fields it knows |
| PbDecoder.FieldIter.Find | tribalWorldWideProof/Pods/nanopb/pb_common.c:78-97 | The wrap-around search finds a field if and only if the descriptor has its tag, and otherwise returns to where it was |
| PbDecoder.DecodeMessage | tribalWorldWideProof/Pods/nanopb/pb_decode.c:928-1076 | On any bytes the decoder on streams does what the decoding function says, required fields included |
| PbDecoder.Decode | tribalWorldWideProof/Pods/nanopb/pb_decode.c:1078-1090 | The same from a message set to its defaults |
| PbDecoder.EncodeThenDecode | tribalWorldWideProof/Pods/nanopb/pb_encode.c:528-550 | Through a buffer of any size: encoding succeeds if and only if the contents may be written and fit, and what is decoded equals the message if and only if it was storable |

## Left out

- Lsm.RunInv: user keys are ranks under the comparator in the modules about levels, so the comparator's own code matters only in the table modules, which are about bytes.
- Durable.Open: records are appended in one step, which DiskImages.GroupCut and DiskImages.RecordCut justify for every cut; writes that reached a file survive the crash of the process, while a power failure may lose unsynchronised ones.
- Db.Store.DoCompactionWork: the merge of the inputs is a parameter, and other threads run only where the mutex is given up between entries; the size at which an output is cut is open, so the result holds for every way to cut, and only the grandparent rule is modelled.
- Db.Store.StartCompaction: which level is due is a parameter, since the scores of Finalize are floating point; seek statistics are a parameter too.
- DiskImages.ReadDisk: tables are found by number with their entries, since TableRoundTrip is about their bytes; what names a user key only has to be different for different keys; CURRENT names the manifest and is replaced in one step.
- DiskBytes.ReadRecord: of a damaged batch the operations before the damage count, as when paranoid checks are off; the sequence counter after one is not modelled.
- Select.SetupOtherInputs: file sizes are arbitrary numbers and not tied to contents.
- Pick.PickLevelForMemTableOutput: the byte limit is a parameter.
- SkipLists.SkipList.Insert: the random height is a parameter.
- SkipListReaders.SearchIsExact: loads and stores are sequentially consistent; the memory orders of the C++ atomics are not modelled.
- TableRoundTrip.BuildThenGet: promises nothing for files of 4 GB and more, whose 32-bit block offsets wrap; TableReaders.Table.InternalGet has the same bound.
- BlockIters.Iter.Seek: promises the position for blocks in order under the comparator; on other bytes only that it stays inside them, and that only if no entry wraps, which is when the source does.
- FilterBlocks.FilterBlockReader.KeyMayMatch: a shift by 64 or more, which a filter block that is not well formed can ask for and C++ leaves undefined, gives region 0 here.
- StoreIterators.NewInternalIterator: a deeper level enters the merge as one cursor over all its entries, which is what TwoLevel.TwoLevelIterator with TwoLevel.LevelIndex is proved to be.
- TableBuilders.TableBuilder.Add: blocks are stored uncompressed, because Snappy is another library.
- TableReaders.Table.Open: reads from a byte sequence; the block cache and the table cache are not on its path.
- Blooms.NeverRejects: the hash is an arbitrary function, as is the checksum in the log and in tables.
- PbRoundTrip.MessageRoundTrip: encodings of 4 GB and more are excluded, since lengths are 32-bit numbers.
- PbRoundTrip.RoundTripIff: the contents of absent optional fields are not represented, and the fields without presence are those whose default is zero.
- PbDecoder.DecodeMessage: pointer fields, callbacks, extensions and struct offsets are not modelled, nor the build option that limits integers to 32 bits; for an array that is always full the code sets its count through a pointer to the data (pb_decode.c:865-872), which can write past an array shorter than the count's type.
- LruCaches.LRUCache.Insert: one shard of the cache; the choice of the shard by hash bits is not modelled.
- HandleTables.HandleTable.Insert: chains are sequences, so a pointer to a pointer becomes a position.
- GroupCommit.RunKeeps: log errors, after which the store refuses all writes; a writer fails only before its group is logged.
- Manual compaction of a key range, whose inputs may leave gaps that a flush can fall into.
- Reusing an old log or manifest when the store is opened.
- I/O errors, paranoid checks, repair, and reading a log from an offset other than its start.
- Approximate sizes, properties, read sampling and other statistics.
