# Storage engine and message codec: a model and its proofs

Two libraries vendored with the application do its hard work, and this project models them and proves what they promise.

**LevelDB's storage engine** keeps every write as an entry with a sequence number, in memtables, a write-ahead log and
levels of sorted tables that background compactions rewrite. The model says once what a read means (`Reads.dfy`: the
newest entry of a key at or below a snapshot, over a flat set of entries) and proves that every structure refines it:

* `Format`, `Bytewise`, `Coding` - internal keys, their order and their bytes.
* `MemTable`, `SkipList`, `SkipListRuns`, `Snapshots`, `Tables` - what entries, keys, snapshots and files are kept in.
  The skip list is also a state machine of single stores and loads, one writer among any number of readers.
* `Lookup`, `DbIter` - point lookup through memtables and levels, and the iterator over the merged entries.
* `Ranges`, `Boundary`, `Picking`, `DropRule`, `Compaction` - how a compaction chooses its inputs, what it drops, and
  the loop that writes its outputs.
* `Store`, `Invariant`, `Runs`, `Exactness`, `Counterexamples` - the store as a state machine in which a flush may be
  installed in the middle of a compaction and a crash may come at any time; what every run keeps; and exactly when it
  does not.
* `Writes`, `Reopening` - what that means for who uses it: the store reads as the map its operations make, and can be
  opened again after any crash.
* `Manifest`, `VersionEdits`, `Log`, `ManifestFile` - versions as edits of versions, their encoding, the framing of the
  log, and recovery of a version from the bytes of a manifest.
* `Database` - the database object on top of all this; each of its operations is a step of the store.
* `GroupCommit` - concurrent writers sharing one log record.
* `Recovery`, `Completion`, `Durability` - files, crashes, recovery and the deletion of files; that what is begun can be
  finished; what survives, and what can be lost.

**nanopb** encodes and decodes Protocol Buffers messages from descriptors, following the "Encoding" guide of Protocol
Buffers (sections "Base 128 Varints", "Signed Integers", "Message Structure" and "Packed Repeated Fields"):

* `NanopbVarint`, `NanopbMessage` - varints, zig-zag, and the wire format as a pair of functions that undo each other.
* `NanopbWire`, `NanopbMerge` - the bytes in numbers; messages read with another descriptor than they were written with,
  and messages read one after the other.
* `NanopbIter`, `NanopbEncode`, `NanopbDecode` - the field iterator, the streams and the loops, proved against them.

Where the code updates things in place the model is a class or a loop proved against a function; protocols between
threads, and between a process and its disk, are state machines whose runs are quantified over.

## What turned out not to hold

* A compaction can undo a deletion. `SetupOtherInputs` closes only the upper level's inputs under boundary files. If a
  file of the next level, not among the inputs, goes on with the last user key of an input, an older value in it can come
  back when the deletion over it is dropped. `Counterexamples.DeletionUndoneRun` is such a run and
  `Exactness.FinishReadsIff` the exact condition. A caller can tell beforehand: if no compaction leaves such a file when
  its inputs are chosen, every state of the run reads the history (`Exactness.WholeRunReadsHistory`). A newer entry in a
  memtable can hide the value, until a crash loses that entry (`Exactness.FinishDurableIff`).
* A synced write does not make the writes before it durable. Switching memtables closes the log without a sync, and a
  later sync is of the new log only. `Durability.SyncSkipsOlderLog` is a run in which a machine crash loses an earlier
  write and keeps a synced later one. `Durability.SyncCoversIff` says exactly when all survives: if and only if no older
  log that is still needed had an unsynced batch. A caller is safe while no immutable memtable is waiting
  (`Durability.NothingWaiting`), and what is in the same log is always safe (`Durability.SyncedSurvive`).
* A manual compaction can break a level. Its inputs may leave gaps in their key range, and a table flushed into a gap
  while it runs is overlapped by its output. `Counterexamples.ManualGapRun` is such a run, `Exactness.GapIff` the exact
  condition. Automatic compactions have no gaps (`Picking.PickCompaction`), so their runs are safe.
* Replaying the manifest differs from applying edits one by one if a file number is used again at a level it was deleted
  from (`Manifest.ReusedNumberRevives`), or if two files with one number and one smallest key are added to a level
  (`Manifest.TieDropped`); exactly when: `Manifest.ReplayIff`. The version set uses every number once
  (`Manifest.DistinctReplays`).
* A string that fills its array, without a terminator, is encoded whole by nanopb and refused by its decoder:
  `NanopbMessage.FullStringRefused`. Every other message within its bounds is read back (`NanopbMessage.MessageRoundTrip`).
* A call that only asks for a new memtable can be told OK without one: a writer ahead of it takes it into its group.
  `GroupCommit.SwitchSureIff` says exactly when that can happen.
* `VersionEdit::Clear` leaves the compaction pointers, so decoding into a used edit appends to them
  (`VersionEdits.EditRoundTrip`), although the edit is meant to be rebuilt.

## Model

| member | source | states |
|---|---|---|
| Format.CompareIsTotalOrder | Grade.IO/Pods/leveldb-library/db/dbformat.cc:51-67 | internal keys are totally ordered: user key up, sequence number and type down; transitive, and only equal keys compare equal |
| Format.LookupKeySkips | Grade.IO/Pods/leveldb-library/db/dbformat.cc:121-137 | a seek to a lookup key passes exactly the smaller user keys and the entries of its own key that are too new to see |
| Bytewise.RankEmbeds | Grade.IO/Pods/leveldb-library/util/comparator.cc:25-27 | the bytewise order of strings is the order of their ranks among the reals, and no two strings share one; so user keys may be reals |
| Bytewise.CompareSlices | Grade.IO/Pods/leveldb-library/util/comparator.cc:25-27 | negative, zero or positive exactly as the first string is less than, equal to or greater than the second |
| Bytewise.FindShortestSeparator | Grade.IO/Pods/leveldb-library/util/comparator.cc:29-50 | unchanged, or no longer than the start, strictly above it and strictly below the limit |
| Bytewise.FindShortSuccessor | Grade.IO/Pods/leveldb-library/util/comparator.cc:52-64 | a greater key no longer than the given one, unless it is all 0xFF bytes, and only then unchanged |
| Bytewise.ParseExactly | Grade.IO/Pods/leveldb-library/db/dbformat.h:165-175 | a byte string parses to a key if and only if it is that key's encoding |
| Bytewise.EncodedInNumbers | Grade.IO/Pods/leveldb-library/db/dbformat.cc:14-23 | behind the user key stand the type byte, 1 for a value and 0 for a deletion, and the sequence number, least significant byte first |
| Bytewise.EncodedOrder | Grade.IO/Pods/leveldb-library/db/dbformat.cc:51-67 | encoded keys compare as the keys they encode |
| Bytewise.CompareInternal | Grade.IO/Pods/leveldb-library/db/dbformat.cc:51-67 | the comparator on encoded keys has the sign of their order |
| Bytewise.FindShortestInternal | Grade.IO/Pods/leveldb-library/db/dbformat.cc:69-86 | at or after the start, before the limit, never longer, and still parseable: the two assertions in the code hold |
| Bytewise.FindShortSuccessorInternal | Grade.IO/Pods/leveldb-library/db/dbformat.cc:88-101 | at or after the key, never longer, and still parseable |
| Reads.NewestExists | Grade.IO/Pods/leveldb-library/db/memtable.cc:111-131 | either nothing is visible for a key at a snapshot, or there is a newest visible entry |
| Reads.ReadNewest | Grade.IO/Pods/leveldb-library/db/memtable.cc:117-131 | the newest visible entry decides the read; a deletion marker reads as absent |
| DropRule.KeptIsSurvivors | Grade.IO/Pods/leveldb-library/db/db_impl.cc:930-996 | what the loop writes out is, in order, exactly the inputs that are neither hidden at the smallest snapshot nor droppable deletions |
| DropRule.KeptKeyByKey | Grade.IO/Pods/leveldb-library/db/db_impl.cc:946-960 | the loop writes out only input entries: all above the smallest snapshot, and of the others of a user key at most the newest, which is left out exactly if it is a deletion of a key with nothing below |
| DropRule.ReadsPreservedIff | Grade.IO/Pods/leveldb-library/db/db_impl.cc:946-960 | reads at every snapshot from the smallest on are unchanged by the drop rule if and only if no dropped deletion uncovers an older value outside the inputs |
| DropRule.ExposedValueReturns | Grade.IO/Pods/leveldb-library/db/db_impl.cc:949-960 | an uncovered value is what a read then returns, where it was absent before |
| Compaction.Job.IsBaseLevelForKey | Grade.IO/Pods/leveldb-library/db/version_set.cc:1533-1552 | over calls with non-decreasing keys, the remembered positions answer as a scan of all deeper files would, both ways |
| Compaction.Job.ShouldStopBefore | Grade.IO/Pods/leveldb-library/db/version_set.cc:1554-1576 | stops exactly when the grandparent bytes passed since the last stop exceed the limit |
| Compaction.WatchNext | Grade.IO/Pods/leveldb-library/db/version_set.cc:1554-1576 | over the keys of a sorted input, its answers are stops exactly where the leading grandparent files that end before the key have come to more than the limit since the last stop |
| Compaction.DoCompactionWork | Grade.IO/Pods/leveldb-library/db/db_impl.cc:878-1048 | the outputs hold exactly the surviving entries, as an ordered level of tables that are filled, bounded by their first and last entries and numbered in sequence. None goes on once it is full; each but the last ends only because it is full, or because the grandparent bytes passed since the last stop exceed the limit at an input key between it and the next; and none goes on past such a key |
| Compaction.PiecesOrdered | Grade.IO/Pods/leveldb-library/db/db_impl.cc:974-996 | cutting a sorted run into tables gives tables in order with disjoint key ranges |
| Tables.FindFile | Grade.IO/Pods/leveldb-library/db/version_set.cc:88-106 | binary search finds the first file whose largest key is not before the key |
| Tables.SomeFileOverlapsRange | Grade.IO/Pods/leveldb-library/db/version_set.cc:122-157 | true exactly if some file overlaps the range, by scanning or by searching |
| Tables.EntryWithin | Grade.IO/Pods/leveldb-library/db/version_edit.h:25-26 | every entry of a table lies within the table's recorded bounds |
| Lookup.SeekRun | Grade.IO/Pods/leveldb-library/db/memtable.cc:100-134 | the first entry at or after the lookup key is the newest visible one, or there is none |
| Lookup.NewestFirst | Grade.IO/Pods/leveldb-library/db/version_set.cc:278-280 | the same files, in order of decreasing number |
| Lookup.SearchLevelZero | Grade.IO/Pods/leveldb-library/db/version_set.cc:349-364 | trying overlapping files newest first finds the newest visible entry of the level |
| Lookup.SearchOrderedLevel | Grade.IO/Pods/leveldb-library/db/version_set.cc:365-382 | looking into one binary-searched file is enough for the whole level |
| Lookup.SearchVersion | Grade.IO/Pods/leveldb-library/db/version_set.cc:326-421 | stopping at the first hit, level by level, finds the newest visible entry of all levels |
| Lookup.Get | Grade.IO/Pods/leveldb-library/db/db_impl.cc:1100-1145 | memtable, then immutable memtable, then levels: the result is what a flat scan of all entries gives |
| Boundary.FindLargestKey | Grade.IO/Pods/leveldb-library/db/version_set.cc:1326-1340 | the greatest largest key of the files, or none if there are no files |
| Boundary.FindSmallestBoundaryFile | Grade.IO/Pods/leveldb-library/db/version_set.cc:1344-1362 | the first file that begins after the key with the same user key; none only if there is no such file |
| Boundary.AddBoundaryInputs | Grade.IO/Pods/leveldb-library/db/version_set.cc:1378-1401 | it ends; it adds exactly a chain of boundary files from the largest key, after whose end the level has no boundary file |
| Boundary.ChainKeepsConvex | Grade.IO/Pods/leveldb-library/db/version_set.cc:1364-1401 | following the chain never leaves out a file between two chosen ones |
| Boundary.NoBoundaryLeavesOnlyNewer | Grade.IO/Pods/leveldb-library/db/version_set.cc:1369-1373 | a convex choice without a boundary file leaves behind only entries newer than the chosen ones, key by key |
| Ranges.GetRange | Grade.IO/Pods/leveldb-library/db/version_set.cc:1205-1227 | the least smallest and greatest largest key of the files |
| Ranges.GetOverlappingInputs | Grade.IO/Pods/leveldb-library/db/version_set.cc:519-559 | it ends despite its restarts; in level zero it returns the files overlapping the least range that contains the request and is closed under overlap, elsewhere those overlapping the request |
| Picking.PickLevelForMemTableOutput | Grade.IO/Pods/leveldb-library/db/version_set.cc:491-516 | at a level above zero nothing from level zero down to it overlaps, and in the level two below each one passed over no more bytes overlap than the limit; it is not deeper because of an overlap or of such bytes |
| Picking.FirstFile | Grade.IO/Pods/leveldb-library/db/version_set.cc:1283-1301 | the file chosen by seeks, or the first past the compaction pointer, or the first of all if the pointer has passed them all |
| Picking.PickCompaction | Grade.IO/Pods/leveldb-library/db/version_set.cc:1270-1322 | the inputs leave only newer entries in their level, take every overlapping file of the next, and cover their hull without a gap; they grow, as SetupOtherInputs says, from the file the pointer or the seeks called for, in level zero with all it is found to overlap |
| Picking.SetupOtherInputs | Grade.IO/Pods/leveldb-library/db/version_set.cc:1403-1462 | the inputs are the start with its boundary files; or what a search over the range of those and of what they overlap finds, with its boundary files, exactly if that is more files, needs as many of the next level, and stays below the limit. They stay sound and keep a gapless start gapless; the new compaction pointer is their greatest largest key |
| Picking.Grow | Grade.IO/Pods/leveldb-library/db/version_set.cc:1417-1447 | a grown selection contains the old one, stays sound, and stays gapless if it was; it is taken exactly if there are overlapping files, it is larger, its bytes are below the limit, and it needs no more files of the next level |
| Picking.CompactRange | Grade.IO/Pods/leveldb-library/db/version_set.cc:1464-1495 | none exactly when no file of the level overlaps the range; otherwise sound inputs that grow from all that is found in the range in level zero, and elsewhere from as many overlapping files, in order, as it takes to reach the size limit; they may leave gaps |
| Picking.GaplessChain | Grade.IO/Pods/leveldb-library/db/version_set.cc:1378-1401 | boundary files extend a gapless hull without a gap |
| Picking.PrefixConvex | Grade.IO/Pods/leveldb-library/db/version_set.cc:1472-1487 | cutting a manual compaction at its size limit leaves no file out between two taken ones |
| Invariant.FlushBesideAutomatic | Grade.IO/Pods/leveldb-library/db/db_impl.cc:908-918 | a file flushed in the middle of an automatic compaction lies wholly to one side of its inputs |
| Invariant.FlushKeepsJob | Grade.IO/Pods/leveldb-library/db/db_impl.cc:908-918 | a flush in the middle of a compaction leaves it sound, unless it falls in a gap of a manual one |
| Invariant.ReplaceKeepsSound | Grade.IO/Pods/leveldb-library/db/db_impl.cc:860-876 | replacing the inputs by tables of their own entries keeps every level ordered and every key newer above older |
| Runs.StepKeepsInv | Grade.IO/Pods/leveldb-library/db/db_impl.cc:688-767 | every step of write, switch, snapshot, flush, move, compaction, crash and recovery keeps levels disjoint, keys newer above older, level zero ordered by number |
| Runs.RunKeepsInv | Grade.IO/Pods/leveldb-library/db/db_impl.cc:688-767 | so does every run from the empty store, however the steps interleave and whenever it crashes, as long as no flush falls in a gap of a manual compaction; what is in no table is newer than all that is |
| Runs.FinishKeepsReads | Grade.IO/Pods/leveldb-library/db/db_impl.cc:878-1048 | finishing a compaction that uncovers nothing keeps every read at a live snapshot and at the latest sequence number |
| Runs.RunReadsHistory | Grade.IO/Pods/leveldb-library/db/db_impl.cc:688-767 | in every such run without crashes and without uncovering, each live snapshot and the present read exactly the history of writes |
| Runs.RunSurvivesCrashes | Grade.IO/Pods/leveldb-library/db/db_impl.cc:280-489 | and in every such run with crashes, if no compaction uncovers a value for the tables alone: what is read is the history of what was written and not lost |
| Reopening.CrashAndReopen | Grade.IO/Pods/leveldb-library/db/db_impl.cc:371-489 | from every good state, whatever part of the memtables the logs still hold, there is a run of crash, replay into a table of level zero and opening, after which the tables read all that was not lost |
| Exactness.FinishReadsIff | Grade.IO/Pods/leveldb-library/db/version_set.cc:1403-1411 | a finished compaction leaves every read from its horizon on unchanged if and only if no dropped deletion is exposed |
| Exactness.FinishDurableIff | Grade.IO/Pods/leveldb-library/db/version_set.cc:1403-1411 | and leaves what the tables alone would read unchanged if and only if none is exposed to them |
| Exactness.ExposureNeedsBoundary | Grade.IO/Pods/leveldb-library/db/version_set.cc:1407-1411 | that happens only if a boundary file of the next level was left out of the inputs, which the code extends at the upper level only |
| Exactness.NoBoundaryKeepsReads | Grade.IO/Pods/leveldb-library/db/version_set.cc:1369-1373 | without such a boundary file left behind when it finishes, a compaction keeps reads |
| Exactness.FlushLeavesNoBoundary | Grade.IO/Pods/leveldb-library/db/db_impl.cc:908-918 | a flush in the middle of a compaction brings no such file |
| Exactness.WholeRunReadsHistory | Grade.IO/Pods/leveldb-library/db/version_set.cc:1403-1411 | in every run whose compactions leave none when their inputs are chosen, crashes included, each live snapshot and the present read exactly the history of what was written and not lost |
| Exactness.GapIff | Grade.IO/Pods/leveldb-library/db/db_impl.cc:908-918 | after a flush during a compaction every way to finish leaves the levels sound if and only if the flush does not fall in a gap of a manual compaction |
| Exactness.GapCanBreak | Grade.IO/Pods/leveldb-library/db/db_impl.cc:908-918 | and if it does, some way to finish leaves two overlapping files in a level |
| Counterexamples.DeletionUndoneRun | Grade.IO/Pods/leveldb-library/db/version_set.cc:1407-1411 | a run of automatic compactions from the empty store, its output cut where it is full, after which a deleted key reads as its old value again |
| Counterexamples.ManualGapRun | Grade.IO/Pods/leveldb-library/db/version_set.cc:1464-1495 | a run from the empty store, each flush to the level the code picks, that ends with overlapping files in level two |
| Database.DB.constructor | Grade.IO/Pods/leveldb-library/db/db_impl.cc:182-212 | a new database is the empty store |
| Database.DB.Write | Grade.IO/Pods/leveldb-library/db/db_impl.cc:1185-1256 | a batch takes consecutive new sequence numbers and goes into the memtable. Then a user key whose last operation in the batch is a put reads as its value, and as absent if that is a deletion; every other key reads as before, and so does every snapshot from before. All invariants and true reads are kept |
| Writes.WriteIsRead | Grade.IO/Pods/leveldb-library/db/write_batch.cc:116-137 | a write step of the store, over the operations alone: the last operation on a user key is what is read, a value or nothing; other keys and older snapshots read as before |
| Writes.RunReadsPlayed | Grade.IO/Pods/leveldb-library/include/leveldb/db.h:63-88 | in every orderly run without crashes or uncovered values, every live snapshot reads the map that the operations numbered up to it leave when they are played one after another, and the present reads the map that all of them leave |
| Database.DB.SwitchMemTable | Grade.IO/Pods/leveldb-library/db/db_impl.cc:1345-1366 | the memtable becomes immutable, an empty one begins, and a new log with the next number; a step of the store |
| Database.DB.GetSnapshot | Grade.IO/Pods/leveldb-library/db/db_impl.cc:1166-1169 | a snapshot is the last sequence number; taking it is a step of the store |
| Database.DB.ReleaseSnapshot | Grade.IO/Pods/leveldb-library/db/db_impl.cc:1171-1174 | releasing a snapshot takes just it out of those that live, and is a step of the store |
| Database.DB.Get | Grade.IO/Pods/leveldb-library/db/db_impl.cc:1100-1145 | equals a flat scan of everything stored, and the history of writes when reads are true and the snapshot is live |
| Database.DB.CompactMemTable | Grade.IO/Pods/leveldb-library/db/db_impl.cc:535-566 | flushing the immutable memtable through the manifest, which then names the current log and no previous one, is a step of the store, in the middle of a compaction too |
| Database.DB.WriteLevel0Table | Grade.IO/Pods/leveldb-library/db/db_impl.cc:491-533 | the table holds exactly the memtable's run, under a new number and with its size; if it goes below level zero, nothing from there up to level zero overlaps it, and no level two below one it passed overlaps it in more bytes than the limit |
| Database.DB.Move | Grade.IO/Pods/leveldb-library/db/db_impl.cc:718-728 | a trivial move through the manifest is a step of the store and keeps reads |
| Database.DB.BeginAutomatic | Grade.IO/Pods/leveldb-library/db/db_impl.cc:711-735 | an automatic compaction is a trivial move exactly if it has one input, none in the next level, and no more grandparent bytes than the limit, and otherwise the start of a gapless job; both are steps of the store, with the inputs that the choice of the first file and growing give |
| Database.DB.BeginManual | Grade.IO/Pods/leveldb-library/db/db_impl.cc:699-736 | a manual compaction starts a job with the inputs its range and limit give; nothing starts exactly if nothing overlaps the range |
| Database.DB.FinishCompaction | Grade.IO/Pods/leveldb-library/db/db_impl.cc:878-1048 | running the loop and installing its outputs through the manifest is a step of the store; the outputs are numbered and cut as the loop promises; reads stay true unless a deletion is exposed |
| Database.DB.NewIterator | Grade.IO/Pods/leveldb-library/db/db_impl.cc:1147-1157 | the iterator is at the given snapshot or the latest sequence number, and its view is the sorted map of the history's reads there |
| Database.DB.RecoverVersions | Grade.IO/Pods/leveldb-library/db/version_set.cc:886-1011 | whatever the database has done since its last manifest record, the manifest recovers the current files, the log number, a next file number above every file, and a last sequence number that covers every stored entry |
| Database.InsertBatch | Grade.IO/Pods/leveldb-library/db/write_batch.cc:116-137 | the memtable holds the old entries and, for each operation, one entry of its kind and value under the next sequence number; still sorted |
| Database.CompactionEffect | Grade.IO/Pods/leveldb-library/db/db_impl.cc:860-876 | applying a compaction's edit takes out its inputs and puts in its outputs, level by level |
| Database.FlushEffect | Grade.IO/Pods/leveldb-library/db/db_impl.cc:550-555 | applying a flush's edit adds the new table at its level and nothing else |
| Database.SurvivorsAgree | Grade.IO/Pods/leveldb-library/db/version_set.cc:1533-1552 | base levels computed on the input version are those the store's job is defined by |
| Database.SmallestSnapshot | Grade.IO/Pods/leveldb-library/db/db_impl.cc:890-894 | the list's oldest snapshot, or the last sequence number without one, is the horizon that the store's compactions are defined by |
| Snapshots.SnapshotList.New | Grade.IO/Pods/leveldb-library/db/snapshot.h:57-70 | appends a snapshot not older than the newest to the circular list |
| Snapshots.SnapshotList.Delete | Grade.IO/Pods/leveldb-library/db/snapshot.h:79-86 | unlinks the one snapshot and leaves the others in order |
| Snapshots.SnapshotList.Oldest | Grade.IO/Pods/leveldb-library/db/snapshot.h:47-50 | the oldest node has the least sequence number of all live snapshots |
| Snapshots.SnapshotList.Newest | Grade.IO/Pods/leveldb-library/db/snapshot.h:51-54 | the newest node has the greatest |
| Snapshots.SnapshotList.Empty | Grade.IO/Pods/leveldb-library/db/snapshot.h:46 | true exactly if no snapshot is live |
| MemTable.MemTable.Add | Grade.IO/Pods/leveldb-library/db/memtable.cc:75-98 | the buffer encodes the entry, the skip list takes its key, and the entries in list order gain exactly that entry |
| MemTable.RowInNumbers | Grade.IO/Pods/leveldb-library/db/memtable.cc:77-97 | a row is, byte for byte, the length of the internal key, the key, the length of the value, the value |
| MemTable.MemTable.Get | Grade.IO/Pods/leveldb-library/db/memtable.cc:100-134 | the value, the deletion or the miss of the newest entry visible at the snapshot |
| MemTable.CompareKeys | Grade.IO/Pods/leveldb-library/db/memtable.cc:28-34 | buffers compare as the internal keys in them |
| MemTable.AnswerIsRead | Grade.IO/Pods/leveldb-library/db/memtable.cc:100-134 | the answer is what a flat scan of the memtable's entries reads |
| MemTable.SeekDecides | Grade.IO/Pods/leveldb-library/db/memtable.cc:111-118 | the first buffer not before the lookup key has the newest visible entry of the key, if it has the key at all |
| DbIter.ViewIsSnapshot | Grade.IO/Pods/leveldb-library/db/db_iter.cc:33-38 | the view is sorted by key and holds exactly the keys and values that reads at the sequence number give |
| DbIter.DBIter.Next | Grade.IO/Pods/leveldb-library/db/db_iter.cc:141-166 | from position c to c+1, or off the end, whichever way the iterator was moving |
| DbIter.DBIter.Prev | Grade.IO/Pods/leveldb-library/db/db_iter.cc:200-225 | from position c to c-1, or off the start, whichever way the iterator was moving |
| DbIter.DBIter.Seek | Grade.IO/Pods/leveldb-library/db/db_iter.cc:269-281 | on the first key not before the target |
| DbIter.DBIter.SeekToFirst | Grade.IO/Pods/leveldb-library/db/db_iter.cc:283-292 | on the first key of the view, if there is one |
| DbIter.DBIter.SeekToLast | Grade.IO/Pods/leveldb-library/db/db_iter.cc:294-299 | on the last key of the view, if there is one |
| DbIter.DBIter.FindNextUserEntry | Grade.IO/Pods/leveldb-library/db/db_iter.cc:168-198 | stops on the first entry from there on that a read would yield |
| DbIter.DBIter.FindPrevUserEntry | Grade.IO/Pods/leveldb-library/db/db_iter.cc:227-267 | saves the last entry before there that a read would yield, and stops just before the entries of its key |
| SkipList.StepKeepsInv | Grade.IO/Pods/leveldb-library/db/skiplist.h:336-368 | every single store and load keeps each level a sorted sublist of the level below, and every search on its way |
| SkipList.RunKeepsInv | Grade.IO/Pods/leveldb-library/db/skiplist.h:336-368 | so does every interleaving of one writer's stores with any number of readers' loads |
| SkipList.RunFinds | Grade.IO/Pods/leveldb-library/db/skiplist.h:260-281 | a search finds every key that was in the list when it began, whatever is inserted meanwhile |
| SkipListRuns.SearchCompletes | Grade.IO/Pods/leveldb-library/db/skiplist.h:260-281 | in any reachable state, in the middle of an insertion or not, a search can begin and is ended by loads of its own, at the place of its target |
| SkipListRuns.InsertFinishes | Grade.IO/Pods/leveldb-library/db/skiplist.h:336-368 | with any searches under way, a key that is not in the list can be inserted by a series of stores, with any height up to 12; its node is then in the lists below that height, and nothing else has changed |
| SkipList.FoundCoversStart | Grade.IO/Pods/leveldb-library/db/skiplist.h:260-281 | what a search returns is not after any node not before its target that was there when it began |
| SkipList.LoadKeepsSearch | Grade.IO/Pods/leveldb-library/db/skiplist.h:255-259 | a load keeps the search to the left of what it looks for |
| SkipList.SkipList.FindGreaterOrEqual | Grade.IO/Pods/leveldb-library/db/skiplist.h:260-281 | the first node not before the key, and on each level the last node before it |
| SkipList.SkipList.FindBefore | Grade.IO/Pods/leveldb-library/db/skiplist.h:283-322 | the last node before a target, or of all: FindLessThan and FindLast |
| SkipList.SkipList.Contains | Grade.IO/Pods/leveldb-library/db/skiplist.h:370-378 | true exactly if the key is in the list |
| SkipList.SkipList.Insert | Grade.IO/Pods/leveldb-library/db/skiplist.h:336-368 | the keys in order gain exactly the new one in its place, under the next free node |
| SkipList.SkipList.LinkLevel | Grade.IO/Pods/leveldb-library/db/skiplist.h:361-367 | the two stores of one level insert the node into that level's list |
| Recovery.StepKeepsInv | Grade.IO/Pods/leveldb-library/db/db_impl.cc:223-369 | every step of writing, switching, flushing, compacting, deleting files, crashing, losing log ends and recovering keeps disk and memory in agreement |
| Recovery.RunKeepsInv | Grade.IO/Pods/leveldb-library/db/db_impl.cc:223-369 | so does every run, crashes at any moment included: no table in use is missing, and the needed logs hold what is unflushed |
| Recovery.RebuildsMemory | Grade.IO/Pods/leveldb-library/db/db_impl.cc:535-566 | while it runs, manifest tables and needed logs are what memtables and current version hold |
| Recovery.DeleteObsoleteFiles | Grade.IO/Pods/leveldb-library/db/db_impl.cc:223-278 | deletes exactly the logs, tables, manifests and temporary files that are not needed, and nothing after a background error |
| Recovery.DeleteKeeps | Grade.IO/Pods/leveldb-library/db/db_impl.cc:223-278 | of the logs those from the current number on are left, of the tables those in use by a version or by unfinished work, as they were; nothing that recovery needs is deleted |
| Recovery.RecoveryCanBegin | Grade.IO/Pods/leveldb-library/db/db_impl.cc:320-356 | after any crash no table of the manifest is missing, and the needed logs can be put in order |
| Completion.RecoveryCompletes | Grade.IO/Pods/leveldb-library/db/db_impl.cc:280-490 | after a crash in any reachable state there is a run of recovery to its end that brings back all that the manifest's tables and the needed logs hold: in tables alone, or with the last log reused |
| Completion.FlushCompletes | Grade.IO/Pods/leveldb-library/db/db_impl.cc:535-566 | a waiting memtable can always be built into a table, recorded and installed, and then no log before the current one is needed |
| Completion.JobCompletes | Grade.IO/Pods/leveldb-library/db/db_impl.cc:878-1048 | a compaction of any files of the current version can be run to its end: what the drop rule leaves takes their place |
| Completion.CanGiveUpAndClean | Grade.IO/Pods/leveldb-library/db/db_impl.cc:769-799 | an unfinished compaction can be given up and its files deleted, without loss |
| Durability.RunLosesNothing | Grade.IO/Pods/leveldb-library/db/db_impl.cc:280-489 | in every run, crashes at any moment of writing, flushing, compacting, cleaning up and recovering included, what the files rebuild reads as all that was written and not lost, at every snapshot from the horizon on; an opened database gives out no snapshot below it |
| Durability.RunningReads | Grade.IO/Pods/leveldb-library/db/db_impl.cc:1100-1145 | and so read the memtables and tables of the running database |
| Durability.RunStaysDurable | Grade.IO/Pods/leveldb-library/db/db_impl.cc:371-489 | in every run the needed logs hold the latest of what was written and not lost, in order, the tables only what is older and no entry twice, and what was synced is still there |
| Durability.LogJobReadsIff | Grade.IO/Pods/leveldb-library/db/db_impl.cc:860-876 | recording a compaction keeps reads from its horizon on if and only if it exposes no older value |
| Durability.ExpectedIsWritten | Grade.IO/Pods/leveldb-library/db/db_impl.cc:1185-1256 | nothing appears that was not written, and as long as only the process crashes everything written is still there |
| Durability.LoseTailLosesTail | Grade.IO/Pods/leveldb-library/db/db_impl.cc:402-430 | a machine crash loses batches whole or not at all, and of a log only the last of them |
| Durability.SyncCoversIff | Grade.IO/Pods/leveldb-library/db/db_impl.cc:1217-1233 | after a synced write all that was written so far survives every later run of crashes if and only if, before it, no older log that recovery needs had an unsynced batch |
| Durability.NothingWaiting | Grade.IO/Pods/leveldb-library/db/db_impl.cc:1345-1366 | there is no such batch while no immutable memtable waits to be recorded, or if the logs before the current one are synced to their ends |
| Durability.SyncedSurvive | Grade.IO/Pods/leveldb-library/db/db_impl.cc:1217-1233 | whether or not there is, no batch that is in the log when a write syncs it is ever lost |
| Durability.SyncSkipsOlderLog | Grade.IO/Pods/leveldb-library/db/db_impl.cc:1345-1366 | a run in which a machine crash loses a write made before a synced one: the log before a switch of memtables is never synced |
| Manifest.ReplayIff | Grade.IO/Pods/leveldb-library/db/version_set.cc:650-737 | replaying all edits in one builder gives the files of applying them one by one if and only if no accepted file that left the level shares its number with one that is there, and no file that is there was added after another with its number and smallest key |
| Manifest.TieDropped | Grade.IO/Pods/leveldb-library/db/version_set.cc:592-607 | an example where replay drops a file tied with an earlier one |
| Manifest.ReplayTakesFirsts | Grade.IO/Pods/leveldb-library/db/version_set.cc:689-690 | of files tied in number and smallest key the one builder takes the first, over all edits |
| Manifest.DistinctReplays | Grade.IO/Pods/leveldb-library/db/version_set.cc:650-737 | replay and one-by-one application agree when numbers name one file each at the level |
| Manifest.ReusedNumberRevives | Grade.IO/Pods/leveldb-library/db/version_set.cc:656-691 | an example where a reused number brings a deleted file back on replay |
| Manifest.SameFilesSameList | Grade.IO/Pods/leveldb-library/db/version_set.cc:592-607 | two lists in builder order with the same files are the same list |
| Manifest.BuilderOrder | Grade.IO/Pods/leveldb-library/db/version_set.cc:593-605 | a list is in builder order exactly if it is by user keys, then greater sequence numbers first, then by file numbers |
| Manifest.BuilderOrderIsKeyOrder | Grade.IO/Pods/leveldb-library/db/version_set.cc:725-736 | in an ordered level, builder order is key order: the overlap check of the code never fires |
| Manifest.InsertFile | Grade.IO/Pods/leveldb-library/db/version_set.cc:689-690 | an insertion into the builder's ordered set, where a tie leaves the set unchanged |
| Manifest.SaveLevel | Grade.IO/Pods/leveldb-library/db/version_set.cc:695-755 | merging base and added files gives, in builder order, exactly the base files not deleted and the added ones |
| Manifest.Builder.Apply | Grade.IO/Pods/leveldb-library/db/version_set.cc:650-692 | deletions are recorded, additions take back deletions of their numbers |
| Manifest.Builder.SaveTo | Grade.IO/Pods/leveldb-library/db/version_set.cc:695-737 | each level is the base with the collected deletions and additions applied, in builder order |
| Manifest.Recover | Grade.IO/Pods/leveldb-library/db/version_set.cc:886-1011 | fails exactly if a needed counter was never recorded; otherwise the replayed files and the last value of each counter |
| ManifestFile.RecoverManifest | Grade.IO/Pods/leveldb-library/db/version_set.cc:886-1011 | from the bytes of a manifest cut anywhere, exactly the edits of the whole records are replayed, and a record that names another comparator is refused |
| ManifestFile.DecodedInRange | Grade.IO/Pods/leveldb-library/db/version_edit.cc:107-205 | whatever bytes are decoded, every level in the edit is one the store has |
| ManifestFile.MeaningIs | Grade.IO/Pods/leveldb-library/db/version_edit.cc:111-205 | a decoded edit means its counters, its deleted files, and its new files with their levels, numbers and sizes and the keys their bytes encode |
| Manifest.WriteSnapshot | Grade.IO/Pods/leveldb-library/db/version_set.cc:1088-1116 | one edit from which the replay starts with exactly the files of the version |
| Manifest.VersionSet.LogAndApply | Grade.IO/Pods/leveldb-library/db/version_set.cc:801-884 | appends the edit, with its files as they are and its counters filled in: a recovery would now read the current next file number and last sequence number, and the edit's log numbers or else the current ones. The new current version is the old one with the edit applied |
| Manifest.VersionSet.Reopen | Grade.IO/Pods/leveldb-library/db/version_set.cc:886-1011 | recovering the manifest gives back the current version, list for list, and the log numbers; the next file number and the last sequence number are those of the last record. So if that record covered the version, every file has a smaller number than the next and every stored entry is seen |
| Manifest.VersionSet.NewFileNumber | Grade.IO/Pods/leveldb-library/db/version_set.h:194 | draws the next number, and the counter moves past it |
| Manifest.VersionSet.ReuseFileNumber | Grade.IO/Pods/leveldb-library/db/version_set.h:199-203 | takes a number back exactly if it was the last one drawn |
| Manifest.VersionSet.SetLastSequence | Grade.IO/Pods/leveldb-library/db/version_set.h:215-218 | sets a sequence number that never goes back |
| VersionEdits.ItemRoundTrip | Grade.IO/Pods/leveldb-library/db/version_edit.cc:107-205 | a field is read back if and only if its level is in range |
| VersionEdits.ItemInNumbers | Grade.IO/Pods/leveldb-library/db/version_edit.cc:14-90 | each item is, byte for byte, its tag, 1 to 7 or 9, and its fields in order |
| VersionEdits.InsertedInSet | Grade.IO/Pods/leveldb-library/db/version_edit.h:74-86 | the deleted files of an edit are an ordered set: inserting one keeps the order and adds just it, once |
| VersionEdits.EditRoundTrip | Grade.IO/Pods/leveldb-library/db/version_edit.cc:41-205 | decoding an encoded edit succeeds if and only if its levels are in range, and then rebuilds every field, with the receiver's uncleared pointers in front |
| VersionEdits.VersionEdit.Clear | Grade.IO/Pods/leveldb-library/db/version_edit.cc:26-39 | resets every field but the compaction pointers |
| VersionEdits.VersionEdit.EncodeTo | Grade.IO/Pods/leveldb-library/db/version_edit.cc:41-85 | appends the fields in the order the decoder expects, deletions in set order |
| VersionEdits.VersionEdit.DecodeFrom | Grade.IO/Pods/leveldb-library/db/version_edit.cc:107-205 | fills the fields from the items up to the first that makes no sense, and reports which |
| VersionEdits.GetLevel | Grade.IO/Pods/leveldb-library/db/version_edit.cc:97-105 | a level below seven, or nothing |
| Log.Writer.AddRecord | Grade.IO/Pods/leveldb-library/db/log_writer.cc:34-80 | appends exactly the fragments of the record, across blocks and block ends |
| Log.Writer.EmitPhysicalRecord | Grade.IO/Pods/leveldb-library/db/log_writer.cc:82-108 | appends one header and its data within the block |
| Log.HeaderRoundTrip | Grade.IO/Pods/leveldb-library/db/log_writer.cc:87-96 | checksum, length and type of a header are read back |
| Log.LayoutInNumbers | Grade.IO/Pods/leveldb-library/db/log_format.h:14-30 | the format in numbers: blocks of 32768 bytes, zeros where fewer than 7 are left, and fragments of type 1, or 2, 3 and 4, behind the masked checksum and the length, least significant byte first |
| Log.Reader.ReadPhysicalRecord | Grade.IO/Pods/leveldb-library/db/log_reader.cc:189-271 | the next fragment, or the end of the file; nothing is reported for a file cut short |
| Log.Reader.ReadRecord | Grade.IO/Pods/leveldb-library/db/log_reader.cc:56-174 | the next record if the file holds all of it; nothing is reported either way |
| Log.WriteAll | Grade.IO/Pods/leveldb-library/db/log_writer.cc:34-80 | the file is the concatenation of the records as laid out |
| Log.ReadAll | Grade.IO/Pods/leveldb-library/db/log_reader.cc:56-271 | from any prefix of a written file, exactly the records wholly in it, in order, with nothing reported as corrupt |
| Log.WrittenSplit | Grade.IO/Pods/leveldb-library/db/log_writer.cc:23-30 | a writer that goes on at the end of a file lays records out as if it had written all of them |
| Coding.FixedRoundTrip | Grade.IO/Pods/leveldb-library/util/coding.cc:9-45 | fixed-width numbers are read back |
| Coding.VarintRoundTrip | Grade.IO/Pods/leveldb-library/util/coding.cc:47-96 | varints are read back, in no more bytes than the limit |
| Coding.PutVarint | Grade.IO/Pods/leveldb-library/util/coding.cc:75-96 | appends the varint |
| Coding.GetVarint | Grade.IO/Pods/leveldb-library/util/coding.cc:112-169 | the number at the front modulo its width and the rest, or nothing |
| Coding.PrefixedRoundTrip | Grade.IO/Pods/leveldb-library/util/coding.cc:98-101 | length-prefixed strings are read back |
| Coding.GetLengthPrefixed | Grade.IO/Pods/leveldb-library/util/coding.cc:171-190 | the string at the front and the rest, or nothing |
| Coding.MaskRoundTrip | Grade.IO/Pods/leveldb-library/util/crc32c.h:29-38 | unmasking undoes masking |
| Coding.FixedOnWire | Grade.IO/Pods/leveldb-library/util/coding.cc:9-19 | fixed-width numbers, byte for byte, least significant first |
| Coding.TooLongRefused | Grade.IO/Pods/leveldb-library/util/coding.cc:112-160 | a varint that goes on after five bytes, or after ten, is refused |
| GroupCommit.BuildBatchGroup | Grade.IO/Pods/leveldb-library/db/db_impl.cc:1260-1306 | the batches of as many writers from the front as fit, joined in order: up to a megabyte, or 128 kilobytes more than the first batch if that is no larger; never a sync writer behind a leader that does not sync |
| GroupCommit.StepKeepsInv | Grade.IO/Pods/leveldb-library/db/db_impl.cc:1185-1256 | every step of arriving, leading, grouping and writing keeps every outcome honest and the applied batches in queue order |
| GroupCommit.RunKeepsInv | Grade.IO/Pods/leveldb-library/db/db_impl.cc:1185-1306 | in every interleaving each batch is applied at most once, exactly if its writer is told OK, in queue order, with contiguous increasing sequence numbers, logged before, and synced if it asked for that |
| GroupCommit.SwitchSureIff | Grade.IO/Pods/leveldb-library/db/db_impl.cc:1199-1203 | a writer without a batch, if told OK, has had the memtable switch it asked for in every run if and only if no writer with a batch ahead of it can take it into its group |
| GroupCommit.PlacedApplied | Grade.IO/Pods/leveldb-library/db/db_impl.cc:1209-1213 | the numbers given to the batches of a group are those of its operations counted through |
| GroupCommit.FailedSyncIsFinal | Grade.IO/Pods/leveldb-library/db/db_impl.cc:1217-1232 | after a failed sync no writer in any run is told OK, those of its group among them, and nothing more is applied |
| GroupCommit.WriteIsServed | Grade.IO/Pods/leveldb-library/db/db_impl.cc:1185-1256 | every run in which no sync has failed goes on to one in which a new writer and all ahead of it have left the queue and were told OK |
| NanopbVarint.EncodeVarint | Grade.IO/Pods/nanopb/pb_encode.c:608-628 | writes the canonical encoding, in at most ten bytes |
| NanopbVarint.Varint32RoundTrip | Grade.IO/Pods/nanopb/pb_decode.c:187-247 | the 32-bit decoder reads back every canonical encoding below 2^32 |
| NanopbVarint.Varint32Rejects | Grade.IO/Pods/nanopb/pb_decode.c:187-247 | and rejects canonical encodings from 2^32 up to 2^63 |
| NanopbVarint.Varint32IsLow32 | Grade.IO/Pods/nanopb/pb_decode.c:187-275 | whatever it accepts in at most ten bytes is the low 32 bits of what the 64-bit decoder reads, to the same byte |
| NanopbVarint.ZigZagRoundTrip | Grade.IO/Pods/nanopb/pb_encode.c:630-639 | zig-zag is undone for every 64-bit number, and small magnitudes give small numbers |
| NanopbVarint.SvarintRoundTrip | Grade.IO/Pods/nanopb/pb_decode.c:1269-1281 | every signed number survives encoding and decoding, in at most ten bytes |
| NanopbMessage.MessageRoundTrip | Grade.IO/Pods/nanopb/pb_encode.c:528-765 | for every descriptor and every message within its bounds, decoding the encoding takes every byte and gives the message back if and only if every string in it is shorter than its array; otherwise it fails |
| NanopbMessage.FullStringRefused | Grade.IO/Pods/nanopb/pb_decode.c:1493-1496 | an example: a string that fills its array is encoded whole and refused by the decoder |
| NanopbMessage.FieldsRoundTrip | Grade.IO/Pods/nanopb/pb_decode.c:925-1073 | the fields from any number on, whatever comes after them: the decoder goes on as if they had been set, or fails if a string among them fills its array |
| NanopbMessage.NullTerminatedRoundTrip | Grade.IO/Pods/nanopb/pb_encode.c:557-565 | a zero byte ends a message and leaves what follows in the stream |
| NanopbMessage.DelimitedRoundTrip | Grade.IO/Pods/nanopb/pb_encode.c:552-555 | a message with its length in front is read back from a longer stream |
| NanopbMessage.ScalarRoundTrip | Grade.IO/Pods/nanopb/pb_decode.c:1318-1548 | each scalar type is read back from what its encoder wrote, except exactly the strings that fill their arrays, which are refused |
| NanopbMessage.PackedRoundTrip | Grade.IO/Pods/nanopb/pb_decode.c:424-453 | a packed array is read back item by item, behind those already there; refused if there is no room |
| NanopbMessage.EachRoundTrip | Grade.IO/Pods/nanopb/pb_decode.c:454-464 | items with a tag each, numbers among them, are read back behind those already there; refused if there is no room, or if a string fills its array |
| NanopbMessage.FieldsInBounds | Grade.IO/Pods/nanopb/pb_decode.c:925-1073 | whatever the input, decoding into a message within its bounds fails or leaves it within its bounds, its strings terminated if they were |
| NanopbMessage.DecodeStaysInBounds | Grade.IO/Pods/nanopb/pb_decode.c:1075-1087 | so pb_decode never overfills an array, and what it accepts can be encoded and read back unchanged |
| NanopbMessage.DefaultsInBounds | Grade.IO/Pods/nanopb/pb_decode.c:908-919 | the message of defaults is within its bounds |
| NanopbMessage.PlaceNext | Grade.IO/Pods/nanopb/pb_decode.c:466-475 | setting a member of a oneof unsets the others and nothing else |
| NanopbMerge.ConcatenationMerges | Grade.IO/Pods/nanopb/pb_decode.c:406-480 | two encoded messages one after the other are decoded as the first with the second merged into it - later values win, arrays are joined, nested messages are merged, a oneof member replaces its siblings - if and only if the arrays have room and the strings end |
| NanopbMerge.FieldsInto | Grade.IO/Pods/nanopb/pb_decode.c:925-1073 | decoding into a message that holds something already, from any field on and with any tail |
| NanopbWire.FieldOnWire | Grade.IO/Pods/nanopb/pb_encode.c:667-704 | a single field that is present is, byte for byte, the varint of its number times 8 plus 0, 1, 2 or 5 by its type, and then its varint, 8 bytes, length and content, or 4 bytes, least significant byte first |
| NanopbWire.ArrayOnWire | Grade.IO/Pods/nanopb/pb_encode.c:147-275 | numbers in an array go under one key of wire type 2, with the length of all items in front; other items have a key each |
| NanopbWire.ValueSkipped | Grade.IO/Pods/nanopb/pb_decode.c:264-331 | an encoded value of any type is skipped to its last byte, by its wire type alone |
| NanopbWire.UnknownSkipped | Grade.IO/Pods/nanopb/pb_decode.c:959-986 | a field whose number the descriptor does not have is passed over, whatever its type and value |
| NanopbWire.NumberZero | Grade.IO/Pods/nanopb/pb_decode.c:936-991 | field number 0 is passed over like any unknown field, except in a message type without fields, where it reads a bool whatever its wire type |
| NanopbWire.OtherReader | Grade.IO/Pods/nanopb/pb_decode.c:925-1073 | a message decoded with another descriptor than it was encoded with: it is accepted if and only if the first 64 required fields of the reader are there and the strings it knows end; fields known to both are as they were, unknown ones passed over, missing ones unset |
| NanopbWire.NumberDecodes | Grade.IO/Pods/nanopb/pb_decode.c:1329-1429 | any 64-bit number is read into an integer field exactly if the field can hold what it stands for |
| NanopbWire.BytesDecode | Grade.IO/Pods/nanopb/pb_decode.c:1431-1501 | bytes of any length are read exactly if there is room; strings need room for a terminator; fixed-length bytes take just their length, or none for zeros |
| NanopbWire.DefaultIsUnset | Grade.IO/Pods/nanopb/pb_decode.c:836-923 | a message of defaults has every field unset, at any depth: its default, or false, zero, empty or all zeros |
| NanopbIter.FieldIter.Next | Grade.IO/Pods/nanopb/pb_common.c:20-76 | steps on or wraps to the beginning, counting required fields |
| NanopbIter.FieldIter.FindTag | Grade.IO/Pods/nanopb/pb_common.c:78-96 | finds the field with the tag from wherever it is, and if there is none is back where it was |
| NanopbEncode.OStream.Write | Grade.IO/Pods/nanopb/pb_encode.c:103-124 | writes all of it if there is room, counts only if sizing, and otherwise fails |
| NanopbEncode.OStream.EncodeScalar | Grade.IO/Pods/nanopb/pb_encode.c:769-912 | succeeds exactly if the value is within its bounds and there is room, and then has written its encoding |
| NanopbEncode.TextLength | Grade.IO/Pods/nanopb/pb_encode.c:889-896 | what precedes the first zero of the array, or all of it |
| NanopbEncode.OStream.EncodeArray | Grade.IO/Pods/nanopb/pb_encode.c:147-236 | succeeds exactly if the array and its items are within their bounds and there is room |
| NanopbEncode.OStream.EncodePacked | Grade.IO/Pods/nanopb/pb_encode.c:162-205 | the length computed or counted beforehand is the length of what is then written |
| NanopbEncode.OStream.EncodeSubmessage | Grade.IO/Pods/nanopb/pb_encode.c:717-765 | the writing pass gives the size of the sizing pass, so the size check never fails |
| NanopbEncode.OStream.EncodeField | Grade.IO/Pods/nanopb/pb_encode.c:341-427 | succeeds exactly if the field is within its bounds and there is room |
| NanopbEncode.OStream.Encode | Grade.IO/Pods/nanopb/pb_encode.c:528-550 | succeeds exactly if the message is within its bounds and there is room, sizing or writing |
| NanopbEncode.GetEncodedSize | Grade.IO/Pods/nanopb/pb_encode.c:567-577 | the number of bytes that encoding would write, or failure exactly if the message is out of bounds |
| NanopbEncode.EncodeToBuffer | Grade.IO/Pods/nanopb/pb_encode.c:86-101 | fits exactly if the encoding is no longer than the buffer, and then decodes to the message exactly if its strings are shorter than their arrays |
| NanopbDecode.IStream.Read | Grade.IO/Pods/nanopb/pb_decode.c:102-137 | takes the bytes if they are all there |
| NanopbDecode.IStream.DecodeVarint32Eof | Grade.IO/Pods/nanopb/pb_decode.c:187-247 | the loop reads what the 32-bit decoding says, and reports the end only before a first byte |
| NanopbDecode.IStream.DecodeVarint | Grade.IO/Pods/nanopb/pb_decode.c:255-275 | the loop reads the low 64 bits of a varint of at most ten bytes |
| NanopbDecode.IStream.SkipField | Grade.IO/Pods/nanopb/pb_decode.c:321-331 | skips as the wire type says, or fails |
| NanopbDecode.IStream.MakeSubstream | Grade.IO/Pods/nanopb/pb_decode.c:372-385 | a stream over exactly the announced bytes, while the parent keeps its place and counts them as gone |
| NanopbDecode.IStream.CloseSubstream | Grade.IO/Pods/nanopb/pb_decode.c:387-400 | the parent goes on right after the substream, however much of it was read |
| NanopbDecode.IStream.DecodePacked | Grade.IO/Pods/nanopb/pb_decode.c:424-453 | items are added as long as there are bytes and room; anything left over is a failure |
| NanopbDecode.IStream.DecodeSubmessage | Grade.IO/Pods/nanopb/pb_decode.c:1503-1525 | a nested message from its substream |
| NanopbDecode.IStream.DecodeSlot | Grade.IO/Pods/nanopb/pb_decode.c:406-480 | each kind of field as its rule says |
| NanopbDecode.IStream.DecodeNoInit | Grade.IO/Pods/nanopb/pb_decode.c:925-1073 | the loop with its iterator and its bits of seen required fields decodes as the specification of a message does |
| NanopbDecode.IStream.Decode | Grade.IO/Pods/nanopb/pb_decode.c:1075-1087 | decodes into defaults |
| NanopbDecode.DecodeBuffer | Grade.IO/Pods/nanopb/pb_decode.c:1075-1087 | a message within its bounds, or failure, for every buffer |
| NanopbDecode.BitsDecide | Grade.IO/Pods/nanopb/pb_decode.c:1030-1070 | checking the bits is checking that each of the first 64 required fields was seen |

## Left out

- Runs.RunKeepsInv: assumes that no flush falls in a gap of a manual compaction, because the code then does break the order of a level (`Exactness.GapIff`).
- Runs.RunReadsHistory: assumes besides that no finished compaction exposes an older value, because the code then does change reads (`Exactness.FinishReadsIff`).
- Manifest.VersionSet.LogAndApply: does not fail to write; it assumes that the edit's new files have numbers never used at their level, as those drawn from the counter have.
- Database.DB.FinishCompaction: draws the numbers of the outputs when the compaction finishes, not one by one while it runs; a flush in between takes the earlier number.
- Compaction.DoCompactionWork: does not flush the immutable memtable inside the loop, fail, or stop at shutdown; in the store a flush may come between the start and the end of a compaction.
- Database.DB.constructor: does not write the manifest record of a new database; `Recovery` and `ManifestFile` start from one that is written.
- Database.DB.Write: is without the log record, the queue of writers and the status, which `Durability` and `GroupCommit` have; it does not wrap or check the sequence counter at its maximum, 2^56 - 1, which the code does not check either; it is a precondition.
- Database.DB.CompactMemTable: does not fail, and does not delete obsolete files afterwards, which is a step of its own in `Recovery`.
- Exactness.NoBoundaryKeepsReads: reads the condition when the compaction finishes; `Exactness.WholeRunReadsHistory` has it when the inputs are chosen.
- Manifest.Builder.Apply: does not set the compaction pointers of the levels.
- Manifest.Recover: starts from decoded edits, without comparator names, which `ManifestFile.RecoverManifest` checks, and without compaction pointers.
- Manifest.WriteSnapshot: does not record the comparator's name and the compaction pointers.
- ManifestFile.RecoverManifest: refuses a file whose recorded keys are no internal keys, where the code keeps their bytes unread.
- SkipList.RunFinds: treats every load and store as one sequentially consistent step; memory orders, the relaxed loads of the inserting thread and the random choice of heights are not modelled.
- GroupCommit.RunKeepsInv: the waiting and delays in making room are one step with any outcome.
- Log.Reader.ReadPhysicalRecord: states nothing of damaged blocks.
- Log.Reader.ReadRecord: states nothing of damaged files, resynchronising or the last record's offset.
- Log.ReadAll: covers files that are prefixes of what the writer wrote, read from offset 0; damaged blocks, resynchronising and LastRecordOffset are not modelled, and the checksum is an arbitrary function.
- Durability.RunLosesNothing: assumes that no recorded compaction exposes an older value (`Durability.LogJobReadsIff`). Each file operation is atomic, except that unsynced ends of logs may be lost; the manifest is synced with every record, and log records are whole. Its files have no levels, and its runs are not mapped to runs of the store, which has crashes and levels of its own (`Runs.RunSurvivesCrashes`).
- Recovery.StepKeepsInv: does not name the manifest file and its successor; a recovery writes one record or, when the old manifest is reused and nothing was written out, none.
- NanopbMessage.MessageRoundTrip: is for messages of less than 2^32 bytes, as the decoder reads lengths of 32 bits.
- Completion.JobCompletes: writes one output; that the loop may cut several is in `Compaction.DoCompactionWork`.
- Writes.RunReadsPlayed: is for runs without crashes; after a crash the store reads the history of what was not lost (`Runs.RunSurvivesCrashes`).
- NanopbMessage.ScalarRoundTrip: takes a string as the characters before its terminator, or before the end of its array; default values of strings are taken to have one.
- NanopbEncode.OStream.Encode: assumes sizes below 2^64, so that counting bytes does not wrap.
- NanopbDecode.IStream.DecodeSized: does not model builds in which the type for sizes has fewer than 32 bits.
- MemTable.MemTable.Add: hands the skip list the key in the buffer, which `MemTable.CompareKeys` shows to compare as the buffer does; the height is a parameter. The database object above keeps its memtables and live snapshots as sequences.
- NanopbMerge.ConcatenationMerges: is for messages that were encoded; input of other origin is covered by `NanopbMessage.FieldsInBounds`.
- nanopb callbacks, extensions, pointer fields, fixed-count arrays, singular fields without a presence flag, error texts and builds without 64-bit numbers.
- Output of a merging iterator: compaction and iteration start from one sorted run of the entries merged.
- Status codes of I/O errors, shutdown, corrupt blocks and unparseable keys in iteration and compaction; the retry of a failed background task.
- When a compaction is due: scores, seek statistics and read sampling, which level is chosen, and when writers wait.
- Reference counts: versions, memtables and iterators in use are sets of live things.
- Table and block format, filters, caches, the arena and the file-system interface: a table is its sorted run of entries.
- Repair, dumping, properties, approximate sizes, destroying a database and the C interface.
- The application's own screens and network calls, and the other vendored libraries, which hold declarations and tables of data.
