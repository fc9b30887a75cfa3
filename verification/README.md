# LevelDB and nanopb, modelled and verified

Two libraries under `RoggerBurguerSwift/Pods` are modelled and their central promises proved:

- **LevelDB** keeps a set of user keys in a log, a skip list in memory and sorted tables on disk, and lets readers
  hold a snapshot of it. Its promise is that none of what it does behind their back (switching memtables, flushing,
  compacting, moving and deleting files, crashing and recovering) changes what a read or an iterator finds.
- **nanopb** encodes and decodes protocol buffers driven by a table of fields. Its promise is that the sizing pass
  agrees with the writing pass, and that decoding gives back what was encoded.

What a store has to say is defined once, on the set of all entries ever written (`Reads.ReadAt`: the newest entry of
the key that the snapshot may see). `Runs.EveryRun` states the promise of LevelDB against it, over every run of a
state machine whose steps are those of the program; the classes below follow the program's own code and are proved
against that machine, or against a plain sequence, map or list.

| modules | part of the program |
|---|---|
| `Keys`, `Separators`, `Bytewise` | internal keys and their order, the bytewise comparator |
| `Reads`, `Lookup`, `Versions` | what a read means; `DBImpl::Get`, `Version::Get`, the searches in a level |
| `Inputs`, `Cuts`, `Compactions`, `Reorganise`, `SplitKey` | which files are compacted, what is dropped, and what reads see of it |
| `Builders`, `Installs`, `Manifests`, `Tasks` | version edits, the versions they lead to, and the manifest |
| `Disks`, `Store`, `Writes`, `Background`, `Recovery`, `Runs` | the store as a state machine, its invariant, its runs |
| `LogRecovery`, `DbImpl` | `RecoverLogFile` and `DBImpl` as loops and an object whose state is the machine's |
| `WriteBatch`, `GroupCommit`, `WriteQueue`, `BatchLog`, `ReplayedReads` | write batches, the queue of writers, batches in the log and what they say |
| `Coding`, `Log`, `LogRoundTrip`, `LogTrust` | varints, the log's writer and its reader |
| `Cursors`, `DbIterator`, `Merging`, `TwoLevel`, `Iterators`, `HeldIterators` | the iterators, alone, composed over a whole store, and kept open while it changes |
| `Block`, `Tables`, `Bloom`, `FilterBlock`, `FilteredTables` | blocks, tables, filters, and tables with filters |
| `SkipList`, `MemTable` | the memtable, and its list with a reader beside the writer |
| `LruCache`, `CacheRuns`, `CacheOrder`, `HandleTable`, `CacheImpl` | a cache shard: its books, its runs and their order, its hash table, the object |
| `PbWire`, `PbFields`, `PbEncode`, `PbDecode`, `PbDecoder`, `PbRoundTrip`, `PbRequired`, `PbUnknown` | nanopb: messages out and back |
| `PbPresence`, `PbSigned`, `PbFits`, `PbMerge` | nanopb: what is sent, and what comes of bytes of any origin |

User keys are real numbers above the comparator: every countable total order embeds in them, `Keys.RankOrder` shows
that the bytewise order does, and `Bytewise` carries the shipped separators over. Keys, values and records are bytes
where the program lays out bytes (separators, batches, logs, blocks, filters, messages). Checksums, hashes, block
handles and the comparator are parameters with the properties the code relies on.

## Model

| member | source | states |
|---|---|---|
| Runs.EveryRun | RoggerBurguerSwift/Pods/leveldb-library/db/db_impl.cc:1100-1145 | In every run of the store from its creation (writes, memtable switches, flushes, compactions, trivial moves, file deletions, snapshots, crashes, recoveries cut short or complete, interleaved in any way), a read at the last sequence or at a snapshot that a client has taken and not released answers from all batches that ever reached a log |
| Runs.RunKeeps | RoggerBurguerSwift/Pods/leveldb-library/db/db_impl.cc:669-767 | Every step of such a run keeps the store's invariant, or when it is down the invariant of its disk |
| Runs.RunHolds | RoggerBurguerSwift/Pods/leveldb-library/db/snapshot.h:44-90 | At any point of a run the snapshots in the list are just those that clients have taken and not released, each as often |
| Runs.RunIsSound | RoggerBurguerSwift/Pods/leveldb-library/db/db_impl.cc:1474-1515 | So the invariant holds whenever a store that was created by NewDB is up |
| Runs.EveryTable | RoggerBurguerSwift/Pods/leveldb-library/db/db_impl.cc:223-278 | At any point of any run, every table of a version that an iterator still holds is on disk |
| Runs.RunPinned | RoggerBurguerSwift/Pods/leveldb-library/db/db_impl.cc:1045-1053 | At any point of a run the versions held are just those that iterators opened and have not let go |
| Runs.HistoryIsWritten | RoggerBurguerSwift/Pods/leveldb-library/db/db_impl.cc:1185-1256 | The history that reads are compared with is the set of writes of the batches logged in the run, nothing else |
| Iterators.EveryIterator | RoggerBurguerSwift/Pods/leveldb-library/db/db_impl.cc:1147-1157 | In every run an iterator at a live snapshot shows a key with a value exactly when the newest write that it may see puts that value |
| HeldIterators.KeptIterator | RoggerBurguerSwift/Pods/leveldb-library/db/db_impl.cc:1040-1087 | An iterator that stays open while the run goes on, through writes into its memtable, memtable switches, flushes, compactions and file deletions, keeps its tables and goes on showing what was newest at its snapshot when it was opened |
| DbImpl.DBImpl.NewIterator | RoggerBurguerSwift/Pods/leveldb-library/db/db_impl.cc:1062-1087 | The object hands out the merging iterator over its memtables and its current version, which it holds from then on, together with its last sequence |
| Iterators.StoreView | RoggerBurguerSwift/Pods/leveldb-library/db/db_impl.cc:1062-1087 | Over any store in order, a pair is in the iterator's view exactly when a lookup of its key finds its value |
| Iterators.NewInternalIterator | RoggerBurguerSwift/Pods/leveldb-library/db/version_set.cc:230-248 | The children built for the memtables, the files of level 0 and the deeper levels merge into one sorted run of exactly the store's entries |
| Store.CrashSafe | RoggerBurguerSwift/Pods/leveldb-library/db/db_impl.cc:371-489 | A crash at any moment leaves a disk from which recovery gives back every batch that reached a log |
| Recovery.OpenedKeeps | RoggerBurguerSwift/Pods/leveldb-library/db/db_impl.cc:1474-1515 | From any such disk, the store that DB::Open brings up satisfies the invariant for the same history |
| LogRecovery.RecoverLogs | RoggerBurguerSwift/Pods/leveldb-library/db/db_impl.cc:280-369 | Replaying the logs on such a disk yields tables with exactly their entries under unused numbers, a new log number after all of them, and the last sequence: the manifest's or the last number of some batch in the logs, and none of them beyond it |
| BatchLog.CrashedLog | RoggerBurguerSwift/Pods/leveldb-library/db/db_impl.cc:411-449 | Whatever byte prefix of a log file is left, reading and decoding it gives a prefix of the batches that were logged, as the state machine has them |
| BatchLog.CrashedBatches | RoggerBurguerSwift/Pods/leveldb-library/db/db_impl.cc:411-449 | Those are the batches that are whole in the prefix, each with its number and its operations |
| ReplayedReads.CrashedReads | RoggerBurguerSwift/Pods/leveldb-library/db/write_batch.cc:117-137 | Reading what is replayed from such a prefix finds a value for a key if and only if the last operation on the key, in the batches that are whole, puts that value |
| ReplayedReads.BatchReads | RoggerBurguerSwift/Pods/leveldb-library/db/write_batch.cc:117-137 | The same for one batch, read at its last number |
| DbImpl.DBImpl.Write | RoggerBurguerSwift/Pods/leveldb-library/db/db_impl.cc:1185-1256 | Appends one numbered batch to the log, then puts it into the memtable; the new state is the state machine's |
| DbImpl.DBImpl.GetSnapshot | RoggerBurguerSwift/Pods/leveldb-library/db/db_impl.cc:1166-1169 | The last sequence comes to the snapshots that were there, and nothing else changes |
| DbImpl.DBImpl.ReleaseSnapshot | RoggerBurguerSwift/Pods/leveldb-library/db/db_impl.cc:1171-1174 | Just the snapshot that is released goes |
| DbImpl.Open | RoggerBurguerSwift/Pods/leveldb-library/db/db_impl.cc:1474-1515 | From any such disk, comes up as the state machine does, with the tables, the log number and the last sequence that recovery finds |
| DbImpl.DBImpl.CompactMemTable | RoggerBurguerSwift/Pods/leveldb-library/db/db_impl.cc:535-566 | Flushes the immutable memtable: the tables gain exactly its entries, the manifest records it, and older logs are obsolete |
| DbImpl.DBImpl.BackgroundCompaction | RoggerBurguerSwift/Pods/leveldb-library/db/db_impl.cc:688-767 | Runs a trivial move, or else the compaction of any selection that uncovers nothing, reading the merging iterator over its inputs, as one whole job of the state machine |
| DbImpl.DBImpl.DeleteObsoleteFiles | RoggerBurguerSwift/Pods/leveldb-library/db/db_impl.cc:223-278 | What stays are exactly the logs from the current log number on, the manifests from the current one on, and the tables of the current version and of those that iterators hold, each as it was; and the invariant |
| DbImpl.DBImpl.Get | RoggerBurguerSwift/Pods/leveldb-library/db/db_impl.cc:1100-1145 | At the last sequence or a live snapshot, returns what reading the whole history returns |
| Lookup.Get | RoggerBurguerSwift/Pods/leveldb-library/db/db_impl.cc:1100-1145 | Memtable, immutable memtable and levels, searched in order until one has something to say, give the newest visible entry of the whole store |
| Lookup.GetFromVersion | RoggerBurguerSwift/Pods/leveldb-library/db/version_set.cc:326-421 | Version::Get: the first level with an entry for the key has the newest one |
| Versions.FindFile | RoggerBurguerSwift/Pods/leveldb-library/db/version_set.cc:88-106 | The binary search returns the first file that does not end before the key |
| Versions.SomeFileOverlapsRange | RoggerBurguerSwift/Pods/leveldb-library/db/version_set.cc:126-157 | Says whether some file meets the user-key range, by scan or by binary search |
| Reorganise.CompactionKeepsReadsIff | RoggerBurguerSwift/Pods/leveldb-library/db/db_impl.cc:878-1036 | A compaction keeps every read at every live snapshot if and only if no tombstone that it drops, being newest at the oldest snapshot, hides a value in a file that stays behind the inputs at the output level |
| Reorganise.CompactionKeepsReads | RoggerBurguerSwift/Pods/leveldb-library/db/db_impl.cc:878-1036 | It does so whenever no file behind the inputs at the output level starts with the user key that they end with |
| Reorganise.CompactionReads | RoggerBurguerSwift/Pods/leveldb-library/db/db_impl.cc:878-1036 | For one key and one live snapshot: the read is unchanged if and only if no dropped tombstone that is newest there hides a value outside the inputs |
| Compactions.ReadsPreserved | RoggerBurguerSwift/Pods/leveldb-library/db/db_impl.cc:941-969 | The dropping rule itself, over any sorted input and any entries beside it: the same equivalence, for every key and live snapshot |
| Compactions.DroppedWhen | RoggerBurguerSwift/Pods/leveldb-library/db/db_impl.cc:941-969 | An entry is dropped if and only if no snapshot from the oldest live one on finds it newest, or it is a tombstone that old whose key no deeper level may hold |
| Compactions.DoCompactionWork | RoggerBurguerSwift/Pods/leveldb-library/db/db_impl.cc:878-1036 | The loop writes exactly the kept entries, into files that are disjoint and numbered in order; a file ends exactly when it reaches the size limit, at a stop, or at the end |
| Cuts.ReachesOverLittle | RoggerBurguerSwift/Pods/leveldb-library/db/version_set.cc:1554-1579 | So no output reaches over more of the level below than the limit: the files there that end at or after its first key and before its last |
| Reorganise.MakeInputIterator | RoggerBurguerSwift/Pods/leveldb-library/db/version_set.cc:1237-1277 | The children for the input files merge into the sorted run that the compaction walks |
| Compactions.Compaction.IsBaseLevelForKey | RoggerBurguerSwift/Pods/leveldb-library/db/version_set.cc:1533-1552 | With pointers that only move forward, the answer is whether no file further down has the key in its range |
| SplitKey.DeletedValueComesBack | RoggerBurguerSwift/Pods/leveldb-library/db/version_set.cc:1403-1462 | A run from the creation of the store after which such a selection exists, and its compaction turns a deleted key into a found one |
| Inputs.GetOverlappingInputs | RoggerBurguerSwift/Pods/leveldb-library/db/version_set.cc:519-559 | All files that meet the range; at level 0 for the least wider range that no file sticks out of |
| Inputs.AddBoundaryInputs | RoggerBurguerSwift/Pods/leveldb-library/db/version_set.cc:1371-1401 | Adds a chain of smallest boundary files until none is left |
| Inputs.SetupOtherInputs | RoggerBurguerSwift/Pods/leveldb-library/db/version_set.cc:1403-1462 | The first choice is the given one with its boundary files and all that it meets in the next level; it grows to everything that both reach over exactly when that is more files, all of them are within the size limit, and no more files of the next level are met; and it carries the grandparents of its range |
| Inputs.CleanLeavesNewer | RoggerBurguerSwift/Pods/leveldb-library/db/version_set.cc:1326-1401 | After a clean choice every file left at the level is newer, for each user key, than the chosen ones |
| Installs.ReplacedOk | RoggerBurguerSwift/Pods/leveldb-library/db/version_set.cc:801-884 | Installing a compaction's edit keeps every level disjoint and smaller levels newer |
| Installs.Flushed | RoggerBurguerSwift/Pods/leveldb-library/db/db_impl.cc:491-533 | Installing a flush, at any level that PickLevelForMemTableOutput may pick, does so too and adds just the memtable's entries |
| Builders.BuilderFolds | RoggerBurguerSwift/Pods/leveldb-library/db/version_set.cc:587-755 | Applying a list of edits to one Builder gives the same levels as making a version after every edit |
| Manifests.RecoverySame | RoggerBurguerSwift/Pods/leveldb-library/db/version_set.cc:886-1011 | Replaying the records of a manifest leads to the version that the running store had |
| Tasks.TaskRecorded | RoggerBurguerSwift/Pods/leveldb-library/db/version_set.cc:801-884 | Appending a finished job's record makes the manifest lead to the job's new version |
| WriteQueue.EveryRun | RoggerBurguerSwift/Pods/leveldb-library/db/db_impl.cc:1185-1256 | However writers arrive and groups succeed, or fail with nothing, a fragment or a whole record in the log: everybody finishes once, in order of arrival; the whole records of the log and the memtable hold exactly the operations of those who got there; success means logged, and synced if that was asked for |
| WriteQueue.NoNumberTwice | RoggerBurguerSwift/Pods/leveldb-library/db/db_impl.cc:1185-1256 | In every run sequence numbers in the log and in the memtable rise strictly and stay within the last sequence |
| WriteQueue.BrokenStays | RoggerBurguerSwift/Pods/leveldb-library/db/db_impl.cc:1222-1233 | Once a sync has failed nothing more is written, to the log or to the memtable, and every writer is refused |
| GroupCommit.GroupIsLargest | RoggerBurguerSwift/Pods/leveldb-library/db/db_impl.cc:1260-1306 | The group is the longest front of the queue all of whose members may join |
| GroupCommit.GroupIsFit | RoggerBurguerSwift/Pods/leveldb-library/db/db_impl.cc:1260-1306 | A group is no bigger than its leader alone or the limit, and asks for no more syncing than its leader |
| GroupCommit.MayJoinMeans | RoggerBurguerSwift/Pods/leveldb-library/db/db_impl.cc:1267-1297 | Who may join a group, in numbers: a leader of up to 128 KiB allows as much again, a bigger one 1 MiB in all |
| GroupCommit.BuildBatchGroup | RoggerBurguerSwift/Pods/leveldb-library/db/db_impl.cc:1260-1306 | The loop finds that group and the batch with all its operations in order |
| WriteBatch.InsertInto | RoggerBurguerSwift/Pods/leveldb-library/db/write_batch.cc:132-137 | From arbitrary contents, exactly the parsed operations are inserted, numbered on from the header; the status says whether the contents are well-formed and the count right |
| WriteBatch.IterateContents | RoggerBurguerSwift/Pods/leveldb-library/db/write_batch.cc:42-80 | The loop hands on exactly the operations before the first malformed one |
| WriteBatch.LoggedComesBack | RoggerBurguerSwift/Pods/leveldb-library/db/write_batch.cc:82-114 | A batch built by Put, Delete and Append and then numbered reads back as its number and its operations |
| SkipList.RunKeeps | RoggerBurguerSwift/Pods/leveldb-library/db/skiplist.h:337-368 | While a reader walks and a writer links node after node, one store at a time (the own link of the node, then the link to it), in any interleaving, every level stays an ascending chain and each a sub-list of the one below, and lists only grow |
| SkipList.NeverSkips | RoggerBurguerSwift/Pods/leveldb-library/db/skiplist.h:260-282 | A search whose looks at links run between any stores of any insertions ends right: it never skips a node that was there when it started |
| SkipList.SearchEnds | RoggerBurguerSwift/Pods/leveldb-library/db/skiplist.h:260-282 | While nobody writes, a search ends: some number of looks finds its node |
| SkipList.SkipList.FindGreaterOrEqual | RoggerBurguerSwift/Pods/leveldb-library/db/skiplist.h:260-282 | Returns the first node at or after the key, and at every level the last node before it |
| SkipList.SkipList.Insert | RoggerBurguerSwift/Pods/leveldb-library/db/skiplist.h:336-368 | The list gains just the new key, at its place at every level up to the node's height |
| MemTable.MemTable.Add | RoggerBurguerSwift/Pods/leveldb-library/db/memtable.cc:75-98 | On its skip list the memtable gains just this entry, at its place in the run that the store has for it |
| MemTable.MemTable.Get | RoggerBurguerSwift/Pods/leveldb-library/db/memtable.cc:100-134 | Says what a search of that run says: the newest visible entry, or nothing |
| MemTable.MemTableIterator.Prev | RoggerBurguerSwift/Pods/leveldb-library/db/skiplist.h:205-242 | One back in the run, by a search for the last node before the current one; Next, Seek and the ends likewise follow the index |
| DbIterator.ViewMeaning | RoggerBurguerSwift/Pods/leveldb-library/db/db_iter.cc:168-198 | The user's view of a sorted run holds exactly the keys whose newest visible entry is a value, with that value |
| DbIterator.DBIter.Next | RoggerBurguerSwift/Pods/leveldb-library/db/db_iter.cc:141-198 | Moves to the next pair of the view, also when it comes from reverse |
| DbIterator.DBIter.Prev | RoggerBurguerSwift/Pods/leveldb-library/db/db_iter.cc:200-267 | Moves to the pair before, also when it comes from forward |
| DbIterator.DBIter.Seek | RoggerBurguerSwift/Pods/leveldb-library/db/db_iter.cc:269-281 | Lands on the first pair at or after the target |
| Merging.MergeAllSorted | RoggerBurguerSwift/Pods/leveldb-library/table/merger.cc:148-177 | The merge of sorted runs without a common key is sorted |
| Merging.MergingIterator.Next | RoggerBurguerSwift/Pods/leveldb-library/table/merger.cc:55-79 | Moves one on in the merged run, turning round the other children when it comes from reverse |
| Merging.MergingIterator.Prev | RoggerBurguerSwift/Pods/leveldb-library/table/merger.cc:81-108 | Moves one back, turning them round when it comes from forward |
| TwoLevel.SeekSplits | RoggerBurguerSwift/Pods/leveldb-library/table/two_level_iterator.cc:82-87 | Seeking the index and then one block finds the place in the concatenation of all blocks |
| TwoLevel.TwoLevelIterator.Seek | RoggerBurguerSwift/Pods/leveldb-library/table/two_level_iterator.cc:82-87 | Lands where a seek of the concatenation lands, over empty and exhausted blocks |
| TwoLevel.TwoLevelIterator.Prev | RoggerBurguerSwift/Pods/leveldb-library/table/two_level_iterator.cc:109-139 | Moves to the entry before in the concatenation |
| Tables.TableBuilder.Add | RoggerBurguerSwift/Pods/leveldb-library/table/table_builder.cc:94-123 | The table gains just this entry, wherever blocks are cut and whatever separators are chosen |
| Tables.TableBuilder.Finish | RoggerBurguerSwift/Pods/leveldb-library/table/table_builder.cc:198-238 | The index and the blocks hold exactly the entries added, under index keys that separate the blocks |
| Tables.InternalGet | RoggerBurguerSwift/Pods/leveldb-library/table/table.cc:216-244 | Looking into the one block that the index names finds what a scan of the whole table finds |
| Tables.OneBlockIsEnough | RoggerBurguerSwift/Pods/leveldb-library/table/table.cc:216-244 | Why: when that block ends before the key, the next one starts with another user key |
| Bytewise.ShippedIsLawful | RoggerBurguerSwift/Pods/leveldb-library/util/comparator.cc:29-64 | The bytewise comparator's separator and successor have the properties that tables and lookups rest on |
| Bytewise.ShippedMeans | RoggerBurguerSwift/Pods/leveldb-library/db/dbformat.cc:69-101 | On keys of bytes those options compute just the separators and successors of the code |
| Separators.SeparatorKeyBetween | RoggerBurguerSwift/Pods/leveldb-library/db/dbformat.cc:69-86 | A shortened internal key is at or after the start, before the limit, and never has the limit's user key |
| Separators.FindShortestSeparator | RoggerBurguerSwift/Pods/leveldb-library/util/comparator.cc:29-50 | The byte-by-byte edit yields the recursive separator, of which SeparatorBetween proves that it lies in the gap |
| Separators.SeparatorIs | RoggerBurguerSwift/Pods/leveldb-library/util/comparator.cc:29-50 | Where two keys first differ, by more than one, the separator is the common prefix and the next byte; else the start stays |
| Keys.PackedOrder | RoggerBurguerSwift/Pods/leveldb-library/db/dbformat.cc:14-19 | Comparing the packed words of sequence and type, highest first, is comparing sequence and then type, and a packed word gives both back |
| FilteredTables.FilteredGet | RoggerBurguerSwift/Pods/leveldb-library/table/table.cc:216-244 | Asking the filter first, and not reading the block when it says no, gives the same answer |
| FilteredTables.FilteredTableBuilder.Finish | RoggerBurguerSwift/Pods/leveldb-library/table/table_builder.cc:94-238 | The filter block written beside a table misses no key of any of its blocks |
| FilterBlock.AskBuilt | RoggerBurguerSwift/Pods/leveldb-library/table/filter_block.cc:90-104 | Asking a built filter block at an offset asks the filter of that offset's range, and nothing else |
| FilterBlock.FilterBlockBuilder.Finish | RoggerBurguerSwift/Pods/leveldb-library/table/filter_block.cc:35-49 | Every key that was added matches at the offset it was added for |
| Bloom.FilterMatches | RoggerBurguerSwift/Pods/leveldb-library/util/bloom.cc:28-84 | A key matches a filter exactly when every bit it probes is probed by some key of the filter |
| Bloom.DeltaRotates | RoggerBurguerSwift/Pods/leveldb-library/util/bloom.cc:47-53 | The step between probes is the hash rotated right by 17 bits |
| Block.BlockBuilder.Add | RoggerBurguerSwift/Pods/leveldb-library/table/block_builder.cc:72-106 | The block gains just this pair, with its prefix shared unless a restart is due |
| Block.BlockIter.Seek | RoggerBurguerSwift/Pods/leveldb-library/table/block.cc:163-201 | Binary search over restart points and a scan end at the first entry that is not before the target |
| Block.BlockIter.Prev | RoggerBurguerSwift/Pods/leveldb-library/table/block.cc:142-161 | Back to a restart point and forward again: the entry before |
| Block.SlotDecodes | RoggerBurguerSwift/Pods/leveldb-library/table/block.cc:54-77 | Every record that the builder wrote decodes, by the fast path or the slow one, to its shared length, key rest and value |
| LogRoundTrip.CrashPrefix | RoggerBurguerSwift/Pods/leveldb-library/db/log_reader.cc:56-174 | From any byte prefix of a log the reader returns exactly the records that are whole in it, and reports nothing |
| LogRoundTrip.RoundTrip | RoggerBurguerSwift/Pods/leveldb-library/db/log_writer.cc:34-108 | From a whole log it returns exactly the records that were added |
| LogTrust.AcceptedIsWritten | RoggerBurguerSwift/Pods/leveldb-library/db/log_reader.cc:189-272 | Whatever bytes a file holds, a fragment that the reader accepts stands there just as the writer would have put it, checksum included |
| LogTrust.MismatchIsDropped | RoggerBurguerSwift/Pods/leveldb-library/db/log_reader.cc:244-256 | A fragment whose checksum does not match is not handed on, and the rest of its block is reported as dropped |
| LogTrust.RecordIsWhole | RoggerBurguerSwift/Pods/leveldb-library/db/log_reader.cc:56-174 | A record that is handed on is one full fragment, or a first, middles and a last that follow each other without a gap |
| Log.Writer.AddRecord | RoggerBurguerSwift/Pods/leveldb-library/db/log_writer.cc:34-80 | Appends the fragments of the record, padding a block whose trailer is too small, for any position in a block |
| Coding.VarintRoundTrip | RoggerBurguerSwift/Pods/leveldb-library/util/coding.cc:47-128 | A 32-bit varint reads back as itself, wherever it stands, and is left behind |
| CacheRuns.EveryRun | RoggerBurguerSwift/Pods/leveldb-library/util/cache.cc:217-332 | In every run of a shard, references, lists, table and usage agree, every handle ever made is alive or deleted once, and a lookup finds the latest value or nothing |
| LruCache.EvictMeans | RoggerBurguerSwift/Pods/leveldb-library/util/cache.cc:293-305 | Eviction takes the oldest unheld entries, and no more than needed |
| CacheOrder.OldestGoFirst | RoggerBurguerSwift/Pods/leveldb-library/util/cache.cc:225-249 | In every run, an entry that is evicted was let go by its last client before each unheld entry that stays |
| CacheOrder.EveryOrder | RoggerBurguerSwift/Pods/leveldb-library/util/cache.cc:225-249 | In every run the unheld entries are listed in the order of their last releases |
| CacheOrder.ReleaseLru | RoggerBurguerSwift/Pods/leveldb-library/util/cache.cc:225-249 | An entry that its last client lets go comes behind all unheld ones, whose order stays |
| CacheOrder.EveryHold | RoggerBurguerSwift/Pods/leveldb-library/util/cache.cc:251-270 | In every run the shard counts just the references that clients have got and not released |
| CacheRuns.AllDeletedInTheEnd | RoggerBurguerSwift/Pods/leveldb-library/util/cache.cc:323-336 | When clients hold nothing, pruning has deleted every handle there ever was, each once |
| CacheImpl.LRUCache.Insert | RoggerBurguerSwift/Pods/leveldb-library/util/cache.cc:266-305 | The object's fields and its hash table follow the books of LruCache, in the order in which the code updates them |
| HandleTable.HandleTable.Insert | RoggerBurguerSwift/Pods/leveldb-library/util/cache.cc:78-92 | The buckets agree with a map from names to handles, also when the table is resized on the way |
| PbEncode.OStream.Encode | RoggerBurguerSwift/Pods/nanopb/pb_encode.c:528-550 | On a sizing or a bounded stream, succeeds if and only if the message is sound and its encoding fits, and then appends exactly that encoding |
| PbEncode.GetEncodedSize | RoggerBurguerSwift/Pods/nanopb/pb_encode.c:567-577 | The sizing pass counts exactly the bytes that the writing pass emits |
| PbEncode.EncodeToBuffer | RoggerBurguerSwift/Pods/nanopb/pb_encode.c:86-132 | Encoding into a buffer succeeds if and only if that size fits, and fills it with the message |
| PbPresence.SentWhen | RoggerBurguerSwift/Pods/nanopb/pb_encode.c:341-428 | Which fields are sent: required ones always, singular ones when not zero, optional ones and arms when marked, arrays when not empty |
| PbPresence.ZeroMeans | RoggerBurguerSwift/Pods/nanopb/pb_encode.c:240-328 | What zero means for each kind of field |
| PbPresence.RangeMeans | RoggerBurguerSwift/Pods/nanopb/pb_decode.c:1329-1412 | Which numbers a field of each width can hold |
| PbDecoder.DecodeNoInit | RoggerBurguerSwift/Pods/nanopb/pb_decode.c:925-1073 | The loop with its field iterator and its bit set of required fields computes the recursive meaning of decoding, for any bytes |
| PbDecoder.DecodeVarint32 | RoggerBurguerSwift/Pods/nanopb/pb_decode.c:187-252 | The loop with its eight-bit position counter and its overflow tests computes the recursive meaning, for any bytes |
| PbRoundTrip.DecodeBack | RoggerBurguerSwift/Pods/nanopb/pb_decode.c:1075-1087 | For every static message tree: decoding its encoding gives back presence, counts and values if and only if every text in it is terminated within its buffer, and rejects it otherwise |
| PbFits.DecodedFits | RoggerBurguerSwift/Pods/nanopb/pb_decode.c:1075-1087 | Whatever bytes are decoded, if they are accepted every number is in the range of its field, every text and array within its buffer, and of the arms of a union at most one is there |
| PbFits.DecodedGoesOn | RoggerBurguerSwift/Pods/nanopb/pb_encode.c:528-550 | So what was decoded can be encoded, and decoding that gives it back |
| PbMerge.LastOneWins | RoggerBurguerSwift/Pods/nanopb/pb_decode.c:406-485 | Of two values for one field the later one counts, whatever follows |
| PbMerge.PartIsOnTop | RoggerBurguerSwift/Pods/nanopb/pb_decode.c:1503-1525 | A submessage that comes again is decoded on top of what was there |
| PbMerge.PackedAppended | RoggerBurguerSwift/Pods/nanopb/pb_decode.c:419-467 | A packed array in parts and one value at a time come to the same |
| PbMerge.ShortNegative | RoggerBurguerSwift/Pods/nanopb/pb_decode.c:1329-1364 | A negative number sent in five bytes by another encoder comes through |
| PbRoundTrip.FullTextIsRejected | RoggerBurguerSwift/Pods/nanopb/pb_encode.c:875-901 | A text of one byte in a buffer of one byte is encoded as 10, 1, 97, and the decoder rejects that |
| PbUnknown.UnknownIsSkipped | RoggerBurguerSwift/Pods/nanopb/pb_decode.c:952-990 | A field with a tag that the message type does not know, of any kind and rule, behind known fields and before any bytes, leaves the result of decoding as it was |
| PbUnknown.SkipsValue | RoggerBurguerSwift/Pods/nanopb/pb_decode.c:321-331 | For every kind and value, the wire type sent with it makes the decoder skip just its bytes |
| PbRequired.MissingRequired | RoggerBurguerSwift/Pods/nanopb/pb_decode.c:1040-1066 | An otherwise well-formed message is rejected if and only if a required field with less than 64 others before it is absent |
| PbRequired.MissingAmong64 | RoggerBurguerSwift/Pods/nanopb/pb_decode.c:1040-1066 | With at most 64 required fields: if and only if some required field is absent |
| PbRequired.LastFlagIsNotMissed | RoggerBurguerSwift/Pods/nanopb/pb_decode.c:925-1073 | For every number of required fields above 64 that tags can tell apart there is a message type and a message without its last required field that is accepted |
| PbFields.FieldIter.Find | RoggerBurguerSwift/Pods/nanopb/pb_common.c:78-95 | Searching once around from anywhere finds a field with the tag if there is one, and else ends where it began |
| PbWire.Varint64RoundTrip | RoggerBurguerSwift/Pods/nanopb/pb_encode.c:608-628 | A 64-bit varint reads back as itself, whatever follows |
| PbWire.Varint32RoundTrip | RoggerBurguerSwift/Pods/nanopb/pb_decode.c:187-252 | So does one that is read as 32 bits |
| PbSigned.NegativeBack | RoggerBurguerSwift/Pods/nanopb/pb_decode.c:187-247 | A negative 32-bit number, sent in ten bytes, is read as its 32 bits |
| PbSigned.TooBig | RoggerBurguerSwift/Pods/nanopb/pb_decode.c:187-247 | Other numbers that do not fit 32 bits are rejected |

## Findings

Three properties that one would expect do not hold of the code as it is. Each has an input that shows it and its
exact condition.

- **A compaction can bring a deleted value back.** `SetupOtherInputs` (`db/version_set.cc:1403-1462`) adds the files
  that go on with the last user key of the inputs at the compacted level, but not at the output level. When an
  earlier compaction, made while a snapshot held two entries of one user key, split them over two files of the output
  level, a later compaction can take in the first file alone. Its tombstone is dropped, because no deeper level has
  the key, and the older value in the second file is seen again. `SplitKey.DeletedValueComesBack` is a run from an
  empty store to such a moment, by writes, flushes, a compaction and a released snapshot only.
  `Reorganise.CompactionKeepsReadsIff` is the exact condition; `Reorganise.CompactionKeepsReads` is a guard that a
  caller can read off the files: none behind the inputs at the output level starts with the user key that they end
  with.
- **nanopb encodes text that it cannot decode.** The encoder takes a text that fills its whole buffer without a
  terminator (`pb_encode.c:875-901`); the decoder wants room for the terminator (`pb_decode.c:1468-1499`).
  `PbRoundTrip.FullTextIsRejected` is such a message, and `PbRoundTrip.DecodeBack` states that a message comes back
  if and only if all its texts are terminated within their buffers.
- **nanopb does not miss a required field beyond the 64th.** Its bit set has 64 places by default
  (`pb.h:135-137`, `pb_decode.c:1010-1066`). `PbRequired.MissingRequired` states which fields are demanded,
  `PbRequired.LastFlagIsNotMissed` shows accepted messages without a required field for every larger number, and
  `PbRequired.MissingAmong64` that up to 64 the promise holds.

## Left out

- Runs.EveryRun: admits a compaction if and only if it uncovers nothing (Reorganise.NoneUncovered), since
  Reorganise.CompactionKeepsReadsIff and SplitKey show that reads change otherwise; a memtable is flushed between
  compactions and not inside one, because a flush may land in a key gap of a running manual compaction.
- Runs.RunKeeps: has the same two limits on compactions.
- HeldIterators.KeptIterator: the iterator's runs are merged afresh at each moment; that a cursor under way keeps its
  place while its memtable grows is not stated.
- DbImpl.DBImpl.BackgroundCompaction: asks the same of a selection that is no trivial move; which level and file to
  begin with is up to the caller, since scores are floating-point and seek statistics are not modelled.
- MemTable.MemTable.Add: a value is kept beside its key and not in the same bytes; the height of a node is a parameter.
- SkipList.NeverSkips: interleaves sequentially consistent steps, with no weaker memory ordering, and says nothing of
  whether a reader beside endless insertions ends.
- LogRoundTrip.CrashPrefix: starts at offset 0 with checksums on; resynchronising from another offset and
  `LastRecordOffset` are not modelled.
- BatchLog.CrashedLog: recovery of the state machine reads whole batches; that a torn log file leaves just such a
  prefix of them is what this lemma shows, and the machine itself has no torn log.
- WriteQueue.EveryRun: what a reader makes of records behind the fragment of a failed append is not part of it.
- GroupCommit.BuildBatchGroup: the temporary batch that a group is collected in is a value, so that it is not the
  leader's own is not captured.
- HandleTable.HandleTable.Insert: each bucket's chain is a sequence, not linked handles.
- Bloom.FilterMatches: the number of probes is a parameter; 0.69 times the bits per key is floating point.
- Tables.InternalGet: block handles are values whose encoding is a parameter; corrupt blocks, compression and
  checksums of tables are not modelled.
- PbEncode.OStream.Encode: streams that only count and streams over a buffer; custom streams, callbacks, extensions,
  pointer fields and arrays of fixed count are not modelled, and PB_SIZE_MAX is taken as implied by the sizes.
- PbDecoder.DecodeNoInit: has the same limits on kinds of fields; field number 0 in a type without fields is left
  out.
- Paths of I/O errors and corrupt internal keys, sequence numbers that run out, reuse of logs, the previous-log number
  of old manifests, and the manifest's snapshot record at the level of its numbers.
- The byte encoding of version edits: manifest records are values.
- Iterators over the store are built on sorted sequences; `MemTable` and `Block` show that a memtable and a block are
  walked as such, for a memtable nobody writes to and for a block's own byte keys.
- The re-check of validity in `DBIter::Next` that can never find its iterator invalid.
- Sizes of files are abstract, and a file's record carries its entries; `history` and `floor` exist for specification
  only.
- Snappy, CRC32C, hashes, the environment, the C binding, repair and dumping tools.
- The Swift and Flutter applications and all other pods, which are user interface and glue.
