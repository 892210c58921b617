# cwinux-mq: a verified model of the log, its replication and its small durable structures

cwinux-mq is a persistent message queue. Messages get a sid and are appended to a binlog that is split over
files; other hosts read the binlog through a replication session of several connections; readers keep
checkpoints in small files that survive crashes. This project models that logic in Dafny and proves what
each layer promises to the next one. Sources are cited as `path:line`, relative to the repository's root.

## Layers

- **Bytes and records** (`Bytes`, `BinLogFormat`): the big-endian header and index codecs, and what a data
  file holds for a sequence of records, byte for byte.
- **One file** (`BinLogCursor`, `BinLogRecovery`, `BinLogFile`): class `Cursor` reads through a cached 64K
  block; class `File` appends, keeps its index partly on disk and partly in a write cache, looks sids up, and
  rebuilds the index after a crash. A file is its bytes; between two calls of a cursor it may have grown.
- **The manager** (`MgrSpec`, `MgrInvariant`, `MgrAppends`, `MgrCursors`, `MgrReopen`, `MgrRuns`,
  `BinLogMgr`): `MgrSpec` is the manager as a state and its operations as functions. The theorems are about
  these functions: what appends keep, which file they write and which they drop, where cursors stand, what a
  crash leaves and what opening it again finds, and what a whole run of all these does. Class `Manager` works
  on `File` objects in place, and each of its methods is proved to be the corresponding function of `MgrSpec`.
  The ghost state is the files that were put out of management.
- **Issuing sids** (`SidIssue`, `SidReissue`, `MqRecv`): the application's sid counter over that manager, with
  batches, flush failures, crashes that lose what is not flushed, and restarts. `SidReissue` has the runs in
  which sids are issued twice, and so the exact conditions. Class `RecvHandler` takes messages on a `Manager`.
- **Replication** (`FlatLog`, `ReplSpec`, `ReplInvariant`, `ReplRuns`, `ReplTheorems`, `ReplCheckpoint`,
  `ReplDelivery`, `ReplBinlog`, `ReplSender`, `ReplReceiver`): a sender with any number of receivers that
  report under one source, each with one FIFO channel each way per connection, and steps in any interleaving:
  appending, opening, joining, sending, receiving with and without failure, acknowledging, late
  acknowledgements of a closed session, closing, and restarting a receiver. Classes `DispSession` and
  `DispHandler` are the sender in place, reading the log through a cursor of a `Manager`; `McSyncSession` and
  `Receiver` are the other end. Both are proved against the functions of the protocol.
- **Checkpoint file** (`SidLog`): a register kept as a log of lines, with its three-file rename protocol. The
  class records every moment between two atomic file operations, and each of them is proved to recover.
- **Small structures**: the collector's bounded queue (`McQueue`), delivery bookkeeping (`MqQueue`), the
  Python package codec (`Package`), the sparse index of the binlog browser (`BinlogOp`).

## What was found in the code

- A first append with sid 0 on an empty manager is turned down only after an empty file has been put under
  management; later the manager reports a wrong oldest sid (`MgrInvariant.FirstSidZeroBreaksMinSid`). Well-
  formedness is kept by every append exactly when it is not that one (`MgrInvariant.AppendKeepsWellFormed`).
- A record whose header is complete but whose data is torn is kept by recovery, its data padded with zeros:
  `ftruncate` to the scanned size extends the file (`BinLogRecovery.RecoveredBytes`).
- An empty index file is always rebuilt, even for an empty data file (`BinLogRecovery.NeedsRebuild`).
- With `max_file_num=1` and `del_out_file=yes`, the first append of a new day deletes the only file that has
  records before it has written its own; a crash in between makes the manager forget all sids
  (`MgrReopen.OneFileForgets`, in general `MgrReopen.OpenForgets`). So does, with `max_file_num=2`, a record too
  large for any file on a new day, which rolls over twice (`MgrReopen.TooLargeOnNewDay`). The server then issues
  acknowledged sids again. No run does so if and only if deletion is off or the file limit is at least 3, or at
  least 2 where no record is too large (`SidReissue.ReissueCondition`, `SidReissue.SmallReissueCondition`).
- The sid of a run's first record is issued again exactly if a crash takes that record before it is settled; it
  has not been acknowledged then (`SidIssue.RestartIsAhead`, `SidIssue.FirstIsReissued`).
- The test for room in a file adds 32-bit words: for data of nearly 4G the sum wraps round and the record is
  said to fit (`BinLogFile.RoomTestIsExact`, `BinLogFile.LongDataPasses`).
- `recvReport` (mq/mq/CwxMqDispHandler.cpp:254-264) compares the file name of each session, path and all, with
  the bare name reported. A second session under one source is therefore refused only if the configured path is
  empty, which it never is (`ReplTheorems.SecondSessionRefusedIff`), unless the lock of the checkpoint file,
  which is not part of this model, refuses it. The checkpoint belongs to the source: with several receivers
  nothing is lost to all of them (`ReplTheorems.ResumeLosesNothing`), but one may resume beyond what it has saved
  itself (`ReplTheorems.SecondReceiverMisses`), which a single receiver never does
  (`ReplTheorems.OnlyReceiverHasAll`).
- A receiver that has saved nothing resumes from the checkpoint file each time. After a crash of the sender the file
  may hold a smaller sid than before, and the receiver then saves records at or below the one it first resumed from
  (`ReplCheckpoint.CheckpointGoesBack`); it does so exactly if such records are in the log
  (`ReplCheckpoint.AboveCheckpointIff`).
- For a session with a source the start sid is not compared with the oldest record retained
  (mq/mq/CwxMqDispHandler.cpp:323): the seek lands on the first record wanted if and only if none above the start
  sid has been dropped (`ReplBinlog.SeekLands`).
- A record that cannot be unpacked ends the session's reading: the loop moves the cursor but looks at the same
  data again, so that neither it nor any record then behind it is sent (`ReplSender.BadRecordLosesRest`).
- `next` follows straight after `seek` in `fetchNextBinlog`, so a queue passes over the first record above
  its start sid (`MqQueue.FirstRecordIsPassedOver`).
- A queue item whose key is already there is dropped but its size is counted (`McQueue.SizeIsExactIff`); the
  eviction loop ends exactly as long as the sizes so counted are within the limit (`McQueue.DriftDecides`).
- The queue's timeout loop adds 32-bit words, and the timeout is not bounded: it keeps exactly the items within
  the timeout if and only if the sum for the oldest of these does not wrap below the cutoff
  (`McQueue.TimeoutKeepsRecent`). With `cache_second=3000000000` it empties a queue of today's items, all within
  the timeout, and runs on (`McQueue.WrapEmptiesQueue`).
- `unpack` never ends exactly on the messages in which an entry of size 0 is met, at any depth
  (`Package.UnpackEnds`); packing drops empty lists and unwraps lists of one item (`Package.RoundTripIsExact`).
- The browser's search for sid 0 in an empty file, and its search for record number 2^32 - 1, step outside
  the index (`BinlogOp.Browser.DoSid`, `BinlogOp.Browser.DoRecord`).

## Model

| member | source | states |
|---|---|---|
| `BinLogFormat.HeaderRoundTrip` | mq/common/CwxBinLogMgr.inl:99-151 | a 32-byte header is read back as it was written, for all fields within their widths |
| `BinLogFormat.IndexRoundTrip` | mq/common/CwxBinLogMgr.inl:250-289 | so is a 20-byte index entry |
| `BinLogFormat.HeaderLayout` | mq/common/CwxBinLogMgr.inl:99-151 | which bytes of an encoded header are which field: eight 4-byte words in network order, the wide fields with their high half first |
| `BinLogFormat.DecodedLayout` | mq/common/CwxBinLogMgr.inl:99-151 | and from which bytes each field of a decoded header comes, for any 32 bytes |
| `BinLogFormat.IndexLayout` | mq/common/CwxBinLogMgr.inl:250-289 | the same for the five words of an index entry |
| `BinLogFormat.Positions` | mq/common/CwxBinLogMgr.cpp:440-480 | in a file whose records continue one another, later records have larger sids and start where or after earlier ones end |
| `BinLogFormat.RecordAt` | mq/common/CwxBinLogMgr.cpp:446-478 | the header of each record lies in the file's bytes at the offset it names |
| `BinLogCursor.Cursor.PreadPage` | mq/common/CwxBinLogMgr.cpp:127-154 | the cached block is always a prefix of that block of the file, filled as far as asked or to the end of the file |
| `BinLogCursor.Cursor.Pread` | mq/common/CwxBinLogMgr.cpp:157-221 | the cached read over first, middle and last block returns exactly the bytes of the file from the offset up to the shorter of the request and the end |
| `BinLogCursor.Cursor.GrowthKeepsCache` | mq/common/CwxBinLogMgr.cpp:127-154 | the cache stays good while the file grows |
| `BinLogCursor.Cursor.ToHeader` | mq/common/CwxBinLogMgr.cpp:102-125 | moved, at end, torn header, or not at its own offset, as the uncached file says; header and state change accordingly |
| `BinLogCursor.HeaderAccepted` | mq/common/CwxBinLogMgr.cpp:102-125 | the header at an offset is accepted if and only if its 32 bytes are there and the offset they hold is that one; at end and torn are told apart by the length of the file |
| `BinLogCursor.Cursor.Next` | mq/common/CwxBinLogMgr.inl:301-312 | from the start when not yet sought, else to the offset after the record; nothing moves in the error state |
| `BinLogCursor.Cursor.Prev` | mq/common/CwxBinLogMgr.inl:314-328 | along the previous-offset chain, to the start when not yet sought; at end on the first record, and nothing moves in the error state |
| `BinLogCursor.Cursor.Seek` | mq/common/CwxBinLogMgr.inl:330-342 | the state after a seek is ready, error or not sought, as the header found says |
| `BinLogCursor.Cursor.Data` | mq/common/CwxBinLogMgr.cpp:52-92 | the data of the record under the cursor, all of it or as much as the file has, if the buffer is large enough, for every header that can have been read |
| `BinLogCursor.RecordIsFound` | mq/common/CwxBinLogMgr.cpp:102-125 | a record of a file is found under its own offset, whatever follows it |
| `BinLogCursor.DataIsFound` | mq/common/CwxBinLogMgr.cpp:52-92 | and its data is read as it was written |
| `BinLogCursor.TornRecordIsFound` | mq/common/CwxBinLogMgr.cpp:102-125 | after whole records a cursor meets nothing, a torn header, or a header whose data is cut short, of which it reads what is there |
| `BinLogRecovery.CreateIndex` | mq/common/CwxBinLogMgr.cpp:1023-1063 | writing entries over any prefix of the true index and truncating leaves exactly the entries of the headers the scan finds, and the size at which they end |
| `BinLogRecovery.ScanFindsRecovered` | mq/common/CwxBinLogMgr.cpp:1030-1050 | the scan of a crash-left file reads the header of each record whose 32 bytes are complete, and no other |
| `BinLogRecovery.RecoveredBytes` | mq/common/CwxBinLogMgr.cpp:1052-1062 | the data file recovery leaves is that of the recovered records, the torn one padded with zeros |
| `BinLogRecovery.NeedsRebuild` | mq/common/CwxBinLogMgr.cpp:990-1020 | the index is kept exactly when it was complete, the data is not torn, and there is a record |
| `BinLogRecovery.Recover` | mq/common/CwxBinLogMgr.cpp:939-987 | from whole records, a torn prefix of one more and any byte prefix of the index: afterwards the index lists exactly the records whose header is complete, and the data file is theirs |
| `BinLogFile.CrashOfOpenFile` | mq/common/CwxBinLogMgr.cpp:264-281 | a file stopped while it wrote a record, or part of its write cache, is one the recovery is proved for |
| `BinLogFile.File.Open` | mq/common/CwxBinLogMgr.cpp:317-405 | opening after a crash: records, index and counters agree on the recovered records; rebuilt exactly when the index was not complete |
| `BinLogFile.File.Prepare` | mq/common/CwxBinLogMgr.cpp:948-985 | size, number, least and largest sid, first and last timestamp and last offset are those of the records the index lists |
| `BinLogFile.File.FlushIndex` | mq/common/CwxBinLogMgr.cpp:264-281 | a flush empties the cache and moves its bounds; disk and cache together stay the records' index |
| `BinLogFile.File.CacheEntry` | mq/common/CwxBinLogMgr.cpp:245-261 | an entry goes into the cache; the index file changes exactly when the cache held 16384, which are then written out |
| `BinLogFile.File.Append` | mq/common/CwxBinLogMgr.cpp:410-497 | full exactly when the record and the 4 MiB tail do not fit, rejected exactly when read-only or the first sid is 0, else exactly the next record is added, the size stays 4 MiB below the limit, and the least timestamp seen and the last are kept |
| `BinLogFile.RoomTestIsExact` | mq/common/CwxBinLogMgr.cpp:415-417 | the 32-bit test for room is right for exactly the lengths whose sum does not wrap round below the limit of the file |
| `BinLogFile.LongDataPasses` | mq/common/CwxBinLogMgr.cpp:415-417 | an empty file of any limit is said to have room for data of 2^32 - 4 MiB - 32 bytes |
| `BinLogFile.File.SetReadOnly` | mq/common/CwxBinLogMgr.inl:473-488 | a closed file has its whole index on disk |
| `BinLogFile.File.Upper` | mq/common/CwxBinLogMgr.cpp:536-611 | the lookup equals a linear search for the least sid above, however the index is split between disk and cache |
| `BinLogFile.BinarySearch` | mq/common/CwxBinLogMgr.cpp:570-605 | the unsigned binary search ends, never passes below zero, never reads past the flushed entries, and finds the entry above the sid |
| `MgrSpec.FileFor` | mq/common/CwxBinLogMgr.cpp:1737-1745 | the first file whose largest sid is above the one sought |
| `MgrSpec.AboveIndex` | mq/common/CwxBinLogMgr.cpp:1811-1813 | the first file with a number above the cursor's |
| `MgrSpec.LowerIndex` | mq/common/CwxBinLogMgr.cpp:1881-1884 | the first file with a number not below the cursor's |
| `MgrInvariant.RollKeeps` | mq/common/CwxBinLogMgr.cpp:1344-1392 | starting a new file keeps the history, consecutive file numbers, the current file, and every ready cursor's place |
| `MgrInvariant.WriteLastKeeps` | mq/common/CwxBinLogMgr.cpp:1394-1416 | writing adds one record to the history with header fields of its position, and moves the sid bounds |
| `MgrInvariant.AppendOutcome` | mq/common/CwxBinLogMgr.cpp:1297-1486 | an append of a larger sid adds exactly its record, whichever rollover it takes; it fails, for good, exactly when the record is not shorter than limit - 4 MiB - 32 |
| `MgrInvariant.AppendTurnedDown` | mq/common/CwxBinLogMgr.cpp:1326-1337 | a sid not above the largest changes nothing |
| `MgrInvariant.AppendKeepsWellFormed` | mq/common/CwxBinLogMgr.cpp:1297-1486 | ascending sids within and across files, layout, bounds and cursors are kept by every append, exactly unless it is a first append with sid 0 |
| `MgrInvariant.FirstSidZeroBreaksMinSid` | mq/common/CwxBinLogMgr.cpp:1302-1350 | a run in which the manager then reports its newest sid as its oldest |
| `MgrInvariant.DroppedRecordsAreRead` | mq/common/CwxBinLogMgr.inl:714-733 | no record of a file the eviction drops is at or above what any registered cursor needs |
| `MgrInvariant.AppendDropsOnlyRead` | mq/common/CwxBinLogMgr.cpp:1370-1388 | so it is for whole appends, successful or not |
| `MgrAppends.EvictsExactly` | mq/common/CwxBinLogMgr.inl:714-733 | the other half too: the files dropped are over the limit and below every cursor, and the oldest one kept is within the limit, or some cursor is not above it, a ready one by the record it stands on and any other by the sid it was sought with |
| `MgrAppends.AppendFreesFiles` | mq/common/CwxBinLogMgr.cpp:1370-1392 | so after every append that starts a file, successful or not, the row of files is within the limit or held so by a cursor |
| `MgrAppends.AppendPlaces` | mq/common/CwxBinLogMgr.cpp:1297-1486 | the record goes to the end of the current file, unless the day is later or that file has no room; then it is the first of a file with the next number, of the new day or of the same; the first file has number 1 |
| `MgrCursors.NeverOutOfRange` | mq/common/CwxBinLogMgr.inl:567-573 | the asserted condition: a cursor on a record is never below the manager's least sid |
| `MgrCursors.SeekFinds` | mq/common/CwxBinLogMgr.cpp:1720-1765 | seek places the cursor on the first managed record above the sid, or says that there is none; it never fails |
| `MgrCursors.NextMoves` | mq/common/CwxBinLogMgr.cpp:1768-1828 | next moves by exactly one record of the history, within and across files, or says at end and stays |
| `MgrCursors.PrevMoves` | mq/common/CwxBinLogMgr.cpp:1831-1899 | prev moves back by exactly one record; at the oldest managed record, and only there, the source steps before the first file |
| `MgrCursors.PrevUndoesNext` | mq/common/CwxBinLogMgr.cpp:1831-1899 | from every record but the newest, next then prev returns to it |
| `MgrCursors.FetchReads` | mq/common/CwxBinLogMgr.cpp:1902-1926 | fetch gives the data of the record of the history the cursor stands on |
| `MgrCursors.Refused` | mq/common/CwxBinLogMgr.cpp:1720-1926 | a failed manager, and a cursor that is not ready, refuses each operation, an append too, and leaves the cursor where it is; so does a buffer too small for the record, which puts it in the error state |
| `MgrRuns.RunKeepsWellFormed` | mq/common/CwxBinLogMgr.h:529-560 | well-formedness over every run of appends, cursor operations and crashes with what is left opened again |
| `MgrRuns.StepEffect` | mq/common/CwxBinLogMgr.cpp:1768-1828 | in a run nothing moves a ready cursor but its own operations |
| `MgrRuns.Answers` | mq/common/CwxBinLogMgr.cpp:1297-1486 | an append answers success exactly if its record was added, and that exactly for a larger sid and a record not too large; otherwise the history is unchanged; a cursor is registered from create to destroy |
| `MgrRuns.CrashTakes` | mq/common/CwxBinLogMgr.cpp:1195-1264 | what a crash takes in a run: the cursors and the unflushed end of the current file; a torn record with a whole header is added, its data padded with zeros |
| `MgrRuns.CursorReadsEverything` | mq/common/CwxBinLogMgr.cpp:1768-1828 | over any run the records a cursor is moved to are exactly those that follow it, in order and once each |
| `MgrRuns.SeekThenRead` | mq/common/CwxBinLogMgr.cpp:1720-1828 | after seek the current record and those next gives are exactly the log's records above the sid; "at end" means none is missing |
| `MgrRuns.EndReported` | mq/common/CwxBinLogMgr.cpp:1808-1827 | "at end" is answered exactly on the newest record |
| `MgrRuns.RunDropsOnlyRead` | mq/common/CwxBinLogMgr.cpp:1434-1452 | retention over runs: whatever was dropped lies below what each surviving cursor still needs, ready or not |
| `MgrRuns.NewCursorPins` | mq/common/CwxBinLogMgr.cpp:1607-1616 | a registered cursor pins the log from its sid on: until it is sought or destroyed no run drops a record at or above that sid |
| `MgrReopen.ReopenedKeeps` | mq/common/CwxBinLogMgr.cpp:1195-1260 | what a crash leaves, any unflushed end of the current file lost and perhaps a torn record added, is opened as exactly the records left; the result is well-formed if and only if not all sids are forgotten, a condition on the files and the crash |
| `MgrReopen.OpenForgets` | mq/common/CwxBinLogMgr.cpp:1195-1260 | an open manager forgets its sids exactly if it deletes files, has put records out, manages one file, and the crash leaves neither a record nor a whole header in that |
| `MgrReopen.AppendRemembers` | mq/common/CwxBinLogMgr.cpp:1344-1392 | an append that starts a file, with a file limit of at least 3, or of 2 and a record that some file can take, leaves an older file with records under management |
| `MgrReopen.OneFileForgets` | mq/common/CwxBinLogMgr.cpp:1344-1381 | with a file limit of 1, one record, the next day, and a crash before that day's first record: the manager has no sid left |
| `MgrReopen.TooLargeOnNewDay` | mq/common/CwxBinLogMgr.cpp:1344-1486 | with a file limit of 2, a record too large for any file on a new day leaves two new files, and none with records, under management |
| `MgrReopen.KeptInOrder` | mq/common/CwxBinLogMgr.cpp:1235-1255 | the files kept have ascending sids, so the order test of init never fails on what a crash leaves |
| `BinLogMgr.Manager.Init` | mq/common/CwxBinLogMgr.cpp:1195-1264 | opens the files newest first, those out of management that were not deleted too, drops empty ones and takes the sid bounds: the state `MgrReopen.Reopened`; the order test never fails |
| `BinLogMgr.Manager.IsManaged` | mq/common/CwxBinLogMgr.inl:714-733 | kept if and only if within the file limit, or not below the record some ready cursor stands on or the sid some other cursor was sought with |
| `BinLogMgr.Manager.Evict` | mq/common/CwxBinLogMgr.cpp:1370-1381 | the loop drops the oldest files as long as they are over the limit and below every cursor, and stops at the first that is not |
| `BinLogMgr.Manager.Roll` | mq/common/CwxBinLogMgr.cpp:1344-1392 | closes the current file, opens the next, evicts, and sets the least sid, as `MgrSpec.Roll` |
| `BinLogMgr.Manager.Write` | mq/common/CwxBinLogMgr.cpp:1394-1416 | writes exactly when there is room, as `MgrSpec.WriteLast` |
| `BinLogMgr.Manager.Append` | mq/common/CwxBinLogMgr.cpp:1297-1486 | the whole append on real files is `MgrSpec.AppendStep` |
| `BinLogMgr.Manager.Commit` | mq/common/CwxBinLogMgr.cpp:1496-1525 | a commit empties the write cache of the current file and changes no record; it fails exactly on a failed manager |
| `BinLogMgr.Manager.Seek` | mq/common/CwxBinLogMgr.cpp:1720-1765 | seek over the files' own indexes is the seek of the model |
| `BinLogMgr.Manager.Next` | mq/common/CwxBinLogMgr.cpp:1768-1828 | next over the files' bytes is the step of the model |
| `BinLogMgr.Manager.Prev` | mq/common/CwxBinLogMgr.cpp:1831-1899 | so is prev |
| `BinLogMgr.Manager.Fetch` | mq/common/CwxBinLogMgr.cpp:1902-1926 | so is fetch; a failed fetch puts the cursor in the error state |
| `BinLogMgr.SeekCached` | mq/common/CwxBinLogMgr.cpp:699-722 | opening and seeking with a cursor object and its block cache is the seek of the model |
| `BinLogMgr.NextCached` | mq/common/CwxBinLogMgr.inl:301-312 | so is its step forward, also when the file has grown since the cache was filled |
| `BinLogMgr.PrevCached` | mq/common/CwxBinLogMgr.inl:314-328 | so is its step back |
| `BinLogMgr.FetchCached` | mq/common/CwxBinLogMgr.cpp:52-92 | so is its reading of data, which leaves the cursor where it is |
| `ReplInvariant.PackTakes` | mq/mq/CwxMqDispHandler.cpp:588-612 | the packing loop takes records of the log one after the other, without a gap |
| `ReplInvariant.SendTakes` | mq/mq/CwxMqDispHandler.cpp:576-645 | a call ships the next records, and nothing only when all has been shipped or nothing is above the start |
| `ReplInvariant.SendRoutes` | mq/mq/CwxMqDispHandler.cpp:636-644 | sending on a free connection keeps packets, connections and reorder buffer in step |
| `ReplCheckpoint.EveryTurnSends` | mq/mq/CwxMqDispHandler.cpp:483-571 | opening a session, joining, each reply and each further try is a turn of its connection alone: one packet of the next records goes out on it under the next number, or it waits, and it waits if and only if all of the log above the start has been sent |
| `ReplInvariant.AnsweredIsFree` | mq/mq/CwxMqDispHandler.cpp:459-511 | a connection whose reply has come has nothing else under way |
| `ReplInvariant.RecvGives` | mq/mc/CwxMcSyncHandler.h:55-79 | an arriving packet sets free a run of packets in exactly the order they were sent |
| `ReplInvariant.ReplyReaches` | mq/mc/CwxMcSyncHandler.cpp:378-392 | each finished packet is answered once, on the connection it came on |
| `ReplRuns.StepKeeps` | mq/mc/CwxMcSyncHandler.cpp:205-246 | every step, of any of the receivers in session at once, keeps the invariant of sender, channels, receivers and checkpoint |
| `ReplRuns.ActKeeps` | mq/mq/CwxMqDispHandler.cpp:154-511 | whatever happens between the sender and one receiver keeps the invariant of the two |
| `ReplRuns.OthersKeep` | mq/mq/CwxMqDispHandler.cpp:254-303 | and that of every other receiver of the source, which sees the log unchanged and more records saved |
| `ReplRuns.FailKeeps` | mq/mc/CwxMcSyncHandler.cpp:236-246 | also when saving fails in the middle of a packet and the session ends |
| `ReplRuns.OpenKeeps` | mq/mq/CwxMqDispHandler.cpp:283-303 | a new session starts right after what the receiver has saved, or at the checkpoint |
| `ReplCheckpoint.ResumesFromCheckpoint` | mq/mq/CwxMqDispHandler.cpp:283-303 | a receiver process that has saved nothing starts exactly at the sid its checkpoint file is loaded with, or at 0 where there is no file; any other starts at the last sid it has saved; a file that is made is given the start, and one that is there nothing |
| `ReplCheckpoint.AboveCheckpointIff` | mq/mq/CwxMqDispHandler.cpp:297-300 | over any run after that without a restart of the process, what it saves is above the last checkpoint it resumed from before it saved anything; so it is above the first if and only if nothing is saved or no record of the log lies between the two |
| `ReplCheckpoint.ResumesLower` | mq/mq/CwxMqDispHandler.cpp:283-303 | and wherever the file may hold a smaller sid again there is a run in which the process saves a given record between the two |
| `ReplCheckpoint.CheckpointGoesBack` | mq/mq/CwxMqDispHandler.cpp:283-303 | a run from the start in which that happens |
| `ReplCheckpoint.RestartForgets` | mq/mc/CwxMcSyncHandler.cpp:66-90 | a restarted receiver has saved nothing and has no session; nothing else changes |
| `ReplTheorems.SavedInOrder` | mq/mc/CwxMcSyncHandler.cpp:472-504 | for any number of receivers, connections, interleavings and session restarts, each receiver process has saved exactly the first so many records above its start sid, no gap and no duplicate |
| `ReplTheorems.ArrivalSaves` | mq/mc/CwxMcSyncHandler.cpp:205-246 | a packet that arrives saves nothing unless it is the next one; then it saves its records and those of the packets behind it that are there, and replies to each of these |
| `ReplTheorems.FailureSavesPart` | mq/mc/CwxMcSyncHandler.cpp:236-246 | with a failure in between it saves exactly the records before that |
| `ReplTheorems.SavedOnlyGrows` | mq/mc/CwxMcSyncHandler.cpp:66-90 | within one receiver process what was saved stays, and so does the sid it started from |
| `ReplTheorems.ResumeLosesNothing` | mq/mq/CwxMqDispHandler.cpp:490-500 | whatever the checkpoint was ever given, and wherever a receiver starts, is at most its first value or a saved sid, and every record at or below it has been saved by some receiver of the source, over restarts and with sessions at the same time |
| `ReplTheorems.OnlyReceiverHasAll` | mq/mq/CwxMqDispHandler.cpp:283-303 | with one receiver, its own processes have saved whatever lies below the sid it resumes from |
| `ReplTheorems.SecondReceiverMisses` | mq/mq/CwxMqDispHandler.cpp:283-303 | a run of two in which the second resumes beyond a record it has never saved |
| `ReplTheorems.SecondSessionRefusedIff` | mq/mq/CwxMqDispHandler.cpp:254-264 | a second session under a name is refused exactly if the path of the checkpoint files is empty |
| `ReplTheorems.WindowBound` | mq/mq/CwxMqDispHandler.cpp:483-511 | at most one unfinished packet per connection, the reorder buffer smaller than the number of connections, its numbers within the window |
| `ReplTheorems.RepliesMatch` | mq/mq/CwxMqDispHandler.cpp:483-493 | the sequence number test on replies never fails |
| `ReplCheckpoint.ReplyLogsPacket` | mq/mq/CwxMqDispHandler.cpp:483-501 | a reply logs the sid of the last record of the very packet it answers, all of which the receiver has saved |
| `ReplCheckpoint.LateReplyLogs` | mq/mq/CwxMqDispHandler.cpp:483-501 | a reply under way when the session ends or the receiver restarts may still log its sid |
| `ReplCheckpoint.CheckpointCatchesUp` | mq/mq/CwxMqDispHandler.cpp:490-511 | when all connections wait and there is nothing to send, a session that has sent anything has logged the newest sid of the log |
| `ReplTheorems.NeverStuck` | mq/mc/CwxMcSyncHandler.h:55-79 | while a packet is unanswered, some packet or reply is on its way |
| `ReplTheorems.QuietMeansComplete` | mq/mq/CwxMqDispHandler.cpp:538-571 | when all connections wait and there is nothing to send, the receiver has saved all of the log above its start |
| `ReplDelivery.StepFalls` | mq/mq/CwxMqDispHandler.cpp:483-571 | each packet or reply that arrives, and each sending of a waiting connection, lowers the work left |
| `ReplDelivery.GoesOn` | mq/mq/CwxMqDispHandler.cpp:538-571 | as long as a receiver in session has not all of the log above its start, one of these can happen |
| `ReplDelivery.EverythingArrives` | mq/mq/CwxMqDispHandler.cpp:483-571 | so while nothing is appended and nothing fails they end, after no more steps than the work left at first, and then the receiver has saved all of the log above its start |
| `ReplDelivery.Completes` | mq/mc/CwxMcSyncHandler.cpp:205-246 | from every reachable state with a session there is a run to that end |
| `ReplSender.DispSession.SeekToReportSid` | mq/mq/CwxMqDispHandler.cpp:648-675 | on a manager's cursor: placed on the record such that exactly it and those after it are above the start sid, or unplaced if none is; no other cursor and no record changes |
| `ReplSender.DispSession.SeekToBinlog` | mq/mq/CwxMqDispHandler.cpp:737-790 | found exactly when there is a next record to send and it is good, which is then the record under the cursor, as read through the manager; else the cursor is at the end of the log |
| `ReplSender.DispSession.PackItems` | mq/mq/CwxMqDispHandler.cpp:588-612 | the packing loop over next and fetch of the manager gives the records that `ReplSpec.Pack` takes of its history |
| `ReplSender.DispHandler.SyncSendBinLog` | mq/mq/CwxMqDispHandler.cpp:576-645 | sends what `ReplSpec.SyncSend` says, under the session's number, and notes number and last sid on the connection, or changes neither |
| `ReplSender.DispHandler.RecvReply` | mq/mq/CwxMqDispHandler.cpp:459-511 | the checkpoint gets the connection's last sid exactly when the number matches |
| `ReplSender.PacketIsShortest` | mq/mq/CwxMqDispHandler.cpp:588-612 | a packet is the shortest run of pending records that reaches the chunk size, or all that are left; one record without a chunk size |
| `ReplSender.BadRecordLosesRest` | mq/mq/CwxMqDispHandler.cpp:769-790 | a call sends something exactly if the next record is good; else the session passes everything in the log |
| `ReplSender.NeverGoesBack` | mq/mq/CwxMqDispHandler.cpp:576-645 | and no call sends a record before the place the session has reached |
| `ReplReceiver.McSyncSession.Recv` | mq/mc/CwxMcSyncHandler.h:55-79 | the reorder loop is the function `ReplSpec.Recv` |
| `ReplReceiver.Receiver.DealSyncData` | mq/mc/CwxMcSyncHandler.cpp:396-468 | saves the records of a packet in order, all of them exactly if there is room for them, else as many as there is room for |
| `ReplReceiver.Receiver.RecvMessage` | mq/mc/CwxMcSyncHandler.cpp:205-246 | saves and answers the finished packets in order; it fails exactly if there is no room for all their records, and then exactly the packets before that have been answered |
| `ReplReceiver.AnswersAreReplies` | mq/mc/CwxMcSyncHandler.cpp:378-392 | the answers of the loop are the replies of the protocol |
| `ReplBinlog.SeekLands` | mq/mq/CwxMqDispHandler.cpp:648-675 | the manager's seek finds the oldest managed record above the start sid; that is the first record of the whole log above it if and only if none above it has been dropped |
| `ReplBinlog.NextLands` | mq/mq/CwxMqDispHandler.cpp:737-747 | its next goes to the following record of the whole log, or stays at the end |
| `ReplBinlog.FetchLands` | mq/mq/CwxMqDispHandler.cpp:749-760 | its fetch gives that record's data |
| `ReplBinlog.OthersKeepSession` | mq/common/CwxBinLogMgr.cpp:1266-1486 | appends, rollovers with evictions and operations on other cursors, in any run, leave the session where it is in a log that has only grown |
| `SidLog.SidLogFile.Create` | mq/common/CwxSidLogFile.cpp:30-40 | a created log holds its sid, and every moment before is safe to crash in |
| `SidLog.SidLogFile.Save` | mq/common/CwxSidLogFile.cpp:85-163 | rewriting keeps the value, leaves one line in one file, and is safe to crash in at every step |
| `SidLog.SidLogFile.Log` | mq/common/CwxSidLogFile.cpp:166-187 | the sid is added; the log is rewritten exactly after 100000 lines; it is flushed when the flush number is reached, and fewer are ever unflushed; every step is safe |
| `SidLog.SidLogFile.SyncFile` | mq/common/CwxSidLogFile.cpp:199-205 | everything given is flushed |
| `SidLog.SidLogFile.Prepare` | mq/common/CwxSidLogFile.cpp:248-305 | the current file is kept if it is there, else the old one, else the new one, else an empty one; every step is safe |
| `SidLog.SidLogFile.Load` | mq/common/CwxSidLogFile.cpp:43-82 | the loaded sid was given at or after the last flush; without one, none was ever kept; it is the one of the last line, and the lines are counted |
| `SidLog.UseLog` | mq/common/CwxSidLogFile.cpp:166-205 | over any use of a log every moment is safe to crash in |
| `SidLog.Survive` | mq/common/CwxSidLogFile.cpp:248-305 | a crash at any moment, also during an earlier recovery, with any buffered lines written, leads to a sid given at or after the last flush |
| `SidIssue.AckedNeverReissued` | mq/mq/CwxMqRecvHandler.cpp:106-125 | after any number of crashes, with any records not flushed lost, acknowledged sids rise and the next one is above them, if files are not deleted or the file limit leaves one with records |
| `SidIssue.RestartIsAhead` | mq/mq/CwxMqApp.cpp:385-387 | a restart is not behind the newest sid issued, acknowledged or not, if and only if the crash neither takes a run's first unsettled record nor makes the manager forget its sids |
| `SidIssue.FirstIsReissued` | mq/mq/CwxMqRecvHandler.cpp:115-125 | in the first case that record's sid is issued next, and no sid acknowledged before or since is |
| `SidIssue.StepEffect` | mq/mq/CwxMqRecvHandler.cpp:106-125 | what each step does to the counters: every message takes the next sid, only a settled one is acknowledged, everything is flushed exactly when the interval has passed, the batch is full or it is the first record, and a restart goes on 10001 above the newest sid found |
| `SidReissue.ReissueCondition` | mq/common/CwxBinLogMgr.cpp:1344-1388 | for a server on a new log: acknowledged sids rise in every run if and only if files are not deleted or the file limit is at least 3 |
| `SidReissue.SmallReissueCondition` | mq/common/CwxBinLogMgr.cpp:1344-1388 | where no record is too large for a file: or at least 2 |
| `SidReissue.OneFileReissues` | mq/mq/CwxMqConfig.cpp:120-132 | a run with a file limit of 1 that acknowledges one sid twice |
| `SidReissue.HugeReissues` | mq/common/CwxBinLogMgr.cpp:1344-1486 | one with a file limit of 2 and a record that is too large |
| `SidReissue.SkipIsTight` | mq/mq/CwxMqApp.cpp:387 | with the largest batch a crash can lose issued sids up to the very one restarted from |
| `MqRecv.RecvHandler.OnRecvMsg` | mq/mq/CwxMqRecvHandler.cpp:38-125 | on a real manager: answered with an error and no change if the manager has failed, after issuing and appending alone if the append fails, and with the failure noted if a flush fails; else answered with the sid, and everything is flushed if the flush interval has passed, the batch is full or it is the first record of the run, and nothing otherwise unless a file is started |
| `MqRecv.RecvHandler.OnTimeoutCheck` | mq/mq/CwxMqRecvHandler.cpp:160-163 | the timer flushes when the interval has passed or the batch is full, and else does nothing |
| `McQueue.ItemSize` | mq/mc/CwxMcQueue.cpp:3-20 | an item takes its header and data in whole units of 32 bytes |
| `McQueue.InsertSorted` | mq/mc/CwxMcQueue.h:37-43 | insertion keeps the order by timestamp, host and sid |
| `McQueue.InsertAdds` | mq/mc/CwxMcQueue.cpp:28-29 | a new key adds its item, a known one changes nothing |
| `McQueue.SizeIsExactIff` | mq/mc/CwxMcQueue.cpp:28-29 | the tracked size stays the sum of the items exactly when the key is new |
| `McQueue.ExcessIsLeast` | mq/mc/CwxMcQueue.cpp:30-36 | what eviction leaves is the longest end of the queue within the limit |
| `McQueue.DriftDecides` | mq/mc/CwxMcQueue.cpp:30-36 | eviction brings the tracked size within the limit if and only if the sizes counted for known keys are within it |
| `McQueue.Queue.Push` | mq/mc/CwxMcQueue.cpp:26-37 | the longest end that fits is kept; the tracked size is the sum of the items plus the sizes of items whose keys were there already, so exact for distinct keys; where those alone pass the limit everything is discarded and the loop runs on an empty queue; pushed = popped + discarded + present, and the discard count, hold |
| `McQueue.Queue.Pop` | mq/mc/CwxMcQueue.cpp:39-49 | the least item, or none |
| `McQueue.TimeoutKeepsRecent` | mq/mc/CwxMcQueue.cpp:51-66 | for all 32-bit times: exactly the items within the timeout stay if and only if the sum for the oldest of these does not wrap below the cutoff; and exactly when nothing stays |
| `McQueue.RecentIsEnd` | mq/mc/CwxMcQueue.cpp:51-66 | the items whose time plus timeout reaches the newest time or reaches now are an end of the queue with at least the newest in it |
| `McQueue.ExpiredMeans` | mq/mc/CwxMcQueue.cpp:55-63 | what the loop drops, over times and now alone: each item dropped is out of time by the 32-bit sum against both the newest time and now, the first one kept is not |
| `McQueue.WrapEmptiesQueue` | mq/mc/CwxMcConfig.cpp:125 | with a timeout the configuration accepts, a queue of two items of the present day, both within it, is emptied |
| `McQueue.Queue.CheckTimeout` | mq/mc/CwxMcQueue.cpp:51-66 | the loop drops the items before the first whose 32-bit sum reaches the newest time or now, and keeps the balance; while no sum wraps an item stays if and only if it is within the timeout of either; if no item is left it runs on |
| `MqQueue.Queue.GetNextBinlog` | mq/common/CwxMqQueueMgr.cpp:68-85 | failed messages first, smallest sid first; with none of these, a message if and only if a good record lies after the cursor, which is the first such, in strictly ascending order of sids; each sid handed out is in flight, waiting or acknowledged, and only one of these |
| `MqQueue.Queue.FetchNextBinlog` | mq/common/CwxMqQueueMgr.cpp:105-170 | gives the first good record after the cursor, or after the first record above the start sid where the cursor is not placed yet, if and only if there is one; the cursor gets placed if and only if a record lies above the start sid |
| `MqQueue.Queue.EndSendMsg` | mq/common/CwxMqQueueMgr.cpp:88-99 | a sent message leaves, a failed one waits to be handed out again |
| `MqQueue.Queue.StaysValid` | mq/common/CwxMqQueueMgr.cpp:105-170 | a growing log disturbs nothing |
| `MqQueue.FirstRecordIsPassedOver` | mq/common/CwxMqQueueMgr.cpp:110-121 | the first record above the start sid is never handed out; sids handed out ascend |
| `Package.RoundTrip` | mq/interface/python/cwxmq/CwxPackage.py:98-162 | unpacking a packed dictionary ends and gives its normal form, in order of keys and lists |
| `Package.RoundTripIsExact` | mq/interface/python/cwxmq/CwxPackage.py:98-162 | the round trip is exact for dictionaries without lists shorter than two, at any depth, and for no others |
| `Package.NormalKeeps` | mq/interface/python/cwxmq/CwxPackage.py:116-121 | a dictionary is its own normal form exactly when it has no such list |
| `Package.FrameTaken` | mq/interface/python/cwxmq/CwxPackage.py:104-115 | an entry is read back as its size, key, data and kind, whatever follows it |
| `Package.FrameLayout` | mq/interface/python/cwxmq/CwxPackage.py:150-162 | which bytes of a packed entry are its size, kind, key length, key and data; it fails exactly on lengths that do not fit |
| `Package.PackedIffFits` | mq/interface/python/cwxmq/CwxPackage.py:128-162 | a dictionary is packed if and only if each key is shorter than 65536 bytes and each entry than 2^32, at any depth, into the sum of their sizes |
| `Package.TakenBytes` | mq/interface/python/cwxmq/CwxPackage.py:104-115 | from which bytes of any message these are taken, and which of the three exceptions is raised when |
| `Package.InsertKeeps` | mq/interface/python/cwxmq/CwxPackage.py:116-121 | an entry read goes to the end of its key's list, or to the end of the dictionary under a new key, and changes no other key |
| `Package.UnpackEnds` | mq/interface/python/cwxmq/CwxPackage.py:98-125 | for every message and every fields read before: unpack gives a dictionary exactly on rows of entries without one of size 0 at any depth, never ends exactly where one of size 0 is met before anything that is no entry, and else fails with the exception of the first thing that is no entry |
| `Package.ZeroTaken` | mq/interface/python/cwxmq/CwxPackage.py:104-115 | an entry of size 0 is exactly one whose first seven bytes are zero, but for the dictionary bit |
| `Package.SizeZeroDiverges` | mq/interface/python/cwxmq/CwxPackage.py:103-123 | no message that starts with a plain entry of size 0 is ever unpacked, whatever was read before |
| `Package.PackMessage` | mq/interface/python/cwxmq/CwxPackage.py:128-162 | the loop over keys and lists is the function `Package.Pack`, with the failure on lengths that do not fit |
| `Package.UnpackMessage` | mq/interface/python/cwxmq/CwxPackage.py:98-125 | the loop over the shrinking message is the function `Package.Unpack`, with its three exceptions and the endless case |
| `BinlogOp.Mark` | mq/tool/CwxBinlogOp.cpp:55-66 | from the last indexed record at or before any other it is fewer than 100 steps |
| `BinlogOp.Browser.Init` | mq/tool/CwxBinlogOp.cpp:29-74 | the two indexes hold the first, each hundredth and the last record with their offsets, and no others |
| `BinlogOp.Browser.DoSid` | mq/tool/CwxBinlogOp.cpp:262-322 | lands on the sid exactly when the file has it, else the previous record is restored |
| `BinlogOp.Browser.Search` | mq/tool/CwxBinlogOp.cpp:299-320 | 100 comparisons from the index entry are enough |
| `BinlogOp.Browser.DoRecord` | mq/tool/CwxBinlogOp.cpp:323-366 | lands on record number k exactly when there is one; undefined only for 2^32 - 1 |

## Left out

- BinLogMgr.Manager.Next: a registered cursor is a value in the manager, which reads the file's bytes directly; that a cursor object with its block cache does the same on the same file is stated apart (`BinLogMgr.SeekCached`, `NextCached`, `PrevCached`, `FetchCached`). A descriptor that stays open on a removed file is not modelled.
- BinLogMgr.Manager.Append: data of 2^31 - 32 bytes or more is outside the contract; the room test is right for all shorter data, and for which longer data it is wrong is `BinLogFile.RoomTestIsExact`. Messages are at most 10 MiB (mq/common/CwxMqMacro.h:58). The manager's own timestamps are not modelled.
- BinLogFile.File.Append: the sum of the room test must not wrap (`BinLogFile.RoomTestIsExact`), and sids must ascend within a file, which the manager sees to and the file does not test; failed or partial writes are not modelled, a write completes or the process stops.
- BinLogRecovery.Recover: the index file is a row of entries and a number of extra bytes; the bytes of an entry are those of `BinLogFormat.EncodeIndex`.
- MgrReopen.ReopenedKeeps: a crash between the removals of two files that are put out of management together, or between the data and index file of one, is not modelled; files left are whole except for the current one.
- MgrCursors.PrevMoves: what the source does before the first file, where it steps back from the start of its map, is only marked as undefined; so is a file limit of 0, which the configuration does not allow.
- ReplTheorems.SavedInOrder: every record of the log is good and no record a session still wants is dropped before it opens (what happens otherwise is `ReplSender.BadRecordLosesRest` and `ReplBinlog.SeekLands`); packets are uniform, and the rate limit is 0.
- ReplRuns.StepKeeps: a single failure of a handler ends its session; reports with "newest" and sessions without a source are not modelled, nor is the test in `onRedo`: a waiting connection tries to send at any time.
- ReplTheorems.ResumeLosesNothing: the checkpoint is the set of all values it was given; which of these a crash leaves is `SidLog`, for one session at a time on the file.
- ReplReceiver.Receiver.DealSyncData: the store is a row of records with room for so many more; how records are written there is not modelled.
- ReplSender.DispSession.SeekToBinlog: how data is unpacked and how large a packed entry is are functions of the record; read errors are not modelled.
- SidLog.SidLogFile.Save: I/O errors and lines torn in the middle are not modelled; the owner's name and password are not part of a line.
- SidLog.SidLogFile.Log: requires a log that was created or loaded; the source would also write entries to a file without a first line.
- SidIssue.AckedNeverReissued: a write or flush that fails stops the manager at once; in the source a failed index flush stops it at the next append, unless that rolls over.
- MqRecv.RecvHandler.OnRecvMsg: the two flushes one message can cause succeed or fail together; unzipping, parsing and authentication come before.
- MqQueue.Queue.GetNextBinlog: failures of the cursor and of packing are not modelled, nor is the queue's checkpoint, which is also given the sids of failed sends.
- Package.UnpackMessage: an endless loop is a result of its own; keys and values are byte strings, and lists of lists are not modelled.
- BinlogOp.Browser.DoSid: the file is one whose records all fit together; read errors are not modelled.
- `lower` and `trim` of a file, `leftLogNum` and `getMqNum`, `removeAllBinlog`, the slave's drain loop, and the size limits of the collector's store.
- Sockets, threads and locks: each operation under a lock and each handler callback is one step.
- The cwinux library, zlib and the operating system: CwxFile, CwxPackageWriter and the like are not part of this model; files are bytes, renames are atomic, and the size of a packed record is a field of it.
