# OpenRVDAS: models and proofs

OpenRVDAS reads, transforms, stores and serves ship sensor data. These files model the parts of it that
keep state in a clever way, as the code at hand does, and prove that they agree with something simple.
`dafny verify dfyconfig.toml` checks everything.

| file | what it models |
|---|---|
| ComposedReader.dfy | the threads, queue, events, locks and EOF flags of `ComposedReader`, as interleaved atomic steps |
| ComposedReaderProgress.dfy, ComposedReaderPace.dfy | when a waiting `read` can still return, and when it waits for ever; how far readers run ahead |
| TextFileReader.dfy | `TextFileReader`: a record cursor over many files, against one flat sequence of lines |
| LogfileReader.dfy | `LogfileReader`: a time cursor on top of it |
| RecordCache.dfy, Subscription.dfy, Formats.dfy, DeliveryRuns.dfy | the pruned cache of the cached data server, subscriptions with their marks, both reply formats, and what one client receives over a whole run |
| Interpolation.dfy, InterpolationTransform.dfy, InterpolationRuns.dfy | `InterpolationTransform`, against averaging over all that arrived and over the finished stream |
| LoggerSupervisor.dfy, ServerApi.dfy | `LoggerRunner` and `LoggerSupervisor` with their restart policy; the in-memory store, its callbacks, `LoggerManager`, and how a change of mode reaches the running loggers |
| DjangoCache.dfy, DjangoUpdates.dfy, DjangoTables.dfy, DjangoStaleness.dfy | the cache of configurations that processes share through a database, as interleaved atomic steps; what one update by itself leaves behind, also told from the tables alone; when that makes a cache wrong |
| TcpFraming.dfy | records cut out of a byte stream by `TCPReader` |
| Bits.dfy, Nmea.dfy, NmeaTransform.dfy | NMEA 0183 checksums (section 5.2.3, Checksum Field, of NMEA 0183 v3.01): building, verifying, `MWDTransform` |
| Modbus.dfy | the binary records of both Modbus readers |
| Common.dfy | Option, Result and the exceptions |

Objects whose methods update fields are classes with those fields, and their loops are loops; protocols
between threads or processes are state machines; the rest is functions. Python exceptions are the values
`Raised(...)`. Numbers are unbounded integers, or reals where the source uses floats. What the outside
world decides is a parameter: which step runs next, what a component reader returns, whether a process
lives, what the clock shows, what `recv` gives.

Where the code does not do what its documentation says, the model does what the code does:

- `ComposedReader.read` can return None with a record still queued. It leaves exactly what was appended
  after its first look at the queue; later calls return that.
- `ComposedReader.read` can wait for ever with readers that still have records: threads that time out after
  `read` has looked whether they are alive, and before it asks for a record, are not started again.
- A subscription for the last seconds whose newest too-old record is the oldest cached one of several
  looks up index -1, gets the newest record as its mark and is sent nothing of what is cached.
- With `seconds` 0 or -1 a subscription does not look at `back_records`, and with -1 it is sent all later records,
  as the module says and `serve_requests` does not.
- `seek(_, 'end')` counts an empty file with the length of the file counted before it, or fails on it, and
  lands by that count.
- `seek_time(0, 'end')` leaves the cursor behind the last record. A next timestamp of 0 is taken for none,
  and a stop of 0 for no stop. A `read_time_range` that raises may have moved the cursor.
- An `InterpolationTransform` whose very first record has no fields never emits anything. One
  whose first record has a negative time may start its clock again at zero, with points that it then needs
  evicted.
- With `max_tries` of zero the supervisor does not retry for ever but declares a dead logger failed at once.
- `set_active_logger_config` of the Django store clears the old configuration's flag before it checks the
  new one; refused, it leaves that written and unstamped, and other processes' caches wrong exactly if the
  row decided what a query shows: it was the last current row of its logger, and the current one before it, if
  any, has another text. `set_active_mode` stops, with all it has written unstamped, at a logger that
  has no configuration in the mode when there is no mode off; other processes' caches are then wrong exactly
  if a query shows something else of some logger it came to. A query that fails after its time was marked
  makes the old answer look new.
- A `MWDTransform` given only meters per second multiplies the missing knots and raises.
- `ModBusTCPReader` tells coils by their values: registers that all hold 0 or 1 are packed as bits.

## Model

| member | source | states |
|---|---|---|
| ComposedReader.StepKeepsInv | logger/readers/composed_reader.py:112-229 | every atomic step of the caller or of a reader thread keeps the invariant of the whole protocol: one live thread a reader, lock ownership, EOF flags, announced records, and records produced = returned + in hand + queued + in flight |
| ComposedReader.RunKeepsInv | logger/readers/composed_reader.py:112-229 | the invariant holds in every state of every interleaving, for any number of readers |
| ComposedReader.ReachableInv | logger/readers/composed_reader.py:112-229 | so it holds in every reachable state |
| ComposedReader.StartThreadKeepsPool | logger/readers/composed_reader.py:142-151 | restarting a thread where the test says so keeps one live thread a reader and the lock discipline, and takes no EOF flag down |
| ComposedReader.NothingLostOrDuplicated | logger/readers/composed_reader.py:112-229 | in every interleaving what a reader produced is, in order, its records already returned, the one in the caller's hand, those queued, and at most one in flight |
| ComposedReader.AtMostOneLiveThread | logger/readers/composed_reader.py:142-151 | two live threads of one reader are the same thread, whatever timed out and was restarted |
| ComposedReader.NoLostWakeUp | logger/readers/composed_reader.py:162-171 | with the queue lock free, a queue that is not empty is announced by queue_has_record |
| ComposedReader.PopsFindARecord | logger/readers/composed_reader.py:121-132 | read() never pops an empty queue although it tests it outside the lock |
| ComposedReader.NoneOnlyAfterAllEof | logger/readers/composed_reader.py:156-184 | None is returned only after every reader has returned EOF |
| ComposedReader.EofIsFinal | logger/readers/composed_reader.py:142-151 | a reader that returned EOF gets no new thread, produces nothing more and keeps its flag |
| ComposedReader.AllEofOnlyDrains | logger/readers/composed_reader.py:158-184 | once all readers are at EOF a step only moves records from the queue to the client, in order |
| ComposedReader.DrainedInOrder | logger/readers/composed_reader.py:127-184 | the same over any continuation of the run |
| ComposedReader.AfterNoneAllIsSent | logger/readers/composed_reader.py:158-184 | after a None nothing is in flight, and whatever runs next everything produced is exactly what was returned, is in hand or is queued |
| ComposedReader.ReadTakesTheOldest | logger/readers/composed_reader.py:127-132 | with a record queued and the lock free, the next call of read() returns the oldest queued record and removes it |
| ComposedReader.WhatNoneLeavesQueued | logger/readers/composed_reader.py:134-184 | a read() that returns None leaves exactly the records appended since its first test of the queue, so the queue is empty if and only if there were none |
| ComposedReader.NoneWithARecordQueued | logger/readers/composed_reader.py:158-184 | a reachable state of two readers in which None was returned with a record still queued |
| ComposedReaderProgress.CanReturnIff | logger/readers/composed_reader.py:153-184 | a read() that waits, in any reachable state, can still return if and only if a record is taken, queued or in a thread's hands, a reader is being read or about to be, a record is asked for and a thread is there to see it, or all readers have come to their end |
| ComposedReaderProgress.StuckForEver | logger/readers/composed_reader.py:153-226 | otherwise no step of anyone lets it return, and no reader is ever read again |
| ComposedReaderProgress.Progress | logger/readers/composed_reader.py:153-226 | where it may return, some run of steps, each bringing it nearer, lets it |
| ComposedReaderProgress.RestartAttends | logger/readers/composed_reader.py:142-151 | the restart loop leaves a reader that has not returned EOF with a live thread in its slot, the old one if that is alive, and changes nothing else |
| ComposedReaderProgress.RestartKeepsAttended | logger/readers/composed_reader.py:142-151 | and keeps every reader it has come by so |
| ComposedReaderProgress.NextReadCanReturn | logger/readers/composed_reader.py:112-184 | from every reachable state with no call under way, threads that timed out included, the next call of read() can return |
| ComposedReaderProgress.StepKeepsOwned | logger/readers/composed_reader.py:191-223 | every step keeps: a reader's lock is held by a thread of that reader, and what a thread appended stays queued until it lets go of the queue lock |
| ComposedReaderProgress.ReadWaitsForEver | logger/readers/composed_reader.py:142-154 | a reachable state of two readers in which read() waits and can never return, both threads having timed out between the restart loop and queue_needs_record.set() |
| ComposedReaderPace.StepKeepsPace | logger/readers/composed_reader.py:112-229 | every step keeps: the records of a reader, and one more if it is being read or would be, are at most the calls of read() that may have asked for a record |
| ComposedReaderPace.NoReaderRunsAhead | logger/readers/composed_reader.py:134-223 | in every interleaving a reader has given at most as many records as the client has called read() |
| TextFiles.TextFileReader.GetNextFile | logger/readers/text_file_reader.py:88-118 | opens the next unused file or reports that there is none, keeps the used and unused lists a split of the sorted files and every learned position true |
| TextFiles.TextFileReader.NoteEnd | logger/readers/text_file_reader.py:104-108 | the position noted as the end of the file about to be closed is the true count of lines up to its end |
| TextFiles.TextFileReader.ReadLine | logger/readers/text_file_reader.py:145-154 | the next line of the open file, or nothing at its end |
| TextFiles.TextFileReader.ReadOnce | logger/readers/text_file_reader.py:141-169 | one turn of the loop in read: the next line, another file to look into, or neither |
| TextFiles.TextFileReader.Read | logger/readers/text_file_reader.py:121-174 | returns the line at the cursor of the flat concatenation of all files and moves on by one, or None exactly at the end |
| TextFiles.TextFileReader.ForwardOnce | logger/readers/text_file_reader.py:217-224 | one turn of the forward loop: a line, a file opened, or the break; with no file open or openable it changes nothing |
| TextFiles.TextFileReader.ForwardLoop | logger/readers/text_file_reader.py:216-224 | the forward loop ends when a file is open or openable, by unread lines and unopened files, and lands at min(pos + offset, N) |
| TextFiles.TextFileReader.SeekForward | logger/readers/text_file_reader.py:211-226 | forward, backward and zero offsets relative to the flat index |
| TextFiles.TextFileReader.BackToFile | logger/readers/text_file_reader.py:238-243 | the backward search stops at a used file that starts at or before the target and puts the others back in order |
| TextFiles.TextFileReader.BackTo | logger/readers/text_file_reader.py:238-250 | the cursor is at the target record |
| TextFiles.TextFileReader.SeekBack | logger/readers/text_file_reader.py:229-250 | lands at pos - k, or raises for a record before the first and leaves the cursor alone |
| TextFiles.BackCursor | logger/readers/text_file_reader.py:238-250 | the file found by learned positions, with that many lines skipped, is the cursor for the target |
| TextFiles.NextLine | logger/readers/text_file_reader.py:145-154 | the next line of the open file is the next line of the flat sequence |
| TextFiles.OpenNext | logger/readers/text_file_reader.py:104-115 | at the end of the open file the flat index is the line count of the used files, so opening the next one leaves it |
| TextFiles.FlatAt | logger/readers/text_file_reader.py:121-154 | line n of file k is line n + (lines of the files before) of the flat sequence |
| TextFiles.TextFileReader.CountTurn | logger/readers/text_file_reader.py:303-315 | one file of the end count: a known end is taken over, an unknown one counted and noted, and an empty file adds the last count again or raises |
| TextFiles.TextFileReader.CountToEnd | logger/readers/text_file_reader.py:299-315 | the count that the turns come to; when no file of unknown end is empty all positions learned are true |
| TextFiles.CountIs | logger/readers/text_file_reader.py:302-315 | the count is the number of lines while no file of unknown end is empty, and too high or an error from then on |
| TextFiles.TextFileReader.SeekStart | logger/readers/text_file_reader.py:283-290 | min(offset, N) from the start |
| TextFiles.TextFileReader.SeekEnd | logger/readers/text_file_reader.py:298-321 | its own count less k, or ValueError when that is negative, or UnboundLocalError |
| TextFiles.TextFileReader.Seek | logger/readers/text_file_reader.py:279-330 | lands at min(k, N) from start, min(pos + k, N) or pos - k from current, N - k from end; a seek before record 0 or with an unknown origin raises and restores the cursor; a seek from the end lands by its own count, which is right if and only if no file of unknown end is empty or the count, though too high, is still less than k |
| TextFiles.TextFileReader.EndIsRightIff | logger/readers/text_file_reader.py:298-321 | that exact condition, for every offset that the call comes back from |
| TextFiles.RStripIs | logger/readers/text_file_reader.py:151-151 | all newlines at the end of a line are taken off and nothing else |
| TextFiles.EmptyFilesMiscount | logger/readers/text_file_reader.py:302-315 | a file of one line and an empty one count as two lines, and an empty file alone fails |
| TextFiles.TextFileReader.ReadRange | logger/readers/text_file_reader.py:333-349 | the flat slice from a to min(b, N) |
| Logfiles.LogfileReader.Read | logger/readers/logfile_reader.py:136-177 | returns the next record and remembers it as prev_record; at the end returns None and forgets nothing |
| Logfiles.LogfileReader.Reset | logger/readers/logfile_reader.py:244-245 | the cursor is before the first record |
| Logfiles.LogfileReader.ReadUntil | logger/readers/logfile_reader.py:233-241 | the cursor is at the first record from here on at or after the desired time, or at the end |
| Logfiles.LogfileReader.PeekMsec | logger/readers/logfile_reader.py:253-258 | the timestamp of the next record, with the cursor where it was |
| Logfiles.LogfileReader.GetFirstMsec | logger/readers/logfile_reader.py:263-270 | the timestamp of the first record of all, or None for none |
| Logfiles.LogfileReader.PassedIsEarlier | logger/readers/logfile_reader.py:313-318 | in chronological records, if prev_record is earlier than a time then so is every record before the cursor |
| Logfiles.LogfileReader.SeekFromStart | logger/readers/logfile_reader.py:306-320 | the first record at or after T0 + offset, whether it resets or goes on from where it is |
| Logfiles.LogfileReader.SeekFromCurrent | logger/readers/logfile_reader.py:322-333 | the same relative to the next record, or to the last one read at the end; a next timestamp of zero counts as missing |
| Logfiles.LogfileReader.CurrentTimeIs | logger/readers/logfile_reader.py:322-326 | the time asked for is that of the next record, of the last one of all at the end, or of prev_record before a record with timestamp 0, plus the offset; without any it raises |
| Logfiles.LogfileReader.SeekFromEnd | logger/readers/logfile_reader.py:335-345 | the same relative to the last record; offset 0 leaves the cursor at the end |
| Logfiles.LogfileReader.SeekTime | logger/readers/logfile_reader.py:273-348 | the requested time for every origin; for chronological records the cursor is at the first record at or after it, for every offset but 0 from end; the wrong origin or a negative offset from start raises |
| Logfiles.LogfileReader.ReadTo | logger/readers/logfile_reader.py:371-379 | from a cursor at the start time, exactly the records before stop |
| Logfiles.LogfileReader.ReadTimeRange | logger/readers/logfile_reader.py:353-379 | exactly the records with start <= timestamp < stop, for chronological records and a start not before the first; a stop of 0 is no stop; an earlier start raises |
| RecordCaches.CleanupKeeps | server/cached_data_server.py:306-336 | cleanup leaves a suffix that is not empty, keeps the last min(len, min_back + 1) records and at most max_records, drops only what is too old or, if max_records is more than min_back, beyond max_records, and stops only where it must |
| RecordCaches.RecordCache.CacheRecord | server/cached_data_server.py:250-285 | appends each field's samples in order and leaves the other fields alone |
| RecordCaches.RecordCache.CacheField | server/cached_data_server.py:251-272 | what one field gets: one sample at the record's time, or the samples listed |
| RecordCaches.RecordCache.AddSample | server/cached_data_server.py:284-285 | one sample at the end of the field's list |
| RecordCaches.RecordCache.Cleanup | server/cached_data_server.py:306-336 | prunes every field as CleanupKeeps says and touches no key |
| RecordCaches.Prune | server/cached_data_server.py:318-336 | the truncation to max_records followed by the scan drops the same prefix as one scan of the whole list |
| RecordCaches.ScanAfter | server/cached_data_server.py:328-336 | the scan of what max_records left, as a scan of the whole list |
| RecordCaches.FirstNewer | server/cached_data_server.py:330-335 | the loop index left by the scan |
| Formats.FoldField | logger/readers/cached_data_reader.py:148-152 | folding one more field into the records is the collation of one more field |
| Formats.CollateOneMore | logger/readers/cached_data_reader.py:148-152 | one sample more in a field is one value more in one record |
| Formats.Sort | logger/readers/cached_data_reader.py:155-155 | every timestamp once, ascending |
| Formats.SortedOnce | logger/readers/cached_data_reader.py:155-155 | there is only one ascending list of the same timestamps |
| Formats.ListsOnce | logger/readers/cached_data_reader.py:155-158 | there is only one way to list collated records by timestamp |
| Formats.ListRecords | server/cached_data_server.py:825-826 | one entry a timestamp, ascending, with that record's fields |
| Formats.ParseFieldDict | logger/readers/cached_data_reader.py:140-158 | what the client queues for a field dict is its collation by timestamp |
| Subscriptions.FindMark | server/cached_data_server.py:637-695 | computes the mark that the next rows are about |
| Subscriptions.NothingCachedIsSent | server/cached_data_server.py:655-663 | with seconds 0 nothing cached is sent, whatever back_records is |
| Subscriptions.NewestIsSent | server/cached_data_server.py:665-673 | with seconds -1 exactly the newest cached record is, whatever back_records is |
| Subscriptions.LaterIsSentToo | server/cached_data_server.py:637-695 | whatever was asked for, everything that arrives after subscribing is still to be sent, after what was to be sent then |
| Subscriptions.NewerIsSuffix | server/cached_data_server.py:758-759 | in a rising list the samples newer than a mark are a suffix |
| Subscriptions.FirstDeliveryKeepsPromise | server/cached_data_server.py:675-695 | with other seconds the first delivery is a suffix with every record of the last `seconds` and at least min(back_records, len) records, if and only if the newest record that is too old is not the oldest one of several |
| Subscriptions.MarkWraps | server/cached_data_server.py:684-694 | when it is, index -1 makes the newest record the mark and nothing is sent |
| Subscriptions.WrapLosesEverything | server/cached_data_server.py:684-694 | the smallest such list |
| Subscriptions.Connection.Subscribe | server/cached_data_server.py:614-701 | forgets the old subscription and sets each wanted field's mark; an empty request changes nothing |
| Subscriptions.Connection.CollectDict | server/cached_data_server.py:722-762 | what one field contributes to a field_dict reply, and its new mark |
| Subscriptions.Connection.ReadyDict | server/cached_data_server.py:719-762 | the whole field_dict reply and the marks it leaves |
| Subscriptions.Connection.CollectList | server/cached_data_server.py:769-821 | what one field contributes to a record_list reply, and its new mark |
| Subscriptions.Connection.ReadyList | server/cached_data_server.py:767-826 | the record_list reply is the collation by timestamp of what the fields contribute, with the marks it leaves |
| Subscriptions.SentAgree | server/cached_data_server.py:735-795 | both formats send the same samples exactly when they do so of every field requested, the -1 cases included, for records in any order |
| Subscriptions.FormatsAgree | server/cached_data_server.py:749-826 | then the server's record_list equals the client's collation of the server's field_dict, and both leave the same marks |
| Subscriptions.FormatsAgreeIff | server/cached_data_server.py:735-795 | for rising records only then: each field asks for its latest value in both ways or in neither, or has nothing else to send |
| Formats.CollateOnce | logger/readers/cached_data_reader.py:148-152 | rising records can be read off their collation |
| DeliveryRuns.ReadySends | server/cached_data_server.py:749-762 | a ready sends exactly what is cached and was not sent before |
| DeliveryRuns.StepKeepsInv | server/cached_data_server.py:250-336 | arrivals, cleanups and readys keep the account of what was sent, what was dropped and what is still owed |
| DeliveryRuns.RunKeepsInv | server/cached_data_server.py:250-336 | over every interleaving of them |
| DeliveryRuns.SubscribedInv | server/cached_data_server.py:675-695 | subscribing opens the account with the samples the mark leaves to be sent |
| DeliveryRuns.SentOnceInOrderOrDropped | server/cached_data_server.py:721-762 | over every run after subscribe the delivered stream has no duplicates and is in order, and misses a record only if cleanup dropped it first |
| DeliveryRuns.OwedFromNowOn | server/cached_data_server.py:655-673 | with seconds 0 the account opens with nothing to be sent, with seconds -1 with the newest record |
| DeliveryRuns.ReadyIsStep | server/cached_data_server.py:719-762 | what a ready does to one field in such a run is what the server does to it on a connection with any other fields |
| DeliveryRuns.NothingMissed | server/cached_data_server.py:306-336 | it misses none, and is one gapless stretch of the arrivals, when no cleanup runs with more than its min_back + 1 records unsent, however many are owed at other times |
| DeliveryRuns.CleanDropsUnsent | server/cached_data_server.py:306-336 | with more unsent, a cleanup of records that are all too old drops one of them |
| DeliveryRuns.LatestEachTime | server/cached_data_server.py:738-747 | with back_seconds -1 a run sends the newest arrival at each ready, sent before or not, and nothing else |
| Interpolation.BisectIs | logger/transforms/interpolation_transform.py:206-216 | there is one position that splits a sorted list at a time |
| Interpolation.InsertIs | logger/transforms/interpolation_transform.py:206-216 | a point goes after all that are earlier and before all others, those of the same time included |
| Interpolation.AgreeAfterInsert | logger/transforms/interpolation_transform.py:206-216 | two lists that agree from a limit on still do when the same point, early or late, is inserted into both |
| Interpolation.FindNearest | logger/transforms/interpolation_transform.py:363-374 | the loop that stops when the distance grows finds the last of the nearest points of the whole list |
| Interpolation.MeanIs | logger/transforms/interpolation_transform.py:335-344 | the mean is the one number that, taken once for each value, comes to their running total |
| Interpolation.DeviationsCancel | logger/transforms/interpolation_transform.py:335-344 | and the one from which the deviations cancel out |
| Interpolation.MeanWithin | logger/transforms/interpolation_transform.py:335-344 | it lies between the least and the greatest value |
| Interpolation.WindowAverages | logger/transforms/interpolation_transform.py:335-344 | a boxcar is that mean of the values of exactly the points within its window, both ends included, and none without any |
| Interpolation.NearestIs | logger/transforms/interpolation_transform.py:363-374 | the nearest value is that of a point that no other is nearer than, the last one of those as near |
| Interpolation.BoxcarSince | logger/transforms/interpolation_transform.py:335-344 | evicting what is before a boxcar's window does not change its average |
| Interpolation.BoxcarCutShort | logger/transforms/interpolation_transform.py:335-344 | evicting what is inside it shortens the window to what is left |
| Interpolation.NearestSince | logger/transforms/interpolation_transform.py:363-374 | eviction does not change the nearest point if some point is within reach |
| InterpolationTransforms.GridAt | logger/transforms/interpolation_transform.py:277-300 | the instants of the loop are t, t + interval, ... up to the first not before the bound |
| InterpolationTransforms.GridSplits | logger/transforms/interpolation_transform.py:277-300 | stopping at an earlier bound and going on later visits the same instants |
| InterpolationTransforms.SameRow | logger/transforms/interpolation_transform.py:218-231 | what was evicted for earlier instants is not missed at the next one |
| InterpolationTransforms.StepsDrop | logger/transforms/interpolation_transform.py:277-300 | the loop terminates for a positive interval |
| InterpolationTransforms.InterpolationTransform.AddRecord | logger/transforms/interpolation_transform.py:158-204 | each point of the record is inserted into its field's cache in order of time; the earliest and latest timestamps follow records that have fields |
| InterpolationTransforms.InterpolationTransform.CleanCache | logger/transforms/interpolation_transform.py:218-231 | every cache keeps exactly its points since half a window before the next instant |
| InterpolationTransforms.Evict | logger/transforms/interpolation_transform.py:222-231 | the scan of one field's cache keeps the points from the limit on |
| InterpolationTransforms.InterpolationTransform.ComputeRow | logger/transforms/interpolation_transform.py:281-293 | the result at an instant, field by field |
| InterpolationTransforms.InterpolateAt | logger/transforms/interpolation_transform.py:306-393 | computes the value of each algorithm, which WindowAverages and FindNearest are about |
| InterpolationTransforms.InterpolationTransform.EmitOne | logger/transforms/interpolation_transform.py:278-300 | one turn of the loop: clean, compute, emit if there is a value, move on by one interval |
| InterpolationTransforms.InterpolationTransform.EmitDue | logger/transforms/interpolation_transform.py:277-300 | the whole loop terminates and emits the rows of the instants it visits, each as if nothing had been evicted for the ones before |
| InterpolationTransforms.InterpolationTransform.Transform | logger/transforms/interpolation_transform.py:233-302 | what is returned for a record, and what is kept, for any records received |
| InterpolationRuns.ArrivalsSortPoints | logger/transforms/interpolation_transform.py:206-216 | the arrivals of a field are all its points, each once, sorted by time |
| InterpolationRuns.KeptAgrees | logger/transforms/interpolation_transform.py:206-231 | late arrivals included, a cache holds what has arrived for its field but for what was evicted |
| InterpolationRuns.FloorStaysBehind | logger/transforms/interpolation_transform.py:261-300 | if no record with fields has a negative time, or the first record has fields and a positive time, evictions stay half a window behind the next instant |
| InterpolationRuns.EvictionNeverShows | logger/transforms/interpolation_transform.py:233-302 | and what transform returns depends on all that arrived and not on what was evicted |
| InterpolationRuns.EvictionCanShow | logger/transforms/interpolation_transform.py:261-300 | two records, the first at a negative time, after which the clock comes back to zero, starts again, and a value is missing for what was evicted |
| InterpolationRuns.OutputShows | logger/transforms/interpolation_transform.py:277-300 | for any algorithms a call returns a record for each instant due at which some field has a value, with exactly these fields and values |
| InterpolationRuns.EarliestIs | logger/transforms/interpolation_transform.py:158-204 | the clock's earliest time is the earliest of the records with fields |
| InterpolationRuns.BoxcarSeesAll | logger/transforms/interpolation_transform.py:335-344 | a boxcar no wider than the cache window is the mean of all values so far within its window, or none without any |
| InterpolationRuns.WideBoxcarSeesLess | logger/transforms/interpolation_transform.py:218-231 | a wider one misses what is more than half a cache window old |
| InterpolationRuns.NearestSeesAll | logger/transforms/interpolation_transform.py:363-374 | the nearest value is that of the nearest arrival if one is within half a cache window |
| InterpolationRuns.EachInstantOnce | logger/transforms/interpolation_transform.py:266-300 | over any run whose first record has fields and a positive time, each grid instant from that time to half a window before the latest is visited exactly once |
| InterpolationRuns.NoFieldsFirstStopsTheClock | logger/transforms/interpolation_transform.py:261-264 | the next instant is infinite for ever if and only if the first record had no fields |
| InterpolationRuns.NeverEmits | logger/transforms/interpolation_transform.py:277-277 | and then nothing is ever emitted |
| InterpolationRuns.OfflineValueIs | logger/transforms/interpolation_transform.py:335-344 | the offline value of a boxcar is the mean of all values that arrived within its window, or none without any |
| InterpolationRuns.OutputIsOffline | logger/transforms/interpolation_transform.py:233-302 | where the first record has fields and a positive time and those with fields come in order, what was emitted so far is what the records so far give at all instants visited, with nothing evicted |
| InterpolationRuns.OnlineEqualsOffline | logger/transforms/interpolation_transform.py:233-302 | for such input, records without fields in between, and boxcars no wider than the cache window, everything emitted over the run equals averaging over the finished stream, at each grid instant before half a window before the latest record |
| InterpolationRuns.EmittedAreMeans | logger/transforms/interpolation_transform.py:233-302 | so a run gives, in order, at the instants first, first + interval, ... before half a window before the latest record and nowhere else, a record with the mean of all the values around it for each field that has any, if some field has |
| LoggerSupervisors.LoggerRunner.Start | server/logger_runner.py:210-234 | a process exists and the failed and quit flags are cleared |
| LoggerSupervisors.LoggerRunner.Quit | server/logger_runner.py:254-279 | no process and no failure are left |
| LoggerSupervisors.SomeGapIsLong | server/logger_supervisor.py:108-128 | among any max_tries + 1 successive restarts some two consecutive ones are at least min_uptime apart |
| LoggerSupervisors.ManyRestartsTakeTime | server/logger_supervisor.py:108-128 | with a clock that does not go back, more than max_tries restarts span at least min_uptime |
| LoggerSupervisors.RestartsNeedTries | server/logger_supervisor.py:119-124 | with max_tries of zero a dead logger is never restarted |
| LoggerSupervisors.RestartKeepsRate | server/logger_supervisor.py:108-128 | one more restart keeps the rate bounded |
| LoggerSupervisors.GiveUpKeepsRate | server/logger_supervisor.py:115-124 | so does giving a logger up |
| LoggerSupervisors.DecideIs | server/logger_supervisor.py:108-124 | the count is the number of deaths, from this one back, that came within min_uptime of the restart before; the logger is restarted exactly if max_tries is positive and not all of its last max_tries deaths did |
| LoggerSupervisors.CheckIs | server/logger_supervisor.py:91-128 | a check of a runnable, dead logger that was not given up notes its death and restarts it exactly then, so always if it lived for min_uptime, and gives it up otherwise; any other logger is left alone |
| LoggerSupervisors.LoggerSupervisor.CheckLogger | server/logger_supervisor.py:91-128 | one logger: left alone if not runnable, alive or failed; otherwise restarted with the count and time noted, or declared failed; with clock readings that do not go back, its restarts stay in order of time |
| LoggerSupervisors.LoggerSupervisor.NoteDeath | server/logger_supervisor.py:108-127 | the count goes up for a death within min_uptime of the last restart and to zero otherwise, and it is restarted exactly if it deserves that by all its deaths so far |
| LoggerSupervisors.LoggerSupervisor.CheckLoggers | server/logger_supervisor.py:87-128 | every logger as above, independently of the others, and the restart rate of each stays bounded over every run; a clock that does not go back is kept so |
| LoggerSupervisors.LoggerSupervisor.RestartsTakeTime | server/logger_supervisor.py:87-128 | so in every run by such a clock more than max_tries restarts of one logger span at least min_uptime |
| LoggerSupervisors.LoggerSupervisor.StartLogger | server/logger_supervisor.py:131-145 | the logger is in both maps with a fresh started runner |
| LoggerSupervisors.LoggerSupervisor.DeleteLogger | server/logger_supervisor.py:148-158 | the runner is told to quit and both maps lose the logger |
| LoggerSupervisors.LoggerSupervisor.DropStale | server/logger_supervisor.py:177-188 | exactly the loggers not wanted are gone |
| LoggerSupervisors.LoggerSupervisor.AddNew | server/logger_supervisor.py:178-196 | exactly the new loggers get fresh runners |
| LoggerSupervisors.LoggerSupervisor.ReplaceAmong | server/logger_supervisor.py:201-213 | exactly the changed loggers get fresh runners |
| LoggerSupervisors.LoggerSupervisor.UpdateConfigs | server/logger_supervisor.py:161-213 | both maps have the wanted loggers with exactly the wanted configurations; a logger whose configuration did not change keeps its runner untouched, every other runner is new; nothing at all happens after quit, nor when nothing changed |
| LoggerSupervisors.LoggerSupervisor.Reconcile | server/logger_supervisor.py:173-213 | the three loops together: wanted configurations exactly, unchanged runners untouched, every other one fresh |
| LoggerSupervisors.LoggerSupervisor.Replace | server/logger_supervisor.py:212-213 | the old runner is told to quit and a fresh one has the new configuration |
| LoggerSupervisors.LoggerSupervisor.Quit | server/logger_supervisor.py:78-84 | both maps are empty, every runner was told to quit, and since the flag is never cleared the maps stay empty |
| LoggerSupervisors.LoggerSupervisor.GetStatus | server/logger_supervisor.py:214-243 | one entry a logger with its configuration name, and EXITED, RUNNING, FAILED or STARTING in this order of precedence, told from the configuration, the process and the failed flag |
| ServerApi.InMemoryServerAPI.GetLoggers | server/in_memory_server_api.py:74-92 | notes the active configuration of every logger; raises if there are no loggers or one has none |
| ServerApi.InMemoryServerAPI.GetLoggerConfigs | server/in_memory_server_api.py:109-122 | every logger's configuration, or None without a definition; raises exactly when some logger cannot be looked up |
| ServerApi.CurrentIsFound | server/in_memory_server_api.py:74-150 | all loggers are found if and only if there are any and each has a current name of a configuration that exists, and each is found in that |
| ServerApi.ActiveModeIsFound | server/in_memory_server_api.py:125-150 | all loggers of an active mode are found if and only if the mode is complete, each in the configuration the mode names |
| ServerApi.ByNameOrCurrent | server/in_memory_server_api.py:125-150 | asking for the active mode by name and asking for what is current is the same |
| ServerApi.ModeConfigsAreFound | server/in_memory_server_api.py:165-188 | noting the active mode does not change what is found |
| ServerApi.InMemoryServerAPI.OnUpdate | server/server_api.py:204-208 | the callback is called after those registered before |
| ServerApi.InMemoryServerAPI.SignalUpdate | server/server_api.py:211-215 | the callbacks are called in order until one raises; together they leave the supervisor as one call would |
| ServerApi.LoggerManager.UpdateConfigs | server/logger_manager.py:266-283 | the supervisor is handed what the store says, or nothing if that is nothing; an error is passed on and changes nothing |
| ServerApi.InMemoryServerAPI.SetActiveMode | server/in_memory_server_api.py:165-188 | an unknown mode raises and changes nothing; after a known one the supervisor runs exactly that mode's configurations, unless it has quit, if and only if the mode is complete; otherwise the error is raised and the supervisor goes on as before |
| ServerApi.InMemoryServerAPI.SetActiveLoggerConfig | server/in_memory_server_api.py:191-200 | one logger's name changes, and the supervisor follows |
| ServerApi.InMemoryServerAPI.LoadConfiguration | server/in_memory_server_api.py:313-330 | configurations get the names they go by, a missing one raises, and the default mode is made active if there is one |
| ServerApi.NamedIs | server/in_memory_server_api.py:318-325 | a configuration keeps the name it has, gets the one it goes by otherwise, and keeps all else |
| ServerApi.InMemoryServerAPI.NameConfigs | server/in_memory_server_api.py:318-325 | exactly the configurations without a name get one |
| ServerApi.InMemoryServerAPI.DeleteConfiguration | server/in_memory_server_api.py:336-342 | nothing is loaded and no logger has a configuration |
| DjangoCaches.StepKeepsInv | django_gui/django_server_api.py:75-109 | every access of any process to the database or the clock keeps: a trusted cache is empty, right, or older than the last stamp, unless rows are unstamped |
| DjangoCaches.DirtIsAccountedFor | django_gui/django_server_api.py:393-495 | rows stay unstamped only while an update is under way or after one ended without a stamp |
| DjangoCaches.RunKeepsInv | django_gui/django_server_api.py:315-344 | over every interleaving of queries and updates of any number of processes |
| DjangoCaches.CachedAnswersAreFresh | django_gui/django_server_api.py:315-344 | every cached answer decided while no update was under way equals what a query would have found then |
| DjangoCaches.OneCall | django_gui/django_server_api.py:315-344 | one call begun in quiet answers at once what a query would have found at its beginning, or queries, whatever the others do meanwhile |
| DjangoUpdates.TaskAlone | django_gui/django_server_api.py:406-440 | how an update handles one logger: clears the old flag, finds the new configuration or falls back on mode off, moves the logger, skips it or stops |
| DjangoUpdates.SetLoggerAlone | django_gui/django_server_api.py:459-495 | by itself it moves the logger and stamps that, or raises; and leaves rows unstamped exactly when the logger had a configuration and the new one does not exist or is not its own |
| DjangoUpdates.SetModeAlone | django_gui/django_server_api.py:393-451 | by itself it handles every logger and stamps that, or stops at the first logger it cannot place with the tables as they are by then, unstamped exactly when a row was written |
| DjangoUpdates.ModeLoopAlone | django_gui/django_server_api.py:406-444 | the loop over the loggers, from any of them on |
| DjangoUpdates.AfterLoopStops | django_gui/django_server_api.py:406-431 | where it stops, all loggers before have been handled and the flag of the one it stopped at is cleared |
| DjangoUpdates.BadInMode | django_gui/django_server_api.py:413-431 | the loop stops at a logger exactly when its old row is gone, or it has no configuration in the mode and there is no mode off |
| DjangoUpdates.LoopHandles | django_gui/django_server_api.py:406-440 | every logger the loop comes to ends up as if it alone had been handled |
| DjangoUpdates.LoopLeaves | django_gui/django_server_api.py:406-440 | every other logger and its rows stay as they were |
| DjangoUpdates.MoveSetsFlags | django_gui/django_server_api.py:409-440 | moving a logger makes its current flags agree with its row; skipping it clears the flag of a configuration the row still names |
| DjangoUpdates.ModeSetsFlags | django_gui/django_server_api.py:406-440 | after a mode change the flags of a logger it moved or skipped agree exactly when it was not skipped or had no configuration, and it is in the configuration the mode gives it |
| DjangoTables.ModeChangeIs | django_gui/django_server_api.py:393-444 | told from the tables alone: the loggers, one after the other, are in the configuration the mode names if that exists and is their own, else in that of mode off, else where they were, up to one that cannot be handled; stamped if and only if there is none; current flags follow, and nothing else changes but the active mode |
| DjangoTables.ModeChangeIsStampedIff | django_gui/django_server_api.py:393-444 | stamped if and only if it can handle every logger, and then every logger is where the mode says |
| DjangoTables.LoopFlags | django_gui/django_server_api.py:406-440 | what it does to the current flags of each logger's rows |
| DjangoTables.SetLoggerIs | django_gui/django_server_api.py:455-488 | the other update, told likewise: when it moves the logger and stamps that, and what is left of the tables in any case |
| DjangoTables.DeleteIs | django_gui/django_server_api.py:886-890 | delete_configuration leaves no cruise, mode, logger or configuration, nothing current, and stamps that |
| DjangoStaleness.CurrentIsAllShown | django_gui/django_server_api.py:331-341 | what a query finds is, logger by logger, the text of the last current row of it in the table |
| DjangoStaleness.LoopShows | django_gui/django_server_api.py:331-341 | a query finds something else after the loop exactly when it shows something else of some logger the loop came to |
| DjangoStaleness.VisibleIffShifts | django_gui/django_server_api.py:409-440 | where flags and row agree, that is when the logger was stopped at or skipped with a configuration, gained one, or moved to one with another text |
| DjangoStaleness.ClearingShows | django_gui/django_server_api.py:409-413 | clearing a flag shows exactly when its row was the last current one of its logger and the one before it, if any, has another text |
| DjangoStaleness.StaleIffRefused | django_gui/django_server_api.py:459-495 | another process's good cache gives a wrong answer after the update exactly when the update was refused and the cleared row decided in that way what a query showed |
| DjangoStaleness.AgreeingDecides | django_gui/django_server_api.py:463-470 | it does where flags and rows agree |
| DjangoStaleness.StaleIffStopped | django_gui/django_server_api.py:393-451 | after a mode change exactly when it stopped at a logger and by then a query showed something else of one |
| DjangoStaleness.StaleIffStoppedAgreeing | django_gui/django_server_api.py:393-451 | the same where flags and rows agree, told from the configurations that the loggers had and were to get |
| DjangoStaleness.PreparedIsTrusting | django_gui/django_server_api.py:315-344 | from any database with a current configuration the processes come to where these begin |
| DjangoStaleness.RefusalCanGoStale | django_gui/django_server_api.py:459-495 | so from any database in which a refused update clears such a row, a run makes a cache stale |
| DjangoStaleness.StopCanGoStale | django_gui/django_server_api.py:393-451 | and from any in which a mode change stops after one logger shows something else |
| DjangoStaleness.RefusalGoesStale | django_gui/django_server_api.py:459-495 | such a database and a refused update |
| DjangoStaleness.StopGoesStale | django_gui/django_server_api.py:393-451 | such a database and a stopped mode change |
| DjangoStaleness.FailedQueryIsTrusted | django_gui/django_server_api.py:331-341 | a query that fails after its time was marked leaves a wrong answer trusted exactly when there is an old one, it is wrong, and no later stamp was set |
| DjangoStaleness.FailedQueryCanGoStale | django_gui/django_server_api.py:315-344 | from any database a run of an update that shows and a failed query does so |
| DjangoStaleness.FailedQueryGoesStale | django_gui/django_server_api.py:315-344 | such a database |
| TcpFraming.PiecesExtend | logger/readers/tcp_reader.py:185-213 | more bytes leave the pieces there are and continue from what was left over, so the division into chunks does not matter |
| TcpFraming.PiecesJoin | logger/readers/tcp_reader.py:205-213 | pieces joined with eol, and the rest, are the stream; a piece is followed by its eol and holds none; nor does the rest |
| TcpFraming.PiecesUnique | logger/readers/tcp_reader.py:205-213 | there is no other way to write a stream so |
| TcpFraming.WholeHoldsNoEol | logger/readers/tcp_reader.py:205-209 | a record contains no eol |
| TcpFraming.ChunkKeepsFrames | logger/readers/tcp_reader.py:186-203 | receiving keeps: records returned are the leading pieces of the bytes received and the buffer is what is left |
| TcpFraming.CutKeepsFrames | logger/readers/tcp_reader.py:205-213 | so does cutting off a record at the first eol |
| TcpFraming.TCPReader.ReadToEol | logger/readers/tcp_reader.py:185-213 | returns the next piece of the bytes received, taking no more chunks than it must, for any non-empty eol also across chunks; when disconnected, or waiting, every complete piece has been returned and the buffer is kept |
| Bits.BitXorBits | logger/transforms/nmea_checksum_transform.py:35-38 | the exclusive or, bit by bit |
| Bits.BitXorCancels | logger/transforms/nmea_checksum_transform.py:35-38 | what was combined can be told apart again |
| Nmea.XorIsParity | logger/transforms/nmea_checksum_transform.py:35-38 | each bit of the checksum tells whether the number of characters with that bit is odd |
| Nmea.XorUpdate | logger/transforms/nmea_checksum_transform.py:35-38 | replacing one character changes the exclusive or |
| Nmea.XorIgnoresOrder | logger/transforms/nmea_checksum_transform.py:35-38 | the order of the characters does not |
| Nmea.HexParses | logger/transforms/nmea_checksum_transform.py:38-38 | reading back the printed digits gives the value, of any size, and no digit is a star |
| Nmea.HexDigits | logger/transforms/nmea_checksum_transform.py:38-38 | the digits are upper-case hexadecimal, at least two, with no leading zero if there are more |
| Nmea.HexInjective | logger/transforms/nmea_checksum_transform.py:38-38 | different values print differently |
| Nmea.FrameVerdict | logger/transforms/nmea_checksum_transform.py:10-111 | accept, reject or raise, for every $body*checksum |
| Nmea.PrefixedVerdict | logger/transforms/nmea_checksum_transform.py:10-111 | text without the two signs before a frame does not matter |
| Nmea.NoFrameVerdict | logger/transforms/nmea_checksum_transform.py:10-111 | without a star a record is accepted or rejected as checksums are optional or not; with one but no dollar sign before it, it raises |
| Nmea.AcceptedIffBuilt | logger/transforms/nmea_checksum_transform.py:92-111 | a frame is accepted exactly when it is the sentence built from its body and that is not empty and has no star |
| Nmea.ChangedBody | logger/transforms/nmea_checksum_transform.py:92-111 | a changed body under the old checksum is accepted exactly when it is not empty, has no star and has the same exclusive or |
| Nmea.OneWrongCharacter | logger/transforms/nmea_checksum_transform.py:92-111 | one character replaced by any other, a star included, is never accepted |
| Nmea.WrongOrder | logger/transforms/nmea_checksum_transform.py:92-111 | characters in another order always are |
| NmeaTransforms.BuiltIsAccepted | logger/transforms/nmea_transform.py:37-39 | a sentence built from parts with commas is accepted exactly when no part has a star |
| NmeaTransforms.StarsInParts | logger/transforms/nmea_transform.py:226-228 | a body has a star exactly when a part has one |
| NmeaTransforms.MWDTransform.Transform | logger/transforms/nmea_transform.py:172-231 | remembers the wind, fills in meters per second from knots, and returns nothing, a sentence or a TypeError |
| NmeaTransforms.SplitJoined | logger/transforms/nmea_transform.py:226-228 | parts without commas can be read off the body they are joined in |
| NmeaTransforms.MwdReads | logger/transforms/nmea_transform.py:206-229 | the nine parts of a sentence, by place: true direction, magnetic direction if the variation is known, knots, meters per second, which is 0.514444 of the knots if not configured |
| NmeaTransforms.HeardIsLastSaid | logger/transforms/nmea_transform.py:182-199 | after any records what is remembered is what the last record that had the field said |
| NmeaTransforms.EmitsIff | logger/transforms/nmea_transform.py:196-224 | a sentence comes exactly when direction and knots are known and meters per second are known or computed; so with meters per second alone none ever does |
| NmeaTransforms.MwdIsAccepted | logger/transforms/nmea_transform.py:218-231 | and it is accepted exactly when the talker has no star |
| Bits.BitOrBits | logger/readers/modbus_serial_reader.py:338-338 | the or, bit by bit |
| Bits.SameBits | logger/readers/modbus_serial_reader.py:334-350 | a byte is determined by its bits |
| Modbus.PackCounting | logger/readers/modbus_serial_reader.py:334-352 | bit i % 8 of byte i / 8 is coil i, with ceil(n / 8) bytes and zero padding |
| Modbus.PackByIndex | logger/readers/modbus_reader.py:183-191 | the same for the loop of the other reader |
| Modbus.UnpackPacked | logger/readers/modbus_serial_reader.py:334-352 | unpacking undoes packing |
| Modbus.CoilsMean | logger/readers/modbus_serial_reader.py:334-352 | the bit of a coil is set exactly if it was read as true or as a number other than 0 |
| Modbus.PackedUnique | logger/readers/modbus_reader.py:183-191 | there is one way to pack, so both loops compute the same |
| Modbus.PackRegisters | logger/readers/modbus_serial_reader.py:355-358 | two bytes a value, high one first, that decode to it; a value that does not fit raises |
| Modbus.RegistersMean | logger/readers/modbus_serial_reader.py:355-358 | the two bytes of a value decode to the number read, 1 or 0 for a flag, 0 for a missing one |
| Modbus.BigEndianUnique | logger/readers/modbus_serial_reader.py:355-358 | there is at most one such encoding, and none of a value that does not fit |
| Modbus.FlattenJoins | logger/readers/modbus_serial_reader.py:324-327 | blocks, one after the other, keep their order |
| Modbus.FlattenBlock | logger/readers/modbus_reader.py:171-171 | each block's values follow those of the blocks before, in their order |
| Modbus.FormatSerial | logger/readers/modbus_serial_reader.py:323-358 | coils or registers as the function read says |
| Modbus.FormatTcp | logger/readers/modbus_reader.py:158-198 | coils or registers as the values look |
| Modbus.ReadersAgree | logger/readers/modbus_reader.py:173-198 | both readers make the same record exactly when there is nothing to record or bits were read as coils and other values as registers |

## Left out

- ComposedReader: the single-reader shortcut, the transforms applied to a record once it is popped, and which of the possible steps get their turn: CanReturnIff and NextReadCanReturn say when read() can return, not that it does.
- TextFiles.TextFileReader.Seek: `Halts` excludes the calls that never return, a forward seek with no file open or openable and a positive offset from the end of the files.
- TextFileReader: standard input, tail, refresh and growing files, records ended by an `eol` string, and sleeping between reads.
- LogfileReader: timed replay, JSON records, blank lines and timestamps that do not parse; a record's timestamp is a function of its text.
- RecordCache: metadata, the disk cache, and list values without timestamps.
- Subscriptions: wildcards in field names, requests that are not dicts, and describe, publish and auth messages.
- DeliveryRuns.NothingMissed: one field and one client, with strictly increasing timestamps; other fields have their own lists and marks.
- InterpolationRuns.EvictionNeverShows: for records with fields and no negative time, or a first record with fields and a positive one; EvictionCanShow is a run where neither is so and eviction shows.
- InterpolationTransform: polar averages, list values, values that are not numbers, metadata, and rounding.
- LoggerSupervisors: processes, signals and stderr files; a process that cannot be killed; the threads, of which each call runs under the lock as one step.
- ServerApi: `signal_load` callbacks, status and message logs (get_message_log does not step past a message that it filters out), and the loops of LoggerManager.
- DjangoStaleness.StaleIffStopped: for databases in which a logger's configuration is one of its own, as both updates see to.
- DjangoStaleness: a query reads the rows in one fixed order, that of the table, which the source leaves to the database; no row is added.
- DjangoCaches: get_logger_configs for a given mode, which is not cached; reading one row and writing it back is one step; get_active_mode, load_configuration, status and messages; transactions; names are taken to be unique.
- TcpFraming: decoding, reads by size, and the listening socket.
- NmeaTransforms: printing numbers is a parameter; which parts XDRTransform, DPTTransform and STNTransform choose from a record, of which only the assembly is covered by BuiltIsAccepted.
- Modbus: polling, reconnecting, register specifications and text records.
- SQL, Mongo and SQLite stores, web views, command lines and small stateless transforms: thin wrappers and easy members.
