# A verified model of eCAL's measurement store, process start, measurement cutter, description gate, events and simulation time

The project models five parts of eCAL and proves what they are for.

**The measurement store** (`contrib/ecalhdf5/src`). A recording goes through a writer that
appends numbered payload datasets to an HDF5 file, keeps a table of contents in memory,
starts a new file when the size limit is hit and writes the table when a file is closed. A
reader lists the files of the directory in some order, numbers all entries anew and builds
an index by number and an index by channel. Names are percent-escaped, joined with commas,
put in URLs and next to hexadecimal ids on the way.

- `Strings`, `Escape`, `Hdf5`, `Entries`, `Ordering`: the encodings, an HDF5 file as a tree of
  named objects with attributes, and the containers with their orders.
- `Layout`: what a closing file writes and how the V5 and V6 readers find it again.
- `Recording`: the writer as a state machine over arbitrary runs, in which file creation may
  fail and the reported file size is arbitrary; `FileWriter` is the object, method by method
  proved against it; `SplitBound` bounds the files; `ChannelFiles` is about their paths.
- `MeasDir`: the opening of a directory, with its two indexes; `DirFacts`, `Queries`: what the
  indexes and the queries on them say about the files.
- `Lossless`, `Api`: the end-to-end theorem, for escaped names and for the names callers use;
  `FileOrder`, `TypeInfos`: when the order of the files matters for records and for type
  information.
- `Directory`, `DirectoryRead`: a directory with a map of writers, one for each channel name or
  one for all, which share its files, and when all that they accepted is read back;
  `Collision`: a recording with one file per channel in which one writer replaces a file of
  another.

`EntryInfo` is ordered by its receive timestamp alone
(`contrib/measurement/base/include/ecal/measurement/base/types.h:147-150`), and `EntryInfoSet`
is a `std::set`. Hence an entry whose channel already has one with the same receive
timestamp is dropped when the file is read. Payloads are datasets named by their number at
the root of the file, where a closing file also puts the groups or tables of its channels.
Hence a channel whose escaped name is the number of a payload in the same file gets no table
there. So recording is not lossless in general. The model keeps the code as it is:
`Api.RecordingIsLosslessIff` gives the exact condition, which is that neither happens,
`Api.SameTimeIsLost` and `Api.ZeroIsLost` are concrete losses, and `DirFacts.ReadBackIsMerged`
says what is read back in every case.

**Starting a process on Linux** (`ecal_process.cpp`, `ecal_process_stub.cpp`). `Handshake` is
the protocol between the caller, the twice-forked grandchild and the terminal stub as a state
machine over the FIFO, the locked file and the program counters; forks, `chdir` and both
`execvp` calls may fail and the 5 s `select` may time out. Without a timeout the result says
which process runs the target (`Handshake.ReportsWhatRuns`); after one, the target may run
although 0 was returned (`Handshake.TimedOutMayRun`). `Quoting` is the command line a process
reports about itself and the repository's own parser for it, whose grammar is given by
`Quoting.ScanLine`. That parser splits at tabs and line breaks, too, which the builder does not
quote; `Quoting.RoundTripIff` states exactly which vectors it recovers, while
`Quoting.CommandLineInjective` holds for all.

**The measurement cutter** (`app/meas_cutter`). `ThreadPool` is the worker pool as a state
machine whose steps are single critical-section operations, spurious wakeups included.
`NameApi`, `Cutter` and `CutFilter` are the name-level interface, the converter, and the proof
that what it writes, read back through the store, is a filter of what it read; `CutInfos` is
about the type information of the output. `EndToEnd` joins both ends: a recording is opened,
cut, and the cut opened again.

**The description gate** (`ecal_descgate.cpp`). `Registry` has the log of one map, its
notifications, and their delivery after the lock is dropped; `Delivery` says exactly when that
delivery keeps the notifications in order, which it does not in general
(`Registry.DeliveriesOvertake`, `Delivery.OrderlyIff`); `DescGate` has the objects. The order of
`SServiceMethodInformation` leaves out the request type
(`ecal/core/include/ecal/service/types.h:129-132`), so a service's method set may miss methods:
`DescGate.MethodsCompleteIff`.

**Events and simulation time.** `Events` has both kinds of events under all interleavings;
`SimTime` the clock of `dynamic_sleeper.h` with reals for doubles.

Assumptions about what the model does not compute: HDF5 calls other than file creation
succeed, unless an object is in the way, and it creates no file at a path that is open in the
process; channel names in the theorems about the store are neither empty nor `.`
(`Layout.StorableIff`; the empty name is accepted and never read back,
`Api.EmptyNameIsAccepted`, `Api.EmptyNameIsNeverRead`), while numerals, slashes, commas and all
other bytes are covered; the system calls of the handshake succeed except where an outcome is
a parameter of a step, and `errno` is positive after a failed `execvp`; an FIFO message is one
write and one read; timestamps in queries and in the cutter are 64-bit numbers, with
arithmetic on them unbounded.

## Model

| member | source | states |
|---|---|---|
| Escape.GetEscapedString | contrib/ecalhdf5/src/escape.cpp:551-572 | the loop computes the escape function of either reserved table, which `Escape.TopicByte` and `Escape.FileByte` give byte by byte |
| Escape.GetUnescapedString | contrib/ecalhdf5/src/escape.cpp:584-610 | the index-advancing loop computes the unescape function, malformed escapes included |
| Escape.UnescapeEscape | contrib/ecalhdf5/src/escape.cpp:551-610 | unescaping undoes escaping of every byte string, for topics and file names |
| Escape.EscapeInjective | contrib/ecalhdf5/src/escape.cpp:551-582 | different strings have different escaped forms |
| Escape.EscapedBytes | contrib/ecalhdf5/src/escape.cpp:551-582 | no reserved byte but the percent sign occurs in an escaped name, so no comma or slash in a topic |
| Escape.TopicByte | contrib/ecalhdf5/src/escape.cpp:31-289 | printable ASCII other than `%`, comma and slash stays itself in a topic name, every other byte becomes `%` and its two upper-case digits |
| Escape.FileByte | contrib/ecalhdf5/src/escape.cpp:291-549 | in a file name every byte stays itself but control characters, the percent sign and the nine bytes special to file systems, which become their digits |
| Escape.TopicBytes | contrib/ecalhdf5/src/escape.cpp:575-578 | an escaped topic is printable ASCII without comma and slash |
| Escape.FileBytes | contrib/ecalhdf5/src/escape.cpp:580-583 | an escaped file name has no control character and none of the bytes special to file systems, the slash among them |
| Escape.UnescapeReads | contrib/ecalhdf5/src/escape.cpp:585-610 | `%` and two digits of either case are one byte, other bytes stand for themselves, and so does a `%` too near the end |
| Escape.ScanBytes | contrib/ecalhdf5/src/escape.cpp:596-603 | what any two bytes after a `%` are read as: two digits, one digit before another byte or after white space or a sign, 0 for white space, else nothing |
| Strings.SplitLoop | lib/ecal_utils/include/ecal_utils/string.h:81-102 | the loop of `String::Split` returns the non-empty fields in order |
| Strings.JoinIsUndoneIff | contrib/ecalhdf5/src/eh5_meas_file_v2.cpp:125-139 | splitting undoes joining of delimiter-free names exactly if none is empty |
| Strings.ParsePrintHex | contrib/ecalhdf5/src/hdf5_helper.h:70-80 | parsing undoes printing of every 64-bit id |
| Strings.PrintHexInjective | contrib/ecalhdf5/src/hdf5_helper.h:70-75 | different ids have different link names |
| Strings.DecimalDenotes | contrib/ecalhdf5/src/eh5_meas_file_writer_v6.cpp:234-234 | the numeral that names a payload denotes its number in base ten, without a leading zero |
| Hdf5.ResolveUrl | contrib/ecalhdf5/src/hdf5_helper.h:82-88 | a V6 URL resolves to exactly its channel, id and attribute |
| Entries.DecodeTable | contrib/ecalhdf5/src/eh5_meas_file_v5.cpp:44-78 | the stride-5 loop yields the rows' set, first row of a timestamp kept |
| Entries.RowsOfCells | contrib/ecalhdf5/src/hdf5_helper.cpp:179-227 | the table of contents decodes to the rows it was made from |
| Entries.SetOfKeepsFirst | contrib/measurement/base/include/ecal/measurement/base/types.h:147-157 | a set of entries holds the first inserted of every receive timestamp |
| Layout.SplitTypeIff | contrib/ecalhdf5/src/datatype_helper.cpp:26-57 | the combined type string is taken apart correctly iff the encoding has no colon and, if it is empty, the name has none |
| Layout.StorableIff | contrib/ecalhdf5/src/escape.h:39-50 | the escaped form of a name is one link that a list can hold iff the name is neither empty nor `.` |
| Layout.ReadBackV6 | contrib/ecalhdf5/src/eh5_meas_file_v6.cpp:47-126 | a closed V6 file lists exactly the writer's (name, id) keys whose name is no payload's number, and returns each type information and the entries up to equal timestamps |
| Layout.ReadBackV5 | contrib/ecalhdf5/src/eh5_meas_file_v5.cpp:44-78 | a closed V5 file lists exactly the channels with entries whose name is no payload's number, and returns the entries up to equal timestamps |
| Layout.ReadInfoV5Iff | contrib/ecalhdf5/src/eh5_meas_file_v2.cpp:148-165 | V5 returns a channel's type information iff the combined string can be taken apart and no attribute is a single NUL |
| Layout.ColonIsLost | contrib/ecalhdf5/src/datatype_helper.cpp:26-57 | an encoding with a colon, accepted by a V5 writer, does not come back |
| Layout.FinishKeepsPayloads | contrib/ecalhdf5/src/eh5_meas_file_v2.cpp:292-310 | after closing, every payload is found under its number and unchanged |
| Layout.OnDiskV6 | contrib/ecalhdf5/src/eh5_meas_file_writer_v6.cpp:321-349 | the groups and datasets of a channel in a closed V6 file, by their literal names, and what is in each |
| Layout.OnDiskV5 | contrib/ecalhdf5/src/eh5_meas_file_writer_v5.cpp:71-98 | the table of a channel in a closed V5 file and its two attributes, by their literal names |
| FileWriter.ChannelList | contrib/ecalhdf5/src/eh5_meas_file_writer_v6.cpp:75-91 | appending commas and dropping the last one is the joined list |
| FileWriter.MeasFileWriter.Close | contrib/ecalhdf5/src/eh5_meas_file_writer_v6.cpp:71-104 | the object goes to the closed state of the state machine, tables written and cleared |
| FileWriter.MeasFileWriter.Create | contrib/ecalhdf5/src/eh5_meas_file_writer_v6.cpp:262-297 | without a directory nothing happens; else the previous file is closed, and the counter advances exactly if the file could be created |
| FileWriter.MeasFileWriter.AddEntryToFile | contrib/ecalhdf5/src/eh5_meas_file_writer_v6.cpp:207-250 | the state after an added or rejected entry, with up to two file creations |
| FileWriter.MeasFileWriter.SetChannelDataTypeInformation | contrib/ecalhdf5/src/eh5_meas_file_writer_v5.cpp:148-153 | the slot of the channel, by name in V5, gets the information and keeps its entries |
| Recording.FinishArchives | contrib/ecalhdf5/src/eh5_meas_file_writer_v5.cpp:71-98 | closing turns an open file into one that reads back its stretch of the log, but for channels named by a payload's number |
| Recording.StepKeeps | contrib/ecalhdf5/src/eh5_meas_file_writer_v6.cpp:71-104 | every operation keeps: each file on disk holds its own stretch of the log, the writer's table the current one |
| Recording.RunIsFiled | contrib/ecalhdf5/src/eh5_meas_file_writer_v6.cpp:207-297 | the same over all runs, with any failures, sizes and splits |
| Recording.PathInjective | contrib/ecalhdf5/src/eh5_meas_file_writer_v6.cpp:274-280 | different split numbers give different paths |
| Recording.CreatesIff | contrib/ecalhdf5/src/eh5_meas_file_writer_v6.cpp:262-297 | a file is created iff there is a directory and a base name and nothing fails, at a path given literally, with its version and nothing else in it |
| Recording.StaysIffFits | contrib/ecalhdf5/src/eh5_meas_file_writer_v6.cpp:299-306 | an entry goes into the open file iff the sizes add up to at most the limit in 64 bits, and else into the next file if that can be created |
| SplitBound.FilesAreBounded | contrib/ecalhdf5/src/eh5_meas_file_writer_v5.cpp:203-336 | over all runs, a file with two or more entries has at most the limit of payload |
| SplitBound.IdsIncrease | contrib/ecalhdf5/src/eh5_meas_file_writer_v5.cpp:232-242 | in-file ids increase strictly from file to file, whatever the channels |
| ChannelFiles.SamePathIff | contrib/ecalhdf5/src/eh5_meas_dir.cpp:490-523 | two files of two channels share a path iff they are the same, or one is a first file whose file name is the other's with `_n` appended, n its split |
| ChannelFiles.PathsCollide | contrib/ecalhdf5/src/eh5_meas_dir.cpp:513-515 | such a pair: the second file of `a` and the first of `a_1` |
| ChannelFiles.PathIs | contrib/ecalhdf5/src/eh5_meas_dir.cpp:513-515 | the path in one-file-per-channel mode, with the escaped name after the base name and an underscore |
| ChannelFiles.StaysInDirectory | contrib/ecalhdf5/src/eh5_meas_dir.cpp:513-515 | a channel's file is in the directory itself, whatever bytes the channel's name has |
| ChannelFiles.RunIsPlaced | contrib/ecalhdf5/src/eh5_meas_file_writer_v6.cpp:262-297 | after any run, whatever its names, failures and sizes, the paths on disk are those of split 0 to the current one |
| ChannelFiles.CreatesNewPath | contrib/ecalhdf5/src/eh5_meas_file_writer_v6.cpp:262-297 | after any run, with any names and failed creations, a file is created at a path that is not in use |
| MeasDir.MeasDirReader.AddChannel | contrib/ecalhdf5/src/eh5_meas_dir.cpp:464-476 | one channel's entries get the next numbers and both indexes stay consistent |
| MeasDir.MeasDirReader.AddFile | contrib/ecalhdf5/src/eh5_meas_dir.cpp:454-478 | exactly the entries of the file's channels are added, and their type information |
| MeasDir.MeasDirReader.OpenRX | contrib/ecalhdf5/src/eh5_meas_dir.cpp:442-488 | ids are 0..n-1 file by file, one for every entry of every readable file, and both indexes say so |
| MeasDir.ListedIsEscaped | contrib/ecalhdf5/src/eh5_meas_dir.cpp:455-458 | a directory knows every channel by the escaped form of the name it stands for, however a file spells it |
| DirFacts.NumberOccursOnce | contrib/ecalhdf5/src/eh5_meas_dir.cpp:468-475 | a number occurs in at most one channel and at one timestamp |
| DirFacts.EveryNumberIndexedIff | contrib/ecalhdf5/src/eh5_meas_dir.cpp:468-475 | every number is in the channel index iff no timestamp of a channel occurs in two files |
| DirFacts.ResolvesToFirstFile | contrib/ecalhdf5/src/eh5_meas_dir.cpp:468-475 | an indexed entry resolves to the first file that has its channel and timestamp, and to its id there |
| DirFacts.ReadBackIsMerged | contrib/ecalhdf5/src/eh5_meas_dir.cpp:317-330 | in every case, reading a channel with payloads yields the union of the files' records, the earlier file first |
| Queries.GetMinTimestamp | contrib/ecalhdf5/src/eh5_meas_dir.cpp:228-242 | the least timestamp any file holds for the channel, or the sentinel |
| Queries.GetMaxTimestamp | contrib/ecalhdf5/src/eh5_meas_dir.cpp:244-258 | the greatest timestamp any file holds for the channel, or the sentinel |
| Queries.GetEntriesInfoRange | contrib/ecalhdf5/src/eh5_meas_dir.cpp:275-293 | exactly the channel's entries from begin to end, both included, none if the bounds are in reverse and nothing lies between them |
| Queries.StretchIsRange | contrib/ecalhdf5/src/eh5_meas_dir.cpp:288-291 | the range between the bounds is contiguous and is the timestamps in the interval |
| Lossless.LosslessIff | contrib/ecalhdf5/src/eh5_meas_dir.cpp:442-488 | for every run that ends closed and every file order, a channel's entries are read back as the bag added iff their receive timestamps are distinct and none is in a file with a payload numbered like the channel's name |
| Lossless.OrderDoesNotMatter | contrib/ecalhdf5/src/eh5_meas_dir.cpp:442-488 | with distinct timestamps the records read back are the same for any two file orders |
| FileOrder.OrderMattersIff | contrib/ecalhdf5/src/eh5_meas_dir.cpp:378-488 | for any files, the records read of a channel are the same in every order of the files iff no two files have different ones at a timestamp |
| FileOrder.SplitConflicts | contrib/ecalhdf5/src/eh5_meas_dir.cpp:442-488 | a run whose two files hold different entries of one channel and timestamp, so that their order matters and a number is missing from the channel index |
| TypeInfos.ReportsIff | contrib/ecalhdf5/src/eh5_meas_dir.cpp:454-462 | for any files, a channel's type information is reported as given in every order of the files iff every file that lists the channel has it |
| TypeInfos.RunTells | contrib/ecalhdf5/src/eh5_meas_file_writer_v6.cpp:154-157 | after every run, each closed file lists exactly the channels mentioned before it was closed (V5: those with an entry in the file) whose name is no payload's number, with the information last set by then |
| TypeInfos.LatestIsReportedIff | contrib/ecalhdf5/src/eh5_meas_dir.cpp:454-462 | for every finished run, the type information last set for a channel is reported in every order of the files iff the same, as far as a file can hold it, had been set whenever a file whose past mentions the channel was closed |
| TypeInfos.ChangeDependsOnOrder | contrib/ecalhdf5/src/eh5_meas_dir.cpp:454-462 | a run that changes the type information after its first split, for which some order reports the old one |
| Lossless.FirstsAreAllIff | contrib/measurement/base/include/ecal/measurement/base/types.h:147-157 | keeping the first of each timestamp keeps all records iff no timestamp repeats |
| Api.RecordingIsLosslessIff | contrib/ecalhdf5/src/escape.h:80-91 | the same for callers' names: what was accepted is what is read back, iff the channel's timestamps are distinct and none of its entries shares a file with the payload its name is the number of |
| Api.SameRecs | contrib/ecalhdf5/src/escape.h:39-45 | escaping keeps the channels apart |
| Api.SameTimeIsLost | contrib/measurement/base/include/ecal/measurement/base/types.h:147-150 | a concrete run of two accepted entries of which no reader returns both |
| Api.ReadsFirstsIff | contrib/ecalhdf5/src/eh5_meas_dir.cpp:317-330 | with distinct timestamps, a channel reads back as its accepted records iff none is hidden by a payload's number |
| Api.SmallNumeralsOnly | contrib/ecalhdf5/src/eh5_meas_file_writer_v6.cpp:234-247 | only a channel named by a decimal numeral below the number of accepted entries can be hidden |
| Api.OwnNumberIsLost | contrib/ecalhdf5/src/eh5_meas_file_writer_v6.cpp:234-250 | in every run, a channel that is named by the number of one of its own entries is not read back in full |
| Api.ZeroIsLost | contrib/ecalhdf5/src/eh5_meas_file_writer_v6.cpp:234-250 | the only entry of a recording, for a channel named `0`, is accepted and not read back |
| Api.EmptyNameIsNeverRead | contrib/ecalhdf5/src/eh5_meas_file_v2.cpp:125-139 | whatever the files, no reader returns anything for the empty name |
| Api.EmptyNameIsAccepted | contrib/ecalhdf5/src/eh5_meas_file_writer_v6.cpp:207-250 | an entry for the empty name is accepted |
| Directory.RunIsShared | contrib/ecalhdf5/src/eh5_meas_dir.cpp:490-523 | in every run through several writers, each writer is where it would be in a directory of its own, and each file is as its last maker would have it alone |
| DirectoryRead.SharedLosslessIff | contrib/ecalhdf5/src/eh5_meas_dir.cpp:332-351 | for every run of a directory in either mode and any file order, a channel's accepted entries are read back as a bag iff their timestamps are distinct, none is hidden, and no file with one of them was replaced by another writer |
| DirectoryRead.AcceptedIsAlone | contrib/ecalhdf5/src/eh5_meas_dir.cpp:332-351 | what a directory accepts for a channel is what the channel's writer would accept alone |
| DirectoryRead.NoBaseNoEntries | contrib/ecalhdf5/src/eh5_meas_dir.cpp:337-344 | without a base name a directory accepts no entry |
| DirectoryRead.ApartKeepsAll | contrib/ecalhdf5/src/eh5_meas_dir.cpp:513-515 | nothing is replaced with one writer, or if no channel's file name is another's with `_n` appended |
| Collision.CollidingIsAccepted | contrib/ecalhdf5/src/eh5_meas_dir.cpp:513-515 | a recording of the channels `a` and `a_1` in files of their own accepts all three entries of `a` |
| Collision.CollisionLoses | contrib/ecalhdf5/src/eh5_meas_dir.cpp:513-515 | no reader of it gets all entries of `a`: the first file of `a_1` has replaced the second of `a` |
| Quoting.GetProcessParameter | ecal/core/src/ecal_process.cpp:919-960 | the in-place quoting loop and the joining loop build the command line |
| Quoting.BodyOfByte | ecal/core/src/ecal_process.cpp:919-960 | a backslash is put before backslashes and quotes and before nothing else |
| Quoting.QuotedIff | ecal/core/src/ecal_process.cpp:919-960 | an argument is put in double quotes iff it is empty or has a space |
| Quoting.ToArgv | lib/ecal_utils/include/ecal_utils/ecal_utils.h:561-626 | the parser's loop computes the scanning function, whose meaning `Quoting.ScanLine` states |
| Quoting.ScanLine | lib/ecal_utils/include/ecal_utils/ecal_utils.h:561-626 | every well-formed command line is read as it is written: bare, backslashed, single- and double-quoted pieces that touch form one argument, and white space separates arguments |
| Quoting.QuotesProtect | lib/ecal_utils/include/ecal_utils/ecal_utils.h:561-626 | between single quotes white space and double quotes are part of the argument, between double quotes white space and single quotes are |
| Quoting.UnfinishedIsRead | lib/ecal_utils/include/ecal_utils/ecal_utils.h:561-626 | a quote that is not closed extends to the end, and a last backslash is dropped |
| Quoting.RoundTripIff | ecal/core/src/ecal_process.cpp:919-960 | the parser recovers a vector iff every argument with another white-space byte also has a space |
| Quoting.CommandLineInjective | ecal/core/src/ecal_process.cpp:919-960 | different argument vectors never give the same command line |
| Quoting.TabIsLost | lib/ecal_utils/include/ecal_utils/ecal_utils.h:561-626 | a lone tab as an argument is not recovered |
| Handshake.NextKeeps | ecal/core/src/ecal_process.cpp:1200-1496 | every step of every process keeps the protocol's invariant: lineage, lock and file, messages, verdict |
| Handshake.ResultIsTruthful | ecal/core/src/ecal_process.cpp:1441-1496 | a positive result is the PID of the one process that had executed the target by then; 0 without a timeout means it never runs, not even later |
| Handshake.TimedOutIff | ecal/core/src/ecal_process.cpp:1404-1427 | the caller takes the branch of the timeout iff its `select` timed out, which it does only with nothing to read (`Handshake.ReadyIsNoTimeout`) |
| Handshake.ReportsWhatRuns | ecal/core/src/ecal_process.cpp:1404-1496 | in every interleaving without a timeout the result is the PID of the process that runs the target if one does, now or later, and else 0 |
| Handshake.StartSucceeds | ecal/core/src/ecal_process.cpp:1364-1496 | a run without a timeout, in each mode, that returns the PID of the executed target and leaves no files |
| Handshake.FailedExecIsReported | ecal/core/src/ecal_process.cpp:1441-1486 | a run without a timeout, in each mode and for every error of `execvp`, that returns 0 |
| Handshake.MissingTerminalIsReported | ecal/core/src/ecal_process.cpp:1404-1427 | a run without a timeout in which the terminal emulator cannot be started and 0 is returned |
| Handshake.FailureIsFatal | ecal/core/src/ecal_process.cpp:1100-1400 | after a failed fork or change of directory the target never runs and no PID is returned, in every interleaving |
| Handshake.NoReaderNoTarget | ecal/core/src/ecal_process.cpp:1225-1255 | an announcer that writes its PID when the caller has closed the FIFO is killed, and the target never runs |
| Handshake.TimedOutMayRun | ecal/core/src/ecal_process.cpp:1404-1427 | after a timeout the target may still run although 0 was returned, in each mode |
| Handshake.NothingIsLeft | ecal/core/src/ecal_process.cpp:1494-1500 | once a call that forked has returned there is no FIFO and, unless it timed out, no lockfile |
| Handshake.RunsAreShort | ecal/core/src/ecal_process.cpp:1200-1496 | no run has more than 28 steps |
| Handshake.CallerReturns | ecal/core/src/ecal_process.cpp:1364-1496 | until the caller has returned, what it waits for can happen |
| Handshake.HolderReleases | ecal/core/src/ecal_process_stub.cpp:57-112 | while the caller waits for the lock, its holder's next step is possible and is closer to the release |
| ThreadPool.NextKeeps | app/meas_cutter/src/measurement_worker.cpp:53-82 | every step of workers and client keeps mutual exclusion, the account of jobs, the scan's findings and the wakeups |
| ThreadPool.JobsAreTakenOnce | app/meas_cutter/src/measurement_worker.cpp:59-73 | job k is carried by the one worker that took it until it is finished; untaken jobs are the queue in order |
| ThreadPool.HistoryGrows | app/meas_cutter/src/measurement_worker.cpp:71-81 | no step hands out a job again, takes one back or forgets one |
| ThreadPool.BarrierHolds | app/meas_cutter/src/thread_pool.cpp:70-102 | when `processJobs` has returned, all jobs queued so far are taken and finished |
| ThreadPool.ProcessCanReturn | app/meas_cutter/src/thread_pool.cpp:70-102 | from every reachable state with the client in `processJobs` and at least one worker, some steps without spurious wakeups bring it back |
| ThreadPool.WorkersComeToRest | app/meas_cutter/src/measurement_worker.cpp:53-82 | meanwhile the workers take a bounded number of steps however the threads are scheduled, and with the mutex free and work left one of them can go on |
| ThreadPool.WakeupIsNotLost | app/meas_cutter/src/thread_pool.cpp:33-38 | with a worker and the pool running, a non-empty queue means someone is awake and some thread can go on |
| ThreadPool.StopIsClean | app/meas_cutter/src/thread_pool.cpp:52-68 | after `Stop` all workers have returned, the taken jobs are finished and the others still queued |
| ThreadPool.StopReturns | app/meas_cutter/src/thread_pool.cpp:52-68 | once the flag is cleared only so many steps remain, and until `Stop` has returned some thread can go on |
| ThreadPool.EveryJobIsEnqueued | app/meas_cutter/src/thread_pool.cpp:33-38 | in every interleaving the jobs in the account are those `Enque` was called with, in order |
| ThreadPool.EnqueCanReturn | app/meas_cutter/src/thread_pool.cpp:33-38 | from every reachable state in `Enque`, steps without spurious wakeups bring it back, with its job in the account |
| ThreadPool.StopCanReturn | app/meas_cutter/src/thread_pool.cpp:52-68 | from every reachable state in `Stop`, such steps bring it to its end |
| NameApi.NameRecsAllIff | contrib/ecalhdf5/src/eh5_meas_api_v2.cpp:218-231 | by name one gets the records of all ids iff no two ids have different ones at a timestamp |
| NameApi.SmallestIdWins | contrib/ecalhdf5/src/eh5_meas_api_v2.cpp:218-231 | where ids of a name clash, the record of the smallest is there |
| NameApi.SpanIsAttained | contrib/ecalhdf5/src/eh5_meas_api_v2.cpp:192-216 | both reported ends are timestamps of entries, or 0 if there are none but the sentinel |
| NameApi.ClashIsLost | contrib/ecalhdf5/src/eh5_meas_api_v2.cpp:218-231 | two ids of one name with different records at one timestamp, of which one is not there by name |
| NameApi.GetMinTimestamp | contrib/ecalhdf5/src/eh5_meas_api_v2.cpp:192-203 | folding over the ids is the least timestamp of the merged records, 0 if there is none |
| NameApi.GetMaxTimestamp | contrib/ecalhdf5/src/eh5_meas_api_v2.cpp:205-216 | folding over the ids is the greatest timestamp of the merged records, 0 if there is none |
| NameApi.GetEntriesInfo | contrib/ecalhdf5/src/eh5_meas_api_v2.cpp:218-231 | the loop merges the ids, the smaller id first |
| Cutter.GetOriginalStartFinishTimestamps | app/meas_cutter/src/measurement_importer.cpp:117-133 | the span from the least to the greatest reported timestamp |
| Cutter.SpanIsWhole | app/meas_cutter/src/measurement_importer.cpp:117-133 | the span is in order and covers every entry of every name |
| Cutter.SpanIsReported | app/meas_cutter/src/measurement_importer.cpp:117-133 | each end of the span is reported for some name |
| Cutter.MeasurementConverter.IsConfigurationValid | app/meas_cutter/src/measurement_converter.cpp:96-191 | the window lies in the measurement in order, is the requested one iff that does, else the whole span; when the selection and the job are valid |
| Cutter.MeasurementConverter.GetCalculatedStartEndTimestamps | app/meas_cutter/src/measurement_converter.cpp:322-381 | each end of the window is that end's own limit, the other end's settings having no influence |
| Cutter.BasesAgree | app/meas_cutter/src/measurement_converter.cpp:335-352 | a point of the measurement is the same counted from its start, from its end and from zero |
| Cutter.TrimmedAtBothEnds | app/meas_cutter/src/measurement_converter.cpp:335-374 | trimming both ends is accepted iff neither offset is negative and together they are no longer than the measurement |
| Cutter.Conversions | app/meas_cutter/src/measurement_converter.cpp:383-405 | seconds, milliseconds and microseconds are converted to microseconds, cut towards zero |
| Cutter.ValidLeavesSome | app/meas_cutter/src/measurement_converter.cpp:106-128 | a selection is valid iff it mentions a channel of the measurement and, to exclude, leaves one |
| Cutter.MeasurementConverter.Convert | app/meas_cutter/src/measurement_converter.cpp:198-272 | the exporter's calls: a channel is created iff it is mentioned to be included, or not mentioned to be excluded, or there is no valid selection, each with its entries inside the window by timestamp |
| Cutter.CutCreates | app/meas_cutter/src/measurement_converter.cpp:217-224 | the same for every list of names, by operation |
| CutFilter.CuttingIsAFilter | app/meas_cutter/src/measurement_converter.cpp:210-248 | read back in any file order, the output has for a name exactly the input's records inside the window if it is selected, else nothing, iff the name is not the number of a payload in a file with its entries |
| CutFilter.CutIsByName | app/meas_cutter/src/measurement_converter.cpp:210-248 | for names that are no small numerals, what is read back by operation: the windowed records of the mentioned names, of the others, or of all |
| CutFilter.WholeSpanKeepsAll | app/meas_cutter/src/measurement_converter.cpp:178-182 | a rejected trimming keeps every record of the selected names |
| CutInfos.CutInfoIff | app/meas_cutter/src/measurement_exporter.cpp:51-67 | in every order of its files the cut reports a name's type information, if a file has an entry of it that is not hidden, iff the encoding is `proto` or empty and a V5 file can hold it |
| CutInfos.CapnpIsLost | app/meas_cutter/src/measurement_exporter.cpp:51-67 | an encoding that no cut reports |
| EndToEnd.NameIsMeasured | contrib/ecalhdf5/src/eh5_meas_api_v2.cpp:218-231 | an opened recording has, by name, exactly the records accepted for the name, if their timestamps are distinct and none is hidden |
| EndToEnd.NameIsAllIff | contrib/ecalhdf5/src/eh5_meas_api_v2.cpp:218-231 | by name an opened recording has the bag of records accepted for all ids of the name iff their timestamps are distinct and none is hidden |
| EndToEnd.CutOfRecording | app/meas_cutter/src/measurement_converter.cpp:198-272 | record, open, cut and open again: a name has exactly its accepted records inside the window if it is selected, with any splits and file orders on both sides |
| Registry.MapReadsLog | ecal/core/src/ecal_descgate.cpp:194-288 | a map holds the entities whose latest command registers them, with the identity of the first registration since absence and the latest information |
| Registry.NoticesAlternate | ecal/core/src/ecal_descgate.cpp:194-232 | notifications about an entity are new and deleted in turn, starting with new, one more new iff it is registered |
| Registry.EventsBalance | ecal/core/src/ecal_descgate.cpp:194-232 | in every interleaving new minus deleted, delivered or pending, is 1 if registered and else 0; at quiescence for those delivered |
| Registry.DeliveriesOvertake | ecal/core/src/ecal_descgate.cpp:213-231 | a run after which an entity that is gone was reported new last |
| Delivery.OrderlyInOrder | ecal/core/src/ecal_descgate.cpp:194-232 | if no change of an entity is applied while a notification about it is outstanding, those delivered, then those pending, are the sequential ones, and at most one is pending |
| Delivery.OrderlyIsTruthful | ecal/core/src/ecal_descgate.cpp:194-232 | then a callback that is there from the start hears new and deleted in turn, and with nothing outstanding the last it heard is whether the entity is registered |
| Delivery.JoinedHearsInTurn | ecal/core/src/ecal_descgate.cpp:194-232 | a callback added later hears new and deleted in turn, too, starting with deleted iff the last it missed was new, and with nothing outstanding what it heard last is the truth |
| Delivery.TwoCanOvertake | ecal/core/src/ecal_descgate.cpp:213-231 | from any state with two outstanding notifications about an entity, some deliveries end with all delivered and not in turn |
| Delivery.OrderlyIff | ecal/core/src/ecal_descgate.cpp:194-232 | notifications about an entity are delivered in turn under every schedule iff every change of it waited for those before |
| Delivery.WaitingIsOrderly | ecal/core/src/ecal_descgate.cpp:132-184 | a caller meets the condition by applying no sample about the entity while a notification about it is outstanding |
| Registry.TokensRepeatIff | ecal/core/src/ecal_descgate.cpp:186-190 | two issued tokens are equal iff the 64-bit counter went round between them |
| DescGate.ConvertMethods | ecal/core/src/ecal_descgate.cpp:32-43 | the loop inserts every converted method into the set |
| DescGate.ConvertedKeeps | ecal/core/src/ecal_descgate.cpp:17-43 | a converted method keeps both types with encoding and descriptor, and has the older fields only where a type has no name |
| DescGate.MethodsCompleteIff | ecal/core/include/ecal/service/types.h:129-140 | the set has all converted methods iff none differ in their request type alone |
| DescGate.RequestTypeIsLost | ecal/core/include/ecal/service/types.h:129-132 | two methods that differ in their request type alone, of which the second is not in the set |
| DescGate.CollectedInfo.RegisterSample | ecal/core/src/ecal_descgate.cpp:194-216 | the map stays what its log says, and a new entity gives rise to its notification |
| DescGate.CollectedInfo.UnregisterSample | ecal/core/src/ecal_descgate.cpp:218-232 | the map stays what its log says, and an erased entity gives rise to its notification |
| DescGate.CollectedInfo.GetInfo | ecal/core/src/ecal_descgate.cpp:246-256 | found iff the entity's latest command registers it, with what that command said |
| DescGate.CollectedInfo.GetIDs | ecal/core/src/ecal_descgate.cpp:234-244 | the identities of the opening registrations of the registered entities |
| DescGate.CallbackMap.Notify | ecal/core/src/ecal_descgate.cpp:46-56 | every callback that is not empty is called once |
| DescGate.Gate.ApplySample | ecal/core/src/ecal_descgate.cpp:132-184 | for each of the eight samples the new map of its kind, entity by entity; the other three maps as they were; and one notification exactly when a topic's presence changes |
| DescGate.Gate.AddPublisherEventCallback | ecal/core/src/ecal_descgate.cpp:74-80 | the next token of the counter both callback maps share |
| DescGate.Gate.AddSubscriberEventCallback | ecal/core/src/ecal_descgate.cpp:98-104 | the next token of the counter both callback maps share |
| Events.UnnamedConserves | ecal/core/src/ecal_event.cpp:318-354 | in every interleaving successes plus counter are the signals, iff the 32-bit counter never overflowed |
| Events.NamedConserves | ecal/core/src/ecal_event.cpp:238-313 | in every interleaving successes plus flag are at most the signals, with a signal before the first and between any two successes |
| Events.FailureConsumesNothing | ecal/core/src/ecal_event.cpp:263-294 | a signal is consumed exactly when a call succeeds; a failed wait leaves the event as it was |
| Events.SignalRaises | ecal/core/src/ecal_event.cpp:238-250 | a signal sets the flag, or adds one to the counter unless that overflows |
| Events.CallTakesOrSleeps | ecal/core/src/ecal_event.cpp:252-313 | a call on a raised event succeeds at once and takes one signal, on another it fails or sleeps |
| Events.WaiterLooksAgain | ecal/core/src/ecal_event.cpp:263-294 | what a waiter returns when it looks again, with and without a signal and with its time up or not |
| Events.UntimedNeverFails | ecal/core/src/ecal_event.cpp:263-294 | in every interleaving a wait without a time limit never returns false |
| Events.NoSignalIsSleptThrough | ecal/core/src/ecal_event.cpp:238-354 | while a thread sleeps, as many others are awake and ready as there are signals to take |
| Events.Deadline | ecal/core/src/ecal_event.cpp:405-418 | the absolute deadline is now plus the timeout, as a normal `timespec` |
| SimTime.DriftIsBounded | contrib/ecaltime/include/dynamic_sleeper.h:118-173 | simulation time is never ahead of the exact integral of the rate and, after k rate changes, less than k + 1 ns behind |
| SimTime.ContinuousAtSetRate | contrib/ecaltime/include/dynamic_sleeper.h:118-127 | a change of the rate does not make the time jump |
| SimTime.NeverGoesBack | contrib/ecaltime/include/dynamic_sleeper.h:118-173 | until the time is set again it does not decrease, through any changes of the rate |
| SimTime.DynamicSleeper.SetRateTo | contrib/ecaltime/include/dynamic_sleeper.h:118-127 | the fields are the clock after one more change of the rate |
| SimTime.DynamicSleeper.SetTimeTo | contrib/ecaltime/include/dynamic_sleeper.h:138-144 | the fields are the clock after the time was set |
| SimTime.DynamicSleeper.GetCurrentInternalSimTime | contrib/ecaltime/include/dynamic_sleeper.h:169-173 | the clock's time, within the drift bound of the exact time |

## Left out

- Api.RecordingIsLosslessIff: runs that use the empty name or `.`. What HDF5 makes of a link named `.` is not modelled; for the empty name see Api.EmptyNameIsNeverRead.
- NameApi.GetMinTimestamp: measurements opened as directories only; the reader of a single file reports 0 for an id without entries instead of the sentinel.
- NameApi.GetMaxTimestamp: the same.
- Cutter.MeasurementConverter.Convert: aborts between channels, and exceptions of the importer and the exporter.
- Layout.ReadChannels: a link below a channel group that is no hexadecimal number makes the original throw; here it is not listed. Files of the writers have no such links.
- Handshake.CallerReturns: covers the non-blocking mode, in which the caller does not wait for the target to end.
- SplitBound.FilesAreBounded: assumes that the size HDF5 reports covers the payloads written and that adding an entry to it does not wrap 64 bits.
- Queries.GetEntriesInfoRange: for a channel with entries, a begin or end of 0, which the original replaces by reading from the set it has just cleared, and a begin after the end with an entry strictly between them, for which it inserts a reversed range. Neither call has a defined result, and the callers pass the bounds through unchecked.
- CutFilter.CuttingIsAFilter: the output is one writer's (not one file per channel), every file it needs can be created, and the run is not aborted.
- Cutter.MeasurementConverter.IsConfigurationValid: paths, opening of input and output and the matching of regular expressions come before it; its jobs name the matched channels.
- Recording.Run: a failed write of a payload or of a table, and a failed close of a file; the writer has cleared its table by then and nothing is claimed.
- Opening an existing directory for writing, or changing base name or mode during a recording: fresh writers restart the numbering and replace files.
- Readers for the older formats V1, V3 and V4, which have no writer here.
- DirectoryRead.SharedLosslessIff: a directory that exists; names in it are the escaped ones that writers know.
- Directory listing: any order of the files is allowed instead.
- Pre-split callbacks, which run between two files and change nothing in them.
- Copying of `.ecalmeas` files and the `doc` folder by the cutter, and its messages.
- Reuse of one converter for several jobs: its selection flag is never set again, so the results are for the flag as it is.
- The loop variable of a table of contents is an `unsigned int`; tables of 2^32 cells and more are not modelled.
- Worker threads that are started one after the other: all exist from the beginning, each not yet running.
- What the target does after a `select` timeout, terminal detection, the Windows variant, and errors of FIFO and lockfile calls.
- Callbacks that call back into the description gate.
- `sleepFor` and `sleepUntil`, whose wakeups are not tied to the wait mutex; rounding of doubles.
- User interfaces, configuration files, logging and language bindings.
