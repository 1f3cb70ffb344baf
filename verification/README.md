# TraceFox in Dafny

TraceFox watches Linux hosts: a C agent samples CPU, memory, network, disks, file systems, processes and
threads, and sends one UDP datagram per interval; a Python forwarder parses the datagrams and pushes
Prometheus text to a time-series database; a Lua dissector shows the datagrams in Wireshark and reports lost
ones. This project models the parts of it whose correctness is not visible from any one function, and proves
what they promise for every input, every run or every interleaving.

`dafny verify dfyconfig.toml` checks everything.

## What is modelled

- **Thread history** (`ThreadHistory`, `ThreadHistorySteady`, `ThreadHistoryRoom`, `ThreadHashes`): an
  open-addressing table of 1024 slots whose collector clears slots in place. Lookups after a collection can
  miss a thread that is in the table, so the textbook probe-chain invariant is false
  (`CollectionBreaksChains`, and `ThreadHashBreaksChains` for the agent's own hash). What holds instead: no
  answer ever comes from another thread, each collection restores one slot per key, and with an unchanged
  thread set the total probe displacement is a potential that pays for every miss. A round misses nothing if
  and only if no slot in front of a thread is empty. The wrap of the 32-bit generation, which clears the whole
  table, costs one miss per thread.
- **Process history** (`ProcHistory`, `ProcHistoryRoom`, `ProcHistoryTakeover`, `PidHashes`): a second table
  with another probe order and a fallback on a foreign slot. It is sound in every run that never takes the
  fallback, because the first slot of a pid in its probe order is always the newest. Stale duplicates can fill
  the table although there are no more live processes than slots (`DuplicatesExhaustTheTable`), in the end
  with only two (`TwoProcessesExhaustTheTable`), also with the agent's own hash (`PidHashExhaustsTheTable`,
  `PidHashHandsTheTableOver`). A count of slots in use and of processes that do not find their own slot, taken
  at each scan, keeps the fallback away (`RunsWithRoomAreSound`).
- **Process and thread groups** (`PidLists`, `ThreadGroups`, `ThreadLoads`, `TopThreads`): sorting pids into
  groups, counting threads by state, measuring them against the thread history, folding them into at most 512
  candidates, and the Top-N list. The list is a function of the multiset of (name, cpu) pairs when there are
  at most 512 names; beyond that every scan has a reordering that changes it.
- **The TLV v2 codec** (`Bytes`, `Wire`, `Encoder`, `Writer`, `Assembly` for the agent; `Parser` for the
  server; `Boundaries`, `Budget`, `ListRoundTrip`, `RoundTrip` for what connects them): the byte writers fill
  the buffer with exactly the specified frame, no push fails, and the parser gets the sample back. The
  one-byte length cast of the disk and mount lists is modelled: the lists come back if and only if there are
  at most three disks and nine mounts, and it is stated what arrives of longer ones.
- **The forwarder's threads** (`Forwarder`, `ForwarderSteps`, `ForwarderRuns`, `ForwarderQueue`,
  `ForwarderProgress`, `ForwarderShutdown`): receiver and sender around their bounded queue as a step machine
  in which each queue operation, counter update and push is one step, in any interleaving and with any outcome
  of the pushes. While pushes succeed no body waits for ever. Shutdown can lose a body (`LateBodyIsStranded`),
  but never more than one, and it is stated exactly when.
- **Exposition text** (`Exposition`): label escaping, metric lines and bodies, against a reader of the
  Prometheus text format.
- **The dissector** (`Scanner`, `Dissector`): its TLV scan against the parser's, and its per-stream sequence
  tracking.
- **Smaller parts**: the `/proc/<pid>/stat` line (`StatLine`, `StatWords`), CPU shares from wrapping counters
  (`CpuShares`), and the sampling deadlines (`Deadline`).

`Options` and `Arith` hold an option type, the machine widths and a few facts about products, quotients and
sizes.

## How the source is read

- Objects that the source updates in place are classes over arrays or sequences; each of their methods is
  proved equal to a function on the abstract state, and the properties are proved about that function over
  whole runs.
- Inputs from the operating system are parameters: directory listings, file contents, clock readings, the
  outcomes of pushes and of sleeps. The hash functions of both history tables are arbitrary functions into the
  table in every universal result; the failures are shown for any colliding keys and then for the agent's own
  hash functions.
- Integer widths are explicit wherever a value can wrap or is cast: 2^64 for ticks, counters and cpu sums,
  2^32 for generations, sequence numbers and ids, 16 bits for reported counts, one byte for TLV lengths.
- Where the documentation and the code disagree, the code is modelled. README.md:83 of TraceFox says a frame
  is always below 1400 bytes; a frame can have exactly 1400 (`FrameCanFillTheBuffer`), and
  `FrameBelowCapUnlessFilled` says when.

## Model

| member | source | states |
|---|---|---|
| ThreadHistory.ThreadTable.FindThreadSlot | agent/src/proc.c:274-299 | the probe loop returns the first slot in probe order that holds the key or is empty, reset when the start time differs, and no slot exactly when there is none |
| ThreadHistory.ThreadTable.RecordThread | agent/src/proc.c:449-457 | a lookup and the store of ticks and generation, as one step of the abstract table |
| ThreadHistory.ThreadTable.NextGeneration | agent/src/proc.c:717-721 | the generation advances modulo 2^32; on the wrap it restarts at 1 over a zeroed table |
| ThreadHistory.ThreadTable.ThreadHistoryGc | agent/src/proc.c:301-308 | every slot of an older generation becomes empty and no other slot changes |
| ThreadHistory.ThreadTable.CollectRound | agent/src/proc.c:716-736 | a whole round is bump, record in scan order, collect |
| ThreadHistory.RecordSound | agent/src/proc.c:274-299 | a lookup answers None exactly when all 1024 slots hold other keys, and otherwise zero or the last value recorded for this very (pid, tid, start time) |
| ThreadHistory.RecordKeepsMidRound | agent/src/proc.c:449-457 | during a round a key may own two slots, but then the fresh one comes first in its probe order and remembers its last recording |
| ThreadHistory.CollectRestores | agent/src/proc.c:301-308 | a collection leaves at most one slot per key, all of the current generation, and loses no remembered value of a thread seen in the round |
| ThreadHistory.EveryRunIsSound | agent/src/proc.c:274-308 | over every sequence of rounds from the zeroed table, for any hash and any scan order, every lookup is sound and every collection leaves the table clean |
| ThreadHistorySteady.RoundPaysForMisses | agent/src/proc.c:274-308 | with an unchanged thread set, the misses of a round plus the total displacement after it do not exceed the total displacement before it |
| ThreadHistorySteady.DisplacementNeverGrows | agent/src/proc.c:274-308 | no thread's own displacement grows in such a round |
| ThreadHistorySteady.NoMissRoundStraightens | agent/src/proc.c:274-308 | a round without a miss keeps the layout, and that layout has no hole in front of any thread |
| ThreadHistorySteady.StraightUnlessHole | agent/src/proc.c:278-296 | a search reaches a key in the table if and only if every slot before the key's is occupied |
| ThreadHistorySteady.RoundHitsUnlessHoles | agent/src/proc.c:274-308 | a round over an unchanged thread set misses nothing if and only if no slot in front of any of its threads is empty when it begins |
| ThreadHistorySteady.StraightForever | agent/src/proc.c:274-308 | from a layout without such holes no later round ever misses |
| ThreadHistorySteady.MissesDieOut | agent/src/proc.c:274-308 | the misses of all later rounds together are at most the starting total displacement, and from the round of that number on every lookup hits |
| ThreadHistorySteady.RoundSettles | agent/src/proc.c:716-736 | any round that scans the set and finds a slot for each thread leaves a table holding exactly that set, which is where the bound above starts |
| ThreadHistorySteady.SteadyRoundHitsUnlessWrapped | agent/src/proc.c:717-721 | on a settled table without holes a round hits for every thread if and only if the generation does not wrap in it |
| ThreadHistorySteady.CollectionBreaksChains | agent/src/proc.c:301-308 | for any two threads with the same hash, once the first is gone a collection leaves the second behind a hole, and its next lookup restarts it from zero |
| ThreadHashes.ThreadsCollideIff | agent/src/proc.c:13-15 | the thread hash sends two threads of a process to the same slot if and only if their ids agree in the low ten bits |
| ThreadHashes.ThreadsApartCollide | agent/src/proc.c:13-15 | as ids 1024 apart do |
| ThreadHashes.ThreadHashBreaksChains | agent/src/proc.c:13-15 | so with the agent's own hash any such pair runs into that failure |
| ThreadHistoryRoom.RoundHasRoom | agent/src/proc.c:278-298 | if the occupied slots after the last round and the threads of this one number at most 1024 together, every lookup finds a slot and at most one per thread misses |
| ThreadHistoryRoom.RoundSettlesWithRoom | agent/src/proc.c:716-736 | a round that scans a whole set within that bound leaves a table holding exactly that set |
| ThreadHistoryRoom.WrapCostsOneMissEach | agent/src/proc.c:717-721 | the round in which the generation wraps misses each thread exactly once and leaves no hole in front of any |
| ThreadHistoryRoom.MissesAcrossWraps | agent/src/proc.c:274-308 | over any number of rounds, the misses never exceed the starting displacement (nothing if there is no hole) plus one per thread and wrap |
| ProcHistory.ProcTable.FindSlotIndex | agent/src/proc.c:92-121 | the hash slot, then slots 0 to 63, then the hash slot whoever owns it, as the abstract lookup |
| ProcHistory.ProcTable.SampleProcess | agent/src/proc.c:656-658 | a lookup and the store of the new ticks, giving the previous ones |
| ProcHistory.ProcTable.HistoryGc | agent/src/proc.c:489-509 | exactly the slots whose pid is in no group's list are cleared |
| ProcHistory.OwnsItsSlotUnlessFull | agent/src/proc.c:119-120 | the slot returned belongs to the pid asked for if and only if some slot is empty or already its own |
| ProcHistory.SampleKeeps | agent/src/proc.c:656-658 | after a sample the first slot of every pid in its own probe order still holds that pid's newest ticks, duplicates or not |
| ProcHistory.ScanKeeps | agent/src/proc.c:489-509 | and after a collection as well, since it clears all slots of a pid or none |
| ProcHistory.EveryRunIsSound | agent/src/proc.c:92-121 | in every run that never takes the fallback, each lookup gives zero or the ticks last recorded for that pid |
| ProcHistory.DuplicatesExhaustTheTable | agent/src/proc.c:119-120 | for any 65 processes with one hash slot, a run after which, of the 64 still alive, one finds the table full of others and reads the ticks of another |
| ProcHistoryTakeover.TwoProcessesExhaustTheTable | agent/src/proc.c:92-121 | for any 64 processes with one hash slot, a run in which they end one by one and the last takes over every slot; then two live processes are enough, and any other process reads its ticks |
| ProcHistoryRoom.RoundHasRoom | agent/src/proc.c:92-121 | if after a scan the slots in use and the listed processes whose search does not reach their own slot number at most 64, no sample up to the next scan takes the fallback, in any order and however often |
| ProcHistoryRoom.FewEnough | agent/src/proc.c:92-121 | slots in use and listed processes numbering at most 64 together meet that bound |
| ProcHistoryRoom.RunsWithRoomAreSound | agent/src/proc.c:489-509 | every run from the zeroed table whose scans all meet the bound is sound |
| ProcHistoryRoom.AbsentOnesAreNotEnough | agent/src/proc.c:106-117 | counting only processes that are not in the table does not do: with 63 slots in use and one newcomer, a process moving into the hole in front of it leaves the newcomer a full table |
| PidHashes.PidsCollideIff | agent/src/proc.c:12 | the process hash sends two pids to the same slot if and only if they agree in the low six bits |
| PidHashes.MultiplesCollide | agent/src/proc.c:12 | so every multiple of 64 goes to slot 0 |
| PidHashes.PidHashExhaustsTheTable | agent/src/proc.c:12 | so with the agent's own hash processes 64, 128, ..., 4160 run into that failure |
| PidHashes.PidHashHandsTheTableOver | agent/src/proc.c:12 | and process 4096 can come to own the whole table |
| PidLists.PidTracker.AddPid | agent/src/proc.c:518-533 | each group's list is the first 64 pids, in scan order, of the processes for which it is the first group whose name begins the command name |
| PidLists.PidTracker.ResetLists | agent/src/proc.c:511-516 | every list is emptied |
| PidLists.EachMatchCountsOnce | agent/src/proc.c:518-533 | a process that matches several groups is a member of exactly one: the members of all groups together number the matching processes |
| ThreadGroups.CandidateTable.AddThread | agent/src/proc.c:334-370 | a thread is merged into its candidate or appended, and refused exactly when the table is full or an id does not fit 32 bits |
| ThreadGroups.RefusedIff | agent/src/proc.c:356-359 | it is refused exactly when it has no candidate yet and 512 are taken or an id is not between 1 and 2^32 - 1 |
| ThreadGroups.GroupScan.ScanDirectory | agent/src/proc.c:403-472 | one process contributes its first 512 readable threads, and the directory counts as overlong exactly when an entry was left unread |
| ThreadGroups.GroupScan.CollectThreadGroup | agent/src/proc.c:392-472 | for up to 64 processes the seven counts add up to the total, no 16-bit counter saturates, the candidates are those of the threads as the history measured them, and the truncated flag is set if and only if a directory was overlong or, in top mode, a lookup found no history slot or a thread no candidate |
| ThreadGroups.Meter.MeasureThread | agent/src/proc.c:444-464 | a thread's load comes from the ticks its own lookup in the history gave, and the history moves on by exactly that recording |
| ThreadGroups.LoadIsExact | agent/src/proc.c:458-463 | a thread's load is the exact quotient if and only if its ticks, times a thousand, times the processors, fit 64 bits |
| ThreadGroups.UntrackedWhenFull | agent/src/proc.c:449-452 | a thread of a scan has no history slot exactly when its lookup meets 1024 slots held by other threads |
| ThreadLoads.LoadsComeFromTheLastReading | agent/src/proc.c:449-463 | over the readings alone, in every run of rounds from the zeroed history, for any hash: a task has its reading's ids, name and state; its load is the difference to the last earlier tracked reading of the same pid, tid and start time, scaled, divided and reduced to 64 bits, zero if that reading had no ticks or more; and zero if the search finds no slot of that thread |
| ThreadLoads.EveryLoadIsTaken | agent/src/proc.c:449-463 | with an unchanged set of up to 1024 threads no thread is ever without a slot, and from the second round on, up to the wrap of the generation, every load is the difference to that thread's last reading |
| ThreadLoads.NoLoadsOutsideTopMode | agent/src/proc.c:444-446 | without a Top-N list no thread is looked up and no load measured |
| ThreadLoads.GroupsShareTheRound | agent/src/proc.c:722-734 | what the scan of one group measures is its stretch of the round, on the history the groups before it left |
| ThreadGroups.StatesAddUp | agent/src/proc.c:310-332 | every thread is counted under exactly one of the seven states |
| ThreadGroups.StateIndex | agent/src/proc.c:310-322 | each state letter is counted where its name stands in the reported list, stopped and traced together, and any other letter last |
| ThreadGroups.OneCandidatePerThread | agent/src/proc.c:341-369 | with thread ids included, up to 512 different threads become one candidate each with its own ids and load, and none is refused |
| ThreadGroups.AcceptedUnlessRejected | agent/src/proc.c:334-370 | no thread of a scan is refused exactly when all of them are accepted |
| ThreadGroups.CandidatesConserve | agent/src/proc.c:334-370 | the candidates' instances number the accepted threads, and their cpu values add up to theirs, modulo 2^64 always and exactly when that sum fits |
| TopThreads.FoldSummarises | agent/src/proc.c:334-370 | in name mode, for any scan order, each candidate is the exact count and cpu sum of its name, and a name that occurs is missing only if the table is full |
| TopThreads.AllListed | agent/src/proc.c:356-359 | with at most 512 distinct names every one of them is a candidate |
| TopThreads.SortExists | agent/src/proc.c:372-380 | the comparison is a consistent total order, so a sort by it always has a result |
| TopThreads.RankingIsUnique | agent/src/proc.c:372-380 | a list sorted by the comparison and without equal names is determined by its elements |
| TopThreads.StrcmpIsLexicographic | agent/src/proc.c:378 | names compare in dictionary order of their bytes |
| TopThreads.CopyTop | agent/src/proc.c:479-486 | the list is as long as the fewest of the configured number, seven and the candidates; entry i has the name and ids of sorted candidate i, and its count and load up to 65535 |
| TopThreads.TopListIgnoresOrder | agent/src/proc.c:334-390 | two scans with the same multiset of (name, cpu) pairs and at most 512 names give the same list, whatever their order and whatever the sorting algorithm |
| TopThreads.StrictlyRanked | agent/src/proc.c:372-380 | the sorted candidates are strictly ordered by cpu descending, then name, so an omitted name ranks after every listed one |
| TopThreads.TopListDependsOnOrder | agent/src/proc.c:356-359 | with more than 512 names, moving the threads of the top name to the end of the scan always changes the list |
| TopThreads.SortShowsOnlyInTies | agent/src/proc.c:478-486 | in either mode the list is the same for every correct sort if and only if no two candidates of equal name and load that report differently have one within the list |
| TopThreads.TiesDependOnTheSort | agent/src/proc.c:372-380 | with one entry per thread, two threads of equal name and load tie, and two correct sorts give different lists |
| StatLine.ParseTaskStat | agent/src/proc.c:135-208 | the cursor loops compute the specified parse of the line, with its errors: nothing to read, a bad id, missing parentheses, missing fields, a time that is no number or overflows |
| StatLine.NameComesBack | agent/src/proc.c:158-172 | between the first opening and the last closing parenthesis stands the whole name, whatever parentheses it contains |
| StatLine.FieldsComeBack | agent/src/proc.c:184-203 | any 64-bit values printed as fields 4 to 22 are skipped or read back, whatever follows |
| StatLine.LineComesBack | agent/src/proc.c:135-208 | for every id, name of up to 64 bytes without NUL or newline, state and field values, and any rest of the line, the parse recovers the id, the first 15 bytes of the name, the state, utime+stime modulo 2^64 and the start time |
| StatWords.ParseMeans | agent/src/proc.c:135-208 | for any file, the parse is that of its first 511 bytes, line and string: the number at the start if positive, the first 15 bytes between the parentheses, the first non-space after them, and the eleventh, twelfth and nineteenth words after that if they are numbers; otherwise nothing |
| StatWords.ParseNeedsBrackets | agent/src/proc.c:158-162 | there is no result without a first opening parenthesis before a last closing one |
| StatWords.NumeralsConvert | agent/src/proc.c:191-195 | a word that begins with a numeral is a number if that fits 64 bits, a negative one modulo 2^64 |
| StatWords.OnlyNumeralsConvert | agent/src/proc.c:191-195 | and no other word is |
| StatWords.NumeralsScan | agent/src/proc.c:153-156 | the id is read after any spaces and clamped to a long |
| CpuShares.CpuContext.Collect | agent/src/cpu.c:43-118 | on every sample after the first, from readings modulo 2^64 of counters that only advance, for every advance below 2^64: the payload is the true shares if and only if a thousand times each of the five parts fits 64 bits, and never adds up to more than 1000; the first and any failed sample give zeros |
| CpuShares.SharesAddUp | agent/src/cpu.c:112-116 | no share exceeds 1000 and the five add up to 996 to 1000, or are all zero when nothing advanced |
| CpuShares.SharesLostBeyondRange | agent/src/cpu.c:112-116 | an advance out of that range, all idle, that is reported as all zeros |
| CpuShares.SeenPartsAreParts | agent/src/cpu.c:97-101 | unsigned subtraction of wrapped readings gives the true advances, user with nice and irq with softirq |
| CpuShares.PermilleIsShare | agent/src/cpu.c:112-116 | one share comes out right if and only if its own product fits 64 bits, and otherwise too small |
| CpuShares.PermillesAreShares | agent/src/cpu.c:112-116 | all five come out right if and only if all five products fit, and none is ever too large |
| CpuShares.PermillesStayBelow | agent/src/cpu.c:112-116 | the five together never exceed 1000, in range or not |
| Deadline.CompareOrdersInstants | agent/src/main.c:51-58 | the field-by-field comparison orders normalised times as instants |
| Deadline.Scheduler.WaitForNextSample | agent/src/main.c:60-85 | the deadline moves on by one interval, or to one interval after the clock if that has passed; sleeping and its interruptions never move it |
| Deadline.OutcomeIs | agent/src/main.c:75-84 | a sleep that is interrupted is repeated: the result is the first that is no interruption |
| Deadline.EveryDeadlineIsAhead | agent/src/main.c:60-73 | every deadline is strictly after the clock reading and at least one interval after the one before |
| Deadline.DeadlinesSpreadOut | agent/src/main.c:60-73 | any m successive deadlines span at least m intervals, so there is never a catch-up burst |
| Deadline.NoDriftUnlessOverrun | agent/src/main.c:60-73 | n cycles end exactly n intervals after the start if and only if none of them overran |
| Deadline.AnchoredAtTheLastOverrun | agent/src/main.c:69-72 | in any run the deadline is a whole number of intervals after the clock reading of the last overrun, or after the start |
| Bytes.UnpackPack | agent/include/tracefox.h:295-319 | big-endian records of any fields and widths come back |
| Bytes.PadNameIs | agent/src/net.c:110-113 | a name field holds as much of the name as leaves room for one NUL, and NULs from there on |
| Bytes.ReadPadded | server/tracefox_protocol.py:106 | a NUL-free ASCII name in a zero-padded field comes back from split, decode and ignore |
| Bytes.StripIs | server/tracefox_protocol.py:97 | stripping removes all whitespace at both ends and nothing else |
| Bytes.StripIsUnique | server/tracefox_protocol.py:97 | which determines the result |
| Bytes.UpToNulIs | server/tracefox_protocol.py:106 | a name field counts up to its first NUL |
| Bytes.OnlyAsciiIs | server/tracefox_protocol.py:97 | decoding drops exactly the bytes from 128 on and keeps the order of the others |
| Writer.Cursor.PutU16 | agent/include/tracefox.h:295-299 | two bytes at the cursor extend the record by one 16-bit field |
| Writer.Cursor.PutU32 | agent/include/tracefox.h:301-307 | four bytes at the cursor extend the record by one 32-bit field |
| Writer.Cursor.PutU64 | agent/include/tracefox.h:309-319 | eight bytes at the cursor extend the record by one 64-bit field |
| Writer.TlvWriter.Init | agent/src/tlv.c:32-49 | the buffer holds the 12-byte header, magic 0x5446, version 2 and a zero byte first, and the call fails exactly when the buffer is smaller than that |
| Writer.TlvWriter.Put | agent/src/tlv.c:51-67 | the TLV is appended if it fits, and otherwise nothing changes |
| Writer.PushCpu | agent/src/cpu.c:120-132 | what reaches the buffer is the specified CPU TLV |
| Writer.PushMem | agent/src/mem.c:95-108 | what reaches the buffer is the specified memory and load TLV |
| Writer.PushNet | agent/src/net.c:95-121 | what reaches the buffer is the specified interface list, or nothing when it is empty |
| Writer.PushDisk | agent/src/disk.c:229-263 | what reaches the buffer is the disk list cut to its length modulo 256 |
| Writer.PushFs | agent/src/fs.c:110-135 | what reaches the buffer is the mount list cut to its length modulo 256 |
| Writer.PushProc | agent/src/proc.c:803-827 | what reaches the buffer is the specified process group list, or nothing when the collector is disabled |
| Writer.ChooseCount | agent/src/proc.c:744-754 | the shrinking loop stops at the largest number of top threads that fits |
| Writer.PushThreads | agent/src/proc.c:740-801 | the groups go out one after another, each shrunk to fit, until one has no room for its head |
| Writer.ThreadBytesAre | agent/src/proc.c:740-801 | what that loop writes is the concatenation of the emitted groups' TLVs |
| Assembly.AssembleFrame | agent/src/main.c:562-586 | for every sample no push fails and the buffer holds exactly the sample's frame, TLVs in collector order |
| Assembly.FrameFits | agent/include/tracefox.h:46 | no frame exceeds 1400 bytes |
| Assembly.FrameBelowCapUnlessFilled | README.md:83 | a frame stays below 1400 bytes exactly unless the thread groups end on the last byte, or the first group that does not fit whole leaves no rest when the room after its head is divided among threads |
| Assembly.FrameCanFillTheBuffer | README.md:83 | a family of valid samples, with five groups of seven top threads and a sixth of one to seven, whose frame has exactly 1400 bytes, against the documented strict bound |
| Budget.BaseAlwaysFits | agent/src/tlv.c:57-59 | header and all TLVs but those of thread groups take at most 865 bytes |
| Budget.EmissionIsMaximal | agent/src/proc.c:744-771 | each emitted group carries the longest prefix of its list that fits behind the groups before it, is marked truncated exactly when it was or threads were left out here, is otherwise unchanged, and the groups stop only where a head does not fit |
| Budget.NothingCut | agent/src/proc.c:744-754 | when all groups fit whole, all of them go out whole |
| Budget.FirstGroupsGoOut | agent/src/proc.c:740-801 | the first two groups always go out unchanged and a third always with at least its first thread |
| Parser.ReadEntryList | server/tracefox_protocol.py:103-112 | the loop over fixed-size entries reads as many as are announced and complete |
| Parser.ReadGenerationList | server/tracefox_protocol.py:119-154 | the loop over disk or mount entries chooses the layout entry by entry from the average size and what is left |
| Parser.ParseFrame | server/tracefox_protocol.py:35-67 | the two nested cursors compute the specified parse of any byte string; no index is out of range and every unpack gets a buffer of exactly its size, so nothing is ever raised |
| Boundaries.SplitConcat | server/tracefox_protocol.py:61-67 | any body is complete TLVs followed by an incomplete rest, and nothing is lost in splitting it |
| Boundaries.SplitUnique | server/tracefox_protocol.py:61-67 | that splitting is the only one |
| Boundaries.ParseComposes | server/tracefox_protocol.py:57-67 | parsing complete TLVs and then the rest equals parsing them together |
| Boundaries.ParseIsSetAll | server/tracefox_protocol.py:57-259 | the parser's result is that of applying the complete TLVs in order; an incomplete rest is ignored |
| Boundaries.UnknownIsSkipped | README.md:85 | a TLV of an unknown type at any boundary of any frame, valid or not, does not change the result |
| ListRoundTrip.DisksComeBack | server/tracefox_protocol.py:119-137 | a list of up to 255 66-byte disk entries is read back exactly |
| ListRoundTrip.LegacyDisksComeBack | server/tracefox_protocol.py:138-152 | and so is one of 42-byte entries, which the same code tells apart |
| ListRoundTrip.MountsComeBack | server/tracefox_protocol.py:161-170 | a list of up to 255 26-byte mount entries is read back exactly |
| ListRoundTrip.LegacyMountsComeBack | server/tracefox_protocol.py:171-178 | and so is one of 22-byte entries |
| ListRoundTrip.DisksComeBackUpToThree | agent/src/disk.c:262 | after the cast of the length to one byte the disk list comes back if and only if it has at most three entries; of n disks beyond that, what is left is read in the 42-byte layout, which makes (66n mod 256) / 42 entries, none for 4, 8, 12 or 16 disks |
| ListRoundTrip.MountsComeBackUpToNine | agent/src/fs.c:134 | the mount list if and only if it has at most nine; of n mounts beyond that, (26n mod 256) / 22 entries of the 22-byte layout arrive |
| ListRoundTrip.FirstDiskIsMisread | server/tracefox_protocol.py:138-152 | the first of those has the first disk's name, and for its eight counters the upper and lower halves of that disk's first four |
| ListRoundTrip.FirstMountIsMisread | server/tracefox_protocol.py:171-178 | and the first mount its own name, the upper half of its size, and 16 more bits of the size for the used share |
| RoundTrip.GroupComesBack | server/tracefox_protocol.py:208-257 | a thread group's head, flags, state counts and top threads come back |
| Wire.LargestSampleIsValid | agent/include/tracefox.h:11-33 | the samples of the round trip include the one with every list full, every name at its longest and every field at its largest |
| RoundTrip.FlagsAreBits | server/tracefox_protocol.py:252-253 | of any flags byte the lowest bit says that ids are included and the next that the list was cut |
| RoundTrip.FrameComesBack | server/tracefox_protocol.py:35-259 | for every sample the agent can hold, parsing its frame gives the header, CPU, memory, load, stripped host label, interfaces, process groups and emitted thread groups, and the disk and mount lists as the cast lets them arrive, which is as sent exactly within the two limits above; a label without whitespace at its ends comes back unchanged |
| Scanner.ScanTlvs | wireshark/tracefox.lua:127-175 | the dissector's entries are the parser's complete TLVs, tile the datagram from byte 12 to its end, and end in one malformed entry exactly when something is left over |
| Scanner.SameHost | wireshark/tracefox.lua:163-165 | both take the host label from the same TLV |
| Dissector.StreamTracker.AnalyseFrame | wireshark/tracefox.lua:198-251 | one visit updates the cache and the stream state as specified and returns the cached analysis |
| Dissector.FirstVisitIsAnalysed | wireshark/tracefox.lua:219-239 | a packet visited for the first time after any history is compared with the highest-numbered packet of its stream so far: previous frame and both deltas are to that one; a regression if and only if the number fell without a wrap inside both windows; a duplicate if and only if it is the same; a gap if and only if packets are missing; an arrival gap if and only if it came more than the threshold later; and none of these when it comes out of order or first |
| Dissector.NeighboursAreCompared | wireshark/tracefox.lua:219-239 | so a stream first visited in order, amid any others and any repeats, has each packet compared with the one before it |
| Dissector.RevisitChangesNothing | wireshark/tracefox.lua:200-203 | a repeated visit leaves all state as it was, however much happened in between |
| Dissector.FirstAnalysisStays | wireshark/tracefox.lua:200-203 | and returns the first analysis |
| Dissector.StreamHoldsHighest | wireshark/tracefox.lua:241-248 | after any history each stream's state is the record of its highest-numbered visited frame |
| Dissector.StreamsAreIndependent | wireshark/tracefox.lua:198-251 | in any order of visits each stream gets the analyses it would get alone |
| Dissector.RepeatsDoNotCount | wireshark/tracefox.lua:198-251 | a history and its first visits lead to the same state |
| Dissector.SmallStepRecovered | wireshark/tracefox.lua:186-196 | a true step of up to 65536 shows across any number of wraps |
| Dissector.StepRecoveredExactly | wireshark/tracefox.lua:186-196 | a step of any size is recovered if and only if it is below 2^32 and the number did not wrap, or wrapped inside both windows; what is reported never exceeds it |
| Dissector.MissingCountsAreExact | wireshark/tracefox.lua:186-234 | if a stream's frames were first visited in order, amid any other streams and repeats, the missing counts never exceed the uncaptured frames in between and add up to exactly them if and only if every step is recovered; then none is marked a regression or duplicate |
| Dissector.SmallGapsShow | wireshark/tracefox.lua:186-196 | true gaps of up to 65536 meet that condition |
| ForwarderSteps.StepKeepsInv | server/metrics_forwarder.py:195-293 | every step of either thread keeps conservation, order, contiguity, the queue bound, the counters, the retry rule and the delay |
| ForwarderRuns.EveryInterleaving | server/metrics_forwarder.py:195-293 | in every interleaving each received body is in exactly one of five places, deliveries keep arrival order without repeats, what is pending is the newest stretch without a gap, the second put never finds the queue full, drops count the evictions up to one not yet counted, and after k failures in a row the delay is min(0.5 * 2^(k-1), 30) |
| ForwarderRuns.HeldUntilDelivered | server/metrics_forwarder.py:264-293 | in every run a body taken from the queue stays in the sender's hand until a push succeeds, and is then the next one delivered |
| ForwarderRuns.QuitsOnlyWhenIdle | server/metrics_forwarder.py:264 | in every run in which the sender ends, it does so at a moment when it has been told to stop, has nothing in hand and sees the queue empty |
| ForwarderProgress.EveryBodyIsSettled | server/metrics_forwarder.py:226-293 | in any interleaving, once the sender has had five turns per body in the queue and four more and no push has failed, every body past the receiver has been delivered or evicted |
| ForwarderProgress.DrainsInOrder | server/metrics_forwarder.py:264-293 | left to itself for as many turns, or until it ends, the sender delivers what it holds and then the whole queue, in order |
| ForwarderProgress.SenderGoesOn | server/metrics_forwarder.py:264-293 | until it ends the sender always has a next step |
| ForwarderProgress.EverythingCanBeSent | server/metrics_forwarder.py:264-293 | so from every reachable state in which the sender has not ended, hand and queue can be delivered in order |
| ForwarderQueue.OfferKeepsTheNewest | server/metrics_forwarder.py:226-248 | with any steps of the sender in between, an offer evicts at most one body, older than all that stay, and what is pending is exactly the newest stretch received |
| ForwarderQueue.KeepsTheNewest | server/metrics_forwarder.py:226-248 | under any sender: with k bodies taken during an offer and n evicted, queue and offered body have lost exactly their k + n oldest; one is evicted only if the queue was full, and always if it was and the sender took none; the drop counter goes up by n |
| ForwarderQueue.OfferCompletes | server/metrics_forwarder.py:226-248 | on a full queue five steps of the receiver complete an offer, evicting the oldest body and counting one drop |
| Forwarder.DelayDoubles | server/metrics_forwarder.py:288-291 | the doubling with its cap follows the closed form |
| ForwarderShutdown.ShutdownStrandsAtMostOne | server/metrics_forwarder.py:195-293 | in every run in which both threads have ended, every body received has been delivered or evicted, except at most the last one, which is then alone in the queue |
| ForwarderShutdown.NothingStrandedIff | server/metrics_forwarder.py:264 | from any moment at which the sender has ended, nothing is left pending if and only if nothing was pending then and nothing is received after it |
| ForwarderShutdown.LateBodyIsStranded | server/metrics_forwarder.py:264 | a run in which one body is left behind |
| Exposition.EscapeIsOnePass | server/metrics_forwarder.py:84-89 | the three successive replacements equal one map over the characters |
| Exposition.ValueComesBack | server/metrics_forwarder.py:84-89 | every label value is read back from its escaped form up to the closing quote |
| Exposition.LabelsComeBack | server/metrics_forwarder.py:91-92 | every label block parses back to its list of keys and values |
| Exposition.MetricComesBack | server/metrics_forwarder.py:91-93 | every emitted line parses back to its name, labels, value and timestamp |
| Exposition.Renderer.Emit | server/metrics_forwarder.py:91-93 | an emit appends the line of exactly that metric |
| Exposition.Renderer.Body | server/metrics_forwarder.py:174 | the body has exactly one line per emit, each of which reads back as the metric emitted |
| Exposition.BodyComesBack | server/metrics_forwarder.py:174 | the body splits into exactly one line per emit, each giving back its metric, whatever the label values |

## Left out

- Reading `/proc`, statvfs, directory iteration, sockets, signals and address resolution: their results are
  parameters.
- HTTP, logging, the forwarder's `main` and its join timeouts: a push is a nondeterministic outcome. That
  nothing is lost at shutdown is not claimed, since one body can be.
- Configuration files, command-line options and the collectors' debug output.
- The collectors for disks, mounts, interfaces and memory themselves, and the disk delta cache: the sample's
  values are given.
- The cpu figure of one process (a product, a quotient and a comparison with the previous ticks) and the
  summing of process groups in `agent/src/proc.c:641-713`: the figures are given.
- Floating-point conversions (load times 100, percentages divided by 10, the forwarder's used percentage): the
  scaled integers are modelled.
- Which metrics are emitted for a frame, the formatting of their numbers, and the first-seen time behind the
  uptime metric: the model has any non-empty list of metrics whose names, keys and numbers contain none of the
  format's delimiters.
- The stream key of the dissector is any string; its dialogs, columns and expert information are not modelled.
  The Lua function that turns a host label into a string is taken as the identity on its bytes.
- Sorting: `qsort` is any function that returns a sorted permutation, not a particular algorithm.
- Writer.Cursor.PutU64: writes the value as two 32-bit halves in sequence, where the source writes eight
  bytes; the bytes are the same.
- CpuShares.CpuContext.Collect: says nothing of the payload when all counters together advance by 2^64 or more
  between two samples, which the readings cannot tell from a smaller advance.
- StatLine.LineComesBack: excludes a blank, a NUL or a closing parenthesis as the state character, none of
  which the kernel prints.
- Deadline.Scheduler.WaitForNextSample: the interval is at least one second, as the option parsing ensures,
  and a reload starts a new schedule.
