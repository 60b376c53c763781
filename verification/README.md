# Verification of hacman

A Dafny model of the parts of hacman whose correctness is hard to see from one function at a
time, with proofs. `dafny verify dfyconfig.toml` checks everything.

hacman runs a project file: when the project is due it sets it up (an install script for a
project that follows a URL, a shell command for an embedded one), records that in a cache file,
and hands over to the project's program. Many hacman processes may run the same project at once,
setup code may run hacman again, signals may arrive at any moment, and any process may die
between any two steps. The model covers four areas.

* **The set-up-once protocol.** `Protocol` is a state machine of any number of processes over one
  cache slot: the record file, the temporary files beside it, the update lock and the work
  directory. `ProtocolSafety` proves mutual exclusion and record atomicity in every reachable
  state, `ProtocolHistory` the spacing of record writes and that a content-driven project is set
  up once, `ProtocolProvenance` whose setup the work directory comes from, `ProtocolAlone` what one
  process comes to when it is left alone, `ProtocolFailures` what a failed operation leaves behind,
  `ProtocolWorld` what the world outside may do at any time and what the remembered history says,
  and `ProtocolCounterexamples` gives runs that show why
  hypotheses are needed. `Schedule` and `Handoff` are the decision and the speculative exec,
  `Signals`, `SignalOutcomes` and `SignalHistory` the forwarding of termination signals around fork and how a
  supervised setup ends, `Nesting` the ancestor check on a chain of processes, `NestedSetups` setup
  scripts that run hacman again, and `NestedHangs` when such scripts hang, whatever they do after a
  failed run.
* **The sliding error window** that examples/systemd-errors.siml carries as C source:
  `ProbeTable` and `UnitMap` (open addressing with tombstones), `EventHeap` (a hole-based binary
  heap), `ErrorWindow` (counts kept in step with the heap) and `ContextLines` (a one-pass merger).
* **The self-digest stamper** tools/stamp.c: `Stamp`, with the file format written out in
  `StampFormat`. Offsets and sizes are those of the System V gABI, chapter 4, "ELF Header" and
  "Sections". The digest is an arbitrary function.
* **In-place text machinery**: `CacheRecord` (record printer and parser), `EnvWords` (the HACMAN
  word splitter), `Template` (environment references), `RelativePath` (safe paths), `BlockLines`
  and `PlanText` (block regions, the de-indenting iterator, plan and script) and `JoinPath` (the
  path normaliser of examples/last-file-c.siml).

C code that updates state in place is a class or a method with loops here, each proved against a
small function; the theorems are lemmas about those functions. Characters stand for bytes, and C
strings are strings without NUL. Where arithmetic can wrap or truncate (`hm_parse_ulong`, the
conversion to a 64-bit time, buffers with a capacity) the model does the same. All choices that
come from outside (the clock, whether an operation succeeds, how many bytes a read or write takes,
what a check returns, what setup code does) are arbitrary, so a theorem about all runs quantifies
over them.

The clock may step back, so that the theorems about all runs hold for any clock; only spacing
asks for one that never went back, which the state remembers.

Some statements one might expect are not true of the code. Each has a failing run or input here,
and the condition under which the code does meet it.

* A signal between the two statements of `forward_signals_to` is sent twice (`Signals.SentTwice`),
  and only then (`Signals.SentTwiceExactly`, which also says when a signal from the terminal, which
  has reached the child by itself, is sent on to it).
* Under `-c` and `-n` an unchanged check saves without the lock
  (`ProtocolCounterexamples.DryRunsSaveUnlocked`), and may write an old marker over that of a newer
  install (`ProtocolCounterexamples.DryRunRestoresOldMark`). No other save is unlocked
  (`ProtocolSafety.EverySaveIsJustified`), and the theorems about spacing and provenance hold for
  every run whose record writes were all locked (`ProtocolHistory.AllLocked`), whatever options its
  processes have.
* After the failed setup of an edited file, reverting the edit makes an old record match a foreign
  or empty work directory (`ProtocolCounterexamples.EditAndRevert`);
  `ProtocolProvenance.RecordVouchesForDirectory` gives the exact condition.
* Nested setups that come back to a project in progress are refused only within 256 process levels
  (`Nesting.NeverWaitsForAnAncestor`) and otherwise hang (`NestedHangs.SelfStartHangs`). Some scripts
  that start only given runs hang if and only if a chain of these runs comes back so far
  (`NestedHangs.SomeScriptsHangExactly`). Where every failed run ends its script, as under `sh -e`,
  `NestedSetups.NestingHangsExactly` says which ones do. A command runs without `-e` and may go on:
  it can hang where the strict script fails (`NestedHangs.TolerantScriptHangs`), and succeed although
  the project reaches itself (`NestedHangs.TolerantScriptSucceeds`).
* `stamp` accepts a zero slot that overlaps the ELF header, and `check` may then refuse the result
  (`Stamp.OverlapBreaksCheck`), so the round trip asks for a slot apart from the bytes that are read
  to find it.
* The plan shows a block faithfully exactly when no line is cut off (`PlanText.PlanShowsScript`).

## Model

| member | source | states |
|---|---|---|
| CacheRecord.RecordRoundTrip | src/cache.c:33-62 | for every identity without a line feed and every time in range, loading a printed record gives back the times (negative ones as 0), the mark with tab, CR and LF as spaces, and known |
| CacheRecord.RecordLooks | src/cache.c:435-443 | the text of a record: magic, identity, two decimal times with negative ones as 0, and the mark, in which exactly tabs, line feeds and carriage returns are spaces |
| CacheRecord.ForeignRecordIgnored | src/cache.c:176-255 | a record printed for one identity is an unknown project to every other identity |
| CacheRecord.TwoLinesSuffice | src/cache.c:195-215 | once two line feeds have been read, whatever follows does not change what is parsed |
| CacheRecord.PrintIsShort | src/cache.c:435-443 | no record comes near the 4096-byte buffer: at most 442 bytes |
| CacheRecord.LoadReads | src/cache.c:224-253 | what a load makes of any file: known exactly when the first line is the magic and the identity; then each time is its field read as a number modulo 2^64, or 0 when the field is missing or not a number, and the mark is its field up to a NUL or 255 bytes |
| CacheRecord.LoadSees | src/cache.c:199-232 | a file without a line feed is no record, and of a longer file only the first 4095 bytes count |
| CacheRecord.LoadFailsExactly | src/cache.c:187-215 | a load fails exactly when the record exists but cannot be opened, or a read fails before two line feeds or 4095 bytes have come |
| CacheRecord.AppendStr | src/cache.c:44-48 | appends the string up to its NUL, or what fits |
| CacheRecord.AppendClean | src/cache.c:33-42 | appends the cleaned mark, or what fits |
| CacheRecord.AppendLong | src/cache.c:50-62 | appends the decimal text of the time, negative times as 0 |
| CacheRecord.FormatRecord | src/cache.c:435-443 | the bytes put into the buffer are exactly the printed record |
| CacheRecord.NextField | src/cache.c:156-167 | the field up to the next tab, and the text after it |
| CacheRecord.ParseUlong | src/util.c:266-278 | accepts exactly non-empty digit strings and wraps at 2^64 |
| CacheRecord.ParseBuffer | src/cache.c:216-255 | the bytes of a buffer parse as the pure parser says, including wrong magic, wrong identity and missing fields |
| CacheRecord.LoadRecord | src/cache.c:176-255 | an absent file is an unknown project, a failed open or read a failed load; otherwise, however read splits the file, with the early stop after two line feeds, the result is the pure parse of the whole file |
| CacheRecord.ReadRecord | src/cache.c:187-215 | the read loop fails exactly when a read fails before two line feeds are read or the buffer is full; else it has read all that the parser can use |
| Schedule.DueStaysDue | src/main.c:329-365 | with a clock that does not go back, a due decision on a record from the past is still due at the recheck |
| Schedule.DueExactly | src/main.c:329-365 | due exactly when forced, the program is missing, the file changed or the schedule has come round; a reported wait is the exact time to the next due moment, or endless exactly when the project is never to run again |
| Schedule.WrittenRecordsFit | src/main.c:329-365 | the time since the last check is a 64-bit value for every record that hacman wrote |
| Handoff.ExecProgram | src/main.c:384-398 | the program gets the argument vector with FILE's slot replaced; after a failed exec the vector is unchanged |
| Handoff.Finish | src/main.c:400-413 | after a cache hit: under -c, -n or --adopt, or without a program, the run returns; else the program is executed with bin-path in place of FILE, or cannot be, and then the argument vector is unchanged |
| Handoff.Launch | src/main.c:690-732 | speculative exec refines the checked path: same outcome and argument vector. The program is executed exactly when there is a runnable one, none of -c, -n and --adopt is given and the project is not due at the first look or the locked recheck, and then with its own path and the arguments after FILE; a run that is not due under -c, -n or --adopt returns |
| ProtocolSafety.RealCodecIsLawful | src/cache.c:176-255 | the record format has the properties the protocol proofs use |
| ProtocolSafety.NextOk | src/main.c:535-564 | each step of one process keeps its view consistent: what it holds, what it has written, what its exit status justifies |
| ProtocolSafety.AlwaysSafe | src/main.c:690-788 | the invariant holds after every run: any number of processes, any interleaving, crashes at any step, a clock that may step back |
| ProtocolSafety.SlowPathIsExclusive | src/cache.c:360-408 | no two processes are in the slow path together, and setup runs only under the lock |
| ProtocolSafety.EverySaveIsJustified | src/main.c:742-788 | every record write came from a setup that exited with 0 uninterrupted, an adopt, or a check that returned the recorded marker; its content is what that calls for, with the marker of the check, and an unchanged check moves only the time; the writer held the lock unless it was inspecting, and then it was such a check of a URL project |
| ProtocolAlone.UnchangedMeansPresent | src/main.c:742-755 | in every run, an unchanged check of a project whose program lies in the work directory is recorded only by a process that saw the program there when it turned to the record |
| ProtocolAlone.AloneComesTo | src/main.c:690-788 | a run left alone, with nothing going wrong, from any reachable slot nobody holds: nothing unless the project is due; then an inspection reports pending work, a check that finds marker, record and program in order moves only the time, an adopt records what there is, and anything else sets up and records the marker of the check; only a setup empties the work directory, and that of an embedded project with a known record keeps what is there |
| ProtocolAlone.AloneComesThrough | src/main.c:690-788 | such a run gets to its end: an install or a command is reached whenever the program is missing, the record is unknown or the marker differs |
| ProtocolFailures.FailureMeans | src/cache.c:445-470 | a failed read of the record, lock, check, reset, setup, or creation, write or rename of the temporary file gives up what was begun, removes the temporary file once it is there, and writes no record |
| ProtocolFailures.NoLitter | src/cache.c:449-470 | in every run, only a process that is writing its record, or has died, has a temporary file, and whoever has written a record goes on to end well |
| ProtocolFailures.FailedWritesNothing | src/main.c:757-788 | in every run, a process one of whose operations has failed never writes a record, has no temporary file and ends in failure unless it dies |
| ProtocolFailures.ExecOutcomes | src/main.c:692-709 | in every run, a process has become the program exactly when its exec succeeded with the program there, and reports that it cannot execute it exactly when exec failed and the program was there afterwards |
| ProtocolWorld.DeathMeans | src/cache.c:410-415 | a process that dies loses its lock and leaves record and temporary file as they are; only a running setup can outlive it |
| ProtocolWorld.HistoryMeans | src/main.c:722-732 | in every run, the remembered flags say what happened: the clock never stepped back, every locked recheck found the program, and which setups exited with 0 |
| ProtocolWorld.WorkMeans | src/main.c:547-564 | in every run, a project is said to have written into the directory exactly when it did so since it was last emptied, and to have touched it exactly when it wrote or emptied it since it was last emptied or a setup was last recorded |
| ProtocolSafety.RecordIsOneCompleteSave | src/cache.c:417-472 | the record path is absent exactly as long as nothing was written, and else holds the complete text of the last write |
| ProtocolSafety.LoadSeesTheLastSave | src/cache.c:176-255 | any load in any reachable state returns the last save in full, or nothing for another identity |
| ProtocolHistory.OutsiderIsHarmless | src/main.c:690-736 | a process without the lock changes neither record nor directory by a step that is not an unlocked record write |
| ProtocolHistory.FreshMove | src/main.c:722-732 | as long as no record is written without the lock, every step keeps the lock owner's copy of the record equal to what the record says |
| ProtocolHistory.TimelyNext | src/main.c:722-732 | the locked recheck lets only permitted successors of the last write through |
| ProtocolHistory.WritesKeepToTheSchedule | src/main.c:690-788 | in every run whose record writes are all locked, with one project, no -f, a clock that never went back and the program in place at each recheck, every record write keeps to the schedule with respect to the one before it |
| ProtocolHistory.IntervalsAddUp | src/main.c:783-788 | n+1 writes under an interval schedule span at least n intervals |
| ProtocolHistory.SetUpOnce | src/main.c:329-365 | under the same conditions an embedded project without a schedule of its own is recorded at most once, in every run |
| ProtocolHistory.UnchangedChecksRepeatTheRecord | src/main.c:742-754 | in every run whose record writes are all locked, a write after an unchanged check repeats the write before it in everything but the time of the check |
| ProtocolHistory.RecordCarriesLastChange | src/main.c:742-788 | in every run whose record writes are all locked, whoever knows the project from the record sees the marker and the time of the last recorded setup or adopt |
| ProtocolProvenance.AlwaysAccountable | src/main.c:547-564 | in every run whose record writes are all locked and adopt nothing, whatever is in the work directory or happened to it since the last recorded setup is the work of the recorded identity, the setup in progress, a setup that ended unrecorded, or a child of a crashed run |
| ProtocolProvenance.RecordVouchesForDirectory | src/cache.c:130-134 | in such a run, unless another identity left a child behind, a known record vouches for a directory that only its identity wrote or changed if and only if no other identity is being set up and none was whose setup emptied, half emptied or changed it and ended unrecorded since; with no such setup at all nothing changed it since the last recorded setup |
| ProtocolProvenance.InstallsStartEmpty | src/main.c:767-781 | in every run, without further conditions, an install of a URL project starts in a directory that holds nothing but what setup children of crashed runs still write, and a setup that began with a reset works among its own files and theirs |
| ProtocolCounterexamples.EditAndRevert | src/main.c:551-558 | two concrete runs in which a reverted edit is trusted: with the directory of the failed edit, and with an empty one when the edit failed before its first write |
| ProtocolCounterexamples.DryRunsSaveUnlocked | src/main.c:750-754 | a concrete run in which two dry runs save without the lock and break the spacing |
| ProtocolCounterexamples.DryRunRestoresOldMark | src/main.c:742-754 | a concrete run in which a dry run writes the old marker over the record of a newer install |
| Signals.Always | src/install.c:143-235 | the supervision invariant holds for all interleavings of parent, handler, fork and child |
| Signals.SetupIsSupervised | src/install.c:552-674 | the lock is held while the child is unreaped; a caught signal means no save; a user-sent one is sent to the child before it is gone; one caught before the fork keeps the setup from being executed |
| Signals.SentTwice | src/install.c:211-218 | a single signal can be sent to the child twice |
| Signals.SentTwiceExactly | src/install.c:144-218 | in every run with a single signal that was caught and whose child is reaped, the signal was sent twice if and only if a user sent it between the two statements of forward_signals_to; once its handler has returned, its origin and the time of arrival decide how often, a terminal's signal being sent once if it came before forward_signals_to looked |
| SignalOutcomes.RecordedExactly | src/install.c:628-674 | in every run that ends without having caught a signal, the record is written if and only if the setup exited with 0 and the wait for it succeeded |
| SignalOutcomes.SmoothRunRecords | src/install.c:552-674 | a setup with which nothing goes wrong can always get to its end, and is recorded there |
| SignalOutcomes.CaughtMeansDeath | src/install.c:196-204 | a run that caught a signal and waited for its child never returns to its caller; once cleanup is done it can only die |
| SignalOutcomes.CanEnd | src/install.c:552-674 | from wherever a run has got to, it can come to an end without a further signal |
| SignalOutcomes.EndsUnlocked | src/install.c:552-674 | a run that is over has given up the lock |
| SignalOutcomes.HandlersNest | src/install.c:144-178 | running handlers are for different signals and hold up the main flow; a handled signal is blocked exactly while its own handler runs |
| SignalOutcomes.FailedForkRunsNothing | src/install.c:552-560 | after a failed fork no setup code runs and nothing is sent or recorded |
| SignalOutcomes.ZeroMeansExit | src/install.c:640-674 | only setup code that was executed and exited with 0 counts as such |
| SignalOutcomes.ReachedBeforeExec | src/install.c:217-235 | a signal that reaches the child before it has executed the setup code keeps it from doing so |
| SignalOutcomes.SentIsPending | src/install.c:144-155 | a signal sent to a child that is not reaped can be delivered from then on |
| SignalOutcomes.DeliveredMeans | src/install.c:144-155 | only a sent signal is delivered; it ends setup code that does not live through it, which then has not exited with 0 |
| SignalHistory.HistoryMeans | src/install.c:142-204 | in every run, the remembered flags say what happened: a handler was started; one was started for a user's signal before the child was reaped; one was started before the fork |
| SignalHistory.DeliveredEarly | src/install.c:178-235 | in every run, a signal that reaches the child between fork and exec is noted until the child has reset its handler, and ends it after that |
| SignalHistory.DeadDoesNothing | src/install.c:196-204 | a hacman that has died runs no handler, takes no step, receives no signal and holds no lock |
| Nesting.WalkUp | src/cache.c:326-342 | the loop finds a process exactly when a line of at most 256 processes leads up to it, each the parent procfs reports for the one before |
| Nesting.NeverWaitsForAnAncestor | src/cache.c:344-408 | a lock held by an outer level is refused if and only if fewer than 256 processes lie between; locks held along a chain are distinct |
| Nesting.ShortChainsNeverSelfBlock | src/cache.c:360-408 | a process with at most 256 levels above it never waits for a lock of its own chain |
| Nesting.GivingUpFrees | src/cache.c:410-415 | in every run, a process that gives up its lock, or ends, frees its own locks and no others, and the one that waited for it goes on as it was |
| Nesting.LocksAreOfTheLiving | src/cache.c:340-358 | in every run, a held lock belongs to a process of the chain or to one that took it from outside; none outlives its process |
| NestedSetups.AttemptsAreThoseOfTheChain | src/cache.c:344-408 | at every level of nested setups, records are acquired, refused or waited for as in the chain of processes that holds the same locks |
| NestedSetups.SetUpEnds | src/install.c:561-565 | when every nested run is fatal to its script: a nested run succeeds if and only if no project reaches itself from it, else ends as its first unsound chain of runs does; records are completed only after everything they depend on |
| NestedSetups.NestingEndsExactly | src/cache.c:360-408 | when every nested run is fatal, from an empty cache the outermost run succeeds if and only if no project reaches itself through setups |
| NestedSetups.NestingHangsExactly | src/cache.c:326-342 | when every nested run is fatal, a run that cannot succeed follows the first unsound nested run of each script; where that chain first comes back to a project in progress it fails if fewer than 256 processes lie between, and else waits forever |
| NestedHangs.SoundNestingSucceeds | src/main.c:547-564 | if no project reaches itself, nested setups succeed whenever their scripts exit with 0 as long as nested runs succeed, whatever the scripts would do after a failed one |
| NestedHangs.NestingEndsUnlessFar | src/cache.c:326-342 | for scripts that go on in any way after a failed run, nested setups end unless some chain of runs comes back to a project over 256 or more processes |
| NestedHangs.SomeScriptsHangExactly | src/cache.c:326-342 | among the scripts that start no runs but given ones, some hang if and only if a chain of these runs comes back to a project over 256 or more processes |
| NestedHangs.SelfEndsExactly | src/cache.c:331-342 | a project whose script runs only the project itself hangs at its first run over 256 or more processes, every run before that being refused, and else ends as the script does when all its runs fail |
| NestedHangs.SelfStartHangs | src/cache.c:331-342 | a script that runs its own project is refused over fewer than 256 processes and hangs over more |
| NestedHangs.TolerantScriptHangs | src/install.c:751-755 | a script that goes on after a refused run hangs at the next one over 256 or more processes, where the script that stops there fails |
| NestedHangs.TolerantScriptSucceeds | src/install.c:751-755 | a command that ignores its refused run of the project itself succeeds and is recorded |
| ProbeTable.EmptyMeansAbsent | examples/systemd-errors.siml:959-1043 | an empty slot on the probe path means the name is not in the table |
| ProbeTable.InsertKeeps | examples/systemd-errors.siml:959-1012 | putting a new unit into the first tombstone or empty slot keeps every live name reachable |
| ProbeTable.RemoveKeeps | examples/systemd-errors.siml:1045-1081 | a tombstone keeps every other live name reachable |
| ProbeTable.HasEmpty | examples/systemd-errors.siml:930-957 | a table below its load limit has an empty slot, so a probe ends |
| UnitMap.UnitMap.constructor | examples/systemd-errors.siml:813-825 | a new map is valid and empty |
| UnitMap.UnitMap.Rehash | examples/systemd-errors.siml:867-921 | a rehash keeps the map and every Unit object, and drops all tombstones |
| UnitMap.RoomToGrow | examples/systemd-errors.siml:930-957 | the load test, with a rehash to the same or the double capacity, always leaves room |
| UnitMap.UnitMap.GetOrAdd | examples/systemd-errors.siml:923-1043 | returns the unit of the name, the same object as before, or adds a new one with count 0 and nothing else |
| UnitMap.UnitMap.FindOrInsert | examples/systemd-errors.siml:959-1043 | the probe loop and insertion below the load limit |
| UnitMap.Probe | examples/systemd-errors.siml:973-1043 | finds the name, or the slot for it: the first tombstone or else the empty slot that ended the search |
| UnitMap.UnitMap.Remove | examples/systemd-errors.siml:1045-1081 | exactly this name leaves the map; abort is never reached |
| UnitMap.Locate | examples/systemd-errors.siml:1050-1081 | the search by identity ends at the slot of the unit |
| UnitMap.Refill | examples/systemd-errors.siml:890-917 | re-inserting every live unit gives a table of the same map |
| EventHeap.FirstIsOldest | examples/systemd-errors.siml:1144-1206 | the first event of a heap is the oldest |
| EventHeap.EventHeap.Push | examples/systemd-errors.siml:1095-1142 | keeps the heap order and adds exactly the event |
| EventHeap.EventHeap.Pop | examples/systemd-errors.siml:1144-1206 | keeps the heap order and removes exactly the returned event, which is an oldest one |
| EventHeap.RiseInto | examples/systemd-errors.siml:1115-1141 | the hole rising from the end leaves a heap of the same events |
| EventHeap.SinkInto | examples/systemd-errors.siml:1160-1205 | the hole sinking from the top leaves a heap of the same events |
| ErrorWindow.CountsEachOnce | examples/systemd-errors.siml:1095-1206 | the count of a unit is the number of positions of the window whose event points at it |
| ErrorWindow.CountsIgnoreOrder | examples/systemd-errors.siml:1095-1206 | how many events point at a unit does not depend on their order |
| ErrorWindow.App.Add | examples/systemd-errors.siml:1513-1560 | an entry is accepted exactly when it is recent enough and its name ends in .service; it adds one event for its service; every mapped unit's count stays positive and equal to the number of events that point at it |
| ErrorWindow.App.CountOne | examples/systemd-errors.siml:1950-2059 | the count goes up with the event that is pushed |
| ErrorWindow.App.ExpireOne | examples/systemd-errors.siml:2075-2108 | the oldest event goes and its unit with it exactly when that was its last event; the count is never 0 beforehand |
| ErrorWindow.App.ExpireOld | examples/systemd-errors.siml:2061-2114 | an event stays, as often as before, exactly if it is younger than the window, or has a positive time while the clock is within one window of its start; the result says whether any left, kept units stay the same objects |
| ContextLines.ViewIsExact | examples/systemd-errors.siml:3161-3315 | the view has exactly the items near an error, once each and in order, no two gaps meet, and a position ends the view so far with a log line exactly when it is shown |
| ContextLines.ViewShows | examples/systemd-errors.siml:3161-3315 | the items shown are exactly those within the context of an error, once each and in order; without an error there is nothing, not even a gap |
| ContextLines.HiddenRun | examples/systemd-errors.siml:3200-3262 | a maximal omitted run contributes exactly one gap, at the start as between regions and at the end |
| ContextLines.BuildDetail | examples/systemd-errors.siml:3161-3315 | the one-pass merger appends exactly the view, and nothing when there is no error |
| ContextLines.AddRegion | examples/systemd-errors.siml:3195-3300 | one error extends the lines emitted so far to the end of its region |
| Stamp.EncodedRoundTrip | tools/stamp.c:45-66 | in both byte orders, reading an encoded 64-bit value gives it back |
| Stamp.ElfFile.Read | tools/stamp.c:43-54 | the byte loop computes the field in the file's byte order |
| Stamp.ElfFile.Write64 | tools/stamp.c:56-66 | the byte loop replaces exactly the eight bytes by the encoded value |
| Stamp.FindsIsUnique | tools/stamp.c:97-171 | at most one offset is found |
| Stamp.ReadsAreInBounds | tools/stamp.c:97-171 | on the accepting path every header, the name table and the slot lie inside the file, so no 64-bit sum wraps |
| StampFormat.FindsByTheBook | tools/stamp.c:97-171 | which files are accepted and where the slot is, in the offsets, sizes and values of the gABI for both classes and both byte orders |
| Stamp.FindsStays | tools/stamp.c:97-171 | overwriting a slot apart from the bytes that are read to find it leaves what is found unchanged |
| Stamp.OtherDigestsFail | tools/stamp.c:226-244 | after any value is written into the zero slot, check accepts if and only if it is the digest of the zeroed file |
| Stamp.StampRoundTrip | tools/stamp.c:203-244 | for both classes and byte orders a stamped file, its slot apart from the bytes that are read to find it, has the same slot, checks, and gives the original when zeroed |
| Stamp.SomeFileCanBeStamped | tools/stamp.c:203-224 | files with such a slot exist |
| Stamp.OverlapBreaksCheck | tools/stamp.c:226-244 | a concrete file whose slot overlaps the ELF header is stamped and then refused by check |
| Stamp.StampedIsRefused | tools/stamp.c:209-214 | a second stamp accepts a stamped file if and only if the digest was 0, the slot being apart from the bytes that are read to find it |
| Stamp.ElfFile.FindTable | tools/stamp.c:122-134 | the header checks hold exactly when the section table lies in the file and names a string table |
| Stamp.ElfFile.FindSection | tools/stamp.c:143-171 | the section loop succeeds exactly when one well-formed section has the name and no other does |
| Stamp.ElfFile.FindSlot | tools/stamp.c:97-171 | succeeds exactly on accepted files, with the slot |
| Stamp.ElfFile.Stamp | tools/stamp.c:203-224 | succeeds exactly when the slot is found and zero, and then writes the digest of the file |
| Stamp.ElfFile.Check | tools/stamp.c:226-244 | succeeds exactly when the slot holds the digest of the zeroed file |
| EnvWords.SplitInvertsQuoting | src/main.c:158-220 | splitting any quoted and escaped rendering of at most 64 words in at most 4096 bytes gives the words, empty ones included |
| EnvWords.OnlyRenderingsSplit | src/main.c:158-220 | every accepted text is such a rendering of its words |
| EnvWords.LimitsAreExact | src/main.c:163-185 | exactly a text of more than 4096 bytes is too long, and one of more than 64 words has too many |
| EnvWords.SeparatesWords | src/main.c:175-190 | a space, tab, line feed, vertical tab, form feed or carriage return separates words, and no other byte does |
| EnvWords.QuotesHold | src/main.c:188-206 | both kinds of quotes hold a word together whatever is between them; a backslash takes away the meaning of any byte |
| EnvWords.ScanPiece | src/main.c:188-206 | a quoted or escaped piece scans to its value |
| EnvWords.HeldWordReadsBack | src/main.c:186-213 | a stored argument read as a C string is the word |
| EnvWords.EnvOptions.Step | src/main.c:188-206 | one turn of the word loop; the write position never passes unread text |
| EnvWords.EnvOptions.ReadWord | src/main.c:188-210 | the word loop yields the next word of the tokenizer or the same error |
| EnvWords.EnvOptions.Parse | src/main.c:161-220 | in one buffer, exactly the words of the pure tokenizer, NUL-terminated at the recorded offsets, or the same error |
| Template.ExpandsExactly | src/config.c:496-555 | succeeds with x if and only if the template is literals and closed references of at most 63 bytes to non-empty variables whose values, not scanned again, give x, x fits, and x is absolute when required |
| Template.PartsExpand | src/config.c:502-537 | a list of literals and references expands to its value |
| Template.ReferenceExpands | src/config.c:502-532 | a reference to HOME gives the home directory, one to another variable the bytes of its value, one to an unset or empty variable is an error; what follows expands as it would alone |
| Template.UnclosedFails | src/config.c:507-520 | a reference not closed by two braces within 63 bytes is an error |
| Template.PlainTextExpands | src/config.c:499-537 | a text without two opening braces in a row expands to itself |
| Template.OthersDoNotMatter | src/config.c:522-532 | a variable that no reference names has no effect |
| Template.ReadName | src/config.c:507-513 | copies a name up to its brace, the end or the size of its buffer |
| Template.PutReference | src/config.c:504-532 | one reference: its value is emitted or the same error reported |
| Template.ExpandTemplate | src/config.c:496-555 | the loop over the output buffer gives the expansion as a C string, never a truncated one, or the same error |
| RelativePath.SafeMeansJoined | src/config.c:308-327 | the accepted paths are exactly the bounded slash-separated lists of components other than empty, "." and ".." |
| RelativePath.ValidRelativePath | src/config.c:308-327 | the index loop accepts exactly the safe paths |
| RelativePath.DotsMeanNothing | src/main.c:424-443 | in a walk, an empty component and "." change nothing, ".." takes back the component before it and stays at the root |
| RelativePath.NeverLeavesWorkdir | src/main.c:424-443 | resolved component by component, workdir/path never leaves the work directory, symbolic links aside |
| RelativePath.ShiftUp | src/main.c:436-440 | moving overlapping bytes up keeps them |
| RelativePath.ResolveCachedBin | src/main.c:424-443 | in its own buffer a relative path becomes workdir, slash, path; empty, absolute and overlong ones are left alone |
| BlockLines.Config.BlockLine | src/config.c:648-663 | one line event updates the remembered region: first raw byte, last byte, indentation |
| BlockLines.StartedBlock | src/config.c:648-663 | the region of a block ends with its last line with text and carries the block's indentation |
| BlockLines.NextLine | src/config.c:895-912 | yields the next line with at most the indentation removed |
| BlockLines.DeindentRoundTrip | src/config.c:881-912 | walking the remembered region yields exactly the block's lines from the first to the last with text |
| PlanText.Format | src/util.c:67-121 | the formatter renders literal bytes, %s, %c, %u and %d, cut off at the capacity |
| PlanText.BytesStandForThemselves | src/util.c:67-121 | literal bytes, %c, %s and %S render as themselves, in order |
| PlanText.NumbersReadBack | src/util.c:67-121 | %u and %d render decimal digits that read back as the number, negative ones after a sign |
| PlanText.Output.Out | src/util.c:183-204 | each call appends its text, cut off at 4096 bytes, whatever is flushed when |
| PlanText.PrintBlock | src/plan.c:59-81 | the plan's block is every line of the region, indented and cut off |
| PlanText.WriteScript | src/install.c:466-484 | the script is the interpreter line and every line of the region |
| PlanText.PlanShowsScript | src/plan.c:59-102 | the plan's block without its columns equals the script body if and only if every line fits |
| PlanText.PlanAndScriptAgree | src/plan.c:59-102 | the same for what any remembered region yields |
| JoinPath.StepsAreNormal | examples/last-file-c.siml:135-172 | the result has no empty or "." component and ".." only as a leading run of a relative path |
| JoinPath.NormalFormLeadsToTheSame | examples/last-file-c.siml:135-172 | path and normal form lead to the same directory from anywhere, symbolic links aside |
| JoinPath.BoundedExactly | examples/last-file-c.siml:160-172 | the bounded walk succeeds exactly when every path on the way has room |
| JoinPath.JoinsExactly | examples/last-file-c.siml:109-193 | success exactly when input, every path on the way and the result fit; the result is the shown normal form |
| JoinPath.JoinIsIdempotent | examples/last-file-c.siml:109-193 | joining the result with nothing gives the result |
| JoinPath.RenderIsJoin | examples/last-file-c.siml:160-172 | the written path is the root and the components joined by slashes |
| JoinPath.StartsMarkComponents | examples/last-file-c.siml:149-172 | every recorded offset is where its component starts |
| JoinPath.Pop | examples/last-file-c.siml:149-158 | taking back a component, by its recorded offset, leaves the path of the shorter stack |
| JoinPath.Push | examples/last-file-c.siml:160-172 | appends a component exactly when it fits with a terminator |
| JoinPath.TakeComponent | examples/last-file-c.siml:143-172 | the body of the loop does one step of the normal form |
| JoinPath.Combine | examples/last-file-c.siml:109-193 | the in-place loop computes exactly the bounded normal form, and its array of offsets never runs out |

## Left out

- curl, pipes and polling in src/check.c: a check succeeds with an arbitrary marker or fails.
- The Landlock sandbox, `realpath` and `/proc/self/fd`: system calls without a model here.
- SIML parsing: `BlockLines` starts from the events a parser reports for a block whose non-empty lines carry the same indentation.
- XXH3: the stamper's digest is an arbitrary function, identities are arbitrary strings.
- The contents of setup scripts: an opaque step that may write the work directory, succeed, fail or be killed.
- Why a load or another system call fails: in the protocol it fails at any step or not. An interrupted read is simply repeated.
- Failures of `sigaction` and of `waitpid` other than after the child is gone; `Signals` also leaves out the child that a SIGKILL of hacman leaves behind, which `Protocol` has as an orphan.
- Process-id reuse, power loss (nothing is synced to disk), and lock cycles between unrelated process trees, which the ancestor check does not claim to prevent.
- Schedule.DueExactly: subtracts exactly; a hand-edited record whose time reads as negative overflows the subtraction of src/main.c:359, which C leaves undefined.
- NestedSetups.SetUpEnds: assumes scripts for which every nested run is fatal; without that, NestedHangs says what remains true.
- Scripts that run several hacman at once, and handoff programs that run hacman: `NestedSetups` has setup scripts that start one nested run after the other.
- Other slots: the protocol is modelled for one slot, whose processes all have the same kind.
- ProtocolProvenance.RecordVouchesForDirectory: assumes that no other identity left a child behind, because that may change the directory at any time, and that nothing was adopted, because an adopt trusts what it finds.
- ProtocolHistory.WritesKeepToTheSchedule: assumes one project per slot, no `-f`, locked writes, a clock that never went back and the program in place at each recheck, as the code only promises spacing then.
- ProtocolHistory.SetUpOnce: carries the same assumptions; it counts recorded setups, since a failed one is meant to be repeated.
- JoinPath.JoinIsIdempotent: assumes that the result and a slash fit the input buffer, without which the second call fails.
- UnitMap.UnitMap.constructor: the hash is any function of the name, so the arithmetic of `fnv1a` is not modelled; the mask of a power-of-two capacity is a remainder.
- `unitmap_clear`, `unitmap_destroy` and the rebuilding of the window: they only throw everything away.
- Allocation failure, and sizes near the limits of `size_t` in the error window, where the source aborts.
- Stamp.StampRoundTrip: asks for a slot apart from the bytes that are read, which is sufficient; an overlap may by chance do no harm.
- PlanText.Output.Out: writes to the file descriptor are complete, and the stderr prefix is not modelled.
- BlockLines.NextLine: pointers are offsets into the buffer, so a null cursor does not arise.
- Ordinary field setters, option parsing, usage and version text, and duration formatting.
- X11, terminal and rendering code in the examples.
