# netcat-rs event loop and client handler in Dafny

This project models the core of netcat-rs, a small `nc` clone. The core has
two parts:

- **The `poll(2)` event loop (src/iopoll.rs).** It keeps a watch list of
  `pollfd` records and calls `poll` repeatedly. For each descriptor that
  reports a condition it calls a handler: `ready_for_io`, then `hangup`,
  `error` and `not_valid`. It stops when its `active` flag is cleared.
- **The client handler (src/main.rs, `NetcatClientEventHandler`).** It
  copies standard input to a TCP or UDP connection and the connection to
  standard output. It half-closes a TCP connection when stdin ends, and
  stops the loop on end of stream, a timeout or a hangup of stdin.

The modules:

- `Common`: `Option`.
- `EventSets`: the `EventSet` bit-set and its predicates, and
  `EventSetBuilder`. It also has the `Display` rendering, as an imperative
  method proved equal to a specification function. Lemmas state what the
  rendered text says.
- `IoPoll`: the `EventLoop` class.
  - The watch list is a `seq<PollFd>` that the methods reassign.
  - `pollfds` is ordered. Removal takes out the first entry for a
    descriptor; `Position` finds that entry with a loop.
  - The strict `remove_fd` and the tolerant `unregister_fd` are kept apart.
  - The default `not_valid` callback is here too.
- `Netcat`: the handler class. Its `ReadyForIo` is proved equal to the
  specification function `React`; its two branches, `StdinReady` and
  `NetworkReady`, are proved equal to `ReactStdin` and `ReactNetwork`. Lemmas state when it forwards bytes,
  closes a latch, fails or stops the loop. The process exit code is here
  too.
- `EventRun`: `run`. The methods `Poll`, `Snapshot`, `DispatchAll`,
  `RemoveDeferred`, `RunCycle` and `Run` act on the `EventLoop` and handler
  objects. Each is proved equal to a specification function: `Poll` to
  `WithRevents`, `Snapshot` to `Triggered`, `DispatchAll` to `Dispatch`,
  `RemoveDeferred` to `RemoveEach`, `RunCycle` to `CycleSpec` and `Run` to
  `RunSpec`.
  Lemmas about those functions state:
  - the order of callbacks;
  - that a failing `ready_for_io` ends the run;
  - the invariant that the watch list has no repeats, a closed stdin is not
    watched, and a closed network has stopped the loop;
  - that a TCP half-close happens at most once;
  - that a descriptor reported invalid is gone after its cycle.

Two things are inputs:

- **The operating system.** Each `poll` call is a `Cycle` value. It holds
  the call's result, the conditions reported for each descriptor, and the
  outcomes of the reads and writes the handler performs for it.
- **The handler's actions.** They are recorded as `Effect` values: bytes
  written to the network, datagrams sent, the half-close, bytes written to
  stdout, stdin unregistered, and the loop asked to stop.

`run` uses the program's one handler directly, because Dafny traits are not
used here. The order of callbacks does not depend on the handler, and it is
stated as a trace of `Call` values. `EventRun.CycleCalls` gives that trace.

When `poll` fails (returns -1), `run` only clears the loop flag and returns
`Ok(())`; the failure is not reported (src/iopoll.rs:184, 196-200, 245; see
the `todo` at line 197). `EventRun.CycleWithoutEvents` states that such a
cycle ends the loop with no callback, and the run then returns `RunOk`.

## Model

| member | source | states |
|---|---|---|
| EventSets.FlagsAreDistinctBits | src/iopoll.rs:3 | each of the six poll flags is a single bit inside 0x3F and no two flags share a bit |
| EventSets.EventSet.Flags | src/iopoll.rs:40-42 | a flag is among the set's named conditions exactly when its bit is set |
| EventSets.EventSet.IsReadable | src/iopoll.rs:49-51 | readable exactly when POLLIN or POLLPRI is present |
| EventSets.EventSet.IsHighPrioReadable | src/iopoll.rs:53-56 | high-priority readable exactly when POLLPRI is present, and it implies readable |
| EventSets.EventSet.IsWritable | src/iopoll.rs:58-60 | writable exactly when POLLOUT is present |
| EventSets.EventSet.IsNotValid | src/iopoll.rs:62-64 | not valid exactly when POLLNVAL is present |
| EventSets.EventSet.IsError | src/iopoll.rs:66-68 | error exactly when POLLERR is present |
| EventSets.EventSet.IsHangup | src/iopoll.rs:70-72 | hangup exactly when POLLHUP is present |
| EventSets.EventSet.IsEmpty | src/iopoll.rs:74-76 | empty exactly when no named condition and no other bit is set; an empty set is neither readable, writable, hung up, in error nor invalid |
| EventSets.Empty | src/iopoll.rs:45-47 | the empty set has no named condition |
| EventSets.FlagsOfFromFlags | src/iopoll.rs:40-42 | building a bit-set from a set of flags and reading its flags back gives the same flags |
| EventSets.FromFlagsOfFlags | src/iopoll.rs:40-42 | a bit-set is determined by its named flags, up to the unnamed bits |
| EventSets.EventSetBuilder.New | src/iopoll.rs:114-118 | a new builder holds the empty set |
| EventSets.EventSetBuilder.Readable | src/iopoll.rs:123-126 | adds POLLIN and POLLPRI and leaves every other bit unchanged |
| EventSets.EventSetBuilder.Writable | src/iopoll.rs:128-132 | adds POLLOUT and leaves every other bit unchanged |
| EventSets.EventSetBuilder.All | src/iopoll.rs:134-138 | replaces the set with exactly POLLIN, POLLPRI and POLLOUT, whatever it held |
| EventSets.ReadInterestIsExact | src/iopoll.rs:113-126 | a fresh builder made readable and finalized, the interest set used to register stdin and readers, is exactly POLLIN\|POLLPRI: readable, not writable |
| EventSets.WriteInterestIsExact | src/iopoll.rs:113-132 | a fresh builder made writable and finalized, the interest set used to register writers, is exactly POLLOUT: writable, not readable |
| EventSets.PiecesAreTerminated | src/iopoll.rs:81-100 | the guarded `push_str` calls build the set flags' names in display order, each followed by '\|' |
| EventSets.TrimTerminated | src/iopoll.rs:101-104 | dropping the final character of that text leaves the names joined by '\|' |
| EventSets.TrimmedPiecesAreRendered | src/iopoll.rs:83-104 | the text built by the six pushes, trimmed when non-empty, is the rendered text |
| EventSets.PushIfSet | src/iopoll.rs:83-85 | one guarded push appends the flag's name and '\|' exactly when the flag is set |
| EventSets.Display | src/iopoll.rs:79-106 | `fmt` produces the names of the set flags in the order IN, OUT, ERR, HUP, NVAL, PRI, joined by '\|' |
| EventSets.RenderedListsSetFlags | src/iopoll.rs:79-106 | the rendered text is empty exactly when no named flag is set; otherwise it has no '\|' at either end, and splitting it at '\|' gives back exactly the names of the set flags |
| EventSets.SplitJoined | src/iopoll.rs:101-105 | splitting names joined by '\|' gives the names back (the rendering is unambiguous) |
| EventSets.JoinedEnds | src/iopoll.rs:101-104 | joined non-empty names neither start nor end with '\|' |
| EventSets.NamesInMembers | src/iopoll.rs:83-100 | a name is listed exactly when its flag is set |
| EventSets.NamesInEmpty | src/iopoll.rs:101-104 | nothing is listed exactly when no flag is set |
| IoPoll.IndexOf | src/iopoll.rs:173 | `position` finds the first entry for a descriptor, or nothing when the descriptor is not watched |
| IoPoll.WithoutAt | src/iopoll.rs:172-179 | removal takes out exactly the first entry for the descriptor and shifts the later ones down; an unwatched descriptor leaves the list unchanged |
| IoPoll.SpliceAt | src/iopoll.rs:175 | `Vec::remove(i)` keeps the entries before `i` and shifts the ones after it down by one |
| IoPoll.WithoutAddsNothing | src/iopoll.rs:259-269 | removal registers no descriptor that was not watched |
| IoPoll.WithoutKeepsOthers | src/iopoll.rs:259-269 | removal keeps every other watched descriptor watched |
| IoPoll.WithoutOnDistinct | src/iopoll.rs:259-269 | on a list without repeats, removal leaves no entry for the descriptor and no repeats |
| IoPoll.RegisterThenUnregister | src/iopoll.rs:249-269 | registering an unwatched descriptor and then unregistering it restores the list |
| IoPoll.TimeoutFrom | src/iopoll.rs:151-155 | no timeout gives -1; a value up to `i32::MAX` is kept; a larger value is the panic of `try_from(..).unwrap()` |
| IoPoll.EventLoop.NewWithTimeout | src/iopoll.rs:151-161 | a new loop has an empty watch list, its flag clear, and the converted timeout |
| IoPoll.EventLoop.New | src/iopoll.rs:144-146 | a new loop waits without limit |
| IoPoll.EventLoop.Shutdown | src/iopoll.rs:167-170 | clears the flag and leaves the watch list alone |
| IoPoll.EventLoop.Position | src/iopoll.rs:173 | the scan returns the index of the first entry for the descriptor, or `None` |
| IoPoll.EventLoop.RemoveFd | src/iopoll.rs:172-179 | removes the first entry for a watched descriptor; the panic on an unwatched one is excluded by its precondition |
| IoPoll.EventLoop.RegisterFd | src/iopoll.rs:249-256 | appends an entry with the interest set and nothing reported |
| IoPoll.EventLoop.UnregisterFd | src/iopoll.rs:259-269 | removes the first entry for the descriptor, or does nothing when there is none |
| IoPoll.EventLoop.RegisterStdin | src/iopoll.rs:272-276 | watches descriptor 0 for reading and returns token 0 |
| IoPoll.EventLoop.UnregisterStdin | src/iopoll.rs:279-281 | tolerant removal of descriptor 0 |
| IoPoll.EventLoop.RegisterRead | src/iopoll.rs:283-290 | watches the descriptor for reading and returns it as the token |
| IoPoll.EventLoop.RegisterWrite | src/iopoll.rs:292-300 | watches the descriptor for writing and returns it as the token |
| IoPoll.DefaultNotValid | src/iopoll.rs:30-33 | the default `not_valid` callback removes the descriptor with the strict `remove_fd` |
| Netcat.Forward | src/main.rs:85-106 | TCP writes the bytes read, unless there are none, and fails exactly when that write fails; UDP sends exactly the bytes read as one datagram, never fails, and stops the loop exactly when the send fails or falls short |
| Netcat.ReactIgnores | src/main.rs:69-150 | a set that is not readable, a readable stdin after its latch closed, and a failed network read all do nothing |
| Netcat.ReactLatches | src/main.rs:107-147 | the latches only close. Stdin closes exactly on end of stdin; it is then unregistered, and half-closed on TCP. The network closes exactly on end of the network stream, and that stops the loop |
| Netcat.ReactFailuresAndStops | src/main.rs:87-146 | `ready_for_io` fails exactly at a failed TCP write, half-close or stdout write. It asks for a stop exactly on a stdin read error, a short or failed UDP send, or end of the network stream, and never when it fails |
| Netcat.ReactForwardsVerbatim | src/main.rs:81-148 | every write or send carries exactly the bytes of the read that preceded it, in the right direction; every stdin read reaches the network and every non-empty network read reaches stdout |
| Netcat.NetcatClientEventHandler.constructor | src/main.rs:54-60 | a new handler has both latches open |
| Netcat.NetcatClientEventHandler.ReadyForIo | src/main.rs:64-159 | the new latches, the effects and the result are those of `React`; stdin is taken off the watch list exactly when the effects say so; the loop flag is cleared exactly when the effects ask for a stop |
| Netcat.NetcatClientEventHandler.StdinReady | src/main.rs:75-122 | one stdin read: the new latches, effects and result are those of `ReactStdin`; stdin leaves the watch list exactly when the effects say so; the loop flag is cleared exactly when the effects ask for a stop |
| Netcat.NetcatClientEventHandler.NetworkReady | src/main.rs:124-148 | one network read: the new latches, effects and result are those of `ReactNetwork`; the watch list is unchanged; the loop flag is cleared exactly when the effects ask for a stop |
| Netcat.NetcatClientEventHandler.Error | src/main.rs:161 | `error` does nothing |
| Netcat.NetcatClientEventHandler.Timeout | src/main.rs:163-167 | `timeout` stops the loop |
| Netcat.NetcatClientEventHandler.Hangup | src/main.rs:169-175 | `hangup` stops the loop for stdin's token only |
| Netcat.ExitCode | src/main.rs:254-255 | the exit status is 1 exactly when `run` returned an error, 0 otherwise |
| EventRun.WithRevents | src/iopoll.rs:187-193 | after `poll` every entry keeps its descriptor and interest and carries the reported conditions |
| EventRun.WithReventsFds | src/iopoll.rs:187-193 | `poll` changes no descriptor of the watch list |
| EventRun.TriggeredFacts | src/iopoll.rs:206-214 | the snapshot holds watched descriptors with non-empty reports, exactly as reported; it is no longer than the list, empty when nothing was reported, and has no repeats when the list has none |
| EventRun.TriggeredPrefix | src/iopoll.rs:206-214 | the snapshot of the first k entries is a prefix of the snapshot of the whole list |
| EventRun.TriggeredAt | src/iopoll.rs:206-214 | an entry with a non-empty report is in the snapshot, exactly as reported, right after the events of the entries before it |
| EventRun.TriggeredInOrder | src/iopoll.rs:206-214 | every entry with a non-empty report is in the snapshot, at the position after the earlier entries' events, so entries keep their watch-list order |
| EventRun.InvalidInSnapshot | src/iopoll.rs:206-214 | a watched descriptor reported invalid is in the snapshot |
| EventRun.EntryStepCalls | src/iopoll.rs:215-232 | one entry issues `ready_for_io`, `hangup`, `error`, `not_valid` in that order for the reported conditions, or stops after a failing `ready_for_io` |
| EventRun.RemovedAtMostFacts | src/iopoll.rs:259-269 | removing at most one descriptor keeps the others, adds none and keeps the list free of repeats |
| EventRun.ReadyStepWatchList | src/main.rs:107-109 | `ready_for_io` changes the watch list only by unregistering stdin on stdin's own entry, while the stdin latch closes |
| EventRun.EntryStepWatchList | src/iopoll.rs:215-232 | one entry removes at most its own descriptor and adds none |
| EventRun.ReadyStepKeeps | src/main.rs:64-159 | `ready_for_io` keeps the loop invariant, only lowers the flag and the latches, and half-closes exactly when it closes stdin on TCP |
| EventRun.LaterStepKeeps | src/iopoll.rs:222-231 | `hangup`, `error` and `not_valid` keep the invariant and never half-close; an invalid descriptor ends unwatched |
| EventRun.EntryStepKeeps | src/iopoll.rs:215-232 | one entry keeps the invariant and half-closes exactly when it closes stdin on TCP |
| EventRun.ReactShutdownWriteOnce | src/main.rs:107-116 | one `ready_for_io` half-closes at most once |
| EventRun.DispatchCalls | src/iopoll.rs:215-232 | dispatch issues the callbacks of every snapshot entry in order, whatever the callbacks do; a failure stops it right after the failing `ready_for_io` |
| EventRun.DispatchKeeps | src/iopoll.rs:215-232 | dispatch keeps the invariant, lowers flag and latches only, registers nothing new, and half-closes exactly when it closes stdin on TCP |
| EventRun.DispatchInvalidGone | src/iopoll.rs:228-231 | every descriptor marked for deferred removal has already been removed by `not_valid` |
| EventRun.DispatchMarksInvalid | src/iopoll.rs:228-231 | every snapshot entry reported invalid is marked for deferred removal |
| EventRun.DispatchDistinct | src/iopoll.rs:215-232 | dispatch keeps the watch list free of repeats |
| EventRun.RemoveEachFacts | src/iopoll.rs:236-238 | the deferred removal keeps the list free of repeats, adds nothing, and leaves none of the removed descriptors |
| EventRun.RemoveEachAbsent | src/iopoll.rs:236-238 | removing descriptors that are not watched changes nothing |
| EventRun.CycleWithoutEvents | src/iopoll.rs:195-203 | a failed `poll` calls nothing and stops the loop; a timeout calls only `timeout`; neither touches a latch or a descriptor |
| EventRun.CyclePositiveCalls | src/iopoll.rs:204-232 | a cycle with events issues the callbacks of its snapshot in order, or stops right after a failing `ready_for_io` |
| EventRun.CyclePositiveDispatch | src/iopoll.rs:204-238 | a cycle with events is its dispatch, followed, when nothing failed, by the deferred removal |
| EventRun.CycleRemovesInvalid | src/iopoll.rs:228-238 | after a cycle that did not fail, no descriptor reported invalid is still watched |
| EventRun.CycleEntryDispatched | src/iopoll.rs:228-238 | a watched descriptor reported invalid is unwatched after dispatch and deferred removal |
| EventRun.CycleKeeps | src/iopoll.rs:185-243 | one cycle keeps the invariant and lowers the flag and the latches only; it half-closes exactly when it closes stdin on TCP |
| EventRun.CycleKeepsDistinct | src/iopoll.rs:185-243 | one cycle keeps the watch list free of repeats |
| EventRun.RunKeeps | src/iopoll.rs:181-246 | over a run the invariant holds and the latches only close; TCP is half-closed at most once, exactly when stdin closed; a run that returns `Ok` ends with the flag clear |
| EventRun.NetworkClosedEndsRun | src/iopoll.rs:185 | once the network latch is closed, the run returns `Ok` at once with no further effect |
| EventRun.RemoveEachStrictPanics | src/iopoll.rs:236-238 | the strict removal as written panics when the first descriptor it removes is no longer watched |
| EventRun.CycleAsWrittenPanics | src/iopoll.rs:228-238 | as written, every cycle that reaches the deferred removal with a descriptor reported invalid panics |
| EventRun.CycleAsWrittenCounterexample | src/iopoll.rs:228-238 | one socket reported invalid: the cycle as written panics, while the corrected cycle calls `not_valid` once and ends with an empty watch list |
| EventRun.Poll | src/iopoll.rs:187-193 | `poll` fills in the reported conditions and answers the cycle's result |
| EventRun.Snapshot | src/iopoll.rs:206-214 | the loop collects exactly the triggered entries, in watch-list order |
| EventRun.ReadyEntry | src/iopoll.rs:217-221 | `ready_for_io` is called for a readable or writable entry, and its failure is reported |
| EventRun.LaterEntry | src/iopoll.rs:222-231 | `hangup`, `error` and `not_valid` are called for their conditions, and an invalid descriptor is marked for removal |
| EventRun.DispatchEntry | src/iopoll.rs:215-232 | one snapshot entry, step by step, does what `EntryStep` says |
| EventRun.DispatchStep | src/iopoll.rs:215 | dispatch of one more entry after a prefix that did not fail |
| EventRun.StillRegistered | src/iopoll.rs:215-232 | later snapshot entries stay watched while earlier entries are dispatched |
| EventRun.RemainingFails | src/iopoll.rs:218-220 | once `ready_for_io` has failed, the rest of the snapshot is not dispatched |
| EventRun.DispatchAll | src/iopoll.rs:215-232 | the dispatch loop returns at the first failure and otherwise does what `Dispatch` says |
| EventRun.RemoveDeferred | src/iopoll.rs:236-238 | the deferred removal loop (tolerant) does what `RemoveEach` says |
| EventRun.RunCycle | src/iopoll.rs:185-243 | one pass of the loop does what `CycleSpec` says |
| EventRun.Run | src/iopoll.rs:181-246 | `run` sets the flag and runs cycles while it is set, as `RunSpec` says: it returns `Err` at a failing `ready_for_io` and `Ok` when the flag is found clear |

## Left out

- Real I/O: `poll`, reads, writes, sends and the half-close are inputs (`Cycle`, `IoOutcomes`). The contents of stdin, stdout and the sockets are not modelled beyond the bytes each call moves.
- Error messages: the `String` of `run`'s `Err`, `eprintln!` diagnostics and the `trace!` macro of src/util.rs.
- Command-line parsing, socket set-up, listen mode, the IPv4/IPv6 checks and `set_read_timeout` (src/main.rs:178-252). None of them is part of the event loop.
- The unit of the `-w` timeout. main.rs passes the number of seconds to `new_with_timeout`, and `poll` reads it as milliseconds. The model keeps the number as given.
- The raw pointer `pollfds_ptr`, taken once before the loop. `Vec::remove` does not move the buffer, so the pointer keeps naming the current entries. The model works on the list itself.
- The `nfds_t::try_from(..).unwrap()` conversion of the list length: it cannot fail for a list that fits in memory.
- The integration tests under tests/ are not part of this model.
- EventRun.Run: `run`'s loop has no bound. The model runs over a given finite sequence of `poll` answers and reports `StillRunning` if they run out first.
- EventRun.Run: requires that each `poll` answer reports an invalid descriptor as neither readable nor writable, as poll(2) does (`WellFormed`). Without this, `ready_for_io` could unregister stdin before the default `not_valid` removes it, and that second removal would panic.
- EventRun.Run: requires the watch list to have no repeated descriptor. The program only ever registers stdin (0) and one socket.
- EventRun.Run: takes the handler as a `NetcatClientEventHandler`, not as any `EventHandler`. The call order is stated separately as `CycleCalls`.
- Netcat.NetcatClientEventHandler: the `network_open` latch is set but never read by the source. The model keeps it and proves how it moves.
- IoPoll.EventLoop.IsActive: it has no contract beyond its body (it returns the flag). `Run`'s loop condition uses it.
- IoPoll.EventLoop.NewWithTimeout: a timeout above `i32::MAX` panics in the source. The model excludes it by precondition, and `IoPoll.TimeoutFrom` returns `None` for it.
- IoPoll.EventLoop.RemoveFd: the panic on an unwatched descriptor is excluded by precondition. `EventRun.RemoveEachStrict` models it as `None`.
- Descriptor values are unbounded integers. Negative values, which the kernel never hands out, are not excluded.

## Findings

| source | as written | input that shows it | evidently intended | confidence | as-written member | corrected member |
|---|---|---|---|---|---|---|
| src/iopoll.rs:228-238 | The default `not_valid` (src/iopoll.rs:30-33) removes the descriptor with `remove_fd`. `run` then queues the same descriptor and calls `remove_fd` on it again after the cycle. That call finds nothing and panics. | One watched socket (descriptor 3) that `poll` reports as POLLNVAL, with `poll` returning 1. | The invalid descriptor is removed once and the loop goes on. The model uses the tolerant removal for the deferred step. | high; not executed | EventRun.CycleAsWrittenCounterexample | EventRun.CycleRemovesInvalid |
