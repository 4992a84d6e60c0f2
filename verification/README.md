# POSIX9: verified models of its algorithms and protocols

POSIX9 gives Mac OS 9 a POSIX interface on top of the Mac Toolbox.  Most of it passes
calls on to the Toolbox.  This project models the parts whose behaviour the C code
decides by itself and proves properties of them in Dafny:

| files | what they model | source |
|---|---|---|
| `Sync.dfy`, `CondVar.dfy` | mutexes and condition variables, and all runs of threads using them | `src/posix9_thread.c` |
| `RwLock.dfy` | read-write locks, and all runs of threads using one | `src/posix9_thread.c` |
| `ThreadTable.dfy`, `ThreadRuns.dfy`, `ThreadHistory.dfy` | the thread table, and all runs of threads that create, exit, join, detach | `src/posix9_thread.c` |
| `SignalSets.dfy`, `Signals.dfy`, `SignalRuns.dfy`, `SignalNesting.dfy`, `SignalDelivery.dfy`, `SignalReentry.dfy`, `SignalCover.dfy`, `SignalHandlers.dfy` | signal delivery with handlers that call back into the interface | `src/posix9_signal.c` |
| `Environment.dfy`, `EnvironmentStore.dfy` | the environment: a byte arena and an array of pointers into it | `src/posix9_misc.c` |
| `Strftime.dfy` | the bounded formatter | `src/posix9_misc.c` |
| `Random.dfy` | the linear congruential generator | `src/posix9_misc.c` |
| `Sha256.dfy`, `Sha256Constants.dfy` | SHA-256 with padding on the fly, and its hexadecimal form | `miner/rustchain_miner_posix9.c` |
| `Path.dfy`, `PathMeaning.dfy`, `PathTranslation.dfy`, `PathFromMac.dfy`, `PathRoundTrip.dfy`, `PathReturn.dfy`, `PathBuffers.dfy`, `PathTranslators.dfy` | translation of paths in both directions | `src/posix9_path.c` |
| `Common.dfy`, `Powers.dfy`, `Words.dfy` | options, counting, digits, powers of two, 32-bit words | |

`dafny verify dfyconfig.toml` checks all of it.

**Form.**  Where the C code updates variables in place, the model is a class or a method
over arrays with the same fields, loops and early returns.  Each is proved against a
specification function, and the properties are proved of that function.  For SHA-256
and `strftime` the specification is independent of the code: FIPS 180-4 as a function of
the whole message, and the unbounded expansion of a format.

**Threads.**  Control passes from one thread to another only in `YieldToAnyThread`, so a
run is a sequence of atomic actions, each the code between two yields, in any order.
The schedule, the clock (whether a timed wait has expired) and the answer of `NewThread`
are parts of an action and arbitrary.

**Widths.**  `unsigned long` and `size_t` are 32 bits, as on the PowerPC and 68K.
Wrap-around is written out in the generator, in SHA-256, in the environment's test for
room, in the conversion of a `pthread_t` to a slot number, and in the words that hold
signal sets.

**Where the code and its comments differ** the model follows the code.
`posix9_path_from_mac` turns `::foo` into `./../foo`, not `../foo`
(`src/posix9_path.c:190`).  `posix9_path_to_mac` also removes the colon of a volume root,
so `/Volumes/Macintosh HD/` becomes `Macintosh HD` (`src/posix9_path.c:90`, 176-178).
`random` masks its result with 0x7FFFFFFF but can only return 16 bits
(`src/posix9_misc.c:697`).  SIGKILL, said to only set a flag (`src/posix9_signal.c:12`),
does end the program when it is delivered.

**Paths** are compared as sequences of steps up and down, without looking at any file
system.  A POSIX path that begins `/Volumes/V`, where V is not `.` or `..`, names volume V;
every other absolute path lies on the default volume.

## Results about what the code does not do

Some properties one would like are false.  Each is stated with its exact condition.  It can
be checked before the call, except where handlers process signals: there it is a condition on
the mask at each inner call, and the bullet says when that can be read off beforehand.

- `posix9_path_to_mac` keeps the meaning of a path if and only if the path is
  `PathSpec.Translatable`: it has no colon and is not empty; `.` comes only first in a
  relative path; `..` comes only first in a relative path or after a name, the volume
  included; at most one slash follows either; no second slash follows the one at the root;
  and `/Volumes/` is followed by a volume (`PathTranslation.TranslationKeepsMeaning`).
- `posix9_path_from_mac` keeps the meaning of a Mac path if and only if it is not empty, no
  two colons follow a name except at the very end, and every name in it can be a name in
  POSIX: no slash in it, and neither `.` nor `..` (`PathFromMac.FromMacKeepsMeaning`).  The
  file `a/b` on volume V fails this (`PathFromMac.SlashIsMisread`).
- A path that `posix9_path_to_mac` translates faithfully leads to the same place when it is
  translated back if and only if no name follows a `..` that follows a name, and the default
  volume, where it is used, has a name POSIX can have (`PathReturn.PathComesBack`).  From Mac and
  back it does if and only if the path does not begin with two colons (`PathReturn.MacComesBack`).
- What `posix9_path_to_mac` writes, terminator included, stays within `dst_size` if and only if
  what stands before the first component is shorter than that and no `..` behind a slash has room
  for its first colon only (`PathBuffers.WrittenFits`); in a path that is translated faithfully
  the translation shows it (`PathBuffers.TranslatableFits`).  `a/../b` with 4 characters is one of
  a family (`PathBuffers.ParentAtTheEdge`).
- What `posix9_path_from_mac` writes stays within `dst_size` if and only if the start is shorter
  than that and no double colon has room for one or two of its three characters only
  (`PathBuffers.FromWrittenFits`, `PathBuffers.MacTranslatableFits`).  An absolute path takes 10
  characters at least (`PathBuffers.VolumesNeedsTen`), and leading colons are written whatever
  the size (`PathBuffers.LeadingColonsExceed`).  Both hold of the translators' own static buffers
  too, whose size is `POSIX9_PATH_MAX`, 1024 (`include/posix9/types.h:96`,
  `src/posix9_path.c:99`, 194), and of the arrays of that size that callers pass
  (`src/posix9_path.c:273`, 316).
- What `strftime` prints does not depend on what lies behind the format if and only if the
  format does not end in a lone `%`, or the buffer is full when that has been printed
  (`StrftimeBuffer.LonePercentReadsOn`).
- The test for room in `setenv` answers right if and only if the bytes in use and those needed do
  not together reach 2^32 and look smaller than 4096 modulo 2^32
  (`EnvironmentSpec.RoomTestExact`).
- `sha256` generates the standard's padded message if and only if it has at most 2^32 - 73
  bytes (`Sha256Miner.GeneratedExact`); for longer ones the result depends on 64 bytes at
  most (`Sha256Miner.MinerDigestExact`).
- The slot of a detached thread is given back if and only if somebody detaches the thread
  again after it has exited (`ThreadHistory.DetachedSlotLeaks`); 63 threads that have exited
  can fill the table for good (`ThreadHistory.ExhaustionIsReached`).
- Handlers nest at most 29 deep in all programs if and only if handlers may use neither
  `SA_NODEFER` nor SIG_UNBLOCK nor SIG_SETMASK (`SignalNesting.BoundIsExact`); without them
  29 is reached (`SignalNesting.BoundIsReached`).
- With handlers that process signals, no due signal is taken by an inner call before its turn
  if and only if every inner call made in the turn of a due signal, at whatever depth, finds all
  later due signals blocked (`SignalReentry.NoneTakenExactly`); otherwise one is delivered twice
  (`SignalReentry.NestedProcessingDeliversTwice`).  If handlers that process leave the mask
  alone (`SignalCover.TameReplies`) and none installs a handler, that is so if and only if
  each due handler that processes runs with all later due signals blocked, which the masks in
  force before the call show (`SignalCover.CoverIsStatic`).
- A broadcast does nothing that a signal does not (`CondVar.SignalIsBroadcast`).
- A write lock shuts others out, and a reader's unlock gives back its read lock, if and only
  if the thread is one `pthread_self` does not know as 0 (`RwLockRuns.WriterMustBeRegistered`,
  `RwLockRuns.ReaderMustBeRegistered`).

## Model

| member | source | states |
|---|---|---|
| SyncObjects.MutexObject.TryLock | src/posix9_thread.c:373-404 | the attempt made by each turn of lock and by trylock: it takes exactly a free mutex, for the caller |
| SyncObjects.MutexObject.Unlock | src/posix9_thread.c:406-411 | the mutex is free with no owner, whoever held it |
| SyncObjects.CondObject.Begin | src/posix9_thread.c:457-460 | the caller is counted as waiting and its mutex is free, before the first yield |
| SyncObjects.CondObject.Poll | src/posix9_thread.c:462-512 | one turn of either wait loop: a pending signal comes before the deadline; leaving as signaled withdraws the signal with the last waiter, leaving by timeout never does |
| SyncObjects.CondObject.Signal | src/posix9_thread.c:514-520 | a signal becomes pending exactly when somebody waits |
| SyncObjects.CondObject.Broadcast | src/posix9_thread.c:522-528 | the same, with the number of waiters |
| CondVar.StepKeepsInv | src/posix9_thread.c:373-528 | every action keeps: waiting is the number of parked threads; a pending signal means somebody is parked; each locked mutex has exactly its owner as holder |
| CondVar.RunKeepsInv | src/posix9_thread.c:373-528 | the same over every run of any number of threads, mutexes and condition variables |
| CondVar.MutualExclusion | src/posix9_thread.c:373-411 | after every run from a fresh start: at most one holder; locked is 1 exactly when there is one, who is then the owner; otherwise both fields are 0 |
| CondVar.WaitingIsBounded | src/posix9_thread.c:455-512 | waiting never exceeds the number of threads |
| CondVar.AnswersAreExact | src/posix9_thread.c:393-528 | trylock answers Ok exactly if no thread held the mutex, and the caller holds it then, and otherwise EBUSY; unlock, signal and broadcast answer Ok |
| CondVar.ReturnsHolding | src/posix9_thread.c:455-512 | lock, cond_wait and both outcomes of cond_timedwait return holding the mutex, with ETIMEDOUT exactly if the thread was carrying it or has just seen its deadline pass with no signal pending |
| CondVar.WaitTurn | src/posix9_thread.c:462-507 | a turn of a wait loop ends signaled exactly if a signal is pending, timed out exactly if none is and the deadline of a timed wait has passed, and parks again otherwise |
| CondVar.TimeoutHasCause | src/posix9_thread.c:478-512 | over every run without a new call, a thread comes to return ETIMEDOUT if and only if it already had to or there was such a turn |
| CondVar.PendingForWaiter | src/posix9_thread.c:455-528 | while a thread is parked and a signal is pending, no action of another thread withdraws it, timeouts included |
| CondVar.NoLostWakeup | src/posix9_thread.c:455-528 | over every run in which a thread parked under a pending signal is not scheduled, its next turn leaves the loop, as signaled and never as timed out |
| CondVar.SignalReachesWaiters | src/posix9_thread.c:514-528 | signal and broadcast make a signal pending exactly when somebody is parked, and otherwise leave nothing behind for later waiters |
| CondVar.PendingStep | src/posix9_thread.c:455-528 | while a signal is pending nobody new parks, and each turn of a parked thread lowers waiting by one |
| CondVar.Drain | src/posix9_thread.c:455-528 | over every run from a pending signal: until nobody waits the signal stays pending and waiting falls by the number of wakeups, so as many turns as there were waiters release them all |
| CondVar.SignalIsBroadcast | src/posix9_thread.c:514-528 | replacing every signal by a broadcast in any run changes no thread and no mutex |
| RwLockObjects.RwLockObject.ReadTurn | src/posix9_thread.c:549-580 | one turn of rdlock, and tryrdlock: inner mutex busy, writer present, or one more reader; the inner mutex is free again afterwards |
| RwLockObjects.RwLockObject.WriteTurn | src/posix9_thread.c:582-617 | one turn of wrlock, and trywrlock, with the same three outcomes |
| RwLockObjects.RwLockObject.UnlockTurn | src/posix9_thread.c:619-634 | the writer's unlock clears writer, any other takes one reader off |
| RwLockRuns.StepKeepsInv | src/posix9_thread.c:549-634 | every action of a registered thread that unlocks only what it holds keeps the counts equal to the holds |
| RwLockRuns.ReadersOrWriter | src/posix9_thread.c:549-634 | after every run: readers is the number of read holds, writer the only write holder or 0, never both kinds, and the inner mutex is free at every yield |
| RwLockRuns.ConflictsAreReal | src/posix9_thread.c:549-617 | the try variants answer EBUSY exactly on a conflicting hold, and the blocking calls answer Ok at once exactly without one |
| RwLockRuns.LocksAreExact | src/posix9_thread.c:549-617 | a call that gets its lock adds the caller's hold, a write lock the only one |
| RwLockRuns.UnlockIsExact | src/posix9_thread.c:619-634 | an unlock by a holder answers Ok at once and takes away one hold of the caller's |
| RwLockRuns.WriterMustBeRegistered | src/posix9_thread.c:582-617 | a write lock shuts out readers and writers, whoever asks, if and only if its taker is not known as 0 |
| RwLockRuns.ReaderMustBeRegistered | src/posix9_thread.c:619-634 | n read locks and unlocks by one thread leave the lock as it was if it is registered, and n readers more if it is known as 0, which shuts out writers from the first on |
| ThreadTableSpec.GetThreadIsExact | src/posix9_thread.c:97-105 | for every 32-bit pthread_t, exactly the ids 1 to 64 of slots in use are accepted |
| ThreadTableObject.ThreadTable.constructor | src/posix9_thread.c:53-78 | slot 0 in use by the calling thread, all others free |
| ThreadTableObject.ThreadTable.FindFree | src/posix9_thread.c:80-95 | the first free slot from 1 on, or none |
| ThreadTableObject.ThreadTable.GetIndex | src/posix9_thread.c:107-118 | the first slot in use under a Thread Manager id, or -1 |
| ThreadTableObject.ThreadTable.Create | src/posix9_thread.c:157-199 | the whole new table and id, in the EAGAIN cases too |
| ThreadTableObject.ThreadTable.Collect | src/posix9_thread.c:215-220 | the value handed over and the slot freed |
| ThreadTableObject.ThreadTable.Detach | src/posix9_thread.c:225-240 | flag set, and the slot freed only if the thread had finished |
| ThreadRuns.SelfIsOwnId | src/posix9_thread.c:271-287 | pthread_self answers an unfinished thread the id, from 1 to 64, under which its own slot is found, and changes nothing else |
| ThreadRuns.SelvesDiffer | src/posix9_thread.c:271-287 | two unfinished threads get different answers |
| ThreadRuns.SelfIsCreatedId | src/posix9_thread.c:157-287 | over every run, a thread that pthread_create has answered with an id gets that id from pthread_self |
| ThreadRuns.MainIsOne | src/posix9_thread.c:53-78 | and the main thread gets 1 |
| ThreadRuns.ExitFindsOwnSlot | src/posix9_thread.c:242-254 | pthread_exit stores its value where returning from the start routine would |
| ThreadRuns.StepKeepsInv | src/posix9_thread.c:124-287 | every action keeps: slots in use are the occupied ones; each entry has its occupant's start routine, argument, id, state and value; unfinished threads keep their slots; ids are distinct; joiners wait for their target; slots are conserved |
| ThreadRuns.RunKeepsInv | src/posix9_thread.c:124-287 | the same over every run, and every value a join delivered is what its target exited with |
| ThreadRuns.SlotsAreConserved | src/posix9_thread.c:53-240 | after every run the slots in use are 1 + created - joined - detached after finishing |
| ThreadRuns.CreateFails | src/posix9_thread.c:157-199 | EAGAIN exactly when NewThread fails or slots 1 to 63 are all taken, and then nothing is occupied |
| ThreadRuns.CreateIsFresh | src/posix9_thread.c:80-199 | otherwise the id is between 2 and 64, its slot was nobody's, and its entry is the new thread's: not finished, with the flag, routine and argument given |
| ThreadRuns.AnswersAreExact | src/posix9_thread.c:201-240 | join and detach answer ESRCH exactly for an id of no slot in use, and join EINVAL exactly for a detached thread |
| ThreadRuns.DetachMarks | src/posix9_thread.c:225-240 | a detach marks the slot of a known id, gives it back exactly if its thread has exited, and changes no other |
| ThreadRuns.SlotIsKeptOrReleased | src/posix9_thread.c:201-240 | no action gives an occupied slot to another thread: it stays, or is released after its thread has exited |
| ThreadHistory.SlotIsHeld | src/posix9_thread.c:201-240 | the same over every run: until it is given back a slot is the same thread's |
| ThreadHistory.JoinStepIsExact | src/posix9_thread.c:201-223 | a call of pthread_join and each turn of a waiting one delivers the value of the thread it names if that has exited, and otherwise waits for it; the slot is freed in the first case only |
| ThreadHistory.CreatedIdNamesThread | src/posix9_thread.c:157-223 | over every run that does not give the slot back, joining the id pthread_create answered with targets the thread it created and delivers that thread's value |
| ThreadHistory.DetachedSlotStays | src/posix9_thread.c:124-240 | one action frees the slot of a detached thread if and only if it is a detach of its id made when the thread has exited |
| ThreadHistory.DetachedSlotLeaks | src/posix9_thread.c:124-240 | over every run, the slot of a detached thread is given back if and only if some action is such a detach |
| ThreadHistory.DetachedThreadsExhaustTable | src/posix9_thread.c:80-95 | with slots 1 to 63 detached threads' and no such detach, every later pthread_create fails |
| ThreadHistory.LeakIsReached | src/posix9_thread.c:124-199 | for every n up to 63 there is a run after which n threads created detached have exited and all their slots are in use |
| ThreadHistory.ExhaustionIsReached | src/posix9_thread.c:80-95 | with n 63, only the main thread is left running and every pthread_create fails in all continuations without such a detach |
| SignalObject.Signals.Signal | src/posix9_signal.c:173-195 | handler and action both replaced, the old handler returned; SIGKILL, SIGSTOP and bad numbers change nothing |
| SignalObject.Signals.SigAction | src/posix9_signal.c:197-221 | the same for a whole action, or only the old one reported |
| SignalObject.Signals.Deliver | src/posix9_signal.c:227-280 | ignored, default action (exit or nothing), or the handler under the widened mask, mask restored, handler reset |
| SignalObject.Signals.Process | src/posix9_signal.c:282-318 | the polling, the snapshot and the delivery loop on words, as the recursion over sets, with its count and its history |
| SignalObject.Signals.Raise | src/posix9_signal.c:332-343 | exactly 1 to 31 become pending |
| SignalObject.Signals.Kill | src/posix9_signal.c:345-368 | ESRCH before EINVAL, signal 0 only checks |
| SignalObject.Signals.SigProcMask | src/posix9_signal.c:374-403 | the three ways, an invalid one changing nothing, and SIGKILL and SIGSTOP unblocked even with no set given |
| SignalHandlers.HandlerRunsUnderMask | src/posix9_signal.c:259-270 | while a handler runs that makes no sigprocmask call, whatever handlers run inside it, every delivery at its level is made with exactly what was blocked before, sa_mask and (without SA_NODEFER) its own signal blocked; so no signal of sa_mask is delivered there |
| SignalHandlers.DefaultIsExact | src/posix9_signal.c:60-93 | a default delivery ends the program exactly for signals other than 17 to 23 and 28, and an ignored one changes nothing |
| SignalHandlers.OneShot | src/posix9_signal.c:275-279 | when a handler returns that installs none, even by the handlers inside it, its signal is back to the default exactly if it was installed with SA_RESETHAND |
| SignalHandlers.InstalledIsReported | src/posix9_signal.c:173-221 | an action that is not one-shot is what sigaction and signal report as the old one, whatever has been called in between that installs none |
| SignalHandlers.SignalInstalls | src/posix9_signal.c:173-221 | signal changes the handler of a catchable signal only, keeping its mask and flags; other numbers are refused by both |
| SignalHandlers.MaskIsExact | src/posix9_signal.c:374-403 | for every signal, whether it is blocked after sigprocmask in each of the three ways |
| SignalHandlers.FlagsAreBits | src/posix9_signal.c:265-276 | SA_NODEFER and SA_RESETHAND are the bits 0x40 and 0x80 of sa_flags |
| SignalRuns.BodyKeepsInv | src/posix9_signal.c:173-403 | any finite tree of calls, handlers processing signals included, keeps: both handler tables agree, SIGKILL and SIGSTOP are default, only real signals are pending, and whatever was delivered was unblocked at that moment |
| SignalRuns.ProgramKeepsInv | src/posix9_signal.c:99-114 | so it holds of every program from the start |
| SignalRuns.ProcessKeepsMask | src/posix9_signal.c:282-318 | if the program goes on, posix9_signal_process returns with the blocked signals it was called with, whatever the handlers did to the mask |
| SignalNesting.BodyKeepsNested | src/posix9_signal.c:227-318 | without SA_NODEFER, and without unblocking inside handlers, each running handler's signal stays blocked and the running handlers differ |
| SignalNesting.StackIsBounded | src/posix9_signal.c:184-188 | different catchable signals are at most 29 |
| SignalNesting.NestingIsBounded | src/posix9_signal.c:227-318 | in every such program, whatever it does to the mask outside handlers, no handler is entered while it is running, and at most 29 run at once |
| SignalNesting.NodeferNestsWithoutBound | src/posix9_signal.c:265-267 | for every catchable signal and every n, a program with one SA_NODEFER handler for it nests n deep |
| SignalNesting.UnblockNestsWithoutBound | src/posix9_signal.c:374-403 | so does one whose handler uses SIG_UNBLOCK on its own signal, without SA_NODEFER |
| SignalNesting.SetMaskNestsWithoutBound | src/posix9_signal.c:374-403 | and one whose handler uses SIG_SETMASK |
| SignalNesting.BoundIsExact | src/posix9_signal.c:227-403 | nesting is bounded by 29 for all programs within a choice of the three features if and only if none of them is allowed |
| SignalNesting.StackIsReached | src/posix9_signal.c:227-318 | for any different catchable signals in any order, a program with none of the three features has all their handlers running inside each other |
| SignalNesting.BoundIsReached | src/posix9_signal.c:227-318 | so the bound of 29 is reached exactly |
| SignalDelivery.AscendingIsSorted | src/posix9_signal.c:309-315 | the order of delivery is strictly ascending and within the snapshot |
| SignalDelivery.AscendingCounts | src/posix9_signal.c:309-315 | and covers the snapshot without repetition |
| SignalDelivery.ProcessDeliversOnce | src/posix9_signal.c:282-318 | however handlers nest, a call that returns delivers at its own level each pending unblocked signal once, SIGINT included after Cmd-period, ascending, and returns their number |
| SignalDelivery.FlatProcess | src/posix9_signal.c:282-318 | with handlers that do not process signals: the log grows by exactly the snapshot; pending afterwards is what was blocked, and what the handler of some i raised that is outside the snapshot or not above i |
| SignalReentry.NoneTakenExactly | src/posix9_signal.c:302-315 | for any due signals and any handlers, to any depth: no due signal is delivered inside an earlier turn if and only if each call of the processing function made inside the turn of a due signal finds all later due signals blocked; then all are still pending at their turns, as the history shows |
| SignalReentry.PendingAtTurnExactly | src/posix9_signal.c:302-315 | if no handler raises a due signal, every due signal is still pending at its turn if and only if the same holds |
| SignalReentry.RaisedAgainIsPending | src/posix9_signal.c:302-315 | a handler that takes a later signal and raises it again leaves it pending at its turn, so without that proviso being pending is not the same as not having been taken |
| SignalReentry.NestedProcessingDeliversTwice | src/posix9_signal.c:302-315 | whenever the condition fails, for any handlers, some due signal is delivered at least twice in the call |
| SignalReentry.BodyLeaves | src/posix9_signal.c:227-318 | any signals that are blocked at every inner call are not delivered by a handler, and stay pending |
| SignalReentry.BodyTakes | src/posix9_signal.c:227-318 | of pending signals that are not, one is delivered, and is pending no more unless the handler raises it |
| SignalCover.TameCovers | src/posix9_signal.c:260-267 | if handlers that process leave the mask alone, the condition of a turn is that the handler processes nothing or runs with all later due signals blocked |
| SignalCover.CoverIsStatic | src/posix9_signal.c:260-278 | if moreover no handler installs handlers, the whole condition can be read off the masks and handlers before the call, SA_RESETHAND or not |
| EnvironmentSpec.UpdateIsMapUpdate | src/posix9_misc.c:93-148 | storing a variable is a map update |
| EnvironmentSpec.DeleteIsMapRemoval | src/posix9_misc.c:167-171 | deleting an entry is removal from the map |
| EnvironmentSpec.UnsetIsMapRemoval | src/posix9_misc.c:150-176 | unsetenv succeeds exactly for a non-empty name without =, and then the variable is gone from the map and getenv does not find it; nothing of the arena is given back |
| EnvironmentSpec.LookupIsMapLookup | src/posix9_misc.c:73-91 | getenv of a name without = is map lookup |
| EnvironmentSpec.LookupAcrossEquals | src/posix9_misc.c:73-91 | getenv of name=rest finds the variable exactly when its value starts with rest=, and returns what follows |
| EnvironmentSpec.SetIsMapUpdate | src/posix9_misc.c:93-148 | a successful setenv updates the map, unless the name is there and overwrite is off |
| EnvironmentSpec.SetStatus | src/posix9_misc.c:93-148 | setenv answers EINVAL exactly for an empty name or one with =, succeeds exactly if nothing is to be stored or it fits (127 variables, fewer than 4096 bytes), and uses the bytes of what it stores |
| EnvironmentSpec.PutIsMapUpdate | src/posix9_misc.c:178-205 | a successful putenv updates the map |
| EnvironmentSpec.PutIsSet | src/posix9_misc.c:178-205 | putenv of name=value does what setenv does, and refuses names of 256 characters or more and text without = |
| EnvironmentSpec.CallKeepsSound | src/posix9_misc.c:93-205 | every call keeps names unique, non-empty and free of =, at most 127 entries and fewer than 4096 bytes used; a failed call changes nothing |
| EnvironmentSpec.RunKeepsSound | src/posix9_misc.c:93-205 | the same over every run |
| EnvironmentSpec.RoomTestExact | src/posix9_misc.c:107-118 | for all lengths the test for room with sums of size_t answers as it would without wrap-around if and only if the sum does not pass 2^32 and look small again |
| EnvironmentSpec.StoresAreBounded | src/posix9_misc.c:116-147 | since the arena is never reclaimed, at most 1365 stores ever succeed, whatever is unset |
| EnvironmentStore.PointAt | src/posix9_misc.c:122-145 | appending text and pointing a slot at it updates the entries and disturbs no other pointer's text |
| EnvironmentStore.ShiftOver | src/posix9_misc.c:167-171 | shifting the pointers down deletes one entry and leaves no gap |
| EnvironmentStore.Environment.constructor | src/posix9_misc.c:47-71 | the six defaults, all of which fit |
| EnvironmentStore.DefaultPlaces | src/posix9_misc.c:37-45 | HOME, PATH and SHELL |
| EnvironmentStore.DefaultUser | src/posix9_misc.c:37-45 | USER, TERM and LANG |
| EnvironmentStore.Environment.Find | src/posix9_misc.c:83-88 | the scan by strncmp stops at the first matching entry |
| EnvironmentStore.Environment.GetEnv | src/posix9_misc.c:73-91 | a pointer to the terminated value inside the used arena, or NULL |
| EnvironmentStore.Environment.SetEnv | src/posix9_misc.c:93-148 | status and entries as specified, error cases included, with the room test in 32 bits; no byte of the arena already in use changes |
| EnvironmentStore.Environment.UnsetEnv | src/posix9_misc.c:150-176 | status and entries as specified, and the arena untouched |
| EnvironmentStore.Environment.PutEnv | src/posix9_misc.c:178-205 | the same, with the 255 character limit on names |
| EnvironmentStore.Environment.RunCalls | src/posix9_misc.c:93-205 | any calls in a row leave the store as the specification's run does and no used byte changed |
| EnvironmentStore.Environment.GetEnvAndRun | src/posix9_misc.c:73-205 | the value behind a pointer from getenv is still there, terminated, after any later calls |
| StrftimeSpec.ExpandConcatenates | src/posix9_misc.c:326-406 | the expansion of two formats in a row is the expansions in a row |
| StrftimeSpec.PaddedIntReads | src/posix9_misc.c:348-367 | the digits sprintf pads read back as the number |
| StrftimeSpec.DateIsShown | src/posix9_misc.c:348-359 | %Y reads back as the year, four digits, %m as the month from 1 and %d as the day, two digits |
| StrftimeSpec.TimeIsShown | src/posix9_misc.c:360-368 | %H, %M and %S read back as hour, minute and second, two digits |
| StrftimeSpec.YearOfCentury | src/posix9_misc.c:351-353 | %y reads back as what is left of tm_year after whole centuries, with its sign |
| StrftimeSpec.NamesAreShown | src/posix9_misc.c:369-382 | %b and %a are the short names, which begin the full ones of %B and %A |
| StrftimeSpec.FullMonths | src/posix9_misc.c:331-333 | the full names from January to September |
| StrftimeSpec.LastMonths | src/posix9_misc.c:331-333 | and from October to December |
| StrftimeSpec.FullDays | src/posix9_misc.c:329-330 | and of the days from Sunday |
| StrftimeSpec.OthersAreShown | src/posix9_misc.c:383-391 | %% is one %, and any other letter stands for itself |
| StrftimeSpec.StampIsShown | src/posix9_misc.c:326-406 | from "%Y-%m-%d %H:%M:%S" all six fields of any calendar date and time can be read back in their places |
| StrftimeSpec.ConversionFits | src/posix9_misc.c:337-392 | every conversion fits the 32-byte temporary, for any int year |
| StrftimeBuffer.Strftime | src/posix9_misc.c:326-406 | for any format in memory: the first min(max-1, length) characters of the expansion of what lies before the zero the code stops at, terminated, their number returned, nothing beyond written |
| StrftimeBuffer.PrintedBehind | src/posix9_misc.c:343-392 | after a lone % at the end, the % is printed and then the text behind the format's terminator |
| StrftimeBuffer.LonePercentReadsOn | src/posix9_misc.c:343-392 | what is printed is the same whatever lies behind the format if and only if there is no lone % at its end or the buffer is full by then |
| StrftimeBuffer.PutText | src/posix9_misc.c:394-399 | the inner loop copies as much as fits |
| RandomSource.Generator.Srandom | src/posix9_misc.c:688-691 | the seed becomes the state |
| RandomSource.Generator.Random | src/posix9_misc.c:693-698 | the next state, and its upper 16 bits as the result |
| RandomSource.NextInNumbers | src/posix9_misc.c:696 | seeds 0 and 1 lead to 12345 and 1103527590, and one seed more to 1103515245 more, modulo 2^32 |
| RandomSource.Displacement | src/posix9_misc.c:696 | after n steps the state has moved by S(n)((a-1)x + c) |
| RandomSource.SumValuation | src/posix9_misc.c:696 | 2^k divides S(n), the sum of the first n powers of a, exactly when it divides n |
| RandomSource.UnboundedPeriod | src/posix9_misc.c:696 | for every k and every start, the n-th state agrees with it modulo 2^k exactly when 2^k divides n |
| RandomSource.FullPeriod | src/posix9_misc.c:688-698 | the same for the 32-bit state |
| RandomSource.NoEarlyRepeat | src/posix9_misc.c:688-698 | states fewer than 2^32 steps apart differ |
| RandomSource.EveryStateOnce | src/posix9_misc.c:688-698 | 2^32 steps from any seed visit every state exactly once |
| RandomSource.LowBitsCycle | src/posix9_misc.c:697 | bit b of the result repeats every 2^(17+b) calls |
| RandomSource.Equidistributed | src/posix9_misc.c:688-698 | in 2^32 calls from any seed each value below 65536 comes 65536 times and no other comes |
| WordArithmetic.BitwiseIsBitwise | miner/rustchain_miner_posix9.c:152-158 | the word operations act bit by bit |
| WordArithmetic.GateBits | miner/rustchain_miner_posix9.c:152-158 | and, or and xor as truth tables for each bit |
| WordArithmetic.NotBit | miner/rustchain_miner_posix9.c:153 | not turns each bit over |
| WordArithmetic.ShrBit | miner/rustchain_miner_posix9.c:157-158 | a shift moves each bit n places down |
| WordArithmetic.RotrBit | miner/rustchain_miner_posix9.c:152 | a rotation moves each bit n places down, round the end |
| WordArithmetic.PlusIsSum | miner/rustchain_miner_posix9.c:202-207 | an addition loses 2^32 at most |
| Sha256Standard.ChBit | miner/rustchain_miner_posix9.c:153 | each bit of the first word chooses between the two others |
| Sha256Standard.MajBit | miner/rustchain_miner_posix9.c:154 | the majority of three bits |
| Sha256Standard.BigSigma0Bit | miner/rustchain_miner_posix9.c:155 | the parity of the bits 2, 13 and 22 places on |
| Sha256Standard.BigSigma1Bit | miner/rustchain_miner_posix9.c:156 | 6, 11 and 25 places on |
| Sha256Standard.SmallSigma0Bit | miner/rustchain_miner_posix9.c:157 | 7 and 18 places on, round the end, and 3 on |
| Sha256Standard.SmallSigma1Bit | miner/rustchain_miner_posix9.c:158 | 17 and 19 places on, round the end, and 10 on |
| Sha256Standard.StandardFunctions | miner/rustchain_miner_posix9.c:152-158 | the functions of the standard in their places |
| Sha256Standard.RoundInNumbers | miner/rustchain_miner_posix9.c:202-207 | in a round six words move on by one place and the two others are the sums of section 6.2.2 modulo 2^32 |
| Sha256Standard.FirstWords | miner/rustchain_miner_posix9.c:188-193 | the first 16 words of the schedule are the numbers in the block's bytes, big-endian |
| Sha256Standard.LaterWords | miner/rustchain_miner_posix9.c:194-195 | each later one is a sum modulo 2^32 |
| Sha256Standard.AddInNumbers | miner/rustchain_miner_posix9.c:209-210 | the hash words grow by the working variables modulo 2^32 |
| Sha256Standard.PaddingShape | miner/rustchain_miner_posix9.c:173-186 | the padded message is the message, 0x80, zeros and the length in bits |
| Sha256Constants.ConstantsAreCubeRoots | miner/rustchain_miner_posix9.c:133-150 | every round constant is the first 32 bits of the fractional part of its prime's cube root (section 4.2.2) |
| Sha256Constants.InitialIsSquareRoots | miner/rustchain_miner_posix9.c:162-165 | and every initial hash word of a square root (section 5.3.3) |
| Sha256Constants.FloorsAreFloors | miner/rustchain_miner_posix9.c:133-165 | the integer parts used with them are those of the roots |
| Sha256Standard.PaddedSize | miner/rustchain_miner_posix9.c:169 | the padded message of section 5.1.1 of FIPS 180-4 is the least multiple of 64 that holds message, marker and length |
| Sha256Standard.PaddingRoundTrip | miner/rustchain_miner_posix9.c:173-186 | the message can be read back from its padding |
| Sha256Standard.BlocksDetermineMessage | miner/rustchain_miner_posix9.c:173-186 | two messages of any lengths below 2^61 with the same blocks are the same |
| Sha256Standard.UndoesRounds | miner/rustchain_miner_posix9.c:202-207 | for any functions, schedule and constants, inverse rounds composed in reverse undo the rounds, and the other way round |
| Sha256Standard.RoundsArePermutation | miner/rustchain_miner_posix9.c:202-207 | so the 64 rounds are a permutation of the eight words |
| Sha256Standard.BytesRoundTrip | miner/rustchain_miner_posix9.c:214-219 | the big-endian output determines the words |
| Sha256Miner.PaddedLengthExact | miner/rustchain_miner_posix9.c:169 | the 32-bit length computation is right if and only if len <= 2^32 - 73 |
| Sha256Miner.GeneratedExact | miner/rustchain_miner_posix9.c:169-186 | the bytes generated are the padded message if and only if len <= 2^32 - 73, and otherwise the first 64 bytes of the data or none |
| Sha256Miner.MinerDigestExact | miner/rustchain_miner_posix9.c:160-220 | so the output is the digest up to that length, and beyond it messages of like length class that begin alike collide |
| Sha256Miner.OnTheFly | miner/rustchain_miner_posix9.c:174-186 | each byte generated for position pos is that byte of the padded message |
| Sha256Miner.FillBlock | miner/rustchain_miner_posix9.c:174-186 | the block loop writes 64 such bytes |
| Sha256Miner.Expand | miner/rustchain_miner_posix9.c:188-195 | the in-place schedule is the recursive one of section 6.2.2 |
| Sha256Miner.RunRounds | miner/rustchain_miner_posix9.c:198-207 | the rotating variables go through the 64 rounds |
| Sha256Miner.CompressInPlace | miner/rustchain_miner_posix9.c:197-211 | the new hash is the old plus the rounds' result |
| Sha256Miner.Write | miner/rustchain_miner_posix9.c:214-219 | 32 big-endian bytes, nothing beyond written |
| Sha256Miner.Sha256 | miner/rustchain_miner_posix9.c:160-220 | for every size_t length the output is the hash of the blocks generated, which is the FIPS 180-4 digest of the data up to 2^32 - 73 bytes |
| Sha256Miner.Sha256Hex | miner/rustchain_miner_posix9.c:222-234 | 64 lower-case digits of it, terminated |
| Sha256Miner.HexRoundTrip | miner/rustchain_miner_posix9.c:222-234 | hexadecimal reads back |
| Sha256Miner.PrintedDigestDeterminesState | miner/rustchain_miner_posix9.c:214-234 | two final states print alike exactly when all eight words agree |
| PathSpec.ToMacLength | src/posix9_path.c:97-181 | for every non-empty path the text written is no longer than path and volume (absolute) or path and 1 (relative) before trimming |
| PathSpec.FromMacLength | src/posix9_path.c:192-261 | for every non-empty Mac path the text written is no longer than three times the path less 2 (relative) or the path, half of it and 9 (absolute) |
| PathSpec.BoundedIsPrefix | src/posix9_path.c:156-178 | for every buffer size the text written is a prefix of the translation of size - 1 characters, or one more if a pair of colons falls on the edge, or the start if that is longer; all of it if there is room |
| PathSpec.FromBoundedIsPrefix | src/posix9_path.c:240-258 | the same from Mac, with at most two more |
| PathBuffers.WrittenFits | src/posix9_path.c:122-178 | for every path, volume and size the text and its terminator stay within the first dst_size characters if and only if the start is shorter than dst_size and no turn that writes two colons begins two places before the end |
| PathBuffers.TranslatableFits | src/posix9_path.c:122-178 | for paths translated faithfully, if and only if the start is shorter and the last two places of the buffer do not hold two colons of the translation |
| PathBuffers.ParentAtTheEdge | src/posix9_path.c:156-173 | n/../x with dst_size the length of n and 3 puts the terminator one place behind the buffer, for every name n and every x |
| PathBuffers.FromWrittenFits | src/posix9_path.c:216-258 | from Mac, if and only if the start is shorter and no turn that writes three characters begins two or three places before the end |
| PathBuffers.MacTranslatableFits | src/posix9_path.c:216-258 | for Mac paths translated faithfully, if and only if the start is shorter and not a final pair of colons makes the translation dst_size or one more long |
| PathBuffers.VolumesNeedsTen | src/posix9_path.c:234-237 | every absolute Mac path writes 9 characters and the terminator at least, whatever the size |
| PathBuffers.LeadingColonsExceed | src/posix9_path.c:216-227 | k + 1 leading colons write 3k + 1 characters at least, whatever the size |
| PathMeaning.PosixReads | src/posix9_path.c:155-171 | the POSIX reading one component and one separator at a time |
| PathMeaning.Translates | src/posix9_path.c:155-171 | the Mac reading of the translation, one component and one separator at a time |
| PathMeaning.Compare | src/posix9_path.c:155-171 | for every colon-free text an error shows: an unread dot component as a name no POSIX reading has, a slash too many as a step up, and neither can cancel another |
| PathMeaning.TrimKeepsMeaning | src/posix9_path.c:176-178 | for every text, removing the trailing colon changes no step |
| PathRoundTrip.SlashAtEndIsDropped | src/posix9_path.c:176-178 | for every path that ends in a name, a slash behind it makes no difference and the Mac path does not end in a colon; except for /Volumes itself |
| PathTranslation.TranslationKeepsMeaning | src/posix9_path.c:97-181 | for every string and every default volume, the Mac path leads through the same volume and the same steps down and up if and only if the string is Translatable |
| PathTranslation.AdjacentParentsAreMisread | src/posix9_path.c:139-171 | every path that begins ../.. is misread |
| PathTranslation.ParentOfVolumeIsKept | src/posix9_path.c:122-171 | /Volumes/V/../x is not, for all names |
| PathTranslation.ParentOfRootIsMisread | src/posix9_path.c:122-171 | every path that begins /.. is |
| PathRoundTrip.AbsoluteRoundTrip | src/posix9_path.c:97-261 | /Volumes/V/a/b and V:a:b translate into each other and back, for any number of names |
| PathRoundTrip.RelativeRoundTrip | src/posix9_path.c:97-261 | and ./a/b and :a:b |
| PathReturn.PathComesBack | src/posix9_path.c:97-261 | a path translated faithfully comes back to the same place if and only if .. after a name comes last and the default volume, if used, is a POSIX name |
| PathReturn.MacComesBack | src/posix9_path.c:97-261 | a Mac path translated faithfully comes back to the same place if and only if it does not begin with two colons |
| PathFromMac.FromMacKeepsMeaning | src/posix9_path.c:192-261 | for every string, the POSIX path means the same if and only if the string is not empty, its names have no slash and are not . or .., and runs of colons after a name are single, or double at the end |
| PathFromMac.SlashIsMisread | src/posix9_path.c:253-255 | V:a/b is a file a/b on V, and its translation a file b in a, for all names |
| PathFromMac.InteriorParentIsMisread | src/posix9_path.c:241-256 | a::b becomes /Volumes/a/..b, for all names |
| PathTranslators.PathToMac | src/posix9_path.c:97-181 | for every buffer size the pointer walk writes the bounded translation, terminated, and changes nothing behind the terminator: so nothing behind the buffer if PathBuffers.StaysInside holds, and otherwise the terminator is behind it |
| PathTranslators.ConvertSlash | src/posix9_path.c:157-167 | a run of slashes and a parent after it |
| PathTranslators.PathFromMac | src/posix9_path.c:192-261 | the other pointer walk, on the same terms |

## Left out

- The Toolbox, Open Transport and Thread Manager themselves, sockets, directories, files, TLS, the HTTP and mining loops and the Dropbear glue: calls into code that is not here.
- `pthread_cancel`, thread-specific data, `pthread_once`, attribute objects, init and destroy calls: `pthread_cancel` marks a running thread finished, so none of the join properties survive it; the destructors run at the end of a thread are taken not to yield.
- What the thread runs take for granted: a mutex is unlocked only by its holder, a condition variable is waited on only with the mutex held, a thread has at most one joiner and is not detached while being joined, and NewThread never reuses an id that a slot in use still has.
- Mutexes and condition variables: every thread has a `pthread_self` of its own that is not 0, which `ThreadRuns.SelfIsOwnId` shows of created threads.
- The width of `readers`, `waiting` and `signaled`: unbounded integers here; `CondVar.WaitingIsBounded` keeps `waiting` below its limit, but nested read locks can reach that of `readers`.
- The clock of `pthread_cond_timedwait`: expiry is an arbitrary choice at each turn.
- The main thread's return: it ends the application and is not an action of `ThreadRuns`.
- `sigsuspend`, `pause`, `alarm`, `sleep`, `sigpending` and the argument checks of the `sig*set` functions: waiting on the Time Manager, and one-branch facts.
- Signal handlers: arbitrary finite trees of calls, so a handler that never returns, or leaves by a jump, is not covered; `SIG_ERR` installed as a handler counts as a function.
- Cmd-period: whether it has been typed is a parameter of each call of `posix9_signal_process`.
- The lazy initialisation flags of the environment, signals and threads: constructors instead.
- EnvironmentStore.Environment.SetEnv: leaves out strings for which the test for room misjudges (`EnvironmentSpec.RoomTestExact`), nearly 4 GB together, since what the code then writes behind the arena is not modelled; the same goes for EnvironmentStore.Environment.PutEnv.
- The caller changing the environment through `environ` or through a pointer from getenv: the model gives out offsets.
- StrftimeBuffer.Strftime: `tm` is in range except for the year, max is at least 1, and the memory behind a format that ends in a lone `%` either has a zero in it or fills the buffer.
- `rand`, `srand` and the calendar functions, which rest on `SecondsToDate`, and `getcwd` and `chdir`.
- PathTranslators.PathToMac: the array is the memory from `dst` on, the caller's `dst_size` characters and what lies behind them, and must reach as far as the text is written; what the rest of a program makes of characters written behind its buffer is not modelled. The same goes for PathTranslators.PathFromMac. NULL for `dst` is the same contract with 1024 for the size.
- The pstr conversions, errno tables, sysconf and uid stubs: one-branch facts.
