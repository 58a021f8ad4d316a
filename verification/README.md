# Deterministic pthreads: a verified model

dpthread runs pthread programs so that their synchronization happens in the same order in
every run. This project models its lock protocol and the hardest parts of the programs that are
shipped with it, and proves what they are meant to guarantee. `dafny verify dfyconfig.toml`
checks everything.

Concurrent code is modelled as a state machine over its steps, and its theorems are about every
run of that machine. Code that works in place on one thread's own data is a class or a method
with loops, proved against a function of its input. Automatic induction is switched off
throughout: every inductive proof is written out.

## The parts

**The lock protocol** (`Kendo*.dfy`). A thread has a logical clock, a program of compute, lock,
unlock and create steps, and a place inside the library. `wait_for_turn` is a scan that reads one
clock at a time, while other threads go on and new ones are created; unlock is three separate
steps (write the release time, release the pthread mutex, raise the clock); a lock attempt, once
in turn, is one. `KendoModel` has the state and the moves, `KendoRuns` all interleavings.
The central idea is the *settled form* of a state (`KendoSettle`): every thread run ahead to its
next request for a turn. Local moves do not change it, and a turn move changes it in a way that
depends on the settled form alone. So every run follows one log, that of a serial scheduler which
always moves the thread with the least (clock, id) (`KendoDeterminism`), and every run can be
continued along it (`KendoProgress`). `KendoMutex` has the mutex's own guarantees. `KendoReads`
takes the clocks apart as the source does (counter, cached count, software part, flag) and lets a
scan read each in three steps: every run of that machine is a run of the one above, so turn
exclusivity and determinism hold there too, and every run of the one above is also a run of it.
`KendoAccount` says where clocks and events come from, without the machine: from the text of a
program (what each step is worth, which steps need a turn, what a creation gives away) and the
failed attempts in the log.

**Clocks, conditions, barriers, the ring** (`ClockRead.dfy`, `Cond*.dfy`, `Barrier.dfy`,
`Ring.dfy`). `ClockRead` shows why a scan may trust a clock it reads in pieces. `CondVar` keeps
the steps of `det_cond_wait` apart: the waiter releases the mutex before it raises its clock out
of the way, and a signal in between breaks the assertion at the end of the wait. A grant is
*guarded* if the new holder cannot signal its way to such a waiter before its clock comes to the
bound; a test on the state at the grant. `CondTurns` proves that this is exactly what the wait
needs: for one grant, that no continuation fails, and for every run, that no state on it can lead
to a failure. Grants are guarded in every run in which no clock is lowered past a scan that has
already read it, with any number of signals. Among two threads that never happens. Among three or
more it does, from any start (`CondStale`): so over all runs the wait keeps its assertion if and
only if there are at most two threads. `Barrier` leaves the choice of who gets the free mutex open.

**Boyer-Moore** (`BmSpec.dfy`, `BoyerMoore.dfy`). The three tables are built in place in arrays
and proved to be what they should be; the skipping search is proved to answer as naive search
does, on the bytes as given: equal, or with icase the two cases of one letter. The build of
pfscan enables a length test, so a text shorter than the pattern gives -1 even
with a callback, where no match otherwise gives 0.

**Barnes-Hut and FMM** (`Zones.dfy`, `Forest.dfy`, `Barnes*.dfy`, `Fmm*.dfy`, `Octree*.dfy`,
`Force*.dfy`). Cost zones: each processor walks the same tree on its own and takes a contiguous
share; the shares are disjoint, cover everything and are even to within one item. Octree insertion: processors insert
concurrently under per-cell locks, with unlocked reads between. Summation: `hackcofm` waits for
done flags, FMM's `ComputeSubTreeCosts` for counters; neither deadlocks. The force walk covers
each body once, and which nodes it takes whole is said on its own in `ForceTerms`: those that are
far for their size below nodes that are near. Paths in the octree are cubes: a body is below a node
if and only if its coordinates lie in the node's cube. `OctreePlan`, `BarnesSteps` and `FmmSteps` put the phases together: what one
leaves is what the next one asks for, so that from the first insertion to the zones every body,
and every box, ends up with exactly one processor.
The error call for too many levels only prints, so insertion goes on below the last bit: it
terminates exactly when no more than MAX_BODIES_PER_LEAF bodies share an integer coordinate.
The FMM partition holds for a grid with children; for a grid of one childless box it holds exactly
when there is one processor or at most as many as the box's cost.

**The bounded queue** (`PQueue*.dfy`). The ring buffer as a class, and its monitor for any number
of threads with sleepers and wake-ups; what it keeps is counted by the calls that were made.

`Options.dfy`, `Sequences.dfy`, `Numbers.dfy`, `Limits.dfy` and `Vectors.dfy` are shared.

## Model

| member | source | states |
|---|---|---|
| `KendoDeterminism.Determinism` | src/dpthread.c:359-405 | Whatever the interleaving of ticks, scans, attempts, releases and creations, the log of turn moves (clock, thread, mutex, granted or spun) of a run is one the serial least-(clock, id) scheduler also produces, and each event in it is accounted for by the program's text |
| `KendoDeterminism.RunsAgree` | README.txt:5 | Of the logs of any two runs of one program, one is a prefix of the other |
| `KendoDeterminism.SectionsAgree` | src/dpthread.c:846-888 | Two runs with the same log have the same critical sections with the same logical grant and release times, as far as both have finished them |
| `KendoDeterminism.OneOutcome` | test/README:1-6 | If one run comes to its end, every other run's log is a prefix of its log, and a run that also ends has the same final clocks, mutexes and sections |
| `KendoDeterminism.RunFollows` | src/dpthread.c:750-844 | Simulation: a run's log is a prefix of the settled log, and its settled state is the one reached there |
| `KendoDeterminism.SerialReaches` | src/dpthread.c:359-405 | The serial scheduler logs every event of the settled log after finitely many steps |
| `KendoAccount.EveryEventAccounted` | src/dpthread.c:750-888 | Every event is the next move its thread's text asks for (recursive locks ask for none), at the clock that the steps done and the thread's failed attempts give; an attempt is an arrival exactly when it does not follow a failed one; a creation gives its child the next number |
| `KendoAccount.FinalClocks` | src/dpthread.c:846-888 | In a completed run each thread's clock is its birth clock (0, or the creation's clock and 1), the ticks, locks and unlock increments of its whole program, and one for each failed attempt; it has made every turn move its program asks for |
| `KendoAccount.TurnAccount` | src/dpthread.c:1068-1080 | A turn move keeps the account: an attempt, granted or not, and a creation, whose child has the clock and the program the creation names |
| `KendoAccount.LocalAccount` | src/dpthread.c:846-888 | So does every local move: ticks, recursive locks with their depth, and the steps of an unlock, the last of which raises the clock by the increment |
| `KendoProgress.RunsGoOn` | src/dpthread.c:359-405 | Progress: if the serial scheduler goes on, any run can be extended to its next turn move; the turn protocol adds no deadlock |
| `KendoProgress.ScanThrough` | src/dpthread.c:359-405 | A complete scan by the least thread gets through whatever stage it had reached |
| `KendoRuns.TurnExclusivity` | src/dpthread.c:359-405 | A thread let through by a one-clock-at-a-time scan holds the strict least (clock, id) over all created threads until it raises its clock, and nobody else is in turn |
| `KendoRuns.ScanReaches` | src/dpthread.c:359-405 | The scan's index arithmetic, starting after the own slot, reaches every other thread |
| `KendoRuns.ApplyInv` | src/dpthread.c:1068-1080 | Every action, creation of a thread in the middle of scans included, keeps the invariant of the runs |
| `KendoInvariant.LocalKeepsInv` | src/dpthread.c:846-888 | Moves outside a turn (ticks, recursive locks, the three steps of an unlock) keep owner, holder, depth, release time, sections and queue consistent |
| `KendoInvariant.TurnKeepsInv` | src/dpthread.c:788-832 | So do the moves in turn: AddQ, the attempt, DelQ on a grant, and creation |
| `KendoInvariant.JoinedOnce` | src/dpthread.c:788-789 | After AddQ every waiting thread, and nobody else, is in the queue, each once |
| `KendoSettle.LocalsCommute` | src/dpthread.c:846-888 | Local moves of two threads can be swapped |
| `KendoSettle.OutcomeStable` | src/dpthread.c:791-822 | The attempt of the thread in turn has the same outcome before and after another thread's release step |
| `KendoSettle.TurnLocalCommute` | src/dpthread.c:791-822 | A turn move and another thread's local move can be swapped |
| `KendoSettle.LocalSettle` | src/dpthread.c:846-888 | A local move leaves the settled form as it is |
| `KendoSettle.TurnSettle` | src/dpthread.c:791-822 | A turn move made from the settled form logs the same event and leads to the same settled form |
| `KendoMutex.TurnLogIncreases` | src/dpthread.c:359-405 | The log increases strictly in (clock, id), except that a thread may move again at the clock at which it created one |
| `KendoMutex.GrantsInArrivalOrder` | src/dpthread.c:788-832 | The arrivals at a mutex are, in order, those granted so far followed by those queued |
| `KendoMutex.QueueNeverFull` | src/dpthread.c:788-789 | With fewer than MAX_THR threads the queue with the caller in it fits the ring, without repetition |
| `KendoMutex.SectionsDisjoint` | src/dpthread.c:872-882 | The critical sections of a mutex are disjoint, increasing intervals of logical time; the release time is the end of the last and grows strictly |
| `KendoMutex.SectionsAreGrants` | src/dpthread.c:791-822 | The sections of a mutex, finished or in progress, are the granted attempts of the log in order: the same holders, begun at the clocks of their attempts |
| `KendoMutex.GrantedIffReleasedBefore` | src/dpthread.c:791-822 | The attempt of the head of the queue at clock c succeeds if and only if every earlier section has, or will have, a release time below c, whether or not the holder has physically released |
| `ClockRead.OwnerGrows` | src/dpthread.c:279-354 | Under ticks, increments and the steps of enabling and disabling no part of a clock goes down, and a cleared flag means that the cached count is the counter |
| `ClockRead.RemoteReadBounds` | src/dpthread.c:227-248 | A read in three steps gives a value between the owner's true clock when the flag was read and at the end of the read |
| `ClockRead.OwnReadExact` | src/dpthread.c:319-354 | In every reachable state with the counter disabled, the cached value is exact |
| `ClockRead.NothingCountedTwice` | src/dpthread.c:279-354 | The true clock is each instruction and each increment once, whatever enabling and disabling comes between |
| `KendoReads.ReadIsPass` | src/dpthread.c:227-248 | A read in three steps that finds a clock later is right about that clock, although its parts may have moved meanwhile |
| `KendoReads.ReadTakesParts` | src/dpthread.c:227-248 | However others move between its steps, a read gives the flag's choice of the cached or the live count, and the software part, each as it is when it is read |
| `KendoReads.MoveRefines` | src/dpthread.c:227-248 | Every step of the machine with clocks in parts is a step of the lock protocol or changes nothing there |
| `KendoReads.RunRefines` | src/dpthread.c:359-405 | So every run of it is a run of the lock protocol |
| `KendoReads.FineTurnExclusivity` | src/dpthread.c:359-405 | Turn exclusivity with clocks read in three steps |
| `KendoReads.FineDeterminism` | src/dpthread.c:359-405 | The log of a run with clocks read in three steps is one of the serial scheduler |
| `KendoReads.EveryRunHappens` | src/dpthread.c:227-248 | Nothing is lost by reading in pieces: every run of the lock protocol is a run with clocks read in three steps |
| `CondVar.StepKeepsInv` | src/dpthread.c:925-978 | Every step of wait, signal, unlock and a guarded grant keeps who holds, who is queued, who is parked and at what clock |
| `CondVar.SignalFindsSleeper` | src/dpthread.c:954-978 | In every run with guarded grants a signaller finds the head of the queue parked at or above MAX_LOGICAL_CLOCK and hands it a clock strictly above the one it went to wait at and below the bound |
| `CondVar.WokenBelowBound` | src/dpthread.c:925-952 | In such a run a thread that leaves the wait meets the assertion there, and is later than when it released the mutex |
| `CondVar.WaitFits` | src/dpthread.c:931-933 | In every run of fewer than MAX_THR threads, stale scans included, a waiter finds room in the ring |
| `CondVar.WokenInOrder` | src/dpthread.c:925-978 | In every run the sleepers woken so far followed by those queued are those that went to wait, in order |
| `CondVar.ClocksEarned` | src/dpthread.c:846-888 | A thread that is not woken has the clock it had, what it did elsewhere, one for each grant, release and signal, and MAX_LOGICAL_CLOCK for parking |
| `CondVar.GrantAfterRelease` | src/dpthread.c:791-822 | In every run a grant is later in logical time than the last release, which the run's own releases determine |
| `CondTurns.GrantSafeIff` | src/dpthread.c:925-978 | A grant can be followed by no failed assertion, as long as later grants are guarded, if and only if it is guarded |
| `CondTurns.RunSafeIff` | src/dpthread.c:925-978 | For every run, no state it passes can lead to a failed assertion in that way if and only if all of its grants are guarded |
| `CondTurns.GuardedMeans` | src/dpthread.c:925-952 | With room for the signals below the bound, guarded means that no thread is between its release and its parking |
| `CondTurns.NobodyBetween` | src/dpthread.c:872-882 | No thread that is really least gets the mutex while another is between its release and its clock step |
| `CondTurns.ExclusiveGuarded` | src/dpthread.c:359-405 | In a run with exclusive turns every grant is guarded |
| `CondTurns.LowerFreshIff` | src/dpthread.c:968-969 | A signal keeps what all scans have read true if and only if the clock it hands over is not before a scan that has passed the sleeper |
| `CondTurns.FreshExclusive` | src/dpthread.c:359-405 | A run in which no signal overtakes a scan has exclusive turns, however many sleepers it wakes |
| `CondTurns.FreshRunSafe` | src/dpthread.c:925-978 | In a run in which no signal overtakes a scan, ties aside, every grant is guarded and no state can lead to a failed assertion |
| `CondTurns.TwoThreadsSafe` | src/dpthread.c:925-978 | With at most two threads this is so in every run |
| `CondStale.StaleScanBreaksWait` | src/dpthread.c:968-969 | From any start with three threads or more a run with a stale scan leads to a woken thread that is not below the bound |
| `CondStale.SafeIffTwoThreads` | src/dpthread.c:925-978 | The assertion holds in all runs from a start if and only if there are at most two threads |
| `CondStale.SignalHappens` | src/dpthread.c:954-978 | Two threads come, with guarded grants, to a signal with a sleeper in the queue |
| `Barrier.LeavesAfterAll` | src/dpthread.c:1012-1042 | Whatever the count and the number of threads, no thread returns before exactly that many have arrived in its generation |
| `Barrier.NobodyLeftBehind` | src/dpthread.c:925-990 | With a count from 1 to MAX_THR, whenever the mutex is free the count is the queue's length and below the target (so the ring never refuses), and a sleeper of a complete generation has been woken, and no other |
| `Barrier.NeverStuck` | src/dpthread.c:1012-1042 | With at least as many threads as the count some thread can always go on |
| `Barrier.NobodyPassesEarly` | src/dpthread.c:1012-1042 | With as many threads as the count, a thread that leaves its k-th call finds every thread arrived at its k-th call and none beyond its (k+1)-st, counted by the arrivals of the run |
| `Barrier.LeavesByCount` | src/dpthread.c:1012-1042 | Counted by the arrivals of the run: wait_count is what the complete generations leave over, and a thread whose last arrival was the n-th overall leaves only after the whole generation of `count` arrivals that n falls in |
| `Barrier.CountedOncePerCall` | src/dpthread.c:1012-1042 | A thread's arrivals are its leaves, and one more while it is inside: a woken thread is not counted again |
| `Ring.TQueue.constructor` | src/queue.c:17-23 | A new ring of n slots is an empty queue |
| `Ring.TQueue.AddQ` | src/queue.c:34-41 | Appends, and refuses exactly when size - 1 entries are waiting |
| `Ring.TQueue.DelQ` | src/queue.c:43-51 | Removes and returns the oldest entry, or nothing when empty |
| `Ring.TQueue.GetHeadQ` | src/queue.c:53-60 | The oldest entry, or nothing |
| `Ring.TQueue.IsEmptyQ` | src/queue.c:62-66 | True exactly when there is no entry |
| `BmSpec.FoldJoins` | papps/pfscan-1.0/bm.c:110-110 | Two bytes fold to one if and only if they are equal or, with icase, are the two cases of one letter |
| `BmSpec.FoldedOccurs` | papps/pfscan-1.0/bm.c:165-168 | The folded pattern occurs in the folded text exactly where the given bytes match |
| `BmSpec.OccurrencesExact` | papps/pfscan-1.0/bm.c:144-194 | The naive list holds exactly the positions at which the pattern occurs, overlaps included, in increasing order |
| `BmSpec.ShiftAtZeroIsPeriod` | papps/pfscan-1.0/bm.c:58-85 | The least plausible shift at pattern place 0 is the least period of the pattern |
| `BmSpec.SkipIsSafe` | papps/pfscan-1.0/bm.c:185-190 | After a mismatch neither the good-suffix nor the bad-character shift passes an occurrence |
| `BmSpec.MatchSkipIsSafe` | papps/pfscan-1.0/bm.c:170-180 | After a match no occurrence is closer than the shift for place 0 |
| `BoyerMoore.PreBmBc` | papps/pfscan-1.0/bm.c:15-27 | Each entry is the distance from the pattern's last byte to the last such byte before it, or the pattern's length |
| `BoyerMoore.ExtendWindow` | papps/pfscan-1.0/bm.c:50-52 | The inner loop of suffixes stops where the distance gone down is the length of the longest common suffix |
| `BoyerMoore.Suffixes` | papps/pfscan-1.0/bm.c:30-55 | Each entry is the length of the longest common suffix of the pattern and its prefix ending there |
| `BoyerMoore.BorderShifts` | papps/pfscan-1.0/bm.c:70-78 | After the first two loops each entry is the least period of the pattern past that place |
| `BoyerMoore.PreBmGs` | papps/pfscan-1.0/bm.c:58-85 | Each entry is the least shift of at least 1 that agrees with a matched suffix and a mismatch at that place |
| `BoyerMoore.BM.constructor` | papps/pfscan-1.0/bm.c:88-119 | The given pattern, folded only with icase, with both tables right |
| `BoyerMoore.BM.Compare` | papps/pfscan-1.0/bm.c:165-168 | The inner loop finds the last place where pattern and text differ, or a match |
| `BoyerMoore.BM.MismatchShift` | papps/pfscan-1.0/bm.c:185-190 | The shift taken after a mismatch moves on and passes no occurrence |
| `BoyerMoore.BM.MatchShift` | papps/pfscan-1.0/bm.c:180-180 | The shift taken after a match moves on and passes no occurrence |
| `BoyerMoore.BM.Reported` | papps/pfscan-1.0/bm.c:170-181 | A match is handed to the callback, and either its answer is the answer of the search or the search from the next window gives it |
| `BoyerMoore.BM.TryWindow` | papps/pfscan-1.0/bm.c:165-190 | One window either gives the answer that the occurrences from there on decide, or moves on without changing it |
| `BoyerMoore.BM.Search` | papps/pfscan-1.0/bm.c:144-194 | The skipping search terminates and answers on the bytes as given: without a callback the first match or -1; with one the matches in order, none left out, up to the first nonzero answer, which decides the result; without icase it is naive search on the raw bytes |
| `BoyerMoore.BM.SearchFolded` | papps/pfscan-1.0/bm.c:162-194 | The loop returns and reports what naive search over the folded text does, for every callback and for none |
| `BoyerMoore.AnswerRight` | papps/pfscan-1.0/bm.c:144-194 | The answer of naive search on the folded bytes is right for the bytes as given, matches being equal bytes or the two cases of one letter |
| `BoyerMoore.CaseSensitive` | papps/pfscan-1.0/bm.c:166-187 | Without icase the answer is that of naive search on the raw bytes |
| `BoyerMoore.CountsAllIff` | papps/pfscan-1.0/bm.c:144-194 | With a callback that answers 0 all occurrences are reported and their number returned if and only if the text is at least as long as the pattern |
| `BoyerMoore.FindsFirst` | papps/pfscan-1.0/bm.c:144-194 | Without a callback the least position is returned, or -1 exactly when there is none |
| `Zones.ShareSplit` | papps/splash2/codes/apps/barnes/code.C:791-825 | Adjacent ranges of preceding work give adjacent shares |
| `Zones.SharesCover` | papps/splash2/codes/apps/barnes/code.C:653-663 | Growing cuts from the first item to beyond the last share out the whole list, in order |
| `Zones.ShareNear` | papps/splash2/codes/apps/barnes/code.C:791-825 | The cost of a share differs from the length of its range by at most one item |
| `Zones.RowPermutes` | papps/splash2/codes/apps/barnes/code.C:132-236 | A row that names every child names each exactly once |
| `BarnesDirections.DirectionsOk` | papps/splash2/codes/apps/barnes/code.C:132-236 | Every row of the constant tables orders all eight children and leads to a direction that has a row |
| `BarnesCurve.RowsAreCurves` | papps/splash2/codes/apps/barnes/code.C:132-236 | In every row of the child table neighbouring entries are octants that share a face |
| `BarnesZones.WalkMeetsAll` | papps/splash2/codes/apps/barnes/code.C:791-825 | In every direction the walk meets every body of the tree exactly once |
| `BarnesZones.WalkFollowsRow` | papps/splash2/codes/apps/barnes/code.C:813-822 | The walk of a cell is the walks of its slots one after the other, in the order and the directions of the row |
| `BarnesZones.CutsOk` | papps/splash2/codes/apps/barnes/code.C:653-663 | The work ranges start at 0, end beyond the total and leave no gap and no overlap |
| `BarnesZones.CutIsPart` | papps/splash2/codes/apps/barnes/code.C:653-656 | Each end of a range is the integer part of p parts in nproc of the total cost |
| `BarnesZones.Local.TakeFromLeaf` | papps/splash2/codes/apps/barnes/code.C:797-812 | From a leaf exactly the bodies whose preceding work is in the processor's range are taken, in order |
| `BarnesZones.Local.FindMyBodies` | papps/splash2/codes/apps/barnes/code.C:791-825 | In spite of skipped subtrees and early exit, exactly the bodies whose preceding work in the walk is in the range are taken, in order |
| `BarnesZones.Local.WalkSlot` | papps/splash2/codes/apps/barnes/code.C:815-822 | Passing over an empty slot or a subtree that ends before the range loses nothing |
| `BarnesZones.Local.FindShare` | papps/splash2/codes/apps/barnes/code.C:653-663 | A processor's table is its share of the walk of the whole tree |
| `BarnesZones.ZonesPartition` | papps/splash2/codes/apps/barnes/code.C:653-663 | For any tree with right costs, any number of processors and any costs, the shares one after the other are the walk, and hold every body exactly once |
| `BarnesZones.ZonesBalance` | papps/splash2/codes/apps/barnes/code.C:653-663 | No processor's share is further from an equal part of the total cost than the cost of one body, and one |
| `FmmDirections.DirectionsOk` | papps/splash2/codes/apps/fmm/cost_zones.C:23-40 | Every row of the constant tables orders all four children and leads to a direction that has a row |
| `FmmZones.VisitMeetsAll` | papps/splash2/codes/apps/fmm/cost_zones.C:88-118 | In every direction the visit meets every box once, parents included |
| `FmmZones.VisitFollowsRow` | papps/splash2/codes/apps/fmm/cost_zones.C:101-117 | A parent is visited after three of its children, in the order and the directions of the row, and before the fourth |
| `FmmZones.Local.CostZonesHelper` | papps/splash2/codes/apps/fmm/cost_zones.C:88-118 | Exactly the boxes whose preceding work is in the range are inserted, a parent after its third child slot; a childless box is inserted without a look at the upper end |
| `FmmZones.Local.WalkChildren` | papps/splash2/codes/apps/fmm/cost_zones.C:101-117 | The slot loop, left early at the upper end, inserts the range's share of the slots in order |
| `FmmZones.Local.TakeSlot` | papps/splash2/codes/apps/fmm/cost_zones.C:105-116 | One turn of the loop inserts the slot's share, then the box itself after the third slot if its own preceding work is in the range |
| `FmmZones.Local.WalkSlot` | papps/splash2/codes/apps/fmm/cost_zones.C:105-110 | Passing over a missing child or one that ends before the range loses nothing |
| `FmmZones.Local.CostZones` | papps/splash2/codes/apps/fmm/cost_zones.C:46-63 | A processor's partition is its share of the visit of the grid; of a grid of one childless box it takes the box unless its lower end is above 0 |
| `FmmZones.ZonesPartition` | papps/splash2/codes/apps/fmm/cost_zones.C:46-63 | With every cost at least 1 the shares one after the other are the visit, and hold every box exactly once |
| `FmmZones.ZonesBalance` | papps/splash2/codes/apps/fmm/cost_zones.C:46-63 | Each share is an equal part of the total cost to within one box, the last with the remainder as well |
| `FmmZones.LoneBoxTakenOnce` | papps/splash2/codes/apps/fmm/cost_zones.C:96-99 | A grid of one childless box is taken once if and only if there is one processor or at most as many as its cost; otherwise by all |
| `FmmZones.IterationCovers` | papps/splash2/codes/apps/fmm/partition_grid.C:86-97 | The iteration from the bottom visits exactly the boxes that were inserted |
| `FmmZones.ListsNewestFirst` | papps/splash2/codes/apps/fmm/partition_grid.C:103-127 | Each list has its boxes in the reverse order of the visit |
| `FmmZones.IterationBottomUp` | papps/splash2/codes/apps/fmm/partition_grid.C:86-97 | It visits childless boxes first and then parents from the deepest level up |
| `FmmCosts.CountFull` | papps/splash2/codes/apps/fmm/cost_zones.C:71-74 | The counter has reached the number of children exactly when every child has reported |
| `FmmCosts.SumKeepsInv` | papps/splash2/codes/apps/fmm/cost_zones.C:71-77 | Adding its own cost keeps every box's partial sum that of its reported children |
| `FmmCosts.ReportKeepsInv` | papps/splash2/codes/apps/fmm/cost_zones.C:78-84 | So does reporting to the parent |
| `FmmCosts.NeverStuck` | papps/splash2/codes/apps/fmm/cost_zones.C:66-85 | For any split of the boxes among processors that go bottom-up, some step is possible until all have finished |
| `FmmCosts.RunSumsRight` | papps/splash2/codes/apps/fmm/cost_zones.C:66-85 | At the end every box holds the sum of the costs in its subtree and every counter is 0 |
| `Forest.RootHoldsAll` | papps/splash2/codes/apps/fmm/cost_zones.C:66-85 | In a tree of parent links with one root, totals that add up along the links give the root the sum of all parts, each once |
| `FmmCosts.RootHoldsTotal` | papps/splash2/codes/apps/fmm/cost_zones.C:46-63 | The root's sum is the total over all boxes, each counted once |
| `FmmSteps.GridCosted` | papps/splash2/codes/apps/fmm/cost_zones.C:66-85 | The grid that a finished ComputeSubTreeCosts leaves is one the cost zones can be found in: every subtree cost is the sum of the costs below |
| `FmmSteps.BoxOnce` | papps/splash2/codes/apps/fmm/cost_zones.C:88-118 | From the root along the child slots every box is found exactly once, and nothing else |
| `FmmSteps.EveryBoxInOneList` | papps/splash2/codes/apps/fmm/cost_zones.C:46-85 | After any finished run of ComputeSubTreeCosts, the lists that all processors then go through together hold every box exactly once, and nothing else, if and only if the grid has children, or there is one processor, or at most as many as the box's cost |
| `BarnesCofm.MoveKeepsInv` | papps/splash2/codes/apps/barnes/load.C:322-408 | Every move keeps what a cell has accumulated equal to the sum over the children it has taken, and a done flag set exactly when a node is summed and not yet taken |
| `BarnesCofm.NeverStuck` | papps/splash2/codes/apps/barnes/load.C:322-408 | With leaves first and cells in reverse order of creation some processor can always move until all are done |
| `BarnesCofm.RunSumsRight` | papps/splash2/codes/apps/barnes/load.C:322-408 | Each summed node holds the mass, cost and mass-weighted position of the bodies below it |
| `BarnesCofm.RootHoldsAllBodies` | papps/splash2/codes/apps/barnes/load.C:322-408 | The root's sums are those over the bodies of all leaves, each leaf once |
| `BarnesSteps.ZoneCosted` | papps/splash2/codes/apps/barnes/code.C:653-663 | The tree that hackcofm leaves is one the cost zones can be found in: every cost is the sum of the costs below |
| `BarnesSteps.SummedTreePartitions` | papps/splash2/codes/apps/barnes/code.C:645-663 | After any finished run of hackcofm the shares of all processors are the walk and hold the bodies of the tree |
| `BarnesSteps.NodeWeighed` | papps/splash2/codes/apps/barnes/load.C:322-408 | The bodies below a node weigh what the node holds, all the way down, as the force walk needs |
| `BarnesSteps.CentreOfMass` | papps/splash2/codes/apps/barnes/load.C:322-408 | After any finished run of hackcofm the bodies below a node are in balance, along every axis, about the node's position |
| `BarnesSteps.SummedTreeWalks` | papps/splash2/codes/apps/barnes/grav.C:105-136 | After any finished run of hackcofm, whatever the body and tolerance, the masses the force walk passes on and skips are those of all bodies |
| `OctreePaths.SubIndex` | papps/splash2/codes/apps/barnes/load.C:294-314 | The loop gives the slot of the three coordinate bits |
| `OctreePaths.SlotInjective` | papps/splash2/codes/apps/barnes/load.C:294-314 | Different bits give different slots |
| `OctreePaths.SlotIsOctant` | papps/splash2/codes/apps/barnes/load.C:294-314 | Three bits give the slot of their octant and no other |
| `OctreePaths.CellsAreCubes` | papps/splash2/codes/apps/barnes/load.C:204-258 | A body is below the node at a path if and only if its coordinates lie in the cube that the path's octants cut out, the root's being the whole box |
| `OctreePaths.SameWayIff` | papps/splash2/codes/apps/barnes/load.C:204-258 | Two bodies go the same way for k levels if and only if they agree on the quotients of all three coordinates by the side of a cell at depth k |
| `OctreePaths.SameWaySameCoord` | papps/splash2/codes/apps/barnes/load.C:204-258 | Bodies that agree on all levels have the same integer coordinates |
| `OctreeInsert.SubdivideKeeps` | papps/splash2/codes/apps/barnes/load.C:410-462 | Subdividing a leaf turns it and nothing else into a cell, and keeps the tree in order and the same bodies in it |
| `OctreeInsert.InOneLeaf` | papps/splash2/codes/apps/barnes/load.C:204-258 | In a tree in order no body is in two leaves |
| `OctreeRuns.StepKeepsInv` | papps/splash2/codes/apps/barnes/load.C:204-258 | Every locked or unlocked step of any processor keeps the invariant |
| `OctreeRuns.TreeStaysOk` | papps/splash2/codes/apps/barnes/load.C:204-258 | Under every interleaving leaves hold 1 to MAX_BODIES_PER_LEAF different bodies, each below the slots its coordinate bits name and inside the leaf's cube, and in one leaf only |
| `OctreeRuns.SlotsOnlyGrow` | papps/splash2/codes/apps/barnes/load.C:215-251 | A slot only goes from NULL to leaf to cell |
| `OctreeRuns.NoBodyLost` | papps/splash2/codes/apps/barnes/load.C:204-258 | A body given to a processor is in a leaf or still waits there |
| `OctreeRuns.AllInserted` | papps/splash2/codes/apps/barnes/load.C:204-258 | When all lists are empty every body is in exactly one leaf |
| `OctreeRuns.LeavesFillCubes` | papps/splash2/codes/apps/barnes/load.C:204-258 | Then a leaf holds exactly the bodies whose coordinates lie in its cube |
| `OctreeRuns.InsertionEnds` | papps/splash2/codes/apps/barnes/load.C:204-258 | If at most MAX_BODIES_PER_LEAF bodies share an integer coordinate, every run is bounded |
| `OctreeRuns.OnlyIfSpreadable` | papps/splash2/codes/apps/barnes/load.C:237-240 | And only then can all bodies get into the tree |
| `OctreePlan.InsertionDone` | papps/splash2/codes/apps/barnes/load.C:204-258 | A finished run of insertions leaves a tree in order with every body in a leaf and a child below every cell |
| `OctreePlan.ShownPlanOk` | papps/splash2/codes/apps/barnes/load.C:322-408 | Such a tree, its nodes listed in the order of their creation and split among the processors, is what hackcofm asks for |
| `OctreePlan.BodyOnce` | papps/splash2/codes/apps/barnes/code.C:791-825 | From its root along the slots every body is found exactly once, and nothing else |
| `OctreePlan.EveryBodyInOneZone` | papps/splash2/codes/apps/barnes/code.C:645-663 | Whatever the interleavings of the insertion and of hackcofm, the cost zones found afterwards are together the bodies of the simulation, each exactly once |
| `ForceWalk.Local.SubdivP` | papps/splash2/codes/apps/barnes/grav.C:143-149 | Leaves the node's own distance in the cache and opens it exactly when it is too close |
| `ForceWalk.Local.GravSub` | papps/splash2/codes/apps/barnes/grav.C:55-90 | Cached or not, the distance used is that of the node it is called with, and one interaction of the right kind is counted |
| `ForceWalk.Local.WalkLeaf` | papps/splash2/codes/apps/barnes/grav.C:121-130 | Every body of an opened leaf but the one the walk is for interacts; skipself says whether that one was met |
| `ForceWalk.Local.WalkCell` | papps/splash2/codes/apps/barnes/grav.C:113-119 | The slots of an opened cell are walked in order, the interactions one after the other |
| `ForceWalk.Local.WalkSub` | papps/splash2/codes/apps/barnes/grav.C:105-136 | The walk makes the interactions of the tree's terms in order and sets skipself exactly when it meets the body |
| `ForceWalk.Local.HackGrav` | papps/splash2/codes/apps/barnes/grav.C:30-47 | The cost left in the body is the number of interactions |
| `ForceWalk.EveryBodyOnce` | papps/splash2/codes/apps/barnes/grav.C:105-136 | For every body and tolerance the terms and the skipped body stand for every body of the tree exactly once |
| `ForceWalk.MassIsKept` | papps/splash2/codes/apps/barnes/grav.C:105-136 | The masses passed on and those skipped add up to the mass of the tree |
| `ForceWalk.MassLessSelf` | papps/splash2/codes/apps/barnes/grav.C:30-47 | The masses passed on sum to the root's mass, less the body's own exactly when skipself is set |
| `ForceTerms.TermsAreWanted` | papps/splash2/codes/apps/barnes/grav.C:105-149 | The interactions of the walk are exactly these: a node at depth k whose size, the root's over 2^k, is at most the tolerance times its distance, below nodes that are nearer than that for theirs; and a body of a leaf that is near, like all above it; each with its own mass, distance and softening |
| `ForceTerms.SkippedIfNear` | papps/splash2/codes/apps/barnes/grav.C:121-130 | The walk meets the body it is for exactly when its leaf and all above are near |
| `ForceTerms.WholeIsAway` | papps/splash2/codes/apps/barnes/grav.C:143-149 | No node at the body's own position is taken whole, so that no body attracts itself through its own leaf |
| `ForceTerms.ZeroToleranceIsDirect` | papps/splash2/codes/apps/barnes/grav.C:143-149 | With tolerance 0 the walk is direct summation |
| `PQueue.Buffer.constructor` | papps/pfscan-1.0/pqueue.c:21-40 | A new queue is open and empty |
| `PQueue.Buffer.Close` | papps/pfscan-1.0/pqueue.c:44-53 | Closes and keeps the contents |
| `PQueue.Buffer.Put` | papps/pfscan-1.0/pqueue.c:56-81 | Appends, waits exactly when full, is refused exactly when it arrives at a closed queue; a put that has waited does not look at that again |
| `PQueue.Buffer.Get` | papps/pfscan-1.0/pqueue.c:85-116 | Takes the oldest item; at an empty queue it waits, or ends when the queue is closed |
| `PQueueRuns.PutIsPass` | papps/pfscan-1.0/pqueue.c:56-81 | A put does with the items what pqueue_put does with the ring (stores its own item at the end, waits when full, is refused when it arrives at a closed queue), and is then done, asleep, or returned with the mutex |
| `PQueueRuns.GetIsPass` | papps/pfscan-1.0/pqueue.c:85-116 | A get does with them what pqueue_get does, and is then done, ended or asleep |
| `PQueueRuns.NothingLost` | papps/pfscan-1.0/pqueue.c:56-116 | For any number of threads, counted by the calls made: the items offered before the close are, as a bag, those got, those queued and those in the hands of waiting puts; the gets that came are those that got an item, ended or wait; items are got in the order stored; and the queue is never over its size |
| `PQueueRuns.FirstInFirstOut` | papps/pfscan-1.0/pqueue.c:56-116 | If no put finds the queue full, what has been got followed by what is queued is what was offered, in order |
| `PQueueRuns.NoLostWakeup` | papps/pfscan-1.0/pqueue.c:65-74 | Sleepers that could go on have enough woken threads ahead of them, a close reaches every sleeping get, and gets and puts never all sleep |
| `PQueueRuns.EndIsFinalIff` | papps/pfscan-1.0/pqueue.c:92-115 | When a get returns 0 everything put has been delivered, and nothing is put later if and only if no put is still in progress |

## Left out

- det_trylock: its failure path leaves the caller in the mutex queue, so the queue's guarantees are stated for det_lock.
- det_adjust_logical_clock, det_exit_logical_clock, det_enable, det_disable and det_cancel: they set clocks for outside events.
- KendoDeterminism.Determinism: covers programs whose clocks only grow (compute, lock, unlock, create); det_cond_signal lowers a sleeper's clock, and conditions and barriers are modelled apart. A create is the wait for a turn and the set-up of the new slot; the handshake after it, in which the creator takes the new thread's lock and waits on its condition until worker_thread signals (src/dpthread.c:1109-1113), and the signal in det_exit are outside.
- Inside one turn, AddQ, the trylock and DelQ are one step, and so is det_create's slot set-up; nobody else is in turn meanwhile.
- Clocks are unbounded integers; the aborts at MAX_LOGICAL_CLOCK other than those of the condition functions, the fall-back to plain pthread calls while there is one thread, and the variants compiled out are not modelled.
- CondVar.SignalFindsSleeper: one mutex held at depth one and one condition; what threads do elsewhere is any growth of their clocks, or a wake-up on another condition. Without guarded grants the property is false of the code; CondTurns.RunSafeIff and CondStale.SafeIffTwoThreads give the exact conditions.
- CondStale.SafeIffTwoThreads: the start leaves a clock value above all clocks and five below the bound, for the run that breaks the wait to fit in.
- Barrier.LeavesAfterAll: the mutex is an ordinary lock there; logical time plays no part in it.
- Ring.TQueue.constructor: a size of 0, with which the source would divide by zero, is not allowed.
- BoyerMoore.BM.constructor: an empty pattern, for which the source reads before its buffer, is not allowed; running out of memory is not modelled.
- The ranges of the Barnes cost zones are computed over the reals; rounding of the average is not modelled.
- Capacities of body, cell and leaf tables suffice; the source only prints when they do not.
- FmmZones.IterationCovers: the intrusive prev and next links are sequences.
- ComputeCostOfBox appears as the fact that costs are at least 1.
- The shortcut through Current_Root in loadtree, whose result is overwritten, and intcoord are not modelled.
- OctreeRuns.LeavesFillCubes: for leaves down to depth MAXLEVEL; below the last bit every slot is 0 and a cube does not get smaller.
- ForceWalk.Local.GravSub: records the distance and mass it uses; potential and acceleration, which need a square root, and quadrupoles are not modelled.
- A put on a closed queue returns with the queue's mutex locked; after that the model of the queue makes no step but the broadcast.
- The rest of fmm and barnes, radiosity, aget, the SQLite shell and the libc wrappers: numerics, geometry, input and output.
