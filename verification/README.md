# A verified model of the gymkhana timing system

This project models, in Dafny, the parts of the repository whose correctness spans several
functions, and proves what they promise.

- **Course protocol** (`Course`, `CourseInv`, `CourseRuns`, `CourseLaws`, `CourseRecords`, `CourseTimes`,
  `LaunchOrder`, `Store`, `CourseManager`): queue rows go waiting, on course, running, pending finish,
  done or canceled. Handlers, sensor triggers and the grace timer are the steps of a state machine over
  the tables. `Course` says what each step does; `Store` and `CourseManager` are the classes that do it,
  loop by loop and call by call, each method proved to do exactly that. `CourseRuns` holds the
  invariants over all runs; `CourseLaws` and `CourseRecords` tell every step from the row's and the
  record's side, without the scans and statements that do it; `CourseTimes` traces every recorded time to
  the steps that made it; `LaunchOrder` says what the pairing by queue id means for the order of launches.
- **Waiting list** (`QueueTable`, `QueueOrder`): the table keyed by position refines one plain sequence
  of ids per event.
- **Orphan runs** (`OrphanFifo`, `OrphanFlow`, `OrphanFates`, `OrphanStarts`): the FIFO edited in
  place; the take, claim, stamp and restore steps under interleaving with failing store calls; why each run
  ends where it does; and, with the rows and their starts beside them, where each start signal ends up.
- **Ranking** (`Sorting`, `Heat`, `Rank`, `RankMonotone`, `FilterRank`, `RankLaws`): results are functions of
  the set of runs although the code walks maps and sorts unstably, and what they are in the runs' own numbers.
- **Concurrent services** (`Hub`, `HubLaws`, `RateLimiter`): the publish/subscribe hub with sends outside its lock,
  and the token bucket.
- **Sensor firmware** (`EdgeQueue`, `SensorDevice`, `WifiBurst`, `Delivery`): from the interrupt's ring
  buffer through lockout, numbering and the burst of three to the server's ledger and the course call.
- **Sensor clock and link** (`OffsetFilter`, `TimeBase`, `EspNow`, `EspNowRuns`, `EspNowLink`, `EspNowBursts`,
  `EspNowWorst`, `EspNowClient`): the four-timestamp exchange (section 8 of RFC 5905), the minimum-delay
  filter (compare section 10 of RFC 5905), the slewed time base and the ESP-NOW client with its wrapping clock.

The methods of `CourseManager` and `EspNowClient` are not results of their own: a row that says "implements"
ties the code's own form, loop by loop and field by field, to the step function that the results about runs
are proved of.

Fields called history in a datatype's comment are not in the program; they record what happened so
that a theorem can speak about it. That they record it rightly is proved from the steps of the run alone
(`OrphanFates.QueuedAreStarts`, `HubLaws.MailboxIsTold`, `EdgeQueue.AcceptedAreOffers`,
`SensorDevice.TriggersOfDrains`, `WifiBurst.AllAreSent`, `EspNowBursts.BurstsAreTold`).

Inputs from outside (clocks, radio results, decoded frames, whether a store call succeeds) are parameters.
`dafny verify dfyconfig.toml` checks everything.

Where the code and its own comments differ, the model follows the code:

- `reanchorSlewed` is described as never stepping. It steps back by the correction already applied, so
  from the second resync on it is continuous exactly under the condition in
  `TimeBase.ResyncIsContinuousExactly`. The error of a reading can grow with every resync, in runs of the
  client itself (`EspNowWorst.BoundIsReached`), and `TimeBase.FoldedNeverSteps` shows the variant that does not.
- Triggers are said to go to the oldest car on course. They go to the least queue id, which is the car launched
  first exactly under the condition in `LaunchOrder.StartGoesToFirstLaunched`; each launch can check for it
  (`LaunchOrder.GuardIsExact`).
- The claim of an adoption is a compare-and-set so that no start timestamp is lost. Its stamp, like that of a
  launch, is unconditional: a start signal is lost exactly when one of them comes upon a start already
  set (`OrphanStarts.NoSignalLostExactly`), which a trigger between the claim and the stamp brings about (`OrphanStarts.AdoptionLosesASignal`).
- A goal before its start is described as an error. Because the time is truncated to milliseconds first,
  a goal up to 999 µs early is accepted as 0 ms (`CourseRuns.FinishAcceptedExactly`).
- `frontOfWaitingPosition` gives 0 for an empty list, but `undoStart` calls it after the row is already
  waiting, so that branch is never taken there (`QueueOrder.ReturnPrepends`).
- The hub promises every client the newest value. It keeps that promise exactly when no subscriber is ever
  owed two publishes of one topic at once (`Hub.SnapshotExactly`); two overlapping ones can leave it on the
  older value (`Hub.TwoOwedCanInvert`).
- 0 stands for "never yet synced" in the ESP-NOW client, and is also a value of its wrapping clock
  (`EspNowRuns.NextSyncExactly`, `EspNowWorst.TickZeroSyncsTwice`).
- A bucket of capacity below one still allows a key's first request (`RateLimiter.RateBoundNeedsOneToken`).

## Model

| member | source | states |
|---|---|---|
| `CourseRuns.EveryRunIsSound` | `internal/web/course_manager.go:149-257` | After every sequence of handlers, triggers and timer firings: each pending finish names a started on_course row and the log its finish wrote; finish logs not undone and done-or-pending rows are in bijection; waiting rows have no start, no PT, no MC; done rows were started; rows of an event that is not active are done or canceled with no pending finish; neighbouring waiting positions keep their gap; the orphan FIFO is increasing |
| `CourseInv.StepKeeps` | `internal/web/course_manager.go:149-348` | Every one of the 28 steps keeps the whole invariant |
| `CourseRuns.StepEvolves` | `internal/store/queue.go:205-265` | No step loses a row, changes its event, driver or vehicle, or writes a done or canceled row |
| `CourseRuns.RunEvolves` | `internal/store/queue.go:205-265` | The same over whole runs: done and canceled are never left |
| `CourseRuns.RefusedChangesNothing` | `internal/web/admin_events.go:164-202` | Every request answered with conflict, not found or forbidden leaves the state as it was, although closing an event sweeps the waiting rows before it finds the event inactive |
| `CourseRuns.ConfirmTwice` | `internal/web/course_manager.go:212-231` | A grace timer without a pending finish changes nothing, so a second confirm does not |
| `CourseRuns.UndoGoalUndoesFinish` | `internal/web/course_manager.go:237-257` | Undo-goal right after a finish restores the state exactly, up to the log id used |
| `CourseRuns.UndoStartUndoesLaunch` | `internal/web/course_manager.go:278-328` | Undo-start after a launch restores every waiting list and every row up to its position |
| `CourseRuns.StartPairsWithOldestReady` | `internal/web/sensor.go:61-111` | A start trigger stamps the unstarted on_course row of least queue id, and becomes an orphan run exactly when there is none |
| `CourseRuns.GoalPairsWithOldestRunning` | `internal/web/sensor.go:121-191` | A goal trigger finishes the running row of least queue id that is not pending, and only without one looks at orphan runs |
| `LaunchOrder.RunLists` | `internal/web/admin_course.go:63-118` | The history of launches kept beside a run lists exactly the rows on course, each once, after every step |
| `LaunchOrder.StartGoesToFirstLaunched` | `internal/web/sensor.go:69-91` | In every state, a start trigger stamps the READY car that was launched first if and only if no READY car launched after it has a smaller queue id |
| `LaunchOrder.GoalGoesToFirstLaunched` | `internal/web/sensor.go:129-138` | The same for a goal trigger and the RUNNING cars it can finish |
| `LaunchOrder.StartsFollowLaunches` | `internal/web/sensor.go:69-91` | As many start triggers as there are READY cars stamp them in launch order if and only if their ids ascend in launch order |
| `LaunchOrder.GuardIsExact` | `internal/web/admin_course.go:75-84` | Along every run the ids on course stand in launch order if and only if each launch takes a head whose id is above every id on course, which the caller can check before it |
| `LaunchOrder.GuardedTriggersFollowLaunches` | `internal/web/sensor.go:61-138` | After every run whose launches pass that check, start and goal triggers take cars in launch order |
| `LaunchOrder.LaterLaunchIsStamped` | `internal/web/sensor.go:69-91` | From every state whose waiting list is [hi, lo] with lo < hi, two launches and a start trigger stamp the car launched second |
| `LaunchOrder.LaunchedOutOfOrder` | `internal/web/sensor.go:69-91` | The reachable input: two entries, the second moved to the front, two launches, one start trigger |
| `CourseRuns.FinishAcceptedExactly` | `internal/web/course_manager.go:149-165` | A finish is accepted if and only if the row is on course, started, not pending, and the goal is later than 1000 µs before the start (the time is truncated before its sign is checked) |
| `CourseRuns.GoalJustBeforeStart` | `internal/web/course_manager.go:158-165` | The concrete case: a goal 999 µs before the start is a finish of 0 ms |
| `CourseRuns.OrphanGoalOutcome` | `internal/web/sensor.go:140-184` | A goal without a running car pairs with the unexpired orphan run of least id; that run and exactly the expired ones leave the FIFO; the run is discarded if and only if the goal is 1000 µs or more before its start, otherwise its unassigned log has 0 <= raw_ms <= 1000 * max_course_time_sec |
| `CourseLaws.RowsFollowSteps` | `internal/web/admin_course.go:63-221` | Every one of the 28 steps does to every row exactly what it means for that row, said by who is meant alone (the head, the oldest ready, the driver's first row, the id asked for): launched with the start its mode gives, started, re-armed, sent back clean, done, canceled, penalised or left as it was, up to positions |
| `CourseLaws.RowsJoinByEntries` | `internal/store/queue.go:81-123` | Rows come into being by entries alone: clean, waiting, with the driver and vehicle asked for, in the active event, and exactly when the conditions of the entry hold |
| `CourseRecords.FinishIsRecorded` | `internal/web/course_manager.go:149-204` | An accepted finish writes one log with the row's event, driver, vehicle, PT and MC and the time in whole milliseconds from start to goal, and one pending finish with that time that ends 3000 ms from now; nothing else changes |
| `CourseRecords.GoalForNoCarIsRecorded` | `internal/web/sensor.go:140-191` | A goal without a running car takes the oldest run still in time, warns of each run too old in order, and logs the elapsed whole milliseconds with no driver, PT or MC, or discards the run if it is a millisecond or more early |
| `CourseRecords.RecordsFollow` | `internal/web/course_manager.go:149-348` | What each of the 28 steps answers, and does to logs, pending finishes, orphan runs, warnings and events, in terms of the request and of who is meant |
| `CourseTimes.StartIsLast` | `internal/store/queue.go:232-265` | In every run a row's start is the time of the last step that started it (trigger, tap, launch by hand or adopted run), with nothing since that took it back |
| `CourseTimes.FinishLogsTell` | `internal/web/course_manager.go:149-204` | In every run each finish log that no log handler was called for tells one finish of one row, and its time is the whole milliseconds from the last step that started the row to the goal of that finish |
| `CourseRuns.StepRefinesLists` | `internal/store/queue.go:81-200` | The position-keyed table refines one plain sequence of ids per event: add appends, launch and adopt take the head, undo-start back to the queue prepends, reorder moves one id to where its key sorts, cancel removes one, close clears, and no other step changes any list |
| `QueueTable.SortsUnique` | `internal/store/queue.go:52-75` | The (position, id) order of waiting rows and the id order of the others determine the listing uniquely |
| `QueueTable.RenumberKeepsOrder` | `internal/store/queue.go:183-194` | Renumbering to 1, 2, 3, ... leaves every listing as it was and spaces it by whole numbers |
| `QueueTable.NeighboursSpaceAll` | `internal/store/queue.go:175-181` | Gaps between neighbours in the listing bound the gap between any two rows |
| `QueueOrder.EnqueueAppends` | `internal/store/queue.go:81-123` | Enqueue puts the id at the end of its event's list, leaves other lists alone and keeps the spacing |
| `QueueOrder.EnqueuePosition` | `internal/store/queue.go:95-112` | A new row's position is one behind the last waiting row of its event, 1 if there is none |
| `QueueOrder.LeavingRemoves` | `internal/store/queue.go:220-232` | A row that stops waiting leaves its list and changes nothing else about any list |
| `QueueOrder.ReorderMoves` | `internal/store/queue.go:131-200` | Reorder, with or without a renumbering, moves exactly one id to the place its key sorts to |
| `QueueOrder.ReorderPositions` | `internal/store/queue.go:131-200` | The row gets the position asked for and no other row changes, unless two waiting rows of the event would be closer than 1e-9; then the list's positions are 1, 2, 3, ... |
| `QueueOrder.ReorderTouches` | `internal/store/queue.go:131-200` | Reorder writes nothing but positions of waiting rows of that event |
| `QueueOrder.ReorderSpaces` | `internal/store/queue.go:131-200` | After a reorder all waiting positions of the event are at least 1e-9 apart, whatever position was asked for |
| `QueueOrder.ReturnPrepends` | `internal/web/course_manager.go:312-362` | Going back to the queue puts the id first in its event's list, leaves the others, and keeps the spacing; since the row's status is set to waiting first, the list it is put before is never empty |
| `OrphanFifo.SelectSound` | `internal/web/course_manager.go:67-80` | Pruning partitions the FIFO: every run is on exactly one side, the kept side has exactly the unexpired ones |
| `OrphanFifo.SelectIncreasing` | `internal/web/course_manager.go:67-80` | Both sides of a prune keep the order of ids |
| `OrphanFifo.Partition` | `internal/web/course_manager.go:67-80` | The prune keeps, in order, exactly the runs not more than max_course_time_sec old at the trigger |
| `OrphanFifo.HeadIsOldest` | `internal/web/sensor.go:140-150` | The head of what a prune keeps is the unexpired run of least id |
| `OrphanFifo.TakeThenRestore` | `internal/web/course_manager.go:86-111` | Taking a run and restoring it is the identity at every place of the list, also when newer runs were appended in between |
| `OrphanFifo.RestoredIncreasing` | `internal/web/course_manager.go:101-111` | Restoring keeps the FIFO increasing and adds exactly the run |
| `OrphanFifo.Fifo.Prune` | `internal/web/course_manager.go:67-80` | The in-place loop over the shared slice leaves the kept runs and returns the expired ones |
| `OrphanFifo.Fifo.Append` | `internal/web/sensor.go:98-106` | Appends a run, in place or into a larger array |
| `OrphanFifo.Fifo.Take` | `internal/web/course_manager.go:86-96` | Removes the run with the id by shifting the tail down, or reports that there is none |
| `OrphanFifo.Fifo.PopOldest` | `internal/web/sensor.go:140-150` | Takes the head of the slice |
| `OrphanFifo.Fifo.Restore` | `internal/web/course_manager.go:101-111` | Puts the run back at the place its id gives it by shifting the tail up |
| `OrphanFlow.NoRunLostOrDoubled` | `internal/web/admin_course.go:338-406` | Under every interleaving of start, goal, adopt, dismiss and expiry steps, with any store call lost or failing: every orphan run ever queued is in exactly one place, once, no place holds any other run, and the FIFO is strictly increasing |
| `OrphanFlow.FailedAdoptionRestores` | `internal/web/admin_course.go:360-393` | An adoption whose claim or stamp fails leaves the FIFO as it was, newer runs included |
| `OrphanFates.FatesExactly` | `internal/web/sensor.go:140-190` | In every such run: the unassigned logs hold exactly the runs that a goal less than 1000 µs early (or later) popped as the oldest still in time and whose insert succeeded; discarded are exactly those whose goal was 1000 µs or more early; expired exactly those that a trigger came too late for and reported; dismissed and adopted exactly those dismissed and stamped |
| `OrphanFates.AdoptedExactly` | `internal/web/admin_course.go:360-393` | A run is adopted for a row exactly when an adoption took it for that row, claimed the row and stamped it |
| `OrphanFates.QueuedAreStarts` | `internal/web/sensor.go:98-106` | The k-th run queued is the k-th start trigger that found no car, with its time, its moment and the number k |
| `OrphanFates.GoalPops` | `internal/web/sensor.go:140-158` | A goal takes the oldest run still in time and reports each run too old, runs queued meanwhile included |
| `OrphanFates.GoalEnds` | `internal/web/sensor.go:161-190` | That run is then discarded, logged, or back in the FIFO with newer runs kept, by how early the goal was and whether the insert succeeded |
| `OrphanFates.FailedGoalRestores` | `internal/web/sensor.go:174-182` | A goal whose log cannot be written leaves the FIFO as it was before, newer runs included and expired ones gone |
| `OrphanFates.StartAlone` | `internal/web/sensor.go:95-111` | An uninterrupted start without a car: the runs too old are reported and the new one goes last |
| `OrphanFates.AdoptionAlone` | `internal/web/admin_course.go:355-393` | An adoption whose store calls succeed takes exactly the run asked for out of the FIFO and adopts it for the row |
| `OrphanFates.DismissAlone` | `internal/web/admin_course.go:411-426` | A dismissal takes exactly the run asked for out of the FIFO |
| `OrphanFlow.StepKeeps` | `internal/web/sensor.go:61-191` | Each locked section and each store call, as one step, keeps one place per run |
| `OrphanStarts.NoSignalLostExactly` | `internal/web/sensor.go:61-111` | Under every interleaving of launching, adopting, manual and sensor starts at single store calls, any of them failing: no start signal is ever in two places, and every one is in a place if and only if no unconditional SetStart of a launch or an adoption ever came upon a start already set |
| `OrphanStarts.NoRunIsStampedOver` | `internal/web/admin_course.go:360-393` | In the same runs: signals become different orphan runs, each run is in one place, and the start of an adopted run stays on its row |
| `OrphanStarts.StepKeeps` | `internal/store/queue.go:205-265` | Each store call keeps: at most one request holds the claim of a row, a start written by a run or a launch is on a row nobody can claim, a start written by a signal is that signal's only fate |
| `OrphanStarts.RowsAreTold` | `internal/store/queue.go:220-265` | What each store call does to each row: first on a READY row starts it, a claim or rollback moves it only from the expected status, SetStart writes over whatever is there |
| `OrphanStarts.FatesAreTold` | `internal/web/sensor.go:69-106` | A start trigger is refused when its store call fails, is the start of the first listed row still READY at its try, and becomes an orphan run when none is left |
| `OrphanStarts.NewSignalsAreTold` | `internal/web/sensor.go:69-93` | A trigger sets out to try the READY rows of its listing, oldest first; a manual start is its row's start or is refused |
| `OrphanStarts.StartBetweenClaimAndStampIsLost` | `internal/web/admin_course.go:369-393` | In every such state, a start that reaches the claimed row before the adoption's stamp is lost |
| `OrphanStarts.AdoptionLosesASignal` | `internal/web/admin_course.go:369-393` | A reachable run of eight steps, no store call failing, in which that happens |
| `Store.Store.Enqueue` | `internal/store/queue.go:81-123` | Scans for a duplicate and for the back position, then adds one waiting row behind all others of its event |
| `Store.Store.Reorder` | `internal/store/queue.go:131-200` | Moves one row and renumbers exactly when two neighbours are closer than 1e-9 |
| `Store.Store.TooClose` | `internal/store/queue.go:175-181` | The scan finds crowded neighbours exactly when there are some |
| `Store.Store.Renumber` | `internal/store/queue.go:183-194` | The loop gives the listed rows the positions 1, 2, 3, ... |
| `Store.Store.ClaimQueueRow` | `internal/store/queue.go:220-232` | The compare-and-set on status succeeds exactly when the row is in the expected status, and changes nothing otherwise |
| `Store.Store.SetStartIfUnset` | `internal/store/queue.go:253-265` | Stamps an unset start only |
| `Store.Store.SetPT` | `internal/store/queue.go:270-301` | Adds to the PT count and refuses to go below zero |
| `Store.Store.CancelWaiting` | `internal/store/queue.go:319-327` | Cancels exactly the waiting rows of the event |
| `Store.Store.CreateEvent` | `internal/store/events.go:137-168` | Creates an event only when none is active |
| `Store.Store.CloseEvent` | `internal/store/events.go:173-190` | Closes the event only if it is the active one |
| `CourseManager.CourseManager.FinishCar` | `internal/web/course_manager.go:149-204` | Implements `Course.FinishCar` (what that records: CourseRecords.FinishIsRecorded): check, insert log, record pending |
| `CourseManager.CourseManager.Confirm` | `internal/web/course_manager.go:212-231` | Implements `Course.Confirm`: a pending finish makes the row done, without one nothing happens |
| `CourseManager.CourseManager.UndoGoal` | `internal/web/course_manager.go:237-257` | Implements `Course.UndoGoal`: the pending finish and its log go |
| `CourseManager.CourseManager.UndoStart` | `internal/web/course_manager.go:278-328` | Implements `Course.UndoStart`: cleared in place for a started car in sensor mode, back at the front of the queue otherwise |
| `CourseManager.CourseManager.FrontOfWaitingPosition` | `internal/web/course_manager.go:353-362` | At least one below every waiting position of the event, exactly one below the least of them, 0 if there is none |
| `CourseManager.CourseManager.Cancel` | `internal/web/course_manager.go:332-348` | Implements `Course.Cancel`: refused for a pending or off-course row |
| `CourseManager.CourseManager.ReportExpired` | `internal/web/sensor.go:196-201` | Adds one warning per expired run, in order |
| `CourseManager.CourseManager.SensorStart` | `internal/web/sensor.go:61-111` | Implements `Course.SensorStart`: the loop over on_course rows, the orphan branch with its prune |
| `CourseManager.CourseManager.SensorGoal` | `internal/web/sensor.go:121-191` | Implements `Course.SensorGoal`: the loop over on_course rows, the prune and the orphan branch |
| `CourseManager.CourseManager.LaunchHead` | `internal/web/admin_course.go:63-118` | Implements `Course.Launch`: claims the head and sets its start by mode |
| `CourseManager.CourseManager.StartOldest` | `internal/web/admin_course.go:170-221` | Implements `Course.ManualStart`: stamps the oldest unstarted car |
| `CourseManager.CourseManager.FinishOldestCar` | `internal/web/admin_course.go:123-165` | Implements `Course.FinishOldest`: finishes the oldest running car |
| `CourseManager.CourseManager.AdoptOrphan` | `internal/web/admin_course.go:338-406` | Implements `Course.Adopt`: take, claim and stamp, with store calls that succeed; the failing ones are in OrphanFlow and OrphanStarts |
| `CourseManager.CourseManager.DismissOrphanRun` | `internal/web/admin_course.go:411-426` | Implements `Course.DismissRun`: removes one orphan run by id |
| `CourseManager.CourseManager.AddPenalty` | `internal/web/admin_course.go:460-500` | Implements `Course.SetPt`: on an on_course row only |
| `CourseManager.CourseManager.ToggleMisCourse` | `internal/web/admin_course.go:503-535` | Implements `Course.ToggleMc`: on an on_course row only |
| `CourseManager.CourseManager.MyLaunch` | `internal/web/launch.go:14-70` | Implements `Course.SelfLaunch`: the driver at the head, in sensor mode only, not while on course |
| `CourseManager.CourseManager.MyLaunchUndo` | `internal/web/launch.go:77-116` | Implements `Course.SelfLaunchUndo`: before the start only |
| `CourseManager.CourseManager.MyAdd` | `internal/web/my.go:374-434` | Implements `Course.MyQueueAdd`: self-entry under its four conditions |
| `CourseManager.CourseManager.MyCancel` | `internal/web/my.go:436-471` | Implements `Course.MyQueueCancel`: the driver's first waiting row |
| `CourseManager.CourseManager.CloseEvent` | `internal/web/admin_events.go:164-202` | Implements `Course.EventClose`: refused with a car on course, otherwise waiting rows are canceled and the event closes |
| `CourseManager.CourseManager.CreateEvent` | `internal/web/admin_events.go:105-158` | Implements `Course.EventCreate`: refused while an event is active |
| `Rank.Rank` | `internal/domain/rank.go:62-97` | For rows with distinct log ids in any order, and any order of walking the combination map, the result is the ranking of the set of rows (what a ranking says of the runs' own numbers: RankLaws) |
| `Rank.ApplyOverallBest` | `internal/domain/rank.go:123-164` | Best and second are the two least valid runs of the combination, none when no run is valid |
| `Rank.ApplyHeatBest` | `internal/domain/rank.go:101-119` | The combination's run of that heat is its best if it counts; otherwise the row is invalid |
| `Rank.CountRuns` | `internal/domain/rank.go:73-82` | Runs, valid runs and PT total of a combination |
| `Rank.LessIsLex` | `internal/domain/rank.go:174-212` | The chain of comparisons is the lexicographic order of one key |
| `Rank.LessIsStrictTotal` | `internal/domain/rank.go:174-212` | The order is irreflexive, asymmetric, transitive, and total between different combinations |
| `Rank.RankingUnique` | `internal/domain/rank.go:62-97` | A set of runs has at most one ranking, so the unstable sort and the map order cannot show |
| `Rank.OrderOfRowsDoesNotMatter` | `internal/domain/rank.go:62-97` | Rankings of permutations of the same rows are equal |
| `Rank.RankingShape` | `internal/domain/rank.go:174-212` | One row per combination; valid rows first, by best time; the invalid group by combination |
| `Rank.RankingCountsEveryRun` | `internal/domain/rank.go:73-82` | The run counts of the rows add up to the number of runs |
| `RankMonotone.ValidRunNeverHurts` | `internal/domain/rank.go:123-212` | One more valid run never puts its combination behind one it was ahead of, and changes the order of no other two |
| `RankMonotone.InvalidRunChangesNoOrder` | `internal/domain/rank.go:123-212` | One more run that does not count, for a combination already ranked, changes the order of no two combinations |
| `RankLaws.FinalIsTold` | `internal/domain/final.go:12-19` | The time that counts is raw plus touches times the penalty in add mode and raw in every other; a run is out by MC, or by a touch in invalidate mode |
| `RankLaws.BestAndSecondAreTold` | `internal/domain/rank.go:123-164` | Over all heats a combination is in the trailing group if and only if each of its runs is out, and otherwise shows its least time, by the raw numbers and the rules, the moment of that run, and the least time of the others |
| `RankLaws.OrderIsTold` | `internal/domain/rank.go:174-212` | Of two combinations with counting runs one is listed before the other if and only if it is ahead by best time, then second time, then combustion before electric and smaller displacement, then moment, then driver and vehicle |
| `RankLaws.OneRunEach` | `internal/domain/final.go:12-19` | With one counting run each, the smaller raw plus penalties is ahead in add mode and the smaller raw in any other |
| `RankLaws.HeatRowIsTold` | `internal/domain/rank.go:101-119` | In one heat, a combination shows its run with that number by moment and log id, and is in the trailing group if and only if that run is missing or out |
| `RankLaws.FasterIsTold` | `internal/snapshot/combination.go:176-190` | The runs counted ahead of a time are those of known combinations with every label, id and heat asked for that are not out and take less by the raw numbers |
| `RankLaws.RankIsTold` | `internal/snapshot/combination.go:153-196` | rank_in_filter is none for a run that is out and otherwise one more than the number of those runs |
| `Sorting.AscendingUnique` | `internal/domain/rank.go:93-95` | Sequences with the same members that ascend by the same key are equal |
| `Heat.HeatNumbers` | `internal/domain/heat.go:8-29` | Each run gets its heat number in the set of runs, whatever the order of rows and of the map |
| `Heat.HeatBijection` | `internal/domain/heat.go:8-29` | Heat numbers are a bijection from a combination's runs onto 1..n that follows timestamp and then log id, so a heat filter matches at most one run of a combination |
| `Heat.RemovalShiftsLaterHeats` | `internal/domain/heat.go:8-29` | Removing a run lowers exactly the later heats of its combination by one |
| `FilterRank.Population` | `internal/snapshot/combination.go:176-189` | The loop pools exactly the valid runs that pass the filters |
| `FilterRank.SortInts` | `internal/snapshot/combination.go:190` | Nondecreasing and a permutation |
| `FilterRank.SearchInts` | `internal/snapshot/combination.go:192-196` | The binary search finds the number of entries below the value |
| `FilterRank.RankInFilter` | `internal/snapshot/combination.go:153-196` | Every counting run's rank is one more than the number of strictly faster counting runs passing the filters, none for the others (in the runs' own numbers: RankLaws.RankIsTold) |
| `FilterRank.TiesShareAndSkip` | `internal/snapshot/combination.go:192-196` | Equal times share a rank, and a slower time's rank skips all of them |
| `Hub.DeliveredOnce` | `internal/sse/hub.go:98-152` | Under every interleaving: a publish locked after a subscriber joined, on one of its topics, is in its channel exactly once when its send is done, unless it was kicked or left; an earlier one never is, and the initial snapshot holds the newest of each topic at the join |
| `HubLaws.MailboxIsTold` | `internal/sse/hub.go:98-152` | Under every interleaving the hub's log is what was published, and each subscriber is in the state a mailbox of its own computes from the steps: owed what is published on its topics while it is joined, given it in the order of the sends, kicked exactly when a send finds 16 messages unread, and gone when it leaves |
| `Hub.SnapshotExactly` | `internal/sse/hub.go:98-116` | For every run, subscriber and topic: every order of the outstanding sends, from every point of the run, ends the subscriber on the hub's snapshot if and only if it is never owed two publishes of the topic at once |
| `Hub.TwoOwedCanInvert` | `internal/sse/hub.go:98-116` | From every reachable state in which a live subscriber is owed two publishes of a topic, some order of the outstanding sends leaves it live on the older value |
| `Hub.LastValueIsSnapshot` | `internal/sse/hub.go:98-116` | If a publish on a topic begins only when no earlier one on it is still sending, a live subscriber that is owed nothing ends on the hub's snapshot |
| `Hub.CrossedSendsInvert` | `internal/sse/hub.go:98-116` | The smallest such input: two publishes whose sends cross |
| `Hub.Hub.PublishLocked` | `internal/sse/hub.go:98-107` | The section under the lock: new snapshot and the targets of that moment |
| `Hub.Hub.SendTo` | `internal/sse/hub.go:109-115` | One non-blocking send; a full buffer costs the subscriber its place |
| `Hub.Hub.Publish` | `internal/sse/hub.go:98-116` | Uninterrupted, every target is offered the message once and nobody else is |
| `Hub.Hub.SubscribeTo` | `internal/sse/hub.go:129-141` | Joins and captures the current snapshots together |
| `Hub.Hub.Unsubscribe` | `internal/sse/hub.go:143-147` | Leaves without touching anything else |
| `RateLimiter.RateBound` | `internal/web/ratelimit.go:33-56` | For every history with a non-decreasing clock and capacity >= 1, a key is allowed at most capacity + rate * T requests within any stretch of length T |
| `RateLimiter.RateBoundNeedsOneToken` | `internal/web/ratelimit.go:39-42` | Below one token of capacity the bound fails at the first request of a key, which is always allowed |
| `RateLimiter.SpendingBound` | `internal/web/ratelimit.go:44-55` | What a key was allowed plus what it has left is at most what it had plus what flowed in |
| `RateLimiter.RequestCosts` | `internal/web/ratelimit.go:33-56` | A request is allowed exactly when a token is there, costs its key that token, and no other key anything |
| `RateLimiter.LevelRises` | `internal/web/ratelimit.go:44-50` | Between requests a key's level rises by rate times time up to the capacity exactly, and a key never seen has the whole capacity |
| `RateLimiter.PacedIsNeverRefused` | `internal/web/ratelimit.go:44-55` | In every history in which the consecutive requests of a key are at least 1/rate apart none of them is refused, whatever other clients do in between |
| `RateLimiter.KeysIndependent` | `internal/web/ratelimit.go:38-42` | A key is allowed exactly as many requests as if it were alone |
| `RateLimiter.RateLimiter.Allow` | `internal/web/ratelimit.go:33-56` | The whole new state and answer of one call |
| `EdgeQueue.Spsc` | `firmware/lib/lockout/edge_queue.h:24-45` | For every ring size and every interleaving of the two sides' loads and stores: popped followed by buffered is what was accepted, in order; the slot being read is never the one being written; at most N-1 values are held; attempts = accepted + dropped + the one under way, dropped modulo 2^32 |
| `EdgeQueue.RefusalsAreJustified` | `firmware/lib/lockout/edge_queue.h:24-45` | A push is refused exactly when N-1 values wait at its test, and a pop finds nothing exactly when none waits |
| `EdgeQueue.AcceptedAreOffers` | `firmware/lib/lockout/edge_queue.h:24-35` | For every interleaving the accepted values are the edges of the interrupts whose test found room, in order and unaltered, and each interrupt's push is one attempt |
| `EdgeQueue.PushAlone` | `firmware/lib/lockout/edge_queue.h:24-35` | The micro-steps of an uninterrupted push compose to the call |
| `EdgeQueue.PopAlone` | `firmware/lib/lockout/edge_queue.h:37-45` | The micro-steps of an uninterrupted pop compose to the call |
| `EdgeQueue.EdgeQueue.PushFromIsr` | `firmware/lib/lockout/edge_queue.h:24-35` | Accepts at the end or drops and counts, on the array in place |
| `EdgeQueue.EdgeQueue.Pop` | `firmware/lib/lockout/edge_queue.h:37-45` | Returns the oldest waiting value, or none exactly when none waits |
| `SensorDevice.DeviceRuns` | `firmware/src/main.cpp:86-109` | In every boot, under any changes of window and clock: of the edges judged, one is accepted exactly when it is at least the window in force after every one accepted before it, and the triggers handed on are those of the accepted ones, numbered in order modulo 2^32 (which edges are judged: DrainsAreJudged) |
| `SensorDevice.TriggersOfDrains` | `firmware/src/main.cpp:86-109` | In every boot what is handed to the uplink is exactly the triggers, numbered in order and stamped by the clock of their drain, of those edges among all drained while the clock was synced that are at least the window in force after every one accepted before them |
| `SensorDevice.DrainsAreJudged` | `firmware/src/main.cpp:94-97` | Every edge drained while the clock is synced is judged, in order, under the window and clock of its drain, and no other is |
| `SensorDevice.UnsyncedDrain` | `firmware/src/main.cpp:94-97` | A drain with an unsynced clock changes nothing but the window |
| `SensorDevice.JudgedKeepsDebounce` | `firmware/lib/lockout/lockout.h:17-24` | One edge judged by the lockout keeps that equivalence |
| `SensorDevice.KeysRepeatExactly` | `firmware/src/identity.h:26` | Two triggers of a boot have the same number if and only if they are a multiple of 2^32 apart |
| `SensorDevice.Lockout.Accept` | `firmware/lib/lockout/lockout.h:17-24` | The whole new state and answer of one call |
| `SensorDevice.Firmware.DrainEdge` | `firmware/src/main.cpp:94-103` | One popped edge: skipped while unsynced, judged, numbered, stamped |
| `SensorDevice.Firmware.DrainEdges` | `firmware/src/main.cpp:86-109` | Empties the queue and does to the device what draining its edges in order does |
| `WifiBurst.ThreeCopiesUnlessCut` | `firmware/src/uplink_wifi.cpp:225-256` | In every run, at any value of the wrapping clock: a trigger goes out one to three times in its own words, and exactly three times unless the next trigger came first or a copy is still to come |
| `WifiBurst.AllAreSent` | `firmware/src/uplink_wifi.cpp:225-243` | In every run a burst begins for each trigger that fits a packet, in order, and each heartbeat that fits goes out once |
| `WifiBurst.TwoPollsComplete` | `firmware/src/uplink_wifi.cpp:245-256` | Two polls complete a burst exactly when each comes at least 50 ms (and less than 2^31 + 50 ms) after the copy before |
| `WifiBurst.UplinkWifi.SendToServer` | `firmware/src/uplink_wifi.cpp:225-243` | The whole new state: heartbeats never touch the burst |
| `WifiBurst.UplinkWifi.PollBurst` | `firmware/src/uplink_wifi.cpp:245-256` | The whole new state, with the signed 32-bit comparison |
| `Delivery.OneCallPerEdge` | `internal/timing/timing.go:328-389` | Under any loss, repetition and reordering of packets and any failing writes, an accepted edge makes the course act at most once, with its own sensor and time, and exactly once precisely when the first written copy finds an event active |
| `Delivery.NoCallWithoutEdge` | `internal/timing/timing.go:328-389` | The course is never called for anything but an accepted edge |
| `Delivery.AtMostOnce` | `internal/store/sensor.go:12-25` | Per (sensor, boot, seq) key the course is called once or not at all, once exactly when the first arrival that was written found an event active |
| `Delivery.CallsAreEffective` | `internal/timing/timing.go:287-321` | The single worker's course calls are exactly the effective arrivals, in order of arrival |
| `Delivery.LedgerHoldsTheWritten` | `internal/store/sensor.go:12-25` | The ledger holds exactly the keys some arrival was written for |
| `Delivery.LedgerHoldsTheEvent` | `internal/store/sensor.go:12-25` | For each key the ledger holds the event that was active when it was first written |
| `Delivery.KeysAreDistinct` | `firmware/src/identity.h:12-26` | With a boot id per boot and at most 2^32 triggers each, no two accepted edges share a key |
| `Delivery.WrappedTriggerIsSwallowed` | `internal/timing/timing.go:350-354` | Past 2^32 triggers of a boot an edge whose number was taken before never reaches the course |
| `Delivery.Store.InsertSensorEvent` | `internal/store/sensor.go:12-25` | Inserted, duplicate or failed, and the table changes only in the first case |
| `Delivery.Dispatcher.HandleTrigger` | `internal/timing/timing.go:328-389` | The whole new state of one packet and the course call to make |
| `Delivery.Dispatcher.Run` | `internal/timing/timing.go:287-321` | The worker loop gives the state of its arrivals in order |
| `TimeBase.NeverRunsBackwards` | `firmware/lib/timebase/timebase.h:47-59` | However the clock was anchored and resynced, a later reading never has an earlier wall time |
| `TimeBase.AnchorIsRead` | `firmware/lib/timebase/timebase.h:21-27` | After an anchor a reading is the wall time of the anchor plus the monotonic time since |
| `TimeBase.SlewIsBounded` | `firmware/lib/timebase/timebase.h:47-59` | The correction starts at the resync instant, goes toward its target and never past it, is at most floor(500 * elapsed / 10^6) µs, and is complete exactly when that cap covers it |
| `TimeBase.FirstResync` | `firmware/lib/timebase/timebase.h:34-59` | A resync with nothing left to correct changes no reading up to its instant, stays between the old and the hard line, and equals the hard anchor's exactly when the cap covers the gap |
| `TimeBase.ResyncSteps` | `firmware/lib/timebase/timebase.h:39-40` | A resync steps the clock by exactly minus the correction already applied |
| `TimeBase.ResyncIsContinuousExactly` | `firmware/lib/timebase/timebase.h:29-41` | A resync does not step if and only if no correction is pending or the last one began less than 2000 µs ago |
| `TimeBase.LaterResyncSettlesShort` | `firmware/lib/timebase/timebase.h:34-59` | After a later resync the clock settles exactly the dropped correction short of the hard line |
| `TimeBase.PerfectResyncUndoesTheSlew` | `firmware/lib/timebase/timebase.h:34-59` | A clock that has caught up and is resynced by a perfect sample steps back by the whole gap |
| `TimeBase.SecondResyncStepsBack` | `firmware/lib/timebase/timebase.h:29-41` | The smallest concrete case of such a step |
| `TimeBase.RunsKeepTheFirstAnchor` | `firmware/lib/timebase/timebase.h:34-59` | No run of resyncs moves the line that corrections are added to |
| `TimeBase.NearReads` | `firmware/lib/timebase/timebase.h:47-59` | What holds of any clock that is Near: a reading is off by at most n + 1 slacks (n for odd n) |
| `TimeBase.RunsReadWithin` | `firmware/lib/timebase/timebase.h:34-59` | After every run of n resyncs, at any moments, by samples at most `slack` off, every reading is off by at most n + 1 slacks (n for odd n) |
| `TimeBase.ErrorGrowsWithoutBound` | `firmware/lib/timebase/timebase.h:34-59` | That bound is reached for every n by a run that resyncs a whole number of five-minute intervals apart, so there is none for all runs |
| `TimeBase.FoldedNeverSteps` | `firmware/lib/timebase/timebase.h:29-41` | With the applied correction folded into the anchor every resync is continuous and settles on the hard line |
| `TimeBase.TimeBase.ReanchorSlewed` | `firmware/lib/timebase/timebase.h:34-41` | The whole new state |
| `TimeBase.TimeBase.ToWallUs` | `firmware/lib/timebase/timebase.h:47-59` | The wall time, with C++'s truncating division |
| `OffsetFilter.KeepsFirstLeastDelay` | `firmware/lib/timebase/offset_filter.cpp:9-21` | The filter keeps the first of the accepted samples of least delay, and nothing if none was accepted |
| `OffsetFilter.AcceptedExactly` | `firmware/lib/timebase/offset_filter.cpp:9-14` | A genuine exchange is accepted if and only if its way there and back took at most 20 ms, however long the host held it |
| `OffsetFilter.EstimateIsClose` | `firmware/lib/timebase/offset_filter.cpp:9-21` | With a constant host offset and non-negative path delays, in any schedule of lost, late, repeated or reordered replies, the estimate is within ceil(least accepted delay / 2) of the truth and within 10 000 µs |
| `OffsetFilter.RememberedSendTimeMisleads` | `firmware/src/uplink_espnow.cpp:104-119` | Were t1 remembered instead of echoed, one late reply could be accepted and put the clock more than 10 ms off |
| `OffsetFilter.OffsetFilter.AddSample` | `firmware/lib/timebase/offset_filter.cpp:9-21` | The whole new state and whether the sample was accepted |
| `OffsetFilter.OffsetFilter.Reset` | `firmware/lib/timebase/offset_filter.cpp:3-7` | No sample |
| `EspNow.LinkIsSound` | `firmware/src/uplink_espnow.cpp:53-187` | In every reachable state, across the wrap of the clock: no host means no active burst, an idle sync and an unsynced clock; Ready means linked and synced; after each loop Failed means exactly a role collision, Connecting exactly no host without one, and Ready linked, synced and without one |
| `EspNow.OnlyTheHostIsHeard` | `firmware/src/uplink_espnow.cpp:57-64` | While linked, draining the receive queue is draining the host's frames alone, and the link stays with that host |
| `EspNow.LinksToFirstOtherRole` | `firmware/src/uplink_espnow.cpp:64-93` | While unlinked, the client links to the sender of the first announce of another role; without one it stays exactly as it was, except that an announce of its own role sets the role collision |
| `EspNowLink.LinkIsTold` | `firmware/src/uplink_espnow.cpp:53-187` | In every run the link is what the frames heard, the loops and the radio's reports alone make it, whatever is synced or relayed: host, its uplink, when it was last heard, collision flag, failed sends in a row and lockout, given up after more than ten seconds of silence or at five failed sends |
| `EspNowLink.ExchangesAreTold` | `firmware/src/uplink_espnow.cpp:104-124` | Every step moves the exchange on exactly when a reply comes from the host, its 200 ms are over, the link is given up or a sync is due |
| `EspNowLink.AsidesAreTold` | `firmware/src/uplink_espnow.cpp:189-220` | Besides relays a step sends one request, with the clock of that moment, for each new exchange, and while there is no host one call every 150 ms |
| `EspNowLink.SweepIsTold` | `firmware/src/uplink_espnow.cpp:45-51` | The sweep takes the 13 channels in turn, one call each |
| `EspNowLink.RepliesAreSampled` | `firmware/src/uplink_espnow.cpp:104-124` | Each reply of the sync is sampled against its own request, and at the end of a sync the clock is set by the best sample, if there is one |
| `EspNowRuns.SyncsEndWithinFive` | `firmware/src/uplink_espnow.cpp:189-238` | In every run each sync ends with exactly its fifth reply or timeout or is cut off by the loss of the link before that, and two syncs begin at least five minutes apart unless the link was lost or the first began at tick 0 |
| `EspNowRuns.NextSyncExactly` | `firmware/src/uplink_espnow.cpp:179-183` | In every run whose last sync began at `start` and finished, with the link usable and kept: the next loop begins a sync exactly when five minutes have passed since, or `start` is 0, which reads as never synced |
| `EspNowRuns.CopiesGoTogether` | `firmware/src/uplink_espnow.cpp:240-304` | In every run a trigger is relayed at most three times, in the same words to the same host; copies sent plus copies due are three while a burst is active |
| `EspNowBursts.BurstsAreTold` | `firmware/src/uplink_espnow.cpp:240-304` | In every run, from what was handed over: each trigger is a burst in its own words of one to three copies, three exactly unless a copy was left when the next burst began or the link was lost, or is left still; and one handed over while the link is down is relayed at the first loop that finds it usable, replaced by a newer one, or dropped at one that finds it more than three seconds old |
| `EspNowBursts.TwoPollsComplete` | `firmware/src/uplink_espnow.cpp:247-258` | Two polls complete a burst exactly when each comes at least 50 ms (and less than 2^31 + 50 ms) after the copy before, across the wrap |
| `EspNowBursts.TwoLoopsComplete` | `firmware/src/uplink_espnow.cpp:130-187` | The same for two loops on a usable link that lasts |
| `EspNowBursts.BeatsAreTold` | `firmware/src/uplink_espnow.cpp:278-304` | A heartbeat goes out exactly when it is handed over on a usable link and fits a frame; what is handed back is success exactly when the radio took it, and for a trigger when it fits |
| `EspNowRuns.EdgesAreStampedWithin` | `firmware/src/uplink_espnow.cpp:222-238` | In every run whose host answers honestly, an edge is stamped within 10 ms of the truth until the first resync, and within n + 1 (n for odd n) times 10 ms after n of them |
| `EspNowWorst.BoundIsReached` | `firmware/src/uplink_espnow.cpp:189-238` | For every n there is a run of the client, its link never lost, every reply honest and syncs five minutes apart, after which an edge is stamped exactly that far off |
| `EspNowWorst.TickZeroSyncsTwice` | `firmware/src/uplink_espnow.cpp:179-183` | A reachable run whose first sync begins at tick 0 and is followed by another a tenth of a second later |
| `EspNowClient.UplinkEspNow.HandlePacket` | `firmware/src/uplink_espnow.cpp:53-124` | Implements `EspNow.Handled`: every frame type, state and sender |
| `EspNowClient.UplinkEspNow.Loop` | `firmware/src/uplink_espnow.cpp:130-187` | Implements `EspNow.Rest(Drained(..))`: one call with the frames its queue holds |
| `EspNowClient.UplinkEspNow.PollTimeSync` | `firmware/src/uplink_espnow.cpp:207-220` | Implements `EspNow.SyncPolled`: with the unsigned 32-bit difference |
| `EspNowClient.UplinkEspNow.StartTimeSync` | `firmware/src/uplink_espnow.cpp:189-196` | Implements `EspNow.SyncStarted`: filter reset, first request |
| `EspNowClient.UplinkEspNow.FinishTimeSync` | `firmware/src/uplink_espnow.cpp:222-238` | Implements `EspNow.SyncFinished`: anchor or reanchor; without a sample the clock stays |
| `EspNowClient.UplinkEspNow.PollRelayBurst` | `firmware/src/uplink_espnow.cpp:247-258` | Implements `EspNow.BurstPolled`: with the signed 32-bit comparison |
| `EspNowClient.UplinkEspNow.PollPendingTrigger` | `firmware/src/uplink_espnow.cpp:260-276` | Implements `EspNow.PendingPolled`: relayed when usable, dropped after 3 s otherwise |
| `EspNowClient.UplinkEspNow.SendToServer` | `firmware/src/uplink_espnow.cpp:278-304` | Implements `EspNow.SentToServer`: and its result, for heartbeats and triggers |
| `EspNowClient.UplinkEspNow.SweepChannel` | `firmware/src/uplink_espnow.cpp:45-51` | Implements `EspNow.Swept`: the next channel and its dwell |
| `Common.TruncDivNegative` | `internal/web/course_manager.go:158-165` | A truncated quotient is negative only from a whole negative unit on |

## Left out

- CourseRuns.EveryRunIsSound: whole handlers, and timer firing plus confirm, are single steps with store calls that succeed; the gap between the pending check and the pending entry of a finish, and between claim and stamp of a launch, is not split here (OrphanStarts splits the latter).
- OrphanFlow.NoRunLostOrDoubled: the queue row an adoption claims is only a number here; OrphanStarts has the rows, and the claim given back after a failed stamp.
- OrphanStarts.NoSignalLostExactly: one event; a row leaves the course for good, by a finish or a cancel, in one step; undo-start, which clears a start on purpose, and the failure of the listing before a start are left out.
- CourseInv.StepKeeps: admin queue add, cancel and reorder, settings and log edits, and finish, cancel and undo-start by id are modelled on values only, because each reads one row and makes one store call.
- Hub.DeliveredOnce: losing one's place (unsubscribe, then kick) is one step taken at the failed send.
- Hub.Hub.Publish: stated for a publish that is not interleaved; the interleaved ones are the steps of the machine.
- EdgeQueue.Spsc: acquire and release are taken as giving each step the other side's latest stores; weaker orderings are not explored.
- Delivery.OneCallPerEdge: packets that fail to parse, unknown sensors, and a dispatcher without store or course are outside; a packet on the wire is one that some boot sent.
- EspNow.LinkIsSound: frame codecs and the parsing of the lockout value are outside; a frame arrives decoded, and one that does not decode is `Other`.
- Rank.Rank: `sort.Slice` and `sort.Ints` are an insertion sort with the library's contract; nothing relies on the order of equal keys.
- Positions, bucket levels and rates are reals; the rounding of float64 is not modelled.
- Go's int and int64 and C++'s int64_t are unbounded here; only the 32-bit values that wrap in practice (milliseconds, trigger numbers, the drop counter) wrap.
- The C++ ring's slots and Go's slices are arrays; sharing one backing array between several slices is modelled only inside the orphan FIFO.
- Process restart: the pending finishes and the orphan FIFO live in memory only, so a restart is outside the invariants.
- HTTP routing, authentication, templates, JSON, SQL text, backups, exports and audit rows: plumbing.
- The warning list is append-only except for what log handlers remove; the admin's dismissal and clearing of warnings are left out.
- The extra time stamp the hub's handler sends on the `time` topic, gzip and event framing: byte writing.
- The Wi-Fi uplink's connection, SNTP sync, config fetch and bridge, the pilot lamps, switches and serial console: foreign calls around the modelled parts.
- The host side of the ESP-NOW link: only its answers matter to the client.
