# Verified model of the RedXe host protocols

RedXe is a Windows dashboard host. Several of its parts are protocols or exact arithmetic with guarantees that no single
function shows. This project models those parts in Dafny and proves the guarantees for every input and every run.

- **Three single-worker lanes.** Each lane is a class whose methods are the sections the source performs under its lock,
  specified by functions on the lane's value, and a step system (`State`, `Event`, `Enabled`, `Next`) in which UI thread
  and worker interleave: one step per lock section, explicit program counters, auto-reset and manual-reset events, jobs
  with arbitrary results and times. `ControlWorkQueue`, `ControlProtocol`, `ControlGuarantees` and `ControlLoss` model
  the round-robin lane with coalesced reruns; `ControlVerdicts` and `ConstructionVerdicts` follow each job's verdict to
  its Complete; the `Launch*` files are the FIFO ring; the `Construction*` files the round-robin lane with a pinned slot
  and a bounded stop. `RoundRobin` holds the modular arithmetic of the scans.
- **Held input** (`InputRecords`, `HeldInput*`, `HostActions`): tracked key and mouse holds with deadlines, refused
  releases, retries, abandonment and one shared timer, beside a desktop that knows which inputs are down and which
  records it took. `SendInput` takes any number of whole batches and refuses the next.
- **Layout** (`Layout`, `GridLayout`): every tile folds its own path of ratio splits with floor arithmetic; the tiles
  still partition the canvas.
- **Dock** (`DockGeometry`, `DockAppBar*`, `DockPasses`, `DockReveal*`, `DockDecisions`): the app-bar planner and its
  driver against a model of the shell, bounded re-entrant placement, the autohide machine with its timer, slide and
  window size, and the conversions between DIPs and pixels.
- **Settings notices** (`SettingsWatch*`): the coalescing flag between the watcher thread and the UI thread, with
  deferral in size loops and while minimized.
- **Text** (`TextChunks`, `TextTransport`, `TextRoundTrip`): surrogate-safe and sequence-safe chunking (section 2.2 of
  RFC 2781, section 3 of RFC 3629), and the validated encoding of a text control's state.

Time is a natural number supplied by the environment; HRESULTs are a small datatype; COM references are opaque numbers;
answers of the system are parameters. A method with a class is proved equal to a function of the old value, and the
guarantees are lemmas about those functions and their runs.

## Where the guarantees end

Four properties fail on some inputs. Each has its exact condition proved. The first contradicts the interface's own
documentation; the others are limits of the code that its documents leave open.

- `Common/PlugInterfaces/Host.h:126-127` promises that submitting a control job again while it runs coalesces one rerun.
  The drain ignores the answer of its own resubmission (`RedXe/ControlWorkQueue.cpp:137-138`), so a completion that fills
  the lane loses the rerun. `ControlLoss.CallbackCanLoseRequest` is such a run; `ControlGuarantees.LostExactlyWhenRefused`
  says that nothing else loses a request.
- keys.press of more than one batch, refused after its first, can leave keys down that no hold tracks:
  `HeldInputGuarantees.RefusedPressLeavesModifiers`. The exact condition, for every state and all chords, is
  `HeldInputGuarantees.RefusedPress`.
- A failed post of the settings watcher drops its notice until the file changes again:
  `SettingsWatchGuarantees.FailedPostLosesChange` and `SettingsWatchGuarantees.LostExactlyWhenPostFails`.
- Below DPI 96 some thicknesses do not survive the trip through pixels: `DockGeometry.HalfDpiLosesThickness` and
  `DockGeometry.RoundTripsExactlyFrom96`.

## Model

| member | source | states |
|---|---|---|
| `ControlGuarantees.NoRequestLost` | RedXe/ControlWorkQueue.cpp:36-140 | in every interleaving without Stop whose completions submit nothing, a request answered S_OK or S_FALSE is selected after its submission or still promised, and a lane at rest has selected it |
| `ControlGuarantees.LostExactlyWhenRefused` | RedXe/ControlWorkQueue.cpp:132-139 | a promised request is dropped by a step exactly when a drain submits its rerun again and finds the lane full |
| `ControlGuarantees.RefusalNeedsBorrower` | RedXe/ControlWorkQueue.cpp:116-140 | that refusal happens only if a callback of the same drain took a slot: the slots the sweep freed are otherwise enough |
| `ControlLoss.CallbackCanLoseRequest` | RedXe/ControlWorkQueue.cpp:136-138 | a reachable run in which a completion fills the lane and the promised rerun is lost, although Common/PlugInterfaces/Host.h:126-127 promises it |
| `ControlGuarantees.RequestCovered` | RedXe/ControlWorkQueue.cpp:36-140 | the exact form for every run without Stop: covered or still promised as long as its rerun is never refused |
| `ControlGuarantees.ReachableInv` | RedXe/ControlWorkQueue.cpp:36-140 | every reachable state: works distinct, Running exactly where the worker performs, no lost wake-up, no lost completion, enough free slots for the reruns of a drain |
| `ControlGuarantees.BoundedBypass` | RedXe/ControlWorkQueue.cpp:85-96 | a queued job is selected after at most Capacity - 1 selections of other jobs, whatever is submitted meanwhile |
| `ControlGuarantees.RestOwesNothing` | RedXe/ControlWorkQueue.cpp:73-113 | when both threads wait and nothing is signalled, no slot holds a job and no request is owed |
| `ControlGuarantees.RunsToRest` | RedXe/ControlWorkQueue.cpp:64-140 | left alone the lane takes a bounded number of steps |
| `ControlGuarantees.StepUntilRest` | RedXe/ControlWorkQueue.cpp:64-140 | a running lane not at rest always has a thread that can step: no deadlock |
| `ControlGuarantees.LeftAloneItRests` | RedXe/ControlWorkQueue.cpp:64-140 | liveness: every run of the lane left alone is bounded, and one that cannot be extended ends at rest |
| `ControlGuarantees.RequestIsSelected` | RedXe/ControlWorkQueue.cpp:36-140 | a request answered S_OK or S_FALSE, with the lane then left alone, has been selected by the end of every run that cannot be extended |
| `ControlGuarantees.StopSelectsAtMostOne` | RedXe/ControlWorkQueue.cpp:78-97 | after the stop event is set at most one more job is selected, only past the stop test; a finished Stop leaves no job in a slot |
| `ControlVerdicts.VerdictsAreConserved` | RedXe/ControlWorkQueue.cpp:100-140 | over every run, what Complete was called with, together with the results in slots and swept copies and those a Stop dropped, is exactly the verdicts reached: the apartment failure, a time-out from three seconds after queueing, else the own answer of the job |
| `ControlVerdicts.FinishStores` | RedXe/ControlWorkQueue.cpp:100-109 | the slot of a finished job holds that verdict, for its own work and by the time it was queued |
| `ControlVerdicts.EveryVerdictIsTold` | RedXe/ControlWorkQueue.cpp:116-140 | without Stop, a lane with empty slots and no drain has told every verdict exactly once |
| `ControlVerdicts.EnqueueAnswers` | RedXe/ControlWorkQueue.cpp:36-62 | when each answer is given, both directions, and that only S_OK queues the work, at that time |
| `ControlVerdicts.StopEmptiesLane` | RedXe/ControlWorkQueue.cpp:142-156 | a finished Stop leaves sixteen empty slots, no flag, no event and no thread; the next scan resumes where the last stopped |
| `ControlVerdicts.StartWaits` | RedXe/ControlWorkQueue.cpp:9-34 | a started lane waits for its first job |
| `ControlLanes.SelectCases` | RedXe/ControlWorkQueue.cpp:85-96 | a selection takes the Queued slot nearest behind the last one, and none exactly when none is Queued |
| `ControlLanes.ControlWorkQueue.Enqueue` | RedXe/ControlWorkQueue.cpp:36-62 | the whole new lane and answer for null work, no thread, a held job (coalesced or rerun), a free slot, a full lane |
| `ControlLanes.ControlWorkQueue.Select` | RedXe/ControlWorkQueue.cpp:84-97 | the locked selection in place |
| `ControlLanes.ControlWorkQueue.Publish` | RedXe/ControlWorkQueue.cpp:104-109 | the locked publication in place |
| `ControlLanes.ControlWorkQueue.Sweep` | RedXe/ControlWorkQueue.cpp:120-131 | the Complete slots move out in slot order and leave empty slots; all others stay |
| `ControlLanes.ControlWorkQueue.Vacate` | RedXe/ControlWorkQueue.cpp:150-151 | after the join every slot is empty and no completion is flagged |
| `RoundRobin.PickNearest` | RedXe/ControlWorkQueue.cpp:85-96 | the cyclic scan finds a queued slot whenever there is one, and the nearest one behind the last selection |
| `RoundRobin.ScanApproaches` | RedXe/ConstructionWorkQueue.cpp:89-98 | every selection of another job brings the scan nearer to a waiting slot |
| `LaunchGuarantees.FirstInFirstOut` | RedXe/LaunchWorker.cpp:48-92 | in every interleaving of a thread lifetime logged launches are a prefix of performed ones, and those with the one in progress a prefix of the accepted ones |
| `LaunchProtocol.StepKeepsInv` | RedXe/LaunchWorker.cpp:48-92 | every step keeps the ring Complete* Running? Queued* from its head with all other slots Empty, the refinement to a FIFO, and the signals that prevent a lost wake-up or completion |
| `LaunchGuarantees.BusyExactlyWhenFull` | RedXe/LaunchWorker.cpp:50-53 | a launch is refused as busy exactly when eight are accepted and not yet logged |
| `LaunchGuarantees.RunningSlotIsPinned` | RedXe/LaunchWorker.cpp:239-246 | while a launch is performed no step of the UI thread writes its slot |
| `LaunchGuarantees.RestHasLoggedAll` | RedXe/LaunchWorker.cpp:64-92 | at rest every accepted launch was performed and logged in order |
| `LaunchGuarantees.NoStartAfterStop` | RedXe/LaunchWorker.cpp:214-234 | after the stop event is set no slot goes from Queued to Running |
| `LaunchGuarantees.ProbeTellsTheTruth` | RedXe/LaunchWorker.cpp:106-119 | LaunchInProgress exactly when a launch is running at the probe |
| `LaunchGuarantees.ExitingIsFinal` | RedXe/LaunchWorker.cpp:106-119 | after Exiting nothing runs or ever will on that thread, however often Stop is called |
| `LaunchGuarantees.StopOnlyFinishes` | RedXe/LaunchWorker.cpp:94-134 | a stopped thread finishes at most the running launch and accepts nothing |
| `LaunchGuarantees.OneWaitRunsOut` | RedXe/LaunchWorker.cpp:104-118 | over all Stops of a thread at most one positive wait runs out, later waits are 0 |
| `LaunchGuarantees.LaunchIsStored` | RedXe/LaunchWorker.cpp:239-246 | a performed launch is the request of its own slot with its own answer, or the apartment failure |
| `LaunchGuarantees.DrainLogsInOrder` | RedXe/LaunchWorker.cpp:66-91 | a turn of a drain logs the oldest launch performed and not yet logged, with its result, or ends |
| `LaunchGuarantees.PushAnswers` | RedXe/LaunchWorker.cpp:48-61 | busy exactly when all eight slots are in use, else queued last |
| `LaunchGuarantees.StopWaits` | RedXe/LaunchWorker.cpp:94-106 | Stop waits as long as asked, and not at all once a wait has run out |
| `LaunchGuarantees.StopAnswers` | RedXe/LaunchWorker.cpp:106-133 | which waits count, and the empty ring after a join |
| `LaunchGuarantees.RunsToRest` | RedXe/LaunchWorker.cpp:64-92 | left alone the ring takes a bounded number of steps |
| `LaunchGuarantees.StepUntilRest` | RedXe/LaunchWorker.cpp:196-252 | no deadlock: a thread can step until the lane is at rest, or, stopped, until its thread has run out |
| `LaunchGuarantees.LeftAloneItRests` | RedXe/LaunchWorker.cpp:196-252 | every run of the ring left alone is bounded and ends at rest, or, stopped, with its thread run out |
| `LaunchGuarantees.LaunchesAreLogged` | RedXe/LaunchWorker.cpp:48-92 | every launch accepted by a ring then left alone has been performed and logged in order by the end of every run that cannot be extended |
| `LaunchRings.LaunchWorker.Push` | RedXe/LaunchWorker.cpp:49-59 | a request enters behind the contents, or the ring is full and unchanged |
| `LaunchRings.LaunchWorker.Take` | RedXe/LaunchWorker.cpp:225-233 | the first Queued slot from the head becomes Running |
| `LaunchRings.LaunchWorker.Finish` | RedXe/LaunchWorker.cpp:243-245 | the result is published in the taken slot |
| `LaunchRings.LaunchWorker.Pop` | RedXe/LaunchWorker.cpp:72-84 | one turn of a drain: a Complete head leaves the ring |
| `LaunchRings.LaunchWorker.Probe` | RedXe/LaunchWorker.cpp:108-115 | whether any slot is Running |
| `LaunchRings.LaunchWorker.Clear` | RedXe/LaunchWorker.cpp:122-130 | the ring after a join |
| `LaunchRings.PushedView` | RedXe/LaunchWorker.cpp:54-58 | a push appends to the ring read from its head |
| `LaunchRings.PoppedView` | RedXe/LaunchWorker.cpp:81-83 | a pop removes the head of that view |
| `LaunchRings.TakenFirst` | RedXe/LaunchWorker.cpp:225-233 | behind finished launches the taken one is the oldest queued |
| `ConstructionGuarantees.JobsAreConserved` | RedXe/ConstructionWorkQueue.cpp:35-178 | in every reachable state each acceptance is in a slot, among swept copies, delivered once or dropped once; at most one slot is Running |
| `ConstructionGuarantees.RunningSlotIsPinned` | RedXe/ConstructionWorkQueue.cpp:102-119 | no UI step writes the Running slot or moves the worker off it |
| `ConstructionGuarantees.WorkerReleasesNothing` | RedXe/ConstructionWorkQueue.cpp:60-124 | only UI steps deliver or release a reference |
| `ConstructionGuarantees.StopSilencesTheLane` | RedXe/ConstructionWorkQueue.cpp:86-88 | from the stop event to the join no job starts, none is accepted, no Complete is called |
| `ConstructionGuarantees.StopAnswersTruthfully` | RedXe/ConstructionWorkQueue.cpp:168-174 | after an Exiting nothing runs on that thread, and nothing will until it is joined |
| `ConstructionGuarantees.DiscardIsExact` | RedXe/ConstructionWorkQueue.cpp:150-166 | Stop sees a running job exactly, discards every other job and never that one |
| `ConstructionGuarantees.OneWaitRunsOut` | RedXe/ConstructionWorkQueue.cpp:167-173 | at most one positive wait runs out in a thread lifetime, none exceeds the bound |
| `ConstructionVerdicts.VerdictsAreConserved` | RedXe/ConstructionWorkQueue.cpp:104-144 | over every run, what Complete was called with, together with the results in slots and swept copies and those a Stop dropped, is exactly the verdicts reached |
| `ConstructionVerdicts.FinishStores` | RedXe/ConstructionWorkQueue.cpp:104-119 | the slot of a finished job holds its verdict: the apartment failure, a time-out from three seconds after queueing or for a success after them, else its own answer |
| `ConstructionVerdicts.FinishAnnounces` | RedXe/ConstructionWorkQueue.cpp:112-121 | a finished job is announced exactly while no stop is signalled |
| `ConstructionVerdicts.EnqueueAnswers` | RedXe/ConstructionWorkQueue.cpp:35-58 | when each answer is given, both directions, and that only S_OK queues the work |
| `ConstructionVerdicts.StopWaits` | RedXe/ConstructionWorkQueue.cpp:146-168 | Stop waits as long as asked, a second at most, and not at all once a wait has run out |
| `ConstructionVerdicts.StopAnswers` | RedXe/ConstructionWorkQueue.cpp:168-198 | which answer a wait gets, which waits count, and the lane after a join |
| `ConstructionGuarantees.BoundedBypass` | RedXe/ConstructionWorkQueue.cpp:89-98 | a queued job is selected after at most Capacity - 1 selections of others |
| `ConstructionGuarantees.RestHasDeliveredAll` | RedXe/ConstructionWorkQueue.cpp:126-144 | without Stop, a lane at rest has delivered every accepted job exactly once |
| `ConstructionGuarantees.RunsToRest` | RedXe/ConstructionWorkQueue.cpp:60-144 | left alone the lane takes a bounded number of steps |
| `ConstructionGuarantees.StepUntilRest` | RedXe/ConstructionWorkQueue.cpp:60-144 | no deadlock: a thread can step until the lane is at rest, or, stopped, until its thread has run out |
| `ConstructionGuarantees.LeftAloneItRests` | RedXe/ConstructionWorkQueue.cpp:60-178 | every run of the lane left alone is bounded and ends at rest, or, stopped, with its thread run out |
| `ConstructionGuarantees.JobsAreDelivered` | RedXe/ConstructionWorkQueue.cpp:35-144 | every job accepted by a lane never stopped and then left alone has been delivered exactly once by the end of every run that cannot be extended |
| `ConstructionProtocol.StepKeepsInv` | RedXe/ConstructionWorkQueue.cpp:35-198 | every step keeps slots, signals (no lost wake-up or completion), threads, waits, verdicts and the conservation of jobs |
| `ConstructionLanes.SuccessIsInTime` | RedXe/ConstructionWorkQueue.cpp:104-110 | no success is published after the budget |
| `ConstructionLanes.SelectCases` | RedXe/ConstructionWorkQueue.cpp:89-98 | the nearest Queued slot behind the last, or none |
| `ConstructionLanes.ConstructionWorkQueue.Enqueue` | RedXe/ConstructionWorkQueue.cpp:35-58 | the new lane and the five answers, refused while stopping |
| `ConstructionLanes.ConstructionWorkQueue.Select` | RedXe/ConstructionWorkQueue.cpp:89-98 | the locked selection in place |
| `ConstructionLanes.ConstructionWorkQueue.Publish` | RedXe/ConstructionWorkQueue.cpp:112-119 | completion is flagged and notified only while no stop is signalled |
| `ConstructionLanes.ConstructionWorkQueue.Sweep` | RedXe/ConstructionWorkQueue.cpp:130-141 | Complete slots move out in order |
| `ConstructionLanes.ConstructionWorkQueue.Discard` | RedXe/ConstructionWorkQueue.cpp:151-166 | all but the Running slot move out; whether one is running |
| `ConstructionLanes.ConstructionWorkQueue.Reset` | RedXe/ConstructionWorkQueue.cpp:188-198 | the lane as it was constructed |
| `HeldInputGuarantees.HoldsAreConservedAndTimed` | RedXe/HostActions.cpp:191-286 | in every run, whatever the system answers: holds begun = released + abandoned + (1 if held) per kind, at most 40 failed attempts each, the timer armed for the earliest due time exactly while something is held under a window, and what is down is tracked or accounted to an abandoned hold or an interrupted injection |
| `HeldInputGuarantees.NothingStaysPressedUntracked` | RedXe/HostActions.cpp:159-304 | in every run whose batches are taken, what is down belongs to a tracked hold, and ReleaseHeld leaves nothing down |
| `HeldInputGuarantees.LeaksHaveACause` | RedXe/HostActions.cpp:100-286 | of every operation, timer, expiry, closing window and shutdown included: an input is left down untracked only by abandoning a hold or by a keys.press cut short inside a chord |
| `HeldInputGuarantees.UntrackedInputsHaveACause` | RedXe/HostActions.cpp:100-304 | the same over runs: an input down that no tracked hold accounts for means a hold was abandoned, or some keys.press of the run was cut short inside a chord |
| `HeldInputGuarantees.PressLeaves` | RedXe/HostActions.cpp:293-304 | for every state, all chords and any batches taken: keys.press leaves newly down exactly the part of the one chord its last taken batch cuts off, nothing when it ends between chords |
| `HeldInputGuarantees.RefusedPress` | RedXe/HostActions.cpp:293-304 | a refused keys.press leaves nothing new down if and only if what its last batch cuts off was down before; it cuts nothing off if and only if that batch ends between two chords |
| `HeldInputGuarantees.RefusedPressLeavesModifiers` | RedXe/HostActions.cpp:293-304 | four chords of five keys with the second batch refused: Ctrl and Shift stay down, untracked, and shutdown does not lift them |
| `HeldInputGuarantees.TrackedUpLiftsOnlyItsHold` | RedXe/HostActions.cpp:866-907 | keys.up of a tracked hold lifts only that hold; after its deadline released it, it injects nothing and answers S_FALSE |
| `HeldInputGuarantees.OtherUpIsStandAlone` | RedXe/HostActions.cpp:866-907 | any other keys.up injects exactly its own chord and leaves the hold alone |
| `HeldInputGuarantees.ExpiredHoldIsReleasedOnce` | RedXe/HostActions.cpp:274-286 | from the operation that expires a held chord, over any run without a keys.down or shutdown: the hold counts as released once and stays as it is, and its own keys.up, however much later, injects nothing and answers S_FALSE |
| `HeldInputGuarantees.OwnUpInjectsNothing` | RedXe/HostActions.cpp:881-887 | an own keys.up performed after an expiry, in the same execution or a later one, changes nothing but the mark |
| `HeldInputGuarantees.TrackedUpLiftsOnlyItsButton` | RedXe/HostActions.cpp:805-829 | mouse.up of a tracked button lifts only that button; after its deadline released it, it injects nothing and answers S_FALSE |
| `HeldInputGuarantees.OtherButtonUpIsStandAlone` | RedXe/HostActions.cpp:805-850 | any other mouse.up injects exactly its own button and leaves the hold alone |
| `HeldInputGuarantees.ExpiredButtonIsReleasedOnce` | RedXe/HostActions.cpp:274-286 | the same as for a chord: an expired button is released once, and its own mouse.up injects nothing over any run without a mouse.down or shutdown |
| `HeldInputDesktop.TypedTextReachesTheDesktop` | RedXe/HostActions.cpp:306-337 | keys.type hands the desktop its own code units, each pressed and released, in order: all of them unless a call is refused, then those of the whole buffers before it |
| `HeldInputDesktop.ChordSpelled` | RedXe/HostActions.cpp:159-189 | the records of a chord one by one: Ctrl, Shift, Alt, Win and the key down, the key first on the way up, each with its virtual key |
| `HeldInputDesktop.PressReaches` | RedXe/HostActions.cpp:293-304 | keys.press hands over the records of its presses, as many calls of 32 as are taken |
| `HeldInputDesktop.PressSpelled` | RedXe/HostActions.cpp:293-304 | among the records of several presses each chord has its own downs and then its own ups |
| `HeldInputDesktop.TapsAndClicksReach` | RedXe/HostActions.cpp:339-345 | a tap, or each click, is one press and release of its own key or button |
| `HeldInputDesktop.InjectionReaches` | RedXe/HostActions.cpp:100-132 | 32 records a call in order until a call is refused; without device access they are only counted |
| `HeldInputDesktop.ChordAttempt` | RedXe/HostActions.cpp:222-259 | a taken release attempt ends the hold; a refused one is due again 250 ms later, up to the 40th, which abandons it |
| `HeldInputDesktop.ButtonAttempt` | RedXe/HostActions.cpp:222-272 | the same for the button |
| `HeldInputDesktop.DownPressesAndHolds` | RedXe/HostActions.cpp:866-907 | keys.down lifts the chord held before, presses its own, and holds it, due 2000 ms after the press |
| `HeldInputDesktop.ButtonDownPressesAndHolds` | RedXe/HostActions.cpp:805-850 | the same for mouse.down |
| `HeldInputDesktop.RefusedDownHoldsNothingNew` | RedXe/HostActions.cpp:888-907 | over a hold whose release is refused nothing is pressed, and a refused press begins no hold |
| `HeldInputDesktop.RefusedButtonDownHoldsNothingNew` | RedXe/HostActions.cpp:831-850 | the same for mouse.down |
| `HeldInputDesktop.HoldLastsTwoSeconds` | RedXe/HostActions.cpp:210-286 | over any run, no expiry before 2000 ms past the press releases a held chord, and the first at or past them does |
| `HeldInputDesktop.ButtonLastsTwoSeconds` | RedXe/HostActions.cpp:210-286 | the same for the button |
| `HeldInputDesktop.TimerFiresFirst` | RedXe/HostActions.cpp:191-208 | in every run the timer fires at the first due time of what is held, or a millisecond after arming when that has passed |
| `HeldInputDesktop.DownIsWhatWasTaken` | RedXe/HostActions.cpp:100-132 | over every run what is down is what the records taken so far leave down, in order |
| `HeldInputDesktop.ShutdownForgets` | RedXe/HostActions.cpp:1171-1179 | after shutdown nothing is held, marked expired or timed |
| `HeldInputDesktop.WithoutAccessNothingIsSent` | RedXe/HostActions.cpp:100-114 | without device access an action sends nothing |
| `HeldInputDesktop.HoldsWithoutAccessSendNothing` | RedXe/HostActions.cpp:210-272 | a hold begun without device access sends neither press nor release |
| `HeldInputDesktop.UnparsedDoesNothing` | RedXe/HostActions.cpp:1205-1232 | an action that does not parse does nothing beyond the expiry before it |
| `InputRecords.ChordEffect` | RedXe/HostActions.cpp:159-189 | a chord sent whole adds exactly its keys, its release removes exactly them |
| `InputRecords.InterruptedPress` | RedXe/HostActions.cpp:293-304 | any chords cut after any number of records leave down exactly the downs, or the ups to come, of the chord the cut falls into |
| `InputRecords.PartPressedEmpty` | RedXe/HostActions.cpp:159-189 | a chord cut short leaves something down, except just before the last up of a chord whose last modifier is its main key, such as Ctrl+Ctrl |
| `InputRecords.EvenCutIsBetween` | RedXe/HostActions.cpp:100-132 | an even number of records, as whole batches always are, cuts nothing off if and only if it ends between two chords |
| `HostActionsEngine.HostActions.Inject` | RedXe/HostActions.cpp:100-132 | batches of 32: sent until one is refused; what is down and what leaked |
| `HostActionsEngine.HostActions.FillChord` | RedXe/HostActions.cpp:159-189 | modifiers then key down, key then modifiers up, in buffer order |
| `HostActionsEngine.HostActions.ArmHeldTimer` | RedXe/HostActions.cpp:191-208 | the timer for the earliest due time, or none |
| `HostActionsEngine.HostActions.SettleRelease` | RedXe/HostActions.cpp:222-247 | a refused release is retried later until its 40th refusal, then abandoned; a taken one ends the hold |
| `HostActionsEngine.HostActions.ReleaseChord` | RedXe/HostActions.cpp:250-259 | one attempt to lift the held chord |
| `HostActionsEngine.HostActions.ReleaseMouse` | RedXe/HostActions.cpp:261-272 | one attempt to lift the held button |
| `HostActionsEngine.HostActions.ExpireHeld` | RedXe/HostActions.cpp:274-286 | releases what is due, then arms the timer for the rest |
| `HostActionsEngine.HostActions.PressChords` | RedXe/HostActions.cpp:293-304 | every chord pressed and released in turn |
| `HostActionsEngine.HostActions.TypeText` | RedXe/HostActions.cpp:306-337 | one press and release a unit, in full buffers, stopping at the first refused one |
| `HostActionsEngine.HostActions.ClickButton` | RedXe/HostActions.cpp:780-803 | clicks as press and release pairs |
| `HostActionsEngine.HostActions.SendChord` | RedXe/HostActions.cpp:895-906 | a press that was taken begins a hold; a stand-alone release begins none |
| `HostActionsEngine.HostActions.HoldChord` | RedXe/HostActions.cpp:866-907 | keys.down and keys.up: own release, expired release, replacement of a held chord first, stand-alone release |
| `HostActionsEngine.HostActions.HoldButton` | RedXe/HostActions.cpp:805-850 | mouse.down and mouse.up in the same cases |
| `HostActionsEngine.HostActions.SetHostWindow` | RedXe/HostActions.cpp:1072-1088 | a closing window makes the last attempt; the timer moves with the window |
| `HostActionsEngine.HostActions.ReleaseHeld` | RedXe/HostActions.cpp:1171-1179 | shutdown releases both kinds and forgets them |
| `HostActionsEngine.HostActions.Execute` | RedXe/HostActions.cpp:1205-1232 | expiry first, then the action |
| `Layout.TilesPartitionCanvas` | RedXe/DashboardHost.cpp:152-182 | the tiles of any page of well-formed splits, each folded from its own path, contain each pixel of the canvas exactly once and nothing outside, at every size |
| `Layout.StepTakesItsShare` | RedXe/DashboardHost.cpp:159-180 | for every path and step: the side a step does not split is unchanged, which side that is follows from axis and orientation, and both edges of the other lie where its ratio says, rounded down |
| `Layout.StepsBegin` | RedXe/DashboardHost.cpp:154-165 | no steps give the whole canvas, an improper step the empty rectangle |
| `Layout.PathsFollowTheSplit` | RedXe/SettingsV4.cpp:1523-1617 | the first step of each tile of a split has the axis of the split, the weights before its item, its weight and their total; the others are those of a tile inside the item |
| `Layout.TurningTransposes` | RedXe/DashboardHost.cpp:152-182 | swapping unequal width and height transposes every tile |
| `Layout.TreeCovers` | RedXe/DashboardHost.cpp:152-182 | inside any bounds each pixel lies in exactly one leaf of a well-formed tree |
| `Layout.ToAdaptivePixelBounds` | RedXe/DashboardHost.cpp:152-182 | the loop computes the fold of the path; an improper step gives the empty rectangle |
| `GridLayout.EdgeIsNearest` | RedXe/DashboardHost.cpp:135-139 | a grid edge is the pixel nearest its exact position, halves up |
| `GridLayout.TilesFollowTheGrid` | RedXe/DashboardHost.cpp:141-150 | the pixels of a placement are exactly the pixels of the cells it covers |
| `GridLayout.GridPartitionsCanvas` | RedXe/DashboardHost.cpp:135-150 | placements that cover each cell once tile the canvas exactly |
| `DockGeometry.TrimSetsDepth` | RedXe/DockPlacement.h:229-251 | trimming sets the depth, keeps the outer edge and the span, forgets the old depth |
| `DockGeometry.CollapsedWindowIsTheReservation` | RedXe/DockPlacement.h:342-349 | the bar grown from a reserved strip collapses to exactly that strip |
| `DockGeometry.RoundTripsExactlyFrom96` | RedXe/DockPlacement.h:123-127 | pixels give back the DIPs of every thickness in the settings range if and only if the DPI is at least 96 (or 0, which stands for it) |
| `DockGeometry.HalfDpiLosesThickness` | RedXe/DockPlacement.h:123-127 | at DPI 48, 33 DIPs are 17 pixels and come back as 34 |
| `DockGeometry.UnmovedDragKeepsThickness` | RedXe/DockPlacement.h:631-659 | a drag left on the inner edge of the placed bar gives the placed DIPs back, from DPI 96 on and without a half-monitor clamp |
| `DockGeometry.DragForgetsItsPath` | RedXe/Application.cpp:2642-2653 | the dragged thickness depends on the pointer alone, not on the previews shown before |
| `DockGeometry.FirstRunFits` | RedXe/DockPlacement.h:149-161 | first-run DIPs rescale to at most the measured pixels unless the 32-DIP minimum forced them up, and are clamped exactly where 32 DIPs exceed half of the monitor |
| `DockGeometry.FirstRunKeepsProportions` | RedXe/DockPlacement.h:149-161 | unclamped, the measured bar has 2560:720 proportions to the nearest pixel, and its DIPs are the most that fit |
| `DockGeometry.PixelsAreNearest` | RedXe/DockPlacement.h:123-127 | DIPs scale to the nearest pixel, at least one |
| `DockGeometry.HalfStaysFree` | RedXe/DockPlacement.h:129-138 | at least half of the monitor stays free, and a bar of at most half is not clamped |
| `DockGeometry.DragIsNearest` | RedXe/DockPlacement.h:631-659 | a dragged thickness is between 32 and 1080 DIPs and the nearest to the distance of the pointer from the outer edge |
| `DockAppBarGuarantees.RecordAgreesWithShell` | RedXe/Application.cpp:1922-1977 | over every run, Explorer restarting between any two messages included: outside the gap between a restart and its TaskbarCreated, record and shell agree on registration and committed rectangle, none for an overlay |
| `DockAppBarGuarantees.RenewalEndsGap` | RedXe/Application.cpp:1955-1977 | TaskbarCreated ends the gap in agreement, whatever it began with, unless Explorer restarts once more |
| `DockAppBarGuarantees.MessagesAreLegal` | RedXe/Application.cpp:2071-2103 | every message of a step sent outside the gap is legal when the shell gets it: no second registration, no position without a query, nothing for an unknown bar |
| `DockAppBarGuarantees.RunsSendLegalMessages` | RedXe/Application.cpp:1955-2103 | over every run, with Explorer restarts between any two messages, each message ever sent outside the gap was legal |
| `DockAppBarGuarantees.PlacementHolds` | RedXe/Application.cpp:2083-2096 | a placement neither refused nor crossed by an Explorer restart holds exactly the reservation asked for; the position set is the answer to the query at the reservation depth |
| `DockAppBarGuarantees.SilentExactly` | RedXe/DockPlacement.h:389-414 | a placement sends nothing exactly when it wants what is held and nothing marked it stale |
| `DockAppBarGuarantees.RepeatSendsNothing` | RedXe/DockPlacement.h:380-388 | an accepted placement repeated with unchanged inputs and no stale mark sends nothing |
| `DockAppBarGuarantees.ReportedMoveReservesAgain` | RedXe/Application.cpp:6561-6565 | a move reported while a reserving pass waits is kept, and the next pass queries and sets again |
| `DockAppBarGuarantees.StripIsTheCollapsedBar` | RedXe/Application.cpp:2115-2128 | the strip the shell holds is the collapsed window, when the shell keeps the depth |
| `DockAppBarGuarantees.WantedIsTheRestingBar` | RedXe/DockPlacement.h:308-340 | what is proposed is, against the monitor edge, the resting window: strip, whole bar, or nothing for a fixed overlay |
| `DockAppBarGuarantees.FullRectSpelled` | RedXe/Application.cpp:2115-2118 | the full bar has its thickness, from the outer edge of what the shell holds or of the work area |
| `DockAppBarGuarantees.RemovalForgets` | RedXe/Application.cpp:1941-1953 | a removal tells the shell exactly when registered and forgets record and stale mark |
| `DockAppBars.DockAppBar.Plan` | RedXe/DockPlacement.h:389-414 | the plan built in place |
| `DockAppBars.DockAppBar.Register` | RedXe/Application.cpp:1922-1939 | ABM_NEW when unregistered, from an empty record |
| `DockAppBars.DockAppBar.Unregister` | RedXe/Application.cpp:1941-1953 | ABM_REMOVE when registered; record and stale mark are forgotten |
| `DockAppBars.DockAppBar.SendAll` | RedXe/Application.cpp:2071-2103 | the loop over the plan with its registration guards |
| `DockAppBars.DockAppBar.Pass` | RedXe/Application.cpp:2057-2103 | the whole registration part of a pass, with moves reported while it waits |
| `DockAppBars.DockAppBar.Renew` | RedXe/Application.cpp:1955-1977 | TaskbarCreated: remove, register, place |
| `DockPasses.DockPlacement.PlaceDock` | RedXe/Application.cpp:2005-2023 | for any requests heard inside passes: at most three passes, the faithful ones, ending not placing |
| `DockPasses.DockPlacement.Begin` | RedXe/DockPlacement.h:706-717 | the first request places, a later one is recorded |
| `DockPasses.DockPlacement.NextPass` | RedXe/DockPlacement.h:719-733 | one more pass for recorded requests while extra passes are left, else the end |
| `DockPasses.RecordedRequestIsFollowed` | RedXe/DockPlacement.h:682-733 | a request recorded with an extra pass left is followed by a pass that resizes if it asked to |
| `DockPasses.ResizesAreAskedFor` | RedXe/DockPlacement.h:719-733 | no pass resizes unless a request asked |
| `DockPasses.PassesAreDetermined` | RedXe/DockPlacement.h:693-733 | that contract determines the passes |
| `DockRevealGuarantees.TimerAndWindowFollow` | RedXe/Application.cpp:2732-2918 | after every step of every run: timer armed exactly in the pending states; without a slide the window is the clamped peek in the strip states and the full bar otherwise; never outside that range |
| `DockRevealWaits.TimerAndWindowFollowThroughWaits` | RedXe/Application.cpp:2005-2156 | the same timer and window over runs in which events, actions, late timers and lost captures come while a pass waits in the shell and further passes are recorded: whenever neither a slide runs nor a pass waits |
| `DockRevealWaits.SlideOutlivesPass` | RedXe/Application.cpp:2025-2136 | a slide started while a pass waits survives it and ends at the size the reveal state asks of the bar just placed |
| `DockRevealWaits.QuietPassPlaces` | RedXe/Application.cpp:2025-2136 | a pass in which nothing happens is the atomic placement |
| `DockRevealGuarantees.StepKeepsInv` | RedXe/Application.cpp:2732-2918 | events, evaluations, timer messages, frames, settling, placements, fixed/autohide switches and drags keep it |
| `DockRevealGuarantees.TimerKeepsInv` | RedXe/Application.cpp:6608-6614 | a timer message, even a late one, leaves no delay running |
| `DockRevealGuarantees.NoJump` | RedXe/Application.cpp:2789-2819 | starting or reversing a slide keeps the window where it is |
| `DockRevealGuarantees.SlideTakesItsShare` | RedXe/DockPlacement.h:450-463 | a slide takes its share of the animation, never more than it, and exactly it for a full travel |
| `DockRevealGuarantees.EvaluationDecides` | RedXe/Application.cpp:2753-2769 | after an evaluation a bar that is out stays exactly while something holds it; evaluating twice changes nothing |
| `DockDecisions.EvaluationSpelled` | RedXe/Application.cpp:2753-2769 | the whole outcome of an evaluation by the single holds, the pin, the slide and the delay |
| `DockDecisions.ReloadDecides` | RedXe/Application.cpp:2210-2227 | a reload to fixed reveals for good; one to autohide places the bar and then keeps it out, goes on counting down, or starts the new hide delay, by what holds it |
| `DockDecisions.DragEndDecides` | RedXe/Application.cpp:2682-2712 | the end of a drag places the bar and decides the same way |
| `DockDecisions.DragBeginHolds` | RedXe/Application.cpp:2575-2610 | the start of a drag ends slide, countdown and pin and keeps the bar out |
| `DockDecisions.ActionsSpelled` | RedXe/Application.cpp:2732-2751 | what the actions do to state and pin, and exactly what refuses a hide |
| `DockDecisions.DelaysSpelled` | RedXe/Application.cpp:6608-6614 | where the two delays lead, and what starts and ends the dwell |
| `DockDecisions.SlidesExactly` | RedXe/Application.cpp:2789-2819 | a change slides exactly when frames are presented, an animation is set and the window has some way to go |
| `DockDecisions.FramesShow` | RedXe/Application.cpp:2880-2907 | a frame shows its size within the bar, the end of a slide the size asked for |
| `DockDecisions.DragShows` | RedXe/Application.cpp:2612-2663 | a drag preview sets bar and window and nothing else |
| `DockRevealGuarantees.HeldBarStaysOut` | RedXe/DockPlacement.h:905-909 | while a capture, raise, dialog or screenshot lasts, no event hides a revealed bar over any run |
| `DockRevealGuarantees.AskedBarComesOut` | RedXe/DockPlacement.h:912-958 | a hidden bar asked for by touch, action, pin or a change to be seen comes out whatever holds it, to the full bar once its slide has ended |
| `DockRevealGuarantees.HiddenBarStaysIn` | RedXe/DockPlacement.h:912-958 | nothing else brings it out: over any run without such an event, a pointer on the strip or a switch to fixed, a hidden bar stays hidden and its window the strip |
| `DockRevealGuarantees.ShownBarStaysOut` | RedXe/Application.cpp:2738-2743 | a bar shown by an action stays until another hold appears |
| `DockRevealGuarantees.ShowingPins` | RedXe/Application.cpp:2738-2743 | showing with no hold pins the bar |
| `DockRevealGuarantees.LeftAloneItHides` | RedXe/Application.cpp:2753-2769 | once a hold came and went, the delay hides the bar down to the strip |
| `DockRevealGuarantees.DwellReveals` | RedXe/DockPlacement.h:926-931 | a pointer that stays for the dwell reveals the full bar; one that leaves restores the hidden bar |
| `DockReveals.Dock.SetVisiblePixels` | RedXe/Application.cpp:2834-2853 | the clamped size, placing the window unless a slide already shows it |
| `DockReveals.Dock.SettleSlide` | RedXe/Application.cpp:2909-2918 | a slide ends at the size the reveal state asks for |
| `DockReveals.Dock.TickSlide` | RedXe/Application.cpp:2880-2907 | one frame of a slide or its end |
| `DockReveals.Dock.ApplyRevealState` | RedXe/Application.cpp:2771-2820 | timer, state, and slide or one step |
| `DockReveals.Dock.OnEvent` | RedXe/Application.cpp:2732-2751 | the action pin, then the decision |
| `DockReveals.Dock.EvaluateHolds` | RedXe/Application.cpp:2753-2769 | the pin gives way, then the decision |
| `DockReveals.Dock.OnTimer` | RedXe/Application.cpp:6608-6614 | the timer is killed, then the delay it stood for has elapsed |
| `DockReveals.Dock.Place` | RedXe/Application.cpp:2025-2136 | the slide settles, the window takes the new size |
| `DockReveals.Dock.FinishPass` | RedXe/Application.cpp:2124-2130 | the end of a pass sizes the window by the reveal state of that moment |
| `DockReveals.Dock.ApplySettings` | RedXe/Application.cpp:2210-2227 | a switch to fixed kills the timer and reveals; place; evaluate when autohide |
| `DockReveals.Dock.BeginResize` | RedXe/Application.cpp:2575-2610 | the slide settles and the drag holds the bar |
| `DockReveals.Dock.EndResize` | RedXe/Application.cpp:2682-2712 | the dragged bar is placed and the holds evaluated |
| `SettingsWatchGuarantees.NoChangeIsLost` | RedXe/SettingsWatcher.cpp:80-136 | unless a post of the watcher failed, an unsettled change is covered: handle signalled, watcher on its way, message queued, reload deferred, or the UI about to read |
| `SettingsWatchGuarantees.LostExactlyWhenPostFails` | RedXe/SettingsWatcher.cpp:126-136 | a step uncovers a change exactly when the post fails with nothing else under way |
| `SettingsWatchGuarantees.FailedPostLosesChange` | RedXe/SettingsWatcher.cpp:132-135 | a reachable run in which a failed post leaves a change unread at rest |
| `SettingsWatchGuarantees.DeferredReloadIsReplayed` | RedXe/Application.cpp:5943-5955 | a deferred reload waits only for the end of a size loop or a restored window, unless its message could not be posted |
| `SettingsWatchGuarantees.EndOfDeferralPosts` | RedXe/Application.cpp:6501-6523 | ending the size loop or restoring the window posts it again |
| `SettingsWatchGuarantees.SizeLoopCoalesces` | RedXe/Application.cpp:5864-5871 | through a size loop the notice stays pending and the watcher posts no second one, however often the file changes |
| `SettingsWatchGuarantees.TakingSpelled` | RedXe/Application.cpp:5862-5872 | a message in a size loop defers and keeps the notice; outside one it clears the notice before the read |
| `SettingsWatchGuarantees.RestHasReadAll` | RedXe/Application.cpp:5862-5941 | at rest, neither minimized nor sizing, the UI thread has read the last version of the file and decided on it: applied, rejected, reported or unchanged |
| `SettingsWatchGuarantees.RunsToRest` | RedXe/SettingsWatcher.cpp:80-124 | without new changes the two threads take boundedly many steps |
| `SettingsWatchGuarantees.StepUntilRest` | RedXe/SettingsWatcher.cpp:80-124 | no deadlock short of rest |
| `SettingsWatchGuarantees.ChangesAreSettled` | RedXe/Application.cpp:5862-5941 | with every post made and the window neither minimized nor sizing, a run of the two threads that cannot be extended has read and decided on the last version |
| `SettingsNotices.SettingsNotifier.Exchange` | RedXe/SettingsWatcher.cpp:128-131 | the flag is set, and the earlier one says whether to post |
| `SettingsNotices.SettingsNotifier.Send` | RedXe/SettingsWatcher.cpp:132-135 | a post queues a message; a failed one takes the flag back |
| `SettingsNotices.SettingsNotifier.OnSettingsChanged` | RedXe/Application.cpp:5862-5872 | deferred and unacknowledged in a size loop, else acknowledged and read |
| `SettingsNotices.SettingsNotifier.ReplayDeferredReload` | RedXe/Application.cpp:5943-5955 | a due replay posts and clears the deferral; a failed post keeps it |
| `SettingsNotices.SettingsNotifier.OnExitSizeMove` | RedXe/Application.cpp:6519-6523 | the loop ends, then the replay |
| `SettingsNotices.SettingsNotifier.OnSize` | RedXe/Application.cpp:6501-6509 | a replay unless minimized |
| `TextChunks.WriteToStandardError` | Common/FailureReports.h:47-66 | the writes are the text on a console, and elsewhere together exactly the UTF-8 conversion of the whole text; none empty, each within its buffer |
| `TextChunks.ToUtf8Cut` | Common/FailureReports.h:48-51 | conversion distributes over any cut that splits no surrogate pair |
| `TextChunks.ToUtf8Split` | Common/FailureReports.h:48-51 | a cut inside a pair, and only that, lengthens the conversion |
| `TextChunks.ChunkLength` | Common/FailureReports.h:87-95 | between 1 and 256 bytes, at a sequence boundary of well-formed text and within three bytes of the limit |
| `TextChunks.WriteUtf8ToStandardError` | Common/FailureReports.h:85-106 | to a console: the chunks are the text, and for well-formed text no chunk starts inside a sequence and the conversions together are the whole conversion |
| `TextChunks.ToUtf16Cut` | Common/FailureReports.h:85-106 | well-formed text cut at a boundary is two well-formed texts whose conversions concatenate |
| `TextChunks.ConversionRoundTrip` | Common/FailureReports.h:29-31 | text without unpaired surrogates converts to well-formed UTF-8 and back to itself |
| `TextChunks.PairedSpelled` | Common/TextInputValidation.h:24-32 | text is paired exactly when each unit D800 to DBFF has one of DC00 to DFFF after it and each of those one before it |
| `TextChunks.UnpairedIsReplaced` | Common/FailureReports.h:59-60 | a lone surrogate leaves as the three bytes of U+FFFD |
| `TextTransport.ScanText` | Common/TextInputValidation.h:14-33 | the scan accepts exactly text without NUL and without unpaired surrogates, and counts its lines |
| `TextTransport.CheckClauses` | Common/TextInputValidation.h:54-56 | the clauses all lie in the composition and never go back, though only neighbours are compared |
| `TextTransport.IsValidState` | Common/TextInputValidation.h:6-58 | the validator decides exactly the declarative validity |
| `TextTransport.EncodeTextState` | Common/DxUiTextTransport.h:9-61 | answer and structure for every input: DPI, bounds, saturation, flags, rectangles, validation |
| `TextTransport.DecodeTextState` | Common/DxUiTextTransport.h:62-88 | answer and document for every structure, an empty one on failure |
| `TextRoundTrip.RoundTrip` | Common/DxUiTextTransport.h:9-88 | whenever encoding succeeds, decoding returns exactly the encoded document |
| `TextRoundTrip.RestIsCarried` | Common/DxUiTextTransport.h:22-55 | at every DPI the bounds of an encoded structure are scaled coordinate by coordinate under their own flags, or zero; identities, mode flags and size are as given, unused buffer space is zero |
| `TextRoundTrip.NumbersAreCarried` | Common/DxUiTextTransport.h:20-39 | every index crosses as itself, a missing one as FFFFFFFF |
| `TextRoundTrip.RefusalsSayWhy` | Common/DxUiTextTransport.h:13-18 | when overflow is answered, and that a refusal leaves an empty, invalid structure |
| `TextRoundTrip.DecodingRefuses` | Common/DxUiTextTransport.h:62-88 | when each answer of decoding is given, and the empty document that goes with a refusal |
| `TextRoundTrip.NewlinesSpelled` | Common/TextInputValidation.h:20-21 | lines are counted by line feeds |
| `TextRoundTrip.EncodesExactlySound` | Common/DxUiTextTransport.h:9-61 | encoding succeeds if and only if the DPI is finite and positive, the identities are nonzero, the scaled bounds are finite and ordered and the document is sound, said without saturation or 32-bit indices, however the machine rounds |
| `TextRoundTrip.ScalingKeepsOrder` | Common/DxUiTextTransport.h:40-44 | under any monotone rounding ordered bounds stay ordered unless a coordinate overflows |
| `TextRoundTrip.ReencodesToItself` | Common/DxUiTextTransport.h:9-88 | encoding what a valid structure carries gives it back with unused buffer space cleared |
| `TextRoundTrip.CarriedIsSound` | Common/TextInputValidation.h:6-58 | a valid structure carries a sound document |

## Left out

- Starting a lane's thread can fail in the source; here a start succeeds, with an arbitrary apartment result.
- `ConstructionWorkQueue::Join`, the destructors and the message pumps inside the workers' waits are not modelled.
- The ring, the lanes and the notices are proved per thread lifetime; references are opaque numbers without reference counts.
- A lane's notification always reaches the UI thread's message queue: a notice dropped because no window is set or its post fails (`RedXe/PluginHost.cpp:1396-1411`) is outside the runs, and delivery then waits for the next notice.
- A refused batch is refused whole: partially accepted `SendInput` batches are outside the model, as are failing `SetTimer` calls.
- Parsing of chords, buttons, split trees and monitor selectors: the parsed values are the inputs of this model.
- ToAdaptivePixelBounds: the 32-bit wrap of a step's preceding plus size is not modelled, because the settings validation (RedXe/Settings.cpp:1806-1812) excludes it.
- The design-space float bounds of a grid placement (RedXe/DashboardHost.cpp:124-133) are left out; its pixel edges are modelled.
- MulDiv overflow and 32-bit coordinates in the dock geometry: all pixel values are unbounded integers.
- The all-or-nothing loops of `DashboardHost::Initialize` and `SetWidgetsVisible` add only easy members.
- TimerAndWindowFollow: its placements are atomic and succeed. TimerAndWindowFollowThroughWaits lets events come while a placement waits; a placement that finds no monitor, a refused `SetWindowPos`, and settings applied from inside a running placement are outside the runs of both.
- Slide easing is an arbitrary size between the slide's start and its end; the content offset and the drawing of a slide are left out.
- Full-screen yielding, z-order, dashboard resizing and hit testing of the dock are left out.
- NoChangeIsLost: waits succeed, a directory that cannot be watched is retried without bound, and stopping the watcher is left out; reading and applying a file is one step with an arbitrary verdict.
- WriteUtf8ToStandardError: writing raw bytes to a pipe is one call and is left out.
- The rounding and overflow of a scaled coordinate are a parameter of the text encoding: its results hold for every such function, and no particular floating-point format is modelled.
- Win32, COM, rendering and accessibility calls, the rest of `Application.cpp`, plugins and settings storage: foreign effects or plumbing over unseen components.
- Command lines, catalogues, colours, first-run edge and monitor choice: one-function facts.
