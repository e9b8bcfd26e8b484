# Pause interlock: a verified model

The visor injects mouse and keyboard input into a desktop, and a person at that
desktop can stop it. This project models the protocol between the two and proves what it
promises, for every input, every run and every interleaving.

- **The visor gate** (`GateModel`, `VisorGate`). `GateModel` has each gate operation of
  `src/automation.rs` as a function on a state; `VisorGate.Gate` is the object the source
  has, whose methods update fields in place and are proved equal to those functions.
  `GateInvariant`, `PauseLatch`, `DeferredQueue`, `Refusals`, `NewestWins`,
  `SeveralSessions`, `SessionCloses`, `ControlAccount`, `TrustClock`, `GraceWindow` and
  `RecordedDrive` hold the theorems about it: the inductive invariant, permanent
  cancellation, the pause latch, faithful admission, newest-wins for queues of any length,
  ownership of closes, every answer to a control, a trust clock that TCP traffic cannot wind,
  exactly what keeps a running gate alive, and where a recorded drive lies.
- **The injection protocol** (`Interleaving`, `BatchBound`, `TrustRace`, `KeyboardLoss`,
  `RequestLog`). Request threads, the injection mutex and the gate as interleaved atomic
  steps; the bound on what can still reach the desktop after a pause, a stop or the loss of
  the keyboard, and on what can still start once the companion has gone silent; and what
  the desktop's log says of each request.
- **The release guard** (`HeldInput`, `ReleaseGuard`, `PlanCoverage`, `TypedText`). What a
  request may leave pressed, over any keymap and sends that fail after any part, with the
  exact condition on its plan; and what a program sees of typed text.
- **Input planning** (`Keystrokes`, `DragPath`). Chunks of keystrokes and interpolated drags.
- **The companion** (`CompanionModel`, `Companion`, `TwoParty`, `PauseMarks`,
  `FallbackModel`, `Fallback`, `DeferralLaw`, `AfterContinue`). The machine that pauses and
  resumes, its agreement with the gate over stale snapshots, exactly which snapshot a pause
  gives way to, and the pointer fallback with the exact law of its deferral.
- **Span redaction** (`Spans`, `RedactionModel`, `RedactionRules`, `Redaction`). The
  masking of secrets in prompt text, against a reading of the rules byte by byte.

`Basics` and `InputTypes` hold what they share. `dafny verify dfyconfig.toml` checks all of it.

Conventions. `Instant` and `Duration` are milliseconds on a clock that is an argument; a
gate call takes the caller's `now` and its own reading, `clock`. Sessions are numbers,
since only their equality matters. Counters are unbounded; the packing of the epoch into
62 bits of the published word is modelled, and where it matters the bound is stated.
Coordinates are integers; theorems that depend on the 32-bit range say so.

Two places where the code and what is written about it differ, and the code is followed:

- The release guard's comment says that no key or button is left down for a later request
  (`src/api.rs:1955-1957`). Releases are noted after a whole chunk, so a typed request
  with a key's up before its down leaves that key down: `PlanCoverage.ReleaseThenPressEscapes`.
  `PlanCoverage.TypedReleaseIsCompleteExactly` has the exact condition on a request, on
  keycodes: what a note lifts includes Shift for a shifted key, and another keysym's keycode
  where two share one (`PlanCoverage.SharedKeycodeIsLetGo`).
- The fallback's case table says that after Continue the button-up of that click is ignored
  (`companion/src/automation.rs:568`), and the track's comment that this is cleared on the
  next classification (`companion/src/automation.rs:544-546`). The ignored releases are
  dropped one by one, and only by samples judged against the baseline; a sample judged by
  its drive moves the baseline and keeps them. Letting go can then be reported:
  `AfterContinue.LettingGoCanReport`, with the exact condition in
  `AfterContinue.ContinueIsHonouredExactly`.

## Model

| member | source | states |
|---|---|---|
| `VisorGate.Gate.constructor` | src/automation.rs:218-241 | a new gate is off, without session, epoch 0, keyboard up, word 0, with a word of its own |
| `VisorGate.Gate.AdmissionScratch` | src/automation.rs:721-737 | the scratch copy: the fields a replay reads or a reset keeps, the rest default, and a fresh word, so that simulating on it cannot publish over the live gate |
| `VisorGate.Gate.Publish` | src/automation.rs:951-954 | the word is epoch and phase packed together |
| `VisorGate.Gate.Reset` | src/automation.rs:453-482 | the default gate under the next generation, keeping the counters, clocks, notice and keyboard latch |
| `VisorGate.Gate.Pause` | src/automation.rs:487-495 | from any phase: paused under a new epoch in one published word, and queued behind what is already deferred |
| `VisorGate.Gate.Stop` | src/automation.rs:749-758 | during a call only the epoch moves and a stop is queued; otherwise a reset |
| `VisorGate.Gate.ShutdownCancel` | src/automation.rs:499-506 | the epoch moves, the phase stays, a stop is queued during a call |
| `VisorGate.Gate.EnterRunning` | src/automation.rs:922-940 | session taken, drive dropped, one grace window only from another phase and only for the companion; the resume sequence moves every time, the epoch never |
| `VisorGate.Gate.ClearSession` | src/automation.rs:439-451 | only the owner's: a paused gate stays paused without owner under the next generation, any other phase resets |
| `VisorGate.Gate.SetKeyboardInterrupt` | src/automation.rs:318-345 | a level: the first loss during a call pauses, moves the epoch and queues one entry; a repeat pauses a running call without another entry |
| `VisorGate.Gate.BeginInject` | src/automation.rs:355-373 | refused after any epoch move or while paused; otherwise running for this session under the next injection sequence, arming the first trust window only |
| `VisorGate.Gate.ApplyDeferred` | src/automation.rs:840-904 | one queued control applied to the live phase, admission checked at the replay's clock |
| `VisorGate.Gate.ReplayQueued` | src/automation.rs:739-744 | the queue is taken, then applied oldest first, each entry on what the one before it left |
| `VisorGate.Gate.FinishInject` | src/automation.rs:385-390 | the call settles, the queue is replayed, the result is published |
| `VisorGate.Gate.NoteSessionClosed` | src/automation.rs:402-417 | only for the owner: queued with its generation during a call, otherwise a new epoch and a clear |
| `VisorGate.Gate.FinishClosedSession` | src/automation.rs:422-435 | queued again if the session still owns a live call, cleared otherwise |
| `VisorGate.Gate.NotePoll` | src/automation.rs:510-518 | an expired gap pauses and the poll is not stored; any other poll is trusted from now |
| `VisorGate.Gate.Watchdog` | src/automation.rs:523-530 | pauses a running gate whose trusted instant has expired and grants nothing |
| `VisorGate.Gate.ReentryIsStale` | src/automation.rs:701-716 | a TCP entry whose queued predecessors would not leave the gate running, without a fresh poll; reads this gate and changes nothing of it |
| `VisorGate.Gate.DeferControl` | src/automation.rs:636-692 | refusals come before the queue, everything accepted joins it |
| `VisorGate.Gate.Apply` | src/automation.rs:570-629 | every action from every phase: deferred during a call, refused without session or poll, no-op, reset or entry |
| `VisorGate.Gate.Store` | src/automation.rs:956-1000 | the drive sample, the session, the pointer and the phase after a recorded call |
| `VisorGate.Gate.RecordMouse` | src/automation.rs:760-789 | nothing from another generation or while paused; otherwise the sample of the operation, starting from the first known point |
| `VisorGate.Gate.RecordType` | src/automation.rs:791-817 | nothing from another generation or while paused; otherwise a sample at the last known point, marked when there is none |
| `VisorGate.Gate.ControlAutomation` | src/api.rs:414-466 | the control endpoint: 501 for wayland or a missing keyboard, pause for anyone, every lift of a pause for the companion only, else `apply` |
| `GateInvariant.UnpackPack` | src/automation.rs:243-260 | unpacking a packed word gives back the phase, and the epoch modulo 2^62, for every epoch |
| `GateInvariant.RoundTripExactly` | src/automation.rs:243-260 | the word carries epoch and phase faithfully exactly for epochs below 2^62 |
| `GateInvariant.NextKeepsInv` | src/automation.rs:171-214 | every critical section keeps the invariant: the word is the packed epoch and phase; off means no session and no drive; running has a session; a drive has a session and carries the current resume sequence; a queue exists only during a call, in strictly increasing numbers, with at most one keyboard entry; settled never passes the injection sequence |
| `GateInvariant.InitialInv` | src/automation.rs:218-241 | the invariant holds of a new gate |
| `GateInvariant.RunKeepsInv` | src/automation.rs:318-506 | the invariant holds after every run |
| `GateInvariant.FinishKeepsInv` | src/automation.rs:385-390 | an unwind ends the call, keeps the invariant, moves neither epoch nor last poll, and no generation or resume sequence backwards |
| `GateInvariant.ReplayConcat` | src/automation.rs:739-744 | replaying a queue in two parts is replaying it in one |
| `GateInvariant.RunMovesForward` | src/automation.rs:823-833 | over every run the epoch, generation, resume, injection and control counters only grow and a lost keyboard never comes back |
| `GateInvariant.EpochMovesExactly` | src/automation.rs:827-829 | the epoch moves by one in exactly the listed cases (accepted pause or stop, expired window, keyboard edge, close of the owner outside a call, shutdown) and in no other step, resumes and resets included |
| `GateInvariant.NumbersMoveExactly` | src/automation.rs:831-838 | what takes a control number: an accepted control, whatever pauses the gate or cancels a call, a close of the owner; nothing else |
| `GateInvariant.NumbersAreQueued` | src/automation.rs:835-838 | during a call exactly what takes a number joins the queue, last, under that number |
| `GateInvariant.CancellationIsPermanent` | src/api.rs:1872-1875 | once such a step has passed a captured epoch, that request is cancelled in every later state and can never arm, whatever resumes, starts and resets follow: no ABA below 2^62 |
| `GateInvariant.ArmingMeansUndisturbed` | src/automation.rs:355-358 | an injection arms only if no step between its capture and its arming moved the epoch, and never while paused |
| `GateInvariant.GenerationMovesExactly` | src/automation.rs:437-482 | the generation counts resets and session clears, each of them and nothing else, whether they come at once or in an unwind |
| `GateInvariant.ResetsMoveTheGeneration` | src/automation.rs:402-482 | a shutdown's reset, an accepted stop or a close of the owner outside a call, and the unwind of a call with a stop queued all move it |
| `GateInvariant.StaleDriveRecordsNothing` | src/automation.rs:819-821 | a drive captured before any of these records nothing after it, whatever starts and resumes lie between |
| `GateInvariant.DriveRecordsExactly` | src/automation.rs:760-821 | a captured drive records exactly if no step since its capture reset or cleared and the gate is not paused; otherwise the gate is unchanged |
| `RecordedDrive.PlanLands` | src/input.rs:363-424 | every request's plan begins with a move, a drag's to its origin, and leaves the pointer at the point it names last |
| `RecordedDrive.RecordNamesThePlansEnd` | src/api.rs:1919-1947 | an accepted record of any mouse request publishes the point where the desktop found the pointer, which is where its plan leaves it if the desktop did as asked or does not say; with its kind, origin, clickable, elapsed time and sequences |
| `RecordedDrive.PointIsKept` | src/automation.rs:956-1000 | over every run the last known point and the last time are those of the last record that no stop, close or reset has wiped since |
| `RecordedDrive.TypedLandsOnTheLastPoint` | src/automation.rs:791-817 | over every run a typed record lands where the desktop found the pointer, else on the last point recorded and not wiped, else is marked unknown |
| `RecordedDrive.DriveIsKept` | src/automation.rs:922-930 | over every run the drive on show is that of the last record, until a reset, a cleared session or an entry into running drops it; arming, pausing, polling and a lost keyboard keep it |
| `RecordedDrive.OffTargetExactlyOffThePlansEnd` | companion/src/automation.rs:609-619 | from plan to companion: a sample judged by the drive of a request is off it exactly if it has been shown for more than 150 ms and the pointer is more than 12 pixels from where the plan left it; nearer, only a new press reports |
| `RecordedDrive.DriveJudgesExactlyAfterAnEntry` | companion/src/automation.rs:381-399 | a drive recorded after i steps of the gate judges a sample behind a cutoff read after j steps exactly if its point is known and the gate entered running between the two |
| `PauseLatch.EveryPauseLatches` | src/automation.rs:487-495 | a pause by a user, the watchdog or a late poll latches the gate whatever is queued before it |
| `PauseLatch.TailReplaysPaused` | src/automation.rs:739-744 | a queue with a pause followed only by pauses, closes and keyboard entries replays to paused from any state |
| `PauseLatch.LatchSurvivesStep` | src/automation.rs:840-904 | no step but a companion control other than pause, or a shutdown, breaks the latch, the unwind of a live call included |
| `PauseLatch.LatchHolds` | src/automation.rs:487-495 | over whole runs: after any pause every later state is paused until the companion lifts it or a shutdown follows |
| `PauseLatch.TcpNeverLifts` | src/automation.rs:1003-1006 | no sequence of TCP controls other than pause is accepted by a paused gate or changes it |
| `DeferredQueue.ReplaysAgree` | src/automation.rs:719-744 | two gates that agree on session, phase, generation, keyboard and last poll replay a queue to the same phase and the same number of entries, at clocks that judge every queued window alike |
| `DeferredQueue.AdmissionSimulatesUnwind` | src/automation.rs:712-716 | the admission simulation on the scratch copy sees exactly the phase an unwind at that clock leaves, for every gate and queue |
| `DeferredQueue.UnwindAppended` | src/automation.rs:739-744 | an unwind with one more queued control is the old unwind's replay followed by that control |
| `DeferredQueue.AcceptedTcpEntryRuns` | src/automation.rs:694-707 | a TCP start or resume accepted during a call, unwound at that clock with nothing queued after it and the keyboard up, leaves the gate running |
| `Refusals.RunKeepsCallInv` | src/automation.rs:636-692 | in every run: nothing that pauses is queued behind a phase that is not paused, and every queued close names the live generation |
| `Refusals.ReplayTrails` | src/automation.rs:840-904 | such a queue replayed at two clocks: the later replay runs only where the earlier one does, both clear at the same entries, and until one clears both run for the same owner |
| `Refusals.RefusedEntryNeverRuns` | src/automation.rs:694-716 | a TCP start or resume refused during a call, for any windows in the queue and in the request: queued all the same, at any later unwind before a new poll, it could be struck out, whatever is queued after it; the unwind leaves the same phase, not running, and the same resume sequence |
| `Refusals.RefusedInAnyRun` | src/automation.rs:672-692 | the same at the end of every run of the gate from its start |
| `NewestWins.LastControlWins` | src/automation.rs:840-904 | over any queue at all, the last companion control posted during a call decides the phase after it |
| `NewestWins.NewestOfMany` | src/automation.rs:636-658 | the same after any number of companion controls in a row |
| `NewestWins.CompanionLifts` | src/api.rs:446-457 | a latched pause is lifted by the companion's start, resume or stop: at once outside a call, by the unwind inside one |
| `NewestWins.WithoutKeyboardReplayNeverRuns` | src/automation.rs:906-920 | without the keyboard no replay of any queue enters running |
| `NewestWins.KeyboardEdgeNeverRuns` | src/automation.rs:318-345 | if the keyboard goes missing during a call, nothing posted before or after it in that call leaves the gate running after the unwind |
| `NewestWins.UnwindSettles` | src/automation.rs:849-904 | every sequence, of any length, of companion controls and closes of the driving session: the phase and the owner after the unwind, exactly, told from the posts alone |
| `SeveralSessions.UnwindTells` | src/automation.rs:636-904 | every sequence, of any length and at any clocks, of controls by the companion and by TCP, flags up or down, with or without a session, naming any, of closes of any sessions and of losses of the keyboard during one call armed with or without it: the exact answer to each next control, and the phase and the owner after the unwind, told from the posts, the last stored poll and the keyboard alone |
| `SeveralSessions.LastStartOwns` | src/automation.rs:866-883 | the last start that may enter, by the companion or by a fresh poll, wins for its session over whatever came before it and closes of any others after it |
| `SeveralSessions.ClosedDriverIsGone` | src/automation.rs:849-858 | a session that has lost the gate does not come back unless a start or resume names it again, by anyone |
| `SeveralSessions.TcpAloneNeverRuns` | src/automation.rs:906-920 | no sequence of TCP controls and closes runs a call whose account is not running, without a poll that is fresh at the unwind |
| `ControlAccount.AnswersExactly` | src/api.rs:414-466 | every answer to one control outside a call, for every state and request, as an if-and-only-if: 501 for an entry without a desktop or keyboard whoever asks, 403 for anyone but the companion ending a pause, no session, a stale poll; and a control that is not accepted changes nothing |
| `ControlAccount.AcceptedLeavesExactly` | src/automation.rs:570-629 | what each accepted control leaves: phase, owner, drive, and the fields it never touches |
| `ControlAccount.AppliesExactly` | src/automation.rs:570-629 | the gate's own refusals, behind the endpoint: a start without a session, and a TCP start or resume of a stopped phase without a fresh poll |
| `ControlAccount.TcpEntersExactly` | src/automation.rs:580-600 | outside a call TCP makes a gate run that was not running exactly by a start that names a session, from off, with desktop and keyboard, behind a poll inside the window |
| `ControlAccount.ControlsSettle` | src/api.rs:414-466 | phase and owner after any number of controls by anyone outside a call, told from the posts and the last poll |
| `ControlAccount.TcpStartIsAcceptedExactly` | src/automation.rs:580-600 | over every run of a new gate that ends outside a call, a TCP start that names a session is accepted exactly if the gate runs, or is off with a stored poll of the run inside the window |
| `ControlAccount.ShutdownEndsTheCall` | src/automation.rs:499-506 | a shutdown shows first in the epoch alone; the unwind of a call under way leaves the gate off and unowned whatever was queued before |
| `ControlAccount.NoticeStands` | src/automation.rs:453-482 | over every run, resets included, the notice is the last one set |
| `SessionCloses.ForeignCloseIsNothing` | src/automation.rs:849-858 | a queued close that names another owner or generation than its turn finds can be struck from any queue |
| `SessionCloses.OwnerSurvivesCloses` | src/automation.rs:849-858 | any number of closes of other sessions leave the gate as it is |
| `SessionCloses.AdmittedStartSurvives` | src/automation.rs:419-435 | whatever was queued first, an admitted start survives closes of other sessions queued after it and their finish steps |
| `SessionCloses.ClosedNeverOwns` | src/api.rs:1649-1667 | whatever state and queue a call unwinds from: after the finish step the closed session is not the owner and does not run, and a gate it did not own is left as it was |
| `SessionCloses.ClosedSessionEndsUnowned` | src/api.rs:1649-1667 | for companion posts and closes of the driving session: after both steps nobody owns the gate and it does not run; the unwind alone leaves the session the owner exactly when later posts re-entered it |
| `SessionCloses.ReplayAloneIsNotEnough` | src/automation.rs:853-857 | stop, start, close: the replay skips the close, so the finish step is needed |
| `SessionCloses.FinishQueuesDuringACall` | src/automation.rs:422-430 | during a call the finish step queues the close again, just as the close does |
| `TrustClock.TrustKept` | src/automation.rs:510-518 | on a nondecreasing clock every step keeps the last poll no later than the trusted instant, and neither in the future |
| `TrustClock.FreshExactlyAfterAStoredPoll` | src/automation.rs:533-538 | over every run on a nondecreasing clock a poll is fresh exactly if one that the gate stored is less than the window old |
| `TrustClock.ExpiredGapHasNoFreshPoll` | src/automation.rs:942-949 | an expired gap leaves no fresh poll to re-enter by, and a fresh poll no stale re-entry |
| `TrustClock.SilenceGrantsNothing` | src/automation.rs:915-949 | without a companion poll, start or resume no step moves the last poll or a set trusted instant, and only TCP entries queue up |
| `TrustClock.SilenceFreezesTrust` | src/automation.rs:533-551 | the same over whole runs |
| `TrustClock.ExpiredForGood` | src/automation.rs:539-551 | once the window has expired and the gate is not running, no TCP traffic runs it again, at once or by replay |
| `TrustClock.TcpCannotKeepAlive` | src/automation.rs:520-530 | in every run with a silent companion a watchdog tick at or past trusted instant plus window leaves the gate not running, and nothing TCP does afterwards runs it |
| `GraceWindow.PausedExactlyWithoutAWindow` | src/automation.rs:508-530 | over every run on a nondecreasing clock, a tick or poll pauses a running gate exactly if no window is open: no stored poll, no companion entry into running from another phase (at once or in an unwind), no first arming or record, and no instant from before the run is less than the window old; told from the steps |
| `GraceWindow.TrustIsTold` | src/automation.rs:922-949 | the trusted instant is that of the last step that granted a window |
| `GraceWindow.StaleExactlyBehindAWindow` | src/automation.rs:543-551 | a request is refused as a stale re-entry exactly at off, once a window was granted and none is open |
| `GraceWindow.CompanionEntryRunsAWindow` | src/automation.rs:931-936 | the companion's own start or resume runs for a whole window, whatever follows it |
| `GraceWindow.FirstArmingRunsAWindow` | src/automation.rs:361-370 | and so does the first arming of a gate that never trusted anyone |
| `Interleaving.ProtocolStarts` | src/api.rs:2163-2238 | the protocol invariant holds of an idle visor |
| `Interleaving.ActKeepsInv` | src/api.rs:2187-2238 | every atomic step of any number of requests and controls, in any order, keeps it: at most one request past the mutex, the gate injecting exactly while that one is in its bracket and for its session, settled below the injection sequence exactly then, and a request past its checks still standing where they left it |
| `Interleaving.ActsKeepInv` | src/api.rs:2306-2344 | the same over every interleaving |
| `Interleaving.OutsideKeepsBracket` | src/automation.rs:347-435 | no step from outside a bracket opens or closes it or changes its session; on the phase it can only pause |
| `Interleaving.SameEpochSamePhase` | src/api.rs:2222-2226 | outside a bracket, a step that leaves the epoch alone never pauses the gate, and only a paused gate falls to off |
| `Interleaving.CheckKept` | src/api.rs:2222-2226 | every atomic step keeps the clause on the checks: as long as its epoch is current, a request past its stale check finds the gate not paused, and one that finds it off when it arms had found it off at that check |
| `BatchBound.NoNewBatch` | src/api.rs:2085-2098 | once cancelled, no step puts a new batch on its way: what is sent plus what is past its check never grows |
| `BatchBound.AtMostOneBatchAfterPause` | src/api.rs:1870-1875 | from a published pause until a companion control or shutdown, over every interleaving of any number of requests, the phase is paused and at most one more batch in total is sent: one short call, 16 pointer steps or 32 keystrokes |
| `BatchBound.TheOneBatchHappens` | src/api.rs:2322-2329 | the bound is tight: a batch past its check does go out after the pause |
| `BatchBound.TheBoundIsReached` | src/api.rs:2187-2231 | from an idle visor, for any session and short call: such a batch exists, and goes out after a pause by anyone |
| `BatchBound.PausedGateTurnsAway` | src/api.rs:2199-2201 | a request that comes to a paused gate never takes the injection mutex, unless it loads the word amid a replay |
| `BatchBound.AtMostOneOldBatch` | src/api.rs:2083-2105 | after anything that moves the epoch, the requests that captured an earlier epoch send at most one more batch between them, for ever, resumes and resets included |
| `BatchBound.BracketOnlyPauses` | src/api.rs:2144-2161 | between `begin_inject` and `end_inject`, without shutdown, every step leaves the gate injecting for the same session, never off, and paused once paused |
| `TrustRace.OneStepRaces` | src/api.rs:1880-1883 | with the stale check and the arming as separate acquisitions: once the window has expired, no step lets another request join the one that may still arm from off, and only that one starts the gate |
| `TrustRace.LateCheckIsRefused` | src/automation.rs:543-551 | a stale check made at off after the window has expired is refused |
| `TrustRace.AtMostOneLateStart` | src/api.rs:2222-2226 | over every interleaving with a silent companion the gate is started at most once more after the window has expired, and then only by the one request that had already passed its check |
| `TrustRace.LateTickEndsIt` | src/api.rs:2133-2142 | a watchdog tick ends whatever runs, for good unless that one request is still to arm |
| `TrustRace.LateStartExactly` | src/automation.rs:355-373 | from a gate that is late and not running, a run with a silent companion that starts it exists if and only if the one racing request's epoch is still current |
| `TrustRace.ALateStartHappens` | src/api.rs:1880-1883 | and it happens: from an idle visor and one poll, for any session, work and time past the window, the request walked to its arming in time starts the gate once, after a late tick that found nothing to end |
| `KeyboardLoss.OnlyPastTheCheckSend` | src/api.rs:2196-2198 | once the gate knows that the keyboard is not seen, over every interleaving and whatever is posted: no request passes its keyboard check, and only those that had passed it before send |
| `KeyboardLoss.AtMostOneBatchAfterLoss` | src/automation.rs:318-345 | a first report that finds the gate running or in a call: at most one more batch is sent, by all requests together and for ever, whatever is posted, resumed or spawned afterwards |
| `KeyboardLoss.LossAtOffBoundsNothing` | src/automation.rs:342-344 | a report at off bounds nothing: for every n, a request past its check arms after it and sends n batches |
| `RequestLog.RequestsDoNotMix` | src/api.rs:2187-2238 | over every interleaving: between a request's first batch and its release no other request sends or releases anything, a release is the last word of its request, and whatever an ended request sent is released after it |
| `RequestLog.EverySendIsPlanned` | src/api.rs:2083-2106 | from its arrival on a request sends its plan in order, without gaps and nothing twice; where it goes on to record it has sent all of it |
| `RequestLog.CancelledNeverRecords` | src/api.rs:2227-2229 | once the epoch has moved past a request that is not just recording, it never records, whatever follows |
| `RequestLog.RecordLandsUnlessPaused` | src/api.rs:2220-2233 | without shutdown a request that comes to its record finds the generation it captured, so the record lands exactly if the gate is not paused |
| `RequestLog.OutdatedNeverRecords` | src/automation.rs:819-821 | and after a reset of the gate a request still in its call records nothing, over every interleaving |
| `RequestLog.ResetOutdates` | src/automation.rs:453-482 | a shutdown makes every request in its call such a one |
| `RequestLog.BatchesAreReal` | src/api.rs:2318-2344 | no batch is empty: a request with nothing left to send goes on to finish |
| `HeldInput.ReleaseIsCompleteExactly` | src/api.rs:1955-2034 | at every cancel point and after every partly delivered send, whatever was down before and on every keymap: letting go of the guard's list lifts every keycode and button that the request pressed and left down, if and only if, for every chunk and every key it ends with down, some note left on the list after that chunk lifts the key |
| `HeldInput.BalancedIsCovered` | src/api.rs:2093-2104 | a plan whose releases follow their presses meets the condition however it is cut into chunks, whatever else is noted and whatever the keymap |
| `HeldInput.NewestGoes` | src/api.rs:1981-1987 | the note that a release drops is the newest of its key, and the others keep their order |
| `HeldInput.TapTouches` | src/desktop/x11.rs:452-485 | pressing a keysym touches exactly the keycodes that letting it go lifts, its own and Shift's for a shifted one, all in one direction |
| `HeldInput.LastPressHasTap` | src/desktop/x11.rs:452-485 | a key that a run of strokes ends with down was pressed by a stroke whose own release has not come since |
| `ReleaseGuard.Desktop.Send` | src/api.rs:2098-2098 | a send delivers all its events, or a prefix of them followed by releases of the sender's own, and fails |
| `ReleaseGuard.Guard.NoteRelease` | src/api.rs:1981-1987 | forgets the most recent note of one item and nothing else |
| `ReleaseGuard.Guard.NoteReleases` | src/api.rs:1990-2004 | the same for a run of items, in order |
| `ReleaseGuard.Guard.Release` | src/api.rs:2006-2034 | once, newest first: the desktop takes the release of every note on the list in that order; what any of them lifts is up afterwards, the keycode of a keysym and Shift's for a shifted one, and the rest of the desktop is untouched |
| `ReleaseGuard.KeyChunkIsHonest` | src/desktop/x11.rs:427-485 | for every keymap: each keycode a chunk presses, implicit Shift included, is lifted by a press noted for it, and each keycode that a noted release would lift has an event in the chunk; a chunk with a key the keymap lacks sends nothing |
| `ReleaseGuard.SendPlanned` | src/api.rs:2093-2104 | from any check of a plan: the next chunk, sent or failed after any part, leaves the list and the desktop at the next cut of that plan |
| `ReleaseGuard.TypeStrokes` | src/api.rs:2318-2340 | wherever the loop stops, the reported number is the keystroke count of exactly the chunks sent, and the guard's list and the desktop stand at the same cut of the plan |
| `ReleaseGuard.SendPointerSteps` | src/api.rs:2083-2106 | the same for batches of 16 pointer steps |
| `ReleaseGuard.TypeRequest` | src/api.rs:2315-2344 | a whole typed request, sent, cancelled at any check or failed in any send: the desktop took exactly what the cut of its plan says and then the releases of the list, and of a covered plan nothing it pressed is left down |
| `ReleaseGuard.PointerRequest` | src/api.rs:2226-2233 | the same for a stepped pointer request |
| `ReleaseGuard.OneCallRequest` | src/api.rs:2109-2131 | the same for a short mouse call, which notes its press before the call |
| `PlanCoverage.MatchedIsCovered` | src/api.rs:2318-2337 | every typed request in which each key-up follows a still-held down of its key is covered, for every keymap, length and cut |
| `PlanCoverage.TextIsCovered` | src/input.rs:449-460 | any text at all |
| `TypedText.TypedTextIsSeen` | src/desktop/x11.rs:452-485 | a text of keys on the keymap, typed from Shift up through any chunks: a program sees exactly its keys, in order, each with Shift exactly if the keymap asks for it, Shift is up afterwards, and after any number of chunks it has seen a beginning of the text |
| `PlanCoverage.DragIsCovered` | src/input.rs:363-424 | any accepted drag |
| `PlanCoverage.WheelIsCovered` | src/input.rs:245-261 | any request that presses no button, such as a scroll |
| `PlanCoverage.BalancedButtonsAreCovered` | src/api.rs:2083-2104 | any stepped pointer request in which each button comes up only after it went down |
| `PlanCoverage.ShortCallIsCovered` | src/api.rs:2116-2129 | any short mouse call |
| `PlanCoverage.TypedReleaseIsCompleteExactly` | src/api.rs:2318-2344 | every typed request on every keymap leaves nothing down, wherever it stops, if and only if its plan is covered |
| `PlanCoverage.ReleaseThenPressEscapes` | src/api.rs:2326-2334 | the request that lets a key go and then presses it leaves the key down exactly on the keymaps that have the key, but for one: a shifted key that shares the keycode of Shift itself |
| `PlanCoverage.SharedKeycodeIsLetGo` | src/desktop/x11.rs:24-37 | an upper-case key down, its lower-case key up and down again leaves nothing on a keymap that has both on one keycode: what the list still notes of the one lets go of the other |
| `Keystrokes.GroupsAreCanonical` | src/input.rs:263-271 | grouping into keystrokes loses no stroke and leaves no press beside its own release ungrouped |
| `Keystrokes.CanonicalIsGroups` | src/input.rs:263-271 | there is no other grouping like that |
| `Keystrokes.CutAtKeystroke` | src/input.rs:283-292 | a cut between keystrokes parts no pair, and both sides group as they did together |
| `Keystrokes.CountKeystrokes` | src/input.rs:273-281 | the counting loop returns the number of keystrokes |
| `Keystrokes.TakeKeystrokes` | src/input.rs:283-292 | the longest prefix of whole keystrokes within the limit; counts of prefix and rest add up to the whole |
| `Keystrokes.ChunksCover` | src/api.rs:2318-2337 | for every stroke list and every point the loop can stop at: a prefix, in chunks of at most 32 keystrokes, no pair parted, counts adding up; all of it at the end |
| `DragPath.AcceptedExactly` | src/input.rs:297-311 | a drag is accepted exactly up to a Chebyshev distance of 64 * 4096 |
| `DragPath.PathIsSound` | src/input.rs:339-361 | under truncating division every point lies in the box of the two ends, no step is longer than 64 pixels on an axis, the last point is the target, and the 32-bit clamp never fires |
| `DragPath.PathStaysOnRoot` | src/api.rs:1907-1917 | both ends on the root window means every point is |
| `DragPath.ProductsFit` | src/input.rs:348-349 | the products of the interpolation stay below 2^31 |
| `DragPath.PlanShape` | src/input.rs:391-424 | n+3 steps: one press before every waypoint, one release after the target |
| `DragPath.DragWaypoints.Next` | src/input.rs:342-351 | yields the next waypoint, and nothing once all are out |
| `DragPath.DragSteps.Next` | src/input.rs:394-423 | yields exactly the plan, one step a call, then nothing |
| `DragPath.Steps` | src/input.rs:365-379 | refused exactly for a span that is too long; otherwise an iterator at the start of its plan |
| `Companion.LiveMachine.constructor` | companion/src/automation.rs:182-194 | off, with a wait of at least one millisecond |
| `Companion.LiveMachine.EnterPaused` | companion/src/automation.rs:216-227 | only from another phase, under a new pause identity; the idle clock moves only with a given time |
| `Companion.LiveMachine.SeeVisor` | companion/src/automation.rs:237-273 | a running report lifts a local pause only with a newer resume sequence; a paused report that has not seen a local resume is ignored; off clears all |
| `Companion.LiveMachine.UserInput` | companion/src/automation.rs:277-291 | running pauses under the latest sequence as its mark, paused restarts the wait, off ignores it |
| `Companion.LiveMachine.AskToContinue` | companion/src/automation.rs:295-300 | the prompt opens only on a pause, and restarts the wait |
| `Companion.LiveMachine.ContinueNow` | companion/src/automation.rs:302-310 | resumes only from an open prompt on a pause, and holds that resume |
| `Companion.LiveMachine.Dismiss` | companion/src/automation.rs:312-317 | closes an open prompt and restarts the wait |
| `Companion.LiveMachine.NoteInstance` | companion/src/automation.rs:327-346 | a new visor process drops the old sequences; a local pause is kept, marked with the new sequence |
| `Companion.LiveMachine.NoteDisconnect` | companion/src/automation.rs:352-364 | an unconfirmed resume falls back to paused, a pause stays, running goes off |
| `Companion.LiveMachine.PollTimer` | companion/src/automation.rs:367-378 | resumes once the wait has passed since the last input |
| `Companion.LiveMachine.SettleLiveInput` | companion/src/automation.rs:81-96 | input judged against the phase on screen, then the snapshot, then the input again |
| `CompanionModel.AllKeepInv` | companion/src/automation.rs:157-179 | over every run: asking means paused, holding a resume means running |
| `CompanionModel.ResumesOnlyAfterQuiet` | companion/src/automation.rs:366-378 | over every run on a nondecreasing clock, through disconnects, prompts, stale snapshots and restarts, the timer resumes only if every physical input so far is at least the whole wait old |
| `CompanionModel.TimerResumesExactly` | companion/src/automation.rs:366-378 | over every run the timer resumes a pause exactly once the whole wait has passed since the last move that restarted it: input, an opened or dismissed prompt, a pause begun by a snapshot |
| `CompanionModel.ContinueResumesExactly` | companion/src/automation.rs:295-317 | Continue resumes exactly from a prompt that was opened on the pause that still stands and not dismissed |
| `CompanionModel.ResumeIsHeldExactly` | companion/src/automation.rs:243-273 | the machine holds a resume exactly from its own resume until a running, off or newer paused snapshot, input, a lost connection or another visor process |
| `CompanionModel.LostConnectionExactly` | companion/src/automation.rs:352-364 | a lost connection leaves a pause as it is, makes an unconfirmed resume a new pause with its wait running on, and anything else off |
| `CompanionModel.NewMachineWaits` | companion/src/automation.rs:182-194 | a new machine is off, and never resumes at the moment of an input, even with a wait of zero |
| `CompanionModel.LiveInputNeverEndsRunning` | companion/src/automation.rs:76-96 | with live input the machine never ends the frame running, and posts a pause if it was running before or would be by the snapshot |
| `CompanionModel.FramePausesExactly` | companion/src/automation.rs:76-96 | a frame posts a pause exactly if there was input and the machine ran on screen or runs by the snapshot; input while both sides are off posts nothing |
| `CompanionModel.LiveFrameIsMoves` | companion/src/automation.rs:81-96 | a frame with live input is the input, the snapshot and the input again, so every theorem on runs of moves covers it |
| `CompanionModel.AskNeedsTheSamePause` | companion/src/automation.rs:98-123 | a click opens Continue exactly if the machine was paused at every moment since the frame began; it pauses exactly what runs and opens the menu exactly when off |
| `TwoParty.ResumeSeqCountsEntries` | src/automation.rs:922-940 | over every run the resume sequence counts the entries into running, each of them and nothing else |
| `TwoParty.LiftNeedsANewEntry` | companion/src/automation.rs:246-255 | a running snapshot, however stale, lifts a marked pause exactly when the gate entered running after the snapshot that set the mark and before this one |
| `PauseMarks.PauseGivesWayExactly` | companion/src/automation.rs:233-346 | over whole runs of the companion, visor restarts included: a running snapshot from any moment lifts a pause, and a paused one undoes a resume in flight, exactly if the gate entered running before it and after both the moment the pause is marked by (the last reading before input, the paused snapshot, the new process's nonce) and every paused snapshot since |
| `PauseMarks.PersonsPauseIsLiftedExactly` | companion/src/automation.rs:277-291 | in particular, input on a running machine whose last snapshot or nonce was read after i steps of the gate: a running snapshot read after j steps lifts that pause exactly if the gate entered running between i and j |
| `PauseMarks.LastReadingIsKept` | companion/src/automation.rs:237-238 | the sequence the machine compares with is that of the last snapshot or changed nonce among its moves |
| `PauseMarks.RestartIsSeenExactly` | companion/src/automation.rs:327-346 | a nonce is reported as a restart exactly if it is not the first, nor the one before it |
| `TwoParty.PausedSnapshotTakenExactly` | companion/src/automation.rs:256-271 | a paused snapshot pauses every machine but one that holds a resume of its own, and that one exactly if the snapshot is newer than the pause it resumed from |
| `TwoParty.BothPartiesAgree` | companion/src/automation.rs:237-273 | once the gate has applied a pause, by a person, the watchdog or a late poll, every machine is paused from the first snapshot taken after it, one with a resume in flight exactly under that condition, and stays so through snapshots in any order, disconnects, restarts, prompts and input, until it resumes by itself |
| `Fallback.FallbackTrack.constructor` | companion/src/automation.rs:520-547 | the default track |
| `Fallback.FallbackTrack.SeeInstance` | companion/src/automation.rs:573-582 | a new visor process drops every mark of the old one |
| `Fallback.FallbackTrack.NoteIdle` | companion/src/automation.rs:627-637 | while off, movement is judged against the idle sample only, and a move becomes the new one |
| `Fallback.FallbackTrack.Rebaseline` | companion/src/automation.rs:642-648 | the pointer and buttons at Continue become the baseline; the held buttons' release is to be ignored |
| `Fallback.FallbackTrack.BaselineMoved` | companion/src/automation.rs:651-670 | the sample against the baseline, with ignored releases still counted as held |
| `Fallback.FallbackTrack.InjectionDeferred` | companion/src/automation.rs:697-724 | whether the sample waits, and the chain's budget after it |
| `Fallback.FallbackTrack.JudgeByDrive` | companion/src/automation.rs:609-619 | the sample against a usable drive: displacement over later polls, or a new press |
| `Fallback.FallbackTrack.Classify` | companion/src/automation.rs:572-620 | the whole case table on one sample |
| `FallbackModel.DeferralIsBounded` | companion/src/automation.rs:697-724 | along any chain of samples in one visor process with an injection outstanding throughout, all samples that wait lie within less than two seconds, however many sequences start |
| `FallbackModel.SpentNeverWaits` | companion/src/automation.rs:710-712 | a chain that has spent its budget never waits again |
| `DeferralLaw.WaitsExactly` | companion/src/automation.rs:697-724 | over every run of samples: one with an injection underway waits exactly if its sequence has not been shown settled and every such sample of its chain so far, itself included, is less than two seconds after the first of them |
| `DeferralLaw.OutstandingExactly` | companion/src/automation.rs:676-695 | an injection counts from its start until a drive with its sequence, or a settled sequence at least as high, is on the snapshot |
| `DeferralLaw.SettledIsKept` | companion/src/automation.rs:699-709 | the settled mark is the highest sequence shown with nothing underway, in this visor process and since automation was last off |
| `DeferralLaw.WaitingReportsNothing` | companion/src/automation.rs:594-597 | a waiting sample reports nothing; any other is judged by its drive or against the baseline |
| `FallbackModel.WaitingKeepsGround` | companion/src/automation.rs:594-597 | no number of waiting samples changes the baseline, the button mask or the ignored releases |
| `FallbackModel.FirstClassifiedSeesTheMove` | companion/src/automation.rs:598-608 | so after any wait the first sample classified without a usable drive reports a move of more than 12 pixels from where the pointer was before it |
| `FallbackModel.FirstSampleAfterOffIsTheBaseline` | companion/src/automation.rs:583-592 | after any samples and one taken off, the first sample judged without a usable drive is the baseline and reports nothing |
| `FallbackModel.OffSampleReportsExactly` | companion/src/automation.rs:627-637 | a sample taken off reports exactly a move of more than 12 pixels or a button change since the last one taken off that reported, or since the first of its visor process; the first reports nothing |
| `AfterContinue.ReportsAfterContinue` | companion/src/automation.rs:651-670 | after Continue and any samples at all, a sample judged against the baseline reports exactly a move off the spot, a press, a release that was not to be ignored, or an ignored one that only a drive has seen |
| `AfterContinue.OneSampleStands` | companion/src/automation.rs:572-620 | every case of the classification keeps to the same account of spot, buttons and ignored releases |
| `AfterContinue.ContinueIsHonouredExactly` | companion/src/automation.rs:639-648 | after Continue with buttons held and samples of one visor process that report nothing: the first report is a move or a press and never the release, if and only if no sample judged by its drive has seen one of those buttons up before one judged against the baseline has |
| `AfterContinue.HonouredWithoutDrives` | companion/src/automation.rs:598-608 | so it always is while there is no drive to be judged by |
| `AfterContinue.LettingGoCanReport` | companion/src/automation.rs:609-619 | and here it is not: the release seen while a drive is judged, then the drive dropped, and letting go reports with no move and no press |
| `FallbackModel.PausesExactlyWhenSeenAtThreePolls` | companion/src/automation.rs:438-461 | a mismatch pauses if and only if the same drive was seen at three polls with the pointer off it at every look since the first |
| `FallbackModel.DriveRunReports` | companion/src/automation.rs:609-619 | over a run of samples judged by their drive: a report is exactly that, or a button down since the sample before |
| `FallbackModel.ContinueStartsConfirmationOver` | companion/src/automation.rs:642-648 | after Continue a mismatch with a drive is confirmed anew: nothing seen before it counts |
| `FallbackModel.AnyButtonDiffers` | companion/src/automation.rs:472-484 | a button change is a change of any one of the five buttons, and of nothing else in the mask |
| `FallbackModel.AnyButtonPressed` | companion/src/automation.rs:416-419 | a new press is one of the five buttons that was up and is down |
| `Spans.MergeIsSound` | src/prompt.rs:754-766 | merging sorted spans: strictly separated, the same bytes as before, and no span torn apart |
| `Spans.Dedup` | src/prompt.rs:749-750 | the same spans, still sorted |
| `RedactionModel.RunEndsOnce` | src/prompt.rs:726-739 | a byte run's end is the one place where the run is maximal |
| `RedactionModel.FoundIsSecret` | src/prompt.rs:691-748 | what a rule finds at the positions of a text is exactly what it makes secret: a token after its prefix, or a value of four bytes or more assigned to its keyword |
| `RedactionModel.NoOverlap` | src/prompt.rs:712-714 | two occurrences of a word whose first byte does not come back in it cannot overlap |
| `RedactionModel.OneMatch` | src/prompt.rs:744-746 | so jumping past a match finds what stepping through it would |
| `RedactionRules.RulesHeadOnce` | src/prompt.rs:693-719 | all ten prefixes and keywords are such words |
| `Redaction.SkipRun` | src/prompt.rs:726-739 | the cursor loop stops at the run's end |
| `Redaction.PrefixSpans` | src/prompt.rs:693-716 | the search loop lists exactly the tokens of its prefix in the whole text |
| `Redaction.KeywordSpans` | src/prompt.rs:717-748 | the search loop lists exactly the values of its keyword, whatever its case |
| `Redaction.MergeSpans` | src/prompt.rs:754-766 | the loop that extends the last span in place computes the merge |
| `Redaction.SecretSpans` | src/prompt.rs:691-752 | for every text: separated spans that cover exactly the secret bytes, each secret inside one of them |
| `Redaction.Splice` | src/prompt.rs:677-688 | the splice loop masks exactly the bytes of separated spans; its guard never skips one |
| `Redaction.Redact` | src/prompt.rs:673-688 | the whole: every maximal stretch of secret bytes becomes one `***`, every other byte stays in its place, by a position-by-position reading that knows nothing of searching, sorting or merging |
| `VisorGate.Gate.BumpEpoch` | src/automation.rs:827-829 | the next epoch, and no other field |
| `VisorGate.Gate.Touch` | src/automation.rs:831-833 | the next control number, and no other field |
| `VisorGate.Gate.Defer` | src/automation.rs:835-838 | one entry at the end of the queue, under the current control number |
| `VisorGate.Gate.RunFor` | src/automation.rs:361-370 | running for this session; the first entry without a trusted instant arms one window, a later one moves none |
| `ReleaseGuard.Guard.constructor` | src/api.rs:1964-1971 | armed, with an empty list |
| `ReleaseGuard.Guard.NotePresses` | src/api.rs:1977-1980 | each press is one more note at the end of the list |
| `ReleaseGuard.SendChunk` | src/api.rs:2093-2104 | presses are noted before the send, releases only after a send that went through, so a failed send keeps every note |
| `Fallback.FallbackTrack.StartOver` | companion/src/automation.rs:586-590 | a default track that keeps the instance and the idle sample |
| `Fallback.FallbackTrack.AgainstBaseline` | companion/src/automation.rs:659-669 | a ready baseline: activity with ignored releases counted as held, then the new baseline |
| `DragPath.DragWaypoints.constructor` | src/input.rs:316-326 | the walk starts at its first point |
| `DragPath.DragSteps.constructor` | src/input.rs:365-379 | the iterator starts before the first step of its plan |
| `Redaction.TokenAfter` | src/prompt.rs:697-711 | the token after a prefix, if it is long enough |
| `Redaction.ValueAfter` | src/prompt.rs:726-743 | the value assigned after a keyword, if it is long enough |
| `Redaction.StepPastMatch` | src/prompt.rs:694-715 | after a jump past a match the list holds exactly what the positions so far yield |
| `Redaction.NoMoreMatches` | src/prompt.rs:696-715 | when nothing more is found it holds exactly the rule's secrets |
| `Keystrokes.Width` | src/input.rs:265-271 | a keystroke takes at least one stroke of a nonempty list and never more than there are |

## Left out

- HTTP, JSON, sockets, tokio tasks, credentials, X11 and Wayland calls, audio and frames: the desktop is a log and a set of held keys and buttons.
- MCP servers, vaults, profiles, trust, the orchestrator and the prompt door: other components.
- Cursor poses, sprites, menus, activity strings, command lines and scripts: no protocol.
- VisorGate.Gate.Store: does not model `distance_px`, the rounded floating-point distance of `distance`, which nothing decides on.
- Saturation and wrap-around of the 64-bit counters: unbounded here, except for the packed word.
- `keyboard_blocked` and the choice of session in the control endpoint are arbitrary inputs of a control, because the source reads them under earlier acquisitions of the gate lock (an injection request's own keyboard check is a step of `Interleaving`); so nothing here says that the gate never runs with the keyboard missing, or that a closed session is never the owner for an instant.
- `Desktop.Send` keeps events to keys and buttons; pointer moves and wheel ticks press nothing and are not in the guard's log. In `Interleaving` a batch is logged whole when its send fails half way, which only makes the bound stricter.
- ReleaseGuard.Guard.Release: assumes that each release reaches the desktop; the source ignores a failing one.
- The keymap is one for a request and its releases; the source reads it once for the chunks and again for each release. The X11 sender's own release after a failed send is modelled as letting go of anything at all.
- TrustClock.TcpCannotKeepAlive: judges a request's stale check at the clock of its arming, where the source makes it under an earlier acquisition; `TrustRace` has the two apart and proves what the gap allows.
- TrustClock.ExpiredForGood: judges the stale check at the clock of the arming as well.
- A gate call that reads the clock several times during one replay reads the same value each time here.
- Interleaving.ActKeepsInv: the words a replay publishes on its way are seen by requests that load without the mutex, with any phase and the replay's epoch; more than the source lets them see.
- `Interleaving` treats each lock acquisition and each load of the word as one atomic step and assumes no fairness of the locks; termination of a request is not claimed.
- `SampleAge`, `resume_cutoff`, `keyboard_report_due` and `displayed_visor_phase`: their results are inputs of the samples and snapshots here; each is a few lines with nothing to prove across them.
- `plan_type` and the tick limit of `scroll_steps`: easy; a typed request is any list of strokes, a scroll a move and any number of ticks.
- The fallback's subtraction in 32 bits (`companion/src/automation.rs:482`): coordinates are integers, as on a 16-bit root window.
- The literal replacement of the session key and its needles before the spans are cut (`src/prompt.rs:663-672`), and `has_pii`: `Redaction.Redact` starts from the text they leave. A `***` put in can make new text that matches, so redaction is stated by positions only.
- `str::find` and `sort_unstable` are the functions `Redaction.Find` and `Spans.Sort` with the library's meaning.
