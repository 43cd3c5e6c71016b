# OpenSwitcher input core: a Dafny model

OpenSwitcher corrects text typed in the wrong keyboard layout. Its daemon grabs the physical
keyboard, and one writer thread owns a virtual keyboard through which corrections are replayed.
This project models the parts of the daemon where an error would lose a reply, leave a key stuck or
type the wrong text, and proves what they promise. `dafny verify dfyconfig.toml` checks everything.

| file | part of the system |
|---|---|
| `Protocol.dfy`, `ProtocolProofs.dfy` | the writer's transaction controls as a state machine over gate-held sections, and what every run keeps |
| `WriterThreads.dfy` | the waiting caller, the worker's publications and the command loop, each with interference between its steps |
| `ManualCorrections.dfy` | the begin / publish / poll handshake of deferred manual corrections |
| `SyntheticOperation.dfy` | the key-down ledger behind every replay, and its cleanup |
| `Keys.dfy`, `Desktop.dfy`, `Replay.dfy`, `Corrections.dfy`, `CorrectionMeaning.dfy` | correction replay, generic and Cinnamon, through that ledger, and its meaning on a document |
| `CorrectionRuns.dfy` | a whole correction: the replay, failing anywhere, and the finish of its operation |
| `Schedule.dfy` | the correction time estimate, the configuration check and the transaction timeout |
| `Capture.dfy`, `CaptureProofs.dfy`, `CaptureSession.dfy` | the layout-switch capture session |
| `Handoff.dfy` | waiting for a quiet keyboard and grabbing it |
| `BackendLifecycle.dfy` | opening and retrying the input backend, fail-stop |
| `DeferredInput.dfy` | the ledger of input deferred during a manual correction |
| `Hotkeys.dfy` | the hotkey parser and its display |

How concurrency is modelled. Every write to the shared flags happens while the terminal gate is held,
so a gate-held section is one step and a run is any sequence of steps, with a clock that never goes
back. A publication is two steps, because its send is visible to the waiter, which does not take the
gate, before the control is marked Completed. The waiter, the worker, the poller and the command loop
are methods; between any two of their reads or sections `Interfere` lets the other threads take any
number of steps. Controls are identified by position, not by request id, because ids come from two
counters and can coincide. The permits and checkpoints of a replay are sections of the same protocol. Foreign
calls (X11, uinput, the session lease, the device) may succeed or fail at every call; where a result depends on
their answers, the answers are parameters.

What turned out false of the code, each with its exact condition:

- A waiter can be told `Disconnected` although its control completed: the writer may be stopped between
  the waiter's loads of the state and of the stop flag. A pending transaction is exposed to this exactly when its
  reply is half published, or when its sender is held, the writer runs, its deadline is ahead and it is not
  soft-cancelled (`StopCanHideReplyIff`); `HiddenReplyReached` is a run that leads there, and `Truthful` shows that
  nothing but a stop does it. The poll of a manual correction reads the state again and hands the reply out (`Poll`).
- Replay keeps the visible case under Caps Lock exactly when Caps Lock acts, in the target group, on just
  those keys of the plan that the replay takes for letters (`IntendedCaseIff`). Into the Russian layout it always
  does (`RussianCase`); into the Latin layout exactly when no key of the plan is one of the seven that are letters
  in the Russian layout only (`LatinCaseIff`): a semicolon comes out as a colon (`PunctuationUnderCapsLock`).
- Two manual corrections get the same request id exactly when their draws are a multiple of 2^64 - 1 apart
  (`SameIdIff`, `OneCompletionPerId`).
- After a clean finish a modifier that the user holds is down again exactly when no leftover debt has its
  key: leftover debts are released after the modifiers are restored (`LiftedModifierDownIff`, `Settled`).
  `HeldShiftLost` is the run: a held Shift is lifted, a soft cancel interrupts the replay's own Shift press, and
  the clean finish leaves Shift up.
- The ledger's report balances exactly when no acknowledgement of id 0 met an empty queue and no event was carried
  over by a `finish_drained` on a queue that was not empty, or the counter of accepted events is saturated
  (`ReportBalances`; `PhantomUnbalances` is the shortest unbalanced run).
- A capture event's reported change is faithful except for the press that silently drops a candidate
  (`ReportFaithfulIff`; `SilentResetReached` is a run that leads there).
- An input-epoch reset keeps the key law exactly when nothing is suppressed (`ResetKeepsKeysIff`;
  `ResetCanStrandKey` is a run that leads there).
- The short label of a hotkey parses back exactly when Shift does not meet Ctrl or Alt (`ShortLabelParsesIff`).
- Case and separators do not matter to the hotkey parser exactly for a text without white space other than the
  blank, or whose squeezed form is not the hotkey's words between white space (`SeparatorsMatterIff`); a tab behind
  a separator is the concrete case (`TabIsNotIgnored`).

## Model

| member | source | states |
|---|---|---|
| ProtocolProofs.StepKeeps | src/daemon/keyboard.rs:561-879 | every gate-held section keeps the invariant (one reply iff Completed or half published, a timeout implies a failure id that names a timed-out control, no success once soft-cancelled, one completion per manual control) and only evolves the world |
| ProtocolProofs.RunKeeps | src/daemon/keyboard.rs:561-879 | the same over every interleaving of any number of controls |
| ProtocolProofs.EveryRun | src/daemon/keyboard.rs:561-879 | in every run from the start both worlds satisfy the invariant and the later one is an evolution of the earlier |
| ProtocolProofs.TerminalStatesAbsorb | src/daemon/keyboard.rs:617-641 | a control leaves Pending at most once; Completed and TimedOut are absorbing in every run |
| ProtocolProofs.FailureIsFinal | src/daemon/keyboard.rs:617-641 | the failure id is written once, names a control that timed out after its deadline had passed, and no control, old or new, becomes Completed after it |
| ProtocolProofs.LaterControlsStayUnpublished | src/daemon/keyboard.rs:648-769 | controls created after a failure or a stop never get a reply |
| ProtocolProofs.StopFreezes | src/daemon/keyboard.rs:2831-2840 | once stop is set no control changes state, replies or flags in any continuation |
| ProtocolProofs.ExactlyOneReply | src/daemon/keyboard.rs:648-769 | outside a half-done publication a control has exactly one reply if Completed and none otherwise |
| ProtocolProofs.SoftCancelExcludesSuccess | src/daemon/keyboard.rs:581-607 | after `request_soft_cancel` answered Requested no run delivers a success for that control |
| ProtocolProofs.PublicationDeliversIff | src/daemon/keyboard.rs:648-769 | each of the three publish functions delivers exactly under its condition, and never delivers anything else |
| ProtocolProofs.FailureDeliveredDespiteSoftCancel | src/daemon/keyboard.rs:732-769 | a real failure is delivered as a failure, soft-cancelled or not |
| ProtocolProofs.NeverCompletes | src/daemon/keyboard.rs:861-879 | a stopped writer or a closed sender leaves a pending control without a reply in every continuation |
| ProtocolProofs.StopCanHideReplyIff | src/daemon/keyboard.rs:896-913 | some run completes a pending control and stops the writer iff its reply is half published, or its sender is held, nothing blocks its publication and it is not a soft-cancelled transaction |
| ProtocolProofs.HiddenReplyReached | src/daemon/keyboard.rs:896-913 | a run from the start in which a waiter reads Pending and then a set stop flag while its control has its success |
| ProtocolProofs.DenialReasons | src/daemon/keyboard.rs:778-808 | each denial reason is reported exactly for its own situation, and a timeout names the failed request |
| ProtocolProofs.CleanupDeniesAlike | src/daemon/keyboard.rs:831-859 | a cleanup permit is denied exactly as a mutation permit of a control that is not soft-cancelled |
| ProtocolProofs.NoPermitAfterBlocked | src/daemon/keyboard.rs:778-859 | permits are anti-monotone over every run |
| WriterThreads.OthersDoNotPublish | src/daemon/keyboard.rs:6122-6225 | while the worker takes no step nothing is published and no sender closes |
| WriterThreads.SharedWriter.ObserveControl | src/daemon/keyboard.rs:896-922 | the head of the waiter's loop: a Completed control always has its reply, a timeout answer means TimedOut, and another iteration is asked for only when the control is settled |
| WriterThreads.SharedWriter.TryMarkTimedOut | src/daemon/keyboard.rs:609-641 | called only after a failure or the deadline; marked means TimedOut with a failure id that names a control past its deadline; not marked means the control is settled |
| WriterThreads.SharedWriter.HandleWorkerLoss | src/daemon/keyboard.rs:938-946 | an error reply in hand is returned; otherwise the writer is stopped, and the loss reported, iff nothing blocks the control when the gate is taken; the control can then never complete |
| WriterThreads.SharedWriter.Receive | src/daemon/keyboard.rs:924-962 | a received reply is the published one; a closed channel is reported only for a control without a reply |
| WriterThreads.SharedWriter.MindWorker | src/daemon/keyboard.rs:924-962 | the rest of a turn: a reception without waiting unless a reply is in hand, a look at the input worker, and one wait of at most 5 ms or the handling of the loss |
| WriterThreads.SharedWriter.WaitForReply | src/daemon/keyboard.rs:889-964 | every answer of the waiter is truthful under any interference (no timeout before a deadline passed); over its whole trace every wait directly follows a healthy look, and every unhealthy look returns the error reply in hand or leads to the worker-loss section, which ends the wait iff the control is unblocked; the loop terminates, and at most two turns begin at or after the deadline |
| WriterThreads.SharedWriter.Publish | src/daemon/keyboard.rs:648-769 | the worker's publication with interference between send and completion: completed with that one reply to a receiver that is there, or nothing sent and the reason why, a missing receiver only if there is none |
| WriterThreads.SharedWriter.PublishDeferred | src/daemon/keyboard.rs:6163-6225 | although the gate is released between its sections, a completion is lost only if the writer stopped or failed, and then with that error, or the receiver is gone; a failure is never reported as a success or a cancellation |
| WriterThreads.SharedWriter.Perform | src/daemon/keyboard.rs:6435-6459 | a job's work counts as done only without a fault and with the session current and the control unblocked at each of its checkpoints; it fails only for a reason |
| WriterThreads.SharedWriter.DispatchDeferred | src/daemon/keyboard.rs:6435-6489 | the one reply of a deferred correction is a success only of work that was done, its own cancellation as such, and any other failure as itself, which is then the dispatch error; without a reply there is a reason |
| WriterThreads.SharedWriter.PublishTransaction | src/daemon/keyboard.rs:6122-6141 | a transaction's result is delivered once; otherwise nothing is sent, because of stop, failure or cancel, or because there is no receiver |
| WriterThreads.SharedWriter.ExecuteTransaction | src/daemon/keyboard.rs:6490-6580 | after one transaction its control has exactly one reply, the success of work that was done or the failure itself, or none for a stated reason; its sender is gone |
| WriterThreads.SharedWriter.RunCommandLoop | src/daemon/keyboard.rs:6243-6261 | a prefix of the arriving commands is dispatched, each in a writer that is neither stopped nor failed at that moment; every dispatched control has exactly one reply at the end, never a success for work with a fault, except the last one of a failed loop, which may have none for a stated reason; nothing follows a Shutdown or a dispatch error |
| ManualCorrections.TakeNextNonzero | src/daemon/keyboard.rs:90-98 | the loop yields the counter, or 1 past a zero, and leaves the next value with 64-bit wrap-around |
| ManualCorrections.NewMessageIsPending | src/daemon/keyboard.rs:6163-6225 | a new message in the completion channel belongs to the pending control, which had no reply before |
| ManualCorrections.ChannelGrowth | src/daemon/keyboard.rs:6163-6225 | the channel grows by the pending control's one reply and by nothing else |
| ManualCorrections.OthersKeepChannel | src/daemon/keyboard.rs:2992-3141 | every run of the other threads keeps the handshake's view of the channel |
| ManualCorrections.SameIdIff | src/daemon/keyboard.rs:90-98 | two draws give the same id iff they are a multiple of 2^64 - 1 apart |
| ManualCorrections.ManualWriter.OneCompletionPerId | src/daemon/keyboard.rs:2992-3141 | while fewer than 2^64 ids were drawn no id belongs to two corrections or two completions |
| ManualCorrections.ManualWriter.Begin | src/daemon/keyboard.rs:2992-3040 | Started iff alive, nothing pending and the command was queued, with the counter's next non-zero id, which is then used up; it records exactly one new pending control, whose deadline is at most 5 s ahead; the errors of the other cases |
| ManualCorrections.ManualWriter.RequestCancel | src/daemon/keyboard.rs:3042-3049 | Requested only for the pending request, with its flag set and nothing published; each other answer only in its situation |
| ManualCorrections.ManualWriter.ReceiveCompletion | src/daemon/keyboard.rs:3051-3079 | with nothing pending the channel is empty, and a message always carries the pending request id, so both mismatch branches are unreachable |
| ManualCorrections.ManualWriter.PollPending | src/daemon/keyboard.rs:3082-3117 | a look at a pending control hands out nothing, repeats only for a Completed one, reports no completion only for a Pending one with everything healthy, and fails only with the error of its situation |
| ManualCorrections.ManualWriter.TakeCompletion | src/daemon/keyboard.rs:3121-3138 | a Completed control's completion is always at hand |
| ManualCorrections.ManualWriter.Poll | src/daemon/keyboard.rs:3051-3141 | each started correction is polled at most once, in order, with its own id and only after publication; a Completed one is handed out by the next poll, no completion means still Pending and healthy, and a failure carries the error of its situation |
| Desktop.TapTypes | src/daemon/keyboard.rs:4307-4355 | with no modifier down a tap types one character of the current group at the emitted level |
| Desktop.ChordSwitches | src/daemon/keyboard.rs:5792-5814 | each of the nine combinations switches the group once and types nothing |
| Replay.Operation.Record | src/daemon/keyboard.rs:4165-4195 | every call is logged with its outcome and the protocol's world, and key-downs, lifts and latches only ever directly follow a granted permit |
| Replay.Operation.Try | src/daemon/keyboard.rs:4165-4195 | permits and checkpoints are answered by the protocol under interference of the other threads, and a sleep takes its time |
| Replay.PermitsMakeObedient | src/daemon/keyboard.rs:778-859 | once the control is blocked by a stop, failure, timeout or soft cancel, no key-down, lift or latch begins |
| Replay.Operation.ReleasePresses | src/daemon/keyboard.rs:5510-5526 | every press gets exactly one release attempt, in reverse order, whatever fails; when all succeed the ledger owes none of them |
| Replay.Operation.ReplayStroke | src/daemon/keyboard.rs:5528-5565 | it fails iff one of its calls does; at any failure no press is left without a release attempt, a prefix of the stroke's steps was issued and the sleeps stay in bounds; on success the exact steps, sleeps and effect, and no debt |
| Corrections.LiftModifiers | src/daemon/keyboard.rs:4620-4636 | held modifiers are lifted in reverse order, a prefix of them at any failure; on success all of them are planned for restoring, and exactly those the session ledger owns are noted there |
| Corrections.ReplayBackspaces | src/daemon/keyboard.rs:5885-5901 | balanced at any failure; exact steps, sleeps and effect on success |
| Corrections.ReplayBuffer | src/daemon/keyboard.rs:6026-6036 | the same for typing, with each stroke's replay Shift |
| Corrections.ReplayCombo | src/daemon/keyboard.rs:5816-5842 | the same for the layout combination |
| Corrections.SwitchX11 | src/daemon/layout_switcher.rs:254-280 | at most one latch, of an existing group, directly after a granted permit; without a permit nothing changed |
| Corrections.SwitchUinput | src/daemon/layout_switcher.rs:32-43 | the combination between two checkpoints |
| Corrections.SwitchWithFallback | src/daemon/keyboard.rs:6043-6084 | over the X11 attempt and the fallback at most one latch or one combination, never both, for every pattern of failures; X11 first where there is one, the combination only without it or after it failed, and never given up before |
| Corrections.LiftAndErase | src/daemon/keyboard.rs:5596-5612 | the generic replay up to the switch, with its exact sleeps |
| Corrections.SwitchStage | src/daemon/keyboard.rs:5967-6022 | the switch with its delay, at most twice the layout delay |
| Corrections.RunGeneric | src/daemon/keyboard.rs:5903-6041 | it fails only if one of its calls does; for every failure point: balanced, at most one latch, nothing begun once blocked, and sleeps within the schedule and so within the transaction timeout less its grace; on success the exact sleeping time, no debt and the generic result on the desktop |
| CorrectionRuns.Finish | src/daemon/keyboard.rs:4638-4682 | which finish follows which end of a replay, and what may then be down or up |
| CorrectionRuns.CorrectGeneric | src/daemon/keyboard.rs:5657-5726 | for every failure point and every answer of the sink: a reconciled report means that only restored held modifiers may be down; after a clean finish a lifted modifier may be up iff a leftover debt has its key; nothing begins once the control is blocked; a delivered correction left no debt, so every held modifier is down again and the document is corrected; a replay that succeeded is delivered unless it was cancelled or the sink refused |
| CorrectionRuns.RestoredAsAnnounced | src/daemon/keyboard.rs:4566-4592 | the order in which a finish restores the lifted modifiers is the announced one |
| CorrectionRuns.CorrectCinnamon | src/daemon/keyboard.rs:4729-4800 | the same for the Cinnamon correction; what its replay issued and its finish restored is exactly the announced plan |
| Corrections.ActivateGroup | src/daemon/keyboard.rs:4488-4543 | one latch, then at most 350 ms of polling; success only when the last read reported the target group, failure only for a failed call or another group reported for 350 ms |
| Corrections.CinnamonTarget | src/daemon/keyboard.rs:4424-4436 | a target exists iff there are exactly two groups and the current one is valid; it is the other group |
| Corrections.CinnamonActivate | src/daemon/keyboard.rs:4736-4760 | the two reads, the announcement and the latch in this order, each behind its checkpoint; no key is touched before a read reported the other of two groups |
| Corrections.CinnamonKeys | src/daemon/keyboard.rs:4761-4791 | what is issued is the announced plan without its restore suffix, a prefix of it at any failure |
| Corrections.RunCinnamon | src/daemon/keyboard.rs:4729-4800 | preflight equals execution, balanced at any failure, at most one latch, nothing begun once blocked, sleeps within the transaction timeout with 670 ms to spare, and the Cinnamon result with no debt on success; it fails only for a failed call, a missing target group or a poll that ran out |
| CorrectionMeaning.EraseChops | src/daemon/keyboard.rs:5885-5901 | n backspaces remove the last n characters |
| CorrectionMeaning.TypeAppends | src/daemon/keyboard.rs:6026-6036 | typing appends one character per stroke |
| CorrectionMeaning.SwitchMoves | src/daemon/keyboard.rs:6043-6084 | each way of switching moves to the next group, except X11 with a single group |
| CorrectionMeaning.GenericMeaning | src/daemon/keyboard.rs:5903-6041 | for every plan, document, held modifiers and Caps Lock state a generic correction erases n + extra characters and types the n strokes in the group switched to |
| CorrectionMeaning.CinnamonMeaning | src/daemon/keyboard.rs:4729-4800 | the Cinnamon order does the same in the other of two groups |
| CorrectionMeaning.StrategiesAgree | src/daemon/keyboard.rs:4729-4800 | with two groups X11, combination and Cinnamon leave the same document, layout and modifiers |
| CorrectionMeaning.IntendedCaseIff | src/daemon/keyboard.rs:4307-4355 | every character has its intended case iff Caps Lock is off or acts on just the keys taken for letters |
| CorrectionMeaning.LettersAreRussian | src/daemon/keyboard.rs:4307-4355 | the keys taken for letters are the 33 letters of the Russian layout; every other key keeps its own Shift |
| CorrectionMeaning.RussianCase | src/daemon/keyboard.rs:4307-4355 | into the Russian layout every text has its intended case under either state of Caps Lock |
| CorrectionMeaning.LatinCaseIff | src/daemon/keyboard.rs:4307-4355 | into the Latin layout iff Caps Lock is off or no key is one of the seven punctuation keys |
| CorrectionMeaning.PunctuationUnderCapsLock | src/daemon/keyboard.rs:4318-4355 | a concrete stroke whose case is wrong |
| Schedule.EstimateExact | src/model.rs:19-46 | the checked estimate equals the schedule, and is missing exactly when something overflows 64 bits |
| Schedule.ScheduleMonotone | src/model.rs:19-46 | the schedule grows with every argument |
| Schedule.TimeoutCoversSchedule | src/daemon/keyboard.rs:1016-1026 | a transaction's timeout is its schedule plus the grace, at most 5 s |
| Schedule.TimeoutIff | src/daemon/keyboard.rs:1016-1026 | in numbers: exactly which plans get a timeout, and which |
| Schedule.ValidateIff | src/config.rs:122-155 | in numbers: exactly which configurations are accepted, and what the others are refused for |
| Schedule.ValidatedPlansFit | src/config.rs:122-155 | under any validated configuration a plan within the limits is scheduled within 4 s and gets a timeout of at most 5 s; a larger plan is refused |
| SyntheticOperations.SyntheticOperation.Press | src/daemon/synthetic_input.rs:763-776 | a press records its debt before the attempt and succeeds exactly when permitted, acknowledged and still permitted; a failed one leaves its debt iff it was begun; none after the terminal state |
| SyntheticOperations.SyntheticOperation.Lift | src/daemon/synthetic_input.rs:778-793 | only a held modifier is lifted, once, and it is planned for restoring before the attempt |
| SyntheticOperations.SyntheticOperation.Release | src/daemon/synthetic_input.rs:799-819 | a debt goes exactly after an acknowledged key-up |
| SyntheticOperations.SyntheticOperation.RestoreOne | src/daemon/synthetic_input.rs:911-942 | a restored key ends with the session, or its release stays owed |
| SyntheticOperations.SyntheticOperation.RestorePlanned | src/daemon/synthetic_input.rs:895-909 | all lifted modifiers are pressed again, the last lifted first |
| SyntheticOperations.SyntheticOperation.ReleaseAll | src/daemon/synthetic_input.rs:957-986 | every debt gets one key-up, last first; what is not acknowledged stays owed |
| SyntheticOperations.SyntheticOperation.DrainFallback | src/daemon/synthetic_input.rs:988-1029 | refused keys are released or stay owed |
| SyntheticOperations.SyntheticOperation.FinishWithRestore | src/daemon/synthetic_input.rs:853-893 | Reconciled means that nothing but adopted modifiers may be down; a clean outcome restored all of them, and exactly those with a leftover debt may be up again; with willing answers the finish is clean |
| SyntheticOperations.SyntheticOperation.FinishHardFailure | src/daemon/synthetic_input.rs:821-837 | Reconciled means that nothing at all may be down; nothing is adopted, and lifted modifiers stay up |
| SyntheticOperations.LiftedModifierDownIff | src/daemon/synthetic_input.rs:853-893 | for every plan and ledger: a lifted modifier is down after a clean finish iff no leftover debt has its key |
| SyntheticOperations.HeldShiftLost | src/daemon/synthetic_input.rs:763-893 | a run from a new operation, through lift, interrupted press and clean soft-cancel finish, that leaves a held Shift up |
| CaptureProofs.EvaluateIff | src/daemon/capture.rs:69-167 | a combination is recognised exactly for the key sets that stand for it |
| CaptureProofs.WaitingIff | src/daemon/capture.rs:69-167 | the recogniser waits for more iff the keys are a proper part of some combination without Space |
| CaptureProofs.CaptureKeysAre | src/daemon/capture.rs:531-544 | the capture keys are the modifiers, Space and Caps Lock, different but for the two Super keys |
| CaptureSessions.LayoutSwitchCaptureSession.Expire | src/daemon/capture.rs:360-366 | keeps both laws; afterwards a lease exists iff it was live, and a change is reported iff one was lost |
| CaptureSessions.LayoutSwitchCaptureSession.Start | src/daemon/capture.rs:275-307 | keeps both laws; Busy iff someone else's lease lives, otherwise the caller owns a live lease ten seconds ahead, capped by an absolute deadline that a restart never moves; hidden keys stay hidden |
| CaptureSessions.LayoutSwitchCaptureSession.Renew | src/daemon/capture.rs:309-322 | keeps both laws; Ok iff the caller owns a live lease, and then only its soft deadline moves, never past the absolute one |
| CaptureSessions.LayoutSwitchCaptureSession.End | src/daemon/capture.rs:324-342 | keeps both laws; only the owner of a live lease ends the session, and hidden keys stay hidden until their release |
| CaptureSessions.LayoutSwitchCaptureSession.OwnerDisappeared | src/daemon/capture.rs:344-358 | keeps both laws; a lost owner cancels its own session; a change is reported iff there is one |
| CaptureSessions.LayoutSwitchCaptureSession.Route | src/daemon/capture.rs:376-479 | keeps both laws for well-formed events; an event passes iff its key is not suppressed and no session lives, is forwarded iff a session lives that has no use for it, and is hidden otherwise; a press is hidden iff its key becomes suppressed, a repeat or release iff its key was; the report is faithful iff it is not the silent reset |
| CaptureSessions.LayoutSwitchCaptureSession.ResetInputEpoch | src/daemon/capture.rs:481-487 | the session ends and forgets its keys, which keeps the laws iff it hid none |
| CaptureProofs.RouteSuppression | src/daemon/capture.rs:376-479 | an event changes the suppression of its own key only; a suppressed key stays suppressed until its release |
| CaptureProofs.StepKeeps | src/daemon/capture.rs:275-507 | every well-formed event and owner call keeps the key law and the lease law |
| CaptureProofs.EveryCaptureRun | src/daemon/capture.rs:275-507 | in every run the keys down downstream are the physical ones minus the suppressed ones, the session is active iff a lease exists, and a live lease is in time and ends 65 s after its start at the latest |
| CaptureProofs.AllKeysUpMeansClean | src/daemon/capture.rs:376-479 | when all physical keys are up nothing is suppressed or down downstream |
| CaptureProofs.ForeignCallsChangeNothing | src/daemon/capture.rs:275-374 | before the soft deadline no number of calls by other owners changes the session |
| CaptureProofs.PressRecognisesIff | src/daemon/capture.rs:441-479 | a press makes a candidate iff the held keys form its chord, and gives up iff they match nothing |
| CaptureProofs.CapturedIsReplayed | src/daemon/keyboard.rs:5792-5814 | the keys that replay a combination are captured as that combination, in its left-hand form |
| CaptureProofs.ResetKeepsKeysIff | src/daemon/capture.rs:481-487 | a reset keeps the key law iff nothing is suppressed |
| CaptureProofs.ResetCanStrandKey | src/daemon/capture.rs:481-487 | a run from the idle session after which a reset breaks the key law |
| CaptureProofs.ReportFaithfulIff | src/daemon/capture.rs:441-479 | a reported change is faithful except for exactly the silent reset of a candidate |
| CaptureProofs.SilentResetReached | src/daemon/capture.rs:376-479 | a run from the idle session whose next press is that silent reset |
| Handoff.WaitForQuiescentInput | src/daemon/keyboard.rs:1538-1586 | Ready exactly at the first full quiet window with nothing read, no key down and a final empty poll; failed iff one of its calls failed; Busy only when no window fits before the deadline; the report is the sum of all discards; the loop ends when waits advance the clock |
| Handoff.GrabbedKeyboardDevice.AcquireGrab | src/daemon/keyboard.rs:2070-2084 | a failed grab leaves the keyboard free |
| Handoff.GrabbedKeyboardDevice.ReleaseGrab | src/daemon/keyboard.rs:2010-2029 | after a release the keyboard is free; the device is closed iff the release failed |
| Handoff.GrabbedKeyboardDevice.AcquireGrabThenSnapshot | src/daemon/keyboard.rs:1508-1530 | a snapshot iff every check passes; after an error the keyboard is held only if it was before and the first check failed; the device is closed exactly when it was grabbed, a later check failed and its release failed too |
| BackendLifecycle.InputBackendLifecycle.TryReopen | src/daemon/input_backend.rs:272-329 | keeps the law below; a backend is handed out iff the opened one is ready, otherwise a retry is 0.5 to 3 s ahead or the error is returned; fail-stopped iff a writer did not stop, and then no effect at all |
| BackendLifecycle.InputBackendLifecycle.TryRecover | src/daemon/input_backend.rs:228-241 | keeps the law; the opener is called iff the backend is down, not fail-stopped and its retry is due |
| BackendLifecycle.InputBackendLifecycle.RecordRuntimeFailure | src/daemon/input_backend.rs:253-265 | keeps the law; a recoverable error other than a busy handoff takes the backend down with a retry ahead, to Recovering iff a working device was lost; any other changes nothing |
| BackendLifecycle.InputBackendLifecycle.RecordStartupFailure | src/daemon/input_backend.rs:243-247 | keeps the law; a recoverable error leaves the backend waiting with a retry ahead, any other changes nothing |
| BackendLifecycle.InputBackendLifecycle.MarkBackendReady | src/daemon/input_backend.rs:214-218 | keeps the law; readiness ends the retrying and never a fail-stop |
| BackendLifecycle.RunSane | src/daemon/input_backend.rs:190-393 | in every run a retry is scheduled whenever the backend is neither ready nor fail-stopped; in the log of effects every opened backend is at once handed out iff ready and shut down otherwise; fail-stop is exactly a last effect that left a failure; the delays since the last readiness are the backoff sequence |
| BackendLifecycle.BackendsBalance | src/daemon/input_backend.rs:272-329 | in every run the backends opened are those handed out plus those shut down |
| BackendLifecycle.BackoffGrows | src/daemon/input_backend.rs:356-393 | the backoff never shortens between readiness transitions and stays between 0.5 and 3 s |
| BackendLifecycle.FailStopAbsorbs | src/daemon/input_backend.rs:362-385 | after a fail-stop no run has any effect, changes the state or schedules a retry, and every attempt returns the same error |
| DeferredInput.DeferredInputLedger.Admit | src/daemon/deferred_input.rs:66-81 | keeps the conservation law; an event is lost iff the queue is full, and cancellation is requested exactly by the event that first passes the soft limit of its episode |
| DeferredInput.DeferredInputLedger.Acknowledge | src/daemon/deferred_input.rs:87-103 | keeps the law; the head moves to the acknowledged events for its own id only, an error changes nothing, and a phantom is counted iff the queue is empty and the id is 0 |
| DeferredInput.DeferredInputLedger.ReconcileAll | src/daemon/deferred_input.rs:113-126 | a new episode begins, and the report accounts for every event iff no phantom was counted and nothing was carried over, or the counter is saturated |
| DeferredInput.DeferredInputLedger.FinishDrained | src/daemon/deferred_input.rs:117-146 | nothing is dropped, what is queued is carried over, an empty queue means that every event was acknowledged, and the report balances under the same condition |
| DeferredInput.DeferredInputLedger.DrainHead | src/daemon/service.rs:883-896 | the oldest event not yet acknowledged is handed out, and acknowledged iff handled; that never fails, is never a phantom and leaves the other counters alone |
| DeferredInput.StepConserves | src/daemon/deferred_input.rs:66-146 | every operation keeps the conservation law |
| DeferredInput.RunConserves | src/daemon/deferred_input.rs:54-146 | in every run carried over ++ admitted = acknowledged ++ queued in order, the queue is within the hard limit, and cancellation is requested once per episode, iff an admission passed the soft limit |
| DeferredInput.ReportBalances | src/daemon/deferred_input.rs:128-146 | in every run the report balances iff no acknowledgement was a phantom and nothing was carried over, or the counter is saturated; reconciling only, with non-zero ids, excludes both |
| DeferredInput.PhantomUnbalances | src/daemon/deferred_input.rs:87-103 | the shortest run whose report does not balance |
| Hotkeys.OneSuffix | src/model.rs:174-203 | no two trigger aliases end the same text |
| Hotkeys.ScanFindsIff | src/model.rs:186-203 | the first-match scan finds a trigger iff its alias ends the text, so its order does not matter |
| Hotkeys.ParseIff | src/model.rs:367-395 | a text parses as h iff its trimmed, lower-cased, separator-free form is h's modifier word followed by h's alias |
| Hotkeys.RejectionIff | src/model.rs:370-386 | exactly which texts are empty, and which are rejected for their trigger |
| Hotkeys.ParseUndoesDisplay | src/model.rs:350-365 | parsing undoes display |
| Hotkeys.CleanAcceptedIff | src/model.rs:367-395 | a text squeezed of case and separators is h's words iff it parses as h and has no white space but the blank |
| Hotkeys.IgnoresCaseAndSeparators | src/model.rs:376-380 | of two texts that differ only in case and separators both or neither are accepted as h without exotic white space |
| Hotkeys.CaseIgnored | src/model.rs:376-380 | texts equal up to the case of ASCII letters have the same squeezed form |
| Hotkeys.JoinedParsesIff | src/model.rs:376-380 | the words of a hotkey with modifiers parse back iff they are joined by plus, underscore, hyphen or blank |
| Hotkeys.SeparatorsMatterIff | src/model.rs:371-380 | all texts with the same squeezed form are accepted as h alike iff the text has no white space but the blank or its squeezed form is not h's words between white space |
| Hotkeys.TabIsNotIgnored | src/model.rs:371-380 | a concrete pair of texts with a tab that parse differently |
| Hotkeys.ShortLabelParsesIff | src/model.rs:222-235 | the short label parses back iff Shift does not meet Ctrl or Alt |

## Left out

- Device discovery, evdev, uinput, X11, D-Bus, systemd, threads and files are foreign calls; they appear only as calls that may succeed or fail.
- The error values of replay are reduced to success or failure, so which of two errors is reported is not modelled.
- The two stores inside a timeout mark (state, then failure id) are one step; a reader between them would report the same request id.
- `alive`, guardian health and the session lease are oracles, so `health_error` is not modelled beyond its effect on the poll.
- `sleep_interruptibly` is a sleep that may fail; its quantum loop is not modelled.
- `run_uinput_shortcut` and `type_key` would only repeat the stroke and combination replay; on a failed press they rely on the operation's finish, which is modelled.
- The guardian client and the session modifier ledger are oracles in the synthetic operation; only which keys the ledger owns is kept.
- CorrectionMeaning.CinnamonMeaning: the desktop's reaction to a failed call is not modelled, so the meaning of a correction is claimed for successful replays only.
- CorrectionMeaning.GenericMeaning: the document's meaning ends with the replay; the restoring of held modifiers at the operation's finish is in `CorrectionRuns.dfy`.
- WriterThreads.SharedWriter.RunCommandLoop: the commands are given in their order of arrival; that a job arrives with an unanswered control of its own is taken from the senders' side, not proved there.
- SyntheticOperations.SyntheticOperation.Press: the separate checks around one sink call are one question, so which of them refused is not kept.
- DeferredInput.DeferredInputLedger.FinishDrained: the debug assertions on the queue and the limits are not aborts; the model continues as a release build does.
- Replay.Operation.Try: a replay without a transaction control, which is never refused a permit, is not modelled.
- Replay.Operation.Record: the restoring presses of a finish ask for cleanup permits; their answers are part of the sink's script, not of the protocol's run.
- BackendLifecycle.RunSane: the text of the last error is not kept.
- Handoff.WaitForQuiescentInput: the inner drain loop is one call that reports how many events it discarded, and termination assumes that every wait advances the clock.
- Selected-text handling, layout detection, word tracking, settings, tray and logging are not modelled; they would add mostly tables and plumbing.
