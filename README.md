# MacroRecorder engine in Dafny

MacroRecorder records a user's mouse and keyboard input on Windows and replays it. This
project models the deterministic engine behind it and proves properties of that model.

The engine comes in two implementations.

- **A C# one.**
  - Low-level hooks (`InputHookService`, and `LowLevelHook` inside `SimpleRecorder`) classify
    the messages Windows delivers into timestamped actions.
  - `PlaybackService` replays actions with their recorded delays, repeats and cancellation.
  - `RecordingService` keeps recordings as one JSON file per id.
  - `PythonRecorderService` drives two Python scripts over standard input and output.
  - `SimpleRecorder` is a self-contained WinForms recorder with its own event list, hook
    class, replay loop and duration label.
- **A Python one.**
  - `recorder.py` and `player.py` are the two child scripts. Each is a line-driven `main`
    loop around a `Recorder` or `Player` object.
  - `macro_recorder.py` is a standalone Tk recorder and player.

## How the model reads the system

- **Time** is a whole number of milliseconds on an ideal clock.
  - A replay is a *trace*: a sequence of `Wait(ms)` and `Inject(x)` steps (module `Timeline`).
  - What a replay does is what it injects, in order, together with how long it waits.
  - The native call for an injected action is a `NativeCmd` (`SetCursorPos`, `mouse_event`,
    `keybd_event`). A pynput controller call is an `Effect`.
- **Two kinds of player loop.**
  - The Python players and `SimpleRecorder` sleep until each action's target time. The
    generic *deadline pass* (`DeadlinePass`) models this: the clock after `n` actions is the
    running maximum of their targets.
  - `PlaybackService` waits the positive part of the gap to the previous action (`Pass`).
    PlaybackService.cs:89-111 compares the `TimeSpan` timestamp with `DateTime.MinValue` and
    keeps the previous one in a `DateTime?`, which does not type-check as written. The model
    reads every timestamp there as a `TimeSpan` offset from the earliest one (`Offset`, `DelayBefore`).
- **Flags cleared by another thread.** Examples are `PlaybackService`'s cancellation token
  and `SimpleRecorder`'s `playing`. The model gives each read of such a flag an index.
  - A stop request made on another thread is a number (`cancelAt`, `stopAt`).
  - Every read with a larger index sees the request, and it stays seen.
  - The methods then state exactly which prefix of the uncancelled schedule was played.
- **Callbacks and input lines.** Listener callbacks and the lines read from standard input
  are one interleaved input sequence for the Python scripts. For the C# hooks they are
  method calls.
- **Classes.** Objects whose fields the source updates are Dafny classes, with `modifies`
  clauses:
  - `InputHookService`, `PlaybackService`, `CancellationTokenSource`, `RecordingService`
    and `PythonRecorderService`;
  - `LowLevelHook`, `EventList`, `Recording` and `MainForm`;
  - `Player`, `Recorder` and `MacroRecorder`.

  The pure parts are functions with lemmas:
  - classification, encoding and key parsing;
  - schedules, sorting and durations.
- **Module layout.**
  - One module per source file: `Models`, `InputHook`, `Playback`, `RecordingStore`,
    `PythonBridge`, `SimpleRecorder`, `PyRecorder`, `PyPlayer` and `MacroRecorderPy`.
  - Four shared modules: `Wrappers`, `Win32`, `Timeline` and `Pynput`. `Pynput` holds
    Python's string operations and pynput's key names.

## Model

| member | source | states |
|---|---|---|
| Win32.ToInt16 | MacroRecorder/Services/InputHookService.cs:166 | the `(short)` cast: the result agrees with the input modulo 2^16 and is the input itself when that fits in 16 bits |
| Win32.ToByte | MacroRecorder/Services/PlaybackService.cs:137 | the `(byte)` cast on a key code: agrees modulo 256, identity on 0..255 |
| Timeline.SleepThenInject | MacroRecorder/player.py:36-41 | sleeping until a target and then acting injects exactly that action and adds the positive part of target minus elapsed to the time slept |
| Timeline.RunMax | MacroRecorder/player.py:36-41 | the clock a deadline loop reaches: at least 0, at least every target so far, and equal to one of them unless 0 |
| Timeline.ClockIsRunningMax | MacroRecorder/player.py:31-41 | after `n` actions of a deadline loop the clock is the running maximum of their targets, because a late action is not waited for |
| Timeline.DeadlinePassOneMore | MacroRecorder/player.py:31-67 | one more action of a deadline loop injects exactly that action and waits exactly the clock's advance |
| Timeline.ClockIsTimeSlept | MacroRecorder/player.py:31-41 | the time slept in a deadline loop adds up to its clock |
| Timeline.DeadlinePassInOrder | MacroRecorder/player.py:31-67 | a deadline loop injects the actions in list order, each once |
| Timeline.DeadlineFiresAtRunningMax | MacroRecorder/player.py:31-67 | the clock, the total sleep and the running maximum coincide, and a whole pass injects exactly the list |
| Timeline.SortedTargetsFireOnTime | MacroRecorder/player.py:36-41 | for non-decreasing, non-negative targets, action `k` fires exactly at its own target time |
| Timeline.RepeatedTotals | MacroRecorder/Services/PlaybackService.cs:53-67 | `n` passes separated by pauses wait `n` times the pass plus `n - 1` pauses, and inject `n` times as many commands |
| Models.ActionTypeOf | MacroRecorder/Models/Recording.cs:17-46 | as written: moves, clicks and wheel turns report their own type, and every key action reports `KeyDown`, so `KeyUp` never occurs |
| Models.IntendedActionTypeOf | MacroRecorder/Models/Recording.cs:44-50 | corrected: a key action reports `KeyDown` exactly when it is a press and `KeyUp` exactly when it is a release; other kinds are unchanged |
| Models.KeyReleaseReportsKeyDown | MacroRecorder/Models/Recording.cs:46 | a released A key reports `KeyDown` as written and `KeyUp` corrected |
| Models.NewRecording | MacroRecorder/Models/Recording.cs:52-57 | a new recording has the fresh id, the default name, the creation time, no actions and duration 0 |
| Models.MaxTimestamp | MacroRecorder/Models/Recording.cs:59 | the latest timestamp: one of the actions has it and none is later |
| Models.MinTimestamp | MacroRecorder/Models/Recording.cs:59 | the earliest timestamp: one of the actions has it and none is earlier |
| Models.TotalDuration | MacroRecorder/Models/Recording.cs:58-60 | non-negative, 0 with no actions, and the largest difference between two action timestamps, attained by some pair |
| Models.SameTimestampsSameExtremes | MacroRecorder/Models/Recording.cs:59 | the extremes depend only on which timestamps occur |
| Models.TotalDurationIgnoresOrder | MacroRecorder/Models/Recording.cs:58-60 | reordering the actions leaves the duration unchanged |
| Models.SingleActionLastsZero | MacroRecorder/Models/Recording.cs:58-60 | a recording of one action lasts 0 |
| Models.MaxTimestampShift | MacroRecorder/Models/Recording.cs:59 | shifting every timestamp by `c` shifts the latest by `c` |
| Models.MinTimestampShift | MacroRecorder/Models/Recording.cs:59 | shifting every timestamp by `c` shifts the earliest by `c` |
| Models.TotalDurationShiftInvariant | MacroRecorder/Models/Recording.cs:58-60 | the duration does not depend on where the clock started |
| Models.SortedDuration | MacroRecorder/Models/Recording.cs:58-60 | for actions in capture order the duration is last minus first timestamp |
| InputHook.WheelDelta | MacroRecorder/Services/InputHookService.cs:166 | the signed high word of `mouseData`: `d * 65536 <= mouseData < (d + 1) * 65536` |
| InputHook.WheelDeltaOfPacked | MacroRecorder/Services/InputHookService.cs:166 | a delta packed into the high word, with any low word, is read back unchanged |
| InputHook.ClassifyMouse | MacroRecorder/Services/InputHookService.cs:124-171 | a classified mouse message carries the session-relative timestamp and the hook's point and is never a key action |
| InputHook.MouseClassificationTable | MacroRecorder/Services/InputHookService.cs:127-171 | exactly the six mouse messages are classified. A move comes from `WM_MOUSEMOVE`. A click comes from the four button messages, down for the DOWN ones and left for the L ones. A wheel action comes from `WM_MOUSEWHEEL` and carries the high-word delta |
| InputHook.KeyNameParam | MacroRecorder/Services/InputHookService.cs:204 | `(scanCode << 16) \| 1` on 32 bits: low word 1, high word the scan code's low 16 bits |
| InputHook.KeyNameParamCarriesScanCode | MacroRecorder/Services/InputHookService.cs:201-205 | the name lookup is handed exactly the key's scan code in bits 16-23 |
| InputHook.ClassifyKey | MacroRecorder/Services/InputHookService.cs:181-194 | every keyboard message gives one key action with the timestamp and virtual-key code; it is a press exactly for `WM_KEYDOWN` and `WM_SYSKEYDOWN`, and always has a name |
| InputHook.InputHookService.constructor | MacroRecorder/Services/InputHookService.cs:11-18 | a new service is idle, with no hooks, no actions and no events raised |
| InputHook.InputHookService.StartRecording | MacroRecorder/Services/InputHookService.cs:65-85 | does nothing when already recording. Otherwise it clears the buffer, records the start time, sets the flag and stores both handles. It fails with the source's message when either handle is 0, after those updates, and raises `RecordingStarted` only on success |
| InputHook.InputHookService.ReleaseHooks | MacroRecorder/Services/InputHookService.cs:93-103 | unhooks each non-zero handle, in order, and zeroes both |
| InputHook.InputHookService.StopRecording | MacroRecorder/Services/InputHookService.cs:87-108 | when idle, returns nothing and changes nothing. Otherwise it clears the flag, releases the hooks, raises `RecordingStopped` and returns the buffer in capture order. The start time is kept |
| InputHook.InputHookService.CaptureAction | MacroRecorder/Services/InputHookService.cs:110-116 | appends the action and raises `ActionCaptured` only while recording; nothing else changes |
| InputHook.InputHookService.MouseHookCallback | MacroRecorder/Services/InputHookService.cs:118-175 | while recording and for `nCode >= 0`, the classified message is appended, stamped from the session start, and `ActionCaptured` is raised for it; otherwise neither changes. The message is always passed on to the next hook |
| InputHook.InputHookService.KeyboardHookCallback | MacroRecorder/Services/InputHookService.cs:177-199 | while recording and for `nCode >= 0`, one key action is appended, `ActionCaptured` is raised for it and the name lookup is asked for its scan code; otherwise none of these happens. The message is always passed on |
| InputHook.InputHookService.Dispose | MacroRecorder/Services/InputHookService.cs:215-228 | releases the hooks and leaves the flag, the buffer, the notices and the start time as they are |
| InputHook.CaptureSession | MacroRecorder/Services/InputHookService.cs:65-175 | on a fresh service, start, mouse messages and stop return the classified messages in arrival order, and a second stop returns nothing |
| Playback.PlayAction | MacroRecorder/Services/PlaybackService.cs:115-140 | a move sets the cursor. A click becomes the one of the four button flags matching its button and direction, each flag for exactly one combination. A wheel turn passes the captured delta. A key becomes `keybd_event` with the code's low byte, scan 0, and KEYUP exactly for a release |
| Playback.PlayActionAsWritten | MacroRecorder/Services/PlaybackService.cs:132 | as written: the wheel data is the captured delta times 120; every other kind is as in `PlayAction` |
| Playback.WheelScalingOvershoots | MacroRecorder/Services/PlaybackService.cs:132 | a one-notch wheel message (delta 120 as captured) is replayed as 14400 as written and as 120 corrected |
| Playback.InjectionInvertsCapture | MacroRecorder/Services/PlaybackService.cs:115-140 | replaying what the hook captured reproduces the message: each button message gives back its flag at the same point, and a wheel message its high-word delta |
| Playback.DelayIsOffsetGap | MacroRecorder/Services/PlaybackService.cs:99-103 | the delay computed from offsets against the earliest timestamp equals the gap between consecutive timestamps |
| Playback.Played | MacroRecorder/Services/PlaybackService.cs:110 | one `PlayAction` command per action, in order |
| Playback.GapWaitsOnly | MacroRecorder/Services/PlaybackService.cs:101-108 | the wait before an action injects nothing and lasts the positive part of its delay |
| Playback.PassPrefixInjectsOneMore | MacroRecorder/Services/PlaybackService.cs:92-112 | each loop iteration injects exactly its own action |
| Playback.PassInjectsInOrder | MacroRecorder/Services/PlaybackService.cs:92-112 | the first `n` iterations inject the first `n` actions, in order |
| Playback.PassIssuesRecordedCommands | MacroRecorder/Services/PlaybackService.cs:92-112 | an uncancelled pass issues exactly the recorded actions' commands, in order |
| Playback.PassLengthGrows | MacroRecorder/Services/PlaybackService.cs:92-112 | each further action adds at least one step to a pass |
| Playback.EmptyPass | MacroRecorder/Services/PlaybackService.cs:87 | no actions: nothing injected, nothing waited, no token polls |
| Playback.FirstActionImmediate | MacroRecorder/Services/PlaybackService.cs:101 | the first action is injected with no wait before it |
| Playback.PassPrefixGrows | MacroRecorder/Services/PlaybackService.cs:92-112 | what a shorter run did is a prefix of what a longer one does |
| Playback.SortedPassWaits | MacroRecorder/Services/PlaybackService.cs:99-108 | for actions in capture order the waits of the first `n` add up to timestamp `n - 1` minus the first timestamp |
| Playback.PassWaitIsTotalDuration | MacroRecorder/Services/PlaybackService.cs:85-113 | for a recording in capture order a pass waits exactly its `TotalDuration` |
| Playback.ThreeEventTiming | MacroRecorder/Services/PlaybackService.cs:85-113 | timestamps 0, 100 and 250 ms replay as inject, wait 100, inject, wait 150, inject |
| Playback.HeadScheduleWithinSchedule | MacroRecorder/Services/PlaybackService.cs:53-67 | the trace reached at each loop head is a prefix of the whole uncancelled schedule |
| Playback.CancellationTokenSource.constructor | MacroRecorder/Services/PlaybackService.cs:45 | a new token is not cancelled |
| Playback.CancellationTokenSource.Cancel | MacroRecorder/Services/PlaybackService.cs:82 | the token is cancelled afterwards |
| Playback.PlaybackService.constructor | MacroRecorder/Services/PlaybackService.cs:28-29 | a new service is idle, with no token, no trace and no events |
| Playback.PlaybackService.Stop | MacroRecorder/Services/PlaybackService.cs:80-83 | cancels the current token if there is one |
| Playback.PlaybackService.Poll | MacroRecorder/Services/PlaybackService.cs:55 | a token read sees a cancellation exactly when one was requested before it, and it stays seen |
| Playback.PlaybackService.PlayActionsAsync | MacroRecorder/Services/PlaybackService.cs:85-113 | the trace grows by the first `done` actions of a pass. An uncancelled pass plays them all; a cancelled one stops at the first poll that sees the request, before the next action. No more steps are taken than polls were allowed |
| Playback.PlaybackService.PlayEach | MacroRecorder/Services/PlaybackService.cs:92-112 | the same as `PlayActionsAsync`, for the loop over a non-empty list with its earliest timestamp |
| Playback.PlaybackService.PlayActionAt | MacroRecorder/Services/PlaybackService.cs:94-111 | one iteration. A request seen before the action or at its delay ends the pass with the trace unchanged. Otherwise the trace grows by the gap and the action |
| Playback.PlaybackService.PlayAsync | MacroRecorder/Services/PlaybackService.cs:37-78 | a running playback's token is cancelled first. `Started` and `Stopped` are raised once each, and the service ends idle with a fresh token. The trace grows by exactly `CancelledRun`: the steps the uncancelled run takes before its poll `cancelAt`, the first to see the request. In passes and a partial pass: at most the repeat count of them, all of them when uncancelled, and a late enough request is never seen |
| Playback.PlaybackService.RepeatPasses | MacroRecorder/Services/PlaybackService.cs:51-68 | the repeat loop: the same trace, exactly `CancelledRun`, and the same bounds as `PlayAsync`, with the token and events left alone |
| Playback.PlaybackService.PlayRound | MacroRecorder/Services/PlaybackService.cs:53-67 | one repeat. A request seen at the loop head, at a poll of the pass or at the pause stops it, and the trace is then exactly what the first repeats' polls and steps play before poll `cancelAt`. Otherwise the loop head advances by one pass and, before another finite pass, the pause |
| Playback.NextHead | MacroRecorder/Services/PlaybackService.cs:53-67 | the next loop head is this one plus a pass, plus the pause when another finite pass follows |
| Playback.ScheduleRoomForPass | MacroRecorder/Services/PlaybackService.cs:53-67 | in a finite run, each further pass and its pause fit inside the whole schedule |
| Playback.CutScheduleIsPrefix | MacroRecorder/Services/PlaybackService.cs:53-67 | whatever a cancellation cut short, a finite run is a prefix of the uncancelled schedule |
| Playback.UncancelledRunIsComplete | MacroRecorder/Services/PlaybackService.cs:53-67 | a finite run that no poll cancelled is the whole schedule |
| Playback.ActionTicksPlay | MacroRecorder/Services/PlaybackService.cs:94-110 | one iteration polls before the action and again before a positive delay, then waits the gap and injects; a request seen at either poll plays nothing of it |
| Playback.PassTicksPlay | MacroRecorder/Services/PlaybackService.cs:92-112 | uncancelled, the polls and steps of the first `n` iterations play `PassPrefix`, with one poll per step |
| Playback.PassTicksCut | MacroRecorder/Services/PlaybackService.cs:92-112 | a request first seen at a poll of action `i` plays exactly the actions before `i` |
| Playback.RoundTicksPlay | MacroRecorder/Services/PlaybackService.cs:53-67 | one repeat polls at the loop head, through the pass and before the pause; cut at the head it plays nothing, in the pass what the pass plays before that poll, at the pause the whole pass |
| Playback.RunTicksPlay | MacroRecorder/Services/PlaybackService.cs:53-67 | uncancelled, `n` repeats play the schedule up to the next loop head, polling once per step and once per loop head |
| Playback.CutAtHead | MacroRecorder/Services/PlaybackService.cs:55-58 | a request first seen at the loop head of repeat `c` plays the `c` repeats before it |
| Playback.CutInPass | MacroRecorder/Services/PlaybackService.cs:94-106 | a request first seen at a poll of action `done` of repeat `c` plays the repeats before it and the actions before `done` |
| Playback.CutAtPause | MacroRecorder/Services/PlaybackService.cs:64-67 | a request first seen at the pause after repeat `c` plays that repeat's whole pass and no pause |
| Playback.CancelledRunIsPrefix | MacroRecorder/Services/PlaybackService.cs:51-68 | wherever the request comes, the run is a prefix of the uncancelled schedule |
| Playback.LateRequestPlaysSchedule | MacroRecorder/Services/PlaybackService.cs:51-68 | a finite run whose request comes after its last poll plays the whole schedule |
| Playback.LaterRequestPlaysMore | MacroRecorder/Services/PlaybackService.cs:51-68 | in a finite run, a later request plays an extension of what an earlier one plays |
| Playback.EarlyRequestPlaysNothing | MacroRecorder/Services/PlaybackService.cs:55-58 | a request seen at the first loop head or the poll after it plays nothing |
| Playback.RequestBeforeFirstAction | MacroRecorder/Services/PlaybackService.cs:94-97 | one action, two repeats, the request seen at the poll before the action: nothing is injected |
| RecordingStore.SaveThenLoad | MacroRecorder/Services/RecordingService.cs:23-43 | loading a saved recording by its id gives it back |
| RecordingStore.SaveKeepsOthers | MacroRecorder/Services/RecordingService.cs:23-30 | saving leaves every other id's load result unchanged, and keeps every file named by its content's id |
| RecordingStore.DeleteThenLoad | MacroRecorder/Services/RecordingService.cs:69-77 | a deleted id loads as not found; other ids load as before |
| RecordingStore.LoadSucceedsIffParses | MacroRecorder/Services/RecordingService.cs:32-43 | a load succeeds exactly when the file exists and parses, and fails with not found exactly when it is missing |
| RecordingStore.ParsedMembers | MacroRecorder/Services/RecordingService.cs:49-64 | scanning the listing keeps exactly the recordings of the files that parse; the others are skipped |
| RecordingStore.Insert | MacroRecorder/Services/RecordingService.cs:66 | inserting adds exactly one element and keeps the rest |
| RecordingStore.SortByCreatedDesc | MacroRecorder/Services/RecordingService.cs:66 | the sort is a permutation of its input |
| RecordingStore.InsertKeepsOrder | MacroRecorder/Services/RecordingService.cs:66 | inserting into a list sorted newest first keeps it sorted |
| RecordingStore.SortIsOrdered | MacroRecorder/Services/RecordingService.cs:66 | the result is sorted by creation time, newest first |
| RecordingStore.InsertIsStable | MacroRecorder/Services/RecordingService.cs:66 | among recordings created at the same time, an inserted one lands before those already there |
| RecordingStore.SortIsStable | MacroRecorder/Services/RecordingService.cs:66 | like `OrderByDescending`, the sort keeps recordings with equal creation times in scan order |
| RecordingStore.LatestFirst | MacroRecorder/Services/RecordingService.cs:66 | of two recordings, the later one is listed first |
| RecordingStore.RecordingService.constructor | MacroRecorder/Services/RecordingService.cs:11-21 | the service sees the directory as it is |
| RecordingStore.RecordingService.SaveRecording | MacroRecorder/Services/RecordingService.cs:23-30 | writes the recording's JSON under its id, replacing any old file |
| RecordingStore.RecordingService.LoadRecording | MacroRecorder/Services/RecordingService.cs:32-43 | returns the recording its file holds, or the error of a missing or unparsable file |
| RecordingStore.RecordingService.GetAllRecordings | MacroRecorder/Services/RecordingService.cs:45-67 | every recording whose file parses, once each, sorted newest first and stable among equal times |
| RecordingStore.RecordingService.DeleteRecording | MacroRecorder/Services/RecordingService.cs:69-77 | removes the id's file if there is one |
| RecordingStore.RecordingService.RenameRecording | MacroRecorder/Services/RecordingService.cs:79-86 | a failed load changes nothing and reports its error; otherwise the recording is saved back with the new name |
| RecordingStore.RenameChangesOnlyName | MacroRecorder/Services/RecordingService.cs:79-86 | after a rename the id loads the same recording with only the name changed, and other ids are untouched |
| PythonBridge.TypeTagInjective | MacroRecorder/Services/PythonRecorderService.cs:128-136 | different action types get different tags |
| PythonBridge.EncodeTagged | MacroRecorder/Services/PythonRecorderService.cs:126-158 | the record sent for an action has these fields. `time` is the timestamp. `x` and `y` are 0 for keys. `button` is `Button.left` exactly for a left click. `pressed` is set only for clicks. `dx` is the wheel delta. `dy` is 0. `key` is the key name or "". `checked` is set only for keys |
| PythonBridge.KeyReleaseSentAsPress | MacroRecorder/Services/PythonRecorderService.cs:128-136 | as written no record is ever tagged `key_release`: every key action goes out as `key_press` |
| PythonBridge.Encode | MacroRecorder/Services/PythonRecorderService.cs:126-158 | corrected: tagged `key_release` exactly for a released key and `key_press` exactly for a pressed one; other kinds as written |
| PythonBridge.EncodingsDifferOnReleasedKeys | MacroRecorder/Services/PythonRecorderService.cs:128-136 | the two encodings differ exactly on released keys |
| PythonBridge.Notches | MacroRecorder/Services/PythonRecorderService.cs:154 | the whole notches of a raw wheel delta (120 per notch), truncated toward zero: within one notch of the delta and never past it |
| PythonBridge.NotchesOfWholeTurns | MacroRecorder/Services/PythonRecorderService.cs:154 | a delta of `n` whole notches gives back `n` |
| PythonBridge.EncodeIntended | MacroRecorder/Services/PythonRecorderService.cs:150-156 | the corrected record: a wheel turn goes as `dy` in notches with `dx` 0; every other action as `Encode` gives it |
| PythonBridge.IntendedDiffersOnWheelAndRelease | MacroRecorder/Services/PythonRecorderService.cs:133-156 | the corrected and as-written records agree exactly when the action is neither a non-zero wheel turn nor a released key |
| PythonBridge.EncodeAll | MacroRecorder/Services/PythonRecorderService.cs:126-158 | as written: one record per action, in order, each as `EncodeAsWritten` gives it, so none tagged `key_release` |
| PythonBridge.EncodeAllAppend | MacroRecorder/Services/PythonRecorderService.cs:126-158 | encoding distributes over concatenation |
| PythonBridge.PythonRecorderService.constructor | MacroRecorder/Services/PythonRecorderService.cs:12-16 | a new service is idle with no child processes |
| PythonBridge.PythonRecorderService.StartRecording | MacroRecorder/Services/PythonRecorderService.cs:35-71 | ignored while recording; otherwise it sets the flag, starts the recorder script and writes `START` to it |
| PythonBridge.PythonRecorderService.StopRecording | MacroRecorder/Services/PythonRecorderService.cs:73-91 | without a running recording it changes nothing. Otherwise it writes `STOP` and `QUIT`, ends the process, clears the flag and raises `RecordingStopped`. It always returns an empty list, since nothing fills the buffer |
| PythonBridge.PythonRecorderService.PlayActions | MacroRecorder/Services/PythonRecorderService.cs:93-162 | ignored while playing or for no actions; otherwise it sets the flag, starts the player and sends one `PLAY:` line with every action encoded as written, released keys tagged `key_press` |
| PythonBridge.PythonRecorderService.StopPlayback | MacroRecorder/Services/PythonRecorderService.cs:164-181 | without a player it changes nothing; otherwise it writes `STOP` and `QUIT`, ends the process, clears the flag and raises `PlaybackStopped` |
| PythonBridge.PythonRecorderService.OnRecorderOutput | MacroRecorder/Services/PythonRecorderService.cs:56-67 | `RECORDING_STARTED` raises started. `RECORDING_STOPPED` clears the flag and raises stopped. Any other line is ignored |
| PythonBridge.PythonRecorderService.OnPlayerOutput | MacroRecorder/Services/PythonRecorderService.cs:112-123 | `PLAYBACK_STARTED` raises started. `PLAYBACK_STOPPED` clears the flag and raises stopped. Any other line is ignored |
| PythonBridge.PythonRecorderService.Dispose | MacroRecorder/Services/PythonRecorderService.cs:183-187 | stops a running recording, then a running player: each writes `STOP` and `QUIT`, drops its process, clears its flag and raises its stopped event, and whatever was not running is left as it was |
| PythonBridge.RecordThroughScript | MacroRecorder/Services/PythonRecorderService.cs:35-91 | a whole session in which the script reports it started and answers `STOP` returns no actions, and raises started, then stopped twice |
| Pynput.TrimStart | MacroRecorder/player.py:97 | drops exactly the leading whitespace |
| Pynput.TrimEnd | MacroRecorder/player.py:97 | drops exactly the trailing whitespace |
| Pynput.StripIdempotent | MacroRecorder/player.py:97 | stripping twice is stripping once |
| Pynput.StripSurrounded | MacroRecorder/player.py:97 | a command surrounded by whitespace, such as a trailing newline, strips to the command |
| Pynput.Lower | MacroRecorder/player.py:84 | lower-cases each character in place, keeping the length |
| Pynput.LowerFixesLowerNames | MacroRecorder/player.py:84 | the result has no capitals, and a lower-case name is unchanged |
| Pynput.ListedAt | MacroRecorder/player.py:84 | being a `Key` member means occurring in the member list |
| Pynput.KeyText | MacroRecorder/recorder.py:119-122 | a special key is recorded as `Key.` followed by its name |
| Pynput.ButtonMentionsLeft | MacroRecorder/macro_recorder.py:194 | of the three button names only the left button's contains "left" |
| PyRecorder.Capture | MacroRecorder/recorder.py:78-145 | every appended record carries the callback's timestamp |
| PyRecorder.CaptureFields | MacroRecorder/recorder.py:78-145 | each callback gives its own tag; `pressed` is true or false for keys and the click's state for clicks; coordinates, button text, scroll amounts and key text are copied |
| PyRecorder.Initial | MacroRecorder/recorder.py:15-20 | a new recorder is idle with nothing recorded or printed |
| PyRecorder.Next | MacroRecorder/recorder.py:22-145 | every command or callback keeps the recorder's invariant: recording exactly when both listeners run |
| PyRecorder.Run | MacroRecorder/recorder.py:147-158 | the invariant holds throughout a session |
| PyRecorder.GuardsMakeRepeatsHarmless | MacroRecorder/recorder.py:24-51 | a second `STOP` does nothing, `START` while recording does nothing, and after `STOP` the recorder is idle |
| PyRecorder.RunAppend | MacroRecorder/recorder.py:150-158 | a session split in two runs as its halves one after the other |
| PyRecorder.Captures | MacroRecorder/recorder.py:74-145 | one record per callback, stamped relative to the start |
| PyRecorder.RecordingAppendsInOrder | MacroRecorder/recorder.py:78-145 | while recording, callbacks append their records in arrival order and change nothing else |
| PyRecorder.IdleIgnoresCallbacks | MacroRecorder/recorder.py:80-81 | when not recording, callbacks change nothing |
| PyRecorder.RecordingSession | MacroRecorder/recorder.py:22-72 | `START`, callbacks, `STOP` leave the recorder idle with both listeners stopped. The actions are the captures in order. The output is the two status lines and the JSON report with those actions |
| PyRecorder.Recorder.constructor | MacroRecorder/recorder.py:15-20 | a new recorder is in the initial state |
| PyRecorder.Recorder.Start | MacroRecorder/recorder.py:22-46 | ignored while recording; otherwise it clears the actions, stamps the start, starts both listeners and prints `RECORDING_STARTED` |
| PyRecorder.Recorder.Stop | MacroRecorder/recorder.py:48-72 | idle: returns nothing and changes nothing. Otherwise it stops both listeners, prints `RECORDING_STOPPED` and the report, and returns the report with the recorded actions |
| PyRecorder.Recorder.Append | MacroRecorder/recorder.py:82-87 | appends the capture stamped relative to the start |
| PyRecorder.Recorder.OnMove | MacroRecorder/recorder.py:78-87 | appends a move record only while recording |
| PyRecorder.Recorder.OnClick | MacroRecorder/recorder.py:89-100 | appends a click record only while recording |
| PyRecorder.Recorder.OnScroll | MacroRecorder/recorder.py:102-113 | appends a scroll record only while recording |
| PyRecorder.Recorder.OnPress | MacroRecorder/recorder.py:115-129 | appends a key-press record only while recording |
| PyRecorder.Recorder.OnRelease | MacroRecorder/recorder.py:131-145 | appends a key-release record only while recording |
| PyRecorder.Recorder.Handle | MacroRecorder/recorder.py:150-156 | handling a command or callback moves the object exactly as the state function `Next` says |
| PyRecorder.ClassifyAll | MacroRecorder/recorder.py:150-158 | one classified occurrence per input, in order |
| PyRecorder.QuitIndex | MacroRecorder/recorder.py:157-158 | the first `QUIT`: none before it, and it is one when inside the input |
| PyRecorder.ServeOccurrences | MacroRecorder/recorder.py:150-158 | the loop handles everything before the first `QUIT` and nothing after it |
| PyRecorder.ServeOccurrence | MacroRecorder/recorder.py:150-156 | one iteration advances the recorder by one step of `Run` |
| PyRecorder.Serve | MacroRecorder/recorder.py:147-158 | `main` ends in the state `Run` gives for the input up to the first `QUIT` |
| PyPlayer.ParseKeyCases | MacroRecorder/player.py:76-91 | `parse_key` gives None exactly for the empty string and for unknown `Key.` names. It gives a `Key` member exactly for known ones, lower-cased. Any other text is returned as is unless quoted |
| PyPlayer.ParseKeyOfMember | MacroRecorder/player.py:82-85 | `Key.` and a member's name parse to that member |
| PyPlayer.ParseKeyUnquotes | MacroRecorder/player.py:86-87 | a quoted text parses to the text inside the quotes |
| PyPlayer.LoneQuoteIsSkipped | MacroRecorder/player.py:86-87 | a single quote character parses to the empty string, which the player then skips |
| PyPlayer.Dispatch | MacroRecorder/player.py:44-67 | each record makes at most one controller call |
| PyPlayer.ClickButtonIsExact | MacroRecorder/player.py:49-54 | a click uses the left button exactly when the field is `Button.left`, and presses exactly when `pressed` is true |
| PyPlayer.ReplaysEncodedAction | MacroRecorder/player.py:44-67 | the player replays what the bridge sends. A move goes to the point. A click presses or releases its own button. A wheel turn is replayed as `scroll(Delta, 0)`: sideways, in raw units. A key is pressed or released as it was captured, unless its name does not parse |
| PyPlayer.VerticalWheelScrollsSideways | MacroRecorder/player.py:56-57 | as written, a one-notch vertical wheel turn is replayed as `scroll(120, 0)`: 120 steps sideways |
| PyPlayer.ReplaysIntendedAction | MacroRecorder/player.py:44-67 | with the corrected record, a wheel turn scrolls vertically by its notches (exactly `n` for `n` whole notches), and every other action replays as with `Encode` |
| PyPlayer.KeyReleaseReplayedAsPress | MacroRecorder/player.py:59-62 | with the as-written encoding, a released key is replayed as a press |
| PyPlayer.Times | MacroRecorder/player.py:36 | one target time per record |
| PyPlayer.Effects | MacroRecorder/player.py:44-67 | one dispatch per record |
| PyPlayer.PassTiming | MacroRecorder/player.py:31-67 | the player sleeps until the running maximum of the targets, dispatches every record once in order, and makes exactly the records' controller calls |
| PyPlayer.Player.constructor | MacroRecorder/player.py:14-18 | a new player is idle with nothing played or printed |
| PyPlayer.Player.Play | MacroRecorder/player.py:20-70 | ignored while playing or for no actions. Otherwise it stores the actions, plays one whole deadline pass, prints `PLAYBACK_STARTED` and `PLAYBACK_STOPPED`, and ends idle |
| PyPlayer.Player.RunPass | MacroRecorder/player.py:31-67 | the loop adds exactly one deadline pass over the records |
| PyPlayer.Player.PlayRecord | MacroRecorder/player.py:36-67 | one iteration extends the pass by one record and advances the clock to the next running maximum |
| PyPlayer.Player.Stop | MacroRecorder/player.py:72-74 | clears the flag and nothing else |
| PyPlayer.ParseAll | MacroRecorder/player.py:96-110 | one classified command per line read |
| PyPlayer.QuitIndex | MacroRecorder/player.py:109-110 | the first `QUIT`: none before it, and it is one when inside the input |
| PyPlayer.BadPayloadsOnlyReport | MacroRecorder/player.py:99-105 | `PLAY:` lines whose JSON does not decode play nothing and print one error line each |
| PyPlayer.SessionStep | MacroRecorder/player.py:96-110 | a session's trace and output are those of its lines, one after another |
| PyPlayer.HandleLine | MacroRecorder/player.py:97-108 | one line adds its own trace and output, and the player ends idle |
| PyPlayer.ServeCommands | MacroRecorder/player.py:96-110 | the loop handles every command before the first `QUIT` and nothing after it |
| PyPlayer.ServeCommand | MacroRecorder/player.py:97-108 | one iteration extends the session by exactly one line |
| PyPlayer.Serve | MacroRecorder/player.py:93-110 | `main` plays and prints exactly what the stripped lines before the first `QUIT` call for |
| MacroRecorderPy.Trunc | MacroRecorder/macro_recorder.py:105-106 | `int(x)` truncates toward zero |
| MacroRecorderPy.TruncKeepsWholeNumbers | MacroRecorder/macro_recorder.py:105-106 | whole numbers are kept, and the sign never flips |
| MacroRecorderPy.Capture | MacroRecorder/macro_recorder.py:99-159 | every record carries the callback's timestamp |
| MacroRecorderPy.CaptureTags | MacroRecorder/macro_recorder.py:99-159 | each callback gives its own type tag |
| MacroRecorderPy.ParseKeyCases | MacroRecorder/macro_recorder.py:220-231 | `parse_key` finds a key exactly for a known `Key.` name, lower-cased, or a single character; the result is truthy exactly when found |
| MacroRecorderPy.Dispatch | MacroRecorder/macro_recorder.py:188-211 | each record makes at most one controller call |
| MacroRecorderPy.ReplaysCapture | MacroRecorder/macro_recorder.py:99-211 | what is recorded is replayed. A move goes to the truncated point. A click uses the left button for the left button and the right for the others. A scroll uses the truncated amounts. Known special keys and one-character keys are pressed or released as recorded, and a key without a character is skipped |
| MacroRecorderPy.Times | MacroRecorder/macro_recorder.py:181 | one target time per record |
| MacroRecorderPy.Effects | MacroRecorder/macro_recorder.py:188-211 | one dispatch per record |
| MacroRecorderPy.ReplayTiming | MacroRecorder/macro_recorder.py:173-211 | the replay sleeps until the running maximum of the targets, dispatches every record once in order, and makes exactly their controller calls |
| MacroRecorderPy.MacroRecorder.constructor | MacroRecorder/macro_recorder.py:17-30 | a new recorder is idle, with no actions, no start and no listeners |
| MacroRecorderPy.MacroRecorder.ToggleRecord | MacroRecorder/macro_recorder.py:51-55 | flips the recording flag. Starting clears the actions and stamps the start; stopping keeps the actions. The listeners run exactly while recording |
| MacroRecorderPy.MacroRecorder.StartRecord | MacroRecorder/macro_recorder.py:57-77 | recording, no actions, start stamped, both listeners running |
| MacroRecorderPy.MacroRecorder.StopRecord | MacroRecorder/macro_recorder.py:79-94 | idle with both listeners stopped; the actions and start are kept |
| MacroRecorderPy.MacroRecorder.Append | MacroRecorder/macro_recorder.py:102-107 | appends the capture stamped relative to the start |
| MacroRecorderPy.MacroRecorder.OnMove | MacroRecorder/macro_recorder.py:99-107 | appends a move record only while recording |
| MacroRecorderPy.MacroRecorder.OnClick | MacroRecorder/macro_recorder.py:109-119 | appends a click record only while recording |
| MacroRecorderPy.MacroRecorder.OnScroll | MacroRecorder/macro_recorder.py:121-131 | appends a scroll record only while recording |
| MacroRecorderPy.MacroRecorder.OnPress | MacroRecorder/macro_recorder.py:133-145 | appends a key-press record only while recording |
| MacroRecorderPy.MacroRecorder.OnRelease | MacroRecorder/macro_recorder.py:147-159 | appends a key-release record only while recording |
| MacroRecorderPy.MacroRecorder.Play | MacroRecorder/macro_recorder.py:161-171 | with no actions it changes nothing; otherwise it plays one whole deadline pass and ends idle, leaving the recording state alone |
| MacroRecorderPy.MacroRecorder.PlayActions | MacroRecorder/macro_recorder.py:173-218 | the replay thread adds one deadline pass when started while playing, and leaves the flag cleared |
| MacroRecorderPy.MacroRecorder.PlayRecord | MacroRecorder/macro_recorder.py:181-211 | one iteration extends the pass by one record and advances the clock |
| SimpleRecorder.MouseCallbackTable | MacroRecorder/SimpleRecorder.cs:724-748 | exactly the six mouse messages with `nCode >= 0` raise an event. A move and the four button messages carry the hook's point and their direction and button. The wheel carries the signed high word |
| SimpleRecorder.KeyCallbackTable | MacroRecorder/SimpleRecorder.cs:750-763 | key down for `WM_KEYDOWN` or `WM_SYSKEYDOWN`, key up for `WM_KEYUP` or `WM_SYSKEYUP`, and nothing otherwise or for `nCode < 0` |
| SimpleRecorder.Handled | MacroRecorder/SimpleRecorder.cs:263-288 | the stored event has the handler's type and the timestamp. Moves and clicks use the cursor position, not the hook's point. A wheel event uses the hook's point and delta. Keys have position 0 and are down exactly for key down |
| SimpleRecorder.Dispatch | MacroRecorder/SimpleRecorder.cs:352-374 | a move sets the cursor; clicks and wheel turns are `mouse_event`s; keys are `keybd_event`s |
| SimpleRecorder.ReplayOfCapture | MacroRecorder/SimpleRecorder.cs:263-374 | from hook message to replay. A move goes back to the cursor. Any button press or release becomes a left press or release at 0,0. The wheel keeps its delta. A key keeps its code's low byte and its direction |
| SimpleRecorder.ClicksReplayAsLeft | MacroRecorder/SimpleRecorder.cs:356-361 | a click replays the left button whichever button was recorded |
| SimpleRecorder.Times | MacroRecorder/SimpleRecorder.cs:345 | one target per event |
| SimpleRecorder.Commands | MacroRecorder/SimpleRecorder.cs:352-374 | one native command per injected event, in order |
| SimpleRecorder.RoundsOneMore | MacroRecorder/SimpleRecorder.cs:322 | one more repeat appends one more whole pass |
| SimpleRecorder.RoundsTiming | MacroRecorder/SimpleRecorder.cs:322-375 | a pass sleeps until the running maximum of the targets and injects every event once in order. `n` repeats wait `n` times a pass with no pause between them and inject `n` times the events |
| SimpleRecorder.NothingToReplay | MacroRecorder/SimpleRecorder.cs:322-341 | an empty recording replays nothing however often it repeats |
| SimpleRecorder.StopAtHead | MacroRecorder/SimpleRecorder.cs:322 | a stop first seen by the loop condition before pass `i` ends the playback after exactly `i` whole passes |
| SimpleRecorder.StopInPass | MacroRecorder/SimpleRecorder.cs:343 | a stop first seen before event `played` of pass `i` ends the playback after `i` passes and exactly that pass's earlier events |
| SimpleRecorder.RanToEnd | MacroRecorder/SimpleRecorder.cs:322-345 | a stop none of the `n * (|evs| + 1)` reads sees lets all `n` passes play |
| SimpleRecorder.PassTicksPlay | MacroRecorder/SimpleRecorder.cs:322-345 | a pass reads the flag once at the loop condition and once before each event; cut at read `j` it plays its first `j - 1` events, and uncut the whole deadline pass |
| SimpleRecorder.ReplayTicksPlay | MacroRecorder/SimpleRecorder.cs:322-345 | without a stop, `n` passes read the flag `n * (|evs| + 1)` times and play `n` passes back to back |
| SimpleRecorder.CutInPass | MacroRecorder/SimpleRecorder.cs:322-345 | a stop first seen at read `j` of pass `i` plays the `i` passes before it and what pass `i` plays before that read |
| SimpleRecorder.StoppedReplayIsPrefix | MacroRecorder/SimpleRecorder.cs:322-345 | wherever the stop falls, the replay is a prefix of the uninterrupted passes |
| SimpleRecorder.LaterStopPlaysMore | MacroRecorder/SimpleRecorder.cs:322-345 | a later stop plays an extension of what an earlier one plays |
| SimpleRecorder.StopBeforeStartPlaysNothing | MacroRecorder/SimpleRecorder.cs:322 | a replay begun with the flag cleared, or with the stop already made, plays nothing |
| SimpleRecorder.UnhookCalls | MacroRecorder/SimpleRecorder.cs:716-722 | unhooks exactly the non-zero handles, and nothing when both are 0 |
| SimpleRecorder.LowLevelHook.constructor | MacroRecorder/SimpleRecorder.cs:704-708 | no hooks installed and no calls made |
| SimpleRecorder.LowLevelHook.Install | MacroRecorder/SimpleRecorder.cs:710-714 | stores the two handles the system returned |
| SimpleRecorder.LowLevelHook.Uninstall | MacroRecorder/SimpleRecorder.cs:716-722 | unhooks the non-zero handles and zeroes both |
| SimpleRecorder.LowLevelHook.Dispose | MacroRecorder/SimpleRecorder.cs:808-811 | the same as `Uninstall` |
| SimpleRecorder.LowLevelHook.MouseCallback | MacroRecorder/SimpleRecorder.cs:724-748 | raises exactly the classified event and always passes the message on |
| SimpleRecorder.LowLevelHook.KeyboardCallback | MacroRecorder/SimpleRecorder.cs:750-763 | raises exactly the classified key event and always passes the message on |
| SimpleRecorder.UninstallTwice | MacroRecorder/SimpleRecorder.cs:716-722 | a second `Uninstall` unhooks nothing more |
| SimpleRecorder.EventList.constructor | MacroRecorder/SimpleRecorder.cs:51 | a new event list is empty |
| SimpleRecorder.EventList.Copy | MacroRecorder/SimpleRecorder.cs:246 | the separate list the corrected `StopRecord` gives a recording holds exactly the events it was built from |
| SimpleRecorder.EventList.Add | MacroRecorder/SimpleRecorder.cs:266 | appends at the end |
| SimpleRecorder.EventList.Clear | MacroRecorder/SimpleRecorder.cs:260 | empties the list |
| SimpleRecorder.Recording.constructor | MacroRecorder/SimpleRecorder.cs:622-628 | holds the given id, name, creation time and event list object |
| SimpleRecorder.MainForm.constructor | MacroRecorder/SimpleRecorder.cs:53-65 | idle, nothing selected, no hook, an empty fresh event list, and the stored files as found |
| SimpleRecorder.MainForm.ToggleRecord | MacroRecorder/SimpleRecorder.cs:198-260 | flips recording, ending with an empty buffer; `playing`, the trace and the poll count stay as they were. Starting stamps the start, clears the selection and installs a fresh hook with the given handles and no calls, changing no recording and no file. Stopping goes through the source's `StopRecord`: the old hook unhooks its non-zero handles; when nothing was captured the recordings and files are unchanged; otherwise the earlier recordings are kept and one fresh recording with the new id, name and time is appended, its file holds the events, and its list is the shared buffer, now empty |
| SimpleRecorder.MainForm.StartRecord | MacroRecorder/SimpleRecorder.cs:206-229 | recording, start stamped, buffer cleared, selection cleared, a fresh hook with the given handles; the library is unchanged |
| SimpleRecorder.MainForm.StopRecord | MacroRecorder/SimpleRecorder.cs:231-261 | as written: unhooks and drops the hook. With events captured it saves them to the file and appends a new recording, but that recording's list is the shared buffer, which is then cleared, so it is left empty. Without events the library and files are unchanged |
| SimpleRecorder.MainForm.StopRecordCopying | MacroRecorder/SimpleRecorder.cs:231-261 | corrected: the same, except the new recording gets a fresh copy of the captured events |
| SimpleRecorder.MainForm.Save | MacroRecorder/SimpleRecorder.cs:480-486 | writes the recording's current events under its id |
| SimpleRecorder.MainForm.OnMouseMove | MacroRecorder/SimpleRecorder.cs:263-267 | appends a move at the cursor position, stamped from the record start |
| SimpleRecorder.MainForm.OnMouseClick | MacroRecorder/SimpleRecorder.cs:269-273 | appends a click at the cursor position with its direction and button |
| SimpleRecorder.MainForm.OnMouseWheel | MacroRecorder/SimpleRecorder.cs:275-278 | appends a wheel event at the hook's point with its delta |
| SimpleRecorder.MainForm.OnKeyDown | MacroRecorder/SimpleRecorder.cs:280-283 | appends a key-down event with its code |
| SimpleRecorder.MainForm.OnKeyUp | MacroRecorder/SimpleRecorder.cs:285-288 | appends a key-up event with its code |
| SimpleRecorder.MainForm.Deliver | MacroRecorder/SimpleRecorder.cs:263-288 | a raised event is stored as `Handled` says |
| SimpleRecorder.MainForm.HookMouse | MacroRecorder/SimpleRecorder.cs:724-748 | a mouse message appends its classified event, if any, and is passed on |
| SimpleRecorder.MainForm.HookKeyboard | MacroRecorder/SimpleRecorder.cs:750-763 | a keyboard message appends its classified event, if any, and is passed on |
| SimpleRecorder.MainForm.OnRecordingSelected | MacroRecorder/SimpleRecorder.cs:435-455 | no selection clears it, an index in range selects that recording, and one out of range keeps the old one |
| SimpleRecorder.MainForm.StopPlayback | MacroRecorder/SimpleRecorder.cs:313-316 | clears the playing flag |
| SimpleRecorder.MainForm.Poll | MacroRecorder/SimpleRecorder.cs:322 | a read of the flag sees a stop exactly when one was made before it, and it stays seen |
| SimpleRecorder.MainForm.PlaySelected | MacroRecorder/SimpleRecorder.cs:295-311 | with nothing selected it does nothing. Otherwise it sets the flag and plays exactly what `PlayRecording` plays for the selected recording's events and `repeatCount` passes (none when it is not positive), and ends idle |
| SimpleRecorder.MainForm.PlayRecording | MacroRecorder/SimpleRecorder.cs:318-396 | the trace grows by exactly `StoppedReplay`: what the uninterrupted passes play before the first of the replay's reads of `playing` to find it cleared, or nothing when it was cleared to begin with. It ends idle |
| SimpleRecorder.MainForm.PlayRound | MacroRecorder/SimpleRecorder.cs:322-376 | one repeat: a whole pass and a loop test that finds the flag set, or a stop, after which the trace is exactly `StoppedReplay` |
| SimpleRecorder.MainForm.PlayPass | MacroRecorder/SimpleRecorder.cs:341-375 | a whole deadline pass while no stop is seen, or the prefix before the event at which a stop is first seen |
| SimpleRecorder.MainForm.PlayEvent | MacroRecorder/SimpleRecorder.cs:343-374 | one iteration extends the pass by one event and advances the clock to the next running maximum |
| SimpleRecorder.AliasedRecordingIsEmpty | MacroRecorder/SimpleRecorder.cs:239-260 | as written, recording one event and stopping leaves 0 events in memory and 1 in the file, and replaying injects nothing |
| SimpleRecorder.CopiedRecordingKeepsEvents | MacroRecorder/SimpleRecorder.cs:239-260 | corrected, the same session keeps 1 event in memory and 1 in the file, and replaying injects it |
| SimpleRecorder.DecimalText | MacroRecorder/SimpleRecorder.cs:516 | a number's decimal text is digits only, one digit exactly below 10 and two up to 99 |
| SimpleRecorder.TwoDigits | MacroRecorder/SimpleRecorder.cs:516 | `D2` gives exactly two digits |
| SimpleRecorder.DecimalRoundTrip | MacroRecorder/SimpleRecorder.cs:516 | the decimal text reads back as the number |
| SimpleRecorder.TwoDigitsRoundTrip | MacroRecorder/SimpleRecorder.cs:516 | the two-digit text reads back as the number |
| SimpleRecorder.FormatDuration | MacroRecorder/SimpleRecorder.cs:512-518 | the label is four or five characters |
| SimpleRecorder.MinutesText | MacroRecorder/SimpleRecorder.cs:515-517 | the minutes field reads back as the minutes component, in one or two digits |
| SimpleRecorder.FormatDurationFields | MacroRecorder/SimpleRecorder.cs:512-518 | the label is the minutes, a colon and the two-digit seconds, in both branches |
| SimpleRecorder.FormatDurationReadsBack | MacroRecorder/SimpleRecorder.cs:512-518 | the label parses back as minutes and seconds, each the matching component and below 60 |
| SimpleRecorder.FieldsGiveWholeSeconds | MacroRecorder/SimpleRecorder.cs:512-518 | below an hour, minutes times 60 plus seconds is the duration in whole seconds |
| SimpleRecorder.HoursAreDropped | MacroRecorder/SimpleRecorder.cs:516 | only the minutes component is shown, so 61 minutes labels as 1:00, like one minute |

## Left out

- **Hooks, the wire format and threads.**
  - Installing and removing system hooks and injecting input are Win32 calls. Handles come
    in as parameters, and injected input is logged as commands.
  - `GetCursorPos`, `GetKeyNameText` and the enum name of a virtual key are parameters of
    the methods that use them.
  - JSON serialisation and parsing are abstract. A saved file is either a recording or
    unparsable. The player's JSON decoder is a function parameter.
  - Threads and events: a stop request on another thread is a poll index. Events raised to
    subscribers are a logged sequence. Background threads run to completion inside the call
    that starts them.
  - Exceptions: the catch blocks that only show a message are left out. An exception from
    inside a replay, other than cancellation, is not modelled.
- **Clocks.** All clocks are exact integer milliseconds.
  - `DateTime.Now`, `time.time()` and `round(..., 4)` are a given `now` or `at` value.
  - The Python scripts' seconds are the same milliseconds. `TimeSpan.TotalSeconds` on the
    wire is the timestamp unchanged.
  - `Thread.Sleep((int)wait)` and `time.sleep` wait exactly. A late action is not waited for.
- **Process plumbing.** Script paths, process start, kill, `WaitForExit(1000)` and the
  asynchronous read of output lines are left out. A process's input is a logged list of
  commands, and its output lines arrive through the output handlers.
- **User interface.** Buttons, labels, list views, messages and the theme (`ApplyTheme`)
  are not part of this model. That covers `AddRecordingToList`, `RefreshList`, the
  "playing i/n" label and the Tk window.
- **SimpleRecorder file handling.**
  - `LoadRecordings`, `RenameSelected` and `DeleteSelected` read and write the recordings
    folder and drive dialogs, and are left out.
  - The `MainForm` constructor starts from an empty library with the stored files as a map.
  - `RecordingService` models the same store in full.
- **Other source files.** `MainViewModel.cs`, `HotKeyService.cs`, `ThemeManager.cs`,
  `Program.cs` and `MainWindow.xaml.cs` are callers or UI and are not part of this model.
- **Widths and keys.**
  - `InputEvent.delta` and `keyCode` are 32-bit values. Only the casts the source makes
    (`(short)`, `(byte)`, the shift in `GetKeyName`) are written out.
  - `Lower` lower-cases only the ASCII letters. pynput's key names are ASCII.
  - `IsSpace` lists the characters Python's `str.isspace` accepts.
- **Floating point.** `SimpleRecorder`'s `double` timestamps and the Python scripts' float
  times and coordinates are whole milliseconds. Coordinates are Dafny reals where the
  scripts pass them on unconverted.
- SimpleRecorder.FormatDuration: takes a non-negative whole number of milliseconds, whereas
  the source takes a `double`, which may be negative and is then truncated by
  `TimeSpan.FromMilliseconds`.
- SimpleRecorder.MainForm.PlaySelected: takes the repeat count as a parameter; the
  `NumericUpDown` control it is read from, and its bounds, are UI.
- InputHook.ClassifyKey: states only that a key action always has some name. The name is
  `KeyName(nameText, enumName)`, which depends on the Win32 lookup given as a parameter.
- Playback.PlaybackService.PlayAsync: an infinite run is always stopped by its request,
  which every run has at some poll `cancelAt`; such a run plays at most `cancelAt + 1`
  repeats. An infinite run that is never cancelled does not end and is not represented.
- RecordingStore.SaveThenLoad: assumes the JSON written for a recording reads back as that
  recording. The source's `Actions` is a list of the abstract `InputAction`
  (MacroRecorder/Models/Recording.cs:14), which declares no derived types to the serializer.
  System.Text.Json then writes only the base properties of each action and cannot
  deserialize a non-empty list of it, so a real round trip keeps only recordings without
  actions.
- RecordingStore.RecordingService.LoadRecording: for the same reason, a file holding any
  actions makes the source throw the deserializer's exception, and `GetAllRecordings` skips
  that file. The model loads it as the recording that was saved.
- `recorder.py`'s report: `"start_time"` holds the time `stop` runs, which is modelled as
  written and not treated as a finding.

## Findings

| source | as written | input that shows it | evidently intended | confidence | as-written member | corrected member |
|---|---|---|---|---|---|---|
| MacroRecorder/Services/PlaybackService.cs:132 | the wheel data passed to `mouse_event` is `Delta * 120`, but the hook stores `Delta` in raw units where one notch is already 120 | a one-notch scroll (`mouseData` high word 120) replays with data 14400, that is 120 notches | pass the captured delta unchanged | not executed | Playback.WheelScalingOvershoots | Playback.PlayAction |
| MacroRecorder/Models/Recording.cs:46 | `KeyAction.ActionType` is always `KeyDown`, so `PythonRecorderService` tags every key release `key_press`, and the player presses the key again instead of releasing it | a key release of A (`IsDown = false`) is sent as `key_press` and replayed as a press | `KeyDown` for presses and `KeyUp` for releases | not executed | PythonBridge.KeyReleaseSentAsPress | PythonBridge.Encode |
| MacroRecorder/Services/PythonRecorderService.cs:154-155 | a vertical wheel turn is sent as `dx = Delta` in raw units and `dy = 0`, and player.py:57 passes them to pynput's `scroll(dx, dy)`, which counts steps | a one-notch turn (`Delta` 120) is replayed as `scroll(120, 0)`: 120 steps sideways and no vertical scroll | send `dx = 0` and `dy = Delta / 120` | not executed | PyPlayer.VerticalWheelScrollsSideways | PyPlayer.ReplaysIntendedAction |
| MacroRecorder/SimpleRecorder.cs:246 | the new recording's `Events` is the shared `currentEvents` list, which `StopRecord` clears at line 260 | record one event and stop: the file holds 1 event, the in-memory recording 0, and replaying it injects nothing | give the recording its own copy of the events | not executed | SimpleRecorder.AliasedRecordingIsEmpty | SimpleRecorder.CopiedRecordingKeepsEvents |
