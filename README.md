# What-am-I-doing: Pomodoro timer core in Dafny

This project models the logic of a menu-bar Pomodoro utility written in Swift:
the session timer (`TimerViewModel`), its settings record and state enum, the
"current task" text store (`TaskViewModel`), the option cycling of the
settings row, and the integer part of the hex-colour decoder with the
state-to-colour lookups. It proves the properties the code promises about them.

Modules, following the source files (TimerViewModel.swift is split into a specification module and the class proved against it; `Decimal` and `Wrappers` are helpers with no source file of their own):

- `PomodoroState` (`pomodoro_state.dfy`): `TimerState` with its label and raw
  value, `Settings`, the defaults and the two option lists.
- `Decimal` (`decimal.dfy`): decimal rendering as Swift's string interpolation
  and `%02d` produce it, and the numeral reader it is proved against.
- `TimerSpec` (`timer_spec.dfy`): the abstract value of a timer view model
  (`Timer`) and one function per method of the view model. A function's
  `ensures` say what the operation means. The lemmas relate several calls.
- `Timer` (`timer.dfy`): class `TimerViewModel`. Its fields are updated in place
  as in the source. Every method is proved to leave `View()` where the matching
  `TimerSpec` function puts it, and every public method keeps `Valid()`, the
  invariant below.
- `Task` (`task.dfy`): class `TaskViewModel`.
- `SettingsView` (`settings_view.dfy`): `cycleOption`, the `onSelect` closures and
  the three button actions.
- `Colors` (`colors.dfy`): trimming, the digit-count switch, `accentColor` and `glowColor`.
- `Wrappers` (`wrappers.dfy`): `Option`.

Side effects are modelled as values:

- The one-second Foundation timer is the flag `ticking`. `tick` is a method
  called explicitly.
- The user-defaults settings entry is a map from key to `Option<Settings>`.
  `None` means bytes are stored but do not decode.
- The sound and the user notification are `Event`s appended to a log.

The timer invariant (`TimerSpec.Inv`) covers these facts:

- `ticking` holds exactly when the state is `Focus` or `Break`.
- A running state agrees with `currentSession`.
- An idle timer is on the focus session and shows the full focus duration.
- `remainingSeconds` is never negative.
- The settings durations are allowed options.

The private `StartTimer` demands that no timer is scheduled. So the proof also
shows that the source never starts a second tick stream.

`Timer.FocusThenBreak` is a client scenario with no contract of its own, so
it has no row below. It drives a fresh view model through start, pause,
resume, two skips and a reset, then sets the focus duration to 45. Its
assertions follow from the method contracts alone. The last one shows that a
restart over the saved store sees the new duration.

Three places where the code is easy to misread; the model follows the code:

- Completion fires on the tick that *finds* `remainingSeconds == 0`. The tick
  that brings the count from 1 to 0 is silent (`TimerSpec.FocusSessionRunsOut`).
- `updateFocusDuration` and `updateBreakDuration` do not check their argument.
  The model states membership as a `requires`. Their only caller, the settings
  row, passes an option, which `SettingsView.SelectFocus` and
  `SettingsView.SelectBreak` show.
- `loadTask()` runs from `init()` through a method, so the `didSet` observer
  fires. The loaded text, including the empty string for an absent key, is
  written back to the store.

## Model

| member | source | states |
|---|---|---|
| PomodoroState.TimerState.Label | Models/PomodoroState.swift:9-16 | each state has its own label: idle "Ready", focus "Focus Time", break "Break Time", paused "Paused" (each iff) |
| PomodoroState.TimerState.RawValue | Models/PomodoroState.swift:3-7 | each case's raw value is its own case name: "idle", "focus", "break_", "paused" (each iff) |
| PomodoroState.FromRawValue | Models/PomodoroState.swift:3-7 | a raw value decodes to the case whose raw value it is, and to nothing iff it is not a case name |
| PomodoroState.RawValueRoundTrip | Models/PomodoroState.swift:3-7 | decoding the raw value of a case gives that case |
| PomodoroState.LabelInjective | Models/PomodoroState.swift:9-16 | two states have the same label iff they are the same state |
| PomodoroState.OptionListsWellFormed | Models/PomodoroState.swift:24-25 | the focus list has 7 entries, the break list 4, both strictly increasing and positive |
| PomodoroState.DefaultsAreValid | Models/PomodoroState.swift:20-25 | the defaults are 25, 5 and sound on, and pass the loader's option check |
| Decimal.NatToDecimal | ViewModels/TimerViewModel.swift:30 | the rendering is non-empty, all digits, has a leading zero only for 0, and is one digit exactly below 10 |
| Decimal.DecimalRoundTrip | ViewModels/TimerViewModel.swift:30 | reading a rendered number back gives the number |
| Decimal.CanonicalNumeral | ViewModels/TimerViewModel.swift:30 | every numeral without a leading zero is the rendering of its value (the rendering is onto such numerals) |
| Decimal.IntToDecimal | Views/SettingsView.swift:10 | interpolation of an Int: the decimal rendering, with a minus sign before negatives |
| Decimal.IntToDecimalInjective | Views/SettingsView.swift:10-11 | different integers are rendered differently |
| Decimal.Pad2 | ViewModels/TimerViewModel.swift:30 | `%02d`: at least two digits, exactly two below 100, no leading zero beyond the two-digit padding, and the digits denote the number |
| TimerSpec.FormatTime | ViewModels/TimerViewModel.swift:27-31 | minutes and seconds joined by ':' with a two-digit seconds field; reading it back gives the seconds; five characters when under 100 minutes; no leading zero in a minutes field of three or more digits |
| TimerSpec.FormatTimeExamples | ViewModels/TimerViewModel.swift:27-31 | 65 seconds shows "01:05" and 0 shows "00:00" |
| TimerSpec.SaveSettings | ViewModels/TimerViewModel.swift:193-197 | the store now maps the settings key to the current settings; other keys keep their entries; nothing else changes |
| TimerSpec.LoadSettings | ViewModels/TimerViewModel.swift:179-191 | adopts a decoded record iff both durations are options; deletes the key when a decoded record fails; leaves all as is when absent or undecodable; only settings and store change |
| TimerSpec.Initial | ViewModels/TimerViewModel.swift:12-25 | a new view model is idle, on focus, not ticking, showing the focus duration; its settings are the stored valid record or the defaults; the invariant holds |
| TimerSpec.Start | ViewModels/TimerViewModel.swift:39-45 | from idle or paused it enters the recorded session's state and ticks; when running it changes nothing; never changes remaining time or session; keeps the invariant and leaves the timer running |
| TimerSpec.Pause | ViewModels/TimerViewModel.swift:47-52 | when running it pauses and stops ticking, otherwise nothing; remaining time and session kept; keeps the invariant |
| TimerSpec.TogglePlayPause | ViewModels/TimerViewModel.swift:54-60 | from a running state: paused and not ticking; from idle or paused: the recorded session's running state, ticking; remaining time, session, settings, store and log kept; keeps the invariant |
| TimerSpec.Reset | ViewModels/TimerViewModel.swift:62-67 | from any state: idle, focus session, full focus duration, not ticking; settings, store and log kept; establishes the invariant from any state with valid settings |
| TimerSpec.Skip | ViewModels/TimerViewModel.swift:69-79 | from any state: flips the session, enters its running state with its full duration and ticks; settings, store and log kept; establishes the invariant from any state with valid settings |
| TimerSpec.Tick | ViewModels/TimerViewModel.swift:94-118 | with time left, exactly one second less and nothing else; with none, a sound iff enabled and one notification titled by the ending state, then the other session at full length, still ticking; keeps the invariant |
| TimerSpec.UpdateFocusDuration | ViewModels/TimerViewModel.swift:161-167 | sets the focus duration and saves: the store is the old one with only the settings key overwritten; remaining time changes (to the new length) only when idle; nothing else changes; keeps the invariant |
| TimerSpec.UpdateBreakDuration | ViewModels/TimerViewModel.swift:169-172 | sets the break duration and saves: the store is the old one with only the settings key overwritten; nothing else changes; keeps the invariant |
| TimerSpec.ToggleSound | ViewModels/TimerViewModel.swift:174-177 | flips only the sound flag and saves: the store is the old one with only the settings key overwritten; nothing else changes; keeps the invariant |
| TimerSpec.CompletionEffects | ViewModels/TimerViewModel.swift:102-109 | a completing tick adds exactly one notification, and one sound exactly when sound is enabled |
| TimerSpec.CompletionSwitchesLikeSkip | ViewModels/TimerViewModel.swift:111-117 | on a consistent timer, completion makes the same session switch as skip |
| TimerSpec.FocusSessionRunsOut | ViewModels/TimerViewModel.swift:94-118 | with one second of focus left, the next tick is silent and reaches 0; the one after starts the break at full length with one "Focus Complete!" / "Time for a break." notification |
| TimerSpec.SkipTwice | ViewModels/TimerViewModel.swift:69-79 | two skips return to the starting session at its full length, running |
| TimerSpec.ResetIdempotent | ViewModels/TimerViewModel.swift:62-67 | resetting twice is resetting once |
| TimerSpec.StartThenPause | ViewModels/TimerViewModel.swift:39-52 | from idle, start gives a full focus session; pausing before a tick keeps the count; starting again resumes the same session |
| TimerSpec.SaveThenLoad | ViewModels/TimerViewModel.swift:179-197 | valid saved settings are what a fresh view model loads |
| TimerSpec.MutationsSurviveRestart | ViewModels/TimerViewModel.swift:161-197 | after each settings mutator, a restart over the store comes back with the mutated settings |
| TimerSpec.InvalidRecordDiscarded | ViewModels/TimerViewModel.swift:183-189 | a stored record with a disallowed duration gives the defaults and is deleted |
| TimerSpec.SevenMinuteFocusDiscarded | ViewModels/TimerViewModel.swift:183-189 | a stored 7-minute focus duration gives (25, 5, on) and removes the record |
| Timer.TimerViewModel.constructor | ViewModels/TimerViewModel.swift:12-25 | the new object is `TimerSpec.Initial` of the persisted store and is valid |
| Timer.TimerViewModel.FormattedTime | ViewModels/TimerViewModel.swift:27-31 | the display reads back as the remaining seconds |
| Timer.TimerViewModel.IsRunning | ViewModels/TimerViewModel.swift:33-35 | true iff the state is focus or break, which is exactly when a timer is scheduled |
| Timer.TimerViewModel.Start | ViewModels/TimerViewModel.swift:39-45 | in place, as `TimerSpec.Start`; keeps the invariant |
| Timer.TimerViewModel.Pause | ViewModels/TimerViewModel.swift:47-52 | in place, as `TimerSpec.Pause`; keeps the invariant |
| Timer.TimerViewModel.TogglePlayPause | ViewModels/TimerViewModel.swift:54-60 | in place, as `TimerSpec.TogglePlayPause`; keeps the invariant |
| Timer.TimerViewModel.Reset | ViewModels/TimerViewModel.swift:62-67 | in place, as `TimerSpec.Reset`; keeps the invariant |
| Timer.TimerViewModel.Skip | ViewModels/TimerViewModel.swift:69-79 | in place, as `TimerSpec.Skip`; keeps the invariant |
| Timer.TimerViewModel.StartTimer | ViewModels/TimerViewModel.swift:83-87 | only called when no timer is scheduled; afterwards one is |
| Timer.TimerViewModel.StopTimer | ViewModels/TimerViewModel.swift:89-92 | afterwards no timer is scheduled; nothing else changes |
| Timer.TimerViewModel.Tick | ViewModels/TimerViewModel.swift:94-100 | in place, as `TimerSpec.Tick`; keeps the invariant |
| Timer.TimerViewModel.HandleTimerComplete | ViewModels/TimerViewModel.swift:102-118 | stop, sound if enabled, notify, switch to the other session and reschedule |
| Timer.TimerViewModel.ResetToFocus | ViewModels/TimerViewModel.swift:122-124 | remaining time becomes the focus duration in seconds |
| Timer.TimerViewModel.SwitchToFocus | ViewModels/TimerViewModel.swift:126-130 | focus session and state, full focus duration |
| Timer.TimerViewModel.SwitchToBreak | ViewModels/TimerViewModel.swift:132-136 | break session and state, full break duration |
| Timer.TimerViewModel.SendNotification | ViewModels/TimerViewModel.swift:140-153 | appends one notification whose title and body follow the current state |
| Timer.TimerViewModel.PlayNotificationSound | ViewModels/TimerViewModel.swift:155-157 | appends one "Glass" sound |
| Timer.TimerViewModel.UpdateFocusDuration | ViewModels/TimerViewModel.swift:161-167 | in place, as `TimerSpec.UpdateFocusDuration`; keeps the invariant |
| Timer.TimerViewModel.UpdateBreakDuration | ViewModels/TimerViewModel.swift:169-172 | in place, as `TimerSpec.UpdateBreakDuration`; keeps the invariant |
| Timer.TimerViewModel.ToggleSound | ViewModels/TimerViewModel.swift:174-177 | in place, as `TimerSpec.ToggleSound`; keeps the invariant |
| Timer.TimerViewModel.LoadSettings | ViewModels/TimerViewModel.swift:179-191 | in place, as `TimerSpec.LoadSettings` |
| Timer.TimerViewModel.SaveSettings | ViewModels/TimerViewModel.swift:193-197 | in place, as `TimerSpec.SaveSettings` |
| Task.LoadedTask | ViewModels/TaskViewModel.swift:25-27 | the stored string, or "" when the key is absent |
| Task.SaveThenLoad | ViewModels/TaskViewModel.swift:25-31 | what is saved, the empty string included, is what the next load reads |
| Task.TaskViewModel.constructor | ViewModels/TaskViewModel.swift:5-15 | the task is the loaded text, and the store maps the task key to it |
| Task.TaskViewModel.SetCurrentTask | ViewModels/TaskViewModel.swift:5-9 | after an assignment the store maps the task key to exactly the new text; other keys kept |
| Task.TaskViewModel.DisplayTask | ViewModels/TaskViewModel.swift:17-19 | the text when non-empty, else "What are you doing?"; never empty |
| Task.TaskViewModel.IsEmpty | ViewModels/TaskViewModel.swift:21-23 | true iff the text is ""; when false the display is the text itself |
| Task.TaskViewModel.LoadTask | ViewModels/TaskViewModel.swift:25-27 | the task becomes the loaded text and is written back by the observer |
| Task.TaskViewModel.SaveTask | ViewModels/TaskViewModel.swift:29-31 | the store maps the task key to the current text, which is unchanged; other keys kept |
| Task.Restart | ViewModels/TaskViewModel.swift:13-31 | a new view model over the same store has the same task and store |
| SettingsView.FirstIndex | Views/SettingsView.swift:78 | an index holding the value with none before it, and no index iff the value is absent |
| SettingsView.CycleOption | Views/SettingsView.swift:77-81 | no selection iff the value is not an option; otherwise the index after the first match, wrapping from the last to 0, always in range |
| SettingsView.MinutesLabelInjective | Views/SettingsView.swift:10-11 | different durations have different "Nm" labels |
| SettingsView.MinutesLabels | Views/SettingsView.swift:11 | the label list has one "Nm" label per option, in order |
| SettingsView.LabelFoundAt | Views/SettingsView.swift:11-13 | in a list without repeats, the label of the i-th duration is first found at i |
| SettingsView.LabelNotFound | Views/SettingsView.swift:10-11 | a duration outside the list has a label outside the labels |
| SettingsView.SuccessorInIncreasing | Views/SettingsView.swift:77-81 | in an ascending list, the wrapped next entry is the smallest option above, or the smallest of all at the end |
| SettingsView.CycleOptionOnDurations | Views/SettingsView.swift:8-24 | cycling a duration item selects nothing iff the duration is not an option, else the next option in ascending wrap-around order |
| SettingsView.CycledDuration | Views/SettingsView.swift:8-24 | the duration selected is an option, the next one in ascending wrap-around order |
| SettingsView.CycleSuccessorUnique | Views/SettingsView.swift:77-81 | the wrap-around description determines a single successor |
| SettingsView.FocusCycleStep | Views/SettingsView.swift:8-15 | the focus item moves 25 to 30 |
| SettingsView.FocusCycleWraps | Views/SettingsView.swift:8-15 | the focus item wraps 45 to 5 |
| SettingsView.BreakCycleWraps | Views/SettingsView.swift:17-24 | the break item wraps 15 to 3 |
| SettingsView.CycledSound | Views/SettingsView.swift:26-32 | the sound item always selects (index 1 from On, 0 from Off) |
| SettingsView.SelectFocus | Views/SettingsView.swift:12-14 | forwards the chosen focus option to updateFocusDuration |
| SettingsView.SelectBreak | Views/SettingsView.swift:21-23 | forwards the chosen break option to updateBreakDuration |
| SettingsView.SelectSound | Views/SettingsView.swift:30-32 | calls toggleSound whatever the index |
| SettingsView.ActivateFocusItem | Views/SettingsView.swift:8-15 | a click sets the focus duration to the next option in wrap-around order, through updateFocusDuration |
| SettingsView.ActivateBreakItem | Views/SettingsView.swift:17-24 | a click sets the break duration to the next option in wrap-around order, through updateBreakDuration |
| SettingsView.ActivateSoundItem | Views/SettingsView.swift:26-33 | a click flips the shown On/Off, through toggleSound |
| Colors.FirstKept | Utilities/Colors.swift:5 | the position of the first alphanumeric character from a start index, everything skipped being non-alphanumeric |
| Colors.LastKept | Utilities/Colors.swift:5 | one past the last alphanumeric character of a stretch, everything after it being non-alphanumeric |
| Colors.Trim | Utilities/Colors.swift:5 | a contiguous slice with alphanumeric ends, and everything cut off before and after is non-alphanumeric |
| Colors.TrimDropsHash | Utilities/Colors.swift:5 | alphanumeric text is kept whole, and a leading '#' is removed |
| Colors.HexValue | Utilities/Colors.swift:7 | the value of n hex digits is below 16^n |
| Colors.Components | Utilities/Colors.swift:8-18 | 3 digits: alpha 255 and 17 times each nibble; 6 digits: alpha 255 and the three bytes; 8 digits: the four bytes; each byte-sized and recombining to the value; other counts (1, 1, 1, 0) |
| Colors.ColorFromHex | Utilities/Colors.swift:4-18 | components of the trimmed text: byte-sized for 3, 6 and 8 digits, (1, 1, 1, 0) otherwise |
| Colors.ColorFromHexDigits | Utilities/Colors.swift:4-18 | for all-hex text read whole: byte-sized components, and the 6-digit bytes recombine to the text's value |
| Colors.AccentColor | Utilities/Colors.swift:47-58 | idle and focus share the focus accent; break and paused each have their own, all opaque |
| Colors.GlowColor | Utilities/Colors.swift:60-71 | the accent of the same state at 25% opacity |
| Colors.AccentFocusValue | Utilities/Colors.swift:33 | the focus accent text is hex and reads as 0xe87b5f |
| Colors.AccentFocusComponents | Utilities/Colors.swift:33 | the focus accent decodes to opaque (232, 123, 95) |

## Left out

- Foundation `Timer` scheduling and real time: the timer is the `ticking` flag and `tick` is called explicitly. The one-second interval and the run loop are not modelled.
- `UNUserNotificationCenter`: the request's random identifier, its `.default` sound and the authorization request are not modelled. A posted notification is the event `NotificationPosted(title, body)`.
- `NSSound`: a played sound is the event `SoundPlayed("Glass")`. Whether the sound exists is not modelled.
- `UserDefaults`, `JSONEncoder` and `JSONDecoder`: the settings bytes are an `Option<Settings>`, where an undecodable record is `None`. Encoding this record cannot fail, so saving always writes. The task text is a map from key to string. The two view models share one database in the source; the model gives each its own map, since their keys differ.
- `@Published`/`ObservableObject` change notifications and the unused `cancellables` set: presentation only.
- `Timer.TimerViewModel.UpdateFocusDuration`: requires the argument to be a focus option, which the source does not check. Its only caller passes an option, and without it `remainingSeconds` could go negative.
- `Timer.TimerViewModel.UpdateBreakDuration`: requires the argument to be a break option, for the same reason.
- `Timer.TimerViewModel.Tick`: requires a scheduled timer, because the scheduled timer is its only caller. Its behaviour on a paused or idle timer is in `TimerSpec.Tick` but is never reached.
- `TimerSpec.FormatTime`: takes a natural number. The invariant keeps `remainingSeconds` non-negative, so `%02d` of a negative value, and Swift's truncating `/` and `%` on negatives, are not modelled. Swift's 64-bit `Int` cannot overflow here: durations are at most 45 minutes.
- `Colors.ColorFromHex`: `Scanner.scanHexInt64` is not modelled. The scanned value is a parameter, bounded by what the scanner can return: below 2^64 and at most as many hex digits as the text. `Colors.ColorFromHexDigits` covers text made only of hex digits, which is all the colour constants.
- `Colors.Trim`: letters and digits are ASCII only. Foundation's `alphanumerics` also holds non-ASCII letters, marks and numbers. Swift's `hex.count` counts grapheme clusters and `firstIndex(of:)` in the settings row compares strings up to canonical equivalence. The model counts `char`s and compares sequences exactly; the two agree on the ASCII constants and labels the app uses.
- The conversion of components to sRGB `Double`s and the colour's floating-point opacity: glow colours carry their opacity as the percentage 25.
- The colour constants other than the three accents (background, surface, text, border) are not used by `accentColor` or `glowColor` and are not modelled.
- SwiftUI layout of the settings row (label case, fonts, hover state): presentation only.
- DrawerWindow.swift, WhatAmIDoingApp.swift and the views other than the settings row: window placement, status-bar item, drawing and animation, all floating point or platform plumbing.
