/**
 * The timer's state enumeration and the settings record with its defaults and
 * the fixed lists of allowed durations (Models/PomodoroState.swift).
 */
module PomodoroState {
  import opened Wrappers

  /** The four states of the timer; `Break` is the source's `break_`. */
  datatype TimerState = Idle | Focus | Break | Paused {

    /** The timer counts down exactly in the two session states. */
    predicate IsRunning() {
      this == Focus || this == Break
    }

    /** The text shown for the state. */
    function Label(): (r: string)
      ensures r != ""
      ensures this == Idle <==> r == "Ready"
      ensures this == Focus <==> r == "Focus Time"
      ensures this == Break <==> r == "Break Time"
      ensures this == Paused <==> r == "Paused"
    {
      match this
      case Idle => "Ready"
      case Focus => "Focus Time"
      case Break => "Break Time"
      case Paused => "Paused"
    }

    /** The String raw value of the enum case: the case name as written in Swift. */
    function RawValue(): (r: string)
      ensures r in {"idle", "focus", "break_", "paused"}
      ensures this == Idle <==> r == "idle"
      ensures this == Focus <==> r == "focus"
      ensures this == Break <==> r == "break_"
      ensures this == Paused <==> r == "paused"
    {
      match this
      case Idle => "idle"
      case Focus => "focus"
      case Break => "break_"
      case Paused => "paused"
    }
  }

  /** `TimerState(rawValue:)`: the case whose raw value is `raw`, if there is one. */
  function FromRawValue(raw: string): (r: Option<TimerState>)
    ensures r.Some? ==> r.value.RawValue() == raw
    ensures r.None? <==> raw !in {"idle", "focus", "break_", "paused"}
  {
    if raw == "idle" then Some(Idle)
    else if raw == "focus" then Some(Focus)
    else if raw == "break_" then Some(Break)
    else if raw == "paused" then Some(Paused)
    else None
  }

  /** Decoding a raw value gives back the case it came from. */
  lemma RawValueRoundTrip(s: TimerState)
    ensures FromRawValue(s.RawValue()) == Some(s)
  {
  }

  /** Different states are shown with different labels. */
  lemma LabelInjective(s: TimerState, t: TimerState)
    ensures s.Label() == t.Label() <==> s == t
  {
  }

  /** `PomodoroSettings`: durations are in minutes. */
  datatype Settings = Settings(focusDuration: int, breakDuration: int, soundEnabled: bool)

  /** The field defaults of `PomodoroSettings()`. */
  const DefaultSettings: Settings := Settings(25, 5, true)

  /** `PomodoroSettings.focusOptions`. */
  const FocusOptions: seq<int> := [5, 10, 15, 20, 25, 30, 45]

  /** `PomodoroSettings.breakOptions`. */
  const BreakOptions: seq<int> := [3, 5, 10, 15]

  predicate StrictlyIncreasing(xs: seq<int>) {
    forall j, k :: 0 <= j < k < |xs| ==> xs[j] < xs[k]
  }

  /** The check the settings loader applies to a decoded record. */
  predicate ValidSettings(s: Settings) {
    s.focusDuration in FocusOptions && s.breakDuration in BreakOptions
  }

  /** The option lists are non-empty, strictly increasing and hold only positive durations. */
  lemma OptionListsWellFormed()
    ensures |FocusOptions| == 7 && |BreakOptions| == 4
    ensures StrictlyIncreasing(FocusOptions) && StrictlyIncreasing(BreakOptions)
    ensures forall m :: m in FocusOptions ==> m > 0
    ensures forall m :: m in BreakOptions ==> m > 0
  {
  }

  /** The defaults pass the loader's validation. */
  lemma DefaultsAreValid()
    ensures ValidSettings(DefaultSettings)
    ensures DefaultSettings.focusDuration == 25 && DefaultSettings.breakDuration == 5
    ensures DefaultSettings.soundEnabled
  {
  }
}
