/**
 * The abstract value of a `TimerViewModel` (ViewModels/TimerViewModel.swift)
 * and one function per method of the view model: the specification that the
 * imperative class in module Timer is proved against.
 *
 * The Foundation `Timer` is the flag `ticking`; the user-defaults entry is a
 * map from key to decoded settings (`None` for bytes that do not decode); the
 * sound and the user notification are events appended to a log.
 */
module TimerSpec {
  import opened Wrappers
  import opened PomodoroState
  import Decimal

  /** `SessionType`: which duration the current or resumed session uses. */
  datatype SessionType = FocusSession | BreakSession

  /** The side effects the timer hands to the platform, in the order it does so. */
  datatype Event =
    | SoundPlayed(name: string)
    | NotificationPosted(title: string, body: string)

  /** The user-defaults key of the settings record. */
  const SettingsKey: string := "pomodoroSettings"

  /** The system sound played on completion. */
  const AlertSound: string := "Glass"

  /** The persisted settings entries; `None` stands for stored bytes that do not decode. */
  type Store = map<string, Option<Settings>>

  /** Everything a `TimerViewModel` holds or affects. */
  datatype Timer = Timer(
    state: TimerState,
    remainingSeconds: int,
    settings: Settings,
    currentSession: SessionType,
    ticking: bool,
    store: Store,
    events: seq<Event>)

  function Opposite(s: SessionType): SessionType {
    if s == FocusSession then BreakSession else FocusSession
  }

  /** The running state that belongs to a session. */
  function SessionState(s: SessionType): TimerState {
    if s == FocusSession then Focus else Break
  }

  /** The configured length of a session, in minutes. */
  function SessionMinutes(settings: Settings, s: SessionType): int {
    if s == FocusSession then settings.focusDuration else settings.breakDuration
  }

  /** The object invariant every public operation keeps. */
  ghost predicate Inv(t: Timer) {
    && (t.ticking <==> t.state.IsRunning())
    && (t.state == Focus ==> t.currentSession == FocusSession)
    && (t.state == Break ==> t.currentSession == BreakSession)
    && (t.state == Idle ==> t.currentSession == FocusSession)
    && (t.state == Idle ==> t.remainingSeconds == t.settings.focusDuration * 60)
    && t.remainingSeconds >= 0
    && ValidSettings(t.settings)
  }

  // ---------------------------------------------------------------------------
  // Private helpers of the view model

  function StartTimer(t: Timer): Timer {
    t.(ticking := true)
  }

  function StopTimer(t: Timer): Timer {
    t.(ticking := false)
  }

  function ResetToFocus(t: Timer): Timer {
    t.(remainingSeconds := t.settings.focusDuration * 60)
  }

  function SwitchToFocus(t: Timer): Timer {
    t.(currentSession := FocusSession, state := Focus, remainingSeconds := t.settings.focusDuration * 60)
  }

  function SwitchToBreak(t: Timer): Timer {
    t.(currentSession := BreakSession, state := Break, remainingSeconds := t.settings.breakDuration * 60)
  }

  function PlayNotificationSound(t: Timer): Timer {
    t.(events := t.events + [SoundPlayed(AlertSound)])
  }

  /** Notification title, chosen by the state in which the countdown ended. */
  function CompletionTitle(s: TimerState): string {
    if s == Focus then "Focus Complete!" else "Break Over!"
  }

  /** Notification body, chosen by the state in which the countdown ended. */
  function CompletionBody(s: TimerState): string {
    if s == Focus then "Time for a break." else "Ready to focus again?"
  }

  function SendNotification(t: Timer): Timer {
    t.(events := t.events + [NotificationPosted(CompletionTitle(t.state), CompletionBody(t.state))])
  }

  function HandleTimerComplete(t: Timer): Timer {
    var stopped := StopTimer(t);
    var sounded := if stopped.settings.soundEnabled then PlayNotificationSound(stopped) else stopped;
    var notified := SendNotification(sounded);
    if notified.state == Focus then StartTimer(SwitchToBreak(notified))
    else if notified.state == Break then StartTimer(SwitchToFocus(notified))
    else notified
  }

  /** What `loadSettings` can read: the decoded record, or `None` when absent or undecodable. */
  function StoredSettings(store: Store): Option<Settings> {
    if SettingsKey in store then store[SettingsKey] else None
  }

  /** `saveSettings`: overwrite the persisted record with the current settings. */
  function SaveSettings(t: Timer): (r: Timer)
    ensures StoredSettings(r.store) == Some(t.settings)
    ensures forall k :: k != SettingsKey ==> (k in r.store <==> k in t.store)
    ensures forall k :: k in t.store && k != SettingsKey ==> r.store[k] == t.store[k]
    ensures r == t.(store := r.store)
  {
    t.(store := t.store[SettingsKey := Some(t.settings)])
  }

  /** `loadSettings`: adopt a decoded record only if both durations are allowed options. */
  function LoadSettings(t: Timer): (r: Timer)
    ensures r == t.(settings := r.settings, store := r.store)
    ensures StoredSettings(t.store).None? ==> r == t
    ensures StoredSettings(t.store).Some? && ValidSettings(StoredSettings(t.store).value) ==>
              r.settings == StoredSettings(t.store).value && r.store == t.store
    ensures StoredSettings(t.store).Some? && !ValidSettings(StoredSettings(t.store).value) ==>
              r.settings == t.settings && r.store == t.store - {SettingsKey}
    ensures ValidSettings(t.settings) ==> ValidSettings(r.settings)
  {
    match StoredSettings(t.store)
    case None => t
    case Some(decoded) =>
      if decoded.focusDuration in FocusOptions && decoded.breakDuration in BreakOptions then
        t.(settings := decoded)
      else
        t.(store := t.store - {SettingsKey})
  }

  // ---------------------------------------------------------------------------
  // Construction and the public operations

  /** `init()`: default fields, then `loadSettings()` and `resetToFocus()`. */
  function Initial(persisted: Store): (r: Timer)
    ensures Inv(r)
    ensures r.state == Idle && r.currentSession == FocusSession && !r.ticking && r.events == []
    ensures r.remainingSeconds == r.settings.focusDuration * 60
    ensures StoredSettings(persisted).Some? && ValidSettings(StoredSettings(persisted).value) ==>
              r.settings == StoredSettings(persisted).value && r.store == persisted
    ensures StoredSettings(persisted).Some? && !ValidSettings(StoredSettings(persisted).value) ==>
              r.settings == DefaultSettings && r.store == persisted - {SettingsKey}
    ensures StoredSettings(persisted).None? ==> r.settings == DefaultSettings && r.store == persisted
  {
    ResetToFocus(LoadSettings(Timer(Idle, 0, DefaultSettings, FocusSession, false, persisted, [])))
  }

  /** `start`: resume the recorded session from idle or paused; otherwise nothing happens. */
  function Start(t: Timer): (r: Timer)
    ensures r.remainingSeconds == t.remainingSeconds && r.currentSession == t.currentSession
    ensures r.settings == t.settings && r.store == t.store && r.events == t.events
    ensures (t.state == Idle || t.state == Paused) ==>
              r.state == SessionState(t.currentSession) && r.ticking
    ensures t.state.IsRunning() ==> r == t
    ensures Inv(t) ==> Inv(r) && r.state.IsRunning()
  {
    if t.state == Idle || t.state == Paused then
      StartTimer(t.(state := if t.currentSession == FocusSession then Focus else Break))
    else
      t
  }

  /** `pause`: stop a running countdown, keeping what remains of it. */
  function Pause(t: Timer): (r: Timer)
    ensures r.remainingSeconds == t.remainingSeconds && r.currentSession == t.currentSession
    ensures r.settings == t.settings && r.store == t.store && r.events == t.events
    ensures t.state.IsRunning() ==> r.state == Paused && !r.ticking
    ensures !t.state.IsRunning() ==> r == t
    ensures Inv(t) ==> Inv(r) && !r.state.IsRunning()
  {
    if t.state.IsRunning() then StopTimer(t.(state := Paused)) else t
  }

  /** `togglePlayPause`: pause when running, start otherwise. */
  function TogglePlayPause(t: Timer): (r: Timer)
    ensures r.remainingSeconds == t.remainingSeconds && r.currentSession == t.currentSession
    ensures r.settings == t.settings && r.store == t.store && r.events == t.events
    ensures t.state.IsRunning() ==> r.state == Paused && !r.ticking
    ensures !t.state.IsRunning() ==> r.state == SessionState(t.currentSession) && r.ticking
    ensures Inv(t) ==> Inv(r) && (r.state.IsRunning() <==> !t.state.IsRunning())
  {
    if t.state.IsRunning() then Pause(t) else Start(t)
  }

  /** `reset`: from any state, back to an idle focus session of full length. */
  function Reset(t: Timer): (r: Timer)
    ensures r.state == Idle && r.currentSession == FocusSession && !r.ticking
    ensures r.remainingSeconds == t.settings.focusDuration * 60
    ensures r.settings == t.settings && r.store == t.store && r.events == t.events
    ensures ValidSettings(t.settings) ==> Inv(r)
  {
    ResetToFocus(StopTimer(t).(state := Idle, currentSession := FocusSession))
  }

  /** `skip`: from any state, start the other session at its full length. */
  function Skip(t: Timer): (r: Timer)
    ensures r.currentSession == Opposite(t.currentSession)
    ensures r.state == SessionState(r.currentSession) && r.ticking
    ensures r.remainingSeconds == SessionMinutes(t.settings, r.currentSession) * 60
    ensures r.settings == t.settings && r.store == t.store && r.events == t.events
    ensures ValidSettings(t.settings) ==> Inv(r)
  {
    var stopped := StopTimer(t);
    var switched := if stopped.currentSession == FocusSession then SwitchToBreak(stopped) else SwitchToFocus(stopped);
    StartTimer(switched)
  }

  /**
   * `tick`, called once a second by the scheduled timer: count down while time
   * remains; the tick that finds no time left completes the session.
   */
  function Tick(t: Timer): (r: Timer)
    requires t.ticking
    ensures t.remainingSeconds > 0 ==> r == t.(remainingSeconds := t.remainingSeconds - 1)
    ensures t.remainingSeconds <= 0 ==>
              r.events == t.events
                          + (if t.settings.soundEnabled then [SoundPlayed(AlertSound)] else [])
                          + [NotificationPosted(CompletionTitle(t.state), CompletionBody(t.state))]
    ensures t.remainingSeconds <= 0 && t.state == Focus ==>
              r.state == Break && r.currentSession == BreakSession && r.ticking
              && r.remainingSeconds == t.settings.breakDuration * 60
    ensures t.remainingSeconds <= 0 && t.state == Break ==>
              r.state == Focus && r.currentSession == FocusSession && r.ticking
              && r.remainingSeconds == t.settings.focusDuration * 60
    ensures t.remainingSeconds <= 0 && !t.state.IsRunning() ==>
              r.state == t.state && r.currentSession == t.currentSession && !r.ticking
              && r.remainingSeconds == t.remainingSeconds
    ensures r.settings == t.settings && r.store == t.store
    ensures Inv(t) ==> Inv(r)
  {
    if t.remainingSeconds > 0 then t.(remainingSeconds := t.remainingSeconds - 1)
    else HandleTimerComplete(t)
  }

  /** `updateFocusDuration`: store the new length; an idle timer shows it at once; save. */
  function UpdateFocusDuration(t: Timer, minutes: int): (r: Timer)
    requires minutes in FocusOptions
    ensures r.settings == t.settings.(focusDuration := minutes)
    ensures StoredSettings(r.store) == Some(r.settings)
    ensures r.store == t.store[SettingsKey := Some(r.settings)]
    ensures r.remainingSeconds == if t.state == Idle then minutes * 60 else t.remainingSeconds
    ensures r == t.(settings := r.settings, remainingSeconds := r.remainingSeconds, store := r.store)
    ensures Inv(t) ==> Inv(r)
  {
    var changed := t.(settings := t.settings.(focusDuration := minutes));
    SaveSettings(if changed.state == Idle then ResetToFocus(changed) else changed)
  }

  /** `updateBreakDuration`: store the new length and save; the countdown is untouched. */
  function UpdateBreakDuration(t: Timer, minutes: int): (r: Timer)
    requires minutes in BreakOptions
    ensures r.settings == t.settings.(breakDuration := minutes)
    ensures StoredSettings(r.store) == Some(r.settings)
    ensures r.store == t.store[SettingsKey := Some(r.settings)]
    ensures r == t.(settings := r.settings, store := r.store)
    ensures Inv(t) ==> Inv(r)
  {
    SaveSettings(t.(settings := t.settings.(breakDuration := minutes)))
  }

  /** `toggleSound`: flip the sound flag and save. */
  function ToggleSound(t: Timer): (r: Timer)
    ensures r.settings == t.settings.(soundEnabled := !t.settings.soundEnabled)
    ensures StoredSettings(r.store) == Some(r.settings)
    ensures r.store == t.store[SettingsKey := Some(r.settings)]
    ensures r == t.(settings := r.settings, store := r.store)
    ensures Inv(t) ==> Inv(r)
  {
    SaveSettings(t.(settings := t.settings.(soundEnabled := !t.settings.soundEnabled)))
  }

  // ---------------------------------------------------------------------------
  // The countdown display

  /** `formattedTime`: minutes and seconds, each `%02d`, joined by a colon. */
  function FormatTime(seconds: nat): (s: string)
    ensures |s| >= 5 && s[|s| - 3] == ':'
    ensures seconds < 6000 ==> |s| == 5
    ensures |s| == 5 || s[0] != '0'
    ensures ParseTime(s) == Some(seconds)
  {
    var m := Decimal.Pad2(seconds / 60);
    var sec := Decimal.Pad2(seconds % 60);
    var s := m + ":" + sec;
    assert s[..|s| - 3] == m && s[|s| - 2..] == sec;
    s
  }

  /** Reads an `MM:SS` display back into seconds; the seconds field must be two digits below 60. */
  function ParseTime(s: string): Option<nat> {
    if |s| < 4 || s[|s| - 3] != ':' then None
    else
      var m := s[..|s| - 3];
      var sec := s[|s| - 2..];
      if Decimal.AllDigits(m) && Decimal.AllDigits(sec) && Decimal.DecimalValue(sec) < 60 then
        Some(Decimal.DecimalValue(m) * 60 + Decimal.DecimalValue(sec))
      else
        None
  }

  /** `formattedTime` of 65 and of 0 seconds. */
  lemma FormatTimeExamples()
    ensures FormatTime(65) == "01:05"
    ensures FormatTime(0) == "00:00"
  {
    assert Decimal.NatToDecimal(1) == "1";
    assert Decimal.NatToDecimal(5) == "5";
    assert Decimal.NatToDecimal(0) == "0";
  }

  // ---------------------------------------------------------------------------
  // Properties that relate several operations

  function CountNotifications(evs: seq<Event>): nat {
    if evs == [] then 0
    else CountNotifications(evs[..|evs| - 1]) + (if evs[|evs| - 1].NotificationPosted? then 1 else 0)
  }

  function CountSounds(evs: seq<Event>): nat {
    if evs == [] then 0
    else CountSounds(evs[..|evs| - 1]) + (if evs[|evs| - 1].SoundPlayed? then 1 else 0)
  }

  lemma {:induction false} CountsAdd(a: seq<Event>, b: seq<Event>)
    ensures CountNotifications(a + b) == CountNotifications(a) + CountNotifications(b)
    ensures CountSounds(a + b) == CountSounds(a) + CountSounds(b)
    decreases |b|
  {
    if b != [] {
      var b' := b[..|b| - 1];
      assert (a + b)[..|a + b| - 1] == a + b';
      CountsAdd(a, b');
    } else {
      assert a + b == a;
    }
  }

  /** A completing tick sends exactly one notification, and one sound exactly when sound is on. */
  lemma CompletionEffects(t: Timer)
    requires t.ticking && t.remainingSeconds <= 0
    ensures CountNotifications(Tick(t).events) == CountNotifications(t.events) + 1
    ensures CountSounds(Tick(t).events) == CountSounds(t.events) + (if t.settings.soundEnabled then 1 else 0)
  {
    var sound: seq<Event> := if t.settings.soundEnabled then [SoundPlayed(AlertSound)] else [];
    var note := [NotificationPosted(CompletionTitle(t.state), CompletionBody(t.state))];
    CountsAdd(t.events, sound);
    CountsAdd(t.events + sound, note);
    assert CountNotifications(note) == 1 && CountSounds(note) == 0 by {
      assert note[..0] == [];
    }
    if t.settings.soundEnabled {
      assert sound[..0] == [];
    }
  }

  /** On a consistent timer, completion makes the same session switch as `skip`. */
  lemma CompletionSwitchesLikeSkip(t: Timer)
    requires Inv(t) && t.ticking && t.remainingSeconds == 0
    ensures Tick(t) == Skip(t).(events := Tick(t).events)
  {
  }

  /**
   * A focus session with one second left: the tick that reaches zero is silent,
   * the next one completes it and starts the break.
   */
  lemma FocusSessionRunsOut(t: Timer)
    requires Inv(t) && t.state == Focus && t.remainingSeconds == 1
    ensures Tick(t).events == t.events && Tick(t).remainingSeconds == 0 && Tick(t).ticking
    ensures var r := Tick(Tick(t));
      && r.state == Break && r.currentSession == BreakSession && r.ticking
      && r.remainingSeconds == t.settings.breakDuration * 60
      && CountNotifications(r.events) == CountNotifications(t.events) + 1
      && r.events[|r.events| - 1] == NotificationPosted("Focus Complete!", "Time for a break.")
  {
    CompletionEffects(Tick(t));
  }

  /** Two skips return to the session they started from, at its full length. */
  lemma SkipTwice(t: Timer)
    ensures var r := Skip(Skip(t));
      && r.currentSession == t.currentSession && r.state == SessionState(t.currentSession) && r.ticking
      && r.remainingSeconds == SessionMinutes(t.settings, t.currentSession) * 60
  {
  }

  lemma ResetIdempotent(t: Timer)
    ensures Reset(Reset(t)) == Reset(t)
  {
  }

  /** Starting from idle begins a full focus session; pausing before a tick keeps the count. */
  lemma StartThenPause(t: Timer)
    requires Inv(t) && t.state == Idle
    ensures Start(t).state == Focus && Start(t).remainingSeconds == t.settings.focusDuration * 60
    ensures Pause(Start(t)).state == Paused && Pause(Start(t)).remainingSeconds == t.remainingSeconds
    ensures Start(Pause(Start(t))) == Start(t)
  {
  }

  /** Saved valid settings are the ones a fresh view model loads. */
  lemma SaveThenLoad(t: Timer)
    requires ValidSettings(t.settings)
    ensures Initial(SaveSettings(t).store).settings == t.settings
  {
  }

  /** Each settings mutator persists its result, so a restart comes back with it. */
  lemma MutationsSurviveRestart(t: Timer, focus: int, break_: int)
    requires ValidSettings(t.settings) && focus in FocusOptions && break_ in BreakOptions
    ensures Initial(UpdateFocusDuration(t, focus).store).settings == UpdateFocusDuration(t, focus).settings
    ensures Initial(UpdateBreakDuration(t, break_).store).settings == UpdateBreakDuration(t, break_).settings
    ensures Initial(ToggleSound(t).store).settings == ToggleSound(t).settings
  {
  }

  /** A persisted record with a disallowed duration is deleted and the defaults are used. */
  lemma InvalidRecordDiscarded(persisted: Store, bad: Settings)
    requires !ValidSettings(bad)
    ensures Initial(persisted[SettingsKey := Some(bad)]).settings == DefaultSettings
    ensures SettingsKey !in Initial(persisted[SettingsKey := Some(bad)]).store
  {
  }

  /** A stored focus duration of 7 minutes, which is not an option. */
  lemma SevenMinuteFocusDiscarded(persisted: Store)
    ensures var r := Initial(persisted[SettingsKey := Some(Settings(7, 5, true))]);
      r.settings == Settings(25, 5, true) && SettingsKey !in r.store
  {
    InvalidRecordDiscarded(persisted, Settings(7, 5, true));
  }
}
