/**
 * `TimerViewModel` (ViewModels/TimerViewModel.swift) as a class whose methods
 * update its fields in place. Every method is proved to leave the object's
 * abstract value `View()` where the matching function of module TimerSpec
 * puts it, and every public method keeps the invariant `Valid()`.
 */
module Timer {
  import opened Wrappers
  import opened PomodoroState
  import opened TimerSpec

  class TimerViewModel {
    var state: TimerState
    var remainingSeconds: int
    var settings: Settings
    var currentSession: SessionType
    /** True while a repeating one-second timer is scheduled (`timer != nil`). */
    var ticking: bool
    /** The settings entries of the user-defaults database. */
    var store: Store
    /** Sounds played and notifications posted, oldest first. */
    var events: seq<Event>

    function View(): Timer
      reads this
    {
      Timer(state, remainingSeconds, settings, currentSession, ticking, store, events)
    }

    ghost predicate Valid()
      reads this
    {
      Inv(View())
    }

    /** `init()`: load the persisted settings, then show a full focus session. */
    constructor (persisted: Store)
      ensures Valid()
      ensures View() == Initial(persisted)
    {
      state := Idle;
      remainingSeconds := 0;
      settings := DefaultSettings;
      currentSession := FocusSession;
      ticking := false;
      store := persisted;
      events := [];
      new;
      LoadSettings();
      ResetToFocus();
    }

    /** `formattedTime`. */
    function FormattedTime(): (s: string)
      reads this
      requires Valid()
      ensures ParseTime(s) == Some(remainingSeconds)
    {
      FormatTime(remainingSeconds)
    }

    /** `isRunning`: a session is counting down, which is exactly when the timer is scheduled. */
    function IsRunning(): (r: bool)
      reads this
      requires Valid()
      ensures r == ticking
      ensures r <==> state == Focus || state == Break
    {
      state.IsRunning()
    }

    // -------------------------------------------------------------------------
    // Controls

    method Start()
      requires Valid()
      modifies this
      ensures Valid()
      ensures View() == TimerSpec.Start(old(View()))
    {
      if state == Idle || state == Paused {
        state := if currentSession == FocusSession then Focus else Break;
        StartTimer();
      }
    }

    method Pause()
      requires Valid()
      modifies this
      ensures Valid()
      ensures View() == TimerSpec.Pause(old(View()))
    {
      if IsRunning() {
        state := Paused;
        StopTimer();
      }
    }

    method TogglePlayPause()
      requires Valid()
      modifies this
      ensures Valid()
      ensures View() == TimerSpec.TogglePlayPause(old(View()))
    {
      if IsRunning() {
        Pause();
      } else {
        Start();
      }
    }

    method Reset()
      requires Valid()
      modifies this
      ensures Valid()
      ensures View() == TimerSpec.Reset(old(View()))
    {
      StopTimer();
      state := Idle;
      currentSession := FocusSession;
      ResetToFocus();
    }

    method Skip()
      requires Valid()
      modifies this
      ensures Valid()
      ensures View() == TimerSpec.Skip(old(View()))
    {
      StopTimer();
      if currentSession == FocusSession {
        SwitchToBreak();
      } else {
        SwitchToFocus();
      }
      StartTimer();
    }

    // -------------------------------------------------------------------------
    // Timer management

    /** Scheduling is only ever asked for when no timer is scheduled: no second tick stream. */
    method StartTimer()
      requires !ticking
      modifies this
      ensures View() == TimerSpec.StartTimer(old(View()))
    {
      ticking := true;
    }

    method StopTimer()
      modifies this
      ensures View() == TimerSpec.StopTimer(old(View()))
    {
      ticking := false;
    }

    /** The scheduled timer's callback. */
    method Tick()
      requires Valid() && ticking
      modifies this
      ensures Valid()
      ensures View() == TimerSpec.Tick(old(View()))
    {
      if remainingSeconds <= 0 {
        HandleTimerComplete();
        return;
      }
      remainingSeconds := remainingSeconds - 1;
    }

    method HandleTimerComplete()
      modifies this
      ensures View() == TimerSpec.HandleTimerComplete(old(View()))
    {
      StopTimer();
      if settings.soundEnabled {
        PlayNotificationSound();
      }
      SendNotification();
      if state == Focus {
        SwitchToBreak();
        StartTimer();
      } else if state == Break {
        SwitchToFocus();
        StartTimer();
      }
    }

    // -------------------------------------------------------------------------
    // State transitions

    method ResetToFocus()
      modifies this
      ensures View() == TimerSpec.ResetToFocus(old(View()))
    {
      remainingSeconds := settings.focusDuration * 60;
    }

    method SwitchToFocus()
      modifies this
      ensures View() == TimerSpec.SwitchToFocus(old(View()))
    {
      currentSession := FocusSession;
      state := Focus;
      remainingSeconds := settings.focusDuration * 60;
    }

    method SwitchToBreak()
      modifies this
      ensures View() == TimerSpec.SwitchToBreak(old(View()))
    {
      currentSession := BreakSession;
      state := Break;
      remainingSeconds := settings.breakDuration * 60;
    }

    // -------------------------------------------------------------------------
    // Notifications

    method SendNotification()
      modifies this
      ensures View() == TimerSpec.SendNotification(old(View()))
    {
      var title := if state == Focus then "Focus Complete!" else "Break Over!";
      var body := if state == Focus then "Time for a break." else "Ready to focus again?";
      events := events + [NotificationPosted(title, body)];
    }

    method PlayNotificationSound()
      modifies this
      ensures View() == TimerSpec.PlayNotificationSound(old(View()))
    {
      events := events + [SoundPlayed(AlertSound)];
    }

    // -------------------------------------------------------------------------
    // Settings

    method UpdateFocusDuration(minutes: int)
      requires Valid() && minutes in FocusOptions
      modifies this
      ensures Valid()
      ensures View() == TimerSpec.UpdateFocusDuration(old(View()), minutes)
    {
      settings := settings.(focusDuration := minutes);
      if state == Idle {
        ResetToFocus();
      }
      SaveSettings();
    }

    method UpdateBreakDuration(minutes: int)
      requires Valid() && minutes in BreakOptions
      modifies this
      ensures Valid()
      ensures View() == TimerSpec.UpdateBreakDuration(old(View()), minutes)
    {
      settings := settings.(breakDuration := minutes);
      SaveSettings();
    }

    method ToggleSound()
      requires Valid()
      modifies this
      ensures Valid()
      ensures View() == TimerSpec.ToggleSound(old(View()))
    {
      settings := settings.(soundEnabled := !settings.soundEnabled);
      SaveSettings();
    }

    method LoadSettings()
      modifies this
      ensures View() == TimerSpec.LoadSettings(old(View()))
    {
      if SettingsKey in store && store[SettingsKey].Some? {
        var decoded := store[SettingsKey].value;
        if decoded.focusDuration in FocusOptions && decoded.breakDuration in BreakOptions {
          settings := decoded;
        } else {
          store := store - {SettingsKey};
        }
      }
    }

    method SaveSettings()
      modifies this
      ensures View() == TimerSpec.SaveSettings(old(View()))
    {
      store := store[SettingsKey := Some(settings)];
    }
  }

  /** A client: what callers can conclude from the contracts above alone. */
  method FocusThenBreak(persisted: Store)
  {
    var vm := new TimerViewModel(persisted);
    var focus, pause := vm.settings.focusDuration, vm.settings.breakDuration;
    vm.Start();
    assert vm.state == Focus && vm.remainingSeconds == focus * 60;
    vm.Pause();
    assert vm.state == Paused && vm.remainingSeconds == focus * 60 && !vm.ticking;
    vm.TogglePlayPause();
    vm.Skip();
    assert vm.state == Break && vm.remainingSeconds == pause * 60 && vm.ticking;
    vm.Skip();
    assert vm.state == Focus && vm.remainingSeconds == focus * 60;
    vm.Reset();
    assert vm.state == Idle && vm.currentSession == FocusSession && !vm.ticking;
    vm.UpdateFocusDuration(45);
    assert vm.remainingSeconds == 45 * 60;
    var again := new TimerViewModel(vm.store);
    assert again.settings == vm.settings && again.remainingSeconds == 45 * 60;
  }
}
