/**
 * The settings row (Views/SettingsView.swift): each `SettingItem` button
 * cycles its value to the next entry of its option list, wrapping at the end,
 * and hands the new index to an `onSelect` closure that forwards to the timer
 * view model.
 */
module SettingsView {
  import opened Wrappers
  import opened PomodoroState
  import Decimal
  import TimerSpec
  import Timer

  /** `Array.firstIndex(of:)`. */
  function FirstIndex(options: seq<string>, value: string): (r: Option<nat>)
    ensures r.Some? ==> r.value < |options| && options[r.value] == value
    ensures r.Some? ==> forall j :: 0 <= j < r.value ==> options[j] != value
    ensures r.None? <==> value !in options
  {
    if options == [] then None
    else if options[0] == value then Some(0)
    else
      match FirstIndex(options[1..], value)
      case None => None
      case Some(i) => Some(i + 1)
  }

  /**
   * `SettingItem.cycleOption`: the index passed to `onSelect`, or `None` when
   * the shown value is not among the options and `onSelect` is not called.
   */
  function CycleOption(value: string, options: seq<string>): (r: Option<nat>)
    ensures r.None? <==> value !in options
    ensures r.Some? ==> r.value < |options|
    ensures r.Some? ==>
              var i := FirstIndex(options, value).value;
              r.value == if i == |options| - 1 then 0 else i + 1
  {
    match FirstIndex(options, value)
    case None => None
    case Some(i) => WrapAround(i + 1, |options|); Some((i + 1) % |options|)
  }

  lemma WrapAround(a: nat, n: nat)
    requires 0 < a <= n
    ensures a % n == if a == n then 0 else a
  {
  }

  /** `"\(minutes)m"`: how a duration is shown. */
  function MinutesLabel(minutes: int): string {
    Decimal.IntToDecimal(minutes) + "m"
  }

  lemma MinutesLabelInjective(x: int, y: int)
    requires MinutesLabel(x) == MinutesLabel(y)
    ensures x == y
  {
    var s := Decimal.IntToDecimal(x);
    assert s == MinutesLabel(x)[..|MinutesLabel(x)| - 1];
    Decimal.IntToDecimalInjective(x, y);
  }

  /** `options.map { "\($0)m" }`. */
  function MinutesLabels(xs: seq<int>): (r: seq<string>)
    ensures |r| == |xs|
    ensures forall i :: 0 <= i < |xs| ==> r[i] == MinutesLabel(xs[i])
  {
    if xs == [] then [] else [MinutesLabel(xs[0])] + MinutesLabels(xs[1..])
  }

  /** No duration occurs twice. */
  predicate NoRepeats(xs: seq<int>) {
    forall j, k :: 0 <= j < k < |xs| ==> xs[j] != xs[k]
  }

  /** In a list without repeats, the label of the `i`-th duration is first found at `i`. */
  lemma LabelFoundAt(xs: seq<int>, i: nat)
    requires NoRepeats(xs) && i < |xs|
    ensures FirstIndex(MinutesLabels(xs), MinutesLabel(xs[i])) == Some(i)
  {
    var labels := MinutesLabels(xs);
    var r := FirstIndex(labels, MinutesLabel(xs[i]));
    assert labels[i] == MinutesLabel(xs[i]);
    var k := r.value;
    assert labels[k] == MinutesLabel(xs[k]);
    MinutesLabelInjective(xs[k], xs[i]);
    SameEntrySameIndex(xs, k, i);
  }

  lemma SameEntrySameIndex(xs: seq<int>, j: nat, k: nat)
    requires NoRepeats(xs) && j < |xs| && k < |xs| && xs[j] == xs[k]
    ensures j == k
  {
  }

  /** A duration outside the list has a label outside the labels. */
  lemma LabelNotFound(xs: seq<int>, x: int)
    requires x !in xs
    ensures MinutesLabel(x) !in MinutesLabels(xs)
  {
    var labels := MinutesLabels(xs);
    if MinutesLabel(x) in labels {
      var k :| 0 <= k < |labels| && labels[k] == MinutesLabel(x);
      MinutesLabelInjective(xs[k], x);
    }
  }

  /**
   * The independent description of cycling through ascending options: `y` is
   * the smallest option above `x`, or the smallest option of all when none is above.
   */
  ghost predicate IsCycleSuccessor(options: seq<int>, x: int, y: int) {
    && y in options
    && if exists z :: z in options && z > x then
         y > x && forall z :: z in options && z > x ==> y <= z
       else
         forall z :: z in options ==> y <= z
  }

  lemma SuccessorInIncreasing(xs: seq<int>, i: nat)
    requires StrictlyIncreasing(xs) && i < |xs|
    ensures IsCycleSuccessor(xs, xs[i], xs[if i == |xs| - 1 then 0 else i + 1])
  {
    if i < |xs| - 1 {
      assert xs[i + 1] in xs && xs[i + 1] > xs[i];
      forall z | z in xs && z > xs[i]
        ensures xs[i + 1] <= z
      {
        var k :| 0 <= k < |xs| && xs[k] == z;
        assert k > i;
      }
    } else {
      assert xs[0] in xs;
      forall z | z in xs
        ensures xs[0] <= z && z <= xs[i]
      {
        var k :| 0 <= k < |xs| && xs[k] == z;
      }
    }
  }

  /** What `cycleOption` does on a list of durations, stated against the independent description. */
  lemma CycleOptionOnDurations(options: seq<int>, current: int)
    ensures var r := CycleOption(MinutesLabel(current), MinutesLabels(options));
      && (current !in options ==> r.None?)
      && (current in options ==> r.Some? && r.value < |options|)
      && (StrictlyIncreasing(options) && current in options ==> IsCycleSuccessor(options, current, options[r.value]))
  {
    var labels := MinutesLabels(options);
    if current in options {
      var i :| 0 <= i < |options| && options[i] == current;
      assert labels[i] == MinutesLabel(current);
      var r := CycleOption(MinutesLabel(current), labels);
      assert r.Some? && r.value < |options|;
      if StrictlyIncreasing(options) {
        LabelFoundAt(options, i);
        assert r.value == if i == |options| - 1 then 0 else i + 1;
        SuccessorInIncreasing(options, i);
      }
    } else {
      LabelNotFound(options, current);
    }
  }

  /** The duration a duration item's button selects, or `None` when it does nothing. */
  function CycledDuration(options: seq<int>, current: int): (r: Option<int>)
    ensures current !in options ==> r.None?
    ensures current in options ==> r.Some? && r.value in options
    ensures StrictlyIncreasing(options) && current in options ==> IsCycleSuccessor(options, current, r.value)
  {
    CycleOptionOnDurations(options, current);
    match CycleOption(MinutesLabel(current), MinutesLabels(options))
    case None => None
    case Some(index) => Some(options[index])
  }

  /** The description determines the successor. */
  lemma CycleSuccessorUnique(options: seq<int>, x: int, y: int, y': int)
    requires IsCycleSuccessor(options, x, y) && IsCycleSuccessor(options, x, y')
    ensures y == y'
  {
  }

  /** The focus item's button moves 25 on to 30. */
  lemma FocusCycleStep()
    ensures CycledDuration(FocusOptions, 25) == Some(30)
  {
    OptionListsWellFormed();
    SuccessorInIncreasing(FocusOptions, 4);
    CycleSuccessorUnique(FocusOptions, 25, 30, CycledDuration(FocusOptions, 25).value);
  }

  /** The focus item's button wraps 45 round to 5. */
  lemma FocusCycleWraps()
    ensures CycledDuration(FocusOptions, 45) == Some(5)
  {
    OptionListsWellFormed();
    SuccessorInIncreasing(FocusOptions, 6);
    CycleSuccessorUnique(FocusOptions, 45, 5, CycledDuration(FocusOptions, 45).value);
  }

  /** The break item's button wraps 15 round to 3. */
  lemma BreakCycleWraps()
    ensures CycledDuration(BreakOptions, 15) == Some(3)
  {
    OptionListsWellFormed();
    SuccessorInIncreasing(BreakOptions, 3);
    CycleSuccessorUnique(BreakOptions, 15, 3, CycledDuration(BreakOptions, 15).value);
  }

  /** The sound item shows "On" or "Off". */
  function SoundLabel(enabled: bool): string {
    if enabled then "On" else "Off"
  }

  const SoundOptions: seq<string> := ["On", "Off"]

  /** The sound item's button always calls its `onSelect`. */
  function CycledSound(enabled: bool): (r: Option<nat>)
    ensures r == Some(if enabled then 1 else 0)
  {
    assert SoundOptions[0] == "On" && SoundOptions[1] == "Off";
    CycleOption(SoundLabel(enabled), SoundOptions)
  }

  // ---------------------------------------------------------------------------
  // The onSelect closures of SettingsView.body and the three button actions

  method SelectFocus(vm: Timer.TimerViewModel, index: nat)
    requires vm.Valid() && index < |FocusOptions|
    modifies vm
    ensures vm.Valid()
    ensures vm.View() == TimerSpec.UpdateFocusDuration(old(vm.View()), FocusOptions[index])
  {
    vm.UpdateFocusDuration(FocusOptions[index]);
  }

  method SelectBreak(vm: Timer.TimerViewModel, index: nat)
    requires vm.Valid() && index < |BreakOptions|
    modifies vm
    ensures vm.Valid()
    ensures vm.View() == TimerSpec.UpdateBreakDuration(old(vm.View()), BreakOptions[index])
  {
    vm.UpdateBreakDuration(BreakOptions[index]);
  }

  method SelectSound(vm: Timer.TimerViewModel, index: nat)
    requires vm.Valid()
    modifies vm
    ensures vm.Valid()
    ensures vm.View() == TimerSpec.ToggleSound(old(vm.View()))
  {
    vm.ToggleSound();
  }

  /** Clicking the focus item: the next focus option, saved, shown at once when idle. */
  method ActivateFocusItem(vm: Timer.TimerViewModel)
    requires vm.Valid()
    modifies vm
    ensures vm.Valid()
    ensures IsCycleSuccessor(FocusOptions, old(vm.settings.focusDuration), vm.settings.focusDuration)
    ensures vm.View() == TimerSpec.UpdateFocusDuration(old(vm.View()), vm.settings.focusDuration)
  {
    OptionListsWellFormed();
    CycleOptionOnDurations(FocusOptions, vm.settings.focusDuration);
    var index := CycleOption(MinutesLabel(vm.settings.focusDuration), MinutesLabels(FocusOptions));
    if index.Some? {
      SelectFocus(vm, index.value);
    }
  }

  /** Clicking the break item: the next break option, saved; the countdown is untouched. */
  method ActivateBreakItem(vm: Timer.TimerViewModel)
    requires vm.Valid()
    modifies vm
    ensures vm.Valid()
    ensures IsCycleSuccessor(BreakOptions, old(vm.settings.breakDuration), vm.settings.breakDuration)
    ensures vm.View() == TimerSpec.UpdateBreakDuration(old(vm.View()), vm.settings.breakDuration)
  {
    OptionListsWellFormed();
    CycleOptionOnDurations(BreakOptions, vm.settings.breakDuration);
    var index := CycleOption(MinutesLabel(vm.settings.breakDuration), MinutesLabels(BreakOptions));
    if index.Some? {
      SelectBreak(vm, index.value);
    }
  }

  /** Clicking the sound item flips On and Off. */
  method ActivateSoundItem(vm: Timer.TimerViewModel)
    requires vm.Valid()
    modifies vm
    ensures vm.Valid()
    ensures SoundLabel(vm.settings.soundEnabled) != SoundLabel(old(vm.settings.soundEnabled))
    ensures vm.View() == TimerSpec.ToggleSound(old(vm.View()))
  {
    var index := CycledSound(vm.settings.soundEnabled);
    if index.Some? {
      SelectSound(vm, index.value);
    }
  }
}
