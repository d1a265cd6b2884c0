/**
 * `TaskViewModel` (ViewModels/TaskViewModel.swift): the free-text "current
 * task", written to the user-defaults database on every assignment.
 */
module Task {

  /** The user-defaults key of the task text. */
  const TaskKey: string := "currentTask"

  /** What is shown instead of an empty task. */
  const Placeholder: string := "What are you doing?"

  /** The string entries of the user-defaults database. */
  type Store = map<string, string>

  /** `UserDefaults.standard.string(forKey:) ?? ""`. */
  function LoadedTask(store: Store): (r: string)
    ensures TaskKey in store ==> r == store[TaskKey]
    ensures TaskKey !in store ==> r == ""
  {
    if TaskKey in store then store[TaskKey] else ""
  }

  /** Whatever is saved is what the next load reads, the empty string included. */
  lemma SaveThenLoad(store: Store, task: string)
    ensures LoadedTask(store[TaskKey := task]) == task
  {
  }

  class TaskViewModel {
    var currentTask: string
    var store: Store

    /** The store always holds the current text itself (never the placeholder in its place). */
    ghost predicate Valid()
      reads this
    {
      TaskKey in store && store[TaskKey] == currentTask
    }

    /**
     * `init()` calls `loadTask()`, whose assignment runs the `didSet` observer,
     * so the loaded text (the empty string when nothing was stored) is written back.
     */
    constructor (persisted: Store)
      ensures Valid()
      ensures currentTask == LoadedTask(persisted)
      ensures store == persisted[TaskKey := currentTask]
    {
      currentTask := "";
      store := persisted;
      new;
      LoadTask();
    }

    /** Assignment to `currentTask`, with its `didSet` observer. */
    method SetCurrentTask(task: string)
      modifies this
      ensures Valid()
      ensures currentTask == task
      ensures store == old(store)[TaskKey := task]
    {
      currentTask := task;
      SaveTask();
    }

    /** `displayTask`: the text, or the placeholder when there is none; never empty. */
    function DisplayTask(): (r: string)
      reads this
      ensures r != ""
      ensures currentTask != "" ==> r == currentTask
      ensures currentTask == "" ==> r == Placeholder
    {
      if currentTask == "" then Placeholder else currentTask
    }

    /** `isEmpty`. */
    function IsEmpty(): (r: bool)
      reads this
      ensures r <==> currentTask == ""
      ensures !r ==> DisplayTask() == currentTask
    {
      |currentTask| == 0
    }

    method LoadTask()
      modifies this
      ensures Valid()
      ensures currentTask == LoadedTask(old(store))
      ensures store == old(store)[TaskKey := currentTask]
    {
      SetCurrentTask(if TaskKey in store then store[TaskKey] else "");
    }

    method SaveTask()
      modifies this
      ensures Valid()
      ensures currentTask == old(currentTask)
      ensures store == old(store)[TaskKey := currentTask]
    {
      store := store[TaskKey := currentTask];
    }
  }

  /** A process restart over the same store comes back with the same task. */
  method Restart(vm: TaskViewModel) returns (next: TaskViewModel)
    requires vm.Valid()
    ensures next.Valid() && next.currentTask == vm.currentTask && next.store == vm.store
  {
    next := new TaskViewModel(vm.store);
  }
}
