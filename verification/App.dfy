/**
 * The application state `App` keeps: the task list, the current screen, the
 * sushi flag and the clock ticker it starts once. The list operations are
 * the three lambdas the clock and settings screens call back: add a task,
 * set a task's completion flag, delete a task.
 */
module AppState {
  import opened KotlinText
  import ClockLogic

  /** `Task`: ids come from `Random.nextInt()` in the source and are supplied by the caller here. */
  datatype Task = Task(id: int, text: string, isCompleted: bool)

  /** The constructor call `Task(text = text)`: a task starts not completed. */
  function NewTask(id: int, text: string): (t: Task)
    ensures t.id == id && t.text == text && !t.isCompleted
  {
    Task(id, text, false)
  }

  datatype Screen = Clock | Settings

  /**
   * `tasks.indexOf(task)` then `tasks[index] = task.copy(isCompleted = isChecked)`:
   * the first element equal to `task` is replaced by `task` with the new
   * flag; without such an element the list is unchanged.
   */
  function ToggleTask(tasks: seq<Task>, task: Task, isChecked: bool): (r: seq<Task>)
  {
    var index := IndexOf(tasks, task);
    if index != -1 then tasks[index := task.(isCompleted := isChecked)] else tasks
  }

  /** `tasks.remove(task)`: drops the first element equal to `task`, if any. */
  function RemoveFirst(tasks: seq<Task>, task: Task): (r: seq<Task>)
  {
    if tasks == [] then []
    else if tasks[0] == task then tasks[1..]
    else [tasks[0]] + RemoveFirst(tasks[1..], task)
  }

  /**
   * Toggling keeps the length; only the first element equal to `task`
   * changes, to `task` with the new flag (same id and text); every other
   * position is unchanged, and a list without `task` is not changed at all.
   */
  lemma {:induction false} ToggleTaskChangesFirstMatchOnly(tasks: seq<Task>, task: Task, isChecked: bool)
    ensures var r := ToggleTask(tasks, task, isChecked); var i := IndexOf(tasks, task);
      && |r| == |tasks|
      && (task !in tasks ==> r == tasks)
      && (task in tasks ==>
            && r[i].id == task.id && r[i].text == task.text && r[i].isCompleted == isChecked
            && tasks[i] == task && task !in tasks[..i]
            && forall j :: 0 <= j < |tasks| && j != i ==> r[j] == tasks[j])
  {
    IndexOfIsFirst(tasks, task);
  }

  /** Removing a task that is not in the list leaves the list unchanged. */
  lemma {:induction false} RemoveFirstAbsent(tasks: seq<Task>, task: Task)
    requires task !in tasks
    ensures RemoveFirst(tasks, task) == tasks
  {
    if tasks != [] {
      assert task !in tasks[1..];
      RemoveFirstAbsent(tasks[1..], task);
    }
  }

  /** Dropping position `k + 1` of `x` followed by `tail` drops position `k` of `tail`. */
  lemma DropAtShifted(x: Task, tail: seq<Task>, k: nat)
    requires k < |tail|
    ensures ([x] + tail)[..k + 1] + ([x] + tail)[k + 2..] == [x] + (tail[..k] + tail[k + 1..])
  {
    var t := [x] + tail;
    assert t[..k + 1] == [x] + tail[..k];
    assert t[k + 2..] == tail[k + 1..];
  }

  /**
   * Removing a present task drops exactly its first occurrence: the elements
   * before it are kept, the ones after it shift down by one.
   */
  lemma {:induction false} RemoveFirstPresent(tasks: seq<Task>, task: Task)
    requires task in tasks
    ensures var i := IndexOf(tasks, task);
      RemoveFirst(tasks, task) == tasks[..i] + tasks[i + 1..]
  {
    if tasks[0] != task {
      var tail := tasks[1..];
      assert task in tail by { assert tasks == [tasks[0]] + tail; }
      RemoveFirstPresent(tail, task);
      var k := IndexOf(tail, task);
      assert IndexOf(tasks, task) == k + 1;
      assert tasks == [tasks[0]] + tail;
      DropAtShifted(tasks[0], tail, k);
    } else {
      assert IndexOf(tasks, task) == 0;
      assert tasks[..0] == [];
    }
  }

  /** As multisets, removing takes away one copy of `task` (none when it is absent). */
  lemma {:induction false} RemoveFirstMultiset(tasks: seq<Task>, task: Task)
    ensures multiset(RemoveFirst(tasks, task)) == multiset(tasks) - multiset{task}
  {
    if tasks != [] {
      var tail := tasks[1..];
      assert tasks == [tasks[0]] + tail;
      assert multiset(tasks) == multiset{tasks[0]} + multiset(tail);
      if tasks[0] != task {
        RemoveFirstMultiset(tail, task);
        assert RemoveFirst(tasks, task) == [tasks[0]] + RemoveFirst(tail, task);
        assert multiset(RemoveFirst(tasks, task)) == multiset{tasks[0]} + multiset(RemoveFirst(tail, task));
      }
    }
  }

  /** The state `App` remembers across recompositions. */
  class App {
    var currentScreen: Screen
    var tasks: seq<Task>
    var showSushi: bool
    const clockTicker: ClockLogic.ClockTicker

    /**
     * The initial state, and the `LaunchedEffect(Unit)` that starts the
     * ticker once: the clock screen, no tasks, the sushi shown, one running
     * ticker job.
     */
    constructor ()
      ensures clockTicker.Valid()
      ensures currentScreen == Clock && tasks == [] && showSushi
      ensures fresh(clockTicker) && clockTicker.live == {0}
    {
      currentScreen := Clock;
      tasks := [];
      showSushi := true;
      clockTicker := new ClockLogic.ClockTicker();
      new;
      clockTicker.Start();
    }

    /** `onAddTask`: appends one new, not completed task at the end. */
    method AddTask(id: int, text: string)
      modifies this`tasks
      ensures tasks == old(tasks) + [NewTask(id, text)]
      ensures |tasks| == |old(tasks)| + 1 && tasks[..|old(tasks)|] == old(tasks)
      ensures !tasks[|tasks| - 1].isCompleted
    {
      tasks := tasks + [NewTask(id, text)];
    }

    /** `onTaskCheckedChange`: sets the flag of the first task equal to `task`. */
    method OnTaskCheckedChange(task: Task, isChecked: bool)
      modifies this`tasks
      ensures tasks == ToggleTask(old(tasks), task, isChecked)
      ensures |tasks| == |old(tasks)|
      ensures task !in old(tasks) ==> tasks == old(tasks)
    {
      var index := IndexOf(tasks, task);
      if index != -1 {
        tasks := tasks[index := task.(isCompleted := isChecked)];
      }
    }

    /** `onTaskDelete`: `tasks.remove(task)`. */
    method OnTaskDelete(task: Task)
      modifies this`tasks
      ensures tasks == RemoveFirst(old(tasks), task)
      ensures |tasks| == if task in old(tasks) then |old(tasks)| - 1 else |old(tasks)|
      ensures multiset(tasks) == multiset(old(tasks)) - multiset{task}
    {
      RemoveFirstMultiset(tasks, task);
      if task in tasks {
        RemoveFirstPresent(tasks, task);
      } else {
        RemoveFirstAbsent(tasks, task);
      }
      tasks := RemoveFirst(tasks, task);
    }

    /** `onSettingsClick`: go to the settings screen. */
    method OnSettingsClick()
      modifies this`currentScreen
      ensures currentScreen == Settings
    {
      currentScreen := Settings;
    }

    /** `onBackClick`: return to the clock screen. */
    method OnBackClick()
      modifies this`currentScreen
      ensures currentScreen == Clock
    {
      currentScreen := Clock;
    }

    /** `onShowSushiChange`: the flag takes exactly the switch's new value. */
    method OnShowSushiChange(newValue: bool)
      modifies this`showSushi
      ensures showSushi == newValue
    {
      showSushi := newValue;
    }
  }
}
