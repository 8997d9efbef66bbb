/** The page's task state, `tasks` and `currentFilter`, and the operations
    that change it. In the source every change to the list is followed by
    saving it to local storage and redrawing the page; those effects are not
    part of this model, only the new state is. */
module Store {
  import opened Text
  import opened Tasks
  import opened View

  /** The three example tasks added by a load that finds the list empty, in the order the list ends
      up holding them: each call unshifts, so the last one added comes first.
      None of them has a due date, as `addTask` defaults it to the empty
      string. */
  function SampleTasks(id1: int, id2: int, id3: int, at1: string, at2: string, at3: string): (r: seq<Task>)
    ensures |r| == 3 && r[0].id == id3 && r[1].id == id2 && r[2].id == id1
    ensures forall t :: t in r ==> !t.completed && t.due == Unset
  {
    [ Task(id3, "Try adding tasks with different priorities and categories", false, "low", "personal", Unset, at3),
      Task(id2, "Click on a task to mark it as complete", false, "medium", "work", Unset, at2),
      Task(id1, "Welcome to your Smart To-Do List!", false, "high", "personal", Unset, at1) ]
  }

  /** The samples start out all pending, and none of them is overdue. */
  lemma SampleTasksStats(id1: int, id2: int, id3: int, at1: string, at2: string, at3: string, now: int)
    ensures Stats(SampleTasks(id1, id2, id3, at1, at2, at3)) == Counters(3, 0, 3)
    ensures forall t :: t in SampleTasks(id1, id2, id3, at1, at2, at3) ==> !IsOverdue(t, now)
  {
  }

  /** The three ids come from three `Date.now()` calls in a row and so may
      coincide. When they do, toggling flips only the first sample (the one
      added last) and deleting removes all three. */
  lemma SampleTasksSharedId(id: int, at1: string, at2: string, at3: string)
    ensures var s := SampleTasks(id, id, id, at1, at2, at3);
            Toggled(s, id) == s[0 := s[0].(completed := true)]
    ensures RemoveId(SampleTasks(id, id, id, at1, at2, at3), id) == []
  {
  }

  class TaskStore {
    var tasks: seq<Task>
    var currentFilter: string

    /** Start-up: the saved list, or an empty one when nothing was saved;
        the filter starts at `all`. */
    constructor (saved: Option<seq<Task>>)
      ensures tasks == (match saved case Some(s) => s case None => [])
      ensures currentFilter == "all"
    {
      tasks := match saved case Some(s) => s case None => [];
      currentFilter := "all";
    }

    /** `addTask`: puts a new, not completed task at the front and keeps the
        old tasks after it in their order. The text is stored as given. */
    method AddTask(id: int, createdAt: string, text: string,
                   priority: string := "low", category: string := "personal", due: Due := Unset)
      modifies this
      ensures tasks == [Task(id, text, false, priority, category, due, createdAt)] + old(tasks)
      ensures currentFilter == old(currentFilter)
    {
      tasks := [Task(id, text, false, priority, category, due, createdAt)] + tasks;
    }

    /** The form's submit handler: text that trims to nothing (all white
        space) changes nothing; otherwise the trimmed text is added as a new
        task at the front. */
    method SubmitTask(input: string, priority: string, category: string, due: Due,
                      id: int, createdAt: string) returns (added: bool)
      modifies this
      ensures added <==> !AllWhiteSpaceIn(input, 0, |input|)
      ensures added ==> tasks == [Task(id, Trim(input), false, priority, category, due, createdAt)] + old(tasks)
      ensures !added ==> tasks == old(tasks)
      ensures currentFilter == old(currentFilter)
    {
      var text := Trim(input);
      added := text != "";
      if added {
        tasks := [Task(id, text, false, priority, category, due, createdAt)] + tasks;
      }
    }

    /** `toggleTask`: flips the completion flag of the first task with the
        identifier, in place; nothing happens when no task has it. */
    method ToggleTask(id: int)
      modifies this
      ensures tasks == Toggled(old(tasks), id)
      ensures currentFilter == old(currentFilter)
    {
      var found := FindIndex(tasks, id);
      match found {
        case None =>
        case Some(i) =>
          tasks := tasks[i := tasks[i].(completed := !tasks[i].completed)];
      }
    }

    /** `deleteTask`: drops every task with the identifier. */
    method DeleteTask(id: int)
      modifies this
      ensures tasks == RemoveId(old(tasks), id)
      ensures currentFilter == old(currentFilter)
    {
      tasks := RemoveId(tasks, id);
    }

    /** `clearAllTasks`: empties the list when the user confirms the
        dialog, whose answer is passed in. */
    method ClearAllTasks(confirmed: bool)
      modifies this
      ensures tasks == if confirmed then [] else old(tasks)
      ensures currentFilter == old(currentFilter)
    {
      if confirmed {
        tasks := [];
      }
    }

    /** The load handler of `importTasks`: `parsed` is the file's parsed
        contents, or None when no file was chosen or it does not parse. A
        parsed list replaces the current one wholesale; otherwise nothing
        changes. */
    method ImportTasks(parsed: Option<seq<Task>>) returns (imported: bool)
      modifies this
      ensures imported <==> parsed.Some?
      ensures tasks == if imported then parsed.value else old(tasks)
      ensures currentFilter == old(currentFilter)
    {
      imported := parsed.Some?;
      if imported {
        tasks := parsed.value;
      }
    }

    /** A filter button's click handler: the button's mode becomes current. */
    method SetFilter(mode: string)
      modifies this
      ensures currentFilter == mode && tasks == old(tasks)
    {
      currentFilter := mode;
    }

    /** The seeding run by every load that finds the list empty (also after
        a confirmed clear and a reload): on an empty list, three `addTask` calls with
        the default (empty) due date; a non-empty list is left alone. */
    method SeedSampleTasks(id1: int, id2: int, id3: int, at1: string, at2: string, at3: string)
      modifies this
      ensures old(tasks) == [] ==> tasks == SampleTasks(id1, id2, id3, at1, at2, at3)
      ensures old(tasks) != [] ==> tasks == old(tasks)
      ensures currentFilter == old(currentFilter)
    {
      if |tasks| == 0 {
        AddTask(id1, at1, "Welcome to your Smart To-Do List!", "high", "personal");
        AddTask(id2, at2, "Click on a task to mark it as complete", "medium", "work");
        AddTask(id3, at3, "Try adding tasks with different priorities and categories", "low", "personal");
      }
    }

    /** The tasks `renderTasks` draws. */
    function Visible(): seq<Task>
      reads this
    {
      FilterTasks(tasks, currentFilter)
    }

    /** The numbers `updateStats` shows. */
    function Counts(): Counters
      reads this
    {
      Stats(tasks)
    }
  }

  /** A session on an empty store: adding one task and toggling it leaves
      one completed task that keeps its priority and category. */
  method AddThenToggle(id: int, createdAt: string, due: int)
  {
    var store := new TaskStore(None);
    store.AddTask(id, createdAt, "Buy milk", "high", "shopping", At(due));
    store.ToggleTask(id);
    assert IsFirstWith(store.tasks, id, 0);
    assert |store.tasks| == 1 && store.tasks[0].completed;
    assert store.tasks[0].priority == "high" && store.tasks[0].category == "shopping";
    assert store.Counts() == Counters(1, 1, 0);
    assert store.Visible() == store.tasks;
    store.SetFilter("pending");
    assert store.Visible() == [] by {
      assert store.tasks[0] in store.tasks;
    }
    store.DeleteTask(id);
    assert store.tasks == [];
  }
}
