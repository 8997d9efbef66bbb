/** What the renderer computes from the task list before it touches the
    page: the filtered list, the counters, the overdue flag and the badge
    look-up tables. */
module View {
  import opened Tasks

  /** The filter switch of `renderTasks`: `pending`, `completed` and `high`
      select by completion or priority; `all` and any other mode leave the
      list whole. The result always keeps the list's order, and a selected
      task appears as often as in the list. */
  function FilterTasks(s: seq<Task>, mode: string): (r: seq<Task>)
    ensures IsSubsequence(r, s)
    ensures mode == "pending" ==> forall t :: t in r <==> t in s && !t.completed
    ensures mode == "completed" ==> forall t :: t in r <==> t in s && t.completed
    ensures mode == "high" ==> forall t :: t in r <==> t in s && t.priority == "high"
    ensures mode == "pending" ==>
              forall t :: multiset(r)[t] == if !t.completed then multiset(s)[t] else 0
    ensures mode == "completed" ==>
              forall t :: multiset(r)[t] == if t.completed then multiset(s)[t] else 0
    ensures mode == "high" ==>
              forall t :: multiset(r)[t] == if t.priority == "high" then multiset(s)[t] else 0
    ensures mode != "pending" && mode != "completed" && mode != "high" ==> r == s
  {
    if mode == "pending" then Where(s, Pending)
    else if mode == "completed" then Where(s, Completed)
    else if mode == "high" then Where(s, HighPriority)
    else
      assert IsSubsequence(s, s) by { SubsequenceRefl(s); }
      s
  }

  lemma {:induction false} SubsequenceRefl<T>(s: seq<T>)
    ensures IsSubsequence(s, s)
  {
    if s != [] {
      SubsequenceRefl(s[1..]);
    }
  }

  /** The empty-state placeholder is shown exactly when the filter leaves
      nothing. Under `all` that means an empty list; under `pending` it
      means every task is done. */
  predicate ShowsEmptyState(s: seq<Task>, mode: string)
    ensures s == [] ==> ShowsEmptyState(s, mode)
    ensures mode == "all" ==> (ShowsEmptyState(s, mode) <==> s == [])
  {
    |FilterTasks(s, mode)| == 0
  }

  lemma EmptyStateUnderPending(s: seq<Task>)
    ensures ShowsEmptyState(s, "pending") <==> forall k :: 0 <= k < |s| ==> s[k].completed
  {
    if !ShowsEmptyState(s, "pending") {
      var t := FilterTasks(s, "pending")[0];
      assert t in FilterTasks(s, "pending");
    } else {
      forall k | 0 <= k < |s| ensures s[k].completed {
        assert s[k] in s;
      }
    }
  }

  /** The three numbers `updateStats` shows. */
  datatype Counters = Counters(total: int, completed: int, pending: int)

  /** The counters: total is the list's length, completed the number of
      completed tasks, pending the remainder, which is also the number of
      tasks the `pending` filter shows. */
  function Stats(s: seq<Task>): (r: Counters)
    ensures r.total == |s|
    ensures 0 <= r.completed <= r.total
    ensures r.pending + r.completed == r.total
    ensures r.completed == |FilterTasks(s, "completed")|
    ensures r.pending == |FilterTasks(s, "pending")|
  {
    var total := |s|;
    var completed := |Where(s, Completed)|;
    WherePartition(s);
    Counters(total, completed, total - completed)
  }

  /** Adding a pending task at the front raises the total and the pending
      count by one and leaves the completed count alone. */
  lemma StatsAfterAdd(s: seq<Task>, t: Task)
    requires !t.completed
    ensures Stats([t] + s) == Counters(Stats(s).total + 1, Stats(s).completed, Stats(s).pending + 1)
  {
  }

  /** Toggling a task moves it from pending to completed or back; the total
      stays. */
  lemma StatsAfterToggle(s: seq<Task>, id: int)
    ensures Stats(Toggled(s, id)).total == Stats(s).total
    ensures FindIndex(s, id).None? ==> Stats(Toggled(s, id)) == Stats(s)
    ensures FindIndex(s, id).Some? && !s[FindIndex(s, id).value].completed ==>
              Stats(Toggled(s, id)).completed == Stats(s).completed + 1 &&
              Stats(Toggled(s, id)).pending == Stats(s).pending - 1
    ensures FindIndex(s, id).Some? && s[FindIndex(s, id).value].completed ==>
              Stats(Toggled(s, id)).completed == Stats(s).completed - 1 &&
              Stats(Toggled(s, id)).pending == Stats(s).pending + 1
  {
    ToggleCompletedCount(s, id);
  }

  /** `task.dueDate && new Date(task.dueDate) < new Date() && !task.completed`,
      with the clock reading passed in as `now`. */
  predicate IsOverdue(t: Task, now: int)
    ensures t.completed ==> !IsOverdue(t, now)
    ensures !t.due.At? ==> !IsOverdue(t, now)
  {
    match t.due
    case Unset => false
    case Invalid => false
    case At(time) => time < now && !t.completed
  }

  /** Overdue means: a due date is set, it is strictly before now, and the
      task is not completed. A completed task is never overdue. */
  lemma OverdueIff(t: Task, now: int)
    ensures IsOverdue(t, now) <==> t.due.At? && t.due.time < now && !t.completed
    ensures t.completed ==> !IsOverdue(t, now)
  {
  }

  /** Every overdue task is among the ones the `pending` filter shows. */
  lemma OverdueTasksArePending(s: seq<Task>, now: int)
    ensures forall t :: t in s && IsOverdue(t, now) ==> t in FilterTasks(s, "pending")
  {
  }

  /** Completing an overdue task clears its overdue flag; reopening a task
      whose date has passed makes it overdue again. */
  lemma OverdueAfterToggle(s: seq<Task>, id: int, now: int, j: nat)
    requires IsFirstWith(s, id, j)
    ensures IsOverdue(s[j], now) ==> !IsOverdue(Toggled(s, id)[j], now)
    ensures s[j].completed && s[j].due.At? && s[j].due.time < now ==> IsOverdue(Toggled(s, id)[j], now)
  {
  }

  /** The badge classes and icons of `getPriorityColor`, `getPriorityIcon`,
      `getCategoryColor` and `getCategoryIcon`. */
  function PriorityColor(priority: string): (r: string)
    ensures r == "bg-gray-100 text-gray-700" <==> priority !in Priorities
  {
    if priority == "high" then "bg-black text-white"
    else if priority == "medium" then "bg-gray-600 text-white"
    else if priority == "low" then "bg-gray-300 text-gray-700"
    else "bg-gray-100 text-gray-700"
  }

  function PriorityIcon(priority: string): (r: string)
    ensures r == "\U{26AA}" <==> priority !in Priorities
  {
    if priority == "high" then "\U{1F534}"
    else if priority == "medium" then "\U{1F7E1}"
    else if priority == "low" then "\U{1F7E2}"
    else "\U{26AA}"
  }

  function CategoryColor(category: string): (r: string)
    ensures r == "bg-gray-100 text-gray-700" <==> category !in Categories
  {
    if category == "work" then "bg-gray-900 text-white"
    else if category == "personal" then "bg-gray-700 text-white"
    else if category == "shopping" then "bg-gray-500 text-white"
    else if category == "health" then "bg-gray-300 text-gray-700"
    else "bg-gray-100 text-gray-700"
  }

  function CategoryIcon(category: string): (r: string)
    ensures r == "\U{1F4DD}" <==> category !in Categories
  {
    if category == "work" then "\U{1F4BC}"
    else if category == "personal" then "\U{1F464}"
    else if category == "shopping" then "\U{1F6D2}"
    else if category == "health" then "\U{1F3E5}"
    else "\U{1F4DD}"
  }

  const Priorities: set<string> := {"high", "medium", "low"}
  const Categories: set<string> := {"work", "personal", "shopping", "health"}

  /** Any value outside the known ones gets the default badge, whatever it
      is (an imported task may carry anything). */
  lemma BadgeDefaults(priority: string, category: string)
    ensures priority !in Priorities ==>
              PriorityColor(priority) == "bg-gray-100 text-gray-700" && PriorityIcon(priority) == "\U{26AA}"
    ensures category !in Categories ==>
              CategoryColor(category) == "bg-gray-100 text-gray-700" && CategoryIcon(category) == "\U{1F4DD}"
  {
  }

  /** The tables tell their keys apart: two priorities (or two categories)
      get the same color, or the same icon, only when both are the same
      known value or both are unrecognised. */
  lemma PriorityColorsDistinct(p: string, q: string)
    ensures PriorityColor(p) == PriorityColor(q) <==> p == q || (p !in Priorities && q !in Priorities)
  {
  }

  lemma PriorityIconsDistinct(p: string, q: string)
    ensures PriorityIcon(p) == PriorityIcon(q) <==> p == q || (p !in Priorities && q !in Priorities)
  {
  }

  lemma CategoryColorsDistinct(a: string, b: string)
    ensures CategoryColor(a) == CategoryColor(b) <==> a == b || (a !in Categories && b !in Categories)
  {
  }

  lemma CategoryIconsDistinct(a: string, b: string)
    ensures CategoryIcon(a) == CategoryIcon(b) <==> a == b || (a !in Categories && b !in Categories)
  {
  }
}
