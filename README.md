# Smart To-Do List: a Dafny model of the task store

The to-do page keeps one ordered list of tasks (`tasks`) and one filter mode
(`currentFilter`) in `script.js`. New tasks go to the front. A task can be
toggled between pending and completed, or deleted by its identifier. The whole
list can be cleared or replaced by an import, and every page load that finds
the list empty adds three example tasks. The page shows the list through a filter
(`all`, `pending`, `completed`, `high`), three counters, an overdue flag per
task and coloured priority and category badges.

This project models that state and its logic:

- `text.dfy`, module `Text`: JavaScript's `String.prototype.trim` (section
  22.1.3.32 of ECMA-262), over the WhiteSpace and LineTerminator characters
  of sections 12.2 and 12.3. The submit handler applies it.
- `tasks.dfy`, module `Tasks`: the task record; the `tasks.filter(...)`
  passes, written as `Where` over a first-order `Criterion`; the
  `tasks.find(...)` by identifier; the toggled and the deleted list.
- `view.dfy`, module `View`: the filter switch of `renderTasks`, the
  empty-state decision, the `updateStats` counters, the overdue predicate and
  the four badge tables.
- `store.dfy`, module `Store`: class `TaskStore`, whose fields `tasks` and
  `currentFilter` are reassigned by the methods `AddTask`, `SubmitTask`,
  `ToggleTask`, `DeleteTask`, `ClearAllTasks`, `ImportTasks`, `SetFilter` and
  `SeedSampleTasks`. Each method's `ensures` gives its new state as a function
  of the old one, and the lemmas prove what the functions promise.

Inputs that the source takes from the browser are parameters. The id comes
from `Date.now()`. The creation stamp comes from `new Date().toISOString()`.
The clock reading "now" is an integer number of milliseconds. The user's
answer to `confirm` is a boolean. The import is the file's parsed contents,
or `None`. A due date is `Unset` (the empty string), `At(ms)` (a date that
parses) or `Invalid` (a non-empty string that does not parse: the Date is
NaN, which compares false with every value, so the task is never overdue).

Priority, category and filter mode stay strings. The form only offers the
known values, but an imported file may carry any string, so the default
branches of the badge tables are reachable.

Three behaviours of the code may not be what one expects; the model
follows the code:

- One might expect a saved list that cannot be parsed to give an empty
  list. The code has no `try` around `JSON.parse` at script.js:25, so a
  corrupt saved list throws and the script stops. The constructor models
  only the absent and the present saved list.
- One might expect delete to remove "the" task with an identifier. The code
  removes every task with that identifier (script.js:121), while toggle
  flips only the first one (script.js:111). The ids come from `Date.now()`,
  so they can coincide: the three example tasks are created in three calls
  in a row. `SampleTasksSharedId` shows what happens then. With unique ids,
  `RemoveUniqueId` proves that delete removes exactly one task.
- One might expect the example tasks to be added once only. The code seeds
  on every load that finds the list empty (script.js:255), so after a
  confirmed clear (script.js:264) and a reload the examples come back.
  `SeedSampleTasks` is that check on the loaded list.

## Model

| member | source | states |
|---|---|---|
| `Text.SkipWhiteSpace` | script.js:39 | the first index at or after i that is not white space, with everything skipped white space |
| `Text.BackOverWhiteSpace` | script.js:39 | the start of the white-space run that ends at j, not below lo |
| `Text.Trim` | script.js:39 | the result is a contiguous piece of the input with only white space around it, it neither starts nor ends with white space, and it is empty iff the input is all white space |
| `Text.TrimIdempotent` | script.js:39 | trimming the trimmed text changes nothing |
| `Tasks.Where` | script.js:131-141 | a filter pass returns an order-preserving subsequence that holds exactly the tasks the criterion keeps, each as many times as the list holds it, never longer than the list |
| `Tasks.WhereConcat` | script.js:131-141 | filtering a concatenation is concatenating the filtered parts |
| `Tasks.WhereKeepsAll` | script.js:131-141 | a filter that keeps every task returns the list unchanged |
| `Tasks.WhereIdempotent` | script.js:131-141 | filtering twice with one criterion is filtering once |
| `Tasks.WherePartition` | script.js:241-243 | the pending and the completed tasks together number exactly the whole list |
| `Tasks.WhereUpdate` | script.js:113 | replacing one task changes a filter's size by the old task's membership out and the new one's in |
| `Tasks.FindIndex` | script.js:111 | the index found holds the first task with the id; there is none exactly when no task has the id |
| `Tasks.Toggled` | script.js:110-118 | the length and every field except `completed` stay; `completed` changes exactly at the first task with the id |
| `Tasks.ToggleUnknownId` | script.js:112 | an id no task has leaves the list unchanged |
| `Tasks.ToggleTwice` | script.js:113 | toggling the same id twice restores the original list |
| `Tasks.ToggleCompletedCount` | script.js:113 | a toggle raises the completed count by one for a pending task, lowers it by one for a completed one, and an unknown id changes nothing |
| `Tasks.RemoveId` | script.js:120-121 | delete returns an order-preserving subsequence that holds no task with the id and every task without it as many times as the list holds it, never longer than the list |
| `Tasks.RemoveAbsentId` | script.js:121 | deleting an id that no task has is a no-op |
| `Tasks.RemoveIdIdempotent` | script.js:121 | deleting the same id a second time changes nothing |
| `Tasks.RemoveUniqueId` | script.js:121 | when ids are unique, deleting one that is present removes exactly one task |
| `View.FilterTasks` | script.js:127-141 | `pending`, `completed` and `high` give exactly the not-completed, completed and high-priority tasks, each with its multiplicity in the list, `all` and any other mode the whole list, and every result keeps the list's order |
| `View.ShowsEmptyState` | script.js:145-148 | the placeholder shows for an empty list under any mode, and under `all` exactly when the list is empty |
| `View.EmptyStateUnderPending` | script.js:145-148 | the placeholder shows under `pending` exactly when every task is completed |
| `View.Stats` | script.js:240-243 | total is the list's length, 0 <= completed <= total, pending + completed == total, and completed and pending equal the sizes of the `completed` and `pending` views |
| `View.StatsAfterAdd` | script.js:104 | adding a pending task at the front raises total and pending by one and keeps completed |
| `View.StatsAfterToggle` | script.js:110-118 | a toggle keeps the total and moves one task between pending and completed; an unknown id keeps all counters |
| `View.IsOverdue` | script.js:157 | a completed task, and a task without a parsable due date, is never overdue |
| `View.OverdueIff` | script.js:157 | overdue iff a due date is set, it is strictly before now and the task is not completed; a completed task is never overdue |
| `View.OverdueTasksArePending` | script.js:157 | every overdue task is shown by the `pending` filter |
| `View.OverdueAfterToggle` | script.js:157 | completing an overdue task clears the flag; reopening a task whose date has passed sets it |
| `View.PriorityColor` | script.js:194-201 | the default class is returned exactly for a priority outside high/medium/low |
| `View.PriorityIcon` | script.js:203-210 | the default icon is returned exactly for a priority outside high/medium/low |
| `View.CategoryColor` | script.js:212-220 | the default class is returned exactly for a category outside work/personal/shopping/health |
| `View.CategoryIcon` | script.js:222-230 | the default icon is returned exactly for a category outside work/personal/shopping/health |
| `View.BadgeDefaults` | script.js:194-230 | any priority outside high/medium/low and any category outside work/personal/shopping/health gets the default class and icon |
| `View.PriorityColorsDistinct` | script.js:194-201 | two priorities share a color exactly when they are equal or both unrecognised |
| `View.PriorityIconsDistinct` | script.js:203-210 | two priorities share an icon exactly when they are equal or both unrecognised |
| `View.CategoryColorsDistinct` | script.js:212-220 | two categories share a color exactly when they are equal or both unrecognised |
| `View.CategoryIconsDistinct` | script.js:222-230 | two categories share an icon exactly when they are equal or both unrecognised |
| `Store.SampleTasks` | script.js:255-259 | three pending tasks without due date, the last one added (third id) first and the first one added last |
| `Store.SampleTasksStats` | script.js:255-259 | the seeded list counts three tasks, none completed, and none overdue |
| `Store.SampleTasksSharedId` | script.js:255-259 | if the three seeding ids coincide, toggle flips only the last-added sample and delete removes all three |
| `Store.TaskStore.constructor` | script.js:25-26 | the saved list, or the empty list when nothing is saved; the filter starts at `all` |
| `Store.TaskStore.AddTask` | script.js:93-108 | the new, not completed task is at index 0, followed by the old tasks in their old order; the filter is unchanged |
| `Store.TaskStore.SubmitTask` | script.js:37-60 | input that is all white space changes nothing; otherwise the trimmed text is added at the front as a pending task |
| `Store.TaskStore.ToggleTask` | script.js:110-118 | the new list is the old one toggled at the first task with the id |
| `Store.TaskStore.DeleteTask` | script.js:120-125 | the new list is the old one without every task with the id |
| `Store.TaskStore.ClearAllTasks` | script.js:262-269 | a confirmed clear leaves the empty list; an unconfirmed one changes nothing |
| `Store.TaskStore.ImportTasks` | script.js:282-300 | a parsed file replaces the list wholesale; a missing or unparseable file changes nothing |
| `Store.TaskStore.SetFilter` | script.js:73 | the clicked mode becomes the filter and the list is unchanged |
| `Store.TaskStore.SeedSampleTasks` | script.js:254-259 | an empty list becomes the three samples with the last one added first; a non-empty list is unchanged |

## Left out

- Particle animation (script.js:1-13): random numbers and page elements only.
- Drawing the list and the counters, the empty-state element, and the button
  classes (script.js:63-76, 143-191, 245-247). `View.ShowsEmptyState`, the
  filtered list, and `View.Stats` are what those steps show.
- Aliasing of task records: the source flips `completed` on the one object
  the list holds. The model keeps tasks as values in a `seq`, and nothing
  else in the source holds a reference to them.
- Saving to and loading from local storage, and the JSON encoding
  (script.js:25, 250-252). These are calls into the browser, so the
  export-then-import round trip is not stated.
- Export through Blob, object URL and link click (script.js:271-280). It
  changes no state.
- Import: reading the file and `JSON.parse` are outside the model, and
  `ImportTasks` receives their outcome. A parsed value that is not an array
  of task records (the source does not check the shape) is not modelled.
- `alert` and `confirm` dialogs: `confirm`'s answer is a parameter of
  `ClearAllTasks`.
- `Date.now()`, `new Date().toISOString()`, parsing of due-date strings, the
  default due date of the form (script.js:34), and `formatDate`'s
  locale-dependent text (script.js:232-238). Ids, stamps, due instants and
  "now" are parameters.
- Click delegation with `parseInt` of `data-id` (script.js:79-91) and the
  keyboard shortcuts (script.js:303-314). They are event wiring; the
  shortcuts reach `SubmitTask` or change only the input field.
- Clearing and refocusing the input after a submit (script.js:57-58). This
  is page state only.
