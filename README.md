# Task list view-model of the `Home` page

A Dafny model of the only logic in this single-page to-do application: the
task-list view-model inside the `Home` React component (`src/pages/index.js`).
The component keeps five pieces of state — the ordered list of tasks
(`{id, title, completed}` records), the text of the new-task field, the id of
the task being edited (or none), the active tab and the search query — and
updates them from event handlers. It derives from them the list shown under the
tabs (`filteredTasks`) and the two tab counters.

Files and modules:

- `text.dfy`, module `Text`: JavaScript's `trim` (with ECMAScript's exact set of
  whitespace and line-terminator code points), `toLowerCase` (ASCII letters) and
  `includes` (substring test).
- `lists.dfy`, module `Lists`: `Array.prototype.map` and `Array.prototype.filter`
  on sequences, the subsequence relation and the facts about filtering the rest
  of the model uses.
- `tasks.dfy`, module `TaskStore`: the `Task` record and the list
  transformations of `addTask`, `updateTask`, `toggleComplete` and `deleteTask`
  as pure functions, with their idempotence, involution, no-op and
  distinct-id lemmas.
- `view.dfy`, module `TaskView`: the tab and search predicates, `filteredTasks`,
  the two counters, and which rows render as edit fields.
- `home.dfy`, module `HomePage`: class `Home`, whose fields are the component's
  state and whose methods are its handlers; each method's postcondition gives
  the whole new state in terms of the old one and the functions above. Three client
  methods, `AddTwoTasks`, `CompleteFirst` and `Walkthrough`, follow a short
  session through those contracts.

The model follows the code as written, including where it is looser than a
reader of the interface might expect:

- `updateTask`, `toggleComplete` and `deleteTask` affect every task carrying the
  id (`map` / `filter`), not "the" task with it.
- Any tab value other than `"todo"` selects completed tasks (line 65).
- Ids come from `Date.now()` and nothing makes them unique. Uniqueness is a
  premise of the lemmas that need it (`AddDistinct`, `OpsKeepDistinct`,
  `ToggleMovesOne`, `AtMostOneEditingRow`); in particular "at most one row is
  in edit mode" holds only when the ids are distinct, since a row is an edit
  field whenever its id equals the editing id (line 163).
- Loading from storage has no error handling around `JSON.parse` (line 16); the
  model does not claim that malformed stored data is recovered from.

## Model

| member | source | states |
|---|---|---|
| Text.TrimStart | src/pages/index.js:27 | the result is a suffix of the input, everything dropped is whitespace, and it does not start with whitespace |
| Text.TrimEnd | src/pages/index.js:27 | the result is a prefix of the input, everything dropped is whitespace, and it does not end with whitespace |
| Text.Trim | src/pages/index.js:27 | `trim()` is empty exactly when every character is whitespace; otherwise both its ends are non-whitespace |
| Text.LowerChar | src/pages/index.js:67 | the lower-cased character is never an upper-case ASCII letter, and only upper-case letters change |
| Text.Lower | src/pages/index.js:66-68 | `toLowerCase` keeps the length and lower-cases character by character |
| Text.LowerIdempotent | src/pages/index.js:66-68 | lower-casing an already lower-cased string changes nothing |
| Text.Includes | src/pages/index.js:68 | `includes` holds exactly when the query occurs at some offset of the string |
| Lists.Map | src/pages/index.js:41-43 | `map` keeps the length and transforms each position independently |
| Lists.Filter | src/pages/index.js:50 | `filter` keeps an element exactly when it is in the input and the predicate accepts it |
| Lists.FilterIsSubseq | src/pages/index.js:63-70 | `filter` keeps the relative order of what it keeps |
| Lists.FilterMultiplicity | src/pages/index.js:50 | `filter` keeps each accepted element as many times as it occurs and drops every rejected one |
| Lists.FilterPartition | src/pages/index.js:126-136 | filtering by a predicate and by its negation splits the list: the two lengths add up to its length |
| TaskStore.Accepts | src/pages/index.js:27 | the new-task input passes the `inputValue.trim()` test exactly when it has a non-whitespace character |
| TaskStore.Add | src/pages/index.js:26-35 | blank or whitespace-only input leaves the list unchanged; otherwise exactly one task is appended after the unchanged old list, with the clock reading as id, the untrimmed input as title, and not completed |
| TaskStore.Rename | src/pages/index.js:39-44 | same length and order; every task with the id gets exactly the new title (no trim, no emptiness check) and keeps its id and completion; other tasks are untouched |
| TaskStore.Toggle | src/pages/index.js:54-60 | same length, order, ids and titles; completion is negated on exactly the tasks with the id |
| TaskStore.Remove | src/pages/index.js:49-51 | the result is a subsequence of the list, holds no task with the id, and keeps every other task as many times as before |
| TaskStore.RenameIdempotent | src/pages/index.js:39-44 | updating the same id to the same title twice gives the list of updating once |
| TaskStore.RenameAbsent | src/pages/index.js:39-44 | updating an id no task carries leaves the list unchanged |
| TaskStore.ToggleInvolutive | src/pages/index.js:54-60 | toggling the same id twice restores the original list |
| TaskStore.ToggleAbsent | src/pages/index.js:54-60 | toggling an id no task carries leaves the list unchanged |
| TaskStore.ToggleCommutes | src/pages/index.js:54-60 | toggles of two ids can be applied in either order |
| TaskStore.RemoveAbsent | src/pages/index.js:49-51 | deleting an id no task carries leaves the list unchanged |
| TaskStore.RemoveIdempotent | src/pages/index.js:49-51 | deleting the same id twice gives the list of deleting once |
| TaskStore.OpsAfterRemove | src/pages/index.js:39-60 | after an id is deleted, updating, toggling or deleting it again changes nothing |
| TaskStore.AddDistinct | src/pages/index.js:29 | appending keeps ids distinct exactly when the clock reading is not already an id |
| TaskStore.OpsKeepDistinct | src/pages/index.js:39-60 | update, toggle and delete keep distinct ids distinct |
| TaskStore.SubseqDistinct | src/pages/index.js:50 | a subsequence of a list with distinct ids has distinct ids |
| TaskView.MatchesTab | src/pages/index.js:64-65 | the tab test holds exactly when the task's completion equals `tab != "todo"` |
| TaskView.MatchesSearch | src/pages/index.js:66-68 | the search test holds exactly when the lower-cased query occurs in the lower-cased title, so always for the empty query |
| TaskView.Visible | src/pages/index.js:63-70 | `filteredTasks` is a subsequence of the list; a task is in it exactly when its completion is `activeTab != "todo"` and its lower-cased title includes the lower-cased query, and it keeps each such task as many times as the list holds it |
| TaskView.TodoCount | src/pages/index.js:126 | the "To Do" counter is at most the list length; it is 0 exactly when every task is completed and the full length exactly when none is |
| TaskView.CompletedCount | src/pages/index.js:136 | the "Completed" counter is at most the list length; it is 0 exactly when no task is completed and the full length exactly when every task is |
| TaskView.CountsPartition | src/pages/index.js:126-136 | the "To Do" and "Completed" counters are taken over the whole list and add up to its length |
| TaskView.TabTasksCount | src/pages/index.js:64-65 | the tasks of tab "todo" are as many as the "To Do" counter, those of any other tab as many as the "Completed" counter |
| TaskView.EmptyQueryShowsTab | src/pages/index.js:63-70 | with an empty query the view is exactly the tab's tasks, in their order |
| TaskView.VisibleWithinTab | src/pages/index.js:63-70 | the view is a subsequence of the tab's tasks and never exceeds the tab's counter |
| TaskView.SameLowerSameView | src/pages/index.js:66-68 | two queries that lower-case alike show the same tasks |
| TaskView.SearchIgnoresQueryCase | src/pages/index.js:68 | searching for the lower-cased query shows the same tasks as the query itself |
| TaskView.OtherTabsShowCompleted | src/pages/index.js:65 | every tab value other than "todo" shows what "completed" shows |
| TaskView.AddCounts | src/pages/index.js:26-35 | adding accepted input raises the "To Do" counter by one and leaves "Completed" unchanged |
| TaskView.RenameKeepsCounts | src/pages/index.js:39-44 | updating a title leaves both counters unchanged |
| TaskView.ToggleMovesOne | src/pages/index.js:54-60 | with distinct ids, toggling a task moves it from one counter to the other |
| TaskView.AtMostOneEditingRow | src/pages/index.js:163 | with distinct ids, at most one visible row renders as an edit field |
| HomePage.Home.constructor | src/pages/index.js:6-10 | the initial state: no tasks, empty input and query, no editing id, tab "todo" |
| HomePage.Home.FilteredTasks | src/pages/index.js:63-70 | the component's `filteredTasks` is a subsequence of its tasks, holds exactly the tasks passing the active tab and the search query, each as many times as the list holds it, and is no longer than the active tab's counter |
| HomePage.Home.TodoLabel | src/pages/index.js:126 | the number on the "To Do" tab plus the completed tasks make up the whole list |
| HomePage.Home.CompletedLabel | src/pages/index.js:136 | the number on the "Completed" tab plus the incomplete tasks make up the whole list |
| HomePage.Home.ChangeInput | src/pages/index.js:91 | typing sets the new-task field and nothing else |
| HomePage.Home.ChangeSearch | src/pages/index.js:110 | typing sets the search query and nothing else |
| HomePage.Home.SelectTab | src/pages/index.js:119-129 | a tab button sets the active tab and nothing else |
| HomePage.Home.AddTask | src/pages/index.js:26-35 | the list becomes `Add` of the old list, the old input and the clock reading; the field is cleared exactly when the input was accepted, and is otherwise kept |
| HomePage.Home.UpdateTask | src/pages/index.js:39-46 | the list becomes `Rename` of the old one and the editing id is cleared, even when no task has the id |
| HomePage.Home.DeleteTask | src/pages/index.js:49-51 | the list becomes `Remove` of the old one; nothing else changes |
| HomePage.Home.ToggleComplete | src/pages/index.js:54-60 | the list becomes `Toggle` of the old one; nothing else changes |
| HomePage.Home.StartEdit | src/pages/index.js:188 | the Edit button makes the row's id the editing id; nothing else changes |
| HomePage.Home.FinishEdit | src/pages/index.js:168-172 | blur and Enter both update the edited id to the field's text and leave edit mode |

## Left out

- Rendering (JSX markup, CSS classes, the empty-list messages, lines 72-206): presentation only.
- Loading from and saving to `localStorage` with `JSON.parse` / `JSON.stringify` (lines 12-23): browser storage and a library codec. No serialisation round trip is stated.
- `Date.now()` (line 29): the clock reading is the `now` parameter of `AddTask`; nothing is assumed about it.
- Text.LowerChar: lower-cases the ASCII letters only; JavaScript's `toLowerCase` also maps other Unicode letters, which the model leaves unchanged.
- Text.Lower: keeps the length and works character by character, which JavaScript's `toLowerCase` does not for the few letters that lower-case to more than one character (such as U+0130).
- React scheduling: each handler's state update takes effect immediately, in the order the events arrive; the model does not capture two handlers of one render reading the same stale `tasks`, nor re-renders and effects.
- Focus, blur and key events: only their effect is modelled (Enter in the new-task field is `AddTask`; blur or Enter in the edit field is `FinishEdit`). A blur arriving after Enter has already left edit mode is not modelled; `TaskStore.RenameIdempotent` shows such a second update would not change the list.
