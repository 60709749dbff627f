# To-do list: task list and row editing, modelled in Dafny

A model of the core of a React Native to-do app: the home screen that owns
the ordered list of tasks (`Home`), and the per-row component that edits one
task in place (`TasksItem`).

- `home.dfy`, module `Home`: a task list is a `seq<Task>`. `Added`, `Toggled`
  and `Removed` are the lists the three handlers produce. Class `Home` holds
  the list and its handler methods replace it. `HandleToggleTaskDone` does
  what the source does: it copies the list into a fresh array, finds the
  first task with the id (`FindTask`, a loop), flips that task's `done` in
  the copy and installs the copy. When nothing matches it returns without
  touching the list. The header counter is `TasksCounter`.
- `task_item.dfy`, module `TaskItem`: the `Task` record. Class `TasksItem`
  holds the row state (`isEditing`, `titleEdited`) and records every callback
  the row makes into its parent (`toggleTaskDone`, `removeTask`,
  `editTask`) in a ghost `calls` log. `View` gives the rendered affordances as a
  function of the task and the row state. `Step` gives a user gesture's
  effect, routed through the affordances that are currently shown and
  enabled. `TasksItem.Press` carries out a gesture on the object and is
  proved against `Step`. `Run` folds `Step` over a sequence of gestures.

Facts about the code that the model keeps:

- Adding a task makes no title check, so a duplicate title is added again (`AddIgnoresTitles`).
- Removing a task happens at once, with no confirmation step.
- The home screen defines no `editTask` handler, so there is no store-level edit operation.
- The draft is seeded from the task's title once, when the row mounts.
  Starting an edit leaves the draft as it is. Cancelling resets it to the title.
- Removing deletes every task with the id. With unique ids that is exactly
  one task (`RemoveUniquePresent`).

Ids are parameters. Nothing assumes they are unique unless a lemma requires
`UniqueIds`. Toggling twice restores the list even when ids repeat, because
toggling never changes an id, so both toggles hit the same first match.

## Model

| member | source | states |
|---|---|---|
| `Home.Added` | src/pages/Home.tsx:11-20 | adding gives one more task; the old tasks come first, unchanged and in order; the new last task has the given id, the title verbatim and is not done |
| `Home.AddIgnoresTitles` | src/pages/Home.tsx:11-20 | adding makes no title check: the given title occurs once more afterwards, even if it was already present |
| `Home.AddAllAppends` | src/pages/Home.tsx:11-20 | a run of adds appends one not-done task per call, in call order, after the untouched old list |
| `Home.AddFreshKeepsUnique` | src/pages/Home.tsx:13-19 | adding with an id no task has keeps ids unique |
| `Home.Toggled` | src/pages/Home.tsx:22-31 | toggling keeps the length, and every position keeps its id and title |
| `Home.FindTask` | src/pages/Home.tsx:26 | returns the first index holding the id, or None exactly when no task has the id |
| `Home.ToggledAbsent` | src/pages/Home.tsx:26-27 | toggling an id no task has leaves the list unchanged |
| `Home.ToggledFirst` | src/pages/Home.tsx:26-28 | toggling is the old list with only the first task of that id replaced by its flipped copy |
| `Home.ToggleChangesOnlyFirstMatch` | src/pages/Home.tsx:26-28 | a task changes under toggling if and only if it is the first with the id, and then its done flag is negated |
| `Home.ToggleTwice` | src/pages/Home.tsx:24-30 | toggling the same id twice restores the original list, for any list |
| `Home.ToggleKeepsUnique` | src/pages/Home.tsx:24-30 | toggling keeps ids unique |
| `Home.Removed` | src/pages/Home.tsx:35 | removing never lengthens the list; a task is in the result if and only if it was in the list and has a different id |
| `Home.RemovedAbsent` | src/pages/Home.tsx:35 | removing an id no task has leaves the list unchanged |
| `Home.RemovedAppend` | src/pages/Home.tsx:35 | removing acts piecewise on a concatenation, so surviving tasks keep their relative order |
| `Home.RemovedIsSubsequence` | src/pages/Home.tsx:35 | the result is a subsequence of the original list |
| `Home.RemovedLength` | src/pages/Home.tsx:35 | the result is shorter by exactly the number of tasks that carried the id |
| `Home.UniqueCountOne` | src/pages/Home.tsx:35 | with unique ids, a present id is carried by exactly one task |
| `Home.RemoveUniquePresent` | src/pages/Home.tsx:35 | with unique ids, removing a present id drops exactly one task |
| `Home.RemoveKeepsUnique` | src/pages/Home.tsx:35 | removing keeps ids unique |
| `Home.ToggleThenRemove` | src/pages/Home.tsx:22-37 | toggling an id and then removing it gives the same list as removing it directly |
| `Home.Home.constructor` | src/pages/Home.tsx:9 | the screen starts with no tasks |
| `Home.Home.TasksCounter` | src/pages/Home.tsx:41 | the number shown in the header is the length of the current list, and zero exactly when the list is empty |
| `Home.Home.HandleAddTask` | src/pages/Home.tsx:11-20 | the new list is `Added` of the old one; the counter grows by one |
| `Home.Home.HandleToggleTaskDone` | src/pages/Home.tsx:22-31 | the new list is `Toggled` of the old one, and it stays untouched when no task matches; the counter is unchanged |
| `Home.Home.HandleRemoveTask` | src/pages/Home.tsx:33-37 | the new list is `Removed` of the old one; the counter drops by the number of tasks with that id |
| `TaskItem.View` | src/components/TaskItem.tsx:59-131 | the filled marker, the check glyph and the strike-through appear together; exactly one of the edit and cancel icons shows; the field is editable exactly when the cancel icon shows and remove is disabled; remove is dimmed exactly when disabled |
| `TaskItem.AffordancesGate` | src/components/TaskItem.tsx:62-130 | each gesture reaches its handler exactly when its affordance is shown or enabled, and otherwise changes nothing: the row body toggles in both modes; remove emits `removeTask(task.id)` iff enabled and never changes the row; typing shows the typed text; submit sends the text the field shows and makes the field read-only; the edit icon makes the cancel icon, the editable field and the disabled remove appear; the cancel icon brings back the edit icon, an enabled remove and the committed title |
| `TaskItem.MarkerShowsDone` | src/components/TaskItem.tsx:68-83 | whatever the row's local state, the marker, the check glyph and the strike-through show exactly the task's `done` flag |
| `TaskItem.Step` | src/components/TaskItem.tsx:34-119 | a gesture makes at most one call, always about this task; a row press emits `toggleTaskDone` in both modes and leaves the row state; remove emits `removeTask` iff not editing and leaves the row state; submit while editing emits `editTask` with the current draft and leaves editing; edit and cancel switch mode, cancel restoring the committed title; typing changes only the draft and only while editing; a hidden icon, a disabled remove or a read-only field does nothing |
| `TaskItem.Run` | src/components/TaskItem.tsx:59-131 | a gesture sequence makes at most one call per gesture, all about this task |
| `TaskItem.TypingWhileEditing` | src/components/TaskItem.tsx:84-86 | typing while editing emits nothing, stays in editing mode and leaves the last typed text as the draft |
| `TaskItem.CancelDiscardsTyping` | src/components/TaskItem.tsx:38-41 | start editing, type anything, cancel: the row is back in its initial state and no call was made |
| `TaskItem.SubmitSendsDraft` | src/components/TaskItem.tsx:43-47 | start editing, type, submit: exactly one `editTask(task.id, draft)` with the last typed text, and the row leaves editing mode |
| `TaskItem.DraftStaysTitleWithoutTyping` | src/components/TaskItem.tsx:31-41 | without typing, a draft equal to the committed title stays equal to it |
| `TaskItem.OneTogglePerRowPress` | src/components/TaskItem.tsx:62-66 | a gesture sequence emits exactly as many `toggleTaskDone` calls as it has row presses, in either mode |
| `TaskItem.TasksItem.constructor` | src/components/TaskItem.tsx:31-32 | a new row is not editing, its draft is the task's title, and it has made no call |
| `TaskItem.TasksItem.HandleStartEditing` | src/components/TaskItem.tsx:34-36 | sets editing; the draft and the call log are unchanged |
| `TaskItem.TasksItem.HandleCancelEditing` | src/components/TaskItem.tsx:38-41 | resets the draft to the committed title and leaves editing; no call |
| `TaskItem.TasksItem.HandleSubmitEditing` | src/components/TaskItem.tsx:43-47 | appends exactly one `editTask(task.id, draft)` with the draft as it was, and ends not editing |
| `TaskItem.TasksItem.OnChangeText` | src/components/TaskItem.tsx:86 | replaces the draft only; editing flag and call log unchanged |
| `TaskItem.TasksItem.Press` | src/components/TaskItem.tsx:62-130 | the new row state and the calls appended are those `Step` gives for the old state |

## Left out

- Id generation from the wall clock (`new Date().getTime()`): the id is a parameter of `HandleAddTask`.
- React scheduling: `useState` setters are plain assignments. The functional update in `handleAddTask` and the closure over `tasks` in `handleToggleTaskDone` and `handleRemoveTask` are not modelled. Nor are batched or stale renders.
- `TaskItem.TasksItem.HandleSubmitEditing`: the intermediate `setIsEditing(true)` before the call is kept as an assignment. No render can observe it.
- A mounted row's `task` prop is fixed (`const task`). A new prop after the parent re-renders is re-render semantics and is not modelled.
- The focus/blur effect on the text field: it is an imperative call into a native component.
- Styles, colours, icon sizes and image assets. Only the boolean choices they hang on are kept: filled marker, strike-through, dimmed remove.
- `Header`, `TodoInput` and `TasksList`, and so how `editTask` reaches a row: Home passes none. These components are not part of this model.
- The `index` prop and the `testID` strings, which only label rendered elements.
