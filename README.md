# To-do list page: the state behind the UI

A Dafny model of the state held behind the single-page to-do list in
`index.js`. Two components have state.

- `TodoList` owns an ordered list of to-do items (`{label, completed?}`) and
  the pending text of the add-form. Four handlers change that state. Add
  appends the pending text when it is not blank. Input-change overwrites the
  pending text. Delete is `splice(index, 1)`. Toggle writes `completed` on one
  item. Every handler that re-renders goes through `render`, and `render` first
  writes the whole list to local storage under the key "todos". It then builds
  a fresh `Task` component per item.
- `Task` is one drawn item with a two-step delete button. A fresh task is idle.
  The first click arms it. A click while armed asks the list to delete the
  task's index, and the task's own flag stays as it is.

The model has five modules.

- `JsString` holds `String.prototype.trim` as the to-do list uses it.
- `JsArray` holds `Array.prototype.splice(start, 1)`, with ECMAScript's rules
  for negative and out-of-range starts.
- `Storage` holds the item type, the storage slot, `loadTodosFromStorage` and
  `saveTodosToStorage`, and a `LocalStorage` object that outlives a page load.
- `TodoState` describes the list's state as a value, with one transition
  function per handler. It proves, over any sequence of user events, that
  storage never falls behind the list once the list is mounted, so a reload
  rebuilds the list on screen.
- `Components` holds the classes `TodoList` and `Task`. Their fields change in
  place, and each method is proved to follow its `TodoState` transition. A
  render is proved to leave every drawn task fresh and unconfirmed, which is
  why any re-render resets the delete confirmation of every item. Four client
  methods, `DeleteScenario`, `IndexShiftScenario`, `ReloadScenario` and
  `AddScenario`, check on concrete lists that delete needs two clicks, indices
  shift after a delete, blank adds are ignored, and reload restores the list.

Storage holds what reading the slot back yields. It can be absent, the empty
string, text that is not JSON, the JSON literal `null`, or a list of items.
`loadTodosFromStorage() ?? []` gives an empty list in every case but the last.
Saving writes a list that reads back as itself.

A new item gets no `completed` field at all (`{label}`), not `completed:
false`. Toggle writes `completed` on an existing item, and with no item at the
index the write throws a TypeError and changes nothing.

## Model

| member | source | states |
|---|---|---|
| `JsString.TrimStart` | index.js:147 | the result is the suffix of the text that starts at its first non-whitespace character; everything dropped is whitespace |
| `JsString.TrimEnd` | index.js:147 | the result is the prefix of the text that ends at its last non-whitespace character; everything dropped is whitespace |
| `JsString.Trim` | index.js:147 | `trim()` is a contiguous piece of the text, empty exactly when the text is blank (only whitespace), and otherwise starting and ending with non-whitespace |
| `JsString.TrimIdempotent` | index.js:147 | trimming an already trimmed text changes nothing |
| `JsArray.ActualStart` | index.js:159 | the start position that `splice` uses is always within 0..length |
| `JsArray.SpliceOne` | index.js:159 | for an index inside the array, `splice(index, 1)` removes exactly that element: one fewer element, earlier ones in place, later ones shifted down by one, the same multiset less the removed item; an index at or past the end removes nothing |
| `JsArray.SpliceOneFromEnd` | index.js:159 | a negative index counts back from the end, and one before the start means index 0 |
| `Storage.LoadTodosFromStorage` | index.js:44-51 | gives a list exactly when the slot holds a list (that list), and null when the slot is absent, empty, unparseable or `null` |
| `Storage.SaveTodosToStorage` | index.js:40-42 | the slot written reads back as exactly the saved list |
| `Storage.InitialTodos` | index.js:142 | `loadTodosFromStorage() ?? []`: the stored list when there is one, otherwise the empty list |
| `Storage.LocalStorage.constructor` | index.js:40-51 | the "todos" slot starts with the given content |
| `TodoState.Construct` | index.js:140-144 | a new list holds the stored list (or none) and an empty input buffer, and does not touch storage |
| `TodoState.Render` | index.js:168-169 | rendering leaves the items and the buffer alone and leaves storage holding exactly the list |
| `TodoState.AddTask` | index.js:146-152 | with non-blank pending text: that text is appended as `{label}` after the unchanged earlier items, the buffer is cleared and storage holds the new list; with blank text: nothing changes, storage included |
| `TodoState.InputChange` | index.js:154-156 | the buffer takes the new value; items and storage are unchanged (no re-render) |
| `TodoState.DeleteTask` | index.js:158-161 | for an index inside the list, the items become `todos[..i] + todos[i+1..]`; an index past the end leaves them; the buffer is kept and storage holds the resulting list |
| `TodoState.ToggleTask` | index.js:163-166 | succeeds exactly for an index inside the list; item `i` keeps its label and gets `completed = checked`, every other item is unchanged, the buffer is kept and storage holds the new list |
| `TodoState.StepKeepsSynced` | index.js:146-169 | if storage holds the list before any handler runs, it still does afterwards |
| `TodoState.RunKeepsSynced` | index.js:146-169 | the same for any sequence of events (induction over the sequence) |
| `TodoState.ReloadRestoresList` | index.js:140-169 | from any stored content, after mounting and any sequence of events, a new list built from storage equals the list on screen, with an empty buffer |
| `TodoState.DeleteShiftsIndices` | index.js:158-166 | after deleting item `i`, toggling index `j` changes the item that was at `j` when `j < i` and at `j + 1` otherwise |
| `Components.TodoList.constructor` | index.js:140-144 | the object's state is `Construct` of the storage slot; no task is drawn |
| `Components.TodoList.Render` | index.js:168-177 | storage is set to the list, items and buffer unchanged, and the drawn tasks are new objects, one per item, at its index, showing it, none armed for deletion |
| `Components.TodoList.OnAddTask` | index.js:146-152 | the new state is `AddTask` of the old one; a non-blank add appends `{label}`, clears the buffer, saves and draws fresh tasks; a blank add changes no field and no storage |
| `Components.TodoList.OnAddInputChange` | index.js:154-156 | only the buffer changes, to the given value |
| `Components.TodoList.OnDeleteTask` | index.js:158-161 | the new state is `DeleteTask` of the old one; storage holds the list; all drawn tasks are fresh and unarmed |
| `Components.TodoList.OnToggleTask` | index.js:163-166 | succeeds exactly for an index inside the list, with the new state `ToggleTask` of the old one and fresh tasks; otherwise nothing changes |
| `Components.Task.constructor` | index.js:73-80 | a new task keeps its item, index and owning list, and is not armed |
| `Components.Task.HandleDeleteClick` | index.js:82-89 | first click: the task is armed and the list, its storage and its drawn tasks are unchanged; click while armed: the list makes exactly one `DeleteTask` transition for this index, is re-rendered with fresh unarmed tasks, and this task stays armed |
| `Components.Task.HandleCheckboxChange` | index.js:96-99 | the checkbox change succeeds exactly when the list has an item at this task's index; then the list makes the `ToggleTask` transition for that index with the new checked state and is re-rendered with fresh unarmed tasks; otherwise the list's state and drawn tasks are unchanged |

## Left out

- `createElement` (index.js:1-38) and the output trees of every `render` (index.js:91-115, 126-136, 179-187) are left out. They only build browser DOM nodes, attributes, styles and listeners.
- `Component.getDomNode` and `update` (index.js:58-69) keep only their effect on state. For `TodoList` that is the save and the fresh tasks. For `Task` it is nothing. Replacing a node in its parent is DOM plumbing.
- `AddTask` (index.js:118-137) has no state. It forwards input and clicks verbatim, so the model calls the list's handlers directly with plain values.
- Event objects (`e.target.value`, `e.target.checked`) become plain parameters. The `DOMContentLoaded` bootstrap (index.js:191-193) is left out; mounting is a call to `Render` on a new list.
- JSON text and `JSON.parse`/`JSON.stringify` are not modelled. A storage slot holds what parsing it would yield. Stored JSON that parses to something other than `null` or a list of items (a number, an object, a list of non-objects) is left out. So are storage quota errors.
- `Storage.SaveTodosToStorage`: assumes, without proof, that `JSON.stringify` of a list of items parses back to the same list.
- `JsString.IsWhitespace` lists ECMAScript's whitespace and line terminators by code point. It follows the current Unicode space separators, not whichever version a given browser ships. Text is a sequence of Unicode scalar values rather than UTF-16 code units; no whitespace character needs a surrogate pair.
- `Components.Task`: the item is kept as a value. In the source, a task shares the item object with the list. The difference cannot be observed, because every change to an item re-renders the list and replaces all tasks.
- `Components.Task`: the `onDelete` and `onToggle` callbacks are modelled as the owning list. The list's render is the only place that builds tasks, and it always passes its own handlers.
