/** The state behind the to-do list page, as values: the items, the pending text
    of the add-form and the storage slot, with one transition per event handler of
    `TodoList`. The classes in module Components are proved to follow these. */
module TodoState {
  import opened JsString
  import opened JsArray
  import opened Storage

  datatype ListState = ListState(todos: seq<Todo>, labelText: string, slot: Stored)

  /** The storage slot holds exactly the current list: a reload would see it. */
  ghost predicate Synced(st: ListState) {
    st.slot == SaveTodosToStorage(st.todos)
  }

  /** `new TodoList()`: the stored list (or none) and an empty input buffer. */
  function Construct(slot: Stored): (st: ListState)
    ensures st.slot == slot && st.labelText == ""
    ensures st.todos == if slot.TodoArray? then slot.todos else []
  {
    ListState(InitialTodos(slot), "", slot)
  }

  /** The one state change of `render`: the list is written to storage before
      anything is drawn. */
  function Render(st: ListState): (r: ListState)
    ensures Synced(r)
    ensures r.todos == st.todos && r.labelText == st.labelText
  {
    st.(slot := SaveTodosToStorage(st.todos))
  }

  /** `onAddTask`: a pending text that is not blank is appended as a new item
      with no `completed` flag, the buffer is cleared and the list re-rendered;
      a blank one changes nothing at all, storage included. */
  function AddTask(st: ListState): (r: ListState)
    ensures !IsBlank(st.labelText) ==>
              r.todos == st.todos + [Todo(st.labelText, None)] && r.labelText == "" && Synced(r)
    ensures IsBlank(st.labelText) ==> r == st
  {
    if Trim(st.labelText) != [] then
      Render(ListState(st.todos + [Todo(st.labelText, None)], "", st.slot))
    else
      st
  }

  /** `onAddInputChange`: only the buffer changes; there is no re-render, so
      storage is not written. */
  function InputChange(st: ListState, value: string): (r: ListState)
    ensures r.labelText == value
    ensures r.todos == st.todos && r.slot == st.slot
  {
    st.(labelText := value)
  }

  /** `onDeleteTask`: `splice(index, 1)` and a re-render. For an index inside the
      list exactly that item goes and the others keep their order. */
  function DeleteTask(st: ListState, index: int): (r: ListState)
    ensures 0 <= index < |st.todos| ==> r.todos == st.todos[..index] + st.todos[index + 1..]
    ensures |st.todos| <= index ==> r.todos == st.todos
    ensures r.labelText == st.labelText && Synced(r)
  {
    Render(st.(todos := SpliceOne(st.todos, index)))
  }

  /** `onToggleTask`: item `index` gets `completed := checked` and the list is
      re-rendered. Without an item at `index` the property write throws a
      TypeError before anything changes (None). */
  function ToggleTask(st: ListState, index: int, checked: bool): (r: Option<ListState>)
    ensures r.Some? <==> 0 <= index < |st.todos|
    ensures r.Some? ==> |r.value.todos| == |st.todos|
    ensures r.Some? ==> r.value.todos[index] == Todo(st.todos[index].text, Some(checked))
    ensures r.Some? ==> forall j :: 0 <= j < |st.todos| && j != index ==> r.value.todos[j] == st.todos[j]
    ensures r.Some? ==> r.value.labelText == st.labelText && Synced(r.value)
  {
    if 0 <= index < |st.todos| then
      var item := st.todos[index];
      Some(Render(st.(todos := st.todos[index := item.(completed := Some(checked))])))
    else
      None
  }

  /** The user actions that reach `TodoList`'s handlers. */
  datatype Event =
    | AddClicked
    | InputChanged(value: string)
    | DeleteConfirmed(index: int)
    | CheckboxChanged(index: int, checked: bool)

  /** One handler run; a handler that throws leaves the state as it was. */
  function Step(st: ListState, e: Event): ListState {
    match e
    case AddClicked => AddTask(st)
    case InputChanged(value) => InputChange(st, value)
    case DeleteConfirmed(index) => DeleteTask(st, index)
    case CheckboxChanged(index, checked) =>
      match ToggleTask(st, index, checked)
      case Some(next) => next
      case None => st
  }

  function Run(st: ListState, events: seq<Event>): ListState
    decreases |events|
  {
    if events == [] then st else Run(Step(st, events[0]), events[1..])
  }

  /** No handler lets storage fall behind the list. */
  lemma StepKeepsSynced(st: ListState, e: Event)
    requires Synced(st)
    ensures Synced(Step(st, e))
  {
  }

  lemma {:induction false} RunKeepsSynced(st: ListState, events: seq<Event>)
    requires Synced(st)
    ensures Synced(Run(st, events))
    decreases |events|
  {
    if events != [] {
      StepKeepsSynced(st, events[0]);
      RunKeepsSynced(Step(st, events[0]), events[1..]);
    }
  }

  /** Whatever was stored before, once the list is mounted (rendered once) and
      any sequence of events has been handled, reloading the page builds a list
      equal to the one on screen, with an empty input buffer. */
  lemma ReloadRestoresList(slot: Stored, events: seq<Event>)
    ensures var st := Run(Render(Construct(slot)), events);
            Construct(st.slot) == ListState(st.todos, "", st.slot)
  {
    RunKeepsSynced(Render(Construct(slot)), events);
  }

  /** Items are known only by position: after deleting item `i`, index `j` names
      the item that used to follow the deleted one when `j >= i`. */
  lemma DeleteShiftsIndices(st: ListState, i: int, j: int, checked: bool)
    requires 0 <= i < |st.todos| && 0 <= j < |st.todos| - 1
    ensures var r := ToggleTask(DeleteTask(st, i), j, checked);
            r.Some? &&
            r.value.todos[j] == Todo(st.todos[if j < i then j else j + 1].text, Some(checked))
  {
  }
}
