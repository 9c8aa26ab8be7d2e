/** The two stateful components of the page. `TodoList` owns the items and the
    pending input text and re-renders after every change that matters; each
    re-render writes the list to storage and builds a fresh `Task` per item.
    `Task` holds the item's two-step delete confirmation. */
module Components {
  import opened JsString
  import opened JsArray
  import opened Storage
  import opened TodoState

  class TodoList {
    var todos: seq<Todo>
    var labelText: string
    /** The `Task` components drawn by the most recent render, in list order. */
    var tasks: seq<Task>
    /** Local storage, shared with every later page load. */
    const storage: LocalStorage

    /** The list's state as a value, for comparison with module TodoState. */
    ghost function State(): ListState
      reads this, storage
    {
      ListState(todos, labelText, storage.slot)
    }

    /** The drawn tasks are the ones a render has just built: one per item, at
        its own index, showing that item, none of them asking to confirm. */
    ghost predicate ShowsFreshTasks()
      reads this, tasks
    {
      |tasks| == |todos| &&
      forall j :: 0 <= j < |tasks| ==>
        tasks[j].list == this && tasks[j].index == j && tasks[j].todo == todos[j] &&
        !tasks[j].confirmDelete
    }

    /** `new TodoList()`: the stored list, or an empty one when storage holds no
        list, and an empty input buffer. Nothing is drawn or saved yet. */
    constructor (storage: LocalStorage)
      ensures this.storage == storage
      ensures State() == Construct(storage.slot)
      ensures todos == InitialTodos(storage.slot) && labelText == ""
      ensures tasks == []
    {
      this.storage := storage;
      todos := InitialTodos(storage.slot);
      labelText := "";
      tasks := [];
    }

    /** `render`, reached through `getDomNode` when the list is mounted and
        through `update` after a change: save the list, then build one fresh
        `Task` per item. Output nodes are not modelled. */
    method Render()
      modifies this`tasks, storage
      ensures State() == TodoState.Render(old(State()))
      ensures storage.slot == SaveTodosToStorage(todos)
      ensures ShowsFreshTasks()
      ensures forall j :: 0 <= j < |tasks| ==> fresh(tasks[j])
    {
      storage.slot := SaveTodosToStorage(todos);
      var built: seq<Task> := [];
      var i := 0;
      while i < |todos|
        invariant 0 <= i <= |todos|
        invariant storage.slot == SaveTodosToStorage(todos)
        invariant |built| == i
        invariant forall j :: 0 <= j < i ==>
          fresh(built[j]) && built[j].list == this && built[j].index == j &&
          built[j].todo == todos[j] && !built[j].confirmDelete
      {
        var task := new Task(todos[i], i, this);
        built := built + [task];
        i := i + 1;
      }
      tasks := built;
    }

    /** `onAddTask`: when the pending text is not blank it becomes a new item at
        the end, the buffer is cleared and the list re-renders (so storage is
        written); a blank text leaves everything, storage and tasks included, as
        it was. */
    method OnAddTask()
      modifies this, storage
      ensures State() == AddTask(old(State()))
      ensures !IsBlank(old(labelText)) ==>
                todos == old(todos) + [Todo(old(labelText), None)] && labelText == "" &&
                storage.slot == SaveTodosToStorage(todos) &&
                ShowsFreshTasks() && (forall j :: 0 <= j < |tasks| ==> fresh(tasks[j]))
      ensures IsBlank(old(labelText)) ==>
                todos == old(todos) && labelText == old(labelText) &&
                storage.slot == old(storage.slot) && tasks == old(tasks)
    {
      if Trim(labelText) != [] {
        todos := todos + [Todo(labelText, None)];
        labelText := "";
        Render();
      }
    }

    /** `onAddInputChange`: the buffer takes the input's value; nothing is
        re-rendered or saved. */
    method OnAddInputChange(value: string)
      modifies this`labelText
      ensures State() == InputChange(old(State()), value)
      ensures labelText == value && todos == old(todos) && storage.slot == old(storage.slot)
    {
      labelText := value;
    }

    /** `onDeleteTask`: `splice(index, 1)`, then a re-render. */
    method OnDeleteTask(index: int)
      modifies this, storage
      ensures State() == DeleteTask(old(State()), index)
      ensures 0 <= index < |old(todos)| ==> todos == old(todos)[..index] + old(todos)[index + 1..]
      ensures storage.slot == SaveTodosToStorage(todos)
      ensures ShowsFreshTasks() && forall j :: 0 <= j < |tasks| ==> fresh(tasks[j])
    {
      todos := SpliceOne(todos, index);
      Render();
    }

    /** `onToggleTask`: item `index` takes `completed := checked`, then a
        re-render. `ok` is false when there is no such item: the property write
        then throws a TypeError and nothing changes. */
    method OnToggleTask(index: int, checked: bool) returns (ok: bool)
      modifies this, storage
      ensures ok <==> 0 <= index < |old(todos)|
      ensures ok ==> ToggleTask(old(State()), index, checked) == Some(State())
      ensures ok ==> ShowsFreshTasks() && forall j :: 0 <= j < |tasks| ==> fresh(tasks[j])
      ensures !ok ==> State() == old(State()) && tasks == old(tasks)
    {
      ok := 0 <= index < |todos|;
      if ok {
        todos := todos[index := todos[index].(completed := Some(checked))];
        Render();
      }
    }
  }

  /** One drawn item. Its `onDelete` and `onToggle` callbacks are always the
      owning list's `onDeleteTask` and `onToggleTask`, so the model keeps the
      list itself. */
  class Task {
    const todo: Todo
    const index: nat
    const list: TodoList
    /** False ("idle") until the first click on the delete button. */
    var confirmDelete: bool

    constructor (todo: Todo, index: nat, list: TodoList)
      ensures this.todo == todo && this.index == index && this.list == list
      ensures !confirmDelete
    {
      this.todo := todo;
      this.index := index;
      this.list := list;
      confirmDelete := false;
    }

    /** `handleDeleteClick`: the first click only arms the confirmation (the
        list is untouched); a click while armed deletes this task's index from
        the list exactly once, which re-renders the list, and leaves the flag
        set. */
    method HandleDeleteClick()
      modifies this, list, list.storage
      ensures confirmDelete
      ensures !old(confirmDelete) ==>
                list.State() == old(list.State()) && list.tasks == old(list.tasks)
      ensures old(confirmDelete) ==>
                list.State() == DeleteTask(old(list.State()), index) &&
                list.ShowsFreshTasks() &&
                forall j :: 0 <= j < |list.tasks| ==> fresh(list.tasks[j])
    {
      if !confirmDelete {
        confirmDelete := true;
      } else {
        list.OnDeleteTask(index);
      }
    }

    /** The checkbox's change listener: forwards the new checked state to the
        list's toggle handler for this task's index; a successful toggle
        re-renders the list, which replaces every drawn task with a fresh one. */
    method HandleCheckboxChange(checked: bool) returns (ok: bool)
      modifies list, list.storage
      ensures ok <==> index < |old(list.todos)|
      ensures ok ==> ToggleTask(old(list.State()), index, checked) == Some(list.State())
      ensures ok ==> list.ShowsFreshTasks() && forall j :: 0 <= j < |list.tasks| ==> fresh(list.tasks[j])
      ensures !ok ==> list.State() == old(list.State()) && list.tasks == old(list.tasks)
    {
      ok := list.OnToggleTask(index, checked);
    }
  }

  /** Three stored items are loaded and mounted; the first item's delete button
      needs two clicks, and the re-render leaves every task unarmed. */
  method DeleteScenario() {
    var a, b, c := Todo("A", None), Todo("B", None), Todo("C", Some(true));
    var storage := new LocalStorage(TodoArray([a, b, c]));
    var page := new TodoList(storage);
    page.Render();

    var first := page.tasks[0];
    assert first.list == page && first.index == 0 && !first.confirmDelete;
    first.HandleDeleteClick();
    assert page.todos == [a, b, c];
    first.HandleDeleteClick();
    assert page.todos == [a, b, c][..0] + [a, b, c][1..];
    assert page.todos == [b, c];
    assert !page.tasks[0].confirmDelete && !page.tasks[1].confirmDelete;
  }

  /** After item 0 of [A, B, C] is deleted, the checkbox at index 0 toggles B. */
  method IndexShiftScenario() {
    var a, b, c := Todo("A", None), Todo("B", None), Todo("C", Some(true));
    var storage := new LocalStorage(TodoArray([a, b, c]));
    var page := new TodoList(storage);
    page.OnDeleteTask(0);
    assert page.todos == [a, b, c][..0] + [a, b, c][1..];
    var task := page.tasks[0];
    assert task.index == 0 && task.list == page;

    var ok := task.HandleCheckboxChange(true);
    assert ok && page.todos == [Todo("B", Some(true)), c];
  }

  /** A reload after a delete and a toggle builds a list equal to the one last
      drawn. */
  method ReloadScenario() {
    var a, b, c := Todo("A", None), Todo("B", None), Todo("C", Some(true));
    var storage := new LocalStorage(TodoArray([a, b, c]));
    var page := new TodoList(storage);
    page.Render();
    page.OnDeleteTask(1);
    var ok := page.OnToggleTask(0, true);
    assert ok && storage.slot == TodoArray(page.todos);

    var reloaded := new TodoList(storage);
    assert reloaded.todos == page.todos && reloaded.labelText == "";
  }

  /** Adding a blank text changes nothing; adding "Buy milk" appends it with no
      `completed` flag and clears the buffer. */
  method AddScenario() {
    var storage := new LocalStorage(Unparseable);
    var page := new TodoList(storage);
    assert page.todos == [];
    page.Render();

    page.OnAddInputChange("  ");
    assert IsBlank(page.labelText);
    page.OnAddTask();
    assert page.todos == [] && page.labelText == "  ";

    page.OnAddInputChange("Buy milk");
    assert !IsWhitespace(page.labelText[0]);
    page.OnAddTask();
    assert page.todos == [Todo("Buy milk", None)] && page.labelText == "";
  }
}
