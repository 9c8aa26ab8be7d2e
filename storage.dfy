/** To-do items and the browser storage slot (key "todos") that holds them between
    page loads. The JSON text itself is not modelled: a slot holds what reading it
    back would produce. */
module Storage {

  datatype Option<T> = None | Some(value: T)

  /** One to-do entry, `{label, completed?}`. The label is held in `text`
      (`label` is a Dafny keyword); `completed` is absent (None) until the
      entry's checkbox is first changed. */
  datatype Todo = Todo(text: string, completed: Option<bool>)

  /** What the "todos" slot of local storage yields when read back:
      - Absent: `getItem` returns null (nothing was ever saved);
      - EmptyText: the slot holds the empty string, which JavaScript treats as false;
      - Unparseable: the text is not JSON, so `JSON.parse` throws;
      - JsonNull: the text is the JSON literal `null`;
      - TodoArray: the text is a JSON array of to-do objects. */
  datatype Stored = Absent | EmptyText | Unparseable | JsonNull | TodoArray(todos: seq<Todo>)

  /** `loadTodosFromStorage`: the parsed list, or null (None) when the slot is
      missing, empty, malformed or holds `null`. No failure escapes. */
  function LoadTodosFromStorage(slot: Stored): (r: Option<seq<Todo>>)
    ensures r.Some? <==> slot.TodoArray?
    ensures r.Some? ==> r.value == slot.todos
  {
    match slot
    case Absent => None
    case EmptyText => None
    case Unparseable => None
    case JsonNull => None
    case TodoArray(todos) => Some(todos)
  }

  /** `saveTodosToStorage`: the slot now holds the list's JSON text, which reads
      back as exactly that list. */
  function SaveTodosToStorage(todos: seq<Todo>): (slot: Stored)
    ensures LoadTodosFromStorage(slot) == Some(todos)
  {
    TodoArray(todos)
  }

  /** The list a fresh `TodoList` starts from: `loadTodosFromStorage() ?? []`. */
  function InitialTodos(slot: Stored): (todos: seq<Todo>)
    ensures slot.TodoArray? ==> todos == slot.todos
    ensures !slot.TodoArray? ==> todos == []
  {
    match LoadTodosFromStorage(slot)
    case Some(loaded) => loaded
    case None => []
  }

  /** The browser's local storage, reduced to its one "todos" slot. It outlives
      every `TodoList` built on it, which is what makes reloading observable. */
  class LocalStorage {
    var slot: Stored

    constructor (initial: Stored)
      ensures slot == initial
    {
      slot := initial;
    }
  }
}
