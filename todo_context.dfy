/** The persisted todo container of `src/context/todo-context.tsx`: the list
    state of `TodoProvider`, its mount effect that loads the list from browser
    storage, the effect that writes the list back after every change, and the
    `useTodoContext` guard. Browser storage is a map from keys to stored
    values; JSON is abstracted by the two kinds of stored text the provider
    can meet. */
module TodoContext {
  import opened Wrappers
  import opened Strings
  import opened Todos

  const StorageKey := "next-15-todos"

  /** Text held under a storage key: what `JSON.stringify` wrote for a list
      (it always parses back to that list), or text that `JSON.parse` rejects,
      the empty string included. */
  datatype Stored = Serialized(todos: seq<Todo>) | Unparseable(raw: string)

  /** What the provider hands to its consumers. */
  datatype TodoContextValue = TodoContextValue(
    todos: seq<Todo>, completedCount: nat, activeCount: nat, totalCount: nat)

  class TodoProvider {
    var todos: seq<Todo>
    var storage: map<string, Stored>

    /** The storage key holds the serialization of the current list. */
    predicate Saved()
      reads this
    {
      StorageKey in storage && storage[StorageKey] == Serialized(todos)
    }

    /** The provider is created with an empty list, before any effect runs. */
    constructor (storage: map<string, Stored>)
      ensures todos == [] && this.storage == storage
    {
      todos := [];
      this.storage := storage;
    }

    /** The two mount effects: a stored list replaces the state; an absent key
        or text that does not parse leaves it as it was (the error is only
        logged). Then the list is written back, so unparseable text under the
        key is overwritten. */
    method Mount()
      modifies this
      ensures StorageKey in old(storage) && old(storage)[StorageKey].Serialized? ==>
        todos == old(storage)[StorageKey].todos
      ensures !(StorageKey in old(storage) && old(storage)[StorageKey].Serialized?) ==>
        todos == old(todos)
      ensures storage == old(storage)[StorageKey := Serialized(todos)]
      ensures Saved()
    {
      if StorageKey in storage {
        var stored := storage[StorageKey];
        if stored.Serialized? {
          todos := stored.todos;
        }
      }
      Save();
    }

    /** The save effect: the whole list is written under the key. */
    method Save()
      modifies this`storage
      ensures storage == old(storage)[StorageKey := Serialized(todos)]
      ensures Saved()
    {
      storage := storage[StorageKey := Serialized(todos)];
    }

    /** `addTodo(text)` at time `now`: blank text returns before the state is
        touched, so nothing changes and nothing is written; otherwise one
        trimmed, incomplete todo is appended and the list is saved. */
    method AddTodo(text: string, now: nat)
      modifies this
      ensures todos == Todos.AddTodo(old(todos), text, now)
      ensures AllWhitespace(text) ==> storage == old(storage)
      ensures !AllWhitespace(text) ==> storage == old(storage)[StorageKey := Serialized(todos)]
      ensures old(Saved()) ==> Saved()
    {
      if Trim(text) == [] {
        return;
      }
      todos := Todos.AddTodo(todos, text, now);
      Save();
    }

    /** `toggleTodo(id)`, then the save effect. */
    method ToggleTodo(id: string)
      modifies this
      ensures todos == Todos.ToggleTodo(old(todos), id)
      ensures storage == old(storage)[StorageKey := Serialized(todos)]
    {
      todos := Todos.ToggleTodo(todos, id);
      Save();
    }

    /** `deleteTodo(id)`, then the save effect. */
    method DeleteTodo(id: string)
      modifies this
      ensures todos == Todos.DeleteTodo(old(todos), id)
      ensures storage == old(storage)[StorageKey := Serialized(todos)]
    {
      todos := Todos.DeleteTodo(todos, id);
      Save();
    }

    /** `clearCompleted()`, then the save effect. */
    method ClearCompleted()
      modifies this
      ensures todos == Todos.ClearCompleted(old(todos))
      ensures storage == old(storage)[StorageKey := Serialized(todos)]
    {
      todos := Todos.ClearCompleted(todos);
      Save();
    }

    /** `markAllCompleted(completed = true)`, then the save effect. */
    method MarkAllCompleted(completed: bool := true)
      modifies this
      ensures todos == Todos.MarkAllCompleted(old(todos), completed)
      ensures storage == old(storage)[StorageKey := Serialized(todos)]
    {
      todos := Todos.MarkAllCompleted(todos, completed);
      Save();
    }

    /** The value the provider exposes: the list and its three counts, which
        always add up. */
    function Value(): (v: TodoContextValue)
      reads this
      ensures v.todos == todos && v.totalCount == |todos|
      ensures v.completedCount + v.activeCount == v.totalCount
      ensures v.completedCount == CompletedCount(todos) && v.activeCount == ActiveCount(todos)
    {
      CountsAddUp(todos);
      TodoContextValue(todos, CompletedCount(todos), ActiveCount(todos), TotalCount(todos))
    }
  }

  const OutsideProvider := "useTodoContext must be used within a TodoProvider"

  /** `useTodoContext()`: the provider's value, or an error when there is no
      provider above the caller. `Theme.UseTheme` is the same guard for the
      theme context; each keeps its own hook's error message. */
  function UseTodoContext(context: Option<TodoContextValue>): (r: Result<TodoContextValue, string>)
    ensures r.Failure? <==> context.None?
    ensures r.Failure? ==> r.error == OutsideProvider
    ensures r.Success? ==> r.value == context.value
  {
    match context
    case None => Failure(OutsideProvider)
    case Some(value) => Success(value)
  }

  /** A provider over storage that holds a list: after mounting it shows that
      list, each operation keeps the storage in step, and the counts follow. */
  method Session(stored: seq<Todo>, now: nat)
  {
    var provider := new TodoProvider(map[StorageKey := Serialized(stored)]);
    provider.Mount();
    assert provider.todos == stored;
    assert !AllWhitespace("  Write tests ") by { assert !IsJsWhitespace("  Write tests "[2]); }
    provider.AddTodo("  Write tests ", now);
    ghost var added := provider.todos;
    assert |added| == |stored| + 1;
    provider.MarkAllCompleted();
    MarkAllCounts(added, true);
    ghost var marked := provider.todos;
    provider.ClearCompleted();
    ClearCompletedCounts(marked);
    CountsAddUp(provider.todos);
    assert provider.todos == [];
    assert provider.storage[StorageKey] == Serialized([]);
  }
}
