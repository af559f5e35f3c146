/** The todo record and the list transformations of the client containers.
    `src/hooks/useTodos.ts` and `src/context/todo-context.tsx` hold two
    identical copies of these `prev => next` expressions; they are defined once
    here and both containers use them. Also the three derived counts and the
    all/active/completed view of `src/components/todo/AdvancedTodo.tsx`.
    Ids come from the clock, so nothing here assumes that they are unique. */
module Todos {
  import opened Strings
  import opened Wrappers

  datatype Todo = Todo(id: string, text: string, completed: bool)

  /** `a` can be obtained from `b` by deleting elements: the order of what is
      kept is the order of `b`. */
  predicate IsSubsequence<T(==)>(a: seq<T>, b: seq<T>)
    decreases |b|
  {
    a == [] || (b != [] && if a[0] == b[0] then IsSubsequence(a[1..], b[1..]) else IsSubsequence(a, b[1..]))
  }

  /** `todos.filter((todo) => todo.completed === status)`: a subsequence of
      `todos` (see `ByStatusMembers` and `ByStatusMultiset` for what it keeps). */
  function ByStatus(todos: seq<Todo>, status: bool): (r: seq<Todo>)
    ensures |r| <= |todos|
    ensures forall i :: 0 <= i < |r| ==> r[i].completed == status
    ensures IsSubsequence(r, todos)
  {
    if todos == [] then []
    else
      var rest := ByStatus(todos[1..], status);
      if todos[0].completed == status then [todos[0]] + rest
      else
        assert rest == [] || rest[0] != todos[0];
        rest
  }

  /** `ByStatus` keeps exactly the todos with the flag. */
  lemma {:induction false} ByStatusMembers(todos: seq<Todo>, status: bool)
    ensures forall t :: t in ByStatus(todos, status) <==> t in todos && t.completed == status
  {
    if todos != [] {
      ByStatusMembers(todos[1..], status);
      assert todos == [todos[0]] + todos[1..];
    }
  }

  /** `ByStatus` keeps each todo with the flag as often as it occurs, and no
      other: with the subsequence property this pins the result down. */
  lemma {:induction false} ByStatusMultiset(todos: seq<Todo>, status: bool)
    ensures forall t :: multiset(ByStatus(todos, status))[t] == if t.completed == status then multiset(todos)[t] else 0
  {
    if todos != [] {
      ByStatusMultiset(todos[1..], status);
      assert todos == [todos[0]] + todos[1..];
    }
  }

  /** No todo has the flag, so none is selected. */
  lemma {:induction false} ByStatusNone(todos: seq<Todo>, status: bool)
    requires forall t :: t in todos ==> t.completed != status
    ensures ByStatus(todos, status) == []
  {
    if todos != [] {
      assert todos[0] in todos;
      assert forall t :: t in todos[1..] ==> t in todos;
      ByStatusNone(todos[1..], status);
    }
  }

  /** `todos.filter((todo) => todo.id !== id)`: exactly the todos with another
      id, each as often as in `todos`, in their original order. */
  function WithoutId(todos: seq<Todo>, id: string): (r: seq<Todo>)
    ensures |r| <= |todos|
    ensures forall t :: t in r <==> t in todos && t.id != id
    ensures IsSubsequence(r, todos)
  {
    if todos == [] then []
    else
      var rest := WithoutId(todos[1..], id);
      assert todos == [todos[0]] + todos[1..];
      if todos[0].id != id then [todos[0]] + rest
      else
        assert rest == [] || rest[0] != todos[0];
        rest
  }

  /** `WithoutId` keeps each todo with another id as often as it occurs, and
      no other. */
  lemma {:induction false} WithoutIdMultiset(todos: seq<Todo>, id: string)
    ensures forall t :: multiset(WithoutId(todos, id))[t] == if t.id != id then multiset(todos)[t] else 0
  {
    if todos != [] {
      WithoutIdMultiset(todos[1..], id);
      assert todos == [todos[0]] + todos[1..];
    }
  }

  /** The id `Date.now().toString()` gives a todo created at `now` milliseconds. */
  function TimestampId(now: nat): (id: string)
    ensures id != []
  {
    DecimalString(now)
  }

  /** `useTodos(initialTodos = [])`: the list starts as the supplied todos, or
      empty when none are supplied. */
  function InitialTodos(initial: Option<seq<Todo>>): (r: seq<Todo>)
    ensures initial.None? ==> r == []
    ensures initial.Some? ==> r == initial.value
  {
    match initial
    case None => []
    case Some(todos) => todos
  }

  /** `addTodo(text)` at time `now`: blank text is ignored; otherwise one todo is
      appended at the end, with the trimmed text, not completed, and an id made
      from the clock. */
  function AddTodo(todos: seq<Todo>, text: string, now: nat): (r: seq<Todo>)
    ensures AllWhitespace(text) ==> r == todos
    ensures !AllWhitespace(text) ==>
      && |r| == |todos| + 1
      && r[..|todos|] == todos
      && r[|todos|] == Todo(TimestampId(now), Trim(text), false)
      && r[|todos|].text != []
  {
    if Trim(text) == [] then todos
    else todos + [Todo(TimestampId(now), Trim(text), false)]
  }

  /** `toggleTodo(id)`: every todo carrying the id has its flag flipped; ids,
      texts, order and all other todos stay as they were. */
  function ToggleTodo(todos: seq<Todo>, id: string): (r: seq<Todo>)
    ensures |r| == |todos|
    ensures forall i :: 0 <= i < |r| ==>
      && r[i].id == todos[i].id && r[i].text == todos[i].text
      && r[i].completed == (if todos[i].id == id then !todos[i].completed else todos[i].completed)
  {
    if todos == [] then []
    else
      var t := todos[0];
      [if t.id == id then t.(completed := !t.completed) else t] + ToggleTodo(todos[1..], id)
  }

  /** `deleteTodo(id)`: removes every todo carrying the id and keeps the rest
      in order (the contract is that of `WithoutId`). */
  function DeleteTodo(todos: seq<Todo>, id: string): (r: seq<Todo>)
    ensures forall t :: t in r ==> t.id != id
    ensures forall t :: t in todos && t.id != id ==> t in r
    ensures IsSubsequence(r, todos)
  {
    WithoutId(todos, id)
  }

  /** `clearCompleted()`: keeps exactly the incomplete todos, in order. */
  function ClearCompleted(todos: seq<Todo>): (r: seq<Todo>)
    ensures forall t :: t in r ==> !t.completed
    ensures forall t :: t in todos && !t.completed ==> t in r
    ensures IsSubsequence(r, todos)
  {
    ByStatusMembers(todos, false);
    ByStatus(todos, false)
  }

  /** `markAllCompleted(completed = true)`: every flag becomes `completed`; ids,
      texts, length and order are kept. */
  function MarkAllCompleted(todos: seq<Todo>, completed: bool := true): (r: seq<Todo>)
    ensures |r| == |todos|
    ensures forall i :: 0 <= i < |r| ==>
      r[i].id == todos[i].id && r[i].text == todos[i].text && r[i].completed == completed
  {
    if todos == [] then [] else [todos[0].(completed := completed)] + MarkAllCompleted(todos[1..], completed)
  }

  /** `todos.filter((t) => t.completed).length`: at most the length of the
      list, and zero exactly when no todo is completed. */
  function CompletedCount(todos: seq<Todo>): (n: nat)
    ensures n <= |todos|
    ensures n == 0 <==> forall t :: t in todos ==> !t.completed
  {
    ByStatusMembers(todos, true);
    |ByStatus(todos, true)|
  }

  /** `todos.filter((t) => !t.completed).length`: at most the length of the
      list, and zero exactly when every todo is completed. */
  function ActiveCount(todos: seq<Todo>): (n: nat)
    ensures n <= |todos|
    ensures n == 0 <==> forall t :: t in todos ==> t.completed
  {
    ByStatusMembers(todos, false);
    |ByStatus(todos, false)|
  }

  /** `todos.length`: the completed and the active todos together. */
  function TotalCount(todos: seq<Todo>): (n: nat)
    ensures n == CompletedCount(todos) + ActiveCount(todos)
  {
    CountsAddUp(todos);
    |todos|
  }

  // ---------------------------------------------------------------------------
  // Properties of the transformations

  /** The completed and the active todos together are all of them. */
  lemma {:induction false} CountsAddUp(todos: seq<Todo>)
    ensures CompletedCount(todos) + ActiveCount(todos) == |todos|
  {
    if todos != [] {
      CountsAddUp(todos[1..]);
    }
  }

  /** Toggling the same id twice restores the list. */
  lemma ToggleTwice(todos: seq<Todo>, id: string)
    ensures ToggleTodo(ToggleTodo(todos, id), id) == todos
  {
    var r := ToggleTodo(ToggleTodo(todos, id), id);
    assert forall i :: 0 <= i < |r| ==> r[i] == todos[i];
  }

  /** Toggling an id that no todo carries changes nothing. */
  lemma ToggleUnknown(todos: seq<Todo>, id: string)
    requires forall t :: t in todos ==> t.id != id
    ensures ToggleTodo(todos, id) == todos
  {
    var r := ToggleTodo(todos, id);
    forall i | 0 <= i < |r| ensures r[i] == todos[i] {
      assert todos[i] in todos;
    }
  }

  /** Deleting an id that no todo carries changes nothing. */
  lemma {:induction false} DeleteUnknown(todos: seq<Todo>, id: string)
    requires forall t :: t in todos ==> t.id != id
    ensures DeleteTodo(todos, id) == todos
  {
    if todos != [] {
      assert todos[0] in todos;
      assert forall t :: t in todos[1..] ==> t in todos;
      DeleteUnknown(todos[1..], id);
    }
  }

  /** Clearing the completed todos a second time changes nothing. */
  lemma {:induction false} ClearCompletedIdempotent(todos: seq<Todo>)
    ensures ClearCompleted(ClearCompleted(todos)) == ClearCompleted(todos)
  {
    if todos != [] {
      ClearCompletedIdempotent(todos[1..]);
      if !todos[0].completed {
        var rest := ClearCompleted(todos[1..]);
        assert ClearCompleted(todos) == [todos[0]] + rest;
        assert ([todos[0]] + rest)[1..] == rest;
      }
    }
  }

  /** After clearing, nothing is completed and every incomplete todo remains. */
  lemma ClearCompletedCounts(todos: seq<Todo>)
    ensures CompletedCount(ClearCompleted(todos)) == 0
    ensures ActiveCount(ClearCompleted(todos)) == ActiveCount(todos)
  {
    var r := ClearCompleted(todos);
    ClearCompletedIdempotent(todos);
    ByStatusNone(r, true);
  }

  /** Marking all todos as completed leaves no active one, and the reverse. */
  lemma {:induction false} MarkAllCounts(todos: seq<Todo>, completed: bool)
    ensures CompletedCount(MarkAllCompleted(todos, completed)) == if completed then |todos| else 0
    ensures ActiveCount(MarkAllCompleted(todos, completed)) == if completed then 0 else |todos|
  {
    if todos != [] {
      MarkAllCounts(todos[1..], completed);
    }
  }

  /** Marking all is decided by the last call alone: `markAllCompleted(true)`
      followed by `markAllCompleted(false)` is `markAllCompleted(false)`. */
  lemma MarkAllLastWins(todos: seq<Todo>, first: bool, second: bool)
    ensures MarkAllCompleted(MarkAllCompleted(todos, first), second) == MarkAllCompleted(todos, second)
  {
    var a := MarkAllCompleted(MarkAllCompleted(todos, first), second);
    var b := MarkAllCompleted(todos, second);
    assert forall i :: 0 <= i < |a| ==> a[i] == b[i];
  }

  /** Adding a todo makes one more active todo, or changes nothing. */
  lemma {:induction false} AddTodoCounts(todos: seq<Todo>, text: string, now: nat)
    ensures ActiveCount(AddTodo(todos, text, now)) == ActiveCount(todos) + (if AllWhitespace(text) then 0 else 1)
    ensures CompletedCount(AddTodo(todos, text, now)) == CompletedCount(todos)
  {
    if !AllWhitespace(text) {
      ByStatusAppend(todos, Todo(TimestampId(now), Trim(text), false), false);
      ByStatusAppend(todos, Todo(TimestampId(now), Trim(text), false), true);
    }
  }

  lemma {:induction false} ByStatusAppend(todos: seq<Todo>, t: Todo, status: bool)
    ensures ByStatus(todos + [t], status) == ByStatus(todos, status) + (if t.completed == status then [t] else [])
  {
    if todos != [] {
      var s := todos + [t];
      assert s[0] == todos[0] && s[1..] == todos[1..] + [t];
      ByStatusAppend(todos[1..], t, status);
    } else {
      assert ByStatus([t], status) == (if t.completed == status then [t] else []) + ByStatus([], status);
    }
  }

  // ---------------------------------------------------------------------------
  // The view filter of the advanced todo component

  /** `TodoFilterValue`: 'all' | 'active' | 'completed'. */
  datatype TodoFilterValue = All | Active | Completed

  /** The filter the component starts with. */
  const InitialFilter: TodoFilterValue := All

  /** Whether a todo is shown under a filter: 'active' shows exactly the
      incomplete todos, 'completed' exactly the completed ones, 'all' every
      todo. */
  predicate Shows(filter: TodoFilterValue, t: Todo)
    ensures Shows(filter, t) <==> filter == All || t.completed == (filter == Completed)
  {
    if filter == Active then !t.completed
    else if filter == Completed then t.completed
    else assert filter == All; true
  }

  /** `todos.filter(...)` with the component's predicate. */
  function FilteredTodos(todos: seq<Todo>, filter: TodoFilterValue): (r: seq<Todo>)
    ensures forall t :: t in r <==> t in todos && Shows(filter, t)
    ensures IsSubsequence(r, todos)
  {
    if todos == [] then []
    else
      var rest := FilteredTodos(todos[1..], filter);
      assert todos == [todos[0]] + todos[1..];
      if Shows(filter, todos[0]) then [todos[0]] + rest
      else
        assert rest == [] || rest[0] != todos[0];
        rest
  }

  /** Under 'all' the view is the full list; under 'active' and 'completed' it
      is exactly the incomplete, respectively completed, todos in order, so
      its length is the matching count. */
  lemma {:induction false} FilteredTodosViews(todos: seq<Todo>)
    ensures FilteredTodos(todos, All) == todos
    ensures FilteredTodos(todos, Active) == ByStatus(todos, false)
    ensures FilteredTodos(todos, Completed) == ByStatus(todos, true)
    ensures |FilteredTodos(todos, Active)| == ActiveCount(todos)
    ensures |FilteredTodos(todos, Completed)| == CompletedCount(todos)
  {
    if todos != [] {
      FilteredTodosViews(todos[1..]);
    }
  }

  /** The component starts by showing the whole list. */
  lemma {:induction false} InitialView(todos: seq<Todo>)
    ensures FilteredTodos(todos, InitialFilter) == todos
  {
    FilteredTodosViews(todos);
  }

  /** The 'active' and 'completed' views split the list: every todo is in
      exactly one of them, as often as in the list. */
  lemma ViewsPartition(todos: seq<Todo>)
    ensures multiset(FilteredTodos(todos, Active)) + multiset(FilteredTodos(todos, Completed)) == multiset(todos)
    ensures |FilteredTodos(todos, Active)| + |FilteredTodos(todos, Completed)| == |todos|
  {
    FilteredTodosViews(todos);
    CountsAddUp(todos);
    ByStatusMultiset(todos, false);
    ByStatusMultiset(todos, true);
    var a, c := ByStatus(todos, false), ByStatus(todos, true);
    assert forall t :: (multiset(a) + multiset(c))[t] == multiset(todos)[t];
  }
}
