/** The in-memory todo resource of `src/app/api/todos/route.ts`: a process-wide
    list seeded with three todos, and the GET, POST, PUT and DELETE handlers
    over it. JSON parsing is abstracted: a request body is either malformed or
    one of the JSON shapes the handlers tell apart, and every field the
    handlers read is absent, a string, a boolean or some other value. */
module TodoApi {
  import opened Wrappers
  import opened Strings
  import opened Todos

  /** A property of the parsed body: missing, a string, a boolean, or any other
      JSON value (null, a number, an object, an array), of which only its
      truthiness matters to the handlers. */
  datatype Field = Absent | Str(s: string) | Bool(b: bool) | Other(truthy: bool)

  /** JavaScript truthiness of a field: `undefined`, `''`, `false`, `null` and
      `0` are falsy. */
  predicate Truthy(f: Field) {
    match f
    case Absent => false
    case Str(s) => s != []
    case Bool(b) => b
    case Other(truthy) => truthy
  }

  /** What `request.json()` yields: a syntax error, the value `null`, another
      non-object value (a number, string, boolean or array), or an object
      with the three properties the handlers read. */
  datatype Body =
    | Malformed
    | NullBody
    | NonObject
    | Object(id: Field, text: Field, completed: Field)

  /** One issue of a failed schema check, located by the property it concerns
      (`""` for the body as a whole). */
  datatype IssueKind = Required | InvalidType | TooSmall | TooBig
  datatype Issue = Issue(path: string, kind: IssueKind)

  /** A todo input that passed the schema. */
  datatype TodoInput = TodoInput(text: string, completed: bool)

  const MaxTextLength := 100

  /** The `text` rule of the schema: a string of 1 to 100 UTF-16 code units. */
  function ValidateText(f: Field): (r: Result<string, Issue>)
    ensures r.Success? <==> f.Str? && 1 <= Utf16Length(f.s) <= MaxTextLength
    ensures r.Success? ==> r.value == f.s
    ensures r.Failure? ==> r.error.path == "text"
  {
    match f
    case Absent => Failure(Issue("text", Required))
    case Str(s) =>
      if Utf16Length(s) < 1 then Failure(Issue("text", TooSmall))
      else if Utf16Length(s) > MaxTextLength then Failure(Issue("text", TooBig))
      else Success(s)
    case _ => Failure(Issue("text", InvalidType))
  }

  /** The `completed` rule of the schema: an optional boolean, `false` when
      absent. */
  function ValidateCompleted(f: Field): (r: Result<bool, Issue>)
    ensures r.Success? <==> f.Absent? || f.Bool?
    ensures r.Success? ==> r.value == (f.Bool? && f.b)
    ensures r.Failure? ==> r.error == Issue("completed", InvalidType)
  {
    match f
    case Absent => Success(false)
    case Bool(b) => Success(b)
    case _ => Failure(Issue("completed", InvalidType))
  }

  /** `TodoSchema.safeParse({text, completed})`: both properties are checked
      and every issue is reported, those of `text` first. */
  function ValidateTodo(text: Field, completed: Field): (r: Result<TodoInput, seq<Issue>>)
    ensures r.Success? <==> text.Str? && 1 <= Utf16Length(text.s) <= MaxTextLength && (completed.Absent? || completed.Bool?)
    ensures r.Success? ==> r.value == TodoInput(text.s, completed.Bool? && completed.b)
    ensures r.Failure? ==> 1 <= |r.error| <= 2
  {
    var t, c := ValidateText(text), ValidateCompleted(completed);
    if t.Success? && c.Success? then Success(TodoInput(t.value, c.value))
    else Failure((if t.Failure? then [t.error] else []) + (if c.Failure? then [c.error] else []))
  }

  /** `TodoSchema.safeParse(body)` on the whole parsed body: a value that is not
      an object fails as a whole. */
  function ValidateBody(body: Body): (r: Result<TodoInput, seq<Issue>>)
    requires !body.Malformed?
    ensures !body.Object? ==> r == Failure([Issue("", InvalidType)])
    ensures body.Object? ==> r == ValidateTodo(body.text, body.completed)
  {
    match body
    case Object(_, text, completed) => ValidateTodo(text, completed)
    case _ => Failure([Issue("", InvalidType)])
  }

  /** `todos.findIndex((todo) => todo.id === id)`, with `None` for -1. */
  function FindIndex(todos: seq<Todo>, id: string): (r: Option<nat>)
    ensures r.None? <==> forall i :: 0 <= i < |todos| ==> todos[i].id != id
    ensures r.Some? ==> r.value < |todos| && todos[r.value].id == id
    ensures r.Some? ==> forall j :: 0 <= j < r.value ==> todos[j].id != id
  {
    if todos == [] then None
    else if todos[0].id == id then Some(0)
    else
      match FindIndex(todos[1..], id)
      case None => None
      case Some(k) => Some(k + 1)
  }

  /** The body of a response. */
  datatype ResponseBody =
    | TodoList(todos: seq<Todo>)
    | TodoItem(todo: Todo)
    | Deleted(message: string, todo: Todo)
    | ErrorMessage(error: string)
    | ValidationFailed(error: string, details: seq<Issue>)

  datatype Response = Response(status: nat, body: ResponseBody)

  const InvalidJson := Response(400, ErrorMessage("Invalid JSON"))
  const IdRequired := Response(400, ErrorMessage("Todo ID is required"))
  const NotFound := Response(404, ErrorMessage("Todo not found"))
  const InternalError := Response(500, ErrorMessage("Internal Server Error"))

  function ValidationError(issues: seq<Issue>): Response {
    Response(400, ValidationFailed("Validation failed", issues))
  }

  /** The list the module starts with. */
  const Seed: seq<Todo> := [
    Todo("1", "Learn Next.js 15", true),
    Todo("2", "Build an API with TypeScript", false),
    Todo("3", "Deploy to production", false)
  ]

  /** The todo PUT writes back: the id is kept, the text is the body's, and the
      flag is the body's when it has one, even `false` (`??` only falls back on
      `null` or `undefined`), otherwise the old flag. */
  function Updated(old_: Todo, input: TodoInput, completed: Field): (t: Todo)
    requires completed.Absent? || completed.Bool?
    ensures t.id == old_.id && t.text == input.text
    ensures t.completed == if completed.Bool? then completed.b else old_.completed
  {
    old_.(text := input.text, completed := if completed.Bool? then completed.b else old_.completed)
  }

  /** The module-level `todos` list and the four handlers. */
  class TodoStore {
    var todos: seq<Todo>

    constructor ()
      ensures todos == Seed
    {
      todos := Seed;
    }

    /** GET with the optional `completed` query parameter: the whole list in
        stored order, or exactly the todos whose flag equals
        `completed == "true"`, so any other value selects the incomplete ones.
        The list is not changed. */
    method Get(completed: Option<string>) returns (r: Response)
      ensures r.status == 200 && r.body.TodoList?
      ensures completed.None? ==> r.body.todos == todos
      ensures completed.Some? ==> r.body.todos == ByStatus(todos, completed.value == "true")
      ensures completed.Some? && completed.value != "true" ==>
        forall t :: t in r.body.todos <==> t in todos && !t.completed
    {
      var filtered := todos;
      if completed.Some? {
        var isCompleted := completed.value == "true";
        ByStatusMembers(todos, isCompleted);
        filtered := ByStatus(todos, isCompleted);
      }
      r := Response(200, TodoList(filtered));
    }

    /** POST at time `now`: a body that does not parse gives 400 "Invalid
        JSON", one that fails the schema gives 400 with the issues, and in both
        cases the list is unchanged; otherwise exactly one todo is appended,
        with the clock's id, the text as given (not trimmed) and the flag
        defaulting to false, and it is returned with 201. */
    method Post(body: Body, now: nat) returns (r: Response)
      modifies this
      ensures body.Malformed? ==> r == InvalidJson && todos == old(todos)
      ensures !body.Malformed? && ValidateBody(body).Failure? ==>
        r == ValidationError(ValidateBody(body).error) && todos == old(todos)
      ensures !body.Malformed? && ValidateBody(body).Success? ==>
        var input := ValidateBody(body).value;
        var created := Todo(TimestampId(now), input.text, input.completed);
        && r == Response(201, TodoItem(created))
        && todos == old(todos) + [created]
      ensures r.status == 201 <==> body.Object? && ValidateTodo(body.text, body.completed).Success?
    {
      if body.Malformed? {
        return InvalidJson;
      }
      var result := ValidateBody(body);
      if result.Failure? {
        return ValidationError(result.error);
      }
      var newTodo := Todo(TimestampId(now), result.value.text, result.value.completed);
      todos := todos + [newTodo];
      r := Response(201, TodoItem(newTodo));
    }

    /** PUT: a body that does not parse gives 400 "Invalid JSON"; a `null` body
        fails when its `id` is read and gives 500; a falsy id gives 400; then
        the schema is checked (so `text` is required), giving 400; then an id
        that no todo carries gives 404. The list is unchanged in every error
        case. Otherwise only the first todo with that id is replaced. */
    method Put(body: Body) returns (r: Response)
      modifies this
      ensures r.status != 200 ==> todos == old(todos)
      ensures body.Malformed? ==> r == InvalidJson
      ensures body.NullBody? ==> r == InternalError
      ensures body.NonObject? ==> r == IdRequired
      ensures body.Object? && !Truthy(body.id) ==> r == IdRequired
      ensures body.Object? && Truthy(body.id) && ValidateTodo(body.text, body.completed).Failure? ==>
        r == ValidationError(ValidateTodo(body.text, body.completed).error)
      ensures body.Object? && Truthy(body.id) && ValidateTodo(body.text, body.completed).Success? ==>
        if body.id.Str? && FindIndex(old(todos), body.id.s).Some? then
          var k := FindIndex(old(todos), body.id.s).value;
          var t := Updated(old(todos)[k], ValidateTodo(body.text, body.completed).value, body.completed);
          && todos == old(todos)[k := t]
          && r == Response(200, TodoItem(t))
        else
          r == NotFound
    {
      if body.Malformed? {
        return InvalidJson;
      }
      if body.NullBody? {
        return InternalError;
      }
      if body.NonObject? || !Truthy(body.id) {
        return IdRequired;
      }
      var result := ValidateTodo(body.text, body.completed);
      if result.Failure? {
        return ValidationError(result.error);
      }
      var todoIndex := if body.id.Str? then FindIndex(todos, body.id.s) else None;
      if todoIndex.None? {
        return NotFound;
      }
      var k := todoIndex.value;
      todos := todos[k := Updated(todos[k], result.value, body.completed)];
      r := Response(200, TodoItem(todos[k]));
    }

    /** DELETE with the `id` query parameter: missing or empty gives 400, an id
        that no todo carries gives 404, and neither changes the list.
        Otherwise every todo with that id is removed, the others keep their
        order, and the first one removed is returned. */
    method Delete(id: Option<string>) returns (r: Response)
      modifies this
      ensures r.status != 200 ==> todos == old(todos)
      ensures id.None? || id.value == [] ==> r == IdRequired
      ensures id.Some? && id.value != [] && FindIndex(old(todos), id.value).None? ==> r == NotFound
      ensures id.Some? && id.value != [] && FindIndex(old(todos), id.value).Some? ==>
        && r == Response(200, Deleted("Todo deleted successfully", old(todos)[FindIndex(old(todos), id.value).value]))
        && todos == WithoutId(old(todos), id.value)
    {
      if id.None? || id.value == [] {
        return IdRequired;
      }
      var todoIndex := FindIndex(todos, id.value);
      if todoIndex.None? {
        return NotFound;
      }
      var deletedTodo := todos[todoIndex.value];
      todos := WithoutId(todos, id.value);
      r := Response(200, Deleted("Todo deleted successfully", deletedTodo));
    }
  }

  /** After a successful DELETE no todo with that id is left, and a later GET
      does not list it. */
  lemma DeleteRemovesAll(todos: seq<Todo>, id: string)
    ensures FindIndex(WithoutId(todos, id), id).None?
  {
    var r := WithoutId(todos, id);
    forall i | 0 <= i < |r| ensures r[i].id != id {
      assert r[i] in r;
    }
  }

  /** Text of 1 to 50 characters always passes the schema, whatever those
      characters are. */
  lemma ShortTextValid(text: string, completed: bool)
    requires 1 <= |text| <= MaxTextLength / 2
    ensures ValidateTodo(Str(text), Bool(completed)) == Success(TodoInput(text, completed))
    ensures ValidateTodo(Str(text), Absent) == Success(TodoInput(text, false))
  {
  }

  /** A todo appended after todos that do not carry its id is the first with it. */
  lemma {:induction false} FindAppended(todos: seq<Todo>, t: Todo)
    requires forall i :: 0 <= i < |todos| ==> todos[i].id != t.id
    ensures FindIndex(todos + [t], t.id) == Some(|todos|)
  {
    var s := todos + [t];
    assert s[|todos|] == t;
    assert forall i :: 0 <= i < |todos| ==> s[i] == todos[i];
  }

  /** A short session against the store: create, try to update the flag alone
      (rejected, because the schema requires `text`), then update with text.
      The clock is past the first ten milliseconds, so the new id differs
      from the one-digit ids of the seed. */
  method UpdateSession(now: nat, text: string)
    requires now >= 10 && 1 <= |text| <= MaxTextLength / 2
  {
    var store := new TodoStore();
    var id := TimestampId(now);
    ShortTextValid(text, true);
    var created := store.Post(Object(Absent, Str(text), Absent), now);
    assert created == Response(201, TodoItem(Todo(id, text, false)));

    var flagOnly := store.Put(Object(Str(id), Absent, Bool(true)));
    assert flagOnly.status == 400;

    assert forall i :: 0 <= i < |Seed| ==> |Seed[i].id| == 1 < |id|;
    FindAppended(Seed, Todo(id, text, false));
    var updated := store.Put(Object(Str(id), Str(text), Bool(true)));
    assert updated == Response(200, TodoItem(Todo(id, text, true)));
    assert store.todos == Seed + [Todo(id, text, true)];
  }

  /** Create, delete and list: the deleted todo is returned and no longer
      listed. */
  method DeleteSession(now: nat, text: string)
    requires now >= 10 && 1 <= |text| <= MaxTextLength / 2
  {
    var store := new TodoStore();
    var id := TimestampId(now);
    ShortTextValid(text, false);
    var created := store.Post(Object(Absent, Str(text), Absent), now);
    assert store.todos == Seed + [Todo(id, text, false)];

    assert forall i :: 0 <= i < |Seed| ==> |Seed[i].id| == 1 < |id|;
    FindAppended(Seed, Todo(id, text, false));
    var deleted := store.Delete(Some(id));
    assert deleted == Response(200, Deleted("Todo deleted successfully", Todo(id, text, false)));

    var listed := store.Get(None);
    DeleteRemovesAll(Seed + [Todo(id, text, false)], id);
    assert FindIndex(listed.body.todos, id).None?;
  }
}
