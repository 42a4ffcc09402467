/**
 * The unscoped todo server: a single todos collection kept in `todos.json`,
 * with no owners. Its update spreads the stored object, so properties it does
 * not know about survive, and its delete filters out every todo with the id.
 */
module TodoApp {
  import opened Wrappers
  import opened Arrays
  import opened Replies

  /**
   * A stored todo. `extra` holds the other properties the stored JSON object
   * carries, for instance the `userId` the account server writes into the same file.
   */
  datatype Todo = Todo(id: string, text: string, completed: bool, extra: map<string, string>)

  /** `t.id === id` */
  function HasId(id: string): Todo -> bool
  {
    (t: Todo) => t.id == id
  }

  /** `t.id !== id` */
  function LacksId(id: string): Todo -> bool
  {
    (t: Todo) => t.id != id
  }

  predicate IdFresh(todos: seq<Todo>, id: string)
  {
    forall t :: t in todos ==> t.id != id
  }

  /** What `readTodos` yields for a file's contents: the stored array, or `[]` when the file is missing. */
  function Loaded(file: Option<seq<Todo>>): (todos: seq<Todo>)
    ensures file.None? ==> todos == []
    ensures file.Some? ==> todos == file.value
  {
    match file
    case None => []
    case Some(stored) => stored
  }

  /**
   * `{ ...existingTodo, text: …, completed: … }`: the supplied fields replace the
   * stored ones, absent (`undefined`) fields keep them, and the id and every other
   * property are carried over.
   */
  function Spread(t: Todo, text: Option<string>, completed: Option<bool>): (r: Todo)
    ensures r.id == t.id && r.extra == t.extra
    ensures r.text == if text.Some? then text.value else t.text
    ensures r.completed == if completed.Some? then completed.value else t.completed
  {
    Todo(t.id,
         if text.Some? then text.value else t.text,
         if completed.Some? then completed.value else t.completed,
         t.extra)
  }

  /**
   * `todos.filter(t => t.id !== id)`: every todo with that id is removed, the rest
   * keep their order, and the length is unchanged exactly when no todo had the id.
   */
  function WithoutId(todos: seq<Todo>, id: string): (r: seq<Todo>)
    ensures forall t :: t in r <==> t in todos && t.id != id
    ensures |r| == |todos| <==> forall t :: t in todos ==> t.id != id
  {
    FilterKeepsLength(todos, LacksId(id));
    assert (forall j :: 0 <= j < |todos| ==> LacksId(id)(todos[j])) <==> forall t :: t in todos ==> t.id != id;
    Filter(todos, LacksId(id))
  }

  /** Deleting keeps the order of what survives: removal distributes over concatenation. */
  lemma DeleteKeepsOrder(front: seq<Todo>, back: seq<Todo>, id: string)
    ensures WithoutId(front + back, id) == WithoutId(front, id) + WithoutId(back, id)
  {
    FilterAppend(front, back, LacksId(id));
  }

  /** A created todo is found by its id, as stored. */
  lemma {:induction false} CreateThenGet(todos: seq<Todo>, t: Todo)
    requires IdFresh(todos, t.id)
    ensures Find(todos + [t], HasId(t.id)) == Some(t)
  {
    forall j | 0 <= j < |todos| ensures !HasId(t.id)(todos[j]) {
      assert todos[j] in todos;
    }
    FindIndexAppended(todos, t, HasId(t.id));
  }

  /** After an update the todo is found at the same index, now spread-updated. */
  lemma {:induction false} UpdateThenGet(todos: seq<Todo>, id: string, i: nat, text: Option<string>, completed: Option<bool>)
    requires FindIndex(todos, HasId(id)) == Some(i)
    ensures FindIndex(todos[i := Spread(todos[i], text, completed)], HasId(id)) == Some(i)
  {
    FindIndexAfterUpdate(todos, HasId(id), i, Spread(todos[i], text, completed));
  }

  /** After a delete no todo with the id is left, however many there were. */
  lemma DeleteThenGet(todos: seq<Todo>, id: string)
    ensures Find(WithoutId(todos, id), HasId(id)).None?
  {
  }

  /** The store behind the unscoped server: the contents of `todos.json`. */
  class Store {
    /** The stored array; `None` while the file does not exist. */
    var file: Option<seq<Todo>>

    /** At process start the file may not exist yet. */
    constructor ()
      ensures file == None
    {
      file := None;
    }

    /** `readTodos`: a missing file is created holding `[]`, and `[]` is returned. */
    method ReadTodos() returns (todos: seq<Todo>)
      modifies this
      ensures old(file).None? ==> todos == []
      ensures old(file).Some? ==> todos == old(file).value
      ensures file == Some(todos)
    {
      if file.None? {
        file := Some([]);
        return [];
      }
      todos := file.value;
    }

    /** GET /todos */
    method ListTodos() returns (r: Reply<seq<Todo>>)
      modifies this
      ensures r == Ok(200, Loaded(old(file))) && file == Some(Loaded(old(file)))
    {
      var todos := ReadTodos();
      r := Ok(200, todos);
    }

    /** GET /todos/:id */
    method GetTodo(id: string) returns (r: Reply<Todo>)
      modifies this
      ensures file == Some(Loaded(old(file)))
      ensures r == Err(TodoNotFound) <==> forall t :: t in Loaded(old(file)) ==> t.id != id
      ensures r.Ok? ==> r.status == 200 && exists k :: IsFirst(Loaded(old(file)), HasId(id), k) && Loaded(old(file))[k] == r.value
      ensures r.Err? ==> r.failure == TodoNotFound
    {
      var todos := ReadTodos();
      var todo := Find(todos, HasId(id));
      if todo.None? {
        return Err(TodoNotFound);
      }
      r := Ok(200, todo.value);
    }

    /** POST /todos: the text is checked before the file is read. */
    method CreateTodo(text: string, id: string) returns (r: Reply<Todo>)
      requires IdFresh(Loaded(file), id)
      modifies this
      ensures text == "" ==> r == Err(TextRequired) && file == old(file)
      ensures text != "" ==> r == Ok(201, Todo(id, text, false, map[])) && file == Some(Loaded(old(file)) + [r.value])
    {
      if text == "" {
        return Err(TextRequired);
      }
      var todos := ReadTodos();
      var newTodo := Todo(id, text, false, map[]);
      todos := todos + [newTodo];
      file := Some(todos);
      r := Ok(201, newTodo);
    }

    /** PUT /todos/:id, with `None` standing for a field the body leaves `undefined`. */
    method UpdateTodo(id: string, text: Option<string>, completed: Option<bool>) returns (r: Reply<Todo>)
      modifies this
      ensures match FindIndex(Loaded(old(file)), HasId(id))
              case None => r == Err(TodoNotFound) && file == Some(Loaded(old(file)))
              case Some(i) =>
                var updated := Spread(Loaded(old(file))[i], text, completed);
                r == Ok(200, updated) && file == Some(Loaded(old(file))[i := updated])
    {
      var todos := ReadTodos();
      var found := FindIndex(todos, HasId(id));
      if found.None? {
        return Err(TodoNotFound);
      }
      var todoIndex := found.value;
      var existing := todos[todoIndex];
      var updated := Spread(existing, text, completed);
      todos := todos[todoIndex := updated];
      file := Some(todos);
      r := Ok(200, updated);
    }

    /** DELETE /todos/:id: 404 when filtering removed nothing, and then nothing is written. */
    method DeleteTodo(id: string) returns (r: Reply<Unit>)
      modifies this
      ensures (forall t :: t in Loaded(old(file)) ==> t.id != id) ==>
                r == Err(TodoNotFound) && file == Some(Loaded(old(file)))
      ensures (exists t :: t in Loaded(old(file)) && t.id == id) ==>
                r == Ok(204, Unit) && file == Some(WithoutId(Loaded(old(file)), id))
    {
      var todos := ReadTodos();
      var newTodos := Filter(todos, LacksId(id));
      assert newTodos == WithoutId(todos, id);
      if |todos| == |newTodos| {
        return Err(TodoNotFound);
      }
      file := Some(newTodos);
      r := Ok(204, Unit);
    }
  }

  /**
   * A first run without `todos.json`: an empty create is refused before the file
   * is touched, the first list creates the file holding `[]`, and a created todo
   * can be updated, deleted once, and then no longer found.
   */
  method FirstRun(id: string)
    returns (statuses: seq<int>, missingAfterRefusal: bool, created: Todo, updated: Todo, finalFile: Option<seq<Todo>>)
    ensures statuses == [400, 200, 201, 200, 204, 404, 404]
    ensures missingAfterRefusal
    ensures created == Todo(id, "buy milk", false, map[])
    ensures updated == created.(completed := true)
    ensures finalFile == Some([])
  {
    var store := new Store();
    var refused := store.CreateTodo("", id);
    assert refused == Err(TextRequired);
    missingAfterRefusal := store.file.None?;
    var list := store.ListTodos();
    assert list == Ok(200, []) && store.file == Some([]);
    var create := store.CreateTodo("buy milk", id);
    created := create.value;
    assert [] + [created] == [created];
    assert create == Ok(201, created) && store.file == Some([created]);
    assert FindIndex([created], HasId(id)) == Some(0);
    var update := store.UpdateTodo(id, None, Some(true));
    updated := update.value;
    assert [created][0 := updated] == [updated];
    assert update == Ok(200, updated) && store.file == Some([updated]);
    assert updated in [updated] && updated.id == id;
    var delete := store.DeleteTodo(id);
    assert delete == Ok(204, Unit) && store.file == Some(WithoutId([updated], id));
    assert |WithoutId([updated], id)| < 1;
    assert store.file == Some([]);
    var deleteAgain := store.DeleteTodo(id);
    assert deleteAgain == Err(TodoNotFound);
    var get := store.GetTodo(id);
    assert get == Err(TodoNotFound);
    finalFile := store.file;
    statuses := [refused.Status(), list.Status(), create.Status(), update.Status(),
                 delete.Status(), deleteAgain.Status(), get.Status()];
  }
}
