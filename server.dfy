/**
 * The account server: one object holding the users and todos collections,
 * with one method per request branch. Each method either fails and leaves
 * the collections as they were or makes one edit to one of them.
 */
module AuthServer {
  import opened Wrappers
  import opened Arrays
  import opened Replies
  import Accounts
  import OwnedTodos

  /** The body of a successful login. */
  datatype Session = Session(token: string, name: string)

  class Server {
    /** The password digest (SHA-256, hex); the proofs hold for any function. */
    const hash: string -> string
    /** The users collection, in storage order. */
    var users: seq<Accounts.User>
    /** The todos collection, in storage order. */
    var todos: seq<OwnedTodos.Todo>

    /** What every state reached through the methods below satisfies. */
    ghost predicate Valid()
      reads this
    {
      Accounts.WellFormed(users) && OwnedTodos.UniqueIds(todos)
    }

    /** Both collections start empty, as a missing file reads. */
    constructor (hash: string -> string)
      ensures this.hash == hash && users == [] && todos == [] && Valid()
    {
      this.hash := hash;
      users := [];
      todos := [];
    }

    /** POST /register */
    method Register(name: string, email: string, password: string, id: string) returns (r: Reply<Unit>)
      requires Accounts.IdFresh(users, id)
      modifies this`users
      ensures name == "" || email == "" || password == "" ==> r == Err(FieldsRequired) && users == old(users)
      ensures name != "" && email != "" && password != "" && (exists k :: 0 <= k < |old(users)| && old(users)[k].email == email) ==>
                r == Err(UserExists) && users == old(users)
      ensures name != "" && email != "" && password != "" && (forall k :: 0 <= k < |old(users)| ==> old(users)[k].email != email) ==>
                r == Ok(201, Unit) && users == old(users) + [Accounts.User(id, name, email, hash(password), None)]
      ensures old(Valid()) ==> Valid()
    {
      if name == "" || email == "" || password == "" {
        return Err(FieldsRequired);
      }
      if Find(users, Accounts.HasEmail(email)).Some? {
        return Err(UserExists);
      }
      var hashed := hash(password);
      var user := Accounts.User(id, name, email, hashed, None);
      if Valid() {
        Accounts.RegisterKeepsWellFormed(users, user);
      }
      users := users + [user];
      r := Ok(201, Unit);
    }

    /** POST /login */
    method Login(email: string, password: string, token: string) returns (r: Reply<Session>)
      requires Accounts.TokenFresh(users, token)
      modifies this`users
      ensures email == "" || password == "" ==> r == Err(CredentialsRequired) && users == old(users)
      ensures email != "" && password != "" ==>
                match FindIndex(old(users), Accounts.HasEmail(email))
                case None => r == Err(UserNotFound) && users == old(users)
                case Some(i) =>
                  if hash(password) != old(users)[i].password then r == Err(InvalidCredentials) && users == old(users)
                  else r == Ok(200, Session(token, old(users)[i].name)) && users == Accounts.LoggedIn(old(users), i, token)
      ensures old(Valid()) ==> Valid()
    {
      if email == "" || password == "" {
        return Err(CredentialsRequired);
      }
      var found := FindIndex(users, Accounts.HasEmail(email));
      if found.None? {
        return Err(UserNotFound);
      }
      var i := found.value;
      var hashed := hash(password);
      if hashed != users[i].password {
        return Err(InvalidCredentials);
      }
      if Valid() {
        Accounts.LoginKeepsWellFormed(users, i, token);
      }
      users := users[i := users[i].(token := Some(token))];
      r := Ok(200, Session(token, users[i].name));
    }

    /** GET /todos */
    method ListTodos(auth: Option<string>) returns (r: Reply<seq<OwnedTodos.Todo>>)
      ensures Accounts.Authenticate(users, auth).None? ==> r == Err(Unauthorized)
      ensures Accounts.Authenticate(users, auth).Some? ==>
                r == Ok(200, OwnedTodos.OwnedBy(todos, Accounts.Authenticate(users, auth).value.id))
    {
      var user := Accounts.Authenticate(users, auth);
      if user.None? {
        return Err(Unauthorized);
      }
      var userTodos := Filter(todos, OwnedTodos.BelongsTo(user.value.id));
      r := Ok(200, userTodos);
    }

    /** GET /todos/:id */
    method GetTodo(auth: Option<string>, id: string) returns (r: Reply<OwnedTodos.Todo>)
      ensures Accounts.Authenticate(users, auth).None? ==> r == Err(Unauthorized)
      ensures Accounts.Authenticate(users, auth).Some? ==>
                var owner := Accounts.Authenticate(users, auth).value.id;
                && (r == Err(TodoNotFound) <==> forall t :: t in todos ==> !(t.id == id && t.userId == owner))
                && (r.Ok? ==> r.status == 200 && exists k :: IsFirst(todos, OwnedTodos.IsOwned(id, owner), k) && todos[k] == r.value)
                && r != Err(Unauthorized)
    {
      var user := Accounts.Authenticate(users, auth);
      if user.None? {
        return Err(Unauthorized);
      }
      var todo := Find(todos, OwnedTodos.IsOwned(id, user.value.id));
      if todo.None? {
        return Err(TodoNotFound);
      }
      r := Ok(200, todo.value);
    }

    /** POST /todos */
    method CreateTodo(auth: Option<string>, text: string, id: string) returns (r: Reply<OwnedTodos.Todo>)
      requires OwnedTodos.IdFresh(todos, id)
      modifies this`todos
      ensures Accounts.Authenticate(users, auth).None? ==> r == Err(Unauthorized) && todos == old(todos)
      ensures Accounts.Authenticate(users, auth).Some? && text == "" ==> r == Err(TextRequired) && todos == old(todos)
      ensures Accounts.Authenticate(users, auth).Some? && text != "" ==>
                r == Ok(201, OwnedTodos.Todo(id, Accounts.Authenticate(users, auth).value.id, text, false)) &&
                todos == old(todos) + [r.value]
      ensures old(Valid()) ==> Valid()
    {
      var user := Accounts.Authenticate(users, auth);
      if user.None? {
        return Err(Unauthorized);
      }
      if text == "" {
        return Err(TextRequired);
      }
      var newTodo := OwnedTodos.Todo(id, user.value.id, text, false);
      if Valid() {
        OwnedTodos.CreateKeepsIdsUnique(todos, newTodo);
      }
      todos := todos + [newTodo];
      r := Ok(201, newTodo);
    }

    /** PUT /todos/:id, with `None` standing for a field the body leaves `undefined`. */
    method UpdateTodo(auth: Option<string>, id: string, text: Option<string>, completed: Option<bool>)
      returns (r: Reply<OwnedTodos.Todo>)
      modifies this`todos
      ensures Accounts.Authenticate(users, auth).None? ==> r == Err(Unauthorized) && todos == old(todos)
      ensures Accounts.Authenticate(users, auth).Some? ==>
                match FindIndex(old(todos), OwnedTodos.IsOwned(id, Accounts.Authenticate(users, auth).value.id))
                case None => r == Err(TodoNotFound) && todos == old(todos)
                case Some(i) =>
                  todos == old(todos)[i := OwnedTodos.Patch(old(todos)[i], text, completed)] && r == Ok(200, todos[i])
      ensures old(Valid()) ==> Valid()
    {
      var user := Accounts.Authenticate(users, auth);
      if user.None? {
        return Err(Unauthorized);
      }
      var idx := FindIndex(todos, OwnedTodos.IsOwned(id, user.value.id));
      if idx.None? {
        return Err(TodoNotFound);
      }
      var i := idx.value;
      if Valid() {
        OwnedTodos.UpdateKeepsIdsUnique(todos, i, text, completed);
      }
      todos := todos[i := todos[i].(text := if text.Some? then text.value else todos[i].text)];
      todos := todos[i := todos[i].(completed := if completed.Some? then completed.value else todos[i].completed)];
      r := Ok(200, todos[i]);
    }

    /** DELETE /todos/:id */
    method DeleteTodo(auth: Option<string>, id: string) returns (r: Reply<Unit>)
      modifies this`todos
      ensures Accounts.Authenticate(users, auth).None? ==> r == Err(Unauthorized) && todos == old(todos)
      ensures Accounts.Authenticate(users, auth).Some? ==>
                match FindIndex(old(todos), OwnedTodos.IsOwned(id, Accounts.Authenticate(users, auth).value.id))
                case None => r == Err(TodoNotFound) && todos == old(todos)
                case Some(i) => todos == Splice(old(todos), i) && r == Ok(204, Unit)
      ensures old(Valid()) ==> Valid()
    {
      var user := Accounts.Authenticate(users, auth);
      if user.None? {
        return Err(Unauthorized);
      }
      var idx := FindIndex(todos, OwnedTodos.IsOwned(id, user.value.id));
      if idx.None? {
        return Err(TodoNotFound);
      }
      var i := idx.value;
      if Valid() {
        OwnedTodos.DeleteKeepsIdsUnique(todos, i);
      }
      todos := todos[..i] + todos[i + 1..];
      r := Ok(204, Unit);
    }
  }

  /**
   * Registration and login as the handlers promise them: a second registration
   * of the same email is refused, and the login token then authenticates the
   * new user.
   */
  method SignUpAndLogIn(hash: string -> string, userId: string, token: string)
    returns (statuses: seq<int>, session: Session, caller: Option<Accounts.User>)
    ensures statuses == [201, 400, 200]
    ensures session == Session(token, "A")
    ensures caller == Some(Accounts.User(userId, "A", "a@x.com", hash("p"), Some(token)))
  {
    var server := new Server(hash);
    var before := Accounts.User(userId, "A", "a@x.com", hash("p"), None);
    var registered := server.Register("A", "a@x.com", "p", userId);
    assert registered == Ok(201, Unit) && server.users == [before];
    assert server.users[0].email == "a@x.com";
    var again := server.Register("A", "a@x.com", "p", userId + "'");
    assert again == Err(UserExists) && server.users == [before];
    assert FindIndex([before], Accounts.HasEmail("a@x.com")) == Some(0);
    var login := server.Login("a@x.com", "p", token);
    assert login == Ok(200, Session(token, "A"));
    assert server.users == Accounts.LoggedIn([before], 0, token);
    Accounts.LoginThenAuthenticate([before], 0, token);
    caller := Accounts.Authenticate(server.users, Some(Accounts.Bearer + token));
    session := login.value;
    statuses := [registered.Status(), again.Status(), login.Status()];
  }

  /**
   * One logged-in user's todo requests, from creation to an emptied list, as
   * the handlers promise them.
   */
  method TodoLifecycle(hash: string -> string, user: Accounts.User, token: string, todoId: string)
    returns (statuses: seq<int>, created: OwnedTodos.Todo, listed: seq<OwnedTodos.Todo>,
             updated: OwnedTodos.Todo, remaining: seq<OwnedTodos.Todo>)
    requires user.token == Some(token)
    ensures statuses == [201, 200, 200, 204, 404, 200]
    ensures created == OwnedTodos.Todo(todoId, user.id, "buy milk", false)
    ensures listed == [created]
    ensures updated == created.(completed := true)
    ensures remaining == []
  {
    var server := new Server(hash);
    server.users := [user];
    var auth := Some(Accounts.Bearer + token);
    Accounts.BearerRoundTrip(token);
    assert FindIndex(server.users, Accounts.HasToken(token)) == Some(0);
    assert Accounts.Authenticate(server.users, auth) == Some(user);

    var create := server.CreateTodo(auth, "buy milk", todoId);
    created := create.value;
    assert server.todos == [created];
    OwnedTodos.CreateThenGet([], created);
    assert [] + [created] == [created];
    var list := server.ListTodos(auth);
    listed := list.value;
    var update := server.UpdateTodo(auth, todoId, None, Some(true));
    updated := update.value;
    assert server.todos == [updated];
    assert FindIndex(server.todos, OwnedTodos.IsOwned(todoId, user.id)) == Some(0);
    var delete := server.DeleteTodo(auth, todoId);
    assert server.todos == [];
    var get := server.GetTodo(auth, todoId);
    var final := server.ListTodos(auth);
    remaining := final.value;
    statuses := [create.Status(), list.Status(), update.Status(), delete.Status(), get.Status(), final.Status()];
  }
}
