/**
 * Request routing shared by both servers: the `/todos/:id` path pattern
 * `^\/todos\/([a-zA-Z0-9\-]+)$` and the order in which each server tries
 * its routes.
 */
module Routes {
  import opened Wrappers

  const TodosPath: string := "/todos"
  const TodoPrefix: string := "/todos/"

  /** JavaScript's `startsWith`. */
  predicate StartsWith(s: string, prefix: string)
  {
    |prefix| <= |s| && s[..|prefix|] == prefix
  }

  /** One character of the class `[a-zA-Z0-9\-]`. */
  predicate IdChar(c: char)
  {
    ('a' <= c <= 'z') || ('A' <= c <= 'Z') || ('0' <= c <= '9') || c == '-'
  }

  /** `[a-zA-Z0-9\-]+` matched against the whole of `s`, one character at a time. */
  function IsTodoId(s: string): (b: bool)
    ensures b <==> |s| > 0 && forall k :: 0 <= k < |s| ==> IdChar(s[k])
    decreases |s|
  {
    |s| > 0 && IdChar(s[0]) && (|s| == 1 || IsTodoId(s[1..]))
  }

  /** `pathname.match(todoIdRegex)`, giving the captured group 1 on a match. */
  function MatchTodoPath(path: string): (r: Option<string>)
    ensures r.Some? ==> TodoPrefix + r.value == path && IsTodoId(r.value)
    ensures r.Some? ==> StartsWith(path, TodosPath)
  {
    if StartsWith(path, TodoPrefix) && IsTodoId(path[|TodoPrefix|..])
    then Some(path[|TodoPrefix|..])
    else None
  }

  /** The pattern accepts `/todos/<id>` exactly when `<id>` is a valid todo id, and captures it. */
  lemma TodoPathRoundTrip(id: string)
    ensures MatchTodoPath(TodoPrefix + id) == if IsTodoId(id) then Some(id) else None
  {
  }

  /** The collection path is not an item path, so list and get never compete. */
  lemma CollectionIsNotItem()
    ensures MatchTodoPath(TodosPath).None?
  {
  }

  datatype Endpoint =
    | Preflight
    | Register
    | Login
    | Unauthorized
    | ListTodos
    | GetTodo(id: string)
    | CreateTodo
    | UpdateTodo(id: string)
    | DeleteTodo(id: string)
    | RouteNotFound
  {
    /** The handlers that dereference the authenticated user. */
    predicate IsTodoHandler()
    {
      ListTodos? || GetTodo? || CreateTodo? || UpdateTodo? || DeleteTodo?
    }
  }

  /** The todo routes, tried in the same order by both servers. */
  function TodoRoute(verb: string, path: string): (e: Endpoint)
    ensures e.IsTodoHandler() || e.RouteNotFound?
    ensures e.IsTodoHandler() ==> StartsWith(path, TodosPath)
    ensures e.GetTodo? || e.UpdateTodo? || e.DeleteTodo? ==> MatchTodoPath(path) == Some(e.id)
    ensures e == ListTodos <==> verb == "GET" && path == TodosPath
    ensures e == CreateTodo <==> verb == "POST" && path == TodosPath
    ensures e.GetTodo? <==> verb == "GET" && MatchTodoPath(path).Some?
    ensures e.UpdateTodo? <==> verb == "PUT" && MatchTodoPath(path).Some?
    ensures e.DeleteTodo? <==> verb == "DELETE" && MatchTodoPath(path).Some?
  {
    var m := MatchTodoPath(path);
    if verb == "GET" && path == TodosPath then ListTodos
    else if verb == "GET" && m.Some? then GetTodo(m.value)
    else if verb == "POST" && path == TodosPath then CreateTodo
    else if verb == "PUT" && m.Some? then UpdateTodo(m.value)
    else if verb == "DELETE" && m.Some? then DeleteTodo(m.value)
    else RouteNotFound
  }

  /** The dispatch of the unscoped server: preflight, then the todo routes. */
  function AppRoute(verb: string, path: string): (e: Endpoint)
    ensures e.Preflight? <==> verb == "OPTIONS"
    ensures !e.Register? && !e.Login? && !e.Unauthorized?
    ensures verb != "OPTIONS" ==> e == TodoRoute(verb, path)
  {
    if verb == "OPTIONS" then Preflight else TodoRoute(verb, path)
  }

  /**
   * The dispatch of the account server: preflight, register and login, then
   * the 401 gate for an unresolved token on a `/todos` path, then the todo routes.
   * `authed` says whether the bearer token resolved to a user.
   */
  function ServerRoute(verb: string, path: string, authed: bool): (e: Endpoint)
    ensures e.Preflight? <==> verb == "OPTIONS"
    ensures e.Register? <==> verb == "POST" && path == "/register"
    ensures e.Login? <==> verb == "POST" && path == "/login"
    ensures e.Unauthorized? <==> verb != "OPTIONS" && !authed && StartsWith(path, TodosPath)
  {
    assert !StartsWith("/register", TodosPath) && !StartsWith("/login", TodosPath) by {
      assert "/register"[1] != TodosPath[1];
    }
    if verb == "OPTIONS" then Preflight
    else if verb == "POST" && path == "/register" then Register
    else if verb == "POST" && path == "/login" then Login
    else if !authed && StartsWith(path, TodosPath) then Unauthorized
    else TodoRoute(verb, path)
  }

  /**
   * The 401 gate only tests the `/todos` prefix, yet every todo handler is behind
   * it: a request whose token did not resolve never reaches a handler that reads
   * the user's id.
   */
  lemma UnresolvedTokenReachesNoTodoHandler(verb: string, path: string)
    ensures !ServerRoute(verb, path, false).IsTodoHandler()
  {
  }

  /** With a resolved token the account server routes every other request as the unscoped one does. */
  lemma ResolvedTokenRoutesLikeApp(verb: string, path: string)
    requires !(verb == "POST" && (path == "/register" || path == "/login"))
    ensures ServerRoute(verb, path, true) == AppRoute(verb, path)
  {
  }
}
