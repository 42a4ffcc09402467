# Account and todo store of a small Node.js todo backend

This project models in Dafny the state logic of the backend of a small todo
application. The backend comes as two alternative servers.

- `backend/server.js` is the account server. It keeps a `users` collection and a
  `todos` collection. It registers users under a unique email and stores the
  SHA-256 digest of their password. Login puts a fresh random token on the user.
  Every todo request is authenticated by looking up the bearer token. The list
  holds the todos whose `userId` is the caller's. Create pushes a todo owned by
  the caller. Get, update and delete find their todo by matching the todo id and
  the caller's user id together.
- `backend/app.js` is the earlier unscoped server. It keeps one `todos`
  collection with no owners. A missing `todos.json` is created holding `[]`.
  Update spreads the stored object. Delete filters out every todo with the id.

Modules:

- `Arrays` (`arrays.dfy`) models the JavaScript array operations both servers
  are written with: `find`, `findIndex`, `filter` and `splice(i, 1)`.
- `Routes` (`routes.dfy`) models the path pattern `^\/todos\/([a-zA-Z0-9\-]+)$`
  and the order in which each server tries its routes, including the 401 gate
  of the account server.
- `Replies` (`replies.dfy`) holds the failure tags with their status codes and
  messages.
- `Accounts` (`accounts.dfy`) holds the stored user, the `Bearer ` extraction
  done with `String.prototype.replace`, and `authenticate`.
- `OwnedTodos` (`owned_todos.dfy`) holds the owner-scoped todo record and its
  lookups.
- `AuthServer` (`server.dfy`) has the class `Server`. Its `users` and `todos`
  fields are sequences, and it has one method per request branch. Each method
  either fails and changes nothing, or makes one edit: push, token overwrite,
  field assignment or splice.
- `TodoApp` (`app.dfy`) has the class `Store`. Its `file` field is `None` while
  `todos.json` does not exist. It has one method per route.

External pieces:

- The password hash is the `hash` constant of `Server`. The proofs hold for
  every function, so nothing depends on SHA-256 itself.
- The UUIDs from `crypto.randomUUID` and the tokens from `crypto.randomBytes`
  are method parameters. A `requires` states that each is fresh.
- A request body field that is `undefined` is `None`. A required string field
  that is missing or empty is `""`, which JavaScript treats as falsy.

Behaviour of the code worth noting:

- A duplicate email at registration is answered 400 `User already exists` (backend/server.js:102-103).
- The stored digest sits in the user's `password` property (backend/server.js:110).
- `authenticate` does not check for the `Bearer ` scheme (backend/server.js:71). The
  header has its first `Bearer ` cut out wherever it stands, and a header without
  it is used whole as the token (`Accounts.BearerToken`).
- Update accepts an empty `text` (backend/server.js:189), while create rejects one
  (backend/server.js:165).

## Model

| member | source | states |
|---|---|---|
| `Arrays.FindIndex` | backend/server.js:186 | the result is the first index whose element satisfies the predicate; no result exactly when no element does |
| `Arrays.Find` | backend/server.js:156 | the result is the element at the first satisfying index; no result exactly when no element satisfies the predicate |
| `Arrays.Filter` | backend/server.js:148 | the result holds exactly the elements that satisfy the predicate, and is no longer than the input |
| `Arrays.Splice` | backend/server.js:203 | one element fewer; elements before the index are kept in place and those after it move down by one; the multiset loses exactly the removed element |
| `Arrays.FilterAppend` | backend/server.js:148 | filtering distributes over concatenation, so what survives keeps its storage order |
| `Arrays.FilterKeepsLength` | backend/app.js:199-201 | the filtered length equals the original length exactly when every element satisfies the predicate |
| `Arrays.FindIndexAppended` | backend/server.js:174 | an element pushed after elements that all fail the predicate is found at the old length |
| `Arrays.FindIndexAppendedLater` | backend/server.js:174 | a push does not disturb a match that was already found |
| `Arrays.FindIndexAfterUpdate` | backend/server.js:189-190 | replacing the first match by another matching element keeps it the first match |
| `Routes.IsTodoId` | backend/app.js:126 | the id part of the pattern accepts a string exactly when it is non-empty and every character is ASCII alphanumeric or `-` |
| `Routes.MatchTodoPath` | backend/app.js:125-127 | a match captures a valid id, and the prefix `/todos/` followed by that id is the whole path |
| `Routes.TodoPathRoundTrip` | backend/app.js:126 | `/todos/<id>` matches exactly when `<id>` is a valid id, and the captured group is `<id>` |
| `Routes.CollectionIsNotItem` | backend/app.js:132-137 | `/todos` never matches the item pattern, so the list and get routes never compete |
| `Routes.TodoRoute` | backend/app.js:131-214 | the endpoint table: list exactly for GET `/todos`, create exactly for POST `/todos`, get, update and delete exactly for GET, PUT and DELETE on a path the item pattern matches, carrying the captured id; anything else is the 404 fallback |
| `Routes.AppRoute` | backend/app.js:114-214 | preflight exactly for OPTIONS; every other request is routed by the todo branches; never register, login or a 401 |
| `Routes.ServerRoute` | backend/server.js:80-143 | preflight exactly for OPTIONS, register and login exactly for their POST paths, and a 401 exactly for a non-OPTIONS request with an unresolved token on a path starting with `/todos`; `UnresolvedTokenReachesNoTodoHandler` and `ResolvedTokenRoutesLikeApp` prove what follows the gate |
| `Routes.UnresolvedTokenReachesNoTodoHandler` | backend/server.js:140-208 | with an unresolved token no request reaches a todo handler, although the gate only tests the `/todos` prefix |
| `Routes.ResolvedTokenRoutesLikeApp` | backend/server.js:145-211 | once authenticated, every request other than register and login is routed as the unscoped server routes it |
| `Replies.Failure.Status` | backend/server.js:98-165 | 404 exactly for an unknown user or todo, 401 exactly for bad credentials or an unresolved token, 400 otherwise, as each failure branch sends |
| `Replies.Failure.Message` | backend/server.js:98-201 | each failure carries the non-empty message its branch sends in `backend/server.js`; the two todo failures send the same messages in `backend/app.js` (lines 145-202) |
| `Replies.MessagesDistinct` | backend/server.js:98-165 | no two failures share a message |
| `Accounts.IndexOf` | backend/server.js:71 | the result is the first position where the pattern occurs; no result exactly when it occurs nowhere |
| `Accounts.BearerToken` | backend/server.js:71 | without `Bearer ` the header is the token; otherwise putting `Bearer ` back at its first position gives the header again |
| `Accounts.BearerRoundTrip` | backend/server.js:71 | the header `Bearer <token>` yields exactly `<token>` |
| `Accounts.Authenticate` | backend/server.js:67-75 | a missing or empty header gives nobody; a result is the first user holding the extracted token, and never a user with a null token; no result means no user holds it |
| `Accounts.LoggedIn` | backend/server.js:132-133 | only the logged-in user's token changes, to the new token; every other user is unchanged |
| `Accounts.LoginThenAuthenticate` | backend/server.js:132-133 | after a login with a fresh token, `Bearer <token>` authenticates exactly the logged-in user |
| `Accounts.LoginRevokesPreviousToken` | backend/server.js:133 | after a new login, no user holds the previous token and it authenticates nobody |
| `Accounts.RegisterKeepsWellFormed` | backend/server.js:101-113 | pushing a user with a fresh id and an untaken email keeps emails, ids and tokens unique |
| `Accounts.LoginKeepsWellFormed` | backend/server.js:132-134 | overwriting a token with a fresh one keeps emails, ids and tokens unique |
| `OwnedTodos.OwnedBy` | backend/server.js:148 | the list holds exactly the todos whose owner is the caller |
| `OwnedTodos.Patch` | backend/server.js:189-190 | a supplied field replaces the stored one, an absent field keeps it, and the id and owner never change |
| `OwnedTodos.CreateThenGet` | backend/server.js:168-174 | a created todo is found by its id for its owner, at the end, and is appended to its owner's list |
| `OwnedTodos.UpdateThenGet` | backend/server.js:186-190 | after an update the todo is found at the same index, now patched |
| `OwnedTodos.DeleteThenGet` | backend/server.js:200-203 | once the todo is spliced out, its id is found for no user |
| `OwnedTodos.ForeignTodoInvisible` | backend/server.js:146-158 | another user's todo is not in the caller's list and the caller's lookup answers as for a missing id |
| `OwnedTodos.CreateKeepsIdsUnique` | backend/server.js:169-174 | pushing a todo with a fresh id keeps todo ids unique |
| `OwnedTodos.UpdateKeepsIdsUnique` | backend/server.js:189-190 | patching a todo keeps todo ids unique |
| `OwnedTodos.DeleteKeepsIdsUnique` | backend/server.js:203 | splicing a todo out keeps todo ids unique |
| `AuthServer.Server.constructor` | backend/server.js:31-42 | both collections start empty, as a missing file reads |
| `AuthServer.Server.Register` | backend/server.js:95-116 | an empty field gives 400 and a taken email gives 400, both with users unchanged; otherwise exactly one user with the digest and a null token is pushed at the end (201); uniqueness is kept |
| `AuthServer.Server.Login` | backend/server.js:119-137 | an empty field gives 400, an unknown email 404 and a digest mismatch 401, all with users unchanged; otherwise only the first matching user's token becomes the fresh token and the reply carries the token and name |
| `AuthServer.Server.ListTodos` | backend/server.js:146-150 | 401 without a resolved user; otherwise exactly the caller's todos in storage order; nothing changes |
| `AuthServer.Server.GetTodo` | backend/server.js:153-159 | 401 without a resolved user; 404 exactly when no todo matches both id and owner; otherwise the first such todo |
| `AuthServer.Server.CreateTodo` | backend/server.js:162-177 | 401 or empty text (400) leave todos unchanged; otherwise the todo with the caller as owner and `completed = false` is pushed and returned (201) |
| `AuthServer.Server.UpdateTodo` | backend/server.js:180-194 | 401, or 404 with no id-and-owner match, leave todos unchanged; otherwise only the first match is patched and returned (200) |
| `AuthServer.Server.DeleteTodo` | backend/server.js:197-208 | 401, or 404 with no id-and-owner match, leave todos unchanged; otherwise only the first match is spliced out (204) |
| `AuthServer.SignUpAndLogIn` | backend/server.js:95-137 | register, register again with the same email, then login answer 201, 400, 200, and the login token authenticates the new user |
| `AuthServer.TodoLifecycle` | backend/server.js:146-208 | create, list, update of `completed` only, delete, get, list answer 201, 200, 200, 204, 404, 200; the text is kept and the final list is empty |
| `TodoApp.Loaded` | backend/app.js:50-63 | a missing file reads as `[]` and an existing one as its stored array |
| `TodoApp.Spread` | backend/app.js:184-189 | supplied fields replace the stored ones, absent fields keep them, and the id and every other property survive |
| `TodoApp.WithoutId` | backend/app.js:199-201 | exactly the todos without the id survive, and the length is unchanged exactly when no todo had the id |
| `TodoApp.DeleteKeepsOrder` | backend/app.js:199 | removal distributes over concatenation, so the survivors keep their order |
| `TodoApp.CreateThenGet` | backend/app.js:159-166 | a created todo is found by its id, as stored |
| `TodoApp.UpdateThenGet` | backend/app.js:176-191 | after an update the todo is found at the same index, now updated |
| `TodoApp.DeleteThenGet` | backend/app.js:198-199 | after a delete no todo with the id remains |
| `TodoApp.Store.constructor` | backend/app.js:229-236 | the store starts as at process start, before the startup read, without a `todos.json` file |
| `TodoApp.Store.ReadTodos` | backend/app.js:50-63 | a missing file becomes `[]` and `[]` is returned; an existing array is returned as it is; afterwards the file holds what was returned |
| `TodoApp.Store.ListTodos` | backend/app.js:132-134 | every stored todo, with 200 |
| `TodoApp.Store.GetTodo` | backend/app.js:137-146 | 404 exactly when no todo has the id; otherwise the first todo with it (200) |
| `TodoApp.Store.CreateTodo` | backend/app.js:149-167 | empty text gives 400 before the file is touched; otherwise `{id, text, completed: false}` is pushed at the end and returned (201) |
| `TodoApp.Store.UpdateTodo` | backend/app.js:170-193 | 404 with nothing changed when no todo has the id; otherwise only the first such todo is replaced by its spread update, which is returned (200) |
| `TodoApp.Store.DeleteTodo` | backend/app.js:196-210 | 404 with nothing written when no todo has the id; otherwise every todo with it is removed and the rest keep their order (204) |
| `TodoApp.FirstRun` | backend/app.js:50-210 | starting without a file: an empty create is refused and the file stays missing; a list creates it; create, update, delete, delete, get answer 201, 200, 204, 404, 404 and the file ends as `[]` |

## Left out

- The HTTP layer is not modelled: `http.createServer`, `listen`, CORS headers, `sendJSON`/`sendJSONResponse` and `getRequestBody`. OPTIONS is only a route tag (`Routes.Endpoint.Preflight`). Replies are a status code with a value or a failure tag with its message. The success message bodies of register and login are not modelled.
- URL parsing (`new URL(...)` and the host header) is not modelled. Routes take the pathname as `new URL` normalises it: dot segments are resolved and percent-escapes are kept, so `/todos/a%2Db` does not match the item pattern.
- JSON parsing and serialisation are not modelled, nor are the 500 and `SyntaxError` → 400 catch-all handlers. They handle I/O and parse failures, not store logic.
- Request bodies are typed. A field holding a number, a boolean, `null` or an object is not modelled. For example, `{"text": null}` in an update would store `null`. Falsy values are modelled only as `""`.
- File I/O in `server.js` is not modelled. On a missing file, `readJSON` writes `[]` and returns `[]`, which is what a file holding `[]` yields. So `Server` keeps both collections as fields that start empty. The missing-file rule itself is modelled once, in `TodoApp.Store.ReadTodos`.
- A file that is present but does not parse is not modelled. For example, an empty file makes `JSON.parse` throw. `backend/server.js` answers that with 500 `Server error` (lines 213-215). `backend/app.js` rethrows the `SyntaxError` (line 61) and answers 400 `Invalid JSON in request body` (lines 220-221).
- The startup `readTodos` in the `listen` callback of `backend/app.js` (lines 229-236) is not modelled. It creates `todos.json` as soon as the server listens. `TodoApp.Store` starts as at process start, before that read.
- The two servers share `todos.json` on disk, but they are modelled as two separate stores.
- SHA-256, `crypto.randomUUID` and `crypto.randomBytes` are foreign library calls. They are a function constant and fresh parameters.
- The lost-update race is not modelled. Each request loads, edits and saves a whole file without locking, so concurrent requests can overwrite each other. The model is sequential.
- `AuthServer.Server.ListTodos` and `OwnedTodos.OwnedBy` state which todos are listed in their contracts. Storage order is stated separately, by `Arrays.FilterAppend` and `OwnedTodos.CreateThenGet`.
- The `frontend/` React client is not part of this model. It is presentation and network-client code.
