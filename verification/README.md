# To-do application: owner-scoped task store and account forms

This project models the application logic of a small multi-user to-do web
application. Users register with a username and password, log in to a
session, and manage their own tasks. They do this through server-rendered
pages (`/todo`, `/todo/done/<id>`, `/todo/delete/<id>`) and through a parallel
JSON API (`/api/todos`, `/api/todos/<id>`).

The database is abstracted into plain values:

- the user table is a sequence of `User(id, username, password)` rows in table
  order, so that `.first()` is the first match;
- the to-do table is a `map<TaskId, Todo>`, where `Todo(title, done, owner)`;
- the session is an `Option<UserId>`.

Each handler is a pure function from the application state to a
`Transition(state', response)`.

Modules:

- `Wrappers`: the `Option` type.
- `Models`: rows, tables, the username lookup and the owner filter.
- `Forms`: the registration and login forms. Each validator is a predicate:
  - `DataRequired` rejects empty or whitespace-only input;
  - `Length` bounds the number of characters;
  - `EqualTo` compares the confirmation with the password;
  - `validate_username` rejects a taken name.
- `Routes`: one function per handler. Each handler behind `@login_required`
  redirects to the login page when no user is logged in.
- `RouteProperties`: lemmas that relate several handlers, such as idempotence
  and agreement between the page surface and the API surface.
- `App`: a dispatcher over a `Request` datatype, the whole-application
  invariant, and the authorisation property over whole request sequences.
  That property says a user's tasks change only during requests made as that
  user.
- `Scenario`: a complete session, with its responses proved end to end.

Some values come from code that is not part of this model. They are taken as
parameters:

- the primary key the database gives a new row;
- the default of the `done` column;
- the digest `generate_password_hash` returns;
- the password check, as a function `check: (Hash, string) -> bool`.

A fresh key is required to be unused (`id !in ...`).

Notes on the handlers' behaviour:

- The JSON routes are guarded by `@login_required`, like the pages. So an
  anonymous API request that reaches the handler is redirected to the login
  page (a 302, not an error status). For POST, PUT and DELETE this assumes the
  request carries a valid CSRF token; see "## Left out".
- A task id in a URL may be any non-negative integer, but a stored key fits
  SQLite's signed 64-bit INTEGER. An id above that range makes the lookup
  raise, so the request is answered 500 (`ServerError`) and nothing changes.
- Creating a task checks only that a title is present. An empty or blank title
  is accepted.
- `POST /todo` without a `title` form field raises a bad-request key error and
  is answered 400 (`BadRequest`), with nothing changed.
- The ownership guard `todo and todo.user_id == current_user.id` (and its
  negation in the JSON routes) is the predicate `Routes.Authorized`, built on
  `Models.OwnedBy`. What it decides is stated in the rows of the four handlers
  that use it: `Routes.MarkDone`, `Routes.Delete`, `Routes.ApiUpdateTodo` and
  `Routes.ApiDeleteTodo`.

## Model

| member | source | states |
|---|---|---|
| Models.FindByUsername | app/routes.py:33 | The lookup returns None exactly when no user has that name. Otherwise it returns a stored user with that name, and no earlier row has the name. |
| Models.FindByUsernameUnique | app/routes.py:33-34 | When usernames are unique, the lookup returns u exactly when u is a stored user with that name. |
| Models.ListOwned | app/routes.py:78-79 | The listing holds exactly the rows of the tasks the user owns, with their current title and done flag, and nothing else. |
| Forms.RegistrationErrors | app/forms.py:7-17 | Each field is rejected exactly when its validators fail. Username: 4 to 25 characters, not blank, and no stored user has it. Password: at least 6 characters and not blank. Confirmation: equal to the password. |
| Forms.UsernameAvailable | app/forms.py:14-17 | A username is available exactly when no stored user has it. |
| Forms.LoginErrors | app/forms.py:20-22 | The username is accepted exactly when it has 4 to 25 characters and is not blank. The password is accepted exactly when it is not blank. |
| Forms.RegistrationAcceptedOnlyIf | app/forms.py:8-10 | An accepted registration has a non-empty username of 4 to 25 characters and a non-empty password of at least 6. The confirmation equals the password, and the name is not taken. |
| Forms.TakenUsernameRejected | app/forms.py:14-17 | If some stored user already has the submitted name, the username field fails and the form is rejected. |
| Forms.LoginAcceptedOnlyIf | app/forms.py:21-22 | An accepted login form has a username of 4 to 25 characters and a non-empty password. |
| Forms.RegisteredCredentialsPassLoginForm | app/forms.py:8-22 | Credentials the registration form accepts also pass the login form's validators. |
| Routes.CurrentUser | app/__init__.py:36-38 | The current user is the session's id, but only if a user with that id is stored. Otherwise nobody is logged in. |
| Routes.Register | app/routes.py:16-26 | A POST that passes validation appends exactly User(id, username, digest) and redirects to login. Anything else re-renders the form and changes nothing. Tasks and session are untouched. Unique usernames and unique ids are preserved. |
| Routes.Login | app/routes.py:30-39 | Success binds the session to a stored user whose name matches and whose digest matches the password. Failure re-renders the form and leaves the state unchanged. When names are unique, a valid POST succeeds exactly when such a user exists. |
| Routes.Logout | app/routes.py:120-124 | Afterwards nobody is logged in, and the response redirects to login. If nobody was logged in, the login guard answers before logout runs, and the state, including a stale session id, is unchanged. Otherwise only the session is cleared. |
| Routes.Create | app/routes.py:47-49 | The new task gets the fresh key, the submitted title and the current user as owner. Every existing task is unchanged. |
| Routes.TodoList | app/routes.py:42-52 | Anonymous requests are redirected. GET lists the user's tasks. POST without a title is a 400 and changes nothing. POST with a title adds exactly one task owned by the user, leaves existing tasks as they were, and lists the tasks again. |
| Routes.MarkDone | app/routes.py:55-62 | An owned task gets done = true and nothing else changes. A missing or foreign task leaves the state unchanged. A logged-in user is redirected to the to-do page, except that an id beyond the 64-bit range gets a 500 with nothing changed. |
| Routes.Delete | app/routes.py:65-72 | An owned task is removed and every other task is kept. A missing or foreign task leaves the state unchanged. A logged-in user is redirected to the to-do page, except that an id beyond the 64-bit range gets a 500 with nothing changed. |
| Routes.ApiGetTodos | app/routes.py:75-79 | Answers 200 with exactly the current user's task rows. The state is unchanged. |
| Routes.ApiCreateTodo | app/routes.py:82-91 | A body without a title gets 400 and changes nothing. Otherwise exactly one task is added with the title and the user as owner, and the answer is 201 with that task. |
| Routes.ApiUpdateTodo | app/routes.py:94-105 | An id beyond the 64-bit range gets a 500 and changes nothing. Any other missing or foreign task gets 404 and changes nothing. Otherwise only that task changes. Fields in the body are overwritten, omitted fields keep their old value, and the owner never changes. The answer is 200 with the updated task. |
| Routes.ApiDeleteTodo | app/routes.py:108-117 | An id beyond the 64-bit range gets a 500 and changes nothing. Any other missing or foreign task gets 404 and changes nothing. Otherwise that task alone is removed and the answer is 200. |
| RouteProperties.MarkDoneIdempotent | app/routes.py:58-61 | Marking done twice gives the same state and response as marking done once. |
| RouteProperties.ApiDeleteTwiceNotFound | app/routes.py:111-117 | After a successful API delete, deleting the same id again gets 404 and changes nothing. |
| RouteProperties.DeleteTwiceNoOp | app/routes.py:68-72 | A second page delete of the same id changes nothing and gives the same redirect. |
| RouteProperties.ApiDeleteAgreesWithDelete | app/routes.py:68-72 | API delete and page delete make the same change to the store. |
| RouteProperties.ApiUpdateDoneAgreesWithMarkDone | app/routes.py:101-104 | An API update carrying only done = true makes the same change as the page's mark-done. |
| RouteProperties.ApiUpdateEmptyBodyNoChange | app/routes.py:102-103 | An API update with neither field leaves the state unchanged. |
| RouteProperties.ListingsAgree | app/routes.py:51 | The page listing and the API listing show the same rows. |
| RouteProperties.CreateThenList | app/routes.py:88-90 | After an API create, the API listing is the earlier listing plus exactly the new row. |
| RouteProperties.ForeignTaskNeverListed | app/routes.py:78 | A task owned by another user never appears in the caller's listing. |
| App.Step | app/routes.py:15-124 | A request dispatched to its handler changes the user table only if it is a registration, and a registration leaves the to-do table alone. |
| App.StepPreservesInv | app/routes.py:18-23 | Every request keeps three things true: unique usernames, unique user ids, and every task's owner is a stored user. |
| App.StepKeepsOwners | app/routes.py:58-117 | No request changes the owner of a task that survives it. |
| App.StepRevealsOnlyOwn | app/routes.py:51-105 | Every task a response shows belongs to the user who made the request. |
| App.StepIsolation | app/routes.py:59-117 | A request made by anyone other than a, or by nobody, leaves a's tasks exactly as they were. |
| App.RunPreservesInv | app/forms.py:14-17 | After any sequence of requests, including any number of registrations, usernames are still unique and every owner is a stored user. |
| App.RunAppend | app/routes.py:15-124 | Handling two request sequences one after the other is the same as handling their concatenation, and each part can be handled. |
| App.RunIsolation | app/routes.py:59-117 | Suppose a is never the current user during a sequence of requests. Then a's tasks end exactly as they began. |
| App.RegisterThenLogin | app/routes.py:18-36 | Register, then log in with the same name and password: the session becomes the new user. This holds when the stored digest matches the password. |
| App.WrongPasswordRejected | app/routes.py:33-38 | Logging in as an existing user with a password the digest does not match re-renders the form and leaves the state unchanged. |
| Scenario.EndToEnd | app/routes.py:16-117 | On an empty application this session gives these responses: register (redirect), log in (redirect to /todo), create "buy milk" through the API (201, not done), update it with done = true through the API (200, done), list (that one row), delete (200), list (empty). The lemma assumes the database's default for `done` is false. |

## Left out

- The landing page `/` renders a static template. It has no logic to model.
- Flash messages, template rendering, the login guard's `next` parameter and JSON serialisation are left out. They are library and I/O concerns. A handler's response records only what it is: redirect, render, 400, 500, or JSON with status and payload.
- Password hashing is not modelled. The digest is a parameter of `Register` and the check is a function parameter, because the hashing is a foreign cryptographic call.
- The database allocates ids and column defaults. A new row's key and its initial `done` value are parameters, and no default is asserted. The user and to-do ORM classes are not part of this model.
- CSRF protection is not modelled. Every POST, PUT and DELETE is assumed to carry a valid CSRF token. Without one, the protection hook answers 400 before the login guard or the handler runs, and nothing changes.
- Routes.ApiCreateTodo: only string titles are modelled, and only JSON bodies that parse to an object. A non-JSON body, a non-object body, and non-string or null values are not modelled; the source does not handle them itself.
- Routes.ApiUpdateTodo: only a JSON object body is modelled. The handler reads the body only after the ownership check. For an owned task, a body that is not JSON is refused by the request parser with a 4xx. A JSON body that is not an object (a list, null, a string) makes `data.get` raise, which is a 500. Nothing changes in either case, and the model's body type cannot express these bodies. Within an object, only a string `title` and a boolean `done` are modelled. JSON null or values of other types are not modelled. Whether the database would accept them depends on column definitions that are not part of this model.
- Models.ListOwned: the listing is a set of rows, not an ordered array. The query has no ORDER BY, so the order comes from the storage engine.
- Forms.RegistrationErrors: only which fields fail is modelled. The error messages, and which message a field reports when several of its validators fail, are not modelled.
- Concurrent requests, several clients and transaction atomicity are not modelled; the database and server handle them. The model has one client session, and requests are handled one at a time.
