/**
 The request handlers of the application, each as a pure transition from the
 application state to a new state and a response. Every handler behind the
 login guard first resolves the current user; when there is none it redirects
 to the login page and changes nothing.
 */
module Routes {
  import opened Wrappers
  import opened Models
  import opened Forms

  datatype Method = Get | Post

  /** The user id bound to the client's session, if any. */
  type Session = Option<UserId>

  datatype AppState = AppState(users: UserTable, todos: TodoTable, session: Session)

  datatype Page = RegisterPage | LoginPage | TodoPage

  datatype ApiError = TitleRequired | NotFoundOrUnauthorized

  datatype Json =
    | TaskObject(row: Row)
    | TaskArray(rows: set<Row>)
    | ErrorObject(error: ApiError)
    | DeletedMessage

  datatype Response =
    | Redirect(to: Page)
    | Render(page: Page)
    | RenderTodos(rows: set<Row>)
    | BadRequest
    | ServerError
    | JsonReply(status: nat, body: Json)

  datatype Transition = Transition(state: AppState, response: Response)

  /** The body of `POST /api/todos`; `title` is None when the key is absent. */
  datatype CreateBody = CreateBody(title: Option<string>)

  /** The body of `PUT /api/todos/<id>`; an absent key is None. */
  datatype UpdateBody = UpdateBody(title: Option<string>, done: Option<bool>)

  /** The authenticated user of the request: the session's id, provided a user
      row with that id exists (the user loader returns nothing otherwise). */
  function CurrentUser(st: AppState): (r: Option<UserId>)
    ensures r.Some? ==> st.session == r && r.value in UserIds(st.users)
    ensures st.session.Some? && st.session.value in UserIds(st.users) ==> r == st.session
  {
    match st.session
    case Some(u) => if u in UserIds(st.users) then Some(u) else None
    case None => None
  }

  /** The ownership check every mutating handler performs before touching task `id`. */
  predicate Authorized(st: AppState, id: RequestedId)
  {
    CurrentUser(st).Some? && OwnedBy(st.todos, id, CurrentUser(st).value)
  }

  /** `/register`: on a valid submission, store a new user with the given
      primary key and password digest and redirect to the login page;
      otherwise render the form again. */
  function Register(st: AppState, verb: Method, form: RegistrationForm, id: UserId, hashed: Hash): (r: Transition)
    requires id !in UserIds(st.users)
    ensures r.state.todos == st.todos && r.state.session == st.session
    ensures r.response == Redirect(LoginPage) <==> verb == Post && RegistrationValid(form, st.users)
    ensures r.response == Redirect(LoginPage) ==>
              && |r.state.users| == |st.users| + 1
              && r.state.users[..|st.users|] == st.users
              && r.state.users[|st.users|] == User(id, form.username, hashed)
    ensures r.response != Redirect(LoginPage) ==> r.state == st && r.response == Render(RegisterPage)
    ensures UniqueUsernames(st.users) ==> UniqueUsernames(r.state.users)
    ensures UniqueIds(st.users) ==> UniqueIds(r.state.users)
  {
    if verb == Post && RegistrationValid(form, st.users) then
      assert !HasUsername(st.users, form.username) by {
        RegistrationAcceptedOnlyIf(form, st.users);
      }
      var users' := st.users + [User(id, form.username, hashed)];
      assert users'[..|st.users|] == st.users;
      Transition(st.(users := users'), Redirect(LoginPage))
    else
      Transition(st, Render(RegisterPage))
  }

  /** `/login`: on a valid submission whose username's first row has a password
      digest matching the submitted password (per `check`), bind that user to
      the session and redirect to the to-do page; otherwise render the form
      again and leave the session as it was. */
  function Login(st: AppState, verb: Method, form: LoginForm, check: (Hash, string) -> bool): (r: Transition)
    ensures r.state.users == st.users && r.state.todos == st.todos
    ensures r.response == Redirect(TodoPage) ==>
              exists u :: u in st.users && u.username == form.username && check(u.password, form.password)
                          && r.state.session == Some(u.id)
    ensures r.response == Redirect(TodoPage) ==> verb == Post && LoginValid(form)
    ensures r.response != Redirect(TodoPage) ==> r.state == st && r.response == Render(LoginPage)
    ensures UniqueUsernames(st.users) && verb == Post && LoginValid(form) ==>
              (r.response == Redirect(TodoPage) <==>
                 exists u :: u in st.users && u.username == form.username && check(u.password, form.password))
  {
    if verb == Post && LoginValid(form) then
      var found := FindByUsername(st.users, form.username);
      if found.Some? && check(found.value.password, form.password) then
        Transition(st.(session := Some(found.value.id)), Redirect(TodoPage))
      else
        assert UniqueUsernames(st.users) ==>
                 forall u :: u in st.users && u.username == form.username ==> found == Some(u) by {
          if UniqueUsernames(st.users) {
            forall u | u in st.users && u.username == form.username
              ensures found == Some(u)
            {
              FindByUsernameUnique(st.users, form.username, u);
            }
          }
        }
        Transition(st, Render(LoginPage))
    else
      Transition(st, Render(LoginPage))
  }

  /** `/logout`: clears the session and redirects to the login page. */
  function Logout(st: AppState): (r: Transition)
    ensures r.state.users == st.users && r.state.todos == st.todos
    ensures CurrentUser(r.state).None?
    ensures r.response == Redirect(LoginPage)
    ensures CurrentUser(st).None? ==> r == Transition(st, Redirect(LoginPage))
    ensures CurrentUser(st).Some? ==> r.state == st.(session := None)
  {
    match CurrentUser(st)
    case None => Transition(st, Redirect(LoginPage))
    case Some(_) => Transition(st.(session := None), Redirect(LoginPage))
  }

  /** Adds the task `Todo(title, row.done, user)` under the fresh key `row.id`. */
  function Create(todos: TodoTable, user: UserId, title: string, row: NewRow): (todos': TodoTable)
    requires row.id !in todos
    ensures todos'.Keys == todos.Keys + {row.id}
    ensures forall id :: id in todos ==> todos'[id] == todos[id]
    ensures todos'[row.id].owner == user && todos'[row.id].title == title && todos'[row.id].done == row.done
  {
    todos[row.id := Todo(title, row.done, user)]
  }

  /** `/todo`: GET lists the current user's tasks; POST first adds a task from
      the form's `title` field (a missing field is a 400), then lists. */
  function TodoList(st: AppState, verb: Method, title: Option<string>, row: NewRow): (r: Transition)
    requires verb == Post ==> row.id !in st.todos
    ensures r.state.users == st.users && r.state.session == st.session
    ensures CurrentUser(st).None? ==> r == Transition(st, Redirect(LoginPage))
    ensures CurrentUser(st).Some? && verb == Get ==>
              r == Transition(st, RenderTodos(ListOwned(st.todos, CurrentUser(st).value)))
    ensures CurrentUser(st).Some? && verb == Post && title.None? ==> r == Transition(st, BadRequest)
    ensures CurrentUser(st).Some? && verb == Post && title.Some? ==>
              && r.state.todos.Keys == st.todos.Keys + {row.id}
              && (forall id :: id in st.todos ==> r.state.todos[id] == st.todos[id])
              && r.state.todos[row.id] == Todo(title.value, row.done, CurrentUser(st).value)
              && r.response == RenderTodos(ListOwned(r.state.todos, CurrentUser(st).value))
  {
    match CurrentUser(st)
    case None => Transition(st, Redirect(LoginPage))
    case Some(user) =>
      if verb == Get then
        Transition(st, RenderTodos(ListOwned(st.todos, user)))
      else if title.None? then
        Transition(st, BadRequest)
      else
        var todos' := Create(st.todos, user, title.value, row);
        Transition(st.(todos := todos'), RenderTodos(ListOwned(todos', user)))
  }

  /** `/todo/done/<id>`: marks an owned task done; a missing or foreign task is
      silently ignored. Always redirects to the to-do page once logged in,
      except that an id beyond SQLite's INTEGER range makes the lookup raise
      (a 500, nothing changed). */
  function MarkDone(st: AppState, id: RequestedId): (r: Transition)
    ensures r.response == if CurrentUser(st).None? then Redirect(LoginPage)
                          else if id > MaxRowId then ServerError
                          else Redirect(TodoPage)
    ensures r.state.users == st.users && r.state.session == st.session
    ensures r.state.todos.Keys == st.todos.Keys
    ensures forall k :: k in st.todos && k != id ==> r.state.todos[k] == st.todos[k]
    ensures Authorized(st, id) ==> r.state.todos[id] == st.todos[id].(done := true)
    ensures !Authorized(st, id) ==> r.state == st
  {
    match CurrentUser(st)
    case None => Transition(st, Redirect(LoginPage))
    case Some(user) =>
      if id > MaxRowId then
        Transition(st, ServerError)
      else if OwnedBy(st.todos, id, user) then
        Transition(st.(todos := st.todos[id := st.todos[id].(done := true)]), Redirect(TodoPage))
      else
        Transition(st, Redirect(TodoPage))
  }

  /** `/todo/delete/<id>`: deletes an owned task; a missing or foreign task is
      silently ignored. Always redirects to the to-do page once logged in,
      except that an id beyond SQLite's INTEGER range makes the lookup raise
      (a 500, nothing changed). */
  function Delete(st: AppState, id: RequestedId): (r: Transition)
    ensures r.response == if CurrentUser(st).None? then Redirect(LoginPage)
                          else if id > MaxRowId then ServerError
                          else Redirect(TodoPage)
    ensures r.state.users == st.users && r.state.session == st.session
    ensures forall k :: k in st.todos && k != id ==> k in r.state.todos && r.state.todos[k] == st.todos[k]
    ensures Authorized(st, id) ==> r.state.todos.Keys == st.todos.Keys - {id}
    ensures !Authorized(st, id) ==> r.state == st
  {
    match CurrentUser(st)
    case None => Transition(st, Redirect(LoginPage))
    case Some(user) =>
      if id > MaxRowId then
        Transition(st, ServerError)
      else if OwnedBy(st.todos, id, user) then
        Transition(st.(todos := st.todos - {id}), Redirect(TodoPage))
      else
        Transition(st, Redirect(TodoPage))
  }

  /** `GET /api/todos`: the current user's tasks as a JSON array. */
  function ApiGetTodos(st: AppState): (r: Transition)
    ensures r.state == st
    ensures CurrentUser(st).None? ==> r.response == Redirect(LoginPage)
    ensures CurrentUser(st).Some? ==>
              && r.response.JsonReply? && r.response.status == 200 && r.response.body.TaskArray?
              && (forall x :: x in r.response.body.rows <==>
                    OwnedBy(st.todos, x.id, CurrentUser(st).value) && x == RowOf(st.todos, x.id))
  {
    match CurrentUser(st)
    case None => Transition(st, Redirect(LoginPage))
    case Some(user) => Transition(st, JsonReply(200, TaskArray(ListOwned(st.todos, user))))
  }

  /** `POST /api/todos`: 400 when the body has no `title`; otherwise adds the
      task for the current user and answers 201 with it. */
  function ApiCreateTodo(st: AppState, body: CreateBody, row: NewRow): (r: Transition)
    requires row.id !in st.todos
    ensures r.state.users == st.users && r.state.session == st.session
    ensures CurrentUser(st).None? ==> r == Transition(st, Redirect(LoginPage))
    ensures CurrentUser(st).Some? && body.title.None? ==>
              r == Transition(st, JsonReply(400, ErrorObject(TitleRequired)))
    ensures CurrentUser(st).Some? && body.title.Some? ==>
              && r.state.todos.Keys == st.todos.Keys + {row.id}
              && (forall id :: id in st.todos ==> r.state.todos[id] == st.todos[id])
              && r.state.todos[row.id] == Todo(body.title.value, row.done, CurrentUser(st).value)
              && r.response == JsonReply(201, TaskObject(Row(row.id, body.title.value, row.done)))
  {
    match CurrentUser(st)
    case None => Transition(st, Redirect(LoginPage))
    case Some(user) =>
      match body.title
      case None => Transition(st, JsonReply(400, ErrorObject(TitleRequired)))
      case Some(title) =>
        Transition(st.(todos := Create(st.todos, user, title, row)),
                   JsonReply(201, TaskObject(Row(row.id, title, row.done))))
  }

  /** `PUT /api/todos/<id>`: 500 for an id beyond SQLite's INTEGER range (the
      lookup raises); 404 unless the task exists and belongs to the current
      user; otherwise overwrites the fields present in the body, keeps the
      others, and answers 200 with the updated task. */
  function ApiUpdateTodo(st: AppState, id: RequestedId, body: UpdateBody): (r: Transition)
    ensures r.state.users == st.users && r.state.session == st.session
    ensures CurrentUser(st).None? ==> r == Transition(st, Redirect(LoginPage))
    ensures CurrentUser(st).Some? && id > MaxRowId ==> r == Transition(st, ServerError)
    ensures CurrentUser(st).Some? && id <= MaxRowId && !Authorized(st, id) ==>
              r == Transition(st, JsonReply(404, ErrorObject(NotFoundOrUnauthorized)))
    ensures r.state.todos.Keys == st.todos.Keys
    ensures forall k :: k in st.todos && k != id ==> r.state.todos[k] == st.todos[k]
    ensures Authorized(st, id) ==>
              && r.state.todos[id].owner == st.todos[id].owner
              && (body.title.None? ==> r.state.todos[id].title == st.todos[id].title)
              && (body.title.Some? ==> r.state.todos[id].title == body.title.value)
              && (body.done.None? ==> r.state.todos[id].done == st.todos[id].done)
              && (body.done.Some? ==> r.state.todos[id].done == body.done.value)
              && r.response == JsonReply(200, TaskObject(RowOf(r.state.todos, id)))
  {
    match CurrentUser(st)
    case None => Transition(st, Redirect(LoginPage))
    case Some(user) =>
      if id > MaxRowId then
        Transition(st, ServerError)
      else if !OwnedBy(st.todos, id, user) then
        Transition(st, JsonReply(404, ErrorObject(NotFoundOrUnauthorized)))
      else
        var current := st.todos[id];
        var updated := current.(title := body.title.GetOr(current.title), done := body.done.GetOr(current.done));
        var todos' := st.todos[id := updated];
        Transition(st.(todos := todos'), JsonReply(200, TaskObject(RowOf(todos', id))))
  }

  /** `DELETE /api/todos/<id>`: 500 for an id beyond SQLite's INTEGER range
      (the lookup raises); 404 unless the task exists and belongs to the
      current user; otherwise deletes it and answers 200. */
  function ApiDeleteTodo(st: AppState, id: RequestedId): (r: Transition)
    ensures r.state.users == st.users && r.state.session == st.session
    ensures CurrentUser(st).None? ==> r == Transition(st, Redirect(LoginPage))
    ensures CurrentUser(st).Some? && id > MaxRowId ==> r == Transition(st, ServerError)
    ensures CurrentUser(st).Some? && id <= MaxRowId && !Authorized(st, id) ==>
              r == Transition(st, JsonReply(404, ErrorObject(NotFoundOrUnauthorized)))
    ensures forall k :: k in st.todos && k != id ==> k in r.state.todos && r.state.todos[k] == st.todos[k]
    ensures Authorized(st, id) ==>
              r.state.todos.Keys == st.todos.Keys - {id} && r.response == JsonReply(200, DeletedMessage)
  {
    match CurrentUser(st)
    case None => Transition(st, Redirect(LoginPage))
    case Some(user) =>
      if id > MaxRowId then
        Transition(st, ServerError)
      else if !OwnedBy(st.todos, id, user) then
        Transition(st, JsonReply(404, ErrorObject(NotFoundOrUnauthorized)))
      else
        Transition(st.(todos := st.todos - {id}), JsonReply(200, DeletedMessage))
  }
}
