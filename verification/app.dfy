/**
 The application as a whole: one request at a time for a single client,
 dispatched to the matching handler. Here live the invariants that hold over
 every request (unique usernames, owners that exist, owners that never change)
 and the authorisation property over whole request sequences: a user's tasks
 change only during requests made as that user.
 */
module App {
  import opened Wrappers
  import opened Models
  import opened Forms
  import opened Routes

  datatype Request =
    | RegisterRequest(verb: Method, regForm: RegistrationForm, newUser: UserId, hashed: Hash)
    | LoginRequest(verb: Method, loginForm: LoginForm)
    | LogoutRequest
    | TodoRequest(verb: Method, title: Option<string>, row: NewRow)
    | MarkDoneRequest(id: RequestedId)
    | DeleteRequest(id: RequestedId)
    | ApiListRequest
    | ApiCreateRequest(createBody: CreateBody, row: NewRow)
    | ApiUpdateRequest(id: RequestedId, updateBody: UpdateBody)
    | ApiDeleteRequest(id: RequestedId)

  /** The primary keys the database hands out for inserted rows are unused. */
  predicate Fresh(st: AppState, req: Request)
  {
    match req
    case RegisterRequest(_, _, newUser, _) => newUser !in UserIds(st.users)
    case TodoRequest(verb, _, row) => verb == Post ==> row.id !in st.todos
    case ApiCreateRequest(_, row) => row.id !in st.todos
    case _ => true
  }

  /** Routes one request to its handler; `check` decides whether a stored
      password digest matches a submitted password. */
  function Step(st: AppState, req: Request, check: (Hash, string) -> bool): (r: Transition)
    requires Fresh(st, req)
    ensures r.state.users == st.users || (req.RegisterRequest? && r.state.todos == st.todos)
  {
    match req
    case RegisterRequest(verb, form, newUser, hashed) => Register(st, verb, form, newUser, hashed)
    case LoginRequest(verb, form) => Login(st, verb, form, check)
    case LogoutRequest => Logout(st)
    case TodoRequest(verb, title, row) => TodoList(st, verb, title, row)
    case MarkDoneRequest(id) => MarkDone(st, id)
    case DeleteRequest(id) => Delete(st, id)
    case ApiListRequest => ApiGetTodos(st)
    case ApiCreateRequest(body, row) => ApiCreateTodo(st, body, row)
    case ApiUpdateRequest(id, body) => ApiUpdateTodo(st, id, body)
    case ApiDeleteRequest(id) => ApiDeleteTodo(st, id)
  }

  /** Every task's owner is a stored user, and users are unique by id and by name. */
  predicate Inv(st: AppState)
  {
    && UniqueUsernames(st.users)
    && UniqueIds(st.users)
    && forall id :: id in st.todos ==> st.todos[id].owner in UserIds(st.users)
  }

  /** The task ids whose contents a response hands to the client. */
  function Revealed(resp: Response): (ids: set<TaskId>)
  {
    match resp
    case RenderTodos(rows) => set x | x in rows :: x.id
    case JsonReply(_, TaskArray(rows)) => set x | x in rows :: x.id
    case JsonReply(_, TaskObject(row)) => {row.id}
    case _ => {}
  }

  /** Every request keeps the invariant. */
  lemma StepPreservesInv(st: AppState, req: Request, check: (Hash, string) -> bool)
    requires Inv(st) && Fresh(st, req)
    ensures Inv(Step(st, req, check).state)
  {
  }

  /** No request ever reassigns the owner of a task that survives it. */
  lemma StepKeepsOwners(st: AppState, req: Request, check: (Hash, string) -> bool)
    requires Fresh(st, req)
    ensures var r := Step(st, req, check);
            forall id :: id in st.todos && id in r.state.todos ==> r.state.todos[id].owner == st.todos[id].owner
  {
  }

  /** A response only ever shows tasks that belong to the user who made the request. */
  lemma StepRevealsOnlyOwn(st: AppState, req: Request, check: (Hash, string) -> bool)
    requires Fresh(st, req)
    ensures var r := Step(st, req, check);
            forall id :: id in Revealed(r.response) ==>
              CurrentUser(st).Some? && OwnedBy(r.state.todos, id, CurrentUser(st).value)
  {
  }

  /** A request made by anyone but `a` (or by nobody) leaves `a`'s tasks exactly
      as they were: nothing of `a`'s is changed, deleted or added. */
  lemma StepIsolation(st: AppState, req: Request, check: (Hash, string) -> bool, a: UserId)
    requires Fresh(st, req)
    requires CurrentUser(st) != Some(a)
    ensures OwnedView(Step(st, req, check).state.todos, a) == OwnedView(st.todos, a)
  {
  }

  /** Every fresh key of the sequence is unused when its request is handled. */
  predicate Admissible(st: AppState, reqs: seq<Request>, check: (Hash, string) -> bool)
    decreases |reqs|
  {
    |reqs| == 0 || (Fresh(st, reqs[0]) && Admissible(Step(st, reqs[0], check).state, reqs[1..], check))
  }

  /** The state after handling `reqs` in order. */
  function Run(st: AppState, reqs: seq<Request>, check: (Hash, string) -> bool): (final: AppState)
    requires Admissible(st, reqs, check)
    decreases |reqs|
  {
    if |reqs| == 0 then st else Run(Step(st, reqs[0], check).state, reqs[1..], check)
  }

  /** Handling `a + b` is handling `a` and then `b` from where `a` left off. */
  lemma {:induction false} RunAppend(st: AppState, a: seq<Request>, b: seq<Request>, check: (Hash, string) -> bool)
    requires Admissible(st, a + b, check)
    ensures Admissible(st, a, check)
    ensures Admissible(Run(st, a, check), b, check)
    ensures Run(st, a + b, check) == Run(Run(st, a, check), b, check)
    decreases |a|
  {
    if |a| > 0 {
      assert (a + b)[0] == a[0];
      assert (a + b)[1..] == a[1..] + b;
      RunAppend(Step(st, a[0], check).state, a[1..], b, check);
    } else {
      assert a + b == b;
    }
  }

  /** No request of the sequence is handled with `a` as the current user. */
  predicate NeverActsAs(st: AppState, reqs: seq<Request>, check: (Hash, string) -> bool, a: UserId)
    requires Admissible(st, reqs, check)
    decreases |reqs|
  {
    |reqs| == 0
    || (CurrentUser(st) != Some(a) && NeverActsAs(Step(st, reqs[0], check).state, reqs[1..], check, a))
  }

  /** The invariant holds after any admissible request sequence; in particular
      usernames stay unique however many registrations are made. */
  lemma {:induction false} RunPreservesInv(st: AppState, reqs: seq<Request>, check: (Hash, string) -> bool)
    requires Inv(st) && Admissible(st, reqs, check)
    ensures Inv(Run(st, reqs, check))
    decreases |reqs|
  {
    if |reqs| > 0 {
      StepPreservesInv(st, reqs[0], check);
      RunPreservesInv(Step(st, reqs[0], check).state, reqs[1..], check);
    }
  }

  /** The authorisation property over a whole session history: if `a` is never
      the current user, `a`'s tasks end exactly as they began. */
  lemma {:induction false} RunIsolation(st: AppState, reqs: seq<Request>, check: (Hash, string) -> bool, a: UserId)
    requires Admissible(st, reqs, check) && NeverActsAs(st, reqs, check, a)
    ensures OwnedView(Run(st, reqs, check).todos, a) == OwnedView(st.todos, a)
    decreases |reqs|
  {
    if |reqs| > 0 {
      StepIsolation(st, reqs[0], check, a);
      RunIsolation(Step(st, reqs[0], check).state, reqs[1..], check, a);
    }
  }

  /** Registering and then logging in with the same credentials binds the new
      user to the session, provided the stored digest matches the password. */
  lemma RegisterThenLogin(st: AppState, form: RegistrationForm, id: UserId, hashed: Hash,
                          check: (Hash, string) -> bool)
    requires Inv(st) && id !in UserIds(st.users)
    requires RegistrationValid(form, st.users) && check(hashed, form.password)
    ensures var s1 := Register(st, Post, form, id, hashed).state;
            Login(s1, Post, LoginForm(form.username, form.password), check)
              == Transition(s1.(session := Some(id)), Redirect(TodoPage))
  {
  }

  /** Logging in with a password the stored digest does not match leaves the
      session as it was. */
  lemma WrongPasswordRejected(st: AppState, form: LoginForm, u: User, check: (Hash, string) -> bool)
    requires UniqueUsernames(st.users) && u in st.users && u.username == form.username
    requires !check(u.password, form.password)
    ensures Login(st, Post, form, check) == Transition(st, Render(LoginPage))
  {
  }
}
