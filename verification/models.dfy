/**
 The two tables the request handlers read and write: users and to-do items.
 The ORM classes themselves are not part of this model; their shape is the one
 the handlers and forms use (User.username, User.password, Todo.title,
 Todo.done, Todo.user_id).
 */
module Models {
  import opened Wrappers

  type UserId = nat
  /** The largest value a SQLite INTEGER column can hold (signed 64-bit). */
  const MaxRowId: int := 0x7FFF_FFFF_FFFF_FFFF

  /** The primary key of a stored to-do: always within SQLite's INTEGER range. */
  type TaskId = x: nat | x <= MaxRowId

  /** An id taken from a URL: the `<int:...>` converter accepts any non-negative integer. */
  type RequestedId = nat

  /** A password digest as produced by the hashing library; never inspected here. */
  type Hash = string

  datatype User = User(id: UserId, username: string, password: Hash)

  /** The user table in row order, which is the order `.first()` scans. */
  type UserTable = seq<User>

  datatype Todo = Todo(title: string, done: bool, owner: UserId)

  /** The to-do table, keyed by primary key. */
  type TodoTable = map<TaskId, Todo>

  /** What the database supplies for a freshly inserted to-do row: its primary
      key and the default value of its done column. */
  datatype NewRow = NewRow(id: TaskId, done: bool)

  /** The columns of a to-do that the handlers hand back to the client. */
  datatype Row = Row(id: TaskId, title: string, done: bool)

  function UserIds(users: UserTable): (ids: set<UserId>)
  {
    set u | u in users :: u.id
  }

  predicate HasUsername(users: UserTable, name: string)
  {
    exists i :: 0 <= i < |users| && users[i].username == name
  }

  /** No two rows of the user table share a username. */
  predicate UniqueUsernames(users: UserTable)
  {
    forall i, j :: 0 <= i < j < |users| ==> users[i].username != users[j].username
  }

  /** No two rows of the user table share a primary key. */
  predicate UniqueIds(users: UserTable)
  {
    forall i, j :: 0 <= i < j < |users| ==> users[i].id != users[j].id
  }

  /** `User.query.filter_by(username=name).first()`: the first row, in table
      order, whose username is `name`. */
  function FindByUsername(users: UserTable, name: string): (r: Option<User>)
    ensures r.None? <==> !HasUsername(users, name)
    ensures r.Some? ==> r.value in users && r.value.username == name
    ensures r.Some? ==> exists i :: 0 <= i < |users| && users[i] == r.value
                                     && forall j :: 0 <= j < i ==> users[j].username != name
  {
    if |users| == 0 then None
    else if users[0].username == name then Some(users[0])
    else
      var r := FindByUsername(users[1..], name);
      assert r.Some? ==> exists i :: 1 <= i < |users| && users[i] == r.value
                                     && forall j :: 0 <= j < i ==> users[j].username != name by {
        if r.Some? {
          var k :| 0 <= k < |users[1..]| && users[1..][k] == r.value
                   && forall j :: 0 <= j < k ==> users[1..][j].username != name;
          assert users[k + 1] == r.value;
        }
      }
      assert HasUsername(users, name) ==> HasUsername(users[1..], name) by {
        if HasUsername(users, name) {
          var k :| 0 <= k < |users| && users[k].username == name;
          assert users[1..][k - 1].username == name;
        }
      }
      r
  }

  /** With unique usernames the first match is the only match. */
  lemma FindByUsernameUnique(users: UserTable, name: string, u: User)
    requires UniqueUsernames(users)
    ensures FindByUsername(users, name) == Some(u) <==> u in users && u.username == name
  {
  }

  /** The task `id` exists and belongs to `user`: the guard
      `todo and todo.user_id == current_user.id`. */
  predicate OwnedBy(todos: TodoTable, id: RequestedId, user: UserId)
  {
    id in todos && todos[id].owner == user
  }

  function RowOf(todos: TodoTable, id: TaskId): (row: Row)
    requires id in todos
  {
    Row(id, todos[id].title, todos[id].done)
  }

  /** `Todo.query.filter_by(user_id=user).all()`, as the rows handed to the client. */
  function ListOwned(todos: TodoTable, user: UserId): (rows: set<Row>)
    ensures forall r :: r in rows ==> OwnedBy(todos, r.id, user) && r == RowOf(todos, r.id)
    ensures forall id :: OwnedBy(todos, id, user) ==> RowOf(todos, id) in rows
  {
    set id | id in todos && todos[id].owner == user :: RowOf(todos, id)
  }

  /** The part of the to-do table that belongs to `user`. */
  function OwnedView(todos: TodoTable, user: UserId): (v: TodoTable)
  {
    map id | id in todos && todos[id].owner == user :: todos[id]
  }
}
