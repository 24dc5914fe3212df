/**
 A complete client session on an empty application: register, log in, create a
 task through the JSON API, update it to done through the JSON API, list,
 delete, list again.
 */
module Scenario {
  import opened Wrappers
  import opened Models
  import opened Forms
  import opened Routes
  import opened App

  const Empty := AppState([], map[], None)

  /** The state once "alice" is registered with the given digest and logged in. */
  function LoggedIn(hashed: Hash): (st: AppState)
  {
    AppState([User(1, "alice", hashed)], map[], Some(1))
  }

  /** `LoggedIn` with alice owning the single task "buy milk" under `row.id`. */
  function WithTask(hashed: Hash, row: NewRow, done: bool): (st: AppState)
  {
    LoggedIn(hashed).(todos := map[row.id := Todo("buy milk", done, 1)])
  }

  lemma RegisterAndLogin(check: (Hash, string) -> bool, hashed: Hash)
    requires check(hashed, "secret1")
    ensures var t1 := Step(Empty, RegisterRequest(Post, RegistrationForm("alice", "secret1", "secret1"), 1, hashed), check);
            && t1 == Transition(LoggedIn(hashed).(session := None), Redirect(LoginPage))
            && Step(t1.state, LoginRequest(Post, LoginForm("alice", "secret1")), check)
                 == Transition(LoggedIn(hashed), Redirect(TodoPage))
  {
    var form := RegistrationForm("alice", "secret1", "secret1");
    assert RegistrationValid(form, []) by {
      assert !IsWhitespace(form.username[0]);
      assert !IsWhitespace(form.password[0]);
    }
    assert LoginValid(LoginForm("alice", "secret1")) by {
      assert !IsWhitespace("alice"[0]);
      assert !IsWhitespace("secret1"[0]);
    }
  }

  lemma CreateUpdate(check: (Hash, string) -> bool, hashed: Hash, row: NewRow)
    requires !row.done
    ensures var t3 := Step(LoggedIn(hashed), ApiCreateRequest(CreateBody(Some("buy milk")), row), check);
            && t3 == Transition(WithTask(hashed, row, false), JsonReply(201, TaskObject(Row(row.id, "buy milk", false))))
            && Step(t3.state, ApiUpdateRequest(row.id, UpdateBody(None, Some(true))), check)
                 == Transition(WithTask(hashed, row, true), JsonReply(200, TaskObject(Row(row.id, "buy milk", true))))
  {
  }

  lemma ListDeleteList(check: (Hash, string) -> bool, hashed: Hash, row: NewRow)
    ensures var s := WithTask(hashed, row, true);
            && Step(s, ApiListRequest, check) == Transition(s, JsonReply(200, TaskArray({Row(row.id, "buy milk", true)})))
            && Step(s, ApiDeleteRequest(row.id), check) == Transition(LoggedIn(hashed), JsonReply(200, DeletedMessage))
            && Step(LoggedIn(hashed), ApiListRequest, check) == Transition(LoggedIn(hashed), JsonReply(200, TaskArray({})))
  {
  }

  /** Register "alice"/"secret1", log in, create "buy milk" (201, not done),
      update it with done = true through the API (200), list it, delete it (200), and find the list empty. */
  lemma EndToEnd(check: (Hash, string) -> bool, hashed: Hash, row: NewRow)
    requires check(hashed, "secret1") && !row.done
    ensures
      var t1 := Step(Empty, RegisterRequest(Post, RegistrationForm("alice", "secret1", "secret1"), 1, hashed), check);
      var t2 := Step(t1.state, LoginRequest(Post, LoginForm("alice", "secret1")), check);
      var t3 := Step(t2.state, ApiCreateRequest(CreateBody(Some("buy milk")), row), check);
      var t4 := Step(t3.state, ApiUpdateRequest(row.id, UpdateBody(None, Some(true))), check);
      var t5 := Step(t4.state, ApiListRequest, check);
      var t6 := Step(t5.state, ApiDeleteRequest(row.id), check);
      var t7 := Step(t6.state, ApiListRequest, check);
      && t1.response == Redirect(LoginPage)
      && t2.response == Redirect(TodoPage)
      && t3.response == JsonReply(201, TaskObject(Row(row.id, "buy milk", false)))
      && t4.response == JsonReply(200, TaskObject(Row(row.id, "buy milk", true)))
      && t5.response == JsonReply(200, TaskArray({Row(row.id, "buy milk", true)}))
      && t6.response == JsonReply(200, DeletedMessage)
      && t7.response == JsonReply(200, TaskArray({}))
  {
    RegisterAndLogin(check, hashed);
    CreateUpdate(check, hashed, row);
    ListDeleteList(check, hashed, row);
  }
}
