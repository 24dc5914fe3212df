/**
 Properties that relate several handler calls: idempotence, agreement between
 the page and the JSON surfaces, and what a listing shows after a create.
 */
module RouteProperties {
  import opened Wrappers
  import opened Models
  import opened Routes

  /** Marking a task done twice leaves the same state and response as marking it once. */
  lemma MarkDoneIdempotent(st: AppState, id: RequestedId)
    ensures MarkDone(MarkDone(st, id).state, id) == MarkDone(st, id)
  {
  }

  /** A second JSON delete of the same task is answered 404 and changes nothing. */
  lemma ApiDeleteTwiceNotFound(st: AppState, id: RequestedId)
    requires Authorized(st, id)
    ensures var s1 := ApiDeleteTodo(st, id).state;
            ApiDeleteTodo(s1, id) == Transition(s1, JsonReply(404, ErrorObject(NotFoundOrUnauthorized)))
  {
  }

  /** A second page delete of the same task is silently ignored. */
  lemma DeleteTwiceNoOp(st: AppState, id: RequestedId)
    ensures var s1 := Delete(st, id).state;
            Delete(s1, id) == Transition(s1, Delete(st, id).response)
  {
  }

  /** The JSON delete and the page delete make the same change to the store;
      they differ only in how they answer. */
  lemma ApiDeleteAgreesWithDelete(st: AppState, id: RequestedId)
    ensures ApiDeleteTodo(st, id).state == Delete(st, id).state
  {
  }

  /** A JSON update carrying only `done: true` makes the same change as the
      page's mark-done. */
  lemma ApiUpdateDoneAgreesWithMarkDone(st: AppState, id: RequestedId)
    ensures ApiUpdateTodo(st, id, UpdateBody(None, Some(true))).state == MarkDone(st, id).state
  {
  }

  /** A JSON update with an empty body changes nothing. */
  lemma ApiUpdateEmptyBodyNoChange(st: AppState, id: RequestedId)
    ensures ApiUpdateTodo(st, id, UpdateBody(None, None)).state == st
  {
  }

  /** The page listing and the JSON listing show the same rows. */
  lemma ListingsAgree(st: AppState, title: Option<string>, row: NewRow)
    requires CurrentUser(st).Some?
    ensures TodoList(st, Get, title, row).response.rows == ApiGetTodos(st).response.body.rows
  {
  }

  /** After a JSON create, the JSON listing shows the earlier rows plus the new one. */
  lemma CreateThenList(st: AppState, title: string, row: NewRow)
    requires CurrentUser(st).Some? && row.id !in st.todos
    ensures var s1 := ApiCreateTodo(st, CreateBody(Some(title)), row).state;
            ApiGetTodos(s1).response.body.rows
              == ListOwned(st.todos, CurrentUser(st).value) + {Row(row.id, title, row.done)}
  {
  }

  /** A task owned by someone other than the current user never shows up in a listing. */
  lemma ForeignTaskNeverListed(st: AppState, id: RequestedId)
    requires CurrentUser(st).Some? && id in st.todos && st.todos[id].owner != CurrentUser(st).value
    ensures forall x :: x in ApiGetTodos(st).response.body.rows ==> x.id != id
  {
  }
}
