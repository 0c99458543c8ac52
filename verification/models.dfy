/** The records exchanged between the components, the store and the remote service. */
module Models {
  import opened Wrappers

  /** A todo item as the remote service returns it. The timestamps are carried
      through untouched and never interpreted. */
  datatype Todo = Todo(
    id: int,
    message: string,
    completed: bool,
    createdAt: Option<string>,
    updatedAt: Option<string>)

  /** Body of a create request; `completed` may be omitted. */
  datatype CreateTodoRequest = CreateTodoRequest(message: string, completed: Option<bool>)

  /** Body of a partial update; either field may be omitted. */
  datatype UpdateTodoRequest = UpdateTodoRequest(message: Option<string>, completed: Option<bool>)

  /** Some position of the list holds the given id. */
  predicate HasId(ts: seq<Todo>, id: int)
  {
    exists i :: 0 <= i < |ts| && ts[i].id == id
  }

  /** No two positions of the list hold the same id. Nothing in the client
      enforces this; it appears only as a hypothesis of lemmas. */
  predicate UniqueIds(ts: seq<Todo>)
  {
    forall i, j :: 0 <= i < j < |ts| ==> ts[i].id != ts[j].id
  }
}
