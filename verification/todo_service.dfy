/**
 The todo store: one record of state (the list, a loading flag and the last
 error) and five operations. Each remote call is a parameter, so every
 operation is a single atomic step from the old state and the call's outcome
 to the new state, together with the request the store sends.
 */
module TodoService {
  import opened Wrappers
  import opened Models
  import opened Collections
  import opened TodoLists

  /** `baseUrl` is the configured endpoint, fixed at construction. */
  datatype State = State(baseUrl: string, todos: seq<Todo>, loading: bool, error: Option<string>)

  /** How a remote call settled: it resolved with a body that may be null, or it rejected. */
  datatype Outcome<T> = Ok(response: Option<T>) | Fail

  /** The HTTP request an operation issues. */
  datatype Request =
    | HttpGet
    | HttpPost(body: CreateTodoRequest)
    | HttpPatch(id: int, patch: UpdateTodoRequest)
    | HttpDelete(id: int)

  /** The state after an operation, and the request it sent (if any). */
  datatype Step = Step(next: State, request: Option<Request>)

  const CreateFailedMessage: string := "Failed to create todo"
  const UpdateFailedMessage: string := "Failed to update todo"
  const DeleteFailedMessage: string := "Failed to delete todo"

  /** The load error names the endpoint and is told apart from the other three. */
  function LoadFailedMessage(baseUrl: string): (r: string)
    ensures |r| == 26 + |baseUrl|
    ensures r[..26] == "Failed to load todos from " && r[26..] == baseUrl
    ensures r != CreateFailedMessage && r != UpdateFailedMessage && r != DeleteFailedMessage
  {
    "Failed to load todos from " + baseUrl
  }

  /** The state the field initialisers give: empty list, not loading, no error.
      The constructor then starts the first load at once, so until that load
      settles the store is in `Begin(Initial(baseUrl))`, which is loading. */
  function Initial(baseUrl: string): (r: State)
    ensures r.baseUrl == baseUrl && r.todos == [] && !r.loading && r.error == None
    ensures ActiveTodos(r) == [] && CompletedTodos(r) == [] && TodoCount(r) == 0
  {
    State(baseUrl, [], false, None)
  }

  // Derived views: pure functions of the list, never cached.

  predicate IsCompleted(t: Todo) { t.completed }

  predicate IsActive(t: Todo) { !t.completed }

  function CompletedTodos(s: State): (r: seq<Todo>)
    ensures forall i :: 0 <= i < |r| ==> r[i] in s.todos && r[i].completed
    ensures forall i :: 0 <= i < |s.todos| && s.todos[i].completed ==> s.todos[i] in r
  {
    Filter(s.todos, IsCompleted)
  }

  function ActiveTodos(s: State): (r: seq<Todo>)
    ensures forall i :: 0 <= i < |r| ==> r[i] in s.todos && !r[i].completed
    ensures forall i :: 0 <= i < |s.todos| && !s.todos[i].completed ==> s.todos[i] in r
  {
    Filter(s.todos, IsActive)
  }

  /** `todoCount`: the list's length, which the two views share between them. */
  function TodoCount(s: State): (r: nat)
    ensures r == |ActiveTodos(s)| + |CompletedTodos(s)|
  {
    ViewsPartitionList(s.todos);
    assert |multiset(ActiveTodos(s)) + multiset(CompletedTodos(s))| == |multiset(s.todos)|;
    |s.todos|
  }

  /** The active and completed filters split the list: together they hold
      every item exactly as often as the list does. */
  lemma {:induction false} ViewsPartitionList(ts: seq<Todo>)
    ensures multiset(Filter(ts, IsActive)) + multiset(Filter(ts, IsCompleted)) == multiset(ts)
    decreases |ts|
  {
    if ts != [] {
      var head, rest := [ts[0]], ts[1..];
      ViewsPartitionList(rest);
      assert ts == head + rest;
      FilterAppend(head, rest, IsActive);
      FilterAppend(head, rest, IsCompleted);
      assert multiset(Filter(head, IsActive)) + multiset(Filter(head, IsCompleted)) == multiset(head);
    }
  }

  /** What every remote-backed operation does before it awaits the call. */
  function Begin(s: State): (r: State)
    ensures r.loading && r.error == None
    ensures r.todos == s.todos && r.baseUrl == s.baseUrl
  {
    s.(loading := true, error := None)
  }

  /**
   The shared try/catch/finally shape: begin, send `request`, then either
   install the new list (`result` is Some: the call resolved) or record
   `failure` (`result` is None: the call rejected), and in both cases clear
   the loading flag.
   */
  function Settle(s: State, request: Request, result: Option<seq<Todo>>, failure: string): (r: Step)
    ensures r.request == Some(request)
    ensures !r.next.loading && r.next.baseUrl == s.baseUrl
    ensures result.Some? ==> r.next.todos == result.value && r.next.error == None
    ensures result.None? ==> r.next.todos == s.todos && r.next.error == Some(failure)
  {
    var started := Begin(s);
    var settled := match result
      case Some(todos) => started.(todos := todos)
      case None => started.(error := Some(failure));
    Step(settled.(loading := false), Some(request))
  }

  /** `loadTodos`: replace the list wholesale; a null body counts as an empty list. */
  function LoadTodos(s: State, outcome: Outcome<seq<Todo>>): (r: Step)
    ensures r.request == Some(HttpGet)
    ensures !r.next.loading
    ensures outcome == Ok(None) ==> r.next.todos == [] && r.next.error == None
    ensures forall ts :: outcome == Ok(Some(ts)) ==> r.next.todos == ts && r.next.error == None
    ensures outcome.Fail? ==> r.next.todos == s.todos && r.next.error == Some(LoadFailedMessage(s.baseUrl))
  {
    var result := match outcome
      case Ok(response) => Some(if response.Some? then response.value else [])
      case Fail => None;
    Settle(s, HttpGet, result, LoadFailedMessage(s.baseUrl))
  }

  /** `createTodo`: the request is sent whatever the message; a non-null
      response is appended, a null one leaves the list as it is. */
  function CreateTodo(s: State, req: CreateTodoRequest, outcome: Outcome<Todo>): (r: Step)
    ensures r.request == Some(HttpPost(req))
    ensures !r.next.loading
    ensures outcome.Ok? ==> r.next.error == None
    ensures forall t :: outcome == Ok(Some(t)) ==>
      && r.next.todos == s.todos + [t]
      && |r.next.todos| == |s.todos| + 1
      && r.next.todos[..|s.todos|] == s.todos
    ensures outcome == Ok(None) ==> r.next.todos == s.todos
    ensures outcome.Fail? ==> r.next.todos == s.todos && r.next.error == Some(CreateFailedMessage)
  {
    var result := match outcome
      case Ok(Some(created)) => Some(s.todos + [created])
      case Ok(None) => Some(s.todos)
      case Fail => None;
    Settle(s, HttpPost(req), result, CreateFailedMessage)
  }

  /** `updateTodo`: a non-null response replaces every item with that id. */
  function UpdateTodo(s: State, id: int, patch: UpdateTodoRequest, outcome: Outcome<Todo>): (r: Step)
    ensures r.request == Some(HttpPatch(id, patch))
    ensures !r.next.loading
    ensures outcome.Ok? ==> r.next.error == None
    ensures forall t :: outcome == Ok(Some(t)) ==>
      && |r.next.todos| == |s.todos|
      && (forall i :: 0 <= i < |s.todos| && s.todos[i].id == id ==> r.next.todos[i] == t)
      && (forall i :: 0 <= i < |s.todos| && s.todos[i].id != id ==> r.next.todos[i] == s.todos[i])
    ensures outcome == Ok(None) || !HasId(s.todos, id) ==> r.next.todos == s.todos
    ensures outcome.Fail? ==> r.next.todos == s.todos && r.next.error == Some(UpdateFailedMessage)
  {
    var result := match outcome
      case Ok(Some(updated)) => Some(ReplaceById(s.todos, id, updated))
      case Ok(None) => Some(s.todos)
      case Fail => None;
    Settle(s, HttpPatch(id, patch), result, UpdateFailedMessage)
  }

  /** `deleteTodo`: any resolved response removes every item with that id. */
  function DeleteTodo<T>(s: State, id: int, outcome: Outcome<T>): (r: Step)
    ensures r.request == Some(HttpDelete(id))
    ensures !r.next.loading
    ensures outcome.Ok? ==> r.next.error == None
    ensures outcome.Ok? ==> r.next.todos == WithoutId(s.todos, id)
    ensures outcome.Ok? ==> !HasId(r.next.todos, id)
    ensures outcome.Ok? ==> forall i :: 0 <= i < |s.todos| && s.todos[i].id != id ==> s.todos[i] in r.next.todos
    ensures outcome.Ok? ==> forall i :: 0 <= i < |r.next.todos| ==> r.next.todos[i] in s.todos
    ensures outcome.Fail? || !HasId(s.todos, id) ==> r.next.todos == s.todos
    ensures outcome.Fail? ==> r.next.error == Some(DeleteFailedMessage)
  {
    var result := match outcome
      case Ok(_) => Some(WithoutId(s.todos, id))
      case Fail => None;
    Settle(s, HttpDelete(id), result, DeleteFailedMessage)
  }

  /** The patch `toggleTodo` sends for an item. */
  function TogglePatch(t: Todo): (r: UpdateTodoRequest)
    ensures r.message == None && r.completed.Some? && r.completed.value != t.completed
  {
    UpdateTodoRequest(None, Some(!t.completed))
  }

  /** `toggleTodo`: an absent id is a no-op with no request; otherwise it is
      `updateTodo` flipping the first match's completion flag. */
  function ToggleTodo(s: State, id: int, outcome: Outcome<Todo>): (r: Step)
    ensures !HasId(s.todos, id) ==> r == Step(s, None)
    ensures forall k :: 0 <= k < |s.todos| && s.todos[k].id == id && (forall j :: 0 <= j < k ==> s.todos[j].id != id) ==>
      r == UpdateTodo(s, id, TogglePatch(s.todos[k]), outcome)
  {
    match FirstIndexById(s.todos, id)
    case None => Step(s, None)
    case Some(k) =>
      assert forall k' :: 0 <= k' < |s.todos| && s.todos[k'].id == id && (forall j :: 0 <= j < k' ==> s.todos[j].id != id) ==> k' == k;
      UpdateTodo(s, id, TogglePatch(s.todos[k]), outcome)
  }

  /** The store's constructor starts a load at once. */
  function Construct(baseUrl: string, outcome: Outcome<seq<Todo>>): (r: Step)
    ensures r.next.baseUrl == baseUrl && !r.next.loading
    ensures outcome.Ok? ==> r.next.error == None
    ensures forall ts :: outcome == Ok(Some(ts)) ==> r.next.todos == ts
    ensures outcome == Ok(None) ==> r.next.todos == []
    ensures outcome.Fail? ==> r.next.todos == [] && r.next.error == Some(LoadFailedMessage(baseUrl))
  {
    LoadTodos(Initial(baseUrl), outcome)
  }
}
