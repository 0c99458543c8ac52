/** Properties of the store that relate several operations or several states. */
module TodoServiceProperties {
  import opened Wrappers
  import opened Models
  import opened Collections
  import opened TodoLists
  import opened TodoService

  /** In every state the two views partition the list, so `todoCount`, which
      is their combined size, is the length of the list. */
  lemma ViewsPartition(s: State)
    ensures multiset(ActiveTodos(s)) + multiset(CompletedTodos(s)) == multiset(s.todos)
    ensures TodoCount(s) == |s.todos|
  {
    ViewsPartitionList(s.todos);
    assert |multiset(ActiveTodos(s)) + multiset(CompletedTodos(s))| == |multiset(s.todos)|;
  }

  /** A successful create extends exactly one of the two views, at its end. */
  lemma CreateExtendsOneView(s: State, req: CreateTodoRequest, t: Todo)
    ensures var s' := CreateTodo(s, req, Ok(Some(t))).next;
      && CompletedTodos(s') == CompletedTodos(s) + (if t.completed then [t] else [])
      && ActiveTodos(s') == ActiveTodos(s) + (if t.completed then [] else [t])
  {
    var s' := CreateTodo(s, req, Ok(Some(t))).next;
    assert s'.todos == s.todos + [t];
    FilterAppend(s.todos, [t], IsCompleted);
    assert Filter([t], IsCompleted) == (if t.completed then [t] else []);
    FilterAppend(s.todos, [t], IsActive);
    assert Filter([t], IsActive) == (if t.completed then [] else [t]);
  }

  /** A successful load forgets the previous list, error and loading flag. */
  lemma LoadForgetsPrevious(s1: State, s2: State, outcome: Outcome<seq<Todo>>)
    requires outcome.Ok? && s1.baseUrl == s2.baseUrl
    ensures LoadTodos(s1, outcome).next == LoadTodos(s2, outcome).next
  {
  }

  /** A successful delete keeps the survivors in their order: it acts on each
      part of a split list separately. */
  lemma DeleteKeepsOrder<T>(s: State, a: seq<Todo>, b: seq<Todo>, id: int, response: Option<T>)
    requires s.todos == a + b
    ensures DeleteTodo(s, id, Ok(response)).next.todos == WithoutId(a, id) + WithoutId(b, id)
  {
    WithoutIdAppend(a, b, id);
  }

  /** Deleting a freshly created item undoes the create. */
  lemma CreateThenDeleteRestores<T>(s: State, req: CreateTodoRequest, t: Todo, response: Option<T>)
    requires !HasId(s.todos, t.id)
    ensures DeleteTodo(CreateTodo(s, req, Ok(Some(t))).next, t.id, Ok(response)).next.todos == s.todos
  {
    WithoutIdAppend(s.todos, [t], t.id);
    assert WithoutId([t], t.id) == [];
  }

  /** A delete that succeeded twice is no different from one that succeeded once. */
  lemma DeleteIdempotent<T>(s: State, id: int, response: Option<T>)
    ensures var once := DeleteTodo(s, id, Ok(response)).next;
      DeleteTodo(once, id, Ok(response)).next == once
  {
  }

  /** With unique ids, a successful delete drops exactly the one matching item. */
  lemma DeleteRemovesExactlyOne<T>(s: State, k: nat, response: Option<T>)
    requires UniqueIds(s.todos) && k < |s.todos|
    ensures DeleteTodo(s, s.todos[k].id, Ok(response)).next.todos == s.todos[..k] + s.todos[k + 1..]
    ensures TodoCount(DeleteTodo(s, s.todos[k].id, Ok(response)).next) == TodoCount(s) - 1
  {
    WithoutIdUnique(s.todos, k);
  }

  /** A create whose server-assigned id is new keeps ids unique. */
  lemma CreateKeepsUniqueIds(s: State, req: CreateTodoRequest, t: Todo)
    requires UniqueIds(s.todos) && !HasId(s.todos, t.id)
    ensures UniqueIds(CreateTodo(s, req, Ok(Some(t))).next.todos)
  {
  }

  /** An update whose response keeps its id keeps the ids of the list unchanged. */
  lemma UpdateKeepsIds(s: State, id: int, patch: UpdateTodoRequest, t: Todo)
    requires t.id == id
    ensures var ts := UpdateTodo(s, id, patch, Ok(Some(t))).next.todos;
      forall i :: 0 <= i < |ts| ==> ts[i].id == s.todos[i].id
  {
  }

  /** The item an idealised server returns for a patch: the named fields
      overwritten, everything else kept. */
  function ServerPatched(t: Todo, patch: UpdateTodoRequest): Todo
  {
    t.(message := if patch.message.Some? then patch.message.value else t.message,
       completed := if patch.completed.Some? then patch.completed.value else t.completed)
  }

  /** With unique ids and a server that honours the patch, toggling twice gives back the list. */
  lemma ToggleTwiceRestores(s: State, k: nat)
    requires UniqueIds(s.todos) && k < |s.todos|
    ensures var t := s.todos[k];
      var once := ToggleTodo(s, t.id, Ok(Some(ServerPatched(t, TogglePatch(t))))).next;
      var flipped := ServerPatched(t, TogglePatch(t));
      ToggleTodo(once, t.id, Ok(Some(ServerPatched(flipped, TogglePatch(flipped))))).next.todos == s.todos
  {
    var t := s.todos[k];
    var flipped := ServerPatched(t, TogglePatch(t));
    ReplaceByIdUnique(s.todos, k, flipped);
    var once := ToggleTodo(s, t.id, Ok(Some(flipped))).next;
    assert once.todos == s.todos[k := flipped];
    assert UniqueIds(once.todos);
    ReplaceByIdUnique(once.todos, k, t);
    assert ServerPatched(flipped, TogglePatch(flipped)) == t;
    assert once.todos[k := t] == s.todos;
  }

  /** Creating "Buy milk" and toggling the returned item leaves a completed
      "Buy milk" in the list, given a server that assigns a new id, keeps the
      requested message and honours the toggle. */
  lemma CreateThenToggle(s: State, t: Todo)
    requires !HasId(s.todos, t.id)
    requires t.message == "Buy milk" && !t.completed
    ensures var created := CreateTodo(s, CreateTodoRequest("Buy milk", None), Ok(Some(t))).next;
      var toggled := ToggleTodo(created, t.id, Ok(Some(ServerPatched(t, TogglePatch(t))))).next;
      exists i :: 0 <= i < |toggled.todos| && toggled.todos[i].id == t.id
        && toggled.todos[i].message == "Buy milk" && toggled.todos[i].completed
  {
    var created := CreateTodo(s, CreateTodoRequest("Buy milk", None), Ok(Some(t))).next;
    var k := |s.todos|;
    assert created.todos[k] == t;
    assert forall j :: 0 <= j < k ==> created.todos[j].id != t.id by {
      forall j | 0 <= j < k ensures created.todos[j].id != t.id {
        assert created.todos[j] == s.todos[j];
      }
    }
    var toggled := ToggleTodo(created, t.id, Ok(Some(ServerPatched(t, TogglePatch(t))))).next;
    assert toggled.todos[k] == ServerPatched(t, TogglePatch(t));
  }

  // Sequences of operations.

  /** One call of a store operation, together with how its remote call settles. */
  datatype Action =
    | Load(loaded: Outcome<seq<Todo>>)
    | Create(req: CreateTodoRequest, created: Outcome<Todo>)
    | Update(id: int, patch: UpdateTodoRequest, updated: Outcome<Todo>)
    | Delete(id: int, deleted: Outcome<()>)
    | Toggle(id: int, toggled: Outcome<Todo>)

  function Apply(s: State, a: Action): Step
  {
    match a
    case Load(o) => LoadTodos(s, o)
    case Create(req, o) => CreateTodo(s, req, o)
    case Update(id, patch, o) => UpdateTodo(s, id, patch, o)
    case Delete(id, o) => DeleteTodo(s, id, o)
    case Toggle(id, o) => ToggleTodo(s, id, o)
  }

  /** The state after the actions run one after another, each settling before the next. */
  function Run(s: State, actions: seq<Action>): State
    decreases |actions|
  {
    if actions == [] then s else Run(Apply(s, actions[0]).next, actions[1..])
  }

  /** Once settled, the store stays settled: no operation leaves `loading` set. */
  lemma {:induction false} RunStaysSettled(s: State, actions: seq<Action>)
    requires !s.loading
    ensures !Run(s, actions).loading
    ensures Run(s, actions).baseUrl == s.baseUrl
    decreases |actions|
  {
    if actions != [] {
      RunStaysSettled(Apply(s, actions[0]).next, actions[1..]);
    }
  }

  predicate IsSuccessfulCreate(a: Action)
  {
    a.Create? && a.created.Ok? && a.created.response.Some?
  }

  /** Every successful create adds exactly one item, so n of them add n, and
      the earlier list stays in front. */
  lemma {:induction false} RunCreatesCount(s: State, actions: seq<Action>)
    requires forall i :: 0 <= i < |actions| ==> IsSuccessfulCreate(actions[i])
    ensures TodoCount(Run(s, actions)) == TodoCount(s) + |actions|
    ensures Run(s, actions).todos[..|s.todos|] == s.todos
    decreases |actions|
  {
    if actions != [] {
      var next := Apply(s, actions[0]).next;
      RunCreatesCount(next, actions[1..]);
      assert next.todos[..|s.todos|] == s.todos;
      assert Run(s, actions).todos[..|next.todos|][..|s.todos|] == s.todos;
    }
  }
}
