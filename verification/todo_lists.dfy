/** The pure list transformations the store applies once a remote call succeeds. */
module TodoLists {
  import opened Wrappers
  import opened Models
  import opened Collections

  /** `todos.find(t => t.id === id)`, as the position of the first match. */
  function FirstIndexById(ts: seq<Todo>, id: int): (r: Option<nat>)
    ensures r.None? <==> !HasId(ts, id)
    ensures r.Some? ==> r.value < |ts| && ts[r.value].id == id
    ensures r.Some? ==> forall j :: 0 <= j < r.value ==> ts[j].id != id
  {
    if ts == [] then None
    else if ts[0].id == id then Some(0)
    else match FirstIndexById(ts[1..], id)
      case None => (assert forall i :: 1 <= i < |ts| ==> ts[i] == ts[1..][i - 1]; None)
      case Some(k) => Some(k + 1)
  }

  /** `todos.map(todo => todo.id === id ? updated : todo)`. */
  function ReplaceById(ts: seq<Todo>, id: int, updated: Todo): (r: seq<Todo>)
    ensures |r| == |ts|
    ensures forall i :: 0 <= i < |ts| && ts[i].id == id ==> r[i] == updated
    ensures forall i :: 0 <= i < |ts| && ts[i].id != id ==> r[i] == ts[i]
  {
    if ts == [] then []
    else [if ts[0].id == id then updated else ts[0]] + ReplaceById(ts[1..], id, updated)
  }

  /** The filter test of a delete: keep every item whose id differs. */
  function KeepsOtherThan(id: int): Todo -> bool
  {
    (t: Todo) => t.id != id
  }

  /** `todos.filter(todo => todo.id !== id)`. */
  function WithoutId(ts: seq<Todo>, id: int): (r: seq<Todo>)
    ensures !HasId(r, id)
    ensures forall i :: 0 <= i < |r| ==> r[i] in ts
    ensures forall i :: 0 <= i < |ts| && ts[i].id != id ==> ts[i] in r
    ensures !HasId(ts, id) ==> r == ts
  {
    FilterKeepsAll(ts, KeepsOtherThan(id));
    Filter(ts, KeepsOtherThan(id))
  }

  /** Removing an id distributes over concatenation: survivors keep their order. */
  lemma WithoutIdAppend(a: seq<Todo>, b: seq<Todo>, id: int)
    ensures WithoutId(a + b, id) == WithoutId(a, id) + WithoutId(b, id)
  {
    FilterAppend(a, b, KeepsOtherThan(id));
  }

  /** With unique ids, no position before `k` holds the id at `k`. */
  lemma NoIdBefore(ts: seq<Todo>, k: nat)
    requires UniqueIds(ts) && k < |ts|
    ensures !HasId(ts[..k], ts[k].id)
  {
  }

  /** With unique ids, no position after `k` holds the id at `k`. */
  lemma NoIdAfter(ts: seq<Todo>, k: nat)
    requires UniqueIds(ts) && k < |ts|
    ensures !HasId(ts[k + 1..], ts[k].id)
  {
  }

  /** With unique ids, removing a present id deletes exactly its one position. */
  lemma WithoutIdUnique(ts: seq<Todo>, k: nat)
    requires UniqueIds(ts)
    requires k < |ts|
    ensures WithoutId(ts, ts[k].id) == ts[..k] + ts[k + 1..]
  {
    var id := ts[k].id;
    var prefix, rest := ts[..k], [ts[k]] + ts[k + 1..];
    assert ts == prefix + rest;
    NoIdBefore(ts, k);
    NoIdAfter(ts, k);
    WithoutIdAppend(prefix, rest, id);
    WithoutIdAppend([ts[k]], ts[k + 1..], id);
    assert WithoutId([ts[k]], id) == [];
    assert WithoutId(rest, id) == ts[k + 1..];
  }

  /** With unique ids, replacing a present id updates exactly its one position. */
  lemma ReplaceByIdUnique(ts: seq<Todo>, k: nat, updated: Todo)
    requires UniqueIds(ts)
    requires k < |ts|
    ensures ReplaceById(ts, ts[k].id, updated) == ts[k := updated]
  {
  }
}
