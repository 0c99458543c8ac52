# Todo list store and components, modelled in Dafny

This project models the state logic of an Angular todo-list client:

- `TodoService`, the store. It holds the list of todos, a `loading` flag and the last error. It exposes three derived views (`completedTodos`, `activeTodos`, `todoCount`) and five operations (`loadTodos`, `createTodo`, `updateTodo`, `deleteTodo`, `toggleTodo`).
- The add-todo form's trim-and-guard rule.
- The per-item edit mode of the todo-item component.

Each remote HTTP call is a parameter rather than a call. `Outcome<T> = Ok(Option<T>) | Fail` says how the call settled: it resolved with a body, which may be null, or it rejected. Each store operation is then one atomic step from the old state and the outcome to the new state. The step also records the `Request` the store sends: a GET, a POST, a PATCH or a DELETE. `toggleTodo` on an absent id sends none. The component handlers are pure functions from the local state to the new state plus the event emitted, if any.

Modules:

- `Wrappers`: `Option`.
- `Text`: JavaScript `trim` over the ECMAScript whitespace and line-terminator set, with its lemmas.
- `Collections`: an order-preserving `Filter`.
- `Models`: `Todo`, `CreateTodoRequest` and `UpdateTodoRequest` (src/app/models/todo.interface.ts), plus `HasId` and `UniqueIds`.
- `TodoLists`: the list transformations `find` by id, `map` replace by id and `filter` out by id.
- `TodoService`: state, views and operations.
- `TodoServiceProperties`: lemmas that relate several operations or states, and runs of actions.
- `AddTodo` and `TodoItem`: the two components.

Three facts are never asserted as invariants, because nothing in the client enforces them: unique ids, non-empty messages and the 200-character limit. Unique ids and fresh server ids appear only as hypotheses of individual lemmas. The store sends a create request whatever the message. Only the form refuses blank titles.

## Model

| member | source | states |
|---|---|---|
| Text.Trim | src/app/components/add-todo/add-todo.component.ts:92 | `trim` returns a string with no leading or trailing whitespace, never longer than its input |
| Text.TrimSlice | src/app/components/add-todo/add-todo.component.ts:92 | the trimmed string is a contiguous slice of the input, and everything outside it is whitespace |
| Text.TrimOfPadded | src/app/components/add-todo/add-todo.component.ts:92 | trimming a trimmed core padded on both sides by whitespace gives back exactly that core |
| Text.TrimIdempotent | src/app/components/todo-item/todo-item.component.ts:222-228 | trimming twice equals trimming once |
| Text.TrimEmptyIffAllWhitespace | src/app/components/add-todo/add-todo.component.ts:93 | the trim is empty exactly when the input is all whitespace, which is when the guard is falsy |
| Text.TrimFixedIffTrimmed | src/app/components/todo-item/todo-item.component.ts:223 | trim leaves a string unchanged exactly when it has no surrounding whitespace |
| Collections.Filter | src/app/services/todo.service.ts:28-34 | `filter` keeps only elements passing the test, keeps every such element, and never grows the list |
| Collections.FilterAppend | src/app/services/todo.service.ts:28-34 | filtering distributes over concatenation, so kept elements keep their relative order |
| Collections.FilterKeepsAll | src/app/services/todo.service.ts:128-130 | a filter returns its input unchanged exactly when every element passes |
| TodoLists.FirstIndexById | src/app/services/todo.service.ts:142 | `find` by id yields the first position holding the id, and nothing exactly when the id is absent |
| TodoLists.ReplaceById | src/app/services/todo.service.ts:104-106 | the length is kept; every position with the id holds the response and every other position is unchanged |
| TodoLists.WithoutId | src/app/services/todo.service.ts:128-130 | no item with the id remains, every other item remains, nothing new appears, and an absent id leaves the list as it is |
| TodoLists.WithoutIdAppend | src/app/services/todo.service.ts:128-130 | removal by id preserves the relative order of the survivors |
| TodoLists.WithoutIdUnique | src/app/services/todo.service.ts:128-130 | with unique ids, removing a present id deletes exactly its one position |
| TodoService.LoadFailedMessage | src/app/services/todo.service.ts:54 | the load error is "Failed to load todos from " followed by the base URL, and differs from the other three error texts |
| TodoService.Initial | src/app/services/todo.service.ts:18-20 | the initial state has an empty list, loading off and no error, so both views are empty and the count is zero |
| TodoService.CompletedTodos | src/app/services/todo.service.ts:28-30 | the completed view holds only completed items of the list, and all of them |
| TodoService.ActiveTodos | src/app/services/todo.service.ts:32-34 | the active view holds only uncompleted items of the list, and all of them |
| TodoService.TodoCount | src/app/services/todo.service.ts:36 | `todoCount` equals the sizes of the active and completed views added together |
| TodoService.Begin | src/app/services/todo.service.ts:45-46 | every remote-backed operation starts by setting loading and clearing the error, without touching the list |
| TodoService.Settle | src/app/services/todo.service.ts:48-59 | after the call settles loading is false; on success the new list is installed with no error; on rejection the list is kept and the error recorded |
| TodoService.LoadTodos | src/app/services/todo.service.ts:44-60 | a successful load replaces the list wholesale, and a null body gives the empty list; a failed load keeps the list and records the load-failure message naming the base URL |
| TodoService.CreateTodo | src/app/services/todo.service.ts:63-91 | the POST is sent whatever the message; a non-null response is appended, so the count grows by one and the old list is a prefix; a null response or a rejection keeps the list; a rejection records "Failed to create todo" |
| TodoService.UpdateTodo | src/app/services/todo.service.ts:94-118 | a non-null response replaces every item with the id and nothing else; a null response, an absent id or a rejection keeps the list; a rejection records "Failed to update todo" |
| TodoService.DeleteTodo | src/app/services/todo.service.ts:121-138 | any resolved response leaves exactly the order-preserving filter that drops every item with the id; a rejection keeps the list and records "Failed to delete todo" |
| TodoService.TogglePatch | src/app/services/todo.service.ts:144 | the toggle patch sets only `completed`, to the negation of the item's flag |
| TodoService.ToggleTodo | src/app/services/todo.service.ts:141-146 | an absent id returns the state unchanged with no request; otherwise it is `updateTodo` with the first match's completion flag flipped |
| TodoService.Construct | src/app/services/todo.service.ts:38-41 | construction runs a load on the empty initial state: on success the list is the loaded one, or empty for a null body, with no error; on failure the list stays empty and the load error is recorded |
| TodoServiceProperties.ViewsPartition | src/app/services/todo.service.ts:28-36 | the active and completed views partition the list as multisets, so `todoCount` is the length of the list |
| TodoServiceProperties.CreateExtendsOneView | src/app/services/todo.service.ts:79 | a successful create appends the new item to the end of exactly one view |
| TodoServiceProperties.LoadForgetsPrevious | src/app/services/todo.service.ts:50-51 | the result of a successful load does not depend on the state before it |
| TodoServiceProperties.CreateThenDeleteRestores | src/app/services/todo.service.ts:127-130 | deleting an item just created with a fresh id restores the earlier list |
| TodoServiceProperties.DeleteKeepsOrder | src/app/services/todo.service.ts:128-130 | a successful delete acts on each part of a split list separately, so survivors keep their order and multiplicity |
| TodoServiceProperties.DeleteIdempotent | src/app/services/todo.service.ts:127-130 | a second successful delete of the same id changes nothing |
| TodoServiceProperties.DeleteRemovesExactlyOne | src/app/services/todo.service.ts:128-130 | with unique ids, a successful delete removes exactly the matching position and the count drops by one |
| TodoServiceProperties.CreateKeepsUniqueIds | src/app/services/todo.service.ts:79 | if the server assigns an id not yet in the list, unique ids stay unique |
| TodoServiceProperties.UpdateKeepsIds | src/app/services/todo.service.ts:104-106 | an update whose response carries the same id leaves every id in place |
| TodoServiceProperties.ToggleTwiceRestores | src/app/services/todo.service.ts:141-146 | with unique ids and a server that honours the patch, toggling an item twice restores the list |
| TodoServiceProperties.CreateThenToggle | src/app/services/todo.service.ts:141-146 | creating "Buy milk" and toggling the returned id leaves a completed "Buy milk" in the list |
| TodoServiceProperties.RunStaysSettled | src/app/services/todo.service.ts:57-59 | from a settled state, any sequence of operations ends with loading false |
| TodoServiceProperties.RunCreatesCount | src/app/services/todo.service.ts:78-80 | n successful creates raise the count by exactly n and keep the earlier list as a prefix |
| AddTodo.AddTodo | src/app/components/add-todo/add-todo.component.ts:91-97 | a title is emitted exactly when the field is not all whitespace; it is the non-empty trimmed field and the field is cleared; otherwise the form is unchanged |
| AddTodo.AddDisabled | src/app/components/add-todo/add-todo.component.ts:38 | the add button is disabled exactly when the title is all whitespace |
| AddTodo.AddDisabledIffNoEmit | src/app/components/add-todo/add-todo.component.ts:38 | the add button is disabled exactly when adding would emit nothing |
| AddTodo.SecondAddEmitsNothing | src/app/components/add-todo/add-todo.component.ts:93-95 | an immediate second add never emits, and after an emission the field stays empty |
| AddTodo.AddIgnoresPadding | src/app/components/add-todo/add-todo.component.ts:92-94 | a title padded with whitespace emits the unpadded title |
| TodoItem.OnToggleComplete | src/app/components/todo-item/todo-item.component.ts:197-199 | emits the item's id as a toggle and keeps the local state |
| TodoItem.OnDelete | src/app/components/todo-item/todo-item.component.ts:201-203 | emits the item's id as a delete and keeps the local state |
| TodoItem.StartEditing | src/app/components/todo-item/todo-item.component.ts:205-207 | enters edit mode with the field holding the current message, emitting nothing |
| TodoItem.SaveEdit | src/app/components/todo-item/todo-item.component.ts:221-232 | emits `{id, trim(editMessage)}` exactly when the trimmed field is non-empty and differs from the message; always leaves edit mode; keeps the field text |
| TodoItem.CancelEdit | src/app/components/todo-item/todo-item.component.ts:234-237 | leaves edit mode with an empty field, emitting nothing |
| TodoItem.StartThenSaveUnchanged | src/app/components/todo-item/todo-item.component.ts:221-231 | editing and saving without typing emits exactly when the message has surrounding whitespace and is not blank, and then emits the trimmed message |
| TodoItem.StartThenSaveTrimmedEmitsNothing | src/app/components/todo-item/todo-item.component.ts:222-224 | an already trimmed message survives an untouched edit without any event |

## Behaviour of the code worth knowing

- `createTodo` sends the POST for any message (src/app/services/todo.service.ts:63-91). Only the add-todo form and the edit field refuse blank text.
- Errors are plain strings that name no id: "Failed to create todo", "Failed to update todo" and "Failed to delete todo" (src/app/services/todo.service.ts:87, 114, 133). The load error names the base URL (src/app/services/todo.service.ts:54).
- Ids are never checked for uniqueness. `updateTodo` and `deleteTodo` act on every item with the id (src/app/services/todo.service.ts:105, 129), and `toggleTodo` reads the first match only (src/app/services/todo.service.ts:142).
- `saveEdit` does not clear the edit field; only `cancelEdit` does.

## Left out

- HTTP transport, `firstValueFrom` and the request URLs are not modelled. The remote call is the `Outcome` parameter. The request is recorded as a `Request` value, without URLs.
- The base URL comes from the environment configuration. It is modelled as an opaque string in the state. The load-failure text is "Failed to load todos from " followed by that string.
- Angular signals and `computed` are not modelled. The views are recomputed from the list on demand.
- Interleaving of concurrent operations is not modelled. Each operation is one atomic begin-and-settle step, so the last-write-wins hazard and one operation clearing `loading` while another is still in flight do not arise.
- A request that never settles would leave `loading` set forever. It is not modelled, because every `Outcome` is settled.
- Console logging is not modelled.
- The list component (src/app/components/todo-list/todo-list.component.ts) is not modelled. It only wires events to the store and shows snackbars.
- The application shell (src/app/app.ts) is not modelled.
- The focus-after-timeout code in `startEditing`, the templates, the styles and the `maxlength` attribute are not modelled.
- Ids are mathematical integers. JavaScript numbers and their `===` on non-integers are not modelled.
- Strings are sequences of Unicode code points, not UTF-16 code units. No length limit is modelled.
- `createdAt` and `updatedAt` are carried through as optional strings and never interpreted.
- TodoServiceProperties.ServerPatched is an assumption about the remote service: it returns the item with the patched fields overwritten. Only the round-trip lemmas use it.
