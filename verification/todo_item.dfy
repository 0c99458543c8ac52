/** One displayed todo: its local edit mode and the events it emits to the list. */
module TodoItem {
  import opened Wrappers
  import opened Text
  import opened Models

  datatype ItemState = ItemState(isEditing: bool, editMessage: string)

  /** The component's outputs. */
  datatype ItemEvent =
    | ToggleComplete(id: int)
    | UpdateTodo(id: int, message: string)
    | DeleteTodo(id: int)

  /** The local state after a handler, and the event it emitted (if any). */
  datatype ItemStep = ItemStep(state: ItemState, emitted: Option<ItemEvent>)

  const Idle: ItemState := ItemState(false, "")

  function OnToggleComplete(todo: Todo, st: ItemState): (r: ItemStep)
    ensures r.state == st && r.emitted == Some(ToggleComplete(todo.id))
  {
    ItemStep(st, Some(ToggleComplete(todo.id)))
  }

  function OnDelete(todo: Todo, st: ItemState): (r: ItemStep)
    ensures r.state == st && r.emitted == Some(DeleteTodo(todo.id))
  {
    ItemStep(st, Some(DeleteTodo(todo.id)))
  }

  /** Enter edit mode with the field holding the current message. */
  function StartEditing(todo: Todo, st: ItemState): (r: ItemStep)
    ensures r.state.isEditing && r.state.editMessage == todo.message
    ensures r.emitted == None
  {
    ItemStep(ItemState(true, todo.message), None)
  }

  /** Leave edit mode, emitting an update only for a non-blank, changed message.
      The field keeps its text. */
  function SaveEdit(todo: Todo, st: ItemState): (r: ItemStep)
    ensures !r.state.isEditing && r.state.editMessage == st.editMessage
    ensures r.emitted.Some? <==> !AllWhitespace(st.editMessage) && Trim(st.editMessage) != todo.message
    ensures r.emitted.Some? ==> r.emitted == Some(UpdateTodo(todo.id, Trim(st.editMessage)))
    ensures r.emitted.Some? ==> r.emitted.value.message != [] && IsTrimmed(r.emitted.value.message)
  {
    TrimEmptyIffAllWhitespace(st.editMessage);
    var message := Trim(st.editMessage);
    var emitted := if message != [] && message != todo.message then Some(UpdateTodo(todo.id, message)) else None;
    ItemStep(st.(isEditing := false), emitted)
  }

  /** Leave edit mode, discarding the field. */
  function CancelEdit(todo: Todo, st: ItemState): (r: ItemStep)
    ensures r.state == Idle && r.emitted == None
  {
    ItemStep(Idle, None)
  }

  /** Opening the editor and saving without typing emits an update exactly
      when the stored message carries surrounding whitespace (and is not blank),
      and that update is the trimmed message. */
  lemma StartThenSaveUnchanged(todo: Todo, st: ItemState)
    ensures var saved := SaveEdit(todo, StartEditing(todo, st).state);
      && (saved.emitted.Some? <==> !IsTrimmed(todo.message) && !AllWhitespace(todo.message))
      && (saved.emitted.Some? ==> saved.emitted == Some(UpdateTodo(todo.id, Trim(todo.message))))
      && !saved.state.isEditing
  {
  }

  /** An already trimmed message survives an untouched edit without any event. */
  lemma StartThenSaveTrimmedEmitsNothing(todo: Todo, st: ItemState)
    requires IsTrimmed(todo.message)
    ensures SaveEdit(todo, StartEditing(todo, st).state).emitted == None
  {
  }
}
